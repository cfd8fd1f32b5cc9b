/** Turning every edge of a graph round. */
module InverseGraph {
  import opened RoleGraph

  // How often g holds the edge from a to b.
  function Times(g: Graph, a: string, b: string): nat {
    multiset(Next(g, a))[b]
  }

  // inv holds every edge of g turned round, as often as g holds it.
  ghost predicate IsInverse(g: Graph, inv: Graph) {
    forall p, c :: Times(inv, c, p) == Times(g, p, c)
  }

  lemma InverseEdge(g: Graph, inv: Graph, p: string, c: string)
    requires IsInverse(g, inv)
    ensures c in Next(g, p) <==> p in Next(inv, c)
  {
    assert Times(inv, c, p) == Times(g, p, c);
    assert c in Next(g, p) <==> c in multiset(Next(g, p));
    assert p in Next(inv, c) <==> p in multiset(Next(inv, c));
  }

  lemma {:induction false} ReverseWalk(g: Graph, inv: Graph, a: string, b: string, n: nat)
    requires IsInverse(g, inv) && Walk(g, a, b, n)
    ensures Walk(inv, b, a, n)
    decreases n
  {
    if n > 0 {
      var c :| Walk(g, a, c, n - 1) && b in Next(g, c);
      ReverseWalk(g, inv, a, c, n - 1);
      InverseEdge(g, inv, c, b);
      WalkPrepend(inv, b, c, a, n - 1);
    }
  }

  lemma InverseReaches(g: Graph, inv: Graph, a: string, b: string)
    requires IsInverse(g, inv)
    ensures Reaches(g, a, b) <==> Reaches(inv, b, a)
  {
    if n: nat :| Walk(g, a, b, n) {
      ReverseWalk(g, inv, a, b, n);
    }
    if n: nat :| Walk(inv, b, a, n) {
      assert IsInverse(inv, g);
      ReverseWalk(inv, g, b, a, n);
    }
  }
}
