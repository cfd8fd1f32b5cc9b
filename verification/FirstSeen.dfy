/**
  "Keep the first of every key": the seen-set idiom shared by the grant resolver and
  the search endpoints, as a function with the algebra its callers rely on.
 */
module FirstSeen {

  // The key of strings that are their own keys.
  const ITSELF := (s: string) => s

  function Keys<T, K>(rs: seq<T>, key: T -> K): set<K> {
    set i | 0 <= i < |rs| :: key(rs[i])
  }

  // rs without the elements whose key occurred before them.
  function Unique<T, K(==)>(rs: seq<T>, key: T -> K): seq<T> {
    if rs == [] then []
    else
      var n := |rs| - 1;
      var head := Unique(rs[..n], key);
      if key(rs[n]) in Keys(rs[..n], key) then head else head + [rs[n]]
  }

  ghost predicate DistinctKeys<T, K>(rs: seq<T>, key: T -> K) {
    forall i, j :: 0 <= i < j < |rs| ==> key(rs[i]) != key(rs[j])
  }

  // rs without the elements whose key is in `gone`.
  function Without<T, K(==)>(rs: seq<T>, key: T -> K, gone: set<K>): seq<T> {
    if rs == [] then []
    else
      var n := |rs| - 1;
      Without(rs[..n], key, gone) + if key(rs[n]) in gone then [] else [rs[n]]
  }

  // Nothing is invented, no key is lost, and no key is left twice.
  lemma {:induction false} UniqueKeeps<T, K>(rs: seq<T>, key: T -> K)
    ensures forall r :: r in Unique(rs, key) ==> r in rs
    ensures Keys(Unique(rs, key), key) == Keys(rs, key)
    ensures DistinctKeys(Unique(rs, key), key)
  {
    if rs != [] {
      var n := |rs| - 1;
      UniqueKeeps(rs[..n], key);
      var u := Unique(rs[..n], key);
      assert rs == rs[..n] + [rs[n]];
      KeysAppend(rs[..n], rs[n], key);
      KeysAppend(u, rs[n], key);
      forall i | 0 <= i < |u| ensures key(u[i]) in Keys(rs[..n], key) {
        assert key(u[i]) in Keys(u, key);
      }
    }
  }

  // The key of rs[i] occurs nowhere before.
  ghost predicate FirstOfKey<T, K>(rs: seq<T>, key: T -> K, i: int) {
    0 <= i < |rs| && forall j :: 0 <= j < i ==> key(rs[j]) != key(rs[i])
  }

  ghost predicate Increasing(at: seq<int>) {
    forall i, j :: 0 <= i < j < |at| ==> at[i] < at[j]
  }

  // u consists of the elements at these positions, in their order.
  ghost predicate PickedAt<T>(rs: seq<T>, at: seq<int>, u: seq<T>) {
    && |at| == |u| && Increasing(at)
    && forall k :: 0 <= k < |u| ==> 0 <= at[k] < |rs| && u[k] == rs[at[k]]
  }

  // Exactly the first element of every key is kept, in order.
  lemma {:induction false} UniqueFirst<T, K>(rs: seq<T>, key: T -> K) returns (at: seq<int>)
    ensures PickedAt(rs, at, Unique(rs, key))
    ensures forall i :: i in at <==> FirstOfKey(rs, key, i)
  {
    at := [];
    if rs != [] {
      var init, last := rs[..|rs| - 1], rs[|rs| - 1];
      assert rs == init + [last];
      at := UniqueFirst(init, key);
      UniqueAppend(init, last, key);
      FirstsAppend(init, last, key);
      if key(last) !in Keys(init, key) {
        PickLast(init, last, at, Unique(init, key));
        at := at + [|init|];
      }
    }
  }

  lemma FirstsAppend<T, K>(rs: seq<T>, r: T, key: T -> K)
    ensures forall i :: i != |rs| ==> (FirstOfKey(rs + [r], key, i) <==> FirstOfKey(rs, key, i))
    ensures FirstOfKey(rs + [r], key, |rs|) <==> key(r) !in Keys(rs, key)
  {
    var more := rs + [r];
    forall i | 0 <= i < |rs| ensures FirstOfKey(more, key, i) <==> FirstOfKey(rs, key, i) {
      assert forall j :: 0 <= j <= i ==> more[j] == rs[j];
    }
    if key(r) in Keys(rs, key) {
      var j :| 0 <= j < |rs| && key(rs[j]) == key(r);
      assert more[j] == rs[j];
    }
  }

  lemma PickLast<T>(rs: seq<T>, r: T, at: seq<int>, u: seq<T>)
    requires PickedAt(rs, at, u)
    ensures PickedAt(rs + [r], at + [|rs|], u + [r])
  {
  }

  lemma KeysAppend<T, K>(rs: seq<T>, r: T, key: T -> K)
    ensures Keys(rs + [r], key) == Keys(rs, key) + {key(r)}
  {
    var all := rs + [r];
    forall k | k in Keys(rs, key) + {key(r)} ensures k in Keys(all, key) {
      if k == key(r) {
        assert all[|rs|] == r;
      } else {
        var i :| 0 <= i < |rs| && key(rs[i]) == k;
        assert all[i] == rs[i];
      }
    }
  }

  lemma KeysConcat<T, K>(a: seq<T>, b: seq<T>, key: T -> K)
    ensures Keys(a + b, key) == Keys(a, key) + Keys(b, key)
  {
    var all := a + b;
    forall k | k in Keys(a, key) + Keys(b, key) ensures k in Keys(all, key) {
      if k in Keys(a, key) {
        var i :| 0 <= i < |a| && key(a[i]) == k;
        assert all[i] == a[i];
      } else {
        var i :| 0 <= i < |b| && key(b[i]) == k;
        assert all[|a| + i] == b[i];
      }
    }
  }

  lemma AppendDistinct<T, K>(rs: seq<T>, r: T, key: T -> K)
    requires DistinctKeys(rs, key) && key(r) !in Keys(rs, key)
    ensures DistinctKeys(rs + [r], key)
  {
    forall i | 0 <= i < |rs| ensures key(rs[i]) != key(r) {
      assert key(rs[i]) in Keys(rs, key);
    }
  }

  lemma UniqueAppend<T, K>(rs: seq<T>, r: T, key: T -> K)
    ensures Unique(rs + [r], key) == if key(r) in Keys(rs, key) then Unique(rs, key) else Unique(rs, key) + [r]
  {
    assert (rs + [r])[..|rs|] == rs;
  }

  lemma WithoutAppend<T, K>(rs: seq<T>, r: T, key: T -> K, gone: set<K>)
    ensures Without(rs + [r], key, gone) ==
            if key(r) in gone then Without(rs, key, gone) else Without(rs, key, gone) + [r]
  {
    assert (rs + [r])[..|rs|] == rs;
  }

  // Deduplicating a concatenation.
  lemma {:induction false} UniqueConcat<T, K>(a: seq<T>, b: seq<T>, key: T -> K)
    ensures Unique(a + b, key) == Unique(a, key) + Without(Unique(b, key), key, Keys(a, key))
    decreases |b|
  {
    if b == [] {
      assert a + b == a;
    } else {
      var init, r := b[..|b| - 1], b[|b| - 1];
      UniqueConcat(a, init, key);
      KeysConcat(a, init, key);
      assert a + b == (a + init) + [r] && b == init + [r];
      UniqueAppend(a + init, r, key);
      UniqueAppend(init, r, key);
      WithoutAppend(Unique(init, key), r, key, Keys(a, key));
      ConcatAssociates(Unique(a, key), Without(Unique(init, key), key, Keys(a, key)), [r]);
    }
  }

  lemma {:induction false} UniqueOfDistinct<T, K>(rs: seq<T>, key: T -> K)
    requires DistinctKeys(rs, key)
    ensures Unique(rs, key) == rs
  {
    if rs != [] {
      UniqueOfDistinct(rs[..|rs| - 1], key);
      assert rs == rs[..|rs| - 1] + [rs[|rs| - 1]];
    }
  }

  lemma {:induction false} WithoutKeys<T, K>(rs: seq<T>, key: T -> K, gone: set<K>)
    ensures Keys(Without(rs, key, gone), key) == Keys(rs, key) - gone
  {
    if rs != [] {
      var n := |rs| - 1;
      var head := Without(rs[..n], key, gone);
      WithoutKeys(rs[..n], key, gone);
      assert rs == rs[..n] + [rs[n]];
      KeysAppend(rs[..n], rs[n], key);
      KeysAppend(head, rs[n], key);
      assert Without(rs, key, gone) == if key(rs[n]) in gone then head else head + [rs[n]];
    }
  }

  lemma {:induction false} WithoutDistinct<T, K>(rs: seq<T>, key: T -> K, gone: set<K>)
    requires DistinctKeys(rs, key)
    ensures DistinctKeys(Without(rs, key, gone), key)
  {
    if rs != [] {
      var n := |rs| - 1;
      WithoutDistinct(rs[..n], key, gone);
      WithoutKeys(rs[..n], key, gone);
      if key(rs[n]) !in gone {
        AppendDistinct(Without(rs[..n], key, gone), rs[n], key);
      }
    }
  }

  lemma ConcatDistinct<T, K>(a: seq<T>, b: seq<T>, key: T -> K)
    requires DistinctKeys(a, key) && DistinctKeys(b, key) && Keys(a, key) !! Keys(b, key)
    ensures DistinctKeys(a + b, key)
  {
    forall i, j | 0 <= i < |a| && 0 <= j < |b| ensures key(a[i]) != key(b[j]) {
      assert key(a[i]) in Keys(a, key) && key(b[j]) in Keys(b, key);
    }
  }

  lemma TakeNext<T>(rs: seq<T>, i: nat)
    requires i < |rs|
    ensures rs[..i] + [rs[i]] == rs[..i + 1]
  {
  }

  lemma {:induction false} WithoutPrefix<T, K>(rs: seq<T>, key: T -> K, gone: set<K>, n: nat)
    requires n <= |rs|
    ensures Without(rs[..n], key, gone) <= Without(rs, key, gone)
    decreases |rs| - n
  {
    if n < |rs| {
      WithoutPrefix(rs, key, gone, n + 1);
      assert rs[..n + 1][..n] == rs[..n];
    } else {
      assert rs[..n] == rs;
    }
  }

  // Pigeonhole: removing the keys in `gone` from a list of distinct keys costs at
  // most |gone| elements.
  lemma {:induction false} WithoutCost<T, K>(rs: seq<T>, key: T -> K, gone: set<K>)
    requires DistinctKeys(rs, key)
    ensures |Without(rs, key, gone)| + |gone| >= |rs|
    decreases |rs|
  {
    if rs != [] {
      var n := |rs| - 1;
      if key(rs[n]) in gone {
        var fewer := gone - {key(rs[n])};
        WithoutCost(rs[..n], key, fewer);
        WithoutIgnores(rs[..n], key, gone, key(rs[n]));
        assert gone == fewer + {key(rs[n])};
      } else {
        WithoutCost(rs[..n], key, gone);
      }
    }
  }

  lemma {:induction false} WithoutIgnores<T, K>(rs: seq<T>, key: T -> K, gone: set<K>, k: K)
    requires forall i :: 0 <= i < |rs| ==> key(rs[i]) != k
    ensures Without(rs, key, gone) == Without(rs, key, gone - {k})
  {
    if rs != [] {
      WithoutIgnores(rs[..|rs| - 1], key, gone, k);
    }
  }

  lemma ConcatAssociates<T>(a: seq<T>, b: seq<T>, c: seq<T>)
    ensures a + (b + c) == (a + b) + c
  {
  }
}
