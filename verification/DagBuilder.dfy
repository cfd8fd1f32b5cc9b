/** The builder that every graph endpoint assembles its nodes and edges with. */
module DagBuilder {
  import opened GrantTypes
  import opened FirstSeen
  import opened Decimals

  type Metadata = map<string, string>

  datatype DagNode = DagNode(
    id: string, caption: string, nodeType: string, nodeRole: Option<string>, metadata: Option<Metadata>)

  datatype DagEdge = DagEdge(id: string, source: string, target: string, edgeType: string)

  datatype DagGraph = DagGraph(nodes: seq<DagNode>, edges: seq<DagEdge>)

  const NODE_ID := (n: DagNode) => n.id

  const ENDS := (e: DagEdge) => (e.source, e.target)

  // ---------------------------------------------------------------------------
  // Edge ids

  function EdgeId(n: nat): string {
    "e" + Decimal(n)
  }

  // Two edges never get the same id.
  lemma EdgeIdInjective(m: nat, n: nat)
    requires EdgeId(m) == EdgeId(n)
    ensures m == n
  {
    assert EdgeId(m)[1..] == Decimal(m) && EdgeId(n)[1..] == Decimal(n);
    DecimalInjective(m, n);
  }

  // e0, e1, e2, ... in order.
  predicate Dense(edges: seq<DagEdge>) {
    forall i :: 0 <= i < |edges| ==> edges[i].id == EdgeId(i)
  }

  lemma DenseIdsDiffer(edges: seq<DagEdge>)
    requires Dense(edges)
    ensures forall i, j :: 0 <= i < j < |edges| ==> edges[i].id != edges[j].id
  {
    forall i, j | 0 <= i < j < |edges| ensures edges[i].id != edges[j].id {
      if edges[i].id == edges[j].id {
        EdgeIdInjective(i, j);
      }
    }
  }

  // Both ends of every edge are nodes.
  predicate NoDangling(nodes: seq<DagNode>, edges: seq<DagEdge>) {
    forall i :: 0 <= i < |edges| ==> edges[i].source in Keys(nodes, NODE_ID) && edges[i].target in Keys(nodes, NODE_ID)
  }

  // ---------------------------------------------------------------------------

  class DAGBuilder {
    var nodes: seq<DagNode>
    var edges: seq<DagEdge>
    var nodeIds: set<string>
    var edgeKeys: set<(string, string)>
    var edgeIdx: nat
    // The edges that were added with dedup.
    ghost var tracked: seq<DagEdge>

    ghost predicate Valid()
      reads this
    {
      && nodeIds == Keys(nodes, NODE_ID)
      && edgeIdx == |edges| && Dense(edges)
      && edgeKeys == Keys(tracked, ENDS) && DistinctKeys(tracked, ENDS)
      && forall e :: e in tracked ==> e in edges
    }

    constructor ()
      ensures Valid() && nodes == [] && edges == [] && nodeIds == {} && edgeKeys == {} && tracked == []
    {
      nodes, edges := [], [];
      nodeIds, edgeKeys := {}, {};
      edgeIdx := 0;
      tracked := [];
    }

    // Append a node unless dedup finds its id among all nodes added before.
    method AddNode(
        id: string, caption: string, nodeType: string, metadata: Option<Metadata>, nodeRole: Option<string>,
        dedup: bool)
      returns (added: bool)
      requires Valid()
      modifies this`nodes, this`nodeIds
      ensures Valid()
      ensures added <==> !dedup || id !in Keys(old(nodes), NODE_ID)
      ensures added <==> !dedup || forall i :: 0 <= i < |old(nodes)| ==> old(nodes)[i].id != id
      ensures nodes == old(nodes) + if added then [DagNode(id, caption, nodeType, nodeRole, metadata)] else []
      ensures nodeIds == old(nodeIds) + {id}
      ensures dedup && DistinctKeys(old(nodes), NODE_ID) ==> DistinctKeys(nodes, NODE_ID)
    {
      if dedup && id in nodeIds {
        return false;
      }
      ghost var before := nodes;
      var node := DagNode(id, caption, nodeType, nodeRole, metadata);
      nodes := nodes + [node];
      nodeIds := nodeIds + {id};
      KeysAppend(before, node, NODE_ID);
      if dedup && DistinctKeys(before, NODE_ID) {
        AppendDistinct(before, node, NODE_ID);
      }
      added := true;
    }

    // Append an edge under the next id unless dedup finds its ends among the edges added
    // with dedup before.
    method AddEdge(source: string, target: string, edgeType: string, dedup: bool) returns (added: bool)
      requires Valid()
      modifies this`edges, this`edgeIdx, this`edgeKeys, this`tracked
      ensures Valid()
      ensures added <==> !dedup || (source, target) !in Keys(old(tracked), ENDS)
      ensures added <==> !dedup || forall i :: 0 <= i < |old(tracked)| ==>
                old(tracked)[i].source != source || old(tracked)[i].target != target
      ensures var more := if added then [DagEdge(EdgeId(|old(edges)|), source, target, edgeType)] else [];
              edges == old(edges) + more && tracked == old(tracked) + if dedup then more else []
    {
      if dedup && (source, target) in edgeKeys {
        return false;
      }
      var edge := DagEdge(EdgeId(edgeIdx), source, target, edgeType);
      edges := edges + [edge];
      edgeIdx := edgeIdx + 1;
      if dedup {
        edgeKeys := edgeKeys + {(source, target)};
        KeysAppend(tracked, edge, ENDS);
        AppendDistinct(tracked, edge, ENDS);
        tracked := tracked + [edge];
      }
      added := true;
    }

    method Build() returns (graph: DagGraph)
      requires Valid()
      ensures graph == DagGraph(nodes, edges)
      ensures forall i, j :: 0 <= i < j < |graph.edges| ==> graph.edges[i].id != graph.edges[j].id
    {
      DenseIdsDiffer(edges);
      graph := DagGraph(nodes, edges);
    }
  }
}
