/** Records shared by the layout pass and the renderer. */
module Topology {
  import opened Collections
  import opened Graphs

  /** Column and wave placement of one node (`NodePlacement`). */
  datatype Placement = Placement(nodeId: NodeId, waveIndex: nat, laneStart: nat, laneEnd: nat)

  datatype Layout = Layout(
    waves: seq<seq<NodeId>>,
    placements: map<NodeId, Placement>,
    laneCount: nat,
    nodeOrder: map<NodeId, int>,
    dependencies: Graph,
    dependents: Graph)
  {
    /** What `compute_topology_layout` guarantees to the renderer: dependency
        lists without repeats over known nodes, a dependent map that turns the
        same edges round, no cycle, and an order and a placement for every node. */
    ghost predicate WellFormed() {
      && dependencies.Keys == nodeOrder.Keys == placements.Keys
      && OrderIsInjective(nodeOrder)
      && DependencyMap(dependencies, nodeOrder)
      && Inverse(dependencies, dependents)
      && Acyclic(dependencies)
    }
  }

  ghost predicate OrderIsInjective(order: map<NodeId, int>) {
    forall a, b {:trigger SameRank(order, a, b)} :: SameRank(order, a, b) ==> a == b
  }

  ghost predicate SameRank(order: map<NodeId, int>, a: NodeId, b: NodeId) {
    a in order && b in order && order[a] == order[b]
  }

  /** Dependency lists name known nodes and repeat nothing. */
  ghost predicate DependencyMap(dependencies: Graph, order: map<NodeId, int>) {
    && dependencies.Keys <= order.Keys
    && (forall n :: n in dependencies ==> NoRepeats(dependencies[n]))
    && (forall n, d :: Edge(dependencies, n, d) ==> d in order)
  }

  // ----- sorted(ids, key=node_order.__getitem__)

  ghost predicate Ascending(s: seq<NodeId>, order: map<NodeId, int>) {
    && (forall i :: 0 <= i < |s| ==> s[i] in order)
    && (forall i, j {:trigger Earlier(s, order, i, j)} :: 0 <= i < j < |s| ==> Earlier(s, order, i, j))
  }

  ghost predicate Earlier(s: seq<NodeId>, order: map<NodeId, int>, i: int, j: int)
    requires 0 <= i < |s| && 0 <= j < |s| && s[i] in order && s[j] in order
  {
    order[s[i]] < order[s[j]]
  }

  lemma PrependAscending(x: NodeId, s: seq<NodeId>, order: map<NodeId, int>)
    requires Ascending(s, order) && x in order
    requires forall y :: y in s ==> order[x] < order[y]
    ensures Ascending([x] + s, order)
  {
    var r := [x] + s;
    forall i, j | 0 <= i < j < |r|
      ensures Earlier(r, order, i, j)
    {
      if i > 0 {
        assert Earlier(s, order, i - 1, j - 1);
      }
    }
  }

  lemma AscendingTail(s: seq<NodeId>, order: map<NodeId, int>)
    requires Ascending(s, order) && s != []
    ensures Ascending(s[1..], order) && forall y :: y in s[1..] ==> order[s[0]] < order[y]
  {
    forall i | 1 <= i < |s|
      ensures order[s[0]] < order[s[i]]
    {
      assert Earlier(s, order, 0, i);
    }
    forall i, j | 0 <= i < j < |s[1..]|
      ensures Earlier(s[1..], order, i, j)
    {
      assert Earlier(s, order, i + 1, j + 1);
    }
  }

  function InsertByOrder(x: NodeId, s: seq<NodeId>, order: map<NodeId, int>): (r: seq<NodeId>)
    requires OrderIsInjective(order) && x in order && x !in s && Ascending(s, order)
    ensures Ascending(r, order) && |r| == |s| + 1
    ensures forall y :: y in r <==> y == x || y in s
  {
    if s == [] then [x]
    else
      AscendingTail(s, order);
      assert s == [s[0]] + s[1..];
      assert !SameRank(order, x, s[0]);
      if order[x] < order[s[0]] then
        PrependAscending(x, s, order);
        [x] + s
      else
        var rest := InsertByOrder(x, s[1..], order);
        PrependAscending(s[0], rest, order);
        [s[0]] + rest
  }

  /** The ids of `s` in ascending order. */
  function SortByOrder(s: seq<NodeId>, order: map<NodeId, int>): (r: seq<NodeId>)
    requires OrderIsInjective(order) && NoRepeats(s)
    requires forall i :: 0 <= i < |s| ==> s[i] in order
    ensures Ascending(r, order) && |r| == |s|
    ensures forall y :: y in r <==> y in s
  {
    if s == [] then []
    else
      NoRepeatsTail(s);
      assert s == [s[0]] + s[1..];
      InsertByOrder(s[0], SortByOrder(s[1..], order), order)
  }

  lemma AscendingNoRepeats(s: seq<NodeId>, order: map<NodeId, int>)
    requires Ascending(s, order)
    ensures NoRepeats(s)
  {
    assert forall i, j :: 0 <= i < j < |s| ==> Earlier(s, order, i, j) ==> Differ(s, i, j);
  }
}
