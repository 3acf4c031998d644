/**
  From a declared workflow to the recorded graph states: layout, drawing order
  (`observability/node_order.py`), lanes.
 */
module DagView {
  import opened Results
  import opened Collections
  import opened Graphs
  import opened Topology
  import opened RenderMaps
  import opened Lanes
  import opened LayoutPass
  import Waves

  /** Entry `i` comes after all it needs among the nodes on display. */
  ghost predicate AfterNeeds(ordered: seq<NodeId>, i: nat, needs: Waves.Needs, present: set<NodeId>)
    requires i < |ordered|
  {
    ordered[i] in needs && needs[ordered[i]] * present <= Members(ordered[..i])
  }

  ghost predicate NeedsFirst(ordered: seq<NodeId>, needs: Waves.Needs, present: set<NodeId>) {
    forall i {:trigger AfterNeeds(ordered, i, needs, present)} ::
      0 <= i < |ordered| ==> AfterNeeds(ordered, i, needs, present)
  }

  lemma AppendAfterNeeds(ordered: seq<NodeId>, n: NodeId, needs: Waves.Needs, present: set<NodeId>)
    requires NeedsFirst(ordered, needs, present)
    requires n in needs && needs[n] * present <= Members(ordered)
    ensures NeedsFirst(ordered + [n], needs, present)
  {
    var more := ordered + [n];
    forall i | 0 <= i < |more|
      ensures AfterNeeds(more, i, needs, present)
    {
      if i < |ordered| {
        assert AfterNeeds(ordered, i, needs, present);
        assert more[..i] == ordered[..i];
      } else {
        assert more[..i] == ordered;
      }
    }
  }

  /** What has been listed once the first `k` nodes of wave `w` have been seen. */
  ghost predicate ListedUpTo(ordered: seq<NodeId>, needs: Waves.Needs, waves: seq<seq<NodeId>>, w: nat, k: nat, present: set<NodeId>)
    requires w < |waves| && k <= |waves[w]|
  {
    && NoRepeats(ordered) && Members(ordered) == Waves.LeftIn(Waves.Left(waves, w), waves[w], k) * present
    && NeedsFirst(ordered, needs, present)
    && ordered == Waves.InOrder(Waves.Flat(waves, w) + waves[w][..k], present)
  }

  lemma {:induction false} InOrderNext(s: seq<NodeId>, x: NodeId, present: set<NodeId>)
    ensures Waves.InOrder(s + [x], present) == Waves.InOrder(s, present) + if x in present then [x] else []
  {
    if s == [] {
      assert s + [x] == [x];
    } else {
      assert (s + [x])[0] == s[0] && (s + [x])[1..] == s[1..] + [x];
      InOrderNext(s[1..], x, present);
    }
  }

  lemma ListNext(ordered: seq<NodeId>, ids: seq<NodeId>, needs: Waves.Needs, waves: seq<seq<NodeId>>, w: nat, k: nat, present: set<NodeId>)
    requires NoRepeats(ids) && Waves.KnownNeeds(ids, needs) && Waves.WavesOk(ids, needs, waves)
    requires w < |waves| && k < |waves[w]| && ListedUpTo(ordered, needs, waves, w, k, present)
    ensures waves[w][k] !in ordered
    ensures waves[w][k] in present ==> ListedUpTo(ordered + [waves[w][k]], needs, waves, w, k + 1, present)
    ensures waves[w][k] !in present ==> ListedUpTo(ordered, needs, waves, w, k + 1, present)
  {
    var n := waves[w][k];
    NextToPlace(ids, needs, waves, w, k);
    assert n in Members(ordered) <==> n in ordered;
    NextOf(waves[w], k);
    assert Waves.Flat(waves, w) + waves[w][..k + 1] == Waves.Flat(waves, w) + waves[w][..k] + [n];
    InOrderNext(Waves.Flat(waves, w) + waves[w][..k], n, present);
    if n in present {
      AppendNoRepeats(ordered, n);
      AppendAfterNeeds(ordered, n, needs, present);
      assert Members(ordered + [n]) == Members(ordered) + {n};
    }
  }

  /** The wave loop of `topological_node_order`. */
  method ListWaves(waves: seq<seq<NodeId>>, present: set<NodeId>, ghost ids: seq<NodeId>, ghost needs: Waves.Needs)
    returns (ordered: seq<NodeId>)
    requires NoRepeats(ids) && Waves.KnownNeeds(ids, needs) && Waves.WavesOk(ids, needs, waves)
    ensures NoRepeats(ordered) && Members(ordered) == Waves.Left(waves, |waves|) * present
    ensures NeedsFirst(ordered, needs, present)
    ensures ordered == Waves.InOrder(Waves.Flat(waves, |waves|), present)
  {
    ordered := [];
    var seen: set<NodeId> := {};
    for w := 0 to |waves|
      invariant NoRepeats(ordered) && seen == Members(ordered) == Waves.Left(waves, w) * present
      invariant NeedsFirst(ordered, needs, present)
      invariant ordered == Waves.InOrder(Waves.Flat(waves, w), present)
    {
      Waves.AllLeave(Waves.Left(waves, w), waves[w]);
      assert Waves.Flat(waves, w) + waves[w][..0] == Waves.Flat(waves, w);
      for k := 0 to |waves[w]|
        invariant ListedUpTo(ordered, needs, waves, w, k, present) && seen == Members(ordered)
      {
        var n := waves[w][k];
        ListNext(ordered, ids, needs, waves, w, k, present);
        if n in present && n !in seen {
          ordered := ordered + [n];
          seen := seen + {n};
        }
      }
      assert waves[w][..|waves[w]|] == waves[w];
    }
  }

  /** `topological_node_order`: the nodes on display in wave order, followed by
      those the layout does not know, in display order. */
  method TopologicalNodeOrder(stateIds: seq<NodeId>, waves: seq<seq<NodeId>>, ghost ids: seq<NodeId>, ghost needs: Waves.Needs)
    returns (ordered: seq<NodeId>)
    requires NoRepeats(ids) && Waves.KnownNeeds(ids, needs) && Waves.WavesOk(ids, needs, waves)
    requires NoRepeats(stateIds)
    ensures NoRepeats(ordered) && Members(ordered) == Members(stateIds)
    ensures ordered == Waves.InOrder(Waves.Flat(waves, |waves|), Members(stateIds))
                       + Waves.InOrder(stateIds, Members(stateIds) - Waves.Left(waves, |waves|))
    ensures Members(stateIds) <= Waves.Left(waves, |waves|) ==> NeedsFirst(ordered, needs, Members(stateIds))
  {
    var present := Members(stateIds);
    ordered := ListWaves(waves, present, ids, needs);
    var extras := Waves.InOrder(stateIds, present - Members(ordered));
    assert present - Members(ordered) == present - Waves.Left(waves, |waves|);
    if |ordered| == |stateIds| {
      SameSizeSameMembers(ordered, stateIds);
      assert present - Members(ordered) == {};
      Waves.NothingInOrder(stateIds);
      assert ordered + [] == ordered;
      return;
    }
    if present <= Waves.Left(waves, |waves|) {
      assert present - Members(ordered) == {};
      Waves.NothingInOrder(stateIds);
      assert ordered + extras == ordered;
    }
    ListedThenRest(ordered, stateIds);
    ordered := ordered + extras;
  }

  /** The listed nodes and the others together are all nodes, each once. */
  lemma ListedThenRest(ordered: seq<NodeId>, all: seq<NodeId>)
    requires NoRepeats(ordered) && NoRepeats(all) && Members(ordered) <= Members(all)
    ensures var rest := Waves.InOrder(all, Members(all) - Members(ordered));
            NoRepeats(ordered + rest) && Members(ordered + rest) == Members(all)
  {
    var left := Members(all) - Members(ordered);
    var rest := Waves.InOrder(all, left);
    Waves.SortedWithoutRepeats(all, left);
    forall x ensures x in rest <==> x in left {
      assert x in Members(all) <==> x in all;
    }
    forall x | x in ordered ensures x !in rest {
      assert x in Members(ordered);
    }
    ConcatNoRepeats(ordered, rest);
    Waves.MembersConcat(ordered, rest);
  }

  lemma SameSizeSameMembers(a: seq<NodeId>, b: seq<NodeId>)
    requires NoRepeats(a) && NoRepeats(b) && |a| == |b| && Members(a) <= Members(b)
    ensures Members(a) == Members(b)
  {
    forall x | x in b
      ensures x in a
    {
      if x !in a {
        AppendNoRepeats(a, x);
        assert forall y :: y in a ==> y in Members(b);
        MembersBound(a + [x], b);
      }
    }
  }

  lemma MembersBound(a: seq<NodeId>, b: seq<NodeId>)
    requires NoRepeats(a) && NoRepeats(b) && forall x :: x in a ==> x in b
    ensures |a| <= |b|
  {
    Waves.CountMembers(b);
    forall i | 0 <= i < |a|
      ensures a[i] in Members(b)
    {
      assert a[i] in a;
    }
    NoRepeatsBound(a, Members(b));
  }

  lemma NeedsFirstIsTopological(ordered: seq<NodeId>, ids: seq<NodeId>, needs: Waves.Needs)
    requires NoRepeats(ids) && Waves.KnownNeeds(ids, needs) && NoRepeats(ordered)
    requires NeedsFirst(ordered, needs, needs.Keys)
    ensures TopologicalOrder(ordered, Waves.AsGraph(ids, needs))
  {
    var g := Waves.AsGraph(ids, needs);
    forall i | 0 <= i < |ordered|
      ensures ordered[i] in g && forall d :: Edge(g, ordered[i], d) ==> d in ordered[..i]
    {
      assert AfterNeeds(ordered, i, needs, needs.Keys);
      forall d | Edge(g, ordered[i], d)
        ensures d in ordered[..i]
      {
        Waves.GraphEdges(ids, needs, ordered[i], d);
        assert d in Members(ordered[..i]);
      }
    }
  }

  /** The drawing order of all declared nodes. */
  method OrderNodes(nodes: seq<Waves.TopologyNode>, layout: Layout) returns (ordered: seq<NodeId>)
    requires NoRepeats(Waves.Ids(nodes)) && KnownDependencies(nodes) && LayoutOf(nodes, layout)
    ensures TopologicalOrder(ordered, layout.dependencies) && Members(ordered) == Members(Waves.Ids(nodes))
    ensures Members(ordered) == layout.dependencies.Keys
  {
    ghost var ids, needs := Waves.Ids(nodes), Waves.NeedsOf(nodes);
    KnownFromLayout(nodes);
    ordered := TopologicalNodeOrder(Waves.Ids(nodes), layout.waves, ids, needs);
    NeedsFirstIsTopological(ordered, ids, needs);
  }

  /** The states drawn for a declared workflow, lane by lane: every node once,
      after all it depends on, and no lane left open at the end. */
  ghost predicate Drawing(nodes: seq<Waves.TopologyNode>, layout: Layout, ordered: seq<NodeId>, states: seq<GraphState>)
    requires NoRepeats(Waves.Ids(nodes))
  {
    && LayoutOf(nodes, layout)
    && TopologicalOrder(ordered, layout.dependencies) && Members(ordered) == Members(Waves.Ids(nodes))
    && |states| == |ordered| && Walked(states, ordered, Rendered(layout.dependencies), layout)
    && Left(states, |states|) == []
  }

  /** The dashboard's path from topology to graph states succeeds exactly when the
      declared nodes are distinct and their dependencies known and acyclic. */
  method DrawWorkflow(nodes: seq<Waves.TopologyNode>)
    returns (r: Result<(Layout, seq<NodeId>, seq<GraphState>)>)
    ensures r.Ok? <==> NoRepeats(Waves.Ids(nodes)) && KnownDependencies(nodes)
                       && Acyclic(Waves.AsGraph(Waves.Ids(nodes), Waves.NeedsOf(nodes)))
    ensures r.Ok? ==> Drawing(nodes, r.value.0, r.value.1, r.value.2)
  {
    var computed := ComputeTopologyLayout(nodes);
    if computed.Error? {
      return Error(computed.message);
    }
    var layout := computed.value;
    var ordered := OrderNodes(nodes, layout);
    var states := BuildGraphStates(ordered, layout);
    return Ok((layout, ordered, states));
  }

  lemma KnownFromLayout(nodes: seq<Waves.TopologyNode>)
    requires NoRepeats(Waves.Ids(nodes)) && KnownDependencies(nodes)
    ensures Waves.KnownNeeds(Waves.Ids(nodes), Waves.NeedsOf(nodes))
    ensures Members(Waves.Ids(nodes)) == Waves.NeedsOf(nodes).Keys
  {
    forall n, d | Waves.Requires(Waves.NeedsOf(nodes), n, d)
      ensures d in Waves.NeedsOf(nodes)
    {
      Waves.NeedsEdges(nodes, n, d);
    }
  }
}
