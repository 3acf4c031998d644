/**
  The dependency and dependent maps the DAG view draws: two pruning passes over
  the layout's dependencies (`render_dependency_maps`).
 */
module RenderMaps {
  import opened Collections
  import opened Graphs
  import opened Topology
  import opened Pruning

  // ----- dependent_map_for

  ghost predicate Filed(dependencies: Graph, done: set<NodeId>, lists: Graph) {
    forall d, n :: Edge(lists, d, n) <==> n in done && Edge(dependencies, n, d)
  }

  ghost predicate ListsWithoutRepeats(lists: Graph) {
    forall d :: d in lists ==> NoRepeats(lists[d])
  }

  /** Files `nodeId` under each of its dependencies. */
  method FileUnder(nodeId: NodeId, dependencyIds: seq<NodeId>, lists: Graph) returns (filed: Graph)
    requires NoRepeats(dependencyIds) && ListsWithoutRepeats(lists)
    requires forall d :: d in dependencyIds ==> d in lists
    requires forall d :: d in lists ==> nodeId !in lists[d]
    ensures filed.Keys == lists.Keys && ListsWithoutRepeats(filed)
    ensures forall d, n :: Edge(filed, d, n) <==> Edge(lists, d, n) || (n == nodeId && d in dependencyIds)
  {
    filed := lists;
    for i := 0 to |dependencyIds|
      invariant filed.Keys == lists.Keys
      invariant forall d :: d in lists ==>
        filed[d] == if d in dependencyIds[..i] then lists[d] + [nodeId] else lists[d]
    {
      var d := dependencyIds[i];
      assert d in dependencyIds;
      NextOf(dependencyIds, i);
      filed := filed[d := filed[d] + [nodeId]];
    }
    assert dependencyIds[..|dependencyIds|] == dependencyIds;
    forall d | d in filed
      ensures NoRepeats(filed[d])
    {
      AppendNoRepeats(lists[d], nodeId);
    }
  }

  /** `dependent_map_for`; the order in which the source walks the dictionary is
      immaterial, because every list is sorted at the end. */
  method DependentMapFor(dependencies: Graph, nodeOrder: map<NodeId, int>) returns (dependents: Graph)
    requires OrderIsInjective(nodeOrder) && DependencyMap(dependencies, nodeOrder)
    ensures dependents.Keys == nodeOrder.Keys
    ensures Inverse(dependencies, dependents)
    ensures forall d :: d in dependents ==> Ascending(dependents[d], nodeOrder)
  {
    var lists: Graph := map d | d in nodeOrder :: [];
    var todo := dependencies.Keys;
    while todo != {}
      invariant todo <= dependencies.Keys && lists.Keys == nodeOrder.Keys
      invariant Filed(dependencies, dependencies.Keys - todo, lists)
      invariant ListsWithoutRepeats(lists)
    {
      var n :| n in todo;
      forall d | d in dependencies[n]
        ensures d in lists
      {
        assert Edge(dependencies, n, d);
      }
      forall d | d in lists
        ensures n !in lists[d]
      {
        assert !Edge(lists, d, n);
      }
      lists := FileUnder(n, dependencies[n], lists);
      todo := todo - {n};
    }
    forall d, n | d in lists && n in lists[d]
      ensures n in nodeOrder
    {
      assert Edge(lists, d, n);
    }
    dependents := map d | d in lists :: SortByOrder(lists[d], nodeOrder);
    forall n, d
      ensures Edge(dependencies, n, d) <==> Edge(dependents, d, n)
    {
      assert Edge(lists, d, n) <==> Edge(dependents, d, n);
    }
  }

  // ----- what each pass keeps, told on the dependency map itself

  /** The elements of `s` outside `dropped`, in order. */
  function Except(s: seq<NodeId>, dropped: set<NodeId>): (r: seq<NodeId>)
    ensures forall d :: d in r <==> d in s && d !in dropped
    ensures NoRepeats(s) ==> NoRepeats(r)
  {
    if s == [] then []
    else
      var last := s[|s| - 1];
      var r := Except(s[..|s| - 1], dropped);
      NextOf(s, |s| - 1);
      assert s == s[..|s| - 1] + [last];
      if last in dropped then r
      else
        var more := r + [last];
        assert NoRepeats(s) ==> NoRepeats(more) by {
          if NoRepeats(s) {
            AppendNoRepeats(r, last);
          }
        }
        more
  }

  lemma ExceptNext(s: seq<NodeId>, i: nat, dropped: set<NodeId>)
    requires i < |s|
    ensures Except(s[..i + 1], dropped) == if s[i] in dropped then Except(s[..i], dropped) else Except(s[..i], dropped) + [s[i]]
  {
    assert s[..i + 1][..i] == s[..i] && s[..i + 1][i] == s[i];
  }

  /** Dependencies of `n` whose longest detour has exactly two edges. */
  ghost function ShortTransitive(dependencies: Graph, n: NodeId): set<NodeId> {
    set d | d in Succ(dependencies, n) && LongestDetour(dependencies, n, d, SHORT_TRANSITIVE_PATH_LENGTH)
  }

  ghost function PrunedShort(dependencies: Graph): Graph {
    map n | n in dependencies :: Except(dependencies[n], ShortTransitive(dependencies, n))
  }

  function FaninNodes(dependencies: Graph): set<NodeId> {
    set n | n in dependencies && |dependencies[n]| > 1
  }

  /** Dependencies of `n` that a path through a fan-in node also provides. */
  ghost function BehindFanin(dependencies: Graph, n: NodeId): set<NodeId> {
    set d | d in Succ(dependencies, n) && DetourThrough(dependencies, n, d, FaninNodes(dependencies))
  }

  ghost function PrunedFanin(dependencies: Graph): Graph {
    map n | n in dependencies :: Except(dependencies[n], BehindFanin(dependencies, n))
  }

  // ----- the passes told on the edges

  /** The first pass drops an edge that is doubled by a path of two edges and by none of more. */
  ghost predicate OnlyShortDetours(g: Graph, n: NodeId, d: NodeId) {
    && (exists p {:trigger PathFrom(g, n, d, p)} :: PathFrom(g, n, d, p) && |p| == 3)
    && (forall p {:trigger PathFrom(g, n, d, p)} :: PathFrom(g, n, d, p) ==> |p| <= 3)
  }

  lemma ShortPassIff(g: Graph, n: NodeId, d: NodeId)
    ensures Edge(PrunedShort(g), n, d) <==> Edge(g, n, d) && !OnlyShortDetours(g, n, d)
  {
    assert LongestDetour(g, n, d, 2) <==> OnlyShortDetours(g, n, d);
  }

  /** The second drops one that is doubled by a path over a node with two dependencies or more. */
  ghost predicate DetourOverFanin(g: Graph, n: NodeId, d: NodeId) {
    exists p, i {:trigger PathFrom(g, n, d, p), p[i]} :: PathFrom(g, n, d, p) && 0 < i < |p| - 1 && |Succ(g, p[i])| >= 2
  }

  lemma FaninPassIff(g: Graph, n: NodeId, d: NodeId)
    ensures Edge(PrunedFanin(g), n, d) <==> Edge(g, n, d) && !DetourOverFanin(g, n, d)
  {
    if DetourThrough(g, n, d, FaninNodes(g)) {
      var p, i :| PathFrom(g, n, d, p) && 0 < i < |p| - 1 && p[i] in FaninNodes(g);
      assert |Succ(g, p[i])| >= 2;
    }
    if DetourOverFanin(g, n, d) {
      var p, i :| PathFrom(g, n, d, p) && 0 < i < |p| - 1 && |Succ(g, p[i])| >= 2;
      assert p[i] in FaninNodes(g);
    }
  }

  lemma {:induction false} ExceptInOrder(s: seq<NodeId>, dropped: set<NodeId>)
    ensures Subsequence(Except(s, dropped), s)
  {
    if s != [] {
      var front, last := s[..|s| - 1], s[|s| - 1];
      ExceptInOrder(front, dropped);
      SubsequenceAppend(Except(front, dropped), front, last);
      assert s == front + [last];
    }
  }

  /** Neither pass moves a dependency. */
  lemma PassesKeepOrder(g: Graph, n: NodeId)
    requires n in g
    ensures Subsequence(PrunedShort(g)[n], g[n]) && Subsequence(PrunedFanin(g)[n], g[n])
  {
    ExceptInOrder(g[n], ShortTransitive(g, n));
    ExceptInOrder(g[n], BehindFanin(g, n));
  }

  // ----- detours read the same in both directions

  lemma ReverseLongestDetour(g: Graph, h: Graph, u: NodeId, v: NodeId, r: nat)
    requires Inverse(g, h) && LongestDetour(g, u, v, r)
    ensures LongestDetour(h, v, u, r)
  {
    forall p | PathFrom(h, v, u, p) && |p| >= 3
      ensures r >= |p| - 1
    {
      ReversePath(h, g, v, u, p);
      assert PathFrom(g, u, v, Reversed(p));
    }
    if r > 0 {
      var p :| PathFrom(g, u, v, p) && |p| == r + 1;
      ReversePath(g, h, u, v, p);
    }
  }

  lemma LongestDetourUnique(g: Graph, u: NodeId, v: NodeId, r: nat, r': nat)
    requires LongestDetour(g, u, v, r) && LongestDetour(g, u, v, r')
    ensures r == r'
  {
    if r > 0 {
      var p :| PathFrom(g, u, v, p) && |p| == r + 1;
      assert r' >= r;
    }
    if r' > 0 {
      var p :| PathFrom(g, u, v, p) && |p| == r' + 1;
      assert r >= r';
    }
  }

  lemma ReverseDetourThrough(g: Graph, h: Graph, u: NodeId, v: NodeId, fanin: set<NodeId>)
    requires Inverse(g, h) && DetourThrough(g, u, v, fanin)
    ensures DetourThrough(h, v, u, fanin)
  {
    var p, i :| PathFrom(g, u, v, p) && 0 < i < |p| - 1 && p[i] in fanin;
    ReversePath(g, h, u, v, p);
    assert Reversed(p)[|p| - 1 - i] == p[i];
  }

  // ----- the passes

  /** The comprehension of `prune_short_transitive_dependencies` for one node. */
  method KeepUnlessShort(n: NodeId, dependencies: Graph, dependents: Graph) returns (kept: seq<NodeId>)
    requires n in dependencies && Inverse(dependencies, dependents) && Acyclic(dependents)
    ensures kept == PrunedShort(dependencies)[n]
  {
    kept := [];
    var listed := dependencies[n];
    ghost var dropped := ShortTransitive(dependencies, n);
    for i := 0 to |listed|
      invariant kept == Except(listed[..i], dropped)
    {
      var d := listed[i];
      var length := AlternatePathLength(d, n, dependents);
      ShortTransitiveIff(dependencies, dependents, n, d, length);
      ExceptNext(listed, i, dropped);
      if length != SHORT_TRANSITIVE_PATH_LENGTH {
        kept := kept + [d];
      }
    }
    assert listed[..|listed|] == listed;
  }

  /** `prune_short_transitive_dependencies` */
  method PruneShortTransitiveDependencies(dependencies: Graph, dependents: Graph) returns (pruned: Graph)
    requires Inverse(dependencies, dependents) && Acyclic(dependencies)
    ensures pruned == PrunedShort(dependencies)
    ensures pruned.Keys == dependencies.Keys
    ensures forall n, d :: Edge(pruned, n, d) <==> Edge(dependencies, n, d) && !OnlyShortDetours(dependencies, n, d)
  {
    forall n, d
      ensures Edge(PrunedShort(dependencies), n, d) <==> Edge(dependencies, n, d) && !OnlyShortDetours(dependencies, n, d)
    {
      ShortPassIff(dependencies, n, d);
    }
    ReverseAcyclic(dependencies, dependents);
    pruned := map[];
    var todo := dependencies.Keys;
    while todo != {}
      invariant todo <= dependencies.Keys && pruned.Keys == dependencies.Keys - todo
      invariant forall n :: n in pruned ==> pruned[n] == PrunedShort(dependencies)[n]
    {
      var n :| n in todo;
      var kept := KeepUnlessShort(n, dependencies, dependents);
      pruned := pruned[n := kept];
      todo := todo - {n};
    }
  }

  lemma ReverseInverse(g: Graph, h: Graph)
    requires Inverse(g, h)
    ensures Inverse(h, g)
  {
  }

  lemma ShortTransitiveIff(dependencies: Graph, dependents: Graph, n: NodeId, d: NodeId, r: nat)
    requires Inverse(dependencies, dependents) && Edge(dependencies, n, d)
    requires LongestDetour(dependents, d, n, r)
    ensures d in ShortTransitive(dependencies, n) <==> r == SHORT_TRANSITIVE_PATH_LENGTH
  {
    ReverseInverse(dependencies, dependents);
    ReverseLongestDetour(dependents, dependencies, d, n, r);
    if LongestDetour(dependencies, n, d, SHORT_TRANSITIVE_PATH_LENGTH) {
      LongestDetourUnique(dependencies, n, d, r, SHORT_TRANSITIVE_PATH_LENGTH);
    }
  }

  /** The comprehension of `prune_post_fanin_transitive_dependencies` for one node. */
  method KeepUnlessBehindFanin(n: NodeId, dependencies: Graph, dependents: Graph, faninNodes: set<NodeId>)
    returns (kept: seq<NodeId>)
    requires n in dependencies && Inverse(dependencies, dependents) && Acyclic(dependents)
    requires faninNodes == FaninNodes(dependencies)
    ensures kept == PrunedFanin(dependencies)[n]
  {
    kept := [];
    var listed := dependencies[n];
    ghost var dropped := BehindFanin(dependencies, n);
    for i := 0 to |listed|
      invariant kept == Except(listed[..i], dropped)
    {
      var d := listed[i];
      var found := HasAlternatePathThroughFanin(d, n, dependents, faninNodes);
      BehindFaninIff(dependencies, dependents, n, d);
      ExceptNext(listed, i, dropped);
      if !found {
        kept := kept + [d];
      }
    }
    assert listed[..|listed|] == listed;
  }

  /** `prune_post_fanin_transitive_dependencies` */
  method PrunePostFaninTransitiveDependencies(dependencies: Graph, nodeOrder: map<NodeId, int>) returns (pruned: Graph)
    requires OrderIsInjective(nodeOrder) && DependencyMap(dependencies, nodeOrder) && Acyclic(dependencies)
    ensures pruned == PrunedFanin(dependencies)
    ensures pruned.Keys == dependencies.Keys
    ensures forall n, d :: Edge(pruned, n, d) <==> Edge(dependencies, n, d) && !DetourOverFanin(dependencies, n, d)
  {
    forall n, d
      ensures Edge(PrunedFanin(dependencies), n, d) <==> Edge(dependencies, n, d) && !DetourOverFanin(dependencies, n, d)
    {
      FaninPassIff(dependencies, n, d);
    }
    var dependents := DependentMapFor(dependencies, nodeOrder);
    var faninNodes := FaninNodes(dependencies);
    ReverseAcyclic(dependencies, dependents);
    pruned := map[];
    var todo := dependencies.Keys;
    while todo != {}
      invariant todo <= dependencies.Keys && pruned.Keys == dependencies.Keys - todo
      invariant forall n :: n in pruned ==> pruned[n] == PrunedFanin(dependencies)[n]
    {
      var n :| n in todo;
      var kept := KeepUnlessBehindFanin(n, dependencies, dependents, faninNodes);
      pruned := pruned[n := kept];
      todo := todo - {n};
    }
  }

  lemma BehindFaninIff(dependencies: Graph, dependents: Graph, n: NodeId, d: NodeId)
    requires Inverse(dependencies, dependents) && Edge(dependencies, n, d)
    ensures d in BehindFanin(dependencies, n) <==> DetourThrough(dependents, d, n, FaninNodes(dependencies))
  {
    var fanin := FaninNodes(dependencies);
    if DetourThrough(dependencies, n, d, fanin) {
      ReverseDetourThrough(dependencies, dependents, n, d, fanin);
    }
    if DetourThrough(dependents, d, n, fanin) {
      ReverseInverse(dependencies, dependents);
      ReverseDetourThrough(dependents, dependencies, d, n, fanin);
    }
  }

  // ----- both passes keep reachability

  lemma PrunedShortDrops(dependencies: Graph)
    ensures DropsOnlyDetoured(dependencies, PrunedShort(dependencies))
  {
    forall n, d | Edge(dependencies, n, d) && !Edge(PrunedShort(dependencies), n, d)
      ensures HasDetour(dependencies, n, d)
    {
      var p :| PathFrom(dependencies, n, d, p) && |p| == SHORT_TRANSITIVE_PATH_LENGTH + 1;
    }
  }

  lemma PrunedFaninDrops(dependencies: Graph)
    ensures DropsOnlyDetoured(dependencies, PrunedFanin(dependencies))
  {
    forall n, d | Edge(dependencies, n, d) && !Edge(PrunedFanin(dependencies), n, d)
      ensures HasDetour(dependencies, n, d)
    {
      assert d in BehindFanin(dependencies, n);
      var p, i :| PathFrom(dependencies, n, d, p) && 0 < i < |p| - 1 && p[i] in FaninNodes(dependencies);
    }
  }

  ghost function Rendered(dependencies: Graph): Graph {
    PrunedFanin(PrunedShort(dependencies))
  }

  /** Drawing the pruned map shows the reader exactly the reachability of the
      original, and leaves no node looking like a root that was not one. */
  lemma RenderedKeepsReach(dependencies: Graph)
    requires Acyclic(dependencies)
    ensures Acyclic(Rendered(dependencies))
    ensures forall n, d :: Reach(Rendered(dependencies), n, d) <==> Reach(dependencies, n, d)
    ensures forall n :: Succ(Rendered(dependencies), n) == [] <==> Succ(dependencies, n) == []
  {
    var short := PrunedShort(dependencies);
    PrunedShortDrops(dependencies);
    DroppingKeepsReach(dependencies, short);
    PrunedFaninDrops(short);
    DroppingKeepsReach(short, Rendered(dependencies));
    forall n
      ensures Succ(Rendered(dependencies), n) == [] <==> Succ(dependencies, n) == []
    {
      SameReachSameEnds(dependencies, Rendered(dependencies), n);
    }
  }

  lemma PrunedIsDependencyMap(dependencies: Graph, order: map<NodeId, int>)
    requires DependencyMap(dependencies, order)
    ensures DependencyMap(PrunedShort(dependencies), order)
    ensures DependencyMap(PrunedFanin(dependencies), order)
  {
    forall n, d | Edge(PrunedShort(dependencies), n, d) || Edge(PrunedFanin(dependencies), n, d)
      ensures Edge(dependencies, n, d)
    {
    }
  }

  lemma RenderedIsSubgraph(dependencies: Graph)
    ensures Rendered(dependencies).Keys == dependencies.Keys
    ensures forall n, d :: Edge(Rendered(dependencies), n, d) ==> Edge(dependencies, n, d)
  {
    PrunedShortDrops(dependencies);
    PrunedFaninDrops(PrunedShort(dependencies));
  }

  /** `render_dependency_maps` */
  method RenderDependencyMaps(layout: Layout) returns (dependencies: Graph, dependents: Graph)
    requires layout.WellFormed()
    ensures dependencies == Rendered(layout.dependencies)
    ensures Acyclic(dependencies)
    ensures forall n, d :: Reach(dependencies, n, d) <==> Reach(layout.dependencies, n, d)
    ensures forall n :: Succ(dependencies, n) == [] <==> Succ(layout.dependencies, n) == []
    ensures DependencyMap(dependencies, layout.nodeOrder)
    ensures Inverse(dependencies, dependents) && dependents.Keys == layout.nodeOrder.Keys
    ensures forall d :: d in dependents ==> Ascending(dependents[d], layout.nodeOrder)
  {
    var short := PruneShortTransitiveDependencies(layout.dependencies, layout.dependents);
    PrunedIsDependencyMap(layout.dependencies, layout.nodeOrder);
    PrunedShortDrops(layout.dependencies);
    DroppingKeepsReach(layout.dependencies, short);
    dependencies := PrunePostFaninTransitiveDependencies(short, layout.nodeOrder);
    PrunedIsDependencyMap(short, layout.nodeOrder);
    RenderedKeepsReach(layout.dependencies);
    dependents := DependentMapFor(dependencies, layout.nodeOrder);
  }
}
