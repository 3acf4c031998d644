/**
  Transitive-edge pruning for the DAG view (`observability/dag_graph.py`): two
  hand-written stack searches over the dependent map, and the two passes that
  drop dependencies on their word.
 */
module Pruning {
  import opened Collections
  import opened Graphs

  const SHORT_TRANSITIVE_PATH_LENGTH := 2

  // ----- the longest detour

  ghost predicate PathOfLength(g: Graph, u: NodeId, v: NodeId, k: nat) {
    exists p {:trigger PathFrom(g, u, v, p)} :: PathFrom(g, u, v, p) && |p| == k + 1
  }

  /** `r` is the length of the longest path from `u` to `v` of at least two
      edges, or 0 when there is none. */
  ghost predicate LongestDetour(g: Graph, u: NodeId, v: NodeId, r: nat) {
    if r == 0 then !HasDetour(g, u, v)
    else
      && r >= 2
      && PathOfLength(g, u, v, r)
      && forall p {:trigger PathFrom(g, u, v, p)} :: PathFrom(g, u, v, p) && |p| >= 3 ==> |p| - 1 <= r
  }

  /** `(id, k)` for every id of `ids`, in order. */
  function Label<T>(ids: seq<NodeId>, k: T): (r: seq<(NodeId, T)>)
    ensures |r| == |ids| && forall i :: 0 <= i < |ids| ==> r[i] == (ids[i], k)
  {
    seq(|ids|, i requires 0 <= i < |ids| => (ids[i], k))
  }

  /** The ids other than `x`, in order. */
  function Others(ids: seq<NodeId>, x: NodeId): (r: seq<NodeId>)
    ensures forall y :: y in r <==> y in ids && y != x
  {
    if ids == [] then []
    else if ids[0] == x then Others(ids[1..], x)
    else [ids[0]] + Others(ids[1..], x)
  }

  function Best(best: map<NodeId, nat>, v: NodeId): nat {
    if v in best then best[v] else 0
  }

  /** `w` carries a label of at least `k`, or will be offered one. */
  ghost predicate Offered(best: map<NodeId, nat>, stack: seq<(NodeId, nat)>, w: NodeId, k: nat) {
    Best(best, w) >= k || exists i :: 0 <= i < |stack| && stack[i].0 == w && stack[i].1 >= k
  }

  /** Everything the search still has to do is on the stack. */
  ghost predicate AllOffered(g: Graph, start: NodeId, target: NodeId,
                             best: map<NodeId, nat>, stack: seq<(NodeId, nat)>)
  {
    && (forall w :: Edge(g, start, w) && w != target ==> Offered(best, stack, w, 1))
    && (forall v, w :: v in best && v != target && Edge(g, v, w) ==> Offered(best, stack, w, best[v] + 1))
  }

  /** A label is the length of a real path, and the target is never labelled by
      the direct edge. */
  ghost predicate RealLabel(g: Graph, start: NodeId, target: NodeId, v: NodeId, k: nat) {
    PathOfLength(g, start, v, k) && k >= 1 && (v == target ==> k >= 2)
  }

  lemma LabelBound(g: Graph, start: NodeId, target: NodeId, best: map<NodeId, nat>,
                    stack: seq<(NodeId, nat)>, v: NodeId, k: nat)
    requires Acyclic(g) && Searching(g, start, target, best, stack) && stack != []
    requires stack[|stack| - 1] == (v, k)
    ensures (v, k) in Labels(g)
  {
    var p :| PathFrom(g, start, v, p) && |p| == k + 1;
    PathBound(g, p);
    PathInVertices(g, p, k);
  }

  lemma ExtendLabel(g: Graph, start: NodeId, target: NodeId, v: NodeId, k: nat, w: NodeId)
    requires RealLabel(g, start, target, v, k) && Edge(g, v, w)
    ensures RealLabel(g, start, target, w, k + 1)
  {
    var p :| PathFrom(g, start, v, p) && |p| == k + 1;
    ExtendPath(g, start, v, w, p);
    assert |p + [w]| == k + 2;
  }

  lemma DropOffer(g: Graph, start: NodeId, target: NodeId, best: map<NodeId, nat>, stack: seq<(NodeId, nat)>)
    requires AllOffered(g, start, target, best, stack) && stack != []
    requires Best(best, stack[|stack| - 1].0) >= stack[|stack| - 1].1
    ensures AllOffered(g, start, target, best, stack[..|stack| - 1])
  {
    var rest := stack[..|stack| - 1];
    forall w, k: nat | Offered(best, stack, w, k)
      ensures Offered(best, rest, w, k)
    {
      if Best(best, w) < k {
        var i :| 0 <= i < |stack| && stack[i].0 == w && stack[i].1 >= k;
        assert i < |rest| ==> rest[i] == stack[i];
      }
    }
  }

  lemma TakeOffer(g: Graph, start: NodeId, target: NodeId, best: map<NodeId, nat>,
                  stack: seq<(NodeId, nat)>, more: seq<(NodeId, nat)>)
    requires AllOffered(g, start, target, best, stack) && stack != []
    requires Best(best, stack[|stack| - 1].0) < stack[|stack| - 1].1
    requires
      var (v, k) := stack[|stack| - 1];
      v != target ==> more == Label<nat>(Succ(g, v), k + 1)
    ensures
      var (v, k) := stack[|stack| - 1];
      AllOffered(g, start, target, best[v := k], stack[..|stack| - 1] + more)
  {
    var (v, k) := stack[|stack| - 1];
    var best' := best[v := k];
    var stack' := stack[..|stack| - 1] + more;
    forall w, n: nat | Offered(best, stack, w, n)
      ensures Offered(best', stack', w, n)
    {
      if Best(best', w) < n {
        var i :| 0 <= i < |stack| && stack[i].0 == w && stack[i].1 >= n;
        assert i < |stack| - 1;
        assert stack'[i] == stack[i];
      }
    }
    if v != target {
      forall w | Edge(g, v, w)
        ensures Offered(best', stack', w, k + 1)
      {
        var j :| 0 <= j < |Succ(g, v)| && Succ(g, v)[j] == w;
        assert stack'[|stack| - 1 + j] == (w, k + 1);
      }
    }
  }

  /** With nothing left to do, a node's label is at least the length of every
      path that does not pass through the target on its way. */
  lemma {:induction false} LabelsDominate(g: Graph, start: NodeId, target: NodeId,
                                          best: map<NodeId, nat>, p: seq<NodeId>)
    requires AllOffered(g, start, target, best, [])
    requires IsPath(g, p) && |p| >= 2 && p[0] == start && p[1] != target
    requires forall i :: 1 <= i < |p| - 1 ==> p[i] != target
    ensures Best(best, p[|p| - 1]) >= |p| - 1
  {
    assert StepAt(g, p, |p| - 2);
    if |p| > 2 {
      SubPath(g, p, 0, |p| - 1);
      LabelsDominate(g, start, target, best, p[0..|p| - 1]);
    }
  }

  lemma LongestFound(g: Graph, start: NodeId, target: NodeId, best: map<NodeId, nat>)
    requires Acyclic(g) && Searching(g, start, target, best, [])
    ensures LongestDetour(g, start, target, Best(best, target))
  {
    forall p | PathFrom(g, start, target, p) && |p| >= 3
      ensures |p| - 1 <= Best(best, target)
    {
      AcyclicNoRepeats(g, p);
      LabelsDominate(g, start, target, best, p);
    }
  }

  /** The labels a search of an acyclic graph can ever hand out. */
  ghost function Labels(g: Graph): set<(NodeId, nat)> {
    set v, k: nat | v in Vertices(g) && k <= |Vertices(g)| :: (v, k)
  }

  /** A node keeps the best label it was expanded with. */
  ghost predicate Recorded(expanded: set<(NodeId, nat)>, best: map<NodeId, nat>) {
    forall e :: e in expanded ==> e.1 <= Best(best, e.0)
  }

  lemma RecordMore(expanded: set<(NodeId, nat)>, best: map<NodeId, nat>, v: NodeId, k: nat)
    requires Recorded(expanded, best) && Best(best, v) < k
    ensures (v, k) !in expanded && Recorded(expanded + {(v, k)}, best[v := k])
  {
  }

  /** The search invariant of `alternate_path_length`. */
  ghost predicate Searching(g: Graph, start: NodeId, target: NodeId,
                            best: map<NodeId, nat>, stack: seq<(NodeId, nat)>)
  {
    && AllOffered(g, start, target, best, stack)
    && (forall i :: 0 <= i < |stack| ==> RealLabel(g, start, target, stack[i].0, stack[i].1))
    && (forall v :: v in best ==> RealLabel(g, start, target, v, best[v]))
  }

  lemma SkipStep(g: Graph, start: NodeId, target: NodeId, best: map<NodeId, nat>, stack: seq<(NodeId, nat)>)
    requires Searching(g, start, target, best, stack) && stack != []
    requires Best(best, stack[|stack| - 1].0) >= stack[|stack| - 1].1
    ensures Searching(g, start, target, best, stack[..|stack| - 1])
  {
    DropOffer(g, start, target, best, stack);
  }

  lemma ReachTarget(g: Graph, start: NodeId, target: NodeId, best: map<NodeId, nat>,
                    stack: seq<(NodeId, nat)>, k: nat)
    requires Searching(g, start, target, best, stack) && stack != []
    requires stack[|stack| - 1] == (target, k) && Best(best, target) < k
    ensures Searching(g, start, target, best[target := k], stack[..|stack| - 1])
  {
    TakeOffer(g, start, target, best, stack, []);
    assert stack[..|stack| - 1] + [] == stack[..|stack| - 1];
  }

  lemma ExpandLabels(g: Graph, start: NodeId, target: NodeId, stack: seq<(NodeId, nat)>, v: NodeId, k: nat)
    requires forall i :: 0 <= i < |stack| ==> RealLabel(g, start, target, stack[i].0, stack[i].1)
    requires RealLabel(g, start, target, v, k)
    ensures
      var more := stack + Label<nat>(Succ(g, v), k + 1);
      forall i :: 0 <= i < |more| ==> RealLabel(g, start, target, more[i].0, more[i].1)
  {
    var more := stack + Label<nat>(Succ(g, v), k + 1);
    forall i | 0 <= i < |more|
      ensures RealLabel(g, start, target, more[i].0, more[i].1)
    {
      if i >= |stack| {
        ExtendLabel(g, start, target, v, k, Succ(g, v)[i - |stack|]);
      }
    }
  }

  lemma ExpandStep(g: Graph, start: NodeId, target: NodeId, best: map<NodeId, nat>,
                   stack: seq<(NodeId, nat)>, v: NodeId, k: nat)
    requires Searching(g, start, target, best, stack) && stack != []
    requires stack[|stack| - 1] == (v, k) && Best(best, v) < k && v != target
    ensures Searching(g, start, target, best[v := k], stack[..|stack| - 1] + Label<nat>(Succ(g, v), k + 1))
  {
    TakeOffer(g, start, target, best, stack, Label<nat>(Succ(g, v), k + 1));
    ExpandLabels(g, start, target, stack[..|stack| - 1], v, k);
  }

  /** `alternate_path_length` */
  method AlternatePathLength(dependencyId: NodeId, nodeId: NodeId, dependents: Graph) returns (maxDistance: nat)
    requires Acyclic(dependents)
    ensures LongestDetour(dependents, dependencyId, nodeId, maxDistance)
  {
    var stack := Label<nat>(Others(Succ(dependents, dependencyId), nodeId), 1);
    var best: map<NodeId, nat> := map[];
    maxDistance := 0;
    ghost var expanded: set<(NodeId, nat)> := {};
    InitialOffers(dependents, dependencyId, nodeId);
    while stack != []
      invariant Searching(dependents, dependencyId, nodeId, best, stack)
      invariant maxDistance == Best(best, nodeId)
      invariant expanded <= Labels(dependents) && Recorded(expanded, best)
      decreases Labels(dependents) - expanded, |stack|
    {
      var (current, distance) := stack[|stack| - 1];
      if Best(best, current) >= distance {
        SkipStep(dependents, dependencyId, nodeId, best, stack);
        stack := stack[..|stack| - 1];
        continue;
      }
      LabelBound(dependents, dependencyId, nodeId, best, stack, current, distance);
      RecordMore(expanded, best, current, distance);
      expanded := expanded + {(current, distance)};
      if current == nodeId {
        ReachTarget(dependents, dependencyId, nodeId, best, stack, distance);
        stack := stack[..|stack| - 1];
        best := best[current := distance];
        maxDistance := Max(maxDistance, distance);
        continue;
      }
      ExpandStep(dependents, dependencyId, nodeId, best, stack, current, distance);
      stack := stack[..|stack| - 1] + Label<nat>(Succ(dependents, current), distance + 1);
      best := best[current := distance];
    }
    LongestFound(dependents, dependencyId, nodeId, best);
  }

  lemma InitialOffers(g: Graph, start: NodeId, target: NodeId)
    ensures Searching(g, start, target, map[], Label<nat>(Others(Succ(g, start), target), 1))
  {
    var ids := Others(Succ(g, start), target);
    var stack := Label(ids, 1);
    forall w | Edge(g, start, w) && w != target
      ensures Offered(map[], stack, w, 1)
    {
      assert w in ids;
      var j :| 0 <= j < |ids| && ids[j] == w;
      assert stack[j] == (w, 1);
    }
    forall i | 0 <= i < |stack|
      ensures RealLabel(g, start, target, stack[i].0, stack[i].1)
    {
      assert ids[i] in ids;
      assert PathFrom(g, start, ids[i], [start, ids[i]]);
    }
  }

  // ----- a detour through a fan-in node

  /** Some path from `u` to `v` has a node of `fanin` strictly inside. */
  ghost predicate DetourThrough(g: Graph, u: NodeId, v: NodeId, fanin: set<NodeId>) {
    exists p, i :: PathFrom(g, u, v, p) && 0 < i < |p| - 1 && p[i] in fanin
  }

  /** A nonempty path reaches `v`, with a fan-in node strictly inside if `passed`. */
  ghost predicate Arrives(g: Graph, start: NodeId, fanin: set<NodeId>, v: NodeId, passed: bool) {
    exists p {:trigger PathFrom(g, start, v, p)} :: PathFrom(g, start, v, p) && |p| >= 2 && (passed ==> PassesFanin(fanin, p, |p| - 1))
  }

  ghost predicate PassesFanin(fanin: set<NodeId>, p: seq<NodeId>, end: nat)
    requires end <= |p|
  {
    exists i :: 0 < i < end && p[i] in fanin
  }

  lemma ArriveNext(g: Graph, start: NodeId, fanin: set<NodeId>, v: NodeId, passed: bool, w: NodeId)
    requires Arrives(g, start, fanin, v, passed) && Edge(g, v, w)
    ensures Arrives(g, start, fanin, w, passed || v in fanin)
  {
    var p :| PathFrom(g, start, v, p) && |p| >= 2 && (passed ==> PassesFanin(fanin, p, |p| - 1));
    ExtendPath(g, start, v, w, p);
    var q := p + [w];
    if passed {
      var i :| 0 < i < |p| - 1 && p[i] in fanin;
      assert 0 < i < |q| - 1 && q[i] in fanin;
    } else if v in fanin {
      assert 0 < |p| - 1 < |q| - 1 && q[|p| - 1] in fanin;
    }
    assert passed || v in fanin ==> PassesFanin(fanin, q, |q| - 1);
  }

  type Mark = (NodeId, bool)

  /** `(w, passed)` has been visited, will be, or is a dead end at the target. */
  ghost predicate Settled(visited: set<Mark>, stack: seq<Mark>, target: NodeId, w: NodeId, passed: bool) {
    (w, passed) in visited || (w, passed) in stack || (w == target && !passed)
  }

  ghost predicate AllSettled(g: Graph, start: NodeId, target: NodeId, fanin: set<NodeId>,
                             visited: set<Mark>, stack: seq<Mark>)
  {
    && (forall w :: Edge(g, start, w) && w != target ==> Settled(visited, stack, target, w, false))
    && (forall v, passed, w :: (v, passed) in visited && Edge(g, v, w) ==>
                               Settled(visited, stack, target, w, passed || v in fanin))
  }

  lemma {:induction false} EverythingVisited(g: Graph, start: NodeId, target: NodeId, fanin: set<NodeId>,
                                             visited: set<Mark>, p: seq<NodeId>, k: nat)
    requires AllSettled(g, start, target, fanin, visited, [])
    requires IsPath(g, p) && p[0] == start && 1 <= k < |p|
    requires forall i :: 1 <= i <= k ==> p[i] != target
    ensures (p[k], PassesFanin(fanin, p, k)) in visited
  {
    assert StepAt(g, p, k - 1);
    if k > 1 {
      EverythingVisited(g, start, target, fanin, visited, p, k - 1);
      assert PassesFanin(fanin, p, k) <==> PassesFanin(fanin, p, k - 1) || p[k - 1] in fanin;
    }
  }

  lemma DetourSettlesTarget(g: Graph, start: NodeId, target: NodeId, fanin: set<NodeId>,
                            visited: set<Mark>, p: seq<NodeId>, i: nat)
    requires Acyclic(g) && AllSettled(g, start, target, fanin, visited, [])
    requires PathFrom(g, start, target, p) && 0 < i < |p| - 1 && p[i] in fanin
    ensures Settled(visited, [], target, target, true)
  {
    AcyclicNoRepeats(g, p);
    var k := |p| - 2;
    EverythingVisited(g, start, target, fanin, visited, p, k);
    assert StepAt(g, p, k);
    assert PassesFanin(fanin, p, k) || p[k] in fanin;
  }

  lemma NoneFound(g: Graph, start: NodeId, target: NodeId, fanin: set<NodeId>, visited: set<Mark>)
    requires Acyclic(g) && AllSettled(g, start, target, fanin, visited, [])
    requires forall m :: m in visited ==> m.0 != target
    ensures !DetourThrough(g, start, target, fanin)
  {
    if DetourThrough(g, start, target, fanin) {
      var p, i :| PathFrom(g, start, target, p) && 0 < i < |p| - 1 && p[i] in fanin;
      DetourSettlesTarget(g, start, target, fanin, visited, p, i);
    }
  }

  lemma PopSettled(g: Graph, start: NodeId, target: NodeId, fanin: set<NodeId>,
                   visited: set<Mark>, stack: seq<Mark>, visited': set<Mark>, more: seq<Mark>)
    requires AllSettled(g, start, target, fanin, visited, stack) && stack != []
    requires visited <= visited' && visited' <= visited + {stack[|stack| - 1]}
    requires
      var (v, passed) := stack[|stack| - 1];
      && Settled(visited', more, target, v, passed)
      && ((v, passed) in visited || (v, passed) !in visited' ||
          more == Label(Succ(g, v), passed || v in fanin))
    ensures AllSettled(g, start, target, fanin, visited', stack[..|stack| - 1] + more)
  {
    var top := stack[|stack| - 1];
    var stack' := stack[..|stack| - 1] + more;
    assert stack == stack[..|stack| - 1] + [top];
    forall w, passed | Settled(visited, stack, target, w, passed)
      ensures Settled(visited', stack', target, w, passed)
    {
    }
    if top !in visited && top in visited' {
      forall w | Edge(g, top.0, w)
        ensures Settled(visited', stack', target, w, top.1 || top.0 in fanin)
      {
        var j :| 0 <= j < |Succ(g, top.0)| && Succ(g, top.0)[j] == w;
        assert more[j] == (w, top.1 || top.0 in fanin);
        assert more[j] in more;
      }
    }
  }

  /** `has_alternate_path_through_fanin` */
  method HasAlternatePathThroughFanin(dependencyId: NodeId, nodeId: NodeId, dependents: Graph,
                                      faninNodes: set<NodeId>) returns (found: bool)
    requires Acyclic(dependents)
    ensures found <==> DetourThrough(dependents, dependencyId, nodeId, faninNodes)
  {
    var stack: seq<Mark> := Label(Others(Succ(dependents, dependencyId), nodeId), false);
    var visited: set<Mark> := {};
    ghost var marks := set v, b | v in Vertices(dependents) && b in {true, false} :: (v, b);
    InitialMarks(dependents, dependencyId, nodeId, faninNodes);
    while stack != []
      invariant AllSettled(dependents, dependencyId, nodeId, faninNodes, visited, stack)
      invariant forall i :: 0 <= i < |stack| ==>
        Arrives(dependents, dependencyId, faninNodes, stack[i].0, stack[i].1)
      invariant visited <= marks && forall m :: m in visited ==> m.0 != nodeId
      decreases marks - visited, |stack|
    {
      var (current, passed) := stack[|stack| - 1];
      ghost var before := stack;
      stack := stack[..|stack| - 1];
      if current == nodeId {
        if passed {
          ArrivalIsDetour(dependents, dependencyId, faninNodes, nodeId);
          return true;
        }
        PopSettled(dependents, dependencyId, nodeId, faninNodes, visited, before, visited, []);
        assert before[..|before| - 1] + [] == stack;
        continue;
      }
      if (current, passed) in visited {
        PopSettled(dependents, dependencyId, nodeId, faninNodes, visited, before, visited, []);
        assert before[..|before| - 1] + [] == stack;
        continue;
      }
      ArrivalInVertices(dependents, dependencyId, faninNodes, current, passed);
      var nextPassed := passed || current in faninNodes;
      forall w | w in Succ(dependents, current)
        ensures Arrives(dependents, dependencyId, faninNodes, w, nextPassed)
      {
        ArriveNext(dependents, dependencyId, faninNodes, current, passed, w);
      }
      PopSettled(dependents, dependencyId, nodeId, faninNodes, visited, before,
                 visited + {(current, passed)}, Label(Succ(dependents, current), nextPassed));
      visited := visited + {(current, passed)};
      stack := stack + Label(Succ(dependents, current), nextPassed);
    }
    NoneFound(dependents, dependencyId, nodeId, faninNodes, visited);
    return false;
  }

  lemma ArrivalIsDetour(g: Graph, start: NodeId, fanin: set<NodeId>, target: NodeId)
    requires Arrives(g, start, fanin, target, true)
    ensures DetourThrough(g, start, target, fanin)
  {
    var p :| PathFrom(g, start, target, p) && |p| >= 2 && PassesFanin(fanin, p, |p| - 1);
    var i :| 0 < i < |p| - 1 && p[i] in fanin;
  }

  lemma ArrivalInVertices(g: Graph, start: NodeId, fanin: set<NodeId>, v: NodeId, passed: bool)
    requires Arrives(g, start, fanin, v, passed)
    ensures v in Vertices(g)
  {
    var p :| PathFrom(g, start, v, p) && |p| >= 2;
    PathInVertices(g, p, |p| - 1);
  }

  lemma InitialMarks(g: Graph, start: NodeId, target: NodeId, fanin: set<NodeId>)
    ensures
      var stack := Label(Others(Succ(g, start), target), false);
      && AllSettled(g, start, target, fanin, {}, stack)
      && forall i :: 0 <= i < |stack| ==> Arrives(g, start, fanin, stack[i].0, stack[i].1)
  {
    var ids := Others(Succ(g, start), target);
    var stack := Label(ids, false);
    forall w | Edge(g, start, w) && w != target
      ensures Settled({}, stack, target, w, false)
    {
      assert w in ids;
      var j :| 0 <= j < |ids| && ids[j] == w;
      assert stack[j] == (w, false);
    }
    forall i | 0 <= i < |stack|
      ensures Arrives(g, start, fanin, stack[i].0, stack[i].1)
    {
      assert ids[i] in ids;
      assert PathFrom(g, start, ids[i], [start, ids[i]]);
    }
  }
}
