/**
  Directed graphs held as adjacency maps, in the form the observability layer
  uses for both its dependency map (node to the nodes it needs) and its dependent
  map (node to the nodes that need it).

  A path is a nonempty sequence of node ids; its length is the number of edges.
 */
module Graphs {
  import opened Collections

  type NodeId = string
  type Graph = map<NodeId, seq<NodeId>>

  /** `adjacency.get(node, ())` */
  function Succ(g: Graph, v: NodeId): seq<NodeId> {
    if v in g then g[v] else []
  }

  predicate Edge(g: Graph, u: NodeId, v: NodeId) {
    v in Succ(g, u)
  }

  predicate StepAt(g: Graph, p: seq<NodeId>, i: int)
    requires 0 <= i < |p| - 1
  {
    Edge(g, p[i], p[i + 1])
  }

  ghost predicate IsPath(g: Graph, p: seq<NodeId>) {
    |p| > 0 && forall i :: 0 <= i < |p| - 1 ==> StepAt(g, p, i)
  }

  ghost predicate PathFrom(g: Graph, u: NodeId, v: NodeId, p: seq<NodeId>) {
    IsPath(g, p) && p[0] == u && p[|p| - 1] == v
  }

  /** `v` is `u` itself or can be reached from it along edges. */
  ghost predicate Reach(g: Graph, u: NodeId, v: NodeId) {
    exists p :: PathFrom(g, u, v, p)
  }

  /** No path of at least one edge comes back to where it started. */
  ghost predicate Acyclic(g: Graph) {
    forall p {:trigger IsPath(g, p)} :: IsPath(g, p) && |p| >= 2 ==> p[0] != p[|p| - 1]
  }

  /** `h` holds exactly the edges of `g`, turned round. */
  ghost predicate Inverse(g: Graph, h: Graph) {
    forall u, v :: Edge(g, u, v) <==> Edge(h, v, u)
  }

  /** Every node that has or receives an edge. */
  function Vertices(g: Graph): set<NodeId> {
    g.Keys + set u, v | u in g && v in g[u] :: v
  }

  // ----- paths: cutting, joining, turning round

  lemma SubPath(g: Graph, p: seq<NodeId>, i: nat, j: nat)
    requires IsPath(g, p) && i < j <= |p|
    ensures IsPath(g, p[i..j])
  {
    forall k | 0 <= k < |p[i..j]| - 1
      ensures StepAt(g, p[i..j], k)
    {
      assert StepAt(g, p, i + k);
    }
  }

  lemma JoinPaths(g: Graph, u: NodeId, w: NodeId, v: NodeId, p: seq<NodeId>, q: seq<NodeId>)
    requires PathFrom(g, u, w, p) && PathFrom(g, w, v, q)
    ensures PathFrom(g, u, v, p + q[1..])
  {
    var r := p + q[1..];
    forall k | 0 <= k < |r| - 1
      ensures StepAt(g, r, k)
    {
      if k < |p| - 1 {
        assert StepAt(g, p, k);
      } else {
        assert StepAt(g, q, k - (|p| - 1));
      }
    }
  }

  lemma ExtendPath(g: Graph, u: NodeId, w: NodeId, v: NodeId, p: seq<NodeId>)
    requires PathFrom(g, u, w, p) && Edge(g, w, v)
    ensures PathFrom(g, u, v, p + [v])
  {
    var r := p + [v];
    forall k | 0 <= k < |r| - 1
      ensures StepAt(g, r, k)
    {
      if k < |p| - 1 {
        assert StepAt(g, p, k);
      }
    }
  }

  function Reversed(p: seq<NodeId>): (r: seq<NodeId>)
    ensures |r| == |p| && forall i :: 0 <= i < |p| ==> r[i] == p[|p| - 1 - i]
  {
    seq(|p|, i requires 0 <= i < |p| => p[|p| - 1 - i])
  }

  lemma ReversePath(g: Graph, h: Graph, u: NodeId, v: NodeId, p: seq<NodeId>)
    requires Inverse(g, h) && PathFrom(g, u, v, p)
    ensures PathFrom(h, v, u, Reversed(p))
  {
    var r := Reversed(p);
    forall k | 0 <= k < |r| - 1
      ensures StepAt(h, r, k)
    {
      assert StepAt(g, p, |p| - 2 - k);
      assert Edge(g, r[k + 1], r[k]);
    }
  }

  lemma ReverseAcyclic(g: Graph, h: Graph)
    requires Inverse(g, h) && Acyclic(g)
    ensures Acyclic(h)
  {
    forall p | IsPath(h, p) && |p| >= 2
      ensures p[0] != p[|p| - 1]
    {
      ReversePath(h, g, p[0], p[|p| - 1], p);
      assert IsPath(g, Reversed(p));
    }
  }

  // ----- acyclic graphs have bounded paths

  lemma AcyclicNoRepeats(g: Graph, p: seq<NodeId>)
    requires Acyclic(g) && IsPath(g, p)
    ensures NoRepeats(p)
    ensures forall i :: 0 <= i < |p| - 1 ==> p[i] != p[|p| - 1]
  {
    forall i, j | 0 <= i < j < |p|
      ensures Differ(p, i, j)
    {
      SubPath(g, p, i, j + 1);
      assert p[i..j + 1][0] == p[i] && p[i..j + 1][j - i] == p[j];
    }
    AllDiffer(p);
  }

  lemma PathInVertices(g: Graph, p: seq<NodeId>, i: nat)
    requires IsPath(g, p) && |p| >= 2 && i < |p|
    ensures p[i] in Vertices(g)
  {
    if i == 0 {
      assert StepAt(g, p, 0);
    } else {
      assert StepAt(g, p, i - 1);
    }
  }

  /** A path in an acyclic graph visits each vertex at most once. */
  lemma PathBound(g: Graph, p: seq<NodeId>)
    requires Acyclic(g) && IsPath(g, p)
    ensures |p| <= |Vertices(g)| + 1
  {
    if |p| >= 2 {
      AcyclicNoRepeats(g, p);
      forall i | 0 <= i < |p|
        ensures p[i] in Vertices(g)
      {
        PathInVertices(g, p, i);
      }
      NoRepeatsBound(p, Vertices(g));
    }
  }

  // ----- removing redundant edges, all at once, keeps reachability

  /** The edge `u -> v` also has a detour in `g`: a path of at least two edges. */
  ghost predicate HasDetour(g: Graph, u: NodeId, v: NodeId) {
    exists q {:trigger PathFrom(g, u, v, q)} :: PathFrom(g, u, v, q) && |q| >= 3
  }

  /** `h` drops some edges of `g`; each dropped edge has a detour in `g` itself,
      which may in turn use other dropped edges. */
  ghost predicate DropsOnlyDetoured(g: Graph, h: Graph) {
    && (forall u, v :: Edge(h, u, v) ==> Edge(g, u, v))
    && (forall u, v :: Edge(g, u, v) && !Edge(h, u, v) ==> HasDetour(g, u, v))
  }

  lemma Splice(g: Graph, p: seq<NodeId>, i: nat, q: seq<NodeId>) returns (r: seq<NodeId>)
    requires IsPath(g, p) && i < |p| - 1
    requires PathFrom(g, p[i], p[i + 1], q)
    ensures PathFrom(g, p[0], p[|p| - 1], r) && |r| == |p| + |q| - 2
  {
    SubPath(g, p, 0, i + 1);
    SubPath(g, p, i + 1, |p|);
    JoinPaths(g, p[0], p[i], p[i + 1], p[0..i + 1], q);
    r := p[0..i + 1] + q[1..];
    JoinPaths(g, p[0], p[i + 1], p[|p| - 1], r, p[i + 1..|p|]);
    r := r + p[i + 1..|p|][1..];
  }

  /** Replacing a dropped edge by its detour makes the path longer, and paths
      of an acyclic graph cannot grow for ever. */
  lemma {:induction false} Reroute(g: Graph, h: Graph, p: seq<NodeId>)
    requires Acyclic(g) && DropsOnlyDetoured(g, h) && IsPath(g, p)
    ensures Reach(h, p[0], p[|p| - 1])
    decreases |Vertices(g)| + 1 - |p|
  {
    if i :| 0 <= i < |p| - 1 && !Edge(h, p[i], p[i + 1]) {
      assert StepAt(g, p, i);
      var q :| PathFrom(g, p[i], p[i + 1], q) && |q| >= 3;
      var r := Splice(g, p, i, q);
      PathBound(g, r);
      Reroute(g, h, r);
    } else {
      assert PathFrom(h, p[0], p[|p| - 1], p);
    }
  }

  lemma {:induction false} PathInLarger(g: Graph, h: Graph, p: seq<NodeId>)
    requires DropsOnlyDetoured(g, h) && IsPath(h, p)
    ensures IsPath(g, p)
  {
    forall i | 0 <= i < |p| - 1
      ensures StepAt(g, p, i)
    {
      assert StepAt(h, p, i);
    }
  }

  /** The reduced graph has the same reachability relation, and stays acyclic. */
  lemma DroppingKeepsReach(g: Graph, h: Graph)
    requires Acyclic(g) && DropsOnlyDetoured(g, h)
    ensures Acyclic(h)
    ensures forall u, v :: Reach(h, u, v) <==> Reach(g, u, v)
  {
    forall p | IsPath(h, p)
      ensures IsPath(g, p)
    {
      PathInLarger(g, h, p);
    }
    forall u, v
      ensures Reach(h, u, v) <==> Reach(g, u, v)
    {
      if Reach(h, u, v) {
        var p :| PathFrom(h, u, v, p);
        assert PathFrom(g, u, v, p);
      }
      if Reach(g, u, v) {
        var p :| PathFrom(g, u, v, p);
        Reroute(g, h, p);
      }
    }
  }

  lemma EdgeSurvivesSomewhere(g: Graph, h: Graph, u: NodeId, v: NodeId)
    requires Acyclic(g) && Edge(g, u, v)
    requires forall a, b :: Reach(g, a, b) ==> Reach(h, a, b)
    ensures Succ(h, u) != []
  {
    assert PathFrom(g, u, v, [u, v]);
    assert Reach(g, u, v);
    var p :| PathFrom(h, u, v, p);
    assert [u, v][0] != [u, v][1];
    assert StepAt(h, p, 0);
  }

  /** Between acyclic graphs with the same reachability, a node has an outgoing
      edge in one exactly when it has one in the other. */
  lemma SameReachSameEnds(g: Graph, h: Graph, u: NodeId)
    requires Acyclic(g) && Acyclic(h)
    requires forall a, b :: Reach(h, a, b) <==> Reach(g, a, b)
    ensures Succ(h, u) == [] <==> Succ(g, u) == []
  {
    if Succ(g, u) != [] {
      EdgeSurvivesSomewhere(g, h, u, Succ(g, u)[0]);
    }
    if Succ(h, u) != [] {
      EdgeSurvivesSomewhere(h, g, u, Succ(h, u)[0]);
    }
  }
}
