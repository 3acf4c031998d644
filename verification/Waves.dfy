/**
  Kahn's algorithm over a workflow's dependency sets (`core/workflow/graph.py`):
  nodes leave in waves, a node as soon as everything it needs has left.
 */
module Waves {
  import opened Results
  import opened Collections
  import opened Graphs
  import opened Topology

  datatype TopologyNode = TopologyNode(id: NodeId, dependencies: seq<NodeId>)

  type Needs = map<NodeId, set<NodeId>>

  // ----- sorted(ids, key=node_order.__getitem__) for a set of ids

  /** The members of `s`, in the order of `ids`. */
  function InOrder(ids: seq<NodeId>, s: set<NodeId>): (r: seq<NodeId>)
    ensures forall x :: x in r <==> x in ids && x in s
  {
    if ids == [] then []
    else
      assert ids == [ids[0]] + ids[1..];
      (if ids[0] in s then [ids[0]] else []) + InOrder(ids[1..], s)
  }

  /** `{node_id: index for index, node_id in enumerate(ids)}` */
  function IndexOf(ids: seq<NodeId>): (order: map<NodeId, int>)
    requires NoRepeats(ids)
    ensures forall x :: x in order <==> x in ids
    ensures forall i :: 0 <= i < |ids| ==> ids[i] in order && order[ids[i]] == i
  {
    AllDiffer(ids);
    map i | 0 <= i < |ids| :: ids[i] := i
  }

  lemma IndexInjective(ids: seq<NodeId>)
    requires NoRepeats(ids)
    ensures OrderIsInjective(IndexOf(ids))
  {
    var order := IndexOf(ids);
    forall a, b | SameRank(order, a, b)
      ensures a == b
    {
      var i :| 0 <= i < |ids| && ids[i] == a;
      var j :| 0 <= j < |ids| && ids[j] == b;
    }
  }

  lemma {:induction false} InOrderAscends(ids: seq<NodeId>, s: set<NodeId>, order: map<NodeId, int>)
    requires Ascending(ids, order)
    ensures Ascending(InOrder(ids, s), order)
  {
    if ids != [] {
      AscendingTail(ids, order);
      InOrderAscends(ids[1..], s, order);
      var rest := InOrder(ids[1..], s);
      PrependAscending(ids[0], rest, order);
      assert InOrder(ids, s) == if ids[0] in s then [ids[0]] + rest else rest;
    }
  }

  lemma IdsAscend(ids: seq<NodeId>)
    requires NoRepeats(ids)
    ensures Ascending(ids, IndexOf(ids))
  {
  }

  /** The dependency lists the layout stores. */
  function AsGraph(ids: seq<NodeId>, needs: Needs): Graph {
    map n | n in needs :: InOrder(ids, needs[n])
  }

  ghost predicate KnownNeeds(ids: seq<NodeId>, needs: Needs) {
    && (forall n :: n in needs <==> n in ids)
    && (forall n, d {:trigger Requires(needs, n, d)} :: Requires(needs, n, d) ==> d in needs)
  }

  ghost predicate Requires(needs: Needs, n: NodeId, d: NodeId) {
    n in needs && d in needs[n]
  }

  lemma GraphEdges(ids: seq<NodeId>, needs: Needs, n: NodeId, d: NodeId)
    requires KnownNeeds(ids, needs)
    ensures Edge(AsGraph(ids, needs), n, d) <==> Requires(needs, n, d)
  {
  }

  // ----- build_graph_dependency_maps

  /** Files `n` under each id of `wanted`, up to the first unknown one. */
  method FileNeeds(n: NodeId, wanted: seq<NodeId>, neededBy: Needs) returns (r: Result<Needs>)
    ensures r.Ok? <==> forall d :: d in wanted ==> d in neededBy
    ensures r.Ok? ==> r.value.Keys == neededBy.Keys
    ensures r.Ok? ==> forall d :: d in neededBy ==>
                                  r.value[d] == if d in wanted then neededBy[d] + {n} else neededBy[d]
  {
    var filed := neededBy;
    for k := 0 to |wanted|
      invariant filed.Keys == neededBy.Keys
      invariant forall d :: d in wanted[..k] ==> d in neededBy
      invariant forall d :: d in neededBy ==> filed[d] == if d in wanted[..k] then neededBy[d] + {n} else neededBy[d]
    {
      var d := wanted[k];
      if d !in filed {
        assert d in wanted;
        return Error("Node '" + n + "' depends on unknown node '" + d + "'.");
      }
      assert wanted[..k + 1] == wanted[..k] + [d];
      filed := filed[d := filed[d] + {n}];
    }
    assert wanted[..|wanted|] == wanted;
    return Ok(filed);
  }

  /** Where `x` occurs last. */
  function LastAt(ids: seq<NodeId>, x: NodeId): (i: nat)
    requires x in ids
    ensures i < |ids| && ids[i] == x && x !in ids[i + 1..]
  {
    var n := |ids| - 1;
    if ids[n] == x then n
    else
      assert ids == ids[..n] + [ids[n]];
      LastAt(ids[..n], x)
  }

  /** `{node_id: set(needs) for node_id, needs in nodes}`: of repeated ids the last counts. */
  function NeedsOf(nodes: seq<TopologyNode>): (needs: Needs)
    ensures forall x :: x in needs <==> x in Ids(nodes)
  {
    map x | x in Ids(nodes) :: Members(nodes[LastAt(Ids(nodes), x)].dependencies)
  }

  /** `neededBy` holds the edges of the first `k` nodes, turned round. */
  ghost predicate FiledUpTo(nodes: seq<TopologyNode>, neededBy: Needs, k: nat)
    requires k <= |nodes|
  {
    forall d, n :: Requires(neededBy, d, n) <==> exists i :: 0 <= i < k && nodes[i].id == n && d in nodes[i].dependencies
  }

  /** `build_graph_dependency_maps`: fails exactly on an unknown dependency. `dependents` has
      the edges of all declarations; for distinct ids the two maps turn the same edges round. */
  method BuildGraphDependencyMaps(nodes: seq<TopologyNode>) returns (r: Result<(Needs, Needs)>)
    ensures r.Ok? <==> forall i, d :: 0 <= i < |nodes| && d in nodes[i].dependencies ==> d in Ids(nodes)
    ensures r.Ok? ==>
      var (needs, neededBy) := r.value;
      needs == NeedsOf(nodes) && FiledUpTo(nodes, neededBy, |nodes|) && KnownMaps(Ids(nodes), needs, neededBy)
    ensures r.Ok? && NoRepeats(Ids(nodes)) ==> TurnedRound(r.value.0, r.value.1)
  {
    var ids := Ids(nodes);
    var neededBy: Needs := map id | id in ids :: {};
    for i := 0 to |nodes|
      invariant forall x :: x in neededBy <==> x in ids
      invariant forall j, d :: 0 <= j < i && d in nodes[j].dependencies ==> d in ids
      invariant FiledUpTo(nodes, neededBy, i)
    {
      var filed := FileNeeds(nodes[i].id, nodes[i].dependencies, neededBy);
      if filed.Error? {
        return Error(filed.message);
      }
      FileNext(nodes, neededBy, filed.value, i);
      neededBy := filed.value;
    }
    FiledIsKnown(nodes, neededBy);
    if NoRepeats(ids) {
      FiledAll(nodes, neededBy);
    }
    return Ok((NeedsOf(nodes), neededBy));
  }

  /** Both maps have an entry for every id and mention no other. */
  ghost predicate KnownMaps(ids: seq<NodeId>, needs: Needs, neededBy: Needs) {
    && needs.Keys == neededBy.Keys == Members(ids)
    && forall d, n {:trigger Requires(neededBy, d, n)} :: Requires(neededBy, d, n) ==> n in ids
  }

  lemma FiledIsKnown(nodes: seq<TopologyNode>, neededBy: Needs)
    requires FiledUpTo(nodes, neededBy, |nodes|) && forall x :: x in neededBy <==> x in Ids(nodes)
    ensures KnownMaps(Ids(nodes), NeedsOf(nodes), neededBy)
  {
    forall d, n | Requires(neededBy, d, n)
      ensures n in Ids(nodes)
    {
      var i :| 0 <= i < |nodes| && nodes[i].id == n && d in nodes[i].dependencies;
      assert Ids(nodes)[i] == n;
    }
  }

  lemma FileNext(nodes: seq<TopologyNode>, neededBy: Needs, filed: Needs, k: nat)
    requires k < |nodes| && FiledUpTo(nodes, neededBy, k) && filed.Keys == neededBy.Keys
    requires forall d :: d in nodes[k].dependencies ==> d in neededBy
    requires forall d :: d in neededBy ==>
      filed[d] == if d in nodes[k].dependencies then neededBy[d] + {nodes[k].id} else neededBy[d]
    ensures FiledUpTo(nodes, filed, k + 1)
  {
    forall d, n
      ensures Requires(filed, d, n) <==> exists i :: 0 <= i < k + 1 && nodes[i].id == n && d in nodes[i].dependencies
    {
      assert Requires(filed, d, n) <==> Requires(neededBy, d, n) || (n == nodes[k].id && d in nodes[k].dependencies);
    }
  }

  lemma FiledAll(nodes: seq<TopologyNode>, neededBy: Needs)
    requires NoRepeats(Ids(nodes)) && FiledUpTo(nodes, neededBy, |nodes|)
    ensures forall n, d :: Requires(NeedsOf(nodes), n, d) <==> Requires(neededBy, d, n)
  {
    forall n, d
      ensures Requires(NeedsOf(nodes), n, d) <==> exists i :: 0 <= i < |nodes| && nodes[i].id == n && d in nodes[i].dependencies
    {
      NeedsEdges(nodes, n, d);
    }
  }

  lemma NeedsEdges(nodes: seq<TopologyNode>, n: NodeId, d: NodeId)
    requires NoRepeats(Ids(nodes))
    ensures Requires(NeedsOf(nodes), n, d) <==> exists i :: 0 <= i < |nodes| && nodes[i].id == n && d in nodes[i].dependencies
  {
    var ids := Ids(nodes);
    AllDiffer(ids);
    if Requires(NeedsOf(nodes), n, d) {
      assert nodes[LastAt(ids, n)].id == n;
    }
    if i :| 0 <= i < |nodes| && nodes[i].id == n && d in nodes[i].dependencies {
      assert ids[i] == n && LastAt(ids, n) == i;
    }
  }

  function Ids(nodes: seq<TopologyNode>): (ids: seq<NodeId>)
    ensures |ids| == |nodes| && forall i :: 0 <= i < |nodes| ==> ids[i] == nodes[i].id
  {
    seq(|nodes|, i requires 0 <= i < |nodes| => nodes[i].id)
  }

  // ----- waves

  /** The nodes of the first `k` waves. */
  ghost function Left(waves: seq<seq<NodeId>>, k: nat): set<NodeId>
    requires k <= |waves|
  {
    if k == 0 then {} else Left(waves, k - 1) + Members(waves[k - 1])
  }

  /** Wave `i` lists, in order, exactly the nodes that wave `i - 1` releases:
      not gone before, and needing nothing outside the earlier waves. */
  ghost predicate WaveOk(ids: seq<NodeId>, needs: Needs, waves: seq<seq<NodeId>>, i: nat)
    requires i < |waves|
  {
    && waves[i] != [] && waves[i] == InOrder(ids, Ready(needs, Left(waves, i)))
  }

  /** Everything `n` needs has left. */
  ghost predicate Cleared(needs: Needs, gone: set<NodeId>, n: NodeId) {
    n in needs && needs[n] <= gone
  }

  ghost function Ready(needs: Needs, gone: set<NodeId>): set<NodeId> {
    set n | n in needs && n !in gone && Cleared(needs, gone, n)
  }

  ghost predicate WavesOk(ids: seq<NodeId>, needs: Needs, waves: seq<seq<NodeId>>) {
    forall i :: 0 <= i < |waves| ==> WaveOk(ids, needs, waves, i)
  }

  /** How many ids of the list have not left. */
  function Missing(list: seq<NodeId>, gone: set<NodeId>): nat {
    if list == [] then 0 else (if list[0] in gone then 0 else 1) + Missing(list[1..], gone)
  }

  lemma {:induction false} MissingFewer(list: seq<NodeId>, gone: set<NodeId>, d: NodeId)
    requires NoRepeats(list) && d !in gone
    ensures Missing(list, gone + {d}) == Missing(list, gone) - (if d in list then 1 else 0)
  {
    if list != [] {
      NoRepeatsTail(list);
      MissingFewer(list[1..], gone, d);
      assert list == [list[0]] + list[1..];
    }
  }

  lemma {:induction false} NoneMissing(list: seq<NodeId>, gone: set<NodeId>)
    ensures Missing(list, gone) == 0 <==> forall d :: d in list ==> d in gone
  {
    if list != [] {
      NoneMissing(list[1..], gone);
      assert list == [list[0]] + list[1..];
    }
  }

  lemma {:induction false} AllMissing(list: seq<NodeId>)
    ensures Missing(list, {}) == |list|
  {
    if list != [] {
      AllMissing(list[1..]);
    }
  }

  /** `remaining` counts, for every node, the needs that have not left yet. */
  ghost predicate Counted(remaining: map<NodeId, int>, ids: seq<NodeId>, needs: Needs, gone: set<NodeId>) {
    && remaining.Keys == needs.Keys
    && forall n {:trigger remaining[n]} :: n in needs ==> remaining[n] == Missing(InOrder(ids, needs[n]), gone)
  }

  lemma CountDown(ids: seq<NodeId>, needs: Needs, gone: set<NodeId>, n: NodeId, d: NodeId)
    requires NoRepeats(ids) && KnownNeeds(ids, needs) && n in needs && d !in gone
    ensures Missing(InOrder(ids, needs[n]), gone + {d}) ==
            Missing(InOrder(ids, needs[n]), gone) - (if Requires(needs, n, d) then 1 else 0)
    ensures Missing(InOrder(ids, needs[n]), gone) == 0 <==> Cleared(needs, gone, n)
    ensures Missing(InOrder(ids, needs[n]), gone + {d}) == 0 <==> Cleared(needs, gone + {d}, n)
  {
    var list := InOrder(ids, needs[n]);
    SortedWithoutRepeats(ids, needs[n]);
    MissingFewer(list, gone, d);
    forall x
      ensures x in list <==> Requires(needs, n, x)
    {
    }
    NoneMissing(list, gone);
    NoneMissing(list, gone + {d});
  }

  /** Counts while the dependents of `d` are being told that it left. */
  ghost predicate CountedPartly(remaining: map<NodeId, int>, ids: seq<NodeId>, needs: Needs, gone: set<NodeId>,
                                d: NodeId, told: seq<NodeId>)
  {
    && remaining.Keys == needs.Keys
    && (forall n {:trigger remaining[n]} :: n in needs && n in told ==>
          remaining[n] == Missing(InOrder(ids, needs[n]), gone + {d}))
    && (forall n {:trigger remaining[n]} :: n in needs && n !in told ==>
          remaining[n] == Missing(InOrder(ids, needs[n]), gone))
  }

  lemma TellOne(remaining: map<NodeId, int>, ids: seq<NodeId>, needs: Needs, gone: set<NodeId>, d: NodeId,
                told: seq<NodeId>, n: NodeId)
    requires CountedPartly(remaining, ids, needs, gone, d, told) && n in needs && n !in told
    requires Missing(InOrder(ids, needs[n]), gone + {d}) == Missing(InOrder(ids, needs[n]), gone) - 1
    ensures CountedPartly(remaining[n := remaining[n] - 1], ids, needs, gone, d, told + [n])
  {
    var told' := told + [n];
    forall m
      ensures m in told' <==> m in told || m == n
    {
    }
  }

  lemma AllTold(remaining: map<NodeId, int>, ids: seq<NodeId>, needs: Needs, gone: set<NodeId>, d: NodeId, told: seq<NodeId>)
    requires NoRepeats(ids) && KnownNeeds(ids, needs) && CountedPartly(remaining, ids, needs, gone, d, told)
    requires d !in gone && forall n :: n in told <==> Requires(needs, n, d)
    ensures Counted(remaining, ids, needs, gone + {d})
  {
    forall n | n in needs
      ensures remaining[n] == Missing(InOrder(ids, needs[n]), gone + {d})
    {
      CountDown(ids, needs, gone, n, d);
      assert n in told <==> Requires(needs, n, d);
    }
  }

  /** `released` holds the members of `told` that have nothing left to wait for. */
  ghost predicate ReleasedOf(released: seq<NodeId>, told: seq<NodeId>, needs: Needs, gone: set<NodeId>) {
    NoRepeats(released) && forall n :: n in released <==> n in told && Cleared(needs, gone, n)
  }

  lemma ReleaseOne(released: seq<NodeId>, told: seq<NodeId>, needs: Needs, gone: set<NodeId>, n: NodeId)
    requires ReleasedOf(released, told, needs, gone) && n !in told
    ensures Cleared(needs, gone, n) ==> ReleasedOf(released + [n], told + [n], needs, gone)
    ensures !Cleared(needs, gone, n) ==> ReleasedOf(released, told + [n], needs, gone)
  {
    AppendNoRepeats(released, n);
  }

  // ----- each id becomes ready at most once, whatever the maps say

  /** Counts only fall, and `next` holds ids, each once, whose count fell through zero. */
  ghost predicate Crossed(next: seq<NodeId>, before: map<NodeId, int>, after: map<NodeId, int>) {
    && after.Keys == before.Keys && NoRepeats(next)
    && (forall n {:trigger after[n]} :: n in before ==> after[n] <= before[n])
    && (forall n {:trigger n in next} :: n in next ==> n in before && before[n] > 0 && after[n] <= 0)
  }

  lemma CrossOne(before: map<NodeId, int>, n: NodeId)
    requires n in before
    ensures var after := before[n := before[n] - 1];
            Crossed(if after[n] == 0 then [n] else [], before, after)
  {
  }

  lemma CrossBoth(a: seq<NodeId>, b: seq<NodeId>, m0: map<NodeId, int>, m1: map<NodeId, int>, m2: map<NodeId, int>)
    requires Crossed(a, m0, m1) && Crossed(b, m1, m2)
    ensures Crossed(a + b, m0, m2)
  {
    ConcatNoRepeats(a, b);
  }

  /** The inner loop of `ordered_graph_waves`: tells the dependents of `d`. With maps that turn
      the same edges round (`exact`) the counts stay the numbers of missing needs. */
  method Release(d: NodeId, children: seq<NodeId>, ghost ids: seq<NodeId>, needs: Needs, ghost gone: set<NodeId>,
                 remaining: map<NodeId, int>, ghost exact: bool)
    returns (remaining': map<NodeId, int>, released: seq<NodeId>)
    requires NoRepeats(ids) && NoRepeats(children) && Members(children) <= remaining.Keys
    requires exact ==> Telling(d, children, ids, needs, gone) && Counted(remaining, ids, needs, gone)
    ensures Crossed(released, remaining, remaining') && Members(released) <= Members(children)
    ensures exact ==> Counted(remaining', ids, needs, gone + {d})
    ensures exact ==> ReleasedOf(released, children, needs, gone + {d})
  {
    remaining', released := remaining, [];
    for k := 0 to |children|
      invariant Crossed(released, remaining, remaining') && Members(released) <= Members(children)
      invariant exact ==> CountedPartly(remaining', ids, needs, gone, d, children[..k])
      invariant exact ==> ReleasedOf(released, children[..k], needs, gone + {d})
    {
      var n := children[k];
      NextOf(children, k);
      assert n in Members(children);
      if exact {
        TellNext(remaining', released, ids, needs, gone, d, children, k);
      }
      CrossOne(remaining', n);
      var counts := remaining'[n := remaining'[n] - 1];
      var freed := if counts[n] == 0 then [n] else [];
      CrossBoth(released, freed, remaining, remaining', counts);
      assert freed == [] ==> released + freed == released;
      MembersConcat(released, freed);
      remaining', released := counts, released + freed;
    }
    assert children[..|children|] == children;
    if exact {
      AllTold(remaining', ids, needs, gone, d, children);
    }
  }

  ghost predicate Telling(d: NodeId, children: seq<NodeId>, ids: seq<NodeId>, needs: Needs, gone: set<NodeId>) {
    KnownNeeds(ids, needs) && d !in gone && forall n :: n in children <==> Requires(needs, n, d)
  }

  /** Telling one more dependent keeps the exact counts and the list of the freed. */
  lemma TellNext(remaining: map<NodeId, int>, released: seq<NodeId>, ids: seq<NodeId>, needs: Needs,
                 gone: set<NodeId>, d: NodeId, children: seq<NodeId>, k: nat)
    requires NoRepeats(ids) && NoRepeats(children) && Telling(d, children, ids, needs, gone) && k < |children|
    requires CountedPartly(remaining, ids, needs, gone, d, children[..k])
    requires ReleasedOf(released, children[..k], needs, gone + {d})
    ensures var n := children[k];
            && n in remaining
            && CountedPartly(remaining[n := remaining[n] - 1], ids, needs, gone, d, children[..k + 1])
            && ReleasedOf(if remaining[n] - 1 == 0 then released + [n] else released, children[..k + 1], needs, gone + {d})
  {
    NextOf(children, k);
    TellCounts(remaining, ids, needs, gone, d, children, k);
    ReleaseOne(released, children[..k], needs, gone + {d}, children[k]);
  }

  lemma TellCounts(remaining: map<NodeId, int>, ids: seq<NodeId>, needs: Needs, gone: set<NodeId>, d: NodeId,
                   children: seq<NodeId>, k: nat)
    requires NoRepeats(ids) && NoRepeats(children) && Telling(d, children, ids, needs, gone) && k < |children|
    requires CountedPartly(remaining, ids, needs, gone, d, children[..k])
    ensures var n := children[k];
            && n in remaining
            && CountedPartly(remaining[n := remaining[n] - 1], ids, needs, gone, d, children[..k + 1])
            && (remaining[n] - 1 == 0 <==> Cleared(needs, gone + {d}, n))
  {
    var n := children[k];
    NextOf(children, k);
    assert n in children;
    CountDown(ids, needs, gone, n, d);
    TellOne(remaining, ids, needs, gone, d, children[..k], n);
  }

  // ----- one wave

  /** What has left needs nothing that has not. */
  ghost predicate Settled(needs: Needs, gone: set<NodeId>) {
    gone <= needs.Keys && forall n {:trigger Cleared(needs, gone, n)} :: n in gone ==> Cleared(needs, gone, n)
  }

  /** `next` holds the nodes that `gone'` clears and `gone` did not. */
  ghost predicate NewlyCleared(next: seq<NodeId>, needs: Needs, gone: set<NodeId>, gone': set<NodeId>) {
    NoRepeats(next) && forall n :: n in next <==> Cleared(needs, gone', n) && !Cleared(needs, gone, n)
  }

  lemma ClearedMore(next: seq<NodeId>, released: seq<NodeId>, children: seq<NodeId>, needs: Needs,
                    gone: set<NodeId>, gone': set<NodeId>, d: NodeId)
    requires NewlyCleared(next, needs, gone, gone') && gone <= gone' && d !in gone'
    requires forall n :: n in children <==> Requires(needs, n, d)
    requires ReleasedOf(released, children, needs, gone' + {d})
    ensures NewlyCleared(next + released, needs, gone, gone' + {d})
  {
    forall n
      ensures Cleared(needs, gone' + {d}, n) <==> Cleared(needs, gone', n) || n in released
      ensures n in released ==> !Cleared(needs, gone', n)
    {
      assert n in children <==> Requires(needs, n, d);
    }
    assert forall n :: Cleared(needs, gone, n) ==> Cleared(needs, gone', n);
    ConcatNoRepeats(next, released);
  }

  lemma ReadyNext(needs: Needs, gone: set<NodeId>, wave: seq<NodeId>, next: seq<NodeId>)
    requires Settled(needs, gone) && Members(wave) == Ready(needs, gone)
    requires NewlyCleared(next, needs, gone, gone + Members(wave))
    ensures Members(next) == Ready(needs, gone + Members(wave))
    ensures Settled(needs, gone + Members(wave))
  {
    var gone' := gone + Members(wave);
    forall n
      ensures n in Members(next) <==> n in Ready(needs, gone')
      ensures n in gone' ==> Cleared(needs, gone', n)
    {
      if n in gone' {
        assert Cleared(needs, gone, n);
      }
      if Cleared(needs, gone, n) {
        assert n in gone || n in Ready(needs, gone);
      }
    }
  }

  lemma MembersNext(s: seq<NodeId>, k: nat)
    requires k < |s|
    ensures Members(s[..k + 1]) == Members(s[..k]) + {s[k]}
  {
    NextOf(s, k);
  }

  /** What has left once the first `k` nodes of the wave have. */
  ghost function LeftIn(gone: set<NodeId>, wave: seq<NodeId>, k: nat): set<NodeId>
    requires k <= |wave|
  {
    gone + Members(wave[..k])
  }

  lemma LeaveNext(needs: Needs, gone: set<NodeId>, wave: seq<NodeId>, k: nat)
    requires NoRepeats(wave) && Members(wave) == Ready(needs, gone) && k < |wave|
    ensures wave[k] in needs && wave[k] !in LeftIn(gone, wave, k) && gone <= LeftIn(gone, wave, k)
    ensures LeftIn(gone, wave, k + 1) == LeftIn(gone, wave, k) + {wave[k]}
  {
    NextOf(wave, k);
    MembersNext(wave, k);
    assert wave[k] in Members(wave);
  }

  lemma AllLeave(gone: set<NodeId>, wave: seq<NodeId>)
    ensures LeftIn(gone, wave, 0) == gone && LeftIn(gone, wave, |wave|) == gone + Members(wave)
  {
    assert wave[..|wave|] == wave;
  }

  ghost predicate Leaves(wave: seq<NodeId>, ids: seq<NodeId>, needs: Needs, neededBy: Needs, gone: set<NodeId>) {
    KnownMaps(ids, needs, neededBy) && TurnedRound(needs, neededBy) && Members(wave) == Ready(needs, gone)
  }

  /** After the first `k` nodes of the wave left: exact counts, and the nodes they freed. */
  ghost predicate ToldUpTo(remaining: map<NodeId, int>, next: seq<NodeId>, ids: seq<NodeId>, needs: Needs,
                           gone: set<NodeId>, wave: seq<NodeId>, k: nat)
    requires k <= |wave|
  {
    && Counted(remaining, ids, needs, LeftIn(gone, wave, k))
    && NewlyCleared(next, needs, gone, LeftIn(gone, wave, k))
  }

  /** The `k`th node of the wave leaves; `found` is false where a lookup raises `KeyError`. */
  method ReleaseNode(k: nat, wave: seq<NodeId>, ids: seq<NodeId>, needs: Needs, neededBy: Needs, ghost gone: set<NodeId>,
                     remaining: map<NodeId, int>, ghost next: seq<NodeId>, ghost exact: bool)
    returns (found: bool, remaining': map<NodeId, int>, released: seq<NodeId>)
    requires NoRepeats(ids) && NoRepeats(wave) && k < |wave|
    requires exact ==> Leaves(wave, ids, needs, neededBy, gone) && ToldUpTo(remaining, next, ids, needs, gone, wave, k)
    ensures found ==> Crossed(released, remaining, remaining') && Members(released) <= Members(ids)
    ensures exact ==> found && ToldUpTo(remaining', next + released, ids, needs, gone, wave, k + 1)
  {
    var d := wave[k];
    remaining', released := remaining, [];
    if exact {
      WaveTells(wave, ids, needs, neededBy, gone, k);
    }
    if d !in neededBy || !(neededBy[d] <= Members(ids)) || !(neededBy[d] <= remaining.Keys) {
      return false, remaining', released;
    }
    var children := InOrder(ids, neededBy[d]);
    SortedWithoutRepeats(ids, neededBy[d]);
    remaining', released := Release(d, children, ids, needs, LeftIn(gone, wave, k), remaining, exact);
    if exact {
      ClearedMore(next, released, children, needs, gone, LeftIn(gone, wave, k), d);
    }
    found := true;
  }

  /** The loop over one wave of `ordered_graph_waves`. */
  method ReleaseWave(wave: seq<NodeId>, ids: seq<NodeId>, needs: Needs, neededBy: Needs, ghost gone: set<NodeId>,
                     remaining: map<NodeId, int>, ghost exact: bool)
    returns (found: bool, remaining': map<NodeId, int>, next: seq<NodeId>)
    requires NoRepeats(ids) && NoRepeats(wave)
    requires exact ==> Leaves(wave, ids, needs, neededBy, gone) && Counted(remaining, ids, needs, gone)
    ensures found ==> Crossed(next, remaining, remaining') && Members(next) <= Members(ids)
    ensures exact ==> found && Counted(remaining', ids, needs, gone + Members(wave))
    ensures exact ==> NewlyCleared(next, needs, gone, gone + Members(wave))
  {
    remaining', next := remaining, [];
    AllLeave(gone, wave);
    for k := 0 to |wave|
      invariant Crossed(next, remaining, remaining') && Members(next) <= Members(ids)
      invariant exact ==> ToldUpTo(remaining', next, ids, needs, gone, wave, k)
    {
      var known, counts, released := ReleaseNode(k, wave, ids, needs, neededBy, gone, remaining', next, exact);
      if !known {
        return false, remaining', next;
      }
      CrossBoth(next, released, remaining, remaining', counts);
      MembersConcat(next, released);
      remaining', next := counts, next + released;
    }
    found := true;
  }

  lemma WaveTells(wave: seq<NodeId>, ids: seq<NodeId>, needs: Needs, neededBy: Needs, gone: set<NodeId>, k: nat)
    requires NoRepeats(ids) && NoRepeats(wave) && k < |wave|
    requires Leaves(wave, ids, needs, neededBy, gone)
    ensures wave[k] in neededBy && gone <= LeftIn(gone, wave, k)
    ensures neededBy[wave[k]] <= Members(ids) && Members(ids) == needs.Keys
    ensures Telling(wave[k], InOrder(ids, neededBy[wave[k]]), ids, needs, LeftIn(gone, wave, k))
    ensures LeftIn(gone, wave, k + 1) == LeftIn(gone, wave, k) + {wave[k]}
  {
    TurnedIsKnown(ids, needs, neededBy);
    LeaveNext(needs, gone, wave, k);
    ChildrenOf(ids, needs, neededBy, wave[k]);
    forall n | n in neededBy[wave[k]] ensures n in Members(ids) {
      assert Requires(neededBy, wave[k], n);
    }
  }

  lemma TurnedIsKnown(ids: seq<NodeId>, needs: Needs, neededBy: Needs)
    requires KnownMaps(ids, needs, neededBy) && TurnedRound(needs, neededBy)
    ensures KnownNeeds(ids, needs)
  {
    forall n, d | Requires(needs, n, d) ensures d in needs {
      assert Requires(neededBy, d, n);
    }
    forall n ensures n in needs <==> n in ids {
      assert n in Members(ids) <==> n in ids;
    }
  }

  /** `neededBy` holds the edges of `needs`, turned round. */
  ghost predicate TurnedRound(needs: Needs, neededBy: Needs) {
    neededBy.Keys == needs.Keys && forall n, d :: Requires(needs, n, d) <==> Requires(neededBy, d, n)
  }

  lemma ChildrenOf(ids: seq<NodeId>, needs: Needs, neededBy: Needs, d: NodeId)
    requires NoRepeats(ids) && KnownNeeds(ids, needs) && TurnedRound(needs, neededBy) && d in needs
    ensures NoRepeats(InOrder(ids, neededBy[d]))
    ensures forall n :: n in InOrder(ids, neededBy[d]) <==> Requires(needs, n, d)
  {
    SortedWithoutRepeats(ids, neededBy[d]);
    forall n
      ensures n in InOrder(ids, neededBy[d]) <==> Requires(needs, n, d)
    {
      assert Requires(needs, n, d) <==> Requires(neededBy, d, n);
    }
  }

  lemma SortedWithoutRepeats(ids: seq<NodeId>, s: set<NodeId>)
    requires NoRepeats(ids)
    ensures Ascending(InOrder(ids, s), IndexOf(ids)) && NoRepeats(InOrder(ids, s))
  {
    IdsAscend(ids);
    InOrderAscends(ids, s, IndexOf(ids));
    AscendingNoRepeats(InOrder(ids, s), IndexOf(ids));
  }

  // ----- all waves

  lemma {:induction false} LeftPrefix(waves: seq<seq<NodeId>>, wave: seq<NodeId>, k: nat)
    requires k <= |waves|
    ensures Left(waves + [wave], k) == Left(waves, k)
  {
    if k > 0 {
      LeftPrefix(waves, wave, k - 1);
      assert (waves + [wave])[k - 1] == waves[k - 1];
    }
  }

  lemma WavesExtend(ids: seq<NodeId>, needs: Needs, waves: seq<seq<NodeId>>, wave: seq<NodeId>)
    requires WavesOk(ids, needs, waves) && wave != []
    requires wave == InOrder(ids, Ready(needs, Left(waves, |waves|)))
    ensures WavesOk(ids, needs, waves + [wave])
    ensures Left(waves + [wave], |waves| + 1) == Left(waves, |waves|) + Members(wave)
  {
    var more := waves + [wave];
    forall i | 0 <= i < |more|
      ensures WaveOk(ids, needs, more, i)
    {
      LeftPrefix(waves, wave, i);
      if i < |waves| {
        assert WaveOk(ids, needs, waves, i);
      }
    }
    LeftPrefix(waves, wave, |waves|);
  }

  lemma {:induction false} CountMembers(s: seq<NodeId>)
    requires NoRepeats(s)
    ensures |Members(s)| == |s|
  {
    if s != [] {
      var n := |s| - 1;
      NextOf(s, n);
      assert s[..n + 1] == s;
      MembersNext(s, n);
      CountMembers(s[..n]);
    }
  }

  ghost predicate WaitsAmong(g: Graph, stuck: set<NodeId>, n: NodeId) {
    exists d {:trigger Edge(g, n, d)} :: Edge(g, n, d) && d in stuck
  }

  ghost predicate AllWait(g: Graph, stuck: set<NodeId>) {
    forall n {:trigger WaitsAmong(g, stuck, n)} :: n in stuck ==> WaitsAmong(g, stuck, n)
  }

  /** Nodes that all still wait for one another admit dependency chains of any length. */
  lemma {:induction false} ChainAmong(g: Graph, stuck: set<NodeId>, k: nat) returns (p: seq<NodeId>)
    requires stuck != {} && AllWait(g, stuck)
    ensures IsPath(g, p) && |p| == k + 1 && p[k] in stuck
  {
    if k == 0 {
      var n :| n in stuck;
      p := [n];
    } else {
      var q := ChainAmong(g, stuck, k - 1);
      assert WaitsAmong(g, stuck, q[k - 1]);
      var d :| Edge(g, q[k - 1], d) && d in stuck;
      ExtendPath(g, q[0], q[k - 1], d, q);
      p := q + [d];
    }
  }

  lemma StuckIsCyclic(ids: seq<NodeId>, needs: Needs, gone: set<NodeId>)
    requires KnownNeeds(ids, needs) && gone < needs.Keys && Ready(needs, gone) == {}
    ensures !Acyclic(AsGraph(ids, needs))
  {
    var g := AsGraph(ids, needs);
    var stuck := needs.Keys - gone;
    forall n | n in stuck
      ensures WaitsAmong(g, stuck, n)
    {
      NotReady(needs, gone, n);
      var d :| Requires(needs, n, d) && d !in gone;
      GraphEdges(ids, needs, n, d);
    }
    var n :| n in needs && n !in gone;
    assert n in stuck;
    EndlessIsCyclic(g, stuck);
  }

  lemma NotReady(needs: Needs, gone: set<NodeId>, n: NodeId)
    requires n in needs && n !in gone && n !in Ready(needs, gone)
    ensures exists d :: Requires(needs, n, d) && d !in gone
  {
    var d :| d in needs[n] && d !in gone;
    assert Requires(needs, n, d);
  }

  lemma EndlessIsCyclic(g: Graph, stuck: set<NodeId>)
    requires stuck != {} && AllWait(g, stuck)
    ensures !Acyclic(g)
  {
    var p := ChainAmong(g, stuck, |Vertices(g)| + 1);
    if Acyclic(g) {
      PathBound(g, p);
    }
  }

  /** Every need of a node is in an earlier wave, and past the first wave one of
      them is in the wave just before. */
  lemma WaveNeeds(ids: seq<NodeId>, needs: Needs, waves: seq<seq<NodeId>>, i: nat, n: NodeId)
    requires WavesOk(ids, needs, waves) && i < |waves| && n in waves[i]
    ensures n in needs && needs[n] <= Left(waves, i) && n !in Left(waves, i)
    ensures i > 0 ==> exists d :: d in needs[n] && d in waves[i - 1]
  {
    assert WaveOk(ids, needs, waves, i);
    if i > 0 {
      assert WaveOk(ids, needs, waves, i - 1);
      assert n !in Left(waves, i - 1);
      assert n !in waves[i - 1];
      assert n in ids;
      assert n !in Ready(needs, Left(waves, i - 1));
      var d :| d in needs[n] && d !in Left(waves, i - 1);
    }
  }

  lemma {:induction false} LeftMember(waves: seq<seq<NodeId>>, k: nat, n: NodeId) returns (i: nat)
    requires k <= |waves| && n in Left(waves, k)
    ensures i < k && n in waves[i]
  {
    if n in Members(waves[k - 1]) {
      i := k - 1;
    } else {
      i := LeftMember(waves, k - 1, n);
    }
  }

  /** A node in wave `i` heads a chain of `i` dependencies ... */
  lemma {:induction false} DeepChain(ids: seq<NodeId>, needs: Needs, waves: seq<seq<NodeId>>, i: nat, n: NodeId)
    returns (p: seq<NodeId>)
    requires KnownNeeds(ids, needs) && WavesOk(ids, needs, waves) && i < |waves| && n in waves[i]
    ensures IsPath(AsGraph(ids, needs), p) && p[0] == n && |p| == i + 1
  {
    WaveNeeds(ids, needs, waves, i, n);
    if i == 0 {
      p := [n];
    } else {
      var d :| d in needs[n] && d in waves[i - 1];
      var q := DeepChain(ids, needs, waves, i - 1, d);
      GraphEdges(ids, needs, n, d);
      var g := AsGraph(ids, needs);
      assert StepAt(g, [n, d], 0);
      JoinPaths(g, n, d, q[|q| - 1], [n, d], q);
      p := [n, d] + q[1..];
    }
  }

  /** ... and no longer one: its wave is the length of its longest chain. */
  lemma {:induction false} NoDeeperChain(ids: seq<NodeId>, needs: Needs, waves: seq<seq<NodeId>>, i: nat, p: seq<NodeId>)
    requires KnownNeeds(ids, needs) && WavesOk(ids, needs, waves) && i < |waves|
    requires IsPath(AsGraph(ids, needs), p) && p[0] in waves[i]
    ensures |p| <= i + 1
    decreases i
  {
    if |p| > 1 {
      var g := AsGraph(ids, needs);
      assert StepAt(g, p, 0);
      GraphEdges(ids, needs, p[0], p[1]);
      WaveNeeds(ids, needs, waves, i, p[0]);
      var j := LeftMember(waves, i, p[1]);
      SubPath(g, p, 1, |p|);
      NoDeeperChain(ids, needs, waves, j, p[1..|p|]);
    }
  }

  lemma AllLeftIsAcyclic(ids: seq<NodeId>, needs: Needs, waves: seq<seq<NodeId>>)
    requires KnownNeeds(ids, needs) && WavesOk(ids, needs, waves)
    requires Left(waves, |waves|) == needs.Keys
    ensures Acyclic(AsGraph(ids, needs))
  {
    var g := AsGraph(ids, needs);
    forall p | IsPath(g, p) && |p| >= 2
      ensures p[0] != p[|p| - 1]
    {
      assert StepAt(g, p, 0);
      var i := LeftMember(waves, |waves|, p[0]);
      if p[0] == p[|p| - 1] {
        var q := DeepChain(ids, needs, waves, i, p[0]);
        JoinPaths(g, p[0], p[0], q[|q| - 1], p, q);
        NoDeeperChain(ids, needs, waves, i, p + q[1..]);
      }
    }
  }

  /** The loop invariant of `ordered_graph_waves`, apart from the counters. */
  ghost predicate Leaving(ids: seq<NodeId>, needs: Needs, waves: seq<seq<NodeId>>, ready: seq<NodeId>) {
    var gone := Left(waves, |waves|);
    && Settled(needs, gone)
    && ready == InOrder(ids, Ready(needs, gone))
    && WavesOk(ids, needs, waves)
  }

  /** The number of nodes in the first `k` waves. */
  ghost function Total(waves: seq<seq<NodeId>>, k: nat): nat
    requires k <= |waves|
  {
    if k == 0 then 0 else Total(waves, k - 1) + |waves[k - 1]|
  }

  lemma ReadyWave(ids: seq<NodeId>, needs: Needs, gone: set<NodeId>, ready: seq<NodeId>)
    requires NoRepeats(ids) && KnownNeeds(ids, needs) && ready == InOrder(ids, Ready(needs, gone))
    ensures NoRepeats(ready) && Members(ready) == Ready(needs, gone)
  {
    SortedWithoutRepeats(ids, Ready(needs, gone));
    AllSorted(ids, needs, Ready(needs, gone));
  }

  lemma NextWave(ids: seq<NodeId>, needs: Needs, waves: seq<seq<NodeId>>, ready: seq<NodeId>, next: seq<NodeId>)
    requires NoRepeats(ids) && KnownNeeds(ids, needs)
    requires Leaving(ids, needs, waves, ready) && ready != []
    requires NewlyCleared(next, needs, Left(waves, |waves|), Left(waves, |waves|) + Members(ready))
    ensures Leaving(ids, needs, waves + [ready], InOrder(ids, Members(next)))
    ensures Left(waves + [ready], |waves| + 1) == Left(waves, |waves|) + Members(ready)
  {
    var gone := Left(waves, |waves|);
    ReadyWave(ids, needs, gone, ready);
    WavesExtend(ids, needs, waves, ready);
    ReadyNext(needs, gone, ready, next);
  }

  lemma {:induction false} InOrderSplit(ids: seq<NodeId>, a: set<NodeId>, b: set<NodeId>)
    requires a !! b
    ensures |InOrder(ids, a + b)| == |InOrder(ids, a)| + |InOrder(ids, b)|
  {
    if ids != [] {
      InOrderSplit(ids[1..], a, b);
    }
  }

  lemma {:induction false} InOrderFull(ids: seq<NodeId>, s: set<NodeId>)
    ensures |InOrder(ids, s)| <= |ids|
    ensures |InOrder(ids, s)| == |ids| <==> forall x :: x in ids ==> x in s
  {
    if ids != [] {
      InOrderFull(ids[1..], s);
      assert ids == [ids[0]] + ids[1..];
    }
  }

  lemma {:induction false} CountLeft(ids: seq<NodeId>, needs: Needs, waves: seq<seq<NodeId>>, k: nat)
    requires WavesOk(ids, needs, waves) && k <= |waves|
    ensures |InOrder(ids, Left(waves, k))| == Total(waves, k)
  {
    if k == 0 {
      NothingInOrder(ids);
    } else {
      CountLeft(ids, needs, waves, k - 1);
      assert WaveOk(ids, needs, waves, k - 1);
      var gone := Left(waves, k - 1);
      InOrderSplit(ids, gone, Ready(needs, gone));
      SameInOrder(ids, gone, Ready(needs, gone), waves[k - 1]);
    }
  }

  lemma {:induction false} NothingInOrder(ids: seq<NodeId>)
    ensures InOrder(ids, {}) == []
  {
    if ids != [] {
      NothingInOrder(ids[1..]);
    }
  }

  lemma {:induction false} SameInOrder(ids: seq<NodeId>, gone: set<NodeId>, ready: set<NodeId>, wave: seq<NodeId>)
    requires wave == InOrder(ids, ready)
    ensures InOrder(ids, gone + Members(wave)) == InOrder(ids, gone + ready)
  {
    InOrderAgrees(ids, gone + Members(wave), gone + ready);
  }

  lemma {:induction false} InOrderAgrees(ids: seq<NodeId>, a: set<NodeId>, b: set<NodeId>)
    requires forall x :: x in ids ==> (x in a <==> x in b)
    ensures InOrder(ids, a) == InOrder(ids, b)
  {
    if ids != [] {
      assert ids == [ids[0]] + ids[1..];
      InOrderAgrees(ids[1..], a, b);
    }
  }

  lemma AllVisited(ids: seq<NodeId>, needs: Needs, waves: seq<seq<NodeId>>)
    requires KnownNeeds(ids, needs) && WavesOk(ids, needs, waves)
    requires Left(waves, |waves|) <= needs.Keys
    ensures Total(waves, |waves|) <= |ids|
    ensures Total(waves, |waves|) == |ids| <==> Left(waves, |waves|) == needs.Keys
  {
    CountLeft(ids, needs, waves, |waves|);
    InOrderFull(ids, Left(waves, |waves|));
  }

  /** When no node is ready, all have left exactly if there is no cycle. */
  lemma Exhausted(ids: seq<NodeId>, needs: Needs, waves: seq<seq<NodeId>>)
    requires NoRepeats(ids) && KnownNeeds(ids, needs) && Leaving(ids, needs, waves, [])
    ensures Total(waves, |waves|) == |ids| <==> Acyclic(AsGraph(ids, needs))
    ensures Total(waves, |waves|) == |ids| ==> Left(waves, |waves|) == needs.Keys
  {
    AllVisited(ids, needs, waves);
    if Left(waves, |waves|) == needs.Keys {
      AllLeftIsAcyclic(ids, needs, waves);
    } else {
      NoneReady(ids, needs, Left(waves, |waves|));
      StuckIsCyclic(ids, needs, Left(waves, |waves|));
    }
  }

  /** The ids in the order of `node_order`, where of repeated ids the last one counts. */
  function Lasts(ids: seq<NodeId>): seq<NodeId> {
    if ids == [] then []
    else if ids[0] in ids[1..] then Lasts(ids[1..])
    else [ids[0]] + Lasts(ids[1..])
  }

  lemma {:induction false} LastsFacts(ids: seq<NodeId>)
    ensures NoRepeats(Lasts(ids)) && Members(Lasts(ids)) == Members(ids)
    ensures |Lasts(ids)| <= |ids|
    ensures |Lasts(ids)| == |ids| <==> NoRepeats(ids)
    ensures NoRepeats(ids) ==> Lasts(ids) == ids
  {
    if ids != [] {
      var x, rest := ids[0], ids[1..];
      LastsFacts(rest);
      assert ids == [x] + rest;
      assert forall y :: y in Members(rest) <==> y in rest;
      assert forall y :: y in Members(Lasts(rest)) <==> y in Lasts(rest);
      if x in rest {
        assert Members(ids) == Members(rest);
      } else {
        ConcatNoRepeats([x], Lasts(rest));
        assert Members(ids) == {x} + Members(rest);
        assert Members([x] + Lasts(rest)) == {x} + Members(Lasts(rest));
      }
      if NoRepeats(ids) {
        NoRepeatsTail(ids);
      } else if NoRepeats(rest) && x !in rest {
        ConcatNoRepeats([x], rest);
      }
    }
  }

  /** The first `k` waves one after the other. */
  ghost function Flat(waves: seq<seq<NodeId>>, k: nat): seq<NodeId>
    requires k <= |waves|
  {
    if k == 0 then [] else Flat(waves, k - 1) + waves[k - 1]
  }

  lemma {:induction false} FlatPrefix(waves: seq<seq<NodeId>>, wave: seq<NodeId>, k: nat)
    requires k <= |waves|
    ensures Flat(waves + [wave], k) == Flat(waves, k)
  {
    if k > 0 {
      FlatPrefix(waves, wave, k - 1);
    }
  }

  lemma {:induction false} FlatIs(waves: seq<seq<NodeId>>, k: nat)
    requires k <= |waves|
    ensures |Flat(waves, k)| == Total(waves, k) && Members(Flat(waves, k)) == Left(waves, k)
  {
    if k > 0 {
      FlatIs(waves, k - 1);
      MembersConcat(Flat(waves, k - 1), waves[k - 1]);
    }
  }

  lemma MembersConcat(a: seq<NodeId>, b: seq<NodeId>)
    ensures Members(a + b) == Members(a) + Members(b)
  {
  }

  /** The nodes whose count has come down. */
  ghost predicate Spent(ids: seq<NodeId>, remaining: map<NodeId, int>) {
    forall n {:trigger n in ids} :: n in ids ==> n in remaining && remaining[n] <= 0
  }

  /** No id comes twice among those that left and those that are ready; all are listed in
      `order`, and none of them has anything left to count. */
  ghost predicate OnceEach(order: seq<NodeId>, waves: seq<seq<NodeId>>, ready: seq<NodeId>, remaining: map<NodeId, int>) {
    var all := Flat(waves, |waves|) + ready;
    NoRepeats(all) && Spent(all, remaining) && Members(all) <= Members(order)
  }

  lemma StaySpent(ids: seq<NodeId>, before: map<NodeId, int>, next: seq<NodeId>, after: map<NodeId, int>, sorted: seq<NodeId>)
    requires NoRepeats(ids) && Spent(ids, before) && Crossed(next, before, after)
    requires NoRepeats(sorted) && forall n :: n in sorted ==> n in next
    ensures NoRepeats(ids + sorted) && Spent(ids + sorted, after)
  {
    forall n | n in ids ensures n in after && after[n] <= 0 && n !in sorted {
      assert before[n] <= 0;
    }
    ConcatNoRepeats(ids, sorted);
  }

  lemma OnceMore(order: seq<NodeId>, waves: seq<seq<NodeId>>, ready: seq<NodeId>, remaining: map<NodeId, int>,
                 next: seq<NodeId>, counts: map<NodeId, int>)
    requires NoRepeats(order) && OnceEach(order, waves, ready, remaining) && Crossed(next, remaining, counts)
    ensures var more, sorted := waves + [ready], InOrder(order, Members(next));
            && OnceEach(order, more, sorted, counts)
            && |Flat(more, |more|)| == |Flat(waves, |waves|)| + |ready|
            && |Flat(more, |more|)| + |sorted| <= |order|
  {
    FlatPrefix(waves, ready, |waves|);
    var more, sorted := waves + [ready], InOrder(order, Members(next));
    assert Flat(more, |more|) == Flat(waves, |waves|) + ready;
    SortedWithoutRepeats(order, Members(next));
    StaySpent(Flat(waves, |waves|) + ready, remaining, next, counts, sorted);
    MembersConcat(Flat(waves, |waves|) + ready, sorted);
    OnceBound(order, more, sorted, counts);
  }

  /** So at most all distinct ids are visited, and all of them only if each left. */
  lemma OnceBound(order: seq<NodeId>, waves: seq<seq<NodeId>>, ready: seq<NodeId>, remaining: map<NodeId, int>)
    requires NoRepeats(order) && OnceEach(order, waves, ready, remaining)
    ensures |Flat(waves, |waves|)| + |ready| <= |order|
    ensures ready == [] && |Flat(waves, |waves|)| == |order| ==> Members(Flat(waves, |waves|)) == Members(order)
  {
    var all := Flat(waves, |waves|) + ready;
    CountMembers(order);
    CountMembers(all);
    Within(Members(all), Members(order));
    if ready == [] {
      assert all == Flat(waves, |waves|);
    }
  }

  lemma Within(a: set<NodeId>, b: set<NodeId>)
    requires a <= b
    ensures |a| <= |b| && (|a| == |b| ==> a == b)
  {
    assert |b| == |a| + |b - a|;
  }

  /** What the loop keeps when the maps turn the same edges round. */
  ghost predicate Exactly(order: seq<NodeId>, needs: Needs, waves: seq<seq<NodeId>>, ready: seq<NodeId>,
                          remaining: map<NodeId, int>) {
    && KnownNeeds(order, needs) && Leaving(order, needs, waves, ready)
    && Counted(remaining, order, needs, Left(waves, |waves|))
  }

  ghost predicate LoopOk(order: seq<NodeId>, needs: Needs, waves: seq<seq<NodeId>>, ready: seq<NodeId>,
                         remaining: map<NodeId, int>, exact: bool) {
    && remaining.Keys == needs.Keys && OnceEach(order, waves, ready, remaining)
    && (exact ==> Exactly(order, needs, waves, ready, remaining))
  }

  /** The loop body of `ordered_graph_waves`: the wave leaves, and what it frees is sorted. */
  method NextReady(order: seq<NodeId>, needs: Needs, neededBy: Needs, ghost waves: seq<seq<NodeId>>, ready: seq<NodeId>,
                   remaining: map<NodeId, int>, ghost exact: bool)
    returns (found: bool, counts: map<NodeId, int>, then': seq<NodeId>)
    requires NoRepeats(order) && (exact ==> KnownMaps(order, needs, neededBy) && TurnedRound(needs, neededBy))
    requires LoopOk(order, needs, waves, ready, remaining, exact) && ready != []
    ensures exact ==> found
    ensures found ==> LoopOk(order, needs, waves + [ready], then', counts, exact)
    ensures found ==>
      var more := waves + [ready];
      |Flat(more, |more|)| == |Flat(waves, |waves|)| + |ready| && |Flat(more, |more|)| + |then'| <= |order|
  {
    ghost var gone := Left(waves, |waves|);
    ReadyPart(order, waves, ready, remaining);
    if exact {
      ReadyWave(order, needs, gone, ready);
    }
    var next;
    found, counts, next := ReleaseWave(ready, order, needs, neededBy, gone, remaining, exact);
    then' := InOrder(order, Members(next));
    if found {
      if exact {
        NextExactly(order, needs, waves, ready, remaining, next, counts);
      }
      OnceMore(order, waves, ready, remaining, next, counts);
    }
  }

  lemma ReadyPart(order: seq<NodeId>, waves: seq<seq<NodeId>>, ready: seq<NodeId>, remaining: map<NodeId, int>)
    requires OnceEach(order, waves, ready, remaining)
    ensures NoRepeats(ready)
  {
    var front, all := Flat(waves, |waves|), Flat(waves, |waves|) + ready;
    forall i, j | 0 <= i < j < |ready| ensures Differ(ready, i, j) {
      assert Differ(all, |front| + i, |front| + j);
    }
  }

  /** `ordered_graph_waves`, for any maps: a lookup may raise `KeyError`, but an id is ready at
      most once, so success means distinct ids, each in exactly one wave. On known maps that turn
      the same edges round it succeeds exactly on distinct ids and acyclic graphs, and then every
      node leaves in exactly the wave its dependencies allow. */
  method OrderedGraphWaves(ids: seq<NodeId>, needs: Needs, neededBy: Needs) returns (r: Result<seq<seq<NodeId>>>)
    ensures r.Ok? ==> NoRepeats(ids)
    ensures r.Ok? ==> NoRepeats(Flat(r.value, |r.value|)) && Members(Flat(r.value, |r.value|)) == Members(ids)
    ensures KnownMaps(ids, needs, neededBy) && TurnedRound(needs, neededBy)
            ==> (r.Ok? <==> NoRepeats(ids) && Acyclic(AsGraph(ids, needs)))
    ensures KnownMaps(ids, needs, neededBy) && TurnedRound(needs, neededBy) && r.Ok? ==> WavesOk(ids, needs, r.value)
  {
    ghost var exact := KnownMaps(ids, needs, neededBy) && TurnedRound(needs, neededBy);
    var remaining := map n | n in needs :: |needs[n]|;
    var order := Lasts(ids);
    LastsFacts(ids);
    var free := set n | n in remaining && remaining[n] == 0;
    if !(free <= Members(order)) {
      return Error("KeyError");
    }
    var ready := InOrder(order, free);
    var waves: seq<seq<NodeId>> := [];
    var visited := 0;
    Begun(ids, needs, neededBy, remaining, free);
    while ready != []
      invariant LoopOk(order, needs, waves, ready, remaining, exact)
      invariant visited == |Flat(waves, |waves|)| && visited + |ready| <= |order|
      decreases |order| - visited
    {
      var found, counts, next := NextReady(order, needs, neededBy, waves, ready, remaining, exact);
      if !found {
        return Error("KeyError");
      }
      waves, visited, remaining, ready := waves + [ready], visited + |ready|, counts, next;
    }
    Finished(ids, needs, waves, remaining, exact);
    if visited != |ids| {
      return Error("Workflow graph contains a cycle.");
    }
    return Ok(waves);
  }

  lemma KnownInOrder(ids: seq<NodeId>, needs: Needs, neededBy: Needs)
    requires KnownMaps(ids, needs, neededBy)
    ensures NoRepeats(Lasts(ids)) && KnownMaps(Lasts(ids), needs, neededBy)
  {
    LastsFacts(ids);
    forall d, n | Requires(neededBy, d, n) ensures n in Lasts(ids) {
      assert n in Members(ids) && n in Members(Lasts(ids));
    }
  }

  lemma Begun(ids: seq<NodeId>, needs: Needs, neededBy: Needs, remaining: map<NodeId, int>, free: set<NodeId>)
    requires remaining.Keys == needs.Keys && forall n :: n in needs ==> remaining[n] == |needs[n]|
    requires free == set n | n in remaining && remaining[n] == 0
    ensures var order := Lasts(ids);
            && NoRepeats(order) && |InOrder(order, free)| <= |order|
            && LoopOk(order, needs, [], InOrder(order, free), remaining,
                      KnownMaps(ids, needs, neededBy) && TurnedRound(needs, neededBy))
    ensures KnownMaps(ids, needs, neededBy) ==> KnownMaps(Lasts(ids), needs, neededBy)
  {
    LastsFacts(ids);
    BegunOnce(Lasts(ids), remaining, free);
    if KnownMaps(ids, needs, neededBy) {
      KnownInOrder(ids, needs, neededBy);
      if TurnedRound(needs, neededBy) {
        TurnedIsKnown(Lasts(ids), needs, neededBy);
        InitiallyReady(Lasts(ids), needs, remaining);
      }
    }
  }

  lemma BegunOnce(order: seq<NodeId>, remaining: map<NodeId, int>, free: set<NodeId>)
    requires NoRepeats(order) && free == set n | n in remaining && remaining[n] == 0
    ensures OnceEach(order, [], InOrder(order, free), remaining) && |InOrder(order, free)| <= |order|
  {
    var ready := InOrder(order, free);
    SortedWithoutRepeats(order, free);
    assert Flat([], 0) + ready == ready;
    OnceBound(order, [], ready, remaining);
  }

  /** What the count of the visited says when nothing is ready any more. */
  lemma Finished(ids: seq<NodeId>, needs: Needs, waves: seq<seq<NodeId>>, remaining: map<NodeId, int>, exact: bool)
    requires LoopOk(Lasts(ids), needs, waves, [], remaining, exact)
    ensures |Flat(waves, |waves|)| == |ids| ==>
      && NoRepeats(ids) && NoRepeats(Flat(waves, |waves|)) && Members(Flat(waves, |waves|)) == Members(ids)
    ensures exact ==> (|Flat(waves, |waves|)| == |ids| <==> NoRepeats(ids) && Acyclic(AsGraph(ids, needs)))
    ensures exact && NoRepeats(ids) ==> WavesOk(ids, needs, waves)
  {
    var order := Lasts(ids);
    LastsFacts(ids);
    OnceBound(order, waves, [], remaining);
    assert Flat(waves, |waves|) + [] == Flat(waves, |waves|);
    FlatIs(waves, |waves|);
    if exact {
      Exhausted(order, needs, waves);
    }
  }

  lemma NextExactly(order: seq<NodeId>, needs: Needs, waves: seq<seq<NodeId>>, ready: seq<NodeId>,
                    remaining: map<NodeId, int>, next: seq<NodeId>, counts: map<NodeId, int>)
    requires NoRepeats(order) && Exactly(order, needs, waves, ready, remaining) && ready != []
    requires Counted(counts, order, needs, Left(waves, |waves|) + Members(ready))
    requires NewlyCleared(next, needs, Left(waves, |waves|), Left(waves, |waves|) + Members(ready))
    ensures Exactly(order, needs, waves + [ready], InOrder(order, Members(next)), counts)
  {
    NextWave(order, needs, waves, ready, next);
  }

  lemma InitiallyReady(ids: seq<NodeId>, needs: Needs, remaining: map<NodeId, int>)
    requires NoRepeats(ids) && KnownNeeds(ids, needs)
    requires remaining.Keys == needs.Keys && forall n :: n in needs ==> remaining[n] == |needs[n]|
    ensures Counted(remaining, ids, needs, {}) && Settled(needs, {})
    ensures (set n | n in remaining && remaining[n] == 0) == Ready(needs, {})
  {
    forall n | n in needs
      ensures remaining[n] == Missing(InOrder(ids, needs[n]), {})
      ensures remaining[n] == 0 <==> Cleared(needs, {}, n)
    {
      NeedsSize(ids, needs, n);
    }
  }

  lemma NeedsSize(ids: seq<NodeId>, needs: Needs, n: NodeId)
    requires NoRepeats(ids) && KnownNeeds(ids, needs) && n in needs
    ensures |needs[n]| == Missing(InOrder(ids, needs[n]), {})
    ensures |needs[n]| == 0 <==> Cleared(needs, {}, n)
  {
    var list := InOrder(ids, needs[n]);
    SortedWithoutRepeats(ids, needs[n]);
    AllMissing(list);
    CountMembers(list);
    assert forall d :: d in needs[n] ==> Requires(needs, n, d);
    assert Members(list) == needs[n];
  }

  lemma AllSorted(ids: seq<NodeId>, needs: Needs, s: set<NodeId>)
    requires KnownNeeds(ids, needs) && s <= needs.Keys
    ensures Members(InOrder(ids, s)) == s
  {
  }

  lemma NoneReady(ids: seq<NodeId>, needs: Needs, gone: set<NodeId>)
    requires KnownNeeds(ids, needs) && InOrder(ids, Ready(needs, gone)) == []
    ensures Ready(needs, gone) == {}
  {
    AllSorted(ids, needs, Ready(needs, gone));
    assert InOrder(ids, Ready(needs, gone)) == [] && Members(InOrder(ids, Ready(needs, gone))) == {};
  }
}
