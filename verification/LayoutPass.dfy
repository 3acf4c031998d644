/**
  Wave and lane placement of a workflow DAG (`compute_topology_layout` in
  `observability/layout.py`).
 */
module LayoutPass {
  import opened Results
  import opened Collections
  import opened Graphs
  import opened Topology
  import opened Waves

  datatype Span = Span(start: nat, end: nat)

  type Placements = map<NodeId, Placement>

  // ----- spans

  predicate Disjoint(a: Span, b: Span) {
    a.start > b.end || a.end < b.start
  }

  predicate Covers(span: Span, lane: int) {
    span.start <= lane <= span.end
  }

  /** The spans have no lane in common. */
  ghost predicate Apart(a: Span, b: Span) {
    forall lane: int :: !(Covers(a, lane) && Covers(b, lane))
  }

  lemma DisjointIff(a: Span, b: Span)
    requires a.start <= a.end && b.start <= b.end
    ensures Disjoint(a, b) <==> Apart(a, b)
  {
    if Apart(a, b) {
      assert !(Covers(a, a.start) && Covers(b, a.start)) && !(Covers(a, b.start) && Covers(b, b.start));
    }
  }

  /** `_overlaps_any` */
  predicate OverlapsAny(span: Span, occupied: seq<Span>) {
    exists i :: 0 <= i < |occupied| && !Disjoint(span, occupied[i])
  }

  function Shifted(span: Span, shift: nat): Span {
    Span(span.start + shift, span.end + shift)
  }

  function LastEnd(occupied: seq<Span>): (m: nat)
    ensures forall i :: 0 <= i < |occupied| ==> occupied[i].end <= m
  {
    if occupied == [] then 0
    else
      var rest := LastEnd(occupied[..|occupied| - 1]);
      var last := occupied[|occupied| - 1].end;
      if last > rest then last else rest
  }

  /** `_shift_for_collisions`: the least right shift that overlaps nothing. */
  method ShiftForCollisions(span: Span, occupied: seq<Span>) returns (shifted: Span, ghost shift: nat)
    ensures shifted == Shifted(span, shift) && !OverlapsAny(shifted, occupied)
    ensures forall k: nat :: k < shift ==> OverlapsAny(Shifted(span, k), occupied)
  {
    shifted, shift := span, 0;
    while OverlapsAny(shifted, occupied)
      invariant shifted == Shifted(span, shift)
      invariant forall k: nat :: k < shift ==> OverlapsAny(Shifted(span, k), occupied)
      decreases LastEnd(occupied) - shifted.start
    {
      shifted, shift := Span(shifted.start + 1, shifted.end + 1), shift + 1;
    }
  }

  /** `[s, e]` is the smallest span around the parents' lanes. */
  ghost predicate HullOf(parents: set<NodeId>, placements: Placements, hull: Span) {
    && parents <= placements.Keys
    && (exists d {:trigger placements[d]} :: d in parents && placements[d].laneStart == hull.start)
    && (exists d {:trigger placements[d]} :: d in parents && placements[d].laneEnd == hull.end)
    && (forall d {:trigger placements[d]} :: d in parents ==>
          hull.start <= placements[d].laneStart && placements[d].laneEnd <= hull.end)
  }

  function Widened(hull: Span, p: Placement): Span {
    Span(if p.laneStart < hull.start then p.laneStart else hull.start,
         if p.laneEnd > hull.end then p.laneEnd else hull.end)
  }

  lemma HullNext(parents: set<NodeId>, placements: Placements, hull: Span, d: NodeId)
    requires HullOf(parents, placements, hull) && d in placements
    ensures HullOf(parents + {d}, placements, Widened(hull, placements[d]))
  {
    var first :| first in parents && placements[first].laneStart == hull.start;
    var last :| last in parents && placements[last].laneEnd == hull.end;
    assert first in parents + {d} && last in parents + {d} && d in parents + {d};
  }

  /** `_base_lane_span`: a root starts a new lane, any other node spans its parents. */
  method BaseLaneSpan(dependencies: seq<NodeId>, placements: Placements, laneCount: nat) returns (r: Result<Span>)
    ensures r.Ok? <==> forall d :: d in dependencies ==> d in placements
    ensures r.Ok? && dependencies == [] ==> r.value == Span(laneCount, laneCount)
    ensures r.Ok? && dependencies != [] ==> HullOf(Members(dependencies), placements, r.value)
  {
    if dependencies == [] {
      return Ok(Span(laneCount, laneCount));
    }
    if d :| d in dependencies && d !in placements {
      return Error("Topology layout requires upstream node placements to exist: missing '" + d + "'.");
    }
    var hull := SpanOf(placements[dependencies[0]]);
    FirstHull(dependencies, placements);
    for i := 1 to |dependencies|
      invariant HullOf(Members(dependencies[..i]), placements, hull)
    {
      MembersNext(dependencies, i);
      HullNext(Members(dependencies[..i]), placements, hull, dependencies[i]);
      hull := Widened(hull, placements[dependencies[i]]);
    }
    assert dependencies[..|dependencies|] == dependencies;
    return Ok(hull);
  }

  lemma FirstHull(dependencies: seq<NodeId>, placements: Placements)
    requires dependencies != [] && dependencies[0] in placements
    ensures HullOf(Members(dependencies[..1]), placements, SpanOf(placements[dependencies[0]]))
  {
    assert Members(dependencies[..1]) == {dependencies[0]};
  }

  // ----- what a finished placement promises

  function SpanOf(p: Placement): Span {
    Span(p.laneStart, p.laneEnd)
  }

  /** The lane just past all lanes of the nodes placed before. */
  ghost predicate FirstNewLane(lane: nat, earlier: set<NodeId>, placements: Placements)
    requires earlier <= placements.Keys
  {
    && (forall m {:trigger placements[m]} :: m in earlier ==> placements[m].laneEnd < lane)
    && (lane > 0 ==> exists m {:trigger placements[m]} :: m in earlier && placements[m].laneEnd + 1 == lane)
  }

  /** The span avoids every node placed before in the same wave. */
  ghost predicate ClearOf(span: Span, wave: nat, earlier: set<NodeId>, placements: Placements)
    requires earlier <= placements.Keys
  {
    forall m {:trigger placements[m]} :: m in earlier && placements[m].waveIndex == wave ==>
      Apart(span, SpanOf(placements[m]))
  }

  /** No smaller shift of the span is clear of them. */
  ghost predicate LeastShift(hull: Span, shift: nat, wave: nat, earlier: set<NodeId>, placements: Placements)
    requires earlier <= placements.Keys
  {
    && ClearOf(Shifted(hull, shift), wave, earlier, placements)
    && forall k: nat {:trigger Shifted(hull, k)} :: k < shift ==> !ClearOf(Shifted(hull, k), wave, earlier, placements)
  }

  /** A node sits in its wave: a root on the first lane not used before it, any other node at
      the least right shift of its parents' span that is clear of those before it. */
  ghost predicate NodeOk(n: NodeId, wave: nat, earlier: set<NodeId>, needs: Needs, placements: Placements) {
    && n in needs && n in placements && earlier <= placements.Keys
    && placements[n].nodeId == n && placements[n].waveIndex == wave
    && (if needs[n] == {}
        then placements[n].laneEnd == placements[n].laneStart && FirstNewLane(placements[n].laneStart, earlier, placements)
        else exists hull, shift: nat {:trigger Shifted(hull, shift)} ::
               && HullOf(needs[n], placements, hull) && SpanOf(placements[n]) == Shifted(hull, shift)
               && LeastShift(hull, shift, wave, earlier, placements))
  }

  /** The `k`th node of wave `w` sits well among the earlier waves and the nodes before it. */
  ghost predicate PositionOk(needs: Needs, waves: seq<seq<NodeId>>, w: nat, k: nat, placements: Placements)
    requires w < |waves| && k < |waves[w]|
  {
    NodeOk(waves[w][k], w, LeftIn(Left(waves, w), waves[w], k), needs, placements)
  }

  ghost predicate WavePlaced(needs: Needs, waves: seq<seq<NodeId>>, w: nat, k: nat, placements: Placements)
    requires w < |waves| && k <= |waves[w]|
  {
    forall j {:trigger PositionOk(needs, waves, w, j, placements)} :: 0 <= j < k ==> PositionOk(needs, waves, w, j, placements)
  }

  ghost predicate WavesPlaced(needs: Needs, waves: seq<seq<NodeId>>, w: nat, placements: Placements)
    requires w <= |waves|
  {
    forall v {:trigger WavePlaced(needs, waves, v, |waves[v]|, placements)} ::
      0 <= v < w ==> WavePlaced(needs, waves, v, |waves[v]|, placements)
  }

  ghost predicate ApartInWave(placements: Placements, a: NodeId, b: NodeId)
    requires a in placements && b in placements
  {
    a != b && placements[a].waveIndex == placements[b].waveIndex ==>
      Apart(SpanOf(placements[a]), SpanOf(placements[b]))
  }

  /** No two nodes of one wave share a lane. */
  ghost predicate LanesApart(placements: Placements) {
    forall a, b {:trigger ApartInWave(placements, a, b)} ::
      a in placements && b in placements ==> ApartInWave(placements, a, b)
  }

  /** `laneCount` is one more than the last lane in use. */
  ghost predicate LaneCountFits(placements: Placements, laneCount: nat) {
    && (forall n {:trigger placements[n]} :: n in placements ==> placements[n].laneEnd < laneCount)
    && (laneCount > 0 ==> exists n {:trigger placements[n]} :: n in placements && placements[n].laneEnd + 1 == laneCount)
  }

  /** Everything placed so far sits in its wave and apart from the others. */
  ghost predicate PlacedOk(waves: seq<seq<NodeId>>, placements: Placements, laneCount: nat) {
    && (forall n {:trigger n in placements} :: n in placements ==>
          placements[n].waveIndex < |waves| && n in waves[placements[n].waveIndex]
          && placements[n].laneStart <= placements[n].laneEnd)
    && LanesApart(placements)
    && LaneCountFits(placements, laneCount)
  }

  // ----- adding one node

  lemma HullStays(parents: set<NodeId>, placements: Placements, hull: Span, n: NodeId, p: Placement)
    requires HullOf(parents, placements, hull) && n !in placements
    ensures HullOf(parents, placements[n := p], hull)
  {
    var more := placements[n := p];
    assert forall d :: d in parents ==> more[d] == placements[d];
    var first :| first in parents && placements[first].laneStart == hull.start;
    var last :| last in parents && placements[last].laneEnd == hull.end;
    assert more[first].laneStart == hull.start && more[last].laneEnd == hull.end;
  }

  lemma LaneStays(lane: nat, earlier: set<NodeId>, placements: Placements, n: NodeId, p: Placement)
    requires earlier <= placements.Keys && n !in placements
    ensures FirstNewLane(lane, earlier, placements) ==> FirstNewLane(lane, earlier, placements[n := p])
  {
    var more := placements[n := p];
    assert forall m :: m in earlier ==> more[m] == placements[m];
    if FirstNewLane(lane, earlier, placements) && lane > 0 {
      var m :| m in earlier && placements[m].laneEnd + 1 == lane;
      assert more[m].laneEnd + 1 == lane;
    }
  }

  lemma ClearStays(span: Span, wave: nat, earlier: set<NodeId>, placements: Placements, n: NodeId, p: Placement)
    requires earlier <= placements.Keys && n !in placements
    ensures ClearOf(span, wave, earlier, placements) <==> ClearOf(span, wave, earlier, placements[n := p])
  {
    assert forall m :: m in earlier ==> placements[n := p][m] == placements[m];
  }

  lemma ShiftStays(hull: Span, shift: nat, wave: nat, earlier: set<NodeId>, placements: Placements, n: NodeId, p: Placement)
    requires earlier <= placements.Keys && n !in placements && LeastShift(hull, shift, wave, earlier, placements)
    ensures LeastShift(hull, shift, wave, earlier, placements[n := p])
  {
    ClearStays(Shifted(hull, shift), wave, earlier, placements, n, p);
    forall k: nat | k < shift ensures !ClearOf(Shifted(hull, k), wave, earlier, placements[n := p]) {
      ClearStays(Shifted(hull, k), wave, earlier, placements, n, p);
    }
  }

  lemma NodeStays(m: NodeId, wave: nat, earlier: set<NodeId>, needs: Needs, placements: Placements, n: NodeId, p: Placement)
    requires NodeOk(m, wave, earlier, needs, placements) && n !in placements
    ensures NodeOk(m, wave, earlier, needs, placements[n := p])
  {
    if needs[m] == {} {
      LaneStays(placements[m].laneStart, earlier, placements, n, p);
    } else {
      var hull, shift: nat :| && HullOf(needs[m], placements, hull) && SpanOf(placements[m]) == Shifted(hull, shift)
                              && LeastShift(hull, shift, wave, earlier, placements);
      HullStays(needs[m], placements, hull, n, p);
      ShiftStays(hull, shift, wave, earlier, placements, n, p);
      assert SpanOf(placements[n := p][m]) == Shifted(hull, shift);
    }
  }

  lemma WaveStays(needs: Needs, waves: seq<seq<NodeId>>, w: nat, k: nat, placements: Placements, n: NodeId, p: Placement)
    requires w < |waves| && k <= |waves[w]| && WavePlaced(needs, waves, w, k, placements) && n !in placements
    ensures WavePlaced(needs, waves, w, k, placements[n := p])
  {
    var more := placements[n := p];
    forall j | 0 <= j < k ensures PositionOk(needs, waves, w, j, more) {
      assert PositionOk(needs, waves, w, j, placements);
      NodeStays(waves[w][j], w, LeftIn(Left(waves, w), waves[w], j), needs, placements, n, p);
    }
  }

  lemma WavesStay(needs: Needs, waves: seq<seq<NodeId>>, w: nat, placements: Placements, n: NodeId, p: Placement)
    requires w <= |waves| && WavesPlaced(needs, waves, w, placements) && n !in placements
    ensures WavesPlaced(needs, waves, w, placements[n := p])
  {
    var more := placements[n := p];
    forall v | 0 <= v < w ensures WavePlaced(needs, waves, v, |waves[v]|, more) {
      WaveStays(needs, waves, v, |waves[v]|, placements, n, p);
    }
  }

  lemma ApartStays(placements: Placements, n: NodeId, p: Placement)
    requires LanesApart(placements) && n !in placements && ClearOf(SpanOf(p), p.waveIndex, placements.Keys, placements)
    ensures LanesApart(placements[n := p])
  {
    var more := placements[n := p];
    forall a, b | a in more && b in more
      ensures ApartInWave(more, a, b)
    {
      if a != n && b != n {
        assert ApartInWave(placements, a, b);
      }
    }
  }

  lemma CountStays(placements: Placements, laneCount: nat, n: NodeId, p: Placement)
    requires LaneCountFits(placements, laneCount) && n !in placements
    ensures LaneCountFits(placements[n := p], Max(laneCount, p.laneEnd + 1))
  {
    var more := placements[n := p];
    if laneCount > p.laneEnd + 1 {
      var m :| m in placements && placements[m].laneEnd + 1 == laneCount;
      assert more[m].laneEnd + 1 == laneCount;
    } else {
      assert more[n].laneEnd + 1 == p.laneEnd + 1;
    }
  }

  lemma AddNode(waves: seq<seq<NodeId>>, placements: Placements, laneCount: nat, n: NodeId, p: Placement)
    requires PlacedOk(waves, placements, laneCount) && n !in placements
    requires p.waveIndex < |waves| && n in waves[p.waveIndex] && p.laneStart <= p.laneEnd
    requires ClearOf(SpanOf(p), p.waveIndex, placements.Keys, placements)
    ensures PlacedOk(waves, placements[n := p], Max(laneCount, p.laneEnd + 1))
  {
    ApartStays(placements, n, p);
    CountStays(placements, laneCount, n, p);
  }

  // ----- the placement loops

  /** `occupied` lists the spans of the nodes placed in this wave so far. */
  ghost predicate Occupied(occupied: seq<Span>, wave: nat, placements: Placements) {
    && (forall m {:trigger placements[m]} :: m in placements && placements[m].waveIndex == wave ==>
          SpanOf(placements[m]) in occupied)
    && (forall i :: 0 <= i < |occupied| ==> occupied[i].start <= occupied[i].end && Occupant(occupied[i], wave, placements))
  }

  ghost predicate Occupant(span: Span, wave: nat, placements: Placements) {
    exists m {:trigger placements[m]} :: m in placements && placements[m].waveIndex == wave && SpanOf(placements[m]) == span
  }

  /** The overlap test asks whether the span is clear of the wave. */
  lemma OverlapIff(span: Span, occupied: seq<Span>, wave: nat, placements: Placements)
    requires Occupied(occupied, wave, placements) && span.start <= span.end
    ensures !OverlapsAny(span, occupied) <==> ClearOf(span, wave, placements.Keys, placements)
  {
    if !OverlapsAny(span, occupied) {
      forall m | m in placements && placements[m].waveIndex == wave
        ensures Apart(span, SpanOf(placements[m]))
      {
        var i :| 0 <= i < |occupied| && occupied[i] == SpanOf(placements[m]);
        DisjointIff(span, occupied[i]);
      }
    } else {
      var i :| 0 <= i < |occupied| && !Disjoint(span, occupied[i]);
      DisjointIff(span, occupied[i]);
      assert Occupant(occupied[i], wave, placements);
    }
  }

  lemma LeastIsLeast(span: Span, shift: nat, occupied: seq<Span>, wave: nat, placements: Placements)
    requires Occupied(occupied, wave, placements) && !OverlapsAny(Shifted(span, shift), occupied) && span.start <= span.end
    requires forall k: nat :: k < shift ==> OverlapsAny(Shifted(span, k), occupied)
    ensures LeastShift(span, shift, wave, placements.Keys, placements)
  {
    OverlapIff(Shifted(span, shift), occupied, wave, placements);
    forall k: nat | k < shift ensures !ClearOf(Shifted(span, k), wave, placements.Keys, placements) {
      OverlapIff(Shifted(span, k), occupied, wave, placements);
    }
  }

  /** A new lane is clear as it is. */
  lemma NewLaneIsClear(laneCount: nat, shift: nat, wave: nat, placements: Placements)
    requires LaneCountFits(placements, laneCount)
    requires LeastShift(Span(laneCount, laneCount), shift, wave, placements.Keys, placements)
    ensures shift == 0
  {
    var first := Shifted(Span(laneCount, laneCount), 0);
    forall m | m in placements ensures Apart(first, SpanOf(placements[m])) {
      assert placements[m].laneEnd < laneCount;
    }
    assert ClearOf(first, wave, placements.Keys, placements);
  }

  lemma NewNodeOk(n: NodeId, wave: nat, needs: Needs, placements: Placements, laneCount: nat, hull: Span, shift: nat, p: Placement)
    requires n in needs && n !in placements && LaneCountFits(placements, laneCount)
    requires if needs[n] == {} then hull == Span(laneCount, laneCount) else HullOf(needs[n], placements, hull)
    requires LeastShift(hull, shift, wave, placements.Keys, placements)
    requires p == Placement(n, wave, hull.start + shift, hull.end + shift)
    ensures NodeOk(n, wave, placements.Keys, needs, placements[n := p])
  {
    if needs[n] == {} {
      NewLaneIsClear(laneCount, shift, wave, placements);
      assert FirstNewLane(laneCount, placements.Keys, placements);
      LaneStays(laneCount, placements.Keys, placements, n, p);
    } else {
      HullStays(needs[n], placements, hull, n, p);
      ShiftStays(hull, shift, wave, placements.Keys, placements, n, p);
      assert SpanOf(placements[n := p][n]) == Shifted(hull, shift);
    }
  }

  /** The span of a node whose parents are all placed: the missing-placement error is out. */
  method ParentSpan(dependencies: seq<NodeId>, placements: Placements, laneCount: nat) returns (span: Span)
    requires Members(dependencies) <= placements.Keys
    ensures if Members(dependencies) == {} then span == Span(laneCount, laneCount)
            else HullOf(Members(dependencies), placements, span)
    ensures (forall d :: d in placements ==> placements[d].laneStart <= placements[d].laneEnd) ==> span.start <= span.end
  {
    assert forall d :: d in dependencies ==> d in Members(dependencies);
    assert dependencies != [] ==> dependencies[0] in Members(dependencies);
    var base := BaseLaneSpan(dependencies, placements, laneCount);
    span := base.value;
  }

  /** The loop body of `compute_topology_layout`: places one node of a wave. */
  method PlaceNode(n: NodeId, dependencies: seq<NodeId>, wave: nat, ghost needs: Needs, ghost waves: seq<seq<NodeId>>,
                   placements: Placements, laneCount: nat, occupied: seq<Span>) returns (p: Placement)
    requires PlacedOk(waves, placements, laneCount) && Occupied(occupied, wave, placements)
    requires n in needs && needs[n] == Members(dependencies) && needs[n] <= placements.Keys
    requires n !in placements && wave < |waves| && n in waves[wave]
    ensures p.nodeId == n && p.waveIndex == wave && p.laneStart <= p.laneEnd
    ensures NodeOk(n, wave, placements.Keys, needs, placements[n := p])
    ensures PlacedOk(waves, placements[n := p], Max(laneCount, p.laneEnd + 1))
  {
    var base := ParentSpan(dependencies, placements, laneCount);
    var span, shift := ShiftForCollisions(base, occupied);
    p := Placement(n, wave, span.start, span.end);
    LeastIsLeast(base, shift, occupied, wave, placements);
    NewNodeOk(n, wave, needs, placements, laneCount, base, shift, p);
    AddNode(waves, placements, laneCount, n, p);
  }

  /** The dependency list each node was declared with. */
  function DeclaredNeeds(nodes: seq<TopologyNode>): (declared: map<NodeId, seq<NodeId>>)
    requires NoRepeats(Ids(nodes))
    ensures declared.Keys == NeedsOf(nodes).Keys
    ensures forall n :: n in declared ==> Members(declared[n]) == NeedsOf(nodes)[n]
  {
    AllDiffer(Ids(nodes));
    map i | 0 <= i < |nodes| :: nodes[i].id := nodes[i].dependencies
  }

  /** Wave `w` is placed up to its `k`th node, the earlier waves entirely. */
  ghost predicate PlacedUpTo(needs: Needs, waves: seq<seq<NodeId>>, w: nat, k: nat, placements: Placements, laneCount: nat)
    requires w < |waves| && k <= |waves[w]|
  {
    && placements.Keys == LeftIn(Left(waves, w), waves[w], k)
    && PlacedOk(waves, placements, laneCount)
    && InWavesUpTo(placements, w)
    && WavesPlaced(needs, waves, w, placements) && WavePlaced(needs, waves, w, k, placements)
  }

  ghost predicate InWavesUpTo(placements: Placements, w: nat) {
    forall m {:trigger placements[m]} :: m in placements ==> placements[m].waveIndex <= w
  }

  lemma NextToPlace(ids: seq<NodeId>, needs: Needs, waves: seq<seq<NodeId>>, w: nat, k: nat)
    requires NoRepeats(ids) && KnownNeeds(ids, needs) && WavesOk(ids, needs, waves) && w < |waves| && k < |waves[w]|
    ensures
      var n := waves[w][k];
      && n in needs && n !in LeftIn(Left(waves, w), waves[w], k)
      && needs[n] <= LeftIn(Left(waves, w), waves[w], k)
      && LeftIn(Left(waves, w), waves[w], k + 1) == LeftIn(Left(waves, w), waves[w], k) + {n}
  {
    assert WaveOk(ids, needs, waves, w);
    ReadyWave(ids, needs, Left(waves, w), waves[w]);
    LeaveNext(needs, Left(waves, w), waves[w], k);
    WaveNeeds(ids, needs, waves, w, waves[w][k]);
  }

  lemma OccupyNext(occupied: seq<Span>, wave: nat, placements: Placements, n: NodeId, p: Placement)
    requires Occupied(occupied, wave, placements) && n !in placements && p.waveIndex == wave && p.laneStart <= p.laneEnd
    ensures Occupied(occupied + [SpanOf(p)], wave, placements[n := p])
  {
    var more, longer := placements[n := p], occupied + [SpanOf(p)];
    forall m | m in more && more[m].waveIndex == wave
      ensures SpanOf(more[m]) in longer
    {
      if m != n {
        assert more[m] == placements[m];
      }
    }
    forall i | 0 <= i < |longer|
      ensures Occupant(longer[i], wave, more)
    {
      if i < |occupied| {
        assert Occupant(occupied[i], wave, placements);
        var m :| m in placements && placements[m].waveIndex == wave && SpanOf(placements[m]) == occupied[i];
        assert more[m] == placements[m];
      } else {
        assert more[n] == p;
      }
    }
  }

  /** One more node of the wave is placed. */
  lemma PlacedNext(needs: Needs, waves: seq<seq<NodeId>>, w: nat, k: nat, placements: Placements, laneCount: nat, p: Placement)
    requires w < |waves| && k < |waves[w]| && PlacedUpTo(needs, waves, w, k, placements, laneCount)
    requires var n := waves[w][k];
             && n !in placements && p.waveIndex == w
             && LeftIn(Left(waves, w), waves[w], k + 1) == LeftIn(Left(waves, w), waves[w], k) + {n}
             && NodeOk(n, w, placements.Keys, needs, placements[n := p])
             && PlacedOk(waves, placements[n := p], Max(laneCount, p.laneEnd + 1))
    ensures PlacedUpTo(needs, waves, w, k + 1, placements[waves[w][k] := p], Max(laneCount, p.laneEnd + 1))
  {
    var n := waves[w][k];
    var more := placements[n := p];
    WavesStay(needs, waves, w, placements, n, p);
    WaveStays(needs, waves, w, k, placements, n, p);
    assert PositionOk(needs, waves, w, k, more);
    forall m | m in more ensures more[m].waveIndex <= w {
      if m != n {
        assert more[m] == placements[m];
      }
    }
  }

  /** Places all nodes of wave `w`, the earlier waves being done; the wave is
      already in workflow order, so sorting it again changes nothing. */
  method PlaceWave(w: nat, ids: seq<NodeId>, declared: map<NodeId, seq<NodeId>>, ghost needs: Needs,
                   waves: seq<seq<NodeId>>, placements: Placements, laneCount: nat)
    returns (placed: Placements, count: nat)
    requires NoRepeats(ids) && KnownNeeds(ids, needs) && WavesOk(ids, needs, waves) && w < |waves|
    requires declared.Keys == needs.Keys && forall n :: n in declared ==> Members(declared[n]) == needs[n]
    requires PlacedUpTo(needs, waves, w, 0, placements, laneCount) && Occupied([], w, placements)
    ensures PlacedUpTo(needs, waves, w, |waves[w]|, placed, count)
  {
    placed, count := placements, laneCount;
    var occupied: seq<Span> := [];
    for k := 0 to |waves[w]|
      invariant PlacedUpTo(needs, waves, w, k, placed, count)
      invariant Occupied(occupied, w, placed)
    {
      var n := waves[w][k];
      NextToPlace(ids, needs, waves, w, k);
      var p := PlaceNode(n, declared[n], w, needs, waves, placed, count, occupied);
      OccupyNext(occupied, w, placed, n, p);
      PlacedNext(needs, waves, w, k, placed, count, p);
      placed, count := placed[n := p], Max(count, p.laneEnd + 1);
      occupied := occupied + [SpanOf(p)];
    }
  }

  lemma StartWave(needs: Needs, waves: seq<seq<NodeId>>, w: nat, placements: Placements, laneCount: nat)
    requires w < |waves| && placements.Keys == Left(waves, w) && PlacedOk(waves, placements, laneCount)
    requires WavesPlaced(needs, waves, w, placements)
    requires w == 0 || InWavesUpTo(placements, w - 1)
    ensures PlacedUpTo(needs, waves, w, 0, placements, laneCount) && Occupied([], w, placements)
  {
    AllLeave(Left(waves, w), waves[w]);
  }

  lemma FinishWave(needs: Needs, waves: seq<seq<NodeId>>, w: nat, placements: Placements, laneCount: nat)
    requires w < |waves| && PlacedUpTo(needs, waves, w, |waves[w]|, placements, laneCount)
    ensures placements.Keys == Left(waves, w + 1) && InWavesUpTo(placements, w)
    ensures WavesPlaced(needs, waves, w + 1, placements)
  {
    AllLeave(Left(waves, w), waves[w]);
  }

  /** The wave loop of `compute_topology_layout`. */
  method PlaceAll(ids: seq<NodeId>, declared: map<NodeId, seq<NodeId>>, ghost needs: Needs, waves: seq<seq<NodeId>>)
    returns (placed: Placements, count: nat)
    requires NoRepeats(ids) && KnownNeeds(ids, needs) && WavesOk(ids, needs, waves)
    requires declared.Keys == needs.Keys && forall n :: n in declared ==> Members(declared[n]) == needs[n]
    ensures placed.Keys == Left(waves, |waves|) && PlacedOk(waves, placed, count)
    ensures WavesPlaced(needs, waves, |waves|, placed)
  {
    placed, count := map[], 0;
    for w := 0 to |waves|
      invariant placed.Keys == Left(waves, w) && PlacedOk(waves, placed, count)
      invariant WavesPlaced(needs, waves, w, placed)
      invariant w == 0 || InWavesUpTo(placed, w - 1)
    {
      StartWave(needs, waves, w, placed, count);
      placed, count := PlaceWave(w, ids, declared, needs, waves, placed, count);
      FinishWave(needs, waves, w, placed, count);
    }
  }

  // ----- the whole pass

  lemma LayoutMaps(ids: seq<NodeId>, needs: Needs, neededBy: Needs)
    requires NoRepeats(ids) && KnownNeeds(ids, needs) && TurnedRound(needs, neededBy)
    ensures DependencyMap(AsGraph(ids, needs), IndexOf(ids))
    ensures Inverse(AsGraph(ids, needs), AsGraph(ids, neededBy))
  {
    var g, h := AsGraph(ids, needs), AsGraph(ids, neededBy);
    forall n, d
      ensures Edge(g, n, d) <==> Edge(h, d, n)
      ensures Edge(g, n, d) ==> d in IndexOf(ids)
    {
      GraphEdges(ids, needs, n, d);
      assert Requires(needs, n, d) <==> Requires(neededBy, d, n);
    }
    forall n | n in g
      ensures NoRepeats(g[n])
    {
      SortedWithoutRepeats(ids, needs[n]);
    }
  }

  /** Every dependency names a declared node. */
  ghost predicate KnownDependencies(nodes: seq<TopologyNode>) {
    forall i, d :: 0 <= i < |nodes| && d in nodes[i].dependencies ==> d in Ids(nodes)
  }

  /** `layout` is well formed, has the declared dependencies, and its waves and
      placements are as promised. */
  ghost predicate LayoutOf(nodes: seq<TopologyNode>, layout: Layout)
    requires NoRepeats(Ids(nodes))
  {
    && layout.WellFormed()
    && layout.dependencies == AsGraph(Ids(nodes), NeedsOf(nodes))
    && WavesOk(Ids(nodes), NeedsOf(nodes), layout.waves)
    && Left(layout.waves, |layout.waves|) == layout.dependencies.Keys
    && PlacedOk(layout.waves, layout.placements, layout.laneCount)
    && WavesPlaced(NeedsOf(nodes), layout.waves, |layout.waves|, layout.placements)
  }

  lemma Assembled(ids: seq<NodeId>, needs: Needs, neededBy: Needs, layout: Layout)
    requires NoRepeats(ids) && KnownNeeds(ids, needs) && TurnedRound(needs, neededBy)
    requires Acyclic(AsGraph(ids, needs)) && layout.placements.Keys == needs.Keys
    requires layout.nodeOrder == IndexOf(ids)
    requires layout.dependencies == AsGraph(ids, needs) && layout.dependents == AsGraph(ids, neededBy)
    ensures layout.WellFormed()
  {
    LayoutMaps(ids, needs, neededBy);
    IndexInjective(ids);
    SameKeys(ids, needs);
  }

  lemma SameKeys(ids: seq<NodeId>, needs: Needs)
    requires NoRepeats(ids) && KnownNeeds(ids, needs)
    ensures IndexOf(ids).Keys == needs.Keys
  {
    assert forall n :: n in IndexOf(ids) <==> n in needs;
  }

  /** `compute_topology_layout`: succeeds exactly on distinct nodes with known, acyclic
      dependencies, and then hands the renderer a well-formed layout. */
  method ComputeTopologyLayout(nodes: seq<TopologyNode>) returns (r: Result<Layout>)
    ensures r.Ok? <==> NoRepeats(Ids(nodes)) && KnownDependencies(nodes) && Acyclic(AsGraph(Ids(nodes), NeedsOf(nodes)))
    ensures r.Ok? ==> LayoutOf(nodes, r.value)
  {
    var maps := BuildGraphDependencyMaps(nodes);
    if maps.Error? {
      return Error(maps.message);
    }
    var ids := Ids(nodes);
    var (needs, neededBy) := maps.value;
    var waves := OrderedGraphWaves(ids, needs, neededBy);
    if waves.Error? {
      return Error(waves.message);
    }
    TurnedIsKnown(ids, needs, neededBy);
    FlatIs(waves.value, |waves.value|);
    var placements, laneCount := PlaceAll(ids, DeclaredNeeds(nodes), needs, waves.value);
    var layout := Layout(waves.value, placements, laneCount, IndexOf(ids), AsGraph(ids, needs), AsGraph(ids, neededBy));
    Assembled(ids, needs, neededBy, layout);
    return Ok(layout);
  }
}
