/**
  Lane allocation for the DAG view (`build_graph_states`): walking a topological
  order, each edge that is still open owns a column until its target is drawn.
 */
module Lanes {
  import opened Collections
  import opened Graphs
  import opened Topology
  import opened Pruning
  import opened RenderMaps

  /** One entry of `active_columns`: `None`, or the id of the node it leads to. */
  datatype Column = Empty | Lane(target: NodeId)

  datatype GraphState = GraphState(
    nodeId: NodeId,
    nodeColumn: nat,
    before: seq<Column>,
    after: seq<Column>,
    dependentColumns: seq<nat>,
    dependents: seq<NodeId>)

  // ----- what the columns mean

  /** `n` is still to be drawn and one of its dependencies has been. */
  ghost predicate Waiting(dependencies: Graph, done: set<NodeId>, n: NodeId) {
    n !in done && exists d {:trigger Edge(dependencies, n, d)} :: Edge(dependencies, n, d) && d in done
  }

  /** Lanes lead to waiting nodes only, every waiting node has a lane, and the
      last column is in use. */
  ghost predicate LanesMatch(columns: seq<Column>, dependencies: Graph, done: set<NodeId>) {
    && (forall i :: 0 <= i < |columns| && columns[i].Lane? ==> Waiting(dependencies, done, columns[i].target))
    && (forall n {:trigger Waiting(dependencies, done, n)} :: Waiting(dependencies, done, n) ==> Lane(n) in columns)
    && (columns != [] ==> columns[|columns| - 1].Lane?)
  }

  /** Every lane that does not lead to `nodeId` keeps its column. */
  ghost predicate LanesStay(before: seq<Column>, after: seq<Column>, nodeId: NodeId) {
    forall i :: 0 <= i < |before| && before[i].Lane? && before[i].target != nodeId ==>
                i < |after| && after[i] == before[i]
  }

  /** A lane after the step was there before, or is a recorded one and leads to a dependent. */
  ghost predicate LanesComeFrom(
    before: seq<Column>, after: seq<Column>, nodeId: NodeId, recorded: seq<nat>, dependents: seq<NodeId>)
  {
    forall i :: 0 <= i < |after| && after[i].Lane? ==>
                || (i < |before| && before[i] == after[i] && after[i].target != nodeId)
                || (i in recorded && after[i].target in dependents)
  }

  /** Column `k` of the record really holds the `k`th dependent. */
  ghost predicate ColumnsHold(columns: seq<Column>, recorded: seq<nat>, ids: seq<NodeId>) {
    && |recorded| >= |ids|
    && forall k :: 0 <= k < |ids| ==> recorded[k] < |columns| && columns[recorded[k]] == Lane(ids[k])
  }

  /** The column is free once the lanes that end at the node are given up. */
  ghost predicate FreeAt(before: seq<Column>, nodeId: NodeId, j: nat) {
    j >= |before| || before[j].Empty? || before[j] == Lane(nodeId)
  }

  /** A dependent that has a lane keeps to it, where lanes are reused. */
  ghost predicate Reused(before: seq<Column>, reuse: bool, id: NodeId) {
    reuse && Lane(id) in before
  }

  /** Where the search for the `k`th dependent's column begins: at the node's own column, or just
      past the last one that was newly taken. */
  ghost function SearchFrom(
    before: seq<Column>, start: nat, ids: seq<NodeId>, reuse: bool, recorded: seq<nat>, k: nat): nat
    requires k <= |ids| && k <= |recorded|
  {
    if k == 0 then start
    else if Reused(before, reuse, ids[k - 1]) then SearchFrom(before, start, ids, reuse, recorded, k - 1)
    else recorded[k - 1] + 1
  }

  /** The `k`th dependent keeps its lane or takes the first free column of its search. */
  ghost predicate WellPlaced(
    before: seq<Column>, nodeId: NodeId, start: nat, ids: seq<NodeId>, reuse: bool, recorded: seq<nat>, k: nat)
    requires k < |ids| && k < |recorded|
  {
    if Reused(before, reuse, ids[k]) then FirstLaneOf(before, ids[k], recorded[k])
    else
      var from := SearchFrom(before, start, ids, reuse, recorded, k);
      && from <= recorded[k] && FreeAt(before, nodeId, recorded[k])
      && forall j :: from <= j < recorded[k] ==> !FreeAt(before, nodeId, j)
  }

  ghost predicate AllWellPlaced(
    before: seq<Column>, nodeId: NodeId, start: nat, ids: seq<NodeId>, reuse: bool, recorded: seq<nat>, n: nat)
  {
    && n <= |ids| && n <= |recorded|
    && forall k {:trigger WellPlaced(before, nodeId, start, ids, reuse, recorded, k)} ::
         0 <= k < n ==> WellPlaced(before, nodeId, start, ids, reuse, recorded, k)
  }

  /** One column for each dependent, and the node's own besides if it is a new one that no
      dependent took, all of them having kept their lanes. */
  ghost predicate RecordsAll(before: seq<Column>, nodeColumn: nat, ids: seq<NodeId>, reuse: bool, recorded: seq<nat>) {
    if ids != [] && nodeColumn == |before| && (forall id :: id in ids ==> Reused(before, reuse, id))
    then |recorded| == |ids| + 1 && recorded[|ids|] == nodeColumn
    else |recorded| == |ids|
  }

  ghost predicate FirstLaneOf(columns: seq<Column>, nodeId: NodeId, index: nat) {
    index < |columns| && columns[index] == Lane(nodeId) && forall j :: 0 <= j < index ==> columns[j] != Lane(nodeId)
  }

  // ----- column operations

  predicate IsFreshRoot(nodeId: NodeId, active: seq<Column>, dependencies: Graph) {
    Succ(dependencies, nodeId) == [] && Lane(nodeId) !in active
  }

  method NodeColumnFor(active: seq<Column>, nodeId: NodeId, freshRoot: bool) returns (index: nat)
    requires freshRoot ==> Lane(nodeId) !in active
    ensures if Lane(nodeId) in active then FirstLaneOf(active, nodeId, index) else index == |active|
  {
    if freshRoot {
      return |active|;
    }
    for i := 0 to |active|
      invariant Lane(nodeId) !in active[..i]
    {
      if active[i] == Lane(nodeId) {
        assert forall j :: 0 <= j < i ==> active[j] in active[..i];
        return i;
      }
    }
    assert active[..|active|] == active;
    return |active|;
  }

  method ExistingColumnFor(columns: seq<Column>, targetId: NodeId) returns (found: bool, index: nat)
    ensures found <==> Lane(targetId) in columns
    ensures found ==> FirstLaneOf(columns, targetId, index)
  {
    for i := 0 to |columns|
      invariant Lane(targetId) !in columns[..i]
    {
      if columns[i] == Lane(targetId) {
        assert forall j :: 0 <= j < i ==> columns[j] in columns[..i];
        return true, i;
      }
    }
    assert columns[..|columns|] == columns;
    return false, 0;
  }

  /** The columns with `targetId` put at `index`, which is free or just past the end. */
  function Placed(columns: seq<Column>, index: nat, targetId: NodeId): (r: seq<Column>)
    requires index <= |columns|
  {
    if index < |columns| then columns[index := Lane(targetId)] else columns + [Lane(targetId)]
  }

  method PlaceActiveColumn(columns: seq<Column>, columnIndex: nat, targetId: NodeId)
    returns (placed: seq<Column>, index: nat)
    requires columnIndex <= |columns|
    ensures columnIndex <= index <= |columns| && placed == Placed(columns, index, targetId)
    ensures index < |columns| ==> columns[index].Empty?
    ensures forall j :: columnIndex <= j < index ==> columns[j].Lane?
  {
    index := columnIndex;
    while index < |columns| && columns[index].Lane?
      invariant columnIndex <= index <= |columns|
      invariant forall j :: columnIndex <= j < index ==> columns[j].Lane?
    {
      index := index + 1;
    }
    if index < |columns| {
      placed := columns[index := Lane(targetId)];
    } else {
      placed := columns + [Lane(targetId)];
    }
  }

  method TrimTrailingEmptyColumns(columns: seq<Column>) returns (trimmed: seq<Column>)
    ensures Trimmed(columns, trimmed)
  {
    trimmed := columns;
    while trimmed != [] && trimmed[|trimmed| - 1].Empty?
      invariant trimmed <= columns
      invariant forall i :: |trimmed| <= i < |columns| ==> columns[i].Empty?
    {
      trimmed := trimmed[..|trimmed| - 1];
    }
  }

  // ----- the dependent that continues in the node's own column

  /** Compares `(wave_index, lane_start, node_order)` as Python compares tuples. */
  predicate DrawnBefore(a: NodeId, b: NodeId, layout: Layout)
    requires a in layout.placements && b in layout.placements
    requires a in layout.nodeOrder && b in layout.nodeOrder
  {
    var pa, pb := layout.placements[a], layout.placements[b];
    || pa.waveIndex < pb.waveIndex
    || (pa.waveIndex == pb.waveIndex && pa.laneStart < pb.laneStart)
    || (pa.waveIndex == pb.waveIndex && pa.laneStart == pb.laneStart && layout.nodeOrder[a] < layout.nodeOrder[b])
  }

  function PrimaryDependentFor(dependents: seq<NodeId>, layout: Layout): (primary: NodeId)
    requires dependents != [] && layout.placements.Keys == layout.nodeOrder.Keys
    requires forall d :: d in dependents ==> d in layout.placements
    ensures primary in dependents
    ensures forall d :: d in dependents ==> !DrawnBefore(d, primary, layout)
    ensures forall d :: d in dependents ==>
              var p, q := layout.placements[primary], layout.placements[d];
              && p.waveIndex <= q.waveIndex && (p.waveIndex == q.waveIndex ==> p.laneStart <= q.laneStart)
              && (p.waveIndex == q.waveIndex && p.laneStart == q.laneStart ==> layout.nodeOrder[primary] <= layout.nodeOrder[d])
  {
    if |dependents| == 1 then dependents[0]
    else
      var best := PrimaryDependentFor(dependents[..|dependents| - 1], layout);
      var last := dependents[|dependents| - 1];
      assert dependents == dependents[..|dependents| - 1] + [last];
      if DrawnBefore(last, best, layout) then last else best
  }

  /** The primary dependent first, the others in order. */
  function OrderedDependents(dependents: seq<NodeId>, layout: Layout): (ordered: seq<NodeId>)
    requires layout.placements.Keys == layout.nodeOrder.Keys
    requires forall d :: d in dependents ==> d in layout.placements
    ensures forall d :: d in ordered <==> d in dependents
    ensures ordered != [] ==> forall d :: d in dependents ==> !DrawnBefore(d, ordered[0], layout)
  {
    if dependents == [] then []
    else
      var primary := PrimaryDependentFor(dependents, layout);
      [primary] + Others(dependents, primary)
  }

  lemma {:induction false} OthersAscending(ids: seq<NodeId>, x: NodeId, order: map<NodeId, int>)
    requires Ascending(ids, order)
    ensures Ascending(Others(ids, x), order)
  {
    if ids != [] {
      AscendingTail(ids, order);
      OthersAscending(ids[1..], x, order);
      if ids[0] != x {
        PrependAscending(ids[0], Others(ids[1..], x), order);
      }
    }
  }

  /** After the primary dependent the others follow in workflow order. */
  lemma OthersInOrder(dependents: seq<NodeId>, layout: Layout)
    requires layout.placements.Keys == layout.nodeOrder.Keys && Ascending(dependents, layout.nodeOrder)
    ensures var ordered := OrderedDependents(dependents, layout);
            NoRepeats(ordered) && (ordered != [] ==> Ascending(ordered[1..], layout.nodeOrder))
  {
    if dependents != [] {
      var primary := PrimaryDependentFor(dependents, layout);
      var others := Others(dependents, primary);
      OthersAscending(dependents, primary, layout.nodeOrder);
      AscendingNoRepeats(others, layout.nodeOrder);
      ConcatNoRepeats([primary], others);
      assert ([primary] + others)[1..] == others;
    }
  }

  // ----- one step of the walk

  /** The columns once the lanes that end at `nodeId` are given up. */
  function Released(active: seq<Column>, nodeId: NodeId): (r: seq<Column>)
    ensures |r| == |active|
    ensures forall i :: 0 <= i < |r| ==> r[i] == if active[i] == Lane(nodeId) then Empty else active[i]
  {
    seq(|active|, i requires 0 <= i < |active| => if active[i] == Lane(nodeId) then Empty else active[i])
  }

  /** Loop invariant of the placement loop: `columns` holds all of `base` and a
      recorded column for each id in `ids`, and nothing else. */
  ghost predicate Placing(base: seq<Column>, columns: seq<Column>, recorded: seq<nat>, ids: seq<NodeId>) {
    && |base| <= |columns|
    && (forall i :: 0 <= i < |base| && base[i].Lane? ==> columns[i] == base[i])
    && (forall i :: 0 <= i < |columns| && columns[i].Lane? ==>
                    (i < |base| && base[i] == columns[i]) || (i in recorded && columns[i].target in ids))
    && |recorded| == |ids| && ColumnsHold(columns, recorded, ids)
  }

  lemma PlaceOne(base: seq<Column>, columns: seq<Column>, recorded: seq<nat>, ids: seq<NodeId>, index: nat, id: NodeId)
    requires Placing(base, columns, recorded, ids)
    requires index <= |columns| && (index < |columns| ==> columns[index].Empty?)
    ensures Placing(base, Placed(columns, index, id), recorded + [index], ids + [id])
  {
  }

  lemma ReuseOne(base: seq<Column>, columns: seq<Column>, recorded: seq<nat>, ids: seq<NodeId>, index: nat, id: NodeId)
    requires Placing(base, columns, recorded, ids)
    requires index < |columns| && columns[index] == Lane(id)
    ensures Placing(base, columns, recorded + [index], ids + [id])
  {
  }

  ghost predicate Trimmed(columns: seq<Column>, trimmed: seq<Column>) {
    && trimmed <= columns && (trimmed != [] ==> trimmed[|trimmed| - 1].Lane?)
    && forall i :: |trimmed| <= i < |columns| ==> columns[i].Empty?
  }

  /** `base` is what `active` becomes when the node's own lanes are given up. */
  ghost predicate GivenUp(active: seq<Column>, base: seq<Column>, nodeId: NodeId) {
    |base| == |active| &&
    forall i :: 0 <= i < |active| ==> base[i] == if active[i] == Lane(nodeId) then Empty else active[i]
  }

  lemma FinishStep(active: seq<Column>, base: seq<Column>, columns: seq<Column>, next: seq<Column>,
                   recorded: seq<nat>, ids: seq<NodeId>, nodeId: NodeId)
    requires GivenUp(active, base, nodeId)
    requires Placing(base, columns, recorded, ids) && Trimmed(columns, next)
    ensures LanesStay(active, next, nodeId)
    ensures LanesComeFrom(active, next, nodeId, recorded, ids)
    ensures ColumnsHold(next, recorded, ids)
  {
    forall k | 0 <= k < |ids|
      ensures recorded[k] < |next| && next[recorded[k]] == Lane(ids[k])
    {
      assert columns[recorded[k]].Lane?;
    }
    forall i | 0 <= i < |active| && active[i].Lane? && active[i].target != nodeId
      ensures i < |next| && next[i] == active[i]
    {
      assert base[i].Lane?;
      assert columns[i] == base[i];
    }
  }

  // ----- which column each dependent takes

  lemma {:induction false} SearchStays(
    before: seq<Column>, start: nat, ids: seq<NodeId>, reuse: bool, recorded: seq<nat>, index: nat, k: nat)
    requires k <= |ids| && k <= |recorded|
    ensures SearchFrom(before, start, ids, reuse, recorded + [index], k) == SearchFrom(before, start, ids, reuse, recorded, k)
  {
    if k > 0 {
      SearchStays(before, start, ids, reuse, recorded, index, k - 1);
    }
  }

  lemma WellPlacedStay(
    before: seq<Column>, nodeId: NodeId, start: nat, ids: seq<NodeId>, reuse: bool, recorded: seq<nat>, index: nat, n: nat)
    requires AllWellPlaced(before, nodeId, start, ids, reuse, recorded, n)
    ensures AllWellPlaced(before, nodeId, start, ids, reuse, recorded + [index], n)
  {
    forall k | 0 <= k < n ensures WellPlaced(before, nodeId, start, ids, reuse, recorded + [index], k) {
      assert WellPlaced(before, nodeId, start, ids, reuse, recorded, k);
      SearchStays(before, start, ids, reuse, recorded, index, k);
    }
  }

  lemma OneMorePlaced(
    before: seq<Column>, nodeId: NodeId, start: nat, ids: seq<NodeId>, reuse: bool, recorded: seq<nat>, index: nat)
    requires AllWellPlaced(before, nodeId, start, ids, reuse, recorded, |recorded|) && |recorded| < |ids|
    requires WellPlaced(before, nodeId, start, ids, reuse, recorded + [index], |recorded|)
    ensures AllWellPlaced(before, nodeId, start, ids, reuse, recorded + [index], |recorded| + 1)
  {
    WellPlacedStay(before, nodeId, start, ids, reuse, recorded, index, |recorded|);
  }

  /** Nothing was placed yet from `insertAt` on. */
  ghost predicate Untouched(base: seq<Column>, columns: seq<Column>, insertAt: nat) {
    && insertAt <= |columns| && |base| <= |columns|
    && (insertAt < |columns| ==> |columns| == |base|)
    && forall j :: insertAt <= j < |columns| && j < |base| ==> columns[j] == base[j]
  }

  lemma FirstFree(before: seq<Column>, base: seq<Column>, nodeId: NodeId, columns: seq<Column>, insertAt: nat, index: nat)
    requires GivenUp(before, base, nodeId) && Untouched(base, columns, insertAt)
    requires insertAt <= index <= |columns| && (index < |columns| ==> columns[index].Empty?)
    requires forall j :: insertAt <= j < index ==> columns[j].Lane?
    ensures FreeAt(before, nodeId, index) && forall j :: insertAt <= j < index ==> !FreeAt(before, nodeId, j)
  {
    forall j | insertAt <= j < index ensures !FreeAt(before, nodeId, j) {
      assert columns[j].Lane?;
    }
  }

  lemma UntouchedNext(base: seq<Column>, columns: seq<Column>, insertAt: nat, index: nat, id: NodeId)
    requires Untouched(base, columns, insertAt) && insertAt <= index <= |columns|
    ensures Untouched(base, Placed(columns, index, id), index + 1)
  {
  }

  lemma PlaceInTurn(
    before: seq<Column>, base: seq<Column>, nodeId: NodeId, start: nat, ids: seq<NodeId>, reuse: bool,
    columns: seq<Column>, recorded: seq<nat>, insertAt: nat, index: nat)
    requires GivenUp(before, base, nodeId) && Untouched(base, columns, insertAt)
    requires |recorded| < |ids| && AllWellPlaced(before, nodeId, start, ids, reuse, recorded, |recorded|)
    requires insertAt == SearchFrom(before, start, ids, reuse, recorded, |recorded|)
    requires !Reused(before, reuse, ids[|recorded|])
    requires insertAt <= index <= |columns| && (index < |columns| ==> columns[index].Empty?)
    requires forall j :: insertAt <= j < index ==> columns[j].Lane?
    ensures AllWellPlaced(before, nodeId, start, ids, reuse, recorded + [index], |recorded| + 1)
    ensures Untouched(base, Placed(columns, index, ids[|recorded|]), index + 1)
    ensures SearchFrom(before, start, ids, reuse, recorded + [index], |recorded| + 1) == index + 1
  {
    SearchStays(before, start, ids, reuse, recorded, index, |recorded|);
    FirstFree(before, base, nodeId, columns, insertAt, index);
    UntouchedNext(base, columns, insertAt, index, ids[|recorded|]);
    OneMorePlaced(before, nodeId, start, ids, reuse, recorded, index);
  }

  lemma ReuseInTurn(
    before: seq<Column>, nodeId: NodeId, start: nat, ids: seq<NodeId>, reuse: bool, recorded: seq<nat>, index: nat)
    requires |recorded| < |ids| && AllWellPlaced(before, nodeId, start, ids, reuse, recorded, |recorded|)
    requires Reused(before, reuse, ids[|recorded|]) && FirstLaneOf(before, ids[|recorded|], index)
    ensures AllWellPlaced(before, nodeId, start, ids, reuse, recorded + [index], |recorded| + 1)
    ensures SearchFrom(before, start, ids, reuse, recorded + [index], |recorded| + 1)
            == SearchFrom(before, start, ids, reuse, recorded, |recorded|)
  {
    SearchStays(before, start, ids, reuse, recorded, index, |recorded|);
    OneMorePlaced(before, nodeId, start, ids, reuse, recorded, index);
  }

  /** A dependent not yet placed has exactly the lanes it had. */
  lemma SameLanes(base: seq<Column>, columns: seq<Column>, recorded: seq<nat>, ids: seq<NodeId>, id: NodeId)
    requires Placing(base, columns, recorded, ids) && id !in ids
    ensures Lane(id) in columns <==> Lane(id) in base
    ensures forall i: nat :: FirstLaneOf(columns, id, i) ==> FirstLaneOf(base, id, i)
  {
    if Lane(id) in base {
      var i :| 0 <= i < |base| && base[i] == Lane(id);
      assert columns[i] == base[i];
    }
    forall i: nat | FirstLaneOf(columns, id, i) ensures FirstLaneOf(base, id, i) {
      forall j | 0 <= j < i && j < |base| ensures base[j] != Lane(id) {
        assert columns[j] != Lane(id);
      }
    }
  }

  lemma {:induction false} SearchStart(
    before: seq<Column>, start: nat, ids: seq<NodeId>, reuse: bool, recorded: seq<nat>, k: nat)
    requires k <= |ids| && k <= |recorded| && forall m :: 0 <= m < k ==> Reused(before, reuse, ids[m])
    ensures SearchFrom(before, start, ids, reuse, recorded, k) == start
  {
    if k > 0 {
      SearchStart(before, start, ids, reuse, recorded, k - 1);
    }
  }

  /** The first dependent that keeps no lane takes a new column of the node. */
  lemma {:induction false} StartIsTaken(
    before: seq<Column>, nodeId: NodeId, start: nat, ids: seq<NodeId>, reuse: bool, recorded: seq<nat>, k: nat)
    requires AllWellPlaced(before, nodeId, start, ids, reuse, recorded, |ids|)
    requires k < |ids| && !Reused(before, reuse, ids[k]) && start >= |before|
    ensures start in recorded
  {
    if m :| 0 <= m < k && !Reused(before, reuse, ids[m]) {
      StartIsTaken(before, nodeId, start, ids, reuse, recorded, m);
    } else {
      SearchStart(before, start, ids, reuse, recorded, k);
      assert WellPlaced(before, nodeId, start, ids, reuse, recorded, k);
      assert FreeAt(before, nodeId, start);
      assert recorded[k] == start;
    }
  }

  /** When the node's own column is recorded besides those of its dependents. */
  lemma RecordedAll(
    before: seq<Column>, nodeId: NodeId, nodeColumn: nat, columns: seq<Column>, ids: seq<NodeId>, reuse: bool,
    recorded: seq<nat>)
    requires AllWellPlaced(before, nodeId, nodeColumn, ids, reuse, recorded, |ids|) && |recorded| == |ids|
    requires |before| <= |columns| && nodeColumn <= |before|
    requires SearchFrom(before, nodeColumn, ids, reuse, recorded, |ids|) == |before| ==> |columns| == |before|
    ensures nodeColumn !in recorded && nodeColumn >= |columns|
            <==> nodeColumn == |before| && forall id :: id in ids ==> Reused(before, reuse, id)
  {
    if nodeColumn == |before| {
      if k :| 0 <= k < |ids| && !Reused(before, reuse, ids[k]) {
        StartIsTaken(before, nodeId, nodeColumn, ids, reuse, recorded, k);
      } else {
        SearchStart(before, nodeColumn, ids, reuse, recorded, |ids|);
        forall k | 0 <= k < |ids| ensures recorded[k] < |before| {
          assert WellPlaced(before, nodeId, nodeColumn, ids, reuse, recorded, k);
        }
      }
    }
  }

  lemma GivesUp(active: seq<Column>, nodeId: NodeId, freshRoot: bool)
    requires freshRoot ==> Lane(nodeId) !in active
    ensures GivenUp(active, if freshRoot then active else Released(active, nodeId), nodeId)
  {
  }

  /** The columns, the record and the next column to try once `k` dependents have theirs. */
  ghost predicate PlacedUpTo(
    active: seq<Column>, base: seq<Column>, nodeId: NodeId, start: nat, ids: seq<NodeId>, reuse: bool,
    columns: seq<Column>, recorded: seq<nat>, insertAt: nat, k: nat)
  {
    && k <= |ids| && Placing(base, columns, recorded, ids[..k])
    && AllWellPlaced(active, nodeId, start, ids, reuse, recorded, k)
    && insertAt == SearchFrom(active, start, ids, reuse, recorded, k)
    && Untouched(base, columns, insertAt)
  }

  lemma PlaceNext(
    active: seq<Column>, base: seq<Column>, nodeId: NodeId, start: nat, ids: seq<NodeId>, reuse: bool,
    columns: seq<Column>, recorded: seq<nat>, insertAt: nat, k: nat, index: nat)
    requires GivenUp(active, base, nodeId) && k < |ids|
    requires PlacedUpTo(active, base, nodeId, start, ids, reuse, columns, recorded, insertAt, k)
    requires !Reused(active, reuse, ids[k])
    requires insertAt <= index <= |columns| && (index < |columns| ==> columns[index].Empty?)
    requires forall j :: insertAt <= j < index ==> columns[j].Lane?
    ensures PlacedUpTo(active, base, nodeId, start, ids, reuse, Placed(columns, index, ids[k]), recorded + [index], index + 1, k + 1)
  {
    NextOf(ids, k);
    PlaceOne(base, columns, recorded, ids[..k], index, ids[k]);
    PlaceInTurn(active, base, nodeId, start, ids, reuse, columns, recorded, insertAt, index);
  }

  lemma ReuseNext(
    active: seq<Column>, base: seq<Column>, nodeId: NodeId, start: nat, ids: seq<NodeId>, reuse: bool,
    columns: seq<Column>, recorded: seq<nat>, insertAt: nat, k: nat, index: nat)
    requires k < |ids| && PlacedUpTo(active, base, nodeId, start, ids, reuse, columns, recorded, insertAt, k)
    requires Reused(active, reuse, ids[k]) && FirstLaneOf(active, ids[k], index)
    requires index < |columns| && columns[index] == Lane(ids[k])
    ensures PlacedUpTo(active, base, nodeId, start, ids, reuse, columns, recorded + [index], insertAt, k + 1)
  {
    NextOf(ids, k);
    ReuseOne(base, columns, recorded, ids[..k], index, ids[k]);
    ReuseInTurn(active, nodeId, start, ids, reuse, recorded, index);
  }

  /** The loop of `advance_columns` over the ordered dependents. */
  method PlaceDependents(active: seq<Column>, base: seq<Column>, nodeId: NodeId, nodeColumn: nat, ordered: seq<NodeId>, reuse: bool)
    returns (columns: seq<Column>, recorded: seq<nat>)
    requires GivenUp(active, base, nodeId) && nodeColumn <= |active| && NoRepeats(ordered)
    requires reuse ==> base == active
    ensures Placing(base, columns, recorded, ordered)
    ensures AllWellPlaced(active, nodeId, nodeColumn, ordered, reuse, recorded, |ordered|)
    ensures Untouched(base, columns, SearchFrom(active, nodeColumn, ordered, reuse, recorded, |ordered|))
  {
    columns, recorded := base, [];
    var insertAt: nat := nodeColumn;
    for k := 0 to |ordered|
      invariant PlacedUpTo(active, base, nodeId, nodeColumn, ordered, reuse, columns, recorded, insertAt, k)
    {
      var id := ordered[k];
      NextOf(ordered, k);
      SameLanes(base, columns, recorded, ordered[..k], id);
      var found, existing := false, 0;
      if reuse {
        found, existing := ExistingColumnFor(columns, id);
      }
      if !found {
        var placed, index := PlaceActiveColumn(columns, insertAt, id);
        PlaceNext(active, base, nodeId, nodeColumn, ordered, reuse, columns, recorded, insertAt, k, index);
        columns, recorded, insertAt := placed, recorded + [index], index + 1;
      } else {
        ReuseNext(active, base, nodeId, nodeColumn, ordered, reuse, columns, recorded, insertAt, k, existing);
        recorded := recorded + [existing];
      }
    }
    assert ordered[..|ordered|] == ordered;
  }

  lemma NoneBeyond(base: seq<Column>, columns: seq<Column>, insertAt: nat)
    requires Untouched(base, columns, insertAt)
    ensures |base| <= |columns| && (insertAt == |base| ==> |columns| == |base|)
  {
  }

  /** What one step makes of the columns, and what it records. */
  ghost predicate Advanced(
    before: seq<Column>, after: seq<Column>, nodeId: NodeId, nodeColumn: nat, ids: seq<NodeId>, reuse: bool, recorded: seq<nat>)
  {
    && LanesStay(before, after, nodeId)
    && LanesComeFrom(before, after, nodeId, recorded, ids)
    && ColumnsHold(after, recorded, ids)
    && (after != [] ==> after[|after| - 1].Lane?)
    && AllWellPlaced(before, nodeId, nodeColumn, ids, reuse, recorded, |ids|)
    && RecordsAll(before, nodeColumn, ids, reuse, recorded)
  }

  lemma FinishLeaf(active: seq<Column>, base: seq<Column>, next: seq<Column>, nodeId: NodeId, nodeColumn: nat)
    requires GivenUp(active, base, nodeId) && Trimmed(base, next)
    ensures Advanced(active, next, nodeId, nodeColumn, [], false, [])
  {
    FinishStep(active, base, base, next, [], [], nodeId);
  }

  lemma FinishAdvance(
    active: seq<Column>, base: seq<Column>, columns: seq<Column>, next: seq<Column>, nodeId: NodeId, nodeColumn: nat,
    ids: seq<NodeId>, reuse: bool, recorded: seq<nat>)
    requires GivenUp(active, base, nodeId) && Placing(base, columns, recorded, ids) && Trimmed(columns, next)
    requires AllWellPlaced(active, nodeId, nodeColumn, ids, reuse, recorded, |ids|)
    requires Untouched(base, columns, SearchFrom(active, nodeColumn, ids, reuse, recorded, |ids|))
    requires ids != [] && nodeColumn <= |active|
    ensures Advanced(active, next, nodeId, nodeColumn, ids, reuse,
                     recorded + if nodeColumn !in recorded && nodeColumn >= |columns| then [nodeColumn] else [])
  {
    FinishStep(active, base, columns, next, recorded, ids, nodeId);
    NoneBeyond(base, columns, SearchFrom(active, nodeColumn, ids, reuse, recorded, |ids|));
    RecordedAll(active, nodeId, nodeColumn, columns, ids, reuse, recorded);
    WellPlacedStay(active, nodeId, nodeColumn, ids, reuse, recorded, nodeColumn, |ids|);
    assert recorded + [] == recorded;
  }

  /** The step for a node with dependents. */
  method AdvanceOver(active: seq<Column>, base: seq<Column>, nodeId: NodeId, nodeColumn: nat, ordered: seq<NodeId>, reuse: bool)
    returns (next: seq<Column>, recorded: seq<nat>)
    requires GivenUp(active, base, nodeId) && nodeColumn <= |active| && ordered != [] && NoRepeats(ordered)
    requires reuse ==> base == active
    ensures Advanced(active, next, nodeId, nodeColumn, ordered, reuse, recorded)
  {
    var columns;
    columns, recorded := PlaceDependents(active, base, nodeId, nodeColumn, ordered, reuse);
    next := TrimTrailingEmptyColumns(columns);
    FinishAdvance(active, base, columns, next, nodeId, nodeColumn, ordered, reuse, recorded);
    if nodeColumn !in recorded && nodeColumn >= |columns| {
      recorded := recorded + [nodeColumn];
    } else {
      assert recorded + [] == recorded;
    }
  }

  method AdvanceColumns(active: seq<Column>, nodeId: NodeId, nodeColumn: nat, dependents: Graph,
                        freshRoot: bool, layout: Layout)
    returns (next: seq<Column>, dependentColumns: seq<nat>)
    requires nodeColumn <= |active| && (freshRoot ==> Lane(nodeId) !in active)
    requires layout.placements.Keys == layout.nodeOrder.Keys
    requires Ascending(Succ(dependents, nodeId), layout.nodeOrder)
    ensures Advanced(active, next, nodeId, nodeColumn, OrderedDependents(Succ(dependents, nodeId), layout),
                     freshRoot && |Succ(dependents, nodeId)| > 1, dependentColumns)
  {
    var base := if freshRoot then active else Released(active, nodeId);
    GivesUp(active, nodeId, freshRoot);
    var nodeDependents := Succ(dependents, nodeId);
    if nodeDependents == [] {
      next := TrimTrailingEmptyColumns(base);
      FinishLeaf(active, base, next, nodeId, nodeColumn);
      return next, [];
    }
    var ordered := OrderedDependents(nodeDependents, layout);
    var reuse := freshRoot && |nodeDependents| > 1;
    OthersInOrder(nodeDependents, layout);
    next, dependentColumns := AdvanceOver(active, base, nodeId, nodeColumn, ordered, reuse);
  }

  // ----- the walk

  /** No node of `done` waits for one outside it. */
  ghost predicate DownClosed(dependencies: Graph, done: set<NodeId>) {
    forall n, d :: n in done && Edge(dependencies, n, d) ==> d in done
  }

  lemma WaitingNext(dependencies: Graph, dependents: Graph, done: set<NodeId>, v: NodeId, n: NodeId)
    requires Inverse(dependencies, dependents) && DownClosed(dependencies, done)
    requires v !in done && forall d :: Edge(dependencies, v, d) ==> d in done
    ensures Waiting(dependencies, done + {v}, n) <==>
            (Waiting(dependencies, done, n) && n != v) || Edge(dependents, v, n)
  {
  }

  /** One step keeps the columns exactly in line with the waiting nodes. */
  lemma StepKeepsLanes(before: seq<Column>, after: seq<Column>, recorded: seq<nat>, ordered: seq<NodeId>,
                       dependencies: Graph, dependents: Graph, done: set<NodeId>, v: NodeId)
    requires Inverse(dependencies, dependents) && DownClosed(dependencies, done)
    requires v !in done && forall d :: Edge(dependencies, v, d) ==> d in done
    requires LanesMatch(before, dependencies, done)
    requires LanesStay(before, after, v) && LanesComeFrom(before, after, v, recorded, ordered)
    requires ColumnsHold(after, recorded, ordered)
    requires forall d :: d in ordered <==> d in Succ(dependents, v)
    requires after != [] ==> after[|after| - 1].Lane?
    ensures LanesMatch(after, dependencies, done + {v})
  {
    forall i | 0 <= i < |after| && after[i].Lane?
      ensures Waiting(dependencies, done + {v}, after[i].target)
    {
      WaitingNext(dependencies, dependents, done, v, after[i].target);
    }
    forall n | Waiting(dependencies, done + {v}, n)
      ensures Lane(n) in after
    {
      WaitingNext(dependencies, dependents, done, v, n);
      if n in ordered {
        var k :| 0 <= k < |ordered| && ordered[k] == n;
        assert after[recorded[k]] == Lane(n);
      } else {
        assert Edge(dependents, v, n) ==> n in ordered;
        var i :| 0 <= i < |before| && before[i] == Lane(n);
        assert after[i] == Lane(n);
      }
    }
  }

  /** `ordered` lists nodes once each, every node after all it depends on. */
  ghost predicate TopologicalOrder(ordered: seq<NodeId>, dependencies: Graph) {
    && NoRepeats(ordered)
    && (forall i :: 0 <= i < |ordered| ==> ordered[i] in dependencies)
    && (forall i, d :: 0 <= i < |ordered| && Edge(dependencies, ordered[i], d) ==> d in ordered[..i])
  }

  /** What the walk promises about the state it records for `ordered[i]`, over
      the pruned dependency map. */
  ghost predicate StateOk(s: GraphState, i: nat, ordered: seq<NodeId>, dependencies: Graph, layout: Layout)
    requires i < |ordered|
  {
    && s.nodeId == ordered[i]
    && DependentsOf(s.nodeId, s.dependents, dependencies, layout)
    && LanesMatch(s.before, dependencies, Members(ordered[..i]))
    && LanesMatch(s.after, dependencies, Members(ordered[..i + 1]))
    && Advanced(s.before, s.after, s.nodeId, s.nodeColumn, OrderedDependents(s.dependents, layout),
                Succ(dependencies, s.nodeId) == [] && |s.dependents| > 1, s.dependentColumns)
    && (if Succ(dependencies, s.nodeId) == [] then s.nodeColumn == |s.before|
        else FirstLaneOf(s.before, s.nodeId, s.nodeColumn))
  }

  /** `dependents` lists the nodes that need `nodeId`, in workflow order. */
  ghost predicate DependentsOf(nodeId: NodeId, dependents: seq<NodeId>, dependencies: Graph, layout: Layout) {
    && layout.placements.Keys == layout.nodeOrder.Keys
    && Ascending(dependents, layout.nodeOrder)
    && forall n :: n in dependents <==> Edge(dependencies, n, nodeId)
  }

  /** A node with dependents is continued by its primary one in its own column, which it has just
      given up or, as a root with one dependent, has just opened. */
  lemma ContinuesInOwnColumn(s: GraphState, i: nat, ordered: seq<NodeId>, dependencies: Graph, layout: Layout)
    requires i < |ordered| && StateOk(s, i, ordered, dependencies, layout)
    requires s.dependents != [] && (Succ(dependencies, s.nodeId) != [] || |s.dependents| == 1)
    ensures |s.dependentColumns| > 0 && s.dependentColumns[0] == s.nodeColumn
    ensures s.nodeColumn < |s.after| && s.after[s.nodeColumn] == Lane(PrimaryDependentFor(s.dependents, layout))
  {
    var ids := OrderedDependents(s.dependents, layout);
    var reuse := Succ(dependencies, s.nodeId) == [] && |s.dependents| > 1;
    assert ids[0] == PrimaryDependentFor(s.dependents, layout);
    assert WellPlaced(s.before, s.nodeId, s.nodeColumn, ids, reuse, s.dependentColumns, 0);
    assert FreeAt(s.before, s.nodeId, s.nodeColumn);
  }

  /** How many of the first `k` dependents have no lane yet. */
  ghost function Newcomers(before: seq<Column>, ids: seq<NodeId>, k: nat): nat
    requires k <= |ids|
  {
    if k == 0 then 0 else Newcomers(before, ids, k - 1) + if Lane(ids[k - 1]) in before then 0 else 1
  }

  lemma {:induction false} NewInTurn(before: seq<Column>, nodeId: NodeId, ids: seq<NodeId>, recorded: seq<nat>, k: nat)
    requires AllWellPlaced(before, nodeId, |before|, ids, true, recorded, |ids|) && k <= |ids|
    ensures SearchFrom(before, |before|, ids, true, recorded, k) == |before| + Newcomers(before, ids, k)
    ensures k < |ids| && Lane(ids[k]) !in before ==> recorded[k] == |before| + Newcomers(before, ids, k)
  {
    if k > 0 {
      NewInTurn(before, nodeId, ids, recorded, k - 1);
    }
    if k < |ids| {
      assert WellPlaced(before, nodeId, |before|, ids, true, recorded, k);
      assert FreeAt(before, nodeId, |before| + Newcomers(before, ids, k));
    }
  }

  /** A root with several dependents leaves those that have a lane where they are and opens new
      columns at the end, one after the other, for the rest; its own is among them, or is
      recorded besides. */
  lemma RootOpensColumns(s: GraphState, i: nat, ordered: seq<NodeId>, dependencies: Graph, layout: Layout, k: nat)
    requires i < |ordered| && StateOk(s, i, ordered, dependencies, layout)
    requires Succ(dependencies, s.nodeId) == [] && |s.dependents| > 1 && k < |OrderedDependents(s.dependents, layout)|
    ensures var ids := OrderedDependents(s.dependents, layout);
            && k < |s.dependentColumns|
            && (if Lane(ids[k]) in s.before then FirstLaneOf(s.before, ids[k], s.dependentColumns[k])
                else s.dependentColumns[k] == |s.before| + Newcomers(s.before, ids, k))
    ensures s.nodeColumn in s.dependentColumns
  {
    var ids := OrderedDependents(s.dependents, layout);
    assert Advanced(s.before, s.after, s.nodeId, |s.before|, ids, true, s.dependentColumns);
    NewInTurn(s.before, s.nodeId, ids, s.dependentColumns, k);
    KeepsLane(s.before, s.nodeId, |s.before|, ids, s.dependentColumns, k);
    OwnIsRecorded(s.before, s.nodeId, ids, true, s.dependentColumns);
  }

  lemma KeepsLane(before: seq<Column>, nodeId: NodeId, start: nat, ids: seq<NodeId>, recorded: seq<nat>, k: nat)
    requires AllWellPlaced(before, nodeId, start, ids, true, recorded, |ids|) && k < |ids|
    ensures Lane(ids[k]) in before ==> FirstLaneOf(before, ids[k], recorded[k])
  {
    assert WellPlaced(before, nodeId, start, ids, true, recorded, k);
  }

  lemma OwnIsRecorded(before: seq<Column>, nodeId: NodeId, ids: seq<NodeId>, reuse: bool, recorded: seq<nat>)
    requires AllWellPlaced(before, nodeId, |before|, ids, reuse, recorded, |ids|)
    requires RecordsAll(before, |before|, ids, reuse, recorded) && ids != []
    ensures |before| in recorded
  {
    if id :| id in ids && !Reused(before, reuse, id) {
      var m :| 0 <= m < |ids| && ids[m] == id;
      StartIsTaken(before, nodeId, |before|, ids, reuse, recorded, m);
    } else {
      assert recorded[|ids|] == |before|;
    }
  }

  lemma PrefixDownClosed(ordered: seq<NodeId>, dependencies: Graph, i: nat)
    requires TopologicalOrder(ordered, dependencies) && i <= |ordered|
    ensures DownClosed(dependencies, Members(ordered[..i]))
  {
    forall n, d | n in Members(ordered[..i]) && Edge(dependencies, n, d)
      ensures d in Members(ordered[..i])
    {
      var j :| 0 <= j < i && ordered[j] == n;
      assert d in ordered[..j];
    }
  }

  lemma TopologicalInSubgraph(ordered: seq<NodeId>, g: Graph, h: Graph)
    requires TopologicalOrder(ordered, g) && h.Keys == g.Keys
    requires forall n, d :: Edge(h, n, d) ==> Edge(g, n, d)
    ensures TopologicalOrder(ordered, h)
  {
  }

  /** The node's own column: a fresh column for a root, else its first lane. */
  lemma RootsHaveNoLane(before: seq<Column>, dependencies: Graph, done: set<NodeId>, v: NodeId)
    requires LanesMatch(before, dependencies, done) && v !in done
    requires forall d :: Edge(dependencies, v, d) ==> d in done
    ensures Succ(dependencies, v) == [] <==> Lane(v) !in before
  {
    if Succ(dependencies, v) != [] {
      assert Edge(dependencies, v, Succ(dependencies, v)[0]);
      assert Waiting(dependencies, done, v);
    }
  }

  /** A node is a fresh root exactly if it has no dependencies, and has its own column. */
  lemma ColumnOfNode(active: seq<Column>, i: nat, ordered: seq<NodeId>, dependencies: Graph, nodeColumn: nat)
    requires i < |ordered| && TopologicalOrder(ordered, dependencies)
    requires LanesMatch(active, dependencies, Members(ordered[..i]))
    requires if Lane(ordered[i]) in active then FirstLaneOf(active, ordered[i], nodeColumn) else nodeColumn == |active|
    ensures IsFreshRoot(ordered[i], active, dependencies) <==> Succ(dependencies, ordered[i]) == []
    ensures if Succ(dependencies, ordered[i]) == [] then nodeColumn == |active|
            else FirstLaneOf(active, ordered[i], nodeColumn)
  {
    NextOf(ordered, i);
    RootsHaveNoLane(active, dependencies, Members(ordered[..i]), ordered[i]);
  }

  lemma StepIsOk(active: seq<Column>, next: seq<Column>, i: nat, ordered: seq<NodeId>, dependencies: Graph, dependents: Graph,
                 layout: Layout, nodeColumn: nat, reuse: bool, recorded: seq<nat>)
    requires i < |ordered| && TopologicalOrder(ordered, dependencies) && Inverse(dependencies, dependents)
    requires DependentsOf(ordered[i], Succ(dependents, ordered[i]), dependencies, layout)
    requires LanesMatch(active, dependencies, Members(ordered[..i]))
    requires Advanced(active, next, ordered[i], nodeColumn, OrderedDependents(Succ(dependents, ordered[i]), layout), reuse, recorded)
    ensures LanesMatch(next, dependencies, Members(ordered[..i + 1]))
  {
    var nodeId := ordered[i];
    PrefixDownClosed(ordered, dependencies, i);
    NextOf(ordered, i);
    StepKeepsLanes(active, next, recorded, OrderedDependents(Succ(dependents, nodeId), layout),
                   dependencies, dependents, Members(ordered[..i]), nodeId);
    assert Members(ordered[..i + 1]) == Members(ordered[..i]) + {nodeId};
  }

  /** The loop body of `build_graph_states`. */
  method DrawNode(i: nat, ordered: seq<NodeId>, active: seq<Column>, dependencies: Graph, dependents: Graph, layout: Layout)
    returns (state: GraphState)
    requires i < |ordered| && TopologicalOrder(ordered, dependencies)
    requires Inverse(dependencies, dependents)
    requires DependentsOf(ordered[i], Succ(dependents, ordered[i]), dependencies, layout)
    requires LanesMatch(active, dependencies, Members(ordered[..i]))
    ensures StateOk(state, i, ordered, dependencies, layout) && state.before == active
  {
    var nodeId := ordered[i];
    var freshRoot := IsFreshRoot(nodeId, active, dependencies);
    var nodeColumn := NodeColumnFor(active, nodeId, freshRoot);
    ColumnOfNode(active, i, ordered, dependencies, nodeColumn);
    var next, dependentColumns := AdvanceColumns(active, nodeId, nodeColumn, dependents, freshRoot, layout);
    StepIsOk(active, next, i, ordered, dependencies, dependents, layout, nodeColumn,
             freshRoot && |Succ(dependents, nodeId)| > 1, dependentColumns);
    state := GraphState(nodeId, nodeColumn, active, next, dependentColumns, Succ(dependents, nodeId));
  }

  lemma NobodyWaits(dependencies: Graph, done: set<NodeId>, n: NodeId)
    requires dependencies.Keys <= done
    ensures !Waiting(dependencies, done, n)
  {
  }

  /** Once every node is drawn nothing waits, so no lane is left. */
  lemma AllMembers(columns: seq<Column>, dependencies: Graph, done: set<NodeId>)
    requires LanesMatch(columns, dependencies, done) && dependencies.Keys <= done
    ensures columns == []
  {
    forall n
      ensures !Waiting(dependencies, done, n)
    {
      NobodyWaits(dependencies, done, n);
    }
  }

  /** The recorded states follow the order, each starting from the columns the
      previous one left. */
  ghost predicate Walked(states: seq<GraphState>, ordered: seq<NodeId>, dependencies: Graph, layout: Layout) {
    && |states| <= |ordered|
    && (forall i {:trigger StepOk(states, i, ordered, dependencies, layout)} ::
          0 <= i < |states| ==> StepOk(states, i, ordered, dependencies, layout))
  }

  ghost predicate StepOk(states: seq<GraphState>, i: nat, ordered: seq<NodeId>, dependencies: Graph, layout: Layout)
    requires i < |states| <= |ordered|
  {
    StateOk(states[i], i, ordered, dependencies, layout) && states[i].before == Left(states, i)
  }

  /** The columns in use before step `i`. */
  function Left(states: seq<GraphState>, i: nat): seq<Column>
    requires i <= |states|
  {
    if i == 0 then [] else states[i - 1].after
  }

  lemma WalkOn(states: seq<GraphState>, state: GraphState, ordered: seq<NodeId>, dependencies: Graph, layout: Layout)
    requires Walked(states, ordered, dependencies, layout) && |states| < |ordered|
    requires StateOk(state, |states|, ordered, dependencies, layout)
    requires state.before == Left(states, |states|)
    ensures Walked(states + [state], ordered, dependencies, layout)
  {
    var more := states + [state];
    forall i | 0 <= i < |more|
      ensures StepOk(more, i, ordered, dependencies, layout)
    {
      if i < |states| {
        assert StepOk(states, i, ordered, dependencies, layout);
        assert more[i] == states[i] && Left(more, i) == Left(states, i);
      } else {
        assert more[i] == state && Left(more, i) == Left(states, i);
      }
    }
  }

  lemma LeftMatches(states: seq<GraphState>, ordered: seq<NodeId>, dependencies: Graph, layout: Layout)
    requires Walked(states, ordered, dependencies, layout)
    ensures LanesMatch(Left(states, |states|), dependencies, Members(ordered[..|states|]))
  {
    if states != [] {
      assert StepOk(states, |states| - 1, ordered, dependencies, layout);
    }
  }

  /** The loop of `build_graph_states`. */
  method DrawAll(ordered: seq<NodeId>, dependencies: Graph, dependents: Graph, layout: Layout)
    returns (states: seq<GraphState>)
    requires TopologicalOrder(ordered, dependencies) && Inverse(dependencies, dependents)
    requires forall v :: v in ordered ==> DependentsOf(v, Succ(dependents, v), dependencies, layout)
    ensures |states| == |ordered| && Walked(states, ordered, dependencies, layout)
    ensures LanesMatch(Left(states, |states|), dependencies, Members(ordered))
  {
    var active: seq<Column> := [];
    states := [];
    for i := 0 to |ordered|
      invariant |states| == i && active == Left(states, i)
      invariant Walked(states, ordered, dependencies, layout)
    {
      LeftMatches(states, ordered, dependencies, layout);
      var state := DrawNode(i, ordered, active, dependencies, dependents, layout);
      WalkOn(states, state, ordered, dependencies, layout);
      states := states + [state];
      active := state.after;
    }
    LeftMatches(states, ordered, dependencies, layout);
    assert ordered[..|ordered|] == ordered;
  }

  /** `build_graph_states` */
  method BuildGraphStates(ordered: seq<NodeId>, layout: Layout) returns (states: seq<GraphState>)
    requires layout.WellFormed() && TopologicalOrder(ordered, layout.dependencies)
    ensures |states| == |ordered| && Walked(states, ordered, Rendered(layout.dependencies), layout)
    ensures Members(ordered) == layout.dependencies.Keys ==> Left(states, |states|) == []
  {
    var dependencies, dependents := RenderDependencyMaps(layout);
    RenderedIsSubgraph(layout.dependencies);
    TopologicalInSubgraph(ordered, layout.dependencies, dependencies);
    states := DrawAll(ordered, dependencies, dependents, layout);
    if Members(ordered) == layout.dependencies.Keys {
      AllMembers(Left(states, |states|), dependencies, Members(ordered));
    }
  }
}
