/**
  The hub's bounded, coalescing delivery queue (`_enqueue_snapshot` and
  `_take_pending_delivery` in `observability/runtime.py`).
 */
module DeliveryQueue {

  const MAX_OBSERVER_DELIVERY_QUEUE_SIZE := 1024

  /** A snapshot for some observers; a tick carries no event. */
  datatype Delivery =
    | Tick(snapshot: nat, observers: seq<nat>)
    | Carrying(event: nat, snapshot: nat, observers: seq<nat>)

  /** How an accepted delivery left the queue. */
  datatype Fate = Taken | Overflowed | Cleared

  datatype Departure = Departure(delivery: Delivery, fate: Fate)

  /** The queue, with everything it ever accepted and everything that left it. */
  datatype State = State(pending: seq<Delivery>, accepted: seq<Delivery>, left: seq<Departure>)

  datatype Op = Enqueue(delivery: Delivery) | Take | ClearAll

  // ----- the operations on values

  predicate HasTick(s: seq<Delivery>) {
    exists i :: 0 <= i < |s| && s[i].Tick?
  }

  lemma HasTickIff(s: seq<Delivery>)
    ensures HasTick(s) <==> exists t :: t in s && t.Tick?
  {
    if HasTick(s) {
      var i :| 0 <= i < |s| && s[i].Tick?;
      assert s[i] in s;
    }
  }

  /** A tick is dropped while another is pending; a full queue drops its oldest. */
  function Enqueued(s: State, d: Delivery): State {
    if d.Tick? && HasTick(s.pending) then s
    else if |s.pending| >= MAX_OBSERVER_DELIVERY_QUEUE_SIZE then
      State(s.pending[1..] + [d], s.accepted + [d], s.left + [Departure(s.pending[0], Overflowed)])
    else State(s.pending + [d], s.accepted + [d], s.left)
  }

  function TakenFrom(s: State): State {
    if s.pending == [] then s
    else State(s.pending[1..], s.accepted, s.left + [Departure(s.pending[0], Taken)])
  }

  function Departures(s: seq<Delivery>, fate: Fate): seq<Departure> {
    seq(|s|, i requires 0 <= i < |s| => Departure(s[i], fate))
  }

  function ClearedFrom(s: State): State {
    State([], s.accepted, s.left + Departures(s.pending, Cleared))
  }

  function Apply(s: State, op: Op): State {
    match op
    case Enqueue(d) => Enqueued(s, d)
    case Take => TakenFrom(s)
    case ClearAll => ClearedFrom(s)
  }

  function Run(ops: seq<Op>): State {
    if ops == [] then State([], [], []) else Apply(Run(ops[..|ops| - 1]), ops[|ops| - 1])
  }

  // ----- what every sequence of operations keeps

  function Gone(left: seq<Departure>): (r: seq<Delivery>)
    ensures |r| == |left|
  {
    seq(|left|, i requires 0 <= i < |left| => left[i].delivery)
  }

  ghost predicate AtMostOneTick(s: seq<Delivery>) {
    forall i, j {:trigger s[i], s[j]} :: 0 <= i < j < |s| ==> !(s[i].Tick? && s[j].Tick?)
  }

  ghost predicate Conserved(s: State) {
    && s.accepted == Gone(s.left) + s.pending
    && |s.pending| <= MAX_OBSERVER_DELIVERY_QUEUE_SIZE
    && AtMostOneTick(s.pending)
  }

  lemma GoneAppend(left: seq<Departure>, more: seq<Departure>)
    ensures Gone(left + more) == Gone(left) + Gone(more)
  {
  }

  lemma EnqueueConserves(s: State, d: Delivery)
    requires Conserved(s)
    ensures Conserved(Enqueued(s, d))
  {
    if !(d.Tick? && HasTick(s.pending)) && |s.pending| >= MAX_OBSERVER_DELIVERY_QUEUE_SIZE {
      GoneAppend(s.left, [Departure(s.pending[0], Overflowed)]);
      assert s.pending == [s.pending[0]] + s.pending[1..];
    }
  }

  lemma TakeConserves(s: State)
    requires Conserved(s)
    ensures Conserved(TakenFrom(s))
  {
    if s.pending != [] {
      GoneAppend(s.left, [Departure(s.pending[0], Taken)]);
      assert s.pending == [s.pending[0]] + s.pending[1..];
    }
  }

  lemma ClearConserves(s: State)
    requires Conserved(s)
    ensures Conserved(ClearedFrom(s))
  {
    GoneAppend(s.left, Departures(s.pending, Cleared));
    assert Gone(Departures(s.pending, Cleared)) == s.pending;
  }

  lemma ApplyConserves(s: State, op: Op)
    requires Conserved(s)
    ensures Conserved(Apply(s, op))
  {
    match op
    case Enqueue(d) => EnqueueConserves(s, d);
    case Take => TakeConserves(s);
    case ClearAll => ClearConserves(s);
  }

  /** After any operations: accepted deliveries are those that left followed by
      those pending, in order; the queue is bounded and holds at most one tick. */
  lemma {:induction false} RunConserves(ops: seq<Op>)
    ensures Conserved(Run(ops))
  {
    if ops != [] {
      RunConserves(ops[..|ops| - 1]);
      ApplyConserves(Run(ops[..|ops| - 1]), ops[|ops| - 1]);
    }
  }

  /** A delivery that left other than by being taken left at an operation of the run: an
      overflow as the oldest entry of a full queue that made room for another, a clear with
      everything that was pending. */
  lemma {:induction false} LostOnlyByOverflowOrClear(ops: seq<Op>, k: nat)
    requires k < |Run(ops).left| && Run(ops).left[k].fate != Taken
    ensures Lost(ops, k, Run(ops).left[k].fate)
  {
    var n := |ops| - 1;
    var before := Run(ops[..n]);
    RunConserves(ops[..n]);
    if k < |before.left| {
      LostOnlyByOverflowOrClear(ops[..n], k);
      var m :| 0 <= m < n && LostAt(ops[..n], m, k, before.left[k].fate);
      assert ops[..n][m] == ops[m] && ops[..n][..m] == ops[..m] && ops[..n][..m + 1] == ops[..m + 1];
      assert LostAt(ops, m, k, before.left[k].fate);
    } else {
      assert ops[..n + 1] == ops && ops[n] == ops[n];
      assert LostAt(ops, n, k, Run(ops).left[k].fate);
    }
  }

  /** Some operation explains the `k`th departure. */
  ghost predicate Lost(ops: seq<Op>, k: nat, fate: Fate) {
    exists n {:trigger ops[n]} :: 0 <= n < |ops| && LostAt(ops, n, k, fate)
  }

  /** The `k`th departure happened at operation `n`, which explains its fate. */
  ghost predicate LostAt(ops: seq<Op>, n: nat, k: nat, fate: Fate)
    requires n < |ops|
  {
    var s, t := Run(ops[..n]), Run(ops[..n + 1]);
    && |s.left| <= k < |t.left| && t.left[k].fate == fate
    && match fate
       case Taken => false
       case Overflowed =>
         && ops[n].Enqueue? && |s.pending| == MAX_OBSERVER_DELIVERY_QUEUE_SIZE
         && t.left[k].delivery == s.pending[0] && t.accepted == s.accepted + [ops[n].delivery]
       case Cleared => ops[n].ClearAll? && t.pending == []
  }

  /** What was taken came out in the order it was accepted. */
  lemma TakenInOrder(ops: seq<Op>, i: nat)
    requires i < |Run(ops).left|
    ensures i < |Run(ops).accepted| && Run(ops).left[i].delivery == Run(ops).accepted[i]
  {
    RunConserves(ops);
    var s := Run(ops);
    assert Gone(s.left)[i] == s.left[i].delivery;
  }

  // ----- the fields of the hub

  class Deliveries {
    var pending: seq<Delivery>
    var available: bool
    var warned: bool
    ghost var accepted: seq<Delivery>
    ghost var left: seq<Departure>

    ghost function Contents(): State
      reads this
    {
      State(pending, accepted, left)
    }

    /** The wake flag is set whenever something is pending. */
    ghost predicate Valid()
      reads this
    {
      Conserved(Contents()) && (pending != [] ==> available)
    }

    constructor ()
      ensures Valid() && Contents() == Run([]) && !available && !warned
    {
      pending, available, warned, accepted, left := [], false, false, [], [];
    }

    /** `_enqueue_snapshot` under the delivery lock; ticks coalesce, events do not. */
    method EnqueueSnapshot(d: Delivery) returns (shouldWarn: bool)
      requires Valid()
      modifies this
      ensures Valid() && Contents() == Enqueued(old(Contents()), d)
      ensures d.Tick? && (exists t :: t in old(pending) && t.Tick?) ==> Contents() == old(Contents())
      ensures d.Carrying? || (forall t :: t in old(pending) ==> t.Carrying?)
              ==> && accepted == old(accepted) + [d] && |pending| > 0 && pending[|pending| - 1] == d
                  && (|old(pending)| < MAX_OBSERVER_DELIVERY_QUEUE_SIZE ==> pending == old(pending) + [d] && left == old(left))
                  && (|old(pending)| == MAX_OBSERVER_DELIVERY_QUEUE_SIZE
                      ==> && pending == old(pending)[1..] + [d]
                          && left == old(left) + [Departure(old(pending)[0], Overflowed)])
      ensures shouldWarn <==> !old(warned) && warned
      ensures warned <==> old(warned) || (!(d.Tick? && HasTick(old(pending))) && |old(pending)| >= MAX_OBSERVER_DELIVERY_QUEUE_SIZE)
      ensures available <==> old(available) || Contents() != old(Contents())
    {
      EnqueueConserves(Contents(), d);
      HasTickIff(pending);
      shouldWarn := false;
      if d.Tick? && HasTick(pending) {
        return;
      }
      if |pending| >= MAX_OBSERVER_DELIVERY_QUEUE_SIZE {
        left := left + [Departure(pending[0], Overflowed)];
        pending := pending[1..];
        shouldWarn := !warned;
        warned := true;
      }
      pending, accepted := pending + [d], accepted + [d];
      available := true;
      assert |accepted| > |old(accepted)|;
    }

    /** `_take_pending_delivery` */
    method TakePendingDelivery() returns (found: bool, d: Delivery)
      requires Valid()
      modifies this
      ensures Valid() && Contents() == TakenFrom(old(Contents())) && warned == old(warned)
      ensures found <==> old(pending) != []
      ensures found ==> && d == old(pending)[0] && pending == old(pending)[1..]
                        && left == old(left) + [Departure(d, Taken)]
      ensures accepted == old(accepted) && (!found ==> Contents() == old(Contents()))
      ensures available <==> pending != [] && old(available)
    {
      TakeConserves(Contents());
      if pending == [] {
        available := false;
        return false, Tick(0, []);
      }
      d := pending[0];
      left := left + [Departure(d, Taken)];
      pending := pending[1..];
      if pending == [] {
        available := false;
      }
      return true, d;
    }

    /** The clear of `_stop_delivery_worker` after a join that timed out. */
    method ClearPending()
      requires Valid()
      modifies this
      ensures Valid() && Contents() == ClearedFrom(old(Contents())) && available == old(available) && warned == old(warned)
      ensures pending == [] && accepted == old(accepted) && |left| == |old(left)| + |old(pending)|
    {
      ClearConserves(Contents());
      left := left + Departures(pending, Cleared);
      pending := [];
    }
  }
}
