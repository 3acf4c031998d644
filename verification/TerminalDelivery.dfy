/**
 * Delivery of events to observers, with retries: what the hub records so that a synchronous
 * observer that took a terminal event is not given it again, while one that failed is.
 */
module TerminalDelivery {
  import opened Results
  import opened Collections
  import Q = DeliveryQueue

  type Observer = nat
  type Line = string

  /** An event by its terminal line; other events have none. */
  type Event = Option<Line>

  /** One `on_snapshot` call. */
  datatype Call = Call(event: Event, observer: Observer, ending: Ending)

  datatype Delivery = Delivery(line: Line, observer: Observer)

  /** The observers' capabilities, whether a delivery worker runs, and what the outside does at
      each turn of a delivery loop: how a callback ends, and which observers the worker and the
      ticker have disabled by then. That they disable none that is required and synchronous is
      `OtherLoopsSpareRequired`. */
  datatype World = World(
    synchronous: Observer -> bool,
    required: Observer -> bool,
    hasWorker: bool,
    ends: nat -> Ending,
    disabled: nat -> set<Observer>)

  /** The hub's fields, the turns taken and the calls made, those of synchronous observers and
      those of the hub's own hand-over to the others. */
  datatype State = State(
    active: seq<Observer>, delivered: seq<Delivery>, published: Event, turn: nat, calls: seq<Call>,
    direct: seq<Call>)

  /** How a loop or an emit ends; all but the first raise. */
  datatype End = Returned | RequiredFailed | CallEscaped | HandOverEscaped

  datatype Outcome = Outcome(state: State, end: End, remaining: seq<Observer>)

  function Without(s: seq<Observer>, gone: set<Observer>): (r: seq<Observer>)
    ensures forall o :: o in r <==> o in s && o !in gone
  {
    if s == [] then []
    else Without(s[..|s| - 1], gone) + (if s[|s| - 1] in gone then [] else [s[|s| - 1]])
  }

  // ----- the operations on values

  predicate Safe(w: World, o: Observer) {
    w.required(o) && w.synchronous(o)
  }

  /** What the other threads have disabled before a turn. */
  function NextTurn(w: World, s: State): State {
    var gone := set o | o in w.disabled(s.turn) && !Safe(w, o);
    s.(active := Without(s.active, gone), turn := s.turn + 1)
  }

  predicate Served(s: State, event: Event, o: Observer) {
    event.Some? && Delivery(event.value, o) in s.delivered
  }

  predicate Skipped(w: World, s: State, event: Event, o: Observer) {
    o !in s.active || !w.synchronous(o) || Served(s, event, o)
  }

  function Called(s: State, event: Event, o: Observer, ending: Ending): State {
    var t := s.(calls := s.calls + [Call(event, o, ending)]);
    if ending.Fine? && event.Some? then t.(delivered := t.delivered + [Delivery(event.value, o)]) else t
  }

  function Handed(s: State, event: Event, o: Observer, ending: Ending): State {
    s.(direct := s.direct + [Call(event, o, ending)])
  }

  function Disabled(s: State, failed: seq<Observer>): State {
    s.(active := Without(s.active, Members(failed)))
  }

  /** The observers left to the delivery queue. */
  function Passed(w: World, s: State, o: Observer, remaining: seq<Observer>): seq<Observer> {
    if o in s.active && !w.synchronous(o) then remaining + [o] else remaining
  }

  /** `_publish_synchronous_snapshot` from some turn on. An escaping exception leaves the loop
      at once, before the observers that failed in it are disabled. */
  function Publish(
    w: World, s: State, event: Event, observers: seq<Observer>, failed: seq<Observer>,
    remaining: seq<Observer>): Outcome
    decreases |observers|
  {
    if observers == [] then Outcome(Disabled(s, failed), Returned, remaining)
    else
      var o, rest, t := observers[0], observers[1..], NextTurn(w, s);
      if Skipped(w, t, event, o) then
        Publish(w, t, event, rest, failed, Passed(w, t, o, remaining))
      else
        match w.ends(s.turn)
        case Fine => Publish(w, Called(t, event, o, Fine), event, rest, failed, remaining)
        case Escape => Outcome(Called(t, event, o, Escape), CallEscaped, remaining)
        case Fault =>
          if w.required(o) then Outcome(Disabled(Called(t, event, o, Fault), failed), RequiredFailed, remaining)
          else Publish(w, Called(t, event, o, Fault), event, rest, failed + [o], remaining)
  }

  /** `_publish_snapshot` from some turn on, which the hub runs itself when it has no worker. */
  function HandOver(w: World, s: State, event: Event, observers: seq<Observer>, failed: seq<Observer>): Outcome
    decreases |observers|
  {
    if observers == [] then Outcome(Disabled(s, failed), Returned, [])
    else
      var o, rest, t := observers[0], observers[1..], NextTurn(w, s);
      if o !in t.active then HandOver(w, t, event, rest, failed)
      else
        match w.ends(s.turn)
        case Fine => HandOver(w, Handed(t, event, o, Fine), event, rest, failed)
        case Fault => HandOver(w, Handed(t, event, o, Fault), event, rest, failed + [o])
        case Escape => Outcome(Handed(t, event, o, Escape), HandOverEscaped, [])
  }

  /** `emit`; with a worker the remaining observers get the event through the queue. */
  function Emit(w: World, s: State, event: Event): Outcome {
    if event.Some? && s.published == event then Outcome(s, Returned, [])
    else
      var r := Publish(w, s, event, s.active, [], []);
      if !r.end.Returned? then r
      else
        var h := if w.hasWorker || r.remaining == [] then r else HandOver(w, r.state, event, r.remaining, []);
        if !h.end.Returned? then Outcome(h.state, h.end, r.remaining)
        else Outcome(if event.Some? then h.state.(published := event) else h.state, Returned, r.remaining)
  }

  // ----- what one delivery loop does

  /** Nothing is taken back: observers only leave, records and calls only grow. */
  ghost predicate Grows(s: State, t: State) {
    && (forall o :: o in t.active ==> o in s.active)
    && s.delivered <= t.delivered && s.calls <= t.calls && s.direct <= t.direct
  }

  /** The call was made after the first list was all. */
  ghost predicate Since(before: seq<Call>, after: seq<Call>, c: Call) {
    exists k {:trigger after[k]} :: |before| <= k < |after| && after[k] == c
  }

  /** The state with which the loop goes on after its first observer, if it does. */
  function AfterFirst(w: World, s: State, event: Event, o: Observer): State {
    var t := NextTurn(w, s);
    if Skipped(w, t, event, o) then t else Called(t, event, o, w.ends(s.turn))
  }

  /** The same for the hand-over. */
  function AfterHanded(w: World, s: State, event: Event, o: Observer): State {
    var t := NextTurn(w, s);
    if o in t.active then Handed(t, event, o, w.ends(s.turn)) else t
  }

  lemma AfterFirstGrows(w: World, s: State, event: Event, o: Observer)
    ensures Grows(s, AfterFirst(w, s, event, o))
  {
  }

  lemma {:induction false} PublishGrows(
    w: World, s: State, event: Event, observers: seq<Observer>, failed: seq<Observer>,
    remaining: seq<Observer>)
    ensures var t := Publish(w, s, event, observers, failed, remaining).state;
            Grows(s, t) && t.direct == s.direct
    decreases |observers|
  {
    if observers != [] {
      var o, rest, t := observers[0], observers[1..], NextTurn(w, s);
      var u := AfterFirst(w, s, event, o);
      AfterFirstGrows(w, s, event, o);
      if Skipped(w, t, event, o) {
        PublishGrows(w, u, event, rest, failed, Passed(w, t, o, remaining));
      } else if w.ends(s.turn).Fine? {
        PublishGrows(w, u, event, rest, failed, remaining);
      } else if w.ends(s.turn).Fault? && !w.required(o) {
        PublishGrows(w, u, event, rest, failed + [o], remaining);
      }
    }
  }

  /** The direct delivery makes no synchronous call and only lets observers go. */
  lemma {:induction false} HandOverGrows(w: World, s: State, event: Event, observers: seq<Observer>, failed: seq<Observer>)
    ensures var t := HandOver(w, s, event, observers, failed).state;
            Grows(s, t) && t.delivered == s.delivered && t.calls == s.calls && t.published == s.published
    decreases |observers|
  {
    if observers != [] {
      var o, rest, u := observers[0], observers[1..], AfterHanded(w, s, event, observers[0]);
      if o in u.active && w.ends(s.turn).Fault? {
        HandOverGrows(w, u, event, rest, failed + [o]);
      } else {
        HandOverGrows(w, u, event, rest, failed);
      }
    }
  }

  /** An observer the loop has passed is gone, is not synchronous, or has the event. */
  ghost predicate Settled(w: World, s: State, event: Event, o: Observer) {
    o in s.active && w.synchronous(o) && event.Some? ==> Served(s, event, o)
  }

  ghost predicate AllSettled(w: World, s: State, event: Event) {
    forall o :: o in s.active ==> Settled(w, s, event, o)
  }

  lemma SettledStays(w: World, s: State, t: State, event: Event, o: Observer)
    requires Settled(w, s, event, o) && Grows(s, t)
    ensures Settled(w, t, event, o)
  {
  }

  lemma AllSettledStay(w: World, s: State, t: State, event: Event)
    requires AllSettled(w, s, event) && Grows(s, t)
    ensures AllSettled(w, t, event)
  {
    forall o | o in t.active ensures Settled(w, t, event, o) {
      SettledStays(w, s, t, event, o);
    }
  }

  /** A loop that returns leaves no observer that failed in it active, and every other
      observer it was given settled. */
  lemma {:induction false} PublishSettles(
    w: World, s: State, event: Event, observers: seq<Observer>, failed: seq<Observer>,
    remaining: seq<Observer>, x: Observer)
    requires Publish(w, s, event, observers, failed, remaining).end.Returned?
    requires x in observers || x in failed
    ensures Settled(w, Publish(w, s, event, observers, failed, remaining).state, event, x)
    ensures x in failed ==> x !in Publish(w, s, event, observers, failed, remaining).state.active
    decreases |observers|, 0
  {
    if observers != [] {
      var o, rest := observers[0], observers[1..];
      var t := NextTurn(w, s);
      if Skipped(w, t, event, o) {
        PublishOnward(w, t, event, rest, failed, Passed(w, t, o, remaining), o, x);
      } else if w.ends(s.turn).Fine? {
        PublishOnward(w, Called(t, event, o, Fine), event, rest, failed, remaining, o, x);
      } else {
        PublishSettles(w, Called(t, event, o, Fault), event, rest, failed + [o], remaining, x);
      }
    }
  }

  /** The rest of the loop keeps its first observer settled and settles the others. */
  lemma {:induction false} PublishOnward(
    w: World, s: State, event: Event, rest: seq<Observer>, failed: seq<Observer>,
    remaining: seq<Observer>, first: Observer, x: Observer)
    requires Publish(w, s, event, rest, failed, remaining).end.Returned?
    requires Settled(w, s, event, first) && (x == first || x in rest || x in failed)
    ensures Settled(w, Publish(w, s, event, rest, failed, remaining).state, event, x)
    ensures x in failed ==> x !in Publish(w, s, event, rest, failed, remaining).state.active
    decreases |rest|, 1
  {
    if x in rest || x in failed {
      PublishSettles(w, s, event, rest, failed, remaining, x);
    } else {
      PublishGrows(w, s, event, rest, failed, remaining);
      SettledStays(w, s, Publish(w, s, event, rest, failed, remaining).state, event, x);
    }
  }

  // ----- the record of deliveries and the calls made

  function Successes(calls: seq<Call>): seq<Delivery> {
    if calls == [] then []
    else
      var c := calls[|calls| - 1];
      Successes(calls[..|calls| - 1])
      + (if c.ending.Fine? && c.event.Some? then [Delivery(c.event.value, c.observer)] else [])
  }

  /** The two calls are not a success with a terminal event and its repetition. */
  ghost predicate NotRepeated(first: Call, later: Call) {
    first.ending.Fine? && first.event.Some? ==> first.event != later.event || first.observer != later.observer
  }

  ghost predicate NeverRepeated(calls: seq<Call>) {
    forall i, j {:trigger NotRepeated(calls[i], calls[j])} ::
      0 <= i < j < |calls| ==> NotRepeated(calls[i], calls[j])
  }

  /** The record lists the successes with terminal events, and none was repeated. */
  ghost predicate RecordOk(s: State) {
    Recorded(s.delivered, s.calls)
  }

  ghost predicate Recorded(delivered: seq<Delivery>, calls: seq<Call>) {
    delivered == Successes(calls) && NeverRepeated(calls)
  }

  ghost predicate Inv(w: World, s: State) {
    RecordOk(s) && (s.published.Some? ==> AllSettled(w, s, s.published))
  }

  lemma {:induction false} SuccessIsRecorded(calls: seq<Call>, i: nat)
    requires i < |calls| && calls[i].ending.Fine? && calls[i].event.Some?
    ensures Delivery(calls[i].event.value, calls[i].observer) in Successes(calls)
  {
    if i < |calls| - 1 {
      SuccessIsRecorded(calls[..|calls| - 1], i);
    }
  }

  lemma {:induction false} RecordIsSuccess(calls: seq<Call>, line: Line, o: Observer)
    requires Delivery(line, o) in Successes(calls)
    ensures Call(Some(line), o, Fine) in calls
  {
    var n := |calls| - 1;
    if Delivery(line, o) in Successes(calls[..n]) {
      RecordIsSuccess(calls[..n], line, o);
    } else {
      assert calls[n] in calls;
    }
  }

  /** A call the loop makes repeats no success. */
  lemma CallIsNew(s: State, event: Event, o: Observer, ending: Ending)
    requires RecordOk(s) && !Served(s, event, o)
    ensures RecordOk(Called(s, event, o, ending))
  {
    var calls := Called(s, event, o, ending).calls;
    assert calls[..|calls| - 1] == s.calls;
    forall i, j | 0 <= i < j < |calls| ensures NotRepeated(calls[i], calls[j]) {
      if j < |s.calls| {
        assert NotRepeated(s.calls[i], s.calls[j]);
      } else if s.calls[i].ending.Fine? && s.calls[i].event.Some? {
        SuccessIsRecorded(s.calls, i);
      }
    }
  }

  lemma FirstKeepsRecord(w: World, s: State, event: Event, o: Observer)
    requires RecordOk(s)
    ensures RecordOk(AfterFirst(w, s, event, o)) && AfterFirst(w, s, event, o).published == s.published
  {
    var t := NextTurn(w, s);
    if !Skipped(w, t, event, o) {
      CallIsNew(t, event, o, w.ends(s.turn));
    }
  }

  lemma {:induction false} PublishKeepsRecord(
    w: World, s: State, event: Event, observers: seq<Observer>, failed: seq<Observer>,
    remaining: seq<Observer>)
    requires RecordOk(s)
    ensures var t := Publish(w, s, event, observers, failed, remaining).state;
            RecordOk(t) && t.published == s.published
    decreases |observers|
  {
    if observers != [] {
      var o, rest, t := observers[0], observers[1..], NextTurn(w, s);
      var u := AfterFirst(w, s, event, o);
      FirstKeepsRecord(w, s, event, o);
      if Skipped(w, t, event, o) {
        PublishKeepsRecord(w, u, event, rest, failed, Passed(w, t, o, remaining));
      } else if w.ends(s.turn).Fine? {
        PublishKeepsRecord(w, u, event, rest, failed, remaining);
      } else if w.ends(s.turn).Fault? && !w.required(o) {
        PublishKeepsRecord(w, u, event, rest, failed + [o], remaining);
      }
    }
  }

  // ----- sequences of emits

  /** The state after the given emits, each made whatever became of the one before. */
  function After(w: World, start: seq<Observer>, events: seq<Event>): State {
    if events == [] then State(start, [], None, 0, [], [])
    else Emit(w, After(w, start, events[..|events| - 1]), events[|events| - 1]).state
  }

  lemma PublishSettlesAll(w: World, s: State, event: Event)
    requires Publish(w, s, event, s.active, [], []).end.Returned?
    ensures AllSettled(w, Publish(w, s, event, s.active, [], []).state, event)
  {
    var t := Publish(w, s, event, s.active, [], []).state;
    PublishGrows(w, s, event, s.active, [], []);
    forall o | o in t.active ensures Settled(w, t, event, o) {
      PublishSettles(w, s, event, s.active, [], [], o);
    }
  }

  lemma EmitGrows(w: World, s: State, event: Event)
    ensures Grows(s, Emit(w, s, event).state)
  {
    PublishGrows(w, s, event, s.active, [], []);
    var r := Publish(w, s, event, s.active, [], []);
    HandOverGrows(w, r.state, event, r.remaining, []);
  }

  /** The synchronous part is over when the hand-over begins, so an escape there finds every
      active synchronous observer with the event. */
  lemma EmitSettles(w: World, s: State, event: Event)
    requires Inv(w, s) && event.Some?
    requires Emit(w, s, event).end.Returned? || Emit(w, s, event).end.HandOverEscaped?
    ensures AllSettled(w, Emit(w, s, event).state, event)
  {
    if s.published != event {
      var r := Publish(w, s, event, s.active, [], []);
      OnlyHandOverEscapes(w, s, event, s.active, [], []);
      PublishSettlesAll(w, s, event);
      HandOverGrows(w, r.state, event, r.remaining, []);
      AllSettledStay(w, r.state, Emit(w, s, event).state, event);
    }
  }

  lemma {:induction false} OnlyHandOverEscapes(
    w: World, s: State, event: Event, observers: seq<Observer>, failed: seq<Observer>, remaining: seq<Observer>)
    ensures !Publish(w, s, event, observers, failed, remaining).end.HandOverEscaped?
    decreases |observers|
  {
    if observers != [] {
      var o, rest, t := observers[0], observers[1..], NextTurn(w, s);
      var u := AfterFirst(w, s, event, o);
      OnlyHandOverEscapes(w, u, event, rest, failed, Passed(w, t, o, remaining));
      OnlyHandOverEscapes(w, u, event, rest, failed, remaining);
      OnlyHandOverEscapes(w, u, event, rest, failed + [o], remaining);
    }
  }

  lemma EmitKeeps(w: World, s: State, event: Event)
    requires Inv(w, s)
    ensures Inv(w, Emit(w, s, event).state)
  {
    EmitKeepsRecord(w, s, event);
    var r := Emit(w, s, event);
    if r.end.Returned? && event.Some? {
      EmitSettles(w, s, event);
    } else if s.published.Some? {
      EmitGrows(w, s, event);
      AllSettledStay(w, s, r.state, s.published);
    }
  }

  lemma EmitKeepsRecord(w: World, s: State, event: Event)
    requires RecordOk(s)
    ensures var r := Emit(w, s, event);
            RecordOk(r.state) && r.state.published == (if r.end.Returned? && event.Some? then event else s.published)
  {
    PublishKeepsRecord(w, s, event, s.active, [], []);
    var r := Publish(w, s, event, s.active, [], []);
    HandOverGrows(w, r.state, event, r.remaining, []);
  }

  lemma {:induction false} InvAfter(w: World, start: seq<Observer>, events: seq<Event>)
    ensures Inv(w, After(w, start, events))
  {
    if events != [] {
      InvAfter(w, start, events[..|events| - 1]);
      EmitKeeps(w, After(w, start, events[..|events| - 1]), events[|events| - 1]);
    }
  }

  /** Over any emits and retries, an observer that took a terminal event is never called
      with it again; so it succeeds at most once with each terminal line. */
  lemma ServedIsNeverCalledAgain(w: World, start: seq<Observer>, events: seq<Event>, i: nat, j: nat)
    requires var calls := After(w, start, events).calls;
             i < j < |calls| && calls[i].ending.Fine? && calls[i].event.Some? && calls[i].event == calls[j].event
    ensures After(w, start, events).calls[i].observer != After(w, start, events).calls[j].observer
  {
    InvAfter(w, start, events);
    var calls := After(w, start, events).calls;
    assert NotRepeated(calls[i], calls[j]);
  }

  /** Whenever an emit of a terminal event returns, whatever came before, every synchronous
      observer still active has taken that event. */
  lemma ReturnMeansServed(w: World, start: seq<Observer>, events: seq<Event>, line: Line, o: Observer)
    requires var r := Emit(w, After(w, start, events), Some(line));
             r.end.Returned? && o in r.state.active && w.synchronous(o)
    ensures Call(Some(line), o, Fine) in Emit(w, After(w, start, events), Some(line)).state.calls
  {
    var s := After(w, start, events);
    InvAfter(w, start, events);
    EmitKeeps(w, s, Some(line));
    EmitSettles(w, s, Some(line));
    var t := Emit(w, s, Some(line)).state;
    assert Settled(w, t, Some(line), o);
    RecordIsSuccess(t.calls, line, o);
  }

  // ----- observers that are left over

  ghost predicate NotServedHere(w: World, s: State, more: seq<Observer>) {
    forall o :: o in more ==> o in s.active && !w.synchronous(o)
  }

  ghost predicate TakesAll(w: World, s: State, observers: seq<Observer>, more: seq<Observer>) {
    forall o :: o in observers && o in s.active && !w.synchronous(o) ==> o in more
  }

  /** What a loop leaves over: observers that are not synchronous, in the order given, and if it
      returns every one of them that is still active. */
  ghost predicate LeavesOver(
    w: World, s: State, observers: seq<Observer>, remaining: seq<Observer>, r: Outcome, more: seq<Observer>)
  {
    && r.remaining == remaining + more && Subsequence(more, observers) && NotServedHere(w, s, more)
    && (r.end.Returned? ==> TakesAll(w, r.state, observers, more))
  }

  /** One turn before such a loop, which passes its observer on or does not. */
  lemma OneMoreTurn(
    w: World, s: State, u: State, observers: seq<Observer>, remaining: seq<Observer>, passed: bool,
    r: Outcome, more: seq<Observer>)
    requires observers != [] && (forall o :: o in u.active ==> o in s.active)
    requires LeavesOver(w, u, observers[1..], if passed then remaining + [observers[0]] else remaining, r, more)
    requires if passed then observers[0] in u.active && !w.synchronous(observers[0])
             else observers[0] in r.state.active ==> w.synchronous(observers[0])
    ensures LeavesOver(w, s, observers, remaining, r, if passed then [observers[0]] + more else more)
  {
    if passed {
      assert ([observers[0]] + more)[1..] == more;
      assert remaining + [observers[0]] + more == remaining + ([observers[0]] + more);
    }
  }

  lemma {:induction false} LoopLeavesOver(
    w: World, s: State, event: Event, observers: seq<Observer>, failed: seq<Observer>,
    remaining: seq<Observer>) returns (more: seq<Observer>)
    ensures LeavesOver(w, s, observers, remaining, Publish(w, s, event, observers, failed, remaining), more)
    decreases |observers|
  {
    more := [];
    if observers != [] {
      var o, rest, t := observers[0], observers[1..], NextTurn(w, s);
      var u, r := AfterFirst(w, s, event, o), Publish(w, s, event, observers, failed, remaining);
      AfterFirstGrows(w, s, event, o);
      if Skipped(w, t, event, o) {
        var passed := o in t.active && !w.synchronous(o);
        PublishGrows(w, u, event, rest, failed, Passed(w, t, o, remaining));
        more := LoopLeavesOver(w, u, event, rest, failed, Passed(w, t, o, remaining));
        OneMoreTurn(w, s, u, observers, remaining, passed, r, more);
        more := if passed then [o] + more else more;
      } else if w.ends(s.turn).Fine? {
        more := LoopLeavesOver(w, u, event, rest, failed, remaining);
        OneMoreTurn(w, s, u, observers, remaining, false, r, more);
      } else if w.ends(s.turn).Fault? && !w.required(o) {
        more := LoopLeavesOver(w, u, event, rest, failed + [o], remaining);
        OneMoreTurn(w, s, u, observers, remaining, false, r, more);
      }
    }
  }

  lemma EmitRemains(w: World, s: State, event: Event)
    ensures var r := Emit(w, s, event);
            && Subsequence(r.remaining, s.active) && NotServedHere(w, s, r.remaining)
            && (r.end.Returned? && (event.Some? ==> s.published != event) ==> TakesAll(w, r.state, s.active, r.remaining))
  {
    var r := Publish(w, s, event, s.active, [], []);
    var more := LoopLeavesOver(w, s, event, s.active, [], []);
    assert [] + more == more;
    HandOverGrows(w, r.state, event, r.remaining, []);
  }

  /** What an emit hands over: to observers that are not synchronous only, in the order of the
      active ones, and if it publishes and returns to every such observer that is still active. */
  lemma RemainingExactly(w: World, s: State, event: Event, o: Observer)
    ensures Subsequence(Emit(w, s, event).remaining, s.active)
    ensures o in Emit(w, s, event).remaining ==> o in s.active && !w.synchronous(o)
    ensures Emit(w, s, event).end.Returned? && (event.Some? ==> s.published != event)
            && o in Emit(w, s, event).state.active && !w.synchronous(o)
            ==> o in Emit(w, s, event).remaining
  {
    EmitRemains(w, s, event);
    EmitGrows(w, s, event);
  }

  // ----- observers that stay

  /** A loop leaves over no synchronous observer. */
  lemma LeavesOut(w: World, s: State, event: Event, x: Observer)
    requires w.synchronous(x)
    ensures x !in Publish(w, s, event, s.active, [], []).remaining
  {
    var more := LoopLeavesOver(w, s, event, s.active, [], []);
    assert [] + more == more;
  }

  /** Observers that are required and synchronous are never dropped. */
  lemma {:induction false} PublishKeepsSafe(
    w: World, s: State, event: Event, observers: seq<Observer>, failed: seq<Observer>,
    remaining: seq<Observer>, x: Observer)
    requires Safe(w, x) && x in s.active && x !in failed
    ensures x in Publish(w, s, event, observers, failed, remaining).state.active
    decreases |observers|
  {
    if observers != [] {
      var o, rest, t := observers[0], observers[1..], NextTurn(w, s);
      var u := AfterFirst(w, s, event, o);
      if Skipped(w, t, event, o) {
        PublishKeepsSafe(w, u, event, rest, failed, Passed(w, t, o, remaining), x);
      } else if w.ends(s.turn).Fine? {
        PublishKeepsSafe(w, u, event, rest, failed, remaining, x);
      } else if w.ends(s.turn).Fault? && !w.required(o) {
        PublishKeepsSafe(w, u, event, rest, failed + [o], remaining, x);
      }
    }
  }

  lemma {:induction false} HandOverKeepsSafe(w: World, s: State, event: Event, observers: seq<Observer>, failed: seq<Observer>, x: Observer)
    requires Safe(w, x) && x in s.active && x !in failed && x !in observers
    ensures x in HandOver(w, s, event, observers, failed).state.active
    decreases |observers|
  {
    if observers != [] {
      var o, rest, u := observers[0], observers[1..], AfterHanded(w, s, event, observers[0]);
      if o in u.active && w.ends(s.turn).Fault? {
        HandOverKeepsSafe(w, u, event, rest, failed + [o], x);
      } else {
        HandOverKeepsSafe(w, u, event, rest, failed, x);
      }
    }
  }

  lemma EmitKeepsSafe(w: World, s: State, event: Event, x: Observer)
    requires Safe(w, x) && x in s.active
    ensures x in Emit(w, s, event).state.active
  {
    PublishKeepsSafe(w, s, event, s.active, [], [], x);
    LeavesOut(w, s, event, x);
    var r := Publish(w, s, event, s.active, [], []);
    HandOverKeepsSafe(w, r.state, event, r.remaining, [], x);
  }

  /** The loops of the other threads drop none of them either. The ticker runs the synchronous
      loop without an event, and the worker the direct one on observers that some emit or tick,
      in whatever state, handed over. */
  lemma OtherLoopsSpareRequired(w: World, t: State, x: Observer, s: State, event: Event)
    requires w.required(x) && w.synchronous(x) && x in t.active
    ensures x in Publish(w, t, None, t.active, [], []).state.active
    ensures var handed := Publish(w, s, event, s.active, [], []).remaining;
            x !in handed && x in HandOver(w, t, event, handed, []).state.active
  {
    PublishKeepsSafe(w, t, None, t.active, [], [], x);
    LeavesOut(w, s, event, x);
    HandOverKeepsSafe(w, t, event, Publish(w, s, event, s.active, [], []).remaining, [], x);
  }

  lemma {:induction false} RequiredStaysActive(w: World, start: seq<Observer>, events: seq<Event>, x: Observer)
    requires w.required(x) && w.synchronous(x) && x in start
    ensures x in After(w, start, events).active
  {
    if events != [] {
      RequiredStaysActive(w, start, events[..|events| - 1], x);
      EmitKeepsSafe(w, After(w, start, events[..|events| - 1]), events[|events| - 1], x);
    }
  }

  // ----- emits that raise

  /** The observer called last. */
  function Blamed(s: State): Observer {
    if s.calls == [] then 0 else s.calls[|s.calls| - 1].observer
  }

  /** The loop ended with a call that failed for a required observer or that escaped; the
      observer is synchronous, still active, and still without the event. */
  ghost predicate EndsInFailure(w: World, s: State, event: Event, end: End) {
    && s.calls != [] && s.calls[|s.calls| - 1] == Call(event, Blamed(s), if end.CallEscaped? then Escape else Fault)
    && (end.RequiredFailed? ==> w.required(Blamed(s)))
    && w.synchronous(Blamed(s)) && Blamed(s) in s.active && !Served(s, event, Blamed(s))
  }

  lemma {:induction false} RaiseEndsInFailure(
    w: World, s: State, event: Event, observers: seq<Observer>, failed: seq<Observer>,
    remaining: seq<Observer>)
    requires forall o :: o in failed ==> !w.required(o)
    ensures var r := Publish(w, s, event, observers, failed, remaining);
            !r.end.Returned? ==> EndsInFailure(w, r.state, event, r.end)
    decreases |observers|
  {
    if observers != [] {
      var o, rest, t := observers[0], observers[1..], NextTurn(w, s);
      var u := AfterFirst(w, s, event, o);
      if Skipped(w, t, event, o) {
        RaiseEndsInFailure(w, u, event, rest, failed, Passed(w, t, o, remaining));
      } else if w.ends(s.turn).Fine? {
        RaiseEndsInFailure(w, u, event, rest, failed, remaining);
      } else if w.ends(s.turn).Fault? && !w.required(o) {
        RaiseEndsInFailure(w, u, event, rest, failed + [o], remaining);
      }
    }
  }

  /** How the last turn of a loop went, if the loop raised. */
  ghost predicate LastTurn(w: World, r: Outcome) {
    !r.end.Returned? ==> r.state.turn > 0
                         && w.ends(r.state.turn - 1) == (if r.end.RequiredFailed? then Fault else Escape)
  }

  lemma {:induction false} PublishLastTurn(
    w: World, s: State, event: Event, observers: seq<Observer>, failed: seq<Observer>,
    remaining: seq<Observer>)
    ensures LastTurn(w, Publish(w, s, event, observers, failed, remaining))
    decreases |observers|
  {
    if observers != [] {
      var o, rest, t := observers[0], observers[1..], NextTurn(w, s);
      var u := AfterFirst(w, s, event, o);
      if Skipped(w, t, event, o) {
        PublishLastTurn(w, u, event, rest, failed, Passed(w, t, o, remaining));
      } else if w.ends(s.turn).Fine? {
        PublishLastTurn(w, u, event, rest, failed, remaining);
      } else if w.ends(s.turn).Fault? && !w.required(o) {
        PublishLastTurn(w, u, event, rest, failed + [o], remaining);
      }
    }
  }

  lemma {:induction false} HandOverLastTurn(w: World, s: State, event: Event, observers: seq<Observer>, failed: seq<Observer>)
    ensures LastTurn(w, HandOver(w, s, event, observers, failed))
    decreases |observers|
  {
    if observers != [] {
      var o, rest, u, r := observers[0], observers[1..], AfterHanded(w, s, event, observers[0]), HandOver(w, s, event, observers, failed);
      if o !in u.active || w.ends(s.turn).Fine? {
        assert r == HandOver(w, u, event, rest, failed);
        HandOverLastTurn(w, u, event, rest, failed);
      } else if w.ends(s.turn).Fault? {
        assert r == HandOver(w, u, event, rest, failed + [o]);
        HandOverLastTurn(w, u, event, rest, failed + [o]);
      } else {
        assert r == Outcome(u, HandOverEscaped, []) && u.turn == s.turn + 1;
      }
    }
  }

  /** An emit that raises does so for a required observer that failed exactly when no exception
      escaped: the callback at its last turn ended with an error. Otherwise that callback ended
      with an exception outside `Exception`, whichever observer it belonged to. */
  lemma RaisesForRequiredIff(w: World, s: State, event: Event)
    requires !Emit(w, s, event).end.Returned?
    ensures var r := Emit(w, s, event);
            r.state.turn > 0
            && (r.end.RequiredFailed? <==> w.ends(r.state.turn - 1) == Fault)
            && (!r.end.RequiredFailed? <==> w.ends(r.state.turn - 1) == Escape)
    ensures var r := Emit(w, s, event);
            !r.end.HandOverEscaped? ==> EndsInFailure(w, r.state, event, r.end)
    ensures Emit(w, s, event).end.HandOverEscaped? ==> !w.hasWorker
  {
    EmitLastTurn(w, s, event);
    EmitBlames(w, s, event);
  }

  lemma EmitLastTurn(w: World, s: State, event: Event)
    ensures LastTurn(w, Emit(w, s, event))
  {
    var r := Publish(w, s, event, s.active, [], []);
    PublishLastTurn(w, s, event, s.active, [], []);
    HandOverLastTurn(w, r.state, event, r.remaining, []);
  }

  lemma EmitBlames(w: World, s: State, event: Event)
    ensures var r := Emit(w, s, event);
            r.end.RequiredFailed? || r.end.CallEscaped? ==> EndsInFailure(w, r.state, event, r.end)
    ensures Emit(w, s, event).end.HandOverEscaped? ==> !w.hasWorker
  {
    var r := Publish(w, s, event, s.active, [], []);
    OnlyHandOverEscapes(w, s, event, s.active, [], []);
    RaiseEndsInFailure(w, s, event, s.active, [], []);
    OnlyHandOver(w, r.state, event, r.remaining, []);
  }

  lemma {:induction false} OnlyHandOver(w: World, s: State, event: Event, observers: seq<Observer>, failed: seq<Observer>)
    ensures var end := HandOver(w, s, event, observers, failed).end; end.Returned? || end.HandOverEscaped?
    decreases |observers|
  {
    if observers != [] {
      var o, rest, u := observers[0], observers[1..], AfterHanded(w, s, event, observers[0]);
      if o in u.active && w.ends(s.turn).Fault? {
        OnlyHandOver(w, u, event, rest, failed + [o]);
      } else {
        OnlyHandOver(w, u, event, rest, failed);
      }
    }
  }

  /** An optional observer can make an emit raise, when its callback ends with an exception that
      escapes; it then stays active and nothing is recorded. */
  lemma OptionalCanRaise(line: Line, o: Observer) returns (w: World)
    ensures w.synchronous(o) && !w.required(o)
    ensures var r := Emit(w, After(w, [o], []), Some(line));
            r.end.CallEscaped? && r.state.active == [o] && r.state.delivered == [] && r.state.published == None
  {
    w := World(_ => true, _ => false, true, _ => Escape, _ => {});
    var s := After(w, [o], []);
    var t := NextTurn(w, s);
    assert (set x | x in w.disabled(0) && !Safe(w, x)) == {};
    assert [o][..0] == [] && Without([o], {}) == [o];
    assert t.active == [o];
    assert Publish(w, s, Some(line), [o], [], []) == Outcome(Called(t, Some(line), o, Escape), CallEscaped, []);
  }

  // ----- repeated emits

  /** The states that the emits go through. */
  datatype Trace = Trace(start: seq<Observer>, events: seq<Event>, states: seq<State>) {
    ghost predicate Valid(w: World) {
      && |states| == |events| + 1 && states[0] == After(w, start, [])
      && forall k {:trigger Emits(w, k)} :: 0 <= k < |events| ==> Emits(w, k)
    }

    ghost predicate Emits(w: World, k: nat)
      requires k < |events| && |states| == |events| + 1
    {
      states[k + 1] == Emit(w, states[k], events[k]).state
    }
  }

  lemma {:induction false} TraceIsAfter(w: World, trace: Trace, k: nat)
    requires trace.Valid(w) && k < |trace.states|
    ensures trace.states[k] == After(w, trace.start, trace.events[..k])
  {
    var events := trace.events;
    if k == 0 {
      assert events[..0] == [];
    } else {
      TraceIsAfter(w, trace, k - 1);
      assert trace.Emits(w, k - 1);
      assert events[..k][..k - 1] == events[..k - 1] && events[..k][k - 1] == events[k - 1];
    }
  }

  /** Only an emit of a terminal event that returns changes the published line. */
  lemma PublishedNext(w: World, trace: Trace, k: nat)
    requires trace.Valid(w) && k < |trace.events|
    ensures trace.states[k + 1].published
            == if Emit(w, trace.states[k], trace.events[k]).end.Returned? && trace.events[k].Some?
               then trace.events[k] else trace.states[k].published
  {
    TraceIsAfter(w, trace, k);
    InvAfter(w, trace.start, trace.events[..k]);
    assert trace.Emits(w, k);
    EmitKeepsRecord(w, trace.states[k], trace.events[k]);
  }

  ghost predicate SameOrNone(events: seq<Event>, i: nat, j: nat)
    requires i < |events| && j <= |events|
  {
    forall m {:trigger events[m]} :: i < m < j ==> events[m] == None || events[m] == events[i]
  }

  lemma LineFollows(w: World, trace: Trace, k: nat)
    requires trace.Valid(w) && k < |trace.events|
    ensures trace.states[k + 1].published == trace.states[k].published
            || (trace.events[k].Some? && trace.states[k + 1].published == trace.events[k])
  {
    PublishedNext(w, trace, k);
  }

  /** From an emit of a terminal event that returned up to the next other terminal event, the
      published line stays. */
  lemma {:induction false} PublishedStays(w: World, trace: Trace, i: nat, j: nat)
    requires trace.Valid(w) && i < j <= |trace.events| && SameOrNone(trace.events, i, j)
    requires trace.states[i + 1].published == trace.events[i]
    ensures trace.states[j].published == trace.events[i]
    decreases j
  {
    if i + 1 < j {
      PublishedStays(w, trace, i, j - 1);
      LineFollows(w, trace, j - 1);
      assert trace.events[j - 1] == None || trace.events[j - 1] == trace.events[i];
    }
  }

  /** A terminal event whose emit returned does nothing when it is emitted again: nobody is
      called and nothing is handed over, unless another terminal event came in between. */
  lemma RepeatedEmitDoesNothing(w: World, trace: Trace, i: nat, j: nat)
    requires trace.Valid(w) && i < j < |trace.events|
    requires trace.events[i].Some? && trace.events[j] == trace.events[i] && SameOrNone(trace.events, i, j)
    requires Emit(w, trace.states[i], trace.events[i]).end.Returned?
    ensures trace.states[j + 1] == trace.states[j]
    ensures var again := Emit(w, trace.states[j], trace.events[j]); again.end.Returned? && again.remaining == []
  {
    PublishedNext(w, trace, i);
    PublishedStays(w, trace, i, j);
    assert trace.Emits(w, j);
  }

  // ----- the hub

  class Hub {
    const world: World
    /** The queue of the delivery worker, if there is one. */
    const deliveries: Q.Deliveries
    var activeObservers: seq<Observer>
    var terminalDeliveries: seq<Delivery>
    var publishedLine: Event
    /** The turns taken and the calls made; the hub decides nothing by them. */
    var turn: nat
    ghost var calls: seq<Call>
    ghost var direct: seq<Call>

    ghost function View(): State
      reads this
    {
      State(activeObservers, terminalDeliveries, publishedLine, turn, calls, direct)
    }

    constructor (world: World, started: seq<Observer>)
      ensures this.world == world && View() == After(world, started, [])
      ensures fresh(deliveries) && deliveries.Valid() && deliveries.Contents() == Q.Run([])
    {
      this.world, activeObservers := world, started;
      deliveries := new Q.Deliveries();
      terminalDeliveries, publishedLine, turn, calls, direct := [], None, 0, [], [];
    }

    method DisableObservers(failed: seq<Observer>)
      modifies this
      ensures View() == Disabled(old(View()), failed)
    {
      activeObservers := Without(activeObservers, Members(failed));
    }

    /** What the other threads do before the loop's next turn. */
    method Meanwhile()
      modifies this
      ensures View() == NextTurn(world, old(View()))
    {
      var gone := set o | o in world.disabled(turn) && !Safe(world, o);
      activeObservers, turn := Without(activeObservers, gone), turn + 1;
    }

    /** One call of a synchronous observer; a success with a terminal event goes on record. */
    method Deliver(event: Event, o: Observer, ending: Ending)
      modifies this
      ensures View() == Called(old(View()), event, o, ending)
    {
      calls := calls + [Call(event, o, ending)];
      if ending.Fine? && event.Some? {
        terminalDeliveries := terminalDeliveries + [Delivery(event.value, o)];
      }
    }

    method PublishSynchronousSnapshot(event: Event, observers: seq<Observer>)
      returns (end: End, remaining: seq<Observer>)
      modifies this
      ensures Outcome(View(), end, remaining) == Publish(world, old(View()), event, observers, [], [])
      ensures Subsequence(remaining, observers)
      ensures forall o :: o in remaining ==> o in old(activeObservers) && !world.synchronous(o)
      ensures end.Returned?
              ==> forall o :: o in observers && o in activeObservers && !world.synchronous(o) ==> o in remaining
    {
      ghost var over := LoopLeavesOver(world, View(), event, observers, [], []);
      assert [] + over == over;
      var failed: seq<Observer> := [];
      remaining := [];
      var i := 0;
      while i < |observers|
        invariant i <= |observers|
        invariant Publish(world, old(View()), event, observers, [], [])
                  == Publish(world, View(), event, observers[i..], failed, remaining)
      {
        var o, before := observers[i], turn;
        assert observers[i..][0] == o && observers[i..][1..] == observers[i + 1..];
        i := i + 1;
        Meanwhile();
        if o !in activeObservers {
          continue;
        }
        if !world.synchronous(o) {
          remaining := remaining + [o];
          continue;
        }
        if event.Some? && Delivery(event.value, o) in terminalDeliveries {
          continue;
        }
        var ending := world.ends(before);
        Deliver(event, o, ending);
        if ending.Escape? {
          return CallEscaped, remaining;
        }
        if ending.Fault? {
          if world.required(o) {
            DisableObservers(failed);
            return RequiredFailed, remaining;
          }
          failed := failed + [o];
        }
      }
      DisableObservers(failed);
      return Returned, remaining;
    }

    /** The hub's own delivery to observers that are not synchronous. */
    method PublishSnapshot(event: Event, observers: seq<Observer>) returns (end: End)
      modifies this
      ensures Outcome(View(), end, []) == HandOver(world, old(View()), event, observers, [])
    {
      var failed: seq<Observer> := [];
      var i := 0;
      while i < |observers|
        invariant i <= |observers|
        invariant HandOver(world, old(View()), event, observers, []) == HandOver(world, View(), event, observers[i..], failed)
      {
        var o, before := observers[i], turn;
        assert observers[i..][0] == o && observers[i..][1..] == observers[i + 1..];
        i := i + 1;
        Meanwhile();
        if o !in activeObservers {
          continue;
        }
        direct := direct + [Call(event, o, world.ends(before))];
        match world.ends(before)
        case Fine =>
        case Fault => failed := failed + [o];
        case Escape => return HandOverEscaped;
      }
      DisableObservers(failed);
      return Returned;
    }

    /** `emit` of the event numbered `id`, with its snapshot. */
    method EmitEvent(event: Event, id: nat, snapshot: nat) returns (end: End, remaining: seq<Observer>)
      requires deliveries.Valid()
      modifies this, deliveries
      ensures Outcome(View(), end, remaining) == Emit(world, old(View()), event)
      ensures deliveries.Valid()
      ensures deliveries.accepted
              == old(deliveries.accepted)
                 + if world.hasWorker && end.Returned? && remaining != [] then [Q.Carrying(id, snapshot, remaining)] else []
      ensures Subsequence(remaining, old(activeObservers))
      ensures forall o :: o in remaining ==> o in old(activeObservers) && !world.synchronous(o)
      ensures end.Returned? && (event.Some? ==> old(publishedLine) != event)
              ==> forall o :: o in activeObservers && !world.synchronous(o) ==> o in remaining
      ensures !(world.hasWorker && end.Returned? && remaining != [])
              ==> deliveries.Contents() == old(deliveries.Contents())
    {
      EmitRemains(world, View(), event);
      EmitGrows(world, View(), event);
      if event.Some? && publishedLine == event {
        return Returned, [];
      }
      end, remaining := PublishSynchronousSnapshot(event, activeObservers);
      if !end.Returned? {
        return;
      }
      if remaining != [] {
        if world.hasWorker {
          var _ := deliveries.EnqueueSnapshot(Q.Carrying(id, snapshot, remaining));
        } else {
          end := PublishSnapshot(event, remaining);
          if !end.Returned? {
            return;
          }
        }
      }
      if event.Some? {
        publishedLine := event;
      }
    }
  }
}
