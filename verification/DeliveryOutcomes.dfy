/**
 * What a whole emit comes to: who is called, in which order, and who is still active
 * afterwards. The statements are about the calls made and the turns taken, whatever the other
 * threads disable meanwhile.
 */
module DeliveryOutcomes {
  import opened Results
  import opened Collections
  import opened TerminalDelivery

  /** No other thread may disable, or disables at the turns given, observer `x`. */
  ghost predicate Spared(w: World, x: Observer, from: nat, to: nat) {
    (w.required(x) && w.synchronous(x)) || forall k {:trigger w.disabled(k)} :: from <= k < to ==> x !in w.disabled(k)
  }

  lemma SinceStep(before: seq<Call>, next: seq<Call>, after: seq<Call>, c: Call)
    requires next <= after && (next == before || exists d :: next == before + [d])
    ensures Since(before, after, c) <==> next == before + [c] || Since(next, after, c)
  {
    if next != before {
      assert after[|before|] == next[|before|];
      assert next == before + [next[|before|]];
    }
    if Since(before, after, c) {
      var k :| |before| <= k < |after| && after[k] == c;
      assert after[k] == c;
    }
    if Since(next, after, c) {
      var k :| |next| <= k < |after| && after[k] == c;
      assert after[k] == c;
    }
  }

  lemma TurnSpares(w: World, s: State, x: Observer)
    ensures x in NextTurn(w, s).active <==> x in s.active && Spared(w, x, s.turn, s.turn + 1)
  {
  }

  lemma SparedStep(w: World, x: Observer, from: nat, to: nat)
    requires from < to
    ensures Spared(w, x, from, to) <==> Spared(w, x, from, from + 1) && Spared(w, x, from + 1, to)
  {
  }

  // ----- who stays active

  /** Exactly who is active after a synchronous loop: an observer that was, that no other thread
      disabled meanwhile, and that the loop did not disable. */
  ghost predicate LoopActiveIff(w: World, s: State, event: Event, failed: seq<Observer>, r: Outcome, x: Observer) {
    && s.turn <= r.state.turn && s.calls <= r.state.calls
    && (x in r.state.active
        <==> && x in s.active && Spared(w, x, s.turn, r.state.turn)
             && (r.end.CallEscaped?
                 || (x !in failed && (w.required(x) || !Since(s.calls, r.state.calls, Call(event, x, Fault))))))
  }

  lemma LoopOneTurn(
    w: World, s: State, event: Event, o: Observer, failed: seq<Observer>, r: Outcome, x: Observer)
    requires var t := NextTurn(w, s);
             !Skipped(w, t, event, o) ==> w.ends(s.turn).Fine? || (w.ends(s.turn).Fault? && !w.required(o))
    requires LoopActiveIff(w, AfterFirst(w, s, event, o), event,
                           if !Skipped(w, NextTurn(w, s), event, o) && w.ends(s.turn).Fault? then failed + [o] else failed,
                           r, x)
    ensures LoopActiveIff(w, s, event, failed, r, x)
  {
    var t, u := NextTurn(w, s), AfterFirst(w, s, event, o);
    assert u.turn == s.turn + 1 && u.active == t.active;
    TurnSpares(w, s, x);
    SparedStep(w, x, s.turn, r.state.turn);
    SinceStep(s.calls, u.calls, r.state.calls, Call(event, x, Fault));
  }

  lemma {:induction false} LoopActive(
    w: World, s: State, event: Event, observers: seq<Observer>, failed: seq<Observer>,
    remaining: seq<Observer>, x: Observer)
    ensures LoopActiveIff(w, s, event, failed, Publish(w, s, event, observers, failed, remaining), x)
    decreases |observers|
  {
    if observers != [] {
      var o, rest, t := observers[0], observers[1..], NextTurn(w, s);
      var u, r := AfterFirst(w, s, event, o), Publish(w, s, event, observers, failed, remaining);
      if Skipped(w, t, event, o) {
        LoopActive(w, u, event, rest, failed, Passed(w, t, o, remaining), x);
        LoopOneTurn(w, s, event, o, failed, r, x);
      } else if w.ends(s.turn).Fine? {
        LoopActive(w, u, event, rest, failed, remaining, x);
        LoopOneTurn(w, s, event, o, failed, r, x);
      } else if w.ends(s.turn).Fault? && !w.required(o) {
        LoopActive(w, u, event, rest, failed + [o], remaining, x);
        LoopOneTurn(w, s, event, o, failed, r, x);
      } else {
        TurnSpares(w, s, x);
        SinceStep(s.calls, u.calls, u.calls, Call(event, x, Fault));
      }
    }
  }

  /** The same for the hand-over, which disables every observer that failed in it. */
  ghost predicate HandedActiveIff(w: World, s: State, event: Event, failed: seq<Observer>, r: Outcome, x: Observer) {
    && s.turn <= r.state.turn && s.direct <= r.state.direct
    && (x in r.state.active
        <==> && x in s.active && Spared(w, x, s.turn, r.state.turn)
             && (r.end.HandOverEscaped? || (x !in failed && !Since(s.direct, r.state.direct, Call(event, x, Fault)))))
  }

  lemma HandedOneTurn(
    w: World, s: State, event: Event, o: Observer, failed: seq<Observer>, r: Outcome, x: Observer)
    requires o in NextTurn(w, s).active ==> !w.ends(s.turn).Escape?
    requires HandedActiveIff(w, AfterHanded(w, s, event, o), event,
                             if o in NextTurn(w, s).active && w.ends(s.turn).Fault? then failed + [o] else failed, r, x)
    ensures HandedActiveIff(w, s, event, failed, r, x)
  {
    var t, u := NextTurn(w, s), AfterHanded(w, s, event, o);
    assert u.turn == s.turn + 1 && u.active == t.active;
    TurnSpares(w, s, x);
    SparedStep(w, x, s.turn, r.state.turn);
    SinceStep(s.direct, u.direct, r.state.direct, Call(event, x, Fault));
  }

  lemma {:induction false} HandedActive(
    w: World, s: State, event: Event, observers: seq<Observer>, failed: seq<Observer>, x: Observer)
    ensures HandedActiveIff(w, s, event, failed, HandOver(w, s, event, observers, failed), x)
    decreases |observers|
  {
    if observers != [] {
      var o, rest, t := observers[0], observers[1..], NextTurn(w, s);
      var u, r := AfterHanded(w, s, event, o), HandOver(w, s, event, observers, failed);
      if o in t.active && w.ends(s.turn).Escape? {
        TurnSpares(w, s, x);
        SinceStep(s.direct, u.direct, u.direct, Call(event, x, Fault));
      } else if o in t.active && w.ends(s.turn).Fault? {
        HandedActive(w, u, event, rest, failed + [o], x);
        HandedOneTurn(w, s, event, o, failed, r, x);
      } else {
        HandedActive(w, u, event, rest, failed, x);
        HandedOneTurn(w, s, event, o, failed, r, x);
      }
    }
  }

  /** Exactly who is active after an emit: an observer that was before, that no other thread
      disabled meanwhile, and whose callback did not fail in it. Two failures leave an observer
      active: that of a required synchronous one, and one in a loop that an exception escaped
      from. */
  lemma StaysActiveIff(w: World, s: State, event: Event, x: Observer)
    ensures var r := Emit(w, s, event);
            x in r.state.active
            <==> && x in s.active && Spared(w, x, s.turn, r.state.turn)
                 && (Since(s.calls, r.state.calls, Call(event, x, Fault)) ==> w.required(x) || r.end.CallEscaped?)
                 && (Since(s.direct, r.state.direct, Call(event, x, Fault)) ==> r.end.HandOverEscaped?)
  {
    if event.None? || s.published != event {
      var r := Publish(w, s, event, s.active, [], []);
      LoopActive(w, s, event, s.active, [], [], x);
      PublishGrows(w, s, event, s.active, [], []);
      OnlyHandOverEscapes(w, s, event, s.active, [], []);
      if r.end.Returned? && !w.hasWorker && r.remaining != [] {
        var h := HandOver(w, r.state, event, r.remaining, []);
        HandedActive(w, r.state, event, r.remaining, [], x);
        HandOverGrows(w, r.state, event, r.remaining, []);
        OnlyHandOver(w, r.state, event, r.remaining, []);
        SparedSplit(w, x, s.turn, r.state.turn, h.state.turn);
      }
    }
  }

  lemma SparedSplit(w: World, x: Observer, from: nat, middle: nat, to: nat)
    requires from <= middle <= to
    ensures Spared(w, x, from, to) <==> Spared(w, x, from, middle) && Spared(w, x, middle, to)
  {
  }

  // ----- who is called

  function Observers(calls: seq<Call>): (r: seq<Observer>)
    ensures |r| == |calls| && forall i :: 0 <= i < |calls| ==> r[i] == calls[i].observer
  {
    seq(|calls|, i requires 0 <= i < |calls| => calls[i].observer)
  }

  /** The calls added are calls with the event of some of the observers given, in their order. */
  ghost predicate CallsInOrder(before: seq<Call>, after: seq<Call>, event: Event, observers: seq<Observer>) {
    && before <= after && Subsequence(Observers(after[|before|..]), observers)
    && forall k {:trigger after[k]} :: |before| <= k < |after| ==> after[k].event == event
  }

  lemma OneMoreCall(before: seq<Call>, next: seq<Call>, after: seq<Call>, event: Event, observers: seq<Observer>, ending: Ending)
    requires observers != [] && (next == before || next == before + [Call(event, observers[0], ending)])
    requires CallsInOrder(next, after, event, observers[1..])
    ensures CallsInOrder(before, after, event, observers)
  {
    var all := Observers(after[|before|..]);
    if next == before {
      assert Subsequence(all, observers[1..]);
    } else {
      assert after[|before|] == next[|before|] == Call(event, observers[0], ending);
      assert all[0] == observers[0] && all[1..] == Observers(after[|next|..]);
    }
  }

  lemma NoCall(calls: seq<Call>, event: Event, observers: seq<Observer>)
    ensures CallsInOrder(calls, calls, event, observers)
  {
    assert Observers(calls[|calls|..]) == [];
  }

  lemma {:induction false} LoopCallsInOrder(
    w: World, s: State, event: Event, observers: seq<Observer>, failed: seq<Observer>,
    remaining: seq<Observer>)
    ensures CallsInOrder(s.calls, Publish(w, s, event, observers, failed, remaining).state.calls, event, observers)
    decreases |observers|
  {
    if observers == [] {
      NoCall(s.calls, event, []);
    } else {
      var o, rest, t, ending := observers[0], observers[1..], NextTurn(w, s), w.ends(s.turn);
      var u, r := AfterFirst(w, s, event, o), Publish(w, s, event, observers, failed, remaining);
      if Skipped(w, t, event, o) {
        LoopCallsInOrder(w, u, event, rest, failed, Passed(w, t, o, remaining));
      } else if ending.Fine? {
        LoopCallsInOrder(w, u, event, rest, failed, remaining);
      } else if ending.Fault? && !w.required(o) {
        LoopCallsInOrder(w, u, event, rest, failed + [o], remaining);
      } else {
        NoCall(u.calls, event, rest);
      }
      OneMoreCall(s.calls, u.calls, r.state.calls, event, observers, ending);
    }
  }

  lemma {:induction false} HandedInOrder(
    w: World, s: State, event: Event, observers: seq<Observer>, failed: seq<Observer>)
    ensures CallsInOrder(s.direct, HandOver(w, s, event, observers, failed).state.direct, event, observers)
    decreases |observers|
  {
    if observers == [] {
      NoCall(s.direct, event, []);
    } else {
      var o, rest, t, ending := observers[0], observers[1..], NextTurn(w, s), w.ends(s.turn);
      var u, r := AfterHanded(w, s, event, o), HandOver(w, s, event, observers, failed);
      if o in t.active && ending.Escape? {
        NoCall(u.direct, event, rest);
      } else if o in t.active && ending.Fault? {
        HandedInOrder(w, u, event, rest, failed + [o]);
      } else {
        HandedInOrder(w, u, event, rest, failed);
      }
      OneMoreCall(s.direct, u.direct, r.state.direct, event, observers, ending);
    }
  }

  /** An emit calls with its event only, its observers in the order in which they are active and
      each at most once for each place it has there; with a worker, or where nobody is left over,
      it calls none but synchronous observers itself. */
  lemma EmitCallsInOrder(w: World, s: State, event: Event)
    ensures var r := Emit(w, s, event);
            && CallsInOrder(s.calls, r.state.calls, event, s.active)
            && CallsInOrder(s.direct, r.state.direct, event, r.remaining)
            && (w.hasWorker || r.remaining == [] ==> r.state.direct == s.direct)
  {
    NoCall(s.calls, event, s.active);
    if event.None? || s.published != event {
      var r := Publish(w, s, event, s.active, [], []);
      LoopCallsInOrder(w, s, event, s.active, [], []);
      PublishGrows(w, s, event, s.active, [], []);
      HandedInOrder(w, r.state, event, r.remaining, []);
      HandOverGrows(w, r.state, event, r.remaining, []);
      NoCall(s.direct, event, r.remaining);
    } else {
      NoCall(s.direct, event, []);
    }
  }

  /** A hand-over that returns has called, with success, each of its observers still active. */
  lemma {:induction false} HandedCalls(
    w: World, s: State, event: Event, observers: seq<Observer>, failed: seq<Observer>, x: Observer)
    requires var r := HandOver(w, s, event, observers, failed);
             r.end.Returned? && x in observers && x in r.state.active
    ensures Since(s.direct, HandOver(w, s, event, observers, failed).state.direct, Call(event, x, Fine))
    decreases |observers|
  {
    var o, rest, t := observers[0], observers[1..], NextTurn(w, s);
    var u, r := AfterHanded(w, s, event, o), HandOver(w, s, event, observers, failed);
    HandOverGrows(w, s, event, observers, failed);
    if o in t.active && w.ends(s.turn).Fault? {
      HandOverGrows(w, u, event, rest, failed + [o]);
      HandedActive(w, u, event, rest, failed + [o], x);
      HandedCalls(w, u, event, rest, failed + [o], x);
    } else {
      HandOverGrows(w, u, event, rest, failed);
      if x in rest {
        HandedCalls(w, u, event, rest, failed, x);
      }
    }
    SinceStep(s.direct, u.direct, r.state.direct, Call(event, x, Fine));
  }

  /** Without a worker an emit that publishes and returns has itself called, with success, every
      observer still active that is not synchronous. */
  lemma HandOverMeansCalled(w: World, s: State, event: Event, x: Observer)
    requires !w.hasWorker && (event.Some? ==> s.published != event)
    requires Emit(w, s, event).end.Returned? && x in Emit(w, s, event).state.active && !w.synchronous(x)
    ensures Since(s.direct, Emit(w, s, event).state.direct, Call(event, x, Fine))
  {
    RemainingExactly(w, s, event, x);
    PublishGrows(w, s, event, s.active, [], []);
    var r := Publish(w, s, event, s.active, [], []);
    HandedCalls(w, r.state, event, r.remaining, [], x);
  }
}
