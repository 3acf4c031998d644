/**
 * Who is called by an emit, and by the emit after one that raised: the observers that were
 * served are skipped, and the one that made the first emit raise is called again.
 */
module TerminalRetries {
  import opened Results
  import opened Collections
  import opened TerminalDelivery

  /** Between the two states observer `o` was called with the event. */
  ghost predicate CalledWith(s: State, t: State, event: Event, o: Observer) {
    exists k {:trigger t.calls[k]} :: |s.calls| <= k < |t.calls| && t.calls[k].event == event && t.calls[k].observer == o
  }

  /** The first call between the two states is one of `o` with the event. */
  ghost predicate CalledFirst(s: State, t: State, event: Event, o: Observer) {
    && s.calls <= t.calls && |s.calls| < |t.calls|
    && t.calls[|s.calls|].event == event && t.calls[|s.calls|].observer == o
  }

  lemma SkippedStays(w: World, s: State, t: State, event: Event, o: Observer)
    requires Skipped(w, s, event, o) && Grows(s, t)
    ensures Skipped(w, t, event, o)
  {
  }

  // ----- an emit that returns has called everyone

  /** Observers that failed in a loop are disabled when it returns or raises for a required one. */
  lemma {:induction false} FailedIsGone(
    w: World, s: State, event: Event, observers: seq<Observer>, failed: seq<Observer>,
    remaining: seq<Observer>, x: Observer)
    requires x in failed
    ensures var r := Publish(w, s, event, observers, failed, remaining);
            r.end.CallEscaped? || x !in r.state.active
    decreases |observers|
  {
    if observers != [] {
      var o, rest, t := observers[0], observers[1..], NextTurn(w, s);
      var u := AfterFirst(w, s, event, o);
      if Skipped(w, t, event, o) {
        FailedIsGone(w, u, event, rest, failed, Passed(w, t, o, remaining), x);
      } else if w.ends(s.turn).Fine? {
        FailedIsGone(w, u, event, rest, failed, remaining, x);
      } else if w.ends(s.turn).Fault? && !w.required(o) {
        FailedIsGone(w, u, event, rest, failed + [o], remaining, x);
      }
    }
  }

  /** The rest of a loop keeps a call that was made. */
  lemma CallStays(s: State, u: State, t: State, event: Event, x: Observer)
    requires u.calls == s.calls + [Call(event, x, Fine)] && Grows(u, t)
    ensures Since(s.calls, t.calls, Call(event, x, Fine))
  {
    assert t.calls[|s.calls|] == Call(event, x, Fine);
  }

  lemma SinceEarlier(s: State, u: State, t: State, c: Call)
    requires s.calls <= u.calls && Since(u.calls, t.calls, c)
    ensures Since(s.calls, t.calls, c)
  {
    var k :| |u.calls| <= k < |t.calls| && t.calls[k] == c;
    assert t.calls[k] == c;
  }

  lemma {:induction false} PublishCalls(
    w: World, s: State, event: Event, observers: seq<Observer>, failed: seq<Observer>,
    remaining: seq<Observer>, x: Observer)
    requires Publish(w, s, event, observers, failed, remaining).end.Returned?
    requires x in observers && w.synchronous(x) && !Served(s, event, x)
    requires x in Publish(w, s, event, observers, failed, remaining).state.active
    ensures Since(s.calls, Publish(w, s, event, observers, failed, remaining).state.calls, Call(event, x, Fine))
    decreases |observers|
  {
    var o, rest, t := observers[0], observers[1..], NextTurn(w, s);
    var u, final := AfterFirst(w, s, event, o), Publish(w, s, event, observers, failed, remaining).state;
    if Skipped(w, t, event, o) {
      PublishGrows(w, t, event, rest, failed, Passed(w, t, o, remaining));
      PublishCalls(w, t, event, rest, failed, Passed(w, t, o, remaining), x);
    } else if w.ends(s.turn).Fine? {
      PublishGrows(w, u, event, rest, failed, remaining);
      if o == x {
        CallStays(s, u, final, event, x);
      } else {
        PublishCalls(w, u, event, rest, failed, remaining, x);
        SinceEarlier(s, u, final, Call(event, x, Fine));
      }
    } else {
      FailedIsGone(w, u, event, rest, failed + [o], remaining, o);
      PublishCalls(w, u, event, rest, failed + [o], remaining, x);
      SinceEarlier(s, u, final, Call(event, x, Fine));
    }
  }

  /** An emit that returns has called, with success, every synchronous observer that is still
      active and did not have the event: with an event that is not terminal, all of them. */
  lemma ReturnMeansCalled(w: World, s: State, event: Event, x: Observer)
    requires Emit(w, s, event).end.Returned? && (event.Some? ==> s.published != event)
    requires w.synchronous(x) && x in Emit(w, s, event).state.active && !Served(s, event, x)
    ensures Since(s.calls, Emit(w, s, event).state.calls, Call(event, x, Fine))
  {
    var r := Publish(w, s, event, s.active, [], []);
    PublishGrows(w, s, event, s.active, [], []);
    HandOverGrows(w, r.state, event, r.remaining, []);
    PublishCalls(w, s, event, s.active, [], [], x);
  }

  // ----- the order of the active observers

  lemma {:induction false} WithoutConcat(a: seq<Observer>, b: seq<Observer>, gone: set<Observer>)
    ensures Without(a + b, gone) == Without(a, gone) + Without(b, gone)
  {
    if b == [] {
      assert a + b == a;
    } else {
      var n := |b| - 1;
      WithoutConcat(a, b[..n], gone);
      assert (a + b)[..|a + b| - 1] == a + b[..n] && (a + b)[|a + b| - 1] == b[n];
    }
  }

  lemma {:induction false} WithoutTwice(a: seq<Observer>, gone: set<Observer>, more: set<Observer>)
    ensures Without(Without(a, gone), more) == Without(a, gone + more)
  {
    if a != [] {
      var n := |a| - 1;
      WithoutTwice(a[..n], gone, more);
      var last := if a[n] in gone then [] else [a[n]];
      WithoutConcat(Without(a[..n], gone), last, more);
      assert a[n] !in gone ==> last[..0] == [];
    }
  }

  /** A loop removes observers and moves none. */
  lemma {:induction false} PublishRemoves(
    w: World, s: State, event: Event, observers: seq<Observer>, failed: seq<Observer>,
    remaining: seq<Observer>) returns (gone: set<Observer>)
    ensures Publish(w, s, event, observers, failed, remaining).state.active == Without(s.active, gone)
    decreases |observers|
  {
    if observers == [] {
      gone := Members(failed);
    } else {
      var o, rest, t := observers[0], observers[1..], NextTurn(w, s);
      var u := AfterFirst(w, s, event, o);
      var now := set x | x in w.disabled(s.turn) && !Safe(w, x);
      assert u.active == Without(s.active, now);
      if Skipped(w, t, event, o) {
        gone := PublishRemoves(w, u, event, rest, failed, Passed(w, t, o, remaining));
        WithoutTwice(s.active, now, gone);
        gone := now + gone;
      } else if w.ends(s.turn).Fine? {
        gone := PublishRemoves(w, u, event, rest, failed, remaining);
        WithoutTwice(s.active, now, gone);
        gone := now + gone;
      } else if w.ends(s.turn).Escape? {
        gone := now;
      } else if w.required(o) {
        WithoutTwice(s.active, now, Members(failed));
        gone := now + Members(failed);
      } else {
        gone := PublishRemoves(w, u, event, rest, failed + [o], remaining);
        WithoutTwice(s.active, now, gone);
        gone := now + gone;
      }
    }
  }

  // ----- who comes before the observer that made a loop raise

  /** Everyone listed before `x` is skipped in state `s` or, unless `strict`, is optional. */
  predicate LeadsTo(w: World, s: State, event: Event, observers: seq<Observer>, x: Observer, strict: bool) {
    observers != []
    && (observers[0] == x
        || ((Skipped(w, s, event, observers[0]) || (!strict && !w.required(observers[0])))
            && LeadsTo(w, s, event, observers[1..], x, strict)))
  }

  lemma {:induction false} LeadsLater(
    w: World, s: State, t: State, event: Event, observers: seq<Observer>, x: Observer, strict: bool)
    requires LeadsTo(w, s, event, observers, x, strict) && Grows(s, t)
    ensures LeadsTo(w, t, event, observers, x, strict)
  {
    if observers[0] != x {
      if Skipped(w, s, event, observers[0]) {
        SkippedStays(w, s, t, event, observers[0]);
      }
      LeadsLater(w, s, t, event, observers[1..], x, strict);
    }
  }

  /** The condition concerns the order only, so removing others keeps it. */
  lemma {:induction false} LeadsWithout(
    w: World, s: State, event: Event, observers: seq<Observer>, gone: set<Observer>, x: Observer, strict: bool)
    requires LeadsTo(w, s, event, observers, x, strict) && x !in gone
    ensures LeadsTo(w, s, event, Without(observers, gone), x, strict)
  {
    var o, rest := observers[0], observers[1..];
    assert observers == [o] + rest;
    WithoutConcat([o], rest, gone);
    assert [o][..0] == [];
    if o != x {
      LeadsWithout(w, s, event, rest, gone, x, strict);
    }
    if o !in gone {
      assert ([o] + Without(rest, gone))[1..] == Without(rest, gone);
    } else {
      assert [] + Without(rest, gone) == Without(rest, gone);
    }
  }

  /** When a loop raises, those it passed before the observer to blame are served, disabled,
      inactive or not synchronous; where the exception escaped, those that failed in the loop are
      not disabled, but they are optional. */
  lemma {:induction false} PassedAreSkipped(
    w: World, s: State, event: Event, observers: seq<Observer>, failed: seq<Observer>,
    remaining: seq<Observer>)
    requires event.Some? && !Publish(w, s, event, observers, failed, remaining).end.Returned?
    ensures var r := Publish(w, s, event, observers, failed, remaining);
            LeadsTo(w, r.state, event, observers, Blamed(r.state), r.end.RequiredFailed?)
    decreases |observers|
  {
    var o, rest, t := observers[0], observers[1..], NextTurn(w, s);
    var u, final := AfterFirst(w, s, event, o), Publish(w, s, event, observers, failed, remaining).state;
    if Skipped(w, t, event, o) {
      PassedAreSkipped(w, u, event, rest, failed, Passed(w, t, o, remaining));
      PublishGrows(w, u, event, rest, failed, Passed(w, t, o, remaining));
      SkippedStays(w, u, final, event, o);
    } else if w.ends(s.turn).Fine? {
      PassedAreSkipped(w, u, event, rest, failed, remaining);
      PublishGrows(w, u, event, rest, failed, remaining);
      SkippedStays(w, u, final, event, o);
    } else if w.ends(s.turn).Fault? && !w.required(o) {
      PassedAreSkipped(w, u, event, rest, failed + [o], remaining);
      FailedIsGone(w, u, event, rest, failed + [o], remaining, o);
      OnlyHandOverEscapes(w, s, event, observers, failed, remaining);
    }
  }

  /** Seen from the state that is left, the active observers lead to the one to blame. */
  lemma ActiveLeadToBlamed(w: World, s: State, event: Event)
    requires event.Some? && !Publish(w, s, event, s.active, [], []).end.Returned?
    ensures var r := Publish(w, s, event, s.active, [], []);
            LeadsTo(w, r.state, event, r.state.active, Blamed(r.state), r.end.RequiredFailed?)
  {
    var r := Publish(w, s, event, s.active, [], []);
    PassedAreSkipped(w, s, event, s.active, [], []);
    RaiseEndsInFailure(w, s, event, s.active, [], []);
    var gone := PublishRemoves(w, s, event, s.active, [], []);
    LeadsWithout(w, r.state, event, s.active, gone, Blamed(r.state), r.end.RequiredFailed?);
  }

  // ----- the next loop

  lemma HeadIsCalled(
    w: World, s: State, event: Event, observers: seq<Observer>, failed: seq<Observer>,
    remaining: seq<Observer>, x: Observer)
    requires observers != [] && observers[0] == x && !Skipped(w, NextTurn(w, s), event, x)
    ensures CalledFirst(s, Publish(w, s, event, observers, failed, remaining).state, event, x)
  {
    var rest, u := observers[1..], AfterFirst(w, s, event, x);
    assert u.calls == s.calls + [Call(event, x, w.ends(s.turn))];
    if w.ends(s.turn).Fine? {
      PublishGrows(w, u, event, rest, failed, remaining);
    } else if w.ends(s.turn).Fault? && !w.required(x) {
      PublishGrows(w, u, event, rest, failed + [x], remaining);
    }
  }

  /** A loop over skipped observers followed by a required one makes its first call to that one. */
  lemma {:induction false} FirstCall(
    w: World, s: State, event: Event, observers: seq<Observer>, failed: seq<Observer>,
    remaining: seq<Observer>, x: Observer)
    requires LeadsTo(w, s, event, observers, x, true)
    requires Safe(w, x) && x in s.active && !Served(s, event, x)
    ensures CalledFirst(s, Publish(w, s, event, observers, failed, remaining).state, event, x)
    decreases |observers|
  {
    var o, rest, t := observers[0], observers[1..], NextTurn(w, s);
    if o == x {
      HeadIsCalled(w, s, event, observers, failed, remaining, x);
    } else {
      SkippedStays(w, s, t, event, o);
      LeadsLater(w, s, t, event, rest, x, true);
      FirstCall(w, t, event, rest, failed, Passed(w, t, o, remaining), x);
    }
  }

  /** How a loop comes to `x`: it calls it, or finds it disabled, or an exception of an optional
      observer before it escapes. */
  ghost predicate Comes(w: World, s: State, r: Outcome, event: Event, x: Observer) {
    || CalledWith(s, r.state, event, x)
    || x !in r.state.active
    || (r.end.CallEscaped? && Blamed(r.state) != x && !w.required(Blamed(r.state)))
  }

  lemma ComesEarlier(w: World, s: State, u: State, r: Outcome, event: Event, x: Observer)
    requires s.calls <= u.calls && Comes(w, u, r, event, x)
    ensures Comes(w, s, r, event, x)
  {
    if CalledWith(u, r.state, event, x) {
      var k :| |u.calls| <= k < |r.state.calls| && r.state.calls[k].event == event && r.state.calls[k].observer == x;
      assert r.state.calls[k].observer == x;
    }
  }

  /** A loop whose list leads to `x` comes to it. */
  lemma {:induction false} PublishComes(
    w: World, s: State, event: Event, observers: seq<Observer>, failed: seq<Observer>,
    remaining: seq<Observer>, x: Observer)
    requires LeadsTo(w, s, event, observers, x, false) && w.synchronous(x) && !Served(s, event, x)
    ensures Comes(w, s, Publish(w, s, event, observers, failed, remaining), event, x)
    decreases |observers|
  {
    var o, rest, t := observers[0], observers[1..], NextTurn(w, s);
    var u, r := AfterFirst(w, s, event, o), Publish(w, s, event, observers, failed, remaining);
    AfterFirstGrows(w, s, event, o);
    PublishGrows(w, s, event, observers, failed, remaining);
    if o == x {
      if Skipped(w, t, event, x) {
        PublishGrows(w, t, event, rest, failed, Passed(w, t, o, remaining));
      } else {
        HeadIsCalled(w, s, event, observers, failed, remaining, x);
        assert r.state.calls[|s.calls|].observer == x;
      }
    } else {
      LeadsLater(w, s, u, event, rest, x, false);
      if Skipped(w, s, event, o) {
        SkippedStays(w, s, t, event, o);
      }
      if Skipped(w, t, event, o) {
        PublishComes(w, u, event, rest, failed, Passed(w, t, o, remaining), x);
        ComesEarlier(w, s, u, r, event, x);
      } else if w.ends(s.turn).Fine? {
        PublishComes(w, u, event, rest, failed, remaining, x);
        ComesEarlier(w, s, u, r, event, x);
      } else if w.ends(s.turn).Fault? {
        PublishComes(w, u, event, rest, failed + [o], remaining, x);
        ComesEarlier(w, s, u, r, event, x);
      }
    }
  }

  // ----- the next emit

  /** What an emit of a terminal event that raised leaves for the next one. */
  lemma RaisedEmit(w: World, start: seq<Observer>, events: seq<Event>, line: Line) returns (s: State)
    requires var end := Emit(w, After(w, start, events), Some(line)).end; end.RequiredFailed? || end.CallEscaped?
    ensures var r := Emit(w, After(w, start, events), Some(line));
            && s == r.state && s.published != Some(line) && EndsInFailure(w, s, Some(line), r.end)
            && LeadsTo(w, s, Some(line), s.active, Blamed(s), r.end.RequiredFailed?)
  {
    var before := After(w, start, events);
    s := Emit(w, before, Some(line)).state;
    InvAfter(w, start, events);
    EmitKeepsRecord(w, before, Some(line));
    EmitBlames(w, before, Some(line));
    RaisedInLoop(w, before, Some(line));
    ActiveLeadToBlamed(w, before, Some(line));
  }

  /** Such an emit ended in its synchronous loop. */
  lemma RaisedInLoop(w: World, s: State, event: Event)
    requires Emit(w, s, event).end.RequiredFailed? || Emit(w, s, event).end.CallEscaped?
    ensures var r := Publish(w, s, event, s.active, [], []);
            Emit(w, s, event) == r && !r.end.Returned? && (event.Some? ==> s.published != event)
  {
    var r := Publish(w, s, event, s.active, [], []);
    OnlyHandOver(w, r.state, event, r.remaining, []);
  }

  /** The calls of an emit are those of its synchronous loop. */
  lemma EmitCalls(w: World, s: State, event: Event)
    requires event.Some? ==> s.published != event
    ensures var r := Publish(w, s, event, s.active, [], []);
            Emit(w, s, event).state.calls == r.state.calls
            && (forall o :: o in Emit(w, s, event).state.active ==> o in r.state.active)
            && (r.end.CallEscaped? ==> Emit(w, s, event) == r)
  {
    var r := Publish(w, s, event, s.active, [], []);
    HandOverGrows(w, r.state, event, r.remaining, []);
  }

  /** A required observer that failed is retried while those already served are skipped: after
      an emit of a terminal event that raised for it, the next emit of that event calls nobody
      before it and calls it, whatever comes of the call; and if that emit returns, it has
      called it with success. */
  lemma FailedIsRetried(w: World, start: seq<Observer>, events: seq<Event>, line: Line)
    requires Emit(w, After(w, start, events), Some(line)).end.RequiredFailed?
    ensures var s := Emit(w, After(w, start, events), Some(line)).state;
            EndsInFailure(w, s, Some(line), RequiredFailed)
            && CalledFirst(s, Emit(w, s, Some(line)).state, Some(line), Blamed(s))
    ensures var s := Emit(w, After(w, start, events), Some(line)).state;
            var again := Emit(w, s, Some(line));
            again.end.Returned? ==> Since(s.calls, again.state.calls, Call(Some(line), Blamed(s), Fine))
  {
    var s := RaisedEmit(w, start, events, line);
    var x, again := Blamed(s), Emit(w, s, Some(line));
    FirstCall(w, s, Some(line), s.active, [], [], x);
    EmitCalls(w, s, Some(line));
    EmitKeepsSafe(w, s, Some(line), x);
    if again.end.Returned? {
      ReturnMeansCalled(w, s, Some(line), x);
    }
  }

  /** After an emit of a terminal event that an escaping exception ended, the next emit of the
      event calls the observer it came from, unless that one is optional and disabled by then or
      an exception of another, optional observer escapes first; and if that emit returns, it has
      called it with success or the observer is gone. */
  lemma EscapedIsRetried(w: World, start: seq<Observer>, events: seq<Event>, line: Line)
    requires Emit(w, After(w, start, events), Some(line)).end.CallEscaped?
    ensures var s := Emit(w, After(w, start, events), Some(line)).state;
            EndsInFailure(w, s, Some(line), CallEscaped) && Comes(w, s, Emit(w, s, Some(line)), Some(line), Blamed(s))
    ensures var s := Emit(w, After(w, start, events), Some(line)).state;
            w.required(Blamed(s)) ==> Blamed(s) in Emit(w, s, Some(line)).state.active
    ensures var s := Emit(w, After(w, start, events), Some(line)).state;
            var again := Emit(w, s, Some(line));
            again.end.Returned? && Blamed(s) in again.state.active
            ==> Since(s.calls, again.state.calls, Call(Some(line), Blamed(s), Fine))
  {
    var s := RaisedEmit(w, start, events, line);
    var x, again := Blamed(s), Emit(w, s, Some(line));
    var r := Publish(w, s, Some(line), s.active, [], []);
    PublishComes(w, s, Some(line), s.active, [], [], x);
    EmitCalls(w, s, Some(line));
    ComesInEmit(w, s, r, again, Some(line), x);
    if w.required(x) {
      EmitKeepsSafe(w, s, Some(line), x);
    }
    if again.end.Returned? && x in again.state.active {
      ReturnMeansCalled(w, s, Some(line), x);
    }
  }

  lemma ComesInEmit(w: World, s: State, r: Outcome, again: Outcome, event: Event, x: Observer)
    requires Comes(w, s, r, event, x) && again.state.calls == r.state.calls
    requires forall o :: o in again.state.active ==> o in r.state.active
    requires r.end.CallEscaped? ==> again == r
    ensures Comes(w, s, again, event, x)
  {
    if CalledWith(s, r.state, event, x) {
      var k :| |s.calls| <= k < |r.state.calls| && r.state.calls[k].event == event && r.state.calls[k].observer == x;
      assert again.state.calls[k].observer == x;
    }
  }
}
