/**
 * Starting one observer on its own thread with a timeout
 * (`start_observer_with_timeout`): every interleaving of the thread that runs
 * `observer.start` and the caller that stops waiting for it.
 */
module ObserverStart {
  import opened Results

  /** How `observer.start` ended. The handlers around the observer's code catch `Exception`, so
      that `SystemExit` escapes; the one around the start of the thread catches `RuntimeError`
      only. */
  datatype Start = NotEnded | Ended(ending: Ending)

  datatype Reason = ThreadFailed | ThreadEscaped | StartFailed | TooSlow | CleanupEscaped

  datatype Answer = True | False | Raises(reason: Reason)

  /** Where the calling thread is: each value names the next thing it does. */
  datatype Caller =
    | StartThread
    | Join
    | TestAlive
    | SetTimedOut
    | TestAliveAgain
    | TestFailureAgain
    | CallerMarks
    | CallerStops
    | ReportTimeout
    | TestFailure
    | Done(result: Answer)

  /** A thread past its last statement is alive until it is `Dead`. */
  datatype Starter =
    | NotStarted
    | InStart
    | RecordFailure
    | NoteLateFailure
    | TestTimedOut
    | StarterMarks
    | StarterStops
    | Leaving
    | Dead

  datatype Capabilities = Capabilities(required: bool, cleansUp: bool)

  /** The shared variables; `marked` is `_CleanupGuard._done`. */
  datatype Shared = Shared(timedOut: bool, failure: bool, marked: bool)

  /** What happened so far; no thread reads it. */
  datatype History = History(start: Start, sawTimeout: bool, sawDead: bool, cleanups: nat, stops: nat)

  datatype State = State(o: Capabilities, caller: Caller, starter: Starter, v: Shared, h: History)

  function Init(o: Capabilities): State {
    State(o, StartThread, NotStarted, Shared(false, false, false), History(NotEnded, false, false, 0, 0))
  }

  /** One step of either thread. The ending is how the observer's code, or the attempt to
      start a thread, turns out; steps that call neither ignore it. */
  datatype Step = CallerStep(ending: Ending) | StarterStep(ending: Ending)

  /** The caller may leave `join` at any time: it returns at the timeout or at thread end. */
  predicate Enabled(s: State, step: Step) {
    match step
    case CallerStep(_) => !s.caller.Done?
    case StarterStep(_) => !s.starter.NotStarted? && !s.starter.Dead?
  }

  function Failing(s: State, reason: Reason): Caller {
    Done(if s.o.required then Raises(reason) else False)
  }

  /** `mark_done` by the thread that finds the guard unmarked. */
  function Marking(s: State): State {
    s.(v := s.v.(marked := true), h := s.h.(cleanups := s.h.cleanups + 1))
  }

  /** `stop_timed_out_observer` */
  function Stopping(s: State): State {
    if s.o.cleansUp then s.(h := s.h.(stops := s.h.stops + 1)) else s
  }

  function CallerNext(s: State, ending: Ending): State {
    match s.caller
    case StartThread =>
      (match ending
       case Fine => s.(caller := Join, starter := InStart)
       case Fault => s.(caller := Failing(s, ThreadFailed))
       case Escape => s.(caller := Done(Raises(ThreadEscaped))))
    case Join => s.(caller := TestAlive)
    case TestAlive => s.(caller := if s.starter == Dead then TestFailure else SetTimedOut)
    case SetTimedOut => s.(v := s.v.(timedOut := true), caller := TestAliveAgain)
    case TestAliveAgain =>
      s.(h := s.h.(sawDead := s.starter == Dead),
         caller := if s.starter == Dead then TestFailureAgain else ReportTimeout)
    case TestFailureAgain => s.(caller := if s.v.failure then ReportTimeout else CallerMarks)
    case CallerMarks =>
      if s.v.marked then s.(caller := ReportTimeout) else Marking(s).(caller := CallerStops)
    case CallerStops =>
      Stopping(s).(caller := if s.o.cleansUp && ending == Escape then Done(Raises(CleanupEscaped))
                             else ReportTimeout)
    case ReportTimeout => s.(caller := Failing(s, TooSlow))
    case TestFailure => s.(caller := if s.v.failure then Failing(s, StartFailed) else Done(True))
    case Done(_) => s
  }

  function AfterStart(ending: Ending): Starter {
    match ending
    case Fine => TestTimedOut
    case Fault => RecordFailure
    case Escape => Leaving
  }

  function StarterNext(s: State, ending: Ending): State {
    match s.starter
    case InStart => s.(h := s.h.(start := Ended(ending)), starter := AfterStart(ending))
    case RecordFailure => s.(v := s.v.(failure := true), starter := NoteLateFailure)
    case NoteLateFailure => s.(starter := Leaving)
    case TestTimedOut =>
      s.(h := s.h.(sawTimeout := s.v.timedOut), starter := if s.v.timedOut then StarterMarks else Leaving)
    case StarterMarks =>
      if s.v.marked then s.(starter := Leaving) else Marking(s).(starter := StarterStops)
    case StarterStops => Stopping(s).(starter := Leaving)
    case Leaving => s.(starter := Dead)
    case _ => s
  }

  function Apply(s: State, step: Step): State {
    match step
    case CallerStep(ending) => CallerNext(s, ending)
    case StarterStep(ending) => StarterNext(s, ending)
  }

  // ----- what every step keeps

  /** The caller is past `timed_out.set()` on the timeout branch. */
  predicate PastTimeout(c: Caller) {
    c.TestAliveAgain? || c.TestFailureAgain? || c.CallerMarks? || c.CallerStops? || c.ReportTimeout?
    || (c.Done? && c.result.Raises? && (c.result.reason.TooSlow? || c.result.reason.CleanupEscaped?))
  }

  /** The history of `observer.start` agrees with where its thread is. */
  ghost predicate StartHistory(s: State) {
    && (s.starter.NotStarted? || s.starter.InStart? <==> s.h.start.NotEnded?)
    && (s.starter.TestTimedOut? || s.starter.StarterMarks? || s.starter.StarterStops? ==> s.h.start == Ended(Fine))
    && (s.starter.RecordFailure? || s.starter.NoteLateFailure? ==> s.h.start == Ended(Fault))
    && (s.v.failure <==> s.h.start == Ended(Fault) && !s.starter.RecordFailure?)
  }

  /** The caller has reached or passed the guard only after seeing a dead thread that
      recorded no failure. */
  ghost predicate CallerHistory(s: State) {
    && (s.caller.StartThread? ==> s.starter.NotStarted?)
    && (s.starter.NotStarted? ==> s.caller.StartThread? || s.caller.Done?)
    && (s.caller.TestFailureAgain? || s.caller.CallerMarks? || s.caller.CallerStops? || s.caller.TestFailure?
        ==> s.starter.Dead?)
    && (s.caller.CallerMarks? || s.caller.CallerStops? ==> !s.v.failure)
    && (PastTimeout(s.caller) ==> s.v.timedOut)
    && (s.v.timedOut ==> PastTimeout(s.caller) || s.caller == Done(False))
    && (s.caller == Done(True) ==> s.starter.Dead? && !s.v.failure)
  }

  ghost predicate CleanupHistory(s: State) {
    && s.h.cleanups == (if s.v.marked then 1 else 0)
    && s.h.stops <= s.h.cleanups && (s.h.stops > 0 ==> s.o.cleansUp)
    && (s.caller.CallerStops? || s.starter.StarterStops? ==> s.v.marked && s.h.stops == 0)
    && (s.caller.CallerStops? ==> !s.starter.StarterStops?)
    && (s.starter.StarterMarks? || s.starter.StarterStops? ==> s.h.sawTimeout)
    && (s.h.sawTimeout ==> s.v.timedOut && s.h.start == Ended(Fine))
    && (s.v.marked ==> s.v.timedOut && (s.h.start == Ended(Fine) || s.h.start == Ended(Escape)))
    && (s.h.sawTimeout && (s.starter.Leaving? || s.starter.Dead?) ==> s.v.marked)
    && (s.v.marked ==> s.h.sawTimeout || s.h.sawDead)
    && (s.caller.TestFailureAgain? || s.caller.CallerMarks? || s.caller.CallerStops? ==> s.h.sawDead)
    && (s.h.sawDead ==> s.starter.Dead? && s.v.timedOut && !s.caller.TestAliveAgain?)
    && (s.h.sawDead && !s.v.failure && !s.caller.TestFailureAgain? && !s.caller.CallerMarks? ==> s.v.marked)
  }

  /** The thread that takes the mark stops the observer before it goes on. */
  ghost predicate StopHistory(s: State) {
    s.v.marked && !s.caller.CallerStops? && !s.starter.StarterStops? ==> s.h.stops == (if s.o.cleansUp then 1 else 0)
  }

  /** The result is an exception that no handler of the function catches. */
  predicate EscapedResult(c: Caller) {
    c == Done(Raises(ThreadEscaped)) || c == Done(Raises(CleanupEscaped))
  }

  /** The thread never ran, the wait for it timed out, or its start failed. */
  predicate NotStartedInTime(s: State) {
    s.starter.NotStarted? || s.v.timedOut || s.v.failure
  }

  /** Apart from an escaped exception, the result says whether the start succeeded in time, and
      a failure raises exactly for required observers. */
  ghost predicate ResultHistory(s: State) {
    && (s.caller == Done(True) ==> !NotStartedInTime(s))
    && (s.caller == Done(False) ==> !s.o.required && NotStartedInTime(s))
    && (s.caller.Done? && s.caller.result.Raises? && !EscapedResult(s.caller)
        ==> s.o.required && NotStartedInTime(s))
    && (s.caller == Done(Raises(CleanupEscaped)) ==> s.v.marked && s.o.cleansUp)
  }

  /** Which failure the exception names. */
  ghost predicate ReasonHistory(s: State) {
    && (s.v.timedOut ==> !s.starter.NotStarted?)
    && (s.caller.Done? && s.caller.result.Raises? ==>
          match s.caller.result.reason
          case ThreadFailed => s.starter.NotStarted?
          case ThreadEscaped => s.starter.NotStarted?
          case StartFailed => s.h.start == Ended(Fault) && !s.v.timedOut
          case TooSlow => s.v.timedOut
          case CleanupEscaped => s.v.timedOut)
  }

  /** How far the threads are, and what they did. */
  ghost predicate Progress(s: State) {
    StartHistory(s) && CallerHistory(s) && CleanupHistory(s) && StopHistory(s)
  }

  ghost predicate Inv(s: State) {
    Progress(s) && ResultHistory(s) && ReasonHistory(s)
  }

  lemma CallerProgresses(s: State, ending: Ending)
    requires Progress(s) && !s.caller.Done?
    ensures Progress(CallerNext(s, ending))
  {
    var t := CallerNext(s, ending);
    assert StartHistory(t);
    assert CallerHistory(t);
    assert CleanupHistory(t);
  }

  lemma CallerKeeps(s: State, ending: Ending)
    requires Inv(s) && !s.caller.Done?
    ensures Inv(CallerNext(s, ending))
  {
    CallerProgresses(s, ending);
  }

  lemma StarterProgresses(s: State, ending: Ending)
    requires Progress(s) && Enabled(s, StarterStep(ending))
    ensures Progress(StarterNext(s, ending))
  {
    var t := StarterNext(s, ending);
    assert StartHistory(t);
    assert CallerHistory(t);
    assert CleanupHistory(t);
  }

  lemma StarterKeeps(s: State, ending: Ending)
    requires Inv(s) && Enabled(s, StarterStep(ending))
    ensures Inv(StarterNext(s, ending))
  {
    StarterProgresses(s, ending);
  }

  // ----- runs

  datatype Run = Run(states: seq<State>, steps: seq<Step>) {
    ghost predicate Valid() {
      && |states| == |steps| + 1
      && states[0] == Init(states[0].o)
      && forall i {:trigger Taken(i)} :: 0 <= i < |steps| ==> Taken(i)
    }

    ghost function Last(): State
      requires Valid()
    {
      states[|steps|]
    }

    ghost predicate Taken(i: nat)
      requires i < |steps| && |states| == |steps| + 1
    {
      Enabled(states[i], steps[i]) && states[i + 1] == Apply(states[i], steps[i])
    }
  }

  lemma Begin(o: Capabilities) returns (run: Run)
    ensures run.Valid() && run.Last() == Init(o)
  {
    run := Run([Init(o)], []);
  }

  /** A run goes on with any step its last state allows. */
  lemma Extend(run: Run, step: Step) returns (longer: Run)
    requires run.Valid() && Enabled(run.Last(), step)
    ensures longer.Valid() && longer.Last() == Apply(run.Last(), step)
  {
    longer := Run(run.states + [Apply(run.Last(), step)], run.steps + [step]);
    forall i | 0 <= i < |longer.steps| ensures longer.Taken(i) {
      if i < |run.steps| {
        assert run.Taken(i);
      }
    }
  }

  lemma {:induction false} InvAlways(run: Run, i: nat)
    requires run.Valid() && i < |run.states|
    ensures Inv(run.states[i])
  {
    if i > 0 {
      InvAlways(run, i - 1);
      assert run.Taken(i - 1);
      match run.steps[i - 1]
      case CallerStep(ending) => CallerKeeps(run.states[i - 1], ending);
      case StarterStep(ending) => StarterKeeps(run.states[i - 1], ending);
    }
  }

  /** Cleanup, and with it `observer.stop`, happens at most once, whichever thread does it; and
      unless that thread is just about to, it has stopped an observer that cleans up. */
  lemma CleanupAtMostOnce(run: Run, i: nat)
    requires run.Valid() && i < |run.states|
    ensures run.states[i].h.stops <= run.states[i].h.cleanups <= 1
    ensures run.states[i].h.stops == 1 ==> run.states[i].o.cleansUp
    ensures !run.states[i].caller.CallerStops? && !run.states[i].starter.StarterStops?
            ==> run.states[i].h.stops == if run.states[i].o.cleansUp then run.states[i].h.cleanups else 0
  {
    InvAlways(run, i);
  }

  /** A result is final. */
  lemma {:induction false} ResultStays(run: Run, i: nat, k: nat)
    requires run.Valid() && i <= k < |run.states| && run.states[i].caller.Done?
    ensures run.states[k].caller == run.states[i].caller
    decreases k
  {
    if i < k {
      ResultStays(run, i, k - 1);
      assert run.Taken(k - 1);
    }
  }

  /** In a run that returns True no cleanup happens, before the return or after it. The thread
      is then dead, and the observer did start exactly when its `start` did not end with an
      exception that escapes the thread unrecorded. */
  lemma TrueMeansNoCleanup(run: Run, i: nat, k: nat)
    requires run.Valid() && i < |run.states| && k < |run.states|
    requires run.states[i].caller == Done(True)
    ensures run.states[k].h.cleanups == 0
    ensures i <= k ==> run.states[k].starter.Dead? && run.states[k].h.start.Ended?
    ensures i <= k ==> (run.states[k].h.start == Ended(Fine) <==> run.states[k].h.start != Ended(Escape))
  {
    if i <= k {
      ResultStays(run, i, k);
      InvAlways(run, k);
      var start := run.states[k].h.start;
      assert start in {Ended(Fine), Ended(Fault), Ended(Escape)} by {
        assert start.ending.Fine? || start.ending.Fault? || start.ending.Escape?;
      }
    } else {
      InvAlways(run, i);
      CleanupsGrow(run, k, i);
    }
  }

  /** True can be returned for an observer whose start never returned. */
  lemma TrueCanFollowEscape(o: Capabilities) returns (run: Run)
    ensures run.Valid() && run.Last().o == o
    ensures run.Last().caller == Done(True) && run.Last().h.start == Ended(Escape)
  {
    var c := CallerStep(Fine);
    run := Begin(o);
    run := Extend(run, c);
    run := Extend(run, StarterStep(Escape));
    run := Extend(run, StarterStep(Fine));
    run := Extend(run, c);
    run := Extend(run, c);
    run := Extend(run, c);
  }

  lemma {:induction false} CleanupsGrow(run: Run, i: nat, k: nat)
    requires run.Valid() && i <= k < |run.states|
    ensures run.states[i].h.cleanups <= run.states[k].h.cleanups
    decreases k
  {
    if i < k {
      CleanupsGrow(run, i, k - 1);
      assert run.Taken(k - 1);
    }
  }

  /** Cleanup follows a successful start exactly when `observer.start` did not end with an
      exception that escapes the starter; it never follows a caught failure. */
  lemma CleanupFollowsStartIff(run: Run, i: nat)
    requires run.Valid() && i < |run.states| && run.states[i].h.cleanups > 0
    ensures run.states[i].v.timedOut
    ensures run.states[i].h.start == Ended(Fine) <==> run.states[i].h.start != Ended(Escape)
    ensures run.states[i].h.start != Ended(Fine) ==> run.states[i].h.start == Ended(Escape) && !run.states[i].h.sawTimeout
  {
    InvAlways(run, i);
  }

  /** Once both threads are through with a run that timed out on a successful start, the
      observer was cleaned up exactly when one of them looked late enough. */
  lemma CleanupUnlessBothEarly(run: Run, i: nat)
    requires run.Valid() && i < |run.states|
    requires run.states[i].starter.Dead? && run.states[i].caller.Done?
    requires run.states[i].v.timedOut && run.states[i].h.start == Ended(Fine)
    ensures run.states[i].h.cleanups == 1 <==> run.states[i].h.sawTimeout || run.states[i].h.sawDead
  {
    InvAlways(run, i);
  }

  /** Both can look too early: a started observer is then left without cleanup. */
  lemma CleanupCanBeMissed(o: Capabilities) returns (run: Run)
    ensures run.Valid() && var last := run.Last();
            last.o == o && last.caller.Done? && last.starter.Dead? && last.h.start == Ended(Fine)
            && last.v.timedOut && last.h.cleanups == 0
  {
    var c, t := CallerStep(Fine), StarterStep(Fine);
    run := Begin(o);
    run := Extend(run, c);
    run := Extend(run, c);
    run := Extend(run, c);
    run := Extend(run, t);
    run := Extend(run, t);
    run := Extend(run, c);
    run := Extend(run, c);
    run := Extend(run, t);
    run := Extend(run, c);
  }

  /** Cleanup can follow a start that never returned, when an exception escaped it. */
  lemma CleanupCanFollowEscape(o: Capabilities) returns (run: Run)
    ensures run.Valid() && var last := run.Last();
            last.o == o && last.h.start == Ended(Escape) && last.h.cleanups == 1
  {
    var c, t := CallerStep(Fine), StarterStep(Escape);
    run := Begin(o);
    run := Extend(run, c);
    run := Extend(run, c);
    run := Extend(run, c);
    run := Extend(run, c);
    run := Extend(run, t);
    run := Extend(run, t);
    run := Extend(run, c);
    run := Extend(run, c);
    run := Extend(run, c);
  }

  /** The step ends with an exception that the function's handlers do not catch: the start of
      the thread fails with something other than `RuntimeError`, or the observer's `stop` ends
      the caller's own cleanup with something outside `Exception`. */
  predicate EscapesAt(s: State, step: Step) {
    step == CallerStep(Escape) && (s.caller.StartThread? || (s.caller.CallerStops? && s.o.cleansUp))
  }

  ghost predicate EscapedBefore(run: Run, i: nat)
    requires run.Valid() && i < |run.states|
  {
    exists m {:trigger run.steps[m]} :: 0 <= m < i && EscapesAt(run.states[m], run.steps[m])
  }

  lemma EscapesHere(s: State, step: Step)
    requires Enabled(s, step)
    ensures EscapedResult(Apply(s, step).caller) <==> EscapedResult(s.caller) || EscapesAt(s, step)
  {
  }

  lemma {:induction false} EscapedIff(run: Run, i: nat)
    requires run.Valid() && i < |run.states|
    ensures EscapedResult(run.states[i].caller) <==> EscapedBefore(run, i)
  {
    if i > 0 {
      EscapedIff(run, i - 1);
      assert run.Taken(i - 1);
      EscapesHere(run.states[i - 1], run.steps[i - 1]);
      assert EscapedBefore(run, i)
             <==> EscapedBefore(run, i - 1) || EscapesAt(run.states[i - 1], run.steps[i - 1]);
    }
  }

  /** The function raises exactly when an exception escaped it, or the observer is required and
      did not start in time: its thread never ran, the wait timed out, or the start failed. So
      an optional observer makes the caller raise exactly by an exception that escapes. */
  lemma RaisesIff(run: Run, i: nat)
    requires run.Valid() && i < |run.states| && run.states[i].caller.Done?
    ensures var s := run.states[i];
            s.caller.result.Raises? <==> EscapedBefore(run, i) || (s.o.required && NotStartedInTime(s))
    ensures var s := run.states[i];
            s.caller.result == False <==> !EscapedBefore(run, i) && !s.o.required && NotStartedInTime(s)
    ensures var s := run.states[i];
            s.caller.result == True <==> !EscapedBefore(run, i) && !NotStartedInTime(s)
  {
    InvAlways(run, i);
    EscapedIff(run, i);
  }

  /** The reason an exception gives is the one that applies: the thread never ran, the wait timed
      out, or the start ended in time with an error. */
  lemma ReasonApplies(run: Run, i: nat)
    requires run.Valid() && i < |run.states| && run.states[i].caller.Done? && run.states[i].caller.result.Raises?
    requires !EscapedBefore(run, i)
    ensures var s := run.states[i];
            && (s.caller.result.reason == ThreadFailed <==> s.starter.NotStarted?)
            && (s.caller.result.reason == TooSlow <==> s.v.timedOut)
            && (s.caller.result.reason == StartFailed <==> !s.v.timedOut && s.h.start == Ended(Fault))
  {
    InvAlways(run, i);
    EscapedIff(run, i);
  }

  /** An optional observer can make the caller raise in both ways. */
  lemma OptionalCanRaise() returns (byStart: Run, byCleanup: Run)
    ensures byStart.Valid() && !byStart.Last().o.required && byStart.Last().caller == Done(Raises(ThreadEscaped))
    ensures byCleanup.Valid() && !byCleanup.Last().o.required
            && byCleanup.Last().caller == Done(Raises(CleanupEscaped))
  {
    var o, c := Capabilities(false, true), CallerStep(Fine);
    byStart := Begin(o);
    byStart := Extend(byStart, CallerStep(Escape));
    byCleanup := Begin(o);
    byCleanup := Extend(byCleanup, c);
    byCleanup := Extend(byCleanup, c);
    byCleanup := Extend(byCleanup, c);
    byCleanup := Extend(byCleanup, c);
    byCleanup := Extend(byCleanup, StarterStep(Escape));
    byCleanup := Extend(byCleanup, StarterStep(Fine));
    byCleanup := Extend(byCleanup, c);
    byCleanup := Extend(byCleanup, c);
    byCleanup := Extend(byCleanup, c);
    byCleanup := Extend(byCleanup, CallerStep(Escape));
  }
}
