/**
 * The delivery worker, the threads that enqueue for it and the shutdown that stops it,
 * interleaved at every statement that touches the queue, the delivery lock or one of the
 * two events.
 */
module WorkerHandshake {
  import opened Collections
  import Q = DeliveryQueue

  /** How the worker's loop ends: by its `return`, or killed by an exception of an observer
      that is no `Exception`, which `_publish_snapshot` does not catch. */
  datatype End = Returned | Escaped

  /** The statement the worker executes next. A thread past its last statement is alive until
      it is `Dead`. */
  datatype Worker =
    | Waiting
    | Acquiring
    | Looking
    | ClearingEmpty
    | ReleasingEmpty
    | TestingStop
    | ClearingTaken
    | ReleasingTaken
    | Publishing
    | Leaving(end: End)
    | Dead(end: End)

  /** `_stop_delivery_worker`; a worker still alive after the join has its queue dropped. */
  datatype Stopper =
    | NotStopping
    | Signalling
    | Joining
    | TestingAlive
    | WantsToDrop
    | Dropping
    | ReleasingDropped
    | Stopped

  datatype Stage = Deciding(delivery: Q.Delivery) | Setting | Releasing

  /** Any number of threads enqueue; one matters to the others only while it has the lock. */
  datatype Lock = Free | ByWorker | ByStopper | ByEmitter(stage: Stage)

  /** How many deliveries had been accepted when the worker last found the queue empty, and
      when the stopper dropped it; no thread reads these. */
  datatype Seen = Seen(emptyAt: nat, clearedAt: nat)

  /** `available` and `stop` are the two events. */
  datatype State = State(
    queue: Q.State, available: bool, stop: bool, lock: Lock, worker: Worker, stopper: Stopper, seen: Seen)

  /** The hub just after its worker was started. */
  function Init(): State {
    State(Q.Run([]), false, false, Free, Waiting, NotStopping, Seen(0, 0))
  }

  datatype Step = Enter(delivery: Q.Delivery) | EmitterStep | WorkerStep(escapes: bool) | StopperStep

  /** The stopper may leave `join` at any time: it returns at the timeout or at thread end. */
  predicate Enabled(s: State, step: Step) {
    match step
    case Enter(_) => s.lock == Free
    case EmitterStep => s.lock.ByEmitter?
    case WorkerStep(_) => WorkerMay(s)
    case StopperStep => !s.stopper.Stopped? && (s.stopper.WantsToDrop? ==> s.lock == Free)
  }

  predicate WorkerMay(s: State) {
    && !s.worker.Dead?
    && (s.worker.Waiting? ==> s.available)
    && (s.worker.Acquiring? ==> s.lock == Free)
  }

  /** `_enqueue_snapshot` with the lock held. */
  function EmitterNext(s: State): State
    requires s.lock.ByEmitter?
  {
    match s.lock.stage
    case Deciding(d) =>
      if d.Tick? && Q.HasTick(s.queue.pending) then s.(lock := ByEmitter(Releasing))
      else s.(queue := Q.Enqueued(s.queue, d), lock := ByEmitter(Setting))
    case Setting => s.(available := true, lock := ByEmitter(Releasing))
    case Releasing => s.(lock := Free)
  }

  /** `_delivery_loop` with `_take_pending_delivery`. */
  function WorkerNext(s: State, escapes: bool): State {
    match s.worker
    case Waiting => s.(worker := Acquiring)
    case Acquiring => s.(lock := ByWorker, worker := Looking)
    case Looking =>
      if s.queue.pending == [] then
        s.(worker := ClearingEmpty, seen := s.seen.(emptyAt := |s.queue.accepted|))
      else s.(queue := Q.TakenFrom(s.queue), worker := ClearingTaken)
    case ClearingEmpty => s.(available := false, worker := ReleasingEmpty)
    case ReleasingEmpty => s.(lock := Free, worker := TestingStop)
    case TestingStop => s.(worker := if s.stop then Leaving(Returned) else Waiting)
    case ClearingTaken =>
      s.(available := s.available && s.queue.pending != [], worker := ReleasingTaken)
    case ReleasingTaken => s.(lock := Free, worker := Publishing)
    case Publishing => s.(worker := if escapes then Leaving(Escaped) else Acquiring)
    case Leaving(end) => s.(worker := Dead(end))
    case Dead(_) => s
  }

  function StopperNext(s: State): State {
    match s.stopper
    case NotStopping => s.(stop := true, stopper := Signalling)
    case Signalling => s.(available := true, stopper := Joining)
    case Joining => s.(stopper := TestingAlive)
    case TestingAlive => s.(stopper := if s.worker.Dead? then Stopped else WantsToDrop)
    case WantsToDrop => s.(lock := ByStopper, stopper := Dropping)
    case Dropping =>
      s.(queue := Q.ClearedFrom(s.queue), stopper := ReleasingDropped,
         seen := s.seen.(clearedAt := |s.queue.accepted|))
    case ReleasingDropped => s.(lock := Free, stopper := Stopped)
    case Stopped => s
  }

  function Apply(s: State, step: Step): State
    requires Enabled(s, step)
  {
    match step
    case Enter(d) => s.(lock := ByEmitter(Deciding(d)))
    case EmitterStep => EmitterNext(s)
    case WorkerStep(escapes) => WorkerNext(s, escapes)
    case StopperStep => StopperNext(s)
  }

  // ----- what every step keeps

  predicate Signalled(t: Stopper) {
    !t.NotStopping? && !t.Signalling?
  }

  predicate WorkerInside(w: Worker) {
    w.Looking? || w.ClearingEmpty? || w.ReleasingEmpty? || w.ClearingTaken? || w.ReleasingTaken?
  }

  ghost predicate LockHeld(s: State) {
    && (s.lock == ByWorker <==> WorkerInside(s.worker))
    && (s.lock == ByStopper <==> s.stopper.Dropping? || s.stopper.ReleasingDropped?)
  }

  /** Only the thread that has just appended leaves entries pending without the wake flag. */
  ghost predicate PendingWakes(s: State) {
    && (s.queue.pending != [] && !s.available ==> s.lock == ByEmitter(Setting))
    && (s.worker.ClearingEmpty? || s.worker.ReleasingEmpty? ==> s.queue.pending == [])
  }

  /** The worker has ended its loop by the `return`. */
  predicate Exited(w: Worker) {
    w == Leaving(Returned) || w == Dead(Returned)
  }

  ghost predicate StopReaches(s: State) {
    && (s.stop <==> !s.stopper.NotStopping?)
    && (Exited(s.worker) ==> s.stop)
    && (Signalled(s.stopper) && s.worker.Waiting? ==> s.available)
  }

  /** The worker is past an empty take and will not take again, unless it goes back to wait. */
  predicate AfterLook(w: Worker) {
    w.ClearingEmpty? || w.ReleasingEmpty? || w.TestingStop? || Exited(w)
  }

  /** From an empty take on nothing more is taken, and the queue is empty exactly while nothing
      was accepted since that take or since the drop. */
  ghost predicate SinceLook(q: Q.State, seen: Seen)
    requires seen.clearedAt <= |q.left|
  {
    && (q.pending == [] <==> |q.accepted| == seen.emptyAt || |q.accepted| == seen.clearedAt)
    && (forall k :: seen.emptyAt <= k < |q.left| ==> !q.left[k].fate.Taken?)
    && (seen.clearedAt > seen.emptyAt ==> q.left[seen.clearedAt - 1].fate.Cleared?)
  }

  ghost predicate EmptySeen(s: State) {
    && Q.Conserved(s.queue)
    && s.seen.emptyAt <= |s.queue.left| && s.seen.clearedAt <= |s.queue.left|
    && (AfterLook(s.worker) ==> SinceLook(s.queue, s.seen))
  }

  /** Before the signal the flag is set for something pending only. */
  ghost predicate WakesForReason(s: State) {
    && (s.available && !Signalled(s.stopper) ==> s.queue.pending != [] || s.worker.ClearingTaken?)
    && (s.lock == ByEmitter(Setting) ==> s.queue.pending != [])
  }

  ghost predicate Inv(s: State) {
    LockHeld(s) && PendingWakes(s) && StopReaches(s) && EmptySeen(s) && WakesForReason(s)
  }

  lemma TakeOp(q: Q.State)
    requires Q.Conserved(q)
    ensures Q.Conserved(Q.TakenFrom(q)) && |Q.TakenFrom(q).left| >= |q.left|
    ensures q.pending == [] ==> |q.left| == |q.accepted|
  {
    Q.TakeConserves(q);
  }

  /** After an empty take, an enqueue leaves something pending and takes nothing. */
  lemma EnqueueOp(q: Q.State, d: Q.Delivery, seen: Seen)
    requires Q.Conserved(q) && seen.emptyAt <= |q.left| && seen.clearedAt <= |q.left|
    requires !(d.Tick? && Q.HasTick(q.pending))
    ensures Q.Conserved(Q.Enqueued(q, d)) && |Q.Enqueued(q, d).left| >= |q.left|
    ensures SinceLook(q, seen) ==> SinceLook(Q.Enqueued(q, d), seen)
  {
    Q.EnqueueConserves(q, d);
    var t := Q.Enqueued(q, d);
    assert |t.accepted| == |q.accepted| + 1 && |q.accepted| == |q.left| + |q.pending|;
    assert forall k :: 0 <= k < |q.left| ==> t.left[k] == q.left[k];
  }

  /** The drop empties the queue, as of now. */
  lemma ClearOp(q: Q.State, seen: Seen)
    requires Q.Conserved(q) && seen.emptyAt <= |q.left| && seen.clearedAt <= |q.left|
    ensures var t := Q.ClearedFrom(q);
            Q.Conserved(t) && |t.left| == |q.accepted| && t.pending == []
            && (SinceLook(q, seen) ==> SinceLook(t, seen.(clearedAt := |q.accepted|)))
  {
    Q.ClearConserves(q);
    var t := Q.ClearedFrom(q);
    assert forall k :: 0 <= k < |q.left| ==> t.left[k] == q.left[k];
    assert forall k :: |q.left| <= k < |t.left| ==> t.left[k].fate.Cleared?;
  }

  lemma EmitterKeeps(s: State)
    requires Inv(s) && s.lock.ByEmitter?
    ensures Inv(EmitterNext(s))
  {
    if s.lock.stage.Deciding? {
      var d := s.lock.stage.delivery;
      if !(d.Tick? && Q.HasTick(s.queue.pending)) {
        EnqueueOp(s.queue, d, s.seen);
      }
    }
  }

  lemma WorkerKeeps(s: State, escapes: bool)
    requires Inv(s) && WorkerMay(s)
    ensures Inv(WorkerNext(s, escapes))
  {
    WorkerSignals(s, escapes);
    WorkerWakes(s, escapes);
    WorkerLooks(s, escapes);
  }

  lemma WorkerSignals(s: State, escapes: bool)
    requires LockHeld(s) && PendingWakes(s) && StopReaches(s) && WorkerMay(s)
    ensures var t := WorkerNext(s, escapes); LockHeld(t) && PendingWakes(t) && StopReaches(t)
  {
  }

  lemma WorkerWakes(s: State, escapes: bool)
    requires LockHeld(s) && WorkerMay(s) && WakesForReason(s)
    ensures WakesForReason(WorkerNext(s, escapes))
  {
  }

  lemma WorkerLooks(s: State, escapes: bool)
    requires EmptySeen(s) && WorkerMay(s)
    ensures EmptySeen(WorkerNext(s, escapes))
  {
    var t := WorkerNext(s, escapes);
    if s.worker.Looking? {
      TakeOp(s.queue);
    } else {
      assert t.queue == s.queue && t.seen == s.seen;
      assert AfterLook(t.worker) ==> AfterLook(s.worker);
    }
  }

  lemma StopperKeeps(s: State)
    requires Inv(s) && Enabled(s, StopperStep)
    ensures Inv(StopperNext(s))
  {
    ClearOp(s.queue, s.seen);
  }

  lemma StepKeeps(s: State, step: Step)
    requires Inv(s) && Enabled(s, step)
    ensures Inv(Apply(s, step))
  {
    match step
    case Enter(_) =>
    case EmitterStep => EmitterKeeps(s);
    case WorkerStep(escapes) => WorkerKeeps(s, escapes);
    case StopperStep => StopperKeeps(s);
  }

  // ----- runs

  datatype Run = Run(states: seq<State>, steps: seq<Step>) {
    ghost predicate Valid() {
      && |states| == |steps| + 1 && states[0] == Init()
      && forall i {:trigger Taken(i)} :: 0 <= i < |steps| ==> Taken(i)
    }

    ghost predicate Taken(i: nat)
      requires i < |steps| && |states| == |steps| + 1
    {
      Enabled(states[i], steps[i]) && states[i + 1] == Apply(states[i], steps[i])
    }

    ghost function Last(): State
      requires Valid()
    {
      states[|steps|]
    }
  }

  lemma {:induction false} InvAlways(run: Run, i: nat)
    requires run.Valid() && i < |run.states|
    ensures Inv(run.states[i])
  {
    if i == 0 {
      Q.RunConserves([]);
    } else {
      InvAlways(run, i - 1);
      assert run.Taken(i - 1);
      StepKeeps(run.states[i - 1], run.steps[i - 1]);
    }
  }

  /** While the lock is free, something pending means the wake flag is set. */
  lemma PendingMeansAvailable(run: Run, i: nat)
    requires run.Valid() && i < |run.states|
    requires run.states[i].lock == Free && run.states[i].queue.pending != []
    ensures run.states[i].available
  {
    InvAlways(run, i);
  }

  /** And before shutdown is signalled the flag is set for nothing else: with the lock free and
      nothing pending, the worker does not spin but waits. */
  lemma AvailableMeansPending(run: Run, i: nat)
    requires run.Valid() && i < |run.states| && !Signalled(run.states[i].stopper)
    requires run.states[i].lock == Free && run.states[i].available
    ensures run.states[i].queue.pending != []
  {
    InvAlways(run, i);
  }

  /** From the moment both events are set for shutdown, the worker is never parked on a
      clear flag, and some thread other than an idle emitter can move until it is dead. */
  lemma NeverParkedAfterSignal(run: Run, i: nat)
    requires run.Valid() && i < |run.states| && Signalled(run.states[i].stopper)
    ensures run.states[i].stop
    ensures !(run.states[i].worker.Waiting? && !run.states[i].available)
    ensures run.states[i].worker.Dead? || WorkerMay(run.states[i])
            || Enabled(run.states[i], EmitterStep)
            || (run.states[i].lock == ByStopper && Enabled(run.states[i], StopperStep))
  {
    InvAlways(run, i);
  }

  /** In every interleaving the deliveries accepted are those gone followed by those
      pending, in order, and the queue keeps its bounds. */
  lemma ConservedInEveryRun(run: Run, i: nat)
    requires run.Valid() && i < |run.states|
    ensures Q.Conserved(run.states[i].queue)
  {
    InvAlways(run, i);
  }

  /** What a step does to the queue. */
  function OpsOf(s: State, step: Step): seq<Q.Op> {
    match step
    case Enter(_) => []
    case EmitterStep => if s.lock.ByEmitter? && s.lock.stage.Deciding? then [Q.Enqueue(s.lock.stage.delivery)] else []
    case WorkerStep(_) => if s.worker.Looking? then [Q.Take] else []
    case StopperStep => if s.stopper.Dropping? then [Q.ClearAll] else []
  }

  /** What the first `i` steps of a run did to the queue. */
  ghost function OpsBefore(run: Run, i: nat): seq<Q.Op>
    requires run.Valid() && i < |run.states|
  {
    if i == 0 then [] else OpsBefore(run, i - 1) + OpsOf(run.states[i - 1], run.steps[i - 1])
  }

  lemma OneMoreOp(ops: seq<Q.Op>, op: Q.Op)
    ensures Q.Run(ops + [op]) == Q.Apply(Q.Run(ops), op)
  {
    assert (ops + [op])[..|ops|] == ops;
  }

  lemma StepIsOp(s: State, step: Step)
    requires Enabled(s, step)
    ensures var ops := OpsOf(s, step);
            |ops| <= 1 && Apply(s, step).queue == if ops == [] then s.queue else Q.Apply(s.queue, ops[0])
  {
  }

  lemma SameRun(ops: seq<Q.Op>, more: seq<Q.Op>)
    requires |more| <= 1
    ensures Q.Run(ops + more) == if more == [] then Q.Run(ops) else Q.Apply(Q.Run(ops), more[0])
  {
    if more == [] {
      assert ops + more == ops;
    } else {
      assert more == [more[0]];
      OneMoreOp(ops, more[0]);
    }
  }

  /** In every interleaving the queue is what some sequence of enqueues, takes and clears makes
      of it, so everything that holds of those holds here. */
  lemma {:induction false} QueueIsRun(run: Run, i: nat)
    requires run.Valid() && i < |run.states|
    ensures run.states[i].queue == Q.Run(OpsBefore(run, i))
  {
    if i > 0 {
      QueueIsRun(run, i - 1);
      assert run.Taken(i - 1);
      StepIsOp(run.states[i - 1], run.steps[i - 1]);
      SameRun(OpsBefore(run, i - 1), OpsOf(run.states[i - 1], run.steps[i - 1]));
    }
  }

  /** In every interleaving a delivery that left without being taken was the oldest of a full
      queue that made room, or went in the stopper's clear. */
  lemma LostInEveryRun(run: Run, i: nat, k: nat)
    requires run.Valid() && i < |run.states| && k < |run.states[i].queue.left|
    requires !run.states[i].queue.left[k].fate.Taken?
    ensures Q.Lost(OpsBefore(run, i), k, run.states[i].queue.left[k].fate)
  {
    QueueIsRun(run, i);
    Q.LostOnlyByOverflowOrClear(OpsBefore(run, i), k);
  }

  /** A worker that returned saw the stop event, and took everything that was accepted before
      its last look or saw it go: whatever is pending came after. */
  lemma ExitMissesOnlyLateArrivals(run: Run, i: nat)
    requires run.Valid() && i < |run.states| && Exited(run.states[i].worker)
    ensures run.states[i].stop
    ensures var s := run.states[i];
            s.seen.emptyAt + |s.queue.pending| <= |s.queue.accepted|
            && s.queue.pending == s.queue.accepted[|s.queue.accepted| - |s.queue.pending|..]
  {
    InvAlways(run, i);
  }

  /** It left the queue empty exactly when nothing was accepted after its last look or, if that
      was later, after the stopper's drop. Nothing accepted since the look was ever taken, so
      unless the drop removed some of it, an empty queue means that nothing arrived. */
  lemma DrainedIff(run: Run, i: nat)
    requires run.Valid() && i < |run.states| && Exited(run.states[i].worker)
    ensures var s := run.states[i];
            s.queue.pending == [] <==> |s.queue.accepted| == Max(s.seen.emptyAt, s.seen.clearedAt)
    ensures var s := run.states[i];
            forall k :: s.seen.emptyAt <= k < |s.queue.left| ==> !s.queue.left[k].fate.Taken?
    ensures var s := run.states[i];
            (forall k :: s.seen.emptyAt <= k < |s.queue.left| ==> !s.queue.left[k].fate.Cleared?)
            ==> (s.queue.pending == [] <==> |s.queue.accepted| == s.seen.emptyAt)
  {
    InvAlways(run, i);
    var s := run.states[i];
    assert |s.queue.accepted| == |s.queue.left| + |s.queue.pending|;
  }

  predicate Killed(w: Worker) {
    w == Leaving(Escaped) || w == Dead(Escaped)
  }

  /** An observer's exception that is no `Exception` ended the worker before step `i`. */
  ghost predicate KilledBefore(run: Run, i: nat)
    requires run.Valid() && i < |run.states|
  {
    exists m {:trigger run.steps[m]} :: 0 <= m < i && run.steps[m] == WorkerStep(true) && run.states[m].worker.Publishing?
  }

  lemma KillsHere(s: State, step: Step)
    requires Enabled(s, step)
    ensures Killed(Apply(s, step).worker)
            <==> Killed(s.worker) || (step == WorkerStep(true) && s.worker.Publishing?)
  {
  }

  /** A worker that is gone returned, with all that follows from it above, if and only if no
      such exception ended it. */
  lemma {:induction false} ReturnedUnlessKilled(run: Run, i: nat)
    requires run.Valid() && i < |run.states|
    ensures Killed(run.states[i].worker) <==> KilledBefore(run, i)
    ensures run.states[i].worker.Dead? ==> (Exited(run.states[i].worker) <==> !KilledBefore(run, i))
  {
    var w := run.states[i].worker;
    assert w.Dead? ==> w.end == Returned || w.end == Escaped;
    if i > 0 {
      ReturnedUnlessKilled(run, i - 1);
      assert run.Taken(i - 1);
      KillsHere(run.states[i - 1], run.steps[i - 1]);
      assert KilledBefore(run, i)
             <==> KilledBefore(run, i - 1)
                  || (run.steps[i - 1] == WorkerStep(true) && run.states[i - 1].worker.Publishing?);
    }
  }

  // ----- when the queue is dropped

  /** The stopper found the worker alive after its join. */
  ghost predicate FoundAlive(run: Run, i: nat)
    requires run.Valid() && i < |run.states|
  {
    exists m {:trigger run.steps[m]} ::
      0 <= m < i && run.steps[m] == StopperStep && run.states[m].stopper.TestingAlive? && !run.states[m].worker.Dead?
  }

  ghost predicate DroppedBefore(run: Run, i: nat)
    requires run.Valid() && i < |run.states|
  {
    exists m {:trigger run.steps[m]} :: 0 <= m < i && run.steps[m] == StopperStep && run.states[m].stopper.Dropping?
  }

  /** How far the stopper is tells what it found and did. */
  ghost predicate StopperStory(s: State, foundAlive: bool, dropped: bool) {
    match s.stopper
    case NotStopping => !foundAlive && !dropped
    case Signalling => !foundAlive && !dropped
    case Joining => !foundAlive && !dropped
    case TestingAlive => !foundAlive && !dropped
    case WantsToDrop => foundAlive && !dropped
    case Dropping => foundAlive && !dropped
    case ReleasingDropped => foundAlive && dropped
    case Stopped => (foundAlive <==> dropped) && (foundAlive || s.worker.Dead?)
  }

  lemma StoryNext(s: State, step: Step, foundAlive: bool, dropped: bool)
    requires Enabled(s, step) && StopperStory(s, foundAlive, dropped)
    ensures StopperStory(Apply(s, step),
                         foundAlive || (step.StopperStep? && s.stopper.TestingAlive? && !s.worker.Dead?),
                         dropped || (step.StopperStep? && s.stopper.Dropping?))
  {
  }

  lemma {:induction false} StopperStoryAlways(run: Run, i: nat)
    requires run.Valid() && i < |run.states|
    ensures StopperStory(run.states[i], FoundAlive(run, i), DroppedBefore(run, i))
  {
    if i > 0 {
      StopperStoryAlways(run, i - 1);
      assert run.Taken(i - 1);
      var s, step := run.states[i - 1], run.steps[i - 1];
      StoryNext(s, step, FoundAlive(run, i - 1), DroppedBefore(run, i - 1));
      assert FoundAlive(run, i)
             <==> FoundAlive(run, i - 1) || (step.StopperStep? && s.stopper.TestingAlive? && !s.worker.Dead?);
      assert DroppedBefore(run, i) <==> DroppedBefore(run, i - 1) || (step.StopperStep? && s.stopper.Dropping?);
    }
  }

  /** The queue is dropped only for a worker found alive after the join; when the stopper is
      through it has dropped it exactly then, and otherwise the worker is dead. */
  lemma DroppedIffFoundAlive(run: Run, i: nat)
    requires run.Valid() && i < |run.states|
    ensures DroppedBefore(run, i) ==> FoundAlive(run, i)
    ensures run.states[i].stopper.Stopped? ==> (DroppedBefore(run, i) <==> FoundAlive(run, i))
    ensures run.states[i].stopper.Stopped? && !DroppedBefore(run, i) ==> run.states[i].worker.Dead?
  {
    StopperStoryAlways(run, i);
  }

  // ----- the worker does end

  /** How far the worker is from its end once shutdown was signalled. */
  function Distance(s: State): nat {
    var pc :=
      match s.worker
      case Dead(_) => 0
      case Leaving(_) => 1
      case TestingStop => 2
      case ReleasingEmpty => 3
      case ClearingEmpty => 4
      case Looking => 5
      case Acquiring => 6
      case Waiting => 7
      case Publishing => 7
      case ReleasingTaken => 8
      case ClearingTaken => 9;
    5 * |s.queue.pending| + pc
  }

  /** After the signal every step of the worker brings it closer, and no step of the stopper
      or of an emitter that adds nothing takes it back. So it is dead after as many of its own
      steps as it is away, unless more deliveries arrive. */
  lemma WorkerApproachesExit(s: State, step: Step)
    requires Inv(s) && Signalled(s.stopper) && Enabled(s, step)
    ensures Signalled(Apply(s, step).stopper)
    ensures step.WorkerStep? ==> Distance(Apply(s, step)) < Distance(s)
    ensures !step.WorkerStep? && Apply(s, step).queue.accepted == s.queue.accepted
            ==> Distance(Apply(s, step)) <= Distance(s)
    ensures Distance(s) == 0 ==> s.worker.Dead?
  {
    if step.EmitterStep? && s.lock.stage.Deciding? {
      var d := s.lock.stage.delivery;
      assert (d.Tick? && Q.HasTick(s.queue.pending))
             || |Q.Enqueued(s.queue, d).accepted| > |s.queue.accepted|;
    }
  }

  ghost predicate NothingArrives(run: Run, i: nat)
    requires run.Valid() && i < |run.states|
  {
    forall k :: i <= k < |run.states| ==> run.states[k].queue.accepted == run.states[i].queue.accepted
  }

  /** The number of steps the worker takes from state `i` on. */
  ghost function WorkerSteps(run: Run, i: nat): nat
    requires run.Valid() && i < |run.states|
    decreases |run.states| - i
  {
    if i == |run.steps| then 0
    else WorkerSteps(run, i + 1) + (if run.steps[i].WorkerStep? then 1 else 0)
  }

  /** So after the signal the worker takes only so many more steps, in any interleaving in
      which nothing more is accepted, and is dead when it has taken them all. */
  lemma {:induction false} WorkerStepsAreBounded(run: Run, i: nat)
    requires run.Valid() && i < |run.states| && Signalled(run.states[i].stopper)
    requires NothingArrives(run, i)
    ensures WorkerSteps(run, i) + Distance(run.Last()) <= Distance(run.states[i])
    decreases |run.states| - i
  {
    if i < |run.steps| {
      InvAlways(run, i);
      assert run.Taken(i);
      WorkerApproachesExit(run.states[i], run.steps[i]);
      assert run.states[i + 1].queue.accepted == run.states[i].queue.accepted;
      WorkerStepsAreBounded(run, i + 1);
    }
  }

  // ----- a delivery the worker never sees

  lemma Extend(run: Run, step: Step) returns (longer: Run)
    requires run.Valid() && Enabled(run.Last(), step)
    ensures longer.Valid() && longer.Last() == Apply(run.Last(), step)
  {
    longer := Run(run.states + [Apply(run.Last(), step)], run.steps + [step]);
    forall i | 0 <= i < |longer.steps| ensures longer.Taken(i) {
      if i < |run.steps| {
        assert run.Taken(i);
      }
    }
  }

  /** The worker can return with a delivery pending: it arrived between the empty take and
      the test of the stop event. */
  lemma ExitCanStrand(d: Q.Delivery) returns (run: Run)
    ensures run.Valid() && run.Last().worker == Dead(Returned) && run.Last().queue.pending == [d]
  {
    var w := WorkerStep(false);
    run := Run([Init()], []);
    run := Extend(run, StopperStep);
    run := Extend(run, StopperStep);
    run := Extend(run, w);
    run := Extend(run, w);
    run := Extend(run, w);
    run := Extend(run, w);
    run := Extend(run, w);
    run := Extend(run, Enter(d));
    run := Extend(run, EmitterStep);
    run := Extend(run, EmitterStep);
    run := Extend(run, EmitterStep);
    run := Extend(run, w);
    run := Extend(run, w);
  }

  lemma Deliver(run: Run, d: Q.Delivery) returns (longer: Run)
    requires run.Valid() && run.Last().lock == Free && !(d.Tick? && Q.HasTick(run.Last().queue.pending))
    ensures longer.Valid()
    ensures longer.Last() == run.Last().(queue := Q.Enqueued(run.Last().queue, d), available := true)
  {
    longer := Extend(run, Enter(d));
    longer := Extend(longer, EmitterStep);
    longer := Extend(longer, EmitterStep);
    longer := Extend(longer, EmitterStep);
  }

  /** An observer can kill the worker: it is then dead with deliveries pending that it never
      looked at, although nobody asked it to stop. */
  lemma ObserverCanKill(d: Q.Delivery) returns (run: Run)
    requires d.Carrying?
    ensures run.Valid() && run.Last().worker == Dead(Escaped) && !run.Last().stop
    ensures run.Last().seen.emptyAt == 0 && |run.Last().queue.pending| == 1
  {
    var w := WorkerStep(false);
    run := Run([Init()], []);
    run := Deliver(run, d);
    run := Deliver(run, d);
    run := Extend(run, w);
    run := Extend(run, w);
    run := Extend(run, w);
    run := Extend(run, w);
    run := Extend(run, w);
    run := Extend(run, WorkerStep(true));
    run := Extend(run, w);
  }
}
