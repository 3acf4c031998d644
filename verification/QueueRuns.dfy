/** What the queue promises over every run: every interleaving of calls, invokes
    and marker touches from an empty queue. */
module QueueRuns {
  import opened Results
  import opened JobRows
  import opened QueueProtocol
  import opened QueueInvariants

  datatype Run = Run(states: seq<System>, steps: seq<Step>) {
    ghost predicate Valid() {
      && |states| == |steps| + 1 && states[0] == Init()
      && forall i {:trigger Taken(i)} :: 0 <= i < |steps| ==> Taken(i)
    }

    ghost predicate Taken(i: nat)
      requires i < |steps| && |states| == |steps| + 1
    {
      Enabled(states[i], steps[i]) && states[i + 1] == Apply(states[i], steps[i])
    }

    ghost function Last(): System
      requires Valid()
    {
      states[|steps|]
    }
  }

  /** `b` goes on where `a` stopped. */
  ghost predicate Continues(a: Run, b: Run) {
    a.states <= b.states && a.steps <= b.steps
  }

  /** A run goes on with any step its last state allows. */
  lemma Extend(run: Run, step: Step) returns (longer: Run)
    requires run.Valid() && Enabled(run.Last(), step)
    ensures longer.Valid() && longer.Last() == Apply(run.Last(), step) && Continues(run, longer)
  {
    longer := Run(run.states + [Apply(run.Last(), step)], run.steps + [step]);
    forall i | 0 <= i < |longer.steps| ensures longer.Taken(i) {
      if i < |run.steps| {
        assert run.Taken(i);
      }
    }
  }

  // ----- every state, every pair of states

  lemma {:induction false} InvAlways(run: Run, i: nat)
    requires run.Valid() && i < |run.states|
    ensures Inv(run.states[i])
  {
    if i == 0 {
      InitHolds();
    } else {
      InvAlways(run, i - 1);
      assert run.Taken(i - 1);
      StepKeeps(run.states[i - 1], run.steps[i - 1]);
    }
  }

  lemma GrowsTransitive(a: System, b: System, c: System)
    requires Grows(a, b) && Grows(b, c)
    ensures Grows(a, c)
  {
    JobsAdvanceTransitive(a.jobs, b.jobs, c.jobs);
  }

  /** Between any two moments rows only advance, markers stay, the log is kept. */
  lemma {:induction false} GrowsAlong(run: Run, i: nat, k: nat)
    requires run.Valid() && i <= k < |run.states|
    ensures Grows(run.states[i], run.states[k])
    decreases k - i
  {
    if i == k {
      SameJobs(run.states[i].jobs);
    } else {
      InvAlways(run, i);
      assert run.Taken(i);
      StepKeeps(run.states[i], run.steps[i]);
      GrowsAlong(run, i + 1, k);
      GrowsTransitive(run.states[i], run.states[i + 1], run.states[k]);
    }
  }

  /** State only moves up the rank; request, token and receipt are never rewritten. */
  lemma RowsOnlyAdvance(run: Run, i: nat, k: nat, job: JobId)
    requires run.Valid() && i <= k < |run.states| && job in run.states[i].jobs
    ensures job in run.states[k].jobs
    ensures var row, row' := run.states[i].jobs[job], run.states[k].jobs[job];
            && (row'.state == Pending ==> row.state == Pending)
            && (row'.state == Claimed ==> row.state == Pending || row.state == Claimed)
            && (row.state == Completed ==> row'.state == Completed || row'.state == Cancelled)
            && (row.state == Expired ==> row'.state == Expired || row'.state == Cancelled)
            && (row.state == Cancelled ==> row'.state == Cancelled)
            && row'.request == row.request
            && (row.token.Some? ==> row'.token == row.token)
            && (row.receipt.Some? ==> row'.receipt == row.receipt)
  {
    GrowsAlong(run, i, k);
  }

  /** Two clients read the ids of the live rows, and the second one's sweep lets the job expire. */
  lemma SecondSweepExpires(job: JobId, request: Request) returns (run: Run)
    ensures run.Valid() && job in run.Last().jobs && run.Last().jobs[job].state == Expired
    ensures run.Last().writer == None && 0 in run.Last().sessions
    ensures run.Last().sessions[0].call == Reconcile(job) && run.Last().sessions[0].stage == Reconciling({job}, {})
  {
    var now, call := request.expiresAt, Reconcile(job);
    run := Run([Init()], []);
    run := Extend(run, Submit(job, request));
    run := Extend(run, ByClient(0, Start(call)));
    assert Sweepable(run.Last().jobs) == {job} && {job} * run.Last().markers == {};
    run := Extend(run, ByClient(0, SelectSweep));
    run := Extend(run, ByClient(1, Start(call)));
    run := Extend(run, ByClient(1, SelectSweep));
    run := Extend(run, ByClient(1, Sweep({}, now, now)));
  }

  /** An expired row can still turn cancelled: `reconcile` reads the ids of the live rows before
      its transaction begins, and cancels those it finds marked whatever they are by then. */
  lemma ExpiredCanTurnCancelled(job: JobId, request: Request) returns (run: Run, i: nat)
    ensures run.Valid() && i < |run.states| && job in run.states[i].jobs && run.states[i].jobs[job].state == Expired
    ensures job in run.Last().jobs && run.Last().jobs[job].state == Cancelled
  {
    var expired := SecondSweepExpires(job, request);
    i := |expired.steps|;
    run := Extend(expired, Touch(job));
    run := Extend(run, ByClient(0, Sweep({job}, request.expiresAt, request.expiresAt)));
    assert run.states[i] == expired.states[i];
  }

  // ----- dispatch

  /** Step `i` is a claim of `job` that succeeds, handing `token` to its caller. */
  ghost predicate Claims(run: Run, i: nat, job: JobId, token: Token)
    requires run.Valid()
  {
    && i < |run.steps| && run.steps[i].ByClient? && run.steps[i].act.CommitClaim?
    && run.steps[i].client in run.states[i].sessions && Job(run.states[i], run.steps[i].client) == job
    && run.steps[i].act.minted == token
    && run.steps[i].client in run.states[i + 1].sessions
    && run.states[i + 1].sessions[run.steps[i].client].stage.Selecting?
  }

  /** A successful claim finds the job pending and leaves it claimed under the token. */
  lemma ClaimTakesPending(run: Run, i: nat, job: JobId, token: Token)
    requires run.Valid() && Claims(run, i, job, token)
    ensures job in run.states[i].jobs && run.states[i].jobs[job].state == Pending && run.states[i].jobs[job].token == None
    ensures job in run.states[i + 1].jobs && run.states[i + 1].jobs[job].state == Claimed
    ensures run.states[i + 1].jobs[job].token == Some(token)
    ensures run.states[i + 1].jobs[job].lease == Some(run.steps[i].act.lease)
    ensures run.states[i].jobs[job].request.expiresAt > run.steps[i].act.now
  {
    assert run.Taken(i);
    InvAlways(run, i);
    if job in run.states[i].jobs {
      MyRow(run.states[i], job);
    }
  }

  /** Each job is claimed at most once in a run, and never after it left `pending`
      by any route, expiry included. */
  lemma ClaimedAtMostOnce(run: Run, i: nat, k: nat, job: JobId, token: Token)
    requires run.Valid() && i <= k && Claims(run, k, job, token)
    requires job in run.states[i].jobs
    ensures run.states[i].jobs[job].state == Pending && run.states[i].jobs[job].token == None
    ensures forall earlier: nat, t :: earlier < k ==> !Claims(run, earlier, job, t)
  {
    ClaimTakesPending(run, k, job, token);
    RowsOnlyAdvance(run, i, k, job);
    forall earlier: nat, t | earlier < k
      ensures !Claims(run, earlier, job, t)
    {
      if Claims(run, earlier, job, t) {
        ClaimTakesPending(run, earlier, job, t);
        RowsOnlyAdvance(run, earlier + 1, k, job);
      }
    }
  }

  /** The stage a claim reaches only by succeeding. */
  predicate ClaimHeld(s: System, c: Client, job: JobId) {
    && c in s.sessions && s.sessions[c].call == Claim(job)
    && (s.sessions[c].stage.Selecting? || s.sessions[c].stage.Selected? || s.sessions[c].stage.Returned?)
  }

  /** A claim that returns normally was granted by a step of this run. */
  lemma {:induction false} ReturnedClaimWasGranted(run: Run, k: nat, c: Client, job: JobId) returns (i: nat, token: Token)
    requires run.Valid() && k < |run.states| && ClaimHeld(run.states[k], c, job)
    ensures i < k && Claims(run, i, job, token)
  {
    assert k > 0;
    assert run.Taken(k - 1);
    InvAlways(run, k - 1);
    if ClaimHeld(run.states[k - 1], c, job) {
      i, token := ReturnedClaimWasGranted(run, k - 1, c, job);
    } else {
      ClaimJustGranted(run.states[k - 1], run.steps[k - 1], c, job);
      i, token := k - 1, run.steps[k - 1].act.minted;
    }
  }

  /** A step touches the session of its own client only, and keeps its call. */
  lemma ActTouchesOwn(s: System, c: Client, act: Act)
    requires c in s.sessions && ActEnabled(s, c, act) && !act.Start?
    ensures exists stage :: ActNow(s, c, act).sessions == Put(s, c, stage).sessions
  {
    if act.Write? {
      WriteTouchesOwn(s, c, act.now, act.leaseSeen, act.deadlineSeen);
    } else if act.CommitClaim? {
      ClaimTouchesOwn(s, c, act.minted, act.lease, act.now);
    } else {
      assert c in ActNow(s, c, act).sessions;
      assert ActNow(s, c, act).sessions == Put(s, c, ActNow(s, c, act).sessions[c].stage).sessions;
    }
  }

  lemma WriteTouchesOwn(s: System, c: Client, now: real, leaseSeen: real, deadlineSeen: real)
    requires c in s.sessions && s.sessions[c].call.Complete?
    ensures exists stage :: WriteNow(s, c, now, leaseSeen, deadlineSeen).sessions == Put(s, c, stage).sessions
  {
    var s' := WriteNow(s, c, now, leaseSeen, deadlineSeen);
    assert s'.sessions == Put(s, c, s'.sessions[c].stage).sessions;
  }

  lemma ClaimTouchesOwn(s: System, c: Client, minted: Token, lease: real, now: real)
    requires c in s.sessions
    ensures exists stage :: ClaimNow(s, c, minted, lease, now).sessions == Put(s, c, stage).sessions
  {
    var s' := ClaimNow(s, c, minted, lease, now);
    assert s'.sessions == Put(s, c, s'.sessions[c].stage).sessions;
  }

  lemma MoveTouchesNone(s: System, id: JobId, move: Move)
    requires id in s.invokes && MoveEnabled(s, id, move)
    ensures MoveNow(s, id, move).sessions == s.sessions
  {
  }

  lemma OthersUntouched(s: System, step: Step, c: Client)
    requires Enabled(s, step) && !(step.ByClient? && step.client == c)
    ensures c in Apply(s, step).sessions <==> c in s.sessions
    ensures c in s.sessions ==> Apply(s, step).sessions[c] == s.sessions[c]
  {
    match step
    case ByClient(d, act) => if !act.Start? { ActTouchesOwn(s, d, act); }
    case ByInvoke(id, move) => if !move.Begin? { MoveTouchesNone(s, id, move); }
    case _ =>
  }

  lemma OwnClaimGranted(s: System, c: Client, act: Act)
    requires c in s.sessions && SessionOk(s, c, s.sessions[c]) && ActEnabled(s, c, act) && !act.Start?
    requires s.sessions[c].call.Claim? && ClaimHeld(ActNow(s, c, act), c, s.sessions[c].call.job)
    requires !ClaimHeld(s, c, s.sessions[c].call.job)
    ensures act.CommitClaim? && ActNow(s, c, act).sessions[c].stage.Selecting?
  {
  }

  lemma ClaimJustGranted(s: System, step: Step, c: Client, job: JobId)
    requires Inv(s) && Enabled(s, step)
    requires ClaimHeld(Apply(s, step), c, job) && !ClaimHeld(s, c, job)
    ensures step.ByClient? && step.client == c && step.act.CommitClaim?
    ensures c in s.sessions && Job(s, c) == job && Apply(s, step).sessions[c].stage.Selecting?
  {
    if !(step.ByClient? && step.client == c) {
      OthersUntouched(s, step, c);
    } else if !step.act.Start? {
      MySession(s, c);
      ActTouchesOwn(s, c, step.act);
      OwnClaimGranted(s, c, step.act);
    }
  }

  // ----- cancellation

  /** Call `call` was started by `c` at step `j` and is still its session at `k`. */
  ghost predicate Serving(run: Run, c: Client, call: Call, j: nat, k: nat)
    requires run.Valid()
  {
    && j < k < |run.states| && run.steps[j] == ByClient(c, Start(call))
    && forall m {:trigger run.steps[m]} :: j < m < k ==> !(run.steps[m].ByClient? && run.steps[m].client == c && run.steps[m].act.Start?)
  }

  /** Once started, a session keeps its call and remembers whether it came late. */
  lemma {:induction false} SessionPersists(run: Run, c: Client, call: Call, j: nat, k: nat)
    requires run.Valid() && Serving(run, c, call, j, k)
    ensures c in run.states[k].sessions && run.states[k].sessions[c].call == call
    ensures run.states[k].sessions[c].late <==> call.job in run.states[j].markers
  {
    assert run.Taken(k - 1);
    if k > j + 1 {
      SessionPersists(run, c, call, j, k - 1);
      var s, step := run.states[k - 1], run.steps[k - 1];
      if step.ByClient? && step.client == c {
        ActTouchesOwn(s, c, step.act);
      } else {
        OthersUntouched(s, step, c);
      }
    }
  }

  /** Once a job's marker exists, no claim, renew or complete of it that starts
      later returns normally, and an inspect of it reports cancelled. */
  lemma CancellationDominates(run: Run, i: nat, j: nat, k: nat, c: Client, call: Call)
    requires run.Valid() && i <= j && Serving(run, c, call, j, k)
    requires call.job in run.states[i].markers
    ensures c in run.states[k].sessions
    ensures call.Claim? || call.Renew? || call.Complete? ==> !run.states[k].sessions[c].stage.Returned?
    ensures call.Inspect? && run.states[k].sessions[c].stage.Returned? && run.states[k].sessions[c].stage.report.Some? ==>
              run.states[k].sessions[c].stage.report == Some(Cancelled)
  {
    GrowsAlong(run, i, j);
    SessionPersists(run, c, call, j, k);
    InvAlways(run, k);
    MySession(run.states[k], c);
  }

  /** A row is cancelled only under a marker, so a completed row that turns
      cancelled was marked; and a marker is for ever. */
  lemma CancelledIsMarked(run: Run, i: nat, k: nat, job: JobId)
    requires run.Valid() && i <= k < |run.states| && job in run.states[i].jobs
    requires run.states[i].jobs[job].state == Cancelled
    ensures job in run.states[k].markers
  {
    InvAlways(run, i);
    MyRow(run.states[i], job);
    GrowsAlong(run, i, k);
  }

  /** Every `invoke` that has ended printed its job's output or left its marker;
      what it printed is the stored receipt's output. */
  lemma InvokePrintsOrCancels(run: Run, k: nat, id: JobId)
    requires run.Valid() && k < |run.states| && id in run.states[k].invokes && run.states[k].invokes[id] == Ended
    ensures HasOutput(run.states[k].log, id) || id in run.states[k].markers
    ensures HasOutput(run.states[k].log, id) ==>
              id in run.states[k].jobs && run.states[k].jobs[id].receipt.Some? &&
              Output(id, run.states[k].jobs[id].receipt.value.output) in run.states[k].log
  {
    var s := run.states[k];
    InvAlways(run, k);
    MyInvoke(s, id);
    if HasOutput(s.log, id) {
      var i :| 0 <= i < |s.log| && s.log[i].Output? && s.log[i].job == id;
      assert EventOk(s.jobs, s.log[i]);
    }
  }

  /** The invoke stands where no output was printed and only a passed marker test could lead to
      one. */
  ghost predicate Unprinted(s: System, id: JobId) {
    && id in s.invokes && id in s.markers && !HasOutput(s.log, id)
    && !s.invokes[id].Printing? && !s.invokes[id].Printed? && s.invokes[id] != Finally(true)
  }

  lemma OutputNext(log: seq<Event>, more: seq<Event>, id: JobId)
    requires !HasOutput(log, id) && forall e :: e in more ==> !(e.Output? && e.job == id)
    ensures !HasOutput(log + more, id)
  {
    var longer := log + more;
    forall i | 0 <= i < |longer| ensures !(longer[i].Output? && longer[i].job == id) {
      if i >= |log| {
        assert longer[i] in more;
      }
    }
  }

  lemma ActKeepsUnprinted(s: System, c: Client, act: Act, id: JobId)
    requires c in s.sessions && ActEnabled(s, c, act) && !act.Start? && Unprinted(s, id)
    ensures Unprinted(ActNow(s, c, act), id)
  {
    var t := ActNow(s, c, act);
    assert t.invokes == s.invokes;
    if act.CommitClaim? {
      OutputNext(s.log, [Dispatched(Job(s, c), act.minted)], id);
    } else if act.CommitComplete? {
      assert |t.log| == |s.log| + 1;
      OutputNext(s.log, [t.log[|s.log|]], id);
    }
  }

  lemma MoveKeepsUnprinted(s: System, other: JobId, move: Move, id: JobId)
    requires other in s.invokes && MoveEnabled(s, other, move) && Unprinted(s, id)
    ensures Unprinted(MoveNow(s, other, move), id)
  {
    if move.Print? {
      OutputNext(s.log, [Output(other, s.invokes[other].output)], id);
    }
  }

  /** Once the marker of an invoke's job exists, an invoke that is not already past its last
      marker test never prints. */
  lemma {:induction false} MarkedInvokeNeverPrints(run: Run, i: nat, k: nat, id: JobId)
    requires run.Valid() && i <= k < |run.states| && Unprinted(run.states[i], id)
    ensures Unprinted(run.states[k], id)
    decreases k
  {
    if i < k {
      MarkedInvokeNeverPrints(run, i, k - 1, id);
      assert run.Taken(k - 1);
      match run.steps[k - 1]
      case ByClient(c, act) => if !act.Start? { ActKeepsUnprinted(run.states[k - 1], c, act, id); }
      case ByInvoke(other, move) => if !move.Begin? { MoveKeepsUnprinted(run.states[k - 1], other, move, id); }
      case _ =>
    }
  }

  /** What an invoke makes of the row it read: it polls again exactly for a live row and goes on
      to its output exactly for a completed one, if the marker is absent; else it gives up. */
  lemma PolledIff(run: Run, k: nat, id: JobId)
    requires run.Valid() && k < |run.steps| && run.steps[k] == ByInvoke(id, TestOwnMarker)
    ensures id in run.states[k].invokes && run.states[k].invokes[id].InvokeSelected? && id in run.states[k + 1].invokes
    ensures var found, next := run.states[k].invokes[id].found, run.states[k + 1].invokes[id];
            && (next == Polling(true)
                <==> found.Some? && id !in run.states[k].markers && found.value.state in {Pending, Claimed})
            && (next.Accepting? <==> found.Some? && id !in run.states[k].markers && found.value.state == Completed)
            && (next.Accepting? ==> next.row == found.value)
            && (next == Polling(true) || next.Accepting? || next == Finally(false))
  {
    assert run.Taken(k);
    var found := run.states[k].invokes[id].found;
    assert found.Some? ==> found.value.state in {Pending, Claimed, Completed, Cancelled, Expired} by {
      if found.Some? {
        var state := found.value.state;
        assert state.Pending? || state.Claimed? || state.Completed? || state.Cancelled? || state.Expired?;
      }
    }
  }

  /** The invoke's marker exists, and it polls as it did or has ended. */
  ghost predicate Halted(s: System, id: JobId, polling: InvokeStage) {
    && id in s.invokes && id in s.markers
    && (s.invokes[id] == polling || s.invokes[id] == Finally(false) || s.invokes[id] == Ended)
  }

  lemma ActKeepsHalted(s: System, c: Client, act: Act, id: JobId, polling: InvokeStage)
    requires c in s.sessions && ActEnabled(s, c, act) && !act.Start? && Halted(s, id, polling)
    ensures Halted(ActNow(s, c, act), id, polling)
  {
    assert ActNow(s, c, act).invokes == s.invokes;
  }

  lemma MoveKeepsHalted(s: System, other: JobId, move: Move, id: JobId, polling: InvokeStage)
    requires other in s.invokes && MoveEnabled(s, other, move) && Halted(s, id, polling) && polling.Polling?
    ensures Halted(MoveNow(s, other, move), id, polling)
  {
  }

  /** An invoke whose marker exists while it polls never goes on to submit or to read its row. */
  lemma {:induction false} MarkedInvokeStops(run: Run, i: nat, k: nat, id: JobId)
    requires run.Valid() && i <= k < |run.states| && id in run.states[i].invokes && id in run.states[i].markers
    requires run.states[i].invokes[id].Polling?
    ensures Halted(run.states[k], id, run.states[i].invokes[id])
    decreases k
  {
    var polling := run.states[i].invokes[id];
    if i < k {
      MarkedInvokeStops(run, i, k - 1, id);
      assert run.Taken(k - 1);
      match run.steps[k - 1]
      case ByClient(c, act) => if !act.Start? { ActKeepsHalted(run.states[k - 1], c, act, id, polling); }
      case ByInvoke(other, move) => if !move.Begin? { MoveKeepsHalted(run.states[k - 1], other, move, id, polling); }
      case _ =>
    }
  }

  // ----- receipts

  /** A stored receipt was written exactly once, by the holder of the job's only
      token, under a lease and a deadline that lay ahead, confirming every setting
      the request names. */
  lemma ReceiptStory(run: Run, k: nat, job: JobId) returns (i: nat)
    requires run.Valid() && k < |run.states| && job in run.states[k].jobs && run.states[k].jobs[job].receipt.Some?
    ensures i < |run.states[k].log|
    ensures
      var row, e := run.states[k].jobs[job], run.states[k].log[i];
      && e.Receipted? && e.job == job && row.token == Some(e.token) && row.receipt == Some(e.receipt)
      && e.leaseSeen < e.lease && e.deadlineSeen < e.deadline == row.request.expiresAt
      && (row.request.requested.model != None ==> e.receipt.confirmed.model == row.request.requested.model)
      && (row.request.requested.reasoning != None ==> e.receipt.confirmed.reasoning == row.request.requested.reasoning)
    ensures forall m :: 0 <= m < |run.states[k].log| && m != i ==>
              !(run.states[k].log[m].Receipted? && run.states[k].log[m].job == job)
  {
    var s := run.states[k];
    InvAlways(run, k);
    assert HasReceipt(s.log, job);
    i :| 0 <= i < |s.log| && s.log[i].Receipted? && s.log[i].job == job;
    assert EventOk(s.jobs, s.log[i]);
    forall m | 0 <= m < |s.log| && m != i
      ensures !(s.log[m].Receipted? && s.log[m].job == job)
    {
      assert Logged(s.log, i) && Logged(s.log, m);
    }
  }

  /** A step of a `complete` on a job that has its receipt writes nothing: the row is no longer
      claimed, so the call cannot come to its commit. */
  lemma CompleteWritesOnce(s: System, c: Client, act: Act)
    requires Inv(s) && c in s.sessions && ActEnabled(s, c, act) && !act.Start?
    requires s.sessions[c].call.Complete? && s.sessions[c].call.job in s.jobs
    requires s.jobs[s.sessions[c].call.job].receipt.Some?
    ensures ActNow(s, c, act).jobs == s.jobs && ActNow(s, c, act).log == s.log
  {
    MySession(s, c);
    MyRow(s, s.sessions[c].call.job);
  }

  /** A `complete` that starts after the job's receipt is stored is an exact replay that changes
      nothing, or fails: none of its steps touches the table or the log, and if it returns, it
      carried the job's token and that very receipt. */
  lemma LaterCompleteIsReplay(run: Run, i: nat, j: nat, k: nat, c: Client, call: Call)
    requires run.Valid() && i <= j && Serving(run, c, call, j, k) && call.Complete?
    requires call.job in run.states[i].jobs && run.states[i].jobs[call.job].receipt.Some?
    ensures forall m {:trigger run.steps[m]} :: j <= m < k && run.steps[m].ByClient? && run.steps[m].client == c ==>
              run.states[m + 1].jobs == run.states[m].jobs && run.states[m + 1].log == run.states[m].log
    ensures c in run.states[k].sessions
    ensures run.states[k].sessions[c].stage.Returned? ==>
              && run.states[i].jobs[call.job].receipt == Some(call.receipt)
              && call.job in run.states[k].jobs && run.states[k].jobs[call.job].token == Some(call.token)
  {
    forall m {:trigger run.steps[m]} | j <= m < k && run.steps[m].ByClient? && run.steps[m].client == c
      ensures run.states[m + 1].jobs == run.states[m].jobs && run.states[m + 1].log == run.states[m].log
    {
      assert run.Taken(m);
      if m > j {
        SessionPersists(run, c, call, j, m);
        RowsOnlyAdvance(run, i, m, call.job);
        InvAlways(run, m);
        CompleteWritesOnce(run.states[m], c, run.steps[m].act);
      }
    }
    SessionPersists(run, c, call, j, k);
    InvAlways(run, k);
    MySession(run.states[k], c);
    RowsOnlyAdvance(run, i, k, call.job);
  }

  /** Tokens tell jobs apart, so a holder can only ever act on its own job. */
  lemma TokensTellJobsApart(run: Run, k: nat, a: JobId, b: JobId)
    requires run.Valid() && k < |run.states| && SameToken(run.states[k].jobs, a, b)
    ensures a == b
  {
    InvAlways(run, k);
  }
}
