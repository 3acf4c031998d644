/** Every step of the queue protocol keeps its invariant. */
module QueueInvariants {
  import opened Results
  import opened JobRows
  import opened QueueProtocol

  // ----- what a step cannot disturb

  ghost predicate Grows(s: System, s': System) {
    && JobsAdvance(s.jobs, s'.jobs) && s.markers <= s'.markers && s.log <= s'.log
  }

  lemma SessionKept(s: System, s': System, d: Client, e: Session)
    requires SessionOk(s, d, e) && Grows(s, s')
    requires s.writer == Some(d) <==> s'.writer == Some(d)
    requires InTransaction(e.stage) ==> s'.jobs == s.jobs
    ensures SessionOk(s', d, e)
  {
    if e.call.job in s.jobs {
      assert e.call.job in s'.jobs;
    }
  }

  lemma InvokeKept(s: System, s': System, id: JobId, stage: InvokeStage)
    requires InvokeOk(s, id, stage) && Grows(s, s')
    ensures InvokeOk(s', id, stage)
  {
    if id in s.jobs {
      assert id in s'.jobs;
    }
    if HasOutput(s.log, id) {
      var i :| 0 <= i < |s.log| && s.log[i].Output? && s.log[i].job == id;
      assert s'.log[i] == s.log[i];
    }
  }

  /** The writer lock is `c`'s to take, use or leave. */
  predicate Free(writer: Option<Client>, c: Client) {
    writer == None || writer == Some(c)
  }

  /** A step of client `c` that leaves its own session in order keeps all sessions. */
  lemma SessionsKept(s: System, s': System, c: Client)
    requires SessionsOk(s) && Grows(s, s') && c in s'.sessions
    requires s'.sessions == s.sessions[c := s'.sessions[c]]
    requires s'.writer == s.writer || (Free(s.writer, c) && Free(s'.writer, c))
    requires s'.jobs == s.jobs || Free(s.writer, c)
    requires SessionOk(s', c, s'.sessions[c])
    ensures SessionsOk(s')
  {
    forall d | d in s'.sessions
      ensures SessionOk(s', d, s'.sessions[d])
    {
      if d != c {
        assert d in s.sessions;
        SessionKept(s, s', d, s.sessions[d]);
      }
    }
  }

  lemma SessionsUntouched(s: System, s': System)
    requires SessionsOk(s) && Grows(s, s') && s'.sessions == s.sessions && s'.writer == s.writer
    requires s'.jobs == s.jobs || s.writer.None?
    ensures SessionsOk(s')
  {
    forall d | d in s'.sessions
      ensures SessionOk(s', d, s'.sessions[d])
    {
      assert d in s.sessions;
      SessionKept(s, s', d, s.sessions[d]);
    }
  }

  lemma InvokesUntouched(s: System, s': System)
    requires InvokesOk(s) && Grows(s, s') && s'.invokes == s.invokes
    ensures InvokesOk(s')
  {
    forall id | id in s'.invokes
      ensures InvokeOk(s', id, s'.invokes[id])
    {
      assert id in s.invokes;
      InvokeKept(s, s', id, s.invokes[id]);
    }
  }

  lemma InvokesKept(s: System, s': System, id: JobId)
    requires InvokesOk(s) && Grows(s, s') && id in s'.invokes
    requires s'.invokes == s.invokes[id := s'.invokes[id]] && InvokeOk(s', id, s'.invokes[id])
    ensures InvokesOk(s')
  {
    forall k | k in s'.invokes
      ensures InvokeOk(s', k, s'.invokes[k])
    {
      if k != id {
        assert k in s.invokes;
        InvokeKept(s, s', k, s.invokes[k]);
      }
    }
  }

  // ----- the table and the log

  /** No token or receipt appears that was not there. */
  ghost predicate NothingNew(jobs: Jobs, jobs': Jobs) {
    forall j {:trigger j in jobs'} :: j in jobs' ==>
      && (jobs'[j].token.Some? ==> j in jobs && jobs[j].token.Some?)
      && (jobs'[j].receipt.Some? ==> j in jobs && jobs[j].receipt.Some?)
  }

  lemma EventKept(jobs: Jobs, jobs': Jobs, e: Event)
    requires JobsAdvance(jobs, jobs') && EventOk(jobs, e)
    ensures EventOk(jobs', e)
  {
    assert e.job in jobs';
  }

  lemma EventsKept(jobs: Jobs, jobs': Jobs, log: seq<Event>)
    requires JobsAdvance(jobs, jobs') && LogOk(jobs, log)
    ensures forall i {:trigger EventOk(jobs', log[i])} :: 0 <= i < |log| ==> EventOk(jobs', log[i])
  {
    forall i | 0 <= i < |log|
      ensures EventOk(jobs', log[i])
    {
      assert EventOk(jobs, log[i]);
      EventKept(jobs, jobs', log[i]);
    }
  }

  lemma LogKept(jobs: Jobs, jobs': Jobs, log: seq<Event>)
    requires JobsAdvance(jobs, jobs') && NothingNew(jobs, jobs') && LogOk(jobs, log)
    ensures LogOk(jobs', log)
  {
    EventsKept(jobs, jobs', log);
    forall j | j in jobs'
      ensures jobs'[j].token.Some? ==> HasDispatch(log, j)
      ensures jobs'[j].receipt.Some? ==> HasReceipt(log, j)
    {
      assert j in jobs ==> jobs[j].token.Some? ==> HasDispatch(log, j);
      assert j in jobs ==> jobs[j].receipt.Some? ==> HasReceipt(log, j);
    }
  }

  lemma FoundInLonger(log: seq<Event>, e: Event, j: JobId)
    ensures HasDispatch(log, j) ==> HasDispatch(log + [e], j)
    ensures HasReceipt(log, j) ==> HasReceipt(log + [e], j)
    ensures HasOutput(log, j) ==> HasOutput(log + [e], j)
    ensures e.job == j ==> (e.Dispatched? ==> HasDispatch(log + [e], j)) && (e.Receipted? ==> HasReceipt(log + [e], j)) &&
                           (e.Output? ==> HasOutput(log + [e], j))
  {
    var more := log + [e];
    assert more[|log|] == e;
    if HasDispatch(log, j) {
      var i :| 0 <= i < |log| && log[i].Dispatched? && log[i].job == j;
      assert more[i] == log[i];
    }
    if HasReceipt(log, j) {
      var i :| 0 <= i < |log| && log[i].Receipted? && log[i].job == j;
      assert more[i] == log[i];
    }
    if HasOutput(log, j) {
      var i :| 0 <= i < |log| && log[i].Output? && log[i].job == j;
      assert more[i] == log[i];
    }
  }

  lemma LoggedLonger(log: seq<Event>, e: Event)
    requires forall i {:trigger Logged(log, i)} :: 0 <= i < |log| ==> Logged(log, i)
    requires forall k {:trigger log[k]} :: 0 <= k < |log| ==> !Repeats(log[k], e)
    ensures forall i {:trigger Logged(log + [e], i)} :: 0 <= i < |log + [e]| ==> Logged(log + [e], i)
  {
    var more := log + [e];
    forall i | 0 <= i < |more|
      ensures Logged(more, i)
    {
      if i < |log| {
        assert Logged(log, i);
        assert forall k :: 0 <= k < i ==> more[k] == log[k];
      } else {
        assert forall k :: 0 <= k < i ==> more[k] == log[k];
      }
    }
  }

  /** The log may grow by an event the table bears out, if it repeats none. */
  lemma LogGrows(jobs: Jobs, jobs': Jobs, log: seq<Event>, e: Event)
    requires JobsAdvance(jobs, jobs') && LogOk(jobs, log) && EventOk(jobs', e)
    requires e.Dispatched? ==> e.job in jobs && jobs[e.job].token.None?
    requires e.Receipted? ==> e.job in jobs && jobs[e.job].receipt.None?
    requires forall j {:trigger j in jobs'} :: j in jobs' ==>
      && (jobs'[j].token.Some? ==> (j in jobs && jobs[j].token.Some?) || (e.Dispatched? && e.job == j))
      && (jobs'[j].receipt.Some? ==> (j in jobs && jobs[j].receipt.Some?) || (e.Receipted? && e.job == j))
    ensures LogOk(jobs', log + [e])
  {
    EventsKept(jobs, jobs', log);
    var more := log + [e];
    forall i | 0 <= i < |more|
      ensures EventOk(jobs', more[i])
    {
      assert i < |log| ==> more[i] == log[i] && EventOk(jobs', log[i]);
    }
    forall k | 0 <= k < |log|
      ensures !Repeats(log[k], e)
    {
      assert EventOk(jobs, log[k]);
    }
    LoggedLonger(log, e);
    forall j | j in jobs'
      ensures jobs'[j].token.Some? ==> HasDispatch(more, j)
      ensures jobs'[j].receipt.Some? ==> HasReceipt(more, j)
    {
      FoundInLonger(log, e, j);
      assert j in jobs ==> jobs[j].token.Some? ==> HasDispatch(log, j);
      assert j in jobs ==> jobs[j].receipt.Some? ==> HasReceipt(log, j);
    }
  }

  lemma TokensKept(jobs: Jobs, jobs': Jobs)
    requires TokensDiffer(jobs) && JobsAdvance(jobs, jobs') && NothingNew(jobs, jobs')
    ensures TokensDiffer(jobs')
  {
    forall a, b | SameToken(jobs', a, b)
      ensures a == b
    {
      assert a in jobs' && b in jobs';
      assert SameToken(jobs, a, b);
    }
  }

  /** One row replaced by one it may advance to. */
  lemma RowReplaced(jobs: Jobs, markers: set<JobId>, job: JobId, row: Row)
    requires RowsOk(jobs, markers) && job in jobs
    requires Advances(jobs[job], row) && RowOk(row) && (row.state.Cancelled? ==> job in markers)
    ensures RowsOk(jobs[job := row], markers) && JobsAdvance(jobs, jobs[job := row])
    ensures row.token == jobs[job].token && row.receipt == jobs[job].receipt ==> NothingNew(jobs, jobs[job := row])
  {
  }

  lemma RowAdded(jobs: Jobs, markers: set<JobId>, job: JobId, request: Request)
    requires RowsOk(jobs, markers) && job !in jobs
    ensures RowsOk(jobs[job := NewRow(request)], markers)
    ensures JobsAdvance(jobs, jobs[job := NewRow(request)]) && NothingNew(jobs, jobs[job := NewRow(request)])
  {
  }

  lemma SweepKeeps(jobs: Jobs, markers: set<JobId>, seen: set<JobId>, leaseSeen: real, deadlineSeen: real)
    requires RowsOk(jobs, markers) && seen <= markers
    ensures RowsOk(Swept(jobs, seen, leaseSeen, deadlineSeen), markers)
    ensures JobsAdvance(jobs, Swept(jobs, seen, leaseSeen, deadlineSeen))
    ensures NothingNew(jobs, Swept(jobs, seen, leaseSeen, deadlineSeen))
  {
  }

  // ----- step by step

  /** The table part of the invariant. */
  ghost predicate TableOk(jobs: Jobs, markers: set<JobId>, log: seq<Event>) {
    RowsOk(jobs, markers) && TokensDiffer(jobs) && LogOk(jobs, log)
  }

  lemma TableKept(jobs: Jobs, jobs': Jobs, markers: set<JobId>, log: seq<Event>)
    requires TableOk(jobs, markers, log)
    requires RowsOk(jobs', markers) && JobsAdvance(jobs, jobs') && NothingNew(jobs, jobs')
    ensures TableOk(jobs', markers, log)
  {
    TokensKept(jobs, jobs');
    LogKept(jobs, jobs', log);
  }

  lemma SameJobs(jobs: Jobs)
    ensures JobsAdvance(jobs, jobs) && NothingNew(jobs, jobs)
  {
  }

  /** More markers leave the table part alone. */
  lemma MoreMarkers(jobs: Jobs, markers: set<JobId>, more: set<JobId>, log: seq<Event>)
    requires TableOk(jobs, markers, log) && markers <= more
    ensures TableOk(jobs, more, log)
  {
  }

  lemma SubmitKeeps(s: System, step: Step)
    requires Inv(s) && Enabled(s, step) && step.Submit?
    ensures Inv(Apply(s, step)) && Grows(s, Apply(s, step))
  {
    var s' := Apply(s, step);
    RowAdded(s.jobs, s.markers, step.job, step.request);
    TableKept(s.jobs, s'.jobs, s.markers, s.log);
    SessionsUntouched(s, s');
    InvokesUntouched(s, s');
  }

  lemma TouchKeeps(s: System, step: Step)
    requires Inv(s) && Enabled(s, step) && step.Touch?
    ensures Inv(Apply(s, step)) && Grows(s, Apply(s, step))
  {
    var s' := Apply(s, step);
    SameJobs(s.jobs);
    MoreMarkers(s.jobs, s.markers, s'.markers, s.log);
    SessionsUntouched(s, s');
    InvokesUntouched(s, s');
  }

  /** A step of `c` that writes no row and logs nothing. */
  lemma QuietStep(s: System, s': System, c: Client)
    requires Inv(s) && c in s'.sessions
    requires s'.jobs == s.jobs && s.markers <= s'.markers && s'.log == s.log && s'.invokes == s.invokes
    requires s'.sessions == s.sessions[c := s'.sessions[c]]
    requires s'.writer == s.writer || (Free(s.writer, c) && Free(s'.writer, c))
    requires SessionOk(s', c, s'.sessions[c])
    ensures Inv(s') && Grows(s, s')
  {
    SameJobs(s.jobs);
    MoreMarkers(s.jobs, s.markers, s'.markers, s.log);
    SessionsKept(s, s', c);
    InvokesUntouched(s, s');
  }

  /** A step of `c` that rewrites rows without a new token or receipt. */
  lemma RowStep(s: System, s': System, c: Client)
    requires Inv(s) && c in s'.sessions && Free(s.writer, c) && Free(s'.writer, c)
    requires s'.markers == s.markers && s'.log == s.log && s'.invokes == s.invokes
    requires RowsOk(s'.jobs, s.markers) && JobsAdvance(s.jobs, s'.jobs) && NothingNew(s.jobs, s'.jobs)
    requires s'.sessions == s.sessions[c := s'.sessions[c]]
    requires SessionOk(s', c, s'.sessions[c])
    ensures Inv(s') && Grows(s, s')
  {
    TableKept(s.jobs, s'.jobs, s.markers, s.log);
    SessionsKept(s, s', c);
    InvokesUntouched(s, s');
  }

  /** The session a client step starts from. */
  lemma MySession(s: System, c: Client)
    requires Inv(s) && c in s.sessions
    ensures SessionOk(s, c, s.sessions[c])
  {
  }

  lemma MyRow(s: System, job: JobId)
    requires Inv(s) && job in s.jobs
    ensures RowOk(s.jobs[job]) && (s.jobs[job].state.Cancelled? ==> job in s.markers)
  {
  }

  lemma StartKeeps(s: System, c: Client, call: Call)
    requires Inv(s) && Enabled(s, ByClient(c, Start(call)))
    ensures Inv(Apply(s, ByClient(c, Start(call)))) && Grows(s, Apply(s, ByClient(c, Start(call))))
  {
    if c in s.sessions {
      MySession(s, c);
    }
    assert s.writer != Some(c);
    QuietStep(s, Apply(s, ByClient(c, Start(call))), c);
  }

  lemma SelectKeeps(s: System, c: Client, act: Act)
    requires Inv(s) && c in s.sessions && ActEnabled(s, c, act)
    requires act.SelectSweep? || act.SelectRow?
    ensures Inv(ActNow(s, c, act)) && Grows(s, ActNow(s, c, act))
  {
    MySession(s, c);
    QuietStep(s, ActNow(s, c, act), c);
  }

  lemma CheckKeeps(s: System, c: Client, act: Act)
    requires Inv(s) && c in s.sessions && ActEnabled(s, c, act)
    requires act.LastCheck? || act.MarkCancelled?
    ensures Inv(ActNow(s, c, act)) && Grows(s, ActNow(s, c, act))
  {
    MySession(s, c);
    QuietStep(s, ActNow(s, c, act), c);
  }

  lemma OpenKeeps(s: System, c: Client, act: Act)
    requires Inv(s) && c in s.sessions && ActEnabled(s, c, act)
    requires act.Open? || act.Abort?
    ensures Inv(ActNow(s, c, act)) && Grows(s, ActNow(s, c, act))
  {
    MySession(s, c);
    QuietStep(s, ActNow(s, c, act), c);
  }

  lemma TestKeeps(s: System, c: Client)
    requires Inv(s) && c in s.sessions && s.sessions[c].stage.Selected?
    ensures Inv(TestNow(s, c)) && Grows(s, TestNow(s, c))
  {
    MySession(s, c);
    TestedOk(s, c);
    QuietStep(s, TestNow(s, c), c);
  }

  lemma TestedOk(s: System, c: Client)
    requires c in s.sessions && s.sessions[c].stage.Selected? && SessionOk(s, c, s.sessions[c])
    ensures SessionOk(TestNow(s, c), c, TestNow(s, c).sessions[c])
  {
  }

  lemma ConfirmKeeps(s: System, c: Client)
    requires Inv(s) && c in s.sessions && s.sessions[c].stage.Written?
    ensures Inv(ConfirmNow(s, c)) && Grows(s, ConfirmNow(s, c))
  {
    MySession(s, c);
    QuietStep(s, ConfirmNow(s, c), c);
  }

  lemma WriteKeeps(s: System, c: Client, now: real, leaseSeen: real, deadlineSeen: real)
    requires Inv(s) && c in s.sessions && s.sessions[c].stage.Checked? && s.sessions[c].call.Complete?
    ensures Inv(WriteNow(s, c, now, leaseSeen, deadlineSeen))
    ensures Grows(s, WriteNow(s, c, now, leaseSeen, deadlineSeen))
  {
    MySession(s, c);
    QuietStep(s, WriteNow(s, c, now, leaseSeen, deadlineSeen), c);
  }

  lemma SweepActKeeps(s: System, c: Client, act: Act)
    requires Inv(s) && c in s.sessions && ActEnabled(s, c, act) && act.Sweep?
    ensures Inv(ActNow(s, c, act)) && Grows(s, ActNow(s, c, act))
  {
    MySession(s, c);
    SweepKeeps(s.jobs, s.markers, act.seen, act.leaseSeen, act.deadlineSeen);
    RowStep(s, ActNow(s, c, act), c);
  }

  lemma RenewKeeps(s: System, c: Client, lease: real, leaseSeen: real, deadlineSeen: real)
    requires Inv(s) && c in s.sessions && s.sessions[c].stage.Checked? && s.sessions[c].call.Renew?
    ensures Inv(RenewNow(s, c, lease, leaseSeen, deadlineSeen))
    ensures Grows(s, RenewNow(s, c, lease, leaseSeen, deadlineSeen))
  {
    MySession(s, c);
    var s', call := RenewNow(s, c, lease, leaseSeen, deadlineSeen), s.sessions[c].call;
    if call.job in s.jobs && Holds(s.jobs[call.job], call.token, leaseSeen, deadlineSeen) {
      MyRow(s, call.job);
      RowReplaced(s.jobs, s.markers, call.job, RenewedRow(s.jobs[call.job], lease));
      RowStep(s, s', c);
    } else {
      QuietStep(s, s', c);
    }
  }

  lemma CancelKeeps(s: System, c: Client)
    requires Inv(s) && c in s.sessions && s.sessions[c].stage.Marked? && s.writer.None?
    ensures Inv(CancelNow(s, c)) && Grows(s, CancelNow(s, c))
  {
    MySession(s, c);
    var job := Job(s, c);
    if job in s.jobs && Live(s.jobs[job]) {
      MyRow(s, job);
      RowReplaced(s.jobs, s.markers, job, CancelledRow(s.jobs[job]));
      RowStep(s, CancelNow(s, c), c);
    } else {
      QuietStep(s, CancelNow(s, c), c);
    }
  }

  /** A fresh token keeps tokens apart. */
  lemma MintedDiffers(jobs: Jobs, job: JobId, row: Row)
    requires TokensDiffer(jobs) && job in jobs && jobs[job].token.None?
    requires row.token.Some? && row.token.value !in Tokens(jobs)
    ensures TokensDiffer(jobs[job := row])
  {
    var jobs' := jobs[job := row];
    assert forall j :: j in jobs && jobs[j].token.Some? ==> jobs[j].token.value in Tokens(jobs);
    forall a, b | SameToken(jobs', a, b)
      ensures a == b
    {
      if a != job && b != job {
        assert SameToken(jobs, a, b);
      }
    }
  }

  lemma ClaimKeeps(s: System, c: Client, minted: Token, lease: real, now: real)
    requires Inv(s) && c in s.sessions && s.sessions[c].stage.Checked? && s.sessions[c].call.Claim?
    requires minted !in Tokens(s.jobs)
    ensures Inv(ClaimNow(s, c, minted, lease, now)) && Grows(s, ClaimNow(s, c, minted, lease, now))
  {
    MySession(s, c);
    var s', job := ClaimNow(s, c, minted, lease, now), Job(s, c);
    if job in s.jobs && MayClaim(s.jobs[job], now) {
      MyRow(s, job);
      var row := ClaimedRow(s.jobs[job], minted, lease);
      RowReplaced(s.jobs, s.markers, job, row);
      MintedDiffers(s.jobs, job, row);
      LogGrows(s.jobs, s'.jobs, s.log, Dispatched(job, minted));
      SessionsKept(s, s', c);
      InvokesUntouched(s, s');
    } else {
      QuietStep(s, s', c);
    }
  }

  lemma SameTokens(jobs: Jobs, job: JobId, row: Row)
    requires TokensDiffer(jobs) && job in jobs && row.token == jobs[job].token
    ensures TokensDiffer(jobs[job := row])
  {
    var jobs' := jobs[job := row];
    forall a, b | SameToken(jobs', a, b)
      ensures a == b
    {
      assert SameToken(jobs, a, b);
    }
  }

  lemma CommitKeeps(s: System, c: Client)
    requires Inv(s) && c in s.sessions && s.sessions[c].stage.Confirmed? && s.sessions[c].call.Complete?
    ensures Inv(CommitNow(s, c)) && Grows(s, CommitNow(s, c))
  {
    MySession(s, c);
    var s', call, stage := CommitNow(s, c), s.sessions[c].call, s.sessions[c].stage;
    MyRow(s, call.job);
    RowReplaced(s.jobs, s.markers, call.job, stage.row);
    SameTokens(s.jobs, call.job, stage.row);
    LogGrows(s.jobs, s'.jobs, s.log, s'.log[|s.log|]);
    SessionsKept(s, s', c);
    InvokesUntouched(s, s');
  }

  lemma ActKeeps(s: System, c: Client, act: Act)
    requires Inv(s) && c in s.sessions && ActEnabled(s, c, act) && !act.Start?
    ensures Inv(ActNow(s, c, act)) && Grows(s, ActNow(s, c, act))
  {
    match act
    case Sweep(_, _, _) => SweepActKeeps(s, c, act);
    case CommitClaim(minted, lease, now) => ClaimKeeps(s, c, minted, lease, now);
    case CommitRenew(lease, leaseSeen, deadlineSeen) => RenewKeeps(s, c, lease, leaseSeen, deadlineSeen);
    case Write(now, leaseSeen, deadlineSeen) => WriteKeeps(s, c, now, leaseSeen, deadlineSeen);
    case Confirm => ConfirmKeeps(s, c);
    case CommitComplete => CommitKeeps(s, c);
    case TestMarker => TestKeeps(s, c);
    case UpdateCancelled => CancelKeeps(s, c);
    case SelectSweep => SelectKeeps(s, c, act);
    case SelectRow => SelectKeeps(s, c, act);
    case LastCheck => CheckKeeps(s, c, act);
    case MarkCancelled => CheckKeeps(s, c, act);
    case Open => OpenKeeps(s, c, act);
    case Abort => OpenKeeps(s, c, act);
  }

  // ----- invoke

  /** An `invoke` step that writes no row and logs nothing. */
  lemma QuietMove(s: System, s': System, id: JobId)
    requires Inv(s) && id in s'.invokes
    requires s'.jobs == s.jobs && s.markers <= s'.markers && s'.log == s.log
    requires s'.sessions == s.sessions && s'.writer == s.writer
    requires s'.invokes == s.invokes[id := s'.invokes[id]] && InvokeOk(s', id, s'.invokes[id])
    ensures Inv(s') && Grows(s, s')
  {
    SameJobs(s.jobs);
    MoreMarkers(s.jobs, s.markers, s'.markers, s.log);
    SessionsUntouched(s, s');
    InvokesKept(s, s', id);
  }

  lemma RowMove(s: System, s': System, id: JobId)
    requires Inv(s) && id in s'.invokes && s.writer.None? && s'.writer.None?
    requires s'.markers == s.markers && s'.log == s.log && s'.sessions == s.sessions
    requires RowsOk(s'.jobs, s.markers) && JobsAdvance(s.jobs, s'.jobs) && NothingNew(s.jobs, s'.jobs)
    requires s'.invokes == s.invokes[id := s'.invokes[id]] && InvokeOk(s', id, s'.invokes[id])
    ensures Inv(s') && Grows(s, s')
  {
    TableKept(s.jobs, s'.jobs, s.markers, s.log);
    SessionsUntouched(s, s');
    InvokesKept(s, s', id);
  }

  lemma MyInvoke(s: System, id: JobId)
    requires Inv(s) && id in s.invokes
    ensures InvokeOk(s, id, s.invokes[id])
    ensures id in s.jobs ==> RowOk(s.jobs[id])
  {
    if id in s.jobs {
      MyRow(s, id);
    }
  }

  lemma QuietMoveKeeps(s: System, id: JobId, move: Move)
    requires Inv(s) && id in s.invokes && MoveEnabled(s, id, move)
    requires !move.SubmitOwn? && !move.SweepOwn? && !move.Print?
    ensures Inv(MoveNow(s, id, move)) && Grows(s, MoveNow(s, id, move))
  {
    MyInvoke(s, id);
    QuietMove(s, MoveNow(s, id, move), id);
  }

  lemma PrintKeeps(s: System, id: JobId)
    requires Inv(s) && id in s.invokes && s.invokes[id].Printing?
    ensures Inv(MoveNow(s, id, Print)) && Grows(s, MoveNow(s, id, Print))
  {
    MyInvoke(s, id);
    var s', e := MoveNow(s, id, Print), Output(id, s.invokes[id].output);
    SameJobs(s.jobs);
    LogGrows(s.jobs, s.jobs, s.log, e);
    FoundInLonger(s.log, e, id);
    SessionsUntouched(s, s');
    InvokesKept(s, s', id);
  }

  lemma MoveKeeps(s: System, id: JobId, move: Move)
    requires Inv(s) && id in s.invokes && MoveEnabled(s, id, move)
    ensures Inv(MoveNow(s, id, move)) && Grows(s, MoveNow(s, id, move))
  {
    match move
    case SubmitOwn(request) =>
      RowAdded(s.jobs, s.markers, id, request);
      RowMove(s, MoveNow(s, id, move), id);
    case SweepOwn(seen, leaseSeen, deadlineSeen) =>
      SweepKeeps(s.jobs, s.markers, seen, leaseSeen, deadlineSeen);
      RowMove(s, MoveNow(s, id, move), id);
    case Print => PrintKeeps(s, id);
    case _ => QuietMoveKeeps(s, id, move);
  }

  lemma BeginKeeps(s: System, id: JobId)
    requires Inv(s) && Enabled(s, ByInvoke(id, Begin))
    ensures Inv(Apply(s, ByInvoke(id, Begin))) && Grows(s, Apply(s, ByInvoke(id, Begin)))
  {
    QuietMove(s, Apply(s, ByInvoke(id, Begin)), id);
  }

  // ----- any step

  lemma InitHolds()
    ensures Inv(Init())
  {
  }

  lemma StepKeeps(s: System, step: Step)
    requires Inv(s) && Enabled(s, step)
    ensures Inv(Apply(s, step)) && Grows(s, Apply(s, step))
  {
    match step
    case Submit(_, _) => SubmitKeeps(s, step);
    case Touch(_) => TouchKeeps(s, step);
    case ByClient(c, act) => if act.Start? { StartKeeps(s, c, act.call); } else { ActKeeps(s, c, act); }
    case ByInvoke(id, move) => if move.Begin? { BeginKeeps(s, id); } else { MoveKeeps(s, id, move); }
  }
}
