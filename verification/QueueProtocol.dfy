/**
  The dots-host queue as a concurrent system: any number of processes run `claim`,
  `renew`, `complete`, `inspect`, `cancel` and `reconcile` on one database, hosts
  run `invoke`, and cancellation markers may appear between any two steps.

  A write transaction holds the database's writer lock from its BEGIN to its
  commit; markers are files and are never protected by that lock. Every read of
  the clock is an arbitrary real. Fresh tokens and fresh invoke job ids stand for
  UUIDs; a marker is named by its job id, as the SHA-256 file name identifies it.
 */
module QueueProtocol {
  import opened Results
  import opened JobRows

  type Client = nat

  datatype Call =
    | Claim(job: JobId)
    | Renew(job: JobId, token: Token)
    | Complete(job: JobId, token: Token, receipt: Receipt)
    | Inspect(job: JobId)
    | Cancel(job: JobId)
    | Reconcile(job: JobId)

  /** Where a call stands. */
  datatype Stage =
    | Sweeping                                   // reconcile has not read the table yet
    | Reconciling(ids: set<JobId>, known: set<JobId>)  // rows selected; `known` were already marked
    | Opening                                    // about to BEGIN IMMEDIATE
    | Checked                                    // in the transaction, marker absent when tested
    | Written(row: Row, leaseSeen: real, deadlineSeen: real)    // `complete` ran its UPDATE
    | Confirmed(row: Row, leaseSeen: real, deadlineSeen: real)  // second marker test passed
    | Committed                                  // `complete` committed
    | Selecting                                  // inspect has not read the row yet
    | Selected(found: Option<Row>)               // row read, marker not tested yet
    | Marking                                    // `cancel` decided to cancel
    | Marked                                     // `cancel` made the marker
    | Returned(report: Option<JobState>)
    | Raised

  /** A call in progress or finished; `late` records that the job's marker already
      existed when the call started. */
  datatype Session = Session(call: Call, late: bool, stage: Stage)

  /** Where an `invoke` stands; `submitted` is the source's flag. */
  datatype InvokeStage =
    | Polling(submitted: bool)
    | Submitting
    | InvokeSweeping
    | InvokeReconciling(ids: set<JobId>, known: set<JobId>)
    | InvokeSelecting
    | InvokeSelected(found: Option<Row>)
    | Accepting(row: Row)      // reported completed, last marker test outstanding
    | Printing(output: string)
    | Printed
    | Finally(completed: bool)
    | Ended

  datatype Event =
    | Dispatched(job: JobId, token: Token)
    | Receipted(job: JobId, token: Token, receipt: Receipt, lease: real, leaseSeen: real, deadline: real, deadlineSeen: real)
    | Output(job: JobId, output: string)

  datatype System = System(
    jobs: Jobs,
    markers: set<JobId>,
    writer: Option<Client>,
    sessions: map<Client, Session>,
    invokes: map<JobId, InvokeStage>,
    log: seq<Event>)

  /** One step of a process serving a call. */
  datatype Act =
    | Start(call: Call)
    | SelectSweep
    | Sweep(seen: set<JobId>, leaseSeen: real, deadlineSeen: real)
    | Open
    | CommitClaim(minted: Token, lease: real, now: real)
    | CommitRenew(lease: real, leaseSeen: real, deadlineSeen: real)
    | Write(now: real, leaseSeen: real, deadlineSeen: real)
    | Confirm
    | CommitComplete
    | LastCheck
    | SelectRow
    | TestMarker
    | MarkCancelled
    | UpdateCancelled
    | Abort

  /** One step of an `invoke`. */
  datatype Move =
    | Begin
    | Poll
    | SubmitOwn(request: Request)
    | SelectOwnSweep
    | SweepOwn(seen: set<JobId>, leaseSeen: real, deadlineSeen: real)
    | SelectOwnRow
    | TestOwnMarker
    | Accept
    | Print
    | Succeed
    | Fail
    | Signal
    | Finish

  datatype Step =
    | Submit(job: JobId, request: Request)
    | Touch(job: JobId)
    | ByClient(client: Client, act: Act)
    | ByInvoke(id: JobId, move: Move)

  function Init(): System {
    System(map[], {}, None, map[], map[], [])
  }

  // ----- reading the system

  predicate Running(s: System, c: Client) {
    c in s.sessions && !s.sessions[c].stage.Returned? && !s.sessions[c].stage.Raised?
  }

  function Job(s: System, c: Client): JobId
    requires c in s.sessions
  {
    s.sessions[c].call.job
  }

  /** The tokens written so far. */
  function Tokens(jobs: Jobs): set<Token> {
    set j | j in jobs && jobs[j].token.Some? :: jobs[j].token.value
  }

  function RowOf(jobs: Jobs, job: JobId): Option<Row> {
    if job in jobs then Some(jobs[job]) else None
  }

  /** The state `inspect` reports for a row it read. */
  function ReportedState(row: Row, marked: bool): JobState {
    if marked then Cancelled else row.state
  }

  // ----- writing the system

  function Put(s: System, c: Client, stage: Stage): System
    requires c in s.sessions
  {
    s.(sessions := s.sessions[c := s.sessions[c].(stage := stage)])
  }

  /** Leaves the transaction, without or with one row written. */
  function Leave(s: System, c: Client, stage: Stage): System
    requires c in s.sessions
  {
    Put(s, c, stage).(writer := None)
  }

  function PutInvoke(s: System, id: JobId, stage: InvokeStage): System {
    s.(invokes := s.invokes[id := stage])
  }

  function FirstStage(call: Call): Stage {
    match call
    case Claim(_) => Sweeping
    case Reconcile(_) => Sweeping
    case Renew(_, _) => Opening
    case Complete(_, _, _) => Opening
    case Inspect(_) => Selecting
    case Cancel(_) => Selecting
  }

  /** Which steps a state allows. */
  predicate Enabled(s: System, step: Step) {
    match step
    case Submit(job, request) => s.writer.None? && job !in s.jobs
    case Touch(job) => true
    case ByClient(c, act) => if act.Start? then !Running(s, c) else c in s.sessions && ActEnabled(s, c, act)
    case ByInvoke(id, move) =>
      if move.Begin? then id !in s.invokes && id !in s.jobs && id !in s.markers
      else id in s.invokes && MoveEnabled(s, id, move)
  }

  predicate ActEnabled(s: System, c: Client, act: Act)
    requires c in s.sessions
  {
    var call, stage := s.sessions[c].call, s.sessions[c].stage;
    match act
    case Start(_) => !Running(s, c)
    case SelectSweep => stage.Sweeping?
    case Sweep(seen, _, _) => stage.Reconciling? && s.writer.None? && stage.known <= seen <= stage.ids * s.markers
    case Open => stage.Opening? && s.writer.None?
    case CommitClaim(minted, _, _) => stage.Checked? && call.Claim? && minted !in Tokens(s.jobs)
    case CommitRenew(_, _, _) => stage.Checked? && call.Renew?
    case Write(_, _, _) => stage.Checked? && call.Complete?
    case Confirm => stage.Written?
    case CommitComplete => stage.Confirmed? && call.Complete?
    case LastCheck => stage.Committed?
    case SelectRow => stage.Selecting?
    case TestMarker => stage.Selected?
    case MarkCancelled => stage.Marking?
    case UpdateCancelled => stage.Marked? && s.writer.None?
    case Abort => Running(s, c)
  }

  predicate MoveEnabled(s: System, id: JobId, move: Move)
    requires id in s.invokes
  {
    var stage := s.invokes[id];
    match move
    case Begin => false
    case Poll => stage.Polling?
    case SubmitOwn(_) => stage.Submitting? && s.writer.None? && id !in s.jobs
    case SelectOwnSweep => stage.InvokeSweeping?
    case SweepOwn(seen, _, _) => stage.InvokeReconciling? && s.writer.None? && stage.known <= seen <= stage.ids * s.markers
    case SelectOwnRow => stage.InvokeSelecting?
    case TestOwnMarker => stage.InvokeSelected?
    case Accept => stage.Accepting?
    case Print => stage.Printing?
    case Succeed => stage.Printed?
    case Fail => !stage.Finally? && !stage.Ended?
    case Signal => !stage.Ended?
    case Finish => stage.Finally?
  }

  // ----- what each step does

  /** `UPDATE ... WHERE state='pending'`, then commit or raise. */
  function ClaimNow(s: System, c: Client, minted: Token, lease: real, now: real): System
    requires c in s.sessions
  {
    var job := Job(s, c);
    if job in s.jobs && MayClaim(s.jobs[job], now) then
      Leave(s, c, Selecting).(
        jobs := s.jobs[job := ClaimedRow(s.jobs[job], minted, lease)],
        log := s.log + [Dispatched(job, minted)])
    else Leave(s, c, Raised)
  }

  function RenewNow(s: System, c: Client, lease: real, leaseSeen: real, deadlineSeen: real): System
    requires c in s.sessions && s.sessions[c].call.Renew?
  {
    var call := s.sessions[c].call;
    if call.job in s.jobs && Holds(s.jobs[call.job], call.token, leaseSeen, deadlineSeen) then
      Leave(s, c, Returned(None)).(jobs := s.jobs[call.job := RenewedRow(s.jobs[call.job], lease)])
    else Leave(s, c, Raised)
  }

  /** `complete` between its first and second marker tests: an exact replay
      returns, a stale holder or an unconfirmed setting raises, else the row is
      written but not committed. */
  function WriteNow(s: System, c: Client, now: real, leaseSeen: real, deadlineSeen: real): System
    requires c in s.sessions && s.sessions[c].call.Complete?
  {
    var call := s.sessions[c].call;
    if call.job !in s.jobs then Leave(s, c, Raised)
    else
      var row := s.jobs[call.job];
      if IsReplay(row, call.token, call.receipt) then Leave(s, c, Returned(None))
      else if !row.state.Claimed? || row.token != Some(call.token) || row.lease.None? || row.lease.value <= now
      then Leave(s, c, Raised)
      else if !Confirms(row.request.requested, call.receipt.confirmed) then Leave(s, c, Raised)
      else if !Holds(row, call.token, leaseSeen, deadlineSeen) then Leave(s, c, Raised)
      else Put(s, c, Written(CompletedRow(row, call.receipt), leaseSeen, deadlineSeen))
  }

  function CommitNow(s: System, c: Client): System
    requires c in s.sessions && s.sessions[c].stage.Confirmed? && s.sessions[c].call.Complete?
  {
    var call, stage := s.sessions[c].call, s.sessions[c].stage;
    var lease := if stage.row.lease.Some? then stage.row.lease.value else 0.0;
    Leave(s, c, Committed).(
      jobs := s.jobs[call.job := stage.row],
      log := s.log + [Receipted(call.job, call.token, call.receipt, lease, stage.leaseSeen,
                                stage.row.request.expiresAt, stage.deadlineSeen)])
  }

  /** The marker test that ends `inspect`, and what the caller makes of it. */
  function TestNow(s: System, c: Client): System
    requires c in s.sessions && s.sessions[c].stage.Selected?
  {
    var found, call := s.sessions[c].stage.found, s.sessions[c].call;
    var report := if found.Some? then Some(ReportedState(found.value, call.job in s.markers)) else None;
    if call.Cancel? && report != Some(Completed) then Put(s, c, Marking) else Put(s, c, Returned(report))
  }

  /** What `invoke` does with the row it polled. */
  function PolledNow(s: System, id: JobId, found: Option<Row>): InvokeStage {
    if found.None? then Finally(false)
    else
      match ReportedState(found.value, id in s.markers)
      case Completed => Accepting(found.value)
      case Cancelled => Finally(false)
      case Expired => Finally(false)
      case Pending => Polling(true)
      case Claimed => Polling(true)
  }

  function ActNow(s: System, c: Client, act: Act): System
    requires c in s.sessions && ActEnabled(s, c, act) && !act.Start?
  {
    match act
    case SelectSweep => Put(s, c, Reconciling(Sweepable(s.jobs), Sweepable(s.jobs) * s.markers))
    case Sweep(seen, leaseSeen, deadlineSeen) =>
      Put(s, c, if s.sessions[c].call.Claim? then Opening else Returned(None)).(
        jobs := Swept(s.jobs, seen, leaseSeen, deadlineSeen))
    case Open => if Job(s, c) in s.markers then Put(s, c, Raised) else Put(s, c, Checked).(writer := Some(c))
    case CommitClaim(minted, lease, now) => ClaimNow(s, c, minted, lease, now)
    case CommitRenew(lease, leaseSeen, deadlineSeen) => RenewNow(s, c, lease, leaseSeen, deadlineSeen)
    case Write(now, leaseSeen, deadlineSeen) => WriteNow(s, c, now, leaseSeen, deadlineSeen)
    case Confirm => ConfirmNow(s, c)
    case CommitComplete => CommitNow(s, c)
    case LastCheck => Put(s, c, if Job(s, c) in s.markers then Raised else Returned(None))
    case SelectRow => Put(s, c, Selected(RowOf(s.jobs, Job(s, c))))
    case TestMarker => TestNow(s, c)
    case MarkCancelled => Put(s, c, Marked).(markers := s.markers + {Job(s, c)})
    case UpdateCancelled => CancelNow(s, c)
    case Abort => Put(s, c, Raised).(writer := if s.writer == Some(c) then None else s.writer)
  }

  /** The second marker test of `complete`. */
  function ConfirmNow(s: System, c: Client): System
    requires c in s.sessions && s.sessions[c].stage.Written?
  {
    var st := s.sessions[c].stage;
    if Job(s, c) in s.markers then Leave(s, c, Raised)
    else Put(s, c, Confirmed(st.row, st.leaseSeen, st.deadlineSeen))
  }

  function CancelNow(s: System, c: Client): System
    requires c in s.sessions
  {
    var job := Job(s, c);
    Put(s, c, Returned(None)).(
      jobs := if job in s.jobs && Live(s.jobs[job]) then s.jobs[job := CancelledRow(s.jobs[job])] else s.jobs)
  }

  function MoveNow(s: System, id: JobId, move: Move): System
    requires id in s.invokes && MoveEnabled(s, id, move)
  {
    match move
    case Poll =>
      PutInvoke(s, id, if id in s.markers then Finally(false)
                       else if s.invokes[id].submitted then InvokeSweeping else Submitting)
    case SubmitOwn(request) => PutInvoke(s, id, InvokeSweeping).(jobs := s.jobs[id := NewRow(request)])
    case SelectOwnSweep => PutInvoke(s, id, InvokeReconciling(Sweepable(s.jobs), Sweepable(s.jobs) * s.markers))
    case SweepOwn(seen, leaseSeen, deadlineSeen) =>
      PutInvoke(s, id, InvokeSelecting).(jobs := Swept(s.jobs, seen, leaseSeen, deadlineSeen))
    case SelectOwnRow => PutInvoke(s, id, InvokeSelected(RowOf(s.jobs, id)))
    case TestOwnMarker => PutInvoke(s, id, PolledNow(s, id, s.invokes[id].found))
    case Accept =>
      var row := s.invokes[id].row;
      PutInvoke(s, id, if id in s.markers || row.receipt.None? then Finally(false)
                       else Printing(row.receipt.value.output))
    case Print => PutInvoke(s, id, Printed).(log := s.log + [Output(id, s.invokes[id].output)])
    case Succeed => PutInvoke(s, id, Finally(true))
    case Fail => PutInvoke(s, id, Finally(false))
    case Signal =>
      PutInvoke(s, id, if s.invokes[id].Finally? then s.invokes[id] else Finally(false)).(markers := s.markers + {id})
    case Finish =>
      PutInvoke(s, id, Ended).(markers := if s.invokes[id].completed then s.markers else s.markers + {id})
  }

  function Apply(s: System, step: Step): System
    requires Enabled(s, step)
  {
    match step
    case Submit(job, request) => s.(jobs := s.jobs[job := NewRow(request)])
    case Touch(job) => s.(markers := s.markers + {job})
    case ByClient(c, act) =>
      if act.Start? then s.(sessions := s.sessions[c := Session(act.call, act.call.job in s.markers, FirstStage(act.call))])
      else ActNow(s, c, act)
    case ByInvoke(id, move) => if move.Begin? then PutInvoke(s, id, Polling(false)) else MoveNow(s, id, move)
  }

  // ----- invariants

  /** Rows are well formed, and a cancelled row has a marker. */
  ghost predicate RowsOk(jobs: Jobs, markers: set<JobId>) {
    forall j {:trigger j in jobs} :: j in jobs ==> RowOk(jobs[j]) && (jobs[j].state.Cancelled? ==> j in markers)
  }

  /** No two jobs share a token. */
  ghost predicate TokensDiffer(jobs: Jobs) {
    forall a, b {:trigger SameToken(jobs, a, b)} :: SameToken(jobs, a, b) ==> a == b
  }

  ghost predicate SameToken(jobs: Jobs, a: JobId, b: JobId) {
    a in jobs && b in jobs && jobs[a].token.Some? && jobs[a].token == jobs[b].token
  }

  /** What an event says is still what the table says. */
  ghost predicate EventOk(jobs: Jobs, e: Event) {
    && e.job in jobs
    && match e
       case Dispatched(j, token) => jobs[j].token == Some(token)
       case Receipted(j, token, receipt, lease, leaseSeen, deadline, deadlineSeen) =>
         && jobs[j].token == Some(token) && jobs[j].receipt == Some(receipt)
         && leaseSeen < lease && deadlineSeen < deadline && deadline == jobs[j].request.expiresAt
         && Confirms(jobs[j].request.requested, receipt.confirmed)
       case Output(j, output) => jobs[j].receipt.Some? && jobs[j].receipt.value.output == output
  }

  /** Both events dispatch the same job, or both complete it. */
  predicate Repeats(a: Event, b: Event) {
    || (a.Dispatched? && b.Dispatched? && a.job == b.job)
    || (a.Receipted? && b.Receipted? && a.job == b.job)
  }

  ghost predicate Logged(log: seq<Event>, i: int)
    requires 0 <= i < |log|
  {
    forall k {:trigger log[k]} :: 0 <= k < i ==> !Repeats(log[k], log[i])
  }

  /** The log agrees with the table, dispatches and completes each job at most
      once, and explains every token and receipt in the table. */
  ghost predicate LogOk(jobs: Jobs, log: seq<Event>) {
    && (forall i {:trigger EventOk(jobs, log[i])} :: 0 <= i < |log| ==> EventOk(jobs, log[i]))
    && (forall i {:trigger Logged(log, i)} :: 0 <= i < |log| ==> Logged(log, i))
    && (forall j {:trigger HasDispatch(log, j)} :: j in jobs && jobs[j].token.Some? ==> HasDispatch(log, j))
    && (forall j {:trigger HasReceipt(log, j)} :: j in jobs && jobs[j].receipt.Some? ==> HasReceipt(log, j))
  }

  ghost predicate HasDispatch(log: seq<Event>, j: JobId) {
    exists i {:trigger log[i]} :: 0 <= i < |log| && log[i].Dispatched? && log[i].job == j
  }

  ghost predicate HasReceipt(log: seq<Event>, j: JobId) {
    exists i {:trigger log[i]} :: 0 <= i < |log| && log[i].Receipted? && log[i].job == j
  }

  predicate InTransaction(stage: Stage) {
    stage.Checked? || stage.Written? || stage.Confirmed?
  }

  /** A row read earlier has since only advanced. */
  ghost predicate StillBehind(jobs: Jobs, job: JobId, row: Row) {
    job in jobs && Advances(row, jobs[job])
  }

  /** The row `complete` has written but not committed. */
  ghost predicate WriteOk(jobs: Jobs, call: Call, row: Row, leaseSeen: real, deadlineSeen: real) {
    && call.Complete? && call.job in jobs
    && Holds(jobs[call.job], call.token, leaseSeen, deadlineSeen)
    && Confirms(jobs[call.job].request.requested, call.receipt.confirmed)
    && row == CompletedRow(jobs[call.job], call.receipt)
  }

  /** Stages that a claim, renew or complete reaches only past its first marker test. */
  predicate PastCheck(call: Call, stage: Stage) {
    match call
    case Claim(_) => InTransaction(stage) || stage.Selecting? || stage.Selected? || stage.Returned?
    case Renew(_, _) => InTransaction(stage) || stage.Returned?
    case Complete(_, _, _) => InTransaction(stage) || stage.Committed? || stage.Returned?
    case _ => false
  }

  /** Which calls can stand at which stage. */
  predicate StageFits(call: Call, stage: Stage) {
    match stage
    case Sweeping => call.Claim? || call.Reconcile?
    case Reconciling(_, _) => call.Claim? || call.Reconcile?
    case Opening => call.Claim? || call.Renew? || call.Complete?
    case Checked => call.Claim? || call.Renew? || call.Complete?
    case Written(_, _, _) => call.Complete?
    case Confirmed(_, _, _) => call.Complete?
    case Committed => call.Complete?
    case Selecting => call.Claim? || call.Inspect? || call.Cancel?
    case Selected(_) => call.Claim? || call.Inspect? || call.Cancel?
    case Marking => call.Cancel?
    case Marked => call.Cancel?
    case Returned(_) => true
    case Raised => true
  }

  ghost predicate SessionOk(s: System, c: Client, e: Session) {
    && StageFits(e.call, e.stage)
    && (e.late ==> e.call.job in s.markers)
    && (e.late ==> !PastCheck(e.call, e.stage))
    && (InTransaction(e.stage) <==> s.writer == Some(c))
    && (e.stage.Written? ==> WriteOk(s.jobs, e.call, e.stage.row, e.stage.leaseSeen, e.stage.deadlineSeen))
    && (e.stage.Confirmed? ==> WriteOk(s.jobs, e.call, e.stage.row, e.stage.leaseSeen, e.stage.deadlineSeen))
    && (e.stage.Selected? && e.stage.found.Some? ==> StillBehind(s.jobs, e.call.job, e.stage.found.value))
    && (e.late && e.call.Inspect? && e.stage.Returned? && e.stage.report.Some? ==> e.stage.report == Some(Cancelled))
    && (e.call.Complete? && (e.stage.Committed? || e.stage.Returned?) ==>
          e.call.job in s.jobs && s.jobs[e.call.job].token == Some(e.call.token) &&
          s.jobs[e.call.job].receipt == Some(e.call.receipt))
    && (e.stage.Marked? ==> e.call.job in s.markers)
  }

  ghost predicate SessionsOk(s: System) {
    && (forall c {:trigger c in s.sessions} :: c in s.sessions ==> SessionOk(s, c, s.sessions[c]))
    && (s.writer.Some? ==> s.writer.value in s.sessions)
  }

  ghost predicate InvokeOk(s: System, id: JobId, stage: InvokeStage) {
    && (stage.InvokeSelected? && stage.found.Some? ==> StillBehind(s.jobs, id, stage.found.value) && RowOk(stage.found.value))
    && (stage.Accepting? ==> StillBehind(s.jobs, id, stage.row) && RowOk(stage.row) && stage.row.state.Completed?)
    && (stage.Printing? ==> id in s.jobs && s.jobs[id].receipt.Some? && s.jobs[id].receipt.value.output == stage.output)
    && (stage.Printed? ==> HasOutput(s.log, id))
    && (stage.Finally? && stage.completed ==> HasOutput(s.log, id))
    && (stage.Ended? ==> HasOutput(s.log, id) || id in s.markers)
  }

  ghost predicate HasOutput(log: seq<Event>, j: JobId) {
    exists i {:trigger log[i]} :: 0 <= i < |log| && log[i].Output? && log[i].job == j
  }

  ghost predicate InvokesOk(s: System) {
    forall id {:trigger id in s.invokes} :: id in s.invokes ==> InvokeOk(s, id, s.invokes[id])
  }

  ghost predicate Inv(s: System) {
    && RowsOk(s.jobs, s.markers) && TokensDiffer(s.jobs) && LogOk(s.jobs, s.log)
    && SessionsOk(s) && InvokesOk(s)
  }
}
