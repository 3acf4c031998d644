/**
  The `Queue` object of `crewplane_dots_host/__init__.py`, run by one process. Its
  fields are the jobs table and the marker directory. Every method is a run of the
  queue protocol: the ghost field `run` grows by the steps its statements take, so
  that what holds over every run holds of every history of the object. Other
  processes cannot change rows inside a write transaction, but they can make markers
  at any point; `during` and `after` are the markers they make while `Complete` runs.
 */
module JobQueue {
  import opened Results
  import opened Text
  import opened JobRows
  import opened QueueProtocol
  import opened QueueRuns
  import opened QueueCalls

  datatype Outcome<+T> = Done(value: T) | Rejected(message: string)

  // ----- receipts as the host sends them

  /** A JSON value, as far as the checks of a receipt tell values apart. */
  datatype Value = Words(text: string) | Null | Mapping(fields: map<string, Value>) | Other

  predicate NonBlank(v: Value) {
    v.Words? && Strip(v.text) != []
  }

  predicate WordsOrNull(v: Value) {
    v.Words? || v.Null?
  }

  function Read(v: Value): Option<string> {
    if v.Words? then Some(v.text) else None
  }

  function Write'(setting: Option<string>): Value {
    if setting.Some? then Words(setting.value) else Null
  }

  /** The validation at the head of `complete`. */
  function ReadReceipt(v: Value): Result<Receipt> {
    if !v.Mapping? || v.fields.Keys != {"output", "host_agent_id", "confirmed", "evidence"} then
      Error("Receipt requires output, host_agent_id, confirmed, evidence")
    else if !(NonBlank(v.fields["output"]) && NonBlank(v.fields["host_agent_id"]) && NonBlank(v.fields["evidence"])) then
      Error("Receipt text fields must be nonempty strings")
    else
      var confirmed := v.fields["confirmed"];
      if !confirmed.Mapping? || confirmed.fields.Keys != {"model", "reasoning"} then
        Error("Confirmed model/reasoning must be explicit, null if unknown")
      else if !(WordsOrNull(confirmed.fields["model"]) && WordsOrNull(confirmed.fields["reasoning"])) then
        Error("Invalid confirmed model/reasoning")
      else
        Ok(Receipt(v.fields["output"].text, v.fields["host_agent_id"].text,
                   Settings(Read(confirmed.fields["model"]), Read(confirmed.fields["reasoning"])),
                   v.fields["evidence"].text))
  }

  function SettingsValue(s: Settings): Value {
    Mapping(map["model" := Write'(s.model), "reasoning" := Write'(s.reasoning)])
  }

  function ReceiptValue(r: Receipt): Value {
    Mapping(map["output" := Words(r.output), "host_agent_id" := Words(r.hostAgentId),
                "confirmed" := SettingsValue(r.confirmed), "evidence" := Words(r.evidence)])
  }

  lemma SettingsReadBack(v: Value)
    requires v.Mapping? && v.fields.Keys == {"model", "reasoning"}
    requires WordsOrNull(v.fields["model"]) && WordsOrNull(v.fields["reasoning"])
    ensures v == SettingsValue(Settings(Read(v.fields["model"]), Read(v.fields["reasoning"])))
  {
  }

  predicate NoBlanks(r: Receipt) {
    Strip(r.output) != [] && Strip(r.hostAgentId) != [] && Strip(r.evidence) != []
  }

  lemma ReadIsWritten(v: Value)
    requires ReadReceipt(v).Ok?
    ensures v == ReceiptValue(ReadReceipt(v).value) && NoBlanks(ReadReceipt(v).value)
  {
    SettingsReadBack(v.fields["confirmed"]);
    assert v.fields == ReceiptValue(ReadReceipt(v).value).fields;
  }

  lemma WrittenIsRead(r: Receipt)
    requires NoBlanks(r)
    ensures ReadReceipt(ReceiptValue(r)) == Ok(r)
  {
    var v := ReceiptValue(r);
    assert v.fields.Keys == {"output", "host_agent_id", "confirmed", "evidence"};
    assert v.fields["confirmed"] == SettingsValue(r.confirmed);
    assert v.fields["confirmed"].fields.Keys == {"model", "reasoning"};
  }

  lemma WrittenDiffer(a: Receipt, b: Receipt)
    requires ReceiptValue(a) == ReceiptValue(b)
    ensures a == b
  {
    var v, w := ReceiptValue(a).fields, ReceiptValue(b).fields;
    assert v["output"] == w["output"] && v["host_agent_id"] == w["host_agent_id"] && v["evidence"] == w["evidence"];
    assert v["confirmed"] == w["confirmed"];
    SettingsDiffer(a.confirmed, b.confirmed);
  }

  lemma SettingsDiffer(a: Settings, b: Settings)
    requires SettingsValue(a) == SettingsValue(b)
    ensures a == b
  {
    var v, w := SettingsValue(a).fields, SettingsValue(b).fields;
    assert v["model"] == w["model"] && v["reasoning"] == w["reasoning"];
  }

  /** The validation accepts exactly the values that spell a receipt without blank text, and
      reads that receipt. */
  lemma ReadReceiptIff(v: Value, receipt: Receipt)
    ensures ReadReceipt(v) == Ok(receipt) <==> v == ReceiptValue(receipt) && NoBlanks(receipt)
  {
    if ReadReceipt(v).Ok? {
      ReadIsWritten(v);
      if v == ReceiptValue(receipt) {
        WrittenDiffer(receipt, ReadReceipt(v).value);
      }
    }
    if NoBlanks(receipt) {
      WrittenIsRead(receipt);
    }
  }

  // ----- the queue

  class Queue {
    const me: Client
    var jobs: Jobs
    var markers: set<JobId>
    /** Everything that happened to the database so far. */
    ghost var run: Run

    ghost predicate Valid()
      reads this
    {
      run.Valid() && Idle(run.Last(), me, jobs, markers)
    }

    /** The last call of this process was `call`, and this is how it ended. */
    ghost predicate Ended(call: Call, stage: Stage)
      reads this
    {
      run.Valid() && Over(run.Last(), me, call, stage, jobs, markers)
    }

    constructor (me: Client)
      ensures Valid() && jobs == map[] && markers == {} && run.steps == []
    {
      this.me, jobs, markers := me, map[], {};
      run := Run([Init()], []);
    }

    method MarkCancelled(job: JobId)
      requires Valid()
      modifies this`markers, this`run
      ensures Valid() && Continues(old(run), run) && markers == old(markers) + {job}
    {
      run := Extend(run, Touch(job));
      markers := markers + {job};
    }

    /** What other processes do between two calls of this one: any steps of the protocol, on
        rows and markers, that leave the writer lock free. The next call finds the database
        they leave. */
    method Meanwhile(jobs': Jobs, markers': set<JobId>, ghost longer: Run)
      requires Valid() && longer.Valid() && OthersOnly(run, longer, me) && longer.Last().writer.None?
      requires longer.Last().jobs == jobs' && longer.Last().markers == markers'
      modifies this`jobs, this`markers, this`run
      ensures Valid() && Continues(old(run), run) && run == longer && jobs == jobs' && markers == markers'
    {
      OthersKeepIdle(run, longer, me, |longer.steps|);
      run := longer;
      jobs, markers := jobs', markers';
    }

    method Submit(job: JobId, prompt: string, requested: Settings, timeout: real, now: real) returns (r: Outcome<JobId>)
      requires Valid()
      modifies this`jobs, this`run
      ensures Valid() && Continues(old(run), run)
      ensures r.Done? <==> timeout > 0.0 && job !in old(jobs)
      ensures jobs == if r.Done?
                      then old(jobs)[job := Row(Pending, Request(prompt, requested, now + timeout), None, None, None)]
                      else old(jobs)
      ensures r.Done? ==> r.value == job
    {
      if timeout <= 0.0 {
        return Rejected("Duration must be finite and positive");
      }
      if job in jobs {
        return Rejected("UNIQUE constraint failed: jobs.id");
      }
      var request := Request(prompt, requested, now + timeout);
      run := Extend(run, QueueProtocol.Submit(job, request));
      jobs := jobs[job := NewRow(request)];
      return Done(job);
    }

    /** The row with the state the protocol reports for it, which is `cancelled` for ever once
        the marker exists. */
    method Inspect(job: JobId) returns (found: Option<Row>)
      requires Valid()
      modifies this`run
      ensures Valid() && Continues(old(run), run)
      ensures Ended(QueueProtocol.Inspect(job), Returned(if found.Some? then Some(found.value.state) else None))
      ensures found.Some? <==> job in jobs
      ensures found.Some? && job in markers ==> found == Some(jobs[job].(state := Cancelled))
      ensures found.Some? && job !in markers ==> found == Some(jobs[job])
    {
      run := Started(run, me, QueueProtocol.Inspect(job), jobs, markers);
      run := Looks(run, me, QueueProtocol.Inspect(job), jobs, markers);
      if job !in jobs {
        return None;
      }
      var row := jobs[job];
      return Some(row.(state := ReportedState(row, job in markers)));
    }

    /** The statements of `reconcile`. */
    method SweepTable(leaseSeen: real, deadlineSeen: real) returns (expired: nat)
      modifies this`jobs
      ensures jobs == Swept(old(jobs), Sweepable(old(jobs)) * markers, leaseSeen, deadlineSeen)
      ensures expired == |set j | j in old(jobs) && old(jobs)[j].state != Expired && jobs[j].state == Expired|
    {
      ghost var before := jobs;
      var todo := Sweepable(jobs);
      while todo != {}
        invariant todo <= Sweepable(before) && jobs.Keys == before.Keys
        invariant forall j {:trigger jobs[j]} :: j in before ==>
          jobs[j] == if j in Sweepable(before) - todo && j in markers then CancelledRow(before[j]) else before[j]
      {
        var j :| j in todo;
        if j in markers {
          jobs := jobs[j := CancelledRow(jobs[j])];
        }
        todo := todo - {j};
      }
      var lapsed := set j | j in jobs && LapsedAt(jobs[j], leaseSeen, deadlineSeen);
      jobs := map j | j in jobs :: if j in lapsed then ExpiredRow(jobs[j]) else jobs[j];
      SweptTogether(before, jobs, markers, lapsed, leaseSeen, deadlineSeen);
      return |lapsed|;
    }

    method Reconcile(leaseSeen: real, deadlineSeen: real) returns (expired: nat)
      requires Valid()
      modifies this`jobs, this`run
      ensures Valid() && Continues(old(run), run) && Ended(QueueProtocol.Reconcile(""), Returned(None))
      ensures jobs.Keys == old(jobs).Keys
      ensures forall j {:trigger jobs[j]} :: j in jobs ==>
        var row := old(jobs)[j];
        jobs[j] == if j in markers && row.state in {Pending, Claimed, Completed} then row.(state := Cancelled)
                   else if row.state == Claimed && row.lease.Some? && row.lease.value <= leaseSeen then row.(state := Expired)
                   else if row.state in {Pending, Claimed} && row.request.expiresAt <= deadlineSeen then row.(state := Expired)
                   else row
      ensures expired == |set j | j in old(jobs) && old(jobs)[j].state != Expired && jobs[j].state == Expired|
    {
      run := Started(run, me, QueueProtocol.Reconcile(""), jobs, markers);
      run := SweepsRows(run, me, QueueProtocol.Reconcile(""), jobs, markers, leaseSeen, deadlineSeen);
      SweptFields(jobs, markers, leaseSeen, deadlineSeen);
      expired := SweepTable(leaseSeen, deadlineSeen);
    }

    method Claim(job: JobId, seconds: real, token: Token, leaseNow: real, now: real, leaseSeen: real, deadlineSeen: real)
      returns (r: Outcome<Row>)
      requires Valid() && token !in Tokens(jobs)
      modifies this`jobs, this`run
      ensures Valid() && Continues(old(run), run)
      ensures seconds <= 0.0 ==> r.Rejected? && jobs == old(jobs) && run == old(run)
      ensures seconds > 0.0 ==>
        Ended(QueueProtocol.Claim(job), if r.Done? then Returned(Some(r.value.state)) else Raised)
      ensures r.Done? <==> && seconds > 0.0 && job !in markers && job in old(jobs) && old(jobs)[job].state == Pending
                           && old(jobs)[job].request.expiresAt > deadlineSeen && old(jobs)[job].request.expiresAt > now
      ensures r.Done? ==>
        && job in jobs && r.value == jobs[job]
        && jobs[job] == old(jobs)[job].(state := Claimed, token := Some(token), lease := Some(leaseNow + seconds))
      ensures seconds > 0.0 ==>
        var swept := Swept(old(jobs), Sweepable(old(jobs)) * markers, leaseSeen, deadlineSeen);
        jobs == if r.Done? then swept[job := jobs[job]] else swept
    {
      if seconds <= 0.0 {
        return Rejected("Duration must be finite and positive");
      }
      SweptTokens(jobs, Sweepable(jobs) * markers, leaseSeen, deadlineSeen);
      run := ClaimCall(run, me, job, jobs, markers, token, leaseNow + seconds, now, leaseSeen, deadlineSeen);
      ClaimableFields(jobs, markers, job, now, leaseSeen, deadlineSeen);
      var _ := SweepTable(leaseSeen, deadlineSeen);
      if job in markers {
        return Rejected("Job cancelled");
      }
      if job !in jobs || !MayClaim(jobs[job], now) {
        return Rejected("Job is absent or already claimed/terminal");
      }
      jobs := jobs[job := ClaimedRow(jobs[job], token, leaseNow + seconds)];
      return Done(jobs[job]);
    }

    method Renew(job: JobId, token: Token, seconds: real, leaseNow: real, leaseSeen: real, deadlineSeen: real)
      returns (r: Outcome<()>)
      requires Valid()
      modifies this`jobs, this`run
      ensures Valid() && Continues(old(run), run)
      ensures seconds <= 0.0 ==> run == old(run)
      ensures seconds > 0.0 ==> Ended(QueueProtocol.Renew(job, token), if r.Done? then Returned(None) else Raised)
      ensures r.Done? <==> && seconds > 0.0 && job !in markers && job in old(jobs)
                           && old(jobs)[job].state == Claimed && old(jobs)[job].token == Some(token)
                           && old(jobs)[job].lease.Some? && old(jobs)[job].lease.value > leaseSeen
                           && old(jobs)[job].request.expiresAt > deadlineSeen
      ensures jobs == if r.Done? then old(jobs)[job := old(jobs)[job].(lease := Some(leaseNow + seconds))] else old(jobs)
    {
      if seconds <= 0.0 {
        return Rejected("Duration must be finite and positive");
      }
      run := RenewCall(run, me, job, token, jobs, markers, leaseNow + seconds, leaseSeen, deadlineSeen);
      if job in markers {
        return Rejected("Job cancelled");
      }
      if job !in jobs || !Holds(jobs[job], token, leaseSeen, deadlineSeen) {
        return Rejected("Stale or invalid lease");
      }
      jobs := jobs[job := RenewedRow(jobs[job], leaseNow + seconds)];
      return Done(());
    }

    /** The transaction of `complete`, with its three marker tests: before the row is read,
        before the commit, and after it. A marker made after the second test makes the call
        fail although the row is committed. */
    method CompleteRow(job: JobId, token: Token, receipt: Receipt, now: real, leaseSeen: real, deadlineSeen: real,
                       during: set<JobId>, after: set<JobId>) returns (r: Outcome<()>, committed: bool)
      modifies this`jobs, this`markers
      ensures Completing(if r.Done? then Returned(None) else Raised, jobs, markers)
              == Completion(QueueProtocol.Complete(job, token, receipt), old(jobs), old(markers),
                            now, leaseSeen, deadlineSeen, during, after)
      ensures CompletesRow(job, token, receipt, now, leaseSeen, deadlineSeen, during, after,
                           old(jobs), old(markers), jobs, r.Done?, committed)
    {
      committed := false;
      if job in markers {
        return Rejected("Job cancelled"), false;
      }
      if job !in jobs {
        return Rejected("Unknown job"), false;
      }
      var row := jobs[job];
      if IsReplay(row, token, receipt) {
        return Done(()), false;
      }
      if row.state != Claimed || row.token != Some(token) || row.lease.None? || row.lease.value <= now {
        return Rejected("Stale, cancelled, or invalid completion"), false;
      }
      if !Confirms(row.request.requested, receipt.confirmed) {
        return Rejected("Requested configuration not confirmed; no fallback permitted"), false;
      }
      if !Holds(row, token, leaseSeen, deadlineSeen) {
        return Rejected("Completion lost lease"), false;
      }
      markers := markers + during;
      if job in markers {
        return Rejected("Job cancelled"), false;
      }
      jobs := jobs[job := CompletedRow(row, receipt)];
      committed := true;
      markers := markers + after;
      if job in markers {
        return Rejected("Job cancelled"), true;
      }
      return Done(()), true;
    }

    method Complete(job: JobId, token: Token, payload: Value, now: real, leaseSeen: real, deadlineSeen: real,
                    during: set<JobId>, after: set<JobId>) returns (r: Outcome<()>, committed: bool)
      requires Valid()
      modifies this`jobs, this`markers, this`run
      ensures Valid() && Continues(old(run), run)
      ensures ReadReceipt(payload).Error? ==>
        r.Rejected? && !committed && jobs == old(jobs) && markers == old(markers) && run == old(run)
      ensures ReadReceipt(payload).Ok? ==>
        var receipt := ReadReceipt(payload).value;
        && Ended(QueueProtocol.Complete(job, token, receipt), if r.Done? then Returned(None) else Raised)
        && CompletesRow(job, token, receipt, now, leaseSeen, deadlineSeen, during, after,
                        old(jobs), old(markers), jobs, r.Done?, committed)
    {
      var read := ReadReceipt(payload);
      if read.Error? {
        return Rejected(read.message), false;
      }
      ghost var call := QueueProtocol.Complete(job, token, read.value);
      run := CompleteCall(run, me, call, jobs, markers, now, leaseSeen, deadlineSeen, during, after);
      r, committed := CompleteRow(job, token, read.value, now, leaseSeen, deadlineSeen, during, after);
    }

    method Cancel(job: JobId)
      requires Valid()
      modifies this
      ensures Valid() && Continues(old(run), run)
      ensures
        var settled := job in old(jobs) && old(jobs)[job].state == Completed && job !in old(markers);
        && Ended(QueueProtocol.Cancel(job), Returned(if settled then Some(Completed) else None))
        && markers == (if settled then old(markers) else old(markers) + {job})
        && jobs == (if !settled && job in old(jobs) && old(jobs)[job].state in {Pending, Claimed}
                    then old(jobs)[job := old(jobs)[job].(state := Cancelled)] else old(jobs))
    {
      run := CancelCall(run, me, job, jobs, markers);
      if job in jobs && ReportedState(jobs[job], job in markers) == Completed {
        return;
      }
      markers := markers + {job};
      if job in jobs && Live(jobs[job]) {
        jobs := jobs[job := CancelledRow(jobs[job])];
      }
    }
  }

  /** What `complete` does with a well-formed receipt: exactly when it commits the row, and
      exactly when it returns. */
  ghost predicate CompletesRow(
    job: JobId, token: Token, receipt: Receipt, now: real, leaseSeen: real, deadlineSeen: real, during: set<JobId>,
    after: set<JobId>, jobs: Jobs, markers: set<JobId>, jobs': Jobs, done: bool, committed: bool)
  {
    && (committed <==> && job !in markers + during && job in jobs
                       && jobs[job].state == Claimed && jobs[job].token == Some(token)
                       && jobs[job].lease.Some? && jobs[job].lease.value > now && jobs[job].lease.value > leaseSeen
                       && jobs[job].request.expiresAt > deadlineSeen
                       && (jobs[job].request.requested.model != None
                           ==> receipt.confirmed.model == jobs[job].request.requested.model)
                       && (jobs[job].request.requested.reasoning != None
                           ==> receipt.confirmed.reasoning == jobs[job].request.requested.reasoning))
    && jobs' == (if committed then jobs[job := jobs[job].(state := Completed, receipt := Some(receipt))] else jobs)
    && (done <==> (committed && job !in after)
                  || (job !in markers && job in jobs && jobs[job].state == Completed
                      && jobs[job].token == Some(token) && jobs[job].receipt == Some(receipt)))
    && (done ==> job in jobs' && jobs'[job].token == Some(token) && jobs'[job].receipt == Some(receipt))
  }

  // ----- what the methods rely on

  /** A sweep on the fields of each row: a marked row that is not terminal is cancelled; of the
      others a claimed one whose lease has passed and a live one whose deadline has passed
      expire; every other row is as it was. */
  lemma SweptFields(jobs: Jobs, markers: set<JobId>, leaseSeen: real, deadlineSeen: real)
    ensures var swept := Swept(jobs, Sweepable(jobs) * markers, leaseSeen, deadlineSeen);
            && swept.Keys == jobs.Keys
            && forall j {:trigger swept[j]} :: j in jobs ==>
                 var row := jobs[j];
                 swept[j] == if j in markers && row.state in {Pending, Claimed, Completed} then row.(state := Cancelled)
                             else if row.state == Claimed && row.lease.Some? && row.lease.value <= leaseSeen
                             then row.(state := Expired)
                             else if row.state in {Pending, Claimed} && row.request.expiresAt <= deadlineSeen
                             then row.(state := Expired)
                             else row
  {
  }

  /** When the job can be claimed after the sweep, in terms of the row before it. */
  lemma ClaimableFields(jobs: Jobs, markers: set<JobId>, job: JobId, now: real, leaseSeen: real, deadlineSeen: real)
    ensures var swept := Swept(jobs, Sweepable(jobs) * markers, leaseSeen, deadlineSeen);
            && (job !in markers && job in swept && MayClaim(swept[job], now)
                <==> && job !in markers && job in jobs && jobs[job].state == Pending
                     && jobs[job].request.expiresAt > deadlineSeen && jobs[job].request.expiresAt > now)
            && (job !in markers && job in swept && MayClaim(swept[job], now) ==> swept[job] == jobs[job])
  {
  }

  lemma SweptTokens(jobs: Jobs, seen: set<JobId>, leaseSeen: real, deadlineSeen: real)
    ensures Tokens(Swept(jobs, seen, leaseSeen, deadlineSeen)) == Tokens(jobs)
  {
    var swept := Swept(jobs, seen, leaseSeen, deadlineSeen);
    forall j | j in jobs
      ensures swept[j].token == jobs[j].token
    {
    }
    assert forall j :: j in swept && swept[j].token.Some? ==> jobs[j].token.value in Tokens(jobs);
    assert forall j :: j in jobs && jobs[j].token.Some? ==> swept[j].token.value in Tokens(swept);
  }

  /** The two statements of `reconcile` together are one sweep. */
  lemma SweptTogether(before: Jobs, after: Jobs, markers: set<JobId>, lapsed: set<JobId>, leaseSeen: real, deadlineSeen: real)
    requires after.Keys == before.Keys
    requires forall j :: j in before ==>
      var row := if j in Sweepable(before) && j in markers then CancelledRow(before[j]) else before[j];
      && (j in lapsed <==> LapsedAt(row, leaseSeen, deadlineSeen))
      && after[j] == if j in lapsed then ExpiredRow(row) else row
    requires lapsed <= before.Keys
    ensures after == Swept(before, Sweepable(before) * markers, leaseSeen, deadlineSeen)
    ensures lapsed == set j | j in before && before[j].state != Expired && after[j].state == Expired
  {
  }
}
