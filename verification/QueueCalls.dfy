/** The calls of one process as runs of the protocol: which steps a call takes, one after the
    other, when only cancellation markers come in between. */
module QueueCalls {
  import opened Results
  import opened JobRows
  import opened QueueProtocol
  import opened QueueRuns

  /** The database and the marker directory between two calls of client `c`. */
  ghost predicate Idle(s: System, c: Client, jobs: Jobs, markers: set<JobId>) {
    s.jobs == jobs && s.markers == markers && s.writer.None? && !Running(s, c)
  }

  /** Client `c` serves `call` and has come to `stage`. */
  ghost predicate At(s: System, c: Client, call: Call, stage: Stage, jobs: Jobs, markers: set<JobId>) {
    && c in s.sessions && s.sessions[c].call == call && s.sessions[c].stage == stage
    && s.jobs == jobs && s.markers == markers
    && s.writer == (if InTransaction(stage) then Some(c) else None)
  }

  /** The call is over, and this is how it ended. */
  ghost predicate Over(s: System, c: Client, call: Call, stage: Stage, jobs: Jobs, markers: set<JobId>) {
    (stage.Returned? || stage.Raised?) && At(s, c, call, stage, jobs, markers)
  }

  /** What follows `run` in `longer` is not done by client `c`. */
  ghost predicate OthersOnly(run: Run, longer: Run, c: Client) {
    && Continues(run, longer)
    && forall m {:trigger longer.steps[m]} :: |run.steps| <= m < |longer.steps| ==>
         !(longer.steps[m].ByClient? && longer.steps[m].client == c)
  }

  /** Whatever other processes do, they start no call of `c`. */
  lemma {:induction false} OthersKeepIdle(run: Run, longer: Run, c: Client, m: nat)
    requires run.Valid() && longer.Valid() && OthersOnly(run, longer, c) && !Running(run.Last(), c)
    requires |run.steps| <= m < |longer.states|
    ensures !Running(longer.states[m], c)
    decreases m
  {
    if m == |run.steps| {
      assert longer.states[m] == run.states[m];
    } else {
      OthersKeepIdle(run, longer, c, m - 1);
      assert longer.Taken(m - 1);
      OthersUntouched(longer.states[m - 1], longer.steps[m - 1], c);
    }
  }

  lemma Started(run: Run, c: Client, call: Call, jobs: Jobs, markers: set<JobId>) returns (r: Run)
    requires run.Valid() && Idle(run.Last(), c, jobs, markers)
    ensures r.Valid() && Continues(run, r) && At(r.Last(), c, call, FirstStage(call), jobs, markers)
  {
    r := Extend(run, ByClient(c, Start(call)));
  }

  /** Markers that appear, one by one, touch nothing else. */
  lemma {:induction false} Touched(run: Run, jobs: set<JobId>) returns (r: Run)
    requires run.Valid()
    ensures r.Valid() && Continues(run, r) && r.Last() == run.Last().(markers := run.Last().markers + jobs)
    decreases jobs
  {
    if jobs == {} {
      r := run;
      assert run.Last().markers + jobs == run.Last().markers;
    } else {
      var j :| j in jobs;
      var q := Extend(run, Touch(j));
      r := Touched(q, jobs - {j});
      assert run.Last().markers + {j} + (jobs - {j}) == run.Last().markers + jobs;
    }
  }

  /** `reconcile`, on its own or at the start of `claim`. */
  lemma SweepsRows(run: Run, c: Client, call: Call, jobs: Jobs, markers: set<JobId>, leaseSeen: real, deadlineSeen: real)
    returns (r: Run)
    requires run.Valid() && At(run.Last(), c, call, Sweeping, jobs, markers)
    ensures r.Valid() && Continues(run, r)
    ensures At(r.Last(), c, call, if call.Claim? then Opening else Returned(None),
               Swept(jobs, Sweepable(jobs) * markers, leaseSeen, deadlineSeen), markers)
  {
    r := Extend(run, ByClient(c, SelectSweep));
    r := Extend(r, ByClient(c, Sweep(Sweepable(jobs) * markers, leaseSeen, deadlineSeen)));
  }

  /** `BEGIN IMMEDIATE` and the first marker test. */
  lemma Opens(run: Run, c: Client, call: Call, jobs: Jobs, markers: set<JobId>) returns (r: Run)
    requires run.Valid() && At(run.Last(), c, call, Opening, jobs, markers)
    ensures r.Valid() && Continues(run, r)
    ensures At(r.Last(), c, call, if call.job in markers then Raised else Checked, jobs, markers)
  {
    r := Extend(run, ByClient(c, Open));
  }

  lemma GrantsClaim(run: Run, c: Client, call: Call, jobs: Jobs, markers: set<JobId>, token: Token, lease: real, now: real)
    returns (r: Run)
    requires run.Valid() && call.Claim? && At(run.Last(), c, call, Checked, jobs, markers) && token !in Tokens(jobs)
    ensures r.Valid() && Continues(run, r)
    ensures if call.job in jobs && MayClaim(jobs[call.job], now)
            then At(r.Last(), c, call, Selecting, jobs[call.job := ClaimedRow(jobs[call.job], token, lease)], markers)
            else At(r.Last(), c, call, Raised, jobs, markers)
  {
    r := Extend(run, ByClient(c, CommitClaim(token, lease, now)));
  }

  lemma Renews(run: Run, c: Client, call: Call, jobs: Jobs, markers: set<JobId>, lease: real, leaseSeen: real, deadlineSeen: real)
    returns (r: Run)
    requires run.Valid() && call.Renew? && At(run.Last(), c, call, Checked, jobs, markers)
    ensures r.Valid() && Continues(run, r)
    ensures if call.job in jobs && Holds(jobs[call.job], call.token, leaseSeen, deadlineSeen)
            then At(r.Last(), c, call, Returned(None), jobs[call.job := RenewedRow(jobs[call.job], lease)], markers)
            else At(r.Last(), c, call, Raised, jobs, markers)
  {
    r := Extend(run, ByClient(c, CommitRenew(lease, leaseSeen, deadlineSeen)));
  }

  /** Where `complete` stands after it has read the row and run its update. */
  function AfterWrite(jobs: Jobs, call: Call, now: real, leaseSeen: real, deadlineSeen: real): Stage
    requires call.Complete?
  {
    if call.job !in jobs then Raised
    else
      var row := jobs[call.job];
      if IsReplay(row, call.token, call.receipt) then Returned(None)
      else if MayComplete(row, call.token, call.receipt, now, leaseSeen, deadlineSeen)
      then Written(CompletedRow(row, call.receipt), leaseSeen, deadlineSeen)
      else Raised
  }

  /** `complete` may write `receipt` over `row`. */
  predicate MayComplete(row: Row, token: Token, receipt: Receipt, now: real, leaseSeen: real, deadlineSeen: real) {
    && Holds(row, token, now, deadlineSeen) && Holds(row, token, leaseSeen, deadlineSeen)
    && Confirms(row.request.requested, receipt.confirmed)
  }

  lemma Writes(run: Run, c: Client, call: Call, jobs: Jobs, markers: set<JobId>, now: real, leaseSeen: real, deadlineSeen: real)
    returns (r: Run)
    requires run.Valid() && call.Complete? && At(run.Last(), c, call, Checked, jobs, markers)
    ensures r.Valid() && Continues(run, r)
    ensures At(r.Last(), c, call, AfterWrite(jobs, call, now, leaseSeen, deadlineSeen), jobs, markers)
  {
    r := Extend(run, ByClient(c, Write(now, leaseSeen, deadlineSeen)));
  }

  /** The second marker test and, past it, the commit. */
  lemma Commits(run: Run, c: Client, call: Call, stage: Stage, jobs: Jobs, markers: set<JobId>) returns (r: Run)
    requires run.Valid() && call.Complete? && stage.Written? && At(run.Last(), c, call, stage, jobs, markers)
    ensures r.Valid() && Continues(run, r)
    ensures if call.job in markers then At(r.Last(), c, call, Raised, jobs, markers)
            else At(r.Last(), c, call, Committed, jobs[call.job := stage.row], markers)
  {
    r := Extend(run, ByClient(c, Confirm));
    if call.job !in markers {
      r := Extend(r, ByClient(c, CommitComplete));
    }
  }

  /** The marker test after the commit. */
  lemma Checks(run: Run, c: Client, call: Call, jobs: Jobs, markers: set<JobId>) returns (r: Run)
    requires run.Valid() && At(run.Last(), c, call, Committed, jobs, markers)
    ensures r.Valid() && Continues(run, r)
    ensures At(r.Last(), c, call, if call.job in markers then Raised else Returned(None), jobs, markers)
  {
    r := Extend(run, ByClient(c, LastCheck));
  }

  /** The state `inspect` finds for a job, if it knows it. */
  function Report(jobs: Jobs, markers: set<JobId>, job: JobId): Option<JobState> {
    if job in jobs then Some(ReportedState(jobs[job], job in markers)) else None
  }

  /** `inspect`, on its own, at the end of `claim` or at the start of `cancel`. */
  lemma Looks(run: Run, c: Client, call: Call, jobs: Jobs, markers: set<JobId>) returns (r: Run)
    requires run.Valid() && At(run.Last(), c, call, Selecting, jobs, markers)
    ensures r.Valid() && Continues(run, r)
    ensures var report := Report(jobs, markers, call.job);
            At(r.Last(), c, call, if call.Cancel? && report != Some(Completed) then Marking else Returned(report), jobs, markers)
  {
    r := Extend(run, ByClient(c, SelectRow));
    r := Extend(r, ByClient(c, TestMarker));
  }

  /** The marker and the update of `cancel`. */
  lemma Cancels(run: Run, c: Client, call: Call, jobs: Jobs, markers: set<JobId>) returns (r: Run)
    requires run.Valid() && At(run.Last(), c, call, Marking, jobs, markers)
    ensures r.Valid() && Continues(run, r)
    ensures At(r.Last(), c, call, Returned(None),
               if call.job in jobs && Live(jobs[call.job]) then jobs[call.job := CancelledRow(jobs[call.job])] else jobs,
               markers + {call.job})
  {
    r := Extend(run, ByClient(c, MarkCancelled));
    r := Extend(r, ByClient(c, UpdateCancelled));
  }

  // ----- whole calls

  /** `claim` from its sweep to the row it returns. */
  lemma ClaimCall(run: Run, c: Client, job: JobId, jobs: Jobs, markers: set<JobId>, token: Token, lease: real, now: real,
                  leaseSeen: real, deadlineSeen: real) returns (r: Run)
    requires run.Valid() && Idle(run.Last(), c, jobs, markers)
    requires token !in Tokens(Swept(jobs, Sweepable(jobs) * markers, leaseSeen, deadlineSeen))
    ensures r.Valid() && Continues(run, r)
    ensures var swept := Swept(jobs, Sweepable(jobs) * markers, leaseSeen, deadlineSeen);
            if job !in markers && job in swept && MayClaim(swept[job], now)
            then Over(r.Last(), c, Claim(job), Returned(Some(Claimed)),
                      swept[job := ClaimedRow(swept[job], token, lease)], markers)
            else Over(r.Last(), c, Claim(job), Raised, swept, markers)
  {
    var swept := Swept(jobs, Sweepable(jobs) * markers, leaseSeen, deadlineSeen);
    r := Started(run, c, Claim(job), jobs, markers);
    r := SweepsRows(r, c, Claim(job), jobs, markers, leaseSeen, deadlineSeen);
    r := Opens(r, c, Claim(job), swept, markers);
    if job !in markers {
      r := GrantsClaim(r, c, Claim(job), swept, markers, token, lease, now);
      if job in swept && MayClaim(swept[job], now) {
        r := Looks(r, c, Claim(job), swept[job := ClaimedRow(swept[job], token, lease)], markers);
      }
    }
  }

  lemma RenewCall(run: Run, c: Client, job: JobId, token: Token, jobs: Jobs, markers: set<JobId>, lease: real,
                  leaseSeen: real, deadlineSeen: real) returns (r: Run)
    requires run.Valid() && Idle(run.Last(), c, jobs, markers)
    ensures r.Valid() && Continues(run, r)
    ensures if job !in markers && job in jobs && Holds(jobs[job], token, leaseSeen, deadlineSeen)
            then Over(r.Last(), c, Renew(job, token), Returned(None), jobs[job := RenewedRow(jobs[job], lease)], markers)
            else Over(r.Last(), c, Renew(job, token), Raised, jobs, markers)
  {
    r := Started(run, c, Renew(job, token), jobs, markers);
    r := Opens(r, c, Renew(job, token), jobs, markers);
    if job !in markers {
      r := Renews(r, c, Renew(job, token), jobs, markers, lease, leaseSeen, deadlineSeen);
    }
  }

  /** What `complete` leaves behind when the markers in `during` appear before its second test
      and those in `after` before its third. */
  datatype Completing = Completing(stage: Stage, jobs: Jobs, markers: set<JobId>)

  function Completion(call: Call, jobs: Jobs, markers: set<JobId>, now: real, leaseSeen: real, deadlineSeen: real,
                      during: set<JobId>, after: set<JobId>): Completing
    requires call.Complete?
  {
    if call.job in markers then Completing(Raised, jobs, markers)
    else
      var written := AfterWrite(jobs, call, now, leaseSeen, deadlineSeen);
      if !written.Written? then Completing(written, jobs, markers)
      else if call.job in markers + during then Completing(Raised, jobs, markers + during)
      else
        var all := markers + during + after;
        Completing(if call.job in all then Raised else Returned(None), jobs[call.job := written.row], all)
  }

  lemma CompleteCall(run: Run, c: Client, call: Call, jobs: Jobs, markers: set<JobId>, now: real, leaseSeen: real,
                     deadlineSeen: real, during: set<JobId>, after: set<JobId>) returns (r: Run)
    requires run.Valid() && Idle(run.Last(), c, jobs, markers) && call.Complete?
    ensures r.Valid() && Continues(run, r)
    ensures var end := Completion(call, jobs, markers, now, leaseSeen, deadlineSeen, during, after);
            Over(r.Last(), c, call, end.stage, end.jobs, end.markers)
  {
    r := Started(run, c, call, jobs, markers);
    r := Opens(r, c, call, jobs, markers);
    if call.job !in markers {
      var written := AfterWrite(jobs, call, now, leaseSeen, deadlineSeen);
      r := Writes(r, c, call, jobs, markers, now, leaseSeen, deadlineSeen);
      if written.Written? {
        r := CommitCall(r, c, call, written, jobs, markers, during, after);
      }
    }
  }

  lemma CommitCall(run: Run, c: Client, call: Call, written: Stage, jobs: Jobs, markers: set<JobId>,
                   during: set<JobId>, after: set<JobId>) returns (r: Run)
    requires run.Valid() && call.Complete? && written.Written? && At(run.Last(), c, call, written, jobs, markers)
    ensures r.Valid() && Continues(run, r)
    ensures var all := markers + during + after;
            if call.job in markers + during then Over(r.Last(), c, call, Raised, jobs, markers + during)
            else Over(r.Last(), c, call, if call.job in all then Raised else Returned(None), jobs[call.job := written.row], all)
  {
    r := Touched(run, during);
    r := Commits(r, c, call, written, jobs, markers + during);
    if call.job !in markers + during {
      r := Touched(r, after);
      r := Checks(r, c, call, jobs[call.job := written.row], markers + during + after);
    }
  }

  lemma CancelCall(run: Run, c: Client, job: JobId, jobs: Jobs, markers: set<JobId>) returns (r: Run)
    requires run.Valid() && Idle(run.Last(), c, jobs, markers)
    ensures r.Valid() && Continues(run, r)
    ensures if Report(jobs, markers, job) == Some(Completed)
            then Over(r.Last(), c, Cancel(job), Returned(Some(Completed)), jobs, markers)
            else Over(r.Last(), c, Cancel(job), Returned(None),
                      if job in jobs && Live(jobs[job]) then jobs[job := CancelledRow(jobs[job])] else jobs,
                      markers + {job})
  {
    r := Started(run, c, Cancel(job), jobs, markers);
    r := Looks(r, c, Cancel(job), jobs, markers);
    if Report(jobs, markers, job) != Some(Completed) {
      r := Cancels(r, c, Cancel(job), jobs, markers);
    }
  }
}
