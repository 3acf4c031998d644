/** The progress validators (`core/review_checkpoint_progress.py`). */
module CheckpointProgress {
  import opened Results
  import opened CheckpointState
  import opened KeyOrder

  type ByPath = map<string, Candidate>

  // ----- candidate groups

  function CandidateIds(group: seq<Candidate>): (ids: seq<string>)
    ensures |ids| == |group| && forall i :: 0 <= i < |group| ==> ids[i] == group[i].at.taskId
  {
    if group == [] then [] else CandidateIds(group[..|group| - 1]) + [group[|group| - 1].at.taskId]
  }

  function Places(group: seq<Candidate>): set<Coordinates> {
    set c | c in group :: c.at.Place()
  }

  /** `_validate_executor_group` */
  function ExecutorGroup(group: seq<Candidate>, executors: seq<string>): Check {
    Need(CandidateIds(group) == executors && |Places(group)| == 1, IncompleteExecutors)
  }

  /** Only the first round of a later audit may carry what an earlier one produced. */
  predicate Seeded(c: Candidate) {
    c.Producer() == c.at.Place() || (c.at.audit > c.producerAudit && c.at.round == 1)
  }

  /** What `_validate_candidate_identity` finds for one candidate. */
  function CandidateCheck(c: Candidate, byPath: ByPath): Check {
    if c.path in byPath && byPath[c.path] != c then Fail(ConflictingIdentities)
    else Need(Seeded(c), StaleProducer)
  }

  function FileAll(group: seq<Candidate>, byPath: ByPath): Check {
    if group == [] then Pass
    else
      :- CandidateCheck(group[0], byPath);
      FileAll(group[1..], byPath[group[0].path := group[0]])
  }

  function Filed(group: seq<Candidate>, byPath: ByPath): ByPath {
    if group == [] then byPath else Filed(group[1..], byPath[group[0].path := group[0]])
  }

  function CandidateGroups(groups: seq<Option<seq<Candidate>>>, executors: seq<string>, byPath: ByPath): Check {
    if groups == [] then Pass
    else if groups[0].None? then CandidateGroups(groups[1..], executors, byPath)
    else
      :- ExecutorGroup(groups[0].value, executors);
      :- FileAll(groups[0].value, byPath);
      CandidateGroups(groups[1..], executors, Filed(groups[0].value, byPath))
  }

  /** `_validate_candidate_identity`, which also files the candidate under its path. */
  method ValidateCandidateIdentity(c: Candidate, byPath: ByPath) returns (r: Check, filed: ByPath)
    ensures r == CandidateCheck(c, byPath)
    ensures r.Pass? ==> filed == byPath[c.path := c]
  {
    filed := byPath;
    if c.path in byPath && byPath[c.path] != c {
      return Fail(ConflictingIdentities), filed;
    }
    filed := filed[c.path := c];
    if c.Producer() != c.at.Place() && !(c.at.audit > c.producerAudit && c.at.round == 1) {
      return Fail(StaleProducer), filed;
    }
    return Pass, filed;
  }

  method ValidateGroup(group: seq<Candidate>, byPath: ByPath) returns (r: Check, filed: ByPath)
    ensures r == FileAll(group, byPath)
    ensures r.Pass? ==> filed == Filed(group, byPath)
  {
    filed := byPath;
    var i := 0;
    while i < |group|
      invariant i <= |group|
      invariant FileAll(group, byPath) == FileAll(group[i..], filed)
      invariant Filed(group, byPath) == Filed(group[i..], filed)
    {
      assert group[i..][0] == group[i] && group[i..][1..] == group[i + 1..];
      r, filed := ValidateCandidateIdentity(group[i], filed);
      if r.Fail? {
        return;
      }
      i := i + 1;
    }
    return Pass, filed;
  }

  /** `_validate_candidate_groups` */
  method ValidateCandidateGroups(progress: Progress, executors: seq<string>) returns (r: Check)
    ensures r == CandidateGroups(progress.Groups(), executors, map[])
  {
    var groups := progress.Groups();
    var byPath: ByPath := map[];
    var i := 0;
    while i < |groups|
      invariant i <= |groups|
      invariant CandidateGroups(groups, executors, map[]) == CandidateGroups(groups[i..], executors, byPath)
    {
      assert groups[i..][0] == groups[i] && groups[i..][1..] == groups[i + 1..];
      if groups[i].Some? {
        r := ExecutorGroup(groups[i].value, executors);
        if r.Fail? {
          return;
        }
        r, byPath := ValidateGroup(groups[i].value, byPath);
        if r.Fail? {
          return;
        }
      }
      i := i + 1;
    }
    return Pass;
  }

  // ----- what the candidate pass comes down to

  ghost predicate Agree(a: Candidate, b: Candidate) {
    a.path == b.path ==> a == b
  }

  /** Candidates with one path are one candidate, whichever groups carry them. */
  ghost predicate Consistent(cs: seq<Candidate>) {
    forall a, b {:trigger Agree(a, b)} :: a in cs && b in cs ==> Agree(a, b)
  }

  ghost predicate FitsMap(cs: seq<Candidate>, byPath: ByPath) {
    forall c {:trigger c.path in byPath} :: c in cs && c.path in byPath ==> byPath[c.path] == c
  }

  ghost predicate AllSeeded(cs: seq<Candidate>) {
    forall c :: c in cs ==> Seeded(c)
  }

  lemma {:induction false} FileAllIff(cs: seq<Candidate>, byPath: ByPath)
    ensures FileAll(cs, byPath).Pass? <==> Consistent(cs) && FitsMap(cs, byPath) && AllSeeded(cs)
  {
    if cs != [] {
      var c, rest := cs[0], cs[1..];
      var filed := byPath[c.path := c];
      FileAllIff(rest, filed);
      assert forall x :: x in cs <==> x == c || x in rest;
      if Consistent(cs) && FitsMap(cs, byPath) {
        forall x | x in rest && x.path in filed ensures filed[x.path] == x {
          assert Agree(x, c);
        }
      }
      if FileAll(cs, byPath).Pass? {
        forall x | x in rest ensures Agree(x, c) && Agree(c, x) {
          assert x.path == c.path ==> filed[x.path] == x;
        }
        forall x | x in cs && x.path in byPath ensures byPath[x.path] == x {
          if x != c {
            assert Agree(x, c);
            assert filed[x.path] == x;
          }
        }
      }
    }
  }

  lemma {:induction false} FileAllAppend(a: seq<Candidate>, b: seq<Candidate>, byPath: ByPath)
    ensures FileAll(a + b, byPath).Pass?
            <==> FileAll(a, byPath).Pass? && FileAll(b, Filed(a, byPath)).Pass?
  {
    if a == [] {
      assert a + b == b;
    } else {
      assert (a + b)[0] == a[0] && (a + b)[1..] == a[1..] + b;
      FileAllAppend(a[1..], b, byPath[a[0].path := a[0]]);
    }
  }

  /** The task ids are the compiled executors in order, all at one place. */
  ghost predicate CompleteGroup(group: seq<Candidate>, executors: seq<string>) {
    CandidateIds(group) == executors && group != [] && forall c :: c in group ==> c.at.Place() == group[0].at.Place()
  }

  lemma OnePlace(group: seq<Candidate>)
    ensures |Places(group)| == 1 <==> group != [] && forall c :: c in group ==> c.at.Place() == group[0].at.Place()
  {
    var places := Places(group);
    if group != [] {
      var p := group[0].at.Place();
      assert p in places;
      if |places| == 1 {
        assert |places - {p}| == 0;
        forall c | c in group ensures c.at.Place() == p {
          assert c.at.Place() in places && c.at.Place() !in places - {p};
        }
      }
      if forall c :: c in group ==> c.at.Place() == p {
        assert places == {p};
      }
    }
  }

  lemma {:induction false} CandidateGroupsSplit(groups: seq<Option<seq<Candidate>>>, executors: seq<string>, byPath: ByPath)
    ensures CandidateGroups(groups, executors, byPath).Pass?
            <==> (forall g :: g in groups && g.Some? ==> ExecutorGroup(g.value, executors).Pass?)
                 && FileAll(Carried(groups), byPath).Pass?
  {
    if groups != [] {
      var rest := groups[1..];
      assert forall g :: g in groups <==> g == groups[0] || g in rest;
      if groups[0].None? {
        CandidateGroupsSplit(rest, executors, byPath);
        assert Carried(groups) == Carried(rest);
      } else {
        CandidateGroupsSplit(rest, executors, Filed(groups[0].value, byPath));
        FileAllAppend(groups[0].value, Carried(rest), byPath);
      }
    }
  }

  /** The pass accepts exactly when every group is the complete ordered executor phase of one
      place, candidates that share a path are equal, and stale producers only seed audits. */
  lemma CandidateGroupsIff(progress: Progress, executors: seq<string>)
    ensures CandidateGroups(progress.Groups(), executors, map[]).Pass?
            <==> (forall g :: g in progress.Groups() && g.Some? ==> CompleteGroup(g.value, executors))
                 && Consistent(progress.Candidates()) && AllSeeded(progress.Candidates())
  {
    CandidateGroupsSplit(progress.Groups(), executors, map[]);
    FileAllIff(progress.Candidates(), map[]);
    forall g | g in progress.Groups() && g.Some?
      ensures ExecutorGroup(g.value, executors).Pass? <==> CompleteGroup(g.value, executors)
    {
      OnePlace(g.value);
    }
  }

  // ----- the other validators

  function UnresolvedFingerprints(reviews: seq<Review>): seq<string> {
    SortedKeys(Unresolved(reviews))
  }

  function Unresolved(reviews: seq<Review>): (r: set<string>)
    ensures forall f :: f in r <==> exists v :: v in reviews && f in v.evaluation.unresolved
  {
    if reviews == [] then {}
    else
      assert reviews == reviews[..|reviews| - 1] + [reviews[|reviews| - 1]];
      var last := reviews[|reviews| - 1].evaluation.unresolved;
      Unresolved(reviews[..|reviews| - 1]) + set f | f in last
  }

  /** The state in which remediation executors may start. */
  predicate RemediationReady(cp: OpenCheckpoint, a: AuditProgress) {
    && a.lastRound == cp.round - 1
    && 1 <= a.selectedRound < cp.round
    && a.previousOutputs.Some? && a.previousOutputs.value != []
    && a.previousOutputs == a.latestValid
    && Some(a.executorOutputs) == a.latestValid
    && (forall c :: c in a.previousOutputs.value ==> c.at.audit == cp.audit)
    && a.previousUnresolved == UnresolvedFingerprints(a.reviews)
  }

  function ExecutorCursor(cp: OpenCheckpoint): Check {
    var active := cp.progress.active;
    if cp.round == 1 then Need(active.None?, InitialWithActive)
    else Need(active.Some? && RemediationReady(cp, active.value), RemediationDiffers)
  }

  function ProgressCursor(cp: OpenCheckpoint, node: Node): Check {
    var p := cp.progress;
    :- Need(p.executedAudits == cp.audit, AuditCursorDiffers);
    :- if cp.next == Executors then ExecutorCursor(cp) else Pass;
    :- Need(p.selectedRound <= MaximumReviewRound(node) && p.lastRound <= MaximumReviewRound(node), RoundBoundExceeded);
    :- Need(p.active.Some? ==> p.active.value.selectedRound <= MaximumReviewRound(node)
                               && p.active.value.lastRound <= MaximumReviewRound(node), RoundBoundExceeded);
    Need(cp.next == Reviewers && p.active.Some?
         ==> forall c :: c in p.active.value.executorOutputs ==> c.at.Place() == cp.Cursor(), ReviewerCursorDiffers)
  }

  function ReviewIds(reviews: seq<Review>): (ids: seq<string>)
    ensures |ids| == |reviews| && forall i :: 0 <= i < |reviews| ==> ids[i] == reviews[i].at.taskId
  {
    if reviews == [] then [] else ReviewIds(reviews[..|reviews| - 1]) + [reviews[|reviews| - 1].at.taskId]
  }

  function FailureIds(failures: seq<Failure>): (ids: seq<string>)
    ensures |ids| == |failures| && forall i :: 0 <= i < |failures| ==> ids[i] == failures[i].at.taskId
  {
    if failures == [] then [] else FailureIds(failures[..|failures| - 1]) + [failures[|failures| - 1].at.taskId]
  }

  /** `[task for task in ids if task not in dropped]` */
  function Dropping(ids: seq<string>, dropped: seq<string>): seq<string> {
    if ids == [] then []
    else Dropping(ids[..|ids| - 1], dropped) + (if ids[|ids| - 1] in dropped then [] else [ids[|ids| - 1]])
  }

  /** Reviews and failures together name the expected tasks. */
  predicate Covers(reviewed: seq<string>, failed: seq<string>, expected: seq<string>) {
    Sorted(reviewed + failed) == Sorted(expected)
  }

  /** The calls of one batch are reviewer calls at one place. */
  predicate ReviewersAt(reviews: seq<Review>, failures: seq<Failure>, place: Coordinates) {
    && (forall r :: r in reviews ==> r.at.Place() == place && r.at.role == Reviewer)
    && (forall f :: f in failures ==> f.at.Place() == place && f.at.role == Reviewer)
  }

  /** `_validate_batch` */
  function Batch(tasks: seq<Task>, reviews: seq<Review>, failures: seq<Failure>, place: Coordinates): Check {
    var expected := IdsOf(tasks, Reviewer);
    :- Need(Covers(ReviewIds(reviews), FailureIds(failures), expected), IncompleteBatch);
    :- Need(ReviewersAt(reviews, failures, place), IncompleteBatch);
    Need(ReviewIds(reviews) == Dropping(expected, FailureIds(failures)), ReviewerOrderDiffers)
  }

  function SelectedBatch(
    tasks: seq<Task>, candidates: Option<seq<Candidate>>, reviews: seq<Review>, failures: seq<Failure>, selected: nat): Check
  {
    if selected == 0 then Need(reviews == [] && failures == [], UnselectedBatch)
    else
      :- Need(candidates.Some? && candidates.value != []
              && forall c :: c in candidates.value ==> c.at.round == selected, SelectionDiffers);
      Batch(tasks, reviews, failures, Coordinates(candidates.value[0].at.audit, selected))
  }

  function SelectedReviews(cp: OpenCheckpoint, tasks: seq<Task>): Check {
    var p := cp.progress;
    :- SelectedBatch(tasks, p.latestOutputs, p.reviews, p.failures, p.selectedRound);
    match p.active
    case None => Pass
    case Some(a) => SelectedBatch(tasks, a.latestValid, a.reviews, a.failures, a.selectedRound)
  }

  function InitialReviews(cp: OpenCheckpoint, tasks: seq<Task>, node: Node): Check {
    var initial := cp.progress.initial;
    if initial.completed then
      :- Need(node.policy.startsWith == Reviewer, InitialNotConfigured);
      Batch(tasks, initial.reviews, initial.failures, Coordinates(1, 0))
    else Need(initial.reviews == [] && initial.failures == [], UnsettledInitial)
  }

  function ReviewPolicyCheck(p: Progress, node: Node): Check {
    if p.Failures() != [] && !node.policy.continueOnFailure then Fail(FailuresNotAllowed)
    else Need(p.verdict.consensus ==> p.failures == [], FailuresPreventConsensus)
  }

  /** Whether the settled progress may end the loop for the reason it gives. */
  predicate Permitted(p: Progress, node: Node) {
    var v := p.verdict;
    match v.stopReason
    case Some(Consensus) =>
      v.consensus && (forall r :: r in p.reviews ==> r.evaluation.approved) && !v.afterStop && !v.afterExhaustion
    case Some(NoProgress) => node.policy.continueOnFailure && v.afterStop && !v.consensus && !v.afterExhaustion
    case Some(ConsensusExhausted) =>
      (node.policy.continueOnFailure || node.policy.onExhaustion == Some(Continue))
      && v.afterExhaustion && v.afterStop && !v.consensus
    case _ => false
  }

  function Finalization(cp: OpenCheckpoint, node: Node): Check {
    if cp.round != cp.progress.lastRound then Fail(FinalRoundDiffers)
    else Need(Permitted(cp.progress, node), FinalizationNotPermitted)
  }

  /** `validate_checkpoint_progress` */
  function ProgressCheck(cp: OpenCheckpoint, tasks: seq<Task>, node: Node): Check {
    var executors := IdsOf(tasks, Executor);
    :- CandidateGroups(cp.progress.Groups(), executors, map[]);
    :- ProgressCursor(cp, node);
    :- SelectedReviews(cp, tasks);
    :- InitialReviews(cp, tasks, node);
    :- ReviewPolicyCheck(cp.progress, node);
    if cp.next == Finalize then Finalization(cp, node) else Pass
  }

  // ----- a settled batch

  function Keeping(ids: seq<string>, kept: seq<string>): seq<string> {
    if ids == [] then []
    else Keeping(ids[..|ids| - 1], kept) + (if ids[|ids| - 1] in kept then [ids[|ids| - 1]] else [])
  }

  function Occurrences(s: seq<string>, x: string): nat {
    if s == [] then 0 else Occurrences(s[..|s| - 1], x) + (if s[|s| - 1] == x then 1 else 0)
  }

  lemma {:induction false} OccurrencesCount(s: seq<string>, x: string)
    ensures Occurrences(s, x) == multiset(s)[x]
  {
    if s != [] {
      OccurrencesCount(s[..|s| - 1], x);
      assert s == s[..|s| - 1] + [s[|s| - 1]];
    }
  }

  lemma OccurrencesLast(s: seq<string>, last: string, x: string)
    ensures Occurrences(s + [last], x) == Occurrences(s, x) + (if last == x then 1 else 0)
  {
    assert (s + [last])[..|s|] == s;
  }

  lemma {:induction false} DroppingSplits(ids: seq<string>, dropped: seq<string>, x: string)
    ensures Occurrences(ids, x) == Occurrences(Dropping(ids, dropped), x) + Occurrences(Keeping(ids, dropped), x)
  {
    if ids != [] {
      var front, last := ids[..|ids| - 1], ids[|ids| - 1];
      DroppingSplits(front, dropped, x);
      OccurrencesLast(Dropping(front, dropped), last, x);
      OccurrencesLast(Keeping(front, dropped), last, x);
      assert Dropping(front, dropped) + [] == Dropping(front, dropped);
      assert Keeping(front, dropped) + [] == Keeping(front, dropped);
    }
  }

  lemma {:induction false} DroppingNone(ids: seq<string>)
    ensures Dropping(ids, []) == ids
  {
    if ids != [] {
      DroppingNone(ids[..|ids| - 1]);
    }
  }

  lemma FailedAreTheRest(expected: seq<string>, reviewed: seq<string>, failed: seq<string>)
    requires reviewed == Dropping(expected, failed)
    ensures Covers(reviewed, failed, expected) <==> multiset(failed) == multiset(Keeping(expected, failed))
  {
    SortedAlikeIff(reviewed + failed, expected);
    assert multiset(reviewed + failed) == multiset(reviewed) + multiset(failed);
    forall x
      ensures multiset(expected)[x] == multiset(reviewed)[x] + multiset(Keeping(expected, failed))[x]
    {
      DroppingSplits(expected, failed, x);
      OccurrencesCount(expected, x);
      OccurrencesCount(reviewed, x);
      OccurrencesCount(Keeping(expected, failed), x);
    }
    SameAddend(multiset(reviewed), multiset(failed), multiset(Keeping(expected, failed)), multiset(expected));
  }

  lemma SameAddend(a: multiset<string>, b: multiset<string>, c: multiset<string>, sum: multiset<string>)
    requires forall x :: sum[x] == a[x] + c[x]
    ensures a + b == sum <==> b == c
  {
    if a + b == sum {
      forall x ensures b[x] == c[x] {
        assert (a + b)[x] == a[x] + b[x];
      }
    }
  }

  /** A batch passes exactly when it accounts for every compiled reviewer at its place: those
      without a failure have their reviews in compiled order, and the failures are those of
      all the others. */
  lemma BatchIff(tasks: seq<Task>, reviews: seq<Review>, failures: seq<Failure>, place: Coordinates)
    ensures var expected, failed := IdsOf(tasks, Reviewer), FailureIds(failures);
            Batch(tasks, reviews, failures, place).Pass?
            <==> ReviewersAt(reviews, failures, place)
                 && ReviewIds(reviews) == Dropping(expected, failed)
                 && multiset(failed) == multiset(Keeping(expected, failed))
  {
    var expected, failed := IdsOf(tasks, Reviewer), FailureIds(failures);
    if ReviewIds(reviews) == Dropping(expected, failed) {
      FailedAreTheRest(expected, ReviewIds(reviews), failed);
    }
  }
}
