/** What acceptance of a checkpoint by all its validators implies. */
module CheckpointLaws {
  import opened Results
  import opened Collections
  import opened Text
  import opened ArtifactNames
  import opened CheckpointState
  import opened CheckpointProgress
  import opened CheckpointNode

  /** An open marker that can be built and then passes `validate_checkpoint_node`. */
  ghost predicate Accepted(checkpoint: Checkpoint, node: Node) {
    checkpoint.marker.Open? && References(checkpoint.marker.open).Pass? && NodeCheck(checkpoint, node).Pass?
  }

  /** The checks of an open marker against its node. */
  ghost predicate OpenParts(cp: OpenCheckpoint, node: Node) {
    && ProgressCheck(cp, node.providers, node).Pass?
    && NodeCursor(cp, node).Pass?
    && InvocationCoordinates(cp, node.providers, node, Records(cp)).Pass?
    && ArtifactPaths(cp, node).Pass?
  }

  lemma NodeParts(checkpoint: Checkpoint, node: Node)
    requires checkpoint.marker.Open?
    ensures NodeCheck(checkpoint, node).Pass?
            <==> && checkpoint.expansion == node.expansion && checkpoint.nodeId == node.id
                 && checkpoint.tasks == node.providers && Eligible(node)
                 && OpenParts(checkpoint.marker.open, node)
  {
  }

  // ----- what each validator contributes

  lemma ReferenceParts(cp: OpenCheckpoint)
    requires References(cp).Pass?
    ensures |FilesByPath(cp.files)| == |cp.files|
    ensures CandidatesBacked(FilesByPath(cp.files), cp.progress.Candidates())
    ensures ReviewsBacked(FilesByPath(cp.files), cp.progress.Reviews())
    ensures PhaseRequirements(cp).Pass?
  {
  }

  lemma ProgressParts(cp: OpenCheckpoint, node: Node)
    requires ProgressCheck(cp, node.providers, node).Pass?
    ensures CandidateGroups(cp.progress.Groups(), IdsOf(node.providers, Executor), map[]).Pass?
    ensures ProgressCursor(cp, node).Pass? && SelectedReviews(cp, node.providers).Pass?
    ensures ReviewPolicyCheck(cp.progress, node).Pass?
    ensures cp.next == Finalize ==> Finalization(cp, node).Pass?
  {
  }

  function FilePaths(files: seq<File>): (r: seq<string>)
    ensures |r| == |files|
  {
    if files == [] then [] else FilePaths(files[..|files| - 1]) + [files[|files| - 1].path]
  }

  lemma {:induction false} SamePaths(files: seq<File>, p: string)
    ensures p in FilesByPath(files) <==> p in FilePaths(files)
  {
    if files != [] {
      SamePaths(files[..|files| - 1], p);
    }
  }

  /** The map from paths to files loses none exactly when the paths tell the files apart. */
  lemma {:induction false} UniquePathsIff(files: seq<File>)
    ensures |FilesByPath(files)| <= |files|
    ensures |FilesByPath(files)| == |files| <==> NoRepeats(FilePaths(files))
  {
    if files != [] {
      var n := |files| - 1;
      var front, last := files[..n], files[n];
      UniquePathsIff(front);
      SamePaths(front, last.path);
      OneMorePath(FilesByPath(front), FilePaths(front), last.path, last);
    }
  }

  lemma OneMorePath(m: map<string, File>, paths: seq<string>, p: string, f: File)
    requires |m| <= |paths| && (|m| == |paths| <==> NoRepeats(paths)) && (p in m <==> p in paths)
    ensures |m[p := f]| <= |paths| + 1
    ensures |m[p := f]| == |paths| + 1 <==> NoRepeats(paths + [p])
  {
    LastIsNew(paths, p);
    if p in m {
      assert m[p := f].Keys == m.Keys;
    }
  }

  lemma LastIsNew(s: seq<string>, x: string)
    ensures NoRepeats(s + [x]) <==> NoRepeats(s) && x !in s
  {
    if NoRepeats(s) && x !in s {
      AppendNoRepeats(s, x);
    }
    if NoRepeats(s + [x]) {
      NextOf(s + [x], |s|);
      assert (s + [x])[..|s|] == s;
    }
  }

  /** What the coordinate check asks of one record. */
  ghost predicate InBounds(cp: OpenCheckpoint, node: Node, at: Invocation) {
    KnownTask(Identities(node.providers), at) && WithinCursor(cp, node, at) && RoundZeroOk(node, at)
  }

  lemma {:induction false} CoordinatesIff(cp: OpenCheckpoint, node: Node, records: seq<Invocation>)
    ensures InvocationCoordinates(cp, node.providers, node, records).Pass?
            <==> forall at :: at in records ==> InBounds(cp, node, at)
  {
    if records != [] {
      var first := records[0];
      CoordinatesIff(cp, node, records[1..]);
      assert records == [first] + records[1..];
      if !InBounds(cp, node, first) {
        assert first in records;
      }
    }
  }

  // ----- paths

  lemma FirstSlash(x: string, u: string, y: string, v: string)
    requires '/' !in x && '/' !in y && x + "/" + u == y + "/" + v
    ensures x == y && u == v
  {
    SplitAtSlash(x, u);
    SplitAtSlash(y, v);
    assert [x] + Split(u) == [y] + Split(v);
    assert ([x] + Split(u))[1..] == Split(u) && ([y] + Split(v))[1..] == Split(v);
    JoinSplit(u);
    JoinSplit(v);
  }

  lemma DirectoryHasNoSlash(audit: int)
    ensures '/' !in BuildReviewAuditDirectoryName(audit)
  {
    NumeralHasNo(audit, '/');
  }

  /** The path of an output names its task and its round and, where audits have directories
      of their own, its audit. */
  lemma PathNamesCall(stage: string, auditRounds: nat, a: Invocation, b: Invocation)
    requires ExpectedPath(stage, auditRounds, a) == ExpectedPath(stage, auditRounds, b)
    ensures a.taskId == b.taskId && a.round == b.round && (auditRounds > 1 ==> a.audit == b.audit)
  {
    SameTail(stage + "/", PathInStage(auditRounds, a), PathInStage(auditRounds, b));
    if auditRounds > 1 {
      DirectoryHasNoSlash(a.audit);
      DirectoryHasNoSlash(b.audit);
      FirstSlash(BuildReviewAuditDirectoryName(a.audit), BuildTaskRoundFilename(a.taskId, a.round),
                 BuildReviewAuditDirectoryName(b.audit), BuildTaskRoundFilename(b.taskId, b.round));
      ParseInvertsBuildAudit(a.audit);
      ParseInvertsBuildAudit(b.audit);
    }
    FilenameDetermines(a.taskId, a.round, b.taskId, b.round);
  }

  /** An output is a candidate or a review; this is its call and its path. */
  ghost predicate IsOutput(p: Progress, at: Invocation, path: string) {
    || (exists c :: c in p.Candidates() && c.at == at && c.path == path)
    || (exists r :: r in p.Reviews() && r.at == at && r.path == path)
  }

  ghost predicate CallsInBounds(cp: OpenCheckpoint, node: Node) {
    forall at :: at in Records(cp) ==> InBounds(cp, node, at)
  }

  ghost predicate GroupsComplete(p: Progress, node: Node) {
    forall g :: g in p.Groups() && g.Some? ==> CompleteGroup(g.value, IdsOf(node.providers, Executor))
  }

  /** What the checks establish about the records, whatever phase comes next. */
  ghost predicate Sound(cp: OpenCheckpoint, node: Node) {
    && CandidatesPlaced(cp, node) && ReviewsPlaced(cp, node)
    && CandidatesBacked(FilesByPath(cp.files), cp.progress.Candidates())
    && ReviewsBacked(FilesByPath(cp.files), cp.progress.Reviews())
    && CallsInBounds(cp, node) && cp.audit <= AuditRounds(node)
    && GroupsComplete(cp.progress, node) && Consistent(cp.progress.Candidates())
  }

  lemma AcceptedIsSound(checkpoint: Checkpoint, node: Node)
    requires Accepted(checkpoint, node)
    ensures Sound(checkpoint.marker.open, node) && OpenParts(checkpoint.marker.open, node)
  {
    var cp := checkpoint.marker.open;
    NodeParts(checkpoint, node);
    ReferenceParts(cp);
    ProgressParts(cp, node);
    CandidateGroupsIff(cp.progress, IdsOf(node.providers, Executor));
    CoordinatesIff(cp, node, Records(cp));
  }

  lemma OutputIsPlaced(cp: OpenCheckpoint, node: Node, at: Invocation, path: string)
    requires Sound(cp, node) && IsOutput(cp.progress, at, path)
    ensures InBounds(cp, node, at)
    ensures path == ExpectedPath(node.stagePath.value, AuditRounds(node), at)
  {
    if c :| c in cp.progress.Candidates() && c.at == at && c.path == path {
      CallIn(cp.progress.Candidates(), CandidateCall, c);
    } else {
      var r :| r in cp.progress.Reviews() && r.at == at && r.path == path;
      CallIn(cp.progress.Reviews(), ReviewCall, r);
    }
    assert at in Records(cp);
  }

  /** In an accepted checkpoint a path determines the call that wrote it, role included, and
      a call determines its path. */
  lemma PathDeterminesCall(checkpoint: Checkpoint, node: Node, a: Invocation, p: string, b: Invocation, q: string)
    requires Accepted(checkpoint, node)
    requires IsOutput(checkpoint.marker.open.progress, a, p) && IsOutput(checkpoint.marker.open.progress, b, q)
    ensures p == q <==> a == b
  {
    AcceptedIsSound(checkpoint, node);
    OutputIsPlaced(checkpoint.marker.open, node, a, p);
    OutputIsPlaced(checkpoint.marker.open, node, b, q);
    if p == q {
      PathNamesCall(node.stagePath.value, AuditRounds(node), a, b);
    }
  }

  /** No candidate shares a path, or a task id, with a review. */
  lemma CandidatesAndReviewsApart(checkpoint: Checkpoint, node: Node, c: Candidate, r: Review)
    requires Accepted(checkpoint, node)
    requires c in checkpoint.marker.open.progress.Candidates() && r in checkpoint.marker.open.progress.Reviews()
    ensures c.path != r.path && c.at.taskId != r.at.taskId
  {
    var cp := checkpoint.marker.open;
    AcceptedIsSound(checkpoint, node);
    OutputIsPlaced(cp, node, c.at, c.path);
    OutputIsPlaced(cp, node, r.at, r.path);
    assert CandidateBacked(FilesByPath(cp.files), c) && ReviewBacked(FilesByPath(cp.files), r);
  }

  /** The candidates of one task at one place are one candidate, in whichever groups. */
  lemma OneCandidatePerCall(checkpoint: Checkpoint, node: Node, a: Candidate, b: Candidate)
    requires Accepted(checkpoint, node)
    requires a in checkpoint.marker.open.progress.Candidates() && b in checkpoint.marker.open.progress.Candidates()
    ensures a == b <==> a.at == b.at
    ensures a == b <==> a.path == b.path
  {
    AcceptedIsSound(checkpoint, node);
    PathDeterminesCall(checkpoint, node, a.at, a.path, b.at, b.path);
    assert Agree(a, b);
  }

  // ----- settled phases

  ghost predicate HasFile(files: seq<File>, path: string, purpose: Purpose, at: Invocation) {
    exists f :: f in files && f.path == path && f.purpose == purpose && f.at == at
  }

  /** Every compiled executor, in order, has a candidate at the place, and the file of the
      call that produced it is among the files. */
  ghost predicate ExecutorsDone(group: seq<Candidate>, files: seq<File>, node: Node, place: Coordinates) {
    && CandidateIds(group) == IdsOf(node.providers, Executor)
    && forall c :: c in group ==> CandidateDone(c, files, place)
  }

  ghost predicate CandidateDone(c: Candidate, files: seq<File>, place: Coordinates) {
    && c.at.role == Executor && c.at.Place() == place && !Later(c.Producer(), place)
    && HasFile(files, c.path, ExecutorOutput, Invocation(c.at.taskId, Executor, c.producerAudit, c.producerRound))
  }

  ghost predicate ReviewDone(r: Review, files: seq<File>, place: Coordinates) {
    && r.at.role == Reviewer && r.at.Place() == place
    && HasFile(files, r.path, ReviewerOutput, r.at)
  }

  /** Every compiled reviewer is accounted for at the place: in order by its review, or by
      failures that are exactly those of the reviewers without one. */
  ghost predicate ReviewersSettled(
    reviews: seq<Review>, failures: seq<Failure>, files: seq<File>, node: Node, place: Coordinates)
  {
    var expected, failed := IdsOf(node.providers, Reviewer), FailureIds(failures);
    && ReviewIds(reviews) == Dropping(expected, failed)
    && multiset(failed) == multiset(Keeping(expected, failed))
    && (forall r :: r in reviews ==> ReviewDone(r, files, place))
    && (forall f :: f in failures ==> f.at.role == Reviewer && f.at.Place() == place)
  }

  ghost predicate PlaceInBounds(cp: OpenCheckpoint, node: Node, place: Coordinates) {
    && 1 <= place.audit <= cp.audit <= AuditRounds(node)
    && 1 <= place.round <= MaximumReviewRound(node)
    && !Later(place, cp.Cursor())
  }

  lemma BackedHasFile(files: seq<File>, path: string)
    requires path in FilesByPath(files)
    ensures var f := FilesByPath(files)[path]; HasFile(files, path, f.purpose, f.at)
  {
    ByPathFinds(files, path);
  }

  lemma {:induction false} CarriedHas(groups: seq<Option<seq<Candidate>>>, group: seq<Candidate>)
    requires Some(group) in groups
    ensures forall c :: c in group ==> c in Carried(groups)
  {
    if groups[0] != Some(group) {
      CarriedHas(groups[1..], group);
    }
  }

  lemma BackedIsDone(files: seq<File>, group: seq<Candidate>, executors: seq<string>)
    requires CompleteGroup(group, executors) && CandidatesBacked(FilesByPath(files), group)
    ensures forall c :: c in group ==> CandidateDone(c, files, group[0].at.Place())
  {
    forall c | c in group ensures CandidateDone(c, files, group[0].at.Place()) {
      assert CandidateBacked(FilesByPath(files), c);
      BackedHasFile(files, c.path);
    }
  }

  /** A group the progress carries is complete at the place of its first candidate. */
  lemma GroupIsDone(cp: OpenCheckpoint, node: Node, group: seq<Candidate>)
    requires Sound(cp, node) && Some(group) in cp.progress.Groups()
    ensures group != [] && ExecutorsDone(group, cp.files, node, group[0].at.Place())
    ensures PlaceInBounds(cp, node, group[0].at.Place())
  {
    CarriedHas(cp.progress.Groups(), group);
    assert CompleteGroup(group, IdsOf(node.providers, Executor));
    assert CandidatesBacked(FilesByPath(cp.files), group);
    BackedIsDone(cp.files, group, IdsOf(node.providers, Executor));
    OutputIsPlaced(cp, node, group[0].at, group[0].path);
    assert group[0].at.role == Executor by { assert CandidateBacked(FilesByPath(cp.files), group[0]); }
  }

  lemma GroupsHave(p: Progress)
    ensures p.latestOutputs in p.Groups()
    ensures p.active.Some? ==> Some(p.active.value.executorOutputs) in p.Groups()
  {
    assert p.Groups()[0] == p.latestOutputs;
    if p.active.Some? {
      assert p.Groups()[1] == Some(p.active.value.executorOutputs);
    }
  }

  /** A batch that passes, of reviews the progress carries, settles the reviewers. */
  lemma BatchIsSettled(
    cp: OpenCheckpoint, node: Node, reviews: seq<Review>, failures: seq<Failure>, place: Coordinates)
    requires ReviewsBacked(FilesByPath(cp.files), cp.progress.Reviews())
    requires Batch(node.providers, reviews, failures, place).Pass?
    requires forall r :: r in reviews ==> r in cp.progress.Reviews()
    ensures ReviewersSettled(reviews, failures, cp.files, node, place)
  {
    BatchIff(node.providers, reviews, failures, place);
    forall r | r in reviews ensures ReviewDone(r, cp.files, place) {
      assert ReviewBacked(FilesByPath(cp.files), r);
      BackedHasFile(cp.files, r.path);
    }
  }

  lemma SelectedParts(tasks: seq<Task>, group: seq<Candidate>, reviews: seq<Review>, failures: seq<Failure>, selected: nat)
    requires SelectedBatch(tasks, Some(group), reviews, failures, selected).Pass? && selected > 0
    ensures group != [] && group[0].at.round == selected
    ensures Batch(tasks, reviews, failures, group[0].at.Place()).Pass?
  {
  }

  // ----- what an accepted checkpoint may go on to

  /** The reasons for which a loop may end, on the fields: it stopped on consensus, or it went on
      after a stop for which the policy lets it go on. */
  ghost predicate MayEnd(p: Progress, policy: Policy) {
    var v := p.verdict;
    && v.stopReason in {Some(Consensus), Some(NoProgress), Some(ConsensusExhausted)}
    && (v.consensus <==> v.stopReason == Some(Consensus))
    && (v.afterStop <==> v.stopReason != Some(Consensus))
    && (v.afterExhaustion <==> v.stopReason == Some(ConsensusExhausted))
    && (v.consensus ==> forall r :: r in p.reviews ==> r.evaluation.approved)
    && (!v.consensus ==> policy.continueOnFailure
                         || (v.stopReason == Some(ConsensusExhausted) && policy.onExhaustion == Some(Continue)))
  }

  lemma FinalizationIff(cp: OpenCheckpoint, node: Node)
    ensures Finalization(cp, node).Pass? <==> cp.round == cp.progress.lastRound && MayEnd(cp.progress, node.policy)
  {
    assert Permitted(cp.progress, node) <==> MayEnd(cp.progress, node.policy);
  }

  /** Finalization: the reason given is one for which the node's policy lets the loop end. */
  lemma FinalizeHasReason(checkpoint: Checkpoint, node: Node)
    requires Accepted(checkpoint, node) && checkpoint.marker.open.next == Finalize
    ensures checkpoint.marker.open.round == checkpoint.marker.open.progress.lastRound
    ensures MayEnd(checkpoint.marker.open.progress, node.policy)
  {
    var cp := checkpoint.marker.open;
    AcceptedIsSound(checkpoint, node);
    ProgressParts(cp, node);
    FinalizationIff(cp, node);
  }

  /** Finalization: the selected candidates are complete at one place, and every compiled
      reviewer is accounted for at that same place. */
  lemma FinalizeIsSettled(checkpoint: Checkpoint, node: Node)
    requires Accepted(checkpoint, node) && checkpoint.marker.open.next == Finalize
    ensures var cp := checkpoint.marker.open;
            cp.progress.latestOutputs.Some? && cp.progress.latestOutputs.value != []
            && Settled(cp, node, cp.progress.latestOutputs.value, cp.progress.reviews, cp.progress.failures)
    ensures var cp := checkpoint.marker.open;
            cp.progress.latestOutputs.value[0].at.round == cp.progress.selectedRound
  {
    var cp := checkpoint.marker.open;
    var p := cp.progress;
    AcceptedIsSound(checkpoint, node);
    ProgressParts(cp, node);
    ReferenceParts(cp);
    var group := p.latestOutputs.value;
    SelectedParts(node.providers, group, p.reviews, p.failures, p.selectedRound);
    GroupsHave(cp.progress);
    GroupIsDone(cp, node, group);
    BatchIsSettled(cp, node, p.reviews, p.failures, group[0].at.Place());
  }

  /** One place at which the executors are done and the reviewers settled. */
  ghost predicate Settled(
    cp: OpenCheckpoint, node: Node, group: seq<Candidate>, reviews: seq<Review>, failures: seq<Failure>)
    requires group != []
  {
    var place := group[0].at.Place();
    && PlaceInBounds(cp, node, place)
    && ExecutorsDone(group, cp.files, node, place)
    && ReviewersSettled(reviews, failures, cp.files, node, place)
  }

  /** All compiled reviewers, in order, approve what all compiled executors, in order,
      produced at one place. */
  ghost predicate Unanimous(cp: OpenCheckpoint, node: Node, place: Coordinates) {
    var p := cp.progress;
    && p.latestOutputs.Some? && PlaceInBounds(cp, node, place)
    && ExecutorsDone(p.latestOutputs.value, cp.files, node, place)
    && ReviewIds(p.reviews) == IdsOf(node.providers, Reviewer)
    && (forall r :: r in p.reviews ==> r.evaluation.approved && ReviewDone(r, cp.files, place))
    && p.failures == [] && NoRepeats(FilePaths(cp.files))
  }

  /** Finalization by consensus is unanimous approval of one candidate. */
  lemma ConsensusIsUnanimous(checkpoint: Checkpoint, node: Node)
    requires Accepted(checkpoint, node) && checkpoint.marker.open.next == Finalize
    requires checkpoint.marker.open.progress.verdict.stopReason == Some(Consensus)
    ensures exists place :: Unanimous(checkpoint.marker.open, node, place)
  {
    var cp := checkpoint.marker.open;
    FinalizeIsSettled(checkpoint, node);
    FinalizeHasReason(checkpoint, node);
    AcceptedIsSound(checkpoint, node);
    ProgressParts(cp, node);
    assert cp.progress.failures == [];
    ReferenceParts(cp);
    UniquePathsIff(cp.files);
    assert FailureIds([]) == [];
    DroppingNone(IdsOf(node.providers, Reviewer));
    assert Unanimous(cp, node, cp.progress.latestOutputs.value[0].at.Place());
  }

  /** Remediation: the executors start again from a candidate that is complete and settled at
      an earlier round of the same audit, and carry its open findings. */
  lemma RemediationStartsSettled(checkpoint: Checkpoint, node: Node)
    requires Accepted(checkpoint, node) && checkpoint.marker.open.next == Executors
    requires checkpoint.marker.open.round != 1
    ensures var cp := checkpoint.marker.open;
            cp.progress.active.Some? && var a := cp.progress.active.value;
            a.executorOutputs != [] && Settled(cp, node, a.executorOutputs, a.reviews, a.failures)
            && a.executorOutputs[0].at.audit == cp.audit
            && a.executorOutputs[0].at.round == a.selectedRound < cp.round
            && a.previousUnresolved == UnresolvedFingerprints(a.reviews)
  {
    var cp := checkpoint.marker.open;
    AcceptedIsSound(checkpoint, node);
    ProgressParts(cp, node);
    var a := cp.progress.active.value;
    var group := a.executorOutputs;
    assert a.latestValid == Some(group);
    SelectedParts(node.providers, group, a.reviews, a.failures, a.selectedRound);
    GroupsHave(cp.progress);
    GroupIsDone(cp, node, group);
    BatchIsSettled(cp, node, a.reviews, a.failures, group[0].at.Place());
  }

  /** Review: past the initial review, the reviewers face the complete candidate of the
      cursor's own place. */
  lemma ReviewersFaceTheCursor(checkpoint: Checkpoint, node: Node)
    requires Accepted(checkpoint, node) && checkpoint.marker.open.next == Reviewers
    requires checkpoint.marker.open.round > 0
    ensures var cp := checkpoint.marker.open;
            cp.progress.active.Some?
            && ExecutorsDone(cp.progress.active.value.executorOutputs, cp.files, node, cp.Cursor())
  {
    var cp := checkpoint.marker.open;
    AcceptedIsSound(checkpoint, node);
    ReferenceParts(cp);
    ReviewersHaveCandidate(cp);
    var group := cp.progress.active.value.executorOutputs;
    GroupsHave(cp.progress);
    GroupIsDone(cp, node, group);
    ProgressParts(cp, node);
    CursorIsTheirs(cp, node, group[0]);
  }

  lemma ReviewersHaveCandidate(cp: OpenCheckpoint)
    requires PhaseRequirements(cp).Pass? && cp.next == Reviewers && cp.round > 0
    ensures cp.progress.active.Some? && cp.progress.active.value.executorOutputs != []
  {
  }

  lemma CursorIsTheirs(cp: OpenCheckpoint, node: Node, c: Candidate)
    requires ProgressCursor(cp, node).Pass? && cp.next == Reviewers && cp.progress.active.Some?
    requires c in cp.progress.active.value.executorOutputs
    ensures c.at.Place() == cp.Cursor()
  {
  }
}
