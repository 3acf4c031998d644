/**
 * Exactly which checkpoints are accepted, told on the fields of the records: the validators
 * agree with this description, part by part and as a whole.
 */
module CheckpointAcceptance {
  import opened Results
  import opened Collections
  import opened CheckpointState
  import opened CheckpointProgress
  import opened CheckpointNode
  import opened CheckpointLaws

  // ----- the node

  /** A sequential node whose executors all come before its reviewers, with some of each. */
  ghost predicate ReviewLoop(node: Node) {
    && node.mode == Sequential
    && (exists t :: t in node.providers && t.role == Executor)
    && (exists t :: t in node.providers && t.role == Reviewer)
    && ExecutorsFirst(node.providers)
  }

  ghost predicate ExecutorsFirst(tasks: seq<Task>) {
    forall i, j {:trigger tasks[i], tasks[j]} ::
      0 <= i < j < |tasks| && tasks[i].role == Reviewer ==> tasks[j].role == Reviewer
  }

  lemma {:induction false} ReviewersFollow(tasks: seq<Task>, i: nat, j: nat)
    requires Contiguous(tasks) && i < j < |tasks| && tasks[i].role == Reviewer
    ensures tasks[j].role == Reviewer
  {
    if i < j - 1 {
      ReviewersFollow(tasks, i, j - 1);
    }
    assert InTurn(tasks, j - 1);
  }

  lemma EligibleIff(node: Node)
    ensures Eligible(node) <==> ReviewLoop(node)
  {
    var tasks := node.providers;
    if Contiguous(tasks) {
      forall i, j | 0 <= i < j < |tasks| && tasks[i].role == Reviewer ensures tasks[j].role == Reviewer {
        ReviewersFollow(tasks, i, j);
      }
    }
    if ExecutorsFirst(tasks) {
      forall i | 0 <= i < |tasks| - 1 ensures InTurn(tasks, i) {
        assert tasks[i].role == Reviewer ==> tasks[i + 1].role == Reviewer;
      }
    }
  }

  // ----- the candidates carried

  ghost predicate InGroup(group: Option<seq<Candidate>>, c: Candidate) {
    group.Some? && c in group.value
  }

  lemma {:induction false} CarriedIff(groups: seq<Option<seq<Candidate>>>, c: Candidate)
    ensures c in Carried(groups) <==> exists g :: g in groups && InGroup(g, c)
  {
    if groups != [] {
      var first, rest := groups[0], groups[1..];
      CarriedIff(rest, c);
      assert forall g :: g in groups <==> g == first || g in rest;
      assert c in Carried(groups) <==> InGroup(first, c) || c in Carried(rest);
    }
  }

  /** The progress carries the latest candidates and, in an active audit, the current ones,
      the previous ones and the latest valid ones. */
  lemma CandidatesExactly(p: Progress, c: Candidate)
    ensures c in p.Candidates()
            <==> || InGroup(p.latestOutputs, c)
                 || (p.active.Some?
                     && var a := p.active.value;
                        c in a.executorOutputs || InGroup(a.previousOutputs, c) || InGroup(a.latestValid, c))
  {
    CarriedIff(p.Groups(), c);
    GroupsOf(p);
    assert p.active.Some? ==> (c in p.active.value.executorOutputs <==> InGroup(Some(p.active.value.executorOutputs), c));
  }

  lemma GroupsOf(p: Progress)
    ensures p.Groups() == if p.active.None? then [p.latestOutputs]
                          else [p.latestOutputs, Some(p.active.value.executorOutputs), p.active.value.previousOutputs,
                                p.active.value.latestValid]
  {
  }

  // ----- evidence

  /** Every output is backed by the file of the call that produced it, mappings belong to
      outputs, and workspaces have their snapshots; no two files share a path, no two mappings
      an output and no two workspaces a destination. */
  ghost predicate HasEvidence(cp: OpenCheckpoint) {
    && NoRepeats(FilePaths(cp.files))
    && (forall c :: c in cp.progress.Candidates() ==> ProducerKnown(cp.files, c))
    && (forall r :: r in cp.progress.Reviews() ==> r.at.role == Reviewer && HasFile(cp.files, r.path, ReviewerOutput, r.at))
    && MappingsKnown(cp) && WorkspacesKnown(cp)
  }

  ghost predicate MappingsKnown(cp: OpenCheckpoint) {
    && NoRepeats(MappedPaths(cp.mappings))
    && (forall m :: m in cp.mappings ==> exists at :: IsOutput(cp.progress, at, m.outputPath))
  }

  ghost predicate WorkspacesKnown(cp: OpenCheckpoint) {
    && NoRepeats(DestinationPaths(cp.workspaces))
    && (forall w :: w in cp.workspaces ==> HasFile(cp.files, w.snapshotPath, WorkspaceState, w.at))
  }

  ghost predicate ProducerKnown(files: seq<File>, c: Candidate) {
    && c.at.role == Executor
    && HasFile(files, c.path, ExecutorOutput, Invocation(c.at.taskId, Executor, c.producerAudit, c.producerRound))
    && (c.producerAudit < c.at.audit || (c.producerAudit == c.at.audit && c.producerRound <= c.at.round))
  }

  /** With distinct paths the map holds every file. */
  lemma {:induction false} ByPathHolds(files: seq<File>, f: File)
    requires NoRepeats(FilePaths(files)) && f in files
    ensures f.path in FilesByPath(files) && FilesByPath(files)[f.path] == f
  {
    var n := |files| - 1;
    var front, last := files[..n], files[n];
    assert FilePaths(files) == FilePaths(front) + [last.path];
    LastIsNew(FilePaths(front), last.path);
    if f != last {
      ByPathHolds(front, f);
      SamePaths(front, f.path);
    }
  }

  lemma ByPathIff(files: seq<File>, path: string, purpose: Purpose, at: Invocation)
    requires NoRepeats(FilePaths(files))
    ensures path in FilesByPath(files) && FilesByPath(files)[path].purpose == purpose && FilesByPath(files)[path].at == at
            <==> HasFile(files, path, purpose, at)
  {
    if path in FilesByPath(files) {
      BackedHasFile(files, path);
    }
    if HasFile(files, path, purpose, at) {
      var f :| f in files && f.path == path && f.purpose == purpose && f.at == at;
      ByPathHolds(files, f);
    }
  }

  lemma {:induction false} UniqueIff(paths: seq<string>)
    ensures |set p | p in paths| <= |paths|
    ensures Unique(paths) <==> NoRepeats(paths)
  {
    if paths != [] {
      var n := |paths| - 1;
      var front, last := paths[..n], paths[n];
      assert paths == front + [last];
      UniqueIff(front);
      LastIsNew(front, last);
      assert (set p | p in paths) == (set p | p in front) + {last};
    }
  }

  lemma MappingsIff(cp: OpenCheckpoint)
    ensures GeneratedMappings(cp).Pass? <==> MappingsKnown(cp)
  {
    UniqueIff(MappedPaths(cp.mappings));
    var mapped := MappedPaths(cp.mappings);
    forall p ensures p in OutputPaths(cp.progress) <==> exists at :: IsOutput(cp.progress, at, p) {
      OutputPathIff(cp.progress, p);
    }
    forall m | m in cp.mappings ensures m.outputPath in mapped {
      var i :| 0 <= i < |cp.mappings| && cp.mappings[i] == m;
      assert mapped[i] == m.outputPath;
    }
    forall p | p in mapped ensures exists m :: m in cp.mappings && m.outputPath == p {
      var i :| 0 <= i < |mapped| && mapped[i] == p;
      assert cp.mappings[i] in cp.mappings;
    }
  }

  lemma OutputPathIff(p: Progress, path: string)
    ensures path in OutputPaths(p) <==> exists at :: IsOutput(p, at, path)
  {
    if c :| c in p.Candidates() && c.path == path {
      assert IsOutput(p, c.at, path);
    }
    if r :| r in p.Reviews() && r.path == path {
      assert IsOutput(p, r.at, path);
    }
  }

  lemma CandidatesBackedIff(files: seq<File>, candidates: seq<Candidate>)
    requires NoRepeats(FilePaths(files))
    ensures CandidatesBacked(FilesByPath(files), candidates) <==> forall c :: c in candidates ==> ProducerKnown(files, c)
  {
    forall c | c in candidates ensures CandidateBacked(FilesByPath(files), c) <==> ProducerKnown(files, c) {
      ByPathIff(files, c.path, ExecutorOutput, Invocation(c.at.taskId, Executor, c.producerAudit, c.producerRound));
    }
  }

  lemma ReviewsBackedIff(files: seq<File>, reviews: seq<Review>)
    requires NoRepeats(FilePaths(files))
    ensures ReviewsBacked(FilesByPath(files), reviews)
            <==> forall r :: r in reviews ==> r.at.role == Reviewer && HasFile(files, r.path, ReviewerOutput, r.at)
  {
    forall r | r in reviews
      ensures ReviewBacked(FilesByPath(files), r) <==> r.at.role == Reviewer && HasFile(files, r.path, ReviewerOutput, r.at)
    {
      ByPathIff(files, r.path, ReviewerOutput, r.at);
    }
  }

  lemma WorkspacesIff(cp: OpenCheckpoint)
    requires NoRepeats(FilePaths(cp.files))
    ensures WorkspaceEvidence(cp, FilesByPath(cp.files)).Pass? <==> WorkspacesKnown(cp)
  {
    UniqueIff(DestinationPaths(cp.workspaces));
    forall w | w in cp.workspaces
      ensures WorkspaceBacked(FilesByPath(cp.files), w) <==> HasFile(cp.files, w.snapshotPath, WorkspaceState, w.at)
    {
      ByPathIff(cp.files, w.snapshotPath, WorkspaceState, w.at);
    }
  }

  /** The phase has what it needs. */
  ghost predicate PhaseReady(cp: OpenCheckpoint) {
    var p := cp.progress;
    match cp.next
    case Finalize => p.active.None? && p.latestOutputs.Some? && p.latestOutputs.value != [] && p.selectedRound >= 1
    case Reviewers => cp.round == 0 || (p.active.Some? && p.active.value.executorOutputs != [])
    case Executors => cp.round <= 1 || p.active.Some?
  }

  lemma PhaseIff(cp: OpenCheckpoint)
    ensures PhaseRequirements(cp).Pass? <==> PhaseReady(cp)
  {
  }

  lemma ReferencesIff(cp: OpenCheckpoint)
    ensures References(cp).Pass? <==> HasEvidence(cp) && PhaseReady(cp)
  {
    UniquePathsIff(cp.files);
    MappingsIff(cp);
    if NoRepeats(FilePaths(cp.files)) {
      CandidatesBackedIff(cp.files, cp.progress.Candidates());
      ReviewsBackedIff(cp.files, cp.progress.Reviews());
      WorkspacesIff(cp);
    }
    PhaseIff(cp);
  }

  // ----- progress

  /** Every group carried is the complete ordered executor phase of one place, candidates with
      one path are one candidate, and an older producer only seeds the first round of an audit. */
  ghost predicate GroupsAgree(p: Progress, executors: seq<string>) {
    && (p.latestOutputs.Some? ==> CompleteGroup(p.latestOutputs.value, executors))
    && (p.active.Some? ==>
          var a := p.active.value;
          && CompleteGroup(a.executorOutputs, executors)
          && (a.previousOutputs.Some? ==> CompleteGroup(a.previousOutputs.value, executors))
          && (a.latestValid.Some? ==> CompleteGroup(a.latestValid.value, executors)))
    && (forall a, b {:trigger Agree(a, b)} :: a in p.Candidates() && b in p.Candidates() ==> Agree(a, b))
    && (forall c :: c in p.Candidates()
                    ==> || (c.producerAudit == c.at.audit && c.producerRound == c.at.round)
                        || (c.producerAudit < c.at.audit && c.at.round == 1))
  }

  lemma GroupsIff(p: Progress, executors: seq<string>)
    ensures CandidateGroups(p.Groups(), executors, map[]).Pass? <==> GroupsAgree(p, executors)
  {
    CandidateGroupsIff(p, executors);
    GroupsOf(p);
  }

  /** The cursor and the counters fit each other and the policy. */
  ghost predicate CursorFits(cp: OpenCheckpoint, depth: nat) {
    var p := cp.progress;
    && p.executedAudits == cp.audit
    && p.selectedRound <= depth + 1 && p.lastRound <= depth + 1
    && (p.active.Some? ==> p.active.value.selectedRound <= depth + 1 && p.active.value.lastRound <= depth + 1)
    && (cp.next == Executors && cp.round == 1 ==> p.active.None?)
    && (cp.next == Executors && cp.round != 1 ==> p.active.Some? && CarriesSettled(cp, p.active.value))
    && (cp.next == Reviewers && p.active.Some?
        ==> forall c :: c in p.active.value.executorOutputs ==> c.at.audit == cp.audit && c.at.round == cp.round)
  }

  /** Remediation starts from the candidates settled at an earlier round of this audit, with
      exactly the findings their reviews left open. */
  ghost predicate CarriesSettled(cp: OpenCheckpoint, a: AuditProgress) {
    && a.lastRound + 1 == cp.round && 1 <= a.selectedRound < cp.round
    && a.executorOutputs != []
    && a.latestValid == Some(a.executorOutputs) && a.previousOutputs == Some(a.executorOutputs)
    && (forall c :: c in a.executorOutputs ==> c.at.audit == cp.audit)
    && a.previousUnresolved == UnresolvedFingerprints(a.reviews)
  }

  lemma CursorIff(cp: OpenCheckpoint, node: Node)
    ensures ProgressCursor(cp, node).Pass? <==> CursorFits(cp, OrDefault(node.policy.depth))
  {
    if cp.progress.active.Some? {
      assert RemediationReady(cp, cp.progress.active.value) <==> CarriesSettled(cp, cp.progress.active.value);
    }
  }

  /** The reviewers at the place, by reviews in compiled order and failures for the rest. */
  ghost predicate Accounted(node: Node, reviews: seq<Review>, failures: seq<Failure>, audit: nat, round: nat) {
    var expected, failed := IdsOf(node.providers, Reviewer), FailureIds(failures);
    && ReviewIds(reviews) == Dropping(expected, failed)
    && multiset(failed) == multiset(Keeping(expected, failed))
    && ReviewerCalls(reviews, failures, audit, round)
  }

  ghost predicate ReviewerCalls(reviews: seq<Review>, failures: seq<Failure>, audit: nat, round: nat) {
    && (forall r :: r in reviews ==> r.at.audit == audit && r.at.round == round && r.at.role == Reviewer)
    && (forall f :: f in failures ==> f.at.audit == audit && f.at.round == round && f.at.role == Reviewer)
  }

  lemma ReviewerCallsIff(reviews: seq<Review>, failures: seq<Failure>, audit: nat, round: nat)
    ensures ReviewersAt(reviews, failures, Coordinates(audit, round)) <==> ReviewerCalls(reviews, failures, audit, round)
  {
    forall r | r in reviews
      ensures r.at.Place() == Coordinates(audit, round) <==> r.at.audit == audit && r.at.round == round
    {
    }
  }

  lemma AccountedIff(node: Node, reviews: seq<Review>, failures: seq<Failure>, audit: nat, round: nat)
    ensures Batch(node.providers, reviews, failures, Coordinates(audit, round)).Pass?
            <==> Accounted(node, reviews, failures, audit, round)
  {
    BatchIff(node.providers, reviews, failures, Coordinates(audit, round));
    ReviewerCallsIff(reviews, failures, audit, round);
  }

  /** A selected round has its candidates and its reviewers; no selection, no reviews. */
  ghost predicate Selection(
    node: Node, group: Option<seq<Candidate>>, reviews: seq<Review>, failures: seq<Failure>, selected: nat)
  {
    if selected == 0 then reviews == [] && failures == []
    else
      && group.Some? && group.value != [] && (forall c :: c in group.value ==> c.at.round == selected)
      && Accounted(node, reviews, failures, group.value[0].at.audit, selected)
  }

  lemma SelectionIff(
    node: Node, group: Option<seq<Candidate>>, reviews: seq<Review>, failures: seq<Failure>, selected: nat)
    ensures SelectedBatch(node.providers, group, reviews, failures, selected).Pass?
            <==> Selection(node, group, reviews, failures, selected)
  {
    if group.Some? && group.value != [] {
      AccountedIff(node, reviews, failures, group.value[0].at.audit, selected);
    }
  }

  /** The settled reviews: of the selected rounds, and of the initial review, which only a node
      that starts with its reviewers has. */
  ghost predicate ReviewsSettled(p: Progress, node: Node) {
    && Selection(node, p.latestOutputs, p.reviews, p.failures, p.selectedRound)
    && (p.active.Some? ==>
          var a := p.active.value; Selection(node, a.latestValid, a.reviews, a.failures, a.selectedRound))
    && (if p.initial.completed
        then node.policy.startsWith == Reviewer && Accounted(node, p.initial.reviews, p.initial.failures, 1, 0)
        else p.initial.reviews == [] && p.initial.failures == [])
  }

  lemma ReviewsIff(cp: OpenCheckpoint, node: Node)
    ensures SelectedReviews(cp, node.providers).Pass? && InitialReviews(cp, node.providers, node).Pass?
            <==> ReviewsSettled(cp.progress, node)
  {
    var p := cp.progress;
    SelectionIff(node, p.latestOutputs, p.reviews, p.failures, p.selectedRound);
    if p.active.Some? {
      var a := p.active.value;
      SelectionIff(node, a.latestValid, a.reviews, a.failures, a.selectedRound);
    }
    AccountedIff(node, p.initial.reviews, p.initial.failures, 1, 0);
  }

  /** Failures are carried only where the policy goes on after them, and never to a consensus. */
  ghost predicate FailuresAllowed(p: Progress, policy: Policy) {
    && (!policy.continueOnFailure
        ==> p.initial.failures == [] && p.failures == [] && (p.active.Some? ==> p.active.value.failures == []))
    && (p.verdict.consensus ==> p.failures == [])
  }

  lemma FailuresIff(p: Progress, node: Node)
    ensures ReviewPolicyCheck(p, node).Pass? <==> FailuresAllowed(p, node.policy)
  {
    assert p.Failures() == [] <==> |p.initial.failures| == 0 && |p.failures| == 0
                                   && (p.active.Some? ==> |p.active.value.failures| == 0);
  }

  ghost predicate ProgressFits(cp: OpenCheckpoint, node: Node) {
    && GroupsAgree(cp.progress, IdsOf(node.providers, Executor))
    && CursorFits(cp, OrDefault(node.policy.depth))
    && ReviewsSettled(cp.progress, node)
    && FailuresAllowed(cp.progress, node.policy)
    && (cp.next == Finalize ==> cp.round == cp.progress.lastRound && MayEnd(cp.progress, node.policy))
  }

  lemma ProgressIff(cp: OpenCheckpoint, node: Node)
    ensures ProgressCheck(cp, node.providers, node).Pass? <==> ProgressFits(cp, node)
  {
    GroupsIff(cp.progress, IdsOf(node.providers, Executor));
    CursorIff(cp, node);
    ReviewsIff(cp, node);
    FailuresIff(cp.progress, node);
    FinalizationIff(cp, node);
  }

  // ----- places

  /** The call is one of a compiled task, the last of its id if that repeats, no later than the
      cursor and within the configured rounds; at round zero it is one of the initial review. */
  ghost predicate CallFits(cp: OpenCheckpoint, node: Node, at: Invocation) {
    && RoleOf(node.providers, at.taskId) == Some(at.role)
    && (at.audit < cp.audit || (at.audit == cp.audit && at.round <= cp.round))
    && at.round <= OrDefault(node.policy.depth) + 1
    && (at.round == 0 ==> at.audit == 1 && at.role == Reviewer && node.policy.startsWith == Reviewer)
  }

  function RoleOf(tasks: seq<Task>, id: string): Option<Role> {
    if tasks == [] then None
    else if tasks[|tasks| - 1].taskId == id then Some(tasks[|tasks| - 1].role)
    else RoleOf(tasks[..|tasks| - 1], id)
  }

  lemma {:induction false} RoleIff(tasks: seq<Task>, at: Invocation)
    ensures KnownTask(Identities(tasks), at) <==> RoleOf(tasks, at.taskId) == Some(at.role)
  {
    if tasks != [] {
      RoleIff(tasks[..|tasks| - 1], at);
    }
  }

  lemma CallFitsIff(cp: OpenCheckpoint, node: Node, at: Invocation)
    ensures InBounds(cp, node, at) <==> CallFits(cp, node, at)
  {
    RoleIff(node.providers, at);
  }

  /** Every record names a call that fits. */
  ghost predicate CallsFit(cp: OpenCheckpoint, node: Node) {
    && (forall f :: f in cp.files ==> CallFits(cp, node, f.at))
    && (forall c :: c in cp.progress.Candidates() ==> CallFits(cp, node, c.at))
    && (forall r :: r in cp.progress.Reviews() ==> CallFits(cp, node, r.at))
    && (forall f :: f in cp.progress.Failures() ==> CallFits(cp, node, f.at))
    && (forall w :: w in cp.workspaces ==> CallFits(cp, node, w.at))
  }

  ghost predicate AllFit<T>(cp: OpenCheckpoint, node: Node, records: seq<T>, call: T -> Invocation) {
    forall x :: x in records ==> CallFits(cp, node, call(x))
  }

  lemma AllFitIff<T>(cp: OpenCheckpoint, node: Node, records: seq<T>, call: T -> Invocation)
    ensures AllFit(cp, node, records, call) <==> forall at :: at in CallsOf(records, call) ==> InBounds(cp, node, at)
  {
    var calls := CallsOf(records, call);
    forall at | at in calls ensures exists x :: x in records && call(x) == at {
      var i :| 0 <= i < |calls| && calls[i] == at;
      assert records[i] in records;
    }
    forall x | x in records ensures call(x) in calls {
      CallIn(records, call, x);
    }
    forall at ensures InBounds(cp, node, at) <==> CallFits(cp, node, at) {
      CallFitsIff(cp, node, at);
    }
  }

  lemma CallsIff(cp: OpenCheckpoint, node: Node)
    ensures InvocationCoordinates(cp, node.providers, node, Records(cp)).Pass? <==> CallsFit(cp, node)
  {
    CoordinatesIff(cp, node, Records(cp));
    AllFitIff(cp, node, cp.files, FileCall);
    AllFitIff(cp, node, cp.progress.Candidates(), CandidateCall);
    AllFitIff(cp, node, cp.progress.Reviews(), ReviewCall);
    AllFitIff(cp, node, cp.progress.Failures(), FailureCall);
    AllFitIff(cp, node, cp.workspaces, WorkspaceCall);
  }

  /** The cursor lies within the policy, and at round zero only before an initial review. */
  ghost predicate CursorBounded(cp: OpenCheckpoint, policy: Policy) {
    && cp.audit <= OrDefault(policy.auditRounds) && cp.round <= OrDefault(policy.depth) + 1
    && (cp.round == 0 ==> cp.audit == 1 && cp.next == Reviewers && policy.startsWith == Reviewer)
  }

  /** All files lie in the node's stage, and every output where its call belongs. */
  ghost predicate InPlace(cp: OpenCheckpoint, node: Node) {
    && node.stagePath.Some?
    && (forall f :: f in cp.files ==> node.stagePath.value + "/" <= f.path)
    && (forall at, path :: IsOutput(cp.progress, at, path)
                           ==> path == ExpectedPath(node.stagePath.value, OrDefault(node.policy.auditRounds), at))
  }

  lemma InPlaceIff(cp: OpenCheckpoint, node: Node)
    ensures ArtifactPaths(cp, node).Pass? <==> InPlace(cp, node)
  {
    if InPlace(cp, node) {
      forall c | c in cp.progress.Candidates()
        ensures c.path == ExpectedPath(node.stagePath.value, AuditRounds(node), c.at)
      {
        assert IsOutput(cp.progress, c.at, c.path);
      }
      forall r | r in cp.progress.Reviews()
        ensures r.path == ExpectedPath(node.stagePath.value, AuditRounds(node), r.at)
      {
        assert IsOutput(cp.progress, r.at, r.path);
      }
    }
  }

  // ----- the whole

  ghost predicate Acceptable(checkpoint: Checkpoint, node: Node) {
    && checkpoint.expansion == node.expansion && checkpoint.nodeId == node.id && checkpoint.tasks == node.providers
    && ReviewLoop(node)
    && checkpoint.marker.Open?
    && var cp := checkpoint.marker.open;
       && HasEvidence(cp) && PhaseReady(cp) && ProgressFits(cp, node)
       && CursorBounded(cp, node.policy) && CallsFit(cp, node) && InPlace(cp, node)
  }

  /** All validators together accept an open checkpoint exactly if it is as described. */
  lemma AcceptedIff(checkpoint: Checkpoint, node: Node)
    ensures Accepted(checkpoint, node) <==> Acceptable(checkpoint, node)
  {
    if checkpoint.marker.Open? {
      var cp := checkpoint.marker.open;
      NodeParts(checkpoint, node);
      EligibleIff(node);
      ReferencesIff(cp);
      ProgressIff(cp, node);
      CallsIff(cp, node);
      InPlaceIff(cp, node);
      assert NodeCursor(cp, node).Pass? <==> CursorBounded(cp, node.policy);
    }
  }

  /** A completed initial review has its reviewers settled at audit 1, round 0, on a node that
      starts with them; without it there is no initial review and no initial failure. */
  lemma InitialReviewIsSettled(checkpoint: Checkpoint, node: Node)
    requires Accepted(checkpoint, node)
    ensures var cp := checkpoint.marker.open;
            if cp.progress.initial.completed
            then node.policy.startsWith == Reviewer
                 && ReviewersSettled(cp.progress.initial.reviews, cp.progress.initial.failures, cp.files, node, Coordinates(1, 0))
            else cp.progress.initial.reviews == [] && cp.progress.initial.failures == []
  {
    var cp := checkpoint.marker.open;
    AcceptedIff(checkpoint, node);
    if cp.progress.initial.completed {
      AcceptedIsSound(checkpoint, node);
      AccountedIff(node, cp.progress.initial.reviews, cp.progress.initial.failures, 1, 0);
      BatchIsSettled(cp, node, cp.progress.initial.reviews, cp.progress.initial.failures, Coordinates(1, 0));
    }
  }

  /** Whatever the phase: without the policy to go on after failures no reviewer of an accepted
      checkpoint failed, and a consensus has no failed reviewer. */
  lemma FailuresNeedPolicy(checkpoint: Checkpoint, node: Node)
    requires Accepted(checkpoint, node)
    ensures checkpoint.marker.open.progress.Failures() != [] ==> node.policy.continueOnFailure
    ensures checkpoint.marker.open.progress.verdict.consensus ==> checkpoint.marker.open.progress.failures == []
  {
    AcceptedIff(checkpoint, node);
  }

  /** A closed marker is accepted exactly for its own node. */
  lemma ClosedIff(checkpoint: Checkpoint, node: Node)
    requires checkpoint.marker.Closed?
    ensures NodeCheck(checkpoint, node).Pass?
            <==> checkpoint.expansion == node.expansion && checkpoint.nodeId == node.id
                 && checkpoint.tasks == node.providers && ReviewLoop(node)
  {
    EligibleIff(node);
  }
}
