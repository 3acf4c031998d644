/** A checkpoint every validator accepts: the conditions on acceptance can be met. */
module CheckpointExample {
  import opened Results
  import opened ArtifactNames
  import opened CheckpointState
  import opened CheckpointProgress
  import opened CheckpointNode
  import opened CheckpointLaws

  function SmallNode(stage: string, executor: string, reviewer: string): Node {
    Node("node", Sequential, SmallTasks(executor, reviewer), None,
         Policy(None, None, Executor, false, None), Some(stage))
  }

  function SmallCandidate(stage: string, executor: string): Candidate {
    var at := Invocation(executor, Executor, 1, 1);
    Candidate(at, ExpectedPath(stage, 1, at), 1, 1, Identity(Unverified, None))
  }

  function SmallReview(stage: string, reviewer: string): Review {
    var at := Invocation(reviewer, Reviewer, 1, 1);
    Review(at, ExpectedPath(stage, 1, at), Evaluation(true, [], ""))
  }

  function SmallOpen(stage: string, executor: string, reviewer: string): OpenCheckpoint {
    var c, r := SmallCandidate(stage, executor), SmallReview(stage, reviewer);
    OpenCheckpoint(
      1, 1, Finalize,
      Progress(1, 1, Some([c]), [r], [], 1, Verdict(Some(Consensus), true, false, false), None, Initial(false, [], [])),
      [File(c.at, ExecutorOutput, c.path, 0, ""), File(r.at, ReviewerOutput, r.path, 0, "")], [], [])
  }

  lemma SmallFiles(stage: string, executor: string, reviewer: string)
    requires executor != reviewer
    ensures var cp := SmallOpen(stage, executor, reviewer);
            var m := FilesByPath(cp.files);
            && cp.files[0].path != cp.files[1].path
            && m == map[cp.files[0].path := cp.files[0], cp.files[1].path := cp.files[1]]
            && |m| == 2
  {
    var cp := SmallOpen(stage, executor, reviewer);
    var a, b := cp.files[0], cp.files[1];
    FilenameDetermines(executor, 1, reviewer, 1);
    SameTail(stage + "/", PathInStage(1, a.at), PathInStage(1, b.at));
    assert cp.files[..1] == [a] && [a][..0] == [];
    assert FilesByPath([a]) == map[a.path := a];
    assert FilesByPath(cp.files) == map[a.path := a][b.path := b];
  }

  lemma SmallCarried(stage: string, executor: string, reviewer: string)
    ensures var p := SmallOpen(stage, executor, reviewer).progress;
            && p.Groups() == [Some([SmallCandidate(stage, executor)])]
            && p.Candidates() == [SmallCandidate(stage, executor)]
            && p.Reviews() == [SmallReview(stage, reviewer)] && p.Failures() == []
  {
    var groups := [Some([SmallCandidate(stage, executor)])];
    assert groups[1..] == [];
    assert Carried(groups) == [SmallCandidate(stage, executor)] + Carried([]);
  }

  lemma SmallReferences(stage: string, executor: string, reviewer: string)
    requires executor != reviewer
    ensures References(SmallOpen(stage, executor, reviewer)).Pass?
  {
    var cp := SmallOpen(stage, executor, reviewer);
    SmallFiles(stage, executor, reviewer);
    SmallCarried(stage, executor, reviewer);
    assert MappedPaths([]) == [] && DestinationPaths([]) == [];
    assert Unique([]) by {
      var none: seq<string> := [];
      assert (set p | p in none) == {};
    }
  }

  function SmallTasks(executor: string, reviewer: string): seq<Task> {
    [Task(executor, Executor), Task(reviewer, Reviewer)]
  }

  lemma SmallIds(executor: string, reviewer: string)
    ensures var tasks := SmallTasks(executor, reviewer);
            && IdsOf(tasks, Executor) == [executor] && IdsOf(tasks, Reviewer) == [reviewer]
            && Identities(tasks) == map[executor := Executor][reviewer := Reviewer]
  {
    var tasks, one := SmallTasks(executor, reviewer), [Task(executor, Executor)];
    assert tasks[..|tasks| - 1] == one && one[..|one| - 1] == [];
    assert IdsOf(one, Executor) == [executor] && IdsOf(one, Reviewer) == [];
    assert Identities(one) == map[executor := Executor];
  }

  lemma SmallGroups(stage: string, executor: string, reviewer: string)
    ensures CandidateGroups(SmallOpen(stage, executor, reviewer).progress.Groups(), [executor], map[]).Pass?
  {
    var cp := SmallOpen(stage, executor, reviewer);
    var c := SmallCandidate(stage, executor);
    SmallCarried(stage, executor, reviewer);
    assert [c][..0] == [] && CandidateIds([c]) == [executor];
    CandidateGroupsIff(cp.progress, [executor]);
  }

  lemma SmallBatch(stage: string, executor: string, reviewer: string)
    ensures Batch(SmallTasks(executor, reviewer), [SmallReview(stage, reviewer)], [], Coordinates(1, 1)).Pass?
  {
    SmallIds(executor, reviewer);
    BatchIff(SmallTasks(executor, reviewer), [SmallReview(stage, reviewer)], [], Coordinates(1, 1));
    assert FailureIds([]) == [] && Keeping([reviewer], []) == [];
    DroppingNone([reviewer]);
  }

  lemma SmallSelected(stage: string, executor: string, reviewer: string)
    ensures SelectedReviews(SmallOpen(stage, executor, reviewer), SmallTasks(executor, reviewer)).Pass?
  {
    SmallBatch(stage, executor, reviewer);
  }

  lemma SmallCursor(stage: string, executor: string, reviewer: string)
    ensures var cp, node := SmallOpen(stage, executor, reviewer), SmallNode(stage, executor, reviewer);
            ProgressCursor(cp, node).Pass? && InitialReviews(cp, node.providers, node).Pass?
            && ReviewPolicyCheck(cp.progress, node).Pass? && Finalization(cp, node).Pass?
            && NodeCursor(cp, node).Pass?
  {
    SmallCarried(stage, executor, reviewer);
  }

  lemma SmallProgress(stage: string, executor: string, reviewer: string)
    ensures var cp, node := SmallOpen(stage, executor, reviewer), SmallNode(stage, executor, reviewer);
            ProgressCheck(cp, node.providers, node).Pass?
  {
    SmallIds(executor, reviewer);
    SmallGroups(stage, executor, reviewer);
    SmallSelected(stage, executor, reviewer);
    SmallCursor(stage, executor, reviewer);
  }

  lemma SmallRecords(stage: string, executor: string, reviewer: string)
    ensures var c, r := SmallCandidate(stage, executor).at, SmallReview(stage, reviewer).at;
            Records(SmallOpen(stage, executor, reviewer)) == [c, r, c, r]
  {
    var cp := SmallOpen(stage, executor, reviewer);
    var c, r := SmallCandidate(stage, executor), SmallReview(stage, reviewer);
    SmallCarried(stage, executor, reviewer);
    assert CallsOf(cp.files, FileCall) == [c.at, r.at];
    assert CallsOf([c], CandidateCall) == [c.at] && CallsOf([r], ReviewCall) == [r.at];
    assert CallsOf(cp.progress.Failures(), FailureCall) == [] && CallsOf(cp.workspaces, WorkspaceCall) == [];
  }

  lemma SmallCalls(stage: string, executor: string, reviewer: string)
    requires executor != reviewer
    ensures var cp, node := SmallOpen(stage, executor, reviewer), SmallNode(stage, executor, reviewer);
            InvocationCoordinates(cp, node.providers, node, Records(cp)).Pass?
  {
    var cp, node := SmallOpen(stage, executor, reviewer), SmallNode(stage, executor, reviewer);
    SmallIds(executor, reviewer);
    assert InBounds(cp, node, SmallCandidate(stage, executor).at);
    assert InBounds(cp, node, SmallReview(stage, reviewer).at);
    SmallRecords(stage, executor, reviewer);
    CoordinatesIff(cp, node, Records(cp));
  }

  /** For every stage and every two distinct task ids there is a checkpoint that all the
      validators accept as final by consensus. */
  lemma ConsensusIsAccepted(stage: string, executor: string, reviewer: string)
    requires executor != reviewer
    ensures var node := SmallNode(stage, executor, reviewer);
            Accepted(Checkpoint("node", node.providers, None, Open(SmallOpen(stage, executor, reviewer))), node)
  {
    SmallReferences(stage, executor, reviewer);
    SmallProgress(stage, executor, reviewer);
    SmallCursor(stage, executor, reviewer);
    SmallCalls(stage, executor, reviewer);
    SmallEligible(stage, executor, reviewer);
    SmallPaths(stage, executor, reviewer);
    var node := SmallNode(stage, executor, reviewer);
    NodeParts(Checkpoint("node", node.providers, None, Open(SmallOpen(stage, executor, reviewer))), node);
  }

  lemma SmallEligible(stage: string, executor: string, reviewer: string)
    ensures Eligible(SmallNode(stage, executor, reviewer))
  {
    var tasks := SmallTasks(executor, reviewer);
    assert tasks[0].role == Executor && tasks[1].role == Reviewer;
    assert tasks[0] in tasks && tasks[1] in tasks;
  }

  lemma SmallPaths(stage: string, executor: string, reviewer: string)
    ensures ArtifactPaths(SmallOpen(stage, executor, reviewer), SmallNode(stage, executor, reviewer)).Pass?
  {
    SmallCarried(stage, executor, reviewer);
  }
}
