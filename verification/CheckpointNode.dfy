/** Evidence, cursor, coordinate and naming checks (`core/review_checkpoint.py`). */
module CheckpointNode {
  import opened CheckpointState
  import opened CheckpointProgress
  import opened ArtifactNames

  // ----- references, checked when the record is built

  /** `{item.relative_path: item for item in files}` */
  function FilesByPath(files: seq<File>): map<string, File> {
    if files == [] then map[]
    else FilesByPath(files[..|files| - 1])[files[|files| - 1].path := files[|files| - 1]]
  }

  lemma {:induction false} ByPathFinds(files: seq<File>, path: string)
    requires path in FilesByPath(files)
    ensures FilesByPath(files)[path] in files && FilesByPath(files)[path].path == path
  {
    var n := |files| - 1;
    if files[n].path != path {
      ByPathFinds(files[..n], path);
    }
  }

  /** The file is the output of the executor call the candidate names as its producer. */
  predicate ProducedBy(f: File, c: Candidate) {
    && f.purpose == ExecutorOutput
    && f.at == Invocation(c.at.taskId, Executor, c.producerAudit, c.producerRound)
  }

  predicate CandidateBacked(byPath: map<string, File>, c: Candidate) {
    && c.path in byPath && ProducedBy(byPath[c.path], c)
    && c.at.role == Executor && !Later(c.Producer(), c.at.Place())
  }

  predicate ReviewBacked(byPath: map<string, File>, r: Review) {
    && r.path in byPath && byPath[r.path].purpose == ReviewerOutput
    && byPath[r.path].at == Invocation(r.at.taskId, Reviewer, r.at.audit, r.at.round)
    && r.at.role == Reviewer
  }

  predicate CandidatesBacked(byPath: map<string, File>, candidates: seq<Candidate>) {
    forall c :: c in candidates ==> CandidateBacked(byPath, c)
  }

  predicate ReviewsBacked(byPath: map<string, File>, reviews: seq<Review>) {
    forall r :: r in reviews ==> ReviewBacked(byPath, r)
  }

  predicate WorkspaceBacked(byPath: map<string, File>, w: Workspace) {
    && w.snapshotPath in byPath && byPath[w.snapshotPath].purpose == WorkspaceState
    && byPath[w.snapshotPath].at == w.at
  }

  predicate Unique(paths: seq<string>) {
    |set p | p in paths| == |paths|
  }

  function OutputPaths(p: Progress): set<string> {
    (set c | c in p.Candidates() :: c.path) + (set r | r in p.Reviews() :: r.path)
  }

  function MappedPaths(mappings: seq<Mapping>): seq<string> {
    seq(|mappings|, i requires 0 <= i < |mappings| => mappings[i].outputPath)
  }

  function DestinationPaths(workspaces: seq<Workspace>): seq<string> {
    seq(|workspaces|, i requires 0 <= i < |workspaces| => workspaces[i].destinationPath)
  }

  function GeneratedMappings(cp: OpenCheckpoint): Check {
    var mapped := MappedPaths(cp.mappings);
    Need(Unique(mapped) && forall p :: p in mapped ==> p in OutputPaths(cp.progress), BadMappings)
  }

  function WorkspaceEvidence(cp: OpenCheckpoint, byPath: map<string, File>): Check {
    var destinations := DestinationPaths(cp.workspaces);
    :- Need(Unique(destinations), DuplicateDestinations);
    Need(forall w :: w in cp.workspaces ==> WorkspaceBacked(byPath, w), WorkspaceLacksEvidence)
  }

  function PhaseRequirements(cp: OpenCheckpoint): Check {
    var p := cp.progress;
    :- Need(cp.next == Finalize
            ==> p.active.None? && p.latestOutputs.Some? && p.latestOutputs.value != [] && p.selectedRound >= 1,
            UnsettledFinalization);
    :- Need(cp.next == Reviewers && cp.round > 0 ==> p.active.Some? && p.active.value.executorOutputs != [],
            NoActiveCandidate);
    Need(cp.next == Executors && cp.round > 1 ==> p.active.Some?, NoActiveProgress)
  }

  /** `validate_references` */
  function References(cp: OpenCheckpoint): Check {
    var byPath := FilesByPath(cp.files);
    :- Need(|byPath| == |cp.files|, DuplicateFilePaths);
    :- Need(CandidatesBacked(byPath, cp.progress.Candidates()), CandidateLacksEvidence);
    :- Need(ReviewsBacked(byPath, cp.progress.Reviews()), ReviewLacksEvidence);
    :- GeneratedMappings(cp);
    :- WorkspaceEvidence(cp, byPath);
    PhaseRequirements(cp)
  }

  // ----- the compiled node

  /** No executor follows a reviewer. */
  predicate Contiguous(tasks: seq<Task>) {
    forall i {:trigger InTurn(tasks, i)} :: 0 <= i < |tasks| - 1 ==> InTurn(tasks, i)
  }

  predicate InTurn(tasks: seq<Task>, i: nat)
    requires i < |tasks| - 1
  {
    tasks[i].role != Reviewer || tasks[i + 1].role != Executor
  }

  predicate Eligible(node: Node) {
    && node.mode == Sequential
    && (exists t :: t in node.providers && t.role == Executor)
    && (exists t :: t in node.providers && t.role == Reviewer)
    && Contiguous(node.providers)
  }

  function NodeCursor(cp: OpenCheckpoint, node: Node): Check {
    var maxRound := MaximumReviewRound(node);
    :- Need(cp.audit <= AuditRounds(node) && cp.round <= maxRound, CursorOutOfBounds);
    Need(cp.round == 0 ==> cp.audit == 1 && cp.next == Reviewers && node.policy.startsWith == Reviewer,
         BadRoundZeroCursor)
  }

  /** `{item.task_id: item.role for item in tasks}`: the last task with an id decides. */
  function Identities(tasks: seq<Task>): map<string, Role> {
    if tasks == [] then map[]
    else Identities(tasks[..|tasks| - 1])[tasks[|tasks| - 1].taskId := tasks[|tasks| - 1].role]
  }

  predicate KnownTask(identities: map<string, Role>, at: Invocation) {
    at.taskId in identities && identities[at.taskId] == at.role
  }

  predicate WithinCursor(cp: OpenCheckpoint, node: Node, at: Invocation) {
    at.audit <= cp.audit && at.round <= MaximumReviewRound(node) && !Later(at.Place(), cp.Cursor())
  }

  predicate RoundZeroOk(node: Node, at: Invocation) {
    at.round == 0 ==> at.audit == 1 && at.role == Reviewer && node.policy.startsWith == Reviewer
  }

  /** The calls the records name, in order. */
  function CallsOf<T>(records: seq<T>, call: T -> Invocation): seq<Invocation> {
    seq(|records|, i requires 0 <= i < |records| => call(records[i]))
  }

  lemma CallIn<T>(records: seq<T>, call: T -> Invocation, record: T)
    requires record in records
    ensures call(record) in CallsOf(records, call)
  {
    var i :| 0 <= i < |records| && records[i] == record;
    assert CallsOf(records, call)[i] == call(record);
  }

  function FileCall(f: File): Invocation { f.at }
  function CandidateCall(c: Candidate): Invocation { c.at }
  function ReviewCall(r: Review): Invocation { r.at }
  function FailureCall(f: Failure): Invocation { f.at }
  function WorkspaceCall(w: Workspace): Invocation { w.at }

  /** The calls of all records, in the order in which they are checked. */
  function Records(cp: OpenCheckpoint): seq<Invocation> {
    CallsOf(cp.files, FileCall)
    + CallsOf(cp.progress.Candidates(), CandidateCall)
    + CallsOf(cp.progress.Reviews(), ReviewCall)
    + CallsOf(cp.progress.Failures(), FailureCall)
    + CallsOf(cp.workspaces, WorkspaceCall)
  }

  /** `_validate_invocation_coordinates`, over the remaining records. */
  function InvocationCoordinates(cp: OpenCheckpoint, tasks: seq<Task>, node: Node, records: seq<Invocation>): Check {
    if records == [] then Pass
    else
      :- Need(KnownTask(Identities(tasks), records[0]) && WithinCursor(cp, node, records[0]), InvocationDiffers);
      :- Need(RoundZeroOk(node, records[0]), BadRoundZero);
      InvocationCoordinates(cp, tasks, node, records[1..])
  }

  function PathInStage(auditRounds: nat, at: Invocation): string {
    var name := BuildTaskRoundFilename(at.taskId, at.round);
    if auditRounds > 1 then BuildReviewAuditDirectoryName(at.audit) + "/" + name else name
  }

  /** Where the output of a call belongs. */
  function ExpectedPath(stage: string, auditRounds: nat, at: Invocation): string {
    stage + "/" + PathInStage(auditRounds, at)
  }

  predicate CandidatesPlaced(cp: OpenCheckpoint, node: Node) {
    node.stagePath.Some?
    && forall c :: c in cp.progress.Candidates() ==> c.path == ExpectedPath(node.stagePath.value, AuditRounds(node), c.at)
  }

  predicate ReviewsPlaced(cp: OpenCheckpoint, node: Node) {
    node.stagePath.Some?
    && forall r :: r in cp.progress.Reviews() ==> r.path == ExpectedPath(node.stagePath.value, AuditRounds(node), r.at)
  }

  predicate FilesInStage(cp: OpenCheckpoint, node: Node) {
    node.stagePath.Some? && forall f :: f in cp.files ==> node.stagePath.value + "/" <= f.path
  }

  function ArtifactPaths(cp: OpenCheckpoint, node: Node): Check {
    if !FilesInStage(cp, node) then Fail(OutsideStage)
    else Need(CandidatesPlaced(cp, node) && ReviewsPlaced(cp, node), PathDiffers)
  }

  /** `validate_checkpoint_node` */
  function NodeCheck(checkpoint: Checkpoint, node: Node): Check {
    var tasks := node.providers;
    :- Need(checkpoint.expansion == node.expansion, ExpansionDiffers);
    :- Need(Eligible(node) && checkpoint.nodeId == node.id && checkpoint.tasks == tasks, TopologyDiffers);
    match checkpoint.marker
    case Closed(_) => Pass
    case Open(cp) =>
      :- ProgressCheck(cp, checkpoint.tasks, node);
      :- NodeCursor(cp, node);
      :- InvocationCoordinates(cp, checkpoint.tasks, node, Records(cp));
      ArtifactPaths(cp, node)
  }
}
