/**
 * The records of a review-loop checkpoint and of the compiled node it is checked against
 * (`core/review_checkpoint_state.py`, `core/review_checkpoint.py`), with the round and audit
 * bounds of `core/review_policy.py`.
 */
module CheckpointState {
  import opened Results

  /** `Field(ge=1)` */
  type Positive = n: nat | n >= 1 witness 1

  datatype Role = Executor | Reviewer

  datatype Task = Task(taskId: string, role: Role)

  datatype Coordinates = Coordinates(audit: nat, round: nat)

  /** Tuple order on (audit, round). */
  predicate Later(a: Coordinates, b: Coordinates) {
    a.audit > b.audit || (a.audit == b.audit && a.round > b.round)
  }

  /** What every checkpoint record says about the call that produced it. */
  datatype Invocation = Invocation(taskId: string, role: Role, audit: Positive, round: nat) {
    function Place(): Coordinates { Coordinates(audit, round) }
  }

  datatype Purpose =
    | ExecutorOutput | ReviewerOutput | ReviewState | ReviewMetadata | ReviewFailure
    | CandidateIdentity | GeneratedFile | GeneratedMetadata
    | WorkspaceState | WorkspaceSetup | WorkspaceRendered | WorkspaceBundle

  datatype File = File(at: Invocation, purpose: Purpose, path: string, size: nat, digest: string)

  datatype Kind = Document | Files | Unverified

  datatype Identity = Identity(kind: Kind, fingerprint: Option<string>)

  datatype Candidate = Candidate(
    at: Invocation, path: string, producerAudit: Positive, producerRound: Positive, identity: Identity)
  {
    function Producer(): Coordinates { Coordinates(producerAudit, producerRound) }
  }

  /** The parts of an evaluation that a validator reads, and the rest. */
  datatype Evaluation = Evaluation(approved: bool, unresolved: seq<string>, text: string)

  datatype Review = Review(at: Invocation, path: string, evaluation: Evaluation)

  datatype Failure = Failure(at: Invocation, kind: string, warning: string)

  datatype StopReason = Consensus | ConsensusExhausted | NoProgress | NoValidCandidate | StopCancelled | StopFailed

  datatype AuditProgress = AuditProgress(
    lastRound: nat,
    selectedRound: nat,
    executorOutputs: seq<Candidate>,
    previousOutputs: Option<seq<Candidate>>,
    previousUnresolved: seq<string>,
    latestValid: Option<seq<Candidate>>,
    reviews: seq<Review>,
    failures: seq<Failure>)

  /** How the loop as a whole stands when it stops. */
  datatype Verdict = Verdict(
    stopReason: Option<StopReason>, consensus: bool, afterExhaustion: bool, afterStop: bool)

  datatype Initial = Initial(completed: bool, reviews: seq<Review>, failures: seq<Failure>)

  datatype Progress = Progress(
    lastRound: nat,
    selectedRound: nat,
    latestOutputs: Option<seq<Candidate>>,
    reviews: seq<Review>,
    failures: seq<Failure>,
    executedAudits: nat,
    verdict: Verdict,
    active: Option<AuditProgress>,
    initial: Initial)
  {
    /** The candidate groups, in the order in which `candidates()` concatenates them. */
    function Groups(): seq<Option<seq<Candidate>>> {
      [latestOutputs]
      + match active
        case None => []
        case Some(a) => [Some(a.executorOutputs), a.previousOutputs, a.latestValid]
    }

    function Candidates(): seq<Candidate> { Carried(Groups()) }

    function Reviews(): (all: seq<Review>)
      ensures forall r :: r in all <==> r in initial.reviews || r in reviews || (active.Some? && r in active.value.reviews)
    {
      initial.reviews + reviews + (if active.Some? then active.value.reviews else [])
    }

    function Failures(): (all: seq<Failure>)
      ensures forall f :: f in all <==> f in initial.failures || f in failures || (active.Some? && f in active.value.failures)
    {
      initial.failures + failures + (if active.Some? then active.value.failures else [])
    }
  }

  function Carried(groups: seq<Option<seq<Candidate>>>): seq<Candidate> {
    if groups == [] then []
    else (if groups[0].Some? then groups[0].value else []) + Carried(groups[1..])
  }

  datatype Mapping = Mapping(outputPath: string, snapshotPath: Option<string>)

  datatype Workspace = Workspace(at: Invocation, snapshotPath: string, destinationPath: string)

  datatype Phase = Executors | Reviewers | Finalize

  /** What an open marker carries. */
  datatype OpenCheckpoint = OpenCheckpoint(
    audit: Positive,
    round: nat,
    next: Phase,
    progress: Progress,
    files: seq<File>,
    mappings: seq<Mapping>,
    workspaces: seq<Workspace>)
  {
    function Cursor(): Coordinates { Coordinates(audit, round) }
  }

  datatype Marker = Open(open: OpenCheckpoint) | Closed(terminalReason: string)

  datatype Checkpoint = Checkpoint(
    nodeId: string, tasks: seq<Task>, expansion: Option<string>, marker: Marker)

  // ----- the compiled node

  datatype Mode = Parallel | Sequential | Input | Foreach

  datatype OnExhaustion = Continue | Fatal

  datatype Policy = Policy(
    depth: Option<nat>,
    auditRounds: Option<nat>,
    startsWith: Role,
    continueOnFailure: bool,
    onExhaustion: Option<OnExhaustion>)

  datatype Node = Node(
    id: string, mode: Mode, providers: seq<Task>, expansion: Option<string>, policy: Policy,
    stagePath: Option<string>)

  /** `depth or 1` and `audit_rounds or 1`. */
  function OrDefault(configured: Option<nat>): (r: nat)
    ensures r >= 1
    ensures configured == Some(r) || (r == 1 && configured in {None, Some(0)})
  {
    if configured.Some? && configured.value != 0 then configured.value else 1
  }

  /** The review before any remediation comes on top of the configured depth. */
  function MaximumReviewRound(node: Node): nat { OrDefault(node.policy.depth) + 1 }

  function AuditRounds(node: Node): nat { OrDefault(node.policy.auditRounds) }

  /** The ids of the tasks of one role, in order. */
  function IdsOf(tasks: seq<Task>, role: Role): (ids: seq<string>)
    ensures forall id :: id in ids <==> Task(id, role) in tasks
  {
    if tasks == [] then []
    else IdsOf(tasks[..|tasks| - 1], role)
         + (if tasks[|tasks| - 1].role == role then [tasks[|tasks| - 1].taskId] else [])
  }

  // ----- checks

  datatype Mismatch =
    | DuplicateFilePaths | CandidateLacksEvidence | ReviewLacksEvidence | BadMappings
    | DuplicateDestinations | WorkspaceLacksEvidence
    | UnsettledFinalization | NoActiveCandidate | NoActiveProgress
    | ExpansionDiffers | TopologyDiffers
    | IncompleteExecutors | ConflictingIdentities | StaleProducer
    | AuditCursorDiffers | InitialWithActive | RemediationDiffers | RoundBoundExceeded | ReviewerCursorDiffers
    | UnselectedBatch | SelectionDiffers | IncompleteBatch | ReviewerOrderDiffers
    | InitialNotConfigured | UnsettledInitial
    | FailuresNotAllowed | FailuresPreventConsensus
    | FinalRoundDiffers | FinalizationNotPermitted
    | CursorOutOfBounds | BadRoundZeroCursor | InvocationDiffers | BadRoundZero
    | OutsideStage | PathDiffers

  /** The first mismatch, raised as `ValueError` in the source, or none. */
  datatype Check = Pass | Fail(mismatch: Mismatch) {
    predicate IsFailure() { Fail? }

    function PropagateFailure(): Check { this }
  }

  function Need(condition: bool, otherwise: Mismatch): Check {
    if condition then Pass else Fail(otherwise)
  }
}
