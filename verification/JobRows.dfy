/**
  Rows of the dots-host `jobs` table and the guarded updates its SQL statements
  perform (`crewplane_dots_host/__init__.py`).
 */
module JobRows {
  import opened Results

  type JobId = string
  type Token = string

  datatype JobState = Pending | Claimed | Completed | Cancelled | Expired

  /** Requested or confirmed settings; `None` is JSON null. */
  datatype Settings = Settings(model: Option<string>, reasoning: Option<string>)

  datatype Request = Request(prompt: string, requested: Settings, expiresAt: real)

  datatype Receipt = Receipt(output: string, hostAgentId: string, confirmed: Settings, evidence: string)

  datatype Row = Row(state: JobState, request: Request, token: Option<Token>, lease: Option<real>, receipt: Option<Receipt>)

  type Jobs = map<JobId, Row>

  // ----- the guarded updates

  function NewRow(request: Request): Row {
    Row(Pending, request, None, None, None)
  }

  /** `claim`: pending, and the deadline is ahead. */
  predicate MayClaim(row: Row, now: real) {
    row.state.Pending? && row.request.expiresAt > now
  }

  function ClaimedRow(row: Row, token: Token, lease: real): Row {
    row.(state := Claimed, token := Some(token), lease := Some(lease))
  }

  /** The caller holds the job: claimed under this token, lease and deadline ahead. */
  predicate Holds(row: Row, token: Token, leaseSeen: real, deadlineSeen: real) {
    && row.state.Claimed? && row.token == Some(token)
    && row.lease.Some? && row.lease.value > leaseSeen && row.request.expiresAt > deadlineSeen
  }

  function RenewedRow(row: Row, lease: real): Row {
    row.(lease := Some(lease))
  }

  /** Every setting the request names is confirmed as requested. */
  predicate Confirms(requested: Settings, confirmed: Settings) {
    && (requested.model.Some? ==> confirmed.model == requested.model)
    && (requested.reasoning.Some? ==> confirmed.reasoning == requested.reasoning)
  }

  function CompletedRow(row: Row, receipt: Receipt): Row {
    row.(state := Completed, receipt := Some(receipt))
  }

  /** The exact-replay test of `complete`. */
  predicate IsReplay(row: Row, token: Token, receipt: Receipt) {
    row.state.Completed? && row.token == Some(token) && row.receipt == Some(receipt)
  }

  predicate Live(row: Row) {
    row.state.Pending? || row.state.Claimed?
  }

  function CancelledRow(row: Row): Row {
    row.(state := Cancelled)
  }

  /** The `expired` update of `reconcile`. */
  predicate LapsedAt(row: Row, leaseSeen: real, deadlineSeen: real) {
    || (row.state.Claimed? && row.lease.Some? && row.lease.value <= leaseSeen)
    || (Live(row) && row.request.expiresAt <= deadlineSeen)
  }

  function ExpiredRow(row: Row): Row {
    row.(state := Expired)
  }

  /** One row after `reconcile` has cancelled the ids in `seen` and expired what lapsed. */
  function SweptRow(row: Row, cancelled: bool, leaseSeen: real, deadlineSeen: real): Row {
    var swept := if cancelled then CancelledRow(row) else row;
    if LapsedAt(swept, leaseSeen, deadlineSeen) then ExpiredRow(swept) else swept
  }

  function Swept(jobs: Jobs, seen: set<JobId>, leaseSeen: real, deadlineSeen: real): Jobs {
    map j | j in jobs :: SweptRow(jobs[j], j in seen, leaseSeen, deadlineSeen)
  }

  /** The ids `reconcile` selects. */
  function Sweepable(jobs: Jobs): set<JobId> {
    set j | j in jobs && (Live(jobs[j]) || jobs[j].state.Completed?)
  }

  // ----- what every row satisfies, and what every update keeps

  function Rank(state: JobState): nat {
    match state
    case Pending => 0
    case Claimed => 1
    case Completed => 2
    case Cancelled => 3
    case Expired => 3
  }

  /** The columns a row of each state carries. */
  predicate RowOk(row: Row) {
    && (row.token.Some? <==> row.lease.Some?)
    && (row.receipt.Some? ==> row.token.Some? && (row.state.Completed? || row.state.Cancelled?))
    && (row.state.Pending? ==> row.token.None?)
    && (row.state.Claimed? ==> row.token.Some?)
    && (row.state.Completed? ==> row.receipt.Some?)
  }

  /** A row never falls in rank, stays cancelled, never expires once completed or
      cancelled, keeps its request, and never rewrites a token or a receipt. */
  predicate Advances(row: Row, row': Row) {
    && Rank(row.state) <= Rank(row'.state)
    && (row.state.Cancelled? ==> row'.state.Cancelled?)
    && (row.state.Completed? ==> !row'.state.Expired?)
    && row'.request == row.request
    && (row.token.Some? ==> row'.token == row.token)
    && (row.receipt.Some? ==> row'.receipt == row.receipt)
  }

  ghost predicate JobsAdvance(jobs: Jobs, jobs': Jobs) {
    forall j {:trigger j in jobs'} :: j in jobs ==> j in jobs' && Advances(jobs[j], jobs'[j])
  }

  lemma JobsAdvanceTransitive(a: Jobs, b: Jobs, c: Jobs)
    requires JobsAdvance(a, b) && JobsAdvance(b, c)
    ensures JobsAdvance(a, c)
  {
    forall j | j in a
      ensures j in c && Advances(a[j], c[j])
    {
      assert j in b;
    }
  }
}
