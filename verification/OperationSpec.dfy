/**
 What one call does to the tables, with all checks made up front and no statement in between: the
 specification the transactions of `OperationStore` are proved against.
 */
module OperationSpec {
  import opened Common
  import opened OperationModel

  datatype Command =
    | Persist(bundle: Bundle)
    | Append(event: ReviewCommand)
    | NewCommit(id: string, project: string)

  function LifecycleRows(events: seq<NewLifecycleEvent>): seq<LifecycleRow> {
    seq(|events|, i requires 0 <= i < |events| =>
      LifecycleRow(i + 1, events[i].from, events[i].to, events[i].occurredAt, events[i].reason))
  }

  function PacketId(b: Bundle): Option<string> {
    if b.packet.Some? then Some(b.packet.value.id) else None
  }

  /** The proposal a bundle opens for review. */
  function ProposalOf(b: Bundle): Option<string> {
    if b.artifact.Some? && b.artifact.value.kind == PatchProposal then Some(b.artifact.value.id) else None
  }

  /** The table checks of an attempt row. */
  predicate AttemptCheck(a: Attempt) {
    && 1 <= a.sequence <= MAX_ATTEMPTS
    && a.outcome != Unsupported
    && (a.responseId.Some? ==> 1 <= |a.responseId.value| <= 512)
    && (a.failureCode.Some? ==> 1 <= |a.failureCode.value| <= 200)
    && (a.failureKind.Some? ==> a.failureKind.value in FAILURE_KINDS)
    && (a.httpStatus.Some? ==> 100 <= a.httpStatus.value <= 599)
    && (a.remoteRequestId.Some? ==> 1 <= |a.remoteRequestId.value| <= 512)
    && (a.retryAfterMs.Some? ==> 0 <= a.retryAfterMs.value <= 86_400_000)
    && (a.retryDelayMs.Some? ==> 0 <= a.retryDelayMs.value <= 10_000)
    && a.responseStarted == a.responseId.Some?
    && (a.outcome == Succeeded ==> a.responseStarted && NoFailureMetadata(a))
    && (a.outcome == FailedAttempt ==> a.failureCode.Some? && a.retriable.Some?)
    && (a.retryDelayMs.Some? ==> a.outcome == FailedAttempt && a.retriable == Some(true) && !a.responseStarted)
  }

  /**
   The validator and the table checks differ in one place: an empty remote request id passes the
   validator and is refused by the table.
   */
  lemma AttemptCheckExactly(attempts: seq<Attempt>, i: nat)
    requires i < |attempts| <= MAX_ATTEMPTS && AttemptOk(attempts, i)
    ensures AttemptCheck(attempts[i]) <==> attempts[i].remoteRequestId != Some("")
  {
    if attempts[i].remoteRequestId.Some? {
      assert attempts[i].remoteRequestId != Some("") <==> 1 <= |attempts[i].remoteRequestId.value|;
    }
  }

  // ----- Persisting a bundle

  function StoredRun(b: Bundle): Run {
    b.run.(columns := b.run.columns.(packet := PacketId(b)))
  }

  /** No rows, no entry. */
  function Logged<T>(table: map<string, seq<T>>, key: string, rows: seq<T>): map<string, seq<T>> {
    if rows == [] then table else table[key := rows]
  }

  function StoredPackets(db: Database, b: Bundle): map<string, Packet> {
    if b.packet.Some? then db.packets[b.packet.value.id := b.packet.value.packet] else db.packets
  }

  function StoredArtifacts(db: Database, b: Bundle): map<string, Artifact> {
    if b.artifact.Some?
    then db.artifacts[b.artifact.value.id := Artifact(b.runId, b.artifact.value.kind, b.artifact.value.body)]
    else db.artifacts
  }

  /** A proposal starts in review at revision 0. */
  function StoredHeads(db: Database, b: Bundle): map<string, Head> {
    if ProposalOf(b).Some?
    then db.heads[b.artifact.value.id := Head(b.runId, 0, ReviewStatus.Review, b.artifact.value.createdAt)]
    else db.heads
  }

  function Stored(db: Database, b: Bundle): Database {
    db.(
      packets := StoredPackets(db, b),
      runs := db.runs[b.runId := StoredRun(b)],
      lifecycle := Logged(db.lifecycle, b.runId, LifecycleRows(b.lifecycle)),
      attempts := Logged(db.attempts, b.runId, b.attempts),
      artifacts := StoredArtifacts(db, b),
      heads := StoredHeads(db, b))
  }

  /** Why the tables refuse a valid bundle. */
  function PersistRefusal(db: Database, b: Bundle): Option<StoreError> {
    if !(b.run.columns.base in db.commits && db.commits[b.run.columns.base] == b.run.columns.project) then
      Some(NotFound("project_commit"))
    else if b.packet.Some? && b.packet.value.id in db.packets then Some(Constraint("context_packet_record"))
    else if b.runId in db.runs then Some(Constraint("operation_run"))
    else if exists a | a in b.attempts :: a.remoteRequestId == Some("") then Some(Constraint("operation_attempt"))
    else if b.artifact.Some? && b.artifact.value.id in db.artifacts then Some(Constraint("operation_artifact"))
    else None
  }

  function PersistOutcome(db: Database, b: Bundle): Result<Database, StoreError> {
    if !ValidBundle(b) then Failure(Validation)
    else
      match PersistRefusal(db, b)
      case Some(error) => Failure(error)
      case None => Success(Stored(db, b))
  }

  // ----- Appending a review event

  predicate EventIdTaken(db: Database, id: string) {
    exists p | p in db.events :: exists row | row in db.events[p] :: row.id == id
  }

  function NewReviewRow(db: Database, c: ReviewCommand): ReviewRow {
    ReviewRow(c.id, |Rows(db.events, c.proposal)| + 1, c.expectedRevision, c.expectedRevision + 1, c.kind,
              c.expectedStatus, c.next, c.hunk, c.decision, c.payload, c.occurredAt)
  }

  /** The run follows the review status; nothing is logged when it is already there. */
  predicate Moves(db: Database, c: ReviewCommand)
    requires c.proposal in db.heads && db.heads[c.proposal].run in db.runs
  {
    db.runs[db.heads[c.proposal].run].state != StateOf(c.next)
  }

  function NewLifecycleRow(db: Database, c: ReviewCommand): LifecycleRow
    requires c.proposal in db.heads && db.heads[c.proposal].run in db.runs
  {
    var run := db.heads[c.proposal].run;
    LifecycleRow(|Rows(db.lifecycle, run)| + 1, db.runs[run].state, StateOf(c.next), c.occurredAt, Some(KindName(c.kind)))
  }

  function ReviewedEvents(db: Database, c: ReviewCommand): map<string, seq<ReviewRow>> {
    db.events[c.proposal := Rows(db.events, c.proposal) + [NewReviewRow(db, c)]]
  }

  function ReviewedHeads(db: Database, c: ReviewCommand): map<string, Head>
    requires c.proposal in db.heads
  {
    db.heads[c.proposal := Head(db.heads[c.proposal].run, c.expectedRevision + 1, c.next, c.occurredAt)]
  }

  function Reviewed(db: Database, c: ReviewCommand): Database
    requires c.proposal in db.heads && db.heads[c.proposal].run in db.runs
  {
    var run := db.heads[c.proposal].run;
    db.(
      events := ReviewedEvents(db, c),
      heads := ReviewedHeads(db, c),
      lifecycle :=
        if Moves(db, c) then db.lifecycle[run := Rows(db.lifecycle, run) + [NewLifecycleRow(db, c)]]
        else db.lifecycle,
      runs :=
        if Moves(db, c) then db.runs[run := db.runs[run].(state := StateOf(c.next), updatedAt := c.occurredAt)]
        else db.runs)
  }

  function AppendOutcome(db: Database, c: ReviewCommand): Result<Database, StoreError>
    requires c.proposal in db.heads ==> db.heads[c.proposal].run in db.runs
  {
    if !ValidReviewCommand(c) then Failure(Validation)
    else if c.proposal !in db.heads then Failure(NotFound("patch_review"))
    else if db.heads[c.proposal].revision != c.expectedRevision || db.heads[c.proposal].status != c.expectedStatus then
      Failure(StateConflict(db.heads[c.proposal].revision, db.heads[c.proposal].status))
    else if !ReviewTransition(c.kind, c.expectedStatus, c.next, c.hunk, c.decision) then Failure(Validation)
    else if EventIdTaken(db, c.id) then Failure(Constraint("patch_review_event"))
    else Success(Reviewed(db, c))
  }

  // ----- Runs of commands

  /** A failed call leaves the tables as they were. */
  function Committed(db: Database, outcome: Result<Database, StoreError>): Database {
    if outcome.Success? then outcome.value else db
  }

  /** Every reviewed proposal belongs to a stored run. */
  predicate HeadsHaveRuns(db: Database) {
    forall p | p in db.heads :: db.heads[p].run in db.runs
  }

  function Execute(db: Database, command: Command): (after: Database)
    requires HeadsHaveRuns(db)
    ensures HeadsHaveRuns(after)
  {
    match command
    case Persist(b) => Committed(db, PersistOutcome(db, b))
    case Append(c) => Committed(db, AppendOutcome(db, c))
    case NewCommit(id, project) => if id in db.commits then db else db.(commits := db.commits[id := project])
  }

  function ExecuteAll(db: Database, commands: seq<Command>): (after: Database)
    requires HeadsHaveRuns(db)
    ensures HeadsHaveRuns(after)
  {
    if commands == [] then db
    else Execute(ExecuteAll(db, commands[..|commands| - 1]), commands[|commands| - 1])
  }

  // ----- The empty remote request id, seen from a caller

  const NO_REMOTE_ID := Attempt(1, "t", "t", FailedAttempt, false, None, Some("e"), None, None, Some(""), None, Some(false), None)

  /** A failed run whose one attempt came back without a remote request id, reported as an empty one. */
  const FAILED_BUNDLE := Bundle(
    "r", Run(RunColumns("i", "p", "c", None, None, None, Some("e"), ""), Failed, "t"), None,
    [NewLifecycleEvent(Draft, Compiling, "t", None), NewLifecycleEvent(Compiling, Failed, "t", None)],
    [NO_REMOTE_ID], None, true)

  lemma ShortText()
    ensures NonEmpty("t")
  {
    var text := "t";
    assert text[0] == 't' && text[..0] == "";
  }

  /** The bundle passes every check of the validator, and the attempt table refuses it. */
  lemma EmptyRemoteIdRefused()
    ensures ValidBundle(FAILED_BUNDLE)
    ensures PersistOutcome(ExecuteAll(EMPTY, [NewCommit("c", "p")]), FAILED_BUNDLE) == Failure(Constraint("operation_attempt"))
  {
    ShortText();
    assert [NewCommit("c", "p")][..0] == [];
    assert FAILED_BUNDLE.attempts[0] == NO_REMOTE_ID;
  }
}
