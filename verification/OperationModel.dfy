/**
 Data of the operation and review store (`operation.rs`, tables of `migration.rs`): runs with an
 append-only lifecycle log, patch proposals with an append-only review log, and what may be asked
 of the store.
 */
module OperationModel {
  import opened Common
  import opened Text

  datatype OperationState =
    | Draft | Compiling | Preflight | Queued | Streaming | Validating
    | Review | Accepted | Rejected | Conflicted | Failed | Cancelled

  datatype ReviewStatus = Review | Ready | Applied | Rejected | Conflicted

  datatype EventKind = Decision | Apply | Conflict | Rebase | Reject

  datatype HunkDecision = AcceptHunk | RejectHunk

  datatype ArtifactKind = PatchProposal | Findings

  // ----- Stored rows

  datatype LifecycleRow = LifecycleRow(sequence: int, from: OperationState, to: OperationState, occurredAt: string, reason: Option<string>)

  datatype Outcome = Succeeded | FailedAttempt | Unsupported

  datatype Attempt = Attempt(
    sequence: int, startedAt: string, finishedAt: string,
    outcome: Outcome, responseStarted: bool, responseId: Option<string>,
    failureCode: Option<string>, failureKind: Option<string>, httpStatus: Option<int>,
    remoteRequestId: Option<string>, retryAfterMs: Option<int>, retriable: Option<bool>, retryDelayMs: Option<int>)

  datatype ReviewRow = ReviewRow(
    id: string, sequence: int, baseRevision: int, newRevision: int, kind: EventKind,
    previous: ReviewStatus, next: ReviewStatus, hunk: Option<string>, decision: Option<HunkDecision>,
    payload: Option<string>, occurredAt: string)

  datatype Packet = Packet(intent: string, project: string, base: string, body: string)

  /** The columns of a run that no update may touch; `details` stands for provider, model, usage and start. */
  datatype RunColumns = RunColumns(
    intent: string, project: string, base: string, packet: Option<string>, response: Option<string>,
    finish: Option<string>, failure: Option<string>, details: string)

  datatype Run = Run(columns: RunColumns, state: OperationState, updatedAt: string)

  datatype Artifact = Artifact(run: string, kind: ArtifactKind, body: string)

  datatype Head = Head(run: string, revision: int, status: ReviewStatus, updatedAt: string)

  /** The tables. Commits map to their project; the logs are kept by run and by proposal. */
  datatype Database = Database(
    commits: map<string, string>,
    packets: map<string, Packet>,
    runs: map<string, Run>,
    lifecycle: map<string, seq<LifecycleRow>>,
    attempts: map<string, seq<Attempt>>,
    artifacts: map<string, Artifact>,
    heads: map<string, Head>,
    events: map<string, seq<ReviewRow>>)

  const EMPTY := Database(map[], map[], map[], map[], map[], map[], map[], map[])

  function Rows<T>(table: map<string, seq<T>>, key: string): seq<T> {
    if key in table then table[key] else []
  }

  function LifecycleSequence(row: LifecycleRow): int { row.sequence }

  function AttemptSequence(row: Attempt): int { row.sequence }

  function EventSequence(row: ReviewRow): int { row.sequence }

  // ----- Requests

  datatype NewLifecycleEvent = NewLifecycleEvent(from: OperationState, to: OperationState, occurredAt: string, reason: Option<string>)

  datatype NewPacket = NewPacket(id: string, packet: Packet)

  datatype NewArtifact = NewArtifact(id: string, kind: ArtifactKind, body: string, createdAt: string)

  /** `wellFormed` is the result of the checks on single fields of run, packet and artifact: lengths, blanks, JSON, provider, usage. */
  datatype Bundle = Bundle(
    runId: string, run: Run, packet: Option<NewPacket>, lifecycle: seq<NewLifecycleEvent>,
    attempts: seq<Attempt>, artifact: Option<NewArtifact>, wellFormed: bool)

  datatype ReviewCommand = ReviewCommand(
    id: string, proposal: string, expectedRevision: int, expectedStatus: ReviewStatus, kind: EventKind,
    next: ReviewStatus, hunk: Option<string>, decision: Option<HunkDecision>, payload: Option<string>,
    occurredAt: string, wellFormed: bool)

  datatype StoreError =
    | Validation
    | NotFound(entity: string)
    | StateConflict(actualRevision: int, actualStatus: ReviewStatus)
    | Constraint(table: string)
    | GuardAbort(table: string)
    | InvariantViolation

  // ----- The two state machines

  predicate ValidOperationTransition(from: OperationState, to: OperationState) {
    match from
    case Draft => to == Compiling || to == Cancelled
    case Compiling => to == Preflight || to == Failed || to == Cancelled
    case Preflight => to == Queued || to == Failed || to == Cancelled
    case Queued => to == Streaming || to == Failed || to == Cancelled
    case Streaming => to == Validating || to == Failed || to == Cancelled
    case Validating => to == OperationState.Review || to == Failed
    case Review => to == Accepted || to == OperationState.Rejected || to == OperationState.Conflicted
    case Conflicted => to == OperationState.Review || to == OperationState.Rejected
    case _ => false
  }

  predicate ReviewTransition(
    kind: EventKind, expected: ReviewStatus, next: ReviewStatus, hunk: Option<string>, decision: Option<HunkDecision>)
  {
    match kind
    case Decision =>
      && hunk.Some? && Trim(hunk.value) != "" && decision.Some?
      && (expected == ReviewStatus.Review || expected == Ready)
      && (next == ReviewStatus.Review || next == Ready || next == ReviewStatus.Rejected)
      && (next == ReviewStatus.Rejected ==> decision == Some(RejectHunk))
    case Apply => expected == Ready && next == Applied && hunk.None? && decision.None?
    case Conflict =>
      && (expected == ReviewStatus.Review || expected == Ready) && next == ReviewStatus.Conflicted
      && hunk.None? && decision.None?
    case Rebase => expected == ReviewStatus.Conflicted && next == ReviewStatus.Review && hunk.None? && decision.None?
    case Reject =>
      && (expected == ReviewStatus.Review || expected == Ready || expected == ReviewStatus.Conflicted)
      && next == ReviewStatus.Rejected && hunk.None? && decision.None?
  }

  /** The operation state a review status stands for. */
  function StateOf(status: ReviewStatus): OperationState {
    match status
    case Review => OperationState.Review
    case Ready => OperationState.Review
    case Applied => Accepted
    case Rejected => OperationState.Rejected
    case Conflicted => OperationState.Conflicted
  }

  function KindName(kind: EventKind): string {
    match kind
    case Decision => "decision"
    case Apply => "apply"
    case Conflict => "conflict"
    case Rebase => "rebase"
    case Reject => "reject"
  }

  // ----- Bundle validation

  const MAX_LIFECYCLE_EVENTS := 64
  const MAX_ATTEMPTS := 3

  const FAILURE_KINDS := {
    "authentication", "permission", "rate_limit", "quota", "invalid_request", "content_filter",
    "server", "network", "timeout", "cancelled", "protocol", "configuration"}

  const MAX_FIELD_BYTES := 4_000

  /** `non_empty`. */
  predicate NonEmpty(text: string) {
    Trim(text) != "" && Utf8Length(text) <= MAX_FIELD_BYTES
  }

  predicate Present(text: Option<string>) { text.Some? && text.value != "" }

  predicate Follows(events: seq<NewLifecycleEvent>, i: nat)
    requires i < |events|
  {
    events[i].from == if i == 0 then Draft else events[i - 1].to
  }

  predicate EventOk(events: seq<NewLifecycleEvent>, i: nat)
    requires i < |events|
  {
    Labelled(events[i]) && Follows(events, i) && ValidOperationTransition(events[i].from, events[i].to)
  }

  predicate Labelled(event: NewLifecycleEvent) {
    NonEmpty(event.occurredAt) && (event.reason.Some? ==> NonEmpty(event.reason.value))
  }

  /** The events walk the operation machine from `Draft` to the final state. */
  predicate LifecycleOk(events: seq<NewLifecycleEvent>, final: OperationState) {
    && 1 <= |events| <= MAX_LIFECYCLE_EVENTS
    && (forall i | 0 <= i < |events| :: EventOk(events, i))
    && events[|events| - 1].to == final
  }

  predicate MetadataInBounds(a: Attempt) {
    && (a.responseId.Some? ==> |a.responseId.value| <= 512)
    && (a.remoteRequestId.Some? ==> |a.remoteRequestId.value| <= 512)
    && (a.failureCode.Some? ==> 1 <= |a.failureCode.value| <= 200)
    && (a.httpStatus.Some? ==> 100 <= a.httpStatus.value <= 599)
    && (a.retryAfterMs.Some? ==> 0 <= a.retryAfterMs.value <= 86_400_000)
    && (a.retryDelayMs.Some? ==> 0 <= a.retryDelayMs.value <= 10_000)
    && (a.failureKind.Some? ==> a.failureKind.value in FAILURE_KINDS)
  }

  predicate NoFailureMetadata(a: Attempt) {
    && a.failureCode.None? && a.failureKind.None? && a.httpStatus.None? && a.remoteRequestId.None?
    && a.retryAfterMs.None? && a.retriable.None? && a.retryDelayMs.None?
  }

  predicate FailureMetadataOk(a: Attempt, last: bool) {
    && Present(a.failureCode) && a.retriable.Some?
    && (a.responseStarted ==> Present(a.responseId))
    && (!a.responseStarted ==> a.responseId.None?)
    && (a.retryDelayMs.Some? ==> a.retriable == Some(true) && !a.responseStarted)
    && (!last ==> a.retryDelayMs.Some?)
  }

  predicate AttemptOk(attempts: seq<Attempt>, i: nat)
    requires i < |attempts|
  {
    var a, last := attempts[i], i == |attempts| - 1;
    && a.sequence == i + 1
    && NonEmpty(a.startedAt) && NonEmpty(a.finishedAt)
    && MetadataInBounds(a)
    && match a.outcome {
      case Succeeded => a.responseStarted && Present(a.responseId) && NoFailureMetadata(a) && last
      case FailedAttempt => FailureMetadataOk(a, last)
      case Unsupported => false
    }
  }

  predicate AttemptsOk(attempts: seq<Attempt>) {
    |attempts| <= MAX_ATTEMPTS && forall i | 0 <= i < |attempts| :: AttemptOk(attempts, i)
  }

  predicate PacketBound(columns: RunColumns, packet: Packet) {
    packet.intent == columns.intent && packet.project == columns.project && packet.base == columns.base
  }

  predicate PersistableState(b: Bundle) {
    match b.run.state
    case Review =>
      && b.packet.Some? && b.artifact.Some? && Present(b.run.columns.response)
      && Present(b.run.columns.finish) && b.run.columns.failure.None?
    case Failed => b.artifact.None? && b.run.columns.failure.Some?
    case Cancelled => b.artifact.None? && b.run.columns.failure.Some?
    case _ => false
  }

  predicate ValidBundle(b: Bundle) {
    && b.wellFormed && PersistableState(b)
    && (b.packet.Some? ==> PacketBound(b.run.columns, b.packet.value.packet))
    && LifecycleOk(b.lifecycle, b.run.state)
    && AttemptsOk(b.attempts)
  }

  predicate ValidReviewCommand(c: ReviewCommand) { c.wellFormed && c.expectedRevision >= 0 }

  /** `validate_lifecycle`. */
  method ValidateLifecycle(events: seq<NewLifecycleEvent>, final: OperationState) returns (ok: bool)
    ensures ok == LifecycleOk(events, final)
  {
    if |events| == 0 || |events| > MAX_LIFECYCLE_EVENTS { return false; }
    if events[0].from != Draft {
      assert !EventOk(events, 0);
      return false;
    }
    for i := 0 to |events|
      invariant forall j | 0 <= j < i :: EventOk(events, j)
    {
      ghost var iOk := EventOk(events, i);
      if !Labelled(events[i]) { return false; }
      if !ValidOperationTransition(events[i].from, events[i].to) { return false; }
      if i > 0 && events[i - 1].to != events[i].from {
        return false;
      }
    }
    return events[|events| - 1].to == final;
  }

  /** `validate_attempts`. */
  method ValidateAttempts(attempts: seq<Attempt>) returns (ok: bool)
    ensures ok == AttemptsOk(attempts)
  {
    if |attempts| > MAX_ATTEMPTS { return false; }
    for i := 0 to |attempts|
      invariant forall j | 0 <= j < i :: AttemptOk(attempts, j)
    {
      var a := attempts[i];
      ghost var iOk := AttemptOk(attempts, i);
      if a.sequence != i + 1 { return false; }
      if !NonEmpty(a.startedAt) || !NonEmpty(a.finishedAt) { return false; }
      if !MetadataInBounds(a) { return false; }
      match a.outcome {
        case Succeeded =>
          if !a.responseStarted || !Present(a.responseId) || !NoFailureMetadata(a) { return false; }
          if i + 1 != |attempts| { return false; }
        case FailedAttempt =>
          if !FailureMetadataOk(a, i + 1 == |attempts|) { return false; }
        case Unsupported => return false;
      }
    }
    return true;
  }

  /** `validate_bundle`. */
  method ValidateBundle(b: Bundle) returns (ok: bool)
    ensures ok == ValidBundle(b)
  {
    if !b.wellFormed || !PersistableState(b) { return false; }
    if b.packet.Some? && !PacketBound(b.run.columns, b.packet.value.packet) { return false; }
    var lifecycleOk := ValidateLifecycle(b.lifecycle, b.run.state);
    if !lifecycleOk { return false; }
    ok := ValidateAttempts(b.attempts);
  }
}
