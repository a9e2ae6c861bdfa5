/**
 What the calls of the store accept and what they leave, spelled out row by row and column by column:
 the machines edge by edge, the bundle check field by field, and the stored rows themselves.
 */
module OperationEffects {
  import opened Common
  import opened Text
  import opened OperationModel
  import opened OperationSpec
  import opened OperationInvariants

  // ----- The machines, edge by edge

  /** The edges of the operation machine. */
  const EDGES := {
    (Draft, Compiling), (Compiling, Preflight), (Preflight, Queued), (Queued, Streaming), (Streaming, Validating),
    (Validating, OperationState.Review),
    (OperationState.Review, Accepted), (OperationState.Review, OperationState.Rejected),
    (OperationState.Review, OperationState.Conflicted),
    (OperationState.Conflicted, OperationState.Review), (OperationState.Conflicted, OperationState.Rejected),
    (Compiling, Failed), (Preflight, Failed), (Queued, Failed), (Streaming, Failed), (Validating, Failed),
    (Draft, Cancelled), (Compiling, Cancelled), (Preflight, Cancelled), (Queued, Cancelled), (Streaming, Cancelled)}

  lemma EdgesExactly(from: OperationState, to: OperationState)
    ensures ValidOperationTransition(from, to) <==> (from, to) in EDGES
  {
  }

  /** The events that take a review from one status to another. */
  function KindsFor(from: ReviewStatus, to: ReviewStatus): set<EventKind> {
    match (from, to)
    case (Review, Review) => {Decision}
    case (Review, Ready) => {Decision}
    case (Review, Rejected) => {Decision, Reject}
    case (Review, Conflicted) => {Conflict}
    case (Ready, Review) => {Decision}
    case (Ready, Ready) => {Decision}
    case (Ready, Applied) => {Apply}
    case (Ready, Rejected) => {Decision, Reject}
    case (Ready, Conflicted) => {Conflict}
    case (Conflicted, Review) => {Rebase}
    case (Conflicted, Rejected) => {Reject}
    case _ => {}
  }

  /** A decision names its hunk and verdict, and rejects the proposal only by rejecting the hunk; other events name neither. */
  lemma ReviewEdgesExactly(
    kind: EventKind, from: ReviewStatus, to: ReviewStatus, hunk: Option<string>, decision: Option<HunkDecision>)
    ensures ReviewTransition(kind, from, to, hunk, decision) <==>
      && kind in KindsFor(from, to)
      && (if kind == Decision then
            hunk.Some? && Trim(hunk.value) != "" && decision.Some? && (to == ReviewStatus.Rejected ==> decision == Some(RejectHunk))
          else hunk.None? && decision.None?)
  {
  }

  // ----- What a bundle must be

  /** A run that ended in review has everything a reviewer needs; one that failed has a failure and no artifact. */
  ghost predicate Complete(b: Bundle) {
    var c := b.run.columns;
    || (b.run.state == OperationState.Review && b.packet.Some? && b.artifact.Some? && c.response.Some? && c.response.value != ""
        && c.finish.Some? && c.finish.value != "" && c.failure.None?)
    || ((b.run.state == Failed || b.run.state == Cancelled) && b.artifact.None? && c.failure.Some?)
  }

  /** One to 64 edges of the machine, end to end from draft to the final state, each with a time and no blank reason. */
  ghost predicate Path(events: seq<NewLifecycleEvent>, final: OperationState) {
    && 1 <= |events| <= 64 && events[0].from == Draft && events[|events| - 1].to == final
    && (forall i | 0 < i < |events| :: events[i].from == events[i - 1].to)
    && (forall i | 0 <= i < |events| :: (events[i].from, events[i].to) in EDGES)
    && (forall i | 0 <= i < |events| :: FieldOk(events[i].occurredAt) && (events[i].reason.Some? ==> FieldOk(events[i].reason.value)))
  }

  ghost predicate FieldOk(text: string) { Trim(text) != "" && Utf8Length(text) <= 4000 }

  lemma PathExactly(events: seq<NewLifecycleEvent>, final: OperationState)
    ensures LifecycleOk(events, final) <==> Path(events, final)
  {
    if LifecycleOk(events, final) {
      forall i | 0 <= i < |events|
        ensures Labelled(events[i]) && Follows(events, i) && (events[i].from, events[i].to) in EDGES
      {
        assert EventOk(events, i);
        EdgesExactly(events[i].from, events[i].to);
      }
      assert Follows(events, 0);
    }
    if Path(events, final) {
      forall i | 0 <= i < |events|
        ensures EventOk(events, i)
      {
        EdgesExactly(events[i].from, events[i].to);
      }
    }
  }

  /** An attempt a bundle may hold: what the table checks ask, an empty remote request id aside, in its place among the others. */
  ghost predicate AttemptFits(a: Attempt, i: int, last: bool) {
    && a.sequence == i + 1 && FieldOk(a.startedAt) && FieldOk(a.finishedAt)
    && AttemptCheck(if a.remoteRequestId == Some("") then a.(remoteRequestId := None) else a)
    && (a.outcome == Succeeded ==> last && a.remoteRequestId == None)
    && (a.outcome == FailedAttempt && !last ==> a.retryDelayMs.Some?)
  }

  lemma AttemptExactly(attempts: seq<Attempt>, i: nat)
    requires i < |attempts| <= 3
    ensures AttemptOk(attempts, i) <==> AttemptFits(attempts[i], i, i == |attempts| - 1)
  {
    var a := attempts[i];
    if a.responseId.Some? { assert a.responseId.value == "" <==> |a.responseId.value| == 0; }
    if a.failureCode.Some? { assert a.failureCode.value == "" <==> |a.failureCode.value| == 0; }
    if a.remoteRequestId.Some? { assert a.remoteRequestId.value == "" <==> |a.remoteRequestId.value| == 0; }
  }

  /** What a failed attempt may say, number by number. */
  lemma AttemptNumbers(attempts: seq<Attempt>, i: nat)
    requires i < |attempts| <= 3 && AttemptOk(attempts, i)
    ensures var a := attempts[i];
      && (a.httpStatus.Some? ==> 100 <= a.httpStatus.value <= 599)
      && (a.retryAfterMs.Some? ==> 0 <= a.retryAfterMs.value <= 86400000)
      && (a.retryDelayMs.Some? ==> 0 <= a.retryDelayMs.value <= 10000 && a.retriable == Some(true) && !a.responseStarted)
      && (a.failureKind.Some? ==> a.failureKind.value in {
            "authentication", "permission", "rate_limit", "quota", "invalid_request", "content_filter", "server", "network",
            "timeout", "cancelled", "protocol", "configuration"})
      && (a.outcome == FailedAttempt ==> a.failureCode.Some? && 1 <= |a.failureCode.value| <= 200 && a.retriable.Some?)
      && (a.responseStarted <==> a.responseId.Some?)
      && (a.responseId.Some? ==> 1 <= |a.responseId.value| <= 512)
  {
    AttemptExactly(attempts, i);
  }

  /** The bundle check, spelled out. */
  ghost predicate Acceptable(b: Bundle) {
    && b.wellFormed && Complete(b)
    && (b.packet.Some? ==>
          && b.packet.value.packet.intent == b.run.columns.intent && b.packet.value.packet.project == b.run.columns.project
          && b.packet.value.packet.base == b.run.columns.base)
    && Path(b.lifecycle, b.run.state)
    && |b.attempts| <= 3 && forall i | 0 <= i < |b.attempts| :: AttemptFits(b.attempts[i], i, i == |b.attempts| - 1)
  }

  lemma AcceptableExactly(b: Bundle)
    ensures ValidBundle(b) <==> Acceptable(b)
  {
    PathExactly(b.lifecycle, b.run.state);
    if |b.attempts| <= 3 {
      forall i | 0 <= i < |b.attempts|
        ensures AttemptOk(b.attempts, i) <==> AttemptFits(b.attempts[i], i, i == |b.attempts| - 1)
      {
        AttemptExactly(b.attempts, i);
      }
    }
  }

  /** When a bundle is stored. */
  lemma PersistSucceedsExactly(db: Database, b: Bundle)
    ensures PersistOutcome(db, b).Success? <==>
      && Acceptable(b)
      && b.run.columns.base in db.commits && db.commits[b.run.columns.base] == b.run.columns.project
      && b.runId !in db.runs && (b.packet.Some? ==> b.packet.value.id !in db.packets)
      && (forall a | a in b.attempts :: a.remoteRequestId != Some(""))
      && (b.artifact.Some? ==> b.artifact.value.id !in db.artifacts)
    ensures PersistOutcome(db, b) == Failure(Validation) <==> !Acceptable(b)
  {
    AcceptableExactly(b);
  }

  // ----- What a stored bundle leaves

  /** The run, its events numbered from 1, its attempts, packet and artifact, and a head in review for a proposal; nothing else. */
  lemma PersistStores(db: Database, b: Bundle)
    requires PersistOutcome(db, b).Success? && b.runId !in db.lifecycle && b.runId !in db.attempts
    ensures var after := PersistOutcome(db, b).value;
      && after.commits == db.commits && after.events == db.events
      && after.runs == db.runs[b.runId := after.runs[b.runId]]
      && after.runs[b.runId].state == b.run.state && after.runs[b.runId].updatedAt == b.run.updatedAt
      && after.runs[b.runId].columns ==
           b.run.columns.(packet := if b.packet.Some? then Some(b.packet.value.id) else None)
      && after.packets == (if b.packet.Some? then db.packets[b.packet.value.id := b.packet.value.packet] else db.packets)
  {
  }

  lemma PersistLogs(db: Database, b: Bundle)
    requires PersistOutcome(db, b).Success? && b.runId !in db.lifecycle && b.runId !in db.attempts
    ensures var after := PersistOutcome(db, b).value;
      && |Rows(after.lifecycle, b.runId)| == |b.lifecycle|
      && (forall i | 0 <= i < |b.lifecycle| :: Rows(after.lifecycle, b.runId)[i] ==
            LifecycleRow(i + 1, b.lifecycle[i].from, b.lifecycle[i].to, b.lifecycle[i].occurredAt, b.lifecycle[i].reason))
      && Rows(after.attempts, b.runId) == b.attempts
      && forall r | r != b.runId ::
           Rows(after.lifecycle, r) == Rows(db.lifecycle, r) && Rows(after.attempts, r) == Rows(db.attempts, r)
  {
    LoggedRows(db.lifecycle, b.runId, LifecycleRows(b.lifecycle), b.runId);
    LoggedRows(db.attempts, b.runId, b.attempts, b.runId);
  }

  lemma PersistOpensReview(db: Database, b: Bundle)
    requires PersistOutcome(db, b).Success?
    ensures var after := PersistOutcome(db, b).value;
      && (b.artifact.None? ==> after.artifacts == db.artifacts && after.heads == db.heads)
      && (b.artifact.Some? ==>
            && after.artifacts == db.artifacts[b.artifact.value.id := Artifact(b.runId, b.artifact.value.kind, b.artifact.value.body)]
            && (b.artifact.value.kind == Findings ==> after.heads == db.heads)
            && (b.artifact.value.kind == PatchProposal ==>
                  after.heads == db.heads[b.artifact.value.id := Head(b.runId, 0, ReviewStatus.Review, b.artifact.value.createdAt)]))
  {
  }

  // ----- What a review event needs and leaves

  /** When a review event is applied. */
  lemma AppendSucceedsExactly(db: Database, c: ReviewCommand)
    requires HeadsHaveRuns(db)
    ensures AppendOutcome(db, c).Success? <==>
      && c.wellFormed && c.expectedRevision >= 0
      && c.proposal in db.heads && db.heads[c.proposal].revision == c.expectedRevision
      && db.heads[c.proposal].status == c.expectedStatus
      && ReviewTransition(c.kind, c.expectedStatus, c.next, c.hunk, c.decision)
      && (forall p, row | p in db.events && row in db.events[p] :: row.id != c.id)
    ensures c.wellFormed && c.expectedRevision >= 0 && c.proposal in db.heads
            && (db.heads[c.proposal].revision != c.expectedRevision || db.heads[c.proposal].status != c.expectedStatus) ==>
              AppendOutcome(db, c) == Failure(StateConflict(db.heads[c.proposal].revision, db.heads[c.proposal].status))
  {
  }

  /** The event is logged as it was sent, one revision on, and the head follows it. */
  lemma AppendLogs(db: Database, c: ReviewCommand)
    requires HeadsHaveRuns(db) && AppendOutcome(db, c).Success?
    ensures var after := AppendOutcome(db, c).value;
      && Rows(after.events, c.proposal) == Rows(db.events, c.proposal) + [ReviewRow(
           c.id, |Rows(db.events, c.proposal)| + 1, c.expectedRevision, c.expectedRevision + 1, c.kind,
           c.expectedStatus, c.next, c.hunk, c.decision, c.payload, c.occurredAt)]
      && after.heads == db.heads[c.proposal :=
           Head(db.heads[c.proposal].run, c.expectedRevision + 1, c.next, c.occurredAt)]
      && (forall p | p != c.proposal :: Rows(after.events, p) == Rows(db.events, p))
      && after.commits == db.commits && after.packets == db.packets && after.attempts == db.attempts && after.artifacts == db.artifacts
  {
  }

  /** The state of the run after an event: accepted when applied, rejected and conflicted alike, else under review. */
  ghost predicate Reached(next: ReviewStatus, state: OperationState) {
    && (state == Accepted <==> next == Applied)
    && (state == OperationState.Rejected <==> next == ReviewStatus.Rejected)
    && (state == OperationState.Conflicted <==> next == ReviewStatus.Conflicted)
    && (state == OperationState.Review <==> next == ReviewStatus.Review || next == Ready)
  }

  lemma StateReached(next: ReviewStatus)
    ensures Reached(next, StateOf(next))
  {
  }

  lemma AppendIsReviewed(db: Database, c: ReviewCommand)
    requires HeadsHaveRuns(db) && AppendOutcome(db, c).Success?
    ensures c.proposal in db.heads && AppendOutcome(db, c).value == Reviewed(db, c)
  {
  }

  /** The run follows the review; its columns and all other runs stay. */
  lemma AppendMovesRun(db: Database, c: ReviewCommand)
    requires HeadsHaveRuns(db) && AppendOutcome(db, c).Success?
    ensures c.proposal in db.heads
    ensures var after, run := AppendOutcome(db, c).value, db.heads[c.proposal].run;
      && after.runs.Keys == db.runs.Keys && Reached(c.next, after.runs[run].state)
      && (forall r | r in db.runs && r != run :: after.runs[r] == db.runs[r])
      && after.runs[run].columns == db.runs[run].columns
      && (after.runs[run].state == db.runs[run].state ==> after.runs[run] == db.runs[run])
      && (after.runs[run].state != db.runs[run].state ==> after.runs[run].updatedAt == c.occurredAt)
  {
    AppendIsReviewed(db, c);
    StateReached(c.next);
  }

  /** A run that moves logs one transition with the name of the event; one that stays logs nothing. */
  lemma AppendLogsMove(db: Database, c: ReviewCommand)
    requires HeadsHaveRuns(db) && AppendOutcome(db, c).Success?
    ensures c.proposal in db.heads && db.heads[c.proposal].run in AppendOutcome(db, c).value.runs
    ensures var after, run := AppendOutcome(db, c).value, db.heads[c.proposal].run;
      var from, to := db.runs[run].state, after.runs[run].state;
      && (from == to ==> after.lifecycle == db.lifecycle)
      && (from != to ==> after.lifecycle == db.lifecycle[run := Rows(db.lifecycle, run) + [LifecycleRow(
            |Rows(db.lifecycle, run)| + 1, from, to, c.occurredAt, Some(EventName(c.kind)))]])
  {
    AppendIsReviewed(db, c);
  }

  /** The name an event has in the log. */
  function EventName(kind: EventKind): string {
    if kind == Reject then "reject" else if kind == Rebase then "rebase" else if kind == Conflict then "conflict"
    else if kind == Apply then "apply" else "decision"
  }
}
