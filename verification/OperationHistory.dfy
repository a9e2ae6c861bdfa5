/**
 What whole runs of the store say about its logs: the lifecycle log is determined by the review
 log, and a closed review stays closed.
 */
module OperationHistory {
  import opened Common
  import opened OperationModel
  import opened OperationSpec
  import opened OperationInvariants

  // ----- The lifecycle log of a run

  /** The lifecycle row for a review that moves on from what `events` led to. */
  function TailRow(sequence: int, events: seq<ReviewRow>, next: ReviewRow): LifecycleRow {
    LifecycleRow(sequence, StateOf(StatusAfter(events)), StateOf(next.next), next.occurredAt, Some(KindName(next.kind)))
  }

  /** The lifecycle rows a review log leads to: its statuses as operation states, repeats dropped. */
  function ReviewTail(start: nat, events: seq<ReviewRow>): seq<LifecycleRow> {
    if events == [] then []
    else
      var earlier, last := events[..|events| - 1], events[|events| - 1];
      var tail := ReviewTail(start, earlier);
      if StateOf(StatusAfter(earlier)) == StateOf(last.next) then tail
      else tail + [TailRow(start + |tail| + 1, earlier, last)]
  }

  /** The log is what was persisted followed by what the review of its proposal added. */
  ghost predicate LogIs(db: Database, b: Bundle) {
    && b.runId in db.runs
    && (forall p | p in db.heads && db.heads[p].run == b.runId :: ProposalOf(b) == Some(p))
    && match ProposalOf(b)
       case None => Rows(db.lifecycle, b.runId) == LifecycleRows(b.lifecycle)
       case Some(p) =>
         && p in db.heads && db.heads[p].run == b.runId
         && Rows(db.lifecycle, b.runId) == LifecycleRows(b.lifecycle) + ReviewTail(|b.lifecycle|, Rows(db.events, p))
  }

  lemma TailGrows(start: nat, events: seq<ReviewRow>, next: ReviewRow, row: LifecycleRow)
    requires row == TailRow(start + |ReviewTail(start, events)| + 1, events, next)
    ensures row.from == row.to ==> ReviewTail(start, events + [next]) == ReviewTail(start, events)
    ensures row.from != row.to ==> ReviewTail(start, events + [next]) == ReviewTail(start, events) + [row]
  {
    assert (events + [next])[..|events|] == events;
  }

  lemma PersistStartsLog(db: Database, b: Bundle)
    requires HeadsBound(db) && LogsKept(db) && PersistOutcome(db, b).Success?
    ensures LogIs(Stored(db, b), b)
  {
    PersistFresh(db, b);
    FreshStartsLog(db, b);
  }

  lemma FreshStartsLog(db: Database, b: Bundle)
    requires HeadsBound(db) && LogsKept(db) && b.runId !in db.runs && (ProposalOf(b).Some? ==> ProposalOf(b).value !in db.heads)
    ensures LogIs(Stored(db, b), b)
  {
    var after := Stored(db, b);
    LoggedRows(db.lifecycle, b.runId, LifecycleRows(b.lifecycle), b.runId);
    forall p | p in db.heads
      ensures db.heads[p].run != b.runId
    {
      assert db.heads[p].run in db.runs;
    }
    if ProposalOf(b).Some? {
      assert Rows(after.events, ProposalOf(b).value) == [];
    }
  }

  lemma PersistKeepsLog(db: Database, b: Bundle, other: Bundle)
    requires HeadsBound(db) && LogsKept(db) && LogIs(db, b)
    requires Fresh(db, other) && (ProposalOf(other).Some? ==> ProposalOf(other).value !in db.heads)
    ensures LogIs(Stored(db, other), b)
  {
  }

  lemma LogGrows(base: seq<LifecycleRow>, rows: seq<LifecycleRow>, events: seq<ReviewRow>, next: ReviewRow, row: LifecycleRow)
    requires rows == base + ReviewTail(|base|, events) && row == TailRow(|rows| + 1, events, next)
    ensures row.from == row.to ==> rows == base + ReviewTail(|base|, events + [next])
    ensures row.from != row.to ==> rows + [row] == base + ReviewTail(|base|, events + [next])
  {
    TailGrows(|base|, events, next, row);
    if row.from != row.to {
      var tail := ReviewTail(|base|, events);
      assert base + (tail + [row]) == (base + tail) + [row];
    }
  }

  /** A review of the run's own proposal adds to both logs alike. */
  lemma OwnReviewKeepsLog(db: Database, c: ReviewCommand, base: seq<LifecycleRow>)
    requires Applies(db, c) && db.runs[db.heads[c.proposal].run].state == StateOf(StatusAfter(Rows(db.events, c.proposal)))
    requires Rows(db.lifecycle, db.heads[c.proposal].run) == base + ReviewTail(|base|, Rows(db.events, c.proposal))
    ensures Rows(Reviewed(db, c).lifecycle, db.heads[c.proposal].run) ==
            base + ReviewTail(|base|, Rows(Reviewed(db, c).events, c.proposal))
  {
    var run, events, row := db.heads[c.proposal].run, Rows(db.events, c.proposal), NewReviewRow(db, c);
    LogGrows(base, Rows(db.lifecycle, run), events, row, NewLifecycleRow(db, c));
    assert Rows(Reviewed(db, c).events, c.proposal) == events + [row];
  }

  lemma OtherReviewKeepsLog(db: Database, c: ReviewCommand, b: Bundle)
    requires Applies(db, c) && LogIs(db, b) && db.heads[c.proposal].run != b.runId
    ensures LogIs(Reviewed(db, c), b)
  {
    assert Rows(Reviewed(db, c).lifecycle, b.runId) == Rows(db.lifecycle, b.runId);
  }

  lemma AppendKeepsLog(db: Database, c: ReviewCommand, b: Bundle)
    requires Applies(db, c) && StatusAgreesWithState(db) && LogIs(db, b)
    requires db.heads[c.proposal].status == StatusAfter(Rows(db.events, c.proposal))
    ensures LogIs(Reviewed(db, c), b)
  {
    if db.heads[c.proposal].run == b.runId {
      OwnReviewKeepsLog(db, c, LifecycleRows(b.lifecycle));
    } else {
      OtherReviewKeepsLog(db, c, b);
    }
  }

  lemma ExecuteKeepsLogPersist(db: Database, other: Bundle, b: Bundle)
    requires HeadsHaveRuns(db) && HeadsBound(db) && LogsKept(db) && LogIs(db, b)
    ensures LogIs(Execute(db, Persist(other)), b)
  {
    CommittedPersist(db, other);
    if PersistOutcome(db, other).Success? {
      PersistFresh(db, other);
      PersistKeepsLog(db, b, other);
    }
  }

  lemma ExecuteKeepsLogAppend(db: Database, c: ReviewCommand, b: Bundle)
    requires HeadsHaveRuns(db) && HeadsKept(db) && StatusAgreesWithState(db) && LogIs(db, b)
    ensures LogIs(Execute(db, Append(c)), b)
  {
    CommittedAppend(db, c);
    if AppendOutcome(db, c).Success? {
      assert HeadOk(db.heads[c.proposal], Rows(db.events, c.proposal));
      AppendKeepsLog(db, c, b);
    }
  }

  lemma ExecuteKeepsLog(db: Database, command: Command, b: Bundle)
    requires HeadsHaveRuns(db) && HeadsBound(db) && LogsKept(db) && HeadsKept(db) && StatusAgreesWithState(db)
    requires LogIs(db, b)
    ensures LogIs(Execute(db, command), b)
  {
    match command
    case Persist(other) => ExecuteKeepsLogPersist(db, other, b);
    case Append(c) => ExecuteKeepsLogAppend(db, c, b);
    case NewCommit(id, project) =>
  }

  lemma {:induction false} RunKeepsLog(db: Database, commands: seq<Command>, b: Bundle)
    requires Inv(db) && HeadsHaveRuns(db) && LogIs(db, b)
    ensures Inv(ExecuteAll(db, commands)) && LogIs(ExecuteAll(db, commands), b)
  {
    RunKeeps(db, commands);
    if commands != [] {
      RunKeepsLog(db, commands[..|commands| - 1], b);
      ExecuteKeepsLog(ExecuteAll(db, commands[..|commands| - 1]), commands[|commands| - 1], b);
    }
  }

  /**
   Once a bundle is stored, its run's log is for ever the persisted events followed by the review
   statuses, and it walks the operation machine from `Draft` to the current state.
   */
  lemma LogOfEveryRun(before: seq<Command>, b: Bundle, later: seq<Command>)
    requires PersistOutcome(ExecuteAll(EMPTY, before), b).Success?
    ensures var stored := Stored(ExecuteAll(EMPTY, before), b);
            HeadsHaveRuns(stored) && LogIs(ExecuteAll(stored, later), b)
    ensures var end := ExecuteAll(Stored(ExecuteAll(EMPTY, before), b), later);
            Walks(Rows(end.lifecycle, b.runId), end.runs[b.runId].state)
  {
    var db := ExecuteAll(EMPTY, before);
    RunKeeps(EMPTY, before);
    PersistKeeps(db, b);
    PersistStartsLog(db, b);
    var stored := Stored(db, b);
    assert HeadsHaveRuns(stored);
    RunKeepsLog(stored, later, b);
    var end := ExecuteAll(stored, later);
    assert RunOk(end.runs[b.runId], Rows(end.lifecycle, b.runId), Rows(end.attempts, b.runId));
  }

  // ----- Closed reviews

  predicate Closed(status: ReviewStatus) { status == Applied || status == ReviewStatus.Rejected }

  /** No review step leaves a closed status. */
  lemma ClosedHasNoStep(kind: EventKind, from: ReviewStatus, to: ReviewStatus, hunk: Option<string>, decision: Option<HunkDecision>)
    requires Closed(from)
    ensures !ReviewTransition(kind, from, to, hunk, decision)
  {
  }

  lemma OnlyLastCloses(rows: seq<ReviewRow>, i: nat)
    requires WalksReview(rows) && i < |rows| - 1
    ensures !Closed(rows[i].next)
  {
    assert ReviewStep(rows, i + 1);
  }

  /** No review log holds both an apply and a reject event. */
  lemma ApplyExcludesReject(rows: seq<ReviewRow>, a: ReviewRow, r: ReviewRow)
    requires WalksReview(rows) && a in rows && r in rows
    ensures a.kind == Apply ==> r.kind != Reject
  {
    var i :| 0 <= i < |rows| && rows[i] == a;
    var j :| 0 <= j < |rows| && rows[j] == r;
    assert ReviewStep(rows, i) && ReviewStep(rows, j);
    if i < |rows| - 1 { OnlyLastCloses(rows, i); }
    if j < |rows| - 1 { OnlyLastCloses(rows, j); }
  }

  lemma ExecuteKeepsClosed(db: Database, command: Command, p: string)
    requires HeadsHaveRuns(db) && HeadsBound(db) && p in db.heads && Closed(db.heads[p].status)
    ensures var after := Execute(db, command);
            p in after.heads && after.heads[p] == db.heads[p] && Rows(after.events, p) == Rows(db.events, p)
  {
    match command
    case Persist(b) => CommittedPersist(db, b);
    case Append(c) =>
      CommittedAppend(db, c);
      if AppendOutcome(db, c).Success? && c.proposal == p {
        ClosedHasNoStep(c.kind, c.expectedStatus, c.next, c.hunk, c.decision);
      }
    case NewCommit(id, project) =>
  }

  /** After an applied or rejected status nothing is ever added to the review log. */
  lemma {:induction false} ClosedForEver(db: Database, commands: seq<Command>, p: string)
    requires Inv(db) && HeadsHaveRuns(db) && p in db.heads && Closed(db.heads[p].status)
    ensures var after := ExecuteAll(db, commands);
            p in after.heads && after.heads[p] == db.heads[p] && Rows(after.events, p) == Rows(db.events, p)
  {
    if commands != [] {
      ClosedForEver(db, commands[..|commands| - 1], p);
      RunKeeps(db, commands[..|commands| - 1]);
      ExecuteKeepsClosed(ExecuteAll(db, commands[..|commands| - 1]), commands[|commands| - 1], p);
    }
  }

  // ----- Retries

  /** Every attempt but the last failed before any response and was marked for retry with a delay. */
  lemma EarlierAttemptsRetried(db: Database, r: string, i: nat)
    requires Inv(db) && r in db.runs && i < |Rows(db.attempts, r)| - 1
    ensures var a := Rows(db.attempts, r)[i];
            a.outcome == FailedAttempt && a.retriable == Some(true) && !a.responseStarted && a.retryDelayMs.Some?
  {
    assert RunOk(db.runs[r], Rows(db.lifecycle, r), Rows(db.attempts, r));
    assert AttemptOk(Rows(db.attempts, r), i);
  }
}
