/**
 The store itself: each call runs its statements one by one in a transaction, against tables with
 keys, checks and update guards, and commits or rolls back. The calls are proved to do exactly what
 `OperationSpec` says, so no key, guard or row-count surprise is left once the checks have passed.
 */
module OperationStore {
  import opened Common
  import opened OperationModel
  import opened OperationSpec
  import opened OperationInvariants
  import opened OperationMetrics

  // ----- Statements

  function InsertPacket(db: Database, id: string, packet: Packet): Result<Database, StoreError> {
    if id in db.packets || packet.base !in db.commits then Failure(Constraint("context_packet_record"))
    else Success(db.(packets := db.packets[id := packet]))
  }

  predicate PacketUsed(db: Database, packet: Option<string>) {
    packet.Some? && exists r | r in db.runs :: db.runs[r].columns.packet == packet
  }

  function InsertRun(db: Database, id: string, run: Run): Result<Database, StoreError> {
    if id in db.runs || run.columns.base !in db.commits || PacketUsed(db, run.columns.packet)
       || (run.columns.packet.Some? && run.columns.packet.value !in db.packets)
    then Failure(Constraint("operation_run"))
    else Success(db.(runs := db.runs[id := run]))
  }

  function InsertLifecycle(db: Database, run: string, row: LifecycleRow): Result<Database, StoreError> {
    if run !in db.runs || row.sequence < 1 || exists earlier | earlier in Rows(db.lifecycle, run) :: earlier.sequence == row.sequence
    then Failure(Constraint("operation_lifecycle_event"))
    else Success(db.(lifecycle := db.lifecycle[run := Rows(db.lifecycle, run) + [row]]))
  }

  function InsertAttempt(db: Database, run: string, row: Attempt): Result<Database, StoreError> {
    if run !in db.runs || !AttemptCheck(row) || exists earlier | earlier in Rows(db.attempts, run) :: earlier.sequence == row.sequence
    then Failure(Constraint("operation_attempt"))
    else Success(db.(attempts := db.attempts[run := Rows(db.attempts, run) + [row]]))
  }

  function InsertArtifact(db: Database, id: string, artifact: Artifact): Result<Database, StoreError> {
    if id in db.artifacts || artifact.run !in db.runs || exists a | a in db.artifacts :: db.artifacts[a].run == artifact.run
    then Failure(Constraint("operation_artifact"))
    else Success(db.(artifacts := db.artifacts[id := artifact]))
  }

  function InsertHead(db: Database, proposal: string, head: Head): Result<Database, StoreError> {
    if proposal in db.heads || proposal !in db.artifacts || head.run !in db.runs || head.revision < 0
       || exists p | p in db.heads :: db.heads[p].run == head.run
    then Failure(Constraint("patch_review_head"))
    else Success(db.(heads := db.heads[proposal := head]))
  }

  function InsertReviewRow(db: Database, proposal: string, row: ReviewRow): Result<Database, StoreError> {
    if EventIdTaken(db, row.id) || proposal !in db.heads || row.sequence < 1 || row.baseRevision < 0
       || row.newRevision != row.baseRevision + 1
       || exists earlier | earlier in Rows(db.events, proposal) ::
            earlier.sequence == row.sequence || earlier.newRevision == row.newRevision
    then Failure(Constraint("patch_review_event"))
    else Success(db.(events := db.events[proposal := Rows(db.events, proposal) + [row]]))
  }

  /** The trigger that guards review heads. */
  predicate HeadGuard(before: Head, after: Head) {
    && after.run == before.run
    && after.revision == before.revision + 1
    && match before.status {
      case Review => after.status != Applied
      case Ready => true
      case Conflicted => after.status == ReviewStatus.Review || after.status == ReviewStatus.Rejected
      case _ => false
    }
  }

  /** The trigger that guards runs: only the state moves, and only through review. */
  predicate RunGuard(before: Run, after: Run) {
    && after.columns == before.columns
    && match before.state {
      case Review => after.state == Accepted || after.state == OperationState.Rejected || after.state == OperationState.Conflicted
      case Conflicted => after.state == OperationState.Review || after.state == OperationState.Rejected
      case _ => false
    }
  }

  datatype Updated = Updated(tables: Database, count: nat)

  function UpdateHead(
    db: Database, proposal: string, revision: int, status: ReviewStatus, newRevision: int, newStatus: ReviewStatus, at: string
  ): Result<Updated, StoreError> {
    if proposal !in db.heads || db.heads[proposal].revision != revision || db.heads[proposal].status != status then
      Success(Updated(db, 0))
    else
      var after := Head(db.heads[proposal].run, newRevision, newStatus, at);
      if !HeadGuard(db.heads[proposal], after) then Failure(GuardAbort("patch_review_head"))
      else Success(Updated(db.(heads := db.heads[proposal := after]), 1))
  }

  function UpdateRun(db: Database, run: string, state: OperationState, newState: OperationState, at: string): Result<Updated, StoreError> {
    if run !in db.runs || db.runs[run].state != state then Success(Updated(db, 0))
    else
      var after := db.runs[run].(state := newState, updatedAt := at);
      if !RunGuard(db.runs[run], after) then Failure(GuardAbort("operation_run"))
      else Success(Updated(db.(runs := db.runs[run := after]), 1))
  }

  /** Which keys and references the inserts check. */
  lemma InsertsRefuse(
    db: Database, id: string, packet: Packet, run: Run, event: LifecycleRow, attempt: Attempt, artifact: Artifact, head: Head)
    ensures InsertPacket(db, id, packet).Failure? <==> id in db.packets || packet.base !in db.commits
    ensures InsertRun(db, id, run).Failure? <==>
              || id in db.runs || run.columns.base !in db.commits
              || (run.columns.packet.Some? &&
                    (run.columns.packet.value !in db.packets || exists r | r in db.runs :: db.runs[r].columns.packet == run.columns.packet))
    ensures InsertLifecycle(db, id, event).Failure? <==>
              id !in db.runs || event.sequence <= 0 || exists e | e in Rows(db.lifecycle, id) :: e.sequence == event.sequence
    ensures InsertAttempt(db, id, attempt).Failure? <==>
              id !in db.runs || !AttemptCheck(attempt) || exists e | e in Rows(db.attempts, id) :: e.sequence == attempt.sequence
    ensures InsertArtifact(db, id, artifact).Failure? <==>
              id in db.artifacts || artifact.run !in db.runs || exists a | a in db.artifacts :: db.artifacts[a].run == artifact.run
    ensures InsertHead(db, id, head).Failure? <==>
              || id in db.heads || id !in db.artifacts || head.run !in db.runs || head.revision <= -1
              || exists p | p in db.heads :: db.heads[p].run == head.run
  {
  }

  lemma InsertReviewRefuses(db: Database, proposal: string, row: ReviewRow)
    ensures InsertReviewRow(db, proposal, row).Failure? <==>
              || (exists p, e | p in db.events && e in db.events[p] :: e.id == row.id)
              || proposal !in db.heads || row.sequence <= 0 || row.baseRevision <= -1 || row.newRevision - row.baseRevision != 1
              || (exists e | e in Rows(db.events, proposal) :: e.sequence == row.sequence)
              || (exists e | e in Rows(db.events, proposal) :: e.newRevision == row.newRevision)
  {
  }

  /** Updates ask for the row they expect and change nothing else; a guard stops the rest. */
  lemma UpdatesAre(
    db: Database, key: string, revision: int, status: ReviewStatus, newRevision: int, newStatus: ReviewStatus,
    state: OperationState, newState: OperationState, at: string)
    ensures var found := key in db.heads && db.heads[key].revision == revision && db.heads[key].status == status;
            var r := UpdateHead(db, key, revision, status, newRevision, newStatus, at);
            && (!found ==> r == Success(Updated(db, 0)))
            && (found && r.Success? ==>
                  r.value == Updated(db.(heads := db.heads[key := Head(db.heads[key].run, newRevision, newStatus, at)]), 1))
            && (found ==> (r.Success? <==> HeadGuard(db.heads[key], Head(db.heads[key].run, newRevision, newStatus, at))))
    ensures var found := key in db.runs && db.runs[key].state == state;
            var r := UpdateRun(db, key, state, newState, at);
            && (!found ==> r == Success(Updated(db, 0)))
            && (found && r.Success? ==>
                  r.value == Updated(db.(runs := db.runs[key := Run(db.runs[key].columns, newState, at)]), 1))
            && (found ==> (r.Success? <==> RunGuard(db.runs[key], Run(db.runs[key].columns, newState, at))))
  {
  }

  /** The guards admit every step the review machine takes. */
  lemma GuardsAdmit(kind: EventKind, from: ReviewStatus, to: ReviewStatus, hunk: Option<string>, decision: Option<HunkDecision>, before: Head, after: Head)
    requires ReviewTransition(kind, from, to, hunk, decision) && before.status == from && after.status == to
    requires after.run == before.run && after.revision == before.revision + 1
    ensures HeadGuard(before, after)
    ensures forall r: Run, s: Run | r.state == StateOf(from) != StateOf(to) == s.state && r.columns == s.columns :: RunGuard(r, s)
  {
  }

  /** An event that takes a review from one status to another, where there is one. */
  function EventFor(from: ReviewStatus, to: ReviewStatus): (EventKind, Option<string>, Option<HunkDecision>) {
    if from == ReviewStatus.Conflicted && to == ReviewStatus.Review then (Rebase, None, None)
    else if to == Applied then (Apply, None, None)
    else if to == ReviewStatus.Conflicted then (Conflict, None, None)
    else if to == ReviewStatus.Rejected then (Reject, None, None)
    else (Decision, Some("hunk"), Some(AcceptHunk))
  }

  /** The head guard is the review machine: it lets a status change through exactly when some event makes it. */
  lemma HeadGuardExactly(before: Head, after: Head)
    requires after.run == before.run && after.revision == before.revision + 1
    ensures HeadGuard(before, after) <==>
            exists kind, hunk, decision :: ReviewTransition(kind, before.status, after.status, hunk, decision)
  {
    var (kind, hunk, decision) := EventFor(before.status, after.status);
    if HeadGuard(before, after) {
      assert ReviewTransition(kind, before.status, after.status, hunk, decision);
    }
  }

  /** The run guard is the part of the operation machine that starts under review. */
  lemma RunGuardExactly(before: Run, after: Run)
    requires after.columns == before.columns
    ensures RunGuard(before, after) <==> UnderReview(before.state) && ValidOperationTransition(before.state, after.state)
  {
  }

  /** Inserting attempt `i` after the ones before it meets only the check on the remote request id. */
  lemma AttemptInserted(db: Database, run: string, attempts: seq<Attempt>, i: nat)
    requires run in db.runs && AttemptsOk(attempts) && i < |attempts| && Rows(db.attempts, run) == attempts[..i]
    ensures attempts[i].remoteRequestId == Some("") ==> InsertAttempt(db, run, attempts[i]) == Failure(Constraint("operation_attempt"))
    ensures attempts[i].remoteRequestId != Some("") ==>
              InsertAttempt(db, run, attempts[i]) == Success(db.(attempts := db.attempts[run := attempts[..i + 1]]))
  {
    assert AttemptOk(attempts, i);
    forall j | 0 <= j < i
      ensures attempts[j].sequence == j + 1
    {
      assert AttemptOk(attempts, j);
    }
    AttemptCheckExactly(attempts, i);
    assert attempts[..i + 1] == attempts[..i] + [attempts[i]];
  }

  /** What the statements of an append need of the head and its run. */
  ghost predicate HeadReady(db: Database, p: string)
    requires p in db.heads
  {
    var run := db.heads[p].run;
    && run in db.runs && HeadOk(db.heads[p], Rows(db.events, p))
    && Numbered(LifecycleSequence, Rows(db.lifecycle, run))
    && db.runs[run].state == StateOf(db.heads[p].status)
  }

  /** Why a run does not follow its review: no such transition, or one that starts before the review. */
  function StateRefusal(current: OperationState, desired: OperationState): Option<StoreError> {
    if current == desired then None
    else if !ValidOperationTransition(current, desired) then Some(InvariantViolation)
    else if !UnderReview(current) then Some(GuardAbort("operation_run"))
    else None
  }

  /** Logging an applicable event meets only a used event id. */
  lemma EventInserted(db: Database, c: ReviewCommand)
    requires Applies(db, c) && c.expectedRevision >= 0 && HeadOk(db.heads[c.proposal], Rows(db.events, c.proposal))
    ensures InsertReviewRow(db, c.proposal, NewReviewRow(db, c)) ==
            if EventIdTaken(db, c.id) then Failure(Constraint("patch_review_event"))
            else Success(db.(events := ReviewedEvents(db, c)))
  {
    HeadNumbered(db.heads[c.proposal], Rows(db.events, c.proposal));
  }

  /** Moving the head on meets neither its guard nor another row count. */
  lemma HeadAdvances(db: Database, c: ReviewCommand)
    requires Applies(db, c)
    ensures UpdateHead(db, c.proposal, c.expectedRevision, c.expectedStatus, c.expectedRevision + 1, c.next, c.occurredAt)
            == Success(Updated(db.(heads := ReviewedHeads(db, c)), 1))
  {
    var head := db.heads[c.proposal];
    GuardsAdmit(c.kind, c.expectedStatus, c.next, c.hunk, c.decision, head, Head(head.run, head.revision + 1, c.next, c.occurredAt));
  }

  // ----- A transaction

  class Transaction {
    var tables: Database

    constructor (db: Database)
      ensures tables == db
    {
      tables := db;
    }

    method InsertLifecycleRows(b: Bundle) returns (failed: Option<StoreError>)
      requires b.runId in tables.runs && b.runId !in tables.lifecycle
      modifies this
      ensures failed == None
      ensures tables == old(tables).(lifecycle := Logged(old(tables).lifecycle, b.runId, LifecycleRows(b.lifecycle)))
    {
      ghost var start, rows := tables, LifecycleRows(b.lifecycle);
      for i := 0 to |b.lifecycle|
        invariant tables == start.(lifecycle := Logged(start.lifecycle, b.runId, rows[..i]))
      {
        var event := b.lifecycle[i];
        assert Rows(tables.lifecycle, b.runId) == rows[..i];
        assert rows[..i + 1] == rows[..i] + [rows[i]];
        match InsertLifecycle(tables, b.runId, LifecycleRow(i + 1, event.from, event.to, event.occurredAt, event.reason)) {
          case Failure(error) => return Some(error);
          case Success(inserted) => tables := inserted;
        }
      }
      assert rows[..|b.lifecycle|] == rows;
      return None;
    }

    method InsertAttempts(b: Bundle) returns (failed: Option<StoreError>)
      requires b.runId in tables.runs && b.runId !in tables.attempts && AttemptsOk(b.attempts)
      modifies this
      ensures failed == if exists a | a in b.attempts :: a.remoteRequestId == Some("") then Some(Constraint("operation_attempt")) else None
      ensures failed == None ==> tables == old(tables).(attempts := Logged(old(tables).attempts, b.runId, b.attempts))
    {
      ghost var start := tables;
      for i := 0 to |b.attempts|
        invariant tables == start.(attempts := Logged(start.attempts, b.runId, b.attempts[..i]))
        invariant forall j | 0 <= j < i :: b.attempts[j].remoteRequestId != Some("")
      {
        AttemptInserted(tables, b.runId, b.attempts, i);
        match InsertAttempt(tables, b.runId, b.attempts[i]) {
          case Failure(error) => return Some(error);
          case Success(inserted) => tables := inserted;
        }
      }
      assert b.attempts[..|b.attempts|] == b.attempts;
      return None;
    }

    /** The artifact, with a review head if it is a proposal. */
    method InsertArtifactAndHead(b: Bundle) returns (failed: Option<StoreError>)
      requires b.runId in tables.runs && b.artifact.Some?
      requires forall a | a in tables.artifacts :: tables.artifacts[a].run != b.runId
      requires forall p | p in tables.heads :: p in tables.artifacts && tables.heads[p].run != b.runId
      modifies this
      ensures failed == if b.artifact.value.id in old(tables).artifacts then Some(Constraint("operation_artifact")) else None
      ensures failed == None ==>
                tables == old(tables).(artifacts := StoredArtifacts(old(tables), b), heads := StoredHeads(old(tables), b))
    {
      var artifact := b.artifact.value;
      match InsertArtifact(tables, artifact.id, Artifact(b.runId, artifact.kind, artifact.body)) {
        case Failure(error) => return Some(error);
        case Success(inserted) => tables := inserted;
      }
      if artifact.kind == PatchProposal {
        match InsertHead(tables, artifact.id, Head(b.runId, 0, ReviewStatus.Review, artifact.createdAt)) {
          case Failure(error) => return Some(error);
          case Success(inserted) => tables := inserted;
        }
      }
      return None;
    }

    /** The packet, if there is one, and the run. */
    method InsertPacketAndRun(b: Bundle) returns (failed: Option<StoreError>)
      requires b.run.columns.base in tables.commits
      requires b.packet.Some? ==> PacketBound(b.run.columns, b.packet.value.packet)
      requires BasesKept(tables)
      modifies this
      ensures failed ==
              if b.packet.Some? && b.packet.value.id in old(tables).packets then Some(Constraint("context_packet_record"))
              else if b.runId in old(tables).runs then Some(Constraint("operation_run"))
              else None
      ensures failed == None ==>
                tables == old(tables).(packets := StoredPackets(old(tables), b), runs := old(tables).runs[b.runId := StoredRun(b)])
    {
      if b.packet.Some? {
        match InsertPacket(tables, b.packet.value.id, b.packet.value.packet) {
          case Failure(error) => return Some(error);
          case Success(inserted) => tables := inserted;
        }
      }
      match InsertRun(tables, b.runId, StoredRun(b)) {
        case Failure(error) => return Some(error);
        case Success(inserted) => tables := inserted;
      }
      return None;
    }

    /** What a stored run leaves behind: its events, its attempts, and its artifact if it has one. */
    method InsertResults(b: Bundle) returns (failed: Option<StoreError>)
      requires b.runId in tables.runs && b.runId !in tables.lifecycle && b.runId !in tables.attempts && AttemptsOk(b.attempts)
      requires forall a | a in tables.artifacts :: tables.artifacts[a].run != b.runId
      requires forall p | p in tables.heads :: p in tables.artifacts && tables.heads[p].run != b.runId
      modifies this
      ensures failed ==
              if exists a | a in b.attempts :: a.remoteRequestId == Some("") then Some(Constraint("operation_attempt"))
              else if b.artifact.Some? && b.artifact.value.id in old(tables).artifacts then Some(Constraint("operation_artifact"))
              else None
      ensures failed == None ==>
                tables == old(tables).(
                  lifecycle := Logged(old(tables).lifecycle, b.runId, LifecycleRows(b.lifecycle)),
                  attempts := Logged(old(tables).attempts, b.runId, b.attempts),
                  artifacts := StoredArtifacts(old(tables), b), heads := StoredHeads(old(tables), b))
    {
      failed := InsertLifecycleRows(b);
      if failed != None { return; }
      failed := InsertAttempts(b);
      if failed != None || b.artifact == None { return; }
      failed := InsertArtifactAndHead(b);
    }

    /** `update_operation_state_for_review`. */
    method UpdateOperationState(run: string, status: ReviewStatus, at: string, kind: EventKind) returns (failed: Option<StoreError>)
      requires run in tables.runs
      modifies this
      ensures failed == StateRefusal(old(tables).runs[run].state, StateOf(status))
      ensures old(tables).runs[run].state == StateOf(status) || failed == Some(InvariantViolation) ==> tables == old(tables)
      ensures old(tables).runs[run].state != StateOf(status) && failed == None ==>
                var rows, before := Rows(old(tables).lifecycle, run), old(tables).runs[run];
                var row := LifecycleRow(MaxBy(LifecycleSequence, rows) + 1, before.state, StateOf(status), at, Some(KindName(kind)));
                tables == old(tables).(
                  lifecycle := old(tables).lifecycle[run := rows + [row]],
                  runs := old(tables).runs[run := before.(state := StateOf(status), updatedAt := at)])
    {
      var desired, current := StateOf(status), tables.runs[run].state;
      if current == desired { return None; }
      if !ValidOperationTransition(current, desired) { return Some(InvariantViolation); }
      var rows := Rows(tables.lifecycle, run);
      MaxBounds(LifecycleSequence, rows);
      var sequence := MaxBy(LifecycleSequence, rows) + 1;
      match InsertLifecycle(tables, run, LifecycleRow(sequence, current, desired, at, Some(KindName(kind)))) {
        case Failure(error) => return Some(error);
        case Success(inserted) => tables := inserted;
      }
      RunGuardExactly(tables.runs[run], tables.runs[run].(state := desired, updatedAt := at));
      match UpdateRun(tables, run, current, desired, at) {
        case Failure(error) => return Some(error);
        case Success(updated) =>
          tables := updated.tables;
          if updated.count != 1 { return Some(InvariantViolation); }
      }
      return None;
    }

    /** All statements of `persist_operation_bundle`; on an error the caller drops the transaction. */
    method PersistInTransaction(b: Bundle) returns (failed: Option<StoreError>)
      requires AttemptsOk(b.attempts) && (b.packet.Some? ==> PacketBound(b.run.columns, b.packet.value.packet))
      requires BasesKept(tables) && ArtifactsKept(tables) && HeadsBound(tables) && LogsKept(tables)
      modifies this
      ensures failed == PersistRefusal(old(tables), b)
      ensures failed == None ==> tables == Stored(old(tables), b)
    {
      if !(b.run.columns.base in tables.commits && tables.commits[b.run.columns.base] == b.run.columns.project) {
        return Some(NotFound("project_commit"));
      }
      FreshRun(tables, b.runId);
      failed := InsertPacketAndRun(b);
      if failed != None { return; }
      failed := InsertResults(b);
    }

    /** Logs the event and moves the head. */
    method AdvanceHead(c: ReviewCommand) returns (failed: Option<StoreError>)
      requires Applies(tables, c) && c.expectedRevision >= 0
      requires HeadOk(tables.heads[c.proposal], Rows(tables.events, c.proposal))
      modifies this
      ensures failed == if EventIdTaken(old(tables), c.id) then Some(Constraint("patch_review_event")) else None
      ensures failed == None ==>
                tables == old(tables).(events := ReviewedEvents(old(tables), c), heads := ReviewedHeads(old(tables), c))
    {
      var head, rows := tables.heads[c.proposal], Rows(tables.events, c.proposal);
      HeadNumbered(head, rows);
      var sequence := MaxBy(EventSequence, rows) + 1;
      var row := ReviewRow(c.id, sequence, head.revision, head.revision + 1, c.kind, head.status, c.next, c.hunk, c.decision, c.payload, c.occurredAt);
      EventInserted(tables, c);
      match InsertReviewRow(tables, c.proposal, row) {
        case Failure(error) => return Some(error);
        case Success(inserted) => tables := inserted;
      }
      HeadAdvances(tables, c);
      match UpdateHead(tables, c.proposal, head.revision, head.status, head.revision + 1, c.next, c.occurredAt) {
        case Failure(error) => return Some(error);
        case Success(updated) =>
          tables := updated.tables;
          if updated.count != 1 { return Some(InvariantViolation); }
      }
      return None;
    }

    /** `append_review_event_in_transaction`; on an error the caller drops the transaction. */
    method AppendReviewEventInTransaction(c: ReviewCommand) returns (r: Result<Head, StoreError>)
      requires HeadsHaveRuns(tables) && (c.proposal in tables.heads ==> HeadReady(tables, c.proposal))
      modifies this
      ensures r.Success? ==>
                && AppendOutcome(old(tables), c).Success? && tables == Reviewed(old(tables), c)
                && r.value == tables.heads[c.proposal]
      ensures r.Failure? ==> AppendOutcome(old(tables), c) == Failure(r.error)
    {
      if !ValidReviewCommand(c) { return Failure(Validation); }
      if c.proposal !in tables.heads { return Failure(NotFound("patch_review")); }
      var head := tables.heads[c.proposal];
      if head.revision != c.expectedRevision || head.status != c.expectedStatus {
        return Failure(StateConflict(head.revision, head.status));
      }
      if !ReviewTransition(c.kind, c.expectedStatus, c.next, c.hunk, c.decision) { return Failure(Validation); }
      StatesFollow(c.kind, c.expectedStatus, c.next, c.hunk, c.decision);
      MaxOfNumbered(LifecycleSequence, Rows(tables.lifecycle, head.run));
      var refused := AdvanceHead(c);
      if refused != None { return Failure(refused.value); }
      var failed := UpdateOperationState(head.run, c.next, c.occurredAt, c.kind);
      match failed {
        case Some(error) => return Failure(error);
        case None =>
      }
      return Success(Head(head.run, head.revision + 1, c.next, c.occurredAt));
    }
  }

  lemma HeadNumbered(head: Head, rows: seq<ReviewRow>)
    requires HeadOk(head, rows)
    ensures MaxBy(EventSequence, rows) == |rows|
    ensures forall row | row in rows :: row.sequence <= |rows| && row.newRevision <= |rows|
  {
    forall i | 0 <= i < |rows|
      ensures rows[i].sequence == i + 1 && rows[i].newRevision == i + 1
    {
      assert ReviewStep(rows, i);
    }
    MaxOfNumbered(EventSequence, rows);
  }

  lemma InvReady(db: Database, p: string)
    requires Inv(db) && p in db.heads
    ensures HeadsHaveRuns(db) && HeadReady(db, p)
  {
    var run := db.heads[p].run;
    assert RunOk(db.runs[run], Rows(db.lifecycle, run), Rows(db.attempts, run));
    StateIs(db, p);
  }

  // ----- The store

  class OptimizerStore {
    var db: Database

    ghost predicate Valid()
      reads this
    {
      Inv(db)
    }

    constructor ()
      ensures Valid() && db == EMPTY
    {
      db := EMPTY;
      new;
      EveryRunVerified([]);
    }

    /** `persist_operation_bundle`. */
    method PersistOperationBundle(b: Bundle) returns (r: Result<Run, StoreError>)
      requires Valid()
      modifies this
      ensures Valid()
      ensures r.Success? ==> PersistOutcome(old(db), b).Success? && db == Stored(old(db), b) && r.value == db.runs[b.runId]
      ensures r.Failure? ==> PersistOutcome(old(db), b) == Failure(r.error) && db == old(db)
    {
      var ok := ValidateBundle(b);
      if !ok { return Failure(Validation); }
      var transaction := new Transaction(db);
      var failed := transaction.PersistInTransaction(b);
      if failed != None { return Failure(failed.value); }
      PersistKeeps(db, b);
      db := transaction.tables;
      return Success(db.runs[b.runId]);
    }

    /** `append_review_event`. */
    method AppendReviewEvent(c: ReviewCommand) returns (r: Result<Head, StoreError>)
      requires Valid()
      modifies this
      ensures Valid()
      ensures r.Success? ==>
                && AppendOutcome(old(db), c).Success? && db == Reviewed(old(db), c)
                && r.value == db.heads[c.proposal]
      ensures r.Failure? ==> AppendOutcome(old(db), c) == Failure(r.error) && db == old(db)
    {
      var transaction := new Transaction(db);
      if c.proposal in db.heads { InvReady(db, c.proposal); }
      r := transaction.AppendReviewEventInTransaction(c);
      if r.Success? {
        AppendKeeps(db, c);
        db := transaction.tables;
      }
    }

    /** `get_revision_metrics`. */
    method GetRevisionMetrics(project: string, blank: bool) returns (r: Result<RevisionMetrics, StoreError>)
      requires Valid()
      ensures blank ==> r == Failure(Validation)
      ensures !blank ==> r == Success(Metrics(Proposals(db, project))) && r.value.acceptedAfterRejection == 0
    {
      if blank { return Failure(Validation); }
      var m := Count(Proposals(db, project));
      NeverAcceptedAfterRejection(db, project);
      return Success(m);
    }
  }

  lemma FreshRun(db: Database, run: string)
    requires ArtifactsKept(db) && HeadsBound(db) && LogsKept(db)
    ensures run in db.runs || (run !in db.lifecycle && run !in db.attempts)
    ensures run in db.runs || forall a | a in db.artifacts :: db.artifacts[a].run != run
    ensures run in db.runs || forall p | p in db.heads :: p in db.artifacts && db.heads[p].run != run
  {
    forall p | p in db.heads
      ensures p in db.artifacts && db.heads[p].run in db.runs
    {
      assert db.heads[p].run in db.runs;
    }
  }
}
