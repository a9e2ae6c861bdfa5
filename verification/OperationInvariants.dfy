/**
 The thirteen statements `verify_operation_invariants` checks on the tables, and a proof that every
 run of calls from empty tables keeps all of them.
 */
module OperationInvariants {
  import opened Common
  import opened OperationModel
  import opened OperationSpec

  // ----- The statements, as the queries say them

  function Latest<T>(key: T -> int, rows: seq<T>): T
    requires rows != []
  {
    var last := rows[|rows| - 1];
    if |rows| == 1 then last
    else
      var earlier := Latest(key, rows[..|rows| - 1]);
      if key(last) > key(earlier) then last else earlier
  }

  function MaxRevision(rows: seq<ReviewRow>): int { MaxBy((row: ReviewRow) => row.newRevision, rows) }

  function LatestStatus(rows: seq<ReviewRow>): ReviewStatus {
    if rows == [] then ReviewStatus.Review else Latest(EventSequence, rows).next
  }

  ghost predicate LifecycleHasNoGaps(db: Database) {
    forall r | r in db.lifecycle :: |db.lifecycle[r]| == MaxBy(LifecycleSequence, db.lifecycle[r])
  }

  ghost predicate AttemptsHaveNoGaps(db: Database) {
    forall r | r in db.attempts :: |db.attempts[r]| == MaxBy(AttemptSequence, db.attempts[r])
  }

  ghost predicate SuccessIsFinal(db: Database) {
    forall r, a, later | r in db.attempts && a in db.attempts[r] && later in db.attempts[r] ::
      a.outcome == Succeeded ==> later.sequence <= a.sequence
  }

  ghost predicate StateIsLatestEvent(db: Database) {
    forall r | r in db.runs ::
      Rows(db.lifecycle, r) != [] && db.runs[r].state == Latest(LifecycleSequence, Rows(db.lifecycle, r)).to
  }

  ghost predicate RevisionIsLogged(db: Database) {
    forall p | p in db.heads :: db.heads[p].revision == MaxRevision(Rows(db.events, p))
  }

  ghost predicate StatusIsLogged(db: Database) {
    forall p | p in db.heads :: db.heads[p].status == LatestStatus(Rows(db.events, p))
  }

  ghost predicate ProposalsHaveHeads(db: Database) {
    forall a | a in db.artifacts :: db.artifacts[a].kind == PatchProposal <==> a in db.heads
  }

  ghost predicate StatusAgreesWithState(db: Database) {
    forall p | p in db.heads && db.heads[p].run in db.runs ::
      db.runs[db.heads[p].run].state ==
        match db.heads[p].status
        case Applied => Accepted
        case Rejected => OperationState.Rejected
        case Conflicted => OperationState.Conflicted
        case _ => OperationState.Review
  }

  ghost predicate PacketsBindRuns(db: Database) {
    forall r | r in db.runs && db.runs[r].columns.packet.Some? && db.runs[r].columns.packet.value in db.packets ::
      var packet := db.packets[db.runs[r].columns.packet.value];
      && packet.project == db.runs[r].columns.project && packet.base == db.runs[r].columns.base
      && packet.intent == db.runs[r].columns.intent
  }

  ghost predicate RunCommitsInProject(db: Database) {
    forall r | r in db.runs && db.runs[r].columns.base in db.commits ::
      db.commits[db.runs[r].columns.base] == db.runs[r].columns.project
  }

  ghost predicate PacketCommitsInProject(db: Database) {
    forall k | k in db.packets && db.packets[k].base in db.commits ::
      db.commits[db.packets[k].base] == db.packets[k].project
  }

  predicate Ended(state: OperationState) { state == Failed || state == Cancelled }

  predicate UnderReview(state: OperationState) {
    state == OperationState.Review || state == Accepted || state == OperationState.Rejected
    || state == OperationState.Conflicted
  }

  ghost predicate HasArtifact(db: Database, r: string) {
    exists a :: a in db.artifacts && db.artifacts[a].run == r
  }

  ghost predicate ArtifactsFitState(db: Database) {
    forall r | r in db.runs ::
      && (db.runs[r].state in {OperationState.Review, Accepted, OperationState.Rejected, OperationState.Conflicted} ==> HasArtifact(db, r))
      && (db.runs[r].state in {Failed, Cancelled} ==> !HasArtifact(db, r))
  }

  ghost predicate FailureFitsState(db: Database) {
    forall r | r in db.runs :: db.runs[r].state in {Failed, Cancelled} <==> db.runs[r].columns.failure.Some?
  }

  ghost predicate Verified(db: Database) {
    && LifecycleHasNoGaps(db) && AttemptsHaveNoGaps(db) && SuccessIsFinal(db) && StateIsLatestEvent(db)
    && RevisionIsLogged(db) && StatusIsLogged(db) && ProposalsHaveHeads(db) && StatusAgreesWithState(db)
    && PacketsBindRuns(db) && RunCommitsInProject(db) && PacketCommitsInProject(db)
    && ArtifactsFitState(db) && FailureFitsState(db)
  }

  // ----- What the calls keep

  /** The rows walk the operation machine, from `Draft` to `state`. */
  ghost predicate Walks(rows: seq<LifecycleRow>, state: OperationState) {
    && rows != [] && Numbered(LifecycleSequence, rows)
    && rows[0].from == Draft && rows[|rows| - 1].to == state
    && (forall i | 1 <= i < |rows| :: rows[i].from == rows[i - 1].to)
    && (forall i | 0 <= i < |rows| :: ValidOperationTransition(rows[i].from, rows[i].to))
  }

  function StatusAfter(rows: seq<ReviewRow>): ReviewStatus {
    if rows == [] then ReviewStatus.Review else rows[|rows| - 1].next
  }

  /** Row `i` takes the review from where row `i - 1` left it, one revision on. */
  predicate ReviewStep(rows: seq<ReviewRow>, i: nat)
    requires i < |rows|
  {
    var row := rows[i];
    && row.sequence == i + 1 && row.baseRevision == i && row.newRevision == i + 1
    && row.previous == (if i == 0 then ReviewStatus.Review else rows[i - 1].next)
    && ReviewTransition(row.kind, row.previous, row.next, row.hunk, row.decision)
  }

  ghost predicate WalksReview(rows: seq<ReviewRow>) {
    forall i | 0 <= i < |rows| :: ReviewStep(rows, i)
  }

  ghost predicate RunOk(run: Run, lifecycle: seq<LifecycleRow>, attempts: seq<Attempt>) {
    && Walks(lifecycle, run.state)
    && AttemptsOk(attempts)
    && (UnderReview(run.state) || Ended(run.state))
  }

  ghost predicate RunsKept(db: Database) {
    forall r | r in db.runs :: RunOk(db.runs[r], Rows(db.lifecycle, r), Rows(db.attempts, r))
  }

  ghost predicate HeadOk(head: Head, events: seq<ReviewRow>) {
    WalksReview(events) && head.revision == |events| && head.status == StatusAfter(events)
  }

  ghost predicate HeadsKept(db: Database) {
    forall p | p in db.heads :: HeadOk(db.heads[p], Rows(db.events, p))
  }

  ghost predicate HeadsBound(db: Database) {
    forall p | p in db.heads ::
      db.heads[p].run in db.runs && p in db.artifacts && db.artifacts[p].run == db.heads[p].run
  }

  ghost predicate ArtifactsKept(db: Database) {
    && (forall a | a in db.artifacts :: db.artifacts[a].run in db.runs)
    && (forall a, b | a in db.artifacts && b in db.artifacts && db.artifacts[a].run == db.artifacts[b].run :: a == b)
  }

  ghost predicate BasesKept(db: Database) {
    && (forall r | r in db.runs :: db.runs[r].columns.base in db.commits)
    && (forall k | k in db.packets :: db.packets[k].base in db.commits)
    && (forall r | r in db.runs && db.runs[r].columns.packet.Some? :: db.runs[r].columns.packet.value in db.packets)
  }

  /** Logs belong to rows that exist. */
  ghost predicate LogsKept(db: Database) {
    && (forall r | r in db.lifecycle :: r in db.runs)
    && (forall r | r in db.attempts :: r in db.runs)
    && (forall p | p in db.events :: p in db.heads)
  }

  ghost predicate CommitsFit(db: Database) {
    PacketsBindRuns(db) && RunCommitsInProject(db) && PacketCommitsInProject(db)
  }

  ghost predicate Inv(db: Database) {
    && RunsKept(db) && HeadsKept(db) && HeadsBound(db) && ArtifactsKept(db) && BasesKept(db) && LogsKept(db)
    && CommitsFit(db) && ProposalsHaveHeads(db) && StatusAgreesWithState(db) && ArtifactsFitState(db)
    && FailureFitsState(db)
  }

  // ----- They imply the thirteen statements

  lemma {:induction false} LatestOfNumbered<T>(key: T -> int, rows: seq<T>)
    requires rows != [] && Numbered(key, rows)
    ensures Latest(key, rows) == rows[|rows| - 1]
  {
    if |rows| > 1 { LatestOfNumbered(key, rows[..|rows| - 1]); }
  }

  lemma WalkNumbered(rows: seq<LifecycleRow>, state: OperationState)
    requires Walks(rows, state)
    ensures |rows| == MaxBy(LifecycleSequence, rows) && Latest(LifecycleSequence, rows).to == state
  {
    MaxOfNumbered(LifecycleSequence, rows);
    LatestOfNumbered(LifecycleSequence, rows);
  }

  lemma NumberedLogs(db: Database)
    requires RunsKept(db) && LogsKept(db)
    ensures LifecycleHasNoGaps(db) && StateIsLatestEvent(db)
  {
    forall r | r in db.runs
      ensures |Rows(db.lifecycle, r)| == MaxBy(LifecycleSequence, Rows(db.lifecycle, r))
      ensures Rows(db.lifecycle, r) != [] && db.runs[r].state == Latest(LifecycleSequence, Rows(db.lifecycle, r)).to
    {
      WalkNumbered(Rows(db.lifecycle, r), db.runs[r].state);
    }
  }

  lemma SuccessLast(attempts: seq<Attempt>, a: Attempt, later: Attempt)
    requires AttemptsOk(attempts) && a in attempts && later in attempts && a.outcome == Succeeded
    ensures later.sequence <= a.sequence
  {
    var i :| 0 <= i < |attempts| && attempts[i] == a;
    var j :| 0 <= j < |attempts| && attempts[j] == later;
    assert AttemptOk(attempts, i) && AttemptOk(attempts, j);
  }

  lemma AttemptsNumbered(attempts: seq<Attempt>)
    requires AttemptsOk(attempts)
    ensures |attempts| == MaxBy(AttemptSequence, attempts)
  {
    forall i | 0 <= i < |attempts|
      ensures attempts[i].sequence == i + 1
    {
      assert AttemptOk(attempts, i);
    }
    MaxOfNumbered(AttemptSequence, attempts);
  }

  lemma AttemptLogs(db: Database)
    requires forall r | r in db.attempts :: AttemptsOk(db.attempts[r])
    ensures AttemptsHaveNoGaps(db) && SuccessIsFinal(db)
  {
    forall r | r in db.attempts
      ensures |db.attempts[r]| == MaxBy(AttemptSequence, db.attempts[r])
    {
      AttemptsNumbered(db.attempts[r]);
    }
    forall r, a, later | r in db.attempts && a in db.attempts[r] && later in db.attempts[r] && a.outcome == Succeeded
      ensures later.sequence <= a.sequence
    {
      SuccessLast(db.attempts[r], a, later);
    }
  }

  lemma HeadLogged(head: Head, rows: seq<ReviewRow>)
    requires HeadOk(head, rows)
    ensures head.revision == MaxRevision(rows) && head.status == LatestStatus(rows)
  {
    forall i | 0 <= i < |rows|
      ensures rows[i].sequence == i + 1 && rows[i].newRevision == i + 1
    {
      assert ReviewStep(rows, i);
    }
    MaxOfNumbered((row: ReviewRow) => row.newRevision, rows);
    if rows != [] { LatestOfNumbered(EventSequence, rows); }
  }

  lemma ReviewLogs(db: Database)
    requires HeadsKept(db)
    ensures RevisionIsLogged(db) && StatusIsLogged(db)
  {
    forall p | p in db.heads
      ensures db.heads[p].revision == MaxRevision(Rows(db.events, p))
      ensures db.heads[p].status == LatestStatus(Rows(db.events, p))
    {
      HeadLogged(db.heads[p], Rows(db.events, p));
    }
  }

  lemma InvVerified(db: Database)
    requires Inv(db)
    ensures Verified(db)
  {
    NumberedLogs(db);
    forall r | r in db.attempts
      ensures AttemptsOk(db.attempts[r])
    {
      assert AttemptsOk(Rows(db.attempts, r));
    }
    AttemptLogs(db);
    ReviewLogs(db);
  }

  // ----- Persisting keeps them

  lemma PersistedWalk(events: seq<NewLifecycleEvent>, final: OperationState)
    requires LifecycleOk(events, final)
    ensures Walks(LifecycleRows(events), final)
  {
    var rows := LifecycleRows(events);
    forall i | 0 <= i < |rows|
      ensures rows[i].from == (if i == 0 then Draft else rows[i - 1].to) && ValidOperationTransition(rows[i].from, rows[i].to)
    {
      assert EventOk(events, i);
    }
    assert EventOk(events, 0);
  }

  lemma StoredRunOk(b: Bundle)
    requires LifecycleOk(b.lifecycle, b.run.state) && AttemptsOk(b.attempts) && PersistableState(b)
    ensures RunOk(StoredRun(b), LifecycleRows(b.lifecycle), b.attempts)
  {
    PersistedWalk(b.lifecycle, b.run.state);
  }

  lemma LoggedRows<T>(table: map<string, seq<T>>, key: string, rows: seq<T>, k: string)
    requires key !in table
    ensures Rows(Logged(table, key, rows), k) == if k == key then rows else Rows(table, k)
  {
  }

  lemma PersistKeepsRuns(db: Database, b: Bundle)
    requires RunsKept(db) && LogsKept(db) && b.runId !in db.runs
    requires LifecycleOk(b.lifecycle, b.run.state) && AttemptsOk(b.attempts) && PersistableState(b)
    ensures RunsKept(Stored(db, b))
  {
    StoredRunOk(b);
    var runs, lifecycle, attempts := db.runs[b.runId := StoredRun(b)], Stored(db, b).lifecycle, Stored(db, b).attempts;
    forall r | r in runs
      ensures RunOk(runs[r], Rows(lifecycle, r), Rows(attempts, r))
    {
      LoggedRows(db.lifecycle, b.runId, LifecycleRows(b.lifecycle), r);
      LoggedRows(db.attempts, b.runId, b.attempts, r);
      if r != b.runId { assert RunOk(db.runs[r], Rows(db.lifecycle, r), Rows(db.attempts, r)); }
    }
  }

  lemma PersistKeepsHeads(db: Database, b: Bundle)
    requires HeadsKept(db) && LogsKept(db) && (ProposalOf(b).Some? ==> ProposalOf(b).value !in db.heads)
    ensures HeadsKept(Stored(db, b))
  {
    var after := Stored(db, b);
    forall p | p in after.heads
      ensures HeadOk(after.heads[p], Rows(after.events, p))
    {
      if Some(p) != ProposalOf(b) { assert HeadOk(db.heads[p], Rows(db.events, p)); }
    }
  }

  ghost predicate Fresh(db: Database, b: Bundle) {
    && b.runId !in db.runs
    && (b.packet.Some? ==> b.packet.value.id !in db.packets)
    && (b.artifact.Some? ==> b.artifact.value.id !in db.artifacts)
  }

  lemma PersistKeepsBound(db: Database, b: Bundle)
    requires HeadsBound(db) && ArtifactsKept(db) && Fresh(db, b)
    ensures HeadsBound(Stored(db, b))
  {
    var after := Stored(db, b);
    forall p | p in after.heads
      ensures after.heads[p].run in after.runs && p in after.artifacts && after.artifacts[p].run == after.heads[p].run
    {
      if Some(p) != ProposalOf(b) {
        assert after.heads[p] == db.heads[p] && p in db.artifacts;
        assert after.artifacts[p] == db.artifacts[p];
      }
    }
  }

  lemma PersistKeepsArtifacts(db: Database, b: Bundle)
    requires ArtifactsKept(db) && Fresh(db, b)
    ensures ArtifactsKept(Stored(db, b))
  {
    var after := Stored(db, b);
    forall a | a in after.artifacts
      ensures after.artifacts[a].run in after.runs
      ensures after.artifacts[a].run == b.runId <==> b.artifact.Some? && a == b.artifact.value.id
    {
      if a in db.artifacts { assert db.artifacts[a].run in db.runs; }
    }
    forall x, y | x in after.artifacts && y in after.artifacts && after.artifacts[x].run == after.artifacts[y].run
      ensures x == y
    {
      if after.artifacts[x].run != b.runId { assert x in db.artifacts && y in db.artifacts; }
    }
  }

  lemma PersistKeepsLogs(db: Database, b: Bundle)
    requires LogsKept(db)
    ensures LogsKept(Stored(db, b))
  {
    var after := Stored(db, b);
    assert forall r | r in db.runs :: r in after.runs;
    assert forall p | p in db.heads :: p in after.heads;
  }

  lemma PersistKeepsBases(db: Database, b: Bundle)
    requires BasesKept(db) && b.run.columns.base in db.commits
    requires b.packet.Some? ==> PacketBound(b.run.columns, b.packet.value.packet)
    ensures BasesKept(Stored(db, b))
  {
  }

  lemma PersistKeepsCommits(db: Database, b: Bundle)
    requires CommitsFit(db) && BasesKept(db) && Fresh(db, b)
    requires b.run.columns.base in db.commits && db.commits[b.run.columns.base] == b.run.columns.project
    requires b.packet.Some? ==> PacketBound(b.run.columns, b.packet.value.packet)
    ensures CommitsFit(Stored(db, b))
  {
    var after := Stored(db, b);
    forall r | r in after.runs && after.runs[r].columns.packet.Some? && after.runs[r].columns.packet.value in after.packets
      ensures PacketBound(after.runs[r].columns, after.packets[after.runs[r].columns.packet.value])
    {
      if r != b.runId {
        assert db.runs[r].columns.packet.value in db.packets;
      }
    }
  }

  lemma PersistedArtifact(db: Database, b: Bundle, r: string)
    requires ArtifactsKept(db) && Fresh(db, b)
    ensures HasArtifact(Stored(db, b), r) <==> if r == b.runId then b.artifact.Some? else HasArtifact(db, r)
  {
    var after := Stored(db, b);
    if r == b.runId && b.artifact.Some? { assert after.artifacts[b.artifact.value.id].run == r; }
    if r != b.runId && HasArtifact(db, r) {
      var a :| a in db.artifacts && db.artifacts[a].run == r;
      assert after.artifacts[a].run == r;
    }
  }

  lemma PersistKeepsFit(db: Database, b: Bundle)
    requires ArtifactsFitState(db) && FailureFitsState(db) && ArtifactsKept(db)
    requires Fresh(db, b) && PersistableState(b)
    ensures ArtifactsFitState(Stored(db, b)) && FailureFitsState(Stored(db, b))
  {
    forall r
      ensures HasArtifact(Stored(db, b), r) <==> if r == b.runId then b.artifact.Some? else HasArtifact(db, r)
    {
      PersistedArtifact(db, b, r);
    }
  }

  lemma PersistKeepsReviews(db: Database, b: Bundle)
    requires ProposalsHaveHeads(db) && StatusAgreesWithState(db) && HeadsBound(db)
    requires Fresh(db, b) && PersistableState(b)
    ensures ProposalsHaveHeads(Stored(db, b)) && StatusAgreesWithState(Stored(db, b))
  {
    var after := Stored(db, b);
    forall p | p in after.heads
      ensures after.runs[after.heads[p].run].state == StateOf(after.heads[p].status)
    {
      if Some(p) != ProposalOf(b) { assert db.heads[p].run in db.runs; }
    }
  }

  lemma PersistFresh(db: Database, b: Bundle)
    requires HeadsBound(db) && PersistOutcome(db, b).Success?
    ensures Fresh(db, b) && (ProposalOf(b).Some? ==> ProposalOf(b).value !in db.heads)
  {
  }

  lemma PersistKeeps(db: Database, b: Bundle)
    requires Inv(db) && PersistOutcome(db, b).Success?
    ensures Inv(Stored(db, b))
  {
    PersistFresh(db, b);
    PersistKeepsRuns(db, b);
    PersistKeepsHeads(db, b);
    PersistKeepsBound(db, b);
    PersistKeepsArtifacts(db, b);
    PersistKeepsLogs(db, b);
    PersistKeepsBases(db, b);
    PersistKeepsCommits(db, b);
    PersistKeepsFit(db, b);
    PersistKeepsReviews(db, b);
  }

  // ----- Appending keeps them

  /** A review step never asks the run for a transition the operation machine lacks. */
  lemma StatesFollow(kind: EventKind, from: ReviewStatus, to: ReviewStatus, hunk: Option<string>, decision: Option<HunkDecision>)
    requires ReviewTransition(kind, from, to, hunk, decision)
    ensures StateOf(from) == StateOf(to) || ValidOperationTransition(StateOf(from), StateOf(to))
  {
  }

  lemma WalkExtended(rows: seq<LifecycleRow>, state: OperationState, next: LifecycleRow)
    requires Walks(rows, state)
    requires next.sequence == |rows| + 1 && next.from == state && ValidOperationTransition(next.from, next.to)
    ensures Walks(rows + [next], next.to)
  {
  }

  lemma ReviewExtended(head: Head, rows: seq<ReviewRow>, next: ReviewRow, after: Head)
    requires HeadOk(head, rows)
    requires next.sequence == |rows| + 1 && next.baseRevision == |rows| && next.newRevision == |rows| + 1
    requires next.previous == head.status
    requires ReviewTransition(next.kind, next.previous, next.next, next.hunk, next.decision)
    requires after.revision == |rows| + 1 && after.status == next.next
    ensures HeadOk(after, rows + [next])
  {
    var more := rows + [next];
    forall i | 0 <= i < |more|
      ensures ReviewStep(more, i)
    {
      if i < |rows| { assert ReviewStep(rows, i); }
    }
  }

  /** The command passes every check that depends on the head. */
  ghost predicate Applies(db: Database, c: ReviewCommand) {
    && c.proposal in db.heads && db.heads[c.proposal].run in db.runs
    && db.heads[c.proposal].revision == c.expectedRevision
    && db.heads[c.proposal].status == c.expectedStatus
    && ReviewTransition(c.kind, c.expectedStatus, c.next, c.hunk, c.decision)
  }

  lemma RunMoved(run: Run, lifecycle: seq<LifecycleRow>, attempts: seq<Attempt>, c: ReviewCommand, next: LifecycleRow, after: Run)
    requires RunOk(run, lifecycle, attempts) && run.state == StateOf(c.expectedStatus) != StateOf(c.next)
    requires ReviewTransition(c.kind, c.expectedStatus, c.next, c.hunk, c.decision)
    requires next.sequence == |lifecycle| + 1 && next.from == run.state && next.to == StateOf(c.next) == after.state
    ensures RunOk(after, lifecycle + [next], attempts)
  {
    StatesFollow(c.kind, c.expectedStatus, c.next, c.hunk, c.decision);
    WalkExtended(lifecycle, run.state, next);
  }

  lemma AppendKeepsRuns(db: Database, c: ReviewCommand)
    requires RunsKept(db) && StatusAgreesWithState(db) && Applies(db, c)
    ensures RunsKept(Reviewed(db, c))
  {
    var run, after := db.heads[c.proposal].run, Reviewed(db, c);
    if Moves(db, c) {
      RunMoved(db.runs[run], Rows(db.lifecycle, run), Rows(db.attempts, run), c, NewLifecycleRow(db, c), after.runs[run]);
    }
    forall r | r in after.runs
      ensures RunOk(after.runs[r], Rows(after.lifecycle, r), Rows(after.attempts, r))
    {
      if r != run { assert RunOk(db.runs[r], Rows(db.lifecycle, r), Rows(db.attempts, r)); }
    }
  }

  lemma AppendKeepsHeads(db: Database, c: ReviewCommand)
    requires HeadsKept(db) && Applies(db, c)
    ensures HeadsKept(Reviewed(db, c))
  {
    var p, after := c.proposal, Reviewed(db, c);
    ReviewExtended(db.heads[p], Rows(db.events, p), NewReviewRow(db, c), after.heads[p]);
    forall q | q in after.heads
      ensures HeadOk(after.heads[q], Rows(after.events, q))
    {
      if q != p { assert HeadOk(db.heads[q], Rows(db.events, q)); }
    }
  }

  lemma AppendKeepsFit(db: Database, c: ReviewCommand)
    requires ArtifactsFitState(db) && FailureFitsState(db) && StatusAgreesWithState(db) && Applies(db, c)
    ensures ArtifactsFitState(Reviewed(db, c)) && FailureFitsState(Reviewed(db, c))
  {
    forall r
      ensures HasArtifact(Reviewed(db, c), r) <==> HasArtifact(db, r)
    {
    }
    assert UnderReview(StateOf(c.next)) && UnderReview(StateOf(c.expectedStatus));
  }

  lemma AppendKeepsReviews(db: Database, c: ReviewCommand)
    requires ProposalsHaveHeads(db) && StatusAgreesWithState(db) && HeadsBound(db) && ArtifactsKept(db) && Applies(db, c)
    ensures ProposalsHaveHeads(Reviewed(db, c)) && StatusAgreesWithState(Reviewed(db, c))
  {
    var after := Reviewed(db, c);
    forall p | p in after.heads
      ensures after.runs[after.heads[p].run].state == StateOf(after.heads[p].status)
    {
      if p != c.proposal { assert db.heads[p].run != db.heads[c.proposal].run; }
    }
  }

  lemma AppendKeepsBound(db: Database, c: ReviewCommand)
    requires HeadsBound(db) && ArtifactsKept(db) && LogsKept(db) && Applies(db, c)
    ensures HeadsBound(Reviewed(db, c)) && ArtifactsKept(Reviewed(db, c)) && LogsKept(Reviewed(db, c))
  {
    assert Reviewed(db, c).runs.Keys == db.runs.Keys;
  }

  lemma AppendKeepsBases(db: Database, c: ReviewCommand)
    requires BasesKept(db) && CommitsFit(db) && Applies(db, c)
    ensures BasesKept(Reviewed(db, c)) && CommitsFit(Reviewed(db, c))
  {
    var after := Reviewed(db, c);
    forall r | r in after.runs
      ensures r in db.runs && after.runs[r].columns == db.runs[r].columns
    {
    }
  }

  lemma AppendKeeps(db: Database, c: ReviewCommand)
    requires Inv(db) && Applies(db, c)
    ensures Inv(Reviewed(db, c))
  {
    AppendKeepsRuns(db, c);
    AppendKeepsHeads(db, c);
    AppendKeepsFit(db, c);
    AppendKeepsReviews(db, c);
    AppendKeepsBound(db, c);
    AppendKeepsBases(db, c);
  }

  // ----- Every run

  lemma CommitKeepsBases(db: Database, id: string, project: string)
    requires BasesKept(db) && CommitsFit(db) && id !in db.commits
    ensures BasesKept(db.(commits := db.commits[id := project])) && CommitsFit(db.(commits := db.commits[id := project]))
  {
  }

  lemma CommitKeepsLogs(db: Database, commits: map<string, string>)
    requires RunsKept(db) && HeadsKept(db) && HeadsBound(db) && ArtifactsKept(db) && LogsKept(db)
    ensures RunsKept(db.(commits := commits)) && HeadsKept(db.(commits := commits)) && HeadsBound(db.(commits := commits))
    ensures ArtifactsKept(db.(commits := commits)) && LogsKept(db.(commits := commits))
  {
    var after := db.(commits := commits);
    assert after.runs == db.runs && after.lifecycle == db.lifecycle && after.attempts == db.attempts;
    assert after.heads == db.heads && after.events == db.events && after.artifacts == db.artifacts;
  }

  lemma CommitKeepsFit(db: Database, commits: map<string, string>)
    requires ProposalsHaveHeads(db) && StatusAgreesWithState(db) && ArtifactsFitState(db) && FailureFitsState(db)
    ensures ProposalsHaveHeads(db.(commits := commits)) && StatusAgreesWithState(db.(commits := commits))
    ensures ArtifactsFitState(db.(commits := commits)) && FailureFitsState(db.(commits := commits))
  {
    assert forall r :: HasArtifact(db.(commits := commits), r) <==> HasArtifact(db, r);
  }

  lemma CommitKeeps(db: Database, id: string, project: string)
    requires Inv(db) && id !in db.commits
    ensures Inv(db.(commits := db.commits[id := project]))
  {
    CommitKeepsBases(db, id, project);
    CommitKeepsLogs(db, db.commits[id := project]);
    CommitKeepsFit(db, db.commits[id := project]);
  }

  lemma CommittedPersist(db: Database, b: Bundle)
    ensures Committed(db, PersistOutcome(db, b)) == if PersistOutcome(db, b).Success? then Stored(db, b) else db
  {
  }

  lemma CommittedAppend(db: Database, c: ReviewCommand)
    requires HeadsHaveRuns(db)
    ensures Committed(db, AppendOutcome(db, c)) == if AppendOutcome(db, c).Success? then Reviewed(db, c) else db
  {
  }

  lemma ExecuteKeepsPersist(db: Database, b: Bundle)
    requires Inv(db)
    ensures Inv(if PersistOutcome(db, b).Success? then Stored(db, b) else db)
  {
    if PersistOutcome(db, b).Success? { PersistKeeps(db, b); }
  }

  lemma ExecuteKeepsAppend(db: Database, c: ReviewCommand)
    requires Inv(db)
    ensures Inv(if AppendOutcome(db, c).Success? then Reviewed(db, c) else db)
  {
    if AppendOutcome(db, c).Success? { AppendKeeps(db, c); }
  }

  lemma ExecuteKeeps(db: Database, command: Command)
    requires Inv(db)
    ensures HeadsHaveRuns(db) && Inv(Execute(db, command))
  {
    match command
    case Persist(b) =>
      CommittedPersist(db, b);
      ExecuteKeepsPersist(db, b);
    case Append(c) =>
      CommittedAppend(db, c);
      ExecuteKeepsAppend(db, c);
    case NewCommit(id, project) => if id !in db.commits { CommitKeeps(db, id, project); }
  }

  lemma {:induction false} RunKeeps(db: Database, commands: seq<Command>)
    requires Inv(db)
    ensures HeadsHaveRuns(db) && Inv(ExecuteAll(db, commands))
  {
    assert HeadsHaveRuns(db);
    if commands != [] {
      RunKeeps(db, commands[..|commands| - 1]);
      ExecuteKeeps(ExecuteAll(db, commands[..|commands| - 1]), commands[|commands| - 1]);
    }
  }

  /** The run of a proposal is where the review left it. */
  ghost predicate Followed(status: ReviewStatus, state: OperationState) {
    && (status == Applied <==> state == Accepted)
    && (status == ReviewStatus.Rejected <==> state == OperationState.Rejected)
    && (status == ReviewStatus.Conflicted <==> state == OperationState.Conflicted)
    && (status == ReviewStatus.Review || status == Ready <==> state == OperationState.Review)
  }

  lemma StateIs(db: Database, p: string)
    requires HeadsHaveRuns(db) && StatusAgreesWithState(db) && p in db.heads
    ensures db.runs[db.heads[p].run].state == StateOf(db.heads[p].status)
  {
  }

  lemma HeadFollowed(db: Database, p: string)
    requires HeadsHaveRuns(db) && StatusAgreesWithState(db) && p in db.heads
    ensures Followed(db.heads[p].status, db.runs[db.heads[p].run].state)
  {
  }

  /** After any calls a stored proposal is applied exactly when its run is accepted, and so on. */
  lemma RunFollowsReview(commands: seq<Command>, p: string)
    requires p in ExecuteAll(EMPTY, commands).heads
    ensures var db := ExecuteAll(EMPTY, commands);
            db.heads[p].run in db.runs && Followed(db.heads[p].status, db.runs[db.heads[p].run].state)
  {
    RunKeeps(EMPTY, commands);
    HeadFollowed(ExecuteAll(EMPTY, commands), p);
  }

  /** After any calls, failed ones included, `verify_operation_invariants` finds nothing. */
  lemma EveryRunVerified(commands: seq<Command>)
    ensures Verified(ExecuteAll(EMPTY, commands)) && Inv(ExecuteAll(EMPTY, commands))
  {
    RunKeeps(EMPTY, commands);
    InvVerified(ExecuteAll(EMPTY, commands));
  }
}
