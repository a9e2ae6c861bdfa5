/**
 `get_revision_metrics`: how often proposals of a project were applied, rejected, and applied after
 a rejection, counted over the review log.
 */
module OperationMetrics {
  import opened Common
  import opened OperationModel
  import opened OperationSpec
  import opened OperationInvariants
  import opened OperationHistory
  import opened Sorting

  datatype RevisionMetrics = RevisionMetrics(accepted: nat, withRejection: nat, acceptedAfterRejection: nat, rate: real)

  predicate IsVerdict(kind: EventKind) { kind == Apply || kind == Reject }

  function Verdicts(rows: seq<ReviewRow>): seq<ReviewRow> {
    if rows == [] then []
    else Verdicts(rows[..|rows| - 1]) + if IsVerdict(rows[|rows| - 1].kind) then [rows[|rows| - 1]] else []
  }

  predicate BySequence(x: ReviewRow, y: ReviewRow) { x.sequence <= y.sequence }

  /** The kinds of the apply and reject events of a proposal, in sequence order. */
  function VerdictKinds(rows: seq<ReviewRow>): seq<EventKind> {
    var log := SortBy(BySequence, Verdicts(rows));
    seq(|log|, i requires 0 <= i < |log| => log[i].kind)
  }

  predicate InProject(db: Database, project: string, p: string) {
    p in db.heads && db.heads[p].run in db.runs && db.runs[db.heads[p].run].columns.project == project
  }

  /** The project's proposals that have such events. */
  function Proposals(db: Database, project: string): map<string, seq<EventKind>> {
    map p | p in db.heads && InProject(db, project, p) && VerdictKinds(Rows(db.events, p)) != [] :: VerdictKinds(Rows(db.events, p))
  }

  predicate AppliedAfterRejection(kinds: seq<EventKind>) {
    exists i, j :: 0 <= i < j < |kinds| && kinds[i] == Reject && kinds[j] == Apply
  }

  function With(logs: map<string, seq<EventKind>>, ps: set<string>, kind: EventKind): set<string>
    requires ps <= logs.Keys
  {
    set p | p in ps && kind in logs[p]
  }

  function AfterRejection(logs: map<string, seq<EventKind>>, ps: set<string>): set<string>
    requires ps <= logs.Keys
  {
    set p | p in ps && AppliedAfterRejection(logs[p])
  }

  function Rate(part: nat, whole: nat): real {
    if whole == 0 then 0.0 else part as real / whole as real
  }

  function Metrics(logs: map<string, seq<EventKind>>): RevisionMetrics {
    var accepted, after := |With(logs, logs.Keys, Apply)|, |AfterRejection(logs, logs.Keys)|;
    RevisionMetrics(accepted, |With(logs, logs.Keys, Reject)|, after, Rate(after, accepted))
  }

  /** The search of one log for an apply after a reject. */
  method FindAppliedAfterRejection(kinds: seq<EventKind>) returns (matched: bool)
    ensures matched == AppliedAfterRejection(kinds)
  {
    var sawReject := false;
    for i := 0 to |kinds|
      invariant sawReject <==> exists a :: 0 <= a < i && kinds[a] == Reject
      invariant forall a, b | 0 <= a < b < i :: !(kinds[a] == Reject && kinds[b] == Apply)
    {
      if kinds[i] == Reject {
        sawReject := true;
      } else if kinds[i] == Apply && sawReject {
        return true;
      }
    }
    return false;
  }

  lemma CountedWith(logs: map<string, seq<EventKind>>, ps: set<string>, p: string, kind: EventKind)
    requires ps + {p} <= logs.Keys && p !in ps
    ensures |With(logs, ps + {p}, kind)| == |With(logs, ps, kind)| + if kind in logs[p] then 1 else 0
  {
    assert With(logs, ps + {p}, kind) == With(logs, ps, kind) + if kind in logs[p] then {p} else {};
  }

  lemma CountedAfter(logs: map<string, seq<EventKind>>, ps: set<string>, p: string)
    requires ps + {p} <= logs.Keys && p !in ps
    ensures |AfterRejection(logs, ps + {p})| == |AfterRejection(logs, ps)| + if AppliedAfterRejection(logs[p]) then 1 else 0
  {
    assert AfterRejection(logs, ps + {p}) == AfterRejection(logs, ps) + if AppliedAfterRejection(logs[p]) then {p} else {};
  }

  /** The counting loop over the grouped logs. */
  method Count(logs: map<string, seq<EventKind>>) returns (m: RevisionMetrics)
    ensures m == Metrics(logs)
  {
    var accepted, withRejection, after := 0, 0, 0;
    var todo := logs.Keys;
    ghost var done: set<string> := {};
    while todo != {}
      invariant done !! todo && done + todo == logs.Keys
      invariant accepted == |With(logs, done, Apply)|
      invariant withRejection == |With(logs, done, Reject)|
      invariant after == |AfterRejection(logs, done)|
      decreases todo
    {
      var p :| p in todo;
      if Apply in logs[p] { accepted := accepted + 1; }
      if Reject in logs[p] { withRejection := withRejection + 1; }
      var matched := FindAppliedAfterRejection(logs[p]);
      if matched { after := after + 1; }
      CountedWith(logs, done, p, Apply);
      CountedWith(logs, done, p, Reject);
      CountedAfter(logs, done, p);
      todo, done := todo - {p}, done + {p};
    }
    assert done == logs.Keys;
    m := RevisionMetrics(accepted, withRejection, after, Rate(after, accepted));
  }

  // ----- On the logs the store can build

  lemma {:induction false} VerdictsAreRows(rows: seq<ReviewRow>, row: ReviewRow)
    requires row in Verdicts(rows)
    ensures row in rows
  {
    if rows != [] && row in Verdicts(rows[..|rows| - 1]) { VerdictsAreRows(rows[..|rows| - 1], row); }
  }

  lemma OneVerdict(rows: seq<ReviewRow>)
    requires WalksReview(rows)
    ensures !(Apply in VerdictKinds(rows) && Reject in VerdictKinds(rows))
  {
    var log, kinds := SortBy(BySequence, Verdicts(rows)), VerdictKinds(rows);
    SortByMembers(BySequence, Verdicts(rows));
    forall i, j | 0 <= i < |kinds| && 0 <= j < |kinds| && kinds[i] == Apply
      ensures kinds[j] != Reject
    {
      VerdictsAreRows(rows, log[i]);
      VerdictsAreRows(rows, log[j]);
      ApplyExcludesReject(rows, log[i], log[j]);
    }
  }

  ghost predicate OneKind(logs: map<string, seq<EventKind>>) {
    forall p | p in logs :: !(Apply in logs[p] && Reject in logs[p])
  }

  lemma NoneAfterRejection(logs: map<string, seq<EventKind>>)
    requires OneKind(logs)
    ensures AfterRejection(logs, logs.Keys) == {}
  {
    forall p | p in logs
      ensures !AppliedAfterRejection(logs[p])
    {
      assert !(Apply in logs[p] && Reject in logs[p]);
    }
  }

  lemma CountedApart(logs: map<string, seq<EventKind>>)
    requires OneKind(logs)
    ensures |With(logs, logs.Keys, Apply)| + |With(logs, logs.Keys, Reject)| <= |logs|
  {
    var applied, rejected := With(logs, logs.Keys, Apply), With(logs, logs.Keys, Reject);
    assert applied !! rejected && applied + rejected <= logs.Keys;
    SubsetSize(applied + rejected, logs.Keys);
  }

  lemma NoRate(whole: nat)
    ensures Rate(0, whole) == 0.0
  {
  }

  lemma MetricsOf(logs: map<string, seq<EventKind>>)
    requires OneKind(logs)
    ensures Metrics(logs).acceptedAfterRejection == 0 && Metrics(logs).rate == 0.0
    ensures Metrics(logs).accepted + Metrics(logs).withRejection <= |logs|
  {
    NoneAfterRejection(logs);
    CountedApart(logs);
    var m := Metrics(logs);
    assert m.acceptedAfterRejection == 0;
    NoRate(m.accepted);
    assert m.rate == Rate(0, m.accepted);
  }

  lemma BuiltLogs(db: Database, project: string)
    requires HeadsKept(db)
    ensures OneKind(Proposals(db, project))
  {
    forall p | p in Proposals(db, project)
      ensures !(Apply in VerdictKinds(Rows(db.events, p)) && Reject in VerdictKinds(Rows(db.events, p)))
    {
      assert HeadOk(db.heads[p], Rows(db.events, p));
      OneVerdict(Rows(db.events, p));
    }
  }

  /** `accepted_after_rejection` is always 0, and no proposal is counted both ways. */
  lemma NeverAcceptedAfterRejection(db: Database, project: string)
    requires HeadsKept(db)
    ensures var m := Metrics(Proposals(db, project));
            m.acceptedAfterRejection == 0 && m.rate == 0.0 && m.accepted + m.withRejection <= |Proposals(db, project)|
  {
    BuiltLogs(db, project);
    MetricsOf(Proposals(db, project));
  }

  /**
   What the reject count leaves out: a proposal is rejected without a reject event exactly when its
   last event is a decision.
   */
  lemma RejectedUncounted(db: Database, p: string)
    requires HeadsKept(db) && p in db.heads && db.heads[p].status == ReviewStatus.Rejected
    ensures var rows := Rows(db.events, p);
            rows != [] && ((exists row :: row in rows && row.kind == Reject) <==> rows[|rows| - 1].kind != Decision)
  {
    var rows := Rows(db.events, p);
    assert HeadOk(db.heads[p], rows);
    assert ReviewStep(rows, |rows| - 1);
    forall i | 0 <= i < |rows| - 1
      ensures rows[i].kind != Reject
    {
      assert ReviewStep(rows, i);
      OnlyLastCloses(rows, i);
    }
    assert rows[|rows| - 1] in rows;
  }

  /** The apply and reject events of a proposal are looked at in the order of their sequence numbers. */
  lemma VerdictsInOrder(rows: seq<ReviewRow>)
    ensures forall i, j | 0 <= i < j < |SortBy(BySequence, Verdicts(rows))| ::
      SortBy(BySequence, Verdicts(rows))[i].sequence <= SortBy(BySequence, Verdicts(rows))[j].sequence
    ensures forall i | 0 <= i < |VerdictKinds(rows)| :: VerdictKinds(rows)[i] == SortBy(BySequence, Verdicts(rows))[i].kind
    ensures |VerdictKinds(rows)| == |Verdicts(rows)|
  {
    SortBySorts(BySequence, Verdicts(rows));
  }

  // ----- What the counts are counts of

  lemma {:induction false} VerdictsKeep(rows: seq<ReviewRow>, row: ReviewRow)
    requires row in rows && IsVerdict(row.kind)
    ensures row in Verdicts(rows)
  {
    if row != rows[|rows| - 1] {
      assert row in rows[..|rows| - 1];
      VerdictsKeep(rows[..|rows| - 1], row);
    }
  }

  lemma KindListed(rows: seq<ReviewRow>, kind: EventKind)
    requires IsVerdict(kind)
    ensures kind in VerdictKinds(rows) <==> exists row :: row in rows && row.kind == kind
  {
    var log, kinds := SortBy(BySequence, Verdicts(rows)), VerdictKinds(rows);
    SortByMembers(BySequence, Verdicts(rows));
    if kind in kinds {
      var i :| 0 <= i < |kinds| && kinds[i] == kind;
      VerdictsAreRows(rows, log[i]);
    }
    forall row | row in rows && row.kind == kind ensures kind in kinds {
      VerdictsKeep(rows, row);
      var i :| 0 <= i < |log| && log[i] == row;
      assert kinds[i] == kind;
    }
  }

  predicate LastIs(rows: seq<ReviewRow>, kind: EventKind) {
    rows != [] && rows[|rows| - 1].kind == kind
  }

  /** A log holds a verdict exactly when its last event is that verdict. */
  lemma VerdictIsLast(rows: seq<ReviewRow>, kind: EventKind)
    requires WalksReview(rows) && IsVerdict(kind)
    ensures (exists row :: row in rows && row.kind == kind) <==> LastIs(rows, kind)
  {
    forall i | 0 <= i < |rows| - 1 ensures rows[i].kind != kind {
      assert ReviewStep(rows, i);
      OnlyLastCloses(rows, i);
    }
  }

  /** Only an apply event applies; a reject event or a decision rejects. */
  lemma ClosedBy(head: Head, rows: seq<ReviewRow>)
    requires HeadOk(head, rows)
    ensures LastIs(rows, Apply) <==> head.status == Applied
    ensures LastIs(rows, Reject) <==> head.status == ReviewStatus.Rejected && !LastIs(rows, Decision)
  {
    if rows != [] { assert ReviewStep(rows, |rows| - 1); }
  }

  ghost function HeadsIn(db: Database, project: string, status: ReviewStatus): set<string> {
    set p | p in db.heads && InProject(db, project, p) && db.heads[p].status == status
  }

  /** The rejected proposals that a decision on a hunk rejected. */
  ghost function RejectedByDecision(db: Database, project: string): set<string> {
    set p | p in HeadsIn(db, project, ReviewStatus.Rejected) && LastIs(Rows(db.events, p), Decision)
  }

  lemma CountedExactly(db: Database, project: string, p: string, kind: EventKind)
    requires HeadsKept(db) && IsVerdict(kind) && p in db.heads
    ensures var logs := Proposals(db, project);
      p in With(logs, logs.Keys, kind) <==> InProject(db, project, p) && LastIs(Rows(db.events, p), kind)
  {
    var rows := Rows(db.events, p);
    assert HeadOk(db.heads[p], rows);
    KindListed(rows, kind);
    VerdictIsLast(rows, kind);
  }

  lemma CountedSets(db: Database, project: string)
    requires HeadsKept(db)
    ensures var logs := Proposals(db, project);
      && With(logs, logs.Keys, Apply) == HeadsIn(db, project, Applied)
      && With(logs, logs.Keys, Reject) == HeadsIn(db, project, ReviewStatus.Rejected) - RejectedByDecision(db, project)
  {
    var logs := Proposals(db, project);
    forall p
      ensures p in With(logs, logs.Keys, Apply) <==> p in HeadsIn(db, project, Applied)
      ensures p in With(logs, logs.Keys, Reject)
        <==> p in HeadsIn(db, project, ReviewStatus.Rejected) - RejectedByDecision(db, project)
    {
      if p in db.heads { CountedAs(db, project, p); }
    }
  }

  lemma CountedAs(db: Database, project: string, p: string)
    requires HeadsKept(db) && p in db.heads
    ensures var logs := Proposals(db, project);
      && (p in With(logs, logs.Keys, Apply) <==> p in HeadsIn(db, project, Applied))
      && (p in With(logs, logs.Keys, Reject)
          <==> p in HeadsIn(db, project, ReviewStatus.Rejected) && p !in RejectedByDecision(db, project))
  {
    var logs := Proposals(db, project);
    assert p in With(logs, logs.Keys, Apply) <==> InProject(db, project, p) && LastIs(Rows(db.events, p), Apply) by {
      CountedExactly(db, project, p, Apply);
    }
    assert p in With(logs, logs.Keys, Reject) <==> InProject(db, project, p) && LastIs(Rows(db.events, p), Reject) by {
      CountedExactly(db, project, p, Reject);
    }
    assert HeadOk(db.heads[p], Rows(db.events, p));
    ClosedBy(db.heads[p], Rows(db.events, p));
  }

  lemma DifferenceSize<T>(whole: set<T>, part: set<T>)
    requires part <= whole
    ensures |whole - part| == |whole| - |part|
  {
    assert whole == (whole - part) + part;
  }

  /**
   `proposals_with_acceptance` counts the applied proposals, all of them. `proposals_with_rejection`
   counts the rejected proposals less those that a decision rejected.
   */
  lemma CountsExactly(db: Database, project: string)
    requires HeadsKept(db)
    ensures Metrics(Proposals(db, project)).accepted == |HeadsIn(db, project, Applied)|
    ensures Metrics(Proposals(db, project)).withRejection
      == |HeadsIn(db, project, ReviewStatus.Rejected)| - |RejectedByDecision(db, project)|
  {
    CountedSets(db, project);
    DifferenceSize(HeadsIn(db, project, ReviewStatus.Rejected), RejectedByDecision(db, project));
  }

  // ----- A proposal rejected by a decision

  const REVIEW_BUNDLE := Bundle(
    "r", Run(RunColumns("i", "p", "c", Some("k"), Some("x"), Some("stop"), None, ""), OperationState.Review, "t"),
    Some(NewPacket("k", Packet("i", "p", "c", "{}"))),
    [NewLifecycleEvent(Draft, Compiling, "t", None), NewLifecycleEvent(Compiling, Preflight, "t", None),
     NewLifecycleEvent(Preflight, Queued, "t", None), NewLifecycleEvent(Queued, Streaming, "t", None),
     NewLifecycleEvent(Streaming, Validating, "t", None), NewLifecycleEvent(Validating, OperationState.Review, "t", None)],
    [], Some(NewArtifact("a", PatchProposal, "{}", "t")), true)

  const REJECT_HUNK := ReviewCommand(
    "e", "a", 0, ReviewStatus.Review, Decision, ReviewStatus.Rejected, Some("h"), Some(RejectHunk), None, "t", true)

  const REJECTING := [NewCommit("c", "p"), Persist(REVIEW_BUNDLE), Append(REJECT_HUNK)]

  const COMMITTED := EMPTY.(commits := map["c" := "p"])

  lemma ReviewBundleStored()
    ensures PersistOutcome(COMMITTED, REVIEW_BUNDLE) == Success(Stored(COMMITTED, REVIEW_BUNDLE))
  {
    ShortText();
  }

  lemma HunkRejected(stored: Database)
    requires stored == Stored(COMMITTED, REVIEW_BUNDLE)
    ensures "a" in stored.heads && stored.heads["a"].run in stored.runs
    ensures AppendOutcome(stored, REJECT_HUNK) == Success(Reviewed(stored, REJECT_HUNK))
  {
    assert REVIEW_BUNDLE.artifact.value.id == "a" && ProposalOf(REVIEW_BUNDLE) == Some("a");
  }

  lemma RejectedByHunk(stored: Database)
    requires stored == Stored(COMMITTED, REVIEW_BUNDLE) && "a" in stored.heads && stored.heads["a"].run in stored.runs
    ensures var db := Reviewed(stored, REJECT_HUNK);
      && InProject(db, "p", "a") && db.heads["a"].status == ReviewStatus.Rejected
      && Rows(db.events, "a") == [NewReviewRow(stored, REJECT_HUNK)]
  {
    assert REVIEW_BUNDLE.artifact.value.id == "a" && ProposalOf(REVIEW_BUNDLE) == Some("a");
  }

  lemma RunOfThree(a: Command, b: Command, c: Command)
    ensures ExecuteAll(EMPTY, [a, b, c]) == Execute(Execute(Execute(EMPTY, a), b), c)
  {
    assert ExecuteAll(EMPTY, [a]) == Execute(EMPTY, a) by { assert [a][..0] == []; }
    assert ExecuteAll(EMPTY, [a, b]) == Execute(ExecuteAll(EMPTY, [a]), b) by { assert [a, b][..1] == [a]; }
    assert ExecuteAll(EMPTY, [a, b, c]) == Execute(ExecuteAll(EMPTY, [a, b]), c) by { assert [a, b, c][..2] == [a, b]; }
  }

  lemma RejectingRun(stored: Database)
    requires stored == Stored(COMMITTED, REVIEW_BUNDLE) && "a" in stored.heads && stored.heads["a"].run in stored.runs
    ensures ExecuteAll(EMPTY, REJECTING) == Reviewed(stored, REJECT_HUNK)
  {
    RunOfThree(NewCommit("c", "p"), Persist(REVIEW_BUNDLE), Append(REJECT_HUNK));
    assert Execute(EMPTY, NewCommit("c", "p")) == COMMITTED;
    ReviewBundleStored();
    HunkRejected(stored);
  }

  /** A run of the store whose proposal is rejected, in its project, without any reject event. */
  lemma RejectedWithoutEvent()
    ensures var db := ExecuteAll(EMPTY, REJECTING);
      && "a" in RejectedByDecision(db, "p")
      && forall row | row in Rows(db.events, "a") :: row.kind != Reject
  {
    var stored := Stored(COMMITTED, REVIEW_BUNDLE);
    HunkRejected(stored);
    RejectingRun(stored);
    RejectedByHunk(stored);
  }
}
