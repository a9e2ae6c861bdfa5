/**
 The client's compiler refines the host's. With distinct references and orders that agree on the
 candidates at hand, both produce the same plan, whatever order the candidates arrive in, and the
 host accepts the client's packet.
 */
module ContextRefinement {
  import opened Common
  import opened ContextModel
  import opened ContextAllocation
  import opened ContextHost
  import opened ContextCheck
  import opened ContextClient
  import opened Sorting
  import Lex

  /** Both sides order these candidates, and the references of all candidates, alike. */
  ghost predicate OrdersAgree(locale: Locale, cs: seq<Candidate>, locality: Locality) {
    && (forall x, y | x in Eligible(cs, locality) && y in Eligible(cs, locality) ::
          CandidateLe(RawScore, locale, x, y) <==> HostLe(x, y))
    && (forall x, y | x in cs && y in cs :: locale(x.sourceRef, y.sourceRef) <==> Lex.Le(x.sourceRef, y.sourceRef))
  }

  // ----- Sorting with agreeing comparators

  /** Two comparators that agree on the elements sort them alike. */
  lemma {:induction false} InsertAgree<T>(le1: (T, T) -> bool, le2: (T, T) -> bool, x: T, s: seq<T>)
    requires forall a, b | a in [x] + s && b in [x] + s :: le1(a, b) <==> le2(a, b)
    ensures Insert(le1, x, s) == Insert(le2, x, s)
  {
    if s != [] {
      assert x in [x] + s && s[0] in [x] + s;
      forall a | a in [x] + s[1..] ensures a in [x] + s { }
      InsertAgree(le1, le2, x, s[1..]);
    }
  }

  lemma {:induction false} SortsAgree<T(!new)>(le1: (T, T) -> bool, le2: (T, T) -> bool, s: seq<T>)
    requires forall a, b | a in s && b in s :: le1(a, b) <==> le2(a, b)
    ensures SortBy(le1, s) == SortBy(le2, s)
  {
    if s != [] {
      SortsAgree(le1, le2, s[1..]);
      SortByMembers(le2, s[1..]);
      var t := SortBy(le2, s[1..]);
      forall a | a in [s[0]] + t ensures a in s { assert a == s[0] || a in s[1..]; }
      InsertAgree(le1, le2, s[0], t);
    }
  }

  /** Without ties, comparators that sort a list alike agree on its elements. */
  lemma AgreeIfSortedAlike<T(!new)>(le1: (T, T) -> bool, le2: (T, T) -> bool, s: seq<T>, x: T, y: T)
    requires Ordering(le1) && Ordering(le2) && NoTies(le1, s) && NoTies(le2, s)
    requires SortBy(le1, s) == SortBy(le2, s) && x in s && y in s
    ensures le1(x, y) <==> le2(x, y)
  {
    var t := SortBy(le1, s);
    SortBySorts(le1, s);
    SortBySorts(le2, s);
    SortByMembers(le1, s);
    var i :| 0 <= i < |t| && t[i] == x;
    var j :| 0 <= j < |t| && t[j] == y;
    if i < j {
      assert le1(x, y) && le2(x, y);
    } else if j < i {
      assert le1(y, x) && le2(y, x);
      assert le1(x, y) ==> x == y;
      assert le2(x, y) ==> x == y;
      assert le1(x, x) && le2(x, x);
    } else {
      assert le1(x, x) && le2(x, x);
    }
  }

  // ----- Candidates that differ in their references do not tie

  lemma RefIdentifies(cs: seq<Candidate>, x: Candidate, y: Candidate)
    requires DistinctRefs(cs) && x in cs && y in cs && x.sourceRef == y.sourceRef
    ensures x == y
  {
    var i :| 0 <= i < |cs| && cs[i] == x;
    var j :| 0 <= j < |cs| && cs[j] == y;
    assert i == j;
  }

  lemma NoCandidateTies(score: Candidate -> real, sle: (string, string) -> bool, cs: seq<Candidate>, xs: seq<Candidate>)
    requires DistinctRefs(cs) && StringOrder(sle) && forall c | c in xs :: c in cs
    ensures NoTies((x, y) => CandidateLe(score, sle, x, y), xs)
    ensures NoTies((x, y) => PacketLe(score, sle, x, y), xs)
  {
    forall x, y | x in xs && y in xs && CandidateLe(score, sle, x, y) && CandidateLe(score, sle, y, x)
      ensures x == y
    {
      assert x.sourceRef == y.sourceRef;
      RefIdentifies(cs, x, y);
    }
    forall x, y | x in xs && y in xs && PacketLe(score, sle, x, y) && PacketLe(score, sle, y, x)
      ensures x == y
    {
      assert x.sourceRef == y.sourceRef;
      RefIdentifies(cs, x, y);
    }
  }

  lemma LexIsStringOrder()
    ensures StringOrder(Lex.Le)
  {
    Lex.IsOrdering();
  }

  /** Reordering keeps references distinct. */
  lemma {:induction false} RefsOfPermutation(cs: seq<Candidate>, cs': seq<Candidate>)
    requires DistinctRefs(cs) && multiset(cs) == multiset(cs')
    ensures DistinctRefs(cs')
  {
    SameMembers(cs, cs');
    assert NoRepeats(cs);
    PermutationNoRepeats(cs, cs');
    forall i, j | 0 <= i < j < |cs'|
      ensures cs'[i].sourceRef != cs'[j].sourceRef
    {
      if cs'[i].sourceRef == cs'[j].sourceRef { RefIdentifies(cs, cs'[i], cs'[j]); }
    }
  }

  lemma RefsGiveKeys(cs: seq<Candidate>, sha: string -> string)
    requires DistinctRefs(cs) && Hashed(cs, sha)
    ensures DistinctKeys(cs)
  {
    forall i, j | 0 <= i < j < |cs|
      ensures KeyOf(cs[i]) != KeyOf(cs[j])
    {
      if KeyOf(cs[i]) == KeyOf(cs[j]) {
        IdentityInjective(cs[i].sourceRef, cs[i].sourceHash, cs[j].sourceRef, cs[j].sourceHash);
      }
    }
  }

  // ----- The scored lists

  lemma {:induction false} EligibleCount(cs: seq<Candidate>, locality: Locality, c: Candidate)
    ensures multiset(Eligible(cs, locality))[c] == if RequiredExclusion(c, locality) == None then multiset(cs)[c] else 0
  {
    if cs != [] {
      assert cs == cs[..|cs| - 1] + [cs[|cs| - 1]];
      EligibleCount(cs[..|cs| - 1], locality, c);
    }
  }

  lemma EligibleOfPermutation(cs: seq<Candidate>, cs': seq<Candidate>, locality: Locality)
    requires multiset(cs) == multiset(cs')
    ensures multiset(Eligible(cs, locality)) == multiset(Eligible(cs', locality))
  {
    forall c
      ensures multiset(Eligible(cs, locality))[c] == multiset(Eligible(cs', locality))[c]
    {
      EligibleCount(cs, locality, c);
      EligibleCount(cs', locality, c);
    }
  }

  /** Agreeing orders put the candidates in one order, however each side received them. */
  lemma ScoredAlike(cs: seq<Candidate>, cs': seq<Candidate>, locality: Locality, locale: Locale)
    requires DistinctRefs(cs) && multiset(cs) == multiset(cs') && StringOrder(locale) && OrdersAgree(locale, cs, locality)
    ensures ClientScored(cs', locality, locale) == Scored(cs, locality)
  {
    var e, e' := Eligible(cs, locality), Eligible(cs', locality);
    EligibleOfPermutation(cs, cs', locality);
    EligibleMembers(cs, locality);
    CandidateOrdering(RawScore, locale);
    NoCandidateTies(RawScore, locale, cs, e);
    SortByPermutation(ClientLe(locale), e, e');
    SortsAgree(ClientLe(locale), HostLe, e);
  }

  lemma LastIsNew(cs: seq<Candidate>)
    requires DistinctRefs(cs) && cs != []
    ensures DuplicateKey(cs[|cs| - 1]) !in SeenKeys(cs[..|cs| - 1])
  {
    var init, last := cs[..|cs| - 1], cs[|cs| - 1];
    forall c | c in init ensures c.sourceRef != last.sourceRef {
      var i :| 0 <= i < |init| && init[i] == c;
      assert cs[i] == c;
    }
  }

  lemma {:induction false} AllUnique(cs: seq<Candidate>)
    requires DistinctRefs(cs)
    ensures Unique(cs) == cs
  {
    if cs != [] {
      var init, last := cs[..|cs| - 1], cs[|cs| - 1];
      AllUnique(init);
      LastIsNew(cs);
      assert Unique(cs) == init + [last];
    }
  }

  lemma {:induction false} NoDuplicates(cs: seq<Candidate>)
    requires DistinctRefs(cs)
    ensures Duplicates(cs) == []
  {
    if cs != [] {
      NoDuplicates(cs[..|cs| - 1]);
      LastIsNew(cs);
    }
  }

  /** Distinct references leave nothing to deduplicate. */
  lemma NothingDuplicate(cs: seq<Candidate>)
    requires DistinctRefs(cs)
    ensures Unique(cs) == cs && Duplicates(cs) == []
  {
    AllUnique(cs);
    NoDuplicates(cs);
  }

  lemma ScoredRefs(cs: seq<Candidate>, locality: Locality)
    requires DistinctRefs(cs)
    ensures DistinctRefs(Scored(cs, locality))
  {
    var e, s := Eligible(cs, locality), Scored(cs, locality);
    ScoredMembers(cs, locality);
    assert NoRepeats(cs);
    EligibleSubset(cs, locality);
    PermutationNoRepeats(cs, s);
    forall i, j | 0 <= i < j < |s|
      ensures s[i].sourceRef != s[j].sourceRef
    {
      if s[i].sourceRef == s[j].sourceRef { RefIdentifies(cs, s[i], s[j]); }
    }
  }

  lemma EligibleSubset(cs: seq<Candidate>, locality: Locality)
    ensures multiset(Scored(cs, locality)) <= multiset(cs)
  {
    forall c ensures multiset(Scored(cs, locality))[c] <= multiset(cs)[c] {
      EligibleCount(cs, locality, c);
    }
  }

  lemma LedgerAlike(cs: seq<Candidate>, cs': seq<Candidate>, locality: Locality, op: OperationType, budget: nat, locale: Locale)
    requires DistinctRefs(cs) && multiset(cs) == multiset(cs') && StringOrder(locale) && OrdersAgree(locale, cs, locality)
    ensures Unique(ClientScored(cs', locality, locale)) == Scored(cs, locality)
    ensures Duplicates(ClientScored(cs', locality, locale)) == []
    ensures ClientLedger(cs', locality, op, budget, locale) == HostLedger(cs, locality, op, budget)
  {
    ScoredAlike(cs, cs', locality, locale);
    ScoredRefs(cs, locality);
    NothingDuplicate(Scored(cs, locality));
  }

  lemma SelectedAlike(cs: seq<Candidate>, locality: Locality, op: OperationType, budget: nat, locale: Locale)
    requires OrdersAgree(locale, cs, locality)
    ensures var l := HostLedger(cs, locality, op, budget);
      SortBy(ClientPacketLe(locale), l.selected) == SortBy(HostPacketLe, l.selected)
  {
    var l := HostLedger(cs, locality, op, budget);
    LedgerSettles(cs, locality, op, budget);
    EligibleMembers(cs, locality);
    SortsAgree(ClientPacketLe(locale), HostPacketLe, l.selected);
  }

  // ----- The exclusions

  /** A list of exclusions that says why candidates of cs are left out, each candidate once at most. */
  ghost predicate Accounts(xs: seq<Exclusion>, cs: seq<Candidate>, locality: Locality, l: Ledger) {
    && NoRepeats(xs)
    && (forall x | x in xs ::
          exists c :: c in cs && ReasonOf(c, locality, l) == Some(x.reason) && x == ExclusionOf(c, x.reason))
    && (forall c | c in cs && ReasonOf(c, locality, l).Some? :: ExclusionOf(c, ReasonOf(c, locality, l).value) in xs)
  }

  lemma HostAccounts(cs: seq<Candidate>, locality: Locality, l: Ledger)
    requires DistinctRefs(cs)
    ensures Accounts(LeftOut(cs, locality, l), cs, locality, l)
  {
    LeftOutMembers(cs, locality, l);
    LeftOutNoRepeats(cs, locality, l);
    forall x | x in LeftOut(cs, locality, l)
      ensures exists c :: c in cs && ReasonOf(c, locality, l) == Some(x.reason) && x == ExclusionOf(c, x.reason)
    {
      var c :| c in cs && ReasonOf(c, locality, l) == Some(x.reason) && x.sourceRef == c.sourceRef && x.sourceHash == c.sourceHash;
      assert x == ExclusionOf(c, x.reason);
    }
  }

  lemma {:induction false} RequiredListMembers(cs: seq<Candidate>, locality: Locality)
    ensures forall x | x in RequiredList(cs, locality) ::
      exists c :: c in cs && RequiredExclusion(c, locality) == Some(x.reason) && x == ExclusionOf(c, x.reason)
    ensures forall c | c in cs && RequiredExclusion(c, locality).Some? ::
      ExclusionOf(c, RequiredExclusion(c, locality).value) in RequiredList(cs, locality)
  {
    if cs != [] {
      var init, last := cs[..|cs| - 1], cs[|cs| - 1];
      assert cs == init + [last];
      RequiredListMembers(init, locality);
    }
  }

  lemma {:induction false} RequiredListNoRepeats(cs: seq<Candidate>, locality: Locality)
    requires DistinctRefs(cs)
    ensures NoRepeats(RequiredList(cs, locality))
  {
    if cs != [] {
      var init, last := cs[..|cs| - 1], cs[|cs| - 1];
      RequiredListNoRepeats(init, locality);
      RequiredListMembers(init, locality);
      forall x | x in RequiredList(init, locality) ensures x.sourceRef != last.sourceRef {
        var c :| c in init && x == ExclusionOf(c, x.reason);
        var k :| 0 <= k < |init| && init[k] == c;
        assert cs[k] == c;
      }
    }
  }

  /** The ledger settles the eligible candidates: each is selected or dropped, not both, none dropped twice. */
  ghost predicate Splits(cs: seq<Candidate>, locality: Locality, l: Ledger) {
    && NoRepeats(l.dropped)
    && (forall c :: c in l.selected ==> c in cs && RequiredExclusion(c, locality) == None)
    && (forall c :: c in l.dropped <==> c in cs && RequiredExclusion(c, locality) == None && c !in l.selected)
  }

  /** However a list of the eligible candidates is ordered, allocating it splits it. */
  lemma AllocateSplits(cs: seq<Candidate>, s: seq<Candidate>, locality: Locality, caps: seq<nat>, budget: nat)
    requires DistinctRefs(cs) && multiset(s) == multiset(Eligible(cs, locality)) && |caps| == TIERS
    ensures Splits(cs, locality, Allocate(s, caps, budget, true))
  {
    var l := Allocate(s, caps, budget, true);
    EligibleMembers(cs, locality);
    SameMembers(s, Eligible(cs, locality));
    EligibleSubset(cs, locality);
    assert NoRepeats(cs);
    PermutationNoRepeats(cs, s);
    AllocatePlaces(s, caps, budget, true);
    SettledSplits(s, l);
  }

  lemma SettledSplits(s: seq<Candidate>, l: Ledger)
    requires NoRepeats(s) && Settled(l) == multiset(s)
    ensures NoRepeats(l.dropped)
    ensures forall c :: c in l.selected ==> c in s
    ensures forall c :: c in l.dropped <==> c in s && c !in l.selected
  {
    PermutationNoRepeats(s, l.dropped);
    NoRepeatsOnce(s);
    forall c
      ensures c in l.selected ==> c in s
      ensures c in l.dropped <==> c in s && c !in l.selected
    {
      assert multiset(s)[c] == multiset(l.selected)[c] + multiset(l.dropped)[c];
      assert multiset(s)[c] <= 1;
    }
  }

  lemma HostSplits(cs: seq<Candidate>, locality: Locality, op: OperationType, budget: nat)
    requires DistinctRefs(cs)
    ensures Splits(cs, locality, HostLedger(cs, locality, op, budget))
  {
    AllocateSplits(cs, Scored(cs, locality), locality, TierCaps(op, budget), budget);
  }

  /** What the client lists before it sorts. */
  function ClientLeftOut(cs: seq<Candidate>, locality: Locality, l: Ledger): seq<Exclusion> {
    RequiredList(cs, locality) + DroppedList(l.dropped, "TOTAL_BUDGET")
  }

  lemma ClientLeftOutNoRepeats(cs: seq<Candidate>, cs': seq<Candidate>, locality: Locality, l: Ledger)
    requires DistinctRefs(cs) && multiset(cs) == multiset(cs') && Splits(cs, locality, l)
    ensures NoRepeats(ClientLeftOut(cs', locality, l))
  {
    RefsOfPermutation(cs, cs');
    SameMembers(cs, cs');
    RequiredListNoRepeats(cs', locality);
    RequiredListMembers(cs', locality);
    forall i, j | 0 <= i < j < |l.dropped|
      ensures l.dropped[i].sourceRef != l.dropped[j].sourceRef
    {
      if l.dropped[i].sourceRef == l.dropped[j].sourceRef { RefIdentifies(cs, l.dropped[i], l.dropped[j]); }
    }
    forall x, d | x in RequiredList(cs', locality) && d in l.dropped
      ensures x.sourceRef != d.sourceRef
    {
      var c :| c in cs' && RequiredExclusion(c, locality) == Some(x.reason) && x == ExclusionOf(c, x.reason);
      if c.sourceRef == d.sourceRef { RefIdentifies(cs, c, d); }
    }
  }

  lemma ClientAccounts(cs: seq<Candidate>, cs': seq<Candidate>, locality: Locality, l: Ledger)
    requires DistinctRefs(cs) && multiset(cs) == multiset(cs') && Splits(cs, locality, l)
    ensures Accounts(ClientLeftOut(cs', locality, l), cs, locality, l)
  {
    var xs := ClientLeftOut(cs', locality, l);
    ClientLeftOutNoRepeats(cs, cs', locality, l);
    SameMembers(cs, cs');
    RequiredListMembers(cs', locality);
    forall x | x in xs
      ensures exists c :: c in cs && ReasonOf(c, locality, l) == Some(x.reason) && x == ExclusionOf(c, x.reason)
    {
      if x in RequiredList(cs', locality) {
        var c :| c in cs' && RequiredExclusion(c, locality) == Some(x.reason) && x == ExclusionOf(c, x.reason);
        assert c in cs;
      } else {
        var i :| 0 <= i < |l.dropped| && x == ExclusionOf(l.dropped[i], "TOTAL_BUDGET");
        assert l.dropped[i] in l.dropped;
      }
    }
    forall c | c in cs && ReasonOf(c, locality, l).Some?
      ensures ExclusionOf(c, ReasonOf(c, locality, l).value) in xs
    {
      if RequiredExclusion(c, locality) == None {
        var i :| 0 <= i < |l.dropped| && l.dropped[i] == c;
        assert DroppedList(l.dropped, "TOTAL_BUDGET")[i] == ExclusionOf(c, "TOTAL_BUDGET");
      }
    }
  }

  lemma AccountsSame(xs: seq<Exclusion>, ys: seq<Exclusion>, cs: seq<Candidate>, locality: Locality, l: Ledger)
    requires Accounts(xs, cs, locality, l) && Accounts(ys, cs, locality, l)
    ensures multiset(xs) == multiset(ys)
  {
    forall x ensures x in xs <==> x in ys {
      if x in xs {
        var c :| c in cs && ReasonOf(c, locality, l) == Some(x.reason) && x == ExclusionOf(c, x.reason);
      }
      if x in ys {
        var c :| c in cs && ReasonOf(c, locality, l) == Some(x.reason) && x == ExclusionOf(c, x.reason);
      }
    }
    SameBag(xs, ys);
  }

  lemma ExclusionOrdering(locale: Locale)
    requires StringOrder(locale)
    ensures Ordering(ClientExclusionLe(locale))
  {
    forall x, y, z | ExclusionLe(locale, x, y) && ExclusionLe(locale, y, z) ensures ExclusionLe(locale, x, z) { }
  }

  lemma NoExclusionTies(xs: seq<Exclusion>, cs: seq<Candidate>, locality: Locality, l: Ledger, locale: Locale)
    requires DistinctRefs(cs) && StringOrder(locale) && Accounts(xs, cs, locality, l)
    ensures NoTies(ClientExclusionLe(locale), xs)
    ensures forall x, y | x in xs && y in xs && x.sourceRef == y.sourceRef :: x == y
  {
    forall x, y | x in xs && y in xs && x.sourceRef == y.sourceRef
      ensures x == y
    {
      var c :| c in cs && ReasonOf(c, locality, l) == Some(x.reason) && x == ExclusionOf(c, x.reason);
      var d :| d in cs && ReasonOf(d, locality, l) == Some(y.reason) && y == ExclusionOf(d, y.reason);
      RefIdentifies(cs, c, d);
    }
  }

  /** Agreeing orders sort the exclusions of both sides into one list. */
  lemma ExclusionsAlike(xs: seq<Exclusion>, ys: seq<Exclusion>, cs: seq<Candidate>, locality: Locality, l: Ledger, locale: Locale)
    requires DistinctRefs(cs) && StringOrder(locale) && OrdersAgree(locale, cs, locality)
    requires Accounts(xs, cs, locality, l) && Accounts(ys, cs, locality, l)
    ensures SortBy(ClientExclusionLe(locale), ys) == SortBy(HostExclusionLe, xs)
  {
    AccountsSame(xs, ys, cs, locality, l);
    ExclusionOrdering(locale);
    NoExclusionTies(xs, cs, locality, l, locale);
    SortByPermutation(ClientExclusionLe(locale), xs, ys);
    forall x, y | x in xs && y in xs
      ensures ClientExclusionLe(locale)(x, y) <==> HostExclusionLe(x, y)
    {
      ExclusionRefsAgree(xs, cs, locality, l, locale, x, y);
    }
    SortsAgree(ClientExclusionLe(locale), HostExclusionLe, xs);
  }

  lemma ExclusionRefsAgree(xs: seq<Exclusion>, cs: seq<Candidate>, locality: Locality, l: Ledger, locale: Locale, x: Exclusion, y: Exclusion)
    requires DistinctRefs(cs) && StringOrder(locale) && OrdersAgree(locale, cs, locality)
    requires Accounts(xs, cs, locality, l) && x in xs && y in xs
    ensures ExclusionLe(locale, x, y) <==> ExclusionLe(Lex.Le, x, y)
  {
    NoExclusionTies(xs, cs, locality, l, locale);
    if x.sourceRef == y.sourceRef {
      Lex.Total(x.reason, x.reason);
    } else {
      var c :| c in cs && ReasonOf(c, locality, l) == Some(x.reason) && x == ExclusionOf(c, x.reason);
      var d :| d in cs && ReasonOf(d, locality, l) == Some(y.reason) && y == ExclusionOf(d, y.reason);
    }
  }

  // ----- The refinement

  lemma TargetAlike(cs: seq<Candidate>, locality: Locality)
    ensures HasTarget(Scored(cs, locality)) <==> HasTarget(Eligible(cs, locality))
  {
    SortByMembers(HostLe, Eligible(cs, locality));
  }

  lemma PlanAlike(cs: seq<Candidate>, cs': seq<Candidate>, locality: Locality, op: OperationType, budget: nat, locale: Locale)
    requires DistinctRefs(cs) && multiset(cs) == multiset(cs')
    requires StringOrder(locale) && OrdersAgree(locale, cs, locality)
    ensures var l := HostLedger(cs, locality, op, budget);
      HostPlan(cs, locality, op, budget)
        == Plan(SortBy(ClientPacketLe(locale), l.selected), SortBy(ClientExclusionLe(locale), ClientLeftOut(cs', locality, l)))
  {
    var l := HostLedger(cs, locality, op, budget);
    SelectedAlike(cs, locality, op, budget, locale);
    HostAccounts(cs, locality, l);
    HostSplits(cs, locality, op, budget);
    ClientAccounts(cs, cs', locality, l);
    ExclusionsAlike(LeftOut(cs, locality, l), ClientLeftOut(cs', locality, l), cs, locality, l, locale);
  }

  /** The client's plan when nothing is duplicate. */
  lemma ClientPlanShape(cs: seq<Candidate>, locality: Locality, op: OperationType, budget: nat, locale: Locale, u: seq<Candidate>, l: Ledger)
    requires u == Unique(ClientScored(cs, locality, locale)) && Duplicates(ClientScored(cs, locality, locale)) == []
    requires l == ClientLedger(cs, locality, op, budget, locale)
    ensures ClientPlan(cs, locality, op, budget, locale) ==
      if !HasTarget(u) then Failure(TargetMissing)
      else if TotalTokens(Mandatory(u)) > budget then Failure(BudgetExceeded)
      else Success(Plan(SortBy(ClientPacketLe(locale), l.selected), SortBy(ClientExclusionLe(locale), ClientLeftOut(cs, locality, l))))
  {
    assert RequiredList(cs, locality) + [] == RequiredList(cs, locality);
  }

  /**
   The client computes the host's plan. Its only other outcomes are that no eligible candidate is a
   target, and that the mandatory candidates do not fit, which the host rejects as well.
   */
  lemma ClientRefinesHost(cs: seq<Candidate>, cs': seq<Candidate>, locality: Locality, op: OperationType, budget: nat, locale: Locale)
    requires DistinctRefs(cs) && multiset(cs) == multiset(cs')
    requires StringOrder(locale) && OrdersAgree(locale, cs, locality)
    ensures ClientPlan(cs', locality, op, budget, locale) ==
      if !HasTarget(Eligible(cs, locality)) then Failure(TargetMissing)
      else if !MandatoryFits(cs, locality, budget) then Failure(BudgetExceeded)
      else Success(HostPlan(cs, locality, op, budget))
  {
    LedgerAlike(cs, cs', locality, op, budget, locale);
    ClientPlanShape(cs', locality, op, budget, locale, Scored(cs, locality), HostLedger(cs, locality, op, budget));
    TargetAlike(cs, locality);
    PlanAlike(cs, cs', locality, op, budget, locale);
  }

  /** The item the client writes for a selected candidate. */
  function ItemOf(c: Candidate): Item {
    Item(c.id, c.sourceRef, c.sourceHash, c.tier, c.status, c.authority, c.sensitivity, c.renderMode, c.reasonCodes,
         Tokens(c), HostScore(c), c.mandatory, c.content)
  }

  function PacketOf(plan: Plan, locality: Locality, budget: nat): Packet {
    Packet(locality, seq(|plan.selected|, i requires 0 <= i < |plan.selected| => ItemOf(plan.selected[i])), plan.exclusions,
           budget, TotalTokens(plan.selected))
  }

  lemma HostPlanMatches(cs: seq<Candidate>, locality: Locality, op: OperationType, budget: nat, sha: string -> string, shape: Item -> bool)
    requires Hashed(cs, sha) && forall c | c in cs :: shape(ItemOf(c))
    ensures var plan := HostPlan(cs, locality, op, budget);
      ElementsMatch(PacketOf(plan, locality, budget), plan, sha, shape)
  {
    HostPlanIsPlan(cs, locality, op, budget);
    PacketMatches(HostPlan(cs, locality, op, budget), cs, locality, budget, sha, shape);
  }

  lemma PacketMatches(plan: Plan, cs: seq<Candidate>, locality: Locality, budget: nat, sha: string -> string, shape: Item -> bool)
    requires Hashed(cs, sha) && (forall c | c in cs :: shape(ItemOf(c))) && forall c | c in plan.selected :: c in cs
    ensures ElementsMatch(PacketOf(plan, locality, budget), plan, sha, shape)
  {
    forall c | c in plan.selected ensures ItemMatches(ItemOf(c), c, sha, shape) { }
    assert forall k | 0 <= k < |plan.selected| :: plan.selected[k] in plan.selected;
  }

  // ----- Packets the host accepts

  lemma TargetsSnoc(cs: seq<Candidate>, c: Candidate)
    ensures CountTargets(cs + [c]) == CountTargets(cs) + CountTargets([c])
  {
    assert (cs + [c])[..|cs|] == cs && [c][..0] == [];
  }

  lemma {:induction false} TargetsConcat(x: seq<Candidate>, y: seq<Candidate>)
    ensures CountTargets(x + y) == CountTargets(x) + CountTargets(y)
  {
    if y == [] {
      assert x + y == x;
    } else {
      var init, last := y[..|y| - 1], y[|y| - 1];
      assert x + y == (x + init) + [last] && y == init + [last];
      TargetsConcat(x, init);
      TargetsSnoc(x + init, last);
      TargetsSnoc(init, last);
    }
  }

  lemma RemoveAtTargets(t: seq<Candidate>, i: nat)
    requires i < |t|
    ensures CountTargets(t) == CountTargets(t[..i] + t[i + 1..]) + CountTargets([t[i]])
  {
    SplitAt(t, i);
    TargetsConcat(t[..i] + [t[i]], t[i + 1..]);
    TargetsSnoc(t[..i], t[i]);
    TargetsConcat(t[..i], t[i + 1..]);
  }

  lemma {:induction false} TargetsOfPermutation(s: seq<Candidate>, t: seq<Candidate>)
    requires multiset(s) == multiset(t)
    ensures CountTargets(s) == CountTargets(t)
    decreases |s|
  {
    SameMembers(s, t);
    if s != [] {
      var init, last := s[..|s| - 1], s[|s| - 1];
      assert s == init + [last];
      assert last in s;
      var i :| 0 <= i < |t| && t[i] == last;
      RemoveAtBag(t, i);
      RemoveAtTargets(t, i);
      assert multiset(init) == multiset(s) - multiset{last};
      TargetsOfPermutation(init, t[..i] + t[i + 1..]);
      TargetsSnoc(init, last);
    }
  }

  lemma {:induction false} NoTargets(cs: seq<Candidate>)
    requires OptionalOnly(cs)
    ensures CountTargets(cs) == 0
  {
    if cs != [] { NoTargets(cs[..|cs| - 1]); }
  }

  /** The mandatory targets of the plan are those that are eligible. */
  lemma TargetsSelected(cs: seq<Candidate>, locality: Locality, op: OperationType, budget: nat)
    ensures CountTargets(HostPlan(cs, locality, op, budget).selected) == CountTargets(Eligible(cs, locality))
  {
    var s, l := Scored(cs, locality), HostLedger(cs, locality, op, budget);
    AllocatePlaces(s, TierCaps(op, budget), budget, true);
    AllocateDropsOptional(s, TierCaps(op, budget), budget, true);
    NoTargets(l.dropped);
    TargetsConcat(l.selected, l.dropped);
    TargetsOfPermutation(l.selected + l.dropped, s);
    TargetsOfPermutation(s, Eligible(cs, locality));
    TargetsOfPermutation(HostPlan(cs, locality, op, budget).selected, l.selected);
  }

  /**
   The host accepts the packet the client builds, from the same candidates in any order, exactly when
   one mandatory target is eligible.
   */
  lemma ClientPacketAccepted(cs: seq<Candidate>, cs': seq<Candidate>, locality: Locality, operation: string, budget: nat,
                             locale: Locale, sha: string -> string, shape: Item -> bool)
    requires Hashed(cs, sha) && DistinctRefs(cs) && multiset(cs) == multiset(cs') && OperationOf(operation).Some?
    requires StringOrder(locale) && OrdersAgree(locale, cs, locality)
    requires forall c | c in cs :: shape(ItemOf(c))
    requires ClientPlan(cs', locality, OperationOf(operation).value, budget, locale).Success?
    ensures var plan := ClientPlan(cs', locality, OperationOf(operation).value, budget, locale).value;
      Accepts(PacketOf(plan, locality, budget), cs, operation, sha, shape) <==> CountTargets(Eligible(cs, locality)) == 1
  {
    var op := OperationOf(operation).value;
    RefsGiveKeys(cs, sha);
    ClientRefinesHost(cs, cs', locality, op, budget, locale);
    HostPlanMatches(cs, locality, op, budget, sha, shape);
    TargetsSelected(cs, locality, op, budget);
  }

  /**
   The packet built from the host's own compilation is accepted exactly when no two candidates have one
   identity, the mandatory candidates fit, and one mandatory target is eligible.
   */
  lemma HostPacketAccepted(cs: seq<Candidate>, locality: Locality, operation: string, budget: nat, sha: string -> string, shape: Item -> bool)
    requires Hashed(cs, sha) && OperationOf(operation).Some? && forall c | c in cs :: shape(ItemOf(c))
    ensures Accepts(PacketOf(HostPlan(cs, locality, OperationOf(operation).value, budget), locality, budget), cs, operation, sha, shape)
      <==> DistinctKeys(cs) && MandatoryFits(cs, locality, budget) && CountTargets(Eligible(cs, locality)) == 1
  {
    HostPlanMatches(cs, locality, OperationOf(operation).value, budget, sha, shape);
    TargetsSelected(cs, locality, OperationOf(operation).value, budget);
  }
}
