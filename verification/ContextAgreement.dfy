/**
 Where the two compilers agree and where they do not. The client sorts by raw scores and compares
 strings in its locale, the host sorts by rounded scores and compares code points: this module says
 exactly when that shows in the plan, and that it does not show in the scores the host itself emits.
 */
module ContextAgreement {
  import opened Common
  import opened ContextModel
  import opened ContextAllocation
  import opened ContextHost
  import opened ContextCheck
  import opened ContextClient
  import opened ContextRefinement
  import opened Sorting
  import Lex

  // ----- Tokens of a permutation

  lemma TokensOfParts(x: seq<Candidate>, c: Candidate, y: seq<Candidate>)
    ensures TotalTokens((x + [c]) + y) == TotalTokens(x + y) + Tokens(c)
  {
    TotalTokensConcat(x + [c], y);
    TotalTokensSnoc(x, c);
    TotalTokensConcat(x, y);
  }

  lemma RemoveAtTokens(t: seq<Candidate>, i: nat)
    requires i < |t|
    ensures TotalTokens(t) == TotalTokens(t[..i] + t[i + 1..]) + Tokens(t[i])
  {
    var x, c, y := t[..i], t[i], t[i + 1..];
    SplitAt(t, i);
    TokensOfParts(x, c, y);
  }

  lemma {:induction false} TokensOfPermutation(s: seq<Candidate>, t: seq<Candidate>)
    requires multiset(s) == multiset(t)
    ensures TotalTokens(s) == TotalTokens(t)
    decreases |s|
  {
    SameMembers(s, t);
    if s != [] {
      var init, last := s[..|s| - 1], s[|s| - 1];
      assert s == init + [last];
      assert last in s;
      var i :| 0 <= i < |t| && t[i] == last;
      RemoveAtBag(t, i);
      RemoveAtTokens(t, i);
      assert multiset(init) == multiset(s) - multiset{last};
      TokensOfPermutation(init, t[..i] + t[i + 1..]);
    }
  }

  lemma {:induction false} MandatoryCount(cs: seq<Candidate>, c: Candidate)
    ensures multiset(Mandatory(cs))[c] == if c.mandatory then multiset(cs)[c] else 0
  {
    if cs != [] {
      assert cs == cs[..|cs| - 1] + [cs[|cs| - 1]];
      MandatoryCount(cs[..|cs| - 1], c);
    }
  }

  lemma MandatoryOfPermutation(s: seq<Candidate>, t: seq<Candidate>)
    requires multiset(s) == multiset(t)
    ensures TotalTokens(Mandatory(s)) == TotalTokens(Mandatory(t))
  {
    forall c ensures multiset(Mandatory(s))[c] == multiset(Mandatory(t))[c] {
      MandatoryCount(s, c);
      MandatoryCount(t, c);
    }
    TokensOfPermutation(Mandatory(s), Mandatory(t));
  }

  lemma {:induction false} MandatoryTokens(cs: seq<Candidate>)
    ensures TotalTokens(Mandatory(cs)) <= TotalTokens(cs)
  {
    if cs != [] {
      MandatoryTokens(cs[..|cs| - 1]);
      if cs[|cs| - 1].mandatory {
        TotalTokensSnoc(Mandatory(cs[..|cs| - 1]), cs[|cs| - 1]);
        assert Mandatory(cs) == Mandatory(cs[..|cs| - 1]) + [cs[|cs| - 1]];
      } else {
        assert Mandatory(cs) == Mandatory(cs[..|cs| - 1]);
      }
    }
  }

  /** With room for everything the allocator selects everything. */
  lemma RoomForAll(cs: seq<Candidate>, caps: seq<nat>, budget: nat)
    requires |caps| == TIERS && TotalTokens(cs) <= budget
    ensures multiset(Allocate(cs, caps, budget, true).selected) == multiset(cs)
  {
    var l := Allocate(cs, caps, budget, true);
    MandatoryTokens(cs);
    AllocateGuarantees(cs, caps, budget);
    TokensOfPermutation(l.selected + l.dropped, cs);
    TotalTokensConcat(l.selected, l.dropped);
    NothingLeft(l.dropped, TotalTokens(l.selected), budget);
  }

  lemma LastCosts(cs: seq<Candidate>)
    ensures cs != [] ==> cs[|cs| - 1] in cs && TotalTokens(cs) >= Tokens(cs[|cs| - 1])
  {
  }

  /** A list that fits, none of whose members fits, is empty. */
  lemma NothingLeft(cs: seq<Candidate>, used: nat, budget: nat)
    requires used + TotalTokens(cs) <= budget && forall c | c in cs :: used + Tokens(c) > budget
    ensures cs == []
  {
    LastCosts(cs);
  }

  // ----- The client's plan, from any arrival order

  lemma ClientScoredBag(cs: seq<Candidate>, cs': seq<Candidate>, locality: Locality, locale: Locale)
    requires DistinctRefs(cs) && multiset(cs) == multiset(cs')
    ensures var s := ClientScored(cs', locality, locale);
      multiset(s) == multiset(Eligible(cs, locality)) && Unique(s) == s && Duplicates(s) == []
  {
    var s := ClientScored(cs', locality, locale);
    EligibleOfPermutation(cs, cs', locality);
    ScoredRefs(cs, locality);
    RefsOfPermutation(Scored(cs, locality), s);
    NothingDuplicate(s);
  }

  /** When the client has a plan, and what it consists of. */
  lemma ClientPlanParts(cs: seq<Candidate>, cs': seq<Candidate>, locality: Locality, op: OperationType, budget: nat, locale: Locale)
    requires DistinctRefs(cs) && multiset(cs) == multiset(cs')
    ensures ClientPlan(cs', locality, op, budget, locale).Success?
      <==> HasTarget(Eligible(cs, locality)) && MandatoryFits(cs, locality, budget)
    ensures var r, l := ClientPlan(cs', locality, op, budget, locale), ClientLedger(cs', locality, op, budget, locale);
      r.Success? ==>
        && r.value.selected == SortBy(ClientPacketLe(locale), l.selected)
        && r.value.exclusions == SortBy(ClientExclusionLe(locale), ClientLeftOut(cs', locality, l))
  {
    var s := ClientScored(cs', locality, locale);
    ClientScoredBag(cs, cs', locality, locale);
    ClientPlanShape(cs', locality, op, budget, locale, s, ClientLedger(cs', locality, op, budget, locale));
    SameMembers(s, Eligible(cs, locality));
    MandatoryOfPermutation(s, Scored(cs, locality));
  }

  lemma ClientSplits(cs: seq<Candidate>, cs': seq<Candidate>, locality: Locality, op: OperationType, budget: nat, locale: Locale)
    requires DistinctRefs(cs) && multiset(cs) == multiset(cs')
    ensures Splits(cs, locality, ClientLedger(cs', locality, op, budget, locale))
  {
    ClientScoredBag(cs, cs', locality, locale);
    AllocateSplits(cs, ClientScored(cs', locality, locale), locality, TierCaps(op, budget), budget);
  }

  // ----- Sorting alike and ordering alike

  lemma HostOrderings()
    ensures Ordering(HostLe) && Ordering(HostPacketLe)
  {
    LexIsStringOrder();
    CandidateOrdering(HostScore, Lex.Le);
    var le, ple := (x, y) => CandidateLe(HostScore, Lex.Le, x, y), (x, y) => PacketLe(HostScore, Lex.Le, x, y);
    assert Ordering(le) && Ordering(ple);
    forall x, y ensures HostLe(x, y) == le(x, y) && HostPacketLe(x, y) == ple(x, y) { }
  }

  lemma HostNoTies(cs: seq<Candidate>, xs: seq<Candidate>)
    requires DistinctRefs(cs) && forall c | c in xs :: c in cs
    ensures NoTies(HostPacketLe, xs)
  {
    LexIsStringOrder();
    NoCandidateTies(HostScore, Lex.Le, cs, xs);
    var ple := (x, y) => PacketLe(HostScore, Lex.Le, x, y);
    assert NoTies(ple, xs);
    forall x, y | x in xs && y in xs && HostPacketLe(x, y) && HostPacketLe(y, x) ensures x == y {
      assert ple(x, y) && ple(y, x);
    }
  }

  /**
   Nothing between two candidates can make the sides disagree: equal raw scores leave it to the string
   orders, and where rounding hides a difference the references happen to be in score order.
   */
  predicate PairAgrees(locale: Locale, x: Candidate, y: Candidate) {
    if x.tier != y.tier || x.mandatory != y.mandatory || x.sourceRef == y.sourceRef then true
    else if RawScore(x) == RawScore(y) then locale(x.sourceRef, y.sourceRef) <==> Lex.Le(x.sourceRef, y.sourceRef)
    else if RoundedScore(x) == RoundedScore(y) then RawScore(x) > RawScore(y) <==> Lex.Le(x.sourceRef, y.sourceRef)
    else true
  }

  lemma RoundingMonotone(x: Candidate, y: Candidate)
    requires RawScore(x) >= RawScore(y)
    ensures RoundedScore(x) >= RoundedScore(y)
  {
  }

  lemma PairExactly(locale: Locale, x: Candidate, y: Candidate)
    requires StringOrder(locale) && (x.sourceRef == y.sourceRef ==> x == y)
    ensures (PacketLe(RawScore, locale, x, y) <==> HostPacketLe(x, y)) <==> PairAgrees(locale, x, y)
  {
    LexIsStringOrder();
    assert (HostScore(x) == HostScore(y)) == (RoundedScore(x) == RoundedScore(y));
    assert (HostScore(x) > HostScore(y)) == (RoundedScore(x) > RoundedScore(y));
    if RawScore(x) >= RawScore(y) { RoundingMonotone(x, y); } else { RoundingMonotone(y, x); }
  }

  /** No two of these candidates are told apart by rounding or by the string order. */
  ghost predicate PairsAgree(locale: Locale, cs: seq<Candidate>) {
    forall x, y | x in cs && y in cs :: PairAgrees(locale, x, y)
  }

  lemma PairsExactly(cs: seq<Candidate>, e: seq<Candidate>, locale: Locale)
    requires DistinctRefs(cs) && StringOrder(locale) && forall c | c in e :: c in cs
    ensures PairsAgree(locale, e) <==> forall x, y | x in e && y in e :: ClientPacketLe(locale)(x, y) <==> HostPacketLe(x, y)
  {
    forall x, y | x in e && y in e
      ensures (ClientPacketLe(locale)(x, y) <==> HostPacketLe(x, y)) <==> PairAgrees(locale, x, y)
    {
      if x.sourceRef == y.sourceRef { RefIdentifies(cs, x, y); }
      PairExactly(locale, x, y);
    }
  }

  /** Both sides sort candidates alike exactly when no two of them are told apart. */
  lemma SortedAlikeExactly(cs: seq<Candidate>, e: seq<Candidate>, locale: Locale)
    requires DistinctRefs(cs) && StringOrder(locale) && forall c | c in e :: c in cs
    ensures SortBy(ClientPacketLe(locale), e) == SortBy(HostPacketLe, e) <==> PairsAgree(locale, e)
  {
    PairsExactly(cs, e, locale);
    if SortBy(ClientPacketLe(locale), e) == SortBy(HostPacketLe, e) {
      HostOrderings();
      HostNoTies(cs, e);
      CandidateOrdering(RawScore, locale);
      NoCandidateTies(RawScore, locale, cs, e);
      forall x, y | x in e && y in e
        ensures ClientPacketLe(locale)(x, y) <==> HostPacketLe(x, y)
      {
        AgreeIfSortedAlike(ClientPacketLe(locale), HostPacketLe, e, x, y);
      }
    }
    if PairsAgree(locale, e) {
      SortsAgree(ClientPacketLe(locale), HostPacketLe, e);
    }
  }

  /** The two string orders agree on the references of the candidates that are left out. */
  ghost predicate LeftOutAgree(locale: Locale, cs: seq<Candidate>, locality: Locality, l: Ledger) {
    forall x, y | x in cs && y in cs && ReasonOf(x, locality, l).Some? && ReasonOf(y, locality, l).Some? ::
      locale(x.sourceRef, y.sourceRef) <==> Lex.Le(x.sourceRef, y.sourceRef)
  }

  lemma ExclusionPair(locale: Locale, x: Exclusion, y: Exclusion)
    requires StringOrder(locale) && (x.sourceRef == y.sourceRef ==> x == y)
    ensures (ExclusionLe(locale, x, y) <==> HostExclusionLe(x, y)) <==> (locale(x.sourceRef, y.sourceRef) <==> Lex.Le(x.sourceRef, y.sourceRef))
  {
    if x.sourceRef == y.sourceRef {
      Lex.Total(x.reason, x.reason);
      Lex.Total(x.sourceRef, x.sourceRef);
      assert locale(x.reason, x.reason) && locale(x.sourceRef, x.sourceRef);
    }
  }

  /** What stands behind an exclusion, and the other way round. */
  lemma ExclusionOwner(xs: seq<Exclusion>, cs: seq<Candidate>, locality: Locality, l: Ledger, x: Exclusion) returns (c: Candidate)
    requires Accounts(xs, cs, locality, l) && x in xs
    ensures c in cs && ReasonOf(c, locality, l).Some? && x.sourceRef == c.sourceRef
  {
    c :| c in cs && ReasonOf(c, locality, l) == Some(x.reason) && x == ExclusionOf(c, x.reason);
  }

  lemma LeftOutPairs(xs: seq<Exclusion>, cs: seq<Candidate>, locality: Locality, l: Ledger, locale: Locale)
    requires DistinctRefs(cs) && StringOrder(locale) && Accounts(xs, cs, locality, l) && LeftOutAgree(locale, cs, locality, l)
    ensures forall x, y | x in xs && y in xs :: ClientExclusionLe(locale)(x, y) <==> HostExclusionLe(x, y)
  {
    NoExclusionTies(xs, cs, locality, l, locale);
    forall x, y | x in xs && y in xs
      ensures ClientExclusionLe(locale)(x, y) <==> HostExclusionLe(x, y)
    {
      var c := ExclusionOwner(xs, cs, locality, l, x);
      var d := ExclusionOwner(xs, cs, locality, l, y);
      ExclusionPair(locale, x, y);
    }
  }

  lemma PairsLeftOut(xs: seq<Exclusion>, cs: seq<Candidate>, locality: Locality, l: Ledger, locale: Locale)
    requires DistinctRefs(cs) && StringOrder(locale) && Accounts(xs, cs, locality, l)
    requires forall x, y | x in xs && y in xs :: ClientExclusionLe(locale)(x, y) <==> HostExclusionLe(x, y)
    ensures LeftOutAgree(locale, cs, locality, l)
  {
    NoExclusionTies(xs, cs, locality, l, locale);
    forall c, d | c in cs && d in cs && ReasonOf(c, locality, l).Some? && ReasonOf(d, locality, l).Some?
      ensures locale(c.sourceRef, d.sourceRef) <==> Lex.Le(c.sourceRef, d.sourceRef)
    {
      var x, y := ExclusionOf(c, ReasonOf(c, locality, l).value), ExclusionOf(d, ReasonOf(d, locality, l).value);
      assert x in xs && y in xs;
      ExclusionPair(locale, x, y);
    }
  }

  /** Both sides sort the same exclusions alike exactly when the string orders agree on their references. */
  lemma ExclusionsExactly(xs: seq<Exclusion>, ys: seq<Exclusion>, cs: seq<Candidate>, locality: Locality, l: Ledger, locale: Locale)
    requires DistinctRefs(cs) && StringOrder(locale) && Accounts(xs, cs, locality, l) && Accounts(ys, cs, locality, l)
    ensures SortBy(ClientExclusionLe(locale), ys) == SortBy(HostExclusionLe, xs) <==> LeftOutAgree(locale, cs, locality, l)
  {
    AccountsSame(xs, ys, cs, locality, l);
    ExclusionOrdering(locale);
    NoExclusionTies(xs, cs, locality, l, locale);
    SortByPermutation(ClientExclusionLe(locale), xs, ys);
    if SortBy(ClientExclusionLe(locale), xs) == SortBy(HostExclusionLe, xs) {
      HostExclusionOrdering(xs, cs, locality, l);
      forall x, y | x in xs && y in xs
        ensures ClientExclusionLe(locale)(x, y) <==> HostExclusionLe(x, y)
      {
        AgreeIfSortedAlike(ClientExclusionLe(locale), HostExclusionLe, xs, x, y);
      }
      PairsLeftOut(xs, cs, locality, l, locale);
    }
    if LeftOutAgree(locale, cs, locality, l) {
      LeftOutPairs(xs, cs, locality, l, locale);
      SortsAgree(ClientExclusionLe(locale), HostExclusionLe, xs);
    }
  }

  lemma HostExclusionOrdering(xs: seq<Exclusion>, cs: seq<Candidate>, locality: Locality, l: Ledger)
    requires DistinctRefs(cs) && Accounts(xs, cs, locality, l)
    ensures Ordering(HostExclusionLe) && NoTies(HostExclusionLe, xs)
  {
    LexIsStringOrder();
    ExclusionOrdering(Lex.Le);
    NoExclusionTies(xs, cs, locality, l, Lex.Le);
    var le := ClientExclusionLe(Lex.Le);
    forall x, y ensures HostExclusionLe(x, y) == le(x, y) { }
  }

  // ----- When the plans agree

  /** Both allocators pick the same candidates. */
  ghost predicate SamePicks(cs: seq<Candidate>, cs': seq<Candidate>, locality: Locality, op: OperationType, budget: nat, locale: Locale) {
    multiset(ClientLedger(cs', locality, op, budget, locale).selected) == multiset(HostLedger(cs, locality, op, budget).selected)
  }

  /** The items agree exactly when both pick the same candidates and no two of those are told apart. */
  lemma SameItemsExactly(cs: seq<Candidate>, cs': seq<Candidate>, locality: Locality, op: OperationType, budget: nat, locale: Locale)
    requires DistinctRefs(cs) && multiset(cs) == multiset(cs') && StringOrder(locale)
    requires HasTarget(Eligible(cs, locality)) && MandatoryFits(cs, locality, budget)
    ensures ClientPlan(cs', locality, op, budget, locale).Success?
    ensures ClientPlan(cs', locality, op, budget, locale).value.selected == HostPlan(cs, locality, op, budget).selected
      <==> SamePicks(cs, cs', locality, op, budget, locale) && PairsAgree(locale, HostLedger(cs, locality, op, budget).selected)
  {
    var mine, theirs := ClientLedger(cs', locality, op, budget, locale).selected, HostLedger(cs, locality, op, budget).selected;
    ClientPlanParts(cs, cs', locality, op, budget, locale);
    HostSplits(cs, locality, op, budget);
    ClientSplits(cs, cs', locality, op, budget, locale);
    SortedAlikeExactly(cs, theirs, locale);
    if multiset(mine) == multiset(theirs) {
      CandidateOrdering(RawScore, locale);
      NoCandidateTies(RawScore, locale, cs, mine);
      SortByPermutation(ClientPacketLe(locale), mine, theirs);
    } else {
      assert multiset(SortBy(ClientPacketLe(locale), mine)) != multiset(SortBy(HostPacketLe, theirs));
    }
  }

  /** With the same picks, the exclusions agree exactly when the string orders agree on what is left out. */
  lemma SameExclusionsExactly(cs: seq<Candidate>, cs': seq<Candidate>, locality: Locality, op: OperationType, budget: nat, locale: Locale)
    requires DistinctRefs(cs) && multiset(cs) == multiset(cs') && StringOrder(locale)
    requires HasTarget(Eligible(cs, locality)) && MandatoryFits(cs, locality, budget)
    requires SamePicks(cs, cs', locality, op, budget, locale)
    ensures ClientPlan(cs', locality, op, budget, locale).Success?
    ensures ClientPlan(cs', locality, op, budget, locale).value.exclusions == HostPlan(cs, locality, op, budget).exclusions
      <==> LeftOutAgree(locale, cs, locality, HostLedger(cs, locality, op, budget))
  {
    var mine, theirs := ClientLedger(cs', locality, op, budget, locale), HostLedger(cs, locality, op, budget);
    ClientPlanParts(cs, cs', locality, op, budget, locale);
    HostAccounts(cs, locality, theirs);
    ClientSplits(cs, cs', locality, op, budget, locale);
    SameMembers(mine.selected, theirs.selected);
    ClientAccounts(cs, cs', locality, mine);
    AccountsMoves(ClientLeftOut(cs', locality, mine), cs, locality, mine, theirs);
    ExclusionsExactly(LeftOut(cs, locality, theirs), ClientLeftOut(cs', locality, mine), cs, locality, theirs, locale);
  }

  /** Ledgers with the same picks have the same reasons. */
  lemma AccountsMoves(xs: seq<Exclusion>, cs: seq<Candidate>, locality: Locality, l: Ledger, l': Ledger)
    requires Accounts(xs, cs, locality, l) && forall c :: c in l.selected <==> c in l'.selected
    ensures Accounts(xs, cs, locality, l')
  {
    assert forall c :: ReasonOf(c, locality, l) == ReasonOf(c, locality, l');
  }

  /**
   The two compilers produce the same plan, items and exclusions, if and only if a target is eligible,
   the mandatory candidates fit, both pick the same candidates, no two picked ones are told apart, and
   the string orders agree on the references of those left out.
   */
  lemma SamePlanExactly(cs: seq<Candidate>, cs': seq<Candidate>, locality: Locality, op: OperationType, budget: nat, locale: Locale)
    requires DistinctRefs(cs) && multiset(cs) == multiset(cs') && StringOrder(locale)
    ensures var l := HostLedger(cs, locality, op, budget);
      (ClientPlan(cs', locality, op, budget, locale) == Success(HostPlan(cs, locality, op, budget)))
      <==> (HasTarget(Eligible(cs, locality)) && MandatoryFits(cs, locality, budget)
            && SamePicks(cs, cs', locality, op, budget, locale)
            && PairsAgree(locale, l.selected) && LeftOutAgree(locale, cs, locality, l))
  {
    ClientPlanParts(cs, cs', locality, op, budget, locale);
    if HasTarget(Eligible(cs, locality)) && MandatoryFits(cs, locality, budget) {
      SameItemsExactly(cs, cs', locality, op, budget, locale);
      if SamePicks(cs, cs', locality, op, budget, locale) {
        SameExclusionsExactly(cs, cs', locality, op, budget, locale);
      }
    }
  }

  // ----- With room for all eligible candidates

  lemma RoomSelectsAll(cs: seq<Candidate>, s: seq<Candidate>, locality: Locality, op: OperationType, budget: nat)
    requires multiset(s) == multiset(Eligible(cs, locality)) && TotalTokens(Eligible(cs, locality)) <= budget
    ensures multiset(Allocate(s, TierCaps(op, budget), budget, true).selected) == multiset(Eligible(cs, locality))
    ensures TotalTokens(Mandatory(s)) <= budget
  {
    TokensOfPermutation(Eligible(cs, locality), s);
    MandatoryTokens(s);
    RoomForAll(s, TierCaps(op, budget), budget);
  }

  lemma RoomPicks(cs: seq<Candidate>, cs': seq<Candidate>, locality: Locality, op: OperationType, budget: nat, locale: Locale)
    requires DistinctRefs(cs) && multiset(cs) == multiset(cs') && TotalTokens(Eligible(cs, locality)) <= budget
    ensures MandatoryFits(cs, locality, budget) && SamePicks(cs, cs', locality, op, budget, locale)
    ensures forall c :: c in HostLedger(cs, locality, op, budget).selected <==> c in Eligible(cs, locality)
  {
    ClientScoredBag(cs, cs', locality, locale);
    RoomSelectsAll(cs, ClientScored(cs', locality, locale), locality, op, budget);
    RoomSelectsAll(cs, Scored(cs, locality), locality, op, budget);
    SameMembers(HostLedger(cs, locality, op, budget).selected, Eligible(cs, locality));
  }

  /** The two string orders agree on the references of the candidates no policy lets through. */
  ghost predicate IneligibleAgree(locale: Locale, cs: seq<Candidate>, locality: Locality) {
    forall x, y | x in cs && y in cs && RequiredExclusion(x, locality).Some? && RequiredExclusion(y, locality).Some? ::
      locale(x.sourceRef, y.sourceRef) <==> Lex.Le(x.sourceRef, y.sourceRef)
  }

  lemma RoomLeavesIneligible(cs: seq<Candidate>, locality: Locality, l: Ledger, locale: Locale)
    requires forall c :: c in l.selected <==> c in Eligible(cs, locality)
    ensures LeftOutAgree(locale, cs, locality, l) <==> IneligibleAgree(locale, cs, locality)
  {
    EligibleMembers(cs, locality);
    forall c | c in cs ensures ReasonOf(c, locality, l).Some? <==> RequiredExclusion(c, locality).Some? { }
  }

  /**
   With room for all eligible candidates the items agree exactly when no two eligible candidates of one
   tier are told apart by rounding or by the string order.
   */
  lemma SameItemsWhen(cs: seq<Candidate>, cs': seq<Candidate>, locality: Locality, op: OperationType, budget: nat, locale: Locale)
    requires DistinctRefs(cs) && multiset(cs) == multiset(cs') && StringOrder(locale)
    requires HasTarget(Eligible(cs, locality)) && TotalTokens(Eligible(cs, locality)) <= budget
    ensures ClientPlan(cs', locality, op, budget, locale).Success?
    ensures ClientPlan(cs', locality, op, budget, locale).value.selected == HostPlan(cs, locality, op, budget).selected
      <==> PairsAgree(locale, Eligible(cs, locality))
  {
    RoomPicks(cs, cs', locality, op, budget, locale);
    SameItemsExactly(cs, cs', locality, op, budget, locale);
  }

  /**
   With room for all eligible candidates the whole plans agree, and so the host accepts the client's,
   exactly when a target is eligible, no two eligible candidates are told apart, and the string orders
   agree on the references of the ineligible ones.
   */
  lemma SamePlanWhen(cs: seq<Candidate>, cs': seq<Candidate>, locality: Locality, op: OperationType, budget: nat, locale: Locale)
    requires DistinctRefs(cs) && multiset(cs) == multiset(cs') && StringOrder(locale)
    requires TotalTokens(Eligible(cs, locality)) <= budget
    ensures ClientPlan(cs', locality, op, budget, locale) == Success(HostPlan(cs, locality, op, budget))
      <==> HasTarget(Eligible(cs, locality)) && PairsAgree(locale, Eligible(cs, locality)) && IneligibleAgree(locale, cs, locality)
  {
    RoomPicks(cs, cs', locality, op, budget, locale);
    RoomLeavesIneligible(cs, locality, HostLedger(cs, locality, op, budget), locale);
    SamePlanExactly(cs, cs', locality, op, budget, locale);
  }

  // ----- Signals of two decimals, as the host emits them

  predicate TwoDecimals(x: real) {
    (x * 100.0).Floor as real == x * 100.0
  }

  predicate TwoDecimalSignals(g: Signals) {
    TwoDecimals(g.relevance) && TwoDecimals(g.structuralProximity) && TwoDecimals(g.freshness) && TwoDecimals(g.risk)
  }

  lemma ClampHundredths(x: real) returns (k: int)
    requires TwoDecimals(x)
    ensures Clamp(x) * 1000000.0 == (10000 * k) as real
  {
    k := if x < 0.0 then 0 else if x > 1.0 then 100 else (x * 100.0).Floor;
  }

  lemma WholeWeights(c: Candidate) returns (k: int)
    ensures 1000000.0 * (c.tier.Weight() + c.authority.Weight() * 15.0 + (if c.selectedByUser then 25.0 else 0.0)) == k as real
  {
    var tier := match c.tier
      case L0_TARGET => 100 case L1_LOCAL => 80 case L2_STRUCTURAL => 65 case L3_KNOWLEDGE => 50 case L4_STYLE_GLOBAL => 35;
    var authority := match c.authority
      case UserConfirmed => 15000000 case SourceDerived => 11250000 case ModelInferred => 5250000 case ExternalUntrusted => 1500000;
    assert c.tier.Weight() == tier as real;
    assert c.authority.Weight() * 15.0 * 1000000.0 == authority as real;
    k := 1000000 * tier + authority + if c.selectedByUser then 25000000 else 0;
  }

  lemma ScoreParts(c: Candidate, weights: real)
    requires weights == 1000000.0 * (c.tier.Weight() + c.authority.Weight() * 15.0 + (if c.selectedByUser then 25.0 else 0.0))
    ensures var g := c.signals;
      RawScore(c) == weights + 30.0 * (Clamp(g.relevance) * 1000000.0) + 20.0 * (Clamp(g.structuralProximity) * 1000000.0)
        + 10.0 * (Clamp(g.freshness) * 1000000.0) - 20.0 * (Clamp(g.risk) * 1000000.0)
  {
  }

  lemma WholeFloor(k: int)
    ensures (k as real + 0.5).Floor == k
  {
  }

  lemma WholeRounds(score: real, k: int)
    requires score == k as real
    ensures (score + 0.5).Floor as real == score
  {
    WholeFloor(k);
  }

  /** Rounding changes no score made of two-decimal signals. */
  lemma TwoDecimalsExact(c: Candidate)
    requires TwoDecimalSignals(c.signals)
    ensures HostScore(c) == RawScore(c)
  {
    var k := WholeWeights(c);
    var k1 := ClampHundredths(c.signals.relevance);
    var k2 := ClampHundredths(c.signals.structuralProximity);
    var k3 := ClampHundredths(c.signals.freshness);
    var k4 := ClampHundredths(c.signals.risk);
    ScoreParts(c, k as real);
    WholeRounds(RawScore(c), k + 300000 * k1 + 200000 * k2 + 100000 * k3 - 200000 * k4);
  }

  /** So candidates with such signals are told apart only by the string orders, and only on equal scores. */
  lemma TwoDecimalsAgree(locale: Locale, x: Candidate, y: Candidate)
    requires TwoDecimalSignals(x.signals) && TwoDecimalSignals(y.signals)
    ensures PairAgrees(locale, x, y)
      <==> (x.tier == y.tier && x.mandatory == y.mandatory && x.sourceRef != y.sourceRef && RawScore(x) == RawScore(y)
            ==> (locale(x.sourceRef, y.sourceRef) <==> Lex.Le(x.sourceRef, y.sourceRef)))
  {
    TwoDecimalsExact(x);
    TwoDecimalsExact(y);
  }

  /** The string orders agree on the references of these candidates. */
  ghost predicate RefsAgree(locale: Locale, cs: seq<Candidate>) {
    forall x, y | x in cs && y in cs :: locale(x.sourceRef, y.sourceRef) <==> Lex.Le(x.sourceRef, y.sourceRef)
  }

  lemma TwoDecimalsOrder(locale: Locale, x: Candidate, y: Candidate)
    requires StringOrder(locale) && TwoDecimalSignals(x.signals) && TwoDecimalSignals(y.signals)
    requires x.sourceRef == y.sourceRef ==> x == y
    requires locale(x.sourceRef, y.sourceRef) <==> Lex.Le(x.sourceRef, y.sourceRef)
    ensures CandidateLe(RawScore, locale, x, y) <==> HostLe(x, y)
  {
    TwoDecimalsExact(x);
    TwoDecimalsExact(y);
    if x == y {
      Lex.Total(x.sourceHash, x.sourceHash);
      assert locale(x.sourceHash, x.sourceHash);
    }
  }

  /**
   With such signals, and string orders that agree on the references, the client's plan is the host's for
   any budget and arrival order.
   */
  lemma TwoDecimalsSamePlan(cs: seq<Candidate>, cs': seq<Candidate>, locality: Locality, op: OperationType, budget: nat, locale: Locale)
    requires DistinctRefs(cs) && multiset(cs) == multiset(cs') && StringOrder(locale) && RefsAgree(locale, cs)
    requires forall c | c in cs :: TwoDecimalSignals(c.signals)
    ensures ClientPlan(cs', locality, op, budget, locale) ==
      if !HasTarget(Eligible(cs, locality)) then Failure(TargetMissing)
      else if !MandatoryFits(cs, locality, budget) then Failure(BudgetExceeded)
      else Success(HostPlan(cs, locality, op, budget))
  {
    EligibleMembers(cs, locality);
    forall x, y | x in Eligible(cs, locality) && y in Eligible(cs, locality)
      ensures CandidateLe(RawScore, locale, x, y) <==> HostLe(x, y)
    {
      if x.sourceRef == y.sourceRef { RefIdentifies(cs, x, y); }
      TwoDecimalsOrder(locale, x, y);
    }
    ClientRefinesHost(cs, cs', locality, op, budget, locale);
  }

  // ----- Finer signals, which other sources of candidates may have

  const RELEVANT := Signals(0.5, 0.0, 0.0, 0.0)

  /** More relevant by less than the rounding unit. */
  const NEARLY := Signals(0.50000001, 0.0, 0.0, 0.0)

  function Witness(ref: string, tier: Tier, signals: Signals, sha: string -> string): Candidate {
    Candidate(ref, ref, sha("text"), tier, Canonical, UserConfirmed, Public, "verbatim", ["SELECTED"], "text", tier == L0_TARGET, false, signals)
  }

  /** A mandatory target, and two local candidates with nearly the same relevance. */
  function NearTie(sha: string -> string): seq<Candidate> {
    [Witness("t", L0_TARGET, RELEVANT, sha), Witness("a", L1_LOCAL, RELEVANT, sha), Witness("b", L1_LOCAL, NEARLY, sha)]
  }

  lemma NearTieScores(sha: string -> string)
    ensures var a, b := NearTie(sha)[1], NearTie(sha)[2];
      RawScore(a) == 110000000.0 && RawScore(b) == 110000000.3 && RoundedScore(a) == RoundedScore(b)
  {
    assert (110000000.5).Floor == 110000000 && (110000000.8).Floor == 110000000;
  }

  lemma NearTieShape(sha: string -> string)
    requires IsSha256(sha("text"))
    ensures Hashed(NearTie(sha), sha) && DistinctRefs(NearTie(sha))
    ensures forall c | c in NearTie(sha) :: RequiredExclusion(c, LocalProvider) == None && Tokens(c) == 2
  {
  }

  lemma NearTieTargets(sha: string -> string)
    ensures CountTargets(NearTie(sha)) == 1
  {
    var t, a, b := NearTie(sha)[0], NearTie(sha)[1], NearTie(sha)[2];
    TargetsSnoc([], t);
    TargetsSnoc([t], a);
    TargetsSnoc([t, a], b);
    assert NearTie(sha) == [t, a] + [b] && [t, a] == [t] + [a] && [t] == [] + [t];
  }

  lemma NearTieToldApart(sha: string -> string)
    ensures !PairAgrees(Lex.Le, NearTie(sha)[1], NearTie(sha)[2])
  {
    NearTieScores(sha);
    assert "a"[0] < "b"[0];
  }

  lemma {:induction false} NearTieTokens(cs: seq<Candidate>)
    requires forall c | c in cs :: Tokens(c) == 2
    ensures TotalTokens(cs) == 2 * |cs|
  {
    if cs != [] { NearTieTokens(cs[..|cs| - 1]); }
  }

  lemma {:induction false} AllEligible(cs: seq<Candidate>, locality: Locality)
    requires forall c | c in cs :: RequiredExclusion(c, locality) == None
    ensures Eligible(cs, locality) == cs
  {
    if cs != [] {
      AllEligible(cs[..|cs| - 1], locality);
      assert cs == cs[..|cs| - 1] + [cs[|cs| - 1]];
    }
  }

  /**
   Rounding makes the plans differ: of two local candidates the client puts the one with the higher raw
   score first, while for the host both scores are equal and the reference decides.
   */
  lemma RoundingDisagrees(op: OperationType, sha: string -> string)
    requires IsSha256(sha("text"))
    ensures Hashed(NearTie(sha), sha) && DistinctRefs(NearTie(sha)) && CountTargets(NearTie(sha)) == 1
    ensures var r := ClientPlan(NearTie(sha), LocalProvider, op, 100, Lex.Le);
      r.Success? && r.value.selected != HostPlan(NearTie(sha), LocalProvider, op, 100).selected
  {
    var cs := NearTie(sha);
    NearTieShape(sha);
    NearTieTargets(sha);
    NearTieToldApart(sha);
    NearTieTokens(cs);
    AllEligible(cs, LocalProvider);
    LexIsStringOrder();
    assert cs[0].tier == L0_TARGET && cs[0] in cs && cs[1] in cs && cs[2] in cs;
    SameItemsWhen(cs, cs, LocalProvider, op, 100, Lex.Le);
  }
}
