/**
 The client's context compiler (`context-compiler.ts`) and its relation to the host's. The client
 sorts raw scores and compares strings in its locale; the host sorts rounded scores and compares
 strings by code point.
 */
module ContextClient {
  import opened Common
  import opened ContextModel
  import opened ContextAllocation
  import opened ContextHost
  import opened Sorting

  type Locale = (string, string) -> bool

  datatype ClientError = TargetMissing | BudgetExceeded

  function ClientLe(locale: Locale): (Candidate, Candidate) -> bool {
    (x, y) => CandidateLe(RawScore, locale, x, y)
  }

  function ClientPacketLe(locale: Locale): (Candidate, Candidate) -> bool {
    (x, y) => PacketLe(RawScore, locale, x, y)
  }

  function ClientExclusionLe(locale: Locale): (Exclusion, Exclusion) -> bool {
    (x, y) => ExclusionLe(locale, x, y)
  }

  // ----- The client's compilation, as a specification

  function ClientScored(cs: seq<Candidate>, locality: Locality, locale: Locale): seq<Candidate> {
    SortBy(ClientLe(locale), Eligible(cs, locality))
  }

  /** What the client calls the same candidate. */
  function DuplicateKey(c: Candidate): (string, string, string) {
    (c.sourceRef, c.sourceHash, c.renderMode)
  }

  function ExclusionOf(c: Candidate, reason: string): Exclusion {
    Exclusion(c.sourceRef, c.sourceHash, reason)
  }

  function RequiredList(cs: seq<Candidate>, locality: Locality): seq<Exclusion> {
    if cs == [] then []
    else
      var last := cs[|cs| - 1];
      RequiredList(cs[..|cs| - 1], locality) +
      match RequiredExclusion(last, locality)
      case Some(reason) => [ExclusionOf(last, reason)]
      case None => []
  }

  function SeenKeys(cs: seq<Candidate>): set<(string, string, string)> {
    set c | c in cs :: DuplicateKey(c)
  }

  function Unique(cs: seq<Candidate>): seq<Candidate> {
    if cs == [] then []
    else
      var init, last := cs[..|cs| - 1], cs[|cs| - 1];
      Unique(init) + if DuplicateKey(last) in SeenKeys(init) then [] else [last]
  }

  function Duplicates(cs: seq<Candidate>): seq<Exclusion> {
    if cs == [] then []
    else
      var init, last := cs[..|cs| - 1], cs[|cs| - 1];
      Duplicates(init) + if DuplicateKey(last) in SeenKeys(init) then [ExclusionOf(last, "DUPLICATE")] else []
  }

  function DroppedList(cs: seq<Candidate>, reason: string): (xs: seq<Exclusion>)
    ensures |xs| == |cs|
    ensures forall i | 0 <= i < |xs| :: xs[i] == ExclusionOf(cs[i], reason)
  {
    seq(|cs|, i requires 0 <= i < |cs| => ExclusionOf(cs[i], reason))
  }

  predicate HasTarget(cs: seq<Candidate>) {
    exists c :: c in cs && c.tier == L0_TARGET
  }

  function ClientLedger(cs: seq<Candidate>, locality: Locality, op: OperationType, budget: nat, locale: Locale): (l: Ledger)
    ensures l.Wf()
  {
    Allocate(Unique(ClientScored(cs, locality, locale)), TierCaps(op, budget), budget, true)
  }

  /** The client's plan with tier borrowing allowed, as all operation profiles have it. */
  function ClientPlan(cs: seq<Candidate>, locality: Locality, op: OperationType, budget: nat, locale: Locale): Result<Plan, ClientError> {
    var scored := ClientScored(cs, locality, locale);
    var l := ClientLedger(cs, locality, op, budget, locale);
    if !HasTarget(Unique(scored)) then Failure(TargetMissing)
    else if TotalTokens(Mandatory(Unique(scored))) > budget then Failure(BudgetExceeded)
    else Success(Plan(
      SortBy(ClientPacketLe(locale), l.selected),
      SortBy(ClientExclusionLe(locale), RequiredList(cs, locality) + Duplicates(scored) + DroppedList(l.dropped, "TOTAL_BUDGET"))))
  }

  // ----- Every candidate ends in the plan once

  function SourceOf(c: Candidate): (string, string) { (c.sourceRef, c.sourceHash) }

  function ExcludedSource(x: Exclusion): (string, string) { (x.sourceRef, x.sourceHash) }

  /** One more candidate, kept or excluded. */
  lemma OneMoreSource(kept: seq<Candidate>, excluded: seq<Exclusion>, all: seq<Candidate>, c: Candidate, reason: string)
    requires multiset(MapOf(SourceOf, kept)) + multiset(MapOf(ExcludedSource, excluded)) == multiset(MapOf(SourceOf, all))
    ensures multiset(MapOf(SourceOf, kept + [c])) + multiset(MapOf(ExcludedSource, excluded)) == multiset(MapOf(SourceOf, all + [c]))
    ensures multiset(MapOf(SourceOf, kept)) + multiset(MapOf(ExcludedSource, excluded + [ExclusionOf(c, reason)]))
      == multiset(MapOf(SourceOf, all + [c]))
  {
    MapSnoc(SourceOf, kept, c);
    MapSnoc(SourceOf, all, c);
    MapSnoc(ExcludedSource, excluded, ExclusionOf(c, reason));
  }

  lemma RequiredKept(cs: seq<Candidate>, locality: Locality)
    requires cs != [] && RequiredExclusion(cs[|cs| - 1], locality) == None
    ensures Eligible(cs, locality) == Eligible(cs[..|cs| - 1], locality) + [cs[|cs| - 1]]
    ensures RequiredList(cs, locality) == RequiredList(cs[..|cs| - 1], locality)
  {
  }

  lemma RequiredLeftOut(cs: seq<Candidate>, locality: Locality, reason: string)
    requires cs != [] && RequiredExclusion(cs[|cs| - 1], locality) == Some(reason)
    ensures Eligible(cs, locality) == Eligible(cs[..|cs| - 1], locality)
    ensures RequiredList(cs, locality) == RequiredList(cs[..|cs| - 1], locality) + [ExclusionOf(cs[|cs| - 1], reason)]
  {
  }

  lemma {:induction false} RequiredSources(cs: seq<Candidate>, locality: Locality)
    ensures multiset(MapOf(SourceOf, Eligible(cs, locality))) + multiset(MapOf(ExcludedSource, RequiredList(cs, locality)))
      == multiset(MapOf(SourceOf, cs))
  {
    if cs != [] {
      var init, last := cs[..|cs| - 1], cs[|cs| - 1];
      RequiredSources(init, locality);
      assert cs == init + [last];
      match RequiredExclusion(last, locality)
      case None =>
        OneMoreSource(Eligible(init, locality), RequiredList(init, locality), init, last, "");
        RequiredKept(cs, locality);
      case Some(reason) =>
        OneMoreSource(Eligible(init, locality), RequiredList(init, locality), init, last, reason);
        RequiredLeftOut(cs, locality, reason);
    }
  }

  lemma {:induction false} UniqueSources(cs: seq<Candidate>)
    ensures multiset(MapOf(SourceOf, Unique(cs))) + multiset(MapOf(ExcludedSource, Duplicates(cs))) == multiset(MapOf(SourceOf, cs))
  {
    if cs != [] {
      var init, last := cs[..|cs| - 1], cs[|cs| - 1];
      UniqueSources(init);
      OneMoreSource(Unique(init), Duplicates(init), init, last, "DUPLICATE");
      assert cs == init + [last];
      assert DuplicateKey(last) !in SeenKeys(init) ==> Duplicates(cs) == Duplicates(init);
      assert DuplicateKey(last) in SeenKeys(init) ==> Unique(cs) == Unique(init);
    }
  }

  lemma SettledSources(cs: seq<Candidate>, l: Ledger)
    requires Settled(l) == multiset(cs)
    ensures multiset(MapOf(SourceOf, l.selected)) + multiset(MapOf(ExcludedSource, DroppedList(l.dropped, "TOTAL_BUDGET")))
      == multiset(MapOf(SourceOf, cs))
  {
    assert MapOf(ExcludedSource, DroppedList(l.dropped, "TOTAL_BUDGET")) == MapOf(SourceOf, l.dropped);
    MapBag(SourceOf, l.selected + l.dropped, cs);
    MapConcat(SourceOf, l.selected, l.dropped);
  }

  lemma ExclusionSources(xs: seq<Exclusion>, ys: seq<Exclusion>, zs: seq<Exclusion>)
    ensures multiset(MapOf(ExcludedSource, xs + ys + zs))
      == multiset(MapOf(ExcludedSource, xs)) + multiset(MapOf(ExcludedSource, ys)) + multiset(MapOf(ExcludedSource, zs))
  {
    MapConcat(ExcludedSource, xs + ys, zs);
    MapConcat(ExcludedSource, xs, ys);
  }

  /** What the client lists before it sorts. */
  function ClientLists(cs: seq<Candidate>, locality: Locality, op: OperationType, budget: nat, locale: Locale): Plan {
    var l := ClientLedger(cs, locality, op, budget, locale);
    Plan(l.selected, RequiredList(cs, locality) + Duplicates(ClientScored(cs, locality, locale)) + DroppedList(l.dropped, "TOTAL_BUDGET"))
  }

  ghost function PlanSources(plan: Plan): multiset<(string, string)> {
    multiset(MapOf(SourceOf, plan.selected)) + multiset(MapOf(ExcludedSource, plan.exclusions))
  }

  lemma ListedSources(cs: seq<Candidate>, locality: Locality, op: OperationType, budget: nat, locale: Locale)
    ensures PlanSources(ClientLists(cs, locality, op, budget, locale)) == multiset(MapOf(SourceOf, cs))
  {
    var scored, l := ClientScored(cs, locality, locale), ClientLedger(cs, locality, op, budget, locale);
    RequiredSources(cs, locality);
    MapBag(SourceOf, scored, Eligible(cs, locality));
    UniqueSources(scored);
    AllocatePlaces(Unique(scored), TierCaps(op, budget), budget, true);
    SettledSources(Unique(scored), l);
    ExclusionSources(RequiredList(cs, locality), Duplicates(scored), DroppedList(l.dropped, "TOTAL_BUDGET"));
  }

  lemma SortedSources(plan: Plan, listed: Plan)
    requires multiset(plan.selected) == multiset(listed.selected) && multiset(plan.exclusions) == multiset(listed.exclusions)
    ensures PlanSources(plan) == PlanSources(listed)
  {
    MapBag(SourceOf, plan.selected, listed.selected);
    MapBag(ExcludedSource, plan.exclusions, listed.exclusions);
  }

  lemma SourceCount(plan: Plan)
    ensures |PlanSources(plan)| == |plan.selected| + |plan.exclusions|
  {
  }

  /**
   Duplicates included, every candidate is in a plan once: the sources of the items and of the
   exclusions together are those of the candidates, as often as they occur there.
   */
  lemma EveryCandidateOnce(cs: seq<Candidate>, locality: Locality, op: OperationType, budget: nat, locale: Locale)
    requires ClientPlan(cs, locality, op, budget, locale).Success?
    ensures PlanSources(ClientPlan(cs, locality, op, budget, locale).value) == multiset(MapOf(SourceOf, cs))
    ensures var plan := ClientPlan(cs, locality, op, budget, locale).value; |plan.selected| + |plan.exclusions| == |cs|
  {
    var plan := ClientPlan(cs, locality, op, budget, locale).value;
    ListedSources(cs, locality, op, budget, locale);
    SortedSources(plan, ClientLists(cs, locality, op, budget, locale));
    SourceCount(plan);
    assert |multiset(MapOf(SourceOf, cs))| == |cs|;
  }

  // ----- The client's compilation, as it runs

  lemma Snoc<T>(s: seq<T>, i: nat)
    requires i < |s|
    ensures s[..i + 1][..i] == s[..i] && s[..i + 1][i] == s[i] && |s[..i + 1]| == i + 1
  {
  }

  method Screen(cs: seq<Candidate>, locality: Locality) returns (exclusions: seq<Exclusion>, scored: seq<Candidate>)
    ensures exclusions == RequiredList(cs, locality) && scored == Eligible(cs, locality)
  {
    exclusions, scored := [], [];
    for i := 0 to |cs|
      invariant exclusions == RequiredList(cs[..i], locality) && scored == Eligible(cs[..i], locality)
    {
      var c := cs[i];
      Snoc(cs, i);
      if c.status == Archived || c.status == Rejected || c.status == Deleted {
        exclusions := exclusions + [ExclusionOf(c, "INELIGIBLE_STATUS")];
      } else if c.status == Draft && !c.selectedByUser {
        exclusions := exclusions + [ExclusionOf(c, "DRAFT_NOT_SELECTED")];
      } else if locality == RemoteProvider && c.sensitivity == NeverSend {
        exclusions := exclusions + [ExclusionOf(c, "POLICY_DENIED")];
      } else {
        scored := scored + [c];
      }
    }
    assert cs[..|cs|] == cs;
  }

  method RemoveDuplicates(scored: seq<Candidate>) returns (unique: seq<Candidate>, duplicates: seq<Exclusion>)
    ensures unique == Unique(scored) && duplicates == Duplicates(scored)
  {
    unique, duplicates := [], [];
    var seen: set<(string, string, string)> := {};
    for i := 0 to |scored|
      invariant unique == Unique(scored[..i]) && duplicates == Duplicates(scored[..i])
      invariant seen == SeenKeys(scored[..i])
    {
      var c := scored[i];
      Snoc(scored, i);
      assert SeenKeys(scored[..i + 1]) == SeenKeys(scored[..i]) + {DuplicateKey(c)} by {
        assert scored[..i + 1] == scored[..i] + [c];
      }
      if DuplicateKey(c) in seen {
        duplicates := duplicates + [ExclusionOf(c, "DUPLICATE")];
      } else {
        seen := seen + {DuplicateKey(c)};
        unique := unique + [c];
      }
    }
    assert scored[..|scored|] == scored;
  }

  method SelectMandatory(mandatory: seq<Candidate>) returns (l: Ledger)
    ensures l == SelectAll(EmptyLedger, mandatory)
  {
    l := EmptyLedger;
    for i := 0 to |mandatory|
      invariant l == SelectAll(EmptyLedger, mandatory[..i])
    {
      Snoc(mandatory, i);
      l := l.Select(mandatory[i]);
    }
    assert mandatory[..|mandatory|] == mandatory;
  }

  method FillTiers(l0: Ledger, optional: seq<Candidate>, caps: seq<nat>, budget: nat) returns (l: Ledger)
    requires l0.Wf() && |caps| == TIERS
    ensures l == OptionalPass(l0, optional, caps, budget)
  {
    l := l0;
    for i := 0 to |optional|
      invariant l == OptionalPass(l0, optional[..i], caps, budget)
    {
      var c, tier := optional[i], optional[i].tier.Index();
      Snoc(optional, i);
      if l.used + Tokens(c) > budget {
        l := l.Drop(c);
      } else if l.tierUsed[tier] + Tokens(c) <= caps[tier] {
        l := l.Select(c);
      } else {
        l := l.Defer(c);
      }
    }
    assert optional[..|optional|] == optional;
  }

  method BorrowTiers(l0: Ledger, deferred: seq<Candidate>, budget: nat) returns (l: Ledger)
    requires l0.Wf()
    ensures l == BorrowPass(l0, deferred, budget, true)
  {
    l := l0;
    for i := 0 to |deferred|
      invariant l == BorrowPass(l0, deferred[..i], budget, true)
    {
      var c := deferred[i];
      Snoc(deferred, i);
      if l.used + Tokens(c) <= budget {
        l := l.Select(c);
      } else {
        l := l.Drop(c);
      }
    }
    assert deferred[..|deferred|] == deferred;
  }

  /** `ContextCompiler.compile` on the candidates its sources collected. */
  method Compile(cs: seq<Candidate>, locality: Locality, op: OperationType, budget: nat, locale: Locale) returns (r: Result<Plan, ClientError>)
    ensures r == ClientPlan(cs, locality, op, budget, locale)
  {
    var exclusions, scored := Screen(cs, locality);
    scored := SortBy(ClientLe(locale), scored);
    var unique, duplicates := RemoveDuplicates(scored);
    exclusions := exclusions + duplicates;
    if !HasTarget(unique) { return Failure(TargetMissing); }
    var mandatory := Mandatory(unique);
    if TotalTokens(mandatory) > budget { return Failure(BudgetExceeded); }
    var l := SelectMandatory(mandatory);
    l := FillTiers(l, Optional(unique), TierCaps(op, budget), budget);
    l := BorrowTiers(l, l.deferred, budget);
    exclusions := exclusions + DroppedList(l.dropped, "TOTAL_BUDGET");
    r := Success(Plan(SortBy(ClientPacketLe(locale), l.selected), SortBy(ClientExclusionLe(locale), exclusions)));
  }
}
