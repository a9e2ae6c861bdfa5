/**
 The host side of context compilation (`confirmed_context.rs`): recomputing the compilation and
 checking a packet against it.
 */
module ContextHost {
  import opened Common
  import opened ContextModel
  import opened ContextAllocation
  import opened Sorting
  import Lex

  datatype Exclusion = Exclusion(sourceRef: string, sourceHash: string, reason: string)

  /** The reason a candidate is left out before any budget is looked at. */
  function RequiredExclusion(c: Candidate, locality: Locality): Option<string> {
    if c.status == Archived || c.status == Rejected || c.status == Deleted then Some("INELIGIBLE_STATUS")
    else if c.status == Draft && !c.selectedByUser then Some("DRAFT_NOT_SELECTED")
    else if locality == RemoteProvider && c.sensitivity == NeverSend then Some("POLICY_DENIED")
    else None
  }

  function Eligible(cs: seq<Candidate>, locality: Locality): seq<Candidate> {
    if cs == [] then []
    else
      Eligible(cs[..|cs| - 1], locality) +
      if RequiredExclusion(cs[|cs| - 1], locality) == None then [cs[|cs| - 1]] else []
  }

  predicate HostLe(x: Candidate, y: Candidate) { CandidateLe(HostScore, Lex.Le, x, y) }

  predicate HostPacketLe(x: Candidate, y: Candidate) { PacketLe(HostScore, Lex.Le, x, y) }

  predicate HostExclusionLe(x: Exclusion, y: Exclusion) { ExclusionLe(Lex.Le, x, y) }

  predicate ExclusionLe(sle: (string, string) -> bool, x: Exclusion, y: Exclusion) {
    if x.sourceRef != y.sourceRef then sle(x.sourceRef, y.sourceRef) else sle(x.reason, y.reason)
  }

  function OperationOf(name: string): Option<OperationType> {
    if name == "polish" then Some(Polish)
    else if name == "continue_scene" then Some(ContinueScene)
    else if name == "compress" then Some(Compress)
    else if name == "expand" then Some(Expand)
    else if name == "critique" then Some(Critique)
    else None
  }

  // ----- The expected compilation, as a specification

  function Scored(cs: seq<Candidate>, locality: Locality): seq<Candidate> {
    SortBy(HostLe, Eligible(cs, locality))
  }

  predicate MandatoryFits(cs: seq<Candidate>, locality: Locality, budget: nat) {
    TotalTokens(Mandatory(Scored(cs, locality))) <= budget
  }

  function HostLedger(cs: seq<Candidate>, locality: Locality, op: OperationType, budget: nat): (l: Ledger)
    ensures l.Wf()
  {
    Allocate(Scored(cs, locality), TierCaps(op, budget), budget, true)
  }

  datatype Disposition = Disposition(estimatedTokens: nat, score: real, exclusion: Option<string>)

  function ReasonOf(c: Candidate, locality: Locality, l: Ledger): Option<string> {
    if RequiredExclusion(c, locality).Some? then RequiredExclusion(c, locality)
    else if c in l.selected then None
    else Some("TOTAL_BUDGET")
  }

  function DispositionOf(c: Candidate, locality: Locality, l: Ledger): Disposition {
    if RequiredExclusion(c, locality).Some? then Disposition(0, 0.0, RequiredExclusion(c, locality))
    else Disposition(Tokens(c), HostScore(c), ReasonOf(c, locality, l))
  }

  /** Every candidate that is left out, with its reason, in candidate order. */
  function LeftOut(cs: seq<Candidate>, locality: Locality, l: Ledger): seq<Exclusion> {
    if cs == [] then []
    else
      var last := cs[|cs| - 1];
      LeftOut(cs[..|cs| - 1], locality, l) +
      match ReasonOf(last, locality, l)
      case Some(reason) => [Exclusion(last.sourceRef, last.sourceHash, reason)]
      case None => []
  }

  /** What a packet has to contain: its items and its exclusions, in their orders. */
  datatype Plan = Plan(selected: seq<Candidate>, exclusions: seq<Exclusion>)

  function HostPlan(cs: seq<Candidate>, locality: Locality, op: OperationType, budget: nat): Plan {
    var l := HostLedger(cs, locality, op, budget);
    Plan(SortBy(HostPacketLe, l.selected), SortBy(HostExclusionLe, LeftOut(cs, locality, l)))
  }

  function KeysOf(cs: seq<Candidate>): (keys: seq<string>)
    ensures |keys| == |cs|
    ensures forall i | 0 <= i < |cs| :: keys[i] == KeyOf(cs[i])
  {
    seq(|cs|, i requires 0 <= i < |cs| => KeyOf(cs[i]))
  }

  function ExclusionKeys(xs: seq<Exclusion>): (keys: seq<string>)
    ensures |keys| == |xs|
    ensures forall i | 0 <= i < |xs| :: keys[i] == Identity(xs[i].sourceRef, xs[i].sourceHash)
  {
    seq(|xs|, i requires 0 <= i < |xs| => Identity(xs[i].sourceRef, xs[i].sourceHash))
  }

  /**
   The host's tier shares, with the caps of the operation's own profile: if the mandatory candidates of
   every tier fit its cap, the first pass selects of a tier what filling its cap alone selects, and the
   plan keeps it.
   */
  lemma HostTierShares(cs: seq<Candidate>, locality: Locality, op: OperationType, budget: nat, t: Tier)
    requires forall u: Tier :: TotalTokens(OfTier(Mandatory(Scored(cs, locality)), u)) <= TierCaps(op, budget)[u.Index()]
    ensures var s, caps := Scored(cs, locality), TierCaps(op, budget);
      var mine := OfTier(Mandatory(s), t);
      && OfTier(FirstPass(s, caps, budget).selected, t)
           == mine + Greedy(OfTier(Optional(s), t), TotalTokens(mine), caps[t.Index()])
      && FirstPass(s, caps, budget).selected <= HostLedger(cs, locality, op, budget).selected
  {
    CapsFitBudget(op, budget);
    TierSharesGuaranteed(Scored(cs, locality), TierCaps(op, budget), budget, t);
  }

  // ----- Facts about the candidate lists

  lemma {:induction false} EligibleMembers(cs: seq<Candidate>, locality: Locality)
    ensures forall c :: c in Eligible(cs, locality) <==> c in cs && RequiredExclusion(c, locality) == None
  {
    if cs != [] {
      EligibleMembers(cs[..|cs| - 1], locality);
      assert cs == cs[..|cs| - 1] + [cs[|cs| - 1]];
    }
  }

  /** Among distinct keys, the key identifies the candidate. */
  lemma KeyIdentifies(cs: seq<Candidate>, x: Candidate, y: Candidate)
    requires DistinctKeys(cs) && x in cs && y in cs && KeyOf(x) == KeyOf(y)
    ensures x == y
  {
    var i :| 0 <= i < |cs| && cs[i] == x;
    var j :| 0 <= j < |cs| && cs[j] == y;
    assert i == j;
  }

  lemma ScoredMembers(cs: seq<Candidate>, locality: Locality)
    ensures forall c :: c in Scored(cs, locality) <==> c in cs && RequiredExclusion(c, locality) == None
  {
    EligibleMembers(cs, locality);
    SortByMembers(HostLe, Eligible(cs, locality));
  }

  lemma {:induction false} EligibleDistinct(cs: seq<Candidate>, locality: Locality)
    requires DistinctKeys(cs)
    ensures DistinctKeys(Eligible(cs, locality))
  {
    if cs != [] {
      var init, last := cs[..|cs| - 1], cs[|cs| - 1];
      EligibleDistinct(init, locality);
      EligibleMembers(init, locality);
      forall x | x in Eligible(init, locality) ensures KeyOf(x) != KeyOf(last) {
        assert x in init;
      }
    }
  }

  lemma ScoredNoRepeats(cs: seq<Candidate>, locality: Locality)
    requires DistinctKeys(cs)
    ensures NoRepeats(Scored(cs, locality))
  {
    EligibleDistinct(cs, locality);
    PermutationNoRepeats(Eligible(cs, locality), Scored(cs, locality));
  }

  /** The two halves of a list without repeats have none and share nothing. */
  lemma {:induction false} HalvesNoRepeats(cs: seq<Candidate>)
    requires NoRepeats(cs)
    ensures NoRepeats(Mandatory(cs)) && NoRepeats(Optional(cs))
    ensures forall c | c in Mandatory(cs) :: c in cs && c.mandatory
    ensures forall c | c in Optional(cs) :: c in cs && !c.mandatory
  {
    if cs != [] {
      var init, last := cs[..|cs| - 1], cs[|cs| - 1];
      HalvesNoRepeats(init);
      assert last !in init;
    }
  }

  // ----- The expected compilation, as the host runs it

  datatype Compilation = Compilation(disposition: map<string, Disposition>, selectedOrder: seq<string>, exclusionOrder: seq<string>)

  /** The map holds the verdict of every candidate the ledger has settled. */
  ghost predicate Recorded(output: map<string, Disposition>, l: Ledger) {
    && (forall c | c in l.selected :: Entry(output, c, None))
    && (forall c | c in l.dropped :: Entry(output, c, Some("TOTAL_BUDGET")))
  }

  ghost predicate Entry(output: map<string, Disposition>, c: Candidate, exclusion: Option<string>) {
    KeyOf(c) in output && output[KeyOf(c)] == Disposition(Tokens(c), HostScore(c), exclusion)
  }

  ghost predicate RequiredRecorded(output: map<string, Disposition>, cs: seq<Candidate>, locality: Locality) {
    forall c | c in cs && RequiredExclusion(c, locality).Some? ::
      KeyOf(c) in output && output[KeyOf(c)] == Disposition(0, 0.0, RequiredExclusion(c, locality))
  }

  ghost predicate AllEligible(cs: seq<Candidate>, locality: Locality, xs: seq<Candidate>) {
    forall c | c in xs :: c in cs && RequiredExclusion(c, locality) == None
  }

  /** What is still to come or put off has not been settled. */
  ghost predicate Open(l: Ledger, rest: seq<Candidate>) {
    && NoRepeats(rest) && NoRepeats(l.deferred)
    && (forall c | c in rest :: c !in l.selected && c !in l.dropped && c !in l.deferred)
    && (forall c | c in l.deferred :: c !in l.selected && c !in l.dropped)
  }

  ghost predicate Sourced(cs: seq<Candidate>, locality: Locality, l: Ledger, rest: seq<Candidate>) {
    && AllEligible(cs, locality, l.selected) && AllEligible(cs, locality, l.dropped)
    && AllEligible(cs, locality, l.deferred) && AllEligible(cs, locality, rest)
  }

  /** Where a pass stands: the map holds the settled verdicts and `rest` is still to come. */
  ghost predicate Running(cs: seq<Candidate>, locality: Locality, output: map<string, Disposition>, l: Ledger, rest: seq<Candidate>) {
    && l.Wf() && Recorded(output, l) && RequiredRecorded(output, cs, locality)
    && Open(l, rest) && Sourced(cs, locality, l, rest)
  }

  lemma Keeps(cs: seq<Candidate>, locality: Locality, output: map<string, Disposition>, l: Ledger, c: Candidate, d: Disposition)
    requires DistinctKeys(cs) && Recorded(output, l) && RequiredRecorded(output, cs, locality)
    requires c in cs && RequiredExclusion(c, locality) == None && c !in l.selected && c !in l.dropped
    requires AllEligible(cs, locality, l.selected) && AllEligible(cs, locality, l.dropped)
    ensures Recorded(output[KeyOf(c) := d], l) && RequiredRecorded(output[KeyOf(c) := d], cs, locality)
  {
    forall x | x in cs && KeyOf(x) == KeyOf(c) ensures x == c {
      KeyIdentifies(cs, x, c);
    }
  }

  lemma OpenNext(l: Ledger, rest: seq<Candidate>)
    requires Open(l, rest) && rest != [] && l.Wf()
    ensures Open(l.Select(rest[0]), rest[1..]) && Open(l.Drop(rest[0]), rest[1..]) && Open(l.Defer(rest[0]), rest[1..])
  {
    assert forall c | c in rest[1..] :: c in rest && c != rest[0];
    assert rest[0] in rest && rest[0] !in l.deferred;
    assert forall i | 0 <= i < |l.deferred| :: l.deferred[i] in l.deferred;
  }

  lemma SourcedNext(cs: seq<Candidate>, locality: Locality, l: Ledger, rest: seq<Candidate>)
    requires Sourced(cs, locality, l, rest) && rest != [] && l.Wf()
    ensures Sourced(cs, locality, l.Select(rest[0]), rest[1..])
    ensures Sourced(cs, locality, l.Drop(rest[0]), rest[1..])
    ensures Sourced(cs, locality, l.Defer(rest[0]), rest[1..])
  {
    assert forall c | c in rest[1..] :: c in rest;
  }

  /** `select_expected` with the bookkeeping around it. */
  lemma RunningSelect(cs: seq<Candidate>, locality: Locality, output: map<string, Disposition>, l: Ledger, rest: seq<Candidate>)
    requires DistinctKeys(cs) && rest != [] && Running(cs, locality, output, l, rest)
    ensures Running(cs, locality, SelectExpected(output, rest[0]), l.Select(rest[0]), rest[1..])
  {
    var c := rest[0];
    Keeps(cs, locality, output, l, c, Disposition(Tokens(c), HostScore(c), None));
    OpenNext(l, rest);
    SourcedNext(cs, locality, l, rest);
    assert Recorded(SelectExpected(output, c), l.Select(c));
  }

  /** `exclude_expected` with the bookkeeping around it. */
  lemma RunningDrop(cs: seq<Candidate>, locality: Locality, output: map<string, Disposition>, l: Ledger, rest: seq<Candidate>)
    requires DistinctKeys(cs) && rest != [] && Running(cs, locality, output, l, rest)
    ensures Running(cs, locality, ExcludeExpected(output, rest[0], "TOTAL_BUDGET"), l.Drop(rest[0]), rest[1..])
  {
    var c := rest[0];
    Keeps(cs, locality, output, l, c, Disposition(Tokens(c), HostScore(c), Some("TOTAL_BUDGET")));
    OpenNext(l, rest);
    SourcedNext(cs, locality, l, rest);
    assert Recorded(ExcludeExpected(output, c, "TOTAL_BUDGET"), l.Drop(c));
  }

  lemma RunningDefer(cs: seq<Candidate>, locality: Locality, output: map<string, Disposition>, l: Ledger, rest: seq<Candidate>)
    requires rest != [] && Running(cs, locality, output, l, rest)
    ensures Running(cs, locality, output, l.Defer(rest[0]), rest[1..])
  {
    OpenNext(l, rest);
    SourcedNext(cs, locality, l, rest);
  }

  function SelectExpected(output: map<string, Disposition>, c: Candidate): map<string, Disposition> {
    output[KeyOf(c) := Disposition(Tokens(c), HostScore(c), None)]
  }

  function ExcludeExpected(output: map<string, Disposition>, c: Candidate, reason: string): map<string, Disposition> {
    output[KeyOf(c) := Disposition(Tokens(c), HostScore(c), Some(reason))]
  }

  lemma TakeNext(cs: seq<Candidate>, i: nat)
    requires i < |cs|
    ensures cs[i..][0] == cs[i] && cs[i..][1..] == cs[i + 1..]
    ensures cs[..i + 1][..i] == cs[..i] && cs[..i + 1][i] == cs[i]
  {
  }

  /** The loop over the mandatory candidates. */
  method SelectMandatory(cs: seq<Candidate>, locality: Locality, output0: map<string, Disposition>, mandatory: seq<Candidate>)
    returns (output: map<string, Disposition>, l: Ledger)
    requires DistinctKeys(cs) && Running(cs, locality, output0, EmptyLedger, mandatory)
    ensures l == SelectAll(EmptyLedger, mandatory) && Running(cs, locality, output, l, [])
  {
    output, l := output0, EmptyLedger;
    assert mandatory[0..] == mandatory;
    for i := 0 to |mandatory|
      invariant l.Wf() && l == SelectAll(EmptyLedger, mandatory[..i])
      invariant Running(cs, locality, output, l, mandatory[i..])
    {
      TakeNext(mandatory, i);
      RunningSelect(cs, locality, output, l, mandatory[i..]);
      output := SelectExpected(output, mandatory[i]);
      l := l.Select(mandatory[i]);
    }
    assert mandatory[..|mandatory|] == mandatory && mandatory[|mandatory|..] == [];
  }

  /** One optional candidate: out of budget, within its tier, or put off. */
  method FillOne(cs: seq<Candidate>, locality: Locality, output0: map<string, Disposition>, l0: Ledger,
                 rest: seq<Candidate>, caps: seq<nat>, budget: nat)
    returns (output: map<string, Disposition>, l: Ledger)
    requires DistinctKeys(cs) && |caps| == TIERS && rest != [] && Running(cs, locality, output0, l0, rest)
    ensures l == OptionalStep(l0, rest[0], caps, budget) && Running(cs, locality, output, l, rest[1..])
  {
    var c, tier := rest[0], rest[0].tier.Index();
    if l0.used + Tokens(c) > budget {
      RunningDrop(cs, locality, output0, l0, rest);
      output := ExcludeExpected(output0, c, "TOTAL_BUDGET");
      l := l0.Drop(c);
    } else if l0.tierUsed[tier] + Tokens(c) <= caps[tier] {
      RunningSelect(cs, locality, output0, l0, rest);
      output := SelectExpected(output0, c);
      l := l0.Select(c);
    } else {
      RunningDefer(cs, locality, output0, l0, rest);
      output := output0;
      l := l0.Defer(c);
    }
  }

  /** The loop over the optional candidates. */
  method FillTiers(cs: seq<Candidate>, locality: Locality, output0: map<string, Disposition>, l0: Ledger,
                   optional: seq<Candidate>, caps: seq<nat>, budget: nat)
    returns (output: map<string, Disposition>, l: Ledger)
    requires DistinctKeys(cs) && |caps| == TIERS && Running(cs, locality, output0, l0, optional)
    ensures l == OptionalPass(l0, optional, caps, budget) && Running(cs, locality, output, l, [])
  {
    output, l := output0, l0;
    assert optional[0..] == optional;
    for i := 0 to |optional|
      invariant l == OptionalPass(l0, optional[..i], caps, budget)
      invariant Running(cs, locality, output, l, optional[i..])
    {
      TakeNext(optional, i);
      output, l := FillOne(cs, locality, output, l, optional[i..], caps, budget);
    }
    assert optional[..|optional|] == optional && optional[|optional|..] == [];
  }

  /** One deferred candidate: whatever still fits the total, from any tier. */
  method BorrowOne(cs: seq<Candidate>, locality: Locality, output0: map<string, Disposition>, l0: Ledger, rest: seq<Candidate>, budget: nat)
    returns (output: map<string, Disposition>, l: Ledger)
    requires DistinctKeys(cs) && rest != [] && Running(cs, locality, output0, l0, rest)
    ensures l == BorrowStep(l0, rest[0], budget, true) && Running(cs, locality, output, l, rest[1..])
  {
    var c := rest[0];
    if l0.used + Tokens(c) <= budget {
      RunningSelect(cs, locality, output0, l0, rest);
      output := SelectExpected(output0, c);
      l := l0.Select(c);
    } else {
      RunningDrop(cs, locality, output0, l0, rest);
      output := ExcludeExpected(output0, c, "TOTAL_BUDGET");
      l := l0.Drop(c);
    }
  }

  /** The borrow pass does not look at the deferred list it settles. */
  lemma {:induction false} BorrowPassDeferred(l: Ledger, cs: seq<Candidate>, budget: nat, borrow: bool)
    requires l.Wf()
    ensures BorrowPass(l.(deferred := []), cs, budget, borrow) == BorrowPass(l, cs, budget, borrow).(deferred := [])
  {
    if cs != [] { BorrowPassDeferred(l, cs[..|cs| - 1], budget, borrow); }
  }

  /** The loop over the deferred candidates. */
  method BorrowTiers(cs: seq<Candidate>, locality: Locality, output0: map<string, Disposition>, l0: Ledger, deferred: seq<Candidate>, budget: nat)
    returns (output: map<string, Disposition>, l: Ledger)
    requires DistinctKeys(cs) && Running(cs, locality, output0, l0, deferred)
    ensures l == BorrowPass(l0, deferred, budget, true) && Running(cs, locality, output, l, [])
  {
    output, l := output0, l0;
    assert deferred[0..] == deferred;
    for i := 0 to |deferred|
      invariant l == BorrowPass(l0, deferred[..i], budget, true)
      invariant Running(cs, locality, output, l, deferred[i..])
    {
      TakeNext(deferred, i);
      output, l := BorrowOne(cs, locality, output, l, deferred[i..], budget);
    }
    assert deferred[..|deferred|] == deferred && deferred[|deferred|..] == [];
  }

  /** The first loop: policy exclusions, and the candidates that go on to be scored. */
  method Screen(cs: seq<Candidate>, locality: Locality) returns (output: map<string, Disposition>, eligible: seq<Candidate>)
    requires DistinctKeys(cs)
    ensures eligible == Eligible(cs, locality) && RequiredRecorded(output, cs, locality)
  {
    output, eligible := map[], [];
    for i := 0 to |cs|
      invariant eligible == Eligible(cs[..i], locality) && RequiredRecorded(output, cs[..i], locality)
    {
      var c := cs[i];
      assert cs[..i + 1][..i] == cs[..i];
      var reason := RequiredExclusion(c, locality);
      if reason.Some? {
        forall d | d in cs[..i] ensures KeyOf(d) != KeyOf(c) {
          var k :| 0 <= k < i && cs[k] == d;
        }
        output := output[KeyOf(c) := Disposition(0, 0.0, reason)];
      } else {
        eligible := eligible + [c];
      }
    }
    assert cs[..|cs|] == cs;
  }

  /** What the result of `expected_compilation` says about every candidate, and its two orders. */
  ghost predicate Expected(r: Compilation, cs: seq<Candidate>, locality: Locality, op: OperationType, budget: nat) {
    var plan := HostPlan(cs, locality, op, budget);
    && r.selectedOrder == KeysOf(plan.selected)
    && r.exclusionOrder == ExclusionKeys(plan.exclusions)
    && (forall c | c in cs :: KeyOf(c) in r.disposition
          && r.disposition[KeyOf(c)] == DispositionOf(c, locality, HostLedger(cs, locality, op, budget)))
  }

  /** Opening the passes: the mandatory list is next. */
  lemma RunningStarts(cs: seq<Candidate>, locality: Locality, output: map<string, Disposition>)
    requires DistinctKeys(cs) && RequiredRecorded(output, cs, locality)
    ensures Running(cs, locality, output, EmptyLedger, Mandatory(Scored(cs, locality)))
  {
    ScoredMembers(cs, locality);
    ScoredNoRepeats(cs, locality);
    HalvesNoRepeats(Scored(cs, locality));
  }

  /** After the mandatory loop the optional list is next. */
  lemma RunningOptional(cs: seq<Candidate>, locality: Locality, output: map<string, Disposition>, l: Ledger)
    requires DistinctKeys(cs) && Running(cs, locality, output, l, []) && l == Opening(Scored(cs, locality))
    ensures Running(cs, locality, output, l, Optional(Scored(cs, locality)))
  {
    ScoredMembers(cs, locality);
    ScoredNoRepeats(cs, locality);
    HalvesNoRepeats(Scored(cs, locality));
    OpeningLedger(Scored(cs, locality));
  }

  lemma RunningDeferred(cs: seq<Candidate>, locality: Locality, output: map<string, Disposition>, l: Ledger)
    requires Running(cs, locality, output, l, [])
    ensures Running(cs, locality, output, l.(deferred := []), l.deferred)
  {
  }

  /** The three budget passes. */
  method Budget(cs: seq<Candidate>, locality: Locality, output0: map<string, Disposition>, scored: seq<Candidate>, op: OperationType, budget: nat)
    returns (output: map<string, Disposition>, l: Ledger)
    requires DistinctKeys(cs) && scored == Scored(cs, locality) && RequiredRecorded(output0, cs, locality)
    ensures l == HostLedger(cs, locality, op, budget).(deferred := [])
    ensures Recorded(output, l) && RequiredRecorded(output, cs, locality)
  {
    var caps := TierCaps(op, budget);
    RunningStarts(cs, locality, output0);
    output, l := SelectMandatory(cs, locality, output0, Mandatory(scored));
    RunningOptional(cs, locality, output, l);
    output, l := FillTiers(cs, locality, output, l, Optional(scored), caps, budget);
    var deferred := l.deferred;
    RunningDeferred(cs, locality, output, l);
    BorrowPassDeferred(l, deferred, budget, true);
    output, l := BorrowTiers(cs, locality, output, l.(deferred := []), deferred, budget);
  }

  /** The ledger settles exactly the eligible candidates. */
  lemma LedgerSettles(cs: seq<Candidate>, locality: Locality, op: OperationType, budget: nat)
    ensures var l := HostLedger(cs, locality, op, budget);
      forall c :: c in l.selected || c in l.dropped <==> c in cs && RequiredExclusion(c, locality) == None
  {
    var l := HostLedger(cs, locality, op, budget);
    ScoredMembers(cs, locality);
    AllocatePlaces(Scored(cs, locality), TierCaps(op, budget), budget, true);
    forall c
      ensures c in l.selected || c in l.dropped <==> c in Scored(cs, locality)
    {
      assert c in Settled(l) <==> c in multiset(Scored(cs, locality));
    }
  }

  lemma DispositionsRecorded(cs: seq<Candidate>, locality: Locality, op: OperationType, budget: nat, output: map<string, Disposition>)
    requires Recorded(output, HostLedger(cs, locality, op, budget)) && RequiredRecorded(output, cs, locality)
    ensures forall c | c in cs ::
      KeyOf(c) in output && output[KeyOf(c)] == DispositionOf(c, locality, HostLedger(cs, locality, op, budget))
  {
    LedgerSettles(cs, locality, op, budget);
  }

  /** The loop that reads the exclusions back from the map, in candidate order. */
  method CollectExclusions(cs: seq<Candidate>, locality: Locality, output: map<string, Disposition>, ghost l: Ledger) returns (xs: seq<Exclusion>)
    requires forall c | c in cs :: KeyOf(c) in output && output[KeyOf(c)] == DispositionOf(c, locality, l)
    ensures xs == LeftOut(cs, locality, l)
  {
    xs := [];
    for i := 0 to |cs|
      invariant xs == LeftOut(cs[..i], locality, l)
    {
      var c := cs[i];
      assert cs[..i + 1][..i] == cs[..i];
      match output[KeyOf(c)].exclusion {
        case Some(reason) => xs := xs + [Exclusion(c.sourceRef, c.sourceHash, reason)];
        case None =>
      }
    }
    assert cs[..|cs|] == cs;
  }

  /**
   `expected_compilation`. It fails exactly for an unknown operation or when the mandatory candidates
   do not fit; otherwise it returns the plan and the verdict of every candidate.
   */
  method ExpectedCompilation(cs: seq<Candidate>, locality: Locality, operation: string, budget: nat)
    returns (r: Result<Compilation, string>)
    requires DistinctKeys(cs)
    ensures r.Success? <==> OperationOf(operation).Some? && MandatoryFits(cs, locality, budget)
    ensures r.Success? ==> Expected(r.value, cs, locality, OperationOf(operation).value, budget)
  {
    var op := OperationOf(operation);
    if op == None {
      return Failure("Context Packet operation profile is unsupported");
    }
    var output, eligible := Screen(cs, locality);
    var scored := SortBy(HostLe, eligible);
    if TotalTokens(Mandatory(scored)) > budget {
      return Failure("Host Context candidates exceed the mandatory token budget");
    }
    var l;
    output, l := Budget(cs, locality, output, scored, op.value, budget);
    DispositionsRecorded(cs, locality, op.value, budget, output);
    var selected := SortBy(HostPacketLe, l.selected);
    var exclusions := CollectExclusions(cs, locality, output, HostLedger(cs, locality, op.value, budget));
    exclusions := SortBy(HostExclusionLe, exclusions);
    r := Success(Compilation(output, KeysOf(selected), ExclusionKeys(exclusions)));
  }
}
