/**
 The budget allocator both context compilers contain: mandatory candidates, then optional ones
 within their tier's share, then the deferred ones from whatever is left.

 `Allocate` is the specification both implementations are proved against; the lemmas say what
 it guarantees: the budget, an exact partition, maximality and each tier's share.
 */
module ContextAllocation {
  import opened ContextModel

  /** Selected so far, put off, left out for lack of budget, and the tokens spent. */
  datatype Ledger = Ledger(selected: seq<Candidate>, deferred: seq<Candidate>, dropped: seq<Candidate>, used: nat, tierUsed: seq<nat>) {
    predicate Wf() { |tierUsed| == TIERS }

    function Select(c: Candidate): (l: Ledger)
      requires Wf()
      ensures l.Wf()
    {
      var t := c.tier.Index();
      Ledger(selected + [c], deferred, dropped, used + Tokens(c), tierUsed[t := tierUsed[t] + Tokens(c)])
    }

    function Defer(c: Candidate): Ledger { this.(deferred := deferred + [c]) }

    function Drop(c: Candidate): Ledger { this.(dropped := dropped + [c]) }
  }

  const EmptyLedger := Ledger([], [], [], 0, [0, 0, 0, 0, 0])

  function SelectAll(l: Ledger, cs: seq<Candidate>): (r: Ledger)
    requires l.Wf()
    ensures r.Wf()
  {
    if cs == [] then l else SelectAll(l, cs[..|cs| - 1]).Select(cs[|cs| - 1])
  }

  function OptionalStep(l: Ledger, c: Candidate, caps: seq<nat>, budget: nat): (r: Ledger)
    requires l.Wf() && |caps| == TIERS
    ensures r.Wf()
  {
    if l.used + Tokens(c) > budget then l.Drop(c)
    else if l.tierUsed[c.tier.Index()] + Tokens(c) <= caps[c.tier.Index()] then l.Select(c)
    else l.Defer(c)
  }

  function OptionalPass(l: Ledger, cs: seq<Candidate>, caps: seq<nat>, budget: nat): (r: Ledger)
    requires l.Wf() && |caps| == TIERS
    ensures r.Wf()
  {
    if cs == [] then l
    else OptionalStep(OptionalPass(l, cs[..|cs| - 1], caps, budget), cs[|cs| - 1], caps, budget)
  }

  function BorrowStep(l: Ledger, c: Candidate, budget: nat, borrow: bool): (r: Ledger)
    requires l.Wf()
    ensures r.Wf()
  {
    if borrow && l.used + Tokens(c) <= budget then l.Select(c) else l.Drop(c)
  }

  function BorrowPass(l: Ledger, cs: seq<Candidate>, budget: nat, borrow: bool): (r: Ledger)
    requires l.Wf()
    ensures r.Wf()
  {
    if cs == [] then l
    else BorrowStep(BorrowPass(l, cs[..|cs| - 1], budget, borrow), cs[|cs| - 1], budget, borrow)
  }

  function Mandatory(cs: seq<Candidate>): seq<Candidate> {
    if cs == [] then []
    else Mandatory(cs[..|cs| - 1]) + if cs[|cs| - 1].mandatory then [cs[|cs| - 1]] else []
  }

  function Optional(cs: seq<Candidate>): seq<Candidate> {
    if cs == [] then []
    else Optional(cs[..|cs| - 1]) + if cs[|cs| - 1].mandatory then [] else [cs[|cs| - 1]]
  }

  function FirstPass(cs: seq<Candidate>, caps: seq<nat>, budget: nat): (r: Ledger)
    requires |caps| == TIERS
    ensures r.Wf()
  {
    OptionalPass(Opening(cs), Optional(cs), caps, budget)
  }

  function Allocate(cs: seq<Candidate>, caps: seq<nat>, budget: nat, borrow: bool): (r: Ledger)
    requires |caps| == TIERS
    ensures r.Wf()
  {
    var first := FirstPass(cs, caps, budget);
    BorrowPass(first, first.deferred, budget, borrow)
  }

  // ----- The tokens spent are those of the selected candidates

  function OfTier(cs: seq<Candidate>, t: Tier): seq<Candidate> {
    if cs == [] then []
    else OfTier(cs[..|cs| - 1], t) + if cs[|cs| - 1].tier == t then [cs[|cs| - 1]] else []
  }

  function Sum(s: seq<nat>): nat
    requires |s| == TIERS
  {
    s[0] + s[1] + s[2] + s[3] + s[4]
  }

  /** The books balance: in total, per tier, and across tiers. */
  ghost predicate Balanced(l: Ledger) {
    && l.Wf()
    && l.used == TotalTokens(l.selected)
    && l.used == Sum(l.tierUsed)
    && (forall t: Tier :: l.tierUsed[t.Index()] == TotalTokens(OfTier(l.selected, t)))
  }

  lemma OfTierSnoc(cs: seq<Candidate>, c: Candidate, t: Tier)
    ensures OfTier(cs + [c], t) == if c.tier == t then OfTier(cs, t) + [c] else OfTier(cs, t)
  {
    assert (cs + [c])[..|cs|] == cs;
  }

  lemma TotalTokensSnoc(cs: seq<Candidate>, c: Candidate)
    ensures TotalTokens(cs + [c]) == TotalTokens(cs) + Tokens(c)
  {
    assert (cs + [c])[..|cs|] == cs;
  }

  lemma SelectTier(l: Ledger, c: Candidate, t: Tier)
    requires l.Wf() && l.tierUsed[t.Index()] == TotalTokens(OfTier(l.selected, t))
    ensures l.Select(c).tierUsed[t.Index()] == TotalTokens(OfTier(l.Select(c).selected, t))
  {
    OfTierSnoc(l.selected, c, t);
    TotalTokensSnoc(OfTier(l.selected, t), c);
    assert t.Index() == c.tier.Index() ==> t == c.tier;
  }

  lemma SelectTotals(l: Ledger, c: Candidate)
    requires l.Wf() && l.used == TotalTokens(l.selected) && l.used == Sum(l.tierUsed)
    ensures l.Select(c).used == TotalTokens(l.Select(c).selected)
    ensures l.Select(c).used == Sum(l.Select(c).tierUsed)
  {
    TotalTokensSnoc(l.selected, c);
  }

  lemma SelectBalanced(l: Ledger, c: Candidate)
    requires Balanced(l)
    ensures Balanced(l.Select(c))
  {
    SelectTotals(l, c);
    var r := l.Select(c);
    forall t: Tier
      ensures r.tierUsed[t.Index()] == TotalTokens(OfTier(r.selected, t))
    {
      SelectTier(l, c, t);
    }
  }

  lemma {:induction false} SelectAllBalanced(l: Ledger, cs: seq<Candidate>)
    requires Balanced(l)
    ensures Balanced(SelectAll(l, cs))
  {
    if cs != [] {
      SelectAllBalanced(l, cs[..|cs| - 1]);
      SelectBalanced(SelectAll(l, cs[..|cs| - 1]), cs[|cs| - 1]);
    }
  }

  lemma {:induction false} SelectAllSelects(l: Ledger, cs: seq<Candidate>)
    requires l.Wf()
    ensures SelectAll(l, cs).selected == l.selected + cs
    ensures SelectAll(l, cs).deferred == l.deferred && SelectAll(l, cs).dropped == l.dropped
  {
    if cs != [] {
      SelectAllSelects(l, cs[..|cs| - 1]);
      assert cs == cs[..|cs| - 1] + [cs[|cs| - 1]];
    }
  }

  lemma OptionalStepBalanced(l: Ledger, c: Candidate, caps: seq<nat>, budget: nat)
    requires Balanced(l) && |caps| == TIERS
    ensures Balanced(OptionalStep(l, c, caps, budget))
  {
    SelectBalanced(l, c);
  }

  lemma {:induction false} OptionalPassBalanced(l: Ledger, cs: seq<Candidate>, caps: seq<nat>, budget: nat)
    requires Balanced(l) && |caps| == TIERS
    ensures Balanced(OptionalPass(l, cs, caps, budget))
  {
    if cs != [] {
      OptionalPassBalanced(l, cs[..|cs| - 1], caps, budget);
      OptionalStepBalanced(OptionalPass(l, cs[..|cs| - 1], caps, budget), cs[|cs| - 1], caps, budget);
    }
  }

  lemma BorrowStepBalanced(l: Ledger, c: Candidate, budget: nat, borrow: bool)
    requires Balanced(l)
    ensures Balanced(BorrowStep(l, c, budget, borrow))
  {
    SelectBalanced(l, c);
  }

  lemma {:induction false} BorrowPassBalanced(l: Ledger, cs: seq<Candidate>, budget: nat, borrow: bool)
    requires Balanced(l)
    ensures Balanced(BorrowPass(l, cs, budget, borrow))
  {
    if cs != [] {
      BorrowPassBalanced(l, cs[..|cs| - 1], budget, borrow);
      BorrowStepBalanced(BorrowPass(l, cs[..|cs| - 1], budget, borrow), cs[|cs| - 1], budget, borrow);
    }
  }

  // ----- Partition and maximality

  /** Everything the ledger has decided on, with multiplicity. */
  ghost function Settled(l: Ledger): multiset<Candidate> {
    multiset(l.selected) + multiset(l.dropped)
  }

  /** Within budget, and nothing was dropped that would still fit. */
  ghost predicate Tight(l: Ledger, budget: nat) {
    && l.used <= budget
    && (forall c | c in l.dropped :: l.used + Tokens(c) > budget)
  }

  lemma {:induction false} OptionalPassTight(l: Ledger, cs: seq<Candidate>, caps: seq<nat>, budget: nat)
    requires l.Wf() && Tight(l, budget) && |caps| == TIERS
    ensures Tight(OptionalPass(l, cs, caps, budget), budget)
  {
    if cs != [] { OptionalPassTight(l, cs[..|cs| - 1], caps, budget); }
  }

  lemma {:induction false} BorrowPassTight(l: Ledger, cs: seq<Candidate>, budget: nat)
    requires l.Wf() && Tight(l, budget)
    ensures Tight(BorrowPass(l, cs, budget, true), budget)
  {
    if cs != [] { BorrowPassTight(l, cs[..|cs| - 1], budget); }
  }

  lemma OptionalStepPlaces(l: Ledger, c: Candidate, caps: seq<nat>, budget: nat)
    requires l.Wf() && |caps| == TIERS
    ensures var r := OptionalStep(l, c, caps, budget);
      Settled(r) + multiset(r.deferred) == Settled(l) + multiset(l.deferred) + multiset{c}
  {
  }

  lemma {:induction false} OptionalPassPlaces(l: Ledger, cs: seq<Candidate>, caps: seq<nat>, budget: nat)
    requires l.Wf() && |caps| == TIERS
    ensures var r := OptionalPass(l, cs, caps, budget);
      Settled(r) + multiset(r.deferred) == Settled(l) + multiset(l.deferred) + multiset(cs)
  {
    if cs != [] {
      var init, last := cs[..|cs| - 1], cs[|cs| - 1];
      assert cs == init + [last];
      OptionalPassPlaces(l, init, caps, budget);
      OptionalStepPlaces(OptionalPass(l, init, caps, budget), last, caps, budget);
    }
  }

  lemma BorrowStepPlaces(l: Ledger, c: Candidate, budget: nat, borrow: bool)
    requires l.Wf()
    ensures Settled(BorrowStep(l, c, budget, borrow)) == Settled(l) + multiset{c}
  {
  }

  lemma {:induction false} BorrowPassPlaces(l: Ledger, cs: seq<Candidate>, budget: nat, borrow: bool)
    requires l.Wf()
    ensures Settled(BorrowPass(l, cs, budget, borrow)) == Settled(l) + multiset(cs)
  {
    if cs != [] {
      var init, last := cs[..|cs| - 1], cs[|cs| - 1];
      assert cs == init + [last];
      BorrowPassPlaces(l, init, budget, borrow);
      BorrowStepPlaces(BorrowPass(l, init, budget, borrow), last, budget, borrow);
    }
  }

  lemma {:induction false} MandatorySplit(cs: seq<Candidate>)
    ensures multiset(Mandatory(cs)) + multiset(Optional(cs)) == multiset(cs)
    ensures forall c | c in Mandatory(cs) :: c.mandatory
    ensures forall c | c in Optional(cs) :: !c.mandatory
  {
    if cs != [] {
      assert cs == cs[..|cs| - 1] + [cs[|cs| - 1]];
      MandatorySplit(cs[..|cs| - 1]);
    }
  }

  lemma EmptyBalanced()
    ensures Balanced(EmptyLedger)
  {
    assert Sum(EmptyLedger.tierUsed) == 0;
  }

  /** The ledger the mandatory candidates open. */
  function Opening(cs: seq<Candidate>): (l: Ledger)
    ensures l.Wf()
  {
    SelectAll(EmptyLedger, Mandatory(cs))
  }

  lemma OpeningLedger(cs: seq<Candidate>)
    ensures var l := Opening(cs);
      Balanced(l) && l.selected == Mandatory(cs) && l.deferred == [] && l.dropped == []
  {
    EmptyBalanced();
    SelectAllBalanced(EmptyLedger, Mandatory(cs));
    SelectAllSelects(EmptyLedger, Mandatory(cs));
  }

  lemma AllocateBalanced(cs: seq<Candidate>, caps: seq<nat>, budget: nat, borrow: bool)
    requires |caps| == TIERS
    ensures Balanced(FirstPass(cs, caps, budget)) && Balanced(Allocate(cs, caps, budget, borrow))
  {
    OpeningLedger(cs);
    OptionalPassBalanced(Opening(cs), Optional(cs), caps, budget);
    BorrowPassBalanced(FirstPass(cs, caps, budget), FirstPass(cs, caps, budget).deferred, budget, borrow);
  }

  lemma AllocatePlaces(cs: seq<Candidate>, caps: seq<nat>, budget: nat, borrow: bool)
    requires |caps| == TIERS
    ensures Settled(Allocate(cs, caps, budget, borrow)) == multiset(cs)
  {
    OpeningLedger(cs);
    OptionalPassPlaces(Opening(cs), Optional(cs), caps, budget);
    BorrowPassPlaces(FirstPass(cs, caps, budget), FirstPass(cs, caps, budget).deferred, budget, borrow);
    MandatorySplit(cs);
  }

  lemma AllocateTight(cs: seq<Candidate>, caps: seq<nat>, budget: nat)
    requires |caps| == TIERS && TotalTokens(Mandatory(cs)) <= budget
    ensures Tight(Allocate(cs, caps, budget, true), budget)
  {
    OpeningLedger(cs);
    OptionalPassTight(Opening(cs), Optional(cs), caps, budget);
    BorrowPassTight(FirstPass(cs, caps, budget), FirstPass(cs, caps, budget).deferred, budget);
  }

  lemma AllocateExtends(cs: seq<Candidate>, caps: seq<nat>, budget: nat, borrow: bool)
    requires |caps| == TIERS
    ensures Mandatory(cs) <= FirstPass(cs, caps, budget).selected <= Allocate(cs, caps, budget, borrow).selected
  {
    OpeningLedger(cs);
    OptionalPassExtends(Opening(cs), Optional(cs), caps, budget);
    BorrowPassExtends(FirstPass(cs, caps, budget), FirstPass(cs, caps, budget).deferred, budget, borrow);
  }

  /**
   What the allocator guarantees when the mandatory candidates fit: the tokens of the selection are
   within budget, every candidate is selected or dropped and not both, every mandatory one is
   selected, and whatever was dropped would not fit the final total.
   */
  lemma AllocateGuarantees(cs: seq<Candidate>, caps: seq<nat>, budget: nat)
    requires |caps| == TIERS && TotalTokens(Mandatory(cs)) <= budget
    ensures var r := Allocate(cs, caps, budget, true);
      && TotalTokens(r.selected) == r.used <= budget
      && multiset(r.selected) + multiset(r.dropped) == multiset(cs)
      && (forall c | c in r.dropped :: TotalTokens(r.selected) + Tokens(c) > budget)
      && Mandatory(cs) <= r.selected
  {
    AllocateBalanced(cs, caps, budget, true);
    AllocatePlaces(cs, caps, budget, true);
    AllocateTight(cs, caps, budget);
    AllocateExtends(cs, caps, budget, true);
  }

  lemma {:induction false} OptionalPassExtends(l: Ledger, cs: seq<Candidate>, caps: seq<nat>, budget: nat)
    requires l.Wf() && |caps| == TIERS
    ensures l.selected <= OptionalPass(l, cs, caps, budget).selected
  {
    if cs != [] { OptionalPassExtends(l, cs[..|cs| - 1], caps, budget); }
  }

  lemma {:induction false} BorrowPassExtends(l: Ledger, cs: seq<Candidate>, budget: nat, borrow: bool)
    requires l.Wf()
    ensures l.selected <= BorrowPass(l, cs, budget, borrow).selected
  {
    if cs != [] { BorrowPassExtends(l, cs[..|cs| - 1], budget, borrow); }
  }

  // ----- Only optional candidates are left out

  ghost predicate OptionalOnly(cs: seq<Candidate>) {
    forall c | c in cs :: !c.mandatory
  }

  lemma {:induction false} OptionalPassOptional(l: Ledger, cs: seq<Candidate>, caps: seq<nat>, budget: nat)
    requires l.Wf() && |caps| == TIERS && OptionalOnly(cs) && OptionalOnly(l.deferred) && OptionalOnly(l.dropped)
    ensures var r := OptionalPass(l, cs, caps, budget); OptionalOnly(r.deferred) && OptionalOnly(r.dropped)
  {
    if cs != [] { OptionalPassOptional(l, cs[..|cs| - 1], caps, budget); }
  }

  lemma {:induction false} BorrowPassOptional(l: Ledger, cs: seq<Candidate>, budget: nat, borrow: bool)
    requires l.Wf() && OptionalOnly(cs) && OptionalOnly(l.dropped)
    ensures OptionalOnly(BorrowPass(l, cs, budget, borrow).dropped)
  {
    if cs != [] { BorrowPassOptional(l, cs[..|cs| - 1], budget, borrow); }
  }

  lemma AllocateDropsOptional(cs: seq<Candidate>, caps: seq<nat>, budget: nat, borrow: bool)
    requires |caps| == TIERS
    ensures OptionalOnly(Allocate(cs, caps, budget, borrow).dropped)
  {
    OpeningLedger(cs);
    MandatorySplit(cs);
    OptionalPassOptional(Opening(cs), Optional(cs), caps, budget);
    BorrowPassOptional(FirstPass(cs, caps, budget), FirstPass(cs, caps, budget).deferred, budget, borrow);
  }

  // ----- Tier shares

  /** Filling one tier on its own: take each candidate in turn that fits what is left of the cap. */
  function Greedy(cs: seq<Candidate>, spent: nat, cap: nat): seq<Candidate> {
    if cs == [] then []
    else
      var picked, last := Greedy(cs[..|cs| - 1], spent, cap), cs[|cs| - 1];
      if spent + TotalTokens(picked) + Tokens(last) <= cap then picked + [last] else picked
  }

  ghost predicate WithinCaps(l: Ledger, caps: seq<nat>)
    requires l.Wf() && |caps| == TIERS
  {
    forall t: Tier :: l.tierUsed[t.Index()] <= caps[t.Index()]
  }

  /** When every tier is within its cap, a candidate that fits its tier fits the total. */
  lemma TierFitIsTotalFit(l: Ledger, c: Candidate, caps: seq<nat>, budget: nat)
    requires Balanced(l) && |caps| == TIERS && WithinCaps(l, caps) && Sum(caps) <= budget
    requires l.tierUsed[c.tier.Index()] + Tokens(c) <= caps[c.tier.Index()]
    ensures l.used + Tokens(c) <= budget
  {
    assert l.tierUsed[L0_TARGET.Index()] <= caps[0] && l.tierUsed[L1_LOCAL.Index()] <= caps[1];
    assert l.tierUsed[L2_STRUCTURAL.Index()] <= caps[2] && l.tierUsed[L3_KNOWLEDGE.Index()] <= caps[3];
    assert l.tierUsed[L4_STYLE_GLOBAL.Index()] <= caps[4];
  }

  lemma {:induction false} TotalTokensConcat(xs: seq<Candidate>, ys: seq<Candidate>)
    ensures TotalTokens(xs + ys) == TotalTokens(xs) + TotalTokens(ys)
  {
    if ys == [] {
      assert xs + ys == xs;
    } else {
      assert (xs + ys)[..|xs + ys| - 1] == xs + ys[..|ys| - 1];
      TotalTokensConcat(xs, ys[..|ys| - 1]);
    }
  }

  /**
   The first pass treats every tier as if it were alone: what it selects of a tier is what filling
   that tier's own cap selects, whatever the other tiers hold.
   */
  ghost predicate Share(l: Ledger, l0: Ledger, cs: seq<Candidate>, caps: seq<nat>, t: Tier)
    requires l0.Wf() && |caps| == TIERS
  {
    OfTier(l.selected, t) ==
      OfTier(l0.selected, t) + Greedy(OfTier(cs, t), l0.tierUsed[t.Index()], caps[t.Index()])
  }

  lemma GreedySnoc(cs: seq<Candidate>, c: Candidate, spent: nat, cap: nat)
    ensures var picked := Greedy(cs, spent, cap);
      Greedy(cs + [c], spent, cap) == if spent + TotalTokens(picked) + Tokens(c) <= cap then picked + [c] else picked
  {
    assert (cs + [c])[..|cs|] == cs;
  }

  /** A candidate of another tier changes nothing for tier t. */
  lemma ShareOther(l: Ledger, l0: Ledger, cs: seq<Candidate>, c: Candidate, caps: seq<nat>, budget: nat, t: Tier)
    requires l0.Wf() && l.Wf() && |caps| == TIERS && Share(l, l0, cs, caps, t) && c.tier != t
    ensures Share(OptionalStep(l, c, caps, budget), l0, cs + [c], caps, t)
  {
    OfTierSnoc(cs, c, t);
    OfTierSnoc(l.selected, c, t);
  }

  lemma ShareSpent(l: Ledger, l0: Ledger, cs: seq<Candidate>, caps: seq<nat>, t: Tier)
    requires Balanced(l0) && Balanced(l) && |caps| == TIERS && Share(l, l0, cs, caps, t)
    ensures SpentAlone(l, l0, cs, caps, t)
  {
    TotalTokensConcat(OfTier(l0.selected, t), Greedy(OfTier(cs, t), l0.tierUsed[t.Index()], caps[t.Index()]));
  }

  /** The tier's spending so far, as the tier on its own would have it. */
  ghost predicate SpentAlone(l: Ledger, l0: Ledger, cs: seq<Candidate>, caps: seq<nat>, t: Tier)
    requires l.Wf() && l0.Wf() && |caps| == TIERS
  {
    var spent := l0.tierUsed[t.Index()];
    l.tierUsed[t.Index()] == spent + TotalTokens(Greedy(OfTier(cs, t), spent, caps[t.Index()]))
  }

  lemma ShareTaken(l: Ledger, l0: Ledger, cs: seq<Candidate>, c: Candidate, caps: seq<nat>, budget: nat, t: Tier)
    requires l.Wf() && l0.Wf() && |caps| == TIERS && Share(l, l0, cs, caps, t) && SpentAlone(l, l0, cs, caps, t)
    requires c.tier == t && l.tierUsed[t.Index()] + Tokens(c) <= caps[t.Index()] && l.used + Tokens(c) <= budget
    ensures Share(OptionalStep(l, c, caps, budget), l0, cs + [c], caps, t)
  {
    var mine, spent, cap := OfTier(cs, t), l0.tierUsed[t.Index()], caps[t.Index()];
    var before, picked := OfTier(l0.selected, t), Greedy(mine, spent, cap);
    calc {
      OfTier(OptionalStep(l, c, caps, budget).selected, t);
      OfTier(l.selected + [c], t);
      { OfTierSnoc(l.selected, c, t); }
      (before + picked) + [c];
      before + (picked + [c]);
      { GreedySnoc(mine, c, spent, cap); }
      before + Greedy(mine + [c], spent, cap);
      { OfTierSnoc(cs, c, t); }
      before + Greedy(OfTier(cs + [c], t), spent, cap);
    }
  }

  lemma ShareNotTaken(l: Ledger, l0: Ledger, cs: seq<Candidate>, c: Candidate, caps: seq<nat>, budget: nat, t: Tier)
    requires l.Wf() && l0.Wf() && |caps| == TIERS && Share(l, l0, cs, caps, t) && SpentAlone(l, l0, cs, caps, t)
    requires c.tier == t && l.tierUsed[t.Index()] + Tokens(c) > caps[t.Index()]
    ensures Share(OptionalStep(l, c, caps, budget), l0, cs + [c], caps, t)
  {
    OfTierSnoc(cs, c, t);
    GreedySnoc(OfTier(cs, t), c, l0.tierUsed[t.Index()], caps[t.Index()]);
  }

  lemma ShareOwn(l: Ledger, l0: Ledger, cs: seq<Candidate>, c: Candidate, caps: seq<nat>, budget: nat, t: Tier)
    requires Balanced(l0) && Balanced(l) && |caps| == TIERS && WithinCaps(l, caps) && Sum(caps) <= budget
    requires Share(l, l0, cs, caps, t) && c.tier == t
    ensures Share(OptionalStep(l, c, caps, budget), l0, cs + [c], caps, t)
  {
    ShareSpent(l, l0, cs, caps, t);
    if l.tierUsed[t.Index()] + Tokens(c) <= caps[t.Index()] {
      TierFitIsTotalFit(l, c, caps, budget);
      ShareTaken(l, l0, cs, c, caps, budget, t);
    } else {
      ShareNotTaken(l, l0, cs, c, caps, budget, t);
    }
  }

  lemma OptionalStepWithinCaps(l: Ledger, c: Candidate, caps: seq<nat>, budget: nat)
    requires l.Wf() && |caps| == TIERS && WithinCaps(l, caps)
    ensures WithinCaps(OptionalStep(l, c, caps, budget), caps)
  {
    var r := OptionalStep(l, c, caps, budget);
    forall t: Tier ensures r.tierUsed[t.Index()] <= caps[t.Index()] {
      assert l.tierUsed[t.Index()] <= caps[t.Index()];
      assert t.Index() == c.tier.Index() ==> t == c.tier;
    }
  }

  lemma {:induction false} OptionalPassShares(l0: Ledger, cs: seq<Candidate>, caps: seq<nat>, budget: nat, t: Tier)
    requires Balanced(l0) && |caps| == TIERS && WithinCaps(l0, caps) && Sum(caps) <= budget
    ensures WithinCaps(OptionalPass(l0, cs, caps, budget), caps)
    ensures Share(OptionalPass(l0, cs, caps, budget), l0, cs, caps, t)
  {
    if cs == [] {
      assert OfTier(l0.selected, t) + [] == OfTier(l0.selected, t);
    } else {
      var init, last := cs[..|cs| - 1], cs[|cs| - 1];
      assert cs == init + [last];
      OptionalPassShares(l0, init, caps, budget, t);
      OptionalPassBalanced(l0, init, caps, budget);
      var l := OptionalPass(l0, init, caps, budget);
      OptionalStepWithinCaps(l, last, caps, budget);
      if last.tier == t {
        ShareOwn(l, l0, init, last, caps, budget, t);
      } else {
        ShareOther(l, l0, init, last, caps, budget, t);
      }
    }
  }

  /**
   No tier starves another. If the mandatory candidates of every tier fit its cap, the first pass
   selects of every tier exactly what filling that cap alone selects, and the borrow pass takes
   none of it back.
   */
  lemma TierSharesGuaranteed(cs: seq<Candidate>, caps: seq<nat>, budget: nat, t: Tier)
    requires |caps| == TIERS && Sum(caps) <= budget
    requires forall u: Tier :: TotalTokens(OfTier(Mandatory(cs), u)) <= caps[u.Index()]
    ensures var mine := OfTier(Mandatory(cs), t);
      && OfTier(FirstPass(cs, caps, budget).selected, t)
           == mine + Greedy(OfTier(Optional(cs), t), TotalTokens(mine), caps[t.Index()])
      && FirstPass(cs, caps, budget).selected <= Allocate(cs, caps, budget, true).selected
  {
    OpeningLedger(cs);
    OptionalPassShares(Opening(cs), Optional(cs), caps, budget, t);
    AllocateExtends(cs, caps, budget, true);
  }

  // ----- The caps of the operation profiles

  datatype OperationType = Polish | ContinueScene | Compress | Expand | Critique

  /** Tier fractions in hundredths. */
  function TierFractions(op: OperationType): (f: seq<nat>)
    ensures |f| == TIERS && Sum(f) == 100
  {
    match op
    case Polish => [45, 35, 8, 4, 8]
    case ContinueScene => [25, 25, 20, 22, 8]
    case Compress => [60, 20, 10, 5, 5]
    case Expand => [40, 20, 15, 15, 10]
    case Critique => [15, 10, 35, 25, 15]
  }

  function TierCaps(op: OperationType, budget: nat): (caps: seq<nat>)
    ensures |caps| == TIERS
  {
    var f := TierFractions(op);
    [budget * f[0] / 100, budget * f[1] / 100, budget * f[2] / 100, budget * f[3] / 100, budget * f[4] / 100]
  }

  /** The floored caps of every profile leave the budget unexceeded. */
  lemma CapsFitBudget(op: OperationType, budget: nat)
    ensures Sum(TierCaps(op, budget)) <= budget
  {
    var f := TierFractions(op);
    assert budget * f[0] + budget * f[1] + budget * f[2] + budget * f[3] + budget * f[4] == budget * 100;
  }
}
