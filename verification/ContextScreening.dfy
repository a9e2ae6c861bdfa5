/**
 What the two compilers let through and why they leave the rest out, said about the fields of the
 candidates alone: policy, order and token counts as a reader of a packet sees them.
 */
module ContextScreening {
  import opened Common
  import opened ContextModel
  import opened ContextAllocation
  import opened ContextHost
  import opened ContextCheck
  import opened ContextClient
  import opened ContextRefinement
  import opened ContextAgreement
  import opened Sorting
  import Lex

  // ----- What may be in a packet

  /** Not archived, rejected or deleted; a draft only if selected; never-send only for a local provider. */
  lemma EligibleAdmitted(cs: seq<Candidate>, locality: Locality, c: Candidate)
    ensures c in Eligible(cs, locality) <==>
      && c in cs
      && c.status != Archived && c.status != Rejected && c.status != Deleted
      && (c.status == Draft ==> c.selectedByUser)
      && (c.sensitivity == NeverSend ==> locality == LocalProvider)
  {
    EligibleMembers(cs, locality);
  }

  /** Every candidate in the host's plan may be sent. */
  lemma HostSendsAdmitted(cs: seq<Candidate>, locality: Locality, op: OperationType, budget: nat)
    ensures forall c | c in HostPlan(cs, locality, op, budget).selected ::
      && c in cs
      && c.status != Archived && c.status != Rejected && c.status != Deleted
      && (c.status == Draft ==> c.selectedByUser)
      && (c.sensitivity == NeverSend ==> locality == LocalProvider)
  {
    HostSelects(cs, locality, op, budget);
    forall c | c in Eligible(cs, locality)
      ensures c in cs && c.status != Archived && c.status != Rejected && c.status != Deleted
      ensures (c.status == Draft ==> c.selectedByUser) && (c.sensitivity == NeverSend ==> locality == LocalProvider)
    {
      EligibleAdmitted(cs, locality, c);
    }
  }

  lemma HostSelects(cs: seq<Candidate>, locality: Locality, op: OperationType, budget: nat)
    ensures forall c | c in HostPlan(cs, locality, op, budget).selected :: c in Eligible(cs, locality)
  {
    var s, l := Scored(cs, locality), HostLedger(cs, locality, op, budget);
    AllocatePlaces(s, TierCaps(op, budget), budget, true);
    SettledMembers(s, l);
    SortByMembers(HostLe, Eligible(cs, locality));
    SortByMembers(HostPacketLe, l.selected);
  }

  lemma UniqueMembers(cs: seq<Candidate>)
    ensures forall c | c in Unique(cs) :: c in cs
  {
    if cs != [] { UniqueMembers(cs[..|cs| - 1]); }
  }

  lemma SettledMembers(cs: seq<Candidate>, l: Ledger)
    requires Settled(l) == multiset(cs)
    ensures forall c | c in l.selected || c in l.dropped :: c in cs
  {
    forall c | c in l.selected || c in l.dropped
      ensures c in cs
    {
      assert c in Settled(l);
      assert c in multiset(cs);
    }
  }

  lemma ClientPicks(cs: seq<Candidate>, locality: Locality, op: OperationType, budget: nat, locale: Locale)
    ensures var l := ClientLedger(cs, locality, op, budget, locale);
      forall c | c in l.selected || c in l.dropped :: c in Eligible(cs, locality)
  {
    var scored := ClientScored(cs, locality, locale);
    AllocatePlaces(Unique(scored), TierCaps(op, budget), budget, true);
    SettledMembers(Unique(scored), ClientLedger(cs, locality, op, budget, locale));
    UniqueMembers(scored);
    SortByMembers(ClientLe(locale), Eligible(cs, locality));
  }

  lemma ClientSelects(cs: seq<Candidate>, locality: Locality, op: OperationType, budget: nat, locale: Locale)
    requires ClientPlan(cs, locality, op, budget, locale).Success?
    ensures forall c | c in ClientPlan(cs, locality, op, budget, locale).value.selected :: c in Eligible(cs, locality)
  {
    ClientPicks(cs, locality, op, budget, locale);
    SortByMembers(ClientPacketLe(locale), ClientLedger(cs, locality, op, budget, locale).selected);
  }

  /** Every candidate in a plan of the client may be sent. */
  lemma ClientSendsAdmitted(cs: seq<Candidate>, locality: Locality, op: OperationType, budget: nat, locale: Locale)
    requires ClientPlan(cs, locality, op, budget, locale).Success?
    ensures forall c | c in ClientPlan(cs, locality, op, budget, locale).value.selected ::
      && c in cs
      && c.status != Archived && c.status != Rejected && c.status != Deleted
      && (c.status == Draft ==> c.selectedByUser)
      && (c.sensitivity == NeverSend ==> locality == LocalProvider)
  {
    ClientSelects(cs, locality, op, budget, locale);
    forall c | c in Eligible(cs, locality)
      ensures c in cs && c.status != Archived && c.status != Rejected && c.status != Deleted
      ensures (c.status == Draft ==> c.selectedByUser) && (c.sensitivity == NeverSend ==> locality == LocalProvider)
    {
      EligibleAdmitted(cs, locality, c);
    }
  }

  /** Every item of an accepted packet is a candidate of the host, field by field, that may be sent. */
  lemma AcceptedItemsAdmitted(p: Packet, cs: seq<Candidate>, operation: string, sha: string -> string, shape: Item -> bool, k: nat)
    returns (c: Candidate)
    requires Hashed(cs, sha) && Accepts(p, cs, operation, sha, shape) && k < |p.items|
    ensures c in cs
    ensures var i := p.items[k];
      && i.id == c.id && i.sourceRef == c.sourceRef && i.sourceHash == c.sourceHash && i.content == c.content
      && i.sourceHash == sha(i.content)
      && i.tier == c.tier && i.status == c.status && i.authority == c.authority && i.sensitivity == c.sensitivity
      && i.renderMode == c.renderMode && i.reasonCodes == c.reasonCodes && i.mandatory == c.mandatory
      && i.estimatedTokens == Tokens(c) && -1.0 <= i.score - RawScore(c) <= 1.0
    ensures var i := p.items[k];
      && i.status != Archived && i.status != Rejected && i.status != Deleted
      && (i.status == Draft ==> c.selectedByUser)
      && (i.sensitivity == NeverSend ==> p.providerLocality == LocalProvider)
  {
    var op := OperationOf(operation).value;
    var plan := HostPlan(cs, p.providerLocality, op, p.inputBudget);
    c := plan.selected[k];
    assert ItemMatches(p.items[k], c, sha, shape);
    HostSendsAdmitted(cs, p.providerLocality, op, p.inputBudget);
    RoundedWithin(c);
  }

  // ----- Why a candidate is left out

  ghost predicate IneligibleStatus(c: Candidate) {
    c.status == Archived || c.status == Rejected || c.status == Deleted
  }

  ghost predicate UnselectedDraft(c: Candidate) { c.status == Draft && !c.selectedByUser }

  ghost predicate Denied(c: Candidate, locality: Locality) {
    && locality == RemoteProvider && c.sensitivity == NeverSend
    && !IneligibleStatus(c) && !UnselectedDraft(c)
  }

  /** The reason a candidate is left out with, in terms of its fields. */
  lemma ReasonsExactly(c: Candidate, locality: Locality, l: Ledger)
    ensures ReasonOf(c, locality, l) == Some("INELIGIBLE_STATUS") <==> IneligibleStatus(c)
    ensures ReasonOf(c, locality, l) == Some("DRAFT_NOT_SELECTED") <==> UnselectedDraft(c)
    ensures ReasonOf(c, locality, l) == Some("POLICY_DENIED") <==> Denied(c, locality)
    ensures ReasonOf(c, locality, l) == Some("TOTAL_BUDGET") <==>
      !IneligibleStatus(c) && !UnselectedDraft(c) && !Denied(c, locality) && c !in l.selected
    ensures ReasonOf(c, locality, l) == None <==>
      !IneligibleStatus(c) && !UnselectedDraft(c) && !Denied(c, locality) && c in l.selected
  {
    ReasonsDiffer();
  }

  /** With distinct identities every exclusion of the host's plan has the one reason its candidate warrants. */
  lemma HostExclusionsExactly(cs: seq<Candidate>, locality: Locality, op: OperationType, budget: nat, c: Candidate)
    requires DistinctKeys(cs) && c in cs
    ensures var plan := HostPlan(cs, locality, op, budget);
      && (Exclusion(c.sourceRef, c.sourceHash, "INELIGIBLE_STATUS") in plan.exclusions <==> IneligibleStatus(c))
      && (Exclusion(c.sourceRef, c.sourceHash, "DRAFT_NOT_SELECTED") in plan.exclusions <==> UnselectedDraft(c))
      && (Exclusion(c.sourceRef, c.sourceHash, "POLICY_DENIED") in plan.exclusions <==> Denied(c, locality))
      && (Exclusion(c.sourceRef, c.sourceHash, "TOTAL_BUDGET") in plan.exclusions <==>
            !IneligibleStatus(c) && !UnselectedDraft(c) && !Denied(c, locality) && c !in plan.selected)
  {
    var plan, l := HostPlan(cs, locality, op, budget), HostLedger(cs, locality, op, budget);
    ReasonsExactly(c, locality, l);
    SortByMembers(HostPacketLe, l.selected);
    OneReason(cs, locality, op, budget, c, "INELIGIBLE_STATUS");
    OneReason(cs, locality, op, budget, c, "DRAFT_NOT_SELECTED");
    OneReason(cs, locality, op, budget, c, "POLICY_DENIED");
    OneReason(cs, locality, op, budget, c, "TOTAL_BUDGET");
  }

  lemma OneReason(cs: seq<Candidate>, locality: Locality, op: OperationType, budget: nat, c: Candidate, reason: string)
    requires DistinctKeys(cs) && c in cs
    ensures Exclusion(c.sourceRef, c.sourceHash, reason) in HostPlan(cs, locality, op, budget).exclusions
      <==> ReasonOf(c, locality, HostLedger(cs, locality, op, budget)) == Some(reason)
  {
    var plan, l := HostPlan(cs, locality, op, budget), HostLedger(cs, locality, op, budget);
    HostPlanIsPlan(cs, locality, op, budget);
    if Exclusion(c.sourceRef, c.sourceHash, reason) in plan.exclusions {
      var d := PlanExclusion(plan, cs, locality, l, Exclusion(c.sourceRef, c.sourceHash, reason));
      KeyIdentifies(cs, c, d);
    }
  }

  /** The later of two copies. */
  ghost predicate LaterCopy(cs: seq<Candidate>, i: nat, j: nat) {
    i < j < |cs| && cs[i].sourceRef == cs[j].sourceRef && cs[i].sourceHash == cs[j].sourceHash && cs[i].renderMode == cs[j].renderMode
  }

  lemma {:induction false} DuplicateHasCopy(cs: seq<Candidate>, x: Exclusion) returns (i: nat, j: nat)
    requires x in Duplicates(cs)
    ensures LaterCopy(cs, i, j) && x == Exclusion(cs[j].sourceRef, cs[j].sourceHash, "DUPLICATE")
  {
    var init, last := cs[..|cs| - 1], cs[|cs| - 1];
    if x in Duplicates(init) {
      i, j := DuplicateHasCopy(init, x);
    } else {
      var c :| c in init && DuplicateKey(c) == DuplicateKey(last);
      i :| 0 <= i < |init| && init[i] == c;
      j := |cs| - 1;
    }
  }

  lemma {:induction false} CopyIsDuplicate(cs: seq<Candidate>, i: nat, j: nat)
    requires LaterCopy(cs, i, j)
    ensures Exclusion(cs[j].sourceRef, cs[j].sourceHash, "DUPLICATE") in Duplicates(cs)
  {
    var init, last := cs[..|cs| - 1], cs[|cs| - 1];
    assert init[i] == cs[i] && init[i] in init;
    if j < |cs| - 1 {
      assert init[j] == cs[j];
      CopyIsDuplicate(init, i, j);
    }
  }

  lemma RequiredReasons(c: Candidate, locality: Locality)
    ensures RequiredExclusion(c, locality) == Some("INELIGIBLE_STATUS") <==> IneligibleStatus(c)
    ensures RequiredExclusion(c, locality) == Some("DRAFT_NOT_SELECTED") <==> UnselectedDraft(c)
    ensures RequiredExclusion(c, locality) == Some("POLICY_DENIED") <==> Denied(c, locality)
    ensures RequiredExclusion(c, locality) != Some("DUPLICATE") && RequiredExclusion(c, locality) != Some("TOTAL_BUDGET")
  {
    ReasonsDiffer();
  }

  lemma ReasonsDiffer()
    ensures "DUPLICATE" != "TOTAL_BUDGET"
    ensures "INELIGIBLE_STATUS" !in {"DRAFT_NOT_SELECTED", "POLICY_DENIED", "DUPLICATE", "TOTAL_BUDGET"}
    ensures "DRAFT_NOT_SELECTED" !in {"POLICY_DENIED", "DUPLICATE", "TOTAL_BUDGET"}
    ensures "POLICY_DENIED" !in {"DUPLICATE", "TOTAL_BUDGET"}
  {
    assert "INELIGIBLE_STATUS"[0] == 'I' && "POLICY_DENIED"[0] == 'P' && "TOTAL_BUDGET"[0] == 'T';
    assert "DRAFT_NOT_SELECTED"[..2] == "DR" && "DUPLICATE"[..2] == "DU" && "DR"[1] != "DU"[1];
  }

  lemma ClientListsAre(cs: seq<Candidate>, locality: Locality, op: OperationType, budget: nat, locale: Locale, x: Exclusion)
    requires ClientPlan(cs, locality, op, budget, locale).Success?
    ensures var l := ClientLedger(cs, locality, op, budget, locale);
      x in ClientPlan(cs, locality, op, budget, locale).value.exclusions <==>
        x in RequiredList(cs, locality) || x in Duplicates(ClientScored(cs, locality, locale))
        || x in DroppedList(l.dropped, "TOTAL_BUDGET")
  {
    SortByMembers(ClientExclusionLe(locale), ClientLists(cs, locality, op, budget, locale).exclusions);
  }

  /** Which list an exclusion comes from can be told from its reason. */
  lemma ByReason(cs: seq<Candidate>, locality: Locality, op: OperationType, budget: nat, locale: Locale, x: Exclusion)
    requires ClientPlan(cs, locality, op, budget, locale).Success?
    ensures var excluded := x in ClientPlan(cs, locality, op, budget, locale).value.exclusions;
      && (x.reason != "DUPLICATE" && x.reason != "TOTAL_BUDGET" ==> (excluded <==> x in RequiredList(cs, locality)))
      && (x.reason == "DUPLICATE" ==> (excluded <==> x in Duplicates(ClientScored(cs, locality, locale))))
  {
    ClientListsAre(cs, locality, op, budget, locale, x);
    ReasonsDiffer();
    if x in Duplicates(ClientScored(cs, locality, locale)) {
      var i, j := DuplicateHasCopy(ClientScored(cs, locality, locale), x);
    }
    if x in RequiredList(cs, locality) {
      RequiredListMembers(cs, locality);
      var c :| c in cs && RequiredExclusion(c, locality) == Some(x.reason) && x == ExclusionOf(c, x.reason);
      RequiredReasons(c, locality);
    }
  }

  lemma RequiredIffSome(cs: seq<Candidate>, locality: Locality, x: Exclusion)
    ensures x in RequiredList(cs, locality) <==>
      exists c :: c in cs && RequiredExclusion(c, locality) == Some(x.reason) && x.sourceRef == c.sourceRef && x.sourceHash == c.sourceHash
  {
    RequiredListMembers(cs, locality);
    if c :| c in cs && RequiredExclusion(c, locality) == Some(x.reason) && x.sourceRef == c.sourceRef && x.sourceHash == c.sourceHash {
      assert x == ExclusionOf(c, x.reason);
    }
  }

  /** A policy reason is given exactly to the candidates whose fields warrant it, whatever their identities. */
  lemma ClientExclusionsExactly(cs: seq<Candidate>, locality: Locality, op: OperationType, budget: nat, locale: Locale, x: Exclusion)
    requires ClientPlan(cs, locality, op, budget, locale).Success?
    ensures var excluded := x in ClientPlan(cs, locality, op, budget, locale).value.exclusions;
      && (x.reason == "INELIGIBLE_STATUS" ==>
            (excluded <==> exists c :: c in cs && IneligibleStatus(c) && x.sourceRef == c.sourceRef && x.sourceHash == c.sourceHash))
      && (x.reason == "DRAFT_NOT_SELECTED" ==>
            (excluded <==> exists c :: c in cs && UnselectedDraft(c) && x.sourceRef == c.sourceRef && x.sourceHash == c.sourceHash))
      && (x.reason == "POLICY_DENIED" ==>
            (excluded <==> exists c :: c in cs && Denied(c, locality) && x.sourceRef == c.sourceRef && x.sourceHash == c.sourceHash))
  {
    ByReason(cs, locality, op, budget, locale, x);
    ReasonsDiffer();
    RequiredIffSome(cs, locality, x);
    forall c
      ensures RequiredExclusion(c, locality) == Some("INELIGIBLE_STATUS") <==> IneligibleStatus(c)
      ensures RequiredExclusion(c, locality) == Some("DRAFT_NOT_SELECTED") <==> UnselectedDraft(c)
      ensures RequiredExclusion(c, locality) == Some("POLICY_DENIED") <==> Denied(c, locality)
    {
      RequiredReasons(c, locality);
    }
  }

  /** Some later copy has the source of the exclusion. */
  ghost predicate CopyOf(cs: seq<Candidate>, x: Exclusion) {
    exists i: nat, j: nat :: LaterCopy(cs, i, j) && x.sourceRef == cs[j].sourceRef && x.sourceHash == cs[j].sourceHash
  }

  lemma DuplicatesAre(cs: seq<Candidate>, x: Exclusion)
    requires x.reason == "DUPLICATE"
    ensures x in Duplicates(cs) <==> CopyOf(cs, x)
  {
    if x in Duplicates(cs) {
      var i, j := DuplicateHasCopy(cs, x);
    }
    if CopyOf(cs, x) {
      var i: nat, j: nat :| LaterCopy(cs, i, j) && x.sourceRef == cs[j].sourceRef && x.sourceHash == cs[j].sourceHash;
      CopyIsDuplicate(cs, i, j);
      assert x == Exclusion(cs[j].sourceRef, cs[j].sourceHash, "DUPLICATE");
    }
  }

  /** A duplicate is a later copy, in compile order, of an eligible candidate with the same reference, hash and mode. */
  lemma ClientDuplicatesExactly(cs: seq<Candidate>, locality: Locality, op: OperationType, budget: nat, locale: Locale, x: Exclusion)
    requires ClientPlan(cs, locality, op, budget, locale).Success? && x.reason == "DUPLICATE"
    ensures x in ClientPlan(cs, locality, op, budget, locale).value.exclusions <==> CopyOf(ClientScored(cs, locality, locale), x)
  {
    ByReason(cs, locality, op, budget, locale, x);
    DuplicatesAre(ClientScored(cs, locality, locale), x);
  }

  // ----- Tokens and scores

  /** Half a token a character, rounded up, and at least one. */
  lemma TokensAre(c: Candidate)
    ensures Tokens(c) >= 1 && 2 * Tokens(c) >= |c.content|
    ensures Tokens(c) > 1 ==> 2 * (Tokens(c) - 1) < |c.content|
  {
  }

  /** Rounding moves a score by at most half a millionth. */
  lemma RoundedWithin(c: Candidate)
    ensures -0.5 <= HostScore(c) - RawScore(c) <= 0.5
  {
  }

  /** A score of an item may differ by half a millionth either way, and no more. */
  lemma ToleranceIs(x: real, y: real)
    ensures WithinTolerance(x, y) <==> 2.0 * x <= 2.0 * y + 1.0 && 2.0 * y <= 2.0 * x + 1.0
  {
  }

  /** Some candidate of the target tier may be sent. */
  ghost predicate TargetAdmitted(cs: seq<Candidate>, locality: Locality) {
    exists c :: c in cs && c.tier == L0_TARGET && !IneligibleStatus(c) && !UnselectedDraft(c) && !Denied(c, locality)
  }

  lemma TargetAmong(cs: seq<Candidate>, locality: Locality, s: seq<Candidate>)
    requires multiset(s) == multiset(Eligible(cs, locality))
    ensures HasTarget(s) <==> TargetAdmitted(cs, locality)
  {
    SameMembers(s, Eligible(cs, locality));
    EligibleMembers(cs, locality);
    forall c
      ensures RequiredExclusion(c, locality) == None <==> !IneligibleStatus(c) && !UnselectedDraft(c) && !Denied(c, locality)
    {
      RequiredReasons(c, locality);
    }
    if c :| c in s && c.tier == L0_TARGET { assert TargetAdmitted(cs, locality); }
  }

  lemma TargetDecides(cs: seq<Candidate>, locality: Locality, op: OperationType, budget: nat, locale: Locale)
    ensures ClientPlan(cs, locality, op, budget, locale) == Failure(TargetMissing)
      <==> !HasTarget(Unique(ClientScored(cs, locality, locale)))
  {
  }

  /** With distinct references the client misses a target exactly if no candidate of the target tier may be sent. */
  lemma ClientTargetExactly(cs: seq<Candidate>, locality: Locality, op: OperationType, budget: nat, locale: Locale)
    requires DistinctRefs(cs)
    ensures ClientPlan(cs, locality, op, budget, locale) == Failure(TargetMissing) <==> !TargetAdmitted(cs, locality)
  {
    TargetDecides(cs, locality, op, budget, locale);
    ClientScoredBag(cs, cs, locality, locale);
    TargetAmong(cs, locality, ClientScored(cs, locality, locale));
  }

  /** A content hash is the word, a colon, and 64 lower-case hexadecimal digits. */
  lemma Sha256Is(s: string)
    ensures IsSha256(s) <==> exists h :: s == "sha256:" + h && |h| == 64 && forall c | c in h :: c in "0123456789abcdef"
  {
    if IsSha256(s) {
      var h := s[7..];
      assert s == "sha256:" + h;
      forall c | c in h ensures c in "0123456789abcdef" {
        var i :| 0 <= i < |h| && h[i] == c;
        assert s[7 + i] == c;
        HexDigit(c);
      }
    }
    if h :| s == "sha256:" + h && |h| == 64 && forall c | c in h :: c in "0123456789abcdef" {
      forall i | 7 <= i < 71 ensures '0' <= s[i] <= '9' || 'a' <= s[i] <= 'f' {
        assert s[i] == h[i - 7] && h[i - 7] in h;
        HexDigit(s[i]);
      }
      assert s[..7] == "sha256:";
    }
  }

  lemma HexDigit(c: char)
    ensures c in "0123456789abcdef" <==> '0' <= c <= '9' || 'a' <= c <= 'f'
  {
    var digits := "0123456789abcdef";
    assert forall i | 0 <= i < 10 :: digits[i] as int == '0' as int + i;
    assert forall i | 10 <= i < 16 :: digits[i] as int == 'a' as int + i - 10;
    if '0' <= c <= '9' { assert digits[c as int - '0' as int] == c; }
    if 'a' <= c <= 'f' { assert digits[c as int - 'a' as int + 10] == c; }
  }

  /** The five operations the host knows. */
  lemma OperationsAre(name: string)
    ensures OperationOf(name) == Some(Polish) <==> name == "polish"
    ensures OperationOf(name) == Some(ContinueScene) <==> name == "continue_scene"
    ensures OperationOf(name) == Some(Compress) <==> name == "compress"
    ensures OperationOf(name) == Some(Expand) <==> name == "expand"
    ensures OperationOf(name) == Some(Critique) <==> name == "critique"
  {
    assert "polish"[0] == 'p' && "continue_scene"[2] == 'n' && "compress"[2] == 'm' && "expand"[0] == 'e' && "critique"[1] == 'r'
      && "continue_scene"[1] == 'o' && "compress"[1] == 'o';
  }

  /** The share of a tier in hundredths, tier by tier. */
  function ShareOf(t: Tier, op: OperationType): nat {
    match t
    case L0_TARGET => (match op case Polish => 45 case ContinueScene => 25 case Compress => 60 case Expand => 40 case Critique => 15)
    case L1_LOCAL => (match op case Polish => 35 case ContinueScene => 25 case Compress => 20 case Expand => 20 case Critique => 10)
    case L2_STRUCTURAL => (match op case Polish => 8 case ContinueScene => 20 case Compress => 10 case Expand => 15 case Critique => 35)
    case L3_KNOWLEDGE => (match op case Polish => 4 case ContinueScene => 22 case Compress => 5 case Expand => 15 case Critique => 25)
    case L4_STYLE_GLOBAL => (match op case Polish => 8 case ContinueScene => 8 case Compress => 5 case Expand => 10 case Critique => 15)
  }

  /** A cap is the largest whole number of tokens within the tier's share of the budget. */
  lemma CapIsShare(op: OperationType, budget: nat, t: Tier)
    ensures 100 * TierCaps(op, budget)[t.Index()] <= budget * ShareOf(t, op) < 100 * (TierCaps(op, budget)[t.Index()] + 1)
  {
  }

  // ----- Orders

  /** Higher tier, then mandatory, then higher score, then reference, then hash. */
  ghost predicate ListedBefore(score: Candidate -> real, sle: (string, string) -> bool, x: Candidate, y: Candidate) {
    && x.tier.Weight() >= y.tier.Weight()
    && (x.tier == y.tier && y.mandatory ==> x.mandatory)
    && (x.tier == y.tier && x.mandatory == y.mandatory ==> score(x) >= score(y))
    && (x.tier == y.tier && x.mandatory == y.mandatory && score(x) == score(y) ==> sle(x.sourceRef, y.sourceRef))
    && (x.tier == y.tier && x.mandatory == y.mandatory && score(x) == score(y) && x.sourceRef == y.sourceRef ==>
          sle(x.sourceHash, y.sourceHash))
  }

  lemma PacketLeIs(score: Candidate -> real, sle: (string, string) -> bool, x: Candidate, y: Candidate)
    requires sle(x.sourceRef, x.sourceRef)
    ensures PacketLe(score, sle, x, y) <==> ListedBefore(score, sle, x, y) && (x.tier.Weight() == y.tier.Weight() ==> x.tier == y.tier)
  {
  }

  /** The order of the host's items. */
  lemma HostItemsOrdered(cs: seq<Candidate>, locality: Locality, op: OperationType, budget: nat, i: nat, j: nat)
    requires i < j < |HostPlan(cs, locality, op, budget).selected|
    ensures var s := HostPlan(cs, locality, op, budget).selected; ListedBefore(HostScore, Lex.Le, s[i], s[j])
  {
    var l, s := HostLedger(cs, locality, op, budget), HostPlan(cs, locality, op, budget).selected;
    HostOrderings();
    SortBySorts(HostPacketLe, l.selected);
    assert HostPacketLe(s[i], s[j]);
    Lex.Total(s[i].sourceRef, s[i].sourceRef);
    PacketLeIs(HostScore, Lex.Le, s[i], s[j]);
  }

  lemma HostExclusionsOrdered(cs: seq<Candidate>, locality: Locality, op: OperationType, budget: nat, i: nat, j: nat)
    requires i < j < |HostPlan(cs, locality, op, budget).exclusions|
    ensures var x, y := HostPlan(cs, locality, op, budget).exclusions[i], HostPlan(cs, locality, op, budget).exclusions[j];
      Lex.Le(x.sourceRef, y.sourceRef) && (x.sourceRef == y.sourceRef ==> Lex.Le(x.reason, y.reason))
  {
    var xs := LeftOut(cs, locality, HostLedger(cs, locality, op, budget));
    LexIsStringOrder();
    ExclusionOrdering(Lex.Le);
    var le := ClientExclusionLe(Lex.Le);
    forall x, y ensures HostExclusionLe(x, y) == le(x, y) { }
    assert Ordering(HostExclusionLe);
    SortBySorts(HostExclusionLe, xs);
    var x, y := HostPlan(cs, locality, op, budget).exclusions[i], HostPlan(cs, locality, op, budget).exclusions[j];
    assert HostExclusionLe(x, y);
    Lex.Total(x.sourceRef, x.sourceRef);
  }

  /** The order of the client's items, by raw scores and locale. */
  lemma ClientItemsOrdered(cs: seq<Candidate>, locality: Locality, op: OperationType, budget: nat, locale: Locale, i: nat, j: nat)
    requires StringOrder(locale) && ClientPlan(cs, locality, op, budget, locale).Success?
    requires i < j < |ClientPlan(cs, locality, op, budget, locale).value.selected|
    ensures var s := ClientPlan(cs, locality, op, budget, locale).value.selected; ListedBefore(RawScore, locale, s[i], s[j])
  {
    var l, s := ClientLedger(cs, locality, op, budget, locale), ClientPlan(cs, locality, op, budget, locale).value.selected;
    CandidateOrdering(RawScore, locale);
    SortBySorts(ClientPacketLe(locale), l.selected);
    var le := ClientPacketLe(locale);
    assert le(s[i], s[j]);
    assert locale(s[i].sourceRef, s[i].sourceRef);
    PacketLeIs(RawScore, locale, s[i], s[j]);
  }

  lemma {:induction false} OptionalSubsequence(cs: seq<Candidate>) returns (place: seq<nat>)
    ensures |place| == |Optional(cs)|
    ensures forall k | 0 <= k < |place| :: place[k] < |cs| && cs[place[k]] == Optional(cs)[k]
    ensures forall k, m | 0 <= k < m < |place| :: place[k] < place[m]
  {
    if cs == [] {
      place := [];
    } else {
      place := OptionalSubsequence(cs[..|cs| - 1]);
      if !cs[|cs| - 1].mandatory { place := place + [|cs| - 1]; }
    }
  }

  lemma ScoredSorted(cs: seq<Candidate>, locality: Locality)
    ensures Sorted(HostLe, Scored(cs, locality))
  {
    HostOrderings();
    SortBySorts(HostLe, Eligible(cs, locality));
  }

  lemma OptionalPair(x: Candidate, y: Candidate)
    requires !x.mandatory && !y.mandatory && HostLe(x, y)
    ensures HostScore(x) >= HostScore(y) && (HostScore(x) == HostScore(y) ==> x.tier.Weight() >= y.tier.Weight())
  {
  }

  /** The budget goes to optional candidates by score, highest first, and on equal scores by tier. */
  lemma BudgetedByScore(cs: seq<Candidate>, locality: Locality, i: nat, j: nat)
    requires i < j < |Optional(Scored(cs, locality))|
    ensures var x, y := Optional(Scored(cs, locality))[i], Optional(Scored(cs, locality))[j];
      HostScore(x) >= HostScore(y) && (HostScore(x) == HostScore(y) ==> x.tier.Weight() >= y.tier.Weight())
  {
    var s := Scored(cs, locality);
    ScoredSorted(cs, locality);
    MandatorySplit(s);
    var place := OptionalSubsequence(s);
    var x, y := Optional(s)[i], Optional(s)[j];
    assert x in Optional(s) && y in Optional(s);
    assert HostLe(s[place[i]], s[place[j]]);
    OptionalPair(x, y);
  }
}
