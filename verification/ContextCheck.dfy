/**
 `validate_candidate_coverage` of `confirmed_context.rs`: a packet is compared with the host's own
 compilation, item by item and exclusion by exclusion. `Accepts` says what an accepted packet is;
 the check is proved to accept exactly those.
 */
module ContextCheck {
  import opened Common
  import opened ContextModel
  import opened ContextAllocation
  import opened ContextHost
  import opened Sorting

  /** Scores are in millionths, as everywhere; a packet may carry any number. */
  datatype Item = Item(
    id: string, sourceRef: string, sourceHash: string, tier: Tier, status: Status, authority: Authority,
    sensitivity: Sensitivity, renderMode: string, reasonCodes: seq<string>,
    estimatedTokens: nat, score: real, mandatory: bool, content: string)

  datatype Packet = Packet(providerLocality: Locality, items: seq<Item>, exclusions: seq<Exclusion>, inputBudget: nat, estimatedInput: nat)

  predicate IsSha256(s: string) {
    |s| == 71 && s[..7] == "sha256:" && forall i | 7 <= i < 71 :: '0' <= s[i] <= '9' || 'a' <= s[i] <= 'f'
  }

  /** How the host builds its candidates: the source hash is the hash of the content. */
  ghost predicate Hashed(cs: seq<Candidate>, sha: string -> string) {
    forall c | c in cs :: c.sourceHash == sha(c.content) && IsSha256(c.sourceHash)
  }

  function ItemKey(i: Item): string { Identity(i.sourceRef, i.sourceHash) }

  function ExclusionKey(x: Exclusion): string { Identity(x.sourceRef, x.sourceHash) }

  predicate SameFields(i: Item, c: Candidate) {
    && i.id == c.id && i.tier == c.tier && i.status == c.status && i.authority == c.authority
    && i.sensitivity == c.sensitivity && i.renderMode == c.renderMode && i.reasonCodes == c.reasonCodes
    && i.mandatory == c.mandatory && i.content == c.content
  }

  predicate WithinTolerance(x: real, y: real) {
    -0.5 <= x - y <= 0.5
  }

  // ----- What an accepted packet is

  /** The item is the candidate: same source, same fields, same tokens, score within tolerance. */
  ghost predicate ItemMatches(i: Item, c: Candidate, sha: string -> string, shape: Item -> bool) {
    && shape(i) && SameFields(i, c) && sha(i.content) == i.sourceHash
    && i.sourceRef == c.sourceRef && i.sourceHash == c.sourceHash
    && i.estimatedTokens == Tokens(c) && WithinTolerance(i.score, HostScore(c))
  }

  function CountTargets(cs: seq<Candidate>): nat {
    if cs == [] then 0
    else CountTargets(cs[..|cs| - 1]) + if cs[|cs| - 1].tier == L0_TARGET && cs[|cs| - 1].mandatory then 1 else 0
  }

  ghost predicate ElementsMatch(p: Packet, plan: Plan, sha: string -> string, shape: Item -> bool) {
    && |p.items| == |plan.selected|
    && (forall k | 0 <= k < |p.items| :: ItemMatches(p.items[k], plan.selected[k], sha, shape))
    && p.exclusions == plan.exclusions
  }

  ghost predicate Matched(p: Packet, plan: Plan, sha: string -> string, shape: Item -> bool) {
    && ElementsMatch(p, plan, sha, shape)
    && CountTargets(plan.selected) == 1 && p.estimatedInput == TotalTokens(plan.selected)
  }

  /** The packet is the plan the host computes for itself, in the same order, with one mandatory target. */
  ghost predicate Accepts(p: Packet, cs: seq<Candidate>, operation: string, sha: string -> string, shape: Item -> bool) {
    && DistinctKeys(cs)
    && OperationOf(operation).Some? && MandatoryFits(cs, p.providerLocality, p.inputBudget)
    && Matched(p, HostPlan(cs, p.providerLocality, OperationOf(operation).value, p.inputBudget), sha, shape)
  }

  // ----- What the check tests

  ghost predicate ItemChecked(i: Item, byKey: map<string, Candidate>, d: map<string, Disposition>, sha: string -> string, shape: Item -> bool) {
    && shape(i)
    && ItemKey(i) in byKey && SameFields(i, byKey[ItemKey(i)]) && sha(i.content) == i.sourceHash
    && ItemKey(i) in d && d[ItemKey(i)].exclusion == None
    && i.estimatedTokens == d[ItemKey(i)].estimatedTokens && WithinTolerance(i.score, d[ItemKey(i)].score)
  }

  ghost predicate ExclusionChecked(x: Exclusion, byKey: map<string, Candidate>, d: map<string, Disposition>) {
    && IsSha256(x.sourceHash) && ExclusionKey(x) in byKey
    && ExclusionKey(x) in d && d[ExclusionKey(x)].exclusion == Some(x.reason)
  }

  function ItemKeys(items: seq<Item>): (keys: seq<string>)
    ensures |keys| == |items|
    ensures forall k | 0 <= k < |items| :: keys[k] == ItemKey(items[k])
  {
    seq(|items|, k requires 0 <= k < |items| => ItemKey(items[k]))
  }

  ghost predicate Distinct(keys: seq<string>) {
    forall i, j | 0 <= i < j < |keys| :: keys[i] != keys[j]
  }

  function TargetItems(items: seq<Item>): nat {
    if items == [] then 0
    else TargetItems(items[..|items| - 1]) + if items[|items| - 1].tier == L0_TARGET && items[|items| - 1].mandatory then 1 else 0
  }

  function ItemTokens(items: seq<Item>): nat {
    if items == [] then 0 else ItemTokens(items[..|items| - 1]) + items[|items| - 1].estimatedTokens
  }

  ghost predicate Indexes(byKey: map<string, Candidate>, cs: seq<Candidate>) {
    && (forall c | c in cs :: KeyOf(c) in byKey && byKey[KeyOf(c)] == c)
    && (forall k | k in byKey :: byKey[k] in cs && KeyOf(byKey[k]) == k)
  }

  /** All tests of the check together, given the host's compilation. */
  ghost predicate Checked(p: Packet, byKey: map<string, Candidate>, r: Compilation, sha: string -> string, shape: Item -> bool) {
    var keys := ItemKeys(p.items) + ExclusionKeys(p.exclusions);
    && (forall k | 0 <= k < |p.items| :: ItemChecked(p.items[k], byKey, r.disposition, sha, shape))
    && (forall k | 0 <= k < |p.exclusions| :: ExclusionChecked(p.exclusions[k], byKey, r.disposition))
    && Distinct(keys) && (set k | k in keys) == byKey.Keys
    && TargetItems(p.items) == 1 && ItemTokens(p.items) == p.estimatedInput
    && ItemKeys(p.items) == r.selectedOrder && ExclusionKeys(p.exclusions) == r.exclusionOrder
  }

  // ----- The plan, element by element

  lemma IdentityInjective(ref1: string, hash1: string, ref2: string, hash2: string)
    requires Identity(ref1, hash1) == Identity(ref2, hash2) && |hash1| == |hash2|
    ensures ref1 == ref2 && hash1 == hash2
  {
    var key := Identity(ref1, hash1);
    assert |ref1| == |ref2|;
    assert key[..|ref1|] == ref1 && key[..|ref2|] == ref2;
    assert key[|ref1| + 1..] == hash1 && key[|ref2| + 1..] == hash2;
  }

  lemma {:induction false} LeftOutMembers(cs: seq<Candidate>, locality: Locality, l: Ledger)
    ensures forall x | x in LeftOut(cs, locality, l) ::
      exists c :: c in cs && ReasonOf(c, locality, l) == Some(x.reason) && x.sourceRef == c.sourceRef && x.sourceHash == c.sourceHash
    ensures forall c | c in cs && ReasonOf(c, locality, l).Some? ::
      Exclusion(c.sourceRef, c.sourceHash, ReasonOf(c, locality, l).value) in LeftOut(cs, locality, l)
  {
    if cs != [] {
      var init, last := cs[..|cs| - 1], cs[|cs| - 1];
      assert cs == init + [last];
      LeftOutMembers(init, locality, l);
    }
  }

  /** A plan, element by element: every candidate is in it once, selected or left out with its reason. */
  ghost predicate PlanOf(plan: Plan, cs: seq<Candidate>, locality: Locality, l: Ledger) {
    && (forall c :: c in plan.selected <==> c in cs && ReasonOf(c, locality, l) == None)
    && (forall x | x in plan.exclusions ::
          exists c :: c in cs && ReasonOf(c, locality, l) == Some(x.reason) && x.sourceRef == c.sourceRef && x.sourceHash == c.sourceHash)
    && (forall c | c in cs && ReasonOf(c, locality, l).Some? ::
          Exclusion(c.sourceRef, c.sourceHash, ReasonOf(c, locality, l).value) in plan.exclusions)
  }

  lemma HostPlanIsPlan(cs: seq<Candidate>, locality: Locality, op: OperationType, budget: nat)
    ensures PlanOf(HostPlan(cs, locality, op, budget), cs, locality, HostLedger(cs, locality, op, budget))
  {
    var l := HostLedger(cs, locality, op, budget);
    LedgerSettles(cs, locality, op, budget);
    SortByMembers(HostPacketLe, l.selected);
    SortByMembers(HostExclusionLe, LeftOut(cs, locality, l));
    LeftOutMembers(cs, locality, l);
  }

  /** What stands behind an exclusion of the plan. */
  lemma PlanExclusion(plan: Plan, cs: seq<Candidate>, locality: Locality, l: Ledger, x: Exclusion) returns (c: Candidate)
    requires PlanOf(plan, cs, locality, l) && x in plan.exclusions
    ensures c in cs && ReasonOf(c, locality, l) == Some(x.reason)
    ensures x == Exclusion(c.sourceRef, c.sourceHash, ReasonOf(c, locality, l).value)
  {
    c :| c in cs && ReasonOf(c, locality, l) == Some(x.reason) && x.sourceRef == c.sourceRef && x.sourceHash == c.sourceHash;
  }

  lemma PlanSelectedNoRepeats(cs: seq<Candidate>, locality: Locality, op: OperationType, budget: nat)
    requires DistinctKeys(cs)
    ensures NoRepeats(HostPlan(cs, locality, op, budget).selected)
  {
    var l, plan := HostLedger(cs, locality, op, budget), HostPlan(cs, locality, op, budget);
    ScoredNoRepeats(cs, locality);
    AllocatePlaces(Scored(cs, locality), TierCaps(op, budget), budget, true);
    assert multiset(plan.selected) <= Settled(l);
    PermutationNoRepeats(Scored(cs, locality), plan.selected);
  }

  lemma {:induction false} LeftOutNoRepeats(cs: seq<Candidate>, locality: Locality, l: Ledger)
    requires DistinctSources(cs)
    ensures NoRepeats(LeftOut(cs, locality, l))
  {
    if cs != [] {
      var init, last := cs[..|cs| - 1], cs[|cs| - 1];
      LeftOutNoRepeats(init, locality, l);
      LeftOutMembers(init, locality, l);
      forall x | x in LeftOut(init, locality, l)
        ensures x.sourceRef != last.sourceRef || x.sourceHash != last.sourceHash
      {
        var c :| c in init && x.sourceRef == c.sourceRef && x.sourceHash == c.sourceHash;
        var k :| 0 <= k < |init| && init[k] == c;
        assert cs[k] == c;
      }
    }
  }

  lemma KeysGiveSources(cs: seq<Candidate>)
    requires DistinctKeys(cs)
    ensures DistinctSources(cs)
  {
    forall i, j | 0 <= i < j < |cs|
      ensures cs[i].sourceRef != cs[j].sourceRef || cs[i].sourceHash != cs[j].sourceHash
    {
      assert KeyOf(cs[i]) != KeyOf(cs[j]);
    }
  }

  lemma PlanExclusionsNoRepeats(cs: seq<Candidate>, locality: Locality, op: OperationType, budget: nat)
    requires DistinctKeys(cs)
    ensures NoRepeats(HostPlan(cs, locality, op, budget).exclusions)
  {
    var l := HostLedger(cs, locality, op, budget);
    KeysGiveSources(cs);
    LeftOutNoRepeats(cs, locality, l);
    PermutationNoRepeats(LeftOut(cs, locality, l), HostPlan(cs, locality, op, budget).exclusions);
  }

  function PlanKeys(plan: Plan): seq<string> {
    KeysOf(plan.selected) + ExclusionKeys(plan.exclusions)
  }

  /** Each key of a plan belongs to one candidate. */
  lemma PlanKeyOwner(plan: Plan, cs: seq<Candidate>, locality: Locality, l: Ledger, i: nat) returns (c: Candidate)
    requires PlanOf(plan, cs, locality, l) && i < |PlanKeys(plan)|
    ensures c in cs && KeyOf(c) == PlanKeys(plan)[i]
    ensures i < |plan.selected| ==> c == plan.selected[i] && ReasonOf(c, locality, l) == None
    ensures i >= |plan.selected| ==> ReasonOf(c, locality, l).Some?
    ensures i >= |plan.selected| ==>
      plan.exclusions[i - |plan.selected|] == Exclusion(c.sourceRef, c.sourceHash, ReasonOf(c, locality, l).value)
  {
    if i < |plan.selected| {
      c := plan.selected[i];
      assert c in plan.selected;
    } else {
      c := PlanExclusion(plan, cs, locality, l, plan.exclusions[i - |plan.selected|]);
    }
  }

  lemma PlanKeysDistinct(plan: Plan, cs: seq<Candidate>, locality: Locality, l: Ledger)
    requires DistinctKeys(cs) && PlanOf(plan, cs, locality, l) && NoRepeats(plan.selected) && NoRepeats(plan.exclusions)
    ensures Distinct(PlanKeys(plan))
  {
    forall i, j | 0 <= i < j < |PlanKeys(plan)|
      ensures PlanKeys(plan)[i] != PlanKeys(plan)[j]
    {
      var c := PlanKeyOwner(plan, cs, locality, l, i);
      var d := PlanKeyOwner(plan, cs, locality, l, j);
      if KeyOf(c) == KeyOf(d) { KeyIdentifies(cs, c, d); }
    }
  }

  lemma PlanKeysCover(plan: Plan, cs: seq<Candidate>, locality: Locality, l: Ledger, byKey: map<string, Candidate>)
    requires PlanOf(plan, cs, locality, l) && Indexes(byKey, cs)
    ensures (set k | k in PlanKeys(plan)) == byKey.Keys
  {
    forall k | k in PlanKeys(plan) ensures k in byKey {
      var i :| 0 <= i < |PlanKeys(plan)| && PlanKeys(plan)[i] == k;
      var c := PlanKeyOwner(plan, cs, locality, l, i);
    }
    forall k | k in byKey ensures k in PlanKeys(plan) {
      var c := byKey[k];
      if ReasonOf(c, locality, l) == None {
        var i :| 0 <= i < |plan.selected| && plan.selected[i] == c;
        assert PlanKeys(plan)[i] == k;
      } else {
        var e := Exclusion(c.sourceRef, c.sourceHash, ReasonOf(c, locality, l).value);
        var j :| 0 <= j < |plan.exclusions| && plan.exclusions[j] == e;
        assert PlanKeys(plan)[|plan.selected| + j] == k;
      }
    }
  }

  // ----- The tests are exact

  lemma {:induction false} SameTotals(items: seq<Item>, cs: seq<Candidate>)
    requires |items| == |cs|
    requires forall k | 0 <= k < |items| :: items[k].tier == cs[k].tier && items[k].mandatory == cs[k].mandatory
    requires forall k | 0 <= k < |items| :: items[k].estimatedTokens == Tokens(cs[k])
    ensures TargetItems(items) == CountTargets(cs) && ItemTokens(items) == TotalTokens(cs)
  {
    if items != [] { SameTotals(items[..|items| - 1], cs[..|cs| - 1]); }
  }

  /** An item whose key leads to a selected candidate passes exactly when it matches that candidate. */
  lemma ItemExact(i: Item, c: Candidate, cs: seq<Candidate>, byKey: map<string, Candidate>, d: map<string, Disposition>,
                  locality: Locality, l: Ledger, sha: string -> string, shape: Item -> bool)
    requires Indexes(byKey, cs) && Hashed(cs, sha) && c in cs && ItemKey(i) == KeyOf(c)
    requires KeyOf(c) in d && d[KeyOf(c)] == DispositionOf(c, locality, l) && ReasonOf(c, locality, l) == None
    ensures ItemChecked(i, byKey, d, sha, shape) <==> ItemMatches(i, c, sha, shape)
  {
    if SameFields(i, c) && sha(i.content) == i.sourceHash {
      IdentityInjective(i.sourceRef, i.sourceHash, c.sourceRef, c.sourceHash);
    }
  }

  /** An exclusion with the key of a left-out candidate passes exactly when it is that exclusion. */
  lemma ExclusionExact(x: Exclusion, c: Candidate, cs: seq<Candidate>, byKey: map<string, Candidate>, d: map<string, Disposition>,
                       locality: Locality, l: Ledger, sha: string -> string)
    requires Indexes(byKey, cs) && Hashed(cs, sha) && c in cs && ExclusionKey(x) == KeyOf(c)
    requires KeyOf(c) in d && d[KeyOf(c)] == DispositionOf(c, locality, l) && ReasonOf(c, locality, l).Some?
    ensures ExclusionChecked(x, byKey, d) <==> x == Exclusion(c.sourceRef, c.sourceHash, ReasonOf(c, locality, l).value)
  {
    if IsSha256(x.sourceHash) {
      IdentityInjective(x.sourceRef, x.sourceHash, c.sourceRef, c.sourceHash);
    }
  }

  /** The tests that look at one element each. */
  ghost predicate ElementsChecked(p: Packet, byKey: map<string, Candidate>, d: map<string, Disposition>, sha: string -> string, shape: Item -> bool) {
    && (forall k | 0 <= k < |p.items| :: ItemChecked(p.items[k], byKey, d, sha, shape))
    && (forall k | 0 <= k < |p.exclusions| :: ExclusionChecked(p.exclusions[k], byKey, d))
  }

  /** The host's compilation in terms of the plan and the ledger behind it. */
  ghost predicate Describes(r: Compilation, plan: Plan, cs: seq<Candidate>, locality: Locality, l: Ledger) {
    && r.selectedOrder == KeysOf(plan.selected) && r.exclusionOrder == ExclusionKeys(plan.exclusions)
    && (forall c | c in cs :: KeyOf(c) in r.disposition && r.disposition[KeyOf(c)] == DispositionOf(c, locality, l))
  }

  /** In the expected order, the element tests pass exactly when the packet is the plan. */
  lemma ElementsExact(p: Packet, cs: seq<Candidate>, plan: Plan, l: Ledger, byKey: map<string, Candidate>, r: Compilation,
                      sha: string -> string, shape: Item -> bool)
    requires Hashed(cs, sha) && Indexes(byKey, cs)
    requires PlanOf(plan, cs, p.providerLocality, l) && Describes(r, plan, cs, p.providerLocality, l)
    requires ItemKeys(p.items) == KeysOf(plan.selected) && ExclusionKeys(p.exclusions) == ExclusionKeys(plan.exclusions)
    ensures ElementsChecked(p, byKey, r.disposition, sha, shape) <==> ElementsMatch(p, plan, sha, shape)
  {
    assert |p.items| == |plan.selected| by { assert |ItemKeys(p.items)| == |KeysOf(plan.selected)|; }
    assert |p.exclusions| == |plan.exclusions| by { assert |ExclusionKeys(p.exclusions)| == |ExclusionKeys(plan.exclusions)|; }
    forall k | 0 <= k < |p.items|
      ensures ItemChecked(p.items[k], byKey, r.disposition, sha, shape) <==> ItemMatches(p.items[k], plan.selected[k], sha, shape)
    {
      assert ItemKeys(p.items)[k] == KeysOf(plan.selected)[k];
      assert plan.selected[k] in plan.selected;
      ItemExact(p.items[k], plan.selected[k], cs, byKey, r.disposition, p.providerLocality, l, sha, shape);
    }
    forall k | 0 <= k < |p.exclusions|
      ensures ExclusionChecked(p.exclusions[k], byKey, r.disposition) <==> p.exclusions[k] == plan.exclusions[k]
    {
      assert ExclusionKeys(p.exclusions)[k] == ExclusionKeys(plan.exclusions)[k];
      var c := PlanExclusion(plan, cs, p.providerLocality, l, plan.exclusions[k]);
      ExclusionExact(p.exclusions[k], c, cs, byKey, r.disposition, p.providerLocality, l, sha);
    }
  }

  lemma CheckedMatches(p: Packet, cs: seq<Candidate>, plan: Plan, l: Ledger, byKey: map<string, Candidate>, r: Compilation,
                       sha: string -> string, shape: Item -> bool)
    requires Hashed(cs, sha) && Indexes(byKey, cs)
    requires PlanOf(plan, cs, p.providerLocality, l) && Describes(r, plan, cs, p.providerLocality, l)
    requires Checked(p, byKey, r, sha, shape)
    ensures Matched(p, plan, sha, shape)
  {
    ElementsExact(p, cs, plan, l, byKey, r, sha, shape);
    SameTotals(p.items, plan.selected);
  }

  lemma MatchesChecked(p: Packet, cs: seq<Candidate>, plan: Plan, l: Ledger, byKey: map<string, Candidate>, r: Compilation,
                       sha: string -> string, shape: Item -> bool)
    requires DistinctKeys(cs) && Hashed(cs, sha) && Indexes(byKey, cs)
    requires PlanOf(plan, cs, p.providerLocality, l) && Describes(r, plan, cs, p.providerLocality, l)
    requires NoRepeats(plan.selected) && NoRepeats(plan.exclusions)
    requires Matched(p, plan, sha, shape)
    ensures Checked(p, byKey, r, sha, shape)
  {
    assert ItemKeys(p.items) == KeysOf(plan.selected);
    ElementsExact(p, cs, plan, l, byKey, r, sha, shape);
    SameTotals(p.items, plan.selected);
    PlanKeysDistinct(plan, cs, p.providerLocality, l);
    PlanKeysCover(plan, cs, p.providerLocality, l, byKey);
  }

  /** The tests together accept exactly the packets that are the plan. */
  lemma ChecksExact(p: Packet, cs: seq<Candidate>, op: OperationType, byKey: map<string, Candidate>, r: Compilation,
                    sha: string -> string, shape: Item -> bool)
    requires DistinctKeys(cs) && Hashed(cs, sha) && Indexes(byKey, cs)
    requires Expected(r, cs, p.providerLocality, op, p.inputBudget)
    ensures Checked(p, byKey, r, sha, shape)
      <==> Matched(p, HostPlan(cs, p.providerLocality, op, p.inputBudget), sha, shape)
  {
    var l := HostLedger(cs, p.providerLocality, op, p.inputBudget);
    var plan := HostPlan(cs, p.providerLocality, op, p.inputBudget);
    HostPlanIsPlan(cs, p.providerLocality, op, p.inputBudget);
    PlanSelectedNoRepeats(cs, p.providerLocality, op, p.inputBudget);
    PlanExclusionsNoRepeats(cs, p.providerLocality, op, p.inputBudget);
    if Checked(p, byKey, r, sha, shape) { CheckedMatches(p, cs, plan, l, byKey, r, sha, shape); }
    if Matched(p, plan, sha, shape) { MatchesChecked(p, cs, plan, l, byKey, r, sha, shape); }
  }

  // ----- The check, as the host runs it

  method IndexCandidates(cs: seq<Candidate>) returns (distinct: bool, byKey: map<string, Candidate>)
    ensures distinct <==> DistinctKeys(cs)
    ensures distinct ==> Indexes(byKey, cs)
  {
    byKey := map[];
    for i := 0 to |cs|
      invariant DistinctKeys(cs[..i]) && Indexes(byKey, cs[..i])
    {
      assert cs[..i + 1] == cs[..i] + [cs[i]];
      var key := KeyOf(cs[i]);
      if key in byKey {
        assert exists k | 0 <= k < i :: KeyOf(cs[k]) == key by { assert byKey[key] in cs[..i]; }
        return false, byKey;
      }
      forall k | 0 <= k < i ensures KeyOf(cs[k]) != key {
        assert cs[..i][k] in cs[..i];
      }
      byKey := byKey[key := cs[i]];
    }
    assert cs[..|cs|] == cs;
    return true, byKey;
  }

  /** The keys gone through so far. */
  ghost predicate Covers(covered: set<string>, keys: seq<string>) {
    Distinct(keys) && covered == (set k | k in keys)
  }

  lemma CoverNext(covered: set<string>, keys: seq<string>, key: string)
    requires Covers(covered, keys)
    ensures key in covered ==> !Distinct(keys + [key])
    ensures key !in covered ==> Covers(covered + {key}, keys + [key])
  {
    if key in covered {
      var i :| 0 <= i < |keys| && keys[i] == key;
      assert (keys + [key])[i] == (keys + [key])[|keys|];
    }
  }

  method CheckItem(i: Item, byKey: map<string, Candidate>, d: map<string, Disposition>, sha: string -> string, shape: Item -> bool) returns (ok: bool)
    ensures ok <==> ItemChecked(i, byKey, d, sha, shape)
  {
    if !shape(i) { return false; }
    var key := ItemKey(i);
    if key !in byKey { return false; }
    if !SameFields(i, byKey[key]) || sha(i.content) != i.sourceHash { return false; }
    if key !in d { return false; }
    return !(d[key].exclusion.Some? || i.estimatedTokens != d[key].estimatedTokens || !WithinTolerance(i.score, d[key].score));
  }

  lemma OneMoreChecked(items: seq<Item>, i: nat, byKey: map<string, Candidate>, d: map<string, Disposition>, sha: string -> string, shape: Item -> bool)
    requires i < |items| && ItemChecked(items[i], byKey, d, sha, shape)
    requires forall k | 0 <= k < i :: ItemChecked(items[k], byKey, d, sha, shape)
    ensures forall k | 0 <= k < i + 1 :: ItemChecked(items[k], byKey, d, sha, shape)
  {
  }

  /** The loop over the items. */
  method CheckItems(items: seq<Item>, byKey: map<string, Candidate>, d: map<string, Disposition>, sha: string -> string, shape: Item -> bool)
    returns (ok: bool, covered: set<string>, targetCount: nat, estimatedInput: nat)
    ensures ok <==> Distinct(ItemKeys(items)) && forall k | 0 <= k < |items| :: ItemChecked(items[k], byKey, d, sha, shape)
    ensures ok ==> Covers(covered, ItemKeys(items)) && targetCount == TargetItems(items) && estimatedInput == ItemTokens(items)
  {
    covered, targetCount, estimatedInput := {}, 0, 0;
    for i := 0 to |items|
      invariant forall k | 0 <= k < i :: ItemChecked(items[k], byKey, d, sha, shape)
      invariant Covers(covered, ItemKeys(items[..i]))
      invariant targetCount == TargetItems(items[..i]) && estimatedInput == ItemTokens(items[..i])
    {
      var item := items[i];
      var passed := CheckItem(item, byKey, d, sha, shape);
      if !passed { return false, covered, targetCount, estimatedInput; }
      OneMoreChecked(items, i, byKey, d, sha, shape);
      assert items[..i + 1][..i] == items[..i];
      assert ItemKeys(items[..i + 1]) == ItemKeys(items[..i]) + [ItemKey(item)];
      CoverNext(covered, ItemKeys(items[..i]), ItemKey(item));
      if ItemKey(item) in covered {
        assert ItemKeys(items[..i + 1]) == ItemKeys(items)[..i + 1];
        return false, covered, targetCount, estimatedInput;
      }
      covered := covered + {ItemKey(item)};
      if item.tier == L0_TARGET && item.mandatory { targetCount := targetCount + 1; }
      estimatedInput := estimatedInput + item.estimatedTokens;
    }
    assert items[..|items|] == items;
    return true, covered, targetCount, estimatedInput;
  }

  method CheckExclusion(x: Exclusion, byKey: map<string, Candidate>, d: map<string, Disposition>) returns (ok: bool)
    ensures ok <==> ExclusionChecked(x, byKey, d)
  {
    var key := ExclusionKey(x);
    if !IsSha256(x.sourceHash) || key !in byKey || key !in d { return false; }
    return d[key].exclusion == Some(x.reason);
  }

  /** The loop over the exclusions; `before` are the keys of the items. */
  method CheckExclusions(xs: seq<Exclusion>, byKey: map<string, Candidate>, d: map<string, Disposition>, covered0: set<string>, ghost before: seq<string>)
    returns (ok: bool, covered: set<string>)
    requires Covers(covered0, before)
    ensures ok <==> Distinct(before + ExclusionKeys(xs)) && forall k | 0 <= k < |xs| :: ExclusionChecked(xs[k], byKey, d)
    ensures ok ==> Covers(covered, before + ExclusionKeys(xs))
  {
    covered := covered0;
    assert before + ExclusionKeys(xs[..0]) == before;
    for i := 0 to |xs|
      invariant forall k | 0 <= k < i :: ExclusionChecked(xs[k], byKey, d)
      invariant Covers(covered, before + ExclusionKeys(xs[..i]))
    {
      var x := xs[i];
      var passed := CheckExclusion(x, byKey, d);
      if !passed { return false, covered; }
      ghost var keys := before + ExclusionKeys(xs[..i]);
      assert before + ExclusionKeys(xs[..i + 1]) == keys + [ExclusionKey(x)];
      CoverNext(covered, keys, ExclusionKey(x));
      if ExclusionKey(x) in covered {
        assert (before + ExclusionKeys(xs))[..|keys| + 1] == keys + [ExclusionKey(x)];
        return false, covered;
      }
      covered := covered + {ExclusionKey(x)};
    }
    assert xs[..|xs|] == xs;
    return true, covered;
  }

  /** Every test after the candidates are indexed and the compilation is known. */
  method RunChecks(p: Packet, byKey: map<string, Candidate>, r: Compilation, sha: string -> string, shape: Item -> bool) returns (ok: bool)
    ensures ok <==> Checked(p, byKey, r, sha, shape)
  {
    ghost var keys := ItemKeys(p.items) + ExclusionKeys(p.exclusions);
    var passed, covered, targetCount, estimatedInput := CheckItems(p.items, byKey, r.disposition, sha, shape);
    if !passed {
      assert Distinct(keys) ==> Distinct(ItemKeys(p.items)) by { assert keys[..|p.items|] == ItemKeys(p.items); }
      return false;
    }
    passed, covered := CheckExclusions(p.exclusions, byKey, r.disposition, covered, ItemKeys(p.items));
    if !passed { return false; }
    assert covered <= byKey.Keys;
    SubsetSize(covered, byKey.Keys);
    if |covered| != |byKey| || targetCount != 1 { return false; }
    if estimatedInput != p.estimatedInput { return false; }
    return ItemKeys(p.items) == r.selectedOrder && ExclusionKeys(p.exclusions) == r.exclusionOrder;
  }

  /**
   `validate_candidate_coverage`. It accepts a packet exactly when the packet is the host's own plan:
   the same items and exclusions in the same order, field by field, scores within the tolerance, and
   one mandatory target among them.
   */
  method ValidateCandidateCoverage(p: Packet, cs: seq<Candidate>, operation: string, sha: string -> string, shape: Item -> bool)
    returns (r: Result<(), string>)
    requires Hashed(cs, sha)
    ensures r.Success? <==> Accepts(p, cs, operation, sha, shape)
  {
    var distinct, byKey := IndexCandidates(cs);
    if !distinct {
      return Failure("Host Context candidates contain a duplicate identity");
    }
    var expected := ExpectedCompilation(cs, p.providerLocality, operation, p.inputBudget);
    match expected {
      case Failure(error) => r := Failure(error);
      case Success(compilation) =>
        ChecksExact(p, cs, OperationOf(operation).value, byKey, compilation, sha, shape);
        var ok := RunChecks(p, byKey, compilation, sha, shape);
        r := if ok then Success(()) else Failure("Context Packet differs from Host compilation");
    }
  }
}
