/**
 Context candidates and the orders both context compilers sort them in
 (`confirmed_context.rs`, `context-compiler.ts`).

 Scores are exact and counted in millionths. The host compares rounded scores and orders
 strings by code point, the client compares raw scores and orders strings by locale.
 */
module ContextModel {
  import opened Common
  import opened Sorting

  datatype Tier = L0_TARGET | L1_LOCAL | L2_STRUCTURAL | L3_KNOWLEDGE | L4_STYLE_GLOBAL {
    function Index(): nat {
      match this
      case L0_TARGET => 0
      case L1_LOCAL => 1
      case L2_STRUCTURAL => 2
      case L3_KNOWLEDGE => 3
      case L4_STYLE_GLOBAL => 4
    }

    function Weight(): real {
      match this
      case L0_TARGET => 100.0
      case L1_LOCAL => 80.0
      case L2_STRUCTURAL => 65.0
      case L3_KNOWLEDGE => 50.0
      case L4_STYLE_GLOBAL => 35.0
    }
  }

  const TIERS := 5

  datatype Status = Canonical | Draft | Disputed | Archived | Rejected | Deleted

  datatype Authority = UserConfirmed | SourceDerived | ModelInferred | ExternalUntrusted {
    function Weight(): real {
      match this
      case UserConfirmed => 1.0
      case SourceDerived => 0.75
      case ModelInferred => 0.35
      case ExternalUntrusted => 0.1
    }
  }

  datatype Sensitivity = Public | Local | LocalSensitive | NeverSend

  datatype Locality = LocalProvider | RemoteProvider

  datatype Signals = Signals(relevance: real, structuralProximity: real, freshness: real, risk: real)

  datatype Candidate = Candidate(
    id: string, sourceRef: string, sourceHash: string, tier: Tier, status: Status, authority: Authority,
    sensitivity: Sensitivity, renderMode: string, reasonCodes: seq<string>, content: string,
    mandatory: bool, selectedByUser: bool, signals: Signals)

  function Clamp(x: real): real {
    if x < 0.0 then 0.0 else if x > 1.0 then 1.0 else x
  }

  /** The score before rounding, in millionths. */
  function RawScore(c: Candidate): real {
    1000000.0 *
      (c.tier.Weight()
       + Clamp(c.signals.relevance) * 30.0
       + Clamp(c.signals.structuralProximity) * 20.0
       + c.authority.Weight() * 15.0
       + Clamp(c.signals.freshness) * 10.0
       + (if c.selectedByUser then 25.0 else 0.0)
       - Clamp(c.signals.risk) * 20.0)
  }

  /** Rounded to whole millionths; scores are positive, so halves go up. */
  function RoundedScore(c: Candidate): int {
    (RawScore(c) + 0.5).Floor
  }

  function HostScore(c: Candidate): real {
    RoundedScore(c) as real
  }

  /** Half a token per character, at least one: the desktop tokenizer and the host's own estimate. */
  function Tokens(c: Candidate): (n: nat)
    ensures n >= 1
  {
    Max(1, (|c.content| + 1) / 2)
  }

  function TotalTokens(cs: seq<Candidate>): nat {
    if cs == [] then 0 else TotalTokens(cs[..|cs| - 1]) + Tokens(cs[|cs| - 1])
  }

  /** The key the host stores a candidate under. */
  function Identity(sourceRef: string, sourceHash: string): string {
    sourceRef + "\0" + sourceHash
  }

  function KeyOf(c: Candidate): string {
    Identity(c.sourceRef, c.sourceHash)
  }

  ghost predicate DistinctKeys(cs: seq<Candidate>) {
    forall i, j | 0 <= i < j < |cs| :: KeyOf(cs[i]) != KeyOf(cs[j])
  }

  /** No two candidates share both reference and hash. */
  ghost predicate DistinctSources(cs: seq<Candidate>) {
    forall i, j | 0 <= i < j < |cs| :: cs[i].sourceRef != cs[j].sourceRef || cs[i].sourceHash != cs[j].sourceHash
  }

  ghost predicate DistinctRefs(cs: seq<Candidate>) {
    forall i, j | 0 <= i < j < |cs| :: cs[i].sourceRef != cs[j].sourceRef
  }

  // ----- Orders

  /** Mandatory first, then higher score, then tier, then reference, then hash. */
  predicate CandidateLe(score: Candidate -> real, sle: (string, string) -> bool, x: Candidate, y: Candidate) {
    if x.mandatory != y.mandatory then x.mandatory
    else if score(x) != score(y) then score(x) > score(y)
    else if x.tier != y.tier then x.tier.Index() < y.tier.Index()
    else if x.sourceRef != y.sourceRef then sle(x.sourceRef, y.sourceRef)
    else sle(x.sourceHash, y.sourceHash)
  }

  /** The order of the packet: tier first, then as above. */
  predicate PacketLe(score: Candidate -> real, sle: (string, string) -> bool, x: Candidate, y: Candidate) {
    if x.tier != y.tier then x.tier.Index() < y.tier.Index()
    else CandidateLe(score, sle, x, y)
  }

  lemma CandidateOrdering(score: Candidate -> real, sle: (string, string) -> bool)
    requires StringOrder(sle)
    ensures Ordering((x, y) => CandidateLe(score, sle, x, y))
    ensures Ordering((x, y) => PacketLe(score, sle, x, y))
  {
    forall x, y, z | CandidateLe(score, sle, x, y) && CandidateLe(score, sle, y, z)
      ensures CandidateLe(score, sle, x, z)
    {
      CandidateLeTransitive(score, sle, x, y, z);
    }
    forall x, y, z | PacketLe(score, sle, x, y) && PacketLe(score, sle, y, z)
      ensures PacketLe(score, sle, x, z)
    {
      if x.tier == y.tier && y.tier == z.tier { CandidateLeTransitive(score, sle, x, y, z); }
    }
  }

  lemma CandidateLeTransitive(score: Candidate -> real, sle: (string, string) -> bool, x: Candidate, y: Candidate, z: Candidate)
    requires StringOrder(sle) && CandidateLe(score, sle, x, y) && CandidateLe(score, sle, y, z)
    ensures CandidateLe(score, sle, x, z)
  {
  }
}
