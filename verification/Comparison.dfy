/**
 `compare_documents` of `snapshot.rs`: the entry list built from the block alignment, and what
 it conserves.
 */
module Comparison {
  import opened Common
  import opened Lcs
  import opened BlockAlignment
  import opened Sorting
  import opened TextDiff
  import opened TextScript
  import EditGrid
  import Lex

  datatype Kind = Added | Removed | Modified | Unchanged

  datatype Entry = Entry(blockIdA: Option<string>, blockIdB: Option<string>, kind: Kind, textDiff: Option<seq<TextOp>>)

  datatype Summary = Summary(addedCount: nat, removedCount: nat, modifiedCount: nat, unchangedCount: nat)

  datatype DocumentDiff = DocumentDiff(documentIdA: string, documentIdB: string, blocks: seq<Entry>, summary: Summary)

  function BlocksOf(blocks: seq<Block>, documentId: string): seq<Block> {
    if blocks == [] then []
    else
      var last := blocks[|blocks| - 1];
      BlocksOf(blocks[..|blocks| - 1], documentId) + if last.documentId == documentId then [last] else []
  }

  predicate KeyLe(x: Block, y: Block) {
    Lex.Le(x.orderKey, y.orderKey)
  }

  /** The blocks of one document in the order in which the comparison reads them. */
  function Side(blocks: seq<Block>, documentId: string): seq<Block> {
    SortBy(KeyLe, BlocksOf(blocks, documentId))
  }

  // ----- Which blocks a side holds

  /**
   `side` holds the blocks of the document and no others, each as often as it occurs, sorted by order key,
   blocks with equal keys in the order they came in. `place` says where each of them stands in the input.
   */
  ghost predicate SideAt(side: seq<Block>, blocks: seq<Block>, documentId: string, place: seq<nat>) {
    && |place| == |side|
    && (forall i | 0 <= i < |side| :: place[i] < |blocks| && side[i] == blocks[place[i]] && side[i].documentId == documentId)
    && (forall i, j | 0 <= i < j < |side| :: place[i] != place[j])
    && (forall k: nat | k < |blocks| && blocks[k].documentId == documentId :: k in place)
    && (forall i, j | 0 <= i < j < |side| :: Lex.Le(side[i].orderKey, side[j].orderKey))
    && (forall i, j | 0 <= i < j < |side| && side[i].orderKey == side[j].orderKey :: place[i] < place[j])
  }

  /** The positions of the document's blocks, in order. */
  function Positions(blocks: seq<Block>, documentId: string): seq<nat> {
    if blocks == [] then []
    else
      var n := |blocks| - 1;
      Positions(blocks[..n], documentId) + if blocks[n].documentId == documentId then [n] else []
  }

  ghost predicate Positioned(blocks: seq<Block>, documentId: string, place: seq<nat>, found: seq<Block>) {
    && |place| == |found|
    && (forall i | 0 <= i < |place| :: place[i] < |blocks| && found[i] == blocks[place[i]] && found[i].documentId == documentId)
    && (forall i, j | 0 <= i < j < |place| :: place[i] < place[j])
    && (forall k: nat | k < |blocks| && blocks[k].documentId == documentId :: k in place)
  }

  lemma {:induction false} FilterPlaces(blocks: seq<Block>, documentId: string)
    ensures Positioned(blocks, documentId, Positions(blocks, documentId), BlocksOf(blocks, documentId))
  {
    if blocks != [] {
      var init, n := blocks[..|blocks| - 1], |blocks| - 1;
      FilterPlaces(init, documentId);
      OneMorePosition(blocks, documentId, Positions(init, documentId), BlocksOf(init, documentId));
    }
  }

  lemma OneMorePosition(blocks: seq<Block>, documentId: string, place: seq<nat>, found: seq<Block>)
    requires blocks != [] && Positioned(blocks[..|blocks| - 1], documentId, place, found)
    ensures var n := |blocks| - 1;
      if blocks[n].documentId == documentId then Positioned(blocks, documentId, place + [n], found + [blocks[n]])
      else Positioned(blocks, documentId, place, found)
  {
    var n := |blocks| - 1;
    forall k: nat | k < n && blocks[k].documentId == documentId
      ensures k in place
    {
      assert blocks[..n][k] == blocks[k];
    }
  }

  /** Sorting what was filtered. */
  function Composed(inner: seq<nat>, outer: seq<nat>): (place: seq<nat>)
    requires forall i | 0 <= i < |outer| :: outer[i] < |inner|
    ensures |place| == |outer| && forall i | 0 <= i < |outer| :: place[i] == inner[outer[i]]
  {
    seq(|outer|, i requires 0 <= i < |outer| => inner[outer[i]])
  }

  lemma AllComposed(inner: seq<nat>, outer: seq<nat>, k: nat)
    requires (forall i | 0 <= i < |outer| :: outer[i] < |inner|) && (forall m: nat | m < |inner| :: m in outer) && k in inner
    ensures k in Composed(inner, outer)
  {
    var m: nat :| m < |inner| && inner[m] == k;
    assert m in outer;
    var i :| 0 <= i < |outer| && outer[i] == m;
    assert Composed(inner, outer)[i] == k;
  }

  lemma SideIsAt(blocks: seq<Block>, documentId: string) returns (place: seq<nat>)
    ensures SideAt(Side(blocks, documentId), blocks, documentId, place)
  {
    var found, inner := BlocksOf(blocks, documentId), Positions(blocks, documentId);
    FilterPlaces(blocks, documentId);
    var outer := SortPlaces(KeyLe, found);
    place := Composed(inner, outer);
    forall k: nat | k < |blocks| && blocks[k].documentId == documentId ensures k in place { AllComposed(inner, outer, k); }
    Lex.IsOrdering();
    SortBySorts(KeyLe, found);
    KeyTies(Side(blocks, documentId), found, inner, outer);
  }

  lemma KeyTies(side: seq<Block>, found: seq<Block>, inner: seq<nat>, outer: seq<nat>)
    requires StablePlaces(KeyLe, found, side, outer) && |inner| == |found|
    requires forall i, j | 0 <= i < j < |inner| :: inner[i] < inner[j]
    ensures forall i, j | 0 <= i < j < |side| :: Composed(inner, outer)[i] != Composed(inner, outer)[j]
    ensures forall i, j | 0 <= i < j < |side| && side[i].orderKey == side[j].orderKey ::
      Composed(inner, outer)[i] < Composed(inner, outer)[j]
  {
    forall i, j | 0 <= i < j < |side| && side[i].orderKey == side[j].orderKey
      ensures outer[i] < outer[j]
    {
      Lex.Total(side[i].orderKey, side[i].orderKey);
      assert KeyLe(side[j], side[i]);
    }
  }

  // ----- Counting and reading entries

  function Count(entries: seq<Entry>, kind: Kind): nat {
    if entries == [] then 0
    else Count(entries[..|entries| - 1], kind) + if entries[|entries| - 1].kind == kind then 1 else 0
  }

  function Paired(entries: seq<Entry>): nat {
    Count(entries, Modified) + Count(entries, Unchanged)
  }

  /** The ids on one side of the entry list, in order. */
  function IdsA(entries: seq<Entry>): seq<string> {
    if entries == [] then []
    else
      var last := entries[|entries| - 1];
      IdsA(entries[..|entries| - 1]) + if last.blockIdA.Some? then [last.blockIdA.value] else []
  }

  function IdsB(entries: seq<Entry>): seq<string> {
    if entries == [] then []
    else
      var last := entries[|entries| - 1];
      IdsB(entries[..|entries| - 1]) + if last.blockIdB.Some? then [last.blockIdB.value] else []
  }

  function Ids(blocks: seq<Block>): (ids: seq<string>)
    ensures |ids| == |blocks|
  {
    seq(|blocks|, i requires 0 <= i < |blocks| => blocks[i].id)
  }

  /** The text part of a modified entry: spells both texts, and is shortest up to the size cap. */
  ghost predicate TextDiffOf(ops: seq<TextOp>, a: string, b: string) {
    && Script(ops, a, b,
         if |a| > 1048576 || |b| > 1048576 then |a| + |b| else EditGrid.EditDistance(a, b))
    && Coalesced(ops)
  }

  /** What one entry says about the next unread blocks a[i] and b[j]. */
  ghost predicate Explains(e: Entry, a: seq<Block>, b: seq<Block>, i: int, j: int) {
    match e.kind
    case Removed => 0 <= i < |a| && e == Entry(Some(a[i].id), None, Removed, None)
    case Added => 0 <= j < |b| && e == Entry(None, Some(b[j].id), Added, None)
    case Unchanged =>
      && 0 <= i < |a| && 0 <= j < |b|
      && a[i].orderKey == b[j].orderKey && a[i].contentHash == b[j].contentHash
      && e == Entry(Some(a[i].id), Some(b[j].id), Unchanged, None)
    case Modified =>
      && 0 <= i < |a| && 0 <= j < |b|
      && a[i].orderKey == b[j].orderKey && a[i].contentHash != b[j].contentHash
      && e.blockIdA == Some(a[i].id) && e.blockIdB == Some(b[j].id)
      && e.textDiff.Some? && TextDiffOf(e.textDiff.value, a[i].plainText, b[j].plainText)
  }

  /** How far a prefix of the entries has read, and how many blocks it has paired. */
  datatype Position = Position(i: int, j: int, pairs: int) {
    function Advance(kind: Kind): Position {
      match kind
      case Removed => this.(i := i + 1)
      case Added => this.(j := j + 1)
      case _ => Position(i + 1, j + 1, pairs + 1)
    }
  }

  /** Reading the entries one by one, each against the next unread blocks; None if one does not fit. */
  ghost function Read(entries: seq<Entry>, a: seq<Block>, b: seq<Block>): Option<Position> {
    if entries == [] then Some(Position(0, 0, 0))
    else
      var last := entries[|entries| - 1];
      match Read(entries[..|entries| - 1], a, b)
      case None => None
      case Some(p) => if Explains(last, a, b, p.i, p.j) then Some(p.Advance(last.kind)) else None
  }

  /** The entries read exactly a[..i] and b[..j], each block once and in order, `pairs` of them together. */
  ghost predicate Narrates(entries: seq<Entry>, a: seq<Block>, b: seq<Block>, i: int, j: int, pairs: int) {
    Read(entries, a, b) == Some(Position(i, j, pairs))
  }

  lemma Narrate(entries: seq<Entry>, e: Entry, a: seq<Block>, b: seq<Block>, i: int, j: int, pairs: int)
    requires Narrates(entries, a, b, i, j, pairs) && Explains(e, a, b, i, j)
    ensures Read(entries + [e], a, b) == Some(Position(i, j, pairs).Advance(e.kind))
  {
    assert (entries + [e])[..|entries|] == entries;
  }

  /** Pure removals up to a[to]. */
  method PushRemoved(a: seq<Block>, b: seq<Block>, entries0: seq<Entry>, i0: nat, to: nat, ghost j: nat, ghost pairs: nat)
    returns (entries: seq<Entry>)
    requires i0 <= to <= |a| && Narrates(entries0, a, b, i0, j, pairs)
    ensures Narrates(entries, a, b, to, j, pairs)
  {
    entries := entries0;
    var i := i0;
    while i < to
      invariant i0 <= i <= to && Narrates(entries, a, b, i, j, pairs)
    {
      var e := Entry(Some(a[i].id), None, Removed, None);
      Narrate(entries, e, a, b, i, j, pairs);
      entries := entries + [e];
      i := i + 1;
    }
  }

  /** Pure additions up to b[to]. */
  method PushAdded(a: seq<Block>, b: seq<Block>, entries0: seq<Entry>, ghost i: nat, j0: nat, to: nat, ghost pairs: nat)
    returns (entries: seq<Entry>)
    requires j0 <= to <= |b| && Narrates(entries0, a, b, i, j0, pairs)
    ensures Narrates(entries, a, b, i, to, pairs)
  {
    entries := entries0;
    var j := j0;
    while j < to
      invariant j0 <= j <= to && Narrates(entries, a, b, i, j, pairs)
    {
      var e := Entry(None, Some(b[j].id), Added, None);
      Narrate(entries, e, a, b, i, j, pairs);
      entries := entries + [e];
      j := j + 1;
    }
  }

  method PairEntry(x: Block, y: Block) returns (e: Entry)
    requires x.orderKey == y.orderKey
    ensures Explains(e, [x], [y], 0, 0) && (e.kind == Modified || e.kind == Unchanged)
  {
    if x.contentHash == y.contentHash {
      e := Entry(Some(x.id), Some(y.id), Unchanged, None);
    } else {
      var ops := DiffBlockTexts(x.plainText, y.plainText);
      e := Entry(Some(x.id), Some(y.id), Modified, Some(ops));
    }
  }

  /** One match: the removals and additions before it, then its own entry. */
  method MergeMatch(a: seq<Block>, b: seq<Block>, entries0: seq<Entry>, i: nat, j: nat, nextI: nat, nextJ: nat, ghost pairs: nat)
    returns (entries: seq<Entry>)
    requires i <= nextI < |a| && j <= nextJ < |b| && a[nextI].orderKey == b[nextJ].orderKey
    requires Narrates(entries0, a, b, i, j, pairs)
    ensures Narrates(entries, a, b, nextI + 1, nextJ + 1, pairs + 1)
  {
    entries := PushRemoved(a, b, entries0, i, nextI, j, pairs);
    entries := PushAdded(a, b, entries, nextI, j, nextJ, pairs);
    var e := PairEntry(a[nextI], b[nextJ]);
    Narrate(entries, e, a, b, nextI, nextJ, pairs);
    entries := entries + [e];
  }

  method MergeTail(a: seq<Block>, b: seq<Block>, entries0: seq<Entry>, i: nat, j: nat, ghost pairs: nat)
    returns (entries: seq<Entry>)
    requires i <= |a| && j <= |b| && Narrates(entries0, a, b, i, j, pairs)
    ensures Narrates(entries, a, b, |a|, |b|, pairs)
  {
    entries := PushRemoved(a, b, entries0, i, |a|, j, pairs);
    entries := PushAdded(a, b, entries, |a|, j, |b|, pairs);
  }

  /** The merging loop over the two sides and their alignment. */
  method MergeBlocks(a: seq<Block>, b: seq<Block>, matches: seq<(nat, nat)>) returns (entries: seq<Entry>)
    requires Alignment(Keys(a), Keys(b), matches)
    ensures Narrates(entries, a, b, |a|, |b|, |matches|)
  {
    entries := [];
    var i: nat, j: nat, matchIdx: nat := 0, 0, 0;
    while i < |a| || j < |b|
      invariant i <= |a| && j <= |b| && matchIdx <= |matches|
      invariant matchIdx < |matches| ==> i <= matches[matchIdx].0 && j <= matches[matchIdx].1
      invariant Narrates(entries, a, b, i, j, matchIdx)
      decreases |a| - i + |b| - j
    {
      if matchIdx < |matches| {
        var nextI, nextJ := matches[matchIdx].0, matches[matchIdx].1;
        entries := MergeMatch(a, b, entries, i, j, nextI, nextJ, matchIdx);
        i, j, matchIdx := nextI + 1, nextJ + 1, matchIdx + 1;
      } else {
        entries := MergeTail(a, b, entries, i, j, matchIdx);
        i, j := |a|, |b|;
      }
    }
  }

  /** The counts add up to the sizes of both sides. */
  lemma {:induction false} CountsAddUp(entries: seq<Entry>, a: seq<Block>, b: seq<Block>, i: int, j: int, pairs: int)
    requires Narrates(entries, a, b, i, j, pairs)
    ensures 0 <= i <= |a| && 0 <= j <= |b| && pairs == Paired(entries)
    ensures Count(entries, Removed) + pairs == i
    ensures Count(entries, Added) + pairs == j
    decreases |entries|
  {
    if entries != [] {
      var p := Read(entries[..|entries| - 1], a, b).value;
      CountsAddUp(entries[..|entries| - 1], a, b, p.i, p.j, p.pairs);
    }
  }

  lemma IdsGrow(blocks: seq<Block>, i: int)
    requires 0 <= i < |blocks|
    ensures Ids(blocks)[..i + 1] == Ids(blocks)[..i] + [blocks[i].id]
  {
  }

  /** Read in order, the A side of the entries is the A blocks, each exactly once. */
  lemma {:induction false} ConservesA(entries: seq<Entry>, a: seq<Block>, b: seq<Block>, i: int, j: int, pairs: int)
    requires Narrates(entries, a, b, i, j, pairs) && 0 <= i <= |a|
    ensures IdsA(entries) == Ids(a)[..i]
    decreases |entries|
  {
    if entries != [] {
      var last, init := entries[|entries| - 1], entries[..|entries| - 1];
      var p := Read(init, a, b).value;
      CountsAddUp(init, a, b, p.i, p.j, p.pairs);
      ConservesA(init, a, b, p.i, p.j, p.pairs);
      if last.kind != Added { IdsGrow(a, p.i); }
    }
  }

  lemma {:induction false} ConservesB(entries: seq<Entry>, a: seq<Block>, b: seq<Block>, i: int, j: int, pairs: int)
    requires Narrates(entries, a, b, i, j, pairs) && 0 <= j <= |b|
    ensures IdsB(entries) == Ids(b)[..j]
    decreases |entries|
  {
    if entries != [] {
      var last, init := entries[|entries| - 1], entries[..|entries| - 1];
      var p := Read(init, a, b).value;
      CountsAddUp(init, a, b, p.i, p.j, p.pairs);
      ConservesB(init, a, b, p.i, p.j, p.pairs);
      if last.kind != Removed { IdsGrow(b, p.j); }
    }
  }

  // ----- Sorted sides align on every shared key

  /** The first i keys with their multiplicities. */
  ghost function Bag(s: seq<string>, i: nat): multiset<string>
    requires i <= |s|
  {
    if i == 0 then multiset{} else Bag(s, i - 1) + multiset{s[i - 1]}
  }

  lemma {:induction false} BagIsPrefix(s: seq<string>, i: nat)
    requires i <= |s|
    ensures Bag(s, i) == multiset(s[..i])
  {
    if i > 0 {
      BagIsPrefix(s, i - 1);
      assert s[..i] == s[..i - 1] + [s[i - 1]];
    }
  }

  /** A key above everything among the first j keys is not one of them. */
  lemma {:induction false} AboveIsAbsent(key: string, t: seq<string>, j: nat)
    requires j <= |t| && forall k | 0 <= k < j :: t[k] != key
    ensures key !in Bag(t, j)
  {
    if j > 0 { AboveIsAbsent(key, t, j - 1); }
  }

  lemma BelowOthers(key: string, t: seq<string>, j: nat)
    requires Sorted(Lex.Le, t) && 0 < j <= |t| && Lex.Le(t[j - 1], key) && t[j - 1] != key
    ensures forall k | 0 <= k < j :: t[k] != key
  {
    forall k | 0 <= k < j - 1 && t[k] == key
      ensures false
    {
      assert Lex.Le(t[k], t[j - 1]);
      Lex.Antisymmetric(key, t[j - 1]);
    }
  }

  /** How many elements the first i of s and the first j of t share, with multiplicity. */
  ghost function Shared(s: seq<string>, t: seq<string>, i: nat, j: nat): nat
    requires i <= |s| && j <= |t|
  {
    |Bag(s, i) * Bag(t, j)|
  }

  lemma SharedEqual(s: seq<string>, t: seq<string>, i: nat, j: nat)
    requires 0 < i <= |s| && 0 < j <= |t| && s[i - 1] == t[j - 1]
    ensures Shared(s, t, i, j) == Shared(s, t, i - 1, j - 1) + 1
  {
    var ms, mt, one := Bag(s, i - 1), Bag(t, j - 1), multiset{s[i - 1]};
    assert (ms + one) * (mt + one) == ms * mt + one;
  }

  lemma SharedAbsentLeft(s: seq<string>, t: seq<string>, i: nat, j: nat)
    requires 0 < i <= |s| && j <= |t| && s[i - 1] !in Bag(t, j)
    ensures Shared(s, t, i, j) == Shared(s, t, i - 1, j)
  {
    assert Bag(s, i) * Bag(t, j) == Bag(s, i - 1) * Bag(t, j);
  }

  lemma SharedAbsentRight(s: seq<string>, t: seq<string>, i: nat, j: nat)
    requires i <= |s| && 0 < j <= |t| && t[j - 1] !in Bag(s, i)
    ensures Shared(s, t, i, j) == Shared(s, t, i, j - 1)
  {
    assert Bag(s, i) * Bag(t, j) == Bag(s, i) * Bag(t, j - 1);
  }

  lemma SharedNextLeft(s: seq<string>, t: seq<string>, i: nat, j: nat)
    requires 0 < i <= |s| && j <= |t|
    ensures Shared(s, t, i - 1, j) <= Shared(s, t, i, j)
  {
    var both, less := Bag(s, i) * Bag(t, j), Bag(s, i - 1) * Bag(t, j);
    assert both == less + (both - less);
  }

  lemma SharedNextRight(s: seq<string>, t: seq<string>, i: nat, j: nat)
    requires i <= |s| && 0 < j <= |t|
    ensures Shared(s, t, i, j - 1) <= Shared(s, t, i, j)
  {
    var both, less := Bag(s, i) * Bag(t, j), Bag(s, i) * Bag(t, j - 1);
    assert both == less + (both - less);
  }

  lemma {:induction false} SharedGrowsLeft(s: seq<string>, t: seq<string>, i: nat, i': nat, j: nat)
    requires i <= i' <= |s| && j <= |t|
    ensures Shared(s, t, i, j) <= Shared(s, t, i', j)
    decreases i'
  {
    if i < i' {
      SharedNextLeft(s, t, i', j);
      SharedGrowsLeft(s, t, i, i' - 1, j);
    }
  }

  lemma {:induction false} SharedGrowsRight(s: seq<string>, t: seq<string>, i: nat, j: nat, j': nat)
    requires i <= |s| && j <= j' <= |t|
    ensures Shared(s, t, i, j) <= Shared(s, t, i, j')
    decreases j'
  {
    if j < j' {
      SharedNextRight(s, t, i, j');
      SharedGrowsRight(s, t, i, j, j' - 1);
    }
  }

  lemma SharedGrows(s: seq<string>, t: seq<string>, i: nat, j: nat, i': nat, j': nat)
    requires i <= i' <= |s| && j <= j' <= |t|
    ensures Shared(s, t, i, j) <= Shared(s, t, i', j')
  {
    SharedGrowsLeft(s, t, i, i', j);
    SharedGrowsRight(s, t, i', j, j');
  }

  /** An alignment pairs no key more often than both lists hold it. */
  lemma {:induction false} AlignmentShares(s: seq<string>, t: seq<string>, m: seq<(nat, nat)>, i: nat, j: nat)
    requires Alignment(s, t, m) && i <= |s| && j <= |t|
    requires forall k | 0 <= k < |m| :: m[k].0 < i && m[k].1 < j
    ensures |m| <= Shared(s, t, i, j)
    decreases |m|
  {
    if m != [] {
      var (p, q) := m[|m| - 1];
      AlignmentShares(s, t, m[..|m| - 1], p, q);
      SharedEqual(s, t, p + 1, q + 1);
      SharedGrows(s, t, p + 1, q + 1, i, j);
    }
  }

  /** Of two different last keys the larger one is not shared. */
  lemma LargerLeft(s: seq<string>, t: seq<string>, i: nat, j: nat)
    requires Sorted(Lex.Le, t) && 0 < i <= |s| && 0 < j <= |t|
    requires s[i - 1] != t[j - 1] && Lex.Le(t[j - 1], s[i - 1])
    ensures Shared(s, t, i, j) == Shared(s, t, i - 1, j)
  {
    BelowOthers(s[i - 1], t, j);
    AboveIsAbsent(s[i - 1], t, j);
    SharedAbsentLeft(s, t, i, j);
  }

  lemma LargerRight(s: seq<string>, t: seq<string>, i: nat, j: nat)
    requires Sorted(Lex.Le, s) && 0 < i <= |s| && 0 < j <= |t| && !Lex.Le(t[j - 1], s[i - 1])
    ensures Shared(s, t, i, j) == Shared(s, t, i, j - 1)
  {
    Lex.Total(s[i - 1], t[j - 1]);
    Lex.Total(t[j - 1], t[j - 1]);
    BelowOthers(t[j - 1], s, i);
    AboveIsAbsent(t[j - 1], s, i);
    SharedAbsentRight(s, t, i, j);
  }

  ghost predicate Within(m: seq<(nat, nat)>, i: nat, j: nat) {
    forall k | 0 <= k < |m| :: m[k].0 < i && m[k].1 < j
  }

  lemma AlignmentSnoc(s: seq<string>, t: seq<string>, m: seq<(nat, nat)>, i: nat, j: nat)
    requires Alignment(s, t, m) && Within(m, i, j) && i < |s| && j < |t| && s[i] == t[j]
    ensures Alignment(s, t, m + [(i, j)]) && Within(m + [(i, j)], i + 1, j + 1)
  {
  }

  /** On sorted key lists some alignment pairs every shared key as often as both lists hold it. */
  lemma {:induction false} AlignShared(s: seq<string>, t: seq<string>, i: nat, j: nat) returns (m: seq<(nat, nat)>)
    requires Sorted(Lex.Le, s) && Sorted(Lex.Le, t) && i <= |s| && j <= |t|
    ensures Alignment(s, t, m) && |m| == Shared(s, t, i, j)
    ensures Within(m, i, j)
    decreases i + j
  {
    if i == 0 || j == 0 {
      m := [];
      assert Bag(s, i) * Bag(t, j) == multiset{};
    } else if s[i - 1] == t[j - 1] {
      m := AlignShared(s, t, i - 1, j - 1);
      AlignmentSnoc(s, t, m, i - 1, j - 1);
      m := m + [(i - 1, j - 1)];
      SharedEqual(s, t, i, j);
    } else if Lex.Le(t[j - 1], s[i - 1]) {
      m := AlignShared(s, t, i - 1, j);
      LargerLeft(s, t, i, j);
    } else {
      m := AlignShared(s, t, i, j - 1);
      LargerRight(s, t, i, j);
    }
  }

  /** On sorted key lists the longest alignment takes each key the smaller number of times. */
  lemma SortedAlignment(s: seq<string>, t: seq<string>)
    requires Sorted(Lex.Le, s) && Sorted(Lex.Le, t)
    ensures LcsLength(s, t) == |multiset(s) * multiset(t)|
  {
    var m := AlignShared(s, t, |s|, |t|);
    AlignmentBound(s, t, m);
    AlignmentShares(s, t, Longest(s, t, |s|, |t|), |s|, |t|);
    BagIsPrefix(s, |s|);
    BagIsPrefix(t, |t|);
    assert s[..|s|] == s && t[..|t|] == t;
  }

  lemma SideIsSorted(blocks: seq<Block>, documentId: string)
    ensures Sorted(Lex.Le, Keys(Side(blocks, documentId)))
  {
    Lex.IsOrdering();
    SortBySorts(KeyLe, BlocksOf(blocks, documentId));
  }

  /** How many blocks the comparison pairs: every shared key, the smaller number of times. */
  lemma PairedIsShared(a: seq<Block>, b: seq<Block>, documentIdA: string, documentIdB: string)
    ensures var keysA, keysB := Keys(Side(a, documentIdA)), Keys(Side(b, documentIdB));
      LcsLength(keysA, keysB) == |multiset(keysA) * multiset(keysB)|
  {
    var keysA, keysB := Keys(Side(a, documentIdA)), Keys(Side(b, documentIdB));
    SideIsSorted(a, documentIdA);
    SideIsSorted(b, documentIdB);
    SortedAlignment(keysA, keysB);
  }

  /** What the entries, the ids and the counts say about the two sides. */
  ghost predicate Faithful(diff: DocumentDiff, a: seq<Block>, b: seq<Block>) {
    var s := diff.summary;
    var pairs := |multiset(Keys(a)) * multiset(Keys(b))|;
    && Narrates(diff.blocks, a, b, |a|, |b|, pairs)
    && IdsA(diff.blocks) == Ids(a) && IdsB(diff.blocks) == Ids(b)
    && s.modifiedCount + s.unchangedCount == pairs
    && s.removedCount + pairs == |a|
    && s.addedCount + pairs == |b|
    && s.modifiedCount == |OfKind(diff.blocks, Modified)|
    && s.unchangedCount == |OfKind(diff.blocks, Unchanged)|
  }

  /** Where the entries of one kind are. */
  ghost function OfKind(entries: seq<Entry>, kind: Kind): set<int> {
    set k | 0 <= k < |entries| && entries[k].kind == kind
  }

  lemma OfKindGrows(entries: seq<Entry>, e: Entry, kind: Kind)
    ensures OfKind(entries + [e], kind) == OfKind(entries, kind) + if e.kind == kind then {|entries|} else {}
    ensures |OfKind(entries + [e], kind)| == |OfKind(entries, kind)| + if e.kind == kind then 1 else 0
  {
    assert |entries| !in OfKind(entries, kind);
  }

  lemma {:induction false} CountIs(entries: seq<Entry>, kind: Kind)
    ensures Count(entries, kind) == |OfKind(entries, kind)|
  {
    if entries != [] {
      var init, last := entries[..|entries| - 1], entries[|entries| - 1];
      CountIs(init, kind);
      OfKindGrows(init, last, kind);
      assert entries == init + [last];
    }
  }

  function Summarize(entries: seq<Entry>): Summary {
    Summary(Count(entries, Added), Count(entries, Removed), Count(entries, Modified), Count(entries, Unchanged))
  }

  lemma NarratedIsFaithful(diff: DocumentDiff, a: seq<Block>, b: seq<Block>)
    requires diff.summary == Summarize(diff.blocks)
    requires Narrates(diff.blocks, a, b, |a|, |b|, |multiset(Keys(a)) * multiset(Keys(b))|)
    ensures Faithful(diff, a, b)
  {
    var pairs := |multiset(Keys(a)) * multiset(Keys(b))|;
    CountsAddUp(diff.blocks, a, b, |a|, |b|, pairs);
    ConservesA(diff.blocks, a, b, |a|, |b|, pairs);
    ConservesB(diff.blocks, a, b, |a|, |b|, pairs);
    assert Ids(a)[..|a|] == Ids(a) && Ids(b)[..|b|] == Ids(b);
    CountIs(diff.blocks, Modified);
    CountIs(diff.blocks, Unchanged);
  }

  /**
   The whole comparison. The two sides `a` and `b` are the blocks of the two documents in key order;
   each side's blocks appear once and in order, every entry is what its two blocks warrant, and the
   counts are as the keys of the two sides dictate.
   */
  method CompareDocuments(blocksA: seq<Block>, blocksB: seq<Block>, documentIdA: string, documentIdB: string)
    returns (diff: DocumentDiff, ghost a: seq<Block>, ghost b: seq<Block>)
    ensures exists place :: SideAt(a, blocksA, documentIdA, place)
    ensures exists place :: SideAt(b, blocksB, documentIdB, place)
    ensures Faithful(diff, a, b)
    ensures diff.documentIdA == documentIdA && diff.documentIdB == documentIdB
  {
    var sideA, sideB := Side(blocksA, documentIdA), Side(blocksB, documentIdB);
    ghost var placeA := SideIsAt(blocksA, documentIdA);
    ghost var placeB := SideIsAt(blocksB, documentIdB);
    a, b := sideA, sideB;
    var matches := LcsByOrderKey(sideA, sideB);
    var entries := MergeBlocks(sideA, sideB, matches);
    PairedIsShared(blocksA, blocksB, documentIdA, documentIdB);
    diff := DocumentDiff(documentIdA, documentIdB, entries, Summarize(entries));
    NarratedIsFaithful(diff, a, b);
  }
}
