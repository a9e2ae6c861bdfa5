/**
 Outdenting a document and indenting it again. The outdent puts it right after its parent, the indent
 behind all children of that parent, so its place among them is lost unless it was the last one.
 */
module DocumentOutdent {
  import opened Common
  import opened Sorting
  import opened Text
  import opened DocumentForest
  import opened DocumentOrder
  import opened DocumentCommands
  import opened DocumentSafety
  import opened DocumentRoundTrip

  // ----- The outdent

  lemma ParentFacts(docs: Documents, x: string, p: string)
    requires WellFormed(docs) && IsChild(docs, Some(p), x)
    ensures p in docs && docs[p].active && p != x && docs[p].parent != Some(p)
    ensures p in Siblings(docs, docs[p].parent) && x !in Siblings(docs, docs[p].parent)
  {
    var rank :| Ranked(docs, rank);
    InSiblings(docs, docs[p].parent, p);
    InSiblings(docs, docs[p].parent, x);
  }

  /** The order an outdent asks for in the group of the parent. */
  ghost function OutdentOrder(docs: Documents, x: string, p: string): seq<string>
    requires p in docs && p in Siblings(docs, docs[p].parent)
  {
    InsertedAfter(Siblings(docs, docs[p].parent), p, x)
  }

  lemma OutdentLists(docs: Documents, x: string, p: string)
    requires WellFormed(docs) && IsChild(docs, Some(p), x) && p in docs && p in Siblings(docs, docs[p].parent)
    ensures Lists(Reparented(docs, x, docs[p].parent), docs[p].parent, OutdentOrder(docs, x, p))
  {
    ParentFacts(docs, x, p);
    var to, ids := docs[p].parent, Siblings(docs, docs[p].parent);
    SiblingsAre(docs, to);
    InsertedDistinct(ids, p, x);
    forall id
      ensures id in OutdentOrder(docs, x, p) <==> IsChild(Reparented(docs, x, to), to, id)
    {
      MovedChildren(docs, x, to, to, id);
    }
  }

  lemma OutdentPlaces(docs: Documents, x: string, p: string, token: string)
    requires WellFormed(docs) && IsChild(docs, Some(p), x)
    ensures p in docs && p in Siblings(docs, docs[p].parent)
    ensures OutdentEdit(docs, x, token) == Success(Placed(docs, x, docs[p].parent, OutdentOrder(docs, x, p), token))
  {
    ParentFacts(docs, x, p);
    MovedTo(docs, x, docs[p].parent);
  }

  /** After an outdent: `x` comes right after `p`, everything else is as it was. */
  ghost predicate Outdented(docs: Documents, x: string, p: string, after: Documents)
    requires p in docs && p in Siblings(docs, docs[p].parent)
  {
    && MovedOnly(docs, x, docs[p].parent, after)
    && forall q :: Siblings(after, q) == OutdentedGroup(docs, x, p, q)
  }

  /** `x` hangs under `to`, every other document where it was. */
  predicate MovedOnly(docs: Documents, x: string, to: Option<string>, after: Documents) {
    && after.Keys == docs.Keys
    && forall id | id in docs :: after[id].active == docs[id].active && after[id].parent == if id == x then to else docs[id].parent
  }

  ghost function OutdentedGroup(docs: Documents, x: string, p: string, q: Option<string>): seq<string>
    requires p in docs && p in Siblings(docs, docs[p].parent)
  {
    if q == docs[p].parent then OutdentOrder(docs, x, p)
    else if q == Some(p) then Without(Siblings(docs, q), x)
    else Siblings(docs, q)
  }

  lemma OtherGroups(docs: Documents, x: string, p: string, q: Option<string>)
    requires WellFormed(docs) && IsChild(docs, Some(p), x) && p in docs && q != docs[p].parent
    ensures Siblings(Reparented(docs, x, docs[p].parent), q) == if q == Some(p) then Without(Siblings(docs, q), x) else Siblings(docs, q)
  {
    ParentFacts(docs, x, p);
    if q == Some(p) { MovedFrom(docs, x, docs[p].parent); } else { MovedElsewhere(docs, x, docs[p].parent, q); }
  }

  lemma OutdentGroups(docs: Documents, x: string, p: string, token: string, to: Option<string>, order: seq<string>, q: Option<string>)
    requires WellFormed(docs) && IsChild(docs, Some(p), x) && Unused(docs, token)
    requires p in docs && p in Siblings(docs, docs[p].parent) && to == docs[p].parent && order == OutdentOrder(docs, x, p)
    requires |Changed(docs, Placed(docs, x, to, order, token))| <= MAX_BATCH
    ensures Siblings(Bumped(docs, Placed(docs, x, to, order, token)), q) == OutdentedGroup(docs, x, p, q)
  {
    var moved := Reparented(docs, x, to);
    OutdentLists(docs, x, p);
    Settled(docs, moved, to, order, token, q);
    if q != to { OtherGroups(docs, x, p, q); }
  }

  lemma PlacedMoves(docs: Documents, x: string, to: Option<string>, order: seq<string>, token: string)
    requires x in docs
    ensures MovedOnly(docs, x, to, Bumped(docs, Placed(docs, x, to, order, token)))
  {
    SettledLinks(docs, Reparented(docs, x, to), order, token);
  }

  lemma OutdentOutdents(docs: Documents, x: string, p: string, token: string)
    requires WellFormed(docs) && IsChild(docs, Some(p), x) && Unused(docs, token)
    requires p in docs && p in Siblings(docs, docs[p].parent)
    requires |Changed(docs, Placed(docs, x, docs[p].parent, OutdentOrder(docs, x, p), token))| <= MAX_BATCH
    ensures Outdented(docs, x, p, Bumped(docs, Placed(docs, x, docs[p].parent, OutdentOrder(docs, x, p), token)))
  {
    var after := Bumped(docs, Placed(docs, x, docs[p].parent, OutdentOrder(docs, x, p), token));
    PlacedMoves(docs, x, docs[p].parent, OutdentOrder(docs, x, p), token);
    forall q
      ensures Siblings(after, q) == OutdentedGroup(docs, x, p, q)
    {
      OutdentGroups(docs, x, p, token, docs[p].parent, OutdentOrder(docs, x, p), q);
    }
  }

  // ----- The indent after it

  lemma InsertedPlace(ids: seq<string>, p: string, x: string)
    requires NoRepeats(ids) && p in ids && x !in ids
    ensures var more, i := InsertedAfter(ids, p, x), IndexOf(ids, p);
            i + 1 < |more| && more[i] == p && more[i + 1] == x && Without(more, x) == ids
  {
    InsertedNoRepeats(ids, IndexOf(ids, p), x);
    TakenOut(ids, IndexOf(ids, p), x);
  }

  lemma TakenOut(ids: seq<string>, i: nat, x: string)
    requires i < |ids| && NoRepeats(ids[..i + 1] + [x] + ids[i + 1..])
    ensures var more := ids[..i + 1] + [x] + ids[i + 1..];
            more[i] == ids[i] && more[i + 1] == x && Without(more, x) == ids
  {
    var more := ids[..i + 1] + [x] + ids[i + 1..];
    WithoutAt(more, i + 1);
    assert more[..i + 1] == ids[..i + 1] && more[i + 2..] == ids[i + 1..];
  }

  lemma OutdentedAt(docs: Documents, x: string, p: string, after: Documents)
    requires WellFormed(docs) && IsChild(docs, Some(p), x)
    requires p in docs && p in Siblings(docs, docs[p].parent) && Outdented(docs, x, p, after)
    ensures x in after && after[x].active && after[x].parent == docs[p].parent != Some(p)
    ensures Siblings(after, docs[p].parent) == OutdentOrder(docs, x, p)
    ensures Siblings(after, Some(p)) == Without(Siblings(docs, Some(p)), x)
  {
    ParentFacts(docs, x, p);
  }

  lemma OutdentedPlace(docs: Documents, x: string, p: string)
    requires WellFormed(docs) && IsChild(docs, Some(p), x) && p in docs && p in Siblings(docs, docs[p].parent)
    ensures var more, i := OutdentOrder(docs, x, p), IndexOf(Siblings(docs, docs[p].parent), p);
            i + 1 < |more| && more[i] == p && more[i + 1] == x && Without(more, x) == Siblings(docs, docs[p].parent)
  {
    ParentFacts(docs, x, p);
    SiblingsAre(docs, docs[p].parent);
    InsertedPlace(Siblings(docs, docs[p].parent), p, x);
  }

  lemma IndentEditUnder(docs: Documents, x: string, p: string, i: nat, token: string)
    requires x in docs && docs[x].active && i + 1 < |Siblings(docs, docs[x].parent)|
    requires Siblings(docs, docs[x].parent)[i] == p && Siblings(docs, docs[x].parent)[i + 1] == x
    ensures IndentEdit(docs, x, token) == Success(Placed(docs, x, Some(p), IndentOrder(docs, x, p), token))
  {
    PlaceIs(docs, x, i + 1);
  }

  /** The document is pushed behind the remaining children of its old parent. */
  lemma IndentsUnderParent(docs: Documents, x: string, p: string, after: Documents, token: string)
    requires WellFormed(docs) && IsChild(docs, Some(p), x)
    requires p in docs && p in Siblings(docs, docs[p].parent) && Outdented(docs, x, p, after)
    ensures x in after && after[x].active && after[x].parent == docs[p].parent != Some(p)
    ensures IndentEdit(after, x, token) == Success(Placed(after, x, Some(p), IndentOrder(after, x, p), token))
    ensures IndentOrder(after, x, p) == Without(Siblings(docs, Some(p)), x) + [x]
    ensures Without(Siblings(after, docs[p].parent), x) == Siblings(docs, docs[p].parent)
  {
    OutdentedAt(docs, x, p, after);
    OutdentedPlace(docs, x, p);
    IndentEditUnder(after, x, p, IndexOf(Siblings(docs, docs[p].parent), p), token);
    IndentedLists(after, x, p);
  }

  /** Outdent, then indent: the children of `p` end with `x`, every other group is back. */
  lemma IndentReturns(docs: Documents, x: string, p: string, after: Documents, token: string, q: Option<string>)
    requires WellFormed(docs) && IsChild(docs, Some(p), x) && Unused(after, token)
    requires p in docs && p in Siblings(docs, docs[p].parent) && Outdented(docs, x, p, after) && x in after && after[x].active
    requires |Changed(after, Placed(after, x, Some(p), IndentOrder(after, x, p), token))| <= MAX_BATCH
    ensures Siblings(Bumped(after, Placed(after, x, Some(p), IndentOrder(after, x, p), token)), q) ==
            if q == Some(p) then Without(Siblings(docs, q), x) + [x] else Siblings(docs, q)
  {
    IndentsUnderParent(docs, x, p, after, token);
    IndentSettles(after, x, p, token, q);
  }

  lemma LastReturns(ids: seq<string>, x: string)
    requires NoRepeats(ids) && x in ids
    ensures Without(ids, x) + [x] == ids <==> ids[|ids| - 1] == x
    ensures |Without(ids, x) + [x]| == |ids|
  {
    var i := IndexOf(ids, x);
    WithoutAt(ids, i);
    if ids[|ids| - 1] == x {
      assert i == |ids| - 1 && Without(ids, x) == ids[..i];
    } else {
      assert (Without(ids, x) + [x])[|ids| - 1] == x;
    }
  }

  lemma MovedBack(docs: Documents, x: string, to: Option<string>, after: Documents, last: Documents)
    requires x in docs && MovedOnly(docs, x, to, after) && MovedOnly(after, x, docs[x].parent, last)
    ensures SamePlaces(docs, last)
  {
  }

  /** When one group alone may differ, the forests agree exactly if it does not. */
  lemma OneGroupDiffers(docs: Documents, last: Documents, group: Option<string>, order: seq<string>)
    requires SamePlaces(docs, last)
    requires forall q :: Siblings(last, q) == if q == group then order else Siblings(docs, q)
    ensures SameForest(docs, last) <==> order == Siblings(docs, group)
  {
  }

  lemma SameForestExactly(docs: Documents, x: string, p: string, after: Documents, token: string)
    requires WellFormed(docs) && IsChild(docs, Some(p), x) && Unused(after, token)
    requires p in docs && p in Siblings(docs, docs[p].parent) && Outdented(docs, x, p, after) && x in after && after[x].active
    requires |Changed(after, Placed(after, x, Some(p), IndentOrder(after, x, p), token))| <= MAX_BATCH
    ensures SameForest(docs, Bumped(after, Placed(after, x, Some(p), IndentOrder(after, x, p), token)))
      <==> EndsWithChild(docs, Some(p), x)
  {
    var last, ids := Bumped(after, Placed(after, x, Some(p), IndentOrder(after, x, p), token)), Siblings(docs, Some(p));
    SiblingsAre(docs, Some(p));
    LastReturns(ids, x);
    PlacedMoves(after, x, Some(p), IndentOrder(after, x, p), token);
    MovedBack(docs, x, docs[p].parent, after, last);
    forall q
      ensures Siblings(last, q) == if q == Some(p) then Without(ids, x) + [x] else Siblings(docs, q)
    {
      IndentReturns(docs, x, p, after, token, q);
    }
    OneGroupDiffers(docs, last, Some(p), Without(ids, x) + [x]);
  }

  // ----- Both commands

  lemma DepthLeaves(docs: Documents, x: string, revision: int, indent: bool, token: string)
    requires DepthOutcome(docs, x, revision, indent, token).Success?
    ensures x in docs && docs[x].active && DepthChange(docs, x, indent, token).Success?
    ensures var next := DepthChange(docs, x, indent, token).value;
            |Changed(docs, next)| <= MAX_BATCH && DepthOutcome(docs, x, revision, indent, token).value == Bumped(docs, next)
  {
    BatchOutcome(docs, DepthEdit(docs, x, revision, indent, token));
    DepthEditIs(docs, x, revision, indent, token);
  }

  /** What a successful outdent leaves, in terms of the parent. */
  lemma OutdentLeaves(docs: Documents, x: string, revision: int, token: string) returns (p: string)
    requires WellFormed(docs) && Unused(docs, token) && DepthOutcome(docs, x, revision, false, token).Success?
    ensures IsChild(docs, Some(p), x) && p in docs && p in Siblings(docs, docs[p].parent)
    ensures Outdented(docs, x, p, DepthOutcome(docs, x, revision, false, token).value)
  {
    DepthLeaves(docs, x, revision, false, token);
    p := docs[x].parent.value;
    OutdentPlaces(docs, x, p, token);
    OutdentOutdents(docs, x, p, token);
  }

  lemma IndentBack(docs: Documents, x: string, p: string, after: Documents, last: Documents, revision: int, token: string)
    requires WellFormed(docs) && IsChild(docs, Some(p), x) && Unused(after, token)
    requires p in docs && p in Siblings(docs, docs[p].parent) && Outdented(docs, x, p, after)
    requires DepthOutcome(after, x, revision, true, token) == Success(last)
    ensures EndsWithChild(docs, Some(p), x) <==> SameForest(docs, last)
  {
    DepthLeaves(after, x, revision, true, token);
    IndentsUnderParent(docs, x, p, after, token);
    SameForestExactly(docs, x, p, after, token);
  }

  /** `x` is the last child of `parent`. */
  ghost predicate EndsWithChild(docs: Documents, parent: Option<string>, x: string) {
    var ids := Siblings(docs, parent);
    ids != [] && ids[|ids| - 1] == x
  }

  /**
   Outdent, then indent: parent links and sibling sequences are back if and only if the document was the
   last child of its parent.
   */
  lemma OutdentIndent(
    docs: Documents, after: Documents, last: Documents, x: string, first: int, second: int, token: string, other: string)
    requires WellFormed(docs) && Unused(docs, token) && Unused(after, other)
    requires DepthOutcome(docs, x, first, false, token) == Success(after)
    requires DepthOutcome(after, x, second, true, other) == Success(last)
    ensures x in docs && (SameForest(docs, last) <==> EndsWithChild(docs, docs[x].parent, x))
  {
    var p := OutdentLeaves(docs, x, first, token);
    IndentBack(docs, x, p, after, last, second, other);
  }

  lemma IndentCount(docs: Documents, x: string, p: string, after: Documents, token: string)
    requires WellFormed(docs) && IsChild(docs, Some(p), x) && Unused(after, token)
    requires p in docs && p in Siblings(docs, docs[p].parent) && Outdented(docs, x, p, after)
    ensures x in after && after[x].active && IndentEdit(after, x, token).Success?
    ensures |Changed(after, IndentEdit(after, x, token).value)| == |Siblings(docs, Some(p))| > 0
  {
    var ids := Siblings(docs, Some(p));
    IndentsUnderParent(docs, x, p, after, token);
    IndentedLists(after, x, p);
    SiblingsAre(docs, Some(p));
    LastReturns(ids, x);
    forall id | id in IndentOrder(after, x, p)
      ensures id in after
    {
      assert IsChild(Reparented(after, x, Some(p)), Some(p), id);
    }
    GroupIsChanged(after, x, Some(p), IndentOrder(after, x, p), token);
  }

  /** An indent right after an outdent is refused exactly when the children are too many for one batch. */
  lemma IndentAccepted(docs: Documents, x: string, first: int, token: string, other: string)
    requires WellFormed(docs) && Unused(docs, token) && DepthOutcome(docs, x, first, false, token).Success?
    requires Unused(DepthOutcome(docs, x, first, false, token).value, other)
    ensures var after := DepthOutcome(docs, x, first, false, token).value;
            && x in docs && x in after
            && (DepthOutcome(after, x, after[x].revision, true, other).Success? <==> |Siblings(docs, docs[x].parent)| <= MAX_BATCH)
  {
    var after := DepthOutcome(docs, x, first, false, token).value;
    var p := OutdentLeaves(docs, x, first, token);
    IndentCount(docs, x, p, after, other);
    ExecuteWellFormed(docs, ChangeDepth(x, first, false, token));
    DepthOnlySize(after, x, true, other);
  }

  // ----- A middle child

  /** `d` is the second of three children, and the project fits one batch. */
  ghost predicate MiddleChild(docs: Documents, p: string, x: string, d: string, y: string) {
    WellFormed(docs) && Siblings(docs, Some(p)) == [x, d, y] && Trim(d) != "" && |docs| <= MAX_BATCH
  }

  lemma MiddleFacts(docs: Documents, p: string, x: string, d: string, y: string)
    requires MiddleChild(docs, p, x, d, y)
    ensures IsChild(docs, Some(p), d) && d != y && Without([x, d, y], d) + [d] == [x, y, d]
  {
    InSiblings(docs, Some(p), d);
    assert NoRepeats([x, d, y]) by { SiblingsAre(docs, Some(p)); }
    MiddleOut(x, d, y);
  }

  lemma MiddleOut(x: string, d: string, y: string)
    requires NoRepeats([x, d, y])
    ensures d != y && Without([x, d, y], d) + [d] == [x, y, d]
  {
    var ids := [x, d, y];
    assert ids[1] != ids[2];
    WithoutAt(ids, 1);
    assert ids[..1] + ids[2..] == [x, y];
  }

  lemma ChangedFits(docs: Documents, next: Documents)
    requires |docs| <= MAX_BATCH
    ensures |Changed(docs, next)| <= MAX_BATCH
  {
    SubsetSize(Changed(docs, next), docs.Keys);
  }

  lemma OutdentChanges(docs: Documents, x: string, p: string, token: string)
    requires WellFormed(docs) && IsChild(docs, Some(p), x)
    ensures OutdentEdit(docs, x, token).Success? && x in Changed(docs, OutdentEdit(docs, x, token).value)
  {
    ParentFacts(docs, x, p);
    OutdentPlaces(docs, x, p, token);
    var next := Placed(docs, x, docs[p].parent, OutdentOrder(docs, x, p), token);
    assert next[x].parent == docs[p].parent;
  }

  lemma MiddleOutdents(docs: Documents, p: string, x: string, d: string, y: string, token: string)
    requires MiddleChild(docs, p, x, d, y) && Unused(docs, token)
    ensures d in docs && DepthOutcome(docs, d, docs[d].revision, false, token).Success?
  {
    MiddleFacts(docs, p, x, d, y);
    OutdentChanges(docs, d, p, token);
    ChangedFits(docs, OutdentEdit(docs, d, token).value);
    DepthOnlySize(docs, d, false, token);
  }

  lemma MiddleReturns(docs: Documents, p: string, d: string, revision: int, after: Documents, last: Documents, second: int, token: string, other: string)
    requires WellFormed(docs) && IsChild(docs, Some(p), d) && Unused(docs, token) && Unused(after, other)
    requires DepthOutcome(docs, d, revision, false, token) == Success(after)
    requires DepthOutcome(after, d, second, true, other) == Success(last)
    ensures Siblings(last, Some(p)) == Without(Siblings(docs, Some(p)), d) + [d]
  {
    var q := OutdentLeaves(docs, d, revision, token);
    DepthLeaves(after, d, second, true, other);
    IndentsUnderParent(docs, d, q, after, other);
    IndentReturns(docs, d, q, after, other, Some(p));
  }

  /** Both commands on the middle child are accepted, and it ends up last. */
  lemma MiddleChildMoves(docs: Documents, p: string, x: string, d: string, y: string, token: string, other: string)
    requires MiddleChild(docs, p, x, d, y) && Unused(docs, token)
    requires d in docs && DepthOutcome(docs, d, docs[d].revision, false, token).Success? ==>
               Unused(DepthOutcome(docs, d, docs[d].revision, false, token).value, other)
    ensures d in docs && DepthOutcome(docs, d, docs[d].revision, false, token).Success?
    ensures var after := DepthOutcome(docs, d, docs[d].revision, false, token).value;
            && d in after && DepthOutcome(after, d, after[d].revision, true, other).Success?
            && var last := DepthOutcome(after, d, after[d].revision, true, other).value;
               Siblings(last, Some(p)) == [x, y, d] != Siblings(docs, Some(p))
  {
    MiddleFacts(docs, p, x, d, y);
    MiddleOutdents(docs, p, x, d, y, token);
    IndentAccepted(docs, d, docs[d].revision, token, other);
    var after := DepthOutcome(docs, d, docs[d].revision, false, token).value;
    var last := DepthOutcome(after, d, after[d].revision, true, other).value;
    MiddleReturns(docs, p, d, docs[d].revision, after, last, after[d].revision, token, other);
    assert [x, y, d][2] != [x, d, y][2];
  }

  /** One root with three children. */
  function Family(): Documents {
    map["p" := Document(None, "", "a", 0, true), "x" := Document(Some("p"), "", "a", 0, true),
        "d" := Document(Some("p"), "", "b", 0, true), "y" := Document(Some("p"), "", "c", 0, true)]
  }

  ghost predicate IsFamily(docs: Documents) {
    && docs.Keys == {"p", "x", "d", "y"}
    && (forall id | id in docs :: docs[id].active && docs[id].parent == if id == "p" then None else Some("p"))
    && docs["x"].orderKey == "a" && docs["d"].orderKey == "b" && docs["y"].orderKey == "c"
  }

  lemma FamilyIs()
    ensures IsFamily(Family())
  {
    assert Family().Keys == {"p", "x", "d", "y"};
  }

  lemma FamilyAcyclic(docs: Documents)
    requires IsFamily(docs)
    ensures Acyclic(docs)
  {
    var rank: map<string, nat> := map id | id in docs :: if id == "p" then 0 else 1;
    assert Ranked(docs, rank);
  }

  lemma FamilyWellFormed(docs: Documents)
    requires IsFamily(docs)
    ensures WellFormed(docs)
  {
    FamilyAcyclic(docs);
    assert "p" in docs && docs["p"].active;
  }

  lemma FourAtMost(a: string, b: string, c: string, d: string)
    ensures |{a, b, c, d}| <= 4
  {
    assert |{a, b, c}| <= 3;
    assert {a, b, c, d} == {a, b, c} + {d};
  }

  lemma FamilySiblings(docs: Documents)
    requires IsFamily(docs)
    ensures Siblings(docs, Some("p")) == ["x", "d", "y"]
  {
    var ids := ["x", "d", "y"];
    assert Before(docs, "x", "d") && Before(docs, "d", "y") && Before(docs, "x", "y") by {
      assert "a"[0] < "b"[0] < "c"[0];
    }
    forall id ensures id in ids <==> IsChild(docs, Some("p"), id) { }
    TheSiblings(docs, Some("p"), ids);
  }

  lemma FamilyHasMiddle(docs: Documents)
    requires IsFamily(docs)
    ensures MiddleChild(docs, "p", "x", "d", "y")
  {
    FamilyWellFormed(docs);
    FamilySiblings(docs);
    FourAtMost("p", "x", "d", "y");
    assert |docs| == |docs.Keys|;
    assert Trim("d") == "d";
  }

  /** So outdent, then indent, does not always restore the forest: here both commands on `d` move it. */
  lemma FamilyHasMiddleChild()
    ensures MiddleChild(Family(), "p", "x", "d", "y")
  {
    FamilyIs();
    FamilyHasMiddle(Family());
  }
}
