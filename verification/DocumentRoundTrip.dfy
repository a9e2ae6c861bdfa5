/**
 Where documents end up: an outdent undoes an indent, a reorder undoes the opposite one, an archive
 takes a subtree, a create appends. `DocumentOutdent` has the other order of indent and outdent.
 */
module DocumentRoundTrip {
  import opened Common
  import opened Sorting
  import opened Text
  import opened DocumentForest
  import opened DocumentOrder
  import opened DocumentTree
  import opened DocumentCommands
  import opened DocumentSafety

  lemma ShapeSiblings(a: Documents, b: Documents, parent: Option<string>)
    requires SameShape(a, b)
    ensures Siblings(a, parent) == Siblings(b, parent)
  {
    var ids := Siblings(a, parent);
    SiblingsAre(a, parent);
    forall id
      ensures IsChild(a, parent, id) <==> IsChild(b, parent, id)
      ensures KeyOf(a, id) == KeyOf(b, id)
    {
    }
    assert forall x, y :: Before(a, x, y) == Before(b, x, y);
    TheSiblings(b, parent, ids);
  }

  // ----- Removing one id from a sequence

  lemma {:induction false} WithoutAbsent(ids: seq<string>, id: string)
    requires id !in ids
    ensures Without(ids, id) == ids
  {
    if ids != [] { WithoutAbsent(ids[1..], id); }
  }

  lemma {:induction false} WithoutAt(ids: seq<string>, i: nat)
    requires NoRepeats(ids) && i < |ids|
    ensures Without(ids, ids[i]) == ids[..i] + ids[i + 1..]
  {
    if i == 0 {
      WithoutAbsent(ids[1..], ids[0]);
    } else {
      var rest := ids[1..];
      WithoutAt(rest, i - 1);
      assert ids[0] != ids[i];
      assert [ids[0]] + rest[..i - 1] == ids[..i] && rest[i..] == ids[i + 1..];
    }
  }

  lemma InOrderWithout(docs: Documents, ids: seq<string>, i: nat)
    requires InOrder(docs, ids) && NoRepeats(ids) && i < |ids|
    ensures InOrder(docs, ids[..i] + ids[i + 1..]) && NoRepeats(ids[..i] + ids[i + 1..])
  {
    var rest := ids[..i] + ids[i + 1..];
    forall j | 0 <= j < |rest|
      ensures rest[j] == ids[if j < i then j else j + 1]
    {
    }
  }

  // ----- Moving one document

  lemma MovedChildren(docs: Documents, x: string, to: Option<string>, parent: Option<string>, id: string)
    requires x in docs && docs[x].active
    ensures IsChild(Reparented(docs, x, to), parent, id) <==> if id == x then parent == to else IsChild(docs, parent, id)
    ensures KeyOf(Reparented(docs, x, to), id) == KeyOf(docs, id)
  {
  }

  lemma MovedBefore(docs: Documents, x: string, to: Option<string>, ids: seq<string>)
    requires x in docs && InOrder(docs, ids)
    ensures InOrder(Reparented(docs, x, to), ids)
  {
    forall i, j | 0 <= i < j < |ids|
      ensures Before(Reparented(docs, x, to), ids[i], ids[j])
    {
      assert Before(docs, ids[i], ids[j]);
    }
  }

  /** Groups the document neither leaves nor joins do not change. */
  lemma MovedElsewhere(docs: Documents, x: string, to: Option<string>, parent: Option<string>)
    requires x in docs && docs[x].active && parent != to && parent != docs[x].parent
    ensures Siblings(Reparented(docs, x, to), parent) == Siblings(docs, parent)
  {
    var after, ids := Reparented(docs, x, to), Siblings(docs, parent);
    SiblingsAre(docs, parent);
    forall id
      ensures id in ids <==> IsChild(after, parent, id)
    {
      MovedChildren(docs, x, to, parent, id);
    }
    MovedBefore(docs, x, to, ids);
    TheSiblings(after, parent, ids);
  }

  /** The group it leaves loses it and keeps its order. */
  lemma MovedFrom(docs: Documents, x: string, to: Option<string>)
    requires x in docs && docs[x].active && to != docs[x].parent
    ensures x in Siblings(docs, docs[x].parent)
    ensures Siblings(Reparented(docs, x, to), docs[x].parent) == Without(Siblings(docs, docs[x].parent), x)
  {
    var parent := docs[x].parent;
    var after, ids := Reparented(docs, x, to), Siblings(docs, parent);
    SiblingsAre(docs, parent);
    assert IsChild(docs, parent, x) && x in ids;
    var i := IndexOf(ids, x);
    var rest := ids[..i] + ids[i + 1..];
    WithoutAt(ids, i);
    InOrderWithout(docs, ids, i);
    MovedBefore(docs, x, to, rest);
    forall id
      ensures id in rest <==> IsChild(after, parent, id)
    {
      WithoutIn(ids, x, id);
      MovedChildren(docs, x, to, parent, id);
    }
    TheSiblings(after, parent, rest);
  }

  /** The group it joins is the old one once the newcomer is taken out. */
  lemma MovedTo(docs: Documents, x: string, to: Option<string>)
    requires x in docs && docs[x].active && to != docs[x].parent
    ensures Without(Siblings(Reparented(docs, x, to), to), x) == Siblings(docs, to)
  {
    var after := Reparented(docs, x, to);
    assert Reparented(after, x, docs[x].parent) == docs;
    MovedFrom(after, x, docs[x].parent);
  }

  // ----- Renumbering one group

  lemma RekeyedElsewhere(docs: Documents, parent: Option<string>, ids: seq<string>, token: string, other: Option<string>)
    requires Lists(docs, parent, ids) && other != parent
    ensures Siblings(Rekeyed(docs, ids, token), other) == Siblings(docs, other)
  {
    var after, group := Rekeyed(docs, ids, token), Siblings(docs, other);
    SiblingsAre(docs, other);
    forall id
      ensures id in group <==> IsChild(after, other, id)
      ensures id in group ==> KeyOf(after, id) == KeyOf(docs, id)
    {
      assert IsChild(after, other, id) <==> IsChild(docs, other, id);
      assert IsChild(docs, other, id) ==> !IsChild(docs, parent, id) && id !in ids;
    }
    forall i, j | 0 <= i < j < |group|
      ensures Before(after, group[i], group[j])
    {
      assert group[i] in group && group[j] in group;
      assert Before(docs, group[i], group[j]);
    }
    TheSiblings(after, other, group);
  }

  /** With an unused token every renumbered document changes. */
  lemma GroupChanged(docs: Documents, moved: Documents, ids: seq<string>, token: string)
    requires NoRepeats(ids) && Unused(docs, token) && moved.Keys == docs.Keys && forall id | id in ids :: id in docs
    ensures |ids| <= |Changed(docs, Rekeyed(moved, ids, token))|
  {
    var changed := Changed(docs, Rekeyed(moved, ids, token));
    forall id | id in ids
      ensures id in changed
    {
      NumberedKeyEnds(IndexOf(ids, id), token);
    }
    DistinctCount(ids, changed);
  }

  lemma {:induction false} DistinctCount(ids: seq<string>, among: set<string>)
    requires NoRepeats(ids) && forall id | id in ids :: id in among
    ensures |ids| <= |among|
  {
    if ids != [] {
      var last := ids[|ids| - 1];
      assert last in ids;
      DistinctCount(ids[..|ids| - 1], among - {last});
    }
  }

  /** What a depth change leaves: the group it renumbered in the order asked for, the others as moved. */
  lemma Settled(docs: Documents, moved: Documents, parent: Option<string>, ids: seq<string>, token: string, other: Option<string>)
    requires moved.Keys == docs.Keys && Lists(moved, parent, ids) && Unused(docs, token)
    requires |Changed(docs, Rekeyed(moved, ids, token))| <= MAX_BATCH
    ensures var after := Bumped(docs, Rekeyed(moved, ids, token));
            Siblings(after, other) == if other == parent then ids else Siblings(moved, other)
  {
    var next := Rekeyed(moved, ids, token);
    forall id | id in ids ensures id in docs { assert IsChild(moved, parent, id); }
    GroupChanged(docs, moved, ids, token);
    BumpedShape(docs, next);
    ShapeSiblings(next, Bumped(docs, next), other);
    if other == parent {
      RekeyReadsBack(moved, parent, ids, token);
    } else {
      RekeyedElsewhere(moved, parent, ids, token, other);
    }
  }

  // ----- Indent, then outdent

  lemma IndentedLists(docs: Documents, x: string, s: string)
    requires x in docs && docs[x].active && Some(s) != docs[x].parent
    ensures IndentOrder(docs, x, s) == Siblings(docs, Some(s)) + [x]
    ensures Lists(Reparented(docs, x, Some(s)), Some(s), IndentOrder(docs, x, s))
  {
    MovedTo(docs, x, Some(s));
    var ids := Siblings(docs, Some(s));
    SiblingsAre(docs, Some(s));
    assert !IsChild(docs, Some(s), x) && x !in ids;
    assert NoRepeats(ids + [x]);
    forall id
      ensures id in ids + [x] <==> IsChild(Reparented(docs, x, Some(s)), Some(s), id)
    {
      MovedChildren(docs, x, Some(s), Some(s), id);
    }
  }

  /** `s` comes right before `x` among its siblings, at place `i - 1`. */
  ghost predicate FollowsAt(docs: Documents, x: string, s: string, i: nat) {
    && x in docs && docs[x].active
    && var ids := Siblings(docs, docs[x].parent); 0 < i < |ids| && ids[i] == x && ids[i - 1] == s
  }

  /** After an indent: `x` is the last child of `s`, everything else is as it was. */
  ghost predicate Indented(docs: Documents, x: string, s: string, after: Documents)
    requires x in docs
  {
    && after.Keys == docs.Keys
    && (forall id | id in docs :: after[id].active == docs[id].active && after[id].parent == if id == x then Some(s) else docs[id].parent)
    && Siblings(after, docs[x].parent) == Without(Siblings(docs, docs[x].parent), x)
    && Siblings(after, Some(s)) == Siblings(docs, Some(s)) + [x]
    && forall p | p != docs[x].parent && p != Some(s) :: Siblings(after, p) == Siblings(docs, p)
  }

  lemma SiblingFacts(docs: Documents, x: string, s: string, i: nat)
    requires WellFormed(docs) && FollowsAt(docs, x, s, i)
    ensures s in docs && s != x && docs[s].active && docs[s].parent == docs[x].parent && Some(s) != docs[x].parent
  {
    var ids := Siblings(docs, docs[x].parent);
    SiblingsAre(docs, docs[x].parent);
    assert IsChild(docs, docs[x].parent, ids[i - 1]) && ids[i - 1] != ids[i];
    var rank :| Ranked(docs, rank);
  }

  lemma SettledLinks(docs: Documents, moved: Documents, ids: seq<string>, token: string)
    requires moved.Keys == docs.Keys
    ensures var after := Bumped(docs, Rekeyed(moved, ids, token));
            && after.Keys == docs.Keys
            && forall id | id in docs :: after[id].parent == moved[id].parent && after[id].active == moved[id].active
  {
    BumpedShape(docs, Rekeyed(moved, ids, token));
  }

  lemma IndentSettles(docs: Documents, x: string, s: string, token: string, p: Option<string>)
    requires x in docs && docs[x].active && Some(s) != docs[x].parent && Unused(docs, token)
    requires |Changed(docs, Placed(docs, x, Some(s), IndentOrder(docs, x, s), token))| <= MAX_BATCH
    ensures Siblings(Bumped(docs, Placed(docs, x, Some(s), IndentOrder(docs, x, s), token)), p) ==
            if p == Some(s) then Siblings(docs, Some(s)) + [x]
            else if p == docs[x].parent then Without(Siblings(docs, p), x)
            else Siblings(docs, p)
  {
    IndentedLists(docs, x, s);
    Settled(docs, Reparented(docs, x, Some(s)), Some(s), IndentOrder(docs, x, s), token, p);
    if p == docs[x].parent {
      MovedFrom(docs, x, Some(s));
    } else if p != Some(s) {
      MovedElsewhere(docs, x, Some(s), p);
    }
  }

  lemma IndentIndents(docs: Documents, x: string, s: string, token: string)
    requires x in docs && docs[x].active && Some(s) != docs[x].parent && Unused(docs, token)
    requires |Changed(docs, Placed(docs, x, Some(s), IndentOrder(docs, x, s), token))| <= MAX_BATCH
    ensures Indented(docs, x, s, Bumped(docs, Placed(docs, x, Some(s), IndentOrder(docs, x, s), token)))
  {
    var after := Bumped(docs, Placed(docs, x, Some(s), IndentOrder(docs, x, s), token));
    SettledLinks(docs, Reparented(docs, x, Some(s)), IndentOrder(docs, x, s), token);
    forall p
      ensures Siblings(after, p) ==
              if p == Some(s) then Siblings(docs, Some(s)) + [x]
              else if p == docs[x].parent then Without(Siblings(docs, p), x)
              else Siblings(docs, p)
    {
      IndentSettles(docs, x, s, token, p);
    }
  }

  lemma BatchOutcome(docs: Documents, edit: Result<Documents, DocumentError>)
    requires Batch(docs, edit).Success?
    ensures edit.Success? && |Changed(docs, edit.value)| <= MAX_BATCH && Batch(docs, edit).value == Bumped(docs, edit.value)
  {
  }

  lemma DepthEditIs(docs: Documents, x: string, revision: int, indent: bool, token: string)
    requires DepthEdit(docs, x, revision, indent, token).Success?
    ensures x in docs && docs[x].active
    ensures DepthEdit(docs, x, revision, indent, token) == if indent then IndentEdit(docs, x, token) else OutdentEdit(docs, x, token)
  {
  }

  lemma IndentEditIs(docs: Documents, x: string, token: string)
    requires WellFormed(docs) && x in docs && docs[x].active && IndentEdit(docs, x, token).Success?
    ensures PlaceOf(docs, x) > 0 && FollowsAt(docs, x, PreviousOf(docs, x), PlaceOf(docs, x))
    ensures var s := PreviousOf(docs, x);
            IndentEdit(docs, x, token).value == Placed(docs, x, Some(s), IndentOrder(docs, x, s), token)
  {
  }

  lemma StillDistinct(ids: seq<string>, i: nat)
    requires NoRepeats(ids) && i < |ids|
    ensures NoRepeats(ids[..i] + ids[i + 1..])
  {
    var rest := ids[..i] + ids[i + 1..];
    forall j | 0 <= j < |rest|
      ensures rest[j] == ids[if j < i then j else j + 1]
    {
    }
  }

  lemma InsertedNoRepeats(ids: seq<string>, i: nat, id: string)
    requires NoRepeats(ids) && i < |ids| && id !in ids
    ensures NoRepeats(ids[..i + 1] + [id] + ids[i + 1..])
  {
    var more := ids[..i + 1] + [id] + ids[i + 1..];
    forall k | 0 <= k < |more|
      ensures more[k] == if k <= i then ids[k] else if k == i + 1 then id else ids[k - 1]
    {
    }
  }

  lemma InsertedDistinct(ids: seq<string>, anchor: string, id: string)
    requires NoRepeats(ids) && anchor in ids && id !in ids
    ensures NoRepeats(InsertedAfter(ids, anchor, id)) && forall x :: x in InsertedAfter(ids, anchor, id) <==> x in ids || x == id
  {
    var i := IndexOf(ids, anchor);
    InsertedNoRepeats(ids, i, id);
    forall x ensures x in InsertedAfter(ids, anchor, id) <==> x in ids[..i + 1] + ids[i + 1..] || x == id {
      Around(ids[..i + 1], id, ids[i + 1..], x);
    }
    assert ids == ids[..i + 1] + ids[i + 1..];
  }

  lemma Around<T>(front: seq<T>, middle: T, back: seq<T>, x: T)
    ensures x in front + [middle] + back <==> x in front + back || x == middle
  {
  }

  lemma BackInPlace(ids: seq<string>, i: nat)
    requires NoRepeats(ids) && 0 < i < |ids|
    ensures ids[i - 1] in Without(ids, ids[i]) && InsertedAfter(Without(ids, ids[i]), ids[i - 1], ids[i]) == ids
  {
    var rest := ids[..i] + ids[i + 1..];
    WithoutAt(ids, i);
    StillDistinct(ids, i);
    assert rest[i - 1] == ids[i - 1];
    IndexOfAt(rest, i - 1);
    assert rest[..i] == ids[..i] && rest[i..] == ids[i + 1..];
    SplitAt(ids, i);
  }

  lemma LastOut(ids: seq<string>, x: string)
    requires x !in ids
    ensures Without(ids + [x], x) == ids
  {
    if ids == [] {
      assert [] + [x] == [x];
    } else {
      assert (ids + [x])[1..] == ids[1..] + [x];
      LastOut(ids[1..], x);
    }
  }

  /** An outdent right after an indent asks for the order the siblings had. */
  lemma OutdentAsks(docs: Documents, x: string, s: string, i: nat, after: Documents)
    requires WellFormed(docs) && FollowsAt(docs, x, s, i) && Indented(docs, x, s, after)
    ensures x in after && s in after
    ensures var moved, ids := Reparented(after, x, docs[x].parent), Siblings(docs, docs[x].parent);
            && Without(Siblings(moved, docs[x].parent), x) == Without(ids, x)
            && s in Without(ids, x) && InsertedAfter(Without(ids, x), s, x) == ids
            && Lists(moved, docs[x].parent, ids)
  {
    SiblingFacts(docs, x, s, i);
    var q, ids := docs[x].parent, Siblings(docs, docs[x].parent);
    MovedTo(after, x, q);
    SiblingsAre(docs, q);
    BackInPlace(ids, i);
    forall id
      ensures id in ids <==> IsChild(Reparented(after, x, q), q, id)
    {
      MovedChildren(after, x, q, q, id);
      assert id in ids <==> IsChild(docs, q, id);
    }
  }

  /** Taking `x` out again leaves the children of `s` as they were. */
  lemma ChildrenRestored(docs: Documents, x: string, s: string, after: Documents)
    requires x in docs && docs[x].active && Some(s) != docs[x].parent && Indented(docs, x, s, after)
    ensures Siblings(Reparented(after, x, docs[x].parent), Some(s)) == Siblings(docs, Some(s))
  {
    MovedFrom(after, x, docs[x].parent);
    InSiblings(docs, Some(s), x);
    LastOut(Siblings(docs, Some(s)), x);
  }

  /** Groups other than the one the outdent renumbers. */
  lemma OthersRestored(docs: Documents, x: string, s: string, after: Documents, p: Option<string>)
    requires x in docs && docs[x].active && Some(s) != docs[x].parent && Indented(docs, x, s, after) && p != docs[x].parent
    ensures Siblings(Reparented(after, x, docs[x].parent), p) == Siblings(docs, p)
  {
    if p == Some(s) { ChildrenRestored(docs, x, s, after); } else { MovedElsewhere(after, x, docs[x].parent, p); }
  }

  lemma OutdentSettles(docs: Documents, x: string, s: string, after: Documents, token: string, p: Option<string>)
    requires x in docs && docs[x].active && Some(s) != docs[x].parent && Indented(docs, x, s, after) && Unused(after, token)
    requires Lists(Reparented(after, x, docs[x].parent), docs[x].parent, Siblings(docs, docs[x].parent))
    requires |Changed(after, Placed(after, x, docs[x].parent, Siblings(docs, docs[x].parent), token))| <= MAX_BATCH
    ensures Siblings(Bumped(after, Placed(after, x, docs[x].parent, Siblings(docs, docs[x].parent), token)), p) ==
            Siblings(docs, p)
  {
    var q := docs[x].parent;
    Settled(after, Reparented(after, x, q), q, Siblings(docs, q), token, p);
    if p != q { OthersRestored(docs, x, s, after, p); }
  }

  /** Same documents, parent links and activity. */
  predicate SamePlaces(a: Documents, b: Documents) {
    a.Keys == b.Keys && forall id | id in a :: a[id].parent == b[id].parent && a[id].active == b[id].active
  }

  /** Same parent links, activity and sibling sequences. */
  ghost predicate SameForest(a: Documents, b: Documents) {
    SamePlaces(a, b) && forall p :: Siblings(a, p) == Siblings(b, p)
  }

  lemma OutdentEditIs(docs: Documents, x: string, s: string, i: nat, after: Documents, token: string)
    requires WellFormed(docs) && FollowsAt(docs, x, s, i) && Indented(docs, x, s, after)
    ensures x in after && after[x].active && OutdentEdit(after, x, token).Success?
    ensures OutdentEdit(after, x, token).value ==
            Placed(after, x, docs[x].parent, Siblings(docs, docs[x].parent), token)
  {
    SiblingFacts(docs, x, s, i);
    OutdentAsks(docs, x, s, i, after);
  }

  lemma LinksRestored(docs: Documents, x: string, s: string, after: Documents, token: string)
    requires x in docs && Indented(docs, x, s, after)
    ensures var last := Bumped(after, Placed(after, x, docs[x].parent, Siblings(docs, docs[x].parent), token));
            SamePlaces(docs, last)
  {
    SettledLinks(after, Reparented(after, x, docs[x].parent), Siblings(docs, docs[x].parent), token);
  }

  lemma OutdentRestores(docs: Documents, x: string, s: string, i: nat, after: Documents, token: string)
    requires WellFormed(docs) && FollowsAt(docs, x, s, i) && Indented(docs, x, s, after) && Unused(after, token)
    requires |Changed(after, Placed(after, x, docs[x].parent, Siblings(docs, docs[x].parent), token))| <= MAX_BATCH
    ensures SameForest(docs, Bumped(after, Placed(after, x, docs[x].parent, Siblings(docs, docs[x].parent), token)))
  {
    SiblingFacts(docs, x, s, i);
    OutdentAsks(docs, x, s, i, after);
    LinksRestored(docs, x, s, after, token);
    forall p
      ensures Siblings(Bumped(after, Placed(after, x, docs[x].parent, Siblings(docs, docs[x].parent), token)), p) ==
              Siblings(docs, p)
    {
      OutdentSettles(docs, x, s, after, token, p);
    }
  }

  /** Indent, then outdent: every parent link and every sibling sequence is back. */
  lemma IndentOutdent(docs: Documents, x: string, first: int, second: int, token: string, other: string)
    requires WellFormed(docs) && Unused(docs, token)
    requires DepthOutcome(docs, x, first, true, token).Success?
    requires var after := DepthOutcome(docs, x, first, true, token).value;
             Unused(after, other) && DepthOutcome(after, x, second, false, other).Success?
    ensures var after := DepthOutcome(docs, x, first, true, token).value;
            SameForest(docs, DepthOutcome(after, x, second, false, other).value)
  {
    var after := DepthOutcome(docs, x, first, true, token).value;
    BatchOutcome(docs, DepthEdit(docs, x, first, true, token));
    DepthEditIs(docs, x, first, true, token);
    BatchOutcome(after, DepthEdit(after, x, second, false, other));
    DepthEditIs(after, x, second, false, other);
    IndentEditIs(docs, x, token);
    var s, i := PreviousOf(docs, x), PlaceOf(docs, x);
    SiblingFacts(docs, x, s, i);
    IndentIndents(docs, x, s, token);
    OutdentEditIs(docs, x, s, i, after, other);
    OutdentRestores(docs, x, s, i, after, other);
  }

  /** A renumbered group that holds the moved document is all that changes. */
  lemma GroupIsChanged(docs: Documents, x: string, parent: Option<string>, ids: seq<string>, token: string)
    requires x in docs && x in ids && NoRepeats(ids) && Unused(docs, token) && forall id | id in ids :: id in docs
    ensures |Changed(docs, Placed(docs, x, parent, ids, token))| == |ids|
  {
    var changed := Changed(docs, Placed(docs, x, parent, ids, token));
    forall id
      ensures id in changed <==> id in ids
    {
      if id in ids { NumberedKeyEnds(IndexOf(ids, id), token); }
    }
    DistinctCountIs(ids, changed);
  }

  lemma {:induction false} DistinctCountIs(ids: seq<string>, all: set<string>)
    requires NoRepeats(ids) && forall id :: id in all <==> id in ids
    ensures |ids| == |all|
  {
    if ids != [] {
      var last := ids[|ids| - 1];
      assert last in ids && all == (all - {last}) + {last};
      forall id
        ensures id in all - {last} <==> id in ids[..|ids| - 1]
      {
        assert ids == ids[..|ids| - 1] + [last];
      }
      DistinctCountIs(ids[..|ids| - 1], all - {last});
    } else {
      assert all == {};
    }
  }

  lemma OutdentCount(docs: Documents, x: string, s: string, i: nat, after: Documents, token: string)
    requires WellFormed(docs) && FollowsAt(docs, x, s, i) && Indented(docs, x, s, after) && Unused(after, token)
    ensures x in after && after[x].active && OutdentEdit(after, x, token).Success?
    ensures |Changed(after, OutdentEdit(after, x, token).value)| == |Siblings(docs, docs[x].parent)| > 0
  {
    var ids := Siblings(docs, docs[x].parent);
    OutdentEditIs(docs, x, s, i, after, token);
    SiblingsAre(docs, docs[x].parent);
    forall id | id in ids
      ensures id in after
    {
      assert IsChild(docs, docs[x].parent, id);
    }
    GroupIsChanged(after, x, docs[x].parent, ids, token);
  }

  /** An outdent right after an indent is refused exactly when the siblings are too many for one batch. */
  lemma OutdentAccepted(docs: Documents, x: string, first: int, token: string, other: string)
    requires WellFormed(docs) && Unused(docs, token) && DepthOutcome(docs, x, first, true, token).Success?
    requires Unused(DepthOutcome(docs, x, first, true, token).value, other)
    ensures var after := DepthOutcome(docs, x, first, true, token).value;
            && x in docs && x in after
            && (DepthOutcome(after, x, after[x].revision, false, other).Success? <==> |Siblings(docs, docs[x].parent)| <= MAX_BATCH)
  {
    var after := DepthOutcome(docs, x, first, true, token).value;
    BatchOutcome(docs, DepthEdit(docs, x, first, true, token));
    DepthEditIs(docs, x, first, true, token);
    IndentEditIs(docs, x, token);
    var s, i := PreviousOf(docs, x), PlaceOf(docs, x);
    SiblingFacts(docs, x, s, i);
    IndentIndents(docs, x, s, token);
    OutdentCount(docs, x, s, i, after, other);
    ExecuteWellFormed(docs, ChangeDepth(x, first, true, token));
    DepthOnlySize(after, x, false, other);
  }

  /** The edit of a depth change whose reference is right. */
  ghost function DepthChange(docs: Documents, x: string, indent: bool, token: string): Result<Documents, DocumentError>
    requires x in docs && docs[x].active
  {
    if indent then IndentEdit(docs, x, token) else OutdentEdit(docs, x, token)
  }

  lemma DepthEditOf(docs: Documents, x: string, indent: bool, token: string)
    requires Trim(x) != "" && x in docs && docs[x].active
    ensures EditOf(docs, ChangeDepth(x, docs[x].revision, indent, token)) == DepthChange(docs, x, indent, token)
    ensures DepthOutcome(docs, x, docs[x].revision, indent, token) == Batch(docs, DepthChange(docs, x, indent, token))
  {
    assert docs[x].revision >= 0;
  }

  lemma DepthOnlySize(docs: Documents, x: string, indent: bool, token: string)
    requires WellFormed(docs) && Unused(docs, token) && Trim(x) != "" && x in docs && docs[x].active
    requires DepthChange(docs, x, indent, token).Success? && Changed(docs, DepthChange(docs, x, indent, token).value) != {}
    ensures DepthOutcome(docs, x, docs[x].revision, indent, token).Success? <==>
            |Changed(docs, DepthChange(docs, x, indent, token).value)| <= MAX_BATCH
  {
    DepthEditOf(docs, x, indent, token);
    OnlySizeRefused(docs, ChangeDepth(x, docs[x].revision, indent, token));
  }

  // ----- Reorder

  lemma ReorderEditIs(docs: Documents, x: string, revision: int, up: bool, token: string)
    requires ReorderEdit(docs, x, revision, up, token).Success?
    ensures x in docs && docs[x].active
    ensures var ids, i := Siblings(docs, docs[x].parent), PlaceOf(docs, x);
            && Target(i, |ids|, up).Some?
            && ReorderEdit(docs, x, revision, up, token).value == Rekeyed(docs, Swapped(ids, i, Target(i, |ids|, up).value), token)
  {
  }

  lemma SwappedLists(docs: Documents, parent: Option<string>, ids: seq<string>, i: nat, j: nat)
    requires Lists(docs, parent, ids) && i < |ids| && j < |ids|
    ensures Lists(docs, parent, Swapped(ids, i, j))
  {
    var swapped := Swapped(ids, i, j);
    forall id
      ensures id in swapped <==> id in ids
    {
      if id in ids {
        var k :| 0 <= k < |ids| && ids[k] == id;
        assert swapped[if k == i then j else if k == j then i else k] == id;
      }
    }
  }

  /** A reorder swaps the document with its neighbour and leaves every other group alone. */
  lemma ReorderPlaces(docs: Documents, x: string, revision: int, up: bool, token: string, p: Option<string>)
    requires Unused(docs, token) && Batch(docs, ReorderEdit(docs, x, revision, up, token)).Success?
    ensures x in docs && docs[x].active
    ensures var ids, i := Siblings(docs, docs[x].parent), PlaceOf(docs, x);
            && Target(i, |ids|, up).Some?
            && Siblings(Batch(docs, ReorderEdit(docs, x, revision, up, token)).value, p) ==
               if p == docs[x].parent then Swapped(ids, i, Target(i, |ids|, up).value) else Siblings(docs, p)
  {
    BatchOutcome(docs, ReorderEdit(docs, x, revision, up, token));
    ReorderEditIs(docs, x, revision, up, token);
    var ids, i := Siblings(docs, docs[x].parent), PlaceOf(docs, x);
    var order := Swapped(ids, i, Target(i, |ids|, up).value);
    SiblingsAre(docs, docs[x].parent);
    SwappedLists(docs, docs[x].parent, ids, i, Target(i, |ids|, up).value);
    Settled(docs, docs, docs[x].parent, order, token, p);
  }

  lemma SwapBack(ids: seq<string>, i: nat, j: nat)
    requires i < |ids| && j < |ids|
    ensures Swapped(Swapped(ids, i, j), j, i) == ids
  {
  }

  lemma PlaceIs(docs: Documents, x: string, i: nat)
    requires x in docs && docs[x].active && i < |Siblings(docs, docs[x].parent)| && Siblings(docs, docs[x].parent)[i] == x
    ensures PlaceOf(docs, x) == i
  {
    SiblingsAre(docs, docs[x].parent);
  }

  lemma ReorderKeepsLinks(docs: Documents, x: string, revision: int, up: bool, token: string)
    requires Batch(docs, ReorderEdit(docs, x, revision, up, token)).Success?
    ensures var after := Batch(docs, ReorderEdit(docs, x, revision, up, token)).value;
            SamePlaces(docs, after)
  {
    BatchOutcome(docs, ReorderEdit(docs, x, revision, up, token));
    ReorderEditIs(docs, x, revision, up, token);
    var ids, i := Siblings(docs, docs[x].parent), PlaceOf(docs, x);
    SettledLinks(docs, docs, Swapped(ids, i, Target(i, |ids|, up).value), token);
  }

  lemma BackTarget(i: nat, count: nat, up: bool)
    requires i < count && Target(i, count, up).Some?
    ensures Target(i, count, up).value < count && Target(Target(i, count, up).value, count, !up) == Some(i)
  {
  }

  /** After a move to place `j`, the opposite move aims at the place the document came from. */
  lemma MovedThere(after: Documents, x: string, ids: seq<string>, i: nat, up: bool)
    requires x in after && after[x].active && i < |ids| && ids[i] == x && Target(i, |ids|, up).Some?
    requires Siblings(after, after[x].parent) == Swapped(ids, i, Target(i, |ids|, up).value)
    ensures PlaceOf(after, x) == Target(i, |ids|, up).value && Target(PlaceOf(after, x), |ids|, !up) == Some(i)
  {
    BackTarget(i, |ids|, up);
    assert Swapped(ids, i, Target(i, |ids|, up).value)[Target(i, |ids|, up).value] == x;
    PlaceIs(after, x, Target(i, |ids|, up).value);
  }

  lemma BackRestores(docs: Documents, after: Documents, x: string, revision: int, up: bool, token: string, p: Option<string>)
    requires x in docs && docs[x].active && x in after && after[x].active && after[x].parent == docs[x].parent
    requires Unused(after, token) && Target(PlaceOf(docs, x), |Siblings(docs, docs[x].parent)|, up).Some?
    requires var ids, i := Siblings(docs, docs[x].parent), PlaceOf(docs, x);
             Siblings(after, docs[x].parent) == Swapped(ids, i, Target(i, |ids|, up).value)
    requires p != docs[x].parent ==> Siblings(after, p) == Siblings(docs, p)
    requires Batch(after, ReorderEdit(after, x, revision, !up, token)).Success?
    ensures Siblings(Batch(after, ReorderEdit(after, x, revision, !up, token)).value, p) == Siblings(docs, p)
  {
    ReorderPlaces(after, x, revision, !up, token, p);
    if p == docs[x].parent {
      var ids, i := Siblings(docs, p), PlaceOf(docs, x);
      MovedThere(after, x, ids, i, up);
      SwapBack(ids, i, Target(i, |ids|, up).value);
    }
  }

  lemma ReorderBackSiblings(docs: Documents, after: Documents, x: string, first: int, second: int, up: bool, token: string, other: string, p: Option<string>)
    requires Unused(docs, token) && Batch(docs, ReorderEdit(docs, x, first, up, token)) == Success(after)
    requires Unused(after, other) && Batch(after, ReorderEdit(after, x, second, !up, other)).Success?
    ensures Siblings(Batch(after, ReorderEdit(after, x, second, !up, other)).value, p) == Siblings(docs, p)
  {
    ReorderPlaces(docs, x, first, up, token, p);
    ReorderPlaces(docs, x, first, up, token, docs[x].parent);
    ReorderKeepsLinks(docs, x, first, up, token);
    BackRestores(docs, after, x, second, up, other, p);
  }

  lemma SamePlacesTwice(a: Documents, b: Documents, c: Documents)
    requires SamePlaces(a, b) && SamePlaces(b, c)
    ensures SamePlaces(a, c)
  {
  }

  /** Up, then down, or down, then up: every parent link and every sibling sequence is back. */
  lemma ReorderBack(docs: Documents, x: string, first: int, second: int, up: bool, token: string, other: string)
    requires Unused(docs, token) && Batch(docs, ReorderEdit(docs, x, first, up, token)).Success?
    requires var after := Batch(docs, ReorderEdit(docs, x, first, up, token)).value;
             Unused(after, other) && Batch(after, ReorderEdit(after, x, second, !up, other)).Success?
    ensures var after := Batch(docs, ReorderEdit(docs, x, first, up, token)).value;
            SameForest(docs, Batch(after, ReorderEdit(after, x, second, !up, other)).value)
  {
    var after := Batch(docs, ReorderEdit(docs, x, first, up, token)).value;
    var last := Batch(after, ReorderEdit(after, x, second, !up, other)).value;
    ReorderKeepsLinks(docs, x, first, up, token);
    ReorderKeepsLinks(after, x, second, !up, other);
    SamePlacesTwice(docs, after, last);
    forall p ensures Siblings(docs, p) == Siblings(last, p) {
      ReorderBackSiblings(docs, after, x, first, second, up, token, other, p);
    }
  }

  // ----- Archive

  /** An archive makes exactly the document and its active descendants inactive, and changes nothing else. */
  lemma ArchiveExactly(docs: Documents, x: string, revision: int, d: string)
    requires Batch(docs, ArchiveEdit(docs, x, revision, true)).Success? && d in docs
    ensures var after := Batch(docs, ArchiveEdit(docs, x, revision, true)).value;
            && d in after
            && (after[d].active <==> docs[d].active && !InSubtree(Active(docs), d, x))
            && after[d] == if after[d].active == docs[d].active then docs[d] else docs[d].(active := false, revision := docs[d].revision + 1)
  {
    BatchOutcome(docs, ArchiveEdit(docs, x, revision, true));
  }

  // ----- Create

  lemma AppendKeyEnds(docs: Documents, parent: Option<string>, suffix: string)
    ensures EndsWith(AppendKey(docs, parent, suffix), suffix)
  {
  }

  /** With a new suffix a create is refused for its title, its text or its parent only. */
  lemma CreateExactly(docs: Documents, id: string, parent: Option<string>, title: string, text: string, suffix: string)
    requires Fresh(docs, Create(id, parent, title, text, suffix))
    ensures CreateOutcome(docs, id, parent, title, text, suffix).Success? <==>
            ValidTitle(title) && ValidText(text) && (parent.Some? ==> parent.value in docs && docs[parent.value].active)
  {
    AppendKeyEnds(docs, parent, suffix);
  }

  /** A created document is the last of its siblings, and no other group changes. */
  lemma CreateAppends(docs: Documents, id: string, parent: Option<string>, title: string, text: string, suffix: string, p: Option<string>)
    requires CreateOutcome(docs, id, parent, title, text, suffix).Success?
    ensures Siblings(CreateOutcome(docs, id, parent, title, text, suffix).value, p) ==
            if p == parent then Siblings(docs, p) + [id] else Siblings(docs, p)
  {
    var document := Document(parent, Trim(title), AppendKey(docs, parent, suffix), 0, true);
    if p == parent {
      AppendedIsLast(docs, parent, suffix, id, document);
    } else {
      AddedElsewhere(docs, id, document, p);
    }
  }

  lemma AddedElsewhere(docs: Documents, id: string, document: Document, p: Option<string>)
    requires id !in docs && p != document.parent
    ensures Siblings(docs[id := document], p) == Siblings(docs, p)
  {
    var after, ids := docs[id := document], Siblings(docs, p);
    SiblingsAre(docs, p);
    forall x
      ensures x in ids <==> IsChild(after, p, x)
      ensures x in ids ==> KeyOf(after, x) == KeyOf(docs, x)
    {
      assert x in ids <==> IsChild(docs, p, x);
    }
    forall i, j | 0 <= i < j < |ids|
      ensures Before(after, ids[i], ids[j])
    {
      assert Before(docs, ids[i], ids[j]) && ids[i] in ids && ids[j] in ids;
    }
    TheSiblings(after, p, ids);
  }
}
