/**
 What each document command does to the documents and when it is refused, said about titles, places,
 parents and revisions alone.
 */
module DocumentEffects {
  import opened Common
  import opened Sorting
  import opened Text
  import opened Decimal
  import opened DocumentForest
  import opened DocumentOrder
  import opened DocumentTree
  import opened DocumentCommands
  import opened DocumentSafety
  import opened DocumentRoundTrip
  import opened DocumentOutdent

  // ----- References

  /** The reference of a command: a document id that is not blank and a revision that is not negative. */
  ghost predicate BadReference(id: string, revision: int) { Trim(id) == "" || revision < 0 }

  /** Why a command on an active document does not get as far as its edit. */
  ghost predicate NotCurrent(docs: Documents, id: string, revision: int, error: DocumentError) {
    || (error == Invalid && BadReference(id, revision))
    || (error == NotFound && !BadReference(id, revision) && (id !in docs || !docs[id].active))
    || (error == Conflict && !BadReference(id, revision) && id in docs && docs[id].active && docs[id].revision != revision)
  }

  /** The reference is good and the caller has seen the document as it is. */
  ghost predicate Current(docs: Documents, id: string, revision: int) {
    !BadReference(id, revision) && id in docs && docs[id].active && docs[id].revision == revision
  }

  // ----- Reorder

  /** A reorder is refused at the edge it would leave: up at the first place, down at the last. */
  lemma ReorderRefused(docs: Documents, id: string, revision: int, up: bool, token: string, ids: seq<string>, i: nat)
    requires Current(docs, id, revision) && ids == Siblings(docs, docs[id].parent) && i < |ids| && ids[i] == id
    ensures ReorderEdit(docs, id, revision, up, token) == Failure(NoChanges) <==> if up then i == 0 else i == |ids| - 1
    ensures ReorderEdit(docs, id, revision, up, token).Success? <==> if up then i > 0 else i < |ids| - 1
  {
    PlaceIs(docs, id, i);
  }

  lemma ReorderNotCurrent(docs: Documents, id: string, revision: int, up: bool, token: string, error: DocumentError)
    requires error != NoChanges
    ensures ReorderEdit(docs, id, revision, up, token) == Failure(error) <==> NotCurrent(docs, id, revision, error)
  {
  }

  /** The neighbour above or below, and the two exchanged. */
  lemma ExchangedUp(ids: seq<string>, i: nat)
    requires i < |ids|
    ensures Target(i, |ids|, true) == if i > 0 then Some(i - 1) else None
    ensures i > 0 ==> Swapped(ids, i, i - 1) == ids[i - 1 := ids[i]][i := ids[i - 1]]
  {
  }

  lemma ExchangedDown(ids: seq<string>, i: nat)
    requires i < |ids|
    ensures Target(i, |ids|, false) == if i + 1 < |ids| then Some(i + 1) else None
    ensures i + 1 < |ids| ==> Swapped(ids, i, i + 1) == ids[i + 1 := ids[i]][i := ids[i + 1]]
  {
  }

  lemma ReorderIs(docs: Documents, after: Documents, id: string, revision: int, up: bool, token: string)
    requires Outcome(docs, Reorder(id, revision, up, token)) == Success(after)
    ensures Batch(docs, ReorderEdit(docs, id, revision, up, token)) == Success(after)
  {
  }

  /** Moving up takes the document one place up; its neighbour takes the place it had. */
  lemma ReorderMovesUp(docs: Documents, after: Documents, id: string, revision: int, token: string, ids: seq<string>, i: nat)
    requires Unused(docs, token) && Outcome(docs, Reorder(id, revision, true, token)) == Success(after)
    requires id in docs && ids == Siblings(docs, docs[id].parent) && i < |ids| && ids[i] == id
    ensures 0 < i && Siblings(after, docs[id].parent) == ids[i - 1 := id][i := ids[i - 1]]
  {
    ReorderIs(docs, after, id, revision, true, token);
    ReorderPlaces(docs, id, revision, true, token, docs[id].parent);
    PlaceIs(docs, id, i);
    ExchangedUp(ids, i);
  }

  /** Moving down takes it one place down. */
  lemma ReorderMovesDown(docs: Documents, after: Documents, id: string, revision: int, token: string, ids: seq<string>, i: nat)
    requires Unused(docs, token) && Outcome(docs, Reorder(id, revision, false, token)) == Success(after)
    requires id in docs && ids == Siblings(docs, docs[id].parent) && i < |ids| && ids[i] == id
    ensures i + 1 < |ids| && Siblings(after, docs[id].parent) == ids[i + 1 := id][i := ids[i + 1]]
  {
    ReorderIs(docs, after, id, revision, false, token);
    ReorderPlaces(docs, id, revision, false, token, docs[id].parent);
    PlaceIs(docs, id, i);
    ExchangedDown(ids, i);
  }

  /** Every other group, every parent link and every active flag stay. */
  lemma ReorderKeepsOthers(docs: Documents, after: Documents, id: string, revision: int, up: bool, token: string, p: Option<string>)
    requires Unused(docs, token) && Outcome(docs, Reorder(id, revision, up, token)) == Success(after)
    ensures id in docs && SamePlaces(docs, after) && (p != docs[id].parent ==> Siblings(after, p) == Siblings(docs, p))
  {
    ReorderIs(docs, after, id, revision, up, token);
    ReorderPlaces(docs, id, revision, up, token, p);
    ReorderKeepsLinks(docs, id, revision, up, token);
  }

  // ----- Indent and outdent

  /** The first of its siblings cannot be indented, a root cannot be outdented; nothing else stands in the way of the edit. */
  lemma DepthRefused(docs: Documents, id: string, revision: int, indent: bool, token: string, ids: seq<string>, i: nat)
    requires WellFormed(docs) && Current(docs, id, revision)
    requires ids == Siblings(docs, docs[id].parent) && i < |ids| && ids[i] == id
    ensures DepthEdit(docs, id, revision, indent, token) == Failure(NoChanges) <==> if indent then i == 0 else docs[id].parent == None
    ensures DepthEdit(docs, id, revision, indent, token).Success? <==> if indent then i > 0 else docs[id].parent.Some?
  {
    PlaceIs(docs, id, i);
    if docs[id].parent.Some? { OutdentFindsParent(docs, id, token); }
  }

  lemma DepthNotCurrent(docs: Documents, id: string, revision: int, indent: bool, token: string, error: DocumentError)
    requires WellFormed(docs) && error != NoChanges
    ensures DepthEdit(docs, id, revision, indent, token) == Failure(error) <==> NotCurrent(docs, id, revision, error)
  {
    if Current(docs, id, revision) {
      InSiblings(docs, docs[id].parent, id);
      SiblingsAre(docs, docs[id].parent);
      DepthRefused(docs, id, revision, indent, token, Siblings(docs, docs[id].parent), PlaceOf(docs, id));
    }
  }

  lemma DepthIs(docs: Documents, after: Documents, id: string, revision: int, indent: bool, token: string)
    requires Outcome(docs, ChangeDepth(id, revision, indent, token)) == Success(after)
    ensures DepthOutcome(docs, id, revision, indent, token) == Success(after)
  {
  }

  lemma IndentLeaves(docs: Documents, id: string, revision: int, token: string)
    requires WellFormed(docs) && Unused(docs, token) && DepthOutcome(docs, id, revision, true, token).Success?
    ensures id in docs && docs[id].active && PlaceOf(docs, id) > 0
    ensures Some(PreviousOf(docs, id)) != docs[id].parent
    ensures Indented(docs, id, PreviousOf(docs, id), DepthOutcome(docs, id, revision, true, token).value)
  {
    DepthLeaves(docs, id, revision, true, token);
    IndentEditIs(docs, id, token);
    SiblingFacts(docs, id, PreviousOf(docs, id), PlaceOf(docs, id));
    IndentIndents(docs, id, PreviousOf(docs, id), token);
  }

  lemma WithoutPlace(docs: Documents, parent: Option<string>, i: nat)
    requires i < |Siblings(docs, parent)|
    ensures var ids := Siblings(docs, parent); Without(ids, ids[i]) == ids[..i] + ids[i + 1..]
  {
    SiblingsAre(docs, parent);
    WithoutAt(Siblings(docs, parent), i);
  }

  /** An indent hangs the document behind the children of the sibling before it, and keeps all other groups. */
  lemma IndentMoves(docs: Documents, after: Documents, id: string, revision: int, token: string, ids: seq<string>, i: nat)
    requires WellFormed(docs) && Unused(docs, token) && Outcome(docs, ChangeDepth(id, revision, true, token)) == Success(after)
    requires id in docs && ids == Siblings(docs, docs[id].parent) && i < |ids| && ids[i] == id
    ensures i > 0 && id in after && after[id].parent == Some(ids[i - 1])
    ensures Siblings(after, Some(ids[i - 1])) == Siblings(docs, Some(ids[i - 1])) + [id]
    ensures Siblings(after, docs[id].parent) == ids[..i] + ids[i + 1..]
    ensures forall q | q != docs[id].parent && q != Some(ids[i - 1]) :: Siblings(after, q) == Siblings(docs, q)
  {
    DepthIs(docs, after, id, revision, true, token);
    IndentLeaves(docs, id, revision, token);
    PlaceIs(docs, id, i);
    WithoutPlace(docs, docs[id].parent, i);
  }

  lemma InsertedAt(docs: Documents, parent: Option<string>, i: nat, id: string)
    requires i < |Siblings(docs, parent)|
    ensures var ids := Siblings(docs, parent); InsertedAfter(ids, ids[i], id) == ids[..i + 1] + [id] + ids[i + 1..]
  {
    SiblingsAre(docs, parent);
    IndexOfAt(Siblings(docs, parent), i);
  }

  lemma OutdentLeavesAt(docs: Documents, id: string, revision: int, token: string, p: string)
    requires WellFormed(docs) && Unused(docs, token) && DepthOutcome(docs, id, revision, false, token).Success?
    requires id in docs && docs[id].parent == Some(p) && p in docs
    ensures p in Siblings(docs, docs[p].parent) && Outdented(docs, id, p, DepthOutcome(docs, id, revision, false, token).value)
  {
    var q := OutdentLeaves(docs, id, revision, token);
  }

  /** An outdent puts the document right behind its parent, and keeps all other groups. */
  lemma OutdentMoves(docs: Documents, after: Documents, id: string, revision: int, token: string, p: string, ids: seq<string>, i: nat)
    requires WellFormed(docs) && Unused(docs, token) && Outcome(docs, ChangeDepth(id, revision, false, token)) == Success(after)
    requires id in docs && docs[id].parent == Some(p) && p in docs
    requires ids == Siblings(docs, docs[p].parent) && i < |ids| && ids[i] == p
    ensures id in after && after[id].parent == docs[p].parent
    ensures Siblings(after, docs[p].parent) == ids[..i + 1] + [id] + ids[i + 1..]
    ensures forall q | q != docs[p].parent && q != Some(p) :: Siblings(after, q) == Siblings(docs, q)
  {
    DepthIs(docs, after, id, revision, false, token);
    OutdentLeavesAt(docs, id, revision, token, p);
    InsertedAt(docs, docs[p].parent, i, id);
  }

  // ----- Rename

  /** When a rename is made: the trimmed title has 1 to 200 characters and is another one. */
  lemma RenameExactly(docs: Documents, id: string, revision: int, title: string)
    ensures RenameEdit(docs, id, revision, title).Success? <==>
      Current(docs, id, revision) && 1 <= |Trim(title)| <= 200 && Trim(title) != docs[id].title
    ensures RenameEdit(docs, id, revision, title) == Failure(NoChanges) <==>
      Current(docs, id, revision) && 1 <= |Trim(title)| <= 200 && Trim(title) == docs[id].title
    ensures RenameEdit(docs, id, revision, title) == Failure(NotFound) <==>
      !BadReference(id, revision) && 1 <= |Trim(title)| <= 200 && id !in docs
    ensures RenameEdit(docs, id, revision, title) == Failure(Conflict) <==>
      !BadReference(id, revision) && 1 <= |Trim(title)| <= 200 && id in docs && docs[id].revision != revision
  {
  }

  /** A batch that changes one document leaves it one revision on and the others alone. */
  lemma BumpedOne(docs: Documents, id: string, next: Document)
    requires id in docs && next != docs[id]
    ensures Bumped(docs, docs[id := next]) == docs[id := next.(revision := docs[id].revision + 1)]
  {
    assert Changed(docs, docs[id := next]) == {id};
  }

  /** A rename stores the trimmed title, one revision on, and changes nothing else. */
  lemma RenameStores(docs: Documents, after: Documents, id: string, revision: int, title: string)
    requires Outcome(docs, Rename(id, revision, title)) == Success(after)
    ensures id in docs && after == docs[id := docs[id].(title := Trim(title), revision := docs[id].revision + 1)]
  {
    BatchOutcome(docs, RenameEdit(docs, id, revision, title));
    BumpedOne(docs, id, docs[id].(title := Trim(title)));
  }

  // ----- Create

  /** A created document is active at revision 0 with the trimmed title, under the parent asked for; no other changes. */
  lemma CreateStores(docs: Documents, after: Documents, id: string, parent: Option<string>, title: string, text: string, suffix: string)
    requires Outcome(docs, Create(id, parent, title, text, suffix)) == Success(after)
    ensures id !in docs && id in after && after == docs[id := after[id]]
    ensures after[id].parent == parent && after[id].title == Trim(title) && after[id].revision == 0 && after[id].active
    ensures parent.Some? ==> parent.value in docs && docs[parent.value].active
    ensures 1 <= |Trim(title)| <= 200 && Utf8Length(text) <= 2097152
  {
  }

  /** When a create is made. */
  lemma CreateSucceedsExactly(docs: Documents, id: string, parent: Option<string>, title: string, text: string, suffix: string)
    requires id !in docs && Unused(docs, suffix)
    ensures Outcome(docs, Create(id, parent, title, text, suffix)).Success? <==>
      && 1 <= |Trim(title)| <= 200 && Utf8Length(text) <= 2097152
      && (parent.Some? ==> parent.value in docs && docs[parent.value].active)
  {
    CreateExactly(docs, id, parent, title, text, suffix);
  }

  /** A create with a new id is only ever refused as invalid. */
  lemma CreateRefusal(docs: Documents, id: string, parent: Option<string>, title: string, text: string, suffix: string)
    requires id !in docs && Outcome(docs, Create(id, parent, title, text, suffix)).Failure?
    ensures Outcome(docs, Create(id, parent, title, text, suffix)) == Failure(Invalid)
  {
  }

  /** What the batch answers to an edit: nothing to do, refused as a whole, or every changed document one revision on. */
  lemma BatchAnswers(docs: Documents, next: Documents)
    requires next.Keys == docs.Keys
    ensures Batch(docs, Success(next)) == Failure(NoChanges) <==> next == docs
    ensures Batch(docs, Success(next)) == Failure(Invalid) <==> next != docs && !BatchOk(docs, next)
    ensures Batch(docs, Success(next)).Success? ==> Batch(docs, Success(next)).value.Keys == docs.Keys
    ensures Batch(docs, Success(next)).Success? ==> forall d | d in docs ::
      Batch(docs, Success(next)).value[d] == if next[d] == docs[d] then docs[d] else next[d].(revision := docs[d].revision + 1)
  {
    if Changed(docs, next) == {} {
      forall d | d in docs ensures next[d] == docs[d] { assert d !in Changed(docs, next); }
    } else {
      var d :| d in Changed(docs, next);
    }
  }

  // ----- Archive and restore

  lemma ArchiveRefused(docs: Documents, id: string, revision: int, archived: bool)
    ensures ArchiveEdit(docs, id, revision, archived) == Failure(NotFound) <==> !BadReference(id, revision) && id !in docs
    ensures ArchiveEdit(docs, id, revision, archived) == Failure(Conflict) <==>
      !BadReference(id, revision) && id in docs && docs[id].revision != revision
    ensures ArchiveEdit(docs, id, revision, archived) == Failure(NoChanges) <==>
      !BadReference(id, revision) && id in docs && docs[id].revision == revision && docs[id].active != archived
  {
  }

  /** An archive of a current document is refused only if nothing active would be left. */
  lemma ArchiveExactlyWhen(docs: Documents, id: string, revision: int)
    requires Current(docs, id, revision)
    ensures ArchiveEdit(docs, id, revision, true).Success? <==>
      exists d :: d in docs && docs[d].active && !InSubtree(Active(docs), d, id)
  {
    var subtree := ActiveSubtree(docs, id);
    assert subtree <= Active(docs).Keys;
    SubsetSize(subtree, Active(docs).Keys);
    assert |Active(docs)| == |Active(docs).Keys|;
    if d :| d in docs && docs[d].active && !InSubtree(Active(docs), d, id) {
      assert d in Active(docs).Keys && d !in subtree;
    }
    if subtree != Active(docs).Keys {
      var d :| d in Active(docs).Keys && d !in subtree;
      assert docs[d].active && !InSubtree(Active(docs), d, id);
    }
  }

  /** A restore of an archived document needs its parent active, and makes that one document active again. */
  lemma RestoreExactly(docs: Documents, id: string, revision: int)
    requires !BadReference(id, revision) && id in docs && !docs[id].active && docs[id].revision == revision
    ensures ArchiveEdit(docs, id, revision, false).Success? <==>
      (docs[id].parent.Some? ==> docs[id].parent.value in docs && docs[docs[id].parent.value].active)
  {
  }

  lemma RestoreStores(docs: Documents, after: Documents, id: string, revision: int)
    requires Outcome(docs, SetArchived(id, revision, false)) == Success(after)
    ensures id in docs && after == docs[id := docs[id].(active := true, revision := docs[id].revision + 1)]
  {
    BatchOutcome(docs, ArchiveEdit(docs, id, revision, false));
    RestoredOne(docs, id);
    BumpedOne(docs, id, docs[id].(active := true));
  }

  lemma RestoredOne(docs: Documents, id: string)
    requires id in docs
    ensures WithActive(docs, {id}, true) == docs[id := docs[id].(active := true)]
  {
  }

  // ----- Keys and sizes

  /** A batch is refused for its size exactly above 1000 mutations. */
  lemma BatchSize(docs: Documents, command: Command)
    requires WellFormed(docs) && Fresh(docs, command) && !command.Create? && EditOf(docs, command).Success?
    ensures var next := EditOf(docs, command).value; BatchOk(docs, next) <==> |Changed(docs, next)| <= 1000
  {
    OnlySizeRefused(docs, command);
  }

  lemma SixZeros()
    ensures Zeros(6) == "000000"
  {
    assert Zeros(2) == "00" && Zeros(4) == "00" + Zeros(2);
    assert Zeros(6) == "00" + Zeros(4);
  }

  /** The key of the 43rd place. */
  lemma NumberedKeyIs()
    ensures NumberedKey(42, "t") == "d-00000042-t"
  {
    SixZeros();
    assert DecimalOf(4) == "4" && DecimalOf(42) == DecimalOf(4) + "2";
    assert Format8(42) == "00000042";
  }

  /** What a new child gets: a first key, or the last key and a tilde in front of its suffix. */
  lemma AppendKeyIs(docs: Documents, parent: Option<string>, suffix: string)
    ensures var ids := Siblings(docs, parent);
      && (ids == [] ==> AppendKey(docs, parent, suffix) == "d-00000000-" + suffix)
      && (ids != [] ==> AppendKey(docs, parent, suffix) == KeyOf(docs, ids[|ids| - 1]) + "~" + suffix)
  {
  }

  // ----- Archive, as a whole

  /** An archive makes the document and its active descendants inactive, one revision on, and changes nothing else. */
  lemma ArchiveStores(docs: Documents, after: Documents, id: string, revision: int, d: string)
    requires Outcome(docs, SetArchived(id, revision, true)) == Success(after) && d in docs
    ensures d in after
    ensures after[d] == if docs[d].active && InSubtree(Active(docs), d, id)
                        then docs[d].(active := false, revision := docs[d].revision + 1) else docs[d]
  {
    ArchivedIs(docs, after, id, revision);
    ArchiveExactly(docs, id, revision, d);
  }

  lemma ArchivedIs(docs: Documents, after: Documents, id: string, revision: int)
    requires Outcome(docs, SetArchived(id, revision, true)) == Success(after)
    ensures Batch(docs, ArchiveEdit(docs, id, revision, true)) == Success(after)
  {
  }
}
