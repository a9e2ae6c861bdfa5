/**
 The document commands as the program runs them: documents read from the store, edited in place,
 committed as one batch. Each is proved to do what `DocumentCommands` says.
 */
module DocumentWorkspace {
  import opened Common
  import opened Sorting
  import opened Text
  import opened DocumentForest
  import opened DocumentOrder
  import opened DocumentTree
  import opened DocumentCommands
  import opened DocumentSafety
  import opened DocumentRoundTrip

  // ----- Edits

  ghost predicate Reports(failed: Option<DocumentError>, outcome: Result<Documents, DocumentError>) {
    match outcome
    case Failure(error) => failed == Some(error)
    case Success(_) => failed == None
  }

  method EditRename(docs: Documents, id: string, revision: int, title: string) returns (edit: Result<Documents, DocumentError>)
    ensures edit == RenameEdit(docs, id, revision, title)
  {
    if !ValidReference(id, revision) || !ValidTitle(title) { return Failure(Invalid); }
    if id !in docs { return Failure(NotFound); }
    if docs[id].revision != revision { return Failure(Conflict); }
    if !docs[id].active { return Failure(Invalid); }
    if docs[id].title == Trim(title) { return Failure(NoChanges); }
    return Success(docs[id := docs[id].(title := Trim(title))]);
  }

  lemma SwappedDistinct(ids: seq<string>, i: nat, j: nat)
    requires NoRepeats(ids) && i < |ids| && j < |ids|
    ensures NoRepeats(Swapped(ids, i, j)) && forall id | id in Swapped(ids, i, j) :: id in ids
  {
    forall id | id in Swapped(ids, i, j)
      ensures id in ids
    {
      var k :| 0 <= k < |ids| && Swapped(ids, i, j)[k] == id;
    }
  }

  method EditReorder(docs: Documents, id: string, revision: int, up: bool, token: string) returns (edit: Result<Documents, DocumentError>)
    ensures edit == ReorderEdit(docs, id, revision, up, token)
  {
    if !ValidReference(id, revision) { return Failure(Invalid); }
    if id !in docs || !docs[id].active { return Failure(NotFound); }
    if docs[id].revision != revision { return Failure(Conflict); }
    var ids := OrderedSiblingIds(docs, docs[id].parent);
    SiblingsAre(docs, docs[id].parent);
    var i := IndexOf(ids, id);
    match Target(i, |ids|, up) {
      case None => return Failure(NoChanges);
      case Some(j) =>
        SwappedDistinct(ids, i, j);
        var next := RekeyDocuments(docs, Swapped(ids, i, j), token);
        return Success(next);
    }
  }

  /** Renumbers the children of `s` with `id` hung there last. */
  method IndentUnder(docs: Documents, id: string, s: string, token: string) returns (next: Documents)
    requires id in docs && docs[id].active && Some(s) != docs[id].parent
    ensures next == Placed(docs, id, Some(s), IndentOrder(docs, id, s), token)
  {
    var moved := Reparented(docs, id, Some(s));
    var children := OrderedSiblingIds(moved, Some(s));
    IndentedLists(docs, id, s);
    next := RekeyDocuments(moved, Without(children, id) + [id], token);
  }

  /** The document at the head of its group cannot be indented; another goes under the one before it. */
  lemma IndentEditAt(docs: Documents, id: string, token: string, ids: seq<string>, i: nat)
    requires id in docs && docs[id].active && WellFormed(docs)
    requires ids == Siblings(docs, docs[id].parent) && i == PlaceOf(docs, id)
    ensures i == 0 ==> IndentEdit(docs, id, token) == Failure(NoChanges)
    ensures i > 0 ==>
      && Some(ids[i - 1]) != docs[id].parent
      && IndentEdit(docs, id, token) == Success(Placed(docs, id, Some(ids[i - 1]), IndentOrder(docs, id, ids[i - 1]), token))
  {
    if i > 0 { SiblingFacts(docs, id, ids[i - 1], i); }
  }

  method EditIndent(docs: Documents, id: string, token: string) returns (edit: Result<Documents, DocumentError>)
    requires id in docs && docs[id].active && WellFormed(docs)
    ensures edit == IndentEdit(docs, id, token)
  {
    var ids := OrderedSiblingIds(docs, docs[id].parent);
    InSiblings(docs, docs[id].parent, id);
    var i := IndexOf(ids, id);
    IndentEditAt(docs, id, token, ids, i);
    if i == 0 { return Failure(NoChanges); }
    var next := IndentUnder(docs, id, ids[i - 1], token);
    return Success(next);
  }

  lemma WithoutDistinct(ids: seq<string>, id: string)
    requires NoRepeats(ids)
    ensures NoRepeats(Without(ids, id)) && forall x :: x in Without(ids, id) <==> x in ids && x != id
  {
    forall x ensures x in Without(ids, id) <==> x in ids && x != id { WithoutIn(ids, id, x); }
    if id in ids {
      WithoutAt(ids, IndexOf(ids, id));
      StillDistinct(ids, IndexOf(ids, id));
    } else {
      WithoutAbsent(ids, id);
    }
  }

  method EditOutdent(docs: Documents, id: string, token: string) returns (edit: Result<Documents, DocumentError>)
    requires id in docs && docs[id].active && WellFormed(docs)
    ensures edit == OutdentEdit(docs, id, token)
  {
    if docs[id].parent == None { return Failure(NoChanges); }
    var p := docs[id].parent.value;
    if p !in docs || !docs[p].active { return Failure(NotFound); }
    var moved := Reparented(docs, id, docs[p].parent);
    var destination := OrderedSiblingIds(moved, docs[p].parent);
    SiblingsAre(moved, docs[p].parent);
    WithoutDistinct(destination, id);
    destination := Without(destination, id);
    OutdentFindsParent(docs, id, token);
    InsertedDistinct(destination, p, id);
    var next := RekeyDocuments(moved, InsertedAfter(destination, p, id), token);
    return Success(next);
  }

  method EditDepth(docs: Documents, id: string, revision: int, indent: bool, token: string) returns (edit: Result<Documents, DocumentError>)
    requires WellFormed(docs)
    ensures edit == DepthEdit(docs, id, revision, indent, token)
  {
    if !ValidReference(id, revision) { return Failure(Invalid); }
    if id !in docs || !docs[id].active { return Failure(NotFound); }
    if docs[id].revision != revision { return Failure(Conflict); }
    if indent { edit := EditIndent(docs, id, token); } else { edit := EditOutdent(docs, id, token); }
  }

  method EditArchived(docs: Documents, id: string, revision: int, archived: bool) returns (edit: Result<Documents, DocumentError>)
    ensures edit == ArchiveEdit(docs, id, revision, archived)
  {
    if !ValidReference(id, revision) { return Failure(Invalid); }
    if id !in docs { return Failure(NotFound); }
    if docs[id].revision != revision { return Failure(Conflict); }
    if docs[id].active != archived { return Failure(NoChanges); }
    if archived {
      var subtree := ActiveSubtreeIds(Active(docs), id);
      assert subtree == ActiveSubtree(docs, id);
      if |Active(docs)| <= |subtree| { return Failure(Invalid); }
      return Success(WithActive(docs, subtree, false));
    } else {
      if docs[id].parent.Some? && !(docs[id].parent.value in docs && docs[docs[id].parent.value].active) { return Failure(Invalid); }
      return Success(WithActive(docs, {id}, true));
    }
  }

  /** The rows of a batch, one after the other; stops at a document that would be its own parent. */
  method ApplyMutations(docs: Documents, next: Documents) returns (documents: Option<Documents>)
    requires next.Keys == docs.Keys
    ensures documents.Some? <==> forall id | id in Changed(docs, next) :: next[id].parent != Some(id)
    ensures documents.Some? ==> documents.value == Bumped(docs, next)
  {
    var todo, after := Changed(docs, next), docs;
    while todo != {}
      invariant todo <= Changed(docs, next) && after.Keys == docs.Keys
      invariant forall id | id in docs ::
                  after[id] == if id in Changed(docs, next) && id !in todo then next[id].(revision := docs[id].revision + 1) else docs[id]
      invariant forall id | id in Changed(docs, next) && id !in todo :: next[id].parent != Some(id)
      decreases todo
    {
      var id :| id in todo;
      if next[id].parent == Some(id) { return None; }
      after, todo := after[id := next[id].(revision := after[id].revision + 1)], todo - {id};
    }
    return Some(after);
  }

  // ----- The workspace

  class Workspace {
    var docs: Documents

    ghost predicate Valid()
      reads this
    {
      WellFormed(docs)
    }

    constructor (documents: Documents)
      requires WellFormed(documents)
      ensures Valid() && docs == documents
    {
      docs := documents;
    }

    /** `apply_document_batch`: every changed document takes its new state, or none does. */
    method ApplyDocumentBatch(next: Documents) returns (failed: Option<DocumentError>)
      requires next.Keys == docs.Keys
      modifies this
      ensures failed == if Changed(old(docs), next) == {} then Some(NoChanges) else if BatchOk(old(docs), next) then None else Some(Invalid)
      ensures docs == if failed == None then Bumped(old(docs), next) else old(docs)
    {
      var changed := Changed(docs, next);
      if changed == {} { return Some(NoChanges); }
      if |changed| > MAX_BATCH { return Some(Invalid); }
      var documents := ApplyMutations(docs, next);
      if documents == None { return Some(Invalid); }
      var ok := ValidateFinalDocumentTree(documents.value);
      if !ok { return Some(Invalid); }
      docs := documents.value;
      return None;
    }

    method CommitEdit(edit: Result<Documents, DocumentError>) returns (failed: Option<DocumentError>)
      requires edit.Success? ==> edit.value.Keys == docs.Keys
      modifies this
      ensures Reports(failed, Batch(old(docs), edit))
      ensures docs == match Batch(old(docs), edit) case Failure(_) => old(docs) case Success(after) => after
    {
      match edit {
        case Failure(error) => return Some(error);
        case Success(next) => failed := ApplyDocumentBatch(next);
      }
    }

    /** `create_document`; the first block, which holds the text, is left out. */
    method CreateDocument(id: string, parent: Option<string>, title: string, text: string, suffix: string) returns (failed: Option<DocumentError>)
      requires Valid() && Fresh(docs, Create(id, parent, title, text, suffix))
      modifies this
      ensures Valid() && docs == Execute(old(docs), Create(id, parent, title, text, suffix))
      ensures Reports(failed, Outcome(old(docs), Create(id, parent, title, text, suffix)))
    {
      ExecuteWellFormed(docs, Create(id, parent, title, text, suffix));
      if !ValidTitle(title) { return Some(Invalid); }
      if !ValidText(text) { return Some(Invalid); }
      if parent.Some? && !(parent.value in docs && docs[parent.value].active) { return Some(Invalid); }
      var key := AppendSiblingOrderKey(docs, parent, suffix);
      if KeyTaken(docs, parent, key) { return Some(Invalid); }
      docs := docs[id := Document(parent, Trim(title), key, 0, true)];
      return None;
    }

    /** `rename_document`. */
    method RenameDocument(id: string, revision: int, title: string) returns (failed: Option<DocumentError>)
      requires Valid()
      modifies this
      ensures Valid() && docs == Execute(old(docs), Rename(id, revision, title))
      ensures Reports(failed, Outcome(old(docs), Rename(id, revision, title)))
    {
      ExecuteWellFormed(docs, Rename(id, revision, title));
      var edit := EditRename(docs, id, revision, title);
      failed := CommitEdit(edit);
    }

    /** `reorder_document`. */
    method ReorderDocument(id: string, revision: int, up: bool, token: string) returns (failed: Option<DocumentError>)
      requires Valid() && Unused(docs, token)
      modifies this
      ensures Valid() && docs == Execute(old(docs), Reorder(id, revision, up, token))
      ensures Reports(failed, Outcome(old(docs), Reorder(id, revision, up, token)))
    {
      ExecuteWellFormed(docs, Reorder(id, revision, up, token));
      var edit := EditReorder(docs, id, revision, up, token);
      failed := CommitEdit(edit);
    }

    /** `change_document_depth`. */
    method ChangeDocumentDepth(id: string, revision: int, indent: bool, token: string) returns (failed: Option<DocumentError>)
      requires Valid() && Unused(docs, token)
      modifies this
      ensures Valid() && docs == Execute(old(docs), ChangeDepth(id, revision, indent, token))
      ensures Reports(failed, Outcome(old(docs), ChangeDepth(id, revision, indent, token)))
    {
      ExecuteWellFormed(docs, ChangeDepth(id, revision, indent, token));
      var edit := EditDepth(docs, id, revision, indent, token);
      failed := CommitEdit(edit);
    }

    /** `set_document_archived`. */
    method SetDocumentArchived(id: string, revision: int, archived: bool) returns (failed: Option<DocumentError>)
      requires Valid()
      modifies this
      ensures Valid() && docs == Execute(old(docs), SetArchived(id, revision, archived))
      ensures Reports(failed, Outcome(old(docs), SetArchived(id, revision, archived)))
    {
      ExecuteWellFormed(docs, SetArchived(id, revision, archived));
      var edit := EditArchived(docs, id, revision, archived);
      failed := CommitEdit(edit);
    }
  }
}
