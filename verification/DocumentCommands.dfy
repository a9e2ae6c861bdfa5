/**
 What the document commands of `workspace_commands.rs` do to a project, each as one function of the
 documents before: the edit, the batch limits and the final tree check.
 */
module DocumentCommands {
  import opened Common
  import opened Text
  import opened DocumentForest
  import opened DocumentOrder
  import opened DocumentTree

  datatype DocumentError = Invalid | NotFound | Conflict | NoChanges | Violation

  /** Ids, tokens and suffixes are generated; callers pass the rest. */
  datatype Command =
    | Create(id: string, parent: Option<string>, title: string, text: string, suffix: string)
    | Rename(id: string, revision: int, title: string)
    | Reorder(id: string, revision: int, up: bool, token: string)
    | ChangeDepth(id: string, revision: int, indent: bool, token: string)
    | SetArchived(id: string, revision: int, archived: bool)

  const MAX_BATCH := 1_000
  const MAX_TITLE := 200
  const MAX_PLAIN_TEXT_BYTES := 2 * 1024 * 1024

  predicate ValidTitle(title: string) { 1 <= |Trim(title)| <= MAX_TITLE }

  predicate ValidText(text: string) { Utf8Length(text) <= MAX_PLAIN_TEXT_BYTES }

  predicate ValidReference(id: string, revision: int) { Trim(id) != "" && revision >= 0 }

  // ----- Edits

  function Without(ids: seq<string>, id: string): seq<string> {
    if ids == [] then []
    else if ids[0] == id then Without(ids[1..], id)
    else [ids[0]] + Without(ids[1..], id)
  }

  function Swapped(ids: seq<string>, i: nat, j: nat): seq<string>
    requires i < |ids| && j < |ids|
  {
    ids[i := ids[j]][j := ids[i]]
  }

  function Reparented(docs: Documents, id: string, parent: Option<string>): Documents
    requires id in docs
  {
    docs[id := docs[id].(parent := parent)]
  }

  /** The document hung elsewhere and the group it joins renumbered. */
  function Placed(docs: Documents, id: string, parent: Option<string>, order: seq<string>, token: string): Documents
    requires id in docs
  {
    Rekeyed(Reparented(docs, id, parent), order, token)
  }

  ghost function RenameEdit(docs: Documents, id: string, revision: int, title: string): Result<Documents, DocumentError> {
    if !ValidReference(id, revision) || !ValidTitle(title) then Failure(Invalid)
    else if id !in docs then Failure(NotFound)
    else if docs[id].revision != revision then Failure(Conflict)
    else if !docs[id].active then Failure(Invalid)
    else if docs[id].title == Trim(title) then Failure(NoChanges)
    else Success(docs[id := docs[id].(title := Trim(title))])
  }

  /** Where the document goes among its siblings. */
  function Target(i: nat, count: nat, up: bool): Option<nat>
    requires i < count
  {
    if up then (if i > 0 then Some(i - 1) else None) else (if i + 1 < count then Some(i + 1) else None)
  }

  ghost function ReorderEdit(docs: Documents, id: string, revision: int, up: bool, token: string): Result<Documents, DocumentError> {
    if !ValidReference(id, revision) then Failure(Invalid)
    else if id !in docs || !docs[id].active then Failure(NotFound)
    else if docs[id].revision != revision then Failure(Conflict)
    else
      var ids, i := Siblings(docs, docs[id].parent), PlaceOf(docs, id);
      match Target(i, |ids|, up)
      case None => Failure(NoChanges)
      case Some(j) => Success(Rekeyed(docs, Swapped(ids, i, j), token))
  }

  /** The order asked for in the group a document moves to. */
  ghost function IndentOrder(docs: Documents, id: string, to: string): seq<string>
    requires id in docs
  {
    Without(Siblings(Reparented(docs, id, Some(to)), Some(to)), id) + [id]
  }

  function InsertedAfter(ids: seq<string>, anchor: string, id: string): seq<string>
    requires anchor in ids
  {
    var i := IndexOf(ids, anchor);
    ids[..i + 1] + [id] + ids[i + 1..]
  }

  /** The place of an active document among its siblings. */
  ghost function PlaceOf(docs: Documents, id: string): (i: nat)
    requires id in docs && docs[id].active
    ensures i < |Siblings(docs, docs[id].parent)| && Siblings(docs, docs[id].parent)[i] == id
  {
    InSiblings(docs, docs[id].parent, id);
    IndexOf(Siblings(docs, docs[id].parent), id)
  }

  ghost function PreviousOf(docs: Documents, id: string): string
    requires id in docs && docs[id].active && PlaceOf(docs, id) > 0
  {
    Siblings(docs, docs[id].parent)[PlaceOf(docs, id) - 1]
  }

  ghost function IndentEdit(docs: Documents, id: string, token: string): Result<Documents, DocumentError>
    requires id in docs && docs[id].active
  {
    if PlaceOf(docs, id) == 0 then Failure(NoChanges)
    else
      var s := PreviousOf(docs, id);
      Success(Placed(docs, id, Some(s), IndentOrder(docs, id, s), token))
  }

  ghost function OutdentEdit(docs: Documents, id: string, token: string): Result<Documents, DocumentError>
    requires id in docs && docs[id].active
  {
    match docs[id].parent
    case None => Failure(NoChanges)
    case Some(p) =>
      if p !in docs || !docs[p].active then Failure(NotFound)
      else
        var rest := Without(Siblings(Reparented(docs, id, docs[p].parent), docs[p].parent), id);
        if p !in rest then Failure(Violation)
        else Success(Placed(docs, id, docs[p].parent, InsertedAfter(rest, p, id), token))
  }

  ghost function DepthEdit(docs: Documents, id: string, revision: int, indent: bool, token: string): Result<Documents, DocumentError> {
    if !ValidReference(id, revision) then Failure(Invalid)
    else if id !in docs || !docs[id].active then Failure(NotFound)
    else if docs[id].revision != revision then Failure(Conflict)
    else if indent then IndentEdit(docs, id, token)
    else OutdentEdit(docs, id, token)
  }

  ghost function ActiveSubtree(docs: Documents, root: string): set<string>
    requires root in docs && docs[root].active
  {
    set d | d in docs && docs[d].active && InSubtree(Active(docs), d, root)
  }

  function WithActive(docs: Documents, ids: set<string>, active: bool): Documents {
    map d | d in docs :: if d in ids then docs[d].(active := active) else docs[d]
  }

  ghost function ArchiveEdit(docs: Documents, id: string, revision: int, archived: bool): Result<Documents, DocumentError> {
    if !ValidReference(id, revision) then Failure(Invalid)
    else if id !in docs then Failure(NotFound)
    else if docs[id].revision != revision then Failure(Conflict)
    else if docs[id].active != archived then Failure(NoChanges)
    else if archived then
      if |Active(docs)| <= |ActiveSubtree(docs, id)| then Failure(Invalid)
      else Success(WithActive(docs, ActiveSubtree(docs, id), false))
    else if docs[id].parent.Some? && !(docs[id].parent.value in docs && docs[docs[id].parent.value].active) then Failure(Invalid)
    else Success(WithActive(docs, {id}, true))
  }

  // ----- The batch

  function Changed(docs: Documents, next: Documents): set<string> {
    set id | id in docs && id in next && next[id] != docs[id]
  }

  /** Changed documents take their new state one revision on. */
  function Bumped(docs: Documents, next: Documents): Documents {
    map id | id in docs :: if id in Changed(docs, next) then next[id].(revision := docs[id].revision + 1) else docs[id]
  }

  ghost predicate BatchOk(docs: Documents, next: Documents) {
    && |Changed(docs, next)| <= MAX_BATCH
    && (forall id | id in Changed(docs, next) :: next[id].parent != Some(id))
    && TreeOk(Bumped(docs, next))
  }

  ghost function Batch(docs: Documents, edit: Result<Documents, DocumentError>): Result<Documents, DocumentError> {
    match edit
    case Failure(e) => Failure(e)
    case Success(next) =>
      if Changed(docs, next) == {} then Failure(NoChanges)
      else if !BatchOk(docs, next) then Failure(Invalid)
      else Success(Bumped(docs, next))
  }

  predicate KeyTaken(docs: Documents, parent: Option<string>, key: string) {
    exists d | d in docs :: docs[d].parent == parent && docs[d].orderKey == key
  }

  ghost function CreateOutcome(docs: Documents, id: string, parent: Option<string>, title: string, text: string, suffix: string): Result<Documents, DocumentError> {
    if !ValidTitle(title) || !ValidText(text) then Failure(Invalid)
    else if parent.Some? && !(parent.value in docs && docs[parent.value].active) then Failure(Invalid)
    else if KeyTaken(docs, parent, AppendKey(docs, parent, suffix)) then Failure(Invalid)
    else if id in docs then Failure(Violation)
    else Success(docs[id := Document(parent, Trim(title), AppendKey(docs, parent, suffix), 0, true)])
  }

  /** `change_document_depth`. */
  ghost function DepthOutcome(docs: Documents, id: string, revision: int, indent: bool, token: string): Result<Documents, DocumentError> {
    Batch(docs, DepthEdit(docs, id, revision, indent, token))
  }

  ghost function Outcome(docs: Documents, command: Command): Result<Documents, DocumentError> {
    match command
    case Create(id, parent, title, text, suffix) => CreateOutcome(docs, id, parent, title, text, suffix)
    case Rename(id, revision, title) => Batch(docs, RenameEdit(docs, id, revision, title))
    case Reorder(id, revision, up, token) => Batch(docs, ReorderEdit(docs, id, revision, up, token))
    case ChangeDepth(id, revision, indent, token) => DepthOutcome(docs, id, revision, indent, token)
    case SetArchived(id, revision, archived) => Batch(docs, ArchiveEdit(docs, id, revision, archived))
  }

  ghost function Execute(docs: Documents, command: Command): Documents {
    match Outcome(docs, command)
    case Failure(_) => docs
    case Success(after) => after
  }

  /** Generated ids and tokens are new. */
  predicate Fresh(docs: Documents, command: Command) {
    match command
    case Create(id, _, _, _, suffix) => id !in docs && Unused(docs, suffix)
    case Reorder(_, _, _, token) => Unused(docs, token)
    case ChangeDepth(_, _, _, token) => Unused(docs, token)
    case _ => true
  }
}
