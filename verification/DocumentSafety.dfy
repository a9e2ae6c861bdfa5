/**
 Every sequence of document commands keeps a project well-formed, and the final tree check never
 refuses a batch the commands build.
 */
module DocumentSafety {
  import opened Common
  import opened Text
  import opened DocumentForest
  import opened DocumentOrder
  import opened DocumentTree
  import opened DocumentCommands

  /** Same documents, parents, keys and activity. */
  predicate SameShape(a: Documents, b: Documents) {
    && a.Keys == b.Keys
    && forall id | id in a :: a[id].parent == b[id].parent && a[id].orderKey == b[id].orderKey && a[id].active == b[id].active
  }

  /** Same documents and parents. */
  predicate SameLinks(a: Documents, b: Documents) {
    a.Keys == b.Keys && forall id | id in a :: a[id].parent == b[id].parent
  }

  lemma LinksAcyclic(a: Documents, b: Documents)
    requires SameLinks(a, b) && Acyclic(a)
    ensures Acyclic(b)
  {
    var rank :| Ranked(a, rank);
    assert Ranked(b, rank);
  }

  lemma ShapeWellFormed(a: Documents, b: Documents)
    requires SameShape(a, b) && WellFormed(a)
    ensures WellFormed(b)
  {
    LinksAcyclic(a, b);
    var d :| d in a && a[d].active;
    assert d in b && b[d].active;
  }

  // ----- Acyclic links under a move

  /** `d` is `x` or lies below it. */
  predicate Under(docs: Documents, rank: map<string, nat>, d: string, x: string)
    requires Ranked(docs, rank) && d in docs
    decreases rank[d]
  {
    d == x || (docs[d].parent.Some? && Under(docs, rank, docs[d].parent.value, x))
  }

  lemma {:induction false} UnderRank(docs: Documents, rank: map<string, nat>, d: string, x: string)
    requires Ranked(docs, rank) && d in docs && x in docs && Under(docs, rank, d, x)
    ensures rank[x] <= rank[d]
    decreases rank[d]
  {
    if d != x { UnderRank(docs, rank, docs[d].parent.value, x); }
  }

  /** The ranks after `x` is hung under `s`: everything below `x` moves past `s`. */
  function Lifted(docs: Documents, rank: map<string, nat>, x: string, s: string): map<string, nat>
    requires Ranked(docs, rank) && s in docs
  {
    map d | d in docs :: if Under(docs, rank, d, x) then rank[d] + rank[s] + 1 else rank[d]
  }

  lemma IndentAcyclic(docs: Documents, x: string, s: string)
    requires Acyclic(docs) && x in docs && s in docs && x != s && docs[x].parent == docs[s].parent
    ensures Acyclic(Reparented(docs, x, Some(s)))
  {
    var rank :| Ranked(docs, rank);
    var after, lifted := Reparented(docs, x, Some(s)), Lifted(docs, rank, x, s);
    if docs[x].parent.Some? {
      var q := docs[x].parent.value;
      if Under(docs, rank, q, x) { UnderRank(docs, rank, q, x); }
    }
    assert !Under(docs, rank, s, x);
    forall d | d in after && after[d].parent.Some?
      ensures after[d].parent.value in after && lifted[after[d].parent.value] < lifted[d]
    {
      if d != x { assert rank[docs[d].parent.value] < rank[d]; }
    }
    assert Ranked(after, lifted);
  }

  lemma OutdentAcyclic(docs: Documents, x: string, p: string)
    requires Acyclic(docs) && x in docs && p in docs && docs[x].parent == Some(p)
    ensures Acyclic(Reparented(docs, x, docs[p].parent))
  {
    var rank :| Ranked(docs, rank);
    assert Ranked(Reparented(docs, x, docs[p].parent), rank);
  }

  // ----- Edits

  /** Renumbering a group that holds every moved document. */
  lemma RekeyedWellFormed(docs: Documents, ids: seq<string>, token: string)
    requires Acyclic(docs) && ParentsActive(docs) && SomeActive(docs) && Unused(docs, token)
    requires forall a, b | a in docs && b in docs && a !in ids && b !in ids && docs[a].parent == docs[b].parent && docs[a].orderKey == docs[b].orderKey :: a == b
    ensures WellFormed(Rekeyed(docs, ids, token))
  {
    var after := Rekeyed(docs, ids, token);
    LinksAcyclic(docs, after);
    RekeyedKeysUnique(docs, ids, token);
    var d :| d in docs && docs[d].active;
    assert d in after && after[d].active;
  }

  lemma {:induction false} WithoutIn(ids: seq<string>, id: string, x: string)
    ensures x in Without(ids, id) <==> x in ids && x != id
  {
    if ids != [] { WithoutIn(ids[1..], id, x); }
  }

  lemma RenameWellFormed(docs: Documents, id: string, revision: int, title: string)
    requires WellFormed(docs) && RenameEdit(docs, id, revision, title).Success?
    ensures WellFormed(RenameEdit(docs, id, revision, title).value)
  {
    ShapeWellFormed(docs, RenameEdit(docs, id, revision, title).value);
  }

  lemma ReorderWellFormed(docs: Documents, id: string, revision: int, up: bool, token: string)
    requires WellFormed(docs) && Unused(docs, token) && ReorderEdit(docs, id, revision, up, token).Success?
    ensures WellFormed(ReorderEdit(docs, id, revision, up, token).value)
  {
    var ids := Siblings(docs, docs[id].parent);
    var i := PlaceOf(docs, id);
    SiblingsAre(docs, docs[id].parent);
    RekeyedWellFormed(docs, Swapped(ids, i, Target(i, |ids|, up).value), token);
  }

  lemma ReparentedKeeps(docs: Documents, x: string, parent: Option<string>, token: string)
    requires WellFormed(docs) && Unused(docs, token) && x in docs && docs[x].active
    requires parent.Some? ==> parent.value in docs && docs[parent.value].active
    ensures var after := Reparented(docs, x, parent);
            && ParentsActive(after) && SomeActive(after) && Unused(after, token)
            && forall a, b | a in after && b in after && a != x && b != x && after[a].parent == after[b].parent && after[a].orderKey == after[b].orderKey :: a == b
  {
    assert Reparented(docs, x, parent)[x].active;
  }

  lemma MovedWellFormed(docs: Documents, id: string, to: Option<string>, order: seq<string>, token: string)
    requires WellFormed(docs) && Unused(docs, token) && id in docs && docs[id].active && id in order
    requires to.Some? ==> to.value in docs && docs[to.value].active
    requires Acyclic(Reparented(docs, id, to))
    ensures WellFormed(Placed(docs, id, to, order, token))
  {
    ReparentedKeeps(docs, id, to, token);
    RekeyedWellFormed(Reparented(docs, id, to), order, token);
  }

  lemma PreviousSibling(docs: Documents, id: string)
    requires id in docs && docs[id].active && PlaceOf(docs, id) > 0
    ensures PreviousOf(docs, id) != id && IsChild(docs, docs[id].parent, PreviousOf(docs, id))
  {
    SiblingsAre(docs, docs[id].parent);
    assert PreviousOf(docs, id) in Siblings(docs, docs[id].parent);
  }

  lemma IndentWellFormed(docs: Documents, id: string, token: string)
    requires WellFormed(docs) && Unused(docs, token) && id in docs && docs[id].active && IndentEdit(docs, id, token).Success?
    ensures WellFormed(IndentEdit(docs, id, token).value)
  {
    var s := PreviousOf(docs, id);
    PreviousSibling(docs, id);
    IndentAcyclic(docs, id, s);
    MovedWellFormed(docs, id, Some(s), IndentOrder(docs, id, s), token);
  }

  lemma OutdentWellFormed(docs: Documents, id: string, token: string)
    requires WellFormed(docs) && Unused(docs, token) && id in docs && docs[id].active && OutdentEdit(docs, id, token).Success?
    ensures WellFormed(OutdentEdit(docs, id, token).value)
  {
    var p := docs[id].parent.value;
    var moved := Reparented(docs, id, docs[p].parent);
    var order := InsertedAfter(Without(Siblings(moved, docs[p].parent), id), p, id);
    OutdentAcyclic(docs, id, p);
    MovedWellFormed(docs, id, docs[p].parent, order, token);
  }

  /** The active parent of an outdented document is always found among its siblings. */
  lemma OutdentFindsParent(docs: Documents, id: string, token: string)
    requires WellFormed(docs) && id in docs && docs[id].active && docs[id].parent.Some?
    ensures OutdentEdit(docs, id, token).Success?
  {
    var p := docs[id].parent.value;
    var moved := Reparented(docs, id, docs[p].parent);
    var rank :| Ranked(docs, rank);
    assert p != id && IsChild(moved, docs[p].parent, p);
    InSiblings(moved, docs[p].parent, p);
    WithoutIn(Siblings(moved, docs[p].parent), id, p);
  }

  // ----- Archive and restore

  lemma SubtreeClosed(docs: Documents, root: string, d: string)
    requires root in docs && docs[root].active && d in docs && docs[d].active
    requires docs[d].parent.Some? && docs[d].parent.value in ActiveSubtree(docs, root)
    ensures d in ActiveSubtree(docs, root)
  {
    ChildInSubtree(Active(docs), d, root);
  }

  lemma SomeLeft(docs: Documents, gone: set<string>)
    requires |Active(docs)| > |gone|
    ensures exists d :: d in docs && docs[d].active && d !in gone
  {
    if forall d | d in Active(docs) :: d in gone { SubsetSize(Active(docs).Keys, gone); }
  }

  /** Taking away a set closed under children leaves active parents active. */
  lemma ClosedRemoval(docs: Documents, gone: set<string>)
    requires ParentsActive(docs)
    requires forall d | d in docs && docs[d].active && docs[d].parent.Some? && docs[d].parent.value in gone :: d in gone
    ensures ParentsActive(WithActive(docs, gone, false))
  {
  }

  lemma WithActiveKeeps(docs: Documents, ids: set<string>, active: bool)
    requires Acyclic(docs) && KeysUnique(docs)
    ensures Acyclic(WithActive(docs, ids, active)) && KeysUnique(WithActive(docs, ids, active))
  {
    LinksAcyclic(docs, WithActive(docs, ids, active));
  }

  lemma ArchiveWellFormed(docs: Documents, id: string, revision: int)
    requires WellFormed(docs) && ArchiveEdit(docs, id, revision, true).Success?
    ensures WellFormed(ArchiveEdit(docs, id, revision, true).value)
  {
    var gone := ActiveSubtree(docs, id);
    var after := WithActive(docs, gone, false);
    WithActiveKeeps(docs, gone, false);
    SomeLeft(docs, gone);
    var left :| left in docs && docs[left].active && left !in gone;
    assert left in after && after[left].active;
    forall d | d in docs && docs[d].active && docs[d].parent.Some? && docs[d].parent.value in gone
      ensures d in gone
    {
      SubtreeClosed(docs, id, d);
    }
    ClosedRemoval(docs, gone);
  }

  lemma RestoreWellFormed(docs: Documents, id: string, revision: int)
    requires WellFormed(docs) && ArchiveEdit(docs, id, revision, false).Success?
    ensures WellFormed(ArchiveEdit(docs, id, revision, false).value)
  {
    var after := WithActive(docs, {id}, true);
    WithActiveKeeps(docs, {id}, true);
    assert after[id].active;
  }

  lemma AddedAcyclic(docs: Documents, id: string, document: Document)
    requires Acyclic(docs) && id !in docs && (document.parent.Some? ==> document.parent.value in docs)
    ensures Acyclic(docs[id := document])
  {
    var rank :| Ranked(docs, rank);
    assert Ranked(docs[id := document], rank[id := if document.parent.Some? then rank[document.parent.value] + 1 else 0]);
  }

  lemma AddedKeysUnique(docs: Documents, id: string, document: Document)
    requires KeysUnique(docs) && id !in docs && !KeyTaken(docs, document.parent, document.orderKey)
    ensures KeysUnique(docs[id := document])
  {
  }

  lemma CreateWellFormed(docs: Documents, id: string, parent: Option<string>, title: string, text: string, suffix: string)
    requires WellFormed(docs) && CreateOutcome(docs, id, parent, title, text, suffix).Success?
    ensures WellFormed(CreateOutcome(docs, id, parent, title, text, suffix).value)
  {
    var document := Document(parent, Trim(title), AppendKey(docs, parent, suffix), 0, true);
    AddedAcyclic(docs, id, document);
    AddedKeysUnique(docs, id, document);
    assert docs[id := document][id].active;
  }

  // ----- All commands

  ghost function EditOf(docs: Documents, command: Command): Result<Documents, DocumentError>
    requires !command.Create?
  {
    match command
    case Rename(id, revision, title) => RenameEdit(docs, id, revision, title)
    case Reorder(id, revision, up, token) => ReorderEdit(docs, id, revision, up, token)
    case ChangeDepth(id, revision, indent, token) => DepthEdit(docs, id, revision, indent, token)
    case SetArchived(id, revision, archived) => ArchiveEdit(docs, id, revision, archived)
  }

  lemma EditWellFormed(docs: Documents, command: Command)
    requires WellFormed(docs) && Fresh(docs, command) && !command.Create? && EditOf(docs, command).Success?
    ensures WellFormed(EditOf(docs, command).value)
  {
    match command
    case Rename(id, revision, title) => RenameWellFormed(docs, id, revision, title);
    case Reorder(id, revision, up, token) => ReorderWellFormed(docs, id, revision, up, token);
    case ChangeDepth(id, revision, indent, token) =>
      if indent { IndentWellFormed(docs, id, token); } else { OutdentWellFormed(docs, id, token); }
    case SetArchived(id, revision, archived) =>
      if archived { ArchiveWellFormed(docs, id, revision); } else { RestoreWellFormed(docs, id, revision); }
  }

  lemma EditKeepsKeys(docs: Documents, command: Command)
    requires !command.Create? && EditOf(docs, command).Success?
    ensures EditOf(docs, command).value.Keys == docs.Keys
  {
  }

  lemma BumpedShape(docs: Documents, next: Documents)
    requires next.Keys == docs.Keys
    ensures SameShape(next, Bumped(docs, next))
  {
  }

  /** A batch the commands build is only ever refused for its size. */
  lemma OnlySizeRefused(docs: Documents, command: Command)
    requires WellFormed(docs) && Fresh(docs, command) && !command.Create? && EditOf(docs, command).Success?
    ensures var next := EditOf(docs, command).value;
            BatchOk(docs, next) <==> |Changed(docs, next)| <= MAX_BATCH
  {
    var next := EditOf(docs, command).value;
    EditWellFormed(docs, command);
    EditKeepsKeys(docs, command);
    BumpedShape(docs, next);
    ShapeWellFormed(next, Bumped(docs, next));
    WellFormedTreeOk(Bumped(docs, next));
    var rank :| Ranked(next, rank);
  }

  lemma BumpedWellFormed(docs: Documents, next: Documents)
    requires WellFormed(next) && next.Keys == docs.Keys
    ensures WellFormed(Bumped(docs, next))
  {
    BumpedShape(docs, next);
    ShapeWellFormed(next, Bumped(docs, next));
  }

  lemma ExecuteEdit(docs: Documents, command: Command)
    requires !command.Create?
    ensures var edit := EditOf(docs, command);
            Execute(docs, command) ==
            if edit.Success? && Changed(docs, edit.value) != {} && BatchOk(docs, edit.value) then Bumped(docs, edit.value) else docs
  {
    assert Outcome(docs, command) == Batch(docs, EditOf(docs, command));
  }

  lemma ExecuteWellFormed(docs: Documents, command: Command)
    requires WellFormed(docs) && Fresh(docs, command)
    ensures WellFormed(Execute(docs, command))
  {
    if command.Create? {
      if Outcome(docs, command).Success? { CreateWellFormed(docs, command.id, command.parent, command.title, command.text, command.suffix); }
    } else {
      ExecuteEdit(docs, command);
      if EditOf(docs, command).Success? {
        EditWellFormed(docs, command);
        EditKeepsKeys(docs, command);
        BumpedWellFormed(docs, EditOf(docs, command).value);
      }
    }
  }

  ghost function ExecuteAll(docs: Documents, commands: seq<Command>): Documents {
    if commands == [] then docs
    else Execute(ExecuteAll(docs, commands[..|commands| - 1]), commands[|commands| - 1])
  }

  /** Every id and token a run generates is new when it is generated. */
  ghost predicate FreshRun(docs: Documents, commands: seq<Command>) {
    forall i | 0 <= i < |commands| :: Fresh(ExecuteAll(docs, commands[..i]), commands[i])
  }

  /**
   Every run keeps parent links acyclic over all documents, active documents under active parents,
   keys unique among siblings and at least one document active.
   */
  lemma {:induction false} EveryRunWellFormed(docs: Documents, commands: seq<Command>)
    requires WellFormed(docs) && FreshRun(docs, commands)
    ensures WellFormed(ExecuteAll(docs, commands))
  {
    if commands != [] {
      var earlier := commands[..|commands| - 1];
      forall i | 0 <= i < |earlier|
        ensures Fresh(ExecuteAll(docs, earlier[..i]), earlier[i])
      {
        assert earlier[..i] == commands[..i];
      }
      EveryRunWellFormed(docs, earlier);
      assert Fresh(ExecuteAll(docs, commands[..|commands| - 1]), commands[|commands| - 1]);
      ExecuteWellFormed(ExecuteAll(docs, earlier), commands[|commands| - 1]);
    }
  }
}
