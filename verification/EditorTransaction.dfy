/**
 Editor transactions (`transaction.ts`): a batch of steps over the blocks of a document, each block
 touched at most once, compiled to the next document and a record of changes.
 */
module EditorTransaction {
  import opened Common
  import opened Sorting

  datatype Block = Block(
    id: string, documentId: string, kind: string, orderKey: string, content: string, plainText: string,
    contentHash: string, revision: int, locked: bool)

  datatype NewBlock = NewBlock(
    id: string, documentId: string, kind: string, orderKey: string, content: string, plainText: string, locked: bool)

  datatype Step =
    | Replace(blockId: string, expectedRevision: int, expectedHash: string, nextKind: Option<string>, nextContent: string, nextPlainText: string)
    | Insert(block: NewBlock)
    | Delete(blockId: string, expectedRevision: int, expectedHash: string)
    | Move(blockId: string, expectedRevision: int, expectedHash: string, nextOrderKey: string)

  datatype Document = Document(documentId: string, revision: int, blocks: seq<Block>)

  datatype Transaction = Transaction(id: string, documentId: string, expectedDocumentRevision: int, steps: seq<Step>)

  datatype Operation = Created | Updated | Deleted | Moved

  datatype Change = Change(operation: Operation, blockId: string, before: Option<Block>, after: Option<Block>)

  datatype Compiled = Compiled(id: string, documentId: string, changes: seq<Change>, nextDocument: Document)

  datatype EditorError =
    | EmptyTransaction | DocumentRevisionConflict | DocumentIdConflict | BlockTouchedTwice | BlockIdDuplicate
    | BlockNotFound | BlockLocked | BlockRevisionConflict | BlockHashConflict | OrderKeyDuplicate

  type Blocks = map<string, Block>

  /** Kind, content, text and lock go into the hash. */
  type Hasher = (string, string, string, bool) -> string

  predicate IsWhitespace(c: char) {
    c in {'\U{0009}', '\U{000A}', '\U{000B}', '\U{000C}', '\U{000D}', ' ', '\U{00A0}', '\U{1680}', '\U{2028}', '\U{2029}', '\U{202F}', '\U{205F}', '\U{3000}', '\U{FEFF}'}
    || '\U{2000}' <= c <= '\U{200A}'
  }

  /** The white space of the scripting language, by code point. */
  lemma WhitespaceIs(c: char)
    ensures IsWhitespace(c) <==>
      || 0x9 <= c as int <= 0xD || c as int == 0x20 || c as int == 0xA0 || c as int == 0x1680 || 0x2000 <= c as int <= 0x200A
      || c as int == 0x2028 || c as int == 0x2029 || c as int == 0x202F || c as int == 0x205F || c as int == 0x3000 || c as int == 0xFEFF
  {
  }

  predicate Blank(s: string) { forall c | c in s :: IsWhitespace(c) }

  function Target(step: Step): string {
    match step
    case Insert(block) => block.id
    case Replace(id, _, _, _, _, _) => id
    case Delete(id, _, _) => id
    case Move(id, _, _, _) => id
  }

  function Lookup(blocks: Blocks, id: string): Option<Block> {
    if id in blocks then Some(blocks[id]) else None
  }

  // ----- What one step does to its block

  function Writable(block: Block, revision: int, hash: string): Option<EditorError> {
    if block.locked then Some(BlockLocked)
    else if block.revision != revision then Some(BlockRevisionConflict)
    else if block.contentHash != hash then Some(BlockHashConflict)
    else None
  }

  function Inserted(b: NewBlock, hash: Hasher): Block {
    Block(b.id, b.documentId, b.kind, b.orderKey, b.content, b.plainText, hash(b.kind, b.content, b.plainText, b.locked), 0, b.locked)
  }

  function Replaced(b: Block, kind: Option<string>, content: string, text: string, hash: Hasher): Block {
    var k := if kind.Some? then kind.value else b.kind;
    b.(kind := k, content := content, plainText := text, contentHash := hash(k, content, text, b.locked), revision := b.revision + 1)
  }

  /** The block after the step, `None` when it is gone. */
  function Effect(step: Step, before: Option<Block>, hash: Hasher): Result<Option<Block>, EditorError> {
    match step
    case Insert(block) => if before.Some? then Failure(BlockIdDuplicate) else Success(Some(Inserted(block, hash)))
    case Replace(_, revision, expected, kind, content, text) =>
      if before == None then Failure(BlockNotFound)
      else
        (match Writable(before.value, revision, expected)
         case Some(error) => Failure(error)
         case None => Success(Some(Replaced(before.value, kind, content, text, hash))))
    case Delete(_, revision, expected) =>
      if before == None then Failure(BlockNotFound)
      else
        (match Writable(before.value, revision, expected)
         case Some(error) => Failure(error)
         case None => Success(None))
    case Move(_, revision, expected, key) =>
      if before == None then Failure(BlockNotFound)
      else
        (match Writable(before.value, revision, expected)
         case Some(error) => Failure(error)
         case None =>
           if Blank(key) then Failure(OrderKeyDuplicate)
           else Success(Some(before.value.(orderKey := key, revision := before.value.revision + 1))))
  }

  function OperationOf(step: Step): Operation {
    match step
    case Insert(_) => Created
    case Replace(_, _, _, _, _, _) => Updated
    case Delete(_, _, _) => Deleted
    case Move(_, _, _, _) => Moved
  }

  function Put(blocks: Blocks, id: string, block: Option<Block>): Blocks {
    if block.Some? then blocks[id := block.value] else blocks - {id}
  }

  // ----- What a transaction does, step by step

  /** Blocks by id; the last of several with one id counts. */
  function ById(blocks: seq<Block>): Blocks {
    if blocks == [] then map[] else ById(blocks[..|blocks| - 1])[blocks[|blocks| - 1].id := blocks[|blocks| - 1]]
  }

  predicate Touches(steps: seq<Step>, id: string) {
    exists s | s in steps :: Target(s) == id
  }

  /** Why a step is refused after the steps before it, each seen against the original blocks. */
  function StepRefusal(documentId: string, blocks: Blocks, earlier: seq<Step>, step: Step, hash: Hasher): Option<EditorError> {
    if step.Insert? && step.block.documentId != documentId then Some(DocumentIdConflict)
    else if Touches(earlier, Target(step)) then Some(BlockTouchedTwice)
    else
      match Effect(step, Lookup(blocks, Target(step)), hash)
      case Failure(error) => Some(error)
      case Success(_) => None
  }

  function StepsRefusal(documentId: string, blocks: Blocks, steps: seq<Step>, hash: Hasher): Option<EditorError> {
    if steps == [] then None
    else
      var earlier := steps[..|steps| - 1];
      match StepsRefusal(documentId, blocks, earlier, hash)
      case Some(error) => Some(error)
      case None => StepRefusal(documentId, blocks, earlier, steps[|steps| - 1], hash)
  }

  /** What a step leaves of its block in the original document. */
  function Left(blocks: Blocks, step: Step, hash: Hasher): Option<Block> {
    match Effect(step, Lookup(blocks, Target(step)), hash)
    case Failure(_) => None
    case Success(block) => block
  }

  function After(blocks: Blocks, steps: seq<Step>, hash: Hasher): Blocks {
    if steps == [] then blocks
    else Put(After(blocks, steps[..|steps| - 1], hash), Target(steps[|steps| - 1]), Left(blocks, steps[|steps| - 1], hash))
  }

  function ChangeOf(blocks: Blocks, step: Step, hash: Hasher): Change {
    Change(OperationOf(step), Target(step), Lookup(blocks, Target(step)), Left(blocks, step, hash))
  }

  function ChangesOf(blocks: Blocks, steps: seq<Step>, hash: Hasher): seq<Change> {
    seq(|steps|, i requires 0 <= i < |steps| => ChangeOf(blocks, steps[i], hash))
  }

  predicate KeysUnique(blocks: Blocks) {
    forall a, b | a in blocks && b in blocks && blocks[a].orderKey == blocks[b].orderKey :: a == b
  }

  function Refusal(document: Document, transaction: Transaction, hash: Hasher): Option<EditorError> {
    var blocks := ById(document.blocks);
    if transaction.steps == [] then Some(EmptyTransaction)
    else if transaction.documentId != document.documentId || transaction.expectedDocumentRevision != document.revision then
      Some(DocumentRevisionConflict)
    else
      match StepsRefusal(document.documentId, blocks, transaction.steps, hash)
      case Some(error) => Some(error)
      case None => if KeysUnique(After(blocks, transaction.steps, hash)) then None else Some(OrderKeyDuplicate)
  }

  // ----- The same, step order aside

  ghost predicate DistinctTargets(steps: seq<Step>) {
    forall i, j | 0 <= i < j < |steps| :: Target(steps[i]) != Target(steps[j])
  }

  /** The step can be applied to the document as it was. */
  predicate StepOk(documentId: string, blocks: Blocks, step: Step, hash: Hasher) {
    && (step.Insert? ==> step.block.documentId == documentId)
    && Effect(step, Lookup(blocks, Target(step)), hash).Success?
  }

  ghost predicate StepsOk(documentId: string, blocks: Blocks, steps: seq<Step>, hash: Hasher) {
    DistinctTargets(steps) && forall s | s in steps :: StepOk(documentId, blocks, s, hash)
  }

  /** `after` holds each touched block as its step left it and every other block unchanged. */
  ghost predicate IsAfter(blocks: Blocks, steps: seq<Step>, hash: Hasher, after: Blocks) {
    && (forall s | s in steps :: Lookup(after, Target(s)) == Left(blocks, s, hash))
    && (forall id | !Touches(steps, id) :: Lookup(after, id) == Lookup(blocks, id))
  }

  lemma DistinctGrows(earlier: seq<Step>, last: Step)
    ensures DistinctTargets(earlier + [last]) <==> DistinctTargets(earlier) && !Touches(earlier, Target(last))
  {
    var steps := earlier + [last];
    if DistinctTargets(steps) {
      forall i, j | 0 <= i < j < |earlier|
        ensures Target(earlier[i]) != Target(earlier[j])
      {
        assert Target(steps[i]) != Target(steps[j]);
      }
      forall s | s in earlier
        ensures Target(s) != Target(last)
      {
        var i :| 0 <= i < |earlier| && earlier[i] == s;
        assert Target(steps[i]) != Target(steps[|earlier|]);
      }
    }
    if DistinctTargets(earlier) && !Touches(earlier, Target(last)) {
      forall i, j | 0 <= i < j < |steps|
        ensures Target(steps[i]) != Target(steps[j])
      {
        assert earlier[i] in earlier;
      }
    }
  }

  /** The loop refuses exactly when two steps share a block or some step cannot be applied to the original. */
  lemma {:induction false} RefusedExactly(documentId: string, blocks: Blocks, steps: seq<Step>, hash: Hasher)
    ensures StepsRefusal(documentId, blocks, steps, hash) == None <==> StepsOk(documentId, blocks, steps, hash)
  {
    if steps != [] {
      var earlier, last := steps[..|steps| - 1], steps[|steps| - 1];
      RefusedExactly(documentId, blocks, earlier, hash);
      assert steps == earlier + [last];
      DistinctGrows(earlier, last);
      assert forall s :: s in steps <==> s in earlier || s == last;
    }
  }

  lemma {:induction false} AfterUntouched(blocks: Blocks, steps: seq<Step>, hash: Hasher, id: string)
    requires !Touches(steps, id)
    ensures Lookup(After(blocks, steps, hash), id) == Lookup(blocks, id)
  {
    if steps != [] {
      var earlier, last := steps[..|steps| - 1], steps[|steps| - 1];
      assert last in steps && forall s | s in earlier :: s in steps;
      AfterUntouched(blocks, earlier, hash, id);
    }
  }

  lemma {:induction false} AfterTouched(blocks: Blocks, steps: seq<Step>, hash: Hasher, i: nat)
    requires DistinctTargets(steps) && i < |steps|
    ensures Lookup(After(blocks, steps, hash), Target(steps[i])) == Left(blocks, steps[i], hash)
    decreases |steps|
  {
    if i < |steps| - 1 {
      AfterTouched(blocks, steps[..|steps| - 1], hash, i);
      assert Target(steps[i]) != Target(steps[|steps| - 1]);
    }
  }

  lemma AfterIs(blocks: Blocks, steps: seq<Step>, hash: Hasher)
    requires DistinctTargets(steps)
    ensures IsAfter(blocks, steps, hash, After(blocks, steps, hash))
  {
    forall s | s in steps
      ensures Lookup(After(blocks, steps, hash), Target(s)) == Left(blocks, s, hash)
    {
      var i :| 0 <= i < |steps| && steps[i] == s;
      AfterTouched(blocks, steps, hash, i);
    }
    forall id | !Touches(steps, id)
      ensures Lookup(After(blocks, steps, hash), id) == Lookup(blocks, id)
    {
      AfterUntouched(blocks, steps, hash, id);
    }
  }

  lemma AfterUnique(blocks: Blocks, steps: seq<Step>, hash: Hasher, a: Blocks, b: Blocks)
    requires IsAfter(blocks, steps, hash, a) && IsAfter(blocks, steps, hash, b)
    ensures a == b
  {
    forall id
      ensures Lookup(a, id) == Lookup(b, id)
    {
      if Touches(steps, id) {
        var s :| s in steps && Target(s) == id;
        assert Lookup(a, Target(s)) == Lookup(b, Target(s));
      }
    }
    assert forall id :: id in a <==> Lookup(a, id).Some?;
    assert forall id :: id in b <==> Lookup(b, id).Some?;
    assert a.Keys == b.Keys;
    assert forall id | id in a :: Lookup(a, id).value == Lookup(b, id).value;
  }

  lemma DistinctPermuted(s: seq<Step>, t: seq<Step>)
    requires multiset(s) == multiset(t) && DistinctTargets(s)
    ensures DistinctTargets(t)
  {
    assert NoRepeats(s);
    PermutationNoRepeats(s, t);
    SameMembers(s, t);
    forall i, j | 0 <= i < j < |t|
      ensures Target(t[i]) != Target(t[j])
    {
      assert t[i] in s && t[j] in s && t[i] != t[j];
      var a :| 0 <= a < |s| && s[a] == t[i];
      var b :| 0 <= b < |s| && s[b] == t[j];
      assert Target(s[if a < b then a else b]) != Target(s[if a < b then b else a]);
    }
  }

  lemma StepsOkPermuted(documentId: string, blocks: Blocks, s: seq<Step>, t: seq<Step>, hash: Hasher)
    requires multiset(s) == multiset(t) && StepsOk(documentId, blocks, s, hash)
    ensures StepsOk(documentId, blocks, t, hash) && After(blocks, s, hash) == After(blocks, t, hash)
  {
    DistinctPermuted(s, t);
    SameMembers(s, t);
    AfterIs(blocks, s, hash);
    AfterIs(blocks, t, hash);
    forall id
      ensures Touches(s, id) <==> Touches(t, id)
    {
    }
    AfterUnique(blocks, s, hash, After(blocks, s, hash), After(blocks, t, hash));
  }

  /** Every order of the steps succeeds or fails alike, and success leaves the same blocks. */
  lemma OrderIndependent(document: Document, transaction: Transaction, steps: seq<Step>, hash: Hasher)
    requires multiset(steps) == multiset(transaction.steps)
    ensures var other := transaction.(steps := steps);
            Refusal(document, transaction, hash) == None <==> Refusal(document, other, hash) == None
    ensures Refusal(document, transaction, hash) == None ==>
              After(ById(document.blocks), steps, hash) == After(ById(document.blocks), transaction.steps, hash)
  {
    var blocks := ById(document.blocks);
    RefusedExactly(document.documentId, blocks, steps, hash);
    RefusedExactly(document.documentId, blocks, transaction.steps, hash);
    SameMembers(steps, transaction.steps);
    if StepsOk(document.documentId, blocks, steps, hash) {
      StepsOkPermuted(document.documentId, blocks, steps, transaction.steps, hash);
    }
    if StepsOk(document.documentId, blocks, transaction.steps, hash) {
      StepsOkPermuted(document.documentId, blocks, transaction.steps, steps, hash);
    }
  }

  // ----- What a compiled transaction keeps

  /** Blocks no step names are unchanged, and so are blocks that were locked. */
  lemma UntouchedUnchanged(documentId: string, blocks: Blocks, steps: seq<Step>, hash: Hasher, id: string)
    requires StepsRefusal(documentId, blocks, steps, hash) == None
    requires !Touches(steps, id) || (id in blocks && blocks[id].locked)
    ensures Lookup(After(blocks, steps, hash), id) == Lookup(blocks, id)
  {
    RefusedExactly(documentId, blocks, steps, hash);
    AfterIs(blocks, steps, hash);
    forall s | s in steps
      ensures Target(s) != id
    {
      assert StepOk(documentId, blocks, s, hash);
    }
  }

  /** Stored under its own id, in its document, with the hash of its contents. */
  predicate BlockOk(documentId: string, id: string, block: Block, hash: Hasher) {
    && block.id == id && block.documentId == documentId
    && block.contentHash == hash(block.kind, block.content, block.plainText, block.locked)
  }

  predicate BlocksOk(documentId: string, blocks: Blocks, hash: Hasher) {
    forall id | id in blocks :: BlockOk(documentId, id, blocks[id], hash)
  }

  lemma StepKeepsHash(documentId: string, blocks: Blocks, step: Step, hash: Hasher)
    requires StepOk(documentId, blocks, step, hash) && BlocksOk(documentId, blocks, hash)
    ensures Left(blocks, step, hash).Some? ==> BlockOk(documentId, Target(step), Left(blocks, step, hash).value, hash)
  {
  }

  /** A compiled transaction keeps blocks under their ids, in their document, with true content hashes. */
  lemma HashesStayTrue(documentId: string, blocks: Blocks, steps: seq<Step>, hash: Hasher)
    requires StepsRefusal(documentId, blocks, steps, hash) == None && BlocksOk(documentId, blocks, hash)
    ensures BlocksOk(documentId, After(blocks, steps, hash), hash)
  {
    RefusedExactly(documentId, blocks, steps, hash);
    AfterIs(blocks, steps, hash);
    var after := After(blocks, steps, hash);
    forall id | id in after
      ensures BlockOk(documentId, id, after[id], hash)
    {
      assert Lookup(after, id) == Some(after[id]);
      if Touches(steps, id) {
        var s :| s in steps && Target(s) == id;
        StepKeepsHash(documentId, blocks, s, hash);
      } else {
        assert Lookup(after, id) == Lookup(blocks, id);
      }
    }
  }

  // ----- What each step leaves of its block

  lemma LeftAfter(documentId: string, blocks: Blocks, steps: seq<Step>, hash: Hasher, s: Step)
    requires StepsRefusal(documentId, blocks, steps, hash) == None && s in steps
    ensures StepOk(documentId, blocks, s, hash) && Lookup(After(blocks, steps, hash), Target(s)) == Left(blocks, s, hash)
  {
    RefusedExactly(documentId, blocks, steps, hash);
    AfterIs(blocks, steps, hash);
  }

  /** A replaced block has the new content, text and, if given, kind; key, document and lock stay. */
  lemma ReplaceLeaves(documentId: string, blocks: Blocks, steps: seq<Step>, hash: Hasher, s: Step)
    requires StepsRefusal(documentId, blocks, steps, hash) == None && s in steps && s.Replace?
    ensures var after := After(blocks, steps, hash);
      && s.blockId in blocks && s.blockId in after
      && var before, block := blocks[s.blockId], after[s.blockId];
         && block.content == s.nextContent && block.plainText == s.nextPlainText
         && block.kind == (match s.nextKind case Some(kind) => kind case None => before.kind)
         && block.id == before.id && block.documentId == before.documentId && block.orderKey == before.orderKey
         && block.locked == before.locked && block.revision == before.revision + 1
         && block.contentHash == hash(block.kind, block.content, block.plainText, block.locked)
  {
    LeftAfter(documentId, blocks, steps, hash, s);
  }

  /** A moved block has the new order key, one revision on, and is otherwise as it was. */
  lemma MoveLeaves(documentId: string, blocks: Blocks, steps: seq<Step>, hash: Hasher, s: Step)
    requires StepsRefusal(documentId, blocks, steps, hash) == None && s in steps && s.Move?
    ensures var after := After(blocks, steps, hash);
      && s.blockId in blocks && s.blockId in after
      && var before, block := blocks[s.blockId], after[s.blockId];
         block == Block(before.id, before.documentId, before.kind, s.nextOrderKey, before.content, before.plainText,
                        before.contentHash, before.revision + 1, before.locked)
  {
    LeftAfter(documentId, blocks, steps, hash, s);
  }

  /** An inserted block was not there and holds what was given, at revision 0. */
  lemma InsertLeaves(documentId: string, blocks: Blocks, steps: seq<Step>, hash: Hasher, s: Step)
    requires StepsRefusal(documentId, blocks, steps, hash) == None && s in steps && s.Insert?
    ensures var after, b := After(blocks, steps, hash), s.block;
      && b.documentId == documentId && b.id !in blocks && b.id in after
      && after[b.id] == Block(b.id, b.documentId, b.kind, b.orderKey, b.content, b.plainText,
                              hash(b.kind, b.content, b.plainText, b.locked), 0, b.locked)
  {
    LeftAfter(documentId, blocks, steps, hash, s);
  }

  /** A deleted block was there and is gone. */
  lemma DeleteLeaves(documentId: string, blocks: Blocks, steps: seq<Step>, hash: Hasher, s: Step)
    requires StepsRefusal(documentId, blocks, steps, hash) == None && s in steps && s.Delete?
    ensures s.blockId in blocks && s.blockId !in After(blocks, steps, hash)
  {
    LeftAfter(documentId, blocks, steps, hash, s);
  }

  /** The step names the block as it is: unlocked, at the revision and with the hash expected. */
  ghost predicate Writes(blocks: Blocks, id: string, revision: int, expected: string) {
    id in blocks && !blocks[id].locked && blocks[id].revision == revision && blocks[id].contentHash == expected
  }

  /** When a step can be applied to the document as it was. */
  lemma StepOkExactly(documentId: string, blocks: Blocks, s: Step, hash: Hasher)
    ensures StepOk(documentId, blocks, s, hash) <==>
      match s
      case Insert(block) => block.documentId == documentId && block.id !in blocks
      case Replace(id, revision, expected, _, _, _) => Writes(blocks, id, revision, expected)
      case Delete(id, revision, expected) => Writes(blocks, id, revision, expected)
      case Move(id, revision, expected, key) => Writes(blocks, id, revision, expected) && exists c :: c in key && !IsWhitespace(c)
  {
  }

  /** Why a step on a block cannot be applied: the first that holds of missing, locked, another revision, another hash. */
  lemma StepFails(blocks: Blocks, s: Step, hash: Hasher)
    ensures var before := Lookup(blocks, Target(s));
      var effect := Effect(s, before, hash);
      && (s.Insert? ==> (effect == Failure(BlockIdDuplicate) <==> Target(s) in blocks))
      && (!s.Insert? ==>
            && (effect == Failure(BlockNotFound) <==> Target(s) !in blocks)
            && (effect == Failure(BlockLocked) <==> Target(s) in blocks && blocks[Target(s)].locked)
            && (effect == Failure(BlockRevisionConflict) <==>
                  Target(s) in blocks && !blocks[Target(s)].locked && blocks[Target(s)].revision != s.expectedRevision)
            && (effect == Failure(BlockHashConflict) <==>
                  Target(s) in blocks && !blocks[Target(s)].locked && blocks[Target(s)].revision == s.expectedRevision
                  && blocks[Target(s)].contentHash != s.expectedHash))
      && (effect == Failure(OrderKeyDuplicate) ==> s.Move? && forall c | c in s.nextOrderKey :: IsWhitespace(c))
  {
  }

  /** Why a step is refused after others: another document, a block touched before, or its own reason. */
  lemma StepRefusalIs(documentId: string, blocks: Blocks, earlier: seq<Step>, s: Step, hash: Hasher)
    ensures var refusal, touched := StepRefusal(documentId, blocks, earlier, s, hash), exists e :: e in earlier && Target(e) == Target(s);
      && (refusal == Some(DocumentIdConflict) <==> s.Insert? && s.block.documentId != documentId)
      && (refusal == Some(BlockTouchedTwice) <==> !(s.Insert? && s.block.documentId != documentId) && touched)
      && (!touched && !(s.Insert? && s.block.documentId != documentId) ==>
            match Effect(s, Lookup(blocks, Target(s)), hash)
            case Failure(error) => refusal == Some(error)
            case Success(_) => refusal == None)
  {
  }

  /** Each change records its step: what it did, to which block, and that block before and after. */
  lemma ChangesAre(documentId: string, blocks: Blocks, steps: seq<Step>, hash: Hasher, i: nat)
    requires StepsRefusal(documentId, blocks, steps, hash) == None && i < |steps|
    ensures |ChangesOf(blocks, steps, hash)| == |steps|
    ensures var change := ChangesOf(blocks, steps, hash)[i];
      && change.blockId == Target(steps[i])
      && change.before == Lookup(blocks, change.blockId) && change.after == Lookup(After(blocks, steps, hash), change.blockId)
      && (change.operation == Created <==> steps[i].Insert?) && (change.operation == Updated <==> steps[i].Replace?)
      && (change.operation == Deleted <==> steps[i].Delete?) && (change.operation == Moved <==> steps[i].Move?)
  {
    LeftAfter(documentId, blocks, steps, hash, steps[i]);
  }

  ghost predicate LastOf(blocks: seq<Block>, i: int, id: string) {
    0 <= i < |blocks| && blocks[i].id == id && forall j | i < j < |blocks| :: blocks[j].id != id
  }

  /** The blocks of a document by id: the last of several with one id counts. */
  lemma {:induction false} ByIdIs(blocks: seq<Block>, id: string)
    ensures id in ById(blocks) <==> exists i :: 0 <= i < |blocks| && blocks[i].id == id
    ensures id in ById(blocks) ==>
      exists i :: 0 <= i < |blocks| && ById(blocks)[id] == blocks[i] && LastOf(blocks, i, id)
  {
    if blocks != [] {
      var init, last := blocks[..|blocks| - 1], blocks[|blocks| - 1];
      ByIdIs(init, id);
      assert forall i | 0 <= i < |init| :: init[i] == blocks[i];
      if last.id == id {
        assert LastOf(blocks, |blocks| - 1, id);
      } else if id in ById(init) {
        var i :| 0 <= i < |init| && ById(init)[id] == init[i] && LastOf(init, i, id);
        assert LastOf(blocks, i, id);
      }
    }
  }

  lemma {:induction false} StepsRefuseWith(documentId: string, blocks: Blocks, steps: seq<Step>, hash: Hasher)
    ensures StepsRefusal(documentId, blocks, steps, hash) != Some(EmptyTransaction)
    ensures StepsRefusal(documentId, blocks, steps, hash) != Some(DocumentRevisionConflict)
  {
    if steps != [] { StepsRefuseWith(documentId, blocks, steps[..|steps| - 1], hash); }
  }

  /** The order keys of different blocks differ. */
  ghost predicate KeysDiffer(blocks: Blocks) {
    forall a, b | a in blocks && b in blocks && a != b :: blocks[a].orderKey != blocks[b].orderKey
  }

  /** When a whole transaction is refused before any step is looked at, and when not at all. */
  lemma RefusalIs(document: Document, transaction: Transaction, hash: Hasher)
    ensures Refusal(document, transaction, hash) == Some(EmptyTransaction) <==> transaction.steps == []
    ensures Refusal(document, transaction, hash) == Some(DocumentRevisionConflict) <==>
      transaction.steps != [] && (transaction.documentId != document.documentId || transaction.expectedDocumentRevision != document.revision)
    ensures Refusal(document, transaction, hash) == None <==>
      && transaction.steps != [] && transaction.documentId == document.documentId
      && transaction.expectedDocumentRevision == document.revision
      && StepsOk(document.documentId, ById(document.blocks), transaction.steps, hash)
      && KeysDiffer(After(ById(document.blocks), transaction.steps, hash))
  {
    RefusedExactly(document.documentId, ById(document.blocks), transaction.steps, hash);
    StepsRefuseWith(document.documentId, ById(document.blocks), transaction.steps, hash);
  }

  lemma NotTwice(documentId: string, blocks: Blocks, step: Step, hash: Hasher)
    requires StepOk(documentId, blocks, step, hash)
    ensures Effect(step, Left(blocks, step, hash), hash).Failure?
  {
  }

  /** A transaction cannot be applied again to the blocks it left: every step of it is stale. */
  lemma NotReplayable(documentId: string, blocks: Blocks, steps: seq<Step>, hash: Hasher)
    requires steps != [] && StepsRefusal(documentId, blocks, steps, hash) == None
    ensures StepsRefusal(documentId, After(blocks, steps, hash), steps, hash) != None
    ensures forall s | s in steps :: !StepOk(documentId, After(blocks, steps, hash), s, hash)
  {
    var after := After(blocks, steps, hash);
    RefusedExactly(documentId, blocks, steps, hash);
    RefusedExactly(documentId, after, steps, hash);
    AfterIs(blocks, steps, hash);
    forall s | s in steps
      ensures !StepOk(documentId, after, s, hash)
    {
      assert StepOk(documentId, blocks, s, hash);
      NotTwice(documentId, blocks, s, hash);
    }
    assert steps[0] in steps;
  }

  /** Puts back what each change recorded, the last change first. */
  function Undo(blocks: Blocks, changes: seq<Change>): Blocks
    decreases |changes|
  {
    if changes == [] then blocks
    else Undo(Put(blocks, changes[|changes| - 1].blockId, changes[|changes| - 1].before), changes[..|changes| - 1])
  }

  lemma PutBack(blocks: Blocks, id: string, left: Option<Block>)
    ensures Put(Put(blocks, id, left), id, Lookup(blocks, id)) == blocks
  {
  }

  /** Undoing the last change is undoing the transaction without its last step. */
  lemma UndoLast(blocks: Blocks, steps: seq<Step>, hash: Hasher)
    requires steps != [] && DistinctTargets(steps[..|steps| - 1]) && !Touches(steps[..|steps| - 1], Target(steps[|steps| - 1]))
    ensures var earlier := steps[..|steps| - 1];
      Undo(After(blocks, steps, hash), ChangesOf(blocks, steps, hash)) == Undo(After(blocks, earlier, hash), ChangesOf(blocks, earlier, hash))
  {
    var earlier, last := steps[..|steps| - 1], steps[|steps| - 1];
    var middle := After(blocks, earlier, hash);
    AfterIs(blocks, earlier, hash);
    assert Lookup(middle, Target(last)) == Lookup(blocks, Target(last));
    PutBack(middle, Target(last), Left(blocks, last, hash));
    assert ChangesOf(blocks, steps, hash)[..|earlier|] == ChangesOf(blocks, earlier, hash);
  }

  /** Undoing the recorded changes restores the old blocks. */
  lemma {:induction false} UndoRestores(blocks: Blocks, steps: seq<Step>, hash: Hasher)
    requires DistinctTargets(steps)
    ensures Undo(After(blocks, steps, hash), ChangesOf(blocks, steps, hash)) == blocks
  {
    if steps != [] {
      var earlier, last := steps[..|steps| - 1], steps[|steps| - 1];
      assert steps == earlier + [last];
      DistinctGrows(earlier, last);
      UndoLast(blocks, steps, hash);
      UndoRestores(blocks, earlier, hash);
    }
  }

  // ----- Block order

  predicate BlockLe(locale: (string, string) -> bool, x: Block, y: Block) {
    if x.orderKey != y.orderKey then locale(x.orderKey, y.orderKey) else locale(x.id, y.id)
  }

  /** `s` lists the blocks, each once, by order key and id. */
  ghost predicate Lists(locale: (string, string) -> bool, blocks: Blocks, s: seq<Block>) {
    && NoRepeats(s) && (forall b :: b in s <==> b.id in blocks && blocks[b.id] == b)
    && Sorted((x, y) => BlockLe(locale, x, y), s)
  }

  lemma BlockOrdering(locale: (string, string) -> bool)
    requires StringOrder(locale)
    ensures Ordering((x, y) => BlockLe(locale, x, y))
  {
  }

  lemma ListsUnique(locale: (string, string) -> bool, blocks: Blocks, s: seq<Block>, t: seq<Block>)
    requires StringOrder(locale) && Lists(locale, blocks, s) && Lists(locale, blocks, t)
    ensures s == t
  {
    SameBag(s, t);
    forall x, y | x in s && y in s && BlockLe(locale, x, y) && BlockLe(locale, y, x)
      ensures x == y
    {
      assert x.orderKey == y.orderKey && x.id == y.id;
    }
    SortedUnique((x, y) => BlockLe(locale, x, y), s, t);
  }

  /** `[...blocks.values()].sort(compareBlocks)`. */
  method SortedBlocks(blocks: Blocks, locale: (string, string) -> bool) returns (s: seq<Block>)
    requires StringOrder(locale) && forall id | id in blocks :: blocks[id].id == id
    ensures Lists(locale, blocks, s)
  {
    var found: seq<Block> := [];
    var todo := blocks.Keys;
    while todo != {}
      invariant todo <= blocks.Keys && NoRepeats(found)
      invariant forall b :: b in found <==> b.id in blocks && b.id !in todo && blocks[b.id] == b
      decreases todo
    {
      var id :| id in todo;
      found := found + [blocks[id]];
      todo := todo - {id};
    }
    var le := (x, y) => BlockLe(locale, x, y);
    s := SortBy(le, found);
    BlockOrdering(locale);
    SortBySorts(le, found);
    SortByMembers(le, found);
    PermutationNoRepeats(found, s);
  }

  /** `assertUniqueOrderKeys`: only neighbours are compared, which is enough once the blocks are sorted. */
  method UniqueOrderKeys(blocks: Blocks, s: seq<Block>, locale: (string, string) -> bool) returns (ok: bool)
    requires StringOrder(locale) && Lists(locale, blocks, s) && forall id | id in blocks :: blocks[id].id == id
    ensures ok == KeysUnique(blocks)
  {
    var i := 1;
    while i < |s|
      invariant forall j | 1 <= j < i && j < |s| :: s[j - 1].orderKey != s[j].orderKey
    {
      if s[i - 1].orderKey == s[i].orderKey {
        assert s[i - 1] in s && s[i] in s && s[i - 1] != s[i];
        return false;
      }
      i := i + 1;
    }
    NeighboursDiffer(s, locale);
    forall a, b | a in blocks && b in blocks && blocks[a].orderKey == blocks[b].orderKey
      ensures a == b
    {
      var i :| 0 <= i < |s| && s[i] == blocks[a];
      var j :| 0 <= j < |s| && s[j] == blocks[b];
      assert i == j;
    }
    return true;
  }

  lemma NeighboursDiffer(s: seq<Block>, locale: (string, string) -> bool)
    requires StringOrder(locale) && Sorted((x, y) => BlockLe(locale, x, y), s)
    requires forall j | 1 <= j < |s| :: s[j - 1].orderKey != s[j].orderKey
    ensures forall i, j | 0 <= i < j < |s| :: s[i].orderKey != s[j].orderKey
  {
    forall i, j | 0 <= i < j < |s|
      ensures s[i].orderKey != s[j].orderKey
    {
      var le := (x, y) => BlockLe(locale, x, y);
      assert le(s[i], s[i + 1]) && (i + 1 < j ==> le(s[i + 1], s[j]));
      assert s[i].orderKey != s[i + 1].orderKey;
    }
  }

  // ----- The compiler

  lemma {:induction false} ByIdKeyed(blocks: seq<Block>)
    ensures forall id | id in ById(blocks) :: ById(blocks)[id].id == id
  {
    if blocks != [] { ByIdKeyed(blocks[..|blocks| - 1]); }
  }

  lemma AfterKeyed(documentId: string, blocks: Blocks, steps: seq<Step>, hash: Hasher)
    requires StepsRefusal(documentId, blocks, steps, hash) == None && forall id | id in blocks :: blocks[id].id == id
    ensures forall id | id in After(blocks, steps, hash) :: After(blocks, steps, hash)[id].id == id
    decreases |steps|
  {
    if steps != [] {
      AfterKeyed(documentId, blocks, steps[..|steps| - 1], hash);
    }
  }

  /** The loop over the steps. */
  method ApplySteps(documentId: string, original: Blocks, steps: seq<Step>, hash: Hasher)
    returns (r: Result<(Blocks, seq<Change>), EditorError>)
    ensures StepsRefusal(documentId, original, steps, hash) == if r.Failure? then Some(r.error) else None
    ensures r.Success? ==> r.value.0 == After(original, steps, hash) && r.value.1 == ChangesOf(original, steps, hash)
  {
    var blocks, touched, changes := original, {}, [];
    for i := 0 to |steps|
      invariant TouchedAre(touched, steps[..i])
      invariant StepsRefusal(documentId, original, steps[..i], hash) == None
      invariant blocks == After(original, steps[..i], hash) && changes == ChangesOf(original, steps[..i], hash)
    {
      var step := steps[i];
      var id := Target(step);
      StepTaken(documentId, original, steps, i, hash);
      TouchesGrows(touched, steps, i);
      if step.Insert? && step.block.documentId != documentId {
        RefusedAt(documentId, original, steps, i, hash);
        return Failure(DocumentIdConflict);
      }
      if id in touched {
        RefusedAt(documentId, original, steps, i, hash);
        return Failure(BlockTouchedTwice);
      }
      StepMeetsOriginal(documentId, original, steps, i, hash);
      match Effect(step, Lookup(blocks, id), hash) {
        case Failure(error) =>
          RefusedAt(documentId, original, steps, i, hash);
          return Failure(error);
        case Success(after) =>
          assert after == Left(original, step, hash);
          changes := changes + [Change(OperationOf(step), id, Lookup(blocks, id), after)];
          blocks, touched := Put(blocks, id, after), touched + {id};
      }
    }
    assert steps[..|steps|] == steps;
    return Success((blocks, changes));
  }

  /** The ids touched so far. */
  ghost predicate TouchedAre(touched: set<string>, steps: seq<Step>) {
    forall id :: id in touched <==> Touches(steps, id)
  }

  lemma TouchesGrows(touched: set<string>, steps: seq<Step>, i: nat)
    requires i < |steps| && TouchedAre(touched, steps[..i])
    ensures Target(steps[i]) in touched <==> Touches(steps[..i], Target(steps[i]))
    ensures TouchedAre(touched + {Target(steps[i])}, steps[..i + 1])
  {
    forall id
      ensures Touches(steps[..i + 1], id) <==> Touches(steps[..i], id) || id == Target(steps[i])
    {
      assert forall s :: s in steps[..i + 1] <==> s in steps[..i] || s == steps[i];
    }
  }

  /** A step that is not refused meets its block as the document had it. */
  lemma StepMeetsOriginal(documentId: string, blocks: Blocks, steps: seq<Step>, i: nat, hash: Hasher)
    requires i < |steps| && StepsRefusal(documentId, blocks, steps[..i], hash) == None && !Touches(steps[..i], Target(steps[i]))
    ensures Lookup(After(blocks, steps[..i], hash), Target(steps[i])) == Lookup(blocks, Target(steps[i]))
  {
    RefusedExactly(documentId, blocks, steps[..i], hash);
    AfterIs(blocks, steps[..i], hash);
  }

  lemma StepTaken(documentId: string, blocks: Blocks, steps: seq<Step>, i: nat, hash: Hasher)
    requires i < |steps| && StepsRefusal(documentId, blocks, steps[..i], hash) == None
    ensures StepsRefusal(documentId, blocks, steps[..i + 1], hash) == StepRefusal(documentId, blocks, steps[..i], steps[i], hash)
    ensures After(blocks, steps[..i + 1], hash) == Put(After(blocks, steps[..i], hash), Target(steps[i]), Left(blocks, steps[i], hash))
    ensures ChangesOf(blocks, steps[..i + 1], hash) == ChangesOf(blocks, steps[..i], hash) + [ChangeOf(blocks, steps[i], hash)]
  {
    assert steps[..i + 1][..i] == steps[..i];
  }

  lemma {:induction false} RefusedAt(documentId: string, blocks: Blocks, steps: seq<Step>, i: nat, hash: Hasher)
    requires i < |steps| && StepsRefusal(documentId, blocks, steps[..i + 1], hash).Some?
    ensures StepsRefusal(documentId, blocks, steps, hash) == StepsRefusal(documentId, blocks, steps[..i + 1], hash)
    decreases |steps|
  {
    if i + 1 < |steps| {
      assert steps[..|steps| - 1][..i + 1] == steps[..i + 1];
      RefusedAt(documentId, blocks, steps[..|steps| - 1], i, hash);
    } else {
      assert steps[..i + 1] == steps;
    }
  }

  /** `compileEditorTransaction`. */
  method CompileEditorTransaction(document: Document, transaction: Transaction, hash: Hasher, locale: (string, string) -> bool)
    returns (r: Result<Compiled, EditorError>)
    requires StringOrder(locale)
    ensures Refusal(document, transaction, hash) == if r.Failure? then Some(r.error) else None
    ensures r.Success? ==>
              && r.value.id == transaction.id && r.value.documentId == document.documentId
              && r.value.changes == ChangesOf(ById(document.blocks), transaction.steps, hash)
              && r.value.nextDocument.documentId == document.documentId
              && r.value.nextDocument.revision == document.revision + 1
              && Lists(locale, After(ById(document.blocks), transaction.steps, hash), r.value.nextDocument.blocks)
  {
    if |transaction.steps| == 0 { return Failure(EmptyTransaction); }
    if transaction.documentId != document.documentId || transaction.expectedDocumentRevision != document.revision {
      return Failure(DocumentRevisionConflict);
    }
    var original := ById(document.blocks);
    var applied := ApplySteps(document.documentId, original, transaction.steps, hash);
    if applied.Failure? { return Failure(applied.error); }
    var (blocks, changes) := applied.value;
    ByIdKeyed(document.blocks);
    AfterKeyed(document.documentId, original, transaction.steps, hash);
    var next := SortedBlocks(blocks, locale);
    var ok := UniqueOrderKeys(blocks, next, locale);
    if !ok { return Failure(OrderKeyDuplicate); }
    return Success(Compiled(transaction.id, document.documentId, changes, Document(document.documentId, document.revision + 1, next)));
  }

  /** Two compilations of the same steps in different orders give one next document. */
  lemma SameNextDocument(
    document: Document, transaction: Transaction, steps: seq<Step>, hash: Hasher, locale: (string, string) -> bool,
    one: seq<Block>, other: seq<Block>)
    requires StringOrder(locale) && multiset(steps) == multiset(transaction.steps) && Refusal(document, transaction, hash) == None
    requires Lists(locale, After(ById(document.blocks), transaction.steps, hash), one)
    requires Lists(locale, After(ById(document.blocks), steps, hash), other)
    ensures one == other
  {
    OrderIndependent(document, transaction, steps, hash);
    ListsUnique(locale, After(ById(document.blocks), steps, hash), one, other);
  }
}
