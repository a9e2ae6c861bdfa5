/**
 The bytes behind the document and project hashes (`workspace_commands.rs`). A string stands for its
 UTF-8 bytes, one character a byte; the hash itself is a parameter.
 */
module RootHash {
  import opened Common
  import opened Sorting
  import opened Decimal
  import Lex

  datatype DocumentState = DocumentState(id: string, parent: Option<string>, kind: string, title: string, orderKey: string)

  datatype Block = Block(id: string, contentHash: string)

  datatype Entry = Entry(entity: string, stateHash: string)

  const STATE_TAG := "optimizer-document-state-v1\0"
  const ROOT_TAG := "optimizer-project-root-v2\0"

  // ----- One field

  /** Length in decimal, a colon, the bytes. */
  function Field(value: string): string { DecimalOf(|value|) + ":" + value }

  /** `append_hash_field`. */
  method AppendHashField(payload: string, value: string) returns (longer: string)
    ensures longer == payload + Field(value)
  {
    longer := payload + DecimalOf(|value|);
    longer := longer + ":";
    longer := longer + value;
    assert longer == payload + (DecimalOf(|value|) + ":" + value);
  }

  /** The first colon ends the numeral. */
  lemma FirstColon(s: string, x: string)
    requires Numeral(s)
    ensures (s + ":" + x)[|s|] == ':' && forall i | 0 <= i < |s| :: (s + ":" + x)[i] != ':'
  {
    forall i | 0 <= i < |s|
      ensures (s + ":" + x)[i] != ':'
    {
      assert s[i] in s;
    }
  }

  lemma NumeralEnds(s: string, t: string, x: string, y: string)
    requires Numeral(s) && Numeral(t) && s + ":" + x == t + ":" + y
    ensures s == t
  {
    FirstColon(s, x);
    FirstColon(t, y);
    assert (s + ":" + x)[..|s|] == s && (t + ":" + y)[..|t|] == t;
  }

  /** A field can be read off the front of any bytes in one way only. */
  lemma FieldReads(a: string, b: string, x: string, y: string)
    requires Field(a) + x == Field(b) + y
    ensures a == b && x == y
  {
    var m, n := DecimalOf(|a|), DecimalOf(|b|);
    assert Field(a) + x == m + ":" + (a + x) && Field(b) + y == n + ":" + (b + y);
    NumeralEnds(m, n, a + x, b + y);
    ValueOfDecimal(|a|);
    ValueOfDecimal(|b|);
    var whole := Field(a) + x;
    assert |Field(a)| == |m| + 1 + |a| == |Field(b)|;
    assert whole[..|Field(a)|] == Field(a) && whole[|Field(a)|..] == x;
    assert whole[..|Field(b)|] == Field(b) && whole[|Field(b)|..] == y;
    FieldValue(a);
    FieldValue(b);
  }

  lemma FieldValue(a: string)
    ensures Field(a)[|DecimalOf(|a|)| + 1..] == a
  {
  }

  // ----- A document

  function ParentBytes(parent: Option<string>): string {
    match parent
    case Some(p) => "\U{1}" + Field(p)
    case None => "\0"
  }

  function ActiveByte(active: bool): string { if active then "\U{1}" else "\0" }

  /** Everything after the parent. */
  function StateTail(d: DocumentState, active: bool): string {
    Field(d.kind) + (Field(d.title) + (Field(d.orderKey) + ActiveByte(active)))
  }

  function StatePayload(d: DocumentState, active: bool): string {
    STATE_TAG + (Field(d.id) + (ParentBytes(d.parent) + StateTail(d, active)))
  }

  /** The optional parent field. */
  method AppendParent(payload: string, parent: Option<string>) returns (longer: string)
    ensures longer == payload + ParentBytes(parent)
  {
    match parent {
      case Some(p) =>
        longer := payload + "\U{1}";
        longer := AppendHashField(longer, p);
        assert longer == payload + ("\U{1}" + Field(p));
      case None => longer := payload + "\0";
    }
  }

  /** The bytes `document_state_hash` hashes. */
  method DocumentStatePayload(d: DocumentState, active: bool) returns (payload: string)
    ensures payload == StatePayload(d, active)
  {
    payload := AppendHashField(STATE_TAG, d.id);
    payload := AppendParent(payload, d.parent);
    ghost var head := payload;
    payload := AppendHashField(payload, d.kind);
    payload := AppendHashField(payload, d.title);
    payload := AppendHashField(payload, d.orderKey);
    payload := payload + ActiveByte(active);
    RegroupTail(head, Field(d.kind), Field(d.title), Field(d.orderKey), ActiveByte(active));
    RegroupHead(STATE_TAG, Field(d.id), ParentBytes(d.parent), StateTail(d, active));
  }

  lemma RegroupTail(a: string, b: string, c: string, d: string, e: string)
    ensures a + b + c + d + e == a + (b + (c + (d + e)))
  {
    assert a + b + c + d + e == a + (b + c + d + e);
    assert b + c + d + e == b + (c + (d + e));
  }

  lemma RegroupHead(a: string, b: string, c: string, d: string)
    ensures a + b + c + d == a + (b + (c + d))
  {
  }

  lemma SameFront(tag: string, x: string, y: string)
    requires tag + x == tag + y
    ensures x == y
  {
    assert (tag + x)[|tag|..] == x && (tag + y)[|tag|..] == y;
  }

  lemma SameKind(p: Option<string>, q: Option<string>, x: string, y: string)
    requires ParentBytes(p) + x == ParentBytes(q) + y
    ensures p.Some? == q.Some?
  {
    assert (ParentBytes(p) + x)[0] == ParentBytes(p)[0] && (ParentBytes(q) + y)[0] == ParentBytes(q)[0];
  }

  lemma ParentReads(p: Option<string>, q: Option<string>, x: string, y: string)
    requires ParentBytes(p) + x == ParentBytes(q) + y
    ensures p == q && x == y
  {
    SameKind(p, q, x, y);
    if p.Some? {
      Associate("\U{1}", Field(p.value), x);
      Associate("\U{1}", Field(q.value), y);
      SameFront("\U{1}", Field(p.value) + x, Field(q.value) + y);
      FieldReads(p.value, q.value, x, y);
    } else {
      SameFront("\0", x, y);
    }
  }

  /** The state bytes determine id, parent, kind, title, order key and the active flag. */
  lemma StateReads(d: DocumentState, a: bool, e: DocumentState, b: bool)
    requires StatePayload(d, a) == StatePayload(e, b)
    ensures d == e && a == b
  {
    var s, t := StateTail(d, a), StateTail(e, b);
    SameFront(STATE_TAG, Field(d.id) + (ParentBytes(d.parent) + s), Field(e.id) + (ParentBytes(e.parent) + t));
    FieldReads(d.id, e.id, ParentBytes(d.parent) + s, ParentBytes(e.parent) + t);
    ParentReads(d.parent, e.parent, s, t);
    var u, v := Field(d.orderKey) + ActiveByte(a), Field(e.orderKey) + ActiveByte(b);
    FieldReads(d.kind, e.kind, Field(d.title) + u, Field(e.title) + v);
    FieldReads(d.title, e.title, u, v);
    FieldReads(d.orderKey, e.orderKey, ActiveByte(a), ActiveByte(b));
    assert ActiveByte(a)[0] == ActiveByte(b)[0];
  }

  // ----- A project

  const DOCUMENT := "document:"
  const BLOCK := "block:"

  function DocumentEntry(d: DocumentState, hash: string -> string): Entry {
    Entry(DOCUMENT + d.id, hash(StatePayload(d, true)))
  }

  function BlockEntry(b: Block): Entry { Entry(BLOCK + b.id, b.contentHash) }

  function Entries(ds: seq<DocumentState>, bs: seq<Block>, hash: string -> string): seq<Entry> {
    seq(|ds|, i requires 0 <= i < |ds| => DocumentEntry(ds[i], hash)) + seq(|bs|, i requires 0 <= i < |bs| => BlockEntry(bs[i]))
  }

  predicate ByEntity(x: Entry, y: Entry) { Lex.Le(x.entity, y.entity) }

  function EntryBytes(entries: seq<Entry>): string {
    if entries == [] then ""
    else Field(entries[0].entity) + (Field(entries[0].stateHash) + EntryBytes(entries[1..]))
  }

  function RootPayload(entries: seq<Entry>): string { ROOT_TAG + EntryBytes(SortBy(ByEntity, entries)) }

  lemma {:induction false} EntryBytesAppend(entries: seq<Entry>, e: Entry)
    ensures EntryBytes(entries + [e]) == EntryBytes(entries) + (Field(e.entity) + Field(e.stateHash))
  {
    if entries == [] {
      assert [] + [e] == [e];
      assert EntryBytes([e]) == Field(e.entity) + (Field(e.stateHash) + "");
    } else {
      assert (entries + [e])[1..] == entries[1..] + [e];
      EntryBytesAppend(entries[1..], e);
      Reassociate(Field(entries[0].entity), Field(entries[0].stateHash), EntryBytes(entries[1..]), Field(e.entity) + Field(e.stateHash));
    }
  }

  lemma Reassociate(a: string, b: string, c: string, d: string)
    ensures a + (b + (c + d)) == (a + (b + c)) + d
  {
  }

  method AppendEntry(payload: string, e: Entry) returns (longer: string)
    ensures longer == payload + (Field(e.entity) + Field(e.stateHash))
  {
    longer := AppendHashField(payload, e.entity);
    longer := AppendHashField(longer, e.stateHash);
  }

  lemma OneMoreEntry(payload: string, entries: seq<Entry>, i: nat)
    requires i < |entries| && payload == ROOT_TAG + EntryBytes(entries[..i])
    ensures payload + (Field(entries[i].entity) + Field(entries[i].stateHash)) == ROOT_TAG + EntryBytes(entries[..i + 1])
  {
    assert entries[..i + 1] == entries[..i] + [entries[i]];
    EntryBytesAppend(entries[..i], entries[i]);
    Associate(ROOT_TAG, EntryBytes(entries[..i]), Field(entries[i].entity) + Field(entries[i].stateHash));
  }

  lemma Associate(a: string, b: string, c: string)
    ensures a + b + c == a + (b + c)
  {
  }

  method WriteEntries(entries: seq<Entry>) returns (payload: string)
    ensures payload == ROOT_TAG + EntryBytes(entries)
  {
    payload := ROOT_TAG;
    for i := 0 to |entries|
      invariant payload == ROOT_TAG + EntryBytes(entries[..i])
    {
      OneMoreEntry(payload, entries, i);
      payload := AppendEntry(payload, entries[i]);
    }
    assert entries[..|entries|] == entries;
  }

  /** The bytes `project_root_hash` hashes. */
  method ProjectRootPayload(ds: seq<DocumentState>, bs: seq<Block>, hash: string -> string) returns (payload: string)
    ensures payload == RootPayload(Entries(ds, bs, hash))
  {
    payload := WriteEntries(SortBy(ByEntity, Entries(ds, bs, hash)));
  }

  lemma {:induction false} EntriesRead(s: seq<Entry>, t: seq<Entry>)
    requires EntryBytes(s) == EntryBytes(t)
    ensures s == t
  {
    if s != [] && t != [] {
      FieldReads(s[0].entity, t[0].entity, Field(s[0].stateHash) + EntryBytes(s[1..]), Field(t[0].stateHash) + EntryBytes(t[1..]));
      FieldReads(s[0].stateHash, t[0].stateHash, EntryBytes(s[1..]), EntryBytes(t[1..]));
      EntriesRead(s[1..], t[1..]);
      assert s == [s[0]] + s[1..] && t == [t[0]] + t[1..];
    }
  }

  /** Equal root bytes mean equal entries, with multiplicity. */
  lemma RootReads(s: seq<Entry>, t: seq<Entry>)
    requires RootPayload(s) == RootPayload(t)
    ensures multiset(s) == multiset(t)
  {
    SameFront(ROOT_TAG, EntryBytes(SortBy(ByEntity, s)), EntryBytes(SortBy(ByEntity, t)));
    EntriesRead(SortBy(ByEntity, s), SortBy(ByEntity, t));
  }

  ghost predicate DistinctEntities(entries: seq<Entry>) {
    forall i, j | 0 <= i < j < |entries| :: entries[i].entity != entries[j].entity
  }

  /** With distinct ids the root bytes say exactly which entries there are, whatever their order. */
  lemma RootExactly(s: seq<Entry>, t: seq<Entry>)
    requires DistinctEntities(s)
    ensures RootPayload(s) == RootPayload(t) <==> multiset(s) == multiset(t)
  {
    if multiset(s) == multiset(t) {
      Lex.IsOrdering();
      SortByPermutation(ByEntity, s, t);
    } else if RootPayload(s) == RootPayload(t) {
      RootReads(s, t);
    }
  }

  // ----- What the root bytes say about the project

  ghost predicate DistinctIds(ds: seq<DocumentState>, bs: seq<Block>) {
    && (forall i, j | 0 <= i < j < |ds| :: ds[i].id != ds[j].id)
    && (forall i, j | 0 <= i < j < |bs| :: bs[i].id != bs[j].id)
  }

  lemma PrefixesDiffer(x: string, y: string)
    ensures DOCUMENT + x != BLOCK + y
  {
    assert (DOCUMENT + x)[0] == 'd' && (BLOCK + y)[0] == 'b';
  }

  /** Ids of documents and blocks never clash with each other. */
  lemma IdsMakeEntities(ds: seq<DocumentState>, bs: seq<Block>, hash: string -> string)
    requires DistinctIds(ds, bs)
    ensures DistinctEntities(Entries(ds, bs, hash))
  {
    var entries := Entries(ds, bs, hash);
    forall i, j | 0 <= i < j < |entries|
      ensures entries[i].entity != entries[j].entity
    {
      if j < |ds| {
        if entries[i].entity == entries[j].entity { SameFront(DOCUMENT, ds[i].id, ds[j].id); }
      } else if i < |ds| {
        PrefixesDiffer(ds[i].id, bs[j - |ds|].id);
      } else if entries[i].entity == entries[j].entity {
        SameFront(BLOCK, bs[i - |ds|].id, bs[j - |ds|].id);
      }
    }
  }

  /** Of the payloads that occur in the two projects, no two different ones have the same hash. */
  ghost predicate NoCollision(ds: seq<DocumentState>, es: seq<DocumentState>, hash: string -> string) {
    forall d, e | d in ds + es && e in ds + es && hash(StatePayload(d, true)) == hash(StatePayload(e, true)) ::
      StatePayload(d, true) == StatePayload(e, true)
  }

  lemma ListedDocument(ds: seq<DocumentState>, bs: seq<Block>, hash: string -> string, d: DocumentState, i: nat)
    requires i < |ds| + |bs| && Entries(ds, bs, hash)[i] == DocumentEntry(d, hash)
    ensures i < |ds| && hash(StatePayload(ds[i], true)) == hash(StatePayload(d, true))
  {
    if i >= |ds| { PrefixesDiffer(d.id, bs[i - |ds|].id); }
  }

  /** A document of one project is listed in the other. */
  lemma DocumentFound(
    ds: seq<DocumentState>, bs: seq<Block>, es: seq<DocumentState>, cs: seq<Block>, hash: string -> string, d: DocumentState)
    requires NoCollision(ds, es, hash) && d in ds
    requires multiset(Entries(ds, bs, hash)) == multiset(Entries(es, cs, hash))
    ensures d in es
  {
    var s, t := Entries(ds, bs, hash), Entries(es, cs, hash);
    SameMembers(s, t);
    var k :| 0 <= k < |ds| && ds[k] == d;
    assert s[k] == DocumentEntry(d, hash) && s[k] in s;
    var i :| 0 <= i < |t| && t[i] == DocumentEntry(d, hash);
    ListedDocument(es, cs, hash, d, i);
    assert es[i] in ds + es && d in ds + es;
    StateReads(es[i], true, d, true);
  }

  lemma ListedBlock(ds: seq<DocumentState>, bs: seq<Block>, hash: string -> string, b: Block, i: nat)
    requires i < |ds| + |bs| && Entries(ds, bs, hash)[i] == BlockEntry(b)
    ensures b in bs
  {
    if i < |ds| {
      PrefixesDiffer(ds[i].id, b.id);
    } else {
      SameFront(BLOCK, bs[i - |ds|].id, b.id);
    }
  }

  lemma BlockListed(ds: seq<DocumentState>, bs: seq<Block>, hash: string -> string, b: Block)
    ensures b in bs <==> BlockEntry(b) in Entries(ds, bs, hash)
  {
    var entries := Entries(ds, bs, hash);
    if b in bs {
      var i :| 0 <= i < |bs| && bs[i] == b;
      assert entries[|ds| + i] == BlockEntry(b);
    }
    if BlockEntry(b) in entries {
      var i :| 0 <= i < |entries| && entries[i] == BlockEntry(b);
      ListedBlock(ds, bs, hash, b, i);
    }
  }

  /**
   Equal root bytes mean the same documents and blocks, unless two different payloads among those of the
   two projects have the same hash.
   */
  lemma RootDetermines(
    ds: seq<DocumentState>, bs: seq<Block>, es: seq<DocumentState>, cs: seq<Block>, hash: string -> string)
    requires NoCollision(ds, es, hash)
    requires RootPayload(Entries(ds, bs, hash)) == RootPayload(Entries(es, cs, hash))
    ensures forall d :: d in ds <==> d in es
    ensures forall b :: b in bs <==> b in cs
  {
    var s, t := Entries(ds, bs, hash), Entries(es, cs, hash);
    RootReads(s, t);
    SameMembers(s, t);
    assert NoCollision(es, ds, hash);
    forall d
      ensures d in ds <==> d in es
    {
      if d in ds { DocumentFound(ds, bs, es, cs, hash, d); }
      if d in es { DocumentFound(es, cs, ds, bs, hash, d); }
    }
    forall b
      ensures b in bs <==> b in cs
    {
      BlockListed(ds, bs, hash, b);
      BlockListed(es, cs, hash, b);
    }
  }

  // ----- The bytes of two small examples

  lemma ShortFields()
    ensures Field("d") == "1:d" && Field("p") == "1:p" && Field("note") == "4:note" && Field("T") == "1:T" && Field("a") == "1:a"
  {
    assert DecimalOf(1) == "1" && DecimalOf(4) == "4";
  }

  /** An active document under a parent, and the same one archived and without a parent. */
  lemma StatePayloadIs()
    ensures StatePayload(DocumentState("d", Some("p"), "note", "T", "a"), true)
      == "optimizer-document-state-v1\0" + "1:d\U{1}1:p4:note1:T1:a\U{1}"
    ensures StatePayload(DocumentState("d", None, "note", "T", "a"), false)
      == "optimizer-document-state-v1\0" + "1:d\0" + "4:note1:T1:a\0"
  {
    ShortFields();
  }

  lemma EntityFields()
    ensures Field("block:b") == "7:block:b" && Field("h") == "1:h" && Field("document:d") == "10:document:d" && Field("s") == "1:s"
  {
    assert DecimalOf(1) == "1" && DecimalOf(7) == "7" && DecimalOf(10) == DecimalOf(1) + "0";
  }

  lemma OneEntry(e: Entry)
    ensures RootPayload([e]) == ROOT_TAG + (Field(e.entity) + Field(e.stateHash))
  {
    var s := SortBy(ByEntity, [e]);
    assert |s| == 1 && s[0] in multiset(s) && s == [s[0]] && s[0] == e;
    assert EntryBytes([e]) == Field(e.entity) + (Field(e.stateHash) + EntryBytes([e][1..]));
    assert EntryBytes([e][1..]) == "" && Field(e.stateHash) + "" == Field(e.stateHash);
  }

  /** A project of one block, and one of one document whose state hash is `s`. */
  lemma RootPayloadIs(d: DocumentState, hash: string -> string)
    requires d.id == "d" && hash(StatePayload(d, true)) == "s"
    ensures RootPayload(Entries([], [Block("b", "h")], hash)) == "optimizer-project-root-v2\0" + "7:block:b1:h"
    ensures RootPayload(Entries([d], [], hash)) == "optimizer-project-root-v2\0" + "10:document:d1:s"
  {
    EntityFields();
    assert BLOCK + "b" == "block:b" && DOCUMENT + "d" == "document:d";
    assert Entries([], [Block("b", "h")], hash) == [Entry("block:b", "h")];
    assert Entries([d], [], hash) == [Entry("document:d", "s")];
    OneEntry(Entry("block:b", "h"));
    OneEntry(Entry("document:d", "s"));
  }
}
