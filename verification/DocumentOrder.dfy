/** Order keys (`workspace_commands.rs`): numbering a sibling group afresh, and appending to one. */
module DocumentOrder {
  import opened Common
  import opened Sorting
  import opened Decimal
  import opened DocumentForest
  import Lex

  // ----- Numbering a group

  function NumberedKey(i: nat, token: string): string { "d-" + Format8(i) + "-" + token }

  function IndexOf(ids: seq<string>, id: string): (i: nat)
    requires id in ids
    ensures i < |ids| && ids[i] == id
  {
    if ids[0] == id then 0 else 1 + IndexOf(ids[1..], id)
  }

  function Renumbered(ids: seq<string>, id: string, document: Document, token: string): Document
    requires id in ids
  {
    document.(orderKey := NumberedKey(IndexOf(ids, id), token))
  }

  /** The listed documents get the keys of their positions. */
  function Rekeyed(docs: Documents, ids: seq<string>, token: string): Documents {
    map id | id in docs :: if id in ids then Renumbered(ids, id, docs[id], token) else docs[id]
  }

  lemma IndexOfAt(ids: seq<string>, i: nat)
    requires NoRepeats(ids) && i < |ids|
    ensures IndexOf(ids, ids[i]) == i
  {
  }

  /** `rekey_documents`. */
  method RekeyDocuments(docs: Documents, ids: seq<string>, token: string) returns (after: Documents)
    requires NoRepeats(ids) && forall id | id in ids :: id in docs
    ensures after == Rekeyed(docs, ids, token)
  {
    after := docs;
    for i := 0 to |ids|
      invariant after.Keys == docs.Keys
      invariant forall id | id in docs :: after[id] == if id in ids[..i] then Renumbered(ids, id, docs[id], token) else docs[id]
    {
      IndexOfAt(ids, i);
      assert ids[..i + 1] == ids[..i] + [ids[i]];
      after := after[ids[i] := after[ids[i]].(orderKey := NumberedKey(i, token))];
    }
    assert ids[..|ids|] == ids;
  }

  lemma NumberedKeyOrder(i: nat, j: nat, token: string)
    requires i < j < 100_000_000
    ensures Lex.Lt(NumberedKey(i, token), NumberedKey(j, token))
  {
    var u := "-" + token;
    Format8Order(i, j);
    Format8Length(i);
    Format8Length(j);
    Lex.Decided(Format8(i), Format8(j), u, u);
    Lex.CommonPrefix("d-", Format8(i) + u, Format8(j) + u);
    assert NumberedKey(i, token) == "d-" + (Format8(i) + u) && NumberedKey(j, token) == "d-" + (Format8(j) + u);
  }

  lemma SameMiddle(p: string, s: string, t: string, u: string)
    requires p + s + u == p + t + u
    ensures s == t
  {
    var whole := p + s + u;
    assert |s| == |whole| - |p| - |u| == |t|;
    assert whole[|p|..|p| + |s|] == s;
    assert whole[|p|..|p| + |t|] == t;
  }

  lemma NumberedKeyInjective(i: nat, j: nat, token: string)
    requires NumberedKey(i, token) == NumberedKey(j, token)
    ensures i == j
  {
    assert forall k: nat :: NumberedKey(k, token) == "d-" + Format8(k) + ("-" + token);
    SameMiddle("d-", Format8(i), Format8(j), "-" + token);
    ValueOfFormat8(i);
    ValueOfFormat8(j);
  }

  /** The first nine-digit number sorts before the last eight-digit one. */
  lemma NinthDigitBreaksOrder(token: string)
    ensures Lex.Lt(NumberedKey(100_000_000, token), NumberedKey(99_999_999, token))
  {
    var u, s, t := "-" + token, Format8(100_000_000), Format8(99_999_999);
    NinesAndOne();
    assert (s + u)[0] == '1' && (t + u)[0] == '9';
    Lex.CommonPrefix("d-", s + u, t + u);
    assert NumberedKey(100_000_000, token) == "d-" + (s + u) && NumberedKey(99_999_999, token) == "d-" + (t + u);
  }

  lemma NinesAndOne()
    ensures Format8(100_000_000) != "" && Format8(100_000_000)[0] == '1'
    ensures Format8(99_999_999) != "" && Format8(99_999_999)[0] == '9'
  {
    assert DecimalOf(9999) == "9999" && DecimalOf(10000) == "10000";
    assert DecimalOf(99999999) == "99999999";
    assert DecimalOf(100000000) == "100000000";
  }

  // ----- Reading a numbered group back

  ghost predicate Lists(docs: Documents, parent: Option<string>, ids: seq<string>) {
    NoRepeats(ids) && forall id :: id in ids <==> IsChild(docs, parent, id)
  }

  lemma RekeyedLists(docs: Documents, parent: Option<string>, ids: seq<string>, order: seq<string>, token: string)
    requires Lists(docs, parent, ids)
    ensures Lists(Rekeyed(docs, order, token), parent, ids)
  {
    forall id
      ensures IsChild(Rekeyed(docs, order, token), parent, id) <==> IsChild(docs, parent, id)
    {
    }
  }

  lemma RekeyedBefore(docs: Documents, parent: Option<string>, ids: seq<string>, token: string, i: nat, j: nat)
    requires Lists(docs, parent, ids) && i < |ids| && j < |ids|
    ensures KeyOf(Rekeyed(docs, ids, token), ids[i]) == NumberedKey(i, token)
    ensures KeyOf(Rekeyed(docs, ids, token), ids[j]) == NumberedKey(j, token)
  {
    IndexOfAt(ids, i);
    IndexOfAt(ids, j);
    assert IsChild(docs, parent, ids[i]) && IsChild(docs, parent, ids[j]);
  }

  /** A renumbered group reads back in the order asked for exactly when eight digits suffice. */
  lemma RekeyReadsBack(docs: Documents, parent: Option<string>, ids: seq<string>, token: string)
    requires Lists(docs, parent, ids)
    ensures Siblings(Rekeyed(docs, ids, token), parent) == ids <==> |ids| <= 100_000_000
  {
    var after := Rekeyed(docs, ids, token);
    RekeyedLists(docs, parent, ids, ids, token);
    SiblingsAre(after, parent);
    if |ids| <= 100_000_000 {
      forall i, j | 0 <= i < j < |ids|
        ensures Before(after, ids[i], ids[j])
      {
        RekeyedBefore(docs, parent, ids, token, i, j);
        NumberedKeyOrder(i, j, token);
      }
      TheSiblings(after, parent, ids);
    } else {
      var x, y := ids[99_999_999], ids[100_000_000];
      RekeyedBefore(docs, parent, ids, token, 99_999_999, 100_000_000);
      NinthDigitBreaksOrder(token);
      BeforeIsOrdering(after);
      assert Before(after, y, x) && x != y;
      assert !InOrder(after, ids);
    }
  }

  // ----- Unused tokens

  predicate EndsWith(s: string, token: string) {
    |token| <= |s| && s[|s| - |token|..] == token
  }

  /** A token that no key ends with, as a fresh UUID is. */
  predicate Unused(docs: Documents, token: string) {
    forall id | id in docs :: !EndsWith(docs[id].orderKey, token)
  }

  /** Renumbering leaves no two siblings with one key, whatever the keys of the group were. */
  lemma RekeyedKeysUnique(docs: Documents, ids: seq<string>, token: string)
    requires Unused(docs, token)
    requires forall a, b | a in docs && b in docs && a !in ids && b !in ids && docs[a].parent == docs[b].parent && docs[a].orderKey == docs[b].orderKey :: a == b
    ensures KeysUnique(Rekeyed(docs, ids, token))
  {
    var after := Rekeyed(docs, ids, token);
    forall a, b | a in after && b in after && after[a].parent == after[b].parent && after[a].orderKey == after[b].orderKey
      ensures a == b
    {
      if a in ids && b in ids {
        NumberedKeyInjective(IndexOf(ids, a), IndexOf(ids, b), token);
      } else if a in ids {
        NumberedKeyEnds(IndexOf(ids, a), token);
      } else if b in ids {
        NumberedKeyEnds(IndexOf(ids, b), token);
      }
    }
  }

  lemma NumberedKeyEnds(i: nat, token: string)
    ensures EndsWith(NumberedKey(i, token), token)
  {
  }

  // ----- Appending

  ghost function AppendKey(docs: Documents, parent: Option<string>, suffix: string): string {
    var ids := Siblings(docs, parent);
    if ids == [] then "d-00000000-" + suffix else KeyOf(docs, ids[|ids| - 1]) + "~" + suffix
  }

  /** `key` is the greatest order key among the given children of `parent`, if there are any. */
  ghost predicate Greatest(docs: Documents, parent: Option<string>, among: set<string>, key: Option<string>) {
    && (key == None ==> forall id | id in among :: !IsChild(docs, parent, id))
    && (key.Some? ==> exists id :: id in among && IsChild(docs, parent, id) && key.value == docs[id].orderKey)
    && (forall id | key.Some? && id in among && IsChild(docs, parent, id) :: Lex.Le(docs[id].orderKey, key.value))
  }

  lemma GreatestGrows(docs: Documents, parent: Option<string>, among: set<string>, key: Option<string>, id: string)
    requires Greatest(docs, parent, among, key) && IsChild(docs, parent, id)
    requires key == None || Lex.Le(key.value, docs[id].orderKey)
    ensures Greatest(docs, parent, among + {id}, Some(docs[id].orderKey))
  {
    assert id in among + {id};
    Lex.Total(docs[id].orderKey, docs[id].orderKey);
    forall x | x in among && IsChild(docs, parent, x)
      ensures Lex.Le(docs[x].orderKey, docs[id].orderKey)
    {
      Lex.Transitive(docs[x].orderKey, key.value, docs[id].orderKey);
    }
  }

  lemma GreatestStays(docs: Documents, parent: Option<string>, among: set<string>, key: Option<string>, id: string)
    requires Greatest(docs, parent, among, key)
    requires IsChild(docs, parent, id) ==> key.Some? && !Lex.Le(key.value, docs[id].orderKey)
    ensures Greatest(docs, parent, among + {id}, key)
  {
    if IsChild(docs, parent, id) { Lex.Total(key.value, docs[id].orderKey); }
  }

  /** `append_sibling_order_key`. */
  method AppendSiblingOrderKey(docs: Documents, parent: Option<string>, suffix: string) returns (key: string)
    ensures key == AppendKey(docs, parent, suffix)
  {
    var last: Option<string> := None;
    var todo := docs.Keys;
    while todo != {}
      invariant todo <= docs.Keys && Greatest(docs, parent, docs.Keys - todo, last)
      decreases todo
    {
      var id :| id in todo;
      assert docs.Keys - (todo - {id}) == (docs.Keys - todo) + {id};
      if IsChild(docs, parent, id) && (last == None || Lex.Le(last.value, docs[id].orderKey)) {
        GreatestGrows(docs, parent, docs.Keys - todo, last, id);
        last := Some(docs[id].orderKey);
      } else {
        GreatestStays(docs, parent, docs.Keys - todo, last, id);
      }
      todo := todo - {id};
    }
    LastIsGreatest(docs, parent, last);
    return match last case None => "d-00000000-" + suffix case Some(k) => k + "~" + suffix;
  }

  lemma LastIsGreatest(docs: Documents, parent: Option<string>, key: Option<string>)
    requires Greatest(docs, parent, docs.Keys, key)
    ensures var ids := Siblings(docs, parent);
            if ids == [] then key == None else key == Some(KeyOf(docs, ids[|ids| - 1]))
  {
    var ids := Siblings(docs, parent);
    SiblingsAre(docs, parent);
    if key.Some? {
      var id :| IsChild(docs, parent, id) && key.value == docs[id].orderKey;
      assert id in ids;
      LastKey(docs, parent, id);
      assert IsChild(docs, parent, ids[|ids| - 1]);
      Lex.Antisymmetric(key.value, KeyOf(docs, ids[|ids| - 1]));
    }
  }

  lemma LastIsLast(docs: Documents, ids: seq<string>, id: string)
    requires InOrder(docs, ids) && id in ids
    ensures Lex.Le(KeyOf(docs, id), KeyOf(docs, ids[|ids| - 1]))
  {
    var i :| 0 <= i < |ids| && ids[i] == id;
    if i < |ids| - 1 { assert Before(docs, ids[i], ids[|ids| - 1]); }
    Lex.Total(KeyOf(docs, id), KeyOf(docs, id));
  }

  lemma LastKey(docs: Documents, parent: Option<string>, id: string)
    requires IsChild(docs, parent, id)
    ensures var ids := Siblings(docs, parent); ids != [] && Lex.Le(docs[id].orderKey, KeyOf(docs, ids[|ids| - 1]))
  {
    SiblingsAre(docs, parent);
    LastIsLast(docs, Siblings(docs, parent), id);
  }

  lemma AppendedAfter(docs: Documents, parent: Option<string>, suffix: string, id: string)
    requires IsChild(docs, parent, id)
    ensures Lex.Lt(docs[id].orderKey, AppendKey(docs, parent, suffix))
  {
    LastKey(docs, parent, id);
    var ids := Siblings(docs, parent);
    Longer(docs[id].orderKey, KeyOf(docs, ids[|ids| - 1]), suffix);
  }

  lemma Longer(key: string, last: string, suffix: string)
    requires Lex.Le(key, last)
    ensures Lex.Lt(key, last + "~" + suffix)
  {
    var longer := last + "~" + suffix;
    assert longer == last + ("~" + suffix);
    Lex.Extension(last, "~" + suffix);
    Lex.Transitive(key, last, longer);
    if key == longer { Lex.Antisymmetric(last, longer); }
  }

  lemma InOrderGrows(docs: Documents, after: Documents, ids: seq<string>, id: string)
    requires InOrder(docs, ids)
    requires forall x | x in ids :: KeyOf(after, x) == KeyOf(docs, x) && Lex.Lt(KeyOf(after, x), KeyOf(after, id))
    ensures InOrder(after, ids + [id])
  {
    forall i, j | 0 <= i < j < |ids + [id]|
      ensures Before(after, (ids + [id])[i], (ids + [id])[j])
    {
      if j < |ids| { assert Before(docs, ids[i], ids[j]); }
    }
  }

  lemma ListsGrow(docs: Documents, parent: Option<string>, ids: seq<string>, id: string, document: Document)
    requires Lists(docs, parent, ids) && id !in docs && document.active && document.parent == parent
    ensures Lists(docs[id := document], parent, ids + [id])
  {
    assert !IsChild(docs, parent, id) && id !in ids;
    assert NoRepeats(ids + [id]);
    forall x
      ensures x in ids + [id] <==> IsChild(docs[id := document], parent, x)
    {
      assert x in ids + [id] <==> x in ids || x == id;
    }
  }

  /** The appended key sorts after every active sibling's. */
  lemma AppendedIsLast(docs: Documents, parent: Option<string>, suffix: string, id: string, document: Document)
    requires id !in docs && document.active && document.parent == parent && document.orderKey == AppendKey(docs, parent, suffix)
    ensures Siblings(docs[id := document], parent) == Siblings(docs, parent) + [id]
  {
    var ids, after := Siblings(docs, parent), docs[id := document];
    SiblingsAre(docs, parent);
    forall x | x in ids
      ensures KeyOf(after, x) == KeyOf(docs, x) && Lex.Lt(KeyOf(after, x), KeyOf(after, id))
    {
      assert IsChild(docs, parent, x);
      AppendedAfter(docs, parent, suffix, x);
    }
    InOrderGrows(docs, after, ids, id);
    ListsGrow(docs, parent, ids, id, document);
    TheSiblings(after, parent, ids + [id]);
  }
}
