/**
 The documents of a project (`workspace_commands.rs`): a forest over parent links, siblings ordered
 by order key and id.
 */
module DocumentForest {
  import opened Common
  import opened Sorting
  import Lex

  datatype Document = Document(parent: Option<string>, title: string, orderKey: string, revision: nat, active: bool)

  /** The documents of a project by id, archived ones included. */
  type Documents = map<string, Document>

  predicate IsChild(docs: Documents, parent: Option<string>, id: string) {
    id in docs && docs[id].active && docs[id].parent == parent
  }

  // ----- Well-formed projects

  ghost predicate Ranked(docs: Documents, rank: map<string, nat>) {
    && rank.Keys == docs.Keys
    && forall d | d in docs && docs[d].parent.Some? :: docs[d].parent.value in docs && rank[docs[d].parent.value] < rank[d]
  }

  /** Parents exist, and no chain of parents returns to where it started. */
  ghost predicate Acyclic(docs: Documents) {
    exists rank :: Ranked(docs, rank)
  }

  predicate ParentsActive(docs: Documents) {
    forall d | d in docs && docs[d].active && docs[d].parent.Some? ::
      docs[d].parent.value in docs && docs[docs[d].parent.value].active
  }

  predicate KeysUnique(docs: Documents) {
    forall a, b | a in docs && b in docs && docs[a].parent == docs[b].parent && docs[a].orderKey == docs[b].orderKey :: a == b
  }

  predicate SomeActive(docs: Documents) {
    exists d :: d in docs && docs[d].active
  }

  ghost predicate WellFormed(docs: Documents) {
    Acyclic(docs) && ParentsActive(docs) && KeysUnique(docs) && SomeActive(docs)
  }

  // ----- Sibling sequences

  function KeyOf(docs: Documents, id: string): string {
    if id in docs then docs[id].orderKey else ""
  }

  /** Order key first, then id. */
  predicate Before(docs: Documents, x: string, y: string) {
    Lex.Lt(KeyOf(docs, x), KeyOf(docs, y)) || (KeyOf(docs, x) == KeyOf(docs, y) && Lex.Le(x, y))
  }

  ghost predicate InOrder(docs: Documents, ids: seq<string>) {
    forall i, j | 0 <= i < j < |ids| :: Before(docs, ids[i], ids[j])
  }

  /** `ids` are the active children of `parent`, each once, in order. */
  ghost predicate IsSiblings(docs: Documents, parent: Option<string>, ids: seq<string>) {
    NoRepeats(ids) && (forall id :: id in ids <==> IsChild(docs, parent, id)) && InOrder(docs, ids)
  }

  lemma BeforeIsOrdering(docs: Documents)
    ensures Ordering((x, y) => Before(docs, x, y))
    ensures forall x, y | Before(docs, x, y) && Before(docs, y, x) :: x == y
  {
    Lex.IsOrdering();
  }

  lemma SiblingsUnique(docs: Documents, parent: Option<string>, s: seq<string>, t: seq<string>)
    requires IsSiblings(docs, parent, s) && IsSiblings(docs, parent, t)
    ensures s == t
  {
    SameBag(s, t);
    BeforeIsOrdering(docs);
    SortedUnique((x, y) => Before(docs, x, y), s, t);
  }

  ghost function Listed(docs: Documents, parent: Option<string>, todo: set<string>): (ids: seq<string>)
    ensures NoRepeats(ids) && forall id :: id in ids <==> IsChild(docs, parent, id) && id in todo
    decreases todo
  {
    if todo == {} then []
    else
      var id :| id in todo;
      Listed(docs, parent, todo - {id}) + if IsChild(docs, parent, id) then [id] else []
  }

  lemma SortedSiblings(docs: Documents, parent: Option<string>, found: seq<string>)
    requires NoRepeats(found) && forall id :: id in found <==> IsChild(docs, parent, id)
    ensures IsSiblings(docs, parent, SortBy((x, y) => Before(docs, x, y), found))
  {
    var le := (x, y) => Before(docs, x, y);
    BeforeIsOrdering(docs);
    SortBySorts(le, found);
    SortByMembers(le, found);
    PermutationNoRepeats(found, SortBy(le, found));
  }

  /** The active children of `parent` in order. */
  ghost function Siblings(docs: Documents, parent: Option<string>): seq<string> {
    SortBy((x, y) => Before(docs, x, y), Listed(docs, parent, docs.Keys))
  }

  lemma SiblingsAre(docs: Documents, parent: Option<string>)
    ensures IsSiblings(docs, parent, Siblings(docs, parent))
  {
    SortedSiblings(docs, parent, Listed(docs, parent, docs.Keys));
  }

  lemma InSiblings(docs: Documents, parent: Option<string>, id: string)
    ensures id in Siblings(docs, parent) <==> IsChild(docs, parent, id)
  {
    SiblingsAre(docs, parent);
  }

  /** There is only one such sequence. */
  lemma TheSiblings(docs: Documents, parent: Option<string>, ids: seq<string>)
    requires IsSiblings(docs, parent, ids)
    ensures Siblings(docs, parent) == ids
  {
    SiblingsAre(docs, parent);
    SiblingsUnique(docs, parent, Siblings(docs, parent), ids);
  }

  /** `ordered_sibling_ids`. */
  method OrderedSiblingIds(docs: Documents, parent: Option<string>) returns (ids: seq<string>)
    ensures ids == Siblings(docs, parent)
  {
    var found: seq<string> := [];
    var todo := docs.Keys;
    while todo != {}
      invariant todo <= docs.Keys
      invariant NoRepeats(found) && forall id :: id in found <==> IsChild(docs, parent, id) && id !in todo
      decreases todo
    {
      var id :| id in todo;
      if IsChild(docs, parent, id) { found := found + [id]; }
      todo := todo - {id};
    }
    ids := SortBy((x, y) => Before(docs, x, y), found);
    SortedSiblings(docs, parent, found);
    TheSiblings(docs, parent, ids);
  }
}
