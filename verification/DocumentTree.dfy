/**
 Two walks over the document forest: the final tree check of the store (`store.rs`) and the subtree
 an archive takes along (`active_subtree_ids`).
 */
module DocumentTree {
  import opened Common
  import opened DocumentForest

  // ----- The final tree check

  /** From `cursor`, `n` steps over active documents reach a root. */
  predicate Climbs(docs: Documents, cursor: Option<string>, n: nat)
    decreases n
  {
    match cursor
    case None => n == 0
    case Some(p) => n > 0 && p in docs && docs[p].active && Climbs(docs, docs[p].parent, n - 1)
  }

  ghost predicate ReachesRoot(docs: Documents, cursor: Option<string>) {
    exists n: nat :: Climbs(docs, cursor, n)
  }

  ghost predicate TreeOk(docs: Documents) {
    && SomeActive(docs) && KeysUnique(docs)
    && forall d | d in docs && docs[d].active :: ReachesRoot(docs, docs[d].parent)
  }

  /** Every entry is the parent of the one before it. */
  ghost predicate IsPath(docs: Documents, path: seq<string>) {
    && path != [] && (forall i | 0 <= i < |path| :: path[i] in docs)
    && (forall i | 1 <= i < |path| :: docs[path[i - 1]].parent == Some(path[i]) && docs[path[i]].active)
  }

  lemma {:induction false} SameClimb(docs: Documents, cursor: Option<string>, m: nat, n: nat)
    requires Climbs(docs, cursor, m) && Climbs(docs, cursor, n)
    ensures m == n
    decreases n
  {
    if cursor.Some? { SameClimb(docs, docs[cursor.value].parent, m - 1, n - 1); }
  }

  lemma {:induction false} PathUp(docs: Documents, path: seq<string>, n: nat, i: nat)
    requires IsPath(docs, path) && i < |path| && Climbs(docs, docs[path[0]].parent, n)
    ensures n >= i && Climbs(docs, docs[path[i]].parent, n - i)
  {
    if i > 0 {
      PathUp(docs, path, n, i - 1);
      assert docs[path[i - 1]].parent == Some(path[i]);
    }
  }

  lemma {:induction false} PathDown(docs: Documents, path: seq<string>, n: nat)
    requires IsPath(docs, path) && Climbs(docs, docs[path[|path| - 1]].parent, n)
    ensures Climbs(docs, docs[path[0]].parent, n + |path| - 1)
  {
    if |path| > 1 {
      assert Climbs(docs, docs[path[|path| - 2]].parent, n + 1);
      PathDown(docs, path[..|path| - 1], n + 1);
    }
  }

  lemma RepeatNeverEnds(docs: Documents, path: seq<string>, p: string)
    requires IsPath(docs, path) && docs[path[|path| - 1]].parent == Some(p) && p in path
    ensures !ReachesRoot(docs, docs[path[0]].parent)
  {
    var i :| 0 <= i < |path| && path[i] == p;
    forall n: nat
      ensures !Climbs(docs, docs[path[0]].parent, n)
    {
      if Climbs(docs, docs[path[0]].parent, n) {
        PathUp(docs, path, n, i);
        PathUp(docs, path, n, |path| - 1);
        SameClimb(docs, docs[p].parent, n - i, n - |path|);
      }
    }
  }

  lemma BlockedNeverEnds(docs: Documents, path: seq<string>, p: string)
    requires IsPath(docs, path) && docs[path[|path| - 1]].parent == Some(p) && !(p in docs && docs[p].active)
    ensures !ReachesRoot(docs, docs[path[0]].parent)
  {
    forall n: nat
      ensures !Climbs(docs, docs[path[0]].parent, n)
    {
      if Climbs(docs, docs[path[0]].parent, n) { PathUp(docs, path, n, |path| - 1); }
    }
  }

  lemma PathGrows(docs: Documents, path: seq<string>, p: string)
    requires IsPath(docs, path) && docs[path[|path| - 1]].parent == Some(p) && p in docs && docs[p].active
    ensures IsPath(docs, path + [p])
  {
  }

  /** The walk from one document up its parents. */
  method ClimbToRoot(docs: Documents, id: string) returns (ok: bool)
    requires id in docs
    ensures ok <==> ReachesRoot(docs, docs[id].parent)
  {
    var cursor, visited := docs[id].parent, {id};
    ghost var path := [id];
    while cursor.Some?
      invariant IsPath(docs, path) && path[0] == id && cursor == docs[path[|path| - 1]].parent
      invariant visited <= docs.Keys && forall d :: d in visited <==> d in path
      decreases |docs.Keys - visited|
    {
      var p := cursor.value;
      if p !in docs || !docs[p].active {
        BlockedNeverEnds(docs, path, p);
        return false;
      }
      if p in visited {
        RepeatNeverEnds(docs, path, p);
        return false;
      }
      SeenShrinks(docs.Keys, visited, p);
      PathGrows(docs, path, p);
      visited, path, cursor := visited + {p}, path + [p], docs[p].parent;
    }
    PathDown(docs, path, 0);
    return true;
  }

  /** `validate_final_document_tree`. */
  method ValidateFinalDocumentTree(docs: Documents) returns (ok: bool)
    ensures ok == TreeOk(docs)
  {
    if !SomeActive(docs) { return false; }
    var keys: map<(Option<string>, string), string> := map[];
    var todo := docs.Keys;
    while todo != {}
      invariant todo <= docs.Keys
      invariant forall k | k in keys :: keys[k] in docs && keys[k] !in todo && k == (docs[keys[k]].parent, docs[keys[k]].orderKey)
      invariant forall d | d in docs && d !in todo ::
                  (docs[d].parent, docs[d].orderKey) in keys && keys[(docs[d].parent, docs[d].orderKey)] == d
      invariant forall d | d in docs && d !in todo && docs[d].active :: ReachesRoot(docs, docs[d].parent)
      decreases todo
    {
      var d :| d in todo;
      var key := (docs[d].parent, docs[d].orderKey);
      if key in keys { return false; }
      keys, todo := keys[key := d], todo - {d};
      if docs[d].active {
        var climbs := ClimbToRoot(docs, d);
        if !climbs { return false; }
      }
    }
    return true;
  }

  // ----- What the check accepts

  function Active(docs: Documents): Documents {
    map d | d in docs && docs[d].active :: docs[d]
  }

  lemma {:induction false} RankReaches(docs: Documents, rank: map<string, nat>, d: string)
    requires ParentsActive(docs) && Ranked(Active(docs), rank) && d in docs && docs[d].active
    ensures ReachesRoot(docs, docs[d].parent)
    decreases rank[d]
  {
    match docs[d].parent
    case None => assert Climbs(docs, None, 0);
    case Some(p) =>
      RankReaches(docs, rank, p);
      var n: nat :| Climbs(docs, docs[p].parent, n);
      assert Climbs(docs, Some(p), n + 1);
  }

  ghost function Depth(docs: Documents, d: string): nat
    requires d in docs && ReachesRoot(docs, docs[d].parent)
  {
    var n: nat :| Climbs(docs, docs[d].parent, n);
    n
  }

  lemma DepthRanks(docs: Documents)
    requires forall d | d in docs && docs[d].active :: ReachesRoot(docs, docs[d].parent)
    ensures ParentsActive(docs) && Acyclic(Active(docs))
  {
    var rank := map d | d in Active(docs) :: Depth(docs, d);
    forall d | d in Active(docs) && docs[d].parent.Some?
      ensures docs[d].parent.value in Active(docs) && rank[docs[d].parent.value] < rank[d]
    {
      var p := docs[d].parent.value;
      SameClimb(docs, docs[p].parent, Depth(docs, p), Depth(docs, d) - 1);
    }
    assert Ranked(Active(docs), rank);
  }

  /** The check accepts exactly the forests whose active part is closed under parents and acyclic. */
  lemma TreeOkExactly(docs: Documents)
    ensures TreeOk(docs) <==> SomeActive(docs) && KeysUnique(docs) && ParentsActive(docs) && Acyclic(Active(docs))
  {
    if TreeOk(docs) { DepthRanks(docs); }
    if ParentsActive(docs) && Acyclic(Active(docs)) {
      var rank :| Ranked(Active(docs), rank);
      forall d | d in docs && docs[d].active
        ensures ReachesRoot(docs, docs[d].parent)
      {
        RankReaches(docs, rank, d);
      }
    }
  }

  lemma WellFormedTreeOk(docs: Documents)
    requires WellFormed(docs)
    ensures TreeOk(docs)
  {
    var rank :| Ranked(docs, rank);
    assert Ranked(Active(docs), map d | d in Active(docs) :: rank[d]);
    TreeOkExactly(docs);
  }

  // ----- The subtree an archive takes along

  /** `d` lies `n + 1` parent steps below `root`. */
  predicate Descends(docs: Documents, d: string, root: string, n: nat)
    decreases n
  {
    && d in docs && docs[d].parent.Some?
    && if n == 0 then docs[d].parent.value == root else Descends(docs, docs[d].parent.value, root, n - 1)
  }

  ghost predicate InSubtree(docs: Documents, d: string, root: string) {
    d == root || exists n: nat :: Descends(docs, d, root, n)
  }

  lemma ChildInSubtree(docs: Documents, d: string, root: string)
    requires d in docs && docs[d].parent.Some? && InSubtree(docs, docs[d].parent.value, root)
    ensures InSubtree(docs, d, root)
  {
    var p := docs[d].parent.value;
    if p == root {
      assert Descends(docs, d, root, 0);
    } else {
      var n: nat :| Descends(docs, p, root, n);
      assert Descends(docs, d, root, n + 1);
    }
  }

  ghost predicate ClosedUnder(docs: Documents, subtree: set<string>) {
    forall d | d in docs && docs[d].parent.Some? && docs[d].parent.value in subtree :: d in subtree
  }

  lemma {:induction false} ClosedHolds(docs: Documents, subtree: set<string>, root: string, d: string, n: nat)
    requires root in subtree && ClosedUnder(docs, subtree) && Descends(docs, d, root, n)
    ensures d in subtree
    decreases n
  {
    if n > 0 { ClosedHolds(docs, subtree, root, docs[d].parent.value, n - 1); }
  }

  /** One pass over the documents; a pass that adds nothing leaves the set closed under children. */
  method AddChildren(docs: Documents, root: string, subtree: set<string>) returns (larger: set<string>)
    requires forall d | d in subtree :: InSubtree(docs, d, root)
    ensures subtree <= larger && larger <= subtree + docs.Keys
    ensures forall d | d in larger :: InSubtree(docs, d, root)
    ensures larger == subtree ==> ClosedUnder(docs, subtree)
  {
    larger := subtree;
    var todo := docs.Keys;
    while todo != {}
      invariant todo <= docs.Keys && subtree <= larger <= subtree + docs.Keys
      invariant forall d | d in larger :: InSubtree(docs, d, root)
      invariant forall d | d in docs && d !in todo && docs[d].parent.Some? && docs[d].parent.value in subtree :: d in larger
      decreases todo
    {
      var d :| d in todo;
      if docs[d].parent.Some? && docs[d].parent.value in larger {
        ChildInSubtree(docs, d, root);
        larger := larger + {d};
      }
      todo := todo - {d};
    }
  }

  /** `active_subtree_ids`: for any parent data, exactly the root and what descends from it. */
  method ActiveSubtreeIds(docs: Documents, root: string) returns (subtree: set<string>)
    ensures forall d :: d in subtree <==> InSubtree(docs, d, root)
  {
    subtree := {root};
    while true
      invariant root in subtree && subtree <= docs.Keys + {root}
      invariant forall d | d in subtree :: InSubtree(docs, d, root)
      decreases |docs.Keys + {root}| - |subtree|
    {
      var before := |subtree|;
      var larger := AddChildren(docs, root, subtree);
      if |larger| == before {
        SubsetSize(subtree, larger);
        forall d | InSubtree(docs, d, root)
          ensures d in subtree
        {
          if d != root {
            var n: nat :| Descends(docs, d, root, n);
            ClosedHolds(docs, subtree, root, d, n);
          }
        }
        return;
      }
      SubsetSize(subtree, larger);
      SubsetSize(larger, docs.Keys + {root});
      subtree := larger;
    }
  }
}
