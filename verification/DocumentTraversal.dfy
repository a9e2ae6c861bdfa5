/**
 The order summaries are built in (`summary_worker.rs`): a depth-first walk with a visited guard that
 must cover every document once, even when parent links are broken.
 */
module DocumentTraversal {
  import opened Common
  import opened Sorting
  import Lex

  datatype Row = Row(id: string, parent: Option<string>, orderKey: string)

  predicate ByKey(x: Row, y: Row) {
    Lex.Lt(x.orderKey, y.orderKey) || (x.orderKey == y.orderKey && Lex.Le(x.id, y.id))
  }

  function Having(ds: seq<Row>, parent: Option<string>): seq<Row> {
    if ds == [] then []
    else Having(ds[..|ds| - 1], parent) + if ds[|ds| - 1].parent == parent then [ds[|ds| - 1]] else []
  }

  /** The documents under a parent, sorted. */
  function Children(ds: seq<Row>, parent: Option<string>): seq<Row> {
    SortBy(ByKey, Having(ds, parent))
  }

  ghost predicate DistinctIds(ds: seq<Row>) {
    forall i, j | 0 <= i < j < |ds| :: ds[i].id != ds[j].id
  }

  function Ids(ds: seq<Row>): set<string> { set d | d in ds :: d.id }

  lemma {:induction false} HavingIs(ds: seq<Row>, parent: Option<string>, d: Row)
    ensures d in Having(ds, parent) <==> d in ds && d.parent == parent
  {
    if ds != [] {
      HavingIs(ds[..|ds| - 1], parent, d);
      assert ds == ds[..|ds| - 1] + [ds[|ds| - 1]];
    }
  }

  lemma ChildrenAre(ds: seq<Row>, parent: Option<string>)
    ensures forall d :: d in Children(ds, parent) <==> d in ds && d.parent == parent
  {
    SortByMembers(ByKey, Having(ds, parent));
    forall d ensures d in Having(ds, parent) <==> d in ds && d.parent == parent { HavingIs(ds, parent, d); }
  }

  // ----- The walk

  datatype Walk = Walk(visited: set<string>, ordered: seq<Row>)

  /** `visit_document`, as a function of the walk so far. */
  function Visit(ds: seq<Row>, d: Row, w: Walk): (after: Walk)
    requires d in ds
    ensures w.visited <= after.visited
    decreases |Ids(ds) - w.visited|, 1, 0
  {
    if d.id in w.visited then w
    else
      ChildrenAre(ds, Some(d.id));
      SeenShrinks(Ids(ds), w.visited, d.id);
      VisitAll(ds, Children(ds, Some(d.id)), Walk(w.visited + {d.id}, w.ordered + [d]))
  }

  function VisitAll(ds: seq<Row>, cs: seq<Row>, w: Walk): (after: Walk)
    requires forall c | c in cs :: c in ds
    ensures w.visited <= after.visited
    decreases |Ids(ds) - w.visited|, 2, |cs|
  {
    if cs == [] then w
    else
      var next := Visit(ds, cs[0], w);
      SubsetSize(Ids(ds) - next.visited, Ids(ds) - w.visited);
      VisitAll(ds, cs[1..], next)
  }

  const START := Walk({}, [])

  /** `ordered_forest`. */
  function Forest(ds: seq<Row>): Walk {
    ChildrenAre(ds, None);
    VisitAll(ds, ds, VisitAll(ds, Children(ds, None), START))
  }

  // ----- Any parent data

  /** The walk lists each visited document once. */
  ghost predicate Tidy(ds: seq<Row>, w: Walk) {
    && DistinctIds(w.ordered) && w.visited == Ids(w.ordered) && forall d | d in w.ordered :: d in ds
  }

  lemma TidyStep(ds: seq<Row>, w: Walk, d: Row)
    requires Tidy(ds, w) && d in ds && d.id !in w.visited
    ensures Tidy(ds, Walk(w.visited + {d.id}, w.ordered + [d]))
  {
    var more := w.ordered + [d];
    assert d.id !in Ids(w.ordered);
    forall i | 0 <= i < |w.ordered|
      ensures more[i].id != d.id
    {
      assert w.ordered[i] in w.ordered;
    }
    assert forall x :: x in more <==> x in w.ordered || x == d;
  }

  lemma {:induction false} VisitTidy(ds: seq<Row>, d: Row, w: Walk)
    requires Tidy(ds, w) && d in ds
    ensures Tidy(ds, Visit(ds, d, w))
    decreases |Ids(ds) - w.visited|, 1, 0
  {
    if d.id !in w.visited {
      TidyStep(ds, w, d);
      ChildrenAre(ds, Some(d.id));
      SeenShrinks(Ids(ds), w.visited, d.id);
      VisitAllTidy(ds, Children(ds, Some(d.id)), Walk(w.visited + {d.id}, w.ordered + [d]));
    }
  }

  lemma {:induction false} VisitAllTidy(ds: seq<Row>, cs: seq<Row>, w: Walk)
    requires Tidy(ds, w) && forall c | c in cs :: c in ds
    ensures Tidy(ds, VisitAll(ds, cs, w))
    decreases |Ids(ds) - w.visited|, 2, |cs|
  {
    if cs != [] {
      var next := Visit(ds, cs[0], w);
      VisitTidy(ds, cs[0], w);
      SubsetSize(Ids(ds) - next.visited, Ids(ds) - w.visited);
      VisitAllTidy(ds, cs[1..], next);
    }
  }

  lemma {:induction false} VisitAllCovers(ds: seq<Row>, cs: seq<Row>, w: Walk)
    requires forall c | c in cs :: c in ds
    ensures forall c | c in cs :: c.id in VisitAll(ds, cs, w).visited
    decreases |cs|
  {
    if cs != [] {
      var next := Visit(ds, cs[0], w);
      assert cs[0].id in next.visited by { VisitMarks(ds, cs[0], w); }
      VisitAllCovers(ds, cs[1..], next);
      assert cs == [cs[0]] + cs[1..];
    }
  }

  lemma VisitMarks(ds: seq<Row>, d: Row, w: Walk)
    requires d in ds
    ensures d.id in Visit(ds, d, w).visited
  {
  }

  lemma SameRow(ds: seq<Row>, d: Row, e: Row)
    requires DistinctIds(ds) && d in ds && e in ds && d.id == e.id
    ensures d == e
  {
  }

  /** Whatever the parent links, cycles and missing parents included, every document is listed once. */
  lemma EveryDocumentOnce(ds: seq<Row>)
    requires DistinctIds(ds)
    ensures DistinctIds(Forest(ds).ordered) && forall d :: d in Forest(ds).ordered <==> d in ds
  {
    ChildrenAre(ds, None);
    assert Tidy(ds, START);
    VisitAllTidy(ds, Children(ds, None), START);
    VisitAllTidy(ds, ds, VisitAll(ds, Children(ds, None), START));
    VisitAllCovers(ds, ds, VisitAll(ds, Children(ds, None), START));
    var w := Forest(ds);
    forall d | d in ds
      ensures d in w.ordered
    {
      var e :| e in w.ordered && e.id == d.id;
      SameRow(ds, d, e);
    }
  }

  // ----- Well-formed forests

  /** Children lie strictly lower than their parents. */
  ghost predicate Falls(ds: seq<Row>, h: map<string, nat>) {
    forall c | c in ds && c.parent.Some? :: c.id in h && c.parent.value in h && h[c.id] < h[c.parent.value]
  }

  /** Parents exist, and no chain of parents closes: heights up to `top` prove it. */
  ghost predicate Heights(ds: seq<Row>, h: map<string, nat>, top: nat) {
    && DistinctIds(ds) && Falls(ds, h)
    && (forall d | d in ds :: d.id in h && h[d.id] <= top)
    && (forall d | d in ds && d.parent.Some? :: d.parent.value in Ids(ds))
  }

  /** The preorder of the tree under a document: the document, then its children's trees in order. */
  ghost function Preorder(ds: seq<Row>, h: map<string, nat>, d: Row): seq<Row>
    requires Falls(ds, h) && d.id in h
    decreases h[d.id], 1, 0
  {
    ChildrenAre(ds, Some(d.id));
    [d] + PreorderAll(ds, h, Children(ds, Some(d.id)), h[d.id])
  }

  ghost function PreorderAll(ds: seq<Row>, h: map<string, nat>, cs: seq<Row>, bound: nat): seq<Row>
    requires Falls(ds, h) && forall c | c in cs :: c.id in h && h[c.id] < bound
    decreases bound, 0, |cs|
  {
    if cs == [] then [] else Preorder(ds, h, cs[0]) + PreorderAll(ds, h, cs[1..], bound)
  }

  lemma FirstOrRest<T>(s: seq<T>)
    requires s != []
    ensures forall x :: x in s <==> x == s[0] || x in s[1..]
  {
    assert s == [s[0]] + s[1..];
  }

  lemma {:induction false} InSomeTree(ds: seq<Row>, h: map<string, nat>, cs: seq<Row>, bound: nat, x: Row)
    requires Falls(ds, h) && forall c | c in cs :: c.id in h && h[c.id] < bound
    ensures x in PreorderAll(ds, h, cs, bound) <==> exists c :: c in cs && x in Preorder(ds, h, c)
    decreases |cs|
  {
    if cs != [] {
      InSomeTree(ds, h, cs[1..], bound, x);
      FirstOrRest(cs);
      assert x in PreorderAll(ds, h, cs, bound) <==> x in Preorder(ds, h, cs[0]) || x in PreorderAll(ds, h, cs[1..], bound);
    }
  }

  /** What is in a tree: its root, or something in a child's tree. */
  lemma InTree(ds: seq<Row>, h: map<string, nat>, d: Row, x: Row)
    requires Falls(ds, h) && d.id in h
    ensures x in Preorder(ds, h, d) <==>
            x == d || exists c :: c in ds && c.parent == Some(d.id) && x in Preorder(ds, h, c)
  {
    ChildrenAre(ds, Some(d.id));
    InSomeTree(ds, h, Children(ds, Some(d.id)), h[d.id], x);
  }

  /** The child whose tree holds `x`. */
  lemma ChildTowards(ds: seq<Row>, h: map<string, nat>, d: Row, x: Row) returns (c: Row)
    requires Falls(ds, h) && d.id in h && x in Preorder(ds, h, d) && x != d
    ensures c in ds && c.parent == Some(d.id) && x in Preorder(ds, h, c)
  {
    InTree(ds, h, d, x);
    c :| c in ds && c.parent == Some(d.id) && x in Preorder(ds, h, c);
  }

  lemma {:induction false} TreeIsLower(ds: seq<Row>, h: map<string, nat>, d: Row, x: Row)
    requires Falls(ds, h) && d.id in h && d in ds && x in Preorder(ds, h, d)
    ensures x in ds && x.id in h && h[x.id] <= h[d.id]
    decreases h[d.id]
  {
    if x != d {
      var c := ChildTowards(ds, h, d, x);
      TreeIsLower(ds, h, c, x);
    }
  }

  lemma {:induction false} ParentInTree(ds: seq<Row>, h: map<string, nat>, d: Row, x: Row) returns (y: Row)
    requires Falls(ds, h) && d.id in h && d in ds && x in Preorder(ds, h, d) && x != d
    ensures x.parent == Some(y.id) && y in Preorder(ds, h, d)
    decreases h[d.id]
  {
    var c := ChildTowards(ds, h, d, x);
    InTree(ds, h, d, d);
    if x == c {
      y := d;
    } else {
      y := ParentInTree(ds, h, c, x);
      InTree(ds, h, d, y);
    }
  }

  /** Two trees that share a document are nested. */
  lemma {:induction false} Nested(ds: seq<Row>, h: map<string, nat>, a: Row, b: Row, x: Row)
    requires DistinctIds(ds) && Falls(ds, h) && a in ds && b in ds && a.id in h && b.id in h
    requires x in Preorder(ds, h, a) && x in Preorder(ds, h, b) && x.id in h && h[x.id] <= h[a.id]
    ensures a in Preorder(ds, h, b) || b in Preorder(ds, h, a)
    decreases h[a.id] - h[x.id]
  {
    if x != a && x != b {
      var y := ParentInTree(ds, h, a, x);
      var z := ParentInTree(ds, h, b, x);
      TreeIsLower(ds, h, a, y);
      TreeIsLower(ds, h, b, z);
      TreeIsLower(ds, h, a, x);
      SameRow(ds, y, z);
      Nested(ds, h, a, b, y);
    }
  }

  lemma SiblingNotBelow(ds: seq<Row>, h: map<string, nat>, a: Row, b: Row)
    requires DistinctIds(ds) && Falls(ds, h) && a in ds && b in ds && a.id in h && b.id in h
    requires a.parent == b.parent && a != b
    ensures a !in Preorder(ds, h, b)
  {
    if a in Preorder(ds, h, b) {
      var y := ParentInTree(ds, h, b, a);
      TreeIsLower(ds, h, b, y);
    }
  }

  lemma SiblingsApart(ds: seq<Row>, h: map<string, nat>, a: Row, b: Row, x: Row)
    requires DistinctIds(ds) && Falls(ds, h) && a in ds && b in ds && a.id in h && b.id in h
    requires a.parent == b.parent && a != b && x in Preorder(ds, h, a)
    ensures x !in Preorder(ds, h, b)
  {
    TreeIsLower(ds, h, a, x);
    SiblingNotBelow(ds, h, a, b);
    SiblingNotBelow(ds, h, b, a);
    if x in Preorder(ds, h, b) { Nested(ds, h, a, b, x); }
  }

  // ----- The walk is the preorder

  ghost predicate Unvisited(s: seq<Row>, w: Walk) {
    forall x | x in s :: x.id !in w.visited
  }

  function Listed(w: Walk, s: seq<Row>): Walk { Walk(w.visited + Ids(s), w.ordered + s) }

  lemma ListedTwice(w: Walk, s: seq<Row>, t: seq<Row>)
    ensures Listed(Listed(w, s), t) == Listed(w, s + t)
  {
    assert Ids(s + t) == Ids(s) + Ids(t);
    assert (w.ordered + s) + t == w.ordered + (s + t);
  }

  lemma {:induction false} HavingDistinct(ds: seq<Row>, parent: Option<string>)
    requires DistinctIds(ds)
    ensures NoRepeats(Having(ds, parent))
  {
    if ds != [] {
      var init, last := ds[..|ds| - 1], ds[|ds| - 1];
      HavingDistinct(init, parent);
      HavingIs(init, parent, last);
      assert last !in init;
    }
  }

  lemma ChildrenDistinct(ds: seq<Row>, parent: Option<string>)
    requires DistinctIds(ds)
    ensures NoRepeats(Children(ds, parent))
  {
    HavingDistinct(ds, parent);
    PermutationNoRepeats(Having(ds, parent), Children(ds, parent));
  }

  lemma BelowIsLower(ds: seq<Row>, h: map<string, nat>, d: Row, x: Row)
    requires Falls(ds, h) && d.id in h
    requires forall c | c in Children(ds, Some(d.id)) :: c in ds && c.parent == Some(d.id)
    requires x in PreorderAll(ds, h, Children(ds, Some(d.id)), h[d.id])
    ensures x in Preorder(ds, h, d) && x.id != d.id
  {
    InSomeTree(ds, h, Children(ds, Some(d.id)), h[d.id], x);
    var c :| c in Children(ds, Some(d.id)) && x in Preorder(ds, h, c);
    TreeIsLower(ds, h, c, x);
    InTree(ds, h, d, x);
  }

  lemma BelowUnvisited(ds: seq<Row>, h: map<string, nat>, d: Row, w: Walk)
    requires Falls(ds, h) && d.id in h && Unvisited(Preorder(ds, h, d), w)
    requires forall c | c in Children(ds, Some(d.id)) :: c in ds && c.parent == Some(d.id)
    ensures Unvisited(PreorderAll(ds, h, Children(ds, Some(d.id)), h[d.id]), Listed(w, [d]))
  {
    forall x | x in PreorderAll(ds, h, Children(ds, Some(d.id)), h[d.id])
      ensures x.id !in w.visited && x.id != d.id
    {
      BelowIsLower(ds, h, d, x);
    }
  }

  lemma {:induction false} VisitIsPreorder(ds: seq<Row>, h: map<string, nat>, d: Row, w: Walk)
    requires DistinctIds(ds) && Falls(ds, h) && d in ds && d.id in h && Unvisited(Preorder(ds, h, d), w)
    ensures Visit(ds, d, w) == Listed(w, Preorder(ds, h, d))
    decreases h[d.id], 1, 0
  {
    var cs := Children(ds, Some(d.id));
    ChildrenAre(ds, Some(d.id));
    ChildrenDistinct(ds, Some(d.id));
    BelowUnvisited(ds, h, d, w);
    assert d in Preorder(ds, h, d);
    assert Listed(w, [d]) == Walk(w.visited + {d.id}, w.ordered + [d]);
    VisitAllIsPreorder(ds, h, Some(d.id), cs, h[d.id], Listed(w, [d]));
    ListedTwice(w, [d], PreorderAll(ds, h, cs, h[d.id]));
  }

  lemma {:induction false} VisitAllIsPreorder(ds: seq<Row>, h: map<string, nat>, parent: Option<string>, cs: seq<Row>, bound: nat, w: Walk)
    requires DistinctIds(ds) && Falls(ds, h) && NoRepeats(cs)
    requires forall c | c in cs :: c in ds && c.parent == parent && c.id in h && h[c.id] < bound
    requires Unvisited(PreorderAll(ds, h, cs, bound), w)
    ensures VisitAll(ds, cs, w) == Listed(w, PreorderAll(ds, h, cs, bound))
    decreases bound, 0, |cs|
  {
    if cs == [] {
      assert Listed(w, []) == w;
    } else {
      var first, rest := Preorder(ds, h, cs[0]), PreorderAll(ds, h, cs[1..], bound);
      assert cs[0] in cs && forall c | c in cs[1..] :: c in cs && c != cs[0];
      VisitIsPreorder(ds, h, cs[0], w);
      forall x | x in rest
        ensures x.id !in Ids(first)
      {
        InSomeTree(ds, h, cs[1..], bound, x);
        var c :| c in cs[1..] && x in Preorder(ds, h, c);
        NotInFirst(ds, h, c, cs[0], x);
      }
      VisitAllIsPreorder(ds, h, parent, cs[1..], bound, Listed(w, first));
      ListedTwice(w, first, rest);
    }
  }

  lemma NotInFirst(ds: seq<Row>, h: map<string, nat>, c: Row, first: Row, x: Row)
    requires DistinctIds(ds) && Falls(ds, h) && c in ds && first in ds && c.id in h && first.id in h
    requires c.parent == first.parent && c != first && x in Preorder(ds, h, c)
    ensures x.id !in Ids(Preorder(ds, h, first))
  {
    SiblingsApart(ds, h, c, first, x);
    TreeIsLower(ds, h, c, x);
    forall y | y in Preorder(ds, h, first)
      ensures y.id != x.id
    {
      TreeIsLower(ds, h, first, y);
      if y.id == x.id { SameRow(ds, x, y); }
    }
  }

  // ----- Everything hangs under a root

  lemma Nest<T>(whole: seq<T>, before: seq<T>, part: seq<T>, behind: seq<T>, front: seq<T>, middle: seq<T>, back: seq<T>)
    requires whole == before + part + behind && part == front + middle + back
    ensures whole == (before + front) + middle + (back + behind)
  {
  }

  lemma {:induction false} InfixAll(ds: seq<Row>, h: map<string, nat>, cs: seq<Row>, bound: nat, c: Row) returns (pre: seq<Row>, post: seq<Row>)
    requires Falls(ds, h) && (forall x | x in cs :: x.id in h && h[x.id] < bound) && c in cs
    ensures PreorderAll(ds, h, cs, bound) == pre + Preorder(ds, h, c) + post
    decreases |cs|
  {
    if cs[0] == c {
      pre, post := [], PreorderAll(ds, h, cs[1..], bound);
      assert [] + Preorder(ds, h, c) == Preorder(ds, h, c);
    } else {
      var more;
      more, post := InfixAll(ds, h, cs[1..], bound, c);
      pre := Preorder(ds, h, cs[0]) + more;
      Prefixed(Preorder(ds, h, cs[0]), more, Preorder(ds, h, c), post);
    }
  }

  lemma ChildInfix(ds: seq<Row>, h: map<string, nat>, a: Row, c: Row) returns (before: seq<Row>, behind: seq<Row>)
    requires Falls(ds, h) && a.id in h && c in ds && c.parent == Some(a.id)
    ensures Preorder(ds, h, a) == before + Preorder(ds, h, c) + behind
  {
    ChildrenAre(ds, Some(a.id));
    var front;
    front, behind := InfixAll(ds, h, Children(ds, Some(a.id)), h[a.id], c);
    before := [a] + front;
    Prefixed([a], front, Preorder(ds, h, c), behind);
  }

  lemma Prefixed<T>(x: seq<T>, front: seq<T>, middle: seq<T>, back: seq<T>)
    ensures x + (front + middle + back) == (x + front) + middle + back
  {
  }

  /** The tree of a document in a tree is one stretch of it. */
  lemma {:induction false} Infix(ds: seq<Row>, h: map<string, nat>, a: Row, d: Row) returns (pre: seq<Row>, post: seq<Row>)
    requires Falls(ds, h) && a.id in h && a in ds && d in Preorder(ds, h, a) && d.id in h
    ensures Preorder(ds, h, a) == pre + Preorder(ds, h, d) + post
    decreases h[a.id]
  {
    if d == a {
      pre, post := [], [];
    } else {
      var c := ChildTowards(ds, h, a, d);
      var front, back := Infix(ds, h, c, d);
      var before, behind := ChildInfix(ds, h, a, c);
      pre, post := before + front, back + behind;
      Nest(Preorder(ds, h, a), before, Preorder(ds, h, c), behind, front, Preorder(ds, h, d), back);
    }
  }

  lemma {:induction false} UnderRoot(ds: seq<Row>, h: map<string, nat>, top: nat, x: Row) returns (r: Row)
    requires Heights(ds, h, top) && x in ds
    ensures r in ds && r.parent == None && x in Preorder(ds, h, r)
    decreases top - h[x.id]
  {
    match x.parent
    case None =>
      r := x;
      InTree(ds, h, x, x);
    case Some(p) =>
      var y :| y in ds && y.id == p;
      r := UnderRoot(ds, h, top, y);
      var pre, post := Infix(ds, h, r, y);
      InTree(ds, h, x, x);
      InTree(ds, h, y, x);
      assert x in pre + Preorder(ds, h, y) + post;
  }

  // ----- The main results

  ghost function ForestOrder(ds: seq<Row>, h: map<string, nat>, top: nat): seq<Row>
    requires Heights(ds, h, top)
  {
    ChildrenAre(ds, None);
    PreorderAll(ds, h, Children(ds, None), top + 1)
  }

  lemma {:induction false} NothingLeft(ds: seq<Row>, cs: seq<Row>, w: Walk)
    requires forall c | c in cs :: c in ds && c.id in w.visited
    ensures VisitAll(ds, cs, w) == w
    decreases |cs|
  {
    if cs != [] { NothingLeft(ds, cs[1..], w); }
  }

  lemma AllUnderRoots(ds: seq<Row>, h: map<string, nat>, top: nat, x: Row)
    requires Heights(ds, h, top) && x in ds
    ensures x in ForestOrder(ds, h, top)
  {
    var r := UnderRoot(ds, h, top, x);
    ChildrenAre(ds, None);
    InSomeTree(ds, h, Children(ds, None), top + 1, x);
  }

  /** On a well-formed forest the walk is the preorder, roots and siblings by order key and id. */
  lemma ForestIsPreorder(ds: seq<Row>, h: map<string, nat>, top: nat)
    requires Heights(ds, h, top)
    ensures Forest(ds).ordered == ForestOrder(ds, h, top)
  {
    var roots := Children(ds, None);
    ChildrenAre(ds, None);
    ChildrenDistinct(ds, None);
    VisitAllIsPreorder(ds, h, None, roots, top + 1, START);
    var w := VisitAll(ds, roots, START);
    forall x | x in ds
      ensures x.id in w.visited
    {
      AllUnderRoots(ds, h, top, x);
    }
    NothingLeft(ds, ds, w);
  }

  /** `ordered_subtree` of a listed document. */
  function Subtree(ds: seq<Row>, d: Row): seq<Row>
    requires d in ds
  {
    Visit(ds, d, START).ordered
  }

  lemma SubtreeIsPreorder(ds: seq<Row>, h: map<string, nat>, d: Row)
    requires DistinctIds(ds) && Falls(ds, h) && d in ds && d.id in h
    ensures Subtree(ds, d) == Preorder(ds, h, d)
  {
    VisitIsPreorder(ds, h, d, START);
  }

  lemma InForestOrder(ds: seq<Row>, h: map<string, nat>, top: nat, d: Row) returns (pre: seq<Row>, post: seq<Row>)
    requires Heights(ds, h, top) && d in ds
    ensures ForestOrder(ds, h, top) == pre + Preorder(ds, h, d) + post
  {
    var r := UnderRoot(ds, h, top, d);
    ChildrenAre(ds, None);
    var before, behind := InfixAll(ds, h, Children(ds, None), top + 1, r);
    var front, back := Infix(ds, h, r, d);
    pre, post := before + front, back + behind;
    Nest(ForestOrder(ds, h, top), before, Preorder(ds, h, r), behind, front, Preorder(ds, h, d), back);
  }

  /** Each subtree is one stretch of the forest order, and that stretch is `ordered_subtree`. */
  lemma SubtreeContiguous(ds: seq<Row>, h: map<string, nat>, top: nat, d: Row) returns (pre: seq<Row>, post: seq<Row>)
    requires Heights(ds, h, top) && d in ds
    ensures Forest(ds).ordered == pre + Subtree(ds, d) + post && Subtree(ds, d) == Preorder(ds, h, d)
  {
    ForestIsPreorder(ds, h, top);
    SubtreeIsPreorder(ds, h, d);
    pre, post := InForestOrder(ds, h, top, d);
  }

  lemma PlaceInTree(ds: seq<Row>, h: map<string, nat>, p: Row, c: Row) returns (k: nat)
    requires Falls(ds, h) && p.id in h && p in ds && c in ds && c.id in h && c.parent == Some(p.id)
    ensures Preorder(ds, h, p) != [] && Preorder(ds, h, p)[0] == p && 0 < k < |Preorder(ds, h, p)| && Preorder(ds, h, p)[k] == c
  {
    InTree(ds, h, c, c);
    InTree(ds, h, p, c);
    assert h[c.id] < h[p.id];
    k :| 0 <= k < |Preorder(ds, h, p)| && Preorder(ds, h, p)[k] == c;
  }

  /** A parent comes before its child. */
  lemma ParentFirst(ds: seq<Row>, h: map<string, nat>, top: nat, p: Row, c: Row) returns (i: nat, j: nat)
    requires Heights(ds, h, top) && p in ds && c in ds && c.parent == Some(p.id)
    ensures i < j < |Forest(ds).ordered| && Forest(ds).ordered[i] == p && Forest(ds).ordered[j] == c
  {
    var pre, post := SubtreeContiguous(ds, h, top, p);
    var k := PlaceInTree(ds, h, p, c);
    i, j := |pre|, |pre| + k;
    assert (pre + Preorder(ds, h, p) + post)[|pre| + k] == Preorder(ds, h, p)[k];
  }

  // ----- The walk, as it runs

  /** `sort_documents` on the documents under a parent. */
  method CollectChildren(ds: seq<Row>, parent: Option<string>) returns (cs: seq<Row>)
    ensures cs == Children(ds, parent)
  {
    var found: seq<Row> := [];
    for i := 0 to |ds|
      invariant found == Having(ds[..i], parent)
    {
      assert ds[..i + 1][..i] == ds[..i];
      if ds[i].parent == parent { found := found + [ds[i]]; }
    }
    assert ds[..|ds|] == ds;
    cs := SortBy(ByKey, found);
  }

  class Traversal {
    const documents: seq<Row>
    var visited: set<string>
    var ordered: seq<Row>

    function State(): Walk
      reads this
    {
      Walk(visited, ordered)
    }

    constructor (documents: seq<Row>)
      ensures this.documents == documents && State() == START
    {
      this.documents, visited, ordered := documents, {}, [];
    }

    /** `visit_document`. */
    method VisitDocument(d: Row)
      requires d in documents
      modifies this
      ensures State() == Visit(documents, d, old(State()))
      decreases |Ids(documents) - visited|, 1
    {
      if d.id in visited { return; }
      SeenShrinks(Ids(documents), visited, d.id);
      visited := visited + {d.id};
      ordered := ordered + [d];
      var children := CollectChildren(documents, Some(d.id));
      ChildrenAre(documents, Some(d.id));
      VisitEach(children);
    }

    /** The loops over children, roots and documents. */
    method VisitEach(cs: seq<Row>)
      requires forall c | c in cs :: c in documents
      modifies this
      ensures State() == VisitAll(documents, cs, old(State()))
      decreases |Ids(documents) - visited|, 2
    {
      ghost var start := State();
      for i := 0 to |cs|
        invariant start.visited <= visited && State() == VisitAll(documents, cs[..i], start)
      {
        VisitAllStep(documents, cs, start, i);
        SubsetSize(Ids(documents) - visited, Ids(documents) - start.visited);
        VisitDocument(cs[i]);
      }
      assert cs[..|cs|] == cs;
    }
  }

  lemma {:induction false} VisitAllStep(ds: seq<Row>, cs: seq<Row>, w: Walk, i: nat)
    requires (forall c | c in cs :: c in ds) && i < |cs|
    ensures VisitAll(ds, cs[..i + 1], w) == Visit(ds, cs[i], VisitAll(ds, cs[..i], w))
    decreases i
  {
    if i > 0 {
      VisitAllStep(ds, cs[1..], Visit(ds, cs[0], w), i - 1);
      assert cs[..i + 1][1..] == cs[1..][..i] && cs[..i][1..] == cs[1..][..i - 1];
    }
  }

  method OrderedForest(ds: seq<Row>) returns (ordered: seq<Row>)
    requires DistinctIds(ds)
    ensures ordered == Forest(ds).ordered
    ensures DistinctIds(ordered) && forall d :: d in ordered <==> d in ds
  {
    var walk := new Traversal(ds);
    var roots := CollectChildren(ds, None);
    ChildrenAre(ds, None);
    walk.VisitEach(roots);
    walk.VisitEach(ds);
    ordered := walk.ordered;
    EveryDocumentOnce(ds);
  }

  method OrderedSubtree(ds: seq<Row>, root: string) returns (ordered: seq<Row>)
    requires DistinctIds(ds)
    ensures forall d | d in ds && d.id == root :: ordered == Subtree(ds, d)
    ensures root !in Ids(ds) ==> ordered == []
  {
    for i := 0 to |ds|
      invariant forall j | 0 <= j < i :: ds[j].id != root
    {
      if ds[i].id == root {
        var walk := new Traversal(ds);
        walk.VisitDocument(ds[i]);
        return walk.ordered;
      }
    }
    return [];
  }
}
