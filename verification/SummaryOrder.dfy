/** The summary order of a project that the document commands keep well-formed. */
module SummaryOrder {
  import opened Common
  import opened Sorting
  import Lex
  import Forest = DocumentForest
  import Commands = DocumentCommands
  import Safety = DocumentSafety
  import opened DocumentTraversal

  function RowOf(docs: Forest.Documents, id: string): Row
    requires id in docs
  {
    Row(id, docs[id].parent, docs[id].orderKey)
  }

  /** `ds` are the active documents of the project, in any order. */
  ghost predicate ListsActive(docs: Forest.Documents, ds: seq<Row>) {
    && DistinctIds(ds)
    && forall d :: d in ds <==> d.id in docs && docs[d.id].active && d == RowOf(docs, d.id)
  }

  lemma MaxRank(rank: map<string, nat>, keys: set<string>) returns (top: nat)
    requires keys <= rank.Keys
    ensures forall k | k in keys :: rank[k] <= top
    decreases keys
  {
    if keys == {} {
      top := 0;
    } else {
      var k :| k in keys;
      top := MaxRank(rank, keys - {k});
      top := if rank[k] <= top then top else rank[k];
    }
  }

  lemma ProjectHeights(docs: Forest.Documents, ds: seq<Row>) returns (h: map<string, nat>, top: nat)
    requires Forest.WellFormed(docs) && ListsActive(docs, ds)
    ensures Heights(ds, h, top)
  {
    var rank :| Forest.Ranked(docs, rank);
    top := MaxRank(rank, rank.Keys);
    h := map id | id in docs :: top - rank[id];
    forall d | d in ds && d.parent.Some?
      ensures d.parent.value in Ids(ds) && h[d.id] < h[d.parent.value]
    {
      assert RowOf(docs, d.parent.value) in ds;
    }
  }

  /** The ids of a list of rows. */
  function RowIds(cs: seq<Row>): (ids: seq<string>)
    ensures |ids| == |cs|
    ensures forall i | 0 <= i < |cs| :: ids[i] == cs[i].id
  {
    seq(|cs|, i requires 0 <= i < |cs| => cs[i].id)
  }

  lemma ChildIds(docs: Forest.Documents, ds: seq<Row>, parent: Option<string>, id: string)
    requires ListsActive(docs, ds)
    ensures id in RowIds(Children(ds, parent)) <==> Forest.IsChild(docs, parent, id)
  {
    var cs, ids := Children(ds, parent), RowIds(Children(ds, parent));
    ChildrenAre(ds, parent);
    if id in ids {
      var i :| 0 <= i < |cs| && ids[i] == id;
      assert cs[i] in cs;
    }
    if Forest.IsChild(docs, parent, id) {
      assert RowOf(docs, id) in cs;
      var i :| 0 <= i < |cs| && cs[i] == RowOf(docs, id);
      assert ids[i] == id;
    }
  }

  lemma ChildrenOrdered(docs: Forest.Documents, ds: seq<Row>, parent: Option<string>, i: nat, j: nat)
    requires ListsActive(docs, ds) && i < j < |Children(ds, parent)|
    ensures var cs := Children(ds, parent); cs[i].id != cs[j].id && Forest.Before(docs, cs[i].id, cs[j].id)
  {
    var cs := Children(ds, parent);
    ChildrenAre(ds, parent);
    ChildrenDistinct(ds, parent);
    SortedRows(Having(ds, parent));
    assert cs[i] in cs && cs[j] in cs && cs[i] != cs[j];
    if cs[i].id == cs[j].id { SameRow(ds, cs[i], cs[j]); }
    assert ByKey(cs[i], cs[j]);
  }

  /** Children are visited in the order the workspace shows siblings. */
  lemma ChildrenAreSiblings(docs: Forest.Documents, ds: seq<Row>, parent: Option<string>)
    requires ListsActive(docs, ds)
    ensures Forest.Siblings(docs, parent) == RowIds(Children(ds, parent))
  {
    var cs, ids := Children(ds, parent), RowIds(Children(ds, parent));
    forall i, j | 0 <= i < j < |ids|
      ensures ids[i] != ids[j] && Forest.Before(docs, ids[i], ids[j])
    {
      ChildrenOrdered(docs, ds, parent, i, j);
    }
    forall id ensures id in ids <==> Forest.IsChild(docs, parent, id) { ChildIds(docs, ds, parent, id); }
    Forest.TheSiblings(docs, parent, ids);
  }

  lemma SortedRows(rows: seq<Row>)
    ensures Sorted(ByKey, SortBy(ByKey, rows))
  {
    ByKeyIsOrdering();
    SortBySorts(ByKey, rows);
  }

  lemma ByKeyIsOrdering()
    ensures Ordering(ByKey)
  {
    Lex.IsOrdering();
  }

  /**
   After any run of document commands the summary walk is the preorder: parents first, siblings in
   order, every active document once, and each subtree in one stretch, equal to `ordered_subtree`.
   */
  lemma SummaryWalk(docs: Forest.Documents, commands: seq<Commands.Command>, ds: seq<Row>, d: Row)
    returns (h: map<string, nat>, top: nat, pre: seq<Row>, post: seq<Row>)
    requires Forest.WellFormed(docs) && Safety.FreshRun(docs, commands)
    requires ListsActive(Safety.ExecuteAll(docs, commands), ds) && d in ds
    ensures Heights(ds, h, top) && DocumentTraversal.Forest(ds).ordered == ForestOrder(ds, h, top)
    ensures DistinctIds(DocumentTraversal.Forest(ds).ordered)
    ensures forall x :: x in DocumentTraversal.Forest(ds).ordered <==> x in ds
    ensures DocumentTraversal.Forest(ds).ordered == pre + Subtree(ds, d) + post
  {
    Safety.EveryRunWellFormed(docs, commands);
    EveryDocumentOnce(ds);
    h, top := ProjectHeights(Safety.ExecuteAll(docs, commands), ds);
    ForestIsPreorder(ds, h, top);
    pre, post := SubtreeContiguous(ds, h, top, d);
  }
}
