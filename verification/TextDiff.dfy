/**
 The text diff of `snapshot.rs`: the greedy O(ND) forward pass with its saved trace,
 the backtracking pass over that trace, coalescing, and the whole-block fallback.
 */
module TextDiff {
  import opened Common
  import opened EditGrid
  import opened TextScript

  // ----- Forward pass

  /** Entry k of the diagonal buffer holds the furthest point of diagonal k for cost d. */
  ghost predicate Filled(a: string, b: string, v: seq<int>, d: int, k: int) {
    && |v| == 2 * (|a| + |b|) + 1
    && 0 <= k + |a| + |b| < |v|
    && Furthest(a, b, d, k, v[k + |a| + |b|])
  }

  /** The diagonals of step d below `end` are done. */
  ghost predicate Front(a: string, b: string, v: seq<int>, d: int, end: int) {
    forall k | -d <= k < end && (k + d) % 2 == 0 :: Filled(a, b, v, d, k)
  }

  /** Every saved copy holds the step before it. */
  ghost predicate Traced(a: string, b: string, trace: seq<seq<int>>) {
    forall d | 0 < d < |trace| :: Front(a, b, trace[d], d - 1, d)
  }

  /** The stopping test of the forward loop, applied to a stored diagonal. */
  ghost predicate Stops(a: string, b: string, v: seq<int>, k: int) {
    && 0 <= k + |a| + |b| < |v|
    && v[k + |a| + |b|] >= |a| && v[k + |a| + |b|] - k >= |b|
  }

  ghost predicate NoneStopped(a: string, b: string, v: seq<int>, d: int, end: int) {
    forall k | -d <= k < end && (k + d) % 2 == 0 :: !Stops(a, b, v, k)
  }

  lemma FrontSet(a: string, b: string, v: seq<int>, d: int, k: int, x: int)
    requires |v| == 2 * (|a| + |b|) + 1 && 0 <= d <= |a| + |b| && -d <= k <= d && (k + d) % 2 == 0
    requires Front(a, b, v, d, k) && Furthest(a, b, d, k, x)
    ensures Front(a, b, v[k + |a| + |b| := x], d, k + 2)
  {
    var v' := v[k + |a| + |b| := x];
    forall kk | -d <= kk < k + 2 && (kk + d) % 2 == 0
      ensures Filled(a, b, v', d, kk)
    {
      assert kk == k || (kk < k && Filled(a, b, v, d, kk));
    }
  }

  lemma FrontKeeps(a: string, b: string, v: seq<int>, d: int, k: int, x: int)
    requires |v| == 2 * (|a| + |b|) + 1 && 0 < d <= |a| + |b| && -d <= k <= d && (k + d) % 2 == 0
    requires Front(a, b, v, d - 1, d)
    ensures Front(a, b, v[k + |a| + |b| := x], d - 1, d)
  {
    var v', e := v[k + |a| + |b| := x], d - 1;
    forall kk | -e <= kk < d && (kk + e) % 2 == 0
      ensures Filled(a, b, v', e, kk)
    {
      assert Filled(a, b, v, e, kk) && kk != k;
    }
  }

  lemma NoneStoppedSet(a: string, b: string, v: seq<int>, d: int, k: int, x: int)
    requires |v| == 2 * (|a| + |b|) + 1 && 0 <= d <= |a| + |b| && -d <= k <= d && (k + d) % 2 == 0
    requires NoneStopped(a, b, v, d, k) && !(x >= |a| && x - k >= |b|)
    ensures NoneStopped(a, b, v[k + |a| + |b| := x], d, k + 2)
  {
    var v' := v[k + |a| + |b| := x];
    forall kk | -d <= kk < k + 2 && (kk + d) % 2 == 0
      ensures !Stops(a, b, v', kk)
    {
      assert kk == k || (kk < k && !Stops(a, b, v, kk));
    }
  }

  /** The two stored neighbours that step d reads for diagonal k. */
  ghost predicate InBuffer(a: string, b: string, v: seq<int>, d: int, k: int) {
    && |a| + |b| > 0 && |v| == 2 * (|a| + |b|) + 1
    && 0 <= d <= |a| + |b| && -d <= k <= d && (k + d) % 2 == 0
  }

  ghost function LeftOf(a: string, b: string, v: seq<int>, d: int, k: int): int
    requires InBuffer(a, b, v, d, k)
  {
    if k > -d then v[k - 1 + |a| + |b|] else 0
  }

  ghost function RightOf(a: string, b: string, v: seq<int>, d: int, k: int): int
    requires InBuffer(a, b, v, d, k)
  {
    if k < d || d == 0 then v[k + 1 + |a| + |b|] else 0
  }

  /** What step d may rely on: the step before it, or the zero entry it starts from. */
  ghost predicate Ready(a: string, b: string, v: seq<int>, d: int) {
    && |a| + |b| > 0 && |v| == 2 * (|a| + |b|) + 1
    && (d == 0 ==> v[|a| + |b| + 1] == 0)
    && (d > 0 ==> Front(a, b, v, d - 1, d))
  }

  ghost function StartAt(a: string, b: string, v: seq<int>, d: int, k: int): int
    requires InBuffer(a, b, v, d, k)
  {
    StartX(d, k, LeftOf(a, b, v, d, k), RightOf(a, b, v, d, k))
  }

  lemma ReadyGives(a: string, b: string, v: seq<int>, d: int, k: int)
    requires Ready(a, b, v, d) && InBuffer(a, b, v, d, k)
    ensures Source(a, b, d, k, LeftOf(a, b, v, d, k), RightOf(a, b, v, d, k))
  {
    if d > 0 {
      assert k > -d ==> Filled(a, b, v, d - 1, k - 1);
      assert k < d ==> Filled(a, b, v, d - 1, k + 1);
    }
  }

  lemma StartOnDiagonal(a: string, b: string, v: seq<int>, d: int, k: int)
    requires Ready(a, b, v, d) && InBuffer(a, b, v, d, k)
    ensures var x := StartAt(a, b, v, d, k);
      x >= 0 && x - k >= 0 && D(a, b, x, x - k) <= d
  {
    ReadyGives(a, b, v, d, k);
    StartReachable(a, b, d, k, LeftOf(a, b, v, d, k), RightOf(a, b, v, d, k));
  }

  lemma SlideEnds(a: string, b: string, v: seq<int>, d: int, k: int, x: int)
    requires Ready(a, b, v, d) && InBuffer(a, b, v, d, k)
    requires x >= StartAt(a, b, v, d, k) && x >= 0 && x - k >= 0
    requires D(a, b, x, x - k) <= d && !Matches(a, b, x, x - k)
    ensures Furthest(a, b, d, k, x)
  {
    ReadyGives(a, b, v, d, k);
    SlideIsFurthest(a, b, d, k, LeftOf(a, b, v, d, k), RightOf(a, b, v, d, k), x);
  }

  /** A step that is done and never stopped puts the corner out of its reach. */
  lemma StepWithoutStop(a: string, b: string, v: seq<int>, d: int)
    requires d >= 0 && Front(a, b, v, d, d + 1) && NoneStopped(a, b, v, d, d + 1)
    requires d <= EditDistance(a, b)
    ensures d < EditDistance(a, b)
  {
    if d == EditDistance(a, b) {
      CornerDiagonal(a, b);
      var k := |a| - |b|;
      assert Filled(a, b, v, d, k) && !Stops(a, b, v, k);
      CornerStops(a, b, d, v[k + |a| + |b|]);
    }
  }

  /** Follow matches down diagonal x - y, the innermost loop. */
  method Slide(a: string, b: string, x0: int, y0: int) returns (x: int, y: int)
    requires x0 >= 0 && y0 >= 0
    ensures x >= x0 && x - y == x0 - y0 && !Matches(a, b, x, y)
    ensures D(a, b, x, y) == D(a, b, x0, y0)
  {
    x, y := x0, y0;
    while x < |a| && y < |b| && a[x] == b[y]
      invariant x >= x0 && x - y == x0 - y0
      invariant D(a, b, x, y) == D(a, b, x0, y0)
      decreases |a| - x
    {
      MatchStep(a, b, x, y);
      x, y := x + 1, y + 1;
    }
  }

  /** The body of the inner loop: compute the furthest point of one diagonal and store it. */
  method FillDiagonal(a: string, b: string, v: array<int>, d: int, k: int) returns (x: int)
    requires InBuffer(a, b, v[..], d, k) && Ready(a, b, v[..], d)
    modifies v
    ensures Furthest(a, b, d, k, x)
    ensures v[..] == old(v[..])[k + |a| + |b| := x]
  {
    StartOnDiagonal(a, b, v[..], d, k);
    var offset := |a| + |b|;
    x :=
      if k == -d then v[k + 1 + offset]
      else if k == d then v[k - 1 + offset] + 1
      else if v[k - 1 + offset] < v[k + 1 + offset] then v[k + 1 + offset]
      else v[k - 1 + offset] + 1;
    assert x == StartAt(a, b, v[..], d, k);
    var y := x - k;
    x, y := Slide(a, b, x, y);
    SlideEnds(a, b, v[..], d, k, x);
    v[k + offset] := x;
  }

  /** The stored point on the corner's diagonal is the corner itself, no further. */
  ghost predicate OnCorner(a: string, b: string, v: seq<int>, d: int) {
    && |v| == 2 * (|a| + |b|) + 1
    && -d <= |a| - |b| <= d
    && v[|a| - |b| + |a| + |b|] == |a|
  }

  /** One value of d: fill its diagonals in place until one of them stops the search. */
  method ForwardStep(a: string, b: string, v: array<int>, d: int) returns (reached: bool)
    requires a != "" && b != "" && 0 <= d <= |a| + |b| && Ready(a, b, v[..], d)
    requires d <= EditDistance(a, b)
    modifies v
    ensures reached ==> d == EditDistance(a, b) && OnCorner(a, b, v[..], d)
    ensures !reached ==> d < EditDistance(a, b) && Front(a, b, v[..], d, d + 1)
  {
    var k := -d;
    while k <= d
      invariant -d <= k <= d + 2 && (k + d) % 2 == 0
      invariant k <= d ==> Ready(a, b, v[..], d)
      invariant Front(a, b, v[..], d, k) && NoneStopped(a, b, v[..], d, k)
    {
      ghost var before := v[..];
      var x := FillDiagonal(a, b, v, d, k);
      if x >= |a| && x - k >= |b| {
        Overshoot(a, b, x, x - k);
        return true;
      }
      FrontSet(a, b, before, d, k, x);
      if d > 0 { FrontKeeps(a, b, before, d, k, x); }
      NoneStoppedSet(a, b, before, d, k, x);
      k := k + 2;
    }
    StepWithoutStop(a, b, v[..], d);
    return false;
  }

  /**
   The forward loop. Its stopping test accepts points beyond the corner and its result is
   optional, yet it always stops, exactly on the corner, at the edit distance. `last` is `v` then.
   */
  method ForwardPass(a: string, b: string) returns (foundD: Option<nat>, trace: seq<seq<int>>, ghost last: seq<int>)
    requires a != "" && b != ""
    ensures foundD.Some? && foundD.value == EditDistance(a, b) && OnCorner(a, b, last, foundD.value)
    ensures |trace| == foundD.value + 1 && Traced(a, b, trace)
    ensures forall d | 0 <= d < |trace| :: |trace[d]| == 2 * (|a| + |b|) + 1
  {
    var max := |a| + |b|;
    var v := new int[2 * max + 1](_ => 0);
    trace := [];
    foundD := None;
    last := [];
    CornerDiagonal(a, b);
    var d := 0;
    while d <= max
      invariant 0 <= d <= max + 1 && foundD == None
      invariant d <= EditDistance(a, b)
      invariant |trace| == d && Traced(a, b, trace)
      invariant forall e | 0 <= e < |trace| :: |trace[e]| == 2 * max + 1
      invariant Ready(a, b, v[..], d)
    {
      trace := trace + [v[..]];
      var reached := ForwardStep(a, b, v, d);
      if reached {
        foundD := Some(d);
        last := v[..];
        break;
      }
      d := d + 1;
    }
  }

  // ----- Backtracking

  /** The operations pushed so far, last one first, turn a[x..] into b[y..]. */
  ghost predicate Pushed(a: string, b: string, x: int, y: int, ops: seq<TextOp>, edits: int) {
    && 0 <= x <= |a| && 0 <= y <= |b|
    && Script(Reverse(ops), a[x..], b[y..], edits)
    && NoEmptyPiece(ops)
  }

  lemma Push(a: string, b: string, x: int, y: int, ops: seq<TextOp>, edits: int, op: TextOp)
    requires Pushed(a, b, x, y, ops, edits) && op.text != ""
    requires 0 <= x - |op.Old()| && op.Old() == a[x - |op.Old()|..x]
    requires 0 <= y - |op.New()| && op.New() == b[y - |op.New()|..y]
    ensures Pushed(a, b, x - |op.Old()|, y - |op.New()|, ops + [op], edits + op.Cost())
  {
    assert (ops + [op])[..|ops|] == ops;
    assert Reverse(ops + [op]) == [op] + Reverse(ops);
    ScriptCons(op, Reverse(ops), a[x..], b[y..], edits);
    SuffixBefore(a, x - |op.Old()|, x);
    SuffixBefore(b, y - |op.New()|, y);
  }

  lemma ScriptCons(op: TextOp, ops: seq<TextOp>, before: string, after: string, edits: int)
    requires Script(ops, before, after, edits)
    ensures Script([op] + ops, op.Old() + before, op.New() + after, op.Cost() + edits)
  {
    assert ([op] + ops)[1..] == ops;
  }

  lemma SuffixBefore(s: string, i: nat, j: nat)
    requires i <= j <= |s|
    ensures s[i..] == s[i..j] + s[j..]
  {
  }

  lemma OneLetter(s: string, i: nat)
    requires i < |s|
    ensures s[i..i + 1] == [s[i]]
  {
  }

  lemma PushEqual(a: string, b: string, x: int, y: int, ops: seq<TextOp>, edits: int)
    requires Pushed(a, b, x, y, ops, edits) && x > 0 && y > 0 && a[x - 1] == b[y - 1]
    ensures Pushed(a, b, x - 1, y - 1, ops + [Equal([a[x - 1]])], edits)
  {
    var op := Equal([a[x - 1]]);
    assert op.Old() == [a[x - 1]] && op.New() == [b[y - 1]];
    OneLetter(a, x - 1);
    OneLetter(b, y - 1);
    Push(a, b, x, y, ops, edits, op);
  }

  lemma PushDelete(a: string, b: string, x: int, y: int, ops: seq<TextOp>, edits: int)
    requires Pushed(a, b, x, y, ops, edits) && x > 0
    ensures Pushed(a, b, x - 1, y, ops + [Delete([a[x - 1]])], edits + 1)
  {
    var op := Delete([a[x - 1]]);
    assert op.Old() == [a[x - 1]] && op.New() == [];
    OneLetter(a, x - 1);
    Push(a, b, x, y, ops, edits, op);
  }

  lemma PushInsert(a: string, b: string, x: int, y: int, ops: seq<TextOp>, edits: int)
    requires Pushed(a, b, x, y, ops, edits) && y > 0
    ensures Pushed(a, b, x, y - 1, ops + [Insert([b[y - 1]])], edits + 1)
  {
    var op := Insert([b[y - 1]]);
    assert op.Old() == [] && op.New() == [b[y - 1]];
    OneLetter(b, y - 1);
    Push(a, b, x, y, ops, edits, op);
  }

  /** Cells of diagonal k from column `from` up to column `to` are matches. */
  ghost predicate MatchRunOn(a: string, b: string, k: int, from: int, to: int) {
    forall x | from <= x < to :: MatchOn(a, b, k, x)
  }

  ghost predicate MatchOn(a: string, b: string, k: int, x: int) {
    x >= 0 && x - k >= 0 && Matches(a, b, x, x - k)
  }

  /** The two loops that walk back over a run of matches. */
  method SlideBack(a: string, b: string, x0: int, y0: int, toX: int, toY: int, ops0: seq<TextOp>, ghost edits: int)
    returns (x: int, y: int, ops: seq<TextOp>)
    requires 0 <= toX <= x0 && 0 <= toY <= y0
    requires Pushed(a, b, x0, y0, ops0, edits)
    requires MatchRunOn(a, b, x0 - y0, Max(toX, toY + x0 - y0), x0)
    ensures x == Max(toX, toY + x0 - y0) && x - y == x0 - y0
    ensures Pushed(a, b, x, y, ops, edits)
  {
    x, y, ops := x0, y0, ops0;
    while x > toX && y > toY
      invariant Max(toX, toY + x0 - y0) <= x <= x0 && x - y == x0 - y0
      invariant Pushed(a, b, x, y, ops, edits)
      decreases x
    {
      assert MatchOn(a, b, x0 - y0, x - 1);
      PushEqual(a, b, x, y, ops, edits);
      ops := ops + [Equal([a[x - 1]])];
      x, y := x - 1, y - 1;
    }
  }

  /** Where the backtracking loop stands before it undoes step d. */
  ghost predicate AtFurthest(a: string, b: string, d: int, x: int, y: int) {
    && 0 <= d <= |a| + |b| && -d <= x - y <= d && (x - y + d) % 2 == 0
    && Furthest(a, b, d, x - y, x)
  }

  /** From the start of step d to a furthest point the diagonal is all matches, none recorded. */
  lemma UndoSlide(a: string, b: string, d: int, k: int, left: int, right: int, x: int)
    requires -d <= k <= d && Source(a, b, d, k, left, right) && Furthest(a, b, d, k, x)
    ensures 0 <= StartX(d, k, left, right) <= x
    ensures MatchRunOn(a, b, k, StartX(d, k, left, right), x)
  {
    var start := StartX(d, k, left, right);
    StartReachable(a, b, d, k, left, right);
    WithinFurthest(a, b, d, k, x, start);
    forall xx | start <= xx < x
      ensures MatchOn(a, b, k, xx)
    {
      SlideWasMatches(a, b, d, k, left, right, xx, x);
    }
  }

  function PrevDiagonal(d: int, k: int, left: int, right: int): int {
    if k == -d then k + 1
    else if k == d then k - 1
    else if left < right then k + 1
    else k - 1
  }

  /** The predecessor is a furthest point of step d - 1, one straight step before the start. */
  lemma PredecessorPoint(a: string, b: string, d: int, k: int, left: int, right: int)
    requires 0 < d <= |a| + |b| && -d <= k <= d && (k + d) % 2 == 0 && Source(a, b, d, k, left, right)
    ensures var prevK := PrevDiagonal(d, k, left, right);
      var prevX := if prevK == k + 1 then right else left;
      && AtFurthest(a, b, d - 1, prevX, prevX - prevK)
      && 0 <= prevX && 0 <= prevX - prevK
      && StartX(d, k, left, right) == Max(prevX, prevX - prevK + k)
  {
  }

  lemma PredecessorSlide(a: string, b: string, d: int, k: int, left: int, right: int, x: int)
    requires 0 < d <= |a| + |b| && -d <= k <= d && (k + d) % 2 == 0 && Source(a, b, d, k, left, right)
    requires Furthest(a, b, d, k, x)
    ensures var prevK := PrevDiagonal(d, k, left, right);
      var prevX := if prevK == k + 1 then right else left;
      && 0 <= prevX <= x && 0 <= prevX - prevK <= x - k
      && MatchRunOn(a, b, k, Max(prevX, prevX - prevK + k), x)
  {
    PredecessorPoint(a, b, d, k, left, right);
    UndoSlide(a, b, d, k, left, right, x);
  }

  /** The predecessor that backtracking reads from the saved buffer. */
  method ReadPredecessor(a: string, b: string, v: seq<int>, d: int, k: int) returns (prevX: int, prevY: int)
    requires d > 0 && InBuffer(a, b, v, d, k)
    ensures IsPredecessor(a, b, v, d, k, prevX, prevY)
  {
    var offset := |a| + |b|;
    var prevK :=
      if k == -d then k + 1
      else if k == d then k - 1
      else if v[k - 1 + offset] < v[k + 1 + offset] then k + 1
      else k - 1;
    prevX := v[prevK + offset];
    prevY := prevX - prevK;
  }

  /** What backtracking reads at (x, y), as the pair of functions of the buffer that it is. */
  ghost predicate IsPredecessor(a: string, b: string, v: seq<int>, d: int, k: int, prevX: int, prevY: int)
  {
    && d > 0 && InBuffer(a, b, v, d, k)
    && var left, right := LeftOf(a, b, v, d, k), RightOf(a, b, v, d, k);
       var prevK := PrevDiagonal(d, k, left, right);
       prevX == (if prevK == k + 1 then right else left) && prevY == prevX - prevK
  }

  lemma PredecessorIsFurthest(a: string, b: string, v: seq<int>, d: int, k: int, prevX: int, prevY: int)
    requires IsPredecessor(a, b, v, d, k, prevX, prevY) && Ready(a, b, v, d)
    ensures AtFurthest(a, b, d - 1, prevX, prevY)
    ensures prevX - prevY == k + 1 || prevX - prevY == k - 1
  {
    ReadyGives(a, b, v, d, k);
    PredecessorPoint(a, b, d, k, LeftOf(a, b, v, d, k), RightOf(a, b, v, d, k));
  }

  lemma PredecessorBeforeSlide(a: string, b: string, v: seq<int>, d: int, k: int, prevX: int, prevY: int, x: int)
    requires IsPredecessor(a, b, v, d, k, prevX, prevY) && Ready(a, b, v, d) && Furthest(a, b, d, k, x)
    ensures 0 <= prevX <= x && 0 <= prevY <= x - k
    ensures MatchRunOn(a, b, k, Max(prevX, prevY + k), x)
  {
    ReadyGives(a, b, v, d, k);
    PredecessorSlide(a, b, d, k, LeftOf(a, b, v, d, k), RightOf(a, b, v, d, k), x);
  }

  method Predecessor(a: string, b: string, v: seq<int>, d: int, k: int, ghost x: int) returns (prevX: int, prevY: int)
    requires d > 0 && Ready(a, b, v, d) && AtFurthest(a, b, d, x, x - k)
    ensures AtFurthest(a, b, d - 1, prevX, prevY)
    ensures 0 <= prevX <= x && 0 <= prevY <= x - k
    ensures prevX - prevY == k + 1 || prevX - prevY == k - 1
    ensures MatchRunOn(a, b, k, Max(prevX, prevY + k), x)
  {
    prevX, prevY := ReadPredecessor(a, b, v, d, k);
    PredecessorIsFurthest(a, b, v, d, k, prevX, prevY);
    PredecessorBeforeSlide(a, b, v, d, k, prevX, prevY, x);
  }

  /** Push the one straight step between the predecessor and the start of the slide. */
  method PushStraight(a: string, b: string, x0: int, y0: int, prevX: int, prevY: int, ops0: seq<TextOp>, ghost edits: int)
    returns (x: int, y: int, ops: seq<TextOp>)
    requires Pushed(a, b, x0, y0, ops0, edits) && 0 <= prevX && 0 <= prevY
    requires (x0 == prevX + 1 && y0 == prevY) || (x0 == prevX && y0 == prevY + 1)
    ensures x == prevX && y == prevY && Pushed(a, b, x, y, ops, edits + 1)
  {
    x, y, ops := x0, y0, ops0;
    if x > prevX {
      PushDelete(a, b, x, y, ops, edits);
      ops := ops + [Delete([a[x - 1]])];
      x := x - 1;
    } else if y > prevY {
      PushInsert(a, b, x, y, ops, edits);
      ops := ops + [Insert([b[y - 1]])];
      y := y - 1;
    }
  }

  /**
   Undo step d: walk back over the matches and push the straight step. Lands on the furthest
   point of step d - 1.
   */
  method UndoStep(a: string, b: string, v: seq<int>, d: int, x0: int, y0: int, ops0: seq<TextOp>, ghost edits: int)
    returns (x: int, y: int, ops: seq<TextOp>)
    requires d > 0 && Ready(a, b, v, d) && AtFurthest(a, b, d, x0, y0)
    requires Pushed(a, b, x0, y0, ops0, edits)
    ensures AtFurthest(a, b, d - 1, x, y) && Pushed(a, b, x, y, ops, edits + 1)
  {
    var prevX, prevY := Predecessor(a, b, v, d, x0 - y0, x0);
    x, y, ops := SlideBack(a, b, x0, y0, prevX, prevY, ops0, edits);
    x, y, ops := PushStraight(a, b, x, y, prevX, prevY, ops, edits);
  }

  lemma CornerIsFurthest(a: string, b: string, d: int)
    requires d == EditDistance(a, b)
    ensures AtFurthest(a, b, d, |a|, |b|)
  {
    CornerDiagonal(a, b);
    Overshoot(a, b, |a| + 1, |b| + 1);
  }

  lemma NothingPushed(a: string, b: string)
    ensures Pushed(a, b, |a|, |b|, [], 0)
  {
  }

  /** At cost zero only the run of matches from the origin is left. */
  method UndoFirstSlide(a: string, b: string, x0: int, y0: int, ops0: seq<TextOp>, ghost edits: int) returns (ops: seq<TextOp>)
    requires AtFurthest(a, b, 0, x0, y0) && Pushed(a, b, x0, y0, ops0, edits)
    ensures Script(Reverse(ops), a, b, edits) && NoEmptyPiece(ops)
  {
    UndoSlide(a, b, 0, 0, 0, 0, x0);
    var x, y;
    x, y, ops := SlideBack(a, b, x0, y0, 0, 0, ops0, edits);
    assert a[0..] == a && b[0..] == b;
  }

  lemma CornerPushed(a: string, b: string, d: int)
    requires d == EditDistance(a, b)
    ensures 0 <= d && Undone(a, b, d, 0, |a|, |b|, [])
  {
    CornerIsFurthest(a, b, d);
    NothingPushed(a, b);
  }

  /** Where backtracking stands before it undoes step d: what is pushed and the point it is at. */
  ghost predicate Undone(a: string, b: string, d: int, edits: int, x: int, y: int, ops: seq<TextOp>) {
    AtFurthest(a, b, d, x, y) && Pushed(a, b, x, y, ops, edits)
  }

  /** A whole saved trace. */
  ghost predicate WholeTrace(a: string, b: string, trace: seq<seq<int>>, dFinal: int) {
    && |a| + |b| > 0 && |trace| == dFinal + 1 && Traced(a, b, trace)
    && forall d | 0 <= d < |trace| :: |trace[d]| == 2 * (|a| + |b|) + 1
  }

  method UndoOne(a: string, b: string, trace: seq<seq<int>>, d: int, x0: int, y0: int, ops0: seq<TextOp>, ghost dFinal: int, ghost edits: int)
    returns (x: int, y: int, ops: seq<TextOp>)
    requires WholeTrace(a, b, trace, dFinal) && 0 < d <= dFinal && Undone(a, b, d, edits, x0, y0, ops0)
    ensures Undone(a, b, d - 1, edits + 1, x, y, ops)
  {
    assert Ready(a, b, trace[d], d);
    x, y, ops := UndoStep(a, b, trace[d], d, x0, y0, ops0, edits);
  }

  /** Undo every step of the trace. */
  method UndoTrace(a: string, b: string, trace: seq<seq<int>>, dFinal: int) returns (x: int, y: int, ops: seq<TextOp>)
    requires WholeTrace(a, b, trace, dFinal) && Undone(a, b, dFinal, 0, |a|, |b|, [])
    ensures Undone(a, b, 0, dFinal, x, y, ops)
  {
    x, y, ops := |a|, |b|, [];
    var d := dFinal;
    ghost var edits := 0;
    while d >= 1
      invariant 0 <= d <= dFinal && edits + d == dFinal
      invariant Undone(a, b, d, edits, x, y, ops)
    {
      x, y, ops := UndoOne(a, b, trace, d, x, y, ops, dFinal, edits);
      d, edits := d - 1, edits + 1;
    }
    assert d == 0 && edits == dFinal;
  }

  /** Undo every step of the trace, then the run of matches before the first. */
  method Backtrack(a: string, b: string, trace: seq<seq<int>>, dFinal: int) returns (ops: seq<TextOp>)
    requires |a| + |b| > 0 && dFinal == EditDistance(a, b)
    requires |trace| == dFinal + 1 && Traced(a, b, trace)
    requires forall d | 0 <= d < |trace| :: |trace[d]| == 2 * (|a| + |b|) + 1
    ensures Script(Reverse(ops), a, b, dFinal) && NoEmptyPiece(ops)
  {
    var x, y;
    CornerPushed(a, b, dFinal);
    x, y, ops := UndoTrace(a, b, trace, dFinal);
    ops := UndoFirstSlide(a, b, x, y, ops, dFinal);
  }

  lemma {:induction false} ReverseKeepsPieces(ops: seq<TextOp>)
    requires NoEmptyPiece(ops)
    ensures NoEmptyPiece(Reverse(ops))
  {
    if ops != [] { ReverseKeepsPieces(ops[..|ops| - 1]); }
  }

  // ----- Coalescing

  lemma OldSnoc(ops: seq<TextOp>, op: TextOp)
    ensures OldText(ops + [op]) == OldText(ops) + op.Old()
  {
    OldConcat(ops, [op]);
    assert OldText([op]) == op.Old() + OldText([]);
  }

  lemma NewSnoc(ops: seq<TextOp>, op: TextOp)
    ensures NewText(ops + [op]) == NewText(ops) + op.New()
  {
    NewConcat(ops, [op]);
    assert NewText([op]) == op.New() + NewText([]);
  }

  lemma EditsSnoc(ops: seq<TextOp>, op: TextOp)
    ensures Edits(ops + [op]) == Edits(ops) + op.Cost()
  {
    EditsConcat(ops, [op]);
  }

  /** The one piece that two neighbours of the same kind grow into. */
  function Grown(last: TextOp, op: TextOp): TextOp {
    last.(text := last.text + op.text)
  }

  lemma GrowOld(init: seq<TextOp>, last: TextOp, op: TextOp)
    requires last.SameKind(op)
    ensures OldText(init + [Grown(last, op)]) == OldText(init + [last]) + op.Old()
  {
    calc {
      OldText(init + [Grown(last, op)]);
      { OldSnoc(init, Grown(last, op)); }
      OldText(init) + Grown(last, op).Old();
      OldText(init) + (last.Old() + op.Old());
      { Associative(OldText(init), last.Old(), op.Old()); }
      (OldText(init) + last.Old()) + op.Old();
      { OldSnoc(init, last); }
      OldText(init + [last]) + op.Old();
    }
  }

  lemma GrowNew(init: seq<TextOp>, last: TextOp, op: TextOp)
    requires last.SameKind(op)
    ensures NewText(init + [Grown(last, op)]) == NewText(init + [last]) + op.New()
  {
    calc {
      NewText(init + [Grown(last, op)]);
      { NewSnoc(init, Grown(last, op)); }
      NewText(init) + Grown(last, op).New();
      NewText(init) + (last.New() + op.New());
      { Associative(NewText(init), last.New(), op.New()); }
      (NewText(init) + last.New()) + op.New();
      { NewSnoc(init, last); }
      NewText(init + [last]) + op.New();
    }
  }

  lemma GrowEdits(init: seq<TextOp>, last: TextOp, op: TextOp)
    requires last.SameKind(op)
    ensures Edits(init + [Grown(last, op)]) == Edits(init + [last]) + op.Cost()
  {
    EditsSnoc(init, Grown(last, op));
    EditsSnoc(init, last);
  }

  /** Both lists are scripts between the same texts at the same cost. */
  ghost predicate SameScript(ops: seq<TextOp>, that: seq<TextOp>) {
    OldText(ops) == OldText(that) && NewText(ops) == NewText(that) && Edits(ops) == Edits(that)
  }

  lemma GrowLast(ops: seq<TextOp>, op: TextOp)
    requires ops != [] && ops[|ops| - 1].SameKind(op)
    ensures SameScript(ops[..|ops| - 1] + [Grown(ops[|ops| - 1], op)], ops + [op])
  {
    var init, last := ops[..|ops| - 1], ops[|ops| - 1];
    assert ops == init + [last];
    GrowOld(init, last, op);
    GrowNew(init, last, op);
    GrowEdits(init, last, op);
    OldSnoc(ops, op);
    NewSnoc(ops, op);
    EditsSnoc(ops, op);
  }

  lemma SameScriptSnoc(ops: seq<TextOp>, that: seq<TextOp>, op: TextOp)
    requires SameScript(ops, that)
    ensures SameScript(ops + [op], that + [op])
  {
    OldSnoc(ops, op);
    NewSnoc(ops, op);
    EditsSnoc(ops, op);
    OldSnoc(that, op);
    NewSnoc(that, op);
    EditsSnoc(that, op);
  }

  /** One turn of the loop: grow the last piece or push a new one. */
  method AppendOp(ops0: seq<TextOp>, op: TextOp) returns (ops: seq<TextOp>)
    ensures SameScript(ops, ops0 + [op])
    ensures Coalesced(ops0) ==> Coalesced(ops)
    ensures NoEmptyPiece(ops0) && op.text != "" ==> NoEmptyPiece(ops)
  {
    if ops0 != [] && ops0[|ops0| - 1].SameKind(op) {
      GrowLast(ops0, op);
      ops := ops0[..|ops0| - 1] + [Grown(ops0[|ops0| - 1], op)];
    } else {
      ops := ops0 + [op];
    }
  }

  method CoalesceTextOps(ops: seq<TextOp>) returns (result: seq<TextOp>)
    ensures SameScript(result, ops)
    ensures Coalesced(result)
    ensures NoEmptyPiece(ops) ==> NoEmptyPiece(result)
  {
    result := [];
    for i := 0 to |ops|
      invariant SameScript(result, ops[..i])
      invariant Coalesced(result)
      invariant NoEmptyPiece(ops) ==> NoEmptyPiece(result)
    {
      SameScriptSnoc(result, ops[..i], ops[i]);
      result := AppendOp(result, ops[i]);
      assert ops[..i + 1] == ops[..i] + [ops[i]];
    }
    assert ops[..|ops|] == ops;
  }

  // ----- The diff of two texts

  lemma SingleOp(op: TextOp)
    ensures Script([op], op.Old(), op.New(), op.Cost())
  {
    assert [op][1..] == [];
  }

  datatype DiffError = InvalidDescriptor(message: string)

  /** Never fails, spells both texts, and edits as few characters as any script does. */
  method MyersDiff(a: string, b: string) returns (r: Result<seq<TextOp>, DiffError>)
    ensures r.Success?
    ensures Script(r.value, a, b, EditDistance(a, b))
    ensures Coalesced(r.value) && NoEmptyPiece(r.value)
  {
    if a == "" && b == "" {
      return Success([]);
    }
    if a == "" {
      SingleOp(Insert(b));
      return Success([Insert(b)]);
    }
    if b == "" {
      SingleOp(Delete(a));
      return Success([Delete(a)]);
    }
    var foundD, trace, _ := ForwardPass(a, b);
    match foundD {
      case None =>
        r := Failure(InvalidDescriptor("Myers diff failed to find a path"));
      case Some(dFinal) =>
        var ops := Backtrack(a, b, trace, dFinal);
        ReverseKeepsPieces(ops);
        var coalesced := CoalesceTextOps(Reverse(ops));
        r := Success(coalesced);
    }
  }

  const MYERS_DIFF_MAX_CHARS := 1_048_576

  method ReplaceBlockTexts(a: string, b: string) returns (ops: seq<TextOp>)
    ensures Script(ops, a, b, |a| + |b|)
    ensures Coalesced(ops) && NoEmptyPiece(ops)
  {
    ops := [];
    if a != "" {
      SingleOp(Delete(a));
      ops := [Delete(a)];
    }
    assert Script(ops, a, "", |a|);
    if b != "" {
      OldSnoc(ops, Insert(b));
      NewSnoc(ops, Insert(b));
      EditsSnoc(ops, Insert(b));
      ops := ops + [Insert(b)];
    }
  }

  /**
   The text diff of a modified block pair. It always spells both texts; up to the size cap it is a
   shortest script, above it the two whole texts are replaced.
   */
  method DiffBlockTexts(a: string, b: string) returns (ops: seq<TextOp>)
    ensures var oversized := |a| > 1048576 || |b| > 1048576;
      Script(ops, a, b, if oversized then |a| + |b| else EditDistance(a, b))
    ensures Coalesced(ops) && NoEmptyPiece(ops)
  {
    if |a| > MYERS_DIFF_MAX_CHARS || |b| > MYERS_DIFF_MAX_CHARS {
      ops := ReplaceBlockTexts(a, b);
      return;
    }
    var r := MyersDiff(a, b);
    match r {
      case Success(found) => ops := found;
      case Failure(_) => ops := ReplaceBlockTexts(a, b);
    }
  }
}
