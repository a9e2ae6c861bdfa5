/**
 Text edit scripts: what a list of diff operations means, what it costs, and that no
 script between two texts costs less than their edit distance.
 */
module TextScript {
  import opened EditGrid

  datatype TextOp = Equal(text: string) | Delete(text: string) | Insert(text: string) {
    function Old(): string { if Insert? then "" else text }
    function New(): string { if Delete? then "" else text }
    function Cost(): nat { if Equal? then 0 else |text| }
    predicate SameKind(that: TextOp) {
      (Equal? && that.Equal?) || (Delete? && that.Delete?) || (Insert? && that.Insert?)
    }
  }

  /** The old text a script consumes, the new text it produces, the characters it edits. */
  function OldText(ops: seq<TextOp>): string {
    if ops == [] then "" else ops[0].Old() + OldText(ops[1..])
  }

  function NewText(ops: seq<TextOp>): string {
    if ops == [] then "" else ops[0].New() + NewText(ops[1..])
  }

  function Edits(ops: seq<TextOp>): nat {
    if ops == [] then 0 else ops[0].Cost() + Edits(ops[1..])
  }

  /** A script that turns `before` into `after` with the given number of edited characters. */
  ghost predicate Script(ops: seq<TextOp>, before: string, after: string, edits: int) {
    OldText(ops) == before && NewText(ops) == after && Edits(ops) == edits
  }

  ghost predicate Coalesced(ops: seq<TextOp>) {
    forall i | 0 < i < |ops| :: !ops[i - 1].SameKind(ops[i])
  }

  ghost predicate NoEmptyPiece(ops: seq<TextOp>) {
    forall i | 0 <= i < |ops| :: ops[i].text != ""
  }

  lemma Associative(x: string, y: string, z: string)
    ensures x + (y + z) == (x + y) + z
  {
  }

  lemma {:induction false} OldConcat(ops: seq<TextOp>, more: seq<TextOp>)
    ensures OldText(ops + more) == OldText(ops) + OldText(more)
  {
    if ops == [] {
      assert ops + more == more;
    } else {
      var first, rest := ops[0].Old(), OldText(ops[1..]);
      calc {
        OldText(ops + more);
        { assert (ops + more)[0] == ops[0] && (ops + more)[1..] == ops[1..] + more; }
        first + OldText(ops[1..] + more);
        { OldConcat(ops[1..], more); }
        first + (rest + OldText(more));
        { Associative(first, rest, OldText(more)); }
        (first + rest) + OldText(more);
        OldText(ops) + OldText(more);
      }
    }
  }

  lemma {:induction false} NewConcat(ops: seq<TextOp>, more: seq<TextOp>)
    ensures NewText(ops + more) == NewText(ops) + NewText(more)
  {
    if ops == [] {
      assert ops + more == more;
    } else {
      var first, rest := ops[0].New(), NewText(ops[1..]);
      calc {
        NewText(ops + more);
        { assert (ops + more)[0] == ops[0] && (ops + more)[1..] == ops[1..] + more; }
        first + NewText(ops[1..] + more);
        { NewConcat(ops[1..], more); }
        first + (rest + NewText(more));
        { Associative(first, rest, NewText(more)); }
        (first + rest) + NewText(more);
        NewText(ops) + NewText(more);
      }
    }
  }

  lemma {:induction false} EditsConcat(ops: seq<TextOp>, more: seq<TextOp>)
    ensures Edits(ops + more) == Edits(ops) + Edits(more)
  {
    if ops == [] {
      assert ops + more == more;
    } else {
      EditsConcat(ops[1..], more);
      assert (ops + more)[1..] == ops[1..] + more;
    }
  }

  // ----- No script is shorter than the edit distance

  lemma {:induction false} MatchRun(a: string, b: string, x: nat, y: nat, n: nat)
    requires x + n <= |a| && y + n <= |b| && a[x..x + n] == b[y..y + n]
    ensures D(a, b, x + n, y + n) == D(a, b, x, y)
    decreases n
  {
    if n > 0 {
      assert a[x] == a[x..x + n][0] == b[y];
      assert a[x + 1..x + n] == a[x..x + n][1..] == b[y + 1..y + n];
      MatchStep(a, b, x, y);
      MatchRun(a, b, x + 1, y + 1, n - 1);
    }
  }

  lemma {:induction false} StraightRun(a: string, b: string, x: nat, y: nat, n: nat)
    ensures D(a, b, x + n, y) <= D(a, b, x, y) + n
    ensures D(a, b, x, y + n) <= D(a, b, x, y) + n
    decreases n
  {
    if n > 0 {
      StraightRun(a, b, x, y, n - 1);
      StraightStep(a, b, x + n - 1, y);
      StraightStep(a, b, x, y + n - 1);
    }
  }

  lemma SuffixAfter(s: string, x: nat, piece: string, rest: string)
    requires x <= |s| && s[x..] == piece + rest
    ensures x + |piece| <= |s| && s[x..x + |piece|] == piece && s[x + |piece|..] == rest
  {
    assert s[x..][..|piece|] == piece && s[x..][|piece|..] == rest;
  }

  /** One operation moves over the grid at no more than its own cost. */
  lemma OneOp(a: string, b: string, x: nat, y: nat, op: TextOp, restA: string, restB: string)
    requires x <= |a| && y <= |b| && a[x..] == op.Old() + restA && b[y..] == op.New() + restB
    ensures var x', y' := x + |op.Old()|, y + |op.New()|;
      && x' <= |a| && y' <= |b| && a[x'..] == restA && b[y'..] == restB
      && D(a, b, x', y') <= D(a, b, x, y) + op.Cost()
  {
    SuffixAfter(a, x, op.Old(), restA);
    SuffixAfter(b, y, op.New(), restB);
    OpCost(a, b, x, y, op);
  }

  lemma OpCost(a: string, b: string, x: nat, y: nat, op: TextOp)
    requires x + |op.Old()| <= |a| && y + |op.New()| <= |b|
    requires a[x..x + |op.Old()|] == op.Old() && b[y..y + |op.New()|] == op.New()
    ensures D(a, b, x + |op.Old()|, y + |op.New()|) <= D(a, b, x, y) + op.Cost()
  {
    if op.Equal? {
      MatchRun(a, b, x, y, |op.text|);
    } else {
      StraightRun(a, b, x, y, |op.text|);
    }
  }

  /** Starting at a point of the grid, a script pays at least what is left to the corner. */
  lemma {:induction false} ScriptFrom(a: string, b: string, x: nat, y: nat, ops: seq<TextOp>)
    requires x <= |a| && y <= |b|
    requires OldText(ops) == a[x..] && NewText(ops) == b[y..]
    ensures EditDistance(a, b) <= D(a, b, x, y) + Edits(ops)
    decreases |ops|
  {
    if ops == [] {
      assert |a[x..]| == 0 && |b[y..]| == 0;
      assert x == |a| && y == |b|;
    } else {
      var op, rest := ops[0], ops[1..];
      OneOp(a, b, x, y, op, OldText(rest), NewText(rest));
      ScriptFrom(a, b, x + |op.Old()|, y + |op.New()|, rest);
    }
  }

  /** Every script between two texts edits at least the edit distance. */
  lemma NoShorterScript(ops: seq<TextOp>)
    ensures Edits(ops) >= EditDistance(OldText(ops), NewText(ops))
  {
    var a, b := OldText(ops), NewText(ops);
    assert a[0..] == a && b[0..] == b;
    ScriptFrom(a, b, 0, 0, ops);
  }
}
