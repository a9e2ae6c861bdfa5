/** Result and option types shared by the modelled components. */
module Common {

  datatype Option<+T> = None | Some(value: T)

  datatype Result<+T, +E> = Success(value: T) | Failure(error: E)

  /** What inserting a row amounts to for the sequence numbers kept with the rows. */
  function MaxBy<T>(key: T -> int, rows: seq<T>): int {
    if rows == [] then 0 else Max(MaxBy(key, rows[..|rows| - 1]), key(rows[|rows| - 1]))
  }

  ghost predicate Numbered<T>(key: T -> int, rows: seq<T>) {
    forall i | 0 <= i < |rows| :: key(rows[i]) == i + 1
  }

  lemma {:induction false} MaxOfNumbered<T>(key: T -> int, rows: seq<T>)
    requires Numbered(key, rows)
    ensures MaxBy(key, rows) == |rows|
  {
    if rows != [] { MaxOfNumbered(key, rows[..|rows| - 1]); }
  }

  lemma {:induction false} MaxBounds<T>(key: T -> int, rows: seq<T>)
    ensures MaxBy(key, rows) >= 0 && forall row | row in rows :: key(row) <= MaxBy(key, rows)
  {
    if rows != [] {
      assert rows == rows[..|rows| - 1] + [rows[|rows| - 1]];
      MaxBounds(key, rows[..|rows| - 1]);
    }
  }

  function Min(x: int, y: int): int { if x <= y then x else y }

  function Max(x: int, y: int): int { if x >= y then x else y }

  function Reverse<T>(s: seq<T>): seq<T> {
    if s == [] then [] else [s[|s| - 1]] + Reverse(s[..|s| - 1])
  }

  lemma {:induction false} ReverseAt<T>(s: seq<T>, t: nat)
    requires t < |s|
    ensures |Reverse(s)| == |s| && Reverse(s)[t] == s[|s| - 1 - t]
  {
    if |s| > 1 {
      ReverseAt(s[..|s| - 1], if t > 0 then t - 1 else 0);
    }
  }

  lemma SplitAt<T>(s: seq<T>, i: nat)
    requires i < |s|
    ensures s == (s[..i] + [s[i]]) + s[i + 1..]
  {
    assert s[..i + 1] == s[..i] + [s[i]];
    assert s == s[..i + 1] + s[i + 1..];
  }

  // ----- Sizes of finite sets

  lemma SubsetSize<T>(s: set<T>, t: set<T>)
    requires s <= t
    ensures |s| <= |t|
    ensures |s| == |t| <==> s == t
  {
    assert t == s + (t - s);
  }

  lemma SeenShrinks<T>(all: set<T>, seen: set<T>, x: T)
    requires x in all && x !in seen
    ensures |all - (seen + {x})| < |all - seen|
  {
    assert all - seen == (all - (seen + {x})) + {x};
  }
}
