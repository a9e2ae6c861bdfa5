/**
 Longest common subsequences of two sequences, the reference notion behind the
 block aligner and the text diff of `snapshot.rs`.

 `L(a, b, i, j)` is the table entry for the prefixes `a[..i]` and `b[..j]`. That it
 really is a longest common subsequence is what `AlignmentBound` and `Longest` say:
 no alignment is longer, and `Longest` is one that long.
 */
module Lcs {

  function L<T(==)>(a: seq<T>, b: seq<T>, i: nat, j: nat): nat
    requires i <= |a| && j <= |b|
    decreases i + j
  {
    if i == 0 || j == 0 then 0
    else if a[i - 1] == b[j - 1] then L(a, b, i - 1, j - 1) + 1
    else if L(a, b, i - 1, j) >= L(a, b, i, j - 1) then L(a, b, i - 1, j)
    else L(a, b, i, j - 1)
  }

  function LcsLength<T(==)>(a: seq<T>, b: seq<T>): nat {
    L(a, b, |a|, |b|)
  }

  /** Index pairs that match equal elements and never cross or share an index. */
  ghost predicate Alignment<T>(a: seq<T>, b: seq<T>, m: seq<(nat, nat)>) {
    && (forall t | 0 <= t < |m| :: m[t].0 < |a| && m[t].1 < |b| && a[m[t].0] == b[m[t].1])
    && (forall s, t | 0 <= s < t < |m| :: m[s].0 < m[t].0 && m[s].1 < m[t].1)
  }

  /** Adding one element to either prefix adds at most one match and loses none. */
  lemma {:induction false} Steps<T>(a: seq<T>, b: seq<T>, i: nat, j: nat)
    requires i <= |a| && j <= |b|
    ensures i < |a| ==> L(a, b, i, j) <= L(a, b, i + 1, j) <= L(a, b, i, j) + 1
    ensures j < |b| ==> L(a, b, i, j) <= L(a, b, i, j + 1) <= L(a, b, i, j) + 1
    decreases i + j
  {
    if i > 0 { Steps(a, b, i - 1, j); }
    if j > 0 { Steps(a, b, i, j - 1); }
    if i < |a| { StepRow(a, b, i, j); }
    if j < |b| { StepColumn(a, b, i, j); }
  }

  lemma StepRow<T>(a: seq<T>, b: seq<T>, i: nat, j: nat)
    requires i < |a| && j <= |b|
    requires j > 0 ==> L(a, b, i, j - 1) <= L(a, b, i + 1, j - 1) <= L(a, b, i, j - 1) + 1
    requires j > 0 ==> L(a, b, i, j - 1) <= L(a, b, i, j) <= L(a, b, i, j - 1) + 1
    ensures L(a, b, i, j) <= L(a, b, i + 1, j) <= L(a, b, i, j) + 1
  {
  }

  lemma StepColumn<T>(a: seq<T>, b: seq<T>, i: nat, j: nat)
    requires i <= |a| && j < |b|
    requires i > 0 ==> L(a, b, i - 1, j) <= L(a, b, i - 1, j + 1) <= L(a, b, i - 1, j) + 1
    requires i > 0 ==> L(a, b, i - 1, j) <= L(a, b, i, j) <= L(a, b, i - 1, j) + 1
    ensures L(a, b, i, j) <= L(a, b, i, j + 1) <= L(a, b, i, j) + 1
  {
  }

  lemma {:induction false} Bounds<T>(a: seq<T>, b: seq<T>, i: nat, j: nat)
    requires i <= |a| && j <= |b|
    ensures L(a, b, i, j) <= i && L(a, b, i, j) <= j
    decreases i + j
  {
    if i > 0 { Bounds(a, b, i - 1, j); }
    if j > 0 { Bounds(a, b, i, j - 1); }
    if i > 0 && j > 0 { Bounds(a, b, i - 1, j - 1); }
  }

  lemma {:induction false} Monotone<T>(a: seq<T>, b: seq<T>, i: nat, j: nat, i': nat, j': nat)
    requires i <= i' <= |a| && j <= j' <= |b|
    ensures L(a, b, i, j) <= L(a, b, i', j')
    decreases i' + j'
  {
    if i < i' {
      Monotone(a, b, i, j, i' - 1, j');
      Steps(a, b, i' - 1, j');
    } else if j < j' {
      Monotone(a, b, i, j, i', j' - 1);
      Steps(a, b, i', j' - 1);
    }
  }

  /** No alignment of the prefixes is longer than the table entry. */
  lemma {:induction false} AlignmentBoundAt<T>(a: seq<T>, b: seq<T>, m: seq<(nat, nat)>, i: nat, j: nat)
    requires Alignment(a, b, m) && i <= |a| && j <= |b|
    requires forall t | 0 <= t < |m| :: m[t].0 < i && m[t].1 < j
    ensures |m| <= L(a, b, i, j)
    decreases |m|
  {
    if m != [] {
      var (p, q) := m[|m| - 1];
      AlignmentBoundAt(a, b, m[..|m| - 1], p, q);
      assert L(a, b, p + 1, q + 1) == L(a, b, p, q) + 1;
      Monotone(a, b, p + 1, q + 1, i, j);
    }
  }

  lemma AlignmentBound<T>(a: seq<T>, b: seq<T>, m: seq<(nat, nat)>)
    requires Alignment(a, b, m)
    ensures |m| <= LcsLength(a, b)
  {
    AlignmentBoundAt(a, b, m, |a|, |b|);
  }

  /** An alignment as long as the table entry, read off the table. */
  ghost function Longest<T>(a: seq<T>, b: seq<T>, i: nat, j: nat): (m: seq<(nat, nat)>)
    requires i <= |a| && j <= |b|
    ensures Alignment(a, b, m) && |m| == L(a, b, i, j)
    ensures forall t | 0 <= t < |m| :: m[t].0 < i && m[t].1 < j
    decreases i + j
  {
    if i == 0 || j == 0 then []
    else if a[i - 1] == b[j - 1] then Longest(a, b, i - 1, j - 1) + [(i - 1, j - 1)]
    else if L(a, b, i - 1, j) >= L(a, b, i, j - 1) then Longest(a, b, i - 1, j)
    else Longest(a, b, i, j - 1)
  }
}
