/**
 Stable comparison sort as the source uses it (`sort_by`, `Array.sort`), given by what it
 returns: an ordered permutation. `SortedUnique` says when that determines the result.
 */
module Sorting {
  import opened Common

  /** A total preorder, what a comparator must be. */
  ghost predicate Ordering<T(!new)>(le: (T, T) -> bool) {
    && (forall x, y :: le(x, y) || le(y, x))
    && (forall x, y, z :: le(x, y) && le(y, z) ==> le(x, z))
  }

  /** A total order on strings, ties only between equal ones. */
  ghost predicate StringOrder(le: (string, string) -> bool) {
    Ordering(le) && forall s, t | le(s, t) && le(t, s) :: s == t
  }

  ghost predicate Sorted<T>(le: (T, T) -> bool, s: seq<T>) {
    forall i, j | 0 <= i < j < |s| :: le(s[i], s[j])
  }

  /** No two different elements tie. */
  ghost predicate NoTies<T>(le: (T, T) -> bool, s: seq<T>) {
    forall x, y | x in s && y in s && le(x, y) && le(y, x) :: x == y
  }

  function Insert<T>(le: (T, T) -> bool, x: T, s: seq<T>): (r: seq<T>)
    ensures multiset(r) == multiset([x]) + multiset(s)
    ensures |r| == |s| + 1
  {
    if s == [] then [x]
    else if le(x, s[0]) then [x] + s
    else
      assert s == [s[0]] + s[1..];
      [s[0]] + Insert(le, x, s[1..])
  }

  function SortBy<T>(le: (T, T) -> bool, s: seq<T>): (r: seq<T>)
    ensures multiset(r) == multiset(s)
    ensures |r| == |s|
  {
    if s == [] then []
    else
      assert s == [s[0]] + s[1..];
      Insert(le, s[0], SortBy(le, s[1..]))
  }

  lemma SameMembers<T>(s: seq<T>, t: seq<T>)
    requires multiset(s) == multiset(t)
    ensures |s| == |t|
    ensures forall x :: x in s <==> x in t
  {
    assert |s| == |multiset(s)| == |multiset(t)| == |t|;
    forall x
      ensures x in s <==> x in t
    {
      assert x in s <==> x in multiset(s);
      assert x in t <==> x in multiset(t);
    }
  }

  lemma {:induction false} InsertSorted<T(!new)>(le: (T, T) -> bool, x: T, s: seq<T>)
    requires Ordering(le) && Sorted(le, s)
    ensures Sorted(le, Insert(le, x, s))
  {
    if s != [] && !le(x, s[0]) {
      InsertSorted(le, x, s[1..]);
      var r := Insert(le, x, s[1..]);
      SameMembers(r, [x] + s[1..]);
      forall j | 0 <= j < |r|
        ensures le(s[0], r[j])
      {
        assert r[j] in [x] + s[1..];
      }
    }
  }

  lemma {:induction false} SortBySorts<T(!new)>(le: (T, T) -> bool, s: seq<T>)
    requires Ordering(le)
    ensures Sorted(le, SortBy(le, s))
  {
    if s != [] {
      SortBySorts(le, s[1..]);
      InsertSorted(le, s[0], SortBy(le, s[1..]));
    }
  }

  /** Sorting keeps exactly the elements. */
  lemma SortByMembers<T>(le: (T, T) -> bool, s: seq<T>)
    ensures forall x :: x in SortBy(le, s) <==> x in s
  {
    SameMembers(SortBy(le, s), s);
  }

  lemma SameTail<T>(s: seq<T>, t: seq<T>)
    requires s != [] && t != [] && s[0] == t[0] && multiset(s) == multiset(t)
    ensures multiset(s[1..]) == multiset(t[1..])
  {
    assert s == [s[0]] + s[1..] && t == [t[0]] + t[1..];
    assert multiset(s[1..]) == multiset(s) - multiset{s[0]};
    assert multiset(t[1..]) == multiset(t) - multiset{t[0]};
  }

  lemma SameHead<T>(le: (T, T) -> bool, s: seq<T>, t: seq<T>)
    requires s != [] && Sorted(le, s) && Sorted(le, t) && multiset(s) == multiset(t)
    requires NoTies(le, s)
    ensures t != [] && s[0] == t[0]
  {
    SameMembers(s, t);
    assert t[0] in s && s[0] in t;
  }

  /** Without ties an ordered permutation is unique. */
  lemma {:induction false} SortedUnique<T>(le: (T, T) -> bool, s: seq<T>, t: seq<T>)
    requires Sorted(le, s) && Sorted(le, t) && multiset(s) == multiset(t)
    requires NoTies(le, s)
    ensures s == t
    decreases |s|
  {
    SameMembers(s, t);
    if s != [] {
      SameHead(le, s, t);
      SameTail(s, t);
      SortedUnique(le, s[1..], t[1..]);
      assert s == [s[0]] + s[1..] && t == [t[0]] + t[1..];
    }
  }

  /** The result of a sort without ties does not depend on the order of its input. */
  lemma SortByPermutation<T(!new)>(le: (T, T) -> bool, s: seq<T>, t: seq<T>)
    requires Ordering(le) && multiset(s) == multiset(t) && NoTies(le, s)
    ensures SortBy(le, s) == SortBy(le, t)
  {
    SortBySorts(le, s);
    SortBySorts(le, t);
    SortByMembers(le, s);
    SortedUnique(le, SortBy(le, s), SortBy(le, t));
  }

  // ----- Lists without repeated elements

  ghost predicate NoRepeats<T>(s: seq<T>) {
    forall i, j | 0 <= i < j < |s| :: s[i] != s[j]
  }

  lemma {:induction false} NoRepeatsOnce<T>(s: seq<T>)
    requires NoRepeats(s)
    ensures forall x :: multiset(s)[x] <= 1
  {
    if s != [] {
      var init, last := s[..|s| - 1], s[|s| - 1];
      assert s == init + [last];
      NoRepeatsOnce(init);
      assert last !in init;
    }
  }

  lemma {:induction false} OnceNoRepeats<T>(s: seq<T>)
    requires forall x :: multiset(s)[x] <= 1
    ensures NoRepeats(s)
  {
    if s != [] {
      var init, last := s[..|s| - 1], s[|s| - 1];
      assert s == init + [last];
      assert forall x :: multiset(s)[x] == multiset(init)[x] + multiset{last}[x];
      OnceNoRepeats(init);
      assert multiset(init)[last] == 0;
    }
  }

  /** Reordering, or leaving elements out, introduces no repeats. */
  lemma PermutationNoRepeats<T>(s: seq<T>, t: seq<T>)
    requires NoRepeats(s) && multiset(t) <= multiset(s)
    ensures NoRepeats(t)
  {
    NoRepeatsOnce(s);
    forall x ensures multiset(t)[x] <= 1 {
      assert multiset(t)[x] <= multiset(s)[x];
    }
    OnceNoRepeats(t);
  }

  lemma SameBag<T>(s: seq<T>, t: seq<T>)
    requires NoRepeats(s) && NoRepeats(t) && forall x :: x in s <==> x in t
    ensures multiset(s) == multiset(t)
  {
    NoRepeatsOnce(s);
    NoRepeatsOnce(t);
    forall x
      ensures multiset(s)[x] == multiset(t)[x]
    {
      assert x in multiset(s) <==> x in s;
      assert x in multiset(t) <==> x in t;
    }
  }

  // ----- Permutations, element by element

  lemma RemoveAtBag<T>(t: seq<T>, i: nat)
    requires i < |t|
    ensures multiset(t) == multiset(t[..i] + t[i + 1..]) + multiset{t[i]}
  {
    SplitAt(t, i);
    assert multiset(t) == multiset(t[..i] + [t[i]]) + multiset(t[i + 1..]);
  }

  function MapOf<T, U>(f: T -> U, s: seq<T>): (r: seq<U>)
    ensures |r| == |s|
    ensures forall i | 0 <= i < |s| :: r[i] == f(s[i])
  {
    seq(|s|, i requires 0 <= i < |s| => f(s[i]))
  }

  lemma MapConcat<T, U>(f: T -> U, s: seq<T>, t: seq<T>)
    ensures MapOf(f, s + t) == MapOf(f, s) + MapOf(f, t)
  {
  }

  lemma MapSnoc<T, U>(f: T -> U, s: seq<T>, x: T)
    ensures multiset(MapOf(f, s + [x])) == multiset(MapOf(f, s)) + multiset{f(x)}
  {
    assert MapOf(f, s + [x]) == MapOf(f, s) + [f(x)];
  }

  /** Mapping permutations of each other gives permutations of each other. */
  lemma {:induction false} MapBag<T, U>(f: T -> U, s: seq<T>, t: seq<T>)
    requires multiset(s) == multiset(t)
    ensures multiset(MapOf(f, s)) == multiset(MapOf(f, t))
    decreases |s|
  {
    SameMembers(s, t);
    if s != [] {
      var init, last := s[..|s| - 1], s[|s| - 1];
      assert s == init + [last];
      assert last in s;
      var i :| 0 <= i < |t| && t[i] == last;
      RemoveAtBag(t, i);
      assert multiset(init) == multiset(s) - multiset{last};
      MapBag(f, init, t[..i] + t[i + 1..]);
      MapConcat(f, init, [last]);
      SplitAt(t, i);
      MapConcat(f, t[..i] + [last], t[i + 1..]);
      MapConcat(f, t[..i], [last]);
      MapConcat(f, t[..i], t[i + 1..]);
    }
  }

  // ----- Stability

  /** `place` says where each element of `t` stands in `s`: a permutation that keeps ties in order. */
  ghost predicate StablePlaces<T>(le: (T, T) -> bool, s: seq<T>, t: seq<T>, place: seq<nat>) {
    && |place| == |t| == |s|
    && (forall i | 0 <= i < |t| :: place[i] < |s| && t[i] == s[place[i]])
    && (forall m: nat | m < |s| :: m in place)
    && (forall i, j | 0 <= i < j < |t| :: place[i] != place[j])
    && (forall i, j | 0 <= i < j < |t| && le(t[j], t[i]) :: place[i] < place[j])
  }

  /** `u` is `t` with `x` put in at `at`. */
  ghost predicate Spliced<T>(t: seq<T>, at: nat, x: T, u: seq<T>) {
    && at <= |t| && |u| == |t| + 1
    && (forall i | 0 <= i < at :: u[i] == t[i])
    && u[at] == x
    && (forall i | at < i < |u| :: u[i] == t[i - 1])
  }

  lemma SplicedFirst<T>(t: seq<T>, x: T)
    ensures Spliced(t, 0, x, [x] + t)
  {
  }

  lemma SplicedLater<T>(t: seq<T>, at: nat, x: T, r: seq<T>)
    requires t != [] && Spliced(t[1..], at, x, r)
    ensures Spliced(t, at + 1, x, [t[0]] + r)
  {
  }

  lemma {:induction false} InsertPlaces<T(!new)>(le: (T, T) -> bool, x: T, t: seq<T>) returns (at: nat)
    ensures Spliced(t, at, x, Insert(le, x, t))
    ensures forall i | 0 <= i < at :: !le(x, t[i])
  {
    if t == [] || le(x, t[0]) {
      at := 0;
      SplicedFirst(t, x);
    } else {
      var more := InsertPlaces(le, x, t[1..]);
      at := more + 1;
      SplicedLater(t, more, x, Insert(le, x, t[1..]));
      forall i | 0 < i < at ensures !le(x, t[i]) { assert t[i] == t[1..][i - 1]; }
    }
  }

  /** The places after putting the first element of `s` in at `at`. */
  function PutIn(rest: seq<nat>, at: nat): (place: seq<nat>)
    requires at <= |rest|
    ensures |place| == |rest| + 1
    ensures forall i | 0 <= i < at :: place[i] == rest[i] + 1
    ensures place[at] == 0
    ensures forall i | at < i < |place| :: place[i] == rest[i - 1] + 1
  {
    seq(|rest| + 1, i requires 0 <= i <= |rest| => if i < at then rest[i] + 1 else if i == at then 0 else rest[i - 1] + 1)
  }

  lemma AllPutIn(rest: seq<nat>, at: nat, n: nat)
    requires at <= |rest| && forall m: nat | m < n :: m in rest
    ensures forall m: nat | m < n + 1 :: m in PutIn(rest, at)
  {
    var place := PutIn(rest, at);
    forall m: nat | m < n + 1
      ensures m in place
    {
      if m == 0 {
        assert place[at] == 0;
      } else {
        assert m - 1 in rest;
        var i :| 0 <= i < |rest| && rest[i] == m - 1;
        assert place[if i < at then i else i + 1] == m;
      }
    }
  }

  lemma {:induction false} SortPlaces<T(!new)>(le: (T, T) -> bool, s: seq<T>) returns (place: seq<nat>)
    ensures StablePlaces(le, s, SortBy(le, s), place)
  {
    if s == [] {
      place := [];
    } else {
      var t := SortBy(le, s[1..]);
      var rest := SortPlaces(le, s[1..]);
      var at := InsertPlaces(le, s[0], t);
      place := PutIn(rest, at);
      AllPutIn(rest, at, |s| - 1);
      PutInStable(le, s, t, rest, at, SortBy(le, s));
    }
  }

  lemma PutInPlaces<T>(s: seq<T>, t: seq<T>, rest: seq<nat>, at: nat, u: seq<T>)
    requires s != [] && |rest| == |t| && Spliced(t, at, s[0], u)
    requires forall i | 0 <= i < |t| :: rest[i] < |s| - 1 && t[i] == s[rest[i] + 1]
    ensures forall i | 0 <= i < |u| :: PutIn(rest, at)[i] < |s| && u[i] == s[PutIn(rest, at)[i]]
  {
  }

  lemma PutInStable<T(!new)>(le: (T, T) -> bool, s: seq<T>, t: seq<T>, rest: seq<nat>, at: nat, u: seq<T>)
    requires s != [] && StablePlaces(le, s[1..], t, rest) && Spliced(t, at, s[0], u) && forall i | 0 <= i < at :: !le(s[0], t[i])
    requires forall m: nat | m < |s| :: m in PutIn(rest, at)
    ensures StablePlaces(le, s, u, PutIn(rest, at))
  {
    var place := PutIn(rest, at);
    forall i | 0 <= i < |t| ensures rest[i] < |s| - 1 && t[i] == s[rest[i] + 1] { assert t[i] == s[1..][rest[i]]; }
    PutInPlaces(s, t, rest, at, u);
    forall i, j | 0 <= i < j < |u| ensures place[i] != place[j] { PutInTies(le, t, rest, at, s[0], u, i, j); }
    forall i, j | 0 <= i < j < |u| && le(u[j], u[i]) ensures place[i] < place[j] { PutInTies(le, t, rest, at, s[0], u, i, j); }
  }

  lemma PutInTies<T>(le: (T, T) -> bool, t: seq<T>, rest: seq<nat>, at: nat, x: T, u: seq<T>, i: nat, j: nat)
    requires |rest| == |t| && Spliced(t, at, x, u) && i < j < |u| && forall k | 0 <= k < at :: !le(x, t[k])
    requires forall k, m | 0 <= k < m < |t| :: rest[k] != rest[m]
    requires forall k, m | 0 <= k < m < |t| && le(t[m], t[k]) :: rest[k] < rest[m]
    ensures PutIn(rest, at)[i] != PutIn(rest, at)[j]
    ensures le(u[j], u[i]) ==> PutIn(rest, at)[i] < PutIn(rest, at)[j]
  {
    var a, b := if i < at then i else i - 1, if j < at then j else j - 1;
    if i != at && j != at {
      assert a < b && rest[a] != rest[b];
      assert u[i] == t[a] && u[j] == t[b];
    } else if j == at {
      assert u[i] == t[i] && u[j] == x;
    }
  }
}
