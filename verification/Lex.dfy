/**
 The order Rust compares strings in. UTF-8 keeps the order of code points, so comparing bytes
 and comparing characters agree.
 */
module Lex {
  import opened Sorting

  predicate Le(s: string, t: string) {
    s == "" || (t != "" && (s[0] < t[0] || (s[0] == t[0] && Le(s[1..], t[1..]))))
  }

  predicate Lt(s: string, t: string) {
    s != t && Le(s, t)
  }

  lemma {:induction false} Total(s: string, t: string)
    ensures Le(s, t) || Le(t, s)
  {
    if s != "" && t != "" { Total(s[1..], t[1..]); }
  }

  lemma {:induction false} Transitive(s: string, t: string, u: string)
    requires Le(s, t) && Le(t, u)
    ensures Le(s, u)
  {
    if s != "" && s[0] == t[0] && t[0] == u[0] { Transitive(s[1..], t[1..], u[1..]); }
  }

  lemma {:induction false} Antisymmetric(s: string, t: string)
    requires Le(s, t) && Le(t, s)
    ensures s == t
  {
    if s != "" {
      Antisymmetric(s[1..], t[1..]);
      assert s == [s[0]] + s[1..] && t == [t[0]] + t[1..];
    }
  }

  lemma IsOrdering()
    ensures Ordering(Le)
    ensures forall s, t | Le(s, t) && Le(t, s) :: s == t
  {
    forall s, t ensures Le(s, t) || Le(t, s) { Total(s, t); }
    forall s, t, u | Le(s, t) && Le(t, u) ensures Le(s, u) { Transitive(s, t, u); }
    forall s, t | Le(s, t) && Le(t, s) ensures s == t { Antisymmetric(s, t); }
  }

  /** A common prefix does not matter. */
  lemma {:induction false} CommonPrefix(p: string, s: string, t: string)
    ensures Le(p + s, p + t) <==> Le(s, t)
  {
    if p == "" {
      assert p + s == s && p + t == t;
    } else {
      assert (p + s)[1..] == p[1..] + s && (p + t)[1..] == p[1..] + t;
      CommonPrefix(p[1..], s, t);
    }
  }

  lemma Extension(s: string, t: string)
    ensures Le(s, s + t)
  {
    assert s + "" == s;
    CommonPrefix(s, "", t);
  }

  /** Strings that differ within a common length are decided there. */
  lemma {:induction false} Decided(s: string, t: string, u: string, v: string)
    requires |s| == |t| && Lt(s, t)
    ensures Lt(s + u, t + v)
  {
    if s != "" && s[0] == t[0] {
      assert (s + u)[1..] == s[1..] + u && (t + v)[1..] == t[1..] + v;
      assert s == [s[0]] + s[1..] && t == [t[0]] + t[1..];
      Decided(s[1..], t[1..], u, v);
    }
  }
}
