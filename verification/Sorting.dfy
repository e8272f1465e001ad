/** Sorting the elements of a set, and the byte order on strings. */
module Sorting {

  ghost predicate TotalPreorder<T(!new)>(leq: (T, T) -> bool) {
    && (forall x, y :: leq(x, y) || leq(y, x))
    && (forall x, y, z :: leq(x, y) && leq(y, z) ==> leq(x, z))
  }

  ghost predicate Sorted<T>(s: seq<T>, leq: (T, T) -> bool) {
    forall i, j :: 0 <= i < j < |s| ==> leq(s[i], s[j])
  }

  ghost predicate Distinct<T>(s: seq<T>) {
    forall i, j :: 0 <= i < j < |s| ==> s[i] != s[j]
  }

  /** s lists the elements of `elems`, each once, in order. */
  ghost predicate SortedListing<T(!new)>(s: seq<T>, elems: set<T>, leq: (T, T) -> bool) {
    Sorted(s, leq) && Distinct(s) && forall x :: x in s <==> x in elems
  }

  method SortSet<T(==, !new)>(elems: set<T>, leq: (T, T) -> bool) returns (s: seq<T>)
    requires TotalPreorder(leq)
    ensures SortedListing(s, elems, leq)
  {
    s := [];
    var todo := elems;
    while todo != {}
      invariant todo <= elems
      invariant SortedListing(s, elems - todo, leq)
      decreases todo
    {
      var x :| x in todo;
      todo := todo - {x};
      s := InsertSorted(s, x, leq);
    }
  }

  method InsertSorted<T(==, !new)>(s: seq<T>, x: T, leq: (T, T) -> bool) returns (r: seq<T>)
    requires TotalPreorder(leq) && Sorted(s, leq) && Distinct(s) && x !in s
    ensures Sorted(r, leq) && Distinct(r)
    ensures forall y :: y in r <==> y in s || y == x
  {
    var i := 0;
    while i < |s| && leq(s[i], x)
      invariant 0 <= i <= |s|
      invariant forall j :: 0 <= j < i ==> leq(s[j], x)
    {
      i := i + 1;
    }
    r := s[..i] + [x] + s[i..];
    assert forall j :: i <= j < |s| ==> leq(x, s[j]);
    assert forall j :: 0 <= j < |r| ==> r[j] == if j < i then s[j] else if j == i then x else s[j - 1];
    assert forall y :: y in s <==> y in s[..i] || y in s[i..];
  }

  /** Byte order: the first differing byte decides, a proper prefix comes first. */
  predicate TextLeq(s: string, t: string) {
    s == "" || (t != "" && (s[0] < t[0] || (s[0] == t[0] && TextLeq(s[1..], t[1..]))))
  }

  lemma {:induction false} TextLeqTotal(s: string, t: string)
    ensures TextLeq(s, t) || TextLeq(t, s)
    ensures TextLeq(s, t) && TextLeq(t, s) ==> s == t
  {
    if s != "" && t != "" && s[0] == t[0] {
      TextLeqTotal(s[1..], t[1..]);
      assert s == [s[0]] + s[1..] && t == [t[0]] + t[1..];
    }
  }

  lemma {:induction false} TextLeqTransitive(s: string, t: string, u: string)
    requires TextLeq(s, t) && TextLeq(t, u)
    ensures TextLeq(s, u)
  {
    if s != "" && s[0] == t[0] && t[0] == u[0] {
      TextLeqTransitive(s[1..], t[1..], u[1..]);
    }
  }

  /** Behind a common front the first differing byte decides, and a text that ends there comes first. */
  lemma {:induction false} FirstDifferenceDecides(p: string, s: string, t: string)
    ensures s != "" && t != "" && s[0] != t[0] ==> (TextLeq(p + s, p + t) <==> s[0] < t[0])
    ensures TextLeq(p, p + t) && (TextLeq(p + t, p) <==> t == "")
  {
    if p == "" {
      assert p + s == s && p + t == t;
    } else {
      assert (p + s)[1..] == p[1..] + s && (p + t)[1..] == p[1..] + t;
      FirstDifferenceDecides(p[1..], s, t);
    }
  }

  lemma TextLeqIsTotalPreorder()
    ensures TotalPreorder(TextLeq)
  {
    forall x, y, z
      ensures TextLeq(x, y) || TextLeq(y, x)
      ensures TextLeq(x, y) && TextLeq(y, z) ==> TextLeq(x, z)
    {
      TextLeqTotal(x, y);
      if TextLeq(x, y) && TextLeq(y, z) { TextLeqTransitive(x, y, z); }
    }
  }
}
