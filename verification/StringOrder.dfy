/** The order of byte strings, in both directions, and sorted sequences of them. */
module StringOrder {
  predicate Leq(a: string, b: string) {
    a == "" || (b != "" && (a[0] < b[0] || (a[0] == b[0] && Leq(a[1..], b[1..]))))
  }

  lemma {:induction false} LeqTotal(a: string, b: string)
    ensures Leq(a, b) || Leq(b, a)
  {
    if a != "" && b != "" { LeqTotal(a[1..], b[1..]); }
  }

  lemma {:induction false} LeqTransitive(a: string, b: string, c: string)
    requires Leq(a, b) && Leq(b, c)
    ensures Leq(a, c)
  {
    if a != "" && a[0] == b[0] == c[0] { LeqTransitive(a[1..], b[1..], c[1..]); }
  }

  lemma {:induction false} LeqAntisymmetric(a: string, b: string)
    requires Leq(a, b) && Leq(b, a)
    ensures a == b
  {
    if a != "" {
      LeqAntisymmetric(a[1..], b[1..]);
      assert a == [a[0]] + a[1..] && b == [b[0]] + b[1..];
    }
  }

  /** `a` may stand before `b` in the requested direction. */
  predicate Before(a: string, b: string, reverse: bool) {
    if reverse then Leq(b, a) else Leq(a, b)
  }

  lemma BeforeTransitive(a: string, b: string, c: string, reverse: bool)
    requires Before(a, b, reverse) && Before(b, c, reverse)
    ensures Before(a, c, reverse)
  {
    if reverse { LeqTransitive(c, b, a); } else { LeqTransitive(a, b, c); }
  }

  lemma BeforeTotal(a: string, b: string, reverse: bool)
    ensures Before(a, b, reverse) || Before(b, a, reverse)
  {
    LeqTotal(a, b);
  }

  ghost predicate Sorted(s: seq<string>, reverse: bool) {
    forall i, j :: 0 <= i < j < |s| ==> Before(s[i], s[j], reverse)
  }

  lemma SameFirst(s: seq<string>, t: seq<string>, reverse: bool)
    requires Sorted(s, reverse) && Sorted(t, reverse) && multiset(s) == multiset(t) && s != [] && t != []
    ensures s[0] == t[0]
  {
    assert s[0] in multiset(t) && t[0] in multiset(s);
    FirstIsLeast(s, t[0], reverse);
    FirstIsLeast(t, s[0], reverse);
    LeqAntisymmetric(s[0], t[0]);
  }

  lemma TailBag(s: seq<string>)
    requires s != []
    ensures multiset(s[1..]) == multiset(s) - multiset{s[0]} && |multiset(s)| == |s|
  {
    assert s == [s[0]] + s[1..];
  }

  /** There is only one sorted sequence of the same strings. */
  lemma {:induction false} SortedUnique(s: seq<string>, t: seq<string>, reverse: bool)
    requires Sorted(s, reverse) && Sorted(t, reverse) && multiset(s) == multiset(t)
    ensures s == t
  {
    assert |multiset(s)| == |s| && |multiset(t)| == |t|;
    if s != [] {
      SameFirst(s, t, reverse);
      TailBag(s);
      TailBag(t);
      hide Leq, Before;
      SortedUnique(s[1..], t[1..], reverse);
      assert s == [s[0]] + s[1..] && t == [t[0]] + t[1..];
    }
  }

  lemma FirstIsLeast(s: seq<string>, x: string, reverse: bool)
    requires Sorted(s, reverse) && x in s
    ensures Before(s[0], x, reverse)
  {
    LeqTotal(x, x);
  }
}
