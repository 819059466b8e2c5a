/** Sorted sequences over a strict total order, standing for Go's `sort.Strings` and `sort.Slice`
    applied to the keys of a map. */
module Ordering {

  /** Go's `<` on strings: bytewise order, which on UTF-8 text is code-point order. */
  predicate StringLess(a: string, b: string) {
    |b| > 0 && (|a| == 0 || a[0] < b[0] || (a[0] == b[0] && StringLess(a[1..], b[1..])))
  }

  /** The strings agree up to `i`, where the first one ends or has the smaller character. */
  ghost predicate LessAt(a: string, b: string, i: nat) {
    i <= |a| && i < |b| && a[..i] == b[..i] && (i == |a| || a[i] < b[i])
  }

  lemma {:induction false} StringLessIs(a: string, b: string)
    ensures StringLess(a, b) <==> exists i: nat :: LessAt(a, b, i)
    decreases |a|
  {
    if a != [] && b != [] && a[0] == b[0] {
      StringLessIs(a[1..], b[1..]);
      if i: nat :| LessAt(a[1..], b[1..], i) { LessFurther(a, b, i); }
      if i: nat :| LessAt(a, b, i) { LessFurther(a, b, i - 1); }
    } else if StringLess(a, b) {
      assert LessAt(a, b, 0);
    } else if i: nat :| LessAt(a, b, i) {
      LessFromStart(a, b, i);
    }
  }

  lemma LessFromStart(a: string, b: string, i: nat)
    requires LessAt(a, b, i)
    ensures a == [] || a[0] <= b[0]
  {
    if i > 0 { assert a[..i][0] == b[..i][0]; }
  }

  lemma LessFurther(a: string, b: string, i: nat)
    requires a != [] && b != [] && a[0] == b[0]
    ensures LessAt(a, b, i + 1) <==> LessAt(a[1..], b[1..], i)
  {
    if i < |a| && i + 1 < |b| {
      assert a[..i + 1] == [a[0]] + a[1..][..i] && b[..i + 1] == [b[0]] + b[1..][..i];
    }
  }

  ghost predicate StrictOrder<T(!new)>(less: (T, T) -> bool) {
    && (forall a :: !less(a, a))
    && (forall a, b, c :: less(a, b) && less(b, c) ==> less(a, c))
    && (forall a, b :: a != b ==> less(a, b) || less(b, a))
  }

  ghost predicate Sorted<T>(s: seq<T>, less: (T, T) -> bool) {
    forall i, j :: 0 <= i < j < |s| ==> less(s[i], s[j])
  }

  ghost predicate Distinct<T>(s: seq<T>) {
    forall i, j :: 0 <= i < j < |s| ==> s[i] != s[j]
  }

  ghost predicate Lists<T(!new)>(r: seq<T>, s: set<T>) {
    forall x :: x in r <==> x in s
  }

  lemma {:induction false} StringLessTransitive(a: string, b: string, c: string)
    requires StringLess(a, b) && StringLess(b, c)
    ensures StringLess(a, c)
    decreases |a|
  {
    if |a| > 0 && a[0] == b[0] == c[0] {
      StringLessTransitive(a[1..], b[1..], c[1..]);
    }
  }

  lemma {:induction false} StringLessTotal(a: string, b: string)
    ensures !StringLess(a, a)
    ensures a != b ==> StringLess(a, b) || StringLess(b, a)
    decreases |a|
  {
    if |a| > 0 {
      StringLessTotal(a[1..], if |b| > 0 then b[1..] else b);
      if |b| > 0 && a[0] == b[0] {
        assert a == [a[0]] + a[1..] && b == [b[0]] + b[1..];
      }
    }
  }

  lemma StringLessIsStrictOrder()
    ensures StrictOrder(StringLess)
  {
    forall a, b, c | StringLess(a, b) && StringLess(b, c) ensures StringLess(a, c) {
      StringLessTransitive(a, b, c);
    }
    forall a, b ensures !StringLess(a, a) && (a != b ==> StringLess(a, b) || StringLess(b, a)) {
      StringLessTotal(a, b);
    }
  }

  lemma {:induction false} SortedUnique<T(!new)>(a: seq<T>, b: seq<T>, less: (T, T) -> bool)
    requires StrictOrder(less) && Sorted(a, less) && Sorted(b, less)
    requires forall x :: x in a <==> x in b
    ensures a == b
  {
    if a == [] {
      assert forall i :: 0 <= i < |b| ==> b[i] in b;
    } else {
      assert a[0] in b;
      assert b[0] in a;
      assert a[0] == b[0];
      forall x ensures x in a[1..] <==> x in b[1..] {
        if x in a[1..] { assert x in b; var i :| 0 < i < |a| && a[i] == x; assert less(a[0], x); }
        if x in b[1..] { assert x in a; var i :| 0 < i < |b| && b[i] == x; assert less(b[0], x); }
      }
      SortedUnique(a[1..], b[1..], less);
      assert a == [a[0]] + a[1..] && b == [b[0]] + b[1..];
    }
  }

  ghost function Least<T(!new)>(s: set<T>, less: (T, T) -> bool): (m: T)
    requires StrictOrder(less) && s != {}
    ensures m in s && forall x :: x in s && x != m ==> less(m, x)
  {
    var x :| x in s;
    var rest := s - {x};
    if rest == {} then
      assert forall y :: y in s && y != x ==> y in rest;
      x
    else
      assert |rest| < |s|;
      var m := Least(rest, less);
      assert forall y :: y in s && y != x ==> y in rest;
      if less(x, m) then x else m
  }

  /** The members of `s` in increasing order. */
  ghost function SortSet<T(!new)>(s: set<T>, less: (T, T) -> bool): (r: seq<T>)
    requires StrictOrder(less)
    ensures Sorted(r, less) && Lists(r, s)
    decreases |s|
  {
    if s == {} then []
    else
      var m := Least(s, less);
      [m] + SortSet(s - {m}, less)
  }

  lemma SortedIsSortSet<T(!new)>(r: seq<T>, s: set<T>, less: (T, T) -> bool)
    requires StrictOrder(less) && Sorted(r, less) && Lists(r, s)
    ensures r == SortSet(s, less)
  {
    SortedUnique(r, SortSet(s, less), less);
  }

  /** The members of a set of strings in increasing order (collect the keys, then sort them). */
  ghost function SortStrings(s: set<string>): (r: seq<string>)
    ensures Sorted(r, StringLess) && Lists(r, s)
  {
    StringLessIsStrictOrder();
    SortSet(s, StringLess)
  }

  lemma InsertSorted<T(!new)>(r: seq<T>, i: nat, x: T, less: (T, T) -> bool)
    requires StrictOrder(less) && Sorted(r, less) && i <= |r| && x !in r
    requires forall j :: 0 <= j < i ==> less(r[j], x)
    requires i < |r| ==> !less(r[i], x)
    ensures Sorted(r[..i] + [x] + r[i..], less)
  {
    if i < |r| {
      assert r[i] in r;
      assert less(x, r[i]);
    }
    forall j | i <= j < |r| ensures less(x, r[j]) {
      if i < j { assert less(r[i], r[j]); }
    }
  }

  /** Insertion of the collected keys one by one into a sorted slice. */
  method SortedBy<T(==,!new)>(s: set<T>, less: (T, T) -> bool) returns (r: seq<T>)
    requires StrictOrder(less)
    ensures r == SortSet(s, less)
  {
    r := [];
    var rest := s;
    while rest != {}
      invariant rest <= s && Sorted(r, less) && Lists(r, s - rest)
      decreases rest
    {
      var x :| x in rest;
      var i := 0;
      while i < |r| && less(r[i], x)
        invariant 0 <= i <= |r|
        invariant forall j :: 0 <= j < i ==> less(r[j], x)
      {
        i := i + 1;
      }
      InsertSorted(r, i, x, less);
      assert r == r[..i] + r[i..];
      ghost var before := r;
      r := r[..i] + [x] + r[i..];
      assert forall y :: y in r <==> y in before || y == x;
      rest := rest - {x};
    }
    SortedIsSortSet(r, s, less);
  }

  method SortedKeys(s: set<string>) returns (r: seq<string>)
    ensures r == SortStrings(s)
  {
    StringLessIsStrictOrder();
    r := SortedBy(s, StringLess);
  }
}
