/** Python's ordering of strings (lexicographic by code point) and the
    `sorted(...)` the scripts apply to directory listings. */
module StrOrder {

  /** Python's `a < b` on two strings. */
  predicate Below(a: string, b: string)
    decreases |a|
  {
    if |a| == 0 then |b| > 0
    else if |b| == 0 then false
    else if a[0] != b[0] then a[0] < b[0]
    else Below(a[1..], b[1..])
  }

  /** Python's `a <= b` on two strings. */
  predicate AtMost(a: string, b: string) {
    a == b || Below(a, b)
  }

  lemma {:induction false} BelowIrreflexive(a: string)
    ensures !Below(a, a)
    decreases |a|
  {
    if |a| > 0 {
      BelowIrreflexive(a[1..]);
    }
  }

  lemma {:induction false} BelowTransitive(a: string, b: string, c: string)
    requires Below(a, b) && Below(b, c)
    ensures Below(a, c)
    decreases |a|
  {
    if |a| > 0 && a[0] == b[0] && b[0] == c[0] {
      BelowTransitive(a[1..], b[1..], c[1..]);
    }
  }

  lemma {:induction false} BelowTotal(a: string, b: string)
    ensures a == b || Below(a, b) || Below(b, a)
    decreases |a|
  {
    if |a| > 0 && |b| > 0 && a[0] == b[0] {
      BelowTotal(a[1..], b[1..]);
      if a[1..] == b[1..] {
        assert a == [a[0]] + a[1..] && b == [b[0]] + b[1..];
      }
    }
  }

  lemma {:induction false} BelowAsymmetric(a: string, b: string)
    requires Below(a, b)
    ensures !Below(b, a) && a != b
  {
    if Below(b, a) {
      BelowTransitive(a, b, a);
      BelowIrreflexive(a);
    }
    if a == b {
      BelowIrreflexive(a);
    }
  }

  lemma AtMostTransitive(a: string, b: string, c: string)
    requires AtMost(a, b) && AtMost(b, c)
    ensures AtMost(a, c)
  {
    if Below(a, b) && Below(b, c) {
      BelowTransitive(a, b, c);
    }
  }

  /** Every pair of elements is in order, by the given sort key. */
  predicate SortedBy<T>(xs: seq<T>, key: T -> string) {
    forall i, j | 0 <= i < j < |xs| :: AtMost(key(xs[i]), key(xs[j]))
  }

  /** Inserts `x` after every element whose key is not above its own, which
      keeps the sort stable. */
  function Insert<T>(x: T, xs: seq<T>, key: T -> string): (r: seq<T>)
    requires SortedBy(xs, key)
    ensures SortedBy(r, key)
    ensures multiset(r) == multiset(xs) + multiset{x}
  {
    if |xs| == 0 then [x]
    else if Below(key(x), key(xs[0])) then
      InsertFront(x, xs, key);
      [x] + xs
    else
      var rest := Insert(x, xs[1..], key);
      InsertBehind(x, xs, key, rest);
      assert xs == [xs[0]] + xs[1..];
      [xs[0]] + rest
  }

  lemma InsertFront<T>(x: T, xs: seq<T>, key: T -> string)
    requires SortedBy(xs, key) && |xs| > 0 && Below(key(x), key(xs[0]))
    ensures SortedBy([x] + xs, key)
  {
    var r := [x] + xs;
    forall i, j | 0 <= i < j < |r|
      ensures AtMost(key(r[i]), key(r[j]))
    {
      if i == 0 {
        assert AtMost(key(xs[0]), key(xs[j - 1]));
        AtMostTransitive(key(x), key(xs[0]), key(xs[j - 1]));
      } else {
        assert r[i] == xs[i - 1] && r[j] == xs[j - 1];
      }
    }
  }

  lemma InsertBehind<T>(x: T, xs: seq<T>, key: T -> string, rest: seq<T>)
    requires SortedBy(xs, key) && |xs| > 0 && !Below(key(x), key(xs[0]))
    requires SortedBy(rest, key)
    requires multiset(rest) == multiset(xs[1..]) + multiset{x}
    ensures SortedBy([xs[0]] + rest, key)
  {
    var r := [xs[0]] + rest;
    forall i, j | 0 <= i < j < |r|
      ensures AtMost(key(r[i]), key(r[j]))
    {
      if i == 0 {
        var e := rest[j - 1];
        assert e in multiset(rest);
        if e == x {
          BelowTotal(key(x), key(xs[0]));
        } else {
          assert e in multiset(xs[1..]);
          var k :| 0 <= k < |xs[1..]| && xs[1..][k] == e;
          assert xs[k + 1] == e;
        }
      } else {
        assert r[i] == rest[i - 1] && r[j] == rest[j - 1];
      }
    }
  }

  /** `sorted(xs, key=key)`: insertion sort, stable. */
  function SortBy<T>(xs: seq<T>, key: T -> string): (r: seq<T>)
    ensures SortedBy(r, key)
    ensures multiset(r) == multiset(xs)
  {
    if |xs| == 0 then []
    else
      assert xs == xs[..|xs| - 1] + [xs[|xs| - 1]];
      Insert(xs[|xs| - 1], SortBy(xs[..|xs| - 1], key), key)
  }
}
