// Ordered listings: what SQL's ORDER BY and Python's sorted() mean for a set of distinct keys.
module Order {

  ghost predicate StrictTotal<T(!new)>(less: (T, T) -> bool) {
    && (forall a :: !less(a, a))
    && (forall a, b, c :: less(a, b) && less(b, c) ==> less(a, c))
    && (forall a, b :: a == b || less(a, b) || less(b, a))
  }

  ghost predicate Increasing<T>(less: (T, T) -> bool, s: seq<T>) {
    forall i, j :: 0 <= i < j < |s| ==> less(s[i], s[j])
  }

  // Code-point order of two texts, as Python compares str and SQLite compares TEXT.
  predicate TextLess(a: string, b: string) {
    b != [] && (a == [] || a[0] < b[0] || (a[0] == b[0] && TextLess(a[1..], b[1..])))
  }

  // ORDER BY number ASC, text ASC.
  predicate KeyLess(a: (int, string), b: (int, string)) {
    a.0 < b.0 || (a.0 == b.0 && TextLess(a.1, b.1))
  }

  // a and b agree up to n, where a ends or has the lesser character.
  predicate DiffersAt(a: string, b: string, n: nat) {
    n <= |a| && n < |b| && a[..n] == b[..n] && (n == |a| || a[n] < b[n])
  }

  predicate Precedes(a: string, b: string) {
    exists n: nat :: n <= |a| && DiffersAt(a, b, n)
  }

  lemma {:induction false} TextLessPrecedes(a: string, b: string)
    ensures TextLess(a, b) <==> Precedes(a, b)
  {
    if a == [] {
      assert b != [] ==> DiffersAt(a, b, 0);
    } else if b != [] {
      TextLessPrecedes(a[1..], b[1..]);
      if a[0] < b[0] { assert DiffersAt(a, b, 0); }
      if a[0] == b[0] && Precedes(a[1..], b[1..]) {
        var n: nat :| n <= |a[1..]| && DiffersAt(a[1..], b[1..], n);
        assert a[..n + 1] == [a[0]] + a[1..][..n] && b[..n + 1] == [b[0]] + b[1..][..n];
        assert DiffersAt(a, b, n + 1);
      }
      if Precedes(a, b) {
        var n: nat :| n <= |a| && DiffersAt(a, b, n);
        if n > 0 {
          assert a[0] == a[..n][0] && b[0] == b[..n][0];
          assert a[1..][..n - 1] == a[..n][1..] && b[1..][..n - 1] == b[..n][1..];
          assert DiffersAt(a[1..], b[1..], n - 1);
        }
      }
    }
  }

  lemma {:induction false} TextLessIrreflexive(a: string)
    ensures !TextLess(a, a)
  {
    if a != [] { TextLessIrreflexive(a[1..]); }
  }

  lemma {:induction false} TextLessTransitive(a: string, b: string, c: string)
    requires TextLess(a, b) && TextLess(b, c)
    ensures TextLess(a, c)
  {
    if a != [] && a[0] == b[0] && b[0] == c[0] {
      TextLessTransitive(a[1..], b[1..], c[1..]);
    }
  }

  lemma {:induction false} TextLessConnected(a: string, b: string)
    ensures a == b || TextLess(a, b) || TextLess(b, a)
  {
    if a != [] && b != [] && a[0] == b[0] {
      TextLessConnected(a[1..], b[1..]);
      assert a == [a[0]] + a[1..] && b == [b[0]] + b[1..];
    }
  }

  lemma TextLessTotal()
    ensures StrictTotal(TextLess)
  {
    forall a { TextLessIrreflexive(a); }
    forall a, b, c | TextLess(a, b) && TextLess(b, c) ensures TextLess(a, c) { TextLessTransitive(a, b, c); }
    forall a, b ensures a == b || TextLess(a, b) || TextLess(b, a) { TextLessConnected(a, b); }
  }

  lemma KeyLessTotal()
    ensures StrictTotal(KeyLess)
  {
    TextLessTotal();
  }

  lemma {:induction false} LeastExists<T(!new)>(less: (T, T) -> bool, items: set<T>) returns (m: T)
    requires StrictTotal(less) && items != {}
    ensures m in items && forall x :: x in items ==> x == m || less(m, x)
  {
    m :| m in items;
    if items != {m} {
      assert items - {m} != {};
      var n := LeastExists(less, items - {m});
      if less(n, m) { m := n; }
    }
  }

  function Least<T(!new, ==)>(less: (T, T) -> bool, items: set<T>): (m: T)
    requires StrictTotal(less) && items != {}
    ensures m in items && forall x :: x in items ==> x == m || less(m, x)
  {
    assert exists m :: m in items && forall x :: x in items ==> x == m || less(m, x) by {
      var m := LeastExists(less, items);
    }
    var m :| m in items && forall x :: x in items ==> x == m || less(m, x);
    m
  }

  // The items of a set, listed in increasing order.
  function Sorted<T(!new, ==)>(less: (T, T) -> bool, items: set<T>): (s: seq<T>)
    requires StrictTotal(less)
    ensures Increasing(less, s)
    ensures forall x :: x in s <==> x in items
    ensures |s| == |items|
  {
    if items == {} then [] else
      var m := Least(less, items);
      [m] + Sorted(less, items - {m})
  }

  // An increasing listing is determined by the set it lists.
  lemma {:induction false} IncreasingUnique<T(!new)>(less: (T, T) -> bool, s: seq<T>, t: seq<T>)
    requires StrictTotal(less) && Increasing(less, s) && Increasing(less, t)
    requires forall x :: x in s <==> x in t
    ensures s == t
  {
    assert t != [] ==> t[0] in t && t[0] in s;
    if s != [] {
      assert s[0] in t;
      assert s[0] == t[0];
      forall x ensures x in s[1..] <==> x in t[1..] {
        if x in s[1..] { assert x in s && x != s[0]; }
        if x in t[1..] { assert x in t && x != t[0]; }
      }
      IncreasingUnique(less, s[1..], t[1..]);
      assert s == [s[0]] + s[1..] && t == [t[0]] + t[1..];
    }
  }

  lemma SortedUnique<T(!new)>(less: (T, T) -> bool, s: seq<T>, items: set<T>)
    requires StrictTotal(less) && Increasing(less, s)
    requires forall x :: x in s <==> x in items
    ensures s == Sorted(less, items)
  {
    IncreasingUnique(less, s, Sorted(less, items));
  }

  // ORDER BY a text column, ASC
  function SortedTexts(items: set<string>): (s: seq<string>)
    ensures Increasing(TextLess, s)
    ensures forall x :: x in s <==> x in items
    ensures |s| == |items|
  {
    TextLessTotal();
    Sorted(TextLess, items)
  }

  lemma SortedTextsUnique(s: seq<string>, items: set<string>)
    requires Increasing(TextLess, s) && forall x :: x in s <==> x in items
    ensures s == SortedTexts(items)
  {
    TextLessTotal();
    SortedUnique(TextLess, s, items);
  }

  // ORDER BY a number and a text, both ASC
  function SortedPairs(items: set<(int, string)>): (s: seq<(int, string)>)
    ensures Increasing(KeyLess, s)
    ensures forall x :: x in s <==> x in items
    ensures |s| == |items|
  {
    KeyLessTotal();
    Sorted(KeyLess, items)
  }
}
