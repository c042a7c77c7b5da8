/** Python's `sorted` on sets: a strict total order, and the one strictly increasing
    sequence of a finite set's elements. */
module Ordering {

  ghost predicate StrictTotalOrder<T(!new)>(less: (T, T) -> bool) {
    && (forall x :: !less(x, x))
    && (forall x, y :: x == y || less(x, y) || less(y, x))
    && (forall x, y, z :: less(x, y) && less(y, z) ==> less(x, z))
  }

  predicate Increasing<T>(less: (T, T) -> bool, s: seq<T>) {
    forall i, j | 0 <= i < j < |s| :: less(s[i], s[j])
  }

  predicate IsLeast<T(==)>(less: (T, T) -> bool, x: T, s: set<T>) {
    x in s && forall y | y in s :: y == x || less(x, y)
  }

  lemma {:induction false} LeastExists<T(!new)>(less: (T, T) -> bool, s: set<T>)
    requires StrictTotalOrder(less) && s != {}
    ensures exists x :: IsLeast(less, x, s)
  {
    var y :| y in s;
    var rest := s - {y};
    if rest == {} {
      assert s == {y};
      assert IsLeast(less, y, s);
    } else {
      LeastExists(less, rest);
      var x :| IsLeast(less, x, rest);
      var least := if less(x, y) then x else y;
      assert s == rest + {y};
      assert IsLeast(less, least, s);
    }
  }

  /** The elements of `s` in increasing order, each once. */
  function Sorted<T(!new, ==)>(less: (T, T) -> bool, s: set<T>): (r: seq<T>)
    requires StrictTotalOrder(less)
    ensures Increasing(less, r)
    ensures forall x :: x in r <==> x in s
    ensures |r| == |s|
    decreases |s|
  {
    if s == {} then [] else
      LeastExists(less, s);
      assert forall x, y | IsLeast(less, x, s) && IsLeast(less, y, s) :: x == y;
      var x :| IsLeast(less, x, s);
      var rest := Sorted(less, s - {x});
      assert forall y | y in rest :: less(x, y);
      [x] + rest
  }

  lemma SortedIsSet<T(!new)>(less: (T, T) -> bool, s: set<T>)
    requires StrictTotalOrder(less)
    ensures (set x | x in Sorted(less, s)) == s
    ensures forall i, j | 0 <= i < j < |s| :: Sorted(less, s)[i] != Sorted(less, s)[j]
  {
  }

  /** A set has only one increasing enumeration. */
  lemma {:induction false} IncreasingUnique<T(!new)>(less: (T, T) -> bool, a: seq<T>, b: seq<T>)
    requires StrictTotalOrder(less) && Increasing(less, a) && Increasing(less, b)
    requires forall x :: x in a <==> x in b
    ensures a == b
  {
    assert |a| > 0 ==> a[0] in b;
    assert |b| > 0 ==> b[0] in a;
    if a != [] && b != [] {
      assert a[0] == b[0];
      forall x
        ensures x in a[1..] <==> x in b[1..]
      {
        assert x in a <==> x == a[0] || x in a[1..];
        assert x in b <==> x == b[0] || x in b[1..];
      }
      IncreasingUnique(less, a[1..], b[1..]);
      assert a == [a[0]] + a[1..] && b == [b[0]] + b[1..];
    }
  }

  // ----- sorting sequences ------------------------------------------------------------

  ghost predicate Ascending<T(!new)>(less: (T, T) -> bool, s: seq<T>) {
    forall i, j | 0 <= i < j < |s| :: !less(s[j], s[i])
  }

  function Insert<T>(less: (T, T) -> bool, x: T, s: seq<T>): (r: seq<T>)
    ensures multiset(r) == multiset(s) + multiset{x}
  {
    if s == [] || less(x, s[0]) then [x] + s
    else
      assert s == [s[0]] + s[1..];
      [s[0]] + Insert(less, x, s[1..])
  }

  /** Python's `sorted` on a list. */
  function Sort<T>(less: (T, T) -> bool, s: seq<T>): (r: seq<T>)
    ensures multiset(r) == multiset(s) && |r| == |s|
  {
    if s == [] then [] else
      assert s == s[..|s| - 1] + [s[|s| - 1]];
      var r := Insert(less, s[|s| - 1], Sort(less, s[..|s| - 1]));
      assert |r| == |multiset(r)| == |multiset(s)| == |s|;
      r
  }

  lemma {:induction false} InsertAscends<T(!new)>(less: (T, T) -> bool, x: T, s: seq<T>)
    requires StrictTotalOrder(less) && Ascending(less, s)
    ensures Ascending(less, Insert(less, x, s))
  {
    if s != [] && !less(x, s[0]) {
      InsertAscends(less, x, s[1..]);
      var rest := Insert(less, x, s[1..]);
      forall y | y in rest
        ensures !less(y, s[0])
      {
        assert y in multiset(rest);
      }
    }
  }

  lemma {:induction false} SortAscends<T(!new)>(less: (T, T) -> bool, s: seq<T>)
    requires StrictTotalOrder(less)
    ensures Ascending(less, Sort(less, s))
  {
    if s != [] {
      SortAscends(less, s[..|s| - 1]);
      InsertAscends(less, s[|s| - 1], Sort(less, s[..|s| - 1]));
    }
  }

  lemma SortMembers<T>(less: (T, T) -> bool, s: seq<T>)
    ensures forall x :: x in Sort(less, s) <==> x in s
    ensures Sort(less, s) == [] <==> s == []
  {
    assert forall x :: x in Sort(less, s) <==> x in multiset(Sort(less, s));
    assert forall x :: x in s <==> x in multiset(s);
  }

  // ----- distinct elements ------------------------------------------------------------

  predicate Distinct<T(==)>(s: seq<T>) {
    forall i, j | 0 <= i < j < |s| :: s[i] != s[j]
  }

  lemma {:induction false} DistinctCount<T>(s: seq<T>)
    requires Distinct(s)
    ensures |set x | x in s| == |s|
  {
    if s != [] {
      DistinctCount(s[1..]);
      assert (set x | x in s) == {s[0]} + set x | x in s[1..];
    }
  }

  lemma {:induction false} DistinctOnce<T>(s: seq<T>, x: T)
    requires Distinct(s)
    ensures multiset(s)[x] == if x in s then 1 else 0
  {
    if s != [] {
      assert s == [s[0]] + s[1..];
      DistinctOnce(s[1..], x);
    }
  }

  /** Without repetitions, the same elements are the same elements each once. */
  lemma SameMultiset<T(!new)>(a: seq<T>, b: seq<T>)
    requires Distinct(a) && Distinct(b) && forall x :: x in a <==> x in b
    ensures multiset(a) == multiset(b)
  {
    forall x: T
      ensures multiset(a)[x] == multiset(b)[x]
    {
      DistinctOnce(a, x);
      DistinctOnce(b, x);
    }
  }

  // ----- strings --------------------------------------------------------------------

  /** Lexicographic comparison of two sequences of ordered items. */
  predicate Before<T(==)>(less: (T, T) -> bool, a: seq<T>, b: seq<T>) {
    b != [] && (a == [] || (if a[0] == b[0] then Before(less, a[1..], b[1..]) else less(a[0], b[0])))
  }

  predicate CharLess(a: char, b: char) { a < b }

  predicate StringLess(a: string, b: string) { Before(CharLess, a, b) }

  predicate PartsLess(a: seq<string>, b: seq<string>) { Before(StringLess, a, b) }

  lemma {:induction false} BeforeCompares<T(!new)>(less: (T, T) -> bool, a: seq<T>, b: seq<T>)
    requires StrictTotalOrder(less)
    ensures !Before(less, a, a)
    ensures a == b || Before(less, a, b) || Before(less, b, a)
  {
    if a != [] {
      BeforeCompares(less, a[1..], if b == [] then [] else b[1..]);
      if b != [] && a[0] == b[0] && a[1..] == b[1..] {
        assert a == [a[0]] + a[1..] == b;
      }
    }
  }

  lemma {:induction false} BeforeTransitive<T(!new)>(less: (T, T) -> bool, a: seq<T>, b: seq<T>, c: seq<T>)
    requires StrictTotalOrder(less)
    ensures Before(less, a, b) && Before(less, b, c) ==> Before(less, a, c)
  {
    if a != [] && b != [] && c != [] {
      BeforeTransitive(less, a[1..], b[1..], c[1..]);
    }
  }

  lemma BeforeIsOrder<T(!new)>(less: (T, T) -> bool, before: (seq<T>, seq<T>) -> bool)
    requires StrictTotalOrder(less)
    requires forall a, b :: before(a, b) == Before(less, a, b)
    ensures StrictTotalOrder(before)
  {
    forall a, b
      ensures !before(a, a) && (a == b || before(a, b) || before(b, a))
    {
      BeforeCompares(less, a, b);
    }
    forall a, b, c
      ensures before(a, b) && before(b, c) ==> before(a, c)
    {
      BeforeTransitive(less, a, b, c);
    }
  }

  lemma StringOrder()
    ensures StrictTotalOrder(StringLess)
  {
    BeforeIsOrder(CharLess, StringLess);
  }

  lemma PartsOrder()
    ensures StrictTotalOrder(PartsLess)
  {
    StringOrder();
    BeforeIsOrder(StringLess, PartsLess);
  }

  /** A proper prefix comes first. */
  lemma {:induction false} PrefixFirst<T>(less: (T, T) -> bool, a: seq<T>, b: seq<T>)
    requires a < b
    ensures Before(less, a, b)
  {
    if a != [] {
      PrefixFirst(less, a[1..], b[1..]);
    }
  }

  /** Under a common front, the order is that of the differing last items. */
  lemma {:induction false} LastDecides<T>(less: (T, T) -> bool, front: seq<T>, a: T, b: T)
    requires less(a, b) && a != b
    ensures Before(less, front + [a], front + [b])
  {
    if front != [] {
      LastDecides(less, front[1..], a, b);
      assert (front + [a])[1..] == front[1..] + [a] && (front + [b])[1..] == front[1..] + [b];
    }
  }

  /** The first difference decides, whatever follows it. */
  lemma {:induction false} DifferenceDecides<T>(less: (T, T) -> bool, front: seq<T>, a: T, b: T,
                                                u: seq<T>, v: seq<T>)
    requires a != b
    ensures Before(less, front + [a] + u, front + [b] + v) <==> less(a, b)
  {
    var x, y := front + [a] + u, front + [b] + v;
    if front != [] {
      DifferenceDecides(less, front[1..], a, b, u, v);
      assert x[1..] == front[1..] + [a] + u && y[1..] == front[1..] + [b] + v;
    }
  }

  /** Strings compare by their first different characters; a proper prefix is less. */
  lemma StringsCompare(front: string, a: char, b: char, u: string, v: string)
    ensures a < b ==> StringLess(front + [a] + u, front + [b] + v)
    ensures StringLess(front, front + [a] + u)
  {
    if a != b {
      DifferenceDecides(CharLess, front, a, b, u, v);
    }
    PrefixFirst(CharLess, front, front + [a] + u);
  }

  // ----- decimal numerals -------------------------------------------------------------

  function Decimal(n: nat): (s: string)
    ensures s != [] && forall c | c in s :: '0' <= c <= '9'
  {
    (if n < 10 then "" else Decimal(n / 10)) + [('0' as int + n % 10) as char]
  }

  /** One digit, and the digits of ten times a number and a digit. */
  lemma DecimalIs(n: nat, d: nat)
    requires d < 10
    ensures Decimal(d) == ["0123456789"[d]]
    ensures n > 0 ==> Decimal(10 * n + d) == Decimal(n) + ["0123456789"[d]]
  {
    assert (10 * n + d) / 10 == n && (10 * n + d) % 10 == d;
  }

  lemma {:induction false} DecimalInjective(m: nat, n: nat)
    requires Decimal(m) == Decimal(n)
    ensures m == n
  {
    var a, b := Decimal(m), Decimal(n);
    assert a[|a| - 1] == b[|b| - 1];
    assert m % 10 == n % 10;
    assert a[..|a| - 1] == (if m < 10 then "" else Decimal(m / 10));
    assert b[..|b| - 1] == (if n < 10 then "" else Decimal(n / 10));
    if m >= 10 {
      DecimalInjective(m / 10, n / 10);
    }
  }
}
