/** The orders behind `BTreeMap` and `BTreeSet`: lexicographic comparison of strings and of
    field paths, and the iteration order of a finite set under such an order. */
module Ordering {

  ghost predicate StrictTotalOrder<T(!new)>(less: (T, T) -> bool)
  {
    && (forall a :: !less(a, a))
    && (forall a, b, c :: less(a, b) && less(b, c) ==> less(a, c))
    && (forall a, b :: less(a, b) || a == b || less(b, a))
  }

  predicate LexLess<T(==)>(less: (T, T) -> bool, a: seq<T>, b: seq<T>)
  {
    b != [] && (a == [] || less(a[0], b[0]) || (a[0] == b[0] && LexLess(less, a[1..], b[1..])))
  }

  lemma {:induction false} LexIrreflexive<T(!new)>(less: (T, T) -> bool, a: seq<T>)
    requires StrictTotalOrder(less)
    ensures !LexLess(less, a, a)
  {
    if a != [] {
      LexIrreflexive(less, a[1..]);
    }
  }

  lemma {:induction false} LexTransitive<T(!new)>(less: (T, T) -> bool, a: seq<T>, b: seq<T>, c: seq<T>)
    requires StrictTotalOrder(less)
    requires LexLess(less, a, b) && LexLess(less, b, c)
    ensures LexLess(less, a, c)
  {
    if a != [] && a[0] == b[0] && b[0] == c[0] {
      LexTransitive(less, a[1..], b[1..], c[1..]);
    }
  }

  lemma {:induction false} LexTotal<T(!new)>(less: (T, T) -> bool, a: seq<T>, b: seq<T>)
    requires StrictTotalOrder(less)
    ensures LexLess(less, a, b) || a == b || LexLess(less, b, a)
  {
    if a != [] && b != [] && a[0] == b[0] {
      LexTotal(less, a[1..], b[1..]);
      assert a == [a[0]] + a[1..] && b == [b[0]] + b[1..];
    }
  }

  predicate CharLess(a: char, b: char) { a < b }

  predicate StringLess(a: string, b: string) { LexLess(CharLess, a, b) }

  predicate PathLess(a: seq<string>, b: seq<string>) { LexLess(StringLess, a, b) }

  /** The lexicographic order, said without recursion: a proper prefix comes first, otherwise the first
      difference decides. */
  lemma {:induction false} LexLessExact<T(!new)>(less: (T, T) -> bool, a: seq<T>, b: seq<T>)
    ensures LexLess(less, a, b) <==> (a <= b && a != b) || exists i :: DiffersAt(less, a, b, i)
  {
    if a != [] && b != [] {
      LexLessExact(less, a[1..], b[1..]);
      assert a == [a[0]] + a[1..] && b == [b[0]] + b[1..];
      if less(a[0], b[0]) {
        assert DiffersAt(less, a, b, 0);
      }
      if a[0] == b[0] {
        if i :| DiffersAt(less, a[1..], b[1..], i) {
          DifferenceShifts(less, a, b, i + 1);
        }
      }
      if i :| DiffersAt(less, a, b, i) {
        if i > 0 {
          DifferenceShifts(less, a, b, i);
        }
      }
    }
  }

  /** The sequences agree before position `i`, and there the first one is less. */
  predicate DiffersAt<T(==)>(less: (T, T) -> bool, a: seq<T>, b: seq<T>, i: int)
  {
    0 <= i < |a| && i < |b| && a[..i] == b[..i] && less(a[i], b[i])
  }

  lemma DifferenceShifts<T(!new)>(less: (T, T) -> bool, a: seq<T>, b: seq<T>, i: int)
    requires a != [] && b != [] && i > 0
    ensures DiffersAt(less, a, b, i) <==> a[0] == b[0] && DiffersAt(less, a[1..], b[1..], i - 1)
  {
    if i < |a| && i < |b| {
      assert a[..i] == [a[0]] + a[1..][..i - 1] && b[..i] == [b[0]] + b[1..][..i - 1];
      assert a[..i] == b[..i] ==> a[..i][0] == b[..i][0] && a[..i][1..] == b[..i][1..];
      assert a[..i][1..] == a[1..][..i - 1] && b[..i][1..] == b[1..][..i - 1];
    }
  }

  /** Strings are ordered by character code, paths by their segments. */
  lemma OrdersExact(a: string, b: string, p: seq<string>, q: seq<string>)
    ensures StringLess(a, b) <==> (a <= b && a != b) || exists i :: DiffersAt(CharLess, a, b, i)
    ensures PathLess(p, q) <==> (p <= q && p != q) || exists i :: DiffersAt(StringLess, p, q, i)
    ensures forall c: char, d: char :: CharLess(c, d) <==> (c as int) < d as int
  {
    LexLessExact(CharLess, a, b);
    LexLessExact(StringLess, p, q);
  }

  lemma StringOrder()
    ensures StrictTotalOrder(StringLess)
  {
    assert StrictTotalOrder(CharLess);
    forall a: string ensures !StringLess(a, a) { LexIrreflexive(CharLess, a); }
    forall a: string, b: string, c: string | StringLess(a, b) && StringLess(b, c) ensures StringLess(a, c) {
      LexTransitive(CharLess, a, b, c);
    }
    forall a: string, b: string ensures StringLess(a, b) || a == b || StringLess(b, a) {
      LexTotal(CharLess, a, b);
    }
  }

  lemma PathOrder()
    ensures StrictTotalOrder(PathLess)
  {
    StringOrder();
    forall a: seq<string> ensures !PathLess(a, a) { LexIrreflexive(StringLess, a); }
    forall a: seq<string>, b: seq<string>, c: seq<string> | PathLess(a, b) && PathLess(b, c) ensures PathLess(a, c) {
      LexTransitive(StringLess, a, b, c);
    }
    forall a: seq<string>, b: seq<string> ensures PathLess(a, b) || a == b || PathLess(b, a) {
      LexTotal(StringLess, a, b);
    }
  }

  ghost predicate Ascending<T(!new)>(less: (T, T) -> bool, s: seq<T>)
  {
    forall i, j :: 0 <= i < j < |s| ==> less(s[i], s[j])
  }

  /** `r` lists the elements of `s` in ascending order. */
  ghost predicate Enumerates<T(!new)>(less: (T, T) -> bool, s: set<T>, r: seq<T>)
  {
    Ascending(less, r) && |r| == |s| && forall x :: x in r <==> x in s
  }

  lemma {:induction false} LeastExists<T(!new)>(less: (T, T) -> bool, s: set<T>)
    requires StrictTotalOrder(less) && s != {}
    ensures exists x :: x in s && forall y :: y in s ==> x == y || less(x, y)
  {
    var x :| x in s;
    if s != {x} {
      LeastExists(less, s - {x});
      var m :| m in s - {x} && forall y :: y in s - {x} ==> m == y || less(m, y);
      var least := if less(x, m) then x else m;
      forall y | y in s ensures least == y || less(least, y) {
        assert y == x || y in s - {x};
      }
    }
  }

  lemma PrependLeast<T(!new)>(less: (T, T) -> bool, s: set<T>, x: T, rest: seq<T>)
    requires x in s && forall y :: y in s ==> x == y || less(x, y)
    requires Enumerates(less, s - {x}, rest)
    ensures Enumerates(less, s, [x] + rest)
  {
    var r := [x] + rest;
    forall i, j | 0 <= i < j < |r| ensures less(r[i], r[j]) {
      assert r[j] == rest[j - 1];
      assert rest[j - 1] in rest;
    }
    forall y ensures y in r <==> y in s {
      assert y in r <==> y == x || y in rest;
    }
  }

  function Enumerate<T(!new, ==)>(less: (T, T) -> bool, s: set<T>): (r: seq<T>)
    requires StrictTotalOrder(less)
    ensures Enumerates(less, s, r)
  {
    if s == {} then []
    else
      LeastExists(less, s);
      var x :| x in s && forall y :: y in s ==> x == y || less(x, y);
      var rest := Enumerate(less, s - {x});
      PrependLeast(less, s, x, rest);
      [x] + rest
  }

  /** Iteration order of a `BTreeSet<String>`. */
  function SortedStrings(s: set<string>): (r: seq<string>)
    ensures Enumerates(StringLess, s, r)
  {
    StringOrder();
    Enumerate(StringLess, s)
  }

  /** Iteration order of a `BTreeSet<FieldPath>`. */
  function SortedPaths(s: set<seq<string>>): (r: seq<seq<string>>)
    ensures Enumerates(PathLess, s, r)
  {
    PathOrder();
    Enumerate(PathLess, s)
  }

  // ---------------------------------------------------------------------------
  // Rearrangements
  // ---------------------------------------------------------------------------

  lemma RemoveAt<T>(s: seq<T>, i: nat)
    requires i < |s|
    ensures multiset(s) == multiset(s[..i] + s[i + 1..]) + multiset{s[i]}
  {
    var left, right := s[..i], s[i + 1..];
    assert s == left + ([s[i]] + right);
    assert multiset(left + ([s[i]] + right)) == multiset(left) + multiset([s[i]] + right);
    assert multiset([s[i]] + right) == multiset{s[i]} + multiset(right);
    assert multiset(left + right) == multiset(left) + multiset(right);
  }

  /** A rearrangement contains any chosen element of the original, and rearranges the others. */
  lemma FindElement<T>(xs: seq<T>, k: nat, ys: seq<T>) returns (i: nat)
    requires k < |xs| && multiset(xs) == multiset(ys)
    ensures i < |ys| && ys[i] == xs[k]
    ensures multiset(ys[..i] + ys[i + 1..]) == multiset(xs[..k] + xs[k + 1..])
  {
    assert xs[k] in multiset(xs);
    assert xs[k] in ys;
    i :| 0 <= i < |ys| && ys[i] == xs[k];
    RemoveAt(xs, k);
    RemoveAt(ys, i);
    SameRemainder(multiset(ys[..i] + ys[i + 1..]), multiset(xs[..k] + xs[k + 1..]), xs[k]);
  }

  lemma SameRemainder<T>(a: multiset<T>, b: multiset<T>, x: T)
    requires a + multiset{x} == b + multiset{x}
    ensures a == b
  {
    assert a == (a + multiset{x}) - multiset{x};
    assert b == (b + multiset{x}) - multiset{x};
  }
}
