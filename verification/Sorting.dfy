/** Python's stable list.sort, and the lexicographic order of strings. */
module Sorting {
  /** A total preorder, as a comparison by key gives. */
  ghost predicate Preorder<T(!new)>(leq: (T, T) -> bool) {
    && (forall x, y :: leq(x, y) || leq(y, x))
    && (forall x, y, z :: leq(x, y) && leq(y, z) ==> leq(x, z))
  }

  ghost predicate Sorted<T>(s: seq<T>, leq: (T, T) -> bool) {
    forall i, j | 0 <= i < j < |s| :: leq(s[i], s[j])
  }

  function Insert<T>(x: T, s: seq<T>, leq: (T, T) -> bool): seq<T> {
    if s == [] || leq(x, s[0]) then [x] + s else [s[0]] + Insert(x, s[1..], leq)
  }

  /** Stable sort: equal elements keep their order. */
  function Sort<T>(s: seq<T>, leq: (T, T) -> bool): seq<T> {
    if s == [] then [] else Insert(s[0], Sort(s[1..], leq), leq)
  }

  lemma {:induction false} InsertContents<T>(x: T, s: seq<T>, leq: (T, T) -> bool)
    ensures multiset(Insert(x, s, leq)) == multiset{x} + multiset(s)
    ensures |Insert(x, s, leq)| == |s| + 1
  {
    if s != [] && !leq(x, s[0]) {
      InsertContents(x, s[1..], leq);
      assert s == [s[0]] + s[1..];
    }
  }

  lemma {:induction false} SortContents<T>(s: seq<T>, leq: (T, T) -> bool)
    ensures multiset(Sort(s, leq)) == multiset(s)
    ensures |Sort(s, leq)| == |s|
  {
    if s != [] {
      SortContents(s[1..], leq);
      InsertContents(s[0], Sort(s[1..], leq), leq);
      assert s == [s[0]] + s[1..];
    }
  }

  lemma {:induction false} InsertSorts<T(!new)>(x: T, s: seq<T>, leq: (T, T) -> bool)
    requires Preorder(leq) && Sorted(s, leq)
    ensures Sorted(Insert(x, s, leq), leq)
  {
    if s != [] && !leq(x, s[0]) {
      InsertSorts(x, s[1..], leq);
      var r := Insert(x, s[1..], leq);
      InsertContents(x, s[1..], leq);
      forall i | 0 <= i < |r| ensures leq(s[0], r[i]) {
        assert r[i] in multiset(r);
        assert r[i] == x || r[i] in s[1..];
      }
    }
  }

  lemma {:induction false} SortSorts<T(!new)>(s: seq<T>, leq: (T, T) -> bool)
    requires Preorder(leq)
    ensures Sorted(Sort(s, leq), leq)
  {
    if s != [] {
      SortSorts(s[1..], leq);
      InsertSorts(s[0], Sort(s[1..], leq), leq);
    }
  }

  lemma {:induction false} SortOfSorted<T>(s: seq<T>, leq: (T, T) -> bool)
    requires Sorted(s, leq)
    ensures Sort(s, leq) == s
  {
    if s != [] {
      SortOfSorted(s[1..], leq);
      assert s == [s[0]] + s[1..];
    }
  }

  /** The elements that compare equal to x, in their order. */
  ghost function Ties<T>(s: seq<T>, leq: (T, T) -> bool, x: T): seq<T> {
    if s == [] then []
    else (if leq(x, s[0]) && leq(s[0], x) then [s[0]] else []) + Ties(s[1..], leq, x)
  }

  lemma {:induction false} InsertTies<T(!new)>(y: T, s: seq<T>, leq: (T, T) -> bool, x: T)
    requires Preorder(leq)
    ensures Ties(Insert(y, s, leq), leq, x) == Ties([y] + s, leq, x)
  {
    assert ([y] + s)[1..] == s;
    if s != [] && !leq(y, s[0]) {
      var rest := s[1..];
      InsertTies(y, rest, leq, x);
      assert ([s[0]] + Insert(y, rest, leq))[1..] == Insert(y, rest, leq);
      assert ([y] + rest)[1..] == rest;
    }
  }

  /** The sort is stable. */
  lemma {:induction false} SortStable<T(!new)>(s: seq<T>, leq: (T, T) -> bool, x: T)
    requires Preorder(leq)
    ensures Ties(Sort(s, leq), leq, x) == Ties(s, leq, x)
  {
    if s != [] {
      SortStable(s[1..], leq, x);
      InsertTies(s[0], Sort(s[1..], leq), leq, x);
      assert ([s[0]] + Sort(s[1..], leq))[1..] == Sort(s[1..], leq);
    }
  }

  /** Insertion of a later arrival: after the elements it does not precede. */
  function InsertLast<T>(x: T, s: seq<T>, leq: (T, T) -> bool): seq<T> {
    if s != [] && leq(s[0], x) then [s[0]] + InsertLast(x, s[1..], leq) else [x] + s
  }

  lemma {:induction false} InsertsCommute<T(!new)>(y: T, x: T, s: seq<T>, leq: (T, T) -> bool)
    requires Preorder(leq)
    ensures Insert(y, InsertLast(x, s, leq), leq) == InsertLast(x, Insert(y, s, leq), leq)
  {
    if s != [] {
      var rest := s[1..];
      InsertsCommute(y, x, rest, leq);
      if leq(s[0], x) {
        assert InsertLast(x, s, leq)[1..] == InsertLast(x, rest, leq);
        if leq(y, s[0]) {
          assert leq(y, x);
          assert Insert(y, s, leq)[1..] == s;
        } else {
          assert Insert(y, s, leq)[1..] == Insert(y, rest, leq);
        }
      } else {
        assert InsertLast(x, s, leq)[1..] == s;
        if leq(y, x) {
          assert leq(y, s[0]);
          assert Insert(y, s, leq)[1..] == s;
        }
      }
    }
  }

  /** A stable sort can take the elements in arrival order. */
  lemma {:induction false} SortAppend<T(!new)>(s: seq<T>, x: T, leq: (T, T) -> bool)
    requires Preorder(leq)
    ensures Sort(s + [x], leq) == InsertLast(x, Sort(s, leq), leq)
  {
    if s == [] {
      assert [] + [x] == [x] && [x][1..] == [];
    } else {
      SortAppend(s[1..], x, leq);
      assert (s + [x])[1..] == s[1..] + [x];
      InsertsCommute(s[0], x, Sort(s[1..], leq), leq);
    }
  }

  lemma {:induction false} InsertLastBehind<T>(x: T, front: seq<T>, s: seq<T>, leq: (T, T) -> bool)
    requires forall i | 0 <= i < |front| :: leq(front[i], x)
    ensures InsertLast(x, front + s, leq) == front + InsertLast(x, s, leq)
  {
    if front == [] {
      assert front + s == s;
    } else {
      assert (front + s)[1..] == front[1..] + s;
      InsertLastBehind(x, front[1..], s, leq);
    }
  }

  ghost predicate Distinct<T>(s: seq<T>) {
    forall i, j | 0 <= i < j < |s| :: s[i] != s[j]
  }

  lemma {:induction false} DistinctCount<T>(s: seq<T>, x: T)
    requires Distinct(s)
    ensures multiset(s)[x] <= 1
  {
    if s != [] {
      var rest := s[..|s| - 1];
      DistinctCount(rest, x);
      assert s == rest + [s[|s| - 1]];
      if x == s[|s| - 1] {
        assert x !in rest;
      }
    }
  }

  /** A permutation of a list without duplicates has none either. */
  lemma PermutedDistinct<T>(s: seq<T>, t: seq<T>)
    requires Distinct(s) && multiset(s) == multiset(t)
    ensures Distinct(t) && |s| == |t| && forall x :: x in s <==> x in t
  {
    assert |multiset(s)| == |s| && |multiset(t)| == |t|;
    assert forall x :: x in s <==> x in multiset(s);
    assert forall x :: x in t <==> x in multiset(t);
    forall i, j | 0 <= i < j < |t| ensures t[i] != t[j] {
      DistinctCount(s, t[j]);
      assert t == t[..j] + [t[j]] + t[j + 1..];
      assert multiset(t[..j])[t[j]] == 0;
      assert t[..j][i] == t[i];
    }
  }

  /** Order of str: the first differing character decides, a prefix comes first. */
  predicate TextLeq(a: string, b: string) {
    if a == [] then true
    else if b == [] then false
    else if a[0] != b[0] then a[0] < b[0]
    else TextLeq(a[1..], b[1..])
  }

  ghost predicate DiffersAt(a: string, b: string, k: nat) {
    k < |a| && k < |b| && a[..k] == b[..k] && a[k] < b[k]
  }

  lemma {:induction false} TextLeqMeans(a: string, b: string)
    ensures TextLeq(a, b) <==> a <= b || exists k: nat :: DiffersAt(a, b, k)
  {
    if a != [] && b != [] {
      if a[0] != b[0] {
        if a[0] < b[0] {
          assert DiffersAt(a, b, 0);
        }
        assert forall k: nat | k > 0 && k < |a| && k < |b| :: a[..k][0] != b[..k][0];
      } else {
        TextLeqMeans(a[1..], b[1..]);
        assert a <= b <==> a[1..] <= b[1..];
        if k: nat :| DiffersAt(a[1..], b[1..], k) {
          assert a[..k + 1] == [a[0]] + a[1..][..k] && b[..k + 1] == [b[0]] + b[1..][..k];
          assert DiffersAt(a, b, k + 1);
        }
        if k: nat :| DiffersAt(a, b, k) {
          assert k > 0 && a[1..][..k - 1] == a[..k][1..] && b[1..][..k - 1] == b[..k][1..];
          assert DiffersAt(a[1..], b[1..], k - 1);
        }
      }
    }
  }

  lemma {:induction false} TextLeqTotal(a: string, b: string)
    ensures TextLeq(a, b) || TextLeq(b, a)
    ensures TextLeq(a, b) && TextLeq(b, a) ==> a == b
  {
    if a != [] && b != [] && a[0] == b[0] {
      TextLeqTotal(a[1..], b[1..]);
      assert a == [a[0]] + a[1..] && b == [b[0]] + b[1..];
    }
  }

  lemma {:induction false} TextLeqTransitive(a: string, b: string, c: string)
    requires TextLeq(a, b) && TextLeq(b, c)
    ensures TextLeq(a, c)
  {
    if a != [] && b != [] && c != [] && a[0] == b[0] == c[0] {
      TextLeqTransitive(a[1..], b[1..], c[1..]);
    }
  }

  /** The elements of a set, in any order. */
  method Elements<T(==)>(all: set<T>) returns (s: seq<T>)
    ensures Distinct(s) && (forall x :: x in all <==> x in s) && (s == [] <==> all == {})
  {
    s := [];
    var left := all;
    while left != {}
      invariant left <= all && Distinct(s) && forall x :: x in all <==> x in s || x in left
      invariant forall x | x in s :: x !in left
      decreases |left|
    {
      var x :| x in left;
      s, left := s + [x], left - {x};
    }
    assert s != [] ==> s[0] in all;
  }
}
