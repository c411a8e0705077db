/** Finite-sequence facts shared by the other modules: duplicate-freedom, stable sorting, counting. */
module Sequences {

  ghost predicate NoDup<T(!new)>(s: seq<T>) {
    forall i, j :: 0 <= i < j < |s| ==> s[i] != s[j]
  }

  /** Positions in ascending order. */
  ghost predicate Rising(at: seq<nat>) {
    forall k, l :: 0 <= k < l < |at| ==> at[k] < at[l]
  }

  lemma RisingMore(at: seq<nat>, n: nat)
    requires Rising(at) && forall i :: i in at ==> i < n
    ensures Rising(at + [n]) && forall i: nat :: i in at + [n] <==> i in at || i == n
  {
    forall k | 0 <= k < |at| ensures at[k] < n { assert at[k] in at; }
  }

  /** The elements of `s` as a set. */
  function Elements<T>(s: seq<T>): set<T> {
    set x | x in s
  }

  ghost predicate SortedBy<T(!new)>(key: T -> int, s: seq<T>) {
    forall i, j :: 0 <= i < j < |s| ==> key(s[i]) <= key(s[j])
  }

  function InsertBy<T>(key: T -> int, x: T, s: seq<T>): seq<T> {
    if s == [] then [x]
    else if key(x) <= key(s[0]) then [x] + s
    else [s[0]] + InsertBy(key, x, s[1..])
  }

  /** Stable ascending sort: Python's `sorted(s, key=key)`. */
  function SortBy<T>(key: T -> int, s: seq<T>): seq<T> {
    if s == [] then [] else InsertBy(key, s[0], SortBy(key, s[1..]))
  }

  lemma {:induction false} InsertByFacts<T(!new)>(key: T -> int, x: T, s: seq<T>)
    requires SortedBy(key, s)
    ensures SortedBy(key, InsertBy(key, x, s))
    ensures multiset(InsertBy(key, x, s)) == multiset{x} + multiset(s)
  {
    if s != [] && key(x) > key(s[0]) {
      InsertByFacts(key, x, s[1..]);
      var r := InsertBy(key, x, s[1..]);
      assert s == [s[0]] + s[1..];
      forall i | 0 <= i < |r| ensures key(s[0]) <= key(r[i]) {
        assert r[i] in multiset(r);
        assert r[i] == x || r[i] in s[1..];
      }
      SortedCons(key, s[0], r);
    } else {
      SortedCons(key, x, s);
    }
  }

  lemma SortedCons<T(!new)>(key: T -> int, x: T, s: seq<T>)
    requires SortedBy(key, s) && forall i :: 0 <= i < |s| ==> key(x) <= key(s[i])
    ensures SortedBy(key, [x] + s)
  {}

  lemma {:induction false} SortByFacts<T(!new)>(key: T -> int, s: seq<T>)
    ensures SortedBy(key, SortBy(key, s))
    ensures multiset(SortBy(key, s)) == multiset(s)
    ensures |SortBy(key, s)| == |s|
    ensures forall x :: x in SortBy(key, s) <==> x in s
  {
    if s != [] {
      SortByFacts(key, s[1..]);
      InsertByFacts(key, s[0], SortBy(key, s[1..]));
      assert s == [s[0]] + s[1..];
    }
    SameMultiset(SortBy(key, s), s);
  }

  lemma SameMultiset<T(!new)>(a: seq<T>, b: seq<T>)
    requires multiset(a) == multiset(b)
    ensures |a| == |b|
    ensures forall x :: x in a <==> x in b
  {
    assert |multiset(a)| == |a| && |multiset(b)| == |b|;
    forall x ensures x in a <==> x in b {
      assert x in multiset(a) <==> x in multiset(b);
    }
  }

  /** Sorting something already in order changes nothing. */
  lemma {:induction false} SortBySorted<T(!new)>(key: T -> int, s: seq<T>)
    requires SortedBy(key, s)
    ensures SortBy(key, s) == s
  {
    if s != [] {
      SortBySorted(key, s[1..]);
      assert s == [s[0]] + s[1..];
    }
  }

  lemma NoDupMultiset<T(!new)>(s: seq<T>)
    ensures NoDup(s) <==> forall x :: multiset(s)[x] <= 1
  {
    if exists x :: multiset(s)[x] > 1 {
      var x :| multiset(s)[x] > 1;
      TwoPositions(s, x);
    }
    if !NoDup(s) {
      var i, j :| 0 <= i < j < |s| && s[i] == s[j];
      assert s == s[..i] + [s[i]] + s[i+1..j] + [s[j]] + s[j+1..];
      assert multiset(s)[s[i]] > 1;
    }
  }

  lemma {:induction false} TwoPositions<T(!new)>(s: seq<T>, x: T)
    requires multiset(s)[x] > 1
    ensures exists i, j :: 0 <= i < j < |s| && s[i] == s[j]
  {
    assert x in multiset(s);
    var i :| 0 <= i < |s| && s[i] == x;
    assert s == s[..i] + [x] + s[i+1..];
    var rest := s[..i] + s[i+1..];
    assert multiset(s) == multiset(rest) + multiset{x};
    assert x in multiset(rest);
    var k :| 0 <= k < |rest| && rest[k] == x;
    if k < i {
      assert s[k] == s[i];
    } else {
      assert s[k+1] == s[i];
    }
  }

  lemma SortByNoDup<T(!new)>(key: T -> int, s: seq<T>)
    requires NoDup(s)
    ensures NoDup(SortBy(key, s))
  {
    SortByFacts(key, s);
    NoDupMultiset(s);
    NoDupMultiset(SortBy(key, s));
  }

  /** Two strictly ascending sequences with the same elements are equal. */
  lemma {:induction false} StrictlySortedUnique<T(!new)>(key: T -> int, a: seq<T>, b: seq<T>)
    requires forall i, j :: 0 <= i < j < |a| ==> key(a[i]) < key(a[j])
    requires forall i, j :: 0 <= i < j < |b| ==> key(b[i]) < key(b[j])
    requires forall x :: x in a <==> x in b
    ensures a == b
  {
    assert a != [] ==> a[0] in b;
    assert b != [] ==> b[0] in a;
    if a != [] {
      assert a[0] in b && b[0] in a;
      assert a[0] == b[0] by {
        var i :| 0 <= i < |b| && b[i] == a[0];
        var j :| 0 <= j < |a| && a[j] == b[0];
      }
      forall x ensures x in a[1..] <==> x in b[1..] {
        if x in a[1..] {
          var i :| 1 <= i < |a| && a[i] == x;
          assert x in a && x != b[0];
        }
        if x in b[1..] {
          var i :| 1 <= i < |b| && b[i] == x;
          assert x in b && x != a[0];
        }
      }
      StrictlySortedUnique(key, a[1..], b[1..]);
      assert a == [a[0]] + a[1..] && b == [b[0]] + b[1..];
    }
  }

  lemma NoDupCons<T(!new)>(x: T, t: seq<T>)
    ensures NoDup([x] + t) <==> NoDup(t) && x !in t
  {
    var s := [x] + t;
    if NoDup(s) {
      forall i, j | 0 <= i < j < |t| ensures t[i] != t[j] {
        assert t[i] == s[i+1] && t[j] == s[j+1];
      }
      forall k | 0 <= k < |t| ensures t[k] != x {
        assert s[0] == x && s[k+1] == t[k];
      }
    }
  }

  /** A sequence has as many distinct elements as positions exactly when nothing repeats. */
  lemma {:induction false} CardinalityNoDup<T(!new)>(s: seq<T>)
    ensures |Elements(s)| <= |s|
    ensures |Elements(s)| == |s| <==> NoDup(s)
  {
    if s != [] {
      var x, t := s[0], s[1..];
      assert s == [x] + t;
      CardinalityNoDup(t);
      NoDupCons(x, t);
      assert Elements(s) == Elements(t) + {x};
      hide NoDup;
      assert x in t <==> x in Elements(t);
    }
  }

  lemma Position<T(!new)>(s: seq<T>, x: T) returns (j: nat)
    requires x in multiset(s)
    ensures j < |s| && s[j] == x
  {
    j :| 0 <= j < |s| && s[j] == x;
  }

  lemma SplitAt<T>(s: seq<T>, j: nat)
    requires j < |s|
    ensures s == s[..j] + ([s[j]] + s[j+1..]) && RemoveAt(s, j) == s[..j] + s[j+1..]
  {}

  lemma JoinAssociates<T>(a: seq<T>, b: seq<T>, c: seq<T>)
    ensures a + (b + c) == (a + b) + c
  {}

  function RemoveAt<T>(s: seq<T>, j: nat): (r: seq<T>)
    requires j < |s|
    ensures |r| == |s| - 1
  {
    s[..j] + s[j+1..]
  }

  lemma TakeOut<T>(s: seq<T>, j: nat)
    requires j < |s|
    ensures multiset(RemoveAt(s, j)) == multiset(s) - multiset{s[j]}
  {
    assert s == s[..j] + ([s[j]] + s[j+1..]);
  }

  lemma SomeElement<T>(s: set<T>) returns (x: T)
    requires s != {}
    ensures x in s
  {
    x :| x in s;
  }

  /** A subset as large as the whole is the whole. */
  lemma SubsetFull<T>(a: set<T>, b: set<T>)
    requires a <= b && |a| == |b|
    ensures a == b
  {
    assert |b - a| == 0;
    assert b == a + (b - a);
  }

  lemma SubsetSmaller<T>(a: set<T>, b: set<T>)
    requires a <= b
    ensures |a| <= |b|
  {
    assert |b - a| == |b| - |a|;
  }
}
