/**
  The orders the manager server sorts by: byte-wise string order (Go's
  sort.Strings) and integer order, and sorting itself. Go's sort package is
  not modelled as an algorithm: what its callers rely on is that the result is
  the sorted permutation of the input, and UniqueSortedPermutation shows that
  there is only one when equal-ranked elements are equal.
 */
module Ordering {

  ghost predicate TotalOrder<T(!new)>(le: (T, T) -> bool) {
    && (forall x, y :: le(x, y) || le(y, x))
    && (forall x, y, z :: le(x, y) && le(y, z) ==> le(x, z))
  }

  ghost predicate Sorted<T>(le: (T, T) -> bool, s: seq<T>) {
    forall i, j | 0 <= i < j < |s| :: le(s[i], s[j])
  }

  /** No two different elements rank the same. */
  ghost predicate Antisymmetric<T>(le: (T, T) -> bool, s: seq<T>) {
    forall i, j | 0 <= i < |s| && 0 <= j < |s| && le(s[i], s[j]) && le(s[j], s[i]) :: s[i] == s[j]
  }

  function Insert<T>(le: (T, T) -> bool, x: T, s: seq<T>): (r: seq<T>)
    ensures multiset(r) == multiset(s) + multiset{x}
  {
    if |s| == 0 then [x]
    else if le(x, s[0]) then assert s == [s[0]] + s[1..]; [x] + s
    else assert s == [s[0]] + s[1..]; [s[0]] + Insert(le, x, s[1..])
  }

  function Sort<T>(le: (T, T) -> bool, s: seq<T>): (r: seq<T>)
    ensures multiset(r) == multiset(s)
    ensures |r| == |s|
  {
    if |s| == 0 then []
    else
      assert s == [s[0]] + s[1..];
      var r := Insert(le, s[0], Sort(le, s[1..]));
      assert |multiset(r)| == |multiset(s)|;
      r
  }

  lemma {:induction false} InsertSorted<T(!new)>(le: (T, T) -> bool, x: T, s: seq<T>)
    requires TotalOrder(le) && Sorted(le, s)
    ensures Sorted(le, Insert(le, x, s))
  {
    if |s| > 0 && !le(x, s[0]) {
      InsertSorted(le, x, s[1..]);
      var r := Insert(le, x, s[1..]);
      forall k | 0 <= k < |r| ensures le(s[0], r[k]) {
        assert r[k] in multiset(r);
        assert r[k] == x || r[k] in s[1..];
      }
    }
  }

  lemma {:induction false} SortSorted<T(!new)>(le: (T, T) -> bool, s: seq<T>)
    requires TotalOrder(le)
    ensures Sorted(le, Sort(le, s))
  {
    if |s| > 0 {
      SortSorted(le, s[1..]);
      InsertSorted(le, s[0], Sort(le, s[1..]));
    }
  }

  /** Whatever algorithm sorts, the result is the same sequence. */
  lemma {:induction false} UniqueSortedPermutation<T>(le: (T, T) -> bool, a: seq<T>, b: seq<T>)
    requires multiset(a) == multiset(b) && Antisymmetric(le, a)
    requires Sorted(le, a) && Sorted(le, b)
    ensures a == b
  {
    assert |multiset(a)| == |multiset(b)|;
    if |a| > 0 {
      SameLeast(le, a, b);
      TailCounts(a);
      TailCounts(b);
      UniqueSortedPermutation(le, a[1..], b[1..]);
      assert a == [a[0]] + a[1..] && b == [b[0]] + b[1..];
    }
  }

  lemma TailCounts<T>(s: seq<T>)
    requires |s| > 0
    ensures multiset(s[1..]) == multiset(s) - multiset{s[0]}
  {
    assert s == [s[0]] + s[1..];
  }

  lemma SameLeast<T>(le: (T, T) -> bool, a: seq<T>, b: seq<T>)
    requires multiset(a) == multiset(b) && Antisymmetric(le, a)
    requires Sorted(le, a) && Sorted(le, b) && |a| > 0 && |b| > 0
    ensures a[0] == b[0]
  {
    assert b[0] in multiset(a) && a[0] in multiset(b);
    var i :| 0 <= i < |a| && a[i] == b[0];
    var j :| 0 <= j < |b| && b[j] == a[0];
    if i > 0 && j > 0 {
      assert le(a[0], a[i]) && le(b[0], b[j]);
    }
  }

  /** Byte-wise lexicographic order, as Go compares strings. */
  predicate AtMost(a: string, b: string) {
    if |a| == 0 then true
    else if |b| == 0 then false
    else a[0] < b[0] || (a[0] == b[0] && AtMost(a[1..], b[1..]))
  }

  ghost predicate SmallerAt(a: string, b: string, k: nat) {
    k < |a| && k < |b| && a[..k] == b[..k] && a[k] < b[k]
  }

  /** a comes before b in a dictionary: it is a beginning of b, or smaller at the first byte in which they differ. */
  ghost predicate Precedes(a: string, b: string) {
    a < b || exists k: nat :: SmallerAt(a, b, k)
  }

  lemma {:induction false} AtMostIsDictionaryOrder(a: string, b: string)
    ensures AtMost(a, b) <==> a == b || Precedes(a, b)
  {
    if |a| > 0 && |b| > 0 && a[0] == b[0] {
      AtMostIsDictionaryOrder(a[1..], b[1..]);
      assert a == [a[0]] + a[1..] && b == [a[0]] + b[1..];
      PrecedesUnder(a[0], a[1..], b[1..]);
    } else if |a| > 0 && |b| > 0 && a[0] < b[0] {
      assert SmallerAt(a, b, 0);
    }
  }

  lemma SmallerUnder(x: char, c: string, d: string, k: nat)
    ensures SmallerAt([x] + c, [x] + d, k + 1) <==> SmallerAt(c, d, k)
  {
    var a, b := [x] + c, [x] + d;
    if k < |c| && k < |d| {
      assert a[..k + 1] == [x] + c[..k] && b[..k + 1] == [x] + d[..k];
      assert c[..k] == a[..k + 1][1..] && d[..k] == b[..k + 1][1..];
    }
  }

  /** A common first byte plays no part. */
  lemma PrecedesUnder(x: char, c: string, d: string)
    ensures Precedes([x] + c, [x] + d) <==> Precedes(c, d)
  {
    var a, b := [x] + c, [x] + d;
    assert a[1..] == c && b[1..] == d;
    if k: nat :| SmallerAt(a, b, k) { SmallerUnder(x, c, d, k - 1); }
    if k: nat :| SmallerAt(c, d, k) { SmallerUnder(x, c, d, k); }
  }

  lemma {:induction false} AtMostTotal(a: string, b: string)
    ensures AtMost(a, b) || AtMost(b, a)
    ensures AtMost(a, b) && AtMost(b, a) ==> a == b
  {
    if |a| > 0 && |b| > 0 {
      AtMostTotal(a[1..], b[1..]);
      if a[0] == b[0] && a[1..] == b[1..] {
        assert a == [a[0]] + a[1..] && b == [b[0]] + b[1..];
      }
    }
  }

  lemma {:induction false} AtMostTransitive(a: string, b: string, c: string)
    requires AtMost(a, b) && AtMost(b, c)
    ensures AtMost(a, c)
  {
    if |a| > 0 && a[0] == b[0] && b[0] == c[0] {
      AtMostTransitive(a[1..], b[1..], c[1..]);
    }
  }

  lemma AtMostIsTotalOrder()
    ensures TotalOrder(AtMost)
  {
    forall x, y ensures AtMost(x, y) || AtMost(y, x) { AtMostTotal(x, y); }
    forall x, y, z | AtMost(x, y) && AtMost(y, z) ensures AtMost(x, z) { AtMostTransitive(x, y, z); }
  }

  /** sort.Strings: the sorted permutation, the same for every input order. */
  lemma SortStrings(s: seq<string>, t: seq<string>)
    requires multiset(s) == multiset(t)
    ensures Sorted(AtMost, Sort(AtMost, s))
    ensures multiset(Sort(AtMost, s)) == multiset(s)
    ensures Sort(AtMost, s) == Sort(AtMost, t)
  {
    AtMostIsTotalOrder();
    SortSorted(AtMost, s);
    SortSorted(AtMost, t);
    var a := Sort(AtMost, s);
    forall i, j | 0 <= i < |a| && 0 <= j < |a| && AtMost(a[i], a[j]) && AtMost(a[j], a[i]) ensures a[i] == a[j] {
      AtMostTotal(a[i], a[j]);
    }
    UniqueSortedPermutation(AtMost, a, Sort(AtMost, t));
  }

  // ----- No element twice -----

  ghost predicate Distinct<T>(s: seq<T>) {
    forall i, j | 0 <= i < j < |s| :: s[i] != s[j]
  }

  lemma DistinctPermutation<T>(a: seq<T>, b: seq<T>)
    requires multiset(a) == multiset(b) && Distinct(a)
    ensures Distinct(b)
  {
    forall i, j | 0 <= i < j < |b| ensures b[i] != b[j] {
      if b[i] == b[j] {
        assert b == b[..i] + [b[i]] + b[i + 1..j] + [b[j]] + b[j + 1..];
        assert multiset(a)[b[i]] >= 2;
        DistinctCount(a, b[i]);
      }
    }
  }

  lemma {:induction false} DistinctCount<T>(s: seq<T>, x: T)
    requires Distinct(s)
    ensures multiset(s)[x] == if x in s then 1 else 0
  {
    if |s| > 0 {
      assert s == [s[0]] + s[1..];
      DistinctCount(s[1..], x);
      assert forall k | 0 <= k < |s[1..]| :: s[1..][k] == s[k + 1] != s[0];
    }
  }

  /** In a sorted list without repetitions an element's place is the number of elements before it in the dictionary. */
  lemma PlaceInSorted(s: seq<string>, i: nat)
    requires Sorted(AtMost, s) && Distinct(s) && i < |s|
    ensures |set x | x in s && Precedes(x, s[i])| == i
  {
    forall k | 0 <= k < |s| ensures Precedes(s[k], s[i]) <==> k < i {
      AtMostIsDictionaryOrder(s[k], s[i]);
      AtMostTotal(s[k], s[i]);
      NotBeforeItself(s[i]);
    }
    DistinctSize(s[..i], set x | x in s && Precedes(x, s[i]));
  }

  lemma NotBeforeItself(a: string)
    ensures !Precedes(a, a)
  {
  }

  lemma {:induction false} DistinctSize<T(!new)>(s: seq<T>, members: set<T>)
    requires Distinct(s) && forall x :: x in members <==> x in s
    ensures |members| == |s|
  {
    if |s| > 0 {
      var n := |s| - 1;
      DistinctSize(s[..n], members - {s[n]});
    } else {
      assert members == {};
    }
  }
}
