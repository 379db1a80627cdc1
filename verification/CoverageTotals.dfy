/**
  Grouped totals of usage rows, as the pricing coverage checks build them: a
  map from a grouping key to int64 sums that wrap around. Sum is the exact
  total of one metric; everything a check compares is a function of it.
 */
module CoverageTotals {

  /** A row of either table: its grouping key, its pricing band if any, its metrics in the order they are listed. */
  datatype Row<K> = Row(key: K, band: string, values: seq<int>, firstSeen: int, lastSeen: int)

  const TWO_64: int := 0x1_0000_0000_0000_0000
  const TWO_63: int := 0x8000_0000_0000_0000

  /** int64 arithmetic. */
  function Wrap(x: int): int {
    (x + TWO_63) % TWO_64 - TWO_63
  }

  predicate Int64(x: int) {
    -TWO_63 <= x < TWO_63
  }

  lemma WrapFacts(x: int, y: int)
    ensures Int64(Wrap(x)) && (Int64(x) ==> Wrap(x) == x)
    ensures Wrap(Wrap(x) + y) == Wrap(x + y) && Wrap(Wrap(x) - y) == Wrap(x - y)
    ensures Wrap(x) == Wrap(y) <==> Wrap(x - y) == 0
  {
    var k := (x + TWO_63) / TWO_64;
    assert Wrap(x) == x - k * TWO_64;
    WrapMultiple(x + y, k);
    WrapMultiple(x - y, k);
    var j := (y + TWO_63) / TWO_64;
    assert Wrap(y) == y - j * TWO_64;
    if Wrap(x) == Wrap(y) {
      assert x - y == (k - j) * TWO_64;
      WrapMultiple(x - y, k - j);
    }
    if Wrap(x - y) == 0 {
      var i := (x - y + TWO_63) / TWO_64;
      assert x - y == i * TWO_64;
      WrapMultiple(x, i);
    }
  }

  lemma WrapMultiple(x: int, k: int)
    ensures Wrap(x - k * TWO_64) == Wrap(x)
  {
    var a := x + TWO_63;
    var q, r := a / TWO_64, a % TWO_64;
    assert a == q * TWO_64 + r;
    assert a - k * TWO_64 == (q - k) * TWO_64 + r;
    Remainder(a - k * TWO_64, q - k, r);
  }

  lemma Remainder(a: int, q: int, r: int)
    requires a == q * TWO_64 + r && 0 <= r < TWO_64
    ensures a % TWO_64 == r
  {
    var p := a / TWO_64 - q;
    assert p * TWO_64 == r - a % TWO_64;
    assert -TWO_64 < p * TWO_64 < TWO_64;
    assert -1 < p < 1;
  }

  ghost predicate Wide<K>(rows: seq<Row<K>>, n: nat) {
    forall i | 0 <= i < |rows| :: |rows[i].values| == n
  }

  predicate Present<K(==)>(rows: seq<Row<K>>, key: K) {
    exists i :: 0 <= i < |rows| && rows[i].key == key
  }

  /** The exact total of one metric over the rows of a key. */
  ghost function Sum<K>(rows: seq<Row<K>>, key: K, i: nat): int {
    if |rows| == 0 then 0
    else
      var last := rows[|rows| - 1];
      Sum(rows[..|rows| - 1], key, i) + (if last.key == key && i < |last.values| then last.values[i] else 0)
  }

  // ----- Sums do not depend on order, nor on how rows are split -----

  lemma {:induction false} SumConcat<K>(a: seq<Row<K>>, b: seq<Row<K>>, key: K, i: nat)
    ensures Sum(a + b, key, i) == Sum(a, key, i) + Sum(b, key, i)
  {
    if |b| == 0 {
      assert a + b == a;
    } else {
      var n := |b| - 1;
      assert (a + b)[..|a| + n] == a + b[..n] && (a + b)[|a| + n] == b[n];
      SumConcat(a, b[..n], key, i);
    }
  }

  lemma SumOne<K>(r: Row<K>, key: K, i: nat)
    ensures Sum([r], key, i) == if r.key == key && i < |r.values| then r.values[i] else 0
  {
    assert [r][..0] == [] && [r][0] == r;
    assert Sum([r][..0], key, i) == 0;
  }

  function Share<K(==)>(r: Row<K>, key: K, i: nat): int {
    if r.key == key && i < |r.values| then r.values[i] else 0
  }

  lemma SumWithout<K>(rows: seq<Row<K>>, k: nat, key: K, i: nat)
    requires k < |rows|
    ensures Sum(rows, key, i) == Sum(rows[..k] + rows[k + 1..], key, i) + Share(rows[k], key, i)
  {
    assert rows == rows[..k] + [rows[k]] + rows[k + 1..];
    SumConcat(rows[..k] + [rows[k]], rows[k + 1..], key, i);
    SumConcat(rows[..k], [rows[k]], key, i);
    SumConcat(rows[..k], rows[k + 1..], key, i);
    SumOne(rows[k], key, i);
  }

  lemma MultisetWithout<T>(s: seq<T>, k: nat)
    requires k < |s|
    ensures multiset(s[..k] + s[k + 1..]) == multiset(s) - multiset{s[k]}
  {
    assert s == s[..k] + [s[k]] + s[k + 1..];
  }

  lemma {:induction false} SumPermuted<K>(a: seq<Row<K>>, b: seq<Row<K>>, key: K, i: nat)
    requires multiset(a) == multiset(b)
    ensures Sum(a, key, i) == Sum(b, key, i)
    decreases |a|
  {
    hide Sum, Share;
    if |a| > 0 {
      var k := FindFirst(a, b);
      SumPermuted(a[..0] + a[1..], b[..k] + b[k + 1..], key, i);
      SumWithout(a, 0, key, i);
      SumWithout(b, k, key, i);
    } else {
      assert |multiset(b)| == |multiset(a)| == 0;
    }
  }

  /** The first of a is somewhere in a permutation of a, and taking both away leaves permutations. */
  lemma FindFirst<T>(a: seq<T>, b: seq<T>) returns (k: nat)
    requires multiset(a) == multiset(b) && |a| > 0
    ensures k < |b| && b[k] == a[0] && multiset(a[..0] + a[1..]) == multiset(b[..k] + b[k + 1..])
  {
    assert a[0] in multiset(b);
    k :| 0 <= k < |b| && b[k] == a[0];
    MultisetWithout(a, 0);
    MultisetWithout(b, k);
  }

  /** Splitting a row into bands of the same key, metric by metric, changes no total. */
  lemma SumSplit<K>(rows: seq<Row<K>>, k: nat, x: Row<K>, y: Row<K>, key: K, i: nat)
    requires k < |rows| && x.key == rows[k].key && y.key == rows[k].key
    requires |x.values| == |rows[k].values| && |y.values| == |rows[k].values|
    requires i < |x.values| ==> x.values[i] + y.values[i] == rows[k].values[i]
    ensures Sum(rows[..k] + [x, y] + rows[k + 1..], key, i) == Sum(rows, key, i)
  {
    assert rows == rows[..k] + [rows[k]] + rows[k + 1..];
    SumConcat(rows[..k] + [rows[k]], rows[k + 1..], key, i);
    SumConcat(rows[..k], [rows[k]], key, i);
    SumOne(rows[k], key, i);
    SumConcat(rows[..k] + [x, y], rows[k + 1..], key, i);
    SumConcat(rows[..k], [x, y], key, i);
    assert [x, y] == [x] + [y];
    SumConcat([x], [y], key, i);
    SumOne(x, key, i);
    SumOne(y, key, i);
  }

  lemma PresentPermuted<K>(a: seq<Row<K>>, b: seq<Row<K>>, key: K)
    requires multiset(a) == multiset(b)
    ensures Present(a, key) ==> Present(b, key)
  {
    if Present(a, key) {
      var i :| 0 <= i < |a| && a[i].key == key;
      assert a[i] in multiset(b);
      var k :| 0 <= k < |b| && b[k] == a[i];
      assert b[k].key == key;
    }
  }

  // ----- Vectors -----

  function Zeros(n: nat): (r: seq<int>)
    ensures |r| == n
  {
    seq(n, _ => 0)
  }

  function Plus(totals: seq<int>, values: seq<int>): (r: seq<int>)
    requires |totals| == |values|
    ensures |r| == |totals|
  {
    seq(|totals|, i requires 0 <= i < |totals| => Wrap(totals[i] + values[i]))
  }

  function Minus(totals: seq<int>, values: seq<int>): (r: seq<int>)
    requires |totals| == |values|
    ensures |r| == |totals|
  {
    seq(|totals|, i requires 0 <= i < |totals| => Wrap(totals[i] - values[i]))
  }

  /** The loop that adds each value to its total. */
  method AddValues(totals: seq<int>, values: seq<int>) returns (r: seq<int>)
    requires |totals| == |values|
    ensures r == Plus(totals, values)
  {
    r := totals;
    for i := 0 to |values|
      invariant |r| == |totals|
      invariant forall j | 0 <= j < i :: r[j] == Wrap(totals[j] + values[j])
      invariant forall j | i <= j < |r| :: r[j] == totals[j]
    {
      r := r[i := Wrap(r[i] + values[i])];
    }
  }

  method SubtractValues(totals: seq<int>, values: seq<int>) returns (r: seq<int>)
    requires |totals| == |values|
    ensures r == Minus(totals, values)
  {
    r := totals;
    for i := 0 to |values|
      invariant |r| == |totals|
      invariant forall j | 0 <= j < i :: r[j] == Wrap(totals[j] - values[j])
      invariant forall j | i <= j < |r| :: r[j] == totals[j]
    {
      r := r[i := Wrap(r[i] - values[i])];
    }
  }

  /** The wrapped totals of a key. */
  ghost function Totals<K>(rows: seq<Row<K>>, key: K, n: nat): (r: seq<int>)
    ensures |r| == n
  {
    seq(n, i requires 0 <= i < n => Wrap(Sum(rows, key, i)))
  }

  lemma TotalsNext<K>(rows: seq<Row<K>>, row: Row<K>, key: K, n: nat)
    requires |row.values| == n
    ensures Totals(rows + [row], key, n)
      == if row.key == key then Plus(Totals(rows, key, n), row.values) else Totals(rows, key, n)
  {
    forall i | 0 <= i < n
      ensures Totals(rows + [row], key, n)[i] == Wrap(Sum(rows, key, i) + if row.key == key then row.values[i] else 0)
    {
      SumConcat(rows, [row], key, i);
      SumOne(row, key, i);
    }
    forall i | 0 <= i < n ensures Wrap(Wrap(Sum(rows, key, i)) + row.values[i]) == Wrap(Sum(rows, key, i) + row.values[i]) {
      WrapFacts(Sum(rows, key, i), row.values[i]);
    }
  }

  lemma TotalsAbsent<K>(rows: seq<Row<K>>, key: K, n: nat)
    requires !Present(rows, key)
    ensures Totals(rows, key, n) == Zeros(n)
  {
    forall i | 0 <= i < n ensures Sum(rows, key, i) == 0 { SumAbsent(rows, key, i); }
  }

  lemma {:induction false} SumAbsent<K>(rows: seq<Row<K>>, key: K, i: nat)
    requires !Present(rows, key)
    ensures Sum(rows, key, i) == 0
  {
    if |rows| > 0 {
      assert rows[|rows| - 1].key != key;
      assert forall k | 0 <= k < |rows| - 1 :: rows[..|rows| - 1][k] == rows[k];
      SumAbsent(rows[..|rows| - 1], key, i);
    }
  }
}
