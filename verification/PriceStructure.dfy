/**
  The bytes whose hash is the structure revision of a price book: for every
  model, in order of its identifier, the identifier and the thresholds of its
  context tiers, each with its length or as eight bytes. SHA-256 is not part of
  this model: the revision is as good as the bytes.
 */
module PriceStructure {
  import opened Ordering
  import ModelPriceRules

  datatype Option<T> = None | Some(value: T)

  type Book = map<string, ModelPriceRules.Price>

  const VERSION: string := "context-v1"
  const TWO_64: int := 0x1_0000_0000_0000_0000
  const TWO_63: int := 0x8000_0000_0000_0000

  // ----- Eight bytes, most significant first -----

  function Bytes(x: nat, n: nat): (r: string)
    ensures |r| == n
  {
    if n == 0 then "" else Bytes(x / 256, n - 1) + [(x % 256) as char]
  }

  function Number(s: string): nat {
    if s == "" then 0 else 256 * Number(s[..|s| - 1]) + s[|s| - 1] as nat
  }

  function Limit(n: nat): nat {
    if n == 0 then 1 else 256 * Limit(n - 1)
  }

  lemma {:induction false} NumberBytes(x: nat, n: nat)
    requires x < Limit(n)
    ensures Number(Bytes(x, n)) == x
  {
    if n > 0 {
      NumberBytes(x / 256, n - 1);
      var s := Bytes(x, n);
      assert s[..n - 1] == Bytes(x / 256, n - 1);
    }
  }

  lemma EightBytes()
    ensures Limit(8) == TWO_64
  {
    assert Limit(2) == 0x1_0000;
    assert Limit(4) == 0x1_0000_0000;
    assert Limit(6) == 0x1_0000_0000_0000;
  }

  /** uint64 of an int64. */
  function Unsigned(x: int): nat
    requires -TWO_63 <= x < TWO_63
  {
    if x < 0 then x + TWO_64 else x
  }

  function Signed(x: nat): int {
    if x < TWO_63 then x else x - TWO_64
  }

  function Word(x: int): (r: string)
    requires -TWO_63 <= x < TWO_63
    ensures |r| == 8
  {
    Bytes(Unsigned(x), 8)
  }

  lemma WordReads(x: int, more: string)
    requires -TWO_63 <= x < TWO_63
    ensures Signed(Number((Word(x) + more)[..8])) == x && (Word(x) + more)[8..] == more
  {
    hide Bytes, Number, Limit;
    EightBytes();
    NumberBytes(Unsigned(x), 8);
    assert (Word(x) + more)[..8] == Word(x);
  }

  // ----- Entries -----

  datatype Entry = Entry(id: string, thresholds: seq<int>)

  ghost predicate Sized(e: Entry) {
    |e.id| < TWO_63 && |e.thresholds| < TWO_63 && forall i | 0 <= i < |e.thresholds| :: -TWO_63 <= e.thresholds[i] < TWO_63
  }

  ghost function Words(xs: seq<int>): string
    requires forall i | 0 <= i < |xs| :: -TWO_63 <= xs[i] < TWO_63
  {
    if |xs| == 0 then "" else Word(xs[0]) + Words(xs[1..])
  }

  ghost function EncodeEntry(e: Entry): string
    requires Sized(e)
  {
    Word(|e.id|) + (e.id + (Word(|e.thresholds|) + Words(e.thresholds)))
  }

  ghost function EncodeEntries(es: seq<Entry>): string
    requires forall i | 0 <= i < |es| :: Sized(es[i])
  {
    if |es| == 0 then "" else EncodeEntry(es[0]) + EncodeEntries(es[1..])
  }

  // ----- Reading them back -----

  /** So many numbers, and what follows them. */
  function ReadWords(s: string, n: nat): Option<(seq<int>, string)> {
    if n == 0 then Some(([], s))
    else if |s| < 8 then None
    else
      match ReadWords(s[8..], n - 1)
      case None => None
      case Some((xs, rest)) => Some(([Signed(Number(s[..8]))] + xs, rest))
  }

  function ReadEntry(s: string): Option<(Entry, string)> {
    if |s| < 8 then None
    else
      var length := Signed(Number(s[..8]));
      var body := s[8..];
      if length < 0 || |body| < length + 8 then None
      else
        var count := Signed(Number(body[length..][..8]));
        if count < 0 then None
        else
          match ReadWords(body[length..][8..], count)
          case None => None
          case Some((xs, rest)) => Some((Entry(body[..length], xs), rest))
  }

  lemma {:induction false} WordsRead(xs: seq<int>, more: string)
    requires forall i | 0 <= i < |xs| :: -TWO_63 <= xs[i] < TWO_63
    ensures ReadWords(Words(xs) + more, |xs|) == Some((xs, more))
  {
    hide Word, Number, Signed;
    if |xs| == 0 {
      assert Words(xs) + more == more;
    } else {
      var rest := Words(xs[1..]) + more;
      assert Words(xs) + more == Word(xs[0]) + rest;
      WordReads(xs[0], rest);
      WordsRead(xs[1..], more);
      assert xs == [xs[0]] + xs[1..];
    }
  }

  lemma EntryReads(e: Entry, more: string)
    requires Sized(e)
    ensures ReadEntry(EncodeEntry(e) + more) == Some((e, more))
  {
    hide Word, Number, Signed, Words, ReadWords;
    var tail := Words(e.thresholds) + more;
    var body := e.id + (Word(|e.thresholds|) + tail);
    assert EncodeEntry(e) + more == Word(|e.id|) + body by { EntryText(Word(|e.id|), e.id, Word(|e.thresholds|), Words(e.thresholds), more); }
    WordReads(|e.id|, body);
    assert body[|e.id|..] == Word(|e.thresholds|) + tail && body[..|e.id|] == e.id;
    WordReads(|e.thresholds|, tail);
    WordsRead(e.thresholds, more);
  }

  lemma EntryText(a: string, b: string, c: string, d: string, more: string)
    ensures (a + (b + (c + d))) + more == a + (b + (c + (d + more)))
  {
    assert (c + d) + more == c + (d + more);
    assert (b + (c + d)) + more == b + ((c + d) + more);
    assert (a + (b + (c + d))) + more == a + ((b + (c + d)) + more);
  }

  /** The encoding is injective: the bytes determine the entries. */
  lemma {:induction false} EntriesDetermined(a: seq<Entry>, b: seq<Entry>)
    requires forall i | 0 <= i < |a| :: Sized(a[i])
    requires forall i | 0 <= i < |b| :: Sized(b[i])
    requires EncodeEntries(a) == EncodeEntries(b)
    ensures a == b
  {
    hide EncodeEntry, ReadEntry, Sized;
    if |a| == 0 || |b| == 0 {
      if |a| > 0 { EntryNotEmpty(a[0]); }
      if |b| > 0 { EntryNotEmpty(b[0]); }
    } else {
      EntryReads(a[0], EncodeEntries(a[1..]));
      EntryReads(b[0], EncodeEntries(b[1..]));
      EntriesDetermined(a[1..], b[1..]);
      assert a == [a[0]] + a[1..] && b == [b[0]] + b[1..];
    }
  }

  lemma EntryNotEmpty(e: Entry)
    requires Sized(e)
    ensures |EncodeEntry(e)| > 0
  {
    hide Words;
  }

  // ----- The book -----

  predicate AtMostInt(a: int, b: int) {
    a <= b
  }

  function Thresholds(tiers: seq<ModelPriceRules.Tier>): (r: seq<int>)
    ensures |r| == |tiers|
  {
    seq(|tiers|, i requires 0 <= i < |tiers| => tiers[i].threshold)
  }

  /** What the revision sees of a price: its thresholds, in order. */
  function Shape(price: ModelPriceRules.Price): (r: seq<int>)
    ensures |r| == |price.tiers|
  {
    Sort(AtMostInt, Thresholds(price.tiers))
  }

  ghost predicate Storable(book: Book) {
    && (forall id | id in book :: |id| < TWO_63 && |book[id].tiers| < TWO_63)
    && forall id, i | id in book && 0 <= i < |book[id].tiers| :: -TWO_63 <= book[id].tiers[i].threshold < TWO_63
  }

  /** The identifiers of the book, each once, in some order. */
  ghost predicate Enumerates(ids: seq<string>, book: Book) {
    (forall id :: id in ids <==> id in book) && Distinct(ids)
  }

  function Entries(ids: seq<string>, book: Book): (r: seq<Entry>)
    requires forall i | 0 <= i < |ids| :: ids[i] in book
    ensures |r| == |ids|
  {
    seq(|ids|, i requires 0 <= i < |ids| => Entry(ids[i], Shape(book[ids[i]])))
  }

  lemma ShapeInRange(book: Book, id: string)
    requires Storable(book) && id in book
    ensures Sized(Entry(id, Shape(book[id])))
  {
    var shape, given := Shape(book[id]), Thresholds(book[id].tiers);
    forall i | 0 <= i < |shape| ensures -TWO_63 <= shape[i] < TWO_63 {
      assert shape[i] in multiset(given);
      var k :| 0 <= k < |given| && given[k] == shape[i];
      assert book[id].tiers[k].threshold == given[k];
    }
  }

  lemma {:induction false} SameEnumeration(a: seq<string>, b: seq<string>, book: Book)
    requires Enumerates(a, book) && Enumerates(b, book)
    ensures multiset(a) == multiset(b)
  {
    forall id ensures multiset(a)[id] == multiset(b)[id] {
      DistinctCount(a, id);
      DistinctCount(b, id);
    }
  }

  /** The identifiers in order, which no enumeration changes. */
  lemma SortedIds(ids: seq<string>, book: Book)
    requires Enumerates(ids, book)
    ensures Enumerates(Sort(AtMost, ids), book)
  {
    var sorted := Sort(AtMost, ids);
    forall id ensures id in sorted <==> id in book {
      assert id in multiset(sorted) <==> id in multiset(ids);
    }
    DistinctPermutation(ids, sorted);
  }

  /** What is written after the version, from one enumeration of the identifiers. */
  ghost function StreamOf(ids: seq<string>, book: Book): string
    requires Enumerates(ids, book) && Storable(book)
  {
    SortedIds(ids, book);
    var sorted := Sort(AtMost, ids);
    assert forall i | 0 <= i < |sorted| :: sorted[i] in sorted;
    forall i ensures 0 <= i < |sorted| ==> Sized(Entries(sorted, book)[i]) {
      if 0 <= i < |sorted| { ShapeInRange(book, sorted[i]); }
    }
    EncodeEntries(Entries(sorted, book))
  }

  lemma StreamIsOne(a: seq<string>, b: seq<string>, book: Book)
    requires Enumerates(a, book) && Enumerates(b, book) && Storable(book)
    ensures StreamOf(a, book) == StreamOf(b, book)
  {
    hide Sort, EncodeEntries, AtMost, Enumerates;
    SameEnumeration(a, b, book);
    SortStrings(a, b);
  }

  lemma ShapesAgree(p: ModelPriceRules.Price, q: ModelPriceRules.Price)
    ensures Shape(p) == Shape(q) <==> multiset(Thresholds(p.tiers)) == multiset(Thresholds(q.tiers))
  {
    hide Sort, Thresholds;
    var a, b := Thresholds(p.tiers), Thresholds(q.tiers);
    if multiset(a) == multiset(b) {
      SortSorted(AtMostInt, a);
      SortSorted(AtMostInt, b);
      UniqueSortedPermutation(AtMostInt, Sort(AtMostInt, a), Sort(AtMostInt, b));
    }
  }

  /** The same models, and for every model the same thresholds. */
  ghost predicate SameStructure(a: Book, b: Book) {
    && (forall id :: id in a <==> id in b)
    && forall id | id in a && id in b :: multiset(Thresholds(a[id].tiers)) == multiset(Thresholds(b[id].tiers))
  }

  /** Two price books give the same bytes exactly when they have the same models with the same thresholds. */
  lemma StreamsTellStructure(a: Book, b: Book, ids: seq<string>, others: seq<string>)
    requires Storable(a) && Storable(b) && Enumerates(ids, a) && Enumerates(others, b)
    ensures StreamOf(ids, a) == StreamOf(others, b) <==> SameStructure(a, b)
  {
    hide Sort, EncodeEntries, AtMost, Shape, Thresholds;
    if SameStructure(a, b) {
      SameStructureSameStream(a, b, ids, others);
    }
    if StreamOf(ids, a) == StreamOf(others, b) {
      SameStreamSameStructure(a, b, ids, others);
    }
  }

  lemma SameStructureSameStream(a: Book, b: Book, ids: seq<string>, others: seq<string>)
    requires Storable(a) && Storable(b) && Enumerates(ids, a) && Enumerates(others, b) && SameStructure(a, b)
    ensures StreamOf(ids, a) == StreamOf(others, b)
  {
    hide Sort, EncodeEntries, AtMost, Shape, Thresholds;
    assert Enumerates(others, a);
    StreamIsOne(ids, others, a);
    SortedIds(others, a);
    var sorted := Sort(AtMost, others);
    forall i | 0 <= i < |sorted| ensures sorted[i] in a && sorted[i] in b && Shape(a[sorted[i]]) == Shape(b[sorted[i]]) {
      assert sorted[i] in sorted;
      ShapesAgree(a[sorted[i]], b[sorted[i]]);
    }
    assert Entries(sorted, a) == Entries(sorted, b);
  }

  lemma SameStreamSameStructure(a: Book, b: Book, ids: seq<string>, others: seq<string>)
    requires Storable(a) && Storable(b) && Enumerates(ids, a) && Enumerates(others, b)
    requires StreamOf(ids, a) == StreamOf(others, b)
    ensures SameStructure(a, b)
  {
    hide Sort, EncodeEntries, AtMost, Shape, Thresholds, Sized, Entries, Storable;
    SortedIds(ids, a);
    SortedIds(others, b);
    var x, y := Sort(AtMost, ids), Sort(AtMost, others);
    AllSized(x, a);
    AllSized(y, b);
    EntriesDetermined(Entries(x, a), Entries(y, b));
    EntriesAgree(x, y, a, b);
    forall id | id in a && id in b ensures multiset(Thresholds(a[id].tiers)) == multiset(Thresholds(b[id].tiers)) {
      var i :| 0 <= i < |x| && x[i] == id;
      ShapesAgree(a[id], b[id]);
    }
  }

  lemma EntriesAgree(x: seq<string>, y: seq<string>, a: Book, b: Book)
    requires forall i | 0 <= i < |x| :: x[i] in a
    requires forall i | 0 <= i < |y| :: y[i] in b
    requires Entries(x, a) == Entries(y, b)
    ensures x == y && forall i | 0 <= i < |x| :: x[i] in a && x[i] in b && Shape(a[x[i]]) == Shape(b[x[i]])
  {
    hide Shape;
    assert |x| == |y|;
    forall i | 0 <= i < |x| ensures x[i] == y[i] && Shape(a[x[i]]) == Shape(b[y[i]]) {
      assert Entries(x, a)[i] == Entries(y, b)[i];
    }
  }

  lemma AllSized(ids: seq<string>, book: Book)
    requires Enumerates(ids, book) && Storable(book)
    ensures forall i | 0 <= i < |ids| :: ids[i] in book && Sized(Entries(ids, book)[i])
  {
    hide Shape, Sized;
    forall i | 0 <= i < |ids| ensures ids[i] in book && Sized(Entries(ids, book)[i]) {
      assert ids[i] in ids;
      ShapeInRange(book, ids[i]);
    }
  }

  // ----- ModelPriceStructureRevision -----

  lemma {:induction false} WordsNext(xs: seq<int>, x: int)
    requires forall i | 0 <= i < |xs + [x]| :: -TWO_63 <= (xs + [x])[i] < TWO_63
    requires forall i | 0 <= i < |xs| :: -TWO_63 <= xs[i] < TWO_63
    requires -TWO_63 <= x < TWO_63
    ensures Words(xs + [x]) == Words(xs) + Word(x)
  {
    hide Word;
    if |xs| > 0 {
      assert (xs + [x])[1..] == xs[1..] + [x];
      WordsNext(xs[1..], x);
    } else {
      assert [x][1..] == [];
    }
  }

  lemma {:induction false} EntriesNext(es: seq<Entry>, e: Entry)
    requires forall i | 0 <= i < |es| :: Sized(es[i])
    requires Sized(e) && forall i | 0 <= i < |es + [e]| :: Sized((es + [e])[i])
    ensures EncodeEntries(es + [e]) == EncodeEntries(es) + EncodeEntry(e)
  {
    hide EncodeEntry, Sized;
    if |es| > 0 {
      assert (es + [e])[1..] == es[1..] + [e];
      EntriesNext(es[1..], e);
    } else {
      assert [e][1..] == [];
    }
  }

  method WriteEntry(stream: string, id: string, price: ModelPriceRules.Price) returns (r: string)
    requires Sized(Entry(id, Shape(price)))
    ensures r == stream + EncodeEntry(Entry(id, Shape(price)))
  {
    hide Word, Shape, Words;
    var tiers := Shape(price);
    r := stream + Word(|id|);
    r := r + id;
    r := r + Word(|tiers|);
    ghost var header := r;
    NoEntries();
    assert tiers[..0] == [];
    for i := 0 to |tiers|
      invariant r == header + Words(tiers[..i])
    {
      assert tiers[..i + 1] == tiers[..i] + [tiers[i]];
      WordsNext(tiers[..i], tiers[i]);
      r := r + Word(tiers[i]);
    }
    assert tiers[..|tiers|] == tiers;
    EntryText(Word(|id|), id, Word(|tiers|), Words(tiers), "");
    assert stream + Word(|id|) + id + Word(|tiers|) + Words(tiers) == stream + (Word(|id|) + (id + (Word(|tiers|) + Words(tiers)))) by {
      Regroup(stream, Word(|id|), id, Word(|tiers|), Words(tiers));
    }
  }

  lemma Regroup(a: string, b: string, c: string, d: string, e: string)
    ensures a + b + c + d + e == a + (b + (c + (d + e)))
  {
    assert (a + b + c + d) + e == (a + b + c) + (d + e);
    assert (a + b + c) + (d + e) == (a + b) + (c + (d + e));
    assert (a + b) + (c + (d + e)) == a + (b + (c + (d + e)));
  }

  method ListIds(book: Book) returns (ids: seq<string>)
    ensures Enumerates(ids, book)
  {
    ids := [];
    var left := book.Keys;
    while left != {}
      invariant left <= book.Keys
      invariant forall id :: id in ids <==> id in book && id !in left
      invariant forall i, j | 0 <= i < j < |ids| :: ids[i] != ids[j]
    {
      var id :| id in left;
      assert id !in ids;
      ids := ids + [id];
      left := left - {id};
    }
  }

  /** The bytes that are hashed, whichever order the map is ranged over. */
  method StructureBytes(book: Book) returns (stream: string)
    requires Storable(book)
    ensures forall ids | Enumerates(ids, book) :: stream == VERSION + StreamOf(ids, book)
  {
    hide Sort, AtMost, Shape, Enumerates;
    var listed := ListIds(book);
    var ids := Sort(AtMost, listed);
    SortedIds(listed, book);
    AllSized(ids, book);
    stream := WriteEntries(ids, book);
    forall others | Enumerates(others, book) ensures stream == VERSION + StreamOf(others, book) {
      StreamIsOne(listed, others, book);
    }
  }

  method WriteEntries(ids: seq<string>, book: Book) returns (stream: string)
    requires forall i | 0 <= i < |ids| :: ids[i] in book
    requires forall i | 0 <= i < |ids| :: Sized(Entries(ids, book)[i])
    ensures stream == VERSION + EncodeEntries(Entries(ids, book))
  {
    hide Sized, EncodeEntry, Shape, EncodeEntries;
    ghost var entries := Entries(ids, book);
    stream := VERSION;
    NoEntries();
    for n := 0 to |ids|
      invariant stream == VERSION + EncodeEntries(entries[..n])
    {
      assert ids[n] in book && entries[n] == Entry(ids[n], Shape(book[ids[n]]));
      assert entries[..n + 1] == entries[..n] + [entries[n]];
      EntriesNext(entries[..n], entries[n]);
      stream := WriteEntry(stream, ids[n], book[ids[n]]);
    }
    assert entries[..|ids|] == entries;
  }

  lemma NoEntries()
    ensures EncodeEntries([]) == "" && Words([]) == ""
  {
  }
}
