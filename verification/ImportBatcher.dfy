/**
  The batcher between the usage importers and the store. It hands events to a
  consumer in batches bounded both by count and by an estimate of the memory
  the batch retains. A batch the consumer has taken stays committed whatever
  happens later, so the state to reason about is the list of committed batches
  plus the batch under construction.
 */
module ImportBatcher {

  const MAX_RETAINED_BYTES := 32 * 1024 * 1024
  const DEFAULT_BATCH_SIZE := 256

  function Flatten<E>(batches: seq<seq<E>>): seq<E> {
    if |batches| == 0 then [] else Flatten(batches[..|batches| - 1]) + batches[|batches| - 1]
  }

  function Retained<E>(size: E -> nat, batch: seq<E>): nat {
    if |batch| == 0 then 0 else Retained(size, batch[..|batch| - 1]) + size(batch[|batch| - 1])
  }

  /** The contract of one committed batch: a single oversize event is the only way over the byte bound. */
  ghost predicate Bounded<E>(size: E -> nat, batchSize: nat, batch: seq<E>) {
    && 0 < |batch| <= batchSize
    && (Retained(size, batch) <= MAX_RETAINED_BYTES || |batch| == 1)
  }

  /** The batch reached one of its two bounds. */
  ghost predicate Filled<E>(size: E -> nat, batchSize: nat, batch: seq<E>) {
    |batch| == batchSize || Retained(size, batch) >= MAX_RETAINED_BYTES
  }

  /** The batch was committed for a reason: it is filled, or the next event does not fit. */
  ghost predicate ClosedBefore<E>(size: E -> nat, batchSize: nat, batch: seq<E>, next: E) {
    Filled(size, batchSize, batch) || Retained(size, batch) + size(next) > MAX_RETAINED_BYTES
  }

  /** No committed batch could have taken the event after it. */
  ghost predicate GreedyCut<E>(size: E -> nat, batchSize: nat, batches: seq<seq<E>>) {
    forall i, j | 0 <= i && i + 1 == j < |batches| ::
      |batches[j]| > 0 && ClosedBefore(size, batchSize, batches[i], batches[j][0])
  }

  /** GreedyCut for the committed batches followed by the open one. */
  ghost predicate GreedyState<E>(size: E -> nat, batchSize: nat, committed: seq<seq<E>>, batch: seq<E>) {
    && GreedyCut(size, batchSize, if |batch| > 0 then committed + [batch] else committed)
    && (|batch| == 0 && |committed| > 0 ==> Filled(size, batchSize, committed[|committed| - 1]))
  }

  /** A batch the event does not fit in is closed. */
  function MakeRoomFor<E>(size: E -> nat, committed: seq<seq<E>>, batch: seq<E>, event: E): (seq<seq<E>>, seq<E>) {
    if |batch| == 0 || Retained(size, batch) + size(event) <= MAX_RETAINED_BYTES then (committed, batch) else (committed + [batch], [])
  }

  /** A batch that reached one of its bounds is closed. */
  function CloseFull<E>(size: E -> nat, batchSize: nat, committed: seq<seq<E>>, batch: seq<E>): (seq<seq<E>>, seq<E>) {
    if |batch| < batchSize && Retained(size, batch) < MAX_RETAINED_BYTES then (committed, batch) else (committed + [batch], [])
  }

  /** The committed batches and the open batch after adding one event, when the consumer succeeds. */
  function AddTo<E>(size: E -> nat, batchSize: nat, committed: seq<seq<E>>, batch: seq<E>, event: E): (seq<seq<E>>, seq<E>) {
    var (closed, open) := MakeRoomFor(size, committed, batch, event);
    CloseFull(size, batchSize, closed, open + [event])
  }

  /** The last batch may grow: only its first event and the batches before it matter. */
  lemma GrowLast<E>(size: E -> nat, batchSize: nat, closed: seq<seq<E>>, batch: seq<E>, event: E)
    requires |batch| > 0 && GreedyCut(size, batchSize, closed + [batch])
    ensures GreedyCut(size, batchSize, closed + [batch + [event]])
  {
    hide ClosedBefore;
    var before, after := closed + [batch], closed + [batch + [event]];
    forall i, j | 0 <= i && i + 1 == j < |after|
      ensures |after[j]| > 0 && ClosedBefore(size, batchSize, after[i], after[j][0])
    {
      assert before[i] == after[i] && before[j][0] == after[j][0];
    }
  }

  /** A new batch may be opened when the last one could not take the event. */
  lemma OpenNext<E>(size: E -> nat, batchSize: nat, closed: seq<seq<E>>, event: E)
    requires GreedyCut(size, batchSize, closed)
    requires |closed| > 0 ==> ClosedBefore(size, batchSize, closed[|closed| - 1], event)
    ensures GreedyCut(size, batchSize, closed + [[event]])
  {
    hide ClosedBefore;
    var after := closed + [[event]];
    forall i, j | 0 <= i && i + 1 == j < |after|
      ensures |after[j]| > 0 && ClosedBefore(size, batchSize, after[i], after[j][0])
    {
      if j < |closed| {
        assert after[i] == closed[i] && after[j] == closed[j];
      }
    }
  }

  lemma AddKeepsGreedy<E>(size: E -> nat, batchSize: nat, committed: seq<seq<E>>, batch: seq<E>, event: E)
    requires GreedyState(size, batchSize, committed, batch) && |batch| < batchSize
    ensures var (c, b) := AddTo(size, batchSize, committed, batch, event); GreedyState(size, batchSize, c, b)
  {
    hide GreedyCut, Retained;
    var fits := |batch| == 0 || Retained(size, batch) + size(event) <= MAX_RETAINED_BYTES;
    if |batch| == 0 {
      assert [] + [event] == batch + [event] == [event];
      OpenNext(size, batchSize, committed, event);
    } else if fits {
      GrowLast(size, batchSize, committed, batch, event);
    } else {
      assert [] + [event] == [event];
      OpenNext(size, batchSize, committed + [batch], event);
    }
  }

  class Batcher<Event> {
    const size: Event -> nat        // estimate of the memory one event retains
    const batchSize: nat
    const fails: nat -> bool        // does the n-th call of the consumer return an error
    var batch: seq<Event>
    var batchBytes: int
    var total: nat
    var calls: nat
    var committed: seq<seq<Event>>  // what the consumer has taken
    ghost var added: seq<Event>

    constructor (batchSize: int, size: Event -> nat, fails: nat -> bool)
      ensures Valid() && Greedy()
      ensures this.size == size && this.fails == fails
      ensures this.batchSize == if batchSize <= 0 then DEFAULT_BATCH_SIZE else batchSize
      ensures added == [] && committed == [] && batch == [] && total == 0
    {
      this.size, this.fails := size, fails;
      this.batchSize := if batchSize <= 0 then DEFAULT_BATCH_SIZE else batchSize;
      batch, batchBytes, total, calls, committed, added := [], 0, 0, 0, [], [];
    }

    /** Nothing is lost, duplicated or reordered; holds after failures too. */
    ghost predicate Conserved()
      reads this
    {
      && Flatten(committed) + batch == added
      && total == |added|
      && batchBytes == Retained(size, batch)
      && forall b | b in committed :: Bounded(size, batchSize, b)
    }

    ghost predicate Valid()
      reads this
    {
      Conserved() && |batch| < batchSize && batchBytes < MAX_RETAINED_BYTES
    }

    /** No batch was committed early. */
    ghost predicate Greedy()
      reads this
    {
      GreedyState(size, batchSize, committed, batch)
    }

    method Flush() returns (ok: bool)
      requires Conserved() && (|batch| > 0 ==> Bounded(size, batchSize, batch))
      modifies this
      ensures Conserved() && added == old(added) && total == old(total)
      ensures ok == (old(batch) == [] || !fails(old(calls)))
      ensures ok ==> batch == [] && committed == if old(batch) == [] then old(committed) else old(committed) + [old(batch)]
      ensures !ok ==> batch == old(batch) && committed == old(committed)
    {
      if |batch| == 0 {
        return true;
      }
      calls := calls + 1;
      if fails(calls - 1) {
        return false;
      }
      assert (committed + [batch])[..|committed|] == committed;
      committed := committed + [batch];
      batch, batchBytes := [], 0;
      return true;
    }

    lemma StaysGreedy(event: Event)
      requires Valid() && Greedy()
      ensures var (c, b) := AddTo(size, batchSize, committed, batch, event); GreedyState(size, batchSize, c, b)
    {
      hide GreedyState, AddTo, Conserved;
      AddKeepsGreedy(size, batchSize, committed, batch, event);
    }

    method Add(event: Event) returns (ok: bool)
      requires Valid()
      modifies this
      ensures Conserved() && (ok ==> Valid())
      ensures (forall n :: !fails(n)) ==> ok
      ensures ok ==> added == old(added) + [event]
      ensures ok ==> var (c, b) := AddTo(size, batchSize, old(committed), old(batch), event); committed == c && batch == b
      ensures ok && old(Greedy()) ==> Greedy()
      ensures !ok ==> added == old(added) || added == old(added) + [event]
    {
      hide GreedyState, Retained, MakeRoomFor, CloseFull, Conserved;
      if Greedy() { StaysGreedy(event); }
      ok := MakeRoom(event);
      if !ok {
        return;
      }
      Append(event, size(event));
      ok := FlushFull();
    }

    /** Flushes first when the event does not fit. */
    method MakeRoom(event: Event) returns (ok: bool)
      requires Valid()
      modifies this
      ensures Conserved() && added == old(added) && (ok ==> Valid() && (|batch| > 0 ==> batchBytes + size(event) <= MAX_RETAINED_BYTES))
      ensures (forall n :: !fails(n)) ==> ok
      ensures ok ==> var (c, b) := MakeRoomFor(size, old(committed), old(batch), event); committed == c && batch == b
    {
      assert Retained(size, []) == 0;
      hide Retained, Flatten;
      ok := true;
      if |batch| > 0 && size(event) > MAX_RETAINED_BYTES - batchBytes {
        ok := Flush();
      }
    }

    /** Flushes a batch that reached one of its bounds. */
    method FlushFull() returns (ok: bool)
      requires Conserved() && |batch| <= batchSize && (batchBytes <= MAX_RETAINED_BYTES || |batch| == 1) && |batch| > 0
      modifies this
      ensures Conserved() && added == old(added) && (ok ==> Valid())
      ensures (forall n :: !fails(n)) ==> ok
      ensures ok ==> var (c, b) := CloseFull(size, batchSize, old(committed), old(batch)); committed == c && batch == b
    {
      assert Retained(size, []) == 0;
      hide Retained, Flatten;
      if |batch| < batchSize && batchBytes < MAX_RETAINED_BYTES {
        return true;
      }
      ok := Flush();
    }

    lemma CommittedIsPrefix()
      requires Conserved()
      ensures Flatten(committed) <= added
      ensures batch == [] ==> Flatten(committed) == added
      ensures total == |added| && forall b | b in committed :: Bounded(size, batchSize, b)
    {
    }

    method Append(event: Event, eventBytes: nat)
      requires Conserved() && eventBytes == size(event)
      modifies `batch, `batchBytes, `total, `added
      ensures Conserved()
      ensures batch == old(batch) + [event] && added == old(added) + [event]
      ensures batchBytes == old(batchBytes) + eventBytes
    {
      assert (batch + [event])[..|batch|] == batch;
      batch := batch + [event];
      batchBytes := batchBytes + eventBytes;
      total := total + 1;
      added := added + [event];
    }
  }

  lemma PrefixOfPrefix<E>(a: seq<E>, b: seq<E>, events: seq<E>, i: nat)
    requires i < |events| && a <= b && (b == events[..i] || b == events[..i] + [events[i]])
    ensures a <= events
  {
    assert events[..i + 1] == events[..i] + [events[i]];
  }

  method AddEach<Event>(batcher: Batcher<Event>, events: seq<Event>) returns (ok: bool)
    requires batcher.Valid() && batcher.Greedy() && batcher.added == []
    modifies batcher
    ensures batcher.Conserved()
    ensures (forall n :: !batcher.fails(n)) ==> ok
    ensures ok ==> batcher.Valid() && batcher.Greedy() && batcher.added == events
    ensures !ok ==> Flatten(batcher.committed) <= events
  {
    hide Flatten, Retained, GreedyState, AddTo, Bounded;
    for i := 0 to |events|
      invariant batcher.Valid() && batcher.Greedy() && batcher.added == events[..i]
    {
      ok := batcher.Add(events[i]);
      if !ok {
        batcher.CommittedIsPrefix();
        PrefixOfPrefix(Flatten(batcher.committed), batcher.added, events, i);
        return;
      }
      assert events[..i + 1] == events[..i] + [events[i]];
    }
    assert events[..|events|] == events;
    return true;
  }

  /**
    A whole import with a consumer that succeeds: the committed batches are the
    added events, cut as late as the two bounds allow.
   */
  method AddAll<Event>(batcher: Batcher<Event>, events: seq<Event>) returns (ok: bool)
    requires batcher.Valid()
    requires batcher.added == [] && batcher.committed == [] && batcher.batch == []
    modifies batcher
    ensures (forall n :: !batcher.fails(n)) ==> ok
    ensures ok ==> Flatten(batcher.committed) == events && batcher.total == |events|
    ensures forall b | b in batcher.committed :: Bounded(batcher.size, batcher.batchSize, b)
    ensures ok ==> GreedyCut(batcher.size, batcher.batchSize, batcher.committed)
    // Batches committed before a failure stay committed, as a prefix of the events.
    ensures !ok ==> Flatten(batcher.committed) <= events
  {
    ok := AddEach(batcher, events);
    if ok {
      ok := batcher.Flush();
    }
    batcher.CommittedIsPrefix();
  }
}
