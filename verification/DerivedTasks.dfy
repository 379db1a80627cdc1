/**
  The round-robin scheduler of the derived usage tasks. One pass runs a bounded
  number of batches; each batch picks the next task that has not gone idle in
  this pass, starting after the task picked last, also across passes.
 */
module DerivedTasks {

  const TASKS: nat := 5

  datatype Outcome = Failed | Result(pending: bool, processed: nat, continueSoon: bool)

  /** What meets one batch: whether the context is cancelled before it, and how the task fares. */
  datatype Batch = Batch(cancelled: bool, outcome: Outcome)

  /** The task has more to do and made progress, or asked to continue soon. */
  predicate Busy(o: Outcome) {
    o.Result? && o.pending && (o.processed > 0 || o.continueSoon)
  }

  datatype Phase = Running | AllDone | Cancelled

  /** The state within a pass; picks lists the tasks in the order they ran. */
  datatype Pass = Pass(next: nat, idle: seq<bool>, pending: seq<bool>, picks: seq<nat>, phase: Phase)

  ghost predicate Valid(p: Pass) {
    p.next < TASKS && |p.idle| == TASKS && |p.pending| == TASKS
  }

  // ----- One batch -----

  predicate AllIdle(idle: seq<bool>) {
    forall t | 0 <= t < |idle| :: idle[t]
  }

  /** nextRunnableTask, from an offset on. */
  function RunnableFrom(idle: seq<bool>, next: nat, offset: nat): (task: nat)
    requires |idle| == TASKS && offset <= TASKS
    ensures task < TASKS
    decreases TASKS - offset
  {
    if offset == TASKS then next % TASKS
    else if !idle[(next + offset) % TASKS] then (next + offset) % TASKS
    else RunnableFrom(idle, next, offset + 1)
  }

  function Step(p: Pass, b: Batch): (r: Pass)
    requires Valid(p)
    ensures Valid(r)
  {
    if p.phase != Running then p
    else if b.cancelled then p.(phase := Cancelled)
    else if AllIdle(p.idle) then p.(phase := AllDone)
    else
      var task := RunnableFrom(p.idle, p.next, 0);
      Pass((task + 1) % TASKS,
           if Busy(b.outcome) then p.idle else p.idle[task := true],
           p.pending[task := Busy(b.outcome)], p.picks + [task], Running)
  }

  function Begin(next: nat): (p: Pass)
    requires next < TASKS
    ensures Valid(p)
  {
    Pass(next, [false, false, false, false, false], [false, false, false, false, false], [], Running)
  }

  /** The pass after the first batches. */
  function After(next: nat, batches: seq<Batch>): (p: Pass)
    requires next < TASKS
    ensures Valid(p)
  {
    if |batches| == 0 then Begin(next) else Step(After(next, batches[..|batches| - 1]), batches[|batches| - 1])
  }

  /** What catchUp returns: whether to continue soon. */
  predicate ContinueSoon(p: Pass)
    requires Valid(p)
  {
    p.phase != Cancelled && exists t :: 0 <= t < TASKS && p.pending[t]
  }

  // ----- The worker -----

  class Worker {
    var nextTask: nat
    const maxBatches: nat

    constructor (maxBatches: nat)
      ensures nextTask == 0 && this.maxBatches == maxBatches
    {
      nextTask := 0;
      this.maxBatches := maxBatches;
    }

    method NextRunnableTask(idle: array<bool>) returns (task: nat)
      requires idle.Length == TASKS && nextTask < TASKS
      ensures task == RunnableFrom(idle[..], nextTask, 0)
    {
      for offset := 0 to TASKS
        invariant RunnableFrom(idle[..], nextTask, 0) == RunnableFrom(idle[..], nextTask, offset)
      {
        task := (nextTask + offset) % TASKS;
        if !idle[task] {
          return;
        }
      }
      task := nextTask % TASKS;
    }

    method AllUsageDerivedTasksIdle(idle: array<bool>) returns (all: bool)
      requires idle.Length == TASKS
      ensures all == AllIdle(idle[..])
    {
      for t := 0 to TASKS
        invariant forall u | 0 <= u < t :: idle[u]
      {
        if !idle[t] {
          assert !idle[..][t];
          return false;
        }
      }
      all := true;
    }

    /** The part of the loop body that runs a task. */
    method RunBatch(idle: array<bool>, pending: array<bool>, outcome: Outcome, ghost pass: Pass)
      requires idle.Length == TASKS && pending.Length == TASKS && idle != pending
      requires Valid(pass) && pass.phase == Running && !AllIdle(pass.idle)
      requires nextTask == pass.next && pass.idle == idle[..] && pass.pending == pending[..]
      modifies this`nextTask, idle, pending
      ensures var after := Step(pass, Batch(false, outcome));
        nextTask == after.next && after.idle == idle[..] && after.pending == pending[..] && after.phase == Running
    {
      var task := NextRunnableTask(idle);
      nextTask := (task + 1) % TASKS;
      pending[task] := Busy(outcome);
      if outcome.Failed? || !outcome.pending || (outcome.processed == 0 && !outcome.continueSoon) {
        idle[task] := true;
      }
    }

    method AnyPending(pending: seq<bool>) returns (any: bool)
      requires |pending| == TASKS
      ensures any == exists t :: 0 <= t < TASKS && pending[t]
    {
      for t := 0 to TASKS
        invariant forall u | 0 <= u < t :: !pending[u]
      {
        if pending[t] {
          return true;
        }
      }
      any := false;
    }

    /** catchUp; the batches tell how each batch will be met. */
    method CatchUp(batches: seq<Batch>) returns (again: bool, ghost pass: Pass)
      requires nextTask < TASKS && |batches| >= maxBatches
      modifies this`nextTask
      ensures pass == After(old(nextTask), batches[..maxBatches])
      ensures nextTask == pass.next && again == ContinueSoon(pass)
    {
      hide RunnableFrom, AllIdle, Step;
      var all := batches[..maxBatches];
      var pending, idle := new bool[TASKS](_ => false), new bool[TASKS](_ => false);
      pass := Begin(nextTask);
      for batch := 0 to maxBatches
        invariant pass == After(old(nextTask), all[..batch]) && pass.phase == Running
        invariant nextTask == pass.next < TASKS && pass.idle == idle[..] && pass.pending == pending[..]
      {
        var met := all[batch];
        assert all[..batch + 1][..batch] == all[..batch];
        var before := pass;
        StepCases(pass, met);
        pass := Step(pass, met);
        if met.cancelled {
          StoppedForGood(old(nextTask), all, batch + 1);
          return false, pass;
        }
        var allIdle := AllUsageDerivedTasksIdle(idle);
        if allIdle {
          StoppedForGood(old(nextTask), all, batch + 1);
          assert pass == After(old(nextTask), all);
          break;
        }
        RunBatch(idle, pending, met.outcome, before);
      }
      assert all[..maxBatches] == all;
      assert pass == After(old(nextTask), all) && pass.phase != Cancelled && pass.pending == pending[..];
      again := AnyPending(pending[..]);
    }
  }

  /** How a step of a running pass ends it. */
  lemma StepCases(p: Pass, b: Batch)
    requires Valid(p) && p.phase == Running
    ensures b.cancelled ==> Step(p, b) == p.(phase := Cancelled)
    ensures !b.cancelled && AllIdle(p.idle) ==> Step(p, b) == p.(phase := AllDone)
    ensures !b.cancelled ==> Step(p, b) == Step(p, Batch(false, b.outcome))
  {
  }

  lemma {:induction false} StoppedForGood(next: nat, batches: seq<Batch>, n: nat)
    requires next < TASKS && n <= |batches| && After(next, batches[..n]).phase != Running
    ensures After(next, batches) == After(next, batches[..n])
    decreases |batches| - n
  {
    if n < |batches| {
      assert batches[..n + 1][..n] == batches[..n];
      StoppedForGood(next, batches, n + 1);
    } else {
      assert batches[..n] == batches;
    }
  }

  // ----- What one pick is -----

  /** How many picks away a task is, counting from the next. */
  function Distance(next: nat, task: nat): (d: nat)
    requires next < TASKS && task < TASKS
    ensures d < TASKS && (next + d) % TASKS == task
  {
    if task >= next then task - next else task + TASKS - next
  }

  lemma {:induction false} RunnableIsNearest(idle: seq<bool>, next: nat, offset: nat)
    requires |idle| == TASKS && next < TASKS && offset <= TASKS
    requires forall t | 0 <= t < TASKS && Distance(next, t) < offset :: idle[t]
    ensures var task := RunnableFrom(idle, next, offset);
      forall t | 0 <= t < TASKS && !idle[t] :: !idle[task] && Distance(next, task) <= Distance(next, t)
    decreases TASKS - offset
  {
    hide Distance;
    if offset < TASKS {
      DistanceOfOffset(next, offset);
      if idle[(next + offset) % TASKS] { RunnableIsNearest(idle, next, offset + 1); }
    } else {
      NearerThanTasks(next);
    }
  }

  lemma DistanceOfOffset(next: nat, offset: nat)
    requires next < TASKS && offset < TASKS
    ensures Distance(next, (next + offset) % TASKS) == offset
    ensures forall t | 0 <= t < TASKS && Distance(next, t) == offset :: t == (next + offset) % TASKS
  {
  }

  lemma NearerThanTasks(next: nat)
    requires next < TASKS
    ensures forall t | 0 <= t < TASKS :: Distance(next, t) < TASKS
  {
  }

  /** The task picked is the nearest one that is not idle. */
  lemma PickIsNearest(p: Pass)
    requires Valid(p) && !AllIdle(p.idle)
    ensures var task := RunnableFrom(p.idle, p.next, 0);
      !p.idle[task] && forall t | 0 <= t < TASKS && !p.idle[t] :: Distance(p.next, task) <= Distance(p.next, t)
  {
    RunnableIsNearest(p.idle, p.next, 0);
  }

  // ----- What a pass keeps -----

  /** Tasks are idle or pending only once they ran; which of the two their last batch decided. */
  ghost predicate Settled(p: Pass) {
    && Valid(p)
    && (forall i | 0 <= i < |p.picks| :: p.picks[i] < TASKS)
    && forall t | 0 <= t < TASKS :: (p.pending[t] <==> t in p.picks && !p.idle[t]) && (p.idle[t] ==> t in p.picks)
  }

  lemma StepSettled(p: Pass, b: Batch)
    requires Settled(p) && p.phase == Running && !b.cancelled && !AllIdle(p.idle)
    ensures Settled(Step(p, b))
  {
    hide RunnableFrom, Busy, Distance;
    var task := RunnableFrom(p.idle, p.next, 0);
    PickIsNearest(p);
    var q := Step(p, b);
    assert forall t :: t in q.picks <==> t in p.picks || t == task;
  }

  lemma {:induction false} PassSettled(next: nat, batches: seq<Batch>)
    requires next < TASKS
    ensures Settled(After(next, batches))
    ensures After(next, batches).phase == AllDone ==> AllIdle(After(next, batches).idle)
  {
    hide RunnableFrom, Settled;
    if |batches| > 0 {
      PassSettled(next, batches[..|batches| - 1]);
      var p := After(next, batches[..|batches| - 1]);
      if p.phase == Running && !batches[|batches| - 1].cancelled && !AllIdle(p.idle) {
        StepSettled(p, batches[|batches| - 1]);
      } else {
        StillSettled(p, Step(p, batches[|batches| - 1]));
      }
    } else {
      BeginSettled(next);
    }
  }

  lemma BeginSettled(next: nat)
    requires next < TASKS
    ensures Settled(Begin(next))
  {
  }

  lemma StillSettled(p: Pass, q: Pass)
    requires Settled(p) && q == p.(phase := q.phase)
    ensures Settled(q)
  {
  }

  lemma AroundOnce(start: nat, i: nat, k: nat)
    requires start < TASKS && i < k < TASKS
    ensures (start + i) % TASKS != (start + k) % TASKS
  {
  }

  lemma NextAround(start: nat, k: nat)
    requires start < TASKS && k < TASKS
    ensures ((start + k) % TASKS + 1) % TASKS == (start + k + 1) % TASKS
  {
  }

  /** The picks so far go around once, starting at the given task. */
  ghost predicate Rotating(p: Pass, start: nat) {
    && (forall i | 0 <= i < |p.picks| :: p.picks[i] == (start + i) % TASKS)
    && p.next == (start + |p.picks|) % TASKS
  }

  lemma OneAtDistanceZero(next: nat, task: nat)
    requires next < TASKS && task < TASKS && Distance(next, task) == 0
    ensures task == next
  {
  }

  lemma NextNotIdle(p: Pass, start: nat)
    requires Settled(p) && Rotating(p, start) && start < TASKS && |p.picks| < TASKS
    ensures !p.idle[p.next]
  {
    forall i | 0 <= i < |p.picks| ensures p.picks[i] != p.next { AroundOnce(start, i, |p.picks|); }
    assert p.next !in p.picks;
  }

  lemma StepRotates(p: Pass, start: nat, b: Batch)
    requires Settled(p) && Rotating(p, start) && start < TASKS && |p.picks| < TASKS
    requires p.phase == Running && !b.cancelled && !AllIdle(p.idle)
    ensures Rotating(Step(p, b), start)
  {
    hide RunnableFrom, Busy;
    NextNotIdle(p, start);
    PickIsNearest(p);
    assert Distance(p.next, p.next) == 0;
    assert RunnableFrom(p.idle, p.next, 0) == p.next by { OneAtDistanceZero(p.next, RunnableFrom(p.idle, p.next, 0)); }
    NextAround(start, |p.picks|);
    hide Distance, Settled, AllIdle;
  }

  /** The first picks of a pass go once around: no task waits for another to run twice. */
  lemma {:induction false} FirstPicksRotate(next: nat, batches: seq<Batch>)
    requires next < TASKS && |After(next, batches).picks| <= TASKS
    ensures Rotating(After(next, batches), next)
  {
    hide RunnableFrom, Rotating, Settled;
    if |batches| > 0 {
      var n := |batches| - 1;
      var p := After(next, batches[..n]);
      PassSettled(next, batches[..n]);
      PicksGrow(next, batches, n);
      FirstPicksRotate(next, batches[..n]);
      if p.phase == Running && !batches[n].cancelled && !AllIdle(p.idle) {
        StepRotates(p, next, batches[n]);
      } else {
        StillRotating(p, Step(p, batches[n]), next);
      }
    } else {
      BeginRotating(next);
    }
  }

  lemma BeginRotating(next: nat)
    requires next < TASKS
    ensures Rotating(Begin(next), next)
  {
  }

  lemma StillRotating(p: Pass, q: Pass, start: nat)
    requires Rotating(p, start) && q.picks == p.picks && q.next == p.next
    ensures Rotating(q, start)
  {
  }

  /** However long the pass, its first five picks are one rotation. */
  lemma {:induction false} FirstFiveGoAround(next: nat, batches: seq<Batch>, i: nat)
    requires next < TASKS && i < TASKS && i < |After(next, batches).picks|
    ensures After(next, batches).picks[i] == (next + i) % TASKS
  {
    hide Step;
    if |After(next, batches).picks| <= TASKS {
      FirstPicksRotate(next, batches);
    } else {
      var n := |batches| - 1;
      PicksCount(next, batches);
      PicksGrow(next, batches, n);
      OnePickAtMost(next, batches);
      FirstFiveGoAround(next, batches[..n], i);
    }
  }

  lemma OnePickAtMost(next: nat, batches: seq<Batch>)
    requires next < TASKS && |batches| > 0
    ensures |After(next, batches).picks| <= |After(next, batches[..|batches| - 1]).picks| + 1
  {
    hide RunnableFrom;
  }

  /** A pass of at least five batches that is not cancelled gives every task a turn. */
  lemma {:induction false} EveryTaskHasATurn(next: nat, batches: seq<Batch>, t: nat)
    requires next < TASKS && t < TASKS && |batches| >= TASKS && After(next, batches).phase != Cancelled
    ensures t in After(next, batches).picks
  {
    hide RunnableFrom, Step;
    PicksCount(next, batches);
    var first := After(next, batches[..TASKS]);
    PicksGrow(next, batches, TASKS);
    PicksCount(next, batches[..TASKS]);
    NotYetCancelled(next, batches, TASKS);
    if first.phase == Running {
      FirstPicksRotate(next, batches[..TASKS]);
      assert first.picks[Distance(next, t)] == t;
    } else {
      PassSettled(next, batches[..TASKS]);
      assert first.idle[t];
    }
  }

  lemma {:induction false} PicksCount(next: nat, batches: seq<Batch>)
    requires next < TASKS
    ensures After(next, batches).phase == Running ==> |After(next, batches).picks| == |batches|
    ensures |After(next, batches).picks| <= |batches|
  {
    hide RunnableFrom;
    if |batches| > 0 { PicksCount(next, batches[..|batches| - 1]); }
  }

  lemma {:induction false} PicksGrow(next: nat, batches: seq<Batch>, n: nat)
    requires next < TASKS && n <= |batches|
    ensures After(next, batches[..n]).picks <= After(next, batches).picks
    decreases |batches|
  {
    hide RunnableFrom;
    if n == |batches| {
      assert batches[..n] == batches;
    } else {
      PicksGrow(next, batches[..|batches| - 1], n);
      assert batches[..|batches| - 1][..n] == batches[..n];
    }
  }

  lemma {:induction false} NotYetCancelled(next: nat, batches: seq<Batch>, n: nat)
    requires next < TASKS && n <= |batches| && After(next, batches).phase != Cancelled
    ensures After(next, batches[..n]).phase != Cancelled
    decreases |batches|
  {
    hide RunnableFrom;
    if n == |batches| {
      assert batches[..n] == batches;
    } else {
      NotYetCancelled(next, batches[..|batches| - 1], n);
      assert batches[..|batches| - 1][..n] == batches[..n];
    }
  }

  /**
    catchUp asks to continue exactly when some task that ran is not idle; with
    five batches or more and no cancellation, exactly when some task is not idle.
   */
  lemma ContinuesWhileBusy(next: nat, batches: seq<Batch>)
    requires next < TASKS && After(next, batches).phase != Cancelled
    ensures var p := After(next, batches);
      ContinueSoon(p) <==> exists t :: 0 <= t < TASKS && t in p.picks && !p.idle[t]
    ensures var p := After(next, batches);
      |batches| >= TASKS ==> (ContinueSoon(p) <==> !AllIdle(p.idle))
  {
    hide After;
    PassSettled(next, batches);
    if |batches| >= TASKS {
      forall t | 0 <= t < TASKS ensures t in After(next, batches).picks { EveryTaskHasATurn(next, batches, t); }
    }
  }

  // ----- Bounded waiting -----

  /** Waiting its turn, a task that is not idle comes closer with every pick of another one. */
  lemma PickBringsCloser(p: Pass, b: Batch, t: nat)
    requires Valid(p) && p.phase == Running && !b.cancelled && t < TASKS && !p.idle[t]
    ensures var q := Step(p, b);
      && |q.picks| == |p.picks| + 1 && q.phase == Running
      && (q.picks[|p.picks|] == t || (!q.idle[t] && Distance(q.next, t) < Distance(p.next, t)))
  {
    hide RunnableFrom;
    PickIsNearest(p);
  }

  /** A task that is not idle after some batches is picked within the next five, at any point of the pass. */
  lemma {:induction false} PickedWithinFive(next: nat, batches: seq<Batch>, n: nat, t: nat)
    requires next < TASKS && t < TASKS && n <= |batches|
    requires var p := After(next, batches[..n]); p.phase == Running && !p.idle[t] && n + Distance(p.next, t) < |batches|
    requires forall i | n <= i < |batches| :: !batches[i].cancelled
    ensures var p := After(next, batches[..n]);
      exists k :: |p.picks| <= k <= |p.picks| + Distance(p.next, t)
        && k < |After(next, batches).picks| && After(next, batches).picks[k] == t
    decreases |batches| - n
  {
    hide Step, RunnableFrom, Distance;
    var p := After(next, batches[..n]);
    assert batches[..n + 1][..n] == batches[..n];
    PickBringsCloser(p, batches[n], t);
    var q := After(next, batches[..n + 1]);
    PicksGrow(next, batches, n + 1);
    if q.picks[|p.picks|] == t {
      assert After(next, batches).picks[|p.picks|] == t;
    } else {
      PickedWithinFive(next, batches, n + 1, t);
      var k :| |q.picks| <= k <= |q.picks| + Distance(q.next, t)
        && k < |After(next, batches).picks| && After(next, batches).picks[k] == t;
      assert |p.picks| <= k <= |p.picks| + Distance(p.next, t);
    }
  }

  /** What failed or had nothing to do is not run again in the same pass. */
  lemma {:induction false} IdleStaysIdle(next: nat, batches: seq<Batch>, n: nat, t: nat, k: nat)
    requires next < TASKS && t < TASKS && n <= |batches| && After(next, batches[..n]).idle[t]
    requires |After(next, batches[..n]).picks| <= k < |After(next, batches).picks|
    ensures After(next, batches).picks[k] != t && After(next, batches).idle[t]
    decreases |batches|
  {
    hide Step;
    if n == |batches| {
      WholePass(next, batches);
    } else {
      var m := |batches| - 1;
      var p := After(next, batches[..m]);
      assert batches[..m][..n] == batches[..n];
      OneStep(p, batches[m]);
      StillIdle(next, batches, n, t);
      StillIdle(next, batches[..m], n, t);
      if k < |p.picks| { IdleStaysIdle(next, batches[..m], n, t, k); }
    }
  }

  lemma WholePass(next: nat, batches: seq<Batch>)
    requires next < TASKS
    ensures After(next, batches[..|batches|]) == After(next, batches)
  {
    assert batches[..|batches|] == batches;
  }

  lemma OneStep(p: Pass, b: Batch)
    requires Valid(p)
    ensures p.picks <= Step(p, b).picks
    ensures forall k | |p.picks| <= k < |Step(p, b).picks| :: Step(p, b).picks[k] < TASKS && !p.idle[Step(p, b).picks[k]]
  {
    hide RunnableFrom;
    if !AllIdle(p.idle) { PickIsNearest(p); }
  }

  lemma {:induction false} StillIdle(next: nat, batches: seq<Batch>, n: nat, t: nat)
    requires next < TASKS && t < TASKS && n <= |batches| && After(next, batches[..n]).idle[t]
    ensures After(next, batches).idle[t]
    decreases |batches|
  {
    hide RunnableFrom;
    if n == |batches| {
      assert batches[..n] == batches;
    } else {
      assert batches[..|batches| - 1][..n] == batches[..n];
      StillIdle(next, batches[..|batches| - 1], n, t);
    }
  }

  /** The batch failed, had nothing left to do, or did nothing without asking to go on. */
  predicate Spent(o: Outcome) {
    match o
    case Failed => true
    case Result(pending, processed, continueSoon) => !pending || (processed == 0 && !continueSoon)
  }

  /** Some batch so far ran the task and left it spent. */
  ghost predicate SpentBy(picks: seq<nat>, batches: seq<Batch>, t: nat) {
    exists i: nat :: i < |picks| && i < |batches| && picks[i] == t && Spent(batches[i].outcome)
  }

  /** One batch: it picks one task, which becomes idle if the batch leaves it spent, and nothing else changes. */
  lemma StepIdle(p: Pass, b: Batch, t: nat)
    requires Valid(p) && t < TASKS && !b.cancelled
    ensures var q := Step(p, b);
      if p.phase != Running || AllIdle(p.idle) then q.picks == p.picks && q.idle == p.idle && q.phase != Running
      else
        && q.phase == Running && |q.picks| == |p.picks| + 1 && q.picks[..|p.picks|] == p.picks
        && (q.idle[t] <==> p.idle[t] || (q.picks[|p.picks|] == t && Spent(b.outcome)))
  {
    hide RunnableFrom;
  }

  lemma SpentNext(picks: seq<nat>, more: seq<nat>, batches: seq<Batch>, t: nat)
    requires |batches| > 0 && |picks| < |batches| && picks <= more
    requires |more| == |picks| || (|more| == |picks| + 1 == |batches|)
    ensures SpentBy(more, batches, t)
      <==> SpentBy(picks, batches[..|batches| - 1], t) || (|more| > |picks| && more[|picks|] == t && Spent(batches[|picks|].outcome))
  {
    var front := batches[..|batches| - 1];
    if i: nat :| i < |picks| && i < |front| && picks[i] == t && Spent(front[i].outcome) {
      assert more[i] == t && batches[i] == front[i];
    }
    if i: nat :| i < |more| && i < |batches| && more[i] == t && Spent(batches[i].outcome) {
      if i < |picks| { assert picks[i] == t && front[i] == batches[i]; }
    }
  }

  /** In a pass that is not cancelled a task is idle exactly when one of its batches left it spent; until all are, each batch runs one task. */
  lemma {:induction false} IdleExactly(next: nat, batches: seq<Batch>, t: nat)
    requires next < TASKS && t < TASKS && forall i | 0 <= i < |batches| :: !batches[i].cancelled
    ensures var p := After(next, batches);
      && |p.picks| <= |batches| && (p.phase == Running ==> |p.picks| == |batches|)
      && (p.idle[t] <==> SpentBy(p.picks, batches, t))
  {
    hide Step, Spent;
    if |batches| > 0 {
      var m := |batches| - 1;
      var p := After(next, batches[..m]);
      IdleExactly(next, batches[..m], t);
      StepIdle(p, batches[m], t);
      SpentNext(p.picks, After(next, batches).picks, batches, t);
    }
  }
}
