/**
  The lifecycle of the queue collector. Queue pops are destructive, so two
  consumers must never run at once. Any number of callers may call Start, Stop
  and StopAndWait at the same time; the code between two blocking points runs
  under the manager's mutex and is one step here, and the steps of all callers
  and consumers interleave in any order.
 */
module CollectorLifecycle {

  datatype Option<T> = None | Some(value: T)

  /** A goroutine started by Start: its context, and its done channel once closed. */
  datatype Consumer = Consumer(cancelled: bool, finished: bool)

  datatype Call = Start | StopAndWait

  /** Where a caller is in its call. */
  datatype Pc =
    | Idle
    | Locking(call: Call)              // lifecycleMu.Lock
    | Stopping(call: Call)             // holds lifecycleMu, about to call Stop
    | Reading(call: Call)              // about to read m.done
    | Waiting(call: Call, done: nat)   // selecting on done and on its context
    | Launching                        // Start, once the wait succeeded
    | Leaving(call: Call, ok: bool)    // about to release lifecycleMu and return

  predicate Holding(pc: Pc) {
    pc.Stopping? || pc.Reading? || pc.Waiting? || pc.Launching? || pc.Leaving?
  }

  /** The fields of Manager; consumers are numbered in the order they were started. */
  datatype Fields = Fields(consumers: seq<Consumer>, done: Option<nat>, cancel: Option<nat>)

  datatype State = State(fields: Fields, lifecycle: Option<nat>, pcs: map<nat, Pc>, pops: seq<nat>)

  function PcOf(s: State, t: nat): Pc {
    if t in s.pcs then s.pcs[t] else Idle
  }

  predicate Live(f: Fields, id: nat) {
    id < |f.consumers| && !f.consumers[id].finished
  }

  ghost predicate NoneLive(f: Fields) {
    forall id | 0 <= id < |f.consumers| :: !Live(f, id)
  }

  // ----- The sections under mu -----

  function Cancelled(f: Fields, id: nat): Fields {
    if id < |f.consumers| then f.(consumers := f.consumers[id := f.consumers[id].(cancelled := true)]) else f
  }

  /** Stop. */
  function Stopped(f: Fields): Fields {
    if f.cancel.Some? then Cancelled(f, f.cancel.value).(cancel := None) else f
  }

  /** The rest of Start: a new context and done channel, and a goroutine that owns them. */
  function Launched(f: Fields, contextGone: bool): Fields {
    var clear := Stopped(f);
    var id := |clear.consumers|;
    Fields(clear.consumers + [Consumer(contextGone, false)], Some(id), Some(id))
  }

  class Manager {
    var consumers: seq<Consumer>
    var done: Option<nat>
    var cancel: Option<nat>

    constructor ()
      ensures View() == Fields([], None, None)
    {
      consumers, done, cancel := [], None, None;
    }

    function View(): Fields
      reads this
    {
      Fields(consumers, done, cancel)
    }

    method Cancel(id: nat)
      modifies this
      ensures View() == Cancelled(old(View()), id)
    {
      if id < |consumers| {
        consumers := consumers[id := consumers[id].(cancelled := true)];
      }
    }

    method Stop()
      modifies this
      ensures View() == Stopped(old(View()))
    {
      if cancel.Some? {
        Cancel(cancel.value);
        cancel := None;
      }
    }

    method Launch(contextGone: bool)
      modifies this
      ensures View() == Launched(old(View()), contextGone)
    {
      if cancel.Some? {
        Cancel(cancel.value);
        cancel := None;
      }
      consumers := consumers + [Consumer(contextGone, false)];
      cancel := Some(|consumers| - 1);
      done := Some(|consumers| - 1);
    }
  }

  // ----- Steps -----

  datatype Event =
    | Begin(t: nat, call: Call)            // a caller enters Start or StopAndWait
    | Acquire(t: nat)                      // and gets lifecycleMu
    | StopSection(t: nat)
    | ReadDone(t: nat)
    | DoneClosed(t: nat)                   // its select sees done
    | TimedOut(t: nat)                     // its select sees its own context
    | Launch(t: nat, contextGone: bool)
    | Release(t: nat)
    | PlainStop                            // anyone calls Stop
    | ContextGone(id: nat)                 // the context a consumer was started with ends
    | Pop(id: nat)                         // a consumer pops the queue
    | Finish(id: nat)                      // a consumer returns and closes its done channel

  predicate Enabled(s: State, e: Event) {
    match e
    case Begin(t, _) => PcOf(s, t) == Idle
    case Acquire(t) => PcOf(s, t).Locking? && s.lifecycle == None
    case StopSection(t) => PcOf(s, t).Stopping?
    case ReadDone(t) => PcOf(s, t).Reading?
    case DoneClosed(t) => PcOf(s, t).Waiting? && !Live(s.fields, PcOf(s, t).done)
    case TimedOut(t) => PcOf(s, t).Waiting?
    case Launch(t, _) => PcOf(s, t).Launching?
    case Release(t) => PcOf(s, t).Leaving?
    case PlainStop => true
    case ContextGone(_) => true
    case Pop(id) => Live(s.fields, id)
    case Finish(id) => Live(s.fields, id)
  }

  function Goto(s: State, t: nat, pc: Pc): State {
    s.(pcs := s.pcs[t := pc])
  }

  /** What a successful wait leads to. */
  function Waited(call: Call): Pc {
    if call == Start then Launching else Leaving(call, true)
  }

  function Next(s: State, e: Event): State
    requires Enabled(s, e)
  {
    match e
    case Begin(t, call) => Goto(s, t, Locking(call))
    case Acquire(t) => Goto(s.(lifecycle := Some(t)), t, Stopping(PcOf(s, t).call))
    case StopSection(t) => Goto(s.(fields := Stopped(s.fields)), t, Reading(PcOf(s, t).call))
    case ReadDone(t) =>
      Goto(s, t, if s.fields.done.Some? then Waiting(PcOf(s, t).call, s.fields.done.value) else Waited(PcOf(s, t).call))
    case DoneClosed(t) => Goto(s, t, Waited(PcOf(s, t).call))
    case TimedOut(t) => Goto(s, t, Leaving(PcOf(s, t).call, false))
    case Launch(t, contextGone) => Goto(s.(fields := Launched(s.fields, contextGone)), t, Leaving(Start, true))
    case Release(t) => Goto(s.(lifecycle := None), t, Idle)
    case PlainStop => s.(fields := Stopped(s.fields))
    case ContextGone(id) => s.(fields := Cancelled(s.fields, id))
    case Pop(id) => s.(pops := s.pops + [id])
    case Finish(id) =>
      s.(fields := s.fields.(consumers := s.fields.consumers[id := s.fields.consumers[id].(finished := true)]))
  }

  // ----- The invariant -----

  /** Only the newest consumer can be live; m.done is its channel, and m.cancel, if set, its cancel function. */
  ghost predicate OneOwner(f: Fields) {
    && (f.done == if f.consumers == [] then None else Some(|f.consumers| - 1))
    && (f.cancel.Some? ==> f.cancel == f.done)
    && (forall id | 0 <= id < |f.consumers| && Live(f, id) :: id == |f.consumers| - 1)
    && (forall id | 0 <= id < |f.consumers| && Live(f, id) && f.cancel == None :: f.consumers[id].cancelled)
  }

  /** What a caller inside lifecycleMu can rely on. */
  ghost predicate PcSound(f: Fields, pc: Pc) {
    match pc
    case Reading(_) => f.cancel == None
    case Waiting(_, done) => f.cancel == None && f.done == Some(done)
    case Launching => f.cancel == None && NoneLive(f)
    case Leaving(call, ok) => call == StopAndWait && ok ==> NoneLive(f)
    case _ => true
  }

  /** Pops never come from a consumer older than one that popped before. */
  ghost predicate InTurn(pops: seq<nat>, newest: int) {
    && (forall i, j | 0 <= i < j < |pops| :: pops[i] <= pops[j])
    && forall i | 0 <= i < |pops| :: pops[i] <= newest
  }

  ghost predicate Invariant(s: State) {
    && OneOwner(s.fields)
    && (forall t: nat :: Holding(PcOf(s, t)) <==> s.lifecycle == Some(t))
    && (forall t | t in s.pcs :: PcSound(s.fields, s.pcs[t]))
    && InTurn(s.pops, |s.fields.consumers| - 1)
  }

  function Initial(): State {
    State(Fields([], None, None), None, map[], [])
  }

  lemma CancelledLive(f: Fields, id: nat)
    ensures forall k: nat :: Live(Cancelled(f, id), k) <==> Live(f, k)
    ensures NoneLive(f) <==> NoneLive(Cancelled(f, id))
  {
    assert forall k: nat :: Live(Cancelled(f, id), k) <==> Live(f, k);
  }

  lemma CancelledKeeps(f: Fields, id: nat, pc: Pc)
    requires OneOwner(f) && PcSound(f, pc)
    ensures OneOwner(Cancelled(f, id)) && PcSound(Cancelled(f, id), pc)
    ensures |Cancelled(f, id).consumers| == |f.consumers|
  {
    CancelledLive(f, id);
  }

  lemma StoppedKeeps(f: Fields, pc: Pc)
    requires OneOwner(f) && PcSound(f, pc)
    ensures OneOwner(Stopped(f)) && PcSound(Stopped(f), pc) && Stopped(f).cancel == None
    ensures |Stopped(f).consumers| == |f.consumers| && Stopped(f).done == f.done
  {
    if f.cancel.Some? { CancelledLive(f, f.cancel.value); }
    assert forall k: nat :: Live(Stopped(f), k) <==> Live(f, k);
    assert NoneLive(f) <==> NoneLive(Stopped(f));
  }

  lemma FinishedKeeps(f: Fields, id: nat, pc: Pc)
    requires OneOwner(f) && PcSound(f, pc) && Live(f, id)
    ensures var after := f.(consumers := f.consumers[id := f.consumers[id].(finished := true)]);
      OneOwner(after) && PcSound(after, pc)
  {
    var after := f.(consumers := f.consumers[id := f.consumers[id].(finished := true)]);
    assert forall k: nat | Live(after, k) :: Live(f, k);
    assert NoneLive(f) ==> NoneLive(after);
  }

  /** The wait is over: the newest consumer has finished, so none is live. */
  lemma WaitedSound(f: Fields, call: Call)
    requires OneOwner(f) && f.cancel == None && (f.done.Some? ==> !Live(f, f.done.value))
    ensures PcSound(f, Waited(call))
  {
  }

  lemma LaunchedKeeps(f: Fields, contextGone: bool)
    requires OneOwner(f) && PcSound(f, Launching)
    ensures OneOwner(Launched(f, contextGone)) && |Launched(f, contextGone).consumers| == |f.consumers| + 1
  {
    var after := Launched(f, contextGone);
    assert forall k | 0 <= k < |f.consumers| :: after.consumers[k] == f.consumers[k] && !Live(f, k);
  }

  /** A step that changes the fields but moves no caller keeps the invariant if it keeps each caller's part. */
  lemma FieldsKeep(s: State, f: Fields)
    requires Invariant(s) && OneOwner(f) && |f.consumers| >= |s.fields.consumers|
    requires forall t | t in s.pcs :: PcSound(f, s.pcs[t])
    ensures Invariant(s.(fields := f))
  {
    hide OneOwner, PcSound;
  }

  /** A step that moves one caller. */
  lemma GotoKeeps(s: State, t: nat, pc: Pc)
    requires Invariant(s) && PcSound(s.fields, pc) && (Holding(pc) <==> s.lifecycle == Some(t))
    ensures Invariant(Goto(s, t, pc))
  {
    hide OneOwner, PcSound;
  }

  lemma HolderOnly(s: State, t: nat, u: nat)
    requires Invariant(s) && Holding(PcOf(s, t)) && u != t && u in s.pcs
    ensures !Holding(s.pcs[u]) && forall f :: PcSound(f, s.pcs[u])
  {
    assert Holding(PcOf(s, u)) <==> s.lifecycle == Some(u);
  }

  lemma StopKeeps(s: State)
    requires Invariant(s)
    ensures Invariant(s.(fields := Stopped(s.fields)))
  {
    hide OneOwner, PcSound, Stopped;
    forall t | t in s.pcs ensures PcSound(Stopped(s.fields), s.pcs[t]) { StoppedKeeps(s.fields, s.pcs[t]); }
    StoppedKeeps(s.fields, Idle);
    FieldsKeep(s, Stopped(s.fields));
  }

  lemma LaunchKeeps(s: State, t: nat, contextGone: bool)
    requires Invariant(s) && PcOf(s, t).Launching?
    ensures Invariant(Next(s, Launch(t, contextGone)))
  {
    hide OneOwner, Launched, NoneLive;
    LaunchedKeeps(s.fields, contextGone);
    forall u | u in s.pcs && u != t ensures PcSound(Launched(s.fields, contextGone), s.pcs[u]) { HolderOnly(s, t, u); }
  }

  lemma StepKeeps(s: State, e: Event)
    requires Invariant(s) && Enabled(s, e)
    ensures Invariant(Next(s, e))
  {
    hide OneOwner, Stopped, Cancelled, Launched, NoneLive;
    match e
    case Begin(t, call) => GotoKeeps(s, t, Locking(call));
    case Acquire(t) =>
    case StopSection(t) =>
      StopKeeps(s);
      StoppedKeeps(s.fields, Idle);
      GotoKeeps(s.(fields := Stopped(s.fields)), t, Reading(PcOf(s, t).call));
    case ReadDone(t) =>
      if s.fields.done.Some? {
        GotoKeeps(s, t, Waiting(PcOf(s, t).call, s.fields.done.value));
      } else {
        WaitedSound(s.fields, PcOf(s, t).call);
        GotoKeeps(s, t, Waited(PcOf(s, t).call));
      }
    case DoneClosed(t) =>
      WaitedSound(s.fields, PcOf(s, t).call);
      GotoKeeps(s, t, Waited(PcOf(s, t).call));
    case TimedOut(t) => GotoKeeps(s, t, Leaving(PcOf(s, t).call, false));
    case Launch(t, contextGone) => LaunchKeeps(s, t, contextGone);
    case Release(t) =>
    case PlainStop => StopKeeps(s);
    case ContextGone(id) =>
      CancelledKeeps(s.fields, id, Idle);
      forall t | t in s.pcs ensures PcSound(Cancelled(s.fields, id), s.pcs[t]) { CancelledKeeps(s.fields, id, s.pcs[t]); }
      FieldsKeep(s, Cancelled(s.fields, id));
    case Pop(id) => NewestOnly(s.fields, id);
    case Finish(id) =>
      FinishedKeeps(s.fields, id, Idle);
      forall t | t in s.pcs ensures PcSound(Next(s, e).fields, s.pcs[t]) { FinishedKeeps(s.fields, id, s.pcs[t]); }
      FieldsKeep(s, Next(s, e).fields);
  }

  lemma NewestOnly(f: Fields, id: nat)
    requires OneOwner(f) && Live(f, id)
    ensures id == |f.consumers| - 1 && f.done == Some(id)
  {
  }

  // ----- Runs -----

  ghost predicate Run(states: seq<State>, events: seq<Event>) {
    && |states| == |events| + 1 && states[0] == Initial()
    && forall i | 0 <= i < |events| :: Enabled(states[i], events[i]) && states[i + 1] == Next(states[i], events[i])
  }

  lemma {:induction false} RunKeeps(states: seq<State>, events: seq<Event>, n: nat)
    requires Run(states, events) && n <= |events|
    ensures Invariant(states[n])
  {
    hide Invariant, Enabled, Next;
    if n > 0 {
      RunKeeps(states, events, n - 1);
      StepKeeps(states[n - 1], events[n - 1]);
    } else {
      InitiallySound();
    }
  }

  lemma InitiallySound()
    ensures Invariant(Initial())
  {
  }

  /** In every interleaving at most one consumer is alive, and it owns the manager's done channel. */
  lemma OneConsumer(states: seq<State>, events: seq<Event>, n: nat, id: nat, other: nat)
    requires Run(states, events) && n <= |events|
    requires Live(states[n].fields, id) && Live(states[n].fields, other)
    ensures id == other && states[n].fields.done == Some(id)
  {
    hide Enabled, Next;
    RunKeeps(states, events, n);
  }

  // ----- The lock is given back -----

  /** The lock is held exactly by the caller that is inside, so a caller that wants in gets in whenever nobody is. */
  lemma LockIsHeldInside(states: seq<State>, events: seq<Event>, n: nat, t: nat)
    requires Run(states, events) && n <= |events|
    ensures states[n].lifecycle == Some(t) <==> Holding(PcOf(states[n], t))
    ensures PcOf(states[n], t).Locking? ==> (Enabled(states[n], Acquire(t)) <==> forall u: nat :: !Holding(PcOf(states[n], u)))
  {
    hide Next;
    RunKeeps(states, events, n);
    if states[n].lifecycle.Some? {
      assert Holding(PcOf(states[n], states[n].lifecycle.value));
    }
  }

  /** A step by the caller. */
  predicate By(e: Event, t: nat) {
    match e
    case Begin(u, _) => u == t
    case Acquire(u) => u == t
    case StopSection(u) => u == t
    case ReadDone(u) => u == t
    case DoneClosed(u) => u == t
    case TimedOut(u) => u == t
    case Launch(u, _) => u == t
    case Release(u) => u == t
    case _ => false
  }

  /**
    Nothing else blocks. A caller can go on unless it waits for a lock that another
    holds; Stop can be called and contexts can end at any time, and a live consumer
    can pop and can finish.
   */
  lemma OnlyTheLockBlocks(states: seq<State>, events: seq<Event>, n: nat, t: nat)
    requires Run(states, events) && n <= |events|
    ensures (exists e :: By(e, t) && Enabled(states[n], e))
      <==> !PcOf(states[n], t).Locking? || forall u: nat :: !Holding(PcOf(states[n], u))
    ensures Enabled(states[n], PlainStop) && forall id: nat :: Enabled(states[n], ContextGone(id))
    ensures forall id: nat | Live(states[n].fields, id) :: Enabled(states[n], Pop(id)) && Enabled(states[n], Finish(id))
  {
    hide Next, Holding;
    LockIsHeldInside(states, events, n, t);
    var e := match PcOf(states[n], t)
      case Idle => Begin(t, Start)
      case Locking(_) => Acquire(t)
      case Stopping(_) => StopSection(t)
      case Reading(_) => ReadDone(t)
      case Waiting(_, _) => TimedOut(t)
      case Launching => Launch(t, false)
      case Leaving(_, _) => Release(t);
    assert By(e, t);
  }

  /** A sequence of steps from one state to another. */
  ghost predicate Path(states: seq<State>, events: seq<Event>, from: State, to: State) {
    && |states| == |events| + 1 && states[0] == from && states[|events|] == to
    && forall i | 0 <= i < |events| :: Enabled(states[i], events[i]) && states[i + 1] == Next(states[i], events[i])
  }

  lemma PathStep(s: State, e: Event, states: seq<State>, events: seq<Event>, to: State)
    requires Enabled(s, e) && Path(states, events, Next(s, e), to)
    ensures Path([s] + states, [e] + events, s, to)
  {
    hide Enabled, Next;
    forall i | 0 <= i < |[e] + events|
      ensures Enabled(([s] + states)[i], ([e] + events)[i]) && ([s] + states)[i + 1] == Next(([s] + states)[i], ([e] + events)[i])
    {
      if i > 0 { assert Enabled(states[i - 1], events[i - 1]); }
    }
  }

  /** What a caller inside does next, or what it waits for. */
  function Onward(s: State, t: nat): Event {
    match PcOf(s, t)
    case Stopping(_) => StopSection(t)
    case Reading(_) => ReadDone(t)
    case Waiting(_, done) => if Live(s.fields, done) then Finish(done) else DoneClosed(t)
    case Launching => Launch(t, false)
    case _ => Release(t)
  }

  /** At most so many steps, one of them the end of a consumer, before a caller inside is outside. */
  function StepsLeft(s: State, t: nat): nat {
    match PcOf(s, t)
    case Stopping(_) => 6
    case Reading(_) => 5
    case Waiting(_, done) => if Live(s.fields, done) then 4 else 3
    case Launching => 2
    case Leaving(_, _) => 1
    case _ => 0
  }

  lemma OnwardStep(s: State, t: nat)
    requires Invariant(s) && Holding(PcOf(s, t))
    ensures Enabled(s, Onward(s, t)) && Invariant(Next(s, Onward(s, t)))
    ensures StepsLeft(Next(s, Onward(s, t)), t) < StepsLeft(s, t)
    ensures PcOf(s, t).Leaving? <==> !Holding(PcOf(Next(s, Onward(s, t)), t))
    ensures PcOf(s, t).Leaving? ==> PcOf(Next(s, Onward(s, t)), t) == Idle && Next(s, Onward(s, t)).lifecycle == None
    ensures forall u: nat | u != t :: PcOf(Next(s, Onward(s, t)), u) == PcOf(s, u)
    ensures Onward(s, t) in {StopSection(t), ReadDone(t), DoneClosed(t), Launch(t, false), Release(t)}
      || (PcOf(s, t).Waiting? && Onward(s, t) == Finish(PcOf(s, t).done))
  {
    hide Invariant, Stopped, Launched;
    StepKeeps(s, Onward(s, t));
  }

  predicate Starting(pc: Pc) {
    pc.Launching? || ((pc.Stopping? || pc.Reading? || pc.Waiting?) && pc.call == Start)
  }

  ghost predicate OnlyLive(f: Fields, id: nat) {
    forall k: nat :: Live(f, k) <==> k == id
  }

  lemma LaunchedAlone(f: Fields)
    requires PcSound(f, Launching)
    ensures |Launched(f, false).consumers| == |f.consumers| + 1 && OnlyLive(Launched(f, false), |f.consumers|)
  {
    var after := Launched(f, false);
    forall k: nat ensures Live(after, k) <==> k == |f.consumers| {
      if k < |f.consumers| { assert !Live(f, k); }
    }
  }

  /** Which call it is and how many consumers there are change only when one is launched; a call that waited finds none alive. */
  lemma OnwardEffect(s: State, t: nat)
    requires Invariant(s) && Holding(PcOf(s, t)) && Enabled(s, Onward(s, t)) && Invariant(Next(s, Onward(s, t)))
    ensures var before, after, next := s.fields, Next(s, Onward(s, t)).fields, PcOf(Next(s, Onward(s, t)), t);
      match PcOf(s, t)
      case Leaving(_, _) => after == before
      case Launching => next == Leaving(Start, true) && |after.consumers| == |before.consumers| + 1 && OnlyLive(after, |before.consumers|)
      case _ =>
        && |after.consumers| == |before.consumers| && (Starting(PcOf(s, t)) <==> Starting(next))
        && (next.Leaving? ==> NoneLive(after))
  {
    hide OneOwner, Launched, NoneLive, OnlyLive;
    var next := Next(s, Onward(s, t));
    assert PcSound(next.fields, PcOf(next, t)) && PcSound(s.fields, PcOf(s, t));
    if PcOf(s, t).Launching? { LaunchedAlone(s.fields); }
  }

  /**
    From anywhere inside, six steps of the caller and the consumer it waits for
    are enough to bring it out and to free the lock; nobody else has to move. A
    Start leaves one new consumer alive, a StopAndWait none.
   */
  lemma {:induction false} ComesOut(s: State, t: nat) returns (states: seq<State>, events: seq<Event>, out: State)
    requires Invariant(s) && Holding(PcOf(s, t))
    ensures Path(states, events, s, out) && |events| <= StepsLeft(s, t) <= 6
    ensures PcOf(out, t) == Idle && out.lifecycle == None
    ensures forall u: nat | u != t :: PcOf(out, u) == PcOf(s, u)
    ensures forall e | e in events :: e.Finish? || e in {StopSection(t), ReadDone(t), DoneClosed(t), Launch(t, false), Release(t)}
    ensures PcOf(s, t).Leaving? ==> out.fields == s.fields
    ensures Starting(PcOf(s, t)) ==> OnlyLive(out.fields, |s.fields.consumers|)
    ensures !PcOf(s, t).Leaving? && !Starting(PcOf(s, t)) ==> NoneLive(out.fields)
    decreases StepsLeft(s, t)
  {
    hide Invariant, Enabled, Next, Onward, NoneLive, OnlyLive;
    var e := Onward(s, t);
    OnwardStep(s, t);
    OnwardEffect(s, t);
    if PcOf(s, t).Leaving? {
      out := Next(s, e);
      states, events := [out], [];
    } else {
      states, events, out := ComesOut(Next(s, e), t);
    }
    PathStep(s, e, states, events, out);
    states, events := [s] + states, [e] + events;
  }

  /** In every run a caller inside the lock can be brought out of it, and then whoever waits for the lock gets it. */
  lemma LockIsReleased(states: seq<State>, events: seq<Event>, t: nat, u: nat)
    returns (more: seq<State>, steps: seq<Event>, out: State)
    requires Run(states, events) && Holding(PcOf(states[|events|], t)) && PcOf(states[|events|], u).Locking?
    ensures Path(more, steps, states[|events|], out) && |steps| <= 6
    ensures PcOf(out, t) == Idle && Enabled(out, Acquire(u))
  {
    hide Next, Path, StepsLeft;
    RunKeeps(states, events, |events|);
    more, steps, out := ComesOut(states[|events|], t);
  }

  /** When StopAndWait is about to return nil, and for as long as it holds the lock, no consumer is alive. */
  lemma StopAndWaitFences(states: seq<State>, events: seq<Event>, n: nat, t: nat, id: nat)
    requires Run(states, events) && n <= |events|
    requires PcOf(states[n], t) == Leaving(StopAndWait, true)
    ensures !Live(states[n].fields, id)
  {
    hide Enabled, Next;
    RunKeeps(states, events, n);
    assert PcSound(states[n].fields, states[n].pcs[t]);
  }

  /** A consumer that nobody can cancel any more has been cancelled. */
  lemma NoConsumerForgotten(states: seq<State>, events: seq<Event>, n: nat, id: nat)
    requires Run(states, events) && n <= |events|
    requires Live(states[n].fields, id) && states[n].fields.cancel != Some(id)
    ensures states[n].fields.consumers[id].cancelled
  {
    hide Enabled, Next;
    RunKeeps(states, events, n);
  }

  /** Whoever stops, in the call of Stop or in the first section of the others: every consumer alive has then been cancelled. */
  lemma StopCancelsAll(states: seq<State>, events: seq<Event>, n: nat, id: nat)
    requires Run(states, events) && n < |events| && (events[n].PlainStop? || events[n].StopSection?)
    requires Live(states[n + 1].fields, id)
    ensures states[n + 1].fields.cancel == None && states[n + 1].fields.consumers[id].cancelled
    ensures states[n + 1].fields.done == states[n].fields.done && |states[n + 1].fields.consumers| == |states[n].fields.consumers|
  {
    hide Cancelled;
    RunKeeps(states, events, n);
    RunKeeps(states, events, n + 1);
    StoppedKeeps(states[n].fields, Idle);
  }

  /** Start never finds a cancel function to call: the wait before it has cleared it and nobody sets it meanwhile. */
  lemma LaunchFindsNothingToCancel(states: seq<State>, events: seq<Event>, n: nat, t: nat)
    requires Run(states, events) && n <= |events|
    requires PcOf(states[n], t) == Launching
    ensures states[n].fields.cancel == None
  {
    hide Enabled, Next;
    RunKeeps(states, events, n);
    assert PcSound(states[n].fields, states[n].pcs[t]);
  }

  /** A caller only ever waits for the one live consumer, and that one has been told to stop. */
  lemma WaitsForCancelled(states: seq<State>, events: seq<Event>, n: nat, t: nat, id: nat)
    requires Run(states, events) && n <= |events|
    requires PcOf(states[n], t).Waiting? && Live(states[n].fields, id)
    ensures id == PcOf(states[n], t).done && states[n].fields.consumers[id].cancelled
  {
    hide Enabled, Next;
    RunKeeps(states, events, n);
    assert PcSound(states[n].fields, states[n].pcs[t]);
    NewestOnly(states[n].fields, id);
  }

  /** A Start that gets through finds every earlier consumer finished, and leaves one live, which it can still cancel. */
  lemma StartLeavesOne(states: seq<State>, events: seq<Event>, n: nat, t: nat, contextGone: bool)
    requires Run(states, events) && n < |events| && events[n] == Launch(t, contextGone)
    ensures var before, after := states[n].fields, states[n + 1].fields;
      var id := |before.consumers|;
      && (forall k | 0 <= k < id :: before.consumers[k].finished)
      && after.consumers == before.consumers + [Consumer(contextGone, false)]
      && after.done == Some(id) && after.cancel == Some(id)
      && forall k: nat :: Live(after, k) <==> k == id
  {
    RunKeeps(states, events, n);
    LaunchFindsNothingToCancel(states, events, n, t);
    assert PcSound(states[n].fields, states[n].pcs[t]);
    var before := states[n].fields;
    forall k | 0 <= k < |before.consumers| ensures before.consumers[k].finished {
      assert !Live(before, k);
    }
  }

  /** The queue is consumed by one consumer after another: once a newer one popped, no older one does. */
  lemma PopsInTurn(states: seq<State>, events: seq<Event>, n: nat, i: nat, j: nat)
    requires Run(states, events) && n <= |events|
    requires i <= j < |states[n].pops|
    ensures states[n].pops[i] <= states[n].pops[j]
  {
    hide Enabled, Next;
    RunKeeps(states, events, n);
  }

  lemma DeadStays(s: State, e: Event, id: nat)
    requires Enabled(s, e) && id < |s.fields.consumers| && !Live(s.fields, id)
    ensures |Next(s, e).fields.consumers| >= |s.fields.consumers| && !Live(Next(s, e).fields, id)
  {
  }

  /**
    The fence: after a StopAndWait that returned nil, every pop there will ever
    be comes from a consumer started later.
   */
  lemma {:induction false} FencedConsumersNeverPop(states: seq<State>, events: seq<Event>, n: nat, t: nat, m: nat)
    requires Run(states, events) && n <= m <= |events|
    requires PcOf(states[n], t) == Leaving(StopAndWait, true)
    ensures states[n].pops <= states[m].pops
    ensures forall i | |states[n].pops| <= i < |states[m].pops| :: states[m].pops[i] >= |states[n].fields.consumers|
    ensures |states[m].fields.consumers| >= |states[n].fields.consumers|
    ensures forall id | 0 <= id < |states[n].fields.consumers| :: !Live(states[m].fields, id)
  {
    hide Live, Launched, Stopped, Cancelled;
    if m == n {
      forall id | 0 <= id < |states[n].fields.consumers| ensures !Live(states[n].fields, id) {
        StopAndWaitFences(states, events, n, t, id);
      }
    } else {
      FencedConsumersNeverPop(states, events, n, t, m - 1);
      var s, e := states[m - 1], events[m - 1];
      LaterConsumers(s, e);
      forall id | 0 <= id < |states[n].fields.consumers| ensures !Live(states[m].fields, id) { DeadStays(s, e, id); }
    }
  }

  lemma LaterConsumers(s: State, e: Event)
    requires Enabled(s, e)
    ensures |Next(s, e).fields.consumers| >= |s.fields.consumers|
    ensures Next(s, e).pops == if e.Pop? then s.pops + [e.id] else s.pops
  {
  }
}
