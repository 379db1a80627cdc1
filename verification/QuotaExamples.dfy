/**
  Runs of the quota cooldown worker that show what QuotaLosses and QuotaForeign
  allow: one run for each way to lose a credential, and two in which a disable
  that somebody made by hand is undone, one made after the worker's own and one
  made between its look and its request.
 */
module QuotaExamples {
  import opened QuotaWorld
  import opened QuotaCooldown
  import opened QuotaSafety
  import opened QuotaRuns
  import opened QuotaEffects
  import opened QuotaLosses
  import opened QuotaForeign

  function Codex(): Cred { Cred("auth.json", "7", "codex", "") }

  function Limited(): Candidate {
    Candidate("auth.json", "7", "", "codex", "codex_usage_limit_reached", "weekly", "e1", NoEvidence, 10, Usage429)
  }

  /** A call, and the listing right before it: the one credential, enabled or disabled. */
  function At(disabled: bool, call: Call): Reply {
    Reply(Meanwhile([File(Codex(), disabled)], {}, {}), call, true)
  }

  function Start(): World {
    Untouched([File(Codex(), false)])
  }

  /** The replies to the candidate, by what becomes of the disable, the row and the rollback. */
  function Replies(patch: Call, save: Call, undo: Call): CandidateReplies {
    CandidateReplies(0, true, true, true, "", "", {}, At(false, Done), At(true, Done), At(false, patch), At(true, save),
      Undoing(At(true, undo), At(true, undo)))
  }

  lemma OneCredential()
    ensures Distinguishable({Codex()}) && Firm(Codex())
    ensures forall disabled, call :: Possible({Codex()}, At(disabled, call))
  {
  }

  lemma Finds(disabled: bool, reply: Reply, want: Identity)
    requires reply.call == Done && reply.evidenceOk && want.file == "auth.json" && want.index == "7" && want.provider == "codex"
    ensures Resolve([File(Codex(), disabled)], want, reply) == Target(File(Codex(), disabled))
  {
    var files := [File(Codex(), disabled)];
    assert files[..0] == [] && Matching([], want.file, want.index) == [];
    assert Matching(files, want.file, want.index) == files;
  }

  lemma Attempted(patch: Call, save: Call, undo: Call)
    ensures TargetOf(Limited(), Replies(patch, save, undo)) == Target(File(Codex(), false))
    ensures Passes(Limited(), Replies(patch, save, undo), false)
    ensures Attempts(Limited(), Replies(patch, save, undo)) && PossibleOp({Codex()}, Accept(Limited(), Replies(patch, save, undo)))
  {
    hide Resolve;
    OneCredential();
    Finds(false, Replies(patch, save, undo).look, Wanted(Limited(), Replies(patch, save, undo)));
  }

  /** A run of one candidate. */
  lemma FirstStep(patch: Call, save: Call, undo: Call)
    ensures var op := Accept(Limited(), Replies(patch, save, undo));
      Distinguishable({Codex()}) && Run({Codex()}, [op], [Start(), Step(Start(), op)]) && Invariant({Codex()}, Start())
  {
    hide Handle;
    OneCredential();
    Attempted(patch, save, undo);
    var op := Accept(Limited(), Replies(patch, save, undo));
    RunStarts();
    assert |Handle(Start(), Limited(), Replies(patch, save, undo)).accepted| == |Handle(Start(), Limited(), Replies(patch, save, undo)).rows| by {
      HandleKeeps({Codex()}, Start(), Limited(), Replies(patch, save, undo));
      ListingKept({Codex()}, Step(Start(), op));
    }
  }

  lemma RunStarts()
    ensures Invariant({Codex()}, Start())
  {
    OneCredential();
  }

  /** The disable takes effect, its confirmation is lost: the credential stays disabled without a row. */
  lemma UnconfirmedDisableLoses()
    ensures var op := Accept(Limited(), Replies(FailedButApplied, Done, Done));
      Run({Codex()}, [op], [Start(), Step(Start(), op)]) && Lost(Step(Start(), op), Codex())
  {
    hide Handle, Run, Invariant, Step, Lost;
    var s := Replies(FailedButApplied, Done, Done);
    FirstStep(FailedButApplied, Done, Done);
    Attempted(FailedButApplied, Done, Done);
    StartNotLost();
    HandleLosesExactly({Codex()}, Start(), Limited(), s, Codex());
    StepAccepts(s);
  }

  /** The disable is confirmed, the row cannot be stored, and the rollback does not reach the remote. */
  lemma FailedRollbackLoses()
    ensures var op := Accept(Limited(), Replies(Done, Failed, Failed));
      Run({Codex()}, [op], [Start(), Step(Start(), op)]) && Lost(Step(Start(), op), Codex())
  {
    hide Handle, Run, Invariant, Step, Lost;
    var s := Replies(Done, Failed, Failed);
    FirstStep(Done, Failed, Failed);
    Attempted(Done, Failed, Failed);
    StartNotLost();
    HandleLosesExactly({Codex()}, Start(), Limited(), s, Codex());
    StepAccepts(s);
  }

  lemma StartNotLost()
    ensures !Lost(Start(), Codex()) && !Covered([], Codex())
  {
  }

  lemma StepAccepts(s: CandidateReplies)
    ensures Step(Start(), Accept(Limited(), s)) == Handle(Start(), Limited(), s)
  {
  }

  // ----- After a candidate was recorded -----

  function Recorded(): Row {
    Row("auth.json", "7", "", "codex", "codex_usage_limit_reached", "weekly", "e1", NoEvidence, 10, Usage429, false, Active)
  }

  /** Raced: somebody disabled the credential before the worker's request did. */
  function Disabled(raced: bool): World {
    World([File(Codex(), true)], [Recorded()], [Saw(Codex(), false), Disable(Codex(), Done)], [[Limited()]], {Codex()},
      if raced then {Codex()} else {}, {})
  }

  function Recording(raced: bool): CandidateReplies {
    Replies(Done, Done, Done).(patch := At(raced, Done))
  }

  lemma RecordedIs(raced: bool)
    ensures Handle(Start(), Limited(), Recording(raced)) == Disabled(raced)
  {
    hide Resolve, FindOwned, Look, Interfere;
    Attempted(Done, Done, Done);
    var s := Recording(raced);
    assert NewRow(Limited(), Codex(), s) == Recorded();
    NothingOwned(Recorded());
    FirstLook(s);
    RacedPatch(s, raced);
  }

  lemma FirstLook(s: CandidateReplies)
    requires s == Recording(false) || s == Recording(true)
    ensures Look(Start(), Wanted(Limited(), s), s.look) == Start().(log := [Saw(Codex(), false)])
  {
    hide Resolve, Interfere;
    Finds(false, s.look, Wanted(Limited(), s));
    Flags(false);
    ListedAs(Start(), false);
  }

  lemma RacedPatch(s: CandidateReplies, raced: bool)
    requires s == Recording(raced)
    ensures var looked := Start().(log := [Saw(Codex(), false)]);
      Interfere(Patched(looked, Codex(), s), s.save.meanwhile) == Disabled(raced).(rows := [], accepted := [])
  {
    hide Interfere;
    var looked := Start().(log := [Saw(Codex(), false)]);
    Flags(false);
    ListedAs(looked, raced);
    var before := Interfere(looked, At(raced, Done).meanwhile);
    var patched := PatchDisable(before, Codex(), Done);
    assert patched.files == [File(Codex(), true)] && patched.left == {Codex()};
    ListedAs(patched, true);
  }

  /** What a look of the one credential leaves of who disabled it. */
  lemma ListedAs(w: World, disabled: bool)
    requires w.left <= {Codex()} && w.foreign <= {Codex()}
    ensures Interfere(w, At(disabled, Done).meanwhile)
      == w.(files := [File(Codex(), disabled)],
            left := if disabled then w.left else {},
            foreign := if disabled && (Codex() in w.foreign || Codex() !in w.left) then {Codex()} else {})
  {
    Flags(disabled);
  }

  lemma Flags(disabled: bool)
    ensures Listed([File(Codex(), disabled)], Codex(), disabled) && !Listed([File(Codex(), disabled)], Codex(), !disabled)
    ensures DisabledIn([File(Codex(), disabled)]) == if disabled then {Codex()} else {}
  {
    assert [File(Codex(), disabled)][0] == File(Codex(), disabled);
  }

  lemma NothingOwned(u: Row)
    ensures FindOwned([], u) == Nothing
  {
  }

  /** Two operations: the recorded candidate, then one more. */
  ghost predicate Then(raced: bool, op: Op, after: World) {
    Run({Codex()}, [Accept(Limited(), Recording(raced)), op], [Start(), Disabled(raced), after])
  }

  lemma SecondStep(raced: bool, op: Op)
    requires PossibleOp({Codex()}, op)
    ensures Then(raced, op, Step(Disabled(raced), op)) && Invariant({Codex()}, Disabled(raced)) && Distinguishable({Codex()})
  {
    hide Handle, Invariant, Step, PossibleCandidate, PossibleRecovery;
    RunStarts();
    RecordedIs(raced);
    StepAccepts(Recording(raced));
    Attempted(Done, Done, Done);
    RecordingIsPossible(raced);
    StepKeeps({Codex()}, Start(), Accept(Limited(), Recording(raced)));
    StepKeeps({Codex()}, Disabled(raced), op);
    ListingKept({Codex()}, Step(Disabled(raced), op));
    OneCredential();
  }

  lemma RecordingIsPossible(raced: bool)
    ensures PossibleOp({Codex()}, Accept(Limited(), Recording(raced)))
  {
    OneCredential();
  }

  lemma Covering()
    ensures Locates(Recorded(), Codex()) && Covered([Recorded()], Codex()) && !CoveredBeside([Recorded()], 0, Codex())
  {
    assert [Recorded()][0] == Recorded();
  }

  // ----- The mark is made and not confirmed -----

  function Unmarked(): RecoveryReplies {
    RecoveryReplies(true, true, "", At(true, Done), At(true, Done), At(false, Done), At(false, FailedButApplied),
      Undoing(At(false, Done), At(false, Done)))
  }

  /** The row is closed, the store says it is not, and the credential is disabled again. */
  lemma UnconfirmedMarkLoses()
    ensures var op := Confirm("auth.json", "7", true, Unmarked());
      Then(false, op, Step(Disabled(false), op)) && Lost(Step(Disabled(false), op), Codex())
  {
    var s, op := Unmarked(), Confirm("auth.json", "7", true, Unmarked());
    hide Invariant, Recover, Resolve, Then, Lost, Covered, CoveredBeside, Locates;
    OneCredential();
    SecondStep(false, op);
    Covering();
    DisabledNotLost();
    ConfirmedRecoversOwn(Disabled(false), "auth.json", "7", s, 0);
    Finds(true, s.look, RecoveryIdentity(Recorded(), s));
    Finds(false, s.verify, IdentityOf(Codex()));
    Finds(false, s.undo.look, IdentityOf(Codex()));
    RecoverLosesExactly({Codex()}, Disabled(false), 0, Confirmed, s, Codex());
  }

  lemma DisabledNotLost()
    ensures !Lost(Disabled(false), Codex())
  {
    hide Locates;
    Covering();
  }

  // ----- A disable made by hand -----

  /** The replies to a recovery that succeeds; by hand, somebody enables the credential before it, and disables it again. */
  function Recovery(byHand: bool): RecoveryReplies {
    RecoveryReplies(true, true, "", Reply(Meanwhile([File(Codex(), true)], if byHand then {Codex()} else {}, {}), Done, true),
      At(true, Done), At(false, Done), At(false, Done), Undoing(At(false, Done), At(false, Done)))
  }

  function DueTick(byHand: bool): Op {
    Tick(10, true, seq(DUE_LIMIT, _ => Recovery(byHand)))
  }

  lemma OneDue(raced: bool)
    ensures ListDue(Disabled(raced).rows, 10) == [0]
  {
    hide InOrder;
    var rows := Disabled(raced).rows;
    assert rows[..0] == [];
    assert Ids(rows[..0], DueBy(10)) == [];
    assert Ids(rows, DueBy(10)) == [0];
    OnlyOrder(rows, InOrder(rows, [0]));
  }

  lemma OnlyOrder(rows: seq<Row>, r: seq<nat>)
    requires multiset(r) == multiset([0])
    ensures r == [0]
  {
    assert |r| == |multiset(r)| == 1;
    assert r[0] in multiset(r);
  }

  lemma TickOfOne(w: World, now: int, replies: seq<RecoveryReplies>)
    requires |w.accepted| == |w.rows| > 0 && |replies| > 0
    ensures EnableEach(w, [0], now, replies) == Recover(w, 0, Timer(now), replies[0])
  {
    hide Recover;
    RecoverOnlyMarks(w, 0, Timer(now), replies[0]);
    assert [0][1..] == [];
  }

  lemma DueTicks(raced: bool, byHand: bool)
    ensures Step(Disabled(raced), DueTick(byHand)) == Recover(Disabled(raced), 0, Timer(10), Recovery(byHand))
  {
    hide Recover, EnableEach, ListDue;
    OneDue(raced);
    TickOfOne(Disabled(raced), 10, seq(DUE_LIMIT, _ => Recovery(byHand)));
  }

  lemma EnabledByTick(raced: bool, byHand: bool)
    ensures var w, s := Disabled(raced), Recovery(byHand);
      && Enables(w, 0, s) && Recovering(w, 0, s) == Target(File(Codex(), true))
      && Recover(w, 0, Timer(10), s).log == w.log + [Saw(Codex(), true), Enable(Codex(), Timer(10)), Saw(Codex(), false)]
  {
    var w, s := Disabled(raced), Recovery(byHand);
    hide Invariant, Resolve, Locates, Confirms, Recover;
    SecondStep(raced, Confirm("", "", false, s));
    OneCredential();
    Finds(true, s.look, RecoveryIdentity(Recorded(), s));
    ConfirmedAgain(byHand);
    RecoveryCompletes({Codex()}, w, 0, Timer(10), s);
  }

  lemma ConfirmedAgain(byHand: bool)
    ensures Confirms(Codex(), Recovery(byHand))
  {
    hide Resolve;
    Finds(false, Recovery(byHand).verify, IdentityOf(Codex()));
  }

  /** Somebody else's disable is in force at the request exactly when one was made. */
  lemma ForeignAtRequest(raced: bool, byHand: bool)
    ensures var w, s := Disabled(raced), Recovery(byHand);
      ByOthers(Look(w, RecoveryIdentity(Recorded(), s), s.look), s.patch.meanwhile, Codex()) <==> raced || byHand
  {
    hide Resolve;
    var w, s := Disabled(raced), Recovery(byHand);
    LookIs(w, RecoveryIdentity(Recorded(), s), s.look);
    Flags(true);
    hide Look;
  }

  lemma RecoveryUndoes(raced: bool, byHand: bool)
    ensures Codex() in Recover(Disabled(raced), 0, Timer(10), Recovery(byHand)).undone <==> raced || byHand
  {
    hide Recover, Look, ByOthers, Enables, Recovering, RecoveryIdentity;
    EnabledByTick(raced, byHand);
    RecoverUndoesExactly(Disabled(raced), 0, Timer(10), Recovery(byHand), Codex());
    ForeignAtRequest(raced, byHand);
  }

  lemma DueTickPossible(byHand: bool)
    ensures PossibleOp({Codex()}, DueTick(byHand))
  {
    OneCredential();
  }

  /** The run of a candidate and a tick: it undoes a disable by somebody else exactly when there is one. */
  lemma TickTakesAway(raced: bool, byHand: bool)
    ensures var op := DueTick(byHand);
      && Then(raced, op, Step(Disabled(raced), op))
      && (Codex() in Step(Disabled(raced), op).undone <==> raced || byHand)
      && Step(Disabled(raced), op).log
         == [Saw(Codex(), false), Disable(Codex(), Done), Saw(Codex(), true), Enable(Codex(), Timer(10)), Saw(Codex(), false)]
  {
    hide Then, PossibleOp, Recover, Step, DueTick, Recovery, Codex, Enables, Recovering, Invariant, Distinguishable;
    DueTickPossible(byHand);
    SecondStep(raced, DueTick(byHand));
    DueTicks(raced, byHand);
    EnabledByTick(raced, byHand);
    RecoveryUndoes(raced, byHand);
  }

  /** After the worker's disable somebody enables the credential and disables it again; the tick enables it all the same. */
  lemma DisableByHandIsUndone()
    ensures var op := DueTick(true); Then(false, op, Step(Disabled(false), op)) && Codex() in Step(Disabled(false), op).undone
  {
    hide *;
    TickTakesAway(false, true);
  }

  /** The look shows the credential enabled, somebody disables it before the worker's request does; the tick enables it all the same. */
  lemma RacingDisableIsUndone()
    ensures var op := DueTick(false); Then(true, op, Step(Disabled(true), op)) && Codex() in Step(Disabled(true), op).undone
  {
    hide *;
    TickTakesAway(true, false);
  }
}
