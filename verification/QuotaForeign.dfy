/**
  Disables that the quota cooldown worker did not make. It takes one away
  exactly when one of its enables, whose guard only looks at the listing, is
  applied while somebody else's disable is in force. It never does that to a
  credential that no active row belongs to: what was disabled before the worker
  looked stays disabled.
 */
module QuotaForeign {
  import opened QuotaWorld
  import opened QuotaCooldown
  import opened QuotaSafety
  import opened QuotaRuns
  import opened QuotaEffects
  import opened QuotaLosses

  // ----- When a disable by somebody else is undone -----

  lemma InForce(w: World, m: Meanwhile, c: Cred)
    ensures c in Interfere(w, m).foreign <==> ByOthers(w, m, c)
  {
    if Listed(m.files, c, true) { FlagInSet(m.files, c); }
  }

  lemma FlagInSet(files: seq<File>, c: Cred)
    requires Listed(files, c, true)
    ensures c in DisabledIn(files)
  {
    var i :| 0 <= i < |files| && files[i] == File(c, true);
    assert files[i] in files;
  }

  /** The enable is applied while a disable by somebody else is in force. */
  ghost predicate EnableUndoes(w: World, patch: Reply, c: Cred) {
    patch.call != Failed && ByOthers(w, patch.meanwhile, c)
  }

  ghost predicate RecoverUndoes(w: World, id: nat, s: RecoveryReplies, c: Cred)
    requires id < |w.rows|
  {
    && Enables(w, id, s) && Recovering(w, id, s).file.cred == c
    && EnableUndoes(Look(w, RecoveryIdentity(w.rows[id], s), s.look), s.patch, c)
  }

  lemma LookUndoesNone(w: World, want: Identity, reply: Reply)
    ensures Look(w, want, reply).undone == w.undone
  {
    hide Resolve, Listed;
  }

  lemma ReclaimUndoesNone(w: World, c: Cred, s: Undoing)
    ensures Reclaim(w, c, s).undone == w.undone
  {
    hide Resolve, Listed, SetFlag, Look;
    LookUndoesNone(w, IdentityOf(c), s.look);
  }

  lemma EnablingUndoesExactly(w: World, id: nat, c: Cred, cause: Cause, s: RecoveryReplies, d: Cred)
    requires id < |w.rows|
    ensures d in Enabling(w, id, c, cause, s).undone <==> d in w.undone || (d == c && EnableUndoes(w, s.patch, c))
  {
    hide Resolve, Listed, SetFlag, Look, Reclaim, ByOthers, DisabledIn;
    InForce(w, s.patch.meanwhile, c);
    var patched := PatchEnable(Interfere(w, s.patch.meanwhile), c, cause, s.patch.call);
    LookUndoesNone(patched, IdentityOf(c), s.verify);
    LookIs(patched, IdentityOf(c), s.verify);
    var looked := Look(patched, IdentityOf(c), s.verify);
    ReclaimUndoesNone(Mark(looked, id, Recovered, s.mark.call), c, s.undo);
  }

  /** A recovery undoes somebody else's disable exactly when it enables a credential one is in force for at the request. */
  lemma RecoverUndoesExactly(w: World, id: nat, cause: Cause, s: RecoveryReplies, c: Cred)
    requires id < |w.rows|
    ensures c in Recover(w, id, cause, s).undone <==> c in w.undone || RecoverUndoes(w, id, s, c)
  {
    hide Resolve, Listed, Recoverable, RecoveryIdentity, Enabling, Look, EnableUndoes;
    var want := RecoveryIdentity(w.rows[id], s);
    LookIs(w, want, s.look);
    LookUndoesNone(w, want, s.look);
    var looked := Look(w, want, s.look);
    var found := Resolve(looked.files, want, s.look);
    if Enables(w, id, s) { EnablingUndoesExactly(looked, id, found.file.cred, cause, s, c); }
  }

  /** The world in which a candidate's row could not be stored. */
  ghost function Unrecorded(w: World, cand: Candidate, s: CandidateReplies): World
    requires |w.accepted| == |w.rows| && TargetOf(cand, s).Target?
  {
    Saved(Seen(w, cand, s), cand, TargetOf(cand, s).file.cred, s).0
  }

  ghost function Seen(w: World, cand: Candidate, s: CandidateReplies): (r: World)
    ensures r.accepted == w.accepted && r.rows == w.rows && r.undone == w.undone
  {
    LookIs(w, Wanted(cand, s), s.look);
    LookUndoesNone(w, Wanted(cand, s), s.look);
    Look(w, Wanted(cand, s), s.look)
  }

  /** The rollback of a disable that was not recorded finds a credential and enables it. */
  ghost predicate HandleUndoes(w: World, cand: Candidate, s: CandidateReplies, c: Cred)
    requires |w.accepted| == |w.rows|
  {
    && Attempts(cand, s) && s.patch.call == Done
    && var d := TargetOf(cand, s).file.cred;
    && !Saved(Seen(w, cand, s), cand, d, s).1
    && var found := Resolve(s.undo.look.meanwhile.files, IdentityOf(d), s.undo.look);
    && found.Target? && found.file.cred == c
    && EnableUndoes(Look(Unrecorded(w, cand, s), IdentityOf(d), s.undo.look), s.undo.patch, c)
  }

  lemma RollBackUndoesExactly(w: World, d: Cred, s: Undoing, c: Cred)
    ensures c in RollBack(w, d, s).undone
      <==> c in w.undone
           || (var found := Resolve(s.look.meanwhile.files, IdentityOf(d), s.look);
               found.Target? && found.file.cred == c && EnableUndoes(Look(w, IdentityOf(d), s.look), s.patch, c))
  {
    hide Resolve, Listed, SetFlag, Look, ByOthers, DisabledIn;
    LookIs(w, IdentityOf(d), s.look);
    LookUndoesNone(w, IdentityOf(d), s.look);
    InForce(Look(w, IdentityOf(d), s.look), s.patch.meanwhile, c);
  }

  lemma SavedUndoesNone(w: World, cand: Candidate, c: Cred, s: CandidateReplies)
    requires |w.accepted| == |w.rows|
    ensures Patched(w, c, s).undone == w.undone && Saved(w, cand, c, s).0.undone == w.undone
  {
    hide Listed, SetFlag, NewRow, Store;
  }

  lemma ExtendUndoesNone(w: World, cand: Candidate, c: Cred, s: CandidateReplies)
    requires |w.accepted| == |w.rows|
    ensures Extend(w, cand, c, s).undone == w.undone
  {
    hide Listed, ListActive, KnownAccount, Merged, Matches, Store, FirstOwned;
  }

  /** A candidate undoes somebody else's disable exactly when its rollback enables a credential one is in force for. */
  lemma HandleUndoesExactly(w: World, cand: Candidate, s: CandidateReplies, c: Cred)
    requires |w.accepted| == |w.rows|
    ensures c in Handle(w, cand, s).undone <==> c in w.undone || HandleUndoes(w, cand, s, c)
  {
    hide Resolve, Wanted, NewRow, Stable, Look, Extend, Patched, Saved, RollBack, EnableUndoes;
    LookIs(w, Wanted(cand, s), s.look);
    LookUndoesNone(w, Wanted(cand, s), s.look);
    if TargetOf(cand, s).Target? {
      var d := TargetOf(cand, s).file.cred;
      ExtendUndoesNone(Seen(w, cand, s), cand, d, s);
      SavedUndoesNone(Seen(w, cand, s), cand, d, s);
      RollBackUndoesExactly(Unrecorded(w, cand, s), d, s.undo, c);
    }
  }

  /** Some recovery of the tick undoes such a disable. */
  ghost predicate TickUndoes(w: World, due: seq<nat>, now: int, replies: seq<RecoveryReplies>, c: Cred)
    requires |w.accepted| == |w.rows| && |due| <= |replies|
    requires forall i | 0 <= i < |due| :: due[i] < |w.rows|
    decreases |due|
  {
    && |due| > 0
    && (RecoverUndoes(w, due[0], replies[0], c)
        || (RecoverOnlyMarks(w, due[0], Timer(now), replies[0]);
            TickUndoes(Recover(w, due[0], Timer(now), replies[0]), due[1..], now, replies[1..], c)))
  }

  ghost predicate OpUndoes(w: World, op: Op, c: Cred)
    requires |w.accepted| == |w.rows| && (op.Tick? ==> |op.replies| >= DUE_LIMIT)
  {
    match op
    case Accept(cand, s) => HandleUndoes(w, cand, s, c)
    case Tick(now, listed, replies) =>
      DueFacts(w.rows, now);
      listed && TickUndoes(w, ListDue(w.rows, now), now, replies, c)
    case Confirm(file, index, listed, s) =>
      var owned := OwnedBy(w.rows, file, index);
      file != "" && index != "" && listed && |owned| == 1 && RecoverUndoes(w, owned[0], s, c)
  }

  lemma {:induction false} EachUndoesExactly(w: World, due: seq<nat>, now: int, replies: seq<RecoveryReplies>, c: Cred)
    requires |w.accepted| == |w.rows| && |due| <= |replies|
    requires forall i | 0 <= i < |due| :: due[i] < |w.rows|
    ensures c in EnableEach(w, due, now, replies).undone <==> c in w.undone || TickUndoes(w, due, now, replies, c)
    decreases |due|
  {
    hide Recover, RecoverUndoes;
    if |due| > 0 {
      RecoverOnlyMarks(w, due[0], Timer(now), replies[0]);
      RecoverUndoesExactly(w, due[0], Timer(now), replies[0], c);
      EachUndoesExactly(Recover(w, due[0], Timer(now), replies[0]), due[1..], now, replies[1..], c);
    }
  }

  lemma StepUndoesExactly(w: World, op: Op, c: Cred)
    requires |w.accepted| == |w.rows| && (op.Tick? ==> |op.replies| >= DUE_LIMIT)
    ensures c in Step(w, op).undone <==> c in w.undone || OpUndoes(w, op, c)
  {
    hide Recover, Handle, EnableEach, ListDue, HandleUndoes, RecoverUndoes, TickUndoes;
    match op
    case Accept(cand, s) => HandleUndoesExactly(w, cand, s, c);
    case Tick(now, listed, replies) =>
      DueFacts(w.rows, now);
      EachUndoesExactly(w, ListDue(w.rows, now), now, replies, c);
    case Confirm(file, index, listed, s) =>
      var owned := OwnedBy(w.rows, file, index);
      if |owned| == 1 { RecoverUndoesExactly(w, owned[0], Confirmed, s, c); }
  }

  /** Over a run the worker took somebody else's disable away from a credential exactly when one of its operations did. */
  lemma {:induction false} UndoesForeignDisableExactlyWhen(creds: set<Cred>, ops: seq<Op>, worlds: seq<World>, n: nat, c: Cred)
    requires Run(creds, ops, worlds) && n <= |ops|
    ensures c in worlds[n].undone <==> exists i :: 0 <= i < n && OpUndoes(worlds[i], ops[i], c)
  {
    hide PossibleOp, Step, OpUndoes;
    if n > 0 {
      UndoesForeignDisableExactlyWhen(creds, ops, worlds, n - 1, c);
      RunStep(creds, ops, worlds, n - 1);
      TickHasReplies(creds, ops[n - 1]);
      StepUndoesExactly(worlds[n - 1], ops[n - 1], c);
    }
  }

  lemma TickHasReplies(creds: set<Cred>, op: Op)
    requires PossibleOp(creds, op)
    ensures op.Tick? ==> |op.replies| >= DUE_LIMIT
  {
  }

  // ----- What was disabled before the worker looked -----

  /** Nobody enables the credential meanwhile. */
  ghost predicate Quiet(reply: Reply, c: Cred) {
    Undisturbed(reply.meanwhile, c)
  }

  ghost predicate QuietUndo(s: Undoing, c: Cred) {
    Quiet(s.look, c) && Quiet(s.patch, c)
  }

  ghost predicate QuietCandidate(s: CandidateReplies, c: Cred) {
    Quiet(s.look, c) && Quiet(s.patch, c) && Quiet(s.save, c) && QuietUndo(s.undo, c)
  }

  ghost predicate QuietRecovery(s: RecoveryReplies, c: Cred) {
    Quiet(s.look, c) && Quiet(s.patch, c) && Quiet(s.verify, c) && QuietUndo(s.undo, c)
  }

  ghost predicate QuietOp(op: Op, c: Cred) {
    match op
    case Accept(_, s) => QuietCandidate(s, c)
    case Tick(_, _, replies) => forall i | 0 <= i < |replies| :: QuietRecovery(replies[i], c)
    case Confirm(_, _, _, s) => QuietRecovery(s, c)
  }

  /** The credential is not enabled, and no active row belongs to it. */
  ghost predicate Aside(w: World, c: Cred) {
    !Listed(w.files, c, false) && forall id | 0 <= id < |w.rows| && w.rows[id].status == Active :: !Locates(w.rows[id], c)
  }

  /** It still is, and the worker asked for no enable of it. */
  ghost predicate StaysAside(w: World, after: World, c: Cred) {
    Aside(after, c) && w.log <= after.log && forall i | |w.log| <= i < |after.log| && after.log[i].Enable? :: after.log[i].cred != c
  }

  lemma StaysAsideThen(w: World, v: World, u: World, c: Cred)
    requires StaysAside(w, v, c) && StaysAside(v, u, c)
    ensures StaysAside(w, u, c)
  {
    hide Aside;
    forall i | |w.log| <= i < |u.log| && u.log[i].Enable? ensures u.log[i].cred != c {
      if i < |v.log| { assert u.log[i] == v.log[i]; }
    }
  }

  lemma LookAside(w: World, want: Identity, reply: Reply, c: Cred)
    requires Aside(w, c) && Quiet(reply, c)
    ensures StaysAside(w, Look(w, want, reply), c)
  {
    hide Look, Resolve, Listed, Locates;
    LookIs(w, want, reply);
    LookLogs(w, want, reply);
  }

  lemma InterfereAside(w: World, m: Meanwhile, c: Cred)
    requires Aside(w, c) && Undisturbed(m, c)
    ensures StaysAside(w, Interfere(w, m), c)
  {
    hide Listed, Locates;
  }

  lemma PatchAside(creds: set<Cred>, w: World, d: Cred, c: Cred, cause: Cause, call: Call)
    requires Listing(creds, w.files) && Aside(w, c) && d != c
    ensures StaysAside(w, PatchEnable(w, d, cause, call), c) && StaysAside(w, PatchDisable(w, d, call), c)
  {
    hide Listed, Locates, Listing, SetFlag;
    FlagFacts(creds, w.files, d, false);
    FlagFacts(creds, w.files, d, true);
  }

  lemma MarkAside(w: World, id: nat, status: Status, call: Call, c: Cred)
    requires id < |w.rows| && Aside(w, c) && status != Active
    ensures StaysAside(w, Mark(w, id, status, call), c)
  {
    hide Listed, Locates;
  }

  lemma ReclaimAside(creds: set<Cred>, w: World, d: Cred, s: Undoing, c: Cred)
    requires Distinguishable(creds) && PossibleUndo(creds, s) && d in creds && Firm(d) && d != c && Aside(w, c) && QuietUndo(s, c)
    ensures StaysAside(w, Reclaim(w, d, s), c) && StaysAside(w, RollBack(w, d, s), c)
  {
    hide Distinguishable, Listing, Firm, Aside, StaysAside, Resolve, Listed, Look, PatchDisable, PatchEnable, Interfere, IdentityOf, Undisturbed;
    LookIs(w, IdentityOf(d), s.look);
    LookAside(w, IdentityOf(d), s.look, c);
    var looked := Look(w, IdentityOf(d), s.look);
    AsideAfter(w, looked, c);
    if Resolve(looked.files, IdentityOf(d), s.look).Target? {
      FoundAgain(creds, looked.files, d, s.look);
      InterfereAside(looked, s.patch.meanwhile, c);
      var ready := Interfere(looked, s.patch.meanwhile);
      InterferedFiles(looked, s.patch.meanwhile);
      AsideAfter(looked, ready, c);
      PatchAside(creds, ready, d, c, Rollback, s.patch.call);
      StaysAsideThen(w, looked, ready, c);
      StaysAsideThen(w, ready, PatchDisable(ready, d, s.patch.call), c);
      StaysAsideThen(w, ready, PatchEnable(ready, d, Rollback, s.patch.call), c);
    }
  }

  lemma InterferedFiles(w: World, m: Meanwhile)
    ensures Interfere(w, m).files == m.files
  {
  }

  lemma AsideAfter(w: World, after: World, c: Cred)
    requires StaysAside(w, after, c)
    ensures Aside(after, c)
  {
  }

  lemma EnablingAside(creds: set<Cred>, w: World, id: nat, d: Cred, cause: Cause, s: RecoveryReplies, c: Cred)
    requires Distinguishable(creds) && PossibleRecovery(creds, s) && d in creds && Firm(d) && d != c
    requires id < |w.rows| && Aside(w, c) && QuietRecovery(s, c)
    ensures StaysAside(w, Enabling(w, id, d, cause, s), c)
  {
    hide Distinguishable, Listing, Firm, Aside, StaysAside, Resolve, Listed, Look, PatchEnable, Interfere, IdentityOf, Undisturbed, Mark, Reclaim,
         QuietUndo, PossibleUndo;
    InterfereAside(w, s.patch.meanwhile, c);
    InterfereLogs(w, s.patch.meanwhile);
    InterferedFiles(w, s.patch.meanwhile);
    var ready := Interfere(w, s.patch.meanwhile);
    AsideAfter(w, ready, c);
    PatchAside(creds, ready, d, c, cause, s.patch.call);
    var patched := PatchEnable(ready, d, cause, s.patch.call);
    StaysAsideThen(w, ready, patched, c);
    if s.patch.call == Done {
      AsideAfter(w, patched, c);
      PatchedRows(ready, d, cause, s.patch.call);
      LookAside(patched, IdentityOf(d), s.verify, c);
      LookIs(patched, IdentityOf(d), s.verify);
      var looked := Look(patched, IdentityOf(d), s.verify);
      StaysAsideThen(w, patched, looked, c);
      AsideAfter(w, looked, c);
      MarkAside(looked, id, Recovered, s.mark.call, c);
      var marked := Mark(looked, id, Recovered, s.mark.call);
      StaysAsideThen(w, looked, marked, c);
      AsideAfter(w, marked, c);
      ReclaimAside(creds, marked, d, s.undo, c);
      StaysAsideThen(w, marked, Reclaim(marked, d, s.undo), c);
    }
  }

  lemma PatchedRows(w: World, d: Cred, cause: Cause, call: Call)
    ensures PatchEnable(w, d, cause, call).rows == w.rows
  {
  }

  lemma StaysAsideStill(w: World, c: Cred)
    requires Aside(w, c)
    ensures StaysAside(w, w, c)
  {
  }

  lemma RecoverAside(creds: set<Cred>, w: World, id: nat, cause: Cause, s: RecoveryReplies, c: Cred)
    requires Invariant(creds, w) && PossibleRecovery(creds, s) && id < |w.rows| && w.rows[id].status == Active
    requires Aside(w, c) && QuietRecovery(s, c)
    ensures StaysAside(w, Recover(w, id, cause, s), c)
  {
    hide Invariant, Distinguishable, Listing, Firm, StaysAside, Resolve, Listed, Look, Enabling, RecoveryIdentity, Recoverable, Mark, Undisturbed,
         QuietUndo, PossibleUndo, Locates;
    var d := RowOwner(creds, w, id);
    ListingKept(creds, w);
    var want := RecoveryIdentity(w.rows[id], s);
    StaysAsideStill(w, c);
    MarkAside(w, id, Skipped, s.mark.call, c);
    LookAside(w, want, s.look, c);
    LookIs(w, want, s.look);
    var looked := Look(w, want, s.look);
    AsideAfter(w, looked, c);
    MarkAside(looked, id, Skipped, s.mark.call, c);
    MarkAside(looked, id, Recovered, s.mark.call, c);
    StaysAsideThen(w, looked, Mark(looked, id, Skipped, s.mark.call), c);
    StaysAsideThen(w, looked, Mark(looked, id, Recovered, s.mark.call), c);
    if Recoverable(w.rows[id], s) && Resolve(looked.files, want, s.look).Target? {
      RowFindsItsCredential(creds, looked.files, w.rows[id], d, s);
      EnablingAside(creds, looked, id, d, cause, s, c);
      StaysAsideThen(w, looked, Enabling(looked, id, d, cause, s), c);
    }
  }

  /** Storing a row of another credential. */
  lemma UpsertAside(creds: set<Cred>, w: World, u: Row, observed: bool, d: Cred, cand: Candidate, call: Call, c: Cred)
    requires Distinguishable(creds) && d in creds && c in creds && d != c && Names(u, d) && |w.accepted| == |w.rows| && Aside(w, c)
    ensures StaysAside(w, Upsert(w, u, observed, cand, call).0, c)
  {
    hide Distinguishable, Listed, FindOwned, Locates, FirstEvidence, Stable;
    var stored := u.(snapshot := Snapshot(u.file, u.snapshot));
    if Locates(stored, c) { LocatesOne(creds, stored, c, d); }
    NotLocated(stored, c);
    OwnedFile(w.rows, stored);
    forall r: Row ensures Locates(r.(status := Recovered), c) == Locates(r, c) { StatusAside(r, r.(status := Recovered), c); }
  }

  /** A row with the same attributes as one that does not locate the credential does not either. */
  lemma NotLocated(u: Row, c: Cred)
    requires !Locates(u, c)
    ensures !Locates(u.(status := Active), c)
    ensures forall r: Row | r.file == u.file && r.index == u.index && r.provider == u.provider && r.snapshot == u.snapshot :: !Locates(r, c)
  {
  }

  lemma OwnedFile(rows: seq<Row>, u: Row)
    ensures FindOwned(rows, u).One? ==> rows[FindOwned(rows, u).id].file == u.file
  {
    hide Ids;
  }

  lemma DisablingAside(creds: set<Cred>, w: World, cand: Candidate, d: Cred, s: CandidateReplies, c: Cred)
    requires Distinguishable(creds) && PossibleCandidate(creds, s) && |w.accepted| == |w.rows|
    requires d in creds && c in creds && d != c && Firm(d) && Names(NewRow(cand, d, s), d)
    requires Aside(w, c) && QuietCandidate(s, c)
    ensures StaysAside(w, Disabling(w, cand, d, s), c)
  {
    hide Distinguishable, Listing, Firm, Names, NewRow, Aside, StaysAside, Interfere, PatchDisable, Upsert, RollBack, Undisturbed, QuietUndo, PossibleUndo;
    InterfereAside(w, s.patch.meanwhile, c);
    InterfereLogs(w, s.patch.meanwhile);
    InterferedFiles(w, s.patch.meanwhile);
    var ready := Interfere(w, s.patch.meanwhile);
    AsideAfter(w, ready, c);
    PatchAside(creds, ready, d, c, Rollback, s.patch.call);
    DisabledTable(ready, d, s.patch.call);
    var patched := PatchDisable(ready, d, s.patch.call);
    StaysAsideThen(w, ready, patched, c);
    if s.patch.call == Done {
      AsideAfter(w, patched, c);
      InterfereAside(patched, s.save.meanwhile, c);
      InterfereLogs(patched, s.save.meanwhile);
      var before := Interfere(patched, s.save.meanwhile);
      StaysAsideThen(w, patched, before, c);
      AsideAfter(w, before, c);
      UpsertAside(creds, before, NewRow(cand, d, s), true, d, cand, s.save.call, c);
      var saved := Upsert(before, NewRow(cand, d, s), true, cand, s.save.call).0;
      StaysAsideThen(w, before, saved, c);
      AsideAfter(w, saved, c);
      ReclaimAside(creds, saved, d, s.undo, c);
      StaysAsideThen(w, saved, RollBack(saved, d, s.undo), c);
    }
  }

  lemma DisabledTable(w: World, d: Cred, call: Call)
    ensures PatchDisable(w, d, call).rows == w.rows && PatchDisable(w, d, call).accepted == w.accepted
  {
  }

  lemma ExtendAside(creds: set<Cred>, w: World, cand: Candidate, s: CandidateReplies, c: Cred)
    requires Invariant(creds, w) && PossibleCandidate(creds, s) && Acceptable(cand, s) && c in creds
    requires Resolve(w.files, Wanted(cand, s), s.look).Target? && Aside(w, c) && QuietCandidate(s, c)
    ensures |w.accepted| == |w.rows|
    ensures StaysAside(w, Extend(w, cand, Resolve(w.files, Wanted(cand, s), s.look).file.cred, s), c)
  {
    hide Invariant, Resolve, Earned, Names, Upsert, Merged, Wanted, Acceptable, Matches, Listed, KnownAccount, InOrder, Distinguishable,
         Locates, StaysAside, Interfere, Undisturbed;
    ListingKept(creds, w);
    StaysAsideStill(w, c);
    var d := Resolve(w.files, Wanted(cand, s), s.look).file.cred;
    TargetFacts(creds, w.files, Wanted(cand, s), s.look);
    var index, provider := First(d.index, cand.index), First(d.provider, cand.provider);
    var snapshot := KnownAccount(provider, Snapshot(cand.file, cand.snapshot), d, s);
    var found := FirstOwned(w.rows, ListActive(w.rows), cand, index, provider, snapshot, s.agrees);
    if found.Some? {
      var id := found.value;
      ActiveListed(w.rows, id);
      OwnedKept(creds, w, id);
      MatchAgrees(w.rows[id], index, provider, snapshot, id in s.agrees);
      OwnedRowLocates(creds, w.log, w.files, cand, s, w.rows[id], id in s.agrees);
      assert d != c;
      InterfereAside(w, s.save.meanwhile, c);
      InterfereLogs(w, s.save.meanwhile);
      var before := Interfere(w, s.save.meanwhile);
      AsideAfter(w, before, c);
      var u := Merged(w.rows[id], cand, d, provider, snapshot);
      UpsertAside(creds, before, u, false, d, cand, s.save.call, c);
      StaysAsideThen(w, before, Upsert(before, u, false, cand, s.save.call).0, c);
    }
  }

  lemma HandleAside(creds: set<Cred>, w: World, cand: Candidate, s: CandidateReplies, c: Cred)
    requires Invariant(creds, w) && PossibleCandidate(creds, s) && c in creds && Aside(w, c) && QuietCandidate(s, c)
    ensures |w.accepted| == |w.rows| && StaysAside(w, Handle(w, cand, s), c)
  {
    hide Invariant, Resolve, Names, Exact, Wanted, NewRow, Acceptable, Listed, Disabling, Extend, Stable, Distinguishable, Look, StaysAside,
         Locates, Undisturbed, QuietUndo, PossibleUndo, Firm;
    ListingKept(creds, w);
    StaysAsideStill(w, c);
    if Acceptable(cand, s) {
      LookKeeps(creds, w, Wanted(cand, s), s.look);
      LookIs(w, Wanted(cand, s), s.look);
      LookAside(w, Wanted(cand, s), s.look, c);
      var looked := Look(w, Wanted(cand, s), s.look);
      AsideAfter(w, looked, c);
      ListingKept(creds, looked);
      if Resolve(looked.files, Wanted(cand, s), s.look).Target? {
        var file := Resolve(looked.files, Wanted(cand, s), s.look).file;
        TargetFacts(creds, looked.files, Wanted(cand, s), s.look);
        NewRowLocates(creds, looked.files, cand, s);
        if file.disabled {
          ExtendAside(creds, looked, cand, s, c);
          StaysAsideThen(w, looked, Extend(looked, cand, file.cred, s), c);
        } else if Stable(NewRow(cand, file.cred, s)) {
          DisablingAside(creds, looked, cand, file.cred, s, c);
          StaysAsideThen(w, looked, Disabling(looked, cand, file.cred, s), c);
        }
      }
    }
  }

  lemma {:induction false} EachAside(creds: set<Cred>, w: World, due: seq<nat>, now: int, replies: seq<RecoveryReplies>, c: Cred)
    requires Invariant(creds, w) && |due| <= |replies| && Aside(w, c)
    requires forall i | 0 <= i < |replies| :: PossibleRecovery(creds, replies[i]) && QuietRecovery(replies[i], c)
    requires forall i | 0 <= i < |due| :: due[i] < |w.rows| && w.rows[due[i]].status == Active
    requires forall i, j | 0 <= i < j < |due| :: due[i] != due[j]
    ensures |w.accepted| == |w.rows| && StaysAside(w, EnableEach(w, due, now, replies), c)
    decreases |due|
  {
    hide Invariant, Recover, PossibleRecovery, QuietRecovery, Aside, StaysAside;
    ListingKept(creds, w);
    StaysAsideStill(w, c);
    if |due| > 0 {
      var next := Recover(w, due[0], Timer(now), replies[0]);
      RecoverKeeps(creds, w, due[0], Timer(now), replies[0]);
      RecoverOnlyMarks(w, due[0], Timer(now), replies[0]);
      RecoverAside(creds, w, due[0], Timer(now), replies[0], c);
      AsideAfter(w, next, c);
      EachAside(creds, next, due[1..], now, replies[1..], c);
      StaysAsideThen(w, next, EnableEach(next, due[1..], now, replies[1..]), c);
    }
  }

  lemma StepAside(creds: set<Cred>, w: World, op: Op, c: Cred)
    requires Invariant(creds, w) && PossibleOp(creds, op) && c in creds && Aside(w, c) && QuietOp(op, c)
    ensures |w.accepted| == |w.rows| && StaysAside(w, Step(w, op), c)
  {
    hide Invariant, Recover, Handle, EnableEach, PossibleRecovery, PossibleCandidate, QuietRecovery, QuietCandidate, ListDue, Aside, StaysAside;
    ListingKept(creds, w);
    StaysAsideStill(w, c);
    match op
    case Accept(cand, s) => HandleAside(creds, w, cand, s, c);
    case Tick(now, listed, replies) =>
      DueFacts(w.rows, now);
      EachAside(creds, w, ListDue(w.rows, now), now, replies, c);
    case Confirm(file, index, listed, s) =>
      var owned := OwnedBy(w.rows, file, index);
      if |owned| == 1 { RecoverAside(creds, w, owned[0], Confirmed, s, c); }
  }

  /**
    What the worker promises of disables it did not make: a credential that is
    not enabled and that no active row belongs to stays so, and is never asked to
    be enabled, for as long as nobody else enables it.
   */
  lemma {:induction false} UnownedDisablesStay(creds: set<Cred>, ops: seq<Op>, worlds: seq<World>, m: nat, n: nat, c: Cred)
    requires Distinguishable(creds) && Run(creds, ops, worlds) && m <= n <= |ops| && c in creds
    requires Aside(worlds[m], c) && forall i | m <= i < n :: QuietOp(ops[i], c)
    ensures StaysAside(worlds[m], worlds[n], c)
  {
    hide PossibleOp, QuietOp, Step, Aside, StaysAside, Distinguishable, Untouched;
    StaysAsideStill(worlds[m], c);
    if m < n {
      UnownedDisablesStay(creds, ops, worlds, m, n - 1, c);
      AsideAfter(worlds[m], worlds[n - 1], c);
      RunKeeps(creds, ops, worlds, n - 1);
      StepAside(creds, worlds[n - 1], ops[n - 1], c);
      StaysAsideThen(worlds[m], worlds[n - 1], worlds[n], c);
    }
  }
}
