/**
  When the quota cooldown worker loses a credential: leaves it disabled with no
  row of the table to recover it by. For a candidate and for a recovery the
  condition is exact, and over a run a credential without a row was lost by one
  of its operations. QuotaExamples has a run for each of the three causes.
 */
module QuotaLosses {
  import opened QuotaWorld
  import opened QuotaCooldown
  import opened QuotaSafety
  import opened QuotaRuns
  import opened QuotaEffects

  /** A disable of the worker is in force, and no row stands for it. */
  ghost predicate Lost(w: World, c: Cred) {
    c in w.left && !Covered(w.rows, c)
  }

  /** Nobody else enabled the credential meanwhile. */
  ghost predicate Undisturbed(m: Meanwhile, c: Cred) {
    c !in m.enabled && !Listed(m.files, c, false)
  }

  // ----- A candidate -----

  /** The table did not take the row. */
  ghost predicate Unstored(cand: Candidate, s: CandidateReplies) {
    s.save.call == Failed || cand.reset <= 0
  }

  /** The rollback does not find the credential, or the remote refuses to enable it. */
  ghost predicate RollbackFails(c: Cred, s: Undoing) {
    && Undisturbed(s.look.meanwhile, c)
    && (Resolve(s.look.meanwhile.files, IdentityOf(c), s.look).Target? ==>
      Undisturbed(s.patch.meanwhile, c) && s.patch.call == Failed)
  }

  /** The disable took effect without being confirmed, or was confirmed but neither recorded nor undone. */
  ghost predicate DisablingLoses(rows: seq<Row>, cand: Candidate, c: Cred, s: CandidateReplies) {
    && !Covered(rows, c)
    && (s.patch.call == FailedButApplied
        || (s.patch.call == Done && Unstored(cand, s) && Undisturbed(s.save.meanwhile, c) && RollbackFails(c, s.undo)))
  }

  /** The candidate leads to a disable. */
  ghost predicate Attempts(cand: Candidate, s: CandidateReplies) {
    && Acceptable(cand, s)
    && TargetOf(cand, s).Target? && !TargetOf(cand, s).file.disabled
    && var row := NewRow(cand, TargetOf(cand, s).file.cred, s);
    Stable(row) && (row.provider == "codex" ==> s.currentOk)
  }

  ghost predicate HandleLoses(w: World, cand: Candidate, s: CandidateReplies, c: Cred) {
    Attempts(cand, s) && TargetOf(cand, s).file.cred == c && DisablingLoses(w.rows, cand, c, s)
  }

  /** Rows that keep the place of every row which still stands for something. */
  lemma CoverKept(rows: seq<Row>, after: seq<Row>, d: Cred)
    requires |rows| <= |after| && Covered(rows, d)
    requires forall k | 0 <= k < |rows| && rows[k].status != Recovered && Locates(rows[k], d) ::
      after[k].status != Recovered && Locates(after[k], d)
    ensures Covered(after, d)
  {
    hide Locates;
    var k :| 0 <= k < |rows| && rows[k].status != Recovered && Locates(rows[k], d);
    assert after[k].status != Recovered && Locates(after[k], d);
  }

  lemma InsertCovers(creds: set<Cred>, w: World, u: Row, c: Cred, cand: Candidate, call: Call, d: Cred)
    requires Invariant(creds, w) && c in creds && d in creds && u.file != ""
    requires Names(u, c) && Exact(u, c) && u.status == Active
    ensures |w.accepted| == |w.rows|
    ensures var (after, ok) := Upsert(w, u, true, cand, call);
      && (ok <==> call == Done && u.recoverAt > 0)
      && after.left == w.left && after.files == w.files
      && (Covered(after.rows, d) <==> Covered(w.rows, d) || (d == c && call != Failed && u.recoverAt > 0))
  {
    hide Listed, LogSafe, Locates, Reflects, Distinguishable, Listing, FindOwned, Earned, Stable, Exact, LeftDisabled;
    var stored := u.(snapshot := Snapshot(u.file, u.snapshot));
    StoredExact(u, c);
    FindCredential(creds, w.log, w.rows, stored, c);
    var after := Upsert(w, u, true, cand, call).0;
    if call != Failed && u.recoverAt > 0 {
      var n := |w.rows|;
      assert after.rows[n] == stored && Locates(stored, c);
      InsertedCovers(creds, w.rows, after.rows, stored, c, d);
    }
  }

  lemma InsertedCovers(creds: set<Cred>, rows: seq<Row>, after: seq<Row>, u: Row, c: Cred, d: Cred)
    requires Distinguishable(creds) && c in creds && d in creds && |after| == |rows| + 1 && after[|rows|] == u
    requires u.status == Active && Locates(u, c)
    requires forall k | 0 <= k < |rows| && after[k] != rows[k] :: Locates(rows[k], c) && after[k] == rows[k].(status := Recovered)
    ensures Covered(after, d) <==> Covered(rows, d) || d == c
  {
    hide Locates, Distinguishable;
    if d == c {
      assert after[|rows|].status != Recovered && Locates(after[|rows|], c);
    } else {
      forall k | 0 <= k < |rows| && Locates(rows[k], d) ensures after[k] == rows[k] {
        if after[k] != rows[k] { LocatesOne(creds, rows[k], c, d); }
      }
      if Covered(rows, d) { CoverKept(rows, after, d); }
      if Covered(after, d) {
        var k :| 0 <= k < |after| && after[k].status != Recovered && Locates(after[k], d);
        if k == |rows| { LocatesOne(creds, u, c, d); }
        StatusAside(after[k], if k < |rows| then rows[k] else u, d);
        assert after[k] == rows[k];
      }
    }
  }

  /** Who is left disabled after a rollback. */
  lemma RollBackLeaves(creds: set<Cred>, w: World, c: Cred, s: Undoing, d: Cred)
    requires Distinguishable(creds) && PossibleUndo(creds, s) && c in creds && Firm(c)
    ensures RollBack(w, c, s).rows == w.rows
    ensures d in RollBack(w, c, s).left ==> d in w.left
    ensures c in RollBack(w, c, s).left <==> c in w.left && RollbackFails(c, s)
  {
    hide Resolve, Listed, SetFlag, Firm, Distinguishable, IdentityOf, Listing, Look;
    LookIs(w, IdentityOf(c), s.look);
    var looked := Look(w, IdentityOf(c), s.look);
    if Resolve(looked.files, IdentityOf(c), s.look).Target? {
      FoundAgain(creds, looked.files, c, s.look);
    }
  }

  lemma DisablingLosesExactly(creds: set<Cred>, w: World, cand: Candidate, c: Cred, s: CandidateReplies, d: Cred)
    requires Invariant(creds, w) && c in creds && Firm(c) && PossibleCandidate(creds, s) && Proper(cand) && cand.file != ""
    requires Names(NewRow(cand, c, s), c) && Exact(NewRow(cand, c, s), c) && JustSeen(w.log, c) && !Lost(w, d)
    ensures |w.accepted| == |w.rows|
    ensures Lost(Disabling(w, cand, c, s), d) <==> d == c && DisablingLoses(w.rows, cand, c, s)
  {
    hide Invariant, Earned, Firm, Names, Exact, Listed, Upsert, SetFlag, RollBack, KnownAccount, Wanted, Covered, Resolve, Stable;
    ListingKept(creds, w);
    DisablingKeeps(creds, w, cand, c, s);
    LeftKnown(creds, Disabling(w, cand, c, s), d);
    if d in creds {
      InterfereKeeps(creds, w, s.patch.meanwhile);
      DisableKeeps(creds, Interfere(w, s.patch.meanwhile), c, s.patch.call);
      var patched := Patched(w, c, s);
      if s.patch.call == Done {
        InterfereKeeps(creds, patched, s.save.meanwhile);
        var ready := Interfere(patched, s.save.meanwhile);
        InsertCovers(creds, ready, NewRow(cand, c, s), c, cand, s.save.call, d);
        RollBackLeaves(creds, Saved(w, cand, c, s).0, c, s.undo, d);
      }
    }
  }

  lemma LeftKnown(creds: set<Cred>, w: World, d: Cred)
    requires Invariant(creds, w)
    ensures d in w.left ==> d in creds
  {
  }

  /** Extending a cooldown, or finding none to extend, loses nobody. */
  lemma ExtendLosesNone(creds: set<Cred>, w: World, cand: Candidate, s: CandidateReplies, d: Cred)
    requires Invariant(creds, w) && PossibleCandidate(creds, s) && Proper(cand) && Acceptable(cand, s)
    requires Resolve(w.files, Wanted(cand, s), s.look).Target? && !Lost(w, d)
    ensures |w.accepted| == |w.rows|
    ensures !Lost(Extend(w, cand, Resolve(w.files, Wanted(cand, s), s.look).file.cred, s), d)
  {
    hide Invariant, Resolve, Earned, Names, Upsert, Merged, Wanted, Acceptable, Matches, Listed, KnownAccount, InOrder,
         Distinguishable, Covered;
    ListingKept(creds, w);
    var c := Resolve(w.files, Wanted(cand, s), s.look).file.cred;
    ExtendKeeps(creds, w, cand, s);
    LeftKnown(creds, Extend(w, cand, c, s), d);
    TargetFacts(creds, w.files, Wanted(cand, s), s.look);
    var index, provider := First(c.index, cand.index), First(c.provider, cand.provider);
    var snapshot := KnownAccount(provider, Snapshot(cand.file, cand.snapshot), c, s);
    var found := FirstOwned(w.rows, ListActive(w.rows), cand, index, provider, snapshot, s.agrees);
    if d in creds && found.Some? {
      var id := found.value;
      ActiveListed(w.rows, id);
      OwnedKept(creds, w, id);
      MatchAgrees(w.rows[id], index, provider, snapshot, id in s.agrees);
      OwnedRowLocates(creds, w.log, w.files, cand, s, w.rows[id], id in s.agrees);
      InterfereKeeps(creds, w, s.save.meanwhile);
      MergedRow(w.rows[id], cand, c, provider, snapshot);
      UpdateCovers(creds, Interfere(w, s.save.meanwhile), id, c, cand, Merged(w.rows[id], cand, c, provider, snapshot), s.save.call, d);
    }
  }

  lemma UpdateCovers(creds: set<Cred>, w: World, id: nat, c: Cred, cand: Candidate, u: Row, call: Call, d: Cred)
    requires Invariant(creds, w) && id < |w.rows| && w.rows[id].status == Active && c in creds && d in creds
    requires Locates(w.rows[id], c) && u.owner == w.rows[id].owner && Names(u, c)
    ensures |w.accepted| == |w.rows|
    ensures Upsert(w, u, false, cand, call).0.left == w.left
    ensures Covered(w.rows, d) ==> Covered(Upsert(w, u, false, cand, call).0.rows, d)
  {
    hide Listed, LogSafe, Locates, Reflects, Distinguishable, Listing, FindOwned, Earned, Stable, Covered, FirstEvidence;
    var stored := u.(snapshot := Snapshot(u.file, u.snapshot));
    NamesStored(u, c);
    if call != Failed && stored.file != "" && stored.recoverAt > 0 && Covered(w.rows, d) {
      FindCredential(creds, w.log, w.rows, stored, c);
      SoloRow(creds, w.rows, id, FindOwned(w.rows, stored), stored, c);
      var after := Upsert(w, u, false, cand, call).0.rows;
      assert after[id].file == w.rows[id].file == stored.file by { SameFile(w.rows[id], c); SameFile(stored, c); }
      SameLocation(after[id], stored, c);
      forall k | 0 <= k < |w.rows| && w.rows[k].status != Recovered && Locates(w.rows[k], d)
        ensures after[k].status != Recovered && Locates(after[k], d)
      {
        if k == id { LocatesOne(creds, w.rows[id], c, d); }
      }
      CoverKept(w.rows, after, d);
    }
  }

  /** A candidate loses a credential exactly when its disable takes effect and is neither confirmed nor recorded nor undone. */
  lemma HandleLosesExactly(creds: set<Cred>, w: World, cand: Candidate, s: CandidateReplies, d: Cred)
    requires Invariant(creds, w) && PossibleCandidate(creds, s) && Proper(cand) && !Lost(w, d)
    ensures |w.accepted| == |w.rows|
    ensures Lost(Handle(w, cand, s), d) <==> HandleLoses(w, cand, s, d)
  {
    hide Invariant, Resolve, Names, Exact, Wanted, NewRow, Listed, Disabling, Extend, Stable, Distinguishable, Covered,
         DisablingLoses, Look;
    ListingKept(creds, w);
    if Acceptable(cand, s) {
      LookKeeps(creds, w, Wanted(cand, s), s.look);
      LookIs(w, Wanted(cand, s), s.look);
      var looked := Look(w, Wanted(cand, s), s.look);
      ListingKept(creds, looked);
      if TargetOf(cand, s).Target? {
        var c := TargetOf(cand, s).file.cred;
        TargetFacts(creds, looked.files, Wanted(cand, s), s.look);
        NewRowLocates(creds, looked.files, cand, s);
        ExtendLosesNone(creds, looked, cand, s, d);
        if Attempts(cand, s) { DisablingLosesExactly(creds, looked, cand, c, s, d); }
      }
    }
  }

  // ----- A recovery -----

  /** Another row than this one stands for the credential. */
  ghost predicate CoveredBeside(rows: seq<Row>, id: nat, c: Cred) {
    exists k :: 0 <= k < |rows| && k != id && rows[k].status != Recovered && Locates(rows[k], c)
  }

  /** The mark took effect without being confirmed, and the credential was disabled again. */
  ghost predicate RecoverLoses(w: World, id: nat, s: RecoveryReplies, c: Cred)
    requires id < |w.rows|
  {
    && Enables(w, id, s) && Recovering(w, id, s).file.cred == c && Confirms(c, s)
    && s.mark.call == FailedButApplied
    && Resolve(s.undo.look.meanwhile.files, IdentityOf(c), s.undo.look).Target? && s.undo.patch.call != Failed
    && !CoveredBeside(w.rows, id, c)
  }

  /** Marking a row leaves what other rows stand for, and, set aside, what this one does. */
  lemma MarkCovers(creds: set<Cred>, w: World, id: nat, status: Status, call: Call, c: Cred, d: Cred)
    requires Distinguishable(creds) && c in creds && d in creds && id < |w.rows| && Locates(w.rows[id], c)
    requires w.rows[id].status == Active && status != Active
    ensures var after := Mark(w, id, status, call);
      && after.left == w.left && after.files == w.files
      && (d != c || status == Skipped || call == Failed ==> (Covered(after.rows, d) <==> Covered(w.rows, d)))
      && (status == Recovered && call != Failed ==> (Covered(after.rows, c) <==> CoveredBeside(w.rows, id, c)))
  {
    hide Locates, Distinguishable;
    var after := Mark(w, id, status, call);
    forall k | 0 <= k < |w.rows|
      ensures Locates(after.rows[k], d) <==> Locates(w.rows[k], d)
      ensures Locates(after.rows[k], c) <==> Locates(w.rows[k], c)
    {
      StatusAside(w.rows[k], after.rows[k], d);
      StatusAside(w.rows[k], after.rows[k], c);
    }
    if d != c && Locates(w.rows[id], d) { LocatesOne(creds, w.rows[id], c, d); }
  }

  lemma ReclaimLeaves(creds: set<Cred>, w: World, c: Cred, s: Undoing, d: Cred)
    requires Distinguishable(creds) && PossibleUndo(creds, s) && c in creds && Firm(c) && c !in w.left
    ensures Reclaim(w, c, s).rows == w.rows
    ensures d != c && d in Reclaim(w, c, s).left ==> d in w.left
    ensures c in Reclaim(w, c, s).left
      <==> Resolve(s.look.meanwhile.files, IdentityOf(c), s.look).Target? && s.patch.call != Failed
  {
    hide Resolve, Listed, SetFlag, Firm, Distinguishable, IdentityOf, Listing, Look;
    LookIs(w, IdentityOf(c), s.look);
    var looked := Look(w, IdentityOf(c), s.look);
    if Resolve(looked.files, IdentityOf(c), s.look).Target? {
      FoundAgain(creds, looked.files, c, s.look);
    }
  }

  lemma EnablingLosesExactly(creds: set<Cred>, w: World, id: nat, c: Cred, cause: Cause, s: RecoveryReplies, d: Cred)
    requires Invariant(creds, w) && id < |w.rows| && w.rows[id].status == Active && PossibleRecovery(creds, s)
    requires c in creds && d in creds && Firm(c) && Locates(w.rows[id], c) && !Lost(w, d)
    ensures Lost(Enabling(w, id, c, cause, s), d)
      <==> d == c && Confirms(c, s) && s.mark.call == FailedButApplied && !CoveredBeside(w.rows, id, c)
           && Resolve(s.undo.look.meanwhile.files, IdentityOf(c), s.undo.look).Target? && s.undo.patch.call != Failed
  {
    hide Invariant, Resolve, Firm, IdentityOf, Locates, Listed, SetFlag, Reclaim, Distinguishable, Covered, CoveredBeside, Listing, Mark,
         Look;
    ListingKept(creds, w);
    var patched := PatchEnable(Interfere(w, s.patch.meanwhile), c, cause, s.patch.call);
    LookIs(patched, IdentityOf(c), s.verify);
    var looked := Look(patched, IdentityOf(c), s.verify);
    MarkCovers(creds, looked, id, Recovered, s.mark.call, c, d);
    var marked := Mark(looked, id, Recovered, s.mark.call);
    if s.patch.call == Done { ReclaimLeaves(creds, marked, c, s.undo, d); }
    RowCovers(w.rows, id, c);
  }

  lemma RowCovers(rows: seq<Row>, id: nat, c: Cred)
    requires id < |rows| && rows[id].status != Recovered && Locates(rows[id], c)
    ensures Covered(rows, c)
  {
    hide Locates;
  }

  /** A recovery loses a credential exactly when its row was closed unconfirmed and the disable that was to undo the enable took effect. */
  lemma RecoverLosesExactly(creds: set<Cred>, w: World, id: nat, cause: Cause, s: RecoveryReplies, d: Cred)
    requires Invariant(creds, w) && id < |w.rows| && w.rows[id].status == Active && PossibleRecovery(creds, s)
    requires !Lost(w, d)
    ensures Lost(Recover(w, id, cause, s), d) <==> RecoverLoses(w, id, s, d)
  {
    hide Invariant, Resolve, Firm, Locates, Listed, Earned, Enabling, Recoverable, RecoveryIdentity, Distinguishable, Covered,
         CoveredBeside, Mark, Confirms, Listing, IdentityOf, Look;
    var c := RowOwner(creds, w, id);
    RecoverKeeps(creds, w, id, cause, s);
    LeftKnown(creds, Recover(w, id, cause, s), d);
    ListingKept(creds, w);
    var row := w.rows[id];
    LookKeeps(creds, w, RecoveryIdentity(row, s), s.look);
    LookIs(w, RecoveryIdentity(row, s), s.look);
    var looked := Look(w, RecoveryIdentity(row, s), s.look);
    ListingKept(creds, looked);
    if Recoverable(row, s) && Recovering(w, id, s).Target? {
      RowFindsItsCredential(creds, looked.files, row, c, s);
      TargetFacts(creds, looked.files, RecoveryIdentity(row, s), s.look);
    }
    if d in creds {
      MarkCovers(creds, w, id, Skipped, s.mark.call, c, d);
      MarkCovers(creds, looked, id, Skipped, s.mark.call, c, d);
      MarkCovers(creds, looked, id, Recovered, s.mark.call, c, d);
      if Enables(w, id, s) {
        EnablingLosesExactly(creds, looked, id, c, cause, s, d);
      } else {
        LeftIsDisabled(creds, looked, c);
      }
    }
  }

  lemma LeftIsDisabled(creds: set<Cred>, w: World, c: Cred)
    requires Invariant(creds, w)
    ensures Listed(w.files, c, false) ==> c !in w.left
  {
  }

  // ----- Runs -----

  /** Some recovery of the tick loses the credential. */
  ghost predicate TickLoses(w: World, due: seq<nat>, now: int, replies: seq<RecoveryReplies>, c: Cred)
    requires |w.accepted| == |w.rows| && |due| <= |replies|
    requires forall i | 0 <= i < |due| :: due[i] < |w.rows|
    decreases |due|
  {
    && |due| > 0
    && (RecoverLoses(w, due[0], replies[0], c)
        || (RecoverOnlyMarks(w, due[0], Timer(now), replies[0]);
            TickLoses(Recover(w, due[0], Timer(now), replies[0]), due[1..], now, replies[1..], c)))
  }

  /** The operation loses the credential. */
  ghost predicate OpLoses(w: World, op: Op, c: Cred)
    requires |w.accepted| == |w.rows| && (op.Tick? ==> |op.replies| >= DUE_LIMIT)
  {
    match op
    case Accept(cand, s) => HandleLoses(w, cand, s, c)
    case Tick(now, listed, replies) =>
      DueFacts(w.rows, now);
      listed && TickLoses(w, ListDue(w.rows, now), now, replies, c)
    case Confirm(file, index, listed, s) =>
      var owned := OwnedBy(w.rows, file, index);
      file != "" && index != "" && listed && |owned| == 1 && RecoverLoses(w, owned[0], s, c)
  }

  lemma {:induction false} EnableEachLoses(creds: set<Cred>, w: World, due: seq<nat>, now: int, replies: seq<RecoveryReplies>, c: Cred)
    requires Invariant(creds, w) && |due| <= |replies| && !Lost(w, c)
    requires forall i | 0 <= i < |replies| :: PossibleRecovery(creds, replies[i])
    requires forall i | 0 <= i < |due| :: due[i] < |w.rows| && w.rows[due[i]].status == Active && w.rows[due[i]].recoverAt <= now
    requires forall i, j | 0 <= i < j < |due| :: due[i] != due[j]
    ensures |w.accepted| == |w.rows|
    ensures Lost(EnableEach(w, due, now, replies), c) ==> TickLoses(w, due, now, replies, c)
    decreases |due|
  {
    hide Invariant, Recover, PossibleRecovery, Covered, RecoverLoses;
    ListingKept(creds, w);
    if |due| > 0 {
      var id, cause := due[0], Timer(now);
      RecoverKeeps(creds, w, id, cause, replies[0]);
      RecoverOnlyMarks(w, id, cause, replies[0]);
      RecoverLosesExactly(creds, w, id, cause, replies[0], c);
      if !Lost(Recover(w, id, cause, replies[0]), c) {
        EnableEachLoses(creds, Recover(w, id, cause, replies[0]), due[1..], now, replies[1..], c);
      }
    }
  }

  lemma StepLoses(creds: set<Cred>, w: World, op: Op, c: Cred)
    requires Invariant(creds, w) && PossibleOp(creds, op) && !Lost(w, c)
    ensures |w.accepted| == |w.rows|
    ensures Lost(Step(w, op), c) ==> OpLoses(w, op, c)
  {
    hide Invariant, Recover, Handle, EnableEach, PossibleRecovery, PossibleCandidate, ListDue, Covered, HandleLoses, RecoverLoses,
         TickLoses;
    ListingKept(creds, w);
    match op
    case Accept(cand, s) => HandleLosesExactly(creds, w, cand, s, c);
    case Tick(now, listed, replies) =>
      DueFacts(w.rows, now);
      EnableEachLoses(creds, w, ListDue(w.rows, now), now, replies, c);
    case Confirm(file, index, listed, s) =>
      var owned := OwnedBy(w.rows, file, index);
      if |owned| == 1 { RecoverLosesExactly(creds, w, owned[0], Confirmed, s, c); }
  }

  /** In every run, a credential left disabled with no row to recover it by was lost by one of the operations. */
  lemma {:induction false} LossHasCause(creds: set<Cred>, ops: seq<Op>, worlds: seq<World>, n: nat, c: Cred)
    requires Distinguishable(creds) && Run(creds, ops, worlds) && n <= |ops| && Lost(worlds[n], c)
    ensures exists i :: 0 <= i < n && OpLoses(worlds[i], ops[i], c)
  {
    hide PossibleOp, Step, Covered, OpLoses;
    assert n > 0;
    if Lost(worlds[n - 1], c) {
      LossHasCause(creds, ops, worlds, n - 1, c);
    } else {
      RunKeeps(creds, ops, worlds, n - 1);
      StepLoses(creds, worlds[n - 1], ops[n - 1], c);
    }
  }

  /** A credential the worker left disabled has an active or a set-aside row, unless one of its operations lost it. */
  lemma LeftDisabledIsOwned(creds: set<Cred>, ops: seq<Op>, worlds: seq<World>, n: nat, c: Cred)
    requires Distinguishable(creds) && Run(creds, ops, worlds) && n <= |ops| && c in worlds[n].left
    requires forall i | 0 <= i < n :: !OpLoses(worlds[i], ops[i], c)
    ensures var rows := worlds[n].rows;
      exists id :: 0 <= id < |rows| && rows[id].status in {Active, Skipped} && Locates(rows[id], c)
  {
    hide Step, PossibleOp, Distinguishable, Locates, OpLoses;
    if Lost(worlds[n], c) {
      LossHasCause(creds, ops, worlds, n, c);
    } else {
      var id :| 0 <= id < |worlds[n].rows| && worlds[n].rows[id].status != Recovered && Locates(worlds[n].rows[id], c);
      assert worlds[n].rows[id].status in {Active, Skipped};
    }
  }
}
