/**
  What the cooldown worker achieves when its calls succeed, and what its
  compensating actions restore when the table cannot be written. Together with
  QuotaSafety this rules out a worker that is safe because it does nothing.
 */
module QuotaEffects {
  import opened QuotaWorld
  import opened QuotaCooldown
  import opened QuotaSafety
  import opened QuotaRuns

  /** The credential a candidate is about, as the first look at the remote finds it. */
  ghost function TargetOf(cand: Candidate, s: CandidateReplies): Resolution {
    Resolve(s.look.meanwhile.files, Wanted(cand, s), s.look)
  }

  /** The candidate passes every check, with the credential found in the given state. */
  ghost predicate Passes(cand: Candidate, s: CandidateReplies, disabled: bool) {
    && Acceptable(cand, s) && s.now >= 0
    && TargetOf(cand, s).Target? && TargetOf(cand, s).file.disabled == disabled
    && var row := NewRow(cand, TargetOf(cand, s).file.cred, s);
    Stable(row) && (row.provider == "codex" ==> s.currentOk)
  }

  /** The row carries the candidate and names the credential. */
  ghost predicate Records(r: Row, cand: Candidate, c: Cred) {
    && r.status == Active && Locates(r, c) && r.owner == cand.owner && !r.preDisabled && r.recoverAt == cand.reset
    && r.reason == cand.reason && r.window == cand.window && r.event == cand.event && r.evidence == cand.evidence
  }

  /** The table gains one row; of the others at most rows of the same owner and credential are closed. */
  ghost predicate OneMoreRow(rows: seq<Row>, after: seq<Row>, owner: Owner, c: Cred) {
    && |after| == |rows| + 1
    && forall k | 0 <= k < |rows| && after[k] != rows[k] ::
      rows[k].status == Active && rows[k].owner == owner && Locates(rows[k], c) && after[k] == rows[k].(status := Recovered)
  }

  lemma InvariantFacts(creds: set<Cred>, w: World)
    requires Invariant(creds, w)
    ensures Distinguishable(creds) && Listing(creds, w.files) && RowsOwned(creds, w.log, w.rows) && Solo(creds, w.rows)
    ensures |w.accepted| == |w.rows|
  {
  }

  /** What a confirmed and recorded disable leaves. */
  lemma DisablingRecords(creds: set<Cred>, w: World, cand: Candidate, c: Cred, s: CandidateReplies)
    requires Invariant(creds, w) && c in creds && cand.file != "" && cand.reset > 0 && s.patch.call == Done && s.save.call == Done
    requires Names(NewRow(cand, c, s), c) && Exact(NewRow(cand, c, s), c)
    ensures |w.accepted| == |w.rows|
    ensures var u := Disabling(w, cand, c, s);
      && u.log == w.log + [Disable(c, Done)]
      && OneMoreRow(w.rows, u.rows, cand.owner, c) && Records(u.rows[|w.rows|], cand, c)
      && u.rows[|w.rows|].snapshot == Snapshot(cand.file, NewRow(cand, c, s).snapshot)
      && u.accepted == w.accepted + [[cand]]
      && (c in u.left <==> c !in s.save.meanwhile.enabled && !Listed(s.save.meanwhile.files, c, false))
  {
    hide Invariant, Wanted, Listed, Distinguishable, FindOwned, RowsOwned, Solo, KnownAccount, Listing, Exact, Stable;
    InvariantFacts(creds, w);
    var row := NewRow(cand, c, s);
    var stored := row.(snapshot := Snapshot(row.file, row.snapshot));
    StoredExact(row, c);
    FindCredential(creds, w.log, w.rows, stored, c);
  }

  /** A candidate whose credential is enabled is disabled and recorded. */
  lemma CandidateIsRecorded(creds: set<Cred>, w: World, cand: Candidate, s: CandidateReplies)
    requires Invariant(creds, w) && PossibleCandidate(creds, s) && Proper(cand) && Passes(cand, s, false)
    requires s.patch.call == Done && s.save.call == Done
    ensures |w.accepted| == |w.rows|
    ensures var u, c := Handle(w, cand, s), TargetOf(cand, s).file.cred;
      && u.log == w.log + [Saw(c, false), Disable(c, Done)]
      && OneMoreRow(w.rows, u.rows, cand.owner, c) && Records(u.rows[|w.rows|], cand, c)
      && u.rows[|w.rows|].snapshot == Snapshot(cand.file, NewRow(cand, c, s).snapshot)
      && u.accepted == w.accepted + [[cand]]
      && (c in u.left <==> c !in s.save.meanwhile.enabled && !Listed(s.save.meanwhile.files, c, false))
  {
    hide Invariant, Resolve, Wanted, Listed, Distinguishable, Listing, Exact, Names, NewRow, Stable, Handle, Disabling, Look, OneMoreRow, Records;
    LookKeeps(creds, w, Wanted(cand, s), s.look);
    LookIs(w, Wanted(cand, s), s.look);
    var looked := Look(w, Wanted(cand, s), s.look);
    InvariantFacts(creds, w);
    InvariantFacts(creds, looked);
    TargetFacts(creds, looked.files, Wanted(cand, s), s.look);
    NewRowLocates(creds, looked.files, cand, s);
    DisablesThen(w, cand, s);
    DisablingRecords(creds, looked, cand, TargetOf(cand, s).file.cred, s);
  }

  lemma DisablesThen(w: World, cand: Candidate, s: CandidateReplies)
    requires |w.accepted| == |w.rows| && Passes(cand, s, false)
    ensures Handle(w, cand, s) == Disabling(Look(w, Wanted(cand, s), s.look), cand, TargetOf(cand, s).file.cred, s)
  {
    hide Disabling, Extend, NewRow, Resolve, Stable;
  }

  /** The text stored for the account is the one the row was found by. */
  lemma StoredExact(row: Row, c: Cred)
    requires Names(row, c) && Exact(row, c)
    ensures var stored := row.(snapshot := Snapshot(row.file, row.snapshot)); Names(stored, c) && Exact(stored, c)
    ensures Snapshot(row.file, Snapshot(row.file, row.snapshot)) == Snapshot(row.file, row.snapshot)
  {
  }

  /** How the look before a compensating request finds the credential. */
  ghost predicate FoundDisabled(c: Cred, s: Undoing) {
    var found := Resolve(s.look.meanwhile.files, IdentityOf(c), s.look);
    found.Target? && found.file.disabled
  }

  /** If the row cannot be stored and the rollback succeeds, the credential is enabled again and the table is as before. */
  lemma FailedRecordIsUndone(creds: set<Cred>, w: World, cand: Candidate, s: CandidateReplies)
    requires Invariant(creds, w) && PossibleCandidate(creds, s) && Proper(cand) && Passes(cand, s, false)
    requires s.patch.call == Done && s.save.call == Failed && RolledBack(TargetOf(cand, s).file.cred, s.undo)
    ensures |w.accepted| == |w.rows|
    ensures var u, c := Handle(w, cand, s), TargetOf(cand, s).file.cred;
      && u.log == w.log + [Saw(c, false), Disable(c, Done), Saw(c, FoundDisabled(c, s.undo)), Enable(c, Rollback)]
      && u.rows == w.rows && u.accepted == w.accepted && c !in u.left
  {
    hide Invariant, Resolve, Wanted, Listed, Distinguishable, KnownAccount, Listing, Stable, Exact, Names;
    LookKeeps(creds, w, Wanted(cand, s), s.look);
    LookIs(w, Wanted(cand, s), s.look);
    var looked := Look(w, Wanted(cand, s), s.look);
    InvariantFacts(creds, w);
    InvariantFacts(creds, looked);
    TargetFacts(creds, looked.files, Wanted(cand, s), s.look);
    NewRowLocates(creds, looked.files, cand, s);
    FoundAgain(creds, s.undo.look.meanwhile.files, TargetOf(cand, s).file.cred, s.undo.look);
  }

  /** The active row an extension finds, for the credential as it is listed. */
  ghost function Held(w: World, cand: Candidate, s: CandidateReplies): Option<nat>
    requires TargetOf(cand, s).Target?
  {
    var c := TargetOf(cand, s).file.cred;
    var index, provider := First(c.index, cand.index), First(c.provider, cand.provider);
    FirstOwned(w.rows, ListActive(w.rows), cand, index, provider,
      KnownAccount(provider, Snapshot(cand.file, cand.snapshot), c, s), s.agrees)
  }

  /** A candidate whose credential is disabled already moves the recovery of the row that owns it, and asks the remote for nothing. */
  lemma ExtensionIsRecorded(creds: set<Cred>, w: World, cand: Candidate, s: CandidateReplies)
    requires Invariant(creds, w) && PossibleCandidate(creds, s) && Proper(cand) && Passes(cand, s, true)
    requires s.list.call == Done && s.save.call == Done && Held(w, cand, s).Some?
    ensures |w.accepted| == |w.rows|
    ensures var u, id, c := Handle(w, cand, s), Held(w, cand, s).value, TargetOf(cand, s).file.cred;
      && id < |w.rows| && w.rows[id].status == Active && Locates(w.rows[id], c)
      && u.log == w.log + [Saw(c, true)]
      && u.accepted == w.accepted[id := w.accepted[id] + [cand]]
      && |u.rows| == |w.rows| && u.rows == w.rows[id := u.rows[id]]
      && u.rows[id].recoverAt == if cand.reset > w.rows[id].recoverAt then cand.reset else w.rows[id].recoverAt
  {
    hide Invariant, Resolve, Wanted, Listed, Distinguishable, FindOwned, RowsOwned, Solo, KnownAccount, Listing,
         ListActive, Names, Locates, Earned, Merged, Matches, Upsert, FirstOwned, Extend;
    LookKeeps(creds, w, Wanted(cand, s), s.look);
    LookIs(w, Wanted(cand, s), s.look);
    var looked := Look(w, Wanted(cand, s), s.look);
    InvariantFacts(creds, looked);
    KnownIsListed(looked.files, creds, cand, s);
    var c, id := TargetOf(cand, s).file.cred, Held(w, cand, s).value;
    var provider := First(c.provider, cand.provider);
    var snapshot := KnownAccount(provider, Snapshot(cand.file, cand.snapshot), c, s);
    assert Handle(w, cand, s) == Extend(looked, cand, c, s);
    ActiveListed(looked.rows, id);
    var held := looked.rows[id];
    OwnedKept(creds, looked, id);
    MatchAgrees(held, First(c.index, cand.index), provider, snapshot, id in s.agrees);
    OwnedRowLocates(creds, looked.log, looked.files, cand, s, held, id in s.agrees);
    var u := Merged(held, cand, c, provider, snapshot);
    var stored := u.(snapshot := Snapshot(u.file, u.snapshot));
    NamesStored(u, c);
    MergedRow(held, cand, c, provider, snapshot);
    FindCredential(creds, looked.log, looked.rows, stored, c);
    SoloRow(creds, looked.rows, id, FindOwned(looked.rows, stored), stored, c);
    ExtendStores(looked, cand, c, s, id);
    UpsertChanges(Interfere(looked, s.save.meanwhile), u, cand, id);
  }

  /** A row that matches agrees with what is known, so the checks after the loop refuse nothing more. */
  lemma MatchAgrees(held: Row, index: string, provider: string, snapshot: string, agrees: bool)
    requires Matches(held, index, provider, snapshot, agrees)
    ensures held.index != "" ==> index == held.index
    ensures held.index == "" ==> held.provider == provider && Snapshot(held.file, held.snapshot) == snapshot && snapshot != ""
  {
  }

  lemma MergedRow(held: Row, cand: Candidate, c: Cred, provider: string, snapshot: string)
    ensures var u := Merged(held, cand, c, provider, snapshot);
      && u.file == cand.file && u.owner == cand.owner
      && u.recoverAt == if cand.reset >= held.recoverAt then cand.reset else held.recoverAt
  {
    hide MergeEvidence, FirstEvidence;
  }

  lemma ExtendStores(w: World, cand: Candidate, c: Cred, s: CandidateReplies, id: nat)
    requires |w.accepted| == |w.rows| && id < |w.rows| && s.list.call == Done
    requires First(c.provider, cand.provider) == "codex" ==> First(c.index, cand.index) != "" && s.currentOk
    requires var index, provider := First(c.index, cand.index), First(c.provider, cand.provider);
      FirstOwned(w.rows, ListActive(w.rows), cand, index, provider,
        KnownAccount(provider, Snapshot(cand.file, cand.snapshot), c, s), s.agrees) == Some(id)
    ensures var provider := First(c.provider, cand.provider);
      var snapshot := KnownAccount(provider, Snapshot(cand.file, cand.snapshot), c, s);
      Extend(w, cand, c, s)
      == Upsert(Interfere(w, s.save.meanwhile), Merged(w.rows[id], cand, c, provider, snapshot), false, cand, s.save.call).0
  {
    hide ListActive, Merged, Matches, Upsert, FirstOwned, KnownAccount;
    var provider := First(c.provider, cand.provider);
    MatchAgrees(w.rows[id], First(c.index, cand.index), provider,
      KnownAccount(provider, Snapshot(cand.file, cand.snapshot), c, s), id in s.agrees);
  }

  lemma UpsertChanges(w: World, u: Row, cand: Candidate, id: nat)
    requires |w.accepted| == |w.rows| && id < |w.rows| && u.file != "" && u.recoverAt > 0
    requires FindOwned(w.rows, u.(snapshot := Snapshot(u.file, u.snapshot))) == One(id)
    ensures var after := Upsert(w, u, false, cand, Done).0;
      && after == w.(rows := w.rows[id := after.rows[id]], accepted := w.accepted[id := w.accepted[id] + [cand]])
      && after.rows[id].recoverAt == if w.rows[id].recoverAt >= u.recoverAt then w.rows[id].recoverAt else u.recoverAt
  {
    hide FindOwned, FirstEvidence;
  }

  lemma NamesStored(row: Row, c: Cred)
    requires Names(row, c)
    ensures var stored := row.(snapshot := Snapshot(row.file, row.snapshot));
      Names(stored, c) && stored.snapshot == Snapshot(stored.file, stored.snapshot)
  {
  }

  /** The credential a row is about, as the look before a recovery finds it. */
  ghost function Recovering(w: World, id: nat, s: RecoveryReplies): Resolution
    requires id < |w.rows|
  {
    Resolve(s.look.meanwhile.files, RecoveryIdentity(w.rows[id], s), s.look)
  }

  /** The enable was confirmed by a second look. */
  ghost predicate Confirms(c: Cred, s: RecoveryReplies) {
    var found := Resolve(s.verify.meanwhile.files, IdentityOf(c), s.verify);
    s.patch.call == Done && found.Target? && !found.file.disabled
  }

  lemma RowNamesTarget(creds: set<Cred>, w: World, id: nat, s: RecoveryReplies)
    requires Invariant(creds, w) && PossibleRecovery(creds, s) && id < |w.rows| && w.rows[id].status == Active && Enables(w, id, s)
    ensures var c := Recovering(w, id, s).file.cred; c in creds && Locates(w.rows[id], c) && Firm(c)
    ensures Distinguishable(creds)
  {
    hide Invariant, Resolve, Recoverable, RecoveryIdentity, Listed, Earned, Locates, Distinguishable, Firm;
    LookKeeps(creds, w, RecoveryIdentity(w.rows[id], s), s.look);
    LookIs(w, RecoveryIdentity(w.rows[id], s), s.look);
    var looked := Look(w, RecoveryIdentity(w.rows[id], s), s.look);
    InvariantFacts(creds, looked);
    var d := RowOwner(creds, looked, id);
    RowFindsItsCredential(creds, looked.files, looked.rows[id], d, s);
  }

  /** A recovery that meets no failure enables the row's own credential and closes the row, and nothing else. */
  lemma RecoveryCompletes(creds: set<Cred>, w: World, id: nat, cause: Cause, s: RecoveryReplies)
    requires Invariant(creds, w) && PossibleRecovery(creds, s) && id < |w.rows| && w.rows[id].status == Active && Enables(w, id, s)
    requires Confirms(Recovering(w, id, s).file.cred, s) && s.mark.call == Done
    ensures var u, c := Recover(w, id, cause, s), Recovering(w, id, s).file.cred;
      && Locates(w.rows[id], c)
      && u.log == w.log + [Saw(c, true), Enable(c, cause), Saw(c, false)]
      && u.rows == w.rows[id := w.rows[id].(status := Recovered)]
      && u.accepted == w.accepted && c !in u.left
  {
    hide Invariant, Resolve, Recoverable, RecoveryIdentity, Listed, Locates, Distinguishable, Firm, SetFlag;
    RowNamesTarget(creds, w, id, s);
    FoundAgain(creds, s.verify.meanwhile.files, Recovering(w, id, s).file.cred, s.verify);
  }

  /** If the row cannot be marked, the credential is disabled again and still owned. */
  lemma FailedMarkIsUndone(creds: set<Cred>, w: World, id: nat, cause: Cause, s: RecoveryReplies)
    requires Invariant(creds, w) && PossibleRecovery(creds, s) && id < |w.rows| && w.rows[id].status == Active && Enables(w, id, s)
    requires Confirms(Recovering(w, id, s).file.cred, s) && s.mark.call == Failed
    requires RolledBack(Recovering(w, id, s).file.cred, s.undo)
    ensures var u, c := Recover(w, id, cause, s), Recovering(w, id, s).file.cred;
      && u.log == w.log + [Saw(c, true), Enable(c, cause), Saw(c, false), Saw(c, FoundDisabled(c, s.undo)), Disable(c, Done)]
      && u.rows == w.rows && u.accepted == w.accepted
      && c in u.left && Locates(u.rows[id], c)
  {
    hide Invariant, Resolve, Recoverable, RecoveryIdentity, Listed, Locates, Distinguishable, Firm, SetFlag;
    RowNamesTarget(creds, w, id, s);
    FoundAgain(creds, s.verify.meanwhile.files, Recovering(w, id, s).file.cred, s.verify);
    FoundAgain(creds, s.undo.look.meanwhile.files, Recovering(w, id, s).file.cred, s.undo.look);
  }

  /** The rows a confirmed recovery may take for its own. */
  predicate OwnsConfirmed(r: Row, file: string, index: string) {
    && r.status == Active && r.owner == Usage429 && !r.preDisabled && r.file == file && r.index == index && r.provider == "codex"
  }

  /** A confirmed recovery recovers the only row that owns the credential; without one, or with several, it does nothing. */
  lemma ConfirmedRecoversOwn(w: World, file: string, index: string, s: RecoveryReplies, id: nat)
    requires file != "" && index != "" && id < |w.rows| && OwnsConfirmed(w.rows[id], file, index)
    ensures (forall k | 0 <= k < |w.rows| && OwnsConfirmed(w.rows[k], file, index) :: k == id) ==>
      RecoverOwned(w, file, index, true, s) == Recover(w, id, Confirmed, s)
    ensures (exists k :: 0 <= k < |w.rows| && k != id && OwnsConfirmed(w.rows[k], file, index)) ==>
      RecoverOwned(w, file, index, true, s) == w
  {
    hide Recover, OwnedBy, OwnsConfirmed;
    var owned := OwnedBy(w.rows, file, index);
    OwnedIds(w.rows, file, index);
    if forall k | 0 <= k < |w.rows| && OwnsConfirmed(w.rows[k], file, index) :: k == id {
      OneOnly(owned, id);
    } else {
      var k :| 0 <= k < |w.rows| && OwnsConfirmed(w.rows[k], file, index) && k != id;
      assert k in owned;
      assert |owned| != 1;
    }
  }

  lemma OwnedIds(rows: seq<Row>, file: string, index: string)
    ensures var owned := OwnedBy(rows, file, index);
      && (forall k | 0 <= k < |rows| && OwnsConfirmed(rows[k], file, index) :: k in owned)
      && (forall i | 0 <= i < |owned| :: owned[i] < |rows| && OwnsConfirmed(rows[owned[i]], file, index))
      && forall i, j | 0 <= i < j < |owned| :: owned[i] < owned[j]
  {
  }

  lemma OneOnly(ids: seq<nat>, id: nat)
    requires id in ids && (forall i | 0 <= i < |ids| :: ids[i] == id) && forall i, j | 0 <= i < j < |ids| :: ids[i] < ids[j]
    ensures ids == [id]
  {
    FirstBelow(ids);
  }

  lemma FirstBelow(ids: seq<nat>)
    requires forall i, j | 0 <= i < j < |ids| :: ids[i] < ids[j]
    ensures |ids| > 1 ==> ids[0] < ids[1]
  {
  }

  /** A timer tick changes no row that was not listed as due, and no row's recovery time. */
  lemma {:induction false} TickTouchesOnlyDue(w: World, due: seq<nat>, now: int, replies: seq<RecoveryReplies>, k: nat)
    requires |w.accepted| == |w.rows| && |due| <= |replies| && k < |w.rows|
    requires forall i | 0 <= i < |due| :: due[i] < |w.rows|
    ensures var after := EnableEach(w, due, now, replies);
      && |after.rows| == |w.rows| && after.accepted == w.accepted
      && (k !in due ==> after.rows[k] == w.rows[k])
      && after.rows[k].(status := Active) == w.rows[k].(status := Active)
    decreases |due|
  {
    hide Recover;
    if |due| > 0 {
      var cause := Timer(now);
      RecoverOnlyMarks(w, due[0], cause, replies[0]);
      TickTouchesOnlyDue(Recover(w, due[0], cause, replies[0]), due[1..], now, replies[1..], k);
    }
  }
}
