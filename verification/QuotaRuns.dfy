/**
  Whole runs of the quota cooldown worker: any sequence of candidates, timer
  ticks and confirmed recoveries, with any replies, and anything others do to
  the remote credentials between the calls.
 */
module QuotaRuns {
  import opened QuotaWorld
  import opened QuotaCooldown
  import opened QuotaSafety

  // ----- Inputs -----

  ghost predicate PossibleUndo(creds: set<Cred>, s: Undoing) {
    Possible(creds, s.look) && Possible(creds, s.patch)
  }

  ghost predicate PossibleCandidate(creds: set<Cred>, s: CandidateReplies) {
    && Possible(creds, s.look) && Possible(creds, s.list) && Possible(creds, s.patch) && Possible(creds, s.save)
    && PossibleUndo(creds, s.undo)
  }

  ghost predicate PossibleRecovery(creds: set<Cred>, s: RecoveryReplies) {
    && Possible(creds, s.look) && Possible(creds, s.patch) && Possible(creds, s.verify) && Possible(creds, s.mark)
    && PossibleUndo(creds, s.undo)
  }

  datatype Op =
    | Accept(cand: Candidate, candidateReplies: CandidateReplies)
    | Tick(now: int, listed: bool, replies: seq<RecoveryReplies>)
    | Confirm(file: string, index: string, found: bool, reply: RecoveryReplies)

  ghost predicate PossibleOp(creds: set<Cred>, op: Op) {
    match op
    case Accept(cand, s) => Proper(cand) && PossibleCandidate(creds, s)
    case Tick(_, _, replies) => |replies| >= DUE_LIMIT && forall i | 0 <= i < |replies| :: PossibleRecovery(creds, replies[i])
    case Confirm(_, _, _, s) => PossibleRecovery(creds, s)
  }

  // ----- One candidate -----

  lemma UndoKeeps(creds: set<Cred>, w: World, c: Cred, s: Undoing)
    requires Invariant(creds, w) && c in creds && Firm(c) && Earned(w.log, c) && PossibleUndo(creds, s)
    ensures Invariant(creds, RollBack(w, c, s))
  {
    hide Invariant, Resolve, Earned, Firm, IdentityOf, PatchEnable, Listed, Distinguishable, Look;
    LookKeeps(creds, w, IdentityOf(c), s.look);
    LookEarned(w, IdentityOf(c), s.look, c);
    var looked := Look(w, IdentityOf(c), s.look);
    ListingKept(creds, looked);
    if Resolve(looked.files, IdentityOf(c), s.look).Target? {
      FoundAgain(creds, looked.files, c, s.look);
      InterfereKeeps(creds, looked, s.patch.meanwhile);
      EnableKeeps(creds, Interfere(looked, s.patch.meanwhile), c, Rollback, s.patch.call);
    }
  }

  lemma ListingKept(creds: set<Cred>, w: World)
    requires Invariant(creds, w)
    ensures Listing(creds, w.files) && Distinguishable(creds) && |w.accepted| == |w.rows|
  {
  }

  /** The last look showed the credential enabled. */
  ghost predicate JustSeen(log: seq<Act>, c: Cred) {
    |log| > 0 && log[|log| - 1] == Saw(c, false)
  }

  lemma NowEarned(log: seq<Act>, c: Cred)
    requires JustSeen(log, c)
    ensures Earned(log + [Disable(c, Done)], c)
  {
    var all := log + [Disable(c, Done)];
    assert all[|log| - 1] == Saw(c, false) && all[|log|] == Disable(c, Done);
  }

  lemma DisablingKeeps(creds: set<Cred>, w: World, cand: Candidate, c: Cred, s: CandidateReplies)
    requires Invariant(creds, w) && c in creds && Firm(c) && PossibleCandidate(creds, s) && Proper(cand)
    requires Names(NewRow(cand, c, s), c) && Exact(NewRow(cand, c, s), c) && JustSeen(w.log, c)
    ensures |w.accepted| == |w.rows| && Invariant(creds, Disabling(w, cand, c, s))
  {
    hide Invariant, Earned, Firm, Names, Exact, Listed, Upsert, SetFlag, RollBack, KnownAccount, Wanted;
    ListingKept(creds, w);
    InterfereKeeps(creds, w, s.patch.meanwhile);
    var before := Interfere(w, s.patch.meanwhile);
    DisableKeeps(creds, before, c, s.patch.call);
    var patched := PatchDisable(before, c, s.patch.call);
    if s.patch.call == Done {
      NowEarned(w.log, c);
      InterfereKeeps(creds, patched, s.save.meanwhile);
      var ready := Interfere(patched, s.save.meanwhile);
      ListingKept(creds, ready);
      InsertKeeps(creds, ready, NewRow(cand, c, s), c, cand, s.save.call);
      var saved := Upsert(ready, NewRow(cand, c, s), true, cand, s.save.call);
      if !saved.1 {
        UndoKeeps(creds, saved.0, c, s.undo);
      }
    }
  }

  lemma ExtendKeeps(creds: set<Cred>, w: World, cand: Candidate, s: CandidateReplies)
    requires Invariant(creds, w) && PossibleCandidate(creds, s) && Proper(cand) && Acceptable(cand, s)
    requires Resolve(w.files, Wanted(cand, s), s.look).Target?
    ensures |w.accepted| == |w.rows|
    ensures Invariant(creds, Extend(w, cand, Resolve(w.files, Wanted(cand, s), s.look).file.cred, s))
  {
    hide Invariant, Resolve, Earned, Names, Upsert, Merged, Wanted, Acceptable, Matches, Listed, KnownAccount, InOrder, Distinguishable;
    ListingKept(creds, w);
    var c := Resolve(w.files, Wanted(cand, s), s.look).file.cred;
    TargetFacts(creds, w.files, Wanted(cand, s), s.look);
    var index, provider := First(c.index, cand.index), First(c.provider, cand.provider);
    var snapshot := KnownAccount(provider, Snapshot(cand.file, cand.snapshot), c, s);
    var found := FirstOwned(w.rows, ListActive(w.rows), cand, index, provider, snapshot, s.agrees);
    if found.Some? {
      var id := found.value;
      var held := w.rows[id];
      ActiveListed(w.rows, id);
      OwnedKept(creds, w, id);
      if (held.index != "" ==> index == held.index)
        && (held.index == "" ==> Snapshot(held.file, held.snapshot) == snapshot && snapshot != "")
      {
        OwnedRowLocates(creds, w.log, w.files, cand, s, held, id in s.agrees);
        KnownIsListed(w.files, creds, cand, s);
        InterfereKeeps(creds, w, s.save.meanwhile);
        UpdateKeeps(creds, Interfere(w, s.save.meanwhile), id, c, cand, provider, snapshot, s.save.call);
      }
    }
  }

  lemma ActiveListed(rows: seq<Row>, id: nat)
    requires id in ListActive(rows)
    ensures id < |rows| && rows[id].status == Active
  {
    hide InOrder;
    OrderKeepsMembers(rows, Ids(rows, (r: Row) => r.status == Active), id);
  }

  lemma OwnedKept(creds: set<Cred>, w: World, id: nat)
    requires Invariant(creds, w) && id < |w.rows| && w.rows[id].status == Active
    ensures Owned(creds, w.log, w.rows[id])
  {
  }

  lemma HandleKeeps(creds: set<Cred>, w: World, cand: Candidate, s: CandidateReplies)
    requires Invariant(creds, w) && PossibleCandidate(creds, s) && Proper(cand)
    ensures |w.accepted| == |w.rows| && Invariant(creds, Handle(w, cand, s))
  {
    hide Invariant, Resolve, Names, Exact, Wanted, NewRow, Acceptable, Listed, Disabling, Extend, Stable, Distinguishable, Look;
    ListingKept(creds, w);
    if Acceptable(cand, s) {
      LookKeeps(creds, w, Wanted(cand, s), s.look);
      LookIs(w, Wanted(cand, s), s.look);
      var looked := Look(w, Wanted(cand, s), s.look);
      ListingKept(creds, looked);
      if Resolve(looked.files, Wanted(cand, s), s.look).Target? {
        var c := Resolve(looked.files, Wanted(cand, s), s.look).file.cred;
        TargetFacts(creds, looked.files, Wanted(cand, s), s.look);
        NewRowLocates(creds, looked.files, cand, s);
        ExtendKeeps(creds, looked, cand, s);
        if Stable(NewRow(cand, c, s)) && !Resolve(looked.files, Wanted(cand, s), s.look).file.disabled {
          DisablingKeeps(creds, looked, cand, c, s);
        }
      }
    }
  }

  // ----- Recovery -----

  lemma RowOwner(creds: set<Cred>, w: World, id: nat) returns (c: Cred)
    requires Invariant(creds, w) && id < |w.rows| && w.rows[id].status == Active
    ensures c in creds && Locates(w.rows[id], c) && Earned(w.log, c)
  {
    c :| c in creds && Locates(w.rows[id], c) && Earned(w.log, c);
  }

  lemma ReclaimKeeps(creds: set<Cred>, w: World, c: Cred, s: Undoing)
    requires Invariant(creds, w) && c in creds && Firm(c) && PossibleUndo(creds, s)
    ensures Invariant(creds, Reclaim(w, c, s))
  {
    hide Invariant, Resolve, Firm, IdentityOf, Listed, SetFlag, Distinguishable, Look;
    LookKeeps(creds, w, IdentityOf(c), s.look);
    var looked := Look(w, IdentityOf(c), s.look);
    ListingKept(creds, looked);
    if Resolve(looked.files, IdentityOf(c), s.look).Target? {
      FoundAgain(creds, looked.files, c, s.look);
      InterfereKeeps(creds, looked, s.patch.meanwhile);
      DisableKeeps(creds, Interfere(looked, s.patch.meanwhile), c, s.patch.call);
    }
  }

  lemma EnablingKeeps(creds: set<Cred>, w: World, id: nat, c: Cred, cause: Cause, s: RecoveryReplies)
    requires Invariant(creds, w) && id < |w.rows| && w.rows[id].status == Active && PossibleRecovery(creds, s)
    requires c in creds && Firm(c) && Locates(w.rows[id], c) && Earned(w.log, c)
    ensures Invariant(creds, Enabling(w, id, c, cause, s))
  {
    hide Invariant, Resolve, Firm, IdentityOf, Locates, Listed, SetFlag, Earned, Reclaim, Distinguishable, Look;
    InterfereKeeps(creds, w, s.patch.meanwhile);
    var before := Interfere(w, s.patch.meanwhile);
    EnableKeeps(creds, before, c, cause, s.patch.call);
    var patched := PatchEnable(before, c, cause, s.patch.call);
    LookKeeps(creds, patched, IdentityOf(c), s.verify);
    LookIs(patched, IdentityOf(c), s.verify);
    var looked := Look(patched, IdentityOf(c), s.verify);
    ListingKept(creds, looked);
    if s.patch.call == Done && Resolve(looked.files, IdentityOf(c), s.verify).Target? {
      MarkKeeps(creds, looked, id, Recovered, s.mark.call);
      ReclaimKeeps(creds, Mark(looked, id, Recovered, s.mark.call), c, s.undo);
    }
  }

  lemma RecoverKeeps(creds: set<Cred>, w: World, id: nat, cause: Cause, s: RecoveryReplies)
    requires Invariant(creds, w) && id < |w.rows| && w.rows[id].status == Active && PossibleRecovery(creds, s)
    ensures Invariant(creds, Recover(w, id, cause, s))
  {
    hide Invariant, Resolve, Firm, Locates, Listed, Earned, Enabling, Recoverable, RecoveryIdentity, Distinguishable, Look;
    var c := RowOwner(creds, w, id);
    var row := w.rows[id];
    MarkKeeps(creds, w, id, Skipped, s.mark.call);
    LookKeeps(creds, w, RecoveryIdentity(row, s), s.look);
    LookEarned(w, RecoveryIdentity(row, s), s.look, c);
    LookIs(w, RecoveryIdentity(row, s), s.look);
    var looked := Look(w, RecoveryIdentity(row, s), s.look);
    ListingKept(creds, looked);
    MarkKeeps(creds, looked, id, Skipped, s.mark.call);
    if Recoverable(row, s) && Resolve(looked.files, RecoveryIdentity(row, s), s.look).Target? {
      RowFindsItsCredential(creds, looked.files, row, c, s);
      TargetFacts(creds, looked.files, RecoveryIdentity(row, s), s.look);
      if Resolve(looked.files, RecoveryIdentity(row, s), s.look).file.disabled {
        EnablingKeeps(creds, looked, id, c, cause, s);
      } else {
        MarkKeeps(creds, looked, id, Recovered, s.mark.call);
      }
    }
  }

  // ----- Ticks -----

  /** The latest reset is the largest, so the recovery time of a row is the latest it accepted. */
  lemma {:induction false} LatestIsLargest(cands: seq<Candidate>)
    requires |cands| > 0
    ensures forall k | 0 <= k < |cands| :: cands[k].reset <= Latest(cands)
    ensures exists k :: 0 <= k < |cands| && cands[k].reset == Latest(cands)
  {
    if |cands| > 1 {
      var n := |cands| - 1;
      LatestIsLargest(cands[..n]);
      var k :| 0 <= k < n && cands[..n][k].reset == Latest(cands[..n]);
      assert cands[k].reset == Latest(cands[..n]);
      assert forall j | 0 <= j < n :: cands[..n][j] == cands[j];
    } else {
      assert cands[0].reset == Latest(cands);
    }
  }

  lemma RecoverAtIsLatest(r: Row, cands: seq<Candidate>)
    requires Reflects(r, cands)
    ensures |cands| > 0 && r.recoverAt == Latest(cands)
  {
    hide TextFrom, EvidenceFrom, Latest;
    var win :| Winner(cands, win) && r.recoverAt == cands[win].reset;
    LatestIsLargest(cands);
    var k :| 0 <= k < |cands| && cands[k].reset == Latest(cands);
    assert cands[k].reset <= cands[win].reset;
  }

  lemma ReflectsKept(creds: set<Cred>, w: World, id: nat)
    requires Invariant(creds, w) && id < |w.rows| && w.rows[id].status == Active
    ensures |w.accepted| == |w.rows| && Reflects(w.rows[id], w.accepted[id])
  {
  }

  lemma {:induction false} EnableEachKeeps(creds: set<Cred>, w: World, due: seq<nat>, now: int, replies: seq<RecoveryReplies>)
    requires Invariant(creds, w) && |due| <= |replies|
    requires forall i | 0 <= i < |replies| :: PossibleRecovery(creds, replies[i])
    requires forall i | 0 <= i < |due| :: due[i] < |w.rows| && w.rows[due[i]].status == Active && w.rows[due[i]].recoverAt <= now
    requires forall i, j | 0 <= i < j < |due| :: due[i] != due[j]
    ensures |w.accepted| == |w.rows| && Invariant(creds, EnableEach(w, due, now, replies))
    decreases |due|
  {
    hide Invariant, Recover, PossibleRecovery;
    ListingKept(creds, w);
    if |due| > 0 {
      var id := due[0];
      RecoverKeeps(creds, w, id, Timer(now), replies[0]);
      RecoverOnlyMarks(w, id, Timer(now), replies[0]);
      EnableEachKeeps(creds, Recover(w, id, Timer(now), replies[0]), due[1..], now, replies[1..]);
    }
  }

  // ----- Runs -----

  function Step(w: World, op: Op): World
    requires |w.accepted| == |w.rows| && (op.Tick? ==> |op.replies| >= DUE_LIMIT)
  {
    match op
    case Accept(cand, s) => Handle(w, cand, s)
    case Tick(now, listed, replies) => EnableDue(w, now, listed, replies)
    case Confirm(file, index, found, s) => RecoverOwned(w, file, index, found, s)
  }

  lemma StepKeeps(creds: set<Cred>, w: World, op: Op)
    requires Invariant(creds, w) && PossibleOp(creds, op)
    ensures |w.accepted| == |w.rows| && Invariant(creds, Step(w, op))
  {
    hide Invariant, Recover, Handle, EnableEach, PossibleRecovery, PossibleCandidate, ListDue;
    ListingKept(creds, w);
    match op
    case Accept(cand, s) => HandleKeeps(creds, w, cand, s);
    case Tick(now, listed, replies) =>
      DueFacts(w.rows, now);
      EnableEachKeeps(creds, w, ListDue(w.rows, now), now, replies);
    case Confirm(file, index, found, s) =>
      var owned := OwnedBy(w.rows, file, index);
      if |owned| == 1 { RecoverKeeps(creds, w, owned[0], Confirmed, s); }
  }

  /** The worlds between the operations of a run that starts with nothing done. */
  ghost predicate Run(creds: set<Cred>, ops: seq<Op>, worlds: seq<World>) {
    && |worlds| == |ops| + 1
    && worlds[0] == Untouched(worlds[0].files) && Listing(creds, worlds[0].files)
    && (forall i | 0 <= i < |worlds| :: |worlds[i].accepted| == |worlds[i].rows|)
    && forall i | 0 <= i < |ops| :: PossibleOp(creds, ops[i]) && worlds[i + 1] == Step(worlds[i], ops[i])
  }

  lemma UntouchedIsKept(creds: set<Cred>, files: seq<File>)
    requires Distinguishable(creds) && Listing(creds, files)
    ensures Invariant(creds, Untouched(files))
  {
    hide Distinguishable, Listing, Listed;
    forall c | Listed(files, c, true) ensures c in DisabledIn(files) {
      ListedOnce(creds, files, c);
    }
    forall c | c in DisabledIn(files) ensures !Listed(files, c, false) {
      DisabledIsListed(files, c);
      ListedOnce(creds, files, c);
    }
  }

  lemma DisabledIsListed(files: seq<File>, c: Cred)
    requires c in DisabledIn(files)
    ensures Listed(files, c, true)
  {
    var f :| f in files && f.disabled && f.cred == c;
    var i :| 0 <= i < |files| && files[i] == f;
    assert files[i] == File(c, true);
  }

  lemma {:induction false} RunKeeps(creds: set<Cred>, ops: seq<Op>, worlds: seq<World>, n: nat)
    requires Distinguishable(creds) && Run(creds, ops, worlds) && n <= |ops|
    ensures Invariant(creds, worlds[n])
  {
    hide PossibleOp, Step, Untouched;
    if n == 0 {
      UntouchedIsKept(creds, worlds[0].files);
    } else {
      RunKeeps(creds, ops, worlds, n - 1);
      StepKeeps(creds, worlds[n - 1], ops[n - 1]);
    }
  }

  /**
    Every enable the worker asks for is of a credential that a look showed
    enabled and that it disabled right after that look, with confirmation.
   */
  lemma EnablesWereEarned(creds: set<Cred>, ops: seq<Op>, worlds: seq<World>, n: nat, i: nat)
    requires Distinguishable(creds) && Run(creds, ops, worlds) && n <= |ops|
    requires i < |worlds[n].log| && worlds[n].log[i].Enable?
    ensures var log := worlds[n].log;
      exists k :: 0 <= k < i - 1 && log[k] == Saw(log[i].cred, false) && log[k + 1] == Disable(log[i].cred, Done)
  {
    hide Step, PossibleOp, Distinguishable, Listing, LeftDisabled, SomebodyDisabled, RowsOwned, Solo, RowsReflect;
    RunKeeps(creds, ops, worlds, n);
    var log := worlds[n].log;
    var k :| 0 <= k < i - 1 && log[..i][k] == Saw(log[i].cred, false) && log[..i][k + 1] == Disable(log[i].cred, Done);
    assert log[k] == Saw(log[i].cred, false) && log[k + 1] == Disable(log[i].cred, Done);
  }

  /** While a row is active its recovery time is the latest reset accepted since the disable, and the rest is the winner's. */
  lemma ActiveRowsReflect(creds: set<Cred>, ops: seq<Op>, worlds: seq<World>, n: nat, id: nat)
    requires Distinguishable(creds) && Run(creds, ops, worlds) && n <= |ops|
    requires id < |worlds[n].rows| && worlds[n].rows[id].status == Active
    ensures Reflects(worlds[n].rows[id], worlds[n].accepted[id])
    ensures worlds[n].rows[id].recoverAt == Latest(worlds[n].accepted[id])
  {
    hide Distinguishable, Reflects, Listing, PossibleOp, Step, Latest;
    RunKeeps(creds, ops, worlds, n);
    ReflectsKept(creds, worlds[n], id);
    RecoverAtIsLatest(worlds[n].rows[id], worlds[n].accepted[id]);
  }

  // ----- What an operation enables -----

  /** From n on the log enables nothing but this credential, for this cause. */
  ghost predicate Only(log: seq<Act>, n: nat, c: Cred, cause: Cause) {
    forall i | n <= i < |log| && log[i].Enable? :: log[i] == Enable(c, cause)
  }

  lemma EnablingLogs(w: World, id: nat, c: Cred, cause: Cause, s: RecoveryReplies)
    requires id < |w.rows|
    ensures w.log + [Enable(c, cause)] <= Enabling(w, id, c, cause, s).log
    ensures Only(Enabling(w, id, c, cause, s).log, |w.log|, c, cause)
  {
    hide Resolve, Listed, SetFlag, Interfere;
    var w' := Interfere(w, s.patch.meanwhile);
    InterfereLogs(w, s.patch.meanwhile);
    var patched := PatchEnable(w', c, cause, s.patch.call);
    LookLogs(patched, IdentityOf(c), s.verify);
    LookIs(patched, IdentityOf(c), s.verify);
    var looked := Look(patched, IdentityOf(c), s.verify);
    ReclaimLogs(Mark(looked, id, Recovered, s.mark.call), c, s.undo);
  }

  lemma InterfereLogs(w: World, m: Meanwhile)
    ensures Interfere(w, m).log == w.log && Interfere(w, m).rows == w.rows && Interfere(w, m).accepted == w.accepted
  {
  }

  /** At most looks and disables are added to the log. */
  ghost predicate NoEnables(log: seq<Act>, after: seq<Act>) {
    log <= after && forall i | |log| <= i < |after| :: !after[i].Enable?
  }

  lemma LookLogs(w: World, want: Identity, reply: Reply)
    ensures NoEnables(w.log, Look(w, want, reply).log)
  {
    hide Resolve, Listed;
  }

  lemma ReclaimLogs(w: World, c: Cred, s: Undoing)
    ensures NoEnables(w.log, Reclaim(w, c, s).log)
  {
    hide Resolve, Listed, SetFlag, Look, Interfere;
    LookLogs(w, IdentityOf(c), s.look);
    InterfereLogs(Look(w, IdentityOf(c), s.look), s.patch.meanwhile);
  }

  /** A recovery enables no credential but the one its row belongs to. */
  lemma RecoverEnables(creds: set<Cred>, w: World, id: nat, cause: Cause, s: RecoveryReplies, c: Cred)
    requires Invariant(creds, w) && id < |w.rows| && w.rows[id].status == Active && PossibleRecovery(creds, s)
    requires c in creds && Locates(w.rows[id], c)
    ensures w.log <= Recover(w, id, cause, s).log && Only(Recover(w, id, cause, s).log, |w.log|, c, cause)
  {
    hide Invariant, Resolve, Listed, Recoverable, RecoveryIdentity, Enabling, Locates, Distinguishable, Look;
    ListingKept(creds, w);
    var want := RecoveryIdentity(w.rows[id], s);
    LookIs(w, want, s.look);
    LookLogs(w, want, s.look);
    var looked := Look(w, want, s.look);
    var found := Resolve(looked.files, want, s.look);
    if Recoverable(w.rows[id], s) && found.Target? {
      RowFindsItsCredential(creds, looked.files, w.rows[id], c, s);
      EnablingLogs(looked, id, c, cause, s);
      assert w.log <= looked.log <= Enabling(looked, id, c, cause, s).log;
    }
  }

  /** What a tick enables are credentials of rows it found due. */
  ghost predicate EnablesDue(creds: set<Cred>, w: World, log: seq<Act>, due: seq<nat>) {
    && w.log <= log
    && forall i | |w.log| <= i < |log| && log[i].Enable? ::
      log[i].cred in creds && exists j :: 0 <= j < |due| && due[j] < |w.rows| && Locates(w.rows[due[j]], log[i].cred)
  }

  lemma {:induction false} TickEnables(creds: set<Cred>, w: World, due: seq<nat>, now: int, replies: seq<RecoveryReplies>)
    requires Invariant(creds, w) && |due| <= |replies|
    requires forall i | 0 <= i < |replies| :: PossibleRecovery(creds, replies[i])
    requires forall i | 0 <= i < |due| :: due[i] < |w.rows| && w.rows[due[i]].status == Active && w.rows[due[i]].recoverAt <= now
    requires forall i, j | 0 <= i < j < |due| :: due[i] != due[j]
    ensures |w.accepted| == |w.rows| && EnablesDue(creds, w, EnableEach(w, due, now, replies).log, due)
    decreases |due|
  {
    hide Invariant, Recover, PossibleRecovery, Locates;
    ListingKept(creds, w);
    if |due| > 0 {
      var id := due[0];
      var next := Recover(w, id, Timer(now), replies[0]);
      var c := RowOwner(creds, w, id);
      RecoverKeeps(creds, w, id, Timer(now), replies[0]);
      RecoverOnlyMarks(w, id, Timer(now), replies[0]);
      RecoverEnables(creds, w, id, Timer(now), replies[0], c);
      TickEnables(creds, next, due[1..], now, replies[1..]);
      var log := EnableEach(w, due, now, replies).log;
      forall i | |w.log| <= i < |log| && log[i].Enable?
        ensures log[i].cred in creds && exists j :: 0 <= j < |due| && due[j] < |w.rows| && Locates(w.rows[due[j]], log[i].cred)
      {
        if i < |next.log| {
          assert log[i] == next.log[i];
          assert Locates(w.rows[due[0]], log[i].cred);
        } else {
          var j :| 0 <= j < |due| - 1 && due[1..][j] < |next.rows| && Locates(next.rows[due[1..][j]], log[i].cred);
          assert due[j + 1] == due[1..][j] && next.rows[due[j + 1]] == w.rows[due[j + 1]];
        }
      }
    }
  }

  lemma RunStep(creds: set<Cred>, ops: seq<Op>, worlds: seq<World>, n: nat)
    requires Run(creds, ops, worlds) && n < |ops|
    ensures |worlds[n].accepted| == |worlds[n].rows| && PossibleOp(creds, ops[n]) && worlds[n + 1] == Step(worlds[n], ops[n])
  {
    hide PossibleOp, Step;
  }

  /**
    A tick enables only credentials of an active row, and none before the latest
    reset accepted since the disable, in any active row of the credential.
   */
  lemma TimersWait(creds: set<Cred>, ops: seq<Op>, worlds: seq<World>, n: nat, i: nat)
    requires Distinguishable(creds) && Run(creds, ops, worlds) && n < |ops| && ops[n].Tick?
    requires |worlds[n].log| <= i < |worlds[n + 1].log| && worlds[n + 1].log[i].Enable?
    ensures var w, c := worlds[n], worlds[n + 1].log[i].cred;
      && (exists id :: 0 <= id < |w.rows| && w.rows[id].status == Active && Locates(w.rows[id], c))
      && forall id, k | 0 <= id < |w.rows| && w.rows[id].status == Active && Locates(w.rows[id], c) && 0 <= k < |w.accepted[id]| ::
        w.accepted[id][k].reset <= ops[n].now
  {
    hide Distinguishable, Listing, Invariant, Locates, ListDue, EnableEach, PossibleRecovery, Latest, Untouched;
    RunKeeps(creds, ops, worlds, n);
    var w, op := worlds[n], ops[n];
    RunStep(creds, ops, worlds, n);
    DueFacts(w.rows, op.now);
    var due := ListDue(w.rows, op.now);
    TickEnables(creds, w, due, op.now, op.replies);
    var log := worlds[n + 1].log;
    var j :| 0 <= j < |due| && due[j] < |w.rows| && Locates(w.rows[due[j]], log[i].cred);
    ListingKept(creds, w);
    forall id, k | 0 <= id < |w.rows| && w.rows[id].status == Active && Locates(w.rows[id], log[i].cred) && 0 <= k < |w.accepted[id]|
      ensures w.accepted[id][k].reset <= op.now
    {
      OneActiveRow(creds, w, due[j], id, log[i].cred);
      ReflectsKept(creds, w, id);
      RecoverAtIsLatest(w.rows[id], w.accepted[id]);
      LatestIsLargest(w.accepted[id]);
    }
  }

  // ----- Whose disable it is -----

  /** The same remote, table and log; only who disabled what is told apart. */
  ghost predicate SameView(w: World, v: World) {
    w.files == v.files && w.rows == v.rows && w.log == v.log
  }

  lemma ReclaimSame(w: World, v: World, c: Cred, s: Undoing)
    requires SameView(w, v)
    ensures SameView(Reclaim(w, c, s), Reclaim(v, c, s))
  {
    hide Resolve, Listed, SetFlag, Interfere, Look;
    LookSame(w, v, IdentityOf(c), s.look);
    var x, y := Look(w, IdentityOf(c), s.look), Look(v, IdentityOf(c), s.look);
    InterfereSame(x, y, s.patch.meanwhile);
  }

  lemma InterfereSame(w: World, v: World, m: Meanwhile)
    requires SameView(w, v)
    ensures SameView(Interfere(w, m), Interfere(v, m)) && Interfere(w, m).rows == w.rows
  {
  }

  lemma LookSame(w: World, v: World, want: Identity, reply: Reply)
    requires SameView(w, v)
    ensures SameView(Look(w, want, reply), Look(v, want, reply)) && Look(w, want, reply).rows == w.rows
  {
    hide Resolve, Interfere;
    InterfereSame(w, v, reply.meanwhile);
  }

  lemma EnablingSame(w: World, v: World, id: nat, c: Cred, cause: Cause, s: RecoveryReplies)
    requires SameView(w, v) && id < |w.rows|
    ensures SameView(Enabling(w, id, c, cause, s), Enabling(v, id, c, cause, s))
  {
    hide Resolve, Listed, SetFlag, Reclaim, Interfere, Look;
    InterfereSame(w, v, s.patch.meanwhile);
    var w', v' := Interfere(w, s.patch.meanwhile), Interfere(v, s.patch.meanwhile);
    var w'', v'' := PatchEnable(w', c, cause, s.patch.call), PatchEnable(v', c, cause, s.patch.call);
    LookSame(w'', v'', IdentityOf(c), s.verify);
    var x, y := Look(w'', IdentityOf(c), s.verify), Look(v'', IdentityOf(c), s.verify);
    ReclaimSame(Mark(x, id, Recovered, s.mark.call), Mark(y, id, Recovered, s.mark.call), c, s.undo);
  }

  /**
    Recovery looks only at the table and the listing: a credential that others
    enabled and disabled again by hand, so that the worker's disable is no
    longer in force, is enabled all the same.
   */
  lemma ManualDisableIsNotToldApart(w: World, v: World, id: nat, cause: Cause, s: RecoveryReplies)
    requires SameView(w, v) && id < |w.rows|
    ensures SameView(Recover(w, id, cause, s), Recover(v, id, cause, s))
  {
    hide Resolve, Listed, Recoverable, RecoveryIdentity, Enabling, Look;
    var want := RecoveryIdentity(w.rows[id], s);
    LookSame(w, v, want, s.look);
    var x, y := Look(w, want, s.look), Look(v, want, s.look);
    var found := Resolve(x.files, RecoveryIdentity(w.rows[id], s), s.look);
    if found.Target? { EnablingSame(x, y, id, found.file.cred, cause, s); }
  }

  /** The look at the remote before a recovery, and the guard of the enable. */
  ghost predicate Enables(w: World, id: nat, s: RecoveryReplies)
    requires id < |w.rows|
  {
    var found := Resolve(s.look.meanwhile.files, RecoveryIdentity(w.rows[id], s), s.look);
    Recoverable(w.rows[id], s) && s.acquired && found.Target? && found.file.disabled
  }

  /** A recovery enables exactly when the row's credential is found and listed disabled, by whomever, right after that look. */
  lemma EnablesExactlyWhen(w: World, id: nat, cause: Cause, s: RecoveryReplies)
    requires id < |w.rows|
    ensures (exists i :: |w.log| <= i < |Recover(w, id, cause, s).log| && Recover(w, id, cause, s).log[i].Enable?) <==> Enables(w, id, s)
    ensures Enables(w, id, s) ==>
      var found := Resolve(s.look.meanwhile.files, RecoveryIdentity(w.rows[id], s), s.look);
      w.log + [Saw(found.file.cred, true), Enable(found.file.cred, cause)] <= Recover(w, id, cause, s).log
  {
    hide Resolve, Listed, Recoverable, RecoveryIdentity, Enabling, SetFlag, Look;
    var want := RecoveryIdentity(w.rows[id], s);
    LookIs(w, want, s.look);
    LookLogs(w, want, s.look);
    var looked := Look(w, want, s.look);
    var found := Resolve(looked.files, want, s.look);
    if Enables(w, id, s) {
      EnablingLogs(looked, id, found.file.cred, cause, s);
      InterfereLogs(w, s.look.meanwhile);
      assert Recover(w, id, cause, s).log[|w.log| + 1] == (looked.log + [Enable(found.file.cred, cause)])[|w.log| + 1];
    }
  }
}
