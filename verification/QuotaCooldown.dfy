/**
  The quota cooldown worker: disabling a credential that ran out of quota and
  recording the ownership, extending a cooldown it owns, and enabling the
  credential again when the cooldown is due or recovery was confirmed. Each
  operation is a function of the world, the input and the replies it gets, and
  a method of the worker that takes the same steps on its own state.
 */
module QuotaCooldown {
  import opened QuotaWorld

  datatype Undoing = Undoing(look: Reply, patch: Reply)

  /**
    The replies to the calls of one candidate, in order. member and
    currentMember are the normalised codex accounts of the candidate and of the
    listed credential, or empty; the workspace and evidence verdicts are given.
   */
  datatype CandidateReplies = CandidateReplies(
    now: int, acquired: bool, workspaceOk: bool, currentOk: bool, member: string, currentMember: string,
    agrees: set<nat>, look: Reply, list: Reply, patch: Reply, save: Reply, undo: Undoing)

  datatype RecoveryReplies = RecoveryReplies(
    acquired: bool, evidenceOk: bool, member: string,
    look: Reply, patch: Reply, verify: Reply, mark: Reply, undo: Undoing)

  function IdentityOf(c: Cred): Identity {
    Identity(c.file, c.index, c.provider, c.snapshot)
  }

  // ----- handleCandidateLocked -----

  /** The account the candidate names; for codex the normalised member, or nothing. */
  function Account(provider: string, file: string, snapshot: string, member: string): string {
    var s := Snapshot(file, snapshot);
    if provider == "codex" && s != "" then member else s
  }

  function Wanted(cand: Candidate, s: CandidateReplies): Identity {
    Identity(cand.file, cand.index, cand.provider, Account(cand.provider, cand.file, cand.snapshot, s.member))
  }

  /** The candidate's account if it names one, or else the listed one; normalised for codex. */
  function KnownAccount(provider: string, named: string, c: Cred, s: CandidateReplies): string {
    var listed := Snapshot(c.file, c.snapshot);
    if provider != "codex" then First(named, listed)
    else if named != "" then s.member
    else if listed != "" then s.currentMember
    else ""
  }

  /** The row to store for a credential that was just disabled. */
  function NewRow(cand: Candidate, c: Cred, s: CandidateReplies): Row {
    var provider := First(cand.provider, c.provider);
    Row(cand.file, First(cand.index, c.index), KnownAccount(provider, Wanted(cand, s).snapshot, c, s), provider,
        cand.reason, cand.window, cand.event, cand.evidence, cand.reset, cand.owner, false, Active)
  }

  /** Codex needs the auth index; others an index, or a provider and an account. */
  predicate Stable(r: Row) {
    if r.index == "" then r.provider != "codex" && r.provider != "" && r.snapshot != "" else true
  }

  predicate Acceptable(cand: Candidate, s: CandidateReplies) {
    && cand.file != "" && cand.reset > s.now && s.acquired
    && (cand.provider == "codex" ==> cand.index != "" && s.workspaceOk)
  }

  function RollBack(w: World, c: Cred, s: Undoing): World {
    var looked := Look(w, IdentityOf(c), s.look);
    match Resolve(looked.files, IdentityOf(c), s.look)
    case Target(file) =>
      PatchEnable(Interfere(looked, s.patch.meanwhile), file.cred, Rollback, s.patch.call)
    case _ => looked
  }

  /** The rollback found the credential again and its enable was confirmed. */
  predicate RolledBack(c: Cred, s: Undoing) {
    Resolve(s.look.meanwhile.files, IdentityOf(c), s.look).Target? && s.patch.call == Done
  }

  function Patched(w: World, c: Cred, s: CandidateReplies): World {
    PatchDisable(Interfere(w, s.patch.meanwhile), c, s.patch.call)
  }

  function Saved(w: World, cand: Candidate, c: Cred, s: CandidateReplies): (World, bool)
    requires |w.accepted| == |w.rows|
  {
    Upsert(Interfere(Patched(w, c, s), s.save.meanwhile), NewRow(cand, c, s), true, cand, s.save.call)
  }

  function Disabling(w: World, cand: Candidate, c: Cred, s: CandidateReplies): World
    requires |w.accepted| == |w.rows|
  {
    var patched := Patched(w, c, s);
    if s.patch.call != Done then patched
    else
      var saved := Saved(w, cand, c, s);
      if saved.1 then saved.0 else RollBack(saved.0, c, s.undo)
  }

  function Handle(w: World, cand: Candidate, s: CandidateReplies): World
    requires |w.accepted| == |w.rows|
  {
    if !Acceptable(cand, s) then w
    else
      var looked := Look(w, Wanted(cand, s), s.look);
      match Resolve(looked.files, Wanted(cand, s), s.look)
      case Target(file) =>
        var row := NewRow(cand, file.cred, s);
        if !Stable(row) || (row.provider == "codex" && !s.currentOk) then looked
        else if file.disabled then Extend(looked, cand, file.cred, s)
        else Disabling(looked, cand, file.cred, s)
      case _ => looked
  }

  // ----- extendExistingCooldown -----

  /** quotaCooldownMatchesIdentity; agrees is the verdict on codex member and workspace evidence. */
  predicate Matches(r: Row, index: string, provider: string, snapshot: string, agrees: bool) {
    if provider == "codex" || r.provider == "codex" then
      provider == "codex" && r.provider == "codex" && r.index != "" && r.index == index && agrees
    else if r.index != "" then index != "" && r.index == index
    else
      var account := Snapshot(r.file, r.snapshot);
      account != "" && account == snapshot && r.provider != "" && r.provider == provider
  }

  /** The loop over the active rows, which stops at the first that matches. */
  function FirstOwned(rows: seq<Row>, ids: seq<nat>, cand: Candidate, index: string, provider: string, snapshot: string,
                      agrees: set<nat>): (r: Option<nat>)
    ensures r.Some? ==> r.value in ids && r.value < |rows|
    ensures r.Some? ==> rows[r.value].file == cand.file && rows[r.value].owner == cand.owner
    ensures r.Some? ==> Matches(rows[r.value], index, provider, snapshot, r.value in agrees)
  {
    if |ids| == 0 then None
    else
      var id := ids[0];
      if id < |rows| && rows[id].file == cand.file && rows[id].owner == cand.owner
        && Matches(rows[id], index, provider, snapshot, id in agrees)
      then Some(id)
      else FirstOwned(rows, ids[1..], cand, index, provider, snapshot, agrees)
  }

  datatype Option<T> = None | Some(value: T)

  /** mergeXAIProviderUsageEvidence. */
  function MergeEvidence(primary: Evidence, supplemental: Evidence, recoverAt: int): Evidence {
    if !primary.Usage? && !supplemental.Usage? then NoEvidence
    else if !primary.Usage? then Scheduled(supplemental, supplemental.recoverAt, recoverAt)
    else if !supplemental.Usage? then Scheduled(primary, primary.recoverAt, recoverAt)
    else
      var filled := primary.(fields := supplemental.fields + primary.fields);
      if primary.recoverAt == 0 && recoverAt > 0 && supplemental.recoverAt == recoverAt then
        Scheduled(filled.(estimated := supplemental.estimated), recoverAt, recoverAt)
      else Scheduled(filled, primary.recoverAt, recoverAt)
  }

  /** The final schedule; it counts as estimated when the evidence did not carry this time itself. */
  function Scheduled(e: Evidence, carried: int, recoverAt: int): Evidence
    requires e.Usage?
  {
    if recoverAt > 0 then e.(recoverAt := recoverAt, estimated := e.estimated || carried != recoverAt) else e
  }

  /** The row to store when a candidate meets a cooldown that is already active. */
  function Merged(held: Row, cand: Candidate, c: Cred, provider: string, snapshot: string): Row {
    var wins := cand.reset >= held.recoverAt;
    var recoverAt := if wins then cand.reset else held.recoverAt;
    var evidence :=
      if cand.owner == XaiFreeUsage then
        if wins then MergeEvidence(cand.evidence, held.evidence, recoverAt) else MergeEvidence(held.evidence, cand.evidence, recoverAt)
      else if wins then FirstEvidence(cand.evidence, held.evidence) else FirstEvidence(held.evidence, cand.evidence);
    Row(cand.file, First(cand.index, First(held.index, c.index)), First(snapshot, Snapshot(held.file, held.snapshot)),
        First(provider, held.provider),
        if wins then First(cand.reason, held.reason) else First(held.reason, cand.reason),
        if wins then First(cand.window, held.window) else First(held.window, cand.window),
        if wins then First(cand.event, held.event) else First(held.event, cand.event),
        evidence, recoverAt, cand.owner, false, Active)
  }

  function Extend(w: World, cand: Candidate, c: Cred, s: CandidateReplies): World
    requires |w.accepted| == |w.rows|
  {
    var index, provider := First(c.index, cand.index), First(c.provider, cand.provider);
    var snapshot := KnownAccount(provider, Snapshot(cand.file, cand.snapshot), c, s);
    if s.list.call != Done || (provider == "codex" && (index == "" || !s.currentOk)) then w
    else
      match FirstOwned(w.rows, ListActive(w.rows), cand, index, provider, snapshot, s.agrees)
      case None => w
      case Some(id) =>
        var held := w.rows[id];
        var heldAccount := Snapshot(held.file, held.snapshot);
        if held.index != "" && index != held.index then w
        else if held.index == "" && held.provider != "" && provider != "" && held.provider != provider then w
        else if held.index == "" && (heldAccount == "" || snapshot == "" || heldAccount != snapshot) then w
        else Upsert(Interfere(w, s.save.meanwhile), Merged(held, cand, c, provider, snapshot), false, cand, s.save.call).0
  }

  // ----- recoverCooldown -----

  function RecoveryIdentity(r: Row, s: RecoveryReplies): Identity {
    Identity(r.file, r.index, r.provider, Account(r.provider, r.file, r.snapshot, s.member))
  }

  predicate Recoverable(r: Row, s: RecoveryReplies) {
    && !r.owner.UnknownOwner? && !r.preDisabled
    && (r.provider == "codex" ==> s.evidenceOk && r.index != "")
    && (r.index == "" ==> r.provider != "" && RecoveryIdentity(r, s).snapshot != "")
  }

  /** The enabled credential could not be marked recovered: disable it again. */
  function Reclaim(w: World, c: Cred, s: Undoing): World {
    var looked := Look(w, IdentityOf(c), s.look);
    match Resolve(looked.files, IdentityOf(c), s.look)
    case Target(file) =>
      PatchDisable(Interfere(looked, s.patch.meanwhile), file.cred, s.patch.call)
    case _ => looked
  }

  function Enabling(w: World, id: nat, c: Cred, cause: Cause, s: RecoveryReplies): World
    requires id < |w.rows|
  {
    var patched := PatchEnable(Interfere(w, s.patch.meanwhile), c, cause, s.patch.call);
    if s.patch.call != Done then patched
    else
      var looked := Look(patched, IdentityOf(c), s.verify);
      match Resolve(looked.files, IdentityOf(c), s.verify)
      case Target(file) =>
        if file.disabled then looked
        else
          var marked := Mark(looked, id, Recovered, s.mark.call);
          if s.mark.call == Done then marked else Reclaim(marked, c, s.undo)
      case _ => looked
  }

  function Recover(w: World, id: nat, cause: Cause, s: RecoveryReplies): World
    requires id < |w.rows|
  {
    var row := w.rows[id];
    if !Recoverable(row, s) then Mark(w, id, Skipped, s.mark.call)
    else if !s.acquired then w
    else
      var looked := Look(w, RecoveryIdentity(row, s), s.look);
      match Resolve(looked.files, RecoveryIdentity(row, s), s.look)
      case Unreachable => looked
      case Mismatch => Mark(looked, id, Skipped, s.mark.call)
      case NotFound => Mark(looked, id, Skipped, s.mark.call)
      case Target(file) =>
        if !file.disabled then Mark(looked, id, Recovered, s.mark.call)
        else Enabling(looked, id, file.cred, cause, s)
  }

  // ----- enableDueLocked and RecoverOwnedCooldown -----

  function Latest(cands: seq<Candidate>): int {
    if |cands| == 0 then 0
    else if |cands| == 1 then cands[0].reset
    else
      var n := |cands| - 1;
      var before := Latest(cands[..n]);
      if cands[n].reset >= before then cands[n].reset else before
  }

  /** A recovery changes nothing in the table but the status of its own row. */
  ghost predicate OnlyMarks(w: World, after: World, id: nat) {
    && |after.rows| == |w.rows| && after.accepted == w.accepted && id < |w.rows|
    && (forall k | 0 <= k < |w.rows| && k != id :: after.rows[k] == w.rows[k])
    && after.rows[id].(status := Active) == w.rows[id].(status := Active)
  }

  lemma ReclaimOnlyMarks(w: World, id: nat, c: Cred, s: Undoing)
    requires id < |w.rows|
    ensures OnlyMarks(w, Reclaim(w, c, s), id)
  {
    hide Resolve, Listed, SetFlag;
  }

  lemma EnablingOnlyMarks(w: World, id: nat, c: Cred, cause: Cause, s: RecoveryReplies)
    requires id < |w.rows|
    ensures OnlyMarks(w, Enabling(w, id, c, cause, s), id)
  {
    hide Resolve, Listed, SetFlag, Reclaim;
    var looked := Look(PatchEnable(Interfere(w, s.patch.meanwhile), c, cause, s.patch.call), IdentityOf(c), s.verify);
    ReclaimOnlyMarks(Mark(looked, id, Recovered, s.mark.call), id, c, s.undo);
  }

  lemma RecoverOnlyMarks(w: World, id: nat, cause: Cause, s: RecoveryReplies)
    requires id < |w.rows|
    ensures OnlyMarks(w, Recover(w, id, cause, s), id)
  {
    hide Resolve, Listed, Recoverable, RecoveryIdentity, Enabling;
    var looked := Look(w, RecoveryIdentity(w.rows[id], s), s.look);
    var found := Resolve(looked.files, RecoveryIdentity(w.rows[id], s), s.look);
    if found.Target? {
      EnablingOnlyMarks(looked, id, found.file.cred, cause, s);
    }
  }

  function EnableEach(w: World, due: seq<nat>, now: int, replies: seq<RecoveryReplies>): World
    requires |w.accepted| == |w.rows| && |due| <= |replies|
    requires forall i | 0 <= i < |due| :: due[i] < |w.rows|
    decreases |due|
  {
    if |due| == 0 then w
    else
      RecoverOnlyMarks(w, due[0], Timer(now), replies[0]);
      EnableEach(Recover(w, due[0], Timer(now), replies[0]), due[1..], now, replies[1..])
  }

  function EnableDue(w: World, now: int, listed: bool, replies: seq<RecoveryReplies>): World
    requires |w.accepted| == |w.rows| && |replies| >= DUE_LIMIT
  {
    DueFacts(w.rows, now);
    if listed then EnableEach(w, ListDue(w.rows, now), now, replies) else w
  }

  function OwnedBy(rows: seq<Row>, file: string, index: string): seq<nat> {
    Ids(rows, (r: Row) => r.status == Active && r.owner == Usage429 && !r.preDisabled
      && r.file == file && r.index == index && r.provider == "codex")
  }

  function RecoverOwned(w: World, file: string, index: string, listed: bool, s: RecoveryReplies): World {
    var owned := OwnedBy(w.rows, file, index);
    if file == "" || index == "" || !listed || |owned| != 1 then w
    else Recover(w, owned[0], Confirmed, s)
  }
}
