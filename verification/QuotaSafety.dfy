/**
  What the quota cooldown worker keeps over every run: it enables only what it
  disabled itself right after a look that showed it enabled, an active row
  belongs to such a credential and to no other, and it reflects the candidates
  accepted for it.
 */
module QuotaSafety {
  import opened QuotaWorld
  import opened QuotaCooldown

  // ----- What is kept -----

  /** A look showed the credential enabled, and the request right after it to disable it was confirmed. */
  ghost predicate Earned(log: seq<Act>, c: Cred) {
    exists k :: 0 <= k < |log| - 1 && log[k] == Saw(c, false) && log[k + 1] == Disable(c, Done)
  }

  /** Every enable was earned. */
  ghost predicate LogSafe(log: seq<Act>) {
    forall i | 0 <= i < |log| && log[i].Enable? :: Earned(log[..i], log[i].cred)
  }

  /** The row names this credential. */
  ghost predicate Locates(r: Row, c: Cred) {
    r.file == c.file
    && if r.index != "" then r.index == c.index else c.index == "" && r.provider == c.provider && r.snapshot == c.snapshot
  }

  /** Each owner deals with the credentials of one provider. */
  predicate OwnerFits(owner: Owner, provider: string) {
    (owner == Usage429 && provider == "codex") || (owner == XaiFreeUsage && provider == "xai")
  }

  /** What the row says of the credential: its provider, if anything its account, and that it was enabled before. */
  ghost predicate Describes(r: Row, c: Cred) {
    && r.provider == c.provider && !r.preDisabled && r.snapshot == Snapshot(r.file, r.snapshot)
    && (r.provider != "codex" && r.snapshot != "" ==> r.snapshot == c.snapshot)
  }

  ghost predicate Owned(creds: set<Cred>, log: seq<Act>, r: Row) {
    Stable(r) && OwnerFits(r.owner, r.provider) && exists c | c in creds :: Locates(r, c) && Earned(log, c) && Describes(r, c)
  }

  ghost predicate RowsOwned(creds: set<Cred>, log: seq<Act>, rows: seq<Row>) {
    forall id | 0 <= id < |rows| && rows[id].status == Active :: Owned(creds, log, rows[id])
  }

  /** One owner has at most one active row for a credential. */
  ghost predicate Solo(creds: set<Cred>, rows: seq<Row>) {
    forall i, j, c | 0 <= i < |rows| && 0 <= j < |rows| && i != j && c in creds
      && rows[i].status == Active && rows[j].status == Active && rows[i].owner == rows[j].owner && Locates(rows[i], c)
      :: !Locates(rows[j], c)
  }

  /** A row that still stands for the credential: active, or set aside on purpose. */
  ghost predicate Covered(rows: seq<Row>, c: Cred) {
    exists id :: 0 <= id < |rows| && rows[id].status != Recovered && Locates(rows[id], c)
  }

  ghost predicate LeftDisabled(creds: set<Cred>, w: World) {
    forall c | c in w.left :: c in creds && !Listed(w.files, c, false)
  }

  /** Who disabled a credential is known of every one that is listed as disabled, and said of none that is listed as enabled. */
  ghost predicate SomebodyDisabled(w: World) {
    && (forall c | Listed(w.files, c, true) :: c in w.left || c in w.foreign)
    && (forall c | c in w.foreign :: !Listed(w.files, c, false))
  }

  // ----- What a row reflects -----

  ghost predicate Winner(cands: seq<Candidate>, win: int) {
    && 0 <= win < |cands|
    && (forall k | 0 <= k < win :: cands[k].reset <= cands[win].reset)
    && (forall k | win < k < |cands| :: cands[k].reset < cands[win].reset)
  }

  /** The value of the winner if it has one; nothing only if no candidate had any; never made up. */
  ghost predicate TextFrom(value: string, cands: seq<Candidate>, win: int, f: Candidate -> string)
    requires 0 <= win < |cands|
  {
    && (f(cands[win]) != "" ==> value == f(cands[win]))
    && (value == "" ==> forall k | 0 <= k < |cands| :: f(cands[k]) == "")
    && (value != "" ==> exists k :: 0 <= k < |cands| && f(cands[k]) == value)
  }

  ghost predicate EvidenceFrom(r: Row, cands: seq<Candidate>, win: int)
    requires 0 <= win < |cands|
  {
    var e, best := r.evidence, cands[win].evidence;
    if r.owner == XaiFreeUsage then
      && (e.Usage? ==> e.recoverAt == r.recoverAt)
      && (best.Usage? ==> e.Usage? && e.estimated == best.estimated)
      && (best.Usage? ==> forall k | k in best.fields :: k in e.fields && e.fields[k] == best.fields[k])
      && ((exists k :: 0 <= k < |cands| && cands[k].evidence.Usage?) ==> e.Usage?)
    else
      && (best != NoEvidence ==> e == best)
      && ((exists k :: 0 <= k < |cands| && cands[k].evidence != NoEvidence) ==> e != NoEvidence)
  }

  /** The row stands for all candidates accepted since the disable: the latest maximal reset wins. */
  ghost predicate Reflects(r: Row, cands: seq<Candidate>) {
    exists win :: Winner(cands, win) && r.recoverAt == cands[win].reset && r.recoverAt > 0
      && TextFrom(r.reason, cands, win, (c: Candidate) => c.reason)
      && TextFrom(r.window, cands, win, (c: Candidate) => c.window)
      && TextFrom(r.event, cands, win, (c: Candidate) => c.event)
      && EvidenceFrom(r, cands, win)
  }

  ghost predicate RowsReflect(w: World) {
    |w.accepted| == |w.rows| && forall id | 0 <= id < |w.rows| && w.rows[id].status == Active :: Reflects(w.rows[id], w.accepted[id])
  }

  ghost predicate Invariant(creds: set<Cred>, w: World) {
    && Distinguishable(creds) && Listing(creds, w.files) && LeftDisabled(creds, w) && SomebodyDisabled(w)
    && LogSafe(w.log) && RowsOwned(creds, w.log, w.rows) && Solo(creds, w.rows) && RowsReflect(w)
  }

  // ----- The log -----

  lemma EarnedGrows(log: seq<Act>, more: seq<Act>, c: Cred)
    requires Earned(log, c)
    ensures Earned(log + more, c)
  {
    var k :| 0 <= k < |log| - 1 && log[k] == Saw(c, false) && log[k + 1] == Disable(c, Done);
    assert (log + more)[k] == Saw(c, false) && (log + more)[k + 1] == Disable(c, Done);
  }

  lemma LogGrows(creds: set<Cred>, log: seq<Act>, act: Act, rows: seq<Row>)
    requires LogSafe(log) && RowsOwned(creds, log, rows)
    requires act.Enable? ==> Earned(log, act.cred)
    ensures LogSafe(log + [act]) && RowsOwned(creds, log + [act], rows)
  {
    hide Earned, Locates, Stable;
    var log' := log + [act];
    forall i | 0 <= i < |log'| && log'[i].Enable?
      ensures Earned(log'[..i], log'[i].cred)
    {
      if i < |log| { assert log'[..i] == log[..i]; } else { assert log'[..i] == log; }
    }
    forall id | 0 <= id < |rows| && rows[id].status == Active ensures Owned(creds, log', rows[id]) {
      var c :| c in creds && Locates(rows[id], c) && Earned(log, c) && Describes(rows[id], c);
      EarnedGrows(log, [act], c);
    }
  }

  // ----- Identity -----

  lemma LocatesOne(creds: set<Cred>, r: Row, c: Cred, d: Cred)
    requires Distinguishable(creds) && c in creds && d in creds && Locates(r, c) && Locates(r, d)
    ensures c == d
  {
  }

  lemma {:induction false} MatchingAreListed(files: seq<File>, file: string, index: string, i: nat)
    requires i < |Matching(files, file, index)|
    ensures exists k :: 0 <= k < |files| && files[k] == Matching(files, file, index)[i]
  {
  }

  lemma TargetFacts(creds: set<Cred>, files: seq<File>, want: Identity, reply: Reply)
    requires Listing(creds, files) && Resolve(files, want, reply).Target?
    ensures var f := Resolve(files, want, reply).file;
      && f.cred in creds && Listed(files, f.cred, f.disabled) && f.cred.file == want.file
      && (want.index != "" ==> f.cred.index == want.index)
      && (want.provider != "" ==> f.cred.provider == want.provider)
      && (f.cred.provider != "codex" && want.snapshot != "" ==> f.cred.snapshot == want.snapshot)
  {
    var f := Resolve(files, want, reply).file;
    MatchingAreListed(files, want.file, want.index, 0);
    var k :| 0 <= k < |files| && files[k] == f;
    assert files[k] == File(f.cred, f.disabled);
  }

  /** A credential the worker can find again. */
  ghost predicate Firm(c: Cred) {
    c.index != "" || (c.provider != "" && c.provider != "codex" && c.snapshot != "")
  }

  lemma FoundAgain(creds: set<Cred>, files: seq<File>, c: Cred, reply: Reply)
    requires Distinguishable(creds) && Listing(creds, files) && c in creds && Firm(c)
    requires Resolve(files, IdentityOf(c), reply).Target?
    ensures Resolve(files, IdentityOf(c), reply).file.cred == c
  {
    hide Resolve;
    TargetFacts(creds, files, IdentityOf(c), reply);
  }

  lemma RowFindsItsCredential(creds: set<Cred>, files: seq<File>, r: Row, c: Cred, s: RecoveryReplies)
    requires Distinguishable(creds) && Listing(creds, files) && c in creds && Locates(r, c)
    requires Recoverable(r, s) && Resolve(files, RecoveryIdentity(r, s), s.look).Target?
    ensures Resolve(files, RecoveryIdentity(r, s), s.look).file.cred == c && Firm(c)
  {
    hide Resolve;
    TargetFacts(creds, files, RecoveryIdentity(r, s), s.look);
  }

  /** The row, as it will be stored, names this credential. */
  ghost predicate Names(r: Row, c: Cred) {
    var stored := r.(snapshot := Snapshot(r.file, r.snapshot));
    Stable(stored) && Locates(stored, c)
  }

  /** The row has no provider or account but the listed ones. */
  ghost predicate Exact(r: Row, c: Cred) {
    var snapshot := Snapshot(r.file, r.snapshot);
    r.provider == c.provider && (r.provider != "codex" && snapshot != "" ==> snapshot == c.snapshot)
  }

  lemma NewRowLocates(creds: set<Cred>, files: seq<File>, cand: Candidate, s: CandidateReplies)
    requires Listing(creds, files) && Acceptable(cand, s) && Resolve(files, Wanted(cand, s), s.look).Target?
    ensures var c := Resolve(files, Wanted(cand, s), s.look).file.cred; Stable(NewRow(cand, c, s)) ==>
      Names(NewRow(cand, c, s), c) && Exact(NewRow(cand, c, s), c) && Firm(c)
  {
    hide Resolve;
    TargetFacts(creds, files, Wanted(cand, s), s.look);
  }

  // ----- The calls -----

  lemma InterfereKeeps(creds: set<Cred>, w: World, m: Meanwhile)
    requires Invariant(creds, w) && Listing(creds, m.files)
    ensures Invariant(creds, Interfere(w, m))
  {
    hide Listed, LogSafe, RowsOwned, Solo, Reflects, Distinguishable, Listing;
    forall c | Listed(m.files, c, true) ensures c in DisabledIn(m.files) && !Listed(m.files, c, false) {
      ListedOnce(creds, m.files, c);
    }
  }

  lemma ListedOnce(creds: set<Cred>, files: seq<File>, c: Cred)
    requires Listing(creds, files) && Listed(files, c, true)
    ensures c in DisabledIn(files) && !Listed(files, c, false)
  {
    var i :| 0 <= i < |files| && files[i] == File(c, true);
    assert files[i] in files;
  }

  /** A look logs at most what it found. */
  lemma LookIs(w: World, want: Identity, reply: Reply)
    ensures var now, found := Interfere(w, reply.meanwhile), Resolve(reply.meanwhile.files, want, reply);
      Look(w, want, reply) == if found.Target? then now.(log := now.log + [Saw(found.file.cred, found.file.disabled)]) else now
    ensures Look(w, want, reply).files == reply.meanwhile.files
    ensures Look(w, want, reply).rows == w.rows && Look(w, want, reply).accepted == w.accepted
  {
    hide Resolve, Listed;
  }

  lemma LookKeeps(creds: set<Cred>, w: World, want: Identity, reply: Reply)
    requires Invariant(creds, w) && Possible(creds, reply)
    ensures Invariant(creds, Look(w, want, reply))
  {
    LookIs(w, want, reply);
    InterfereKeeps(creds, w, reply.meanwhile);
    hide Look, Interfere, Resolve, Listed, LogSafe, RowsOwned, Solo, Reflects, Distinguishable, Listing;
    var now, found := Interfere(w, reply.meanwhile), Resolve(reply.meanwhile.files, want, reply);
    if found.Target? { LogGrows(creds, now.log, Saw(found.file.cred, found.file.disabled), now.rows); }
  }

  lemma LookEarned(w: World, want: Identity, reply: Reply, c: Cred)
    requires Earned(w.log, c)
    ensures Earned(Look(w, want, reply).log, c)
  {
    hide Earned, Resolve, Listed;
    var found := Resolve(reply.meanwhile.files, want, reply);
    if found.Target? { EarnedGrows(w.log, [Saw(found.file.cred, found.file.disabled)], c); }
  }

  lemma FlagFacts(creds: set<Cred>, files: seq<File>, c: Cred, disabled: bool)
    requires Listing(creds, files)
    ensures Listing(creds, SetFlag(files, c, disabled))
    ensures disabled ==> !Listed(SetFlag(files, c, disabled), c, false)
    ensures !disabled ==> !Listed(SetFlag(files, c, disabled), c, true)
    ensures forall d | d != c && !Listed(files, d, true) :: !Listed(SetFlag(files, c, disabled), d, true)
    ensures forall d | d != c && !Listed(files, d, false) :: !Listed(SetFlag(files, c, disabled), d, false)
  {
    var after := SetFlag(files, c, disabled);
    forall d | d != c && Listed(after, d, false) ensures Listed(files, d, false) {
      var i :| 0 <= i < |after| && after[i] == File(d, false);
      assert files[i] == File(d, false);
    }
    forall d | d != c && Listed(after, d, true) ensures Listed(files, d, true) {
      var i :| 0 <= i < |after| && after[i] == File(d, true);
      assert files[i] == File(d, true);
    }
  }

  lemma DisableKeeps(creds: set<Cred>, w: World, c: Cred, call: Call)
    requires Invariant(creds, w) && c in creds
    ensures Invariant(creds, PatchDisable(w, c, call))
  {
    hide Listed, LogSafe, RowsOwned, Solo, Reflects, Distinguishable, Listing;
    LogGrows(creds, w.log, Disable(c, call), w.rows);
    FlagFacts(creds, w.files, c, true);
  }

  lemma EnableKeeps(creds: set<Cred>, w: World, c: Cred, cause: Cause, call: Call)
    requires Invariant(creds, w) && Earned(w.log, c)
    ensures Invariant(creds, PatchEnable(w, c, cause, call))
    ensures call != Failed ==> c !in PatchEnable(w, c, cause, call).left
  {
    hide Listed, LogSafe, RowsOwned, Solo, Reflects, Distinguishable, Listing, Earned;
    LogGrows(creds, w.log, Enable(c, cause), w.rows);
    FlagFacts(creds, w.files, c, false);
  }

  lemma MarkKeeps(creds: set<Cred>, w: World, id: nat, status: Status, call: Call)
    requires Invariant(creds, w) && id < |w.rows| && w.rows[id].status == Active && status != Active
    ensures Invariant(creds, Mark(w, id, status, call))
  {
    hide Listed, LogSafe, Owned, Reflects, Listing, Locates;
    var after := Mark(w, id, status, call);
    forall i, j, d | 0 <= i < |after.rows| && 0 <= j < |after.rows| && i != j && d in creds
      && after.rows[i].status == Active && after.rows[j].status == Active && after.rows[i].owner == after.rows[j].owner
      && Locates(after.rows[i], d)
      ensures !Locates(after.rows[j], d)
    {
      StatusAside(w.rows[i], after.rows[i], d);
      StatusAside(w.rows[j], after.rows[j], d);
    }
  }

  lemma StatusAside(r: Row, r': Row, c: Cred)
    requires r.(status := Active) == r'.(status := Active)
    ensures Locates(r, c) == Locates(r', c)
  {
  }

  // ----- Storing a row -----

  predicate KeyOf(r: Row, u: Row) {
    SameKey(r, u.file, u.owner, u.index, u.provider, u.snapshot)
  }

  predicate WeakKeyOf(r: Row, u: Row) {
    SameKey(r, u.file, u.owner, "", u.provider, u.snapshot)
  }

  /** The key of a row finds exactly the active rows of its owner for the same credential. */
  lemma KeyFinds(creds: set<Cred>, log: seq<Act>, r: Row, u: Row, c: Cred)
    requires Distinguishable(creds) && c in creds && Names(u, c) && u.snapshot == Snapshot(u.file, u.snapshot)
    requires r.status == Active && Owned(creds, log, r)
    ensures KeyOf(r, u) <==> r.owner == u.owner && Locates(r, c)
    ensures Exact(u, c) && u.index != "" && u.snapshot != "" ==> !WeakKeyOf(r, u)
  {
    hide Earned;
    if Exact(u, c) && u.snapshot != "" && WeakKeyOf(r, u) { WeakKeyLocates(creds, log, r, u, c); }
  }

  /** A row without an index that matches by provider and account belongs to a credential without an index. */
  lemma WeakKeyLocates(creds: set<Cred>, log: seq<Act>, r: Row, u: Row, c: Cred)
    requires Distinguishable(creds) && c in creds && u.file == c.file && Exact(u, c) && u.snapshot != ""
    requires u.snapshot == Snapshot(u.file, u.snapshot) && Owned(creds, log, r) && WeakKeyOf(r, u)
    ensures c.index == ""
  {
    hide Earned;
    var d :| d in creds && Locates(r, d) && Earned(log, d);
    assert d == c;
  }

  lemma TwoIds(ids: seq<nat>)
    requires |ids| > 1 && forall i, j | 0 <= i < j < |ids| :: ids[i] < ids[j]
    ensures exists a, b :: a in ids && b in ids && a != b
  {
    assert ids[0] in ids && ids[1] in ids;
  }

  lemma OneId(ids: seq<nat>)
    requires |ids| > 0
    ensures exists a :: a in ids
  {
    assert ids[0] in ids;
  }

  lemma FindCredential(creds: set<Cred>, log: seq<Act>, rows: seq<Row>, u: Row, c: Cred)
    requires Distinguishable(creds) && c in creds && Names(u, c) && u.snapshot == Snapshot(u.file, u.snapshot)
    requires RowsOwned(creds, log, rows) && Solo(creds, rows)
    requires Exact(u, c) || exists id :: 0 <= id < |rows| && rows[id].status == Active && rows[id].owner == u.owner && Locates(rows[id], c)
    ensures !FindOwned(rows, u).Ambiguous?
    ensures FindOwned(rows, u).Nothing? ==>
      forall id | 0 <= id < |rows| && rows[id].status == Active && rows[id].owner == u.owner :: !Locates(rows[id], c)
    ensures FindOwned(rows, u).One? ==>
      var r := rows[FindOwned(rows, u).id]; r.status == Active && r.owner == u.owner && Locates(r, c)
  {
    hide Owned, Names, Exact, Distinguishable, Locates, SameKey;
    var p := (r: Row) => SameKey(r, u.file, u.owner, u.index, u.provider, u.snapshot);
    var q := (r: Row) => SameKey(r, u.file, u.owner, "", u.provider, u.snapshot);
    var ids, weak := Ids(rows, p), Ids(rows, q);
    forall id | 0 <= id < |rows| && rows[id].status == Active
      ensures p(rows[id]) <==> rows[id].owner == u.owner && Locates(rows[id], c)
      ensures Exact(u, c) && u.index != "" && u.snapshot != "" ==> !q(rows[id])
    {
      KeyFinds(creds, log, rows[id], u, c);
    }
    KeyIsActive(rows, u);
    if |ids| > 1 { TwoIds(ids); }
    if |weak| > 0 { OneId(weak); }
  }

  lemma KeyIsActive(rows: seq<Row>, u: Row)
    ensures forall r: Row | SameKey(r, u.file, u.owner, u.index, u.provider, u.snapshot) :: r.status == Active
    ensures forall r: Row | SameKey(r, u.file, u.owner, "", u.provider, u.snapshot) :: r.status == Active
  {
  }

  /** What a candidate made from an event is like: its owner goes with its provider, and its metadata carries its own reset. */
  predicate Proper(cand: Candidate) {
    OwnerFits(cand.owner, cand.provider) && (cand.evidence.Usage? ==> cand.evidence.recoverAt == cand.reset)
  }

  predicate Carries(u: Row, cand: Candidate) {
    && u.recoverAt == cand.reset && u.reason == cand.reason && u.window == cand.window && u.event == cand.event
    && u.evidence == cand.evidence && u.owner == cand.owner && u.provider == cand.provider && Proper(cand)
  }

  lemma FirstReflects(u: Row, cand: Candidate)
    requires Carries(u, cand) && u.recoverAt > 0
    ensures Reflects(u, [cand])
  {
    var cands := [cand];
    assert Winner(cands, 0);
    assert cands[0] == cand;
  }

  lemma InsertKeeps(creds: set<Cred>, w: World, u: Row, c: Cred, cand: Candidate, call: Call)
    requires Invariant(creds, w) && c in creds && Earned(w.log, c)
    requires Names(u, c) && Exact(u, c) && u.status == Active && !u.preDisabled && Carries(u, cand)
    ensures Invariant(creds, Upsert(w, u, true, cand, call).0)
    ensures Upsert(w, u, true, cand, call).0.log == w.log
  {
    hide Listed, LogSafe, Locates, Reflects, Distinguishable, Listing, FindOwned, Earned, Stable;
    var stored := u.(snapshot := Snapshot(u.file, u.snapshot));
    if call != Failed && Store(w.rows, u, true).Inserted? {
      FindCredential(creds, w.log, w.rows, stored, c);
      FirstReflects(stored, cand);
      var rows := Store(w.rows, u, true).rows;
      assert rows[|w.rows|] == stored;
      InsertedRows(creds, w, stored, c, rows);
    }
  }

  /** Rows of the table after an insert: the old ones, of which at most one was closed, and the new one. */
  lemma InsertedRows(creds: set<Cred>, w: World, u: Row, c: Cred, rows: seq<Row>)
    requires Invariant(creds, w) && c in creds && Earned(w.log, c)
    requires Describes(u, c) && OwnerFits(u.owner, u.provider)
    requires u.status == Active && Locates(u, c) && Stable(u) && |rows| == |w.rows| + 1 && rows[|w.rows|] == u
    requires forall k | 0 <= k < |w.rows| && rows[k] != w.rows[k] ::
      Locates(w.rows[k], c) && rows[k] == w.rows[k].(status := Recovered)
    requires forall k | 0 <= k < |w.rows| && rows[k].status == Active && rows[k].owner == u.owner :: !Locates(rows[k], c)
    ensures RowsOwned(creds, w.log, rows) && Solo(creds, rows)
  {
    hide Listed, LogSafe, Locates, Reflects, Distinguishable, Listing, Earned, Stable;
    forall i, j, d | 0 <= i < |rows| && 0 <= j < |rows| && i != j && d in creds
      && rows[i].status == Active && rows[j].status == Active && rows[i].owner == rows[j].owner && Locates(rows[i], d)
      ensures !Locates(rows[j], d)
    {
      if i == |w.rows| { if Locates(rows[j], d) { LocatesOne(creds, u, c, d); } }
      else if j == |w.rows| { if Locates(rows[j], d) { LocatesOne(creds, u, c, d); } }
    }
  }

  // ----- Extending a cooldown -----

  /** Accepting one more candidate: it takes over when its reset is no earlier, and else only fills in. */
  lemma TextAccepts(value: string, cands: seq<Candidate>, win: int, f: Candidate -> string, cand: Candidate, wins: bool)
    requires 0 <= win < |cands| && TextFrom(value, cands, win, f)
    ensures TextFrom(First(if wins then First(f(cand), value) else First(value, f(cand)), value),
                     cands + [cand], if wins then |cands| else win, f)
  {
    var all := cands + [cand];
    assert all[|cands|] == cand && forall k | 0 <= k < |cands| :: all[k] == cands[k];
    var r := First(if wins then First(f(cand), value) else First(value, f(cand)), value);
    if r != "" {
      if r == f(cand) { assert f(all[|cands|]) == r; }
      else {
        var k :| 0 <= k < |cands| && f(cands[k]) == r;
        assert f(all[k]) == r;
      }
    }
  }

  lemma WinnerAccepts(cands: seq<Candidate>, win: int, cand: Candidate)
    requires Winner(cands, win)
    ensures Winner(cands + [cand], if cand.reset >= cands[win].reset then |cands| else win)
  {
    var all := cands + [cand];
    assert all[|cands|] == cand && forall k | 0 <= k < |cands| :: all[k] == cands[k];
  }

  function NewEvidence(held: Row, cand: Candidate, wins: bool, recoverAt: int): Evidence {
    FirstEvidence(
      if cand.owner == XaiFreeUsage then
        if wins then MergeEvidence(cand.evidence, held.evidence, recoverAt) else MergeEvidence(held.evidence, cand.evidence, recoverAt)
      else if wins then FirstEvidence(cand.evidence, held.evidence) else FirstEvidence(held.evidence, cand.evidence),
      held.evidence)
  }

  lemma EvidenceAccepts(held: Row, r: Row, cands: seq<Candidate>, win: int, cand: Candidate)
    requires Winner(cands, win) && EvidenceFrom(held, cands, win) && held.recoverAt == cands[win].reset && held.recoverAt > 0
    requires r.owner == held.owner && cand.owner == held.owner && Proper(cand)
    requires var wins := cand.reset >= held.recoverAt;
      && r.recoverAt == (if wins then cand.reset else held.recoverAt)
      && r.evidence == NewEvidence(held, cand, wins, r.recoverAt)
    ensures EvidenceFrom(r, cands + [cand], if cand.reset >= held.recoverAt then |cands| else win)
  {
    var all := cands + [cand];
    assert all[|cands|] == cand && forall k | 0 <= k < |cands| :: all[k] == cands[k];
  }

  lemma ExtendedReflects(held: Row, cands: seq<Candidate>, cand: Candidate, c: Cred, provider: string, snapshot: string)
    requires Reflects(held, cands) && cand.owner == held.owner && Proper(cand)
    ensures Reflects(Updated(held, Merged(held, cand, c, provider, snapshot)), cands + [cand])
  {
    hide TextFrom, EvidenceFrom, MergeEvidence;
    var win :| Winner(cands, win) && held.recoverAt == cands[win].reset
      && TextFrom(held.reason, cands, win, (c: Candidate) => c.reason)
      && TextFrom(held.window, cands, win, (c: Candidate) => c.window)
      && TextFrom(held.event, cands, win, (c: Candidate) => c.event)
      && EvidenceFrom(held, cands, win);
    var wins := cand.reset >= held.recoverAt;
    var win' := if wins then |cands| else win;
    var r := Updated(held, Merged(held, cand, c, provider, snapshot));
    WinnerAccepts(cands, win, cand);
    TextAccepts(held.reason, cands, win, (c: Candidate) => c.reason, cand, wins);
    TextAccepts(held.window, cands, win, (c: Candidate) => c.window, cand, wins);
    TextAccepts(held.event, cands, win, (c: Candidate) => c.event, cand, wins);
    EvidenceAccepts(held, r, cands, win, cand);
    assert Winner(cands + [cand], win') && r.recoverAt == (cands + [cand])[win'].reset;
  }

  /** What the candidate and the listing say of a target's account is the target's own account. */
  lemma KnownIsListed(files: seq<File>, creds: set<Cred>, cand: Candidate, s: CandidateReplies)
    requires Listing(creds, files) && Resolve(files, Wanted(cand, s), s.look).Target?
    ensures var c := Resolve(files, Wanted(cand, s), s.look).file.cred;
      var provider := First(c.provider, cand.provider);
      var snapshot := KnownAccount(provider, Snapshot(cand.file, cand.snapshot), c, s);
      && c in creds && c.file == cand.file
      && provider == c.provider && (cand.provider != "" ==> c.provider == cand.provider)
      && (cand.index != "" ==> c.index == cand.index)
      && First(c.index, cand.index) == c.index
      && (provider != "codex" && snapshot != "" ==> snapshot == c.snapshot)
  {
    hide Resolve, Listing;
    TargetFacts(creds, files, Wanted(cand, s), s.look);
  }

  /** A row that locates a credential by what is known of another locates that other. */
  lemma MatchIsOwner(creds: set<Cred>, held: Row, c: Cred, d: Cred)
    requires Distinguishable(creds) && c in creds && d in creds && Locates(held, d) && held.file == c.file
    requires held.index != "" ==> c.index == held.index
    requires held.index == "" ==> held.provider == c.provider && held.snapshot == c.snapshot
    ensures c == d
  {
  }

  lemma MergedNames(held: Row, cand: Candidate, c: Cred, provider: string, snapshot: string)
    requires cand.file == c.file && provider == c.provider
    requires cand.index != "" ==> c.index == cand.index
    requires held.index != "" ==> c.index == held.index
    requires held.index == "" ==> provider != "" && provider != "codex" && snapshot == c.snapshot && snapshot != "" && snapshot != c.file
    ensures Names(Merged(held, cand, c, provider, snapshot), c)
  {
    hide MergeEvidence, FirstEvidence;
  }

  /** The active row that matches the current credential is the one that owns it. */
  lemma OwnedRowLocates(creds: set<Cred>, log: seq<Act>, files: seq<File>, cand: Candidate, s: CandidateReplies, held: Row, agrees: bool)
    requires Distinguishable(creds) && Listing(creds, files) && Acceptable(cand, s)
    requires Resolve(files, Wanted(cand, s), s.look).Target? && Owned(creds, log, held) && held.file == cand.file
    requires var c := Resolve(files, Wanted(cand, s), s.look).file.cred;
      && var index, provider := First(c.index, cand.index), First(c.provider, cand.provider);
      && var snapshot := KnownAccount(provider, Snapshot(cand.file, cand.snapshot), c, s);
      && Matches(held, index, provider, snapshot, agrees)
      && (held.index != "" ==> index == held.index)
      && (held.index == "" ==> Snapshot(held.file, held.snapshot) == snapshot && snapshot != "")
    ensures var c := Resolve(files, Wanted(cand, s), s.look).file.cred;
      var snapshot := KnownAccount(First(c.provider, cand.provider), Snapshot(cand.file, cand.snapshot), c, s);
      && Locates(held, c) && Earned(log, c)
      && Names(Merged(held, cand, c, First(c.provider, cand.provider), snapshot), c)
  {
    hide Resolve, Earned, Listing, Distinguishable, Merged, Wanted, KnownAccount, Names;
    var c := Resolve(files, Wanted(cand, s), s.look).file.cred;
    var provider := First(c.provider, cand.provider);
    KnownIsListed(files, creds, cand, s);
    var d :| d in creds && Locates(held, d) && Earned(log, d);
    MatchIsOwner(creds, held, c, d);
    MergedNames(held, cand, c, provider, KnownAccount(provider, Snapshot(cand.file, cand.snapshot), c, s));
  }

  /** The one row that an update writes, before and after. */
  lemma UpdatedRows(creds: set<Cred>, w: World, id: nat, r: Row, c: Cred)
    requires Invariant(creds, w) && id < |w.rows| && w.rows[id].status == Active && r.status == Active
    requires c in creds && Earned(w.log, c) && Locates(w.rows[id], c) && Locates(r, c) && Stable(r) && r.owner == w.rows[id].owner
    requires Describes(r, c) && OwnerFits(r.owner, r.provider)
    ensures RowsOwned(creds, w.log, w.rows[id := r]) && Solo(creds, w.rows[id := r])
  {
    hide Listed, LogSafe, Locates, Reflects, Distinguishable, Listing, Earned, Stable;
    var rows := w.rows[id := r];
    forall i, j, d | 0 <= i < |rows| && 0 <= j < |rows| && i != j && d in creds
      && rows[i].status == Active && rows[j].status == Active && rows[i].owner == rows[j].owner && Locates(rows[i], d)
      ensures !Locates(rows[j], d)
    {
      if Locates(r, d) { LocatesOne(creds, r, c, d); }
    }
  }

  lemma UpdateKeeps(creds: set<Cred>, w: World, id: nat, c: Cred, cand: Candidate, provider: string, snapshot: string, call: Call)
    requires Invariant(creds, w) && id < |w.rows| && w.rows[id].status == Active && c in creds
    requires Locates(w.rows[id], c) && Earned(w.log, c) && cand.owner == w.rows[id].owner && Proper(cand)
    requires Names(Merged(w.rows[id], cand, c, provider, snapshot), c) && provider == c.provider
    requires provider != "codex" && snapshot != "" ==> snapshot == c.snapshot
    ensures Invariant(creds, Upsert(w, Merged(w.rows[id], cand, c, provider, snapshot), false, cand, call).0)
  {
    hide Listed, LogSafe, Locates, Reflects, Distinguishable, Listing, FindOwned, Earned, Stable, Owned, Solo, Describes;
    var held := w.rows[id];
    var u := Merged(held, cand, c, provider, snapshot);
    var stored := u.(snapshot := Snapshot(u.file, u.snapshot));
    if call != Failed && stored.file != "" && stored.recoverAt > 0 {
      FindCredential(creds, w.log, w.rows, stored, c);
      SoloRow(creds, w.rows, id, FindOwned(w.rows, stored), stored, c);
      var r := Updated(held, stored);
      assert r == Updated(held, u).(snapshot := stored.snapshot);
      assert r.file == stored.file == c.file by { SameFile(held, c); SameFile(stored, c); }
      SameLocation(r, stored, c);
      assert Owned(creds, w.log, held);
      OwnedFits(creds, w.log, held, c);
      MergedDescribes(held, cand, c, snapshot);
      UpdatedRows(creds, w, id, r, c);
      ExtendedReflects(held, w.accepted[id], cand, c, provider, snapshot);
      SnapshotAside(Updated(held, u), stored.snapshot, w.accepted[id] + [cand]);
    }
  }

  /** An active row has the provider of the credential it locates. */
  lemma OwnedFits(creds: set<Cred>, log: seq<Act>, r: Row, c: Cred)
    requires Distinguishable(creds) && c in creds && Owned(creds, log, r) && Locates(r, c)
    ensures r.provider == c.provider && OwnerFits(r.owner, r.provider) && Describes(r, c) && Stable(r)
  {
    hide Earned, Distinguishable, Locates, Stable;
    var d :| d in creds && Locates(r, d) && Earned(log, d) && Describes(r, d);
    LocatesOne(creds, r, c, d);
  }

  lemma MergedDescribes(held: Row, cand: Candidate, c: Cred, snapshot: string)
    requires Describes(held, c) && Locates(held, c) && cand.file == c.file
    requires c.provider != "codex" && snapshot != "" ==> snapshot == c.snapshot
    ensures var u := Merged(held, cand, c, c.provider, snapshot);
      Describes(Updated(held, u.(snapshot := Snapshot(u.file, u.snapshot))), c)
  {
    hide MergeEvidence, FirstEvidence;
  }

  /** So a credential has at most one active row, whoever owns it. */
  lemma OneActiveRow(creds: set<Cred>, w: World, i: nat, j: nat, c: Cred)
    requires Invariant(creds, w) && c in creds && i < |w.rows| && j < |w.rows|
    requires w.rows[i].status == Active && w.rows[j].status == Active && Locates(w.rows[i], c) && Locates(w.rows[j], c)
    ensures i == j
  {
    hide Listed, LogSafe, Reflects, Distinguishable, Listing, Locates, Owned;
    OwnedFits(creds, w.log, w.rows[i], c);
    OwnedFits(creds, w.log, w.rows[j], c);
  }

  lemma SameFile(r: Row, c: Cred)
    requires Locates(r, c)
    ensures r.file == c.file
  {
  }

  lemma SameLocation(r: Row, u: Row, c: Cred)
    requires r.index == u.index && r.provider == u.provider && r.snapshot == u.snapshot && r.file == u.file
    requires Locates(u, c) && Stable(u)
    ensures Locates(r, c) && Stable(r)
  {
  }

  lemma SoloRow(creds: set<Cred>, rows: seq<Row>, id: nat, found: Found, u: Row, c: Cred)
    requires Solo(creds, rows) && c in creds && id < |rows| && rows[id].status == Active && rows[id].owner == u.owner
    requires Locates(rows[id], c) && !found.Ambiguous?
    requires found.Nothing? ==>
      forall k | 0 <= k < |rows| && rows[k].status == Active && rows[k].owner == u.owner :: !Locates(rows[k], c)
    requires found.One? ==> found.id < |rows| && rows[found.id].status == Active
    requires found.One? ==> rows[found.id].owner == u.owner && Locates(rows[found.id], c)
    ensures found == One(id)
  {
    hide Locates;
  }

  lemma SnapshotAside(r: Row, snapshot: string, cands: seq<Candidate>)
    requires Reflects(r, cands)
    ensures Reflects(r.(snapshot := snapshot), cands)
  {
    hide TextFrom;
    var win :| Winner(cands, win) && r.recoverAt == cands[win].reset && r.recoverAt > 0
      && TextFrom(r.reason, cands, win, (c: Candidate) => c.reason)
      && TextFrom(r.window, cands, win, (c: Candidate) => c.window)
      && TextFrom(r.event, cands, win, (c: Candidate) => c.event)
      && EvidenceFrom(r, cands, win);
    assert EvidenceFrom(r.(snapshot := snapshot), cands, win);
  }
}
