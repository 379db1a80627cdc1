/**
  The world the quota cooldown worker acts on: the credentials the remote proxy
  lists, each with a disabled flag that anyone may change at any time, and the
  table of cooldown rows that only the worker writes. Every call to either can
  succeed, fail without effect, or take effect and still report an error.
  Times are in milliseconds.
 */
module QuotaWorld {
  import opened Ordering

  // ----- The remote proxy -----

  /** A credential, with the attributes the worker identifies it by (trimmed and normalised). */
  datatype Cred = Cred(file: string, index: string, provider: string, snapshot: string)

  datatype File = File(cred: Cred, disabled: bool)

  /** What the worker asks for; empty attributes are not compared. */
  datatype Identity = Identity(file: string, index: string, provider: string, snapshot: string)

  /** Names too weak to tell two credentials apart do not occur. */
  ghost predicate Distinguishable(creds: set<Cred>) {
    forall c, d | c in creds && d in creds && c.file == d.file
      && ((c.index == d.index && c.index != "")
          || ((c.index == "" || d.index == "") && c.provider == d.provider && c.snapshot == d.snapshot))
      :: c == d
  }

  /** A listing of the remote: known credentials, none twice. */
  ghost predicate Listing(creds: set<Cred>, files: seq<File>) {
    && (forall i | 0 <= i < |files| :: files[i].cred in creds)
    && forall i, j | 0 <= i < j < |files| :: files[i].cred != files[j].cred
  }

  predicate Listed(files: seq<File>, c: Cred, disabled: bool) {
    exists i | 0 <= i < |files| :: files[i] == File(c, disabled)
  }

  /** statusMutationMatches. */
  function Matching(files: seq<File>, file: string, index: string): (r: seq<File>)
    ensures forall i | 0 <= i < |r| :: r[i] in files && r[i].cred.file == file && (index != "" ==> r[i].cred.index == index)
  {
    if |files| == 0 then []
    else
      var rest, last := Matching(files[..|files| - 1], file, index), files[|files| - 1];
      if last.cred.file == file && (index == "" || last.cred.index == index) then rest + [last] else rest
  }

  datatype Resolution = Target(file: File) | NotFound | Mismatch | Unreachable

  /**
    ResolveVerifiedStatusMutationTarget. The verdicts on codex member and
    workspace evidence, which can only refuse, come with the reply.
   */
  function Resolve(files: seq<File>, want: Identity, reply: Reply): Resolution {
    if reply.call != Done || want.file == "" then Unreachable
    else
      var found := Matching(files, want.file, want.index);
      if |found| == 0 then NotFound
      else if |found| > 1 then Unreachable
      else
        var c := found[0].cred;
        if want.provider != "" && c.provider != want.provider then Mismatch
        else if c.provider == "codex" then if reply.evidenceOk then Target(found[0]) else Mismatch
        else if want.snapshot != "" && c.snapshot != want.snapshot then Mismatch
        else Target(found[0])
  }

  // ----- The table of cooldowns -----

  datatype Owner = Usage429 | XaiFreeUsage | UnknownOwner(name: string)

  datatype Status = Active | Recovered | Skipped

  /** evidence_json: nothing, text of no known shape, or usage metadata of an xAI free account. */
  datatype Evidence =
    | NoEvidence
    | Other(text: string)
    | Usage(fields: map<string, string>, recoverAt: int, estimated: bool)

  datatype Row = Row(
    file: string, index: string, snapshot: string, provider: string,
    reason: string, window: string, event: string, evidence: Evidence,
    recoverAt: int, owner: Owner, preDisabled: bool, status: Status)

  datatype Candidate = Candidate(
    file: string, index: string, snapshot: string, provider: string,
    reason: string, window: string, event: string, evidence: Evidence,
    reset: int, owner: Owner)

  function Ids(rows: seq<Row>, p: Row -> bool): (r: seq<nat>)
    ensures forall i | 0 <= i < |r| :: r[i] < |rows| && p(rows[r[i]])
    ensures forall i, j | 0 <= i < j < |r| :: r[i] < r[j]
    ensures forall id | 0 <= id < |rows| && p(rows[id]) :: id in r
  {
    if |rows| == 0 then []
    else
      var n := |rows| - 1;
      var rest := Ids(rows[..n], p);
      assert forall id | 0 <= id < n && p(rows[id]) :: rows[..n][id] == rows[id] && id in rest;
      if p(rows[n]) then rest + [n] else rest
  }

  predicate Earlier(rows: seq<Row>, a: nat, b: nat) {
    var s, t := if a < |rows| then rows[a].recoverAt else 0, if b < |rows| then rows[b].recoverAt else 0;
    s < t || (s == t && a <= b)
  }

  /** order by recover_at_ms asc, id asc. */
  function InOrder(rows: seq<Row>, ids: seq<nat>): (r: seq<nat>)
    ensures multiset(r) == multiset(ids)
  {
    Sort((a: nat, b: nat) => Earlier(rows, a, b), ids)
  }

  function ListActive(rows: seq<Row>): seq<nat> {
    InOrder(rows, Ids(rows, (r: Row) => r.status == Active))
  }

  const DUE_LIMIT: nat := 100

  function DueBy(now: int): Row -> bool {
    (r: Row) => r.status == Active && r.recoverAt <= now
  }

  function ListDue(rows: seq<Row>, now: int): seq<nat> {
    var due := InOrder(rows, Ids(rows, DueBy(now)));
    if |due| <= DUE_LIMIT then due else due[..DUE_LIMIT]
  }

  lemma {:induction false} OrderKeepsMembers(rows: seq<Row>, ids: seq<nat>, id: nat)
    ensures id in InOrder(rows, ids) <==> id in ids
  {
    assert id in multiset(InOrder(rows, ids)) <==> id in multiset(ids);
  }

  /** What a listing of due rows guarantees: each is active and due, and none comes twice. */
  lemma DueFacts(rows: seq<Row>, now: int)
    ensures |ListDue(rows, now)| <= DUE_LIMIT
    ensures forall i | 0 <= i < |ListDue(rows, now)| ::
      var id := ListDue(rows, now)[i]; id < |rows| && rows[id].status == Active && rows[id].recoverAt <= now
    ensures forall i, j | 0 <= i < j < |ListDue(rows, now)| :: ListDue(rows, now)[i] != ListDue(rows, now)[j]
  {
    hide InOrder, Ids;
    var due, list := InOrder(rows, Ids(rows, DueBy(now))), ListDue(rows, now);
    OrderedFacts(rows, DueBy(now), due);
    assert |list| <= |due| && forall i | 0 <= i < |list| :: list[i] == due[i];
  }

  lemma OrderedFacts(rows: seq<Row>, p: Row -> bool, ordered: seq<nat>)
    requires ordered == InOrder(rows, Ids(rows, p))
    ensures forall i | 0 <= i < |ordered| :: ordered[i] < |rows| && p(rows[ordered[i]])
    ensures forall i, j | 0 <= i < j < |ordered| :: ordered[i] != ordered[j]
  {
    hide InOrder;
    var ids := Ids(rows, p);
    DistinctPermutation(ids, ordered);
    forall i | 0 <= i < |ordered| ensures ordered[i] in ids {
      OrderKeepsMembers(rows, ids, ordered[i]);
    }
  }

  function First(a: string, b: string): string {
    if a != "" then a else b
  }

  /** quotaActionAccountSnapshot: an account name that only repeats the file name says nothing. */
  function Snapshot(file: string, s: string): string {
    if s == file then "" else s
  }

  // ----- Calls that may fail, and what others do meanwhile -----

  datatype Call = Done | Failed | FailedButApplied

  /**
    Between two calls anyone may change flags, add or remove files, enable what
    the worker disabled, and disable what is disabled already.
   */
  datatype Meanwhile = Meanwhile(files: seq<File>, enabled: set<Cred>, disabled: set<Cred>)

  datatype Reply = Reply(meanwhile: Meanwhile, call: Call, evidenceOk: bool)

  ghost predicate Possible(creds: set<Cred>, reply: Reply) {
    Listing(creds, reply.meanwhile.files)
  }

  // ----- The world and its history -----

  datatype Cause = Rollback | Timer(now: int) | Confirmed

  /** What a look showed the worker, what it asked for, and how a disable was answered. */
  datatype Act = Saw(cred: Cred, disabled: bool) | Disable(cred: Cred, call: Call) | Enable(cred: Cred, cause: Cause)

  /**
    files and rows are the real state. log records the looks and requests of the
    worker, each where it is made; left the credentials a disable of the worker
    is still in force for, foreign those a disable by somebody else is, and
    undone those the worker took such a disable away from; accepted, for every
    row, the candidates accepted for it since the disable.
   */
  datatype World = World(
    files: seq<File>, rows: seq<Row>, log: seq<Act>, accepted: seq<seq<Candidate>>,
    left: set<Cred>, foreign: set<Cred>, undone: set<Cred>)

  function DisabledIn(files: seq<File>): set<Cred> {
    set f | f in files && f.disabled :: f.cred
  }

  /** Before the worker does anything every disable is somebody else's. */
  function Untouched(files: seq<File>): World {
    World(files, [], [], [], {}, DisabledIn(files), {})
  }

  /** A disable by somebody else is in force: an old one, or a new one, told by the flag unless it was disabled before. */
  predicate ByOthers(w: World, m: Meanwhile, c: Cred) {
    && !Listed(m.files, c, false)
    && (c in m.disabled || (c in w.foreign && c !in m.enabled) || (Listed(m.files, c, true) && (c !in w.left || c in m.enabled)))
  }

  function Interfere(w: World, m: Meanwhile): World {
    var left := set c | c in w.left && c !in m.enabled && !Listed(m.files, c, false);
    var foreign := set c | c in w.foreign + m.disabled + DisabledIn(m.files) && ByOthers(w, m, c);
    w.(files := m.files, left := left, foreign := foreign)
  }

  /** A look at the remote, after whatever others did before it; what it finds is logged as it is listed. */
  function Look(w: World, want: Identity, reply: Reply): World {
    var now := Interfere(w, reply.meanwhile);
    match Resolve(now.files, want, reply)
    case Target(file) => now.(log := now.log + [Saw(file.cred, file.disabled)])
    case _ => now
  }

  function SetFlag(files: seq<File>, c: Cred, disabled: bool): (r: seq<File>)
    ensures |r| == |files|
    ensures forall i | 0 <= i < |files| :: r[i] == if files[i].cred == c then File(c, disabled) else files[i]
  {
    seq(|files|, i requires 0 <= i < |files| => if files[i].cred == c then File(c, disabled) else files[i])
  }

  /** patchAuthFileTarget with disabled set. */
  function PatchDisable(w: World, c: Cred, call: Call): World {
    var asked := w.(log := w.log + [Disable(c, call)]);
    if call == Failed then asked
    else asked.(files := SetFlag(w.files, c, true), left := w.left + {c})
  }

  function PatchEnable(w: World, c: Cred, cause: Cause, call: Call): World {
    var asked := w.(log := w.log + [Enable(c, cause)]);
    if call == Failed then asked
    else
      asked.(files := SetFlag(w.files, c, false), left := w.left - {c}, foreign := w.foreign - {c},
             undone := w.undone + if c in w.foreign then {c} else {})
  }

  function Mark(w: World, id: nat, status: Status, call: Call): World
    requires id < |w.rows|
  {
    if call == Failed then w else w.(rows := w.rows[id := w.rows[id].(status := status)])
  }

  // ----- UpsertActive -----

  /** The key an active row is found by: the auth index, or else provider and account. */
  predicate SameKey(r: Row, file: string, owner: Owner, index: string, provider: string, snapshot: string) {
    && r.status == Active && r.file == file && r.owner == owner && r.index == index
    && (index == "" ==> r.provider == provider && r.snapshot == snapshot)
  }

  datatype Found = Nothing | One(id: nat) | Ambiguous

  function Single(ids: seq<nat>): (r: Found)
    ensures r.One? ==> r.id in ids
  {
    if |ids| == 0 then Nothing else if |ids| == 1 then One(ids[0]) else Ambiguous
  }

  function FindOwned(rows: seq<Row>, u: Row): (r: Found)
    ensures r.One? ==> r.id < |rows|
  {
    var found := Single(Ids(rows, (r: Row) => SameKey(r, u.file, u.owner, u.index, u.provider, u.snapshot)));
    if found == Nothing && u.index != "" && u.provider != "" && u.snapshot != "" then
      Single(Ids(rows, (r: Row) => SameKey(r, u.file, u.owner, "", u.provider, u.snapshot)))
    else found
  }

  function FirstEvidence(a: Evidence, b: Evidence): Evidence {
    if a != NoEvidence then a else b
  }

  /** The update of an active row: identity always, the rest only when the new recovery is no earlier. */
  function Updated(r: Row, u: Row): Row {
    var wins := u.recoverAt >= r.recoverAt;
    r.(index := u.index, snapshot := u.snapshot, provider := u.provider,
       reason := if wins then First(u.reason, r.reason) else r.reason,
       window := if wins then First(u.window, r.window) else r.window,
       evidence := if wins then FirstEvidence(u.evidence, r.evidence) else r.evidence,
       event := if wins then First(u.event, r.event) else r.event,
       recoverAt := if r.recoverAt >= u.recoverAt then r.recoverAt else u.recoverAt)
  }

  /** The rows after the transaction commits, and the row written; None when it refuses. */
  datatype Stored = Refused | Inserted(rows: seq<Row>) | Changed(rows: seq<Row>, id: nat)

  function Store(rows: seq<Row>, given: Row, observedEnabled: bool): (r: Stored)
    ensures r.Inserted? ==> |r.rows| == |rows| + 1
    ensures r.Changed? ==> |r.rows| == |rows| && r.id < |rows|
  {
    var u := given.(snapshot := Snapshot(given.file, given.snapshot));
    if u.file == "" || u.recoverAt <= 0 then Refused
    else
      match FindOwned(rows, u)
      case Ambiguous => Refused
      case Nothing => Inserted(rows + [u.(status := Active)])
      case One(id) =>
        if observedEnabled then Inserted(rows[id := rows[id].(status := Recovered)] + [u.(status := Active)])
        else Changed(rows[id := Updated(rows[id], u)], id)
  }

  /** UpsertQuotaCooldown for a candidate: the world afterwards, and whether it reported success. */
  function Upsert(w: World, u: Row, observedEnabled: bool, cand: Candidate, call: Call): (r: (World, bool))
    requires |w.accepted| == |w.rows|
    ensures |r.0.accepted| == |r.0.rows|
  {
    if call == Failed then (w, false)
    else
      match Store(w.rows, u, observedEnabled)
      case Refused => (w, false)
      case Inserted(rows) => (w.(rows := rows, accepted := w.accepted + [[cand]]), call == Done)
      case Changed(rows, id) => (w.(rows := rows, accepted := w.accepted[id := w.accepted[id] + [cand]]), call == Done)
  }
}
