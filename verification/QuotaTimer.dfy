/**
  The timer tick of the cooldown worker, in terms of the table and of the remote
  listing: which cooldowns it takes up and in which order, how a credential is
  found, and that a tick whose calls succeed ends every cooldown it took up.
 */
module QuotaTimer {
  import opened Ordering
  import opened QuotaWorld
  import opened QuotaCooldown
  import opened QuotaSafety
  import opened QuotaRuns
  import opened QuotaEffects

  // ----- Which cooldowns are due -----

  /** An active cooldown whose time has come. */
  predicate Due(rows: seq<Row>, now: int, id: nat) {
    id < |rows| && rows[id].status == Active && rows[id].recoverAt <= now
  }

  predicate Sooner(rows: seq<Row>, a: nat, b: nat) {
    a < |rows| && b < |rows| && (rows[a].recoverAt < rows[b].recoverAt || (rows[a].recoverAt == rows[b].recoverAt && a < b))
  }

  lemma EarlierIsTotal(rows: seq<Row>)
    ensures TotalOrder((a: nat, b: nat) => Earlier(rows, a, b))
  {
  }

  lemma IncreasingIsDistinct(ids: seq<nat>)
    requires forall i, j | 0 <= i < j < |ids| :: ids[i] < ids[j]
    ensures Distinct(ids)
  {
  }

  /** All due cooldowns, sorted. */
  lemma AllDue(rows: seq<Row>, now: int) returns (all: seq<nat>)
    ensures forall id: nat :: id in all <==> Due(rows, now, id)
    ensures forall i, j | 0 <= i < j < |all| :: Sooner(rows, all[i], all[j])
    ensures ListDue(rows, now) == if |all| <= 100 then all else all[..100]
  {
    hide Sort, Ids;
    var ids := Ids(rows, DueBy(now));
    all := InOrder(rows, ids);
    IncreasingIsDistinct(ids);
    DistinctPermutation(ids, all);
    EarlierIsTotal(rows);
    SortSorted((a: nat, b: nat) => Earlier(rows, a, b), ids);
    forall id: nat ensures id in all <==> Due(rows, now, id) {
      OrderKeepsMembers(rows, ids, id);
    }
    forall i, j | 0 <= i < j < |all| ensures Sooner(rows, all[i], all[j]) {
      assert Earlier(rows, all[i], all[j]);
      assert all[i] in all && all[j] in all;
    }
  }

  ghost function DueSet(rows: seq<Row>, now: int): set<nat> {
    set id: nat | id < |rows| && Due(rows, now, id)
  }

  /**
    The listing of a tick: due cooldowns only, the soonest first, and of equal
    times the oldest; all of them if there are at most a hundred, and otherwise a
    hundred, with every one left out later than every one listed.
   */
  lemma ListDueExactly(rows: seq<Row>, now: int)
    ensures var list, due := ListDue(rows, now), DueSet(rows, now);
      && |list| == (if |due| <= 100 then |due| else 100)
      && (forall i | 0 <= i < |list| :: list[i] in due)
      && (forall i, j | 0 <= i < j < |list| :: Sooner(rows, list[i], list[j]))
      && (|due| <= 100 ==> forall id | id in due :: id in list)
      && forall id, i | id in due && id !in list && 0 <= i < |list| :: Sooner(rows, list[i], id)
  {
    hide ListDue;
    var all := AllDue(rows, now);
    var list, due := ListDue(rows, now), DueSet(rows, now);
    DistinctSize(all, due);
    forall id, i | id in due && id !in list && 0 <= i < |list| ensures Sooner(rows, list[i], id) {
      var j :| 0 <= j < |all| && all[j] == id;
      assert i < 100 <= j;
    }
  }

  // ----- How a credential is found -----

  /** The file is listed under the name and, if one is asked for, the auth index. */
  predicate Named(f: File, want: Identity) {
    f.cred.file == want.file && (want.index == "" || f.cred.index == want.index)
  }

  /** Of all listed files only the i-th is. */
  ghost predicate OnlyNamed(files: seq<File>, want: Identity, i: nat) {
    i < |files| && Named(files[i], want) && forall j | 0 <= j < |files| && j != i :: !Named(files[j], want)
  }

  /** What else is asked for agrees; for codex the member and workspace evidence decides. */
  predicate Agrees(c: Cred, want: Identity, evidenceOk: bool) {
    && (want.provider == "" || want.provider == c.provider)
    && if c.provider == "codex" then evidenceOk else want.snapshot == "" || want.snapshot == c.snapshot
  }

  lemma {:induction false} MatchingNone(files: seq<File>, want: Identity)
    ensures |Matching(files, want.file, want.index)| == 0 <==> forall i | 0 <= i < |files| :: !Named(files[i], want)
  {
    if |files| > 0 {
      var n := |files| - 1;
      MatchingNone(files[..n], want);
      assert forall i | 0 <= i < n :: files[..n][i] == files[i];
    }
  }

  lemma {:induction false} MatchingOnly(files: seq<File>, want: Identity, i: nat)
    requires OnlyNamed(files, want, i)
    ensures Matching(files, want.file, want.index) == [files[i]]
  {
    hide Named, Matching;
    var n := |files| - 1;
    var front := files[..n];
    MatchingLast(files, want);
    assert forall k | 0 <= k < n :: front[k] == files[k];
    if i < n {
      MatchingOnly(front, want, i);
    } else {
      MatchingNone(front, want);
    }
  }

  lemma {:induction false} MatchingOne(files: seq<File>, want: Identity) returns (i: nat)
    requires |Matching(files, want.file, want.index)| == 1
    ensures OnlyNamed(files, want, i)
  {
    hide Named, Matching;
    NoFiles(want);
    var n := |files| - 1;
    var front := files[..n];
    MatchingLast(files, want);
    MatchingNone(front, want);
    assert forall k | 0 <= k < n :: front[k] == files[k];
    if Named(files[n], want) {
      i := n;
    } else {
      i := MatchingOne(front, want);
    }
  }

  lemma NoFiles(want: Identity)
    ensures Matching([], want.file, want.index) == []
  {
  }

  lemma MatchingLast(files: seq<File>, want: Identity)
    requires |files| > 0
    ensures var n := |files| - 1;
      Matching(files, want.file, want.index)
      == Matching(files[..n], want.file, want.index) + if Named(files[n], want) then [files[n]] else []
  {
  }

  /** The verified lookup of a status change, by what is listed. */
  lemma ResolveExactly(files: seq<File>, want: Identity, reply: Reply)
    ensures var asks := reply.call == Done && want.file != "";
      && (Resolve(files, want, reply) == NotFound <==> asks && forall i | 0 <= i < |files| :: !Named(files[i], want))
      && (forall f :: Resolve(files, want, reply) == Target(f) <==>
            asks && exists i: nat :: OnlyNamed(files, want, i) && files[i] == f && Agrees(f.cred, want, reply.evidenceOk))
      && (Resolve(files, want, reply) == Mismatch <==>
            asks && exists i: nat :: OnlyNamed(files, want, i) && !Agrees(files[i].cred, want, reply.evidenceOk))
  {
    hide Named, Matching;
    MatchingNone(files, want);
    forall i: nat | OnlyNamed(files, want, i) ensures Matching(files, want.file, want.index) == [files[i]] { MatchingOnly(files, want, i); }
    if |Matching(files, want.file, want.index)| == 1 {
      var i := MatchingOne(files, want);
    }
  }

  // ----- A recovery whose calls succeed -----

  /** The credential's file is listed with this flag, and no other file under its name and auth index. */
  ghost predicate Shows(files: seq<File>, c: Cred, disabled: bool) {
    exists i: nat :: OnlyNamed(files, Identity(c.file, c.index, "", ""), i) && files[i] == File(c, disabled)
  }

  /** Every call of the recovery succeeds; the first look shows the credential as given, the second one enabled. */
  ghost predicate Succeeds(c: Cred, s: RecoveryReplies, disabled: bool) {
    && s.acquired && s.evidenceOk && s.look.call == Done && s.look.evidenceOk && s.mark.call == Done
    && Shows(s.look.meanwhile.files, c, disabled)
    && (disabled ==> s.patch.call == Done && s.verify.call == Done && s.verify.evidenceOk && Shows(s.verify.meanwhile.files, c, false))
  }

  lemma ShownIsFound(files: seq<File>, c: Cred, want: Identity, reply: Reply, disabled: bool)
    requires Shows(files, c, disabled) && want.file == c.file != "" && want.index == c.index
    requires Agrees(c, want, reply.evidenceOk) && reply.call == Done
    ensures Resolve(files, want, reply) == Target(File(c, disabled))
  {
    hide Resolve, Agrees;
    ResolveExactly(files, want, reply);
    var i: nat :| OnlyNamed(files, Identity(c.file, c.index, "", ""), i) && files[i] == File(c, disabled);
    assert OnlyNamed(files, want, i);
  }

  /** What the worker asks for to recover a row is what its credential is. */
  lemma RowAsksForIt(r: Row, c: Cred, s: RecoveryReplies)
    requires Stable(r) && OwnerFits(r.owner, r.provider) && Locates(r, c) && Describes(r, c) && s.evidenceOk
    ensures Recoverable(r, s)
    ensures var want := RecoveryIdentity(r, s); want.file == c.file && want.index == c.index && Agrees(c, want, true)
  {
  }

  lemma RecoverLeaves(w: World, id: nat, cause: Cause, s: RecoveryReplies)
    requires id < |w.rows| && s.mark.call == Done
    ensures Recover(w, id, cause, s).left <= w.left
  {
    hide Resolve, Listed, Recoverable, RecoveryIdentity, SetFlag, Reclaim;
  }

  /** What a recovery leaves behind when nothing fails. */
  ghost predicate Ends(w: World, after: World, id: nat, c: Cred, cause: Cause, disabled: bool)
    requires id < |w.rows|
  {
    && after.rows == w.rows[id := w.rows[id].(status := Recovered)] && after.accepted == w.accepted && after.left <= w.left
    && (disabled ==> c !in after.left)
    && after.log == w.log + if disabled then [Saw(c, true), Enable(c, cause), Saw(c, false)] else [Saw(c, false)]
  }

  /** The row of a credential ends recovered, and the credential enabled: by the worker if it was not already. */
  lemma RecoverySucceeds(creds: set<Cred>, w: World, id: nat, c: Cred, cause: Cause, s: RecoveryReplies, disabled: bool)
    requires Invariant(creds, w) && PossibleRecovery(creds, s) && id < |w.rows| && w.rows[id].status == Active
    requires c in creds && c.file != "" && Locates(w.rows[id], c) && Succeeds(c, s, disabled)
    ensures Ends(w, Recover(w, id, cause, s), id, c, cause, disabled)
  {
    hide Invariant, Resolve, Locates, Describes, Distinguishable, Listing, Agrees, Shows, Look, Enabling, Stable;
    InvariantFacts(creds, w);
    OwnedKept(creds, w, id);
    OwnedFits(creds, w.log, w.rows[id], c);
    RowAsksForIt(w.rows[id], c, s);
    ShownIsFound(s.look.meanwhile.files, c, RecoveryIdentity(w.rows[id], s), s.look, disabled);
    RecoverLeaves(w, id, cause, s);
    if disabled {
      assert Agrees(c, IdentityOf(c), s.verify.evidenceOk) by { AgreesWithItself(c, s.verify); }
      ShownIsFound(s.verify.meanwhile.files, c, IdentityOf(c), s.verify, false);
      RecoveryCompletes(creds, w, id, cause, s);
    } else {
      LookIs(w, RecoveryIdentity(w.rows[id], s), s.look);
    }
  }

  lemma AgreesWithItself(c: Cred, reply: Reply)
    requires reply.evidenceOk
    ensures Agrees(c, IdentityOf(c), reply.evidenceOk)
  {
  }

  // ----- A recovery that gives up -----

  /** The row as it is, or set aside if the table takes the mark. */
  ghost predicate SetAside(w: World, after: World, id: nat, call: Call)
    requires id < |w.rows|
  {
    && after.rows == (if call == Failed then w.rows else w.rows[id := w.rows[id].(status := Skipped)])
    && after.log == w.log && after.accepted == w.accepted
  }

  /**
    A cooldown is set aside, and nothing asked of the remote, when the evidence on
    a Codex credential is missing, when no file is listed under its name, or when
    the only one that is disagrees. It waits, as it is, when the lock is not free or
    the remote does not answer.
   */
  lemma RecoveryGivesUp(creds: set<Cred>, w: World, id: nat, c: Cred, cause: Cause, s: RecoveryReplies)
    requires Invariant(creds, w) && id < |w.rows| && w.rows[id].status == Active && c in creds && c.file != "" && Locates(w.rows[id], c)
    ensures var u, named := Recover(w, id, cause, s), Identity(c.file, c.index, "", "");
      var files := s.look.meanwhile.files;
      if c.provider == "codex" && !s.evidenceOk then SetAside(w, u, id, s.mark.call) && u.files == w.files
      else if !s.acquired then u == w
      else if s.look.call != Done then u.rows == w.rows && u.log == w.log
      else
        && ((forall i | 0 <= i < |files| :: !Named(files[i], named)) ==> SetAside(w, u, id, s.mark.call))
        && forall i: nat | OnlyNamed(files, named, i) && files[i].cred.provider != c.provider :: SetAside(w, u, id, s.mark.call)
  {
    hide Invariant, Resolve, Locates, Describes, Distinguishable, Listing, Agrees, Look, Enabling, Stable, Named, RecoveryIdentity, Interfere;
    InvariantFacts(creds, w);
    OwnedKept(creds, w, id);
    OwnedFits(creds, w.log, w.rows[id], c);
    var r := w.rows[id];
    OnlyEvidenceDecides(r, c, s);
    LookIs(w, RecoveryIdentity(r, s), s.look);
    InterfereKeepsTable(w, s.look.meanwhile);
    if Recoverable(r, s) {
      var want := RecoveryIdentity(r, s);
      ResolveExactly(s.look.meanwhile.files, want, s.look);
      SameNames(s.look.meanwhile.files, want, c, s.look.evidenceOk);
      if s.look.call != Done { ResolveAsks(s.look.meanwhile.files, want, s.look); }
    }
  }

  lemma ResolveAsks(files: seq<File>, want: Identity, reply: Reply)
    requires reply.call != Done
    ensures Resolve(files, want, reply) == Unreachable
  {
  }

  lemma InterfereKeepsTable(w: World, m: Meanwhile)
    ensures Interfere(w, m).log == w.log && Interfere(w, m).rows == w.rows && Interfere(w, m).accepted == w.accepted
  {
  }

  lemma OnlyEvidenceDecides(r: Row, c: Cred, s: RecoveryReplies)
    requires Stable(r) && OwnerFits(r.owner, r.provider) && Locates(r, c) && Describes(r, c)
    ensures Recoverable(r, s) <==> (c.provider == "codex" ==> s.evidenceOk)
    ensures var want := RecoveryIdentity(r, s); want.file == c.file && want.index == c.index && want.provider == c.provider != ""
  {
  }

  lemma SameNames(files: seq<File>, want: Identity, c: Cred, evidenceOk: bool)
    requires want.file == c.file && want.index == c.index && want.provider == c.provider != ""
    ensures forall f: File :: Named(f, want) <==> Named(f, Identity(c.file, c.index, "", ""))
    ensures forall i: nat :: OnlyNamed(files, want, i) <==> OnlyNamed(files, Identity(c.file, c.index, "", ""), i)
    ensures forall d: Cred | d.provider != c.provider :: !Agrees(d, want, evidenceOk)
  {
  }

  /** A cooldown stays active when its credential could not be enabled, or was not seen enabled afterwards. */
  lemma UnconfirmedStaysActive(creds: set<Cred>, w: World, id: nat, c: Cred, cause: Cause, s: RecoveryReplies)
    requires Invariant(creds, w) && PossibleRecovery(creds, s) && id < |w.rows| && w.rows[id].status == Active
    requires c in creds && c.file != "" && Locates(w.rows[id], c)
    requires s.acquired && s.evidenceOk && s.look.call == Done && s.look.evidenceOk && Shows(s.look.meanwhile.files, c, true)
    requires s.patch.call != Done || s.verify.call != Done || Listed(s.verify.meanwhile.files, c, true)
      || forall i | 0 <= i < |s.verify.meanwhile.files| :: !Named(s.verify.meanwhile.files[i], IdentityOf(c))
    ensures Recover(w, id, cause, s).rows == w.rows && w.log + [Saw(c, true), Enable(c, cause)] <= Recover(w, id, cause, s).log
  {
    hide Invariant, Resolve, Locates, Describes, Distinguishable, Listing, Agrees, Shows, Look, Stable, Named, SetFlag, Interfere, Reclaim;
    InvariantFacts(creds, w);
    OwnedKept(creds, w, id);
    OwnedFits(creds, w.log, w.rows[id], c);
    RowAsksForIt(w.rows[id], c, s);
    ShownIsFound(s.look.meanwhile.files, c, RecoveryIdentity(w.rows[id], s), s.look, true);
    LookIs(w, RecoveryIdentity(w.rows[id], s), s.look);
    InterfereKeepsTable(w, s.look.meanwhile);
    var looked := Look(w, RecoveryIdentity(w.rows[id], s), s.look);
    InterfereKeepsTable(looked, s.patch.meanwhile);
    var patched := PatchEnable(Interfere(looked, s.patch.meanwhile), c, cause, s.patch.call);
    if s.patch.call == Done {
      LookIs(patched, IdentityOf(c), s.verify);
      InterfereKeepsTable(patched, s.verify.meanwhile);
      NotSeenEnabled(creds, w, id, c, s);
      assert looked.log == w.log + [Saw(c, true)] && patched.log == looked.log + [Enable(c, cause)];
    }
  }

  /** The second look does not show the credential enabled. */
  lemma NotSeenEnabled(creds: set<Cred>, w: World, id: nat, c: Cred, s: RecoveryReplies)
    requires Distinguishable(creds) && Listing(creds, s.verify.meanwhile.files) && c in creds && Firm(c)
    requires s.verify.call != Done || Listed(s.verify.meanwhile.files, c, true)
      || forall i | 0 <= i < |s.verify.meanwhile.files| :: !Named(s.verify.meanwhile.files[i], IdentityOf(c))
    ensures var found := Resolve(s.verify.meanwhile.files, IdentityOf(c), s.verify);
      found.Target? ==> found.file == File(c, true)
  {
    hide Resolve, Distinguishable, Firm, Named;
    var files := s.verify.meanwhile.files;
    ResolveExactly(files, IdentityOf(c), s.verify);
    if Resolve(files, IdentityOf(c), s.verify).Target? {
      FoundAgain(creds, files, c, s.verify);
      var f := Resolve(files, IdentityOf(c), s.verify).file;
      var i: nat :| OnlyNamed(files, IdentityOf(c), i) && files[i] == f;
      if s.verify.call == Done && Listed(files, c, true) {
        var j :| 0 <= j < |files| && files[j] == File(c, true);
        assert files[i].cred == files[j].cred;
      }
    }
  }

  // ----- A tick whose calls succeed -----

  /** Each row on the list names its credential, and its recovery succeeds. */
  ghost predicate TickSucceeds(
      creds: set<Cred>, rows: seq<Row>, list: seq<nat>, replies: seq<RecoveryReplies>, owner: nat -> Cred, disabled: nat -> bool)
  {
    && |list| <= |replies|
    && forall i | 0 <= i < |list| ::
      && list[i] < |rows| && owner(list[i]) in creds && owner(list[i]).file != "" && Locates(rows[list[i]], owner(list[i]))
      && Succeeds(owner(list[i]), replies[i], disabled(list[i]))
  }

  /**
    Every row on the list ends recovered and no other row changes; a credential
    that was found disabled was asked to be enabled, and no disable of the worker
    is in force for it any more.
   */
  ghost predicate TickEnds(w: World, after: World, list: seq<nat>, now: int, owner: nat -> Cred, disabled: nat -> bool) {
    && |after.rows| == |w.rows| && after.left <= w.left && w.log <= after.log
    && (forall id: nat | id < |w.rows| ::
          after.rows[id] == if id in list then w.rows[id].(status := Recovered) else w.rows[id])
    && forall id: nat | id in list && disabled(id) :: owner(id) !in after.left && EnabledSince(w.log, after.log, owner(id), now)
  }

  ghost predicate EnabledSince(log: seq<Act>, after: seq<Act>, c: Cred, now: int) {
    exists k: nat :: |log| <= k < |after| && after[k] == Enable(c, Timer(now))
  }

  lemma {:induction false} EachSucceeds(
      creds: set<Cred>, w: World, list: seq<nat>, now: int, replies: seq<RecoveryReplies>, owner: nat -> Cred, disabled: nat -> bool)
    requires Invariant(creds, w) && |w.accepted| == |w.rows| && TickSucceeds(creds, w.rows, list, replies, owner, disabled)
    requires forall i | 0 <= i < |replies| :: PossibleRecovery(creds, replies[i])
    requires forall i | 0 <= i < |list| :: w.rows[list[i]].status == Active
    requires forall i, j | 0 <= i < j < |list| :: list[i] != list[j]
    ensures TickEnds(w, EnableEach(w, list, now, replies), list, now, owner, disabled)
    decreases |list|
  {
    hide Invariant, Recover, PossibleRecovery, Locates, Succeeds, TickEnds;
    if |list| == 0 {
      NothingEnds(w, now, owner, disabled);
    } else {
      var id, c := list[0], owner(list[0]);
      var next := Recover(w, id, Timer(now), replies[0]);
      RecoverySucceeds(creds, w, id, c, Timer(now), replies[0], disabled(id));
      RecoverKeeps(creds, w, id, Timer(now), replies[0]);
      assert Locates(w.rows[list[0]], c);
      forall i | 0 <= i < |list| - 1 ensures next.rows[list[1..][i]] == w.rows[list[1..][i]] && list[1..][i] == list[i + 1] {}
      EachSucceeds(creds, next, list[1..], now, replies[1..], owner, disabled);
      OneMoreEnds(w, next, EnableEach(next, list[1..], now, replies[1..]), list, now, owner, disabled);
    }
  }

  lemma NothingEnds(w: World, now: int, owner: nat -> Cred, disabled: nat -> bool)
    ensures TickEnds(w, w, [], now, owner, disabled)
  {
  }

  lemma OneMoreEnds(w: World, next: World, after: World, list: seq<nat>, now: int, owner: nat -> Cred, disabled: nat -> bool)
    requires |list| > 0 && list[0] < |w.rows| && forall i, j | 0 <= i < j < |list| :: list[i] != list[j]
    requires Ends(w, next, list[0], owner(list[0]), Timer(now), disabled(list[0]))
    requires TickEnds(next, after, list[1..], now, owner, disabled)
    ensures TickEnds(w, after, list, now, owner, disabled)
  {
    var id, c := list[0], owner(list[0]);
    assert forall k: nat :: k in list <==> k == id || k in list[1..];
    if disabled(id) {
      assert after.log[|w.log| + 1] == next.log[|w.log| + 1] == Enable(c, Timer(now));
    }
    forall k: nat | k in list[1..] && disabled(k) ensures EnabledSince(w.log, after.log, owner(k), now) {
      var i: nat :| |next.log| <= i < |after.log| && after.log[i] == Enable(owner(k), Timer(now));
    }
  }

  /** A tick whose calls succeed ends the cooldowns it lists; up to a hundred due ones, those are all. */
  lemma TickRecoversDue(
      creds: set<Cred>, w: World, now: int, replies: seq<RecoveryReplies>, owner: nat -> Cred, disabled: nat -> bool)
    requires Invariant(creds, w) && |w.accepted| == |w.rows| && |replies| >= DUE_LIMIT
    requires forall i | 0 <= i < |replies| :: PossibleRecovery(creds, replies[i])
    requires TickSucceeds(creds, w.rows, ListDue(w.rows, now), replies, owner, disabled)
    ensures TickEnds(w, EnableDue(w, now, true, replies), ListDue(w.rows, now), now, owner, disabled)
    ensures |DueSet(w.rows, now)| <= 100 ==>
      forall id: nat | Due(w.rows, now, id) :: id in ListDue(w.rows, now)
  {
    hide Invariant, Recover, PossibleRecovery, Locates, Succeeds, ListDue, TickEnds;
    ListDueExactly(w.rows, now);
    DueFacts(w.rows, now);
    EachSucceeds(creds, w, ListDue(w.rows, now), now, replies, owner, disabled);
    forall id: nat | Due(w.rows, now, id) ensures id in DueSet(w.rows, now) {}
  }
}
