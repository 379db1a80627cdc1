/**
  What becomes of a candidate, in terms of the candidate, the credential it is
  about and the table: a credential that is listed enabled is disabled and
  recorded, and one that is disabled already has its cooldown extended.
 */
module QuotaCandidates {
  import opened QuotaWorld
  import opened QuotaCooldown
  import opened QuotaSafety
  import opened QuotaRuns
  import opened QuotaEffects
  import opened QuotaTimer

  /** The credential's file is the only one listed under the name and, if one is given, the auth index. */
  ghost predicate ShowsUnder(files: seq<File>, index: string, c: Cred, disabled: bool) {
    exists i: nat :: OnlyNamed(files, Identity(c.file, index, "", ""), i) && files[i] == File(c, disabled)
  }

  /** The candidate is about this credential: it names its file and provider, and nothing it says besides is wrong. */
  predicate About(cand: Candidate, c: Cred) {
    && cand.file == c.file != "" && cand.provider == c.provider
    && (cand.index == c.index || (cand.index == "" && c.provider != "codex"))
    && (c.provider == "codex" || cand.snapshot in {"", c.file, c.snapshot})
  }

  /** The credential can be told from others: by its auth index, or else by its provider and an account that is not just the file name. */
  predicate Tellable(c: Cred) {
    c.index != "" || (c.provider !in {"", "codex"} && c.snapshot !in {"", c.file})
  }

  /** The reset lies ahead, and the listing, the locks and the evidence are in order. */
  ghost predicate InOrderToAct(cand: Candidate, c: Cred, s: CandidateReplies, disabled: bool) {
    && cand.reset > s.now >= 0 && s.acquired && s.workspaceOk && s.currentOk
    && s.look.call == Done && s.look.evidenceOk && ShowsUnder(s.look.meanwhile.files, cand.index, c, disabled)
  }

  lemma WantsIt(cand: Candidate, c: Cred, s: CandidateReplies)
    requires About(cand, c) && Tellable(c) && s.look.evidenceOk
    ensures var want := Wanted(cand, s); want.file == c.file && want.index == cand.index && Agrees(c, want, s.look.evidenceOk)
    ensures Stable(NewRow(cand, c, s)) && NewRow(cand, c, s).provider == c.provider
    ensures cand.provider == "codex" ==> cand.index != ""
  {
  }

  lemma CandidatePasses(cand: Candidate, c: Cred, s: CandidateReplies, disabled: bool)
    requires About(cand, c) && Tellable(c) && InOrderToAct(cand, c, s, disabled)
    ensures Passes(cand, s, disabled) && TargetOf(cand, s) == Target(File(c, disabled))
  {
    hide Resolve, Wanted, Stable, NewRow, Agrees, Tellable;
    var want, files := Wanted(cand, s), s.look.meanwhile.files;
    WantsIt(cand, c, s);
    ResolveExactly(files, want, s.look);
    var i: nat :| OnlyNamed(files, Identity(c.file, cand.index, "", ""), i) && files[i] == File(c, disabled);
    assert OnlyNamed(files, want, i);
  }

  /**
    The account of the row: for Codex the member the candidate names, or else the
    listed one; for others the listed account. A mere file name is none.
   */
  predicate AccountRecorded(r: Row, cand: Candidate, c: Cred, s: CandidateReplies) {
    var known :=
      if c.provider != "codex" then c.snapshot
      else if cand.snapshot !in {"", cand.file} && s.member != "" then s.member
      else if c.snapshot !in {"", c.file} then s.currentMember
      else "";
    r.snapshot == if known == c.file then "" else known
  }

  /** A candidate about an enabled credential, when all calls succeed: disabled once, with a row that carries the candidate and the account. */
  lemma EnabledIsTakenDown(creds: set<Cred>, w: World, cand: Candidate, c: Cred, s: CandidateReplies)
    requires Invariant(creds, w) && PossibleCandidate(creds, s) && Proper(cand) && About(cand, c) && Tellable(c)
    requires InOrderToAct(cand, c, s, false) && s.patch.call == Done && s.save.call == Done
    ensures |w.accepted| == |w.rows|
    ensures var u := Handle(w, cand, s);
      && u.log == w.log + [Saw(c, false), Disable(c, Done)]
      && OneMoreRow(w.rows, u.rows, cand.owner, c) && Records(u.rows[|w.rows|], cand, c)
      && AccountRecorded(u.rows[|w.rows|], cand, c, s)
      && u.accepted == w.accepted + [[cand]]
      && (c in u.left <==> c !in s.save.meanwhile.enabled && !Listed(s.save.meanwhile.files, c, false))
  {
    hide Invariant, Passes, Handle, Wanted, Records, Resolve, Listed, NewRow, AccountRecorded;
    CandidatePasses(cand, c, s, false);
    CandidateIsRecorded(creds, w, cand, s);
    NewRowAccount(Handle(w, cand, s).rows[|w.rows|], cand, c, s);
  }

  lemma NewRowAccount(r: Row, cand: Candidate, c: Cred, s: CandidateReplies)
    requires About(cand, c) && r.snapshot == Snapshot(cand.file, NewRow(cand, c, s).snapshot)
    ensures AccountRecorded(r, cand, c, s)
  {
  }

  /** It names no file, its reset has passed, another holds its lock, or it is one of Codex without an index or with contradicting workspaces. */
  predicate Untimely(cand: Candidate, s: CandidateReplies) {
    cand.file == "" || cand.reset <= s.now || !s.acquired || (cand.provider == "codex" && (cand.index == "" || !s.workspaceOk))
  }

  /** The remote does not answer, lists no file under its name, or only one of another provider. */
  ghost predicate Unlisted(cand: Candidate, s: CandidateReplies) {
    var files, named := s.look.meanwhile.files, Identity(cand.file, cand.index, "", "");
    || s.look.call != Done || (forall i | 0 <= i < |files| :: !Named(files[i], named))
    || exists i: nat :: OnlyNamed(files, named, i) && cand.provider !in {"", files[i].cred.provider}
  }

  /** Such a candidate is dropped: the world is left alone, and in the second case at least nothing is asked for or stored. */
  lemma CandidateIsDropped(w: World, cand: Candidate, s: CandidateReplies)
    requires |w.accepted| == |w.rows|
    ensures Untimely(cand, s) ==> Handle(w, cand, s) == w
    ensures var u := Handle(w, cand, s); Unlisted(cand, s) ==> u.rows == w.rows && u.log == w.log && u.accepted == w.accepted
  {
    hide Resolve, Look, Extend, Disabling, NewRow, Named, Interfere;
    if Acceptable(cand, s) {
      var want := Wanted(cand, s);
      LookIs(w, want, s.look);
      InterfereKeepsTable(w, s.look.meanwhile);
      ResolveExactly(s.look.meanwhile.files, want, s.look);
      SameCandidateNames(s.look.meanwhile.files, want, cand, s.look.evidenceOk);
    }
  }

  lemma SameCandidateNames(files: seq<File>, want: Identity, cand: Candidate, evidenceOk: bool)
    requires want.file == cand.file && want.index == cand.index && want.provider == cand.provider
    ensures forall f: File :: Named(f, want) <==> Named(f, Identity(cand.file, cand.index, "", ""))
    ensures forall i: nat :: OnlyNamed(files, want, i) <==> OnlyNamed(files, Identity(cand.file, cand.index, "", ""), i)
    ensures forall d: Cred | cand.provider !in {"", d.provider} :: !Agrees(d, want, evidenceOk)
  {
  }

  // ----- A credential that is disabled already -----

  lemma {:induction false} FirstOwnedFinds(
      rows: seq<Row>, ids: seq<nat>, cand: Candidate, index: string, provider: string, snapshot: string, agrees: set<nat>, id: nat)
    requires id in ids && id < |rows| && rows[id].file == cand.file && rows[id].owner == cand.owner
    requires Matches(rows[id], index, provider, snapshot, id in agrees)
    ensures FirstOwned(rows, ids, cand, index, provider, snapshot, agrees).Some?
  {
    hide Matches;
    if ids[0] != id { FirstOwnedFinds(rows, ids[1..], cand, index, provider, snapshot, agrees, id); }
  }

  lemma ActiveIsListed(rows: seq<Row>, id: nat)
    requires id < |rows| && rows[id].status == Active
    ensures id in ListActive(rows)
  {
    hide InOrder;
    OrderKeepsMembers(rows, Ids(rows, (r: Row) => r.status == Active), id);
  }

  /** What is known of the credential matches the row that stands for it. */
  lemma OwnRowMatches(r: Row, cand: Candidate, c: Cred, s: CandidateReplies, agrees: bool)
    requires About(cand, c) && Tellable(c) && Stable(r) && OwnerFits(r.owner, r.provider) && Locates(r, c) && Describes(r, c)
    requires c.provider == "codex" ==> agrees
    ensures var provider := First(c.provider, cand.provider);
      Matches(r, First(c.index, cand.index), provider, KnownAccount(provider, Snapshot(cand.file, cand.snapshot), c, s), agrees)
  {
  }

  /** The row an extension takes is the active one of the credential. */
  lemma HeldIsOwn(creds: set<Cred>, w: World, cand: Candidate, c: Cred, s: CandidateReplies, id: nat)
    requires Invariant(creds, w) && Listing(creds, s.look.meanwhile.files) && Acceptable(cand, s) && About(cand, c) && Tellable(c)
    requires TargetOf(cand, s).Target? && TargetOf(cand, s).file.cred == c && c in creds
    requires id < |w.rows| && w.rows[id].status == Active && w.rows[id].owner == cand.owner && Locates(w.rows[id], c)
    requires c.provider == "codex" ==> id in s.agrees
    ensures Held(w, cand, s) == Some(id)
  {
    hide Invariant, Resolve, Wanted, Listing, Distinguishable, Matches, Locates, Describes, Stable, KnownAccount, ListActive, Acceptable;
    InvariantFacts(creds, w);
    OwnedKept(creds, w, id);
    OwnedFits(creds, w.log, w.rows[id], c);
    OwnRowMatches(w.rows[id], cand, c, s, id in s.agrees);
    ActiveIsListed(w.rows, id);
    var index, provider := First(c.index, cand.index), First(c.provider, cand.provider);
    var snapshot := KnownAccount(provider, Snapshot(cand.file, cand.snapshot), c, s);
    assert w.rows[id].file == cand.file by { SameFile(w.rows[id], c); }
    FirstOwnedFinds(w.rows, ListActive(w.rows), cand, index, provider, snapshot, s.agrees, id);
    var found := Held(w, cand, s).value;
    ActiveListed(w.rows, found);
    OwnedKept(creds, w, found);
    MatchAgrees(w.rows[found], index, provider, snapshot, found in s.agrees);
    OwnedRowLocates(creds, w.log, s.look.meanwhile.files, cand, s, w.rows[found], found in s.agrees);
    OneActiveRow(creds, w, id, found, c);
  }

  /**
    A candidate about a credential with an active cooldown, when all calls succeed:
    that cooldown and no other moves to the later of the two times.
   */
  lemma DisabledIsExtended(creds: set<Cred>, w: World, cand: Candidate, c: Cred, s: CandidateReplies, id: nat)
    requires Invariant(creds, w) && PossibleCandidate(creds, s) && Proper(cand) && About(cand, c) && Tellable(c) && c in creds
    requires InOrderToAct(cand, c, s, true) && s.list.call == Done && s.save.call == Done
    requires id < |w.rows| && w.rows[id].status == Active && w.rows[id].owner == cand.owner && Locates(w.rows[id], c)
    requires c.provider == "codex" ==> id in s.agrees
    ensures |w.accepted| == |w.rows|
    ensures var u := Handle(w, cand, s);
      && u.log == w.log + [Saw(c, true)]
      && u.accepted == w.accepted[id := w.accepted[id] + [cand]]
      && |u.rows| == |w.rows| && u.rows == w.rows[id := u.rows[id]]
      && u.rows[id].recoverAt == if cand.reset > w.rows[id].recoverAt then cand.reset else w.rows[id].recoverAt
  {
    hide Invariant, Handle, Wanted, Resolve, Locates, Held, Stable, NewRow, About, Tellable, InOrderToAct, Listing;
    CandidatePasses(cand, c, s, true);
    HeldIsOwn(creds, w, cand, c, s, id);
    ExtensionIsRecorded(creds, w, cand, s);
  }
}
