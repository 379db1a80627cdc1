/**
  The quota cooldown worker step by step: one call after another, each on the
  state that the call before it and everybody else left behind.
 */
module QuotaWorker {
  import opened QuotaWorld
  import opened QuotaCooldown

  class Worker {
    /** The remote listing, the cooldown table, and the record of what was done. */
    var world: World

    constructor (files: seq<File>)
      ensures world == Untouched(files)
    {
      world := Untouched(files);
    }

    method Look(want: Identity, reply: Reply) returns (found: Resolution)
      modifies this
      ensures world == QuotaWorld.Look(old(world), want, reply)
      ensures found == Resolve(world.files, want, reply)
    {
      hide Resolve, Listed;
      world := Interfere(world, reply.meanwhile);
      found := Resolve(world.files, want, reply);
      if found.Target? {
        world := world.(log := world.log + [Saw(found.file.cred, found.file.disabled)]);
      }
    }

    method HandleCandidateLocked(cand: Candidate, s: CandidateReplies)
      requires |world.accepted| == |world.rows|
      modifies this
      ensures world == Handle(old(world), cand, s)
    {
      hide Resolve, NewRow, KnownAccount, Stable, Interfere, Extend, Disabling, QuotaWorld.Look;
      if cand.file == "" || cand.reset <= s.now || !s.acquired {
        return;
      }
      if cand.provider == "codex" && (cand.index == "" || !s.workspaceOk) {
        return;
      }
      LookKeepsTable(world, Wanted(cand, s), s.look);
      var found := Look(Wanted(cand, s), s.look);
      if !found.Target? {
        return;
      }
      var c := found.file.cred;
      var row := NewRow(cand, c, s);
      if !Stable(row) || (row.provider == "codex" && !s.currentOk) {
        return;
      }
      if found.file.disabled {
        ExtendExistingCooldown(cand, c, s);
        return;
      }
      DisableAndRecord(cand, c, s);
    }

    method DisableAndRecord(cand: Candidate, c: Cred, s: CandidateReplies)
      requires |world.accepted| == |world.rows|
      modifies this
      ensures world == Disabling(old(world), cand, c, s)
    {
      hide Listed, SetFlag, NewRow, Store;
      world := Interfere(world, s.patch.meanwhile);
      world := PatchDisable(world, c, s.patch.call);
      if s.patch.call != Done {
        return;
      }
      world := Interfere(world, s.save.meanwhile);
      var persisted := Upsert(world, NewRow(cand, c, s), true, cand, s.save.call);
      world := persisted.0;
      if !persisted.1 {
        UndoDisable(c, s.undo);
      }
    }

    method UndoDisable(c: Cred, s: Undoing)
      modifies this
      ensures world == RollBack(old(world), c, s)
    {
      hide Resolve, Listed, SetFlag, QuotaWorld.Look;
      var found := Look(IdentityOf(c), s.look);
      if found.Target? {
        world := Interfere(world, s.patch.meanwhile);
        world := PatchEnable(world, found.file.cred, Rollback, s.patch.call);
      }
    }

    method ExtendExistingCooldown(cand: Candidate, c: Cred, s: CandidateReplies)
      requires |world.accepted| == |world.rows|
      modifies this
      ensures world == Extend(old(world), cand, c, s)
    {
      hide Listed, KnownAccount, Store, Merged, Matches, InOrder;
      if s.list.call != Done {
        return;
      }
      var active := ListActive(world.rows);
      var index, provider := First(c.index, cand.index), First(c.provider, cand.provider);
      var snapshot := KnownAccount(provider, Snapshot(cand.file, cand.snapshot), c, s);
      if provider == "codex" && (index == "" || !s.currentOk) {
        return;
      }
      var existing: Option<nat> := None;
      for i := 0 to |active|
        invariant existing == None
        invariant FirstOwned(world.rows, active[i..], cand, index, provider, snapshot, s.agrees)
          == FirstOwned(world.rows, active, cand, index, provider, snapshot, s.agrees)
      {
        var id := active[i];
        assert active[i..][0] == id && active[i..][1..] == active[i + 1..];
        if id < |world.rows| && world.rows[id].file == cand.file && world.rows[id].owner == cand.owner
          && Matches(world.rows[id], index, provider, snapshot, id in s.agrees)
        {
          existing := Some(id);
          break;
        }
      }
      assert existing == FirstOwned(world.rows, active, cand, index, provider, snapshot, s.agrees);
      if existing.None? {
        return;
      }
      var held := world.rows[existing.value];
      if held.index != "" && index != held.index {
        return;
      }
      var heldAccount := Snapshot(held.file, held.snapshot);
      if held.index == "" {
        if held.provider != "" && provider != "" && held.provider != provider {
          return;
        }
        if heldAccount == "" || snapshot == "" || heldAccount != snapshot {
          return;
        }
      }
      world := Interfere(world, s.save.meanwhile);
      world := Upsert(world, Merged(held, cand, c, provider, snapshot), false, cand, s.save.call).0;
    }

    /** recoverCooldown, for a row that was listed as active. */
    method RecoverCooldown(id: nat, cause: Cause, s: RecoveryReplies)
      requires id < |world.rows|
      modifies this
      ensures world == Recover(old(world), id, cause, s)
    {
      hide Resolve, Listed, Recoverable, RecoveryIdentity, Enabling, QuotaWorld.Look;
      var item := world.rows[id];
      if !Recoverable(item, s) {
        world := Mark(world, id, Skipped, s.mark.call);
        return;
      }
      if !s.acquired {
        return;
      }
      LookKeepsTable(world, RecoveryIdentity(item, s), s.look);
      var found := Look(RecoveryIdentity(item, s), s.look);
      if found == Unreachable {
        return;
      }
      if found == Mismatch || found == NotFound {
        world := Mark(world, id, Skipped, s.mark.call);
        return;
      }
      if !found.file.disabled {
        world := Mark(world, id, Recovered, s.mark.call);
        return;
      }
      EnableAndMark(id, found.file.cred, cause, s);
    }

    method EnableAndMark(id: nat, c: Cred, cause: Cause, s: RecoveryReplies)
      requires id < |world.rows|
      modifies this
      ensures world == Enabling(old(world), id, c, cause, s)
    {
      hide Resolve, Listed, SetFlag, QuotaWorld.Look;
      world := Interfere(world, s.patch.meanwhile);
      world := PatchEnable(world, c, cause, s.patch.call);
      if s.patch.call != Done {
        return;
      }
      LookKeepsTable(world, IdentityOf(c), s.verify);
      var verified := Look(IdentityOf(c), s.verify);
      if !verified.Target? || verified.file.disabled {
        return;
      }
      world := Mark(world, id, Recovered, s.mark.call);
      if s.mark.call == Done {
        return;
      }
      var found := Look(IdentityOf(c), s.undo.look);
      if found.Target? {
        world := Interfere(world, s.undo.patch.meanwhile);
        world := PatchDisable(world, found.file.cred, s.undo.patch.call);
      }
    }

    method EnableDueLocked(now: int, listed: bool, replies: seq<RecoveryReplies>)
      requires |world.accepted| == |world.rows| && |replies| >= DUE_LIMIT
      modifies this
      ensures world == EnableDue(old(world), now, listed, replies)
    {
      hide Recover, ListDue;
      DueFacts(world.rows, now);
      if !listed {
        return;
      }
      var due := ListDue(world.rows, now);
      for i := 0 to |due|
        invariant |world.accepted| == |world.rows| == |old(world).rows|
        invariant EnableEach(world, due[i..], now, replies[i..]) == EnableEach(old(world), due, now, replies)
      {
        assert due[i..][0] == due[i] && due[i..][1..] == due[i + 1..];
        assert replies[i..][0] == replies[i] && replies[i..][1..] == replies[i + 1..];
        RecoverOnlyMarks(world, due[i], Timer(now), replies[i]);
        RecoverCooldown(due[i], Timer(now), replies[i]);
      }
    }

    method RecoverOwnedCooldown(file: string, index: string, listed: bool, s: RecoveryReplies) returns (matched: bool)
      modifies this
      ensures world == RecoverOwned(old(world), file, index, listed, s)
    {
      hide Recover;
      matched := false;
      if file == "" || index == "" || !listed {
        return;
      }
      var owned := OwnedBy(world.rows, file, index);
      if |owned| != 1 {
        return;
      }
      RecoverCooldown(owned[0], Confirmed, s);
      matched := true;
    }
  }

  lemma LookKeepsTable(w: World, want: Identity, reply: Reply)
    ensures Look(w, want, reply).rows == w.rows && Look(w, want, reply).accepted == w.accepted
  {
    hide Resolve, Listed;
  }
}
