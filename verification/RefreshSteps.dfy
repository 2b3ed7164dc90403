/** Every step of the refresh protocol keeps the invariant. */
module RefreshSteps {
  import opened Options
  import opened AuthSessions
  import opened RefreshDecision
  import opened RefreshProtocol
  import opened RefreshInvariants

  // An `ensures P(..) == true` promises P(..) as a whole: unlike a bare P(..), it is not taken apart where it is proved.

  // ----- The five ways a step can touch the table and its history -----

  // Table and history stay; hashes may be named, time may pass, the cache may change.
  predicate Quiet(s: State, t: State) {
    && t.mode == s.mode && t.graceMs == s.graceMs && t.refreshTtlMs == s.refreshTtlMs
    && s.clock <= t.clock && s.names <= t.names
    && t.db == s.db && t.seen == s.seen && t.owners == s.owners && t.lineage == s.lineage
    && t.families == s.families && t.rotations == s.rotations
  }

  // Rows leave the table and nothing else changes.
  predicate Shrinks(s: State, t: State) {
    && t == s.(db := t.db)
    && forall sid :: sid in t.db ==> sid in s.db && t.db[sid] == s.db[sid]
  }

  predicate Hits(s: State, step: Step)
    requires Enabled(s, step)
  {
    step.DbUpdate? && UpdateHits(s, PhaseOf(s, step.r).att)
  }

  predicate Extending(s: State, step: Step) {
    step.ExtendExpiry? && step.sid in s.db
  }

  lemma WorldLeavesProcs(s: State, step: Step)
    requires Enabled(s, step)
    ensures WorldAfter(s, step).procs == s.procs
  {
  }

  lemma MissesAreQuiet(s: State, step: Step)
    requires Enabled(s, step) && Mover(step).Some? && !step.DbRevoke? && !Hits(s, step)
    ensures Quiet(s, WorldAfter(s, step))
  {
  }

  lemma Classify(s: State, step: Step)
    requires Enabled(s, step) && TableKnown(s)
    ensures WorldAfter(s, step).procs == s.procs
    ensures step.CreateSession? || Extending(s, step) || Hits(s, step) || Quiet(s, WorldAfter(s, step)) || Shrinks(s, WorldAfter(s, step))
  {
    WorldLeavesProcs(s, step);
    if Mover(step).Some? && !step.DbRevoke? && !Hits(s, step) {
      MissesAreQuiet(s, step);
    }
  }

  ghost predicate WorldOk(s: State) {
    HistoryOk(s) && TableOk(s)
  }

  // ----- History and table -----

  lemma QuietKeeps(s: State, t: State)
    requires WorldOk(s) && Quiet(s, t)
    ensures Grows(s, t) && WorldOk(t)
  {
    assert forall row :: row in t.seen ==> Remembered(s, row) && Remembered(t, row);
  }

  lemma ShrinkKeeps(s: State, t: State)
    requires WorldOk(s) && Shrinks(s, t)
    ensures Grows(s, t) && WorldOk(t)
  {
    assert forall row :: row in t.seen ==> Remembered(s, row) && Remembered(t, row);
  }

  lemma CreateGrows(s: State, row: Row)
    requires WorldOk(s) && row.id !in s.lineage
    ensures Grows(s, Created(s, row))
  {
  }

  lemma CreateHistory(s: State, row: Row)
    requires HistoryOk(s) && row.id !in s.lineage && row.previousJti.None? && row.previousJtiExpiresAt.None?
    ensures HistoryOk(Created(s, row))
  {
    var t := Created(s, row);
    forall e | e in t.seen
      ensures Remembered(t, e)
    {
      if e in s.seen {
        assert Remembered(s, e);
      }
    }
  }

  lemma CreateTable(s: State, row: Row)
    requires WorldOk(s) && row.id !in s.lineage
    ensures TableOk(Created(s, row))
  {
  }

  lemma ExtendGrows(s: State, sid: SessionId, expiresAt: nat)
    requires sid in s.db
    ensures Grows(s, Extended(s, sid, expiresAt))
  {
  }

  lemma ExtendHistory(s: State, sid: SessionId, expiresAt: nat)
    requires WorldOk(s) && sid in s.db
    ensures HistoryOk(Extended(s, sid, expiresAt))
  {
    var t := Extended(s, sid, expiresAt);
    assert Remembered(s, s.db[sid]);
    forall e | e in t.seen
      ensures Remembered(t, e)
    {
      if e in s.seen {
        assert Remembered(s, e);
      }
    }
  }

  lemma ExtendTable(s: State, sid: SessionId, expiresAt: nat)
    requires TableOk(s) && sid in s.db
    ensures TableOk(Extended(s, sid, expiresAt))
  {
  }

  // The row an update writes shows the new last link of its session.
  lemma RotatedShows(s: State, r: RequestId, att: Attempt, newHash: Hash)
    requires WorldOk(s) && UpdateHits(s, att) && Unused(s, newHash) && newHash in s.names
    ensures var t := Rotated(s, r, att, newHash);
            && t.db[att.row.id] == WrittenRow(s, att, newHash)
            && Remembered(t, t.db[att.row.id])
            && ChainOk(t.lineage[att.row.id], t.names)
  {
    var sid := att.row.id;
    var t := Rotated(s, r, att, newHash);
    var links := t.lineage[sid];
    var n := |s.lineage[sid]|;
    assert s.db[sid] in s.seen && Remembered(s, s.db[sid]);
    assert links[n - 1].hash == att.row.currentJti;
    assert links[n] == Link(newHash, Some(att.now + s.graceMs));
    DepthIs(links, n);
  }

  lemma RotateGrows(s: State, r: RequestId, att: Attempt, newHash: Hash)
    requires TableOk(s) && UpdateHits(s, att)
    ensures Grows(s, Rotated(s, r, att, newHash))
  {
  }

  lemma RotateSeen(s: State, r: RequestId, att: Attempt, newHash: Hash, e: Row)
    requires WorldOk(s) && UpdateHits(s, att) && Unused(s, newHash) && newHash in s.names
    requires e in Rotated(s, r, att, newHash).seen
    ensures Remembered(Rotated(s, r, att, newHash), e) == true
  {
    if e in s.seen {
      RotateGrows(s, r, att, newHash);
      RememberedGrows(s, Rotated(s, r, att, newHash), e);
    } else {
      RotatedShows(s, r, att, newHash);
    }
  }

  lemma RotateHistory(s: State, r: RequestId, att: Attempt, newHash: Hash)
    requires WorldOk(s) && UpdateHits(s, att) && Unused(s, newHash) && newHash in s.names
    ensures HistoryOk(Rotated(s, r, att, newHash))
  {
    var t := Rotated(s, r, att, newHash);
    RotatedShows(s, r, att, newHash);
    forall sid | sid in t.lineage
      ensures ChainOk(t.lineage[sid], t.names) == true
    {
      assert t.lineage[sid] == s.lineage[sid] || sid == att.row.id;
    }
    forall e | e in t.seen
      ensures Remembered(t, e) == true
    {
      RotateSeen(s, r, att, newHash, e);
    }
  }

  lemma RotateTable(s: State, r: RequestId, att: Attempt, newHash: Hash)
    requires TableOk(s) && UpdateHits(s, att)
    ensures TableOk(Rotated(s, r, att, newHash))
  {
  }

  lemma WorldKept(s: State, step: Step)
    requires WorldOk(s) && ProcsOk(s) && PendingOk(s) && Enabled(s, step)
    ensures Grows(s, WorldAfter(s, step))
    ensures WorldOk(WorldAfter(s, step))
  {
    var t := WorldAfter(s, step);
    Classify(s, step);
    if step.CreateSession? {
      var row := Row(step.sid, step.user, step.family, step.hash, None, None, step.expiresAt);
      CreateGrows(s, row);
      CreateHistory(s, row);
      CreateTable(s, row);
    } else if Extending(s, step) {
      ExtendGrows(s, step.sid, step.expiresAt);
      ExtendHistory(s, step.sid, step.expiresAt);
      ExtendTable(s, step.sid, step.expiresAt);
    } else if Hits(s, step) {
      assert ProcOk(s, step.r, s.procs[step.r]) && Pending(s, step.r);
      RotateGrows(s, step.r, PhaseOf(s, step.r).att, PhaseOf(s, step.r).newHash);
      RotateHistory(s, step.r, PhaseOf(s, step.r).att, PhaseOf(s, step.r).newHash);
      RotateTable(s, step.r, PhaseOf(s, step.r).att, PhaseOf(s, step.r).newHash);
    } else if Quiet(s, t) {
      QuietKeeps(s, t);
    } else {
      ShrinkKeeps(s, t);
    }
  }

  // ----- The cache -----

  predicate WritesCache(step: Step) {
    step.CacheFill? || step.StoreRow?
  }

  lemma CacheWriteKept(s: State, step: Step)
    requires WorldOk(s) && ProcsOk(s) && CacheOk(s) && Enabled(s, step) && WritesCache(step)
    ensures CacheOk(WorldAfter(s, step))
  {
    var p := s.procs[step.r];
    assert ProcOk(s, step.r, p);
    if step.StoreRow? && step.ok && s.mode != Hostile {
      var ph := p.phase;
      assert Remembered(s, ph.full);
      assert CacheImage(ph.full, ph.att, ph.newHash, s.graceMs, s.refreshTtlMs) == WrittenRow(s, ph.att, ph.newHash);
    }
  }

  lemma CacheOnlyLosesKeys(s: State, step: Step)
    requires Enabled(s, step) && TableKnown(s) && !WritesCache(step)
    ensures forall sid :: sid in WorldAfter(s, step).cache ==> sid in s.cache && WorldAfter(s, step).cache[sid] == s.cache[sid]
  {
  }

  lemma CacheKept(s: State, step: Step)
    requires WorldOk(s) && ProcsOk(s) && PendingOk(s) && CacheOk(s) && Enabled(s, step)
    ensures CacheOk(WorldAfter(s, step))
  {
    WorldKept(s, step);
    if WritesCache(step) {
      CacheWriteKept(s, step);
    } else {
      CacheOnlyLosesKeys(s, step);
    }
  }
}
