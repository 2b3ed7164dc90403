/** Every step keeps the requests, the pending hashes and the rotations in order. */
module RefreshRequests {
  import opened Options
  import opened AuthSessions
  import opened RefreshDecision
  import opened RefreshProtocol
  import opened RefreshInvariants
  import opened RefreshSteps

  // An `ensures P(..) == true` promises P(..) as a whole: unlike a bare P(..), it is not taken apart where it is proved.

  // ----- The moving request -----

  // With an answer that is real, the use case goes on in order.
  lemma ResumeOk(w: State, r: RequestId, p: Process, first: Option<Attempt>, found: Option<Row>, src: Source)
    requires p.issued ==> IssuedFor(w, p.req)
    requires FirstOk(w, p, first) && r !in w.rotations
    requires found.Some? ==> RowReal(w, p.req, found.value, src) && NotBehind(w, p, found.value)
    ensures ProcOk(w, r, p.(phase := Resume(p.req, first, found, src)))
  {
  }

  // What the table answers carries the newest hash of the session.
  lemma SelectedIsNotBehind(w: State, p: Process, sid: SessionId)
    requires WorldOk(w) && sid in w.db && (p.issued ==> IssuedFor(w, p.req))
    requires w.mode == Direct ==> sid == p.req.sid
    ensures NotBehind(w, p, w.db[sid])
  {
    if w.mode == Direct && p.issued {
      var links := w.lineage[sid];
      assert ChainOk(links, w.names);
      DepthIs(links, |links| - 1);
    }
  }

  lemma LookupIsOwnSession(w: State, r: RequestId, p: Process, first: Option<Attempt>)
    requires FirstOk(w, p, first)
    ensures w.mode != Hostile ==> LookupId(p, first) == p.req.sid
  {
  }

  lemma CacheGetOk(s: State, r: RequestId, answer: Option<Cached>)
    requires CacheOk(s) && ProcsOk(s) && Enabled(s, CacheGet(r, answer))
    ensures ProcOk(s, r, NextProcess(s, CacheGet(r, answer)))
  {
    var p := s.procs[r];
    var first := p.phase.first;
    assert ProcOk(s, r, p);
    LookupIsOwnSession(s, r, p, first);
    if answer.Some? {
      var written := if s.mode == Hostile then s.clock else s.cache[LookupId(p, first)].writtenAt;
      var found := if answer.value.Entry? then Some(answer.value.row) else None;
      ResumeOk(s, r, p, first, found, Source(written, s.clock));
    }
  }

  lemma DbSelectOk(s: State, r: RequestId)
    requires WorldOk(s) && ProcsOk(s) && Enabled(s, DbSelect(r))
    ensures ProcOk(s, r, NextProcess(s, DbSelect(r)))
  {
    var p := s.procs[r];
    var first := p.phase.first;
    assert ProcOk(s, r, p);
    LookupIsOwnSession(s, r, p, first);
    var sid := LookupId(p, first);
    var found := Find(s.db, sid, s.clock);
    if found.Some? {
      SelectedIsNotBehind(s, p, sid);
    }
    ResumeOk(s, r, p, first, found, Source(s.clock, s.clock));
  }

  lemma DecideOk(w: State, r: RequestId, p: Process, newHash: Hash)
    requires ProcOk(w, r, p) && p.phase.Loaded? && newHash in w.names
    ensures ProcOk(w, r, p.(phase := AfterDecision(w, p, newHash)))
  {
  }

  // The fields a successful update leaves to its request.
  lemma UpdateHitFacts(s: State, r: RequestId, p: Process, att: Attempt, newHash: Hash)
    requires WorldOk(s) && ProcOk(s, r, p) && p.phase == Updating(att, newHash)
    requires UpdateHits(s, att) && Unused(s, newHash)
    ensures var w := Rotated(s, r, att, newHash);
            && (p.issued ==> IssuedFor(w, p.req))
            && AttemptOk(w, p, att)
            && WonOk(w, r, p, att.row.id, newHash)
            && ImageOk(w, att, newHash)
  {
    var w := Rotated(s, r, att, newHash);
    RotatedShows(s, r, att, newHash);
    RotateGrows(s, r, att, newHash);
    if p.issued {
      IssuedGrows(s, w, p.req);
    }
    NotBehindGrows(s, w, p, att.row);
    assert WrittenRow(w, att, newHash) == w.db[att.row.id];
  }

  lemma UpdateHitOk(s: State, r: RequestId)
    requires WorldOk(s) && ProcsOk(s) && PendingOk(s) && Enabled(s, DbUpdate(r)) && Hits(s, DbUpdate(r))
    ensures ProcOk(WorldAfter(s, DbUpdate(r)), r, NextProcess(s, DbUpdate(r)))
  {
    var p := s.procs[r];
    assert ProcOk(s, r, p) && Pending(s, r);
    UpdateHitFacts(s, r, p, p.phase.att, p.phase.newHash);
  }

  lemma FillOk(s: State, w: State, r: RequestId, ok: bool)
    requires Enabled(s, CacheFill(r, ok)) && ProcOk(w, r, s.procs[r])
    ensures ProcOk(w, r, NextProcess(s, CacheFill(r, ok)))
  {
    var p := s.procs[r];
    ResumeOk(w, r, p, p.phase.first, p.phase.found, p.phase.src);
  }

  lemma DecideStepOk(s: State, w: State, r: RequestId, newHash: Hash)
    requires Enabled(s, Decide(r, newHash)) && ProcOk(w, r, s.procs[r])
    requires newHash in w.names && w.clock == s.clock
    ensures ProcOk(w, r, NextProcess(s, Decide(r, newHash)))
  {
    DecideOk(w, r, s.procs[r], newHash);
  }

  // The old phase is still in order in the new world.
  lemma StillOk(s: State, step: Step, r: RequestId)
    requires WorldOk(s) && ProcsOk(s) && PendingOk(s) && Enabled(s, step) && r in s.procs
    requires Hits(s, step) ==> r != step.r
    ensures ProcOk(WorldAfter(s, step), r, s.procs[r])
  {
    WorldKept(s, step);
    Classify(s, step);
    assert ProcOk(s, r, s.procs[r]);
    ProcGrows(s, WorldAfter(s, step), r, s.procs[r]);
  }

  lemma MoverKept(s: State, step: Step)
    requires WorldOk(s) && CacheOk(s) && ProcsOk(s) && PendingOk(s) && RotationsOk(s)
    requires Enabled(s, step) && Mover(step).Some?
    ensures ProcOk(WorldAfter(s, step), Mover(step).value, NextProcess(s, step)) == true
  {
    var r := Mover(step).value;
    var w := WorldAfter(s, step);
    if Hits(s, step) {
      UpdateHitOk(s, r);
    } else if step.Begin? {
      BeginOk(s, r, step.req);
    } else if step.CacheGet? {
      CacheGetOk(s, r, step.answer);
    } else if step.DbSelect? {
      DbSelectOk(s, r);
    } else {
      StillOk(s, step, r);
      if step.CacheFill? {
        FillOk(s, w, r, step.ok);
      } else if step.Decide? {
        DecideStepOk(s, w, r, step.newHash);
      } else {
        WorldKept(s, step);
        OtherMovesOk(s, w, step);
      }
    }
  }

  lemma BeginOk(s: State, r: RequestId, req: Request)
    requires RotationsOk(s) && TableKnown(s) && Enabled(s, Begin(r, req))
    ensures ProcOk(WorldAfter(s, Begin(r, req)), r, NextProcess(s, Begin(r, req)))
  {
  }

  lemma OtherMovesOk(s: State, w: State, step: Step)
    requires Enabled(s, step) && Mover(step).Some? && !Hits(s, step)
    requires !step.Begin? && !step.CacheGet? && !step.DbSelect? && !step.CacheFill? && !step.Decide?
    requires WorldOk(s) && w.mode == s.mode && s.seen <= w.seen
    requires ProcOk(w, step.r, s.procs[step.r])
    ensures ProcOk(w, step.r, NextProcess(s, step))
  {
  }

  // ----- All requests -----

  lemma ProcKept(s: State, step: Step, r: RequestId)
    requires WorldOk(s) && CacheOk(s) && ProcsOk(s) && PendingOk(s) && RotationsOk(s) && Enabled(s, step)
    requires r in Apply(s, step).procs
    ensures ProcOk(Apply(s, step), r, Apply(s, step).procs[r]) == true
  {
    var w := WorldAfter(s, step);
    var t := Apply(s, step);
    if Mover(step) == Some(r) {
      MoverKept(s, step);
    } else {
      assert w.procs == s.procs by {
        Classify(s, step);
      }
      StillOk(s, step, r);
    }
    SameWorldOk(w, t, r, t.procs[r]);
  }

  lemma SameWorldOk(w: State, t: State, r: RequestId, p: Process)
    requires t == w.(procs := t.procs) && ProcOk(w, r, p)
    ensures ProcOk(t, r, p)
  {
    ProcGrows(w, t, r, p);
  }

  lemma ProcsKept(s: State, step: Step)
    requires WorldOk(s) && CacheOk(s) && ProcsOk(s) && PendingOk(s) && RotationsOk(s) && Enabled(s, step)
    ensures ProcsOk(Apply(s, step))
  {
    forall r | r in Apply(s, step).procs
      ensures ProcOk(Apply(s, step), r, Apply(s, step).procs[r]) == true
    {
      ProcKept(s, step, r);
    }
  }

  // ----- Pending hashes -----

  lemma UnusedUnlessNamed(s: State, h: Hash)
    requires HistoryOk(s) && h !in s.names
    ensures Unused(s, h)
  {
    forall sid, k | sid in s.lineage && 0 <= k < |s.lineage[sid]|
      ensures s.lineage[sid][k].hash != h
    {
      assert ChainOk(s.lineage[sid], s.names);
    }
  }

  // A step that is not a hit installs no hash that a request still holds back.
  lemma LineageAfter(s: State, step: Step, h: Hash)
    requires Enabled(s, step) && TableKnown(s) && Unused(s, h)
    requires step.CreateSession? ==> step.hash != h
    requires Hits(s, step) ==> PhaseOf(s, step.r).newHash != h
    ensures Unused(Apply(s, step), h)
  {
    Classify(s, step);
  }

  // A request is pending after a step only if it was pending before or has just decided to rotate.
  lemma PendingAfter(s: State, step: Step, r: RequestId)
    requires Enabled(s, step) && TableKnown(s) && Pending(Apply(s, step), r)
    ensures Pending(s, r) || step.Decide?
    ensures Pending(s, r) && !(step.Decide? && step.r == r) ==>
      !(step.DbUpdate? && step.r == r) && Apply(s, step).procs[r] == s.procs[r]
    ensures !Pending(s, r) ==> step.Decide? && step.r == r && Apply(s, step).procs[r].phase.newHash == step.newHash
    ensures step.Decide? && step.r == r ==> !Pending(s, r)
  {
    Classify(s, step);
  }

  lemma PendingKept(s: State, step: Step)
    requires WorldOk(s) && ProcsOk(s) && PendingOk(s) && Enabled(s, step)
    ensures PendingOk(Apply(s, step))
  {
    var t := Apply(s, step);
    forall r | Pending(t, r)
      ensures Unused(t, t.procs[r].phase.newHash)
    {
      PendingAfter(s, step, r);
      if Pending(s, r) {
        assert ProcOk(s, r, s.procs[r]);
      } else {
        UnusedUnlessNamed(s, step.newHash);
      }
      if Hits(s, step) {
        assert Pending(s, step.r);
      }
      LineageAfter(s, step, t.procs[r].phase.newHash);
    }
    forall r1, r2 | Pending(t, r1) && Pending(t, r2) && r1 != r2
      ensures t.procs[r1].phase.newHash != t.procs[r2].phase.newHash
    {
      PendingAfter(s, step, r1);
      PendingAfter(s, step, r2);
      if Pending(s, r1) {
        assert ProcOk(s, r1, s.procs[r1]);
      }
      if Pending(s, r2) {
        assert ProcOk(s, r2, s.procs[r2]);
      }
    }
  }

  // ----- Rotations -----

  lemma RotationGrows(s: State, t: State, rot: Rotation)
    requires Grows(s, t) && RotationOk(s, rot)
    ensures RotationOk(t, rot)
  {
  }

  lemma RotationsAfter(s: State, step: Step)
    requires TableKnown(s) && Enabled(s, step)
    ensures !Hits(s, step) ==> Apply(s, step).rotations == s.rotations
    ensures Hits(s, step) ==>
      var att := PhaseOf(s, step.r).att;
      Apply(s, step).rotations == s.rotations[step.r :=
        Rotation(att.row.id, |s.lineage[att.row.id]| - 1, att.row.currentJti, PhaseOf(s, step.r).newHash)]
    ensures s.procs.Keys <= Apply(s, step).procs.Keys
  {
    Classify(s, step);
  }

  lemma StepGrows(s: State, step: Step)
    requires WorldOk(s) && ProcsOk(s) && PendingOk(s) && Enabled(s, step)
    ensures Grows(s, Apply(s, step))
  {
    WorldKept(s, step);
  }

  lemma AllRotationsOk(s: State, step: Step, r: RequestId)
    requires WorldOk(s) && ProcsOk(s) && PendingOk(s) && RotationsOk(s) && Enabled(s, step)
    requires r in Apply(s, step).rotations
    ensures RotationOk(Apply(s, step), Apply(s, step).rotations[r]) == true
  {
    RotationsAfter(s, step);
    if r in s.rotations && !(Hits(s, step) && step.r == r) {
      OldRotationOk(s, step, r);
    } else {
      NewRotationOk(s, r);
    }
  }

  lemma OldRotationOk(s: State, step: Step, r: RequestId)
    requires WorldOk(s) && ProcsOk(s) && PendingOk(s) && RotationsOk(s) && Enabled(s, step) && r in s.rotations
    ensures RotationOk(Apply(s, step), s.rotations[r]) == true
  {
    StepGrows(s, step);
    RotationGrows(s, Apply(s, step), s.rotations[r]);
  }

  lemma StillOneEach(s: State, step: Step)
    requires TableKnown(s) && RotationsOk(s) && Enabled(s, step)
    ensures OneEach(Apply(s, step).rotations)
  {
    RotationsAfter(s, step);
  }

  lemma RotationsKept(s: State, step: Step)
    requires WorldOk(s) && ProcsOk(s) && PendingOk(s) && RotationsOk(s) && Enabled(s, step)
    ensures RotationsOk(Apply(s, step))
  {
    RotationsAfter(s, step);
    StillOneEach(s, step);
    forall r | r in Apply(s, step).rotations
      ensures RotationOk(Apply(s, step), Apply(s, step).rotations[r]) == true
    {
      AllRotationsOk(s, step, r);
    }
  }

  lemma NewRotationOk(s: State, r: RequestId)
    requires WorldOk(s) && Enabled(s, DbUpdate(r)) && Hits(s, DbUpdate(r))
    ensures r in Apply(s, DbUpdate(r)).rotations
    ensures RotationOk(Apply(s, DbUpdate(r)), Apply(s, DbUpdate(r)).rotations[r])
  {
  }

  lemma HistoryAndTableKept(s: State, step: Step)
    requires WorldOk(s) && ProcsOk(s) && PendingOk(s) && Enabled(s, step)
    ensures WorldOk(Apply(s, step)) == true
  {
    var w := WorldAfter(s, step);
    var t := Apply(s, step);
    WorldKept(s, step);
    assert Quiet(w, t);
    QuietKeeps(w, t);
  }

  lemma StepKeepsInv(s: State, step: Step)
    requires Inv(s) && Enabled(s, step)
    ensures Inv(Apply(s, step)) == true
  {
    HistoryAndTableKept(s, step);
    CacheKept(s, step);
    ProcsKept(s, step);
    PendingKept(s, step);
    RotationsKept(s, step);
  }
}
