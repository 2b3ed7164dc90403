/** What the refresh protocol guarantees over whole runs. */
module RefreshTheorems {
  import opened Options
  import opened AuthSessions
  import opened RefreshDecision
  import opened RefreshProtocol
  import opened RefreshInvariants
  import opened RefreshSteps
  import opened RefreshRequests

  // An `ensures P(..) == true` promises P(..) as a whole: unlike a bare P(..), it is not taken apart where it is proved.

  lemma {:induction false} EveryStateOk(states: seq<State>, steps: seq<Step>, n: nat)
    requires IsRun(states, steps) && n < |states|
    ensures Inv(states[n])
  {
    if n > 0 {
      EveryStateOk(states, steps, n - 1);
      StepKeepsInv(states[n - 1], steps[n - 1]);
    }
  }

  lemma ModeStays(states: seq<State>, steps: seq<Step>, n: nat)
    requires IsRun(states, steps) && n < |states|
    ensures states[n].mode == states[0].mode
  {
    RunGrows(states, steps, 0, n);
  }

  lemma {:induction false} RunGrows(states: seq<State>, steps: seq<Step>, i: nat, j: nat)
    requires IsRun(states, steps) && i <= j < |states|
    ensures Grows(states[i], states[j])
    decreases j
  {
    if i < j {
      RunGrows(states, steps, i, j - 1);
      EveryStateOk(states, steps, j - 1);
      StepGrows(states[j - 1], steps[j - 1]);
      GrowsTwice(states[i], states[j - 1], states[j]);
    }
  }

  lemma GrowsTwice(a: State, b: State, c: State)
    requires Grows(a, b) && Grows(b, c)
    ensures Grows(a, c)
  {
    forall sid | sid in a.lineage
      ensures Extends(c.lineage[sid], a.lineage[sid])
    {
      assert Extends(b.lineage[sid], a.lineage[sid]) && Extends(c.lineage[sid], b.lineage[sid]);
    }
  }

  // ----- Rotation -----

  // Step `i` is the update in which request `r` replaced the hash `from` of the session by `to`.
  ghost predicate RotatesAt(states: seq<State>, steps: seq<Step>, i: nat, r: RequestId, sid: SessionId, from: Hash, to: Hash)
    requires IsRun(states, steps)
  {
    && i < |steps|
    && steps[i] == DbUpdate(r)
    && sid in states[i].db && states[i].db[sid].currentJti == from
    && sid in states[i + 1].db && states[i + 1].db[sid].currentJti == to
  }

  lemma {:induction false} RotationHasItsStep(states: seq<State>, steps: seq<Step>, n: nat, r: RequestId)
    requires IsRun(states, steps) && n < |states| && r in states[n].rotations
    ensures var rot := states[n].rotations[r];
            exists i :: 0 <= i < n && RotatesAt(states, steps, i, r, rot.sid, rot.from, rot.to)
  {
    var m := n - 1;
    EveryStateOk(states, steps, m);
    RotationsAfter(states[m], steps[m]);
    if Hits(states[m], steps[m]) && steps[m].r == r {
      var rot := states[n].rotations[r];
      assert RotatesAt(states, steps, m, r, rot.sid, rot.from, rot.to);
    } else {
      RotationHasItsStep(states, steps, m, r);
    }
  }

  /**
   * Whatever the cache answers, a new refresh token is handed out only for an update that found the
   * session's row in the table with the presented hash as its current one, and never to a read-only refresh.
   */
  lemma NewTokenIsJustified(states: seq<State>, steps: seq<Step>, n: nat, r: RequestId, sid: SessionId, token: Hash)
    requires IsRun(states, steps) && n < |states|
    requires r in states[n].procs && states[n].procs[r].phase == Done(NewRefreshToken(sid, token))
    ensures !states[n].procs[r].req.skipRotation
    ensures states[n].procs[r].req.presented.Some?
    ensures exists i :: 0 <= i < n && RotatesAt(states, steps, i, r, sid, states[n].procs[r].req.presented.value, token)
  {
    EveryStateOk(states, steps, n);
    assert ProcOk(states[n], r, states[n].procs[r]);
    RotationHasItsStep(states, steps, n, r);
  }

  /** Two requests that rotated one session presented different hashes: a token is rotated at most once in a run. */
  lemma TokenRotatesOnce(states: seq<State>, steps: seq<Step>, n: nat, r1: RequestId, r2: RequestId)
    requires IsRun(states, steps) && n < |states|
    requires r1 in states[n].rotations && r2 in states[n].rotations && r1 != r2
    requires states[n].rotations[r1].sid == states[n].rotations[r2].sid
    ensures states[n].rotations[r1].from != states[n].rotations[r2].from
    ensures states[n].rotations[r1].to != states[n].rotations[r2].to
  {
    EveryStateOk(states, steps, n);
    var rot1, rot2 := states[n].rotations[r1], states[n].rotations[r2];
    assert RotationOk(states[n], rot1) && RotationOk(states[n], rot2);
    assert ChainOk(states[n].lineage[rot1.sid], states[n].names);
    assert rot1.depth != rot2.depth;
  }

  /** Hence at most one response in the whole run carries a successor of a given token. */
  lemma OneSuccessorPerToken(states: seq<State>, steps: seq<Step>, n: nat, r1: RequestId, r2: RequestId, sid: SessionId,
                             token1: Hash, token2: Hash)
    requires IsRun(states, steps) && n < |states|
    requires r1 in states[n].procs && states[n].procs[r1].phase == Done(NewRefreshToken(sid, token1))
    requires r2 in states[n].procs && states[n].procs[r2].phase == Done(NewRefreshToken(sid, token2))
    requires states[n].procs[r1].req.presented == states[n].procs[r2].req.presented
    ensures r1 == r2
  {
    EveryStateOk(states, steps, n);
    assert ProcOk(states[n], r1, states[n].procs[r1]) && ProcOk(states[n], r2, states[n].procs[r2]);
    if r1 != r2 {
      TokenRotatesOnce(states, steps, n, r1, r2);
    }
  }

  // ----- Revocation is final -----

  // No row is back for a session that was there before, and none is new in a family in use.
  ghost predicate RevivesNothing(s: State, t: State) {
    forall sid :: sid in t.db ==>
      && (sid in s.lineage ==> sid in s.db)
      && (if sid in s.db then t.db[sid].familyId == s.db[sid].familyId else t.db[sid].familyId !in s.families)
  }

  lemma RotationRevivesNothing(s: State, r: RequestId, att: Attempt, newHash: Hash)
    requires UpdateHits(s, att)
    ensures RevivesNothing(s, Rotated(s, r, att, newHash))
  {
  }

  lemma CreationRevivesNothing(s: State, step: Step)
    requires TableKnown(s) && step.CreateSession? && Enabled(s, step)
    ensures RevivesNothing(s, WorldAfter(s, step))
  {
  }

  lemma LossRevivesNothing(s: State, t: State)
    requires Quiet(s, t) || Shrinks(s, t)
    ensures RevivesNothing(s, t)
  {
  }

  lemma WorldRevivesNothing(s: State, step: Step)
    requires TableKnown(s) && Enabled(s, step)
    ensures RevivesNothing(s, WorldAfter(s, step)) == true
  {
    if step.CreateSession? {
      CreationRevivesNothing(s, step);
    } else if Hits(s, step) {
      RotationRevivesNothing(s, step.r, PhaseOf(s, step.r).att, PhaseOf(s, step.r).newHash);
    } else if !Extending(s, step) {
      Classify(s, step);
      LossRevivesNothing(s, WorldAfter(s, step));
    }
  }

  lemma StepRevivesNothing(s: State, step: Step)
    requires TableKnown(s) && Enabled(s, step)
    ensures RevivesNothing(s, Apply(s, step)) == true
  {
    WorldRevivesNothing(s, step);
    assert Apply(s, step).db == WorldAfter(s, step).db;
  }

  // Rotations recorded by a step are of sessions in the table.
  ghost predicate OnlyLiveRotate(s: State, t: State) {
    forall r :: r in t.rotations ==>
      (r in s.rotations && t.rotations[r] == s.rotations[r]) || t.rotations[r].sid in s.db
  }

  lemma StepRotatesLive(s: State, step: Step)
    requires TableKnown(s) && Enabled(s, step)
    ensures OnlyLiveRotate(s, Apply(s, step)) == true
  {
    RotationsAfter(s, step);
  }

  // What one step of a run does to sessions whose row is gone.
  lemma StepOfRun(states: seq<State>, steps: seq<Step>, i: nat)
    requires IsRun(states, steps) && i < |steps|
    ensures RevivesNothing(states[i], states[i + 1]) == true
    ensures OnlyLiveRotate(states[i], states[i + 1]) == true
    ensures states[i].lineage.Keys <= states[i + 1].lineage.Keys && states[i].families <= states[i + 1].families
  {
    EveryStateOk(states, steps, i);
    StepRevivesNothing(states[i], steps[i]);
    StepRotatesLive(states[i], steps[i]);
    RunGrows(states, steps, i, i + 1);
  }

  // Nothing comes back from one state of the list to the next.
  ghost predicate Finality(states: seq<State>) {
    forall i :: 0 <= i < |states| - 1 ==>
      && RevivesNothing(states[i], states[i + 1]) && OnlyLiveRotate(states[i], states[i + 1])
      && states[i].lineage.Keys <= states[i + 1].lineage.Keys && states[i].families <= states[i + 1].families
  }

  lemma RunsAreFinal(states: seq<State>, steps: seq<Step>)
    requires IsRun(states, steps)
    ensures Finality(states) == true
  {
    forall i | 0 <= i < |states| - 1
      ensures RevivesNothing(states[i], states[i + 1]) == true && OnlyLiveRotate(states[i], states[i + 1]) == true
      ensures states[i].lineage.Keys <= states[i + 1].lineage.Keys && states[i].families <= states[i + 1].families
    {
      StepOfRun(states, steps, i);
    }
  }

  lemma {:induction false} GoneStaysGone(states: seq<State>, i: nat, j: nat, sid: SessionId)
    requires Finality(states) && i <= j < |states| && sid in states[i].lineage && sid !in states[i].db
    ensures sid !in states[j].db && sid in states[j].lineage
    ensures forall r :: r in states[j].rotations && states[j].rotations[r].sid == sid ==>
              r in states[i].rotations && states[i].rotations[r] == states[j].rotations[r]
    decreases j
  {
    if i < j {
      GoneStaysGone(states, i, j - 1, sid);
    }
  }

  /** Once a session's row is gone, it stays gone and no request rotates the session any more. */
  lemma NoRotationAfterRevocation(states: seq<State>, steps: seq<Step>, i: nat, j: nat, sid: SessionId)
    requires IsRun(states, steps) && i <= j < |states|
    requires sid in states[i].lineage && sid !in states[i].db
    ensures sid !in states[j].db
    ensures forall r :: r in states[j].rotations && states[j].rotations[r].sid == sid ==>
              r in states[i].rotations && states[i].rotations[r] == states[j].rotations[r]
  {
    RunsAreFinal(states, steps);
    GoneStaysGone(states, i, j, sid);
  }

  // ----- What a step does to each row -----

  /** Over every run a family revocation takes exactly the rows of that family and leaves every other row as it was. */
  lemma RevocationHitsFamilyOnly(states: seq<State>, steps: seq<Step>, n: nat, family: FamilyId, sid: SessionId)
    requires IsRun(states, steps) && n < |steps|
    requires steps[n] == RevokeByFamily(family) || (steps[n].DbRevoke? && states[n].procs[steps[n].r].phase.att.row.familyId == family)
    ensures sid in states[n + 1].db <==> sid in states[n].db && states[n].db[sid].familyId != family
    ensures sid in states[n + 1].db ==> states[n + 1].db[sid] == states[n].db[sid]
  {
  }

  predicate WritesTable(step: Step) {
    step.CreateSession? || step.ExtendExpiry? || step.RevokeById? || step.RevokeAllForUser? || step.RevokeByFamily?
    || step.DbRevoke? || step.DbUpdate?
  }

  lemma OtherStepsLeaveTable(s: State, step: Step)
    requires Enabled(s, step) && !WritesTable(step)
    ensures Apply(s, step).db == s.db
  {
    if Mover(step).Some? {
      MissesAreQuiet(s, step);
    }
  }

  lemma TableFromWorld(s: State, step: Step)
    requires Enabled(s, step)
    ensures Apply(s, step).db == WorldAfter(s, step).db
  {
  }

  // The row has gone, as it must with a revocation of its id, user or family and with no other step.
  predicate RowGoes(s: State, t: Table, step: Step, sid: SessionId)
    requires Enabled(s, step) && sid in s.db
  {
    sid !in t <==>
      || step == RevokeById(sid)
      || step == RevokeAllForUser(s.db[sid].userId)
      || step == RevokeByFamily(s.db[sid].familyId)
      || (step.DbRevoke? && s.procs[step.r].phase.att.row.familyId == s.db[sid].familyId)
  }

  // A row that stays has changed only by an extension of its expiry, or by the update of a request that read its current
  // hash; then the row read is the one replaced, and its hash has become the previous one for the grace period.
  predicate RowFollows(s: State, t: Table, step: Step, sid: SessionId)
    requires Enabled(s, step) && sid in s.db && sid in t
  {
    var row := s.db[sid];
    if step.ExtendExpiry? && step.sid == sid then
      t[sid] == Row(sid, row.userId, row.familyId, row.currentJti, row.previousJti, row.previousJtiExpiresAt, step.expiresAt)
    else if step.DbUpdate? && s.procs[step.r].phase.att.row.id == sid && s.procs[step.r].phase.att.row.currentJti == row.currentJti then
      var p := s.procs[step.r].phase;
      t[sid] == Row(sid, row.userId, row.familyId, p.newHash, Some(row.currentJti), Some(p.att.now + s.graceMs),
                    p.att.now + s.refreshTtlMs)
    else t[sid] == row
  }

  // A row is new exactly when its session is created, and then has no previous hash.
  predicate RowComes(s: State, t: Table, step: Step, sid: SessionId) {
    && (sid in t <==> step.CreateSession? && step.sid == sid)
    && (sid in t ==> t[sid] == Row(sid, step.user, step.family, step.hash, None, None, step.expiresAt))
  }

  lemma TableWritten(s: State, step: Step, sid: SessionId)
    requires TableKnown(s) && Enabled(s, step) && WritesTable(step)
    ensures if sid in s.db then RowGoes(s, WorldAfter(s, step).db, step, sid) else RowComes(s, WorldAfter(s, step).db, step, sid)
  {
  }

  lemma RowWritten(s: State, step: Step, sid: SessionId)
    requires TableKnown(s) && Enabled(s, step) && WritesTable(step) && sid in s.db && sid in WorldAfter(s, step).db
    ensures RowFollows(s, WorldAfter(s, step).db, step, sid)
  {
  }

  lemma TableLeft(s: State, step: Step, sid: SessionId)
    requires Enabled(s, step) && !WritesTable(step)
    ensures if sid in s.db then RowGoes(s, s.db, step, sid) && RowFollows(s, s.db, step, sid) else RowComes(s, s.db, step, sid)
  {
  }

  /** What any step does to any row of the table: whether it goes, what it becomes, and when a new one comes. */
  lemma RowsChangeExactly(s: State, step: Step, sid: SessionId)
    requires TableKnown(s) && Enabled(s, step)
    ensures sid in s.db ==> RowGoes(s, Apply(s, step).db, step, sid) == true
    ensures sid in s.db && sid in Apply(s, step).db ==> RowFollows(s, Apply(s, step).db, step, sid) == true
    ensures sid !in s.db ==> RowComes(s, Apply(s, step).db, step, sid) == true
  {
    if WritesTable(step) {
      TableWritten(s, step, sid);
      TableFromWorld(s, step);
      if sid in s.db && sid in Apply(s, step).db {
        RowWritten(s, step, sid);
      }
    } else {
      TableLeft(s, step, sid);
      OtherStepsLeaveTable(s, step);
    }
  }

  ghost predicate FamilyGone(s: State, family: FamilyId) {
    family in s.families && forall sid :: sid in s.db ==> s.db[sid].familyId != family
  }

  lemma {:induction false} FamilyStaysGone(states: seq<State>, i: nat, j: nat, family: FamilyId)
    requires Finality(states) && i <= j < |states| && FamilyGone(states[i], family)
    ensures FamilyGone(states[j], family)
    decreases j
  {
    if i < j {
      FamilyStaysGone(states, i, j - 1, family);
    }
  }

  lemma RevocationEmptiesFamily(s: State, step: Step, family: FamilyId)
    requires Enabled(s, step) && family in s.families
    requires step == RevokeByFamily(family) || (step.DbRevoke? && PhaseOf(s, step.r).att.row.familyId == family)
    ensures FamilyGone(Apply(s, step), family)
  {
  }

  /** Once a family in use has been revoked, no row of it is ever in the table again. */
  lemma FamilyStaysRevoked(states: seq<State>, steps: seq<Step>, i: nat, j: nat, family: FamilyId)
    requires IsRun(states, steps) && i < j < |states|
    requires family in states[i].families
    requires steps[i] == RevokeByFamily(family) ||
             (steps[i].DbRevoke? && PhaseOf(states[i], steps[i].r).att.row.familyId == family)
    ensures FamilyGone(states[j], family)
  {
    RevocationEmptiesFamily(states[i], steps[i], family);
    RunsAreFinal(states, steps);
    FamilyStaysGone(states, i + 1, j, family);
  }

  // ----- The cache -----

  // The table held exactly this row in one of the first `n + 1` states.
  ghost predicate WasReal(states: seq<State>, n: nat, row: Row) {
    exists j :: 0 <= j <= n < |states| && row.id in states[j].db && states[j].db[row.id] == row
  }

  // Rows newly seen are in the table.
  ghost predicate NewlySeenAreThere(s: State, t: State) {
    forall row :: row in t.seen && row !in s.seen ==> row.id in t.db && t.db[row.id] == row
  }

  lemma RotationIsSeen(s: State, r: RequestId, att: Attempt, newHash: Hash)
    requires TableOk(s) && UpdateHits(s, att)
    ensures NewlySeenAreThere(s, Rotated(s, r, att, newHash))
  {
    assert Rotated(s, r, att, newHash).db[att.row.id].id == att.row.id;
  }

  lemma OthersAreSeen(s: State, step: Step)
    requires TableOk(s) && Enabled(s, step) && (step.CreateSession? || Extending(s, step))
    ensures NewlySeenAreThere(s, WorldAfter(s, step))
  {
  }

  lemma StepIsSeen(s: State, step: Step)
    requires WorldOk(s) && Enabled(s, step)
    ensures NewlySeenAreThere(s, WorldAfter(s, step)) == true
  {
    if Hits(s, step) {
      RotationIsSeen(s, step.r, PhaseOf(s, step.r).att, PhaseOf(s, step.r).newHash);
    } else if step.CreateSession? || Extending(s, step) {
      OthersAreSeen(s, step);
    } else {
      Classify(s, step);
    }
  }

  lemma SeenAfter(s: State, step: Step, row: Row)
    requires WorldOk(s) && Enabled(s, step) && row in Apply(s, step).seen && row !in s.seen
    ensures row.id in Apply(s, step).db && Apply(s, step).db[row.id] == row
  {
    StepIsSeen(s, step);
  }

  lemma {:induction false} SeenWasReal(states: seq<State>, steps: seq<Step>, n: nat, row: Row)
    requires IsRun(states, steps) && n < |states| && row in states[n].seen
    ensures WasReal(states, n, row)
  {
    if n > 0 {
      if row in states[n - 1].seen {
        SeenWasReal(states, steps, n - 1, row);
      } else {
        EveryStateOk(states, steps, n - 1);
        SeenAfter(states[n - 1], steps[n - 1], row);
      }
    }
  }

  /** Every row the session cache ever holds is a state the table's row really had, never a mixture. */
  lemma CacheHoldsRealStates(states: seq<State>, steps: seq<Step>, n: nat, sid: SessionId, row: Row)
    requires IsRun(states, steps) && n < |states| && states[0].mode == ReadThrough
    requires sid in states[n].cache && states[n].cache[sid].value == Entry(row)
    ensures row.id == sid && WasReal(states, n, row)
  {
    ModeStays(states, steps, n);
    EveryStateOk(states, steps, n);
    SeenWasReal(states, steps, n, row);
  }

  /**
   * An access token granted without rotation rests on a state the session's row really had, read from the
   * table or from a cache entry at most sixty seconds old, that names the presented hash as current or in grace.
   */
  lemma AccessTokenIsJustified(states: seq<State>, steps: seq<Step>, n: nat, r: RequestId, row: Row, src: Source, now: nat)
    requires IsRun(states, steps) && n < |states| && states[0].mode != Hostile
    requires r in states[n].procs && states[n].procs[r].phase == Done(AccessToken(row, src, now))
    ensures row.id == states[n].procs[r].req.sid && WasReal(states, n, row)
    ensures Supports(row, states[n].procs[r].req, now) && now <= states[n].clock
    ensures src.writtenAt <= src.readAt <= src.writtenAt + 60_000 && src.readAt <= states[n].clock
  {
    ModeStays(states, steps, n);
    EveryStateOk(states, steps, n);
    assert ProcOk(states[n], r, states[n].procs[r]);
    SeenWasReal(states, steps, n, row);
  }

  /** A cached row is served for a minute, and that there is none for five seconds, both counted from the writing. */
  lemma ServedFromCacheExactly(s: State, r: RequestId, answer: Cached)
    requires s.mode != Hostile && r in s.procs && s.procs[r].phase.Lookup?
    ensures var first := s.procs[r].phase.first;
            var sid := if first.Some? then first.value.row.id else s.procs[r].req.sid;
            Enabled(s, CacheGet(r, Some(answer))) <==>
              sid in s.cache && s.cache[sid].value == answer
              && s.clock - s.cache[sid].writtenAt <= if answer.Entry? then 60_000 else 5_000
  {
  }

  // ----- The rotation chain -----

  /** A row's previous hash is the immediate predecessor of its current one among all hashes the session ever had. */
  lemma PreviousIsPredecessor(states: seq<State>, steps: seq<Step>, n: nat, sid: SessionId)
    requires IsRun(states, steps) && n < |states| && sid in states[n].db
    ensures sid in states[n].lineage && |states[n].lineage[sid]| > 0 && Distinct(states[n].lineage[sid])
    ensures Shows(states[n].lineage[sid], states[n].db[sid], |states[n].lineage[sid]| - 1)
  {
    EveryStateOk(states, steps, n);
    var s := states[n];
    var links := s.lineage[sid];
    assert ChainOk(links, s.names) && Remembered(s, s.db[sid]);
    DepthIs(links, |links| - 1);
  }

  /** The chain itself is the history of the table: it starts with the first hash and grows by one per rotation. */
  lemma ChainIsHistory(states: seq<State>, steps: seq<Step>, n: nat, sid: SessionId)
    requires IsRun(states, steps) && n < |steps| && sid in states[n].db && sid in states[n + 1].db
    ensures sid in states[n].lineage && sid in states[n + 1].lineage
    ensures states[n + 1].lineage[sid] == states[n].lineage[sid] <==>
            states[n + 1].db[sid].currentJti == states[n].db[sid].currentJti
    ensures states[n + 1].lineage[sid] != states[n].lineage[sid] ==>
            && |states[n + 1].lineage[sid]| == |states[n].lineage[sid]| + 1
            && states[n + 1].db[sid].previousJti == Some(states[n].db[sid].currentJti)
  {
    var s, t := states[n], states[n + 1];
    EveryStateOk(states, steps, n);
    Classify(s, steps[n]);
    assert s.db[sid] in s.seen && Remembered(s, s.db[sid]);
    if Hits(s, steps[n]) {
      assert Pending(s, steps[n].r);
      assert Unused(s, PhaseOf(s, steps[n].r).newHash);
      assert s.lineage[sid][|s.lineage[sid]| - 1].hash != PhaseOf(s, steps[n].r).newHash;
    }
  }

  // ----- When revocation is justified -----

  /** Never issued when it arrived, two or more rotations old, or one rotation old with the grace window over. */
  predicate Justified(s: State, p: Process) {
    p.issued && p.req.presented.Some? && p.req.sid in s.lineage ==>
      var links := s.lineage[p.req.sid];
      var d := Depth(links, p.req.presented.value);
      || d + 2 < |links|
      || (d + 2 == |links| && links[d + 1].graceUntil.Some? && links[d + 1].graceUntil.value <= s.clock)
  }

  // The row the request was judged by is at least as new as the hash it presented.
  predicate JudgedInTime(s: State, p: Process)
    requires p.phase.Revoking?
  {
    p.issued && p.req.presented.Some? && p.req.sid in s.lineage ==>
      Depth(s.lineage[p.req.sid], p.req.presented.value) <= Depth(s.lineage[p.req.sid], p.phase.att.row.currentJti)
  }

  /** With or without the cache in front: a revocation judged by a row not older than the presented hash is justified. */
  lemma RevocationInTimeIsJustified(states: seq<State>, steps: seq<Step>, n: nat, r: RequestId)
    requires IsRun(states, steps) && n < |steps| && states[0].mode != Hostile
    requires steps[n] == DbRevoke(r) && JudgedInTime(states[n], states[n].procs[r])
    ensures Justified(states[n], states[n].procs[r])
  {
    ModeStays(states, steps, n);
    EveryStateOk(states, steps, n);
    var s := states[n];
    var p := s.procs[r];
    assert ProcOk(s, r, p);
    var row := p.phase.att.row;
    assert Remembered(s, row);
    if p.issued {
      var links := s.lineage[p.req.sid];
      assert ChainOk(links, s.names);
      var d, k := Depth(links, p.req.presented.value), Depth(links, row.currentJti);
      assert d < k;
      if d + 1 == k {
        assert IsPrevious(row, p.req.presented);
      }
    }
  }

  /** Without the cache every revocation is justified. */
  lemma RevocationIsJustified(states: seq<State>, steps: seq<Step>, n: nat, r: RequestId)
    requires IsRun(states, steps) && n < |steps| && states[0].mode == Direct
    requires steps[n] == DbRevoke(r)
    ensures Justified(states[n], states[n].procs[r])
    ensures !states[n].procs[r].req.skipRotation
  {
    ModeStays(states, steps, n);
    EveryStateOk(states, steps, n);
    assert ProcOk(states[n], r, states[n].procs[r]);
    RevocationInTimeIsJustified(states, steps, n, r);
  }

  lemma JustifiedByTableRow(s: State, p: Process)
    requires HistoryOk(s) && TableOk(s) && p.req.sid in s.db && p.issued && IssuedFor(s, p.req)
    ensures Justified(s, p) <==> !Supports(s.db[p.req.sid], p.req, s.clock)
  {
    var row := s.db[p.req.sid];
    var links := s.lineage[p.req.sid];
    assert ChainOk(links, s.names) && Remembered(s, row);
    var last := |links| - 1;
    DepthIs(links, last);
    assert Shows(links, row, last);
    if last > 0 {
      DepthIs(links, last - 1);
    }
  }

  // Each session has a family of its own.
  ghost predicate FamiliesDiffer(s: State) {
    forall a, b :: a in s.owners && b in s.owners && a != b ==> s.owners[a].1 != s.owners[b].1
  }

  lemma StepKeepsFamilies(s: State, step: Step)
    requires WorldOk(s) && FamiliesDiffer(s) && Enabled(s, step)
    ensures FamiliesDiffer(Apply(s, step)) == true
  {
    Classify(s, step);
  }

  ghost predicate FamiliesKept(states: seq<State>) {
    forall i :: 0 <= i < |states| - 1 && FamiliesDiffer(states[i]) ==> FamiliesDiffer(states[i + 1])
  }

  lemma RunsKeepFamilies(states: seq<State>, steps: seq<Step>)
    requires IsRun(states, steps)
    ensures FamiliesKept(states) == true
  {
    forall i | 0 <= i < |states| - 1 && FamiliesDiffer(states[i])
      ensures FamiliesDiffer(states[i + 1]) == true
    {
      EveryStateOk(states, steps, i);
      StepKeepsFamilies(states[i], steps[i]);
    }
  }

  lemma {:induction false} FamiliesDifferThroughout(states: seq<State>, n: nat)
    requires n < |states| && FamiliesKept(states) && FamiliesDiffer(states[0])
    ensures FamiliesDiffer(states[n])
  {
    if n > 0 {
      FamiliesDifferThroughout(states, n - 1);
    }
  }

  lemma RevokesOnlyOwnRow(s: State, sid: SessionId, row: Row)
    requires WorldOk(s) && FamiliesDiffer(s) && row in s.seen && row.id == sid && sid !in s.db
    ensures WithoutFamily(s.db, row.familyId) == s.db
  {
    assert Remembered(s, row);
    forall k | k in s.db
      ensures s.db[k].familyId != row.familyId
    {
      assert Remembered(s, s.db[k]);
    }
  }

  /**
   * With or without the cache in front, exactly: a revocation for a hash that was issued is justified if and only if
   * the session's row, read again at that moment, would not support the hash. If the row has gone, nothing is revoked.
   */
  lemma RevocationIsJustifiedExactly(states: seq<State>, steps: seq<Step>, n: nat, r: RequestId)
    requires IsRun(states, steps) && n < |steps| && states[0].mode != Hostile
    requires steps[n] == DbRevoke(r)
    ensures var s, p := states[n], states[n].procs[r];
            && (p.issued && p.req.sid in s.db ==> (Justified(s, p) <==> !Supports(s.db[p.req.sid], p.req, s.clock)))
            && (p.req.sid !in s.db ==> states[n + 1].db == s.db)
  {
    ModeStays(states, steps, n);
    EveryStateOk(states, steps, n);
    var s, p := states[n], states[n].procs[r];
    assert ProcOk(s, r, p);
    if p.req.sid in s.db {
      if p.issued {
        JustifiedByTableRow(s, p);
      }
    } else {
      assert Init(states[0]);
      RunsKeepFamilies(states, steps);
      FamiliesDifferThroughout(states, n);
      RevokesOnlyOwnRow(s, p.req.sid, p.phase.att.row);
    }
  }

  /** With or without the cache in front, the revocation of a request takes the row of its own session and no other. */
  lemma RevocationTakesOneSession(states: seq<State>, steps: seq<Step>, n: nat, r: RequestId, sid: SessionId)
    requires IsRun(states, steps) && n < |steps| && states[0].mode != Hostile && steps[n] == DbRevoke(r)
    ensures sid in states[n + 1].db <==> sid in states[n].db && sid != states[n].procs[r].req.sid
    ensures sid in states[n + 1].db ==> states[n + 1].db[sid] == states[n].db[sid]
  {
    ModeStays(states, steps, n);
    EveryStateOk(states, steps, n);
    var s, p := states[n], states[n].procs[r];
    assert ProcOk(s, r, p) && Remembered(s, p.phase.att.row);
    assert Init(states[0]);
    RunsKeepFamilies(states, steps);
    FamiliesDifferThroughout(states, n);
    if sid in s.db {
      assert Remembered(s, s.db[sid]);
    }
    RevocationHitsFamilyOnly(states, steps, n, p.phase.att.row.familyId, sid);
  }

  /** In every mode only a request that may rotate revokes. */
  lemma ReadOnlyNeverRevokes(states: seq<State>, steps: seq<Step>, n: nat, r: RequestId)
    requires IsRun(states, steps) && n < |steps| && steps[n] == DbRevoke(r)
    ensures !states[n].procs[r].req.skipRotation
  {
    EveryStateOk(states, steps, n);
    assert ProcOk(states[n], r, states[n].procs[r]);
  }
}
