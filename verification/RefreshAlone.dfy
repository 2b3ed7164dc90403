/**
 * What the refresh protocol achieves when a request is left alone: a current token is rotated, one in its grace
 * window is answered with an access token, and a replayed one loses its family and nothing else.
 */
module RefreshAlone {
  import opened Options
  import opened AuthSessions
  import opened RefreshDecision
  import opened RefreshProtocol

  // An `ensures P(..) == true` promises P(..) as a whole: unlike a bare P(..), it is not taken apart where it is proved.

  // Some steps lead from `s` to `t`.
  ghost predicate Reaches(s: State, t: State) {
    exists states: seq<State>, steps: seq<Step> :: IsPath(states, steps) && states[0] == s && states[|steps|] == t
  }

  ghost predicate IsPath(states: seq<State>, steps: seq<Step>) {
    && |states| == |steps| + 1
    && forall i :: 0 <= i < |steps| ==> Enabled(states[i], steps[i]) && states[i + 1] == Apply(states[i], steps[i])
  }

  lemma OneStepLonger(states: seq<State>, steps: seq<Step>, step: Step)
    requires IsPath(states, steps) && Enabled(states[|steps|], step)
    ensures IsPath(states + [Apply(states[|steps|], step)], steps + [step])
  {
    var states', steps' := states + [Apply(states[|steps|], step)], steps + [step];
    forall i | 0 <= i < |steps'|
      ensures Enabled(states'[i], steps'[i]) && states'[i + 1] == Apply(states'[i], steps'[i])
    {
      if i < |steps| {
        assert states'[i] == states[i] && states'[i + 1] == states[i + 1] && steps'[i] == steps[i];
      }
    }
  }

  lemma ReachesVia(states: seq<State>, steps: seq<Step>, s: State, t: State)
    requires IsPath(states, steps) && states[0] == s && states[|steps|] == t
    ensures Reaches(s, t) == true
  {
  }

  lemma StartsHere(s: State)
    ensures Reaches(s, s) == true
  {
    ReachesVia([s], [], s, s);
  }

  lemma Next(s: State, t: State, step: Step) returns (u: State)
    requires Reaches(s, t) && Enabled(t, step)
    ensures u == Apply(t, step) && Reaches(s, u) == true
  {
    var states: seq<State>, steps: seq<Step> :| IsPath(states, steps) && states[0] == s && states[|steps|] == t;
    u := Apply(t, step);
    OneStepLonger(states, steps, step);
    ReachesVia(states + [u], steps + [step], s, u);
  }

  // A request arrives and finds its row in the table.
  predicate Waiting(s: State, r: RequestId, req: Request) {
    && s.mode != Hostile && r !in s.procs
    && req.sid in s.db && s.db[req.sid].id == req.sid && s.clock < s.db[req.sid].expiresAt
  }

  // Everything but the cache, the names and this request is as it was.
  predicate OnlyMoves(s: State, t: State, r: RequestId, phase: Phase) {
    && r in t.procs && t.procs[r].phase == phase && t.procs == s.procs[r := t.procs[r]]
    && t == s.(procs := t.procs, cache := t.cache, names := t.names)
  }

  lemma Arrives(s: State, r: RequestId, req: Request) returns (t: State)
    requires s.mode != Hostile && r !in s.procs
    ensures Reaches(s, t) == true && OnlyMoves(s, t, r, Select(None)) && t.procs[r].req == req
    ensures t.names == s.names + if req.presented.Some? then {req.presented.value} else {}
  {
    StartsHere(s);
    t := Next(s, s, Begin(r, req));
    if s.mode == ReadThrough {
      t := Next(s, t, CacheGet(r, None));
    }
  }

  predicate IsLive(s: State, sid: SessionId) {
    sid in s.db && s.clock < s.db[sid].expiresAt
  }

  // What a first lookup in the table leads to.
  function AfterLookup(s: State, sid: SessionId): Phase {
    if IsLive(s, sid) then Loaded(s.db[sid], Source(s.clock, s.clock)) else Done(Refused)
  }

  lemma SelectStep(s: State, t: State, r: RequestId, req: Request)
    requires s.mode != Hostile && OnlyMoves(s, t, r, Select(None)) && t.procs[r].req == req
    ensures Enabled(t, DbSelect(r))
    ensures var u := Apply(t, DbSelect(r));
            && u.names == t.names && r in u.procs && u.procs[r].req == req
            && OnlyMoves(s, u, r, if s.mode == Direct then AfterLookup(s, req.sid)
                                  else Fill(None, if IsLive(s, req.sid) then Some(s.db[req.sid]) else None, Source(s.clock, s.clock)))
  {
  }

  lemma FillStep(s: State, t: State, r: RequestId, req: Request, found: Option<Row>, src: Source)
    requires OnlyMoves(s, t, r, Fill(None, found, src)) && t.procs[r].req == req
    ensures Enabled(t, CacheFill(r, true))
    ensures var u := Apply(t, CacheFill(r, true));
            && u.names == t.names && r in u.procs && u.procs[r].req == req
            && OnlyMoves(s, u, r, if found.Some? then Loaded(found.value, src) else Done(Refused))
  {
  }

  lemma LooksUp(s: State, r: RequestId, req: Request) returns (t: State)
    requires s.mode != Hostile && r !in s.procs
    ensures Reaches(s, t) == true && OnlyMoves(s, t, r, AfterLookup(s, req.sid)) == true && r in t.procs && t.procs[r].req == req
    ensures t.names == s.names + if req.presented.Some? then {req.presented.value} else {}
  {
    t := Arrives(s, r, req);
    SelectStep(s, t, r, req);
    t := Next(s, t, DbSelect(r));
    if s.mode == ReadThrough {
      var found := if IsLive(s, req.sid) then Some(s.db[req.sid]) else None;
      FillStep(s, t, r, req, found, Source(s.clock, s.clock));
      t := Next(s, t, CacheFill(r, true));
    }
  }

  lemma Loads(s: State, r: RequestId, req: Request) returns (t: State)
    requires Waiting(s, r, req)
    ensures Reaches(s, t) == true && OnlyMoves(s, t, r, Loaded(s.db[req.sid], Source(s.clock, s.clock))) == true
    ensures r in t.procs && t.procs[r].req == req
    ensures t.names == s.names + if req.presented.Some? then {req.presented.value} else {}
  {
    t := LooksUp(s, r, req);
  }

  // The request's row after the rotation.
  function Rotated(row: Row, newHash: Hash, now: nat, graceMs: nat, refreshTtlMs: nat): Row {
    Row(row.id, row.userId, row.familyId, newHash, Some(row.currentJti), Some(now + graceMs), now + refreshTtlMs)
  }

  function AttemptOf(s: State, req: Request): Attempt
    requires req.sid in s.db
  {
    Attempt(s.db[req.sid], Source(s.clock, s.clock), s.clock / 1000 * 1000)
  }

  lemma Decides(s: State, r: RequestId, req: Request, newHash: Hash) returns (t: State)
    requires Waiting(s, r, req) && !req.skipRotation && req.presented == Some(s.db[req.sid].currentJti)
    requires newHash !in s.names && Some(newHash) != req.presented
    ensures Reaches(s, t) == true && OnlyMoves(s, t, r, Updating(AttemptOf(s, req), newHash)) && t.procs[r].req == req
  {
    t := Loads(s, r, req);
    t := Next(s, t, Decide(r, newHash));
  }

  // The request has rotated its row, and nobody else has moved.
  predicate HasRotated(s: State, t: State, r: RequestId, req: Request, newHash: Hash)
    requires req.sid in s.db
  {
    && r in t.procs && t.procs == s.procs[r := t.procs[r]] && t.mode == s.mode
    && t.clock == s.clock && t.graceMs == s.graceMs && t.refreshTtlMs == s.refreshTtlMs
    && t.db == s.db[req.sid := Rotated(s.db[req.sid], newHash, s.clock / 1000 * 1000, s.graceMs, s.refreshTtlMs)]
  }

  lemma Updates(s: State, r: RequestId, req: Request, newHash: Hash) returns (t: State)
    requires Waiting(s, r, req) && !req.skipRotation && req.presented == Some(s.db[req.sid].currentJti)
    requires newHash !in s.names && Some(newHash) != req.presented
    ensures Reaches(s, t) == true && HasRotated(s, t, r, req, newHash)
    ensures var att := AttemptOf(s, req);
            t.procs[r].phase == if s.mode == Direct then Granting(att.row, att.src, att.now, Some(newHash)) else Refetching(att, newHash)
  {
    t := Decides(s, r, req, newHash);
    t := Next(s, t, DbUpdate(r));
  }

  function GrantingTo(att: Attempt, newHash: Hash): Phase {
    Granting(att.row, att.src, att.now, Some(newHash))
  }

  lemma RefetchStep(s: State, t: State, r: RequestId, req: Request, newHash: Hash)
    requires Waiting(s, r, req) && HasRotated(s, t, r, req, newHash) && t.procs[r].phase == Refetching(AttemptOf(s, req), newHash)
    ensures Enabled(t, RefetchRow(r, true))
    ensures var u := Apply(t, RefetchRow(r, true));
            && HasRotated(s, u, r, req, newHash) && u.db == t.db
            && u.procs[r].phase == if s.clock < t.db[req.sid].expiresAt then Storing(AttemptOf(s, req), newHash, t.db[req.sid])
                                   else Dropping(AttemptOf(s, req), Some(newHash))
  {
  }

  // A row the update has written stays the same when written once more.
  lemma ImageIsRow(s: State, t: State, r: RequestId, req: Request, newHash: Hash)
    requires Waiting(s, r, req) && HasRotated(s, t, r, req, newHash)
    ensures CacheImage(t.db[req.sid], AttemptOf(s, req), newHash, t.graceMs, t.refreshTtlMs) == t.db[req.sid]
  {
  }

  lemma StoreStep(s: State, t: State, r: RequestId, req: Request, newHash: Hash)
    requires Waiting(s, r, req) && HasRotated(s, t, r, req, newHash)
    requires t.procs[r].phase == Storing(AttemptOf(s, req), newHash, t.db[req.sid])
    ensures Enabled(t, StoreRow(r, true))
    ensures var u := Apply(t, StoreRow(r, true));
            && HasRotated(s, u, r, req, newHash) && u.db == t.db && u.procs[r].phase == GrantingTo(AttemptOf(s, req), newHash)
            && req.sid in u.cache && u.cache[req.sid] == Slot(Entry(t.db[req.sid]), s.clock)
  {
    ImageIsRow(s, t, r, req, newHash);
  }

  lemma DropStep(s: State, t: State, r: RequestId, req: Request, newHash: Hash)
    requires Waiting(s, r, req) && HasRotated(s, t, r, req, newHash)
    requires t.procs[r].phase == Dropping(AttemptOf(s, req), Some(newHash))
    ensures Enabled(t, DropKey(r, true))
    ensures var u := Apply(t, DropKey(r, true));
            HasRotated(s, u, r, req, newHash) && u.db == t.db && u.procs[r].phase == GrantingTo(AttemptOf(s, req), newHash)
  {
  }

  // With the cache in front, the row is stored there, or the key dropped if the row has expired already.
  lemma Stores(s: State, t: State, r: RequestId, req: Request, newHash: Hash) returns (u: State)
    requires Waiting(s, r, req) && Reaches(s, t) && HasRotated(s, t, r, req, newHash)
    requires t.procs[r].phase == Refetching(AttemptOf(s, req), newHash)
    ensures Reaches(s, u) == true && HasRotated(s, u, r, req, newHash) == true
    ensures r in u.procs && u.procs[r].phase == GrantingTo(AttemptOf(s, req), newHash) && u.db == t.db
    ensures s.clock < t.db[req.sid].expiresAt ==> req.sid in u.cache && u.cache[req.sid] == Slot(Entry(t.db[req.sid]), s.clock)
  {
    RefetchStep(s, t, r, req, newHash);
    var v := Next(s, t, RefetchRow(r, true));
    if s.clock < t.db[req.sid].expiresAt {
      StoreStep(s, v, r, req, newHash);
      u := Next(s, v, StoreRow(r, true));
    } else {
      DropStep(s, v, r, req, newHash);
      u := Next(s, v, DropKey(r, true));
    }
  }

  lemma GrantStep(s: State, t: State, r: RequestId, req: Request, newHash: Hash)
    requires Waiting(s, r, req) && HasRotated(s, t, r, req, newHash) && t.procs[r].phase == GrantingTo(AttemptOf(s, req), newHash)
    ensures Enabled(t, Finish(r, true))
    ensures var u := Apply(t, Finish(r, true));
            && r in u.procs && u.procs == s.procs[r := u.procs[r]] && u.procs[r].phase == Done(NewRefreshToken(req.sid, newHash))
            && u.db == t.db && u.cache == t.cache
  {
  }

  lemma IsGranted(s: State, r: RequestId, req: Request, newHash: Hash) returns (t: State)
    requires Waiting(s, r, req) && !req.skipRotation && req.presented == Some(s.db[req.sid].currentJti)
    requires newHash !in s.names && Some(newHash) != req.presented
    ensures Reaches(s, t) == true && HasRotated(s, t, r, req, newHash) == true
    ensures r in t.procs && t.procs[r].phase == GrantingTo(AttemptOf(s, req), newHash) && req.sid in t.db
    ensures s.mode == ReadThrough && s.clock < t.db[req.sid].expiresAt ==>
              req.sid in t.cache && t.cache[req.sid] == Slot(Entry(t.db[req.sid]), s.clock)
  {
    t := Updates(s, r, req, newHash);
    if s.mode == ReadThrough {
      t := Stores(s, t, r, req, newHash);
    }
  }

  /** Left alone, a request with the current token of a live session gets its successor, and only its row changes. */
  lemma AloneRotates(s: State, r: RequestId, req: Request, newHash: Hash) returns (t: State)
    requires Waiting(s, r, req) && !req.skipRotation && req.presented == Some(s.db[req.sid].currentJti)
    requires newHash !in s.names && Some(newHash) != req.presented
    ensures Reaches(s, t)
    ensures r in t.procs && t.procs == s.procs[r := t.procs[r]] && t.procs[r].phase == Done(NewRefreshToken(req.sid, newHash))
    ensures var row, now := s.db[req.sid], s.clock / 1000 * 1000;
            t.db == s.db[req.sid := Row(row.id, row.userId, row.familyId, newHash, Some(row.currentJti),
                                        Some(now + s.graceMs), now + s.refreshTtlMs)]
    ensures s.mode == ReadThrough && s.clock < t.db[req.sid].expiresAt ==>
              req.sid in t.cache && t.cache[req.sid] == Slot(Entry(t.db[req.sid]), s.clock)
  {
    var granted := IsGranted(s, r, req, newHash);
    GrantStep(s, granted, r, req, newHash);
    t := Next(s, granted, Finish(r, true));
  }

  /** Left alone, a token in its grace window is answered with an access token, as is the current one of a read-only refresh. */
  lemma AloneKeepsAccess(s: State, r: RequestId, req: Request, newHash: Hash) returns (t: State)
    requires Waiting(s, r, req) && newHash !in s.names && Some(newHash) != req.presented
    requires var row, now := s.db[req.sid], s.clock / 1000 * 1000;
             || (req.skipRotation && req.presented == Some(row.currentJti))
             || (req.presented != Some(row.currentJti) && req.presented.Some? && row.previousJti == req.presented
                 && row.previousJtiExpiresAt.Some? && now < row.previousJtiExpiresAt.value)
    ensures Reaches(s, t) && t.db == s.db
    ensures r in t.procs && t.procs == s.procs[r := t.procs[r]]
    ensures t.procs[r].phase == Done(AccessToken(s.db[req.sid], Source(s.clock, s.clock), s.clock / 1000 * 1000))
  {
    t := Loads(s, r, req);
    t := Next(s, t, Decide(r, newHash));
    t := Next(s, t, Finish(r, true));
  }

  /** Left alone, any other token ends a refresh that may rotate with the loss of exactly the session's family. */
  lemma AloneRevokes(s: State, r: RequestId, req: Request, newHash: Hash) returns (t: State)
    requires Waiting(s, r, req) && newHash !in s.names && Some(newHash) != req.presented && !req.skipRotation
    requires var row, now := s.db[req.sid], s.clock / 1000 * 1000;
             && req.presented != Some(row.currentJti)
             && !(req.presented.Some? && row.previousJti == req.presented
                  && row.previousJtiExpiresAt.Some? && now < row.previousJtiExpiresAt.value)
    ensures Reaches(s, t)
    ensures forall k :: k in t.db <==> k in s.db && s.db[k].familyId != s.db[req.sid].familyId
    ensures forall k :: k in t.db ==> t.db[k] == s.db[k]
    ensures r in t.procs && t.procs == s.procs[r := t.procs[r]] && t.procs[r].phase == Done(Refused)
  {
    t := Loads(s, r, req);
    t := Next(s, t, Decide(r, newHash));
    t := Next(s, t, DbRevoke(r));
  }

  /** Left alone and with nothing cached, a request for a session that is unknown or has expired is refused and changes no row. */
  lemma AloneRefusesExpired(s: State, r: RequestId, req: Request) returns (t: State)
    requires s.mode != Hostile && r !in s.procs
    requires req.sid in s.db ==> s.db[req.sid].expiresAt <= s.clock
    ensures Reaches(s, t) && t.db == s.db
    ensures r in t.procs && t.procs == s.procs[r := t.procs[r]] && t.procs[r].phase == Done(Refused)
  {
    t := LooksUp(s, r, req);
  }

  // A request whose update found another hash, while the row now has the presented one as its previous hash, in grace.
  predicate HasLost(s: State, r: RequestId, att: Attempt, newHash: Hash) {
    && s.mode != Hostile && r in s.procs && s.procs[r].phase == Updating(att, newHash)
    && att.row.id in s.db && s.db[att.row.id].currentJti != att.row.currentJti && s.clock < s.db[att.row.id].expiresAt
    && s.procs[r].req.presented.Some? && s.db[att.row.id].previousJti == s.procs[r].req.presented
    && s.db[att.row.id].previousJtiExpiresAt.Some? && att.now < s.db[att.row.id].previousJtiExpiresAt.value
  }

  // Only the phase of this request and the cache differ.
  predicate Moved(s: State, t: State, r: RequestId, phase: Phase) {
    r in s.procs && t == s.(procs := s.procs[r := s.procs[r].(phase := phase)], cache := t.cache)
  }

  lemma LooksAgain(s: State, r: RequestId, att: Attempt, newHash: Hash) returns (t: State)
    requires HasLost(s, r, att, newHash)
    ensures Reaches(s, t) == true && Moved(s, t, r, Select(Some(att)))
  {
    StartsHere(s);
    t := Next(s, s, DbUpdate(r));
    if s.mode == ReadThrough {
      t := Next(s, t, DropKey(r, true));
      t := Next(s, t, CacheGet(r, None));
    }
  }

  lemma FindsAgain(s: State, t: State, r: RequestId, att: Attempt, newHash: Hash) returns (u: State)
    requires HasLost(s, r, att, newHash) && Reaches(s, t) && Moved(s, t, r, Select(Some(att)))
    ensures Reaches(s, u) == true && Moved(s, u, r, Granting(s.db[att.row.id], Source(s.clock, s.clock), att.now, None))
  {
    u := Next(s, t, DbSelect(r));
    if s.mode == ReadThrough {
      u := Next(s, u, CacheFill(r, true));
    }
  }

  /** A request that lost the race for the update, but is still in grace, gets an access token and changes no row. */
  lemma LoserKeepsAccess(s: State, r: RequestId, att: Attempt, newHash: Hash) returns (t: State)
    requires HasLost(s, r, att, newHash)
    ensures Reaches(s, t) && t.db == s.db
    ensures r in t.procs && t.procs == s.procs[r := t.procs[r]]
    ensures t.procs[r].phase == Done(AccessToken(s.db[att.row.id], Source(s.clock, s.clock), att.now))
  {
    t := LooksAgain(s, r, att, newHash);
    t := FindsAgain(s, t, r, att, newHash);
    t := Next(s, t, Finish(r, true));
  }
}
