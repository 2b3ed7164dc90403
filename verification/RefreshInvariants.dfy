/** What holds in every reachable state of the refresh protocol, and that every step keeps it. */
module RefreshInvariants {
  import opened Options
  import opened AuthSessions
  import opened RefreshDecision
  import opened RefreshProtocol

  // ----- The table and its history -----

  ghost predicate Distinct(links: seq<Link>) {
    forall i, j :: 0 <= i < j < |links| ==> links[i].hash != links[j].hash
  }

  // Only the first hash of a session has no predecessor and hence no grace window behind it.
  ghost predicate ChainOk(links: seq<Link>, names: set<Hash>) {
    && |links| > 0
    && Distinct(links)
    && (forall k :: 0 <= k < |links| ==> links[k].hash in names && (links[k].graceUntil.Some? <==> k > 0))
  }

  /** The row shows link `k`: its hash, the hash right before it and that hash's grace window. */
  ghost predicate Shows(links: seq<Link>, row: Row, k: nat) {
    && k < |links|
    && row.currentJti == links[k].hash
    && row.previousJti == (if k == 0 then None else Some(links[k - 1].hash))
    && row.previousJtiExpiresAt == links[k].graceUntil
  }

  ghost predicate Remembered(s: State, row: Row) {
    && row.id in s.lineage
    && row.id in s.owners
    && s.owners[row.id] == (row.userId, row.familyId)
    && Shows(s.lineage[row.id], row, Depth(s.lineage[row.id], row.currentJti))
  }

  ghost predicate HistoryOk(s: State) {
    && s.owners.Keys == s.lineage.Keys
    && (forall sid :: sid in s.lineage ==> ChainOk(s.lineage[sid], s.names))
    && (forall sid :: sid in s.owners ==> s.owners[sid].1 in s.families)
    && (forall row :: row in s.seen ==> Remembered(s, row))
  }

  ghost predicate TableKnown(s: State) {
    forall sid :: sid in s.db ==> sid in s.lineage && |s.lineage[sid]| > 0 && s.db[sid].id == sid
  }

  ghost predicate TableOk(s: State) {
    && TableKnown(s)
    && (forall sid :: sid in s.db ==> s.db[sid] in s.seen)
    && (forall sid :: sid in s.db ==> s.db[sid].currentJti == s.lineage[sid][|s.lineage[sid]| - 1].hash)
  }

  ghost predicate CacheOk(s: State) {
    s.mode != Hostile ==>
      forall sid :: sid in s.cache ==>
        && s.cache[sid].writtenAt <= s.clock
        && (s.cache[sid].value.Entry? ==> s.cache[sid].value.row in s.seen && s.cache[sid].value.row.id == sid)
  }

  // ----- The requests -----

  ghost predicate SourceOk(s: State, src: Source) {
    src.writtenAt <= src.readAt <= src.writtenAt + SESSION_TTL_MS && src.readAt <= s.clock
  }

  // A row the request holds is one the table really had, of the session it asked for, read recently enough.
  ghost predicate RowReal(s: State, req: Request, row: Row, src: Source) {
    s.mode != Hostile ==> row in s.seen && row.id == req.sid && SourceOk(s, src)
  }

  // Without a cache, the row a request holds is at least as new as the hash it presented.
  ghost predicate NotBehind(s: State, p: Process, row: Row) {
    s.mode == Direct && p.issued ==>
      && p.req.presented.Some? && p.req.sid in s.lineage
      && Depth(s.lineage[p.req.sid], p.req.presented.value) <= Depth(s.lineage[p.req.sid], row.currentJti)
  }

  ghost predicate AttemptOk(s: State, p: Process, att: Attempt) {
    && RowReal(s, p.req, att.row, att.src)
    && NotBehind(s, p, att.row)
    && att.now <= s.clock
  }

  ghost predicate FirstOk(s: State, p: Process, first: Option<Attempt>) {
    first.Some? ==> AttemptOk(s, p, first.value) && !p.req.skipRotation
  }

  predicate Supports(row: Row, req: Request, now: nat) {
    IsCurrent(row, req.presented) || InGrace(row, req.presented, now)
  }

  // The row an optimistic update of this attempt left in the table.
  function WrittenRow(s: State, att: Attempt, newHash: Hash): Row
    requires att.row.id in s.owners
  {
    Row(att.row.id, s.owners[att.row.id].0, s.owners[att.row.id].1, newHash, Some(att.row.currentJti),
        Some(att.now + s.graceMs), att.now + s.refreshTtlMs)
  }

  ghost predicate WonOk(s: State, r: RequestId, p: Process, sid: SessionId, won: Hash) {
    && !p.req.skipRotation
    && r in s.rotations
    && s.rotations[r].sid == sid && s.rotations[r].to == won
    && p.req.presented == Some(s.rotations[r].from)
  }

  ghost predicate ImageOk(s: State, att: Attempt, newHash: Hash) {
    s.mode != Hostile ==> att.row.id in s.owners && WrittenRow(s, att, newHash) in s.seen
  }

  ghost predicate ProcOk(s: State, r: RequestId, p: Process) {
    && (p.issued ==> IssuedFor(s, p.req))
    && (s.mode == Direct ==> !p.phase.Lookup? && !p.phase.Fill? && !p.phase.Refetching? && !p.phase.Storing? && !p.phase.Dropping?)
    && match p.phase
       case Lookup(first) => FirstOk(s, p, first) && r !in s.rotations
       case Select(first) => FirstOk(s, p, first) && r !in s.rotations
       case Fill(first, found, src) =>
         && FirstOk(s, p, first) && r !in s.rotations
         && (found.Some? ==> RowReal(s, p.req, found.value, src))
       case Loaded(row, src) => RowReal(s, p.req, row, src) && NotBehind(s, p, row) && r !in s.rotations
       case Updating(att, newHash) =>
         && AttemptOk(s, p, att) && r !in s.rotations
         && IsCurrent(att.row, p.req.presented) && !p.req.skipRotation
         && newHash in s.names
       case Refetching(att, newHash) =>
         AttemptOk(s, p, att) && WonOk(s, r, p, att.row.id, newHash) && ImageOk(s, att, newHash)
       case Storing(att, newHash, full) =>
         && AttemptOk(s, p, att) && WonOk(s, r, p, att.row.id, newHash) && ImageOk(s, att, newHash)
         && (s.mode != Hostile ==> full in s.seen && full.id == att.row.id)
       case Dropping(att, won) =>
         && AttemptOk(s, p, att) && !p.req.skipRotation
         && (if won.Some? then WonOk(s, r, p, att.row.id, won.value) else r !in s.rotations)
       case Revoking(att) =>
         AttemptOk(s, p, att) && Judge(att.row, p.req, att.now) == RevokeFamily && r !in s.rotations
       case Granting(row, src, now, won) =>
         && RowReal(s, p.req, row, src)
         && (if won.Some? then WonOk(s, r, p, row.id, won.value) else r !in s.rotations && Supports(row, p.req, now))
         && now <= s.clock
       case Done(outcome) =>
         match outcome
         case Refused => true
         case AccessToken(row, src, now) => RowReal(s, p.req, row, src) && Supports(row, p.req, now) && now <= s.clock
         case NewRefreshToken(sid, token) => WonOk(s, r, p, sid, token)
  }

  ghost predicate ProcsOk(s: State) {
    forall r :: r in s.procs ==> ProcOk(s, r, s.procs[r])
  }

  // ----- Hashes generated but not yet installed -----

  ghost predicate Unused(s: State, h: Hash) {
    forall sid, k :: sid in s.lineage && 0 <= k < |s.lineage[sid]| ==> s.lineage[sid][k].hash != h
  }

  predicate Pending(s: State, r: RequestId) {
    r in s.procs && s.procs[r].phase.Updating?
  }

  ghost predicate PendingOk(s: State) {
    && (forall r :: Pending(s, r) ==> Unused(s, s.procs[r].phase.newHash))
    && (forall r1, r2 :: Pending(s, r1) && Pending(s, r2) && r1 != r2 ==>
          s.procs[r1].phase.newHash != s.procs[r2].phase.newHash)
  }

  // ----- The rotations that happened -----

  ghost predicate RotationOk(s: State, rot: Rotation) {
    && rot.sid in s.lineage
    && 0 <= rot.depth && rot.depth + 1 < |s.lineage[rot.sid]|
    && s.lineage[rot.sid][rot.depth].hash == rot.from
    && s.lineage[rot.sid][rot.depth + 1].hash == rot.to
  }

  ghost predicate OneEach(rotations: map<RequestId, Rotation>) {
    forall r1, r2 :: r1 in rotations && r2 in rotations && r1 != r2 ==>
      rotations[r1].sid != rotations[r2].sid || rotations[r1].depth != rotations[r2].depth
  }

  ghost predicate RotationsOk(s: State) {
    && s.rotations.Keys <= s.procs.Keys
    && (forall r :: r in s.rotations ==> RotationOk(s, s.rotations[r]))
    && OneEach(s.rotations)
  }

  ghost predicate Inv(s: State) {
    HistoryOk(s) && TableOk(s) && CacheOk(s) && ProcsOk(s) && PendingOk(s) && RotationsOk(s)
  }

  // ----- Facts about chains -----

  lemma DepthIs(links: seq<Link>, k: nat)
    requires k < |links| && Distinct(links)
    ensures Depth(links, links[k].hash) == k
  {
  }

  lemma {:induction false} DepthOfPrefix(links: seq<Link>, more: seq<Link>, h: Hash)
    ensures Depth(links, h) < |links| ==> Depth(links + more, h) == Depth(links, h)
  {
    if links != [] && links[0].hash != h {
      assert (links + more)[1..] == links[1..] + more;
      DepthOfPrefix(links[1..], more, h);
    }
  }

  // ----- What never shrinks -----

  ghost predicate Extends(longer: seq<Link>, shorter: seq<Link>) {
    |shorter| <= |longer| && forall k :: 0 <= k < |shorter| ==> longer[k] == shorter[k]
  }

  ghost predicate Grows(s: State, t: State) {
    && t.mode == s.mode && t.graceMs == s.graceMs && t.refreshTtlMs == s.refreshTtlMs
    && s.clock <= t.clock && s.names <= t.names && s.families <= t.families && s.seen <= t.seen
    && (forall sid :: sid in s.owners ==> sid in t.owners && t.owners[sid] == s.owners[sid])
    && (forall sid :: sid in s.lineage ==> sid in t.lineage && Extends(t.lineage[sid], s.lineage[sid]))
  }

  lemma DepthGrows(s: State, t: State, sid: SessionId, h: Hash)
    requires Grows(s, t) && sid in s.lineage
    ensures Depth(s.lineage[sid], h) < |s.lineage[sid]| ==> Depth(t.lineage[sid], h) == Depth(s.lineage[sid], h)
    ensures Depth(s.lineage[sid], h) <= Depth(t.lineage[sid], h)
  {
    var a, b := s.lineage[sid], t.lineage[sid];
    DepthOfPrefix(a, b[|a|..], h);
    assert a + b[|a|..] == b;
    if Depth(b, h) < |a| {
      assert a[Depth(b, h)] == b[Depth(b, h)];
    }
  }

  lemma RememberedGrows(s: State, t: State, row: Row)
    requires Grows(s, t) && Remembered(s, row)
    ensures Remembered(t, row)
  {
    DepthGrows(s, t, row.id, row.currentJti);
    var a, b := s.lineage[row.id], t.lineage[row.id];
    assert forall k :: 0 <= k < |a| ==> b[k] == a[k];
  }

  lemma NotBehindGrows(s: State, t: State, p: Process, row: Row)
    requires Grows(s, t) && NotBehind(s, p, row)
    requires p.issued ==> IssuedFor(s, p.req)
    ensures NotBehind(t, p, row)
  {
    if s.mode == Direct && p.issued {
      DepthGrows(s, t, p.req.sid, p.req.presented.value);
      DepthGrows(s, t, p.req.sid, row.currentJti);
    }
  }

  lemma IssuedGrows(s: State, t: State, req: Request)
    requires Grows(s, t) && IssuedFor(s, req)
    ensures IssuedFor(t, req)
  {
    DepthGrows(s, t, req.sid, req.presented.value);
  }

  // The rows a phase holds on to.
  function HeldRows(phase: Phase): set<Row> {
    match phase
    case Lookup(first) => if first.Some? then {first.value.row} else {}
    case Select(first) => if first.Some? then {first.value.row} else {}
    case Fill(first, _, _) => if first.Some? then {first.value.row} else {}
    case Loaded(row, _) => {row}
    case Updating(att, _) => {att.row}
    case Refetching(att, _) => {att.row}
    case Storing(att, _, _) => {att.row}
    case Dropping(att, _) => {att.row}
    case Revoking(att) => {att.row}
    case Granting(row, _, _, _) => {row}
    case Done(_) => {}
  }

  /** A request that does not move stays in order while the rest of the state grows. */
  lemma ProcGrows(s: State, t: State, r: RequestId, p: Process)
    requires Grows(s, t) && ProcOk(s, r, p)
    requires r in s.rotations <==> r in t.rotations
    requires r in s.rotations ==> t.rotations[r] == s.rotations[r]
    ensures ProcOk(t, r, p)
  {
    if p.issued {
      IssuedGrows(s, t, p.req);
    }
    forall row | row in HeldRows(p.phase) && NotBehind(s, p, row)
      ensures NotBehind(t, p, row)
    {
      NotBehindGrows(s, t, p, row);
    }
  }
}
