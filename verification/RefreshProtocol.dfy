/**
 * Refresh requests as a state machine: every `await` of the use case and of the two session
 * repositories is one atomic step, so any number of requests, logins, revocations and cache
 * losses interleave freely.
 */
module RefreshProtocol {
  import opened Options
  import opened AuthSessions
  import opened RefreshDecision

  type RequestId = nat

  const SESSION_TTL_MS := 60_000
  const NULL_TTL_MS := 5_000

  // Direct: the table repository alone. ReadThrough: the cached repository in front of it.
  // Hostile: every cache read answers with anything at all.
  datatype Mode = Direct | ReadThrough | Hostile

  datatype Cached = Entry(row: Row) | Tombstone
  datatype Slot = Slot(value: Cached, writtenAt: nat)

  // When the row behind an answer was written to where it was read from, and when it was read.
  datatype Source = Source(writtenAt: nat, readAt: nat)

  datatype Attempt = Attempt(row: Row, src: Source, now: nat)

  datatype Outcome =
    | Refused
    | AccessToken(row: Row, src: Source, now: nat)
    | NewRefreshToken(sid: SessionId, token: Hash)

  datatype Phase =
    | Lookup(first: Option<Attempt>)                                    // cache GET is next
    | Select(first: Option<Attempt>)                                    // table SELECT is next
    | Fill(first: Option<Attempt>, found: Option<Row>, src: Source)     // cache SET of the answer is next
    | Loaded(row: Row, src: Source)                                     // the decision is next
    | Updating(att: Attempt, newHash: Hash)                               // the optimistic UPDATE is next
    | Refetching(att: Attempt, newHash: Hash)                             // it changed the row; cacheSession's SELECT is next
    | Storing(att: Attempt, newHash: Hash, full: Row)                     // cacheSession's SET is next
    | Dropping(att: Attempt, won: Option<Hash>)                         // the cache DEL is next
    | Revoking(att: Attempt)                                            // the family DELETE is next
    | Granting(row: Row, src: Source, now: nat, won: Option<Hash>)      // the account checks are next
    | Done(outcome: Outcome)

  // `issued`: the presented hash had been issued for the session when the request arrived.
  datatype Process = Process(req: Request, phase: Phase, issued: bool)

  // One value of a session's current hash, and the end of the grace window its predecessor got.
  datatype Link = Link(hash: Hash, graceUntil: Option<nat>)

  // The rotation that replaced link `depth` of a session.
  datatype Rotation = Rotation(sid: SessionId, depth: int, from: Hash, to: Hash)

  datatype State = State(
    mode: Mode,
    graceMs: nat,
    refreshTtlMs: nat,
    clock: nat,
    db: Table,
    cache: map<SessionId, Slot>,
    procs: map<RequestId, Process>,
    // History: hashes generated or presented, families used, rows the table ever held,
    // each session's owner and chain of current hashes, and which request rotated what.
    names: set<Hash>,
    families: set<FamilyId>,
    seen: set<Row>,
    owners: map<SessionId, (UserId, FamilyId)>,
    lineage: map<SessionId, seq<Link>>,
    rotations: map<RequestId, Rotation>)

  predicate Init(s: State) {
    && s.db == map[] && s.cache == map[] && s.procs == map[]
    && s.names == {} && s.families == {} && s.seen == {} && s.owners == map[] && s.lineage == map[] && s.rotations == map[]
  }

  datatype Step =
    | Tick(clock: nat)
    | CreateSession(sid: SessionId, user: UserId, family: FamilyId, hash: Hash, expiresAt: nat)
    | ExtendExpiry(sid: SessionId, expiresAt: nat)
    | RevokeById(sid: SessionId)
    | RevokeAllForUser(user: UserId)
    | RevokeByFamily(family: FamilyId)
    | DropCacheKey(sid: SessionId)
    | Begin(r: RequestId, req: Request)
    | CacheGet(r: RequestId, answer: Option<Cached>)
    | DbSelect(r: RequestId)
    | CacheFill(r: RequestId, ok: bool)
    | Decide(r: RequestId, newHash: Hash)
    | DbUpdate(r: RequestId)
    | RefetchRow(r: RequestId, ok: bool)
    | StoreRow(r: RequestId, ok: bool)
    | DropKey(r: RequestId, ok: bool)
    | DbRevoke(r: RequestId)
    | Finish(r: RequestId, userAllowed: bool)

  function TtlMs(value: Cached): nat {
    if value.Entry? then SESSION_TTL_MS else NULL_TTL_MS
  }

  predicate Live(s: State, sid: SessionId) {
    sid in s.cache && s.clock <= s.cache[sid].writtenAt + TtlMs(s.cache[sid].value)
  }

  predicate At(s: State, r: RequestId) {
    r in s.procs
  }

  function PhaseOf(s: State, r: RequestId): Phase
    requires At(s, r)
  {
    s.procs[r].phase
  }

  // The first lookup uses the id in the token, the second the id in the row that was found.
  function LookupId(p: Process, first: Option<Attempt>): SessionId {
    if first.Some? then first.value.row.id else p.req.sid
  }

  predicate Enabled(s: State, step: Step) {
    match step
    case Tick(clock) => s.clock <= clock
    case CreateSession(sid, user, family, hash, _) => sid !in s.lineage && family !in s.families && hash !in s.names
    case ExtendExpiry(_, _) => true
    case RevokeById(_) => true
    case RevokeAllForUser(_) => true
    case RevokeByFamily(_) => true
    case DropCacheKey(_) => true
    case Begin(r, _) => !At(s, r)
    case CacheGet(r, answer) =>
      && At(s, r) && PhaseOf(s, r).Lookup?
      && (s.mode == Hostile || answer.None? ||
          var sid := LookupId(s.procs[r], PhaseOf(s, r).first);
          Live(s, sid) && s.cache[sid].value == answer.value)
    case DbSelect(r) => At(s, r) && PhaseOf(s, r).Select?
    case CacheFill(r, _) => At(s, r) && PhaseOf(s, r).Fill?
    case Decide(r, newHash) => At(s, r) && PhaseOf(s, r).Loaded? && newHash !in s.names
    case DbUpdate(r) => At(s, r) && PhaseOf(s, r).Updating?
    case RefetchRow(r, _) => At(s, r) && PhaseOf(s, r).Refetching?
    case StoreRow(r, _) => At(s, r) && PhaseOf(s, r).Storing?
    case DropKey(r, _) => At(s, r) && PhaseOf(s, r).Dropping?
    case DbRevoke(r) => At(s, r) && PhaseOf(s, r).Revoking?
    case Finish(r, _) => At(s, r) && PhaseOf(s, r).Granting?
  }

  function StartLookup(mode: Mode, first: Option<Attempt>): Phase {
    if mode == Direct then Select(first) else Lookup(first)
  }

  // What the use case does with the answer of its first or its second lookup.
  function Resume(req: Request, first: Option<Attempt>, found: Option<Row>, src: Source): Phase {
    match first
    case None => if found.Some? then Loaded(found.value, src) else Done(Refused)
    case Some(att) =>
      if found.Some? && InGrace(found.value, req.presented, att.now) then Granting(found.value, src, att.now, None)
      else Done(Refused)
  }

  predicate IssuedFor(s: State, req: Request) {
    req.presented.Some? && req.sid in s.lineage && Depth(s.lineage[req.sid], req.presented.value) < |s.lineage[req.sid]|
  }

  /** Position of the first link with this hash, or the length when there is none. */
  function Depth(links: seq<Link>, hash: Hash): (d: nat)
    ensures d <= |links|
    ensures d < |links| ==> links[d].hash == hash
    ensures forall k :: 0 <= k < d ==> links[k].hash != hash
  {
    if links == [] then 0
    else if links[0].hash == hash then 0
    else Depth(links[1..], hash) + 1
  }

  function AfterDecision(s: State, p: Process, newHash: Hash): Phase
    requires p.phase.Loaded?
  {
    var now := WholeSeconds(s.clock);
    var att := Attempt(p.phase.row, p.phase.src, now);
    match Judge(p.phase.row, p.req, now)
    case AccessOnly => Granting(p.phase.row, p.phase.src, now, None)
    case Rotate => Updating(att, newHash)
    case RevokeFamily => Revoking(att)
    case Refuse => Done(Refused)
  }

  predicate UpdateHits(s: State, att: Attempt) {
    Matches(s.db, att.row.id, att.row.currentJti)
  }

  function Chain(s: State, sid: SessionId): seq<Link> {
    if sid in s.lineage then s.lineage[sid] else []
  }

  function Rotated(s: State, r: RequestId, att: Attempt, newHash: Hash): State
    requires UpdateHits(s, att)
  {
    var sid := att.row.id;
    var graceUntil := att.now + s.graceMs;
    var db := CompareAndSwap(s.db, sid, att.row.currentJti, newHash, att.row.currentJti, graceUntil, att.now + s.refreshTtlMs);
    s.(db := db,
       seen := s.seen + {db[sid]},
       lineage := s.lineage[sid := Chain(s, sid) + [Link(newHash, Some(graceUntil))]],
       rotations := s.rotations[r := Rotation(sid, |Chain(s, sid)| - 1, att.row.currentJti, newHash)])
  }

  function Created(s: State, row: Row): State {
    s.(db := s.db[row.id := row], seen := s.seen + {row}, owners := s.owners[row.id := (row.userId, row.familyId)],
       families := s.families + {row.familyId}, names := s.names + {row.currentJti},
       lineage := s.lineage[row.id := [Link(row.currentJti, None)]])
  }

  function Extended(s: State, sid: SessionId, expiresAt: nat): State
    requires sid in s.db
  {
    var row := s.db[sid].(expiresAt := expiresAt);
    s.(db := s.db[sid := row], seen := s.seen + {row})
  }

  // The value cacheSession writes: identity columns from its own read, the rest from the update.
  function CacheImage(full: Row, att: Attempt, newHash: Hash, graceMs: nat, refreshTtlMs: nat): Row {
    Advance(full, newHash, att.row.currentJti, att.now + graceMs, att.now + refreshTtlMs)
  }

  /** What a step does to everything but the requests. */
  function WorldAfter(s: State, step: Step): State
    requires Enabled(s, step)
  {
    match step
    case Tick(clock) => s.(clock := clock)
    case CreateSession(sid, user, family, hash, expiresAt) => Created(s, Row(sid, user, family, hash, None, None, expiresAt))
    case ExtendExpiry(sid, expiresAt) => if sid in s.db then Extended(s, sid, expiresAt) else s
    case RevokeById(sid) => s.(db := s.db - {sid})
    case RevokeAllForUser(user) => s.(db := WithoutUser(s.db, user))
    case RevokeByFamily(family) => s.(db := WithoutFamily(s.db, family))
    case DbRevoke(r) => s.(db := WithoutFamily(s.db, PhaseOf(s, r).att.row.familyId))
    case DropCacheKey(sid) => s.(cache := s.cache - {sid})
    case Begin(r, req) => if req.presented.Some? then s.(names := s.names + {req.presented.value}) else s
    case CacheFill(r, ok) =>
      var ph := PhaseOf(s, r);
      var value := if ph.found.Some? then Entry(ph.found.value) else Tombstone;
      if ok then s.(cache := s.cache[LookupId(s.procs[r], ph.first) := Slot(value, s.clock)]) else s
    case Decide(r, newHash) => s.(names := s.names + {newHash})
    case DbUpdate(r) =>
      var ph := PhaseOf(s, r);
      if UpdateHits(s, ph.att) then Rotated(s, r, ph.att, ph.newHash) else s
    case StoreRow(r, ok) =>
      var ph := PhaseOf(s, r);
      var image := CacheImage(ph.full, ph.att, ph.newHash, s.graceMs, s.refreshTtlMs);
      if ok then s.(cache := s.cache[ph.att.row.id := Slot(Entry(image), s.clock)]) else s
    case DropKey(r, ok) => if ok then s.(cache := s.cache - {PhaseOf(s, r).att.row.id}) else s
    case _ => s
  }

  /** The request a step moves, if it moves one. */
  function Mover(step: Step): Option<RequestId> {
    match step
    case Begin(r, _) => Some(r)
    case CacheGet(r, _) => Some(r)
    case DbSelect(r) => Some(r)
    case CacheFill(r, _) => Some(r)
    case Decide(r, _) => Some(r)
    case DbUpdate(r) => Some(r)
    case RefetchRow(r, _) => Some(r)
    case StoreRow(r, _) => Some(r)
    case DropKey(r, _) => Some(r)
    case DbRevoke(r) => Some(r)
    case Finish(r, _) => Some(r)
    case _ => None
  }

  /** Where the moving request stands after the step. */
  function NextPhase(s: State, step: Step): Phase
    requires Enabled(s, step) && Mover(step).Some? && !step.Begin?
  {
    var p := s.procs[step.r];
    var ph := p.phase;
    match step
    case CacheGet(r, answer) =>
      if answer.None? then Select(ph.first)
      else
        var written := if s.mode == Hostile then s.clock else s.cache[LookupId(p, ph.first)].writtenAt;
        var found := if answer.value.Entry? then Some(answer.value.row) else None;
        Resume(p.req, ph.first, found, Source(written, s.clock))
    case DbSelect(r) =>
      var found := Find(s.db, LookupId(p, ph.first), s.clock);
      var src := Source(s.clock, s.clock);
      if s.mode == Direct then Resume(p.req, ph.first, found, src) else Fill(ph.first, found, src)
    case CacheFill(r, ok) => Resume(p.req, ph.first, ph.found, ph.src)
    case Decide(r, newHash) => AfterDecision(s, p, newHash)
    case DbUpdate(r) =>
      if UpdateHits(s, ph.att) then
        if s.mode == Direct then Granting(ph.att.row, ph.att.src, ph.att.now, Some(ph.newHash))
        else Refetching(ph.att, ph.newHash)
      else if s.mode == Direct then Select(Some(ph.att))
      else Dropping(ph.att, None)
    case RefetchRow(r, ok) =>
      var full := Find(s.db, ph.att.row.id, s.clock);
      if ok && full.Some? then Storing(ph.att, ph.newHash, full.value) else Dropping(ph.att, Some(ph.newHash))
    case StoreRow(r, ok) =>
      if ok then Granting(ph.att.row, ph.att.src, ph.att.now, Some(ph.newHash)) else Dropping(ph.att, Some(ph.newHash))
    case DropKey(r, ok) =>
      if ph.won.Some? then Granting(ph.att.row, ph.att.src, ph.att.now, ph.won) else Lookup(Some(ph.att))
    case DbRevoke(r) => Done(Refused)
    case Finish(r, userAllowed) =>
      Done(
        if !userAllowed then Refused
        else if ph.won.Some? then NewRefreshToken(ph.row.id, ph.won.value)
        else AccessToken(ph.row, ph.src, ph.now))
  }

  function NextProcess(s: State, step: Step): Process
    requires Enabled(s, step) && Mover(step).Some?
  {
    if step.Begin? then Process(step.req, StartLookup(s.mode, None), IssuedFor(s, step.req))
    else s.procs[step.r].(phase := NextPhase(s, step))
  }

  function Apply(s: State, step: Step): State
    requires Enabled(s, step)
  {
    var w := WorldAfter(s, step);
    if Mover(step).Some? then w.(procs := s.procs[Mover(step).value := NextProcess(s, step)]) else w
  }

  /** A run: every step is enabled and leads to the next state. */
  ghost predicate IsRun(states: seq<State>, steps: seq<Step>) {
    && |states| == |steps| + 1
    && Init(states[0])
    && forall i :: 0 <= i < |steps| ==> Enabled(states[i], steps[i]) && states[i + 1] == Apply(states[i], steps[i])
  }
}
