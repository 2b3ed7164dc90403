/**
 * Display registration attempts: three linked families of Redis keys and the four scripts over them.
 * Every key carries the last millisecond at which it is alive; a store holds only live keys.
 */
module RegistrationStore {
  import opened Options

  type AttemptId = nat
  type OwnerId = nat
  type CodeHash = nat
  type PairingCodeId = nat

  const STALE_TTL_MS: nat := 30 * 60 * 1000

  datatype Code = Code(hash: CodeHash, pairingCodeId: PairingCodeId, expiresAtMs: nat)

  datatype Attempt = Attempt(ownerId: OwnerId, createdAtMs: nat, closedAtMs: Option<nat>, active: Option<Code>, deadline: nat)

  // A key whose value is an attempt id.
  datatype Pointer = Pointer(attempt: AttemptId, deadline: nat)

  datatype Store = Store(attempts: map<AttemptId, Attempt>, open: map<OwnerId, Pointer>, codes: map<CodeHash, Pointer>)

  datatype Rotation = NotFound | AlreadyClosed | Rotated(invalidated: Option<PairingCodeId>)
  datatype Closing = NoSuchAttempt | WasClosed | Closed(invalidated: Option<PairingCodeId>)
  datatype Redeemed = Redeemed(attempt: AttemptId, pairingCodeId: PairingCodeId)

  function Max(a: int, b: int): int {
    if a >= b then a else b
  }

  function GetAttemptTtlMs(nowMs: nat, expiresAtMs: nat): (ttl: nat)
    ensures ttl >= STALE_TTL_MS && nowMs + ttl >= expiresAtMs + STALE_TTL_MS
    ensures ttl == STALE_TTL_MS || nowMs + ttl == expiresAtMs + STALE_TTL_MS
  {
    Max(STALE_TTL_MS, expiresAtMs - nowMs + STALE_TTL_MS)
  }

  function ToUnixSeconds(ms: nat): (sec: nat)
    ensures sec >= 1 && sec * 1000 >= ms && (ms > 0 ==> sec * 1000 < ms + 1000)
  {
    Max(1, (ms + 999) / 1000)
  }

  // The last millisecond of the index entry of a code: its expiry, rounded up to a whole second.
  function CodeDeadline(code: Code): nat {
    ToUnixSeconds(code.expiresAtMs) * 1000
  }

  // SET with an expiry that has come leaves no key.
  function SetCode(codes: map<CodeHash, Pointer>, code: Code, attempt: AttemptId, clock: nat): map<CodeHash, Pointer> {
    if CodeDeadline(code) <= clock then codes - {code.hash}
    else codes[code.hash := Pointer(attempt, CodeDeadline(code))]
  }

  function WithoutCode(codes: map<CodeHash, Pointer>, active: Option<Code>): map<CodeHash, Pointer> {
    if active.Some? then codes - {active.value.hash} else codes
  }

  function IdOf(active: Option<Code>): Option<PairingCodeId> {
    if active.Some? then Some(active.value.pairingCodeId) else None
  }

  // Closes an attempt and drops the index entry of its active code.
  function Shut(s: Store, id: AttemptId, nowMs: nat, clock: nat): Store
    requires id in s.attempts
  {
    s.(attempts := s.attempts[id := s.attempts[id].(closedAtMs := Some(nowMs), active := None, deadline := clock + STALE_TTL_MS)],
       codes := WithoutCode(s.codes, s.attempts[id].active))
  }

  function Replaced(s: Store, owner: OwnerId): Option<AttemptId> {
    if owner in s.open && s.open[owner].attempt in s.attempts then Some(s.open[owner].attempt) else None
  }

  function Install(s: Store, id: AttemptId, owner: OwnerId, code: Code, nowMs: nat, clock: nat): Store {
    var deadline := clock + GetAttemptTtlMs(nowMs, code.expiresAtMs);
    Store(s.attempts[id := Attempt(owner, nowMs, None, Some(code), deadline)],
          s.open[owner := Pointer(id, deadline)],
          SetCode(s.codes, code, id, clock))
  }

  function Create(s: Store, owner: OwnerId, id: AttemptId, code: Code, nowMs: nat, clock: nat): (Store, Option<PairingCodeId>) {
    var existing := Replaced(s, owner);
    if existing.Some? then
      (Install(Shut(s, existing.value, nowMs, clock), id, owner, code, nowMs, clock), IdOf(s.attempts[existing.value].active))
    else (Install(s, id, owner, code, nowMs, clock), None)
  }

  function Rotate(s: Store, owner: OwnerId, id: AttemptId, code: Code, nowMs: nat, clock: nat): (Store, Rotation) {
    if id !in s.attempts || s.attempts[id].ownerId != owner then (s, NotFound)
    else if s.attempts[id].closedAtMs.Some? then (s, AlreadyClosed)
    else
      var a := s.attempts[id];
      var deadline := clock + GetAttemptTtlMs(nowMs, code.expiresAtMs);
      (Store(s.attempts[id := a.(active := Some(code), deadline := deadline)],
             s.open[owner := Pointer(id, deadline)],
             SetCode(WithoutCode(s.codes, a.active), code, id, clock)),
       Rotated(IdOf(a.active)))
  }

  function Close(s: Store, owner: OwnerId, id: AttemptId, nowMs: nat, clock: nat): (Store, Closing) {
    if id !in s.attempts || s.attempts[id].ownerId != owner then (s, NoSuchAttempt)
    else if s.attempts[id].closedAtMs.Some? then (s, WasClosed)
    else
      var t := Shut(s, id, nowMs, clock);
      (t.(open := t.open - {owner}), Closed(IdOf(s.attempts[id].active)))
  }

  // What the script finds behind a code hash.
  datatype Finding = Nothing | Dangling | Mismatch | Found(attempt: AttemptId, code: Code)

  function Find(s: Store, hash: CodeHash): Finding {
    if hash !in s.codes then Nothing
    else
      var id := s.codes[hash].attempt;
      if id !in s.attempts then Dangling
      else if s.attempts[id].closedAtMs.Some? || s.attempts[id].active.None? then Dangling
      else if s.attempts[id].active.value.hash != hash then Mismatch
      else Found(id, s.attempts[id].active.value)
  }

  function Consume(s: Store, hash: CodeHash, nowMs: nat, clock: nat): (Store, Option<Redeemed>) {
    match Find(s, hash)
    case Nothing => (s, None)
    case Mismatch => (s, None)
    case Dangling => (s.(codes := s.codes - {hash}), None)
    case Found(id, code) =>
      (s.(attempts := s.attempts[id := s.attempts[id].(active := None, deadline := clock + STALE_TTL_MS)],
          codes := s.codes - {hash}),
       if code.expiresAtMs <= nowMs then None else Some(Redeemed(id, code.pairingCodeId)))
  }

  // Time passes: keys whose last millisecond is over disappear.
  function Expire(s: Store, clock: nat): Store {
    Store(map id | id in s.attempts && clock <= s.attempts[id].deadline :: s.attempts[id],
          map o | o in s.open && clock <= s.open[o].deadline :: s.open[o],
          map h | h in s.codes && clock <= s.codes[h].deadline :: s.codes[h])
  }

  // ----- What each script answers and leaves behind, key by key -----

  /** Creating: the owner's open attempt, if there is one, is closed and its code dropped; the new one takes its place. */
  lemma CreateExactly(s: Store, owner: OwnerId, id: AttemptId, code: Code, nowMs: nat, clock: nat)
    requires id !in s.attempts
    ensures var (t, back) := Create(s, owner, id, code, nowMs, clock);
            var deadline := clock + if code.expiresAtMs > nowMs then code.expiresAtMs - nowMs + 1_800_000 else 1_800_000;
            && t.attempts.Keys == s.attempts.Keys + {id} && t.attempts[id] == Attempt(owner, nowMs, None, Some(code), deadline)
            && t.open == s.open[owner := Pointer(id, deadline)]
            && (forall k :: k in s.attempts ==>
                  if owner in s.open && s.open[owner].attempt == k then
                    t.attempts[k] == Attempt(s.attempts[k].ownerId, s.attempts[k].createdAtMs, Some(nowMs), None, clock + 1_800_000)
                  else t.attempts[k] == s.attempts[k])
            && (if owner in s.open && s.open[owner].attempt in s.attempts then
                  var code := s.attempts[s.open[owner].attempt].active;
                  back == if code.Some? then Some(code.value.pairingCodeId) else None
                else back == None)
  {
  }

  /** Which codes can be found after an attempt was created. */
  lemma CreateIndexes(s: Store, owner: OwnerId, id: AttemptId, code: Code, nowMs: nat, clock: nat, h: CodeHash)
    ensures var t := Create(s, owner, id, code, nowMs, clock).0;
            var expires := if code.expiresAtMs == 0 then 1_000 else (code.expiresAtMs + 999) / 1_000 * 1_000;
            if h == code.hash then
              (h in t.codes <==> clock < expires) && (h in t.codes ==> t.codes[h] == Pointer(id, expires))
            else
              var dropped := owner in s.open && s.open[owner].attempt in s.attempts
                             && s.attempts[s.open[owner].attempt].active.Some?
                             && s.attempts[s.open[owner].attempt].active.value.hash == h;
              && (h in t.codes <==> h in s.codes && !dropped)
              && (h in t.codes ==> t.codes[h] == s.codes[h])
  {
  }

  /** Rotating: refused unless the attempt is the caller's and unclosed, and a refusal changes nothing. */
  lemma RotateExactly(s: Store, owner: OwnerId, id: AttemptId, code: Code, nowMs: nat, clock: nat)
    ensures var (t, result) := Rotate(s, owner, id, code, nowMs, clock);
            && (result == NotFound <==> !(id in s.attempts && s.attempts[id].ownerId == owner))
            && (result == AlreadyClosed <==> id in s.attempts && s.attempts[id].ownerId == owner && s.attempts[id].closedAtMs.Some?)
            && (!result.Rotated? ==> t == s)
            && (result.Rotated? ==>
                  var a := s.attempts[id];
                  var deadline := clock + if code.expiresAtMs > nowMs then code.expiresAtMs - nowMs + 1_800_000 else 1_800_000;
                  && result.invalidated == (if a.active.Some? then Some(a.active.value.pairingCodeId) else None)
                  && t.attempts.Keys == s.attempts.Keys && t.attempts[id] == Attempt(owner, a.createdAtMs, None, Some(code), deadline)
                  && (forall k :: k in s.attempts && k != id ==> t.attempts[k] == s.attempts[k])
                  && t.open == s.open[owner := Pointer(id, deadline)])
  {
  }

  /** Which codes can be found after a rotation: the new one, and not the old one. */
  lemma RotateIndexes(s: Store, owner: OwnerId, id: AttemptId, code: Code, nowMs: nat, clock: nat, h: CodeHash)
    requires Rotate(s, owner, id, code, nowMs, clock).1.Rotated?
    ensures var t := Rotate(s, owner, id, code, nowMs, clock).0;
            var expires := if code.expiresAtMs == 0 then 1_000 else (code.expiresAtMs + 999) / 1_000 * 1_000;
            if h == code.hash then
              (h in t.codes <==> clock < expires) && (h in t.codes ==> t.codes[h] == Pointer(id, expires))
            else
              && (h in t.codes <==> h in s.codes && !(s.attempts[id].active.Some? && s.attempts[id].active.value.hash == h))
              && (h in t.codes ==> t.codes[h] == s.codes[h])
  {
  }

  /**
   * Closing: it answers closed exactly if the attempt is there, unclosed and the caller's. Afterwards it is closed, its
   * code is not found any more and the caller has no open attempt; a refusal changes nothing.
   */
  lemma CloseExactly(s: Store, owner: OwnerId, id: AttemptId, nowMs: nat, clock: nat)
    ensures var (t, result) := Close(s, owner, id, nowMs, clock);
            && (result == NoSuchAttempt <==> !(id in s.attempts && s.attempts[id].ownerId == owner))
            && (result == WasClosed <==> id in s.attempts && s.attempts[id].ownerId == owner && s.attempts[id].closedAtMs.Some?)
            && (!result.Closed? ==> t == s)
            && (result.Closed? ==>
                  var a := s.attempts[id];
                  && result.invalidated == (if a.active.Some? then Some(a.active.value.pairingCodeId) else None)
                  && t.attempts.Keys == s.attempts.Keys
                  && t.attempts[id] == Attempt(owner, a.createdAtMs, Some(nowMs), None, clock + 1_800_000)
                  && (forall k :: k in s.attempts && k != id ==> t.attempts[k] == s.attempts[k])
                  && t.open == s.open - {owner}
                  && t.codes == s.codes - (if a.active.Some? then {a.active.value.hash} else {}))
  {
  }

  /**
   * Redeeming: it succeeds exactly for a hash that is indexed, whose attempt is there and unclosed and shows this very
   * code, not yet expired. Then, as for an expired one, the attempt stays open without a code and the hash is not found again.
   */
  lemma ConsumeExactly(s: Store, hash: CodeHash, nowMs: nat, clock: nat)
    ensures var (t, result) := Consume(s, hash, nowMs, clock);
            var shown := hash in s.codes && s.codes[hash].attempt in s.attempts
                         && s.attempts[s.codes[hash].attempt].closedAtMs.None? && s.attempts[s.codes[hash].attempt].active.Some?;
            && t.open == s.open && t.attempts.Keys == s.attempts.Keys
            && (result.Some? <==>
                  && shown && s.attempts[s.codes[hash].attempt].active.value.hash == hash
                  && nowMs < s.attempts[s.codes[hash].attempt].active.value.expiresAtMs)
            && (result.Some? ==>
                  result.value == Redeemed(s.codes[hash].attempt, s.attempts[s.codes[hash].attempt].active.value.pairingCodeId))
            && (if shown && s.attempts[s.codes[hash].attempt].active.value.hash == hash then
                  var id, a := s.codes[hash].attempt, s.attempts[s.codes[hash].attempt];
                  && t.attempts[id] == Attempt(a.ownerId, a.createdAtMs, None, None, clock + 1_800_000)
                  && (forall k :: k in s.attempts && k != id ==> t.attempts[k] == s.attempts[k])
                  && t.codes == s.codes - {hash}
                else
                  t.attempts == s.attempts && t.codes == if shown then s.codes else s.codes - {hash})
  {
  }

  /** Expiring: exactly the keys whose last millisecond is over go, and the others stay as they are. */
  lemma ExpireExactly(s: Store, clock: nat)
    ensures var t := Expire(s, clock);
            && (forall k :: k in t.attempts <==> k in s.attempts && clock <= s.attempts[k].deadline)
            && (forall o :: o in t.open <==> o in s.open && clock <= s.open[o].deadline)
            && (forall h :: h in t.codes <==> h in s.codes && clock <= s.codes[h].deadline)
            && (forall k :: k in t.attempts ==> t.attempts[k] == s.attempts[k])
            && (forall o :: o in t.open ==> t.open[o] == s.open[o]) && (forall h :: h in t.codes ==> t.codes[h] == s.codes[h])
  {
  }

  /** The store as it lives in Redis; each method is one script, command by command. */
  class RedisDisplayRegistrationAttemptStore {
    var attempts: map<AttemptId, Attempt>
    var open: map<OwnerId, Pointer>
    var codes: map<CodeHash, Pointer>

    function Value(): Store
      reads this
    {
      Store(attempts, open, codes)
    }

    constructor ()
      ensures Value() == Store(map[], map[], map[])
    {
      attempts, open, codes := map[], map[], map[];
    }

    method CreateOrReplaceOpenAttempt(ownerId: OwnerId, newAttemptId: AttemptId, code: Code, nowMs: nat, clock: nat)
      returns (invalidated: Option<PairingCodeId>)
      modifies this
      ensures (Value(), invalidated) == Create(old(Value()), ownerId, newAttemptId, code, nowMs, clock)
    {
      var attemptTtlMs := GetAttemptTtlMs(nowMs, code.expiresAtMs);
      invalidated := None;
      if ownerId in open {
        var existing := open[ownerId].attempt;
        if existing in attempts {
          if attempts[existing].active.Some? {
            var active := attempts[existing].active.value;
            codes := codes - {active.hash};
            invalidated := Some(active.pairingCodeId);
          }
          attempts := attempts[existing := attempts[existing].(closedAtMs := Some(nowMs), active := None)];
          attempts := attempts[existing := attempts[existing].(deadline := clock + STALE_TTL_MS)];
          assert Store(attempts, open, codes) == Shut(old(Value()), existing, nowMs, clock);
        } else {
          open := open - {ownerId};
        }
      }
      attempts := attempts[newAttemptId := Attempt(ownerId, nowMs, None, Some(code), clock + attemptTtlMs)];
      open := open[ownerId := Pointer(newAttemptId, clock + attemptTtlMs)];
      codes := SetCode(codes, code, newAttemptId, clock);
      assert open == old(open)[ownerId := Pointer(newAttemptId, clock + attemptTtlMs)];
    }

    method RotateCode(attemptId: AttemptId, ownerId: OwnerId, nextCode: Code, nowMs: nat, clock: nat)
      returns (result: Rotation)
      modifies this
      ensures (Value(), result) == Rotate(old(Value()), ownerId, attemptId, nextCode, nowMs, clock)
    {
      var attemptTtlMs := GetAttemptTtlMs(nowMs, nextCode.expiresAtMs);
      if attemptId !in attempts || attempts[attemptId].ownerId != ownerId {
        return NotFound;
      }
      if attempts[attemptId].closedAtMs.Some? {
        return AlreadyClosed;
      }
      var invalidated := None;
      if attempts[attemptId].active.Some? {
        codes := codes - {attempts[attemptId].active.value.hash};
        invalidated := Some(attempts[attemptId].active.value.pairingCodeId);
      }
      attempts := attempts[attemptId := attempts[attemptId].(active := Some(nextCode))];
      attempts := attempts[attemptId := attempts[attemptId].(deadline := clock + attemptTtlMs)];
      open := open[ownerId := Pointer(attemptId, clock + attemptTtlMs)];
      codes := SetCode(codes, nextCode, attemptId, clock);
      assert attempts == old(attempts)[attemptId :=
               old(attempts)[attemptId].(active := Some(nextCode), deadline := clock + attemptTtlMs)];
      return Rotated(invalidated);
    }

    method CloseAttempt(attemptId: AttemptId, ownerId: OwnerId, nowMs: nat, clock: nat) returns (result: Closing)
      modifies this
      ensures (Value(), result) == Close(old(Value()), ownerId, attemptId, nowMs, clock)
    {
      if attemptId !in attempts || attempts[attemptId].ownerId != ownerId {
        return NoSuchAttempt;
      }
      if attempts[attemptId].closedAtMs.Some? {
        return WasClosed;
      }
      var invalidated := None;
      if attempts[attemptId].active.Some? {
        codes := codes - {attempts[attemptId].active.value.hash};
        invalidated := Some(attempts[attemptId].active.value.pairingCodeId);
      }
      attempts := attempts[attemptId := attempts[attemptId].(closedAtMs := Some(nowMs), active := None)];
      attempts := attempts[attemptId := attempts[attemptId].(deadline := clock + STALE_TTL_MS)];
      open := open - {ownerId};
      assert Store(attempts, old(open), codes) == Shut(old(Value()), attemptId, nowMs, clock);
      return Closed(invalidated);
    }

    method ConsumeCodeHash(hash: CodeHash, nowMs: nat, clock: nat) returns (result: Option<Redeemed>)
      modifies this
      ensures (Value(), result) == Consume(old(Value()), hash, nowMs, clock)
    {
      if hash !in codes {
        return None;
      }
      var id := codes[hash].attempt;
      if id !in attempts {
        codes := codes - {hash};
        return None;
      }
      var attempt := attempts[id];
      if attempt.closedAtMs.Some? || attempt.active.None? {
        codes := codes - {hash};
        return None;
      }
      if attempt.active.value.hash != hash {
        return None;
      }
      var expired := attempt.active.value.expiresAtMs <= nowMs;
      codes := codes - {hash};
      attempts := attempts[id := attempts[id].(active := None)];
      attempts := attempts[id := attempts[id].(deadline := clock + STALE_TTL_MS)];
      assert attempts == old(attempts)[id := attempt.(active := None, deadline := clock + STALE_TTL_MS)];
      return if expired then None else Some(Redeemed(id, attempt.active.value.pairingCodeId));
    }
  }
}
