/** The `auth_sessions` table and the atomic statements that read and change it. */
module AuthSessions {
  import opened Options

  type SessionId = nat
  type UserId = nat
  type FamilyId = nat

  // Refresh secrets and their hashes are names: a hash stands for the one secret it was made from.
  type Hash = nat

  datatype Row = Row(
    id: SessionId,
    userId: UserId,
    familyId: FamilyId,
    currentJti: Hash,
    previousJti: Option<Hash>,
    previousJtiExpiresAt: Option<nat>,
    expiresAt: nat)

  type Table = map<SessionId, Row>

  /** SELECT ... WHERE id = sid AND expires_at > now. */
  function Find(t: Table, sid: SessionId, nowMs: nat): Option<Row> {
    if sid in t && t[sid].expiresAt > nowMs then Some(t[sid]) else None
  }

  /** The row an optimistic update leaves behind. */
  function Advance(row: Row, next: Hash, previous: Hash, graceUntil: nat, expiresAt: nat): Row {
    row.(currentJti := next, previousJti := Some(previous), previousJtiExpiresAt := Some(graceUntil),
         expiresAt := expiresAt)
  }

  predicate Matches(t: Table, sid: SessionId, expected: Hash) {
    sid in t && t[sid].currentJti == expected
  }

  /** UPDATE ... WHERE id = sid AND current_jti = expected. */
  function CompareAndSwap(t: Table, sid: SessionId, expected: Hash, next: Hash, previous: Hash, graceUntil: nat,
                          expiresAt: nat): Table
  {
    if Matches(t, sid, expected) then t[sid := Advance(t[sid], next, previous, graceUntil, expiresAt)] else t
  }

  function WithoutFamily(t: Table, family: FamilyId): Table {
    map sid | sid in t && t[sid].familyId != family :: t[sid]
  }

  function WithoutUser(t: Table, user: UserId): Table {
    map sid | sid in t && t[sid].userId != user :: t[sid]
  }

  /** The repository over the table. Each method is one SQL statement. */
  class AuthSessionDbRepository {
    var rows: Table

    constructor ()
      ensures rows == map[]
    {
      rows := map[];
    }

    method Create(id: SessionId, userId: UserId, expiresAt: nat, familyId: FamilyId, currentJti: Hash)
      requires id !in rows
      modifies this
      ensures rows == old(rows)[id := Row(id, userId, familyId, currentJti, None, None, expiresAt)]
    {
      rows := rows[id := Row(id, userId, familyId, currentJti, None, None, expiresAt)];
    }

    method ExtendExpiry(id: SessionId, expiresAt: nat)
      modifies this
      ensures rows.Keys == old(rows).Keys
      ensures forall k :: k in rows ==> rows[k] == if k == id then old(rows)[k].(expiresAt := expiresAt) else old(rows)[k]
    {
      if id in rows {
        rows := rows[id := rows[id].(expiresAt := expiresAt)];
      }
    }

    method RevokeById(id: SessionId)
      modifies this
      ensures rows == old(rows) - {id}
    {
      rows := rows - {id};
    }

    method RevokeAllForUser(userId: UserId)
      modifies this
      ensures rows == WithoutUser(old(rows), userId)
      ensures forall k :: k in rows <==> k in old(rows) && old(rows)[k].userId != userId
      ensures forall k :: k in rows ==> rows[k] == old(rows)[k]
    {
      rows := map sid | sid in rows && rows[sid].userId != userId :: rows[sid];
    }

    method FindBySessionId(id: SessionId, nowMs: nat) returns (found: Option<Row>)
      ensures found == Find(rows, id, nowMs)
      ensures found.Some? <==> id in rows && nowMs < rows[id].expiresAt
      ensures found.Some? ==> found.value == rows[id]
    {
      if id in rows && rows[id].expiresAt > nowMs {
        return Some(rows[id]);
      }
      return None;
    }

    /** True exactly when a row changed: the row was there and still held the expected hash. */
    method UpdateCurrentJtiOptimistic(id: SessionId, expected: Hash, next: Hash, previous: Hash, graceUntil: nat,
                                      expiresAt: nat) returns (updated: bool)
      modifies this
      ensures updated <==> Matches(old(rows), id, expected)
      ensures rows == CompareAndSwap(old(rows), id, expected, next, previous, graceUntil, expiresAt)
      ensures updated <==> id in old(rows) && old(rows)[id].currentJti == expected
      ensures !updated ==> rows == old(rows)
      ensures updated ==> rows.Keys == old(rows).Keys && forall k :: k in rows && k != id ==> rows[k] == old(rows)[k]
      ensures updated ==> var a, b := old(rows)[id], rows[id];
                          b == Row(a.id, a.userId, a.familyId, next, Some(previous), Some(graceUntil), expiresAt)
    {
      updated := id in rows && rows[id].currentJti == expected;
      if updated {
        var row := rows[id];
        rows := rows[id := Row(row.id, row.userId, row.familyId, next, Some(previous), Some(graceUntil), expiresAt)];
      }
    }

    /** Whatever other requests do to the table while the caller awaits. */
    method Interleave(others: Table -> Table)
      modifies this
      ensures rows == others(old(rows))
    {
      rows := others(rows);
    }

    method RevokeByFamilyId(familyId: FamilyId) returns (count: nat)
      modifies this
      ensures rows == WithoutFamily(old(rows), familyId)
      ensures forall k :: k in rows <==> k in old(rows) && old(rows)[k].familyId != familyId
      ensures forall k :: k in rows ==> rows[k] == old(rows)[k]
      ensures count == |set k | k in old(rows) && old(rows)[k].familyId == familyId|
      ensures count == |old(rows)| - |rows|
    {
      var before := rows;
      rows := map sid | sid in rows && rows[sid].familyId != familyId :: rows[sid];
      var gone := set sid | sid in before && before[sid].familyId == familyId;
      count := |gone|;
      assert gone == set k | k in old(rows) && old(rows)[k].familyId == familyId;
      assert before.Keys == rows.Keys + gone && rows.Keys !! gone;
    }
  }
}
