/** What one refresh request does once the session row is in hand, and the whole use case run alone. */
module RefreshDecision {
  import opened Options
  import opened AuthSessions

  datatype Request = Request(sid: SessionId, presented: Option<Hash>, skipRotation: bool)

  datatype Verdict = AccessOnly | Rotate | RevokeFamily | Refuse

  predicate IsCurrent(row: Row, presented: Option<Hash>) {
    presented == Some(row.currentJti)
  }

  // An absent hash equals nothing, not even an absent previous hash.
  predicate IsPrevious(row: Row, presented: Option<Hash>) {
    presented.Some? && row.previousJti == presented
  }

  predicate InGrace(row: Row, presented: Option<Hash>, now: nat) {
    IsPrevious(row, presented) && row.previousJtiExpiresAt.Some? && now < row.previousJtiExpiresAt.value
  }

  function Judge(row: Row, req: Request, now: nat): Verdict {
    if req.skipRotation then
      if InGrace(row, req.presented, now) || IsCurrent(row, req.presented) then AccessOnly else Refuse
    else if IsCurrent(row, req.presented) then Rotate
    else if InGrace(row, req.presented, now) then AccessOnly
    else RevokeFamily
  }

  /** The four verdicts, in terms of the row's columns. */
  lemma VerdictExactly(row: Row, req: Request, now: nat)
    ensures var current := req.presented == Some(row.currentJti);
            var grace := req.presented.Some? && row.previousJti == req.presented
                         && row.previousJtiExpiresAt.Some? && now < row.previousJtiExpiresAt.value;
            && (Judge(row, req, now) == Rotate <==> current && !req.skipRotation)
            && (Judge(row, req, now) == AccessOnly <==> (current && req.skipRotation) || (grace && (req.skipRotation || !current)))
            && (Judge(row, req, now) == RevokeFamily <==> !current && !grace && !req.skipRotation)
            && (Judge(row, req, now) == Refuse <==> !current && !grace && req.skipRotation)
  {
  }

  // The use case reads a clock of whole seconds.
  function WholeSeconds(nowMs: nat): (now: nat)
    ensures now <= nowMs < now + 1000
  {
    nowMs / 1000 * 1000
  }

  datatype Response = Denied | Bearer(sid: SessionId, refreshToken: Option<Hash>)

  class RefreshSessionUseCase {
    const sessions: AuthSessionDbRepository
    const graceMs: nat
    const refreshTtlMs: nat

    constructor (sessions: AuthSessionDbRepository, graceMs: nat, refreshTtlMs: nat)
      ensures this.sessions == sessions && this.graceMs == graceMs && this.refreshTtlMs == refreshTtlMs
    {
      this.sessions := sessions;
      this.graceMs := graceMs;
      this.refreshTtlMs := refreshTtlMs;
    }

    /**
     * The whole use case. `others` is what every other request does to the table between this request's
     * lookup and its next statement; `userAllowed` is the outcome of the account checks.
     */
    method Execute(req: Request, nowMs: nat, newHash: Hash, userAllowed: bool, others: Table -> Table)
      returns (response: Response)
      requires forall sid :: sid in sessions.rows ==> sessions.rows[sid].id == sid
      modifies sessions
      // An unknown or expired session changes nothing and is refused.
      ensures var t := old(sessions.rows);
              !(req.sid in t && nowMs < t[req.sid].expiresAt) ==> response == Denied && sessions.rows == t
      ensures var t, after := old(sessions.rows), sessions.rows;
              req.sid in t && nowMs < t[req.sid].expiresAt ==>
                var row, atUpdate, now := t[req.sid], others(t), nowMs / 1000 * 1000;
                var current := req.presented == Some(row.currentJti);
                var grace := req.presented.Some? && row.previousJti == req.presented
                             && row.previousJtiExpiresAt.Some? && now < row.previousJtiExpiresAt.value;
                if req.skipRotation || (!current && grace) then
                  after == t && response == if (current || grace) && userAllowed then Bearer(req.sid, None) else Denied
                else if current && req.sid in atUpdate && atUpdate[req.sid].currentJti == row.currentJti then
                  // Won: this row alone changes, and the presented hash becomes its predecessor.
                  && after.Keys == atUpdate.Keys && (forall k :: k in after && k != req.sid ==> after[k] == atUpdate[k])
                  && (var u := atUpdate[req.sid];
                      after[req.sid] == Row(u.id, u.userId, u.familyId, newHash, req.presented, Some(now + graceMs), now + refreshTtlMs))
                  && response == if userAllowed then Bearer(req.sid, Some(newHash)) else Denied
                else if current then
                  // Lost: nothing changes, and the answer is an access token only while the grace window lasts.
                  && after == atUpdate && (response == Bearer(req.sid, None) || response == Denied)
                  && (response == Bearer(req.sid, None) <==>
                      && userAllowed && req.sid in atUpdate && nowMs < atUpdate[req.sid].expiresAt
                      && atUpdate[req.sid].previousJti == req.presented && atUpdate[req.sid].previousJtiExpiresAt.Some?
                      && now < atUpdate[req.sid].previousJtiExpiresAt.value)
                else
                  // Replay: the rows of the family go, all others stay.
                  && response == Denied
                  && (forall k :: k in after <==> k in atUpdate && atUpdate[k].familyId != row.familyId)
                  && (forall k :: k in after ==> after[k] == atUpdate[k])
    {
      var found := sessions.FindBySessionId(req.sid, nowMs);
      if found.None? {
        return Denied;
      }
      var session := found.value;
      var now := WholeSeconds(nowMs);
      var graceHit := false;

      if req.skipRotation {
        var isCurrentMatch := req.presented == Some(session.currentJti);
        var isGraceMatch := InGrace(session, req.presented, now);
        if isGraceMatch {
          graceHit := true;
        } else if !isCurrentMatch {
          return Denied;
        }
      } else if req.presented == Some(session.currentJti) {
        sessions.Interleave(others);
        var updated := sessions.UpdateCurrentJtiOptimistic(session.id, session.currentJti, newHash, session.currentJti,
                                                           now + graceMs, now + refreshTtlMs);
        if !updated {
          var refreshed := sessions.FindBySessionId(session.id, nowMs);
          if refreshed.Some? && InGrace(refreshed.value, req.presented, now) {
            graceHit := true;
          } else {
            return Denied;
          }
        }
      } else if InGrace(session, req.presented, now) {
        graceHit := true;
      } else {
        // Replay after the grace window and plain mismatch end the same way.
        sessions.Interleave(others);
        var _ := sessions.RevokeByFamilyId(session.familyId);
        return Denied;
      }

      if !userAllowed {
        return Denied;
      }
      response := Bearer(session.id, if !graceHit && !req.skipRotation then Some(newHash) else None);
    }
  }
}
