/**
 * With the cache in front, revocation is not always justified: a lookup that read the table early may write
 * its answer to the cache late, over a newer one, and the holder of the newest token then meets the old row.
 */
module RefreshLateFill {
  import opened Options
  import opened AuthSessions
  import opened RefreshDecision
  import opened RefreshProtocol
  import opened RefreshInvariants
  import opened RefreshTheorems

  // An `ensures P(..) == true` promises P(..) as a whole: unlike a bare P(..), it is not taken apart where it is proved.

  const FIRST: Hash := 1
  const SECOND: Hash := 2
  const EXPIRES_AT := 1_000_000

  const OLD_ROW := Row(0, 0, 0, FIRST, None, None, EXPIRES_AT)
  const NEW_ROW := Row(0, 0, 0, SECOND, Some(FIRST), Some(10_000), 500_000)
  const OLD_TOKEN := Request(0, Some(FIRST), false)
  const NEW_TOKEN := Request(0, Some(SECOND), false)
  const AT_START := Source(0, 0)
  const ATTEMPT := Attempt(OLD_ROW, AT_START, 0)
  const OLD_CHAIN := [Link(FIRST, None)]
  const NEW_CHAIN := [Link(FIRST, None), Link(SECOND, Some(10_000))]

  const START := State(ReadThrough, 10_000, 500_000, 0, map[], map[], map[], {}, {}, {}, map[], map[], map[])

  ghost predicate Reachable(s: State) {
    exists states: seq<State>, steps: seq<Step> :: IsRun(states, steps) && states[0].mode == ReadThrough && states[|steps|] == s
  }

  lemma OneStepLonger(states: seq<State>, steps: seq<Step>, step: Step)
    requires IsRun(states, steps) && Enabled(states[|steps|], step)
    ensures IsRun(states + [Apply(states[|steps|], step)], steps + [step])
  {
    var states', steps' := states + [Apply(states[|steps|], step)], steps + [step];
    forall i | 0 <= i < |steps'|
      ensures Enabled(states'[i], steps'[i]) && states'[i + 1] == Apply(states'[i], steps'[i])
    {
      if i < |steps| {
        assert states'[i] == states[i] && states'[i + 1] == states[i + 1] && steps'[i] == steps[i];
      }
    }
  }

  lemma EndsAt(states: seq<State>, steps: seq<Step>, s: State)
    requires IsRun(states, steps) && states[0].mode == ReadThrough && states[|steps|] == s
    ensures Reachable(s) == true
  {
  }

  lemma Next(s: State, step: Step) returns (t: State)
    requires Reachable(s) && Enabled(s, step)
    ensures t == Apply(s, step) && Reachable(t) == true
  {
    t := Apply(s, step);
    var states: seq<State>, steps: seq<Step> :| IsRun(states, steps) && states[0].mode == ReadThrough && states[|steps|] == s;
    OneStepLonger(states, steps, step);
    EndsAt(states + [t], steps + [step], t);
  }

  predicate Settings(s: State) {
    s.mode == ReadThrough && s.clock == 0 && s.graceMs == 10_000 && s.refreshTtlMs == 500_000
  }

  // The table before the rotation, and after it.
  predicate Before(s: State) {
    Settings(s) && s.db == map[0 := OLD_ROW] && s.names == {FIRST} && s.lineage == map[0 := OLD_CHAIN]
  }

  predicate After(s: State) {
    Settings(s) && s.db == map[0 := NEW_ROW] && s.names == {FIRST, SECOND} && s.lineage == map[0 := NEW_CHAIN]
  }

  lemma ChainDepths()
    ensures Depth(OLD_CHAIN, FIRST) == 0
    ensures Depth(NEW_CHAIN, SECOND) == 1
  {
    assert NEW_CHAIN[1..] == [Link(SECOND, Some(10_000))];
  }

  lemma Login() returns (t: State)
    ensures Reachable(t) && Before(t) && t.procs == map[]
  {
    assert IsRun([START], []);
    t := Next(START, CreateSession(0, 0, 0, FIRST, EXPIRES_AT));
  }

  // A request arrives with the first token and misses the cache.
  lemma Arrives(s: State, r: RequestId) returns (t: State)
    requires Reachable(s) && Before(s) && r !in s.procs
    ensures Reachable(t) && Before(t) && t.procs == s.procs[r := Process(OLD_TOKEN, Lookup(None), true)]
  {
    ChainDepths();
    t := Next(s, Begin(r, OLD_TOKEN));
  }

  lemma Misses(s: State, r: RequestId) returns (t: State)
    requires Reachable(s) && Before(s) && r in s.procs && s.procs[r] == Process(OLD_TOKEN, Lookup(None), true)
    ensures Reachable(t) && Before(t) && t.procs == s.procs[r := Process(OLD_TOKEN, Select(None), true)]
  {
    t := Next(s, CacheGet(r, None));
  }

  lemma Selects(s: State, r: RequestId) returns (t: State)
    requires Reachable(s) && Before(s) && r in s.procs && s.procs[r] == Process(OLD_TOKEN, Select(None), true)
    ensures Reachable(t) && Before(t)
    ensures t.procs == s.procs[r := Process(OLD_TOKEN, Fill(None, Some(OLD_ROW), AT_START), true)]
  {
    t := Next(s, DbSelect(r));
  }

  lemma Reads(s: State, r: RequestId) returns (t: State)
    requires Reachable(s) && Before(s) && r !in s.procs
    ensures Reachable(t) && Before(t)
    ensures t.procs == s.procs[r := Process(OLD_TOKEN, Fill(None, Some(OLD_ROW), AT_START), true)]
  {
    t := Arrives(s, r);
    t := Misses(t, r);
    t := Selects(t, r);
  }

  // The request goes on to rotate the token.
  lemma Loads(s: State, r: RequestId) returns (t: State)
    requires Reachable(s) && Before(s) && r in s.procs
    requires s.procs[r] == Process(OLD_TOKEN, Fill(None, Some(OLD_ROW), AT_START), true)
    ensures Reachable(t) && Before(t) && t.procs == s.procs[r := Process(OLD_TOKEN, Loaded(OLD_ROW, AT_START), true)]
  {
    t := Next(s, CacheFill(r, false));
  }

  lemma Decides(s: State, r: RequestId) returns (t: State)
    requires Reachable(s) && Before(s) && r in s.procs
    requires s.procs[r] == Process(OLD_TOKEN, Loaded(OLD_ROW, AT_START), true)
    ensures Reachable(t) && t.names == {FIRST, SECOND} && Before(t.(names := {FIRST}))
    ensures t.procs == s.procs[r := Process(OLD_TOKEN, Updating(ATTEMPT, SECOND), true)]
  {
    t := Next(s, Decide(r, SECOND));
  }

  lemma Updates(s: State, r: RequestId) returns (t: State)
    requires Reachable(s) && s.names == {FIRST, SECOND} && Before(s.(names := {FIRST})) && r in s.procs
    requires s.procs[r] == Process(OLD_TOKEN, Updating(ATTEMPT, SECOND), true)
    ensures Reachable(t) && After(t) && t.procs == s.procs[r := Process(OLD_TOKEN, Refetching(ATTEMPT, SECOND), true)]
  {
    t := Next(s, DbUpdate(r));
    assert t.lineage[0] == NEW_CHAIN;
  }

  lemma Rotates(s: State, r: RequestId) returns (t: State)
    requires Reachable(s) && Before(s) && r !in s.procs
    ensures Reachable(t) && After(t) && t.procs == s.procs[r := Process(OLD_TOKEN, Refetching(ATTEMPT, SECOND), true)]
  {
    t := Reads(s, r);
    t := Loads(t, r);
    t := Decides(t, r);
    t := Updates(t, r);
  }

  // The stalled request fills the cache with the row it read before the rotation.
  lemma FillsLate(s: State, r: RequestId) returns (t: State)
    requires Reachable(s) && After(s) && r in s.procs
    requires s.procs[r] == Process(OLD_TOKEN, Fill(None, Some(OLD_ROW), AT_START), true)
    ensures Reachable(t) && After(t) && t.cache == s.cache[0 := Slot(Entry(OLD_ROW), 0)]
    ensures t.procs == s.procs[r := Process(OLD_TOKEN, Loaded(OLD_ROW, AT_START), true)]
  {
    t := Next(s, CacheFill(r, true));
  }

  // A request with the newest token meets the old row.
  lemma MeetsOldRow(s: State, r: RequestId) returns (t: State)
    requires Reachable(s) && After(s) && r !in s.procs && 0 in s.cache && s.cache[0] == Slot(Entry(OLD_ROW), 0)
    ensures Reachable(t) && After(t) && r in t.procs
    ensures t.procs[r] == Process(NEW_TOKEN, Loaded(OLD_ROW, AT_START), true)
  {
    ChainDepths();
    t := Next(s, Begin(r, NEW_TOKEN));
    t := Next(t, CacheGet(r, Some(Entry(OLD_ROW))));
  }

  lemma Condemns(s: State, r: RequestId) returns (t: State)
    requires Reachable(s) && After(s) && r in s.procs && s.procs[r] == Process(NEW_TOKEN, Loaded(OLD_ROW, AT_START), true)
    ensures Reachable(t) && After(t.(names := s.names)) && r in t.procs
    ensures t.procs[r] == Process(NEW_TOKEN, Revoking(ATTEMPT), true)
  {
    t := Next(s, Decide(r, 3));
  }

  // The request that presented the current hash is the one about to revoke.
  lemma HolderIsRevoked(s: State, r: RequestId)
    requires After(s.(names := {FIRST, SECOND})) && r in s.procs
    requires s.procs[r] == Process(NEW_TOKEN, Revoking(ATTEMPT), true)
    ensures !Justified(s, s.procs[r])
    ensures 0 !in Apply(s, DbRevoke(r)).db
  {
    ChainDepths();
  }

  /** The cached repository reaches a state in which a request that presented the current hash revokes the family. */
  lemma CurrentTokenCanBeRevoked() returns (s: State, r: RequestId)
    ensures Reachable(s) && Enabled(s, DbRevoke(r))
    ensures 0 in s.db && s.procs[r].req.sid == 0 && s.procs[r].req.presented == Some(s.db[0].currentJti)
    ensures !Justified(s, s.procs[r])
    ensures 0 !in Apply(s, DbRevoke(r)).db
  {
    s := Login();
    s := Reads(s, 1);
    s := Rotates(s, 2);
    s := FillsLate(s, 1);
    r := 3;
    s := MeetsOldRow(s, r);
    s := Condemns(s, r);
    HolderIsRevoked(s, r);
  }
}
