/**
 * The versioned response cache as a state machine: readers fetch version counters, build a key and then get,
 * or compute and set; writers commit a change and then increment the counters of its domains. Every store
 * call is one step, so any number of readers, writers and evictions interleave.
 */
module ResponseCache {
  import opened Options
  import opened CacheKeys

  // An `ensures P(..) == true` promises P(..) as a whole: unlike a bare P(..), it is not taken apart where it is proved.

  type ReaderId = nat
  type WriterId = nat

  // A computed response. Its queries all ran after the first `since` committed changes.
  datatype Value = Value(since: nat)

  datatype Status = HIT | MISS | BYPASS

  datatype Phase =
    | Start                                // the version counters are fetched next
    | Looking                              // GET of the key is next
    | Missed                               // the computation starts next
    | Computing(since: nat)                // it is under way
    | Computed(value: Value)               // SET of the key is next
    | Falling                              // the store failed; the response is computed without it next
    | Recomputing(since: nat)
    | Served(status: Status, value: Value)

  datatype Reader = Reader(req: Request, phase: Phase, versions: seq<nat>)

  // A stored response, and what its key was built from.
  datatype Slot = Slot(value: Value, req: Request, versions: seq<nat>)

  // `changes`: committed database changes in order, by writer. `bumps[d]`: who incremented d's counter, in order.
  datatype State = State(
    changes: seq<WriterId>,
    counters: map<Domain, nat>,
    responses: map<string, Slot>,
    readers: map<ReaderId, Reader>,
    pending: map<WriterId, set<Domain>>,
    bumps: map<Domain, seq<WriterId>>)

  predicate Init(s: State) {
    s == State([], map[], map[], map[], map[], map[])
  }

  datatype Step =
    | Commit(w: WriterId, domains: set<Domain>)
    | Increment(w: WriterId, d: Domain)
    | Evict(key: string)
    | Arrive(r: ReaderId, req: Request)
    | FetchVersions(r: ReaderId)
    | Get(r: ReaderId)
    | StartCompute(r: ReaderId)
    | EndCompute(r: ReaderId)
    | Set(r: ReaderId)
    | SetFails(r: ReaderId)      // the SET takes effect, and then reports an error
    | StoreFails(r: ReaderId)    // a call to the store fails without effect
    | StartBypass(r: ReaderId)
    | EndBypass(r: ReaderId)

  function Counter(s: State, d: Domain): nat {
    if d in s.counters then s.counters[d] else 0
  }

  function Bumps(s: State, d: Domain): seq<WriterId> {
    if d in s.bumps then s.bumps[d] else []
  }

  function Texts(versions: seq<nat>): (texts: seq<string>)
    ensures |texts| == |versions|
  {
    seq(|versions|, i requires 0 <= i < |versions| => Decimal(versions[i]))
  }

  function KeyOf(req: Request, versions: seq<nat>): string {
    BuildServerCacheKey(req, Texts(versions))
  }

  function ReaderKey(r: Reader): string {
    KeyOf(r.req, r.versions)
  }

  predicate In(s: State, r: ReaderId) {
    r in s.readers
  }

  predicate Enabled(s: State, step: Step) {
    match step
    case Commit(w, _) => w !in s.pending
    case Increment(w, d) => w in s.pending && d in s.pending[w]
    case Evict(_) => true
    case Arrive(r, req) => !In(s, r) && WellFormed(req)
    case FetchVersions(r) => In(s, r) && s.readers[r].phase.Start?
    case Get(r) => In(s, r) && s.readers[r].phase.Looking?
    case StartCompute(r) => In(s, r) && s.readers[r].phase.Missed?
    case EndCompute(r) => In(s, r) && s.readers[r].phase.Computing?
    case Set(r) => In(s, r) && s.readers[r].phase.Computed?
    case SetFails(r) => In(s, r) && s.readers[r].phase.Computed?
    case StoreFails(r) =>
      In(s, r) && (s.readers[r].phase.Start? || s.readers[r].phase.Looking? || s.readers[r].phase.Computed?)
    case StartBypass(r) => In(s, r) && s.readers[r].phase.Falling?
    case EndBypass(r) => In(s, r) && s.readers[r].phase.Recomputing?
  }

  function Fetched(s: State, req: Request): (versions: seq<nat>)
    ensures |versions| == |req.domains|
  {
    seq(|req.domains|, i requires 0 <= i < |req.domains| => Counter(s, req.domains[i]))
  }

  /** The reader a step moves, if it moves one. */
  function Mover(step: Step): Option<ReaderId> {
    match step
    case Commit(_, _) => None
    case Increment(_, _) => None
    case Evict(_) => None
    case _ => Some(step.r)
  }

  function NextReader(s: State, step: Step): Reader
    requires Enabled(s, step) && Mover(step).Some?
  {
    if step.Arrive? then Reader(step.req, Start, [])
    else
      var rd := s.readers[step.r];
      match step
      case FetchVersions(_) => Reader(rd.req, Looking, Fetched(s, rd.req))
      case Get(_) =>
        rd.(phase := if ReaderKey(rd) in s.responses then Served(HIT, s.responses[ReaderKey(rd)].value) else Missed)
      case StartCompute(_) => rd.(phase := Computing(|s.changes|))
      case EndCompute(_) => rd.(phase := Computed(Value(rd.phase.since)))
      case Set(_) => rd.(phase := Served(MISS, rd.phase.value))
      case SetFails(_) => rd.(phase := Falling)
      case StoreFails(_) => rd.(phase := Falling)
      case StartBypass(_) => rd.(phase := Recomputing(|s.changes|))
      case EndBypass(_) => rd.(phase := Served(BYPASS, Value(rd.phase.since)))
  }

  function Stored(s: State, rd: Reader): State
    requires rd.phase.Computed?
  {
    s.(responses := s.responses[ReaderKey(rd) := Slot(rd.phase.value, rd.req, rd.versions)])
  }

  /** What a step does to the database and the store. */
  function WorldAfter(s: State, step: Step): State
    requires Enabled(s, step)
  {
    match step
    case Commit(w, domains) => s.(changes := s.changes + [w], pending := s.pending[w := domains])
    case Increment(w, d) =>
      s.(counters := s.counters[d := Counter(s, d) + 1], bumps := s.bumps[d := Bumps(s, d) + [w]],
         pending := s.pending[w := s.pending[w] - {d}])
    case Evict(key) => s.(responses := s.responses - {key})
    case Set(r) => Stored(s, s.readers[r])
    case SetFails(r) => Stored(s, s.readers[r])
    case _ => s
  }

  function Apply(s: State, step: Step): State
    requires Enabled(s, step)
  {
    var t := WorldAfter(s, step);
    if Mover(step).Some? then t.(readers := s.readers[Mover(step).value := NextReader(s, step)]) else t
  }

  // ----- Invariant -----

  // The counters count, and whoever incremented one had committed before.
  ghost predicate CountersOk(s: State) {
    && (forall d :: Counter(s, d) == |Bumps(s, d)|)
    && (forall d, w :: w in Bumps(s, d) ==> w in s.changes)
    && (forall w :: w in s.pending ==> w in s.changes)
  }

  // The first `version` increments of the domain belong to changes among the first `since`.
  ghost predicate Covered(s: State, d: Domain, version: nat, since: nat) {
    && version <= |Bumps(s, d)| && since <= |s.changes|
    && forall k :: 0 <= k < version ==> Bumps(s, d)[k] in s.changes[..since]
  }

  ghost predicate Covers(s: State, req: Request, versions: seq<nat>, since: nat) {
    |versions| == |req.domains| && forall i :: 0 <= i < |versions| ==> Covered(s, req.domains[i], versions[i], since)
  }

  ghost predicate Known(s: State, req: Request, versions: seq<nat>) {
    |versions| == |req.domains| && forall i :: 0 <= i < |versions| ==> versions[i] <= |Bumps(s, req.domains[i])|
  }

  ghost predicate SlotOk(s: State, key: string, slot: Slot) {
    WellFormed(slot.req) && key == KeyOf(slot.req, slot.versions) && Covers(s, slot.req, slot.versions, slot.value.since)
  }

  ghost predicate ReaderOk(s: State, rd: Reader) {
    && WellFormed(rd.req)
    && (rd.versions == [] || Known(s, rd.req, rd.versions))
    && match rd.phase
       case Start => rd.versions == []
       case Looking => Known(s, rd.req, rd.versions)
       case Missed => Known(s, rd.req, rd.versions)
       case Computing(since) => Covers(s, rd.req, rd.versions, since)
       case Computed(value) => Covers(s, rd.req, rd.versions, value.since)
       case Falling => true
       case Recomputing(since) => rd.versions != [] ==> Covers(s, rd.req, rd.versions, since)
       case Served(_, value) => rd.versions != [] ==> Covers(s, rd.req, rd.versions, value.since)
  }

  ghost predicate Inv(s: State) {
    && CountersOk(s)
    && (forall key :: key in s.responses ==> SlotOk(s, key, s.responses[key]))
    && (forall r :: r in s.readers ==> ReaderOk(s, s.readers[r]))
  }

  // ----- Growth -----

  ghost predicate Prefix(a: seq<WriterId>, b: seq<WriterId>) {
    |a| <= |b| && forall k :: 0 <= k < |a| ==> a[k] == b[k]
  }

  ghost predicate Grows(s: State, t: State) {
    Prefix(s.changes, t.changes) && forall d :: Prefix(Bumps(s, d), Bumps(t, d))
  }

  lemma CoveredGrows(s: State, t: State, d: Domain, version: nat, since: nat)
    requires Grows(s, t) && Covered(s, d, version, since)
    ensures Covered(t, d, version, since)
  {
    assert Prefix(Bumps(s, d), Bumps(t, d));
    assert t.changes[..since] == s.changes[..since];
  }

  lemma CoversGrows(s: State, t: State, req: Request, versions: seq<nat>, since: nat)
    requires Grows(s, t) && Covers(s, req, versions, since)
    ensures Covers(t, req, versions, since)
  {
    forall i | 0 <= i < |versions|
      ensures Covered(t, req.domains[i], versions[i], since)
    {
      CoveredGrows(s, t, req.domains[i], versions[i], since);
    }
  }

  lemma ReaderGrows(s: State, t: State, rd: Reader)
    requires Grows(s, t) && ReaderOk(s, rd)
    ensures ReaderOk(t, rd)
  {
    assert Known(s, rd.req, rd.versions) ==> Known(t, rd.req, rd.versions);
    match rd.phase
    case Computing(since) => CoversGrows(s, t, rd.req, rd.versions, since);
    case Computed(value) => CoversGrows(s, t, rd.req, rd.versions, value.since);
    case Recomputing(since) => if rd.versions != [] { CoversGrows(s, t, rd.req, rd.versions, since); }
    case Served(_, value) => if rd.versions != [] { CoversGrows(s, t, rd.req, rd.versions, value.since); }
    case _ =>
  }

  lemma SlotGrows(s: State, t: State, key: string, slot: Slot)
    requires Grows(s, t) && SlotOk(s, key, slot)
    ensures SlotOk(t, key, slot)
  {
    CoversGrows(s, t, slot.req, slot.versions, slot.value.since);
  }

  // A computation that starts now sees every increment that any fetched version counts.
  lemma NowCovers(s: State, req: Request, versions: seq<nat>)
    requires CountersOk(s) && Known(s, req, versions)
    ensures Covers(s, req, versions, |s.changes|)
  {
    assert s.changes[..|s.changes|] == s.changes;
  }

  // A hit comes from the versions the reader itself fetched.
  lemma HitCovers(s: State, r: ReaderId)
    requires Inv(s) && In(s, r) && s.readers[r].phase.Looking? && ReaderKey(s.readers[r]) in s.responses
    ensures Covers(s, s.readers[r].req, s.readers[r].versions, s.responses[ReaderKey(s.readers[r])].value.since)
  {
    var rd := s.readers[r];
    var slot := s.responses[ReaderKey(rd)];
    assert SlotOk(s, ReaderKey(rd), slot) && ReaderOk(s, rd);
    KeyDetermines(rd.req, Texts(rd.versions), slot.req, Texts(slot.versions));
    forall i | 0 <= i < |rd.versions|
      ensures rd.versions[i] == slot.versions[i]
    {
      assert VersionAt(Texts(rd.versions), i) == VersionAt(Texts(slot.versions), i);
      DecimalInjective(rd.versions[i], slot.versions[i]);
    }
  }

  lemma MovedOk(s: State, step: Step)
    requires Inv(s) && Enabled(s, step) && Mover(step).Some?
    ensures ReaderOk(s, NextReader(s, step))
  {
    if !step.Arrive? {
      var rd := s.readers[step.r];
      assert ReaderOk(s, rd);
      match step
      case FetchVersions(_) => FetchedKnown(s, rd.req);
      case Get(_) => if ReaderKey(rd) in s.responses { HitCovers(s, step.r); }
      case StartCompute(_) => NowCovers(s, rd.req, rd.versions);
      case StartBypass(_) => if rd.versions != [] { NowCovers(s, rd.req, rd.versions); }
      case _ =>
    }
  }

  lemma FetchedKnown(s: State, req: Request)
    requires CountersOk(s)
    ensures Known(s, req, Fetched(s, req))
  {
  }

  lemma StepGrows(s: State, step: Step)
    requires Enabled(s, step)
    ensures Grows(s, WorldAfter(s, step)) && Grows(s, Apply(s, step))
  {
  }

  lemma CountersKept(s: State, step: Step)
    requires CountersOk(s) && Enabled(s, step)
    ensures CountersOk(Apply(s, step))
  {
    var t := Apply(s, step);
    forall d
      ensures Counter(t, d) == |Bumps(t, d)|
      ensures forall w :: w in Bumps(t, d) ==> w in t.changes
    {
      assert Counter(s, d) == |Bumps(s, d)|;
      assert forall w :: w in Bumps(t, d) ==> w in Bumps(s, d) || (step.Increment? && w == step.w);
    }
  }

  lemma SlotsKept(s: State, step: Step, key: string)
    requires Inv(s) && Enabled(s, step) && key in Apply(s, step).responses
    ensures SlotOk(Apply(s, step), key, Apply(s, step).responses[key])
  {
    var t := Apply(s, step);
    StepGrows(s, step);
    if (step.Set? || step.SetFails?) && key == ReaderKey(s.readers[step.r]) {
      assert ReaderOk(s, s.readers[step.r]);
      SlotGrows(s, t, key, t.responses[key]);
    } else {
      SlotGrows(s, t, key, s.responses[key]);
    }
  }

  lemma StepKeepsInv(s: State, step: Step)
    requires Inv(s) && Enabled(s, step)
    ensures Inv(Apply(s, step))
  {
    var t := Apply(s, step);
    StepGrows(s, step);
    CountersKept(s, step);
    forall key | key in t.responses
      ensures SlotOk(t, key, t.responses[key])
    {
      SlotsKept(s, step, key);
    }
    forall r | r in t.readers
      ensures ReaderOk(t, t.readers[r])
    {
      if Mover(step) == Some(r) {
        MovedOk(s, step);
      }
      ReaderGrows(s, t, t.readers[r]);
    }
  }

  // ----- Runs -----

  ghost predicate IsRun(states: seq<State>, steps: seq<Step>) {
    && |states| == |steps| + 1
    && Init(states[0])
    && forall i :: 0 <= i < |steps| ==> Enabled(states[i], steps[i]) && states[i + 1] == Apply(states[i], steps[i])
  }

  lemma {:induction false} EveryStateOk(states: seq<State>, steps: seq<Step>, n: nat)
    requires IsRun(states, steps) && n < |states|
    ensures Inv(states[n])
  {
    if n > 0 {
      EveryStateOk(states, steps, n - 1);
      StepKeepsInv(states[n - 1], steps[n - 1]);
    }
  }

  ghost predicate Growing(states: seq<State>) {
    forall i :: 0 <= i < |states| - 1 ==> Grows(states[i], states[i + 1])
  }

  lemma RunsGrow(states: seq<State>, steps: seq<Step>)
    requires IsRun(states, steps)
    ensures Growing(states) == true
  {
    forall i | 0 <= i < |states| - 1
      ensures Grows(states[i], states[i + 1]) == true
    {
      StepGrows(states[i], steps[i]);
    }
  }

  lemma {:induction false} GrowsOver(states: seq<State>, i: nat, j: nat)
    requires Growing(states) && i <= j < |states|
    ensures Grows(states[i], states[j])
    decreases j
  {
    if i < j {
      GrowsOver(states, i, j - 1);
      GrowsTwice(states[i], states[j - 1], states[j]);
    }
  }

  lemma GrowsTwice(a: State, b: State, c: State)
    requires Grows(a, b) && Grows(b, c)
    ensures Grows(a, c)
  {
    forall d
      ensures Prefix(Bumps(a, d), Bumps(c, d))
    {
      assert Prefix(Bumps(a, d), Bumps(b, d)) && Prefix(Bumps(b, d), Bumps(c, d));
    }
  }

  // What a reader fetched, it keeps.
  lemma {:induction false} VersionsStay(states: seq<State>, steps: seq<Step>, j: nat, n: nat, r: ReaderId)
    requires IsRun(states, steps) && j < n < |states| && steps[j] == FetchVersions(r)
    ensures r in states[n].readers && !states[n].readers[r].phase.Start?
    ensures states[n].readers[r].req == states[j].readers[r].req
    ensures states[n].readers[r].versions == Fetched(states[j], states[j].readers[r].req)
    decreases n
  {
    if j + 1 < n {
      VersionsStay(states, steps, j, n - 1, r);
      StepKeepsVersions(states[n - 1], steps[n - 1], r);
    }
  }

  lemma StepKeepsVersions(s: State, step: Step, r: ReaderId)
    requires Enabled(s, step) && In(s, r) && !s.readers[r].phase.Start?
    ensures In(Apply(s, step), r) && !Apply(s, step).readers[r].phase.Start?
    ensures Apply(s, step).readers[r].req == s.readers[r].req && Apply(s, step).readers[r].versions == s.readers[r].versions
  {
  }

  /**
   * Freshness. If writer w incremented domain d before reader r fetched the version counters, and d is one of
   * the reader's domains, then whatever the reader is served was computed after w's change was committed.
   */
  lemma Freshness(states: seq<State>, steps: seq<Step>, i: nat, j: nat, n: nat, w: WriterId, d: Domain, r: ReaderId,
                  status: Status, value: Value)
    requires IsRun(states, steps) && i < j < n < |states|
    requires steps[i] == Increment(w, d)
    requires steps[j] == FetchVersions(r) && d in states[j].readers[r].req.domains
    requires r in states[n].readers && states[n].readers[r].phase == Served(status, value)
    ensures value.since <= |states[n].changes|
    ensures w in states[n].changes[..value.since]
  {
    var k := |Bumps(states[i], d)|;
    RunsGrow(states, steps);
    GrowsOver(states, i + 1, j);
    GrowsOver(states, j, n);
    assert Bumps(states[i + 1], d)[k] == w;
    assert Prefix(Bumps(states[i + 1], d), Bumps(states[j], d)) && Prefix(Bumps(states[j], d), Bumps(states[n], d));
    EveryStateOk(states, steps, j);
    EveryStateOk(states, steps, n);
    VersionsStay(states, steps, j, n, r);
    var rd := states[n].readers[r];
    var pos :| 0 <= pos < |rd.req.domains| && rd.req.domains[pos] == d;
    assert rd.versions[pos] == Counter(states[j], d) == |Bumps(states[j], d)|;
    assert ReaderOk(states[n], rd) && Covered(states[n], d, rd.versions[pos], value.since);
  }

  // ----- What each step changes, and that the cache is of use -----

  /** A response is stored under a key exactly by the reader that built the key, and stays until it is evicted or stored anew. */
  lemma StoredExactly(s: State, step: Step, key: string)
    requires Enabled(s, step)
    ensures var stores := (step.Set? || step.SetFails?)
                          && key == BuildServerCacheKey(s.readers[step.r].req, Texts(s.readers[step.r].versions));
            var t := Apply(s, step);
            if stores then
              key in t.responses && t.responses[key] == Slot(s.readers[step.r].phase.value, s.readers[step.r].req, s.readers[step.r].versions)
            else if step == Evict(key) then key !in t.responses
            else (key in t.responses <==> key in s.responses) && (key in s.responses ==> t.responses[key] == s.responses[key])
  {
  }

  /** A counter grows by one with an increment of its domain and otherwise stays; the changes grow by one with a commit. */
  lemma CountedExactly(s: State, step: Step, d: Domain)
    requires Enabled(s, step)
    ensures var t := Apply(s, step);
            && Counter(t, d) == Counter(s, d) + (if step.Increment? && step.d == d then 1 else 0)
            && t.changes == s.changes + (if step.Commit? then [step.w] else [])
  {
  }

  /** A step moves no reader but its own. */
  lemma OtherReadersStay(s: State, step: Step, r: ReaderId)
    requires Enabled(s, step) && Mover(step) != Some(r)
    ensures In(Apply(s, step), r) <==> In(s, r)
    ensures In(s, r) ==> Apply(s, step).readers[r] == s.readers[r]
  {
  }

  // Nothing is evicted from the key or stored under it.
  predicate LeavesKey(s: State, step: Step, key: string)
    requires Enabled(s, step)
  {
    step != Evict(key) && !((step.Set? || step.SetFails?) && ReaderKey(s.readers[step.r]) == key)
  }

  lemma {:induction false} SlotStays(states: seq<State>, steps: seq<Step>, i: nat, j: nat, key: string)
    requires IsRun(states, steps) && i <= j < |states| && key in states[i].responses
    requires forall k :: i <= k < j ==> LeavesKey(states[k], steps[k], key)
    ensures key in states[j].responses && states[j].responses[key] == states[i].responses[key]
    decreases j
  {
    if i < j {
      SlotStays(states, steps, i, j - 1, key);
      StoredExactly(states[j - 1], steps[j - 1], key);
    }
  }

  /**
   * Over every run a reader with the request and the versions of an earlier one is served what that one stored, as long
   * as it was neither evicted nor stored anew.
   */
  lemma SecondReaderHits(states: seq<State>, steps: seq<Step>, i: nat, j: nat, r1: ReaderId, r2: ReaderId)
    requires IsRun(states, steps) && i < j < |steps| && steps[i] == Set(r1) && steps[j] == Get(r2)
    requires states[j].readers[r2].req == states[i].readers[r1].req && states[j].readers[r2].versions == states[i].readers[r1].versions
    requires forall k :: i < k < j ==> LeavesKey(states[k], steps[k], ReaderKey(states[i].readers[r1]))
    ensures states[j + 1].readers[r2].phase == Served(HIT, states[i].readers[r1].phase.value)
  {
    var key := ReaderKey(states[i].readers[r1]);
    StoredExactly(states[i], steps[i], key);
    SlotStays(states, steps, i + 1, j, key);
  }

  /** And the versions are the same as long as no counter of the request's domains was incremented. */
  lemma {:induction false} VersionsLast(states: seq<State>, steps: seq<Step>, i: nat, j: nat, req: Request)
    requires IsRun(states, steps) && i <= j < |states|
    requires forall k :: i <= k < j && steps[k].Increment? ==> steps[k].d !in req.domains
    ensures Fetched(states[j], req) == Fetched(states[i], req)
    decreases j
  {
    if i < j {
      VersionsLast(states, steps, i, j - 1, req);
      forall k | 0 <= k < |req.domains|
        ensures Counter(states[j], req.domains[k]) == Counter(states[j - 1], req.domains[k])
      {
        CountedExactly(states[j - 1], steps[j - 1], req.domains[k]);
      }
    }
  }

  // The steps lead from `s` to `t`.
  ghost predicate Leads(s: State, steps: seq<Step>, t: State)
    decreases |steps|
  {
    if steps == [] then s == t else Enabled(s, steps[0]) && Leads(Apply(s, steps[0]), steps[1..], t)
  }

  lemma Then(s: State, step: Step, rest: seq<Step>, t: State)
    requires Enabled(s, step) && Leads(Apply(s, step), rest, t)
    ensures Leads(s, [step] + rest, t) == true
  {
    assert ([step] + rest)[1..] == rest;
  }

  lemma Computes(s: State, r: ReaderId) returns (t: State)
    requires In(s, r) && s.readers[r].phase.Missed?
    ensures Leads(s, [StartCompute(r)] + ([EndCompute(r)] + ([Set(r)] + [])), t) == true
    ensures In(t, r) && t.readers == s.readers[r := s.readers[r].(phase := Served(MISS, Value(|s.changes|)))]
    ensures t.changes == s.changes && t.counters == s.counters
    ensures t.responses == s.responses[ReaderKey(s.readers[r]) := Slot(Value(|s.changes|), s.readers[r].req, s.readers[r].versions)]
  {
    var s1 := Apply(s, StartCompute(r));
    var s2 := Apply(s1, EndCompute(r));
    t := Apply(s2, Set(r));
    Then(s2, Set(r), [], t);
    Then(s1, EndCompute(r), [Set(r)] + [], t);
    Then(s, StartCompute(r), [EndCompute(r)] + ([Set(r)] + []), t);
  }

  /**
   * Left alone, a reader is served what is stored under the key of its request and the current versions, and otherwise
   * computes a response from all changes there are, is served that and stores it.
   */
  lemma AloneIsServed(s: State, r: ReaderId, req: Request) returns (t: State, steps: seq<Step>)
    requires !In(s, r) && WellFormed(req)
    ensures Leads(s, [Arrive(r, req)] + ([FetchVersions(r)] + ([Get(r)] + steps)), t)
    ensures var versions := Fetched(s, req);
            var key := BuildServerCacheKey(req, Texts(versions));
            && In(t, r) && t.changes == s.changes && t.counters == s.counters
            && if key in s.responses then
                 t.readers[r] == Reader(req, Served(HIT, s.responses[key].value), versions) && t.responses == s.responses
               else
                 && t.readers[r] == Reader(req, Served(MISS, Value(|s.changes|)), versions)
                 && t.responses == s.responses[key := Slot(Value(|s.changes|), req, versions)]
  {
    var s1 := Apply(s, Arrive(r, req));
    var s2 := Apply(s1, FetchVersions(r));
    var s3 := Apply(s2, Get(r));
    assert Fetched(s1, req) == Fetched(s, req);
    if s3.readers[r].phase.Missed? {
      t := Computes(s3, r);
      steps := [StartCompute(r)] + ([EndCompute(r)] + ([Set(r)] + []));
    } else {
      t, steps := s3, [];
    }
    Then(s2, Get(r), steps, t);
    Then(s1, FetchVersions(r), [Get(r)] + steps, t);
    Then(s, Arrive(r, req), [FetchVersions(r)] + ([Get(r)] + steps), t);
  }
}
