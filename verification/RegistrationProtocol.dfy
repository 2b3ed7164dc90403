/** Runs of the registration scripts and of key expiry, in any order. */
module RegistrationProtocol {
  import opened Options
  import opened RegistrationStore

  // An `ensures P(..) == true` promises P(..) as a whole: unlike a bare P(..), it is not taken apart where it is proved.

  // `given`: pairing code ids recorded in an attempt so far; `handed`: those a script has handed back, in order.
  datatype State = State(
    store: Store, clock: nat, usedIds: set<AttemptId>, given: set<PairingCodeId>, handed: seq<PairingCodeId>)

  predicate Init(s: State) {
    s.store == Store(map[], map[], map[]) && s.usedIds == {} && s.given == {} && s.handed == []
  }

  // `nowMs` is the caller's reading of the clock, taken before the script runs.
  datatype Step =
    | Tick(clock: nat)
    | CreateAttempt(owner: OwnerId, id: AttemptId, code: Code, nowMs: nat)
    | RotateCode(owner: OwnerId, id: AttemptId, code: Code, nowMs: nat)
    | CloseAttempt(owner: OwnerId, id: AttemptId, nowMs: nat)
    | ConsumeCode(hash: CodeHash, nowMs: nat)

  // Attempt ids are random and pairing code ids are new rows of their table.
  predicate Enabled(s: State, step: Step) {
    match step
    case Tick(clock) => s.clock <= clock
    case CreateAttempt(_, id, code, nowMs) => nowMs <= s.clock && id !in s.usedIds && code.pairingCodeId !in s.given
    case RotateCode(_, _, code, nowMs) => nowMs <= s.clock && code.pairingCodeId !in s.given
    case CloseAttempt(_, _, nowMs) => nowMs <= s.clock
    case ConsumeCode(_, nowMs) => nowMs <= s.clock
  }

  function Append(handed: seq<PairingCodeId>, id: Option<PairingCodeId>): seq<PairingCodeId> {
    if id.Some? then handed + [id.value] else handed
  }

  // The store after a step, and the pairing code id the step hands back.
  function Outcome(s: State, step: Step): (Store, Option<PairingCodeId>) {
    match step
    case Tick(clock) => (Expire(s.store, clock), None)
    case CreateAttempt(owner, id, code, nowMs) => Create(s.store, owner, id, code, nowMs, s.clock)
    case RotateCode(owner, id, code, nowMs) =>
      var (t, result) := Rotate(s.store, owner, id, code, nowMs, s.clock);
      (t, if result.Rotated? then result.invalidated else None)
    case CloseAttempt(owner, id, nowMs) =>
      var (t, result) := Close(s.store, owner, id, nowMs, s.clock);
      (t, if result.Closed? then result.invalidated else None)
    case ConsumeCode(hash, nowMs) =>
      var (t, result) := Consume(s.store, hash, nowMs, s.clock);
      (t, if result.Some? then Some(result.value.pairingCodeId) else None)
  }

  // The pairing code id a step records in an attempt.
  function Recorded(s: State, step: Step): set<PairingCodeId> {
    match step
    case CreateAttempt(_, _, code, _) => {code.pairingCodeId}
    case RotateCode(owner, id, code, nowMs) =>
      if Rotate(s.store, owner, id, code, nowMs, s.clock).1.Rotated? then {code.pairingCodeId} else {}
    case _ => {}
  }

  function Apply(s: State, step: Step): State
    requires Enabled(s, step)
  {
    var (store, back) := Outcome(s, step);
    State(store, if step.Tick? then step.clock else s.clock,
          if step.CreateAttempt? then s.usedIds + {step.id} else s.usedIds,
          s.given + Recorded(s, step), Append(s.handed, back))
  }

  ghost predicate IsRun(states: seq<State>, steps: seq<Step>) {
    && |states| == |steps| + 1
    && Init(states[0])
    && forall i :: 0 <= i < |steps| ==> Enabled(states[i], steps[i]) && states[i + 1] == Apply(states[i], steps[i])
  }

  // ----- What every reachable store looks like -----

  predicate Open(s: Store, id: AttemptId) {
    id in s.attempts && s.attempts[id].closedAtMs.None?
  }

  predicate Active(s: Store, id: AttemptId) {
    Open(s, id) && s.attempts[id].active.Some?
  }

  function CodeOf(s: Store, id: AttemptId): Code
    requires Active(s, id)
  {
    s.attempts[id].active.value
  }

  predicate Holding(s: Store, id: AttemptId) {
    id in s.attempts && s.attempts[id].active.Some?
  }

  function HeldId(s: Store, id: AttemptId): PairingCodeId
    requires Holding(s, id)
  {
    s.attempts[id].active.value.pairingCodeId
  }

  /** Each unclosed attempt is the one its owner's open pointer names, and the pointer lives at least as long. */
  ghost predicate Named(s: Store) {
    forall id :: Open(s, id) ==>
      var a := s.attempts[id];
      a.ownerId in s.open && s.open[a.ownerId].attempt == id && a.deadline <= s.open[a.ownerId].deadline
  }

  /** Each code-index entry names an unclosed attempt whose active hash is that code, and does not outlive it. */
  ghost predicate Indexed(s: Store) {
    forall h :: h in s.codes ==>
      var id := s.codes[h].attempt;
      && Active(s, id) && CodeOf(s, id).hash == h
      && s.codes[h].deadline == CodeDeadline(CodeOf(s, id)) <= s.attempts[id].deadline
  }

  // A pointer names nobody else's attempt and no closed one; only closed attempts have no code for good.
  ghost predicate PointersOk(s: Store) {
    && (forall o :: o in s.open && s.open[o].attempt in s.attempts ==>
          s.attempts[s.open[o].attempt].ownerId == o && Open(s, s.open[o].attempt))
    && (forall id :: id in s.attempts && s.attempts[id].active.Some? ==> Open(s, id))
  }

  // The pointer outlives the active code by the stale time, so it survives a timely redemption.
  ghost predicate Promised(s: Store) {
    forall id :: Active(s, id) ==>
      var o := s.attempts[id].ownerId;
      o in s.open && CodeOf(s, id).expiresAtMs + STALE_TTL_MS <= s.open[o].deadline
  }

  ghost predicate IdsUsed(s: State) {
    && s.store.attempts.Keys <= s.usedIds
    && forall o :: o in s.store.open ==> s.store.open[o].attempt in s.usedIds
  }

  ghost predicate Alive(s: State) {
    && (forall id :: id in s.store.attempts ==> s.clock <= s.store.attempts[id].deadline)
    && (forall o :: o in s.store.open ==> s.clock <= s.store.open[o].deadline)
    && (forall h :: h in s.store.codes ==> s.clock <= s.store.codes[h].deadline)
  }

  ghost predicate Sound(s: Store) {
    Named(s) && Indexed(s) && PointersOk(s) && Promised(s)
  }

  ghost predicate Inv(s: State) {
    Sound(s.store) && IdsUsed(s) && Alive(s)
  }

  // ----- What one step does to the codes attempts hold -----

  // The attempt whose code a step clears or replaces.
  function Giver(s: State, step: Step): Option<AttemptId> {
    match step
    case Tick(_) => None
    case CreateAttempt(owner, _, _, _) => Replaced(s.store, owner)
    case RotateCode(_, id, _, _) => Some(id)
    case CloseAttempt(_, id, _) => Some(id)
    case ConsumeCode(hash, _) => if hash in s.store.codes then Some(s.store.codes[hash].attempt) else None
  }

  // What an attempt holds after a step it held before, or the step recorded it there.
  lemma HeldAfter(s: State, step: Step, id: AttemptId)
    requires Enabled(s, step) && Holding(Apply(s, step).store, id)
    ensures var code := Apply(s, step).store.attempts[id].active.value;
            || (Holding(s.store, id) && s.store.attempts[id].active.value == code)
            || ((step.CreateAttempt? || step.RotateCode?) && step.id == id && step.code == code
                && Recorded(s, step) == {code.pairingCodeId})
  {
  }

  // A step hands back only the code its giver held, and the giver does not hold it afterwards.
  lemma GivesBack(s: State, step: Step)
    requires Enabled(s, step) && Outcome(s, step).1.Some?
    ensures Giver(s, step).Some?
    ensures var id := Giver(s, step).value;
            && Holding(s.store, id) && Outcome(s, step).1.value == HeldId(s.store, id)
            && (Holding(Apply(s, step).store, id) ==>
                  (step.CreateAttempt? || step.RotateCode?) && step.id == id
                  && HeldId(Apply(s, step).store, id) == step.code.pairingCodeId)
  {
  }

  /** A step that takes a code from an attempt hands its id back, unless time took the attempt or the code had expired. */
  lemma NothingIsLost(s: State, step: Step, id: AttemptId)
    requires IdsUsed(s) && Enabled(s, step) && id in s.store.attempts && s.store.attempts[id].active.Some?
    ensures var code, after := s.store.attempts[id].active.value, Apply(s, step).store.attempts;
            || (id in after && after[id].active.Some? && after[id].active.value.pairingCodeId == code.pairingCodeId)
            || Apply(s, step).handed == s.handed + [code.pairingCodeId]
            || (step.Tick? && s.store.attempts[id].deadline < step.clock)
            || (step.ConsumeCode? && step.hash == code.hash && code.expiresAtMs <= step.nowMs)
  {
  }

  // ----- The one step that can break it -----

  /**
   * A redemption so late that the attempt, kept for the stale time from now on, would outlive its pointer.
   * The caller can check it: the pointer's deadline against the clock.
   */
  predicate TooLate(s: State, step: Step) {
    step.ConsumeCode? &&
    match Find(s.store, step.hash)
    case Found(id, _) =>
      var o := s.store.attempts[id].ownerId;
      o in s.store.open && s.store.open[o].deadline < s.clock + STALE_TTL_MS
    case _ => false
  }

  lemma TickKeeps(s: State, clock: nat)
    requires Inv(s) && s.clock <= clock
    ensures Sound(Expire(s.store, clock))
  {
  }

  lemma ShutKeeps(s: Store, id: AttemptId, nowMs: nat, clock: nat)
    requires Indexed(s) && Open(s, id)
    ensures Indexed(Shut(s, id, nowMs, clock))
  {
  }

  lemma CreateNamed(s: State, owner: OwnerId, id: AttemptId, code: Code, nowMs: nat)
    requires Inv(s) && nowMs <= s.clock && id !in s.usedIds
    ensures Named(Create(s.store, owner, id, code, nowMs, s.clock).0)
    ensures PointersOk(Create(s.store, owner, id, code, nowMs, s.clock).0)
  {
  }

  lemma InstallIndexed(s: Store, id: AttemptId, owner: OwnerId, code: Code, nowMs: nat, clock: nat)
    requires Indexed(s) && id !in s.attempts && nowMs <= clock
    ensures Indexed(Install(s, id, owner, code, nowMs, clock))
  {
  }

  lemma CreateIndexed(s: State, owner: OwnerId, id: AttemptId, code: Code, nowMs: nat)
    requires Inv(s) && nowMs <= s.clock && id !in s.usedIds
    ensures Indexed(Create(s.store, owner, id, code, nowMs, s.clock).0) == true
  {
    var existing := Replaced(s.store, owner);
    if existing.Some? {
      ShutKeeps(s.store, existing.value, nowMs, s.clock);
      InstallIndexed(Shut(s.store, existing.value, nowMs, s.clock), id, owner, code, nowMs, s.clock);
    } else {
      InstallIndexed(s.store, id, owner, code, nowMs, s.clock);
    }
  }

  lemma CreatePromised(s: State, owner: OwnerId, id: AttemptId, code: Code, nowMs: nat)
    requires Inv(s) && nowMs <= s.clock && id !in s.usedIds
    ensures Promised(Create(s.store, owner, id, code, nowMs, s.clock).0)
  {
  }

  lemma RotateNamed(s: State, owner: OwnerId, id: AttemptId, code: Code, nowMs: nat)
    requires Inv(s) && nowMs <= s.clock
    ensures Named(Rotate(s.store, owner, id, code, nowMs, s.clock).0)
    ensures PointersOk(Rotate(s.store, owner, id, code, nowMs, s.clock).0)
  {
  }

  lemma RotateIndexed(s: State, owner: OwnerId, id: AttemptId, code: Code, nowMs: nat)
    requires Indexed(s.store) && nowMs <= s.clock
    ensures Indexed(Rotate(s.store, owner, id, code, nowMs, s.clock).0)
  {
  }

  lemma RotatePromised(s: State, owner: OwnerId, id: AttemptId, code: Code, nowMs: nat)
    requires Promised(s.store) && PointersOk(s.store) && Named(s.store) && nowMs <= s.clock
    ensures Promised(Rotate(s.store, owner, id, code, nowMs, s.clock).0)
  {
  }

  lemma CloseKeeps(s: State, owner: OwnerId, id: AttemptId, nowMs: nat)
    requires Inv(s)
    ensures Sound(Close(s.store, owner, id, nowMs, s.clock).0)
  {
  }

  lemma ConsumeKeepsExactly(s: State, hash: CodeHash, nowMs: nat)
    requires Inv(s)
    ensures Sound(Consume(s.store, hash, nowMs, s.clock).0) <==> !TooLate(s, ConsumeCode(hash, nowMs))
  {
    var t := Consume(s.store, hash, nowMs, s.clock).0;
    if hash in s.store.codes {
      var id := s.store.codes[hash].attempt;
      assert Active(s.store, id);
      assert Open(t, id);
    }
  }

  lemma IdsUsedKept(s: State, step: Step)
    requires IdsUsed(s) && Enabled(s, step)
    ensures IdsUsed(Apply(s, step))
  {
  }

  lemma AliveKept(s: State, step: Step)
    requires Alive(s) && Enabled(s, step)
    ensures Alive(Apply(s, step))
  {
  }

  /** Every script and every expiry keeps the keys consistent, except a redemption that is too late, which never does. */
  lemma StepKeepsInvExactly(s: State, step: Step)
    requires Inv(s) && Enabled(s, step)
    ensures Inv(Apply(s, step)) <==> !TooLate(s, step)
  {
    IdsUsedKept(s, step);
    AliveKept(s, step);
    match step
    case Tick(clock) => TickKeeps(s, clock);
    case CreateAttempt(owner, id, code, nowMs) =>
      CreateNamed(s, owner, id, code, nowMs);
      CreateIndexed(s, owner, id, code, nowMs);
      CreatePromised(s, owner, id, code, nowMs);
    case RotateCode(owner, id, code, nowMs) =>
      RotateNamed(s, owner, id, code, nowMs);
      RotateIndexed(s, owner, id, code, nowMs);
      RotatePromised(s, owner, id, code, nowMs);
    case CloseAttempt(owner, id, nowMs) => CloseKeeps(s, owner, id, nowMs);
    case ConsumeCode(hash, nowMs) => ConsumeKeepsExactly(s, hash, nowMs);
  }

  ghost predicate Timely(states: seq<State>, steps: seq<Step>)
    requires IsRun(states, steps)
  {
    forall i :: 0 <= i < |steps| ==> !TooLate(states[i], steps[i])
  }

  lemma {:induction false} EveryStateOk(states: seq<State>, steps: seq<Step>, n: nat)
    requires IsRun(states, steps) && Timely(states, steps) && n < |states|
    ensures Inv(states[n])
  {
    if n > 0 {
      EveryStateOk(states, steps, n - 1);
      StepKeepsInvExactly(states[n - 1], steps[n - 1]);
    }
  }

  /** At most one unclosed attempt per owner, in every state of a timely run. */
  lemma OneOpenAttemptPerOwner(states: seq<State>, steps: seq<Step>, n: nat, a: AttemptId, b: AttemptId)
    requires IsRun(states, steps) && Timely(states, steps) && n < |states|
    requires Open(states[n].store, a) && Open(states[n].store, b)
    requires states[n].store.attempts[a].ownerId == states[n].store.attempts[b].ownerId
    ensures a == b
  {
    EveryStateOk(states, steps, n);
  }

  // ----- Everybody's own attempts -----

  // What holds in every run, timely or not.
  ghost predicate Own(s: State) {
    Indexed(s.store) && PointersOk(s.store) && IdsUsed(s)
  }

  lemma RotateKeepsOwn(s: State, owner: OwnerId, id: AttemptId, code: Code, nowMs: nat)
    requires Own(s) && nowMs <= s.clock
    ensures PointersOk(Rotate(s.store, owner, id, code, nowMs, s.clock).0)
  {
  }

  lemma CloseKeepsOwn(s: Store, owner: OwnerId, id: AttemptId, nowMs: nat, clock: nat)
    requires Indexed(s) && PointersOk(s)
    ensures Indexed(Close(s, owner, id, nowMs, clock).0) && PointersOk(Close(s, owner, id, nowMs, clock).0)
  {
  }

  lemma ConsumeKeepsOwn(s: Store, hash: CodeHash, nowMs: nat, clock: nat)
    requires Indexed(s) && PointersOk(s)
    ensures Indexed(Consume(s, hash, nowMs, clock).0) && PointersOk(Consume(s, hash, nowMs, clock).0)
  {
  }

  lemma ExpireKeepsOwn(s: Store, clock: nat)
    requires Indexed(s) && PointersOk(s)
    ensures Indexed(Expire(s, clock)) && PointersOk(Expire(s, clock))
  {
  }

  lemma StepKeepsOwn(s: State, step: Step)
    requires Own(s) && Enabled(s, step)
    ensures Own(Apply(s, step)) == true
  {
    IdsUsedKept(s, step);
    match step
    case Tick(clock) => ExpireKeepsOwn(s.store, clock);
    case CreateAttempt(owner, id, code, nowMs) => CreateKeepsOwn(s, owner, id, code, nowMs);
    case RotateCode(owner, id, code, nowMs) =>
      RotateIndexed(s, owner, id, code, nowMs);
      RotateKeepsOwn(s, owner, id, code, nowMs);
    case CloseAttempt(owner, id, nowMs) => CloseKeepsOwn(s.store, owner, id, nowMs, s.clock);
    case ConsumeCode(hash, nowMs) => ConsumeKeepsOwn(s.store, hash, nowMs, s.clock);
  }

  lemma CreateKeepsOwn(s: State, owner: OwnerId, id: AttemptId, code: Code, nowMs: nat)
    requires Own(s) && nowMs <= s.clock && id !in s.usedIds
    ensures Indexed(Create(s.store, owner, id, code, nowMs, s.clock).0) && PointersOk(Create(s.store, owner, id, code, nowMs, s.clock).0)
  {
    var existing := Replaced(s.store, owner);
    if existing.Some? {
      ShutKeeps(s.store, existing.value, nowMs, s.clock);
      InstallIndexed(Shut(s.store, existing.value, nowMs, s.clock), id, owner, code, nowMs, s.clock);
    } else {
      InstallIndexed(s.store, id, owner, code, nowMs, s.clock);
    }
  }

  lemma {:induction false} AlwaysOwn(states: seq<State>, steps: seq<Step>, n: nat)
    requires IsRun(states, steps) && n < |states|
    ensures Own(states[n])
  {
    if n > 0 {
      AlwaysOwn(states, steps, n - 1);
      StepKeepsOwn(states[n - 1], steps[n - 1]);
    }
  }

  // The owner on whose behalf a step runs; redeeming a code and time passing are nobody's.
  predicate ActsFor(step: Step, owner: OwnerId) {
    (step.CreateAttempt? || step.RotateCode? || step.CloseAttempt?) && step.owner == owner
  }

  // No attempt of the owner shows the code.
  predicate Foreign(s: Store, owner: OwnerId, h: CodeHash) {
    forall k :: k in s.attempts && s.attempts[k].ownerId == owner && s.attempts[k].active.Some? ==> s.attempts[k].active.value.hash != h
  }

  // Attempts and pointers of other owners are the same, and so are codes that are neither the owner's nor just issued.
  ghost predicate Spares(s: Store, t: Store, owner: OwnerId, issued: Option<CodeHash>) {
    && (forall k :: k in s.attempts && s.attempts[k].ownerId != owner ==> k in t.attempts && t.attempts[k] == s.attempts[k])
    && (forall k :: k in t.attempts && t.attempts[k].ownerId != owner ==> k in s.attempts)
    && (forall o :: o != owner ==> (o in t.open <==> o in s.open) && (o in s.open ==> t.open[o] == s.open[o]))
    && (forall h :: Foreign(s, owner, h) && issued != Some(h) ==>
          (h in t.codes <==> h in s.codes) && (h in s.codes ==> t.codes[h] == s.codes[h]))
  }

  lemma CreateSpares(s: State, owner: OwnerId, id: AttemptId, code: Code, nowMs: nat)
    requires PointersOk(s.store) && id !in s.store.attempts
    ensures Spares(s.store, Create(s.store, owner, id, code, nowMs, s.clock).0, owner, Some(code.hash))
  {
  }

  lemma RotateSpares(s: Store, owner: OwnerId, id: AttemptId, code: Code, nowMs: nat, clock: nat)
    ensures Spares(s, Rotate(s, owner, id, code, nowMs, clock).0, owner, Some(code.hash))
  {
  }

  lemma CloseSpares(s: Store, owner: OwnerId, id: AttemptId, nowMs: nat, clock: nat)
    ensures Spares(s, Close(s, owner, id, nowMs, clock).0, owner, None)
  {
  }

  /**
   * Over every run, timely or not: creating, rotating and closing for one owner change no attempt and no open pointer
   * of any other owner, and in the code index nothing but the code being issued and those the owner's attempts show.
   */
  lemma OthersAreSpared(states: seq<State>, steps: seq<Step>, n: nat, owner: OwnerId)
    requires IsRun(states, steps) && n < |steps| && ActsFor(steps[n], owner)
    ensures Spares(states[n].store, states[n + 1].store, owner, if steps[n].CloseAttempt? then None else Some(steps[n].code.hash)) == true
  {
    AlwaysOwn(states, steps, n);
    var s := states[n];
    match steps[n]
    case CreateAttempt(_, id, code, nowMs) => CreateSpares(s, owner, id, code, nowMs);
    case RotateCode(_, id, code, nowMs) => RotateSpares(s.store, owner, id, code, nowMs, s.clock);
    case CloseAttempt(_, id, nowMs) => CloseSpares(s.store, owner, id, nowMs, s.clock);
  }

  // ----- Codes that expire on whole seconds are always redeemed in time -----

  predicate OnWholeSecond(code: Code) {
    code.expiresAtMs == CodeDeadline(code)
  }

  predicate WholeStep(step: Step) {
    match step
    case CreateAttempt(_, _, code, _) => OnWholeSecond(code)
    case RotateCode(_, _, code, _) => OnWholeSecond(code)
    case _ => true
  }

  ghost predicate AllWhole(s: Store) {
    forall id :: Holding(s, id) ==> OnWholeSecond(s.attempts[id].active.value)
  }

  lemma WholeKept(s: State, step: Step)
    requires AllWhole(s.store) && Enabled(s, step) && WholeStep(step)
    ensures AllWhole(Apply(s, step).store)
  {
    forall id | Holding(Apply(s, step).store, id)
      ensures OnWholeSecond(Apply(s, step).store.attempts[id].active.value)
    {
      HeldAfter(s, step, id);
    }
  }

  lemma WholeIsTimely(s: State, step: Step)
    requires Inv(s) && AllWhole(s.store)
    ensures !TooLate(s, step)
  {
    if step.ConsumeCode? && step.hash in s.store.codes {
      var id := s.store.codes[step.hash].attempt;
      assert Active(s.store, id);
    }
  }

  lemma {:induction false} CodesStayWhole(states: seq<State>, steps: seq<Step>, n: nat)
    requires IsRun(states, steps) && n < |states|
    requires forall i :: 0 <= i < |steps| ==> WholeStep(steps[i])
    ensures AllWhole(states[n].store)
  {
    if n > 0 {
      CodesStayWhole(states, steps, n - 1);
      WholeKept(states[n - 1], steps[n - 1]);
    }
  }

  lemma {:induction false} WholeSecondsStayConsistent(states: seq<State>, steps: seq<Step>, n: nat)
    requires IsRun(states, steps) && n < |states|
    requires forall i :: 0 <= i < |states| ==> AllWhole(states[i].store)
    ensures Inv(states[n])
  {
    if n > 0 {
      WholeSecondsStayConsistent(states, steps, n - 1);
      WholeIsTimely(states[n - 1], steps[n - 1]);
      StepKeepsInvExactly(states[n - 1], steps[n - 1]);
    }
  }

  /** If every code expires on a whole second, the keys are consistent in every reachable state. */
  lemma WholeSecondRunsAreTimely(states: seq<State>, steps: seq<Step>)
    requires IsRun(states, steps) && forall i :: 0 <= i < |steps| ==> WholeStep(steps[i])
    ensures Timely(states, steps)
  {
    forall i | 0 <= i < |states|
      ensures AllWhole(states[i].store)
    {
      CodesStayWhole(states, steps, i);
    }
    forall i | 0 <= i < |steps|
      ensures !TooLate(states[i], steps[i])
    {
      WholeSecondsStayConsistent(states, steps, i);
      WholeIsTimely(states[i], steps[i]);
    }
  }

  // ----- Without that, an owner can end up with two unclosed attempts -----

  const ODD := Code(7, 70, 1_500)
  const NEXT := Code(8, 80, 4_000_000)
  const LATE_STEPS := [
    CreateAttempt(1, 1, ODD, 0), Tick(1_800), ConsumeCode(7, 1_800), Tick(1_801_600), CreateAttempt(1, 2, NEXT, 1_801_600)]

  const ODD_ATTEMPT := Attempt(1, 0, None, Some(ODD), 1_801_500)
  const SPENT_ATTEMPT := Attempt(1, 0, None, None, 1_801_800)
  const NEXT_ATTEMPT := Attempt(1, 1_801_600, None, Some(NEXT), 5_800_000)
  const L0 := State(Store(map[], map[], map[]), 0, {}, {}, [])
  const L1 := State(Store(map[1 := ODD_ATTEMPT], map[1 := Pointer(1, 1_801_500)], map[7 := Pointer(1, 2_000)]), 0, {1}, {70}, [])
  const L2 := L1.(clock := 1_800)
  const L3 := State(Store(map[1 := SPENT_ATTEMPT], map[1 := Pointer(1, 1_801_500)], map[]), 1_800, {1}, {70}, [])
  const L4 := State(Store(map[1 := SPENT_ATTEMPT], map[], map[]), 1_801_600, {1}, {70}, [])
  const L5 := State(Store(map[1 := SPENT_ATTEMPT, 2 := NEXT_ATTEMPT], map[1 := Pointer(2, 5_800_000)], map[8 := Pointer(2, 4_000_000)]),
                    1_801_600, {1, 2}, {70, 80}, [])

  lemma FirstIsIssuedAndRedeemedLate()
    ensures Apply(L0, LATE_STEPS[0]) == L1 && Apply(L1, LATE_STEPS[1]) == L2 && Apply(L2, LATE_STEPS[2]) == L3
    ensures TooLate(L2, LATE_STEPS[2])
  {
  }

  lemma PointerExpiresFirst()
    ensures Apply(L3, LATE_STEPS[3]) == L4 && Apply(L4, LATE_STEPS[4]) == L5
  {
  }

  lemma TwoOpenAttempts()
    ensures IsRun([L0, L1, L2, L3, L4, L5], LATE_STEPS)
    ensures TooLate(L2, LATE_STEPS[2])
    ensures Open(L5.store, 1) && Open(L5.store, 2) && L5.store.attempts[1].ownerId == L5.store.attempts[2].ownerId
  {
    FirstIsIssuedAndRedeemedLate();
    PointerExpiresFirst();
  }

  // ----- Conservation of pairing codes -----

  ghost predicate HandedOnce(handed: seq<PairingCodeId>) {
    forall i, j :: 0 <= i < j < |handed| ==> handed[i] != handed[j]
  }

  // A pairing code id is in at most one attempt, and not both in an attempt and handed back.
  ghost predicate Conserved(s: State) {
    && HandedOnce(s.handed)
    && (forall p :: p in s.handed ==> p in s.given)
    && (forall id :: Holding(s.store, id) ==> HeldId(s.store, id) in s.given && HeldId(s.store, id) !in s.handed)
    && (forall a, b :: Holding(s.store, a) && Holding(s.store, b) && a != b ==> HeldId(s.store, a) != HeldId(s.store, b))
  }

  // No attempt holds an id that was handed back.
  lemma HandsBackHeld(s: State, step: Step)
    requires Conserved(s) && Enabled(s, step) && Outcome(s, step).1.Some?
    ensures Outcome(s, step).1.value in s.given && Outcome(s, step).1.value !in s.handed
    ensures forall id :: Holding(Apply(s, step).store, id) ==> HeldId(Apply(s, step).store, id) != Outcome(s, step).1.value
  {
    GivesBack(s, step);
    var giver := Giver(s, step).value;
    forall id | Holding(Apply(s, step).store, id)
      ensures HeldId(Apply(s, step).store, id) != HeldId(s.store, giver)
    {
      HeldAfter(s, step, id);
    }
  }

  lemma StepConserves(s: State, step: Step)
    requires Conserved(s) && Enabled(s, step)
    ensures Conserved(Apply(s, step))
  {
    var t := Apply(s, step);
    var back := Outcome(s, step).1;
    if back.Some? {
      HandsBackHeld(s, step);
    }
    forall id | Holding(t.store, id)
      ensures HeldId(t.store, id) in t.given && HeldId(t.store, id) !in t.handed
    {
      HeldAfter(s, step, id);
    }
    forall a, b | Holding(t.store, a) && Holding(t.store, b) && a != b
      ensures HeldId(t.store, a) != HeldId(t.store, b)
    {
      HeldAfter(s, step, a);
      HeldAfter(s, step, b);
    }
  }

  lemma {:induction false} EveryStateConserves(states: seq<State>, steps: seq<Step>, n: nat)
    requires IsRun(states, steps) && n < |states|
    ensures Conserved(states[n])
  {
    if n > 0 {
      EveryStateConserves(states, steps, n - 1);
      StepConserves(states[n - 1], steps[n - 1]);
    }
  }

  /**
   * Over any run whatever, a pairing code id is handed back by at most one step, be it as invalidated or as
   * redeemed: a code that was replaced, closed or redeemed is never redeemed later.
   */
  lemma HandedBackAtMostOnce(states: seq<State>, steps: seq<Step>, i: nat, j: nat, p: PairingCodeId)
    requires IsRun(states, steps) && i < |steps| && j < |steps|
    requires Outcome(states[i], steps[i]).1 == Some(p) && Outcome(states[j], steps[j]).1 == Some(p)
    ensures i == j
  {
    if i < j {
      HandedStays(states, steps, i + 1, j, p);
      EveryStateConserves(states, steps, j);
      HandsBackHeld(states[j], steps[j]);
    } else if j < i {
      HandedStays(states, steps, j + 1, i, p);
      EveryStateConserves(states, steps, i);
      HandsBackHeld(states[i], steps[i]);
    }
  }

  lemma {:induction false} HandedStays(states: seq<State>, steps: seq<Step>, i: nat, j: nat, p: PairingCodeId)
    requires IsRun(states, steps) && i <= j < |states| && p in states[i].handed
    ensures p in states[j].handed
    decreases j
  {
    if i < j {
      HandedStays(states, steps, i, j - 1, p);
    }
  }

  // ----- A shown code can be redeemed -----

  // The hash of a newly issued code is not still recorded in another live attempt.
  ghost predicate FreshHash(s: Store, step: Step) {
    match step
    case CreateAttempt(owner, _, code, _) =>
      forall id: AttemptId :: Active(s, id) && CodeOf(s, id).hash == code.hash ==> Replaced(s, owner) == Some(id)
    case RotateCode(_, id, code, _) => forall b: AttemptId :: Active(s, b) && CodeOf(s, b).hash == code.hash ==> b == id
    case _ => true
  }

  ghost predicate HashesDiffer(s: Store) {
    forall a, b :: Active(s, a) && Active(s, b) && a != b ==> CodeOf(s, a).hash != CodeOf(s, b).hash
  }

  // Until its deadline, the active code of every unclosed attempt is indexed under its hash.
  ghost predicate Redeemable(s: State) {
    HashesDiffer(s.store) &&
    forall id :: Active(s.store, id) && s.clock < CodeDeadline(CodeOf(s.store, id)) ==>
      CodeOf(s.store, id).hash in s.store.codes && s.store.codes[CodeOf(s.store, id).hash].attempt == id
  }

  lemma HashesStayDifferent(s: State, step: Step)
    requires Inv(s) && HashesDiffer(s.store) && Enabled(s, step) && FreshHash(s.store, step)
    ensures HashesDiffer(Apply(s, step).store)
  {
    var t := Apply(s, step);
    forall a, b | Active(t.store, a) && Active(t.store, b) && a != b
      ensures CodeOf(t.store, a).hash != CodeOf(t.store, b).hash
    {
      HeldAfter(s, step, a);
      HeldAfter(s, step, b);
    }
  }

  // The code an attempt holds is indexed.
  predicate Reaches(s: Store, id: AttemptId)
    requires Holding(s, id)
  {
    var h := s.attempts[id].active.value.hash;
    h in s.codes && s.codes[h].attempt == id
  }

  lemma IssuedIsIndexed(s: State, step: Step, id: AttemptId)
    requires Enabled(s, step) && (step.CreateAttempt? || step.RotateCode?) && id == step.id
    requires Holding(Apply(s, step).store, id) && Apply(s, step).store.attempts[id].active.value == step.code
    requires step.RotateCode? ==> Rotate(s.store, step.owner, step.id, step.code, step.nowMs, s.clock).1.Rotated?
    requires s.clock < CodeDeadline(step.code)
    ensures Reaches(Apply(s, step).store, id)
  {
  }

  // A step that records no code in the attempt and leaves it its code leaves the index entry too.
  lemma HeldStaysIndexed(s: State, step: Step, id: AttemptId)
    requires Indexed(s.store) && PointersOk(s.store) && HashesDiffer(s.store) && Enabled(s, step) && FreshHash(s.store, step)
    requires Active(s.store, id) && Reaches(s.store, id)
    requires Active(Apply(s, step).store, id) && CodeOf(Apply(s, step).store, id) == CodeOf(s.store, id)
    requires Apply(s, step).clock < CodeDeadline(CodeOf(s.store, id))
    requires (step.CreateAttempt? || step.RotateCode?) && step.id == id ==> Recorded(s, step) == {}
    ensures Reaches(Apply(s, step).store, id)
  {
    match step
    case CreateAttempt(owner, newId, code, nowMs) =>
      var existing := Replaced(s.store, owner);
      assert existing.Some? && Holding(s.store, existing.value) ==> Active(s.store, existing.value);
    case RotateCode(_, other, _, _) =>
      assert Holding(s.store, other) ==> Active(s.store, other);
    case CloseAttempt(_, other, _) =>
      assert Holding(s.store, other) ==> Active(s.store, other);
    case _ =>
  }

  lemma StaysIndexed(s: State, step: Step, id: AttemptId)
    requires Inv(s) && Redeemable(s) && Enabled(s, step) && FreshHash(s.store, step)
    requires Active(Apply(s, step).store, id)
    requires Apply(s, step).clock < CodeDeadline(CodeOf(Apply(s, step).store, id))
    ensures Reaches(Apply(s, step).store, id)
  {
    HeldAfter(s, step, id);
    if (step.CreateAttempt? || step.RotateCode?) && step.id == id && Recorded(s, step) != {} {
      IssuedIsIndexed(s, step, id);
    } else {
      HeldStaysIndexed(s, step, id);
    }
  }

  lemma {:induction false} EveryStateRedeemable(states: seq<State>, steps: seq<Step>, n: nat)
    requires IsRun(states, steps) && Timely(states, steps) && n < |states|
    requires forall i :: 0 <= i < |steps| ==> FreshHash(states[i].store, steps[i])
    ensures Redeemable(states[n])
  {
    if n > 0 {
      EveryStateRedeemable(states, steps, n - 1);
      EveryStateOk(states, steps, n - 1);
      HashesStayDifferent(states[n - 1], steps[n - 1]);
      forall id | Active(states[n].store, id) && states[n].clock < CodeDeadline(CodeOf(states[n].store, id))
        ensures Reaches(states[n].store, id)
      {
        StaysIndexed(states[n - 1], steps[n - 1], id);
      }
    }
  }

  /** As long as an unclosed attempt shows a code that has not expired, presenting the code redeems that attempt. */
  lemma ShownCodeRedeems(states: seq<State>, steps: seq<Step>, n: nat, id: AttemptId, nowMs: nat)
    requires IsRun(states, steps) && Timely(states, steps) && n < |states|
    requires forall i :: 0 <= i < |steps| ==> FreshHash(states[i].store, steps[i])
    requires Active(states[n].store, id)
    requires nowMs <= states[n].clock < CodeOf(states[n].store, id).expiresAtMs
    ensures var code := CodeOf(states[n].store, id);
            Consume(states[n].store, code.hash, nowMs, states[n].clock).1 == Some(Redeemed(id, code.pairingCodeId))
  {
    EveryStateRedeemable(states, steps, n);
  }
}
