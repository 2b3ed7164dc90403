/** Concrete runs in which the content, playlist and schedule use cases do less than they intend. */
module LibraryExamples {
  import opened Options
  import opened ScheduleWindows
  import opened Library
  import opened PlaylistItems
  import opened Schedules
  import opened LibraryRuns

  // An `ensures P(..) == true` promises P(..) as a whole: unlike a bare P(..), it is not taken apart where it is proved.

  ghost predicate Reachable(s: State) {
    exists states: seq<State>, steps: seq<Step> :: IsRun(states, steps) && states[|steps|] == s
  }

  const EMPTY := Store(map[], map[], map[], {})

  lemma Start(now: Instant)
    ensures Reachable(State(EMPTY, now))
  {
    var states: seq<State>, steps: seq<Step> := [State(EMPTY, now)], [];
    assert IsRun(states, steps) && states[|steps|] == State(EMPTY, now);
  }

  lemma OneStepLonger(states: seq<State>, steps: seq<Step>, step: Step)
    requires IsRun(states, steps) && Enabled(states[|steps|], step)
    ensures IsRun(states + [Apply(states[|steps|], step)], steps + [step])
  {
    var states', steps' := states + [Apply(states[|steps|], step)], steps + [step];
    forall i | 0 <= i < |steps'|
      ensures Enabled(states'[i], steps'[i]) && states'[i + 1] == Apply(states'[i], steps'[i])
    {
      if i < |steps| {
        assert states'[i] == states[i] && states'[i + 1] == states[i + 1] && steps'[i] == steps[i];
      }
    }
  }

  lemma EndsAt(states: seq<State>, steps: seq<Step>, s: State)
    requires IsRun(states, steps) && states[|steps|] == s
    ensures Reachable(s) == true
  {
  }

  lemma ReachesNext(states: seq<State>, steps: seq<Step>, s: State, step: Step, t: State)
    requires IsRun(states, steps) && states[|steps|] == s && Enabled(s, step) && t == Apply(s, step)
    ensures Reachable(t) == true
  {
    OneStepLonger(states, steps, step);
    EndsAt(states + [t], steps + [step], t);
  }

  lemma Next(s: State, step: Step) returns (t: State)
    requires Reachable(s) && Enabled(s, step)
    ensures t == Apply(s, step) && Reachable(t) == true
  {
    var states: seq<State>, steps: seq<Step> :| IsRun(states, steps) && states[|steps|] == s;
    t := Apply(s, step);
    ReachesNext(states, steps, s, step, t);
  }

  // ----- Two flash schedules at nine o'clock -----

  const FLASH_CONTENT := Content(1, FLASH, READY, None, None)

  lemma TenOClock()
    ensures IsValidTime("10:00") && ToMinutes("10:00") == 600
  {
    assert "10:00"[..2] == "10" && "10:00"[3..] == "00";
    TwoDigits("10");
    TwoDigits("00");
  }

  // A request for a flash schedule of content 1 on display 1.
  function FlashDraft(day: Date, start: Time, end: Time): Draft {
    Draft(ForFlash, None, Some(1), 1, day, day, start, end)
  }

  function FlashWindow(day: Date, start: Time, end: Time): Window {
    Window(OnContent(1), 1, day, day, start, end)
  }

  lemma FlashIsAdmitted(s: Store, now: Instant, day: Date, start: Time, end: Time)
    requires 1 in s.contents && s.contents[1] == FLASH_CONTENT && 1 in s.displays
    requires ToMinutes(start) < ToMinutes(end) && Moment(now.date, now.time) <= Moment(day, start)
    requires !HasConflict(s, FlashWindow(day, start, end), None)
    ensures AdmissionFailure(s, now, FlashDraft(day, start, end), Some(1), None).None?
  {
    DatesCompareAsNumbers(day, day);
    TimesCompareAsMinutes(start, end);
  }

  lemma FlashIsPlanned(s: State, day: Date, start: Time, end: Time, id: ScheduleId) returns (t: State)
    requires Reachable(s) && id !in s.store.schedules
    requires 1 in s.store.contents && s.store.contents[1] == FLASH_CONTENT && 1 in s.store.displays
    requires ToMinutes(start) < ToMinutes(end) && Moment(s.now.date, s.now.time) <= Moment(day, start)
    requires !HasConflict(s.store, FlashWindow(day, start, end), None)
    ensures Reachable(t) && t == State(Put(s.store, id, Schedule(FlashWindow(day, start, end), 1)), s.now)
  {
    FlashIsAdmitted(s.store, s.now, day, start, end);
    t := Next(s, Plan(true, Some(1), false, FlashDraft(day, start, end), id));
  }

  lemma EightAndNineDoNotOverlap(eight: Time, nine: Time, ten: Time)
    requires eight == "08:00" && nine == "09:00" && ten == "10:00"
    ensures !HasTimeRangeOverlap(nine, ten, eight, nine)
  {
    Hours();
    TenOClock();
    OverlapMeansSharedSecond(nine, ten, eight, nine);
  }

  lemma Prepared(day: Date, eight: Time) returns (s: State)
    ensures Reachable(s) && s == State(Store(map[1 := FLASH_CONTENT], map[], map[], {1}), Instant(day, eight))
  {
    Start(Instant(day, eight));
    s := Next(State(EMPTY, Instant(day, eight)), AddContent(1, FLASH_CONTENT));
    s := Next(s, AddDisplay(1));
    assert s.store.contents == map[1 := FLASH_CONTENT] && s.store.displays == {1};
  }

  lemma BothPlanned(day: Date, eight: Time, nine: Time, ten: Time) returns (s: State)
    requires eight == "08:00" && nine == "09:00" && ten == "10:00"
    ensures Reachable(s)
    ensures s.store.schedules == map[1 := Schedule(FlashWindow(day, eight, nine), 1), 2 := Schedule(FlashWindow(day, nine, ten), 1)]
  {
    Hours();
    TenOClock();
    s := Prepared(day, eight);
    s := FlashIsPlanned(s, day, eight, nine, 1);
    EightAndNineDoNotOverlap(eight, nine, ten);
    s := FlashIsPlanned(s, day, nine, ten, 2);
  }

  lemma BothPlay(day: Date, eight: Time, nine: Time, ten: Time)
    requires eight == "08:00" && nine == "09:00" && ten == "10:00"
    ensures Plays(FlashWindow(day, eight, nine), Instant(day, nine)) && Plays(FlashWindow(day, nine, ten), Instant(day, nine))
  {
    Hours();
    TenOClock();
    DatesCompareAsNumbers(day, day);
  }

  lemma TheTexts() returns (day: Date, eight: Time, nine: Time, ten: Time)
    ensures day == "2025-02-28" && eight == "08:00" && nine == "09:00" && ten == "10:00"
  {
    February2025();
    Hours();
    TenOClock();
    day, eight, nine, ten := "2025-02-28", "08:00", "09:00", "10:00";
  }

  /** A reachable state in which two flash schedules of one display both play: one until nine, the other from nine. */
  lemma TwoFlashesAtNine() returns (s: State, at: Instant)
    ensures Reachable(s) && 1 in s.store.schedules && 2 in s.store.schedules
    ensures var v, w := s.store.schedules[1].window, s.store.schedules[2].window;
            v.target.OnContent? && w.target.OnContent? && v.displayId == w.displayId && Plays(v, at) && Plays(w, at)
  {
    var day, eight, nine, ten := TheTexts();
    s := BothPlanned(day, eight, nine, ten);
    at := Instant(day, nine);
    BothPlay(day, eight, nine, ten);
  }

  // ----- A playlist without items -----

  /** From the empty database: an item naming no content is refused, and the deletion of the new playlist fails. */
  lemma HuskIsLeft(now: Instant) returns (s: State, step: Step)
    ensures Reachable(s) && Enabled(s, step) && LeavesHusk(s.store, step)
    ensures 1 in Apply(s, step).store.playlists && Apply(s, step).store.playlists[1].items == []
  {
    Start(now);
    s := State(EMPTY, now);
    var entry := New(5, 10.0, false, 1);
    step := MakePlaylist({1}, 1, None, 1, [entry], true);
    assert EntryTotal([entry][..0]) == 0;
    assert ReferenceFailure([entry][..0], []) == None;
    assert FindContent(s.store, ContentOf([entry][0], []), None).None?;
  }
}
