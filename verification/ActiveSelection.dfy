/** Which of a display's schedules a player shows at an instant. */
module ActiveSelection {
  import opened Options
  import opened ScheduleWindows
  import opened Library
  import opened LibraryRuns

  function Filter<T(!new)>(rows: seq<T>, keep: T -> bool): (r: seq<T>)
    ensures forall x :: x in r <==> x in rows && keep(x)
  {
    if rows == [] then [] else (if keep(rows[0]) then [rows[0]] else []) + Filter(rows[1..], keep)
  }

  predicate IsFlash(s: Store, id: ScheduleId) {
    id in s.schedules && s.schedules[id].window.target.OnContent?
  }

  function OfKind(s: Store, flash: bool): ScheduleId -> bool {
    (id: ScheduleId) => id in s.schedules && s.schedules[id].window.target.OnContent? == flash
  }

  function OnDay(s: Store, day: Date): ScheduleId -> bool {
    (id: ScheduleId) =>
      id in s.schedules && IsWithinDateWindow(day, s.schedules[id].window.startDate, s.schedules[id].window.endDate)
  }

  function InTime(s: Store, time: Time): ScheduleId -> bool {
    (id: ScheduleId) =>
      id in s.schedules && IsWithinTimeWindow(time, s.schedules[id].window.startTime, s.schedules[id].window.endTime)
  }

  // By kind, then by date, then by time of day; `rows` are the ids of a display's schedules as the database lists them.
  function SelectActiveSchedulesByKind(s: Store, rows: seq<ScheduleId>, flash: bool, at: Instant): seq<ScheduleId> {
    Filter(Filter(Filter(rows, OfKind(s, flash)), OnDay(s, at.date)), InTime(s, at.time))
  }

  function SelectActiveScheduleByKind(s: Store, rows: seq<ScheduleId>, flash: bool, at: Instant): Option<ScheduleId> {
    var selected := SelectActiveSchedulesByKind(s, rows, flash, at);
    if selected == [] then None else Some(selected[0])
  }

  // The schedule is of the kind and plays.
  predicate Shown(s: Store, id: ScheduleId, flash: bool, at: Instant) {
    && id in s.schedules && (s.schedules[id].window.target.OnContent? <==> flash)
    && IsWithinDateWindow(at.date, s.schedules[id].window.startDate, s.schedules[id].window.endDate)
    && IsWithinTimeWindow(at.time, s.schedules[id].window.startTime, s.schedules[id].window.endTime)
  }

  lemma FilterOne<T(!new)>(first: T, rest: seq<T>, keep: T -> bool)
    ensures Filter([first] + rest, keep) == (if keep(first) then [first] else []) + Filter(rest, keep)
  {
    assert ([first] + rest)[1..] == rest;
  }

  lemma {:induction false} FilterTwice<T(!new)>(rows: seq<T>, first: T -> bool, second: T -> bool, both: T -> bool)
    requires forall x :: both(x) <==> first(x) && second(x)
    ensures Filter(Filter(rows, first), second) == Filter(rows, both)
  {
    if rows != [] {
      FilterTwice(rows[1..], first, second, both);
      assert both(rows[0]) <==> first(rows[0]) && second(rows[0]);
      if first(rows[0]) {
        FilterOne(rows[0], Filter(rows[1..], first), second);
      } else {
        assert Filter(rows, first) == Filter(rows[1..], first);
      }
    }
  }

  // Filtering keeps the rows at these positions, in their order.
  ghost predicate KeepsAt<T(!new)>(rows: seq<T>, keep: T -> bool, kept: seq<T>, at: seq<nat>) {
    && |at| == |kept| && (forall i, j :: 0 <= i < j < |at| ==> at[i] < at[j])
    && (forall i :: 0 <= i < |at| ==> at[i] < |rows| && kept[i] == rows[at[i]])
    && forall j :: 0 <= j < |rows| ==> (keep(rows[j]) <==> j in at)
  }

  lemma KeepsOneMore<T(!new)>(rows: seq<T>, last: T, keep: T -> bool, kept: seq<T>, at: seq<nat>)
    requires KeepsAt(rows, keep, kept, at)
    ensures if keep(last) then KeepsAt(rows + [last], keep, kept + [last], at + [|rows|]) else KeepsAt(rows + [last], keep, kept, at)
  {
    var more := rows + [last];
    forall j | 0 <= j < |more|
      ensures keep(more[j]) <==> j in if keep(last) then at + [|rows|] else at
    {
      if j < |rows| {
        assert more[j] == rows[j];
      }
    }
  }

  lemma {:induction false} FilterKeepsOrder<T(!new)>(rows: seq<T>, keep: T -> bool) returns (at: seq<nat>)
    ensures KeepsAt(rows, keep, Filter(rows, keep), at) == true
  {
    at := [];
    if rows != [] {
      var before, last := rows[..|rows| - 1], rows[|rows| - 1];
      assert rows == before + [last];
      at := FilterKeepsOrder(before, keep);
      FilterParts(before, [last], keep);
      FilterOne(last, [], keep);
      assert [last] + [] == [last];
      KeepsOneMore(before, last, keep, Filter(before, keep), at);
      at := if keep(last) then at + [|before|] else at;
    }
  }

  lemma {:induction false} FilterParts<T(!new)>(a: seq<T>, b: seq<T>, keep: T -> bool)
    ensures Filter(a + b, keep) == Filter(a, keep) + Filter(b, keep)
  {
    if a == [] {
      assert a + b == b;
    } else {
      assert (a + b)[1..] == a[1..] + b;
      FilterParts(a[1..], b, keep);
    }
  }

  function ShownAt(s: Store, flash: bool, at: Instant): ScheduleId -> bool {
    (id: ScheduleId) => Shown(s, id, flash, at)
  }

  lemma SelectionIsOneFilter(s: Store, rows: seq<ScheduleId>, flash: bool, at: Instant)
    ensures SelectActiveSchedulesByKind(s, rows, flash, at) == Filter(rows, ShownAt(s, flash, at))
  {
    var both := (id: ScheduleId) => OfKind(s, flash)(id) && OnDay(s, at.date)(id);
    FilterTwice(rows, OfKind(s, flash), OnDay(s, at.date), both);
    FilterTwice(rows, both, InTime(s, at.time), ShownAt(s, flash, at));
  }

  /** What is selected are the schedules of the kind that play, each as often and in the order the rows have them. */
  lemma SelectedInOrder(s: Store, rows: seq<ScheduleId>, flash: bool, at: Instant) returns (positions: seq<nat>)
    ensures KeepsAt(rows, ShownAt(s, flash, at), SelectActiveSchedulesByKind(s, rows, flash, at), positions)
  {
    SelectionIsOneFilter(s, rows, flash, at);
    positions := FilterKeepsOrder(rows, ShownAt(s, flash, at));
  }

  /** The one picked is the first of the rows that is of the kind and plays; none is picked exactly if none plays. */
  lemma PickedIsFirst(s: Store, rows: seq<ScheduleId>, flash: bool, at: Instant)
    ensures var picked := SelectActiveScheduleByKind(s, rows, flash, at);
            if picked == None then forall i :: 0 <= i < |rows| ==> !Shown(s, rows[i], flash, at)
            else exists i :: 0 <= i < |rows| && rows[i] == picked.value && Shown(s, rows[i], flash, at)
                             && forall j :: 0 <= j < i ==> !Shown(s, rows[j], flash, at)
  {
    var positions := SelectedInOrder(s, rows, flash, at);
    if positions != [] {
      var i := positions[0];
      forall j | 0 <= j < i
        ensures !Shown(s, rows[j], flash, at)
      {
        assert j !in positions;
      }
      assert i in positions && Shown(s, rows[i], flash, at);
    }
  }

  /** The three filters together select exactly the schedules of the kind that play at the instant. */
  lemma SelectionIsExact(s: Store, rows: seq<ScheduleId>, flash: bool, at: Instant, id: ScheduleId)
    ensures id in SelectActiveSchedulesByKind(s, rows, flash, at) <==>
              id in rows && id in s.schedules
              && s.schedules[id].window.target.OnContent? == flash && Plays(s.schedules[id].window, at)
  {
  }

  // Two of the flash schedules meet in the minute, one ending and the other starting.
  predicate SomeMeet(s: Store, rows: seq<ScheduleId>, at: Instant) {
    exists a, b :: a in rows && b in rows && a != b && IsFlash(s, a) && IsFlash(s, b)
                   && MeetAt(s.schedules[a].window, s.schedules[b].window, at)
  }

  // The schedule picked plays, and no other flash schedule does.
  predicate OnlyPickedPlays(s: Store, rows: seq<ScheduleId>, at: Instant) {
    forall id :: id in rows && IsFlash(s, id) ==>
      (Plays(s.schedules[id].window, at) <==> SelectActiveScheduleByKind(s, rows, true, at) == Some(id))
  }

  // One that plays is picked if any does; so if no two do, it is the only one.
  lemma PickedIsOnlyOne(s: Store, rows: seq<ScheduleId>, at: Instant)
    requires forall a, b :: a in rows && b in rows && a != b && IsFlash(s, a) && IsFlash(s, b) ==>
               (Plays(s.schedules[a].window, at) && Plays(s.schedules[b].window, at) <==>
                MeetAt(s.schedules[a].window, s.schedules[b].window, at))
    ensures OnlyPickedPlays(s, rows, at) <==> !SomeMeet(s, rows, at)
  {
    var picked := SelectActiveScheduleByKind(s, rows, true, at);
    forall id | id in rows && IsFlash(s, id)
      ensures picked == Some(id) ==> Plays(s.schedules[id].window, at)
      ensures Plays(s.schedules[id].window, at) ==> picked.Some?
    {
      SelectionIsExact(s, rows, true, at, id);
    }
    if picked.Some? {
      SelectionIsExact(s, rows, true, at, picked.value);
    }
  }

  /**
   * Over every run: the one flash schedule a player picks for a display is the only one that plays, exactly when no
   * two of the display's flash schedules meet in this minute, one ending and the other starting.
   */
  lemma PickedFlashIsTheOnlyOne(
    states: seq<State>, steps: seq<Step>, n: nat, display: DisplayId, rows: seq<ScheduleId>, at: Instant)
    requires IsRun(states, steps) && n < |states|
    requires forall id :: id in rows <==> id in states[n].store.schedules && states[n].store.schedules[id].window.displayId == display
    ensures OnlyPickedPlays(states[n].store, rows, at) <==> !SomeMeet(states[n].store, rows, at)
  {
    var s := states[n].store;
    forall a, b | a in rows && b in rows && a != b && IsFlash(s, a) && IsFlash(s, b)
      ensures Plays(s.schedules[a].window, at) && Plays(s.schedules[b].window, at) <==>
                MeetAt(s.schedules[a].window, s.schedules[b].window, at)
    {
      FlashesMeetExactlyAtHandover(states, steps, n, a, b, at);
    }
    PickedIsOnlyOne(s, rows, at);
  }
}
