/**
 * Schedule windows as the program keeps them: dates "YYYY-MM-DD" and times "HH:MM" as text, compared as text.
 * The text comparisons, the minutes of the playback test, the seconds of the conflict test and the "finished" test
 * are all related to one another here.
 */
module ScheduleWindows {
  // ----- Text -----

  // Text order as in JavaScript: by code unit, a proper prefix first.
  predicate Less(a: string, b: string) {
    if b == "" then false
    else if a == "" then true
    else a[0] < b[0] || (a[0] == b[0] && Less(a[1..], b[1..]))
  }

  lemma {:induction false} LessOfParts(a: string, a': string, b: string, b': string)
    requires |a| == |b|
    ensures Less(a + a', b + b') <==> Less(a, b) || (a == b && Less(a', b'))
  {
    if a == "" {
      assert a + a' == a' && b + b' == b';
    } else {
      assert (a + a')[1..] == a[1..] + a' && (b + b')[1..] == b[1..] + b';
      LessOfParts(a[1..], a', b[1..], b');
      assert a == b <==> a[0] == b[0] && a[1..] == b[1..];
    }
  }

  predicate IsDigit(c: char) {
    '0' <= c <= '9'
  }

  predicate AllDigits(s: string) {
    forall i :: 0 <= i < |s| ==> IsDigit(s[i])
  }

  function Number(s: string): (n: nat)
    requires AllDigits(s)
  {
    if s == "" then 0 else Number(s[..|s| - 1]) * 10 + (s[|s| - 1] as int - '0' as int)
  }

  lemma {:induction false} DigitsCompareAsNumbers(a: string, b: string)
    requires |a| == |b| && AllDigits(a) && AllDigits(b)
    ensures Less(a, b) <==> Number(a) < Number(b)
    ensures a == b <==> Number(a) == Number(b)
  {
    if a != "" {
      var n := |a| - 1;
      assert a == a[..n] + [a[n]] && b == b[..n] + [b[n]];
      LessOfParts(a[..n], [a[n]], b[..n], [b[n]]);
      DigitsCompareAsNumbers(a[..n], b[..n]);
      assert Less([a[n]], [b[n]]) <==> a[n] < b[n];
      assert a[n] == b[n] <==> a[n] as int == b[n] as int;
    }
  }

  lemma TwoDigits(s: string)
    requires |s| == 2 && AllDigits(s)
    ensures Number(s) == (s[0] as int - '0' as int) * 10 + (s[1] as int - '0' as int)
  {
    assert s[..1][..0] == "";
    assert Number(s[..1]) == Number(s[..1][..0]) * 10 + (s[0] as int - '0' as int);
  }

  // ----- Times and dates -----

  predicate IsValidTime(v: string) {
    && |v| == 5 && v[2] == ':'
    && ((('0' <= v[0] <= '1') && IsDigit(v[1])) || (v[0] == '2' && '0' <= v[1] <= '3'))
    && '0' <= v[3] <= '5' && IsDigit(v[4])
  }

  predicate IsValidDate(v: string) {
    |v| == 10 && v[4] == '-' && v[7] == '-' && AllDigits(v[..4]) && AllDigits(v[5..7]) && AllDigits(v[8..])
  }

  // Rows are written only after validation, so they hold times and dates of these types.
  type Time = v: string | IsValidTime(v) witness "00:00"
  type Date = v: string | IsValidDate(v) witness DEFAULT_START_DATE

  const DEFAULT_START_DATE := "1970-01-01"
  const DEFAULT_END_DATE := "2099-12-31"

  const DAY_SECONDS := 24 * 60 * 60

  datatype Instant = Instant(date: Date, time: Time)

  function ToMinutes(v: string): (m: nat)
    ensures m < 1_440
  {
    if IsValidTime(v) then
      TwoDigits(v[..2]);
      TwoDigits(v[3..]);
      Number(v[..2]) * 60 + Number(v[3..])
    else 0
  }

  /** Comparing two times as text is comparing their minutes. */
  lemma TimesCompareAsMinutes(a: Time, b: Time)
    ensures Less(a, b) <==> ToMinutes(a) < ToMinutes(b)
    ensures a == b <==> ToMinutes(a) == ToMinutes(b)
  {
    assert a == a[..2] + (":" + a[3..]) && b == b[..2] + (":" + b[3..]);
    LessOfParts(a[..2], ":" + a[3..], b[..2], ":" + b[3..]);
    LessOfParts(":", a[3..], ":", b[3..]);
    DigitsCompareAsNumbers(a[..2], b[..2]);
    DigitsCompareAsNumbers(a[3..], b[3..]);
    TwoDigits(a[3..]);
    TwoDigits(b[3..]);
  }

  // The date read as the number YYYYMMDD.
  function DateNumber(d: Date): nat {
    Number(d[..4]) * 10_000 + Number(d[5..7]) * 100 + Number(d[8..])
  }

  lemma DatesCompareAsNumbers(a: Date, b: Date)
    ensures Less(a, b) <==> DateNumber(a) < DateNumber(b)
    ensures a == b <==> DateNumber(a) == DateNumber(b)
  {
    assert a == a[..4] + ("-" + (a[5..7] + ("-" + a[8..]))) && b == b[..4] + ("-" + (b[5..7] + ("-" + b[8..])));
    LessOfParts(a[..4], "-" + (a[5..7] + ("-" + a[8..])), b[..4], "-" + (b[5..7] + ("-" + b[8..])));
    LessOfParts("-", a[5..7] + ("-" + a[8..]), "-", b[5..7] + ("-" + b[8..]));
    LessOfParts(a[5..7], "-" + a[8..], b[5..7], "-" + b[8..]);
    LessOfParts("-", a[8..], "-", b[8..]);
    DigitsCompareAsNumbers(a[..4], b[..4]);
    DigitsCompareAsNumbers(a[5..7], b[5..7]);
    DigitsCompareAsNumbers(a[8..], b[8..]);
    TwoDigits(a[5..7]);
    TwoDigits(b[5..7]);
    TwoDigits(a[8..]);
    TwoDigits(b[8..]);
  }

  // Two digits of a number.
  function Padded(n: nat): string
    requires n < 100
  {
    [(n / 10 + '0' as int) as char, (n % 10 + '0' as int) as char]
  }

  lemma PaddedReads(n: nat)
    requires n < 100
    ensures AllDigits(Padded(n)) && Number(Padded(n)) == n
  {
    TwoDigits(Padded(n));
  }

  lemma ReadsPadded(s: string)
    requires |s| == 2 && AllDigits(s)
    ensures Number(s) < 100 && s == Padded(Number(s))
  {
    TwoDigits(s);
    DigitsCompareAsNumbers(s, Padded(Number(s)));
  }

  /** The valid times are those from 00:00 to 23:59, and each is read as its minutes. */
  lemma ValidTimesAre(v: string)
    ensures IsValidTime(v) <==> exists h: nat, m: nat :: h < 24 && m < 60 && v == Padded(h) + ":" + Padded(m)
    ensures forall h: nat, m: nat :: h < 24 && m < 60 && v == Padded(h) + ":" + Padded(m) ==> ToMinutes(v) == h * 60 + m
  {
    if IsValidTime(v) {
      ReadsPadded(v[..2]);
      ReadsPadded(v[3..]);
      TwoDigits(v[..2]);
      TwoDigits(v[3..]);
      assert v == v[..2] + ":" + v[3..];
      assert v == Padded(Number(v[..2])) + ":" + Padded(Number(v[3..]));
    }
    forall h: nat, m: nat | h < 24 && m < 60 && v == Padded(h) + ":" + Padded(m)
      ensures IsValidTime(v) && ToMinutes(v) == h * 60 + m
    {
      assert v[..2] == Padded(h) && v[3..] == Padded(m);
      PaddedReads(h);
      PaddedReads(m);
    }
  }

  /** The valid dates are four digits, a dash, two digits, a dash and two digits. */
  lemma ValidDatesAre(v: string)
    ensures IsValidDate(v) <==>
              |v| == 10 && forall i :: 0 <= i < 10 ==> if i == 4 || i == 7 then v[i] == '-' else '0' <= v[i] <= '9'
  {
    if |v| == 10 {
      assert forall i :: 0 <= i < 4 ==> v[..4][i] == v[i];
      assert forall i :: 5 <= i < 7 ==> v[5..7][i - 5] == v[i];
      assert forall i :: 8 <= i < 10 ==> v[8..][i - 8] == v[i];
    }
  }

  // One number for a date and a time, in their order.
  function Moment(date: Date, time: Time): nat {
    DateNumber(date) * 1_440 + ToMinutes(time)
  }

  lemma MomentOrder(d: nat, m: nat, d': nat, m': nat)
    requires m < 1_440 && m' < 1_440
    ensures d * 1_440 + m < d' * 1_440 + m' <==> d < d' || (d == d' && m < m')
  {
  }

  predicate NotBefore(later: Instant, earlier: Instant) {
    Moment(earlier.date, earlier.time) <= Moment(later.date, later.time)
  }

  predicate StartsInPast(startDate: Date, startTime: Time, now: Instant) {
    Less(startDate + "T" + startTime, now.date + "T" + now.time)
  }

  lemma StartsInPastMeaning(startDate: Date, startTime: Time, now: Instant)
    ensures StartsInPast(startDate, startTime, now) <==> Moment(startDate, startTime) < Moment(now.date, now.time)
  {
    LessOfParts(startDate + "T", startTime, now.date + "T", now.time);
    LessOfParts(startDate, "T", now.date, "T");
    DatesCompareAsNumbers(startDate, now.date);
    TimesCompareAsMinutes(startTime, now.time);
    assert startDate + "T" == now.date + "T" <==> startDate == now.date by {
      assert (startDate + "T")[..10] == startDate && (now.date + "T")[..10] == now.date;
    }
  }

  // ----- The conflict test: half-open segments of a day, in seconds -----

  function ParseTimeToSeconds(t: Time): (sec: nat)
    ensures sec == ToMinutes(t) * 60 && sec < DAY_SECONDS
  {
    TwoDigits(t[..2]);
    TwoDigits(t[3..]);
    Number(t[..2]) * 3600 + Number(t[3..]) * 60
  }

  function ComputeWindowDurationSeconds(startTime: Time, endTime: Time): nat {
    var start, end := ParseTimeToSeconds(startTime), ParseTimeToSeconds(endTime);
    if end > start then end - start
    else if end < start then DAY_SECONDS - start + end
    else 0
  }

  function ToDailyTimeSegments(startTime: Time, endTime: Time): seq<(nat, nat)> {
    var start, end := ParseTimeToSeconds(startTime), ParseTimeToSeconds(endTime);
    if start == end then []
    else if start < end then [(start, end)]
    else [(start, DAY_SECONDS), (0, end)]
  }

  predicate HasTimeRangeOverlap(startA: Time, endA: Time, startB: Time, endB: Time) {
    var left, right := ToDailyTimeSegments(startA, endA), ToDailyTimeSegments(startB, endB);
    exists i, j :: 0 <= i < |left| && 0 <= j < |right| && left[i].0 < right[j].1 && right[j].0 < left[i].1
  }

  predicate HasDateRangeOverlap(startA: Date, endA: Date, startB: Date, endB: Date) {
    !Less(endB, startA) && !Less(endA, startB)
  }

  // The daily window as a set of seconds: its end excluded, wrapping past midnight when it ends before it starts.
  predicate Covers(startTime: Time, endTime: Time, second: nat) {
    var start, end := ToMinutes(startTime) * 60, ToMinutes(endTime) * 60;
    second < DAY_SECONDS &&
    if start <= end then start <= second < end else start <= second || second < end
  }

  lemma SegmentsCover(startTime: Time, endTime: Time, second: nat)
    requires second < DAY_SECONDS
    ensures var segments := ToDailyTimeSegments(startTime, endTime);
            Covers(startTime, endTime, second) <==>
              exists i :: 0 <= i < |segments| && segments[i].0 <= second < segments[i].1
  {
    var segments := ToDailyTimeSegments(startTime, endTime);
    if Covers(startTime, endTime, second) {
      var i := if segments[0].0 <= second < segments[0].1 then 0 else 1;
      assert segments[i].0 <= second < segments[i].1;
    }
  }

  /** Two daily windows overlap exactly when some second of the day lies in both, midnight wrap included. */
  lemma OverlapMeansSharedSecond(startA: Time, endA: Time, startB: Time, endB: Time)
    ensures HasTimeRangeOverlap(startA, endA, startB, endB) <==>
              exists second :: Covers(startA, endA, second) && Covers(startB, endB, second)
  {
    var left, right := ToDailyTimeSegments(startA, endA), ToDailyTimeSegments(startB, endB);
    if HasTimeRangeOverlap(startA, endA, startB, endB) {
      var i, j :| 0 <= i < |left| && 0 <= j < |right| && left[i].0 < right[j].1 && right[j].0 < left[i].1;
      var second := if left[i].0 >= right[j].0 then left[i].0 else right[j].0;
      SegmentsCover(startA, endA, second);
      SegmentsCover(startB, endB, second);
      assert Covers(startA, endA, second) && Covers(startB, endB, second);
    }
    if second :| Covers(startA, endA, second) && Covers(startB, endB, second) {
      SegmentsCover(startA, endA, second);
      SegmentsCover(startB, endB, second);
    }
  }

  /** Date ranges overlap exactly when some date lies in both, both ends included. */
  lemma DateOverlapMeansSharedDate(startA: Date, endA: Date, startB: Date, endB: Date)
    requires !Less(endA, startA) && !Less(endB, startB)
    ensures HasDateRangeOverlap(startA, endA, startB, endB) <==>
              exists d: Date :: IsWithinDateWindow(d, startA, endA) && IsWithinDateWindow(d, startB, endB)
  {
    DatesCompareAsNumbers(endB, startA);
    DatesCompareAsNumbers(endA, startB);
    DatesCompareAsNumbers(endA, startA);
    DatesCompareAsNumbers(endB, startB);
    DatesCompareAsNumbers(startA, startB);
    DatesCompareAsNumbers(startB, startA);
    DatesCompareAsNumbers(startA, startA);
    DatesCompareAsNumbers(startB, startB);
    if HasDateRangeOverlap(startA, endA, startB, endB) {
      var d := if Less(startA, startB) then startB else startA;
      assert IsWithinDateWindow(d, startA, endA) && IsWithinDateWindow(d, startB, endB);
    }
    if d: Date :| IsWithinDateWindow(d, startA, endA) && IsWithinDateWindow(d, startB, endB) {
      DatesCompareAsNumbers(d, startA);
      DatesCompareAsNumbers(endA, d);
      DatesCompareAsNumbers(d, startB);
      DatesCompareAsNumbers(endB, d);
    }
  }

  // ----- The playback test: minutes of a day, the end minute included -----

  predicate IsWithinTimeWindow(current: string, start: string, end: string) {
    IsValidTime(current) && IsValidTime(start) && IsValidTime(end) &&
    var c, s, e := ToMinutes(current), ToMinutes(start), ToMinutes(end);
    if s == e then false
    else if s < e then s <= c <= e
    else s <= c || c <= e
  }

  predicate IsWithinDateWindow(current: string, start: string, end: string) {
    IsValidDate(current) && IsValidDate(start) && IsValidDate(end) && !Less(current, start) && !Less(end, current)
  }

  /** Counted from the start of the window and around midnight, a minute is played up to and including the end. */
  lemma PlayedMinutesAre(now: Time, start: Time, end: Time)
    ensures var c, s, e := ToMinutes(now), ToMinutes(start), ToMinutes(end);
            IsWithinTimeWindow(now, start, end) <==> s != e && (c - s) % 1_440 <= (e - s) % 1_440
  {
    CountedFrom(ToMinutes(now), ToMinutes(start), 1_440);
    CountedFrom(ToMinutes(end), ToMinutes(start), 1_440);
  }

  /** A second counts for conflicts, by the same measure, before the end. */
  lemma CoveredSecondsAre(start: Time, end: Time, second: nat)
    ensures var s, e := ToMinutes(start) * 60, ToMinutes(end) * 60;
            Covers(start, end, second) <==> second < 86_400 && (second - s) % 86_400 < (e - s) % 86_400
  {
    if second < 86_400 {
      CountedFrom(second, ToMinutes(start) * 60, 86_400);
    }
    CountedFrom(ToMinutes(end) * 60, ToMinutes(start) * 60, 86_400);
  }

  lemma CountedFrom(x: nat, from: nat, day: nat)
    requires x < day && from < day
    ensures (x - from) % day == if x >= from then x - from else x - from + day
  {
    if x < from {
      assert (x - from) % day == (x - from + day) % day;
    }
  }

  /** The window lasts from its start to its end, around midnight if need be. */
  lemma WindowLasts(start: Time, end: Time)
    ensures ComputeWindowDurationSeconds(start, end) == (ToMinutes(end) - ToMinutes(start)) % 1_440 * 60
  {
    CountedFrom(ToMinutes(end), ToMinutes(start), 1_440);
  }

  /** A day is played from the first date to the last, both included. */
  lemma PlayedDaysAre(day: Date, start: Date, end: Date)
    ensures IsWithinDateWindow(day, start, end) <==> DateNumber(start) <= DateNumber(day) <= DateNumber(end)
  {
    DatesCompareAsNumbers(day, start);
    DatesCompareAsNumbers(end, day);
  }

  // The minute ends one window and starts the other.
  predicate IsHandover(startA: Time, endA: Time, startB: Time, endB: Time, now: Time) {
    (now == endA && now == startB) || (now == endB && now == startA)
  }

  /**
   * Where the two tests differ: windows that share no second are both played in a minute exactly when that minute
   * ends one of them and starts the other.
   */
  lemma HandoverMinute(startA: Time, endA: Time, startB: Time, endB: Time, now: Time)
    requires !HasTimeRangeOverlap(startA, endA, startB, endB) && startA != endA && startB != endB
    ensures IsWithinTimeWindow(now, startA, endA) && IsWithinTimeWindow(now, startB, endB) <==>
              IsHandover(startA, endA, startB, endB, now)
  {
    OverlapMeansSharedSecond(startA, endA, startB, endB);
    var at := ToMinutes(now) * 60;
    var before := if at == 0 then DAY_SECONDS - 1 else at - 1;
    assert !(Covers(startA, endA, at) && Covers(startB, endB, at));
    assert !(Covers(startA, endA, before) && Covers(startB, endB, before));
    TimesCompareAsMinutes(now, endA);
    TimesCompareAsMinutes(now, endB);
    TimesCompareAsMinutes(now, startA);
    TimesCompareAsMinutes(now, startB);
    TimesCompareAsMinutes(startA, endA);
    TimesCompareAsMinutes(startB, endB);
  }

  // ----- Finished -----

  predicate IsScheduleFinished(endDate: Date, endTime: Time, current: Instant) {
    if Less(endDate, current.date) then true
    else if Less(current.date, endDate) then false
    else Less(endTime, current.time)
  }

  lemma FinishedMeaning(endDate: Date, endTime: Time, current: Instant)
    ensures IsScheduleFinished(endDate, endTime, current) <==> Moment(endDate, endTime) < Moment(current.date, current.time)
  {
    DatesCompareAsNumbers(endDate, current.date);
    DatesCompareAsNumbers(current.date, endDate);
    TimesCompareAsMinutes(endTime, current.time);
    MomentOrder(DateNumber(endDate), ToMinutes(endTime), DateNumber(current.date), ToMinutes(current.time));
  }

  /** Once finished, finished at every later instant. */
  lemma FinishedIsPermanent(endDate: Date, endTime: Time, now: Instant, later: Instant)
    requires IsScheduleFinished(endDate, endTime, now) && NotBefore(later, now)
    ensures IsScheduleFinished(endDate, endTime, later)
  {
    FinishedMeaning(endDate, endTime, now);
    FinishedMeaning(endDate, endTime, later);
  }

  // What create and update admit.
  predicate IsAdmitted(startDate: Date, endDate: Date, startTime: Time, endTime: Time) {
    !Less(endDate, startDate) && Less(startTime, endTime)
  }

  predicate IsActiveAt(startDate: Date, endDate: Date, startTime: Time, endTime: Time, at: Instant) {
    IsWithinDateWindow(at.date, startDate, endDate) && IsWithinTimeWindow(at.time, startTime, endTime)
  }

  /** A finished schedule is never active again, at any instant whatever. */
  lemma FinishedNeverPlays(
    startDate: Date, endDate: Date, startTime: Time, endTime: Time, now: Instant, later: Instant)
    requires IsAdmitted(startDate, endDate, startTime, endTime)
    requires IsScheduleFinished(endDate, endTime, now) && NotBefore(later, now)
    ensures !IsActiveAt(startDate, endDate, startTime, endTime, later)
  {
    FinishedIsPermanent(endDate, endTime, now, later);
    DatesCompareAsNumbers(endDate, later.date);
    DatesCompareAsNumbers(later.date, endDate);
    TimesCompareAsMinutes(endTime, later.time);
    TimesCompareAsMinutes(startTime, endTime);
  }

  // A day of the schedule is left on which its end time has not passed. `days` are the days the clock can show.
  ghost predicate DayLeft(startDate: Date, endDate: Date, endTime: Time, now: Instant, days: iset<Date>) {
    exists d: Date :: d in days && IsWithinDateWindow(d, startDate, endDate)
                      && Moment(now.date, now.time) <= Moment(d, endTime)
  }

  /** An admitted schedule will be active at some instant from now on exactly when a day of it is left. */
  lemma PlaysAgainExactly(
    startDate: Date, endDate: Date, startTime: Time, endTime: Time, now: Instant, days: iset<Date>)
    requires IsAdmitted(startDate, endDate, startTime, endTime)
    ensures (exists later: Instant :: later.date in days && NotBefore(later, now)
                                      && IsActiveAt(startDate, endDate, startTime, endTime, later)) <==>
              DayLeft(startDate, endDate, endTime, now, days)
  {
    TimesCompareAsMinutes(startTime, endTime);
    if later: Instant :| later.date in days && NotBefore(later, now) && IsActiveAt(startDate, endDate, startTime, endTime, later) {
      assert Moment(now.date, now.time) <= Moment(later.date, endTime);
    }
    if DayLeft(startDate, endDate, endTime, now, days) {
      var d :| d in days && IsWithinDateWindow(d, startDate, endDate) && Moment(now.date, now.time) <= Moment(d, endTime);
      var last := Instant(d, endTime);
      assert last.date in days && NotBefore(last, now) && IsActiveAt(startDate, endDate, startTime, endTime, last);
    }
  }

  /** If its last day is one the clock can show, an admitted schedule is finished exactly when it will not be active again. */
  lemma FinishedExactly(
    startDate: Date, endDate: Date, startTime: Time, endTime: Time, now: Instant, days: iset<Date>)
    requires IsAdmitted(startDate, endDate, startTime, endTime) && endDate in days
    ensures IsScheduleFinished(endDate, endTime, now) <==>
              !exists later: Instant :: later.date in days && NotBefore(later, now)
                                        && IsActiveAt(startDate, endDate, startTime, endTime, later)
  {
    PlaysAgainExactly(startDate, endDate, startTime, endTime, now, days);
    FinishedMeaning(endDate, endTime, now);
    if IsScheduleFinished(endDate, endTime, now) {
      forall later: Instant | NotBefore(later, now)
        ensures !IsActiveAt(startDate, endDate, startTime, endTime, later)
      {
        FinishedNeverPlays(startDate, endDate, startTime, endTime, now, later);
      }
    } else {
      DatesCompareAsNumbers(endDate, endDate);
      assert endDate in days && IsWithinDateWindow(endDate, startDate, endDate);
    }
  }

  // The validation lets dates pass that no calendar has.
  predicate IsLeapYear(y: nat) {
    y % 4 == 0 && (y % 100 != 0 || y % 400 == 0)
  }

  predicate IsCalendarDay(d: Date) {
    var y, m, day := Number(d[..4]), Number(d[5..7]), Number(d[8..]);
    1 <= m <= 12 && 1 <= day <=
      if m in {4, 6, 9, 11} then 30 else if m == 2 then if IsLeapYear(y) then 29 else 28 else 31
  }

  lemma FourDigits(s: string)
    requires |s| == 4 && AllDigits(s)
    ensures Number(s) == Number(s[..2]) * 100 + (s[2] as int - '0' as int) * 10 + (s[3] as int - '0' as int)
  {
    assert s[..3][..2] == s[..2];
    assert Number(s[..3]) == Number(s[..2]) * 10 + (s[2] as int - '0' as int);
  }

  lemma EndOfFebruary2025(d: Date)
    requires IsCalendarDay(d) && 20_250_228 <= DateNumber(d) <= 20_250_231
    ensures DateNumber(d) == 20_250_228
  {
    TwoDigits(d[5..7]);
    TwoDigits(d[8..]);
  }

  lemma February2025()
    ensures IsValidDate("2025-02-28") && DateNumber("2025-02-28") == 20_250_228
    ensures IsValidDate("2025-02-31") && DateNumber("2025-02-31") == 20_250_231
  {
    var a, b := "2025-02-28", "2025-02-31";
    assert a[..4] == "2025" && b[..4] == "2025" && a[5..7] == "02" && b[5..7] == "02" && a[8..] == "28" && b[8..] == "31";
    FourDigits("2025");
    assert "2025"[..2] == "20";
    TwoDigits("20");
    TwoDigits("02");
    TwoDigits("28");
    TwoDigits("31");
  }

  lemma Hours()
    ensures IsValidTime("08:00") && ToMinutes("08:00") == 480
    ensures IsValidTime("09:00") && ToMinutes("09:00") == 540
    ensures IsValidTime("20:00") && ToMinutes("20:00") == 1_200
  {
    assert "08:00"[..2] == "08" && "09:00"[..2] == "09" && "20:00"[..2] == "20";
    assert "08:00"[3..] == "00" && "09:00"[3..] == "00" && "20:00"[3..] == "00";
    TwoDigits("08");
    TwoDigits("09");
    TwoDigits("20");
    TwoDigits("00");
  }

  /**
   * The premise on the last day is needed: a schedule admitted for 2025-02-31 counts as unfinished on the evening
   * of February 28, though no calendar day from then on plays it.
   */
  lemma NoSuchDayNeverFinishesInTime(first: Date, last: Date, start: Time, end: Time, now: Instant)
    requires first == "2025-02-28" && last == "2025-02-31" && start == "08:00" && end == "09:00"
    requires now.date == first && now.time == "20:00"
    ensures IsAdmitted(first, last, start, end) && !IsScheduleFinished(last, end, now)
    ensures forall later: Instant :: IsCalendarDay(later.date) && NotBefore(later, now) ==>
              !IsActiveAt(first, last, start, end, later)
  {
    February2025();
    Hours();
    DatesCompareAsNumbers(last, first);
    TimesCompareAsMinutes(start, end);
    FinishedMeaning(last, end, now);
    forall later: Instant | IsCalendarDay(later.date) && NotBefore(later, now)
      ensures !IsActiveAt(first, last, start, end, later)
    {
      DatesCompareAsNumbers(later.date, first);
      DatesCompareAsNumbers(last, later.date);
      if IsWithinDateWindow(later.date, first, last) {
        EndOfFebruary2025(later.date);
      }
    }
  }
}
