/** The opening-hours decision of isRestaurantWorking
    (modules/bot/src/restaurant.py), as a pure function of a weekly schedule,
    the day of the week and the local time of day. */
module Availability {
  import opened Wrappers

  /** A time of day as Python's `datetime.time` holds it. */
  datatype Time = Time(hour: int, minute: int, second: int, micro: int) {

    predicate Valid() {
      0 <= hour < 24 && 0 <= minute < 60 && 0 <= second < 60 && 0 <= micro < 1000000
    }

    /** Microseconds since midnight. */
    function Micros(): int {
      ((hour * 60 + minute) * 60 + second) * 1000000 + micro
    }
  }

  const Midnight: Time := Time(0, 0, 0, 0)
  const EndOfDay: Time := Time(23, 59, 59, 0)

  /** Python's comparison of `time` values: lexicographic on the fields. */
  predicate Less(a: Time, b: Time) {
    || a.hour < b.hour
    || (a.hour == b.hour && a.minute < b.minute)
    || (a.hour == b.hour && a.minute == b.minute && a.second < b.second)
    || (a.hour == b.hour && a.minute == b.minute && a.second == b.second && a.micro < b.micro)
  }

  /** One schedule row: opening and closing time of one day. */
  datatype Hours = Hours(start: Time, end: Time)

  /** day_of_week -> hours; a day that is absent is a closed day. */
  type Schedule = map<int, Hours>

  /** `datetime.weekday()`: Monday = 0 .. Sunday = 6. */
  type Weekday = x: int | 0 <= x <= 6

  /** The local clock at the moment of a decision. */
  datatype Clock = Clock(weekday: Weekday, time: Time)

  /** A closing time of 00:00:00 means the end of the same day. */
  function EffectiveEnd(end: Time): Time {
    if end == Midnight then EndOfDay else end
  }

  /** The schedule numbers days from Monday = 1. */
  function DayOfWeek(weekday: Weekday): (dow: int)
    ensures 1 <= dow <= 7
    ensures dow == 1 <==> weekday == 0
    ensures dow == 7 <==> weekday == 6
  {
    weekday + 1
  }

  /** The decision as the source takes it: no rows at all, or no row for
      today, means closed; otherwise closed when the start is after now or
      the (midnight-adjusted) end is before now. */
  function WorksAt(schedule: Schedule, dow: int, now: Time): (works: bool)
    ensures |schedule| == 0 ==> !works
    ensures dow !in schedule ==> !works
  {
    if |schedule| == 0 then false
    else if dow !in schedule then false
    else
      var start := schedule[dow].start;
      var end := EffectiveEnd(schedule[dow].end);
      !(Less(now, start) || Less(end, now))
  }

  lemma LessIsEarlier(a: Time, b: Time)
    requires a.Valid() && b.Valid()
    ensures Less(a, b) <==> a.Micros() < b.Micros()
  {
  }

  /** On valid times the restaurant works exactly when today has a row and
      start <= now <= end as instants of the day, both bounds inclusive, with
      an end of 00:00 read as 23:59:59. */
  lemma WorksAtWithinHours(schedule: Schedule, dow: int, now: Time)
    requires now.Valid()
    requires forall d :: d in schedule ==> schedule[d].start.Valid() && schedule[d].end.Valid()
    ensures WorksAt(schedule, dow, now) <==>
              && dow in schedule
              && schedule[dow].start.Micros() <= now.Micros()
              && now.Micros() <= EffectiveEnd(schedule[dow].end).Micros()
  {
    if dow in schedule {
      var h := schedule[dow];
      LessIsEarlier(now, h.start);
      LessIsEarlier(EffectiveEnd(h.end), now);
    }
  }

  /** Worked cases of the opening-hours check: Monday-only 09:00-18:00 is
      open on Monday at 12:00 and closed on Tuesday at 12:00 (no row for the
      day); Tuesday 09:00-00:00 is open on Tuesday at 23:30 (00:00 read as
      the end of the day). */
  lemma OpeningHoursExamples()
    ensures var mon := map[1 := Hours(Time(9, 0, 0, 0), Time(18, 0, 0, 0))];
            && WorksAt(mon, DayOfWeek(0), Time(12, 0, 0, 0))
            && !WorksAt(mon, DayOfWeek(1), Time(12, 0, 0, 0))
    ensures var tue := map[2 := Hours(Time(9, 0, 0, 0), Midnight)];
            WorksAt(tue, DayOfWeek(1), Time(23, 30, 0, 0))
  {
  }

  /** Reading 00:00 as 23:59:59 leaves the last fraction of a second of the
      day closed. */
  lemma MidnightReadsAsLastSecond(start: Time, dow: int)
    requires start.Valid() && !Less(EndOfDay, start)
    ensures WorksAt(map[dow := Hours(start, Midnight)], dow, EndOfDay)
    ensures !WorksAt(map[dow := Hours(start, Midnight)], dow, Time(23, 59, 59, 500000))
  {
    var s := map[dow := Hours(start, Midnight)];
    assert dow in s && s[dow].end == Midnight;
  }

  /** Python's `weekday_name[day - 1]` over the seven names: negative
      indices count from the end, anything else out of range raises. */
  function WeekdayName(day: int): (name: Option<string>)
    ensures name.Some? <==> -6 <= day <= 7
  {
    var names := ["Monday", "Tuesday", "Wednesday", "Thursday", "Friday", "Saturday", "Sunday"];
    var i := day - 1;
    if 0 <= i < 7 then Some(names[i])
    else if -7 <= i < 0 then Some(names[i + 7])
    else None
  }

  /** One line of the "closed now" message. */
  datatype DayLine = DayLine(weekday: string, hours: Hours)

  /** The "closed now" message: one line per scheduled day, or None when a
      stored day has no weekday name (the source raises IndexError). */
  function ClosedNotice(schedule: Schedule): (lines: Option<map<int, DayLine>>)
    ensures lines.Some? <==> forall d :: d in schedule ==> -6 <= d <= 7
    ensures lines.Some? ==> lines.value.Keys == schedule.Keys
    ensures lines.Some? ==> forall d :: d in schedule ==> lines.value[d].hours == schedule[d]
  {
    if forall d :: d in schedule ==> WeekdayName(d).Some? then
      Some(map d | d in schedule :: DayLine(WeekdayName(d).value, schedule[d]))
    else None
  }
}
