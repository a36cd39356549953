/** The weekly schedule as a manager types it (modules/bot/src/manage_db.py,
    setRestaurantSchedule and scheduleNewRestaurant): one line per day,
    "day - HH.MM - HH.MM", and the message filter that lets such a message
    through (modules/bot/config.py). */
module ScheduleText {
  import opened Wrappers
  import opened Strings
  import opened Availability

  // ---------------------------------------------------------------------
  // Parsing, as the handlers do it
  // ---------------------------------------------------------------------

  /** The i-th argument of `dt.time(*parts)`, with the default 0. */
  function Arg(parts: seq<int>, i: nat): int {
    if i < |parts| then parts[i] else 0
  }

  /** `dt.time(*parts)`: one to four arguments (hour, minute, second,
      microsecond); more is a TypeError, a value out of range a ValueError. */
  function MakeTime(parts: seq<int>): (t: Option<Time>)
    ensures t.Some? ==> t.value.Valid() && 1 <= |parts| <= 4
    ensures t.Some? ==> forall i :: 0 <= i < |parts| ==> parts[i] == [t.value.hour, t.value.minute, t.value.second, t.value.micro][i]
  {
    if |parts| < 1 || |parts| > 4 then None
    else
      var t := Time(Arg(parts, 0), Arg(parts, 1), Arg(parts, 2), Arg(parts, 3));
      if t.Valid() then Some(t) else None
  }

  /** `[int(x) for x in fields]`: all or nothing. */
  function Ints(fields: seq<string>): (r: Option<seq<int>>)
    ensures r.Some? ==> |r.value| == |fields|
    ensures r.Some? ==> forall i :: 0 <= i < |fields| ==> ParseInt(fields[i]) == Some(r.value[i])
    ensures r.None? ==> exists i :: 0 <= i < |fields| && ParseInt(fields[i]).None?
  {
    if |fields| == 0 then Some([])
    else
      var head, tail := ParseInt(fields[0]), Ints(fields[1..]);
      assert forall i :: 1 <= i < |fields| ==> fields[i] == fields[1..][i - 1];
      if head.Some? && tail.Some? then Some([head.value] + tail.value) else None
  }

  /** `dt.time(*[int(x) for x in field.split('.')])` */
  function ParseTime(field: string): Option<Time> {
    match Ints(Split(field, '.'))
    case Some(parts) => MakeTime(parts)
    case None => None
  }

  /** One parsed line: a day number and its hours. */
  datatype Row = Row(day: int, hours: Hours)

  /** One line: spaces removed, then split on "-" into exactly three fields,
      a day number and two times. */
  function ParseLine(line: string): (r: Option<Row>)
    ensures r.Some? ==> |Split(Remove(line, ' '), '-')| == 3
    ensures r.Some? ==> r.value.hours.start.Valid() && r.value.hours.end.Valid()
  {
    var fields := Split(Remove(line, ' '), '-');
    if |fields| != 3 then None
    else
      match (ParseInt(fields[0]), ParseTime(fields[1]), ParseTime(fields[2]))
      case (Some(day), Some(start), Some(end)) => Some(Row(day, Hours(start, end)))
      case _ => None
  }

  /** Every line parsed, or None at the first line that does not. */
  function Rows(lines: seq<string>): Option<seq<Row>> {
    All(lines, ParseLine)
  }

  /** The rows are there exactly when every line parses, one row per line
      in order. */
  lemma RowsSpec(lines: seq<string>)
    ensures Rows(lines).Some? <==> forall i :: 0 <= i < |lines| ==> ParseLine(lines[i]).Some?
    ensures Rows(lines).Some? ==>
              |Rows(lines).value| == |lines| && forall i :: 0 <= i < |lines| ==> ParseLine(lines[i]) == Some(Rows(lines).value[i])
  {
    AllSpec(lines, ParseLine);
  }

  /** Storing the rows one after another into the dictionary: a later row
      for a day replaces an earlier one. */
  function Collect(rows: seq<Row>, acc: Schedule): Schedule
    decreases |rows|
  {
    if |rows| == 0 then acc else Collect(rows[1..], acc[rows[0].day := rows[0].hours])
  }

  /** Row i is the last one for its day. */
  predicate LastFor(rows: seq<Row>, i: int)
    requires 0 <= i < |rows|
  {
    forall j :: i < j < |rows| ==> rows[j].day != rows[i].day
  }

  /** The collected days are the days of the rows (and those already
      there); each day holds the hours of its last row. */
  lemma {:induction false} CollectSpec(rows: seq<Row>, acc: Schedule)
    ensures forall d :: d in Collect(rows, acc) <==> d in acc || exists i :: 0 <= i < |rows| && rows[i].day == d
    ensures forall i :: 0 <= i < |rows| && LastFor(rows, i) ==> Collect(rows, acc)[rows[i].day] == rows[i].hours
    ensures forall d :: d in acc && (forall i :: 0 <= i < |rows| ==> rows[i].day != d) ==> Collect(rows, acc)[d] == acc[d]
    decreases |rows|
  {
    if |rows| > 0 {
      var next := acc[rows[0].day := rows[0].hours];
      var tail := rows[1..];
      CollectSpec(tail, next);
      assert Collect(rows, acc) == Collect(tail, next);
      forall d | d in Collect(rows, acc)
        ensures d in acc || exists i :: 0 <= i < |rows| && rows[i].day == d
      {
        if d !in acc && d != rows[0].day {
          var i :| 0 <= i < |tail| && tail[i].day == d;
          assert rows[i + 1].day == d;
        }
      }
      forall i | 0 <= i < |rows| ensures rows[i].day in Collect(rows, acc) {
        if i > 0 {
          assert tail[i - 1].day == rows[i].day;
        }
      }
      forall i | 0 <= i < |rows| && LastFor(rows, i)
        ensures Collect(rows, acc)[rows[i].day] == rows[i].hours
      {
        if i == 0 {
          forall j | 0 <= j < |tail| ensures tail[j].day != rows[0].day {
            assert tail[j] == rows[j + 1];
          }
        } else {
          assert tail[i - 1] == rows[i];
          assert LastFor(tail, i - 1) by {
            forall j | i - 1 < j < |tail| ensures tail[j].day != tail[i - 1].day {
              assert tail[j] == rows[j + 1];
            }
          }
        }
      }
      forall d | d in acc && (forall i :: 0 <= i < |rows| ==> rows[i].day != d)
        ensures Collect(rows, acc)[d] == acc[d]
      {
        forall i | 0 <= i < |tail| ensures tail[i].day != d {
          assert tail[i] == rows[i + 1];
        }
      }
    }
  }

  /** The message, line by line, as the handlers parse it. A failure in any
      line is a failure of the whole message. */
  function ParseSchedule(text: string): Option<Schedule> {
    match Rows(Split(text, '\n'))
    case Some(rows) => Some(Collect(rows, map[]))
    case None => None
  }

  /** The parse succeeds exactly when every line parses. */
  lemma ParseScheduleSucceeds(text: string, lines: seq<string>)
    requires lines == Split(text, '\n')
    ensures ParseSchedule(text).Some? <==> forall i :: 0 <= i < |lines| ==> ParseLine(lines[i]).Some?
  {
    RowsSpec(lines);
    assert ParseSchedule(text).Some? <==> Rows(lines).Some?;
  }

  /** A successful parse holds one entry per day number that occurs, with
      the hours of the last line for that day. */
  lemma ParseScheduleSpec(text: string, rows: seq<Row>)
    requires Rows(Split(text, '\n')) == Some(rows)
    ensures ParseSchedule(text).Some?
    ensures forall d :: d in ParseSchedule(text).value <==> exists i :: 0 <= i < |rows| && rows[i].day == d
    ensures forall i :: 0 <= i < |rows| && LastFor(rows, i) ==> ParseSchedule(text).value[rows[i].day] == rows[i].hours
  {
    assert ParseSchedule(text) == Some(Collect(rows, map[]));
    CollectSpec(rows, map[]);
  }

  /** The message the manager is asked for: days 1..7 only. The handlers do
      not check this beyond the first line (see ScheduleFilter); this
      checked parse refuses a message that names any other day. */
  function ParseScheduleChecked(text: string): (s: Option<Schedule>)
    ensures s.Some? ==> forall d :: d in s.value ==> 1 <= d <= 7
    ensures s.Some? ==> ParseSchedule(text) == s
    ensures ParseSchedule(text).Some? && (forall d :: d in ParseSchedule(text).value ==> 1 <= d <= 7) ==> s.Some?
  {
    match ParseSchedule(text)
    case Some(s) => if forall d :: d in s ==> 1 <= d <= 7 then Some(s) else None
    case None => None
  }

  /** The checked parse only yields schedules the customer's "closed now"
      notice can name, day by day. */
  lemma CheckedScheduleHasNames(text: string)
    requires ParseScheduleChecked(text).Some?
    ensures ClosedNotice(ParseScheduleChecked(text).value).Some?
  {
  }

  // ---------------------------------------------------------------------
  // Writing a schedule the way the prompt shows it
  // ---------------------------------------------------------------------

  /** "HH.MM" for a time on the minute. */
  function TimeText(t: Time): string
    requires t.hour >= 0 && t.minute >= 0
  {
    Pad2(t.hour) + "." + Pad2(t.minute)
  }

  /** A time on the minute; the prompt's format has no seconds. */
  predicate OnTheMinute(t: Time) {
    t.Valid() && t.second == 0 && t.micro == 0
  }

  predicate Writable(row: Row) {
    row.day >= 0 && OnTheMinute(row.hours.start) && OnTheMinute(row.hours.end)
  }

  /** "d - HH.MM - HH.MM", as in the prompt's example. */
  function LineText(row: Row): string
    requires Writable(row)
  {
    Digits(row.day) + " - " + TimeText(row.hours.start) + " - " + TimeText(row.hours.end)
  }

  /** The lines of a message. */
  function Lines(rows: seq<Row>): (lines: seq<string>)
    requires forall i :: 0 <= i < |rows| ==> Writable(rows[i])
    ensures |lines| == |rows|
  {
    seq(|rows|, i requires 0 <= i < |rows| => LineText(rows[i]))
  }

  /** The lines joined with newlines. */
  function ScheduleMessage(rows: seq<Row>): string
    requires |rows| >= 1
    requires forall i :: 0 <= i < |rows| ==> Writable(rows[i])
  {
    Join(Lines(rows), '\n')
  }

  lemma DigitsHaveNoMarks(s: string)
    requires AllDigits(s)
    ensures ' ' !in s && '-' !in s && '.' !in s && '\n' !in s
  {
  }

  lemma TimeTextHasNoMarks(t: Time)
    requires OnTheMinute(t)
    ensures ' ' !in TimeText(t) && '-' !in TimeText(t) && '\n' !in TimeText(t)
  {
    DigitsHaveNoMarks(Pad2(t.hour));
    DigitsHaveNoMarks(Pad2(t.minute));
  }

  lemma TimeRoundTrip(t: Time)
    requires OnTheMinute(t)
    ensures ParseTime(TimeText(t)) == Some(t)
  {
    var h, m := Pad2(t.hour), Pad2(t.minute);
    DigitsHaveNoMarks(h);
    DigitsHaveNoMarks(m);
    SplitJoin(h, m, '.');
    assert TimeText(t) == h + ['.'] + m;
    ParsePadded(t.hour);
    ParsePadded(t.minute);
    assert [m][1..] == [];
    assert [t.minute] + [] == [t.minute];
    assert Ints([m]) == Some([t.minute]);
    assert [h, m][1..] == [m];
    assert [t.hour] + [t.minute] == [t.hour, t.minute];
    assert Ints([h, m]) == Some([t.hour, t.minute]);
  }

  /** Removing the spaces of "d - a - b". */
  lemma SpacesDropped(d: string, a: string, b: string)
    requires ' ' !in d && ' ' !in a && ' ' !in b
    ensures Remove(d + " - " + a + " - " + b, ' ') == d + "-" + a + "-" + b
  {
    RemoveConcat(d + " - " + a + " - ", b, ' ');
    RemoveConcat(d + " - " + a, " - ", ' ');
    RemoveConcat(d + " - ", a, ' ');
    RemoveConcat(d, " - ", ' ');
    RemoveAbsent(d, ' ');
    RemoveAbsent(a, ' ');
    RemoveAbsent(b, ' ');
    assert " - "[1..] == "- " && "- "[1..] == " " && " "[1..] == "";
    assert Remove(" - ", ' ') == "-";
  }

  /** Splitting "d-a-b" on "-". */
  lemma FieldsOfLine(d: string, a: string, b: string)
    requires '-' !in d && '-' !in a && '-' !in b
    ensures Split(d + "-" + a + "-" + b, '-') == [d, a, b]
  {
    assert d + "-" + a + "-" + b == d + ['-'] + (a + ['-'] + b);
    SplitCons(d, a + ['-'] + b, '-');
    SplitJoin(a, b, '-');
  }

  /** A written line parses back into its row. */
  lemma LineRoundTrip(row: Row)
    requires Writable(row)
    ensures ParseLine(LineText(row)) == Some(row)
  {
    var d, a, b := Digits(row.day), TimeText(row.hours.start), TimeText(row.hours.end);
    DigitsHaveNoMarks(d);
    TimeTextHasNoMarks(row.hours.start);
    TimeTextHasNoMarks(row.hours.end);
    SpacesDropped(d, a, b);
    FieldsOfLine(d, a, b);
    IntTextRoundTrip(row.day);
    TimeRoundTrip(row.hours.start);
    TimeRoundTrip(row.hours.end);
  }

  lemma LineHasNoNewline(row: Row)
    requires Writable(row)
    ensures '\n' !in LineText(row)
  {
    DigitsHaveNoMarks(Digits(row.day));
    TimeTextHasNoMarks(row.hours.start);
    TimeTextHasNoMarks(row.hours.end);
  }

  lemma LinesRoundTrip(rows: seq<Row>)
    requires forall i :: 0 <= i < |rows| ==> Writable(rows[i])
    ensures Rows(Lines(rows)) == Some(rows)
  {
    var lines := Lines(rows);
    forall i | 0 <= i < |lines|
      ensures ParseLine(lines[i]) == Some(rows[i])
    {
      LineRoundTrip(rows[i]);
    }
    RowsOfParsedLines(lines, rows);
  }

  lemma RowsOfParsedLines(lines: seq<string>, rows: seq<Row>)
    requires |lines| == |rows|
    requires forall i :: 0 <= i < |lines| ==> ParseLine(lines[i]) == Some(rows[i])
    ensures Rows(lines) == Some(rows)
  {
    RowsSpec(lines);
    assert Rows(lines).value == rows;
  }

  /** A message written in the prompt's format parses back into the rows it
      was written from, each day holding its last row. */
  lemma MessageRoundTrip(rows: seq<Row>)
    requires |rows| >= 1
    requires forall i :: 0 <= i < |rows| ==> Writable(rows[i])
    ensures Rows(Split(ScheduleMessage(rows), '\n')) == Some(rows)
    ensures ParseSchedule(ScheduleMessage(rows)) == Some(Collect(rows, map[]))
  {
    var lines := Lines(rows);
    forall i | 0 <= i < |lines|
      ensures '\n' !in lines[i]
    {
      LineHasNoNewline(rows[i]);
    }
    SplitJoinAll(lines, '\n');
    LinesRoundTrip(rows);
  }

  // ---------------------------------------------------------------------
  // The message filter
  // ---------------------------------------------------------------------

  /** A character class of the filter's regular expression. `\s` is read
      as the ASCII white space characters. */
  datatype Class = Range(lo: char, hi: char) | Exactly(c: char) | Space {
    predicate Has(x: char) {
      match this
      case Range(lo, hi) => lo <= x <= hi
      case Exactly(c) => x == c
      case Space => x in " \t\n\r\U{B}\U{C}"
    }
  }

  /** One element of the pattern, taken once or optionally. */
  datatype Item = One(cls: Class) | Maybe(cls: Class)

  /** Whether the items match the text from position i on (with the
      backtracking of a regular-expression engine over optional items). */
  predicate MatchAt(items: seq<Item>, text: string, i: nat)
    decreases |items|
  {
    if |items| == 0 then true
    else
      var taken := i < |text| && items[0].cls.Has(text[i]) && MatchAt(items[1..], text, i + 1);
      match items[0]
      case One(_) => taken
      case Maybe(_) => taken || MatchAt(items[1..], text, i)
  }

  /** `^([1-7]\s?-\s?[0-2]?[0-9]\.[0-2]?[0-9]\s?-\s?[0-2]?[0-9]\.[0-2]?[0-9])`,
      searched without the multi-line flag: only the start of the message
      is looked at. */
  const SchedulePattern: seq<Item> := [
    One(Range('1', '7')),
    Maybe(Space), One(Exactly('-')), Maybe(Space),
    Maybe(Range('0', '2')), One(Range('0', '9')), One(Exactly('.')), Maybe(Range('0', '2')), One(Range('0', '9')),
    Maybe(Space), One(Exactly('-')), Maybe(Space),
    Maybe(Range('0', '2')), One(Range('0', '9')), One(Exactly('.')), Maybe(Range('0', '2')), One(Range('0', '9'))
  ]

  /** The filter in front of both schedule handlers. */
  predicate ScheduleFilter(text: string) {
    MatchAt(SchedulePattern, text, 0)
  }

  /** The filter sees the first day number: it must be a digit 1..7. */
  lemma FilterChecksFirstDay(text: string)
    requires ScheduleFilter(text)
    ensures |text| >= 1 && '1' <= text[0] <= '7'
  {
  }

  /** Nothing after a matching start is looked at: whatever follows a
      message that passes also passes. */
  lemma {:induction false} MatchIgnoresRest(items: seq<Item>, text: string, rest: string, i: nat)
    requires MatchAt(items, text, i)
    ensures MatchAt(items, text + rest, i)
    decreases |items|
  {
    if |items| > 0 {
      var taken := i < |text| && items[0].cls.Has(text[i]) && MatchAt(items[1..], text, i + 1);
      if taken {
        assert (text + rest)[i] == text[i];
        MatchIgnoresRest(items[1..], text, rest, i + 1);
      } else {
        MatchIgnoresRest(items[1..], text, rest, i);
      }
    }
  }

  // ---------------------------------------------------------------------
  // A day outside 1..7 gets through
  // ---------------------------------------------------------------------

  const NineToSix: Hours := Hours(Time(9, 0, 0, 0), Time(18, 0, 0, 0))

  /** Items that each take the next character match. */
  lemma {:induction false} MatchEach(items: seq<Item>, text: string, i: nat)
    requires i + |items| <= |text|
    requires forall k :: 0 <= k < |items| ==> items[k].cls.Has(text[i + k])
    ensures MatchAt(items, text, i)
    decreases |items|
  {
    if |items| > 0 {
      assert forall k :: 0 <= k < |items[1..]| ==> items[1..][k] == items[k + 1];
      MatchEach(items[1..], text, i + 1);
    }
  }

  /** The first line of a prompt-style message passes the filter. */
  lemma FirstLinePasses()
    ensures ScheduleFilter("1 - 09.00 - 18.00")
  {
    var text := "1 - 09.00 - 18.00";
    assert forall k :: 0 <= k < |SchedulePattern| ==> SchedulePattern[k].cls.Has(text[k]);
    MatchEach(SchedulePattern, text, 0);
  }

  /** The two-line message of the example below. */
  lemma TwoLineMessage(first: Row, second: Row)
    requires Writable(first) && Writable(second)
    ensures ScheduleMessage([first, second]) == LineText(first) + ("\n" + LineText(second))
  {
    assert Lines([first, second]) == [LineText(first), LineText(second)];
    JoinTwo(LineText(first), LineText(second), '\n');
  }

  lemma ExampleFirstLine()
    ensures LineText(Row(1, NineToSix)) == "1 - 09.00 - 18.00"
  {
    assert Digits(1) == "1";
    assert Pad2(9) == "09" && Pad2(0) == "00" && Pad2(18) == "18";
  }

  /** The example message: a valid first line, then a line for day 8. */
  const DayEight: seq<Row> := [Row(1, NineToSix), Row(8, NineToSix)]

  lemma DayEightPassesFilter()
    ensures ScheduleFilter(ScheduleMessage(DayEight))
  {
    ExampleFirstLine();
    TwoLineMessage(DayEight[0], DayEight[1]);
    FirstLinePasses();
    MatchIgnoresRest(SchedulePattern, "1 - 09.00 - 18.00", "\n" + LineText(DayEight[1]), 0);
  }

  lemma DayEightParses()
    ensures ParseSchedule(ScheduleMessage(DayEight)) == Some(map[1 := NineToSix, 8 := NineToSix])
  {
    MessageRoundTrip(DayEight);
    var tail := DayEight[1..];
    assert DayEight[0] == Row(1, NineToSix) && tail[0] == Row(8, NineToSix) && tail[1..] == [];
    assert Collect(DayEight, map[]) == Collect(tail, map[1 := NineToSix]);
    assert Collect(tail, map[1 := NineToSix]) == Collect([], map[1 := NineToSix, 8 := NineToSix]);
  }

  /** As written, a second line for day 8 passes the filter and the parse,
      and is stored; the customer's "closed now" notice then has no name
      for that day. The checked parse refuses the message. */
  lemma LaterLineEscapesDayCheck()
    ensures ScheduleFilter(ScheduleMessage(DayEight))
    ensures ParseSchedule(ScheduleMessage(DayEight)) == Some(map[1 := NineToSix, 8 := NineToSix])
    ensures ClosedNotice(map[1 := NineToSix, 8 := NineToSix]).None?
    ensures ParseScheduleChecked(ScheduleMessage(DayEight)).None?
  {
    DayEightPassesFilter();
    DayEightParses();
    assert WeekdayName(8).None?;
  }
}
