/**
 * ics_converter.py: reading lines such as "Quiz1: 03/05" and "會考: 03/25"
 * into a list of events, and writing those events out as an iCalendar file
 * (RFC 5545) with one VEVENT, holding one VALARM, per event.
 *
 * The random UID and the current time that the source draws for every event
 * are a parameter here: `stamp(i)` is what event number `i` receives.
 */
module IcsConverter {
  import opened Wrappers
  import opened Text
  import Collections

  datatype Kind = Quiz | Exam

  /** One entry of the list `parse_llm_output` returns: its 'type', 'title' and 'date'. */
  datatype Event = Event(kind: Kind, title: string, date: string)

  const ExamTitle: string := "會考"

  /** The first group of the line pattern: `Quiz\d+` or `會考`. */
  predicate IsTitle(t: string) {
    (StartsWith(t, "Quiz") && IsInteger(t[4..])) || t == ExamTitle
  }

  /** The second group of the line pattern: `\d{2}/\d{2}`. */
  predicate IsDateText(d: string) {
    |d| == 5 && IsDigit(d[0]) && IsDigit(d[1]) && d[2] == '/' && IsDigit(d[3]) && IsDigit(d[4])
  }

  /**
   * `tail` is matched in full by `\s*:\s*(\d{2}/\d{2})$`, with these gaps and
   * this date. `$` is read as the end of the text; Python's `$` also matches
   * before a final "\n", which a stripped line never has (StrippedLineEnd).
   */
  predicate TailMatch(tail: string, gap1: string, gap2: string, date: string) {
    AllSpace(gap1) && AllSpace(gap2) && IsDateText(date) && tail == gap1 + ":" + gap2 + date
  }

  /** `line` is matched in full by `^(Quiz\d+|會考)\s*:\s*(\d{2}/\d{2})$`, `$` read as the end of the text, with these groups and gaps. */
  predicate FullMatch(line: string, title: string, gap1: string, gap2: string, date: string) {
    IsTitle(title) && StartsWith(line, title) && TailMatch(line[|title|..], gap1, gap2, date)
  }

  /** The two groups of a successful match. */
  datatype LineMatch = LineMatch(title: string, date: string)

  /** The length of the first group at the start of `line`, or 0 when neither alternative matches. */
  function TitleLength(line: string): (n: nat)
    ensures n <= |line|
  {
    if StartsWith(line, "Quiz") then
      var digits := DigitRun(line[4..]);
      if digits == 0 then 0 else 4 + digits
    else if StartsWith(line, ExamTitle) then |ExamTitle|
    else 0
  }

  lemma TitleLengthSound(line: string)
    requires TitleLength(line) > 0
    ensures IsTitle(line[..TitleLength(line)])
  {
    var t := TitleLength(line);
    if StartsWith(line, "Quiz") {
      assert line[..t][4..] == line[4..][..t - 4];
    }
  }

  /** The first group, once found, is the whole title: a title ends where no digit follows. */
  lemma TitleLengthComplete(line: string, title: string)
    requires IsTitle(title) && StartsWith(line, title)
    requires |title| < |line| && !IsDigit(line[|title|])
    ensures TitleLength(line) == |title|
  {
    if StartsWith(title, "Quiz") {
      assert line[..4] == title[..4];
      var tail := line[4..];
      assert forall i :: 0 <= i < |title| - 4 ==> tail[i] == title[4..][i];
      DigitRunIs(tail, |title| - 4);
    } else {
      assert line[0] == '會';
      assert line[..2] == title;
    }
  }

  /** What `\s*:\s*(\d{2}/\d{2})$` captures at the start of `tail`, if it matches it in full (`$` as the end of the text). */
  function MatchTail(tail: string): Option<string>
  {
    var g1 := SpaceRun(tail);
    if g1 == |tail| || tail[g1] != ':' then None
    else
      var after := tail[g1 + 1..];
      var date := after[SpaceRun(after)..];
      if IsDateText(date) then Some(date) else None
  }

  lemma MatchTailSound(tail: string)
    requires MatchTail(tail).Some?
    ensures exists gap1, gap2 :: TailMatch(tail, gap1, gap2, MatchTail(tail).value)
  {
    var g1 := SpaceRun(tail);
    var after := tail[g1 + 1..];
    var g2 := SpaceRun(after);
    var date := MatchTail(tail).value;
    assert date == after[g2..];
    SpaceRunAllSpace(tail);
    SpaceRunAllSpace(after);
    TailAssembles(tail, g1, g2);
    assert TailMatch(tail, tail[..g1], after[..g2], date);
  }

  lemma TailAssembles(tail: string, g1: nat, g2: nat)
    requires g1 < |tail| && tail[g1] == ':' && g2 <= |tail[g1 + 1..]|
    ensures tail == tail[..g1] + ":" + tail[g1 + 1..][..g2] + tail[g1 + 1..][g2..]
  {
    var after := tail[g1 + 1..];
    Collections.SplitAt(after, g2);
    Collections.SplitAround(tail, g1);
    Collections.AppendAssoc(tail[..g1] + ":", after[..g2], after[g2..]);
  }

  lemma MatchTailComplete(tail: string, gap1: string, gap2: string, date: string)
    requires TailMatch(tail, gap1, gap2, date)
    ensures MatchTail(tail) == Some(date)
  {
    assert tail[|gap1|] == ':';
    assert forall i :: 0 <= i < |gap1| ==> tail[i] == gap1[i];
    SpaceRunIs(tail, |gap1|);
    var after := tail[|gap1| + 1..];
    assert after == gap2 + date;
    assert after[|gap2|] == date[0];
    SpaceRunIs(after, |gap2|);
    assert after[|gap2|..] == date;
  }

  /**
   * `re.match(r'^(Quiz\d+|會考)\s*:\s*(\d{2}/\d{2})$', line)`, with `$` read
   * as the end of the text: the same as Python's on every line that does not
   * end in "\n", and so on every stripped line.
   */
  function MatchLine(line: string): Option<LineMatch>
  {
    var t := TitleLength(line);
    if t == 0 then None
    else match MatchTail(line[t..])
      case Some(date) => Some(LineMatch(line[..t], date))
      case None => None
  }

  /** A match is a full match of the pattern. */
  lemma MatchLineSound(line: string)
    requires MatchLine(line).Some?
    ensures exists gap1, gap2 :: FullMatch(line, MatchLine(line).value.title, gap1, gap2, MatchLine(line).value.date)
  {
    var t := TitleLength(line);
    TitleLengthSound(line);
    MatchTailSound(line[t..]);
    var gap1, gap2 :| TailMatch(line[t..], gap1, gap2, MatchLine(line).value.date);
    assert FullMatch(line, line[..t], gap1, gap2, MatchLine(line).value.date);
  }

  /** Every full match of the pattern is found, with the same groups. */
  lemma MatchLineComplete(line: string, title: string, gap1: string, gap2: string, date: string)
    requires FullMatch(line, title, gap1, gap2, date)
    ensures MatchLine(line) == Some(LineMatch(title, date))
  {
    var tail := line[|title|..];
    assert !IsDigit(tail[0]) by {
      if gap1 != [] { assert tail[0] == gap1[0]; } else { assert tail[0] == ':'; }
    }
    TitleLengthComplete(line, title);
    MatchTailComplete(tail, gap1, gap2, date);
  }

  /** The 'type' `parse_llm_output` gives a match. */
  function ToEvent(m: LineMatch): Event {
    if StartsWith(m.title, "Quiz") then Event(Quiz, m.title, m.date) else Event(Exam, m.title, m.date)
  }

  /** The event one line of the text yields, after `line.strip()`. */
  function LineEvent(line: string): Option<Event> {
    match MatchLine(Strip(line))
    case Some(m) => Some(ToEvent(m))
    case None => None
  }

  /** A stripped line never ends in "\n", so `$` can only match at its very end. */
  lemma StrippedLineEnd(line: string)
    ensures Strip(line) == [] || Strip(line)[|Strip(line)| - 1] != '\n'
  {
  }

  /** The lines `parse_llm_output` walks through: `llm_text.strip().splitlines()`. */
  function SourceLines(text: string): seq<string> {
    SplitLines(Strip(text))
  }

  /**
   * The events `parse_llm_output` returns, one per matching line, in line
   * order: no more events than lines, and every one well formed.
   */
  function ParsedEvents(text: string): (events: seq<Event>)
    ensures |events| <= |SourceLines(text)|
    ensures forall k :: 0 <= k < |events| ==> WellFormed(events[k])
  {
    LineEventsWellFormed(SourceLines(text));
    Collections.FilterMap(SourceLines(text), LineEvent)
  }

  /** What every returned event looks like. */
  predicate WellFormed(e: Event) {
    IsTitle(e.title) && IsDateText(e.date)
    && (e.kind == Quiz <==> StartsWith(e.title, "Quiz"))
    && (e.kind == Exam ==> e.title == ExamTitle)
  }

  /**
   * A line that yields an event, once stripped, fully matches the pattern with
   * the event's title and date, and the event is well formed: a quiz exactly
   * when its title starts with "Quiz", and otherwise the exam.
   */
  lemma LineEventSound(line: string)
    requires LineEvent(line).Some?
    ensures exists gap1, gap2 :: FullMatch(Strip(line), LineEvent(line).value.title, gap1, gap2, LineEvent(line).value.date)
    ensures WellFormed(LineEvent(line).value)
  {
    var m := MatchLine(Strip(line)).value;
    MatchLineSound(Strip(line));
    var gap1, gap2 :| FullMatch(Strip(line), m.title, gap1, gap2, m.date);
    if !StartsWith(m.title, "Quiz") {
      assert m.title == ExamTitle;
    }
  }

  /** A line that, once stripped, fully matches the pattern yields the event with that title and date. */
  lemma LineEventComplete(line: string, title: string, gap1: string, gap2: string, date: string)
    requires FullMatch(Strip(line), title, gap1, gap2, date)
    ensures LineEvent(line) == Some(Event(if StartsWith(title, "Quiz") then Quiz else Exam, title, date))
  {
    MatchLineComplete(Strip(line), title, gap1, gap2, date);
  }

  /** Every event the lines yield is well formed. */
  lemma LineEventsWellFormed(lines: seq<string>)
    ensures forall k :: 0 <= k < |Collections.FilterMap(lines, LineEvent)| ==> WellFormed(Collections.FilterMap(lines, LineEvent)[k])
  {
    var events := Collections.FilterMap(lines, LineEvent);
    var idx := Collections.Origins(lines, LineEvent);
    forall k | 0 <= k < |events|
      ensures WellFormed(events[k])
    {
      LineEventSound(lines[idx[k]]);
    }
  }

  /**
   * Every event comes from its own source line, the events keep the order
   * of their lines, and no line that yields an event is dropped.
   */
  lemma EventsInLineOrder(text: string)
    ensures
      var lines, events := SourceLines(text), ParsedEvents(text);
      exists idx: seq<nat> ::
        && |idx| == |events|
        && (forall k :: 0 <= k < |idx| ==> idx[k] < |lines| && LineEvent(lines[idx[k]]) == Some(events[k]))
        && (forall k, l :: 0 <= k < l < |idx| ==> idx[k] < idx[l])
        && (forall i :: 0 <= i < |lines| && LineEvent(lines[i]).Some? ==> i in idx)
  {
    Collections.FilterMapInOrder(SourceLines(text), LineEvent);
  }

  /** `parse_llm_output(llm_text)` */
  method ParseLlmOutput(text: string) returns (events: seq<Event>)
    ensures events == ParsedEvents(text)
  {
    var lines := SplitLines(Strip(text));
    events := [];
    for i := 0 to |lines|
      invariant events == Collections.FilterMap(lines[..i], LineEvent)
    {
      Collections.FilterMapStep(lines, i, LineEvent);
      var line := Strip(lines[i]);
      var m := MatchLine(line);
      assert LineEvent(lines[i]) == if m.Some? then Some(ToEvent(m.value)) else None;
      if m.Some? {
        var title, date := m.value.title, m.value.date;
        if StartsWith(title, "Quiz") {
          events := events + [Event(Quiz, title, date)];
        } else {
          events := events + [Event(Exam, title, date)];
        }
      }
    }
    assert lines[..|lines|] == lines;
  }

  // ---------------------------------------------------------------------
  // generate_ics

  /** A ("HH:MM", "HH:MM") pair: when an event starts and when it ends. */
  datatype Slot = Slot(start: string, end: string)

  /** The keyword arguments of `generate_ics`. */
  datatype Settings = Settings(startYear: int, quizTime: Slot, examTime: Slot, alarmMinutes: int)

  /** The defaults of `generate_ics`'s keyword arguments. */
  const DefaultSettings: Settings := Settings(2025, Slot("10:00", "12:00"), Slot("10:00", "12:00"), 15)

  /** What `uuid.uuid4()` and `datetime.datetime.now()` give one event. */
  datatype Stamp = Stamp(uid: string, dtstamp: string)

  datatype Boundary = Start | End

  /** A `datetime.datetime` whose seconds are 0. */
  datatype DateTime = DateTime(year: int, month: int, day: int, hour: int, minute: int)

  /** The `ValueError`s `parse_date` can raise. */
  datatype DateError =
    | MalformedTime     // the time is not two parts around one ':'
    | NotAnInteger      // `int()` refuses the hour or the minute
    | YearOutOfRange
    | MonthOutOfRange
    | DayOutOfRange
    | HourOutOfRange
    | MinuteOutOfRange

  predicate IsLeapYear(y: int) {
    y % 4 == 0 && (y % 100 != 0 || y % 400 == 0)
  }

  function DaysInMonth(y: int, m: int): int
    requires 1 <= m <= 12
  {
    if m == 2 then (if IsLeapYear(y) then 29 else 28)
    else if m == 4 || m == 6 || m == 9 || m == 11 then 30
    else 31
  }

  /** The fields `datetime.datetime` accepts. */
  predicate ValidDateTime(dt: DateTime) {
    1 <= dt.year <= 9999 && 1 <= dt.month <= 12 && 1 <= dt.day <= DaysInMonth(dt.year, dt.month)
    && 0 <= dt.hour <= 23 && 0 <= dt.minute <= 59
  }

  /** `datetime.datetime(year, month, day, hour, minute, second=0)`, which checks its fields in this order. */
  function NewDateTime(year: int, month: int, day: int, hour: int, minute: int): (r: Result<DateTime, DateError>)
    ensures r.Success? <==> ValidDateTime(DateTime(year, month, day, hour, minute))
    ensures r.Success? ==> r.value == DateTime(year, month, day, hour, minute)
  {
    if !(1 <= year <= 9999) then Failure(YearOutOfRange)
    else if !(1 <= month <= 12) then Failure(MonthOutOfRange)
    else if !(1 <= day <= DaysInMonth(year, month)) then Failure(DayOutOfRange)
    else if !(0 <= hour <= 23) then Failure(HourOutOfRange)
    else if !(0 <= minute <= 59) then Failure(MinuteOutOfRange)
    else Success(DateTime(year, month, day, hour, minute))
  }

  /** `quiz_time` for a quiz and `exam_time` otherwise; slot 0 for the start, slot 1 for the end. */
  function TimeOf(kind: Kind, which: Boundary, s: Settings): string {
    var slot := if kind == Quiz then s.quizTime else s.examTime;
    if which == Start then slot.start else slot.end
  }

  /** The nested `parse_date(month_day, start_or_end)` for an event of kind `kind`. */
  function ParseDate(monthDay: string, kind: Kind, which: Boundary, s: Settings): (r: Result<DateTime, DateError>)
    requires IsDateText(monthDay)
    ensures r.Success? ==> ValidDateTime(r.value)
  {
    var parts := Split(TimeOf(kind, which, s), ':');
    if |parts| != 2 then Failure(MalformedTime)
    else if !IsInteger(parts[0]) || !IsInteger(parts[1]) then Failure(NotAnInteger)
    else NewDateTime(s.startYear, DecimalValue(monthDay[..2]), DecimalValue(monthDay[3..]),
                     DecimalValue(parts[0]), DecimalValue(parts[1]))
  }

  /**
   * When `parse_date` succeeds, the chosen time is "HH:MM" in digits, and the
   * result has year `start_year`, month and day from the event's date, and
   * hour and minute from the chosen time.
   */
  lemma ParseDateSound(monthDay: string, kind: Kind, which: Boundary, s: Settings)
    requires IsDateText(monthDay) && ParseDate(monthDay, kind, which, s).Success?
    ensures exists hh, mm ::
              && TimeOf(kind, which, s) == hh + ":" + mm && IsInteger(hh) && IsInteger(mm)
              && ParseDate(monthDay, kind, which, s).value
                 == DateTime(s.startYear, DecimalValue(monthDay[..2]), DecimalValue(monthDay[3..]), DecimalValue(hh), DecimalValue(mm))
  {
    var time := TimeOf(kind, which, s);
    var parts := Split(time, ':');
    SplitInTwo(time, ':', parts[0], parts[1]);
    assert time == parts[0] + ":" + parts[1];
  }

  /**
   * When the chosen time is "HH:MM" in digits, `parse_date` gives what
   * `datetime.datetime` gives for `start_year`, the event's month and day,
   * and that hour and minute: the date-time, or the range error.
   */
  lemma ParseDateOfTime(monthDay: string, kind: Kind, which: Boundary, s: Settings, hh: string, mm: string)
    requires IsDateText(monthDay)
    requires TimeOf(kind, which, s) == hh + ":" + mm && IsInteger(hh) && IsInteger(mm)
    ensures ParseDate(monthDay, kind, which, s)
         == NewDateTime(s.startYear, DecimalValue(monthDay[..2]), DecimalValue(monthDay[3..]), DecimalValue(hh), DecimalValue(mm))
  {
    assert ':' !in hh && ':' !in mm by {
      assert forall i :: 0 <= i < |hh| ==> IsDigit(hh[i]);
      assert forall i :: 0 <= i < |mm| ==> IsDigit(mm[i]);
    }
    SplitInTwo(TimeOf(kind, which, s), ':', hh, mm);
  }

  /** A time that is not two parts around a single ':' makes `parse_date` fail before anything else. */
  lemma ParseDateMalformed(monthDay: string, kind: Kind, which: Boundary, s: Settings)
    requires IsDateText(monthDay)
    requires forall hh, mm :: TimeOf(kind, which, s) == hh + ":" + mm ==> ':' in hh || ':' in mm
    ensures ParseDate(monthDay, kind, which, s) == Failure(MalformedTime)
  {
    var time := TimeOf(kind, which, s);
    var parts := Split(time, ':');
    if |parts| == 2 {
      SplitInTwo(time, ':', parts[0], parts[1]);
      assert false;
    }
  }

  /**
   * With the default settings (`start_year` 2025, both slots 10:00 to
   * 12:00), `parse_date` succeeds exactly on a real day of 2025, at 10:00
   * for the start and 12:00 for the end.
   */
  lemma DefaultDatesParse(monthDay: string, kind: Kind, which: Boundary)
    requires IsDateText(monthDay)
    ensures var month, day := DecimalValue(monthDay[..2]), DecimalValue(monthDay[3..]);
      && (ParseDate(monthDay, kind, which, DefaultSettings).Success? <==> 1 <= month <= 12 && 1 <= day <= DaysInMonth(2025, month))
      && (ParseDate(monthDay, kind, which, DefaultSettings).Success? ==>
            ParseDate(monthDay, kind, which, DefaultSettings).value == DateTime(2025, month, day, if which == Start then 10 else 12, 0))
  {
    var hh := if which == Start then "10" else "12";
    assert TimeOf(kind, which, DefaultSettings) == hh + ":" + "00";
    assert DecimalValue(hh) == (if which == Start then 10 else 12) by {
      assert hh[..1] == "1" && "1"[..0] == [];
    }
    assert DecimalValue("00") == 0 by {
      assert "00"[..1] == "0" && "0"[..0] == [];
    }
    ParseDateOfTime(monthDay, kind, which, DefaultSettings, hh, "00");
  }

  /** `dt.strftime("%Y%m%dT%H%M%S")`; the seconds are always 0. */
  function FormatDateTime(dt: DateTime): string
    requires ValidDateTime(dt)
  {
    PadDecimal(dt.year, 4) + PadDecimal(dt.month, 2) + PadDecimal(dt.day, 2) + "T"
    + PadDecimal(dt.hour, 2) + PadDecimal(dt.minute, 2) + "00"
  }

  /** `r` is an RFC 5545 floating DATE-TIME ("YYYYMMDDTHHMMSS") that reads back as `dt` with seconds 0. */
  predicate Shows(r: string, dt: DateTime) {
    |r| == 15 && IsDigits(r[..8]) && r[8] == 'T' && IsDigits(r[9..]) && r[13..] == "00"
    && DecimalValue(r[..4]) == dt.year && DecimalValue(r[4..6]) == dt.month
    && DecimalValue(r[6..8]) == dt.day && DecimalValue(r[9..11]) == dt.hour
    && DecimalValue(r[11..13]) == dt.minute
  }

  lemma FormatDateTimeShows(dt: DateTime)
    requires ValidDateTime(dt)
    ensures Shows(FormatDateTime(dt), dt)
  {
    var r := FormatDateTime(dt);
    assert Pow10(2) == 100 && Pow10(4) == 10000;
    PadDecimalValue(dt.year, 4);
    PadDecimalValue(dt.month, 2);
    PadDecimalValue(dt.day, 2);
    PadDecimalValue(dt.hour, 2);
    PadDecimalValue(dt.minute, 2);
    assert r[..4] == PadDecimal(dt.year, 4);
    assert r[4..6] == PadDecimal(dt.month, 2);
    assert r[6..8] == PadDecimal(dt.day, 2);
    assert r[9..11] == PadDecimal(dt.hour, 2);
    assert r[11..13] == PadDecimal(dt.minute, 2);
    assert r[..8] == PadDecimal(dt.year, 4) + PadDecimal(dt.month, 2) + PadDecimal(dt.day, 2);
    assert r[9..] == PadDecimal(dt.hour, 2) + PadDecimal(dt.minute, 2) + "00";
  }

  const Header: seq<string> :=
    ["BEGIN:VCALENDAR", "VERSION:2.0", "PRODID:-//MyOrganization//ClassCalendar//EN", "CALSCALE:GREGORIAN"]

  const Footer: string := "END:VCALENDAR"

  /** The twelve lines written for one event: a VEVENT holding a VALARM. */
  function EventBlock(e: Event, s: Settings, stamp: Stamp, start: DateTime, end: DateTime): seq<string>
    requires ValidDateTime(start) && ValidDateTime(end)
  {
    ["BEGIN:VEVENT",
     "UID:" + stamp.uid,
     "DTSTAMP:" + stamp.dtstamp,
     "DTSTART:" + FormatDateTime(start),
     "DTEND:" + FormatDateTime(end),
     "SUMMARY:微積分 " + e.title,
     "BEGIN:VALARM",
     "ACTION:DISPLAY",
     "DESCRIPTION:Reminder for " + e.title,
     "TRIGGER:-PT" + IntToString(s.alarmMinutes) + "M",
     "END:VALARM",
     "END:VEVENT"]
  }

  /** The lines of one event, or the error `parse_date` raises for its start or, failing that, its end. */
  function EventLines(e: Event, s: Settings, stamp: Stamp): Result<seq<string>, DateError>
    requires IsDateText(e.date)
  {
    var start :- ParseDate(e.date, e.kind, Start, s);
    var end :- ParseDate(e.date, e.kind, End, s);
    Success(EventBlock(e, s, stamp, start, end))
  }

  predicate DatedEvents(events: seq<Event>) {
    forall k :: 0 <= k < |events| ==> IsDateText(events[k].date)
  }

  /** What each event contributes: its lines, or the error `parse_date` raised for it. */
  function Blocks(events: seq<Event>, s: Settings, stamp: nat -> Stamp): (r: seq<Result<seq<string>, DateError>>)
    requires DatedEvents(events)
    ensures |r| == |events| && forall k :: 0 <= k < |r| ==> r[k] == EventLines(events[k], s, stamp(k))
  {
    seq(|events|, k requires 0 <= k < |events| => EventLines(events[k], s, stamp(k)))
  }

  /** The VEVENT lines of all events in order, or the error of the first event that has one. */
  function Body(events: seq<Event>, s: Settings, stamp: nat -> Stamp): Result<seq<string>, DateError>
    requires DatedEvents(events)
  {
    Collections.Concat(Blocks(events, s, stamp))
  }

  /** The `ics_lines` list `generate_ics` builds. */
  function Calendar(events: seq<Event>, s: Settings, stamp: nat -> Stamp): Result<seq<string>, DateError>
    requires DatedEvents(events)
  {
    var body :- Body(events, s, stamp);
    Success(Header + body + [Footer])
  }

  /** What `generate_ics(llm_text, ...)` returns, or the error it raises. */
  function IcsText(text: string, s: Settings, stamp: nat -> Stamp): Result<string, DateError>
  {
    var events := ParsedEvents(text);
    var lines :- Calendar(events, s, stamp);
    Success(Join(lines, "\n"))
  }

  /** `uuid4()` and `now()` as written into the file: text without line breaks. */
  predicate PlainStamp(stamp: Stamp) {
    NoLineBreak(stamp.uid) && NoLineBreak(stamp.dtstamp)
  }

  /** A title that matched the pattern holds no line break. */
  lemma TitlePlain(t: string)
    requires IsTitle(t)
    ensures NoLineBreak(t)
  {
    if StartsWith(t, "Quiz") {
      assert t == "Quiz" + t[4..];
    }
  }

  /** The date-time text holds no line break. */
  lemma FormatDateTimePlain(dt: DateTime)
    requires ValidDateTime(dt)
    ensures NoLineBreak(FormatDateTime(dt))
  {
    var r := FormatDateTime(dt);
    FormatDateTimeShows(dt);
    forall i | 0 <= i < |r|
      ensures !IsLineBreak(r[i])
    {
      if i < 8 {
        assert r[i] == r[..8][i];
      } else if i > 8 {
        assert r[i] == r[9..][i - 9];
      }
    }
  }

  /** The `TRIGGER` line of an event gives `alarm_minutes` back: its digits, after a minus sign when it is negative. */
  lemma TriggerMinutes(e: Event, s: Settings, stamp: Stamp, start: DateTime, end: DateTime)
    requires ValidDateTime(start) && ValidDateTime(end)
    ensures var line := EventBlock(e, s, stamp, start, end)[9];
      && 12 < |line| && line[..11] == "TRIGGER:-PT" && line[|line| - 1] == 'M'
      && (s.alarmMinutes >= 0 ==> IsInteger(line[11..|line| - 1]) && DecimalValue(line[11..|line| - 1]) == s.alarmMinutes)
      && (s.alarmMinutes < 0 ==> line[11] == '-' && IsInteger(line[12..|line| - 1]) && DecimalValue(line[12..|line| - 1]) == -s.alarmMinutes)
  {
    var t := IntToString(s.alarmMinutes);
    var line := EventBlock(e, s, stamp, start, end)[9];
    assert line == "TRIGGER:-PT" + t + "M";
    assert line[11..|line| - 1] == t;
    IntToStringValue(s.alarmMinutes);
    if s.alarmMinutes < 0 {
      assert line[12..|line| - 1] == t[1..];
    }
  }

  /** Each of the twelve lines of an event holds no line break, as long as the stamp holds none. */
  lemma EventBlockPlain(e: Event, s: Settings, stamp: Stamp, start: DateTime, end: DateTime)
    requires ValidDateTime(start) && ValidDateTime(end)
    requires IsTitle(e.title) && PlainStamp(stamp)
    ensures |EventBlock(e, s, stamp, start, end)| == 12
    ensures forall j :: 0 <= j < 12 ==> NoLineBreak(EventBlock(e, s, stamp, start, end)[j])
  {
    TitlePlain(e.title);
    FormatDateTimePlain(start);
    FormatDateTimePlain(end);
    var alarm := IntToString(s.alarmMinutes);
    assert NoLineBreak("TRIGGER:-PT" + alarm + "M") by {
      NoLineBreakAppend("TRIGGER:-PT", alarm);
      NoLineBreakAppend("TRIGGER:-PT" + alarm, "M");
    }
    NoLineBreakAppend("UID:", stamp.uid);
    NoLineBreakAppend("DTSTAMP:", stamp.dtstamp);
    NoLineBreakAppend("DTSTART:", FormatDateTime(start));
    NoLineBreakAppend("DTEND:", FormatDateTime(end));
    NoLineBreakAppend("SUMMARY:微積分 ", e.title);
    NoLineBreakAppend("DESCRIPTION:Reminder for ", e.title);
    FixedLinesPlain();
    FieldNamesPlain();
  }

  lemma FixedLinesPlain()
    ensures NoLineBreak("BEGIN:VEVENT") && NoLineBreak("BEGIN:VALARM") && NoLineBreak("ACTION:DISPLAY")
    ensures NoLineBreak("END:VALARM") && NoLineBreak("END:VEVENT")
  {
  }

  lemma FieldNamesPlain()
    ensures NoLineBreak("UID:") && NoLineBreak("DTSTAMP:") && NoLineBreak("DTSTART:") && NoLineBreak("DTEND:")
    ensures NoLineBreak("SUMMARY:微積分 ") && NoLineBreak("DESCRIPTION:Reminder for ")
    ensures NoLineBreak("TRIGGER:-PT") && NoLineBreak("M")
  {
  }

  /**
   * `generate_ics` returns the calendar exactly when both dates of every
   * event parse.
   */
  lemma CalendarSucceedsIff(events: seq<Event>, s: Settings, stamp: nat -> Stamp)
    requires DatedEvents(events)
    ensures Calendar(events, s, stamp).Success? <==>
      forall k :: 0 <= k < |events| ==>
        ParseDate(events[k].date, events[k].kind, Start, s).Success? && ParseDate(events[k].date, events[k].kind, End, s).Success?
  {
    Collections.ConcatSucceedsIff(Blocks(events, s, stamp));
  }

  /**
   * Events are handled in order: when every event before `i` has both dates
   * and event `i` has not, `generate_ics` raises the error of event `i`'s
   * start date or, if that parses, of its end date.
   */
  lemma CalendarFirstError(events: seq<Event>, s: Settings, stamp: nat -> Stamp, i: nat)
    requires DatedEvents(events) && i < |events|
    requires forall k :: 0 <= k < i ==>
      ParseDate(events[k].date, events[k].kind, Start, s).Success? && ParseDate(events[k].date, events[k].kind, End, s).Success?
    requires ParseDate(events[i].date, events[i].kind, Start, s).Failure? || ParseDate(events[i].date, events[i].kind, End, s).Failure?
    ensures Calendar(events, s, stamp) == Failure(
      if ParseDate(events[i].date, events[i].kind, Start, s).Failure?
      then ParseDate(events[i].date, events[i].kind, Start, s).error
      else ParseDate(events[i].date, events[i].kind, End, s).error)
  {
    var blocks := Blocks(events, s, stamp);
    Collections.ConcatSucceedsIff(blocks[..i]);
    assert forall k :: 0 <= k < i ==> blocks[..i][k] == blocks[k];
    Collections.ConcatStopsAtFirstFailure(blocks, i);
  }

  /** The start and the end of an event whose dates parse. */
  function StartOf(e: Event, s: Settings): DateTime
    requires IsDateText(e.date) && ParseDate(e.date, e.kind, Start, s).Success?
  {
    ParseDate(e.date, e.kind, Start, s).value
  }

  function EndOf(e: Event, s: Settings): DateTime
    requires IsDateText(e.date) && ParseDate(e.date, e.kind, End, s).Success?
  {
    ParseDate(e.date, e.kind, End, s).value
  }

  /** What an event whose dates parse contributes: its twelve lines. */
  lemma EventLinesBlock(e: Event, s: Settings, stamp: Stamp)
    requires IsDateText(e.date)
    ensures EventLines(e, s, stamp).Success? <==>
      ParseDate(e.date, e.kind, Start, s).Success? && ParseDate(e.date, e.kind, End, s).Success?
    ensures EventLines(e, s, stamp).Success? ==>
      EventLines(e, s, stamp).value == EventBlock(e, s, stamp, StartOf(e, s), EndOf(e, s))
      && |EventLines(e, s, stamp).value| == 12
  {
  }

  /** Once every event's dates parse, the body is each event's twelve lines in turn. */
  lemma BodyLayout(events: seq<Event>, s: Settings, stamp: nat -> Stamp)
    requires DatedEvents(events) && Body(events, s, stamp).Success?
    ensures |Body(events, s, stamp).value| == 12 * |events|
    ensures forall k :: 0 <= k < |events| ==>
      EventLines(events[k], s, stamp(k)).Success?
      && Body(events, s, stamp).value[12 * k..12 * k + 12] == EventLines(events[k], s, stamp(k)).value
  {
    var blocks := Blocks(events, s, stamp);
    Collections.ConcatSucceedsIff(blocks);
    forall k | 0 <= k < |blocks|
      ensures blocks[k].Success? && |blocks[k].value| == 12
    {
      EventLinesBlock(events[k], s, stamp(k));
    }
    Collections.ConcatLayout(blocks, 12);
  }

  /** Event `k`'s twelve lines sit right after the header and the lines of the events before it. */
  lemma CalendarBlockAt(events: seq<Event>, s: Settings, stamp: nat -> Stamp, k: nat)
    requires DatedEvents(events) && Calendar(events, s, stamp).Success? && k < |events|
    ensures |Calendar(events, s, stamp).value| == 5 + 12 * |events|
    ensures ParseDate(events[k].date, events[k].kind, Start, s).Success?
    ensures ParseDate(events[k].date, events[k].kind, End, s).Success?
    ensures Calendar(events, s, stamp).value[4 + 12 * k..16 + 12 * k]
         == EventBlock(events[k], s, stamp(k), StartOf(events[k], s), EndOf(events[k], s))
  {
    var body := Body(events, s, stamp).value;
    BodyLayout(events, s, stamp);
    Collections.FrameSlice(Header, body, [Footer], 12 * k, 12 * k + 12);
    EventLinesBlock(events[k], s, stamp(k));
  }

  /**
   * The calendar is the four header lines, then twelve lines per event in
   * the order of the events, then `END:VCALENDAR`.
   */
  lemma CalendarLayout(events: seq<Event>, s: Settings, stamp: nat -> Stamp)
    requires DatedEvents(events) && Calendar(events, s, stamp).Success?
    ensures var lines := Calendar(events, s, stamp).value;
      && |lines| == 5 + 12 * |events|
      && lines[..4] == Header
      && lines[|lines| - 1] == Footer
      && forall k :: 0 <= k < |events| ==>
           && ParseDate(events[k].date, events[k].kind, Start, s).Success?
           && ParseDate(events[k].date, events[k].kind, End, s).Success?
           && lines[4 + 12 * k..16 + 12 * k] == EventBlock(events[k], s, stamp(k), StartOf(events[k], s), EndOf(events[k], s))
  {
    BodyLayout(events, s, stamp);
    forall k | 0 <= k < |events|
      ensures && ParseDate(events[k].date, events[k].kind, Start, s).Success?
              && ParseDate(events[k].date, events[k].kind, End, s).Success?
              && Calendar(events, s, stamp).value[4 + 12 * k..16 + 12 * k]
                 == EventBlock(events[k], s, stamp(k), StartOf(events[k], s), EndOf(events[k], s))
    {
      CalendarBlockAt(events, s, stamp, k);
    }
  }

  lemma HeaderPlain()
    ensures forall k :: 0 <= k < |Header| ==> NoLineBreak(Header[k])
    ensures NoLineBreak(Footer) && Footer != ""
  {
    ProductIdPlain();
    assert NoLineBreak(Header[0]) && NoLineBreak(Header[1]) && NoLineBreak(Header[3]);
  }

  lemma ProductIdPlain()
    ensures NoLineBreak(Header[2])
  {
    NoLineBreakAppend("PRODID:-//MyOrganization", "//ClassCalendar//EN");
  }

  /**
   * No line of the calendar holds a line break, as long as every event's
   * title matched the pattern and no stamp holds one.
   */
  lemma CalendarPlain(events: seq<Event>, s: Settings, stamp: nat -> Stamp)
    requires DatedEvents(events) && Calendar(events, s, stamp).Success?
    requires forall k :: 0 <= k < |events| ==> IsTitle(events[k].title)
    requires forall n :: PlainStamp(stamp(n))
    ensures forall j :: 0 <= j < |Calendar(events, s, stamp).value| ==> NoLineBreak(Calendar(events, s, stamp).value[j])
  {
    var blocks := Blocks(events, s, stamp);
    forall k, j | 0 <= k < |blocks| && blocks[k].Success? && 0 <= j < |blocks[k].value|
      ensures NoLineBreak(blocks[k].value[j])
    {
      var e := events[k];
      EventLinesBlock(e, s, stamp(k));
      EventBlockPlain(e, s, stamp(k), StartOf(e, s), EndOf(e, s));
    }
    Collections.ConcatKeeps(blocks, NoLineBreak);
    HeaderPlain();
    var body := Body(events, s, stamp).value;
    var lines := Header + body + [Footer];
    assert Calendar(events, s, stamp).value == lines;
    forall j | 0 <= j < |lines|
      ensures NoLineBreak(lines[j])
    {
      if 4 <= j < 4 + |body| {
        assert lines[j] == body[j - 4];
      }
    }
  }

  /**
   * Reading the written text back line by line gives the calendar's lines:
   * the "\n" join loses nothing.
   */
  lemma IcsTextLines(text: string, s: Settings, stamp: nat -> Stamp)
    requires forall n :: PlainStamp(stamp(n))
    requires IcsText(text, s, stamp).Success?
    ensures SplitLines(IcsText(text, s, stamp).value) == Calendar(ParsedEvents(text), s, stamp).value
  {
    var events := ParsedEvents(text);
    var lines := Calendar(events, s, stamp).value;
    CalendarPlain(events, s, stamp);
    CalendarLayout(events, s, stamp);
    SplitLinesJoin(lines);
  }

  /** The written text opens with the four header lines and closes with `END:VCALENDAR`, with no newline after it. */
  lemma IcsTextFraming(text: string, s: Settings, stamp: nat -> Stamp)
    requires IcsText(text, s, stamp).Success?
    ensures StartsWith(IcsText(text, s, stamp).value, Join(Header, "\n") + "\n")
    ensures EndsWith(IcsText(text, s, stamp).value, "\n" + Footer)
  {
    var body := Body(ParsedEvents(text), s, stamp).value;
    assert IcsText(text, s, stamp).value == Join(Header + body + [Footer], "\n");
    JoinFramed(Header, body, Footer, "\n");
  }

  /** The body of the loop over events: both calls to `parse_date`, then the event's twelve lines. */
  method EmitEvent(e: Event, s: Settings, stamp: Stamp) returns (r: Result<seq<string>, DateError>)
    requires IsDateText(e.date)
    ensures r == EventLines(e, s, stamp)
  {
    var start := ParseDate(e.date, e.kind, Start, s);
    if start.Failure? {
      return Failure(start.error);
    }
    var end := ParseDate(e.date, e.kind, End, s);
    if end.Failure? {
      return Failure(end.error);
    }
    r := Success(EventBlock(e, s, stamp, start.value, end.value));
  }

  /** A body that exists is framed by the header and the footer. */
  lemma CalendarOfBody(events: seq<Event>, s: Settings, stamp: nat -> Stamp, lines: seq<string>)
    requires DatedEvents(events)
    requires |lines| >= 5 && lines[..4] == Header && lines[|lines| - 1] == Footer
    requires Body(events, s, stamp) == Success(lines[4..|lines| - 1])
    ensures Calendar(events, s, stamp) == Success(lines)
  {
    Collections.SplitThree(lines, 4, |lines| - 1);
    assert lines[|lines| - 1..] == [Footer];
  }

  /**
   * The part of `generate_ics` after `parse_llm_output`: the header, the loop
   * over events, the footer, and the join with "\n".
   */
  method WriteCalendar(events: seq<Event>, s: Settings, stamp: nat -> Stamp) returns (r: Result<string, DateError>)
    requires DatedEvents(events)
    ensures r == (var lines :- Calendar(events, s, stamp); Success(Join(lines, "\n")))
  {
    ghost var blocks := Blocks(events, s, stamp);
    var lines := Header;
    assert blocks[..0] == [] && lines[4..] == [];
    for i := 0 to |events|
      invariant |lines| >= 4 && lines[..4] == Header
      invariant Collections.Concat(blocks[..i]) == Success(lines[4..])
    {
      var block := EmitEvent(events[i], s, stamp(i));
      if block.Failure? {
        Collections.ConcatStopsAtFirstFailure(blocks, i);
        return Failure(block.error);
      }
      Collections.ConcatStep(blocks, i);
      Collections.DropAppend(lines, block.value, 4);
      lines := lines + block.value;
    }
    Collections.TakeAll(blocks);
    Collections.DropAppend(lines, [Footer], 4);
    lines := lines + [Footer];
    CalendarOfBody(events, s, stamp, lines);
    r := Success(Join(lines, "\n"));
  }

  /** `generate_ics(llm_text, start_year, quiz_time, exam_time, alarm_minutes)` */
  method GenerateIcs(text: string, s: Settings, stamp: nat -> Stamp) returns (r: Result<string, DateError>)
    ensures r == IcsText(text, s, stamp)
  {
    var events := ParseLlmOutput(text);
    r := WriteCalendar(events, s, stamp);
  }
}
