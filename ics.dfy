/**
  `lessonsToIcs` (src/ics.ts): one calendar event per lesson, with start and
  end taken from the lesson's day and its HHMM times, a summary naming at most
  three teachers and classes, and a description listing all of them.

  The calendar library is left out: the calendar is the record of its name,
  time zone and events, and an event's start and end are the arguments of
  `new Date(year, month, day, hour, minute)`.
*/
module Ics {
  import opened Base
  import opened Text
  import opened Types

  datatype DateTime = DateTime(year: int, month: int, day: int, hour: int, minute: int)

  datatype Event = Event(
    start: DateTime,
    end: DateTime,
    summary: string,
    location: string,
    description: string,
    status: string)

  datatype Calendar = Calendar(name: string, timezone: string, events: seq<Event>)

  const CalendarName := "WebUntis Timetable"

  // ---------------------------------------------------------------- times

  /** `Math.floor(t / 100)`; Dafny's `/` by a positive divisor rounds down as well. */
  function Hour(t: int): int
  {
    t / 100
  }

  /** `t % 100` in JavaScript: the remainder takes the sign of `t`. */
  function Minute(t: int): (m: int)
    ensures -100 < m < 100
    ensures t >= 0 ==> m >= 0
  {
    if t >= 0 then t % 100 else -((-t) % 100)
  }

  function At(d: Date, t: int): DateTime
  {
    DateTime(d.year, d.month, d.day, Hour(t), Minute(t))
  }

  // ---------------------------------------------------------------- text

  /** `names.slice(0, 3).join(", ")`, with ` ...+n` appended when `n` names are left out. */
  function NameSummary(names: seq<string>): string
  {
    var shown := Join(names[..Min(3, |names|)], ", ");
    if |names| > 3 then shown + " ...+" + IntToString(|names| - 3) else shown
  }

  /** The subject, or the lesson text when the subject is the placeholder "Event". */
  function Title(l: Lesson): string
  {
    if l.subject == "Event" then l.lstext else l.subject
  }

  /** The teacher part of the summary: dropped when the shown names are the "Unknown Teacher" placeholder. */
  function TeacherPart(teachers: string): string
  {
    if teachers == "Unknown Teacher" then "" else "(" + teachers + ")"
  }

  /** The class part of the summary: dropped when the shown names are the "Unknown Class" placeholder. */
  function ClassPart(classes: string): string
  {
    if classes == "Unknown Class" then "" else " - (" + classes + ")"
  }

  function Summary(l: Lesson): string
  {
    Title(l) + " " + TeacherPart(NameSummary(l.teacher)) + ClassPart(NameSummary(l.schoolClass))
  }

  function Description(l: Lesson, requestedTimetable: string): string
  {
    "Subject: " + l.subject +
    "\nTeacher: " + Join(l.teacher, ", ") +
    "\nRoom: " + l.room +
    "\nClass: " + Join(l.schoolClass, ", ") +
    "\nTimetable: " + requestedTimetable +
    "\nStatus: " + l.status
  }

  function EventOf(l: Lesson, requestedTimetable: string): Event
  {
    Event(At(l.date, l.startTime), At(l.date, l.endTime), Summary(l), l.room,
          Description(l, requestedTimetable), "CONFIRMED")
  }

  /** The calendar `lessonsToIcs` fills: one event per lesson, in order. */
  function CalendarOf(lessons: seq<Lesson>, timezone: string, requestedTimetable: string): Calendar
  {
    Calendar(CalendarName, timezone, seq(|lessons|, i requires 0 <= i < |lessons| => EventOf(lessons[i], requestedTimetable)))
  }

  // ---------------------------------------------------------------- the loop

  /**
    The loop of `lessonsToIcs`: event `i` is built from lesson `i`. The
    serialised text (`cal.toString()`) is not modelled. The request handlers
    call this with five arguments (src/index.ts:78-84, 160-166); the three
    declared here are the ones src/ics.ts:4-8 takes.
  */
  method LessonsToIcs(lessons: seq<Lesson>, timezone: string, requestedTimetable: string)
    returns (cal: Calendar)
    ensures cal.name == CalendarName && cal.timezone == timezone
    ensures |cal.events| == |lessons|
    ensures forall i :: 0 <= i < |lessons| ==> cal.events[i] == EventOf(lessons[i], requestedTimetable)
    ensures cal == CalendarOf(lessons, timezone, requestedTimetable)
  {
    cal := Calendar(CalendarName, timezone, []);
    for i := 0 to |lessons|
      invariant cal.name == CalendarName && cal.timezone == timezone
      invariant |cal.events| == i
      invariant forall j :: 0 <= j < i ==> cal.events[j] == EventOf(lessons[j], requestedTimetable)
    {
      var l := lessons[i];
      var event := Event(At(l.date, l.startTime), At(l.date, l.endTime), Summary(l), l.room,
                         Description(l, requestedTimetable), "CONFIRMED");
      cal := cal.(events := cal.events + [event]);
    }
  }

  // ---------------------------------------------------------------- properties

  /** For a time of day in HHMM form, hour and minute give the time back, the minute below 100. */
  lemma TimeSplit(t: int)
    requires t >= 0
    ensures Hour(t) * 100 + Minute(t) == t && 0 <= Minute(t) < 100 && Hour(t) >= 0
  {
  }

  /** Every event carries its lesson's day, room and the CONFIRMED status. */
  lemma EventFields(l: Lesson, requestedTimetable: string)
    ensures var e := EventOf(l, requestedTimetable);
      e.start.year == l.date.year && e.start.month == l.date.month && e.start.day == l.date.day &&
      e.end.year == l.date.year && e.end.month == l.date.month && e.end.day == l.date.day &&
      e.location == l.room && e.status == "CONFIRMED"
  {
  }

  /** Up to three names are shown in full. */
  lemma NameSummaryShort(names: seq<string>)
    requires |names| <= 3
    ensures NameSummary(names) == Join(names, ", ")
  {
    assert names[..|names|] == names;
  }

  /**
    With more than three names the summary begins with the first three as the
    full list would show them, followed by ` ...+` and a count that reads back
    as the number of names left out.
  */
  lemma NameSummaryLong(names: seq<string>)
    requires |names| > 3
    ensures var shown := Join(names[..3], ", ");
      var s := NameSummary(names);
      StartsWith(Join(names, ", "), shown) &&
      StartsWith(s, shown) &&
      s[|shown|..|shown| + 5] == " ...+" &&
      |s| > |shown| + 5 && AllDigits(s[|shown| + 5..]) &&
      ParseInt(s[|shown| + 5..]) == Some(|names| - 3)
  {
    var shown := Join(names[..3], ", ");
    var count := IntToString(|names| - 3);
    var s := NameSummary(names);
    JoinPrefix(names, ", ", 3);
    assert s == shown + " ...+" + count;
    assert s[..|shown|] == shown;
    assert s[|shown|..|shown| + 5] == " ...+";
    assert s[|shown| + 5..] == count;
    ParseIntOfIntToString(|names| - 3);
  }

  /** The description names every teacher and every class, untruncated. */
  lemma DescriptionListsAll(l: Lesson, requestedTimetable: string)
    ensures forall j :: 0 <= j < |l.teacher| ==>
      Contains(Description(l, requestedTimetable), l.teacher[j])
    ensures forall j :: 0 <= j < |l.schoolClass| ==>
      Contains(Description(l, requestedTimetable), l.schoolClass[j])
  {
    forall j | 0 <= j < |l.teacher| {
      TeacherInDescription(l, requestedTimetable, j);
    }
    forall j | 0 <= j < |l.schoolClass| {
      ClassInDescription(l, requestedTimetable, j);
    }
  }

  lemma TeacherInDescription(l: Lesson, requestedTimetable: string, j: nat)
    requires j < |l.teacher|
    ensures Contains(Description(l, requestedTimetable), l.teacher[j])
  {
    var before := "Subject: " + l.subject + "\nTeacher: ";
    var rest := "\nRoom: " + l.room + "\nClass: " + Join(l.schoolClass, ", ") +
      "\nTimetable: " + requestedTimetable + "\nStatus: " + l.status;
    DescriptionAroundTeachers(l, requestedTimetable, before, rest);
    JoinContains(l.teacher, ", ", j);
    ContainsInMiddle(l.teacher[j], before, Join(l.teacher, ", "), rest);
  }

  lemma DescriptionAroundTeachers(l: Lesson, requestedTimetable: string, before: string, rest: string)
    requires before == "Subject: " + l.subject + "\nTeacher: "
    requires rest == "\nRoom: " + l.room + "\nClass: " + Join(l.schoolClass, ", ") +
      "\nTimetable: " + requestedTimetable + "\nStatus: " + l.status
    ensures Description(l, requestedTimetable) == before + (Join(l.teacher, ", ") + rest)
  {
  }

  lemma ClassInDescription(l: Lesson, requestedTimetable: string, j: nat)
    requires j < |l.schoolClass|
    ensures Contains(Description(l, requestedTimetable), l.schoolClass[j])
  {
    var before := "Subject: " + l.subject + "\nTeacher: " + Join(l.teacher, ", ") +
      "\nRoom: " + l.room + "\nClass: ";
    var after := "\nTimetable: " + requestedTimetable + "\nStatus: " + l.status;
    DescriptionAroundClasses(l, requestedTimetable, before, after);
    JoinContains(l.schoolClass, ", ", j);
    ContainsInMiddle(l.schoolClass[j], before, Join(l.schoolClass, ", "), after);
  }

  lemma DescriptionAroundClasses(l: Lesson, requestedTimetable: string, before: string, after: string)
    requires before == "Subject: " + l.subject + "\nTeacher: " + Join(l.teacher, ", ") +
      "\nRoom: " + l.room + "\nClass: "
    requires after == "\nTimetable: " + requestedTimetable + "\nStatus: " + l.status
    ensures Description(l, requestedTimetable) == before + (Join(l.schoolClass, ", ") + after)
  {
  }

  /**
    Each placeholder is left out on its own: a lesson whose only teacher is
    "Unknown Teacher" has no teacher part, one whose only class is "Unknown
    Class" has no class part, and one with both has only its title.
  */
  lemma SummaryOfPlaceholders(l: Lesson)
    ensures l.teacher == ["Unknown Teacher"] ==>
      Summary(l) == Title(l) + " " + ClassPart(NameSummary(l.schoolClass))
    ensures l.schoolClass == ["Unknown Class"] ==>
      Summary(l) == Title(l) + " " + TeacherPart(NameSummary(l.teacher))
    ensures l.teacher == ["Unknown Teacher"] && l.schoolClass == ["Unknown Class"] ==>
      Summary(l) == Title(l) + " "
  {
    if l.teacher == ["Unknown Teacher"] {
      NameSummaryShort(l.teacher);
    }
    if l.schoolClass == ["Unknown Class"] {
      NameSummaryShort(l.schoolClass);
    }
  }

  /** With one teacher and one class, the summary is `title (teacher) - (class)`. */
  lemma SummaryOfSingleNames(l: Lesson, teacher: string, schoolClass: string)
    requires l.teacher == [teacher] && teacher != "Unknown Teacher"
    requires l.schoolClass == [schoolClass] && schoolClass != "Unknown Class"
    ensures Summary(l) == Title(l) + " (" + teacher + ") - (" + schoolClass + ")"
  {
    NameSummaryShort(l.teacher);
    NameSummaryShort(l.schoolClass);
  }
}
