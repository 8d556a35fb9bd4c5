/** Splitting a fetched schedule into days, and rendering the days through
    the lecture template. */
module Utils {
  import opened Common
  import opened Catalog
  import Text

  const MinutesPerDay: int := 1440

  /** The calendar day a timestamp falls on (`date_naive`), as a day number. */
  function DateOf(t: int): int {
    t / MinutesPerDay
  }

  /** Minutes since midnight of a timestamp. */
  function TimeOfDay(t: int): nat {
    t % MinutesPerDay
  }

  lemma DateOfShift(t: int, k: int)
    ensures DateOf(t + k * MinutesPerDay) == DateOf(t) + k
  {
    var q, r := t / MinutesPerDay, t % MinutesPerDay;
    assert t + k * MinutesPerDay == (q + k) * MinutesPerDay + r;
  }

  /** A day bucket: its timestamp and the lectures put into it. */
  datatype Day = Day(lectures: seq<Lecture>, date: int)

  /** `Day::with_date`: a day at the given timestamp with no lectures yet. */
  function WithDate(date: int): (r: Day)
    ensures r.lectures == [] && r.date == date
  {
    Day([], date)
  }

  const EmptyScheduleMessage := "No lectures (hell yeah, we balling)"

  // ---------------------------------------------------------------------------
  // The day range

  /** How many 24-hour steps, counted from `start`, stay at or before `end`:
      the number of iterations of `while date <= end_date`. */
  function DayCount(start: int, end: int): nat {
    if end < start then 0 else (end - start) / MinutesPerDay + 1
  }

  /** Day `k` is allocated exactly when its timestamp is not after `end`. */
  lemma DayCountExact(start: int, end: int, k: int)
    requires 0 <= k
    ensures k < DayCount(start, end) <==> start + k * MinutesPerDay <= end
  {
    if start <= end {
      var q, r := (end - start) / MinutesPerDay, (end - start) % MinutesPerDay;
      assert end - start == q * MinutesPerDay + r;
      if k <= q {
        assert k * MinutesPerDay <= q * MinutesPerDay;
      } else {
        assert k * MinutesPerDay >= (q + 1) * MinutesPerDay;
      }
    }
  }

  /** The number of calendar dates from the date of `start` to the date of
      `end`, both included. */
  function DayCountByDate(start: int, end: int): nat {
    if DateOf(end) < DateOf(start) then 0 else DateOf(end) - DateOf(start) + 1
  }

  /** The `while date <= end_date` loop: one empty day per 24 hours. */
  method AllocateDays(start: int, end: int) returns (days: seq<Day>)
    ensures |days| == DayCount(start, end)
    ensures forall k :: 0 <= k < |days| ==> days[k] == WithDate(start + k * MinutesPerDay)
  {
    days := [];
    var date := start;
    while date <= end
      invariant date == start + |days| * MinutesPerDay
      invariant |days| == 0 || start + (|days| - 1) * MinutesPerDay <= end
      invariant forall k :: 0 <= k < |days| ==> days[k] == WithDate(start + k * MinutesPerDay)
      decreases end - date
    {
      days := days + [WithDate(date)];
      date := date + MinutesPerDay;
    }
    DayCountExact(start, end, |days|);
    if |days| > 0 {
      DayCountExact(start, end, |days| - 1);
    }
  }

  /** The same loop bounded by calendar dates instead of full timestamps. */
  method AllocateDaysByDate(start: int, end: int) returns (days: seq<Day>)
    ensures |days| == DayCountByDate(start, end)
    ensures forall k :: 0 <= k < |days| ==> days[k] == WithDate(start + k * MinutesPerDay)
  {
    days := [];
    var date := start;
    while DateOf(date) <= DateOf(end)
      invariant date == start + |days| * MinutesPerDay
      invariant DateOf(date) == DateOf(start) + |days|
      invariant |days| == 0 || DateOf(start) + |days| <= DateOf(end) + 1
      invariant forall k :: 0 <= k < |days| ==> days[k] == WithDate(start + k * MinutesPerDay)
      decreases DateOf(end) - DateOf(date)
    {
      days := days + [WithDate(date)];
      date := date + MinutesPerDay;
      DateOfShift(start, |days|);
    }
  }

  // ---------------------------------------------------------------------------
  // Buckets

  /** Whole days from `firstDate` to the date the lecture starts on. */
  function Offset(l: Lecture, firstDate: int): int {
    DateOf(l.startTime) - firstDate
  }

  /** The lectures of `s` whose offset is `k`, in input order. */
  function Bucket(s: seq<Lecture>, firstDate: int, k: int): (b: seq<Lecture>)
    ensures |b| <= |s|
  {
    if s == [] then []
    else Bucket(s[..|s| - 1], firstDate, k) + (if Offset(s[|s| - 1], firstDate) == k then [s[|s| - 1]] else [])
  }

  /** The second loop of `split_days`: each lecture is appended to the day at
      its offset when that day exists, and dropped otherwise. */
  method Distribute(emptyDays: seq<Day>, schedule: seq<Lecture>, firstDate: int) returns (days: seq<Day>)
    requires forall k :: 0 <= k < |emptyDays| ==> emptyDays[k].lectures == []
    ensures |days| == |emptyDays|
    ensures forall k :: 0 <= k < |days| ==>
              days[k].date == emptyDays[k].date && days[k].lectures == Bucket(schedule, firstDate, k)
  {
    days := emptyDays;
    for i := 0 to |schedule|
      invariant |days| == |emptyDays|
      invariant forall k :: 0 <= k < |days| ==>
                  days[k].date == emptyDays[k].date && days[k].lectures == Bucket(schedule[..i], firstDate, k)
    {
      assert schedule[..i + 1][..i] == schedule[..i];
      var lecture := schedule[i];
      var idx := DateOf(lecture.startTime) - firstDate;
      if 0 <= idx < |days| {
        days := days[idx := days[idx].(lectures := days[idx].lectures + [lecture])];
      }
    }
    assert schedule[..|schedule|] == schedule;
  }

  /** `days` are `count` consecutive 24-hour steps from the first lecture's
      start, and day `k` holds exactly the lectures whose start date is `k`
      days after the first lecture's, in input order. */
  ghost predicate IsPartition(schedule: seq<Lecture>, days: seq<Day>, count: nat)
    requires schedule != []
  {
    && |days| == count
    && forall k :: 0 <= k < |days| ==>
         && days[k].date == schedule[0].startTime + k * MinutesPerDay
         && days[k].lectures == Bucket(schedule, DateOf(schedule[0].startTime), k)
  }

  /** `split_days`: an empty schedule is an error; otherwise one day per
      24 hours from the first lecture's start while not after the last
      lecture's end, with every lecture in the day of its start date. */
  method SplitDays(schedule: seq<Lecture>) returns (r: Result<seq<Day>, string>)
    ensures r.Err? <==> schedule == []
    ensures r.Err? ==> r.error == EmptyScheduleMessage
    ensures r.Ok? ==>
              IsPartition(schedule, r.value, DayCount(schedule[0].startTime, schedule[|schedule| - 1].endTime))
  {
    if schedule == [] {
      return Err(EmptyScheduleMessage);
    }
    var startDate := schedule[0].startTime;
    var endDate := schedule[|schedule| - 1].endTime;
    var emptyDays := AllocateDays(startDate, endDate);
    var days := Distribute(emptyDays, schedule, DateOf(startDate));
    return Ok(days);
  }

  /** `split_days` with the day range counted in calendar dates, so that the
      date of the last lecture's end always gets a day. */
  method SplitDaysByDate(schedule: seq<Lecture>) returns (r: Result<seq<Day>, string>)
    ensures r.Err? <==> schedule == []
    ensures r.Err? ==> r.error == EmptyScheduleMessage
    ensures r.Ok? ==>
              IsPartition(schedule, r.value, DayCountByDate(schedule[0].startTime, schedule[|schedule| - 1].endTime))
  {
    if schedule == [] {
      return Err(EmptyScheduleMessage);
    }
    var startDate := schedule[0].startTime;
    var endDate := schedule[|schedule| - 1].endTime;
    var emptyDays := AllocateDaysByDate(startDate, endDate);
    var days := Distribute(emptyDays, schedule, DateOf(startDate));
    return Ok(days);
  }

  // ---------------------------------------------------------------------------
  // What a partition promises

  /** The days of a partition fall on consecutive calendar dates starting at
      the first lecture's date, so their dates ascend strictly and none repeats. */
  lemma PartitionDatesConsecutive(schedule: seq<Lecture>, days: seq<Day>, count: nat, j: int, k: int)
    requires schedule != [] && IsPartition(schedule, days, count)
    requires 0 <= j < k < |days|
    ensures DateOf(days[k].date) == DateOf(schedule[0].startTime) + k
    ensures DateOf(days[j].date) < DateOf(days[k].date)
  {
    DateOfShift(schedule[0].startTime, j);
    DateOfShift(schedule[0].startTime, k);
  }

  /** A lecture occurs in bucket `k` exactly as often as in the input when its
      offset is `k`, and never otherwise: no lecture is placed twice. */
  lemma {:induction false} BucketCount(s: seq<Lecture>, firstDate: int, k: int, x: Lecture)
    ensures multiset(Bucket(s, firstDate, k))[x] == if Offset(x, firstDate) == k then multiset(s)[x] else 0
  {
    if s != [] {
      BucketCount(s[..|s| - 1], firstDate, k, x);
      assert s == s[..|s| - 1] + [s[|s| - 1]];
    }
  }

  /** Bucketing distributes over concatenation: lectures earlier in the input
      stay earlier within their day. */
  lemma {:induction false} BucketAppend(a: seq<Lecture>, b: seq<Lecture>, firstDate: int, k: int)
    ensures Bucket(a + b, firstDate, k) == Bucket(a, firstDate, k) + Bucket(b, firstDate, k)
  {
    if b == [] {
      assert a + b == a;
    } else {
      BucketAppend(a, b[..|b| - 1], firstDate, k);
      assert (a + b)[..|a + b| - 1] == a + b[..|b| - 1];
    }
  }

  /** The number of lectures whose offset lies in `[0, n)`. */
  function CountInRange(s: seq<Lecture>, firstDate: int, n: int): nat {
    if s == [] then 0
    else CountInRange(s[..|s| - 1], firstDate, n) + (if 0 <= Offset(s[|s| - 1], firstDate) < n then 1 else 0)
  }

  /** At most every lecture is in range, and all are exactly when every
      offset is in range. */
  lemma {:induction false} CountInRangeBound(s: seq<Lecture>, firstDate: int, n: int)
    ensures CountInRange(s, firstDate, n) <= |s|
    ensures CountInRange(s, firstDate, n) == |s| <==>
              forall i :: 0 <= i < |s| ==> 0 <= Offset(s[i], firstDate) < n
  {
    if s != [] {
      var init := s[..|s| - 1];
      CountInRangeBound(init, firstDate, n);
      assert forall i :: 0 <= i < |init| ==> init[i] == s[i];
    }
  }

  /** Sum of the sizes of buckets `0 .. n-1`. */
  function BucketTotal(s: seq<Lecture>, firstDate: int, n: nat): nat {
    if n == 0 then 0 else BucketTotal(s, firstDate, n - 1) + |Bucket(s, firstDate, n - 1)|
  }

  lemma {:induction false} BucketTotalSnoc(s: seq<Lecture>, x: Lecture, firstDate: int, n: nat)
    ensures BucketTotal(s + [x], firstDate, n) ==
              BucketTotal(s, firstDate, n) + (if 0 <= Offset(x, firstDate) < n then 1 else 0)
  {
    if n > 0 {
      BucketTotalSnoc(s, x, firstDate, n - 1);
      assert (s + [x])[..|s + [x]| - 1] == s;
    }
  }

  lemma {:induction false} BucketTotalIsCountInRange(s: seq<Lecture>, firstDate: int, n: nat)
    ensures BucketTotal(s, firstDate, n) == CountInRange(s, firstDate, n)
  {
    if s == [] {
      BucketTotalOfEmpty(firstDate, n);
    } else {
      var init := s[..|s| - 1];
      assert s == init + [s[|s| - 1]];
      BucketTotalIsCountInRange(init, firstDate, n);
      BucketTotalSnoc(init, s[|s| - 1], firstDate, n);
    }
  }

  lemma {:induction false} BucketTotalOfEmpty(firstDate: int, n: nat)
    ensures BucketTotal([], firstDate, n) == 0
  {
    if n > 0 {
      BucketTotalOfEmpty(firstDate, n - 1);
    }
  }

  /** The number of lectures held by a sequence of days. */
  function TotalLectures(days: seq<Day>): nat {
    if days == [] then 0 else TotalLectures(days[..|days| - 1]) + |days[|days| - 1].lectures|
  }

  lemma {:induction false} TotalIsBucketTotal(schedule: seq<Lecture>, days: seq<Day>, firstDate: int)
    requires forall k :: 0 <= k < |days| ==> days[k].lectures == Bucket(schedule, firstDate, k)
    ensures TotalLectures(days) == BucketTotal(schedule, firstDate, |days|)
  {
    if days != [] {
      TotalIsBucketTotal(schedule, days[..|days| - 1], firstDate);
    }
  }

  /** A partition holds no more lectures than the input, and all of them
      exactly when every lecture's start date falls within the allocated days. */
  lemma PartitionKeepsInRange(schedule: seq<Lecture>, days: seq<Day>, count: nat)
    requires schedule != [] && IsPartition(schedule, days, count)
    ensures TotalLectures(days) == CountInRange(schedule, DateOf(schedule[0].startTime), count)
    ensures TotalLectures(days) <= |schedule|
    ensures TotalLectures(days) == |schedule| <==>
              forall i :: 0 <= i < |schedule| ==> 0 <= Offset(schedule[i], DateOf(schedule[0].startTime)) < count
  {
    var firstDate := DateOf(schedule[0].startTime);
    TotalIsBucketTotal(schedule, days, firstDate);
    BucketTotalIsCountInRange(schedule, firstDate, count);
    CountInRangeBound(schedule, firstDate, count);
  }

  // ---------------------------------------------------------------------------
  // The last calendar day

  /** Two lectures: the first starts on day 0 at 10:00, the last starts on
      day 1 at 07:00 and ends at 09:00, earlier in the day than 10:00. */
  const TwoDaySchedule: seq<Lecture> := [
    Lecture(1, 600, 680, "Lc", "287", Subject(1, "Math", "Mathematics")),
    Lecture(1, MinutesPerDay + 420, MinutesPerDay + 540, "Lc", "287", Subject(2, "CS", "Computer Science"))
  ]

  /** As written, `split_days` allocates a single day for this schedule, so
      the second lecture, on the next calendar date, is dropped. */
  lemma LastDayDroppedAsWritten()
    ensures DayCount(TwoDaySchedule[0].startTime, TwoDaySchedule[1].endTime) == 1
    ensures Offset(TwoDaySchedule[1], DateOf(TwoDaySchedule[0].startTime)) == 1
    ensures CountInRange(TwoDaySchedule, DateOf(TwoDaySchedule[0].startTime), 1) == 1 < |TwoDaySchedule|
  {
    var s, firstDate := TwoDaySchedule, DateOf(TwoDaySchedule[0].startTime);
    assert s[..|s| - 1] == [s[0]];
    assert CountInRange([s[0]], firstDate, 1) == 1 by {
      assert [s[0]][..0] == [];
    }
  }

  /** Counting calendar dates, every lecture that starts between the first
      lecture's date and the last lecture's end date gets a day, so nothing is
      dropped; in particular the two-day example keeps both lectures. */
  lemma ByDateKeepsEveryLecture(schedule: seq<Lecture>)
    requires schedule != []
    requires forall i :: 0 <= i < |schedule| ==>
               DateOf(schedule[0].startTime) <= DateOf(schedule[i].startTime) <= DateOf(schedule[|schedule| - 1].endTime)
    ensures var firstDate := DateOf(schedule[0].startTime);
            CountInRange(schedule, firstDate, DayCountByDate(schedule[0].startTime, schedule[|schedule| - 1].endTime)) == |schedule|
  {
    var firstDate := DateOf(schedule[0].startTime);
    var n := DayCountByDate(schedule[0].startTime, schedule[|schedule| - 1].endTime);
    CountInRangeBound(schedule, firstDate, n);
  }

  lemma TwoDayScheduleKeptByDate()
    ensures DayCountByDate(TwoDaySchedule[0].startTime, TwoDaySchedule[1].endTime) == 2
    ensures CountInRange(TwoDaySchedule, DateOf(TwoDaySchedule[0].startTime), 2) == |TwoDaySchedule|
  {
    ByDateKeepsEveryLecture(TwoDaySchedule);
  }

  // ---------------------------------------------------------------------------
  // Templates

  /** A pre-parsed template: literal text and `{key}` placeholders. */
  datatype Segment = Literal(text: string) | Key(name: string)
  type Template = seq<Segment>

  /** A template with every placeholder replaced by the value of its key. */
  function Expand(t: Template, value: string -> string): string {
    if t == [] then ""
    else (match t[0] case Literal(text) => text case Key(name) => value(name)) + Expand(t[1..], value)
  }

  /** Expanding two templates one after the other is expanding their
      concatenation. */
  lemma {:induction false} ExpandAppend(a: Template, b: Template, value: string -> string)
    ensures Expand(a + b, value) == Expand(a, value) + Expand(b, value)
  {
    if a != [] {
      var head := match a[0] case Literal(text) => text case Key(name) => value(name);
      assert (a + b)[0] == a[0] && (a + b)[1..] == a[1..] + b;
      ExpandAppend(a[1..], b, value);
      calc {
        Expand(a + b, value);
        head + Expand(a[1..] + b, value);
        head + (Expand(a[1..], value) + Expand(b, value));
        (head + Expand(a[1..], value)) + Expand(b, value);
        Expand(a, value) + Expand(b, value);
      }
    } else {
      assert a + b == b;
    }
  }

  /** The one-key template `{directive}` expands to the value of `directive`. */
  lemma ExpandSingleKey(directive: string, value: string -> string)
    ensures Expand([Key(directive)], value) == value(directive)
  {
    assert [Key(directive)][1..] == [];
  }

  const Sentinel := "#wtf?"

  const LectureKeys: set<string> := {
    "lecture_room", "start_time", "end_time", "number_pair",
    "lecture_type", "subject.brief", "subject.id", "subject.title"
  }

  /** The value of a lecture key (`impl FormatKey for LectureWrapper`): each of
      the eight known keys renders its own field, integers as `Display` prints
      them and times as `HH:MM`; any other key renders the sentinel, and no
      key fails. `Text.RendersIntUnique` and `Text.RendersClockUnique` show
      that these clauses leave only one possible string. */
  function LectureField(l: Lecture, key: string): (r: string)
    ensures key !in LectureKeys ==> r == Sentinel
    ensures key == "lecture_room" ==> r == l.lectureRoom
    ensures key == "lecture_type" ==> r == l.lectureType
    ensures key == "subject.brief" ==> r == l.subject.brief
    ensures key == "subject.title" ==> r == l.subject.title
    ensures key == "number_pair" ==> Text.RendersInt(r, l.numberPair)
    ensures key == "subject.id" ==> Text.RendersInt(r, l.subject.id)
    ensures key == "start_time" ==> Text.RendersClock(r, TimeOfDay(l.startTime))
    ensures key == "end_time" ==> Text.RendersClock(r, TimeOfDay(l.endTime))
  {
    if key == "lecture_room" then l.lectureRoom
    else if key == "start_time" then
      Text.HourMinuteRoundTrip(TimeOfDay(l.startTime)); Text.HourMinute(TimeOfDay(l.startTime))
    else if key == "end_time" then
      Text.HourMinuteRoundTrip(TimeOfDay(l.endTime)); Text.HourMinute(TimeOfDay(l.endTime))
    else if key == "number_pair" then
      Text.IntToStringRoundTrip(l.numberPair); Text.IntToString(l.numberPair)
    else if key == "lecture_type" then l.lectureType
    else if key == "subject.brief" then l.subject.brief
    else if key == "subject.id" then
      Text.IntToStringRoundTrip(l.subject.id); Text.IntToString(l.subject.id)
    else if key == "subject.title" then l.subject.title
    else Sentinel
  }

  /** One lecture rendered through the lecture template. */
  function LectureLine(l: Lecture, format: Template): string {
    Expand(format, key => LectureField(l, key))
  }

  /** A literal segment is copied into the line and a key segment is
      replaced by the lecture's field. */
  lemma LectureLineSegment(l: Lecture, segment: Segment)
    ensures segment.Literal? ==> LectureLine(l, [segment]) == segment.text
    ensures segment.Key? ==> LectureLine(l, [segment]) == LectureField(l, segment.name)
  {
    var value := key => LectureField(l, key);
    assert [segment][1..] == [] && Expand([segment][1..], value) == "";
    assert LectureLine(l, [segment]) == Expand([segment], value);
  }

  /** A template is rendered segment by segment: rendering a concatenation
      concatenates the renderings. */
  lemma LectureLineAppend(l: Lecture, a: Template, b: Template)
    ensures LectureLine(l, a + b) == LectureLine(l, a) + LectureLine(l, b)
  {
    ExpandAppend(a, b, key => LectureField(l, key));
  }

  /** The value of a day key (`impl FormatKey for Day`): the key is a date
      format directive applied to the day's timestamp by `formatDate`. */
  function DayLabel(day: Day, directive: string, formatDate: (string, int) -> string): (r: string)
    ensures r == formatDate(directive, day.date)
  {
    ExpandSingleKey(directive, key => formatDate(key, day.date));
    Expand([Key(directive)], key => formatDate(key, day.date))
  }

  // ---------------------------------------------------------------------------
  // Rendering the days

  const NoLectures := "No lectures"

  /** Every lecture rendered and followed by the separator, in order. */
  function JoinLectures(lectures: seq<Lecture>, format: Template, separator: string): string {
    if lectures == [] then ""
    else JoinLectures(lectures[..|lectures| - 1], format, separator) + (LectureLine(lectures[|lectures| - 1], format) + separator)
  }

  /** Joining is a concatenation: the lectures of `a` come before those of
      `b`, each followed by its own separator. */
  lemma {:induction false} JoinLecturesAppend(a: seq<Lecture>, b: seq<Lecture>, format: Template, separator: string)
    ensures JoinLectures(a + b, format, separator) == JoinLectures(a, format, separator) + JoinLectures(b, format, separator)
  {
    if b == [] {
      assert a + b == a;
    } else {
      var init, last := b[..|b| - 1], b[|b| - 1];
      JoinLecturesAppend(a, init, format, separator);
      assert (a + b)[..|a + b| - 1] == a + init && (a + b)[|a + b| - 1] == last;
      var tail := LectureLine(last, format) + separator;
      assert JoinLectures(a + b, format, separator) == JoinLectures(a + init, format, separator) + tail;
      calc {
        JoinLectures(a + b, format, separator);
        JoinLectures(a + init, format, separator) + tail;
        (JoinLectures(a, format, separator) + JoinLectures(init, format, separator)) + tail;
        JoinLectures(a, format, separator) + (JoinLectures(init, format, separator) + tail);
        JoinLectures(a, format, separator) + JoinLectures(b, format, separator);
      }
    }
  }

  /** The first lecture's line, then the rest joined. */
  lemma JoinLecturesCons(first: Lecture, rest: seq<Lecture>, format: Template, separator: string)
    ensures JoinLectures([first] + rest, format, separator) ==
              LectureLine(first, format) + separator + JoinLectures(rest, format, separator)
  {
    var line := LectureLine(first, format) + separator;
    JoinLecturesAppend([first], rest, format, separator);
    assert [first][..0] == [];
    assert JoinLectures([first], format, separator) == "" + line;
    assert "" + line == line;
  }

  /** The line printed after a day's label: the "no lectures" marker for an
      empty day, otherwise every lecture joined. */
  function DayBody(day: Day, format: Template, separator: string): (r: string)
    ensures day.lectures == [] ==> r == NoLectures + separator
    ensures day.lectures != [] ==>
              r == LectureLine(day.lectures[0], format) + separator + JoinLectures(day.lectures[1..], format, separator)
  {
    if day.lectures == [] then NoLectures + separator
    else
      JoinLecturesCons(day.lectures[0], day.lectures[1..], format, separator);
      assert [day.lectures[0]] + day.lectures[1..] == day.lectures;
      JoinLectures(day.lectures, format, separator)
  }

  /** The body line of one day, as `format_string` accumulates it. */
  method RenderDayBody(day: Day, format: Template, lectureSeparator: string) returns (line: string)
    ensures line == DayBody(day, format, lectureSeparator)
  {
    if day.lectures == [] {
      return NoLectures + lectureSeparator;
    }
    var formatted := "";
    for j := 0 to |day.lectures|
      invariant formatted == JoinLectures(day.lectures[..j], format, lectureSeparator)
    {
      assert day.lectures[..j + 1][..j] == day.lectures[..j];
      formatted := formatted + LectureLine(day.lectures[j], format);
      formatted := formatted + lectureSeparator;
    }
    assert day.lectures[..|day.lectures|] == day.lectures;
    return formatted;
  }

  /** The lines `format_string` prints: per day, in order, its label and its
      body. */
  function Rendered(format: Template, lectureSeparator: string, dayLabel: string, schedule: seq<Day>,
                    formatDate: (string, int) -> string): seq<string>
  {
    if schedule == [] then []
    else
      var day := schedule[|schedule| - 1];
      Rendered(format, lectureSeparator, dayLabel, schedule[..|schedule| - 1], formatDate)
        + [DayLabel(day, dayLabel, formatDate), DayBody(day, format, lectureSeparator)]
  }

  /** Every day, empty or not, gets two lines, in the order of the days: its
      label formatted against its date, then its body. */
  lemma {:induction false} RenderedAt(format: Template, lectureSeparator: string, dayLabel: string, schedule: seq<Day>,
                                      formatDate: (string, int) -> string, i: int)
    requires 0 <= i < |schedule|
    ensures |Rendered(format, lectureSeparator, dayLabel, schedule, formatDate)| == 2 * |schedule|
    ensures Rendered(format, lectureSeparator, dayLabel, schedule, formatDate)[2 * i] == formatDate(dayLabel, schedule[i].date)
    ensures Rendered(format, lectureSeparator, dayLabel, schedule, formatDate)[2 * i + 1] == DayBody(schedule[i], format, lectureSeparator)
  {
    var init := schedule[..|schedule| - 1];
    RenderedLength(format, lectureSeparator, dayLabel, init, formatDate);
    if i < |schedule| - 1 {
      RenderedAt(format, lectureSeparator, dayLabel, init, formatDate, i);
    }
  }

  lemma {:induction false} RenderedLength(format: Template, lectureSeparator: string, dayLabel: string, schedule: seq<Day>,
                                          formatDate: (string, int) -> string)
    ensures |Rendered(format, lectureSeparator, dayLabel, schedule, formatDate)| == 2 * |schedule|
  {
    if schedule != [] {
      RenderedLength(format, lectureSeparator, dayLabel, schedule[..|schedule| - 1], formatDate);
    }
  }

  /** `format_string`: for every day in order, the label line, then the body
      line; the lines are returned instead of printed. */
  method FormatString(format: Template, lectureSeparator: string, dayLabel: string, schedule: seq<Day>,
                      formatDate: (string, int) -> string)
    returns (lines: seq<string>)
    ensures lines == Rendered(format, lectureSeparator, dayLabel, schedule, formatDate)
  {
    lines := [];
    for d := 0 to |schedule|
      invariant lines == Rendered(format, lectureSeparator, dayLabel, schedule[..d], formatDate)
    {
      assert schedule[..d + 1][..d] == schedule[..d];
      var day := schedule[d];
      var labelLine := DayLabel(day, dayLabel, formatDate);
      var body := RenderDayBody(day, format, lectureSeparator);
      lines := lines + [labelLine, body];
    }
    assert schedule[..|schedule|] == schedule;
  }
}
