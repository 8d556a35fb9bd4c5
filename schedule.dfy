/** The `schedule` command: which period a schedule is fetched for, chosen
    from the `--start`, `--end`, `--week` and `--next` arguments. */
module Schedule {
  import opened Common
  import opened Catalog

  /** The period constructors of the catalog library, as opaque tags. */
  datatype Period =
    | ThisDay
    | NextDay
    | ThisWeek
    | NextWeek
    | DayFrom(start: string)
    | WeekFrom(start: string)
    | FromString(start: string, end: string)

  /** A chosen period, and whether the "can't parse" warning was printed. */
  datatype Choice = Choice(period: Period, warned: bool)

  const WarningMessage := "Can't parse Period from given parameters, will use 'this_day'."
  const MissingTypeMessage := "Please provide a type to search. See `nure_cli schedule help`"

  /** The flag combinations for which no arm but the catch-all applies:
      an end without a start, or a start alone together with `--next`. */
  predicate Unparseable(start: Option<string>, end: Option<string>, next: bool) {
    (start.None? && end.Some?) || (start.Some? && end.None? && next)
  }

  /** The first-match table over `(start, end, week, next)`. */
  function ChoosePeriod(start: Option<string>, end: Option<string>, week: bool, next: bool): (r: Choice)
    ensures r.warned <==> Unparseable(start, end, next)
    ensures r.warned ==> r.period == ThisDay
    ensures start.Some? && end.Some? ==> r.period == FromString(start.value, end.value)
    ensures start.None? && end.None? ==>
              r.period == (if week then (if next then NextWeek else ThisWeek)
                           else (if next then NextDay else ThisDay))
    ensures start.Some? && end.None? && !next ==>
              r.period == (if week then WeekFrom(start.value) else DayFrom(start.value))
  {
    match (start, end, week, next)
    case (None, None, false, false) => Choice(ThisDay, false)
    case (None, None, false, true) => Choice(NextDay, false)
    case (None, None, true, false) => Choice(ThisWeek, false)
    case (None, None, true, true) => Choice(NextWeek, false)
    case (Some(s), None, false, false) => Choice(DayFrom(s), false)
    case (Some(s), None, true, false) => Choice(WeekFrom(s), false)
    case (Some(s), Some(e), _, _) => Choice(FromString(s, e), false)
    case (_, _, _, _) => Choice(ThisDay, true)
  }

  // The same table written as data: each arm a pattern and the constructor
  // it selects, tried in order.

  datatype OptionPattern = IsNone | IsSome | AnyOption
  datatype FlagPattern = Flag(value: bool) | AnyFlag
  datatype Constructor =
    | MakeThisDay | MakeNextDay | MakeThisWeek | MakeNextWeek
    | MakeDayFrom | MakeWeekFrom | MakeFromString | WarnThisDay
  datatype Arm = Arm(start: OptionPattern, end: OptionPattern, week: FlagPattern, next: FlagPattern, make: Constructor)

  const ArmCount := 8

  /** Arm `i` of the table, in the order the arms are tried. */
  function ArmAt(i: nat): Arm
    requires i < ArmCount
  {
    match i
    case 0 => Arm(IsNone, IsNone, Flag(false), Flag(false), MakeThisDay)
    case 1 => Arm(IsNone, IsNone, Flag(false), Flag(true), MakeNextDay)
    case 2 => Arm(IsNone, IsNone, Flag(true), Flag(false), MakeThisWeek)
    case 3 => Arm(IsNone, IsNone, Flag(true), Flag(true), MakeNextWeek)
    case 4 => Arm(IsSome, IsNone, Flag(false), Flag(false), MakeDayFrom)
    case 5 => Arm(IsSome, IsNone, Flag(true), Flag(false), MakeWeekFrom)
    case 6 => Arm(IsSome, IsSome, AnyFlag, AnyFlag, MakeFromString)
    case _ => Arm(AnyOption, AnyOption, AnyFlag, AnyFlag, WarnThisDay)
  }

  predicate OptionMatches(p: OptionPattern, o: Option<string>) {
    match p
    case IsNone => o.None?
    case IsSome => o.Some?
    case AnyOption => true
  }

  predicate FlagMatches(p: FlagPattern, b: bool) {
    p.AnyFlag? || p.value == b
  }

  predicate ArmMatches(a: Arm, start: Option<string>, end: Option<string>, week: bool, next: bool) {
    OptionMatches(a.start, start) && OptionMatches(a.end, end) && FlagMatches(a.week, week) && FlagMatches(a.next, next)
  }

  /** Index of the first arm at or after `from` that matches the input. */
  function FirstMatch(from: nat, start: Option<string>, end: Option<string>, week: bool, next: bool): (r: Option<nat>)
    requires from <= ArmCount
    ensures r.Some? ==> from <= r.value < ArmCount && ArmMatches(ArmAt(r.value), start, end, week, next)
    decreases ArmCount - from
  {
    if from == ArmCount then None
    else if ArmMatches(ArmAt(from), start, end, week, next) then Some(from)
    else FirstMatch(from + 1, start, end, week, next)
  }

  /** What an arm's constructor yields, given the strings its pattern bound. */
  function Build(make: Constructor, start: string, end: string): Choice {
    match make
    case MakeThisDay => Choice(ThisDay, false)
    case MakeNextDay => Choice(NextDay, false)
    case MakeThisWeek => Choice(ThisWeek, false)
    case MakeNextWeek => Choice(NextWeek, false)
    case MakeDayFrom => Choice(DayFrom(start), false)
    case MakeWeekFrom => Choice(WeekFrom(start), false)
    case MakeFromString => Choice(FromString(start, end), false)
    case WarnThisDay => Choice(ThisDay, true)
  }

  function Bound(o: Option<string>): string {
    if o.Some? then o.value else ""
  }

  /** The choice the table makes: the constructor of the first matching arm. */
  function TableChoice(start: Option<string>, end: Option<string>, week: bool, next: bool): Option<Choice> {
    match FirstMatch(0, start, end, week, next)
    case Some(i) =>
      if i < ArmCount then Some(Build(ArmAt(i).make, Bound(start), Bound(end))) else None
    case None => None
  }

  /** Arm `from` does not match, so the search moves on to the next arm. */
  lemma SkipArm(from: nat, start: Option<string>, end: Option<string>, week: bool, next: bool)
    requires from < ArmCount && !ArmMatches(ArmAt(from), start, end, week, next)
    ensures FirstMatch(from, start, end, week, next) == FirstMatch(from + 1, start, end, week, next)
  {
  }

  /** `ChoosePeriod` makes the same choice as the first matching arm of the
      table, and warns exactly when that arm is the catch-all, the last one. */
  ghost predicate AgreesWithTable(start: Option<string>, end: Option<string>, week: bool, next: bool) {
    && FirstMatch(0, start, end, week, next).Some?
    && TableChoice(start, end, week, next) == Some(ChoosePeriod(start, end, week, next))
    && (ChoosePeriod(start, end, week, next).warned <==> FirstMatch(0, start, end, week, next) == Some(ArmCount - 1))
  }

  /** The table is total (every input selects an arm) and `ChoosePeriod`
      agrees with it on every input. */
  lemma ChoosePeriodIsFirstMatch(start: Option<string>, end: Option<string>, week: bool, next: bool)
    ensures FirstMatch(0, start, end, week, next).Some?
    ensures TableChoice(start, end, week, next) == Some(ChoosePeriod(start, end, week, next))
    ensures ChoosePeriod(start, end, week, next).warned <==> FirstMatch(0, start, end, week, next) == Some(ArmCount - 1)
  {
    if start.None? && end.None? {
      NoStartNoEndAgrees(start, end, week, next);
    } else if start.Some? && end.None? {
      StartOnlyAgrees(start, end, week, next);
    } else if start.Some? {
      StartAndEndAgrees(start, end, week, next);
    } else {
      EndOnlyAgrees(start, end, week, next);
    }
  }

  lemma NoStartNoEndAgrees(start: Option<string>, end: Option<string>, week: bool, next: bool)
    requires start.None? && end.None?
    ensures AgreesWithTable(start, end, week, next)
  {
    if !week && !next {
      ThisDayAgrees(start, end, week, next);
    } else if !week {
      NextDayAgrees();
    } else if !next {
      ThisWeekAgrees();
    } else {
      NextWeekAgrees();
    }
  }

  lemma ThisDayAgrees(start: Option<string>, end: Option<string>, week: bool, next: bool)
    requires start.None? && end.None? && !week && !next
    ensures AgreesWithTable(start, end, week, next)
  {
    assert ArmMatches(ArmAt(0), start, end, week, next);
  }

  lemma NextDayAgrees()
    ensures AgreesWithTable(None, None, false, true)
  {
    assert FirstMatch(1, None, None, false, true) == Some(1);
  }

  lemma ThisWeekAgrees()
    ensures AgreesWithTable(None, None, true, false)
  {
    assert FirstMatch(2, None, None, true, false) == Some(2);
  }

  lemma NextWeekAgrees()
    ensures AgreesWithTable(None, None, true, true)
  {
    assert FirstMatch(3, None, None, true, true) == Some(3);
  }

  lemma StartOnlyAgrees(start: Option<string>, end: Option<string>, week: bool, next: bool)
    requires start.Some? && end.None?
    ensures AgreesWithTable(start, end, week, next)
  {
    SkipNoneNoneArms(start, end, week, next);
    if next {
      SkipDayFromArms(start, end, week, next);
      SkipArm(6, start, end, week, next);
    } else if week {
      SkipArm(4, start, end, week, next);
    }
  }

  lemma StartAndEndAgrees(start: Option<string>, end: Option<string>, week: bool, next: bool)
    requires start.Some? && end.Some?
    ensures AgreesWithTable(start, end, week, next)
  {
    SkipNoneNoneArms(start, end, week, next);
    SkipDayFromArms(start, end, week, next);
  }

  lemma EndOnlyAgrees(start: Option<string>, end: Option<string>, week: bool, next: bool)
    requires start.None? && end.Some?
    ensures AgreesWithTable(start, end, week, next)
  {
    SkipNoneNoneArms(start, end, week, next);
    SkipDayFromArms(start, end, week, next);
    SkipArm(6, start, end, week, next);
  }

  lemma SkipDayFromArms(start: Option<string>, end: Option<string>, week: bool, next: bool)
    requires end.Some? || next
    ensures FirstMatch(4, start, end, week, next) == FirstMatch(6, start, end, week, next)
  {
    SkipArm(4, start, end, week, next);
    SkipArm(5, start, end, week, next);
  }

  lemma SkipNoneNoneArms(start: Option<string>, end: Option<string>, week: bool, next: bool)
    requires start.Some? || end.Some?
    ensures FirstMatch(0, start, end, week, next) == FirstMatch(4, start, end, week, next)
  {
    SkipArm(0, start, end, week, next);
    SkipArm(1, start, end, week, next);
    SkipArm(2, start, end, week, next);
    SkipArm(3, start, end, week, next);
  }

  /** The `schedule` subcommand: which entity, its name and the period
      arguments. */
  datatype Command =
    | GroupSchedule(name: string, week: bool, next: bool, startTime: Option<string>, endTime: Option<string>)
    | TeacherSchedule(name: string, week: bool, next: bool, startTime: Option<string>, endTime: Option<string>)
    | LectureRoomSchedule(name: string, week: bool, next: bool, startTime: Option<string>, endTime: Option<string>)

  /** Lines printed, and the lectures returned. */
  datatype Outcome = Outcome(lines: seq<string>, lectures: seq<Lecture>)

  function RequestOf(c: Command): Request {
    match c
    case GroupSchedule(name, _, _, _, _) => GroupRequest(name)
    case TeacherSchedule(name, _, _, _, _) => TeacherRequest(name)
    case LectureRoomSchedule(name, _, _, _, _) => LectureRoomRequest(name)
  }

  /** `match_schedule`: chooses the period by the table (printing the warning
      when the catch-all applies), then returns the catalog's schedule for the
      request; with no entity type, prints a hint and returns no lectures.
      `getSchedule` stands for the catalog's fetch. */
  function MatchSchedule(searchType: Option<Command>, getSchedule: (Request, Period) -> seq<Lecture>): (r: Outcome)
    ensures searchType.None? ==> r == Outcome([MissingTypeMessage], [])
    ensures searchType.Some? ==>
              var c := searchType.value;
              var choice := ChoosePeriod(c.startTime, c.endTime, c.week, c.next);
              && r.lectures == getSchedule(RequestOf(c), choice.period)
              && r.lines == (if Unparseable(c.startTime, c.endTime, c.next) then [WarningMessage] else [])
  {
    match searchType
    case Some(GroupSchedule(name, week, next, startTime, endTime)) =>
      var choice := ChoosePeriod(startTime, endTime, week, next);
      Outcome(if choice.warned then [WarningMessage] else [], getSchedule(GroupRequest(name), choice.period))
    case Some(TeacherSchedule(name, week, next, startTime, endTime)) =>
      var choice := ChoosePeriod(startTime, endTime, week, next);
      Outcome(if choice.warned then [WarningMessage] else [], getSchedule(TeacherRequest(name), choice.period))
    case Some(LectureRoomSchedule(name, week, next, startTime, endTime)) =>
      var choice := ChoosePeriod(startTime, endTime, week, next);
      Outcome(if choice.warned then [WarningMessage] else [], getSchedule(LectureRoomRequest(name), choice.period))
    case None =>
      Outcome([MissingTypeMessage], [])
  }

  /** The three entity kinds choose the period identically: two commands with
      the same period arguments ask the catalog for the same period and print
      the same lines, whatever entity they name. */
  lemma SameTableForEveryKind(a: Command, b: Command, getSchedule: (Request, Period) -> seq<Lecture>)
    requires a.week == b.week && a.next == b.next && a.startTime == b.startTime && a.endTime == b.endTime
    ensures MatchSchedule(Some(a), getSchedule).lines == MatchSchedule(Some(b), getSchedule).lines
    ensures var ra, rb := RequestOf(a), RequestOf(b);
            MatchSchedule(Some(a), getSchedule).lectures == getSchedule(ra, ChoosePeriod(a.startTime, a.endTime, a.week, a.next).period)
            && MatchSchedule(Some(b), getSchedule).lectures == getSchedule(rb, ChoosePeriod(a.startTime, a.endTime, a.week, a.next).period)
  {
  }
}
