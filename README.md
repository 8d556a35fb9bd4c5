# nure_cli core, modelled in Dafny

`nure_cli` is a command-line client for the NURE university timetable. Between
its argument parser and the external `nure_tools` catalog sit four pieces of
deterministic logic, and this project models and verifies each of them:

- **Period choice** (`match_schedule`, module `Schedule`). The `schedule`
  command's `--start`, `--end`, `--week` and `--next` arguments are mapped to
  one of seven period constructors through a first-match table, falling back to
  "this day" with a warning. The table is written twice: once as the `match`
  the program uses (`ChoosePeriod`) and once as data, a list of arms tried in
  order (`ArmAt`, `FirstMatch`, `TableChoice`). They are proved to agree on
  every input.
- **Day partitioning** (`split_days` and `Day::with_date`, module `Utils`).
  - Timestamps are whole minutes in one fixed zone. The calendar date of `t`
    is `t / 1440`.
  - `AllocateDays` is the `while date <= end_date` loop. `Distribute` is the
    `for` loop that appends each lecture to the day at its date offset.
  - Both are methods proved against the specification functions `DayCount`
    and `Bucket`.
  - Lemmas then state what a partition promises: dates are consecutive and
    ascending, no lecture is placed twice, input order is kept within a day,
    and every lecture is kept exactly when its offset is in range.
- **Rendering** (`format_string` and both `FormatKey` impls, module `Utils`).
  - Templates are pre-parsed into literal and key segments.
  - The printed lines are returned as a sequence. `FormatString` and
    `RenderDayBody` are the loops, proved against `Rendered` and `DayBody`.
  - The lecture key table (`LectureField`) is proved to render each field.
    Integers come out exactly as `Display` prints them, and times exactly as
    `%H:%M` prints the time of day. Uniqueness lemmas show that these
    contracts leave only one possible string.
- **Search report** (`match_search` and `impl ValueEnum for Search`, module
  `Search`). It maps the catalog's answer to the lines printed for zero, one
  or several matches. It also gives the command-line names of the search
  kinds, which are proved injective and to round-trip.

Module `Text` renders decimal integers and `HH:MM` times. It states what a
correct rendering is (`RendersInt`, `RendersClock`) and proves that the
renderers produce it and that nothing else does. Module `Catalog` holds the catalog's value types, and
`Common` holds `Option` and `Result`.

## Model

| member | source | states |
|---|---|---|
| Schedule.ChoosePeriod | src/schedule.rs:160-172 | no start and no end map `(week, next)` to this_day / next_day / this_week / next_week; start alone without `--next` gives day_from or week_from of that same start; start and end give from_string(start, end) whatever the flags; the warning is set exactly for an end without a start or a start alone with `--next`, and then the period is this_day |
| Schedule.ChoosePeriodIsFirstMatch | src/schedule.rs:160-172 | the arm table is total (some arm matches every input), the choice equals the constructor of the first matching arm, and the warning is set exactly when that arm is the last, catch-all one |
| Schedule.MatchSchedule | src/schedule.rs:151-233 | with no entity type, prints the hint and returns no lectures; otherwise asks the catalog for the requested entity with the period the table chooses, and prints the warning line exactly in the unparseable cases |
| Schedule.SameTableForEveryKind | src/schedule.rs:160-222 | group, teacher and lecture-room commands with equal period arguments print the same lines and request the same period |
| Utils.SplitDays | src/utils.rs:38-67 | an empty schedule is the error "No lectures (hell yeah, we balling)" and only then an error; otherwise `DayCount(first start, last end)` days, day `k` dated `first start + k` days, and holding exactly the lectures whose start date is `k` days after the first lecture's, in input order |
| Utils.WithDate | src/utils.rs:126-130 | a new day has the given timestamp and no lectures |
| Utils.AllocateDays | src/utils.rs:50-55 | one day per 24-hour step from the start while not after the end; each new day is `Day::with_date` of its timestamp, so its lecture list is empty |
| Utils.DayCountExact | src/utils.rs:52-55 | day `k >= 0` is allocated exactly when `start + k` days is not after the end |
| Utils.Distribute | src/utils.rs:57-64 | after the loop, day `k` keeps its date and holds exactly the lectures whose offset is `k`; lectures with an offset outside the days are dropped |
| Utils.PartitionDatesConsecutive | src/utils.rs:45-55 | the days of a partition fall on the first lecture's date plus `k`, so their dates ascend strictly and never repeat |
| Utils.BucketCount | src/utils.rs:57-64 | a lecture occurs in day `k` as often as in the input when its offset is `k`, and not at all otherwise: no lecture is placed twice |
| Utils.BucketAppend | src/utils.rs:57-62 | bucketing distributes over concatenation, so lectures keep their input order within a day |
| Utils.PartitionKeepsInRange | src/utils.rs:57-62 | a partition holds no more lectures than the input, and all of them exactly when every lecture's offset is within the allocated days |
| Utils.LastDayDroppedAsWritten | src/utils.rs:52 | for a two-lecture schedule whose last lecture ends earlier in the day than the first starts, only one day is allocated while the second lecture's offset is 1, so it is dropped |
| Utils.SplitDaysByDate | src/utils.rs:38-67 | the corrected partition: the day range counts calendar dates from the first start to the last end; otherwise as `SplitDays` |
| Utils.ByDateKeepsEveryLecture | src/utils.rs:52-62 | with the range counted in calendar dates, every lecture whose start date lies between the first lecture's date and the last end's date is kept |
| Utils.TwoDayScheduleKeptByDate | src/utils.rs:52-62 | the corrected range gives the two-lecture example two days and keeps both lectures |
| Utils.ExpandAppend | src/utils.rs:81 | expanding a concatenation of templates is concatenating their expansions |
| Utils.ExpandSingleKey | src/utils.rs:71-72 | the label template `{label}` expands to exactly the value of the key `label` |
| Utils.LectureField | src/utils.rs:147-171 | each of the eight lecture keys renders its own field: the strings as they are, `number_pair` and `subject.id` exactly as `Display` prints them (`RendersInt`), and the two times exactly as `%H:%M` prints the time of day (`RendersClock`); any other key renders "#wtf?" |
| Utils.LectureLineSegment | src/utils.rs:80-81 | rendering a lecture through a one-segment template copies a literal and replaces a key by `LectureField` of the lecture |
| Utils.LectureLineAppend | src/utils.rs:80-81 | a lecture's line is rendered segment by segment: the rendering of a concatenated template is the concatenation of the renderings |
| Utils.DayLabel | src/utils.rs:133-141 | a day's label is the date format directive applied to that day's timestamp |
| Utils.JoinLecturesAppend | src/utils.rs:79-84 | joining lectures is a concatenation: each lecture's line is followed by its own separator, in order |
| Utils.JoinLecturesCons | src/utils.rs:79-84 | the joined body starts with the first lecture's line and a separator, then the rest joined |
| Utils.DayBody | src/utils.rs:76-86 | an empty day's body is "No lectures" plus the separator; a non-empty day's is the first lecture's line plus the separator, then the rest joined, with the trailing separator kept |
| Utils.RenderDayBody | src/utils.rs:75-86 | the accumulating loop over a day's lectures produces exactly `DayBody` |
| Utils.RenderedAt | src/utils.rs:73-87 | the output has two lines per day, in the order of the days; line `2i` is day `i`'s label formatted against its date and line `2i+1` is its body, whether empty or not |
| Utils.RenderedLength | src/utils.rs:73-87 | exactly two lines are printed per day |
| Utils.FormatString | src/utils.rs:69-88 | the printed lines are exactly `Rendered` of the days, whose shape `RenderedAt` states |
| Search.ValueVariants | src/search.rs:26-28 | exactly three variants, in the order Group, Teacher, LectureRoom, pairwise distinct |
| Search.ValueVariantsExhaustive | src/search.rs:26-28 | every search kind is among the variants |
| Search.FromPossibleValue | src/search.rs:30-36 | a name looked up among the variants yields a kind with that name, or nothing when no kind has it |
| Search.PossibleValueRoundTrip | src/search.rs:30-36 | the command-line name of every kind is looked up back to that kind |
| Search.PossibleValueInjective | src/search.rs:30-36 | `to_possible_value` is injective: distinct kinds have distinct command-line names ("group", "teacher", "lecture_room"), which are also the nouns of the search messages |
| Search.Listing | src/search.rs:56-58 | one line per match, in lookup order, each a tab followed by the shown name |
| Search.ListingRoundTrip | src/search.rs:56-58 | dropping the tab from each listed line gives back exactly the matches' names, in order |
| Search.MatchSearch | src/search.rs:39-107 | a lookup error is returned before anything is printed; zero matches print "Didn't find any <kind>s matching '<name>'"; one match prints "Found 1 <kind> with name <n>", using a teacher's full name; `n >= 2` matches print "Found n <kind>s with names:" and then exactly the listing; all of these return Ok |
| Text.ParseNatToString | src/search.rs:55 | the decimal rendering of a count parses back to the count |
| Text.IntToStringRoundTrip | src/utils.rs:157 | the decimal rendering of an integer is canonical (no leading zero, no "-0") and parses back to it |
| Text.RendersIntUnique | src/utils.rs:157 | a canonical rendering of an integer is exactly `IntToString` of it, so `RendersInt` fixes the printed text |
| Text.HourMinuteRoundTrip | src/utils.rs:153-156 | `%H:%M` of a time of day is two digits for an hour below 24, a colon and two digits for a minute below 60, together giving the time of day |
| Text.RendersClockUnique | src/utils.rs:153-156 | any string of that shape that gives a time of day is exactly `HourMinute` of it, so `RendersClock` fixes the printed text |

## Left out

- Catalog and network calls are left out. `find_exect_group/teacher/lecture_room`, `find_group/teacher/lecture_room` and `get_schedule` belong to `nure_tools`. `get_schedule` is a function parameter of `MatchSchedule`. The lookup result of `match_search` is a parameter of `MatchSearch`.
- Schedule.MatchSchedule: sends the request with the name as given, not the entity that `find_exect_*` would return, and does not model the `.unwrap()` panics when that lookup or the fetch fails. Those calls are external.
- Period internals are left out. The `Period` constructors and their date parsing are external, so they are opaque tags here, and nothing is claimed about day or week spans.
- The interactive `dialoguer::Select` prompts (`select_group`, `select_teacher`, `select_lecture_room`) are user interface, not logic.
- chrono and `runtime_format` are not modelled. Date formatting of a day label is the parameter `formatDate`. Templates arrive pre-parsed as `Literal` and `Key` segments, and the label template `{label}` is `[Key(label)]`.
- Time zones and daylight-saving shifts are not modelled. Timestamps are minutes in one fixed zone, so adding a day is adding 1440 minutes.
- Utils.Distribute: the offset `num_days() as usize` is read as an integer range check `0 <= idx < len`. A negative offset becomes a huge `usize` in the source and fails the same check.
- Search.FromPossibleValue: stands for clap's matching of an argument against `to_possible_value`. clap's own parsing (aliases, case handling) is not modelled.
- src/main.rs, the clap argument metadata and the commented-out earlier versions of `split_days` and `match_schedule` are not part of this model.
- Output goes to standard output in the source. Here the lines are returned as sequences, and `match_schedule`'s warning is returned as a line next to the lectures.

## Findings

| source | as written | input that shows it | evidently intended | confidence | as-written member | corrected member |
|---|---|---|---|---|---|---|
| src/utils.rs:52 | The day loop compares full timestamps (`date <= end_date`), but lectures are bucketed by calendar date. When the last lecture ends earlier in the day than the first one started, no day is allocated for the last calendar date, and its lectures are silently dropped. | `TwoDaySchedule`: lecture 1 on day 0, 10:00–11:20; lecture 2 on day 1, 07:00–09:00. One day is allocated and lecture 2 is lost. | One day per calendar date from the first lecture's date to the last lecture's end date, so every lecture in that range is kept. | not executed | Utils.LastDayDroppedAsWritten | Utils.SplitDaysByDate |
