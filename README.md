# Thermostat schedule model

A Dafny model of the core of an Android thermostat client. The app keeps
a week program: for each day of the week, a `DaySchedule` of at most five
day-temperature periods. It shows temperatures, and talks XML to a course
web service that stores the thermostat's state.

The model covers:

- **`Time` and `Period`** (`time.dfy`, `period.dfy`): minutes of the day
  with 24:00 as the "undefined" end of day, and validated intervals. Both
  have their constructors' argument checks, `intersects`, `combine` and
  `compareTo`.
- **`DAY`** (`day.dfy`): the seven constants and their ids.
- **`DaySchedule`** (`day_schedule.dfy`): a class whose `TreeSet` of
  periods is a strictly start-ordered sequence. `addDayPeriod` merges with
  the floor and the higher neighbour, and throws when five periods would
  remain. `deleteDayPeriod` removes by start. The `TreeSet` operations are
  specified as functions on sequences, and the methods are proved against
  them.
- **`ParsedThermostat`** (`parsed_thermostat.dfy`): the eight-field record.
  It holds its week program either as `DaySchedule` objects or, in
  specifications, as plain period sequences.
- **`XmlParser`**: the document shapes and what they mean, as functions
  (`xml_format.dfy`). The parser and serializer loops are methods proved
  against those functions (`xml_parser.dfy`). An encode/decode round trip
  is proved for schedules with gaps between their periods. The readers as
  written, where they differ, are in `xml_findings.dfy`.
- **`XmlToJavaParser`** (`xml_to_java_parser.dfy`): `nameToDay`,
  `onOffToBoolean` and the element-name dispatch of `readThermostat`.
- **`WebService`** (`web_service.dfy`): the switch from the primary host to
  the backup host, the upload table (option to path, element and body),
  and the GET/PUT dispatch. A reply is modelled as a status code and
  whether the response has a body. The upload as written is in
  `web_findings.dfy`.
- **`Thermostat`** (`thermostat.dfy`): the aggregate class. It covers its
  constructor, the mutators and the upload requests they send, and
  `onReceive`, which installs a fetched record and then notifies the
  listeners in order.

Java exceptions and `null` dereferences are `Err` values of a `Result`
(`IllegalArgument`, `XmlPull`, `NullPointer`, `OutOfBounds`), and a Java
`null` field is `None`.

### Behaviour of the code that the model keeps

- Zero-length periods are accepted by the `Period` constructor.
- `deleteDayPeriod` matches on the start minute only, whatever the end.
- Stored periods are not guaranteed to be disjoint: a period reaching past
  its higher neighbour merges only with that neighbour
  (`DaySchedules.AddMayLeaveOverlap`).
- `parse` catches only `XmlPullParserException` (and `IOException`); any
  other exception escapes it.
- `readWeekProgram` reads neither the `state` attribute nor the day names:
  days are taken by position.
- `getData` and `putData` move to the backup host only on a status other
  than 200 and 404, or on a 200 reply without a body for a GET. An
  `IOException` is only logged, and the host does not change. A 404 to a
  GET is never parsed: `getInputStream` throws a FileNotFoundException for
  it, which is logged like any `IOException`.
- A `switch` without a `state` attribute hands null to `onOffToBoolean`.
  The NullPointerException escapes `parse`
  (`XmlFormat.MissingStateEscapes`).
- The encode/decode round trip holds only for schedules with a gap between
  consecutive periods (`XmlFormat.Separated`). Touching periods would be
  merged on the way back in.
- `readDay` and `serialize` call `DAY.getByName`, `DAY.getById` and
  `getFullName`, which `utils/DAY.java` does not declare. The model uses
  `XmlToJavaParser.NameToDay`, `Days.FromId` and
  `XmlToJavaParser.FullName` in their place.

Six defects are listed under "Findings": five in `XmlParser` and one in
`WebService`. The most far-reaching is at lines 223 and 246 of
`parser/XmlParser.java`. There each end tag is required where the parser
does not stand, so as written no document holding a week program is ever
read. The defects in the pairing loop of `readDayProgram` sit behind that
one. The rest of the model uses the corrected readings: each end tag is
required after the parser has moved onto it, and the `putData` body is
written before the status is read.

## Model

| member | source | states |
|---|---|---|
| Times.GetTime | app/src/main/java/nl/tue/hti/g33/thermostat/utils/Time.java:73-76 | minutes since midnight, always in 0..1440, and 1440 exactly for `UNDEFINED` |
| Times.GetTimeH | app/src/main/java/nl/tue/hti/g33/thermostat/utils/Time.java:84-87 | the hour field is in 0..24 and is the minute count divided by 60 |
| Times.GetTimeM | app/src/main/java/nl/tue/hti/g33/thermostat/utils/Time.java:95-98 | the minute field is in 0..59 and is the minute count modulo 60 |
| Times.FromMinutes | app/src/main/java/nl/tue/hti/g33/thermostat/utils/Time.java:35-43 | `Time(int)` succeeds exactly for 0..1440, otherwise IllegalArgumentException; `getTime()` gives the argument back |
| Times.FromHourMinute | app/src/main/java/nl/tue/hti/g33/thermostat/utils/Time.java:56-65 | `Time(h, m)` succeeds exactly for hours 0..24, minutes 0..59 and 24 only with 0 minutes; the getters give both arguments back |
| Times.MinutesDetermineTime | app/src/main/java/nl/tue/hti/g33/thermostat/utils/Time.java:73-76 | two times are equal exactly when their minute counts are |
| Times.ConstructorsRoundTrip | app/src/main/java/nl/tue/hti/g33/thermostat/utils/Time.java:35-65 | rebuilding a time from its minute count or from its fields with either constructor gives the same time |
| Times.ToString | app/src/main/java/nl/tue/hti/g33/thermostat/utils/Time.java:107-111 | `toString` is five characters with a colon in the middle |
| Times.ToStringParses | app/src/main/java/nl/tue/hti/g33/thermostat/utils/Time.java:107-111 | both zero-padded fields of `toString` are digits that parse back to the hour and the minute |
| Times.UndefinedIsLatest | app/src/main/java/nl/tue/hti/g33/thermostat/utils/Time.java:24 | `UNDEFINED` is the latest time (1440 minutes) and prints as "24:00" |
| Times.CompareTo | app/src/main/java/nl/tue/hti/g33/thermostat/utils/Time.java:124-127 | the sign of `compareTo` is the sign of the difference of the minute counts; zero exactly for equal times |
| Periods.Start | app/src/main/java/nl/tue/hti/g33/thermostat/utils/Period.java:58-61 | the start minute is in 0..1439 |
| Periods.End | app/src/main/java/nl/tue/hti/g33/thermostat/utils/Period.java:94-97 | the end minute lies between the start and 1440 |
| Periods.StartTime | app/src/main/java/nl/tue/hti/g33/thermostat/utils/Period.java:49-52 | the start as a `Time` has the start minute count |
| Periods.EndTime | app/src/main/java/nl/tue/hti/g33/thermostat/utils/Period.java:85-88 | the end as a `Time` has the end minute count |
| Periods.New | app/src/main/java/nl/tue/hti/g33/thermostat/utils/Period.java:30-44 | the constructor succeeds exactly for start hour 0..23, minutes 0..59, end hour 0..24 (24 only with 0 minutes) and start not after end, zero-length periods included; otherwise IllegalArgumentException |
| Periods.IntersectsIffSharedMinute | app/src/main/java/nl/tue/hti/g33/thermostat/utils/Period.java:122-130 | `intersects` holds exactly when the closed ranges share a minute, so touching periods intersect |
| Periods.IntersectsSymmetricReflexive | app/src/main/java/nl/tue/hti/g33/thermostat/utils/Period.java:122-130 | `intersects` is symmetric and reflexive |
| Periods.Combine | app/src/main/java/nl/tue/hti/g33/thermostat/utils/Period.java:139-155 | `combine` throws unless the periods intersect; otherwise it runs from the earlier start to the later end |
| Periods.CombineIsUnion | app/src/main/java/nl/tue/hti/g33/thermostat/utils/Period.java:139-155 | the combination covers exactly the minutes either period covers, and `combine` is commutative |
| Periods.CompareTo | app/src/main/java/nl/tue/hti/g33/thermostat/utils/Period.java:180-183 | `compareTo` orders by start minute only; zero exactly for equal starts |
| Periods.CompareIgnoresEnd | app/src/main/java/nl/tue/hti/g33/thermostat/utils/Period.java:180-183 | any two periods with the same start and different ends are different periods that compare as equal |
| Periods.ToString | app/src/main/java/nl/tue/hti/g33/thermostat/utils/Period.java:162-165 | the text is the start's h:m text, " – " and the end's h:m text, on one line, and nothing else |
| Periods.ClockText | app/src/main/java/nl/tue/hti/g33/thermostat/utils/Period.java:162-165 | one h:m half: the unpadded hour, a colon, the unpadded minute; both numbers read back from their digits, and a one-digit hour is followed at once by the colon |
| Days.Id | app/src/main/java/nl/tue/hti/g33/thermostat/utils/DAY.java:9-35 | every id is in 0..6 |
| Days.IdsFollowDeclarationOrder | app/src/main/java/nl/tue/hti/g33/thermostat/utils/DAY.java:9-15 | the seven constants are declared in id order, each once |
| Days.FromId | app/src/main/java/nl/tue/hti/g33/thermostat/parser/XmlParser.java:67 | the day with a given id exists exactly for 0..6 and has that id |
| DaySchedules.Floor | app/src/main/java/nl/tue/hti/g33/thermostat/utils/DaySchedule.java:44 | `floor` gives the stored period with the greatest start not after the new start, or none when all start later |
| DaySchedules.Higher | app/src/main/java/nl/tue/hti/g33/thermostat/utils/DaySchedule.java:45 | `higher` gives the stored period with the least start after the new start, or none |
| DaySchedules.RemoveKey | app/src/main/java/nl/tue/hti/g33/thermostat/utils/DaySchedule.java:75 | removal drops exactly the stored period with the given start, keeping the order |
| DaySchedules.Insert | app/src/main/java/nl/tue/hti/g33/thermostat/utils/DaySchedule.java:63 | `add` inserts in start order unless a period with that start is already stored |
| DaySchedules.MergeNeighboursFacts | app/src/main/java/nl/tue/hti/g33/thermostat/utils/DaySchedule.java:44-55 | after the two merge steps the period to insert covers exactly the new period and the merged neighbours, and only those neighbours were removed |
| DaySchedules.Add | app/src/main/java/nl/tue/hti/g33/thermostat/utils/DaySchedule.java:42-64 | `addDayPeriod` keeps the start order and never stores more than five periods |
| DaySchedules.AddThrowsOnlyWhenFull | app/src/main/java/nl/tue/hti/g33/thermostat/utils/DaySchedule.java:48-62 | from at most five periods the call throws exactly when five are stored and neither neighbour merges, and then the set is unchanged |
| DaySchedules.AddCoversAndKeepsOthers | app/src/main/java/nl/tue/hti/g33/thermostat/utils/DaySchedule.java:48-63 | a successful call stores a period covering exactly the new period and the merged neighbours, keeps every other stored period and adds nothing else |
| DaySchedules.AdjacentPeriodsMerge | app/src/main/java/nl/tue/hti/g33/thermostat/utils/DaySchedule.java:48-55 | 13:00-15:00 then 15:00-16:00 leave the single period 13:00-16:00 |
| DaySchedules.AddMayLeaveOverlap | app/src/main/java/nl/tue/hti/g33/thermostat/utils/DaySchedule.java:44-55 | a period that reaches past its higher neighbour can leave two overlapping stored periods |
| DaySchedules.DeleteMatchesStartOnly | app/src/main/java/nl/tue/hti/g33/thermostat/utils/DaySchedule.java:73-76 | deletion removes the stored period with the given start whatever its end, and otherwise changes nothing |
| DaySchedules.RenderOneLinePerPeriod | app/src/main/java/nl/tue/hti/g33/thermostat/utils/DaySchedule.java:95-102 | `toString` writes one line per stored period |
| DaySchedules.DaySchedule.constructor | app/src/main/java/nl/tue/hti/g33/thermostat/utils/DaySchedule.java:24-27 | a new schedule is empty |
| DaySchedules.DaySchedule.AddDayPeriod | app/src/main/java/nl/tue/hti/g33/thermostat/utils/DaySchedule.java:42-64 | the stored periods become those of `Add`; the call fails exactly when `Add` throws, leaving the set unchanged |
| DaySchedules.DaySchedule.DeleteDayPeriod | app/src/main/java/nl/tue/hti/g33/thermostat/utils/DaySchedule.java:73-76 | the stored periods lose the one with the period's start |
| DaySchedules.DaySchedule.GetSchedule | app/src/main/java/nl/tue/hti/g33/thermostat/utils/DaySchedule.java:83-86 | the stored periods in ascending start order, at most five |
| DaySchedules.DaySchedule.ToString | app/src/main/java/nl/tue/hti/g33/thermostat/utils/DaySchedule.java:95-102 | the text is each stored period's line in ascending order |
| Decimal.ParseToDecimal | app/src/main/java/nl/tue/hti/g33/thermostat/utils/Time.java:107-111 | what `Integer.toString` writes for a non-negative number parses back to it |
| XmlToJavaParser.NameToDay | app/src/main/java/nl/tue/hti/g33/thermostat/parser/XmlToJavaParser.java:212-231 | exactly the seven capitalised English day names are accepted; anything else is an IllegalArgumentException |
| XmlToJavaParser.NameToDayInvertsFullName | app/src/main/java/nl/tue/hti/g33/thermostat/parser/XmlToJavaParser.java:212-231 | each day's name maps back to that day and only that name does, so the mapping is injective and case-sensitive |
| XmlToJavaParser.OnOffToBoolean | app/src/main/java/nl/tue/hti/g33/thermostat/parser/XmlToJavaParser.java:234-237 | true exactly for "on" |
| XmlToJavaParser.OnOffRoundTrip | app/src/main/java/nl/tue/hti/g33/thermostat/parser/XmlParser.java:278-281 | the "on"/"off" written for a flag reads back as that flag; "ON" and "" read as false |
| XmlToJavaParser.DispatchAcceptsExactlyKnownNames | app/src/main/java/nl/tue/hti/g33/thermostat/parser/XmlToJavaParser.java:56-96 | the name dispatch accepts exactly the eight element names, each selecting its own field |
| Parsed.Blank | app/src/main/java/nl/tue/hti/g33/thermostat/parser/ParsedThermostat.java:15-22 | a new record has every reference null, the flag false and the time 0 |
| Parsed.WeekContentsAppend | app/src/main/java/nl/tue/hti/g33/thermostat/parser/XmlParser.java:220 | appending a schedule to a week list appends its periods |
| XmlFormat.ReadClock | app/src/main/java/nl/tue/hti/g33/thermostat/parser/XmlParser.java:250-256 | a time text reads exactly when it has five characters and both fields at [0,2) and [3,5) are numbers; a text shorter than two characters is out of bounds |
| XmlFormat.ReadTime | app/src/main/java/nl/tue/hti/g33/thermostat/parser/XmlParser.java:158-165 | `readTime` fails exactly when the fixed-offset reading fails, with the same error |
| XmlFormat.ReadClockInvertsToString | app/src/main/java/nl/tue/hti/g33/thermostat/utils/Time.java:107-111 | the padded text of a time reads back as that time, whatever follows the fifth character |
| XmlFormat.OnTextsConcat | app/src/main/java/nl/tue/hti/g33/thermostat/parser/XmlParser.java:236-243 | on-texts are collected in document order, and only switches whose state is exactly "on" contribute |
| XmlFormat.PairPeriod | app/src/main/java/nl/tue/hti/g33/thermostat/parser/XmlParser.java:249-262 | a pair of texts becomes the period between them, a missing end standing for 24:00 |
| XmlFormat.DecodeTexts | app/src/main/java/nl/tue/hti/g33/thermostat/parser/XmlParser.java:247-264 | texts are paired (0,1), (2,3), … and each period added in order to an empty schedule; the result keeps the start order and the five-period limit |
| XmlFormat.DecodeTextsPrefixErr | app/src/main/java/nl/tue/hti/g33/thermostat/parser/XmlParser.java:247-264 | the first failing pair decides the error of the whole pairing |
| XmlFormat.DecodeDay | app/src/main/java/nl/tue/hti/g33/thermostat/parser/XmlParser.java:227-266 | with the day's end tag required after the parser moves onto it: a success is a day of exactly ten `switch` elements with a `state` each, and its periods are sorted and within the limit; any other day is an XmlPullParserException or, for a missing `state`, a NullPointerException |
| XmlFormat.Fault | app/src/main/java/nl/tue/hti/g33/thermostat/parser/XmlParser.java:235-236 | a child that is not a `switch` fails the `require`; a switch without a `state` hands null to `onOffToBoolean` (line 280) |
| XmlFormat.SwitchFault | app/src/main/java/nl/tue/hti/g33/thermostat/parser/XmlParser.java:233-245 | reading `n` switches without a fault means at least `n` readable switches; a fault is an XmlPullParserException or, only when some switch lacks a `state`, a NullPointerException |
| XmlFormat.FirstFault | app/src/main/java/nl/tue/hti/g33/thermostat/parser/XmlParser.java:233-245 | the first faulty child of a day decides the read: a non-`switch` child is an XmlPullParserException, a switch without a `state` a NullPointerException |
| XmlFormat.ShortRead | app/src/main/java/nl/tue/hti/g33/thermostat/parser/XmlParser.java:233-235 | a day with fewer than ten children, all readable switches, runs out of children: an XmlPullParserException |
| XmlFormat.SwitchFaultSame | app/src/main/java/nl/tue/hti/g33/thermostat/parser/XmlParser.java:233-245 | the read depends only on each child's tag and on whether it has a `state` |
| XmlFormat.DecodeDayFaults | app/src/main/java/nl/tue/hti/g33/thermostat/parser/XmlParser.java:236 | a day whose first fault is a missing `state` is a NullPointerException |
| XmlFormat.DecodeWellFormedDay | app/src/main/java/nl/tue/hti/g33/thermostat/parser/XmlParser.java:227-266 | a day of readable switches is an XmlPullParserException unless it has exactly ten, and then decodes as its on-texts paired |
| XmlFormat.DecodeDayIgnores | app/src/main/java/nl/tue/hti/g33/thermostat/parser/XmlParser.java:232-246 | switches whose `state` is present but not "on", the day's name and the switch types never change the decoded day |
| XmlFormat.DecodeDaysAt | app/src/main/java/nl/tue/hti/g33/thermostat/parser/XmlParser.java:218-222 | day `i` of the week is the decoding of the `i`-th day element, and one malformed day fails the whole week |
| XmlFormat.DecodeWeek | app/src/main/java/nl/tue/hti/g33/thermostat/parser/XmlParser.java:212-225 | with the week's end tag required after the parser moves onto it: exactly seven days are read and the end tag must follow; the result is seven schedules, each in start order and within the limit |
| XmlFormat.DecodeWeekPrefixErr | app/src/main/java/nl/tue/hti/g33/thermostat/parser/XmlParser.java:218-222 | a failing day among the first seven decides the error of the week program |
| XmlFormat.ApplyChild | app/src/main/java/nl/tue/hti/g33/thermostat/parser/XmlParser.java:118-145 | an unknown element name is an XmlPullParserException; only a `week_program` element changes the week program, and to its decoding |
| XmlFormat.DecodeChildren | app/src/main/java/nl/tue/hti/g33/thermostat/parser/XmlParser.java:113-146 | a successful read saw only known element names and leaves a well-shaped week program |
| XmlFormat.DecodeThermostat | app/src/main/java/nl/tue/hti/g33/thermostat/parser/XmlParser.java:107-148 | the root must be `thermostat`; a successful read has only known children and a well-shaped week program |
| XmlFormat.DecodeChildrenConcat | app/src/main/java/nl/tue/hti/g33/thermostat/parser/XmlParser.java:113-146 | reading two runs of children one after the other is reading their concatenation |
| XmlFormat.LastChildWins | app/src/main/java/nl/tue/hti/g33/thermostat/parser/XmlParser.java:122-124 | when several `time` children appear, the last one decides the time |
| XmlFormat.UnknownChildFails | app/src/main/java/nl/tue/hti/g33/thermostat/parser/XmlParser.java:143-144 | one child with an unknown name fails the whole read |
| XmlFormat.MissingStateEscapes | app/src/main/java/nl/tue/hti/g33/thermostat/parser/XmlParser.java:36-55 | a week program whose first day lacks a `state` makes the document a NullPointerException, which `parse` does not catch |
| XmlFormat.MidnightText | app/src/main/java/nl/tue/hti/g33/thermostat/parser/XmlParser.java:80 | only the end of the day is written as "24:00" |
| XmlFormat.PeriodSwitches | app/src/main/java/nl/tue/hti/g33/thermostat/parser/XmlParser.java:70-87 | a period gives an on "day" switch with its start and, unless it ends at 24:00, an on "night" switch with its end |
| XmlFormat.ScheduleSwitches | app/src/main/java/nl/tue/hti/g33/thermostat/parser/XmlParser.java:69-88 | a schedule gives one or two switches per period |
| XmlFormat.Padding | app/src/main/java/nl/tue/hti/g33/thermostat/parser/XmlParser.java:89-95 | the padding has `cnt` switches when `cnt` is positive and none otherwise |
| XmlFormat.EncodeDay | app/src/main/java/nl/tue/hti/g33/thermostat/parser/XmlParser.java:66-97 | a `day` element carrying the given day name |
| XmlFormat.EncodeWeek | app/src/main/java/nl/tue/hti/g33/thermostat/parser/XmlParser.java:62-98 | a `week_program` element with seven days whose `state` attribute reads back as the on/off flag |
| XmlFormat.EncodeDaysAt | app/src/main/java/nl/tue/hti/g33/thermostat/parser/XmlParser.java:64-67 | day element `i` carries the full name of the day with id `i` and the schedule of day `i` |
| XmlFormat.PairPeriodInvertsSwitches | app/src/main/java/nl/tue/hti/g33/thermostat/parser/XmlParser.java:247-264 | the texts written for a period read back as that period, through the 24:00 fallback when the end switch was left out |
| XmlFormat.DecodeScheduleTexts | app/src/main/java/nl/tue/hti/g33/thermostat/parser/XmlParser.java:247-264 | a schedule with gaps between its periods decodes from its own on-texts |
| XmlFormat.PadToTenFacts | app/src/main/java/nl/tue/hti/g33/thermostat/parser/XmlParser.java:89-95 | padding up to ten gives exactly ten switches and adds no on-text |
| XmlFormat.EncodedDayShape | app/src/main/java/nl/tue/hti/g33/thermostat/parser/XmlParser.java:232-246 | an encoded day has exactly the ten switches the reader requires, and its on-texts are the schedule's own |
| XmlFormat.DayRoundTrip | app/src/main/java/nl/tue/hti/g33/thermostat/parser/XmlParser.java:66-97 | a day with gaps between its periods decodes back to the same schedule |
| XmlFormat.WeekRoundTrip | app/src/main/java/nl/tue/hti/g33/thermostat/parser/XmlParser.java:57-105 | a week of such schedules decodes back to the same seven schedules; the `state` attribute is not read back |
| XmlParser.ReadDayProgram | app/src/main/java/nl/tue/hti/g33/thermostat/parser/XmlParser.java:227-266 | a new schedule; the `day` start tag required, then succeeds exactly when the day decodes, with a valid schedule holding the decoded periods; otherwise the same error, a missing `state` included |
| XmlParser.ReadSwitches | app/src/main/java/nl/tue/hti/g33/thermostat/parser/XmlParser.java:232-246 | the first faulty child of the ten, or running out of children, is the error; more than ten children fail the end tag; otherwise the on-texts of the ten switches in document order |
| XmlParser.PairTexts | app/src/main/java/nl/tue/hti/g33/thermostat/parser/XmlParser.java:247-264 | the pairing loop adds to the empty schedule exactly the periods `DecodeTexts` gives, or fails with its error |
| XmlParser.ReadWeekProgram | app/src/main/java/nl/tue/hti/g33/thermostat/parser/XmlParser.java:212-225 | with the week's end tag required after the parser moves onto it: succeeds exactly when the week decodes, with seven new, distinct, valid schedules holding the decoded periods; otherwise the same error |
| XmlParser.AddDayProgram | app/src/main/java/nl/tue/hti/g33/thermostat/parser/XmlParser.java:219-221 | one loop turn: fails exactly when the days read so far fail, with that error; otherwise one new valid schedule appended, and the list holds the days decoded so far |
| XmlParser.ReadThermostat | app/src/main/java/nl/tue/hti/g33/thermostat/parser/XmlParser.java:107-148 | the record read holds exactly what `DecodeThermostat` gives, with a well-formed week program; errors are the same |
| XmlParser.ReadChild | app/src/main/java/nl/tue/hti/g33/thermostat/parser/XmlParser.java:117-145 | one child read into the record as `ApplyChild` says |
| XmlParser.Parse | app/src/main/java/nl/tue/hti/g33/thermostat/parser/XmlParser.java:36-55 | an XmlPullParserException gives null, any other error escapes, and a success holds the decoded record |
| XmlParser.WritePeriod | app/src/main/java/nl/tue/hti/g33/thermostat/parser/XmlParser.java:70-87 | the switches written for a period are `PeriodSwitches` |
| XmlParser.WritePadding | app/src/main/java/nl/tue/hti/g33/thermostat/parser/XmlParser.java:89-95 | the padding loop, with its counter counting down, writes exactly the switches `PadToTen` adds |
| XmlParser.SerializeDay | app/src/main/java/nl/tue/hti/g33/thermostat/parser/XmlParser.java:66-97 | the day element written for a schedule is `EncodeDay` |
| XmlParser.Serialize | app/src/main/java/nl/tue/hti/g33/thermostat/parser/XmlParser.java:57-105 | no week program dereferences null; otherwise the week program written is `EncodeWeek` of the flag and the seven schedules |
| WebService.NextHost | app/src/main/java/nl/tue/hti/g33/thermostat/service/WebService.java:99-115 | the host changes only to the backup host, and only after a failing status or a missing body |
| WebService.HostAfter | app/src/main/java/nl/tue/hti/g33/thermostat/service/WebService.java:42 | after any run of requests the host is the one started with or the backup host |
| WebService.FailoverIsSticky | app/src/main/java/nl/tue/hti/g33/thermostat/service/WebService.java:106 | the backup host is never left; from the primary host the service ends on the backup host exactly when some reply failed over |
| WebService.GetOutcomes | app/src/main/java/nl/tue/hti/g33/thermostat/service/WebService.java:99-116 | a GET reply is parsed, fails over, or keeps the host unparsed, the last exactly for an `IOException` or a 404 |
| WebService.UploadTarget | app/src/main/java/nl/tue/hti/g33/thermostat/service/WebService.java:144-177 | exactly the five upload options are accepted, each sent as the element of its own name except the target temperature, sent to `currentTemperature` as `current_temperature`; any other option throws |
| WebService.UploadPathsDistinct | app/src/main/java/nl/tue/hti/g33/thermostat/service/WebService.java:144-177 | different options go to different paths, never to `targetTemperature` |
| WebService.UploadBody | app/src/main/java/nl/tue/hti/g33/thermostat/service/WebService.java:144-177 | the body of each option: a missing value dereferences null, the state is "on"/"off", the week program is serialized |
| WebService.WebService.constructor | app/src/main/java/nl/tue/hti/g33/thermostat/service/WebService.java:42 | the service starts on the primary host |
| WebService.WebService.GetData | app/src/main/java/nl/tue/hti/g33/thermostat/service/WebService.java:85-134 | the request goes to the preferred host; the host then follows `NextHost`, and the body is parsed exactly for a 200 reply with a body, never for a 404 |
| WebService.WebService.PutData | app/src/main/java/nl/tue/hti/g33/thermostat/service/WebService.java:136-207 | with the body written before the status is read: a body that cannot be built throws before connecting; otherwise the body goes to the option's path on the preferred host unless connecting fails, and the host then follows `NextHost` |
| WebService.WebService.HandleIntent | app/src/main/java/nl/tue/hti/g33/thermostat/service/WebService.java:69-83 | "GET" is the fetch from the old host with its parse outcome; "PUT" is exactly the request `PutData` sends (the option's path on the old host with its body, none when connecting fails) or the body's error; the host follows `NextHost`; any other mode changes nothing |
| Thermostats.UploadCopy | app/src/main/java/nl/tue/hti/g33/thermostat/utils/Thermostat.java:210-215 | the copy holds the week program, its flag and the day, night and target temperatures, with the other fields at their defaults |
| Thermostats.UploadCopyKeepsBodies | app/src/main/java/nl/tue/hti/g33/thermostat/utils/Thermostat.java:210-215 | the copy builds the same upload body as the full record for every option |
| Thermostats.UploadCopyContents | app/src/main/java/nl/tue/hti/g33/thermostat/utils/Thermostat.java:211 | the copy shares the week program's schedules |
| Thermostats.AddToDay | app/src/main/java/nl/tue/hti/g33/thermostat/utils/Thermostat.java:100-101 | only the day's schedule changes, as `Add` says; the week stays well formed |
| Thermostats.DeleteFromDay | app/src/main/java/nl/tue/hti/g33/thermostat/utils/Thermostat.java:113-114 | only the day's schedule changes, losing the period with the given start |
| Thermostats.Thermostat.constructor | app/src/main/java/nl/tue/hti/g33/thermostat/utils/Thermostat.java:49-65 | seven new, empty, distinct schedules, no listener, every other reference null |
| Thermostats.Thermostat.AddListener | app/src/main/java/nl/tue/hti/g33/thermostat/utils/Thermostat.java:67-70 | the listener is appended, nothing else changes |
| Thermostats.Thermostat.UploadServer | app/src/main/java/nl/tue/hti/g33/thermostat/utils/Thermostat.java:208-224 | one upload request is recorded, with the option and the values of the copy as they are at the call |
| Thermostats.Thermostat.UpdateDayTemperature | app/src/main/java/nl/tue/hti/g33/thermostat/utils/Thermostat.java:76-80 | only the day temperature changes, then it is uploaded |
| Thermostats.Thermostat.UpdateNightTemperature | app/src/main/java/nl/tue/hti/g33/thermostat/utils/Thermostat.java:86-90 | only the night temperature changes, then it is uploaded |
| Thermostats.Thermostat.AddSwitch | app/src/main/java/nl/tue/hti/g33/thermostat/utils/Thermostat.java:98-103 | only the day's schedule changes, as `addDayPeriod` says; a throwing add propagates and skips the upload; no week program dereferences null |
| Thermostats.Thermostat.DeleteSwitch | app/src/main/java/nl/tue/hti/g33/thermostat/utils/Thermostat.java:111-116 | only the day's schedule changes, losing the period with the given start, then the week program is uploaded |
| Thermostats.Thermostat.SetVacationMode | app/src/main/java/nl/tue/hti/g33/thermostat/utils/Thermostat.java:122-129 | on sets the target and switches the week program off; off only switches the week program on; the state is uploaded |
| Thermostats.Thermostat.SetTemporaryOverride | app/src/main/java/nl/tue/hti/g33/thermostat/utils/Thermostat.java:135-139 | only the target temperature changes, then it is uploaded |
| Thermostats.Thermostat.GetDaySchedule | app/src/main/java/nl/tue/hti/g33/thermostat/utils/Thermostat.java:181-184 | the periods of the day with that id, in start order; no week program dereferences null |
| Thermostats.Thermostat.UseFahrenheit | app/src/main/java/nl/tue/hti/g33/thermostat/utils/Thermostat.java:191-194 | only the unit flag changes |
| Thermostats.Thermostat.NotifyListeners | app/src/main/java/nl/tue/hti/g33/thermostat/utils/Thermostat.java:248-250 | every listener is notified once, in registration order |
| Thermostats.Thermostat.OnReceive | app/src/main/java/nl/tue/hti/g33/thermostat/utils/Thermostat.java:234-251 | a null snapshot changes nothing; otherwise all eight fields are taken from it, then every listener is notified once in order |
| XmlFindings.ReadClockAsWritten | app/src/main/java/nl/tue/hti/g33/thermostat/parser/XmlParser.java:163-164 | the time read as written succeeds only when both fields name system properties |
| XmlFindings.GetIntegerNeverParses | app/src/main/java/nl/tue/hti/g33/thermostat/parser/XmlParser.java:250-251 | "07:30" fails as written and reads as 7:30 when parsed |
| XmlFindings.TimeTextAsWritten | app/src/main/java/nl/tue/hti/g33/thermostat/parser/XmlParser.java:70-71 | the switch text as written: hour digits, a colon, minute digits, unpadded |
| XmlFindings.UnpaddedTextFails | app/src/main/java/nl/tue/hti/g33/thermostat/parser/XmlParser.java:70-80 | a time with a one-digit field cannot be read back, and 24:00 is written "24:0" |
| XmlFindings.PadAsWritten | app/src/main/java/nl/tue/hti/g33/thermostat/parser/XmlParser.java:89-95 | the padding loop as written finishes at once when no padding is needed |
| XmlFindings.PadAsWrittenNeverEnds | app/src/main/java/nl/tue/hti/g33/thermostat/parser/XmlParser.java:89-95 | once padding is needed the loop as written never finishes |
| XmlFindings.DecodeTextsAsWritten | app/src/main/java/nl/tue/hti/g33/thermostat/parser/XmlParser.java:247-264 | the pairing with only the `get(i + 1)` of line 253 as written, times read with the corrected parse: keeps the start order and the limit when it succeeds |
| XmlFindings.OddCountFailsAsWritten | app/src/main/java/nl/tue/hti/g33/thermostat/parser/XmlParser.java:253 | an odd number of on-texts always fails as written |
| XmlFindings.EvenCountAgrees | app/src/main/java/nl/tue/hti/g33/thermostat/parser/XmlParser.java:247-264 | on an even number of texts the pairing as written and the corrected one agree |
| XmlFindings.EndOfDayPeriodLost | app/src/main/java/nl/tue/hti/g33/thermostat/parser/XmlParser.java:253-260 | once the day's end tag is read, a schedule whose only period ends at 24:00 fails as written and reads back when corrected |
| XmlFindings.DecodeDayAsWritten | app/src/main/java/nl/tue/hti/g33/thermostat/parser/XmlParser.java:227-246 | as written every day fails: a fault among the ten switches as in the corrected reading, otherwise an XmlPullParserException at the day's end tag |
| XmlFindings.DaysRead | app/src/main/java/nl/tue/hti/g33/thermostat/parser/XmlParser.java:218 | the day loop gets through seven days, or all there are when fewer |
| XmlFindings.DecodeWeekAsWritten | app/src/main/java/nl/tue/hti/g33/thermostat/parser/XmlParser.java:212-225 | as written every week program fails, with the first failing day's error or else an XmlPullParserException at the week's end tag, whatever the day reader |
| XmlFindings.WeekNeverReadAsWritten | app/src/main/java/nl/tue/hti/g33/thermostat/parser/XmlParser.java:223-246 | the serialized week fails as written, and still fails with the day reader corrected, while the corrected readers return the week |
| XmlFindings.ApplyChildAsWritten | app/src/main/java/nl/tue/hti/g33/thermostat/parser/XmlParser.java:117-144 | as written a week program child always fails; text children read as in the corrected reading |
| XmlFindings.DecodeChildrenAsWritten | app/src/main/java/nl/tue/hti/g33/thermostat/parser/XmlParser.java:113-146 | without a week program child the reading as written agrees with the corrected one |
| XmlFindings.DecodeThermostatAsWritten | app/src/main/java/nl/tue/hti/g33/thermostat/parser/XmlParser.java:107-148 | without a week program child the document reads as in the corrected reading |
| XmlFindings.ProgramChildFailsAsWritten | app/src/main/java/nl/tue/hti/g33/thermostat/parser/XmlParser.java:113-146 | a week program child stops the read as written wherever it stands |
| XmlFindings.WeekProgramNeverParsesAsWritten | app/src/main/java/nl/tue/hti/g33/thermostat/parser/XmlParser.java:36-55 | as written no document with a week program yields a thermostat: `parse` returns null or throws |
| XmlFindings.WeekChild | app/src/main/java/nl/tue/hti/g33/thermostat/parser/XmlParser.java:140-142 | a week program child fails as written with its week's error, and sets the decoded week when corrected |
| XmlFindings.SerializedWeekReadsAsNull | app/src/main/java/nl/tue/hti/g33/thermostat/parser/XmlParser.java:36-55 | the document holding the serialized week reads as an XmlPullParserException (null from `parse`) as written, and as that week when corrected |
| WebFindings.PutAsWritten | app/src/main/java/nl/tue/hti/g33/thermostat/service/WebService.java:180-201 | as written a request that reaches the server has an empty body; it fails exactly when the body cannot be built, and the host follows `NextHost` |
| WebFindings.UploadNeverCarriesData | app/src/main/java/nl/tue/hti/g33/thermostat/service/WebService.java:184-199 | for every option and reply the request as written is empty, while the body the corrected `PutData` sends never is |

## Left out

- `utils/Temperature` is not part of this model. A temperature is an opaque value here. Reading one from text is the `readTemperature` parameter, and writing one is the `render` parameter. The Celsius/Fahrenheit conversion is not modelled, and neither are the temperature getters of `Thermostat`.
- Thermostats.Thermostat.UpdateDayTemperature: takes the `Temperature` object the `double` argument becomes, because that conversion lives in `utils/Temperature`.
- Thermostats.Thermostat.UpdateNightTemperature: takes the `Temperature` object the `double` argument becomes, for the same reason.
- The plain getters of `Thermostat` (`getCurrentTime`, `getDayOfTheWeek`, `getWeekScheduleOn`, `getWeekSchedule`) are not separate members. They read the fields that `Thermostats.Thermostat.Fields` exposes.
- `downloadServer` and the timer that calls it every two seconds are left out: timing and Android intents are outside the model. The GET they trigger is `WebService.WebService.HandleIntent` with mode "GET".
- The Android context, intents, bundles, pending intents and `HttpURLConnection` are left out. A reply is an input, and the URI builder's path-reset plumbing is not modelled. What a listener does inside `onThermostatUpdate` is unknown code: the model records the call only.
- The context-free constructor of `Thermostat` only logs a message, so it is left out.
- The XML pull parser's event stream is modelled as a tree of elements, with whitespace and other events between tags already skipped. An `IOException` while reading a stream is not modelled.
- XmlParser.Serialize: requires seven distinct, valid day schedules (the state every reachable `Thermostat` keeps), because the day name comes from the position and `DAY.getById` is not declared for other positions.
- WebService.UploadBody: requires a seven-day week program when one is present, as `XmlParser.Serialize` does.
- WebService.WebService.PutData: requires a seven-day week program when one is present, as `XmlParser.Serialize` does.
- WebService.WebService.HandleIntent: requires a seven-day week program when one is present, as `XmlParser.Serialize` does.
- Thermostats.Thermostat.UploadServer: records the upload the code means to send and assumes the service receives it. The intent built at line 217 of `utils/Thermostat.java` names no service, unlike the one `downloadServer` builds at line 203, so the platform does not deliver it to `WebService` (Android 5 and later reject such an intent in `startService`). Platform intent resolution is outside the model.
- DaySchedules.DaySchedule.GetSchedule: returns the stored periods as a value, while `getSchedule` (line 85 of `utils/DaySchedule.java`) hands out the live `TreeSet`, so a caller that keeps it sees later edits; that aliasing is not modelled.
- Thermostats.Thermostat.GetDaySchedule: returns the day's periods as a value, while `getDaySchedule` (line 183 of `utils/Thermostat.java`) passes on the live `TreeSet` of the day's schedule; the same aliasing is not modelled.
- Thermostats.Thermostat.OnReceive: requires the received week program, when present, to be seven distinct valid schedules. `XmlParser.ReadThermostat` guarantees this for every record it produces.
- `XmlToJavaParser` is an older copy of the parser. Only `nameToDay`, `onOffToBoolean` and the name dispatch of `readThermostat` are modelled: its `readDayProgram` uses variables it never declares (line 197), and its other readers repeat those of `XmlParser`.
- `Period`'s `Parcelable` constructor, `writeToParcel` and the hour/minute getters are left out: they copy or read fields only.
- Integer widths: every value the model computes with (minutes 0..1440, counts up to 10, ids 0..6) fits a Java `int`, so no wrap-around is modelled.

## Findings

| source | as written | input that shows it | evidently intended | confidence | as-written member | corrected member |
|---|---|---|---|---|---|---|
| app/src/main/java/nl/tue/hti/g33/thermostat/parser/XmlParser.java:163-164 | `Integer.getInteger` looks up a system property named by the text, and the null it returns is unboxed | the text "07:30" with no system property "07": NullPointerException | `Integer.parseInt`, reading "07:30" as 7:30 | not executed | XmlFindings.GetIntegerNeverParses | XmlFormat.ReadClockInvertsToString |
| app/src/main/java/nl/tue/hti/g33/thermostat/parser/XmlParser.java:70-71 | switch texts are written unpadded as "H:M" and read back at the fixed offsets [0,2) and [3,5) | the start time 7:30, written "7:30" and so unreadable at [3,5); the end of day is written "24:0", so the "24:00" test never holds | zero-padded "HH:MM", as `Time.toString` writes | not executed | XmlFindings.UnpaddedTextFails | XmlFormat.DayRoundTrip |
| app/src/main/java/nl/tue/hti/g33/thermostat/parser/XmlParser.java:89-95 | the padding loop never decrements `switchCnt` | any day with fewer than ten switches, such as an empty schedule | one padding switch per missing switch, down to ten | not executed | XmlFindings.PadAsWrittenNeverEnds | XmlFormat.PadToTenFacts |
| app/src/main/java/nl/tue/hti/g33/thermostat/parser/XmlParser.java:253-260 | the second text of a pair is fetched with `get(i + 1)` before the null test; as written this is masked, because line 246 throws first for every day and lines 250-251 throw before line 253 is reached; the as-written member keeps only line 253 as written and reads times with the corrected parse | once lines 246 and 250-251 are corrected (as written, `Integer.getInteger` on "22" throws a NullPointerException first), a single period 22:00-24:00, whose day has one on-switch: IndexOutOfBoundsException | a missing end text reads as 24:00 | not executed | XmlFindings.EndOfDayPeriodLost | XmlFormat.DecodeScheduleTexts |
| app/src/main/java/nl/tue/hti/g33/thermostat/parser/XmlParser.java:223-246 | the `require` for the day's end tag is checked while the parser still stands on the tenth switch's end tag, and the one for the week's end tag on the seventh day's end tag; neither moves the parser first | any document with a `week_program` child, such as the one `serialize` writes: XmlPullParserException, so `parse` returns null | a `nextTag()` before each end-tag `require`, so that a well-formed day and week are read | not executed | XmlFindings.WeekNeverReadAsWritten | XmlFormat.WeekRoundTrip |
| app/src/main/java/nl/tue/hti/g33/thermostat/service/WebService.java:184-197 | the status is read with `getResponseCode` before `getOutputStream` is asked for, and output was never enabled: the PUT goes out without a body, then `getOutputStream` throws a ProtocolException that is only logged | any upload the server answers with 200, such as a week program state: the server receives an empty PUT | `setDoOutput(true)`, and the body written before the status is read | not executed | WebFindings.UploadNeverCarriesData | WebService.WebService.PutData |
