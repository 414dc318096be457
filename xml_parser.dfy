/** `parser/XmlParser`: the pull-parser loops that read a document into a
    `ParsedThermostat` with `DaySchedule` objects, and the serializer loops
    that write a week program. Each method is proved against the matching
    function of `XmlFormat`. */
module XmlParser {
  import opened Common
  import opened Times
  import opened Periods
  import opened DaySchedules
  import opened Parsed
  import opened XmlToJavaParser
  import opened XmlFormat

  /** `readDayProgram`: a `day` start tag, ten `switch` elements whose
      on-texts are collected in order, the `day` end tag, then the texts
      paired into periods added one by one to a new `DaySchedule`. */
  method ReadDayProgram(d: DayElement) returns (r: Result<DaySchedule>)
    ensures r.Ok? <==> DecodeDay(d).Ok?
    ensures r.Ok? ==> fresh(r.value) && r.value.Valid() && r.value.periods == DecodeDay(d).value
    ensures r.Err? ==> r.error == DecodeDay(d).error
  {
    var schedule := new DaySchedule();
    if d.tag != "day" {
      return Err(XmlPull);
    }
    DecodeDayOutcomes(d);
    var switches := ReadSwitches(d);
    if switches.Err? {
      return Err(switches.error);
    }
    r := PairTexts(switches.value, schedule);
  }

  /** The switch loop of `readDayProgram` and the `day` end tag after it:
      each of ten children must be a `switch` start tag with a `state`
      attribute, and the text of each "on" switch is collected. The first
      fault is thrown; a `day` holding more than ten children fails the
      end-tag `require`. */
  method ReadSwitches(d: DayElement) returns (r: Result<seq<string>>)
    ensures SwitchFault(d.switches, 10).Some? ==> r == Err(SwitchFault(d.switches, 10).value)
    ensures SwitchFault(d.switches, 10).None? && |d.switches| != 10 ==> r == Err(XmlPull)
    ensures SwitchFault(d.switches, 10).None? && |d.switches| == 10 ==> r == Ok(OnTexts(d.switches))
  {
    var switches: seq<string> := [];
    var i := 0;
    while i < 10
      invariant 0 <= i <= 10 && i <= |d.switches|
      invariant AllSwitches(d.switches[..i])
      invariant switches == OnTexts(d.switches[..i])
    {
      if i == |d.switches| {
        assert d.switches[..i] == d.switches;
        ShortRead(d.switches, 10);
        return Err(XmlPull);
      }
      if d.switches[i].tag != "switch" {
        FirstFault(d.switches, 10, i);
        return Err(XmlPull);
      }
      if d.switches[i].state.None? {
        FirstFault(d.switches, 10, i);
        return Err(NullPointer);
      }
      OnTextsNext(d.switches, i);
      AllSwitchesConcat(d.switches[..i], [d.switches[i]]);
      assert d.switches[..i + 1] == d.switches[..i] + [d.switches[i]];
      if OnOffToBoolean(d.switches[i].state.value) {
        switches := switches + [d.switches[i].text];
      }
      i := i + 1;
    }
    NoFaultReads(d.switches[..10], 10);
    if |d.switches| != 10 {
      return Err(XmlPull);
    }
    assert d.switches[..10] == d.switches;
    r := Ok(switches);
  }

  /** The pairing loop of `readDayProgram`: texts (0,1), (2,3), … read as
      start and end times, a missing last end standing for 24:00, each
      period added to the empty schedule in order. The first failure is
      thrown. */
  method PairTexts(switches: seq<string>, schedule: DaySchedule) returns (r: Result<DaySchedule>)
    requires schedule.Valid() && schedule.periods == []
    modifies schedule
    ensures r.Ok? <==> DecodeTexts(switches).Ok?
    ensures r.Ok? ==> r.value == schedule && schedule.Valid() && schedule.periods == DecodeTexts(switches).value
    ensures r.Err? ==> r.error == DecodeTexts(switches).error
  {
    var l := |switches|;
    var i := 0;
    ghost var pairs := 0;
    while i < l
      invariant i == 2 * pairs && 0 <= i <= l + 1
      invariant schedule.Valid()
      invariant DecodeTexts(switches[..if i < l then i else l]) == Ok(schedule.periods)
    {
      ghost var j := if i + 2 <= l then i + 2 else l;
      ghost var second := if i + 1 < l then Some(switches[i + 1]) else None;
      DecodeTextsNextPair(switches, i, pairs);
      assert DecodeTexts(switches[..j]) == AddPair(schedule.periods, switches[i], second);
      var s := switches[i];
      var start := ReadClock(s);
      if start.Err? {
        assert PairPeriod(s, second) == Err(start.error);
        AddPairErr(schedule.periods, s, second);
        DecodeTextsPrefixErr(switches, j, pairs + 1);
        return Err(start.error);
      }
      var end: Result<(int, int)>;
      if i + 1 < l {
        end := ReadClock(switches[i + 1]);
      } else {
        end := Ok((24, 0));
      }
      if end.Err? {
        assert PairPeriod(s, second) == Err(end.error);
        DecodeTextsPrefixErr(switches, j, pairs + 1);
        return Err(end.error);
      }
      var dayPeriod := New(start.value.0, start.value.1, end.value.0, end.value.1);
      assert PairPeriod(s, second) == dayPeriod;
      if dayPeriod.Err? {
        DecodeTextsPrefixErr(switches, j, pairs + 1);
        return Err(dayPeriod.error);
      }
      var ok := schedule.AddDayPeriod(dayPeriod.value);
      if !ok {
        DecodeTextsPrefixErr(switches, j, pairs + 1);
        return Err(IllegalArgument);
      }
      i := i + 2;
      pairs := pairs + 1;
    }
    assert switches[..l] == switches;
    return Ok(schedule);
  }

  /** `readWeekProgram`: a `week_program` start tag, seven day programs
      read one after another into a list, then the end tag. */
  method ReadWeekProgram(w: WeekElement) returns (r: Result<seq<DaySchedule>>)
    ensures r.Ok? <==> DecodeWeek(w).Ok?
    ensures r.Ok? ==> WeekWellFormed(r.value) && WeekContents(r.value) == DecodeWeek(w).value
    ensures r.Ok? ==> fresh(Objects(r.value))
    ensures r.Err? ==> r.error == DecodeWeek(w).error
  {
    if w.tag != "week_program" {
      return Err(XmlPull);
    }
    var week: seq<DaySchedule> := [];
    var i := 0;
    while i < 7
      invariant 0 <= i <= 7 && i <= |w.days| && |week| == i
      invariant fresh(Objects(week)) && SchedulesValid(week)
      invariant DecodeDays(w.days[..i]) == Ok(WeekContents(week))
    {
      if i == |w.days| {
        DecodeWeekEnd(w, i, WeekContents(week));
        return Err(XmlPull);
      }
      var next := AddDayProgram(week, w.days, i);
      if next.Err? {
        DecodeWeekPrefixErr(w, i + 1);
        return Err(next.error);
      }
      week := next.value;
      i := i + 1;
    }
    DecodeWeekEnd(w, i, WeekContents(week));
    if |w.days| != 7 {
      return Err(XmlPull);
    }
    return Ok(week);
  }

  /** One turn of the loop of `readWeekProgram`: the next day program read
      into a new schedule and added at the end of the list, which then
      holds the days read so far. */
  method AddDayProgram(week: seq<DaySchedule>, days: seq<DayElement>, i: nat) returns (r: Result<seq<DaySchedule>>)
    requires i < |days| && SchedulesValid(week)
    requires DecodeDays(days[..i]) == Ok(WeekContents(week))
    ensures r.Ok? <==> DecodeDays(days[..i + 1]).Ok?
    ensures r.Err? ==> Err(r.error) == DecodeDays(days[..i + 1])
    ensures r.Ok? ==> |r.value| == |week| + 1 && SchedulesValid(r.value)
    ensures r.Ok? ==> DecodeDays(days[..i + 1]) == Ok(WeekContents(r.value))
    ensures r.Ok? ==> fresh(Objects(r.value) - Objects(week))
  {
    ghost var contents := WeekContents(week);
    DecodeDaysNext(days, i, contents);
    var schedule := ReadDayProgram(days[i]);
    assert contents == WeekContents(week) && SchedulesValid(week);
    if schedule.Err? {
      return Err(schedule.error);
    }
    WeekContentsAppend(week, schedule.value);
    ObjectsAppend(week, schedule.value);
    SchedulesValidAppend(week, schedule.value);
    return Ok(week + [schedule.value]);
  }

  /** `readThermostat`: the `thermostat` start tag, then each child read
      into the record by its name; a later child overwrites an earlier one
      and any other name throws. Temperature texts are read by
      `readTemperature`. */
  method ReadThermostat(doc: Document, readTemperature: string -> Option<Temperature>) returns (r: Result<ParsedThermostat>)
    ensures r.Ok? <==> DecodeThermostat(doc, readTemperature).Ok?
    ensures r.Ok? ==> Contents(r.value) == DecodeThermostat(doc, readTemperature).value
    ensures r.Ok? && r.value.weekSchedule.Some? ==> WeekWellFormed(r.value.weekSchedule.value)
    ensures r.Err? ==> r.error == DecodeThermostat(doc, readTemperature).error
  {
    if doc.root != "thermostat" {
      return Err(XmlPull);
    }
    var thermostat: ParsedThermostat := Blank();
    var i := 0;
    while i < |doc.children|
      invariant 0 <= i <= |doc.children|
      invariant thermostat.weekSchedule.Some? ==> WeekWellFormed(thermostat.weekSchedule.value)
      invariant DecodeThermostat(doc, readTemperature) ==
        DecodeChildren(doc.children[i..], Contents(thermostat), readTemperature)
    {
      ghost var acc := Contents(thermostat);
      ghost var week := if thermostat.weekSchedule.Some? then thermostat.weekSchedule.value else [];
      ghost var contents := WeekContents(week);
      DecodeChildrenStep(doc.children, i, acc, readTemperature);
      var next := ReadChild(thermostat, doc.children[i], readTemperature);
      assert contents == WeekContents(week);
      if next.Err? {
        return Err(next.error);
      }
      thermostat := next.value;
      i := i + 1;
    }
    assert doc.children[i..] == [];
    return Ok(thermostat);
  }

  /** One turn of the loop of `readThermostat`: the `switch` on the child's
      name and the read it selects. */
  method ReadChild(thermostat: ParsedThermostat, child: Element, readTemperature: string -> Option<Temperature>)
    returns (r: Result<ParsedThermostat>)
    requires thermostat.weekSchedule.Some? ==> WeekWellFormed(thermostat.weekSchedule.value)
    ensures r.Ok? <==> ApplyChild(Contents(thermostat), child, readTemperature).Ok?
    ensures r.Ok? ==> Contents(r.value) == ApplyChild(Contents(thermostat), child, readTemperature).value
    ensures r.Ok? && r.value.weekSchedule.Some? ==> WeekWellFormed(r.value.weekSchedule.value)
    ensures r.Err? ==> r.error == ApplyChild(Contents(thermostat), child, readTemperature).error
  {
    var field := Dispatch(ElementName(child));
    if field.Err? {
      return Err(field.error);
    }
    match child {
      case Program(w) =>
        if field.value != WeekProgram {
          return Err(XmlPull);
        }
        var week := ReadWeekProgram(w);
        if week.Err? {
          return Err(week.error);
        }
        return Ok(thermostat.(weekSchedule := Some(week.value)));
      case Leaf(_, text) =>
        match field.value {
          case CurrentDay =>
            var day := NameToDay(text);
            if day.Err? {
              return Err(day.error);
            }
            return Ok(thermostat.(dayOfTheWeek := Some(day.value)));
          case Time =>
            var minutes := ReadTime(text);
            if minutes.Err? {
              return Err(minutes.error);
            }
            return Ok(thermostat.(time := minutes.value));
          case WeekProgramState =>
            return Ok(thermostat.(weekScheduleOn := OnOffToBoolean(text)));
          case WeekProgram =>
            return Err(XmlPull);
          case _ =>
            var t := readTemperature(text);
            if t.None? {
              return Err(IllegalArgument);
            }
            match field.value {
              case CurrentTemperature => return Ok(thermostat.(currentTemperature := t));
              case TargetTemperature => return Ok(thermostat.(targetTemperature := t));
              case DayTemperature => return Ok(thermostat.(dayTemperature := t));
              case _ => return Ok(thermostat.(nightTemperature := t));
            }
        }
    }
  }

  /** `parse`: an XmlPullParserException is caught and gives null; any
      other exception escapes. */
  method Parse(doc: Document, readTemperature: string -> Option<Temperature>) returns (r: Result<Option<ParsedThermostat>>)
    ensures r == Ok(None) <==> DecodeThermostat(doc, readTemperature) == Err(XmlPull)
    ensures r.Err? ==> DecodeThermostat(doc, readTemperature) == Err(r.error) && r.error != XmlPull
    ensures r.Ok? && r.value.Some? ==>
      && DecodeThermostat(doc, readTemperature) == Ok(Contents(r.value.value))
      && (r.value.value.weekSchedule.Some? ==> WeekWellFormed(r.value.value.weekSchedule.value))
  {
    var t := ReadThermostat(doc, readTemperature);
    if t.Err? {
      if t.error == XmlPull {
        return Ok(None);
      }
      return Err(t.error);
    }
    return Ok(Some(t.value));
  }

  /** One turn of the period loop of `serialize`: an on "day" switch with
      the start text and, unless the end text is "24:00", an on "night"
      switch with the end text. */
  method WritePeriod(p: Period) returns (written: seq<SwitchElement>)
    ensures written == PeriodSwitches(p)
  {
    written := [SwitchElement("switch", "day", Some("on"), Times.ToString(StartTime(p)))];
    var night := Times.ToString(EndTime(p));
    if night != "24:00" {
      written := written + [SwitchElement("switch", "night", Some("on"), night)];
    }
  }

  /** The padding loop of `serialize`: off switches while the count of
      switches still missing from ten is positive, the count going down by
      one each turn. */
  method WritePadding(periodSwitches: seq<SwitchElement>) returns (switches: seq<SwitchElement>)
    ensures switches == PadToTen(periodSwitches)
  {
    switches := periodSwitches;
    var switchCnt := 10 - |periodSwitches|;
    while switchCnt > 0
      invariant switches + Padding(switchCnt) == PadToTen(periodSwitches)
      decreases switchCnt
    {
      PaddingStep(switches, switchCnt);
      switches := switches + [PadSwitch(switchCnt)];
      switchCnt := switchCnt - 1;
    }
    assert Padding(switchCnt) == [];
  }

  /** The body of the day loop of `serialize`: the switches of each period
      in ascending order, then the padding up to ten. */
  method SerializeDay(name: string, d: DaySchedule) returns (e: DayElement)
    requires d.Valid()
    ensures e == EncodeDay(name, d.periods)
  {
    var ps := d.GetSchedule();
    var switches: seq<SwitchElement> := [];
    var k := 0;
    while k < |ps|
      invariant 0 <= k <= |ps|
      invariant switches == ScheduleSwitches(ps[..k])
    {
      ScheduleSwitchesNext(ps, k);
      var written := WritePeriod(ps[k]);
      switches := switches + written;
      k := k + 1;
    }
    assert ps[..k] == d.periods;
    switches := WritePadding(switches);
    e := DayElement("day", name, switches);
  }

  /** `serialize`: a `week_program` element whose `state` is the on/off
      flag, then one `day` element per schedule named by its position. A
      record without a week program dereferences null. */
  method Serialize(t: ParsedThermostat) returns (r: Result<WeekElement>)
    requires t.weekSchedule.Some? ==> WeekWellFormed(t.weekSchedule.value)
    ensures t.weekSchedule.None? ==> r == Err(NullPointer)
    ensures t.weekSchedule.Some? ==> r == Ok(EncodeWeek(t.weekScheduleOn, WeekContents(t.weekSchedule.value)))
  {
    if t.weekSchedule.None? {
      return Err(NullPointer);
    }
    var week := t.weekSchedule.value;
    ghost var contents := WeekContents(week);
    assert |week| == 7;
    var days: seq<DayElement> := [];
    var dayId := 0;
    while dayId < |week|
      invariant 0 <= dayId <= 7
      invariant days == EncodeDays(contents[..dayId])
    {
      EncodeDaysNext(contents, dayId);
      assert contents[dayId] == week[dayId].periods;
      var day := SerializeDay(DayName(dayId), week[dayId]);
      days := days + [day];
      dayId := dayId + 1;
    }
    assert contents[..7] == contents;
    assert days == EncodeDays(contents);
    assert contents == WeekContents(t.weekSchedule.value);
    r := Ok(WeekElement("week_program", if t.weekScheduleOn then "on" else "off", days));
  }
}
