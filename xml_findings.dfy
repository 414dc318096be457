/** Five places where `parser/XmlParser` does something other than what it
    evidently means to do, each modelled as written next to a witness that
    shows the difference. The rest of the model uses the corrected readings
    in `XmlFormat`. */
module XmlFindings {
  import opened Common
  import opened Decimal
  import opened Times
  import opened Periods
  import opened DaySchedules
  import opened Parsed
  import opened XmlToJavaParser
  import opened XmlFormat

  // ---------------------------------------------------------------------
  // Integer.getInteger instead of Integer.parseInt
  // ---------------------------------------------------------------------

  /** `Integer.getInteger(name)`: the value of the system property called
      `name`, or null when there is none. The text itself is never parsed. */
  function GetInteger(name: string, properties: map<string, int>): (r: Option<int>)
    ensures r.Some? <==> name in properties
    ensures properties == map[] ==> r == None
  {
    if name in properties then Some(properties[name]) else None
  }

  /** `readTime` and the pairing loop as written: each two-character field
      is looked up as a system property and a missing one is unboxed as
      null. */
  function ReadClockAsWritten(text: string, properties: map<string, int>): (r: Result<(int, int)>)
    ensures |text| < 2 ==> r == Err(OutOfBounds)
    ensures r.Ok? ==> |text| >= 5 && text[..2] in properties && text[3..5] in properties
    ensures properties == map[] && |text| >= 2 ==> r == Err(NullPointer)
  {
    if |text| < 2 then Err(OutOfBounds)
    else
      match GetInteger(text[..2], properties)
      case None => Err(NullPointer)
      case Some(h) =>
        if |text| < 5 then Err(OutOfBounds)
        else
          match GetInteger(text[3..5], properties)
          case None => Err(NullPointer)
          case Some(m) => Ok((h, m))
  }

  /** Without system properties of those names no time text is ever read,
      while the parse the code means reads "07:30" as 7:30. */
  lemma GetIntegerNeverParses()
    ensures ReadClockAsWritten("07:30", map[]) == Err(NullPointer)
    ensures ReadClock("07:30") == Ok((7, 30))
  {
    ReadClockInvertsToString(Clock(7, 30), "");
    assert Times.ToString(Clock(7, 30)) == "07:30" by {
      assert Pad2(7) == "07";
      assert Pad2(30) == "30" by { assert ToDecimal(30) == ToDecimal(3) + [DigitChar(0)]; }
    }
  }

  // ---------------------------------------------------------------------
  // Unpadded "H:M" texts
  // ---------------------------------------------------------------------

  /** The switch text `serialize` builds: `Integer.toString` of the hours, a
      colon and `Integer.toString` of the minutes, without zero padding. */
  function TimeTextAsWritten(t: Time): (s: string)
    ensures |s| == |ToDecimal(t.h)| + 1 + |ToDecimal(t.m)|
    ensures s[|ToDecimal(t.h)|] == ':'
  {
    ToDecimal(t.h) + ":" + ToDecimal(t.m)
  }

  /** A time with a one-digit hour or minute is written in fewer than five
      characters, so reading it back at the fixed offsets fails. The end of
      the day is written "24:0", so the test against "24:00" never holds
      and the reader then fails on it too. */
  lemma UnpaddedTextFails(t: Time)
    requires t.h < 10 || t.m < 10
    ensures ReadClock(TimeTextAsWritten(t)).Err?
    ensures TimeTextAsWritten(UNDEFINED) == "24:0" != "24:00"
  {
    var s := TimeTextAsWritten(t);
    if t.h < 10 {
      assert s[1] == ':';
      assert !AllDigits(s[..2]);
    }
    assert ToDecimal(24) == ToDecimal(2) + [DigitChar(4)];
  }

  // ---------------------------------------------------------------------
  // The padding loop that never ends
  // ---------------------------------------------------------------------

  /** The padding loop of `serialize` as written, run for at most `fuel`
      turns: `None` when it is still running. Its body never decrements the
      counter. */
  function PadAsWritten(switchCnt: int, fuel: nat): (r: Option<seq<SwitchElement>>)
    ensures switchCnt <= 0 ==> r == Some([])
    decreases fuel
  {
    if switchCnt <= 0 then Some([])
    else if fuel == 0 then None
    else
      match PadAsWritten(switchCnt, fuel - 1)
      case None => None
      case Some(rest) =>
        Some([SwitchElement("switch", if switchCnt % 2 == 0 then "day" else "night", Some("off"), "23:59")] + rest)
  }

  /** Once padding is needed the loop never finishes, however long it runs;
      a day with an empty schedule already needs ten padding switches. */
  lemma {:induction false} PadAsWrittenNeverEnds(switchCnt: int, fuel: nat)
    requires switchCnt > 0
    ensures PadAsWritten(switchCnt, fuel) == None
    ensures PadAsWritten(10 - |ScheduleSwitches([])|, fuel) == None
    decreases fuel
  {
    if fuel > 0 {
      PadAsWrittenNeverEnds(switchCnt, fuel - 1);
    } else {
      assert PadAsWritten(10, 0) == None;
    }
  }

  // ---------------------------------------------------------------------
  // An odd number of on-switches
  // ---------------------------------------------------------------------

  /** The pairing loop of `readDayProgram` with only its `get(i + 1)` kept
      as written: the second text of a pair is fetched before the 24:00
      fallback for a missing second text is reached, and throws. The times
      themselves are read with the corrected `ReadClock`; as written, the
      `Integer.getInteger` reading of the start text throws first. */
  function DecodeTextsAsWritten(texts: seq<string>): (r: Result<seq<Period>>)
    ensures r.Ok? ==> StrictlySorted(r.value) && |r.value| <= MAX_PERIODS
    decreases |texts|
  {
    if texts == [] then Ok([])
    else
      var i := LastPairStart(|texts|);
      var prev := DecodeTextsAsWritten(texts[..i]);
      if i + 1 < |texts| then ThenAddPair(prev, texts[i], Some(texts[i + 1]))
      else if prev.Err? then prev
      else
        match ReadClock(texts[i])
        case Err(e) => Err(e)
        case Ok(_) => Err(OutOfBounds)
  }

  /** An odd number of texts always fails as written, whatever the texts
      before the last one. */
  lemma OddCountFailsAsWritten(texts: seq<string>, pairs: nat)
    requires |texts| == 2 * pairs + 1
    ensures DecodeTextsAsWritten(texts).Err?
  {
    assert LastPairStart(|texts|) == 2 * pairs;
  }

  /** On an even number of texts the code as written agrees with the
      corrected pairing. */
  lemma {:induction false} EvenCountAgrees(texts: seq<string>, pairs: nat)
    requires |texts| == 2 * pairs
    ensures DecodeTextsAsWritten(texts) == DecodeTexts(texts)
    decreases pairs
  {
    if pairs > 0 {
      var i := 2 * (pairs - 1);
      LastPairAt(|texts|, i, pairs - 1);
      EvenCountAgrees(texts[..i], pairs - 1);
      DecodeTextsUnfold(texts);
      assert SecondText(texts, i) == Some(texts[i + 1]);
      assert DecodeTextsAsWritten(texts) == ThenAddPair(DecodeTexts(texts[..i]), texts[i], Some(texts[i + 1]));
    }
  }

  /** A schedule of one period that runs to the end of the day is encoded
      with a single on-switch; the corrected reader gets it back, the
      pairing as written throws. As written the pairing is never reached:
      the day's end tag fails first (`DecodeDayAsWritten`). */
  lemma EndOfDayPeriodLost(p: Period)
    requires End(p) == 1440
    ensures DecodeTextsAsWritten(OnTexts(ScheduleSwitches([p]))).Err?
    ensures DecodeTexts(OnTexts(ScheduleSwitches([p]))) == Ok([p])
  {
    assert Separated([p]);
    DecodeScheduleTexts([p]);
    OddCountFailsAsWritten(OnTexts(ScheduleSwitches([p])), 0);
  }

  // ---------------------------------------------------------------------
  // End tags checked where the parser does not stand
  // ---------------------------------------------------------------------

  /** `readDayProgram` as written. The switch loop leaves the parser on the
      end tag of the tenth switch, and the `require` for the day's end tag
      is checked there without moving on, so once the ten switches are read
      it always throws. A fault among the ten switches is raised first. */
  function DecodeDayAsWritten(d: DayElement): (r: Result<seq<Period>>)
    ensures r.Err? && (r.error == XmlPull || r.error == NullPointer)
    ensures d.tag == "day" && SwitchFault(d.switches, 10).Some? ==> r == DecodeDay(d)
  {
    if d.tag != "day" then Err(XmlPull)
    else
      match SwitchFault(d.switches, 10)
      case Some(e) => Err(e)
      case None => Err(XmlPull)
  }

  /** How many days the day loop of `readWeekProgram` gets through before
      it runs out of days or reaches seven. */
  function DaysRead(w: WeekElement): (n: nat)
    ensures n <= 7 && n <= |w.days| && (n == 7 || n == |w.days|)
  {
    if |w.days| < 7 then |w.days| else 7
  }

  /** `readWeekProgram` as written, with `readDay` reading each day: up to
      seven days are read in order, and the `require` for the week's end
      tag is then checked on the end tag of the last day read, so it always
      throws. Too few days fail on the `day` start tag the next read
      requires. */
  function DecodeWeekAsWritten(w: WeekElement, readDay: DayElement -> Result<seq<Period>>): (r: Result<seq<seq<Period>>>)
    ensures r.Err?
    ensures w.tag == "week_program" && MapResults(w.days[..DaysRead(w)], readDay).Err? ==>
      r == Err(MapResults(w.days[..DaysRead(w)], readDay).error)
    ensures w.tag == "week_program" && MapResults(w.days[..DaysRead(w)], readDay).Ok? ==> r == Err(XmlPull)
  {
    if w.tag != "week_program" then Err(XmlPull)
    else
      match MapResults(w.days[..DaysRead(w)], readDay)
      case Err(e) => Err(e)
      case Ok(_) => Err(XmlPull)
  }

  /** The week program the serializer writes is never read back as written:
      its first day fails on the day's end tag, and with that corrected the
      week's end tag fails the same way. The corrected readers return the
      week. */
  lemma WeekNeverReadAsWritten(on: bool, week: seq<seq<Period>>)
    requires |week| == 7 && forall d :: 0 <= d < 7 ==> Separated(week[d])
    ensures DecodeWeekAsWritten(EncodeWeek(on, week), DecodeDayAsWritten) == Err(XmlPull)
    ensures DecodeWeekAsWritten(EncodeWeek(on, week), DecodeDay) == Err(XmlPull)
    ensures DecodeWeek(EncodeWeek(on, week)) == Ok(week)
  {
    var days := EncodeWeek(on, week).days;
    WeekRoundTrip(on, week);
    assert days[..7] == days;
    EncodeDaysAt(week, 0);
    EncodedDayShape(DayName(0), week[0]);
    NoFaultReads(days[0].switches, 10);
    assert DecodeDayAsWritten(days[0]) == Err(XmlPull);
    MapResultsPrefixErr(days, DecodeDayAsWritten, 1);
    assert days[..1][..0] == [] && days[..1][0] == days[0];
  }

  /** One child of the root as written: text children are read as in
      `XmlFormat.ApplyChild`, and a week program goes through the readers
      as written. */
  function ApplyChildAsWritten(acc: Snapshot, e: Element, readTemperature: string -> Option<Temperature>): (r: Result<Snapshot>)
    ensures e.Program? ==> r.Err?
    ensures e.Leaf? ==> r == ApplyChild(acc, e, readTemperature)
  {
    match e
    case Leaf(_, _) => ApplyChild(acc, e, readTemperature)
    case Program(w) =>
      match Dispatch(ElementName(e))
      case Err(err) => Err(err)
      case Ok(field) =>
        if field != WeekProgram then Err(XmlPull)
        else
          match DecodeWeekAsWritten(w, DecodeDayAsWritten)
          case Err(err) => Err(err)
          case Ok(week) => Ok(acc.(weekSchedule := Some(week)))
  }

  /** The children of the root read as written. Without a week program
      among them this agrees with the corrected reading. */
  function DecodeChildrenAsWritten(cs: seq<Element>, acc: Snapshot, readTemperature: string -> Option<Temperature>): (r: Result<Snapshot>)
    ensures (forall i :: 0 <= i < |cs| ==> cs[i].Leaf?) ==> r == DecodeChildren(cs, acc, readTemperature)
  {
    if cs == [] then Ok(acc)
    else
      assert forall i :: 1 <= i < |cs| ==> cs[i] == cs[1..][i - 1];
      match ApplyChildAsWritten(acc, cs[0], readTemperature)
      case Err(err) => Err(err)
      case Ok(next) => DecodeChildrenAsWritten(cs[1..], next, readTemperature)
  }

  /** `readThermostat` as written. */
  function DecodeThermostatAsWritten(doc: Document, readTemperature: string -> Option<Temperature>): (r: Result<Snapshot>)
    ensures (forall i :: 0 <= i < |doc.children| ==> doc.children[i].Leaf?) ==> r == DecodeThermostat(doc, readTemperature)
  {
    if doc.root != "thermostat" then Err(XmlPull)
    else DecodeChildrenAsWritten(doc.children, Blank(), readTemperature)
  }

  /** A child that is a week program stops the read as written, wherever
      it stands. */
  lemma {:induction false} ProgramChildFailsAsWritten(cs: seq<Element>, i: nat, acc: Snapshot, readTemperature: string -> Option<Temperature>)
    requires i < |cs| && cs[i].Program?
    ensures DecodeChildrenAsWritten(cs, acc, readTemperature).Err?
    decreases i
  {
    if i > 0 {
      match ApplyChildAsWritten(acc, cs[0], readTemperature)
      case Err(_) =>
      case Ok(next) =>
        assert cs[1..][i - 1] == cs[i];
        ProgramChildFailsAsWritten(cs[1..], i - 1, next, readTemperature);
    }
  }

  /** As written, no document with a week program yields a thermostat:
      `parse` returns null or throws. */
  lemma WeekProgramNeverParsesAsWritten(doc: Document, i: nat, readTemperature: string -> Option<Temperature>)
    requires i < |doc.children| && doc.children[i].Program?
    ensures DecodeThermostatAsWritten(doc, readTemperature).Err?
  {
    if doc.root == "thermostat" {
      ProgramChildFailsAsWritten(doc.children, i, Blank(), readTemperature);
    }
  }

  /** A week program child, read as written, fails as its week does; read
      as corrected, it sets the week it decodes to. */
  lemma WeekChild(w: WeekElement, acc: Snapshot, readTemperature: string -> Option<Temperature>)
    requires w.tag == "week_program"
    ensures ApplyChildAsWritten(acc, Program(w), readTemperature) == Err(DecodeWeekAsWritten(w, DecodeDayAsWritten).error)
    ensures DecodeWeek(w).Ok? ==> ApplyChild(acc, Program(w), readTemperature) == Ok(acc.(weekSchedule := Some(DecodeWeek(w).value)))
  {
    DispatchAcceptsExactlyKnownNames("week_program", WeekProgram);
    assert ElementName(Program(w)) == FieldName(WeekProgram);
  }

  /** The document holding just the week program the serializer writes
      reads as written as an XmlPullParserException, which `parse` turns
      into null, while the corrected reading recovers the week. */
  lemma SerializedWeekReadsAsNull(on: bool, week: seq<seq<Period>>, readTemperature: string -> Option<Temperature>)
    requires |week| == 7 && forall d :: 0 <= d < 7 ==> Separated(week[d])
    ensures DecodeThermostatAsWritten(Document("thermostat", [Program(EncodeWeek(on, week))]), readTemperature) == Err(XmlPull)
    ensures DecodeThermostat(Document("thermostat", [Program(EncodeWeek(on, week))]), readTemperature) ==
      Ok(Blank().(weekSchedule := Some(week)))
  {
    var program := Program(EncodeWeek(on, week));
    var blank: Snapshot := Blank();
    WeekNeverReadAsWritten(on, week);
    WeekChild(EncodeWeek(on, week), blank, readTemperature);
    assert [program][1..] == [];
    assert DecodeChildren([program], blank, readTemperature) ==
      DecodeChildren([], blank.(weekSchedule := Some(week)), readTemperature);
  }
}
