/** The XML documents `parser/XmlParser` reads and writes, as the pull parser
    and the serializer present them, with the meaning of each part: what a
    document decodes to, and what a week program encodes to. */
module XmlFormat {
  import opened Common
  import opened Decimal
  import opened Times
  import opened Periods
  import opened Days
  import opened DaySchedules
  import opened Parsed
  import opened XmlToJavaParser

  // ---------------------------------------------------------------------
  // Documents as element records
  // ---------------------------------------------------------------------

  /** A `switch` element: its tag, its `type` attribute, its `state`
      attribute (`None` when the element has none, which is the null
      `getAttributeValue` returns) and its text ("" when it has none). */
  datatype SwitchElement = SwitchElement(tag: string, kind: string, state: Option<string>, text: string)

  /** A `day` element with its `name` attribute and its child elements. */
  datatype DayElement = DayElement(tag: string, name: string, switches: seq<SwitchElement>)

  /** A `week_program` element with its `state` attribute and its days. */
  datatype WeekElement = WeekElement(tag: string, state: string, days: seq<DayElement>)

  /** A child of the `thermostat` root: a text-only element, or a week
      program. */
  datatype Element = Leaf(name: string, text: string) | Program(week: WeekElement)

  /** A document: the name of its first start tag and that element's
      children. */
  datatype Document = Document(root: string, children: seq<Element>)

  function ElementName(e: Element): string
  {
    match e
    case Leaf(name, _) => name
    case Program(w) => w.tag
  }

  // ---------------------------------------------------------------------
  // Time texts
  // ---------------------------------------------------------------------

  /** The fixed-offset reading of a time text: the hour from characters
      [0,2) and the minute from [3,5), each read as a decimal integer. A text
      too short for a substring is a StringIndexOutOfBoundsException, a
      non-number a NumberFormatException (an IllegalArgumentException). */
  function ReadClock(text: string): (r: Result<(int, int)>)
    ensures r.Ok? <==> |text| >= 5 && ParseInt(text[..2]).Some? && ParseInt(text[3..5]).Some?
    ensures |text| < 2 ==> r == Err(OutOfBounds)
    ensures r.Err? ==> r.error == OutOfBounds || r.error == IllegalArgument
  {
    if |text| < 2 then Err(OutOfBounds)
    else match ParseInt(text[..2])
      case None => Err(IllegalArgument)
      case Some(h) =>
        if |text| < 5 then Err(OutOfBounds)
        else match ParseInt(text[3..5])
          case None => Err(IllegalArgument)
          case Some(m) => Ok((h, m))
  }

  /** `readTime`: the clock reading as minutes since midnight. */
  function ReadTime(text: string): (r: Result<int>)
    ensures r.Ok? <==> ReadClock(text).Ok?
    ensures r.Err? ==> r.error == ReadClock(text).error
  {
    match ReadClock(text)
    case Err(e) => Err(e)
    case Ok((h, m)) => Ok(h * 60 + m)
  }

  /** The zero-padded "HH:MM" text of a time reads back as that time, and
      only the first five characters matter. */
  lemma ReadClockInvertsToString(t: Time, tail: string)
    ensures ReadClock(Times.ToString(t)) == Ok((t.h, t.m))
    ensures ReadClock(Times.ToString(t) + tail) == Ok((t.h, t.m))
    ensures ReadTime(Times.ToString(t)) == Ok(GetTime(t))
  {
    var s := Times.ToString(t);
    ToStringParses(t);
    assert s[3..5] == s[3..];
    assert (s + tail)[..2] == s[..2];
    assert (s + tail)[3..5] == s[3..];
  }

  // ---------------------------------------------------------------------
  // Decoding a day program
  // ---------------------------------------------------------------------

  /** A switch whose `state` attribute is present and reads as on. */
  predicate IsOn(sw: SwitchElement)
  {
    sw.state.Some? && OnOffToBoolean(sw.state.value)
  }

  /** The texts of the switches whose state is exactly "on", in document
      order. */
  function OnTexts(sw: seq<SwitchElement>): (r: seq<string>)
    ensures |r| <= |sw|
  {
    if sw == [] then []
    else (if IsOn(sw[0]) then [sw[0].text] else []) + OnTexts(sw[1..])
  }

  /** Collecting on-texts distributes over concatenation, and a single
      switch contributes its text exactly when its state is "on". */
  lemma {:induction false} OnTextsConcat(a: seq<SwitchElement>, b: seq<SwitchElement>)
    ensures OnTexts(a + b) == OnTexts(a) + OnTexts(b)
    decreases |a|
  {
    if a == [] {
      assert a + b == b;
    } else {
      var head := if IsOn(a[0]) then [a[0].text] else [];
      HeadTailAppend(a, b);
      OnTextsConcat(a[1..], b);
      AppendAssoc(head, OnTexts(a[1..]), OnTexts(b));
    }
  }

  /** One more switch read: its text is collected exactly when it is "on". */
  lemma OnTextsNext(sw: seq<SwitchElement>, i: nat)
    requires i < |sw|
    ensures OnTexts(sw[..i + 1]) == OnTexts(sw[..i]) + (if IsOn(sw[i]) then [sw[i].text] else [])
  {
    OnTextsConcat(sw[..i], [sw[i]]);
    assert sw[..i + 1] == sw[..i] + [sw[i]];
  }

  /** The period one pair of on-texts describes. A missing second text
      stands for 24:00. */
  function PairPeriod(first: string, second: Option<string>): (r: Result<Period>)
    ensures second.None? && r.Ok? ==> End(r.value) == 1440
    ensures r.Ok? ==> ReadClock(first).Ok? && Start(r.value) == ReadTime(first).value
    ensures second.Some? && r.Ok? ==> ReadClock(second.value).Ok? && End(r.value) == ReadTime(second.value).value
    ensures r.Err? ==> r.error == OutOfBounds || r.error == IllegalArgument
  {
    match ReadClock(first)
    case Err(e) => Err(e)
    case Ok((startH, startM)) =>
      var end: Result<(int, int)> := if second.None? then Ok((24, 0)) else ReadClock(second.value);
      match end
      case Err(e) => Err(e)
      case Ok((endH, endM)) => New(startH, startM, endH, endM)
  }

  /** Number of complete pairs before the last (possibly incomplete) pair
      in a list of n texts. */
  function PairsBefore(n: nat): (k: nat)
    requires n > 0
    ensures 2 * k < n <= 2 * k + 2
  {
    if n <= 2 then 0 else 1 + PairsBefore(n - 2)
  }

  /** Index of the first text of the last pair in a list of n texts. */
  function LastPairStart(n: nat): (i: nat)
    requires n > 0
    ensures i < n <= i + 2
  {
    2 * PairsBefore(n)
  }

  /** One turn of the pairing loop: the period of a pair of texts, added to
      the schedule built so far. A period the constructor refuses, or a
      sixth period, raises an IllegalArgumentException. */
  function AddPair(s: seq<Period>, first: string, second: Option<string>): (r: Result<seq<Period>>)
    requires StrictlySorted(s)
    ensures r.Ok? ==> StrictlySorted(r.value) && |r.value| <= MAX_PERIODS
    ensures r.Ok? <==> PairPeriod(first, second).Ok? && Add(s, PairPeriod(first, second).value).Added?
    ensures r.Err? ==> r.error == OutOfBounds || r.error == IllegalArgument
  {
    match PairPeriod(first, second)
    case Err(e) => Err(e)
    case Ok(p) =>
      match Add(s, p)
      case TooMany(_) => Err(IllegalArgument)
      case Added(s') => Ok(s')
  }

  /** A pair whose period cannot be built fails with the same error,
      whatever the schedule. */
  lemma AddPairErr(s: seq<Period>, first: string, second: Option<string>)
    requires StrictlySorted(s) && PairPeriod(first, second).Err?
    ensures AddPair(s, first, second) == Err(PairPeriod(first, second).error)
  {
  }

  /** The pairing continued after the texts before a pair: their failure,
      or that pair added to their schedule. */
  function ThenAddPair(prev: Result<seq<Period>>, first: string, second: Option<string>): (r: Result<seq<Period>>)
    requires prev.Ok? ==> StrictlySorted(prev.value)
    ensures prev.Err? ==> r == prev
    ensures prev.Ok? ==> r == AddPair(prev.value, first, second)
  {
    match prev
    case Err(e) => Err(e)
    case Ok(s) => AddPair(s, first, second)
  }

  /** The text after position `i`, if there is one: the end of the pair
      starting at `i`. */
  function SecondText(texts: seq<string>, i: nat): (r: Option<string>)
    requires i < |texts|
    ensures r.Some? <==> i + 1 < |texts|
    ensures r.Some? ==> r.value == texts[i + 1]
  {
    if i + 1 < |texts| then Some(texts[i + 1]) else None
  }

  /** The pairing loop of `readDayProgram`: texts (0,1), (2,3), … become
      periods added, in order, to an empty schedule; an odd last text is
      paired with 24:00. */
  function DecodeTexts(texts: seq<string>): (r: Result<seq<Period>>)
    ensures r.Ok? ==> StrictlySorted(r.value) && |r.value| <= MAX_PERIODS
    ensures r.Err? ==> r.error == OutOfBounds || r.error == IllegalArgument
    decreases |texts|
  {
    if texts == [] then Ok([])
    else
      var i := LastPairStart(|texts|);
      ThenAddPair(DecodeTexts(texts[..i]), texts[i], SecondText(texts, i))
  }

  /** The last pair of texts starts at the even index `i`: the decoding is
      that of the texts before it, continued by that pair. */
  lemma DecodeTextsLastPair(texts: seq<string>, i: nat, pairs: nat)
    requires i == 2 * pairs && i < |texts| <= i + 2
    ensures DecodeTexts(texts) ==
      ThenAddPair(DecodeTexts(texts[..i]), texts[i], SecondText(texts, i))
  {
    LastPairAt(|texts|, i, pairs);
    DecodeTextsUnfold(texts);
  }

  /** The last pair of `n` texts starts at `2 * pairs` when `n` is
      `2 * pairs + 1` or `2 * pairs + 2`. */
  lemma LastPairAt(n: nat, i: nat, pairs: nat)
    requires i == 2 * pairs && i < n <= i + 2
    ensures LastPairStart(n) == i
  {
  }

  /** The definition of `DecodeTexts` on a non-empty list, as one equation. */
  lemma DecodeTextsUnfold(texts: seq<string>)
    requires texts != []
    ensures var i := LastPairStart(|texts|);
      DecodeTexts(texts) ==
        ThenAddPair(DecodeTexts(texts[..i]), texts[i], SecondText(texts, i))
  {
  }

  /** One turn of the pairing loop at an even index `i`: the texts up to
      the end of that pair decode to the texts before it plus that pair. */
  lemma DecodeTextsNextPair(texts: seq<string>, i: nat, pairs: nat)
    requires i == 2 * pairs && i < |texts|
    ensures var j := if i + 2 <= |texts| then i + 2 else |texts|;
      DecodeTexts(texts[..j]) ==
        ThenAddPair(DecodeTexts(texts[..i]), texts[i], SecondText(texts, i))
  {
    var j := if i + 2 <= |texts| then i + 2 else |texts|;
    var u := texts[..j];
    DecodeTextsLastPair(u, i, pairs);
    PrefixOfPrefix(texts, j, i);
    assert u[i] == texts[i];
    assert SecondText(u, i) == SecondText(texts, i);
  }

  /** A pair boundary before the end is at or before the last pair. */
  lemma {:induction false} PairBoundBeforeLast(n: nat, pairs: nat)
    requires 2 * pairs < n
    ensures 2 * pairs <= LastPairStart(n)
    decreases n
  {
    if pairs > 0 {
      PairBoundBeforeLast(n - 2, pairs - 1);
    }
  }

  /** A failing even prefix decides the failure of the whole pairing. */
  lemma {:induction false} DecodeTextsPrefixErr(texts: seq<string>, k: nat, pairs: nat)
    requires k <= |texts| && (k == 2 * pairs || k == |texts|)
    requires DecodeTexts(texts[..k]).Err?
    ensures DecodeTexts(texts) == DecodeTexts(texts[..k])
    decreases |texts|
  {
    if k == |texts| {
      assert texts[..k] == texts;
    } else {
      var i := LastPairStart(|texts|);
      PairBoundBeforeLast(|texts|, pairs);
      PrefixOfPrefix(texts, i, k);
      DecodeTextsPrefixErr(texts[..i], k, pairs);
      DecodeTextsUnfold(texts);
      var e := DecodeTexts(texts[..k]);
      assert ThenAddPair(e, texts[i], SecondText(texts, i)) == e;
    }
  }

  /** What reading one child of a `day` as a switch throws: a child that is
      not a `switch` element fails the `require`, and a switch without a
      `state` attribute hands null to `onOffToBoolean`. */
  function Fault(sw: SwitchElement): (r: Option<Failure>)
    ensures r.None? <==> sw.tag == "switch" && sw.state.Some?
  {
    if sw.tag != "switch" then Some(XmlPull)
    else if sw.state.None? then Some(NullPointer)
    else None
  }

  /** The switch loop of `readDayProgram` reading `n` switches in document
      order: the first fault stops it, and running out of children before
      `n` switches fails the `require` on the day's end tag. */
  function SwitchFault(sw: seq<SwitchElement>, n: nat): (r: Option<Failure>)
    ensures r.None? ==> n <= |sw| && forall i :: 0 <= i < n ==> Fault(sw[i]).None?
    ensures r.Some? ==> r.value == XmlPull || r.value == NullPointer
    ensures r == Some(NullPointer) ==> exists i :: 0 <= i < n && i < |sw| && sw[i].state.None?
  {
    if n == 0 then None
    else if sw == [] then Some(XmlPull)
    else if Fault(sw[0]).Some? then Fault(sw[0])
    else
      var rest := SwitchFault(sw[1..], n - 1);
      assert rest == Some(NullPointer) ==> exists i :: 0 <= i < n - 1 && i < |sw| - 1 && sw[1..][i].state.None?;
      assert rest.None? ==> forall i :: 1 <= i < n ==> sw[i] == sw[1..][i - 1];
      rest
  }

  /** The first faulty switch decides the read: a non-`switch` child
      throws an XmlPullParserException, a switch without a `state`
      attribute a NullPointerException. */
  lemma {:induction false} FirstFault(sw: seq<SwitchElement>, n: nat, i: nat)
    requires i < n && i < |sw| && Fault(sw[i]).Some?
    requires AllSwitches(sw[..i])
    ensures SwitchFault(sw, n) == Fault(sw[i])
    decreases i
  {
    if i > 0 {
      assert Fault(sw[..i][0]).None?;
      assert sw[1..][..i - 1] == sw[..i][1..];
      FirstFault(sw[1..], n - 1, i - 1);
    }
  }

  /** Fewer than `n` readable children: the read runs out of children and
      the next `require` throws an XmlPullParserException. */
  lemma {:induction false} ShortRead(sw: seq<SwitchElement>, n: nat)
    requires |sw| < n && AllSwitches(sw)
    ensures SwitchFault(sw, n) == Some(XmlPull)
    decreases |sw|
  {
    if sw != [] {
      assert Fault(sw[0]).None?;
      assert forall j :: 0 <= j < |sw| - 1 ==> sw[1..][j] == sw[j + 1];
      ShortRead(sw[1..], n - 1);
    }
  }

  /** Switches with the same faults, position by position, are read with
      the same outcome. */
  lemma {:induction false} SwitchFaultSame(a: seq<SwitchElement>, b: seq<SwitchElement>, n: nat)
    requires |a| == |b| && forall i :: 0 <= i < |a| ==> Fault(a[i]) == Fault(b[i])
    ensures SwitchFault(a, n) == SwitchFault(b, n)
    decreases n
  {
    if n > 0 && a != [] && Fault(a[0]).None? {
      assert forall i :: 0 <= i < |a| - 1 ==> a[1..][i] == a[i + 1] && b[1..][i] == b[i + 1];
      SwitchFaultSame(a[1..], b[1..], n - 1);
    }
  }

  /** The structure `readDayProgram` requires: a `day` element holding
      exactly ten `switch` elements, each with a `state` attribute. */
  predicate WellFormedDay(d: DayElement)
  {
    d.tag == "day" && |d.switches| == 10 && AllSwitches(d.switches)
  }

  /** Every element is a `switch` element with a `state` attribute. */
  predicate AllSwitches(sw: seq<SwitchElement>)
  {
    forall i :: 0 <= i < |sw| ==> Fault(sw[i]).None?
  }

  lemma AllSwitchesConcat(a: seq<SwitchElement>, b: seq<SwitchElement>)
    ensures AllSwitches(a + b) <==> AllSwitches(a) && AllSwitches(b)
  {
    if AllSwitches(a) && AllSwitches(b) {
      forall i | 0 <= i < |a + b| ensures Fault((a + b)[i]).None? {
        if i >= |a| {
          assert (a + b)[i] == b[i - |a|];
        }
      }
    }
    if AllSwitches(a + b) {
      assert forall i :: 0 <= i < |a| ==> (a + b)[i] == a[i];
      assert forall i :: 0 <= i < |b| ==> (a + b)[|a| + i] == b[i];
    }
  }

  /** `readDayProgram`: the ten switches are read in order, the first fault
      deciding the error; more than ten children fail the `require` on the
      day's end tag. The on-texts of ten readable switches are paired into
      the day's periods. */
  function DecodeDay(d: DayElement): (r: Result<seq<Period>>)
    ensures r.Ok? ==> WellFormedDay(d) && StrictlySorted(r.value) && |r.value| <= MAX_PERIODS
    ensures !WellFormedDay(d) ==> r.Err? && (r.error == XmlPull || r.error == NullPointer)
    ensures r == Err(NullPointer) ==> exists i :: 0 <= i < |d.switches| && d.switches[i].state.None?
  {
    if d.tag != "day" then Err(XmlPull)
    else
      match SwitchFault(d.switches, 10)
      case Some(e) => Err(e)
      case None =>
        if |d.switches| != 10 then Err(XmlPull)
        else DecodeTexts(OnTexts(d.switches))
  }

  /** The three outcomes of reading a `day` element: the first fault of
      its switch loop, the end-tag failure after ten readable switches
      when more follow, or the paired on-texts. */
  lemma DecodeDayOutcomes(d: DayElement)
    requires d.tag == "day"
    ensures SwitchFault(d.switches, 10).Some? ==> DecodeDay(d) == Err(SwitchFault(d.switches, 10).value)
    ensures SwitchFault(d.switches, 10).None? && |d.switches| != 10 ==> DecodeDay(d) == Err(XmlPull)
    ensures SwitchFault(d.switches, 10).None? && |d.switches| == 10 ==> DecodeDay(d) == DecodeTexts(OnTexts(d.switches))
  {
  }

  /** A switch without a `state` attribute that comes before any other
      fault of its day is a NullPointerException. */
  lemma DecodeDayFaults(d: DayElement, i: nat)
    requires d.tag == "day" && i < 10 && i < |d.switches|
    requires d.switches[i].tag == "switch" && d.switches[i].state.None?
    requires forall j :: 0 <= j < i ==> Fault(d.switches[j]).None?
    ensures DecodeDay(d) == Err(NullPointer)
  {
    assert forall j :: 0 <= j < i ==> d.switches[..i][j] == d.switches[j];
    FirstFault(d.switches, 10, i);
  }

  /** For a `day` element of readable switches the only error is the
      wrong count, an XmlPullParserException, and ten of them are the
      day's on-texts paired. */
  lemma DecodeWellFormedDay(d: DayElement)
    requires d.tag == "day" && AllSwitches(d.switches)
    ensures |d.switches| != 10 ==> DecodeDay(d) == Err(XmlPull)
    ensures |d.switches| == 10 ==> DecodeDay(d) == DecodeTexts(OnTexts(d.switches))
  {
    if |d.switches| >= 10 {
      NoFaultReads(d.switches, 10);
    }
  }

  /** Readable switches, at least `n` of them, are read without a fault. */
  lemma {:induction false} NoFaultReads(sw: seq<SwitchElement>, n: nat)
    requires n <= |sw| && AllSwitches(sw)
    ensures SwitchFault(sw, n) == None
    decreases n
  {
    if n > 0 {
      assert Fault(sw[0]).None?;
      assert forall i :: 0 <= i < |sw| - 1 ==> sw[1..][i] == sw[i + 1];
      NoFaultReads(sw[1..], n - 1);
    }
  }

  /** Switches that are not "on" never change the decoded day, and neither
      do the day's name or the switches' types. */
  lemma DecodeDayIgnores(d: DayElement, i: nat, state: string, name: string, kind: string)
    requires i < |d.switches| && d.switches[i].state.Some? && !IsOn(d.switches[i]) && !OnOffToBoolean(state)
    ensures DecodeDay(d.(switches := d.switches[i := d.switches[i].(state := Some(state), text := "")])) == DecodeDay(d)
    ensures DecodeDay(d.(name := name)) == DecodeDay(d)
    ensures DecodeDay(d.(switches := d.switches[i := d.switches[i].(kind := kind)])) == DecodeDay(d)
  {
    var sw := d.switches;
    var off := sw[i := sw[i].(state := Some(state), text := "")];
    var typed := sw[i := sw[i].(kind := kind)];
    assert sw == sw[..i] + [sw[i]] + sw[i + 1..];
    assert off == sw[..i] + [off[i]] + sw[i + 1..];
    assert typed == sw[..i] + [typed[i]] + sw[i + 1..];
    OnTextsConcat(sw[..i] + [sw[i]], sw[i + 1..]);
    OnTextsConcat(sw[..i], [sw[i]]);
    OnTextsConcat(sw[..i] + [off[i]], sw[i + 1..]);
    OnTextsConcat(sw[..i], [off[i]]);
    OnTextsConcat(sw[..i] + [typed[i]], sw[i + 1..]);
    OnTextsConcat(sw[..i], [typed[i]]);
    SwitchFaultSame(off, sw, 10);
    SwitchFaultSame(typed, sw, 10);
  }

  // ---------------------------------------------------------------------
  // Decoding a week program and a document
  // ---------------------------------------------------------------------

  /** Days decoded one after another; the first failing day decides the
      error. */
  function DecodeDays(days: seq<DayElement>): (r: Result<seq<seq<Period>>>)
    ensures r.Ok? ==> |r.value| == |days|
  {
    MapResults(days, DecodeDay)
  }

  /** Day `i` of a successful decoding is the decoding of element `i`, and
      a single malformed day makes the whole decoding fail. */
  lemma DecodeDaysAt(days: seq<DayElement>, i: nat)
    requires i < |days|
    ensures DecodeDays(days).Ok? ==> DecodeDay(days[i]) == Ok(DecodeDays(days).value[i])
    ensures DecodeDay(days[i]).Err? ==> DecodeDays(days).Err?
  {
    if DecodeDays(days).Ok? {
      MapResultsAt(days, DecodeDay, i);
    } else if DecodeDay(days[i]).Err? {
      MapResultsFails(days, DecodeDay, i);
    }
  }

  /** One turn of the day loop of `readWeekProgram`: a decoded prefix
      followed by day `i` is either that day's failure or one more
      schedule. */
  lemma DecodeDaysNext(days: seq<DayElement>, i: nat, prefix: seq<seq<Period>>)
    requires i < |days| && DecodeDays(days[..i]) == Ok(prefix)
    ensures DecodeDay(days[i]).Err? ==> DecodeDays(days[..i + 1]) == Err(DecodeDay(days[i]).error)
    ensures DecodeDay(days[i]).Ok? ==> DecodeDays(days[..i + 1]) == Ok(prefix + [DecodeDay(days[i]).value])
  {
    TakeNext(days, i);
    if DecodeDay(days[i]).Err? {
      MapResultsStepErr(days[..i], days[i], DecodeDay);
    } else {
      MapResultsStep(days[..i], days[i], DecodeDay);
    }
  }

  /** No week program, or seven schedules that each respect the TreeSet
      order and the five-period limit. */
  predicate WeekShape(week: Option<seq<seq<Period>>>)
  {
    week.Some? ==>
      && |week.value| == 7
      && forall d :: 0 <= d < 7 ==> StrictlySorted(week.value[d]) && |week.value[d]| <= MAX_PERIODS
  }

  lemma DecodedDaysShape(days: seq<DayElement>)
    requires DecodeDays(days).Ok? && |days| == 7
    ensures WeekShape(Some(DecodeDays(days).value))
  {
    var v := DecodeDays(days).value;
    forall d | 0 <= d < 7 ensures StrictlySorted(v[d]) && |v[d]| <= MAX_PERIODS {
      DecodeDaysAt(days, d);
    }
  }

  /** `readWeekProgram`: a `week_program` element whose first seven children
      decode as days, followed by its end tag. */
  function DecodeWeek(w: WeekElement): (r: Result<seq<seq<Period>>>)
    ensures r.Ok? <==> w.tag == "week_program" && |w.days| == 7 && DecodeDays(w.days).Ok?
    ensures r.Ok? ==> r.value == DecodeDays(w.days).value && WeekShape(Some(r.value))
    ensures w.tag != "week_program" ==> r == Err(XmlPull)
  {
    if w.tag != "week_program" then Err(XmlPull)
    else
      var n := if |w.days| < 7 then |w.days| else 7;
      assert |w.days| == 7 ==> w.days[..n] == w.days;
      var v := DecodeDays(w.days[..n]);
      if v.Err? then Err(v.error)
      else if |w.days| != 7 then Err(XmlPull)
      else
        DecodedDaysShape(w.days);
        Ok(v.value)
  }

  /** A day that fails before the seventh decides the failure of the whole
      week program. */
  lemma DecodeWeekPrefixErr(w: WeekElement, k: nat)
    requires w.tag == "week_program" && k <= 7 && k <= |w.days|
    requires DecodeDays(w.days[..k]).Err?
    ensures DecodeWeek(w) == DecodeDays(w.days[..k])
  {
    var n := if |w.days| < 7 then |w.days| else 7;
    assert w.days[..n][..k] == w.days[..k];
    MapResultsPrefixErr(w.days[..n], DecodeDay, k);
  }

  /** The end of the day loop of `readWeekProgram`: the end tag comes too
      early, or after seven days that all decoded. */
  lemma DecodeWeekEnd(w: WeekElement, i: nat, prefix: seq<seq<Period>>)
    requires w.tag == "week_program" && i <= 7 && i <= |w.days|
    requires DecodeDays(w.days[..i]) == Ok(prefix)
    requires i == |w.days| || i == 7
    ensures |w.days| == 7 ==> DecodeWeek(w) == Ok(prefix)
    ensures |w.days| != 7 ==> DecodeWeek(w) == Err(XmlPull)
  {
    if i == |w.days| {
      assert w.days[..i] == w.days;
    }
  }

  /** One child of the root, read into the record built so far. A name
      outside the eight known ones is an XmlPullParserException, and so is a
      text element where a week program belongs or the other way round. A
      temperature text is read by `readTemperature`; one it refuses is a
      NumberFormatException. */
  function ApplyChild(acc: Snapshot, e: Element, readTemperature: string -> Option<Temperature>): (r: Result<Snapshot>)
    ensures Dispatch(ElementName(e)).Err? ==> r == Err(XmlPull)
    ensures r.Ok? && r.value.weekSchedule != acc.weekSchedule ==>
      && e.Program? && DecodeWeek(e.week).Ok?
      && r.value.weekSchedule == Some(DecodeWeek(e.week).value)
    ensures r.Ok? && WeekShape(acc.weekSchedule) ==> WeekShape(r.value.weekSchedule)
  {
    match Dispatch(ElementName(e))
    case Err(err) => Err(err)
    case Ok(field) =>
      match e
      case Program(w) =>
        if field != WeekProgram then Err(XmlPull)
        else
          (match DecodeWeek(w)
           case Err(err) => Err(err)
           case Ok(week) => Ok(acc.(weekSchedule := Some(week))))
      case Leaf(_, text) =>
        match field
        case CurrentDay =>
          (match NameToDay(text)
           case Err(err) => Err(err)
           case Ok(d) => Ok(acc.(dayOfTheWeek := Some(d))))
        case Time =>
          (match ReadTime(text)
           case Err(err) => Err(err)
           case Ok(minutes) => Ok(acc.(time := minutes)))
        case WeekProgramState => Ok(acc.(weekScheduleOn := OnOffToBoolean(text)))
        case WeekProgram => Err(XmlPull)
        case _ =>
          match readTemperature(text)
          case None => Err(IllegalArgument)
          case Some(t) =>
            Ok(match field
               case CurrentTemperature => acc.(currentTemperature := Some(t))
               case TargetTemperature => acc.(targetTemperature := Some(t))
               case DayTemperature => acc.(dayTemperature := Some(t))
               case _ => acc.(nightTemperature := Some(t)))
  }

  /** The children read in document order; a later child overwrites what an
      earlier one of the same name set, and the first error stops the read. */
  function DecodeChildren(cs: seq<Element>, acc: Snapshot, readTemperature: string -> Option<Temperature>): (r: Result<Snapshot>)
    ensures r.Ok? ==> forall i :: 0 <= i < |cs| ==> Dispatch(ElementName(cs[i])).Ok?
    ensures r.Ok? && WeekShape(acc.weekSchedule) ==> WeekShape(r.value.weekSchedule)
  {
    if cs == [] then Ok(acc)
    else
      match ApplyChild(acc, cs[0], readTemperature)
      case Err(err) => Err(err)
      case Ok(next) =>
        assert forall i :: 1 <= i < |cs| ==> cs[i] == cs[1..][i - 1];
        DecodeChildren(cs[1..], next, readTemperature)
  }

  /** `readThermostat`: the root must be `thermostat`; its children are read
      into a blank record. */
  function DecodeThermostat(doc: Document, readTemperature: string -> Option<Temperature>): (r: Result<Snapshot>)
    ensures doc.root != "thermostat" ==> r == Err(XmlPull)
    ensures r.Ok? ==> forall i :: 0 <= i < |doc.children| ==> Dispatch(ElementName(doc.children[i])).Ok?
    ensures r.Ok? ==> WeekShape(r.value.weekSchedule)
  {
    if doc.root != "thermostat" then Err(XmlPull)
    else DecodeChildren(doc.children, Blank(), readTemperature)
  }

  /** One turn of the child loop: the suffix from `i` is child `i` applied,
      then the suffix after it. */
  lemma DecodeChildrenStep(cs: seq<Element>, i: nat, acc: Snapshot, readTemperature: string -> Option<Temperature>)
    requires i < |cs|
    ensures DecodeChildren(cs[i..], acc, readTemperature) ==
      match ApplyChild(acc, cs[i], readTemperature)
      case Err(e) => Err(e)
      case Ok(next) => DecodeChildren(cs[i + 1..], next, readTemperature)
  {
    assert cs[i..][0] == cs[i];
    assert cs[i..][1..] == cs[i + 1..];
  }

  /** Reading children one list after another is reading their
      concatenation. */
  lemma {:induction false} DecodeChildrenConcat(a: seq<Element>, b: seq<Element>, acc: Snapshot, readTemperature: string -> Option<Temperature>)
    ensures DecodeChildren(a + b, acc, readTemperature) ==
      match DecodeChildren(a, acc, readTemperature)
      case Err(e) => Err(e)
      case Ok(mid) => DecodeChildren(b, mid, readTemperature)
    decreases |a|
  {
    if a == [] {
      assert a + b == b;
    } else {
      assert (a + b)[1..] == a[1..] + b;
      match ApplyChild(acc, a[0], readTemperature)
      case Err(_) =>
      case Ok(next) => DecodeChildrenConcat(a[1..], b, next, readTemperature);
    }
  }

  /** When a document ends with a `time` element, the decoded time is that
      element's, whatever came before; a child with an unknown name fails the
      whole read. */
  lemma LastChildWins(cs: seq<Element>, acc: Snapshot, text: string, readTemperature: string -> Option<Temperature>)
    requires DecodeChildren(cs + [Leaf("time", text)], acc, readTemperature).Ok?
    ensures ReadTime(text).Ok?
    ensures DecodeChildren(cs + [Leaf("time", text)], acc, readTemperature).value.time == ReadTime(text).value
  {
    DecodeChildrenConcat(cs, [Leaf("time", text)], acc, readTemperature);
    assert [Leaf("time", text)][1..] == [];
  }

  lemma UnknownChildFails(cs: seq<Element>, e: Element, acc: Snapshot, readTemperature: string -> Option<Temperature>)
    requires Dispatch(ElementName(e)).Err?
    ensures DecodeChildren(cs + [e], acc, readTemperature).Err?
    ensures DecodeChildren([e] + cs, acc, readTemperature) == Err(XmlPull)
  {
    DecodeChildrenConcat(cs, [e], acc, readTemperature);
    match DecodeChildren(cs, acc, readTemperature)
    case Err(_) =>
    case Ok(mid) => assert ElementName([e][0]) == ElementName(e);
  }

  /** A week program whose first day fails on a switch without a `state`
      attribute makes the whole document a NullPointerException. That is
      not the XmlPullParserException `parse` turns into null, so it
      escapes `parse`. */
  lemma MissingStateEscapes(w: WeekElement, readTemperature: string -> Option<Temperature>)
    requires w.tag == "week_program" && |w.days| > 0
    requires DecodeDay(w.days[0]) == Err(NullPointer)
    ensures DecodeWeek(w) == Err(NullPointer)
    ensures DecodeThermostat(Document("thermostat", [Program(w)]), readTemperature) == Err(NullPointer)
  {
    var first := w.days[..1];
    assert first[..0] == [] && first[0] == w.days[0];
    assert MapResults(first[..0], DecodeDay) == Ok([]);
    assert DecodeDays(first) == Err(NullPointer);
    DecodeWeekPrefixErr(w, 1);
    var doc := Document("thermostat", [Program(w)]);
    assert Dispatch(ElementName(doc.children[0])) == Ok(WeekProgram);
  }

  // ---------------------------------------------------------------------
  // Encoding a week program
  // ---------------------------------------------------------------------

  /** Only the end of the day renders as "24:00". */
  lemma MidnightText(t: Time)
    ensures Times.ToString(t) == "24:00" <==> t == UNDEFINED
  {
    UndefinedIsLatest(t);
    if Times.ToString(t) == Times.ToString(UNDEFINED) {
      ToStringParses(t);
      ToStringParses(UNDEFINED);
      assert Some(t.h) == Some(UNDEFINED.h) && Some(t.m) == Some(UNDEFINED.m);
    }
  }

  /** The switches `serialize` writes for one period: an on "day" switch
      with the start text, then an on "night" switch with the end text
      unless that text is "24:00". */
  function PeriodSwitches(p: Period): (r: seq<SwitchElement>)
    ensures 1 <= |r| <= 2
    ensures |r| == 1 <==> End(p) == 1440
    ensures r[0] == SwitchElement("switch", "day", Some("on"), Times.ToString(StartTime(p)))
    ensures |r| == 2 ==> r[1] == SwitchElement("switch", "night", Some("on"), Times.ToString(EndTime(p)))
  {
    MidnightText(EndTime(p));
    var day := SwitchElement("switch", "day", Some("on"), Times.ToString(StartTime(p)));
    var night := Times.ToString(EndTime(p));
    if night != "24:00" then [day, SwitchElement("switch", "night", Some("on"), night)] else [day]
  }

  /** The switches of a whole schedule, period after period in ascending
      order. */
  function ScheduleSwitches(s: seq<Period>): (r: seq<SwitchElement>)
    ensures |s| <= |r| <= 2 * |s|
  {
    if s == [] then []
    else ScheduleSwitches(s[..|s| - 1]) + PeriodSwitches(s[|s| - 1])
  }

  /** The padding loop of `serialize` with its counter counting down:
      `cnt` off switches with text "23:59", typed "day" on even counts and
      "night" on odd ones. */
  function Padding(cnt: int): (r: seq<SwitchElement>)
    ensures |r| == if cnt > 0 then cnt else 0
    decreases cnt
  {
    if cnt <= 0 then []
    else [PadSwitch(cnt)] + Padding(cnt - 1)
  }

  /** The padding switch written while the counter is `cnt`: off, text
      "23:59", typed "day" on even counts and "night" on odd ones. */
  function PadSwitch(cnt: int): (sw: SwitchElement)
    ensures Fault(sw).None? && !IsOn(sw)
  {
    SwitchElement("switch", if cnt % 2 == 0 then "day" else "night", Some("off"), "23:59")
  }

  /** One turn of the padding loop: writing the switch for `cnt` and then
      the padding for `cnt - 1` is the padding for `cnt`. */
  lemma PaddingStep(sw: seq<SwitchElement>, cnt: int)
    requires cnt > 0
    ensures (sw + [PadSwitch(cnt)]) + Padding(cnt - 1) == sw + Padding(cnt)
  {
    AppendAssoc(sw, [PadSwitch(cnt)], Padding(cnt - 1));
  }

  /** One turn of the period loop of `serialize`. */
  lemma ScheduleSwitchesNext(s: seq<Period>, k: nat)
    requires k < |s|
    ensures ScheduleSwitches(s[..k + 1]) == ScheduleSwitches(s[..k]) + PeriodSwitches(s[k])
  {
    var t := s[..k + 1];
    assert t[..|t| - 1] == s[..k];
  }

  /** One `day` element of `serialize`: the given day name, and the
      schedule's switches padded to ten. */
  function EncodeDay(name: string, s: seq<Period>): (r: DayElement)
    ensures r.tag == "day" && r.name == name
  {
    DayElement("day", name, PadToTen(ScheduleSwitches(s)))
  }

  /** Switches followed by as many padding switches as it takes to reach
      ten. */
  function PadToTen(sw: seq<SwitchElement>): seq<SwitchElement>
  {
    sw + Padding(10 - |sw|)
  }

  /** The full name of the day with id `i`. */
  function DayName(i: nat): (name: string)
    requires i < 7
    ensures NameToDay(name) == Ok(FromId(i).value)
  {
    NameToDayInvertsFullName(FromId(i).value, FullName(FromId(i).value));
    FullName(FromId(i).value)
  }

  /** The `day` elements of `serialize` for the first days of the week, in
      id order, each named after the day with its id. */
  function EncodeDays(week: seq<seq<Period>>): (r: seq<DayElement>)
    requires |week| <= 7
    ensures |r| == |week|
  {
    if week == [] then []
    else EncodeDays(week[..|week| - 1]) + [EncodeDay(DayName(|week| - 1), week[|week| - 1])]
  }

  /** One turn of the day loop of `serialize`. */
  lemma EncodeDaysNext(week: seq<seq<Period>>, i: nat)
    requires |week| <= 7 && i < |week|
    ensures EncodeDays(week[..i + 1]) == EncodeDays(week[..i]) + [EncodeDay(DayName(i), week[i])]
  {
    var t := week[..i + 1];
    assert t[..|t| - 1] == week[..i];
  }

  /** The `week_program` element of `serialize`: `state` "on" exactly when
      the week program is on, and the seven days in id order. */
  function EncodeWeek(on: bool, week: seq<seq<Period>>): (r: WeekElement)
    requires |week| == 7
    ensures r.tag == "week_program" && |r.days| == 7
    ensures OnOffToBoolean(r.state) == on
  {
    WeekElement("week_program", if on then "on" else "off", EncodeDays(week))
  }

  /** Day `i` of the encoded week is the schedule of the day with id `i`,
      under that day's full name. */
  lemma {:induction false} EncodeDaysAt(week: seq<seq<Period>>, i: nat)
    requires |week| <= 7 && i < |week|
    ensures EncodeDays(week)[i] == EncodeDay(DayName(i), week[i])
    decreases |week|
  {
    var n := |week| - 1;
    var prefix := EncodeDays(week[..n]);
    var last := EncodeDay(DayName(n), week[n]);
    AppendParts(prefix, [last]);
    if i < n {
      EncodeDaysAt(week[..n], i);
      assert (prefix + [last])[..n][i] == prefix[i];
    }
  }

  // ---------------------------------------------------------------------
  // Round trip
  // ---------------------------------------------------------------------

  /** A schedule the encoder and decoder agree on: TreeSet-ordered, within
      the limit, and with a gap between consecutive periods, so that adding
      its periods again in order merges nothing. */
  predicate Separated(s: seq<Period>)
  {
    && StrictlySorted(s)
    && |s| <= MAX_PERIODS
    && forall i :: 0 <= i < |s| - 1 ==> End(s[i]) < Start(s[i + 1])
  }

  /** Inserting a period that starts after every stored one appends it. */
  lemma {:induction false} InsertAfterAll(s: seq<Period>, p: Period)
    requires StrictlySorted(s)
    requires forall i :: 0 <= i < |s| ==> Start(s[i]) < Start(p)
    ensures Insert(s, p) == s + [p]
  {
    if s != [] {
      InsertAfterAll(s[1..], p);
      assert s == [s[0]] + s[1..];
    }
  }

  /** Adding a period that starts after the last stored period ends merges
      nothing and appends it. */
  lemma AddAfterLast(s: seq<Period>, p: Period)
    requires StrictlySorted(s) && |s| < MAX_PERIODS
    requires s != [] ==> End(s[|s| - 1]) < Start(p)
    ensures Add(s, p) == Added(s + [p])
  {
    forall i | 0 <= i < |s| ensures Start(s[i]) < Start(p) {
      assert Start(s[i]) <= Start(s[|s| - 1]);
    }
    assert Split(s, Start(p)) == |s|;
    assert !FloorMerges(s, p);
    assert Higher(s, p).None?;
    assert MergeNeighbours(s, p) == (s, p);
    InsertAfterAll(s, p);
  }

  /** The on-texts of a schedule's switches, period by period. */
  lemma ScheduleTexts(s: seq<Period>)
    requires s != []
    ensures OnTexts(ScheduleSwitches(s)) ==
      OnTexts(ScheduleSwitches(s[..|s| - 1])) + OnTexts(PeriodSwitches(s[|s| - 1]))
  {
    OnTextsConcat(ScheduleSwitches(s[..|s| - 1]), PeriodSwitches(s[|s| - 1]));
  }

  /** Dropping the last period of a separated schedule leaves a separated
      schedule, which the dropped period follows after a gap. */
  lemma SeparatedPrefix(s: seq<Period>)
    requires Separated(s) && s != []
    ensures Separated(s[..|s| - 1])
    ensures |s| > 1 ==> End(s[|s| - 2]) < Start(s[|s| - 1])
  {
    var prefix := s[..|s| - 1];
    assert forall i :: 0 <= i < |prefix| ==> prefix[i] == s[i];
  }

  /** A period contributes its start text, and its end text unless it ends
      at 24:00. */
  lemma PeriodTexts(p: Period)
    ensures OnTexts(PeriodSwitches(p)) ==
      [Times.ToString(StartTime(p))] + (if End(p) == 1440 then [] else [Times.ToString(EndTime(p))])
  {
    var ps := PeriodSwitches(p);
    if |ps| == 2 {
      assert ps == [ps[0]] + [ps[1]];
      OnTextsConcat([ps[0]], [ps[1]]);
      assert OnTexts([ps[1]]) == [ps[1].text];
    }
    assert OnTexts([ps[0]]) == [ps[0].text];
  }

  /** The texts of a period read back as that period, through the 24:00
      fallback when the end switch was left out. */
  lemma PairPeriodInvertsSwitches(p: Period)
    ensures var u := OnTexts(PeriodSwitches(p));
      PairPeriod(u[0], if |u| == 2 then Some(u[1]) else None) == Ok(p)
  {
    PeriodTexts(p);
    ReadClockInvertsToString(StartTime(p), "");
    ReadClockInvertsToString(EndTime(p), "");
  }

  /** One more pair of texts after an even number of them adds one more
      period. */
  lemma DecodeTextsStep(t: seq<string>, u: seq<string>, s: seq<Period>, pairs: nat)
    requires |t| == 2 * pairs && 1 <= |u| <= 2
    requires DecodeTexts(t) == Ok(s)
    ensures DecodeTexts(t + u) == ThenAddPair(Ok(s), u[0], if |u| == 2 then Some(u[1]) else None)
  {
    var v := t + u;
    AppendParts(t, u);
    DecodeTextsLastPair(v, |t|, pairs);
    assert v[|t|] == u[0];
    assert |u| == 2 ==> v[|t| + 1] == u[1];
  }

  /** The texts of one more period, after the texts of a schedule that it
      follows after a gap, add that period at the end. */
  lemma DecodeNextPeriod(t: seq<string>, prefix: seq<Period>, p: Period)
    requires |t| == 2 * |prefix| && DecodeTexts(t) == Ok(prefix)
    requires StrictlySorted(prefix) && |prefix| < MAX_PERIODS
    requires prefix != [] ==> End(prefix[|prefix| - 1]) < Start(p)
    ensures DecodeTexts(t + OnTexts(PeriodSwitches(p))) == Ok(prefix + [p])
  {
    var u := OnTexts(PeriodSwitches(p));
    PeriodTexts(p);
    PairPeriodInvertsSwitches(p);
    AddAfterLast(prefix, p);
    DecodeTextsStep(t, u, prefix, |prefix|);
  }

  /** A period followed by another after a gap does not end at 24:00, so
      it contributes both its texts. */
  lemma ScheduleTextsLength(s: seq<Period>)
    requires Separated(s) && s != []
    requires var prefix := s[..|s| - 1];
      |OnTexts(ScheduleSwitches(prefix))| == 2 * |prefix| - (if prefix != [] && End(prefix[|prefix| - 1]) == 1440 then 1 else 0)
    ensures |OnTexts(ScheduleSwitches(s))| == 2 * |s| - (if End(s[|s| - 1]) == 1440 then 1 else 0)
    ensures |OnTexts(ScheduleSwitches(s[..|s| - 1]))| == 2 * (|s| - 1)
  {
    SeparatedPrefix(s);
    ScheduleTexts(s);
    PeriodTexts(s[|s| - 1]);
  }

  /** Every schedule with gaps between its periods decodes from its own
      on-texts; all periods but a final one ending at 24:00 contribute two
      texts. */
  lemma {:induction false} DecodeScheduleTexts(s: seq<Period>)
    requires Separated(s)
    ensures DecodeTexts(OnTexts(ScheduleSwitches(s))) == Ok(s)
    ensures |OnTexts(ScheduleSwitches(s))| == 2 * |s| - (if s != [] && End(s[|s| - 1]) == 1440 then 1 else 0)
    decreases |s|
  {
    if s != [] {
      var prefix, p := s[..|s| - 1], s[|s| - 1];
      SeparatedPrefix(s);
      DecodeScheduleTexts(prefix);
      ScheduleTextsLength(s);
      ScheduleTexts(s);
      DecodeNextPeriod(OnTexts(ScheduleSwitches(prefix)), prefix, p);
      SplitLast(s);
    }
  }

  lemma {:induction false} ScheduleSwitchesTagged(s: seq<Period>)
    ensures AllSwitches(ScheduleSwitches(s))
    decreases |s|
  {
    if s != [] {
      var ps := PeriodSwitches(s[|s| - 1]);
      ScheduleSwitchesTagged(s[..|s| - 1]);
      AllSwitchesConcat(ScheduleSwitches(s[..|s| - 1]), ps);
    }
  }

  /** The padding consists of `switch` elements, none of them "on". */
  lemma {:induction false} PaddingIsOff(cnt: int)
    ensures AllSwitches(Padding(cnt)) && OnTexts(Padding(cnt)) == []
    decreases cnt
  {
    if cnt > 0 {
      PaddingIsOff(cnt - 1);
      AllSwitchesConcat([PadSwitch(cnt)], Padding(cnt - 1));
      assert Padding(cnt)[1..] == Padding(cnt - 1);
    }
  }

  /** Padding at most ten switches gives exactly ten, adds no on-text and
      keeps them all `switch` elements. */
  lemma PadToTenFacts(sw: seq<SwitchElement>)
    requires |sw| <= 10 && AllSwitches(sw)
    ensures |PadToTen(sw)| == 10 && AllSwitches(PadToTen(sw))
    ensures OnTexts(PadToTen(sw)) == OnTexts(sw)
  {
    var pad := Padding(10 - |sw|);
    PaddingIsOff(10 - |sw|);
    AllSwitchesConcat(sw, pad);
    OnTextsConcat(sw, pad);
    assert OnTexts(sw) + [] == OnTexts(sw);
  }

  /** The `day` element of a schedule within the limit is well formed, and
      its on-texts are the schedule's own. */
  lemma EncodedDayShape(name: string, s: seq<Period>)
    requires |s| <= MAX_PERIODS
    ensures WellFormedDay(EncodeDay(name, s))
    ensures OnTexts(EncodeDay(name, s).switches) == OnTexts(ScheduleSwitches(s))
  {
    ScheduleSwitchesTagged(s);
    PadToTenFacts(ScheduleSwitches(s));
  }

  /** A day with gaps between its periods encodes to a `day` element that
      decodes back to the same schedule. */
  lemma DayRoundTrip(name: string, s: seq<Period>)
    requires Separated(s)
    ensures DecodeDay(EncodeDay(name, s)) == Ok(s)
  {
    EncodedDayShape(name, s);
    DecodeWellFormedDay(EncodeDay(name, s));
    DecodeScheduleTexts(s);
  }

  /** Encoded days with gaps between their periods decode to their
      schedules. */
  lemma {:induction false} EncodedDaysDecode(week: seq<seq<Period>>)
    requires |week| <= 7
    requires forall d :: 0 <= d < |week| ==> Separated(week[d])
    ensures DecodeDays(EncodeDays(week)) == Ok(week)
    decreases |week|
  {
    if week != [] {
      var n := |week| - 1;
      var prefix := week[..n];
      assert forall d :: 0 <= d < n ==> prefix[d] == week[d];
      EncodedDaysDecode(prefix);
      var day := EncodeDay(DayName(n), week[n]);
      DayRoundTrip(DayName(n), week[n]);
      MapResultsStep(EncodeDays(prefix), day, DecodeDay);
      SplitLast(week);
    }
  }

  /** Encoding a week of separated schedules and decoding the result gives
      back every day's schedule. The week program's `state` attribute is
      written but not read back. */
  lemma WeekRoundTrip(on: bool, week: seq<seq<Period>>)
    requires |week| == 7 && forall d :: 0 <= d < 7 ==> Separated(week[d])
    ensures DecodeWeek(EncodeWeek(on, week)) == Ok(week)
  {
    EncodedDaysDecode(week);
  }
}
