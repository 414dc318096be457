/** `utils/Period`: a day-temperature interval of one day, from a start time
    to an end time, both given as hours and minutes. */
module Periods {
  import opened Common
  import opened Decimal
  import opened Times

  /** The four fields of a Java `Period` object. */
  datatype PeriodFields = PeriodFields(startH: int, startM: int, endH: int, endM: int)

  /** The argument check of `Period(startH, startM, endH, endM)`. */
  predicate Accepts(startH: int, startM: int, endH: int, endM: int) {
    && 0 <= startH <= 23 && 0 <= startM <= 59
    && 0 <= endH <= 24 && 0 <= endM <= 59
    && (endH == 24 ==> endM == 0)
    && startH <= endH
    && (startH == endH ==> startM <= endM)
  }

  /** Every `Period` object went through the checking constructor. */
  type Period = p: PeriodFields | Accepts(p.startH, p.startM, p.endH, p.endM)
    witness PeriodFields(0, 0, 0, 0)

  /** `getStartingTime()`: start in minutes since midnight. */
  function Start(p: Period): (r: int)
    ensures 0 <= r <= 1439
  {
    p.startH * 60 + p.startM
  }

  /** `getEndTime()`: end in minutes since midnight. */
  function End(p: Period): (r: int)
    ensures Start(p) <= r <= 1440
  {
    p.endH * 60 + p.endM
  }

  /** `getStartingTimeT()`. */
  function StartTime(p: Period): (t: Time)
    ensures GetTime(t) == Start(p)
  {
    Clock(p.startH, p.startM)
  }

  /** `getEndTimeT()`. */
  function EndTime(p: Period): (t: Time)
    ensures GetTime(t) == End(p)
  {
    Clock(p.endH, p.endM)
  }

  /** The constructor: accepts exactly the ranges of a start hour 0..23, an
      end of at most 24:00, and a start no later than the end (a zero-length
      period is accepted). */
  function New(startH: int, startM: int, endH: int, endM: int): (r: Result<Period>)
    ensures r.Ok? <==>
      && 0 <= startH <= 23 && 0 <= startM <= 59
      && 0 <= endH <= 24 && 0 <= endM <= 59 && (endH == 24 ==> endM == 0)
      && startH * 60 + startM <= endH * 60 + endM
    ensures r.Err? ==> r.error == IllegalArgument
    ensures r.Ok? ==> Start(r.value) == startH * 60 + startM && End(r.value) == endH * 60 + endM
  {
    if 0 > startH || startH > 23 || 0 > startM || startM > 59
      || 0 > endH || endH > 24 || 0 > endM || endM > 59
      || (endH == 24 && endM != 0) || startH > endH
      || (startH == endH && startM > endM)
    then Err(IllegalArgument)
    else Ok(PeriodFields(startH, startM, endH, endM))
  }

  /** Whether minute x lies in the closed range of p. */
  predicate Covers(p: Period, x: int) { Start(p) <= x <= End(p) }

  /** `intersects`: one start lies in the other's closed range. */
  predicate Intersects(a: Period, b: Period) {
    (Start(a) <= End(b) && Start(a) >= Start(b)) || (Start(a) <= Start(b) && End(a) >= Start(b))
  }

  /** Two periods intersect exactly when their closed ranges share a minute,
      so touching endpoints count. */
  lemma IntersectsIffSharedMinute(a: Period, b: Period)
    ensures Intersects(a, b) <==> exists x :: Covers(a, x) && Covers(b, x)
  {
    if Intersects(a, b) {
      var x := if Start(a) >= Start(b) then Start(a) else Start(b);
      assert Covers(a, x) && Covers(b, x);
    }
  }

  /** `intersects` is symmetric and reflexive. */
  lemma IntersectsSymmetricReflexive(a: Period, b: Period)
    ensures Intersects(a, b) == Intersects(b, a)
    ensures Intersects(a, a)
  {
  }

  /** `combine`: fails unless the periods intersect; otherwise the period
      from the earlier start to the later end, rebuilt through the checking
      constructor. */
  function Combine(a: Period, b: Period): (r: Result<Period>)
    ensures r.Ok? <==> Intersects(a, b)
    ensures r.Err? ==> r.error == IllegalArgument
    ensures r.Ok? ==> Start(r.value) == (if Start(a) < Start(b) then Start(a) else Start(b))
    ensures r.Ok? ==> End(r.value) == (if End(a) > End(b) then End(a) else End(b))
  {
    if !Intersects(a, b) then Err(IllegalArgument)
    else
      var start := if Start(a) < Start(b) then Start(a) else Start(b);
      var end := if End(a) > End(b) then End(a) else End(b);
      New(start / 60, start % 60, end / 60, end % 60)
  }

  /** The combination covers exactly the minutes covered by either input, and
      does not depend on the order of the arguments. */
  lemma CombineIsUnion(a: Period, b: Period)
    requires Intersects(a, b)
    ensures Combine(a, b).Ok? && Combine(a, b) == Combine(b, a)
    ensures forall x :: Covers(Combine(a, b).value, x) <==> Covers(a, x) || Covers(b, x)
  {
    var r, r' := Combine(a, b).value, Combine(b, a).value;
    assert r.startH == Start(r) / 60 && r'.startH == Start(r') / 60;
    assert r.endH == End(r) / 60 && r'.endH == End(r') / 60;
  }

  /** `compareTo`: the difference of the start minutes, whatever the ends. */
  function CompareTo(a: Period, b: Period): (r: int)
    ensures r < 0 <==> Start(a) < Start(b)
    ensures r > 0 <==> Start(a) > Start(b)
    ensures r == 0 <==> StartTime(a) == StartTime(b)
  {
    MinutesDetermineTime(StartTime(a), StartTime(b));
    Start(a) - Start(b)
  }

  /** Two periods with the same start and different ends are different
      periods that compare as equal, so a sorted set ordered by `compareTo`
      holds at most one of them. */
  lemma CompareIgnoresEnd(a: Period, b: Period)
    requires Start(a) == Start(b) && End(a) != End(b)
    ensures a != b && CompareTo(a, b) == 0
  {
  }

  /** One "h:m" half of `toString()`: the hour, a colon and the minute,
      each as an unpadded decimal. It reads back as the two numbers, and a
      one-digit hour is followed at once by the colon. */
  function ClockText(h: nat, m: nat): (s: string)
    ensures |s| == |ToDecimal(h)| + 1 + |ToDecimal(m)|
    ensures ParseInt(s[..|ToDecimal(h)|]) == Some(h) && s[|ToDecimal(h)|] == ':'
    ensures ParseInt(s[|ToDecimal(h)| + 1..]) == Some(m)
    ensures h < 10 ==> s[1] == ':'
    ensures '\n' !in s
  {
    ParseToDecimal(h);
    ParseToDecimal(m);
    var s := ToDecimal(h) + ":" + ToDecimal(m);
    assert s[..|ToDecimal(h)|] == ToDecimal(h);
    assert s[|ToDecimal(h)| + 1..] == ToDecimal(m);
    assert forall i :: 0 <= i < |s| ==> s[i] != '\n';
    s
  }

  /** `toString()`: the start's "h:m" text, the separator " – " and the
      end's "h:m" text, on one line. */
  function ToString(p: Period): (s: string)
    ensures |s| == |ClockText(p.startH, p.startM)| + 3 + |ClockText(p.endH, p.endM)|
    ensures var start := ClockText(p.startH, p.startM);
      && s[..|start|] == start
      && s[|start|..|start| + 3] == " – "
      && s[|start| + 3..] == ClockText(p.endH, p.endM)
    ensures '\n' !in s
  {
    var start, sep, end := ClockText(p.startH, p.startM), " – ", ClockText(p.endH, p.endM);
    ThreeParts(start, sep, end);
    start + sep + end
  }
}
