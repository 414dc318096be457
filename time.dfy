/** `utils/Time`: a minute of the day, with 24:00 standing for "undefined". */
module Times {
  import opened Common
  import opened Decimal

  /** The two fields of a Java `Time` object, hours and minutes. */
  datatype Clock = Clock(h: int, m: int)

  /** What `Time(int h, int m)` accepts: hours 0..24, minutes 0..59, and
      hour 24 only with minute 0. */
  predicate InRange(h: int, m: int) {
    0 <= h <= 24 && 0 <= m <= 59 && (h == 24 ==> m == 0)
  }

  /** Every `Time` object went through one of the two checking constructors. */
  type Time = c: Clock | InRange(c.h, c.m) witness Clock(0, 0)

  /** `Time.UNDEFINED`, the end-of-day sentinel 24:00. */
  const UNDEFINED: Time := Clock(24, 0)

  /** `getTime()`: minutes since midnight. */
  function GetTime(t: Time): (r: int)
    ensures 0 <= r <= 1440
    ensures r == 1440 <==> t == UNDEFINED
  {
    t.h * 60 + t.m
  }

  /** `getTimeH()`. */
  function GetTimeH(t: Time): (r: int)
    ensures 0 <= r <= 24
    ensures r == GetTime(t) / 60
  {
    t.h
  }

  /** `getTimeM()`. */
  function GetTimeM(t: Time): (r: int)
    ensures 0 <= r <= 59
    ensures r == GetTime(t) % 60
  {
    t.m
  }

  /** `Time(int time)`: rejects a minute count outside 0..1440, otherwise
      splits it into hours and minutes. */
  function FromMinutes(time: int): (r: Result<Time>)
    ensures r.Ok? <==> 0 <= time <= 1440
    ensures r.Err? ==> r.error == IllegalArgument
    ensures r.Ok? ==> GetTime(r.value) == time
  {
    if time < 0 || time > 24 * 60 then Err(IllegalArgument)
    else Ok(Clock(time / 60, time % 60))
  }

  /** `Time(int h, int m)`: range-checked, stores both fields as given. */
  function FromHourMinute(h: int, m: int): (r: Result<Time>)
    ensures r.Ok? <==> 0 <= h <= 24 && 0 <= m <= 59 && (h == 24 ==> m == 0)
    ensures r.Err? ==> r.error == IllegalArgument
    ensures r.Ok? ==> GetTimeH(r.value) == h && GetTimeM(r.value) == m && GetTime(r.value) == h * 60 + m
  {
    if h < 0 || h > 24 || m < 0 || m > 59 || (h == 24 && m != 0) then Err(IllegalArgument)
    else Ok(Clock(h, m))
  }

  /** A time is determined by its minute count. */
  lemma MinutesDetermineTime(a: Time, b: Time)
    ensures GetTime(a) == GetTime(b) <==> a == b
  {
    if GetTime(a) == GetTime(b) {
      assert a.h == GetTime(a) / 60 && b.h == GetTime(b) / 60;
    }
  }

  /** Both constructors agree: rebuilding a time from its minute count or from
      its hour and minute gives the same time. */
  lemma ConstructorsRoundTrip(t: Time)
    ensures FromMinutes(GetTime(t)) == Ok(t)
    ensures FromHourMinute(GetTimeH(t), GetTimeM(t)) == Ok(t)
  {
    MinutesDetermineTime(FromMinutes(GetTime(t)).value, t);
  }

  /** `toString()`: zero-padded "HH:MM". */
  function ToString(t: Time): (s: string)
    ensures |s| == 5 && s[2] == ':'
  {
    Pad2(t.h) + ":" + Pad2(t.m)
  }

  /** The two fields of `toString()` parse back to the hours and minutes. */
  lemma ToStringParses(t: Time)
    ensures AllDigits(ToString(t)[..2]) && AllDigits(ToString(t)[3..])
    ensures ParseInt(ToString(t)[..2]) == Some(t.h) && ParseInt(ToString(t)[3..]) == Some(t.m)
  {
    var s := ToString(t);
    assert s[..2] == Pad2(t.h) && s[3..] == Pad2(t.m);
  }

  /** `UNDEFINED` is the largest time and prints as "24:00". */
  lemma UndefinedIsLatest(t: Time)
    ensures GetTime(t) <= GetTime(UNDEFINED) == 1440
    ensures ToString(UNDEFINED) == "24:00"
  {
    assert Pad2(24) == "24" by { assert ToDecimal(24) == ToDecimal(2) + [DigitChar(4)]; }
    assert Pad2(0) == "00";
  }

  /** `compareTo`: the difference of the minute counts. */
  function CompareTo(a: Time, b: Time): (r: int)
    ensures r < 0 <==> GetTime(a) < GetTime(b)
    ensures r > 0 <==> GetTime(a) > GetTime(b)
    ensures r == 0 <==> a == b
  {
    MinutesDetermineTime(a, b);
    GetTime(a) - GetTime(b)
  }
}
