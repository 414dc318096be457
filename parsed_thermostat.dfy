/** `parser/ParsedThermostat`: the plain record one poll produces and an
    upload carries. `utils/Temperature` is not part of this model: a
    temperature is an opaque value here. */
module Parsed {
  import opened Common
  import opened Days
  import opened Periods
  import opened DaySchedules

  /** A `Temperature` object, carried but never computed with. */
  datatype Temperature = Temperature(reading: int)

  /** The eight public fields, with the week program held as `W`; a Java
      `null` is `None`. */
  datatype Record<W> = Record(
    weekSchedule: Option<W>,
    dayTemperature: Option<Temperature>,
    nightTemperature: Option<Temperature>,
    currentTemperature: Option<Temperature>,
    targetTemperature: Option<Temperature>,
    weekScheduleOn: bool,
    time: int,
    dayOfTheWeek: Option<Day>)

  /** The Java object: its week program is a list of `DaySchedule` objects. */
  type ParsedThermostat = Record<seq<DaySchedule>>

  /** The same record with every schedule replaced by its periods. */
  type Snapshot = Record<seq<seq<Period>>>

  /** A freshly constructed record: every reference null, `false`, `0`. */
  function Blank<W>(): (r: Record<W>)
    ensures r.weekSchedule.None? && r.dayOfTheWeek.None? && !r.weekScheduleOn && r.time == 0
    ensures r.dayTemperature.None? && r.nightTemperature.None?
    ensures r.currentTemperature.None? && r.targetTemperature.None?
  {
    Record(None, None, None, None, None, false, 0, None)
  }

  /** The objects a week program consists of. */
  ghost function Objects(week: seq<DaySchedule>): set<DaySchedule>
  {
    set i | 0 <= i < |week| :: week[i]
  }

  /** Distinct, valid day schedules: no two days share an object. */
  ghost predicate SchedulesValid(week: seq<DaySchedule>)
    reads Objects(week)
  {
    && (forall i, j :: 0 <= i < j < |week| ==> week[i] != week[j])
    && (forall i :: 0 <= i < |week| ==> week[i].Valid())
  }

  /** Seven distinct, valid day schedules, indexed by day id. */
  ghost predicate WeekWellFormed(week: seq<DaySchedule>)
    reads Objects(week)
  {
    |week| == 7 && SchedulesValid(week)
  }

  /** Appending a schedule adds exactly that object. */
  lemma ObjectsAppend(week: seq<DaySchedule>, d: DaySchedule)
    ensures Objects(week + [d]) == Objects(week) + {d}
    ensures d in week ==> d in Objects(week)
  {
    var w := week + [d];
    assert w[|week|] == d;
    assert forall i :: 0 <= i < |week| ==> w[i] == week[i];
  }

  /** Appending a valid schedule that is not already in the list keeps the
      schedules distinct and valid. */
  lemma SchedulesValidAppend(week: seq<DaySchedule>, d: DaySchedule)
    requires SchedulesValid(week) && d.Valid() && d !in week
    ensures SchedulesValid(week + [d])
  {
    var w := week + [d];
    assert forall i :: 0 <= i < |week| ==> w[i] == week[i];
  }

  /** The periods of each schedule of a week program, in day order. */
  function WeekContents(week: seq<DaySchedule>): (r: seq<seq<Period>>)
    reads Objects(week)
    ensures |r| == |week|
    ensures forall i :: 0 <= i < |week| ==> r[i] == week[i].periods
  {
    if week == [] then []
    else
      assert Objects(week[1..]) <= Objects(week) by {
        forall o | o in Objects(week[1..]) ensures o in Objects(week) {
          var i :| 0 <= i < |week[1..]| && week[1..][i] == o;
          assert week[i + 1] == o;
        }
      }
      [week[0].periods] + WeekContents(week[1..])
  }

  /** The value a record holds, with schedules read out of their objects. */
  function Contents(t: ParsedThermostat): (r: Snapshot)
    reads if t.weekSchedule.Some? then Objects(t.weekSchedule.value) else {}
    ensures r.weekSchedule.Some? <==> t.weekSchedule.Some?
    ensures t.weekSchedule.Some? ==> r.weekSchedule.value == WeekContents(t.weekSchedule.value)
    ensures r.dayTemperature == t.dayTemperature && r.nightTemperature == t.nightTemperature
    ensures r.currentTemperature == t.currentTemperature && r.targetTemperature == t.targetTemperature
    ensures r.weekScheduleOn == t.weekScheduleOn && r.time == t.time && r.dayOfTheWeek == t.dayOfTheWeek
  {
    Record(
      if t.weekSchedule.Some? then Some(WeekContents(t.weekSchedule.value)) else None,
      t.dayTemperature, t.nightTemperature, t.currentTemperature, t.targetTemperature,
      t.weekScheduleOn, t.time, t.dayOfTheWeek)
  }

  /** Appending a schedule to a week program appends its periods. */
  lemma WeekContentsAppend(week: seq<DaySchedule>, d: DaySchedule)
    ensures WeekContents(week + [d]) == WeekContents(week) + [d.periods]
  {
    var w := week + [d];
    assert forall i :: 0 <= i < |week| ==> w[i] == week[i];
  }
}
