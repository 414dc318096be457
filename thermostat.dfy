/** `utils/Thermostat`: the aggregate the user interface talks to. It holds
    the week program as seven `DaySchedule` objects, the four temperatures,
    the week-program switch, the clock the server reports and the listener
    list. Every mutator records the upload request it sends; the timer, the
    Android context and the service intents themselves are not part of this
    model. */
module Thermostats {
  import opened Common
  import opened Days
  import opened Periods
  import opened DaySchedules
  import opened Parsed
  import opened WebService

  /** A registered `ThermostatListener`, known by the order it was created in. */
  datatype Listener = Listener(id: nat)

  /** One `uploadServer` call: the upload option and the values of the
      `ParsedThermostat` copy put in the intent, read out when the intent's
      extras are serialized at `startService`. Later changes to the
      schedules do not reach a request already sent. */
  datatype UploadRequest = UploadRequest(option: string, copy: Snapshot)

  /** The record `uploadServer` builds: a fresh `ParsedThermostat` with the
      week program, its switch and the day, night and target temperatures
      copied over; the current temperature, the day and the time keep their
      defaults. */
  function UploadCopy<W>(t: Record<W>): (c: Record<W>)
    ensures c.weekSchedule == t.weekSchedule && c.weekScheduleOn == t.weekScheduleOn
    ensures c.dayTemperature == t.dayTemperature && c.nightTemperature == t.nightTemperature
    ensures c.targetTemperature == t.targetTemperature
    ensures c.currentTemperature.None? && c.time == 0 && c.dayOfTheWeek.None?
  {
    Record(t.weekSchedule, t.dayTemperature, t.nightTemperature, None, t.targetTemperature, t.weekScheduleOn, 0, None)
  }

  /** The copy leaves out only what no upload reads: every upload option
      builds the same body from the copy as from the full record. */
  lemma UploadCopyKeepsBodies(option: string, t: Snapshot, render: Temperature -> string)
    requires t.weekSchedule.Some? ==> |t.weekSchedule.value| == 7
    ensures UploadBody(option, UploadCopy(t), render) == UploadBody(option, t, render)
  {
    var c := UploadCopy(t);
    assert c.weekSchedule == t.weekSchedule && c.weekScheduleOn == t.weekScheduleOn;
  }

  /** Reading the schedules out of a copy is copying the record read out. */
  lemma UploadCopyContents(t: ParsedThermostat)
    ensures Contents(UploadCopy(t)) == UploadCopy(Contents(t))
  {
    assert UploadCopy(t).weekSchedule == t.weekSchedule;
  }

  /** A week program whose days other than `k` kept their periods differs
      from the one before only at day `k`. */
  lemma OneDayChanged(week: seq<DaySchedule>, k: nat, before: seq<seq<Period>>)
    requires |week| == |before| == 7 && k < 7
    requires forall j :: 0 <= j < 7 && j != k ==> week[j].periods == before[j]
    ensures WeekContents(week) == before[k := week[k].periods]
  {
    var w := WeekContents(week);
    assert forall j :: 0 <= j < 7 ==> w[j] == before[k := week[k].periods][j];
  }

  /** `addDayPeriod` on the schedule of day `k` of a week program: only that
      schedule object changes. */
  method AddToDay(week: seq<DaySchedule>, k: nat, p: Period) returns (ok: bool)
    requires WeekWellFormed(week) && k < 7
    modifies week[k]
    ensures WeekWellFormed(week)
    ensures ok <==> Add(old(WeekContents(week))[k], p).Added?
    ensures WeekContents(week) == old(WeekContents(week))[k := Add(old(WeekContents(week))[k], p).periods]
  {
    ghost var before := WeekContents(week);
    assert week[k] in Objects(week);
    ok := week[k].AddDayPeriod(p);
    forall j | 0 <= j < 7 && j != k
      ensures week[j].periods == before[j] && week[j].Valid()
    {
      assert week[j] in Objects(week);
    }
    OneDayChanged(week, k, before);
  }

  /** `deleteDayPeriod` on the schedule of day `k` of a week program: only
      that schedule object changes. */
  method DeleteFromDay(week: seq<DaySchedule>, k: nat, p: Period)
    requires WeekWellFormed(week) && k < 7
    modifies week[k]
    ensures WeekWellFormed(week)
    ensures WeekContents(week) == old(WeekContents(week))[k := RemoveKey(old(WeekContents(week))[k], Start(p))]
  {
    ghost var before := WeekContents(week);
    assert week[k] in Objects(week);
    week[k].DeleteDayPeriod(p);
    forall j | 0 <= j < 7 && j != k
      ensures week[j].periods == before[j] && week[j].Valid()
    {
      assert week[j] in Objects(week);
    }
    OneDayChanged(week, k, before);
  }

  class Thermostat {
    var weekSchedule: Option<seq<DaySchedule>>
    var dayTemperature: Option<Temperature>
    var nightTemperature: Option<Temperature>
    var currentTemperature: Option<Temperature>
    var targetTemperature: Option<Temperature>
    var weekScheduleOn: bool
    var time: int
    var dayOfTheWeek: Option<Day>
    var fahrenheit: bool
    var listeners: seq<Listener>
    /** The `onThermostatUpdate` calls made so far, in order. */
    var updates: seq<Listener>
    /** The upload requests sent so far, in order. */
    var uploads: seq<UploadRequest>

    /** The day schedule objects the thermostat holds. */
    ghost function Schedules(): set<DaySchedule>
      reads this
    {
      if weekSchedule.Some? then Objects(weekSchedule.value) else {}
    }

    /** A held week program is seven distinct, valid day schedules. */
    ghost predicate Valid()
      reads this, Schedules()
    {
      weekSchedule.Some? ==> WeekWellFormed(weekSchedule.value)
    }

    /** The eight fields `onReceive` installs, as a `ParsedThermostat`. */
    function Fields(): (t: ParsedThermostat)
      reads this
      ensures t.weekSchedule == weekSchedule && t.weekScheduleOn == weekScheduleOn
      ensures t.dayTemperature == dayTemperature && t.nightTemperature == nightTemperature
      ensures t.currentTemperature == currentTemperature && t.targetTemperature == targetTemperature
      ensures t.time == time && t.dayOfTheWeek == dayOfTheWeek
    {
      Record(weekSchedule, dayTemperature, nightTemperature, currentTemperature, targetTemperature,
             weekScheduleOn, time, dayOfTheWeek)
    }

    /** The periods of the held week program, day by day. */
    ghost function Program(): (w: seq<seq<Period>>)
      reads this, Schedules()
      requires Valid() && weekSchedule.Some?
      ensures |w| == 7
      ensures forall i :: 0 <= i < 7 ==> StrictlySorted(w[i]) && |w[i]| <= MAX_PERIODS
    {
      WeekContents(weekSchedule.value)
    }

    /** `Thermostat(Context)`: seven new, empty day schedules, no listener,
        every other reference null. */
    constructor ()
      ensures Valid() && weekSchedule.Some? && fresh(Schedules())
      ensures Program() == seq(7, _ => [])
      ensures listeners == [] && updates == [] && uploads == []
      ensures Fields() == Record(weekSchedule, None, None, None, None, false, 0, None)
      ensures !fahrenheit
    {
      var week: seq<DaySchedule> := [];
      for i := 0 to 7
        invariant |week| == i
        invariant SchedulesValid(week) && fresh(Objects(week))
        invariant forall j :: 0 <= j < i ==> week[j].periods == []
      {
        var d := new DaySchedule();
        ObjectsAppend(week, d);
        SchedulesValidAppend(week, d);
        week := week + [d];
      }
      weekSchedule := Some(week);
      dayTemperature, nightTemperature, currentTemperature, targetTemperature := None, None, None, None;
      weekScheduleOn, time, dayOfTheWeek := false, 0, None;
      fahrenheit := false;
      listeners, updates, uploads := [], [], [];
    }

    /** `addListener`: listeners are kept in registration order. */
    method AddListener(listener: Listener)
      modifies this
      ensures listeners == old(listeners) + [listener]
      ensures Fields() == old(Fields()) && fahrenheit == old(fahrenheit)
      ensures updates == old(updates) && uploads == old(uploads)
    {
      listeners := listeners + [listener];
    }

    /** `uploadServer`: records the request with the values of a copy of the
        uploadable fields. */
    method UploadServer(option: string)
      modifies this
      ensures uploads == old(uploads) + [UploadRequest(option, UploadCopy(Contents(Fields())))]
      ensures Fields() == old(Fields()) && fahrenheit == old(fahrenheit)
      ensures listeners == old(listeners) && updates == old(updates)
    {
      var copy := Record(weekSchedule, dayTemperature, nightTemperature, None, targetTemperature, weekScheduleOn, 0, None);
      assert copy == UploadCopy(Fields());
      UploadCopyContents(Fields());
      ghost var program := if weekSchedule.Some? then WeekContents(weekSchedule.value) else [];
      uploads := uploads + [UploadRequest(option, Contents(copy))];
      assert program == if weekSchedule.Some? then WeekContents(weekSchedule.value) else [];
    }

    /** `updateDayTemperature`: stores the temperature and uploads it. */
    method UpdateDayTemperature(temperature: Temperature)
      modifies this
      ensures Fields() == old(Fields()).(dayTemperature := Some(temperature))
      ensures uploads == old(uploads) + [UploadRequest("day_temperature", UploadCopy(Contents(Fields())))]
      ensures listeners == old(listeners) && updates == old(updates) && fahrenheit == old(fahrenheit)
    {
      dayTemperature := Some(temperature);
      UploadServer("day_temperature");
    }

    /** `updateNightTemperature`: stores the temperature and uploads it. */
    method UpdateNightTemperature(temperature: Temperature)
      modifies this
      ensures Fields() == old(Fields()).(nightTemperature := Some(temperature))
      ensures uploads == old(uploads) + [UploadRequest("night_temperature", UploadCopy(Contents(Fields())))]
      ensures listeners == old(listeners) && updates == old(updates) && fahrenheit == old(fahrenheit)
    {
      nightTemperature := Some(temperature);
      UploadServer("night_temperature");
    }

    /** `addSwitch`: `addDayPeriod` on the day's schedule only; the other six
        days keep their periods. Without a week program the call dereferences
        null; a throwing `addDayPeriod` propagates before the upload. */
    method AddSwitch(day: Day, p: Period) returns (r: Result<()>)
      requires Valid()
      modifies this, Schedules()
      ensures Valid() && Fields() == old(Fields())
      ensures listeners == old(listeners) && updates == old(updates) && fahrenheit == old(fahrenheit)
      ensures weekSchedule.None? ==> r == Err(NullPointer) && uploads == old(uploads)
      ensures weekSchedule.Some? ==>
        && Program() == old(Program())[Id(day) := Add(old(Program())[Id(day)], p).periods]
        && (r.Ok? <==> Add(old(Program())[Id(day)], p).Added?)
      ensures weekSchedule.Some? && r.Ok? ==> uploads == old(uploads) + [UploadRequest("week_program", UploadCopy(Contents(Fields())))]
      ensures r.Err? ==> uploads == old(uploads)
      ensures weekSchedule.Some? && r.Err? ==> r.error == IllegalArgument
    {
      if weekSchedule.None? {
        return Err(NullPointer);
      }
      var week := weekSchedule.value;
      var ok := AddToDay(week, Id(day), p);
      if !ok {
        return Err(IllegalArgument);
      }
      ghost var program := WeekContents(week);
      UploadServer("week_program");
      assert WeekContents(week) == program;
      return Ok(());
    }

    /** `deleteSwitch`: `deleteDayPeriod` on the day's schedule only, then
        the upload. */
    method DeleteSwitch(day: Day, p: Period) returns (r: Result<()>)
      requires Valid()
      modifies this, Schedules()
      ensures Valid() && Fields() == old(Fields())
      ensures listeners == old(listeners) && updates == old(updates) && fahrenheit == old(fahrenheit)
      ensures weekSchedule.None? ==> r == Err(NullPointer) && uploads == old(uploads)
      ensures weekSchedule.Some? ==>
        && r.Ok?
        && Program() == old(Program())[Id(day) := RemoveKey(old(Program())[Id(day)], Start(p))]
        && uploads == old(uploads) + [UploadRequest("week_program", UploadCopy(Contents(Fields())))]
    {
      if weekSchedule.None? {
        return Err(NullPointer);
      }
      var week := weekSchedule.value;
      DeleteFromDay(week, Id(day), p);
      ghost var program := WeekContents(week);
      UploadServer("week_program");
      assert WeekContents(week) == program;
      return Ok(());
    }

    /** `setVacationMode`: switching vacation on installs its temperature as
        the target; either way the week program is on exactly when vacation
        is off. */
    method SetVacationMode(on: bool, temperature: Temperature)
      modifies this
      ensures Fields() == old(Fields()).(
        targetTemperature := if on then Some(temperature) else old(targetTemperature),
        weekScheduleOn := !on)
      ensures uploads == old(uploads) + [UploadRequest("week_program_state", UploadCopy(Contents(Fields())))]
      ensures listeners == old(listeners) && updates == old(updates) && fahrenheit == old(fahrenheit)
    {
      if on {
        targetTemperature := Some(temperature);
      }
      weekScheduleOn := !on;
      UploadServer("week_program_state");
    }

    /** `setTemporaryOverride`: only the target temperature changes. */
    method SetTemporaryOverride(temperature: Temperature)
      modifies this
      ensures Fields() == old(Fields()).(targetTemperature := Some(temperature))
      ensures uploads == old(uploads) + [UploadRequest("target_temperature", UploadCopy(Contents(Fields())))]
      ensures listeners == old(listeners) && updates == old(updates) && fahrenheit == old(fahrenheit)
    {
      targetTemperature := Some(temperature);
      UploadServer("target_temperature");
    }

    /** `getDaySchedule`: the periods of the day's schedule, in ascending
        start order; without a week program the call dereferences null. */
    function GetDaySchedule(day: Day): (r: Result<seq<Period>>)
      reads this, Schedules()
      requires Valid()
      ensures r.Ok? <==> weekSchedule.Some?
      ensures r.Err? ==> r.error == NullPointer
      ensures r.Ok? ==> r.value == Program()[Id(day)]
      ensures r.Ok? ==> StrictlySorted(r.value) && |r.value| <= MAX_PERIODS
    {
      if weekSchedule.None? then Err(NullPointer)
      else
        assert weekSchedule.value[Id(day)] in Objects(weekSchedule.value);
        Ok(weekSchedule.value[Id(day)].GetSchedule())
    }

    /** `useFahrenheit`: the unit the temperature accessors use. */
    method UseFahrenheit(on: bool)
      modifies this
      ensures fahrenheit == on
      ensures Fields() == old(Fields())
      ensures listeners == old(listeners) && updates == old(updates) && uploads == old(uploads)
    {
      fahrenheit := on;
    }

    /** The loop of `onReceive`: `onThermostatUpdate` on every listener, in
        list order. */
    method NotifyListeners()
      modifies this
      ensures updates == old(updates) + listeners
      ensures listeners == old(listeners) && Fields() == old(Fields())
      ensures uploads == old(uploads) && fahrenheit == old(fahrenheit)
    {
      for i := 0 to |listeners|
        invariant listeners == old(listeners)
        invariant updates == old(updates) + listeners[..i]
        invariant Fields() == old(Fields())
        invariant uploads == old(uploads) && fahrenheit == old(fahrenheit)
      {
        updates := updates + [listeners[i]];
      }
    }

    /** `onReceive`: a missing snapshot dereferences null before anything
        changes; otherwise all eight fields are taken from the snapshot
        (sharing its day schedule objects) and then every listener is
        notified exactly once, in registration order. */
    method OnReceive(root: Option<ParsedThermostat>) returns (r: Result<()>)
      requires root.Some? && root.value.weekSchedule.Some? ==> WeekWellFormed(root.value.weekSchedule.value)
      modifies this
      ensures root.None? ==> r == Err(NullPointer) && Fields() == old(Fields()) && updates == old(updates)
      ensures root.Some? ==> r.Ok? && Fields() == root.value && Valid() && updates == old(updates) + listeners
      ensures listeners == old(listeners) && uploads == old(uploads) && fahrenheit == old(fahrenheit)
    {
      if root.None? {
        return Err(NullPointer);
      }
      var t := root.value;
      currentTemperature := t.currentTemperature;
      targetTemperature := t.targetTemperature;
      dayTemperature := t.dayTemperature;
      nightTemperature := t.nightTemperature;
      dayOfTheWeek := t.dayOfTheWeek;
      time := t.time;
      weekScheduleOn := t.weekScheduleOn;
      weekSchedule := t.weekSchedule;
      assert Valid();
      ghost var program := if t.weekSchedule.Some? then WeekContents(t.weekSchedule.value) else [];
      NotifyListeners();
      assert program == if t.weekSchedule.Some? then WeekContents(t.weekSchedule.value) else [];
      return Ok(());
    }
  }
}
