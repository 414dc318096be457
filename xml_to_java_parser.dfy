/** `parser/XmlToJavaParser`: the day-name mapping, the on/off mapping and
    the element-name dispatch of `readThermostat`. */
module XmlToJavaParser {
  import opened Common
  import opened Days

  /** The full English name `nameToDay` maps to each day (the name
      `DAY.getFullName` stands for). */
  function FullName(d: Day): string
  {
    match d
    case MON => "Monday"
    case TUE => "Tuesday"
    case WED => "Wednesday"
    case THU => "Thursday"
    case FRI => "Friday"
    case SAT => "Saturday"
    case SUN => "Sunday"
  }

  /** `nameToDay`: "Monday".."Sunday" to MON..SUN; any other string,
      including another capitalisation, is an IllegalArgumentException. */
  function NameToDay(name: string): (r: Result<Day>)
    ensures r.Ok? <==> name in {"Monday", "Tuesday", "Wednesday", "Thursday", "Friday", "Saturday", "Sunday"}
    ensures r.Err? ==> r.error == IllegalArgument
  {
    match name
    case "Monday" => Ok(MON)
    case "Tuesday" => Ok(TUE)
    case "Wednesday" => Ok(WED)
    case "Thursday" => Ok(THU)
    case "Friday" => Ok(FRI)
    case "Saturday" => Ok(SAT)
    case "Sunday" => Ok(SUN)
    case _ => Err(IllegalArgument)
  }

  /** Each day's full name maps back to that day, and only its full name
      does, so the mapping is injective. */
  lemma NameToDayInvertsFullName(d: Day, name: string)
    ensures NameToDay(FullName(d)) == Ok(d)
    ensures NameToDay(name) == Ok(d) ==> name == FullName(d)
    ensures NameToDay("monday").Err? && NameToDay("MONDAY").Err?
  {
  }

  /** `onOffToBoolean`: true exactly for the string "on". */
  function OnOffToBoolean(s: string): (r: bool)
    ensures r <==> s == "on"
  {
    s == "on"
  }

  /** The on/off text the encoder writes reads back as the flag it came
      from; "off", the empty text and "ON" all read as false. */
  lemma OnOffRoundTrip(b: bool)
    ensures OnOffToBoolean(if b then "on" else "off") == b
    ensures !OnOffToBoolean("") && !OnOffToBoolean("ON")
  {
  }

  /** The eight child elements `readThermostat` knows. */
  datatype Field =
    | CurrentDay | Time | CurrentTemperature | TargetTemperature
    | DayTemperature | NightTemperature | WeekProgramState | WeekProgram

  /** The element name of each known child. */
  function FieldName(f: Field): string
  {
    match f
    case CurrentDay => "current_day"
    case Time => "time"
    case CurrentTemperature => "current_temperature"
    case TargetTemperature => "target_temperature"
    case DayTemperature => "day_temperature"
    case NightTemperature => "night_temperature"
    case WeekProgramState => "week_program_state"
    case WeekProgram => "week_program"
  }

  /** The name test of `readThermostat`: one of the eight names, or an
      XmlPullParserException for any other start tag. */
  function Dispatch(name: string): (r: Result<Field>)
    ensures r.Err? ==> r.error == XmlPull
  {
    if name == "current_day" then Ok(CurrentDay)
    else if name == "time" then Ok(Time)
    else if name == "current_temperature" then Ok(CurrentTemperature)
    else if name == "target_temperature" then Ok(TargetTemperature)
    else if name == "day_temperature" then Ok(DayTemperature)
    else if name == "night_temperature" then Ok(NightTemperature)
    else if name == "week_program_state" then Ok(WeekProgramState)
    else if name == "week_program" then Ok(WeekProgram)
    else Err(XmlPull)
  }

  /** The dispatch accepts exactly the eight element names, each selecting
      its own field. */
  lemma DispatchAcceptsExactlyKnownNames(name: string, f: Field)
    ensures Dispatch(FieldName(f)) == Ok(f)
    ensures Dispatch(name).Ok? <==> exists g :: FieldName(g) == name
    ensures Dispatch(name) == Ok(f) ==> name == FieldName(f)
  {
    if Dispatch(name).Ok? {
      assert FieldName(Dispatch(name).value) == name;
    }
  }
}
