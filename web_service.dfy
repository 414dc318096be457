/** `service/WebService`: the host failover rule and the upload table. The
    HTTP connection is replaced by the reply it gives back; URL building,
    intents and the pending-intent callback are not part of this model. */
module WebService {
  import opened Common
  import opened Parsed
  import opened XmlFormat

  const BASE_URL := "wwwis.win.tue.nl"
  const BACKUP_URL := "pcwin889.win.tue.nl"
  const COURSE_URL := "2id40-ws"
  const THERMOSTAT_ID := "33"
  const SCHEDULE_URL := "weekProgram"
  const SCHEDULE_STATE_URL := "weekProgramState"
  const TARGET_URL := "targetTemperature"
  const CURRENT_URL := "currentTemperature"
  const NIGHT_URL := "nightTemperature"
  const DAY_URL := "dayTemperature"

  /** What one connection attempt gives back: an `IOException`, or a
      status code and whether a 200 response has a body stream. */
  datatype Reply = IoFailure | Reply(status: int, hasBody: bool)

  /** The replies that move the service to the backup host: a status other
      than 200 and 404, or, when the body is read (GET), a 200 reply
      without a body stream. A 404 never fails over: for it
      `getInputStream` throws a FileNotFoundException, an `IOException`
      that is only logged, before the null test is reached. */
  predicate FailsOver(reply: Reply, readsBody: bool)
  {
    reply.Reply? && ((reply.status != 200 && reply.status != 404) || (readsBody && reply.status == 200 && !reply.hasBody))
  }

  /** The host to use after a reply. */
  function NextHost(host: string, reply: Reply, readsBody: bool): (h: string)
    ensures h == host || h == BACKUP_URL
    ensures h != host ==> FailsOver(reply, readsBody)
  {
    if FailsOver(reply, readsBody) then BACKUP_URL else host
  }

  /** The replies whose body a GET parses: status 200 with a body stream. */
  predicate Parses(reply: Reply)
  {
    reply == Reply(200, true)
  }

  /** Every reply to a GET is parsed, fails over, or is only logged: an
      `IOException` or a 404 keep the host and parse nothing. */
  lemma GetOutcomes(reply: Reply)
    ensures Parses(reply) ==> !FailsOver(reply, true)
    ensures !Parses(reply) && !FailsOver(reply, true) <==> reply.IoFailure? || reply.status == 404
  {
  }

  /** The host after a run of requests, each reply paired with whether its
      request reads a body. */
  function HostAfter(host: string, replies: seq<(Reply, bool)>): (h: string)
    ensures h == host || h == BACKUP_URL
    decreases |replies|
  {
    if replies == [] then host
    else HostAfter(NextHost(host, replies[0].0, replies[0].1), replies[1..])
  }

  /** Failover is one-way: starting from the primary host, the service is on
      the backup host exactly when some reply failed over, and it never
      returns to the primary host. */
  lemma {:induction false} FailoverIsSticky(host: string, replies: seq<(Reply, bool)>)
    requires host == BASE_URL || host == BACKUP_URL
    ensures host == BACKUP_URL ==> HostAfter(host, replies) == BACKUP_URL
    ensures host == BASE_URL ==>
      (HostAfter(host, replies) == BACKUP_URL <==> exists i :: 0 <= i < |replies| && FailsOver(replies[i].0, replies[i].1))
    decreases |replies|
  {
    if replies != [] {
      var next := NextHost(host, replies[0].0, replies[0].1);
      FailoverIsSticky(next, replies[1..]);
      if host == BASE_URL && next == BASE_URL {
        if HostAfter(host, replies) == BACKUP_URL {
          var i :| 0 <= i < |replies[1..]| && FailsOver(replies[1..][i].0, replies[1..][i].1);
          assert replies[i + 1] == replies[1..][i];
        } else {
          forall i | 0 <= i < |replies|
            ensures !FailsOver(replies[i].0, replies[i].1)
          {
            if i > 0 {
              assert replies[i] == replies[1..][i - 1];
            }
          }
        }
      }
    }
  }

  /** What a PUT carries: an XML element holding one text, the week program
      `serialize` writes, or nothing at all. */
  datatype Body = Element(name: string, text: string) | Schedule(week: WeekElement) | Empty

  /** `putData`'s table from upload option to path segment and element
      name. The target temperature goes to `currentTemperature` as a
      `current_temperature` element. Any other option throws. */
  function UploadTarget(option: string): (r: Result<(string, string)>)
    ensures r.Err? <==> option !in {"day_temperature", "night_temperature", "target_temperature", "week_program_state", "week_program"}
    ensures r.Err? ==> r.error == IllegalArgument
    ensures r.Ok? && option != "target_temperature" ==> r.value.1 == option
    ensures option == "target_temperature" ==> r == Ok((CURRENT_URL, "current_temperature"))
  {
    match option
    case "day_temperature" => Ok((DAY_URL, "day_temperature"))
    case "night_temperature" => Ok((NIGHT_URL, "night_temperature"))
    case "target_temperature" => Ok((CURRENT_URL, "current_temperature"))
    case "week_program_state" => Ok((SCHEDULE_STATE_URL, "week_program_state"))
    case "week_program" => Ok((SCHEDULE_URL, "week_program"))
    case _ => Err(IllegalArgument)
  }

  /** Different options are sent to different paths, none of them the
      unused `targetTemperature`. */
  lemma UploadPathsDistinct(a: string, b: string)
    requires UploadTarget(a).Ok? && UploadTarget(b).Ok?
    ensures UploadTarget(a).value.0 != TARGET_URL
    ensures a != b ==> UploadTarget(a).value.0 != UploadTarget(b).value.0
  {
  }

  /** The body of an upload, built before connecting. A missing temperature
      or week program dereferences null; `render` stands for
      `getTemperature(false)` turned into text. */
  function UploadBody(option: string, t: Snapshot, render: Temperature -> string): (r: Result<Body>)
    requires t.weekSchedule.Some? ==> |t.weekSchedule.value| == 7
    ensures UploadTarget(option).Err? ==> r == Err(IllegalArgument)
    ensures r.Ok? ==> !r.value.Empty?
    ensures r.Ok? && r.value.Element? ==> UploadTarget(option) == Ok((UploadTarget(option).value.0, r.value.name))
    ensures option == "week_program_state" ==> r == Ok(Element("week_program_state", if t.weekScheduleOn then "on" else "off"))
    ensures option == "week_program" && t.weekSchedule.Some? ==> r == Ok(Schedule(EncodeWeek(t.weekScheduleOn, t.weekSchedule.value)))
    ensures r == Err(NullPointer) <==>
      || (option == "day_temperature" && t.dayTemperature.None?)
      || (option == "night_temperature" && t.nightTemperature.None?)
      || (option == "target_temperature" && t.targetTemperature.None?)
      || (option == "week_program" && t.weekSchedule.None?)
  {
    match option
    case "day_temperature" =>
      if t.dayTemperature.None? then Err(NullPointer) else Ok(Element("day_temperature", render(t.dayTemperature.value)))
    case "night_temperature" =>
      if t.nightTemperature.None? then Err(NullPointer) else Ok(Element("night_temperature", render(t.nightTemperature.value)))
    case "target_temperature" =>
      if t.targetTemperature.None? then Err(NullPointer) else Ok(Element("current_temperature", render(t.targetTemperature.value)))
    case "week_program_state" => Ok(Element("week_program_state", if t.weekScheduleOn then "on" else "off"))
    case "week_program" =>
      if t.weekSchedule.None? then Err(NullPointer) else Ok(Schedule(EncodeWeek(t.weekScheduleOn, t.weekSchedule.value)))
    case _ => Err(IllegalArgument)
  }

  /** A request that reached the server: the host, the path segments after
      it and, for an upload, the body. */
  datatype Upload = Upload(host: string, path: seq<string>, body: Body)

  /** The effect of one intent: a fetch (the host asked and whether the body
      was parsed and sent back), an upload (the request that reached a
      server, if any), or nothing for an unknown mode. */
  datatype Effect = Fetched(host: string, parsed: bool) | Uploaded(sent: Option<Upload>) | Ignored

  /** The IntentService: the only state it keeps between intents is the
      preferred host. */
  class WebService {
    var preferredURL: string

    /** The service starts on the primary host. */
    constructor ()
      ensures preferredURL == BASE_URL
    {
      preferredURL := BASE_URL;
    }

    /** `getData`: asks the preferred host; a failing status or a missing
        body switches to the backup host and returns, an `IOException` is
        only logged, otherwise the body is parsed and sent back. A 404
        passes the status test, but `getInputStream` throws for it. */
    method GetData(reply: Reply) returns (host: string, parsed: bool)
      modifies this
      ensures host == old(preferredURL)
      ensures preferredURL == NextHost(old(preferredURL), reply, true)
      ensures parsed <==> Parses(reply)
    {
      host := preferredURL;
      if reply.IoFailure? {
        return host, false;
      }
      if reply.status != 200 {
        if reply.status != 404 {
          preferredURL := BACKUP_URL;
          return host, false;
        }
        return host, false;
      }
      if !reply.hasBody {
        preferredURL := BACKUP_URL;
        return host, false;
      }
      return host, true;
    }

    /** `putData` with the body written before the status is read: builds
        the path and the body for the option (throwing for an unknown option
        or a missing value), then sends the body to the preferred host; a
        failing status switches to the backup host. An `IOException` is
        only logged, and nothing reaches a server. */
    method PutData(option: string, t: Snapshot, render: Temperature -> string, reply: Reply) returns (r: Result<Option<Upload>>)
      requires t.weekSchedule.Some? ==> |t.weekSchedule.value| == 7
      modifies this
      ensures UploadBody(option, t, render).Err? ==>
        r == Err(UploadBody(option, t, render).error) && preferredURL == old(preferredURL)
      ensures UploadBody(option, t, render).Ok? ==>
        && preferredURL == NextHost(old(preferredURL), reply, false)
        && r == Ok(if reply.Reply?
                   then Some(Upload(old(preferredURL), [COURSE_URL, THERMOSTAT_ID, UploadTarget(option).value.0], UploadBody(option, t, render).value))
                   else None)
    {
      var target := UploadTarget(option);
      var body := UploadBody(option, t, render);
      if body.Err? {
        return Err(body.error);
      }
      var path := [COURSE_URL, THERMOSTAT_ID, target.value.0];
      if reply.IoFailure? {
        return Ok(None);
      }
      r := Ok(Some(Upload(preferredURL, path, body.value)));
      if reply.status != 200 && reply.status != 404 {
        preferredURL := BACKUP_URL;
      }
    }

    /** `onHandleIntent`: "GET" fetches, "PUT" uploads, any other mode is
        only logged. */
    method HandleIntent(mode: string, option: string, t: Snapshot, render: Temperature -> string, reply: Reply)
      returns (r: Result<Effect>)
      requires t.weekSchedule.Some? ==> |t.weekSchedule.value| == 7
      modifies this
      ensures mode != "GET" && mode != "PUT" ==> r == Ok(Ignored) && preferredURL == old(preferredURL)
      ensures mode == "GET" ==>
        && r == Ok(Fetched(old(preferredURL), Parses(reply)))
        && preferredURL == NextHost(old(preferredURL), reply, true)
      ensures mode == "PUT" ==>
        preferredURL == (if UploadBody(option, t, render).Ok? then NextHost(old(preferredURL), reply, false) else old(preferredURL))
      ensures mode == "PUT" && r.Ok? ==> r.value.Uploaded? && UploadBody(option, t, render).Ok?
      ensures mode == "PUT" && UploadBody(option, t, render).Ok? ==>
        r == Ok(Uploaded(if reply.Reply?
                         then Some(Upload(old(preferredURL), [COURSE_URL, THERMOSTAT_ID, UploadTarget(option).value.0], UploadBody(option, t, render).value))
                         else None))
      ensures mode == "PUT" && r.Err? ==> UploadBody(option, t, render) == Err(r.error)
    {
      match mode
      case "GET" =>
        var host, parsed := GetData(reply);
        return Ok(Fetched(host, parsed));
      case "PUT" =>
        var sent := PutData(option, t, render, reply);
        if sent.Err? {
          return Err(sent.error);
        }
        return Ok(Uploaded(sent.value));
      case _ =>
        return Ok(Ignored);
    }
  }
}
