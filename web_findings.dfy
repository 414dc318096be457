/** A place where `service/WebService` does something other than what it
    evidently means to do, modelled as written next to a witness that shows
    the difference. The rest of the model uses the corrected reading in
    `WebService.WebService.PutData`. */
module WebFindings {
  import opened Common
  import opened Parsed
  import opened WebService

  /** The request `putData` makes as written, on `host`. The status is read
      before the output stream is asked for, so the PUT goes out without a
      body; `getOutputStream` then throws a ProtocolException (the
      connection never allowed output and has already read its response),
      an `IOException` that is only logged. The host follows the status as
      in the corrected reading. */
  function PutAsWritten(option: string, t: Snapshot, render: Temperature -> string, host: string, reply: Reply)
    : (r: Result<(Option<Upload>, string)>)
    requires t.weekSchedule.Some? ==> |t.weekSchedule.value| == 7
    ensures r.Err? <==> UploadBody(option, t, render).Err?
    ensures r.Ok? ==> r.value.1 == NextHost(host, reply, false)
    ensures r.Ok? && r.value.0.Some? ==> r.value.0.value.body == Empty
  {
    match UploadBody(option, t, render)
    case Err(e) => Err(e)
    case Ok(_) =>
      var path := [COURSE_URL, THERMOSTAT_ID, UploadTarget(option).value.0];
      if reply.IoFailure? then Ok((None, host))
      else Ok((Some(Upload(host, path, Empty)), NextHost(host, reply, false)))
  }

  /** Whatever the option and the reply, no upload as written carries the
      data: a request that reaches the server is empty, while the body the
      corrected `PutData` sends for the same option is never empty. The
      request reaches the same host and path in both readings. */
  lemma UploadNeverCarriesData(option: string, t: Snapshot, render: Temperature -> string, host: string, reply: Reply)
    requires t.weekSchedule.Some? ==> |t.weekSchedule.value| == 7
    requires UploadBody(option, t, render).Ok? && reply.Reply?
    ensures PutAsWritten(option, t, render, host, reply) ==
      Ok((Some(Upload(host, [COURSE_URL, THERMOSTAT_ID, UploadTarget(option).value.0], Empty)), NextHost(host, reply, false)))
    ensures UploadBody(option, t, render).value != Empty
  {
  }
}
