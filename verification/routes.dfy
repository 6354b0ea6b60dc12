/** The two ingestion routes, `/api/weather` and `/api/yield`
    (app.py:123-140): each calls its `save_*` function inside a bare
    `try`, throws away the string it returns, and answers with a one-key
    JSON object. */
module Routes {
  import opened Ingestion

  /** The response body: `{"Success": message}` or `{"Error": message}`. */
  datatype Response = Success(message: string) | Error(message: string)
  {
    /** The object `jsonify` serializes: exactly one key, naming the kind of
        response, mapped to its message. */
    function Json(): (j: map<string, string>)
      ensures |j| == 1
    {
      match this
      case Success(m) => map["Success" := m]
      case Error(m) => map["Error" := m]
    }
  }

  /** A route over a `save_*` call that ended with `status`: any escaped
      exception becomes the error response, any return the success
      response, whatever string was returned. */
  function Respond(status: Status, saved: string, unable: string): (r: Response)
    ensures r.Error? <==> status.Aborted?
    ensures r.Success? ==> r.message == saved
    ensures r.Error? ==> r.message == unable
  {
    match status
    case Aborted => Error(unable)
    case Returned(_) => Success(saved)
  }

  /** `ingest_weather_data` (app.py:123-130). */
  function IngestWeatherData(status: Status): (r: Response)
    ensures status.Aborted? ==> r == Error("Unable to save weather.")
    ensures status.Returned? ==> r == Success("Saved weather.")
  {
    Respond(status, "Saved weather.", "Unable to save weather.")
  }

  /** `ingest_crop_yield_data` (app.py:133-140). */
  function IngestCropYieldData(status: Status): (r: Response)
    ensures status.Aborted? ==> r == Error("Unable to save crop.")
    ensures status.Returned? ==> r == Success("Saved crop.")
  {
    Respond(status, "Saved crop.", "Unable to save crop.")
  }

  /** The body `/api/weather` sends names the error exactly when
      `save_weather` raised, and carries the one message that goes with it. */
  lemma WeatherJson(status: Status)
    ensures var j := IngestWeatherData(status).Json();
      && ("Error" in j <==> status.Aborted?)
      && ("Success" in j <==> status.Returned?)
      && j.Values == {if status.Aborted? then "Unable to save weather." else "Saved weather."}
  {
  }

  /** The body `/api/yield` sends, likewise over `save_crop`. */
  lemma YieldJson(status: Status)
    ensures var j := IngestCropYieldData(status).Json();
      && ("Error" in j <==> status.Aborted?)
      && ("Success" in j <==> status.Returned?)
      && j.Values == {if status.Aborted? then "Unable to save crop." else "Saved crop."}
  {
  }
}
