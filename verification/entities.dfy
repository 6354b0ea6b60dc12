/** The two persisted entities, `Weather` and `Crop` (app.py:18-60): their
    keyword constructors and their `serialize` methods. Python does not check
    the types of constructor arguments, so every field holds a `Value`; the
    column types (`String(8)`, `Integer`, ...) are enforced only by the store
    when a batch is committed. */
module Entities {
  import opened Common

  /** Parameter names of `Weather.__init__` (app.py:26), which are also the
      keys `Weather.serialize` writes (app.py:34-42). */
  const WeatherParams: set<string> :=
    {"id", "date", "max_temp", "min_temp", "precipitation", "station"}

  /** Parameter names of `Crop.__init__` (app.py:50), which are also the keys
      `Crop.serialize` writes (app.py:55-60). */
  const CropParams: set<string> := {"id", "year", "yield_per_year"}

  datatype Weather = Weather(
    id: Value,
    date: Value,
    max_temp: Value,
    min_temp: Value,
    precipitation: Value,
    station: Value)
  {
    /** `Weather.serialize` (app.py:34-42): every field under the key of the
        same name, and nothing else. */
    function Serialize(): (d: map<string, Value>)
      ensures d.Keys == WeatherParams
      ensures |d| == 6
    {
      var d := map[
        "id" := id,
        "date" := date,
        "max_temp" := max_temp,
        "min_temp" := min_temp,
        "precipitation" := precipitation,
        "station" := station];
      assert d.Keys == WeatherParams;
      d
    }
  }

  datatype Crop = Crop(id: Value, year: Value, yield_per_year: Value)
  {
    /** `Crop.serialize` (app.py:55-60). */
    function Serialize(): (d: map<string, Value>)
      ensures d.Keys == CropParams
      ensures |d| == 3
    {
      var d := map["id" := id, "year" := year, "yield_per_year" := yield_per_year];
      assert d.Keys == CropParams;
      d
    }
  }

  /** `Weather(**kw)`: Python raises `TypeError` on an unexpected keyword or a
      missing parameter, so construction succeeds exactly when the keys are
      the parameter names; the result then serializes back to `kw`. */
  function WeatherFromKwargs(kw: map<string, Value>): (r: Option<Weather>)
    ensures r.Some? <==> kw.Keys == WeatherParams
    ensures r.Some? ==> r.value.Serialize() == kw
  {
    if kw.Keys == WeatherParams then
      Some(Weather(kw["id"], kw["date"], kw["max_temp"], kw["min_temp"],
                   kw["precipitation"], kw["station"]))
    else
      None
  }

  /** `Crop(**kw)`, with the same keyword discipline. */
  function CropFromKwargs(kw: map<string, Value>): (r: Option<Crop>)
    ensures r.Some? <==> kw.Keys == CropParams
    ensures r.Some? ==> r.value.Serialize() == kw
  {
    if kw.Keys == CropParams then
      Some(Crop(kw["id"], kw["year"], kw["yield_per_year"]))
    else
      None
  }

  /** `Weather(**w.serialize())` rebuilds `w`: serialize loses nothing and
      adds nothing the constructor would reject. */
  lemma WeatherSerializeRoundTrip(w: Weather)
    ensures WeatherFromKwargs(w.Serialize()) == Some(w)
  {
  }

  lemma CropSerializeRoundTrip(c: Crop)
    ensures CropFromKwargs(c.Serialize()) == Some(c)
  {
  }
}
