/** The build step of the ingestion loop (app.py:68-75, 89-92, 109-112):
    read one file into rows, turn each row into a record dictionary, and
    call the entity constructor with it. Reading and tab parsing are an
    oracle (`read`); the dictionary shapes and the keyword constructors are
    modelled exactly, once as the source writes them and once corrected. */
module Builders {
  import opened Common
  import opened PathNames
  import opened Entities

  /** One parsed weather line, with the positional column names
      `date, max_temp, min_temp, precipitation` (app.py:70). */
  datatype WeatherRow = WeatherRow(date: Value, max_temp: Value, min_temp: Value, precipitation: Value)

  /** One parsed crop line, columns `year, yield_per_year` (app.py:75). */
  datatype CropRow = CropRow(year: Value, yield_per_year: Value)

  /** What `get_weather_data` / `get_crop_data` hand back for a path: `None`
      when `os.path.isfile` is false (app.py:69, 74), a raise from the table
      parser, or the parsed rows in file order. */
  datatype Frame<R> = NotAFile | Unparsable | Rows(rows: seq<R>)

  /** `df.to_dict(orient='records')` for one weather row. */
  function WeatherRecord(row: WeatherRow): (d: map<string, Value>)
    ensures d.Keys == {"date", "max_temp", "min_temp", "precipitation"}
  {
    map["date" := row.date, "max_temp" := row.max_temp,
        "min_temp" := row.min_temp, "precipitation" := row.precipitation]
  }

  /** `df.to_dict(orient='records')` for one crop row. */
  function CropRecord(row: CropRow): (d: map<string, Value>)
    ensures d.Keys == {"year", "yield_per_year"}
  {
    map["year" := row.year, "yield_per_year" := row.yield_per_year]
  }

  /** `[make(**d) for d in records]`: the whole list, or the raise of the
      first record the constructor rejects. */
  function ConstructAll<T>(records: seq<map<string, Value>>, make: map<string, Value> -> Option<T>): (r: Option<seq<T>>)
    ensures r.Some? <==> forall i :: 0 <= i < |records| ==> make(records[i]).Some?
    ensures r.Some? ==> |r.value| == |records|
    ensures r.Some? ==> forall i :: 0 <= i < |records| ==> make(records[i]) == Some(r.value[i])
  {
    if |records| == 0 then Some([])
    else
      match make(records[0])
      case None => None
      case Some(x) =>
        match ConstructAll(records[1..], make)
        case None => None
        case Some(xs) => Some([x] + xs)
  }

  /** Weather build as written (app.py:89-92): the bare listing name is read,
      a `location` column is added, and each record goes to `Weather(**...)`.
      A `None` frame raises at the column assignment; a batch, when there is
      one, has one entity per row of the file. */
  function BuildWeatherAsWritten(read: string -> Frame<WeatherRow>, name: string): (r: Option<seq<Weather>>)
    ensures !read(name).Rows? ==> r.None?
    ensures r.Some? ==> |r.value| == |read(name).rows|
  {
    match read(name)
    case NotAFile => None
    case Unparsable => None
    case Rows(rows) =>
      var tag := Str(GetFilename(name));
      ConstructAll(seq(|rows|, i requires 0 <= i < |rows| => WeatherRecord(rows[i])["location" := tag]),
                   WeatherFromKwargs)
  }

  /** Crop build as written (app.py:110-112). */
  function BuildCropAsWritten(read: string -> Frame<CropRow>, name: string): (r: Option<seq<Crop>>)
    ensures !read(name).Rows? ==> r.None?
    ensures r.Some? ==> |r.value| == |read(name).rows|
  {
    match read(name)
    case NotAFile => None
    case Unparsable => None
    case Rows(rows) =>
      ConstructAll(seq(|rows|, i requires 0 <= i < |rows| => CropRecord(rows[i])), CropFromKwargs)
  }

  /** As written, the weather build succeeds only for a readable file with no
      rows: every record carries `location` and lacks `id` and `station`, so
      `Weather(**record)` raises on the first row. */
  lemma WeatherLocationKeyAborts(read: string -> Frame<WeatherRow>, name: string)
    ensures BuildWeatherAsWritten(read, name).Some? <==> read(name) == Rows([])
    ensures BuildWeatherAsWritten(read, name).Some? ==> BuildWeatherAsWritten(read, name).value == []
  {
    match read(name)
    case NotAFile =>
    case Unparsable =>
    case Rows(rows) =>
      if |rows| > 0 {
        var d := WeatherRecord(rows[0])["location" := Str(GetFilename(name))];
        assert "location" in d.Keys && "location" !in WeatherParams;
      }
  }

  /** As written, the crop build succeeds only for a readable file with no
      rows: the records lack `id`, which `Crop.__init__` requires. */
  lemma CropMissingIdAborts(read: string -> Frame<CropRow>, name: string)
    ensures BuildCropAsWritten(read, name).Some? <==> read(name) == Rows([])
    ensures BuildCropAsWritten(read, name).Some? ==> BuildCropAsWritten(read, name).value == []
  {
    match read(name)
    case NotAFile =>
    case Unparsable =>
    case Rows(rows) =>
      if |rows| > 0 {
        assert "id" !in CropRecord(rows[0]).Keys && "id" in CropParams;
      }
  }

  /** The corrected record for one weather row: the row's columns, `id`
      left to the store (`None`) and `station` set to `tag`; exactly what
      `Weather(**record)` accepts. */
  function StationRecord(row: WeatherRow, tag: Value): (d: map<string, Value>)
    ensures WeatherFromKwargs(d) ==
      Some(Weather(Null, row.date, row.max_temp, row.min_temp, row.precipitation, tag))
  {
    var d := WeatherRecord(row)["id" := Null]["station" := tag];
    assert d.Keys == WeatherParams;
    d
  }

  /** The corrected record for one crop row, `id` left to the store. */
  function YieldRecord(row: CropRow): (d: map<string, Value>)
    ensures CropFromKwargs(d) == Some(Crop(Null, row.year, row.yield_per_year))
  {
    var d := CropRecord(row)["id" := Null];
    assert d.Keys == CropParams;
    d
  }

  /** The corrected batch for the rows of one weather file, all tagged with
      `tag`: one record per row, in order, with the row's values. */
  function StationBatch(rows: seq<WeatherRow>, tag: Value): (r: Option<seq<Weather>>)
    ensures r.Some? && |r.value| == |rows|
    ensures forall i :: 0 <= i < |rows| ==>
      r.value[i] == Weather(Null, rows[i].date, rows[i].max_temp, rows[i].min_temp, rows[i].precipitation, tag)
  {
    var records := seq(|rows|, i requires 0 <= i < |rows| => StationRecord(rows[i], tag));
    ConstructAll(records, WeatherFromKwargs)
  }

  /** Corrected weather build: read the joined path `dir/name`, tag every
      row under `station` with that path's stem, and leave `id` to the store.
      It succeeds exactly when the file reads, and yields one record per row
      carrying that row's values in order; for a listing entry (no '/') the
      stem is the entry's own. */
  function BuildWeather(read: string -> Frame<WeatherRow>, dir: string, name: string): (r: Option<seq<Weather>>)
    ensures r.Some? <==> read(Join(dir, name)).Rows?
    ensures r.Some? ==>
      var rows := read(Join(dir, name)).rows;
      && |r.value| == |rows|
      && forall i :: 0 <= i < |rows| ==>
           r.value[i] == Weather(Null, rows[i].date, rows[i].max_temp, rows[i].min_temp,
                                 rows[i].precipitation, Str(GetFilename(Join(dir, name))))
    ensures r.Some? && '/' !in name ==> forall w :: w in r.value ==> w.station == Str(GetFilename(name))
  {
    var path := Join(dir, name);
    if '/' in name then BuildAt(read, path)
    else (BasenameOfJoin(dir, name); BuildAt(read, path))
  }

  /** Read one path and build its corrected batch. */
  function BuildAt(read: string -> Frame<WeatherRow>, path: string): (r: Option<seq<Weather>>)
    ensures r.Some? <==> read(path).Rows?
    ensures r.Some? ==>
      && |r.value| == |read(path).rows|
      && forall i :: 0 <= i < |read(path).rows| ==>
           r.value[i] == Weather(Null, read(path).rows[i].date, read(path).rows[i].max_temp,
                                 read(path).rows[i].min_temp, read(path).rows[i].precipitation,
                                 Str(GetFilename(path)))
  {
    match read(path)
    case NotAFile => None
    case Unparsable => None
    case Rows(rows) => StationBatch(rows, Str(GetFilename(path)))
  }

  /** Corrected crop build: read `dir/name` and leave `id` to the store. */
  function BuildCrop(read: string -> Frame<CropRow>, dir: string, name: string): (r: Option<seq<Crop>>)
    ensures r.Some? <==> read(Join(dir, name)).Rows?
    ensures r.Some? ==>
      var rows := read(Join(dir, name)).rows;
      && |r.value| == |rows|
      && forall i :: 0 <= i < |rows| ==>
           r.value[i] == Crop(Null, rows[i].year, rows[i].yield_per_year)
  {
    match read(Join(dir, name))
    case NotAFile => None
    case Unparsable => None
    case Rows(rows) =>
      ConstructAll(seq(|rows|, i requires 0 <= i < |rows| => YieldRecord(rows[i])), CropFromKwargs)
  }

  /** The bare listing name is not a path into the source directory: with
      the directory "wx_data" listing "a.txt" and only "wx_data/a.txt"
      being a (row-less) file, the build as written raises while the
      corrected build reads the file. */
  lemma BareNameExample()
    ensures var read: string -> Frame<WeatherRow> := (p: string) => if p == "wx_data/a.txt" then Rows([]) else NotAFile;
      && BuildWeatherAsWritten(read, "a.txt") == None
      && BuildWeather(read, "wx_data", "a.txt") == Some([])
  {
    var read: string -> Frame<WeatherRow> := (p: string) => if p == "wx_data/a.txt" then Rows([]) else NotAFile;
    assert Join("wx_data", "a.txt") == "wx_data/a.txt";
    assert "a.txt" != "wx_data/a.txt";
  }

  /** A row (date, max, min, precipitation) of the file "<stem>.<ext>" (for
      example "20240101, 30, 10, 5" in "stationA.tsv") becomes one record
      that serializes to the row's values under their own column names,
      station `stem`, and no id. */
  lemma StationRoundTrip(dir: string, stem: string, ext: string, row: WeatherRow)
    requires |stem| > 0
    requires '.' !in stem && '.' !in ext
    requires '/' !in stem && '/' !in ext
    ensures var read: string -> Frame<WeatherRow> := (p: string) => Rows([row]);
      var r := BuildWeather(read, dir, stem + "." + ext);
      r.Some? && |r.value| == 1 &&
      r.value[0].Serialize() == map[
        "id" := Null, "date" := row.date, "max_temp" := row.max_temp,
        "min_temp" := row.min_temp, "precipitation" := row.precipitation, "station" := Str(stem)]
  {
    var read: string -> Frame<WeatherRow> := (p: string) => Rows([row]);
    var name := stem + "." + ext;
    StemOfDottedName(stem, ext);
    var r := BuildWeather(read, dir, name);
    assert r.Some? && |r.value| == 1;
    assert r.value[0] in r.value;
    var w := Weather(Null, row.date, row.max_temp, row.min_temp, row.precipitation, Str(stem));
    assert r.value[0] == w;
  }
}
