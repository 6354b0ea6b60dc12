/** `save_weather` and `save_crop` (app.py:84-120) as instances of the one
    ingestion loop, first as the source writes them and then corrected, and
    the routes (app.py:123-140) over each. */
module App {
  import opened Common
  import opened PathNames
  import opened Entities
  import opened Builders
  import opened Ingestion
  import opened Routes

  /** The `try` block as written (app.py:94-95, 114-115): `db.session.add`
      is handed the Python list itself, which is not a mapped instance, so it
      raises before `commit` is reached, whatever the store would say. */
  function AddListThenCommit<B>(store: (string, B) -> bool, name: string, batch: B): bool
  {
    false
  }

  /** `save_weather` as written (app.py:84-101), over a store whose verdict
      is never consulted: nothing is committed and success is never
      reported. */
  function SaveWeatherAsWritten(dir: Directory, read: string -> Frame<WeatherRow>,
                                store: (string, seq<Weather>) -> bool): (r: Run)
    ensures r.committed == []
    ensures r.status != Returned(Succeeded)
  {
    var add := (name, batch) => AddListThenCommit(store, name, batch);
    NoCommitNoSuccess(dir, name => BuildWeatherAsWritten(read, name), add);
    Save(dir, name => BuildWeatherAsWritten(read, name), add)
  }

  /** `save_crop` as written (app.py:105-120). */
  function SaveCropAsWritten(dir: Directory, read: string -> Frame<CropRow>,
                             store: (string, seq<Crop>) -> bool): (r: Run)
    ensures r.committed == []
    ensures r.status != Returned(Succeeded)
  {
    var add := (name, batch) => AddListThenCommit(store, name, batch);
    NoCommitNoSuccess(dir, name => BuildCropAsWritten(read, name), add);
    Save(dir, name => BuildCropAsWritten(read, name), add)
  }

  /** The corrected weather build step of one listing entry, reading below
      `path`. */
  function WeatherBuild(read: string -> Frame<WeatherRow>, path: string): string -> Option<seq<Weather>>
  {
    name => BuildWeather(read, path, name)
  }

  /** `save_weather` with the corrections: entries are read at `path/name`,
      records are tagged under `station` with `id` left to the store, and
      the batch goes to `add_all` before the store's verdict `commit`. A
      call now aborts only on a directory it cannot list or an entry it
      cannot read, never on a constructor's TypeError. */
  function SaveWeather(path: string, dir: Directory, read: string -> Frame<WeatherRow>,
                       commit: (string, seq<Weather>) -> bool): (r: Run)
    ensures |r.committed| <= 1
    ensures r.status.Aborted? ==>
      dir.Unlistable? ||
      (dir.Entries? && exists i :: 0 <= i < |dir.names| && !read(Join(path, dir.names[i])).Rows?)
  {
    var build := WeatherBuild(read, path);
    AbortHasRaisingEntry(dir, build, commit);
    Save(dir, build, commit)
  }

  /** `save_crop` with the same corrections. */
  function SaveCrop(path: string, dir: Directory, read: string -> Frame<CropRow>,
                    commit: (string, seq<Crop>) -> bool): (r: Run)
    ensures |r.committed| <= 1
    ensures r.status.Aborted? ==>
      dir.Unlistable? ||
      (dir.Entries? && exists i :: 0 <= i < |dir.names| && !read(Join(path, dir.names[i])).Rows?)
  {
    var build := name => BuildCrop(read, path, name);
    AbortHasRaisingEntry(dir, build, commit);
    Save(dir, build, commit)
  }

  /** An entry of the listing that the as-written build can get past: a
      regular file (under its bare name) with no rows. */
  predicate EmptyFile<R>(read: string -> Frame<R>, name: string)
  {
    read(name) == Rows([])
  }

  /** As written, `save_weather` never stores anything: it returns "" when the
      directory is missing or empty, aborts at the first entry that is not a
      row-less file (so the route answers with the error) and otherwise,
      every `add` having raised, returns "Unable to add data". */
  lemma SaveWeatherAsWrittenNeverCommits(dir: Directory, read: string -> Frame<WeatherRow>,
                                         store: (string, seq<Weather>) -> bool)
    ensures var r := SaveWeatherAsWritten(dir, read, store);
      && r.committed == []
      && r.status != Returned(Succeeded)
      && (r.status.Aborted? <==>
            dir.Unlistable? ||
            (dir.Entries? && exists i :: 0 <= i < |dir.names| && !EmptyFile(read, dir.names[i])))
      && (r.status.Returned? ==>
            r.status.res == (if dir.Entries? && |dir.names| > 0 then Failed else ""))
  {
    if dir.Entries? {
      var names := dir.names;
      var build := name => BuildWeatherAsWritten(read, name);
      var add := (name, batch) => AddListThenCommit(store, name, batch);
      forall i | 0 <= i < |names|
        ensures Stops(names[i], build, add) <==> !EmptyFile(read, names[i])
      {
        WeatherLocationKeyAborts(read, names[i]);
      }
      LoopFollowsFirstStop(names, "", build, add);
    }
  }

  /** As written, `save_crop` never stores anything either. */
  lemma SaveCropAsWrittenNeverCommits(dir: Directory, read: string -> Frame<CropRow>,
                                      store: (string, seq<Crop>) -> bool)
    ensures var r := SaveCropAsWritten(dir, read, store);
      && r.committed == []
      && r.status != Returned(Succeeded)
      && (r.status.Aborted? <==>
            dir.Unlistable? ||
            (dir.Entries? && exists i :: 0 <= i < |dir.names| && !EmptyFile(read, dir.names[i])))
      && (r.status.Returned? ==>
            r.status.res == (if dir.Entries? && |dir.names| > 0 then Failed else ""))
  {
    if dir.Entries? {
      var names := dir.names;
      var build := name => BuildCropAsWritten(read, name);
      var add := (name, batch) => AddListThenCommit(store, name, batch);
      forall i | 0 <= i < |names|
        ensures Stops(names[i], build, add) <==> !EmptyFile(read, names[i])
      {
        CropMissingIdAborts(read, names[i]);
      }
      LoopFollowsFirstStop(names, "", build, add);
    }
  }

  /** As written, `/api/weather` answers with the error exactly when the
      directory cannot be listed or some entry is not a row-less file under
      its bare name, and with "Saved weather." otherwise, although nothing
      was stored. */
  lemma WeatherRouteAsWritten(dir: Directory, read: string -> Frame<WeatherRow>,
                              store: (string, seq<Weather>) -> bool)
    ensures var resp := IngestWeatherData(SaveWeatherAsWritten(dir, read, store).status);
      && (resp.Error? <==>
            dir.Unlistable? ||
            (dir.Entries? && exists i :: 0 <= i < |dir.names| && !EmptyFile(read, dir.names[i])))
      && (resp.Success? ==> resp == Success("Saved weather.") && SaveWeatherAsWritten(dir, read, store).committed == [])
  {
    SaveWeatherAsWrittenNeverCommits(dir, read, store);
  }

  /** As written, `/api/yield` behaves the same way over crop files. */
  lemma YieldRouteAsWritten(dir: Directory, read: string -> Frame<CropRow>,
                            store: (string, seq<Crop>) -> bool)
    ensures var resp := IngestCropYieldData(SaveCropAsWritten(dir, read, store).status);
      && (resp.Error? <==>
            dir.Unlistable? ||
            (dir.Entries? && exists i :: 0 <= i < |dir.names| && !EmptyFile(read, dir.names[i])))
      && (resp.Success? ==> resp == Success("Saved crop.") && SaveCropAsWritten(dir, read, store).committed == [])
  {
    SaveCropAsWrittenNeverCommits(dir, read, store);
  }

  /** Corrected `save_weather`: when a file is committed it is the first
      entry whose (readable) batch the store accepted, every earlier entry
      was readable and rejected, and every record of the committed batch
      carries that entry's stem as its station. */
  lemma SaveWeatherCommitsTaggedBatch(path: string, names: seq<string>, read: string -> Frame<WeatherRow>,
                                      commit: (string, seq<Weather>) -> bool)
    requires forall i :: 0 <= i < |names| ==> '/' !in names[i]
    ensures var r := SaveWeather(path, Entries(names), read, commit);
      r.status == Returned(Succeeded) ==>
        var k := |r.attempted| - 1;
        && 0 <= k < |names|
        && r.attempted == names[..k + 1]
        && r.committed == [names[k]]
        && (forall j :: 0 <= j < k ==>
              read(Join(path, names[j])).Rows? && !commit(names[j], BuildWeather(read, path, names[j]).value))
        && read(Join(path, names[k])).Rows?
        && commit(names[k], BuildWeather(read, path, names[k]).value)
        && (forall w :: w in BuildWeather(read, path, names[k]).value ==> w.station == Str(GetFilename(names[k])))
  {
    var build := WeatherBuild(read, path);
    var r := SaveWeather(path, Entries(names), read, commit);
    assert r == Save(Entries(names), build, commit);
    SuccessAtLastAttempt(names, build, commit);
    if r.status == Returned(Succeeded) {
      var k := |r.attempted| - 1;
      assert '/' !in names[k];
      WeatherBuildSteps(path, read, commit, names, k);
    }
  }

  /** The generic success facts about the corrected build step, restated
      in terms of the files read and the batches built. */
  lemma WeatherBuildSteps(path: string, read: string -> Frame<WeatherRow>, commit: (string, seq<Weather>) -> bool,
                          names: seq<string>, k: int)
    requires 0 <= k < |names| && '/' !in names[k]
    requires forall j :: 0 <= j < k ==>
      WeatherBuild(read, path)(names[j]).Some? && !commit(names[j], WeatherBuild(read, path)(names[j]).value)
    requires WeatherBuild(read, path)(names[k]).Some? && commit(names[k], WeatherBuild(read, path)(names[k]).value)
    ensures forall j :: 0 <= j < k ==>
      read(Join(path, names[j])).Rows? && !commit(names[j], BuildWeather(read, path, names[j]).value)
    ensures read(Join(path, names[k])).Rows?
    ensures commit(names[k], BuildWeather(read, path, names[k]).value)
    ensures forall w :: w in BuildWeather(read, path, names[k]).value ==> w.station == Str(GetFilename(names[k]))
  {
    forall j | 0 <= j < k
      ensures read(Join(path, names[j])).Rows? && !commit(names[j], BuildWeather(read, path, names[j]).value)
    {
      assert WeatherBuild(read, path)(names[j]) == BuildWeather(read, path, names[j]);
    }
    assert WeatherBuild(read, path)(names[k]) == BuildWeather(read, path, names[k]);
  }

  /** Corrected routes: `/api/weather` answers with the error exactly when
      the directory cannot be listed or the first entry that stops the loop
      is one whose file cannot be read; a swallowed commit failure never
      reaches the response. */
  lemma WeatherRouteErrorIsReadFailure(path: string, dir: Directory, read: string -> Frame<WeatherRow>,
                                       commit: (string, seq<Weather>) -> bool)
    ensures var build := WeatherBuild(read, path);
      var resp := IngestWeatherData(SaveWeather(path, dir, read, commit).status);
      resp.Error? <==>
        dir.Unlistable? ||
        (dir.Entries? &&
         var k := FirstStop(dir.names, build, commit);
         k < |dir.names| && !read(Join(path, dir.names[k])).Rows?)
  {
    AbortIsBuildFailure(dir, WeatherBuild(read, path), commit);
  }
}
