# Weather and crop-yield ingestion: a Dafny model

This project models the ingestion core of a small Flask service (`app.py`).
The service loads tab-separated weather and crop-yield files from a configured
directory into a relational store. The model covers these parts:

- **The ingestion loop** of `save_weather` and `save_crop`. It is written once
  (`Ingestion.Save`) over two oracles:
  - a *build* oracle that reads, tags and constructs the batch for one listing
    entry, or raises;
  - a *commit* oracle that says whether the `try` block committed the batch.

  The result starts as `""`. A build raise ends the whole call. A successful
  commit sets `"Successfully added data"` and stops the loop. A failed commit
  sets `"Unable to add data"` and the loop moves on. A reference definition,
  `Ingestion.FirstStop`, gives the first entry that stops the loop, and
  `Ingestion.LoopFollowsFirstStop` determines the whole run from it.
- **The build step** (`Builders`). This is the record dictionaries that
  `to_dict` produces, the column the builder adds, and Python's keyword
  constructors `Weather(**d)` / `Crop(**d)`. A constructor succeeds exactly
  when the keys are its parameter names. Reading and tab parsing are an oracle
  `read` from a path to "not a file", "unparsable" or the parsed rows.
- **`get_filename`** (`PathNames`). This is POSIX `os.path.basename` followed by
  the root half of `os.path.splitext`, with Python's leading-dot rule, and the
  `os.path.join` the listing should have gone through.
- **`serialize`** on both entities (`Entities`). It round-trips with the
  keyword constructor.
- **The two routes** (`Routes`). An escaped exception becomes the error JSON.
  Any return becomes the success JSON, whatever string `save_*` returned.
- **Instances** (`App`). `save_weather` and `save_crop` are each defined twice
  as instances of `Ingestion.Save`: once as written and once with the
  corrections listed under Findings.

Python values are the datatype `Common.Value`. Entity fields hold `Value`s
because Python's constructors do not check argument types. The column types are
enforced only by the store, which is inside the commit oracle.

Some consequences of how `app.py` is written, which the model keeps:

- A listing entry whose bare name is not a regular file relative to the
  working directory makes `get_weather_data` (or `get_crop_data`) return
  `None` (app.py:68-75). The column assignment or the
  `to_dict` call on it then raises outside the `try`, so the whole call aborts.
- A build raise aborts the call wherever it happens in the listing, including
  after earlier entries had their commits attempted.
- The routes (app.py:123-140) discard the string `save_*` returns, so the
  success JSON is sent even when every commit failed.
- As written, nothing is ever committed (see Findings).

## Model

| member | source | states |
|---|---|---|
| PathNames.Basename | app.py:80 | the final component has no '/', is a suffix of the path, and is preceded by '/' unless it is the whole path |
| PathNames.SplitExt | app.py:81 | root and extension concatenate back to the path; the extension is empty or one leading '.' followed by no '.' and no '/' |
| PathNames.SplitExtFindsExtension | app.py:81 | the extension is non-empty iff the final component has a character other than '.' with a '.' somewhere after it, so "a.b.txt" loses ".txt" and ".bashrc" and "..." lose nothing |
| PathNames.GetFilename | app.py:79-81 | the stem never contains '/' and is a prefix of the final path component |
| PathNames.GetFilenameStem | app.py:79-81 | the stem equals the final component when it has no extension dot (no '.', or only dots before the last '.'); otherwise the component is stem + '.' + text without a dot, and a non-dot precedes the cut; a component with a non-dot followed later by a '.' always loses its extension; the stem is empty only for an empty component |
| PathNames.StemOfDottedName | app.py:79-81 | a name made of a non-empty stem without dots and one extension, such as "stationA.tsv", has exactly that stem, and holds no '/' |
| PathNames.StemOfDotFile | app.py:79-81 | a leading dot does not start an extension: "." followed by a dot-free name (such as ".bashrc") keeps its whole name |
| PathNames.BasenameOfJoin | app.py:88-90 | joining the directory with a listing entry leaves the entry as the final component, so the station tag is the same for the bare name and the joined path |
| Entities.Weather.Serialize | app.py:34-42 | serialize yields exactly the six constructor parameter names as keys |
| Entities.Crop.Serialize | app.py:55-60 | serialize yields exactly the three constructor parameter names as keys |
| Entities.WeatherFromKwargs | app.py:26-32 | `Weather(**kw)` succeeds iff the keys are exactly the parameter names, and the record then serializes back to `kw` |
| Entities.CropFromKwargs | app.py:50-53 | `Crop(**kw)` succeeds iff the keys are exactly the parameter names, and the record then serializes back to `kw` |
| Entities.WeatherSerializeRoundTrip | app.py:26-42 | constructing from a weather record's serialization gives back the record |
| Entities.CropSerializeRoundTrip | app.py:50-60 | constructing from a crop record's serialization gives back the record |
| Ingestion.FirstStop | app.py:88-99 | reference definition: the first entry whose build raises or whose commit succeeds, or the end of the listing |
| Ingestion.Loop | app.py:88-99 | at most one commit per call; a commit means the result is "Successfully added data"; a result other than the one on entry means some entry was attempted |
| Ingestion.Save | app.py:84-101 | a missing directory or an empty listing returns "" with nothing built or attempted; an unlistable directory aborts; at most one batch is committed per call |
| Ingestion.LoopFollowsFirstStop | app.py:88-99 | the loop's run equals the reference run read off the first stopping entry k: a build raise at k aborts with entries ..k built and ..k-1 attempted; a commit at k returns "Successfully added data" with entries ..k attempted and only k committed; no stop returns "Unable to add data" (or the entry value for an empty listing) with everything attempted |
| Ingestion.LoopShape | app.py:88-97 | the attempted entries are a prefix of the built entries, which are a prefix of the listing; one more entry is built than attempted exactly when the call aborts; a commit is on the last attempt; a return without a commit has attempted every entry |
| Ingestion.SuccessIsFirstCommit | app.py:93-97 | the call reports success iff the first stopping entry built; then the attempts end at it, it alone is committed, and every earlier entry built and failed to commit |
| Ingestion.AllCommitsFail | app.py:98-99 | over a non-empty listing where every entry builds and every commit fails, all entries are attempted, none is committed, and the result is "Unable to add data" |
| Ingestion.AbortIsBuildFailure | app.py:89-92 | the call aborts iff the directory cannot be listed or the first stopping entry is a build failure; that entry was built but not attempted |
| Ingestion.ResultStrings | app.py:86-101 | a returned result is "", "Successfully added data" or "Unable to add data", and it is "" iff nothing was attempted |
| Ingestion.AbortHasRaisingEntry | app.py:88-92 | an abort means the directory cannot be listed or some listed entry's build raised |
| Ingestion.CommittedWasAccepted | app.py:93-96 | a reported success has a committed entry, and a committed entry built a batch that the store accepted |
| Ingestion.SuccessAtLastAttempt | app.py:93-97 | on a reported success, the last attempted entry k is the one committed; the attempts are the entries up to k; every earlier entry built a batch the store refused; k's batch was accepted |
| Ingestion.NoCommitNoSuccess | app.py:93-99 | when the store refuses every batch the build produces, nothing is committed and success is never reported |
| Builders.WeatherRecord | app.py:70 | a weather row's record has exactly the four positional column names as keys |
| Builders.CropRecord | app.py:75 | a crop row's record has exactly the two positional column names as keys |
| Builders.ConstructAll | app.py:92 | the list comprehension succeeds iff every record constructs, and then holds one entity per record, in order |
| Builders.BuildWeatherAsWritten | app.py:89-92 | the as-written weather build reads the bare listing name: a name that is not a readable file raises, and a batch has one entity per row; Builders.WeatherLocationKeyAborts pins down when it succeeds |
| Builders.BuildCropAsWritten | app.py:110-112 | the as-written crop build reads the bare listing name: a name that is not a readable file raises, and a batch has one entity per row; Builders.CropMissingIdAborts pins down when it succeeds |
| Builders.WeatherLocationKeyAborts | app.py:89-92 | as written, the weather build succeeds iff the bare name reads as a file with no rows, and then yields an empty batch |
| Builders.CropMissingIdAborts | app.py:110-112 | as written, the crop build succeeds iff the bare name reads as a file with no rows, and then yields an empty batch |
| Builders.BuildWeather | app.py:89-92 | corrected build: succeeds iff the joined path reads; gives one record per row, in order, with the row's values, no id, and station = the stem of the entry |
| Builders.BuildCrop | app.py:110-112 | corrected build: succeeds iff the joined path reads; gives one record per row, in order, with the row's values and no id |
| Builders.BareNameExample | app.py:89 | with directory "wx_data" listing "a.txt", the as-written build raises and the corrected build reads the file |
| Builders.StationRoundTrip | app.py:89-92 | a row of the file "<stem>.<ext>" (such as ("20240101", 30, 10, 5) in "stationA.tsv") becomes one record that serializes to the row's values under their column names, station = stem and no id |
| Routes.Respond | app.py:125-130 | the response is the error iff the call raised; otherwise it is the success message, whatever string was returned |
| Routes.IngestWeatherData | app.py:123-130 | `/api/weather` answers "Unable to save weather." on an abort and "Saved weather." on any return |
| Routes.IngestCropYieldData | app.py:133-140 | `/api/yield` answers "Unable to save crop." on an abort and "Saved crop." on any return |
| Routes.WeatherJson | app.py:123-130 | the body `/api/weather` sends has the key "Error" iff `save_weather` raised and "Success" iff it returned, and its one value is the matching message |
| Routes.YieldJson | app.py:133-140 | the same for `/api/yield` over `save_crop` |
| App.SaveWeatherAsWritten | app.py:84-101 | `save_weather` as written, an instance of Ingestion.Save with the try block `AddListThenCommit` (app.py:94-95), which raises at `add` before `commit`: for every store, nothing is committed and success is never reported; App.SaveWeatherAsWrittenNeverCommits gives when it aborts and what it returns |
| App.SaveCropAsWritten | app.py:105-120 | `save_crop` as written, with the same try block (app.py:114-115): for every store, nothing is committed and success is never reported; App.SaveCropAsWrittenNeverCommits gives when it aborts and what it returns |
| App.SaveWeather | app.py:84-101 | corrected `save_weather`: at most one batch is committed, and an abort means the directory cannot be listed or some entry cannot be read at its joined path, never a constructor rejecting a record; App.SaveWeatherCommitsTaggedBatch describes a success |
| App.SaveCrop | app.py:105-120 | corrected `save_crop`: at most one batch is committed, and an abort means the directory cannot be listed or some entry cannot be read at its joined path |
| App.SaveWeatherAsWrittenNeverCommits | app.py:84-101 | as written, save_weather commits nothing and never reports success; it aborts iff the directory is unlistable or some entry is not a row-less file under its bare name; otherwise it returns "Unable to add data" for a non-empty listing and "" for none |
| App.SaveCropAsWrittenNeverCommits | app.py:105-120 | the same for save_crop |
| App.WeatherRouteAsWritten | app.py:123-130 | as written, `/api/weather` errors iff the directory is unlistable or some entry is not a row-less file; otherwise it answers "Saved weather." with nothing committed |
| App.YieldRouteAsWritten | app.py:133-140 | as written, `/api/yield` errors iff the directory is unlistable or some entry is not a row-less file; otherwise it answers "Saved crop." with nothing committed |
| App.SaveWeatherCommitsTaggedBatch | app.py:88-97 | corrected save_weather: on success, the committed entry is the first whose readable batch the store accepted; every earlier entry was readable and rejected; every committed record carries that entry's stem as station |
| App.WeatherRouteErrorIsReadFailure | app.py:123-130 | corrected: `/api/weather` errors iff the directory is unlistable or the first stopping entry's file cannot be read |

## Left out

- Flask setup, configuration, the connection URI and the secret key (app.py:8-15) are plumbing.
- SQLAlchemy's column mapping, session state and atomicity belong to the external store. Commit is an oracle outcome per entry and batch. The model does not capture a session that refuses further commits after a failed flush. The `String(8)` and `String(16)` length limits are also only the oracle's concern.
- `pandas.read_csv` and `DataFrame.to_dict` are a foreign library. Reading is the `read` oracle, which yields rows already split into the named columns. Float and NaN values are only `Value.Other`.
- The file system is replaced by inputs. The listing comes in listing order, `os.path.exists` is the `Missing` case, and `os.listdir` raising is the `Unlistable` case. `os.path.isfile` is part of the `read` oracle.
- The stats endpoint (app.py:143-157) groups SQL queries by aggregate expressions and returns unevaluated query objects. It has no pure semantics to state.
- The `__main__` block (app.py:160-162) calls an undefined `create_app`.
- PathNames.Basename, PathNames.SplitExt: only the POSIX separator '/' is modelled. The Windows path rules are not.
- Routes.Response.Json: the HTTP status line and headers that `jsonify` adds are not modelled. Only the body object is.
- The kind of exception that escapes (TypeError, parser error, OSError) is not distinguished. Every raise is `Aborted`.
- App.SaveCrop: the corrected crop loop has no counterpart of App.SaveWeatherCommitsTaggedBatch. It is the same instance of `Ingestion.Save` with `Builders.BuildCrop`, so the generic `Ingestion` lemmas apply to it unchanged.

## Findings

| source | as written | input that shows it | evidently intended | confidence | as-written member | corrected member |
|---|---|---|---|---|---|---|
| app.py:89-92 | each weather record gets the key `location`, has no `id` and no `station`, so `Weather(**record)` raises TypeError on the first row | a weather file holding the line `20240101\t30\t10\t5`, run with the source directory as the working directory | tag the rows under `station` and let the store assign `id` | high; not executed | Builders.WeatherLocationKeyAborts | Builders.BuildWeather |
| app.py:110-112 | crop records have no `id`, which `Crop.__init__` requires, so construction raises on the first row | a crop file holding the line `1985\t225447`, run with the source directory as the working directory | let the store assign `id` | high; not executed | Builders.CropMissingIdAborts | Builders.BuildCrop |
| app.py:94-95 | `db.session.add` gets a Python list, which is not a mapped instance, so it raises before `commit` and nothing is ever stored | a directory whose only entry is a file with no rows, run with that directory as the working directory: the result is "Unable to add data" | `db.session.add_all(batch)`, with `db.session.rollback()` in the `except` | high; not executed | App.SaveWeatherAsWrittenNeverCommits | App.SaveWeatherCommitsTaggedBatch |
| app.py:89 | the bare listing name is read relative to the working directory, not the source directory | directory "wx_data" listing "a.txt", with the working directory elsewhere | read `os.path.join(directory, name)` | high; not executed | Builders.BareNameExample | Builders.BuildWeather |
