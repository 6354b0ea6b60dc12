/** The ingestion loop shared by `save_weather` (app.py:84-101) and
    `save_crop` (app.py:105-120), written once over two oracles:

    - `build(name)` parses, tags and constructs the batch for one listing
      entry, or raises (`None`); it runs outside the `try`, so a raise ends
      the whole call;
    - `commit(name, batch)` is the `try` block: `true` when the batch was
      added and committed, `false` when any exception was swallowed. */
module Ingestion {
  import opened Common

  const Succeeded: string := "Successfully added data"
  const Failed: string := "Unable to add data"

  /** The configured source directory as the loop sees it: absent
      (`os.path.exists` is false), present but not listable (`os.listdir`
      raises, e.g. because the path is a regular file), or listed. */
  datatype Directory = Missing | Unlistable | Entries(names: seq<string>)

  /** How a call to `save_*` ends: an exception escaped (`Aborted`) or the
      function returned the string `res`. */
  datatype Status = Aborted | Returned(res: string)

  /** The observable trace of one call: the entries whose build was started,
      the entries whose commit was attempted, the entries whose commit
      succeeded, and how the call ended. */
  datatype Run = Run(built: seq<string>, attempted: seq<string>, committed: seq<string>, status: Status)

  /** An entry stops the loop when its build raises or its commit succeeds. */
  predicate Stops<B>(name: string, build: string -> Option<B>, commit: (string, B) -> bool)
  {
    match build(name)
    case None => true
    case Some(batch) => commit(name, batch)
  }

  /** Reference definition: the position of the first entry that stops the
      loop, or `|names|` when none does. */
  function FirstStop<B>(names: seq<string>, build: string -> Option<B>, commit: (string, B) -> bool): (k: nat)
    ensures k <= |names|
    ensures forall j :: 0 <= j < k ==> !Stops(names[j], build, commit)
    ensures k < |names| ==> Stops(names[k], build, commit)
  {
    if |names| == 0 then 0
    else if Stops(names[0], build, commit) then 0
    else 1 + FirstStop(names[1..], build, commit)
  }

  /** The `for file in os.listdir(...)` loop, entered with result `res`. */
  function Loop<B>(names: seq<string>, res: string, build: string -> Option<B>, commit: (string, B) -> bool): (r: Run)
    ensures |r.committed| <= 1
    ensures r.committed != [] ==> r.status == Returned(Succeeded)
    ensures r.status.Returned? && r.status.res != res ==> r.attempted != []
    decreases |names|
  {
    if |names| == 0 then Run([], [], [], Returned(res))
    else
      var name := names[0];
      match build(name)
      case None => Run([name], [], [], Aborted)
      case Some(batch) =>
        if commit(name, batch) then Run([name], [name], [name], Returned(Succeeded))
        else
          var rest := Loop(names[1..], Failed, build, commit);
          Run([name] + rest.built, [name] + rest.attempted, rest.committed, rest.status)
  }

  /** `save_weather` / `save_crop` (app.py:84-120): the result starts as ""
      and the loop runs only when the directory exists. */
  function Save<B>(dir: Directory, build: string -> Option<B>, commit: (string, B) -> bool): (r: Run)
    ensures dir.Missing? ==> r == Run([], [], [], Returned(""))
    ensures dir.Unlistable? ==> r == Run([], [], [], Aborted)
    ensures dir == Entries([]) ==> r == Run([], [], [], Returned(""))
    ensures dir.Entries? ==> r.attempted <= r.built <= dir.names
    ensures |r.committed| <= 1
  {
    match dir
    case Missing => Run([], [], [], Returned(""))
    case Unlistable => Run([], [], [], Aborted)
    case Entries(names) =>
      LoopShape(names, "", build, commit);
      Loop(names, "", build, commit)
  }

  /** Reference run, read off the first entry that stops the loop: a build
      raise there aborts after building it; a commit there succeeds and
      stops; with no stop every entry is built and attempted and the result
      is "Unable to add data" (or the entry result for an empty listing). */
  function Expected<B>(names: seq<string>, res: string, build: string -> Option<B>, commit: (string, B) -> bool): Run
  {
    var k := FirstStop(names, build, commit);
    if k == |names| then Run(names, names, [], Returned(if |names| == 0 then res else Failed))
    else if build(names[k]).None? then Run(names[..k + 1], names[..k], [], Aborted)
    else Run(names[..k + 1], names[..k + 1], [names[k]], Returned(Succeeded))
  }

  /** Putting the head back in front of a prefix of the tail. */
  lemma ConsPrefix<T>(s: seq<T>, k: nat)
    requires 0 < |s| && k < |s|
    ensures [s[0]] + s[1..][..k] == s[..k + 1]
  {
  }

  /** The loop is fully determined by the first entry that stops it. */
  lemma {:induction false} LoopFollowsFirstStop<B>(names: seq<string>, res: string, build: string -> Option<B>, commit: (string, B) -> bool)
    ensures Loop(names, res, build, commit) == Expected(names, res, build, commit)
    decreases |names|
  {
    if |names| > 0 {
      var name := names[0];
      assert names[..1] == [name];
      match build(name)
      case None =>
        assert FirstStop(names, build, commit) == 0;
      case Some(batch) =>
        if commit(name, batch) {
          assert FirstStop(names, build, commit) == 0;
        } else {
          var tail := names[1..];
          var rest := Loop(tail, Failed, build, commit);
          assert Loop(names, res, build, commit) ==
            Run([name] + rest.built, [name] + rest.attempted, rest.committed, rest.status);
          LoopFollowsFirstStop(tail, Failed, build, commit);
          var k' := FirstStop(tail, build, commit);
          assert FirstStop(names, build, commit) == k' + 1;
          if k' == |tail| {
            assert [name] + tail == names;
          } else {
            ConsPrefix(names, k');
            ConsPrefix(names, k' + 1);
            assert tail[k'] == names[k' + 1];
          }
        }
    }
  }

  /** Prefix processing (app.py:88, 97): the attempted entries are a prefix
      of the built entries, which are a prefix of the listing; exactly one
      entry is built but not attempted when the call aborts, none otherwise;
      a commit happens at most once, on the last attempt; and a return
      without a commit has attempted every entry. */
  lemma LoopShape<B>(names: seq<string>, res: string, build: string -> Option<B>, commit: (string, B) -> bool)
    ensures var r := Loop(names, res, build, commit);
      && r.attempted <= r.built <= names
      && |r.built| == |r.attempted| + (if r.status.Aborted? then 1 else 0)
      && (r.committed != [] ==> r.attempted != [] && r.committed == [r.attempted[|r.attempted| - 1]])
      && (r.committed == [] && r.status.Returned? ==> r.attempted == r.built == names)
  {
    LoopFollowsFirstStop(names, res, build, commit);
  }

  /** Stop at first success (app.py:93-97): the call reports success exactly
      when some entry builds and commits while every earlier entry built and
      failed to commit; then that entry is the last one attempted and the
      only one committed, and nothing after it is touched. */
  lemma SuccessIsFirstCommit<B>(dir: Directory, build: string -> Option<B>, commit: (string, B) -> bool)
    requires dir.Entries?
    ensures var r := Save(dir, build, commit);
      var k := FirstStop(dir.names, build, commit);
      r.status == Returned(Succeeded) <==>
        k < |dir.names| && build(dir.names[k]).Some?
    ensures var r := Save(dir, build, commit);
      var k := FirstStop(dir.names, build, commit);
      r.status == Returned(Succeeded) ==>
        && r.attempted == r.built == dir.names[..k + 1]
        && r.committed == [dir.names[k]]
        && (forall j :: 0 <= j < k ==> build(dir.names[j]).Some? && !commit(dir.names[j], build(dir.names[j]).value))
  {
    LoopFollowsFirstStop(dir.names, "", build, commit);
  }

  /** A failed commit sets "Unable to add data" and the loop moves on
      (app.py:98-99): over a non-empty listing whose entries all build and
      all fail to commit, every entry is attempted, nothing is committed and
      the result is "Unable to add data". */
  lemma AllCommitsFail<B>(names: seq<string>, build: string -> Option<B>, commit: (string, B) -> bool)
    requires |names| > 0
    requires forall i :: 0 <= i < |names| ==> build(names[i]).Some? && !commit(names[i], build(names[i]).value)
    ensures Save(Entries(names), build, commit) == Run(names, names, [], Returned(Failed))
  {
    LoopFollowsFirstStop(names, "", build, commit);
    assert FirstStop(names, build, commit) == |names|;
  }

  /** A raise while building (app.py:89-92, outside the `try`) ends the call:
      the call aborts exactly when the first entry that stops the loop is one
      whose build raises, or the directory cannot be listed; the entry that
      raised was built but not attempted. */
  lemma AbortIsBuildFailure<B>(dir: Directory, build: string -> Option<B>, commit: (string, B) -> bool)
    ensures var r := Save(dir, build, commit);
      r.status.Aborted? <==>
        dir.Unlistable? ||
        (dir.Entries? &&
         var k := FirstStop(dir.names, build, commit);
         k < |dir.names| && build(dir.names[k]).None?)
    ensures var r := Save(dir, build, commit);
      dir.Entries? && r.status.Aborted? ==>
        var k := FirstStop(dir.names, build, commit);
        r.built == dir.names[..k + 1] && r.attempted == dir.names[..k] && r.committed == []
  {
    if dir.Entries? {
      LoopFollowsFirstStop(dir.names, "", build, commit);
    }
  }

  /** Every call returns one of the three strings "", "Successfully added
      data" and "Unable to add data", and "" only when nothing was attempted. */
  lemma ResultStrings<B>(dir: Directory, build: string -> Option<B>, commit: (string, B) -> bool)
    ensures var r := Save(dir, build, commit);
      r.status.Returned? ==>
        (r.status.res == "" <==> r.attempted == []) &&
        r.status.res in {"", Succeeded, Failed}
  {
    if dir.Entries? {
      LoopFollowsFirstStop(dir.names, "", build, commit);
    }
  }

  /** An abort always has a culprit: the directory cannot be listed, or some
      listed entry's build raised. */
  lemma AbortHasRaisingEntry<B>(dir: Directory, build: string -> Option<B>, commit: (string, B) -> bool)
    ensures Save(dir, build, commit).status.Aborted? ==>
      dir.Unlistable? ||
      (dir.Entries? && exists i :: 0 <= i < |dir.names| && build(dir.names[i]).None?)
  {
    AbortIsBuildFailure(dir, build, commit);
    if dir.Entries? && Save(dir, build, commit).status.Aborted? {
      var k := FirstStop(dir.names, build, commit);
      assert build(dir.names[k]).None?;
    }
  }

  /** Only the store's own acceptance commits: a reported success has a
      committed entry, and that entry built a batch the store accepted. */
  lemma CommittedWasAccepted<B>(dir: Directory, build: string -> Option<B>, commit: (string, B) -> bool)
    ensures var r := Save(dir, build, commit);
      && (r.status == Returned(Succeeded) ==> r.committed != [])
      && (r.committed != [] ==>
            build(r.committed[0]).Some? && commit(r.committed[0], build(r.committed[0]).value))
  {
    if dir.Entries? {
      LoopFollowsFirstStop(dir.names, "", build, commit);
      var k := FirstStop(dir.names, build, commit);
      assert k < |dir.names| ==> Stops(dir.names[k], build, commit);
    }
  }

  /** A store that refuses every batch the build produces gets nothing
      committed, and the call never reports success. */
  lemma NoCommitNoSuccess<B>(dir: Directory, build: string -> Option<B>, commit: (string, B) -> bool)
    requires forall name :: build(name).Some? ==> !commit(name, build(name).value)
    ensures Save(dir, build, commit).committed == []
    ensures Save(dir, build, commit).status != Returned(Succeeded)
  {
    CommittedWasAccepted(dir, build, commit);
  }

  /** A reported success, read off the last attempted entry `k`: the
      attempts are the entries up to `k`, only `k` is committed, every
      earlier entry built a batch the store refused, and `k`'s batch was
      accepted. */
  lemma SuccessAtLastAttempt<B>(names: seq<string>, build: string -> Option<B>, commit: (string, B) -> bool)
    ensures var r := Save(Entries(names), build, commit);
      r.status == Returned(Succeeded) ==>
        var k := |r.attempted| - 1;
        && 0 <= k < |names|
        && r.attempted == names[..k + 1]
        && r.committed == [names[k]]
        && (forall j :: 0 <= j < k ==> build(names[j]).Some? && !commit(names[j], build(names[j]).value))
        && build(names[k]).Some? && commit(names[k], build(names[k]).value)
  {
    SuccessIsFirstCommit(Entries(names), build, commit);
    var k := FirstStop(names, build, commit);
    assert k < |names| ==> Stops(names[k], build, commit);
  }
}
