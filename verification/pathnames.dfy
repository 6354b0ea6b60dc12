/** `get_filename` (app.py:79-81): POSIX `os.path.basename` followed by the
    root half of `os.path.splitext`, as Python's posixpath module defines
    them, plus the `os.path.join` that the directory listing should have
    gone through. */
module PathNames {

  /** Python's `str.rfind` for a single character: the index of the last
      occurrence of `c` in `s`, or -1 when there is none. */
  function RFind(s: string, c: char): (r: int)
    ensures -1 <= r < |s|
    ensures 0 <= r ==> s[r] == c
    ensures forall j :: r < j < |s| ==> s[j] != c
    ensures r == -1 <==> c !in s
  {
    if |s| == 0 then -1
    else if s[|s| - 1] == c then |s| - 1
    else RFind(s[..|s| - 1], c)
  }

  /** `os.path.basename`: everything after the last '/'. */
  function Basename(p: string): (r: string)
    ensures '/' !in r
    ensures |r| <= |p| && r == p[|p| - |r|..]
    ensures |r| < |p| ==> p[|p| - |r| - 1] == '/'
  {
    p[RFind(p, '/') + 1..]
  }

  /** Some character of `p[lo..hi]` is not a dot. */
  predicate HasNonDot(p: string, lo: int, hi: int)
    requires 0 <= lo && hi <= |p|
  {
    exists k :: lo <= k < hi && p[k] != '.'
  }

  /** The final component of `p` has a character other than '.' with a '.'
      somewhere after it: the shape of a name that carries an extension. */
  predicate HasExtension(p: string)
  {
    exists i, j :: 0 <= i < j < |p| && p[i] != '.' && p[j] == '.' && '/' !in p[i..]
  }

  /** `os.path.splitext`: the last '.' after the last '/' starts the
      extension, unless only dots precede it in the final component, so
      that ".bashrc" and "..." have no extension. */
  function SplitExt(p: string): (r: (string, string))
    ensures r.0 + r.1 == p
    ensures r.1 == "" || (r.1[0] == '.' && '.' !in r.1[1..] && '/' !in r.1)
  {
    var sepIndex := RFind(p, '/');
    var dotIndex := RFind(p, '.');
    if dotIndex > sepIndex && HasNonDot(p, sepIndex + 1, dotIndex) then
      (p[..dotIndex], p[dotIndex..])
    else
      (p, "")
  }

  /** `splitext` splits off a non-empty extension exactly when the final
      component has a non-dot with a '.' after it. */
  lemma SplitExtFindsExtension(p: string)
    ensures SplitExt(p).1 != "" <==> HasExtension(p)
  {
    ExtensionIsCut(p);
    CutIsExtension(p);
  }

  /** A witnessed extension lies between the last '/' and the last '.'. */
  lemma ExtensionIsCut(p: string)
    ensures HasExtension(p) ==>
      RFind(p, '.') > RFind(p, '/') && HasNonDot(p, RFind(p, '/') + 1, RFind(p, '.'))
  {
    if HasExtension(p) {
      var i, j :| 0 <= i < j < |p| && p[i] != '.' && p[j] == '.' && '/' !in p[i..];
      CutFromExtension(p, i, j);
    }
  }

  /** A non-dot between the last '/' and the last '.' is an extension. */
  lemma CutIsExtension(p: string)
    ensures RFind(p, '.') > RFind(p, '/') && HasNonDot(p, RFind(p, '/') + 1, RFind(p, '.')) ==>
      HasExtension(p)
  {
    var sep, dot := RFind(p, '/'), RFind(p, '.');
    if dot > sep && HasNonDot(p, sep + 1, dot) {
      var k :| sep + 1 <= k < dot && p[k] != '.';
      ExtensionFromCut(p, k);
    }
  }

  /** A non-dot at `i` with a '.' after it at `j` and no '/' from `i` on lies
      between the last '/' and the last '.'. */
  lemma CutFromExtension(p: string, i: int, j: int)
    requires 0 <= i < j < |p| && p[i] != '.' && p[j] == '.' && '/' !in p[i..]
    ensures RFind(p, '.') > RFind(p, '/') && HasNonDot(p, RFind(p, '/') + 1, RFind(p, '.'))
  {
    var sep, dot := RFind(p, '/'), RFind(p, '.');
    assert j <= dot;
    assert sep + 1 <= i < dot && p[i] != '.';
  }

  /** A non-dot between the last '/' and the last '.' witnesses an extension. */
  lemma ExtensionFromCut(p: string, k: int)
    requires RFind(p, '/') + 1 <= k < RFind(p, '.') && p[k] != '.'
    ensures HasExtension(p)
  {
    var dot := RFind(p, '.');
    assert forall m :: 0 <= m < |p[k..]| ==> p[k..][m] == p[k + m];
    assert '/' !in p[k..];
    assert 0 <= k < dot < |p| && p[dot] == '.';
  }

  /** `get_filename` (app.py:79-81): the final path component with its
      extension removed. */
  function GetFilename(path: string): (r: string)
    ensures '/' !in r
    ensures r <= Basename(path)
  {
    SplitExt(Basename(path)).0
  }

  /** What `get_filename` keeps of the final component `b`: all of it when it
      has no extension dot (no '.', or only dots before its last '.'), and
      otherwise everything before its last '.', which is preceded by some
      character other than '.'; a non-dot followed later by a '.' always
      loses the extension. It is empty only when `b` is. */
  lemma GetFilenameStem(path: string)
    ensures var b := Basename(path);
      var r := GetFilename(path);
      && (r == "" <==> b == "")
      && ('.' !in b ==> r == b)
      && ((forall k :: 0 <= k < RFind(b, '.') ==> b[k] == '.') ==> r == b)
      && (r != b ==> b[|r|] == '.' && '.' !in b[|r| + 1..] && HasNonDot(b, 0, |r|))
      && ((exists i, j :: 0 <= i < j < |b| && b[i] != '.' && b[j] == '.') ==> r != b)
  {
    var b := Basename(path);
    assert RFind(b, '/') == -1;
    DotAfterNonDotIsExtension(b);
    SplitExtFindsExtension(b);
  }

  /** In a name without '/', a non-dot followed later by a '.' makes an
      extension. */
  lemma DotAfterNonDotIsExtension(b: string)
    requires '/' !in b
    ensures (exists i, j :: 0 <= i < j < |b| && b[i] != '.' && b[j] == '.') ==> HasExtension(b)
  {
    if exists i, j :: 0 <= i < j < |b| && b[i] != '.' && b[j] == '.' {
      var i, j :| 0 <= i < j < |b| && b[i] != '.' && b[j] == '.';
      assert '/' !in b[i..];
    }
  }

  /** A name with one extension dot after a non-empty, dot-free stem loses
      exactly that extension. */
  lemma {:induction false} StemOfDottedName(stem: string, ext: string)
    requires |stem| > 0
    requires '.' !in stem && '.' !in ext
    requires '/' !in stem && '/' !in ext
    ensures '/' !in stem + "." + ext
    ensures GetFilename(stem + "." + ext) == stem
  {
    var p := stem + "." + ext;
    DottedNameMarks(stem, ext);
    assert Basename(p) == p;
    assert HasNonDot(p, 0, |stem|) by {
      assert p[0] == stem[0] && stem[0] in stem;
    }
    assert p[..|stem|] == stem;
  }

  /** In "stem.ext" with no '/' and dot-free parts, there is no '/' and the
      last '.' is the one after the stem. */
  lemma DottedNameMarks(stem: string, ext: string)
    requires '.' !in stem && '.' !in ext
    requires '/' !in stem && '/' !in ext
    ensures '/' !in stem + "." + ext
    ensures RFind(stem + "." + ext, '/') == -1
    ensures RFind(stem + "." + ext, '.') == |stem|
  {
    var p := stem + "." + ext;
    assert '/' !in p by {
      assert forall k :: 0 <= k < |p| ==> p[k] == (if k < |stem| then stem[k] else if k == |stem| then '.' else ext[k - |stem| - 1]);
    }
    RFindAppend(stem + ".", ext, '.');
  }

  /** A leading dot does not start an extension: "." followed by a name
      without dots keeps its whole name. */
  lemma {:induction false} StemOfDotFile(rest: string)
    requires '.' !in rest && '/' !in rest
    ensures GetFilename("." + rest) == "." + rest
  {
    var p := "." + rest;
    assert '/' !in p by {
      assert forall k :: 0 <= k < |p| ==> p[k] == (if k == 0 then '.' else rest[k - 1]);
    }
    assert RFind(p, '/') == -1;
    RFindAppend(".", rest, '.');
    assert RFind(p, '.') == 0;
    assert !HasNonDot(p, 0, 0);
  }

  /** `os.path.join(a, b)` for two components. */
  function Join(a: string, b: string): (r: string)
    ensures |b| > 0 && b[0] == '/' ==> r == b
    ensures |b| <= |r| && r[|r| - |b|..] == b
  {
    if |b| > 0 && b[0] == '/' then b
    else if a == "" || a[|a| - 1] == '/' then a + b
    else a + "/" + b
  }

  /** Appending text free of `c` does not move the last `c`. */
  lemma {:induction false} RFindAppend(s: string, t: string, c: char)
    requires c !in t
    ensures RFind(s + t, c) == RFind(s, c)
    decreases |t|
  {
    if |t| == 0 {
      assert s + t == s;
    } else {
      var u := s + t;
      assert u[|u| - 1] == t[|t| - 1] != c;
      assert u[..|u| - 1] == s + t[..|t| - 1];
      RFindAppend(s, t[..|t| - 1], c);
    }
  }

  /** Joining a directory with a listing entry (which holds no '/') leaves
      the entry as the final component, so the station tag is the same
      whether it is taken from the bare name or the joined path. */
  lemma {:induction false} BasenameOfJoin(dir: string, name: string)
    requires '/' !in name
    ensures Basename(Join(dir, name)) == name
    ensures GetFilename(Join(dir, name)) == GetFilename(name)
  {
    var j := Join(dir, name);
    if dir == "" {
      assert j == name;
    } else {
      var d := if dir[|dir| - 1] == '/' then dir else dir + "/";
      assert j == d + name;
      assert d[|d| - 1] == '/';
      RFindAppend(d, name, '/');
      assert RFind(j, '/') == |d| - 1;
      assert j[|d|..] == name;
    }
    assert Basename(name) == name by {
      assert RFind(name, '/') == -1;
    }
  }
}
