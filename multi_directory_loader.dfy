/** The template loader over several directories (`MultiDirectoryLoader`):
    a template name is looked up in each directory in turn, and the first
    directory holding a regular file under that name, which passes the
    guard against escaping the directory, supplies it. */
module MultiDirectoryLoader {
  import opened Base
  import opened Strings
  import opened Paths

  /** The regular files of the file system, by their normalised absolute names. */
  type Files = set<seq<string>>

  /** A loader: its directories, copied when it was built, so a later change
      to the caller's list does not reach it. */
  datatype Loader = Loader(directories: seq<Dir>)

  /** `Files.isRegularFile(p)` for an absolute path: the file system resolves
      "." and ".." in it. */
  predicate IsRegularFile(fs: Files, p: Path) {
    p.absolute && Normalize(p).names in fs
  }

  /** `dir.resolve(name)`. */
  function Candidate(dir: Dir, name: string): (p: Path)
    ensures p.absolute
  {
    Resolve(AsPath(dir), Parse(name))
  }

  /** The test `findFile` applies to one directory: a regular file, and
      relativizing it against the directory gives back exactly the name. */
  predicate Accepts(fs: Files, dir: Dir, name: string) {
    IsRegularFile(fs, Candidate(dir, name))
    && ToString(Relativize(AsPath(dir), Candidate(dir, name))) == name
  }

  /** `findFile` over the given directories: the candidate of the first
      directory that accepts the name, or none. */
  function FindFileIn(fs: Files, dirs: seq<Dir>, name: string): (r: Option<Path>)
    ensures r.Some? <==> exists i :: 0 <= i < |dirs| && Accepts(fs, dirs[i], name)
    ensures r.Some? ==> exists i :: FirstAccepting(fs, dirs, name, i) && r.value == Candidate(dirs[i], name)
  {
    if |dirs| == 0 then None
    else if Accepts(fs, dirs[0], name) then
      assert FirstAccepting(fs, dirs, name, 0);
      Some(Candidate(dirs[0], name))
    else
      var r := FindFileIn(fs, dirs[1..], name);
      AcceptingLater(fs, dirs, name);
      r
  }

  /** When the first directory refuses the name, the accepting directories
      are those of the others, one place further on. */
  lemma AcceptingLater(fs: Files, dirs: seq<Dir>, name: string)
    requires |dirs| > 0 && !Accepts(fs, dirs[0], name)
    ensures (exists i :: 0 <= i < |dirs| && Accepts(fs, dirs[i], name))
        <==> (exists i :: 0 <= i < |dirs[1..]| && Accepts(fs, dirs[1..][i], name))
    ensures forall i :: FirstAccepting(fs, dirs[1..], name, i) ==> FirstAccepting(fs, dirs, name, i + 1)
  {
    assert forall i :: 0 < i < |dirs| ==> dirs[i] == dirs[1..][i - 1];
  }

  /** Directory `i` is the first to accept the name. */
  predicate FirstAccepting(fs: Files, dirs: seq<Dir>, name: string, i: int) {
    0 <= i < |dirs| && Accepts(fs, dirs[i], name) && forall j :: 0 <= j < i ==> !Accepts(fs, dirs[j], name)
  }

  function FindFile(l: Loader, fs: Files, name: string): Option<Path> {
    FindFileIn(fs, l.directories, name)
  }

  /** The directories as the not-found message lists them. */
  function DirStrings(dirs: seq<Dir>): (r: seq<string>)
    ensures |r| == |dirs| && forall i :: 0 <= i < |dirs| ==> r[i] == ToString(AsPath(dirs[i]))
  {
    seq(|dirs|, i requires 0 <= i < |dirs| => ToString(AsPath(dirs[i])))
  }

  /** `getReader`: the file to read the template from, or a `LoaderException`
      naming the template and every directory, joined by "; ". */
  function GetReader(l: Loader, fs: Files, name: string): Result<Path> {
    match FindFile(l, fs, name)
    case Some(file) => Ok(file)
    case None => Err(TemplateNotFound(name, Join(DirStrings(l.directories), "; ")))
  }

  /** `resourceExists`: a file was found, and it is a regular file. */
  function ResourceExists(l: Loader, fs: Files, name: string): bool {
    var path := FindFile(l, fs, name);
    path.Some? && IsRegularFile(fs, path.value)
  }

  /** `createCacheKey`: the template name itself. */
  function CreateCacheKey(name: string): string {
    name
  }

  /** `setSuffix`, `setPrefix` and `setCharset`: always refused. */
  function SetSuffix(suffix: string): Outcome {
    Fail(Unsupported)
  }

  function SetPrefix(prefix: string): Outcome {
    Fail(Unsupported)
  }

  function SetCharset(charset: string): Outcome {
    Fail(Unsupported)
  }

  // ---------------------------------------------------------------- lemmas

  /** A template exists exactly when `getReader` finds it; the second
      regular-file test of `resourceExists` never changes the answer. */
  lemma ResourceExistsIffFound(l: Loader, fs: Files, name: string)
    ensures ResourceExists(l, fs, name) <==> FindFile(l, fs, name).Some?
    ensures ResourceExists(l, fs, name) <==> GetReader(l, fs, name).Ok?
  {
    if FindFile(l, fs, name).Some? {
      var i :| 0 <= i < |l.directories| && Accepts(fs, l.directories[i], name)
        && FindFile(l, fs, name).value == Candidate(l.directories[i], name);
    }
  }

  /** A name made of plain names is accepted by a directory exactly when the
      directory holds a regular file under it. */
  lemma PlainNameAccepted(fs: Files, dir: Dir, names: seq<string>)
    requires |names| > 0 && Plain(names)
    ensures Accepts(fs, dir, Join(names, "/")) <==> dir + names in fs
    ensures Candidate(dir, Join(names, "/")) == Path(true, dir + names)
  {
    PlainRoundTrip(names);
    RelativizeResolvePlain(dir, names);
    var c := Candidate(dir, Join(names, "/"));
    assert c == Path(true, dir + names);
    assert Plain(dir + names) by {
      forall j | 0 <= j < |dir + names| ensures PlainName((dir + names)[j]) {
        if j < |dir| { assert (dir + names)[j] == dir[j]; }
        else { assert (dir + names)[j] == names[j - |dir|]; }
      }
    }
    NormPlainAbsolute(dir + names);
  }

  /** Directory `i` is the first to hold a file under the names. */
  predicate FirstHolding(fs: Files, dirs: seq<Dir>, names: seq<string>, i: int) {
    0 <= i < |dirs| && dirs[i] + names in fs && forall j :: 0 <= j < i ==> dirs[j] + names !in fs
  }

  /** So a plain name is found in the first directory holding it. */
  lemma PlainNameFound(l: Loader, fs: Files, names: seq<string>)
    requires |names| > 0 && Plain(names)
    ensures FindFile(l, fs, Join(names, "/")).Some? <==> exists i :: 0 <= i < |l.directories| && l.directories[i] + names in fs
    ensures forall i :: FirstHolding(fs, l.directories, names, i) ==>
      FindFile(l, fs, Join(names, "/")) == Some(Path(true, l.directories[i] + names))
  {
    var name := Join(names, "/");
    var dirs := l.directories;
    forall i | 0 <= i < |dirs| ensures Accepts(fs, dirs[i], name) <==> dirs[i] + names in fs {
      PlainNameAccepted(fs, dirs[i], names);
    }
    forall i | FirstHolding(fs, dirs, names, i) ensures FindFile(l, fs, name) == Some(Path(true, dirs[i] + names)) {
      FirstHoldingAccepting(fs, dirs, names, i);
      FoundAtFirst(fs, dirs, name, i);
    }
  }

  /** The first directory holding a plain name is the first accepting it. */
  lemma FirstHoldingAccepting(fs: Files, dirs: seq<Dir>, names: seq<string>, i: int)
    requires |names| > 0 && Plain(names) && FirstHolding(fs, dirs, names, i)
    ensures FirstAccepting(fs, dirs, Join(names, "/"), i)
    ensures Candidate(dirs[i], Join(names, "/")) == Path(true, dirs[i] + names)
  {
    PlainNameAccepted(fs, dirs[i], names);
    forall j | 0 <= j < i ensures !Accepts(fs, dirs[j], Join(names, "/")) {
      PlainNameAccepted(fs, dirs[j], names);
    }
  }

  /** The search returns the candidate of the first accepting directory. */
  lemma {:induction false} FoundAtFirst(fs: Files, dirs: seq<Dir>, name: string, i: int)
    requires FirstAccepting(fs, dirs, name, i)
    ensures FindFileIn(fs, dirs, name) == Some(Candidate(dirs[i], name))
    decreases |dirs|
  {
    if i > 0 {
      assert !Accepts(fs, dirs[0], name);
      assert FirstAccepting(fs, dirs[1..], name, i - 1) by {
        assert forall j :: 0 <= j < i - 1 ==> dirs[1..][j] == dirs[j + 1];
      }
      FoundAtFirst(fs, dirs[1..], name, i - 1);
    }
  }

  /** The names `Parse` produces are non-empty and free of '/'. */
  lemma {:induction false} PiecesFreeOfSlash(s: string)
    ensures forall n :: n in Pieces(s) ==> '/' !in n
    decreases |s|
  {
    if |s| > 0 {
      PiecesFreeOfSlash(s[1..]);
    }
  }

  lemma ParseWellFormed(s: string)
    ensures WellFormed(Parse(s))
  {
    PiecesFreeOfSlash(s);
    var names := Parse(s).names;
    forall i | 0 <= i < |names| ensures names[i] != "" && '/' !in names[i] {
      assert names[i] in names;
    }
  }

  /** A relative path printed as a string never starts with '/' when its
      names are non-empty and free of '/'. */
  lemma RelativeStringHead(p: Path)
    requires !p.absolute && WellFormed(p) && |p.names| > 0
    ensures |ToString(p)| > 0 && ToString(p)[0] != '/'
  {
    JoinHead(p.names);
    assert p.names[0][0] in p.names[0];
  }

  /** Absolute template names are never found. */
  lemma AbsoluteNameRejected(l: Loader, fs: Files, name: string)
    requires |name| > 0 && name[0] == '/'
    ensures FindFile(l, fs, name) == None
  {
    forall dir: Dir | dir in l.directories ensures !Accepts(fs, dir, name) {
      var c := Candidate(dir, name);
      ParseWellFormed(name);
      assert c == Parse(name);
      var rel := Relativize(AsPath(dir), c);
      assert WellFormed(rel) by {
        RelativizedWellFormed(dir, c);
      }
      if |rel.names| > 0 {
        RelativeStringHead(rel);
      }
    }
  }

  lemma RelativizedWellFormed(dir: Dir, c: Path)
    requires c.absolute && WellFormed(c)
    ensures WellFormed(Relativize(AsPath(dir), c))
  {
    if c != AsPath(dir) {
      RelativizeOperand(dir, c);
      NormPlainAbsolute(dir);
      var cn := if HasDot(AsPath(dir)) || HasDot(c) then Normalize(c).names else c.names;
      var i := CommonPrefix(dir, cn);
      var rel := Ups(|dir| - i) + cn[i..];
      forall j | 0 <= j < |rel| ensures rel[j] != "" && '/' !in rel[j] {
        if j >= |dir| - i {
          assert rel[j] == cn[i + j - (|dir| - i)];
          assert PlainName(cn[i + j - (|dir| - i)]);
        }
      }
    }
  }

  /** Distinct template names never share a cache entry. */
  lemma CacheKeyInjective(a: string, b: string)
    ensures CreateCacheKey(a) == CreateCacheKey(b) <==> a == b
  {
  }

  /** The setters refuse every argument. */
  lemma SettersRefuse(s: string)
    ensures SetSuffix(s) == Fail(Unsupported) && SetPrefix(s) == Fail(Unsupported) && SetCharset(s) == Fail(Unsupported)
  {
  }

  // ---------------------------------------------------------------- the escape

  /** A directory and a file beside it: `/p/d` and `/p/e/x`. */
  const EscapeDir: Dir := ["p", "d"]

  lemma ParseEscapeName()
    ensures Parse("../e/x") == Path(false, ["..", "e", "x"])
  {
    var name := "../e/x";
    assert name == ".." + "/" + ("e" + "/" + "x");
    PiecesAfterName("..", "e" + "/" + "x");
    PiecesAfterName("e", "x");
    PiecesOfName("x");
    var ps := ["..", "e", "x"];
    assert Pieces(name) == ps;
    assert NonEmpty(ps) == ps by {
      assert ps[1..] == ["e", "x"] && ps[1..][1..] == ["x"] && ps[1..][1..][1..] == [];
    }
  }

  lemma NormalizeEscape()
    ensures NormFrom([], ["p", "d", "..", "e", "x"], true) == ["p", "e", "x"]
  {
    var cs := ["p", "d", "..", "e", "x"];
    assert cs[1..] == ["d", "..", "e", "x"] && cs[1..][1..] == ["..", "e", "x"];
    assert cs[1..][1..][1..] == ["e", "x"] && cs[1..][1..][1..][1..] == ["x"] && cs[1..][1..][1..][1..][1..] == [];
    assert NormStep([], "p", true) == ["p"];
    assert NormStep(["p"], "d", true) == ["p", "d"];
    assert NormStep(["p", "d"], "..", true) == ["p"];
    assert NormStep(["p"], "e", true) == ["p", "e"];
    assert NormStep(["p", "e"], "x", true) == ["p", "e", "x"];
  }

  lemma RelativizeEscape()
    ensures Relativize(AsPath(EscapeDir), Path(true, ["p", "d", "..", "e", "x"])) == Path(false, ["..", "e", "x"])
  {
    var c := Path(true, ["p", "d", "..", "e", "x"]);
    assert HasDot(c) by {
      assert IsDot(c.names[2]);
    }
    NormalizeEscape();
    NormPlainAbsolute(EscapeDir);
    assert "d" != "e" by {
      assert "d"[0] != "e"[0];
    }
    assert CommonPrefix(EscapeDir, ["p", "e", "x"]) == 1 by {
      assert EscapeDir[1..] == ["d"] && ["p", "e", "x"][1..] == ["e", "x"];
    }
    assert ["p", "e", "x"][1..] == ["e", "x"];
    assert Ups(1) == [".."];
  }

  lemma EscapeCandidate()
    ensures Candidate(EscapeDir, "../e/x") == Path(true, ["p", "d", "..", "e", "x"])
  {
    ParseEscapeName();
  }

  lemma EscapeAccepted()
    ensures Accepts({["p", "e", "x"]}, EscapeDir, "../e/x")
  {
    var c := Candidate(EscapeDir, "../e/x");
    EscapeCandidate();
    assert IsRegularFile({["p", "e", "x"]}, c) by {
      NormalizeEscape();
    }
    RelativizeEscape();
    EscapeString();
  }

  lemma EscapeString()
    ensures ToString(Path(false, ["..", "e", "x"])) == "../e/x"
  {
    assert ["..", "e", "x"][1..] == ["e", "x"] && ["e", "x"][1..] == ["x"];
  }

  /** The guard lets "../e/x" through: the file found is outside the directory. */
  lemma EscapeThroughGuard()
    ensures FindFile(Loader([EscapeDir]), {["p", "e", "x"]}, "../e/x") == Some(Path(true, ["p", "d", "..", "e", "x"]))
    ensures Normalize(Path(true, ["p", "d", "..", "e", "x"])).names == ["p", "e", "x"]
    ensures !(EscapeDir <= ["p", "e", "x"])
  {
    EscapeAccepted();
    EscapeCandidate();
    NormalizeEscape();
    assert "d"[0] != "e"[0];
    assert ["p", "e", "x"][1] != EscapeDir[1];
  }

  // ---------------------------------------------------------------- the corrected search

  /** The guard as intended: the normalised candidate lies inside the directory. */
  predicate AcceptsContained(fs: Files, dir: Dir, name: string) {
    Accepts(fs, dir, name) && dir <= Normalize(Candidate(dir, name)).names
  }

  /** `findFile` with the guard as intended. */
  function FindFileContained(fs: Files, dirs: seq<Dir>, name: string): (r: Option<Path>)
    ensures r.Some? ==> IsRegularFile(fs, r.value)
    ensures r.Some? ==> exists i :: 0 <= i < |dirs| && r.value == Candidate(dirs[i], name) && dirs[i] <= Normalize(r.value).names
  {
    if |dirs| == 0 then None
    else if AcceptsContained(fs, dirs[0], name) then Some(Candidate(dirs[0], name))
    else
      var r := FindFileContained(fs, dirs[1..], name);
      assert forall i :: 0 < i < |dirs| ==> dirs[i] == dirs[1..][i - 1];
      r
  }

  /** On names made of plain names the corrected search and `findFile` agree,
      and the escaping name of the example is refused. */
  lemma {:induction false} ContainedAgreesOnPlainNames(fs: Files, dirs: seq<Dir>, names: seq<string>)
    requires |names| > 0 && Plain(names)
    ensures FindFileContained(fs, dirs, Join(names, "/")) == FindFileIn(fs, dirs, Join(names, "/"))
    decreases |dirs|
  {
    if |dirs| > 0 {
      var dir := dirs[0];
      PlainRoundTrip(names);
      PlainNameAccepted(fs, dir, names);
      assert Plain(dir + names) by {
        forall j | 0 <= j < |dir + names| ensures PlainName((dir + names)[j]) {
          if j < |dir| { assert (dir + names)[j] == dir[j]; }
          else { assert (dir + names)[j] == names[j - |dir|]; }
        }
      }
      NormPlainAbsolute(dir + names);
      assert Normalize(Candidate(dir, Join(names, "/"))).names == dir + names;
      ContainedAgreesOnPlainNames(fs, dirs[1..], names);
    }
  }

  lemma EscapeRefused()
    ensures FindFileContained({["p", "e", "x"]}, [EscapeDir], "../e/x") == None
  {
    var fs: Files := {["p", "e", "x"]};
    EscapeCandidate();
    NormalizeEscape();
    assert Normalize(Candidate(EscapeDir, "../e/x")).names == ["p", "e", "x"];
    assert !(EscapeDir <= ["p", "e", "x"]) by {
      assert "d"[0] != "e"[0];
      assert ["p", "e", "x"][1] != EscapeDir[1];
    }
    assert !AcceptsContained(fs, EscapeDir, "../e/x");
    assert [EscapeDir][1..] == [];
  }
}
