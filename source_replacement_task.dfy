/** The legacy token-replacement task (`SourceReplacementTask`): it copies
    every file of the existing source directories to the output directory,
    replacing the global tokens in the files the global locations include and
    then the tokens registered for the file's project-relative path; a file
    with nothing to replace is copied verbatim. */
module SourceReplacementTask {
  import opened Base
  import opened Strings

  /** A `Map<String, Object>` of tokens to replacements, with `None` for a
      Java `null` key or value and each other value by its string form. */
  type TokenMap = map<Option<string>, Option<string>>

  /** A set-valued multimap from a file path to token maps (`HashMultimap`). */
  type ByFile = map<string, set<TokenMap>>

  /** A file of a source tree: the path it was reached by, its canonical
      path and its text. */
  datatype SourceFile = SourceFile(path: string, canonicalPath: string, text: string)

  /** A source directory tree: whether the directory exists and is a
      directory, its canonical path, and the files it yields (after Gradle's
      include, exclude and filter patterns), in visiting order. */
  datatype DirTree = DirTree(present: bool, canonicalDir: string, files: seq<SourceFile>)

  /** What ends up at a destination: a verbatim copy of the source file, or
      the rewritten text. */
  datatype FileAction = CopyOf(source: string) | WriteText(text: string)

  // ---------------------------------------------------------------------
  // Paths

  /** A path with every backslash turned into a slash. */
  function Slashed(s: string): (r: string)
    ensures |r| == |s| && '\\' !in r
  {
    ReplaceChar(s, '\\', '/')
  }

  /** `getFilePath`: the file's path with every occurrence of the project
      directory's path removed and backslashes turned into slashes, minus one
      leading slash; `charAt(0)` on an empty result fails. */
  function GetFilePath(projectDir: string, filePath: string): (r: Result<string>)
    ensures r.Err? <==> ReplaceAll(filePath, projectDir, "") == ""
    ensures r.Err? ==> r.error == IndexOutOfBounds(0)
    ensures r.Ok? ==> '\\' !in r.value
  {
    var path := Slashed(ReplaceAll(filePath, projectDir, ""));
    if |path| == 0 then Err(IndexOutOfBounds(0))
    else if path[0] == '/' then Ok(path[1..])
    else Ok(path)
  }

  lemma ReplaceCharAbsent(s: string, c: char, d: char)
    requires c !in s
    ensures ReplaceChar(s, c, d) == s
  {
  }

  /** Removing a non-empty prefix's occurrences starts by removing the
      prefix itself. */
  lemma RemovePrefix(p: string, s: string)
    requires |p| > 0
    ensures ReplaceAll(p + s, p, "") == ReplaceAll(s, p, "")
  {
    assert (p + s)[..|p|] == p;
    assert (p + s)[|p|..] == s;
  }

  /** A file at `projectDir`, a separator (either slash) and `rel` gets `rel`
      with slashes as its project-relative path, as long as the project
      directory's path does not occur again after it. */
  lemma {:induction false} ProjectRelativePath(projectDir: string, sep: char, rel: string)
    requires |projectDir| > 0 && (sep == '/' || sep == '\\')
    requires !Contains([sep] + rel, projectDir)
    ensures GetFilePath(projectDir, projectDir + [sep] + rel) == Ok(Slashed(rel))
  {
    assert projectDir + [sep] + rel == projectDir + ([sep] + rel);
    RemovePrefix(projectDir, [sep] + rel);
    ReplaceAllAbsent([sep] + rel, projectDir, "");
    var path := Slashed([sep] + rel);
    assert path[0] == '/';
    assert path[1..] == Slashed(rel) by {
      assert ([sep] + rel)[1..] == rel;
    }
  }

  /** `getDestination`: the canonical path with the canonical source
      directory's path removed, relative to the output directory. */
  function Destination(canonicalPath: string, canonicalDir: string): string {
    ReplaceAll(canonicalPath, canonicalDir, "")
  }

  /** A file directly at `dir` + `rel` lands at `rel` under the output
      directory when `dir` does not occur in `rel`. */
  lemma DestinationOfNested(dir: string, rel: string)
    requires |dir| > 0 && !Contains(rel, dir)
    ensures Destination(dir + rel, dir) == rel
  {
    RemovePrefix(dir, rel);
    ReplaceAllAbsent(rel, dir, "");
  }

  // ---------------------------------------------------------------------
  // Global locations

  /** The `i`th location, slash-normalised, ends the slash-normalised path. */
  predicate IncludedAt(locations: seq<string>, canonicalPath: string, i: int) {
    0 <= i < |locations| && EndsWith(Slashed(canonicalPath), Slashed(locations[i]))
  }

  /** The search of `isIncluded` from the `i`th location on. */
  function MatchesFrom(locations: seq<string>, canonicalPath: string, i: nat): (b: bool)
    ensures b <==> exists j :: i <= j && IncludedAt(locations, canonicalPath, j)
    decreases |locations| - i
  {
    if i >= |locations| then false
    else if EndsWith(Slashed(canonicalPath), Slashed(locations[i])) then
      assert IncludedAt(locations, canonicalPath, i);
      true
    else MatchesFrom(locations, canonicalPath, i + 1)
  }

  /** `isIncluded`: every file when no location is configured, otherwise
      exactly the files whose path ends with some location. */
  function IsIncluded(locations: seq<string>, canonicalPath: string): (b: bool)
    ensures b <==> |locations| == 0 || exists i :: IncludedAt(locations, canonicalPath, i)
  {
    |locations| == 0 || MatchesFrom(locations, canonicalPath, 0)
  }

  /** Adding locations to a non-empty list never excludes a file it included. */
  lemma IncludedStaysIncluded(locations: seq<string>, more: seq<string>, canonicalPath: string)
    requires |locations| > 0 && IsIncluded(locations, canonicalPath)
    ensures IsIncluded(locations + more, canonicalPath)
  {
    var i :| IncludedAt(locations, canonicalPath, i);
    assert IncludedAt(locations + more, canonicalPath, i);
  }

  // ---------------------------------------------------------------------
  // Literal replacement

  /** The replacements applied one after the other, each to every
      occurrence of its token, which is matched literally. */
  function Replaced(text: string, reps: seq<(string, string)>): string
    decreases |reps|
  {
    if |reps| == 0 then text else Replaced(ReplaceAll(text, reps[0].0, reps[0].1), reps[1..])
  }

  /** The loop that applies replacements in order. */
  method ApplyReplacements(text: string, reps: seq<(string, string)>) returns (t: string)
    ensures t == Replaced(text, reps)
  {
    t := text;
    for i := 0 to |reps|
      invariant Replaced(text, reps) == Replaced(t, reps[i..])
    {
      assert reps[i..][1..] == reps[i + 1..];
      t := ReplaceAll(t, reps[i].0, reps[i].1);
    }
  }

  /** Applying two lists of replacements is applying their concatenation. */
  lemma {:induction false} ReplacedAppend(text: string, a: seq<(string, string)>, b: seq<(string, string)>)
    ensures Replaced(text, a + b) == Replaced(Replaced(text, a), b)
    decreases |a|
  {
    if |a| > 0 {
      assert (a + b)[0] == a[0];
      assert (a + b)[1..] == a[1..] + b;
      ReplacedAppend(ReplaceAll(text, a[0].0, a[0].1), a[1..], b);
    } else {
      assert a + b == b;
    }
  }

  /** Non-empty tokens none of which occurs in the text leave it unchanged. */
  lemma {:induction false} ReplacedAbsent(text: string, reps: seq<(string, string)>)
    requires forall i :: 0 <= i < |reps| ==> |reps[i].0| > 0 && !Contains(text, reps[i].0)
    ensures Replaced(text, reps) == text
    decreases |reps|
  {
    if |reps| > 0 {
      ReplaceAllAbsent(text, reps[0].0, reps[0].1);
      assert forall i :: 0 <= i < |reps[1..]| ==> reps[1..][i] == reps[i + 1];
      ReplacedAbsent(text, reps[1..]);
    }
  }

  /** Replacing tokens by themselves leaves the text unchanged. */
  lemma {:induction false} ReplacedSelf(text: string, reps: seq<(string, string)>)
    requires forall i :: 0 <= i < |reps| ==> reps[i].0 == reps[i].1
    ensures Replaced(text, reps) == text
    decreases |reps|
  {
    if |reps| > 0 {
      ReplaceAllSelf(text, reps[0].0);
      assert forall i :: 0 <= i < |reps[1..]| ==> reps[1..][i] == reps[i + 1];
      ReplacedSelf(text, reps[1..]);
    }
  }

  // ---------------------------------------------------------------------
  // Resolving the configured replacements

  /** The non-null entries among `keys` of a token map, keyed by token. */
  function ResolvedAmong(m: TokenMap, keys: set<Option<string>>): map<string, string> {
    map k | k in keys && k in m && k.Some? && m[k].Some? :: k.value := m[k].value
  }

  /** `resolveReplacementsGlobal` as a map: entries with a null token or a
      null replacement are dropped. */
  function ResolvedGlobal(m: TokenMap): (r: map<string, string>)
    ensures forall t :: t in r <==> Some(t) in m && m[Some(t)].Some?
    ensures forall t | t in r :: r[t] == m[Some(t)].value
  {
    ResolvedAmong(m, m.Keys)
  }

  /** The single-entry maps made of the non-null entries among `keys`. */
  function Entries(m: TokenMap, keys: set<Option<string>>): set<map<string, string>> {
    set k | k in keys && k in m && k.Some? && m[k].Some? :: map[k.value := m[k].value]
  }

  /** One single-entry map per non-null entry of any of the maps. */
  function Singletons(maps: set<TokenMap>): set<map<string, string>> {
    set m, k | m in maps && k in m && k.Some? && m[k].Some? :: map[k.value := m[k].value]
  }

  /** The resolved multimap restricted to `files`: a file with no non-null
      entry gets no key, as a multimap holds no empty collection. */
  function ResolvedFor(b: ByFile, files: set<string>): map<string, set<map<string, string>>> {
    map f | f in files && f in b && Singletons(b[f]) != {} :: Singletons(b[f])
  }

  /** Each collection of a resolved multimap is non-empty and holds single-entry maps. */
  ghost predicate SingletonCollections(res: map<string, set<map<string, string>>>) {
    forall f | f in res :: res[f] != {} && forall x | x in res[f] :: exists t, v :: x == map[t := v]
  }

  /** `resolveReplacementsByFile` as a multimap: for each file, one
      single-entry map per non-null token entry of its maps. */
  function ResolvedByFile(b: ByFile): (r: map<string, set<map<string, string>>>)
    ensures forall f: string, t: string, v: string :: (f in r && map[t := v] in r[f]) <==> HasEntry(b, f, t, v)
    ensures SingletonCollections(r)
  {
    ResolvedByFileEntries(b);
    ResolvedByFileShape(b);
    ResolvedFor(b, b.Keys)
  }

  /** Some map registered for `f` replaces `t` by `v`. */
  ghost predicate HasEntry(b: ByFile, f: string, t: string, v: string) {
    f in b && exists m: TokenMap :: m in b[f] && Some(t) in m && m[Some(t)] == Some(v)
  }

  lemma ResolvedByFileEntries(b: ByFile)
    ensures forall f: string, t: string, v: string ::
      (f in ResolvedFor(b, b.Keys) && map[t := v] in ResolvedFor(b, b.Keys)[f]) <==> HasEntry(b, f, t, v)
  {
    var r := ResolvedFor(b, b.Keys);
    forall f: string, t: string, v: string | HasEntry(b, f, t, v)
      ensures f in r && map[t := v] in r[f]
    {
      var m: TokenMap :| m in b[f] && Some(t) in m && m[Some(t)] == Some(v);
      var k: Option<string> := Some(t);
      assert map[k.value := m[k].value] in Singletons(b[f]);
    }
    forall f: string, t: string, v: string | f in r && map[t := v] in r[f]
      ensures HasEntry(b, f, t, v)
    {
      var m: TokenMap, k: Option<string> :| m in b[f] && k in m && k.Some? && m[k].Some? && map[t := v] == map[k.value := m[k].value];
      assert t in map[k.value := m[k].value];
      assert k == Some(t);
    }
  }

  lemma ResolvedByFileShape(b: ByFile)
    ensures SingletonCollections(ResolvedFor(b, b.Keys))
  {
    var r := ResolvedFor(b, b.Keys);
    forall f | f in r
      ensures r[f] != {} && forall x | x in r[f] :: exists t, v :: x == map[t := v]
    {
      forall x | x in r[f] ensures exists t, v :: x == map[t := v] {
        var m: TokenMap, k: Option<string> :| m in b[f] && k in m && k.Some? && m[k].Some? && x == map[k.value := m[k].value];
      }
    }
  }

  /** `r` with `file` holding `acc`, or untouched while `acc` is empty. */
  function WithFile(r: map<string, set<map<string, string>>>, file: string, acc: set<map<string, string>>)
    : map<string, set<map<string, string>>>
  {
    if acc == {} then r else r[file := acc]
  }

  /** `putAll` of one multimap into another: the union per file. */
  function PutAll(a: ByFile, b: ByFile): (r: ByFile)
    ensures r.Keys == a.Keys + b.Keys
    ensures forall f, x :: (f in r && x in r[f]) <==> (f in a && x in a[f]) || (f in b && x in b[f])
  {
    map f | f in a.Keys + b.Keys :: (if f in a then a[f] else {}) + (if f in b then b[f] else {})
  }

  lemma SingletonsAdd(done: set<TokenMap>, m: TokenMap)
    ensures Singletons(done + {m}) == Singletons(done) + Entries(m, m.Keys)
  {
    var l, r := Singletons(done + {m}), Singletons(done) + Entries(m, m.Keys);
    forall x | x in l ensures x in r {
      var m', k :| m' in done + {m} && k in m' && k.Some? && m'[k].Some? && x == map[k.value := m'[k].value];
      if m' == m {
        assert x in Entries(m, m.Keys);
      } else {
        assert x in Singletons(done);
      }
    }
    forall x | x in r ensures x in l {
      if x in Singletons(done) {
        var m', k :| m' in done && k in m' && k.Some? && m'[k].Some? && x == map[k.value := m'[k].value];
        assert m' in done + {m};
      } else {
        var k :| k in m.Keys && k in m && k.Some? && m[k].Some? && x == map[k.value := m[k].value];
        assert m in done + {m};
      }
    }
  }

  lemma ResolvedForAdd(b: ByFile, done: set<string>, file: string)
    requires file in b && file !in done
    ensures ResolvedFor(b, done + {file}) == WithFile(ResolvedFor(b, done), file, Singletons(b[file]))
  {
  }

  lemma EntriesAdd(m: TokenMap, done: set<Option<string>>, k: Option<string>)
    requires k in m
    ensures Entries(m, done + {k}) == Entries(m, done) + (if k.Some? && m[k].Some? then {map[k.value := m[k].value]} else {})
  {
  }

  /** The middle and inner loops of `resolveReplacementsByFile` for one
      file: a single-entry map for each non-null entry of each of its maps,
      gathered as the file's collection in the multimap. */
  method FileEntries(maps: set<TokenMap>) returns (collection: set<map<string, string>>)
    ensures collection == Singletons(maps)
  {
    collection := {};
    var pending := maps;
    while pending != {}
      invariant pending <= maps
      invariant collection == Singletons(maps - pending)
      decreases |pending|
    {
      var m :| m in pending;
      var keys := m.Keys;
      ghost var before := collection;
      while keys != {}
        invariant keys <= m.Keys
        invariant collection == before + Entries(m, m.Keys - keys)
        decreases |keys|
      {
        var key :| key in keys;
        EntriesAdd(m, m.Keys - keys, key);
        assert m.Keys - (keys - {key}) == (m.Keys - keys) + {key};
        var value := m[key];
        if key.Some? && value.Some? {
          collection := collection + {map[key.value := value.value]};
        }
        keys := keys - {key};
      }
      assert m.Keys - keys == m.Keys;
      SingletonsAdd(maps - pending, m);
      assert maps - (pending - {m}) == (maps - pending) + {m};
      pending := pending - {m};
    }
    assert maps - pending == maps;
  }

  // ---------------------------------------------------------------------
  // Iteration orders

  /** `order` lists the entries of `m`, each once: the iteration order of
      its entry set. */
  ghost predicate ListsMap(order: seq<(string, string)>, m: map<string, string>) {
    (forall i, j :: 0 <= i < j < |order| ==> order[i] != order[j])
    && forall p :: p in order <==> p.0 in m && m[p.0] == p.1
  }

  /** `order` lists the single entries of the maps of `s`, each once: the
      iteration order of the collection followed through each map. */
  ghost predicate ListsSingletons(order: seq<(string, string)>, s: set<map<string, string>>) {
    (forall i, j :: 0 <= i < j < |order| ==> order[i] != order[j])
    && forall t, v :: (t, v) in order <==> map[t := v] in s
  }

  /** An iteration order for each collection of a resolved multimap. */
  ghost predicate FileOrdersFit(orders: map<string, seq<(string, string)>>, res: map<string, set<map<string, string>>>) {
    orders.Keys == res.Keys && forall f | f in orders :: ListsSingletons(orders[f], res[f])
  }

  /** A file has a non-empty order exactly when its resolved collection is
      non-empty. */
  lemma OrderNonEmpty(orders: map<string, seq<(string, string)>>, res: map<string, set<map<string, string>>>, path: string)
    requires FileOrdersFit(orders, res) && SingletonCollections(res)
    ensures (path in res && res[path] != {}) <==> (path in orders && |orders[path]| > 0)
  {
    if path in res && res[path] != {} {
      var x :| x in res[path];
      var t, v :| x == map[t := v];
      assert (t, v) in orders[path];
    }
    if path in orders && |orders[path]| > 0 {
      assert (orders[path][0].0, orders[path][0].1) in orders[path];
    }
  }

  // ---------------------------------------------------------------------
  // What `run` does

  /** The by-file replacements for a project-relative path, in their order. */
  function FileReplacements(fileOrders: map<string, seq<(string, string)>>, path: string): seq<(string, string)> {
    if path in fileOrders then fileOrders[path] else []
  }

  /** One file of `run`: global replacements if it is included, then the
      replacements registered for its project-relative path; written when
      either applies, copied otherwise. */
  function FileOutcome(projectDir: string, locations: seq<string>, globals: seq<(string, string)>,
                       fileOrders: map<string, seq<(string, string)>>, f: SourceFile): Result<FileAction>
  {
    var included := IsIncluded(locations, f.canonicalPath);
    var text := if included then Replaced(f.text, globals) else f.text;
    var path :- GetFilePath(projectDir, f.path);
    var byFile := FileReplacements(fileOrders, path);
    if included || |byFile| > 0 then Ok(WriteText(Replaced(text, byFile))) else Ok(CopyOf(f.path))
  }

  /** The files of one existing tree, each stored at its destination. */
  function FilesOutcome(projectDir: string, locations: seq<string>, globals: seq<(string, string)>,
                        fileOrders: map<string, seq<(string, string)>>, dir: string, files: seq<SourceFile>,
                        written: map<string, FileAction>): Result<map<string, FileAction>>
    decreases |files|
  {
    if |files| == 0 then Ok(written)
    else
      var action :- FileOutcome(projectDir, locations, globals, fileOrders, files[0]);
      FilesOutcome(projectDir, locations, globals, fileOrders, dir, files[1..],
                   written[Destination(files[0].canonicalPath, dir) := action])
  }

  /** All trees in order; a missing or non-directory root is skipped. */
  function RunOutcome(projectDir: string, locations: seq<string>, globals: seq<(string, string)>,
                      fileOrders: map<string, seq<(string, string)>>, trees: seq<DirTree>,
                      written: map<string, FileAction>): Result<map<string, FileAction>>
    decreases |trees|, 0
  {
    if |trees| == 0 then Ok(written)
    else if !trees[0].present then RunOutcome(projectDir, locations, globals, fileOrders, trees[1..], written)
    else ThenRun(projectDir, locations, globals, fileOrders,
                 FilesOutcome(projectDir, locations, globals, fileOrders, trees[0].canonicalDir, trees[0].files, written),
                 trees[1..])
  }

  /** Continue with the remaining trees unless a file failed. */
  function ThenRun(projectDir: string, locations: seq<string>, globals: seq<(string, string)>,
                   fileOrders: map<string, seq<(string, string)>>, sofar: Result<map<string, FileAction>>,
                   trees: seq<DirTree>): Result<map<string, FileAction>>
    decreases |trees|, 1
  {
    if sofar.Err? then sofar else RunOutcome(projectDir, locations, globals, fileOrders, trees, sofar.value)
  }

  /** A file is copied verbatim exactly when it is not included and has no
      replacement registered for its path; otherwise its text is the global
      replacements (for included files only) followed by its own. */
  lemma FileOutcomeCases(projectDir: string, locations: seq<string>, globals: seq<(string, string)>,
                         fileOrders: map<string, seq<(string, string)>>, f: SourceFile, path: string)
    requires GetFilePath(projectDir, f.path) == Ok(path)
    ensures FileOutcome(projectDir, locations, globals, fileOrders, f).Ok?
    ensures FileOutcome(projectDir, locations, globals, fileOrders, f) == Ok(CopyOf(f.path))
      <==> !IsIncluded(locations, f.canonicalPath) && |FileReplacements(fileOrders, path)| == 0
    ensures IsIncluded(locations, f.canonicalPath) ==>
      FileOutcome(projectDir, locations, globals, fileOrders, f)
        == Ok(WriteText(Replaced(f.text, globals + FileReplacements(fileOrders, path))))
    ensures !IsIncluded(locations, f.canonicalPath) && |FileReplacements(fileOrders, path)| > 0 ==>
      FileOutcome(projectDir, locations, globals, fileOrders, f)
        == Ok(WriteText(Replaced(f.text, FileReplacements(fileOrders, path))))
  {
    ReplacedAppend(f.text, globals, FileReplacements(fileOrders, path));
  }

  /** The destinations of the files of the existing trees. */
  function Destinations(trees: seq<DirTree>): set<string> {
    set i, j | 0 <= i < |trees| && trees[i].present && 0 <= j < |trees[i].files|
      :: Destination(trees[i].files[j].canonicalPath, trees[i].canonicalDir)
  }

  function FileDestinations(dir: string, files: seq<SourceFile>): set<string> {
    set j | 0 <= j < |files| :: Destination(files[j].canonicalPath, dir)
  }

  lemma {:induction false} FilesWriteEveryFile(projectDir: string, locations: seq<string>, globals: seq<(string, string)>,
                                                fileOrders: map<string, seq<(string, string)>>, dir: string,
                                                files: seq<SourceFile>, written: map<string, FileAction>)
    requires FilesOutcome(projectDir, locations, globals, fileOrders, dir, files, written).Ok?
    ensures FilesOutcome(projectDir, locations, globals, fileOrders, dir, files, written).value.Keys
      == written.Keys + FileDestinations(dir, files)
    decreases |files|
  {
    if |files| > 0 {
      var action := FileOutcome(projectDir, locations, globals, fileOrders, files[0]).value;
      var d := Destination(files[0].canonicalPath, dir);
      FilesWriteEveryFile(projectDir, locations, globals, fileOrders, dir, files[1..], written[d := action]);
      assert FileDestinations(dir, files) == {d} + FileDestinations(dir, files[1..]) by {
        forall x | x in FileDestinations(dir, files) ensures x in {d} + FileDestinations(dir, files[1..]) {
          var j :| 0 <= j < |files| && x == Destination(files[j].canonicalPath, dir);
          if j > 0 {
            assert files[1..][j - 1] == files[j];
          }
        }
        forall x | x in FileDestinations(dir, files[1..]) ensures x in FileDestinations(dir, files) {
          var j :| 0 <= j < |files[1..]| && x == Destination(files[1..][j].canonicalPath, dir);
          assert files[1..][j] == files[j + 1];
        }
      }
    }
  }

  lemma DestinationsCons(trees: seq<DirTree>)
    requires |trees| > 0
    ensures Destinations(trees)
      == (if trees[0].present then FileDestinations(trees[0].canonicalDir, trees[0].files) else {}) + Destinations(trees[1..])
  {
    var l := Destinations(trees);
    var r := (if trees[0].present then FileDestinations(trees[0].canonicalDir, trees[0].files) else {}) + Destinations(trees[1..]);
    forall x | x in l ensures x in r {
      var i, j :| 0 <= i < |trees| && trees[i].present && 0 <= j < |trees[i].files|
        && x == Destination(trees[i].files[j].canonicalPath, trees[i].canonicalDir);
      if i > 0 {
        assert trees[1..][i - 1] == trees[i];
      }
    }
    forall x | x in r ensures x in l {
      if trees[0].present && x in FileDestinations(trees[0].canonicalDir, trees[0].files) {
        var j :| 0 <= j < |trees[0].files| && x == Destination(trees[0].files[j].canonicalPath, trees[0].canonicalDir);
      } else {
        var i, j :| 0 <= i < |trees[1..]| && trees[1..][i].present && 0 <= j < |trees[1..][i].files|
          && x == Destination(trees[1..][i].files[j].canonicalPath, trees[1..][i].canonicalDir);
        assert trees[1..][i] == trees[i + 1];
      }
    }
  }

  /** A successful run writes exactly one destination per file of the
      existing trees (files with the same destination share it), and keeps
      what was written before. */
  lemma {:induction false} RunWritesEveryFile(projectDir: string, locations: seq<string>, globals: seq<(string, string)>,
                                               fileOrders: map<string, seq<(string, string)>>, trees: seq<DirTree>,
                                               written: map<string, FileAction>)
    requires RunOutcome(projectDir, locations, globals, fileOrders, trees, written).Ok?
    ensures RunOutcome(projectDir, locations, globals, fileOrders, trees, written).value.Keys
      == written.Keys + Destinations(trees)
    decreases |trees|
  {
    if |trees| > 0 {
      DestinationsCons(trees);
      if trees[0].present {
        var s := FilesOutcome(projectDir, locations, globals, fileOrders, trees[0].canonicalDir, trees[0].files, written);
        FilesWriteEveryFile(projectDir, locations, globals, fileOrders, trees[0].canonicalDir, trees[0].files, written);
        RunWritesEveryFile(projectDir, locations, globals, fileOrders, trees[1..], s.value);
      } else {
        RunWritesEveryFile(projectDir, locations, globals, fileOrders, trees[1..], written);
      }
    }
  }

  /** The files of the existing trees in the order `run` visits them, each
      with its destination. */
  function Jobs(trees: seq<DirTree>): seq<(string, SourceFile)>
    decreases |trees|
  {
    if |trees| == 0 then []
    else (if trees[0].present then FileJobs(trees[0].canonicalDir, trees[0].files) else []) + Jobs(trees[1..])
  }

  function FileJobs(dir: string, files: seq<SourceFile>): seq<(string, SourceFile)>
    decreases |files|
  {
    if |files| == 0 then [] else [(Destination(files[0].canonicalPath, dir), files[0])] + FileJobs(dir, files[1..])
  }

  /** The files written one after the other; the first failure stops it. */
  function JobsOutcome(projectDir: string, locations: seq<string>, globals: seq<(string, string)>,
                       fileOrders: map<string, seq<(string, string)>>, jobs: seq<(string, SourceFile)>,
                       written: map<string, FileAction>): Result<map<string, FileAction>>
    decreases |jobs|
  {
    if |jobs| == 0 then Ok(written)
    else
      var action :- FileOutcome(projectDir, locations, globals, fileOrders, jobs[0].1);
      JobsOutcome(projectDir, locations, globals, fileOrders, jobs[1..], written[jobs[0].0 := action])
  }

  lemma {:induction false} FilesAsJobs(projectDir: string, locations: seq<string>, globals: seq<(string, string)>,
                                       fileOrders: map<string, seq<(string, string)>>, dir: string,
                                       files: seq<SourceFile>, written: map<string, FileAction>)
    ensures FilesOutcome(projectDir, locations, globals, fileOrders, dir, files, written)
      == JobsOutcome(projectDir, locations, globals, fileOrders, FileJobs(dir, files), written)
    decreases |files|
  {
    if |files| > 0 {
      var jobs := FileJobs(dir, files);
      assert jobs[0] == (Destination(files[0].canonicalPath, dir), files[0]) && jobs[1..] == FileJobs(dir, files[1..]);
      var action := FileOutcome(projectDir, locations, globals, fileOrders, files[0]);
      if action.Ok? {
        FilesAsJobs(projectDir, locations, globals, fileOrders, dir, files[1..],
                    written[Destination(files[0].canonicalPath, dir) := action.value]);
      }
    }
  }

  /** Writing two runs of files is writing the first, then the second unless
      the first failed. */
  lemma {:induction false} JobsAppend(projectDir: string, locations: seq<string>, globals: seq<(string, string)>,
                                      fileOrders: map<string, seq<(string, string)>>, a: seq<(string, SourceFile)>,
                                      b: seq<(string, SourceFile)>, written: map<string, FileAction>)
    ensures JobsOutcome(projectDir, locations, globals, fileOrders, a + b, written)
      == var first := JobsOutcome(projectDir, locations, globals, fileOrders, a, written);
         if first.Err? then first else JobsOutcome(projectDir, locations, globals, fileOrders, b, first.value)
    decreases |a|
  {
    if |a| > 0 {
      assert (a + b)[0] == a[0] && (a + b)[1..] == a[1..] + b;
      var action := FileOutcome(projectDir, locations, globals, fileOrders, a[0].1);
      if action.Ok? {
        JobsAppend(projectDir, locations, globals, fileOrders, a[1..], b, written[a[0].0 := action.value]);
      }
    } else {
      assert a + b == b;
    }
  }

  /** `run` over the trees is the writing of their files in visiting order. */
  lemma {:induction false} RunAsJobs(projectDir: string, locations: seq<string>, globals: seq<(string, string)>,
                                     fileOrders: map<string, seq<(string, string)>>, trees: seq<DirTree>,
                                     written: map<string, FileAction>)
    ensures RunOutcome(projectDir, locations, globals, fileOrders, trees, written)
      == JobsOutcome(projectDir, locations, globals, fileOrders, Jobs(trees), written)
    decreases |trees|
  {
    if |trees| > 0 {
      if trees[0].present {
        var dir := trees[0].canonicalDir;
        FilesAsJobs(projectDir, locations, globals, fileOrders, dir, trees[0].files, written);
        JobsAppend(projectDir, locations, globals, fileOrders, FileJobs(dir, trees[0].files), Jobs(trees[1..]), written);
        var first := FilesOutcome(projectDir, locations, globals, fileOrders, dir, trees[0].files, written);
        if first.Ok? {
          RunAsJobs(projectDir, locations, globals, fileOrders, trees[1..], first.value);
        }
      } else {
        assert Jobs(trees) == [] + Jobs(trees[1..]);
        assert [] + Jobs(trees[1..]) == Jobs(trees[1..]);
        RunAsJobs(projectDir, locations, globals, fileOrders, trees[1..], written);
      }
    }
  }

  /** No file after the `k`th has the same destination. */
  predicate LastAt(jobs: seq<(string, SourceFile)>, k: int) {
    0 <= k < |jobs| && forall m | k < m < |jobs| :: jobs[m].0 != jobs[k].0
  }

  /** After a successful sequence of writes, each destination holds the
      outcome of the last file written to it, and a destination no file
      has keeps what it held. */
  lemma {:induction false} JobsLastWriterWins(projectDir: string, locations: seq<string>, globals: seq<(string, string)>,
                                              fileOrders: map<string, seq<(string, string)>>, jobs: seq<(string, SourceFile)>,
                                              written: map<string, FileAction>)
    requires JobsOutcome(projectDir, locations, globals, fileOrders, jobs, written).Ok?
    ensures forall k | LastAt(jobs, k) ::
      FileOutcome(projectDir, locations, globals, fileOrders, jobs[k].1).Ok?
      && jobs[k].0 in JobsOutcome(projectDir, locations, globals, fileOrders, jobs, written).value
      && JobsOutcome(projectDir, locations, globals, fileOrders, jobs, written).value[jobs[k].0]
         == FileOutcome(projectDir, locations, globals, fileOrders, jobs[k].1).value
    ensures forall d | d in written && (forall m | 0 <= m < |jobs| :: jobs[m].0 != d) ::
      d in JobsOutcome(projectDir, locations, globals, fileOrders, jobs, written).value
      && JobsOutcome(projectDir, locations, globals, fileOrders, jobs, written).value[d] == written[d]
    decreases |jobs|
  {
    if |jobs| > 0 {
      var action := FileOutcome(projectDir, locations, globals, fileOrders, jobs[0].1).value;
      var next := written[jobs[0].0 := action];
      var tail := jobs[1..];
      JobsLastWriterWins(projectDir, locations, globals, fileOrders, tail, next);
      var res := JobsOutcome(projectDir, locations, globals, fileOrders, jobs, written).value;
      assert res == JobsOutcome(projectDir, locations, globals, fileOrders, tail, next).value;
      forall k | LastAt(jobs, k)
        ensures FileOutcome(projectDir, locations, globals, fileOrders, jobs[k].1).Ok?
        ensures jobs[k].0 in res && res[jobs[k].0] == FileOutcome(projectDir, locations, globals, fileOrders, jobs[k].1).value
      {
        if k == 0 {
          assert forall m | 0 <= m < |tail| :: tail[m].0 != jobs[0].0 by {
            forall m | 0 <= m < |tail| ensures tail[m].0 != jobs[0].0 {
              assert tail[m] == jobs[m + 1];
            }
          }
        } else {
          assert tail[k - 1] == jobs[k];
          assert LastAt(tail, k - 1) by {
            forall m | k - 1 < m < |tail| ensures tail[m].0 != tail[k - 1].0 {
              assert tail[m] == jobs[m + 1];
            }
          }
        }
      }
      forall d | d in written && (forall m | 0 <= m < |jobs| :: jobs[m].0 != d) ensures d in res && res[d] == written[d] {
        assert jobs[0].0 != d;
        assert forall m | 0 <= m < |tail| :: tail[m].0 != d by {
          forall m | 0 <= m < |tail| ensures tail[m].0 != d {
            assert tail[m] == jobs[m + 1];
          }
        }
      }
    }
  }

  /** After a successful run, each destination holds the outcome of the
      last file, in visiting order, stored there. */
  lemma RunLastWriterWins(projectDir: string, locations: seq<string>, globals: seq<(string, string)>,
                          fileOrders: map<string, seq<(string, string)>>, trees: seq<DirTree>, k: int)
    requires RunOutcome(projectDir, locations, globals, fileOrders, trees, map[]).Ok?
    requires LastAt(Jobs(trees), k)
    ensures FileOutcome(projectDir, locations, globals, fileOrders, Jobs(trees)[k].1).Ok?
    ensures Jobs(trees)[k].0 in RunOutcome(projectDir, locations, globals, fileOrders, trees, map[]).value
    ensures RunOutcome(projectDir, locations, globals, fileOrders, trees, map[]).value[Jobs(trees)[k].0]
      == FileOutcome(projectDir, locations, globals, fileOrders, Jobs(trees)[k].1).value
  {
    RunAsJobs(projectDir, locations, globals, fileOrders, trees, map[]);
    JobsLastWriterWins(projectDir, locations, globals, fileOrders, Jobs(trees), map[]);
  }

  /** One file of `run`, with the collections already resolved. */
  method ProcessFile(projectDir: string, locations: seq<string>, globals: seq<(string, string)>,
                     fileReplacements: map<string, set<map<string, string>>>,
                     fileOrders: map<string, seq<(string, string)>>, f: SourceFile)
    returns (r: Result<FileAction>)
    requires FileOrdersFit(fileOrders, fileReplacements) && SingletonCollections(fileReplacements)
    ensures r == FileOutcome(projectDir, locations, globals, fileOrders, f)
  {
    var wasChanged := false;
    var text := f.text;
    if IsIncluded(locations, f.canonicalPath) {
      text := ApplyReplacements(text, globals);
      wasChanged := true;
    }
    var path := GetFilePath(projectDir, f.path);
    if path.Err? {
      return Err(path.error);
    }
    OrderNonEmpty(fileOrders, fileReplacements, path.value);
    if path.value in fileReplacements && fileReplacements[path.value] != {} {
      text := ApplyReplacements(text, fileOrders[path.value]);
      wasChanged := true;
    }
    if wasChanged {
      r := Ok(WriteText(text));
    } else {
      r := Ok(CopyOf(f.path));
    }
  }

  // ---------------------------------------------------------------------
  // The task

  class SourceReplacementTask {
    var tokenReplacementsGlobal: TokenMap
    var tokenReplacementsGlobalLocations: seq<string>
    var tokenReplacementsByFile: ByFile
    var output: string
    var input: seq<DirTree>
    /** The project directory's path. */
    const projectDir: string

    constructor(projectDir: string, output: string)
      ensures this.projectDir == projectDir && this.output == output
      ensures tokenReplacementsGlobal == map[] && tokenReplacementsGlobalLocations == []
      ensures tokenReplacementsByFile == map[] && input == []
    {
      this.projectDir := projectDir;
      this.output := output;
      tokenReplacementsGlobal := map[];
      tokenReplacementsGlobalLocations := [];
      tokenReplacementsByFile := map[];
      input := [];
    }

    /** `setInput`. */
    method SetInput(input: seq<DirTree>)
      modifies this
      ensures this.input == input
      ensures tokenReplacementsGlobal == old(tokenReplacementsGlobal)
      ensures tokenReplacementsGlobalLocations == old(tokenReplacementsGlobalLocations)
      ensures tokenReplacementsByFile == old(tokenReplacementsByFile) && output == old(output)
    {
      this.input := input;
    }

    /** `setOutput`. */
    method SetOutput(output: string)
      modifies this
      ensures this.output == output
      ensures tokenReplacementsGlobal == old(tokenReplacementsGlobal)
      ensures tokenReplacementsGlobalLocations == old(tokenReplacementsGlobalLocations)
      ensures tokenReplacementsByFile == old(tokenReplacementsByFile) && input == old(input)
    {
      this.output := output;
    }

    /** `setTokenReplacementsGlobal`: `putAll`, the new entries winning. */
    method SetTokenReplacementsGlobal(m: TokenMap)
      modifies this
      ensures tokenReplacementsGlobal == old(tokenReplacementsGlobal) + m
      ensures tokenReplacementsGlobalLocations == old(tokenReplacementsGlobalLocations)
      ensures tokenReplacementsByFile == old(tokenReplacementsByFile)
      ensures input == old(input) && output == old(output)
    {
      tokenReplacementsGlobal := tokenReplacementsGlobal + m;
    }

    /** `setTokenReplacementsGlobalLocations`: `addAll`, keeping order. */
    method SetTokenReplacementsGlobalLocations(locations: seq<string>)
      modifies this
      ensures tokenReplacementsGlobalLocations == old(tokenReplacementsGlobalLocations) + locations
      ensures tokenReplacementsGlobal == old(tokenReplacementsGlobal)
      ensures tokenReplacementsByFile == old(tokenReplacementsByFile)
      ensures input == old(input) && output == old(output)
    {
      tokenReplacementsGlobalLocations := tokenReplacementsGlobalLocations + locations;
    }

    /** `setTokenReplacementsByFile`: `putAll` of the multimap. */
    method SetTokenReplacementsByFile(m: ByFile)
      modifies this
      ensures tokenReplacementsByFile == PutAll(old(tokenReplacementsByFile), m)
      ensures tokenReplacementsGlobal == old(tokenReplacementsGlobal)
      ensures tokenReplacementsGlobalLocations == old(tokenReplacementsGlobalLocations)
      ensures input == old(input) && output == old(output)
    {
      tokenReplacementsByFile := PutAll(tokenReplacementsByFile, m);
    }

    /** `resolveReplacementsGlobal`. */
    method ResolveReplacementsGlobal() returns (result: map<string, string>)
      ensures result == ResolvedGlobal(tokenReplacementsGlobal)
    {
      result := map[];
      var keys := tokenReplacementsGlobal.Keys;
      while keys != {}
        invariant keys <= tokenReplacementsGlobal.Keys
        invariant result == ResolvedAmong(tokenReplacementsGlobal, tokenReplacementsGlobal.Keys - keys)
        decreases |keys|
      {
        var key :| key in keys;
        var value := tokenReplacementsGlobal[key];
        if key.Some? && value.Some? {
          result := result[key.value := value.value];
        }
        keys := keys - {key};
      }
    }

    /** `resolveReplacementsByFile`. */
    method ResolveReplacementsByFile() returns (result: map<string, set<map<string, string>>>)
      ensures result == ResolvedByFile(tokenReplacementsByFile)
    {
      var byFile := tokenReplacementsByFile;
      result := map[];
      var files := byFile.Keys;
      while files != {}
        invariant files <= byFile.Keys
        invariant result == ResolvedFor(byFile, byFile.Keys - files)
        decreases |files|
      {
        var file :| file in files;
        ghost var done := byFile.Keys - files;
        var collection := FileEntries(byFile[file]);
        if collection != {} {
          result := result[file := collection];
        }
        ResolvedForAdd(byFile, done, file);
        assert byFile.Keys - (files - {file}) == done + {file};
        files := files - {file};
      }
      assert byFile.Keys - files == byFile.Keys;
    }

    /** `run`, given the iteration orders of the resolved collections: each
        existing source tree's files in turn, each stored at its destination. */
    method Run(globalOrder: seq<(string, string)>, fileOrders: map<string, seq<(string, string)>>)
      returns (r: Result<map<string, FileAction>>)
      requires ListsMap(globalOrder, ResolvedGlobal(tokenReplacementsGlobal))
      requires FileOrdersFit(fileOrders, ResolvedByFile(tokenReplacementsByFile))
      ensures r == RunOutcome(projectDir, tokenReplacementsGlobalLocations, globalOrder, fileOrders, input, map[])
    {
      var globalReplacements := ResolveReplacementsGlobal();
      var fileReplacements := ResolveReplacementsByFile();
      var locations := tokenReplacementsGlobalLocations;
      ghost var spec := RunOutcome(projectDir, locations, globalOrder, fileOrders, input, map[]);
      var written: map<string, FileAction> := map[];
      for i := 0 to |input|
        invariant spec == RunOutcome(projectDir, locations, globalOrder, fileOrders, input[i..], written)
      {
        assert input[i..][1..] == input[i + 1..];
        var dirTree := input[i];
        if dirTree.present {
          var dir := dirTree.canonicalDir;
          var files := dirTree.files;
          for j := 0 to |files|
            invariant spec == ThenRun(projectDir, locations, globalOrder, fileOrders,
                                      FilesOutcome(projectDir, locations, globalOrder, fileOrders, dir, files[j..], written),
                                      input[i + 1..])
          {
            assert files[j..][1..] == files[j + 1..];
            var file := files[j];
            var destination := Destination(file.canonicalPath, dir);
            var action := ProcessFile(projectDir, locations, globalOrder, fileReplacements, fileOrders, file);
            if action.Err? {
              return Err(action.error);
            }
            written := written[destination := action.value];
          }
        }
      }
      r := Ok(written);
    }
  }
}
