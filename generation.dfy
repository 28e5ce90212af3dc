/** The generation loop shared by the `generate` task action and its worker
    copy: choosing the Pebble loader, collecting the template names, naming
    each output, refusing an output name seen before, and writing the header
    and the evaluated body into the output tree. */
module Generation {
  import opened Base
  import opened Strings
  import opened Paths
  import opened Yaml

  /** The regular files of the file system, by their normalised absolute
      names, with their contents. */
  type Tree = map<seq<string>, string>

  /** A file system whose names are all plain names. */
  predicate PlainTree(fs: Tree) {
    forall f | f in fs :: Plain(f)
  }

  /** The template engine, taken as uninterpreted: whether a template text
      compiles, and what a compiled text evaluates to against a dictionary. */
  datatype TemplateEngine = TemplateEngine(compiles: string -> bool, eval: (string, Dict) -> Result<string>)

  /** The Pebble loaders the task builds: one file loader, or a delegating
      loader over file loaders, given here by their prefixes. */
  datatype PebbleLoader = FileLoader(prefix: Dir) | DelegatingLoader(prefixes: seq<Dir>)

  const Disambiguator := "###"
  const PebbleExtension := ".peb"

  // ---------------------------------------------------------------- loaders

  /** What a file loader with the given prefix reads for a template name: the
      file under the prefix at that name, after "." and ".." are resolved. */
  function LoadFile(prefix: Dir, fs: Tree, name: string): Option<string> {
    var p := Normalize(Resolve(AsPath(prefix), Parse(name))).names;
    if p in fs then Some(fs[p]) else None
  }

  /** What a delegating loader reads: the first of its loaders that has the name. */
  function LoadFirst(prefixes: seq<Dir>, fs: Tree, name: string): (r: Option<string>)
    ensures r.Some? <==> exists i :: 0 <= i < |prefixes| && LoadFile(prefixes[i], fs, name).Some?
  {
    if |prefixes| == 0 then None
    else if LoadFile(prefixes[0], fs, name).Some? then LoadFile(prefixes[0], fs, name)
    else
      assert forall i :: 0 < i < |prefixes| ==> prefixes[i] == prefixes[1..][i - 1];
      LoadFirst(prefixes[1..], fs, name)
  }

  function Load(l: PebbleLoader, fs: Tree, name: string): Option<string> {
    match l
    case FileLoader(prefix) => LoadFile(prefix, fs, name)
    case DelegatingLoader(prefixes) => LoadFirst(prefixes, fs, name)
  }

  /** `makeLoader`, as a function of the source directories: none is an
      error, one gives its own loader, several a delegating loader over all
      of them in order. */
  function LoaderFor(sourceDirs: seq<Dir>): Result<PebbleLoader> {
    if |sourceDirs| == 0 then Err(NoSources)
    else if |sourceDirs| == 1 then Ok(FileLoader(sourceDirs[0]))
    else Ok(DelegatingLoader(sourceDirs))
  }

  /** `makeLoader`: a loader per source directory is collected; the loaders
      built for the include directories are never added. */
  method MakeLoader(sourceDirs: seq<Dir>, includeDirs: seq<Dir>) returns (r: Result<PebbleLoader>)
    ensures r == LoaderFor(sourceDirs)
  {
    var loaders: seq<Dir> := [];
    for i := 0 to |sourceDirs|
      invariant loaders == sourceDirs[..i]
    {
      loaders := loaders + [sourceDirs[i]];
    }
    assert sourceDirs[..|sourceDirs|] == sourceDirs;
    if |includeDirs| > 0 {
      for i := 0 to |includeDirs| {
        var includesLoader := FileLoader(includeDirs[i]);
      }
    }
    if |loaders| == 0 {
      r := Err(NoSources);
    } else if |loaders| == 1 {
      r := Ok(FileLoader(loaders[0]));
    } else {
      r := Ok(DelegatingLoader(loaders));
    }
  }

  /** Whatever loader is chosen, a name is read from the first source
      directory holding it, and nothing is read when none does; the include
      directories play no part. */
  lemma LoaderReadsFirstSource(sourceDirs: seq<Dir>, fs: Tree, name: string)
    ensures LoaderFor(sourceDirs).Err? <==> |sourceDirs| == 0
    ensures LoaderFor(sourceDirs).Ok? ==> Load(LoaderFor(sourceDirs).value, fs, name) == LoadFirst(sourceDirs, fs, name)
    ensures LoaderFor(sourceDirs).Ok? ==> (Load(LoaderFor(sourceDirs).value, fs, name).Some?
      <==> exists i :: 0 <= i < |sourceDirs| && LoadFile(sourceDirs[i], fs, name).Some?)
  {
    if |sourceDirs| == 1 {
      assert sourceDirs[1..] == [];
    }
  }

  // ---------------------------------------------------------------- template names

  /** The names, relative to `dir`, of the regular files the walk from `dir`
      visits: those below it, and "" when `dir` is itself a regular file. */
  function DirTemplates(fs: Tree, dir: Dir): set<string> {
    set f | f in fs && dir <= f :: Join(f[|dir|..], "/")
  }

  /** The walk names the source path itself "" exactly when it is a regular
      file; every file strictly below it gets a non-empty name. */
  lemma SourceFileNamedEmpty(fs: Tree, dir: Dir)
    requires PlainTree(fs)
    ensures "" in DirTemplates(fs, dir) <==> dir in fs
  {
    if dir in fs {
      assert dir <= dir && dir[|dir|..] == [];
      assert Join(dir[|dir|..], "/") in DirTemplates(fs, dir);
    }
    if "" in DirTemplates(fs, dir) {
      var f :| f in fs && dir <= f && Join(f[|dir|..], "/") == "";
      if dir < f {
        var rest := f[|dir|..];
        assert rest[0] == f[|dir|] && PlainName(f[|dir|]);
        JoinHead(rest);
        assert false;
      }
      assert f == dir;
    }
  }

  /** The template names of all the source directories, without repeats. */
  function TemplateNames(fs: Tree, dirs: seq<Dir>): (r: set<string>)
    ensures forall t :: t in r <==> exists i :: 0 <= i < |dirs| && t in DirTemplates(fs, dirs[i])
  {
    if |dirs| == 0 then {}
    else
      assert forall i :: 0 < i < |dirs| ==> dirs[i] == dirs[1..][i - 1];
      DirTemplates(fs, dirs[0]) + TemplateNames(fs, dirs[1..])
  }

  /** `collectTemplateNames`: the names each directory walk visits, added to
      one set. */
  method CollectTemplateNames(fs: Tree, sourceDirs: seq<Dir>) returns (names: set<string>)
    ensures names == TemplateNames(fs, sourceDirs)
  {
    names := {};
    for i := 0 to |sourceDirs|
      invariant forall t :: t in names <==> exists k :: 0 <= k < i && t in DirTemplates(fs, sourceDirs[k])
    {
      names := names + DirTemplates(fs, sourceDirs[i]);
    }
  }

  /** Every collected name can be read through the loader: the file it was
      collected from, or a file of the same name in an earlier directory. */
  lemma CollectedNamesLoad(fs: Tree, sourceDirs: seq<Dir>, t: string)
    requires PlainTree(fs) && t in TemplateNames(fs, sourceDirs)
    ensures LoaderFor(sourceDirs).Ok? && Load(LoaderFor(sourceDirs).value, fs, t).Some?
  {
    var i :| 0 <= i < |sourceDirs| && t in DirTemplates(fs, sourceDirs[i]);
    var dir := sourceDirs[i];
    var f :| f in fs && dir <= f && t == Join(f[|dir|..], "/");
    FileUnderDirLoads(fs, dir, f);
    LoaderReadsFirstSource(sourceDirs, fs, t);
  }

  /** A plain file at or below a directory is read back under its relative name. */
  lemma FileUnderDirLoads(fs: Tree, dir: Dir, f: seq<string>)
    requires PlainTree(fs) && f in fs && dir <= f
    ensures LoadFile(dir, fs, Join(f[|dir|..], "/")) == Some(fs[f])
  {
    var rest := f[|dir|..];
    assert Plain(rest) by {
      forall j | 0 <= j < |rest| ensures PlainName(rest[j]) {
        assert rest[j] == f[|dir| + j];
      }
    }
    PlainRoundTrip(rest);
    assert dir + rest == f;
    if |rest| == 0 {
      assert dir == f;
    }
    NormPlainAbsolute(f);
  }

  // ---------------------------------------------------------------- output names and contents

  /** A trailing ".peb" removed, once. */
  function StripPeb(s: string): (r: string)
    ensures EndsWith(s, PebbleExtension) ==> r + PebbleExtension == s
    ensures !EndsWith(s, PebbleExtension) ==> r == s
  {
    if EndsWith(s, PebbleExtension) then s[..|s| - |PebbleExtension|] else s
  }

  /** Removing the extension undoes adding it, and only one is removed. */
  lemma StripPebOnce(x: string)
    ensures StripPeb(x + PebbleExtension) == x
    ensures StripPeb(x + PebbleExtension + PebbleExtension) == x + PebbleExtension
  {
    var y := x + PebbleExtension;
    assert y[|y| - 4..] == PebbleExtension;
    var z := y + PebbleExtension;
    assert z[|z| - 4..] == PebbleExtension;
    assert z[..|z| - 4] == y;
  }

  /** The output name of a template for a dictionary: the template's path,
      behind the "###" prefix, evaluated, with its first three characters
      dropped (failing when there are fewer) and one ".peb" stripped. */
  function OutputName(e: TemplateEngine, template: string, d: Dict): Result<string> {
    var evaluated :- e.eval(Disambiguator + template, d);
    if |evaluated| < |Disambiguator| then Err(IndexOutOfBounds(|Disambiguator|))
    else Ok(StripPeb(evaluated[|Disambiguator|..]))
  }

  /** When the evaluation keeps the prefix, the name is the evaluated rest
      without ".peb"; an engine that drops characters of the prefix makes
      the name lose characters of the path instead. */
  lemma OutputNameOfPrefixedResult(e: TemplateEngine, template: string, d: Dict, rest: string)
    requires e.eval(Disambiguator + template, d) == Ok(Disambiguator + rest)
    ensures OutputName(e, template, d) == Ok(StripPeb(rest))
    ensures EndsWith(rest, PebbleExtension) ==> OutputName(e, template, d).value + PebbleExtension == rest
  {
    assert (Disambiguator + rest)[|Disambiguator|..] == rest;
  }

  /** A result shorter than the prefix fails as `substring(3)` does. */
  lemma ShortNameFails(e: TemplateEngine, template: string, d: Dict)
    requires e.eval(Disambiguator + template, d).Ok? && |e.eval(Disambiguator + template, d).value| < 3
    ensures OutputName(e, template, d) == Err(IndexOutOfBounds(3))
  {
  }

  /** What the header writes before the body: the header and a line
      separator, or nothing. */
  function HeaderPart(header: Option<string>): string {
    match header
    case Some(h) => h + "\n"
    case None => ""
  }

  /** The contents of a written output file. */
  function Content(header: Option<string>, body: string): (c: string)
    ensures header.None? ==> c == body
    ensures header.Some? ==> StartsWith(c, header.value + "\n")
    ensures c[|HeaderPart(header)|..] == body
  {
    HeaderPart(header) + body
  }

  // ---------------------------------------------------------------- the run

  /** What a run sees: the engine, the loader, the file system it reads and
      the header. */
  datatype Env = Env(engine: TemplateEngine, loader: PebbleLoader, fs: Tree, header: Option<string>)

  /** The state of a run: `seenOutputs`, the output tree (output name to
      contents) and whether the run still goes on. */
  datatype Run = Run(seen: set<string>, out: map<string, string>, status: Outcome)

  /** The template behind a name, as `getLiteralTemplate` and `getTemplate`
      prepare it: the "###" literal must compile, and the loader must find a
      text that compiles. */
  function TemplateText(env: Env, t: string): Result<string> {
    if !env.engine.compiles(Disambiguator + t) then Err(Engine(Disambiguator + t))
    else match Load(env.loader, env.fs, t)
      case None => Err(TemplateNotFound(t, ""))
      case Some(text) => if env.engine.compiles(text) then Ok(text) else Err(Engine(t))
  }

  /** The file one template writes for one dictionary, or the first error
      producing it. */
  function Entry(env: Env, t: string, d: Dict): Result<(string, string)> {
    var text :- TemplateText(env, t);
    var name :- OutputName(env.engine, t, d);
    var body :- env.engine.eval(text, d);
    Ok((name, Content(env.header, body)))
  }

  /** One pass of the inner loop: name the output, refuse a name seen before,
      then open the file, write the header and evaluate the body into it. */
  function WriteOne(env: Env, t: string, text: string, d: Dict, st: Run): Run {
    match OutputName(env.engine, t, d)
    case Err(e) => st.(status := Fail(e))
    case Ok(name) =>
      if name in st.seen then st.(status := Fail(DuplicateOutput(name, t)))
      else match env.engine.eval(text, d)
        case Err(e) => Run(st.seen + {name}, st.out[name := HeaderPart(env.header)], Fail(e))
        case Ok(body) => Run(st.seen + {name}, st.out[name := Content(env.header, body)], Pass)
  }

  /** The inner loop over the dictionaries, in iteration order; a failure stops it. */
  function RunVariants(env: Env, t: string, text: string, ds: seq<Dict>, st: Run): Run
    decreases |ds|
  {
    if |ds| == 0 || st.status.Fail? then st
    else RunVariants(env, t, text, ds[1..], WriteOne(env, t, text, ds[0], st))
  }

  function RunTemplate(env: Env, t: string, ds: seq<Dict>, st: Run): Run {
    match TemplateText(env, t)
    case Err(e) => st.(status := Fail(e))
    case Ok(text) => RunVariants(env, t, text, ds, st)
  }

  /** The outer loop over the templates, in iteration order; a failure stops it. */
  function RunTemplates(env: Env, ts: seq<string>, ds: seq<Dict>, st: Run): Run
    decreases |ts|
  {
    if |ts| == 0 || st.status.Fail? then st
    else RunTemplates(env, ts[1..], ds, RunTemplate(env, ts[0], ds, st))
  }

  /** The nested loops, with `seenOutputs` a growing set and the output tree
      a map; each failure ends the run with the files written so far. */
  method EmitOutputs(env: Env, ts: seq<string>, ds: seq<Dict>, outDir: map<string, string>)
    returns (r: Outcome, tree: map<string, string>)
    ensures r == RunTemplates(env, ts, ds, Run({}, outDir, Pass)).status
    ensures tree == RunTemplates(env, ts, ds, Run({}, outDir, Pass)).out
  {
    ghost var spec := RunTemplates(env, ts, ds, Run({}, outDir, Pass));
    var seenOutputs: set<string> := {};
    tree := outDir;
    for i := 0 to |ts|
      invariant spec == RunTemplates(env, ts[i..], ds, Run(seenOutputs, tree, Pass))
    {
      var relativePath := ts[i];
      assert ts[i..][1..] == ts[i + 1..];
      if !env.engine.compiles(Disambiguator + relativePath) {
        return Fail(Engine(Disambiguator + relativePath)), tree;
      }
      var loaded := Load(env.loader, env.fs, relativePath);
      if loaded.None? {
        return Fail(TemplateNotFound(relativePath, "")), tree;
      }
      var template := loaded.value;
      if !env.engine.compiles(template) {
        return Fail(Engine(relativePath)), tree;
      }
      for j := 0 to |ds|
        invariant spec == RunTemplates(env, ts[i + 1..], ds, RunVariants(env, relativePath, template, ds[j..], Run(seenOutputs, tree, Pass)))
      {
        var variant := ds[j];
        assert ds[j..][1..] == ds[j + 1..];
        var st := Run(seenOutputs, tree, Pass);
        var evaluated := env.engine.eval(Disambiguator + relativePath, variant);
        if evaluated.Err? {
          return Fail(evaluated.error), tree;
        }
        if |evaluated.value| < |Disambiguator| {
          return Fail(IndexOutOfBounds(|Disambiguator|)), tree;
        }
        var outputFile := evaluated.value[|Disambiguator|..];
        if EndsWith(outputFile, PebbleExtension) {
          outputFile := outputFile[..|outputFile| - |PebbleExtension|];
        }
        if outputFile in seenOutputs {
          return Fail(DuplicateOutput(outputFile, relativePath)), tree;
        }
        seenOutputs := seenOutputs + {outputFile};
        var body := env.engine.eval(template, variant);
        if body.Err? {
          tree := tree[outputFile := HeaderPart(env.header)];
          return Fail(body.error), tree;
        }
        tree := tree[outputFile := Content(env.header, body.value)];
        assert WriteOne(env, relativePath, template, variant, st) == Run(seenOutputs, tree, Pass);
      }
      assert ds[|ds|..] == [];
    }
    r := Pass;
  }

  // ---------------------------------------------------------------- what a run achieves

  predicate Distinct<X(==)>(s: seq<X>) {
    forall i, j | 0 <= i < j < |s| :: s[i] != s[j]
  }

  function Elems<X>(s: seq<X>): set<X> {
    set x | x in s
  }

  /** Every template prepares and every (template, dictionary) pair yields a file. */
  predicate AllOk(env: Env, templates: set<string>, dicts: set<Dict>) {
    (forall t | t in templates :: TemplateText(env, t).Ok?)
    && (forall t, d | t in templates && d in dicts :: Entry(env, t, d).Ok?)
  }

  /** No two (template, dictionary) pairs are given the same output name. */
  predicate Injective(env: Env, templates: set<string>, dicts: set<Dict>) {
    forall t1, d1, t2, d2 | t1 in templates && d1 in dicts && t2 in templates && d2 in dicts
      && Entry(env, t1, d1).Ok? && Entry(env, t2, d2).Ok? && (t1 != t2 || d1 != d2)
      :: Entry(env, t1, d1).value.0 != Entry(env, t2, d2).value.0
  }

  /** A run succeeds exactly when every file can be produced and the names
      never repeat. */
  predicate Succeeds(env: Env, templates: set<string>, dicts: set<Dict>) {
    AllOk(env, templates, dicts) && Injective(env, templates, dicts)
  }

  /** The names of all the files produced. */
  function OutputNames(env: Env, templates: set<string>, dicts: set<Dict>): set<string> {
    set t, d | t in templates && d in dicts && Entry(env, t, d).Ok? :: Entry(env, t, d).value.0
  }

  /** The output tree after a successful run: the old files, each produced
      file under its name with its contents, and nothing else. */
  ghost predicate Written(env: Env, templates: set<string>, dicts: set<Dict>, outDir: map<string, string>, tree: map<string, string>) {
    tree.Keys == outDir.Keys + OutputNames(env, templates, dicts)
    && (forall t, d | t in templates && d in dicts && Entry(env, t, d).Ok? :: tree[Entry(env, t, d).value.0] == Entry(env, t, d).value.1)
    && (forall n | n in outDir && n !in OutputNames(env, templates, dicts) :: tree[n] == outDir[n])
  }

  /** The files of one template, in the order of the dictionaries. */
  function EntriesFor(env: Env, t: string, ds: seq<Dict>): (es: seq<(string, string)>)
    requires forall d | d in ds :: Entry(env, t, d).Ok?
    ensures |es| == |ds| && forall j | 0 <= j < |ds| :: es[j] == Entry(env, t, ds[j]).value
  {
    if |ds| == 0 then []
    else
      assert forall d | d in ds[1..] :: d in ds;
      [Entry(env, t, ds[0]).value] + EntriesFor(env, t, ds[1..])
  }

  /** The files of the whole run, in the order they are written. */
  function Planned(env: Env, ts: seq<string>, ds: seq<Dict>): seq<(string, string)>
    requires AllOk(env, Elems(ts), Elems(ds))
  {
    if |ts| == 0 then []
    else
      assert forall t | t in ts[1..] :: t in ts;
      EntriesFor(env, ts[0], ds) + Planned(env, ts[1..], ds)
  }

  function Names(es: seq<(string, string)>): (ns: seq<string>)
    ensures |ns| == |es| && forall i | 0 <= i < |es| :: ns[i] == es[i].0
  {
    seq(|es|, i requires 0 <= i < |es| => es[i].0)
  }

  /** None of the names is in `seen` yet. */
  predicate Fresh(ns: seq<string>, seen: set<string>) {
    forall i | 0 <= i < |ns| :: ns[i] !in seen
  }

  /** The entries written into a map one after the other. */
  function PutAll(out: map<string, string>, es: seq<(string, string)>): map<string, string>
    decreases |es|
  {
    if |es| == 0 then out else PutAll(out[es[0].0 := es[0].1], es[1..])
  }

  // ---------------------------------------------------------------- lemmas about the run

  lemma DistinctAppend(a: seq<string>, b: seq<string>)
    ensures Distinct(a + b) <==> Distinct(a) && Distinct(b) && forall i | 0 <= i < |a| :: a[i] !in b
  {
    var ab := a + b;
    if Distinct(a) && Distinct(b) && forall i | 0 <= i < |a| :: a[i] !in b {
      forall i, j | 0 <= i < j < |ab| ensures ab[i] != ab[j] {
        if j < |a| {
        } else if i >= |a| {
          assert ab[i] == b[i - |a|] && ab[j] == b[j - |a|];
        } else {
          assert ab[j] == b[j - |a|];
          assert ab[j] in b;
        }
      }
    }
    if Distinct(ab) {
      forall i, j | 0 <= i < j < |a| ensures a[i] != a[j] {
        assert a[i] == ab[i] && a[j] == ab[j];
      }
      forall i, j | 0 <= i < j < |b| ensures b[i] != b[j] {
        assert b[i] == ab[|a| + i] && b[j] == ab[|a| + j];
      }
      forall i | 0 <= i < |a| ensures a[i] !in b {
        forall k | 0 <= k < |b| ensures b[k] != a[i] {
          assert ab[|a| + k] == b[k] && ab[i] == a[i];
        }
      }
    }
  }

  lemma NamesAppend(a: seq<(string, string)>, b: seq<(string, string)>)
    ensures Names(a + b) == Names(a) + Names(b)
  {
  }

  lemma {:induction false} PutAllAppend(out: map<string, string>, a: seq<(string, string)>, b: seq<(string, string)>)
    ensures PutAll(out, a + b) == PutAll(PutAll(out, a), b)
    decreases |a|
  {
    if |a| > 0 {
      assert (a + b)[1..] == a[1..] + b;
      PutAllAppend(out[a[0].0 := a[0].1], a[1..], b);
    } else {
      assert a + b == b;
    }
  }

  /** Every dictionary yields a file for the template. */
  predicate VariantsOk(env: Env, t: string, ds: seq<Dict>) {
    forall d | d in ds :: Entry(env, t, d).Ok?
  }

  lemma EntriesForCons(env: Env, t: string, ds: seq<Dict>)
    requires |ds| > 0 && VariantsOk(env, t, ds)
    ensures VariantsOk(env, t, ds[1..])
    ensures EntriesFor(env, t, ds) == [Entry(env, t, ds[0]).value] + EntriesFor(env, t, ds[1..])
    ensures Names(EntriesFor(env, t, ds)) == [Entry(env, t, ds[0]).value.0] + Names(EntriesFor(env, t, ds[1..]))
  {
    assert VariantsOk(env, t, ds[1..]) by {
      assert forall d | d in ds[1..] :: d in ds;
    }
    var e := Entry(env, t, ds[0]).value;
    var rest := EntriesFor(env, t, ds[1..]);
    assert EntriesFor(env, t, ds) == [e] + rest;
    NamesAppend([e], rest);
    assert Names([e]) == [e.0];
  }

  /** A name followed by others is new and different from them exactly when
      it is new, and the others are new once it has been seen. */
  lemma ConsFreshDistinct(n: string, ns: seq<string>, seen: set<string>)
    ensures (Distinct([n] + ns) && Fresh([n] + ns, seen)) <==> (n !in seen && Distinct(ns) && Fresh(ns, seen + {n}))
    ensures Elems([n] + ns) == {n} + Elems(ns)
  {
    var all := [n] + ns;
    assert all[0] == n;
    assert forall i | 0 < i < |all| :: all[i] == ns[i - 1];
    if Distinct(all) && Fresh(all, seen) {
      assert n !in seen;
      forall i, j | 0 <= i < j < |ns| ensures ns[i] != ns[j] {
        assert all[i + 1] != all[j + 1];
      }
      forall k | 0 <= k < |ns| ensures ns[k] !in seen + {n} {
        assert all[k + 1] !in seen && all[0] != all[k + 1];
      }
    }
    if n !in seen && Distinct(ns) && Fresh(ns, seen + {n}) {
      forall i, j | 0 <= i < j < |all| ensures all[i] != all[j] {
        if i == 0 {
          assert ns[j - 1] !in seen + {n};
        } else {
          assert all[i] == ns[i - 1] && all[j] == ns[j - 1];
        }
      }
      forall i | 0 <= i < |all| ensures all[i] !in seen {
        if i > 0 {
          assert ns[i - 1] !in seen + {n};
        }
      }
    }
  }

  /** One pass of the inner loop goes on exactly when the pair yields a file
      under a new name, and then it records the name and writes the file. */
  lemma WriteOneSpec(env: Env, t: string, text: string, d: Dict, st: Run)
    requires TemplateText(env, t) == Ok(text) && st.status.Pass?
    ensures WriteOne(env, t, text, d, st).status.Pass? <==> Entry(env, t, d).Ok? && Entry(env, t, d).value.0 !in st.seen
    ensures WriteOne(env, t, text, d, st).status.Pass? ==>
      WriteOne(env, t, text, d, st) == Run(st.seen + {Entry(env, t, d).value.0}, st.out[Entry(env, t, d).value.0 := Entry(env, t, d).value.1], Pass)
  {
  }

  /** The inner loop succeeds exactly when every dictionary yields a file
      and the names are new and pairwise different; it then writes exactly
      those files. */
  lemma {:induction false} RunVariantsSpec(env: Env, t: string, text: string, ds: seq<Dict>, seen: set<string>, out: map<string, string>)
    requires TemplateText(env, t) == Ok(text)
    ensures RunVariants(env, t, text, ds, Run(seen, out, Pass)).status.Pass? <==>
      VariantsOk(env, t, ds) && Distinct(Names(EntriesFor(env, t, ds))) && Fresh(Names(EntriesFor(env, t, ds)), seen)
    ensures RunVariants(env, t, text, ds, Run(seen, out, Pass)).status.Pass? ==>
      (VariantsOk(env, t, ds) && RunVariants(env, t, text, ds, Run(seen, out, Pass)).out == PutAll(out, EntriesFor(env, t, ds))
       && RunVariants(env, t, text, ds, Run(seen, out, Pass)).seen == seen + Elems(Names(EntriesFor(env, t, ds))))
    decreases |ds|
  {
    var st := Run(seen, out, Pass);
    if |ds| == 0 {
      assert Names(EntriesFor(env, t, ds)) == [];
      assert Elems<string>([]) == {};
    } else {
      var st1 := WriteOne(env, t, text, ds[0], st);
      assert RunVariants(env, t, text, ds, st) == RunVariants(env, t, text, ds[1..], st1);
      WriteOneSpec(env, t, text, ds[0], st);
      if st1.status.Fail? {
        assert RunVariants(env, t, text, ds[1..], st1) == st1;
        if VariantsOk(env, t, ds) {
          EntriesForCons(env, t, ds);
          assert Names(EntriesFor(env, t, ds))[0] in seen;
        }
      } else {
        var e := Entry(env, t, ds[0]).value;
        RunVariantsSpec(env, t, text, ds[1..], seen + {e.0}, out[e.0 := e.1]);
        assert VariantsOk(env, t, ds) <==> VariantsOk(env, t, ds[1..]) by {
          assert forall d | d in ds :: d == ds[0] || d in ds[1..];
          assert forall d | d in ds[1..] :: d in ds;
        }
        if VariantsOk(env, t, ds) {
          EntriesForCons(env, t, ds);
          ConsFreshDistinct(e.0, Names(EntriesFor(env, t, ds[1..])), seen);
        }
      }
    }
  }

  /** Two runs of names one after the other are new and pairwise different
      exactly when the first are, and the second are once the first have
      been seen. */
  lemma AppendFreshDistinct(a: seq<string>, b: seq<string>, seen: set<string>)
    ensures (Distinct(a + b) && Fresh(a + b, seen)) <==> (Distinct(a) && Fresh(a, seen) && Distinct(b) && Fresh(b, seen + Elems(a)))
    ensures Elems(a + b) == Elems(a) + Elems(b)
  {
    var ab := a + b;
    DistinctAppend(a, b);
    assert forall i | 0 <= i < |a| :: ab[i] == a[i];
    assert forall k | 0 <= k < |b| :: ab[|a| + k] == b[k];
    assert Fresh(ab, seen) <==> Fresh(a, seen) && Fresh(b, seen) by {
      if Fresh(a, seen) && Fresh(b, seen) {
        forall i | 0 <= i < |ab| ensures ab[i] !in seen {
          if i >= |a| {
            assert ab[i] == b[i - |a|];
          }
        }
      }
    }
    assert (Fresh(b, seen) && forall i | 0 <= i < |a| :: a[i] !in b) <==> Fresh(b, seen + Elems(a)) by {
      if Fresh(b, seen + Elems(a)) {
        forall i | 0 <= i < |a| ensures a[i] !in b {
          forall k | 0 <= k < |b| ensures b[k] != a[i] {
            assert b[k] !in seen + Elems(a);
          }
        }
      }
    }
  }

  /** Every template of the run prepares and yields all its files exactly
      when the first does and the others do. */
  lemma AllOkCons(env: Env, ts: seq<string>, ds: seq<Dict>)
    requires |ts| > 0
    ensures AllOk(env, Elems(ts), Elems(ds)) <==>
      (TemplateText(env, ts[0]).Ok? && VariantsOk(env, ts[0], ds) && AllOk(env, Elems(ts[1..]), Elems(ds)))
  {
    assert Elems(ts) == {ts[0]} + Elems(ts[1..]) by {
      assert forall t | t in ts :: t == ts[0] || t in ts[1..];
    }
  }

  /** The whole run succeeds exactly when every template prepares, every
      pair yields a file, and the names are new and pairwise different; it
      then writes exactly the planned files. */
  lemma {:induction false} RunTemplatesSpec(env: Env, ts: seq<string>, ds: seq<Dict>, seen: set<string>, out: map<string, string>)
    ensures RunTemplates(env, ts, ds, Run(seen, out, Pass)).status.Pass? <==>
      AllOk(env, Elems(ts), Elems(ds)) && Distinct(Names(Planned(env, ts, ds))) && Fresh(Names(Planned(env, ts, ds)), seen)
    ensures RunTemplates(env, ts, ds, Run(seen, out, Pass)).status.Pass? ==>
      (AllOk(env, Elems(ts), Elems(ds)) && RunTemplates(env, ts, ds, Run(seen, out, Pass)).out == PutAll(out, Planned(env, ts, ds))
       && RunTemplates(env, ts, ds, Run(seen, out, Pass)).seen == seen + Elems(Names(Planned(env, ts, ds))))
    decreases |ts|
  {
    var st := Run(seen, out, Pass);
    if |ts| == 0 {
      assert Names(Planned(env, ts, ds)) == [];
      assert Elems<string>([]) == {};
    } else {
      AllOkCons(env, ts, ds);
      var st1 := RunTemplate(env, ts[0], ds, st);
      assert RunTemplates(env, ts, ds, st) == RunTemplates(env, ts[1..], ds, st1);
      match TemplateText(env, ts[0]) {
        case Err(_) =>
          assert RunTemplates(env, ts[1..], ds, st1) == st1;
        case Ok(text) =>
          RunVariantsSpec(env, ts[0], text, ds, seen, out);
          if st1.status.Fail? {
            assert RunTemplates(env, ts[1..], ds, st1) == st1;
            if AllOk(env, Elems(ts), Elems(ds)) {
              var e0 := EntriesFor(env, ts[0], ds);
              var er := Planned(env, ts[1..], ds);
              NamesAppend(e0, er);
              AppendFreshDistinct(Names(e0), Names(er), seen);
            }
          } else {
            var e0 := EntriesFor(env, ts[0], ds);
            RunTemplatesSpec(env, ts[1..], ds, seen + Elems(Names(e0)), PutAll(out, e0));
            if AllOk(env, Elems(ts), Elems(ds)) {
              var er := Planned(env, ts[1..], ds);
              assert Planned(env, ts, ds) == e0 + er;
              NamesAppend(e0, er);
              AppendFreshDistinct(Names(e0), Names(er), seen);
              PutAllAppend(out, e0, er);
            }
          }
      }
    }
  }

  /** The planned files are exactly the files of the pairs. */
  lemma {:induction false} PlannedMember(env: Env, ts: seq<string>, ds: seq<Dict>)
    requires AllOk(env, Elems(ts), Elems(ds))
    ensures forall e :: e in Planned(env, ts, ds) <==> exists t, d :: t in ts && d in ds && Entry(env, t, d) == Ok(e)
    decreases |ts|
  {
    if |ts| > 0 {
      AllOkCons(env, ts, ds);
      PlannedMember(env, ts[1..], ds);
      var e0 := EntriesFor(env, ts[0], ds);
      assert Planned(env, ts, ds) == e0 + Planned(env, ts[1..], ds);
      EntriesForMember(env, ts[0], ds);
      assert forall t | t in ts :: t == ts[0] || t in ts[1..];
    }
  }

  /** The files of one template are exactly the files of its pairs. */
  lemma EntriesForMember(env: Env, t: string, ds: seq<Dict>)
    requires VariantsOk(env, t, ds)
    ensures forall e :: e in EntriesFor(env, t, ds) <==> exists d :: d in ds && Entry(env, t, d) == Ok(e)
  {
    var es := EntriesFor(env, t, ds);
    forall e | e in es ensures exists d :: d in ds && Entry(env, t, d) == Ok(e) {
      var j :| 0 <= j < |es| && es[j] == e;
      assert ds[j] in ds;
    }
    forall e | (exists d :: d in ds && Entry(env, t, d) == Ok(e)) ensures e in es {
      var d :| d in ds && Entry(env, t, d) == Ok(e);
      var j :| 0 <= j < |ds| && ds[j] == d;
      assert es[j] == e;
    }
  }

  /** The names of the planned files are the output names of the pairs. */
  lemma PlannedNames(env: Env, ts: seq<string>, ds: seq<Dict>)
    requires AllOk(env, Elems(ts), Elems(ds))
    ensures Elems(Names(Planned(env, ts, ds))) == OutputNames(env, Elems(ts), Elems(ds))
  {
    var p := Planned(env, ts, ds);
    PlannedMember(env, ts, ds);
    forall n | n in Elems(Names(p)) ensures n in OutputNames(env, Elems(ts), Elems(ds)) {
      var k :| 0 <= k < |p| && Names(p)[k] == n;
      assert p[k] in p;
      var t, d :| t in ts && d in ds && Entry(env, t, d) == Ok(p[k]);
    }
    forall n | n in OutputNames(env, Elems(ts), Elems(ds)) ensures n in Elems(Names(p)) {
      var t, d :| t in ts && d in ds && Entry(env, t, d).Ok? && Entry(env, t, d).value.0 == n;
      var e := Entry(env, t, d).value;
      assert e in p;
      var k :| 0 <= k < |p| && p[k] == e;
      assert Names(p)[k] == n;
    }
  }

  /** With no template or dictionary listed twice, the planned names are
      pairwise different exactly when no two pairs share a name. */
  lemma DistinctIffInjective(env: Env, ts: seq<string>, ds: seq<Dict>)
    requires Distinct(ts) && Distinct(ds) && AllOk(env, Elems(ts), Elems(ds))
    ensures Distinct(Names(Planned(env, ts, ds))) <==> Injective(env, Elems(ts), Elems(ds))
  {
    if Distinct(Names(Planned(env, ts, ds))) {
      DistinctToInjective(env, ts, ds);
    }
    if Injective(env, Elems(ts), Elems(ds)) {
      InjectiveToDistinct(env, ts, ds);
    }
  }

  /** The facts about the first template and the others both directions use. */
  lemma SplitFirst(env: Env, ts: seq<string>, ds: seq<Dict>)
    requires |ts| > 0 && Distinct(ts) && AllOk(env, Elems(ts), Elems(ds))
    ensures Distinct(ts[1..]) && ts[0] !in ts[1..] && AllOk(env, Elems(ts[1..]), Elems(ds))
    ensures forall t | t in ts :: t == ts[0] || t in ts[1..]
    ensures Names(Planned(env, ts, ds)) == Names(EntriesFor(env, ts[0], ds)) + Names(Planned(env, ts[1..], ds))
  {
    var rest := ts[1..];
    AllOkCons(env, ts, ds);
    forall i, j | 0 <= i < j < |rest| ensures rest[i] != rest[j] {
      assert rest[i] == ts[i + 1] && rest[j] == ts[j + 1];
    }
    forall k | 0 <= k < |rest| ensures rest[k] != ts[0] {
      assert rest[k] == ts[k + 1];
    }
    assert forall t | t in ts :: t == ts[0] || t in rest;
    assert Planned(env, ts, ds) == EntriesFor(env, ts[0], ds) + Planned(env, rest, ds);
    NamesAppend(EntriesFor(env, ts[0], ds), Planned(env, rest, ds));
  }

  lemma {:induction false} InjectiveToDistinct(env: Env, ts: seq<string>, ds: seq<Dict>)
    requires Distinct(ts) && Distinct(ds) && AllOk(env, Elems(ts), Elems(ds))
    requires Injective(env, Elems(ts), Elems(ds))
    ensures Distinct(Names(Planned(env, ts, ds)))
    decreases |ts|
  {
    if |ts| > 0 {
      var t0, rest := ts[0], ts[1..];
      SplitFirst(env, ts, ds);
      assert Injective(env, Elems(rest), Elems(ds));
      InjectiveToDistinct(env, rest, ds);
      PlannedMember(env, rest, ds);
      var n0, nr := Names(EntriesFor(env, t0, ds)), Names(Planned(env, rest, ds));
      DistinctAppend(n0, nr);
      FirstNamesDistinct(env, ts, ds);
      FirstNamesFresh(env, ts, ds);
    }
  }

  /** Under `Injective`, the first template's names are pairwise different. */
  lemma FirstNamesDistinct(env: Env, ts: seq<string>, ds: seq<Dict>)
    requires |ts| > 0 && Distinct(ds) && AllOk(env, Elems(ts), Elems(ds))
    requires Injective(env, Elems(ts), Elems(ds))
    ensures VariantsOk(env, ts[0], ds) && Distinct(Names(EntriesFor(env, ts[0], ds)))
  {
    assert ts[0] in Elems(ts);
    var n0 := Names(EntriesFor(env, ts[0], ds));
    forall i, j | 0 <= i < j < |n0| ensures n0[i] != n0[j] {
      assert ds[i] != ds[j];
      assert ds[i] in Elems(ds) && ds[j] in Elems(ds);
    }
  }

  /** Under `Injective`, the first template's names are not among the later
      templates' names. */
  lemma FirstNamesFresh(env: Env, ts: seq<string>, ds: seq<Dict>)
    requires |ts| > 0 && Distinct(ts) && AllOk(env, Elems(ts), Elems(ds))
    requires Injective(env, Elems(ts), Elems(ds))
    ensures VariantsOk(env, ts[0], ds) && AllOk(env, Elems(ts[1..]), Elems(ds))
    ensures forall i | 0 <= i < |ds| :: Names(EntriesFor(env, ts[0], ds))[i] !in Names(Planned(env, ts[1..], ds))
  {
    SplitFirst(env, ts, ds);
    var rest := ts[1..];
    PlannedMember(env, rest, ds);
    var pr := Planned(env, rest, ds);
    var n0, nr := Names(EntriesFor(env, ts[0], ds)), Names(pr);
    forall i | 0 <= i < |n0| ensures n0[i] !in nr {
      forall k | 0 <= k < |nr| ensures nr[k] != n0[i] {
        assert pr[k] in pr;
        var t, d :| t in rest && d in ds && Entry(env, t, d) == Ok(pr[k]);
        assert ds[i] in ds;
      }
    }
  }

  lemma {:induction false} DistinctToInjective(env: Env, ts: seq<string>, ds: seq<Dict>)
    requires Distinct(ts) && Distinct(ds) && AllOk(env, Elems(ts), Elems(ds))
    requires Distinct(Names(Planned(env, ts, ds)))
    ensures Injective(env, Elems(ts), Elems(ds))
    decreases |ts|
  {
    if |ts| > 0 {
      var t0, rest := ts[0], ts[1..];
      SplitFirst(env, ts, ds);
      var n0, nr := Names(EntriesFor(env, t0, ds)), Names(Planned(env, rest, ds));
      DistinctAppend(n0, nr);
      DistinctToInjective(env, rest, ds);
      assert ts == [t0] + rest;
      InjectiveCons(env, t0, rest, ds);
    }
  }

  /** Injectivity over the later templates extends to the first one when
      its names are distinct and absent from the later names. */
  lemma InjectiveCons(env: Env, t0: string, rest: seq<string>, ds: seq<Dict>)
    requires Distinct(ds) && t0 !in rest && AllOk(env, Elems([t0] + rest), Elems(ds))
    requires Distinct(Names(EntriesFor(env, t0, ds)) + Names(Planned(env, rest, ds)))
    requires Injective(env, Elems(rest), Elems(ds))
    ensures Injective(env, Elems([t0] + rest), Elems(ds))
  {
    var ts := [t0] + rest;
    forall t1, d1, t2, d2 | t1 in Elems(ts) && d1 in Elems(ds) && t2 in Elems(ts) && d2 in Elems(ds)
      && Entry(env, t1, d1).Ok? && Entry(env, t2, d2).Ok? && (t1 != t2 || d1 != d2)
      ensures Entry(env, t1, d1).value.0 != Entry(env, t2, d2).value.0
    {
      if t1 == t0 {
        InjectiveStep(env, t0, rest, ds, t1, d1, t2, d2);
      } else if t2 == t0 {
        InjectiveStep(env, t0, rest, ds, t2, d2, t1, d1);
      } else {
        assert t1 in Elems(rest) && t2 in Elems(rest);
      }
    }
  }

  /** The case split behind `DistinctIffInjective`, for one ordered pair of pairs. */
  lemma InjectiveStep(env: Env, t0: string, rest: seq<string>, ds: seq<Dict>, t1: string, d1: Dict, t2: string, d2: Dict)
    requires Distinct(ds) && t0 !in rest && AllOk(env, Elems([t0] + rest), Elems(ds))
    requires Distinct(Names(EntriesFor(env, t0, ds)) + Names(Planned(env, rest, ds)))
    requires t1 in [t0] + rest && d1 in ds && t2 in [t0] + rest && d2 in ds && (t1 != t2 || d1 != d2)
    requires t1 == t0
    ensures Entry(env, t1, d1).value.0 != Entry(env, t2, d2).value.0
  {
    assert forall t | t in [t0] + rest :: t == t0 || t in rest;
    assert forall t | t in rest :: t in [t0] + rest;
    var n0, nr := Names(EntriesFor(env, t0, ds)), Names(Planned(env, rest, ds));
    DistinctAppend(n0, nr);
    var j1 :| 0 <= j1 < |ds| && ds[j1] == d1;
    if t2 == t0 {
      var j2 :| 0 <= j2 < |ds| && ds[j2] == d2;
      assert n0[j1] != n0[j2];
    } else {
      LaterNameAmong(env, rest, ds, t2, d2);
      assert n0[j1] !in nr;
    }
  }

  /** The name of a pair of a later template is among the later names. */
  lemma LaterNameAmong(env: Env, rest: seq<string>, ds: seq<Dict>, t: string, d: Dict)
    requires AllOk(env, Elems(rest), Elems(ds)) && t in rest && d in ds
    ensures Entry(env, t, d).Ok? && Entry(env, t, d).value.0 in Names(Planned(env, rest, ds))
  {
    PlannedMember(env, rest, ds);
    var p := Planned(env, rest, ds);
    var e := Entry(env, t, d).value;
    assert e in p;
    var k :| 0 <= k < |p| && p[k] == e;
    assert Names(p)[k] == e.0;
  }

  /** Entries with pairwise different names, written one after the other:
      each lands under its name, and every other file keeps its contents. */
  lemma {:induction false} PutAllSpec(out: map<string, string>, es: seq<(string, string)>)
    requires Distinct(Names(es))
    ensures PutAll(out, es).Keys == out.Keys + Elems(Names(es))
    ensures forall i | 0 <= i < |es| :: PutAll(out, es)[es[i].0] == es[i].1
    ensures forall n | n in out && n !in Elems(Names(es)) :: PutAll(out, es)[n] == out[n]
    decreases |es|
  {
    if |es| > 0 {
      var e, rest := es[0], es[1..];
      var out1 := out[e.0 := e.1];
      var m := PutAll(out1, rest);
      assert PutAll(out, es) == m;
      var ns, nr := Names(es), Names(rest);
      assert ns == [e.0] + nr;
      ConsFreshDistinct(e.0, nr, {});
      assert Fresh(ns, {});
      assert Distinct(nr) && e.0 !in nr;
      PutAllSpec(out1, rest);
      assert m.Keys == out.Keys + Elems(ns);
      forall i | 0 <= i < |es| ensures m[es[i].0] == es[i].1 {
        if i > 0 {
          assert es[i] == rest[i - 1];
        } else {
          assert e.0 !in Elems(nr);
        }
      }
    } else {
      assert Elems(Names(es)) == {};
    }
  }

  /** Each template contributes one file per dictionary. */
  lemma {:induction false} PlannedLength(env: Env, ts: seq<string>, ds: seq<Dict>)
    requires AllOk(env, Elems(ts), Elems(ds))
    ensures |Planned(env, ts, ds)| == |ts| * |ds|
    decreases |ts|
  {
    if |ts| > 0 {
      AllOkCons(env, ts, ds);
      PlannedLength(env, ts[1..], ds);
      assert |ts| * |ds| == |ds| + (|ts| - 1) * |ds|;
    }
  }

  /** A sequence without repeats has as many distinct elements as entries. */
  lemma {:induction false} DistinctCard<X>(s: seq<X>)
    requires Distinct(s)
    ensures |Elems(s)| == |s|
    decreases |s|
  {
    if |s| > 0 {
      assert Distinct(s[1..]) by {
        forall i, j | 0 <= i < j < |s[1..]| ensures s[1..][i] != s[1..][j] {
          assert s[1..][i] == s[i + 1] && s[1..][j] == s[j + 1];
        }
      }
      DistinctCard(s[1..]);
      assert s[0] !in s[1..] by {
        forall k | 0 <= k < |s[1..]| ensures s[1..][k] != s[0] {
          assert s[1..][k] == s[k + 1];
        }
      }
      assert Elems(s) == {s[0]} + Elems(s[1..]) by {
        assert forall x | x in s :: x == s[0] || x in s[1..];
      }
    } else {
      assert Elems(s) == {};
    }
  }

  /** A run never removes a file or forgets a name, whatever happens. */
  lemma {:induction false} RunGrows(env: Env, ts: seq<string>, ds: seq<Dict>, st: Run)
    ensures st.seen <= RunTemplates(env, ts, ds, st).seen
    ensures st.out.Keys <= RunTemplates(env, ts, ds, st).out.Keys
    decreases |ts|
  {
    if |ts| > 0 && st.status.Pass? {
      var st1 := RunTemplate(env, ts[0], ds, st);
      if TemplateText(env, ts[0]).Ok? {
        VariantsGrow(env, ts[0], TemplateText(env, ts[0]).value, ds, st);
      }
      RunGrows(env, ts[1..], ds, st1);
    }
  }

  lemma {:induction false} VariantsGrow(env: Env, t: string, text: string, ds: seq<Dict>, st: Run)
    ensures st.seen <= RunVariants(env, t, text, ds, st).seen
    ensures st.out.Keys <= RunVariants(env, t, text, ds, st).out.Keys
    decreases |ds|
  {
    if |ds| > 0 && st.status.Pass? {
      VariantsGrow(env, t, text, ds[1..], WriteOne(env, t, text, ds[0], st));
    }
  }

  /** What a run over the templates and the dictionaries, taken in any
      order without repeats, does: it succeeds exactly when every template
      prepares, every pair yields a file and no two pairs share an output
      name; it then leaves exactly the old files and the new ones; and it
      never removes a file. */
  lemma GenerationOutcome(env: Env, ts: seq<string>, ds: seq<Dict>, outDir: map<string, string>)
    requires Distinct(ts) && Distinct(ds)
    ensures RunTemplates(env, ts, ds, Run({}, outDir, Pass)).status.Pass? <==> Succeeds(env, Elems(ts), Elems(ds))
    ensures RunTemplates(env, ts, ds, Run({}, outDir, Pass)).status.Pass? ==>
      Written(env, Elems(ts), Elems(ds), outDir, RunTemplates(env, ts, ds, Run({}, outDir, Pass)).out)
    ensures outDir.Keys <= RunTemplates(env, ts, ds, Run({}, outDir, Pass)).out.Keys
  {
    var r := RunTemplates(env, ts, ds, Run({}, outDir, Pass));
    RunTemplatesSpec(env, ts, ds, {}, outDir);
    RunGrows(env, ts, ds, Run({}, outDir, Pass));
    if AllOk(env, Elems(ts), Elems(ds)) {
      DistinctIffInjective(env, ts, ds);
      if r.status.Pass? {
        PlannedWritten(env, ts, ds, outDir);
      }
    }
  }

  /** Writing the planned files, when their names are distinct, leaves
      exactly the tree `Written` describes. */
  lemma PlannedWritten(env: Env, ts: seq<string>, ds: seq<Dict>, outDir: map<string, string>)
    requires AllOk(env, Elems(ts), Elems(ds)) && Distinct(Names(Planned(env, ts, ds)))
    ensures Written(env, Elems(ts), Elems(ds), outDir, PutAll(outDir, Planned(env, ts, ds)))
  {
    var p := Planned(env, ts, ds);
    var out := PutAll(outDir, p);
    PutAllSpec(outDir, p);
    PlannedNames(env, ts, ds);
    PlannedMember(env, ts, ds);
    forall t, d | t in Elems(ts) && d in Elems(ds) && Entry(env, t, d).Ok?
      ensures out[Entry(env, t, d).value.0] == Entry(env, t, d).value.1
    {
      var e := Entry(env, t, d).value;
      assert e in p;
      var k :| 0 <= k < |p| && p[k] == e;
    }
  }

  /** A successful run writes one file per template and dictionary. */
  lemma OutputCount(env: Env, templates: set<string>, dicts: set<Dict>)
    requires Succeeds(env, templates, dicts)
    ensures |OutputNames(env, templates, dicts)| == |templates| * |dicts|
  {
    var ts := SeqOf(templates);
    var ds := SeqOf(dicts);
    DistinctCard(ts);
    DistinctCard(ds);
    PlannedLength(env, ts, ds);
    DistinctIffInjective(env, ts, ds);
    PlannedNames(env, ts, ds);
    DistinctCard(Names(Planned(env, ts, ds)));
  }

  /** Some order of a finite set's elements, without repeats. */
  ghost function SeqOf<X>(s: set<X>): (r: seq<X>)
    ensures Distinct(r) && Elems(r) == s
    decreases |s|
  {
    if s == {} then []
    else
      var x :| x in s;
      var rest := SeqOf(s - {x});
      ConsNew(x, rest);
      [x] + rest
  }

  /** A new element in front of a sequence without repeats. */
  lemma ConsNew<X>(x: X, rest: seq<X>)
    requires Distinct(rest) && x !in Elems(rest)
    ensures Distinct([x] + rest) && Elems([x] + rest) == {x} + Elems(rest)
  {
    var r := [x] + rest;
    assert forall i | 0 < i < |r| :: r[i] == rest[i - 1];
    assert forall i | 0 <= i < |rest| :: rest[i] in Elems(rest);
    assert forall y | y in r :: y == x || y in rest;
  }

  // ---------------------------------------------------------------- a whole generation

  /** Some iteration order of a set, as a loop over a `HashSet` visits it. */
  method OrderOf<X>(s: set<X>) returns (xs: seq<X>)
    ensures Distinct(xs) && Elems(xs) == s
  {
    xs := [];
    var left := s;
    while left != {}
      invariant Distinct(xs) && Elems(xs) + left == s && Elems(xs) !! left
      decreases |left|
    {
      var x :| x in left;
      assert forall i | 0 <= i < |xs| :: xs[i] in Elems(xs);
      assert forall y | y in xs + [x] :: y in xs || y == x;
      xs := xs + [x];
      left := left - {x};
    }
  }

  /** What `generate` achieves, given the source directories and the
      dictionaries prepared for the set: without a source directory, or when
      preparing fails, it fails with that error and writes nothing; otherwise
      it succeeds exactly when every collected template yields a file for
      every dictionary under a name no other pair yields, and then the tree
      holds the old files and exactly those new ones. */
  ghost predicate Generated(engine: TemplateEngine, fs: Tree, sourceDirs: seq<Dir>, dicts: Result<set<Dict>>,
                            header: Option<string>, outDir: map<string, string>, r: Outcome, tree: map<string, string>)
  {
    match LoaderFor(sourceDirs)
    case Err(e) => r == Fail(e) && tree == outDir
    case Ok(loader) =>
      match dicts
      case Err(e) => r == Fail(e) && tree == outDir
      case Ok(ds) =>
        var env := Env(engine, loader, fs, header);
        var templates := TemplateNames(fs, sourceDirs);
        (r.Pass? <==> Succeeds(env, templates, ds))
        && (r.Pass? ==> Written(env, templates, ds, outDir, tree))
        && outDir.Keys <= tree.Keys
  }

  /** The part of `generate` after the dictionaries are prepared: collect the
      template names, then run the nested loops over both sets. */
  method GenerateFrom(engine: TemplateEngine, fs: Tree, sourceDirs: seq<Dir>, loader: PebbleLoader, dicts: set<Dict>,
                      header: Option<string>, outDir: map<string, string>) returns (r: Outcome, tree: map<string, string>)
    requires LoaderFor(sourceDirs) == Ok(loader)
    ensures Generated(engine, fs, sourceDirs, Ok(dicts), header, outDir, r, tree)
  {
    var availableTemplates := CollectTemplateNames(fs, sourceDirs);
    var ts := OrderOf(availableTemplates);
    var ds := OrderOf(dicts);
    var env := Env(engine, loader, fs, header);
    r, tree := EmitOutputs(env, ts, ds, outDir);
    GenerationOutcome(env, ts, ds, outDir);
  }
}
