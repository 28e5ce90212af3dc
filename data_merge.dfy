/** The data-merging algorithm shared by `TemplateSetImpl` (build side) and its
    worker-side copy `PropertyFileIO`: loading data files into a global bucket
    and per-variant buckets, and layering them with in-memory properties into
    the set of parameter dictionaries that templates are evaluated against.
    Both copies are proved equal to the functions of this module. */
module DataMerge {
  import opened Base
  import opened Yaml

  /** One entry of a template set's data-file collection, as the loader meets it. */
  datatype DataFile =
    | NotRegular(path: string)            // a directory or missing path: skipped
    | Unparsable(path: string)            // the YAML parser refuses the text
    | Unreadable(path: string)            // reading the file fails with an IOException
    | Parsed(path: string, doc: Value)    // the document the YAML parser produced

  /** The result of `loadConfig`: the global bucket (Java's null key, absent
      when no file was loaded) and the per-variant buckets by name. */
  datatype Loaded = Loaded(global: Option<Dict>, buckets: map<string, Dict>)

  /** The data of a template set or of one variant: its name, its data files in
      iteration order, and its in-memory properties (`TemplateParams`). */
  datatype TemplateParams = TemplateParams(name: string, files: seq<DataFile>, data: Dict)

  const NothingLoaded := Loaded(None, map[])

  // ---------------------------------------------------------------- loading

  /** `unmarshalData`: merge one parsed document into the buckets loaded so far. */
  function Unmarshal(acc: Loaded, data: Value, useVariants: bool): Result<Loaded> {
    if !data.Mapping? then Err(RootNotMapping)
    else if !useVariants then Ok(Loaded(Some(StringKeys(data.entries)), acc.buckets))
    else
      var rest := RemoveKey(data.entries, VariantsKey);
      match Lookup(data.entries, VariantsKey)
      case None => Ok(Loaded(Some(StringKeys(rest)), acc.buckets))
      case Some(Null) => Ok(Loaded(Some(StringKeys(rest)), acc.buckets))
      case Some(Mapping(ves)) =>
        var buckets :- PutBuckets(acc.buckets, ves);
        Ok(Loaded(Some(StringKeys(rest)), buckets))
      case Some(_) => Err(VariantsNotMapping)
  }

  /** The loop over the entries of `variants`: each mapping value replaces the
      bucket of its name; a null value makes the error message's `getClass()`
      throw a NullPointerException; any other value is refused. */
  function PutBuckets(buckets: map<string, Dict>, ves: seq<(Value, Value)>): Result<map<string, Dict>>
    decreases |ves|
  {
    if |ves| == 0 then Ok(buckets)
    else
      match ves[0].1
      case Mapping(es) => PutBuckets(buckets[Render(ves[0].0) := StringKeys(es)], ves[1..])
      case Null => Err(NullPointer)
      case _ => Err(VariantNotMapping(Render(ves[0].0)))
  }

  /** One iteration of `loadConfig`'s loop. */
  function LoadOne(acc: Loaded, f: DataFile, useVariants: bool): Result<Loaded> {
    match f
    case NotRegular(_) => Ok(acc)
    case Unparsable(p) => Err(InvalidInput(p))
    case Unreadable(p) => Err(LoadFailed(p))
    case Parsed(_, doc) => Unmarshal(acc, doc, useVariants)
  }

  /** `loadConfig`'s loop from a given accumulator. */
  function LoadFrom(acc: Loaded, files: seq<DataFile>, useVariants: bool): Result<Loaded>
    decreases |files|
  {
    if |files| == 0 then Ok(acc)
    else
      var next :- LoadOne(acc, files[0], useVariants);
      LoadFrom(next, files[1..], useVariants)
  }

  /** `loadConfig(files, useVariants)`. */
  function LoadConfig(files: seq<DataFile>, useVariants: bool): Result<Loaded> {
    LoadFrom(NothingLoaded, files, useVariants)
  }

  // ---------------------------------------------------------------- merging

  /** The loaded global bucket, or an empty map when none was loaded. */
  function Globals(cfg: Loaded): Dict {
    match cfg.global
    case None => map[]
    case Some(g) => g
  }

  /** The bucket a data file declared for a variant, or an empty map. */
  function BucketFor(buckets: map<string, Dict>, name: string): Dict {
    if name in buckets then buckets[name] else map[]
  }

  /** One variant's dictionary: the base, then the bucket its set's files
      declare for it, then its own files' globals, then its own properties. */
  function VariantDict(base: Dict, buckets: map<string, Dict>, v: TemplateParams): Result<Dict> {
    var own :- LoadConfig(v.files, false);
    Ok(base + BucketFor(buckets, v.name) + Globals(own) + v.data)
  }

  /** The loop over the variants: the dictionaries so far and the buckets not
      yet claimed by a variant. */
  function VariantsFrom(base: Dict, out: set<Dict>, pending: map<string, Dict>, vs: seq<TemplateParams>)
    : Result<(set<Dict>, map<string, Dict>)>
    decreases |vs|
  {
    if |vs| == 0 then Ok((out, pending))
    else
      var d :- VariantDict(base, pending, vs[0]);
      VariantsFrom(base, out + {d}, pending - {vs[0].name}, vs[1..])
  }

  /** `prepareDataForGeneration`: the set of parameter dictionaries of a
      template set with the given name, data files, properties and variants. */
  function Prepare(setName: string, files: seq<DataFile>, data: Dict, vs: seq<TemplateParams>): Result<set<Dict>> {
    var cfg :- LoadConfig(files, |vs| > 0);
    var base := Globals(cfg) + data;
    if |vs| == 0 then Ok({base})
    else
      var pair :- VariantsFrom(base, {}, cfg.buckets, vs);
      if pair.1 != map[] then Err(UnknownVariants(setName, pair.1.Keys)) else Ok(pair.0)
  }

  // ---------------------------------------------------------------- precedence

  /** Layer `i` is the highest of `layers` that defines `k`. */
  ghost predicate TopLayer(layers: seq<Dict>, k: Key, i: int) {
    0 <= i < |layers| && k in layers[i] && forall j :: i < j < |layers| ==> k !in layers[j]
  }

  /** `d` holds every key of every layer, each with the value of the highest
      layer that defines it: later layers take precedence over earlier ones. */
  ghost predicate Layered(d: Dict, layers: seq<Dict>) {
    && (forall k :: k in d <==> exists i :: 0 <= i < |layers| && k in layers[i])
    && (forall k, i :: k in d && TopLayer(layers, k, i) ==> d[k] == layers[i][k])
  }

  /** The layers put on top of each other with `putAll`, lowest first. */
  function Stack(layers: seq<Dict>): Dict {
    if |layers| == 0 then map[] else Stack(layers[..|layers| - 1]) + layers[|layers| - 1]
  }

  lemma {:induction false} StackLayered(layers: seq<Dict>)
    ensures Layered(Stack(layers), layers)
  {
    if |layers| > 0 {
      var n := |layers| - 1;
      var init := layers[..n];
      StackLayered(init);
      var d := Stack(layers);
      forall k ensures k in d <==> exists i :: 0 <= i < |layers| && k in layers[i] {
        if k in Stack(init) {
          var i :| 0 <= i < |init| && k in init[i];
          assert layers[i] == init[i];
        }
        if exists i :: 0 <= i < |layers| && k in layers[i] {
          var i :| 0 <= i < |layers| && k in layers[i];
          if i < n { assert init[i] == layers[i]; }
        }
      }
      forall k, i | k in d && TopLayer(layers, k, i) ensures d[k] == layers[i][k] {
        if i < n {
          assert k !in layers[n];
          assert init[i] == layers[i];
          assert TopLayer(init, k, i);
        }
      }
    }
  }

  lemma StackSnoc(layers: seq<Dict>, top: Dict)
    ensures Stack(layers + [top]) == Stack(layers) + top
  {
    assert (layers + [top])[..|layers|] == layers;
  }

  /** The stack of four layers, spelled out. */
  lemma StackFour(a: Dict, b: Dict, c: Dict, d: Dict)
    ensures Stack([a, b, c, d]) == a + b + c + d
  {
    assert [a][..0] == [] && map[] + a == a;
    assert Stack([a]) == a;
    assert [a, b][..1] == [a];
    assert Stack([a, b]) == a + b;
    assert [a, b, c][..2] == [a, b];
    assert Stack([a, b, c]) == a + b + c;
    assert [a, b, c, d][..3] == [a, b, c];
  }

  /** The stack of five layers, spelled out. */
  lemma StackFive(a: Dict, b: Dict, c: Dict, d: Dict, e: Dict)
    ensures Stack([a, b, c, d, e]) == a + b + c + d + e
  {
    StackFour(a, b, c, d);
    StackSnoc([a, b, c, d], e);
    assert [a, b, c, d] + [e] == [a, b, c, d, e];
  }

  // ---------------------------------------------------------------- loading lemmas

  /** Loading a list of files is loading its first part, then the rest. */
  lemma {:induction false} LoadFromAppend(acc: Loaded, a: seq<DataFile>, b: seq<DataFile>, useVariants: bool)
    ensures LoadFrom(acc, a + b, useVariants) ==
      match LoadFrom(acc, a, useVariants)
      case Ok(mid) => LoadFrom(mid, b, useVariants)
      case Err(e) => Err(e)
    decreases |a|
  {
    if |a| == 0 {
      assert a + b == b;
    } else {
      assert (a + b)[0] == a[0];
      assert (a + b)[1..] == a[1..] + b;
      match LoadOne(acc, a[0], useVariants)
      case Ok(next) => LoadFromAppend(next, a[1..], b, useVariants);
      case Err(_) =>
    }
  }

  /** A path that is not a regular file contributes nothing. */
  lemma NotRegularSkipped(a: seq<DataFile>, p: string, b: seq<DataFile>, useVariants: bool)
    ensures LoadConfig(a + [NotRegular(p)] + b, useVariants) == LoadConfig(a + b, useVariants)
  {
    LoadFromAppend(NothingLoaded, a, [NotRegular(p)] + b, useVariants);
    assert a + [NotRegular(p)] + b == a + ([NotRegular(p)] + b);
    LoadFromAppend(NothingLoaded, a, b, useVariants);
    match LoadFrom(NothingLoaded, a, useVariants)
    case Ok(mid) =>
      assert ([NotRegular(p)] + b)[1..] == b;
    case Err(_) =>
  }

  /** A document that fails to load makes the whole load fail with its error,
      whatever comes after it. */
  lemma LoadFailsAt(a: seq<DataFile>, f: DataFile, b: seq<DataFile>, useVariants: bool, mid: Loaded, e: Error)
    requires LoadConfig(a, useVariants) == Ok(mid)
    requires LoadOne(mid, f, useVariants) == Err(e)
    ensures LoadConfig(a + [f] + b, useVariants) == Err(e)
  {
    assert a + [f] + b == a + ([f] + b);
    LoadFromAppend(NothingLoaded, a, [f] + b, useVariants);
  }

  /** Each file's global bucket replaces the one before it as a whole: after a
      load ending in a mapping document, the globals are that document's alone. */
  lemma LastFileWins(a: seq<DataFile>, p: string, es: seq<(Value, Value)>, useVariants: bool)
    requires LoadConfig(a + [Parsed(p, Mapping(es))], useVariants).Ok?
    ensures LoadConfig(a + [Parsed(p, Mapping(es))], useVariants).value.global
      == Some(StringKeys(if useVariants then RemoveKey(es, VariantsKey) else es))
  {
    var last := [Parsed(p, Mapping(es))];
    LoadFromAppend(NothingLoaded, a, last, useVariants);
    var mid := LoadFrom(NothingLoaded, a, useVariants).value;
    assert LoadFrom(mid, last, useVariants) == Unmarshal(mid, Mapping(es), useVariants) by {
      assert last[1..] == [];
    }
    UnmarshalGlobal(mid, es, useVariants);
  }

  /** A document that unmarshals supplies the whole global bucket: its
      string-keyed entries, without `variants` when variants are on. */
  lemma UnmarshalGlobal(acc: Loaded, es: seq<(Value, Value)>, useVariants: bool)
    requires Unmarshal(acc, Mapping(es), useVariants).Ok?
    ensures Unmarshal(acc, Mapping(es), useVariants).value.global
      == Some(StringKeys(if useVariants then RemoveKey(es, VariantsKey) else es))
  {
  }

  /** Files loaded without variants never add a variant bucket. */
  lemma {:induction false} NoBucketsWithoutVariants(acc: Loaded, files: seq<DataFile>)
    requires LoadFrom(acc, files, false).Ok?
    ensures LoadFrom(acc, files, false).value.buckets == acc.buckets
    decreases |files|
  {
    if |files| > 0 {
      var next := LoadOne(acc, files[0], false).value;
      NoBucketsWithoutVariants(next, files[1..]);
    }
  }

  /** The `variants` loop succeeds exactly when every value is a mapping,
      and otherwise fails at the first value that is not: a null one with a
      NullPointerException, any other with the refusal naming its key. */
  lemma {:induction false} PutBucketsSpec(buckets: map<string, Dict>, ves: seq<(Value, Value)>)
    ensures PutBuckets(buckets, ves).Ok? <==> forall i | 0 <= i < |ves| :: ves[i].1.Mapping?
    ensures forall i | 0 <= i < |ves| && !ves[i].1.Mapping? && (forall j | 0 <= j < i :: ves[j].1.Mapping?) ::
      PutBuckets(buckets, ves) == (if ves[i].1.Null? then Err(NullPointer) else Err(VariantNotMapping(Render(ves[i].0))))
    decreases |ves|
  {
    if |ves| > 0 && ves[0].1.Mapping? {
      var tail := ves[1..];
      PutBucketsSpec(buckets[Render(ves[0].0) := StringKeys(ves[0].1.entries)], tail);
      assert forall i | 1 <= i < |ves| :: ves[i] == tail[i - 1];
    }
  }

  /** The three shapes a data file may not have, each refused with its
      error: a root that is not a mapping; with variants, a `variants` value
      that is neither a mapping nor null; and the first variant value that
      is not a mapping, whatever its position. A document is accepted only
      when every variant value is a mapping. */
  lemma ShapeErrors(acc: Loaded, data: Value, useVariants: bool)
    ensures !data.Mapping? ==> Unmarshal(acc, data, useVariants) == Err(RootNotMapping)
    ensures data.Mapping? && useVariants && Lookup(data.entries, VariantsKey).Some?
      && !Lookup(data.entries, VariantsKey).value.Mapping? && !Lookup(data.entries, VariantsKey).value.Null?
      ==> Unmarshal(acc, data, useVariants) == Err(VariantsNotMapping)
    ensures (data.Mapping? && useVariants && Lookup(data.entries, VariantsKey).Some?
             && Lookup(data.entries, VariantsKey).value.Mapping?) ==>
      var ves := Lookup(data.entries, VariantsKey).value.entries;
      (Unmarshal(acc, data, useVariants).Ok? <==> forall i | 0 <= i < |ves| :: ves[i].1.Mapping?)
      && forall i | 0 <= i < |ves| && !ves[i].1.Mapping? && (forall j | 0 <= j < i :: ves[j].1.Mapping?) ::
        Unmarshal(acc, data, useVariants) == (if ves[i].1.Null? then Err(NullPointer) else Err(VariantNotMapping(Render(ves[i].0))))
  {
    if data.Mapping? && useVariants && Lookup(data.entries, VariantsKey).Some? && Lookup(data.entries, VariantsKey).value.Mapping? {
      var ves := Lookup(data.entries, VariantsKey).value.entries;
      UnmarshalVariants(acc, data.entries, ves);
      PutBucketsSpec(acc.buckets, ves);
    }
  }

  /** With variants and a mapping under `variants`, a document's outcome is
      that of the `variants` loop. */
  lemma UnmarshalVariants(acc: Loaded, es: seq<(Value, Value)>, ves: seq<(Value, Value)>)
    requires Lookup(es, VariantsKey) == Some(Mapping(ves))
    ensures Unmarshal(acc, Mapping(es), true) == if PutBuckets(acc.buckets, ves).Err? then Err(PutBuckets(acc.buckets, ves).error)
      else Ok(Loaded(Some(StringKeys(RemoveKey(es, VariantsKey))), PutBuckets(acc.buckets, ves).value))
  {
  }

  /** Keys of a parsed mapping that `makeStringKeys` keeps apart. */
  ghost predicate DistinctKeys(es: seq<(Value, Value)>) {
    forall i, j :: 0 <= i < j < |es| ==> KeyOf(es[i].0) != KeyOf(es[j].0)
  }

  /** Without variants, `variants` is an ordinary global key. */
  lemma VariantsKeptWithoutVariants(acc: Loaded, es: seq<(Value, Value)>, i: int)
    requires DistinctKeys(es) && 0 <= i < |es| && es[i].0 == VariantsKey
    ensures Unmarshal(acc, Mapping(es), false).Ok?
    ensures Named("variants") in Unmarshal(acc, Mapping(es), false).value.global.value
    ensures Unmarshal(acc, Mapping(es), false).value.global.value[Named("variants")] == es[i].1
  {
    StringKeysValue(es, i);
  }

  /** With variants, `variants` is taken out of the globals of a document
      whose keys are all strings. */
  lemma VariantsRemovedWithVariants(acc: Loaded, es: seq<(Value, Value)>)
    requires forall e :: e in es ==> e.0.Scalar? && e.0.kind == Str
    requires Unmarshal(acc, Mapping(es), true).Ok?
    ensures Named("variants") !in Unmarshal(acc, Mapping(es), true).value.global.value
  {
    StringKeysKeys(RemoveKey(es, VariantsKey));
  }

  // ---------------------------------------------------------------- merging lemmas

  function NamesOf(vs: seq<TemplateParams>): set<string> {
    set v | v in vs :: v.name
  }

  predicate DistinctNames(vs: seq<TemplateParams>) {
    forall i, j :: 0 <= i < j < |vs| ==> vs[i].name != vs[j].name
  }

  /** Every variant's own files load. */
  predicate AllLoad(vs: seq<TemplateParams>) {
    forall v :: v in vs ==> LoadConfig(v.files, false).Ok?
  }

  /** The dictionaries of the variants, each built against the same buckets. */
  function Dicts(base: Dict, buckets: map<string, Dict>, vs: seq<TemplateParams>): set<Dict> {
    set v | v in vs && VariantDict(base, buckets, v).Ok? :: VariantDict(base, buckets, v).value
  }

  lemma DictsCons(base: Dict, buckets: map<string, Dict>, vs: seq<TemplateParams>, d: Dict)
    requires |vs| > 0 && VariantDict(base, buckets, vs[0]) == Ok(d)
    ensures Dicts(base, buckets, vs) == {d} + Dicts(base, buckets, vs[1..])
  {
    forall v ensures v in vs <==> v == vs[0] || v in vs[1..] {
      if v in vs {
        var i :| 0 <= i < |vs| && vs[i] == v;
        if i > 0 { assert vs[1..][i - 1] == v; }
      }
    }
  }

  /** Removing the bucket of a name no variant has changes no dictionary. */
  lemma DictsIgnoreOtherBucket(base: Dict, buckets: map<string, Dict>, vs: seq<TemplateParams>, name: string)
    requires name !in NamesOf(vs)
    ensures Dicts(base, buckets - {name}, vs) == Dicts(base, buckets, vs)
  {
    forall v | v in vs ensures VariantDict(base, buckets - {name}, v) == VariantDict(base, buckets, v) {
      assert v.name != name;
      assert BucketFor(buckets - {name}, v.name) == BucketFor(buckets, v.name);
    }
  }

  /** What distinct names and loading say about a list and its tail. */
  lemma NamesCons(vs: seq<TemplateParams>)
    requires |vs| > 0 && DistinctNames(vs)
    ensures DistinctNames(vs[1..])
    ensures vs[0].name !in NamesOf(vs[1..])
    ensures NamesOf(vs) == {vs[0].name} + NamesOf(vs[1..])
    ensures AllLoad(vs) <==> LoadConfig(vs[0].files, false).Ok? && AllLoad(vs[1..])
  {
    var tail := vs[1..];
    assert forall v :: v in vs <==> v == vs[0] || v in tail by {
      forall v ensures v in vs <==> v == vs[0] || v in tail {
        if v in vs {
          var i :| 0 <= i < |vs| && vs[i] == v;
          if i > 0 { assert tail[i - 1] == v; }
        }
      }
    }
    forall i, j | 0 <= i < j < |tail| ensures tail[i].name != tail[j].name {
      assert tail[i] == vs[i + 1] && tail[j] == vs[j + 1];
    }
    forall v | v in tail ensures v.name != vs[0].name {
      var i :| 0 <= i < |tail| && tail[i] == v;
      assert vs[i + 1] == v;
    }
  }

  /** The variant loop with distinct names: it succeeds exactly when every
      variant's own files load, adds each variant's dictionary, and leaves the
      buckets no variant claimed. */
  lemma {:induction false} VariantsFromSpec(base: Dict, out: set<Dict>, pending: map<string, Dict>, vs: seq<TemplateParams>)
    requires DistinctNames(vs)
    ensures VariantsFrom(base, out, pending, vs).Ok? <==> AllLoad(vs)
    ensures AllLoad(vs) ==>
      VariantsFrom(base, out, pending, vs) == Ok((out + Dicts(base, pending, vs), pending - NamesOf(vs)))
    decreases |vs|
  {
    if |vs| > 0 {
      NamesCons(vs);
      var v0, tail := vs[0], vs[1..];
      if VariantDict(base, pending, v0).Ok? {
        var d0 := VariantDict(base, pending, v0).value;
        VariantsFromSpec(base, out + {d0}, pending - {v0.name}, tail);
        if AllLoad(vs) {
          DictsIgnoreOtherBucket(base, pending, tail, v0.name);
          DictsCons(base, pending, vs, d0);
          assert out + {d0} + Dicts(base, pending, tail) == out + Dicts(base, pending, vs);
          assert pending - {v0.name} - NamesOf(tail) == pending - NamesOf(vs);
        }
      }
    } else {
      assert Dicts(base, pending, vs) == {};
      assert NamesOf(vs) == {};
      assert pending - {} == pending;
      assert out + {} == out;
    }
  }

  /** The variant loop adds at most one dictionary per variant, and at least one. */
  lemma {:induction false} VariantsFromSize(base: Dict, out: set<Dict>, pending: map<string, Dict>, vs: seq<TemplateParams>)
    requires VariantsFrom(base, out, pending, vs).Ok?
    ensures out <= VariantsFrom(base, out, pending, vs).value.0
    ensures |VariantsFrom(base, out, pending, vs).value.0| <= |out| + |vs|
    ensures |vs| > 0 ==> VariantsFrom(base, out, pending, vs).value.0 != {}
    decreases |vs|
  {
    if |vs| > 0 {
      var d := VariantDict(base, pending, vs[0]).value;
      VariantsFromSize(base, out + {d}, pending - {vs[0].name}, vs[1..]);
      assert |out + {d}| <= |out| + 1;
    }
  }

  /** Without variants there is exactly one dictionary: the loaded globals
      overlaid by the set's properties, which win on every clash. */
  lemma NoVariants(setName: string, files: seq<DataFile>, data: Dict, cfg: Loaded)
    requires LoadConfig(files, false) == Ok(cfg)
    ensures Prepare(setName, files, data, []) == Ok({Stack([Globals(cfg), data])})
    ensures Layered(Stack([Globals(cfg), data]), [Globals(cfg), data])
  {
    StackTwo(Globals(cfg), data);
    StackLayered([Globals(cfg), data]);
  }

  lemma StackTwo(a: Dict, b: Dict)
    ensures Stack([a, b]) == a + b
  {
    StackSnoc([], a);
    assert [] + [a] == [a];
    StackSnoc([a], b);
    assert [a] + [b] == [a, b];
  }

  /** Without variants and without any loaded data file, the one dictionary
      is the set's properties. */
  lemma NoVariantsNoFile(setName: string, files: seq<DataFile>, data: Dict)
    requires forall f :: f in files ==> f.NotRegular?
    ensures Prepare(setName, files, data, []) == Ok({data})
  {
    assert LoadConfig(files, false) == Ok(NothingLoaded) by {
      OnlyNotRegular(NothingLoaded, files);
    }
    assert map[] + data == data;
  }

  lemma {:induction false} OnlyNotRegular(acc: Loaded, files: seq<DataFile>)
    requires forall f :: f in files ==> f.NotRegular?
    ensures LoadFrom(acc, files, false) == Ok(acc)
    decreases |files|
  {
    if |files| > 0 {
      assert files[0] in files;
      assert forall f :: f in files[1..] ==> f in files;
      OnlyNotRegular(acc, files[1..]);
    }
  }

  /** With variants, the set's files loading: the result is a set of
      dictionaries exactly when every variant's files load and every bucket
      the files declare belongs to a declared variant; leftover buckets are
      reported all together; and the dictionaries are the variants' own. */
  lemma PrepareVariants(setName: string, files: seq<DataFile>, data: Dict, vs: seq<TemplateParams>, cfg: Loaded)
    requires |vs| > 0 && DistinctNames(vs)
    requires LoadConfig(files, true) == Ok(cfg)
    ensures Prepare(setName, files, data, vs).Ok? <==> AllLoad(vs) && cfg.buckets.Keys <= NamesOf(vs)
    ensures AllLoad(vs) && cfg.buckets.Keys <= NamesOf(vs) ==>
      Prepare(setName, files, data, vs) == Ok(Dicts(Globals(cfg) + data, cfg.buckets, vs))
    ensures AllLoad(vs) && !(cfg.buckets.Keys <= NamesOf(vs)) ==>
      Prepare(setName, files, data, vs) == Err(UnknownVariants(setName, cfg.buckets.Keys - NamesOf(vs)))
  {
    var base := Globals(cfg) + data;
    VariantsFromSpec(base, {}, cfg.buckets, vs);
    if AllLoad(vs) {
      var left := cfg.buckets - NamesOf(vs);
      assert left.Keys == cfg.buckets.Keys - NamesOf(vs);
      if left == map[] {
        forall k | k in cfg.buckets ensures k in NamesOf(vs) {
          assert k !in left;
        }
      } else {
        var k :| k in left;
        assert k in cfg.buckets.Keys && k !in NamesOf(vs);
      }
      assert {} + Dicts(base, cfg.buckets, vs) == Dicts(base, cfg.buckets, vs);
    }
  }

  /** The precedence ladder: with distinct variant names, the dictionaries
      of the result are exactly the variants' dictionaries, each the stack of
      `VariantLayers` (see `StackLayered` for what a stack keeps). */
  lemma VariantLadder(setName: string, files: seq<DataFile>, data: Dict, vs: seq<TemplateParams>, cfg: Loaded, ds: set<Dict>)
    requires |vs| > 0 && DistinctNames(vs)
    requires LoadConfig(files, true) == Ok(cfg)
    requires Prepare(setName, files, data, vs) == Ok(ds)
    ensures forall d :: d in ds <==> (exists i, own :: IsVariantDict(cfg, data, vs, i, own, d))
  {
    PrepareVariants(setName, files, data, vs, cfg);
    var base := Globals(cfg) + data;
    assert ds == Dicts(base, cfg.buckets, vs);
    forall d ensures d in ds <==> (exists i, own :: IsVariantDict(cfg, data, vs, i, own, d))
    {
      if d in ds {
        var v :| v in vs && VariantDict(base, cfg.buckets, v).Ok? && VariantDict(base, cfg.buckets, v).value == d;
        var i :| 0 <= i < |vs| && vs[i] == v;
        var own := LoadConfig(v.files, false).value;
        VariantDictStack(cfg, data, v, own);
        assert IsVariantDict(cfg, data, vs, i, own, d);
      }
      if (exists i, own :: IsVariantDict(cfg, data, vs, i, own, d)) {
        var i, own :| IsVariantDict(cfg, data, vs, i, own, d);
        VariantDictStack(cfg, data, vs[i], own);
        assert vs[i] in vs;
      }
    }
  }

  lemma VariantDictStack(cfg: Loaded, data: Dict, v: TemplateParams, own: Loaded)
    requires LoadConfig(v.files, false) == Ok(own)
    ensures VariantDict(Globals(cfg) + data, cfg.buckets, v) == Ok(Stack(VariantLayers(cfg, data, v, own)))
  {
    StackFive(Globals(cfg), data, BucketFor(cfg.buckets, v.name), Globals(own), v.data);
  }

  /** The layers of one variant's dictionary, lowest first. */
  function VariantLayers(cfg: Loaded, data: Dict, v: TemplateParams, own: Loaded): seq<Dict> {
    [Globals(cfg), data, BucketFor(cfg.buckets, v.name), Globals(own), v.data]
  }

  /** `d` is the dictionary of the `i`th variant, whose own files loaded to `own`. */
  predicate IsVariantDict(cfg: Loaded, data: Dict, vs: seq<TemplateParams>, i: int, own: Loaded, d: Dict) {
    0 <= i < |vs| && LoadConfig(vs[i].files, false) == Ok(own) && d == Stack(VariantLayers(cfg, data, vs[i], own))
  }

  /** The result holds between one dictionary and one per declared variant:
      variants whose dictionaries are equal collapse into one. */
  lemma ResultSize(setName: string, files: seq<DataFile>, data: Dict, vs: seq<TemplateParams>, ds: set<Dict>)
    requires Prepare(setName, files, data, vs) == Ok(ds)
    ensures 1 <= |ds|
    ensures |vs| > 0 ==> |ds| <= |vs|
  {
    var cfg := LoadConfig(files, |vs| > 0).value;
    if |vs| > 0 {
      VariantsFromSize(Globals(cfg) + data, {}, cfg.buckets, vs);
    }
  }

  /** The order the variants are visited in does not matter: two orders of
      the same distinctly named variants succeed together, and give the same
      result when every variant's files load. */
  lemma PrepareOrderIndependent(setName: string, files: seq<DataFile>, data: Dict, vs1: seq<TemplateParams>, vs2: seq<TemplateParams>)
    requires DistinctNames(vs1) && DistinctNames(vs2)
    requires forall v :: v in vs1 <==> v in vs2
    ensures Prepare(setName, files, data, vs1).Ok? <==> Prepare(setName, files, data, vs2).Ok?
    ensures AllLoad(vs1) ==> Prepare(setName, files, data, vs1) == Prepare(setName, files, data, vs2)
  {
    SameEmptiness(vs1, vs2);
    if |vs1| > 0 && LoadConfig(files, true).Ok? {
      var cfg := LoadConfig(files, true).value;
      PrepareVariants(setName, files, data, vs1, cfg);
      PrepareVariants(setName, files, data, vs2, cfg);
      assert NamesOf(vs1) == NamesOf(vs2);
      assert AllLoad(vs1) <==> AllLoad(vs2);
      assert Dicts(Globals(cfg) + data, cfg.buckets, vs1) == Dicts(Globals(cfg) + data, cfg.buckets, vs2);
    }
  }

  lemma SameEmptiness(vs1: seq<TemplateParams>, vs2: seq<TemplateParams>)
    requires forall v :: v in vs1 <==> v in vs2
    ensures |vs1| == 0 <==> |vs2| == 0
  {
    if |vs1| > 0 {
      assert vs1[0] in vs2;
    }
    if |vs2| > 0 {
      assert vs2[0] in vs1;
    }
  }

  // ---------------------------------------------------------------- examples

  const Fruit: Value := Scalar(Str, "fruit")

  lemma LoadSingle(f: DataFile, useVariants: bool)
    ensures LoadConfig([f], useVariants) == LoadOne(NothingLoaded, f, useVariants)
  {
    assert [f][1..] == [];
    if LoadOne(NothingLoaded, f, useVariants).Ok? {
      var next := LoadOne(NothingLoaded, f, useVariants).value;
      assert LoadFrom(next, [], useVariants) == Ok(next);
    }
  }

  lemma VariantsFromTwo(base: Dict, pending: map<string, Dict>, a: TemplateParams, b: TemplateParams)
    requires VariantDict(base, pending, a).Ok?
    ensures VariantsFrom(base, {}, pending, [a, b]) ==
      var da := VariantDict(base, pending, a).value;
      match VariantDict(base, pending - {a.name}, b)
      case Ok(db) => Ok(({da, db}, pending - {a.name} - {b.name}))
      case Err(e) => Err(e)
  {
    assert [a, b][1..] == [b];
    assert [b][1..] == [];
    var da := VariantDict(base, pending, a).value;
    var none: set<Dict> := {};
    assert none + {da} == {da};
    assert VariantsFrom(base, none, pending, [a, b]) == VariantsFrom(base, none + {da}, pending - {a.name}, [b]);
    assert VariantsFrom(base, {}, pending, [a, b]) == VariantsFrom(base, {da}, pending - {a.name}, [b]);
    if VariantDict(base, pending - {a.name}, b).Ok? {
      var db := VariantDict(base, pending - {a.name}, b).value;
      assert VariantsFrom(base, {da}, pending - {a.name}, [b])
        == VariantsFrom(base, {da} + {db}, pending - {a.name} - {b.name}, []);
      assert {da} + {db} == {da, db};
    }
  }

  /** `{fruit: apple, variants: {A: {fruit: banana}, B: {}}}` with variants A
      and B declared: A sees banana, B sees apple. */
  lemma FruitExample()
    ensures Prepare("main", [Parsed("data.yaml", Mapping([
        (Fruit, Scalar(Str, "apple")),
        (VariantsKey, Mapping([(Scalar(Str, "A"), Mapping([(Fruit, Scalar(Str, "banana"))])),
                               (Scalar(Str, "B"), Mapping([]))]))]))],
        map[], [TemplateParams("A", [], map[]), TemplateParams("B", [], map[])])
      == Ok({map[Named("fruit") := Scalar(Str, "banana")], map[Named("fruit") := Scalar(Str, "apple")]})
  {
    var ves := [(Scalar(Str, "A"), Mapping([(Fruit, Scalar(Str, "banana"))])), (Scalar(Str, "B"), Mapping([]))];
    var es := [(Fruit, Scalar(Str, "apple")), (VariantsKey, Mapping(ves))];
    var f := Parsed("data.yaml", Mapping(es));
    assert es[1..] == [(VariantsKey, Mapping(ves))];
    assert es[1..][1..] == [];
    assert Fruit != VariantsKey by {
      assert Fruit.text[0] != VariantsKey.text[0];
    }
    var rest := RemoveKey(es, VariantsKey);
    assert RemoveKey(es[1..], VariantsKey) == [];
    assert rest == [(Fruit, Scalar(Str, "apple"))];
    assert Lookup(es, VariantsKey) == Some(Mapping(ves));
    var global := map[Named("fruit") := Scalar(Str, "apple")];
    assert StringKeys(rest) == global by {
      assert rest[..0] == [];
    }
    var bucketA := map[Named("fruit") := Scalar(Str, "banana")];
    assert StringKeys([(Fruit, Scalar(Str, "banana"))]) == bucketA by {
      assert [(Fruit, Scalar(Str, "banana"))][..0] == [];
    }
    assert ves[1..] == [(Scalar(Str, "B"), Mapping([]))];
    assert ves[1..][1..] == [];
    var none: Dict := map[];
    var buckets := map["A" := bucketA, "B" := none];
    assert PutBuckets(map[], ves) == PutBuckets(map["A" := bucketA], ves[1..]);
    assert PutBuckets(map["A" := bucketA], ves[1..]) == PutBuckets(buckets, []);
    var cfg := Loaded(Some(global), buckets);
    LoadSingle(f, true);
    assert LoadConfig([f], true) == Ok(cfg);
    var va, vb := TemplateParams("A", [], map[]), TemplateParams("B", [], map[]);
    var base := global + map[];
    assert base == global;
    assert VariantDict(base, buckets, va) == Ok(bucketA) by {
      assert global + bucketA + map[] + map[] == bucketA;
    }
    assert VariantDict(base, buckets - {"A"}, vb) == Ok(global) by {
      assert global + none + map[] + map[] == global;
    }
    VariantsFromTwo(base, buckets, va, vb);
    assert buckets - {"A"} - {"B"} == map[];
  }

  /** Two variants with nothing of their own produce one dictionary, not two. */
  lemma IdenticalVariantsCollapse(props: Dict)
    ensures Prepare("main", [], props, [TemplateParams("A", [], map[]), TemplateParams("B", [], map[])]) == Ok({props})
  {
    var none: map<string, Dict> := map[];
    assert map[] + props == props;
    var va, vb := TemplateParams("A", [], map[]), TemplateParams("B", [], map[]);
    assert VariantDict(props, none, va) == Ok(props) by {
      assert props + map[] + map[] + map[] == props;
    }
    assert VariantDict(props, none - {"A"}, vb) == Ok(props) by {
      assert props + map[] + map[] + map[] == props;
    }
    VariantsFromTwo(props, none, va, vb);
    assert none - {"A"} - {"B"} == map[];
    assert {props, props} == {props};
    assert LoadConfig([], true) == Ok(NothingLoaded);
  }

  /** A bucket for an undeclared variant is refused by name. */
  lemma UnknownVariantExample()
    ensures Prepare("main", [Parsed("data.yaml", Mapping([(VariantsKey, Mapping([(Scalar(Str, "C"), Mapping([]))]))]))],
        map[], [TemplateParams("A", [], map[])])
      == Err(UnknownVariants("main", {"C"}))
  {
    var ves := [(Scalar(Str, "C"), Mapping([]))];
    var es := [(VariantsKey, Mapping(ves))];
    var f := Parsed("data.yaml", Mapping(es));
    assert es[1..] == [] && ves[1..] == [];
    var e: Dict := map[];
    assert StringKeys([]) == e;
    LoadSingle(f, true);
    assert LoadConfig([f], true) == Ok(Loaded(Some(e), map["C" := e]));
    var va := TemplateParams("A", [], map[]);
    assert [va][1..] == [];
    assert (map["C" := e] - {"A"}).Keys == {"C"};
  }

  /** A variant entry with a null value fails with a NullPointerException. */
  lemma NullVariantExample()
    ensures Prepare("main", [Parsed("data.yaml", Mapping([(VariantsKey, Mapping([(Scalar(Str, "A"), Null)]))]))],
        map[], [TemplateParams("A", [], map[])])
      == Err(NullPointer)
  {
    LoadSingle(Parsed("data.yaml", Mapping([(VariantsKey, Mapping([(Scalar(Str, "A"), Null)]))])), true);
  }
}
