/** The build-side copy of the data-merging algorithm (`TemplateSetImpl`):
    the same loops over files, document entries and variants that the Java
    code runs, each proved to compute the function of `DataMerge` that
    specifies it. */
module TemplateSetImpl {
  import opened Base
  import opened Yaml
  import opened DataMerge

  /** A declared variant: its name, data files and in-memory properties. */
  type Variant = TemplateParams

  /** What `prepareDataForGeneration` reads of a template set: its name, its
      data files (in file-tree order), its properties and its variants (in
      container order). */
  datatype TemplateSet = TemplateSet(name: string, dataFiles: seq<DataFile>, properties: Dict, variants: seq<Variant>)

  /** `makeStringKeys`: each entry put in order into a fresh map under its
      string key. */
  method MakeStringKeys(es: seq<(Value, Value)>) returns (ret: Dict)
    ensures ret == StringKeys(es)
  {
    ret := map[];
    var i := 0;
    while i < |es|
      invariant 0 <= i <= |es|
      invariant ret == StringKeys(es[..i])
    {
      ret := ret[KeyOf(es[i].0) := es[i].1];
      i := i + 1;
      assert es[..i][..i - 1] == es[..i - 1];
    }
    assert es[..|es|] == es;
  }

  /** `unmarshalData`: merge one parsed document into the buckets loaded so
      far, or fail on a document of the wrong shape. */
  method UnmarshalData(output: Loaded, data: Value, useVariants: bool) returns (r: Result<Loaded>)
    ensures r == Unmarshal(output, data, useVariants)
  {
    if !data.Mapping? {
      return Err(RootNotMapping);
    }
    var dataMap := data.entries;
    var buckets := output.buckets;
    if useVariants {
      var variants := Lookup(dataMap, VariantsKey);
      dataMap := RemoveKey(dataMap, VariantsKey);
      if variants.Some? && !variants.value.Null? {
        if !variants.value.Mapping? {
          return Err(VariantsNotMapping);
        }
        var ves := variants.value.entries;
        var i := 0;
        while i < |ves|
          invariant 0 <= i <= |ves|
          invariant PutBuckets(output.buckets, ves) == PutBuckets(buckets, ves[i..])
        {
          var (key, value) := ves[i];
          if !value.Mapping? {
            assert ves[i..][1..] == ves[i + 1..];
            if value.Null? {
              return Err(NullPointer);
            }
            return Err(VariantNotMapping(Render(key)));
          }
          var bucket := MakeStringKeys(value.entries);
          assert ves[i..][1..] == ves[i + 1..];
          buckets := buckets[Render(key) := bucket];
          i := i + 1;
        }
      }
    }
    var global := MakeStringKeys(dataMap);
    r := Ok(Loaded(Some(global), buckets));
  }

  /** `loadConfig`: the files in order, skipping what is not a regular file. */
  method LoadConfig(files: seq<DataFile>, useVariants: bool) returns (r: Result<Loaded>)
    ensures r == DataMerge.LoadConfig(files, useVariants)
  {
    var templateParams := NothingLoaded;
    var i := 0;
    while i < |files|
      invariant 0 <= i <= |files|
      invariant DataMerge.LoadConfig(files, useVariants) == LoadFrom(templateParams, files[i..], useVariants)
    {
      assert files[i..][1..] == files[i + 1..];
      match files[i] {
        case NotRegular(_) =>
        case Unparsable(p) => return Err(InvalidInput(p));
        case Unreadable(p) => return Err(LoadFailed(p));
        case Parsed(_, doc) =>
          var next := UnmarshalData(templateParams, doc, useVariants);
          if next.Err? {
            return Err(next.error);
          }
          templateParams := next.value;
      }
      i := i + 1;
    }
    r := Ok(templateParams);
  }

  /** `prepareDataForGeneration`: the set of parameter dictionaries the
      templates of the set are evaluated against. */
  method PrepareDataForGeneration(ts: TemplateSet) returns (r: Result<set<Dict>>)
    ensures r == Prepare(ts.name, ts.dataFiles, ts.properties, ts.variants)
  {
    var loaded := LoadConfig(ts.dataFiles, |ts.variants| > 0);
    if loaded.Err? {
      return Err(loaded.error);
    }
    var configData := loaded.value;
    if |ts.variants| == 0 {
      // without variants: the globals overlaid by the properties
      match configData.global
      case None =>
        assert map[] + ts.properties == ts.properties;
        return Ok({ts.properties});
      case Some(result) =>
        return Ok({result + ts.properties});
    }
    // with variants: the base every variant starts from
    var global := match configData.global case None => ts.properties case Some(g) => g + ts.properties;
    assert global == Globals(configData) + ts.properties;
    var pending := configData.buckets;
    var output: set<Dict> := {};
    var i := 0;
    while i < |ts.variants|
      invariant 0 <= i <= |ts.variants|
      invariant VariantsFrom(global, {}, configData.buckets, ts.variants)
        == VariantsFrom(global, output, pending, ts.variants[i..])
    {
      var variant := ts.variants[i];
      assert ts.variants[i..][1..] == ts.variants[i + 1..];
      var merged := MergeVariant(global, pending, variant);
      if merged.Err? {
        return Err(merged.error);
      }
      var variantData := merged.value;
      output := output + {variantData};
      pending := pending - {variant.name};
      i := i + 1;
    }
    if pending != map[] {
      return Err(UnknownVariants(ts.name, pending.Keys));
    }
    r := Ok(output);
  }

  /** One turn of the variant loop: the base, then the bucket the set's
      files declare for the variant, then the globals of the variant's own
      files, then its properties. */
  method MergeVariant(global: Dict, pending: map<string, Dict>, variant: TemplateParams) returns (r: Result<Dict>)
    ensures r == VariantDict(global, pending, variant)
  {
    // start from the base dictionary
    var variantData := global;
    // claim the bucket the set's files declare for this variant
    if variant.name in pending {
      variantData := variantData + pending[variant.name];
    } else {
      assert variantData + map[] == variantData;
    }
    // overlay the globals of the variant's own files
    var own := LoadConfig(variant.files, false);
    if own.Err? {
      return Err(own.error);
    }
    match own.value.global {
      case Some(g) =>
        variantData := variantData + g;
      case None =>
        assert variantData + map[] == variantData;
    }
    // overlay the variant's properties
    r := Ok(variantData + variant.data);
  }
}
