/** The worker-side copy of the data-merging algorithm (`PropertyFileIO`),
    working on `TemplateParams` records instead of the Gradle template set.
    Each loop is proved to compute the function of `DataMerge` that specifies
    it, so both copies compute the same dictionaries from the same sequence
    of data files. The worker is handed its files as an unordered set of
    paths, not walked, so that sequence is its own. */
module PropertyFileIO {
  import opened Base
  import opened Yaml
  import opened DataMerge

  /** `makeStringKeys`. */
  method MakeStringKeys(es: seq<(Value, Value)>) returns (ret: Dict)
    ensures ret == StringKeys(es)
  {
    ret := map[];
    for i := 0 to |es|
      invariant ret == StringKeys(es[..i])
    {
      assert es[..i + 1][..i] == es[..i];
      ret := ret[KeyOf(es[i].0) := es[i].1];
    }
    assert es[..|es|] == es;
  }

  /** `unmarshalData`. */
  method UnmarshalData(output: Loaded, data: Value, useVariants: bool) returns (r: Result<Loaded>)
    ensures r == Unmarshal(output, data, useVariants)
  {
    if !data.Mapping? {
      return Err(RootNotMapping);
    }
    var dataMap := data.entries;
    var buckets := output.buckets;
    if useVariants {
      var variants := Lookup(dataMap, VariantsKey);
      dataMap := RemoveKey(dataMap, VariantsKey);
      if variants.Some? && !variants.value.Null? {
        if !variants.value.Mapping? {
          return Err(VariantsNotMapping);
        }
        var ves := variants.value.entries;
        for i := 0 to |ves|
          invariant PutBuckets(output.buckets, ves) == PutBuckets(buckets, ves[i..])
        {
          assert ves[i..][1..] == ves[i + 1..];
          match ves[i].1 {
            case Mapping(es) =>
              var bucket := MakeStringKeys(es);
              buckets := buckets[Render(ves[i].0) := bucket];
            case Null =>
              return Err(NullPointer);
            case _ =>
              return Err(VariantNotMapping(Render(ves[i].0)));
          }
        }
      }
    }
    var global := MakeStringKeys(dataMap);
    r := Ok(Loaded(Some(global), buckets));
  }

  /** `loadConfig`: the paths in the iteration order of their set, skipping
      what is not a regular file. */
  method LoadConfig(files: seq<DataFile>, useVariants: bool) returns (r: Result<Loaded>)
    ensures r == DataMerge.LoadConfig(files, useVariants)
  {
    var templateParams := NothingLoaded;
    for i := 0 to |files|
      invariant DataMerge.LoadConfig(files, useVariants) == LoadFrom(templateParams, files[i..], useVariants)
    {
      assert files[i..][1..] == files[i + 1..];
      match files[i] {
        case NotRegular(_) =>
        case Unparsable(p) => return Err(InvalidInput(p));
        case Unreadable(p) => return Err(LoadFailed(p));
        case Parsed(_, doc) =>
          var next := UnmarshalData(templateParams, doc, useVariants);
          if next.Err? {
            return Err(next.error);
          }
          templateParams := next.value;
      }
    }
    r := Ok(templateParams);
  }

  /** `prepareDataForGeneration(globalParams, variantParams)`, with the
      variant records given in the iteration order of their set (records
      are compared by identity, so two equal-looking records are two
      elements). */
  method PrepareDataForGeneration(globalParams: TemplateParams, variantParams: seq<TemplateParams>)
    returns (r: Result<set<Dict>>)
    ensures r == Prepare(globalParams.name, globalParams.files, globalParams.data, variantParams)
  {
    var loaded := LoadConfig(globalParams.files, |variantParams| > 0);
    if loaded.Err? {
      return Err(loaded.error);
    }
    var configData := loaded.value;
    if |variantParams| == 0 {
      if configData.global.None? {
        assert map[] + globalParams.data == globalParams.data;
        return Ok({globalParams.data});
      }
      return Ok({configData.global.value + globalParams.data});
    }
    var global := if configData.global.None? then globalParams.data else configData.global.value + globalParams.data;
    assert global == Globals(configData) + globalParams.data;
    var pending := configData.buckets;
    var output: set<Dict> := {};
    for i := 0 to |variantParams|
      invariant VariantsFrom(global, {}, configData.buckets, variantParams)
        == VariantsFrom(global, output, pending, variantParams[i..])
    {
      var variant := variantParams[i];
      assert variantParams[i..][1..] == variantParams[i + 1..];
      var variantData := global + BucketFor(pending, variant.name);
      pending := pending - {variant.name};
      var own := LoadConfig(variant.files, false);
      if own.Err? {
        return Err(own.error);
      }
      variantData := variantData + Globals(own.value) + variant.data;
      output := output + {variantData};
    }
    if pending != map[] {
      return Err(UnknownVariants(globalParams.name, pending.Keys));
    }
    r := Ok(output);
  }
}
