/** The Gradle work action (`GenerateWorker`) that hands a template set's
    data to the worker copy of `generate`: it builds the global parameter
    record and one record per variant. */
module GenerateWorker {
  import opened Base
  import opened Yaml
  import opened Paths
  import opened DataMerge
  import opened Generation
  import GenerateWorkerInvokerImpl

  /** The work parameters: the set name, its properties (possibly unset) and
      data files, the properties and data files of each variant, the header,
      and the source and include directories. */
  datatype Params = Params(
    setName: string,
    globalParameters: Option<Dict>,
    globalParameterFiles: seq<DataFile>,
    variantParameters: map<string, Dict>,
    variantFiles: map<string, seq<DataFile>>,
    header: Option<string>,
    sourceDirectories: seq<Dir>,
    includesDirectories: seq<Dir>)

  /** A variant's properties: its entry, or an empty map when it has none. */
  function DataFor(variantProperties: map<string, Dict>, name: string): (d: Dict)
    ensures name in variantProperties ==> d == variantProperties[name]
    ensures name !in variantProperties ==> d == map[]
  {
    if name in variantProperties then variantProperties[name] else map[]
  }

  /** The record `toVariantParameters` builds for a variant name. */
  predicate IsVariantRecord(variantFiles: map<string, seq<DataFile>>, variantProperties: map<string, Dict>, p: TemplateParams) {
    p.name in variantFiles && p.files == variantFiles[p.name] && p.data == DataFor(variantProperties, p.name)
  }

  /** `toVariantParameters`: one record per name of the variant-files map,
      holding that variant's files and its properties or an empty map;
      names that only have properties get no record. */
  method ToVariantParameters(variantFiles: map<string, seq<DataFile>>, variantProperties: map<string, Dict>)
    returns (ret: set<TemplateParams>)
    ensures forall p :: p in ret <==> IsVariantRecord(variantFiles, variantProperties, p)
  {
    ret := {};
    var names := variantFiles.Keys;
    while names != {}
      invariant names <= variantFiles.Keys
      invariant forall p :: p in ret <==> IsVariantRecord(variantFiles, variantProperties, p) && p.name !in names
      decreases |names|
    {
      var variantName :| variantName in names;
      ret := ret + {TemplateParams(variantName, variantFiles[variantName], DataFor(variantProperties, variantName))};
      names := names - {variantName};
    }
  }

  /** There are exactly as many variant records as variant names, and no
      two share a name. */
  lemma VariantRecordCount(variantFiles: map<string, seq<DataFile>>, variantProperties: map<string, Dict>, ret: set<TemplateParams>)
    requires forall p :: p in ret <==> IsVariantRecord(variantFiles, variantProperties, p)
    ensures |ret| == |variantFiles.Keys|
    ensures forall p, q | p in ret && q in ret && p.name == q.name :: p == q
  {
    RecordCount(variantFiles, variantProperties, variantFiles.Keys, ret);
  }

  lemma {:induction false} RecordCount(variantFiles: map<string, seq<DataFile>>, variantProperties: map<string, Dict>,
                                       names: set<string>, ret: set<TemplateParams>)
    requires names <= variantFiles.Keys
    requires forall p :: p in ret <==> IsVariantRecord(variantFiles, variantProperties, p) && p.name in names
    ensures |ret| == |names|
    decreases |names|
  {
    if names != {} {
      var n :| n in names;
      var p := TemplateParams(n, variantFiles[n], DataFor(variantProperties, n));
      assert p in ret;
      RecordCount(variantFiles, variantProperties, names - {n}, ret - {p});
    } else {
      assert forall p :: p !in ret;
      assert ret == {};
    }
  }

  /** The global record: the set's name, its data files and its properties,
      an empty map when they are unset. */
  function GlobalParams(params: Params): (g: TemplateParams)
    ensures g.name == params.setName && g.files == params.globalParameterFiles
    ensures params.globalParameters.None? ==> g.data == map[]
    ensures params.globalParameters.Some? ==> g.data == params.globalParameters.value
  {
    TemplateParams(params.setName, params.globalParameterFiles, if params.globalParameters.Some? then params.globalParameters.value else map[])
  }

  /** `execute`: build the records and run the worker's `generate` over the
      variant records in the iteration order of their set. */
  method Execute(params: Params, engine: TemplateEngine, fs: Tree, outDir: map<string, string>)
    returns (r: Outcome, tree: map<string, string>)
    ensures exists vs: seq<TemplateParams> ::
      (forall p :: p in vs <==> IsVariantRecord(params.variantFiles, params.variantParameters, p))
      && DistinctNames(vs)
      && Generated(engine, fs, params.sourceDirectories,
                   Prepare(params.setName, params.globalParameterFiles, GlobalParams(params).data, vs),
                   params.header, outDir, r, tree)
  {
    var globalParams := GlobalParams(params);
    var variantParams := ToVariantParameters(params.variantFiles, params.variantParameters);
    var vs := OrderOf(variantParams);
    assert DistinctNames(vs) by {
      forall i, j | 0 <= i < j < |vs| ensures vs[i].name != vs[j].name {
        assert vs[i] in variantParams && vs[j] in variantParams;
      }
    }
    r, tree := GenerateWorkerInvokerImpl.Generate(globalParams, vs, params.includesDirectories, params.sourceDirectories,
                                                  params.header, engine, fs, outDir);
  }

  /** The order the variant records are visited in does not change whether
      preparing succeeds, nor what it yields when every variant's files load. */
  lemma VariantOrderIrrelevant(params: Params, vs1: seq<TemplateParams>, vs2: seq<TemplateParams>)
    requires forall p :: p in vs1 <==> IsVariantRecord(params.variantFiles, params.variantParameters, p)
    requires forall p :: p in vs2 <==> IsVariantRecord(params.variantFiles, params.variantParameters, p)
    requires DistinctNames(vs1) && DistinctNames(vs2)
    ensures Prepare(params.setName, params.globalParameterFiles, GlobalParams(params).data, vs1).Ok?
        <==> Prepare(params.setName, params.globalParameterFiles, GlobalParams(params).data, vs2).Ok?
    ensures AllLoad(vs1) ==>
      Prepare(params.setName, params.globalParameterFiles, GlobalParams(params).data, vs1) == Prepare(params.setName, params.globalParameterFiles, GlobalParams(params).data, vs2)
  {
    PrepareOrderIndependent(params.setName, params.globalParameterFiles, GlobalParams(params).data, vs1, vs2);
  }
}
