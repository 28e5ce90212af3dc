/** The worker copy of `generate` (`GenerateWorkerInvokerImpl`): the same
    loader choice and generation loop, with the dictionaries prepared by the
    worker's own copy of the data merging. */
module GenerateWorkerInvokerImpl {
  import opened Base
  import opened Paths
  import opened DataMerge
  import opened PropertyFileIO
  import opened Generation

  /** `generate`: the variant records in the iteration order of their set,
      the source and include paths in the iteration order of theirs. */
  method Generate(globalParams: TemplateParams, variantParams: seq<TemplateParams>, includePaths: seq<Dir>, sourcePaths: seq<Dir>,
                  header: Option<string>, engine: TemplateEngine, fs: Tree, outDir: map<string, string>)
    returns (r: Outcome, tree: map<string, string>)
    ensures Generated(engine, fs, sourcePaths, Prepare(globalParams.name, globalParams.files, globalParams.data, variantParams),
                      header, outDir, r, tree)
  {
    var loader := MakeLoader(sourcePaths, includePaths);
    if loader.Err? {
      return Fail(loader.error), outDir;
    }
    var variants := PrepareDataForGeneration(globalParams, variantParams);
    if variants.Err? {
      return Fail(variants.error), outDir;
    }
    r, tree := GenerateFrom(engine, fs, sourcePaths, loader.value, variants.value, header, outDir);
  }
}
