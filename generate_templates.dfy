/** The `generate` action of the `GenerateTemplates` task: the loader over
    the set's source directories, the dictionaries the template set
    prepares, then the generation loop. */
module GenerateTemplates {
  import opened Base
  import opened Paths
  import opened DataMerge
  import opened TemplateSetImpl
  import opened Generation

  /** What the task reads: its template set and that set's header, the
      source directories of the templates (in the order of the file
      collection) and the include directories. */
  datatype Task = Task(baseSet: TemplateSet, header: Option<string>, sourceDirs: seq<Dir>, includeDirs: seq<Dir>)

  /** `generate`: fails first on a missing source directory, then on data
      that cannot be prepared, then as the generation loop does. */
  method Generate(task: Task, engine: TemplateEngine, fs: Tree, outDir: map<string, string>)
    returns (r: Outcome, tree: map<string, string>)
    ensures Generated(engine, fs, task.sourceDirs, Prepare(task.baseSet.name, task.baseSet.dataFiles, task.baseSet.properties, task.baseSet.variants),
                      task.header, outDir, r, tree)
  {
    var loader := MakeLoader(task.sourceDirs, task.includeDirs);
    if loader.Err? {
      return Fail(loader.error), outDir;
    }
    var variants := PrepareDataForGeneration(task.baseSet);
    if variants.Err? {
      return Fail(variants.error), outDir;
    }
    r, tree := GenerateFrom(engine, fs, task.sourceDirs, loader.value, variants.value, task.header, outDir);
  }
}
