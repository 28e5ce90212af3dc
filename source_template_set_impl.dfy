/** A source template set (`SourceTemplateSetImpl`): once the Blossom
    coordinator has claimed it for a source set and a generate task, one
    language may be chosen, which adds the task's output directory to that
    language's source directories and consumes the claim. */
module SourceTemplateSetImpl {
  import opened Base

  /** What a source set's extension container holds under a name: a source
      directory set, or some other object of the given class. */
  datatype Extension = DirectorySet | OtherObject(className: string)

  /** A Gradle source set: its name and its extensions by name. */
  datatype SourceSet = SourceSet(name: string, extensions: map<string, Extension>)

  /** How a language picks its source directory set out of a source set:
      `SourceSet::getJava`, or the extension of the given name. */
  datatype Lens = JavaLens | NamedLens(extensionName: string)

  /** The source directory set a lens picked. */
  datatype Target = JavaSources | ExtensionSources(extensionName: string)

  /** The effect of a successful application: the generate task's output
      directory becomes a source directory of `target` in `sourceSet`. */
  datatype Registration = Registration(sourceSet: string, target: Target, generateTask: string)

  /** Applying a lens: the Java lens always succeeds; a named lens fails when
      the extension is missing or is not a source directory set. */
  function LensApply(lens: Lens, sourceSet: SourceSet): (r: Result<Target>)
    ensures lens.JavaLens? ==> r == Ok(JavaSources)
    ensures lens.NamedLens? ==>
      (r.Ok? <==> lens.extensionName in sourceSet.extensions && sourceSet.extensions[lens.extensionName].DirectorySet?)
    ensures lens.NamedLens? && lens.extensionName !in sourceSet.extensions ==> r == Err(UnknownExtension(lens.extensionName))
    ensures r.Ok? && lens.NamedLens? ==> r.value == ExtensionSources(lens.extensionName)
  {
    match lens
    case JavaLens => Ok(JavaSources)
    case NamedLens(n) =>
      if n !in sourceSet.extensions then Err(UnknownExtension(n))
      else match sourceSet.extensions[n]
        case DirectorySet => Ok(ExtensionSources(n))
        case OtherObject(c) => Err(NotSourceDirectorySet(n, sourceSet.name, c))
  }

  /** One application of `lens` to a claim (`dest0`, `task0`), giving `r`
      and the claim (`dest1`, `task1`) afterwards: without a complete claim
      it fails with `NotClaimed` and changes nothing; when the lens fails
      its error is reported and the claim stays; otherwise the claim is
      consumed and the registration reported. */
  predicate Applied(lens: Lens, dest0: Option<SourceSet>, task0: Option<string>, r: Result<Registration>,
                    dest1: Option<SourceSet>, task1: Option<string>)
  {
    if dest0.None? || task0.None? then
      r == Err(NotClaimed) && dest1 == dest0 && task1 == task0
    else
      match LensApply(lens, dest0.value)
      case Err(e) => r == Err(e) && dest1 == dest0 && task1 == task0
      case Ok(target) =>
        r == Ok(Registration(dest0.value.name, target, task0.value)) && dest1.None? && task1.None?
  }

  class SourceTemplateSet {
    const name: string
    var pendingDestination: Option<SourceSet>
    var pendingGenerateTask: Option<string>

    constructor(name: string)
      ensures this.name == name
      ensures pendingDestination.None? && pendingGenerateTask.None?
    {
      this.name := name;
      pendingDestination := None;
      pendingGenerateTask := None;
    }

    /** `resolveOutputDirectory`: the `sources/blossom-<name>` directory
        under the generated-sources directory, as path segments. */
    function ResolveOutputDirectory(generatedDir: seq<string>): (d: seq<string>)
      ensures |d| == |generatedDir| + 2 && d[..|generatedDir|] == generatedDir
      ensures d[|generatedDir|] == "sources" && d[|generatedDir| + 1] == "blossom-" + name
    {
      generatedDir + ["sources", "blossom-" + name]
    }

    /** `registerOutputWithSet`: remember the destination and the task. */
    method RegisterOutputWithSet(destination: SourceSet, generateTask: string)
      modifies this
      ensures pendingDestination == Some(destination) && pendingGenerateTask == Some(generateTask)
    {
      pendingDestination := Some(destination);
      pendingGenerateTask := Some(generateTask);
    }

    /** `applySourceLens`: the claim is checked first and cleared only
        after the lens has succeeded. */
    method ApplySourceLens(lens: Lens) returns (r: Result<Registration>)
      modifies this
      ensures Applied(lens, old(pendingDestination), old(pendingGenerateTask), r, pendingDestination, pendingGenerateTask)
    {
      if pendingDestination.None? || pendingGenerateTask.None? {
        return Err(NotClaimed);
      }
      var target := LensApply(lens, pendingDestination.value);
      if target.Err? {
        return Err(target.error);
      }
      r := Ok(Registration(pendingDestination.value.name, target.value, pendingGenerateTask.value));
      pendingDestination := None;
      pendingGenerateTask := None;
    }

    /** `java`: the Java source directories of the claimed source set. */
    method Java() returns (r: Result<Registration>)
      modifies this
      ensures Applied(JavaLens, old(pendingDestination), old(pendingGenerateTask), r, pendingDestination, pendingGenerateTask)
    {
      r := ApplySourceLens(JavaLens);
    }

    /** `namedLanguageExtension`: the source directories held by the
        extension of that name. */
    method NamedLanguageExtension(extensionName: string) returns (r: Result<Registration>)
      modifies this
      ensures Applied(NamedLens(extensionName), old(pendingDestination), old(pendingGenerateTask), r,
                      pendingDestination, pendingGenerateTask)
    {
      r := ApplySourceLens(NamedLens(extensionName));
    }
  }

  /** Sets of different names generate into different directories. */
  lemma OutputDirectoriesDistinct(a: SourceTemplateSet, b: SourceTemplateSet, generatedDir: seq<string>)
    requires a.name != b.name
    ensures a.ResolveOutputDirectory(generatedDir) != b.ResolveOutputDirectory(generatedDir)
  {
    var n := |generatedDir|;
    var da, db := a.ResolveOutputDirectory(generatedDir), b.ResolveOutputDirectory(generatedDir);
    assert da[n + 1][8..] == a.name;
    assert db[n + 1][8..] == b.name;
  }

  /** Right after a registration, the Java language is always accepted and
      registers the claimed task for the claimed source set. */
  lemma JavaAfterRegistration(dest: SourceSet, task: string, r: Result<Registration>,
                              dest1: Option<SourceSet>, task1: Option<string>)
    requires Applied(JavaLens, Some(dest), Some(task), r, dest1, task1)
    ensures r == Ok(Registration(dest.name, JavaSources, task))
    ensures dest1.None? && task1.None?
  {
  }

  /** A claim is consumed at most once: after a successful application, a
      second one without a new registration fails with `NotClaimed`. */
  lemma SecondLanguageRefused(l1: Lens, l2: Lens, dest0: Option<SourceSet>, task0: Option<string>,
                              r1: Result<Registration>, dest1: Option<SourceSet>, task1: Option<string>,
                              r2: Result<Registration>, dest2: Option<SourceSet>, task2: Option<string>)
    requires Applied(l1, dest0, task0, r1, dest1, task1)
    requires Applied(l2, dest1, task1, r2, dest2, task2)
    requires r1.Ok?
    ensures r2 == Err(NotClaimed) && dest2.None? && task2.None?
  {
  }

  /** A failing lens leaves the claim in place, so a later application with
      a lens that succeeds still registers the original claim. */
  lemma FailedLensKeepsClaim(l1: Lens, l2: Lens, dest0: Option<SourceSet>, task0: Option<string>,
                             r1: Result<Registration>, dest1: Option<SourceSet>, task1: Option<string>,
                             r2: Result<Registration>, dest2: Option<SourceSet>, task2: Option<string>)
    requires Applied(l1, dest0, task0, r1, dest1, task1)
    requires Applied(l2, dest1, task1, r2, dest2, task2)
    requires r1.Err? && r1 != Err(NotClaimed)
    requires dest0.Some? && LensApply(l2, dest0.value).Ok?
    ensures dest1 == dest0 && task1 == task0
    ensures r2 == Ok(Registration(dest0.value.name, LensApply(l2, dest0.value).value, task0.value))
  {
  }
}
