# Blossom, modelled in Dafny

Blossom is a Gradle plugin that generates source files from Pebble
templates and, in its older releases, replaces tokens in source files.
This project models the plugin's core and proves properties of that model:

- **Template data.** A template set's parameter dictionaries come from its
  YAML data files, its in-memory properties and its variants
  (`prepareDataForGeneration`, `loadConfig`, `unmarshalData`,
  `makeStringKeys`). The main-classpath copy is `TemplateSetImpl`. The worker
  copy is `PropertyFileIO`.
- **Generation.** The `generate` action walks the source directories for
  template names. It renders each template once per dictionary, names the
  output by rendering the template's path, refuses an output name that was
  already written, and writes the file with an optional header line. It
  exists as the `GenerateTemplates` task and as the worker-side
  `GenerateWorkerInvokerImpl`, reached through `GenerateWorker`.
- **Template lookup.** `MultiDirectoryLoader` searches several template
  directories and guards against escaping them.
- **Source sets.** `SourceTemplateSetImpl` attaches a template set's output
  directory to a source set's language.
- **Token replacement.** The legacy `SourceReplacementTask` and its two
  `BlossomExtension` front ends (packages `ninja.miserable.blossom` and
  `net.ellune.blossom`).
- **Display names.** The test suite's display-name rule.

Module layout:

- `base.dfy`: the exceptions as an `Error` datatype, `Result`/`Outcome`, and
  the Java string operations.
- `yaml.dfy`: parsed YAML nodes.
- `paths.dfy`: `java.nio.file.Path`'s `resolve`, `relativize`, `normalize`
  and `toString` on Unix paths.
- `data_merge.dfy`: the data-merging specification.
- `template_set_impl.dfy`, `property_file_io.dfy`: the two imperative copies
  of that logic, each loop proved to compute the specification.
- `generation.dfy`: the shared generation loops and their specification.
- `generate_templates.dfy`, `generate_worker_invoker_impl.dfy`,
  `generate_worker.dfy`: the two generate entry points and the work action.
- `multi_directory_loader.dfy`: the multi-directory loader.
- `source_template_set_impl.dfy`: source-set attachment.
- `source_replacement_task.dfy`, `blossom_extension.dfy`: token replacement.
- `display_name.dfy`: the test display-name rule.

Hash-ordered collections get their own treatment. Java iterates a `HashSet`
or `HashMap` in an order the program does not control, so the model takes
that order as an input: `Generation.OrderOf`, or the `globalOrder` and
`fileOrders` parameters of `SourceReplacementTask.Run`. It then proves that
the outcome is the same for every order where the plugin relies on that.

Two consequences of the code are worth knowing:

- Each data file's global bucket replaces the previous one as a whole
  (`output.put(null, …)` in `unmarshalData`); nothing is merged key by key
  across files. See `DataMerge.LastFileWins`.
- Variant dictionaries that come out equal collapse into one element of the
  result set. See `DataMerge.IdenticalVariantsCollapse`.

## Model

| member | source | states |
|---|---|---|
| Strings.ReplaceChar | src/main/java/net/kyori/blossom/task/SourceReplacementTask.java:135 | `replace('\\', '/')`: same length; every occurrence of the old character becomes the new one, and every other character stays |
| Strings.ReplaceAllAbsent | src/main/java/net/kyori/blossom/task/SourceReplacementTask.java:99-114 | Replacing a quoted token that does not occur leaves the text unchanged |
| Strings.ReplaceAllSelf | src/main/java/net/kyori/blossom/task/SourceReplacementTask.java:99-114 | Replacing a token by itself leaves the text unchanged |
| Strings.InsertNothing | src/main/java/net/kyori/blossom/task/SourceReplacementTask.java:135 | Replacing the empty project path by "" leaves the path unchanged |
| Strings.InsertEverywhereLength | src/main/java/net/kyori/blossom/task/SourceReplacementTask.java:135 | Replacing the empty string inserts the replacement in \|s\|+1 places |
| Yaml.Lookup | src/main/java/net/kyori/blossom/internal/TemplateSetImpl.java:184 | `Map.get` on a parsed mapping finds a value exactly when some entry has the key, and the value belongs to such an entry |
| Yaml.RemoveKey | src/main/java/net/kyori/blossom/internal/TemplateSetImpl.java:184 | `Map.remove` keeps exactly the entries with a different key |
| Yaml.StringKeysKeys | src/main/java/net/kyori/blossom/internal/TemplateSetImpl.java:202-208 | `makeStringKeys` has exactly the stringified keys of the entries (null stays null) |
| Yaml.StringKeysValue | src/main/java/net/kyori/blossom/internal/TemplateSetImpl.java:202-208 | An entry whose stringified key no later entry repeats keeps its value |
| Paths.Resolve | src/workerClasspath/java/net/kyori/blossom/internal/worker/MultiDirectoryLoader.java:60 | `resolve`: an absolute operand is returned as is; a non-empty relative one is appended to the base's names |
| Paths.CommonPrefix | src/workerClasspath/java/net/kyori/blossom/internal/worker/MultiDirectoryLoader.java:63 | The longest common prefix that `relativize` climbs to: both sides agree below it and differ at it |
| Paths.Relativize | src/workerClasspath/java/net/kyori/blossom/internal/worker/MultiDirectoryLoader.java:63 | `relativize` of two absolute paths is relative |
| Paths.PlainRoundTrip | src/workerClasspath/java/net/kyori/blossom/internal/worker/MultiDirectoryLoader.java:60-63 | A name made of plain names, none included, parses into those names and prints back as the same string |
| Paths.RelativizeResolvePlain | src/workerClasspath/java/net/kyori/blossom/internal/worker/MultiDirectoryLoader.java:60-63 | Relativizing the resolution of plain names against a directory gives the names back |
| Paths.ResolveRelativize | src/workerClasspath/java/net/kyori/blossom/internal/worker/MultiDirectoryLoader.java:60-63 | Resolving `dir.relativize(p)` against `dir` gives `p` back, up to normalisation |
| DataMerge.StackLayered | src/main/java/net/kyori/blossom/internal/TemplateSetImpl.java:126-141 | Dictionaries put on top of each other with `putAll` hold every key of every layer, with the value of the highest layer that defines it |
| DataMerge.StackSnoc | src/main/java/net/kyori/blossom/internal/TemplateSetImpl.java:126-141 | One more `putAll` puts one more layer on top |
| DataMerge.LoadFromAppend | src/main/java/net/kyori/blossom/internal/TemplateSetImpl.java:161-173 | Loading a list of files is loading its first part, then the rest from that state |
| DataMerge.NotRegularSkipped | src/main/java/net/kyori/blossom/internal/TemplateSetImpl.java:162-164 | A path that is not a regular file contributes nothing |
| DataMerge.LoadFailsAt | src/main/java/net/kyori/blossom/internal/TemplateSetImpl.java:165-172 | A file that fails to load aborts the whole load with its error, whatever follows |
| DataMerge.LastFileWins | src/main/java/net/kyori/blossom/internal/TemplateSetImpl.java:199 | The global bucket after loading is the last parsed file's entries alone (without `variants` when variants are used) |
| DataMerge.UnmarshalGlobal | src/main/java/net/kyori/blossom/internal/TemplateSetImpl.java:177-199 | A document that unmarshals becomes the whole global bucket: its string-keyed entries, without `variants` when variants are used |
| DataMerge.NoBucketsWithoutVariants | src/main/java/net/kyori/blossom/internal/TemplateSetImpl.java:183-197 | Files loaded without variants never add a variant bucket |
| DataMerge.PutBucketsSpec | src/main/java/net/kyori/blossom/internal/TemplateSetImpl.java:190-195 | The `variants` loop succeeds exactly when every value is a mapping; otherwise it fails at the first value that is not: an NPE for null, the refusal naming its key for anything else |
| DataMerge.ShapeErrors | src/main/java/net/kyori/blossom/internal/TemplateSetImpl.java:177-195 | A non-mapping root and a non-mapping, non-null `variants` value are refused with their own exceptions; a document is accepted only when every variant value is a mapping, and the first one that is not, at any position, decides the error (NPE for null, otherwise the refusal naming its key) |
| DataMerge.UnmarshalVariants | src/main/java/net/kyori/blossom/internal/TemplateSetImpl.java:183-199 | With variants and a mapping under `variants`, a document fails exactly as the `variants` loop does, and otherwise yields the loop's buckets and the document's other keys as globals |
| DataMerge.VariantsKeptWithoutVariants | src/main/java/net/kyori/blossom/internal/TemplateSetImpl.java:183-199 | Without variants, `variants` stays an ordinary global key with its value |
| DataMerge.VariantsRemovedWithVariants | src/main/java/net/kyori/blossom/internal/TemplateSetImpl.java:184 | With variants, `variants` is taken out of the document's globals |
| DataMerge.DictsCons | src/main/java/net/kyori/blossom/internal/TemplateSetImpl.java:124-144 | The dictionaries of a list of variants are the first one's and those of the rest |
| DataMerge.DictsIgnoreOtherBucket | src/main/java/net/kyori/blossom/internal/TemplateSetImpl.java:129 | Removing the bucket of a name no variant has changes no dictionary |
| DataMerge.NamesCons | src/main/java/net/kyori/blossom/internal/TemplateSetImpl.java:124 | Distinct names and loading split between a variant list's head and its tail |
| DataMerge.VariantsFromSpec | src/main/java/net/kyori/blossom/internal/TemplateSetImpl.java:124-144 | The variant loop succeeds exactly when every variant's files load; it then adds one dictionary per variant and consumes exactly their buckets |
| DataMerge.VariantsFromSize | src/main/java/net/kyori/blossom/internal/TemplateSetImpl.java:124-144 | The loop keeps the earlier dictionaries and adds at least one and at most one per variant |
| DataMerge.NoVariants | src/main/java/net/kyori/blossom/internal/TemplateSetImpl.java:105-113 | Without variants the result is the single dictionary of loaded globals overlaid by the properties |
| DataMerge.NoVariantsNoFile | src/main/java/net/kyori/blossom/internal/TemplateSetImpl.java:107-109 | Without variants and without loaded data, the result is the properties alone |
| DataMerge.PrepareVariants | src/main/java/net/kyori/blossom/internal/TemplateSetImpl.java:114-150 | With variants: success exactly when every variant loads and no bucket names an undeclared variant; otherwise the load error, or the unknown-variants error naming the leftover buckets |
| DataMerge.VariantLadder | src/main/java/net/kyori/blossom/internal/TemplateSetImpl.java:116-143 | Each result dictionary is the stack of file globals, set properties, the variant's bucket, the variant's own files and the variant's properties, and every variant has one |
| DataMerge.VariantDictStack | src/main/java/net/kyori/blossom/internal/TemplateSetImpl.java:126-141 | One variant's dictionary is its five layers stacked in that order |
| DataMerge.ResultSize | src/main/java/net/kyori/blossom/internal/TemplateSetImpl.java:102-151 | A successful result holds at least one dictionary and, with variants, at most one per variant |
| DataMerge.PrepareOrderIndependent | src/main/java/net/kyori/blossom/internal/TemplateSetImpl.java:124-148 | The order the variants are visited in changes neither success nor the result |
| DataMerge.FruitExample | src/main/java/net/kyori/blossom/internal/TemplateSetImpl.java:102-151 | A file `{fruit: apple, variants: {A: {fruit: banana}, B: {}}}` yields `{fruit: banana}` and `{fruit: apple}` |
| DataMerge.IdenticalVariantsCollapse | src/main/java/net/kyori/blossom/internal/TemplateSetImpl.java:122-143 | Two variants with nothing of their own give one dictionary |
| DataMerge.UnknownVariantExample | src/main/java/net/kyori/blossom/internal/TemplateSetImpl.java:146-148 | A bucket for an undeclared variant is refused, naming it |
| DataMerge.NullVariantExample | src/main/java/net/kyori/blossom/internal/TemplateSetImpl.java:191-192 | A variant entry with a null value fails with a NullPointerException |
| TemplateSetImpl.MakeStringKeys | src/main/java/net/kyori/blossom/internal/TemplateSetImpl.java:202-208 | The loop builds the string-keyed map of the entries |
| TemplateSetImpl.UnmarshalData | src/main/java/net/kyori/blossom/internal/TemplateSetImpl.java:177-200 | The method computes the specified merge of one document, errors included |
| TemplateSetImpl.LoadConfig | src/main/java/net/kyori/blossom/internal/TemplateSetImpl.java:154-175 | The file loop computes the specified load |
| TemplateSetImpl.PrepareDataForGeneration | src/main/java/net/kyori/blossom/internal/TemplateSetImpl.java:102-152 | The method returns the specified set of dictionaries or error |
| TemplateSetImpl.MergeVariant | src/main/java/net/kyori/blossom/internal/TemplateSetImpl.java:126-141 | One turn of the variant loop computes that variant's specified dictionary |
| PropertyFileIO.MakeStringKeys | src/workerClasspath/java/net/kyori/blossom/internal/worker/PropertyFileIO.java:147-153 | As in the main copy: the string-keyed map of the entries |
| PropertyFileIO.UnmarshalData | src/workerClasspath/java/net/kyori/blossom/internal/worker/PropertyFileIO.java:122-145 | The worker copy computes the same merge of one document as the main copy |
| PropertyFileIO.LoadConfig | src/workerClasspath/java/net/kyori/blossom/internal/worker/PropertyFileIO.java:99-120 | The worker's file loop computes the same load as the main copy's, for the same sequence of files |
| PropertyFileIO.PrepareDataForGeneration | src/workerClasspath/java/net/kyori/blossom/internal/worker/PropertyFileIO.java:45-97 | The worker's preparation computes the same function as the main copy, of the same file sequences and variant records |
| Generation.LoadFirst | src/main/java/net/kyori/blossom/GenerateTemplates.java:133-137 | A delegating loader finds a name exactly when one of its file loaders does |
| Generation.MakeLoader | src/main/java/net/kyori/blossom/GenerateTemplates.java:118-138 | No source directory fails; one gives a file loader; several give a delegating loader (include directories add none) |
| Generation.LoaderReadsFirstSource | src/main/java/net/kyori/blossom/GenerateTemplates.java:118-138 | Whichever loader is built, a name is read from the first source directory holding it |
| Generation.SourceFileNamedEmpty | src/main/java/net/kyori/blossom/GenerateTemplates.java:145-155 | A walk from a source path that is itself a regular file visits it and names it "", and only then is "" a name; files below get non-empty names |
| Generation.TemplateNames | src/main/java/net/kyori/blossom/GenerateTemplates.java:140-165 | The template names are exactly the relative names of the regular files at or below some source directory ("" for a source path that is a file) |
| Generation.CollectTemplateNames | src/main/java/net/kyori/blossom/GenerateTemplates.java:140-165 | The walk loop collects exactly those names |
| Generation.CollectedNamesLoad | src/main/java/net/kyori/blossom/GenerateTemplates.java:140-191 | Every collected name can be read through the loader |
| Generation.FileUnderDirLoads | src/main/java/net/kyori/blossom/GenerateTemplates.java:155 | A file at or below a directory is read back under the name `relativize` gave it |
| Generation.StripPeb | src/main/java/net/kyori/blossom/GenerateTemplates.java:197-199 | A trailing ".peb" is removed, and nothing else changes |
| Generation.StripPebOnce | src/main/java/net/kyori/blossom/GenerateTemplates.java:197-199 | Removing the extension undoes adding it, once only |
| Generation.OutputNameOfPrefixedResult | src/main/java/net/kyori/blossom/GenerateTemplates.java:195-199 | When the rendered path keeps the disambiguating prefix, the output name is the rest without ".peb" |
| Generation.ShortNameFails | src/main/java/net/kyori/blossom/GenerateTemplates.java:195-196 | A rendered path shorter than the prefix fails as `substring(3)` does |
| Generation.Content | src/main/java/net/kyori/blossom/GenerateTemplates.java:208-214 | A written file is the body alone without a header, or starts with the header line and then holds the body |
| Generation.EmitOutputs | src/main/java/net/kyori/blossom/GenerateTemplates.java:188-216 | The nested loops compute the specified run: its status and the output tree |
| Generation.EntriesFor | src/main/java/net/kyori/blossom/GenerateTemplates.java:194-215 | One template yields one file per dictionary, in order |
| Generation.Names | src/main/java/net/kyori/blossom/GenerateTemplates.java:201 | The output names of the files, in order |
| Generation.WriteOneSpec | src/main/java/net/kyori/blossom/GenerateTemplates.java:195-214 | One pass goes on exactly when the pair yields a file under an unseen name; it then records the name and writes the file |
| Generation.RunVariantsSpec | src/main/java/net/kyori/blossom/GenerateTemplates.java:194-215 | The inner loop succeeds exactly when every dictionary yields a file and the names are new and pairwise different |
| Generation.RunTemplatesSpec | src/main/java/net/kyori/blossom/GenerateTemplates.java:188-216 | The outer loop succeeds exactly when every template yields all its files under new, pairwise different names; the tree then holds them |
| Generation.PlannedMember | src/main/java/net/kyori/blossom/GenerateTemplates.java:188-216 | The planned files are exactly the files of the (template, dictionary) pairs |
| Generation.PlannedNames | src/main/java/net/kyori/blossom/GenerateTemplates.java:188-216 | The planned names are the output names of the pairs |
| Generation.DistinctIffInjective | src/main/java/net/kyori/blossom/GenerateTemplates.java:201-204 | The `seenOutputs` check passes in the loop order exactly when no two pairs share an output name |
| Generation.PutAllSpec | src/main/java/net/kyori/blossom/GenerateTemplates.java:206-214 | Files with distinct names written one after the other: the tree holds the old files not overwritten and every new one |
| Generation.PlannedLength | src/main/java/net/kyori/blossom/GenerateTemplates.java:188-216 | The run plans \|templates\| × \|dictionaries\| files |
| Generation.RunGrows | src/main/java/net/kyori/blossom/GenerateTemplates.java:188-216 | A run, failing or not, never forgets a seen name or removes a file |
| Generation.GenerationOutcome | src/main/java/net/kyori/blossom/GenerateTemplates.java:188-216 | For any iteration order of both sets, the run succeeds exactly when every pair yields a file under a name no other pair yields, and then writes exactly those files over the old tree |
| Generation.OutputCount | src/main/java/net/kyori/blossom/GenerateTemplates.java:188-216 | A successful run writes one file per template and dictionary |
| Generation.OrderOf | src/main/java/net/kyori/blossom/GenerateTemplates.java:188 | An iteration order of a set visits each element once |
| Generation.GenerateFrom | src/main/java/net/kyori/blossom/GenerateTemplates.java:185-216 | After preparation, `generate` achieves the specified outcome |
| GenerateTemplates.Generate | src/main/java/net/kyori/blossom/GenerateTemplates.java:167-217 | Without a source directory, or when preparing fails, the task fails with that error and writes nothing; otherwise it succeeds exactly when the pairs' output names are all defined and distinct, and writes those files |
| GenerateWorkerInvokerImpl.Generate | src/workerClasspath/java/net/kyori/blossom/internal/worker/GenerateWorkerInvokerImpl.java:51-106 | The worker copy achieves the same `generate` outcome as a function of the global and variant records it is given, whose file sequences are the worker's own |
| GenerateWorker.DataFor | src/main/java/net/kyori/blossom/internal/worker/GenerateWorker.java:102-113 | A variant's properties, or an empty map when it has none |
| GenerateWorker.ToVariantParameters | src/main/java/net/kyori/blossom/internal/worker/GenerateWorker.java:102-113 | Exactly one record per variant-files name, holding its files and its properties or an empty map |
| GenerateWorker.VariantRecordCount | src/main/java/net/kyori/blossom/internal/worker/GenerateWorker.java:102-113 | There are as many records as variant names, and no two share a name |
| GenerateWorker.GlobalParams | src/main/java/net/kyori/blossom/internal/worker/GenerateWorker.java:81-85 | The global record carries the set's name and files, and its properties or an empty map |
| GenerateWorker.Execute | src/main/java/net/kyori/blossom/internal/worker/GenerateWorker.java:67-100 | The work action achieves the generate outcome for some iteration order of the variant records |
| GenerateWorker.VariantOrderIrrelevant | src/main/java/net/kyori/blossom/internal/worker/GenerateWorker.java:67-100 | The order of the variant records does not change the prepared dictionaries |
| MultiDirectoryLoader.FindFileIn | src/workerClasspath/java/net/kyori/blossom/internal/worker/MultiDirectoryLoader.java:58-68 | A file is found exactly when some directory accepts the name, and it is the candidate of the first such directory |
| MultiDirectoryLoader.DirStrings | src/workerClasspath/java/net/kyori/blossom/internal/worker/MultiDirectoryLoader.java:55 | The directories as the not-found message prints them, one per directory |
| MultiDirectoryLoader.ResourceExistsIffFound | src/workerClasspath/java/net/kyori/blossom/internal/worker/MultiDirectoryLoader.java:45-56 | A template exists exactly when `findFile` finds it, exactly when `getReader` succeeds; the second regular-file test is redundant |
| MultiDirectoryLoader.PlainNameAccepted | src/workerClasspath/java/net/kyori/blossom/internal/worker/MultiDirectoryLoader.java:60-63 | A name made of plain names passes the guard exactly when the file exists below the directory |
| MultiDirectoryLoader.PlainNameFound | src/workerClasspath/java/net/kyori/blossom/internal/worker/MultiDirectoryLoader.java:58-68 | A plain name is found exactly when some directory holds it, and then in the first one that does |
| MultiDirectoryLoader.FoundAtFirst | src/workerClasspath/java/net/kyori/blossom/internal/worker/MultiDirectoryLoader.java:59-66 | The search returns the candidate of the first accepting directory |
| MultiDirectoryLoader.AbsoluteNameRejected | src/workerClasspath/java/net/kyori/blossom/internal/worker/MultiDirectoryLoader.java:60-63 | An absolute template name is never found |
| MultiDirectoryLoader.ParseWellFormed | src/workerClasspath/java/net/kyori/blossom/internal/worker/MultiDirectoryLoader.java:60 | Every parsed name is non-empty and free of '/' |
| MultiDirectoryLoader.RelativizedWellFormed | src/workerClasspath/java/net/kyori/blossom/internal/worker/MultiDirectoryLoader.java:63 | `relativize` of well-formed paths gives a well-formed path |
| MultiDirectoryLoader.CacheKeyInjective | src/workerClasspath/java/net/kyori/blossom/internal/worker/MultiDirectoryLoader.java:90-93 | Two template names share a cache key exactly when they are equal |
| MultiDirectoryLoader.SettersRefuse | src/workerClasspath/java/net/kyori/blossom/internal/worker/MultiDirectoryLoader.java:70-83 | The suffix, prefix and charset setters refuse every argument |
| MultiDirectoryLoader.EscapeThroughGuard | src/workerClasspath/java/net/kyori/blossom/internal/worker/MultiDirectoryLoader.java:58-68 | As written, `../e/x` from `/p/d` is found although the file lies outside the directory |
| MultiDirectoryLoader.FindFileContained | src/workerClasspath/java/net/kyori/blossom/internal/worker/MultiDirectoryLoader.java:58-68 | The corrected search returns only regular files whose normalised path lies inside the directory they came from |
| MultiDirectoryLoader.ContainedAgreesOnPlainNames | src/workerClasspath/java/net/kyori/blossom/internal/worker/MultiDirectoryLoader.java:58-68 | On names made of plain names, the corrected search and `findFile` agree |
| MultiDirectoryLoader.EscapeRefused | src/workerClasspath/java/net/kyori/blossom/internal/worker/MultiDirectoryLoader.java:61-63 | The corrected search refuses the escaping name |
| SourceTemplateSetImpl.LensApply | src/main/java/net/kyori/blossom/internal/SourceTemplateSetImpl.java:65-74 | The Java lens always succeeds; a named lens succeeds exactly when the extension exists and is a source directory set, and fails with the unknown-extension error when it is missing |
| SourceTemplateSetImpl.SourceTemplateSet.constructor | src/main/java/net/kyori/blossom/internal/SourceTemplateSetImpl.java:38-41 | A new set has its name and no claim |
| SourceTemplateSetImpl.SourceTemplateSet.ResolveOutputDirectory | src/main/java/net/kyori/blossom/internal/SourceTemplateSetImpl.java:44-46 | The output directory is `sources/blossom-<name>` below the generated directory |
| SourceTemplateSetImpl.SourceTemplateSet.RegisterOutputWithSet | src/main/java/net/kyori/blossom/internal/SourceTemplateSetImpl.java:48-52 | The destination and task are remembered |
| SourceTemplateSetImpl.SourceTemplateSet.ApplySourceLens | src/main/java/net/kyori/blossom/internal/SourceTemplateSetImpl.java:54-63 | Without a claim: NotClaimed and nothing changes; a failing lens: its error, claim kept; otherwise the registration, claim consumed |
| SourceTemplateSetImpl.SourceTemplateSet.Java | src/main/java/net/kyori/blossom/internal/SourceTemplateSetImpl.java:76-79 | `applySourceLens` with the Java lens |
| SourceTemplateSetImpl.SourceTemplateSet.NamedLanguageExtension | src/main/java/net/kyori/blossom/internal/SourceTemplateSetImpl.java:81-84 | `applySourceLens` with the named-extension lens |
| SourceTemplateSetImpl.OutputDirectoriesDistinct | src/main/java/net/kyori/blossom/internal/SourceTemplateSetImpl.java:44-46 | Sets with different names generate into different directories |
| SourceTemplateSetImpl.JavaAfterRegistration | src/main/java/net/kyori/blossom/internal/SourceTemplateSetImpl.java:48-63 | Right after registration, `java()` registers the claimed task for the claimed source set |
| SourceTemplateSetImpl.SecondLanguageRefused | src/main/java/net/kyori/blossom/internal/SourceTemplateSetImpl.java:54-63 | A claim is consumed once: a second language without a new registration fails |
| SourceTemplateSetImpl.FailedLensKeepsClaim | src/main/java/net/kyori/blossom/internal/SourceTemplateSetImpl.java:54-63 | A failing lens leaves the claim for a later one that succeeds |
| SourceReplacementTask.Slashed | src/main/java/net/kyori/blossom/task/SourceReplacementTask.java:135 | Every backslash becomes a slash; no backslash remains |
| SourceReplacementTask.GetFilePath | src/main/java/net/kyori/blossom/task/SourceReplacementTask.java:134-141 | Fails with index 0 exactly when removing the project path leaves nothing; otherwise a slash-only path |
| SourceReplacementTask.ProjectRelativePath | src/main/java/net/kyori/blossom/task/SourceReplacementTask.java:134-141 | A file below the project directory gets its project-relative path with slashes |
| SourceReplacementTask.DestinationOfNested | src/main/java/net/kyori/blossom/task/SourceReplacementTask.java:273-275 | A file at `dir` + `rel` lands at `rel` below the output directory |
| SourceReplacementTask.MatchesFrom | src/main/java/net/kyori/blossom/task/SourceReplacementTask.java:158-162 | The loop finds a match exactly when some later location ends the path |
| SourceReplacementTask.IsIncluded | src/main/java/net/kyori/blossom/task/SourceReplacementTask.java:150-165 | Every file when no location is set, otherwise exactly those whose slashed path ends with a slashed location |
| SourceReplacementTask.IncludedStaysIncluded | src/main/java/net/kyori/blossom/task/SourceReplacementTask.java:150-165 | Adding locations to a non-empty list never excludes a file |
| SourceReplacementTask.ApplyReplacements | src/main/java/net/kyori/blossom/task/SourceReplacementTask.java:100-102 | The loop applies the replacements one after the other |
| SourceReplacementTask.ReplacedAppend | src/main/java/net/kyori/blossom/task/SourceReplacementTask.java:99-114 | Global then per-file replacements are the replacements of the concatenated list |
| SourceReplacementTask.ReplacedAbsent | src/main/java/net/kyori/blossom/task/SourceReplacementTask.java:99-114 | Tokens that do not occur leave the text unchanged |
| SourceReplacementTask.ReplacedSelf | src/main/java/net/kyori/blossom/task/SourceReplacementTask.java:99-114 | Tokens replaced by themselves leave the text unchanged |
| SourceReplacementTask.ResolvedGlobal | src/main/java/net/kyori/blossom/task/SourceReplacementTask.java:172-189 | Exactly the entries with a non-null token and value are kept, with their values |
| SourceReplacementTask.ResolvedByFile | src/main/java/net/kyori/blossom/task/SourceReplacementTask.java:196-217 | A file holds a single-entry map exactly when one of its registered maps has that non-null entry |
| SourceReplacementTask.PutAll | src/main/java/net/kyori/blossom/task/SourceReplacementTask.java:260-262 | `putAll` of multimaps unions the collections per file |
| SourceReplacementTask.FileEntries | src/main/java/net/kyori/blossom/task/SourceReplacementTask.java:200-212 | The loops over one file's maps collect exactly their single entries |
| SourceReplacementTask.OrderNonEmpty | src/main/java/net/kyori/blossom/task/SourceReplacementTask.java:108-109 | A file has by-file replacements exactly when its collection is present and non-empty |
| SourceReplacementTask.FileOutcomeCases | src/main/java/net/kyori/blossom/task/SourceReplacementTask.java:96-123 | A file is copied verbatim exactly when it is not included and has no by-file replacement; otherwise it is written replaced, global ones first |
| SourceReplacementTask.FilesWriteEveryFile | src/main/java/net/kyori/blossom/task/SourceReplacementTask.java:91-124 | A successful tree writes a destination for each of its files |
| SourceReplacementTask.DestinationsCons | src/main/java/net/kyori/blossom/task/SourceReplacementTask.java:77-125 | The destinations of the trees are the first tree's and those of the rest |
| SourceReplacementTask.RunWritesEveryFile | src/main/java/net/kyori/blossom/task/SourceReplacementTask.java:77-125 | A successful run writes exactly one destination per file of the existing trees |
| SourceReplacementTask.FilesAsJobs | src/main/java/net/kyori/blossom/task/SourceReplacementTask.java:91-124 | One tree's loop is the writing of its files, each at its destination, in order |
| SourceReplacementTask.JobsAppend | src/main/java/net/kyori/blossom/task/SourceReplacementTask.java:77-125 | Writing two runs of files is writing the first, then the second unless the first failed |
| SourceReplacementTask.RunAsJobs | src/main/java/net/kyori/blossom/task/SourceReplacementTask.java:77-125 | `run` over the trees is the writing of the existing trees' files in visiting order |
| SourceReplacementTask.JobsLastWriterWins | src/main/java/net/kyori/blossom/task/SourceReplacementTask.java:91-124 | After successful writes, each destination holds the outcome of the last file stored there, and any other destination keeps its earlier content |
| SourceReplacementTask.RunLastWriterWins | src/main/java/net/kyori/blossom/task/SourceReplacementTask.java:77-125 | After a successful run, each destination holds the outcome of the last file, in visiting order, stored there |
| SourceReplacementTask.ProcessFile | src/main/java/net/kyori/blossom/task/SourceReplacementTask.java:91-124 | The per-file body computes the specified outcome |
| SourceReplacementTask.SourceReplacementTask.constructor | src/main/java/net/kyori/blossom/task/SourceReplacementTask.java:224-262 | A new task has no replacements, no locations and no input |
| SourceReplacementTask.SourceReplacementTask.SetInput | src/main/java/net/kyori/blossom/task/SourceReplacementTask.java:224-226 | The input is replaced; nothing else changes |
| SourceReplacementTask.SourceReplacementTask.SetOutput | src/main/java/net/kyori/blossom/task/SourceReplacementTask.java:233-235 | The output is replaced; nothing else changes |
| SourceReplacementTask.SourceReplacementTask.SetTokenReplacementsGlobal | src/main/java/net/kyori/blossom/task/SourceReplacementTask.java:242-244 | The new entries are put over the old, the rest unchanged |
| SourceReplacementTask.SourceReplacementTask.SetTokenReplacementsGlobalLocations | src/main/java/net/kyori/blossom/task/SourceReplacementTask.java:251-253 | The locations are appended in order |
| SourceReplacementTask.SourceReplacementTask.SetTokenReplacementsByFile | src/main/java/net/kyori/blossom/task/SourceReplacementTask.java:260-262 | The multimap is merged per file |
| SourceReplacementTask.SourceReplacementTask.ResolveReplacementsGlobal | src/main/java/net/kyori/blossom/task/SourceReplacementTask.java:172-189 | The loop computes the resolved global map |
| SourceReplacementTask.SourceReplacementTask.ResolveReplacementsByFile | src/main/java/net/kyori/blossom/task/SourceReplacementTask.java:196-217 | The loops compute the resolved multimap |
| SourceReplacementTask.SourceReplacementTask.Run | src/main/java/net/kyori/blossom/task/SourceReplacementTask.java:60-126 | For the given iteration orders, the run computes the specified outcome: missing trees skipped, the first failing file stops it |
| TokenStore.PutToken | src/main/java/ninja/miserable/blossom/BlossomExtension.java:56-58 | `put`: the token gets the replacement; every other token keeps its value |
| TokenStore.TokensPutNone | src/main/java/ninja/miserable/blossom/BlossomExtension.java:63-67 | Putting no entry changes nothing |
| TokenStore.TokensPutStep | src/main/java/ninja/miserable/blossom/BlossomExtension.java:63-67 | Each further non-null entry extends what was put |
| TokenStore.TokensPutSingle | src/main/java/ninja/miserable/blossom/BlossomExtension.java:63-67 | A one-entry map is the single `replaceToken` |
| TokenStore.AddLocation | src/main/java/ninja/miserable/blossom/BlossomExtension.java:74-76 | The location is appended, order and duplicates kept |
| TokenStore.AddPerFile | src/main/java/ninja/miserable/blossom/BlossomExtension.java:85-87 | The set-valued multimap gains exactly that map under that file |
| TokenStore.AddPerFileIdempotent | src/main/java/ninja/miserable/blossom/BlossomExtension.java:85-87 | Registering the same per-file replacement twice stores it once |
| TokenStore.AddPerFileCommutes | src/main/java/ninja/miserable/blossom/BlossomExtension.java:85-87 | The order of two per-file registrations does not matter |
| MiserableBlossomExtension.BlossomExtension.constructor | src/main/java/ninja/miserable/blossom/BlossomExtension.java:40-48 | A new extension holds no replacements and no locations |
| MiserableBlossomExtension.BlossomExtension.ReplaceToken | src/main/java/ninja/miserable/blossom/BlossomExtension.java:56-58 | A null token fails with an NPE and changes nothing; otherwise the token is put, null replacement allowed |
| MiserableBlossomExtension.BlossomExtension.ReplaceTokens | src/main/java/ninja/miserable/blossom/BlossomExtension.java:63-67 | Without a null token, every entry is put; with one, an NPE after some entries |
| MiserableBlossomExtension.BlossomExtension.ReplaceTokenIn | src/main/java/ninja/miserable/blossom/BlossomExtension.java:74-76 | The location is appended |
| MiserableBlossomExtension.BlossomExtension.ReplaceTokenInFile | src/main/java/ninja/miserable/blossom/BlossomExtension.java:85-87 | Any null argument fails with an NPE and changes nothing; otherwise the single-entry map is registered for the file |
| ElluneBlossomExtension.BlossomExtension.constructor | src/main/java/net/ellune/blossom/BlossomExtension.java:21-29 | A new extension holds no replacements and no locations |
| ElluneBlossomExtension.BlossomExtension.ReplaceToken | src/main/java/net/ellune/blossom/BlossomExtension.java:37-39 | As in the other copy |
| ElluneBlossomExtension.BlossomExtension.ReplaceTokens | src/main/java/net/ellune/blossom/BlossomExtension.java:44-48 | As in the other copy |
| ElluneBlossomExtension.BlossomExtension.ReplaceTokenIn | src/main/java/net/ellune/blossom/BlossomExtension.java:55-57 | As in the other copy |
| ElluneBlossomExtension.BlossomExtension.ReplaceTokenInFile | src/main/java/net/ellune/blossom/BlossomExtension.java:66-68 | As in the other copy |
| BlossomDisplayNameGeneration.ToLowerCase | src/test/java/net/kyori/blossom/test/BlossomDisplayNameGeneration.java:31 | The Latin-1 capitals ('A'..'Z', U+00C0..U+00DE except U+00D7) map to their small letters 32 code points above; every other Latin-1 character is unchanged |
| BlossomDisplayNameGeneration.ToUpperCase | src/test/java/net/kyori/blossom/test/BlossomDisplayNameGeneration.java:31 | The inverse of `ToLowerCase` on the small letters it produces |
| BlossomDisplayNameGeneration.GenerateDisplayNameForMethod | src/test/java/net/kyori/blossom/test/BlossomDisplayNameGeneration.java:27-35 | A name over five characters starting with "test" loses four characters, and all but the new first one are kept; any other name is kept |
| BlossomDisplayNameGeneration.RewrittenName | src/test/java/net/kyori/blossom/test/BlossomDisplayNameGeneration.java:27-35 | `test` + c + rest becomes lower(c) + rest |
| BlossomDisplayNameGeneration.DisplayNameInverse | src/test/java/net/kyori/blossom/test/BlossomDisplayNameGeneration.java:27-35 | Putting "test" back and upper-casing recovers a camel-case test name |
| BlossomDisplayNameGeneration.FiveCharactersKept | src/test/java/net/kyori/blossom/test/BlossomDisplayNameGeneration.java:30-33 | "testA" is kept |
| BlossomDisplayNameGeneration.AccentedExample | src/test/java/net/kyori/blossom/test/BlossomDisplayNameGeneration.java:30-31 | "testÉtat" is shown as "état" |
| BlossomDisplayNameGeneration.SourceSingleSetExample | src/test/java/net/kyori/blossom/test/BlossomDisplayNameGeneration.java:27-35 | "testSourceSingleSet" is shown as "sourceSingleSet" |

## Left out

- The Pebble engine is uninterpreted. Rendering a template text with a dictionary is a function that succeeds or fails, parsing included. Caching, auto-escaping, locale and strict-variable checks are inside that function.
- The YAML parser is not modelled. Data files arrive parsed (`Parsed`), unreadable (`Unreadable`), refused by the parser (`Unparsable`) or not regular files. `LoadSettings` and the charset are not modelled.
- `Object.toString`/`String.valueOf` of parsed values is modelled for scalars and collections by class and text. Distinct Java objects whose strings collide are not distinguished further.
- Groovy `Closure` values are not unwrapped. Replacement values are strings or null.
- `replaceAll` is modelled with literal replacement strings. The tokens are `Pattern.quote`d in the source, so the token side is literal. A `$` or `\` inside a replacement value, which Java's regex replacement would interpret, is taken literally.
- Iteration orders of `HashSet`/`HashMap`/`HashMultimap` are inputs: `Generation.OrderOf`, and `globalOrder`/`fileOrders` in `SourceReplacementTask.Run`.
- File-system effects are not modelled:
  - `deleteDirectory`, `mkdirs` and `createNewFile`.
  - The empty destination file left behind when a later file fails.
  - `Files.createDirectories` in `generate`.
  - Output canonicalisation, symbolic links, Windows separators, charsets, and I/O errors while reading or writing.
- Template files are given by their normalised absolute names. The header's line separator is "\n".
- Gradle's pattern filtering of the replacement task's input trees is not modelled. Each tree's files arrive already filtered.
- `GenerateWorker`'s reflective call and its `IOException` wrapping are not modelled. The worker is handed its data files as a sequence.
- GenerateWorker.Execute: the worker's data files come from `toPaths`, an unmodifiable set of the collection's top-level files. Its iteration order is unspecified, and a directory in the collection is not expanded: the worker skips it as not a regular file. The main task walks the file tree in a fixed order and reads the files inside such directories. The model takes the worker's file sequence as given, so the two copies agree only when they are handed the same sequence. With the last file's globals winning, they can differ on the same configuration.
- The getters of both `BlossomExtension` classes return the live collections; aliasing through them is not modelled (the getters return values).
- `MultiDirectoryLoader.resolveRelativePath` delegates to Pebble's `PathUtils`, which is not part of this model. Neither generate action builds a `MultiDirectoryLoader`: both build Pebble `FileLoader`s.
- Gradle providers, properties and task wiring are taken as plain values. This covers `getOutputDir`, `getBaseSet`, `Properties.finalized`, the `register…`/`configure` plumbing and the plugin classes outside the listed files.
- Generation.WriteOne: when rendering the body fails, the file is modelled as holding only the header part. The text Pebble had already written before failing, which the closing writer flushes, is not modelled.
- SourceReplacementTask.Run: a failing file gives only the error. The destinations already written by earlier files, which stay on disk, are not part of the error result.
- BlossomDisplayNameGeneration.ToLowerCase: only the Latin-1 capitals are lower-cased. `Character.toLowerCase`'s mapping of capitals above U+00FF (Greek, Cyrillic and others) is not modelled; those characters stay unchanged.
- DataMerge.Prepare: a nested mapping inside a dictionary is a sequence of entries, and two dictionaries are equal only when their nested mappings list the same entries in the same order. Java's `HashSet<Map<String, Object>>` compares nested maps with `Map.equals`, which ignores entry order. So where two variants' dictionaries differ only in the order of a nested mapping, the model keeps both, and Java keeps one. A template whose output path does not depend on the variant then fails in the model with a duplicate output name, while Java renders it once. Comparing nested mappings up to order is not modelled, because the HashSet would then keep whichever equal copy came first, and the entry order a template sees would depend on the visiting order.
- TemplateSetImpl.PrepareDataForGeneration: proved equal to `DataMerge.Prepare`, so it shares that gap: it can return more dictionaries than the Java HashSet when two differ only in nested entry order.
- PropertyFileIO.PrepareDataForGeneration: the same gap as `TemplateSetImpl.PrepareDataForGeneration`, through `DataMerge.Prepare`.
- SourceReplacementTask.FileEntries: the per-file collection is a set of single-entry maps, as `HashMultimap` stores it; the order the maps are visited in is an input of `Run`.

## Findings

| source | as written | input that shows it | evidently intended | confidence | as-written member | corrected member |
|---|---|---|---|---|---|---|
| src/workerClasspath/java/net/kyori/blossom/internal/worker/MultiDirectoryLoader.java:58-68 | The escape guard compares `dir.relativize(dir.resolve(name)).toString()` with `name`; a name containing `..` reproduces itself, so it passes | directory `/p/d`, regular file `/p/e/x`, template name `../e/x`: `findFile` returns `/p/d/../e/x`, outside `/p/d` | only files whose normalised path lies inside the directory are found | not executed | MultiDirectoryLoader.EscapeThroughGuard | MultiDirectoryLoader.FindFileContained |
