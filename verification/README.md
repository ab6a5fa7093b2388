# cbomkit-lib scanning core, modelled in Dafny

cbomkit-lib scans a Java project for cryptographic assets and produces a CBOM, a CycloneDX
bill of materials for cryptography. This project models the part of the library that sits
around the analysis engine:

- **Module recognition** (`java_index.dfy`, module `JavaIndex`). A directory is a Java module
  when it holds a build descriptor as a regular file (`pom.xml`, `build.gradle`,
  `build.gradle.kts`) and an entry called `src`. The module's build type is Maven when
  `pom.xml` is a regular file, otherwise Gradle when a gradle script is a regular file,
  and none otherwise. The indexer's exclusion patterns default to
  test sources and the `package-info`/`module-info` files.
- **Finding aggregation** (`scanner_service.dfy`, module `Scanning`). The scanner keeps a
  cumulative store of components. Each detected batch is appended to that store. With a
  progress dispatcher attached, each component is also deduplicated against the set of
  finding ids seen so far (`dedup.dfy`). What is left is copied, its locations are made
  relative to the project (`sanitize.dfy`), and it is streamed as a DETECTION message.
  `getBOM` sanitises the whole store in place.
- **The Java scanner** (`java_scanner.dfy`, module `JavaScanner`). Its dependency-jar and
  class-directory settings are rewritten to absolute paths, and a glob suffix survives
  verbatim. The scan loop counts files and lines per module, sends one LABEL per module and
  hands the detections the engine reports for the module to `accept`; it ends with `getBOM`.
- **The CBOM record** (`cbom.dfy`, module `Cbom`). `merge` appends another document's
  components and dependencies. `addMetadata` writes the tool and repository properties.

Components, occurrences and messages are values (`cyclonedx.dfy`). The scanner service, the
Java scanner, the index service and the CBOM record are classes whose methods update their
fields. The loops of the source are `while`/`for` loops proved against specification
functions. Exceptions that escape an operation are modelled as error results: an `Outcome`
or `Option` value, or a `Fault` that names the exception.

Things outside the program become parameters:
- the finding-id hash (`Objects.hashCode`) is any function `HashFn`;
- `File.getCanonicalPath` is a function `canonicalPath` from the project directory to
  `Option<string>`, and None stands for the `IOException`;
- the dispatcher's refusals (`ClientDisconnected`, serialisation errors) are a predicate
  `refuses` on messages;
- `Paths.get(p).toAbsolutePath().normalize()` is a function `absolutize`;
- the directory being examined is a map from entry names to entry kinds;
- the detections the analysis engine reports while it scans a module are passed in, one
  batch per module;
- the clock readings are passed in.

## Model

| member | source | states |
|---|---|---|
| Deduplication.Dedup | src/main/java/org/pqca/scanning/ScannerService.java:110-129 | the id set only grows, and no more occurrences are kept than were given |
| Deduplication.DedupSeen | src/main/java/org/pqca/scanning/ScannerService.java:110-129 | after the pass, the id set is the old set together with the id of every occurrence |
| Deduplication.DedupIsKeepFirstNew | src/main/java/org/pqca/scanning/ScannerService.java:115-127 | the pass keeps exactly the occurrences whose id is unseen and not shared with an earlier occurrence, in input order |
| Deduplication.DedupKeptIds | src/main/java/org/pqca/scanning/ScannerService.java:117-126 | kept occurrences come from the input; their ids were unseen before and are recorded after; the kept ids are pairwise distinct; the id set only grows |
| Deduplication.DedupAllSeen | src/main/java/org/pqca/scanning/ScannerService.java:123-126 | occurrences whose ids are all recorded are all dropped, and the id set is unchanged |
| Deduplication.DedupResubmitKeepsNothing | src/main/java/org/pqca/scanning/ScannerService.java:104-129 | resubmitting the same occurrences after a pass keeps nothing |
| Deduplication.DedupIdenticalPair | src/test/java/org/pqca/scanning/ScannerServiceTest.java:39-76 | two identical occurrences with an unseen id leave exactly one |
| Deduplication.DedupAcrossCalls | src/main/java/org/pqca/scanning/ScannerService.java:104-108 | across two successive calls, even for different components, no finding id is kept twice |
| Sanitize.SanitizeLocation | src/main/java/org/pqca/scanning/ScannerService.java:169-171 | the rewrite throws exactly for a location equal to the base path; a location starting with the base is base + one character + the result; any other location is kept |
| Sanitize.FirstFailure | src/main/java/org/pqca/scanning/ScannerService.java:167-173 | the index of the first occurrence whose rewrite throws; every earlier one rewrites without error |
| Sanitize.SanitizeOccurrences | src/main/java/org/pqca/scanning/ScannerService.java:167-173 | the occurrence list keeps its length |
| Sanitize.SanitizeComponent | src/main/java/org/pqca/scanning/ScannerService.java:155-177 | an incomplete rewrite needs a canonical base path and a non-empty occurrence list (that evidence stays present or absent is SanitizeComponentShape) |
| Sanitize.SanitizeOccurrence | src/main/java/org/pqca/scanning/ScannerService.java:155-177 | the loop rewrites locations up to the first failure, leaves the component untouched for missing or empty evidence and for a failed canonicalisation, and reports whether it completed |
| Sanitize.StripsBaseAndSeparator | src/main/java/org/pqca/scanning/ScannerService.java:169-171 | a location of the form base + separator + rest becomes rest |
| Sanitize.OtherLocationsKept | src/main/java/org/pqca/scanning/ScannerService.java:169 | a location that does not start with the base path is kept as it is |
| Sanitize.LocationEqualToBaseThrows | src/main/java/org/pqca/scanning/ScannerService.java:170-171 | a location equal to the base path makes substring throw |
| Sanitize.SiblingDirectoryIsCut | src/main/java/org/pqca/scanning/ScannerService.java:169-171 | the prefix test is on characters, not path segments: base /repo turns /repo2/A.java into /A.java |
| Sanitize.SanitizeComponentShape | src/main/java/org/pqca/scanning/ScannerService.java:155-177 | only locations change: the other component fields and the count, lines and offsets of occurrences are kept |
| Sanitize.SanitizeComponentNoOp | src/main/java/org/pqca/scanning/ScannerService.java:157-176 | a component without evidence, with no occurrences, or without a canonical base path is returned unchanged |
| Sanitize.SanitizeComponentRewrites | src/main/java/org/pqca/scanning/ScannerService.java:165-173 | the rewrite completes iff no location equals the base path, and then each location is its own rewrite |
| Sanitize.SanitizeStore | src/main/java/org/pqca/scanning/ScannerService.java:146 | the store keeps its length |
| Sanitize.SanitizeStoreCompleted | src/main/java/org/pqca/scanning/ScannerService.java:146 | when the walk completes, every component of the store is its own sanitised copy |
| Sanitize.SanitizeStoreThrown | src/main/java/org/pqca/scanning/ScannerService.java:146 | when the walk throws, it threw at some component f; earlier components are sanitised, f is partly rewritten, later ones are untouched |
| Sanitize.SanitizeStoreStops | src/main/java/org/pqca/scanning/ScannerService.java:146 | after an exception, later components are left as they are |
| Scanning.CopyCryptoAsset | src/main/java/org/pqca/scanning/ScannerService.java:131-140 | the copy has the same bomRef, name, type and cryptoProperties reference, and no evidence |
| Scanning.EmitStep | src/main/java/org/pqca/scanning/ScannerService.java:77-98 | for one component, with no earlier exception, a NullPointerException arises exactly when the component has no evidence |
| Scanning.EmitAll | src/main/java/org/pqca/scanning/ScannerService.java:76-99 | the forEach over the batch, one EmitStep per component in order; its properties are the lemmas below |
| Scanning.EmitStepKeepsInv | src/main/java/org/pqca/scanning/ScannerService.java:77-98 | one component keeps the invariant: ids streamed are distinct and recorded, and every DETECTION has evidence; the id set grows and messages are only appended |
| Scanning.EmitAllKeepsInv | src/main/java/org/pqca/scanning/ScannerService.java:73-99 | the whole batch keeps the same invariant |
| Scanning.EmitAllAfterFault | src/main/java/org/pqca/scanning/ScannerService.java:76-99 | after an exception, the rest of the batch is not looked at |
| Scanning.EmitAllAppend | src/main/java/org/pqca/scanning/ScannerService.java:76-99 | the walk over p + q is the walk over q from where the walk over p ended |
| Scanning.EmitAllCovers | src/main/java/org/pqca/scanning/ScannerService.java:76-99 | a walk without exception met only components with evidence, and recorded every id of their occurrences |
| Scanning.EmitStepKeepsInvSeen | src/main/java/org/pqca/scanning/ScannerService.java:78 | the id set never shrinks across one component |
| Scanning.EmitAllSilent | src/main/java/org/pqca/scanning/ScannerService.java:76-99 | a batch whose ids are all recorded sends nothing and changes nothing |
| Scanning.EmitStepDetection | src/main/java/org/pqca/scanning/ScannerService.java:77-98 | for one component with evidence: the substring exception arises exactly when a first-new location equals the canonical path, and then nothing is sent; otherwise the ids handed over are those of the first-new occurrences, and at most one message is appended, the DETECTION with the component's identity carrying exactly those occurrences in order, with their lines, offsets and sanitised locations; none is appended when no occurrence is new or when the dispatcher refuses that DETECTION |
| Scanning.DetectionOfIsFrom | src/main/java/org/pqca/scanning/ScannerService.java:78-84 | a DETECTION of the first-new occurrences of a component carries occurrences of that component |
| Scanning.EmitAllDetections | src/main/java/org/pqca/scanning/ScannerService.java:76-99 | over a batch, earlier messages stay, no more messages are added than the batch has components, and every added message is the DETECTION of a component of the batch, with lines and offsets taken from that component's occurrences |
| Scanning.EmitAllOnePerComponent | src/main/java/org/pqca/scanning/ScannerService.java:76-99 | component i of a batch adds at most one message to what the components before it sent, and that message is a DETECTION of component i |
| Scanning.EmitAllIgnoresRefusals | src/main/java/org/pqca/scanning/ScannerService.java:88-97 | a refused send changes only which messages were delivered, not the recorded ids, the findings streamed or the exception |
| Scanning.EmitResubmitSilent | src/main/java/org/pqca/scanning/ScannerService.java:104-108 | resubmitting a batch that went through without exception emits nothing new |
| Scanning.ScannerService.constructor | src/main/java/org/pqca/scanning/ScannerService.java:58-64 | an empty id set, an empty store and no messages, with the invariant established |
| Scanning.ScannerService.Canonical | src/main/java/org/pqca/scanning/ScannerService.java:166 | the base path is the canonical path of the project directory the service was built with |
| Scanning.ScannerService.DeduplicateFindings | src/main/java/org/pqca/scanning/ScannerService.java:110-129 | the loop's kept list and new id set are those of the deduplication pass; the id set only grows and the invariant is kept; a component without evidence throws and changes nothing |
| Scanning.ScannerService.DeduplicateComponent | src/test/java/org/pqca/scanning/ScannerServiceTest.java:65-75 | a copy carrying only the new occurrences, present iff something was new; the id set only grows and the invariant is kept; a component without evidence throws and changes nothing |
| Scanning.ScannerService.EmitComponent | src/main/java/org/pqca/scanning/ScannerService.java:77-98 | one run of the forEach body changes the ids, messages and streamed ids exactly as EmitStep says, and keeps the invariant |
| Scanning.ScannerService.Accept | src/main/java/org/pqca/scanning/ScannerService.java:66-102 | the batch always joins the store; without a dispatcher nothing else changes; with one, the new ids, messages and escaping exception are those of the component walk; the invariant is kept |
| Scanning.ScannerService.GetBom | src/main/java/org/pqca/scanning/ScannerService.java:142-153 | the store is sanitised in place; the result is the store when the walk completes, and the substring exception otherwise |
| Cbom.MergeList | src/main/java/org/pqca/scanning/CBOM.java:48-62 | a list stays present or absent, and a present list keeps its own elements as a prefix |
| Cbom.MergeListConcatenates | src/main/java/org/pqca/scanning/CBOM.java:46-63 | a list stays present or absent; it grows only when both lists are present, with its own elements first and then the other's, in order |
| Cbom.MergeListSymmetricAsMultiset | src/main/java/org/pqca/scanning/CBOM.java:48-54 | merging in either order gives the same elements with the same multiplicities |
| Cbom.MetadataProperties | src/main/java/org/pqca/scanning/CBOM.java:104-125 | three properties, four exactly when a subfolder is given, and no name twice |
| Cbom.MetadataReadBack | src/main/java/org/pqca/scanning/CBOM.java:104-125 | gitUrl, revision and commit read back as given; subfolder is there exactly when given |
| Cbom.Cbom.constructor | src/main/java/org/pqca/scanning/CBOM.java:42 | the record holds the given lists and metadata |
| Cbom.Cbom.Merge | src/main/java/org/pqca/scanning/CBOM.java:46-63 | components and dependencies become their merged lists; metadata and the other document are unchanged; merging with itself doubles the lists |
| Cbom.Cbom.AddMetadata | src/main/java/org/pqca/scanning/CBOM.java:86-128 | the metadata is replaced by one stamped now, naming CBOMkit by PQCA, with the properties in order (gitUrl, revision, commit, and subfolder when one is given); the lists are unchanged |
| JavaIndex.IsModuleDir | src/main/java/org/pqca/indexing/java/JavaIndexService.java:51-64 | what isModule decides: a directory with a src entry and a build descriptor that is a regular file |
| JavaIndex.MainBuildType | src/main/java/org/pqca/indexing/java/JavaIndexService.java:66-84 | what getMainBuildTypeFromModuleDirectory decides: Maven, then Gradle, then none |
| JavaIndex.IsModule | src/main/java/org/pqca/indexing/java/JavaIndexService.java:51-64 | the loop returns true iff the path is a directory with a build descriptor file and a src entry |
| JavaIndex.GetMainBuildTypeFromModuleDirectory | src/main/java/org/pqca/indexing/java/JavaIndexService.java:66-84 | the loop returns the build type by precedence: Maven, then Gradle, then none |
| JavaIndex.NotADirectoryIsNothing | src/main/java/org/pqca/indexing/java/JavaIndexService.java:53-55 | a path that is not a directory is neither a module nor has a build type |
| JavaIndex.MavenTakesPrecedence | src/main/java/org/pqca/indexing/java/JavaIndexService.java:71-75 | pom.xml gives Maven even next to gradle scripts |
| JavaIndex.GradleWithoutPom | src/main/java/org/pqca/indexing/java/JavaIndexService.java:76-83 | without pom.xml: Gradle iff a gradle script is a file, none otherwise |
| JavaIndex.ModuleHasBuildType | src/main/java/org/pqca/indexing/java/JavaIndexService.java:52-84 | every module directory has a build type |
| JavaIndex.SrcMayBeAFile | src/main/java/org/pqca/indexing/java/JavaIndexService.java:56-59 | src is only tested for existence: a plain file named src is enough |
| JavaIndex.DescriptorMustBeAFile | src/main/java/org/pqca/indexing/java/JavaIndexService.java:58-59 | a build descriptor that is a directory does not make a module |
| JavaIndex.JavaIndexService.constructor | src/main/java/org/pqca/indexing/java/JavaIndexService.java:36-40 | language java, extension .java, default exclusion patterns installed |
| JavaIndex.JavaIndexService.SetExcludePatterns | src/main/java/org/pqca/indexing/java/JavaIndexService.java:42-49 | null installs the three defaults; a list replaces them verbatim |
| JavaScanner.IndexOf | src/main/java/org/pqca/scanning/java/JavaScannerService.java:105 | -1 iff the character is absent; otherwise the index of its first appearance |
| JavaScanner.FirstGlob | src/main/java/org/pqca/scanning/java/JavaScannerService.java:102-111 | -1 iff the pattern has no glob character; otherwise the smallest index of one |
| JavaScanner.IndexOfFirstGlobChar | src/main/java/org/pqca/scanning/java/JavaScannerService.java:102-111 | the min-index loop over the four glob characters returns the first glob index |
| JavaScanner.TrimLeft | src/main/java/org/pqca/scanning/java/JavaScannerService.java:83 | a suffix of the string, removing only whitespace, and not starting with whitespace |
| JavaScanner.TrimRight | src/main/java/org/pqca/scanning/java/JavaScannerService.java:83 | a prefix of the string, removing only whitespace, and not ending with whitespace |
| JavaScanner.Join | src/main/java/org/pqca/scanning/java/JavaScannerService.java:99 | Collectors.joining: the pieces with the separator between them; CommaPiecesOfJoin is its inverse |
| JavaScanner.CommaPieces | src/main/java/org/pqca/scanning/java/JavaScannerService.java:83 | at least one piece, none holding a comma, and joining them with commas gives back the string |
| JavaScanner.DropTrailingEmpty | src/main/java/org/pqca/scanning/java/JavaScannerService.java:83 | the longest prefix that does not end in an empty piece; only empty pieces are dropped |
| JavaScanner.SplitList | src/main/java/org/pqca/scanning/java/JavaScannerService.java:83 | split on \s*,\s*; its properties are SplitWithoutComma, SplitPiecesCommaFree, SplitListOfJoin and SplitListOfPaddedJoin |
| JavaScanner.JarEntry | src/main/java/org/pqca/scanning/java/JavaScannerService.java:85-97 | one rewritten jar pattern; its property is JarEntryKeepsGlobSuffix |
| JavaScanner.JarList | src/main/java/org/pqca/scanning/java/JavaScannerService.java:79-99 | the jar setting's new value; its property is JarListPieces |
| JavaScanner.ClassDirList | src/main/java/org/pqca/scanning/java/JavaScannerService.java:118-124 | the class-directory setting's new value; its property is ClassDirListPieces |
| JavaScanner.JarEntryKeepsGlobSuffix | src/main/java/org/pqca/scanning/java/JavaScannerService.java:85-97 | a glob-free path part is absolutised and a suffix starting at a glob character is appended verbatim |
| JavaScanner.SplitWithoutComma | src/main/java/org/pqca/scanning/java/JavaScannerService.java:83 | a string without a comma is returned whole, untrimmed |
| JavaScanner.TrimPieceCommaFree | src/main/java/org/pqca/scanning/java/JavaScannerService.java:83 | trimming a comma-free piece keeps it comma-free |
| JavaScanner.SplitPiecesCommaFree | src/main/java/org/pqca/scanning/java/JavaScannerService.java:83 | no split piece holds a comma, and a split of a list with commas never ends with an empty piece |
| JavaScanner.CommaPiecesOfJoin | src/main/java/org/pqca/scanning/java/JavaScannerService.java:99 | cutting a comma-join of comma-free pieces at its commas gives the pieces back |
| JavaScanner.SplitListOfJoin | src/main/java/org/pqca/scanning/java/JavaScannerService.java:83 | round trip: two or more entries without commas or surrounding whitespace, the last one non-empty, joined with commas, split back into exactly those entries |
| JavaScanner.SplitListOfPaddedJoin | src/main/java/org/pqca/scanning/java/JavaScannerService.java:83 | the same round trip with any whitespace next to the commas: that whitespace is dropped and the entries come back exactly |
| JavaScanner.SplitListOfTrimmed | src/main/java/org/pqca/scanning/java/JavaScannerService.java:83 | a split with several comma pieces whose trimmed forms end in a non-empty entry is exactly those trimmed forms |
| JavaScanner.PaddedPieceTrims | src/main/java/org/pqca/scanning/java/JavaScannerService.java:83 | a piece between commas loses exactly the whitespace that touches a comma |
| JavaScanner.TrimLeftSpaces | src/main/java/org/pqca/scanning/java/JavaScannerService.java:83 | whitespace before a string that starts with a non-space is removed, and nothing else |
| JavaScanner.TrimRightSpaces | src/main/java/org/pqca/scanning/java/JavaScannerService.java:83 | whitespace after a string that ends with a non-space is removed, and nothing else |
| JavaScanner.JarListOfJoin | src/main/java/org/pqca/scanning/java/JavaScannerService.java:79-99 | for clean comma-joined entries, the jar setting stores each entry's rewrite, joined with commas |
| JavaScanner.ClassDirListOfJoin | src/main/java/org/pqca/scanning/java/JavaScannerService.java:118-124 | for clean comma-joined entries, the class-directory setting stores each entry absolutised, joined with commas |
| JavaScanner.JarListPieces | src/main/java/org/pqca/scanning/java/JavaScannerService.java:79-100 | the stored jar list holds one rewritten entry per split piece, in order |
| JavaScanner.ClassDirListPieces | src/main/java/org/pqca/scanning/java/JavaScannerService.java:118-125 | the stored class-directory list holds one absolutised entry per split piece, in order |
| JavaScanner.FileLines | src/main/java/org/pqca/scanning/java/JavaScannerService.java:187-188 | the sum of the line counts of a module's files; its property is TotalsAdd |
| JavaScanner.TotalFiles | src/main/java/org/pqca/scanning/java/JavaScannerService.java:186 | the number of files over all modules; its property is TotalsAdd |
| JavaScanner.TotalLines | src/main/java/org/pqca/scanning/java/JavaScannerService.java:187-188 | the number of lines over all modules; its property is TotalsAdd |
| JavaScanner.TotalsAdd | src/main/java/org/pqca/scanning/java/JavaScannerService.java:185-188 | file and line totals of a concatenation are the sums of the parts' totals |
| JavaScanner.Decimal | src/main/java/org/pqca/scanning/java/JavaScannerService.java:190-191 | the decimal digits of n, as Java prints an int: non-empty, all digits, denoting n, and no leading zero unless n is 0 |
| JavaScanner.LabelText | src/main/java/org/pqca/scanning/java/JavaScannerService.java:190-195 | the text of the LABEL for module k of n |
| JavaScanner.Labels | src/main/java/org/pqca/scanning/java/JavaScannerService.java:190-195 | one LABEL message per module, in module order |
| JavaScanner.LabelsKeepDetections | src/main/java/org/pqca/scanning/java/JavaScannerService.java:192-196 | a LABEL message keeps the rule that every DETECTION has evidence |
| JavaScanner.EmitAllSendsNoLabel | src/main/java/org/pqca/scanning/ScannerService.java:76-99 | the component walk of accept sends no LABEL and never raises ClientDisconnected |
| JavaScanner.ModuleStep | src/main/java/org/pqca/scanning/java/JavaScannerService.java:185-200 | one module of scan: its LABEL, then accept of its detections; its properties are ModuleStepFacts |
| JavaScanner.ScanWalk | src/main/java/org/pqca/scanning/java/JavaScannerService.java:185-200 | the first n modules of scan, in order; its properties are the ScanWalk lemmas |
| JavaScanner.ModuleStepFacts | src/main/java/org/pqca/scanning/java/JavaScannerService.java:192-198 | a module ends in ClientDisconnected iff a dispatcher refuses its LABEL; otherwise its batch joins the store and its LABEL is the only one sent |
| JavaScanner.ScanWalkAfterFault | src/main/java/org/pqca/scanning/java/JavaScannerService.java:185-200 | once an exception has escaped, later modules change nothing |
| JavaScanner.ScanWalkKeepsInv | src/main/java/org/pqca/scanning/java/JavaScannerService.java:185-200 | the scan keeps the aggregator's invariant; ids, messages and the store only grow |
| JavaScanner.ScanWalkStore | src/main/java/org/pqca/scanning/java/JavaScannerService.java:185-200 | a scan without exception appends every delivered batch to the store, in module order |
| JavaScanner.ScanWalkLabels | src/main/java/org/pqca/scanning/java/JavaScannerService.java:190-196 | a scan without exception sends every module's LABEL in order when a dispatcher is attached, and sends and records nothing without one |
| JavaScanner.ScanWalkDisconnected | src/main/java/org/pqca/scanning/java/JavaScannerService.java:192-196 | ClientDisconnected escapes exactly at the first LABEL the dispatcher refuses; with no exception no LABEL was refused |
| JavaScanner.JavaScannerService.constructor | src/main/java/org/pqca/scanning/java/JavaScannerService.java:58-72 | no jar list, no class directories, build required, and a fresh scanner service |
| JavaScanner.JavaScannerService.GetJavaDependencyJars | src/main/java/org/pqca/scanning/java/JavaScannerService.java:74-76 | reads back the stored jar list |
| JavaScanner.JavaScannerService.GetJavaClassDirs | src/main/java/org/pqca/scanning/java/JavaScannerService.java:113-115 | reads back the stored class-directory list |
| JavaScanner.JavaScannerService.GetRequireBuild | src/main/java/org/pqca/scanning/java/JavaScannerService.java:127-129 | reads back the build flag |
| JavaScanner.JavaScannerService.SetJavaDependencyJars | src/main/java/org/pqca/scanning/java/JavaScannerService.java:79-100 | null stays null; otherwise the split, rewritten and comma-joined list |
| JavaScanner.JavaScannerService.SetJavaClassDirs | src/main/java/org/pqca/scanning/java/JavaScannerService.java:118-125 | null stays null; otherwise the split, absolutised and comma-joined list |
| JavaScanner.JavaScannerService.SetRequireBuild | src/main/java/org/pqca/scanning/java/JavaScannerService.java:131-133 | the flag is stored and read back |
| JavaScanner.JavaScannerService.ScanModule | src/main/java/org/pqca/scanning/java/JavaScannerService.java:190-198 | one module changes the service exactly as ModuleStep says, and keeps the invariant |
| JavaScanner.JavaScannerService.Scan | src/main/java/org/pqca/scanning/java/JavaScannerService.java:137-209 | the ids, messages and store are those of the walk over all modules with their delivered batches; an escaped exception is the result; otherwise the store is sanitised and the result carries the file and line totals and the store |

## Left out

- The analysis engine is not part of this model: the Sonar Java frontend, the detection rule, the sensor context and `getSonarComponents`. Nor is the translation of detection nodes into CycloneDX (`CBOMOutputFile.add`, `createOutputFormat`). `Accept` therefore receives a batch of components. The cumulative output file is modelled as the concatenation of batches.
- JavaScanner.JavaScannerService.Scan: the engine calls `accept` while `javaFrontend.scan` runs for a module (JavaScannerService.java:198). The model passes those detections in as one batch per module and calls `Accept` with it after the module's LABEL. Several `accept` calls for one module are merged into one batch. An exception from `accept` is modelled as escaping `scan`, because whether the engine swallows it is not visible here. After such an exception the model's store holds the module's whole batch, while the program's holds only the components of the `accept` calls made up to and including the one that threw (each call adds its own nodes first, ScannerService.java:69). The `int` counters are unbounded, so Java overflow is not modelled.
- `ScannerManager.reset` in `getBOM` resets the engine's global state, which is not part of this model. Wrapping the result in `Optional` and in a `CBOM` record is the identity here.
- JSON serialisation (`toJSON`, `formJSON`, the `ObjectMapper` payload of DETECTION messages) is not modelled: a DETECTION carries the component value.
- `synchronized` is dropped. Methods run one at a time.
- The filesystem, the working directory and the clock are parameters: the directory entries, `canonicalPath`, `absolutize` and the two millisecond readings.
- Deduplication.DedupAcrossCalls: finding ids come from an arbitrary hash, so two distinct occurrences with colliding hashes count as one finding, as they do in the program. Nothing is claimed about hash injectivity.
- Occurrence objects are values. The in-place rewrite in `sanitizeOccurrence` changes the Occurrence objects of the per-batch copy made in `accept` (ScannerService.java:71-87). Whether the foreign conversion shares those objects with the cumulative store is not visible, and is not modelled. DETECTION payloads are serialised when they are sent (ScannerService.java:92-94), so a later rewrite cannot reach them.
- A null `Evidence` and a null occurrence list are both `None` in the model. Deduplication throws on either. Sanitisation treats both as empty.
- The directory walk, the pruning and the exclusion matching belong to the generic indexing service, which is not part of this model. Only the Java-specific overrides are modelled. `JavaIndexService.baseDirectory` is kept because the constructor hands it to that service.
- `Main.java` and the commented-out build-artifact check in `scan` are not modelled.
- The setting lists are split on the regular expression `\s*,\s*`, which is not a plain trim of every piece. Whitespace goes only where it touches a comma. A string without a comma is kept whole. Trailing empty pieces are dropped. The model follows the code exactly.
- Two of the code's exceptions are modelled as error results: `NullPointerException` for a component without evidence, and `StringIndexOutOfBoundsException` for a location equal to the project path. `getBOM` can therefore end with an exception rather than a present result.
- An occurrence location is a string in the model, never null. The `NullPointerException` that `location.startsWith` raises on a null location (ScannerService.java:169) is therefore not modelled.
