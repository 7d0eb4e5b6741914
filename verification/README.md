# Omnivore, modelled and proved

A model, in Dafny, of the two halves of Omnivore that turn running programs into coverage figures, with proofs of what
their figures mean.

**The probe pipeline.** `Bytecode` is a small stack machine (operations, line markers, labels, jumps, switches, return,
exception tables) with a step semantics for whole classes: many activations interleaved, with effects from outside the
class. `ProbeLayout`, `ProbeInserter`, `ClassInstrumenter` and `ClassTransformer` are the rewrite, as the visitor classes that
emit it and as what they should emit; `Lockstep` relates the emission to the walk that predicts it; `ProbeLabels`,
`Simulation` and `Interleaving` prove that the rewrite preserves behaviour and that probes tell exactly the edges and lines
passed, unless a probe runs before the class's initializer has set its field; `ClassRuns` and `TestRun` carry that to a
class and to a process of many classes beside the original process. `ClassId` is the CRC-64 of class
names, `ExecutionStore` the shared and growing probe arrays, `ByteStream`, `ExecutionFile`, `ProbeFile` and
`EmbeddedProbeMap` the file formats, `ExecutionMerge`, `ProbeMerge` and `ReportTask` the joining of many files, `Analyzer` and
`AnalysisLaws` the figures. `EndToEnd` composes all of it: the report is about the original program and what its runs did;
`Recording` shows that the files it speaks of are those the code writes.

**The dashboard.** `FileTree` is the collapsed directory tree, `Composite` the union over targets, `RateLimiter` the
fixed-window limiter, `SnapshotStore` and `Retention` the snapshot table and the ratchet, `GoProfile` the block expander.
`Text`, `Sets`, `Permutations`, `Wrappers` and `CoverageLines` are shared.

The theorems are about functions of the model, and what those functions are is fixed apart from them, by opcodes, bytes,
exponents, names and sums: `MachineLaws` has the instructions, edges and entries, `FormatLaws` the files byte by byte,
`FileTreeLaws` the figures of directories, `RetentionLaws` the answers and projects; the other modules have theirs beside
the definitions.

Where the code changes state in place (visitors, stores, streams, the database, the limiter) there is a class or a loop
proved against a function of the old state; the theorems are about that function. `dafny verify dfyconfig.toml` checks
everything. No code of Omnivore was executed.

Facts about the code that differ from what its comments or a reader would expect:

- `build_dir_node` does not end for absolute paths that part directly below the root (`FileTree.TreeEnds` has the exact
  condition, `FileTree.PartingAtTheRoot` an input).
- The merge compares probes by a string with bars in it, so a bar in a method name can make two different methods look
  alike (`ProbeMerge.BarsConfuse`, `ProbeMerge.ConfusableIffBar`).
- A method with probes that runs before its own class's initializer, as one called from a superclass's initializer can,
  throws a NullPointerException at its first probe, where the original does not (`ClassRuns.SuperclassCallsTooEarly`; the
  exact condition is in `Interleaving.FaultlessIffExplained` and `TestRun.FaultlessIffSameWorld`).
- The limiter's 32-bit count wraps in a release build, and a client with 2^32 requests in a window has one too many
  accepted (`RateLimiter.WindowAcceptsLimit` has the exact condition, `RateLimiter.FloodExceedsLimit` a run).
- The execution files' mismatch counter is only meaningful as zero or not: how many it counts depends on file order
  (`ExecutionMerge.CountMeansDisagree`, `ExecutionMerge.CountDependsOnOrder`).

## Model

| member | source | states |
|---|---|---|
| `EndToEnd.ReportTellsRuns` | coverage-plugin/omnivore-agent/src/main/kotlin/com/jkjamies/omnivore/agent/reporter/CoverageAnalyzer.kt:29-136 | For any number of test processes of one instrumentation in which nothing stores into a null probe field, whatever still runs when the stores are written, and however the files are ordered, joined and analysed: a file's `branchesCovered` is at most the number of (class, edge) pairs on a positive line that some original process took, and behind it by at most the number of activations that stand before the store of one of the file's probes; a hit line was passed; where no activation stands so, covered branches are exactly the edges taken and lines are hit exactly when passed. `branchesTotal` and the lines listed are exact, and only classes some process registered appear |
| `EndToEnd.ReportTellsSites` | coverage-plugin/omnivore-agent/src/main/kotlin/com/jkjamies/omnivore/agent/reporter/CoverageAnalyzer.kt:29-136 | The same site by site: the figures count the sites whose elements are true, each such site was passed, and each site passed is one of them or awaited by an activation |
| `EndToEnd.EdgesLag` | coverage-plugin/omnivore-agent/src/main/kotlin/com/jkjamies/omnivore/agent/runtime/ShutdownHook.kt:19-28 | Data written while activations run are behind by no more edges than activations stand before a store |
| `EndToEnd.ReportExists` | coverage-plugin/omnivore-gradle-plugin/src/main/kotlin/com/jkjamies/omnivore/gradle/tasks/OmnivoreReportTask.kt:269-391 | Nothing in that chain fails: the files are merged without error and the analyser does not throw |
| `EndToEnd.BranchesAreEdges` | coverage-plugin/omnivore-agent/src/main/kotlin/com/jkjamies/omnivore/agent/reporter/CoverageAnalyzer.kt:77-84 | Branch entries of the joined maps and edges of the original classes correspond one to one, and so do hits and edges that show |
| `EndToEnd.LinesAreSites` | coverage-plugin/omnivore-agent/src/main/kotlin/com/jkjamies/omnivore/agent/reporter/CoverageAnalyzer.kt:55-103 | A line is listed exactly when a loaded class has a site on it, and hit exactly when a site on it shows |
| `EndToEnd.JoinedArraysTell` | coverage-plugin/omnivore-gradle-plugin/src/main/kotlin/com/jkjamies/omnivore/gradle/tasks/OmnivoreReportTask.kt:275-302 | After joining, a class has an array exactly when some process registered it, as long as its probe count, true only at sites some process passed and false at such a site only while an activation is about to set it |
| `EndToEnd.MergedMapsTell` | coverage-plugin/omnivore-gradle-plugin/src/main/kotlin/com/jkjamies/omnivore/gradle/tasks/OmnivoreReportTask.kt:317-380 | Joining any probe files of one build gives each class its own entries, each once |
| `Recording.WriteData` | coverage-plugin/omnivore-agent/src/main/kotlin/com/jkjamies/omnivore/agent/runtime/ExecutionDataWriter.kt:24-51 | Writing the store of a process gives an execution file of that process |
| `Recording.WriteMaps` | coverage-plugin/omnivore-agent/src/main/kotlin/com/jkjamies/omnivore/agent/runtime/ProbeMapWriter.kt:49-77 | Writing a probe map of the project gives a probe file with a map of each class it held |
| `Recording.InstrumentByAgent` | coverage-plugin/omnivore-agent/src/main/kotlin/com/jkjamies/omnivore/agent/instrumentation/OmnivoreClassTransformer.kt:126-165 | The agent keeps a probe map one of the project, over classes as compiled and as instrumented by the build |
| `Recording.InstrumentByBuild` | coverage-plugin/omnivore-agent/src/main/kotlin/com/jkjamies/omnivore/agent/instrumentation/BuildTimeInstrumentingVisitor.kt:50-95 | So does the build, and the class it leaves carries a map of itself |
| `Recording.EmbeddedMapDescribes` | coverage-plugin/omnivore-agent/src/main/kotlin/com/jkjamies/omnivore/agent/instrumentation/EmbeddedProbeMap.kt:44-80 | A map embedded in a class and extracted again is still one of the project |
| `TestRun.ProcessTellsSites` | coverage-plugin/omnivore-agent/src/main/kotlin/com/jkjamies/omnivore/agent/instrumentation/ProbeInserter.kt:81-199 | A process of many interleaved instrumented classes over one store in which nothing stores into null does what the original process does under one schedule for all classes: the same world, every activation alike; at every moment each class's array is true only at sites the original process has passed, and false at such a site only while an activation stands before its store |
| `TestRun.FaultlessIffSameWorld` | coverage-plugin/omnivore-agent/src/main/kotlin/com/jkjamies/omnivore/agent/instrumentation/ClassInstrumenter.kt:227-252 | The exact condition: the original process is in the same world after every event if and only if no event stores into a probe field that is still null; raising an exception is taken to change the world, as it allocates one |
| `TestRun.OrderedCallsAreFaultless` | coverage-plugin/omnivore-agent/src/main/kotlin/com/jkjamies/omnivore/agent/instrumentation/ClassInstrumenter.kt:279-299 | Where methods with probes are called only after their class's initializer has registered it, nothing ever does |
| `TestRun.ProcessKeepsUp` | coverage-plugin/omnivore-agent/src/main/kotlin/com/jkjamies/omnivore/agent/instrumentation/ProbeInserter.kt:81-199 | All original classes together follow along event by event: one world, the activations of every class, and the sites each passes |
| `TestRun.ProcessProjects` | coverage-plugin/omnivore-agent/src/main/kotlin/com/jkjamies/omnivore/agent/runtime/ExecutionDataStore.kt:24-58 | What a process does to one class is a run of that class alone, with everything else as outside effects: arrays of other classes never interfere |
| `ClassRuns.InstrumentedRunTellsSites` | coverage-plugin/omnivore-agent/src/main/kotlin/com/jkjamies/omnivore/agent/instrumentation/ProbeInserter.kt:81-199 | A run of an instrumented class from a null field and a clear array that never stores into null is a run of the original class, and at every moment the array tells which sites that run has passed, those about to be set apart |
| `ClassRuns.SuperclassCallsTooEarly` | coverage-plugin/omnivore-agent/src/main/kotlin/com/jkjamies/omnivore/agent/instrumentation/ProbeInserter.kt:170-180 | A method called before its class's initializer, as a superclass initializer can do, throws a NullPointerException at its first probe, and no run of the original class does the like |
| `ClassRuns.InstrumentedIsRewritten` | coverage-plugin/omnivore-agent/src/main/kotlin/com/jkjamies/omnivore/agent/instrumentation/ClassInstrumenter.kt:185-252 | The methods of the instrumented class, its prefixed or new initializer included, are the rewritten bodies the run theorems speak of |
| `ClassRuns.ClassProgramIsValid` | coverage-plugin/omnivore-agent/src/main/kotlin/com/jkjamies/omnivore/agent/instrumentation/ClassInstrumenter.kt:185-225 | The methods of a class get disjoint ranges of indices, all below the size of the array |
| `Interleaving.RewrittenRunsAreOriginal` | coverage-plugin/omnivore-agent/src/main/kotlin/com/jkjamies/omnivore/agent/instrumentation/ProbeInserter.kt:81-199 | Meaning is preserved: for every interleaving of calls, recursion, threads, exceptions and outside effects in which no probe stores into a null field, the rewritten class does the original operations on the same world in the same order and every activation ends the same way, with at most three more stack slots, in between one and seven steps per original step; every probe set was set before or had its site passed, and every site passed has its probe set or an activation before its store |
| `Interleaving.FaultlessIffExplained` | coverage-plugin/omnivore-agent/src/main/kotlin/com/jkjamies/omnivore/agent/instrumentation/ClassInstrumenter.kt:227-252 | Exactly when that holds: the original class keeps up through all of a run if and only if no event of it stores into a field that is still null; raising an exception is taken to change the world, as it allocates one |
| `Interleaving.OrderedStartsAreFaultless` | coverage-plugin/omnivore-agent/src/main/kotlin/com/jkjamies/omnivore/agent/instrumentation/ClassInstrumenter.kt:279-299 | It holds where methods with probes start only after the initializer has registered the array |
| `Interleaving.FollowersAreFaultless` | coverage-plugin/omnivore-agent/src/main/kotlin/com/jkjamies/omnivore/agent/instrumentation/ProbeInserter.kt:170-180 | The exact condition on a schedule of the original: every run of the rewritten class that follows it, as far as it goes, is without a fault if and only if sites with probes are passed only after an activation of the initializer has taken a step of its own |
| `Interleaving.OriginalRunsAreKept` | coverage-plugin/omnivore-agent/src/main/kotlin/com/jkjamies/omnivore/agent/instrumentation/ProbeInserter.kt:81-199 | The converse: every run of the original class that starts the initializer before it passes a site with a probe is matched by some run of the rewritten one without faults, within seven steps for one, with no activation before a store at its end and with exact probes |
| `Interleaving.InvariantHolds` | coverage-plugin/omnivore-agent/src/main/kotlin/com/jkjamies/omnivore/agent/instrumentation/ProbeInserter.kt:81-199 | The simulation relation between the two classes holds after every prefix of every run without a store into null |
| `Interleaving.AtMostThreeMore` | coverage-plugin/omnivore-agent/src/main/kotlin/com/jkjamies/omnivore/agent/instrumentation/ProbeInserter.kt:192-199 | Behaving alike bounds the operands: a rewritten activation has at most three more than the original, and none where its method has no probes |
| `Simulation.MatchedStep` | coverage-plugin/omnivore-agent/src/main/kotlin/com/jkjamies/omnivore/agent/instrumentation/ProbeInserter.kt:89-142 | One original step of an activation (operation, exception, jump, switch, return, marker) is matched by one step of the rewritten code at the related place |
| `Simulation.StoreStep` | coverage-plugin/omnivore-agent/src/main/kotlin/com/jkjamies/omnivore/agent/instrumentation/ProbeInserter.kt:170-180 | Each instruction of a probe store leaves the original state alone and reads the field as it is; the last one sets exactly the probe of its site, inside the array |
| `Simulation.DoomedStep` | coverage-plugin/omnivore-agent/src/main/kotlin/com/jkjamies/omnivore/agent/instrumentation/ProbeInserter.kt:170-180 | A store that has read null raises where it stands and sets no probe |
| `Simulation.MarkerStep` | coverage-plugin/omnivore-agent/src/main/kotlin/com/jkjamies/omnivore/agent/instrumentation/ClassInstrumenter.kt:279-299 | Labels change nothing, and the initializer's registration sets the field and nothing of the original state |
| `Simulation.LeaveStep` | coverage-plugin/omnivore-agent/src/main/kotlin/com/jkjamies/omnivore/agent/instrumentation/ProbeInserter.kt:150-156 | The jump out of a probe block leads to where the original edge leads |
| `MachineLaws.JumpDecides` | coverage-plugin/omnivore-agent/src/main/kotlin/com/jkjamies/omnivore/agent/instrumentation/ProbeInserter.kt:96-114 | What an edge is: any jump but GOTO and JSR tests its operands and falls through, passing its site 0, or goes to the first mark of its target, passing its site 1 |
| `MachineLaws.GotoJumps` | coverage-plugin/omnivore-agent/src/main/kotlin/com/jkjamies/omnivore/agent/instrumentation/ProbeInserter.kt:150-156 | A jump with opcode 167 goes to the first mark of its target, whatever is on the stack |
| `MachineLaws.LookupDecides` | coverage-plugin/omnivore-agent/src/main/kotlin/com/jkjamies/omnivore/agent/instrumentation/ProbeInserter.kt:124-142 | A lookup switch goes to the label of the first key that is its operand, passing the site of that arm |
| `MachineLaws.TableDecides` | coverage-plugin/omnivore-agent/src/main/kotlin/com/jkjamies/omnivore/agent/instrumentation/ProbeInserter.kt:117-142 | A table switch goes to the label at its operand less the minimum, or outside the range to its default, passing the site of that arm |
| `MachineLaws.BooleanStore` | coverage-plugin/omnivore-agent/src/main/kotlin/com/jkjamies/omnivore/agent/instrumentation/ProbeInserter.kt:170-180 | The store of a probe sets one element by the lowest bit of its operand, and raises where the array is null |
| `MachineLaws.EntryFields` | coverage-plugin/omnivore-agent/src/main/kotlin/com/jkjamies/omnivore/agent/instrumentation/ProbeInserter.kt:158-168 | Each field of an entry: index, method, kind, line, and for an edge how many decisions are before its own |
| `ProbeLabels.ProbeLabelFound` | coverage-plugin/omnivore-agent/src/main/kotlin/com/jkjamies/omnivore/agent/instrumentation/ProbeInserter.kt:97-98 | The new labels are found in the rewritten code at their own probe blocks |
| `ProbeLabels.SourceLabelMoves` | coverage-plugin/omnivore-agent/src/main/kotlin/com/jkjamies/omnivore/agent/instrumentation/ProbeInserter.kt:109-155 | Every label of the original code is found in the rewritten code at the start of what its instruction became |
| `ProbeInserter.ProbeInserter.Accept` | coverage-plugin/omnivore-agent/src/main/kotlin/com/jkjamies/omnivore/agent/instrumentation/ProbeInserter.kt:57-156 | Replaying a method into the visitor emits exactly the rewritten layout of its code and records the entries of its sites |
| `ProbeInserter.ProbeInserter.VisitJumpInsn` | coverage-plugin/omnivore-agent/src/main/kotlin/com/jkjamies/omnivore/agent/instrumentation/ProbeInserter.kt:89-115 | The replay of one jump: its layout and entries under the visitor's invariant, and the probe count two higher, or the same for opcodes 167 and 168 |
| `ProbeInserter.ProbeInserter.RouteJump` | coverage-plugin/omnivore-agent/src/main/kotlin/com/jkjamies/omnivore/agent/instrumentation/ProbeInserter.kt:96-114 | Two probes, one group, two labels, in the order of the source |
| `ProbeInserter.ProbeInserter.RouteSwitch` | coverage-plugin/omnivore-agent/src/main/kotlin/com/jkjamies/omnivore/agent/instrumentation/ProbeInserter.kt:117-142 | One block for the default and then one for each arm, arms that share a target kept distinct |
| `ProbeInserter.ProbeInserter.RecordAndEmit` | coverage-plugin/omnivore-agent/src/main/kotlin/com/jkjamies/omnivore/agent/instrumentation/ProbeInserter.kt:158-168 | The next index is recorded with the current line and stored to |
| `ProbeInserter.ProbeInserter.VisitMaxs` | coverage-plugin/omnivore-agent/src/main/kotlin/com/jkjamies/omnivore/agent/instrumentation/ProbeInserter.kt:192-199 | Three more slots exactly when the method has probes |
| `ProbeLayout.EntryDescribesSite` | coverage-plugin/omnivore-agent/src/main/kotlin/com/jkjamies/omnivore/agent/instrumentation/ProbeInserter.kt:158-168 | The n-th entry describes the n-th site: its line, type and decision number, with index offset + n |
| `ProbeLayout.SiteIsListed` | coverage-plugin/omnivore-agent/src/main/kotlin/com/jkjamies/omnivore/agent/instrumentation/ProbeInserter.kt:81-142 | Every arm of every decision and every first marker of a line is a site, at its counted place |
| `ProbeLayout.SiteCount` | coverage-plugin/omnivore-agent/src/main/kotlin/com/jkjamies/omnivore/agent/instrumentation/ProbeInserter.kt:81-142 | A method has one probe for each distinct line with a marker and one for each edge, with two edges to a jump and one more to a switch than it has labels |
| `ProbeLayout.JumpAdds` | coverage-plugin/omnivore-agent/src/main/kotlin/com/jkjamies/omnivore/agent/instrumentation/ProbeInserter.kt:218-219 | Any jump adds two probes, but opcodes 167 and 168 none |
| `ProbeLayout.SiteIff` | coverage-plugin/omnivore-agent/src/main/kotlin/com/jkjamies/omnivore/agent/instrumentation/ProbeInserter.kt:81-142 | Exactly which arms of which instructions are sites, by opcodes and labels |
| `ProbeLayout.OneStoreAhead` | coverage-plugin/omnivore-agent/src/main/kotlin/com/jkjamies/omnivore/agent/instrumentation/ProbeInserter.kt:170-180 | No position of the rewritten code stands before two stores |
| `ProbeLayout.FormFor` | coverage-plugin/omnivore-agent/src/main/kotlin/com/jkjamies/omnivore/agent/instrumentation/ProbeInserter.kt:183-190 | The chosen push instruction can hold the value, and none that can is shorter |
| `Lockstep.EmissionFollowsWalk` | coverage-plugin/omnivore-agent/src/main/kotlin/com/jkjamies/omnivore/agent/instrumentation/ClassInstrumenter.kt:37-44 | Lockstep: the probes emitted for a class store to 0, 1, 2, ... up to the count in order, entry n has index n, and each site's entry sits at the index its store uses |
| `Lockstep.RewalkIsStable` | coverage-plugin/omnivore-agent/src/main/kotlin/com/jkjamies/omnivore/agent/instrumentation/OmnivoreClassTransformer.kt:126-165 | Walking rewritten methods describes the same probes as walking the originals |
| `Lockstep.RewalkOfInstrumentedClass` | coverage-plugin/omnivore-agent/src/main/kotlin/com/jkjamies/omnivore/agent/instrumentation/OmnivoreClassTransformer.kt:126-165 | The same for the class as it leaves the visitor, with an added initializer |
| `ClassInstrumenter.WalkProbes` | coverage-plugin/omnivore-agent/src/main/kotlin/com/jkjamies/omnivore/agent/instrumentation/ClassInstrumenter.kt:75-129 | The walk's callbacks, numbered through, are the entries of the class; there is one for each line with a marker and each edge of its methods, where jumps but 167 and 168 have two edges |
| `ClassInstrumenter.CountProbes` | coverage-plugin/omnivore-agent/src/main/kotlin/com/jkjamies/omnivore/agent/instrumentation/ClassInstrumenter.kt:49-53 | The count is the number of sites of all instrumentable methods, which are those lines and edges |
| `ClassInstrumenter.TotalIsCount` | coverage-plugin/omnivore-agent/src/main/kotlin/com/jkjamies/omnivore/agent/instrumentation/ClassInstrumenter.kt:75-129 | The number of probes of a class by its lines, opcodes and switch labels alone; initializers, bridges, abstract, native and filtered methods have none |
| `ClassInstrumenter.BuildProbeMap` | coverage-plugin/omnivore-agent/src/main/kotlin/com/jkjamies/omnivore/agent/instrumentation/ClassInstrumenter.kt:56-69 | The entries of the class are appended to the map in order |
| `ClassInstrumenter.InstrumentingClassVisitor.VisitMethod` | coverage-plugin/omnivore-agent/src/main/kotlin/com/jkjamies/omnivore/agent/instrumentation/ClassInstrumenter.kt:185-225 | The method is rewritten from the running offset, which advances by its probes |
| `ClassInstrumenter.InstrumentingClassVisitor.VisitEnd` | coverage-plugin/omnivore-agent/src/main/kotlin/com/jkjamies/omnivore/agent/instrumentation/ClassInstrumenter.kt:227-252 | An initializer is added exactly when there are probes and none was seen |
| `ClassTransformer.InstrumentClass` | coverage-plugin/omnivore-agent/src/main/kotlin/com/jkjamies/omnivore/agent/instrumentation/OmnivoreClassTransformer.kt:109-188 | Interfaces, excluded classes and classes without probes are left alone; otherwise the map gains the class's entries and the class is rewritten unless it already was |
| `ClassTransformer.MethodsAre` | coverage-plugin/omnivore-agent/src/main/kotlin/com/jkjamies/omnivore/agent/instrumentation/ClassInstrumenter.kt:185-225 | Method by method, what the instrumented class has: initializers start with the registration, filtered methods keep their code, all others are laid out from the number of probes before them |
| `ClassTransformer.AddedInitializer` | coverage-plugin/omnivore-agent/src/main/kotlin/com/jkjamies/omnivore/agent/instrumentation/ClassInstrumenter.kt:227-252 | Exactly a class without an initializer gets one, last, that registers and returns |
| `ClassTransformer.VisitEnd` | coverage-plugin/omnivore-agent/src/main/kotlin/com/jkjamies/omnivore/agent/instrumentation/BuildTimeInstrumentingVisitor.kt:50-95 | The build-time path replaces the class's map by a fresh one in the probe map and in its annotations and rewrites the class; it fails exactly when the map has a string too long for the format |
| `ClassTransformer.BuildTimeAndLoadTimeAgree` | coverage-plugin/omnivore-agent/src/main/kotlin/com/jkjamies/omnivore/agent/instrumentation/OmnivoreClassTransformer.kt:126-165 | The agent's walk over a class the build has rewritten finds the build's own map, and finds it in the same cases |
| `ClassId.Crc64IsRemainder` | coverage-plugin/omnivore-agent/src/main/kotlin/com/jkjamies/omnivore/agent/runtime/ClassId.kt:39-47 | An id is that of the table-driven loop if and only if it is the remainder of dividing the name's bits, followed by 64 zeros, by the polynomial of annex B of ECMA-182, given by its 34 exponents |
| `ClassId.PolyIsEcma` | coverage-plugin/omnivore-agent/src/main/kotlin/com/jkjamies/omnivore/agent/runtime/ClassId.kt:51 | The constant of the source is that polynomial, its highest term left out and its bits reversed |
| `ClassId.IdOfHighestBit` | coverage-plugin/omnivore-agent/src/main/kotlin/com/jkjamies/omnivore/agent/runtime/ClassId.kt:39-61 | The byte 0x80 alone has the constant itself as its id |
| `ClassId.RemainderIsUnique` | coverage-plugin/omnivore-agent/src/main/kotlin/com/jkjamies/omnivore/agent/runtime/ClassId.kt:39-47 | There is only one quotient and remainder |
| `ClassId.BuildTable` | coverage-plugin/omnivore-agent/src/main/kotlin/com/jkjamies/omnivore/agent/runtime/ClassId.kt:49-61 | Entry i of the table is eight single-bit steps of i |
| `ClassId.ComputeCrc64` | coverage-plugin/omnivore-agent/src/main/kotlin/com/jkjamies/omnivore/agent/runtime/ClassId.kt:40-47 | The loop over the table computes the bit-by-bit register |
| `ClassId.Crc64IsLinear` | coverage-plugin/omnivore-agent/src/main/kotlin/com/jkjamies/omnivore/agent/runtime/ClassId.kt:40-47 | On names of equal length the id is linear in exclusive or |
| `ClassId.NearbyNamesDiffer` | coverage-plugin/omnivore-agent/src/main/kotlin/com/jkjamies/omnivore/agent/runtime/ClassId.kt:17-35 | Two different names of equal length that differ only within eight adjacent bytes never share an id |
| `ExecutionStore.DataIsLiveHits` | coverage-plugin/omnivore-agent/src/main/kotlin/com/jkjamies/omnivore/agent/runtime/ExecutionDataStore.kt:24-58 | Over every interleaving of registrations and probe writes, an element of a class's array is true exactly when a write hit it in the array then current, through every later growth |
| `ExecutionStore.NothingIsLost` | coverage-plugin/omnivore-agent/src/main/kotlin/com/jkjamies/omnivore/agent/runtime/ExecutionDataStore.kt:48-52 | Over any continuation of a run an id keeps its entry, at least its length and every hit |
| `ExecutionStore.HoldersShare` | coverage-plugin/omnivore-agent/src/main/kotlin/com/jkjamies/omnivore/agent/runtime/ExecutionDataStore.kt:54-57 | While all registrations of an id ask for one count, all of them hold the array the store reports |
| `ExecutionStore.DataIsAllHits` | coverage-plugin/omnivore-agent/src/main/kotlin/com/jkjamies/omnivore/agent/runtime/ExecutionDataStore.kt:24-58 | Then the data are exactly all hits ever made on the class, by any holder |
| `ExecutionStore.Trace` | coverage-plugin/omnivore-agent/src/main/kotlin/com/jkjamies/omnivore/agent/runtime/ExecutionDataStore.kt:24-58 | In every reachable state each array handed out is at least as long as asked for and belongs to no other class: no probe store is out of bounds |
| `ExecutionStore.RegisteredIs` | coverage-plugin/omnivore-agent/src/main/kotlin/com/jkjamies/omnivore/agent/runtime/ExecutionDataStore.kt:24-58 | After a registration the array has the longer of both lengths and the hits from before, and other classes are as they were |
| `ExecutionStore.ExecutionDataStore.GetOrCreateProbes` | coverage-plugin/omnivore-agent/src/main/kotlin/com/jkjamies/omnivore/agent/runtime/ExecutionDataStore.kt:24-58 | Create, grow with the hits copied, or share; the same array object when no growth is needed |
| `ExecutionStore.ExecutionDataStore.RecordHit` | coverage-plugin/omnivore-agent/src/main/kotlin/com/jkjamies/omnivore/agent/runtime/ExecutionDataStore.kt:7-18 | A write through a shared array is a write to the store |
| `ExecutionFile.FileRoundTrip` | coverage-plugin/omnivore-agent/src/main/kotlin/com/jkjamies/omnivore/agent/runtime/ExecutionDataReader.kt:15-49 | Whatever the writer writes is read back as it was, record by record |
| `ExecutionFile.PackRoundTrip` | coverage-plugin/omnivore-agent/src/main/kotlin/com/jkjamies/omnivore/agent/runtime/ExecutionDataWriter.kt:24-51 | Unpacking the packed bits gives the array back, counts not divisible by eight included |
| `ExecutionFile.Write` | coverage-plugin/omnivore-agent/src/main/kotlin/com/jkjamies/omnivore/agent/runtime/ExecutionDataWriter.kt:24-51 | The writer produces the file bytes, or fails exactly when a class name exceeds 65535 bytes or an array is too long for its packed size to be computed in 32 bits |
| `ExecutionFile.AllocatableCounts` | coverage-plugin/omnivore-agent/src/main/kotlin/com/jkjamies/omnivore/agent/runtime/ExecutionDataWriter.kt:38-39 | That is more than 2^31 - 8 probes, and the same for the reader, which takes counts down to -14 for no bytes |
| `ExecutionFile.Read` | coverage-plugin/omnivore-agent/src/main/kotlin/com/jkjamies/omnivore/agent/runtime/ExecutionDataReader.kt:15-49 | The reader accepts exactly the parseable files and its store holds what the file says |
| `ProbeFile.FileRoundTrip` | coverage-plugin/omnivore-agent/src/main/kotlin/com/jkjamies/omnivore/agent/runtime/ProbeMapReader.kt:21-72 | Reading written maps gives them back, probe order included, an empty source file name as none |
| `ProbeFile.OlderVersionsFail` | coverage-plugin/omnivore-agent/src/main/kotlin/com/jkjamies/omnivore/agent/runtime/ProbeMapReader.kt:21-72 | A file of any other version is refused |
| `ProbeFile.Write` | coverage-plugin/omnivore-agent/src/main/kotlin/com/jkjamies/omnivore/agent/runtime/ProbeMapWriter.kt:49-77 | The writer produces the file bytes, or fails exactly when a string exceeds 65535 bytes |
| `ProbeFile.Read` | coverage-plugin/omnivore-agent/src/main/kotlin/com/jkjamies/omnivore/agent/runtime/ProbeMapReader.kt:21-72 | The reader accepts exactly the parseable files and its map holds what the file says |
| `ByteStream.TextRoundTrip` | coverage-plugin/omnivore-agent/src/main/kotlin/com/jkjamies/omnivore/agent/runtime/ProbeMapWriter.kt:59-69 | Decoding the modified UTF-8 of a string gives the string back |
| `ByteStream.IntegerRoundTrip` | coverage-plugin/omnivore-agent/src/main/kotlin/com/jkjamies/omnivore/agent/runtime/ProbeMapWriter.kt:58-72 | Decoding a big-endian two's complement integer gives it back |
| `FormatLaws.ExecutionFileIs` | coverage-plugin/omnivore-agent/src/main/kotlin/com/jkjamies/omnivore/agent/runtime/ExecutionDataWriter.kt:24-51 | A whole execution file byte for byte: magic, version, count, id, name, probe count and packed probes |
| `FormatLaws.ProbeFileIs` | coverage-plugin/omnivore-agent/src/main/kotlin/com/jkjamies/omnivore/agent/runtime/ProbeMapWriter.kt:49-77 | A whole probe file byte for byte |
| `FormatLaws.LongsAre` | coverage-plugin/omnivore-agent/src/main/kotlin/com/jkjamies/omnivore/agent/runtime/ExecutionDataWriter.kt:37 | A long is written in two's complement, its higher half first, and each half (`FormatLaws.IntegersAre`) from its highest byte on |
| `FormatLaws.PackedIs` | coverage-plugin/omnivore-agent/src/main/kotlin/com/jkjamies/omnivore/agent/runtime/ExecutionDataWriter.kt:41-48 | Byte j of the packed array is the weighted sum of the eight probes from 8 * j on, the first in the lowest bit |
| `FormatLaws.UnitsAre` | coverage-plugin/omnivore-agent/src/main/kotlin/com/jkjamies/omnivore/agent/runtime/ExecutionDataWriter.kt:38 | The bytes of one character in modified UTF-8: one, two or three, with the ranges of each and the value they make up |
| `FormatLaws.KindIsRead` | coverage-plugin/omnivore-agent/src/main/kotlin/com/jkjamies/omnivore/agent/runtime/ProbeMapReader.kt:55-67 | An entry read: kind 0 is a line and 1 a branch, any other is refused, and the composable flag is set by 1 alone |
| `FormatLaws.OthersAreRefused` | coverage-plugin/omnivore-agent/src/main/kotlin/com/jkjamies/omnivore/agent/runtime/ExecutionDataReader.kt:15-49 | No file with another magic, another version or a shorter header is read, for both formats |
| `FormatLaws.MalformedAre` | coverage-plugin/omnivore-agent/src/main/kotlin/com/jkjamies/omnivore/agent/runtime/ExecutionDataReader.kt:15-49 | What `readUTF` refuses: a byte no character starts with, and characters cut short or not continued |
| `FormatLaws.VectorsAre` | coverage-plugin/omnivore-agent/src/main/kotlin/com/jkjamies/omnivore/agent/instrumentation/EmbeddedProbeMap.kt:46-77 | The Base64 of one, two and three bytes as in section 10 of RFC 4648, three bytes at a time |
| `FormatLaws.DecodableIs` | coverage-plugin/omnivore-agent/src/main/kotlin/com/jkjamies/omnivore/agent/instrumentation/EmbeddedProbeMap.kt:56-80 | Text that can be decoded has symbols and padding only, and not one symbol more than groups of four |
| `EmbeddedProbeMap.AttachedMapIsRead` | coverage-plugin/omnivore-agent/src/main/kotlin/com/jkjamies/omnivore/agent/instrumentation/EmbeddedProbeMap.kt:44-80 | Reading a class after attaching a map gives the map, whatever other annotations and older maps it had |
| `EmbeddedProbeMap.Base64RoundTrip` | coverage-plugin/omnivore-agent/src/main/kotlin/com/jkjamies/omnivore/agent/instrumentation/EmbeddedProbeMap.kt:46-77 | Decoding the Base64 of section 4 of RFC 4648 gives the bytes back |
| `EmbeddedProbeMap.ChunksJoin` | coverage-plugin/omnivore-agent/src/main/kotlin/com/jkjamies/omnivore/agent/instrumentation/EmbeddedProbeMap.kt:48-77 | Joining the chunks gives the text back |
| `EmbeddedProbeMap.ChunksAreWritable` | coverage-plugin/omnivore-agent/src/main/kotlin/com/jkjamies/omnivore/agent/instrumentation/EmbeddedProbeMap.kt:40-48 | Every chunk fits a constant-pool string |
| `EmbeddedProbeMap.Attach` | coverage-plugin/omnivore-agent/src/main/kotlin/com/jkjamies/omnivore/agent/instrumentation/EmbeddedProbeMap.kt:44-53 | Exactly one annotation with the map, other annotations kept |
| `EmbeddedProbeMap.Read` | coverage-plugin/omnivore-agent/src/main/kotlin/com/jkjamies/omnivore/agent/instrumentation/EmbeddedProbeMap.kt:56-80 | The single map the joined chunks decode to, none, or a failure |
| `ExecutionMerge.MergeExecution` | coverage-plugin/omnivore-gradle-plugin/src/main/kotlin/com/jkjamies/omnivore/gradle/tasks/OmnivoreReportTask.kt:273-309 | The store is the join of all files; it fails exactly when a file cannot be read; the counter adds up, file by file, the classes whose length differs from the join so far |
| `ExecutionMerge.CountMeansDisagree` | coverage-plugin/omnivore-gradle-plugin/src/main/kotlin/com/jkjamies/omnivore/gradle/tasks/OmnivoreReportTask.kt:285-296 | The counter is above zero exactly when two files disagree on the length of a class |
| `ExecutionMerge.CountDependsOnOrder` | coverage-plugin/omnivore-gradle-plugin/src/main/kotlin/com/jkjamies/omnivore/gradle/tasks/OmnivoreReportTask.kt:285-296 | How far above depends on the order of the files: lengths 1, 1, 2 count one and lengths 1, 2, 1 count two |
| `ExecutionMerge.MergedAllIsJoin` | coverage-plugin/omnivore-gradle-plugin/src/main/kotlin/com/jkjamies/omnivore/gradle/tasks/OmnivoreReportTask.kt:275-302 | Per class some file has: the greatest length, and true exactly where some file is |
| `ExecutionMerge.MergeIgnoresOrder` | coverage-plugin/omnivore-gradle-plugin/src/main/kotlin/com/jkjamies/omnivore/gradle/tasks/OmnivoreReportTask.kt:275-302 | Order and repetition of the files change no array |
| `ExecutionMerge.MergeFile` | coverage-plugin/omnivore-gradle-plugin/src/main/kotlin/com/jkjamies/omnivore/gradle/tasks/OmnivoreReportTask.kt:276-301 | One file: joined class by class, and exactly its classes of another length than so far counted, before the arrays grow |
| `ProbeMerge.MergeProbeMaps` | coverage-plugin/omnivore-gradle-plugin/src/main/kotlin/com/jkjamies/omnivore/gradle/tasks/OmnivoreReportTask.kt:310-387 | Unreadable files are skipped, none readable is an error, and the result is the merge of the readable ones |
| `ProbeMerge.SettledIsMerge` | coverage-plugin/omnivore-gradle-plugin/src/main/kotlin/com/jkjamies/omnivore/gradle/tasks/OmnivoreReportTask.kt:377-380 | A class survives exactly when all occurrences of each of its indices agree; each index then appears once, as one of its occurrences, under a name and source file some file gave |
| `ProbeMerge.MergeIsUnique` | coverage-plugin/omnivore-gradle-plugin/src/main/kotlin/com/jkjamies/omnivore/gradle/tasks/OmnivoreReportTask.kt:317-380 | Order and repetition of the files change neither the surviving classes nor what their indices mean |
| `ProbeMerge.MeaningIs` | coverage-plugin/omnivore-gradle-plugin/src/main/kotlin/com/jkjamies/omnivore/gradle/tasks/OmnivoreReportTask.kt:340 | The string of line 42 of `f` with descriptor `()V` is `42|f|()V|LINE`, or with `BRANCH` at its end |
| `ProbeMerge.MeaningTells` | coverage-plugin/omnivore-gradle-plugin/src/main/kotlin/com/jkjamies/omnivore/gradle/tasks/OmnivoreReportTask.kt:340 | Two probes mean the same exactly when line, type and `name|descriptor` are the same |
| `ProbeMerge.MeaningTellsFields` | coverage-plugin/omnivore-gradle-plugin/src/main/kotlin/com/jkjamies/omnivore/gradle/tasks/OmnivoreReportTask.kt:340 | Where no method name contains a bar that is line, name, descriptor and type |
| `ProbeMerge.ConfusableIffBar` | coverage-plugin/omnivore-gradle-plugin/src/main/kotlin/com/jkjamies/omnivore/gradle/tasks/OmnivoreReportTask.kt:340 | An entry can mean the same as one of another method if and only if its name or its descriptor has a bar |
| `ProbeMerge.ConfusableIffOtherCut` | coverage-plugin/omnivore-gradle-plugin/src/main/kotlin/com/jkjamies/omnivore/gradle/tasks/OmnivoreReportTask.kt:340 | Among methods that class files can have, an entry can mean the same as one of another method if and only if the joined text has a second bar with a method name before it and a descriptor after it |
| `ProbeMerge.BarsConfuse` | coverage-plugin/omnivore-gradle-plugin/src/main/kotlin/com/jkjamies/omnivore/gradle/tasks/OmnivoreReportTask.kt:340 | Two different methods that a class file can have and that mean the same |
| `ReportTask.StaleCheckSuffices` | coverage-plugin/omnivore-gradle-plugin/src/main/kotlin/com/jkjamies/omnivore/gradle/tasks/OmnivoreReportTask.kt:403-420 | If every file numbers a class from 0 without gaps, comparing counts leaves only classes all of whose indices are inside their arrays |
| `ReportTask.CountIsSafeIffNumbered` | coverage-plugin/omnivore-gradle-plugin/src/main/kotlin/com/jkjamies/omnivore/gradle/tasks/OmnivoreReportTask.kt:408 | The count test is safe for arrays of every length if and only if the class's indices run from 0 without a gap |
| `ReportTask.GapsEscapeTheCount` | coverage-plugin/omnivore-gradle-plugin/src/main/kotlin/com/jkjamies/omnivore/gradle/tasks/OmnivoreReportTask.kt:408 | Without that numbering the count lets an index outside the array through |
| `ReportTask.DropStaleClasses` | coverage-plugin/omnivore-gradle-plugin/src/main/kotlin/com/jkjamies/omnivore/gradle/tasks/OmnivoreReportTask.kt:403-420 | Exactly the classes with data shorter than their map are dropped |
| `ReportTask.KeptAre` | coverage-plugin/omnivore-gradle-plugin/src/main/kotlin/com/jkjamies/omnivore/gradle/tasks/OmnivoreReportTask.kt:403-420 | Kept is a class without data or with data for at least as many probes as its map has |
| `ReportTask.MergeData` | coverage-plugin/omnivore-gradle-plugin/src/main/kotlin/com/jkjamies/omnivore/gradle/tasks/OmnivoreReportTask.kt:269-391 | Both joins and the stale check together, with the exact cases of failure |
| `Analyzer.Analyze` | coverage-plugin/omnivore-agent/src/main/kotlin/com/jkjamies/omnivore/agent/reporter/CoverageAnalyzer.kt:29-136 | The report is the set definition of the joined data; it throws exactly when an entry on a positive line has a negative index |
| `Analyzer.TakeEntries` | coverage-plugin/omnivore-agent/src/main/kotlin/com/jkjamies/omnivore/agent/reporter/CoverageAnalyzer.kt:46-104 | One class: its positive lines marked, hit ones as hit, its branch entries tallied |
| `AnalysisLaws.AnalysisIsUnique` | coverage-plugin/omnivore-agent/src/main/kotlin/com/jkjamies/omnivore/agent/reporter/CoverageAnalyzer.kt:37-131 | The joined data determine the report: the order in which classes are visited cannot show |
| `AnalysisLaws.ClassHasFile` | coverage-plugin/omnivore-agent/src/main/kotlin/com/jkjamies/omnivore/agent/reporter/CoverageAnalyzer.kt:145-149 | A measured class `p/s` with source file `f` has a report file `p/f`; without a package `f`; without a source file that of its outermost class with `.kt` |
| `AnalysisLaws.PathWithSource` | coverage-plugin/omnivore-agent/src/main/kotlin/com/jkjamies/omnivore/agent/reporter/CoverageAnalyzer.kt:145-149 | The file of a class `p/s` with source file `f` is `p/f`, for all names |
| `AnalysisLaws.PathWithoutSource` | coverage-plugin/omnivore-agent/src/main/kotlin/com/jkjamies/omnivore/agent/reporter/CoverageAnalyzer.kt:145-149 | The file of a class `a` or `a$b` without source file is `a.kt` |
| `AnalysisLaws.RatesAre` | coverage-plugin/omnivore-agent/src/main/kotlin/com/jkjamies/omnivore/agent/reporter/CoverageAnalyzer.kt:86-133 | The rates of a file times its totals are its covered branches and its lines with a positive count, and zero where there are none |
| `AnalysisLaws.ProbeOrderIsIrrelevant` | coverage-plugin/omnivore-agent/src/main/kotlin/com/jkjamies/omnivore/agent/reporter/CoverageAnalyzer.kt:46-104 | Listing the probes of a class in another order gives the same report |
| `AnalysisLaws.SummaryCounts` | coverage-plugin/omnivore-agent/src/main/kotlin/com/jkjamies/omnivore/agent/reporter/CoverageAnalyzer.kt:112-133 | The summary counts distinct lines and branch entries over all measured classes, each once, and covered is at most total |
| `AnalysisLaws.SummaryIsMonotone` | coverage-plugin/omnivore-agent/src/main/kotlin/com/jkjamies/omnivore/agent/reporter/CoverageAnalyzer.kt:112-133 | More hits never lower a covered total |
| `AnalysisLaws.FilesAreMonotone` | coverage-plugin/omnivore-agent/src/main/kotlin/com/jkjamies/omnivore/agent/reporter/CoverageAnalyzer.kt:86-108 | More hits never lower a file's covered lines or branches |
| `FileTree.TreeEnds` | dashboard/crates/omnivore-server/src/routes/pages/mod.rs:374-442 | The recursion ends if and only if the absolute paths do not part directly below the root with a named directory among them |
| `FileTree.RelativePathsAreNotStuck` | dashboard/crates/omnivore-server/src/routes/pages/mod.rs:374-442 | Lists without absolute paths always end |
| `FileTree.PartingAtTheRoot` | dashboard/crates/omnivore-server/src/routes/pages/mod.rs:410-437 | `/a/x` beside `/b/y` never ends |
| `FileTree.Lost` | dashboard/crates/omnivore-server/src/routes/pages/mod.rs:413-437 | Absolute paths below a directory named without the leading slash repeat one call forever |
| `FileTree.TreeHasTheFiles` | dashboard/crates/omnivore-server/src/routes/pages/mod.rs:374-408 | The leaves of the tree are exactly the files given, each as often as given |
| `FileTree.TreeIsRight` | dashboard/crates/omnivore-server/src/routes/pages/mod.rs:374-504 | Every directory holds only files below its path, continues its parent's path by its name, has the figures of its files, has one directory for each component that follows in some path, in order, and then the files directly in it, and never a directory as its only child |
| `FileTree.TreeIsUnique` | dashboard/crates/omnivore-server/src/routes/pages/mod.rs:374-504 | Nothing else is so: that description is met by this tree alone, names and order included |
| `FileTreeLaws.DirectoryFigures` | dashboard/crates/omnivore-server/src/routes/pages/mod.rs:443-482 | Every directory anywhere in the tree has the figures of its own files, those of its leaves: branch rate times branches is the branches covered; with no branches but a positive rate it is the mean; line rate times lines is the lines covered; zero otherwise |
| `FileTreeLaws.SumsAre` | dashboard/crates/omnivore-server/src/routes/pages/mod.rs:443-482 | What the sums over the files are: nothing over none, and one more file adds its own lines, lines hit, branches and rate |
| `FileTreeLaws.BranchesAreWeighted` | dashboard/crates/omnivore-server/src/routes/pages/mod.rs:463-480 | A file at 3 of 3 beside one at 0 of 300 makes 3 of 303 |
| `FileTreeLaws.LeafIs` | dashboard/crates/omnivore-server/src/routes/pages/mod.rs:484-504 | A leaf has the figures and path of its file, and a name without slashes that ends the path |
| `FileTree.FuelIsIrrelevant` | dashboard/crates/omnivore-server/src/routes/pages/mod.rs:410-504 | How deep the recursion was allowed to go does not show in what it gives |
| `FileTree.BuildFileTree` | dashboard/crates/omnivore-server/src/routes/pages/mod.rs:374-408 | The code with its grouping loops computes that tree |
| `FileTree.Split` | dashboard/crates/omnivore-server/src/routes/pages/mod.rs:420-431 | The grouping loop: sub-directories with their files in order, and the leaves |
| `Composite.ComputeComposite` | dashboard/crates/omnivore-server/src/routes/pages/mod.rs:273-370 | With two targets or more the line totals are the numbers of distinct (path, line) pairs, and of those hit by some target, plus the summaries of targets without lines; `lines_are_union` exactly when every target has lines |
| `Composite.NoFileData` | dashboard/crates/omnivore-server/src/routes/pages/mod.rs:310-319 | The branch without file data agrees with the general rule |
| `Composite.TargetsAdd` | dashboard/crates/omnivore-server/src/routes/pages/mod.rs:273-330 | One more target adds its summary exactly when none of its files has lines, and its branches always |
| `Composite.OrderIsIrrelevant` | dashboard/crates/omnivore-server/src/routes/pages/mod.rs:273-370 | The order of the targets changes nothing |
| `Composite.RepetitionAddsNoLines` | dashboard/crates/omnivore-server/src/routes/pages/mod.rs:284-309 | A target with line data counted again changes no line total and no file count |
| `Composite.RepetitionAddsSummaries` | dashboard/crates/omnivore-server/src/routes/pages/mod.rs:303-309 | A target without line data counted again adds its summary again |
| `RateLimiter.Limiter.Check` | dashboard/crates/omnivore-server/src/routes/rate_limit.rs:46-87 | One request: expired buckets dropped, the full table and the disabled limit waved through, the client's bucket counted |
| `RateLimiter.CheckIs` | dashboard/crates/omnivore-server/src/routes/rate_limit.rs:46-87 | The answer and the new table in numbers: limit 0 and new clients of a full table of 10,000 are let through untracked, a new window counts 1, and a count modulo 2^32 is compared with the limit |
| `RateLimiter.WindowAcceptsLimit` | dashboard/crates/omnivore-server/src/routes/rate_limit.rs:67-86 | A window of a never-waved-through client has no more than `limit` requests accepted if and only if fewer than 2^32 are made in it, and then exactly the first `limit` are |
| `RateLimiter.WindowAccepts` | dashboard/crates/omnivore-server/src/routes/rate_limit.rs:67-86 | Exactly how many of the requests in a window are accepted, however often the 32-bit count has come round |
| `RateLimiter.TwiceTheLimit` | dashboard/crates/omnivore-server/src/routes/rate_limit.rs:67-86 | In any stretch of the length of a window, ends included, at most twice the limit are, unless the count of a window it meets has come round |
| `RateLimiter.FloodExceedsTwice` | dashboard/crates/omnivore-server/src/routes/rate_limit.rs:67-86 | Where it has come round twice, 2 * limit + 2 are: a run from an empty table |
| `RateLimiter.TrackedClientsAreBounded` | dashboard/crates/omnivore-server/src/routes/rate_limit.rs:58-65 | The number of tracked clients never exceeds the cap, for any clock |
| `RateLimiter.FloodExceedsLimit` | dashboard/crates/omnivore-server/src/routes/rate_limit.rs:77-78 | 2^32 requests of one client within a window, a run from an empty table, have one more than the limit accepted |
| `Retention.RetentionHolds` | dashboard/crates/omnivore-core/src/storage/db.rs:1186-1320 | After any run of ingests with unique ids and, per series, distinct timestamps, the table is what retention leaves of all snapshots taken |
| `Retention.SnapshotIsStored` | dashboard/crates/omnivore-core/src/storage/db.rs:1274-1320 | A snapshot is stored exactly while fewer than full + summary of its series are newer, with its file data exactly while fewer than full are |
| `Retention.SeriesAreLimited` | dashboard/crates/omnivore-core/src/storage/db.rs:1266-1320 | Each series holds min(n, full + summary) snapshots whatever the other series were given |
| `Retention.BeyondMeansOlder` | dashboard/crates/omnivore-core/src/storage/db.rs:1285-1317 | `ORDER BY created_at DESC` with an offset selects the snapshots with at least that many newer ones |
| `Retention.PruneKeepsRetention` | dashboard/crates/omnivore-core/src/storage/db.rs:1274-1320 | Pruning after one more snapshot brings the table back to what retention leaves of everything seen, late arrivals included |
| `Retention.FloorsArePeaks` | dashboard/crates/omnivore-core/src/storage/db.rs:554-575 | With the ratchet on, each floor is the maximum of its starting value, or zero, and the rates of the ingests the policy allows, once there is one; off, it never moves |
| `RetentionLaws.RaisingOneMore` | dashboard/crates/omnivore-core/src/storage/db.rs:1222-1251 | A snapshot counts for the floors of its project exactly when it is accepted and its branch allowed |
| `Retention.VerdictIsByEarlierFloors` | dashboard/crates/omnivore-core/src/storage/db.rs:1222-1251 | A verdict compares with the floors from before its own ingest |
| `RetentionLaws.AnswersAre` | dashboard/crates/omnivore-core/src/storage/db.rs:1186-1264 | The answer after any run: an error exactly when the project is unknown and may not be created or the id is stored; with the ratchet off, or a project just created, no violation and no floors; else by the floors from before |
| `RetentionLaws.CreatedProjectsStayOff` | dashboard/crates/omnivore-core/src/storage/db.rs:1192-1216 | Projects appear exactly by ingests that may create them, and no ingest ever gives such a project a ratchet or floors |
| `RetentionLaws.NewerAreLater` | dashboard/crates/omnivore-core/src/storage/db.rs:1285-1317 | Newer are the snapshots of the same project, target and source with a later timestamp |
| `RetentionLaws.CaseIsIgnored` | dashboard/crates/omnivore-core/src/storage/db.rs:1562-1567 | Names match when they differ in nothing but the case of ASCII letters |
| `Retention.PolicyAllowsListed` | dashboard/crates/omnivore-core/src/storage/db.rs:1562-1567 | A branch passes exactly when what is between its spaces is on the list, letter case aside, and a build without one exactly when none is required |
| `SnapshotStore.Database.IngestSnapshot` | dashboard/crates/omnivore-core/src/storage/db.rs:1186-1264 | Project creation or refusal, insertion, verdict, floors and pruning in their order |
| `GoProfile.Parse` | dashboard/crates/omnivore-core/src/parsers/go_coverprofile.rs:28-204 | The report of an accepted profile, and the first error of a refused one |
| `GoProfile.Scan` | dashboard/crates/omnivore-core/src/parsers/go_coverprofile.rs:31-106 | The blocks expanded to their lines, or the first implausible range or overrun |
| `GoProfile.FirstErrorDecides` | dashboard/crates/omnivore-core/src/parsers/go_coverprofile.rs:75-97 | Which error it is: that of the first record with a bad range or that brings the lines over 2,000,000, a bad range before that |
| `GoProfile.NoErrorWhenSound` | dashboard/crates/omnivore-core/src/parsers/go_coverprofile.rs:75-97 | A profile without such a record has no error |
| `GoProfile.HitCountIsLargest` | dashboard/crates/omnivore-core/src/parsers/go_coverprofile.rs:99-105 | A line's hit count is zero or the largest count of a covering block |
| `GoProfile.TotalIsBounded` | dashboard/crates/omnivore-core/src/parsers/go_coverprofile.rs:92-97 | No report has more than 2,000,000 lines |
| `GoProfile.FindCommonPrefix` | dashboard/crates/omnivore-core/src/parsers/go_coverprofile.rs:215-234 | The longest slash-terminated prefix common to all names |
| `GoProfile.PrefixIsUnique` | dashboard/crates/omnivore-core/src/parsers/go_coverprofile.rs:215-234 | The order of the names cannot change it |
| `GoProfile.PathsAreDistinct` | dashboard/crates/omnivore-core/src/parsers/go_coverprofile.rs:116-128 | Different files keep different relative paths |

## Left out

- ASM: class file parsing and writing, stack-map frames, dead-code replacement, wide jumps and `LoaderAwareClassWriter`. A method is a list of instructions with labels and an exception table; verification types and locals are inside the abstract world and operations.
- JSR and RET: `IsConditionalJump` treats JSR as the source does, and the walk and the emission agree on it, but the machine has no subroutines, which frame computation rejects, and faults at a JSR in the original and the rewritten method alike.
- Null labels and null names, which ASM never passes for class files.
- The initializer's call of `OmnivoreRuntime.getProbes` and the assignment after it are one instruction; `OmnivoreRuntime`'s choice between its two stores is not modelled.
- Initialization itself: section 5.5 of the Java Virtual Machine Specification runs superclass initializers first and lets a thread re-enter a class it is initializing. A run may start any method at any time; which starts that order allows is not modelled, and `TestRun.OrderedCallsAreFaultless` says what they have to satisfy.
- EndToEnd.ReportTellsRuns: writing the data is one moment of a run; a store that changes while the writer goes over it is not modelled.
- ClassTransformer.VisitEnd: the probe map is there; the code also runs without one, here and in `ClassTransformer.InstrumentClass`.
- Class and method filters (Kotlin, Compose, infrastructure, include and exclude patterns, `filterProbeMap`): an arbitrary predicate on method names shared by walk and emission, and one answer for each class.
- UTF-8 encoding of class names before the CRC: names are given as bytes.
- Class ids of different classes are taken to be different from `TestRun` on, and any such numbering will do there; `ClassId.NearbyNamesDiffer` is what can be said of them.
- ProbeMap: iteration orders of concurrent hash maps are arbitrary orders; `removeProbe`, `getCoveredLineNumbers`, `isAllMethodsComposable` and `reset` are not modelled.
- EmbeddedProbeMap.Read: a class that carries the annotation as a runtime-visible one, which nothing writes, is read by the model too, but `AttachedMapIsRead` is about classes without one.
- Running out of memory, file system errors, logging and the wording of messages.
- ProbeMerge.MergeProbeMaps: which file's composable flag, branch group, class name and source file a class keeps depends on file order, and is only said to come from one of the files.
- ExecutionMerge.MergeExecution: likewise the class name kept with an array when ids collide.
- Analyzer.TakeEntries: per-line branch counts, which the source computes and never reports, and 32-bit overflow of tallies.
- Rates are exact reals; deltas against earlier reports, formatting, HTML, SVG and Markdown are not modelled.
- RateLimiter.Limiter.Check: the lock, its poisoning, and the environment variable that sets the limit, which is a parameter.
- SnapshotStore.Database.IngestSnapshot: SQL, concurrency of connections and failures of the database; one ingest is one step, and snapshots keep only the columns that retention and the ratchet read.
- Retention.RetentionHolds: series with equal timestamps, where the database may order rows either way.
- FileTree.BuildFileTree: asks for a list on which the source ends; the other lists are the subject of `FileTree.TreeEnds`.
- GoProfile.Parse: text tokenising, including lines it skips; it starts from the decoded records.
- The other parsers, HTTP handlers, authentication, GitHub client, dependency graphs, Gradle and Android plumbing and the test rigs.
