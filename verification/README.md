# Verified model of the oxitest runner

oxitest is a Python test runner written in Rust. This project models the algorithms at its core in Dafny and proves what each of them is for: that a fast, in-place or distributed form does what a simple definition says, for every input and every run.

| files | what they model |
|---|---|
| `PyAst`, `Rewriter`, `BodyRewriter` | the Python tree and the assert rewriter, as a flat-map and as the in-place index loop |
| `PySemantics`, `RewriteRelation`, `RewriteMeaning`, `RewriteTheorems` | an interpreter for that tree (section 7.3, "The assert statement", and section 6.10, "Comparisons", of the Python Language Reference) and the proof that rewriting preserves meaning |
| `LineIndex`, `BareAsserts`, `FxUsages` | line numbers, the second search for bare asserts, fixture accesses |
| `Grouping`, `Scheduling`, `Queueing`, `Draining`, `Workers`, `Stopping`, `Conservation`, `Accounts` | from collected items through the shared queue and any number of workers to the recorded results |
| `LinePump` | the bounded reader of a worker's stdout |
| `EditDistance` | "did you mean" |
| `TimingCache`, `CacheHistory`, `ModuleCache` | the timing cache against the history of sessions, the item cache and its FNV-1a key |
| `NodeIds`, `ImportGraph`, `Affected`, `Retry`, `ProductReach` | selection by node ID, by import and by change; retries; which tests start the product |

`Options`, `Paths` and `Sizes` hold what several modules share.

How it is modelled:

- Loops and objects that change stay loops and classes; each is proved equal to a function of its input or of its old state, and the properties are proved of that function.
- Everything a Python program gets from outside (operators, library calls, truth tests, imports, iterators) is an arbitrary function of the question and of all questions before, so a run is compared with its rewrite question by question. Before it answers, outside code may call the program's own functions back, any number of times, and catch or pass on what they raise (an `__eq__`, a method, `map(f, xs)`). Fuel bounds calls, calls back and loop turns; the theorem holds for every amount.
- What a program can tell about an error is a view of it, with its arguments read exactly or as a message; the main theorem is stated for both. The view never shows that the class is the subclass, nor the operands it carries: `type(e)` and `repr(e)` of a rewritten assert's error always differ.
- Threads are a transition system. A run is any sequence of single steps of any threads, so every interleaving is covered, with arbitrary results of spawning, sending and draining, arbitrary result IDs, and cancellation at any point.
- Durations are exact reals, text is a sequence of characters, paths are sequences of components. Unsigned 32- and 64-bit arithmetic is written out where it can show.
- `_OxitestAssertionError` is caught wherever `AssertionError` is, as it derives from it (`python/oxitest/_bridge/_assert_error.py:4`).

What turned out otherwise than one might expect, each with its exact condition:

- A bare assert's rewrite raises an error with `args == ("",)` where the original has `()`: `ErrorArgsAgree`. A handler that reads `e.args` can tell: `ExactArgsMatter`.
- A result line that cannot be read completes the drain, and its test is never recorded: `MalformedLosesTest`; `docs/internals/src/worker-protocol.md:332-335` says as much. So does any result for an unknown test.
- A lost worker's missing results are made up for the *last* items of the group, so a result received out of order leaves one test recorded twice and one never: `OutOfOrderRecordsTwice`. Exactly when every test is recorded once: `RecordedExactly`, `PhaseRecordsEveryTest`.
- An entry can outlive every `cache_max_age` above 0, because sessions that save nothing do not age the file; among sessions that all save, only the largest limit is not enforced, because there the age wraps around: `AgeLimitKept`. When exactly: `OutlivesLimit`.
- A session that runs nothing, collects nothing anew and loses no entry is not saved, so its ageing is forgotten: `RunSession`, `AgeingForgotten`.
- The prescan drops the file of `test[*]`, although the item filter selects every parametrized item of it: `AllParametersLost`; likewise a bracketed target with alternatives: `AlternativesLost`. Exactly which tests a target loses, and a file: `TargetNeverLoses`, `PrescanLosesExactly`.
- Packaging puts every undeclared module before every package, which can undo failed-first: `FailedFirstSurvives`, `FailedFirstOvertaken`.
- The documentation of `src/cache/module.rs:9-14` still says that the fingerprint carries nanoseconds and size; the code compares the hash alone, and so does the model.
- A test method that calls the last method of its own name is misclassified: `HiddenDefinitionMissed`.

## Model

| member | source | states |
|---|---|---|
| Rewriter.AssertBecomes | src/assert_rewriter.rs:308-489 | Every assert by its own form: one of a `BoolOp`, or of a comparison that is chained, has no operator or one outside the ten, stays; any other comparison becomes two assignments and a check, anything else one assignment and a check, with the operator as Python writes it |
| Rewriter.SurvivorsAreDeclined | src/assert_rewriter.rs:208-329 | In a rewritten program stand, at any depth, exactly the asserts that stood in the original and are of those forms |
| Rewriter.RewriteLeavesOnlyIneligible | src/assert_rewriter.rs:312-329 | The same as lists: they survive in order |
| PyAst.ListsAreChildren | src/assert_rewriter.rs:248-306 | The enumerated child lists are exactly the lists standing directly inside a statement, form by form |
| Rewriter.RewriteFixesIneligible | src/assert_rewriter.rs:208-245 | A tree holding only declined asserts is left unchanged |
| Rewriter.RewriteIdempotent | src/assert_rewriter.rs:208-306 | Rewriting a rewritten tree changes nothing |
| BodyRewriter.BareAssertCtx.Record | src/assert_rewriter.rs:32-36 | A bare assert is filed under the outermost enclosing function, or nowhere outside functions |
| BodyRewriter.Replace | src/assert_rewriter.rs:227-233 | Deleting and inserting at an index leaves the replacements between the untouched parts |
| BodyRewriter.RewriteInPlace | src/assert_rewriter.rs:208-245 | The index loop over the list it edits leaves the flat-map rewrite, files every bare assert and restores the name stack |
| BodyRewriter.RecurseIntoChildren | src/assert_rewriter.rs:248-306 | Every child list of every compound statement is rewritten; the name stack is pushed and popped |
| RewriteTheorems.RewritePreservesMeaning | src/assert_rewriter.rs:208-489 | For every program without the reserved names, in every world, calling back or not, and from all globals: same ending, same effects in the same order, same store but for the reserved names, same exceptions; their arguments too, if every rewritten assert has a message, and otherwise their messages |
| RewriteTheorems.FailedCompareCarriesOperands | src/assert_rewriter.rs:338-425 | A failed comparison raises an error holding the very values its operands came to, the operator and the message, evaluated after the failure |
| RewriteTheorems.FailedCompareSpelling | src/assert_rewriter.rs:51-73 | Through the pass itself: the error of a failed comparison carries the operator in Python's spelling, for each of the ten |
| RewriteTheorems.FailedValueCarriesOperand | src/assert_rewriter.rs:433-489 | A failed value assert's error holds the tested value and no right operand |
| RewriteTheorems.ErrorArgsAgree | src/assert_rewriter.rs:382-392 | When an assert fails, the errors the two runs raise have the same arguments exactly if the assert has a message |
| RewriteTheorems.ExactArgsMatter | src/assert_rewriter.rs:382-392 | A program that shows `e.args` of a failed bare assert shows none before the rewrite and one after |
| RewriteTheorems.ReservedNamesMatter | src/assert_rewriter.rs:338-489 | A program that reads a temporary can tell the difference |
| RewriteRelation.RewriteKeepsScope | src/assert_rewriter.rs:208-306 | The rewrite binds the same names in every scope, the temporaries aside |
| LineIndex.BuildLineIndex | src/python_ast.rs:176-184 | The index is the increasing list of the offsets at which lines start |
| LineIndex.BinarySearch | src/python_ast.rs:187-192 | An index of the key, or the point where it would stand |
| LineIndex.OffsetToLine | src/python_ast.rs:187-192 | The number of lines begun by the offset |
| LineIndex.LineAtStarts | src/python_ast.rs:176-192 | Looked up in a file's index, an offset's line is one more than the newlines before it |
| BareAsserts.WalkBareAsserts | src/bare_asserts.rs:64-86 | The stack walk visits every statement outside nested functions once; its lines are sorted and are those of the bare asserts |
| BareAsserts.FindBareAsserts | src/bare_asserts.rs:46-61 | One entry, in order, per test definition that holds a bare assert |
| BareAsserts.TestDefsExactly | src/python_ast.rs:152-173 | Visited are exactly the `test_` functions of the file and those directly in its `Test` classes |
| BareAsserts.TestDefsInOrder | src/python_ast.rs:152-173 | In the order of the file |
| BareAsserts.EntryNamed | src/bare_asserts.rs:46-61 | Each entry is filed under the test's own node ID |
| BareAsserts.TestDefsAreOutermost | src/python_ast.rs:152-173 | Every visited test definition is outermost, so the next row covers it |
| BareAsserts.SearchesAgree | src/assert_rewriter.rs:16-36 | What the walk finds is always part of what the rewriter files under the name, and all of it exactly if no nested function and no namesake holds a bare assert |
| FxUsages.CollectFxUsages | src/prescan.rs:314-346 | Every attribute on a proxy is reported exactly once, qualified exactly if it is itself the base of an attribute |
| FxUsages.AccessCount | src/prescan.rs:314-346 | As many accesses are reported as attributes of proxies stand in the expression, counted form by form |
| FxUsages.ChildrenExactly | src/prescan.rs:314-346 | The walk descends into every expression directly inside another |
| FxUsages.OwnExprsExactly | src/prescan.rs:294-311 | And starts from every expression that stands directly in a statement |
| FxUsages.ExtractFxUsages | src/prescan.rs:294-311 | The stack walk terminates and reports every access below the body exactly once |
| Grouping.IndexMap.Push | src/filter.rs:380-386 | The map keeps keys in first-seen order and each key's values in push order |
| Grouping.GroupByModule | src/filter.rs:379-391 | One group per module path in first-seen order, items in order |
| Grouping.ModulesInOrder | src/filter.rs:379-391 | Groups come in the order in which their modules first occur among the items |
| Grouping.ItemsInOrder | src/filter.rs:379-391 | A group holds exactly the items of its module, in the order they stand in |
| Grouping.ModuleGroupsConserve | src/filter.rs:379-391 | Grouping keeps every item exactly once, one group per module, only that module's items in it |
| Grouping.OutermostDeclaringAncestor | src/filter.rs:438-447 | A declaring directory above the module, none of which is shallower; none if there is none |
| Grouping.SameAnchor | src/filter.rs:438-447 | Two modules under one declaring directory have the same anchor, at or above it: nested declarations never split |
| Grouping.GroupByPackage | src/filter.rs:403-431 | Undeclared modules as singletons, then one group per anchor in first-seen order |
| Grouping.SinglesInOrder | src/filter.rs:403-431 | The undeclared modules, each alone, in the order they came in |
| Grouping.PackageInOrder | src/filter.rs:403-431 | A package holds exactly the modules with its anchor, in the order they came in |
| Grouping.PackagesInOrder | src/filter.rs:403-431 | Packages come in the order in which their anchors first occur |
| Grouping.TaskGroupShape | src/filter.rs:403-431 | A group is one undeclared module, or exactly the modules with its anchor |
| Grouping.PackageIsColocated | src/filter.rs:403-447 | All modules under one declaring directory are in one task group, anchored at or above it |
| Grouping.TaskGroupsConserve | src/filter.rs:403-431 | Merging keeps every module group exactly once |
| Grouping.ModuleInOneGroup | src/filter.rs:403-431 | A module never spans two task groups |
| Scheduling.SumAndCount | src/cache/timing.rs:11-21 | The total cached time and the number of items that have one |
| Scheduling.StableSortSorts | src/cache/timing.rs:93-100 | The sort orders by any total preorder and keeps ties in incoming order |
| Scheduling.SortGroups | src/cache/timing.rs:80-103 | A stable permutation: groups that hold a test with a cached time first, those whose cached times add up to more before those with less, then the others, more tests before fewer |
| Scheduling.Shuffle | src/scheduler.rs:31-35 | Whatever is drawn, shuffling keeps every group exactly once |
| Scheduling.ApplyScheduleStrategy | src/scheduler.rs:13-37 | That order; or, failed first, every group with a failed test before every group without, and that order within each; every strategy keeps every group exactly once |
| Draining.DrainWorkerResults | src/parallel/drain.rs:165-301 | The drain reads a prefix of the lines, each before the watchdog fires, and sends on exactly the IDs of its result lines, good, salvaged or unreadable, in order; it stops when it has as many as it needs, when the next line comes a whole watchdog after the last protocol line (diagnostic, trace and unknown lines count, blank and non-protocol ones do not), or when stdout closes before |
| Draining.CompleteExactly | src/parallel/drain.rs:165-301 | The drain is complete exactly if the needed results are reached without such a gap |
| Draining.NoiseIsIgnored | src/parallel/drain.rs:116-147 | Blank and non-protocol lines affect neither the results nor when the watchdog fires |
| Draining.HandleDrainOutcome | src/parallel/drain.rs:445-494 | The worker lives on exactly after a complete drain; otherwise one result is made up per item not reported |
| Draining.BadResultTakesASlot | src/parallel/drain.rs:240-291 | A line that says it is a result but cannot be read counts as one, under an ID that is no test's |
| Draining.OneResultPerItem | src/parallel/drain.rs:445-494 | As many results as items; one for each item exactly if the received ones are for the first items |
| Draining.LostAndDoubled | src/parallel/drain.rs:445-494 | Which test is then never reported, and which more than once |
| Workers.ItemCount | src/scheduler.rs:94-101 | The expected count is the number of node IDs of the group |
| Workers.TaskNamesTheItems | src/worker_session.rs:305-342 | The task sent has one module for each of the group, with its path and its items' IDs, and so names exactly the items waited for, in order |
| Workers.Scheduler.Pop | src/scheduler.rs:129-138 | The front group leaves the queue, or there is none |
| Workers.ProtocolKept | src/worker_session.rs:392-465 | Every step of a thread keeps its protocol, whatever the shared state |
| Workers.ProtocolAlways | src/worker_session.rs:353-466 | In every interleaving, every thread's log is its drained groups, then what its phase allows; only the last group can have ended badly, and only then is the process dead |
| Workers.SessionsKeepProtocol | src/worker_session.rs:392-465 | Read off the log alone: a failed send is followed by exactly one crashed result per item and no drained one; results come only after tracking, which follows a send; nothing is sent after closing; the tail is read only after closing and never after a bad drain; a thread that has exited owes no result |
| Workers.InFlightExactly | src/parallel/mod.rs:180-202 | In every run an ID is in flight exactly if some step put it there and no result for it was received since |
| Workers.InFlightAlways | src/worker_session.rs:431-436 | In every interleaving, an ID a thread has tracked is in the shared set from then until a result for it is received, no longer, and nothing else gets in |
| Workers.StepWorks | src/worker_session.rs:392-465 | Every step that changes anything uses up work |
| Workers.RunsEnd | src/worker_session.rs:353-466 | However threads are scheduled, a bounded number of steps changes anything, and while a thread is not done or a result unread some step does: no run hangs short of the end |
| Stopping.CancelStopsPopping | src/worker_session.rs:392 | Whatever is scheduled after a cancelling step, a thread pops at most one more group, and none unless it was past the head of its loop; together no more than threads were |
| Stopping.HeadPops | src/worker_session.rs:392-393 | While nothing cancels, a live thread at the head goes on and pops the front group, whatever others do in between |
| Stopping.HeadLeaves | src/worker_session.rs:392 | In a cancelled run, or with a dead process, it leaves the loop |
| Stopping.FailedStartIsIdle | src/worker_session.rs:353-384 | A thread whose process did not start claims no group and sends no result, ever |
| Stopping.FailedSendReports | src/worker_session.rs:412-430 | After a failed send the thread reports every item of the group as crashed, in order, and leaves the loop |
| Queueing.FailedFirstSurvives | src/filter.rs:403-431 | Of modules sorted failures first, the packaged queue has failures first exactly unless some undeclared module has none and some declared one has |
| Queueing.FailedFirstOvertaken | src/filter.rs:403-431 | A failed declared module and one without a failure outside leave the queue in the wrong order |
| Conservation.Arrange | src/filter.rs:379-431 | Grouping, sorting and packaging keep every item exactly once, each module in one group; undeclared modules come before packages, each in the order of the strategy, and failures first exactly if none is overtaken |
| Conservation.BooksAlways | src/scheduler.rs:136-138 | In every run, claimed groups are a prefix of the queue, each popped by the one worker that claimed it, and the channel holds what each worker sent, in order |
| Conservation.Coordinate | src/parallel/mod.rs:180-226 | Recognised results are recorded up to the hard failure that reaches `maxfail`; if none does, all of them and a crash for every item left in the queue |
| Conservation.DrainRemaining | src/parallel/drain.rs:551-571 | One crash, a hard failure, per known item left in the queue |
| Accounts.RecordedCount | src/parallel/mod.rs:180-237 | After every run of a phase that runs out, how often each ID is recorded: once for each time it was received, and once for each time it is an item past the received ones of a drained group, of a refused group or of the queue |
| Accounts.RecordedExactly | src/parallel/mod.rs:100-237 | Exactly the collected items are recorded if and only if, over all groups, the results received for known tests are for the first items of their groups |
| Accounts.EveryTestReportedOnce | src/worker_session.rs:392-465 | Once all threads are done, the results and the items still queued are exactly the items of all groups, if workers answered for the first items they were given |
| Accounts.PhaseRecordsEveryTest | src/parallel/mod.rs:100-237 | A phase that runs out records exactly one result per collected item, however workers interleave, die or refuse, if every worker answered for the first items it was given; with different IDs and no worker answering for another's tests, only then |
| Accounts.UnknownAnswerLosesTest | src/parallel/drain.rs:502-521 | A run in which a result for no test of the phase takes a test's place, which is never recorded |
| Accounts.MalformedLosesTest | src/parallel/drain.rs:240-291 | So does a result line that cannot be read |
| Accounts.OutOfOrderRecordsTwice | src/parallel/drain.rs:445-494 | A run in which a result out of order and a lost worker record one test twice and one never |
| LinePump.LinesSplitTheStream | src/worker_session.rs:48-108 | The logical lines put together are the stream, cut after each newline and nowhere else |
| LinePump.MessagesAreCutLines | src/worker_session.rs:48-108 | Without a read error, one message per logical line, cut to the cap, in order |
| LinePump.ByteReader.ReadUntil | src/worker_session.rs:58-76 | The bounded read returns the current line cut to the limit and moves past what it read |
| LinePump.Pump | src/worker_session.rs:48-108 | What is forwarded is the stream's messages, or the prefix the receiver took; the buffer never exceeds the cap |
| EditDistance.DistIsShortest | src/edit_distance.rs:4-31 | The distance is the cost of some edit script and no script is cheaper |
| EditDistance.ZeroIffEqual | src/edit_distance.rs:4-31 | Zero exactly for equal strings |
| EditDistance.Symmetric | src/edit_distance.rs:8-9 | Symmetric, which is why the arguments may be swapped |
| EditDistance.Triangle | src/edit_distance.rs:4-31 | The triangle inequality |
| EditDistance.GreedyKeeps | src/edit_distance.rs:21-26 | Keeping equal last characters is always optimal |
| EditDistance.ComputeEditDistance | src/edit_distance.rs:4-31 | The two-row loop with its swap and greedy branch computes the distance |
| EditDistance.ClosestMatch | src/edit_distance.rs:37-56 | The first candidate at the least distance within the bound; none exactly if all are too far |
| TimingCache.TestCache.MergeTimings | src/cache/timing.rs:106-136 | Executed tests get their last timing and age 0, others grow older and go past the limit; when the cache becomes dirty |
| TimingCache.TestCache.RecordTimingOutcomes | src/cache/outcome.rs:23-37 | Entries take the last outcome of the run and the saturated count of flaky ones; unknown IDs change nothing |
| TimingCache.TestCache.Invalidate | src/cache/timing.rs:142-151 | Only the listed tests keep their entries, unchanged; dirty exactly if one was lost |
| CacheHistory.RunSession | src/pipeline/helpers.rs:233-242 | One process saves the file's next state if and only if it changed the module cache, ran something or lost an entry; otherwise the file stays |
| CacheHistory.CacheIsHistory | src/cache/mod.rs:61-73 | After any sessions that all save, a test has an entry exactly if it ran, was selected ever since and is within the age limit; its age, duration, outcome and flaky count are those of its history |
| CacheHistory.FileIsHistory | src/cache/mod.rs:206-238 | After any sessions, saving or not, a test is in the file exactly if it ran, was selected ever since, and no more than the limit of the sessions since saved; its age counts those, its duration and outcome are the last run's |
| CacheHistory.FileFallsBehind | src/cache/mod.rs:225-228 | The file's age of a test falls short of its history's by the sessions since its last run that did not save; the two agree exactly if there are none, if the file forgot the test too, or if as many as wrap the age around |
| CacheHistory.LastFailedIsHistory | src/cache/outcome.rs:8-20 | After sessions that all save: exactly the remembered tests whose last run failed |
| CacheHistory.LastFailedInFile | src/cache/outcome.rs:8-20 | Read from the file after any sessions: exactly the tests in it whose last run failed, erred or timed out |
| CacheHistory.AgeLimitKept | src/cache/timing.rs:129-130 | The file keeps the age limit after every history exactly if the limit is 0; after histories whose sessions all save, exactly if it is below the largest 32-bit number |
| CacheHistory.OutlivesLimit | src/cache/timing.rs:129-130 | A test outlives the limit exactly if more sessions than that passed since its last run, each selecting it, and no more than that saved, or the limit is the largest |
| CacheHistory.Replay | src/cache/mod.rs:206-238 | Session after session, the file is what the saving sessions of the history say |
| CacheHistory.AllSaved | src/cache/mod.rs:225-228 | Which histories those are: in each session modules changed, something ran or an entry was lost |
| CacheHistory.AgeingForgotten | src/cache/timing.rs:106-136 | A test run once keeps age 0 in the file through any number of sessions that run and collect nothing anew, whatever the limit above 0 |
| ModuleCache.Fnv1a | src/cache/mod.rs:131-140 | The loop folds the bytes into the offset basis |
| ModuleCache.PublishedValues | src/cache/mod.rs:131-140 | The values published for FNV-1a of the empty string and of "a" |
| ModuleCache.XorBits | src/cache/mod.rs:136 | Exclusive or, digit by digit |
| ModuleCache.MixInjective | src/cache/mod.rs:136-137 | One step loses nothing, for a fixed byte and for a fixed state |
| ModuleCache.SuffixIrrelevant | src/cache/mod.rs:131-140 | Two sources of any lengths collide exactly if they do without a common suffix |
| ModuleCache.EditChangesHash | src/cache/mod.rs:264-275 | Replacing at most four consecutive bytes by as many always changes the hash |
| ModuleCache.RebuiltSame | src/cache/module.rs:25-33 | Serving gives back the stored items exactly if their IDs are those of the module |
| ModuleCache.ServedItem | src/cache/module.rs:25-33 | An item is served as stored, with the ID `path::function`, or `path::function[param]` if it is parametrized |
| ModuleCache.ItemCache.UpdateModuleCache | src/cache/module.rs:39-55 | The module's entry is replaced, all others kept, and the cache is dirty |
| ModuleCache.ItemCache.InvalidateModules | src/cache/module.rs:59-67 | Exactly the entries of missing files go; dirty exactly if one did |
| ModuleCache.ItemCache.CachedModuleItems | src/cache/module.rs:15-35 | Served exactly on an equal fingerprint, with rebuilt IDs |
| ModuleCache.StaleModuleMisses | src/cache/module.rs:15-55 | After anything done to the cache, an unchanged module is served what was collected last, and one with up to four consecutive bytes overwritten is not served |
| ModuleCache.UnknownModuleMisses | src/cache/module.rs:20-21 | A module never collected, or pruned since, is not served |
| NodeIds.EscapeNodeIdBrackets | src/filter.rs:151-161 | The loop escapes every bracket and nothing else |
| NodeIds.ParseEscaped | src/filter.rs:127-161 | Escaping leaves wildcards alone and makes every bracket stand for itself |
| NodeIds.EscapedMatchesItself | src/filter.rs:127-161 | Without wildcards, an escaped ID matches that ID and nothing else |
| NodeIds.LiteralTargetItems | src/filter.rs:173-184 | A target without wildcards and brackets selects exactly the ID itself, its parameters and what is nested in it |
| NodeIds.LiteralTargetPrescan | src/filter.rs:184-193 | For the prescan the same, brackets allowed, or the other way round |
| NodeIds.GlobTarget | src/filter.rs:95-144 | Any other target goes to the glob engine with its brackets escaped; one with only a bracket in the item filter alone |
| NodeIds.ClassTargetItems | src/filter.rs:200-223 | A target naming a class keeps every method of it with every parameter, no method of another class, and no function of another name |
| NodeIds.ClassTargetFile | src/filter.rs:507-524 | It keeps the file exactly if a test of that class, or a function of that name, stands in it |
| NodeIds.PathTextRoundTrip | src/filter.rs:455-461 | A path's text in a node ID, taken apart at its slashes, is the path again |
| NodeIds.UntargetedKept | src/filter.rs:206-210 | Nothing is dropped without targets, nor in a file no target names |
| NodeIds.TargetsAdd | src/filter.rs:200-223 | Several targets keep what any of them keeps |
| NodeIds.PrefixReachesBase | src/filter.rs:173-193 | A target that selects a test, parametrized or not, selects its bare ID bidirectionally |
| NodeIds.TargetReachesPrescan | src/filter.rs:200-223 | A target selects the prescanned test whenever it selects the item, unless the item is parametrized and the bare ID matches the glob only up to something that can stand for the bracket; although the two sides classify bracketed targets differently |
| NodeIds.TargetNeverLoses | src/filter.rs:127-223 | Of each test: a target never loses it, whatever its parameters, exactly if no such cut of the target matches the bare ID, or all of it does |
| NodeIds.SafeTargetReaches | src/filter.rs:127-223 | Globs whose only wildcard or bracket is the last character, such as `path::test_*`, and globs such as `*::test_*` lose no test |
| NodeIds.AllTestsReach | src/filter.rs:455-484 | For one, `*::test_*` selects the prescanned test of every item it selects |
| NodeIds.PrescanNeverLoses | src/pipeline/transitions/mod.rs:107-122 | Whenever the item filter keeps an item, the prescan keeps its file, unless the item is parametrized and matches only by a cut glob |
| NodeIds.PrescanLosesExactly | src/pipeline/transitions/mod.rs:107-122 | A dropped file loses a test exactly if a cut of some target matches one of its bare IDs |
| NodeIds.AllParametersLost | src/filter.rs:468-484 | For every test of a file of bare IDs, `[*]` selects each of its parametrized items and the file is dropped |
| NodeIds.AlternativesLost | src/filter.rs:507-524 | A bracketed target with alternatives selects a parametrized item of either, and the file is dropped |
| ImportGraph.ExpandPrefixes | src/import_graph.rs:54-63 | Exactly the imported names and the packages above them |
| ImportGraph.FileToModules | src/import_graph.rs:69-87 | The file's module and the packages above it, longest first |
| ImportGraph.PyFileParts | src/import_graph.rs:69-87 | `dirs/name.py` is the module `dirs.name`, and `dirs/__init__.py` the package `dirs` |
| ImportGraph.CollectImports | src/import_graph.rs:30-50 | Exactly the names of `import` statements and of `from` imports without dots, however deep they stand |
| ImportGraph.FirstPartDecides | src/import_graph.rs:93-116 | A changed file matches an import exactly if its first component names it or a package above it |
| ImportGraph.FirstComponentDecides | src/import_graph.rs:93-116 | Without a dot in that component: exactly if the first components are equal |
| ImportGraph.AnalyseFile | src/import_graph.rs:93-116 | A test file is affected exactly if an absolute import of it lies at or below a changed file's first component |
| Affected.ClassifyChangedFiles | src/affected.rs:147-172 | `pyproject.toml` anywhere runs everything; otherwise each path is a declaration, a source or counted as not Python |
| Affected.DeclarationAffected | src/affected.rs:175-196 | Adds exactly the tests below the directory of a changed declaration file |
| Affected.DirectlyChanged | src/affected.rs:199-213 | Adds exactly the tests that changed themselves |
| Affected.FilterAffected | src/affected.rs:238-319 | The original-order tests that meet the direct, the declaration or the import rule; no narrowing exactly if `pyproject.toml` changed |
| Affected.SelectedMeans | src/affected.rs:147-319 | Which tests meet a rule, on file names and import statements alone |
| ImportGraph.ImportsFileMeans | src/import_graph.rs:93-116 | A Python file matches by its first directory, or alone in the root by its name |
| Retry.IdentifyFailedItems | src/retry.rs:37-54 | The items that failed, erred or timed out, in order, each with such an outcome |
| Retry.RunRetries | src/retry.rs:77-129 | A failed item is flaky exactly if an allowed attempt is no hard failure, with the first such attempt's timing |
| Retry.MergeFlakyTimings | src/retry.rs:57-70 | The timings of tests that are not flaky, in order, then the retried ones |
| Retry.MergedCount | src/retry.rs:37-129 | How often each ID is reported after the phase, every listing of a test having attempts of its own |
| Retry.IdsKept | src/retry.rs:57-70 | The reported IDs are kept exactly if every test that turns flaky recovers in as many listings as it is reported |
| Retry.DistinctIdsKept | src/retry.rs:37-129 | So they are, whatever the attempts come to, if no item is listed twice and none reported twice |
| Retry.EntriesAfterRetries | src/retry.rs:37-129 | A test turns flaky exactly if it is an item, failed, and an allowed attempt recovers, with the first such attempt's timing; otherwise what was reported stays; nothing else |
| ProductReach.Search | scripts/check_band_record.py:217-272 | The answer is right about the definitions reachable without a name twice: true if one starts the product, refusal if a spawn there is unreadable, false only if neither |
| ProductReach.SimplePathsSuffice | scripts/check_band_record.py:230-232 | With unique names, whatever is reachable is reachable without a name twice |
| ProductReach.ClassifyTest | scripts/check_band_record.py:341-360 | With unique names: Command exactly if a starter is reachable, Library only if every reachable spawn was read, the reader's own answer only where one was not |
| ProductReach.HiddenDefinitionMissed | scripts/check_band_record.py:230-232 | Without unique names a reachable starter is missed |

## Left out

- CacheHistory.RunSession: whether collecting changed the module cache is given with the session; `ModuleCache` models those changes by themselves.
- CacheHistory.Replay: reading and writing the cache file is taken to give back what was written; serialisation is not modelled.
- Accounts.RecordedCount: is about a phase that runs out; one stopped by `maxfail` records a prefix, which `Conservation.Coordinate` describes.
- RewriteTheorems.RewritePreservesMeaning: outside code is never shown a namespace, where `locals()`, or a metaclass given the names of a class body with an assert in it, would meet the temporaries without naming them.
- NodeIds.TargetReachesPrescan: what the glob engine makes of braces, backslashes and double stars is not known here, so a bracketed target, or a glob on a parametrized item, is covered only without them; other targets are, whatever they hold.
- RewriteTheorems.RewritePreservesMeaning: the error's class is seen as `AssertionError` and its operands are not seen, since for a program that looks at those no failing rewritten assert is the same; a bare assert is covered with arguments read as a message, as `ExactArgsMatter` shows it must be.
- ProductReach.ClassifyTest: asks for unique definition names; `Search` says what is answered without them.
- Python forms the interpreter does not have: generators and `await`, `del`, bare `raise`, `except*`, `nonlocal`, comprehension scopes, keyword and default arguments. Forms whose operands are simply evaluated in order are one constructor.
- Positions copied onto generated nodes, and everything that crosses into the interpreter's own objects (`src/bridge.rs`).
- Decoding of worker output, the JSON of tasks and results, the tail read after closing (`drain_until_eof`), subprocess spawning and waiting, real time.
- `compute_body_weight`, the decorator and annotation recognisers of `src/prescan.rs`, and `estimated_duration`: heuristics without a promise of their own.
- Expression children are those `expr_children` lists for the forms of the tree here; no claim is made about forms it does not reach.
- The query language, configuration merging, reporters, strict-mode rendering, git, file walking and the remaining scripts: input and output, or easy members only.
- Floating point: durations are reals, and NaN does not occur.
- Path separators, canonicalisation and Windows verbatim prefixes beyond their removal before a target is classified.
