# A model of the staticpy build engine, with proofs

staticpy builds CPython and its C libraries as a graph of jobs whose outputs are cached on disk under
content keys. This project models the parts of it whose correctness is not visible in any one
function, and proves what they promise. One module per component:

- `Jobs`, `Resolver`, `SlugConflicts`: Merkle job keys, by plain recursion (`KeyOf`) and as `computeKey`
  computes them with a cache and a stack; the topological resolver; what a key denotes (`Denote`) and
  what building from scratch gives (`FromScratch`); what an accepted plan means when slugs conflict.
- `Engine`, `EngineSafety`, `EngineProgress`, `EngineCauses`, `EngineFinish`, `EngineAbort`,
  `EngineSteps`, `EnginePublish`, `EngineDeadlock`, `EngineLies`, `Pipeline`: any number of `Run` calls
  in any number of processes as a step relation. One step is one lock operation, one look at an
  artifact, one rename, one read of a dep by `Build`, one done channel observed. Runs may want different
  keys for one slug, callers may cancel, and a process may die at any point, which drops its locks. `Engine.Advance`
  follows `Run`'s goroutine, `buildNode`, `tryBuild`, `stampManifest` and `publish` branch by branch;
  who holds which lock is read off the program points.
- `LockSlots`, `ForkLocks`, `ForkFinish`, `ForkChild`: the slot arithmetic of libatomic's replacement
  lock table, and a tree of forking processes stepping one compare-and-swap, store or fork at a time.
- `StaticApi`: the emitter of the stable-ABI symbol table, the preprocessor that filters its output
  and the binary search that reads what is left.
- `Profiles`, `ProfileLaws`, `KeyInputs`: profile inheritance, scope layers, flag lists, package
  variants, which definition overrides which, and what a resolved profile puts into a job's key.
- `Fetch`, `FetchMirrors`, `FetchErrors`: the lock, marker and rename protocol of verified downloads, the
  order in which mirrors are tried and given up, and what errors and cancellations make of a call.
- `TailRing`, `TailExact`, `TailText`, `Shell`: streaming line splitters, the bounded tail, shell
  quoting and its readers.
- `Regrtest`, `SummaryLines`, `Verdicts`: reading the test suite's summary, what its lines look like,
  coverage, and judging it by expectations.
- `Probe`, `ConfigSite`: the ABI probe's definitions, the merge with the hand-written fragment, the
  printed header, and the autoconf answers.

Code that updates state in place is modelled as methods and classes proved against specification
functions; the protocols between processes are step relations on values, with theorems over every
history. `Common` holds shared datatypes and byte-order sorting.

Two assumptions run through the engine: SHA-256 never collides (a key is a datatype constructor
applied to its document), and `Build` is a function of the job's own key inputs and the contents of
its direct deps. A third, that a slug determines a job's content within one process (`job.go:30-32`),
is the predicate `SlugDetermines` and appears as a precondition wherever it is needed.

## Findings

Where the code does not do what a comment or a natural reading says, the model keeps the code and
states exactly when the reading holds:

- `publish` (`run.go:246-247`) is described as showing either the old artifact or the new one. It
  renames twice, so while it replaces an artifact there is nothing at the path, and a crash or a failed
  second rename leaves it so (`EnginePublish.ReplacementShowsGap`, `EnginePublish.GapStaysOpen`). The
  description holds of a publication exactly when the path was free
  (`EnginePublish.OldOrNewExactly`); what always holds is "absent or complete"
  (`EngineSafety.CacheSoundness`).
- `sameJob` compares two jobs' own fields and dep slugs one level deep. `resolve` accepts a graph in
  which a job hangs below an unlisted duplicate and differs from its namesake, and that duplicate is
  then served the other job's build (`SlugConflicts.ResolveDeep`, `SlugConflicts.JobOneReceivesJobZero`).
  A plan gives every reachable job its own key exactly when the comparison also passes for the deps of
  reachable duplicates and for the documents of keys cached by earlier calls
  (`SlugConflicts.OwnKeysExactly`).
- `Run` can return nil although nodes were not built, when a build reports `context.Canceled` while
  nothing was cancelled (`EngineLies.LyingRunReportsFine`); this is the only way
  (`EngineProgress.RunReportsTruly`).
- Processes whose graphs together close a cycle on slugs, though each is acyclic by itself, can wait for
  each other's file locks for ever (`EngineDeadlock.RingCanDeadlock`). Without such a cycle nobody ever
  gets stuck: `EngineDeadlock.NeverStuckExactly` is the equivalence. Runs that want the same keys cannot
  form one (`EngineFinish.AgreeingIsRanked`).
- `libat_lock_n` covers exactly the slots of the byte range if and only if the rounding sum does not
  wrap around `size_t` (`LockSlots.SlotsExact`).
- `tailWriter` flushes an unfinished line beyond 1 MiB, after which chunking does show
  (`TailRing.OverlongLineShowsChunking`); `TailExact.ExactForEveryCutting` says for which streams it
  cannot show in the writer's state, and `TailText.TextExactForEveryCutting` in what `String` returns.
- `splitShell` reads `ShellQuote`'s output back if and only if no argument has a single quote
  (`Shell.SplitterReadsBackIff`); a POSIX shell always does (`Shell.ShellReadsBack`).
- `configSite` guards the float-endianness pair against map order, but two size macros that differ
  only in letter case share a variable too (`ConfigSite.ClashesByCase`); the answers are independent of
  map order exactly when `configSite` fails or no two macros clash (`ConfigSite.OrderMattersExactly`,
  `ConfigSite.CaseClash`). A fragment that states `SIZEOF_int` is enough (`ConfigSite.FragmentSpelling`).
- `Resolved.KeyInputs` joins flags with spaces, while the recipes hand them to the tools one by one
  (`recipe/dep.go:444-447`). So different builds can share key inputs: a flag with a space looks like two
  flags, and an empty list like one empty flag (`KeyInputs.FlagsCollide`). `KeyInputs.InputsExactly` and
  `KeyInputs.SharesKeyExactly` say exactly when.
- The "lists dep slug twice with different keys" error of `computeKey` cannot occur: the second look
  finds the first key in the cache (`Resolver.KeyWalk.ComputeDeps`, whose errors all blame a job or a
  cycle).

## Model

| member | source | states |
|---|---|---|
| Jobs.KeyExistsIffNoObstruction | src/staticpy/internal/core/job.go:42-83 | a job has a key exactly when nothing reachable from it has an unusable slug (empty, or in more than one piece when split at a slash, a backslash or a NUL), a nil dep or a slug already passed on the way: in particular every reachable cycle denies the key and an acyclic graph never does |
| Jobs.SlugsRefused | src/staticpy/internal/core/job.go:44-46 | the slugs the walk refuses are exactly the empty one and those that fall into pieces when split at a slash, a backslash or a NUL |
| Jobs.SameSlugSameKey | src/staticpy/internal/core/job.go:30-35 | when slugs determine content, two jobs with one slug have one key, which is what lets the cache be indexed by slug |
| Jobs.DepOrderDoesNotMatter | src/staticpy/internal/core/job.go:248-262 | listing the same deps in another order changes neither what `sameJob` compares nor, when slugs determine content, the key |
| Jobs.KeyIgnoresPath | src/staticpy/internal/core/job.go:37-58 | the stack above a job only detects cycles: it never changes the key that is found |
| Jobs.KeyIsExactlySensitive | src/staticpy/internal/core/job.go:30-83 | changing the inputs of the jobs with slug t changes the key of exactly the jobs that reach t |
| Jobs.KeyDenotesFromScratch | src/staticpy/internal/core/job.go:42-83 | the content a key denotes is exactly what building the job and everything below it from nothing gives |
| Resolver.KeyWalk.ComputeKey | src/staticpy/internal/core/job.go:42-83 | the memoised walk returns exactly the key of plain recursion, keeps every cached entry right, restores its stack, fails only where recursion has no key, and each error names a real fault below the job, a refused slug being one that is empty or falls into pieces; a job whose deps are cached gets the hash of its own document over their cached keys |
| Resolver.KeyWalk.ComputeFresh | src/staticpy/internal/core/job.go:53-83 | the same for a job that is neither cached nor on the stack: the new cache entry is right |
| Resolver.KeyWalk.ComputeDeps | src/staticpy/internal/core/job.go:60-70 | the loop over deps yields the dep keys of plain recursion, and never reports one dep slug with two keys |
| Resolver.JobKey | src/staticpy/internal/core/job.go:33-35 | from any sound cache, when slugs determine content: a key is returned exactly when recursion has one, and it is that one |
| Resolver.Resolution.Visit | src/staticpy/internal/core/job.go:175-215 | a node agreeing with the job is in the order, which only grew by jobs the job reaches; the job itself is listed if its slug was new; it never fails when an agreeing node is listed, and otherwise only for a fault it names |
| Resolver.Resolution.VisitDeps | src/staticpy/internal/core/job.go:189-203 | after the loop every dep has an agreeing node placed before, and the dep list names exactly the dep slugs |
| Resolver.Resolution.Finish | src/staticpy/internal/core/job.go:206-214 | the appended node carries the job's key and keeps the order topological |
| Resolver.Resolve | src/staticpy/internal/core/job.go:168-226 | success gives a plan whose nodes carry the cached keys of their slugs, new ones made from the listed jobs' own documents, and from an empty cache the keys chain; failure names a root that is nil, or that no earlier root agrees with and that reaches an unusable slug, a nil dep, a path of jobs returning to a slug it passed, or a job that differs from its namesake; when slugs determine content it succeeds exactly when every root is a job with a key, and then every node carries its job's key |
| Resolver.PlanListsReachable | src/staticpy/internal/core/job.go:167-226 | a plan lists a slug if and only if some root reaches it |
| Resolver.PlanChainsKeys | src/staticpy/internal/core/job.go:189-213 | in a plan the key of each node is a hash over exactly the keys of its dep nodes |
| SlugConflicts.OwnKeysExactly | src/staticpy/internal/core/job.go:228-246 | for every accepted plan, whatever earlier calls left in the cache: every job the roots reach is served by a node with its own key if and only if the comparison of `sameJob` passes for the deps of reachable jobs with one document and for the documents of the keys cached for reachable slugs |
| SlugConflicts.FaultyRootsAreRefused | src/staticpy/internal/core/job.go:215-226 | when those comparisons pass, `resolve` never accepts a root without a key |
| SlugConflicts.ListedContent | src/staticpy/internal/core/job.go:189-213 | the content of a listed node is its own recipe built upon the contents of the listed nodes it depends on |
| SlugConflicts.ResolveDeep | src/staticpy/internal/core/job.go:228-246 | on two roots whose deps share a slug and differ, `resolve` does return a plan; the node that serves both roots has the first root's key, and the second root's own key is another |
| SlugConflicts.JobOneReceivesJobZero | src/staticpy/internal/core/job.go:228-246 | so the second root receives what the first one builds, for every build function, and for some build function that is not what it would build itself |
| EngineSafety.MoveDiscipline | src/staticpy/internal/core/run.go:136-174 | a step changes at most the artifact of its own slug, under its own exclusive lock, and takes locks only when they are free |
| EngineSafety.HistoryInvariant | src/staticpy/internal/core/run.go:53-269 | every state of every history satisfies the engine invariant: locks exclude, the store is sound, checked deps are valid, schedulers are in order |
| EngineSafety.CacheSoundness | src/staticpy/internal/core/run.go:136-269 | in every state of every history an artifact is absent or has a manifest for its slug and exactly the content its key denotes, whatever crashed and whoever wanted another key |
| EnginePublish.RemovedExactly | src/staticpy/internal/core/run.go:252-255 | in every history an artifact disappears at a step exactly when a worker of its slug makes the first rename of `publish` there while the path is occupied |
| EnginePublish.AddedExactly | src/staticpy/internal/core/run.go:265-267 | an artifact appears exactly when a worker of its slug makes the second rename over a free path: nothing else ends a gap |
| EnginePublish.GapIsEmpty | src/staticpy/internal/core/run.go:248-269 | whenever a worker is between the renames, nothing is at the path |
| EnginePublish.OldOrNewExactly | src/staticpy/internal/core/run.go:246-247 | a publication shows readers only the old artifact or the new one if and only if the path was free before it |
| EnginePublish.GapStaysOpen | src/staticpy/internal/core/run.go:254-267 | a crash, or a second rename that fails, leaves the path empty |
| EnginePublish.ReplacementShowsGap | src/staticpy/internal/core/run.go:248-269 | from any start of one leaf with an outdated artifact: a history in which the artifact is there, is gone one step later, and after the process dies there nothing is left |
| EngineSafety.SkipEqualsRebuild | src/staticpy/internal/core/run.go:138-141 | an artifact valid for a job's key holds what a from-scratch build of the job would give |
| EngineSafety.BuildIsolated | src/staticpy/internal/core/run.go:145-209 | while a worker builds, stamps or publishes it is the only holder of its slug in any process, and every dep is present with the planned key and that key's content |
| EngineSafety.LeaseFreezesArtifact | src/staticpy/internal/core/lock.go:38-94 | an artifact whose lock is shared is not changed by any step of anyone |
| EngineSafety.BuildDenotes | src/staticpy/internal/core/run.go:194-206 | a build that has read every dep produces what the node's key denotes |
| EngineSafety.StoreStaysSound | src/staticpy/internal/core/run.go:221-269 | a step by a worker whose deps are right leaves the store sound |
| EngineProgress.BuildsOnlyWhenReady | src/staticpy/internal/core/run.go:65-107 | at most `Workers` nodes of a run are in `buildNode`, and each only after all its deps succeeded with the content of their keys |
| EngineProgress.NothingBuiltAboveFailure | src/staticpy/internal/core/run.go:83-89 | in every state of every history, along any chain of deps, nothing above a node that failed, was cancelled or was skipped has started to build |
| EngineProgress.DeadlockFree | src/staticpy/internal/core/run.go:65-174 | if all graphs embed in one acyclic relation on slugs, a state with an unfinished live worker has a live worker that can go on without any failure, cancellation or crash |
| EngineFinish.CanAlwaysFinish | src/staticpy/internal/core/run.go:65-134 | if all graphs embed in one acyclic relation, every history extends, by steps of live workers alone, to one in which every live worker is done |
| EngineAbort.CancelledRunEnds | src/staticpy/internal/core/run.go:65-174 | from any reachable state, a live run that the caller or a failure cancelled can be brought to its end by its own steps alone, whoever holds the file locks it waits for and whatever the other graphs are, as long as no other live run of its process has locked a slug it builds; and it does not report success |
| EngineAbort.ErrorsEndIt | src/staticpy/internal/core/run.go:136-269 | from any reachable state: where a lock, a lease, the build, the stamping or a rename can fail, where a cancelled worker waits, or where a build reports a cancellation, the worker's own steps then release all it holds and end it as failed or cancelled, the store untouched |
| EngineFinish.AgreeingIsRanked | src/staticpy/internal/core/run.go:161-174 | runs that want the same key for each slug have graphs that embed in one acyclic relation, since dep keys nest less deep |
| EngineFinish.AgreeingRunsFinish | src/staticpy/internal/core/run.go:53-134 | so runs that agree on the keys can all be brought to their end from any start with any sound store |
| EngineDeadlock.NeverStuckExactly | src/staticpy/internal/core/run.go:65-174 | for every finite relation on slugs: every history from every start whose dep edges lie in it can always go on if and only if the relation, loops aside, embeds in a rank |
| EngineDeadlock.RingCanDeadlock | src/staticpy/internal/core/run.go:145-169 | from any start of two or more runs whose dep edges close a ring, some history ends with a worker unfinished and no worker of any process able to go on |
| EngineDeadlock.RingStarts | src/staticpy/internal/core/run.go:53-57 | there is such a start for every ring, over a sound store |
| EngineProgress.StepUsesUp | src/staticpy/internal/core/run.go:80-133 | every step of a worker lowers its own measure of remaining steps |
| EngineProgress.WorkIsBounded | src/staticpy/internal/core/run.go:80-133 | in every history a goroutine of a node with n deps takes at most 13n + 47 steps, so every done channel is closed after boundedly many steps |
| EngineProgress.RunReportsTruly | src/staticpy/internal/core/run.go:53-117 | a nil result means every node succeeded with the content of its key if and only if no build lied about being cancelled; a reported job did fail, after all its deps succeeded (which of several failures is reported: `EngineCauses.ReportsFirstFailure`) |
| EngineCauses.ReportsFirstFailure | src/staticpy/internal/core/run.go:65-116 | over labelled histories: a finished run reports job s if and only if a step of s fails it in a state in which no node of the run has failed yet |
| EngineCauses.ReportsCancellation | src/staticpy/internal/core/run.go:113-117 | a finished run none of whose nodes failed returns the context's error if and only if its caller cancelled at some step before, and nil otherwise |
| EngineCauses.FailureHasCause | src/staticpy/internal/core/run.go:119-134 | a node fails only after an error of its own (lock, look, lease or build), or after exactly three attempts found a dep changed; no node ever finds that a fourth time |
| EngineCauses.CancellationHasCause | src/staticpy/internal/core/run.go:90-107 | a node ends cancelled only when the caller cancelled the run, another node of it failed, or some build said so for no reason |
| EngineCauses.CalledOffIsNeverBuilt | src/staticpy/internal/core/run.go:66-99 | once a node failed or the caller cancelled, a node that waits for deps or has not asked for a place is never built in any later state: it ends skipped or cancelled |
| EngineCauses.AgreeingSeeNoChange | src/staticpy/internal/core/run.go:161-180 | among runs that want the same keys no attempt ever finds a dep changed |
| EngineCauses.UndisturbedRunSucceeds | src/staticpy/internal/core/run.go:53-117 | so a finished run of agreeing runs, neither cancelled nor lied to and with no error at any of its nodes, reports success, every node with the content of its key |
| EngineCauses.UpToDateTakesNoLock | src/staticpy/internal/core/run.go:136-142 | a node whose artifact was valid at the start for the key everybody wants takes no lock and is never built, in any state of any history |
| EngineCauses.WaitsExactly | src/staticpy/internal/core/run.go:80-174 | a live unfinished worker can go on unless it waits for exactly one of: a dep not done, a full semaphore, a slug locked by its own process, a lock held elsewhere |
| EngineLies.LyingRunReportsFine | src/staticpy/internal/core/run.go:102-116 | from any start of one leaf without a valid artifact: a history in which its build reports a cancellation that never happened, and `Run` returns nil with the leaf not built and the store unchanged |
| EngineSteps.SoloStarts | src/staticpy/internal/core/run.go:53-79 | there are such starts, without an artifact and with an outdated one |
| EngineProgress.ValidIsLeftAlone | src/staticpy/internal/core/run.go:136-219 | an artifact is only ever changed by the exclusive holder of its slug, and only when it is not valid for the key that holder wants |
| EngineProgress.RebuildIsNoOp | src/staticpy/internal/core/run.go:49-52 | once an artifact is valid for the key every run wants, no later state of the history differs in it |
| Pipeline.ResolvedNodesArePlanned | src/staticpy/internal/core/run.go:57-79 | what `resolve` returns is a starting plan of the engine: keys chain, dep lists are duplicate-free and closed |
| Pipeline.ChainedNodesArePlanned | src/staticpy/internal/core/run.go:57-79 | the same for what `resolve` returns from an empty cache, whether slugs determine content or not |
| Pipeline.RunServesListedContent | src/staticpy/internal/core/run.go:53-117 | end to end without the assumption about slugs: every root is served the content of the node listed for its slug, which is its own from-scratch build whenever reachable duplicates agree below |
| Pipeline.RunDeliversFromScratch | src/staticpy/internal/core/run.go:53-117 | end to end: a run of a resolved plan that returns nil, with no build lying, delivers for every root the content of its from-scratch build |
| Pipeline.ChangeRebuildsExactlyDependents | src/staticpy/internal/core/job.go:107-120 | after the inputs of t change, a job's artifact is still valid if and only if the job does not reach t |
| LockSlots.LockCalls | src/staticpy/internal/assets/files/libat_atfork.c:101-115 | the loop calls `lock_one` on exactly the slots of the specification, in its order, with `size_t` wrap-around |
| LockSlots.UnlockN | src/staticpy/internal/assets/files/libat_atfork.c:117-131 | exactly those slots are cleared and no other word of the table changes |
| LockSlots.ZeroTable | src/staticpy/internal/assets/files/libat_atfork.c:79-83 | every word of the table is zero |
| LockSlots.SlotsAscend | src/staticpy/internal/assets/files/libat_atfork.c:101-115 | each slot at most once, strictly ascending and in bounds, also when the range wraps around the table |
| LockSlots.SlotsExact | src/staticpy/internal/assets/files/libat_atfork.c:101-115 | the slots locked are exactly the slots of the range's bytes if and only if the rounding sum does not overflow |
| LockSlots.SingleSlot | src/staticpy/internal/assets/files/libat_atfork.c:91-99 | the one-slot calls use the slot that a one-byte range uses |
| LockSlots.OverlapSharesSlot | src/staticpy/internal/assets/files/libat_atfork.c:45-48 | two ranges with a byte in common lock a common slot |
| ForkLocks.ActKeepsConsistent | src/staticpy/internal/assets/files/libat_atfork.c:56-89 | every compare-and-swap, store, yield, handler step or thread exit keeps a process consistent |
| ForkLocks.ForkAwareExclusion | src/staticpy/internal/assets/files/libat_atfork.c:56-89 | in every reachable state a word equal to the own token has exactly one live holder in that process, and any other word has none |
| ForkLocks.StealsOnlyLeftovers | src/staticpy/internal/assets/files/libat_atfork.c:65-69 | the second compare-and-swap only ever takes a slot that no live thread of the process holds |
| ForkLocks.CriticalRangesDisjoint | src/staticpy/internal/assets/files/libat_atfork.c:101-131 | two threads of one process are never inside overlapping byte ranges |
| ForkLocks.UnblockedTakes | src/staticpy/internal/assets/files/libat_atfork.c:59-69 | a thread whose next slot is not held by a live thread takes it with one of its next two compare-and-swaps |
| ForkLocks.SomeThreadUnblocked | src/staticpy/internal/assets/files/libat_atfork.c:101-115 | no set of threads deadlocks: if a thread is inside a call, some thread inside a call is not blocked |
| ForkFinish.CanAlwaysRest | src/staticpy/internal/assets/files/libat_atfork.c:56-131 | from any reachable state, steps of a process's own threads bring all of them out of their calls, whatever leftovers its table holds, and change no other process |
| ForkChild.ChildGetsThrough | src/staticpy/internal/assets/files/libat_atfork.c:56-115 | from any reachable state, for every range: a child forked by a thread outside its calls can take exactly the slots of the range before its handler has run, whatever words of the parent's threads its table holds, waiting for nobody and changing nothing else |
| ForkChild.HandlerClears | src/staticpy/internal/assets/files/libat_atfork.c:79-89 | and its handler can run at once, which leaves one idle thread and a table of zeros |
| ForkChild.ComeAndGo | src/staticpy/internal/assets/files/libat_atfork.c:4-21 | from any reachable state an idle thread of a process whose handler has run can start another or end, and a process can end: the results about several threads are not about one alone |
| StaticApi.WriteTable | src/staticpy/internal/gen/staticapi.go:271-284 | for every macro assignment the emitted table preprocesses to exactly the items whose guard holds, in order, then the terminator |
| StaticApi.WriteExterns | src/staticpy/internal/gen/staticapi.go:226-267 | for every macro assignment a function or object is declared if and only if some item of that name and kind is not declared by the headers and has its guard defined or none, whatever hides it; conditionals are balanced and never nest |
| StaticApi.ExternsInGroups | src/staticpy/internal/gen/staticapi.go:240-245 | the externs come guard by guard and by name within a guard, so that each macro opens one group |
| StaticApi.WriteUndefs | src/staticpy/internal/gen/staticapi.go:201-220 | exactly the macros that hide functions are undefined |
| StaticApi.RenderSymbols | src/staticpy/internal/gen/staticapi.go:168-199 | under every macro assignment the whole file is balanced; a name is declared extern if and only if an item of that name and kind is undeclared and its guard is in force once the hiding macros are undefined; the tables hold the items in force |
| StaticApi.StrcmpIsByteOrder | src/staticpy/internal/assets/files/staticapi/staticapi.c:6-8 | the comparison the lookup uses is the order the generator sorts by |
| StaticApi.BSearch | src/staticpy/internal/assets/files/staticapi/staticapi.c:10-14 | on a table in strcmp order a name is found if and only if an entry has it |
| StaticApi.FindSymbol | src/staticpy/internal/assets/files/staticapi/staticapi.c:16-28 | a name is found if and only if a table has it, with that entry's address, and the kind is the true one, functions first |
| StaticApi.TablesAnswerTruly | src/staticpy/internal/gen/staticapi.go:269-284 | under every macro assignment what is left of a table is still in strcmp order, and has a name if and only if an item of that kind and name has its guard in force |
| StaticApi.Dlsym | src/staticpy/internal/assets/files/staticapi/staticapi.c:16-56 | end to end: for any item list and any macros, rendering, preprocessing and compiling the table and looking a name up gives the address of that name and the kind of an item in force that has it, functions first, and nothing if there is none |
| Profiles.Chain | src/staticpy/internal/config/resolve.go:62-86 | the loop and the reversal compute the ancestors root first, or the error (that they are the ancestors, and in which order: `ProfileLaws.ChainIsAncestors`) |
| Profiles.ChainErrsExactly | src/staticpy/internal/config/resolve.go:62-86 | on every profile table: success exactly when following `inherit` ends, an unknown-profile error exactly when it meets an undefined name, a cycle error exactly when it repeats one |
| ProfileLaws.ChainIsAncestors | src/staticpy/internal/config/resolve.go:62-86 | on success the k-th profile from the end of the chain is the k-th ancestor, and the chain ends where a profile inherits nothing |
| Profiles.Remove | src/staticpy/internal/config/resolve.go:159-176 | succeeds exactly when each flag to remove is present and named once; then no removed flag is left and the rest keep their order |
| Profiles.Accumulator.Apply | src/staticpy/internal/config/resolve.go:102-155 | one layer updates the accumulated value field by field as the specification says, and fails exactly when a removal matches nothing |
| Profiles.Resolve | src/staticpy/internal/config/resolve.go:32-59 | the nested loops fold all selected layers in chain order, and fail exactly when the chain, the scope or a removal does (which layer then decides: `ProfileLaws.ResolveOverrides`) |
| Profiles.LastWriterWins | src/staticpy/internal/config/resolve.go:102-155 | every scalar of the result is what the last layer that sets it says; the flag lists fold layer by layer |
| Profiles.LastIsLast | src/staticpy/internal/config/resolve.go:123-153 | what "last" means: the default when no layer sets it, otherwise the value of the setting layer with no setting layer after it |
| ProfileLaws.ResolveOverrides | src/staticpy/internal/config/resolve.go:29-59 | on every profile table: each switch, text, flag and the LTO mode is what the nearest ancestor that says anything about it says, and within one profile the scope of one dependency beats that of all dependencies, which beats the profile itself; the literal default when nobody does |
| ProfileLaws.AddsAtTheEnd | src/staticpy/internal/config/resolve.go:102-121 | both flag lists end with what the most specific layer of the profile itself adds |
| ProfileLaws.SelectedExactly | src/staticpy/internal/config/resolve.go:88-100 | layers are found exactly when following `inherit` ends and the scope is one of the three known or names a dependency |
| Profiles.FlagsForgetBeforeReplace | src/staticpy/internal/config/resolve.go:102-121 | a flag list depends only on the layers from the last one that replaces it |
| Profiles.ResolutionIsLocal | src/staticpy/internal/config/resolve.go:29-59 | tables that agree on the chain's profiles and the selected scopes resolve alike |
| Profiles.PackageFor | src/staticpy/internal/config/resolve.go:228-260 | the package as the chain sees it, or the exact error; the variant table is cleared (which variant decides: `ProfileLaws.PackageOverrides`) |
| Profiles.LastVariantIsLast | src/staticpy/internal/config/resolve.go:238-255 | each field is what the most derived profile whose variant sets it says, and as written when none does |
| ProfileLaws.PackageOverrides | src/staticpy/internal/config/resolve.go:228-260 | on every table: the variant of the nearest ancestor that sets a field decides it, for each of the three lists and for skipping; the package stands otherwise |
| Profiles.VariantsAreLocal | src/staticpy/internal/config/resolve.go:214-260 | what `packageFor` answers does not change with variants of profiles outside the chain, with other packages, or with profiles outside the chain |
| KeyInputs.KeyInputs | src/staticpy/internal/config/resolve.go:186-212 | six inputs for a dependency and exactly six more for Python, each with the value its name says, down to the words: "true" or "false" for a switch, "off" only for link-time optimisation that is switched off; the LTO mode is never empty |
| KeyInputs.InputsExactly | src/staticpy/internal/config/resolve.go:186-212 | for every pair: key inputs are equal exactly when the switches agree and the flag lists agree once every flag is cut at its spaces |
| KeyInputs.InputsDecideArtifact | src/staticpy/internal/config/resolve.go:178-212 | for flag lists without spaces (and no empty list against a single empty flag): key inputs are equal exactly when the tools get the same arguments one by one and the switches agree; profile and scope names do not count, deps ignore what only Python reads |
| KeyInputs.JoinExactly | src/staticpy/internal/config/resolve.go:187-190 | two flag lists are joined to one text exactly when cutting their flags at spaces gives one list, the empty list counting as one empty flag |
| KeyInputs.CollidesExactly | src/staticpy/internal/config/resolve.go:187-190 | some other non-empty spaceless list has a list's text exactly when the list is empty or a flag of it has a space |
| KeyInputs.SharesKeyExactly | src/staticpy/internal/config/resolve.go:186-212 | some other artifact with plain flag lists has a profile's key inputs exactly when a list of the profile is empty or has a flag with a space |
| KeyInputs.FlagsCollide | src/staticpy/internal/config/resolve.go:186-190 | two inputs that show it: two flags against the one flag they look like, and no flag against an empty flag |
| Fetch.MarkerVouches | src/staticpy/internal/sources/fetch.go:104-199 | in every state of every history of callers, bad mirrors, retries and crashes, a file beside a marker has the pinned hash |
| Fetch.VerifiedForGood | src/staticpy/internal/sources/fetch.go:145-157 | a file that matches the pin is never deleted and never replaced by one that does not |
| Fetch.PathMeansVerified | src/staticpy/internal/sources/fetch.go:117-199 | a call that returned the path did so for bytes matching the pin, then and ever after (that the path is reached: `FetchMirrors.LaterMirrorServes`) |
| Fetch.OneCallerPastLock | src/staticpy/internal/sources/fetch.go:306-331 | at most one caller is past the lock at a time, cancelled stragglers included |
| FetchMirrors.HistoriesHaveLabels | src/staticpy/internal/sources/fetch.go:114-199 | every history of calls can be labelled with what happened at each step, so what is proved of labelled histories holds of all |
| FetchMirrors.GivesUpLast | src/staticpy/internal/sources/fetch.go:171-199 | over labelled histories: an online call that nobody cancels and whose disk does not fail gives up only when every mirror refused, served bytes that do not match, or failed three times |
| FetchMirrors.LaterMirrorServes | src/staticpy/internal/sources/fetch.go:171-198 | from any reachable state with a call at some mirror, matching bytes from that or any later mirror can still bring it to the path, with those bytes in place and marked |
| FetchMirrors.FreshCallFetches | src/staticpy/internal/sources/fetch.go:117-199 | from any reachable state without a file and with the lock free, a new online call can fetch the pinned bytes from any mirror of its list |
| FetchMirrors.DeathUnlocks | src/staticpy/internal/sources/fetch.go:133-137 | a process that dies with the lock leaves it free, and file and marker as they were |
| FetchMirrors.AsksInOrder | src/staticpy/internal/sources/fetch.go:171-198 | a call asks only mirrors of its list, each at most three times, in the order of the list, and never goes back |
| FetchMirrors.AnswersPossible | src/staticpy/internal/sources/fetch.go:172-198 | a call at a listed mirror may get matching bytes, other bytes, a transient or a permanent failure, and does not go on without one; past the last mirror it can only give up |
| FetchMirrors.DownloadsOnlyWhatIsMissing | src/staticpy/internal/sources/fetch.go:145-169 | whoever downloads, checks or renames does so with no file in place and is online |
| FetchMirrors.PathIsMarked | src/staticpy/internal/sources/fetch.go:105-148 | a path is returned only for a marked file, and a marker is never taken away |
| FetchMirrors.MarkedIsNotHashed | src/staticpy/internal/sources/fetch.go:139-158 | a file beside its marker is neither hashed again nor removed |
| FetchMirrors.MarkedNeedsNoLock | src/staticpy/internal/sources/fetch.go:127-132 | a call made when file and marker are there takes no lock: it looks twice and returns the path |
| FetchErrors.ErrorEndsCall | src/staticpy/internal/sources/fetch.go:133-186 | an error of the lock file, of hashing, of removing a poisoned file or of writing the marker, and a cancellation while downloading, can only end the call with an error, the lock dropped and file and marker as they were |
| FetchErrors.RetriesMirror | src/staticpy/internal/sources/fetch.go:171-197 | a try that fails for a reason that may pass, before or after the bytes have come, is repeated with the same mirror twice and then with the next |
| FetchErrors.StragglerLetsGo | src/staticpy/internal/sources/fetch.go:306-326 | a call cancelled while it waits for the lock leaves a straggler that still gets it once, and drops it at once, with file and marker as they were |
| TailRing.TailWriter.Write | src/staticpy/internal/core/runner.go:416-433 | ring and part after a write, in terms of the scan of the old part and the new bytes |
| TailRing.TailWriter.Text | src/staticpy/internal/core/runner.go:442-453 | the text is the last n lines, unfinished part included |
| TailRing.WriteExactIffNotFlushed | src/staticpy/internal/core/runner.go:416-433 | a write keeps ring and part what the whole stream says they are if and only if it does not end inside an overlong line |
| TailRing.ChunkingIndependent | src/staticpy/internal/core/runner.go:407-453 | however a stream without overlong lines is cut into writes, the result is the last n lines of the whole stream |
| TailRing.OverlongLineShowsChunking | src/staticpy/internal/core/runner.go:428-431 | with an overlong line one write and two writes of the same bytes differ |
| TailExact.ExactForEveryCutting | src/staticpy/internal/core/runner.go:407-453 | for every stream and ring size: every way of cutting the stream into writes leaves the ring and the part of the whole stream if and only if neither its unfinished line nor any of its last n lines is overlong (a line of nothing but carriage returns at the very start of the ring excepted) |
| TailText.TextExactForEveryCutting | src/staticpy/internal/core/runner.go:407-453 | for every stream and ring size: every way of cutting the stream into writes makes `String` return the last n lines of the whole stream if and only if the unfinished line is at most one byte over the limit and none of the finished lines shown beside it is overlong (with the same exception) |
| TailRing.LineWriter.Write | src/staticpy/internal/core/runner.go:463-476 | the callback's lines and the buffer after a write |
| TailRing.CallbackSeesEveryLine | src/staticpy/internal/core/runner.go:455-476 | however a stream is cut into writes, the callback gets exactly the finished lines of the whole stream |
| Shell.ShellReadsBack | src/staticpy/internal/core/runner.go:343-367 | a shell following section 2.2 of the Shell Command Language (POSIX.1-2017) reads any quoted argument list back as that list |
| Shell.QuotesOnlyWhenNeeded | src/staticpy/internal/core/runner.go:351-367 | an argument is left unquoted exactly when it is not empty and consists of letters, digits and ten further characters |
| Shell.SplitShell | src/staticpy/internal/cli/shell.go:227-251 | the byte loop computes the specification's words |
| Shell.SplitterReadsBackIff | src/staticpy/internal/cli/shell.go:225-251 | the splitter reads a quoted argument list back if and only if no argument has a single quote |
| Shell.SplitterReadsLines | src/staticpy/internal/cli/shell.go:225-251 | every line of words, each in single quotes or as it stands, with any runs of spaces and tabs around them, is split into exactly those words |
| Regrtest.ParseRegrtest | src/staticpy/internal/ensure/suite.go:158-187 | the loop with its jumping index reads the output exactly as one pass over the lines does |
| Regrtest.CollectNames | src/staticpy/internal/ensure/suite.go:191-204 | takes exactly the indented lines that follow, and stops at the last of them |
| Regrtest.SectionsExact | src/staticpy/internal/ensure/suite.go:154-204 | a bucket gains exactly the names on indented lines below one of its headers, and never repeats one |
| Regrtest.CountExact | src/staticpy/internal/ensure/suite.go:156-165 | the passed count is that of the last count line outside every section |
| Regrtest.HeaderIsNoCount | src/staticpy/internal/ensure/suite.go:154-166 | no line is both a section header and a count, so the order of the two checks does not matter |
| SummaryLines.HeaderExactly | src/staticpy/internal/ensure/suite.go:151-182 | a line heads a section exactly when it is a number, "test" or "tests", a title and a colon; "failed", "omitted" and "run no tests" are whole titles, "skipped" begins one and "env changed" is part of one; a re-run header is none |
| SummaryLines.CountLinesExactly | src/staticpy/internal/ensure/suite.go:156-165 | a line is a count exactly when, blanks aside, it is a number followed by "test OK." or "tests OK.", with "All" before it or not |
| SummaryLines.CountReadsBack | src/staticpy/internal/ensure/suite.go:156-165 | every number printed in decimal is read back as that number, up to the largest 64-bit int |
| SummaryLines.IndentedExactly | src/staticpy/internal/ensure/suite.go:194-196 | a line continues a section exactly when it starts with a space and is not blank |
| SummaryLines.NamesRead | src/staticpy/internal/ensure/suite.go:197-201 | the names on a line are its words, whatever white space is around them, carriage returns included |
| SummaryLines.StatusRead | src/staticpy/internal/ensure/suite.go:95-107 | from output to verdict: a test failed when a section of failed or environment-changing tests lists it, was skipped when only another section does, and passed when none does and it was in scope, as in a full run every test is |
| Regrtest.ParsedIsTidy | src/staticpy/internal/ensure/suite.go:189-204 | the failure buckets of a parsed outcome have no repetitions |
| Verdicts.Accounted | src/staticpy/internal/ensure/suite.go:207-215 | counts the passed tests and the distinct named ones |
| Verdicts.CheckCoverage | src/staticpy/internal/ensure/suite.go:222-237 | a run cut off, a run that counted nothing and named nothing, and a request of more tests than were counted or named are each refused with their own error, and nothing else is; a full run needs one result |
| Verdicts.CoverageDecidesPassInference | src/staticpy/internal/ensure/suite.go:217-237 | given an honest passed count and honest buckets, the coverage check succeeds if and only if every requested test that `StatusOf` calls passed really passed |
| Verdicts.LookupExpect | src/staticpy/internal/ensure/expect.go:31-51 | gathers the entries of every applicable key, widest first |
| Verdicts.LookupDecides | src/staticpy/internal/ensure/expect.go:28-51 | for skips, failures and ignored patterns alike: a test is listed exactly when "all", "static" (on static targets), the runner, the triple or the triple under the runner lists it, with the reason of the narrowest of them |
| Verdicts.NarrowestKeyDecides | src/staticpy/internal/ensure/expect.go:28-51 | a test listed under an applicable key is listed in the result, with the reason given by the narrowest key that lists it |
| Verdicts.WhyMap | src/staticpy/internal/ensure/expect.go:193-202 | keys are the named tests, values the reason of the last entry |
| Verdicts.SortKeeps | src/staticpy/internal/ensure/expect.go:213-215 | sorting verdicts permutes them, orders them by test and keeps tests distinct |
| Verdicts.Classified.Judge | src/staticpy/internal/ensure/expect.go:90-115 | a test not judged before goes to exactly the bucket its status and the expectation call for, with a true verdict; one judged before changes nothing |
| Verdicts.Classify | src/staticpy/internal/ensure/expect.go:83-139 | each bucket holds exactly the tests it should, each verdict reports the test's status and the reason of its entry, no test twice when no failure bucket repeats one, deciding buckets sorted |
| Verdicts.ClassifyDecidesAgreement | src/staticpy/internal/ensure/expect.go:75-139 | buckets are disjoint; OK if and only if no listed test passed, every skip-only entry is skipped or out of scope, and every failed or environment-changing test is listed |
| Verdicts.BucketsExactly | src/staticpy/internal/ensure/expect.go:83-139 | unexpected failures are the failed or environment-changing tests not listed as failures, unexpected passes the listed tests in scope that no bucket names, expected failures the tests listed so that some bucket names, expected skips those listed only as skips that were only skipped |
| Probe.ParseDefines | src/staticpy/internal/recipe/probe.go:160-184 | the loop computes the last definition of each macro and first-seen order |
| Probe.LineRead | src/staticpy/internal/recipe/probe.go:160-184 | a line of words with any white space around them defines its second word if and only if its first is "#define" or "#undef" and there are two; the value is the rest, single-spaced |
| Probe.PrintedReadsBack | src/staticpy/internal/recipe/probe.go:404-414 | a definition is printed as a "#define" or "#undef" line that parses back to it |
| Probe.PyconfigFragment | src/staticpy/internal/recipe/probe.go:399-419 | the text is the banner, one line per macro the asset does not state, and the asset |
| Probe.HeaderAnswersAlike | src/staticpy/internal/recipe/probe.go:396-419 | parsing the printed header gives macro by macro the asset-wins merge that `configSite` uses, for any probe output and any asset |
| Probe.Merge | src/staticpy/internal/recipe/probe.go:335-343 | whatever order the maps are ranged over in, the asset wins |
| ConfigSite.ConfigSite | src/staticpy/internal/recipe/probe.go:334-372 | for any order the merged map is ranged over in, the table or the error is the specification's |
| ConfigSite.SiteExact | src/staticpy/internal/recipe/probe.go:345-372 | fails exactly when a size is stated as undefined or two macros of one boolean variable disagree; otherwise each variable holds the answer of the last macro that has it |
| ConfigSite.OnlyFloatHalvesOppose | src/staticpy/internal/recipe/probe.go:208-221 | the only macros that can contradict each other are the two float-endianness halves, when both are defined or both undefined |
| ConfigSite.FailsInAnyOrder | src/staticpy/internal/recipe/probe.go:356-371 | whether it fails does not depend on map order |
| ConfigSite.OrderMattersExactly | src/staticpy/internal/recipe/probe.go:349-372 | the answers are the same for every map order if and only if it fails or no two macros share a variable and disagree |
| ConfigSite.ClashesByCase | src/staticpy/internal/recipe/probe.go:208-266 | any two macros that share a variable and disagree are the two float halves, or two sizes whose names differ in letter case only |
| ConfigSite.CaseClash | src/staticpy/internal/recipe/probe.go:246-266 | in every merged map that does not fail, one size stated in two spellings with different values makes two map orders give different answers |
| ConfigSite.FragmentSpelling | src/staticpy/internal/recipe/probe.go:222-247 | and so for every probe that passes `requireProbed` and does not fail, once the fragment states the size of `int` in lower case with another value |
| ConfigSite.TableAnswersEach | src/staticpy/internal/recipe/probe.go:345-372 | without a clash every macro's variable holds that macro's own answer, the fixed answers are kept, and nothing else is there |
| ConfigSite.ConfigureIsTold | src/staticpy/internal/recipe/probe.go:196-266 | by name: without a clash each of the five plain macros answers its variable yes when defined and no when undefined, as does the big-endian half, the little-endian half the other way round; a size variable holds its macro's value; the nine fixed answers stand |
| ConfigSite.RefusedExactly | src/staticpy/internal/recipe/probe.go:345-372 | it fails, in every map order, exactly when a size is stated as undefined or the two float halves are both defined or both undefined |
| ConfigSite.LowersCapitalsOnly | src/staticpy/internal/recipe/probe.go:246-266 | the name of a size is lower-cased letter by letter from A to Z, and otherwise kept |
| ConfigSite.HeaderAndSiteAgree | src/staticpy/internal/recipe/probe.go:334-419 | every macro of the printed header, parsed back, is what the autoconf table says, unless two macros clash |

## Left out

- KeyDenotesFromScratch: SHA-256 and the JSON encoding are one injective constructor; collisions are outside the model.
- BuildDenotes: `Build` is a parameter applied to name, slug, key inputs and the deps' contents by slug. Compilers, sandboxes and the recipes themselves are not modelled, and the sysroot's symbolic links into deps count as copies of what they point to.
- ComputeKey: a nil `KeyInputs` is the same as an empty one, as in `computeKey`; `jobFingerprint` does tell the two apart. On a nil dep the code would panic where the model returns `NilDep`; `resolve` rejects nil deps before it gets there.
- Visit: dep slugs in a fingerprint are compared as a multiset; the code joins them with commas, so slugs that contain commas could be confused. Fingerprinting a duplicate with a nil dep would panic; the model leaves that dep out of the fingerprint.
- CacheSoundness: every process is assumed to use one artifact path per slug (`ArtifactDir`), and directories to change only through `publish`. Removing trash, stale-scratch collection, heartbeats, `Inspect` and run logs are not modelled.
- DeadlockFree: waiting is polling in the code; the model says a worker can go on, not when it is scheduled. Lock files and mutexes have no owners beyond the workers' program points.
- RunReportsTruly: deadlines are cancellations like any other; wrapped error texts are not modelled.
- WorkIsBounded: a polling turn that finds the lock taken is not a step.
- ForkAwareExclusion: assumes that a child starts with one thread, outside every call, which starts no second thread and does not exit before its handler has run, and that the child's pid is not among the words it copies. Before or while the handler is pending that thread may make atomic calls; it runs the handler when it is in none. Memory orderings are sequentially consistent; signal handlers are not modelled.
- RenderSymbols: lines are tokens: comments, blank lines, includes and the expansion of the entry macros are not modelled. Names contain no NUL, and addresses of symbols are not null. `parseDump` and its driver are not modelled.
- Resolve: the order that sorting leaves equal names in is one of those Go allows. Validation of profiles at load time is not modelled.
- KeyInputs.KeyInputs: recipes add further inputs of their own; those are parameters of the job graph.
- Fetch: one pinned source; the bytes written to the temporary file are those hashed; back-off and stall timers are events; `ValidateSource` and the cache-directory layout are not modelled.
- Write: both writers' mutexes are left out; a write is atomic.
- ShellReadsBack: covers the quoting and word splitting rules, not expansions, which a quoted list never reaches. An equals or percent sign stands for itself, as it does in the arguments of a command; assignments before a command are not modelled. `sanitize` and the replay script around the words are not modelled.
- Regrtest.ParseRegrtest: characters are code points, and white space is what Go's `unicode.IsSpace` lists. `RunSuite` and the report are not modelled.
- Classify: `Report`, `ExpectHash` and the level and runner names are not modelled; sorting keeps equal names in insertion order, which Go leaves open.
- ConfigSite.ConfigSite: returns the table; its printing as sorted `name=value` lines is not modelled. Lower-casing covers ASCII letters. `reportOverrides` and the wording of errors are not modelled.
- Benchmark statistics, the command line, logging, ELF reading, archive handling, line edits and the web pages are not part of this model.
