# A verified model of the build engine behind justinyaodu.github.io

This project is a Dafny model of the build system that generates the
justinyaodu.github.io site. The site is built by an incremental build engine.
A build is a graph of *targets*: each target's value comes from calling a
*service* on inputs gathered from other targets. A target is rebuilt only
when an input changed. When a file changes, everything downstream of it is
reset. The repository holds three generations of this engine, and the model
covers all three:

- **The current engine** (`src/build/`). `LocalRunner` keeps a state per
  target: fresh, stale, building or resetting. It keeps a clock and holds
  per-target caches of the last serialized input and result. It registers
  dependents and emits events. Services run with a context (`log`, `warn`,
  `tryCall`). `ServiceInstance`, `defineService`, `targetMacro`,
  `macroCompose` and `defineRule` build the objects it runs.
- **The middle engine** (`src/build/Runner.ts`). Its local services and
  local targets record one `TargetState` each, register dependencies,
  memoise `get`, and reset recursively through the dependents.
- **The first engine** (`src/target/Target.ts`). Its `Target` objects are
  versioned. They mark their dependents stale, keep their value when the
  inputs are unchanged, and skip the build (status `skip`, value null)
  when an input gives null.
  Its concrete targets are the page preview, the site analysis and the
  blog index.

Around the engines sit the utilities:
- an asynchronous queue;
- a reference-counted history cache;
- `getOrSetComputed` on a Map;
- `Result`;
- `findOne`.

The file-system policy is modelled in its three forms: which project paths
may be read or written, and how they resolve. The engines' file services
and watch macros issue file-system requests that the model lists. The site
logic is modelled as well:
- link rewriting from markdown files to page paths;
- heading ids and slugs;
- the aside blockquote selector;
- titles;
- code-language detection;
- the site's broken-link analysis;
- the blog index.

## How the model is built

One Dafny module stands for one source file:
- Objects whose fields the source updates become classes with `modifies`
  frames, for example the runners, the queue and the cache.
- Loops over DOM nodes become methods over arrays, each proved against a
  function of the initial contents.
- Pure helpers become functions with lemmas.

Where the code does something its authors evidently did not intend (see
"## Findings"), the model follows the code as written and states the
intended behaviour beside it.

The current runner's asynchronous methods are cut at each `await`. Each
synchronous stretch is a transition on a record of the runner's state
(`RunnerSteps`), and the class `Runner.LocalRunner` performs these
transitions in place. Whatever the awaited promise, the input function or
the service produced arrives as a parameter of the step that resumes.
Things the engine only passes through are parameters as well: Node's `path`
functions, `serialize`, the slugger and the DOM lookups.

Four string-level conventions run through the model:
- Strings are sequences of characters.
- JavaScript's `util.inspect` and `JSON.stringify` are reduced to the
  alternatives the code relies on.
- Each regular expression is modelled by the language it matches, with `.`
  excluding line terminators.
- Each error the source throws is a `Completion` value.

## Model

| member | source | states |
|---|---|---|
| ArrayUtil.Filter | src/array.ts:2 | what `filter` keeps is drawn from the list and satisfies the predicate, and there is no more of it than the list |
| ArrayUtil.FilterOfOnlyMatch | src/array.ts:2 | when position i is the only match, the filtered list is exactly `[items[i]]` |
| ArrayUtil.FilterOfNoMatch | src/array.ts:2 | with no matching element the filtered list is empty |
| ArrayUtil.FilterKeepsMatch | src/array.ts:2 | one matching element anywhere makes the filtered list non-empty |
| ArrayUtil.FilterOfTwoMatches | src/array.ts:2 | two matching positions leave at least two elements after filtering |
| ArrayUtil.FindOne | src/array.ts:1-9 | returns if and only if exactly one element matches, and then returns a matching element of the list; otherwise it throws the message built from the number of items |
| ArrayUtil.FindOneReturnsOnlyMatch | src/array.ts:1-9 | when position i is the only match, `findOne` returns `items[i]` |
| ArrayUtil.FindOneThrowsOnNoMatch | src/array.ts:3-7 | with no match `findOne` throws, with the message carrying the item count |
| ArrayUtil.FindOneThrowsOnTwoMatches | src/array.ts:3-7 | with two matches `findOne` throws, with the message carrying the item count |
| ArrayUtil.FindOneMessageIgnoresMatches | src/array.ts:5 | as written, a list with two matches and a list with none, both of three items, throw the same message |
| ArrayUtil.FindOneReportingMatches | src/array.ts:1-9 | the corrected `findOne`: the same outcome as `findOne` when it returns; when it throws, the message carries the number of matches |
| ArrayUtil.FindOneReportsMatchCount | src/array.ts:5 | corrected, the two lists above report 2 and 0 matches |
| MapUtil.JsMap.Get | src/util/map.ts:6 | `get` answers a value exactly when the key is present with a defined value |
| MapUtil.GetOrSetComputed | src/util/map.ts:1-13 | the callback runs exactly when the key has no defined value. A defined value is returned with the map unchanged. Otherwise the callback's value is stored under the key and returned. Other keys never change |
| JsResult.Ok | src/util/Result.ts:7-9 | `ok(value)` is a record whose `ok` field is true and which carries `value` |
| JsResult.Err | src/util/Result.ts:11-13 | `err(error)` is a record whose `ok` field is false and which carries `error` |
| JsResult.FromThrowing | src/util/Result.ts:15-21 | a call that returns gives `ok` of its value; a call that throws gives `err` of what it threw |
| JsResult.FromThrowingRecordsOutcome | src/util/Result.ts:15-21 | the record says exactly what the call did: reading it back gives the call's outcome, and `ok` holds if and only if the call returned |
| AsyncQueueModule.AsyncQueue.constructor | src/util/AsyncQueue.ts:8-14 | a new queue is open and empty, both indices are 0, and the queue invariant holds |
| AsyncQueueModule.AsyncQueue.QueuesDisjoint | src/util/AsyncQueue.ts:16-52 | no index is both buffered and awaited |
| AsyncQueueModule.AsyncQueue.Enqueue | src/util/AsyncQueue.ts:16-30 | after `close`, `enqueue` throws and changes nothing. Otherwise the value takes the next enqueue index and is added to the enqueued history. A `next()` already waiting on that index gets it through its resolver; if none is waiting, the value is buffered. The invariant is kept: every `next()` call receives the enqueued value with its own index |
| AsyncQueueModule.AsyncQueue.Close | src/util/AsyncQueue.ts:32-34 | only the closed flag changes, and the invariant is kept |
| AsyncQueueModule.AsyncQueue.Next | src/util/AsyncQueue.ts:36-52 | each call takes the next index. It gets the value enqueued under that index if there is one. Failing that, a closed queue answers `done` and leaves the waiting calls as they were. Otherwise the call waits on that index. The invariant is kept |
| HistoryCacheModule.HistorySizeOf | src/util/HistoryCache.ts:12 | `1 << n` on 32-bit integers, for any integer `n`: the size is positive exactly when `n % 32 != 31` (so -1 gives a negative size), and is then 2^(n % 32) |
| HistoryCacheModule.SlotIndex | src/util/HistoryCache.ts:33 | the masked time is a slot of the ring |
| HistoryCacheModule.CountsAfterSet | src/util/HistoryCache.ts:35-48 | as written, `set` leaves the written key counted, and no other key gains, loses or changes a count: the overwritten key keeps its count |
| HistoryCacheModule.FreeSlotIncrements | src/util/HistoryCache.ts:46-48 | on a free slot the written key's count goes up by one (a first write gives 1) |
| HistoryCacheModule.OccupiedSlotKeepsCount | src/util/HistoryCache.ts:35-44 | as written, overwriting a slot leaves the count of a key counted n times at n, because the decrement hits the written key |
| HistoryCacheModule.OccupiedSlotNewKeyIsNaN | src/util/HistoryCache.ts:37 | as written, overwriting a slot with a key not yet counted gives it the count NaN (`undefined - 1`) |
| HistoryCacheModule.OverwrittenKeyNotReleased | src/util/HistoryCache.ts:35-44 | as written, in a one-slot ring holding key 0, writing key 1 keeps 0 counted with 1 and gives 1 the count NaN |
| HistoryCacheModule.CountsAfterSetReleasing | src/util/HistoryCache.ts:35-49 | the corrected release: the key held by the overwritten slot loses one reference, and is dropped at zero; the written key is always counted afterwards |
| HistoryCacheModule.OverwrittenKeyReleased | src/util/HistoryCache.ts:35-44 | corrected, the one-slot ring forgets 0 when 1 is written |
| HistoryCacheModule.ReleasingCountOf | src/util/HistoryCache.ts:32-50 | corrected, for each key: it is counted after the write if and only if it fills a slot of the new ring, and its count is the number of slots it fills |
| HistoryCacheModule.ReleasingKeepsOccurrenceCounts | src/util/HistoryCache.ts:32-50 | corrected, a write keeps the invariant "the counted keys are the keys in the ring, each counted once per slot it fills" |
| HistoryCacheModule.HistoryCache.constructor | src/util/HistoryCache.ts:8-16 | when `1 << logHistorySize` is positive, the ring has that many empty slots and the mask is one less; cache and counts are empty, and the invariant holds. The negative size is the throwing path of `NewHistoryCache` |
| HistoryCacheModule.NewHistoryCache | src/util/HistoryCache.ts:8-16 | `new HistoryCache(n)` throws the `RangeError` of setting a negative array length exactly when `n % 32 == 31`; otherwise it gives a fresh, empty cache over `1 << n` empty slots, meeting the invariant |
| HistoryCacheModule.HistoryCache.Get | src/util/HistoryCache.ts:18-20 | `get` answers the cached value exactly for cached keys |
| HistoryCacheModule.HistoryCache.InRingIsCached | src/util/HistoryCache.ts:32-50 | under the invariant the code as written keeps, every key that fills a slot of the ring is cached and counted (the converse fails as written: overwritten keys stay cached) |
| HistoryCacheModule.HistoryCache.Set | src/util/HistoryCache.ts:32-50 | as written: the key goes into slot `time & mask`, and the cache is the old cache with the key set to the value, so no key ever leaves it. The counts follow `CountsAfterSet`, which decrements the written key and not the overwritten one. Time advances by one and the invariant is kept |
| HistoryCacheModule.HistoryCache.GetOrSetComputed | src/util/HistoryCache.ts:22-30 | the callback runs exactly when the key is not cached. A cached value is returned with nothing changed. Otherwise the callback's value is returned and the whole state changes as `set` changes it: cache, counts, ring slot and time |
| Service.ServiceInstance.constructor | src/build/service.ts:55-59 | an instance carries the definition's id, purity and run function |
| Service.DefineService | src/build/service.ts:62-66 | every call gives a new instance with the definition's fields |
| Service.IdentityDefinition | src/build/service.ts:68-72 | the identity service is pure, has the id "Identity" and returns its input without any context call |
| Service.ServiceModule.constructor | src/build/service.ts:68-72 | loading the module creates one identity instance, with the identity definition's fields |
| Service.ServiceModule.IdentityService | src/build/service.ts:74-76 | `identityService()` is the same instance on every call |
| TargetInstances.TargetInstance.constructor | src/build-again/build.ts:140-145 | a target instance carries the definition's id, configuration, build spec and reset spec |
| TargetInstances.DefineTarget | src/build-again/build.ts:148-155 | every call gives a new target instance with the definition's fields |
| Rules.DefineRule | src/build/rule.ts:34-57 | the rule, applied to any id and configuration, defines a target with the given build service and input, and with a reset spec exactly when both reset parts were given (the two-argument form gives none) |
| Rules.ResetSpecOf | src/build/rule.ts:49-55 | a reset spec exists if and only if both a reset service and a reset input were given, and then it holds them |
| Rules.DefinitionOf | src/build/rule.ts:41-56 | the definition has the rule's id and configuration and its build spec, and has a reset spec exactly when both reset parts are present |
| Rules.Apply | src/build/rule.ts:41-56 | applying a rule gives a new target with the id, the configuration, the build spec and the conditional reset spec |
| TargetMacros.RunOf | src/build/service.ts:45 | running a definition object that has no `run` property throws; otherwise it behaves as its `run` |
| TargetMacros.NoOpAsWritten | src/build/target.ts:84-88 | as written, the NoOp definition has the id and purity the corrected one has, but no `run` function |
| TargetMacros.NoOpAsWrittenCannotRun | src/build/target.ts:84-88 | as written, the NoOp reset service keeps its function under `call`, so running it throws |
| TargetMacros.NoOpReturnsNull | src/build/target.ts:84-88 | corrected, NoOp is pure and returns null without any context call |
| TargetMacros.MacroCompose | src/build/target.ts:30-35 | the composed macro applies the macro to the transformed arguments |
| TargetMacros.MacroComposeTwice | src/build/target.ts:30-35 | composing twice is composing once with the composed transform |
| TargetMacros.MacroDefinition | src/build/target.ts:70-79 | the definition's id is `args.id` and its `args` are the arguments. It keeps the build service and build arguments. A missing reset service defaults to the NoOp object as written, without `run`, and missing reset arguments to a function that returns null |
| TargetMacros.TargetMacro | src/build/target.ts:69-81 | the macro passes the definition built from its arguments, with the as-written NoOp default, to the runner's `target` registration |
| TargetMacros.MacroDefinitionCorrected | src/build/target.ts:75-77 | corrected, the definition is the as-written one except that a missing reset service defaults to the NoOp that has a `run` |
| TargetMacros.TargetMacroCorrected | src/build/target.ts:69-81 | corrected, the macro passes the corrected definition to the runner's `target` registration |
| TargetMacros.TargetMacroDefaultReset | src/build/target.ts:58-82 | as written, the two-argument form registers a target with id `args.id` and a null reset input, whose reset service is the NoOp object without `run`, so running it throws |
| TargetMacros.TargetMacroCorrectedDefaultReset | src/build/target.ts:58-82 | corrected, that target's reset service returns null without any context call |
| RunnerSpec.SameClockProposalsExclusive | src/build/runner.ts:236-248 | of two proposals carrying the same clock, once one is installed the other is rejected |
| RunnerSpec.InitialResetProposalRejected | src/build/runner.ts:326-334 | after `build` on an `initial` target has installed `building` at clock 2, the reset's `stale` proposal at clock 2 is rejected from then on |
| RunnerSpec.NotifyUpToExact | src/build/runner.ts:156-173 | `_emit` over the first n listeners calls exactly those whose type matches (or which listen to "all"), each once, in registration order, whether or not an earlier one threw |
| RunnerSpec.NotifyExact | src/build/runner.ts:156-173 | the same over all listeners |
| RunnerSpec.NotifyAllAppend | src/build/runner.ts:156-173 | the deliveries of two runs of events are those of the first run followed by those of the second |
| RunnerSpec.StepLogs | src/build/runner.ts:271-285 | one log line per context call, in order: the message of `log` and `warn`, the nested logs of `tryCall` |
| RunnerSpec.WarnedAfter | src/build/runner.ts:275-291 | the warned flag is set if and only if some context call was a `warn` or a `tryCall` answered `warned` |
| RunnerSpec.CallRun | src/build/runner.ts:300-319 | `call`'s result is `failed` exactly when `run` threw, `warned` exactly when it returned after a warning, and `ok` otherwise. The value is what `run` returned. The logs are the lines joined by newlines, with the rendered error added on failure |
| RunnerSpec.CallOutcome | src/build/runner.ts:175-194 | a service whose id is registered to another instance gives `failed`, with the duplicate-id error as its only log line; any other service gives what its run gives (also lines 300-319) |
| RunnerSpec.InputFailure | src/build/runner.ts:511-516 | an input function that threw gives `skipped` for a `TargetUnavailableError` and `failed` otherwise, with the rendered error as the logs and no value |
| RunnerSpec.DoBuild | src/build/runner.ts:470-541 | the cache is used if and only if the input returned, the service is pure, the serialized input equals the cached one and a result is cached; then the cached result is reused. The serialized input is recorded exactly for a pure service's returned input. A thrown input gives `InputFailure`. Otherwise the service's run decides |
| RunnerSpec.CachedBuildCallsNothing | src/build/runner.ts:519-525 | a pure service with an unchanged serialized input and a cached result reuses that result and is not called |
| RunnerSpec.ImpureBuildNeverCached | src/build/runner.ts:519-533 | an impure build service is always called, and no serialized input is recorded |
| RunnerSpec.DoReset | src/build/runner.ts:543-580 | no reset spec gives `ok` with null and no logs, and no call. An input function that threw gives `failed` with its rendered error, and no call. Otherwise the reset service is called through `call`. A reset result is never `skipped` |
| RunnerSpec.Unwrap | src/build/runner.ts:602-610 | a built target yields its value exactly when its result is `ok` or `warned`; otherwise a `TargetUnavailableError` with the target's id and the status |
| RunnerSpec.Collect | src/build/runner.ts:611-621 | `Promise.all` returns if and only if every part returned, with the values in order; otherwise it throws the error of some part |
| RunnerSpec.TryBuildValue | src/build/runner.ts:592-623 | `tryBuild` returns exactly when every target in the tree built to a value. A single target is unwrapped. An array gives an array of the same length, element by element. A record gives a record with the same keys in the same order, entry by entry. Otherwise it throws a `TargetUnavailableError` |
| RunnerSteps.EmptyState | src/build/runner.ts:128-142 | the runner's initial state satisfies the runner invariant: the id-keyed maps agree, dependents are registered and distinct, and every `building` or `resetting` state's promise is a job of that kind for that target |
| RunnerSteps.TableWithConsistent | src/build/runner.ts:206-215 | registering a new target as `initial` with no dependents keeps the invariant |
| RunnerSteps.NewStateConsistent | src/build/runner.ts:245 | installing a state other than `initial` whose promise is tracked keeps the invariant |
| RunnerSteps.NewJobConsistent | src/build/runner.ts:356 | adding a job for a registered target under a new handle keeps the invariant (also line 424) |
| RunnerSteps.NotifiedSinceTransitive | src/build/runner.ts:156-173 | "the deliveries since then are exactly those for the events emitted since then" composes over two stretches |
| RunnerSteps.SubscribeStep | src/build/runner.ts:149-154 | `on` appends the listener and changes nothing else |
| RunnerSteps.EmitLog | src/build/runner.ts:156-173 | the event takes the number of events before it as its sequence number, and the deliveries grow by exactly the matching listeners' invocations |
| RunnerSteps.EmitStep | src/build/runner.ts:156-173 | emitting changes only the event log, and keeps the invariant |
| RunnerSteps.RegisterServiceStep | src/build/runner.ts:175-194 | a different instance under a registered id throws the duplicate-service error and changes nothing; otherwise the service is registered under its id and returned |
| RunnerSteps.RegisterTargetStep | src/build/runner.ts:196-225 | a different instance under a registered id throws the duplicate-target error. A first-time target becomes registered as `initial` with no dependents. The same instance again changes nothing |
| RunnerSteps.ProposeStep | src/build/runner.ts:236-248 | the proposal is installed if and only if its clock is the current clock plus one; otherwise nothing changes |
| RunnerSteps.SetTargetStateStep | src/build/runner.ts:250-262 | the same check, where a rejected proposal throws the internal error |
| RunnerSteps.CreatePromiseStep | src/build/runner.ts:356 | a new promise takes a handle no job had, and records its job (also line 424) |
| RunnerSteps.CallStep | src/build/runner.ts:264-320 | `call` gives `CallOutcome`, and registers the service unless it clashes |
| RunnerSteps.CallRegistered | src/build/runner.ts:264-320 | `call` on an already registered service changes nothing and gives what its run gives |
| RunnerSteps.StartBuildStep | src/build/runner.ts:335-395 | on a non-`initial` target, `build` leaves the target `building` unless it was `fresh`. A target that was neither resetting nor stale is left as it was |
| RunnerSteps.StartBuildWhenBuiltOrBuilding | src/build/runner.ts:335-338 | on `building`, `build` answers with the build in flight, and on `fresh` with the held result, changing nothing |
| RunnerSteps.StartBuildFromReset | src/build/runner.ts:343-394 | from `resetting` or `stale` at clock c, `build` creates a build job, installs `building` at c + 1 with the caches of c, and emits `targetBuildStart`. The job waits for the running reset, if any, and proposes `fresh` at c + 2 with those caches |
| RunnerSteps.StartBuildComposes | src/build/runner.ts:381-394 | that whole `build` is the build's installation followed by `targetBuildStart` |
| RunnerSteps.ResetPromiseOf | src/build/runner.ts:401-406 | a `resetting` target answers with its promise, a `stale` one with its held reset result |
| RunnerSteps.InstallingResetDecreases | src/build/runner.ts:447-453 | installing a reset on a target that was neither resetting nor stale lowers the number of such targets, so the recursive cascade terminates |
| RunnerSteps.ResetCascade | src/build/runner.ts:397-468 | `reset` on a registered target ends with that target `resetting` or `stale`, and answers with its promise or result. Services, targets, dependents, listeners and settled promises are kept, and only new jobs are added |
| RunnerSteps.ResetStartStep | src/build/runner.ts:421-458 | from a state at clock c: a reset job that waits for the build in flight and proposes `stale` at c + 2; `resetting` at c + 1 with the caches; `targetResetStart` |
| RunnerSteps.ResetEach | src/build/runner.ts:460-465 | the dependents' resets start in order, one promise per dependent |
| RunnerSteps.RecordDependentsStep | src/build/runner.ts:442 | the reset's job keeps its dependents' promises, and nothing else changes (also lines 461-465) |
| RunnerSteps.ResetCascadeClosed | src/build/runner.ts:397-468 | a cascade changes a state only into `resetting` one clock later, with the same caches, and every target it reset has all its dependents resetting or stale |
| RunnerSteps.ResetEachClosed | src/build/runner.ts:460-465 | resetting each dependent is a cascade in that sense |
| RunnerSteps.ResetEachResets | src/build/runner.ts:460-465 | after resetting each dependent, every one of them is resetting or stale, and the promises collected are those states' promises |
| RunnerSteps.ResetCascadeEvents | src/build/runner.ts:455-465 | a cascade emits only `targetResetStart` events, each delivered exactly to the matching listeners |
| RunnerSteps.ResetEachEvents | src/build/runner.ts:460-465 | the same for the dependents' resets |
| RunnerSteps.ResetCascadeStarts | src/build/runner.ts:421-465 | a reset from clock c hands back the new promise and installs `resetting` at c + 1 with the caches. Its job proposes `stale` at c + 2 and waits for the promises of all the target's dependents. The first event it emits is the target's `targetResetStart` |
| RunnerSteps.ResetStep | src/build/runner.ts:397-399 | `reset` first registers the target and throws on a clash |
| RunnerSteps.ResetIsCascade | src/build/runner.ts:397-468 | `reset` on a registered target is the cascade; on a new target it is the cascade after registering the target `initial` |
| RunnerSteps.InitialCascadeExact | src/build/runner.ts:410-458 | on an `initial` target the reset installs `resetting` at clock 1 and a job proposing `stale` at 2 with nothing to wait for. It emits one `targetResetStart` |
| RunnerSteps.InitialResetExact | src/build/runner.ts:397-468 | `reset` on an `initial` target, registration included, is exactly that |
| RunnerSteps.FirstCallRegisters | src/build/runner.ts:196-215 | `reset` or `build` on a first-time target is that call on the target once registered `initial` (also lines 322-323 and lines 397-398) |
| RunnerSteps.BuildStep | src/build/runner.ts:322-395 | `build` registers the target and throws on a clash. On `initial` it starts a reset, drops its promise and runs `build` again. Otherwise it dispatches on the state |
| RunnerSteps.BuildDispatches | src/build/runner.ts:335-395 | `build` on a registered non-`initial` target is the state dispatch |
| RunnerSteps.InitialBuildExact | src/build/runner.ts:326-334 | `build` on an `initial` target, with next handle h, gives `building` at clock 2 with promise h + 1. Job h is the reset (proposing `stale` at 2), and job h + 1 is the build waiting for it (proposing `fresh` at 3) |
| RunnerSteps.InitialBuildComposes | src/build/runner.ts:326-334 | that state is a reset followed by a build from `resetting` |
| RunnerSteps.BuildAfterInitialReset | src/build/runner.ts:333-334 | on `initial`, `build` is `build` again after the reset |
| RunnerSteps.SettleStep | src/build/runner.ts:356-379 | a promise settles once, with its value or rejection; nothing else changes (also lines 424-445) |
| RunnerSteps.BuildEndStep | src/build/runner.ts:363-378 | the build proposes `fresh` at the clock fixed when it started, carrying the serialized input and result. `targetBuildEnd` reports the result, whether the proposal was rejected (`obsolete`) and whether the cache was used |
| RunnerSteps.BuildAnnouncedStep | src/build/runner.ts:370-378 | `targetBuildEnd` is emitted, then the build resolves with its result |
| RunnerSteps.CompleteBuildStep | src/build/runner.ts:519-533 | `targetBuildCall` and the service call happen exactly when the cache is not used, then the build ends |
| RunnerSteps.FinishBuildStep | src/build/runner.ts:356-379 | the continuation of a build once the reset it waits for has settled and the input function has produced its input |
| RunnerSteps.FinishBuildAfterRejectedReset | src/build/runner.ts:356 | a build whose reset was rejected is rejected with the same error, and nothing else changes |
| RunnerSteps.FinishBuildClash | src/build/runner.ts:519-520 | a build service that clashes with a registered instance rejects the build, and nothing else changes |
| RunnerSteps.FinishBuildResolves | src/build/runner.ts:356-379 | otherwise the build resolves with `DoBuild`'s result, and the service is registered when the input returned. The service is called, after `targetBuildCall`, exactly when the cache is not used (also lines 470-541) |
| RunnerSteps.ResetEndStep | src/build/runner.ts:427-439 | the reset proposes `stale` at the clock fixed when it started, with the caches it found, and `targetResetEnd` reports its result |
| RunnerSteps.ResetAnnouncedStep | src/build/runner.ts:435-439 | `targetResetEnd` is emitted, and the job keeps the result until its dependents settle |
| RunnerSteps.CallResetStep | src/build/runner.ts:574-579 | `targetResetCall`, then `call` on the reset service, then the end of the reset |
| RunnerSteps.CalledResetStep | src/build/runner.ts:579 | `call` on the reset service, then the end of the reset with what it returned |
| RunnerSteps.FinishResetStep | src/build/runner.ts:424-445 | the continuation of a reset once the build it waits for has settled and the reset input, if any, has been produced |
| RunnerSteps.FinishResetAfterRejectedBuild | src/build/runner.ts:424 | a reset whose build was rejected is rejected with the same error, and nothing else changes |
| RunnerSteps.FinishResetEnds | src/build/runner.ts:424-445 | otherwise the reset's result is `DoReset`'s. The reset service is called, after `targetResetCall`, exactly when there is one and its input returned (also lines 543-580) |
| RunnerSteps.SettleResetStep | src/build/runner.ts:441-444 | the reset resolves with its own result once all its dependents' resets have resolved, and is rejected with the first rejection among them |
| RunnerSteps.DependentAddedConsistent | src/build/runner.ts:489-492 | adding a dependent to a registered, non-`initial` target keeps the invariant |
| RunnerSteps.TryBuildCallbackStep | src/build/runner.ts:489-492 | once a dependency has been built, the dependent joins its dependents exactly once, as in a `Set` |
| Runner.LocalRunner.constructor | src/build/runner.ts:128-142 | a new runner has no listeners, services, targets or promises, and the invariant holds |
| Runner.LocalRunner.On | src/build/runner.ts:149-154 | performs `SubscribeStep` in place |
| Runner.LocalRunner.Emit | src/build/runner.ts:156-173 | performs `EmitStep` in place: the sequence number advances and the matching listeners are called; one that throws does not stop the rest |
| Runner.LocalRunner.AsServiceInstance | src/build/runner.ts:175-194 | performs `RegisterServiceStep` in place |
| Runner.LocalRunner.AsTargetInstance | src/build/runner.ts:196-225 | performs `RegisterTargetStep` in place |
| Runner.LocalRunner.ProposeTargetState | src/build/runner.ts:236-248 | performs `ProposeStep` in place and answers whether the proposal was installed |
| Runner.LocalRunner.SetTargetState | src/build/runner.ts:250-262 | performs `SetTargetStateStep` in place |
| Runner.LocalRunner.CreatePromise | src/build/runner.ts:356 | performs `CreatePromiseStep` in place (also line 424) |
| Runner.LocalRunner.Call | src/build/runner.ts:264-320 | performs `CallStep` in place |
| Runner.LocalRunner.Build | src/build/runner.ts:322-395 | performs `BuildStep` in place |
| Runner.LocalRunner.StartBuild | src/build/runner.ts:335-395 | performs `StartBuildStep` in place |
| Runner.LocalRunner.BeginBuild | src/build/runner.ts:343-394 | performs `StartBuildStep` in place for a target in `resetting` or `stale` (the state `StartBuildFromReset` describes) |
| Runner.LocalRunner.InstallBuild | src/build/runner.ts:353-387 | performs `BuildInstalledStep` in place |
| Runner.LocalRunner.Reset | src/build/runner.ts:397-468 | performs `ResetStep` in place |
| Runner.LocalRunner.ResetRegistered | src/build/runner.ts:400-467 | performs `ResetCascade` in place |
| Runner.LocalRunner.StartReset | src/build/runner.ts:421-458 | performs `ResetStartStep` in place |
| Runner.LocalRunner.RecordDependents | src/build/runner.ts:461-465 | performs `RecordDependentsStep` in place |
| Runner.LocalRunner.ResetDependents | src/build/runner.ts:461-465 | performs `ResetEach` in place |
| Runner.LocalRunner.Settle | src/build/runner.ts:356-379 | performs `SettleStep` in place (also lines 424-445) |
| Runner.LocalRunner.FinishBuild | src/build/runner.ts:356-379 | performs `FinishBuildStep` in place |
| Runner.LocalRunner.BuildWithInput | src/build/runner.ts:504-534 | performs `FinishBuildStep` in place once the reset has settled without rejection; a clashing build service rejects the build |
| Runner.LocalRunner.BuildFromInput | src/build/runner.ts:519-533 | performs `CompleteBuildStep` in place for `DoBuild`'s outcome, calling the service exactly when `BuildCalls` says so |
| Runner.LocalRunner.CallBuildService | src/build/runner.ts:532 | performs `BuildEndStep` in place with the result of running the registered build service on the input |
| Runner.LocalRunner.EndBuild | src/build/runner.ts:363-378 | performs `BuildEndStep` in place |
| Runner.LocalRunner.AnnounceBuildEnd | src/build/runner.ts:370-378 | performs `BuildAnnouncedStep` in place |
| Runner.LocalRunner.FinishReset | src/build/runner.ts:424-445 | performs `FinishResetStep` in place |
| Runner.LocalRunner.CallReset | src/build/runner.ts:574-579 | performs `CallResetStep` in place |
| Runner.LocalRunner.CalledReset | src/build/runner.ts:579 | performs `CalledResetStep` in place |
| Runner.LocalRunner.EndReset | src/build/runner.ts:427-439 | performs `ResetEndStep` in place |
| Runner.LocalRunner.AnnounceResetEnd | src/build/runner.ts:435-439 | performs `ResetAnnouncedStep` in place |
| Runner.LocalRunner.SettleReset | src/build/runner.ts:441-444 | performs `SettleResetStep` in place |
| Runner.LocalRunner.TryBuildCallback | src/build/runner.ts:489-492 | performs `TryBuildCallbackStep` in place |
| LegacyRunner.Texts | src/build/Runner.ts:111-115 | one log line per message, in order, each the message's text |
| LegacyRunner.Warns | src/build/Runner.ts:117-120 | the warned flag is set exactly when some message went through `warn` |
| LegacyRunner.LocalServiceCall | src/build/Runner.ts:109-136 | a call is never `skipped`. It is `failed` exactly when the service threw; then the logs are the messages followed by the rendered error. It is `warned` exactly when the service returned after a `warn`. A returned result carries the service's value, with the messages as its logs |
| LegacyRunner.RegisterService | src/build/Runner.ts:37-54 | the registry stays keyed by id. The same definition object under a known id gets the existing instance back. Another definition under a known id throws the redefinition error and changes nothing. A new id registers the definition |
| LegacyRunner.RegisterServiceIdempotent | src/build/Runner.ts:41-45 | registering a definition again after it succeeded returns the same instance and leaves the registry as it is |
| LegacyRunner.SetTargetState | src/build/Runner.ts:215-219 | replacing one target's state keeps the arena well formed |
| LegacyRunner.AddJob | src/build/Runner.ts:262-265 | a new promise for an existing target is appended last and keeps the arena well formed; nothing else changes |
| LegacyRunner.JoinAll | src/build/Runner.ts:197-213 | adds the new target to the dependents of each reached target, at most once, and keeps the arena well formed |
| LegacyRunner.JoinAllReaches | src/build/Runner.ts:197-213 | afterwards, a target has the new one among its dependents exactly when it had it before or the walk reached it |
| LegacyRunner.CreateTargetStep | src/build/Runner.ts:67-83 | creating a target keeps the arena well formed and never writes `_targets` |
| LegacyRunner.CreateTargetNeverThrows | src/build/Runner.ts:77-82 | because `_targets` is never written, it stays empty, and the duplicate-id check can never fire. The new target comes last, `initial` and with no dependents |
| LegacyRunner.TargetsInBounded | src/build/Runner.ts:197-213 | the walk over a config reaches only targets constructed before the new one |
| LegacyRunner.CreateTargetJoins | src/build/Runner.ts:188-213 | after a target is created, an older target has the new one among its dependents exactly when its config reaches that target. Nothing else about the older target changes |
| LegacyRunner.NoSelfDependent | src/build/Runner.ts:188-195 | no existing target lists a target that does not exist yet among its dependents |
| LegacyRunner.ProposeState | src/build/Runner.ts:215-219 | a proposed state is installed exactly when its clock is one past the target's clock; otherwise nothing changes |
| LegacyRunner.StartBuildStep | src/build/Runner.ts:259-273 | starting a build keeps the arena well formed |
| LegacyRunner.GetStep | src/build/Runner.ts:233-287 | `get()` keeps the arena well formed |
| LegacyRunner.GetStartsBuild | src/build/Runner.ts:244-273 | on a target that is neither `building` nor `fresh`, `get()` installs `building` at the next clock, keeping the cache, with a new build job as its promise, and hands out that promise. An `initial` target's build waits for a new reset job that proposes no state. A `resetting` target's build waits for the reset in progress. A `stale` target's build waits for nothing. Nothing else changes |
| LegacyRunner.GetShared | src/build/Runner.ts:236-238 | a second `get()` on a target that is not `fresh` hands out the same promise and changes nothing |
| LegacyRunner.TryGetOutcome | src/build/Runner.ts:221-231 | `tryGet()` returns exactly for an `ok` or `warned` result, with its value. A `failed` or `skipped` result throws a `TargetUnavailableError` with that status |
| LegacyRunner.DoBuild | src/build/Runner.ts:289-326 | the cache is used exactly when the service registered, the args were computed, the service is pure, the serialized args equal the cached ones and a result is cached; then the cached result is reused without a call. A registration error gives `failed`. A thrown args computation gives `skipped` for a `TargetUnavailableError` and `failed` otherwise. Otherwise the service is called. Serialized args are kept exactly for a pure service with computed args |
| LegacyRunner.BuildJobStep | src/build/Runner.ts:275-284 | running a build job keeps the arena well formed |
| LegacyRunner.BuildJobFreshIffClock | src/build/Runner.ts:275-284 | after a build, the target is `fresh` with that build's result exactly when its clock is still the building clock; otherwise the targets are untouched. The job settles with the result, and the build is reported once |
| LegacyRunner.BuildThenGetHitsCache | src/build/Runner.ts:239-241 | once a build has made its target `fresh`, `get()` hands out that build's result and changes nothing |
| LegacyRunner.DoReset | src/build/Runner.ts:375-394 | a rule without a reset does nothing and reports nothing. Otherwise a result is always reported. A registration error or a thrown args computation gives `failed` with the rendered error. Otherwise the reset service is called |
| LegacyRunner.ResetNeverSkips | src/build/Runner.ts:386-391 | a reset result is never `skipped`, even for a `TargetUnavailableError` |
| LegacyRunner.ResetJobStep | src/build/Runner.ts:359-366 | running a reset job keeps the arena well formed |
| LegacyRunner.ResetJobStaleIffClock | src/build/Runner.ts:359-366 | after a reset job, its target is in the job's `stale` state exactly when the job has one and the target's clock is one short of it. Otherwise the targets are as they were. The job settles |
| LegacyRunner.StaysInactive | src/build/Runner.ts:336-342 | a recursive reset leaves a `resetting` or `stale` target as it was |
| LegacyRunner.StartResetStep | src/build/Runner.ts:344-368 | on an active target, the reset adds one reset job that waits for the build in progress, if any, and proposes `stale` two clocks on. It installs `resetting` one clock on, with that job as its promise, and lowers the number of active targets |
| LegacyRunner.ResetFrom | src/build/Runner.ts:334-373 | a recursive reset keeps the arena well formed and never raises the number of active targets, so the recursion ends |
| LegacyRunner.ResetEach | src/build/Runner.ts:370-372 | the loop over the dependents keeps the arena well formed and never raises the number of active targets |
| LegacyRunner.ResetFromKeeps | src/build/Runner.ts:334-373 | a recursive reset changes only active targets, each to `resetting`, and adds only reset jobs. Afterwards the target is not active, and neither is any of its direct dependents if it was active |
| LegacyRunner.ResetEachKeeps | src/build/Runner.ts:370-372 | after the loop, no dependent is active, and only active targets have changed |
| LegacyRunner.ResetTwice | src/build/Runner.ts:336-342 | a second reset right after the first starts nothing and changes nothing |
| LegacyRunner.ResetFromActive | src/build/Runner.ts:344-368 | resetting an active target makes it `resetting` one clock on, with its cache kept. The first promise pushed is its new reset job |
| LegacyRunner.LocalRunner.constructor | src/build/Runner.ts:33-35 | the runner starts with no services, targets, jobs or reports |
| LegacyRunner.LocalRunner.Service | src/build/Runner.ts:37-54 | performs `RegisterService` in place and changes nothing but the registry |
| LegacyRunner.LocalRunner.CreateTarget | src/build/Runner.ts:67-83 | performs `CreateTargetStep` in place. It always returns the new target (also lines 188-195) |
| LegacyRunner.LocalRunner.RegisterDependencies | src/build/Runner.ts:197-213 | performs `JoinAll` over the targets the config reaches and changes nothing else |
| LegacyRunner.LocalRunner.RegisterItems | src/build/Runner.ts:204-207 | the same for an array's elements |
| LegacyRunner.LocalRunner.RegisterEntries | src/build/Runner.ts:208-211 | the same for an object's own keys |
| LegacyRunner.LocalRunner.Propose | src/build/Runner.ts:215-219 | performs `ProposeState` in place |
| LegacyRunner.LocalRunner.Get | src/build/Runner.ts:233-287 | performs `GetStep` in place |
| LegacyRunner.LocalRunner.StartBuild | src/build/Runner.ts:259-273 | performs `StartBuildStep` in place |
| LegacyRunner.LocalRunner.RunBuild | src/build/Runner.ts:275-326 | performs `BuildJobStep` in place |
| LegacyRunner.LocalRunner.RunReset | src/build/Runner.ts:359-394 | performs `ResetJobStep` in place |
| LegacyRunner.LocalRunner.Reset | src/build/Runner.ts:328-332 | performs `ResetFrom` in place. It returns the promises that `Promise.all` then waits for |
| LegacyRunner.LocalRunner.BeginReset | src/build/Runner.ts:344-368 | performs `StartResetStep` in place |
| LegacyRunner.LocalRunner.ResetDependents | src/build/Runner.ts:370-372 | performs `ResetEach` in place |
| LegacyRunner.LocalRunner.ResetNext | src/build/Runner.ts:371 | one turn of the loop over the dependents keeps the loop invariant and never raises the number of active targets |
| LegacyTargets.ReplaceKeepsOk | src/target/Target.ts:28-35 | swapping one object for one of the same shape, whose build progress is well formed, keeps the object graph well formed |
| LegacyTargets.Replace | src/target/Target.ts:28-35 | the same swap, with only that object changed |
| LegacyTargets.AddDependent | src/target/Target.ts:47-49 | adds the new object to the dependents of each input and changes no other field |
| LegacyTargets.AddDependentJoins | src/target/Target.ts:47-49 | afterwards, every input has the new object among its dependents |
| LegacyTargets.AddDependentOnlyId | src/target/Target.ts:47-49 | the dependents set is a `Set`: an object's dependents afterwards are its old ones or the new object |
| LegacyTargets.InputTargets | src/target/Target.ts:47 | the targets of `Object.values(inputTargets)`, in order, one per input |
| LegacyTargets.ConstructStep | src/target/Target.ts:37-55 | constructing an object keeps the object graph well formed |
| LegacyTargets.ConstructJoins | src/target/Target.ts:37-50 | the new object is next in the arena, `stale` at version 0 with status `ok`, no value and no build. It joins the dependents of each input whether or not its key is taken, because the join comes before the key check. Other objects change only in their dependents |
| LegacyTargets.ConstructRegisters | src/target/Target.ts:51-54 | a taken key throws the duplicate-key error and leaves the registry as it was; a new key is registered to the new object |
| LegacyTargets.SetState | src/target/Target.ts:57-67 | only the object's freshness changes. It becomes `maybe-stale` exactly when that was asked for and the build is pure, and `stale` exactly when that was asked for or `maybe-stale` was asked of an impure build. The `onStale` hook runs exactly when the result is `stale` |
| LegacyTargets.MarkOneKeeps | src/target/Target.ts:76 | marking one fresh object is one step of a cascade and lowers the number of fresh objects |
| LegacyTargets.StaysMarked | src/target/Target.ts:72-74 | a cascade leaves an object that was not fresh as it was |
| LegacyTargets.MarkStale | src/target/Target.ts:71-80 | the object graph stays well formed, and only fresh objects are marked. An object that is not fresh is left alone. Afterwards the object is not fresh, and neither are any of its direct dependents if it was fresh |
| LegacyTargets.MarkEach | src/target/Target.ts:77-79 | after the loop, none of the dependents is fresh, and only fresh objects were marked |
| LegacyTargets.MarkStaleIdempotent | src/target/Target.ts:71-80 | a second `markStale` changes nothing |
| LegacyTargets.MarkStaleCascades | src/target/Target.ts:71-80 | a fresh object becomes `maybe-stale` if its build is pure and `stale` otherwise. No object becomes fresh, and no value, version or status changes |
| LegacyTargets.RecordVersions | src/target/Target.ts:189-193 | with distinct input names, each name maps to its input's current version |
| LegacyTargets.BeforeBuild | src/target/Target.ts:167 | `beforeBuild` changes only that object's recorded input versions (also lines 189-193) |
| LegacyTargets.BeforeBuildThenStillFresh | src/target/Target.ts:180-193 | right after `beforeBuild`, a pure target with distinctly named inputs is still fresh |
| LegacyTargets.VersionChangeNotStillFresh | src/target/Target.ts:180-187 | a pure target is not still fresh once one input's version differs from the one recorded for its name |
| LegacyTargets.AfterInputs | src/target/Target.ts:121-144 | once every input has arrived, the wrapper either finishes or waits for `build`; only that object changes |
| LegacyTargets.KeepFresh | src/target/Target.ts:121-124 | a still-fresh `maybe-stale` target becomes `fresh` and the wrapper ends with its current value; nothing else changes |
| LegacyTargets.CallBuild | src/target/Target.ts:125-135 | otherwise a `maybe-stale` target becomes `stale`, the status is reset to `ok`, and `build` is awaited |
| LegacyTargets.GetStep | src/target/Target.ts:82-91 | a fresh target answers with its value. Any other target hands out its one active build, starting it if there was none. An object that is fresh or already building changes nothing. Only objects constructed after it are left untouched |
| LegacyTargets.AwaitInput | src/target/Target.ts:112-113 | the wrapper now waits for its k-th input |
| LegacyTargets.GetShared | src/target/Target.ts:87-90 | a second `get()` changes nothing more and hands out the same build |
| LegacyTargets.InputArrivedStep | src/target/Target.ts:112-119 | settling one input's `get()` keeps the object graph well formed and the wrapper running or finished |
| LegacyTargets.NullInputSkips | src/target/Target.ts:114-117 | a null input sets the status to `skip` and ends the wrapper with null, without building; no other object changes |
| LegacyTargets.StillFreshSkipsBuild | src/target/Target.ts:121-124 | a `maybe-stale` target still fresh when its last input arrives becomes `fresh`, keeps its value and calls no `build`. No `onStale` hook runs |
| LegacyTargets.BuildReturnedStep | src/target/Target.ts:132-149 | a throw sets the status to `fail` and makes the result null. Otherwise a `warn` sets the status to `warn`, and the result is what `build` returned. Nothing else changes |
| LegacyTargets.RunBuildEndStep | src/target/Target.ts:93-105 | the end of `runBuild` keeps the object graph well formed |
| LegacyTargets.RunBuildEnds | src/target/Target.ts:93-105 | the value returned is the wrapper's result. The version goes up by one exactly when that result is not identical to the old value. The target ends `fresh` with no active build. No other object changes |
| LegacyTargets.TargetArena.constructor | src/target/Target.ts:24 | the registry starts empty |
| LegacyTargets.TargetArena.Construct | src/target/Target.ts:37-55 | performs `ConstructStep` in place |
| LegacyTargets.TargetArena.JoinDependents | src/target/Target.ts:47-49 | performs `AddDependent` in place; the registry and the hook log are unchanged |
| LegacyTargets.TargetArena.SetFreshness | src/target/Target.ts:57-67 | performs `SetState` in place |
| LegacyTargets.TargetArena.MarkStaleAt | src/target/Target.ts:71-80 | performs `MarkStale` in place |
| LegacyTargets.TargetArena.MarkDependents | src/target/Target.ts:77-79 | performs `MarkEach` in place |
| LegacyTargets.TargetArena.Get | src/target/Target.ts:82-91 | performs `GetStep` in place |
| LegacyTargets.TargetArena.AwaitInputAt | src/target/Target.ts:113 | performs `AwaitInput` in place |
| LegacyTargets.TargetArena.ContinueAfterInputs | src/target/Target.ts:121-135 | performs `AfterInputs` in place |
| LegacyTargets.TargetArena.RecordInputVersions | src/target/Target.ts:189-193 | performs `BeforeBuild` in place |
| LegacyTargets.TargetArena.InputArrived | src/target/Target.ts:113-119 | performs `InputArrivedStep` in place |
| LegacyTargets.TargetArena.BuildReturned | src/target/Target.ts:135-149 | performs `BuildReturnedStep` in place |
| LegacyTargets.TargetArena.RunBuildEnd | src/target/Target.ts:94-105 | performs `RunBuildEndStep` in place |
| FileService.Allowed | src/services/file.ts:16-44 | the check passes exactly when the path is absolute, normalized and starts with one of the operation's prefixes. Otherwise it throws, checking in that order: not absolute, then not normalized, then no allowed prefix, each with its own message |
| FileService.AssertAllowed | src/services/file.ts:31-43 | the loop over the prefixes, returning at the first match, computes `Allowed` |
| FileService.AllowedMonotone | src/services/file.ts:31-36 | allowing more prefixes never refuses a path that was allowed |
| FileService.PrefixIsRaw | src/services/file.ts:33 | prefixes are compared as strings, with no path boundary: the prefix `/srv` allows `/srvx/f` |
| FileService.DefinitionOf | src/services/file.ts:50-121 | the four file services have the ids `FileCopy`, `FileDelete`, `FileReadText` and `FileWriteText`, and none is pure |
| FileService.DefinitionIdsDistinct | src/services/file.ts:54-113 | the four ids differ, so the four services can be registered side by side |
| FileService.CopyFileCall | src/services/file.ts:56-62 | the source is checked for reading and then the destination for writing. A refused path throws that check's error. Only then does the copy happen, returning null or throwing the I/O error |
| FileService.DeleteFileCall | src/services/file.ts:74-91 | the path is checked for writing. Then the call throws exactly when the unlink failed with a code other than `ENOENT`, rethrowing that error; otherwise it returns null |
| FileService.ReadTextFileCall | src/services/file.ts:103-106 | the path is checked for reading, then the file's text is returned, or the read error is thrown |
| FileService.WriteTextFileCall | src/services/file.ts:115-120 | the path is checked for writing, then null is returned, or the I/O error is thrown |
| FileService.RefusedPathNeverTouchesDisk | src/services/file.ts:75-77 | for a path refused for writing, the delete call's outcome does not depend on what the unlink would have done |
| FilesystemMacro.MapGetPush | src/macros/filesystem.ts:47-54 | the key's list, started empty if the key is absent, gains the value at its end; every other key keeps its list |
| FilesystemMacro.AbsoluteAll | src/macros/filesystem.ts:72-73 | one absolute path per project path, each joined to the root |
| FilesystemMacro.Filesystem.AllowedIff | src/macros/filesystem.ts:72-81 | a file target accepts a path for an operation exactly when it is absolute, normalized and starts with one of the macro's prefixes for that operation joined onto the project root |
| FilesystemMacro.Filesystem.ReadableIsWatched | src/macros/filesystem.ts:72-76 | every path a file target may read starts with a watched prefix, and every extra watch prefix, made absolute, is watched |
| FilesystemMacro.Filesystem.constructor | src/macros/filesystem.ts:39-45 | the macro starts with no reading or writing targets |
| FilesystemMacro.Filesystem.CopyFile | src/macros/filesystem.ts:83-94 | appends a copy target with id `CopyFile:` and the destination, and the absolute paths. It records the target as a reader of the source and a writer of the destination |
| FilesystemMacro.Filesystem.ReadTextFile | src/macros/filesystem.ts:96-105 | appends a read target with id `ReadTextFile:` and the path, recorded only as a reader |
| FilesystemMacro.Filesystem.WriteTextFile | src/macros/filesystem.ts:107-120 | appends a write target with id `WriteTextFile:` and the path, recorded only as a writer |
| FilesystemMacro.Filesystem.ProcessBatch | src/macros/filesystem.ts:152-162 | one batch of the watch loop resets, in order, the readers of each changed path, stopping at the first other event. Every target reset exists |
| FilesystemMacro.BatchContinuesIff | src/macros/filesystem.ts:152-162 | the watch goes on exactly when every event of the batch is a change of a path that some target reads |
| FilesystemMacro.BatchStopsAtFirstOther | src/macros/filesystem.ts:159-161 | an event that ends the watch hides every later event of its batch: the resets are those of the events before it |
| ProjectPaths.WritableUnder | src/util/filesystem.ts:10 | the writable directories are the root followed by `/public/` and by `/public-preview/` (also line 52) |
| ProjectPaths.ResolveProjectPath | src/util/filesystem.ts:40-64 | a project path without a leading "/" throws. Otherwise the rest is resolved against the root. A read always succeeds. A write succeeds exactly when the result starts with a writable directory, and otherwise throws the writable-prefix error |
| ProjectPaths.WriteResolutionImpliesRead | src/util/filesystem.ts:50-63 | a path that resolves for writing resolves for reading too, to the same place |
| ProjectPaths.WriteStaysInPublic | src/util/filesystem.ts:50-61 | a path resolved for writing lies under the root's `public/` or `public-preview/` |
| ProjectPaths.AbsolutePathToProjectPath | src/util/filesystem.ts:12-14 | "/" followed by the path relative to the root |
| ProjectPaths.ProjectPathRoundTrip | src/util/filesystem.ts:12-14 | converting an absolute path to a project path and resolving it for reading gives the absolute path back, wherever Node's `relative` and `resolve` are inverse (also lines 40-64) |
| ProjectPaths.CopyFilePaths | src/util/filesystem.ts:66-71 | the source resolves for reading and then the destination for writing; the first error is thrown; otherwise both paths are returned |
| ProjectPaths.WriteFilePath | src/util/filesystem.ts:93-97 | resolves for writing, so a written file lies under a writable directory |
| ProjectPaths.DeleteFileSync | src/util/filesystem.ts:76-81 | as written: a path refused for writing throws that error. Otherwise any entry `stat` finds, of any kind, is passed to `unlinkSync` (the test reads `isFile` without calling it): its error is thrown, or the entry is unlinked; a missing entry is left alone |
| ProjectPaths.DeleteFileSyncCalling | src/util/filesystem.ts:76-81 | corrected with `isFile()`: only a file is ever unlinked; a missing entry, a directory or anything else is left alone and the call returns |
| ProjectPaths.DirectoryDeleteThrows | src/util/filesystem.ts:78-79 | as written, deleting a directory under a writable path throws the error `unlinkSync` raises, where the corrected call returns without unlinking |
| ProjectPaths.DeleteAgreesOnFiles | src/util/filesystem.ts:76-81 | on a missing entry or a file, the code as written and the corrected call behave the same |
| LegacyPaths.ResolveProjectPath | src/filesystem.ts:32-57 | a project path without a leading "/" throws. Otherwise the rest is resolved against the root, and the call succeeds exactly when the result starts with the root followed by the extra prefix, as a string. Otherwise it throws the outside-prefix error |
| LegacyPaths.ReadPath | src/filesystem.ts:59-62 | a path read or statted lies under the root (also lines 70-73) |
| LegacyPaths.WritePath | src/filesystem.ts:64-68 | a written path starts with the root followed by `/public` |
| LegacyPaths.WritableIsReadable | src/filesystem.ts:43-56 | a path that may be written may be read, and resolves to the same place |
| NodePath.QuotedList | src/services/file.ts:40-42 | the list of prefixes in the refusal message is bracketed |
| NodePath.QuoteEach | src/services/file.ts:40-42 | each prefix in that list is quoted |
| Common.StripPrefix | src/build-website.ts:259 | removing a leading literal: when present, putting it back gives the input; otherwise the input is unchanged |
| Common.StripSuffix | src/build-website.ts:260 | removing a trailing literal: when present, putting it back gives the input; otherwise the input is unchanged |
| Common.NatToString | src/array.ts:5 | a count is spelled with at least one decimal digit and nothing else |
| Common.LexLessTransitive | src/target/BlogIndexTarget.ts:41 | the string order the posts are sorted by is transitive |
| Common.LexLessIrreflexive | src/target/BlogIndexTarget.ts:41 | and irreflexive |
| Common.SetAddAll | src/services/dom.ts:94 | `classList.add(...xs)`: the list holds the old tokens first, then holds every added token, holds nothing else, has no repeats when the old list had none, and is no longer than both together |
| Common.SetAddAllDistinct | src/services/dom.ts:94 | tokens that are distinct from each other and from the list are appended as they are, in order |
| Common.SetAddAllCollapses | src/target/PagePreviewTarget.ts:94 | a token added twice is held once |
| Links.LongestCut | src/services/dom.ts:28 | the largest place up to the bound where the first group can end, or none when there is no such place |
| Links.MatchMarkdownLink | src/services/dom.ts:28-29 | a match splits the link into the file, which ends where the first group can end, and the hash, which is empty or starts with "#" (also lines 39-40) |
| Links.MatchMarkdownLinkIff | src/services/dom.ts:28-30 | the expression matches exactly when the link has no line terminator and the first group can end somewhere. The file then ends at the last such place |
| Links.GreedyPathSwallowsHash | src/services/dom.ts:28 | the first group is greedy: in "/a.md#b.md" the whole link is the file and the hash is empty |
| Links.PathThenHash | src/services/dom.ts:28 | "/pages/a.md#x" splits into "/pages/a.md" and "#x" |
| Links.MatchAtFileEnd | src/services/dom.ts:28-40 | a link made of a markdown file under the prefix and a hash free of "." splits back into exactly those two |
| Links.PagePathOf | src/services/dom.ts:42-46 | the page path of a file is never empty |
| Links.PagePathOfPage | src/services/dom.ts:42-46 | "/pages" + q + ".md" names page q, for a q that is neither empty nor an index |
| Links.PagePathOfIndex | src/services/dom.ts:42-46 | an index file names its directory: "/pages" + q + "/index.md" names q, or "/" at the top |
| Links.IsExternal | src/services/dom.ts:19-20 | an external link starts with a scheme: lower-case letters, then ":" |
| Links.SlashLinkIsLocal | src/services/dom.ts:19-26 | a link starting with "/" is neither external nor a bare hash |
| Links.ClassifyLink | src/services/dom.ts:17-48 | a link is external exactly when it starts with `http:`, `https:` or `mailto:`. It is a fragment exactly when it is not external and starts with "#". It is unmatched exactly when it is neither and the expression fails. A rewritten link is the file's page path followed by the hash |
| Links.ClassifyPageLink | src/services/dom.ts:28-48 | a link to the markdown file of page q, with no hash or a hash free of ".", is rewritten to q with that hash. This holds under either prefix the passes use |
| Links.FirstMissingHref | src/services/dom.ts:14-17 | the first anchor without an href: every earlier anchor has one |
| Links.RunLinks | src/services/dom.ts:14-49 | one anchor out per anchor in |
| Links.StepAnchor | src/services/dom.ts:14-49 | an anchor with an href keeps an href after one turn of the loop, its classes marked; a step that keeps the href keeps the anchor's href |
| Links.RunLinksClasses | src/services/dom.ts:14-49 | the classes of each anchor after the loop: marked up to and including the first anchor without an href, untouched after it |
| Links.RunLinksThrowsIff | src/services/dom.ts:14-24 | when some anchor has no href, the loop throws. The warnings are those of the anchors before the first such anchor, and every later anchor is left as it was |
| Links.RunLinksAll | src/services/dom.ts:14-49 | when every anchor has an href, each anchor is as its own step leaves it, every warning is issued, and nothing throws |
| Links.LinkWarningsEmptyIff | src/services/dom.ts:30-36 | the loop warns about nothing exactly when the step warns on no anchor's href |
| Links.RewriteAnchors | src/services/dom.ts:14-49 | run in place on the anchors, the loop leaves them, the warnings and the throw as `RunLinks` says |
| DomService.LinkStep | src/services/dom.ts:19-48 | a rewritten link gets its page path and hash. Any other link keeps its href. A warning is issued exactly when the link is unmatched, and it quotes the href |
| DomService.AddLinkClass | src/services/dom.ts:15 | the class "link" is present afterwards and no class is lost |
| DomService.RewriteLinks | src/services/dom.ts:14-49 | the service's link loop, run in place, leaves the anchors and warnings as `RunLinks` says with `AddLinkClass` and `LinkStep`. An anchor without an href throws a TypeError |
| DomService.EveryLinkGetsItsClass | src/services/dom.ts:14-15 | when every anchor has an href, every anchor ends with the class "link" |
| DomService.IdentRun | src/services/dom.ts:70 | the longest leading run of letters, digits, "_" and "-" |
| DomService.NextToken | src/services/dom.ts:69-80 | reading a token always shortens what is left |
| DomService.NextTokenIff | src/services/dom.ts:69-84 | a token can be read exactly when the selector has no line terminator and starts with a letter, or with "#" or "." followed by a letter. What is left is what follows the token's longest name |
| DomService.Lex | src/services/dom.ts:66-85 | the loop reads at most one token per character, and when it consumes the whole selector the tokens it read spell the selector back |
| DomService.IdsOf | src/services/dom.ts:73-75 | at most one id per token |
| DomService.ClassesOf | src/services/dom.ts:76-80 | at most one class per token |
| DomService.TagOf | src/services/dom.ts:70-72 | the tag name kept is that of one of the tag tokens read |
| DomService.ParseOf | src/services/dom.ts:62-85 | the loop warns, once and with the selector, exactly when it stops before consuming the selector; a tag name is one the selector holds as a tag token |
| DomService.ParseSelector | src/services/dom.ts:62-85 | the selector loop computes the tag name (the last one wins), the ids, the classes and the warnings that `ParseOf` defines |
| DomService.ParseStep | src/services/dom.ts:68-80 | one turn of the loop adds the token read to what was read |
| DomService.SummaryStep | src/services/dom.ts:70-80 | a tag token replaces the tag name, an id token adds an id, and a class token adds a class |
| DomService.ParseStops | src/services/dom.ts:81-84 | the loop stops where no token can be read; the tokens so far are all that it reads |
| DomService.Blockquote | src/services/dom.ts:88-112 | the blockquote is left alone exactly when no tag name was read, with the no-tag warning. Otherwise it becomes an element with that tag, holding each class read exactly once and nothing else. It gets an id exactly when one id was read; several ids give the multiple-ids warning |
| DomService.IdentRunOfName | src/services/dom.ts:70 | the run of a name followed by what cannot continue it is that name |
| DomService.NextTokenOfSpelled | src/services/dom.ts:69-80 | a token written out, followed by what cannot continue its name, is read back |
| DomService.LexSpelled | src/services/dom.ts:68-85 | well-formed tokens, written out and read back, come back whole |
| DomService.BlockquoteDistinctClasses | src/services/dom.ts:94 | when the classes read are distinct, the element has them as written, in order |
| DomService.AsideWithClassAndId | src/services/dom.ts:62-112 | "aside.note#top" gives an aside with class note and id top, and no warning |
| BuildWebsite.ConvertInputFilePath | src/build-website.ts:255-268 | a page's path is never empty, and its output file lies under `/public` and ends in `.html` |
| BuildWebsite.ConvertAgreesWithLinkRewrite | src/build-website.ts:259-267 | the path a file is served at is the page path that the page-content service rewrites links to it with (also src/services/dom.ts:42-46) |
| BuildWebsite.ConvertIndexPage | src/build-website.ts:259-267 | "/pages" + q + "/index.md" is served at q, or "/" at the top, and written to "/public" + q + "/index.html" |
| BuildWebsite.ConvertPage | src/build-website.ts:259-267 | "/pages" + q + ".md", for a q that is neither empty nor an index, is served at q and written to "/public" + q + ".html" |
| BuildWebsite.PagesWithInput | src/build-website.ts:171-173 | exactly the pages whose input file is the given one |
| BuildWebsite.PagesWithUniqueInput | src/build-website.ts:171-174 | when no other page has a page's input file, that page is the one match |
| BuildWebsite.ConvertLink | src/build-website.ts:145-181 | a link is kept exactly when it is external. It is an error exactly when it is not external and does not match `^([/].*[.]md)(#.*)?$`. Otherwise it is rewritten exactly when exactly one page has the matched file, to that page's path followed by the hash; with no such unique page, the error names the file |
| BuildWebsite.NewHref | src/build-website.ts:145-181 | the href after the pass: the rewritten link when the link is rewritten, the old href otherwise, in particular for an external link |
| BuildWebsite.LinkErrorOf | src/build-website.ts:145-176 | a link gives an error exactly when it does not match or has no unique destination; the error carries the href and the page's file, a link with an error is left as it was, and an external link never errs |
| BuildWebsite.LinkToUniquePage | src/build-website.ts:158-181 | a link to a page's own file, with no hash or a hash free of ".", becomes the page's path with the same hash, when no other page has that file |
| BuildWebsite.LinkErrors | src/build-website.ts:144-182 | at most one error per link |
| BuildWebsite.NoErrorsWhenAllResolve | src/build-website.ts:144-182 | a page whose links are all external or rewritten logs no error |
| BuildWebsite.RewriteHrefs | src/build-website.ts:144-182 | the loop rewrites every href in place and collects the errors on the old hrefs, in order |
| BuildWebsite.ConvertMarkdownLinks | src/build-website.ts:142-185 | on one page, every link is replaced by its converted href in place, and the errors are logged in document order |
| BuildWebsite.SluggedTexts | src/build-website.ts:124-130 | the slugger sees at most one text per heading |
| BuildWebsite.SluggedTextsHoldEveryText | src/build-website.ts:125-130 | every heading with text, h1 or not, is seen by the slugger |
| BuildWebsite.WithHeadingId | src/build-website.ts:125-137 | a heading keeps its level and text. An h1 ends with no id. Any other heading with text gets the slug of its text given every text seen before it, h1s included. A heading without text keeps its id |
| BuildWebsite.AddHeadingIds | src/build-website.ts:120-140 | on one page, every heading ends as `WithHeadingId` says |
| PagePreview.MarkContentLinks | src/target/PagePreviewTarget.ts:33-35 | every anchor of the content gets the class "link", once; its href and other classes stay |
| PagePreview.H1Texts | src/target/PagePreviewTarget.ts:42 | at most one text per heading |
| PagePreview.Title | src/target/PagePreviewTarget.ts:41-50 | a title is set exactly when there is exactly one h1; it is that h1's text and nothing is warned. Otherwise the no-title warning is issued |
| PagePreview.H1TextsOfOnly | src/target/PagePreviewTarget.ts:42 | the h1 texts are the texts of the level-1 headings: none when there is none, one for a single h1 |
| PagePreview.TitleOfSingleH1 | src/target/PagePreviewTarget.ts:45-48 | a page whose only h1 is heading k is titled with its text, without a warning |
| PagePreview.NoH1NoTitle | src/target/PagePreviewTarget.ts:43-44 | a page without an h1 has no title, and warns |
| PagePreview.Assigned | src/target/PagePreviewTarget.ts:52-78 | a heading keeps its level and text through the id loop |
| PagePreview.DuplicateWarnings | src/target/PagePreviewTarget.ts:58-61 | at most one warning per heading |
| PagePreview.AssignHeadingIds | src/target/PagePreviewTarget.ts:52-78 | the id loop leaves every heading as `Assigned` says and issues `DuplicateWarnings`, in order |
| PagePreview.AssignedIdsDistinct | src/target/PagePreviewTarget.ts:53-70 | the ids the loop gives out are pairwise distinct |
| PagePreview.H1SlugIsTaken | src/target/PagePreviewTarget.ts:63-68 | an h1 gets no id yet takes its slug: a later heading with the same slug is left alone and warns |
| PagePreview.NoDuplicateWarningsIff | src/target/PagePreviewTarget.ts:57-63 | the loop warns about nothing exactly when the headings' slugs are pairwise distinct |
| PagePreview.SplitDots | src/target/PagePreviewTarget.ts:86 | at least one piece, none holding a "." |
| PagePreview.JoinSplitDots | src/target/PagePreviewTarget.ts:86 | the pieces joined again with "." give back the marker |
| PagePreview.SplitDotsJoin | src/target/PagePreviewTarget.ts:86 | pieces free of "." joined with "." split back into the same pieces |
| PagePreview.AsideOf | src/target/PagePreviewTarget.ts:86-94 | the tag name is the marker's first piece; the element holds each later piece once and nothing else |
| PagePreview.AsideSpelledBack | src/target/PagePreviewTarget.ts:86-94 | a marker whose classes are distinct is the element's tag name and classes joined with "." |
| PagePreview.AsideRoundTrip | src/target/PagePreviewTarget.ts:86-94 | a tag name and classes free of "." come back from their marker, each class once; distinct classes come back exactly |
| PagePreview.PreviewLinkStep | src/target/PagePreviewTarget.ts:102-129 | a rewritten link gets its page path and hash. Any other link keeps its href. A warning is issued exactly when the link is unmatched under the prefix "/pages" |
| PagePreview.RewritePreviewLinks | src/target/PagePreviewTarget.ts:100-131 | the link loop over "main a", run in place, leaves the anchors and warnings as `RunLinks` says with `PreviewLinkStep`. An anchor without an href throws a TypeError. No anchor's classes change |
| PagePreview.PreviewRewritesPageLink | src/target/PagePreviewTarget.ts:113-129 | a link to the markdown file of page q is rewritten to q with its hash kept, without a warning |
| PagePreview.FirstSpace | src/target/PagePreviewTarget.ts:217 | the first space at or after a place, with no space before it |
| PagePreview.InlineLanguage | src/target/PagePreviewTarget.ts:216-225 | a language read from inline code is not empty and has no space, the content has no line terminator, and the text is "!", the language, a space and the content |
| PagePreview.InlineLanguageIff | src/target/PagePreviewTarget.ts:216-225 | inline code reads a language and content exactly when its text is "!", a language without spaces, one space, and content without a line terminator |
| PagePreview.Languages | src/target/PagePreviewTarget.ts:227-229 | at most one language per class |
| PagePreview.BlockLanguage | src/target/PagePreviewTarget.ts:226-237 | block code reads a language exactly when exactly one "language-" class is present; that class names the language, and the content is the whole text |
| PagePreview.LanguageFromClass | src/target/PagePreviewTarget.ts:227-229 | every language read is a class with "language-" in front of it |
| PagePreview.CodeLanguage | src/target/PagePreviewTarget.ts:213-237 | inline code follows the inline rule and block code the class rule |
| PagePreview.HighlightCallsOf | src/target/PagePreviewTarget.ts:211-248 | at most one highlight call per `code` element |
| PagePreview.HighlightCalls | src/target/PagePreviewTarget.ts:211-248 | the code loop makes the calls `HighlightCallsOf` lists, in document order |
| PagePreview.NoLanguageNoCalls | src/target/PagePreviewTarget.ts:220-233 | a page whose code elements all lack a language makes no highlight call |
| SiteAnalysis.PageIds | src/target/SiteAnalysisTarget.ts:51 | a page path is unknown exactly when no page has it. A known path gives the element ids of a page with that path (also line 58) |
| SiteAnalysis.SiteLinkMatch | src/target/SiteAnalysisTarget.ts:41-42 | a match splits the href into its two groups, which together make up the href |
| SiteAnalysis.SiteLinkMatchIff | src/target/SiteAnalysisTarget.ts:41-49 | the expression matches exactly when the href splits into an optional part starting with "/" and an optional part starting with "#", with no line terminator. The first group is then the longest such part |
| SiteAnalysis.CheckLink | src/target/SiteAnalysisTarget.ts:29-61 | external links pass. A link warns as empty exactly when it is not external and empty, as not matching exactly when it is neither and `/^([/].*)?(#.*)?$/` rejects it, and as targeting a missing page exactly when it matches and no page has its path part (or the current path) |
| SiteAnalysis.SlashLinkTargetsWholeHref | src/target/SiteAnalysisTarget.ts:41-54 | the first group is greedy, so a link starting with "/" names the page of the whole href, hash included, and its hash is never looked up. It passes exactly when some page has that whole path |
| SiteAnalysis.OnlyFragmentsCheckElements | src/target/SiteAnalysisTarget.ts:56-61 | only a link starting with "#" on a known page can be reported for a missing element, and then its id is empty or not on the page |
| SiteAnalysis.FragmentLinkCheck | src/target/SiteAnalysisTarget.ts:48-61 | "#id" on a known page passes exactly when the id is non-empty and some element of the page has it |
| SiteAnalysis.HeadingLinkChecked | src/services/dom.ts:51-54 | the link a heading is wrapped in, "#" and the slug of its text, passes the site check exactly when the slug is non-empty and an element of the page has it as id; otherwise it is a missing element |
| SiteAnalysis.WarningsOf | src/target/SiteAnalysisTarget.ts:28-62 | at most one warning per anchor |
| SiteAnalysis.CheckAnchors | src/target/SiteAnalysisTarget.ts:27-62 | the inner loop over a page's anchors gives the warnings and the throw that `PageOutcome` defines |
| SiteAnalysis.IndentAll | src/target/SiteAnalysisTarget.ts:66-68 | one indented line per warning |
| SiteAnalysis.IndentAllLines | src/target/SiteAnalysisTarget.ts:66-68 | line k is warning k behind six spaces |
| SiteAnalysis.Flush | src/target/SiteAnalysisTarget.ts:63-70 | the `finally` block logs nothing exactly when the page has no warnings, and otherwise the page header first and one line per warning |
| SiteAnalysis.FlushLines | src/target/SiteAnalysisTarget.ts:63-70 | a page without warnings logs nothing. Otherwise it logs its header and then each warning, indented, in order |
| SiteAnalysis.RunPages | src/target/SiteAnalysisTarget.ts:21-71 | the run over the pages throws exactly when some page has an anchor without an href |
| SiteAnalysis.RunPagesStops | src/target/SiteAnalysisTarget.ts:21-71 | once a page has thrown, the pages after it log nothing and change nothing |
| SiteAnalysis.LaterPagesIgnored | src/target/SiteAnalysisTarget.ts:21-71 | appending pages after one that throws changes nothing |
| SiteAnalysis.CheckPage | src/target/SiteAnalysisTarget.ts:22-70 | one page logs the flush of its warnings, even when its loop throws, and reports whether it threw |
| SiteAnalysis.CheckPages | src/target/SiteAnalysisTarget.ts:21-71 | the outer loop over the pages gives the lines and the throw that `RunPages` defines |
| SiteAnalysis.AnalyseSite | src/target/SiteAnalysisTarget.ts:16-72 | the build logs the lines `SiteOutcome` gives, and throws a TypeError exactly when some page checked has an anchor without an href |
| SiteAnalysis.QuietSite | src/target/SiteAnalysisTarget.ts:21-71 | a site whose links all pass logs nothing and returns |
| SiteAnalysis.QuietPage | src/target/SiteAnalysisTarget.ts:27-62 | a page whose links all pass gives no warning and does not throw |
| SiteAnalysis.QuietWarnings | src/target/SiteAnalysisTarget.ts:28-62 | links that all pass give no warning |
| SiteAnalysis.QuietPages | src/target/SiteAnalysisTarget.ts:21-71 | pages that each log nothing and do not throw log nothing together |
| BlogIndex.Selected | src/target/BlogIndexTarget.ts:32-40 | at most one post per entry |
| BlogIndex.SelectedIff | src/target/BlogIndexTarget.ts:32-40 | a post is selected exactly when it comes from an entry whose path starts with "/blog" and that has a publication date |
| BlogIndex.Insert | src/target/BlogIndexTarget.ts:41 | inserting adds exactly that post |
| BlogIndex.InsertAscending | src/target/BlogIndexTarget.ts:41 | inserting into an ascending list keeps it ascending |
| BlogIndex.SortPosts | src/target/BlogIndexTarget.ts:41 | the sort keeps the same posts, each as often |
| BlogIndex.SortPostsAscending | src/target/BlogIndexTarget.ts:41 | the sorted posts ascend by publication date |
| BlogIndex.Reverse | src/target/BlogIndexTarget.ts:42 | position k of the result holds the post counted k from the end |
| BlogIndex.ReverseSameMultiset | src/target/BlogIndexTarget.ts:42 | reversing keeps the same posts, each as often |
| BlogIndex.ReverseDescending | src/target/BlogIndexTarget.ts:41-42 | an ascending list, reversed, descends |
| BlogIndex.PostsOrderedPermutation | src/target/BlogIndexTarget.ts:32-42 | the listed posts are the selected ones, each as often, with the most recently published first |
| BlogIndex.PostsIff | src/target/BlogIndexTarget.ts:32-42 | a post is listed exactly when a qualifying entry gives it |
| BlogIndex.PostElement | src/target/BlogIndexTarget.ts:45-61 | a post's entry holds its title and then its publication date. Its description comes third exactly when that is truthy |
| BlogIndex.BuildBlogIndex | src/target/BlogIndexTarget.ts:16-65 | a layout without a title throws, and one without `main` throws after that. Otherwise the title is "Justin's Blog". `main` keeps its children, then gains the h1 with that title and one entry per listed post, in order |

## Left out

- Promise scheduling: every `await` is a cut point. The pending build, reset or `next` is a handle, and the step that resumes it takes the awaited result as a parameter. Interleavings are whatever order the caller applies the steps in; `Promise.all`, `allSettled` and `race` are not modelled as such.
- `src/util/AsyncBatcher.ts` is not part of this model: its behaviour rests on timers and `Promise.race`.
- `AsyncQueueModule.AsyncQueue`: a waiting `next` is resolved by recording the delivery rather than by calling a resolver.
- `Date.now`, the timing column and every `console.log` line of `buildWrapper` and the runners' reports are left out; the reports are kept as records.
- `util.format` and `util.inspect` are reduced to the text or the rendered error the model needs. The preview's link warning renders its object as `{ href: '…', markdownLinkRegex: /…/ }`, without `util.inspect`'s escaping of the href or its line breaking.
- `JSON.stringify` of a string or a list of strings is written as quoting without escaping (`Quoted`, `QuotedList`).
- `serialize` is an opaque parameter, and nothing is claimed about a round trip through it.
- Node's `path` functions (`isAbsolute`, `normalize`, `resolve`, `relative`, `join`) are uninterpreted parameters. A property that needs more, such as the project-path round trip, says so in its `requires`.
- All file-system, chokidar and process I/O is left out. This covers the `fs.*` calls inside the file services, `findFiles`, `findFilesRecursively`, `toProjectPath`, `buildFiles`, the watcher itself and `ensureParentExists`. Their outcomes arrive as parameters.
- jsdom is replaced by lists: the anchors, headings, code elements and pages a query returns, in document order. `innerHTML`, `outerHTML`, `replaceChildren` and `serialize` are not modelled, so the wrapping of heading contents in links appears only as its href, "#" and the slug, which `SiteAnalysis.HeadingLinkChecked` relates to the site check.
- `slug` and `GithubSlugger` are parameters: the slugger takes the texts it has seen so far.
- Math rendering in the preview (`src/target/PagePreviewTarget.ts:133-209`) and the highlighter's output are third-party library calls and are left out. The code loop is modelled as the list of highlight calls it makes.
- `highlightCode` in `src/build-website.ts:187-232` is not part of this model. Its language rules are those modelled for the preview.
- `BuildWebsite.ConvertMarkdownLinks`: the pass reads `a.href`, which jsdom resolves against the document URL; the model reads the attribute as written. It works one page at a time, given every page's paths.
- `PagePreview.AsideOf`: `createElement` and `classList.add` reject some names by throwing (an empty class, as in "aside.", among them); the model keeps the split and the class list's collapsing of repeated names, not that rejection.
- `BlogIndex.SortPosts`: on equal publication dates the source comparator is inconsistent (it answers 1 both ways), so the order it leaves ties in is not specified. The model sorts stably and proves only the order by date and that the posts are the same. Dates are compared by `Common.LexLess`, on code points, where JavaScript's `<` compares UTF-16 code units; the two orders differ only between a character above U+FFFF and one in U+E000 to U+FFFF.
- `SiteAnalysis.PageIds`: `getElementById("")` is modelled as finding no element. A `Record` has one entry per path, and the first page with a path stands for it.
- `BlogIndex.BuildBlogIndex`: the layout's other children of `main` are a parameter that the build keeps in front.
- `BlogIndex.BuildBlogIndex`: the `pages` input is declared `Record<string, string>` (`src/target/SiteAnalysisTarget.ts:7`), under which `data.metadata.published` would throw a TypeError on every "/blog" entry. The model gives each entry the shape the body reads: a title, an optional publication date and a description. Its `None` stands for `null`, the case the filter drops; a `published` that is absent (`undefined`) passes `!== null` in the source and is merged with `null` here.
- `LegacyRunner.LocalRunner.RegisterDependencies`: a config is an inductive value, so configs are taken to be acyclic. On a cyclic config (an object that reaches itself without passing through a target), the source's `_registerDependencies` (`src/build/Runner.ts:197-213`) recurses until the stack overflows with a RangeError; that case is not represented.
- `HistoryCacheModule.HistoryCache.GetOrSetComputed`: a model value is never `undefined`, so the callback runs exactly for an uncached key. The source also recomputes a key whose stored value is `undefined` (`src/util/HistoryCache.ts:23-24`); its callers store only strings and results, never `undefined`. `MapUtil.GetOrSetComputed` models that case.
- `src/build/rule.ts` imports `defineTarget` from `src/build/target.ts`, which does not export it. The model takes `defineTarget` and `TargetInstance` from `src/build-again/build.ts:140-155`, the one definition of them in the repository.
- `RunnerSpec.CallRun`, `RunnerSteps.CallStep`: the `call` and `tryCall` a running service receives go back through the runner's `call`, which registers the nested service (or fails it on an id clash). The model's run steps carry only the result of each `tryCall`. So a nested call's registration never reaches the runner's services, a plain `call` is not a step (it adds no logs or warnings to the caller, and its result reaches only the service's own code, which is an abstract function here), and the rule that a failed `tryCall` throws "Call to service … failed." is not imposed on the behaviour.
- `LegacyRunner`: the synchronous start of `_doReset` and `_doBuild` (registering the service) happens when the job runs, not at the moment `get()` or `reset()` creates the promise. No other state change falls in between.
- `src/build.ts`, `src/watch.ts`, `src/build-new.ts` and `src/script.ts` are not part of this model: they are I/O drivers.
- `MathService`, `HighlightService`, the one-line targets (`FileInputTarget`, `FileOutputTarget`, `FileCopyTarget`, `MarkdownTarget`, `SassTarget`, `RecordTarget`, `PropertyTarget`), `src/rules/*`, `src/macros/{dom,file,markdown,sass}.ts` and `src/services/{markdown,sass,math,highlight}.ts` are not part of this model: they wrap libraries or the file system.
- `src/build/Rule.ts` and `src/build/Service.ts` hold only type declarations.
- HistoryCacheModule.SlotIndex: `time & historyMask` is modelled as `time` modulo the ring size, which agrees with the source while `time` is below 2^31 and the ring has at most 2^30 slots; the 32-bit wrap-around of `time` beyond that is not modelled.

## Findings

| source | as written | input that shows it | evidently intended | confidence | as-written member | corrected member |
|---|---|---|---|---|---|---|
| src/build/target.ts:84-88 | the NoOp definition puts its function under `call`, but a definition is run through its `run` field | a target made by `targetMacro` without a reset service, when it is reset: the NoOp service has no `run` to call, so the reset fails | the function under `run`, so that a reset without a reset service succeeds with null | not executed | TargetMacros.TargetMacroDefaultReset | TargetMacros.TargetMacroCorrectedDefaultReset |
| src/util/HistoryCache.ts:37-43 | when a slot is overwritten, the reference count decremented, and deleted at zero, is that of the key being written | a ring of one slot (`logHistorySize` 0): `set(0, a)` and then `set(1, b)` leave key 0 cached forever, with count 1, and give key 1 the count NaN | decrement the count of the key whose slot is overwritten (`prev`), so that the cache holds exactly the keys still in the ring | not executed | HistoryCacheModule.OverwrittenKeyNotReleased | HistoryCacheModule.ReleasingKeepsOccurrenceCounts |
| src/array.ts:5 | the error message reports `items.length` | `findOne([1, 1, 2], x => x === 1)` and `findOne([3, 4, 5], x => x === 1)` both throw "got 3" | report the number of matches, `filtered.length` | not executed | ArrayUtil.FindOneMessageIgnoresMatches | ArrayUtil.FindOneReportsMatchCount |
| src/util/filesystem.ts:78 | the test `stat(projectPath)?.isFile` reads the method without calling it, so it holds for every entry found | `deleteFileSync("/public/dir")` with a directory at that path: the directory is passed to `fs.unlinkSync`, which throws | `stat(projectPath)?.isFile()`, so that only files are unlinked | not executed | ProjectPaths.DirectoryDeleteThrows | ProjectPaths.DeleteFileSyncCalling |
