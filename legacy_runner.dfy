// The older engine (`src/build/Runner.ts`): `LocalRunner` with its
// services, `LocalService.call`, and `LocalTarget` with its five states,
// the structural walk that registers dependents, the clock-checked state
// proposals, `get`, `_doBuild`, the recursive reset and `_doReset`.
// Target objects live in an arena in the runner, identified by creation
// order. A promise is a job: a build or a reset that may wait for an
// earlier job; running a job is one step, which stands for the callback
// chain that runs when the promise it waits for settles.
module LegacyRunner {
  import opened Common
  import S = Service

  // ---- services ----

  /** A message a service's `call` passes to its context's `log` or `warn`, already formatted. */
  datatype Message = LogMessage(text: string) | WarnMessage(text: string)

  /** What a definition's `call({args, log, warn})` does: its messages, in order, and how it ends. */
  datatype CallBehaviour = CallBehaviour(messages: seq<Message>, outcome: Completion<S.Value, S.Exception>)

  /**
   * A service definition object. `ref` is its identity (what `Object.is`
   * compares); a `LocalService` is its definition's `id`, `pure` and `call`.
   * What each definition's `call` does is kept apart, in `Calls`, keyed by
   * identity.
   */
  datatype ServiceDef = ServiceDef(ref: nat, id: string, pure: bool)

  /** The `call` of every definition object, by identity. */
  type Calls = nat -> S.Value -> CallBehaviour

  /** A target result; `skipped` never comes from a service. Logs are a list here. */
  datatype TargetResult =
    | Ok(value: S.Value, logs: seq<string>)
    | Warned(value: S.Value, logs: seq<string>)
    | Failed(logs: seq<string>)
    | Skipped(logs: seq<string>)

  function Texts(messages: seq<Message>): (r: seq<string>)
    ensures |r| == |messages| && forall k :: 0 <= k < |r| ==> r[k] == messages[k].text
  {
    if |messages| == 0 then [] else Texts(messages[..|messages| - 1]) + [messages[|messages| - 1].text]
  }

  /** Whether any message went through `warn`. */
  function Warns(messages: seq<Message>): (b: bool)
    ensures b <==> exists k :: 0 <= k < |messages| && messages[k].WarnMessage?
  {
    if |messages| == 0 then false
    else
      var last := messages[|messages| - 1];
      assert forall k :: 0 <= k < |messages| - 1 ==> messages[..|messages| - 1][k] == messages[k];
      Warns(messages[..|messages| - 1]) || last.WarnMessage?
  }

  /**
   * `LocalService.call(args)`: every message is logged; a returned value
   * is `warned` if `warn` was called and `ok` otherwise; a throw is caught
   * and gives `failed`, with the rendered error as the last log.
   */
  function LocalServiceCall(calls: Calls, def: ServiceDef, args: S.Value): (r: TargetResult)
    ensures !r.Skipped?
    ensures r.Failed? <==> calls(def.ref)(args).outcome.Threw?
    ensures r.Warned? <==> calls(def.ref)(args).outcome.Returned? && exists k :: 0 <= k < |calls(def.ref)(args).messages| && calls(def.ref)(args).messages[k].WarnMessage?
    ensures (r.Ok? || r.Warned?) ==> r.value == calls(def.ref)(args).outcome.value && r.logs == Texts(calls(def.ref)(args).messages)
    ensures r.Failed? ==> r.logs == Texts(calls(def.ref)(args).messages) + [S.Inspect(calls(def.ref)(args).outcome.error)]
  {
    var b := calls(def.ref)(args);
    var logs := Texts(b.messages);
    match b.outcome
    case Returned(v) => if Warns(b.messages) then Warned(v, logs) else Ok(v, logs)
    case Threw(e) => Failed(logs + [S.Inspect(e)])
  }

  function RedefineServiceMessage(id: string): string
  {
    "Cannot redefine service with id " + S.Quoted(id)
  }

  /** The services after `service(definition)`, and what it returned or threw. */
  datatype Registration = Registration(services: map<string, ServiceDef>, outcome: Completion<ServiceDef, S.Exception>)

  /** Every registered service is registered under its own id. */
  predicate ServicesOk(services: map<string, ServiceDef>)
  {
    forall id :: id in services ==> services[id].id == id
  }

  /**
   * `LocalRunner.service(definition)`: the instance already registered
   * under the id if it came from this very definition object; an error if
   * it came from another one; otherwise a new instance, registered.
   */
  function RegisterService(services: map<string, ServiceDef>, def: ServiceDef): (r: Registration)
    requires ServicesOk(services)
    ensures ServicesOk(r.services)
    ensures def.id in services && services[def.id].ref == def.ref ==> r == Registration(services, Returned(services[def.id]))
    ensures def.id in services && services[def.id].ref != def.ref ==>
      r == Registration(services, Threw(S.Error(RedefineServiceMessage(def.id))))
    ensures def.id !in services ==> r == Registration(services[def.id := def], Returned(def))
  {
    if def.id in services then
      if services[def.id].ref == def.ref then Registration(services, Returned(services[def.id]))
      else Registration(services, Threw(S.Error(RedefineServiceMessage(def.id))))
    else Registration(services[def.id := def], Returned(def))
  }

  /** Registering a definition a second time returns the same instance and changes nothing. */
  lemma RegisterServiceIdempotent(services: map<string, ServiceDef>, def: ServiceDef)
    requires ServicesOk(services)
    ensures var first := RegisterService(services, def);
      first.outcome.Returned? ==> RegisterService(first.services, def) == Registration(first.services, first.outcome)
  {
  }

  // ---- the target's configuration ----

  /**
   * What a target's config may hold, as `_registerDependencies` sees it:
   * a primitive, a function or null (nothing to walk), an array, an object
   * with its own keys, or a `LocalTarget`.
   */
  datatype Config =
    | Primitive
    | ArrayOf(items: seq<Config>)
    | ObjectOf(entries: seq<Entry>)
    | TargetRef(target: nat)

  datatype Entry = Entry(key: string, value: Config)

  /** The targets the walk reaches, in the order it reaches them. */
  function TargetsIn(c: Config): seq<nat>
    decreases c
  {
    match c
    case Primitive => []
    case ArrayOf(items) => TargetsInItems(items)
    case ObjectOf(entries) => TargetsInEntries(entries)
    case TargetRef(t) => [t]
  }

  function TargetsInItems(items: seq<Config>): seq<nat>
    decreases items
  {
    if |items| == 0 then [] else TargetsInItems(items[..|items| - 1]) + TargetsIn(items[|items| - 1])
  }

  function TargetsInEntries(entries: seq<Entry>): seq<nat>
    decreases entries
  {
    if |entries| == 0 then [] else TargetsInEntries(entries[..|entries| - 1]) + TargetsIn(entries[|entries| - 1].value)
  }

  /** Every target in the config was constructed before the one being constructed. */
  predicate ConfigOk(c: Config, size: nat)
    decreases c
  {
    match c
    case Primitive => true
    case ArrayOf(items) => forall k :: 0 <= k < |items| ==> ConfigOk(items[k], size)
    case ObjectOf(entries) => forall k :: 0 <= k < |entries| ==> ConfigOk(entries[k].value, size)
    case TargetRef(t) => t < size
  }

  // ---- targets ----

  /** `LocalTargetState`. Only `fresh` is sure to hold a result; `initial` is at clock 0 with nothing cached. */
  datatype LState =
    | Initial
    | Resetting(clock: nat, promise: nat, cachedArgs: Option<string>, cachedResult: Option<TargetResult>)
    | Stale(clock: nat, cachedArgs: Option<string>, cachedResult: Option<TargetResult>)
    | Building(clock: nat, promise: nat, cachedArgs: Option<string>, cachedResult: Option<TargetResult>)
    | Fresh(clock: nat, cachedArgs: Option<string>, result: TargetResult)
  {
    function Clock(): nat
    {
      if Initial? then 0 else clock
    }

    function CachedArgs(): Option<string>
    {
      if Initial? then None else cachedArgs
    }

    function CachedResult(): Option<TargetResult>
    {
      if Initial? then None else if Fresh? then Some(result) else cachedResult
    }
  }

  /** A rule definition: the build service, and the reset service, if any. */
  datatype RuleDef = RuleDef(build: ServiceDef, reset: Option<ServiceDef>)

  /** One `LocalTarget`: what it was constructed with, its dependents (a `Set`) and its state. */
  datatype LTarget = LTarget(id: string, config: Config, rule: RuleDef, dependents: seq<nat>, state: LState)

  /**
   * A promise the engine waits on. `BuildJob`: `_doBuild` for a target,
   * once the reset it waits for (if any) has settled, followed by the
   * clock-checked `fresh` proposal. `ResetJob`: `_doReset`, once the build
   * it waits for (if any) has settled, followed by the proposal of
   * `staleState` when there is one.
   */
  datatype Job =
    | BuildJob(target: nat, after: Option<nat>, buildingClock: nat, cachedArgs: Option<string>, cachedResult: Option<TargetResult>)
    | ResetJob(target: nat, after: Option<nat>, staleState: Option<LState>)

  datatype Settlement = Built(result: TargetResult) | ResetDone

  /** A call of `_reportBuild` or `_reportReset`. */
  datatype Report = BuildReport(target: nat, result: TargetResult, usedCache: bool) | ResetReport(target: nat, result: TargetResult)

  /** `get()`'s promise: settled with a result, or the promise of a build job. */
  datatype Pending = Ready(result: TargetResult) | Waiting(job: nat)

  /**
   * The runner and every target. `targetIds` is `_targets`, which the
   * duplicate-target check reads.
   */
  datatype World = World(
    services: map<string, ServiceDef>,
    targetIds: map<string, nat>,
    targets: seq<LTarget>,
    jobs: seq<Job>,
    settled: map<nat, Settlement>,
    reports: seq<Report>)

  datatype Step<+T> = Step(state: World, value: T)

  predicate TargetOk(n: LTarget, size: nat, jobCount: nat)
  {
    (forall k :: 0 <= k < |n.dependents| ==> n.dependents[k] < size) &&
    NoDuplicates(n.dependents) &&
    ((n.state.Resetting? || n.state.Building?) ==> n.state.promise < jobCount)
  }

  predicate WorldOk(w: World)
  {
    ServicesOk(w.services) &&
    (forall t :: 0 <= t < |w.targets| ==> TargetOk(w.targets[t], |w.targets|, |w.jobs|)) &&
    (forall j :: 0 <= j < |w.jobs| ==> w.jobs[j].target < |w.targets|)
  }

  /** The same target, with only its state possibly changed. */
  predicate SameTarget(n: LTarget, m: LTarget)
  {
    m == n.(state := m.state)
  }

  /** Replaces target t's state; a state that names a promise names a job that exists. */
  function SetTargetState(w: World, t: nat, st: LState): (r: World)
    requires WorldOk(w) && t < |w.targets|
    requires (st.Resetting? || st.Building?) ==> st.promise < |w.jobs|
    ensures WorldOk(r) && r == w.(targets := w.targets[t := w.targets[t].(state := st)])
  {
    var n := w.targets[t].(state := st);
    assert TargetOk(n, |w.targets|, |w.jobs|);
    w.(targets := w.targets[t := n])
  }

  /** Appends a job on an existing target; the world stays well formed. */
  function AddJob(w: World, job: Job): (r: Step<nat>)
    requires WorldOk(w) && job.target < |w.targets|
    ensures WorldOk(r.state) && r.value == |w.jobs| && r.state == w.(jobs := w.jobs + [job])
  {
    var r := w.(jobs := w.jobs + [job]);
    assert forall t :: 0 <= t < |w.targets| ==> TargetOk(w.targets[t], |w.targets|, |w.jobs|);
    assert forall t :: 0 <= t < |r.targets| ==> TargetOk(r.targets[t], |r.targets|, |r.jobs|);
    Step(r, |w.jobs|)
  }

  // ---- construction ----

  /** Adds `id` to the dependents of each target of `ids` in turn, each once. */
  function JoinAll(targets: seq<LTarget>, ids: seq<nat>, id: nat): (r: seq<LTarget>)
    ensures |r| == |targets|
    ensures forall t :: 0 <= t < |targets| ==> SameDeps(targets[t], r[t])
  {
    if |ids| == 0 then targets
    else
      var before := JoinAll(targets, ids[..|ids| - 1], id);
      var t := ids[|ids| - 1];
      if t < |before| then before[t := before[t].(dependents := SetAdd(before[t].dependents, id))] else before
  }

  /** The same target, with only its dependents possibly changed. */
  predicate SameDeps(n: LTarget, m: LTarget)
  {
    m == n.(dependents := m.dependents)
  }

  lemma {:induction false} JoinAllAppend(targets: seq<LTarget>, a: seq<nat>, b: seq<nat>, id: nat)
    ensures JoinAll(targets, a + b, id) == JoinAll(JoinAll(targets, a, id), b, id)
  {
    if |b| == 0 {
      assert a + b == a;
    } else {
      assert (a + b)[..|a + b| - 1] == a + b[..|b| - 1];
      JoinAllAppend(targets, a, b[..|b| - 1], id);
    }
  }

  /**
   * `_registerDependencies`: afterwards a target has `id` among its
   * dependents exactly when it had before or the walk reaches it.
   */
  lemma {:induction false} JoinAllReaches(targets: seq<LTarget>, ids: seq<nat>, id: nat, t: nat, d: nat)
    requires t < |targets|
    ensures d in JoinAll(targets, ids, id)[t].dependents <==> d in targets[t].dependents || (d == id && t in ids)
  {
    if |ids| > 0 {
      JoinAllReaches(targets, ids[..|ids| - 1], id, t, d);
      assert t in ids <==> t in ids[..|ids| - 1] || t == ids[|ids| - 1];
    }
  }

  lemma {:induction false} JoinAllKeepsOk(w: World, ids: seq<nat>, id: nat)
    requires WorldOk(w) && id < |w.targets|
    ensures WorldOk(w.(targets := JoinAll(w.targets, ids, id)))
  {
    if |ids| > 0 {
      JoinAllKeepsOk(w, ids[..|ids| - 1], id);
      var before := JoinAll(w.targets, ids[..|ids| - 1], id);
      var t := ids[|ids| - 1];
      if t < |before| {
        assert TargetOk(before[t], |before|, |w.jobs|);
        SetAddKeepsNoDuplicates(before[t].dependents, id);
      }
    }
  }

  function RedefineTargetMessage(id: string): string
  {
    "Cannot redefine target with id " + S.Quoted(id)
  }

  /** A new `LocalTarget`: `initial`, no dependents. */
  function NewTarget(id: string, config: Config, rule: RuleDef): LTarget
  {
    LTarget(id, config, rule, [], Initial)
  }

  /**
   * `rule(definition).target(id, config)`: throws if `_targets` has the
   * id; otherwise the new target joins the arena and the dependents of
   * every target its config reaches. `_targets` itself is never written.
   */
  function CreateTargetStep(w: World, id: string, config: Config, rule: RuleDef): (r: Step<Completion<nat, S.Exception>>)
    requires WorldOk(w) && ConfigOk(config, |w.targets|)
    ensures WorldOk(r.state) && r.state.targetIds == w.targetIds
  {
    if id in w.targetIds then Step(w, Threw(S.Error(RedefineTargetMessage(id))))
    else
      var n: nat := |w.targets|;
      var appended := w.(targets := w.targets + [NewTarget(id, config, rule)]);
      assert forall t :: 0 <= t < n ==> TargetOk(w.targets[t], n, |w.jobs|);
      assert TargetOk(NewTarget(id, config, rule), n + 1, |w.jobs|);
      JoinAllKeepsOk(appended, TargetsIn(config), n);
      Step(appended.(targets := JoinAll(appended.targets, TargetsIn(config), n)), Returned(n))
  }

  /**
   * With `_targets` empty, as it always is, creating a target never
   * throws: the duplicate check is dead. The new target comes last, is
   * `initial` and has no dependents.
   */
  lemma CreateTargetNeverThrows(w: World, id: string, config: Config, rule: RuleDef)
    requires WorldOk(w) && ConfigOk(config, |w.targets|) && w.targetIds == map[]
    ensures CreateTargetStep(w, id, config, rule).value == Returned(|w.targets|)
    ensures |CreateTargetStep(w, id, config, rule).state.targets| == |w.targets| + 1
    ensures CreateTargetStep(w, id, config, rule).state.targets[|w.targets|] == NewTarget(id, config, rule)
  {
    TargetsInBounded(config, |w.targets|);
    JoinAllUntouched(w.targets + [NewTarget(id, config, rule)], TargetsIn(config), |w.targets|, |w.targets|);
  }

  lemma {:induction false} JoinAllUntouched(targets: seq<LTarget>, ids: seq<nat>, id: nat, t: nat)
    requires t < |targets| && t !in ids
    ensures JoinAll(targets, ids, id)[t] == targets[t]
  {
    if |ids| > 0 {
      JoinAllUntouched(targets, ids[..|ids| - 1], id, t);
    }
  }

  /** The walk reaches only targets that the config may hold. */
  lemma {:induction false} TargetsInBounded(c: Config, size: nat)
    requires ConfigOk(c, size)
    ensures forall k :: 0 <= k < |TargetsIn(c)| ==> TargetsIn(c)[k] < size
    decreases c, 1
  {
    match c
    case Primitive =>
    case ArrayOf(items) => TargetsInItemsBounded(items, size);
    case ObjectOf(entries) => TargetsInEntriesBounded(entries, size);
    case TargetRef(_) =>
  }

  lemma {:induction false} TargetsInItemsBounded(items: seq<Config>, size: nat)
    requires forall k :: 0 <= k < |items| ==> ConfigOk(items[k], size)
    ensures forall k :: 0 <= k < |TargetsInItems(items)| ==> TargetsInItems(items)[k] < size
    decreases items, 0
  {
    if |items| > 0 {
      TargetsInItemsBounded(items[..|items| - 1], size);
      TargetsInBounded(items[|items| - 1], size);
    }
  }

  lemma {:induction false} TargetsInEntriesBounded(entries: seq<Entry>, size: nat)
    requires forall k :: 0 <= k < |entries| ==> ConfigOk(entries[k].value, size)
    ensures forall k :: 0 <= k < |TargetsInEntries(entries)| ==> TargetsInEntries(entries)[k] < size
    decreases entries, 0
  {
    if |entries| > 0 {
      TargetsInEntriesBounded(entries[..|entries| - 1], size);
      TargetsInBounded(entries[|entries| - 1].value, size);
    }
  }

  /**
   * `_registerDependencies`: after the new target n is created, an older
   * target t has n among its dependents exactly when the config reaches
   * it; nothing else about t changes.
   */
  lemma CreateTargetJoins(w: World, id: string, config: Config, rule: RuleDef, t: nat, d: nat)
    requires WorldOk(w) && ConfigOk(config, |w.targets|) && w.targetIds == map[] && t < |w.targets|
    ensures |CreateTargetStep(w, id, config, rule).state.targets| == |w.targets| + 1
    ensures SameDeps(w.targets[t], CreateTargetStep(w, id, config, rule).state.targets[t])
    ensures d in CreateTargetStep(w, id, config, rule).state.targets[t].dependents <==>
      d in w.targets[t].dependents || (d == |w.targets| && t in TargetsIn(config))
  {
    var appended := w.targets + [NewTarget(id, config, rule)];
    JoinAllReaches(appended, TargetsIn(config), |w.targets|, t, d);
  }

  lemma NoSelfDependent(w: World, t: nat)
    requires WorldOk(w) && t < |w.targets|
    ensures |w.targets| !in w.targets[t].dependents
  {
    assert TargetOk(w.targets[t], |w.targets|, |w.jobs|);
  }

  // ---- state proposals and get ----

  /** `_proposeState(state)`: installed only when its clock is one past the current clock. */
  function ProposeState(w: World, t: nat, st: LState): (r: World)
    requires WorldOk(w) && t < |w.targets| && !st.Resetting? && !st.Building?
    ensures WorldOk(r)
    ensures r == if w.targets[t].state.Clock() + 1 == st.Clock() then w.(targets := w.targets[t := w.targets[t].(state := st)]) else w
  {
    if w.targets[t].state.Clock() + 1 == st.Clock() then SetTargetState(w, t, st) else w
  }

  /**
   * The rest of `get()` on a target that is neither `building` nor
   * `fresh`: a build job that waits for `after`, and the `building` state
   * at the next clock, keeping what is cached.
   */
  function StartBuildStep(w: World, t: nat, after: Option<nat>): (r: Step<nat>)
    requires WorldOk(w) && t < |w.targets|
    ensures WorldOk(r.state)
  {
    var st := w.targets[t].state;
    var job := AddJob(w, BuildJob(t, after, st.Clock() + 1, st.CachedArgs(), st.CachedResult()));
    var building := Building(st.Clock() + 1, job.value, st.CachedArgs(), st.CachedResult());
    Step(SetTargetState(job.state, t, building), job.value)
  }

  /**
   * `get()`: a `building` target hands out its build's promise, a `fresh`
   * one its cached result; otherwise a build starts, after a new reset
   * (`initial`), after the reset in progress (`resetting`), or at once
   * (`stale`).
   */
  function GetStep(w: World, t: nat): (r: Step<Pending>)
    requires WorldOk(w) && t < |w.targets|
    ensures WorldOk(r.state)
  {
    var st := w.targets[t].state;
    match st
    case Building(_, promise, _, _) => Step(w, Waiting(promise))
    case Fresh(_, _, result) => Step(w, Ready(result))
    case Initial =>
      var reset := AddJob(w, ResetJob(t, None, None));
      var build := StartBuildStep(reset.state, t, Some(reset.value));
      Step(build.state, Waiting(build.value))
    case Resetting(_, promise, _, _) =>
      var build := StartBuildStep(w, t, Some(promise));
      Step(build.state, Waiting(build.value))
    case Stale(_, _, _) =>
      var build := StartBuildStep(w, t, None);
      Step(build.state, Waiting(build.value))
  }

  /**
   * `get()` on a target that is neither `building` nor `fresh` leaves it
   * `building` at one past its clock, with its cache kept and a new build
   * job as its promise, the promise handed out; on an `initial` target
   * that job waits for a new reset job, which proposes no state.
   */
  lemma GetStartsBuild(w: World, t: nat)
    requires WorldOk(w) && t < |w.targets| && !w.targets[t].state.Building? && !w.targets[t].state.Fresh?
    ensures var r := GetStep(w, t); var st := w.targets[t].state;
      var j := |r.state.jobs| - 1;
      r.value == Waiting(j) &&
      r.state.targets == w.targets[t := w.targets[t].(state := Building(st.Clock() + 1, j, st.CachedArgs(), st.CachedResult()))] &&
      r.state.jobs[j] == BuildJob(t, r.state.jobs[j].after, st.Clock() + 1, st.CachedArgs(), st.CachedResult()) &&
      (st.Initial? ==> |r.state.jobs| == |w.jobs| + 2 && r.state.jobs[|w.jobs|] == ResetJob(t, None, None) && r.state.jobs[j].after == Some(|w.jobs|)) &&
      (st.Resetting? ==> |r.state.jobs| == |w.jobs| + 1 && r.state.jobs[j].after == Some(st.promise)) &&
      (st.Stale? ==> |r.state.jobs| == |w.jobs| + 1 && r.state.jobs[j].after == None) &&
      r.state.settled == w.settled && r.state.services == w.services && r.state.reports == w.reports
  {
  }

  /** A second `get()` right after the first hands out the same promise and changes nothing. */
  lemma GetShared(w: World, t: nat)
    requires WorldOk(w) && t < |w.targets| && !w.targets[t].state.Fresh?
    ensures var first := GetStep(w, t); GetStep(first.state, t) == first
  {
  }

  /** `tryGet()`: the value of an `ok` or `warned` result; otherwise a `TargetUnavailableError`. */
  function TryGetOutcome(id: string, result: TargetResult): (r: Completion<S.Value, S.Exception>)
    ensures r.Returned? <==> result.Ok? || result.Warned?
    ensures r.Returned? ==> r.value == result.value
    ensures result.Failed? ==> r == Threw(S.TargetUnavailable(id, S.FailedStatus))
    ensures result.Skipped? ==> r == Threw(S.TargetUnavailable(id, S.SkippedStatus))
  {
    match result
    case Ok(v, _) => Returned(v)
    case Warned(v, _) => Returned(v)
    case Failed(_) => Threw(S.TargetUnavailable(id, S.FailedStatus))
    case Skipped(_) => Threw(S.TargetUnavailable(id, S.SkippedStatus))
  }

  // ---- the jobs ----

  /** A job that has not settled, and whose awaited promise, if any, has. */
  predicate Runnable(w: World, j: nat)
  {
    j < |w.jobs| && j !in w.settled && (w.jobs[j].after.None? || w.jobs[j].after.value in w.settled)
  }

  /** What `_doBuild` computes: the services after registering, the result, the serialized args kept, whether the cache was used. */
  datatype BuildOutcome = BuildOutcome(services: map<string, ServiceDef>, result: TargetResult, serializedArgs: Option<string>, usedCache: bool)

  /**
   * `_doBuild(cachedSerializedArgs, cachedResult)`, given how `build.args`
   * ended: registering the build service or computing the args may throw,
   * giving `skipped` for a `TargetUnavailableError` and `failed` for
   * anything else; a pure service whose serialized args equal the cached
   * ones, with a cached result, reuses that result without a call;
   * otherwise the service is called. Only a pure service's args are
   * serialized and kept.
   */
  function DoBuild(calls: Calls, services: map<string, ServiceDef>, def: ServiceDef, cachedArgs: Option<string>, cachedResult: Option<TargetResult>,
                   args: Completion<S.Value, S.Exception>, serialize: S.Value -> string): (o: BuildOutcome)
    requires ServicesOk(services)
    ensures ServicesOk(o.services) && o.services == RegisterService(services, def).services
    ensures var reg := RegisterService(services, def).outcome;
      (o.usedCache <==> reg.Returned? && args.Returned? && reg.value.pure && Some(serialize(args.value)) == cachedArgs && cachedResult.Some?) &&
      (o.usedCache ==> o.result == cachedResult.value) &&
      (reg.Returned? && args.Returned? && !o.usedCache ==> o.result == LocalServiceCall(calls, reg.value, args.value)) &&
      (reg.Threw? ==> o.result == Failed([S.Inspect(reg.error)])) &&
      (reg.Returned? && args.Threw? ==> o.result == if args.error.TargetUnavailable? then Skipped([S.Inspect(args.error)]) else Failed([S.Inspect(args.error)])) &&
      (o.serializedArgs.Some? <==> reg.Returned? && args.Returned? && reg.value.pure) &&
      (o.serializedArgs.Some? ==> o.serializedArgs.value == serialize(args.value))
  {
    var reg := RegisterService(services, def);
    match reg.outcome
    case Threw(e) => BuildOutcome(reg.services, Failed([S.Inspect(e)]), None, false)
    case Returned(service) =>
      match args
      case Threw(e) =>
        BuildOutcome(reg.services, if e.TargetUnavailable? then Skipped([S.Inspect(e)]) else Failed([S.Inspect(e)]), None, false)
      case Returned(v) =>
        var serializedArgs := if service.pure then Some(serialize(v)) else None;
        if service.pure && serializedArgs == cachedArgs && cachedResult.Some? then
          BuildOutcome(reg.services, cachedResult.value, serializedArgs, true)
        else BuildOutcome(reg.services, LocalServiceCall(calls, service, v), serializedArgs, false)
  }

  /**
   * Build job j runs: `_doBuild` with the job's cache snapshot, the
   * `_reportBuild` call, the promise settling with the result, and then,
   * if the target's clock is still the building clock, the `fresh`
   * proposal at the next clock.
   */
  function BuildJobStep(calls: Calls, w: World, j: nat, args: Completion<S.Value, S.Exception>, serialize: S.Value -> string): (r: Step<TargetResult>)
    requires WorldOk(w) && Runnable(w, j) && w.jobs[j].BuildJob?
    ensures WorldOk(r.state)
  {
    var job := w.jobs[j];
    var t := job.target;
    var o := DoBuild(calls, w.services, w.targets[t].rule.build, job.cachedArgs, job.cachedResult, args, serialize);
    var reported := w.(services := o.services, reports := w.reports + [BuildReport(t, o.result, o.usedCache)],
                       settled := w.settled[j := Built(o.result)]);
    var r := if w.targets[t].state.Clock() == job.buildingClock
      then ProposeState(reported, t, Fresh(job.buildingClock + 1, o.serializedArgs, o.result))
      else reported;
    Step(r, o.result)
  }

  /**
   * After a build, the target is `fresh` with that result exactly when its
   * clock was still the building clock; otherwise its state is untouched.
   * No other target changes, and the build is reported once.
   */
  lemma BuildJobFreshIffClock(calls: Calls, w: World, j: nat, args: Completion<S.Value, S.Exception>, serialize: S.Value -> string)
    requires WorldOk(w) && Runnable(w, j) && w.jobs[j].BuildJob?
    ensures var r := BuildJobStep(calls, w, j, args, serialize); var job := w.jobs[j]; var t := job.target;
      var o := DoBuild(calls, w.services, w.targets[t].rule.build, job.cachedArgs, job.cachedResult, args, serialize);
      r.value == o.result && r.state.settled == w.settled[j := Built(o.result)] &&
      r.state.reports == w.reports + [BuildReport(t, o.result, o.usedCache)] &&
      (w.targets[t].state.Clock() == job.buildingClock ==>
        r.state.targets == w.targets[t := w.targets[t].(state := Fresh(job.buildingClock + 1, o.serializedArgs, o.result))]) &&
      (w.targets[t].state.Clock() != job.buildingClock ==> r.state.targets == w.targets)
  {
  }

  /** Once a build has made its target `fresh`, `get()` hands out that build's result and changes nothing. */
  lemma BuildThenGetHitsCache(calls: Calls, w: World, j: nat, args: Completion<S.Value, S.Exception>, serialize: S.Value -> string)
    requires WorldOk(w) && Runnable(w, j) && w.jobs[j].BuildJob?
    requires w.targets[w.jobs[j].target].state.Clock() == w.jobs[j].buildingClock
    ensures var r := BuildJobStep(calls, w, j, args, serialize);
      GetStep(r.state, w.jobs[j].target) == Step(r.state, Ready(r.value))
  {
    BuildJobFreshIffClock(calls, w, j, args, serialize);
  }

  /** The services after `_doReset` registered the reset service, and the result it reported, if any. */
  datatype ResetOutcome = ResetOutcome(services: map<string, ServiceDef>, result: Option<TargetResult>)

  /**
   * `_doReset()`, given how `reset.args` ended: a rule without a reset does
   * nothing and reports nothing; otherwise any error (registering the
   * service or computing the args) becomes a `failed` result, and the
   * result is reported, never thrown.
   */
  function DoReset(calls: Calls, services: map<string, ServiceDef>, reset: Option<ServiceDef>, args: Completion<S.Value, S.Exception>): (o: ResetOutcome)
    requires ServicesOk(services)
    ensures ServicesOk(o.services)
    ensures reset.None? ==> o == ResetOutcome(services, None)
    ensures reset.Some? ==> var reg := RegisterService(services, reset.value).outcome;
      o.services == RegisterService(services, reset.value).services && o.result.Some? &&
      (reg.Threw? ==> o.result.value == Failed([S.Inspect(reg.error)])) &&
      (reg.Returned? && args.Threw? ==> o.result.value == Failed([S.Inspect(args.error)])) &&
      (reg.Returned? && args.Returned? ==> o.result.value == LocalServiceCall(calls, reg.value, args.value))
  {
    match reset
    case None => ResetOutcome(services, None)
    case Some(def) =>
      var reg := RegisterService(services, def);
      match reg.outcome
      case Threw(e) => ResetOutcome(reg.services, Some(Failed([S.Inspect(e)])))
      case Returned(service) =>
        match args
        case Threw(e) => ResetOutcome(reg.services, Some(Failed([S.Inspect(e)])))
        case Returned(v) => ResetOutcome(reg.services, Some(LocalServiceCall(calls, service, v)))
  }

  /** A reset never produces `skipped`, not even for a `TargetUnavailableError`. */
  lemma ResetNeverSkips(calls: Calls, services: map<string, ServiceDef>, reset: Option<ServiceDef>, args: Completion<S.Value, S.Exception>)
    requires ServicesOk(services)
    ensures DoReset(calls, services, reset, args).result.Some? ==> !DoReset(calls, services, reset, args).result.value.Skipped?
  {
  }

  /**
   * Reset job j runs: `_doReset`, its report if there is one, the promise
   * settling, and then the job's `stale` proposal, if it has one.
   */
  function ResetJobStep(calls: Calls, w: World, j: nat, args: Completion<S.Value, S.Exception>): (r: World)
    requires WorldOk(w) && Runnable(w, j) && w.jobs[j].ResetJob?
    requires w.jobs[j].staleState.Some? ==> w.jobs[j].staleState.value.Stale?
    ensures WorldOk(r)
  {
    var job := w.jobs[j];
    var t := job.target;
    var o := DoReset(calls, w.services, w.targets[t].rule.reset, args);
    var reported := w.(services := o.services, reports := w.reports + (if o.result.Some? then [ResetReport(t, o.result.value)] else []),
                       settled := w.settled[j := ResetDone]);
    if job.staleState.Some? then ProposeState(reported, t, job.staleState.value) else reported
  }

  /**
   * After a reset job runs, its target is the job's `stale` state exactly
   * when the job has one and the target's clock is one short of it (no
   * `get()` or reset came in between); otherwise the target is as it was.
   */
  lemma ResetJobStaleIffClock(calls: Calls, w: World, j: nat, args: Completion<S.Value, S.Exception>)
    requires WorldOk(w) && Runnable(w, j) && w.jobs[j].ResetJob?
    requires w.jobs[j].staleState.Some? ==> w.jobs[j].staleState.value.Stale?
    ensures var r := ResetJobStep(calls, w, j, args); var job := w.jobs[j]; var t := job.target;
      |r.targets| == |w.targets| && r.settled == w.settled[j := ResetDone] &&
      (job.staleState.Some? && w.targets[t].state.Clock() + 1 == job.staleState.value.clock ==>
        r.targets == w.targets[t := w.targets[t].(state := job.staleState.value)]) &&
      (job.staleState.None? || w.targets[t].state.Clock() + 1 != job.staleState.value.clock ==> r.targets == w.targets)
  {
  }

  // ---- the recursive reset ----

  /** Neither `resetting` nor `stale`: what `_recursiveReset` acts on. */
  predicate Active(st: LState)
  {
    !st.Resetting? && !st.Stale?
  }

  function ActiveCount(targets: seq<LTarget>): nat
  {
    if |targets| == 0 then 0
    else ActiveCount(targets[..|targets| - 1]) + if Active(targets[|targets| - 1].state) then 1 else 0
  }

  lemma {:induction false} ActiveCountReplace(targets: seq<LTarget>, t: nat, n: LTarget)
    requires t < |targets|
    ensures ActiveCount(targets[t := n]) + (if Active(targets[t].state) then 1 else 0) ==
            ActiveCount(targets) + (if Active(n.state) then 1 else 0)
  {
    if t < |targets| - 1 {
      assert targets[t := n][..|targets| - 1] == targets[..|targets| - 1][t := n];
      ActiveCountReplace(targets[..|targets| - 1], t, n);
    } else {
      assert targets[t := n][..|targets| - 1] == targets[..|targets| - 1];
    }
  }

  /**
   * What a recursive reset may do: only active targets change, each to
   * `resetting`; jobs are only added, each a reset job proposing `stale`;
   * the services, settlements and reports are untouched.
   */
  ghost predicate ResetKeeps(w: World, r: World)
  {
    |r.targets| == |w.targets| && |w.jobs| <= |r.jobs| && r.jobs[..|w.jobs|] == w.jobs &&
    r.services == w.services && r.targetIds == w.targetIds && r.settled == w.settled && r.reports == w.reports &&
    (forall t :: 0 <= t < |w.targets| ==> SameTarget(w.targets[t], r.targets[t])) &&
    (forall t :: 0 <= t < |w.targets| && r.targets[t] != w.targets[t] ==> Active(w.targets[t].state) && r.targets[t].state.Resetting?) &&
    (forall j :: |w.jobs| <= j < |r.jobs| ==> r.jobs[j].ResetJob? && r.jobs[j].staleState.Some? && r.jobs[j].staleState.value.Stale?) &&
    ActiveCount(r.targets) <= ActiveCount(w.targets)
  }

  lemma ResetKeepsReflexive(w: World)
    ensures ResetKeeps(w, w)
  {
    assert w.jobs[..|w.jobs|] == w.jobs;
  }

  lemma ResetKeepsTransitive(w0: World, w1: World, w2: World)
    requires ResetKeeps(w0, w1) && ResetKeeps(w1, w2)
    ensures ResetKeeps(w0, w2)
  {
    assert w2.jobs[..|w0.jobs|] == w2.jobs[..|w1.jobs|][..|w0.jobs|];
    forall j | |w0.jobs| <= j < |w2.jobs|
      ensures w2.jobs[j].ResetJob? && w2.jobs[j].staleState.Some? && w2.jobs[j].staleState.value.Stale?
    {
      if j < |w1.jobs| {
        assert w2.jobs[j] == w2.jobs[..|w1.jobs|][j];
      }
    }
  }

  /** A reset leaves a `resetting` or `stale` target as it was. */
  lemma StaysInactive(w: World, r: World, t: nat)
    requires ResetKeeps(w, r) && t < |w.targets| && !Active(w.targets[t].state)
    ensures r.targets[t] == w.targets[t]
  {
  }

  /**
   * `_recursiveReset` on an active target: a reset job that waits for the
   * build in progress, if any, and proposes `stale` two clocks on with
   * the cache as it is now; the target becomes `resetting` at the next
   * clock.
   */
  function StartResetStep(w: World, t: nat): (r: Step<nat>)
    requires WorldOk(w) && t < |w.targets| && Active(w.targets[t].state)
    ensures WorldOk(r.state) && ActiveCount(r.state.targets) < ActiveCount(w.targets)
    ensures r.value == |w.jobs|
    ensures r.state == w.(targets := w.targets[t := w.targets[t].(state := ResettingState(w.targets[t].state, |w.jobs|))],
                          jobs := w.jobs + [ResetJobFor(t, w.targets[t].state)])
  {
    var st := w.targets[t].state;
    var job := AddJob(w, ResetJobFor(t, st));
    var r := SetTargetState(job.state, t, ResettingState(st, job.value));
    ActiveCountReplace(w.targets, t, r.targets[t]);
    Step(r, job.value)
  }

  /** The reset job `_recursiveReset` creates: after the build in progress, if any; `stale` two clocks on, with the cache as it is. */
  function ResetJobFor(t: nat, st: LState): Job
  {
    ResetJob(t, if st.Building? then Some(st.promise) else None, Some(Stale(st.Clock() + 2, st.CachedArgs(), st.CachedResult())))
  }

  /** The `resetting` state `_recursiveReset` installs: one clock on, with the cache as it is. */
  function ResettingState(st: LState, promise: nat): LState
  {
    Resetting(st.Clock() + 1, promise, st.CachedArgs(), st.CachedResult())
  }

  lemma StartResetKeeps(w: World, t: nat)
    requires WorldOk(w) && t < |w.targets| && Active(w.targets[t].state)
    ensures ResetKeeps(w, StartResetStep(w, t).state)
  {
    var r := StartResetStep(w, t).state;
    assert r.jobs[..|w.jobs|] == w.jobs;
  }

  /**
   * `_recursiveReset(promises)` on target t: the promises it pushes. A
   * `resetting` target pushes its reset's promise, a `stale` one nothing;
   * any other starts a reset, pushes its promise, and recurses into each
   * dependent.
   */
  function ResetFrom(w: World, t: nat): (r: Step<seq<nat>>)
    requires WorldOk(w) && t < |w.targets|
    decreases ActiveCount(w.targets), 0, 0
    ensures WorldOk(r.state) && |r.state.targets| == |w.targets| && ActiveCount(r.state.targets) <= ActiveCount(w.targets)
  {
    var st := w.targets[t].state;
    if st.Resetting? then Step(w, [st.promise])
    else if st.Stale? then Step(w, [])
    else
      var started := StartResetStep(w, t);
      assert TargetOk(w.targets[t], |w.targets|, |w.jobs|);
      var rest := ResetEach(started.state, w.targets[t].dependents);
      Step(rest.state, [started.value] + rest.value)
  }

  /** `for (const dependent of this._dependents) dependent._recursiveReset(promises)`. */
  function ResetEach(w: World, ds: seq<nat>): (r: Step<seq<nat>>)
    requires WorldOk(w) && forall k :: 0 <= k < |ds| ==> ds[k] < |w.targets|
    decreases ActiveCount(w.targets), 1, |ds|
    ensures WorldOk(r.state) && |r.state.targets| == |w.targets| && ActiveCount(r.state.targets) <= ActiveCount(w.targets)
  {
    if |ds| == 0 then Step(w, [])
    else
      var first := ResetFrom(w, ds[0]);
      var rest := ResetEach(first.state, ds[1..]);
      Step(rest.state, first.value + rest.value)
  }

  /**
   * A recursive reset changes only active targets, each to `resetting`,
   * adds only reset jobs, and leaves t neither active nor, if it was
   * active, any of its dependents.
   */
  lemma {:induction false} ResetFromKeeps(w: World, t: nat)
    requires WorldOk(w) && t < |w.targets|
    decreases ActiveCount(w.targets), 0, 0
    ensures ResetKeeps(w, ResetFrom(w, t).state)
    ensures !Active(ResetFrom(w, t).state.targets[t].state)
    ensures Active(w.targets[t].state) ==>
      forall k :: 0 <= k < |w.targets[t].dependents| ==> !Active(ResetFrom(w, t).state.targets[w.targets[t].dependents[k]].state)
  {
    var st := w.targets[t].state;
    if !Active(st) {
      ResetKeepsReflexive(w);
    } else {
      var started := StartResetStep(w, t);
      StartResetKeeps(w, t);
      assert TargetOk(w.targets[t], |w.targets|, |w.jobs|);
      var rest := ResetEach(started.state, w.targets[t].dependents);
      ResetEachKeeps(started.state, w.targets[t].dependents);
      ResetKeepsTransitive(w, started.state, rest.state);
      StaysInactive(started.state, rest.state, t);
    }
  }

  lemma {:induction false} ResetEachKeeps(w: World, ds: seq<nat>)
    requires WorldOk(w) && forall k :: 0 <= k < |ds| ==> ds[k] < |w.targets|
    decreases ActiveCount(w.targets), 1, |ds|
    ensures ResetKeeps(w, ResetEach(w, ds).state)
    ensures forall k :: 0 <= k < |ds| ==> !Active(ResetEach(w, ds).state.targets[ds[k]].state)
  {
    if |ds| == 0 {
      ResetKeepsReflexive(w);
    } else {
      var first := ResetFrom(w, ds[0]);
      ResetFromKeeps(w, ds[0]);
      var rest := ResetEach(first.state, ds[1..]);
      ResetEachKeeps(first.state, ds[1..]);
      ResetEachCombines(w, first.state, rest.state, ds);
    }
  }

  lemma ResetEachCombines(w: World, first: World, r: World, ds: seq<nat>)
    requires |ds| > 0 && ds[0] < |w.targets| && ResetKeeps(w, first) && ResetKeeps(first, r)
    requires !Active(first.targets[ds[0]].state)
    requires forall k :: 0 <= k < |ds| - 1 ==> ds[1..][k] < |r.targets| && !Active(r.targets[ds[1..][k]].state)
    ensures ResetKeeps(w, r)
    ensures forall k :: 0 <= k < |ds| ==> ds[k] < |r.targets| && !Active(r.targets[ds[k]].state)
  {
    ResetKeepsTransitive(w, first, r);
    StaysInactive(first, r, ds[0]);
    forall k | 0 <= k < |ds|
      ensures ds[k] < |r.targets| && !Active(r.targets[ds[k]].state)
    {
      if k > 0 {
        assert ds[k] == ds[1..][k - 1];
      }
    }
  }

  lemma AppendAssociates(a: seq<nat>, b: seq<nat>, c: seq<nat>)
    ensures a + (b + c) == (a + b) + c
  {
  }

  /**
   * Midway through the loop over the dependents `ds`, started in world
   * `w`: the first k have been reset, the world is `cur` and `promises`
   * have been pushed, so that resetting the rest completes `ResetEach`.
   */
  ghost predicate ResetLoop(w: World, ds: seq<nat>, k: nat, cur: World, promises: seq<nat>)
  {
    k <= |ds| && WorldOk(w) && WorldOk(cur) && (forall i :: 0 <= i < |ds| ==> ds[i] < |w.targets|) &&
    |cur.targets| == |w.targets| && ActiveCount(cur.targets) <= ActiveCount(w.targets) &&
    ResetEach(cur, ds[k..]).state == ResetEach(w, ds).state &&
    promises + ResetEach(cur, ds[k..]).value == ResetEach(w, ds).value
  }

  lemma ResetLoopStarts(w: World, ds: seq<nat>)
    requires WorldOk(w) && forall i :: 0 <= i < |ds| ==> ds[i] < |w.targets|
    ensures ResetLoop(w, ds, 0, w, [])
  {
    assert ds[0..] == ds;
  }

  lemma ResetLoopEnds(w: World, ds: seq<nat>, cur: World, promises: seq<nat>)
    requires ResetLoop(w, ds, |ds|, cur, promises)
    ensures Step(cur, promises) == ResetEach(w, ds)
  {
    assert ds[|ds|..] == [];
    assert promises + [] == promises;
  }

  /** One turn of the loop over the dependents. */
  lemma ResetEachUnfold(w: World, ds: seq<nat>)
    requires WorldOk(w) && |ds| > 0 && forall k :: 0 <= k < |ds| ==> ds[k] < |w.targets|
    ensures ResetEach(w, ds).state == ResetEach(ResetFrom(w, ds[0]).state, ds[1..]).state
    ensures ResetEach(w, ds).value == ResetFrom(w, ds[0]).value + ResetEach(ResetFrom(w, ds[0]).state, ds[1..]).value
  {
  }

  /** Resetting twice in a row: the second reset starts nothing and only hands back promises. */
  lemma ResetTwice(w: World, t: nat)
    requires WorldOk(w) && t < |w.targets|
    ensures var first := ResetFrom(w, t); ResetFrom(first.state, t).state == first.state
  {
    ResetFromKeeps(w, t);
  }

  /**
   * A reset of an active target makes it `resetting` one clock on, keeping
   * its cache, with the first promise pushed being its new reset job.
   */
  lemma ResetFromActive(w: World, t: nat, r: Step<seq<nat>>)
    requires WorldOk(w) && t < |w.targets| && Active(w.targets[t].state) && r == ResetFrom(w, t)
    ensures |r.value| > 0 && r.value[0] == |w.jobs|
    ensures r.state.targets[t].state == ResettingState(w.targets[t].state, |w.jobs|)
    ensures |w.jobs| < |r.state.jobs| && r.state.jobs[|w.jobs|] == ResetJobFor(t, w.targets[t].state)
  {
    var started := StartResetStep(w, t);
    assert TargetOk(w.targets[t], |w.targets|, |w.jobs|);
    var rest := ResetEach(started.state, w.targets[t].dependents);
    ResetEachKeeps(started.state, w.targets[t].dependents);
    StaysInactive(started.state, rest.state, t);
    assert rest.state.jobs[|w.jobs|] == rest.state.jobs[..|started.state.jobs|][|w.jobs|];
  }

  // ---- the runner and its targets, updated in place ----

  class LocalRunner {
    var services: map<string, ServiceDef>
    /** `_targets`: read by the duplicate check, never written. */
    var targetIds: map<string, nat>
    var targets: seq<LTarget>
    var jobs: seq<Job>
    var settled: map<nat, Settlement>
    var reports: seq<Report>

    function State(): World
      reads this
    {
      World(services, targetIds, targets, jobs, settled, reports)
    }

    /** The world is well formed, and nothing has ever written `_targets`. */
    predicate Valid()
      reads this
    {
      WorldOk(State()) && targetIds == map[]
    }

    constructor()
      ensures State() == World(map[], map[], [], [], map[], [])
      ensures Valid()
    {
      services, targetIds, targets, jobs, settled, reports := map[], map[], [], [], map[], [];
    }

    /** `service(definition)`. */
    method Service(def: ServiceDef) returns (r: Completion<ServiceDef, S.Exception>)
      requires Valid()
      modifies this
      ensures Registration(services, r) == RegisterService(old(services), def)
      ensures State() == old(State()).(services := services)
      ensures Valid()
    {
      if def.id in services {
        var existing := services[def.id];
        if existing.ref == def.ref {
          return Returned(existing);
        }
        return Threw(S.Error(RedefineServiceMessage(def.id)));
      }
      services := services[def.id := def];
      r := Returned(def);
    }

    /** `rule(definition).target(id, config)`, with the new target's constructor. */
    method CreateTarget(id: string, config: Config, rule: RuleDef) returns (r: Completion<nat, S.Exception>)
      requires Valid() && ConfigOk(config, |targets|)
      modifies this
      ensures Step(State(), r) == CreateTargetStep(old(State()), id, config, rule)
      ensures r.Returned?
      ensures Valid()
    {
      if id in targetIds {
        return Threw(S.Error(RedefineTargetMessage(id)));
      }
      var n := |targets|;
      ghost var w := State().(targets := targets + [NewTarget(id, config, rule)]);
      JoinAllKeepsOk(w, TargetsIn(config), n);
      targets := targets + [NewTarget(id, config, rule)];
      RegisterDependencies(config, n);
      r := Returned(n);
    }

    /** `_registerDependencies(config)` for target `id`. */
    method RegisterDependencies(config: Config, id: nat)
      modifies this
      decreases config
      ensures targets == JoinAll(old(targets), TargetsIn(config), id)
      ensures State() == old(State()).(targets := targets)
    {
      match config {
        case Primitive =>
        case TargetRef(t) =>
          if t < |targets| {
            targets := targets[t := targets[t].(dependents := SetAdd(targets[t].dependents, id))];
          }
        case ArrayOf(items) => RegisterItems(items, id);
        case ObjectOf(entries) => RegisterEntries(entries, id);
      }
    }

    /** The walk over an array's elements. */
    method RegisterItems(items: seq<Config>, id: nat)
      modifies this
      decreases items
      ensures targets == JoinAll(old(targets), TargetsInItems(items), id)
      ensures State() == old(State()).(targets := targets)
    {
      var k := 0;
      while k < |items|
        invariant 0 <= k <= |items|
        invariant targets == JoinAll(old(targets), TargetsInItems(items[..k]), id)
        invariant State() == old(State()).(targets := targets)
      {
        ghost var before := targets;
        RegisterDependencies(items[k], id);
        assert items[..k + 1][..k] == items[..k];
        JoinAllAppend(old(targets), TargetsInItems(items[..k]), TargetsIn(items[k]), id);
        k := k + 1;
      }
      assert items[..|items|] == items;
    }

    /** The walk over an object's own keys. */
    method RegisterEntries(entries: seq<Entry>, id: nat)
      modifies this
      decreases entries
      ensures targets == JoinAll(old(targets), TargetsInEntries(entries), id)
      ensures State() == old(State()).(targets := targets)
    {
      var k := 0;
      while k < |entries|
        invariant 0 <= k <= |entries|
        invariant targets == JoinAll(old(targets), TargetsInEntries(entries[..k]), id)
        invariant State() == old(State()).(targets := targets)
      {
        RegisterDependencies(entries[k].value, id);
        assert entries[..k + 1][..k] == entries[..k];
        JoinAllAppend(old(targets), TargetsInEntries(entries[..k]), TargetsIn(entries[k].value), id);
        k := k + 1;
      }
      assert entries[..|entries|] == entries;
    }

    /** `_proposeState(state)`. */
    method Propose(t: nat, st: LState)
      requires Valid() && t < |targets| && !st.Resetting? && !st.Building?
      modifies this
      ensures State() == ProposeState(old(State()), t, st)
      ensures Valid()
    {
      if targets[t].state.Clock() + 1 == st.Clock() {
        targets := targets[t := targets[t].(state := st)];
      }
    }

    method AppendJob(job: Job) returns (j: nat)
      requires Valid() && job.target < |targets|
      modifies this
      ensures Step(State(), j) == AddJob(old(State()), job)
      ensures Valid()
    {
      j := |jobs|;
      jobs := jobs + [job];
    }

    /** `get()`. */
    method Get(t: nat) returns (p: Pending)
      requires Valid() && t < |targets|
      modifies this
      ensures Step(State(), p) == GetStep(old(State()), t)
      ensures Valid()
    {
      var st := targets[t].state;
      match st {
        case Building(_, promise, _, _) => p := Waiting(promise);
        case Fresh(_, _, result) => p := Ready(result);
        case Initial =>
          var reset := AppendJob(ResetJob(t, None, None));
          var build := StartBuild(t, Some(reset));
          p := Waiting(build);
        case Resetting(_, promise, _, _) =>
          var build := StartBuild(t, Some(promise));
          p := Waiting(build);
        case Stale(_, _, _) =>
          var build := StartBuild(t, None);
          p := Waiting(build);
      }
    }

    /** The build job and the `building` state that `get()` installs. */
    method StartBuild(t: nat, after: Option<nat>) returns (j: nat)
      requires Valid() && t < |targets|
      modifies this
      ensures Step(State(), j) == StartBuildStep(old(State()), t, after)
      ensures Valid()
    {
      var st := targets[t].state;
      j := AppendJob(BuildJob(t, after, st.Clock() + 1, st.CachedArgs(), st.CachedResult()));
      targets := targets[t := targets[t].(state := Building(st.Clock() + 1, j, st.CachedArgs(), st.CachedResult()))];
    }

    /** Build job j runs, `build.args` having ended as `args`. */
    method RunBuild(calls: Calls, j: nat, args: Completion<S.Value, S.Exception>, serialize: S.Value -> string) returns (result: TargetResult)
      requires Valid() && Runnable(State(), j) && jobs[j].BuildJob?
      modifies this
      ensures Step(State(), result) == BuildJobStep(calls, old(State()), j, args, serialize)
      ensures Valid()
    {
      var job := jobs[j];
      var t := job.target;
      var o := DoBuild(calls, services, targets[t].rule.build, job.cachedArgs, job.cachedResult, args, serialize);
      services, reports, settled := o.services, reports + [BuildReport(t, o.result, o.usedCache)], settled[j := Built(o.result)];
      if targets[t].state.Clock() == job.buildingClock {
        Propose(t, Fresh(job.buildingClock + 1, o.serializedArgs, o.result));
      }
      result := o.result;
    }

    /** Reset job j runs, `reset.args` having ended as `args`. */
    method RunReset(calls: Calls, j: nat, args: Completion<S.Value, S.Exception>)
      requires Valid() && Runnable(State(), j) && jobs[j].ResetJob?
      requires jobs[j].staleState.Some? ==> jobs[j].staleState.value.Stale?
      modifies this
      ensures State() == ResetJobStep(calls, old(State()), j, args)
      ensures Valid()
    {
      var job := jobs[j];
      var t := job.target;
      var o := DoReset(calls, services, targets[t].rule.reset, args);
      services, settled := o.services, settled[j := ResetDone];
      if o.result.Some? {
        reports := reports + [ResetReport(t, o.result.value)];
      }
      if job.staleState.Some? {
        Propose(t, job.staleState.value);
      }
    }

    /** `reset()`: the promises it then waits for with `Promise.all`. */
    method Reset(t: nat) returns (promises: seq<nat>)
      requires Valid() && t < |targets|
      modifies this
      decreases ActiveCount(targets), 0
      ensures Step(State(), promises) == ResetFrom(old(State()), t)
      ensures Valid()
    {
      var st := targets[t].state;
      if st.Resetting? {
        return [st.promise];
      } else if st.Stale? {
        return [];
      }
      var dependents := targets[t].dependents;
      assert TargetOk(targets[t], |targets|, |jobs|);
      var j := BeginReset(t);
      var rest := ResetDependents(dependents);
      promises := [j] + rest;
    }

    /** The reset job and the `resetting` state that `_recursiveReset` installs. */
    method BeginReset(t: nat) returns (j: nat)
      requires Valid() && t < |targets| && Active(targets[t].state)
      modifies this
      ensures Step(State(), j) == StartResetStep(old(State()), t)
      ensures Valid()
    {
      var st := targets[t].state;
      j := AppendJob(ResetJobFor(t, st));
      targets := targets[t := targets[t].(state := ResettingState(st, j))];
    }

    /** The loop over the dependents of a target that has just started resetting. */
    method ResetDependents(ds: seq<nat>) returns (promises: seq<nat>)
      requires Valid() && forall k :: 0 <= k < |ds| ==> ds[k] < |targets|
      modifies this
      decreases ActiveCount(targets), 2
      ensures Step(State(), promises) == ResetEach(old(State()), ds)
      ensures Valid()
    {
      promises := [];
      ghost var w := State();
      ResetLoopStarts(w, ds);
      var k := 0;
      while k < |ds|
        invariant k <= |ds| && Valid() && ActiveCount(targets) <= ActiveCount(w.targets)
        invariant ResetLoop(w, ds, k, State(), promises)
      {
        promises := ResetNext(w, ds, k, promises);
        k := k + 1;
      }
      ResetLoopEnds(w, ds, State(), promises);
    }

    /** One turn of that loop: the reset of dependent `ds[k]`, its promises appended. */
    method ResetNext(ghost w: World, ds: seq<nat>, k: nat, promises: seq<nat>) returns (r: seq<nat>)
      requires Valid() && k < |ds| && ResetLoop(w, ds, k, State(), promises)
      modifies this
      decreases ActiveCount(targets), 1
      ensures Valid() && ResetLoop(w, ds, k + 1, State(), r)
      ensures ActiveCount(targets) <= ActiveCount(old(targets))
    {
      ghost var before := State();
      ResetEachUnfold(before, ds[k..]);
      assert ds[k..][0] == ds[k] && ds[k..][1..] == ds[k + 1..];
      var pushed := Reset(ds[k]);
      AppendAssociates(promises, pushed, ResetEach(State(), ds[k + 1..]).value);
      r := promises + pushed;
    }
  }
}
