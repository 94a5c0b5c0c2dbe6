// The state of the current engine's `LocalRunner` as a record, and each
// synchronous stretch of its code between two awaits as a transition on
// that record. `build` and `reset` start work: they install `building` or
// `resetting` and hand back a pending handle. `FinishBuildStep` and
// `FinishResetStep` are what runs once the awaited promise and the input
// function have settled (their outcomes are parameters); they propose
// `fresh` or `stale` at the clock fixed when the work started.
// `SettleResetStep` resolves a reset once its dependents' resets have
// settled. The class in `Runner` performs these transitions in place.
module RunnerSteps {
  import opened Common
  import opened Service
  import opened TargetInstances
  import opened RunnerSpec

  /**
   * The work behind a pending promise. A build knows the clock its `fresh`
   * proposal will carry, the caches it saw and the reset it waits for. A
   * reset knows its `stale` clock, the caches it keeps, the build it waits
   * for, its dependents' resets and, once run, its result.
   */
  datatype Job =
    | BuildJob(
        target: TargetInstance,
        freshClock: nat,
        cachedSerializedInput: Option<string>,
        cachedResult: Option<TargetResult>,
        after: Option<Handle>)
    | ResetJob(
        target: TargetInstance,
        staleClock: nat,
        cachedSerializedInput: Option<string>,
        cachedResult: Option<TargetResult>,
        after: Option<Handle>,
        dependents: seq<Pending<ServiceResult>>,
        ended: Option<ServiceResult>)

  datatype Settlement = Resolved(result: TargetResult) | Rejected(error: Exception)

  const InternalErrorMessage: string := "Internal error: proposed target state was rejected."

  /** The target registry, each target's state and its dependents (an insertion-ordered set). */
  datatype TargetTable = TargetTable(
    targets: map<string, TargetInstance>,
    targetStates: map<string, TargetState>,
    targetDependents: map<string, seq<TargetInstance>>)

  /** The listeners, the sequence counter, every listener invocation and every event emitted. */
  datatype EventLog = EventLog(
    listeners: seq<Listener>,
    sequence: nat,
    deliveries: seq<Delivery>,
    emitted: seq<RunnerEvent>)

  /** The promises created, by handle, and those settled. */
  datatype Promises = Promises(nextHandle: nat, jobs: map<Handle, Job>, settled: map<Handle, Settlement>)

  datatype RunnerState = RunnerState(
    services: map<string, ServiceInstance>,
    table: TargetTable,
    log: EventLog,
    promises: Promises)

  /** A transition's new state and what the source code returns. */
  datatype Step<+T> = Step(state: RunnerState, value: T)

  predicate Registered(t: TargetTable, target: TargetInstance)
  {
    IsRegistered(t.targets, target)
  }

  predicate IsRegistered(targets: map<string, TargetInstance>, target: TargetInstance)
  {
    target.id in targets && targets[target.id] == target
  }

  // The invariant, clause by clause, each over the parts it reads, so that a
  // transition re-proves only the clauses over the parts it changes.

  /** The three per-target maps share their keys, and each target sits under its own id. */
  predicate KeysAgree(targets: map<string, TargetInstance>, states: map<string, TargetState>, deps: map<string, seq<TargetInstance>>)
  {
    (forall id :: id in targets ==> id in states && id in deps && targets[id].id == id) &&
    (forall id :: id in states ==> id in targets) &&
    (forall id :: id in deps ==> id in targets)
  }

  /** An `initial` target has no dependents yet. */
  predicate InitialHasNoDependents(states: map<string, TargetState>, deps: map<string, seq<TargetInstance>>)
  {
    forall id :: id in states && states[id].Initial? ==> id in deps && deps[id] == []
  }

  /** Dependents are registered targets. */
  predicate DependentsRegistered(targets: map<string, TargetInstance>, deps: map<string, seq<TargetInstance>>)
  {
    forall id, d :: id in deps && d in deps[id] ==> IsRegistered(targets, d)
  }

  /** Each dependent is listed once. */
  predicate DependentsDistinct(deps: map<string, seq<TargetInstance>>)
  {
    forall id :: id in deps ==> NoDuplicates(deps[id])
  }

  predicate TableConsistent(t: TargetTable)
  {
    KeysAgree(t.targets, t.targetStates, t.targetDependents) &&
    InitialHasNoDependents(t.targetStates, t.targetDependents) &&
    DependentsRegistered(t.targets, t.targetDependents) &&
    DependentsDistinct(t.targetDependents)
  }

  predicate ServicesConsistent(services: map<string, ServiceInstance>)
  {
    forall id :: id in services ==> services[id].id == id
  }

  /** Sequence numbers count the events emitted. */
  predicate LogConsistent(l: EventLog)
  {
    l.sequence == |l.emitted| && forall i :: 0 <= i < |l.emitted| ==> l.emitted[i].sequence == i
  }

  /** A `building` or `resetting` state's promise is a job of that kind for that target. */
  predicate PromiseTracked(jobs: map<Handle, Job>, id: string, state: TargetState)
  {
    (state.Building? ==> state.promise in jobs && jobs[state.promise].BuildJob? && jobs[state.promise].target.id == id) &&
    (state.Resetting? ==> state.promise in jobs && jobs[state.promise].ResetJob? && jobs[state.promise].target.id == id)
  }

  /** Handles are issued once, for registered targets. */
  predicate JobsRegistered(targets: map<string, TargetInstance>, nextHandle: nat, jobs: map<Handle, Job>)
  {
    forall h :: h in jobs ==> h < nextHandle && IsRegistered(targets, jobs[h].target)
  }

  predicate StatesTracked(states: map<string, TargetState>, jobs: map<Handle, Job>)
  {
    forall id :: id in states ==> PromiseTracked(jobs, id, states[id])
  }

  /** Only promises that were created settle. */
  predicate SettledCreated(jobs: map<Handle, Job>, settled: map<Handle, Settlement>)
  {
    forall h :: h in settled ==> h in jobs
  }

  predicate PromisesConsistent(t: TargetTable, p: Promises)
  {
    JobsRegistered(t.targets, p.nextHandle, p.jobs) &&
    StatesTracked(t.targetStates, p.jobs) &&
    SettledCreated(p.jobs, p.settled)
  }

  predicate Invariant(s: RunnerState)
  {
    ServicesConsistent(s.services) && TableConsistent(s.table) && LogConsistent(s.log) &&
    PromisesConsistent(s.table, s.promises)
  }

  function EmptyState(): (s: RunnerState)
    ensures Invariant(s)
  {
    RunnerState(map[], TargetTable(map[], map[], map[]), EventLog([], 0, [], []), Promises(0, map[], map[]))
  }

  // ---- what each kind of change keeps ----

  /** Registering a new target, `initial` with no dependents. */
  lemma TableWithConsistent(s: RunnerState, target: TargetInstance)
    requires Invariant(s) && target.id !in s.table.targets
    ensures Invariant(s.(table := TableWith(s.table, target)))
  {
    var t, t1 := s.table, TableWith(s.table, target);
    NewTargetKeepsKeys(t.targets, t.targetStates, t.targetDependents, target);
    NewTargetKeepsInitial(t.targetStates, t.targetDependents, target);
    NewTargetKeepsDependents(t.targets, t.targetDependents, target);
    NewTargetKeepsJobs(t.targets, s.promises.nextHandle, s.promises.jobs, target);
    assert DependentsDistinct(t1.targetDependents);
    assert StatesTracked(t1.targetStates, s.promises.jobs);
  }

  lemma NewTargetKeepsKeys(targets: map<string, TargetInstance>, states: map<string, TargetState>, deps: map<string, seq<TargetInstance>>, target: TargetInstance)
    requires KeysAgree(targets, states, deps)
    ensures KeysAgree(targets[target.id := target], states[target.id := Initial], deps[target.id := []])
  {
  }

  lemma NewTargetKeepsInitial(states: map<string, TargetState>, deps: map<string, seq<TargetInstance>>, target: TargetInstance)
    requires InitialHasNoDependents(states, deps)
    ensures InitialHasNoDependents(states[target.id := Initial], deps[target.id := []])
  {
  }

  lemma NewTargetKeepsDependents(targets: map<string, TargetInstance>, deps: map<string, seq<TargetInstance>>, target: TargetInstance)
    requires DependentsRegistered(targets, deps) && target.id !in targets
    ensures DependentsRegistered(targets[target.id := target], deps[target.id := []])
  {
    var deps1 := deps[target.id := []];
    forall id, d | id in deps1 && d in deps1[id]
      ensures IsRegistered(targets[target.id := target], d)
    {
      assert IsRegistered(targets, d);
    }
  }

  lemma NewTargetKeepsJobs(targets: map<string, TargetInstance>, nextHandle: nat, jobs: map<Handle, Job>, target: TargetInstance)
    requires JobsRegistered(targets, nextHandle, jobs) && target.id !in targets
    ensures JobsRegistered(targets[target.id := target], nextHandle, jobs)
  {
    forall h | h in jobs ensures IsRegistered(targets[target.id := target], jobs[h].target) {
      assert IsRegistered(targets, jobs[h].target);
    }
  }

  /** Installing a state other than `initial` whose promise is tracked. */
  lemma NewStateConsistent(s: RunnerState, id: string, state: TargetState)
    requires Invariant(s) && id in s.table.targets && !state.Initial? && PromiseTracked(s.promises.jobs, id, state)
    ensures Invariant(s.(table := s.table.(targetStates := s.table.targetStates[id := state])))
  {
    var t := s.table;
    NewStateKeepsKeys(t.targets, t.targetStates, t.targetDependents, id, state);
    NewStateKeepsInitial(t.targetStates, t.targetDependents, id, state);
    NewStateKeepsTracked(t.targetStates, s.promises.jobs, id, state);
  }

  lemma NewStateKeepsKeys(targets: map<string, TargetInstance>, states: map<string, TargetState>, deps: map<string, seq<TargetInstance>>, id: string, state: TargetState)
    requires KeysAgree(targets, states, deps) && id in targets
    ensures KeysAgree(targets, states[id := state], deps)
  {
  }

  lemma NewStateKeepsInitial(states: map<string, TargetState>, deps: map<string, seq<TargetInstance>>, id: string, state: TargetState)
    requires InitialHasNoDependents(states, deps) && !state.Initial?
    ensures InitialHasNoDependents(states[id := state], deps)
  {
  }

  lemma NewStateKeepsTracked(states: map<string, TargetState>, jobs: map<Handle, Job>, id: string, state: TargetState)
    requires StatesTracked(states, jobs) && PromiseTracked(jobs, id, state)
    ensures StatesTracked(states[id := state], jobs)
  {
  }

  /** Adding a job under a handle not issued before. */
  lemma NewJobConsistent(s: RunnerState, job: Job)
    requires Invariant(s) && Registered(s.table, job.target)
    ensures Invariant(s.(promises := s.promises.(nextHandle := s.promises.nextHandle + 1,
                                                 jobs := s.promises.jobs[s.promises.nextHandle := job])))
  {
    NewJobKeepsRegistered(s.table.targets, s.promises.nextHandle, s.promises.jobs, job);
    NewJobKeepsTracked(s.table.targetStates, s.promises.jobs, s.promises.nextHandle, job);
  }

  lemma NewJobKeepsRegistered(targets: map<string, TargetInstance>, nextHandle: nat, jobs: map<Handle, Job>, job: Job)
    requires JobsRegistered(targets, nextHandle, jobs) && IsRegistered(targets, job.target)
    ensures JobsRegistered(targets, nextHandle + 1, jobs[nextHandle := job])
  {
  }

  lemma NewJobKeepsTracked(states: map<string, TargetState>, jobs: map<Handle, Job>, h: Handle, job: Job)
    requires StatesTracked(states, jobs) && h !in jobs
    ensures StatesTracked(states, jobs[h := job])
  {
    forall id | id in states ensures PromiseTracked(jobs[h := job], id, states[id]) {
      assert PromiseTracked(jobs, id, states[id]);
    }
  }

  /** Changing a job's recorded data but not its kind or target. */
  lemma JobUpdateConsistent(s: RunnerState, h: Handle, job: Job)
    requires Invariant(s) && h in s.promises.jobs
    requires job.BuildJob? == s.promises.jobs[h].BuildJob? && job.target == s.promises.jobs[h].target
    ensures Invariant(s.(promises := s.promises.(jobs := s.promises.jobs[h := job])))
  {
    JobUpdateKeepsRegistered(s.table.targets, s.promises.nextHandle, s.promises.jobs, h, job);
    JobUpdateKeepsTracked(s.table.targetStates, s.promises.jobs, h, job);
  }

  lemma JobUpdateKeepsRegistered(targets: map<string, TargetInstance>, nextHandle: nat, jobs: map<Handle, Job>, h: Handle, job: Job)
    requires JobsRegistered(targets, nextHandle, jobs) && h in jobs && job.target == jobs[h].target
    ensures JobsRegistered(targets, nextHandle, jobs[h := job])
  {
  }

  lemma JobUpdateKeepsTracked(states: map<string, TargetState>, jobs: map<Handle, Job>, h: Handle, job: Job)
    requires StatesTracked(states, jobs) && h in jobs
    requires job.BuildJob? == jobs[h].BuildJob? && job.target == jobs[h].target
    ensures StatesTracked(states, jobs[h := job])
  {
    forall id | id in states ensures PromiseTracked(jobs[h := job], id, states[id]) {
      assert PromiseTracked(jobs, id, states[id]);
    }
  }

  /**
   * From `l0` to `l1` the listeners stayed, the events emitted extend the
   * earlier ones, and the listener invocations since then are exactly
   * those for these events.
   */
  ghost predicate NotifiedSince(l0: EventLog, l1: EventLog)
  {
    l1.listeners == l0.listeners &&
    |l0.emitted| <= |l1.emitted| && l1.emitted[..|l0.emitted|] == l0.emitted &&
    l1.deliveries == l0.deliveries + NotifyAll(l1.listeners, l1.emitted[|l0.emitted|..])
  }

  lemma NotifiedSinceTransitive(l0: EventLog, l1: EventLog, l2: EventLog)
    requires NotifiedSince(l0, l1) && NotifiedSince(l1, l2)
    ensures NotifiedSince(l0, l2)
  {
    var n0, n1 := |l0.emitted|, |l1.emitted|;
    assert l2.emitted[..n1][..n0] == l2.emitted[..n0];
    assert l2.emitted[n0..] == l1.emitted[n0..] + l2.emitted[n1..] by {
      assert l2.emitted[n0..] == l2.emitted[n0..n1] + l2.emitted[n1..];
      assert l2.emitted[n0..n1] == l2.emitted[..n1][n0..];
    }
    NotifyAllAppend(l2.listeners, l1.emitted[n0..], l2.emitted[n1..]);
  }

  lemma NotifiedSinceReflexive(l: EventLog)
    ensures NotifiedSince(l, l)
  {
    assert l.emitted[|l.emitted|..] == [];
    assert l.emitted[..|l.emitted|] == l.emitted;
  }

  // ---- on, _emit ----

  /** `on(type, listener)`: the listener goes last. */
  function SubscribeStep(s: RunnerState, listenFor: ListenFor, throws: RunnerEvent -> bool): (r: RunnerState)
    requires Invariant(s)
    ensures Invariant(r)
    ensures r.log.listeners == s.log.listeners + [Listener(listenFor, throws)]
    ensures r == s.(log := s.log.(listeners := r.log.listeners))
  {
    s.(log := s.log.(listeners := s.log.listeners + [Listener(listenFor, throws)]))
  }

  /** The log after emitting the event with the next sequence number. */
  function EmitLog(l: EventLog, body: EventBody, target: TargetInstance): (r: EventLog)
    requires LogConsistent(l)
    ensures LogConsistent(r)
    ensures r.emitted == l.emitted + [RunnerEvent(body, target, |l.emitted|)]
    ensures r.deliveries == l.deliveries + Notify(l.listeners, RunnerEvent(body, target, |l.emitted|))
    ensures NotifiedSince(l, r)
  {
    var event := RunnerEvent(body, target, l.sequence);
    var r := EventLog(l.listeners, l.sequence + 1, l.deliveries + Notify(l.listeners, event), l.emitted + [event]);
    assert r.emitted[|l.emitted|..] == [event];
    assert r.emitted[..|l.emitted|] == l.emitted;
    assert NotifyAll(l.listeners, [event]) == Notify(l.listeners, event) by {
      assert [event][..0] == [];
    }
    r
  }

  /**
   * `_emit`: the event takes the next sequence number (the number of
   * events before it), and the listeners whose type matches are invoked
   * with it, in order; nothing but the log changes.
   */
  function EmitStep(s: RunnerState, body: EventBody, target: TargetInstance): (r: RunnerState)
    requires Invariant(s)
    ensures Invariant(r)
    ensures r == s.(log := EmitLog(s.log, body, target))
  {
    s.(log := EmitLog(s.log, body, target))
  }

  // ---- registration ----

  /** `_asServiceInstance`: registers a new id, accepts the same instance again, throws on a different one. */
  function RegisterServiceStep(s: RunnerState, service: ServiceInstance): (r: Step<Completion<ServiceInstance, Exception>>)
    requires Invariant(s)
    ensures Invariant(r.state)
    ensures r.value.Threw? <==> ServiceClash(s.services, service)
    ensures r.value.Threw? ==> r.value.error == Error(DuplicateServiceMessage(service.id)) && r.state == s
    ensures r.value.Returned? ==> r.value.value == service && r.state == s.(services := s.services[service.id := service])
  {
    if service.id !in s.services then Step(s.(services := s.services[service.id := service]), Returned(service))
    else if s.services[service.id] != service then Step(s, Threw(Error(DuplicateServiceMessage(service.id))))
    else
      assert s.services[service.id := service] == s.services;
      Step(s, Returned(service))
  }

  /** The table with `target` registered `initial` (clock 0, no caches) and with no dependents. */
  function TableWith(t: TargetTable, target: TargetInstance): TargetTable
  {
    TargetTable(t.targets[target.id := target], t.targetStates[target.id := Initial], t.targetDependents[target.id := []])
  }

  /**
   * `_asTargetInstance`: a first-time target is registered `initial` with
   * no dependents; the same instance again changes nothing; a different
   * instance under a registered id throws.
   */
  function RegisterTargetStep(s: RunnerState, target: TargetInstance): (r: Step<Completion<TargetInstance, Exception>>)
    requires Invariant(s)
    ensures Invariant(r.state)
    ensures r.value.Threw? <==> TargetClash(s.table.targets, target)
    ensures r.value.Threw? ==> r.value.error == Error(DuplicateTargetMessage(target.id))
    ensures r.value.Returned? ==> r.value.value == target && Registered(r.state.table, target)
    ensures r.state == if r.value.Returned? && target.id !in s.table.targets then s.(table := TableWith(s.table, target)) else s
  {
    if target.id !in s.table.targets then
      TableWithConsistent(s, target);
      Step(s.(table := TableWith(s.table, target)), Returned(target))
    else if s.table.targets[target.id] != target then Step(s, Threw(Error(DuplicateTargetMessage(target.id))))
    else Step(s, Returned(target))
  }

  // ---- _proposeTargetState, _setTargetState ----

  /** `_proposeTargetState`: installs `state` exactly when its clock is the current clock plus one. */
  function ProposeStep(s: RunnerState, target: TargetInstance, state: TargetState): (r: Step<bool>)
    requires Invariant(s) && Registered(s.table, target) && PromiseTracked(s.promises.jobs, target.id, state)
    ensures Invariant(r.state)
    ensures r.value <==> Accepts(s.table.targetStates[target.id], state)
    ensures r.state == if r.value then s.(table := s.table.(targetStates := s.table.targetStates[target.id := state])) else s
  {
    if s.table.targetStates[target.id].Clock() + 1 == state.Clock() then
      NewStateConsistent(s, target.id, state);
      Step(s.(table := s.table.(targetStates := s.table.targetStates[target.id := state])), true)
    else Step(s, false)
  }

  /** `_setTargetState`: a proposal that must be accepted; a rejection is an internal error. */
  function SetTargetStateStep(s: RunnerState, target: TargetInstance, state: TargetState): (r: Step<Completion<(), Exception>>)
    requires Invariant(s) && Registered(s.table, target) && PromiseTracked(s.promises.jobs, target.id, state)
    ensures Invariant(r.state)
    ensures r.value.Returned? <==> Accepts(s.table.targetStates[target.id], state)
    ensures r.value.Threw? ==> r.value.error == Error(InternalErrorMessage)
    ensures r.state == ProposeStep(s, target, state).state
  {
    var proposed := ProposeStep(s, target, state);
    Step(proposed.state, if proposed.value then Returned(()) else Threw(Error(InternalErrorMessage)))
  }

  // ---- promises ----

  /** Creating a promise for `job`: it takes the next handle, which no job had. */
  function CreatePromiseStep(s: RunnerState, job: Job): (r: Step<Handle>)
    requires Invariant(s) && Registered(s.table, job.target)
    ensures Invariant(r.state)
    ensures r.value == s.promises.nextHandle && r.value !in s.promises.jobs
    ensures r.state == s.(promises := s.promises.(nextHandle := r.value + 1, jobs := s.promises.jobs[r.value := job]))
  {
    var h := s.promises.nextHandle;
    NewJobConsistent(s, job);
    Step(s.(promises := s.promises.(nextHandle := h + 1, jobs := s.promises.jobs[h := job])), h)
  }

  // ---- call ----

  /**
   * `call(service, input)`: registration happens inside the `try`, so a
   * clash yields `failed` and leaves the registry alone; otherwise the
   * service is registered and the result is what its run makes of it.
   */
  function CallStep(s: RunnerState, service: ServiceInstance, input: Value): (r: Step<ServiceResult>)
    requires Invariant(s)
    ensures Invariant(r.state)
    ensures r.value == CallOutcome(s.services, service, input)
    ensures r.state == s.(services := if ServiceClash(s.services, service) then s.services else s.services[service.id := service])
  {
    var registered := RegisterServiceStep(s, service);
    if registered.value.Threw? then Step(registered.state, Failed(Join([Inspect(registered.value.error)], "\n")))
    else Step(registered.state, CallRun(service.run(input)))
  }

  /** `call` on a service that is registered already changes nothing and runs it. */
  lemma CallRegistered(s: RunnerState, service: ServiceInstance, input: Value)
    requires Invariant(s) && ServiceRegistered(s.services, service)
    ensures CallStep(s, service, input) == Step(s, CallRun(service.run(input)))
  {
    assert s.services[service.id := service] == s.services;
  }

  // ---- build ----

  /**
   * The dispatch of `build` on a registered target that is not `initial`:
   * `building` answers with its in-flight promise and `fresh` with the
   * cached result, changing nothing; `resetting` and `stale` start a build
   * (see `StartBuildFromReset`).
   */
  function StartBuildStep(s: RunnerState, target: TargetInstance): (r: Step<Pending<TargetResult>>)
    requires Invariant(s) && Registered(s.table, target) && !s.table.targetStates[target.id].Initial?
    ensures Invariant(r.state)
    ensures r.state.table.targets == s.table.targets && r.state.table.targetDependents == s.table.targetDependents
    ensures target.id in r.state.table.targetStates
    ensures !s.table.targetStates[target.id].Fresh? ==> r.state.table.targetStates[target.id].Building?
    ensures !s.table.targetStates[target.id].IsResetOrStale() ==> r.state == s
  {
    var state := s.table.targetStates[target.id];
    if state.Building? then Step(s, Waiting(state.promise))
    else if state.Fresh? then Step(s, Ready(state.result))
    else
      var h := s.promises.nextHandle;
      var job := BuildJob(target, state.clock + 2, state.cachedSerializedInput, state.cachedResult,
        if state.Resetting? then Some(state.promise) else None);
      var s1 := s.(promises := s.promises.(nextHandle := h + 1, jobs := s.promises.jobs[h := job]));
      var building := Building(state.clock + 1, h, state.cachedSerializedInput, state.cachedResult);
      NewJobConsistent(s, job);
      NewStateConsistent(s1, target.id, building);
      Step(s1.(table := s.table.(targetStates := s.table.targetStates[target.id := building]),
               log := EmitLog(s.log, BuildStart, target)), Waiting(h))
  }

  /**
   * On `building`, `build` answers with the build in flight, and on
   * `fresh` with the result held; neither changes anything.
   */
  lemma StartBuildWhenBuiltOrBuilding(s: RunnerState, target: TargetInstance)
    requires Invariant(s) && Registered(s.table, target)
    requires s.table.targetStates[target.id].Building? || s.table.targetStates[target.id].Fresh?
    ensures var r := StartBuildStep(s, target);
      var c := s.table.targetStates[target.id];
      r.state == s && r.value == if c.Building? then Waiting(c.promise) else Ready(c.result)
  {
  }

  /**
   * From `resetting` or `stale` at clock c, `build` creates the build (to
   * propose `fresh` at c + 2 once the reset has settled, with the caches
   * seen now), installs `building` at c + 1 with the same caches and emits
   * `targetBuildStart`; nothing else changes.
   */
  lemma StartBuildFromReset(s: RunnerState, target: TargetInstance)
    requires Invariant(s) && Registered(s.table, target) && s.table.targetStates[target.id].IsResetOrStale()
    ensures var r := StartBuildStep(s, target);
      var c := s.table.targetStates[target.id];
      var h := s.promises.nextHandle;
      r.value == Waiting(h) &&
      r.state.services == s.services &&
      r.state.table == s.table.(targetStates := s.table.targetStates[target.id := Building(c.clock + 1, h, c.cachedSerializedInput, c.cachedResult)]) &&
      r.state.promises == s.promises.(nextHandle := h + 1, jobs := s.promises.jobs[h :=
        BuildJob(target, c.clock + 2, c.cachedSerializedInput, c.cachedResult, if c.Resetting? then Some(c.promise) else None)]) &&
      r.state.log == EmitLog(s.log, BuildStart, target)
  {
  }

  /** The build `build` creates from `resetting` or `stale`. */
  function BuildJobFor(target: TargetInstance, state: TargetState): Job
    requires state.IsResetOrStale()
  {
    BuildJob(target, state.clock + 2, state.cachedSerializedInput, state.cachedResult,
      if state.Resetting? then Some(state.promise) else None)
  }

  /**
   * The first half of a build from `resetting` or `stale`: the build's
   * promise, then `_setTargetState` with `building` one clock on, which the
   * check accepts.
   */
  function BuildInstalledStep(s: RunnerState, target: TargetInstance): (r: Step<Handle>)
    requires Invariant(s) && Registered(s.table, target) && s.table.targetStates[target.id].IsResetOrStale()
    ensures Invariant(r.state) && Registered(r.state.table, target)
  {
    var c := s.table.targetStates[target.id];
    var created := CreatePromiseStep(s, BuildJobFor(target, c));
    var building := Building(c.clock + 1, created.value, c.cachedSerializedInput, c.cachedResult);
    StartBuildFromReset(s, target);
    Step(SetTargetStateStep(created.state, target, building).state, created.value)
  }

  /** ... followed by `targetBuildStart`, that is the whole of `build` from `resetting` or `stale`. */
  lemma StartBuildComposes(s: RunnerState, target: TargetInstance)
    requires Invariant(s) && Registered(s.table, target) && s.table.targetStates[target.id].IsResetOrStale()
    ensures var installed := BuildInstalledStep(s, target);
      StartBuildStep(s, target) == Step(EmitStep(installed.state, BuildStart, target), Waiting(installed.value))
  {
    StartBuildFromReset(s, target);
  }

  // ---- reset ----

  /** The promise a reset hands back for a target in `resetting` or `stale`. */
  function ResetPromiseOf(state: TargetState): (p: Pending<ServiceResult>)
    requires state.IsResetOrStale()
    ensures p.Waiting? <==> state.Resetting?
    ensures state.Resetting? ==> p.handle == state.promise
    ensures state.Stale? ==> p.value == state.resetResult
  {
    if state.Resetting? then Waiting(state.promise) else Ready(state.resetResult)
  }

  /** The ids whose state is neither `resetting` nor `stale`. */
  function NonResetIds(states: map<string, TargetState>): set<string>
  {
    set id | id in states && !states[id].IsResetOrStale()
  }

  function NonResetCount(s: RunnerState): nat
  {
    |NonResetIds(s.table.targetStates)|
  }

  lemma SubsetCardinality<T>(a: set<T>, b: set<T>)
    requires a <= b
    ensures |a| <= |b|
  {
    assert b == a + (b - a);
  }

  lemma InstallingResetDecreases(before: map<string, TargetState>, id: string, state: TargetState)
    requires id in before && !before[id].IsResetOrStale() && state.IsResetOrStale()
    ensures |NonResetIds(before[id := state])| < |NonResetIds(before)|
  {
    assert NonResetIds(before[id := state]) == NonResetIds(before) - {id};
  }

  /** `resetting` and `stale` states stay as they were, and the ids stay the same. */
  predicate ResetsKept(before: map<string, TargetState>, after: map<string, TargetState>)
  {
    before.Keys == after.Keys &&
    forall id :: id in before && before[id].IsResetOrStale() ==> after[id] == before[id]
  }

  lemma ResetsKeptTransitive(s0: map<string, TargetState>, s1: map<string, TargetState>, s2: map<string, TargetState>)
    requires ResetsKept(s0, s1) && ResetsKept(s1, s2)
    ensures ResetsKept(s0, s2)
    ensures |NonResetIds(s2)| <= |NonResetIds(s0)|
  {
    assert NonResetIds(s2) <= NonResetIds(s0);
    SubsetCardinality(NonResetIds(s2), NonResetIds(s0));
  }

  /** Existing jobs stay as they are; new ones get handles not issued before. */
  predicate JobsKept(before: Promises, after: Promises)
  {
    after.nextHandle >= before.nextHandle && after.settled == before.settled &&
    forall h :: h in before.jobs ==> h in after.jobs && after.jobs[h] == before.jobs[h]
  }

  /**
   * What a reset cascade from `s` to `r` leaves alone: services, targets,
   * dependents, listeners and settlements; jobs are only added;
   * `resetting` and `stale` states stay.
   */
  ghost predicate CascadeKeeps(s: RunnerState, r: RunnerState)
  {
    r.services == s.services && r.table.targets == s.table.targets &&
    r.table.targetDependents == s.table.targetDependents && r.log.listeners == s.log.listeners &&
    ResetsKept(s.table.targetStates, r.table.targetStates) &&
    JobsKept(s.promises, r.promises) &&
    NonResetCount(r) <= NonResetCount(s)
  }

  lemma CascadeKeepsTransitive(s0: RunnerState, s1: RunnerState, s2: RunnerState)
    requires CascadeKeeps(s0, s1) && CascadeKeeps(s1, s2)
    ensures CascadeKeeps(s0, s2)
  {
    ResetsKeptTransitive(s0.table.targetStates, s1.table.targetStates, s2.table.targetStates);
  }

  /**
   * `reset` on a registered target. `resetting` answers with its promise
   * and `stale` with its reset result, changing nothing. Otherwise, at
   * clock c, the reset is created (waiting for the running build, if any,
   * and later proposing `stale` at c + 2 with the same caches), `resetting`
   * is installed at c + 1, `targetResetStart` is emitted, and then every
   * current dependent is reset, in order; the reset's job remembers their
   * promises. Either way the target ends `resetting` or `stale` and the
   * promise handed back is that state's.
   */
  function ResetCascade(s: RunnerState, target: TargetInstance): (r: Step<Pending<ServiceResult>>)
    requires Invariant(s) && Registered(s.table, target)
    decreases NonResetCount(s), 0, 0
    ensures Invariant(r.state)
    ensures CascadeKeeps(s, r.state)
    ensures r.state.table.targetStates[target.id].IsResetOrStale()
    ensures r.value == ResetPromiseOf(r.state.table.targetStates[target.id])
  {
    var state := s.table.targetStates[target.id];
    if state.IsResetOrStale() then Step(s, ResetPromiseOf(state))
    else
      var started := ResetStartStep(s, target);
      var h := s.promises.nextHandle;
      var each := ResetEach(started, started.table.targetDependents[target.id]);
      var r := RecordDependentsStep(each.state, h, each.value);
      ResetCascadeCloses(s, started, each.state, r, target);
      Step(r, Waiting(h))
  }

  lemma ResetCascadeCloses(s: RunnerState, started: RunnerState, s4: RunnerState, r: RunnerState, target: TargetInstance)
    requires Invariant(s) && Registered(s.table, target) && !s.table.targetStates[target.id].IsResetOrStale()
    requires CascadeKeeps(s, started) && NonResetCount(started) < NonResetCount(s)
    requires started.table.targetStates[target.id] == ResetPromiseState(s.table.targetStates[target.id], s.promises.nextHandle)
    requires started.promises.nextHandle == s.promises.nextHandle + 1
    requires s.promises.nextHandle in started.promises.jobs && started.promises.jobs[s.promises.nextHandle].ResetJob?
    requires CascadeKeeps(started, s4)
    requires r.services == s4.services && r.table == s4.table && r.log == s4.log
    requires r.promises.nextHandle == s4.promises.nextHandle && r.promises.settled == s4.promises.settled
    requires s.promises.nextHandle in r.promises.jobs
    requires r.promises.jobs == s4.promises.jobs[s.promises.nextHandle := r.promises.jobs[s.promises.nextHandle]]
    ensures CascadeKeeps(s, r)
    ensures r.table.targetStates[target.id] == started.table.targetStates[target.id]
  {
    CascadeKeepsTransitive(s, started, s4);
  }

  /**
   * The first part of a reset from a state other than `resetting` and
   * `stale` at clock c: the reset's job, `resetting` at c + 1 and
   * `targetResetStart`.
   */
  function ResetStartStep(s: RunnerState, target: TargetInstance): (r: RunnerState)
    requires Invariant(s) && Registered(s.table, target) && !s.table.targetStates[target.id].IsResetOrStale()
    ensures Invariant(r)
    ensures CascadeKeeps(s, r) && NonResetCount(r) < NonResetCount(s)
    ensures r.services == s.services
    ensures r.table == s.table.(targetStates := s.table.targetStates[target.id :=
      ResetPromiseState(s.table.targetStates[target.id], s.promises.nextHandle)])
    ensures r.promises == s.promises.(nextHandle := s.promises.nextHandle + 1, jobs := s.promises.jobs[s.promises.nextHandle :=
      ResetJobFor(target, s.table.targetStates[target.id], [])])
    ensures r.log == EmitLog(s.log, ResetStart, target)
  {
    var state := s.table.targetStates[target.id];
    var h := s.promises.nextHandle;
    var s1 := s.(promises := s.promises.(nextHandle := h + 1, jobs := s.promises.jobs[h := ResetJobFor(target, state, [])]));
    NewJobConsistent(s, ResetJobFor(target, state, []));
    NewStateConsistent(s1, target.id, ResetPromiseState(state, h));
    var r := s1.(table := s.table.(targetStates := s.table.targetStates[target.id := ResetPromiseState(state, h)]),
                 log := EmitLog(s.log, ResetStart, target));
    InstallingResetKeeps(s, r, target.id, ResetPromiseState(state, h), ResetJobFor(target, state, []));
    r
  }

  /** Installing a reset on a target that was neither `resetting` nor `stale`, with a new job, is one cascade step. */
  lemma InstallingResetKeeps(s: RunnerState, r: RunnerState, id: string, state: TargetState, job: Job)
    requires Invariant(s) && id in s.table.targetStates && !s.table.targetStates[id].IsResetOrStale() && state.IsResetOrStale()
    requires r.services == s.services && r.table == s.table.(targetStates := s.table.targetStates[id := state])
    requires r.log.listeners == s.log.listeners
    requires r.promises == s.promises.(nextHandle := s.promises.nextHandle + 1, jobs := s.promises.jobs[s.promises.nextHandle := job])
    ensures CascadeKeeps(s, r) && NonResetCount(r) < NonResetCount(s)
  {
    InstallingResetDecreases(s.table.targetStates, id, state);
  }

  /** `resetting`, one clock on, with promise `h` and the caches of `state`. */
  function ResetPromiseState(state: TargetState, h: Handle): TargetState
  {
    Resetting(state.Clock() + 1, h, state.CachedInput(), state.CachedResult())
  }

  /** The reset started from `state`: waits for the build in flight, proposes `stale` two clocks on. */
  function ResetJobFor(target: TargetInstance, state: TargetState, dependents: seq<Pending<ServiceResult>>): Job
  {
    ResetJob(target, state.Clock() + 2, state.CachedInput(), state.CachedResult(),
      if state.Building? then Some(state.promise) else None, dependents, None)
  }

  /** Resets each of `dependents` in order, collecting their promises. */
  function ResetEach(s: RunnerState, dependents: seq<TargetInstance>): (r: Step<seq<Pending<ServiceResult>>>)
    requires Invariant(s) && forall d :: d in dependents ==> IsRegistered(s.table.targets, d)
    decreases NonResetCount(s), 1, |dependents|
    ensures Invariant(r.state)
    ensures CascadeKeeps(s, r.state)
    ensures |r.value| == |dependents|
  {
    if |dependents| == 0 then Step(s, [])
    else
      var first := ResetCascade(s, dependents[0]);
      var rest := ResetEach(first.state, dependents[1..]);
      CascadeKeepsTransitive(s, first.state, rest.state);
      Step(rest.state, [first.value] + rest.value)
  }

  /** A reset's job records the promises of its dependents' resets. */
  function RecordDependentsStep(s: RunnerState, h: Handle, promises: seq<Pending<ServiceResult>>): (r: RunnerState)
    requires Invariant(s) && h in s.promises.jobs && s.promises.jobs[h].ResetJob?
    ensures Invariant(r)
    ensures r == s.(promises := s.promises.(jobs := s.promises.jobs[h := s.promises.jobs[h].(dependents := promises)]))
  {
    JobUpdateConsistent(s, h, s.promises.jobs[h].(dependents := promises));
    s.(promises := s.promises.(jobs := s.promises.jobs[h := s.promises.jobs[h].(dependents := promises)]))
  }

  // ---- what a reset cascade does ----

  /** `after` is `resetting` one clock past `before`, with `before`'s caches. */
  predicate ResetFrom(before: TargetState, after: TargetState)
  {
    after.Resetting? && after.clock == before.Clock() + 1 &&
    after.cachedSerializedInput == before.CachedInput() && after.cachedResult == before.CachedResult()
  }

  /** Every dependent of `id` is `resetting` or `stale` in `t`. */
  predicate DependentsReset(t: TargetTable, id: string)
  {
    id in t.targetDependents &&
    forall k :: 0 <= k < |t.targetDependents[id]| ==>
      t.targetDependents[id][k].id in t.targetStates && t.targetStates[t.targetDependents[id][k].id].IsResetOrStale()
  }

  /**
   * The states of `t` arose from `before` by a reset cascade: every state
   * that changed became `resetting` one clock on with the same caches, and
   * every dependent of it is now `resetting` or `stale`.
   */
  predicate CascadeFrom(before: map<string, TargetState>, t: TargetTable)
  {
    forall id :: id in before && id in t.targetStates && t.targetStates[id] != before[id] ==>
      ResetFrom(before[id], t.targetStates[id]) && DependentsReset(t, id)
  }

  lemma CascadeFromTransitive(s0: RunnerState, s1: RunnerState, s2: RunnerState)
    requires CascadeKeeps(s0, s1) && CascadeKeeps(s1, s2)
    requires CascadeFrom(s0.table.targetStates, s1.table) && CascadeFrom(s1.table.targetStates, s2.table)
    ensures CascadeFrom(s0.table.targetStates, s2.table)
  {
    var b0, b1, t2 := s0.table.targetStates, s1.table.targetStates, s2.table;
    forall id | id in b0 && id in t2.targetStates && t2.targetStates[id] != b0[id]
      ensures ResetFrom(b0[id], t2.targetStates[id]) && DependentsReset(t2, id)
    {
      if b1[id] != b0[id] {
        assert DependentsReset(s1.table, id);
      }
    }
  }

  /**
   * A cascade changes states only as a reset would, and leaves every target
   * it reset with all its dependents `resetting` or `stale`.
   */
  lemma {:induction false} ResetCascadeClosed(s: RunnerState, target: TargetInstance)
    requires Invariant(s) && Registered(s.table, target)
    decreases NonResetCount(s), 0, 0
    ensures CascadeFrom(s.table.targetStates, ResetCascade(s, target).state.table)
  {
    var state := s.table.targetStates[target.id];
    if !state.IsResetOrStale() {
      var started := ResetStartStep(s, target);
      var dependents := started.table.targetDependents[target.id];
      ResetEachClosed(started, dependents);
      ResetEachResets(started, dependents);
      var r := ResetCascade(s, target).state;
      assert r.table == ResetEach(started, dependents).state.table;
      assert DependentsReset(r.table, target.id);
      CascadeFromFirstReset(s.table.targetStates, started.table.targetStates, r.table, target.id);
    }
  }

  /** A reset of `id` followed by a cascade that leaves its dependents reset is a cascade. */
  lemma CascadeFromFirstReset(before: map<string, TargetState>, started: map<string, TargetState>, t: TargetTable, id: string)
    requires id in before && id in started && started == before[id := started[id]] && ResetFrom(before[id], started[id])
    requires CascadeFrom(started, t) && id in t.targetStates && t.targetStates[id] == started[id]
    requires DependentsReset(t, id)
    ensures CascadeFrom(before, t)
  {
    forall x | x in before && x in t.targetStates && t.targetStates[x] != before[x]
      ensures ResetFrom(before[x], t.targetStates[x]) && DependentsReset(t, x)
    {
      if x != id {
        assert started[x] == before[x];
      }
    }
  }

  /** Resetting each of `dependents` is a cascade. */
  lemma {:induction false} ResetEachClosed(s: RunnerState, dependents: seq<TargetInstance>)
    requires Invariant(s) && forall d :: d in dependents ==> IsRegistered(s.table.targets, d)
    decreases NonResetCount(s), 1, |dependents|
    ensures CascadeFrom(s.table.targetStates, ResetEach(s, dependents).state.table)
  {
    if |dependents| > 0 {
      var first := ResetCascade(s, dependents[0]);
      ResetCascadeClosed(s, dependents[0]);
      var rest := ResetEach(first.state, dependents[1..]);
      ResetEachClosed(first.state, dependents[1..]);
      CascadeFromTransitive(s, first.state, rest.state);
    }
  }

  /**
   * Resetting each of `dependents` leaves each of them `resetting` or
   * `stale`, and the promises collected are those states'.
   */
  lemma {:induction false} ResetEachResets(s: RunnerState, dependents: seq<TargetInstance>)
    requires Invariant(s) && forall d :: d in dependents ==> IsRegistered(s.table.targets, d)
    decreases |dependents|
    ensures var r := ResetEach(s, dependents); PromisesOf(r.state.table, dependents, r.value)
  {
    if |dependents| > 0 {
      var first := ResetCascade(s, dependents[0]);
      var tail := dependents[1..];
      assert forall k :: 0 <= k < |tail| ==> tail[k] == dependents[k + 1];
      var rest := ResetEach(first.state, tail);
      ResetEachResets(first.state, tail);
      var r := ResetEach(s, dependents);
      assert r.value == [first.value] + rest.value;
      forall k | 0 <= k < |dependents|
        ensures dependents[k].id in r.state.table.targetStates && r.state.table.targetStates[dependents[k].id].IsResetOrStale()
        ensures r.value[k] == ResetPromiseOf(r.state.table.targetStates[dependents[k].id])
      {
        if k > 0 {
          assert dependents[k] == tail[k - 1];
        }
      }
    }
  }

  /** Every event emitted from `l0` to `l1` is a `targetResetStart`, and the listeners saw exactly those. */
  ghost predicate OnlyResetStarts(l0: EventLog, l1: EventLog)
  {
    NotifiedSince(l0, l1) &&
    forall i :: |l0.emitted| <= i < |l1.emitted| ==> l1.emitted[i].body == ResetStart
  }

  lemma OnlyResetStartsTransitive(l0: EventLog, l1: EventLog, l2: EventLog)
    requires OnlyResetStarts(l0, l1) && OnlyResetStarts(l1, l2)
    ensures OnlyResetStarts(l0, l2)
  {
    NotifiedSinceTransitive(l0, l1, l2);
    forall i | |l0.emitted| <= i < |l1.emitted| ensures l2.emitted[i].body == ResetStart {
      assert l2.emitted[i] == l2.emitted[..|l1.emitted|][i];
    }
  }

  lemma EmitResetStartOnly(l: EventLog, target: TargetInstance)
    requires LogConsistent(l)
    ensures OnlyResetStarts(l, EmitLog(l, ResetStart, target))
  {
  }

  /** A cascade emits only `targetResetStart` events, each delivered to the matching listeners. */
  lemma {:induction false} ResetCascadeEvents(s: RunnerState, target: TargetInstance)
    requires Invariant(s) && Registered(s.table, target)
    decreases NonResetCount(s), 0, 0
    ensures OnlyResetStarts(s.log, ResetCascade(s, target).state.log)
  {
    var state := s.table.targetStates[target.id];
    if state.IsResetOrStale() {
      NotifiedSinceReflexive(s.log);
    } else {
      var started := ResetStartStep(s, target);
      var dependents := started.table.targetDependents[target.id];
      ResetEachEvents(started, dependents);
      EmitResetStartOnly(s.log, target);
      OnlyResetStartsTransitive(s.log, started.log, ResetEach(started, dependents).state.log);
    }
  }

  lemma {:induction false} ResetEachEvents(s: RunnerState, dependents: seq<TargetInstance>)
    requires Invariant(s) && forall d :: d in dependents ==> IsRegistered(s.table.targets, d)
    decreases NonResetCount(s), 1, |dependents|
    ensures OnlyResetStarts(s.log, ResetEach(s, dependents).state.log)
  {
    if |dependents| == 0 {
      NotifiedSinceReflexive(s.log);
    } else {
      var first := ResetCascade(s, dependents[0]);
      ResetCascadeEvents(s, dependents[0]);
      ResetEachEvents(first.state, dependents[1..]);
      OnlyResetStartsTransitive(s.log, first.state.log, ResetEach(first.state, dependents[1..]).state.log);
    }
  }

  /** Each of `dependents` is `resetting` or `stale` in `t`, and `promises` are those states' promises, in order. */
  predicate PromisesOf(t: TargetTable, dependents: seq<TargetInstance>, promises: seq<Pending<ServiceResult>>)
  {
    |promises| == |dependents| &&
    forall k :: 0 <= k < |dependents| ==>
      dependents[k].id in t.targetStates && t.targetStates[dependents[k].id].IsResetOrStale() &&
      promises[k] == ResetPromiseOf(t.targetStates[dependents[k].id])
  }

  /**
   * A reset of a target that is neither `resetting` nor `stale`, at clock
   * c: it hands back the new promise h, installs `resetting` at c + 1 with
   * the caches it had, and h's job proposes `stale` at c + 2, waits for the
   * build in flight (if any) and holds its dependents' reset promises, in
   * order; its `targetResetStart` comes before every other event of the
   * cascade.
   */
  lemma ResetCascadeStarts(s: RunnerState, target: TargetInstance)
    requires Invariant(s) && Registered(s.table, target) && !s.table.targetStates[target.id].IsResetOrStale()
    ensures var r := ResetCascade(s, target);
      var c := s.table.targetStates[target.id];
      var h := s.promises.nextHandle;
      var dependents := s.table.targetDependents[target.id];
      r.value == Waiting(h) &&
      r.state.table.targetStates[target.id] == Resetting(c.Clock() + 1, h, c.CachedInput(), c.CachedResult()) &&
      h in r.state.promises.jobs &&
      r.state.promises.jobs[h] == ResetJobFor(target, c, r.state.promises.jobs[h].dependents) &&
      PromisesOf(r.state.table, dependents, r.state.promises.jobs[h].dependents) &&
      |s.log.emitted| < |r.state.log.emitted| &&
      r.state.log.emitted[|s.log.emitted|] == RunnerEvent(ResetStart, target, |s.log.emitted|)
  {
    var started := ResetStartStep(s, target);
    var dependents := started.table.targetDependents[target.id];
    ResetEachResets(started, dependents);
    ResetEachEvents(started, dependents);
    var each := ResetEach(started, dependents);
    assert each.state.log.emitted[|s.log.emitted|] == each.state.log.emitted[..|started.log.emitted|][|s.log.emitted|];
  }

  // ---- reset and build, with registration ----

  /** `reset(target)`: registration (which may throw), then the cascade. */
  function ResetStep(s: RunnerState, target: TargetInstance): (r: Step<Completion<Pending<ServiceResult>, Exception>>)
    requires Invariant(s)
    ensures Invariant(r.state)
    ensures r.value.Threw? <==> TargetClash(s.table.targets, target)
    ensures r.value.Threw? ==> r.value.error == Error(DuplicateTargetMessage(target.id)) && r.state == s
    ensures r.value.Returned? ==> Registered(r.state.table, target) && r.state.table.targetStates[target.id].IsResetOrStale()
  {
    var registered := RegisterTargetStep(s, target);
    if registered.value.Threw? then Step(registered.state, Threw(registered.value.error))
    else
      var cascade := ResetCascade(registered.state, target);
      Step(cascade.state, Returned(cascade.value))
  }

  /**
   * `reset` on a registered target is the cascade; on a new one, the
   * cascade after registering it `initial`.
   */
  lemma ResetIsCascade(s: RunnerState, target: TargetInstance)
    requires Invariant(s) && !TargetClash(s.table.targets, target)
    ensures var s1 := if target.id in s.table.targets then s else s.(table := TableWith(s.table, target));
      Invariant(s1) && Registered(s1.table, target) &&
      ResetStep(s, target) == Step(ResetCascade(s1, target).state, Returned(ResetCascade(s1, target).value))
  {
    if target.id !in s.table.targets {
      TableWithConsistent(s, target);
    }
  }

  /**
   * The cascade on an `initial` target, which has no dependents: `resetting`
   * at clock 1 and a reset job proposing `stale` at 2 with nothing to wait
   * for, and one `targetResetStart`.
   */
  lemma InitialCascadeExact(s: RunnerState, target: TargetInstance)
    requires Invariant(s) && Registered(s.table, target) && s.table.targetStates[target.id].Initial?
    ensures var r := ResetCascade(s, target);
      var h := s.promises.nextHandle;
      r.value == Waiting(h) &&
      r.state == s.(table := s.table.(targetStates := s.table.targetStates[target.id := Resetting(1, h, None, None)]),
                    promises := s.promises.(nextHandle := h + 1, jobs := s.promises.jobs[h := ResetJob(target, 2, None, None, None, [], None)]),
                    log := EmitLog(s.log, ResetStart, target))
  {
    var started := ResetStartStep(s, target);
    assert started.table.targetDependents[target.id] == [];
    assert ResetEach(started, []) == Step(started, []);
    var h := s.promises.nextHandle;
    assert started.promises.jobs[h := started.promises.jobs[h].(dependents := [])] == started.promises.jobs;
  }

  /**
   * `reset` on an `initial` target: it is installed `resetting` at clock 1
   * with a reset that proposes `stale` at 2 and has no dependents to wait
   * for, and `targetResetStart` is the only event.
   */
  lemma InitialResetExact(s: RunnerState, target: TargetInstance)
    requires Invariant(s) && Registered(s.table, target) && s.table.targetStates[target.id].Initial?
    ensures var h := s.promises.nextHandle;
      ResetStep(s, target) == Step(
        s.(table := s.table.(targetStates := s.table.targetStates[target.id := Resetting(1, h, None, None)]),
           promises := s.promises.(nextHandle := h + 1, jobs := s.promises.jobs[h := ResetJob(target, 2, None, None, None, [], None)]),
           log := EmitLog(s.log, ResetStart, target)),
        Returned(Waiting(h)))
  {
    ResetIsCascade(s, target);
    InitialCascadeExact(s, target);
  }

  /** `reset` and `build` on a first-time target are the same calls once it is registered `initial`. */
  lemma FirstCallRegisters(s: RunnerState, target: TargetInstance)
    requires Invariant(s) && target.id !in s.table.targets
    ensures var s1 := s.(table := TableWith(s.table, target));
      Invariant(s1) && Registered(s1.table, target) && s1.table.targetStates[target.id].Initial? &&
      ResetStep(s, target) == ResetStep(s1, target) && BuildStep(s, target) == BuildStep(s1, target)
  {
    TableWithConsistent(s, target);
  }

  /**
   * `build(target)`: registration (which may throw); on `initial`, a reset
   * is started (its promise is dropped) and `build` runs again; otherwise
   * `StartBuildStep` dispatches. Whenever a promise is handed back the
   * target is `building`, unless it was `fresh`.
   */
  function BuildStep(s: RunnerState, target: TargetInstance): (r: Step<Completion<Pending<TargetResult>, Exception>>)
    requires Invariant(s)
    decreases if target.id in s.table.targetStates && !s.table.targetStates[target.id].Initial? then 0 else 1
    ensures Invariant(r.state)
    ensures r.value.Threw? <==> TargetClash(s.table.targets, target)
    ensures r.value.Threw? ==> r.value.error == Error(DuplicateTargetMessage(target.id)) && r.state == s
    ensures r.value.Returned? ==> Registered(r.state.table, target)
    ensures r.value.Returned? && !(Registered(s.table, target) && s.table.targetStates[target.id].Fresh?) ==>
      r.state.table.targetStates[target.id].Building?
  {
    var registered := RegisterTargetStep(s, target);
    if registered.value.Threw? then Step(registered.state, Threw(registered.value.error))
    else if registered.state.table.targetStates[target.id].Initial? then
      var reset := ResetStep(registered.state, target);
      BuildStep(reset.state, target)
    else
      var start := StartBuildStep(registered.state, target);
      Step(start.state, Returned(start.value))
  }

  /** `build` on a registered target that is not `initial` is the dispatch of `StartBuildStep`. */
  lemma BuildDispatches(s: RunnerState, target: TargetInstance)
    requires Invariant(s) && Registered(s.table, target) && !s.table.targetStates[target.id].Initial?
    ensures BuildStep(s, target) == Step(StartBuildStep(s, target).state, Returned(StartBuildStep(s, target).value))
  {
  }

  /**
   * `build` on an `initial` target: a reset at clock 1, then a build
   * waiting for it, so the target is `building` at clock 2 when the call
   * returns; the reset's `stale` proposal, at clock 2 too, will be
   * rejected.
   */
  /**
   * After `build` on an `initial` target with next handle h: `building` at
   * clock 2 with promise h + 1; job h is the reset, proposing `stale` at 2
   * with no caches and nothing to wait for; job h + 1 is the build,
   * proposing `fresh` at 3 once reset h has settled; `targetResetStart`
   * then `targetBuildStart` were emitted.
   */
  function InitialBuildState(s: RunnerState, target: TargetInstance): RunnerState
    requires LogConsistent(s.log)
  {
    var h := s.promises.nextHandle;
    s.(table := s.table.(targetStates := s.table.targetStates[target.id := Building(2, h + 1, None, None)]),
       promises := s.promises.(nextHandle := h + 2, jobs := s.promises.jobs
         [h := ResetJob(target, 2, None, None, None, [], None)]
         [h + 1 := BuildJob(target, 3, None, None, Some(h))]),
       log := EmitLog(EmitLog(s.log, ResetStart, target), BuildStart, target))
  }

  lemma InitialBuildExact(s: RunnerState, target: TargetInstance)
    requires Invariant(s) && Registered(s.table, target) && s.table.targetStates[target.id].Initial?
    ensures BuildStep(s, target) == Step(InitialBuildState(s, target), Returned(Waiting(s.promises.nextHandle + 1)))
  {
    var h := s.promises.nextHandle;
    InitialResetExact(s, target);
    var s2 := ResetStep(s, target).state;
    BuildAfterInitialReset(s, s2, target);
    BuildDispatches(s2, target);
    StartBuildFromReset(s2, target);
    InitialBuildComposes(s, target, s2, StartBuildStep(s2, target).state);
  }

  lemma InitialBuildComposes(s: RunnerState, target: TargetInstance, s2: RunnerState, r: RunnerState)
    requires LogConsistent(s.log)
    requires var h := s.promises.nextHandle;
      s2 == s.(table := s.table.(targetStates := s.table.targetStates[target.id := Resetting(1, h, None, None)]),
               promises := s.promises.(nextHandle := h + 1, jobs := s.promises.jobs[h := ResetJob(target, 2, None, None, None, [], None)]),
               log := EmitLog(s.log, ResetStart, target))
    requires var h := s.promises.nextHandle;
      r.services == s2.services &&
      r.table == s2.table.(targetStates := s2.table.targetStates[target.id := Building(2, h + 1, None, None)]) &&
      r.promises == s2.promises.(nextHandle := h + 2, jobs := s2.promises.jobs[h + 1 := BuildJob(target, 3, None, None, Some(h))]) &&
      r.log == EmitLog(s2.log, BuildStart, target)
    ensures r == InitialBuildState(s, target)
  {
    var building := Building(2, s.promises.nextHandle + 1, None, None);
    assert s2.table.targetStates[target.id := building] == s.table.targetStates[target.id := building];
  }

  /** On `initial`, `build` is `build` again after the reset. */
  lemma BuildAfterInitialReset(s: RunnerState, s2: RunnerState, target: TargetInstance)
    requires Invariant(s) && Registered(s.table, target) && s.table.targetStates[target.id].Initial?
    requires s2 == ResetStep(s, target).state
    ensures Invariant(s2) && Registered(s2.table, target) && s2.table.targetStates[target.id].Resetting?
    ensures BuildStep(s, target) == BuildStep(s2, target)
  {
  }

  // ---- settling ----

  /** A promise settles, once. */
  function SettleStep(s: RunnerState, h: Handle, settlement: Settlement): (r: Step<Settlement>)
    requires Invariant(s) && h in s.promises.jobs
    ensures Invariant(r.state)
    ensures r.value == settlement
    ensures r.state == s.(promises := s.promises.(settled := s.promises.settled[h := settlement]))
  {
    Step(s.(promises := s.promises.(settled := s.promises.settled[h := settlement])), settlement)
  }

  /** A build or reset that may run: not settled, and what it waits for has settled. */
  predicate Runnable(s: RunnerState, h: Handle)
  {
    h in s.promises.jobs && h !in s.promises.settled &&
    (s.promises.jobs[h].after.Some? ==> s.promises.jobs[h].after.value in s.promises.settled)
  }

  /** The job waits for a promise that was rejected. */
  predicate AfterRejected(s: RunnerState, h: Handle)
    requires Runnable(s, h)
  {
    s.promises.jobs[h].after.Some? && s.promises.settled[s.promises.jobs[h].after.value].Rejected?
  }

  /**
   * The end of a build that produced `o`: `fresh` is proposed at the clock
   * fixed when the build started, `targetBuildEnd` reports the result,
   * whether the proposal was rejected and whether the cache was used, and
   * the build resolves with the result.
   */
  function BuildEndStep(s: RunnerState, h: Handle, o: BuildOutcome): (r: Step<Settlement>)
    requires Invariant(s) && h in s.promises.jobs && s.promises.jobs[h].BuildJob?
    ensures Invariant(r.state)
    ensures var job := s.promises.jobs[h];
      var proposal := Fresh(job.freshClock, o.serializedInput, o.result);
      var accepted := Accepts(s.table.targetStates[job.target.id], proposal);
      r.value == Resolved(o.result) && r.state.services == s.services &&
      r.state.table == (if accepted then s.table.(targetStates := s.table.targetStates[job.target.id := proposal]) else s.table) &&
      r.state.log == EmitLog(s.log, BuildEnd(o.result, !accepted, o.usedCache), job.target) &&
      r.state.promises == s.promises.(settled := s.promises.settled[h := r.value])
  {
    var job := s.promises.jobs[h];
    var proposed := ProposeStep(s, job.target, Fresh(job.freshClock, o.serializedInput, o.result));
    BuildAnnouncedStep(proposed.state, h, o, !proposed.value)
  }

  /** `targetBuildEnd`, saying whether the proposal was `obsolete`, then the build resolves with its result. */
  function BuildAnnouncedStep(s: RunnerState, h: Handle, o: BuildOutcome, obsolete: bool): (r: Step<Settlement>)
    requires Invariant(s) && h in s.promises.jobs && s.promises.jobs[h].BuildJob?
    ensures Invariant(r.state)
    ensures r.value == Resolved(o.result)
    ensures r.state == s.(log := EmitLog(s.log, BuildEnd(o.result, obsolete, o.usedCache), s.promises.jobs[h].target),
                          promises := s.promises.(settled := s.promises.settled[h := r.value]))
  {
    var ended := EmitStep(s, BuildEnd(o.result, obsolete, o.usedCache), s.promises.jobs[h].target);
    SettleStep(ended, h, Resolved(o.result))
  }

  /** `targetBuildCall` when the service is called, then the end of the build. */
  function CompleteBuildStep(s: RunnerState, h: Handle, o: BuildOutcome, calls: bool): (r: Step<Settlement>)
    requires Invariant(s) && h in s.promises.jobs && s.promises.jobs[h].BuildJob?
    ensures Invariant(r.state)
    ensures var job := s.promises.jobs[h];
      var proposal := Fresh(job.freshClock, o.serializedInput, o.result);
      var accepted := Accepts(s.table.targetStates[job.target.id], proposal);
      r.value == Resolved(o.result) && r.state.services == s.services &&
      r.state.table == (if accepted then s.table.(targetStates := s.table.targetStates[job.target.id := proposal]) else s.table) &&
      r.state.log.emitted == s.log.emitted +
        (if calls then [RunnerEvent(BuildCall, job.target, |s.log.emitted|)] else []) +
        [RunnerEvent(BuildEnd(o.result, !accepted, o.usedCache), job.target, |s.log.emitted| + if calls then 1 else 0)] &&
      NotifiedSince(s.log, r.state.log) &&
      r.state.promises == s.promises.(settled := s.promises.settled[h := r.value])
  {
    var job := s.promises.jobs[h];
    if calls then
      var called := EmitStep(s, BuildCall, job.target);
      var r := BuildEndStep(called, h, o);
      NotifiedSinceTransitive(s.log, called.log, r.state.log);
      r
    else
      NotifiedSinceReflexive(s.log);
      BuildEndStep(s, h, o)
  }

  /**
   * The continuation of build h once the reset it waits for has settled
   * and the target's input function has produced `input` (the
   * dependencies it built through `tryBuild` are recorded beforehand by
   * `TryBuildCallbackStep`). A rejected reset rejects the build. Otherwise
   * `_doBuild` registers the build service (a clash rejects the build),
   * reuses the cached result or emits `targetBuildCall` and calls the
   * service, and the build ends as `CompleteBuildStep` says.
   */
  function FinishBuildStep(s: RunnerState, h: Handle, input: Completion<Value, Exception>, serialize: Value -> string): (r: Step<Settlement>)
    requires Invariant(s) && Runnable(s, h) && s.promises.jobs[h].BuildJob?
    ensures Invariant(r.state)
    ensures r.state.promises == s.promises.(settled := s.promises.settled[h := r.value])
  {
    var job := s.promises.jobs[h];
    var service := job.target.build.service;
    if AfterRejected(s, h) then SettleStep(s, h, s.promises.settled[job.after.value])
    else if input.Returned? && ServiceClash(s.services, service) then
      SettleStep(s, h, Rejected(Error(DuplicateServiceMessage(service.id))))
    else
      var o := DoBuild(input, service, serialize, job.cachedSerializedInput, job.cachedResult);
      var registered := if input.Returned? then s.(services := s.services[service.id := service]) else s;
      CompleteBuildStep(registered, h, o, BuildCalls(input, o))
  }

  /** A build whose reset was rejected is rejected with the same error, and nothing else changes. */
  lemma FinishBuildAfterRejectedReset(s: RunnerState, h: Handle, input: Completion<Value, Exception>, serialize: Value -> string)
    requires Invariant(s) && Runnable(s, h) && s.promises.jobs[h].BuildJob? && AfterRejected(s, h)
    ensures var r := FinishBuildStep(s, h, input, serialize);
      r.value == s.promises.settled[s.promises.jobs[h].after.value] && r.value.Rejected? &&
      r.state == s.(promises := s.promises.(settled := s.promises.settled[h := r.value]))
  {
  }

  /** A build service that clashes with a registered one rejects the build, and nothing else changes. */
  lemma FinishBuildClash(s: RunnerState, h: Handle, input: Completion<Value, Exception>, serialize: Value -> string)
    requires Invariant(s) && Runnable(s, h) && s.promises.jobs[h].BuildJob? && !AfterRejected(s, h)
    requires input.Returned? && ServiceClash(s.services, s.promises.jobs[h].target.build.service)
    ensures var r := FinishBuildStep(s, h, input, serialize);
      r.value == Rejected(Error(DuplicateServiceMessage(s.promises.jobs[h].target.build.service.id))) &&
      r.state == s.(promises := s.promises.(settled := s.promises.settled[h := r.value]))
  {
  }

  /**
   * Otherwise the build resolves with `DoBuild`'s result and registers the
   * build service when the input function returned; the service is
   * called (and `targetBuildCall` emitted) exactly when `BuildCalls` says.
   */
  lemma FinishBuildResolves(s: RunnerState, h: Handle, input: Completion<Value, Exception>, serialize: Value -> string)
    requires Invariant(s) && Runnable(s, h) && s.promises.jobs[h].BuildJob? && !AfterRejected(s, h)
    requires !(input.Returned? && ServiceClash(s.services, s.promises.jobs[h].target.build.service))
    ensures var r := FinishBuildStep(s, h, input, serialize);
      var job := s.promises.jobs[h];
      var service := job.target.build.service;
      var o := DoBuild(input, service, serialize, job.cachedSerializedInput, job.cachedResult);
      var registered := if input.Returned? then s.(services := s.services[service.id := service]) else s;
      r.value == Resolved(o.result) && r.state.services == registered.services &&
      r == CompleteBuildStep(registered, h, o, BuildCalls(input, o))
  {
  }

  // ---- the continuation of a reset ----

  /**
   * The end of a reset that produced `result`: `stale` is proposed at the
   * clock fixed when the reset started, with the caches the reset found;
   * `targetResetEnd` reports the result, which the job keeps until its
   * dependents' resets have settled (`SettleResetStep`).
   */
  function ResetEndStep(s: RunnerState, h: Handle, result: ServiceResult): (r: RunnerState)
    requires Invariant(s) && h in s.promises.jobs && s.promises.jobs[h].ResetJob?
    ensures Invariant(r)
    ensures var job := s.promises.jobs[h];
      var proposal := Stale(job.staleClock, result, job.cachedSerializedInput, job.cachedResult);
      var accepted := Accepts(s.table.targetStates[job.target.id], proposal);
      r.services == s.services &&
      r.table == (if accepted then s.table.(targetStates := s.table.targetStates[job.target.id := proposal]) else s.table) &&
      r.log == EmitLog(s.log, ResetEnd(result), job.target) &&
      r.promises == s.promises.(jobs := s.promises.jobs[h := job.(ended := Some(result))])
  {
    var job := s.promises.jobs[h];
    var proposed := ProposeStep(s, job.target, Stale(job.staleClock, result, job.cachedSerializedInput, job.cachedResult));
    ResetAnnouncedStep(proposed.state, h, result)
  }

  /** `targetResetEnd`, then the job keeps the reset's result for when its dependents have settled. */
  function ResetAnnouncedStep(s: RunnerState, h: Handle, result: ServiceResult): (r: RunnerState)
    requires Invariant(s) && h in s.promises.jobs && s.promises.jobs[h].ResetJob?
    ensures Invariant(r)
    ensures r == s.(log := EmitLog(s.log, ResetEnd(result), s.promises.jobs[h].target),
                    promises := s.promises.(jobs := s.promises.jobs[h := s.promises.jobs[h].(ended := Some(result))]))
  {
    var job := s.promises.jobs[h];
    var ended := EmitStep(s, ResetEnd(result), job.target);
    JobUpdateConsistent(ended, h, job.(ended := Some(result)));
    ended.(promises := ended.promises.(jobs := ended.promises.jobs[h := job.(ended := Some(result))]))
  }

  /** `targetResetCall` and `call` on the reset service, then the end of the reset. */
  function CallResetStep(s: RunnerState, h: Handle, service: ServiceInstance, input: Value): (r: Step<ServiceResult>)
    requires Invariant(s) && h in s.promises.jobs && s.promises.jobs[h].ResetJob?
    ensures Invariant(r.state)
    ensures r.value == CallOutcome(s.services, service, input)
    ensures r.state.services == if ServiceClash(s.services, service) then s.services else s.services[service.id := service]
    ensures r.state.table == ResetEndStep(s, h, r.value).table && r.state.promises == ResetEndStep(s, h, r.value).promises
    ensures r.state.log.emitted == s.log.emitted +
      [RunnerEvent(ResetCall, s.promises.jobs[h].target, |s.log.emitted|),
       RunnerEvent(ResetEnd(r.value), s.promises.jobs[h].target, |s.log.emitted| + 1)]
    ensures NotifiedSince(s.log, r.state.log)
  {
    var job := s.promises.jobs[h];
    var emitted := EmitStep(s, ResetCall, job.target);
    var r := CalledResetStep(emitted, h, service, input);
    NotifiedSinceTransitive(s.log, emitted.log, r.state.log);
    r
  }

  /** `call` on the reset service, then the end of the reset with what it returned. */
  function CalledResetStep(s: RunnerState, h: Handle, service: ServiceInstance, input: Value): (r: Step<ServiceResult>)
    requires Invariant(s) && h in s.promises.jobs && s.promises.jobs[h].ResetJob?
    ensures Invariant(r.state)
    ensures r.value == CallOutcome(s.services, service, input)
    ensures r.state == ResetEndStep(CallStep(s, service, input).state, h, r.value)
  {
    var called := CallStep(s, service, input);
    Step(ResetEndStep(called.state, h, called.value), called.value)
  }

  /**
   * The continuation of reset h once the build it waits for has settled
   * and the reset input function (if any) has produced `input`. A rejected
   * build rejects the reset. Otherwise `_doReset` computes the result,
   * emitting `targetResetCall` and going through `call` when there is a
   * reset service to call, and the reset ends as `ResetEndStep` says.
   */
  function FinishResetStep(s: RunnerState, h: Handle, input: Completion<Value, Exception>): (r: Step<Option<ServiceResult>>)
    requires Invariant(s) && Runnable(s, h) && s.promises.jobs[h].ResetJob?
    ensures Invariant(r.state)
  {
    var job := s.promises.jobs[h];
    if AfterRejected(s, h) then
      var settled := SettleStep(s, h, s.promises.settled[job.after.value]);
      Step(settled.state, None)
    else if job.target.reset.Some? && input.Returned? then
      var called := CallResetStep(s, h, job.target.reset.value.service, input.value);
      Step(called.state, Some(called.value))
    else
      var o := DoReset(job.target.reset, input, s.services);
      Step(ResetEndStep(s, h, o.result), Some(o.result))
  }

  /** A reset whose build was rejected is rejected with the same error, and nothing else changes. */
  lemma FinishResetAfterRejectedBuild(s: RunnerState, h: Handle, input: Completion<Value, Exception>)
    requires Invariant(s) && Runnable(s, h) && s.promises.jobs[h].ResetJob? && AfterRejected(s, h)
    ensures var r := FinishResetStep(s, h, input);
      r.value.None? &&
      r.state == s.(promises := s.promises.(settled := s.promises.settled[h := s.promises.settled[s.promises.jobs[h].after.value]]))
  {
  }

  /**
   * Otherwise the reset's result is `DoReset`'s; the reset service is
   * called, after `targetResetCall`, exactly when there is one and its
   * input function returned; the job is not settled yet.
   */
  lemma FinishResetEnds(s: RunnerState, h: Handle, input: Completion<Value, Exception>)
    requires Invariant(s) && Runnable(s, h) && s.promises.jobs[h].ResetJob? && !AfterRejected(s, h)
    ensures var r := FinishResetStep(s, h, input);
      var job := s.promises.jobs[h];
      var o := DoReset(job.target.reset, input, s.services);
      r.value == Some(o.result) && r.state.promises.settled == s.promises.settled &&
      r.state == if o.called then CallResetStep(s, h, job.target.reset.value.service, input.value).state
                 else ResetEndStep(s, h, o.result)
  {
  }

  /**
   * How `Promise.all` over the dependents' reset promises has settled:
   * with no rejection, every dependent that was in flight has resolved;
   * with the earliest rejection at k, dependent k was in flight and was
   * rejected.
   */
  predicate DependentsSettled(settled: map<Handle, Settlement>, dependents: seq<Pending<ServiceResult>>, rejected: Option<nat>)
  {
    match rejected
    case None =>
      forall k :: 0 <= k < |dependents| && dependents[k].Waiting? ==>
        dependents[k].handle in settled && settled[dependents[k].handle].Resolved?
    case Some(k) =>
      k < |dependents| && dependents[k].Waiting? &&
      dependents[k].handle in settled && settled[dependents[k].handle].Rejected?
  }

  /**
   * `await resetDependents; return resetResult`: the reset resolves with
   * its own result once its dependents' resets have, and is rejected with
   * the first rejection among them otherwise.
   */
  function SettleResetStep(s: RunnerState, h: Handle, rejected: Option<nat>): (r: Step<Settlement>)
    requires Invariant(s) && h in s.promises.jobs && h !in s.promises.settled
    requires s.promises.jobs[h].ResetJob? && s.promises.jobs[h].ended.Some?
    requires DependentsSettled(s.promises.settled, s.promises.jobs[h].dependents, rejected)
    ensures Invariant(r.state)
    ensures r.state == s.(promises := s.promises.(settled := s.promises.settled[h := r.value]))
    ensures rejected.None? ==> r.value == Resolved(s.promises.jobs[h].ended.value)
    ensures rejected.Some? ==> r.value == s.promises.settled[s.promises.jobs[h].dependents[rejected.value].handle] && r.value.Rejected?
  {
    var job := s.promises.jobs[h];
    match rejected
    case None => SettleStep(s, h, Resolved(job.ended.value))
    case Some(k) => SettleStep(s, h, s.promises.settled[job.dependents[k].handle])
  }

  // ---- tryBuild's callback ----

  /** Adding a registered, non-`initial` target's dependent keeps the table consistent. */
  lemma DependentAddedConsistent(t: TargetTable, did: string, dependent: TargetInstance)
    requires TableConsistent(t) && did in t.targets && !t.targetStates[did].Initial? && IsRegistered(t.targets, dependent)
    ensures TableConsistent(t.(targetDependents := t.targetDependents[did := SetAdd(t.targetDependents[did], dependent)]))
  {
    DependentAddedKeepsKeys(t.targets, t.targetStates, t.targetDependents, did, SetAdd(t.targetDependents[did], dependent));
    DependentAddedKeepsInitial(t.targetStates, t.targetDependents, did, SetAdd(t.targetDependents[did], dependent));
    DependentAddedKeepsRegistered(t.targets, t.targetDependents, did, dependent);
    DependentAddedKeepsDistinct(t.targetDependents, did, dependent);
  }

  lemma DependentAddedKeepsKeys(targets: map<string, TargetInstance>, states: map<string, TargetState>,
                                deps: map<string, seq<TargetInstance>>, did: string, ds: seq<TargetInstance>)
    requires KeysAgree(targets, states, deps) && did in targets
    ensures KeysAgree(targets, states, deps[did := ds])
  {
    assert deps[did := ds].Keys == deps.Keys;
  }

  lemma DependentAddedKeepsInitial(states: map<string, TargetState>, deps: map<string, seq<TargetInstance>>, did: string, ds: seq<TargetInstance>)
    requires InitialHasNoDependents(states, deps) && did in states && !states[did].Initial?
    ensures InitialHasNoDependents(states, deps[did := ds])
  {
  }

  lemma DependentAddedKeepsRegistered(targets: map<string, TargetInstance>, deps: map<string, seq<TargetInstance>>,
                                      did: string, dependent: TargetInstance)
    requires DependentsRegistered(targets, deps) && did in deps && IsRegistered(targets, dependent)
    ensures DependentsRegistered(targets, deps[did := SetAdd(deps[did], dependent)])
  {
  }

  lemma DependentAddedKeepsDistinct(deps: map<string, seq<TargetInstance>>, did: string, dependent: TargetInstance)
    requires DependentsDistinct(deps) && did in deps
    ensures DependentsDistinct(deps[did := SetAdd(deps[did], dependent)])
  {
    SetAddKeepsNoDuplicates(deps[did], dependent);
  }

  /**
   * The callback `tryBuild` passes while building `dependent`: once
   * `dependency` has been built (so it is registered and no longer
   * `initial`), `dependent` joins its dependents, once, and the input
   * function receives the dependency's value or a `TargetUnavailableError`.
   */
  function TryBuildCallbackStep(s: RunnerState, dependent: TargetInstance, dependency: TargetInstance, result: TargetResult): (r: Step<Completion<Value, Exception>>)
    requires Invariant(s) && Registered(s.table, dependent) && Registered(s.table, dependency)
    requires !s.table.targetStates[dependency.id].Initial?
    ensures Invariant(r.state)
    ensures r.value == Unwrap(dependency, result)
    ensures r.state == s.(table := s.table.(targetDependents :=
      s.table.targetDependents[dependency.id := SetAdd(s.table.targetDependents[dependency.id], dependent)]))
  {
    var t := s.table;
    DependentAddedConsistent(t, dependency.id, dependent);
    Step(s.(table := t.(targetDependents := t.targetDependents[dependency.id := SetAdd(t.targetDependents[dependency.id], dependent)])),
         Unwrap(dependency, result))
  }
}
