// The current engine's `LocalRunner` as a class whose fields are the
// runner's own maps and counters, updated in place as the source updates
// them. Each method performs one synchronous stretch of the source and is
// proved to make exactly the transition `RunnerSteps` defines on the
// record `State()`; what those transitions promise is proved there.
module Runner {
  import opened Common
  import opened Service
  import opened TargetInstances
  import opened RunnerSpec
  import opened RunnerSteps

  class LocalRunner {
    var listeners: seq<Listener>
    var services: map<string, ServiceInstance>
    var targets: map<string, TargetInstance>
    var targetStates: map<string, TargetState>
    /** Each target's dependents, in the order the underlying `Set` keeps them. */
    var targetDependents: map<string, seq<TargetInstance>>
    var sequence: nat
    /** Every listener invocation so far, and every event emitted. */
    var deliveries: seq<Delivery>
    var emitted: seq<RunnerEvent>
    /** The promises handed out: the next handle, the work behind each, and those that settled. */
    var nextHandle: nat
    var jobs: map<Handle, Job>
    var settled: map<Handle, Settlement>

    function State(): RunnerState
      reads this
    {
      RunnerState(services, TargetTable(targets, targetStates, targetDependents),
        EventLog(listeners, sequence, deliveries, emitted), Promises(nextHandle, jobs, settled))
    }

    predicate Valid()
      reads this
    {
      Invariant(State())
    }

    /** A new runner has no listeners, services, targets or promises. */
    constructor()
      ensures State() == EmptyState()
      ensures Valid()
    {
      listeners, services, targets, targetStates, targetDependents := [], map[], map[], map[], map[];
      sequence, deliveries, emitted := 0, [], [];
      nextHandle, jobs, settled := 0, map[], map[];
    }

    /** `on(type, listener)`. */
    method On(listenFor: ListenFor, throws: RunnerEvent -> bool)
      requires Valid()
      modifies this
      ensures State() == SubscribeStep(old(State()), listenFor, throws)
      ensures Valid()
    {
      listeners := listeners + [Listener(listenFor, throws)];
    }

    /**
     * `_emit`: the event takes the next sequence number, and each listener
     * whose type matches is called in turn; one that throws is logged and
     * the rest are still called.
     */
    method Emit(body: EventBody, target: TargetInstance)
      requires Valid()
      modifies this
      ensures State() == EmitStep(old(State()), body, target)
      ensures Valid()
    {
      var event := RunnerEvent(body, target, sequence);
      sequence := sequence + 1;
      var calls := [];
      var i := 0;
      while i < |listeners|
        invariant 0 <= i <= |listeners|
        invariant calls == NotifyUpTo(listeners, event, i)
      {
        if Matches(listeners[i], event) {
          calls := calls + [Delivery(i, event, listeners[i].throws(event))];
        }
        i := i + 1;
      }
      deliveries := deliveries + calls;
      emitted := emitted + [event];
    }

    /** `_asServiceInstance`. */
    method AsServiceInstance(service: ServiceInstance) returns (r: Completion<ServiceInstance, Exception>)
      requires Valid()
      modifies this
      ensures Step(State(), r) == RegisterServiceStep(old(State()), service)
      ensures Valid()
    {
      if service.id !in services {
        services := services[service.id := service];
        r := Returned(service);
      } else if services[service.id] != service {
        r := Threw(Error(DuplicateServiceMessage(service.id)));
      } else {
        r := Returned(service);
      }
    }

    /** `_asTargetInstance`: a first-time target starts `initial` with no dependents. */
    method AsTargetInstance(target: TargetInstance) returns (r: Completion<TargetInstance, Exception>)
      requires Valid()
      modifies this
      ensures Step(State(), r) == RegisterTargetStep(old(State()), target)
      ensures Valid()
    {
      if target.id !in targets {
        targets := targets[target.id := target];
        targetStates := targetStates[target.id := Initial];
        targetDependents := targetDependents[target.id := []];
        r := Returned(target);
      } else if targets[target.id] != target {
        r := Threw(Error(DuplicateTargetMessage(target.id)));
      } else {
        r := Returned(target);
      }
    }

    /** `_proposeTargetState`. */
    method ProposeTargetState(target: TargetInstance, state: TargetState) returns (accepted: bool)
      requires Valid() && Registered(State().table, target) && PromiseTracked(jobs, target.id, state)
      modifies this
      ensures Step(State(), accepted) == ProposeStep(old(State()), target, state)
      ensures Valid()
    {
      accepted := targetStates[target.id].Clock() + 1 == state.Clock();
      if accepted {
        targetStates := targetStates[target.id := state];
      }
    }

    /** `_setTargetState`. */
    method SetTargetState(target: TargetInstance, state: TargetState) returns (r: Completion<(), Exception>)
      requires Valid() && Registered(State().table, target) && PromiseTracked(jobs, target.id, state)
      modifies this
      ensures Step(State(), r) == SetTargetStateStep(old(State()), target, state)
      ensures Valid()
    {
      var accepted := ProposeTargetState(target, state);
      r := if accepted then Returned(()) else Threw(Error(InternalErrorMessage));
    }

    /** A new promise for `job`, under the next handle. */
    method CreatePromise(job: Job) returns (h: Handle)
      requires Valid() && Registered(State().table, job.target)
      modifies this
      ensures Step(State(), h) == CreatePromiseStep(old(State()), job)
      ensures Valid()
    {
      h := nextHandle;
      jobs := jobs[h := job];
      nextHandle := nextHandle + 1;
    }

    /** `call(service, input)`. */
    method Call(service: ServiceInstance, input: Value) returns (result: ServiceResult)
      requires Valid()
      modifies this
      ensures Step(State(), result) == CallStep(old(State()), service, input)
      ensures Valid()
    {
      var registered := AsServiceInstance(service);
      if registered.Threw? {
        result := Failed(Join([Inspect(registered.error)], "\n"));
      } else {
        result := CallRun(service.run(input));
      }
    }

    /**
     * `build(target)`: on `initial` a reset is started, its promise dropped,
     * and `build` runs again; otherwise `StartBuild` dispatches.
     */
    method Build(target: TargetInstance) returns (r: Completion<Pending<TargetResult>, Exception>)
      requires Valid()
      modifies this
      decreases if target.id in targetStates && !targetStates[target.id].Initial? then 0 else 1
      ensures Step(State(), r) == BuildStep(old(State()), target)
      ensures Valid()
    {
      var registered := AsTargetInstance(target);
      if registered.Threw? {
        r := Threw(registered.error);
      } else if targetStates[target.id].Initial? {
        var _ := Reset(target);
        r := Build(target);
      } else {
        var p := StartBuild(target);
        r := Returned(p);
      }
    }

    /**
     * The rest of `build` on a registered target that is not `initial`:
     * `building` hands back its promise and `fresh` its result; `resetting`
     * and `stale` create the build, install `building` and emit
     * `targetBuildStart`.
     */
    method StartBuild(target: TargetInstance) returns (p: Pending<TargetResult>)
      requires Valid() && Registered(State().table, target) && !targetStates[target.id].Initial?
      modifies this
      ensures Step(State(), p) == StartBuildStep(old(State()), target)
      ensures Valid()
    {
      var state := targetStates[target.id];
      if state.Building? {
        p := Waiting(state.promise);
      } else if state.Fresh? {
        p := Ready(state.result);
      } else {
        p := BeginBuild(target);
      }
    }

    /**
     * `build` from `resetting` or `stale`: the build's promise (waiting for
     * the reset, if one is running), `building` one clock on and
     * `targetBuildStart`.
     */
    method BeginBuild(target: TargetInstance) returns (p: Pending<TargetResult>)
      requires Valid() && Registered(State().table, target) && targetStates[target.id].IsResetOrStale()
      modifies this
      ensures Step(State(), p) == StartBuildStep(old(State()), target)
      ensures Valid()
    {
      ghost var s0 := State();
      var h := InstallBuild(target);
      Emit(BuildStart, target);
      StartBuildComposes(s0, target);
      p := Waiting(h);
    }

    /** The build's promise, then `building` one clock on in the target's place. */
    method InstallBuild(target: TargetInstance) returns (h: Handle)
      requires Valid() && Registered(State().table, target) && targetStates[target.id].IsResetOrStale()
      modifies this
      ensures Step(State(), h) == BuildInstalledStep(old(State()), target)
      ensures Valid()
    {
      var state := targetStates[target.id];
      StartBuildFromReset(State(), target);
      h := CreatePromise(BuildJobFor(target, state));
      var _ := SetTargetState(target, Building(state.clock + 1, h, state.cachedSerializedInput, state.cachedResult));
    }

    /** `reset(target)`: registration, then the cascade. */
    method Reset(target: TargetInstance) returns (r: Completion<Pending<ServiceResult>, Exception>)
      requires Valid()
      modifies this
      ensures Step(State(), r) == ResetStep(old(State()), target)
      ensures Valid()
    {
      var registered := AsTargetInstance(target);
      if registered.Threw? {
        r := Threw(registered.error);
        return;
      }
      var p := ResetRegistered(target);
      r := Returned(p);
    }

    /**
     * The body of `reset` once the target is registered: `resetting` hands
     * back its promise and `stale` its result; otherwise the reset starts
     * and each current dependent is reset in turn.
     */
    method ResetRegistered(target: TargetInstance) returns (p: Pending<ServiceResult>)
      requires Valid() && Registered(State().table, target)
      modifies this
      decreases NonResetCount(State()), 0, 0
      ensures Step(State(), p) == ResetCascade(old(State()), target)
      ensures Valid()
    {
      var state := targetStates[target.id];
      if state.Resetting? {
        p := Waiting(state.promise);
      } else if state.Stale? {
        p := Ready(state.resetResult);
      } else {
        var h := StartReset(target);
        var promises := ResetDependents(targetDependents[target.id]);
        RecordDependents(h, promises);
        p := Waiting(h);
      }
    }

    /** The reset's promise, `resetting` one clock on, and `targetResetStart`. */
    method StartReset(target: TargetInstance) returns (h: Handle)
      requires Valid() && Registered(State().table, target) && !targetStates[target.id].IsResetOrStale()
      modifies this
      ensures h == old(nextHandle)
      ensures State() == ResetStartStep(old(State()), target)
      ensures Valid()
    {
      var state := targetStates[target.id];
      h := CreatePromise(ResetJobFor(target, state, []));
      var _ := SetTargetState(target, ResetPromiseState(state, h));
      Emit(ResetStart, target);
    }

    /** The reset's job keeps the promises of its dependents' resets, for `Promise.all`. */
    method RecordDependents(h: Handle, promises: seq<Pending<ServiceResult>>)
      requires Valid() && h in jobs && jobs[h].ResetJob?
      modifies this
      ensures State() == RecordDependentsStep(old(State()), h, promises)
      ensures Valid()
    {
      jobs := jobs[h := jobs[h].(dependents := promises)];
    }

    /** `dependents.map((t) => this.reset(t))`: the resets start in order. */
    method ResetDependents(dependents: seq<TargetInstance>) returns (promises: seq<Pending<ServiceResult>>)
      requires Valid() && forall d :: d in dependents ==> IsRegistered(targets, d)
      modifies this
      decreases NonResetCount(State()), 1, |dependents|
      ensures Step(State(), promises) == ResetEach(old(State()), dependents)
      ensures Valid()
    {
      if |dependents| == 0 {
        promises := [];
      } else {
        var first := ResetRegistered(dependents[0]);
        var rest := ResetDependents(dependents[1..]);
        promises := [first] + rest;
      }
    }

    // ---- the work behind the promises ----

    /** Promise h settles. */
    method Settle(h: Handle, settlement: Settlement) returns (r: Settlement)
      requires Valid() && h in jobs
      modifies this
      ensures Step(State(), r) == SettleStep(old(State()), h, settlement)
      ensures Valid()
    {
      settled := settled[h := settlement];
      r := settlement;
    }

    /**
     * The callback of `build`'s promise h, once the reset it waits for has
     * settled and the input function has produced `input`: a rejected reset
     * rejects the build; otherwise `_doBuild` and the end of the build.
     */
    method FinishBuild(h: Handle, input: Completion<Value, Exception>, serialize: Value -> string) returns (r: Settlement)
      requires Valid() && Runnable(State(), h) && jobs[h].BuildJob?
      modifies this
      ensures Step(State(), r) == FinishBuildStep(old(State()), h, input, serialize)
      ensures Valid()
    {
      if AfterRejected(State(), h) {
        r := Settle(h, settled[jobs[h].after.value]);
      } else {
        r := BuildWithInput(h, input, serialize);
      }
    }

    /**
     * `_doBuild` from the input function's outcome: an input that threw is
     * the build's result; otherwise the build service is registered, and a
     * clash rejects the build.
     */
    method BuildWithInput(h: Handle, input: Completion<Value, Exception>, serialize: Value -> string) returns (r: Settlement)
      requires Valid() && Runnable(State(), h) && jobs[h].BuildJob? && !AfterRejected(State(), h)
      modifies this
      ensures Step(State(), r) == FinishBuildStep(old(State()), h, input, serialize)
      ensures Valid()
    {
      ghost var s0 := State();
      var job := jobs[h];
      if input.Threw? {
        r := EndBuild(h, DoBuild(input, job.target.build.service, serialize, job.cachedSerializedInput, job.cachedResult));
        FinishBuildResolves(s0, h, input, serialize);
      } else {
        var registered := AsServiceInstance(job.target.build.service);
        if registered.Threw? {
          r := Settle(h, Rejected(registered.error));
          FinishBuildClash(s0, h, input, serialize);
        } else {
          r := BuildFromInput(h, input.value, serialize);
          FinishBuildResolves(s0, h, input, serialize);
        }
      }
    }

    /**
     * The rest of `_doBuild` once the pure check can be made: a pure service
     * whose serialized input matches the cached one reuses the cached
     * result; otherwise `targetBuildCall` is emitted and the service called.
     */
    method BuildFromInput(h: Handle, v: Value, serialize: Value -> string) returns (r: Settlement)
      requires Valid() && h in jobs && jobs[h].BuildJob?
      requires ServiceRegistered(services, jobs[h].target.build.service)
      modifies this
      ensures var job := old(jobs[h]);
        var o := DoBuild(Returned(v), job.target.build.service, serialize, job.cachedSerializedInput, job.cachedResult);
        Step(State(), r) == CompleteBuildStep(old(State()), h, o, BuildCalls(Returned(v), o))
      ensures Valid()
    {
      var job := jobs[h];
      var service := job.target.build.service;
      if service.pure && Some(serialize(v)) == job.cachedSerializedInput && job.cachedResult.Some? {
        r := EndBuild(h, BuildOutcome(job.cachedResult.value, Some(serialize(v)), true));
      } else {
        Emit(BuildCall, job.target);
        r := CallBuildService(h, v, if service.pure then Some(serialize(v)) else None);
      }
    }

    /** `call` on the build service, then the end of the build with what it returned. */
    method CallBuildService(h: Handle, v: Value, serializedInput: Option<string>) returns (r: Settlement)
      requires Valid() && h in jobs && jobs[h].BuildJob?
      requires ServiceRegistered(services, jobs[h].target.build.service)
      modifies this
      ensures var service := old(jobs[h]).target.build.service;
        Step(State(), r) == BuildEndStep(old(State()), h, BuildOutcome(CallRun(service.run(v)), serializedInput, false))
      ensures Valid()
    {
      CallRegistered(State(), jobs[h].target.build.service, v);
      var result := Call(jobs[h].target.build.service, v);
      r := EndBuild(h, BuildOutcome(result, serializedInput, false));
    }

    /** `fresh` is proposed at the clock fixed when the build started, then `targetBuildEnd` and the result. */
    method EndBuild(h: Handle, o: BuildOutcome) returns (r: Settlement)
      requires Valid() && h in jobs && jobs[h].BuildJob?
      modifies this
      ensures Step(State(), r) == BuildEndStep(old(State()), h, o)
      ensures Valid()
    {
      var job := jobs[h];
      var accepted := ProposeTargetState(job.target, Fresh(job.freshClock, o.serializedInput, o.result));
      r := AnnounceBuildEnd(h, o, !accepted);
    }

    /** `targetBuildEnd`, then the build resolves with its result. */
    method AnnounceBuildEnd(h: Handle, o: BuildOutcome, obsolete: bool) returns (r: Settlement)
      requires Valid() && h in jobs && jobs[h].BuildJob?
      modifies this
      ensures Step(State(), r) == BuildAnnouncedStep(old(State()), h, o, obsolete)
      ensures Valid()
    {
      Emit(BuildEnd(o.result, obsolete, o.usedCache), jobs[h].target);
      r := Settle(h, Resolved(o.result));
    }

    /**
     * The callback of `reset`'s promise h, once the build it waits for has
     * settled and the reset input function (if any) has produced `input`:
     * a rejected build rejects the reset; otherwise `_doReset` and the end
     * of the reset. The result is the reset's, when it has one.
     */
    method FinishReset(h: Handle, input: Completion<Value, Exception>) returns (r: Option<ServiceResult>)
      requires Valid() && Runnable(State(), h) && jobs[h].ResetJob?
      modifies this
      ensures Step(State(), r) == FinishResetStep(old(State()), h, input)
      ensures Valid()
    {
      var job := jobs[h];
      if AfterRejected(State(), h) {
        var _ := Settle(h, settled[job.after.value]);
        r := None;
      } else if job.target.reset.Some? && input.Returned? {
        var result := CallReset(h, job.target.reset.value.service, input.value);
        r := Some(result);
      } else {
        var o := DoReset(job.target.reset, input, services);
        EndReset(h, o.result);
        r := Some(o.result);
      }
    }

    /** `targetResetCall`, then `call` on the reset service and the end of the reset. */
    method CallReset(h: Handle, service: ServiceInstance, v: Value) returns (result: ServiceResult)
      requires Valid() && h in jobs && jobs[h].ResetJob?
      modifies this
      ensures Step(State(), result) == CallResetStep(old(State()), h, service, v)
      ensures Valid()
    {
      Emit(ResetCall, jobs[h].target);
      result := CalledReset(h, service, v);
    }

    /** `call` on the reset service, then the end of the reset with what it returned. */
    method CalledReset(h: Handle, service: ServiceInstance, v: Value) returns (result: ServiceResult)
      requires Valid() && h in jobs && jobs[h].ResetJob?
      modifies this
      ensures Step(State(), result) == CalledResetStep(old(State()), h, service, v)
      ensures Valid()
    {
      result := Call(service, v);
      EndReset(h, result);
    }

    /** `stale` is proposed at the clock fixed when the reset started, then `targetResetEnd`. */
    method EndReset(h: Handle, result: ServiceResult)
      requires Valid() && h in jobs && jobs[h].ResetJob?
      modifies this
      ensures State() == ResetEndStep(old(State()), h, result)
      ensures Valid()
    {
      var job := jobs[h];
      var _ := ProposeTargetState(job.target, Stale(job.staleClock, result, job.cachedSerializedInput, job.cachedResult));
      AnnounceResetEnd(h, result);
    }

    /** `targetResetEnd`; the job keeps the result until its dependents have settled. */
    method AnnounceResetEnd(h: Handle, result: ServiceResult)
      requires Valid() && h in jobs && jobs[h].ResetJob?
      modifies this
      ensures State() == ResetAnnouncedStep(old(State()), h, result)
      ensures Valid()
    {
      Emit(ResetEnd(result), jobs[h].target);
      jobs := jobs[h := jobs[h].(ended := Some(result))];
    }

    /**
     * `await resetDependents; return resetResult` for reset h, once
     * `Promise.all` over its dependents has settled as `rejected` says.
     */
    method SettleReset(h: Handle, rejected: Option<nat>) returns (r: Settlement)
      requires Valid() && h in jobs && h !in settled && jobs[h].ResetJob? && jobs[h].ended.Some?
      requires DependentsSettled(settled, jobs[h].dependents, rejected)
      modifies this
      ensures Step(State(), r) == SettleResetStep(old(State()), h, rejected)
      ensures Valid()
    {
      var job := jobs[h];
      match rejected
      case None =>
        r := Settle(h, Resolved(job.ended.value));
      case Some(k) =>
        r := Settle(h, settled[job.dependents[k].handle]);
    }

    /**
     * The callback `_doBuild` hands to `_tryBuildWithCallback` for
     * `dependent`, called once `build(dependency)` has settled with
     * `result`: `dependent` joins the dependency's dependents (a `Set`, so
     * once), and `tryBuild` then yields the value or throws
     * `TargetUnavailableError`.
     */
    method TryBuildCallback(dependent: TargetInstance, dependency: TargetInstance, result: TargetResult)
      returns (c: Completion<Value, Exception>)
      requires Valid() && Registered(State().table, dependent) && Registered(State().table, dependency)
      requires !targetStates[dependency.id].Initial?
      modifies this
      ensures Step(State(), c) == TryBuildCallbackStep(old(State()), dependent, dependency, result)
      ensures Valid()
    {
      targetDependents := targetDependents[dependency.id := SetAdd(targetDependents[dependency.id], dependent)];
      c := Unwrap(dependency, result);
    }
  }
}
