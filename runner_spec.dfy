// The values the current engine's runner works with, and the decisions it
// makes that do not depend on its mutable registries: the clock check on a
// proposed state, which listeners an event reaches, what `call` makes of a
// service run, what a build and a reset compute, and what `tryBuild`
// returns for a target, an array or a record of targets.
module RunnerSpec {
  import opened Common
  import opened Service
  import opened TargetInstances

  /** A pending promise; the runner numbers them as it creates them. */
  type Handle = nat

  /** A promise the runner hands back: already settled with a value, or pending. */
  datatype Pending<+T> = Ready(value: T) | Waiting(handle: Handle)

  /**
   * The per-target state record. `initial` has clock 0 and no caches;
   * `fresh` always holds a cached result.
   */
  datatype TargetState =
    | Initial
    | Resetting(clock: nat, promise: Handle, cachedSerializedInput: Option<string>, cachedResult: Option<TargetResult>)
    | Stale(clock: nat, resetResult: ServiceResult, cachedSerializedInput: Option<string>, cachedResult: Option<TargetResult>)
    | Building(clock: nat, promise: Handle, cachedSerializedInput: Option<string>, cachedResult: Option<TargetResult>)
    | Fresh(clock: nat, cachedSerializedInput: Option<string>, result: TargetResult)
  {
    function Clock(): nat
    {
      if Initial? then 0 else clock
    }

    function CachedInput(): Option<string>
    {
      if Initial? then None else cachedSerializedInput
    }

    function CachedResult(): Option<TargetResult>
    {
      match this
      case Initial => None
      case Fresh(_, _, result) => Some(result)
      case _ => cachedResult
    }

    predicate IsResetOrStale()
    {
      Resetting? || Stale?
    }
  }

  /** `_proposeTargetState`'s check: the proposal's clock is exactly one past the current clock. */
  predicate Accepts(current: TargetState, proposed: TargetState)
  {
    current.Clock() + 1 == proposed.Clock()
  }

  /**
   * Of two proposals carrying the same clock, at most one can be installed:
   * once one is, the current clock equals the other's clock.
   */
  lemma SameClockProposalsExclusive(current: TargetState, first: TargetState, second: TargetState)
    requires Accepts(current, first) && first.Clock() == second.Clock()
    ensures !Accepts(first, second)
  {
  }

  /**
   * `build` on an `initial` target starts a reset (resetting at 1, stale
   * proposal at 2) and then installs building at 2: the stale proposal can
   * no longer be accepted, from that state or any with a later clock.
   */
  lemma InitialResetProposalRejected(later: TargetState, stale: TargetState)
    requires later.Clock() >= 2 && stale.Clock() == 2
    ensures !Accepts(later, stale)
  {
  }

  /** The event types, by their `type` field. */
  datatype EventKind =
    | TargetResetStart
    | TargetResetCall
    | TargetResetEnd
    | TargetBuildStart
    | TargetBuildCall
    | TargetBuildEnd
  {
    function TypeName(): string
    {
      match this
      case TargetResetStart => "targetResetStart"
      case TargetResetCall => "targetResetCall"
      case TargetResetEnd => "targetResetEnd"
      case TargetBuildStart => "targetBuildStart"
      case TargetBuildCall => "targetBuildCall"
      case TargetBuildEnd => "targetBuildEnd"
    }
  }

  datatype EventBody =
    | ResetStart
    | ResetCall
    | ResetEnd(resetResult: ServiceResult)
    | BuildStart
    | BuildCall
    | BuildEnd(buildResult: TargetResult, obsolete: bool, cached: bool)
  {
    function Kind(): EventKind
    {
      match this
      case ResetStart => TargetResetStart
      case ResetCall => TargetResetCall
      case ResetEnd(_) => TargetResetEnd
      case BuildStart => TargetBuildStart
      case BuildCall => TargetBuildCall
      case BuildEnd(_, _, _) => TargetBuildEnd
    }
  }

  datatype RunnerEvent = RunnerEvent(body: EventBody, target: TargetInstance, sequence: nat)

  /** What a listener was registered for: `"all"` or one event type. */
  datatype ListenFor = All | Only(kind: EventKind)

  /** A registered listener, and whether it throws on an event. */
  datatype Listener = Listener(listenFor: ListenFor, throws: RunnerEvent -> bool)

  /** One invocation of a listener: which one, with which event, and whether it threw. */
  datatype Delivery = Delivery(listener: nat, event: RunnerEvent, threw: bool)

  predicate Matches(l: Listener, e: RunnerEvent)
  {
    l.listenFor == All || l.listenFor == Only(e.body.Kind())
  }

  /** The invocations `_emit` makes among the first `n` listeners, in order. */
  function NotifyUpTo(listeners: seq<Listener>, e: RunnerEvent, n: nat): seq<Delivery>
    requires n <= |listeners|
  {
    if n == 0 then []
    else
      NotifyUpTo(listeners, e, n - 1) +
      (if Matches(listeners[n - 1], e) then [Delivery(n - 1, e, listeners[n - 1].throws(e))] else [])
  }

  function Notify(listeners: seq<Listener>, e: RunnerEvent): seq<Delivery>
  {
    NotifyUpTo(listeners, e, |listeners|)
  }

  /**
   * `_emit` calls exactly the listeners whose type matches, in registration
   * order, each once; whether an earlier one threw makes no difference.
   */
  lemma {:induction false} NotifyUpToExact(listeners: seq<Listener>, e: RunnerEvent, n: nat)
    requires n <= |listeners|
    ensures forall k :: 0 <= k < |NotifyUpTo(listeners, e, n)| ==>
      var d := NotifyUpTo(listeners, e, n)[k];
      d.listener < n && Matches(listeners[d.listener], e) && d == Delivery(d.listener, e, listeners[d.listener].throws(e))
    ensures forall k, k' :: 0 <= k < k' < |NotifyUpTo(listeners, e, n)| ==>
      NotifyUpTo(listeners, e, n)[k].listener < NotifyUpTo(listeners, e, n)[k'].listener
    ensures forall i :: 0 <= i < n && Matches(listeners[i], e) ==>
      exists k :: 0 <= k < |NotifyUpTo(listeners, e, n)| && NotifyUpTo(listeners, e, n)[k].listener == i
  {
    if n > 0 {
      NotifyUpToExact(listeners, e, n - 1);
      var prefix := NotifyUpTo(listeners, e, n - 1);
      if Matches(listeners[n - 1], e) {
        assert NotifyUpTo(listeners, e, n)[|prefix|].listener == n - 1;
      }
      forall i | 0 <= i < n && Matches(listeners[i], e)
        ensures exists k :: 0 <= k < |NotifyUpTo(listeners, e, n)| && NotifyUpTo(listeners, e, n)[k].listener == i
      {
        if i < n - 1 {
          var k :| 0 <= k < |prefix| && prefix[k].listener == i;
          assert NotifyUpTo(listeners, e, n)[k] == prefix[k];
        } else {
          assert NotifyUpTo(listeners, e, n)[|prefix|].listener == i;
        }
      }
    }
  }

  lemma NotifyExact(listeners: seq<Listener>, e: RunnerEvent)
    ensures forall k :: 0 <= k < |Notify(listeners, e)| ==>
      var d := Notify(listeners, e)[k];
      d.listener < |listeners| && Matches(listeners[d.listener], e) && d == Delivery(d.listener, e, listeners[d.listener].throws(e))
    ensures forall k, k' :: 0 <= k < k' < |Notify(listeners, e)| ==>
      Notify(listeners, e)[k].listener < Notify(listeners, e)[k'].listener
    ensures forall i :: 0 <= i < |listeners| && Matches(listeners[i], e) ==>
      exists k :: 0 <= k < |Notify(listeners, e)| && Notify(listeners, e)[k].listener == i
  {
    NotifyUpToExact(listeners, e, |listeners|);
    assert Notify(listeners, e) == NotifyUpTo(listeners, e, |listeners|);
  }

  /** All invocations for a series of events emitted with the same listeners. */
  function NotifyAll(listeners: seq<Listener>, events: seq<RunnerEvent>): seq<Delivery>
  {
    if |events| == 0 then [] else NotifyAll(listeners, events[..|events| - 1]) + Notify(listeners, events[|events| - 1])
  }

  lemma {:induction false} NotifyAllAppend(listeners: seq<Listener>, a: seq<RunnerEvent>, b: seq<RunnerEvent>)
    ensures NotifyAll(listeners, a + b) == NotifyAll(listeners, a) + NotifyAll(listeners, b)
  {
    if |b| > 0 {
      calc {
        NotifyAll(listeners, a + b);
        { assert (a + b)[..|a + b| - 1] == a + b[..|b| - 1]; }
        NotifyAll(listeners, a + b[..|b| - 1]) + Notify(listeners, b[|b| - 1]);
        { NotifyAllAppend(listeners, a, b[..|b| - 1]); }
        NotifyAll(listeners, a) + NotifyAll(listeners, b[..|b| - 1]) + Notify(listeners, b[|b| - 1]);
      }
    } else {
      assert a + b == a;
    }
  }

  // ---- call ----

  /** The line a context call adds to the logs: a log or warn message, or a nested result's logs. */
  function StepLog(step: RunStep): string
  {
    match step
    case Log(message) => message
    case Warn(message) => message
    case TryCall(result) => result.logs
  }

  /** `warn` was called, or a `tryCall` returned a warned result. */
  predicate MarksWarned(step: RunStep)
  {
    step.Warn? || (step.TryCall? && step.result.Warned?)
  }

  function StepLogs(steps: seq<RunStep>): (logs: seq<string>)
    ensures |logs| == |steps|
    ensures forall i :: 0 <= i < |steps| ==> logs[i] == StepLog(steps[i])
  {
    if |steps| == 0 then [] else [StepLog(steps[0])] + StepLogs(steps[1..])
  }

  /** The `warned` flag after the context calls `steps`. */
  function WarnedAfter(steps: seq<RunStep>): (warned: bool)
    ensures warned <==> exists i :: 0 <= i < |steps| && MarksWarned(steps[i])
  {
    if |steps| == 0 then false
    else
      assert forall i :: 1 <= i < |steps| ==> steps[1..][i - 1] == steps[i];
      MarksWarned(steps[0]) || WarnedAfter(steps[1..])
  }

  /**
   * What `call` returns for a run that behaved as `b`: `failed` exactly when
   * `run` threw, `warned` exactly when it returned after a warning, `ok`
   * otherwise; the value is what `run` returned; the logs are the collected
   * lines, plus the rendered error on failure, joined by newlines.
   */
  function CallRun(b: Behaviour): (r: ServiceResult)
    ensures r.Failed? <==> b.outcome.Threw?
    ensures r.Warned? <==> b.outcome.Returned? && exists i :: 0 <= i < |b.steps| && MarksWarned(b.steps[i])
    ensures r.HasValue() ==> r.value == b.outcome.value
    ensures b.outcome.Returned? ==> r.logs == Join(StepLogs(b.steps), "\n")
    ensures b.outcome.Threw? ==> r.logs == Join(StepLogs(b.steps) + [Inspect(b.outcome.error)], "\n")
  {
    match b.outcome
    case Returned(value) =>
      if WarnedAfter(b.steps) then Warned(value, Join(StepLogs(b.steps), "\n"))
      else Ok(value, Join(StepLogs(b.steps), "\n"))
    case Threw(e) => Failed(Join(StepLogs(b.steps) + [Inspect(e)], "\n"))
  }

  function DuplicateServiceMessage(id: string): string
  {
    "Cannot have more than one service with id " + Quoted(id) + "."
  }

  function DuplicateTargetMessage(id: string): string
  {
    "Cannot have more than one target with id " + Quoted(id) + "."
  }

  /** `_asServiceInstance` throws: the id is registered to a different instance. */
  predicate ServiceClash(services: map<string, ServiceInstance>, service: ServiceInstance)
  {
    service.id in services && services[service.id] != service
  }

  /** `service` itself is registered under its id. */
  predicate ServiceRegistered(services: map<string, ServiceInstance>, service: ServiceInstance)
  {
    service.id in services && services[service.id] == service
  }

  /** `_asTargetInstance` throws: the id is registered to a different instance. */
  predicate TargetClash(targets: map<string, TargetInstance>, target: TargetInstance)
  {
    target.id in targets && targets[target.id] != target
  }

  /**
   * `call(service, input)` against the registry `services`: a clash is
   * caught and reported as `failed` with the error as its only log line;
   * otherwise the run's behaviour decides.
   */
  function CallOutcome(services: map<string, ServiceInstance>, service: ServiceInstance, input: Value): (r: ServiceResult)
    ensures ServiceClash(services, service) ==> r == Failed(Inspect(Error(DuplicateServiceMessage(service.id))))
    ensures !ServiceClash(services, service) ==> r == CallRun(service.run(input))
  {
    if ServiceClash(services, service) then Failed(Join([Inspect(Error(DuplicateServiceMessage(service.id)))], "\n"))
    else CallRun(service.run(input))
  }

  // ---- _doBuild and _doReset ----

  datatype BuildOutcome = BuildOutcome(result: TargetResult, serializedInput: Option<string>, usedCache: bool)

  /** The result when the input function throws: `skipped` for an unavailable target, `failed` otherwise. */
  function InputFailure(e: Exception): (r: TargetResult)
    ensures !r.HasValue() && r.logs == Inspect(e)
    ensures r.Skipped? <==> e.TargetUnavailable?
  {
    if e.TargetUnavailable? then Skipped(Inspect(e)) else Failed(Inspect(e))
  }

  /**
   * What `_doBuild` computes once the input function has produced `input`,
   * for a build service that is registered without a clash.
   */
  function DoBuild(
    input: Completion<Value, Exception>,
    service: ServiceInstance,
    serialize: Value -> string,
    cachedSerializedInput: Option<string>,
    cachedResult: Option<TargetResult>): (o: BuildOutcome)
    ensures o.usedCache <==>
      input.Returned? && service.pure && cachedSerializedInput == Some(serialize(input.value)) && cachedResult.Some?
    ensures o.usedCache ==> o.result == cachedResult.value
    ensures o.serializedInput.Some? <==> input.Returned? && service.pure
    ensures o.serializedInput.Some? ==> o.serializedInput.value == serialize(input.value)
    ensures input.Threw? ==> o.result == InputFailure(input.error)
    ensures input.Returned? && !o.usedCache ==> o.result == CallRun(service.run(input.value))
  {
    match input
    case Threw(e) => BuildOutcome(InputFailure(e), None, false)
    case Returned(v) =>
      if !service.pure then BuildOutcome(CallRun(service.run(v)), None, false)
      else
        var serialized := serialize(v);
        if Some(serialized) == cachedSerializedInput && cachedResult.Some? then
          BuildOutcome(cachedResult.value, Some(serialized), true)
        else BuildOutcome(CallRun(service.run(v)), Some(serialized), false)
  }

  /** The build service runs (and `targetBuildCall` is emitted) exactly when the input succeeded and the cache was not used. */
  predicate BuildCalls(input: Completion<Value, Exception>, o: BuildOutcome)
  {
    input.Returned? && !o.usedCache
  }

  /** A build that reuses the cache hands back the very cached result and calls nothing. */
  lemma CachedBuildCallsNothing(
    input: Completion<Value, Exception>, service: ServiceInstance, serialize: Value -> string,
    cachedSerializedInput: Option<string>, cachedResult: Option<TargetResult>)
    requires input.Returned? && service.pure && cachedSerializedInput == Some(serialize(input.value))
    requires cachedResult.Some?
    ensures var o := DoBuild(input, service, serialize, cachedSerializedInput, cachedResult);
      o.usedCache && o.result == cachedResult.value && !BuildCalls(input, o)
  {
  }

  /** An impure service is always called again, whatever the caches hold. */
  lemma ImpureBuildNeverCached(
    v: Value, service: ServiceInstance, serialize: Value -> string,
    cachedSerializedInput: Option<string>, cachedResult: Option<TargetResult>)
    requires !service.pure
    ensures var o := DoBuild(Returned(v), service, serialize, cachedSerializedInput, cachedResult);
      !o.usedCache && o.serializedInput == None && BuildCalls(Returned(v), o)
  {
  }

  datatype ResetOutcome = ResetOutcome(result: ServiceResult, called: bool)

  /**
   * What `_doReset` computes once the reset input function (if any) has
   * produced `input`: no reset spec gives `ok` with value null and no logs;
   * an input error gives `failed` and no call; otherwise the reset service
   * is called through `call`.
   */
  function DoReset(reset: Option<Spec>, input: Completion<Value, Exception>, services: map<string, ServiceInstance>): (o: ResetOutcome)
    ensures reset.None? ==> o == ResetOutcome(Ok(Null, ""), false)
    ensures reset.Some? && input.Threw? ==> o == ResetOutcome(Failed(Inspect(input.error)), false)
    ensures reset.Some? && input.Returned? ==>
      o.called && o.result == CallOutcome(services, reset.value.service, input.value)
    ensures o.result.Skipped? == false
  {
    if reset.None? then ResetOutcome(Ok(Null, ""), false)
    else if input.Threw? then ResetOutcome(Failed(Inspect(input.error)), false)
    else ResetOutcome(CallOutcome(services, reset.value.service, input.value), true)
  }

  // ---- tryBuild ----

  /**
   * What `tryBuild` returns for one built target: its value when `ok` or
   * `warned`, else a `TargetUnavailableError` carrying the status.
   */
  function Unwrap(target: TargetInstance, r: TargetResult): (c: Completion<Value, Exception>)
    ensures c.Returned? <==> r.HasValue()
    ensures c.Returned? ==> c.value == r.value
    ensures c.Threw? ==> c.error == TargetUnavailable(target.id, if r.Failed? then FailedStatus else SkippedStatus)
  {
    if r.HasValue() then Returned(r.value)
    else Threw(TargetUnavailable(target.id, if r.Failed? then FailedStatus else SkippedStatus))
  }

  /** What `tryBuild` accepts: a target, an array of them, or a record of them (nesting allowed). */
  datatype TargetTree =
    | Single(target: TargetInstance)
    | ArrayOf(items: seq<TargetTree>)
    | RecordOf(entries: seq<(string, TargetTree)>)

  /** Every target in the tree built to a value. */
  predicate AllAvailable(t: TargetTree, results: TargetInstance -> TargetResult)
  {
    match t
    case Single(x) => results(x).HasValue()
    case ArrayOf(items) => forall k :: 0 <= k < |items| ==> AllAvailable(items[k], results)
    case RecordOf(entries) => forall k :: 0 <= k < |entries| ==> AllAvailable(entries[k].1, results)
  }

  /** `Promise.all` over the parts: all values in order, or the first part's error. */
  function Collect(rs: seq<Completion<Value, Exception>>): (c: Completion<seq<Value>, Exception>)
    ensures c.Returned? <==> forall k :: 0 <= k < |rs| ==> rs[k].Returned?
    ensures c.Returned? ==> |c.value| == |rs| && forall k :: 0 <= k < |rs| ==> rs[k] == Returned(c.value[k])
    ensures c.Threw? ==> exists k :: 0 <= k < |rs| && rs[k] == Threw(c.error)
  {
    if |rs| == 0 then Returned([])
    else match rs[0]
      case Threw(e) => Threw(e)
      case Returned(v) =>
        (match Collect(rs[1..])
         case Threw(e) => Threw(e)
         case Returned(vs) => Returned([v] + vs))
  }

  /**
   * `tryBuild(t)`, where `results` gives the result each target's build
   * settled with. It returns exactly when every target in `t` is available;
   * an array gives an array of the same length and a record a record with
   * the same keys in the same order, element by element; otherwise it
   * throws a `TargetUnavailableError`.
   */
  function TryBuildValue(t: TargetTree, results: TargetInstance -> TargetResult): (c: Completion<Value, Exception>)
    ensures c.Returned? <==> AllAvailable(t, results)
    ensures c.Threw? ==> c.error.TargetUnavailable?
    ensures t.Single? ==> c == Unwrap(t.target, results(t.target))
    ensures t.ArrayOf? && c.Returned? ==>
      c.value.Array? && |c.value.items| == |t.items| &&
      forall k :: 0 <= k < |t.items| ==> TryBuildValue(t.items[k], results) == Returned(c.value.items[k])
    ensures t.RecordOf? && c.Returned? ==>
      c.value.Object? && |c.value.entries| == |t.entries| &&
      forall k :: 0 <= k < |t.entries| ==>
        c.value.entries[k].0 == t.entries[k].0 && TryBuildValue(t.entries[k].1, results) == Returned(c.value.entries[k].1)
    decreases t
  {
    match t
    case Single(x) => Unwrap(x, results(x))
    case ArrayOf(items) =>
      var rs := seq(|items|, k requires 0 <= k < |items| => TryBuildValue(items[k], results));
      assert forall k :: 0 <= k < |items| ==> (rs[k].Returned? <==> AllAvailable(items[k], results));
      (match Collect(rs)
       case Threw(e) => Threw(e)
       case Returned(vs) => Returned(Array(vs)))
    case RecordOf(entries) =>
      var rs := seq(|entries|, k requires 0 <= k < |entries| => TryBuildValue(entries[k].1, results));
      assert forall k :: 0 <= k < |entries| ==> (rs[k].Returned? <==> AllAvailable(entries[k].1, results));
      match Collect(rs)
      case Threw(e) => Threw(e)
      case Returned(vs) => Returned(Object(seq(|entries|, k requires 0 <= k < |entries| => (entries[k].0, vs[k]))))
  }
}
