// Services of the current engine: their results, what running one does,
// `ServiceInstance`, `defineService` and the identity service.
module Service {
  import opened Common

  /** A value of the `Serializable` type: what inputs and outputs are made of. */
  datatype Value =
    | Null
    | Bool(b: bool)
    | Number(x: real)
    | Str(s: string)
    | Array(items: seq<Value>)
    | Object(entries: seq<(string, Value)>)

  datatype UnavailableStatus = FailedStatus | SkippedStatus
  {
    function Name(): string
    {
      match this
      case FailedStatus => "failed"
      case SkippedStatus => "skipped"
    }
  }

  /** What can be thrown: a `TargetUnavailableError` or any other error with a message. */
  datatype Exception =
    | TargetUnavailable(targetId: string, status: UnavailableStatus)
    | Error(message: string)

  /** `JSON.stringify` of a string, without escaping. */
  function Quoted(s: string): string
  {
    "\"" + s + "\""
  }

  /**
   * `util.inspect(e)`, reduced to the error's name and message; the stack
   * trace the real rendering adds is not modelled.
   */
  function Inspect(e: Exception): string
  {
    match e
    case TargetUnavailable(id, status) => "TargetUnavailableError: " + Quoted(id) + " " + status.Name()
    case Error(message) => "Error: " + message
  }

  /**
   * A target result: a service result (`ok`, `warned`, `failed`) or
   * `skipped`. Only `ok` and `warned` carry a value.
   */
  datatype TargetResult =
    | Ok(value: Value, logs: string)
    | Warned(value: Value, logs: string)
    | Failed(logs: string)
    | Skipped(logs: string)
  {
    predicate HasValue() { Ok? || Warned? }
  }

  /** A service result is never `skipped`. */
  type ServiceResult = r: TargetResult | !r.Skipped? witness Failed("")

  /**
   * One thing a service's `run` does through its context before it returns
   * or throws: `log(...)`, `warn(...)`, or `tryCall(service, input)` with the
   * result that nested call produced.
   */
  datatype RunStep = Log(message: string) | Warn(message: string) | TryCall(result: ServiceResult)

  /** What `run(input, context)` does: its context calls, in order, and how it ends. */
  datatype Behaviour = Behaviour(steps: seq<RunStep>, outcome: Completion<Value, Exception>)

  datatype ServiceDefinition = ServiceDefinition(id: string, pure: bool, run: Value -> Behaviour)

  class ServiceInstance {
    const id: string
    const pure: bool
    const run: Value -> Behaviour

    /** Copies `id`, `pure` and `run` from the definition. */
    constructor (definition: ServiceDefinition)
      ensures id == definition.id && pure == definition.pure && run == definition.run
    {
      id := definition.id;
      pure := definition.pure;
      run := definition.run;
    }
  }

  /** Every call gives a new instance. */
  method DefineService(definition: ServiceDefinition) returns (s: ServiceInstance)
    ensures fresh(s)
    ensures s.id == definition.id && s.pure == definition.pure && s.run == definition.run
  {
    s := new ServiceInstance(definition);
  }

  function IdentityDefinition(): (d: ServiceDefinition)
    ensures d.id == "Identity" && d.pure
    ensures forall input :: d.run(input) == Behaviour([], Returned(input))
  {
    ServiceDefinition("Identity", true, input => Behaviour([], Returned(input)))
  }

  /** The module instance, which creates the identity service once, when it loads. */
  class ServiceModule {
    const identity: ServiceInstance

    constructor ()
      ensures fresh(identity)
      ensures identity.id == "Identity" && identity.pure && identity.run == IdentityDefinition().run
    {
      identity := new ServiceInstance(IdentityDefinition());
    }

    /** `identityService()`: the same instance on every call. */
    function IdentityService(): (s: ServiceInstance)
      ensures s == identity
    {
      identity
    }
  }
}
