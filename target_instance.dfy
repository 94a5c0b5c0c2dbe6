// Targets of the current engine: a target is an object holding its id,
// its configuration, a build spec and an optional reset spec.
module TargetInstances {
  import opened Common
  import opened Service

  /**
   * An input function `(config, context) => input`. What a call of it
   * produces depends on the builds it awaits, so the runner receives that
   * outcome as a step parameter; here it only has an identity.
   */
  datatype InputFunction = InputFunction(name: string)

  datatype Spec = Spec(service: ServiceInstance, input: InputFunction)

  datatype TargetDefinition = TargetDefinition(id: string, config: Value, build: Spec, reset: Option<Spec>)

  class TargetInstance {
    const id: string
    const config: Value
    const build: Spec
    const reset: Option<Spec>

    constructor (definition: TargetDefinition)
      ensures id == definition.id && config == definition.config
      ensures build == definition.build && reset == definition.reset
    {
      id := definition.id;
      config := definition.config;
      build := definition.build;
      reset := definition.reset;
    }
  }

  /** `defineTarget(definition)`: a new instance per call. */
  method DefineTarget(definition: TargetDefinition) returns (t: TargetInstance)
    ensures fresh(t)
    ensures t.id == definition.id && t.config == definition.config
    ensures t.build == definition.build && t.reset == definition.reset
  {
    t := new TargetInstance(definition);
  }
}
