// `defineRule`: a rule captures a build service and input function, and
// optionally a reset service and input function; applying it to an id and
// a configuration defines a new target.
module Rules {
  import opened Common
  import opened Service
  import opened TargetInstances

  datatype Rule = Rule(
    buildService: ServiceInstance,
    buildInput: InputFunction,
    resetService: Option<ServiceInstance>,
    resetInput: Option<InputFunction>)

  function DefineRule(
    buildService: ServiceInstance,
    buildInput: InputFunction,
    resetService: Option<ServiceInstance>,
    resetInput: Option<InputFunction>): (r: Rule)
    ensures forall id, config :: DefinitionOf(r, id, config).build == Spec(buildService, buildInput)
    ensures forall id, config ::
      DefinitionOf(r, id, config).reset == (if resetService.Some? && resetInput.Some? then Some(Spec(resetService.value, resetInput.value)) else None)
  {
    Rule(buildService, buildInput, resetService, resetInput)
  }

  /** `resetService && resetInput ? {service, input} : undefined`. */
  function ResetSpecOf(resetService: Option<ServiceInstance>, resetInput: Option<InputFunction>): (r: Option<Spec>)
    ensures r.Some? <==> resetService.Some? && resetInput.Some?
    ensures r.Some? ==> r.value.service == resetService.value && r.value.input == resetInput.value
  {
    if resetService.Some? && resetInput.Some? then Some(Spec(resetService.value, resetInput.value)) else None
  }

  /** The definition a rule passes to `defineTarget` for `(id, config)`. */
  function DefinitionOf(rule: Rule, id: string, config: Value): (d: TargetDefinition)
    ensures d.id == id && d.config == config
    ensures d.build == Spec(rule.buildService, rule.buildInput)
    ensures d.reset.Some? <==> rule.resetService.Some? && rule.resetInput.Some?
  {
    TargetDefinition(id, config, Spec(rule.buildService, rule.buildInput), ResetSpecOf(rule.resetService, rule.resetInput))
  }

  /** Calling the rule: each call defines a new target. */
  method Apply(rule: Rule, id: string, config: Value) returns (t: TargetInstance)
    ensures fresh(t)
    ensures t.id == id && t.config == config
    ensures t.build == Spec(rule.buildService, rule.buildInput)
    ensures t.reset == ResetSpecOf(rule.resetService, rule.resetInput)
  {
    t := DefineTarget(DefinitionOf(rule, id, config));
  }
}
