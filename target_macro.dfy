// `targetMacro` and `macroCompose`: helpers that build target definitions
// from service definitions and argument functions, and hand them to the
// runner's `target` registration.
module TargetMacros {
  import opened Common
  import opened Service

  /**
   * A service definition object as this file writes it. `run` is `None`
   * when the object has no `run` property.
   */
  datatype DefinitionObject = DefinitionObject(id: string, pure: bool, run: Option<Value -> Behaviour>)

  /** What invoking `definition.run(input)` does: a missing `run` makes the call itself throw a `TypeError`. */
  function RunOf(definition: DefinitionObject, input: Value): (b: Behaviour)
    ensures definition.run.None? ==> b.outcome.Threw?
    ensures definition.run.Some? ==> b == definition.run.value(input)
  {
    match definition.run
    case None => Behaviour([], Threw(Error("definition.run is not a function")))
    case Some(run) => run(input)
  }

  /** The NoOp definition as written: its function sits under `call`, so it has no `run`. */
  function NoOpAsWritten(): (d: DefinitionObject)
    ensures d.id == NoOpServiceDefinition().id && d.pure == NoOpServiceDefinition().pure
    ensures d.run.None? && NoOpServiceDefinition().run.Some?
  {
    DefinitionObject("NoOp", true, None)
  }

  /** As written, running the default reset service throws instead of returning null. */
  lemma NoOpAsWrittenCannotRun(input: Value)
    ensures RunOf(NoOpAsWritten(), input).outcome.Threw?
  {
  }

  /** The NoOp definition with its function under `run`, as the definition type requires. */
  function NoOpServiceDefinition(): DefinitionObject
  {
    DefinitionObject("NoOp", true, Some((input: Value) => Behaviour([], Returned(Null))))
  }

  /** NoOp is pure and returns null, with no logs or warnings. */
  lemma NoOpReturnsNull(input: Value)
    ensures NoOpServiceDefinition().pure
    ensures RunOf(NoOpServiceDefinition(), input) == Behaviour([], Returned(Null))
  {
  }

  datatype TargetDefinition<!A> = TargetDefinition(
    id: string,
    args: A,
    buildService: DefinitionObject,
    buildInputs: A -> Value,
    resetService: DefinitionObject,
    resetInputs: A -> Value)

  /** `macroCompose(macro, transform)`: transform the arguments, then apply the macro. */
  function MacroCompose<R(!new), A, B(!new), Out>(macro: (R, A) -> Out, transform: B -> A): (m: (R, B) -> Out)
    ensures forall r, b :: m(r, b) == macro(r, transform(b))
  {
    (r: R, b: B) => macro(r, transform(b))
  }

  /**
   * The definition `targetMacro` builds for `args`: its id is `args.id`,
   * its `args` is `args` itself, and a missing reset service and reset
   * argument function default to NoOp as written (without a `run`) and a
   * function returning null.
   */
  function MacroDefinition<A(!new)>(
    idOf: A -> string,
    buildService: DefinitionObject,
    buildArgs: A -> Value,
    resetService: Option<DefinitionObject>,
    resetArgs: Option<A -> Value>,
    args: A): (d: TargetDefinition<A>)
    ensures d.id == idOf(args) && d.args == args
    ensures d.buildService == buildService && d.buildInputs == buildArgs
    ensures resetService.None? ==> d.resetService == NoOpAsWritten()
    ensures resetService.Some? ==> d.resetService == resetService.value
    ensures resetArgs.None? ==> forall a :: d.resetInputs(a) == Null
    ensures resetArgs.Some? ==> d.resetInputs == resetArgs.value
  {
    TargetDefinition(
      idOf(args), args, buildService, buildArgs,
      if resetService.Some? then resetService.value else NoOpAsWritten(),
      if resetArgs.Some? then resetArgs.value else (a: A) => Null)
  }

  /**
   * The definition with the corrected NoOp as the default reset service:
   * it differs from `MacroDefinition` only in that default.
   */
  function MacroDefinitionCorrected<A(!new)>(
    idOf: A -> string,
    buildService: DefinitionObject,
    buildArgs: A -> Value,
    resetService: Option<DefinitionObject>,
    resetArgs: Option<A -> Value>,
    args: A): (d: TargetDefinition<A>)
    ensures resetService.Some? ==> d == MacroDefinition(idOf, buildService, buildArgs, resetService, resetArgs, args)
    ensures resetService.None? ==> d.resetService == NoOpServiceDefinition()
    ensures resetService.None? ==>
      d.(resetService := NoOpAsWritten()) == MacroDefinition(idOf, buildService, buildArgs, resetService, resetArgs, args)
  {
    var d := MacroDefinition(idOf, buildService, buildArgs, resetService, resetArgs, args);
    if resetService.None? then d.(resetService := NoOpServiceDefinition()) else d
  }

  /**
   * `targetMacro(...)`: a macro that, given a runner and arguments, passes
   * `MacroDefinition(..., args)` to the runner's `target` registration.
   */
  function TargetMacro<R(!new), A(!new), Out>(
    target: (R, TargetDefinition<A>) -> Out,
    idOf: A -> string,
    buildService: DefinitionObject,
    buildArgs: A -> Value,
    resetService: Option<DefinitionObject>,
    resetArgs: Option<A -> Value>): (m: (R, A) -> Out)
    ensures forall r, args :: m(r, args) == target(r, MacroDefinition(idOf, buildService, buildArgs, resetService, resetArgs, args))
  {
    (r: R, args: A) => target(r, MacroDefinition(idOf, buildService, buildArgs, resetService, resetArgs, args))
  }

  /** `targetMacro` with the corrected NoOp default. */
  function TargetMacroCorrected<R(!new), A(!new), Out>(
    target: (R, TargetDefinition<A>) -> Out,
    idOf: A -> string,
    buildService: DefinitionObject,
    buildArgs: A -> Value,
    resetService: Option<DefinitionObject>,
    resetArgs: Option<A -> Value>): (m: (R, A) -> Out)
    ensures forall r, args :: m(r, args) == target(r, MacroDefinitionCorrected(idOf, buildService, buildArgs, resetService, resetArgs, args))
  {
    (r: R, args: A) => target(r, MacroDefinitionCorrected(idOf, buildService, buildArgs, resetService, resetArgs, args))
  }

  /** Composing twice is composing once with the composed transform. */
  lemma MacroComposeTwice<R(!new), A, B(!new), C(!new), Out>(macro: (R, A) -> Out, f: B -> A, g: C -> B, r: R, c: C)
    ensures MacroCompose(MacroCompose(macro, f), g)(r, c) == MacroCompose(macro, (x: C) => f(g(x)))(r, c)
    ensures MacroCompose(MacroCompose(macro, f), g)(r, c) == macro(r, f(g(c)))
  {
  }

  /**
   * As written, the two-argument form of `targetMacro` registers a target
   * whose id is `args.id` and whose reset input is null, but whose reset
   * service is the NoOp object without `run`: resetting it throws.
   */
  lemma TargetMacroDefaultReset<R(!new), A(!new), Out>(
    target: (R, TargetDefinition<A>) -> Out,
    idOf: A -> string,
    buildService: DefinitionObject,
    buildArgs: A -> Value,
    r: R,
    args: A,
    input: Value)
    ensures exists d: TargetDefinition<A> ::
      TargetMacro(target, idOf, buildService, buildArgs, None, None)(r, args) == target(r, d) &&
      d.id == idOf(args) && d.buildService == buildService && d.resetInputs(args) == Null &&
      d.resetService == NoOpAsWritten() && RunOf(d.resetService, input).outcome.Threw?
  {
    var d := MacroDefinition(idOf, buildService, buildArgs, None, None, args);
    NoOpAsWrittenCannotRun(input);
    assert TargetMacro(target, idOf, buildService, buildArgs, None, None)(r, args) == target(r, d);
  }

  /**
   * Corrected, the two-argument form registers the same target except that
   * its reset service returns null without logging or warning.
   */
  lemma TargetMacroCorrectedDefaultReset<R(!new), A(!new), Out>(
    target: (R, TargetDefinition<A>) -> Out,
    idOf: A -> string,
    buildService: DefinitionObject,
    buildArgs: A -> Value,
    r: R,
    args: A,
    input: Value)
    ensures exists d: TargetDefinition<A> ::
      TargetMacroCorrected(target, idOf, buildService, buildArgs, None, None)(r, args) == target(r, d) &&
      d.id == idOf(args) && d.buildService == buildService && d.resetInputs(args) == Null &&
      RunOf(d.resetService, input) == Behaviour([], Returned(Null))
  {
    var d := MacroDefinitionCorrected(idOf, buildService, buildArgs, None, None, args);
    NoOpReturnsNull(input);
    assert TargetMacroCorrected(target, idOf, buildService, buildArgs, None, None)(r, args) == target(r, d);
  }
}
