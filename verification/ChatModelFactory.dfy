/** Resolving a route to a model and to the request fields it is sent with. */
module ChatModelFactory {
  import opened Wrappers
  import opened Json
  import opened ChatTypes
  import opened ChatConfig

  datatype Reason = RouteNotConfigured | MissingCapability

  /** Why a request cannot be served; only the first is the deployment's fault. */
  datatype ChatError =
    | Misconfigured
    | RouteUnavailable(route: Route, reason: Reason, missing: seq<Capability>)
    | InvalidReasoningControl

  // ------------------------------------------------------------------------
  // Routes
  // ------------------------------------------------------------------------

  datatype ResolvedRoute = ResolvedRoute(name: string, definition: Definition, inheritsDefault: bool)

  function ResolveChatRoute(route: Route, config: Config): Result<ResolvedRoute, ChatError> {
    var explicit := Assigned(config.routes, route);
    if explicit.Some? then
      if explicit.value !in config.models then Failure(Misconfigured)
      else Success(ResolvedRoute(explicit.value, config.models[explicit.value], false))
    else
      var name := config.routes.default;
      if name !in config.models then Failure(Misconfigured)
      else if Needed(route).Some? && !HasCapability(config.models[name].behavior, Needed(route).value)
      then Failure(RouteUnavailable(route, RouteNotConfigured, [Needed(route).value]))
      else Success(ResolvedRoute(name, config.models[name], true))
  }

  /**
   * With a valid configuration a route gives a declared model that can do what
   * the route is for, or is unavailable: exactly when nothing is assigned to it
   * and the default model cannot do it.
   */
  lemma RoutesResolve(lower: Lower, config: Config, route: Route)
    requires ConfigOk(lower, config)
    ensures
      var r := ResolveChatRoute(route, config);
      && (r.Success? ==>
            && r.value.name in config.models && r.value.definition == config.models[r.value.name]
            && (Needed(route).Some? ==> HasCapability(r.value.definition.behavior, Needed(route).value))
            && r.value.inheritsDefault == Assigned(config.routes, route).None?
            && r.value.name == Or(Assigned(config.routes, route), config.routes.default))
      && (r.Failure? ==> Needed(route).Some? && r.error == RouteUnavailable(route, RouteNotConfigured, [Needed(route).value]))
      && (r.Failure? <==>
            && Assigned(config.routes, route).None? && Needed(route).Some?
            && config.routes.default in config.models
            && !HasCapability(config.models[config.routes.default].behavior, Needed(route).value))
  {
    assert CapableRoute(config.routes, route, config.models);
    assert CapableRoute(config.routes, ForDefault, config.models);
  }

  // ------------------------------------------------------------------------
  // Reasoning
  // ------------------------------------------------------------------------

  datatype Control = Control(enabled: bool, effort: Option<string>, budgetTokens: Option<real>)

  const NO_CONTROL := Control(false, None, None)

  datatype Applied = Applied(enabled: bool, effort: Option<string>, budgetTokens: Option<real>, patch: Patch)

  /** Names that a lookup finds on every object, declared or not. */
  const INHERITED_NAMES: set<string> := {
    "constructor", "hasOwnProperty", "isPrototypeOf", "propertyIsEnumerable", "toLocaleString", "toString", "valueOf",
    "__proto__", "__defineGetter__", "__defineSetter__", "__lookupGetter__", "__lookupSetter__"
  }

  /** What looking up an effort level gives; something inherited has no fields of its own to send. */
  function LookupLevel(levels: map<string, Patch>, level: string): Option<Patch> {
    if level in levels then Some(levels[level])
    else if level in INHERITED_NAMES then Some(map[])
    else None
  }

  function ResolveReasoning(b: Behavior, route: Route, control: Control): Result<Applied, ChatError> {
    match b.reasoning
    case NoReasoning =>
      if control.enabled then Failure(RouteUnavailable(route, MissingCapability, [Reasons]))
      else Success(Applied(false, None, None, map[]))
    case Always(request) => Success(Applied(true, None, None, Or(request, map[])))
    case Toggle(on, off) => Success(Applied(control.enabled, None, None, if control.enabled then on else Or(off, map[])))
    case Effort(levels, defaultLevel, off) =>
      if !control.enabled then Success(Applied(false, None, None, Or(off, map[])))
      else
        var level := Or(control.effort, defaultLevel);
        var patch := LookupLevel(levels, level);
        if patch.None? then Failure(InvalidReasoningControl)
        else Success(Applied(true, Some(level), None, patch.value))
    case Budget(field, defaultBudget, min, max, off) =>
      if !control.enabled then Success(Applied(false, None, None, Or(off, map[])))
      else
        var budget := Or(control.budgetTokens, defaultBudget as real);
        if budget.Floor as real != budget || budget < min as real || budget > max as real
        then Failure(InvalidReasoningControl)
        else Success(Applied(true, None, Some(budget), map[field := Num(budget)]))
  }

  /**
   * The caller names an effort that is neither declared nor inherited, or a
   * budget that the model does not offer.
   */
  predicate AsksTooMuch(b: Behavior, control: Control) {
    control.enabled &&
    match b.reasoning
    case Effort(levels, _, _) =>
      control.effort.Some? && control.effort.value !in levels && control.effort.value !in INHERITED_NAMES
    case Budget(_, _, min, max, _) =>
      control.budgetTokens.Some? &&
      var x := control.budgetTokens.value;
      x.Floor as real != x || x < min as real || x > max as real
    case _ => false
  }

  /**
   * For a valid behavior what is written into the request reaches no reserved
   * field. It is refused exactly if the caller asks for too much, or for
   * reasoning the model does not have; the model's own defaults never fail.
   */
  lemma ReasoningResolves(lower: Lower, b: Behavior, route: Route, control: Control)
    requires BehaviorOk(lower, b)
    ensures
      var r := ResolveReasoning(b, route, control);
      && (r.Success? ==>
            && PatchOk(lower, r.value.patch)
            && r.value.enabled == (control.enabled || b.reasoning.Always?))
      && (r == Failure(InvalidReasoningControl) <==> AsksTooMuch(b, control))
      && (r.Failure? && !AsksTooMuch(b, control) <==> control.enabled && !SupportsReasoning(b))
      && r != Failure(Misconfigured)
  {
  }

  /** What the model declared for being off, or nothing. */
  function OffPatch(r: Reasoning): Patch {
    match r
    case Toggle(_, off) => Or(off, map[])
    case Effort(_, _, off) => Or(off, map[])
    case Budget(_, _, _, _, off) => Or(off, map[])
    case _ => map[]
  }

  /**
   * What is sent is what was declared for what was asked: the named level or
   * the default one, the named budget or the default one, whole and within
   * bounds, or the off patch. For an inherited name that is not declared
   * nothing is sent. A model that always reasons sends the same whatever is
   * asked.
   */
  lemma PatchIsDeclared(lower: Lower, b: Behavior, route: Route, control: Control)
    requires BehaviorOk(lower, b) && ResolveReasoning(b, route, control).Success?
    ensures
      var applied := ResolveReasoning(b, route, control).value;
      && (!applied.enabled ==> applied.patch == OffPatch(b.reasoning) && applied.effort.None? && applied.budgetTokens.None?)
      && (b.reasoning.Always? ==>
            && applied.enabled && applied.effort.None? && applied.budgetTokens.None?
            && (b.reasoning.request.Some? ==> applied.patch == b.reasoning.request.value)
            && (b.reasoning.request.None? ==> applied.patch == map[]))
      && (b.reasoning.Toggle? && control.enabled ==> applied.patch == b.reasoning.on)
      && (b.reasoning.Effort? && control.enabled ==>
            && applied.effort.Some?
            && (control.effort.Some? ==> applied.effort == control.effort)
            && (control.effort.None? ==> applied.effort == Some(b.reasoning.defaultLevel))
            && (applied.effort.value in b.reasoning.levels ==> applied.patch == b.reasoning.levels[applied.effort.value])
            && (applied.effort.value !in b.reasoning.levels ==>
                  control.effort.Some? && applied.effort.value in INHERITED_NAMES && applied.patch == map[]))
      && (b.reasoning.Budget? && control.enabled ==>
            && applied.budgetTokens.Some?
            && (control.budgetTokens.Some? ==> applied.budgetTokens == control.budgetTokens)
            && (control.budgetTokens.None? ==> applied.budgetTokens == Some(b.reasoning.defaultBudget as real))
            && var x := applied.budgetTokens.value;
               && x.Floor as real == x && b.reasoning.min as real <= x <= b.reasoning.max as real
               && applied.patch == map[b.reasoning.field := Num(x)])
  {
  }

  /**
   * An effort nobody declared is not refused if every object inherits its
   * name: the request counts as reasoning at that level and sends nothing.
   */
  lemma InheritedEffortIsTaken(b: Behavior, route: Route)
    requires b.reasoning.Effort? && "constructor" !in b.reasoning.levels
    ensures ResolveReasoning(b, route, Control(true, Some("constructor"), None))
         == Success(Applied(true, Some("constructor"), None, map[]))
  {
  }

  // ------------------------------------------------------------------------
  // Models
  // ------------------------------------------------------------------------

  datatype Options = Options(route: Route, required: seq<Capability>, control: Control, maxOutputTokens: Option<real>)

  /**
   * The reasoning patch, and the output cap if it has a field of its own. The
   * cap is sent only to a model that takes one, over what the patch says for
   * that field; nothing else is added, nothing is lost, and from a valid
   * behavior and patch no reserved field is written.
   */
  method BuildModelKwargs(b: Behavior, maxOutputTokens: Option<real>, patch: Patch) returns (kwargs: Patch)
    ensures kwargs == ModelKwargs(b, maxOutputTokens, patch)
    ensures forall lower: Lower :: BehaviorOk(lower, b) && PatchOk(lower, patch) ==> PatchOk(lower, kwargs)
    ensures patch.Keys <= kwargs.Keys
    ensures forall field | field in kwargs && (field !in patch || kwargs[field] != patch[field]) ::
      && b.parameters.maxOutputTokens && b.parameters.maxOutputTokensField == Some(field) && field != DEFAULT_CAP_FIELD
      && maxOutputTokens.Some? && kwargs[field] == Num(maxOutputTokens.value)
    ensures
      && b.parameters.maxOutputTokens && maxOutputTokens.Some? && b.parameters.maxOutputTokensField.Some?
      && b.parameters.maxOutputTokensField.value != DEFAULT_CAP_FIELD
      ==> var field := b.parameters.maxOutputTokensField.value;
          field in kwargs && kwargs[field] == Num(maxOutputTokens.value)
  {
    kwargs := patch;
    var field := Or(b.parameters.maxOutputTokensField, DEFAULT_CAP_FIELD);
    if b.parameters.maxOutputTokens && maxOutputTokens.Some? && field != DEFAULT_CAP_FIELD {
      kwargs := kwargs[field := Num(maxOutputTokens.value)];
    }
  }

  function ModelKwargs(b: Behavior, maxOutputTokens: Option<real>, patch: Patch): Patch {
    var field := Or(b.parameters.maxOutputTokensField, DEFAULT_CAP_FIELD);
    if b.parameters.maxOutputTokens && maxOutputTokens.Some? && field != DEFAULT_CAP_FIELD
    then patch[field := Num(maxOutputTokens.value)]
    else patch
  }

  /** No reserved field is written; a cap is sent only to a model that takes one, and nothing else is added. */
  lemma KwargsAreAllowed(lower: Lower, b: Behavior, maxOutputTokens: Option<real>, patch: Patch)
    requires BehaviorOk(lower, b) && PatchOk(lower, patch)
    ensures
      var kwargs := ModelKwargs(b, maxOutputTokens, patch);
      && PatchOk(lower, kwargs)
      && (forall field | field in patch && Some(field) != b.parameters.maxOutputTokensField :: field in kwargs && kwargs[field] == patch[field])
      && (forall field | field in kwargs && field !in patch ::
            && b.parameters.maxOutputTokens && b.parameters.maxOutputTokensField == Some(field)
            && maxOutputTokens.Some? && kwargs[field] == Num(maxOutputTokens.value))
      && patch.Keys <= kwargs.Keys
  {
  }

  datatype ResolvedModel = ResolvedModel(name: string, definition: Definition, reasoning: Applied, kwargs: Patch)

  function ResolveChatModel(config: Config, options: Options): Result<ResolvedModel, ChatError> {
    match ResolveChatRoute(options.route, config)
    case Failure(error) => Failure(error)
    case Success(resolved) =>
      var b := resolved.definition.behavior;
      var missing := MissingCapabilities(b, options.required);
      if missing != [] then Failure(RouteUnavailable(options.route, MissingCapability, missing))
      else match ResolveReasoning(b, options.route, options.control)
        case Failure(error) => Failure(error)
        case Success(reasoning) =>
          Success(ResolvedModel(resolved.name, resolved.definition, reasoning,
            ModelKwargs(b, options.maxOutputTokens, reasoning.patch)))
  }

  /**
   * With a valid configuration a request gets a declared model with every
   * capability it requires, sent with no reserved field, or is told that the
   * route or the reasoning asked for is not to be had: never that the
   * configuration is wrong.
   */
  lemma ModelsResolve(lower: Lower, config: Config, options: Options)
    requires ConfigOk(lower, config)
    ensures
      var r := ResolveChatModel(config, options);
      && r != Failure(Misconfigured)
      && (r.Success? ==>
            && r.value.name in config.models && r.value.definition == config.models[r.value.name]
            && (forall c | c in options.required :: HasCapability(r.value.definition.behavior, c))
            && (Needed(options.route).Some? ==> HasCapability(r.value.definition.behavior, Needed(options.route).value))
            && r.value.name == Or(Assigned(config.routes, options.route), config.routes.default)
            && ResolveReasoning(r.value.definition.behavior, options.route, options.control) == Success(r.value.reasoning)
            && r.value.reasoning.enabled == (options.control.enabled || r.value.definition.behavior.reasoning.Always?)
            && PatchOk(lower, r.value.kwargs)
            && r.value.reasoning.patch.Keys <= r.value.kwargs.Keys)
      && (r.Failure? && r.error.RouteUnavailable? ==> r.error.route == options.route && r.error.missing != [])
  {
    RoutesResolve(lower, config, options.route);
    var route := ResolveChatRoute(options.route, config);
    if route.Success? {
      var b := route.value.definition.behavior;
      MissingIsWhatLacks(b, options.required);
      assert BehaviorOk(lower, b);
      ReasoningResolves(lower, b, options.route, options.control);
      var reasoning := ResolveReasoning(b, options.route, options.control);
      hide BehaviorOk, HasCapability, PatchOk, ResolveReasoning, MissingCapabilities, ModelKwargs, ResolveChatRoute;
      if reasoning.Success? {
        KwargsAreAllowed(lower, b, options.maxOutputTokens, reasoning.value.patch);
      }
      if c: Capability :| c in options.required && !HasCapability(b, c) {
        assert c in MissingCapabilities(b, options.required);
      }
    }
  }

  // ------------------------------------------------------------------------
  // Choosing a route, and models for agents
  // ------------------------------------------------------------------------

  function SelectChatRoute(vision: bool, reasoning: bool, fast: bool): (Route, seq<Capability>) {
    if vision then (ForVision, if reasoning then [Vision, Reasons] else [Vision])
    else if reasoning then (ForReasoning, [Reasons])
    else if fast then (ForFast, [])
    else (ForDefault, [])
  }

  /** Images go to the vision route, else reasoning to its own, else what is quick to the fast one; all that is needed is required. */
  lemma RouteIsTheNeeds(vision: bool, reasoning: bool, fast: bool)
    ensures
      var (route, required) := SelectChatRoute(vision, reasoning, fast);
      && (vision ==> route == ForVision)
      && (!vision && reasoning ==> route == ForReasoning)
      && (!vision && !reasoning && fast ==> route == ForFast)
      && (!vision && !reasoning && !fast ==> route == ForDefault)
      && (Vision in required <==> vision) && (Reasons in required <==> reasoning)
  {
  }

  /** Whatever model the chosen route gives can do everything that was needed, and is the one assigned to it or the default. */
  lemma SelectedRouteServes(lower: Lower, config: Config, vision: bool, reasoning: bool, fast: bool, control: Control, cap: Option<real>)
    requires ConfigOk(lower, config)
    ensures
      var (route, required) := SelectChatRoute(vision, reasoning, fast);
      var r := ResolveChatModel(config, Options(route, required, control, cap));
      r.Success? ==>
        && (vision ==> SupportsVision(r.value.definition.behavior))
        && (reasoning ==> SupportsReasoning(r.value.definition.behavior))
        && r.value.name == Or(Assigned(config.routes, route), config.routes.default)
  {
    var (route, required) := SelectChatRoute(vision, reasoning, fast);
    ModelsResolve(lower, config, Options(route, required, control, cap));
    hide ResolveChatModel, ConfigOk;
    assert vision ==> Vision in required;
    assert reasoning ==> Reasons in required;
    assert forall b :: HasCapability(b, Vision) == SupportsVision(b) && HasCapability(b, Reasons) == SupportsReasoning(b);
  }

  const NONE_LEVEL := "none"

  predicate NeedsEffortOff(b: Behavior) {
    b.reasoning.Effort? && NONE_LEVEL in b.reasoning.levels && ToolCalling !in b.nativeStructuredOutput
  }

  function ResolveAgentChatModel(config: Config, options: Options): Result<ResolvedModel, ChatError> {
    var r := ResolveChatModel(config, options);
    if r.Success? && NeedsEffortOff(r.value.definition.behavior)
    then ResolveChatModel(config, options.(control := Control(true, Some(NONE_LEVEL), None)))
    else r
  }

  /** Asking for the `none` effort never fails where resolving did not, and keeps the model. */
  lemma AgentsGetTheSameModel(config: Config, options: Options)
    ensures
      var r, agent := ResolveChatModel(config, options), ResolveAgentChatModel(config, options);
      && (r.Failure? ==> agent == r)
      && (r.Success? ==> agent.Success? && agent.value.definition == r.value.definition && agent.value.name == r.value.name)
      && (r.Success? && NeedsEffortOff(r.value.definition.behavior) ==>
            && agent.value.reasoning.enabled && agent.value.reasoning.effort == Some("none")
            && agent.value.reasoning.patch == r.value.definition.behavior.reasoning.levels[NONE_LEVEL])
      && (r.Success? && agent != r ==>
            && r.value.definition.behavior.reasoning.Effort?
            && "none" in r.value.definition.behavior.reasoning.levels
            && ToolCalling !in r.value.definition.behavior.nativeStructuredOutput)
  {
  }
}
