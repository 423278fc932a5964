/** Validating a chat model configuration once, so that what is resolved from it later cannot go wrong. */
module ChatConfig {
  import opened Wrappers
  import opened TextLines
  import opened Json
  import opened ChatTypes

  datatype Model = Model(id: string, preset: Option<string>, behavior: Option<Declared>)

  datatype Routes = Routes(default: string, fast: Option<string>, reasoning: Option<string>, vision: Option<string>)

  /** A configuration document of the right shape; its models in the order written, each name once. */
  datatype File = File(version: int, models: seq<(string, Model)>, routes: Routes)

  datatype Definition = Definition(id: string, behavior: Behavior, preset: Option<string>)

  datatype Config = Config(models: map<string, Definition>, routes: Routes)

  datatype Route = ForDefault | ForFast | ForReasoning | ForVision

  function Assigned(routes: Routes, route: Route): Option<string> {
    match route
    case ForDefault => Some(routes.default)
    case ForFast => routes.fast
    case ForReasoning => routes.reasoning
    case ForVision => routes.vision
  }

  function Needed(route: Route): Option<Capability> {
    match route
    case ForVision => Some(Vision)
    case ForReasoning => Some(Reasons)
    case _ => None
  }

  // ------------------------------------------------------------------------
  // One model
  // ------------------------------------------------------------------------

  function Or<T>(given: Option<T>, otherwise: T): T {
    if given.Some? then given.value else otherwise
  }

  function MergeParameters(p: Parameters, q: PartialParameters): Parameters {
    Parameters(
      Or(q.temperature, p.temperature), Or(q.systemMessages, p.systemMessages), Or(q.streaming, p.streaming),
      Or(q.maxOutputTokens, p.maxOutputTokens),
      if q.maxOutputTokensField.Some? then q.maxOutputTokensField else p.maxOutputTokensField)
  }

  /** What is declared replaces what the preset says; parameters are replaced one by one. */
  function MergeBehavior(preset: Behavior, d: Declared): Behavior {
    Behavior(
      Or(d.input, preset.input),
      if d.image.Some? then d.image else preset.image,
      Or(d.reasoning, preset.reasoning),
      Or(d.nativeStructuredOutput, preset.nativeStructuredOutput),
      if d.parameters.Some? then MergeParameters(preset.parameters, d.parameters.value) else preset.parameters,
      if d.limits.Some? then d.limits else preset.limits)
  }

  /** One setting of the merged behavior: the declared one if there is one, else the preset's. */
  predicate Overrides<T(==)>(declared: Option<T>, preset: T, merged: T) {
    (declared.Some? ==> merged == declared.value) && (declared.None? ==> merged == preset)
  }

  /** The same for a setting that may be absent altogether. */
  predicate OverridesIfAny<T(==)>(declared: Option<T>, preset: Option<T>, merged: Option<T>) {
    (declared.Some? ==> merged == declared) && (declared.None? ==> merged == preset)
  }

  /** Setting by setting, parameters one by one: what is declared wins, and what is not keeps the preset's own value. */
  predicate MergesTo(preset: Behavior, d: Declared, merged: Behavior) {
    && Overrides(d.input, preset.input, merged.input)
    && OverridesIfAny(d.image, preset.image, merged.image)
    && Overrides(d.reasoning, preset.reasoning, merged.reasoning)
    && Overrides(d.nativeStructuredOutput, preset.nativeStructuredOutput, merged.nativeStructuredOutput)
    && OverridesIfAny(d.limits, preset.limits, merged.limits)
    && (d.parameters.None? ==> merged.parameters == preset.parameters)
    && (d.parameters.Some? ==>
          var p, q, r := preset.parameters, d.parameters.value, merged.parameters;
          && Overrides(q.temperature, p.temperature, r.temperature)
          && Overrides(q.systemMessages, p.systemMessages, r.systemMessages)
          && Overrides(q.streaming, p.streaming, r.streaming)
          && Overrides(q.maxOutputTokens, p.maxOutputTokens, r.maxOutputTokens)
          && OverridesIfAny(q.maxOutputTokensField, p.maxOutputTokensField, r.maxOutputTokensField))
  }

  lemma MergedSettingBySetting(preset: Behavior, d: Declared)
    ensures MergesTo(preset, d, MergeBehavior(preset, d))
  {
  }

  /** The declaration says all of this behavior, and nothing else. */
  predicate Declares(d: Declared, b: Behavior) {
    && d.input == Some(b.input) && d.image == b.image && d.reasoning == Some(b.reasoning)
    && d.nativeStructuredOutput == Some(b.nativeStructuredOutput) && d.limits == b.limits
    && d.parameters == Some(PartialParameters(
      Some(b.parameters.temperature), Some(b.parameters.systemMessages), Some(b.parameters.streaming),
      Some(b.parameters.maxOutputTokens), b.parameters.maxOutputTokensField))
  }

  /**
   * With valid presets: a model on a preset resolves exactly if the preset is
   * known and what it declares is valid, and gets the preset with that on top;
   * a model on its own resolves exactly if it declares a whole valid behavior,
   * and gets that.
   */
  lemma ModelsGetTheirBehavior(lower: Lower, presets: map<string, Behavior>, m: Model)
    requires forall name | name in presets :: BehaviorOk(lower, presets[name])
    ensures
      var r := ResolveBehavior(lower, presets, m);
      && (m.preset.Some? ==>
            && (r.Some? <==> m.preset.value in presets && (m.behavior.Some? ==> DeclaredOk(lower, m.behavior.value)))
            && (r.Some? && m.behavior.Some? ==> MergesTo(presets[m.preset.value], m.behavior.value, r.value))
            && (r.Some? && m.behavior.None? ==> r.value == presets[m.preset.value]))
      && (m.preset.None? ==>
            forall b: Behavior :: r == Some(b) <==> m.behavior.Some? && Declares(m.behavior.value, b) && BehaviorOk(lower, b))
  {
    var declared := Or(m.behavior, NOTHING_DECLARED);
    if m.preset.Some? {
      if m.preset.value in presets && DeclaredOk(lower, declared) {
        MergedIsValid(lower, presets[m.preset.value], declared);
        MergedSettingBySetting(presets[m.preset.value], declared);
      }
    } else if m.behavior.Some? {
      CompleteIsDeclared(m.behavior.value);
    }
    hide BehaviorOk, MergesTo, MergeBehavior, Declares, Complete;
  }

  lemma CompleteIsDeclared(d: Declared)
    ensures forall b: Behavior :: Complete(d) == Some(b) <==> Declares(d, b)
  {
  }

  /** A complete declaration, if everything but images and limits is there. */
  function Complete(d: Declared): Option<Behavior> {
    if d.input.Some? && d.reasoning.Some? && d.nativeStructuredOutput.Some? && d.parameters.Some?
       && d.parameters.value.temperature.Some? && d.parameters.value.systemMessages.Some?
       && d.parameters.value.streaming.Some? && d.parameters.value.maxOutputTokens.Some?
    then
      var p := d.parameters.value;
      Some(Behavior(d.input.value, d.image, d.reasoning.value, d.nativeStructuredOutput.value,
        Parameters(p.temperature.value, p.systemMessages.value, p.streaming.value, p.maxOutputTokens.value,
                   p.maxOutputTokensField), d.limits))
    else None
  }

  const NOTHING_DECLARED := Declared(None, None, None, None, None, None)

  /** The behavior of a model: its own declaration, or its preset's with what it declares on top. */
  function ResolveBehavior(lower: Lower, presets: map<string, Behavior>, m: Model): Option<Behavior> {
    if m.preset.Some? then
      var declared := Or(m.behavior, NOTHING_DECLARED);
      if m.preset.value !in presets || !DeclaredOk(lower, declared) then None
      else
        var merged := MergeBehavior(presets[m.preset.value], declared);
        if BehaviorOk(lower, merged) then Some(merged) else None
    else if m.behavior.None? || Complete(m.behavior.value).None? then None
    else
      var whole := Complete(m.behavior.value).value;
      if BehaviorOk(lower, whole) then Some(whole) else None
  }

  /**
   * Declared fields win over the preset's in both directions. What the file
   * declares is valid in itself; together the two can only fail over
   * what was taken from the preset.
   */
  lemma MergedIsValid(lower: Lower, preset: Behavior, d: Declared)
    requires BehaviorOk(lower, preset) && DeclaredOk(lower, d)
    ensures
      var merged := MergeBehavior(preset, d);
      && BehaviorOk(lower, merged)
      && (forall c ::
            HasCapability(merged, c) <==>
              match c
              case Vision => ImageInput in Or(d.input, preset.input)
              case Reasons => if d.reasoning.Some? then !d.reasoning.value.NoReasoning? else SupportsReasoning(preset))
      && (d == NOTHING_DECLARED ==> merged == preset)
  {
  }

  /** Declaring everything leaves nothing of the preset; declaring the same again changes nothing. */
  lemma DeclarationsWin(preset: Behavior, d: Declared)
    ensures MergeBehavior(MergeBehavior(preset, d), d) == MergeBehavior(preset, d)
    ensures
      && Complete(d).Some? && d.image.Some? && d.limits.Some? && d.parameters.value.maxOutputTokensField.Some?
      ==> Some(MergeBehavior(preset, d)) == Complete(d)
  {
  }

  // ------------------------------------------------------------------------
  // The whole file
  // ------------------------------------------------------------------------

  function DefinitionOf(lower: Lower, presets: map<string, Behavior>, m: Model): Option<Definition> {
    var behavior := ResolveBehavior(lower, presets, m);
    if behavior.Some? then Some(Definition(m.id, behavior.value, m.preset)) else None
  }

  predicate NamedModels(models: seq<(string, Model)>) {
    && (forall i | 0 <= i < |models| ::
          models[i].0 != "" && models[i].1.id != "" && models[i].1.preset != Some(""))
    && (forall i, j | 0 <= i < j < |models| :: models[i].0 != models[j].0)
  }

  predicate NamedRoutes(routes: Routes) {
    routes.default != "" && routes.fast != Some("") && routes.reasoning != Some("") && routes.vision != Some("")
  }

  /** Every model resolves; every route names a model, and one with the capability it stands for. */
  predicate FileOk(lower: Lower, presets: map<string, Behavior>, file: File) {
    && NamedModels(file.models) && NamedRoutes(file.routes) && file.version == 1
    && (forall i | 0 <= i < |file.models| :: DefinitionOf(lower, presets, file.models[i].1).Some?)
    && (forall route | Assigned(file.routes, route).Some? :: RouteOk(lower, presets, file, route))
  }

  predicate RouteOk(lower: Lower, presets: map<string, Behavior>, file: File, route: Route)
    requires Assigned(file.routes, route).Some?
  {
    exists i | 0 <= i < |file.models| ::
      && file.models[i].0 == Assigned(file.routes, route).value
      && DefinitionOf(lower, presets, file.models[i].1).Some?
      && (Needed(route).Some? ==> HasCapability(DefinitionOf(lower, presets, file.models[i].1).value.behavior, Needed(route).value))
  }

  /** The definitions of the first `n` models. */
  predicate Defines(lower: Lower, presets: map<string, Behavior>, models: seq<(string, Model)>, n: nat, defined: map<string, Definition>)
    requires n <= |models|
  {
    && (forall i | 0 <= i < n ::
          models[i].0 in defined && Some(defined[models[i].0]) == DefinitionOf(lower, presets, models[i].1))
    && (forall name | name in defined :: exists i | 0 <= i < n :: models[i].0 == name)
  }

  datatype ConfigError = ConfigurationError

  /** Accepts exactly the files in order, and then keeps their models and routes. */
  method BuildChatModelsConfig(lower: Lower, presets: map<string, Behavior>, baseUrl: string, file: File)
    returns (r: Result<Config, ConfigError>)
    ensures r.Success? <==> Trim(baseUrl) != [] && FileOk(lower, presets, file)
    ensures r.Success? ==>
      r.value.routes == file.routes && Defines(lower, presets, file.models, |file.models|, r.value.models)
  {
    hide DefinitionOf, NamedModels, NamedRoutes, HasCapability;
    if Trim(baseUrl) == [] || !NamedModels(file.models) || !NamedRoutes(file.routes) {
      return Failure(ConfigurationError);
    }
    if file.version != 1 {
      return Failure(ConfigurationError);
    }
    var models: map<string, Definition> := map[];
    for i := 0 to |file.models|
      invariant Defines(lower, presets, file.models, i, models)
      invariant forall k | 0 <= k < i :: DefinitionOf(lower, presets, file.models[k].1).Some?
    {
      var (name, model) := file.models[i];
      var definition := DefinitionOf(lower, presets, model);
      if definition.None? {
        return Failure(ConfigurationError);
      }
      DefineNext(lower, presets, file.models, i, models);
      models := models[name := definition.value];
    }
    var routes := [ForDefault, ForFast, ForReasoning, ForVision];
    for i := 0 to |routes|
      invariant forall k | 0 <= k < i :: DeclaredRoute(file.routes, routes[k], models)
    {
      var chosen := Assigned(file.routes, routes[i]);
      if chosen.Some? && chosen.value !in models {
        UndeclaredRoute(lower, presets, file, routes[i], models);
        return Failure(ConfigurationError);
      }
    }
    var special := [ForReasoning, ForVision];
    for i := 0 to |special|
      invariant forall k | 0 <= k < i :: CapableRoute(file.routes, special[k], models)
    {
      assert DeclaredRoute(file.routes, routes[i + 2], models);
      var chosen := Assigned(file.routes, special[i]);
      if chosen.Some? && !HasCapability(models[chosen.value].behavior, Needed(special[i]).value) {
        IncapableRoute(lower, presets, file, special[i], models);
        return Failure(ConfigurationError);
      }
    }
    forall route | Assigned(file.routes, route).Some?
      ensures RouteOk(lower, presets, file, route)
    {
      assert DeclaredRoute(file.routes, ForDefault, models) by { assert routes[0] == ForDefault; }
      assert DeclaredRoute(file.routes, ForFast, models) by { assert routes[1] == ForFast; }
      assert CapableRoute(file.routes, ForReasoning, models) by { assert special[0] == ForReasoning; }
      assert CapableRoute(file.routes, ForVision, models) by { assert special[1] == ForVision; }
      GoodRoute(lower, presets, file, route, models);
    }
    return Success(Config(models, file.routes));
  }

  predicate DeclaredRoute(routes: Routes, route: Route, models: map<string, Definition>) {
    Assigned(routes, route).Some? ==> Assigned(routes, route).value in models
  }

  predicate CapableRoute(routes: Routes, route: Route, models: map<string, Definition>) {
    DeclaredRoute(routes, route, models)
    && (Assigned(routes, route).Some? && Needed(route).Some? ==>
          HasCapability(models[Assigned(routes, route).value].behavior, Needed(route).value))
  }

  lemma DefineNext(lower: Lower, presets: map<string, Behavior>, models: seq<(string, Model)>, n: nat, defined: map<string, Definition>)
    requires NamedModels(models) && n < |models| && Defines(lower, presets, models, n, defined)
    requires DefinitionOf(lower, presets, models[n].1).Some?
    ensures Defines(lower, presets, models, n + 1, defined[models[n].0 := DefinitionOf(lower, presets, models[n].1).value])
  {
    hide DefinitionOf;
  }

  lemma UndeclaredRoute(lower: Lower, presets: map<string, Behavior>, file: File, route: Route, models: map<string, Definition>)
    requires Defines(lower, presets, file.models, |file.models|, models)
    requires Assigned(file.routes, route).Some? && Assigned(file.routes, route).value !in models
    ensures !FileOk(lower, presets, file)
  {
    hide DefinitionOf;
    assert !RouteOk(lower, presets, file, route);
  }

  lemma IncapableRoute(lower: Lower, presets: map<string, Behavior>, file: File, route: Route, models: map<string, Definition>)
    requires Defines(lower, presets, file.models, |file.models|, models)
    requires Assigned(file.routes, route).Some? && Needed(route).Some? && Assigned(file.routes, route).value in models
    requires !HasCapability(models[Assigned(file.routes, route).value].behavior, Needed(route).value)
    ensures !FileOk(lower, presets, file)
  {
    hide DefinitionOf, HasCapability;
    assert !RouteOk(lower, presets, file, route);
  }

  lemma GoodRoute(lower: Lower, presets: map<string, Behavior>, file: File, route: Route, models: map<string, Definition>)
    requires Defines(lower, presets, file.models, |file.models|, models)
    requires Assigned(file.routes, route).Some?
    requires if Needed(route).Some? then CapableRoute(file.routes, route, models) else DeclaredRoute(file.routes, route, models)
    ensures RouteOk(lower, presets, file, route)
  {
    hide DefinitionOf, HasCapability;
    var name := Assigned(file.routes, route).value;
    var i :| 0 <= i < |file.models| && file.models[i].0 == name;
    assert Some(models[name]) == DefinitionOf(lower, presets, file.models[i].1);
  }

  // ------------------------------------------------------------------------
  // What a built configuration guarantees
  // ------------------------------------------------------------------------

  predicate ConfigOk(lower: Lower, config: Config) {
    && (forall name | name in config.models :: BehaviorOk(lower, config.models[name].behavior))
    && (forall route :: CapableRoute(config.routes, route, config.models))
  }

  lemma BuiltConfigIsOk(lower: Lower, presets: map<string, Behavior>, file: File, config: Config)
    requires FileOk(lower, presets, file) && config.routes == file.routes
    requires Defines(lower, presets, file.models, |file.models|, config.models)
    ensures ConfigOk(lower, config)
  {
    forall name | name in config.models
      ensures BehaviorOk(lower, config.models[name].behavior)
    {
      var i :| 0 <= i < |file.models| && file.models[i].0 == name;
      DefinedIsOk(lower, presets, file.models[i].1);
    }
    hide DefinitionOf, BehaviorOk, HasCapability;
    forall route
      ensures CapableRoute(config.routes, route, config.models)
    {
      if Assigned(file.routes, route).Some? {
        assert RouteOk(lower, presets, file, route);
        var i :| 0 <= i < |file.models| && file.models[i].0 == Assigned(file.routes, route).value
          && DefinitionOf(lower, presets, file.models[i].1).Some?
          && (Needed(route).Some? ==>
                HasCapability(DefinitionOf(lower, presets, file.models[i].1).value.behavior, Needed(route).value));
        assert Some(config.models[file.models[i].0]) == DefinitionOf(lower, presets, file.models[i].1);
      }
    }
  }

  lemma DefinedIsOk(lower: Lower, presets: map<string, Behavior>, m: Model)
    ensures DefinitionOf(lower, presets, m).Some? ==> BehaviorOk(lower, DefinitionOf(lower, presets, m).value.behavior)
  {
  }
}
