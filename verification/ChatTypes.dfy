/** What a chat model declares about itself, and what makes a declaration valid. */
module ChatTypes {
  import opened Wrappers
  import opened TextLines
  import opened Json

  /** Fields merged into a request body. */
  type Patch = map<string, Json>

  datatype Reasoning =
    | NoReasoning
    | Always(request: Option<Patch>)
    | Toggle(on: Patch, off: Option<Patch>)
    | Effort(levels: map<string, Patch>, defaultLevel: string, off: Option<Patch>)
    | Budget(field: string, defaultBudget: int, min: int, max: int, off: Option<Patch>)

  datatype Modality = TextInput | ImageInput

  datatype StructuredMode = JsonObject | JsonSchema | ToolCalling

  datatype ImageLimits = ImageLimits(mimeTypes: Option<seq<string>>, maxImages: Option<int>)

  datatype Limits = Limits(contextTokens: Option<int>, maxOutputTokens: Option<int>)

  /** Each parameter is supported or not; the cap may have a field of its own. */
  datatype Parameters = Parameters(
    temperature: bool, systemMessages: bool, streaming: bool, maxOutputTokens: bool, maxOutputTokensField: Option<string>)

  datatype Behavior = Behavior(
    input: seq<Modality>,
    image: Option<ImageLimits>,
    reasoning: Reasoning,
    nativeStructuredOutput: seq<StructuredMode>,
    parameters: Parameters,
    limits: Option<Limits>
  )

  datatype PartialParameters = PartialParameters(
    temperature: Option<bool>, systemMessages: Option<bool>, streaming: Option<bool>, maxOutputTokens: Option<bool>,
    maxOutputTokensField: Option<string>)

  /** What a configuration file says of a behavior: all of it, or what replaces a preset's. */
  datatype Declared = Declared(
    input: Option<seq<Modality>>,
    image: Option<ImageLimits>,
    reasoning: Option<Reasoning>,
    nativeStructuredOutput: Option<seq<StructuredMode>>,
    parameters: Option<PartialParameters>,
    limits: Option<Limits>
  )

  const RESERVED_FIELDS: set<string> := {
    "model", "messages", "stream", "stream_options", "api_key", "apikey",
    "authorization", "headers", "base_url", "baseurl", "url", "n"
  }

  const DEFAULT_CAP_FIELD := "max_tokens"

  /** Lower-casing, whatever it does to letters outside this model. */
  type Lower = string -> string

  predicate Reserved(lower: Lower, field: string) {
    lower(field) in RESERVED_FIELDS
  }

  predicate PatchOk(lower: Lower, patch: Patch) {
    forall field | field in patch :: !Reserved(lower, field)
  }

  predicate OptionalPatchOk(lower: Lower, patch: Option<Patch>) {
    patch.Some? ==> PatchOk(lower, patch.value)
  }

  predicate ReasoningOk(lower: Lower, r: Reasoning) {
    match r
    case NoReasoning => true
    case Always(request) => OptionalPatchOk(lower, request)
    case Toggle(on, off) => PatchOk(lower, on) && OptionalPatchOk(lower, off)
    case Effort(levels, default, off) =>
      && (forall level | level in levels :: PatchOk(lower, levels[level]))
      && default != "" && default in levels && OptionalPatchOk(lower, off)
    case Budget(field, default, min, max, off) =>
      && field != "" && !Reserved(lower, field)
      && 0 <= min <= default <= max && 0 < max && OptionalPatchOk(lower, off)
  }

  predicate CapFieldOk(lower: Lower, field: Option<string>) {
    field.Some? ==> field.value != "" && !Reserved(lower, field.value)
  }

  predicate ImageOk(image: Option<ImageLimits>) {
    image.Some? ==>
      && (image.value.mimeTypes.Some? ==> image.value.mimeTypes.value != [] && "" !in image.value.mimeTypes.value)
      && (image.value.maxImages.Some? ==> image.value.maxImages.value > 0)
  }

  predicate LimitsOk(limits: Option<Limits>) {
    limits.Some? ==>
      && (limits.value.contextTokens.Some? ==> limits.value.contextTokens.value > 0)
      && (limits.value.maxOutputTokens.Some? ==> limits.value.maxOutputTokens.value > 0)
  }

  predicate BehaviorOk(lower: Lower, b: Behavior) {
    && b.input != [] && ImageOk(b.image) && ReasoningOk(lower, b.reasoning)
    && CapFieldOk(lower, b.parameters.maxOutputTokensField) && LimitsOk(b.limits)
  }

  predicate DeclaredOk(lower: Lower, d: Declared) {
    && (d.input.Some? ==> d.input.value != []) && ImageOk(d.image)
    && (d.reasoning.Some? ==> ReasoningOk(lower, d.reasoning.value))
    && (d.parameters.Some? ==> CapFieldOk(lower, d.parameters.value.maxOutputTokensField)) && LimitsOk(d.limits)
  }

  datatype Capability = Vision | Reasons

  predicate SupportsVision(b: Behavior) {
    ImageInput in b.input
  }

  predicate SupportsReasoning(b: Behavior) {
    !b.reasoning.NoReasoning?
  }

  predicate HasCapability(b: Behavior, c: Capability) {
    if c.Vision? then SupportsVision(b) else SupportsReasoning(b)
  }

  function MissingCapabilities(b: Behavior, required: seq<Capability>): seq<Capability> {
    if required == [] then []
    else (if HasCapability(b, required[0]) then [] else [required[0]]) + MissingCapabilities(b, required[1..])
  }

  /** Nothing is missing exactly if every required capability is there; only required ones are reported. */
  lemma {:induction false} MissingIsWhatLacks(b: Behavior, required: seq<Capability>)
    ensures forall c :: c in MissingCapabilities(b, required) <==> c in required && !HasCapability(b, c)
  {
    if required != [] {
      MissingIsWhatLacks(b, required[1..]);
      assert required == [required[0]] + required[1..];
    }
  }
}
