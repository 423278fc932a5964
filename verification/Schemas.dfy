/**
 * Validation schemas and what they make of a value: the language that
 * structured output is written in, and its rewriting for strict endpoints.
 */
module Schemas {
  import opened Wrappers
  import opened Json

  datatype Bounds = Bounds(
    minimum: Option<real>,
    maximum: Option<real>,
    exclusiveMinimum: Option<real>,
    exclusiveMaximum: Option<real>
  )

  datatype Size = Size(least: Option<nat>, most: Option<nat>)

  /** What happens to keys that an object schema does not name. */
  datatype UnknownKeys = Strip | Strict | Passthrough

  datatype Presence = Required | Optional | Default(value: Json)

  /** `nullAsMissing` is set by the rewriting only: null is read as if the key were not there. */
  datatype Prop = Prop(schema: Schema, presence: Presence, nullAsMissing: bool)

  type Props = map<string, Prop>

  datatype Schema =
    | NullSchema
    | BoolSchema
    | NumSchema(bounds: Bounds)
    | StrSchema(length: Size)
    | Literal(value: Json)
    | Nullable(inner: Schema)
    | ArrSchema(element: Schema, count: Size)
    | ObjSchema(props: Props, unknown: UnknownKeys)
    | Union(options: seq<Schema>)
    | Discriminated(tag: string, options: seq<Schema>)

  predicate InBounds(b: Bounds, x: real) {
    && (b.minimum.Some? ==> b.minimum.value <= x)
    && (b.maximum.Some? ==> x <= b.maximum.value)
    && (b.exclusiveMinimum.Some? ==> b.exclusiveMinimum.value < x)
    && (b.exclusiveMaximum.Some? ==> x < b.exclusiveMaximum.value)
  }

  predicate OfSize(s: Size, n: nat) {
    (s.least.Some? ==> s.least.value <= n) && (s.most.Some? ==> n <= s.most.value)
  }

  // ------------------------------------------------------------------------
  // Parsing
  // ------------------------------------------------------------------------

  /** The value read as the schema says, or none if it does not fit. */
  function Parse(s: Schema, v: Json): Option<Json>
    decreases s
  {
    match s
    case NullSchema => if v.Null? then Some(v) else None
    case BoolSchema => if v.Bool? then Some(v) else None
    case NumSchema(bounds) => if v.Num? && InBounds(bounds, v.value) then Some(v) else None
    case StrSchema(length) => if v.Str? && OfSize(length, |v.text|) then Some(v) else None
    case Literal(value) => if v == value then Some(v) else None
    case Nullable(inner) => if v.Null? then Some(v) else Parse(inner, v)
    case ArrSchema(element, count) =>
      if v.Arr? && OfSize(count, |v.items|)
      then CollectItems(seq(|v.items|, (i: nat) requires i < |v.items| => Parse(element, v.items[i])))
      else None
    case ObjSchema(props, unknown) =>
      if v.Obj? && (unknown == Strict ==> v.fields.Keys <= props.Keys)
      then CollectFields(map k | k in props :: ParseProp(props[k], Lookup(v.fields, k)), Extras(props, unknown, v.fields))
      else None
    case Union(options) => ParseFirst(options, v)
    case Discriminated(tag, options) =>
      if v.Obj? && tag in v.fields then ParseTagged(tag, v.fields[tag], options, v) else None
  }

  function CollectItems(results: seq<Option<Json>>): Option<Json> {
    if forall i | 0 <= i < |results| :: results[i].Some?
    then Some(Arr(seq(|results|, (i: nat) requires i < |results| => results[i].value)))
    else None
  }

  function CollectFields(results: map<string, Option<Option<Json>>>, extras: map<string, Json>): Option<Json> {
    if forall k | k in results :: results[k].Some?
    then Some(Obj(extras + map k | k in results && results[k].value.Some? :: results[k].value.value))
    else None
  }

  function Lookup(fields: map<string, Json>, k: string): Option<Json> {
    if k in fields then Some(fields[k]) else None
  }

  /** Keys without a schema are kept only by an object that passes them through. */
  function Extras(props: Props, unknown: UnknownKeys, fields: map<string, Json>): map<string, Json> {
    if unknown == Passthrough then fields - props.Keys else map[]
  }

  /** The result for one key: none if it does not fit, and no value if the key stays away. */
  function ParseProp(p: Prop, x: Option<Json>): Option<Option<Json>>
    decreases p
  {
    var given := if p.nullAsMissing && x == Some(Null) then None else x;
    if given.Some? then OrFail(Parse(p.schema, given.value))
    else match p.presence
      case Required => None
      case Optional => Some(None)
      case Default(value) => OrFail(Parse(p.schema, value))
  }

  function OrFail(parsed: Option<Json>): Option<Option<Json>> {
    if parsed.Some? then Some(parsed) else None
  }

  /** The first option that the value fits. */
  function ParseFirst(options: seq<Schema>, v: Json): Option<Json>
    decreases options
  {
    if options == [] then None
    else
      var parsed := Parse(options[0], v);
      if parsed.Some? then parsed else ParseFirst(options[1..], v)
  }

  /** The option is an object schema that requires this literal under `tag`. */
  predicate HasTag(s: Schema, tag: string, value: Json) {
    s.ObjSchema? && tag in s.props && s.props[tag].presence == Required
    && s.props[tag].schema == Literal(value)
  }

  /** Only the option whose tag the value carries is tried. */
  function ParseTagged(tag: string, value: Json, options: seq<Schema>, v: Json): Option<Json>
    decreases options
  {
    if options == [] then None
    else if HasTag(options[0], tag, value) then Parse(options[0], v)
    else ParseTagged(tag, value, options[1..], v)
  }

  /** The key may be left out. */
  predicate IsOptional(p: Prop) {
    ParseProp(p, None).Some?
  }

  predicate IsNullable(p: Prop) {
    ParseProp(p, Some(Null)).Some?
  }

  // ------------------------------------------------------------------------
  // Rewriting
  // ------------------------------------------------------------------------

  /** Every optional key that does not take null itself reads null as missing. */
  function WithOptionalNullsAsMissing(s: Schema): Schema {
    match s
    case Nullable(inner) => Nullable(WithOptionalNullsAsMissing(inner))
    case ArrSchema(element, count) => ArrSchema(WithOptionalNullsAsMissing(element), count)
    case ObjSchema(props, unknown) => ObjSchema(map k | k in props :: Rewritten(props[k]), unknown)
    case Union(options) => Union(AllRewritten(options))
    case Discriminated(tag, options) => Discriminated(tag, AllRewritten(options))
    case _ => s
  }

  function Rewritten(p: Prop): Prop {
    Prop(WithOptionalNullsAsMissing(p.schema), p.presence,
         p.nullAsMissing || (IsOptional(p) && !IsNullable(p)))
  }

  function AllRewritten(options: seq<Schema>): seq<Schema> {
    if options == [] then [] else [WithOptionalNullsAsMissing(options[0])] + AllRewritten(options[1..])
  }

  // ------------------------------------------------------------------------
  // What the rewriting stands for
  // ------------------------------------------------------------------------

  /** The value without the nulls that stand for keys left out. */
  function WithoutNulls(s: Schema, v: Json): Json
    decreases s
  {
    match s
    case Nullable(inner) => WithoutNulls(inner, v)
    case ArrSchema(element, _) =>
      if v.Arr? then Arr(seq(|v.items|, (i: nat) requires i < |v.items| => WithoutNulls(element, v.items[i]))) else v
    case ObjSchema(props, _) =>
      if v.Obj?
      then Obj(map k | k in v.fields && (k in props ==> WithoutNull(props[k], v.fields[k]).Some?)
        :: if k in props then WithoutNull(props[k], v.fields[k]).value else v.fields[k])
      else v
    case Discriminated(tag, options) =>
      if v.Obj? && tag in v.fields then WithoutNullsTagged(tag, v.fields[tag], options, v) else v
    case _ => v
  }

  function WithoutNull(p: Prop, x: Json): Option<Json>
    decreases p
  {
    if x.Null? && IsOptional(p) && !IsNullable(p) then None else Some(WithoutNulls(p.schema, x))
  }

  function WithoutNullsTagged(tag: string, value: Json, options: seq<Schema>, v: Json): Json
    decreases options
  {
    if options == [] then v
    else if HasTag(options[0], tag, value) then WithoutNulls(options[0], v)
    else WithoutNullsTagged(tag, value, options[1..], v)
  }

  /** What a strict endpoint has to write for `v`: null for every key left out of a closed object. */
  function Fill(s: Schema, v: Json): Json
    decreases s
  {
    match s
    case Nullable(inner) => if v.Null? then v else Fill(inner, v)
    case ArrSchema(element, _) =>
      if v.Arr? then Arr(seq(|v.items|, (i: nat) requires i < |v.items| => Fill(element, v.items[i]))) else v
    case ObjSchema(props, unknown) =>
      if !v.Obj? then v
      else if unknown == Passthrough
      then Obj(map k | k in v.fields :: if k in props then FillProp(props[k], v.fields[k]) else v.fields[k])
      else Obj(map k | k in props :: if k in v.fields then FillProp(props[k], v.fields[k]) else Null)
    case Union(options) => FillFirst(options, v)
    case Discriminated(tag, options) =>
      if v.Obj? && tag in v.fields then FillTagged(tag, v.fields[tag], options, v) else v
    case _ => v
  }

  function FillProp(p: Prop, x: Json): Json
    decreases p
  {
    Fill(p.schema, x)
  }

  function FillFirst(options: seq<Schema>, v: Json): Json
    decreases options
  {
    if options == [] then v
    else if Parse(options[0], v).Some? then Fill(options[0], v)
    else FillFirst(options[1..], v)
  }

  function FillTagged(tag: string, value: Json, options: seq<Schema>, v: Json): Json
    decreases options
  {
    if options == [] then v
    else if HasTag(options[0], tag, value) then Fill(options[0], v)
    else FillTagged(tag, value, options[1..], v)
  }

  // ------------------------------------------------------------------------
  // Which values keep their reading
  // ------------------------------------------------------------------------

  /** The defaults that stand in when `v` is read are read alike by the rewritten schema. */
  predicate UsedDefaultsAgree(s: Schema, v: Json)
    decreases s
  {
    match s
    case Nullable(inner) => v.Null? || UsedDefaultsAgree(inner, v)
    case ArrSchema(element, _) => v.Arr? ==> forall i | 0 <= i < |v.items| :: UsedDefaultsAgree(element, v.items[i])
    case ObjSchema(props, _) => v.Obj? ==> forall k | k in props :: UsedDefaultAgrees(props[k], Lookup(v.fields, k))
    case Union(options) => UsedDefaultsAgreeFirst(options, v)
    case Discriminated(tag, options) =>
      v.Obj? && tag in v.fields ==> UsedDefaultsAgreeTagged(tag, v.fields[tag], options, v)
    case _ => true
  }

  predicate UsedDefaultAgrees(p: Prop, x: Option<Json>)
    decreases p
  {
    if x.Some? then UsedDefaultsAgree(p.schema, x.value)
    else p.presence.Default? ==>
      Parse(WithOptionalNullsAsMissing(p.schema), p.presence.value) == Parse(p.schema, p.presence.value)
  }

  predicate UsedDefaultsAgreeFirst(options: seq<Schema>, v: Json)
    decreases options
  {
    options != [] ==>
      if Parse(options[0], v).Some? then UsedDefaultsAgree(options[0], v) else UsedDefaultsAgreeFirst(options[1..], v)
  }

  predicate UsedDefaultsAgreeTagged(tag: string, value: Json, options: seq<Schema>, v: Json)
    decreases options
  {
    options != [] ==>
      if HasTag(options[0], tag, value) then UsedDefaultsAgree(options[0], v)
      else UsedDefaultsAgreeTagged(tag, value, options[1..], v)
  }

  /**
   * At every depth no closed object leaves out a key that takes null, unless
   * its default reads as null does; and no union option before the one that
   * `v` fits takes the filled value, unless it reads it alike.
   */
  predicate Keeps(s: Schema, v: Json)
    decreases s
  {
    match s
    case Nullable(inner) => v.Null? || Keeps(inner, v)
    case ArrSchema(element, _) => v.Arr? ==> forall i | 0 <= i < |v.items| :: Keeps(element, v.items[i])
    case ObjSchema(props, unknown) =>
      v.Obj? ==> forall k | k in props :: KeepsProp(props[k], Lookup(v.fields, k), unknown == Passthrough)
    case Union(options) => KeepsFirst(options, v)
    case Discriminated(tag, options) => v.Obj? && tag in v.fields ==> KeepsTagged(tag, v.fields[tag], options, v)
    case _ => true
  }

  predicate KeepsProp(p: Prop, x: Option<Json>, open: bool)
    decreases p
  {
    if x.Some? then Keeps(p.schema, x.value)
    else (open || !IsNullable(p) || (p.presence.Default? && Parse(p.schema, p.presence.value) == Parse(p.schema, Null)))
  }

  predicate KeepsFirst(options: seq<Schema>, v: Json)
    decreases options
  {
    options != [] ==>
      if Parse(options[0], v).Some? then Keeps(options[0], v)
      else
        var early := Parse(WithOptionalNullsAsMissing(options[0]), FillFirst(options[1..], v));
        if early.Some? then early == ParseFirst(options[1..], v) else KeepsFirst(options[1..], v)
  }

  predicate KeepsTagged(tag: string, value: Json, options: seq<Schema>, v: Json)
    decreases options
  {
    options != [] ==>
      if HasTag(options[0], tag, value) then Keeps(options[0], v) else KeepsTagged(tag, value, options[1..], v)
  }

  // ------------------------------------------------------------------------
  // Schemas in use
  // ------------------------------------------------------------------------

  predicate IsScalar(v: Json) {
    v.Bool? || v.Num? || v.Str?
  }

  /** Written by hand rather than rewritten; literals are plain values, defaults fit, tags tell options apart. */
  ghost predicate WellFormed(s: Schema) {
    match s
    case Literal(value) => IsScalar(value)
    case Nullable(inner) => WellFormed(inner)
    case ArrSchema(element, _) => WellFormed(element)
    case ObjSchema(props, _) =>
      forall k | k in props ::
        && !props[k].nullAsMissing && WellFormed(props[k].schema)
        && (props[k].presence.Default? ==> Parse(props[k].schema, props[k].presence.value).Some?)
    case Union(options) => forall o | o in options :: WellFormed(o)
    case Discriminated(tag, options) =>
      && (forall o | o in options :: WellFormed(o) && Tagged(o, tag))
      && (forall i, j | 0 <= i < j < |options| :: TagOf(options[i], tag) != TagOf(options[j], tag))
    case _ => true
  }

  predicate Tagged(s: Schema, tag: string) {
    s.ObjSchema? && tag in s.props && s.props[tag].presence == Required && s.props[tag].schema.Literal?
  }

  function TagOf(s: Schema, tag: string): Option<Json> {
    if Tagged(s, tag) then Some(s.props[tag].schema.value) else None
  }

  /** Every union tells its options apart by a tag. */
  predicate NoPlainUnion(s: Schema) {
    match s
    case Nullable(inner) => NoPlainUnion(inner)
    case ArrSchema(element, _) => NoPlainUnion(element)
    case ObjSchema(props, _) => forall k | k in props :: NoPlainUnion(props[k].schema)
    case Union(_) => false
    case Discriminated(_, options) => forall o | o in options :: NoPlainUnion(o)
    case _ => true
  }

  /** No key that may be left out takes null as a value of its own. */
  predicate NoOptionalNullable(s: Schema) {
    match s
    case Nullable(inner) => NoOptionalNullable(inner)
    case ArrSchema(element, _) => NoOptionalNullable(element)
    case ObjSchema(props, _) =>
      forall k | k in props :: NoOptionalNullable(props[k].schema) && !(IsOptional(props[k]) && IsNullable(props[k]))
    case Union(options) => forall o | o in options :: NoOptionalNullable(o)
    case Discriminated(_, options) => forall o | o in options :: NoOptionalNullable(o)
    case _ => true
  }

  predicate NullFree(v: Json) {
    match v
    case Null => false
    case Arr(items) => forall i | 0 <= i < |items| :: NullFree(items[i])
    case Obj(fields) => forall k | k in fields :: NullFree(fields[k])
    case _ => true
  }

  /** Every default reads the same under the rewritten schema of its key. */
  predicate DefaultsAgree(s: Schema) {
    match s
    case Nullable(inner) => DefaultsAgree(inner)
    case ArrSchema(element, _) => DefaultsAgree(element)
    case ObjSchema(props, _) => forall k | k in props :: DefaultsAgree(props[k].schema) && DefaultAgrees(props[k])
    case Union(options) => forall o | o in options :: DefaultsAgree(o)
    case Discriminated(_, options) => forall o | o in options :: DefaultsAgree(o)
    case _ => true
  }

  predicate DefaultAgrees(p: Prop) {
    p.presence.Default? ==>
      Parse(WithOptionalNullsAsMissing(p.schema), p.presence.value) == Parse(p.schema, p.presence.value)
  }

  predicate DefaultsNullFree(s: Schema) {
    match s
    case Nullable(inner) => DefaultsNullFree(inner)
    case ArrSchema(element, _) => DefaultsNullFree(element)
    case ObjSchema(props, _) =>
      forall k | k in props ::
        DefaultsNullFree(props[k].schema) && (props[k].presence.Default? ==> NullFree(props[k].presence.value))
    case Union(options) => forall o | o in options :: DefaultsNullFree(o)
    case Discriminated(_, options) => forall o | o in options :: DefaultsNullFree(o)
    case _ => true
  }
}
