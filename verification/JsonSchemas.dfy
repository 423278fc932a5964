/**
 * JSON Schema as plain JSON: which values a node accepts (JSON Schema
 * Validation draft-07, sections 6.1 to 6.7), and the rewritings of nodes.
 */
module JsonSchemas {
  import opened Wrappers
  import opened Json

  const TYPE := "type"
  const CONST := "const"
  const ENUM := "enum"
  const ANY_OF := "anyOf"
  const ITEMS := "items"
  const PROPERTIES := "properties"
  const REQUIRED := "required"
  const ADDITIONAL := "additionalProperties"
  const DEFAULT := "default"
  const MIN_ITEMS := "minItems"
  const MAX_ITEMS := "maxItems"
  const MIN_LENGTH := "minLength"
  const MAX_LENGTH := "maxLength"
  const MINIMUM := "minimum"
  const MAXIMUM := "maximum"
  const EXCLUSIVE_MINIMUM := "exclusiveMinimum"
  const EXCLUSIVE_MAXIMUM := "exclusiveMaximum"

  /** Keywords that bound a size. */
  const SIZE_KEYWORDS: set<string> :=
    {MIN_ITEMS, MAX_ITEMS, MIN_LENGTH, MAX_LENGTH, MINIMUM, MAXIMUM, EXCLUSIVE_MINIMUM, EXCLUSIVE_MAXIMUM}

  type Node = map<string, Json>

  /** A number too large to be held has no type, so that no node accepts it. */
  function TypeName(v: Json): string {
    match v
    case Null => "null"
    case Bool(_) => "boolean"
    case Num(_) => "number"
    case TooBig => ""
    case Str(_) => "string"
    case Arr(_) => "array"
    case Obj(_) => "object"
  }

  // ------------------------------------------------------------------------
  // Validation
  // ------------------------------------------------------------------------

  function Number(f: Node, keyword: string): Option<real> {
    if keyword in f && f[keyword].Num? then Some(f[keyword].value) else None
  }

  predicate AtLeast(f: Node, keyword: string, x: real) {
    Number(f, keyword).Some? ==> Number(f, keyword).value <= x
  }

  predicate AtMost(f: Node, keyword: string, x: real) {
    Number(f, keyword).Some? ==> x <= Number(f, keyword).value
  }

  predicate SizesFit(f: Node, v: Json) {
    && (v.Num? ==>
          && AtLeast(f, MINIMUM, v.value) && AtMost(f, MAXIMUM, v.value)
          && (Number(f, EXCLUSIVE_MINIMUM).Some? ==> Number(f, EXCLUSIVE_MINIMUM).value < v.value)
          && (Number(f, EXCLUSIVE_MAXIMUM).Some? ==> v.value < Number(f, EXCLUSIVE_MAXIMUM).value))
    && (v.Str? ==> AtLeast(f, MIN_LENGTH, |v.text| as real) && AtMost(f, MAX_LENGTH, |v.text| as real))
    && (v.Arr? ==> AtLeast(f, MIN_ITEMS, |v.items| as real) && AtMost(f, MAX_ITEMS, |v.items| as real))
  }

  predicate TypeFits(f: Node, v: Json) {
    TYPE in f ==> f[TYPE] == Str(TypeName(v))
  }

  predicate ValueFits(f: Node, v: Json) {
    && (CONST in f ==> v == f[CONST])
    && (ENUM in f ==> f[ENUM].Arr? && v in f[ENUM].items)
  }

  /** What `properties` says, if it says anything. */
  function PropertyNodes(f: Node): Node {
    if PROPERTIES in f && f[PROPERTIES].Obj? then f[PROPERTIES].fields else map[]
  }

  predicate RequiredFits(f: Node, keys: set<string>) {
    REQUIRED in f ==>
      f[REQUIRED].Arr? && forall x | x in f[REQUIRED].items :: x.Str? && x.text in keys
  }

  /** The value is valid against the node; what is not a schema accepts nothing. */
  predicate Accepts(node: Json, v: Json)
    decreases node
  {
    if !node.Obj? then node == Bool(true)
    else
      var f := node.fields;
      && TypeFits(f, v) && ValueFits(f, v) && SizesFit(f, v)
      && (ANY_OF in f ==> f[ANY_OF].Arr? && exists n | n in f[ANY_OF].items :: Accepts(n, v))
      && (v.Arr? && ITEMS in f ==> forall x | x in v.items :: Accepts(f[ITEMS], x))
      && (v.Obj? ==>
            && RequiredFits(f, v.fields.Keys)
            && (PROPERTIES in f ==> f[PROPERTIES].Obj?)
            && (forall k | k in v.fields && PROPERTIES in f && f[PROPERTIES].Obj? && k in f[PROPERTIES].fields ::
                  Accepts(f[PROPERTIES].fields[k], v.fields[k]))
            && (ADDITIONAL in f ==>
                  forall k | k in v.fields && k !in PropertyNodes(f) :: Accepts(f[ADDITIONAL], v.fields[k])))
  }

  // ------------------------------------------------------------------------
  // Nodes of one kind
  // ------------------------------------------------------------------------

  /** A node without parts of its own. */
  lemma LeafAccepts(f: Node, v: Json)
    requires ANY_OF !in f && ITEMS !in f && REQUIRED !in f && PROPERTIES !in f && ADDITIONAL !in f
    ensures Accepts(Obj(f), v) <==> TypeFits(f, v) && ValueFits(f, v) && SizesFit(f, v)
  {
    hide TypeFits, ValueFits, SizesFit;
  }

  lemma ChoiceAccepts(nodes: seq<Json>, v: Json)
    ensures Accepts(Obj(map[ANY_OF := Arr(nodes)]), v) <==> exists n | n in nodes :: Accepts(n, v)
  {
    var f: Node := map[ANY_OF := Arr(nodes)];
    assert TypeFits(f, v) && ValueFits(f, v) && SizesFit(f, v) && RequiredFits(f, {});
  }

  lemma ListAccepts(f: Node, v: Json)
    requires TYPE in f && f[TYPE] == Str("array") && ITEMS in f && ANY_OF !in f && CONST !in f && ENUM !in f
    ensures Accepts(Obj(f), v) <==> v.Arr? && SizesFit(f, v) && forall x | x in v.items :: Accepts(f[ITEMS], x)
  {
    hide SizesFit;
  }

  lemma RecordAccepts(f: Node, nodes: Node, v: Json)
    requires TYPE in f && f[TYPE] == Str("object") && ANY_OF !in f && CONST !in f && ENUM !in f
    requires PROPERTIES in f && f[PROPERTIES] == Obj(nodes) && ADDITIONAL in f
    ensures Accepts(Obj(f), v) <==>
      && v.Obj? && RequiredFits(f, v.fields.Keys)
      && (forall k | k in v.fields && k in nodes :: Accepts(nodes[k], v.fields[k]))
      && (forall k | k in v.fields && k !in nodes :: Accepts(f[ADDITIONAL], v.fields[k]))
  {
    hide RequiredFits;
    assert PropertyNodes(f) == nodes;
  }

  // ------------------------------------------------------------------------
  // Rewritings
  // ------------------------------------------------------------------------

  /** `const: x` becomes `enum: [x]`, at every object of the tree. */
  function ConstAsEnum(node: Json): Json {
    match node
    case Arr(items) => Arr(seq(|items|, (i: nat) requires i < |items| => ConstAsEnum(items[i])))
    case Obj(f) =>
      if CONST in f && ENUM !in f
      then Obj((map k | k in f && k != CONST :: ConstAsEnum(f[k]))[ENUM := Arr([f[CONST]])])
      else Obj(map k | k in f :: ConstAsEnum(f[k]))
    case _ => node
  }

  function WithoutSizeBounds(node: Json): Json {
    match node
    case Arr(items) => Arr(seq(|items|, (i: nat) requires i < |items| => WithoutSizeBounds(items[i])))
    case Obj(f) =>
      Obj(map k | k in f && !(k in SIZE_KEYWORDS && (f[k].Num? || f[k].TooBig?)) :: WithoutSizeBounds(f[k]))
    case _ => node
  }

  /** The keys of an object, in some order. */
  ghost function KeyList(keys: set<string>): (list: seq<Json>)
    ensures forall k | k in keys :: Str(k) in list
    ensures forall x | x in list :: x.Str? && x.text in keys
  {
    if keys == {} then []
    else
      var k :| k in keys;
      [Str(k)] + KeyList(keys - {k})
  }

  function RequiredKeys(f: Node): set<string> {
    if REQUIRED in f && f[REQUIRED].Arr? then set x | x in f[REQUIRED].items && x.Str? :: x.text else {}
  }

  const NULL_NODE := Obj(map[TYPE := Str("null")])

  function OrNull(node: Json): Json {
    Obj(map[ANY_OF := Arr([node, NULL_NODE])])
  }

  /** A closed object requires all its properties; those it did not require may be null instead. */
  ghost function StrictObject(f: Node): Node {
    if !(TYPE in f && f[TYPE] == Str("object") && PROPERTIES in f && f[PROPERTIES].Obj?
         && ADDITIONAL in f && f[ADDITIONAL] == Bool(false))
    then f
    else
      var properties := f[PROPERTIES].fields;
      f[PROPERTIES := Obj(map k | k in properties ::
          if k in RequiredKeys(f) then properties[k] else OrNull(properties[k]))]
       [REQUIRED := Arr(KeyList(properties.Keys))]
  }
}
