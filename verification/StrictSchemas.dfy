/** The strict JSON Schema of a validation schema, and exactly which values it accepts. */
module StrictSchemas {
  import opened Wrappers
  import opened Json
  import opened Schemas
  import opened JsonSchemas

  function Bound(keyword: string, bound: Option<real>): Node {
    if bound.Some? then map[keyword := Num(bound.value)] else map[]
  }

  function Limit(limit: Option<nat>): Option<real> {
    if limit.Some? then Some(limit.value as real) else None
  }

  function TypeNode(name: string): Node {
    map[TYPE := Str(name)]
  }

  /** The node of an object schema before it is made strict: only a closed one rules out other keys. */
  ghost function ObjectNode(nodes: Node, required: set<string>, open: bool): Node {
    map[TYPE := Str("object"), PROPERTIES := Obj(nodes), ADDITIONAL := Bool(open)]
    + if required == {} then map[] else map[REQUIRED := Arr(KeyList(required))]
  }

  function RequiredProps(props: Props): set<string> {
    set k | k in props && !IsOptional(props[k])
  }

  function WithDefault(node: Json, presence: Presence): Json {
    if presence.Default? && node.Obj? then Obj(node.fields[DEFAULT := presence.value]) else node
  }

  /** The node of a schema, with every closed object made strict. */
  ghost function StrictNode(s: Schema): Json
    decreases s
  {
    match s
    case NullSchema => NULL_NODE
    case BoolSchema => Obj(TypeNode("boolean"))
    case NumSchema(b) =>
      Obj(TypeNode("number") + Bound(MINIMUM, b.minimum) + Bound(MAXIMUM, b.maximum)
        + Bound(EXCLUSIVE_MINIMUM, b.exclusiveMinimum) + Bound(EXCLUSIVE_MAXIMUM, b.exclusiveMaximum))
    case StrSchema(length) =>
      Obj(TypeNode("string") + Bound(MIN_LENGTH, Limit(length.least)) + Bound(MAX_LENGTH, Limit(length.most)))
    case Literal(value) => Obj(TypeNode(TypeName(value))[CONST := value])
    case Nullable(inner) => OrNull(StrictNode(inner))
    case ArrSchema(element, count) =>
      Obj(TypeNode("array")[ITEMS := StrictNode(element)]
        + Bound(MIN_ITEMS, Limit(count.least)) + Bound(MAX_ITEMS, Limit(count.most)))
    case ObjSchema(props, unknown) =>
      Obj(StrictObject(ObjectNode(map k | k in props :: PropNode(props[k]), RequiredProps(props), unknown == Passthrough)))
    case Union(options) => AnyOf(options)
    case Discriminated(_, options) => AnyOf(options)
  }

  ghost function PropNode(p: Prop): Json
    decreases p
  {
    WithDefault(StrictNode(p.schema), p.presence)
  }

  ghost function AnyOf(options: seq<Schema>): Json
    decreases options, 1
  {
    Obj(map[ANY_OF := Arr(seq(|options|, (i: nat) requires i < |options| => StrictNode(options[i])))])
  }

  // ------------------------------------------------------------------------
  // What strict schemas accept
  // ------------------------------------------------------------------------

  /**
   * Closed objects have exactly the keys of their schema, optional ones
   * possibly null; open objects may leave optional keys out.
   */
  predicate Admits(s: Schema, v: Json)
    decreases s
  {
    match s
    case Nullable(inner) => v.Null? || Admits(inner, v)
    case ArrSchema(element, count) =>
      v.Arr? && OfSize(count, |v.items|) && forall i | 0 <= i < |v.items| :: Admits(element, v.items[i])
    case ObjSchema(props, unknown) =>
      && v.Obj?
      && (unknown != Passthrough ==> v.fields.Keys == props.Keys)
      && (forall k | k in props :: AdmitsProp(props[k], Lookup(v.fields, k), unknown == Passthrough))
    case Union(options) => exists o | o in options :: Admits(o, v)
    case Discriminated(_, options) => exists o | o in options :: Admits(o, v)
    case _ => Parse(s, v).Some?
  }

  predicate AdmitsProp(p: Prop, x: Option<Json>, open: bool)
    decreases p
  {
    match x
    case None => open && IsOptional(p)
    case Some(value) => (!open && IsOptional(p) && value.Null?) || Admits(p.schema, value)
  }

  /** The strict schema accepts a value exactly if the schema admits it. */
  lemma {:induction false} StrictAccepts(s: Schema, v: Json)
    requires WellFormed(s)
    ensures Accepts(StrictNode(s), v) <==> Admits(s, v)
    decreases s, 1
  {
    hide Accepts;
    match s
    case Nullable(inner) =>
      StrictAccepts(inner, v);
      OrNullAccepts(StrictNode(inner), v);
    case ArrSchema(_, _) => ItemsAccept(s, v);
    case ObjSchema(_, _) => FieldsAccept(s, v);
    case Union(options) => AnyOfAccepts(options, v);
    case Discriminated(_, options) => AnyOfAccepts(options, v);
    case _ => ScalarAccepts(s, v);
  }

  lemma ScalarAccepts(s: Schema, v: Json)
    requires s.NullSchema? || s.BoolSchema? || s.NumSchema? || s.StrSchema? || (s.Literal? && WellFormed(s))
    ensures Accepts(StrictNode(s), v) <==> Parse(s, v).Some?
  {
    hide Accepts;
    match s
    case NullSchema => LeafAccepts(NULL_NODE.fields, v);
    case BoolSchema => LeafAccepts(TypeNode("boolean"), v);
    case NumSchema(b) => NumAccepts(b, v);
    case StrSchema(length) => StrAccepts(length, v);
    case Literal(value) => LeafAccepts(TypeNode(TypeName(value))[CONST := value], v);
  }

  lemma {:induction false} ItemsAccept(s: Schema, v: Json)
    requires s.ArrSchema? && WellFormed(s)
    ensures Accepts(StrictNode(s), v) <==> Admits(s, v)
    decreases s, 0
  {
    var node := StrictNode(s.element);
    ArrAccepts(node, s.count, v);
    hide Accepts;
    if v.Arr? {
      forall i | 0 <= i < |v.items|
        ensures Accepts(node, v.items[i]) <==> Admits(s.element, v.items[i])
      {
        StrictAccepts(s.element, v.items[i]);
      }
      assert (forall x | x in v.items :: Accepts(node, x)) <==> forall i | 0 <= i < |v.items| :: Accepts(node, v.items[i]);
    }
  }

  lemma {:induction false} FieldsAccept(s: Schema, v: Json)
    requires s.ObjSchema? && WellFormed(s)
    ensures Accepts(StrictNode(s), v) <==> Admits(s, v)
    decreases s, 0
  {
    hide Accepts, StrictNode, PropNode, Admits;
    if v.Obj? {
      forall k | k in s.props && k in v.fields
        ensures Accepts(PropNode(s.props[k]), v.fields[k]) <==> Admits(s.props[k].schema, v.fields[k])
      {
        PropAccepts(s.props[k], v.fields[k]);
      }
    }
    ObjAccepts(s.props, s.unknown, v);
  }

  lemma NumNodeKeys(b: Bounds)
    ensures StrictNode(NumSchema(b)).Obj?
    ensures
      var f := StrictNode(NumSchema(b)).fields;
      && TYPE in f && f[TYPE] == Str("number")
      && f.Keys <= {TYPE, MINIMUM, MAXIMUM, EXCLUSIVE_MINIMUM, EXCLUSIVE_MAXIMUM}
  {
  }

  lemma BoundAdded(f: Node, keyword: string, bound: Option<real>)
    ensures
      var g := f + Bound(keyword, bound);
      && (keyword !in f ==> Number(g, keyword) == bound)
      && forall other | other != keyword :: Number(g, other) == Number(f, other)
  {
  }

  lemma NumNodeBounds(b: Bounds)
    ensures
      var f := StrictNode(NumSchema(b)).fields;
      && Number(f, MINIMUM) == b.minimum && Number(f, MAXIMUM) == b.maximum
      && Number(f, EXCLUSIVE_MINIMUM) == b.exclusiveMinimum && Number(f, EXCLUSIVE_MAXIMUM) == b.exclusiveMaximum
  {
    var f0 := TypeNode("number");
    var f1 := f0 + Bound(MINIMUM, b.minimum);
    var f2 := f1 + Bound(MAXIMUM, b.maximum);
    var f3 := f2 + Bound(EXCLUSIVE_MINIMUM, b.exclusiveMinimum);
    assert MINIMUM !in f0 && MAXIMUM !in f1 && EXCLUSIVE_MINIMUM !in f2 && EXCLUSIVE_MAXIMUM !in f3;
    hide Bound, Number;
    BoundAdded(f0, MINIMUM, b.minimum);
    BoundAdded(f1, MAXIMUM, b.maximum);
    BoundAdded(f2, EXCLUSIVE_MINIMUM, b.exclusiveMinimum);
    BoundAdded(f3, EXCLUSIVE_MAXIMUM, b.exclusiveMaximum);
  }

  lemma NumAccepts(b: Bounds, v: Json)
    ensures Accepts(StrictNode(NumSchema(b)), v) <==> v.Num? && InBounds(b, v.value)
  {
    hide StrictNode, Accepts;
    NumNodeKeys(b);
    NumNodeBounds(b);
    LeafAccepts(StrictNode(NumSchema(b)).fields, v);
  }

  lemma StrNodeKeys(length: Size)
    ensures StrictNode(StrSchema(length)).Obj?
    ensures
      var f := StrictNode(StrSchema(length)).fields;
      && TYPE in f && f[TYPE] == Str("string") && f.Keys <= {TYPE, MIN_LENGTH, MAX_LENGTH}
      && Number(f, MIN_LENGTH) == Limit(length.least) && Number(f, MAX_LENGTH) == Limit(length.most)
  {
  }

  lemma StrAccepts(length: Size, v: Json)
    ensures Accepts(StrictNode(StrSchema(length)), v) <==> v.Str? && OfSize(length, |v.text|)
  {
    hide StrictNode, Accepts;
    StrNodeKeys(length);
    LeafAccepts(StrictNode(StrSchema(length)).fields, v);
  }

  lemma OrNullAccepts(node: Json, v: Json)
    ensures Accepts(OrNull(node), v) <==> Accepts(node, v) || v.Null?
  {
    LeafAccepts(NULL_NODE.fields, v);
    hide Accepts;
    ChoiceAccepts([node, NULL_NODE], v);
    assert [node, NULL_NODE][0] == node && [node, NULL_NODE][1] == NULL_NODE;
  }

  lemma ArrAccepts(node: Json, count: Size, v: Json)
    ensures
      var f := TypeNode("array")[ITEMS := node] + Bound(MIN_ITEMS, Limit(count.least)) + Bound(MAX_ITEMS, Limit(count.most));
      Accepts(Obj(f), v) <==>
        v.Arr? && OfSize(count, |v.items|) && forall x | x in v.items :: Accepts(node, x)
  {
    var f := TypeNode("array")[ITEMS := node] + Bound(MIN_ITEMS, Limit(count.least)) + Bound(MAX_ITEMS, Limit(count.most));
    assert TYPE in f && f[TYPE] == Str("array") && ITEMS in f && f[ITEMS] == node;
    assert ANY_OF !in f && CONST !in f && ENUM !in f;
    assert Number(f, MIN_ITEMS) == Limit(count.least) && Number(f, MAX_ITEMS) == Limit(count.most);
    hide Accepts;
    ListAccepts(f, v);
  }

  lemma {:induction false} PropAccepts(p: Prop, x: Json)
    requires WellFormed(p.schema)
    ensures Accepts(PropNode(p), x) <==> Admits(p.schema, x)
    decreases p
  {
    StrictAccepts(p.schema, x);
    DefaultIsNoConstraint(StrictNode(p.schema), p.presence, x);
  }

  lemma DefaultIsNoConstraint(node: Json, presence: Presence, v: Json)
    ensures Accepts(WithDefault(node, presence), v) <==> Accepts(node, v)
  {
    if presence.Default? && node.Obj? {
      ExtraKeyIsNoConstraint(node.fields, node.fields[DEFAULT := presence.value], v);
    }
  }

  lemma ExtraKeyIsNoConstraint(f: Node, g: Node, v: Json)
    requires forall k | k != DEFAULT :: (k in f <==> k in g) && (k in f ==> f[k] == g[k])
    ensures Accepts(Obj(f), v) <==> Accepts(Obj(g), v)
  {
    assert PropertyNodes(f) == PropertyNodes(g);
    assert SizesFit(f, v) <==> SizesFit(g, v) by {
      assert forall k | k != DEFAULT :: Number(f, k) == Number(g, k);
    }
    hide SizesFit, PropertyNodes;
  }

  lemma {:induction false} AnyOfAccepts(options: seq<Schema>, v: Json)
    requires forall o | o in options :: WellFormed(o)
    ensures Accepts(AnyOf(options), v) <==> exists o | o in options :: Admits(o, v)
    decreases options, 2
  {
    var nodes := AnyOf(options).fields[ANY_OF].items;
    hide Accepts;
    forall i | 0 <= i < |options|
      ensures Accepts(nodes[i], v) <==> Admits(options[i], v)
    {
      StrictAccepts(options[i], v);
    }
    hide StrictNode;
    ChoiceAccepts(nodes, v);
    if exists o | o in options :: Admits(o, v) {
      var o :| o in options && Admits(o, v);
      var i :| 0 <= i < |options| && options[i] == o;
      assert nodes[i] in nodes;
    }
  }

  // ------------------------------------------------------------------------
  // Objects
  // ------------------------------------------------------------------------

  function OrNullUnless(nodes: Node, required: set<string>): Node {
    map k | k in nodes :: if k in required then nodes[k] else OrNull(nodes[k])
  }

  lemma ClosedShape(nodes: Node, required: set<string>)
    ensures
      var f := StrictObject(ObjectNode(nodes, required, false));
      && f.Keys == {TYPE, PROPERTIES, ADDITIONAL, REQUIRED}
      && f[TYPE] == Str("object") && f[PROPERTIES] == Obj(OrNullUnless(nodes, required))
      && f[ADDITIONAL] == Bool(false) && f[REQUIRED] == Arr(KeyList(nodes.Keys))
  {
    var f := ObjectNode(nodes, required, false);
    RequiredOfObjectNode(nodes, required, false);
    assert f[PROPERTIES] == Obj(nodes);
  }

  lemma RequiredOfObjectNode(nodes: Node, required: set<string>, open: bool)
    ensures RequiredKeys(ObjectNode(nodes, required, open)) == required
  {
    hide KeyList;
    if required != {} {
      KeyListHasKeys(required);
    }
  }

  lemma KeyListHasKeys(keys: set<string>)
    ensures (set x | x in KeyList(keys) && x.Str? :: x.text) == keys
  {
    assert forall k | k in keys :: Str(k) in KeyList(keys) && Str(k).text == k;
  }

  lemma RequiresAll(f: Node, required: set<string>, keys: set<string>)
    requires REQUIRED in f && f[REQUIRED] == Arr(KeyList(required))
    ensures RequiredFits(f, keys) <==> required <= keys
  {
    assert forall k | k in required :: Str(k) in KeyList(required) && Str(k).text == k;
  }

  lemma ClosedParts(f: Node, parts: Node, v: Json)
    requires f.Keys == {TYPE, PROPERTIES, ADDITIONAL, REQUIRED}
    requires f[TYPE] == Str("object") && f[PROPERTIES] == Obj(parts)
    requires f[ADDITIONAL] == Bool(false) && f[REQUIRED] == Arr(KeyList(parts.Keys))
    ensures Accepts(Obj(f), v) <==>
      v.Obj? && v.fields.Keys == parts.Keys && forall k | k in v.fields && k in parts :: Accepts(parts[k], v.fields[k])
  {
    assert forall x :: !Accepts(Bool(false), x);
    hide Accepts, RequiredFits, KeyList;
    RecordAccepts(f, parts, v);
    if v.Obj? {
      RequiresAll(f, parts.Keys, v.fields.Keys);
    }
  }

  lemma ClosedAccepts(nodes: Node, required: set<string>, v: Json)
    ensures
      Accepts(Obj(StrictObject(ObjectNode(nodes, required, false))), v) <==>
        && v.Obj? && v.fields.Keys == nodes.Keys
        && forall k | k in v.fields && k in nodes :: Accepts(nodes[k], v.fields[k]) || (k !in required && v.fields[k].Null?)
  {
    assert OrNullUnless(nodes, required).Keys == nodes.Keys;
    hide Accepts, StrictObject, ObjectNode, KeyList, OrNull;
    ClosedShape(nodes, required);
    ClosedParts(StrictObject(ObjectNode(nodes, required, false)), OrNullUnless(nodes, required), v);
    if v.Obj? {
      forall k | k in nodes && k in v.fields
        ensures Accepts(OrNullUnless(nodes, required)[k], v.fields[k])
           <==> Accepts(nodes[k], v.fields[k]) || (k !in required && v.fields[k].Null?)
      {
        OrNullAccepts(nodes[k], v.fields[k]);
      }
    }
  }

  lemma OpenAccepts(nodes: Node, required: set<string>, v: Json)
    requires required <= nodes.Keys
    ensures
      Accepts(Obj(StrictObject(ObjectNode(nodes, required, true))), v) <==>
        && v.Obj?
        && forall k | k in nodes :: if k in v.fields then Accepts(nodes[k], v.fields[k]) else k !in required
  {
    var f := ObjectNode(nodes, required, true);
    assert StrictObject(f) == f;
    assert ANY_OF !in f && CONST !in f && ENUM !in f;
    hide StrictObject, RequiredFits, KeyList;
    RecordAccepts(f, nodes, v);
    if v.Obj? {
      if required == {} {
        assert REQUIRED !in f;
        RequiresNothing(f, v.fields.Keys);
      } else {
        RequiresAll(f, required, v.fields.Keys);
      }
    }
  }

  lemma RequiresNothing(f: Node, keys: set<string>)
    requires REQUIRED !in f
    ensures RequiredFits(f, keys)
  {
  }

  lemma ObjAccepts(props: Props, unknown: UnknownKeys, v: Json)
    requires v.Obj? ==> forall k | k in props && k in v.fields ::
      Accepts(PropNode(props[k]), v.fields[k]) <==> Admits(props[k].schema, v.fields[k])
    ensures Accepts(StrictNode(ObjSchema(props, unknown)), v) <==> Admits(ObjSchema(props, unknown), v)
  {
    hide Accepts, StrictObject, ObjectNode, PropNode, IsOptional;
    var nodes := NodesOf(props);
    if unknown == Passthrough {
      OpenAccepts(nodes, RequiredProps(props), v);
    } else {
      ClosedAccepts(nodes, RequiredProps(props), v);
    }
    if v.Obj? && v.fields.Keys == props.Keys {
      assert forall k | k in props :: Lookup(v.fields, k) == Some(v.fields[k]);
    }
  }

  ghost function NodesOf(props: Props): (nodes: Node)
    ensures nodes.Keys == props.Keys
  {
    map k | k in props :: PropNode(props[k])
  }

  /** Making a node strict twice is making it strict once. */
  lemma StrictOnce(f: Node)
    ensures StrictObject(StrictObject(f)) == StrictObject(f)
  {
    if TYPE in f && f[TYPE] == Str("object") && PROPERTIES in f && f[PROPERTIES].Obj? && ADDITIONAL in f && f[ADDITIONAL] == Bool(false) {
      var nodes := f[PROPERTIES].fields;
      StrictShape(f, nodes);
      var g := StrictObject(f);
      var properties := OrNullUnless(nodes, RequiredKeys(f));
      KeyListHasKeys(nodes.Keys);
      assert RequiredKeys(g) == nodes.Keys;
      StrictShape(g, properties);
      assert OrNullUnless(properties, nodes.Keys) == properties;
      assert properties.Keys == nodes.Keys;
    }
  }

  lemma StrictShape(f: Node, nodes: Node)
    requires TYPE in f && f[TYPE] == Str("object") && ADDITIONAL in f && f[ADDITIONAL] == Bool(false)
    requires PROPERTIES in f && f[PROPERTIES] == Obj(nodes)
    ensures StrictObject(f) == f[PROPERTIES := Obj(OrNullUnless(nodes, RequiredKeys(f)))][REQUIRED := Arr(KeyList(nodes.Keys))]
  {
    assert (map k | k in nodes :: if k in RequiredKeys(f) then nodes[k] else OrNull(nodes[k]))
        == OrNullUnless(nodes, RequiredKeys(f));
  }
}
