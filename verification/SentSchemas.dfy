/** The schemas that are sent to an endpoint, and exactly which values they accept. */
module SentSchemas {
  import opened Wrappers
  import opened Json
  import opened Schemas
  import opened JsonSchemas
  import opened StrictSchemas
  import opened NodeRewriting

  /** The schema as it is sent first, and again without size bounds if it was refused. */
  ghost function SentNode(s: Schema): Json {
    ConstAsEnum(StrictNode(s))
  }

  /** A key named `const` and none named `enum`: the rewriting takes it for the keyword. */
  predicate HasBareConst(props: Props) {
    CONST in props && ENUM !in props
  }

  /**
   * What a sent schema accepts. A closed object with a bare `const` key accepts
   * nothing. An open one no longer looks at the value of that key, and rules
   * out a key named `enum`.
   */
  predicate SentAdmits(s: Schema, v: Json)
    decreases s
  {
    match s
    case Nullable(inner) => v.Null? || SentAdmits(inner, v)
    case ArrSchema(element, count) =>
      v.Arr? && OfSize(count, |v.items|) && forall i | 0 <= i < |v.items| :: SentAdmits(element, v.items[i])
    case ObjSchema(props, unknown) =>
      var open := unknown == Passthrough;
      && v.Obj?
      && (HasBareConst(props) ==> open && ENUM !in v.fields && (CONST in v.fields || IsOptional(props[CONST])))
      && (!open ==> v.fields.Keys == props.Keys)
      && (forall k | k in props && (k == CONST ==> !HasBareConst(props)) ::
            SentAdmitsProp(props[k], Lookup(v.fields, k), open))
    case Union(options) => exists o | o in options :: SentAdmits(o, v)
    case Discriminated(_, options) => exists o | o in options :: SentAdmits(o, v)
    case _ => Parse(s, v).Some?
  }

  predicate SentAdmitsProp(p: Prop, x: Option<Json>, open: bool)
    decreases p
  {
    match x
    case None => open && IsOptional(p)
    case Some(value) => (!open && IsOptional(p) && value.Null?) || SentAdmits(p.schema, value)
  }

  // ------------------------------------------------------------------------
  // How nodes of each kind are rewritten
  // ------------------------------------------------------------------------

  lemma OrNullRewritten(node: Json)
    ensures ConstAsEnum(OrNull(node)) == OrNull(ConstAsEnum(node))
  {
    var items := [node, NULL_NODE];
    assert ConstAsEnum(NULL_NODE) == NULL_NODE;
    assert ConstAsEnum(Arr(items)).items == [ConstAsEnum(node), ConstAsEnum(NULL_NODE)];
  }

  function ListNode(node: Json, count: Size): Node {
    TypeNode("array")[ITEMS := node] + Bound(MIN_ITEMS, Limit(count.least)) + Bound(MAX_ITEMS, Limit(count.most))
  }

  lemma ListNodeKeys(node: Json, count: Size)
    ensures
      var f := ListNode(node, count);
      && TYPE in f && f[TYPE] == Str("array") && ITEMS in f && f[ITEMS] == node
      && ANY_OF !in f && CONST !in f && ENUM !in f
      && Number(f, MIN_ITEMS) == Limit(count.least) && Number(f, MAX_ITEMS) == Limit(count.most)
  {
  }

  lemma SentListAccepts(node: Json, count: Size, v: Json)
    ensures Accepts(ConstAsEnum(Obj(ListNode(node, count))), v) <==>
      v.Arr? && OfSize(count, |v.items|) && forall x | x in v.items :: Accepts(ConstAsEnum(node), x)
  {
    var f := ListNode(node, count);
    var g := ConstAsEnum(Obj(f)).fields;
    ListNodeKeys(node, count);
    EnumFields(f);
    EnumSizes(f, v);
    assert ConstAsEnum(Str("array")) == Str("array");
    hide ConstAsEnum, Accepts, ListNode, Number;
    ListAccepts(g, v);
    if v.Arr? {
      SizesOfList(f, count, v);
    }
  }

  lemma SizesOfList(f: Node, count: Size, v: Json)
    requires v.Arr? && Number(f, MIN_ITEMS) == Limit(count.least) && Number(f, MAX_ITEMS) == Limit(count.most)
    ensures SizesFit(f, v) <==> OfSize(count, |v.items|)
  {
  }

  lemma ChoiceRewritten(nodes: seq<Json>, again: seq<Json>)
    requires |again| == |nodes| && forall i | 0 <= i < |nodes| :: again[i] == ConstAsEnum(nodes[i])
    ensures ConstAsEnum(Obj(map[ANY_OF := Arr(nodes)])) == Obj(map[ANY_OF := Arr(again)])
  {
    assert ConstAsEnum(Arr(nodes)).items == again;
  }

  function AllConstAsEnum(nodes: Node): (again: Node)
    ensures again.Keys == nodes.Keys
  {
    map k | k in nodes :: ConstAsEnum(nodes[k])
  }

  lemma PropertiesRewritten(nodes: Node)
    requires !(CONST in nodes && ENUM !in nodes)
    ensures ConstAsEnum(Obj(nodes)) == Obj(AllConstAsEnum(nodes))
  {
  }

  lemma PartsRewritten(nodes: Node, required: set<string>)
    ensures AllConstAsEnum(OrNullUnless(nodes, required)) == OrNullUnless(AllConstAsEnum(nodes), required)
  {
    hide ConstAsEnum, OrNull;
    var before, after := OrNullUnless(nodes, required), OrNullUnless(AllConstAsEnum(nodes), required);
    assert before.Keys == nodes.Keys == after.Keys;
    forall k | k in nodes
      ensures ConstAsEnum(before[k]) == after[k]
    {
      OrNullRewritten(nodes[k]);
    }
    assert AllConstAsEnum(before) == after;
  }

  // ------------------------------------------------------------------------
  // Objects
  // ------------------------------------------------------------------------

  lemma NoOtherKeys(f: Node)
    requires f.Keys == {TYPE, PROPERTIES, ADDITIONAL, REQUIRED}
    ensures CONST !in f && ENUM !in f && TYPE in f && PROPERTIES in f && ADDITIONAL in f && REQUIRED in f
  {
  }

  lemma ClosedStrictNode(props: Props, unknown: UnknownKeys)
    requires unknown != Passthrough
    ensures StrictNode(ObjSchema(props, unknown)) == Obj(StrictObject(ObjectNode(NodesOf(props), RequiredProps(props), false)))
    ensures OrNullUnless(NodesOf(props), RequiredProps(props)).Keys == props.Keys
  {
    hide StrictObject, ObjectNode;
  }

  lemma OpenStrictNode(props: Props)
    ensures StrictNode(ObjSchema(props, Passthrough)) == Obj(StrictObject(ObjectNode(NodesOf(props), RequiredProps(props), true)))
  {
    hide StrictObject, ObjectNode;
  }

  /** The rewritten node of a closed object, when no property is a bare `const`. */
  lemma ClosedRewritten(nodes: Node, required: set<string>)
    requires !(CONST in nodes && ENUM !in nodes)
    ensures
      var f := StrictObject(ObjectNode(nodes, required, false));
      var g := ConstAsEnum(Obj(f)).fields;
      var parts := OrNullUnless(AllConstAsEnum(nodes), required);
      && g.Keys == {TYPE, PROPERTIES, ADDITIONAL, REQUIRED}
      && g[TYPE] == Str("object") && g[PROPERTIES] == Obj(parts)
      && g[ADDITIONAL] == Bool(false) && g[REQUIRED] == Arr(KeyList(parts.Keys))
  {
    hide ConstAsEnum, StrictObject, ObjectNode, KeyList, OrNull, AllConstAsEnum;
    var f := StrictObject(ObjectNode(nodes, required, false));
    var parts := OrNullUnless(nodes, required);
    ClosedShape(nodes, required);
    RecordRewritten(f);
    KeysStay(nodes.Keys);
    SimpleValuesStay();
    PropertiesRewritten(parts);
    PartsRewritten(nodes, required);
    SameKeys(nodes, required);
  }

  lemma SameKeys(nodes: Node, required: set<string>)
    ensures OrNullUnless(nodes, required).Keys == nodes.Keys == OrNullUnless(AllConstAsEnum(nodes), required).Keys
  {
  }

  lemma RecordRewritten(f: Node)
    requires f.Keys == {TYPE, PROPERTIES, ADDITIONAL, REQUIRED}
    ensures
      var g := ConstAsEnum(Obj(f)).fields;
      g.Keys == f.Keys && forall k | k in f :: g[k] == ConstAsEnum(f[k])
  {
    NoOtherKeys(f);
  }

  lemma SimpleValuesStay()
    ensures ConstAsEnum(Str("object")) == Str("object")
    ensures ConstAsEnum(Bool(false)) == Bool(false) && ConstAsEnum(Bool(true)) == Bool(true)
  {
  }

  lemma KeysStay(keys: set<string>)
    ensures ConstAsEnum(Arr(KeyList(keys))) == Arr(KeyList(keys))
  {
    ScalarsStay(KeyList(keys));
  }

  /** What a rewritten closed object accepts. */
  lemma SentClosedAccepts(nodes: Node, required: set<string>, v: Json)
    ensures Accepts(ConstAsEnum(Obj(StrictObject(ObjectNode(nodes, required, false)))), v) <==>
      && !(CONST in nodes && ENUM !in nodes)
      && v.Obj? && v.fields.Keys == nodes.Keys
      && forall k | k in v.fields && k in nodes ::
           Accepts(ConstAsEnum(nodes[k]), v.fields[k]) || (k !in required && v.fields[k].Null?)
  {
    hide ConstAsEnum, Accepts, StrictObject, ObjectNode, KeyList, OrNull;
    var f := StrictObject(ObjectNode(nodes, required, false));
    if CONST in nodes && ENUM !in nodes {
      ClosedShape(nodes, required);
      NoOtherKeys(f);
      assert OrNullUnless(nodes, required).Keys == nodes.Keys;
      KeyListHasKey(nodes.Keys, CONST);
      BareConstAcceptsNothing(f, v);
    } else {
      ClosedRewritten(nodes, required);
      var again := AllConstAsEnum(nodes);
      var parts := OrNullUnless(again, required);
      assert parts.Keys == again.Keys == nodes.Keys;
      RewrittenIsObj(f);
      ClosedParts(ConstAsEnum(Obj(f)).fields, parts, v);
      if v.Obj? {
        forall k | k in nodes && k in v.fields
          ensures Accepts(parts[k], v.fields[k])
            <==> Accepts(again[k], v.fields[k]) || (k !in required && v.fields[k].Null?)
        {
          OrNullAccepts(again[k], v.fields[k]);
        }
      }
    }
  }

  lemma KeyListHasKey(keys: set<string>, k: string)
    requires k in keys
    ensures Str(k) in KeyList(keys)
  {
  }

  lemma RewrittenIsObj(f: Node)
    ensures ConstAsEnum(Obj(f)).Obj?
  {
  }

  /** The properties of a rewritten object: a bare `const` becomes an `enum` that is no schema. */
  function RenamedParts(nodes: Node): Node {
    if CONST in nodes && ENUM !in nodes
    then (map k | k in nodes && k != CONST :: ConstAsEnum(nodes[k]))[ENUM := Arr([nodes[CONST]])]
    else AllConstAsEnum(nodes)
  }

  lemma OpenRewritten(nodes: Node, required: set<string>)
    ensures
      var f := StrictObject(ObjectNode(nodes, required, true));
      var g := ConstAsEnum(Obj(f)).fields;
      && TYPE in g && g[TYPE] == Str("object") && ANY_OF !in g && CONST !in g && ENUM !in g
      && PROPERTIES in g && g[PROPERTIES] == Obj(RenamedParts(nodes))
      && ADDITIONAL in g && g[ADDITIONAL] == Bool(true)
      && (REQUIRED in g <==> required != {}) && (REQUIRED in g ==> g[REQUIRED] == Arr(KeyList(required)))
  {
    var f := StrictObject(ObjectNode(nodes, required, true));
    OpenShape(nodes, required);
    OpenRequires(nodes, required);
    EnumFields(f);
    KeysStay(required);
    SimpleValuesStay();
    assert ConstAsEnum(Obj(nodes)) == Obj(RenamedParts(nodes));
    hide ConstAsEnum, StrictObject, ObjectNode, KeyList, RenamedParts;
    assert ANY_OF !in f && CONST !in f && ENUM !in f;
  }

  lemma OpenRequires(nodes: Node, required: set<string>)
    ensures REQUIRED in StrictObject(ObjectNode(nodes, required, true)) <==> required != {}
  {
  }

  /** What a rewritten open object accepts. */
  lemma SentOpenAccepts(nodes: Node, required: set<string>, v: Json)
    ensures Accepts(ConstAsEnum(Obj(StrictObject(ObjectNode(nodes, required, true)))), v) <==>
      && v.Obj? && required <= v.fields.Keys
      && forall k | k in v.fields && k in RenamedParts(nodes) :: Accepts(RenamedParts(nodes)[k], v.fields[k])
  {
    assert forall x :: Accepts(Bool(true), x);
    hide ConstAsEnum, Accepts, StrictObject, ObjectNode, KeyList, RenamedParts, RequiredFits;
    var f := StrictObject(ObjectNode(nodes, required, true));
    OpenRewritten(nodes, required);
    RewrittenIsObj(f);
    var g := ConstAsEnum(Obj(f)).fields;
    RecordAccepts(g, RenamedParts(nodes), v);
    if v.Obj? {
      if required == {} {
        RequiresNothing(g, v.fields.Keys);
      } else {
        RequiresAll(g, required, v.fields.Keys);
      }
    }
  }

  // ------------------------------------------------------------------------
  // What is sent accepts exactly this
  // ------------------------------------------------------------------------

  /** The sent schema accepts a value exactly if it is one the sent schema admits, bare `const` keys or not. */
  lemma {:induction false} SentAccepts(s: Schema, v: Json)
    requires WellFormed(s)
    ensures Accepts(SentNode(s), v) <==> SentAdmits(s, v)
    decreases s, 1
  {
    hide Accepts, ConstAsEnum;
    match s
    case Nullable(inner) =>
      SentAccepts(inner, v);
      OrNullRewritten(StrictNode(inner));
      OrNullAccepts(SentNode(inner), v);
    case ArrSchema(_, _) => SentItemsAccept(s, v);
    case ObjSchema(_, _) => SentFieldsAccept(s, v);
    case Union(options) => SentChoiceAccepts(options, v);
    case Discriminated(_, options) => SentChoiceAccepts(options, v);
    case _ =>
      ScalarIsNode(s);
      ConstAsEnumMeansTheSame(StrictNode(s), v);
      ScalarAccepts(s, v);
  }

  lemma {:induction false} SentItemsAccept(s: Schema, v: Json)
    requires s.ArrSchema? && WellFormed(s)
    ensures Accepts(SentNode(s), v) <==> SentAdmits(s, v)
    decreases s, 0
  {
    var node := StrictNode(s.element);
    assert StrictNode(s) == Obj(ListNode(node, s.count));
    hide Accepts, ConstAsEnum;
    SentListAccepts(node, s.count, v);
    if v.Arr? {
      forall i | 0 <= i < |v.items|
        ensures Accepts(ConstAsEnum(node), v.items[i]) <==> SentAdmits(s.element, v.items[i])
      {
        SentAccepts(s.element, v.items[i]);
      }
      assert (forall x | x in v.items :: Accepts(ConstAsEnum(node), x))
        <==> forall i | 0 <= i < |v.items| :: Accepts(ConstAsEnum(node), v.items[i]);
    }
  }

  lemma {:induction false} SentFieldsAccept(s: Schema, v: Json)
    requires s.ObjSchema? && WellFormed(s)
    ensures Accepts(SentNode(s), v) <==> SentAdmits(s, v)
    decreases s, 0
  {
    hide Accepts, ConstAsEnum, StrictNode, PropNode, SentAdmits;
    if v.Obj? {
      forall k | k in s.props && k in v.fields
        ensures Accepts(ConstAsEnum(PropNode(s.props[k])), v.fields[k]) <==> SentAdmits(s.props[k].schema, v.fields[k])
      {
        SentPropAccepts(s.props[k], v.fields[k]);
      }
    }
    if s.unknown == Passthrough {
      SentOpenObject(s.props, v);
    } else {
      SentClosedObject(s.props, s.unknown, v);
    }
  }

  lemma {:induction false} SentPropAccepts(p: Prop, x: Json)
    requires WellFormed(p.schema)
    ensures Accepts(ConstAsEnum(PropNode(p)), x) <==> SentAdmits(p.schema, x)
    decreases p
  {
    SentAccepts(p.schema, x);
    DefaultIsNoConstraintOnceSent(StrictNode(p.schema), p.presence, x);
  }

  lemma DefaultIsNoConstraintOnceSent(node: Json, presence: Presence, v: Json)
    ensures Accepts(ConstAsEnum(WithDefault(node, presence)), v) <==> Accepts(ConstAsEnum(node), v)
  {
    if presence.Default? && node.Obj? {
      var f, g := node.fields, node.fields[DEFAULT := presence.value];
      EnumFields(f);
      EnumFields(g);
      hide ConstAsEnum, Accepts;
      RewrittenIsObj(f);
      RewrittenIsObj(g);
      assert forall k | k != DEFAULT :: (k in f <==> k in g) && (k in f ==> f[k] == g[k]);
      ExtraKeyIsNoConstraint(ConstAsEnum(Obj(f)).fields, ConstAsEnum(Obj(g)).fields, v);
    }
  }

  lemma {:induction false} SentChoiceAccepts(options: seq<Schema>, v: Json)
    requires forall o | o in options :: WellFormed(o)
    ensures Accepts(ConstAsEnum(AnyOf(options)), v) <==> exists o | o in options :: SentAdmits(o, v)
    decreases options, 2
  {
    var nodes := AnyOf(options).fields[ANY_OF].items;
    var again := seq(|nodes|, (i: nat) requires i < |nodes| => ConstAsEnum(nodes[i]));
    hide Accepts, ConstAsEnum;
    ChoiceRewritten(nodes, again);
    ChoiceAccepts(again, v);
    forall i | 0 <= i < |options|
      ensures Accepts(again[i], v) <==> SentAdmits(options[i], v)
    {
      SentAccepts(options[i], v);
    }
    hide StrictNode, SentAdmits;
    if exists o | o in options :: SentAdmits(o, v) {
      var o :| o in options && SentAdmits(o, v);
      var i :| 0 <= i < |options| && options[i] == o;
      assert again[i] in again;
    }
  }

  lemma SentClosedObject(props: Props, unknown: UnknownKeys, v: Json)
    requires unknown != Passthrough
    requires v.Obj? ==> forall k | k in props && k in v.fields ::
      Accepts(ConstAsEnum(PropNode(props[k])), v.fields[k]) <==> SentAdmits(props[k].schema, v.fields[k])
    ensures Accepts(SentNode(ObjSchema(props, unknown)), v) <==> SentAdmits(ObjSchema(props, unknown), v)
  {
    hide Accepts, ConstAsEnum, StrictObject, ObjectNode, PropNode, IsOptional, StrictNode;
    ClosedStrictNode(props, unknown);
    SentClosedAccepts(NodesOf(props), RequiredProps(props), v);
    if v.Obj? && v.fields.Keys == props.Keys {
      assert forall k | k in props :: Lookup(v.fields, k) == Some(v.fields[k]);
    }
  }

  /** What the properties of a rewritten open object ask of a value's fields. */
  lemma SentOpenParts(props: Props, fields: map<string, Json>)
    requires forall k | k in props && k in fields ::
      Accepts(ConstAsEnum(PropNode(props[k])), fields[k]) <==> SentAdmits(props[k].schema, fields[k])
    ensures
      var parts := RenamedParts(NodesOf(props));
      (forall k | k in fields && k in parts :: Accepts(parts[k], fields[k])) <==>
        && (HasBareConst(props) ==> ENUM !in fields)
        && forall k | k in props && k in fields && (k == CONST ==> !HasBareConst(props)) ::
             SentAdmits(props[k].schema, fields[k])
  {
    var nodes := NodesOf(props);
    var parts := RenamedParts(nodes);
    assert forall list, x :: !Accepts(Arr(list), x);
    RenamedKeys(nodes);
    hide Accepts, ConstAsEnum, PropNode, RenamedParts, SentAdmits;
    assert forall k | k in props && (k == CONST ==> !HasBareConst(props)) :: k in parts && parts[k] == ConstAsEnum(PropNode(props[k]));
  }

  lemma SentOpenObject(props: Props, v: Json)
    requires v.Obj? ==> forall k | k in props && k in v.fields ::
      Accepts(ConstAsEnum(PropNode(props[k])), v.fields[k]) <==> SentAdmits(props[k].schema, v.fields[k])
    ensures Accepts(SentNode(ObjSchema(props, Passthrough)), v) <==> SentAdmits(ObjSchema(props, Passthrough), v)
  {
    hide Accepts, ConstAsEnum, StrictObject, ObjectNode, PropNode, IsOptional, StrictNode, RenamedParts;
    OpenStrictNode(props);
    SentOpenAccepts(NodesOf(props), RequiredProps(props), v);
    if v.Obj? {
      SentOpenParts(props, v.fields);
      OpenAdmits(props, v.fields);
    }
  }

  lemma OpenAdmits(props: Props, fields: map<string, Json>)
    ensures SentAdmits(ObjSchema(props, Passthrough), Obj(fields)) <==>
      && RequiredProps(props) <= fields.Keys
      && (HasBareConst(props) ==> ENUM !in fields)
      && forall k | k in props && k in fields && (k == CONST ==> !HasBareConst(props)) ::
           SentAdmits(props[k].schema, fields[k])
  {
    hide IsOptional;
    forall k | k in props
      ensures SentAdmitsProp(props[k], Lookup(fields, k), true)
        <==> if k in fields then SentAdmits(props[k].schema, fields[k]) else IsOptional(props[k])
    {
    }
  }

  lemma RenamedKeys(nodes: Node)
    ensures
      var again, bare := RenamedParts(nodes), CONST in nodes && ENUM !in nodes;
      && (forall k | k in nodes && (k == CONST ==> !bare) :: k in again && again[k] == ConstAsEnum(nodes[k]))
      && (forall k | k in again && (k == ENUM ==> !bare) :: k in nodes && (k == CONST ==> !bare))
      && (bare ==> CONST !in again && ENUM in again && again[ENUM] == Arr([nodes[CONST]]))
  {
    hide ConstAsEnum;
  }

  // ------------------------------------------------------------------------
  // When the rewriting changes nothing, and what it changes
  // ------------------------------------------------------------------------

  /** Without a bare `const` key anywhere, what is sent admits what the strict schema admits. */
  lemma {:induction false} SentAdmitsTheSame(s: Schema, v: Json)
    requires NoConstKey(s)
    ensures SentAdmits(s, v) <==> Admits(s, v)
    decreases s
  {
    match s
    case Nullable(inner) => SentAdmitsTheSame(inner, v);
    case ArrSchema(element, _) =>
      if v.Arr? {
        forall i | 0 <= i < |v.items|
          ensures SentAdmits(element, v.items[i]) <==> Admits(element, v.items[i])
        {
          SentAdmitsTheSame(element, v.items[i]);
        }
      }
    case ObjSchema(props, unknown) =>
      if v.Obj? {
        forall k | k in props
          ensures SentAdmitsProp(props[k], Lookup(v.fields, k), unknown == Passthrough)
            <==> AdmitsProp(props[k], Lookup(v.fields, k), unknown == Passthrough)
        {
          if k in v.fields {
            SentAdmitsTheSame(props[k].schema, v.fields[k]);
          }
        }
      }
    case Union(options) => SentAdmitsTheSameOf(options, v);
    case Discriminated(_, options) => SentAdmitsTheSameOf(options, v);
    case _ =>
  }

  lemma {:induction false} SentAdmitsTheSameOf(options: seq<Schema>, v: Json)
    requires forall o | o in options :: NoConstKey(o)
    ensures (exists o | o in options :: SentAdmits(o, v)) <==> exists o | o in options :: Admits(o, v)
    decreases options
  {
    forall o | o in options
      ensures SentAdmits(o, v) <==> Admits(o, v)
    {
      SentAdmitsTheSame(o, v);
    }
  }

  /** What is sent accepts exactly what the schema admits, and the second attempt at least that. */
  lemma SentSchemasAccept(s: Schema, v: Json)
    requires WellFormed(s) && NoConstKey(s)
    ensures Accepts(SentNode(s), v) <==> Admits(s, v)
    ensures Admits(s, v) ==> Accepts(WithoutSizeBounds(SentNode(s)), v)
  {
    SentAccepts(s, v);
    SentAdmitsTheSame(s, v);
    if Admits(s, v) {
      StrictIsNode(s);
      ConstAsEnumIsNode(StrictNode(s));
      WithoutSizeBoundsAcceptsMore(SentNode(s), v);
    }
  }

  /** A closed object with a bare `const` key: sent as it is, its schema accepts nothing at all. */
  lemma ConstKeyAcceptsNothing(props: Props, unknown: UnknownKeys, v: Json)
    requires WellFormed(ObjSchema(props, unknown)) && HasBareConst(props) && unknown != Passthrough
    ensures !Accepts(SentNode(ObjSchema(props, unknown)), v)
  {
    SentAccepts(ObjSchema(props, unknown), v);
  }

  /** Required inside another closed object, it leaves that one nothing to accept either. */
  lemma NestedConstKeyAcceptsNothing(outer: Props, unknown: UnknownKeys, k: string, v: Json)
    requires WellFormed(ObjSchema(outer, unknown)) && unknown != Passthrough && k in outer && !IsOptional(outer[k])
    requires outer[k].schema.ObjSchema? && HasBareConst(outer[k].schema.props) && outer[k].schema.unknown != Passthrough
    ensures !Accepts(SentNode(ObjSchema(outer, unknown)), v)
  {
    SentAccepts(ObjSchema(outer, unknown), v);
    if v.Obj? && k in v.fields && (k == CONST ==> !HasBareConst(outer)) {
      assert !SentAdmits(outer[k].schema, v.fields[k]);
      assert !SentAdmitsProp(outer[k], Lookup(v.fields, k), false);
    }
  }

  /** In an open object the value of a bare `const` key is no longer looked at. */
  lemma OpenConstKeyIsUnchecked(props: Props, fields: map<string, Json>, x: Json)
    requires WellFormed(ObjSchema(props, Passthrough)) && HasBareConst(props)
    requires Accepts(SentNode(ObjSchema(props, Passthrough)), Obj(fields))
    ensures Accepts(SentNode(ObjSchema(props, Passthrough)), Obj(fields[CONST := x]))
    ensures ENUM !in fields
  {
    SentAccepts(ObjSchema(props, Passthrough), Obj(fields));
    SentAccepts(ObjSchema(props, Passthrough), Obj(fields[CONST := x]));
    forall k | k in props && k != CONST
      ensures SentAdmitsProp(props[k], Lookup(fields[CONST := x], k), true)
    {
      assert Lookup(fields[CONST := x], k) == Lookup(fields, k);
    }
  }
}
