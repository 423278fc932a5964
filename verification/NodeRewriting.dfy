/** Rewriting schema nodes for endpoints: `const` as `enum` means the same, dropping size bounds accepts more. */
module NodeRewriting {
  import opened Wrappers
  import opened Json
  import opened Schemas
  import opened JsonSchemas
  import opened StrictSchemas

  /** Keywords hold what they should hold: nodes where nodes belong, plain values where values do. */
  ghost predicate IsNode(node: Json)
    decreases node
  {
    node.Obj? &&
    var f := node.fields;
    && (TYPE in f ==> f[TYPE].Str?)
    && (CONST in f ==> IsScalar(f[CONST]) && ENUM !in f)
    && (ENUM in f ==> f[ENUM].Arr? && forall x | x in f[ENUM].items :: IsScalar(x))
    && (ANY_OF in f ==> f[ANY_OF].Arr? && forall n | n in f[ANY_OF].items :: IsNode(n))
    && (ITEMS in f ==> IsNode(f[ITEMS]))
    && (PROPERTIES in f ==> f[PROPERTIES].Obj? && forall k | k in f[PROPERTIES].fields :: IsNode(f[PROPERTIES].fields[k]))
    && (REQUIRED in f ==> f[REQUIRED].Arr? && forall x | x in f[REQUIRED].items :: IsScalar(x))
    && (ADDITIONAL in f ==> f[ADDITIONAL].Bool?)
  }

  /** No object has a property named `const` without one named `enum`. */
  predicate NoBareConst(node: Json)
    decreases node
  {
    node.Obj? ==>
      var f := node.fields;
      && (ANY_OF in f && f[ANY_OF].Arr? ==> forall n | n in f[ANY_OF].items :: NoBareConst(n))
      && (ITEMS in f ==> NoBareConst(f[ITEMS]))
      && (PROPERTIES in f && f[PROPERTIES].Obj? ==>
            && !(CONST in f[PROPERTIES].fields && ENUM !in f[PROPERTIES].fields)
            && forall k | k in f[PROPERTIES].fields :: NoBareConst(f[PROPERTIES].fields[k]))
  }

  // ------------------------------------------------------------------------
  // Comparing nodes part by part
  // ------------------------------------------------------------------------

  /** `g` has the parts of `f`, each accepting `v`'s parts wherever that of `f` does. */
  ghost predicate Covers(f: Node, g: Node, v: Json) {
    && (ANY_OF in f <==> ANY_OF in g) && (ITEMS in f <==> ITEMS in g) && (PROPERTIES in f <==> PROPERTIES in g)
    && (ANY_OF in f ==>
          && f[ANY_OF].Arr? && g[ANY_OF].Arr? && |f[ANY_OF].items| == |g[ANY_OF].items|
          && forall i | 0 <= i < |f[ANY_OF].items| :: Accepts(f[ANY_OF].items[i], v) ==> Accepts(g[ANY_OF].items[i], v))
    && (ITEMS in f && v.Arr? ==> forall x | x in v.items :: Accepts(f[ITEMS], x) ==> Accepts(g[ITEMS], x))
    && (PROPERTIES in f ==>
          && f[PROPERTIES].Obj? && g[PROPERTIES].Obj? && f[PROPERTIES].fields.Keys == g[PROPERTIES].fields.Keys
          && (v.Obj? ==> forall k | k in v.fields && k in f[PROPERTIES].fields ::
                Accepts(f[PROPERTIES].fields[k], v.fields[k]) ==> Accepts(g[PROPERTIES].fields[k], v.fields[k])))
    && (REQUIRED in f <==> REQUIRED in g) && (REQUIRED in f ==> f[REQUIRED] == g[REQUIRED])
    && (ADDITIONAL in f <==> ADDITIONAL in g) && (ADDITIONAL in f ==> f[ADDITIONAL] == g[ADDITIONAL])
  }

  lemma CoveringAccepts(f: Node, g: Node, v: Json)
    requires Covers(f, g, v) && Accepts(Obj(f), v)
    requires TypeFits(f, v) && ValueFits(f, v) && SizesFit(f, v) ==> TypeFits(g, v) && ValueFits(g, v) && SizesFit(g, v)
    ensures Accepts(Obj(g), v)
  {
    hide TypeFits, ValueFits, SizesFit;
    if ANY_OF in f {
      var n :| n in f[ANY_OF].items && Accepts(n, v);
      var i :| 0 <= i < |f[ANY_OF].items| && f[ANY_OF].items[i] == n;
      assert g[ANY_OF].items[i] in g[ANY_OF].items;
    }
  }

  // ------------------------------------------------------------------------
  // const as enum
  // ------------------------------------------------------------------------

  /** Lists of plain values come back as they are. */
  lemma ScalarsStay(items: seq<Json>)
    requires forall x | x in items :: IsScalar(x)
    ensures ConstAsEnum(Arr(items)) == Arr(items) == WithoutSizeBounds(Arr(items))
  {
    forall i | 0 <= i < |items|
      ensures ConstAsEnum(items[i]) == items[i] == WithoutSizeBounds(items[i])
    {
      assert items[i] in items;
    }
  }

  lemma EnumFields(f: Node)
    ensures
      var g := ConstAsEnum(Obj(f)).fields;
      && (forall k | k != CONST && k != ENUM :: (k in f <==> k in g) && (k in f ==> g[k] == ConstAsEnum(f[k])))
      && (CONST in f && ENUM !in f ==> CONST !in g && ENUM in g && g[ENUM] == Arr([f[CONST]]))
      && (CONST !in f ==> CONST !in g && (ENUM in f <==> ENUM in g) && (ENUM in f ==> g[ENUM] == ConstAsEnum(f[ENUM])))
  {
  }

  lemma EnumValueFits(f: Node, v: Json)
    requires IsNode(Obj(f))
    ensures
      var g := ConstAsEnum(Obj(f)).fields;
      (TypeFits(f, v) <==> TypeFits(g, v)) && (ValueFits(f, v) <==> ValueFits(g, v)) && (SizesFit(f, v) <==> SizesFit(g, v))
  {
    var g := ConstAsEnum(Obj(f)).fields;
    EnumFields(f);
    if ENUM in f {
      ScalarsStay(f[ENUM].items);
    }
    hide ConstAsEnum;
    if TYPE in f {
      TypeStays(f);
    }
    EnumSizes(f, v);
    hide SizesFit, IsNode;
  }

  lemma TypeStays(f: Node)
    requires IsNode(Obj(f)) && TYPE in f
    ensures ConstAsEnum(f[TYPE]) == f[TYPE] && WithoutSizeBounds(f[TYPE]) == f[TYPE]
  {
  }

  lemma NumbersStay(x: Json)
    ensures ConstAsEnum(x).Num? <==> x.Num?
    ensures x.Num? ==> ConstAsEnum(x) == x
  {
  }

  lemma EnumSizes(f: Node, v: Json)
    ensures SizesFit(f, v) <==> SizesFit(ConstAsEnum(Obj(f)).fields, v)
  {
    var g := ConstAsEnum(Obj(f)).fields;
    EnumFields(f);
    hide ConstAsEnum;
    forall k | k in SIZE_KEYWORDS
      ensures Number(g, k) == Number(f, k)
    {
      if k in f {
        NumbersStay(f[k]);
      }
    }
    SizesFitAlike(f, g, v);
  }

  lemma SizesFitAlike(f: Node, g: Node, v: Json)
    requires forall k | k in SIZE_KEYWORDS :: Number(g, k) == Number(f, k)
    ensures SizesFit(f, v) <==> SizesFit(g, v)
  {
    hide Number;
    assert MINIMUM in SIZE_KEYWORDS && MAXIMUM in SIZE_KEYWORDS && MIN_LENGTH in SIZE_KEYWORDS && MAX_LENGTH in SIZE_KEYWORDS;
    assert MIN_ITEMS in SIZE_KEYWORDS && MAX_ITEMS in SIZE_KEYWORDS;
    assert EXCLUSIVE_MINIMUM in SIZE_KEYWORDS && EXCLUSIVE_MAXIMUM in SIZE_KEYWORDS;
  }

  lemma EnumPropertyNodes(f: Node)
    requires IsNode(Obj(f)) && NoBareConst(Obj(f)) && PROPERTIES in f
    ensures
      var g := ConstAsEnum(Obj(f)).fields;
      && PROPERTIES in g && g[PROPERTIES].Obj? && g[PROPERTIES].fields.Keys == f[PROPERTIES].fields.Keys
      && forall k | k in f[PROPERTIES].fields :: g[PROPERTIES].fields[k] == ConstAsEnum(f[PROPERTIES].fields[k])
  {
    EnumFields(f);
    EnumFields(f[PROPERTIES].fields);
    var nodes := f[PROPERTIES].fields;
    assert ConstAsEnum(Obj(nodes)).fields.Keys == nodes.Keys;
  }

  /** Where no property is a bare `const`, the rewritten node accepts what the node accepts. */
  lemma {:induction false} ConstAsEnumMeansTheSame(node: Json, v: Json)
    requires IsNode(node) && NoBareConst(node)
    ensures Accepts(ConstAsEnum(node), v) <==> Accepts(node, v)
    decreases node, 1
  {
    var f, g := node.fields, ConstAsEnum(node).fields;
    EnumValueFits(f, v);
    EnumCovers(node, v);
    hide IsNode, NoBareConst, ConstAsEnum, Covers, TypeFits, ValueFits, SizesFit;
    if Accepts(node, v) {
      CoveringAccepts(f, g, v);
    }
    if Accepts(Obj(g), v) {
      CoveringAccepts(g, f, v);
    }
  }

  lemma {:induction false} EnumCovers(node: Json, v: Json)
    requires IsNode(node) && NoBareConst(node)
    ensures Covers(node.fields, ConstAsEnum(node).fields, v) && Covers(ConstAsEnum(node).fields, node.fields, v)
    decreases node, 0
  {
    hide Accepts;
    var f, g := node.fields, ConstAsEnum(node).fields;
    EnumFields(f);
    if ANY_OF in f {
      EnumChoices(f[ANY_OF], v);
    }
    if ITEMS in f {
      EnumItems(f[ITEMS], v);
    }
    if PROPERTIES in f {
      EnumPropertyNodes(f);
      EnumProperties(f[PROPERTIES], v);
    }
    if REQUIRED in f {
      ScalarsStay(f[REQUIRED].items);
    }
  }

  lemma {:induction false} EnumItems(node: Json, v: Json)
    requires IsNode(node) && NoBareConst(node)
    ensures v.Arr? ==> forall x | x in v.items :: Accepts(ConstAsEnum(node), x) <==> Accepts(node, x)
    decreases node, 2
  {
    hide Accepts, IsNode, NoBareConst, ConstAsEnum;
    if v.Arr? {
      forall x | x in v.items
        ensures Accepts(ConstAsEnum(node), x) <==> Accepts(node, x)
      {
        ConstAsEnumMeansTheSame(node, x);
      }
    }
  }

  lemma {:induction false} EnumProperties(properties: Json, v: Json)
    requires properties.Obj? && forall k | k in properties.fields :: IsNode(properties.fields[k]) && NoBareConst(properties.fields[k])
    ensures v.Obj? ==> forall k | k in v.fields && k in properties.fields ::
      Accepts(ConstAsEnum(properties.fields[k]), v.fields[k]) <==> Accepts(properties.fields[k], v.fields[k])
    decreases properties
  {
    hide Accepts, IsNode, NoBareConst, ConstAsEnum;
    if v.Obj? {
      forall k | k in v.fields && k in properties.fields
        ensures Accepts(ConstAsEnum(properties.fields[k]), v.fields[k]) <==> Accepts(properties.fields[k], v.fields[k])
      {
        ConstAsEnumMeansTheSame(properties.fields[k], v.fields[k]);
      }
    }
  }

  lemma {:induction false} EnumChoices(choices: Json, v: Json)
    requires choices.Arr? && forall n | n in choices.items :: IsNode(n) && NoBareConst(n)
    ensures
      var again := ConstAsEnum(choices);
      && again.Arr? && |again.items| == |choices.items|
      && forall i | 0 <= i < |choices.items| :: Accepts(again.items[i], v) <==> Accepts(choices.items[i], v)
    decreases choices
  {
    forall i | 0 <= i < |choices.items|
      ensures Accepts(ConstAsEnum(choices.items[i]), v) <==> Accepts(choices.items[i], v)
    {
      ConstAsEnumMeansTheSame(choices.items[i], v);
    }
  }

  /** A closed object that requires a bare `const` property accepts nothing once rewritten. */
  lemma BareConstAcceptsNothing(f: Node, v: Json)
    requires TYPE in f && f[TYPE] == Str("object") && CONST !in f && ENUM !in f
    requires PROPERTIES in f && f[PROPERTIES].Obj? && CONST in f[PROPERTIES].fields && ENUM !in f[PROPERTIES].fields
    requires REQUIRED in f && f[REQUIRED].Arr? && Str(CONST) in f[REQUIRED].items
    requires ADDITIONAL in f && f[ADDITIONAL] == Bool(false)
    ensures !Accepts(ConstAsEnum(Obj(f)), v)
  {
    var g := ConstAsEnum(Obj(f)).fields;
    EnumFields(f);
    EnumFields(f[PROPERTIES].fields);
    NamesStay(f[REQUIRED].items, CONST);
    hide ConstAsEnum;
    if v.Obj? && CONST in v.fields {
      assert CONST !in PropertyNodes(g);
      assert !Accepts(Bool(false), v.fields[CONST]);
    }
  }

  lemma NamesStay(items: seq<Json>, name: string)
    requires Str(name) in items
    ensures ConstAsEnum(Arr(items)).Arr? && Str(name) in ConstAsEnum(Arr(items)).items
    ensures ConstAsEnum(Bool(false)) == Bool(false) && ConstAsEnum(Str("object")) == Str("object")
  {
    var i :| 0 <= i < |items| && items[i] == Str(name);
    assert ConstAsEnum(Arr(items)).items[i] == Str(name);
  }

  // ------------------------------------------------------------------------
  // Rewritten nodes are nodes
  // ------------------------------------------------------------------------

  lemma {:induction false} ConstAsEnumIsNode(node: Json)
    requires IsNode(node) && NoBareConst(node)
    ensures IsNode(ConstAsEnum(node))
    decreases node
  {
    var f, g := node.fields, ConstAsEnum(node).fields;
    EnumFields(f);
    if CONST in f {
      assert g[ENUM].items == [f[CONST]];
    }
    if ENUM in f {
      ScalarsStay(f[ENUM].items);
    }
    if REQUIRED in f {
      ScalarsStay(f[REQUIRED].items);
    }
    if ANY_OF in f {
      forall i | 0 <= i < |f[ANY_OF].items|
        ensures IsNode(g[ANY_OF].items[i])
      {
        ConstAsEnumIsNode(f[ANY_OF].items[i]);
      }
    }
    if ITEMS in f {
      ConstAsEnumIsNode(f[ITEMS]);
    }
    if PROPERTIES in f {
      EnumPropertyNodes(f);
      forall k | k in f[PROPERTIES].fields
        ensures IsNode(g[PROPERTIES].fields[k])
      {
        ConstAsEnumIsNode(f[PROPERTIES].fields[k]);
      }
    }
    hide ConstAsEnum, NoBareConst;
  }

  // ------------------------------------------------------------------------
  // Dropping size bounds
  // ------------------------------------------------------------------------

  lemma UnboundedFields(f: Node)
    ensures
      var g := WithoutSizeBounds(Obj(f)).fields;
      && (forall k | k !in SIZE_KEYWORDS :: (k in f <==> k in g) && (k in f ==> g[k] == WithoutSizeBounds(f[k])))
      && (forall k | k in f && f[k].Obj? :: k in g && g[k] == WithoutSizeBounds(f[k]))
      && g.Keys <= f.Keys
      && (forall k | k in SIZE_KEYWORDS :: Number(g, k).None?)
  {
  }

  lemma UnboundedSizes(g: Node, v: Json)
    requires forall k | k in SIZE_KEYWORDS :: Number(g, k).None?
    ensures SizesFit(g, v)
  {
    hide Number;
    assert MINIMUM in SIZE_KEYWORDS && MAXIMUM in SIZE_KEYWORDS && MIN_LENGTH in SIZE_KEYWORDS && MAX_LENGTH in SIZE_KEYWORDS;
    assert MIN_ITEMS in SIZE_KEYWORDS && MAX_ITEMS in SIZE_KEYWORDS;
    assert EXCLUSIVE_MINIMUM in SIZE_KEYWORDS && EXCLUSIVE_MAXIMUM in SIZE_KEYWORDS;
  }

  lemma UnboundedValueFits(f: Node, v: Json)
    requires IsNode(Obj(f)) && TypeFits(f, v) && ValueFits(f, v)
    ensures
      var g := WithoutSizeBounds(Obj(f)).fields;
      TypeFits(g, v) && ValueFits(g, v) && SizesFit(g, v)
  {
    var g := WithoutSizeBounds(Obj(f)).fields;
    UnboundedFields(f);
    UnboundedSizes(g, v);
    if ENUM in f {
      ScalarsStay(f[ENUM].items);
    }
    if TYPE in f {
      TypeStays(f);
    }
    assert CONST in f ==> WithoutSizeBounds(f[CONST]) == f[CONST];
    assert TYPE !in SIZE_KEYWORDS && CONST !in SIZE_KEYWORDS && ENUM !in SIZE_KEYWORDS;
    hide WithoutSizeBounds, IsNode, SizesFit;
  }

  lemma UnboundedPropertyNodes(nodes: Node)
    requires forall k | k in nodes :: nodes[k].Obj?
    ensures
      var again := WithoutSizeBounds(Obj(nodes));
      && again.Obj? && again.fields.Keys == nodes.Keys
      && forall k | k in nodes :: again.fields[k] == WithoutSizeBounds(nodes[k])
  {
    UnboundedFields(nodes);
  }

  /** Without its size bounds a node accepts at least what it accepted. */
  lemma {:induction false} WithoutSizeBoundsAcceptsMore(node: Json, v: Json)
    requires IsNode(node) && Accepts(node, v)
    ensures Accepts(WithoutSizeBounds(node), v)
    decreases node
  {
    var f, g := node.fields, WithoutSizeBounds(node).fields;
    UnboundedCovers(node, v);
    assert TypeFits(f, v) && ValueFits(f, v);
    UnboundedValueFits(f, v);
    hide IsNode, WithoutSizeBounds, Covers, TypeFits, ValueFits, SizesFit;
    CoveringAccepts(f, g, v);
  }

  lemma {:induction false} UnboundedCovers(node: Json, v: Json)
    requires IsNode(node)
    ensures Covers(node.fields, WithoutSizeBounds(node).fields, v)
    decreases node, 0
  {
    var f, g := node.fields, WithoutSizeBounds(node).fields;
    UnboundedFields(f);
    assert ANY_OF !in SIZE_KEYWORDS && ITEMS !in SIZE_KEYWORDS && PROPERTIES !in SIZE_KEYWORDS;
    assert REQUIRED !in SIZE_KEYWORDS && ADDITIONAL !in SIZE_KEYWORDS;
    if ANY_OF in f {
      UnboundedChoices(f[ANY_OF], v);
    }
    if ITEMS in f && v.Arr? {
      forall x | x in v.items && Accepts(f[ITEMS], x)
        ensures Accepts(WithoutSizeBounds(f[ITEMS]), x)
      {
        WithoutSizeBoundsAcceptsMore(f[ITEMS], x);
      }
    }
    if PROPERTIES in f {
      UnboundedPropertyNodes(f[PROPERTIES].fields);
      if v.Obj? {
        forall k | k in v.fields && k in f[PROPERTIES].fields && Accepts(f[PROPERTIES].fields[k], v.fields[k])
          ensures Accepts(WithoutSizeBounds(f[PROPERTIES].fields[k]), v.fields[k])
        {
          WithoutSizeBoundsAcceptsMore(f[PROPERTIES].fields[k], v.fields[k]);
        }
      }
    }
    if REQUIRED in f {
      ScalarsStay(f[REQUIRED].items);
    }
    hide Accepts;
  }

  lemma {:induction false} UnboundedChoices(choices: Json, v: Json)
    requires choices.Arr? && forall n | n in choices.items :: IsNode(n)
    ensures
      var again := WithoutSizeBounds(choices);
      && again.Arr? && |again.items| == |choices.items|
      && forall i | 0 <= i < |choices.items| :: Accepts(choices.items[i], v) ==> Accepts(again.items[i], v)
    decreases choices
  {
    forall i | 0 <= i < |choices.items| && Accepts(choices.items[i], v)
      ensures Accepts(WithoutSizeBounds(choices.items[i]), v)
    {
      WithoutSizeBoundsAcceptsMore(choices.items[i], v);
    }
  }

  // ------------------------------------------------------------------------
  // The schemas that are sent
  // ------------------------------------------------------------------------

  /** No object schema has a key named `const` without one named `enum`. */
  predicate NoConstKey(s: Schema) {
    match s
    case Nullable(inner) => NoConstKey(inner)
    case ArrSchema(element, _) => NoConstKey(element)
    case ObjSchema(props, _) =>
      && !(CONST in props && ENUM !in props)
      && forall k | k in props :: NoConstKey(props[k].schema)
    case Union(options) => forall o | o in options :: NoConstKey(o)
    case Discriminated(_, options) => forall o | o in options :: NoConstKey(o)
    case _ => true
  }

  lemma {:induction false} StrictIsNode(s: Schema)
    requires WellFormed(s)
    ensures IsNode(StrictNode(s))
    ensures NoBareConst(StrictNode(s)) <==> NoConstKey(s)
    decreases s, 1
  {
    hide IsNode, NoBareConst;
    match s
    case Nullable(inner) =>
      StrictIsNode(inner);
      OrNullIsNode(StrictNode(inner));
    case ArrSchema(element, count) =>
      StrictIsNode(element);
      ListIsNode(StrictNode(element), count);
    case ObjSchema(_, _) => ObjectIsNode(s);
    case Union(options) => ChoiceIsNode(options);
    case Discriminated(_, options) => ChoiceIsNode(options);
    case _ => ScalarIsNode(s);
  }

  lemma ScalarIsNode(s: Schema)
    requires s.NullSchema? || s.BoolSchema? || s.NumSchema? || s.StrSchema? || (s.Literal? && WellFormed(s))
    ensures IsNode(StrictNode(s)) && NoBareConst(StrictNode(s))
  {
    hide IsNode, NoBareConst;
    match s
    case NullSchema => LeafIsNode(NULL_NODE.fields);
    case BoolSchema => LeafIsNode(TypeNode("boolean"));
    case NumSchema(b) =>
      NumNodeKeys(b);
      LeafIsNode(StrictNode(s).fields);
    case StrSchema(length) =>
      StrNodeKeys(length);
      LeafIsNode(StrictNode(s).fields);
    case Literal(value) => LeafIsNode(TypeNode(TypeName(value))[CONST := value]);
  }

  lemma LeafIsNode(f: Node)
    requires ANY_OF !in f && ITEMS !in f && PROPERTIES !in f && REQUIRED !in f && ADDITIONAL !in f && ENUM !in f
    requires (TYPE in f ==> f[TYPE].Str?) && (CONST in f ==> IsScalar(f[CONST]))
    ensures IsNode(Obj(f)) && NoBareConst(Obj(f))
  {
  }

  lemma OrNullIsNode(node: Json)
    requires IsNode(node)
    ensures IsNode(OrNull(node)) && (NoBareConst(OrNull(node)) <==> NoBareConst(node))
  {
    var items := [node, NULL_NODE];
    assert items[0] == node && OrNull(node).fields[ANY_OF].items == items;
    assert IsNode(NULL_NODE) && NoBareConst(NULL_NODE);
  }

  lemma ListIsNode(node: Json, count: Size)
    requires IsNode(node)
    ensures
      var list := Obj(TypeNode("array")[ITEMS := node] + Bound(MIN_ITEMS, Limit(count.least)) + Bound(MAX_ITEMS, Limit(count.most)));
      IsNode(list) && (NoBareConst(list) <==> NoBareConst(node))
  {
    var f := TypeNode("array")[ITEMS := node] + Bound(MIN_ITEMS, Limit(count.least)) + Bound(MAX_ITEMS, Limit(count.most));
    assert ITEMS in f && f[ITEMS] == node && f[TYPE] == Str("array");
    assert f.Keys <= {TYPE, ITEMS, MIN_ITEMS, MAX_ITEMS};
  }

  lemma {:induction false} ChoiceIsNode(options: seq<Schema>)
    requires forall o | o in options :: WellFormed(o)
    ensures IsNode(AnyOf(options))
    ensures NoBareConst(AnyOf(options)) <==> forall o | o in options :: NoConstKey(o)
    decreases options, 2
  {
    var nodes := AnyOf(options).fields[ANY_OF].items;
    forall i | 0 <= i < |options|
      ensures IsNode(nodes[i]) && (NoBareConst(nodes[i]) <==> NoConstKey(options[i]))
    {
      StrictIsNode(options[i]);
    }
    hide StrictNode, NoConstKey, IsNode;
    ChoiceHasNoBareConst(nodes);
    if forall n | n in nodes :: NoBareConst(n) {
      forall o | o in options
        ensures NoConstKey(o)
      {
        var i :| 0 <= i < |options| && options[i] == o;
        assert nodes[i] in nodes;
      }
    } else {
      var n :| n in nodes && !NoBareConst(n);
      var i :| 0 <= i < |nodes| && nodes[i] == n;
      assert options[i] in options;
    }
  }

  lemma ChoiceHasNoBareConst(nodes: seq<Json>)
    ensures NoBareConst(Obj(map[ANY_OF := Arr(nodes)])) <==> forall n | n in nodes :: NoBareConst(n)
  {
  }

  lemma DefaultIsNode(node: Json, presence: Presence)
    requires IsNode(node)
    ensures IsNode(WithDefault(node, presence)) && (NoBareConst(WithDefault(node, presence)) <==> NoBareConst(node))
  {
    if presence.Default? {
      var f, g := node.fields, node.fields[DEFAULT := presence.value];
      assert forall k | k != DEFAULT :: (k in f <==> k in g) && (k in f ==> f[k] == g[k]);
    }
  }

  lemma RecordIsNode(f: Node, parts: Node)
    requires f.Keys <= {TYPE, PROPERTIES, ADDITIONAL, REQUIRED}
    requires TYPE in f && f[TYPE].Str? && ADDITIONAL in f && f[ADDITIONAL].Bool?
    requires PROPERTIES in f && f[PROPERTIES] == Obj(parts)
    requires REQUIRED in f ==> f[REQUIRED].Arr? && forall x | x in f[REQUIRED].items :: IsScalar(x)
    requires forall k | k in parts :: IsNode(parts[k])
    ensures IsNode(Obj(f))
    ensures NoBareConst(Obj(f)) <==>
      !(CONST in parts && ENUM !in parts) && forall k | k in parts :: NoBareConst(parts[k])
  {
  }

  lemma ObjectNodeIsNode(nodes: Node, required: set<string>, open: bool)
    requires forall k | k in nodes :: IsNode(nodes[k])
    ensures
      var node := Obj(StrictObject(ObjectNode(nodes, required, open)));
      IsNode(node) && (NoBareConst(node) <==>
        !(CONST in nodes && ENUM !in nodes) && forall k | k in nodes :: NoBareConst(nodes[k]))
  {
    if open {
      OpenShape(nodes, required);
      hide StrictObject, ObjectNode, IsNode, NoBareConst;
      RecordIsNode(StrictObject(ObjectNode(nodes, required, true)), nodes);
    } else {
      ClosedShape(nodes, required);
      var parts := OrNullUnless(nodes, required);
      hide StrictObject, ObjectNode, IsNode, NoBareConst, OrNull;
      forall k | k in nodes
        ensures IsNode(parts[k]) && (NoBareConst(parts[k]) <==> NoBareConst(nodes[k]))
      {
        OrNullIsNode(nodes[k]);
      }
      assert parts.Keys == nodes.Keys;
      RecordIsNode(StrictObject(ObjectNode(nodes, required, false)), parts);
    }
  }

  lemma OpenShape(nodes: Node, required: set<string>)
    ensures
      var f := StrictObject(ObjectNode(nodes, required, true));
      && {TYPE, PROPERTIES, ADDITIONAL} <= f.Keys <= {TYPE, PROPERTIES, ADDITIONAL, REQUIRED}
      && f[TYPE] == Str("object") && f[PROPERTIES] == Obj(nodes) && f[ADDITIONAL] == Bool(true)
      && (REQUIRED in f ==> f[REQUIRED] == Arr(KeyList(required)))
  {
  }

  lemma {:induction false} ObjectIsNode(s: Schema)
    requires s.ObjSchema? && WellFormed(s)
    ensures IsNode(StrictNode(s)) && (NoBareConst(StrictNode(s)) <==> NoConstKey(s))
    decreases s, 0
  {
    var nodes := NodesOf(s.props);
    forall k | k in s.props
      ensures IsNode(nodes[k]) && (NoBareConst(nodes[k]) <==> NoConstKey(s.props[k].schema))
    {
      PropIsNode(s.props[k]);
    }
    ObjectNodeIsNode(nodes, RequiredProps(s.props), s.unknown == Passthrough);
    hide IsNode, NoBareConst, StrictObject, ObjectNode, PropNode, IsOptional;
  }

  lemma {:induction false} PropIsNode(p: Prop)
    requires WellFormed(p.schema)
    ensures IsNode(PropNode(p)) && (NoBareConst(PropNode(p)) <==> NoConstKey(p.schema))
    decreases p
  {
    StrictIsNode(p.schema);
    DefaultIsNode(StrictNode(p.schema), p.presence);
  }
}
