/** What the rewritings leave of a node, at every depth: what goes, what takes its place and what stays. */
module RewrittenNodes {
  import opened Wrappers
  import opened Json
  import opened Schemas
  import opened JsonSchemas
  import opened StrictSchemas
  import opened SentSchemas

  predicate IsNumber(v: Json) {
    v.Num? || v.TooBig?
  }

  predicate BoundsSize(k: string) {
    || k == "minItems" || k == "maxItems" || k == "minLength" || k == "maxLength"
    || k == "minimum" || k == "maximum" || k == "exclusiveMinimum" || k == "exclusiveMaximum"
  }

  // ------------------------------------------------------------------------
  // Size bounds
  // ------------------------------------------------------------------------

  /** No object in the tree, in lists and under properties included, has a size keyword with a number. */
  predicate HasNoBound(node: Json)
    decreases node
  {
    match node
    case Arr(items) => forall i | 0 <= i < |items| :: HasNoBound(items[i])
    case Obj(f) => forall k | k in f :: !(BoundsSize(k) && IsNumber(f[k])) && HasNoBound(f[k])
    case _ => true
  }

  /** The same tree but for size bounds: lists as long, objects with the other keys, plain values as they were. */
  predicate SameButBounds(node: Json, later: Json)
    decreases node
  {
    match node
    case Arr(items) =>
      && later.Arr? && |later.items| == |items|
      && forall i | 0 <= i < |items| :: SameButBounds(items[i], later.items[i])
    case Obj(f) =>
      && later.Obj? && later.fields.Keys <= f.Keys
      && forall k | k in f ::
        if BoundsSize(k) && IsNumber(f[k]) then k !in later.fields
        else k in later.fields && SameButBounds(f[k], later.fields[k])
    case _ => later == node
  }

  lemma SizeKeywordsBound(k: string)
    ensures k in SIZE_KEYWORDS <==> BoundsSize(k)
  {
  }

  /** Dropping size bounds drops all of them, however deep, and nothing else. */
  lemma {:induction false} WithoutSizeBoundsDropsBounds(node: Json)
    ensures HasNoBound(WithoutSizeBounds(node))
    ensures SameButBounds(node, WithoutSizeBounds(node))
    decreases node
  {
    match node
    case Arr(items) =>
      forall i | 0 <= i < |items|
        ensures HasNoBound(WithoutSizeBounds(items[i])) && SameButBounds(items[i], WithoutSizeBounds(items[i]))
      {
        WithoutSizeBoundsDropsBounds(items[i]);
      }
    case Obj(f) =>
      var g := WithoutSizeBounds(node).fields;
      forall k | k in f
        ensures k in g <==> !(BoundsSize(k) && IsNumber(f[k]))
        ensures k in g ==> g[k] == WithoutSizeBounds(f[k])
        ensures HasNoBound(WithoutSizeBounds(f[k])) && SameButBounds(f[k], WithoutSizeBounds(f[k]))
      {
        SizeKeywordsBound(k);
        WithoutSizeBoundsDropsBounds(f[k]);
      }
      forall k | k in g
        ensures !(BoundsSize(k) && IsNumber(g[k]))
      {
        KindStays(f[k]);
      }
    case _ =>
  }

  lemma KindStays(node: Json)
    ensures IsNumber(WithoutSizeBounds(node)) <==> IsNumber(node)
  {
  }

  /** What the second attempt sends is what the first one sent, without a size bound anywhere. */
  lemma SecondAttemptHasNoBound(s: Schema)
    ensures HasNoBound(WithoutSizeBounds(SentNode(s)))
    ensures SameButBounds(SentNode(s), WithoutSizeBounds(SentNode(s)))
  {
    WithoutSizeBoundsDropsBounds(SentNode(s));
  }

  // ------------------------------------------------------------------------
  // Constants
  // ------------------------------------------------------------------------

  /** The object has a `const` and no `enum` beside it. */
  predicate BareConst(f: Node) {
    "const" in f && "enum" !in f
  }

  /** No object in the tree has a `const` without an `enum`. */
  predicate HasNoBareConst(node: Json)
    decreases node
  {
    match node
    case Arr(items) => forall i | 0 <= i < |items| :: HasNoBareConst(items[i])
    case Obj(f) => !BareConst(f) && forall k | k in f :: HasNoBareConst(f[k])
    case _ => true
  }

  /** What bare constants hold has none inside, as is the case for plain values. */
  predicate ConstsArePlain(node: Json)
    decreases node
  {
    match node
    case Arr(items) => forall i | 0 <= i < |items| :: ConstsArePlain(items[i])
    case Obj(f) =>
      && (BareConst(f) ==> HasNoBareConst(f["const"]))
      && forall k | k in f :: ConstsArePlain(f[k])
    case _ => true
  }

  /**
   * The same tree, but each object with a bare `const` has the one-element
   * `enum` of the constant as it was in its place.
   */
  predicate SameButConsts(node: Json, later: Json)
    decreases node
  {
    match node
    case Arr(items) =>
      && later.Arr? && |later.items| == |items|
      && forall i | 0 <= i < |items| :: SameButConsts(items[i], later.items[i])
    case Obj(f) =>
      && later.Obj?
      && later.fields.Keys == (if BareConst(f) then f.Keys - {"const"} + {"enum"} else f.Keys)
      && (BareConst(f) ==> later.fields["enum"] == Arr([f["const"]]))
      && forall k | k in f && (BareConst(f) ==> k != "const") :: SameButConsts(f[k], later.fields[k])
    case _ => later == node
  }

  lemma EnumKeys(f: Node)
    ensures
      var g := ConstAsEnum(Obj(f)).fields;
      && g.Keys == (if BareConst(f) then f.Keys - {"const"} + {"enum"} else f.Keys)
      && (BareConst(f) ==> g["enum"] == Arr([f["const"]]))
      && forall k | k in f && (BareConst(f) ==> k != "const") :: g[k] == ConstAsEnum(f[k])
  {
  }

  /** Every bare constant becomes the `enum` of its value, however deep, and nothing else changes. */
  lemma {:induction false} ConstAsEnumTurnsConsts(node: Json)
    ensures SameButConsts(node, ConstAsEnum(node))
    ensures ConstsArePlain(node) ==> HasNoBareConst(ConstAsEnum(node))
    decreases node
  {
    match node
    case Arr(items) =>
      forall i | 0 <= i < |items|
        ensures SameButConsts(items[i], ConstAsEnum(items[i]))
        ensures ConstsArePlain(items[i]) ==> HasNoBareConst(ConstAsEnum(items[i]))
      {
        ConstAsEnumTurnsConsts(items[i]);
      }
    case Obj(f) =>
      var g := ConstAsEnum(node).fields;
      EnumKeys(f);
      forall k | k in f
        ensures SameButConsts(f[k], ConstAsEnum(f[k]))
        ensures ConstsArePlain(f[k]) ==> HasNoBareConst(ConstAsEnum(f[k]))
      {
        ConstAsEnumTurnsConsts(f[k]);
      }
      if ConstsArePlain(node) {
        FieldsHaveNoBareConst(f, g);
      }
    case _ =>
  }

  lemma FieldsHaveNoBareConst(f: Node, g: Node)
    requires g.Keys == (if BareConst(f) then f.Keys - {"const"} + {"enum"} else f.Keys)
    requires BareConst(f) ==> g["enum"] == Arr([f["const"]]) && HasNoBareConst(f["const"])
    requires forall k | k in f && (BareConst(f) ==> k != "const") :: HasNoBareConst(g[k])
    ensures HasNoBareConst(Obj(g))
  {
    if BareConst(f) {
      var list := [f["const"]];
      assert forall i | 0 <= i < |list| :: HasNoBareConst(list[i]);
      assert HasNoBareConst(Arr(list));
    }
  }
}
