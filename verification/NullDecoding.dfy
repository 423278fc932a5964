/**
 * A strict endpoint writes null for every key it leaves out. The rewritten
 * schema reads such a value as the original schema reads the value meant.
 */
module NullDecoding {
  import opened Wrappers
  import opened Json
  import opened Schemas

  /** Rewriting leaves literals and tags as they are. */
  lemma TagsStay(s: Schema, tag: string, value: Json)
    ensures HasTag(WithOptionalNullsAsMissing(s), tag, value) <==> HasTag(s, tag, value)
  {
    if s.ObjSchema? && tag in s.props {
      LiteralsStay(s.props[tag].schema, value);
    }
  }

  lemma LiteralsStay(s: Schema, value: Json)
    ensures WithOptionalNullsAsMissing(s) == Literal(value) <==> s == Literal(value)
  {
    match s
    case _ =>
  }

  // ------------------------------------------------------------------------
  // Values without nulls
  // ------------------------------------------------------------------------

  /** If every default reads alike, the rewriting changes nothing on values without nulls, whatever the unions. */
  lemma {:induction false} NullFreeValuesAgree(s: Schema, v: Json)
    requires NullFree(v) && DefaultsAgree(s)
    ensures Parse(WithOptionalNullsAsMissing(s), v) == Parse(s, v)
    decreases s
  {
    match s
    case Nullable(inner) => NullFreeValuesAgree(inner, v);
    case ArrSchema(element, count) =>
      if v.Arr? {
        forall i | 0 <= i < |v.items|
          ensures Parse(WithOptionalNullsAsMissing(element), v.items[i]) == Parse(element, v.items[i])
        {
          NullFreeValuesAgree(element, v.items[i]);
        }
        SameItems(WithOptionalNullsAsMissing(element), element, count, v.items, v.items);
      }
    case ObjSchema(props, unknown) =>
      if v.Obj? {
        forall k | k in props
          ensures ParseProp(Rewritten(props[k]), Lookup(v.fields, k)) == ParseProp(props[k], Lookup(v.fields, k))
        {
          if k in v.fields {
            NullFreeValuesAgree(props[k].schema, v.fields[k]);
          }
        }
        SameFields(props, unknown, v.fields, v.fields);
      }
    case Union(options) => NullFreeFirstAgrees(options, v);
    case Discriminated(tag, options) =>
      if v.Obj? && tag in v.fields {
        NullFreeTaggedAgrees(tag, v.fields[tag], options, v);
      }
    case _ =>
  }

  lemma {:induction false} NullFreeFirstAgrees(options: seq<Schema>, v: Json)
    requires NullFree(v) && forall o | o in options :: DefaultsAgree(o)
    ensures ParseFirst(AllRewritten(options), v) == ParseFirst(options, v)
    decreases options
  {
    if options != [] {
      NullFreeValuesAgree(options[0], v);
      NullFreeFirstAgrees(options[1..], v);
    }
  }

  lemma {:induction false} NullFreeTaggedAgrees(tag: string, value: Json, options: seq<Schema>, v: Json)
    requires NullFree(v) && forall o | o in options :: DefaultsAgree(o)
    ensures ParseTagged(tag, value, AllRewritten(options), v) == ParseTagged(tag, value, options, v)
    decreases options
  {
    if options != [] {
      TagsStay(options[0], tag, value);
      NullFreeValuesAgree(options[0], v);
      NullFreeTaggedAgrees(tag, value, options[1..], v);
    }
  }

  /** Defaults without nulls read alike. */
  lemma {:induction false} NullFreeDefaultsAgree(s: Schema)
    requires DefaultsNullFree(s)
    ensures DefaultsAgree(s)
  {
    match s
    case Nullable(inner) => NullFreeDefaultsAgree(inner);
    case ArrSchema(element, _) => NullFreeDefaultsAgree(element);
    case ObjSchema(props, _) =>
      forall k | k in props
        ensures DefaultsAgree(props[k].schema) && DefaultAgrees(props[k])
      {
        NullFreeDefaultsAgree(props[k].schema);
        if props[k].presence.Default? {
          NullFreeValuesAgree(props[k].schema, props[k].presence.value);
        }
      }
    case Union(options) =>
      forall o | o in options
        ensures DefaultsAgree(o)
      {
        NullFreeDefaultsAgree(o);
      }
    case Discriminated(_, options) =>
      forall o | o in options
        ensures DefaultsAgree(o)
      {
        NullFreeDefaultsAgree(o);
      }
    case _ =>
  }

  // ------------------------------------------------------------------------
  // Objects and arrays parse alike if their parts do
  // ------------------------------------------------------------------------

  lemma SameItems(a: Schema, b: Schema, count: Size, xs: seq<Json>, ys: seq<Json>)
    requires |xs| == |ys| && forall i | 0 <= i < |xs| :: Parse(a, xs[i]) == Parse(b, ys[i])
    ensures Parse(ArrSchema(a, count), Arr(xs)) == Parse(ArrSchema(b, count), Arr(ys))
  {
    assert seq(|xs|, (i: nat) requires i < |xs| => Parse(a, xs[i])) == seq(|ys|, (i: nat) requires i < |ys| => Parse(b, ys[i]));
  }

  function Results(props: Props, fields: map<string, Json>): map<string, Option<Option<Json>>> {
    map k | k in props :: ParseProp(props[k], Lookup(fields, k))
  }

  function RewrittenProps(props: Props): (rewritten: Props)
    ensures rewritten.Keys == props.Keys
  {
    map k | k in props :: Rewritten(props[k])
  }

  lemma ParseOfFields(props: Props, unknown: UnknownKeys, fields: map<string, Json>)
    ensures Parse(ObjSchema(props, unknown), Obj(fields))
      == if unknown == Strict && !(fields.Keys <= props.Keys) then None
         else CollectFields(Results(props, fields), Extras(props, unknown, fields))
  {
  }

  /** Objects parse alike if each key does, and the other keys are the same. */
  lemma SameFields(props: Props, unknown: UnknownKeys, fields: map<string, Json>, meant: map<string, Json>)
    requires forall k | k in props :: ParseProp(Rewritten(props[k]), Lookup(fields, k)) == ParseProp(props[k], Lookup(meant, k))
    requires SameExtras(props, unknown, fields, meant)
    ensures Parse(WithOptionalNullsAsMissing(ObjSchema(props, unknown)), Obj(fields))
         == Parse(ObjSchema(props, unknown), Obj(meant))
  {
    hide Parse, ParseProp, CollectFields, Rewritten;
    var props' := RewrittenProps(props);
    assert WithOptionalNullsAsMissing(ObjSchema(props, unknown)) == ObjSchema(props', unknown);
    ParseOfFields(props', unknown, fields);
    ParseOfFields(props, unknown, meant);
    assert Results(props', fields) == Results(props, meant);
  }

  /** The keys without a schema fare the same. */
  ghost predicate SameExtras(props: Props, unknown: UnknownKeys, fields: map<string, Json>, meant: map<string, Json>) {
    && Extras(props, unknown, fields) == Extras(props, unknown, meant)
    && (unknown == Strict ==> (fields.Keys <= props.Keys <==> meant.Keys <= props.Keys))
  }

  lemma SameExtraKeys(keys: set<string>, fields: map<string, Json>, meant: map<string, Json>)
    requires fields - keys == meant - keys
    ensures fields.Keys <= keys <==> meant.Keys <= keys
  {
    assert forall k | k in fields && k !in keys :: k in fields - keys;
    assert forall k | k in meant && k !in keys :: k in meant - keys;
  }

  lemma ValidItem(element: Schema, count: Size, items: seq<Json>, i: nat)
    requires Parse(ArrSchema(element, count), Arr(items)).Some? && i < |items|
    ensures Parse(element, items[i]).Some?
  {
    var results := seq(|items|, (i: nat) requires i < |items| => Parse(element, items[i]));
    assert CollectItems(results).Some? && results[i] == Parse(element, items[i]);
  }

  lemma ValidField(props: Props, unknown: UnknownKeys, fields: map<string, Json>, k: string)
    requires Parse(ObjSchema(props, unknown), Obj(fields)).Some? && k in props
    ensures ParseProp(props[k], Lookup(fields, k)).Some?
  {
    ParseOfFields(props, unknown, fields);
    assert k in Results(props, fields);
  }

  /** Arrays that parse give the same exactly if their elements do. */
  lemma ItemsEqualIff(a: Schema, b: Schema, count: Size, xs: seq<Json>, ys: seq<Json>)
    requires |xs| == |ys| && Parse(ArrSchema(a, count), Arr(xs)).Some? && Parse(ArrSchema(b, count), Arr(ys)).Some?
    ensures Parse(ArrSchema(a, count), Arr(xs)) == Parse(ArrSchema(b, count), Arr(ys))
      <==> forall i | 0 <= i < |xs| :: Parse(a, xs[i]) == Parse(b, ys[i])
  {
    var p, q := Parse(ArrSchema(a, count), Arr(xs)).value.items, Parse(ArrSchema(b, count), Arr(ys)).value.items;
    forall i | 0 <= i < |xs|
      ensures Parse(a, xs[i]) == Some(p[i]) && Parse(b, ys[i]) == Some(q[i])
    {
      ValidItem(a, count, xs, i);
      ValidItem(b, count, ys, i);
    }
    if forall i | 0 <= i < |xs| :: Parse(a, xs[i]) == Parse(b, ys[i]) {
      assert forall i | 0 <= i < |xs| :: p[i] == q[i];
      assert p == q;
    }
  }

  /** Results for keys can be read off the collected object. */
  lemma CollectedIff(results: map<string, Option<Option<Json>>>, later: map<string, Option<Option<Json>>>, extras: map<string, Json>)
    requires results.Keys == later.Keys && results.Keys !! extras.Keys
    requires CollectFields(results, extras).Some? && CollectFields(later, extras).Some?
    ensures CollectFields(results, extras) == CollectFields(later, extras) ==> results == later
  {
    var p, q := CollectFields(results, extras).value.fields, CollectFields(later, extras).value.fields;
    if p == q {
      forall k | k in results
        ensures results[k] == later[k]
      {
        assert k in p <==> results[k].value.Some?;
        assert k in q <==> later[k].value.Some?;
      }
    }
  }

  /** Objects that parse give the same exactly if each key does. */
  lemma FieldsEqualIff(props: Props, unknown: UnknownKeys, fields: map<string, Json>, meant: map<string, Json>)
    requires SameExtras(props, unknown, fields, meant)
    requires Parse(WithOptionalNullsAsMissing(ObjSchema(props, unknown)), Obj(fields)).Some?
    requires Parse(ObjSchema(props, unknown), Obj(meant)).Some?
    ensures Parse(WithOptionalNullsAsMissing(ObjSchema(props, unknown)), Obj(fields))
         == Parse(ObjSchema(props, unknown), Obj(meant))
      <==> forall k | k in props :: ParseProp(Rewritten(props[k]), Lookup(fields, k)) == ParseProp(props[k], Lookup(meant, k))
  {
    hide Parse, ParseProp, CollectFields, Rewritten;
    var props' := RewrittenProps(props);
    assert WithOptionalNullsAsMissing(ObjSchema(props, unknown)) == ObjSchema(props', unknown);
    ParseOfFields(props', unknown, fields);
    ParseOfFields(props, unknown, meant);
    assert Extras(props', unknown, fields) == Extras(props, unknown, meant);
    assert props.Keys !! Extras(props, unknown, meant).Keys;
    CollectedIff(Results(props', fields), Results(props, meant), Extras(props, unknown, meant));
    ResultsEqualIff(props, fields, meant);
  }

  lemma ResultsEqualIff(props: Props, fields: map<string, Json>, meant: map<string, Json>)
    ensures Results(RewrittenProps(props), fields) == Results(props, meant)
      <==> forall k | k in props :: ParseProp(Rewritten(props[k]), Lookup(fields, k)) == ParseProp(props[k], Lookup(meant, k))
  {
    hide ParseProp, Rewritten;
    var a, b := Results(RewrittenProps(props), fields), Results(props, meant);
    assert a.Keys == b.Keys == props.Keys;
    assert forall k | k in props ::
      a[k] == ParseProp(Rewritten(props[k]), Lookup(fields, k)) && b[k] == ParseProp(props[k], Lookup(meant, k));
  }

  // ------------------------------------------------------------------------
  // Values with nulls
  // ------------------------------------------------------------------------

  /** What fits as it is has no nulls that stand for keys left out. */
  lemma {:induction false} ValidValuesStay(s: Schema, v: Json)
    requires WellFormed(s) && Parse(s, v).Some?
    ensures WithoutNulls(s, v) == v
    decreases s
  {
    match s
    case Nullable(inner) =>
      if v.Null? {
        NullStays(inner);
      } else {
        ValidValuesStay(inner, v);
      }
    case ArrSchema(element, count) =>
      forall i | 0 <= i < |v.items|
        ensures WithoutNulls(element, v.items[i]) == v.items[i]
      {
        ValidItem(element, count, v.items, i);
        ValidValuesStay(element, v.items[i]);
      }
    case ObjSchema(props, unknown) =>
      forall k | k in v.fields && k in props
        ensures WithoutNull(props[k], v.fields[k]) == Some(v.fields[k])
      {
        ValidField(props, unknown, v.fields, k);
        ValidPropStays(props[k], v.fields[k]);
      }
    case Discriminated(tag, options) => ValidTaggedStays(tag, v.fields[tag], options, v);
    case _ =>
  }

  lemma {:induction false} NullStays(s: Schema)
    ensures WithoutNulls(s, Null) == Null
  {
    if s.Nullable? {
      NullStays(s.inner);
    }
  }

  lemma {:induction false} ValidPropStays(p: Prop, x: Json)
    requires WellFormed(p.schema) && !p.nullAsMissing && ParseProp(p, Some(x)).Some?
    ensures WithoutNull(p, x) == Some(x)
    decreases p
  {
    if x.Null? {
      NullStays(p.schema);
    } else {
      ValidValuesStay(p.schema, x);
    }
  }

  lemma {:induction false} ValidTaggedStays(tag: string, value: Json, options: seq<Schema>, v: Json)
    requires (forall o | o in options :: WellFormed(o)) && ParseTagged(tag, value, options, v).Some?
    ensures WithoutNullsTagged(tag, value, options, v) == v
    decreases options
  {
    if HasTag(options[0], tag, value) {
      ValidValuesStay(options[0], v);
    } else {
      ValidTaggedStays(tag, value, options[1..], v);
    }
  }

  /** The rewritten schema reads any value as the original reads it without the nulls put in for keys left out. */
  lemma {:induction false} NullsDecode(s: Schema, v: Json)
    requires WellFormed(s) && NoPlainUnion(s)
    ensures Parse(WithOptionalNullsAsMissing(s), v) == Parse(s, WithoutNulls(s, v))
    decreases s
  {
    match s
    case Nullable(inner) =>
      if v.Null? {
        NullStays(inner);
      } else {
        OnlyNullIsNull(inner, v);
        NullsDecode(inner, v);
      }
    case ArrSchema(element, count) =>
      if v.Arr? {
        var meant := WithoutNulls(s, v).items;
        forall i | 0 <= i < |v.items|
          ensures Parse(WithOptionalNullsAsMissing(element), v.items[i]) == Parse(element, meant[i])
        {
          NullsDecode(element, v.items[i]);
        }
        SameItems(WithOptionalNullsAsMissing(element), element, count, v.items, meant);
      }
    case ObjSchema(props, unknown) =>
      if v.Obj? {
        var meant := WithoutNulls(s, v).fields;
        forall k | k in props
          ensures ParseProp(Rewritten(props[k]), Lookup(v.fields, k)) == ParseProp(props[k], Lookup(meant, k))
        {
          assert Lookup(meant, k) == if k in v.fields then WithoutNull(props[k], v.fields[k]) else None;
          PropDecodes(props[k], Lookup(v.fields, k));
        }
        assert v.fields - props.Keys == meant - props.Keys;
        SameExtraKeys(props.Keys, v.fields, meant);
        SameFields(props, unknown, v.fields, meant);
      }
    case Discriminated(tag, options) =>
      if v.Obj? && tag in v.fields {
        TaggedDecodes(tag, v.fields[tag], options, v);
      }
    case _ =>
  }

  /** Leaving nulls out of something never makes it null. */
  lemma {:induction false} OnlyNullIsNull(s: Schema, v: Json)
    ensures WithoutNulls(s, v).Null? <==> v.Null?
    decreases s
  {
    match s
    case Nullable(inner) => OnlyNullIsNull(inner, v);
    case Discriminated(tag, options) =>
      if v.Obj? && tag in v.fields {
        OnlyNullIsNullTagged(tag, v.fields[tag], options, v);
      }
    case _ =>
  }

  lemma {:induction false} OnlyNullIsNullTagged(tag: string, value: Json, options: seq<Schema>, v: Json)
    ensures WithoutNullsTagged(tag, value, options, v).Null? <==> v.Null?
    decreases options
  {
    if options != [] {
      OnlyNullIsNull(options[0], v);
      OnlyNullIsNullTagged(tag, value, options[1..], v);
    }
  }

  lemma {:induction false} PropDecodes(p: Prop, x: Option<Json>)
    requires WellFormed(p.schema) && NoPlainUnion(p.schema) && !p.nullAsMissing
    requires p.presence.Default? ==> Parse(p.schema, p.presence.value).Some?
    ensures ParseProp(Rewritten(p), x) == ParseProp(p, if x.Some? then WithoutNull(p, x.value) else None)
    decreases p
  {
    if p.presence.Default? {
      NullsDecode(p.schema, p.presence.value);
      ValidValuesStay(p.schema, p.presence.value);
    }
    if x.Some? {
      NullsDecode(p.schema, x.value);
    }
  }

  lemma TagStaysInValue(s: Schema, tag: string, value: Json, v: Json)
    requires HasTag(s, tag, value) && v.Obj? && tag in v.fields && v.fields[tag] == value
    ensures
      var meant := WithoutNulls(s, v);
      meant.Obj? && tag in meant.fields && meant.fields[tag] == value
  {
    var p := s.props[tag];
    assert WithoutNulls(p.schema, value) == value;
    assert !IsOptional(p);
    assert WithoutNull(p, value) == Some(value);
  }

  lemma {:induction false} TaggedDecodes(tag: string, value: Json, options: seq<Schema>, v: Json)
    requires forall o | o in options :: WellFormed(o) && NoPlainUnion(o) && Tagged(o, tag)
    requires v.Obj? && tag in v.fields && v.fields[tag] == value
    ensures
      var meant := WithoutNullsTagged(tag, value, options, v);
      && meant.Obj? && tag in meant.fields && meant.fields[tag] == value
      && ParseTagged(tag, value, AllRewritten(options), v) == ParseTagged(tag, value, options, meant)
    decreases options
  {
    if options != [] {
      TagsStay(options[0], tag, value);
      if HasTag(options[0], tag, value) {
        TagStaysInValue(options[0], tag, value, v);
        NullsDecode(options[0], v);
      } else {
        TaggedDecodes(tag, value, options[1..], v);
      }
    }
  }

  /** What the original schema accepts, the rewritten one accepts with the same result. */
  lemma RewritingOnlyWidens(s: Schema, v: Json)
    requires WellFormed(s) && NoPlainUnion(s) && Parse(s, v).Some?
    ensures Parse(WithOptionalNullsAsMissing(s), v) == Parse(s, v)
  {
    NullsDecode(s, v);
    ValidValuesStay(s, v);
  }
}
