/**
 * Structured output over a strict endpoint: what may be sent back for the
 * strict schema decodes, and to what the original schema makes of the value meant.
 */
module StructuredOutput {
  import opened Wrappers
  import opened Json
  import opened Schemas
  import opened JsonSchemas
  import opened StrictSchemas
  import opened NullDecoding

  // ------------------------------------------------------------------------
  // A value with null for what it leaves out decodes to what it was
  // ------------------------------------------------------------------------

  /** Filling in nulls never makes anything null that was not. */
  lemma {:induction false} OnlyNullFillsToNull(s: Schema, v: Json)
    ensures Fill(s, v).Null? <==> v.Null?
    decreases s
  {
    match s
    case Nullable(inner) => OnlyNullFillsToNull(inner, v);
    case Union(options) => OnlyNullFillsToNullFirst(options, v);
    case Discriminated(tag, options) =>
      if v.Obj? && tag in v.fields {
        OnlyNullFillsToNullTagged(tag, v.fields[tag], options, v);
      }
    case _ =>
  }

  lemma {:induction false} OnlyNullFillsToNullFirst(options: seq<Schema>, v: Json)
    ensures FillFirst(options, v).Null? <==> v.Null?
    decreases options
  {
    if options != [] {
      OnlyNullFillsToNull(options[0], v);
      OnlyNullFillsToNullFirst(options[1..], v);
    }
  }

  lemma {:induction false} OnlyNullFillsToNullTagged(tag: string, value: Json, options: seq<Schema>, v: Json)
    ensures FillTagged(tag, value, options, v).Null? <==> v.Null?
    decreases options
  {
    if options != [] {
      OnlyNullFillsToNull(options[0], v);
      OnlyNullFillsToNullTagged(tag, value, options[1..], v);
    }
  }

  lemma FillKeepsExtras(props: Props, unknown: UnknownKeys, fields: map<string, Json>)
    requires unknown == Strict ==> fields.Keys <= props.Keys
    ensures SameExtras(props, unknown, Fill(ObjSchema(props, unknown), Obj(fields)).fields, fields)
  {
    var filled := Fill(ObjSchema(props, unknown), Obj(fields)).fields;
    if unknown == Passthrough {
      assert filled - props.Keys == fields - props.Keys;
    }
  }

  /** What stands under a key of the filled object. */
  function Filled(p: Prop, x: Option<Json>, open: bool): Option<Json> {
    match x
    case None => if open then None else Some(Null)
    case Some(value) => Some(FillProp(p, value))
  }

  // ------------------------------------------------------------------------
  // The strict schema accepts the filled value
  // ------------------------------------------------------------------------

  lemma {:induction false} FilledIsAdmitted(s: Schema, v: Json)
    requires WellFormed(s) && Parse(s, v).Some?
    ensures Admits(s, Fill(s, v))
    decreases s
  {
    match s
    case Nullable(inner) =>
      if !v.Null? {
        FilledIsAdmitted(inner, v);
      }
    case ArrSchema(element, count) =>
      forall i | 0 <= i < |v.items|
        ensures Admits(element, Fill(element, v.items[i]))
      {
        ValidItem(element, count, v.items, i);
        FilledIsAdmitted(element, v.items[i]);
      }
    case ObjSchema(props, unknown) =>
      var filled := Fill(s, v).fields;
      forall k | k in props
        ensures AdmitsProp(props[k], Lookup(filled, k), unknown == Passthrough)
      {
        ValidField(props, unknown, v.fields, k);
        FilledPropIsAdmitted(props[k], Lookup(v.fields, k), unknown == Passthrough);
      }
    case Union(options) => FilledFirstIsAdmitted(options, v);
    case Discriminated(tag, options) => FilledTaggedIsAdmitted(tag, v.fields[tag], options, v);
    case _ =>
  }

  lemma {:induction false} FilledPropIsAdmitted(p: Prop, x: Option<Json>, open: bool)
    requires WellFormed(p.schema) && !p.nullAsMissing && ParseProp(p, x).Some?
    ensures AdmitsProp(p, Filled(p, x, open), open)
    decreases p
  {
    if x.Some? {
      FilledIsAdmitted(p.schema, x.value);
    }
  }

  lemma {:induction false} FilledFirstIsAdmitted(options: seq<Schema>, v: Json)
    requires (forall o | o in options :: WellFormed(o)) && ParseFirst(options, v).Some?
    ensures exists o | o in options :: Admits(o, FillFirst(options, v))
    decreases options
  {
    if Parse(options[0], v).Some? {
      FilledIsAdmitted(options[0], v);
    } else {
      FilledFirstIsAdmitted(options[1..], v);
      var o :| o in options[1..] && Admits(o, FillFirst(options[1..], v));
      assert o in options;
    }
  }

  lemma {:induction false} FilledTaggedIsAdmitted(tag: string, value: Json, options: seq<Schema>, v: Json)
    requires (forall o | o in options :: WellFormed(o)) && ParseTagged(tag, value, options, v).Some?
    ensures exists o | o in options :: Admits(o, FillTagged(tag, value, options, v))
    decreases options
  {
    if HasTag(options[0], tag, value) {
      FilledIsAdmitted(options[0], v);
    } else {
      FilledTaggedIsAdmitted(tag, value, options[1..], v);
      var o :| o in options[1..] && Admits(o, FillTagged(tag, value, options[1..], v));
      assert o in options;
    }
  }

  // ------------------------------------------------------------------------
  // Whatever the strict schema accepts decodes
  // ------------------------------------------------------------------------

  /** What the original schema accepts, the rewritten one accepts, whatever the unions. */
  lemma {:induction false} StillAccepted(s: Schema, v: Json)
    requires WellFormed(s) && Parse(s, v).Some?
    ensures Parse(WithOptionalNullsAsMissing(s), v).Some?
    decreases s
  {
    match s
    case Nullable(inner) =>
      if !v.Null? {
        StillAccepted(inner, v);
      }
    case ArrSchema(element, count) =>
      forall i | 0 <= i < |v.items|
        ensures Parse(WithOptionalNullsAsMissing(element), v.items[i]).Some?
      {
        ValidItem(element, count, v.items, i);
        StillAccepted(element, v.items[i]);
      }
    case ObjSchema(props, unknown) =>
      forall k | k in props
        ensures ParseProp(Rewritten(props[k]), Lookup(v.fields, k)).Some?
      {
        ValidField(props, unknown, v.fields, k);
        PropStillAccepted(props[k], Lookup(v.fields, k));
      }
    case Union(options) => FirstStillAccepted(options, v);
    case Discriminated(tag, options) => TaggedStillAccepted(tag, v.fields[tag], options, v);
    case _ =>
  }

  lemma {:induction false} PropStillAccepted(p: Prop, x: Option<Json>)
    requires WellFormed(p.schema) && !p.nullAsMissing && ParseProp(p, x).Some?
    ensures ParseProp(Rewritten(p), x).Some?
    decreases p
  {
    if x.Some? {
      StillAccepted(p.schema, x.value);
    } else if p.presence.Default? {
      StillAccepted(p.schema, p.presence.value);
    }
  }

  lemma {:induction false} FirstStillAccepted(options: seq<Schema>, v: Json)
    requires (forall o | o in options :: WellFormed(o)) && ParseFirst(options, v).Some?
    ensures ParseFirst(AllRewritten(options), v).Some?
    decreases options
  {
    if Parse(options[0], v).Some? {
      StillAccepted(options[0], v);
    } else {
      FirstStillAccepted(options[1..], v);
    }
  }

  lemma {:induction false} TaggedStillAccepted(tag: string, value: Json, options: seq<Schema>, v: Json)
    requires (forall o | o in options :: WellFormed(o)) && ParseTagged(tag, value, options, v).Some?
    ensures ParseTagged(tag, value, AllRewritten(options), v).Some?
    decreases options
  {
    TagsStay(options[0], tag, value);
    if HasTag(options[0], tag, value) {
      StillAccepted(options[0], v);
    } else {
      TaggedStillAccepted(tag, value, options[1..], v);
    }
  }

  lemma {:induction false} AdmittedDecodes(s: Schema, v: Json)
    requires WellFormed(s) && Admits(s, v)
    ensures Parse(WithOptionalNullsAsMissing(s), v).Some?
    decreases s
  {
    match s
    case Nullable(inner) =>
      if !v.Null? {
        AdmittedDecodes(inner, v);
      }
    case ArrSchema(element, count) =>
      forall i | 0 <= i < |v.items|
        ensures Parse(WithOptionalNullsAsMissing(element), v.items[i]).Some?
      {
        AdmittedDecodes(element, v.items[i]);
      }
    case ObjSchema(props, unknown) =>
      forall k | k in props
        ensures ParseProp(Rewritten(props[k]), Lookup(v.fields, k)).Some?
      {
        AdmittedPropDecodes(props[k], Lookup(v.fields, k), unknown == Passthrough);
      }
    case Union(options) =>
      var o :| o in options && Admits(o, v);
      AdmittedFirstDecodes(options, o, v);
    case Discriminated(tag, options) =>
      var o :| o in options && Admits(o, v);
      AdmittedHasTag(o, tag, v);
      AdmittedTaggedDecodes(tag, v.fields[tag], options, o, v);
    case _ =>
  }

  lemma {:induction false} AdmittedPropDecodes(p: Prop, x: Option<Json>, open: bool)
    requires WellFormed(p.schema) && !p.nullAsMissing && AdmitsProp(p, x, open)
    requires p.presence.Default? ==> Parse(p.schema, p.presence.value).Some?
    ensures ParseProp(Rewritten(p), x).Some?
    decreases p
  {
    if x.Some? && Admits(p.schema, x.value) {
      AdmittedDecodes(p.schema, x.value);
    }
    if IsNullable(p) {
      StillAccepted(p.schema, Null);
    }
    if p.presence.Default? {
      StillAccepted(p.schema, p.presence.value);
    }
  }

  lemma {:induction false} AdmittedFirstDecodes(options: seq<Schema>, o: Schema, v: Json)
    requires o in options && WellFormed(o) && Admits(o, v)
    ensures ParseFirst(AllRewritten(options), v).Some?
    decreases options, 1
  {
    if options[0] == o {
      AdmittedDecodes(o, v);
    } else {
      AdmittedFirstDecodes(options[1..], o, v);
    }
  }

  lemma AdmittedHasTag(o: Schema, tag: string, v: Json)
    requires Tagged(o, tag) && Admits(o, v)
    ensures v.Obj? && tag in v.fields && HasTag(o, tag, v.fields[tag])
  {
    var p := o.props[tag];
    assert AdmitsProp(p, Lookup(v.fields, tag), o.unknown == Passthrough);
    assert !IsOptional(p);
    assert Lookup(v.fields, tag) == Some(v.fields[tag]);
    assert Admits(p.schema, v.fields[tag]);
    match p.schema
    case Literal(value) => assert v.fields[tag] == value;
  }

  lemma {:induction false} AdmittedTaggedDecodes(tag: string, value: Json, options: seq<Schema>, o: Schema, v: Json)
    requires o in options && WellFormed(o) && Admits(o, v) && HasTag(o, tag, value)
    requires forall i, j | 0 <= i < j < |options| :: TagOf(options[i], tag) != TagOf(options[j], tag)
    ensures ParseTagged(tag, value, AllRewritten(options), v).Some?
    decreases options, 1
  {
    TagsStay(options[0], tag, value);
    if options[0] == o {
      AdmittedDecodes(o, v);
    } else {
      var j :| 0 < j < |options| && options[j] == o;
      assert TagOf(options[0], tag) != TagOf(options[j], tag);
      AdmittedTaggedDecodes(tag, value, options[1..], o, v);
    }
  }

  // ------------------------------------------------------------------------
  // Exactly which values survive the round trip
  // ------------------------------------------------------------------------

  /** Null reads alike under the rewritten schema. */
  lemma {:induction false} NullReadsAlike(s: Schema)
    ensures Parse(WithOptionalNullsAsMissing(s), Null) == Parse(s, Null)
    decreases s
  {
    match s
    case Nullable(inner) =>
    case Union(options) => NullReadsAlikeFirst(options);
    case _ =>
  }

  lemma {:induction false} NullReadsAlikeFirst(options: seq<Schema>)
    ensures ParseFirst(AllRewritten(options), Null) == ParseFirst(options, Null)
    decreases options
  {
    if options != [] {
      NullReadsAlike(options[0]);
      NullReadsAlikeFirst(options[1..]);
    }
  }

  lemma FilledParses(s: Schema, v: Json)
    requires WellFormed(s) && Parse(s, v).Some?
    ensures Parse(WithOptionalNullsAsMissing(s), Fill(s, v)).Some?
  {
    FilledIsAdmitted(s, v);
    AdmittedDecodes(s, Fill(s, v));
  }

  /** The filled value reads as the value did exactly if the value keeps its reading. */
  lemma {:induction false} FilledReadsAlike(s: Schema, v: Json)
    requires WellFormed(s) && DefaultsAgree(s) && Parse(s, v).Some?
    ensures Parse(WithOptionalNullsAsMissing(s), Fill(s, v)) == Parse(s, v) <==> Keeps(s, v)
    decreases s
  {
    match s
    case Nullable(inner) =>
      if !v.Null? {
        OnlyNullFillsToNull(inner, v);
        FilledReadsAlike(inner, v);
      }
    case ArrSchema(element, count) =>
      var filled := Fill(s, v).items;
      forall i | 0 <= i < |v.items|
        ensures Parse(WithOptionalNullsAsMissing(element), filled[i]) == Parse(element, v.items[i]) <==> Keeps(element, v.items[i])
      {
        ValidItem(element, count, v.items, i);
        FilledReadsAlike(element, v.items[i]);
      }
      FilledParses(s, v);
      ItemsEqualIff(WithOptionalNullsAsMissing(element), element, count, filled, v.items);
    case ObjSchema(_, _) => FilledFieldsReadAlike(s, v);
    case Union(options) => FilledFirstReadsAlike(options, v);
    case Discriminated(tag, options) => FilledTaggedReadsAlike(tag, v.fields[tag], options, v);
    case _ =>
  }

  lemma {:induction false} FilledFieldsReadAlike(s: Schema, v: Json)
    requires s.ObjSchema? && WellFormed(s) && DefaultsAgree(s) && Parse(s, v).Some?
    ensures Parse(WithOptionalNullsAsMissing(s), Fill(s, v)) == Parse(s, v) <==> Keeps(s, v)
    decreases s, 0
  {
    var open := s.unknown == Passthrough;
    var filled := Fill(s, v).fields;
    FilledParses(s, v);
    FillKeepsExtras(s.props, s.unknown, v.fields);
    FieldsEqualIff(s.props, s.unknown, filled, v.fields);
    forall k | k in s.props
      ensures ParseProp(Rewritten(s.props[k]), Lookup(filled, k)) == ParseProp(s.props[k], Lookup(v.fields, k))
        <==> KeepsProp(s.props[k], Lookup(v.fields, k), open)
    {
      ValidField(s.props, s.unknown, v.fields, k);
      FilledPropReadsAlike(s.props[k], Lookup(v.fields, k), open);
    }
  }

  lemma {:induction false} FilledPropReadsAlike(p: Prop, x: Option<Json>, open: bool)
    requires WellFormed(p.schema) && DefaultsAgree(p.schema) && DefaultAgrees(p) && !p.nullAsMissing
    requires p.presence.Default? ==> Parse(p.schema, p.presence.value).Some?
    requires ParseProp(p, x).Some?
    ensures ParseProp(Rewritten(p), Filled(p, x, open)) == ParseProp(p, x) <==> KeepsProp(p, x, open)
    decreases p
  {
    if x.Some? {
      FilledReadsAlike(p.schema, x.value);
      OnlyNullFillsToNull(p.schema, x.value);
    } else {
      NullReadsAlike(p.schema);
    }
  }

  lemma {:induction false} FilledFirstReadsAlike(options: seq<Schema>, v: Json)
    requires (forall o | o in options :: WellFormed(o) && DefaultsAgree(o)) && ParseFirst(options, v).Some?
    ensures ParseFirst(AllRewritten(options), FillFirst(options, v)) == ParseFirst(options, v) <==> KeepsFirst(options, v)
    decreases options
  {
    if Parse(options[0], v).Some? {
      FilledParses(options[0], v);
      FilledReadsAlike(options[0], v);
    } else {
      FilledFirstReadsAlike(options[1..], v);
    }
  }

  lemma {:induction false} FilledTaggedReadsAlike(tag: string, value: Json, options: seq<Schema>, v: Json)
    requires forall o | o in options :: WellFormed(o) && DefaultsAgree(o)
    requires v.Obj? && tag in v.fields && v.fields[tag] == value && ParseTagged(tag, value, options, v).Some?
    ensures
      var filled := FillTagged(tag, value, options, v);
      && filled.Obj? && tag in filled.fields && filled.fields[tag] == value
      && (ParseTagged(tag, value, AllRewritten(options), filled) == ParseTagged(tag, value, options, v)
          <==> KeepsTagged(tag, value, options, v))
    decreases options
  {
    TagsStay(options[0], tag, value);
    if HasTag(options[0], tag, value) {
      assert FillProp(options[0].props[tag], value) == value;
      FilledReadsAlike(options[0], v);
    } else {
      FilledTaggedReadsAlike(tag, value, options[1..], v);
    }
  }

  /** With tagged unions every default that fits reads alike. */
  lemma {:induction false} FittingDefaultsAgree(s: Schema)
    requires WellFormed(s) && NoPlainUnion(s)
    ensures DefaultsAgree(s)
  {
    match s
    case Nullable(inner) => FittingDefaultsAgree(inner);
    case ArrSchema(element, _) => FittingDefaultsAgree(element);
    case ObjSchema(props, _) =>
      forall k | k in props
        ensures DefaultsAgree(props[k].schema) && DefaultAgrees(props[k])
      {
        FittingDefaultsAgree(props[k].schema);
        if props[k].presence.Default? {
          RewritingOnlyWidens(props[k].schema, props[k].presence.value);
        }
      }
    case Discriminated(_, options) =>
      forall o | o in options
        ensures DefaultsAgree(o)
      {
        FittingDefaultsAgree(o);
      }
    case _ =>
  }

  /** Schemas for which every accepted value keeps its reading. */
  lemma {:induction false} AllValuesKeep(s: Schema, v: Json)
    requires WellFormed(s) && NoPlainUnion(s) && NoOptionalNullable(s) && Parse(s, v).Some?
    ensures Keeps(s, v)
    decreases s
  {
    match s
    case Nullable(inner) =>
      if !v.Null? {
        AllValuesKeep(inner, v);
      }
    case ArrSchema(element, count) =>
      forall i | 0 <= i < |v.items|
        ensures Keeps(element, v.items[i])
      {
        ValidItem(element, count, v.items, i);
        AllValuesKeep(element, v.items[i]);
      }
    case ObjSchema(props, unknown) =>
      forall k | k in props
        ensures KeepsProp(props[k], Lookup(v.fields, k), unknown == Passthrough)
      {
        ValidField(props, unknown, v.fields, k);
        if k in v.fields {
          AllValuesKeep(props[k].schema, v.fields[k]);
        }
      }
    case Discriminated(tag, options) => AllTaggedKeep(tag, v.fields[tag], options, v);
    case _ =>
  }

  lemma {:induction false} AllTaggedKeep(tag: string, value: Json, options: seq<Schema>, v: Json)
    requires forall o | o in options :: WellFormed(o) && NoPlainUnion(o) && NoOptionalNullable(o)
    requires ParseTagged(tag, value, options, v).Some?
    ensures KeepsTagged(tag, value, options, v)
    decreases options
  {
    if HasTag(options[0], tag, value) {
      AllValuesKeep(options[0], v);
    } else {
      AllTaggedKeep(tag, value, options[1..], v);
    }
  }

  // ------------------------------------------------------------------------
  // Exactly which values without nulls read alike
  // ------------------------------------------------------------------------

  /** On values without nulls the rewriting accepts nothing new. */
  lemma {:induction false} NothingNewWithoutNulls(s: Schema, v: Json)
    requires WellFormed(s) && NullFree(v) && Parse(WithOptionalNullsAsMissing(s), v).Some?
    ensures Parse(s, v).Some?
    decreases s
  {
    match s
    case Nullable(inner) => NothingNewWithoutNulls(inner, v);
    case ArrSchema(element, count) =>
      forall i | 0 <= i < |v.items|
        ensures Parse(element, v.items[i]).Some?
      {
        ValidItem(WithOptionalNullsAsMissing(element), count, v.items, i);
        NothingNewWithoutNulls(element, v.items[i]);
      }
    case ObjSchema(props, unknown) =>
      forall k | k in props
        ensures ParseProp(props[k], Lookup(v.fields, k)).Some?
      {
        ValidField(RewrittenProps(props), unknown, v.fields, k);
        if k in v.fields {
          NothingNewWithoutNulls(props[k].schema, v.fields[k]);
        }
      }
    case Union(options) => NothingNewFirst(options, v);
    case Discriminated(tag, options) => NothingNewTagged(tag, v.fields[tag], options, v);
    case _ =>
  }

  lemma {:induction false} NothingNewFirst(options: seq<Schema>, v: Json)
    requires (forall o | o in options :: WellFormed(o)) && NullFree(v) && ParseFirst(AllRewritten(options), v).Some?
    ensures ParseFirst(options, v).Some?
    decreases options
  {
    if Parse(WithOptionalNullsAsMissing(options[0]), v).Some? {
      NothingNewWithoutNulls(options[0], v);
    } else {
      NothingNewFirst(options[1..], v);
    }
  }

  lemma {:induction false} NothingNewTagged(tag: string, value: Json, options: seq<Schema>, v: Json)
    requires (forall o | o in options :: WellFormed(o)) && NullFree(v)
    requires ParseTagged(tag, value, AllRewritten(options), v).Some?
    ensures ParseTagged(tag, value, options, v).Some?
    decreases options
  {
    TagsStay(options[0], tag, value);
    if HasTag(options[0], tag, value) {
      NothingNewWithoutNulls(options[0], v);
    } else {
      NothingNewTagged(tag, value, options[1..], v);
    }
  }

  /**
   * On values without nulls, for all unions: both schemas accept the same, and
   * read an accepted value alike exactly if the defaults it calls in do.
   */
  lemma {:induction false} NullFreeValuesAgreeExactly(s: Schema, v: Json)
    requires WellFormed(s) && NullFree(v)
    ensures Parse(WithOptionalNullsAsMissing(s), v).Some? <==> Parse(s, v).Some?
    ensures Parse(s, v).Some? ==> (Parse(WithOptionalNullsAsMissing(s), v) == Parse(s, v) <==> UsedDefaultsAgree(s, v))
  {
    if Parse(WithOptionalNullsAsMissing(s), v).Some? {
      NothingNewWithoutNulls(s, v);
    }
    if Parse(s, v).Some? {
      StillAccepted(s, v);
      AcceptedNullFreeAgree(s, v);
    }
  }

  lemma {:induction false} AcceptedNullFreeAgree(s: Schema, v: Json)
    requires WellFormed(s) && NullFree(v) && Parse(s, v).Some?
    ensures Parse(WithOptionalNullsAsMissing(s), v) == Parse(s, v) <==> UsedDefaultsAgree(s, v)
    decreases s, 1
  {
    match s
    case Nullable(inner) => AcceptedNullFreeAgree(inner, v);
    case ArrSchema(element, count) =>
      forall i | 0 <= i < |v.items|
        ensures Parse(WithOptionalNullsAsMissing(element), v.items[i]) == Parse(element, v.items[i])
          <==> UsedDefaultsAgree(element, v.items[i])
      {
        ValidItem(element, count, v.items, i);
        AcceptedNullFreeAgree(element, v.items[i]);
      }
      StillAccepted(s, v);
      ItemsEqualIff(WithOptionalNullsAsMissing(element), element, count, v.items, v.items);
    case ObjSchema(_, _) => AcceptedNullFreeFieldsAgree(s, v);
    case Union(options) => AcceptedNullFreeFirstAgrees(options, v);
    case Discriminated(tag, options) => AcceptedNullFreeTaggedAgrees(tag, v.fields[tag], options, v);
    case _ =>
  }

  lemma {:induction false} AcceptedNullFreeFieldsAgree(s: Schema, v: Json)
    requires s.ObjSchema? && WellFormed(s) && NullFree(v) && Parse(s, v).Some?
    ensures Parse(WithOptionalNullsAsMissing(s), v) == Parse(s, v) <==> UsedDefaultsAgree(s, v)
    decreases s, 0
  {
    StillAccepted(s, v);
    FieldsEqualIff(s.props, s.unknown, v.fields, v.fields);
    forall k | k in s.props
      ensures ParseProp(Rewritten(s.props[k]), Lookup(v.fields, k)) == ParseProp(s.props[k], Lookup(v.fields, k))
        <==> UsedDefaultAgrees(s.props[k], Lookup(v.fields, k))
    {
      ValidField(s.props, s.unknown, v.fields, k);
      AcceptedNullFreePropAgrees(s.props[k], Lookup(v.fields, k));
    }
    hide ParseProp, UsedDefaultAgrees;
  }

  lemma {:induction false} AcceptedNullFreePropAgrees(p: Prop, x: Option<Json>)
    requires WellFormed(p.schema) && (x.Some? ==> NullFree(x.value)) && ParseProp(p, x).Some?
    ensures ParseProp(Rewritten(p), x) == ParseProp(p, x) <==> UsedDefaultAgrees(p, x)
    decreases p, 0
  {
    if x.Some? {
      AcceptedNullFreeAgree(p.schema, x.value);
    }
  }

  lemma {:induction false} AcceptedNullFreeFirstAgrees(options: seq<Schema>, v: Json)
    requires (forall o | o in options :: WellFormed(o)) && NullFree(v) && ParseFirst(options, v).Some?
    ensures ParseFirst(AllRewritten(options), v) == ParseFirst(options, v) <==> UsedDefaultsAgreeFirst(options, v)
    decreases options, 0
  {
    if Parse(options[0], v).Some? {
      StillAccepted(options[0], v);
      AcceptedNullFreeAgree(options[0], v);
    } else {
      if Parse(WithOptionalNullsAsMissing(options[0]), v).Some? {
        NothingNewWithoutNulls(options[0], v);
      }
      AcceptedNullFreeFirstAgrees(options[1..], v);
    }
  }

  lemma {:induction false} AcceptedNullFreeTaggedAgrees(tag: string, value: Json, options: seq<Schema>, v: Json)
    requires (forall o | o in options :: WellFormed(o)) && NullFree(v) && ParseTagged(tag, value, options, v).Some?
    ensures ParseTagged(tag, value, AllRewritten(options), v) == ParseTagged(tag, value, options, v)
      <==> UsedDefaultsAgreeTagged(tag, value, options, v)
    decreases options, 0
  {
    TagsStay(options[0], tag, value);
    if HasTag(options[0], tag, value) {
      AcceptedNullFreeAgree(options[0], v);
    } else {
      AcceptedNullFreeTaggedAgrees(tag, value, options[1..], v);
    }
  }

  // ------------------------------------------------------------------------
  // Main results
  // ------------------------------------------------------------------------

  /**
   * Every value has a form that the strict schema accepts, null standing in
   * for each key left out. That form decodes to what the value means exactly
   * if the value keeps its reading.
   */
  lemma ValuesRoundTripExactly(s: Schema, v: Json)
    requires WellFormed(s) && DefaultsAgree(s) && Parse(s, v).Some?
    ensures Accepts(StrictNode(s), Fill(s, v))
    ensures Parse(WithOptionalNullsAsMissing(s), Fill(s, v)) == Parse(s, v) <==> Keeps(s, v)
  {
    FilledIsAdmitted(s, v);
    StrictAccepts(s, Fill(s, v));
    FilledReadsAlike(s, v);
  }

  /** With tagged unions and no optional key that takes null, every accepted value survives the round trip. */
  lemma EncodedValuesRoundTrip(s: Schema, v: Json)
    requires WellFormed(s) && NoPlainUnion(s) && Parse(s, v).Some?
    ensures Accepts(StrictNode(s), Fill(s, v))
    ensures Parse(WithOptionalNullsAsMissing(s), Fill(s, v)) == Parse(s, v) <==> Keeps(s, v)
    ensures NoOptionalNullable(s) ==> Keeps(s, v)
  {
    FittingDefaultsAgree(s);
    ValuesRoundTripExactly(s, v);
    if NoOptionalNullable(s) {
      AllValuesKeep(s, v);
    }
  }

  /**
   * Every answer that keeps to the strict schema decodes. If unions are
   * tagged, it decodes to what the original schema makes of it without the nulls.
   */
  lemma StrictAnswersDecode(s: Schema, v: Json)
    requires WellFormed(s) && Accepts(StrictNode(s), v)
    ensures Parse(WithOptionalNullsAsMissing(s), v).Some?
    ensures NoPlainUnion(s) ==> Parse(WithOptionalNullsAsMissing(s), v) == Parse(s, WithoutNulls(s, v))
  {
    StrictAccepts(s, v);
    AdmittedDecodes(s, v);
    if NoPlainUnion(s) {
      NullsDecode(s, v);
    }
  }

  // ------------------------------------------------------------------------
  // The side conditions are needed
  // ------------------------------------------------------------------------

  const TEXT := StrSchema(Size(None, None))
  const KEY := "k"

  function OneKey(p: Prop): Schema {
    ObjSchema(map[KEY := p], Strip)
  }

  lemma CollectOne(r: Option<Option<Json>>)
    ensures CollectFields(map[KEY := r], map[]) ==
      match r
      case None => None
      case Some(None) => Some(Obj(map[]))
      case Some(Some(x)) => Some(Obj(map[KEY := x]))
  {
    var results := map[KEY := r];
    assert KEY in results;
    if r.Some? {
      var kept := map k | k in results && results[k].value.Some? :: results[k].value.value;
      assert kept == if r.value.Some? then map[KEY := r.value.value] else map[];
      assert map[] + kept == kept;
    }
  }

  lemma ParseOneKey(p: Prop, fields: map<string, Json>)
    ensures Parse(OneKey(p), Obj(fields)) == CollectFields(map[KEY := ParseProp(p, Lookup(fields, KEY))], map[])
  {
    hide ParseProp, CollectFields;
    var props := map[KEY := p];
    ParseOfFields(props, Strip, fields);
    assert Results(props, fields) == map[KEY := ParseProp(p, Lookup(fields, KEY))];
  }

  lemma RewriteOneKey(p: Prop)
    ensures WithOptionalNullsAsMissing(OneKey(p)) == OneKey(Rewritten(p))
  {
    assert (map k | k in map[KEY := p] :: Rewritten(map[KEY := p][k])) == map[KEY := Rewritten(p)];
  }

  const HAS_NULLABLE := Prop(Nullable(TEXT), Required, false)
  const HAS_OPTIONAL := Prop(TEXT, Optional, false)

  /** `{k: string | null}` or `{k?: string}`. */
  const PLAIN_UNION := Union([OneKey(HAS_NULLABLE), OneKey(HAS_OPTIONAL)])

  lemma EmptyObjectFitsTheSecond()
    ensures Parse(OneKey(HAS_NULLABLE), Obj(map[])) == None
    ensures Parse(OneKey(HAS_OPTIONAL), Obj(map[])) == Some(Obj(map[]))
  {
    ParseOneKey(HAS_NULLABLE, map[]);
    ParseOneKey(HAS_OPTIONAL, map[]);
    CollectOne(None);
    CollectOne(Some(None));
  }

  lemma NullFitsTheFirst()
    ensures Parse(OneKey(Rewritten(HAS_NULLABLE)), Obj(map[KEY := Null])) == Some(Obj(map[KEY := Null]))
  {
    ParseOneKey(Rewritten(HAS_NULLABLE), map[KEY := Null]);
    CollectOne(Some(Some(Null)));
  }

  /** Without tags, the empty object comes back with a null of its own: the wrong option took it. */
  lemma PlainUnionDecodesWrongly()
    ensures WellFormed(PLAIN_UNION) && NoOptionalNullable(PLAIN_UNION)
    ensures Parse(PLAIN_UNION, Obj(map[])) == Some(Obj(map[]))
    ensures Fill(PLAIN_UNION, Obj(map[])) == Obj(map[KEY := Null])
    ensures Parse(WithOptionalNullsAsMissing(PLAIN_UNION), Obj(map[KEY := Null])) == Some(Obj(map[KEY := Null]))
  {
    EmptyObjectFitsTheSecond();
    NullFitsTheFirst();
    FillOneKey(HAS_OPTIONAL);
    RewriteOneKey(HAS_NULLABLE);
    PlainUnionIsWellFormed();
    var a, b := OneKey(HAS_NULLABLE), OneKey(HAS_OPTIONAL);
    hide OneKey, WellFormed, NoOptionalNullable, Rewritten, Parse, Fill, WithOptionalNullsAsMissing;
    EitherOf(a, b, Obj(map[]));
    EitherOf(WithOptionalNullsAsMissing(a), WithOptionalNullsAsMissing(b), Obj(map[KEY := Null]));
    RewriteEither(a, b);
  }

  lemma EitherOf(a: Schema, b: Schema, v: Json)
    ensures Parse(Union([a, b]), v) == if Parse(a, v).Some? then Parse(a, v) else Parse(b, v)
    ensures Parse(a, v).None? && Parse(b, v).Some? ==> Fill(Union([a, b]), v) == Fill(b, v)
  {
    assert [a, b][1..] == [b] && [b][1..] == [];
    assert ParseFirst([b], v) == Parse(b, v);
    assert Parse(b, v).Some? ==> FillFirst([b], v) == Fill(b, v);
  }

  lemma RewriteEither(a: Schema, b: Schema)
    ensures WithOptionalNullsAsMissing(Union([a, b]))
         == Union([WithOptionalNullsAsMissing(a), WithOptionalNullsAsMissing(b)])
  {
    assert [a, b][1..] == [b] && [b][1..] == [];
    assert AllRewritten([b]) == [WithOptionalNullsAsMissing(b)];
  }

  lemma PlainUnionIsWellFormed()
    ensures WellFormed(PLAIN_UNION) && NoOptionalNullable(PLAIN_UNION)
  {
    assert !IsOptional(HAS_NULLABLE) && !IsNullable(HAS_OPTIONAL);
  }

  /** `{k?: string | null}`. */
  const OPTIONAL_NULLABLE := OneKey(Prop(Nullable(TEXT), Optional, false))

  /** An optional key that takes null keeps the null that stood for leaving it out. */
  lemma OptionalNullableKeepsNull()
    ensures WellFormed(OPTIONAL_NULLABLE) && NoPlainUnion(OPTIONAL_NULLABLE)
    ensures Parse(OPTIONAL_NULLABLE, Obj(map[])) == Some(Obj(map[]))
    ensures Parse(WithOptionalNullsAsMissing(OPTIONAL_NULLABLE), Fill(OPTIONAL_NULLABLE, Obj(map[])))
         == Some(Obj(map[KEY := Null]))
  {
    var p := Prop(Nullable(TEXT), Optional, false);
    ParseOneKey(p, map[]);
    CollectOne(Some(None));
    RewriteOneKey(p);
    FillOneKey(p);
    assert ParseProp(Rewritten(p), Some(Null)) == Some(Some(Null));
    hide Parse, Fill, WithOptionalNullsAsMissing, OneKey, ParseProp;
    ParseOneKey(Rewritten(p), map[KEY := Null]);
    CollectOne(Some(Some(Null)));
  }

  lemma FillOneKey(p: Prop)
    ensures Fill(OneKey(p), Obj(map[])) == Obj(map[KEY := Null])
  {
  }

  /** The keys of a decoded object that come from its schema are those whose parts give a value. */
  lemma DecodedKeys(props: Props, unknown: UnknownKeys, fields: map<string, Json>, k: string)
    requires Parse(ObjSchema(props, unknown), Obj(fields)).Some? && k in props
    ensures Parse(ObjSchema(props, unknown), Obj(fields)).value.Obj?
    ensures ParseProp(props[k], Lookup(fields, k)).Some?
    ensures k in Parse(ObjSchema(props, unknown), Obj(fields)).value.fields
      <==> ParseProp(props[k], Lookup(fields, k)).value.Some?
  {
    ValidField(props, unknown, fields, k);
    ParseOfFields(props, unknown, fields);
    hide Parse, ParseProp;
    assert k !in Extras(props, unknown, fields);
  }

  /**
   * In general: no value that leaves out an optional key that takes null
   * survives the round trip. It decodes, but with a key it did not have.
   */
  lemma OptionalNullableNeverRoundTrips(props: Props, unknown: UnknownKeys, fields: map<string, Json>, k: string)
    requires WellFormed(ObjSchema(props, unknown)) && unknown != Passthrough
    requires Parse(ObjSchema(props, unknown), Obj(fields)).Some?
    requires k in props && props[k].presence.Optional? && IsNullable(props[k]) && k !in fields
    ensures
      var s, v := ObjSchema(props, unknown), Obj(fields);
      var before, after := Parse(s, v), Parse(WithOptionalNullsAsMissing(s), Fill(s, v));
      && before.value.Obj? && k !in before.value.fields
      && after.Some? && after.value.Obj? && k in after.value.fields
  {
    var s, v := ObjSchema(props, unknown), Obj(fields);
    DecodedKeys(props, unknown, fields, k);
    FilledIsAdmitted(s, v);
    AdmittedDecodes(s, Fill(s, v));
    StillAccepted(props[k].schema, Null);
    assert ParseProp(Rewritten(props[k]), Some(Null)).value.Some?;
    var filled := Fill(s, v).fields;
    assert Lookup(filled, k) == Some(Null);
    assert WithOptionalNullsAsMissing(s) == ObjSchema(RewrittenProps(props), unknown);
    hide Parse, ParseProp, Rewritten, WithOptionalNullsAsMissing, Fill, Admits;
    DecodedKeys(RewrittenProps(props), unknown, filled, k);
  }

  /** `{k?: string}` or `{k: string | null}`. */
  const OPTIONAL_FIRST := Union([OneKey(HAS_OPTIONAL), OneKey(HAS_NULLABLE)])

  const NULL_FIELD := Obj(map[KEY := Null])

  /** `{k: ({k?: string} | {k: string | null}).default({k: null})}`. */
  const DEFAULTS_TO_NULL := OneKey(Prop(OPTIONAL_FIRST, Default(NULL_FIELD), false))

  /** On a value without nulls the rewritten schema reads a default with a null differently. */
  lemma DefaultReadsDifferently()
    ensures WellFormed(DEFAULTS_TO_NULL) && NullFree(Obj(map[]))
    ensures Parse(DEFAULTS_TO_NULL, Obj(map[])) == Some(Obj(map[KEY := NULL_FIELD]))
    ensures Parse(WithOptionalNullsAsMissing(DEFAULTS_TO_NULL), Obj(map[])) == Some(Obj(map[KEY := Obj(map[])]))
  {
    var p := Prop(OPTIONAL_FIRST, Default(NULL_FIELD), false);
    NullFieldReadings();
    PlainUnionIsWellFormed();
    assert WellFormed(OPTIONAL_FIRST);
    assert !p.nullAsMissing && ParseProp(p, None) == Some(Some(NULL_FIELD));
    assert ParseProp(Rewritten(p), None) == Some(Some(Obj(map[])));
    hide Parse, WithOptionalNullsAsMissing, Rewritten, OneKey, ParseProp;
    ParseOneKey(p, map[]);
    RewriteOneKey(p);
    ParseOneKey(Rewritten(p), map[]);
    CollectOne(Some(Some(NULL_FIELD)));
    CollectOne(Some(Some(Obj(map[]))));
    WellFormedOneKey(p);
  }

  lemma WellFormedOneKey(p: Prop)
    requires WellFormed(p.schema) && !p.nullAsMissing
    requires p.presence.Default? ==> Parse(p.schema, p.presence.value).Some?
    ensures WellFormed(OneKey(p))
  {
  }

  lemma NullFieldReadings()
    ensures Parse(OPTIONAL_FIRST, NULL_FIELD) == Some(NULL_FIELD)
    ensures Parse(WithOptionalNullsAsMissing(OPTIONAL_FIRST), NULL_FIELD) == Some(Obj(map[]))
  {
    var a, b := OneKey(HAS_OPTIONAL), OneKey(HAS_NULLABLE);
    assert ParseProp(HAS_OPTIONAL, Some(Null)) == None && ParseProp(HAS_NULLABLE, Some(Null)) == Some(Some(Null));
    assert ParseProp(Rewritten(HAS_OPTIONAL), Some(Null)) == Some(None);
    hide OneKey, Parse, WithOptionalNullsAsMissing, ParseProp, Rewritten;
    ParseOneKey(HAS_OPTIONAL, map[KEY := Null]);
    ParseOneKey(HAS_NULLABLE, map[KEY := Null]);
    ParseOneKey(Rewritten(HAS_OPTIONAL), map[KEY := Null]);
    CollectOne(None);
    CollectOne(Some(None));
    CollectOne(Some(Some(Null)));
    RewriteOneKey(HAS_OPTIONAL);
    EitherOf(a, b, NULL_FIELD);
    RewriteEither(a, b);
    EitherOf(WithOptionalNullsAsMissing(a), WithOptionalNullsAsMissing(b), NULL_FIELD);
  }
}
