/**
 * The schema document the generators produce and the merge combines: a JSON
 * object whose keys are the draft-04 keywords it uses. Every key is optional,
 * as in the source, where a key that was never assigned is `undefined`.
 */
module Schemas {
  import opened Wrappers

  /** The values the `type` keyword takes. */
  datatype SchemaType = TObject | TArray | TString | TNumber | TBoolean | TNull

  /** `properties`: absent, or a map from property name to child schema. */
  datatype Props = NoProps | Props(m: map<string, Schema>)

  /** `anyOf`: absent, or the ordered alternatives of a union. */
  datatype Alts = NoAlts | AnyOf(alts: seq<Schema>)

  datatype Schema = Schema(
    schemaUri: Option<string>,     // "$schema"
    description: Option<string>,
    typ: Option<SchemaType>,       // "type"
    properties: Props,
    required: Option<set<string>>,
    items: Option<Schema>,
    minItems: Option<nat>,
    uniqueItems: Option<bool>,
    minLength: Option<nat>,
    anyOf: Alts)

  /** `{}`: the schema with no keys. */
  const Blank: Schema := Schema(None, None, None, NoProps, None, None, None, None, None, NoAlts)

  /** `s.properties || {}` */
  function PropsOf(s: Schema): map<string, Schema> {
    if s.properties.Props? then s.properties.m else map[]
  }

  /** `new Set(s.required || [])` */
  function RequiredOf(s: Schema): set<string> {
    if s.required.Some? then s.required.value else {}
  }

  predicate IsUnion(s: Schema) {
    s.anyOf.AnyOf?
  }

  /**
   * The shape rules a schema node keeps: `properties` and `required` only on
   * an object node, `required` naming declared properties, `items` only on an
   * array node, and `anyOf` only on a node without a `type`; recursively.
   */
  predicate WellShaped(s: Schema)
    decreases s, 1
  {
    && (s.properties.Props? ==> s.typ == Some(TObject))
    && (s.required.Some? ==> s.typ == Some(TObject) && s.required.value <= PropsOf(s).Keys)
    && (s.items.Some? ==> s.typ == Some(TArray) && WellShaped(s.items.value))
    && (s.anyOf.AnyOf? ==> s.typ.None? && s.properties.NoProps? && s.items.None? && AllWellShaped(s.anyOf.alts, s))
    && (s.properties.Props? ==> PropsWellShaped(s.properties.m, s))
  }

  predicate PropsWellShaped(m: map<string, Schema>, ghost owner: Schema)
    requires forall k | k in m :: m[k] < owner
    decreases owner, 0
  {
    forall k | k in m :: WellShaped(m[k])
  }

  predicate AllWellShaped(alts: seq<Schema>, ghost owner: Schema)
    requires forall i | 0 <= i < |alts| :: alts[i] < owner
    decreases owner, 0
  {
    forall i | 0 <= i < |alts| :: WellShaped(alts[i])
  }

  /** No node anywhere in `s` is a union. */
  predicate UnionFree(s: Schema)
    decreases s, 1
  {
    && !IsUnion(s)
    && (s.items.Some? ==> UnionFree(s.items.value))
    && (s.properties.Props? ==> PropsUnionFree(s.properties.m, s))
  }

  predicate PropsUnionFree(m: map<string, Schema>, ghost owner: Schema)
    requires forall k | k in m :: m[k] < owner
    decreases owner, 0
  {
    forall k | k in m :: UnionFree(m[k])
  }
}
