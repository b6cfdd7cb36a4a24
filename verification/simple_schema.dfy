/**
 * The simplified `jsonToSchema` of api-tracker-visualizer/background.js (the
 * declaration that shadows the AST-based one there): objects map each key
 * to the schema of its value, arrays are described by their first element
 * only, and no `required` list is produced anywhere.
 */
module SimpleSchema {
  import opened Wrappers
  import opened Json
  import opened Schemas
  import Inference

  /** `_getType`: `null` is "null", an array is "array", otherwise `typeof`. */
  function TypeName(v: Json): (t: SchemaType)
    ensures t == TNull <==> v.JNull?
    ensures !v.JNull? ==> Some(t) == Inference.GetType(v)
  {
    match v
    case JNull => TNull
    case JArray(_) => TArray
    case JObject(_) => TObject
    case JString(_) => TString
    case JNumber(_) => TNumber
    case JBool(_) => TBoolean
  }

  /** The simplified `jsonToSchema`. */
  function Simple(v: Json): (s: Schema)
    ensures s.typ == Some(TypeName(v))
    ensures s.required.None? && s.anyOf.NoAlts?
    decreases v
  {
    match v
    case JObject(fields) =>
      Blank.(typ := Some(TObject), properties := Props(map k | k in fields :: Simple(fields[k])))
    case JArray(elems) =>
      if |elems| == 0 then Blank.(typ := Some(TArray), items := Some(Blank))
      else if elems[0].JObject? then Blank.(typ := Some(TArray), items := Some(Simple(elems[0])))
      else Blank.(typ := Some(TArray), items := Some(Blank.(typ := Some(TypeName(elems[0])))))
    case _ => Blank.(typ := Some(TypeName(v)))
  }

  /** An object: exactly one property per key, each the schema of its value. */
  lemma SimpleObject(fields: map<string, Json>)
    ensures var s := Simple(JObject(fields));
      && s.typ == Some(TObject) && s.properties.Props? && s.properties.m.Keys == fields.Keys
      && (forall k | k in fields :: s.properties.m[k] == Simple(fields[k]))
      && s.required.None? && s.items.None?
  {
  }

  /** An empty array: `{type: 'array', items: {}}`. */
  lemma SimpleEmptyArray()
    ensures Simple(JArray([])) == Blank.(typ := Some(TArray), items := Some(Blank))
  {
  }

  /** A non-empty array is described by its first element alone. */
  lemma SimpleFirstElementOnly(elems: seq<Json>, rest: seq<Json>)
    requires |elems| > 0
    ensures Simple(JArray(elems)) == Simple(JArray([elems[0]] + rest))
    ensures Simple(JArray(elems)).items ==
            Some(if elems[0].JObject? then Simple(elems[0]) else Blank.(typ := Some(TypeName(elems[0]))))
  {
  }

  /** A primitive: `{type: t}`, with `null` giving "null". */
  lemma SimplePrimitive(v: Json)
    requires !Nested(v)
    ensures Simple(v) == Blank.(typ := Some(TypeName(v)))
    ensures v.JNull? ==> Simple(v).typ == Some(TNull)
  {
  }

  /** No schema node produced by the simplified generator carries `required`. */
  predicate NoRequired(s: Schema)
    decreases s, 1
  {
    && s.required.None?
    && (s.items.Some? ==> NoRequired(s.items.value))
    && (s.properties.Props? ==> PropsNoRequired(s.properties.m, s))
  }

  predicate PropsNoRequired(m: map<string, Schema>, ghost owner: Schema)
    requires forall k | k in m :: m[k] < owner
    decreases owner, 0
  {
    forall k | k in m :: NoRequired(m[k])
  }

  /** Recursively: no `required` anywhere, no union, and the shape rules kept. */
  lemma {:induction false} SimpleShaped(v: Json)
    ensures NoRequired(Simple(v)) && WellShaped(Simple(v)) && UnionFree(Simple(v))
    decreases v
  {
    match v
    case JObject(fields) =>
      forall k | k in fields
        ensures NoRequired(Simple(fields[k])) && WellShaped(Simple(fields[k])) && UnionFree(Simple(fields[k]))
      {
        SimpleShaped(fields[k]);
      }
      var s := Simple(v);
      assert forall k | k in s.properties.m :: s.properties.m[k] == Simple(fields[k]);
    case JArray(elems) =>
      if |elems| > 0 && elems[0].JObject? {
        SimpleShaped(elems[0]);
      }
    case _ =>
  }
}
