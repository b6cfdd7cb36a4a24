/**
 * What the schema generator of background.js and
 * good-request-tracking/background.js promises about its output, proved of
 * the definitions in inference.dfy.
 */
module InferenceFacts {
  import opened Wrappers
  import opened Text
  import opened Json
  import opened Schemas
  import opened Inference

  /**
   * Reference definition of the schema a non-nested member value gets: its
   * type, with `null` falling back to "string", and `minLength: 1` exactly
   * for a non-empty string.
   */
  function PrimitiveSchema(v: Json): Schema
    requires !Nested(v)
  {
    Blank.(typ := Some(match v
                       case JNull => TString
                       case JBool(_) => TBoolean
                       case JNumber(_) => TNumber
                       case JString(_) => TString),
           minLength := if v.JString? && |v.s| > 0 then Some(1) else None)
  }

  /** What `generate` writes for each child of `t`. */
  lemma GeneratedLookup(t: Tree)
    ensures GeneratedProps(t).Keys == ChildrenOf(t).Keys
    ensures forall k | k in ChildrenOf(t) :: GeneratedProps(t)[k] == CompileChild(ChildrenOf(t)[k])
    ensures forall k :: k in GeneratedRequired(t) <==> k in ChildrenOf(t) && PushesRequired(ChildrenOf(t)[k])
  {
  }

  /** `generate` on a node without children leaves the schema's lists as they were. */
  lemma GenerateLeaf(t: Tree, node: Schema)
    requires ChildrenOf(t) == map[]
    ensures Generate(t, node) == node.(properties := Props(PropsOf(node)), required := Some(RequiredOf(node)))
  {
    GeneratedLookup(t);
    assert PropsOf(node) + GeneratedProps(t) == PropsOf(node);
    assert RequiredOf(node) + GeneratedRequired(t) == RequiredOf(node);
  }

  /** A member value is listed in its parent's `required` exactly when it is not `null`. */
  predicate RequiredValue(v: Json) { !v.JNull? }

  lemma PrimitiveChildCompiles(v: Json)
    requires !Nested(v)
    ensures CompileChild(BuildPrimitive(Empty, v)) == PrimitiveSchema(v)
    ensures PushesRequired(BuildPrimitive(Empty, v)) <==> RequiredValue(v)
  {
  }

  lemma ObjectChildPushes(v: Json, bound: Json)
    requires Nested(v) ==> v < bound
    ensures PushesRequired(ObjectChild(v, bound)) <==> RequiredValue(v)
    ensures !Nested(v) ==> CompileChild(ObjectChild(v, bound)) == PrimitiveSchema(v)
  {
    if !Nested(v) {
      PrimitiveChildCompiles(v);
    }
  }

  lemma PositionalChildPushes(v: Json)
    ensures PushesRequired(PositionalChild(v)) <==> RequiredValue(v)
    ensures !Nested(v) ==> CompileChild(PositionalChild(v)) == PrimitiveSchema(v)
  {
    if !Nested(v) {
      PrimitiveChildCompiles(v);
    }
  }

  /**
   * The properties and `required` list `generate` produces for a node built by
   * `buildObjectTree` from `fields` (with no children before): one property
   * per member, primitives compiled by `PrimitiveSchema`, and `required`
   * exactly the members whose value is not `null`, objects and arrays
   * included even when empty.
   */
  lemma {:induction false} ObjectMembers(t0: Tree, fields: map<string, Json>, bound: Json)
    requires forall k | k in fields && Nested(fields[k]) :: fields[k] < bound
    requires ChildrenOf(t0) == map[]
    ensures GeneratedProps(BuildObjectTree(t0, fields, bound)).Keys == fields.Keys
    ensures GeneratedRequired(BuildObjectTree(t0, fields, bound)) == set k | k in fields && RequiredValue(fields[k])
    ensures forall k | k in fields && !Nested(fields[k]) ::
              GeneratedProps(BuildObjectTree(t0, fields, bound))[k] == PrimitiveSchema(fields[k])
  {
    var t := BuildObjectTree(t0, fields, bound);
    assert ChildrenOf(t) == map k | k in fields :: ObjectChild(fields[k], bound);
    forall k | k in fields
      ensures PushesRequired(ChildrenOf(t)[k]) <==> RequiredValue(fields[k])
      ensures !Nested(fields[k]) ==> GeneratedProps(t)[k] == PrimitiveSchema(fields[k])
    {
      ObjectChildPushes(fields[k], bound);
    }
  }

  // ---------------------------------------------------------------------------
  // Top-level shapes

  /** The properties and `required` of a compiled object tree are what `generate` writes for its children. */
  lemma TopObjectGenerated(t: Tree, tag: Option<string>)
    requires t.typ == Some(TObject)
    ensures Compile(t, tag).properties == Props(GeneratedProps(t))
    ensures Compile(t, tag).required == Some(GeneratedRequired(t))
  {
    assert map[] + GeneratedProps(t) == GeneratedProps(t);
    assert {} + GeneratedRequired(t) == GeneratedRequired(t);
  }

  /** A top-level non-array value compiles to an object schema with `description: ''`. */
  lemma TopLevelObjectShape(json: Json, tag: Option<string>)
    requires !json.JArray?
    ensures var s := Compile(Build(json), tag);
      && s.typ == Some(TObject) && s.schemaUri == tag && s.description == Some("")
      && s.properties.Props? && s.required.Some? && s.items.None? && s.anyOf.NoAlts?
  {
  }

  /**
   * A top-level array compiles to `type: 'array'`, `minItems: 1`,
   * `uniqueItems: true` and an object-typed `items`, whatever its length.
   */
  lemma TopLevelArrayShape(elems: seq<Json>, tag: Option<string>)
    ensures var s := Compile(Build(JArray(elems)), tag);
      && s.typ == Some(TArray) && s.schemaUri == tag && s.description == Some("")
      && s.minItems == Some(1) && s.uniqueItems == Some(true)
      && s.items.Some? && s.items.value.typ == Some(TObject)
      && s.properties.NoProps? && s.required.None?
  {
  }

  /** The tagged variant stamps the draft-04 `$schema` URI on every top-level schema. */
  lemma TaggedCarriesDraft04(json: Json)
    ensures JsonToSchemaTagged(json).schemaUri == Some(Draft04)
    ensures JsonToSchemaTagged(json) == JsonToSchema(json).(schemaUri := Some(Draft04))
  {
  }

  /**
   * A top-level object: one property per member, `required` exactly the
   * members whose value is not `null`, and each primitive member compiled
   * by `PrimitiveSchema` (so `null` becomes "string" and an empty string has
   * no `minLength`).
   */
  lemma ObjectSchema(fields: map<string, Json>)
    ensures var s := JsonToSchema(JObject(fields));
      && s.properties.Props? && s.properties.m.Keys == fields.Keys
      && s.required == Some(set k | k in fields && RequiredValue(fields[k]))
      && (forall k | k in fields && !Nested(fields[k]) :: s.properties.m[k] == PrimitiveSchema(fields[k]))
  {
    assert ForInMembers(JObject(fields)) == fields;
    var t := Build(JObject(fields));
    assert t == BuildObjectTree(Empty, fields, JObject(fields));
    ObjectMembers(Empty, fields, JObject(fields));
    TopObjectGenerated(t, None);
  }

  /** A nested empty array: `uniqueItems: false`, `minItems: 0`, empty object `items`, and required. */
  lemma NestedEmptyArray(fields: map<string, Json>, k: string)
    requires k in fields && fields[k] == JArray([])
    ensures var s := JsonToSchema(JObject(fields));
      && s.properties.Props? && k in s.properties.m && k in RequiredOf(s)
      && s.properties.m[k] == Blank.(typ := Some(TArray), uniqueItems := Some(false), minItems := Some(0),
                                     items := Some(ObjectShell))
  {
    ObjectSchema(fields);
    var t := Build(JObject(fields));
    assert ForInMembers(JObject(fields)) == fields;
    assert t == BuildObjectTree(Empty, fields, JObject(fields));
    assert ChildrenOf(t)[k] == ObjectChild(fields[k], JObject(fields));
    var c := BuildArrayTree(Empty, []);
    assert ChildrenOf(t)[k] == c;
    GenerateLeaf(c, ObjectShell);
    assert Generate(c, ObjectShell) == ObjectShell;
    GeneratedLookup(t);
    TopObjectGenerated(t, None);
    assert JsonToSchema(JObject(fields)).properties.m[k] == CompileChild(c);
  }

  // ---------------------------------------------------------------------------
  // Arrays whose first element is an object

  /** `i` is the first element that is an object with member `k`. */
  predicate FirstSeenAt(elems: seq<Json>, k: string, i: int) {
    && 0 <= i < |elems| && IsObject(elems[i]) && k in elems[i].fields
    && forall j | 0 <= j < i :: !(IsObject(elems[j]) && k in elems[j].fields)
  }

  /**
   * `mergedObject` holds the union of the member names of the object
   * elements, each with the value of its first occurrence; non-object
   * elements contribute nothing.
   */
  lemma {:induction false} MergedObjectSpec(elems: seq<Json>)
    ensures forall k :: k in MergedObject(elems) <==>
              exists i | 0 <= i < |elems| :: IsObject(elems[i]) && k in elems[i].fields
    ensures forall k, i | FirstSeenAt(elems, k, i) :: MergedObject(elems)[k] == elems[i].fields[k]
    decreases |elems|
  {
    if |elems| > 0 {
      var n := |elems|;
      var prefix := elems[..n - 1];
      MergedObjectSpec(prefix);
      forall k
        ensures k in MergedObject(elems) <==>
                exists i | 0 <= i < n :: IsObject(elems[i]) && k in elems[i].fields
      {
        if k in MergedObject(elems) && k !in MergedObject(prefix) {
          assert IsObject(elems[n - 1]) && k in elems[n - 1].fields;
        }
        if exists i | 0 <= i < n :: IsObject(elems[i]) && k in elems[i].fields {
          var i :| 0 <= i < n && IsObject(elems[i]) && k in elems[i].fields;
          if i < n - 1 {
            assert prefix[i] == elems[i];
          }
        }
      }
      forall k, i | FirstSeenAt(elems, k, i)
        ensures MergedObject(elems)[k] == elems[i].fields[k]
      {
        if i < n - 1 {
          assert FirstSeenAt(prefix, k, i);
        } else {
          assert k !in MergedObject(prefix);
        }
      }
    }
  }

  /**
   * An array whose first element is an object: the item properties are the
   * keys of `mergedObject`, and a key is required exactly when its first-seen
   * value is not `null` (it need not occur in every element).
   */
  lemma ObjectArrayItems(elems: seq<Json>)
    requires |elems| > 0 && IsObject(elems[0])
    ensures JsonToSchema(JArray(elems)).items.Some?
    ensures var it := JsonToSchema(JArray(elems)).items.value;
      && it.properties.Props? && it.properties.m.Keys == MergedObject(elems).Keys
      && it.required == Some(set k | k in MergedObject(elems) && RequiredValue(MergedObject(elems)[k]))
      && (forall k | k in MergedObject(elems) && !Nested(MergedObject(elems)[k]) ::
            it.properties.m[k] == PrimitiveSchema(MergedObject(elems)[k]))
  {
    MergedObjectBounded(elems);
    var t0 := Empty.(typ := Some(TArray), children := Children(map[]), uniqueItems := Some(true), minItems := Some(1));
    var t := Build(JArray(elems));
    ObjectArrayTree(elems);
    ObjectMembers(t0, MergedObject(elems), JArray(elems));
    ArrayItemsGenerated(t, None);
    assert RequiredOf(ObjectShell) + GeneratedRequired(t) == GeneratedRequired(t);
    assert PropsOf(ObjectShell) + GeneratedProps(t) == GeneratedProps(t);
  }

  /** `buildArrayTree` hands an array led by an object to `buildObjectTree` with the merged members. */
  lemma ObjectArrayTree(elems: seq<Json>)
    requires |elems| > 0 && IsObject(elems[0])
    ensures (MergedObjectBounded(elems);
      Build(JArray(elems)) ==
      BuildObjectTree(Empty.(typ := Some(TArray), children := Children(map[]), uniqueItems := Some(true), minItems := Some(1)),
                      MergedObject(elems), JArray(elems)))
  {
  }

  /** The `items` of a compiled array tree are generated from the tree's children into an empty object shell. */
  lemma ArrayItemsGenerated(t: Tree, tag: Option<string>)
    requires t.typ == Some(TArray)
    ensures Compile(t, tag).items == Some(Generate(t, ObjectShell))
    ensures Generate(t, ObjectShell).properties == Props(GeneratedProps(t))
    ensures Generate(t, ObjectShell).required == Some(GeneratedRequired(t))
  {
    assert PropsOf(ObjectShell) + GeneratedProps(t) == GeneratedProps(t);
    assert RequiredOf(ObjectShell) + GeneratedRequired(t) == GeneratedRequired(t);
  }

  // ---------------------------------------------------------------------------
  // Arrays whose first element is not an object

  /** `buildArrayTree` fills an array not led by an object by index. */
  lemma PositionalArrayTree(elems: seq<Json>)
    requires |elems| > 0 && !IsObject(elems[0])
    ensures ChildrenOf(Build(JArray(elems))) == IndexKeyed(PositionalKids(elems))
  {
  }

  /** `generate` on an index-keyed array tree: one property and one `required` decision per element. */
  lemma PositionalGenerated(elems: seq<Json>)
    requires |elems| > 0 && !IsObject(elems[0])
    ensures OnlyIndexKeys(GeneratedProps(Build(JArray(elems))), |elems|)
    ensures forall i | 0 <= i < |elems| :: IndexKey(i) in GeneratedProps(Build(JArray(elems)))
              && GeneratedProps(Build(JArray(elems)))[IndexKey(i)] == CompileChild(PositionalChild(elems[i]))
              && (IndexKey(i) in GeneratedRequired(Build(JArray(elems))) <==> RequiredValue(elems[i]))
  {
    var t := Build(JArray(elems));
    var pc := IndexKeyed(PositionalKids(elems));
    IndexKeyedLookup(PositionalKids(elems));
    PositionalArrayTree(elems);
    GeneratedLookup(t);
    forall key | key in GeneratedProps(t)
      ensures exists i | 0 <= i < |elems| :: key == IndexKey(i)
    {
      var i :| 0 <= i < |elems| && key == IndexKey(i) && pc[key] == PositionalKids(elems)[i];
    }
    forall i | 0 <= i < |elems|
      ensures PushesRequired(pc[IndexKey(i)]) <==> RequiredValue(elems[i])
    {
      PositionalChildPushes(elems[i]);
    }
  }

  /**
   * An array whose first element is not an object: `items.properties` is
   * keyed by element index, the schema at index `i` depends on element `i`
   * alone, and index `i` is required exactly when element `i` is not `null`.
   */
  lemma PositionalItems(elems: seq<Json>)
    requires |elems| > 0 && !IsObject(elems[0])
    ensures JsonToSchema(JArray(elems)).items.Some?
    ensures JsonToSchema(JArray(elems)).items.value.properties.Props?
    ensures OnlyIndexKeys(JsonToSchema(JArray(elems)).items.value.properties.m, |elems|)
    ensures forall i | 0 <= i < |elems| ::
              var it := JsonToSchema(JArray(elems)).items.value;
              && IndexKey(i) in it.properties.m
              && it.properties.m[IndexKey(i)] == CompileChild(PositionalChild(elems[i]))
              && (IndexKey(i) in RequiredOf(it) <==> RequiredValue(elems[i]))
  {
    var t := Build(JArray(elems));
    PositionalGenerated(elems);
    ArrayItemsGenerated(t, None);
    assert JsonToSchema(JArray(elems)).items.value.properties.m == GeneratedProps(t);
  }

  /** A primitive element is compiled by `PrimitiveSchema`, whatever else the array holds. */
  lemma PositionalPrimitive(v: Json)
    requires !Nested(v)
    ensures CompileChild(PositionalChild(v)) == PrimitiveSchema(v)
  {
    PositionalChildPushes(v);
  }

  // ---------------------------------------------------------------------------
  // Shape of every generated schema

  lemma {:induction false} CompileChildShaped(c: Tree)
    ensures WellShaped(CompileChild(c)) && UnionFree(CompileChild(c))
    decreases c, 1
  {
    if c.typ == Some(TObject) || c.typ == Some(TArray) {
      GenerateShaped(c, ObjectShell);
    }
  }

  lemma {:induction false} GenerateShaped(t: Tree, node: Schema)
    requires node == ObjectShell || (node.typ == Some(TObject) && node.properties == Props(map[])
                                     && node.required == Some({}) && node.items.None? && node.anyOf.NoAlts?)
    ensures WellShaped(Generate(t, node)) && UnionFree(Generate(t, node))
    decreases t, 0
  {
    var g := Generate(t, node);
    assert PropsOf(node) == map[];
    assert g.properties.m == GeneratedProps(t);
    forall k | k in g.properties.m
      ensures WellShaped(g.properties.m[k]) && UnionFree(g.properties.m[k])
    {
      assert g.properties.m[k] == CompileChild(t.children.m[k]);
      CompileChildShaped(t.children.m[k]);
    }
  }

  /** Every schema the generator produces keeps the shape rules and contains no union. */
  lemma GeneratedShaped(json: Json, tag: Option<string>)
    ensures WellShaped(Compile(Build(json), tag)) && UnionFree(Compile(Build(json), tag))
  {
    var t := Build(json);
    GenerateShaped(t, ObjectShell);
    if t.typ == Some(TObject) {
      GenerateShaped(t, Blank.(schemaUri := tag, description := Some(""), typ := Some(TObject),
                               properties := Props(map[]), required := Some({})));
    }
  }
}
