/**
 * `mergeSchemas` of background.js: folds a newly inferred schema into the one
 * already stored for an endpoint.
 *
 * The union branch of the source requires both operands to carry a `type`,
 * but the union nodes it builds carry none, so a stored union never reaches
 * the branch again: merging a union with anything else falls through to the
 * last branch and the union is dropped (see `UnionOperandDiscarded`).
 * `MergeNodes` therefore takes a `Mode`: `AsWritten` is the source's
 * behaviour, and `UnionAware` is the corrected merge, which lets a union
 * operand take the union branch so that its alternatives are kept and
 * flattened, as the branch's own flattening of `anyOf` operands intends.
 */
module SchemaMerge {
  import opened Wrappers
  import opened Schemas

  datatype Mode = AsWritten | UnionAware

  /** `toArray`: a union's alternatives, or the schema itself. */
  function Alternatives(s: Schema): seq<Schema> {
    if IsUnion(s) then s.anyOf.alts else [s]
  }

  /** Whether `mergeSchemas(a, b)` builds `{anyOf: …}`. */
  predicate TakesUnionBranch(mode: Mode, a: Schema, b: Schema) {
    match mode
    case AsWritten => a.typ.Some? && b.typ.Some? && a.typ != b.typ
    case UnionAware =>
      && (a.typ.Some? || IsUnion(a)) && (b.typ.Some? || IsUnion(b))
      && (IsUnion(a) || IsUnion(b) || a.typ != b.typ)
  }

  /** `mergeSchemas(a, b)` for two present schemas. */
  function MergeNodes(mode: Mode, a: Schema, b: Schema): Schema
    decreases a, 1
  {
    if TakesUnionBranch(mode, a, b) then
      Blank.(anyOf := AnyOf(Alternatives(a) + Alternatives(b)))
    else if a.typ == Some(TObject) && b.typ == Some(TObject) then
      MergeObjects(mode, a, b)
    else if a.typ == Some(TArray) && b.typ == Some(TArray) then
      Blank.(typ := Some(TArray),
             items := if a.items.None? then b.items
                      else if b.items.None? then a.items
                      else Some(MergeNodes(mode, a.items.value, b.items.value)))
    else if a.properties.Props? || a.items.Some? then a
    else b
  }

  /** The object branch: every property of either side, and the names both sides require. */
  function MergeObjects(mode: Mode, a: Schema, b: Schema): Schema
    decreases a, 0
  {
    var pa := if a.properties.Props? then a.properties.m else map[];
    var pb := PropsOf(b);
    var keys := pa.Keys + pb.Keys;
    var props := map k | k in keys ::
      if k in pa && k in pb then MergeNodes(mode, pa[k], pb[k])
      else if k in pa then pa[k]
      else pb[k];
    var req := set k | k in keys && k in RequiredOf(a) && k in RequiredOf(b);
    Blank.(typ := Some(TObject), properties := Props(props), required := if req == {} then None else Some(req))
  }

  /** `mergeSchemas(a, b)`, where a missing operand is `undefined`. */
  function MergeSchemas(mode: Mode, a: Option<Schema>, b: Option<Schema>): (r: Option<Schema>)
    ensures a.None? ==> r == b
    ensures b.None? ==> r == a
    ensures r.None? <==> a.None? && b.None?
  {
    if a.None? then b
    else if b.None? then a
    else Some(MergeNodes(mode, a.value, b.value))
  }

  // ---------------------------------------------------------------------------
  // The branches

  /**
   * Merging two objects: the union of the property names, shared names
   * merged recursively and the others carried over, and `required` exactly
   * the names both sides require, omitted when there are none.
   */
  lemma MergeObjectsSpec(mode: Mode, a: Schema, b: Schema)
    requires a.typ == Some(TObject) && b.typ == Some(TObject) && !IsUnion(a) && !IsUnion(b)
    ensures var r := MergeNodes(mode, a, b);
      && r.typ == Some(TObject) && r.properties.Props? && !IsUnion(r)
      && PropsOf(r).Keys == PropsOf(a).Keys + PropsOf(b).Keys
      && (forall k | k in PropsOf(a) && k in PropsOf(b) :: PropsOf(r)[k] == MergeNodes(mode, PropsOf(a)[k], PropsOf(b)[k]))
      && (forall k | k in PropsOf(a) && k !in PropsOf(b) :: PropsOf(r)[k] == PropsOf(a)[k])
      && (forall k | k !in PropsOf(a) && k in PropsOf(b) :: PropsOf(r)[k] == PropsOf(b)[k])
      && RequiredOf(r) == PropsOf(r).Keys * RequiredOf(a) * RequiredOf(b)
      && (r.required.Some? <==> RequiredOf(r) != {})
  {
  }

  /** The merged `required` names only declared properties, each required on both sides. */
  lemma MergedRequiredBounds(mode: Mode, a: Schema, b: Schema)
    requires a.typ == Some(TObject) && b.typ == Some(TObject) && !IsUnion(a) && !IsUnion(b)
    ensures var r := MergeNodes(mode, a, b);
      RequiredOf(r) <= PropsOf(r).Keys && RequiredOf(r) <= RequiredOf(a) && RequiredOf(r) <= RequiredOf(b)
  {
    MergeObjectsSpec(mode, a, b);
  }

  /** The property names and `required` of a merged object do not depend on the order of the operands. */
  lemma MergeObjectsSymmetric(mode: Mode, a: Schema, b: Schema)
    requires a.typ == Some(TObject) && b.typ == Some(TObject) && !IsUnion(a) && !IsUnion(b)
    ensures PropsOf(MergeNodes(mode, a, b)).Keys == PropsOf(MergeNodes(mode, b, a)).Keys
    ensures MergeNodes(mode, a, b).required == MergeNodes(mode, b, a).required
  {
    MergeObjectsSpec(mode, a, b);
    MergeObjectsSpec(mode, b, a);
    var r1, r2 := MergeNodes(mode, a, b), MergeNodes(mode, b, a);
    assert RequiredOf(r1) == RequiredOf(r2);
  }

  /**
   * Two operands of different types become one union whose alternatives are
   * those of the left operand followed by those of the right; when neither
   * operand's alternatives are unions, neither are the result's.
   */
  lemma UnionFlattened(mode: Mode, a: Schema, b: Schema)
    requires TakesUnionBranch(mode, a, b)
    ensures var r := MergeNodes(mode, a, b);
      && IsUnion(r) && r.typ.None? && r.properties.NoProps? && r.items.None?
      && r.anyOf.alts == Alternatives(a) + Alternatives(b)
      && ((forall s | s in Alternatives(a) :: !IsUnion(s)) && (forall s | s in Alternatives(b) :: !IsUnion(s))
          ==> forall s | s in r.anyOf.alts :: !IsUnion(s))
  {
  }

  /** Two typed operands of different types are both kept, in order, as the union's alternatives. */
  lemma DifferentTypesUnion(mode: Mode, a: Schema, b: Schema)
    requires a.typ.Some? && b.typ.Some? && a.typ != b.typ && !IsUnion(a) && !IsUnion(b)
    ensures MergeNodes(mode, a, b) == Blank.(anyOf := AnyOf([a, b]))
  {
    assert TakesUnionBranch(mode, a, b);
    assert Alternatives(a) + Alternatives(b) == [a, b];
  }

  /** Two arrays merge their `items` and nothing else: `minItems` and `uniqueItems` are dropped. */
  lemma MergeArrays(mode: Mode, a: Schema, b: Schema)
    requires a.typ == Some(TArray) && b.typ == Some(TArray) && !IsUnion(a) && !IsUnion(b)
    ensures var r := MergeNodes(mode, a, b);
      && r.typ == Some(TArray) && r.items == MergeSchemas(mode, a.items, b.items)
      && r.minItems.None? && r.uniqueItems.None? && r.properties.NoProps? && r.required.None?
  {
  }

  /**
   * As written, an operand without a `type` never leads to a union: the
   * result is the left operand when it has `properties` or `items`, and the
   * right one otherwise.
   */
  lemma UntypedFallsThrough(a: Schema, b: Schema)
    requires a.typ.None? || b.typ.None?
    ensures MergeNodes(AsWritten, a, b) == if a.properties.Props? || a.items.Some? then a else b
  {
  }

  /** Two operands of the same scalar type: the newer (right) one wins. */
  lemma SameScalarTypeKeepsNewer(mode: Mode, a: Schema, b: Schema)
    requires a.typ == b.typ && a.typ.Some? && a.typ != Some(TObject) && a.typ != Some(TArray)
    requires !IsUnion(a) && !IsUnion(b) && a.properties.NoProps? && a.items.None?
    ensures MergeNodes(mode, a, b) == b
  {
  }

  // ---------------------------------------------------------------------------
  // The union operand, as written and corrected

  /**
   * As written, a stored union is dropped by the next merge: the result is
   * the new schema, whatever it is.
   */
  lemma UnionOperandDiscarded(a: Schema, b: Schema)
    requires IsUnion(a) && a.typ.None? && a.properties.NoProps? && a.items.None?
    ensures MergeNodes(AsWritten, a, b) == b
  {
  }

  /**
   * Corrected: a union absorbs the next typed or union schema, keeping all of
   * its alternatives and appending the new ones, flattened.
   */
  lemma UnionOperandKept(a: Schema, b: Schema)
    requires IsUnion(a) && (b.typ.Some? || IsUnion(b))
    ensures var r := MergeNodes(UnionAware, a, b);
      && IsUnion(r) && r.anyOf.alts == a.anyOf.alts + Alternatives(b)
      && |r.anyOf.alts| == |a.anyOf.alts| + |Alternatives(b)|
      && (forall s | s in a.anyOf.alts :: s in r.anyOf.alts)
  {
  }

  /** On schemas containing no union the corrected merge is the source's merge. */
  lemma {:induction false} CorrectionAgreesWithoutUnions(a: Schema, b: Schema)
    requires UnionFree(a) && UnionFree(b)
    ensures MergeNodes(UnionAware, a, b) == MergeNodes(AsWritten, a, b)
    decreases a
  {
    if a.typ == Some(TObject) && b.typ == Some(TObject) {
      var pa, pb := PropsOf(a), PropsOf(b);
      forall k | k in pa && k in pb
        ensures MergeNodes(UnionAware, pa[k], pb[k]) == MergeNodes(AsWritten, pa[k], pb[k])
      {
        CorrectionAgreesWithoutUnions(pa[k], pb[k]);
      }
      var m1, m2 := MergeObjects(UnionAware, a, b), MergeObjects(AsWritten, a, b);
      assert m1.properties.m == m2.properties.m;
      assert m1 == m2;
    } else if a.typ == Some(TArray) && b.typ == Some(TArray) && a.items.Some? && b.items.Some? {
      CorrectionAgreesWithoutUnions(a.items.value, b.items.value);
    }
  }

  /**
   * As written the merge depends on operand order: a stored union gives way
   * to a plain typed schema, while that schema stored first gives way to
   * the union.
   */
  lemma MergeOrderMatters(u: Schema, t: Schema)
    requires IsUnion(u) && u.typ.None? && u.properties.NoProps? && u.items.None?
    requires t.typ.Some? && t.properties.NoProps? && t.items.None?
    ensures MergeNodes(AsWritten, u, t) == t
    ensures MergeNodes(AsWritten, t, u) == u
    ensures MergeNodes(AsWritten, u, t) != MergeNodes(AsWritten, t, u)
  {
  }

  // ---------------------------------------------------------------------------
  // Merging a schema with itself

  /**
   * Structural equivalence: the same `type`, `anyOf`, property names,
   * required names and presence of `items`, and recursively the same
   * structure for `items` and for every property.
   */
  predicate SameShape(a: Schema, b: Schema)
    decreases a, 1
  {
    && a.typ == b.typ
    && a.anyOf == b.anyOf
    && PropsOf(a).Keys == PropsOf(b).Keys
    && RequiredOf(a) == RequiredOf(b)
    && a.items.Some? == b.items.Some?
    && (a.items.Some? && b.items.Some? ==> SameShape(a.items.value, b.items.value))
    && (a.properties.Props? ==> PropsSameShape(a.properties.m, PropsOf(b), a))
  }

  predicate PropsSameShape(ma: map<string, Schema>, mb: map<string, Schema>, ghost owner: Schema)
    requires forall k | k in ma :: ma[k] < owner
    decreases owner, 0
  {
    forall k | k in ma && k in mb :: SameShape(ma[k], mb[k])
  }

  /** Every schema has its own shape. */
  lemma {:induction false} SameShapeReflexive(s: Schema)
    ensures SameShape(s, s)
    decreases s
  {
    if s.items.Some? {
      SameShapeReflexive(s.items.value);
    }
    if s.properties.Props? {
      forall k | k in s.properties.m
        ensures SameShape(s.properties.m[k], s.properties.m[k])
      {
        SameShapeReflexive(s.properties.m[k]);
      }
    }
  }

  /**
   * Merging a well-shaped schema with itself as written keeps its structure:
   * the same types, property names and required names throughout. (The
   * merge is not the identity: it drops `minItems`, `uniqueItems`,
   * `description` and `$schema` on the way.)
   */
  lemma {:induction false} MergeSelfShape(s: Schema)
    requires WellShaped(s)
    ensures SameShape(MergeNodes(AsWritten, s, s), s)
    decreases s
  {
    var r := MergeNodes(AsWritten, s, s);
    if s.typ == Some(TObject) {
      var p := PropsOf(s);
      assert r == MergeObjects(AsWritten, s, s);
      assert PropsOf(r).Keys == p.Keys;
      forall k | k in PropsOf(r)
        ensures SameShape(PropsOf(r)[k], p[k])
      {
        assert PropsOf(r)[k] == MergeNodes(AsWritten, p[k], p[k]);
        MergeSelfShape(p[k]);
      }
      assert RequiredOf(r) == RequiredOf(s);
    } else if s.typ == Some(TArray) {
      if s.items.Some? {
        MergeSelfShape(s.items.value);
      }
    } else {
      assert r == s;
      SameShapeReflexive(s);
    }
  }

  /** On a union-free schema the self-merge keeps the structure in either mode. */
  lemma UnionFreeMergeSelfShape(mode: Mode, s: Schema)
    requires WellShaped(s) && UnionFree(s)
    ensures SameShape(MergeNodes(mode, s, s), s)
  {
    CorrectionAgreesWithoutUnions(s, s);
    MergeSelfShape(s);
  }

  // ---------------------------------------------------------------------------
  // Shape

  /** Merging two well-shaped schemas gives a well-shaped schema, in either mode. */
  lemma {:induction false} MergeKeepsShape(mode: Mode, a: Schema, b: Schema)
    requires WellShaped(a) && WellShaped(b)
    ensures WellShaped(MergeNodes(mode, a, b))
    decreases a
  {
    var r := MergeNodes(mode, a, b);
    if TakesUnionBranch(mode, a, b) {
      var alts := Alternatives(a) + Alternatives(b);
      forall i | 0 <= i < |alts|
        ensures WellShaped(alts[i])
      {
        if i < |Alternatives(a)| {
          assert alts[i] == Alternatives(a)[i];
        } else {
          assert alts[i] == Alternatives(b)[i - |Alternatives(a)|];
        }
      }
    } else if a.typ == Some(TObject) && b.typ == Some(TObject) {
      var pa, pb := PropsOf(a), PropsOf(b);
      forall k | k in pa && k in pb
        ensures WellShaped(MergeNodes(mode, pa[k], pb[k]))
      {
        MergeKeepsShape(mode, pa[k], pb[k]);
      }
      assert r == MergeObjects(mode, a, b);
      forall k | k in r.properties.m
        ensures WellShaped(r.properties.m[k])
      {
        if k in pa && k in pb {
        } else if k in pa {
          assert r.properties.m[k] == pa[k];
        } else {
          assert r.properties.m[k] == pb[k];
        }
      }
    } else if a.typ == Some(TArray) && b.typ == Some(TArray) && a.items.Some? && b.items.Some? {
      MergeKeepsShape(mode, a.items.value, b.items.value);
    }
  }

  lemma MergeSchemasKeepsShape(mode: Mode, a: Option<Schema>, b: Option<Schema>)
    requires a.Some? ==> WellShaped(a.value)
    requires b.Some? ==> WellShaped(b.value)
    ensures var r := MergeSchemas(mode, a, b); r.Some? ==> WellShaped(r.value)
  {
    if a.Some? && b.Some? {
      MergeKeepsShape(mode, a.value, b.value);
    }
  }
}
