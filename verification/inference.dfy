/**
 * What `jsonToSchema` computes in background.js (and, with a `$schema` tag,
 * in good-request-tracking/background.js): the classifier `utils.getType`,
 * the intermediate tree the `AST` builders fill, and the schema `Compiler`
 * generates from it, written as functions over values. The classes in
 * generator.dfy build the same tree and schema step by step and are proved
 * equal to these definitions.
 */
module Inference {
  import opened Wrappers
  import opened Text
  import opened Json
  import opened Schemas

  // ---------------------------------------------------------------------------
  // utils: the classifier

  /** `null !== v && typeof v === 'object' && !isArray(v)` */
  predicate IsObject(v: Json) { v.JObject? }
  /** `v instanceof Array` */
  predicate IsArray(v: Json) { v.JArray? }
  predicate IsNull(v: Json) { v.JNull? }
  predicate IsBoolean(v: Json) { v.JBool? }
  predicate IsString(v: Json) { v.JString? }
  /**
   * `!isArray(v) && v - parseFloat(v) + 1 >= 0`. The classifier only asks this
   * of a value that is none of the above, and among JSON values the coercion
   * test then holds exactly for numbers.
   */
  predicate IsNumber(v: Json) { !IsArray(v) && v.JNumber? }

  /**
   * `utils.getType`: the predicates are tried in the order object, array,
   * null, boolean, string, number; `null` yields no type at all.
   */
  function GetType(v: Json): (r: Option<SchemaType>)
    ensures r.None? <==> v.JNull?
    ensures r == Some(TObject) <==> v.JObject?
    ensures r == Some(TArray) <==> v.JArray?
    ensures r == Some(TString) <==> v.JString?
    ensures r == Some(TNumber) <==> v.JNumber?
    ensures r == Some(TBoolean) <==> v.JBool?
    ensures r != Some(TNull)
  {
    if IsObject(v) then Some(TObject)
    else if IsArray(v) then Some(TArray)
    else if IsNull(v) then None
    else if IsBoolean(v) then Some(TBoolean)
    else if IsString(v) then Some(TString)
    else if IsNumber(v) then Some(TNumber)
    else None
  }

  // ---------------------------------------------------------------------------
  // The AST: one node per JSON value, as the builders leave it

  datatype Children = NoChildren | Children(m: map<string, Tree>)

  datatype Tree = Tree(
    typ: Option<SchemaType>,
    children: Children,
    uniqueItems: Option<bool>,
    minItems: Option<nat>,
    minLength: Option<nat>,
    required: bool)

  /** `{}`: a child node before its builder runs. */
  const Empty: Tree := Tree(None, NoChildren, None, None, None, false)

  function ChildrenOf(t: Tree): map<string, Tree> {
    if t.children.Children? then t.children.m else map[]
  }

  /** `AST.prototype.buildPrimitive` */
  function BuildPrimitive(t: Tree, node: Json): Tree {
    var ty := GetType(node);
    var typed := t.(typ := ty);
    var sized := if ty == Some(TString) then typed.(minLength := Some(if |node.s| > 0 then 1 else 0)) else typed;
    if !node.JNull? then sized.(required := true) else sized
  }

  /**
   * `AST.prototype.buildObjectTree`: one child per enumerable key of `fields`.
   * `bound` is a proof device only: a value the nested children are part of.
   */
  function BuildObjectTree(t: Tree, fields: map<string, Json>, ghost bound: Json): (r: Tree)
    requires forall k | k in fields && Nested(fields[k]) :: fields[k] < bound
    ensures r.typ == if t.typ.Some? then t.typ else Some(TObject)
    ensures ChildrenOf(r).Keys == ChildrenOf(t).Keys + fields.Keys
    decreases bound, 1
  {
    t.(typ := if t.typ.Some? then t.typ else Some(TObject),
       children := Children(ChildrenOf(t) + map k | k in fields :: ObjectChild(fields[k], bound)))
  }

  /** The node `buildObjectTree` creates for a member value `v`. */
  function ObjectChild(v: Json, ghost bound: Json): Tree
    requires Nested(v) ==> v < bound
    decreases bound, 0
  {
    if IsArray(v) then BuildArrayTree(Empty, v.elems)
    else if IsObject(v) then BuildObjectTree(Empty, v.fields, v)
    else BuildPrimitive(Empty, v)
  }

  /** `AST.prototype.buildArrayTree` */
  function BuildArrayTree(t: Tree, elems: seq<Json>): (r: Tree)
    ensures r.typ == Some(TArray) && r.children.Children?
    decreases JArray(elems), 2
  {
    var t0 := t.(typ := Some(TArray), children := Children(map[]));
    if |elems| == 0 then
      t0.(uniqueItems := Some(false), minItems := Some(0))
    else if IsObject(elems[0]) then
      MergedObjectBounded(elems);
      BuildObjectTree(t0.(uniqueItems := Some(true), minItems := Some(1)), MergedObject(elems), JArray(elems))
    else
      t0.(children := Children(IndexKeyed(PositionalKids(elems))))
  }

  /** The nodes the index loop of `buildArrayTree` creates, in element order. */
  function PositionalKids(elems: seq<Json>): (kids: seq<Tree>)
    ensures |kids| == |elems|
    decreases JArray(elems), 1
  {
    seq(|elems|, i requires 0 <= i < |elems| => PositionalChild(elems[i]))
  }

  /**
   * The node the index loop of `buildArrayTree` creates for element `v`: an
   * object or array element is pre-typed (and marked required when it is not
   * empty) before its own builder runs.
   */
  function PositionalChild(v: Json): Tree
    decreases v, 3
  {
    if IsObject(v) then BuildObjectTree(Empty.(typ := Some(TObject), required := |v.fields| > 0), v.fields, v)
    else if IsArray(v) then
      BuildArrayTree(Empty.(typ := Some(TArray), uniqueItems := Some(true), required := |v.elems| > 0), v.elems)
    else BuildPrimitive(Empty, v)
  }

  /** The union of `extra` into `m` in which keys already in `m` keep their value. */
  function AddMissing(m: map<string, Json>, extra: map<string, Json>): (r: map<string, Json>)
    ensures r.Keys == m.Keys + extra.Keys
    ensures forall k | k in r :: r[k] == if k in m then m[k] else extra[k]
  {
    m + (extra - m.Keys)
  }

  /** `mergedObject` after the key-union loop of `buildArrayTree` has seen `elems`. */
  function MergedObject(elems: seq<Json>): map<string, Json>
    decreases |elems|
  {
    if |elems| == 0 then map[]
    else
      var prev := MergedObject(elems[..|elems| - 1]);
      var last := elems[|elems| - 1];
      if IsObject(last) then AddMissing(prev, last.fields) else prev
  }

  /** Each value in `mergedObject` is a member value of some object element. */
  lemma {:induction false} MergedObjectFrom(elems: seq<Json>, k: string)
    requires k in MergedObject(elems)
    ensures exists i | 0 <= i < |elems| :: IsObject(elems[i]) && k in elems[i].fields
                                          && MergedObject(elems)[k] == elems[i].fields[k]
    decreases |elems|
  {
    var n := |elems|;
    var prefix := elems[..n - 1];
    var last := elems[n - 1];
    if k in MergedObject(prefix) {
      MergedObjectFrom(prefix, k);
      var i :| 0 <= i < |prefix| && IsObject(prefix[i]) && k in prefix[i].fields
              && MergedObject(prefix)[k] == prefix[i].fields[k];
      assert prefix[i] == elems[i];
    } else {
      assert IsObject(last) && k in last.fields;
    }
  }

  lemma MergedObjectBounded(elems: seq<Json>)
    ensures forall k | k in MergedObject(elems) :: MergedObject(elems)[k] < JArray(elems)
  {
    forall k | k in MergedObject(elems)
      ensures MergedObject(elems)[k] < JArray(elems)
    {
      MergedObjectFrom(elems, k);
      var i :| 0 <= i < |elems| && IsObject(elems[i]) && k in elems[i].fields
              && MergedObject(elems)[k] == elems[i].fields[k];
      assert elems[i].fields[k] < elems[i];
    }
  }

  /** The members `for (var i in node)` enumerates on a non-array top-level value. */
  function ForInMembers(v: Json): (r: map<string, Json>)
    ensures forall k | k in r && Nested(r[k]) :: r[k] < v
  {
    match v
    case JObject(fields) => fields
    case JString(s) => CharMembers(s)
    case _ => map[]
  }

  /** A string enumerates its characters under `for…in`, keyed "0", "1", … (one per `char` of the model). */
  function CharMembers(s: string): (r: map<string, Json>)
    ensures forall k | k in r :: r[k].JString? && |r[k].s| == 1
  {
    IndexKeyed(CharValues(s))
  }

  /** The characters of `s` as one-character strings, one per `char`. */
  function CharValues(s: string): (vals: seq<Json>)
    ensures |vals| == |s| && forall i | 0 <= i < |s| :: vals[i] == JString([s[i]])
  {
    seq(|s|, i requires 0 <= i < |s| => JString([s[i]]))
  }

  /** `AST.prototype.build`, starting from the empty tree `this.tree = {}`. */
  function Build(json: Json): Tree {
    if json.JArray? then BuildArrayTree(Empty, json.elems)
    else BuildObjectTree(Empty, ForInMembers(json), json)
  }

  // ---------------------------------------------------------------------------
  // The Compiler

  /** `{type: 'object', properties: {}, required: []}` before `generate` fills it. */
  const ObjectShell: Schema := Blank.(typ := Some(TObject), properties := Props(map[]), required := Some({}))

  /** `generate(t, node.properties, node)`: fill the properties and required list of `node`. */
  function Generate(t: Tree, node: Schema): Schema
    decreases t, 2
  {
    node.(properties := Props(PropsOf(node) + GeneratedProps(t)),
          required := Some(RequiredOf(node) + GeneratedRequired(t)))
  }

  /** The properties `generate` writes: one compiled child per child of `t`. */
  function GeneratedProps(t: Tree): map<string, Schema>
    decreases t, 1
  {
    map i | i in ChildrenOf(t) :: CompileChild(t.children.m[i])
  }

  /**
   * The names `generate` pushes into the parent's `required`: every object or
   * array child, and every other child whose node is marked required.
   */
  function GeneratedRequired(t: Tree): set<string> {
    set i | i in ChildrenOf(t) && PushesRequired(ChildrenOf(t)[i])
  }

  predicate PushesRequired(c: Tree) {
    c.typ == Some(TObject) || c.typ == Some(TArray) || c.required
  }

  /** The schema `generate` writes for one child node. */
  function CompileChild(c: Tree): Schema
    decreases c, 3
  {
    if c.typ == Some(TObject) then
      Generate(c, ObjectShell)
    else if c.typ == Some(TArray) then
      Blank.(typ := Some(TArray), uniqueItems := c.uniqueItems, minItems := c.minItems,
             items := Some(Generate(c, ObjectShell)))
    else
      Blank.(typ := Some(if c.typ.Some? then c.typ.value else TString),
             minLength := if c.minLength.Some? && c.minLength.value != 0 then c.minLength else None)
  }

  /** `Compiler.prototype.compile`, with the `$schema` value of the variant (`None` in background.js). */
  function Compile(t: Tree, tag: Option<string>): Schema {
    if t.typ == Some(TObject) then
      Generate(t, Blank.(schemaUri := tag, description := Some(""), typ := Some(TObject),
                         properties := Props(map[]), required := Some({})))
    else
      Blank.(typ := Some(TArray), schemaUri := tag, description := Some(""), minItems := Some(1),
             uniqueItems := Some(true), items := Some(Generate(t, ObjectShell)))
  }

  /** The `$schema` value good-request-tracking/background.js stamps on its schemas. */
  const Draft04: string := "http://json-schema.org/draft-04/schema#"

  /** `jsonToSchema` in background.js. */
  function JsonToSchema(json: Json): Schema {
    Compile(Build(json), None)
  }

  /** `jsonToSchema` in good-request-tracking/background.js. */
  function JsonToSchemaTagged(json: Json): Schema {
    Compile(Build(json), Some(Draft04))
  }
}
