/**
 * The `AST` and `Compiler` classes of background.js (and of
 * good-request-tracking/background.js) as the source runs them: the builders
 * fill a node's children one key or one index at a time, and `generate`
 * writes one property and at most one `required` name per child. Each method
 * is proved to compute the definition of the same name in inference.dfy.
 *
 * A node under construction is a value: where the source creates the child
 * object `{}` and lets the builder fill it, the builder here returns the
 * filled node, which the caller stores.
 */
module Generator {
  import opened Wrappers
  import opened Text
  import opened Json
  import opened Schemas
  import Inference
  import InferenceFacts
  import opened Collections

  class Ast {
    /** `this.tree` */
    var tree: Inference.Tree

    constructor()
      ensures tree == Inference.Empty
    {
      tree := Inference.Empty;
    }

    /** `AST.prototype.build` */
    method Build(json: Json)
      requires tree == Inference.Empty
      modifies this
      ensures tree == Inference.Build(json)
    {
      if json.JArray? {
        tree := BuildArrayTree(tree, json.elems);
      } else {
        var members := ForInMembers(json);
        tree := BuildObjectTree(tree, members, json);
      }
    }

    /** The members `for (var i in node)` enumerates; a string enumerates its characters. */
    static method ForInMembers(json: Json) returns (members: map<string, Json>)
      requires !json.JArray?
      ensures members == Inference.ForInMembers(json)
      ensures forall k | k in members && Nested(members[k]) :: members[k] < json
    {
      match json {
        case JObject(fields) =>
          members := fields;
        case JString(s) =>
          members := CharMembers(s);
        case _ =>
          members := map[];
      }
    }

    /** The loop that enumerates a string: one member per character, under its index. */
    static method CharMembers(s: string) returns (members: map<string, Json>)
      ensures members == IndexKeyed(Inference.CharValues(s))
    {
      ghost var chars := Inference.CharValues(s);
      members := map[];
      var i := 0;
      while i < |s|
        invariant 0 <= i <= |s|
        invariant members == IndexKeyed(chars[..i])
      {
        IndexKeyedStep(chars, i);
        members := members[IndexKey(i) := JString([s[i]])];
        i := i + 1;
      }
      assert chars[..|s|] == chars;
    }

    /** `AST.prototype.buildObjectTree` */
    method BuildObjectTree(t: Inference.Tree, fields: map<string, Json>, ghost bound: Json) returns (r: Inference.Tree)
      requires forall k | k in fields && Nested(fields[k]) :: fields[k] < bound
      ensures r == Inference.BuildObjectTree(t, fields, bound)
      decreases bound, 1
    {
      ghost var target := map k | k in fields :: Inference.ObjectChild(fields[k], bound);
      var children := Inference.ChildrenOf(t);
      var todo := fields.Keys;
      ghost var done: set<string> := {};
      RestrictNone(target);
      assert children == Inference.ChildrenOf(t) + Restrict(target, done);
      while todo != {}
        invariant todo <= fields.Keys && done == fields.Keys - todo
        invariant children == Inference.ChildrenOf(t) + Restrict(target, done)
        decreases todo
      {
        var k :| k in todo;
        var child := ObjectChild(fields[k], bound);
        RestrictStep(target, done, k);
        UnionUpdate(Inference.ChildrenOf(t), Restrict(target, done), k, child);
        children := children[k := child];
        todo := todo - {k};
        done := done + {k};
      }
      RestrictAll(target, done);
      r := t.(typ := if t.typ.Some? then t.typ else Some(TObject), children := Inference.Children(children));
    }

    /** The branch of `buildObjectTree` that builds one member value into a fresh node. */
    method ObjectChild(v: Json, ghost bound: Json) returns (c: Inference.Tree)
      requires Nested(v) ==> v < bound
      ensures c == Inference.ObjectChild(v, bound)
      decreases bound, 0
    {
      if Inference.IsArray(v) {
        c := BuildArrayTree(Inference.Empty, v.elems);
      } else if Inference.IsObject(v) {
        c := BuildObjectTree(Inference.Empty, v.fields, v);
      } else {
        c := Inference.BuildPrimitive(Inference.Empty, v);
      }
    }

    /** `AST.prototype.buildArrayTree` */
    method BuildArrayTree(t: Inference.Tree, elems: seq<Json>) returns (r: Inference.Tree)
      ensures r == Inference.BuildArrayTree(t, elems)
      decreases JArray(elems), 2
    {
      r := t.(typ := Some(TArray), children := Inference.Children(map[]));
      if |elems| == 0 {
        r := r.(uniqueItems := Some(false), minItems := Some(0));
        return;
      }
      if Inference.IsObject(elems[0]) {
        r := r.(uniqueItems := Some(true), minItems := Some(1));
        var merged := MergeObjects(elems);
        Inference.MergedObjectBounded(elems);
        r := BuildObjectTree(r, merged, JArray(elems));
        return;
      }
      var children := PositionalChildren(elems);
      r := r.(children := Inference.Children(children));
    }

    /** The index loop of `buildArrayTree`: one child per element, under its index. */
    method PositionalChildren(elems: seq<Json>) returns (children: map<string, Inference.Tree>)
      ensures children == IndexKeyed(Inference.PositionalKids(elems))
      decreases JArray(elems), 1
    {
      ghost var kids := Inference.PositionalKids(elems);
      children := map[];
      var i := 0;
      while i < |elems|
        invariant 0 <= i <= |elems|
        invariant children == IndexKeyed(kids[..i])
      {
        var c := PositionalChild(elems[i]);
        assert c == kids[i];
        IndexKeyedStep(kids, i);
        children := children[IndexKey(i) := c];
        i := i + 1;
      }
      assert kids[..|elems|] == kids;
    }

    /** The body of the index loop of `buildArrayTree` for one element. */
    method PositionalChild(v: Json) returns (c: Inference.Tree)
      ensures c == Inference.PositionalChild(v)
      decreases v, 3
    {
      if Inference.IsObject(v) {
        c := BuildObjectTree(Inference.Empty.(typ := Some(TObject), required := |v.fields| > 0), v.fields, v);
      } else if Inference.IsArray(v) {
        c := BuildArrayTree(Inference.Empty.(typ := Some(TArray), uniqueItems := Some(true), required := |v.elems| > 0), v.elems);
      } else {
        c := Inference.BuildPrimitive(Inference.Empty, v);
      }
    }

    /** The `mergedObject` loop of `buildArrayTree`: first-seen value per key over the object elements. */
    static method MergeObjects(elems: seq<Json>) returns (merged: map<string, Json>)
      ensures merged == Inference.MergedObject(elems)
    {
      merged := map[];
      var idx := 0;
      while idx < |elems|
        invariant 0 <= idx <= |elems|
        invariant merged == Inference.MergedObject(elems[..idx])
      {
        assert elems[..idx + 1][..idx] == elems[..idx];
        if Inference.IsObject(elems[idx]) {
          var fields := elems[idx].fields;
          ghost var prev := merged;
          var todo := fields.Keys;
          while todo != {}
            invariant todo <= fields.Keys
            invariant merged == Inference.AddMissing(prev, fields - todo)
            decreases todo
          {
            var key :| key in todo;
            if key !in merged {
              merged := merged[key := fields[key]];
            }
            todo := todo - {key};
          }
          assert fields - {} == fields;
        }
        idx := idx + 1;
      }
      assert elems[..|elems|] == elems;
    }
  }

  class Compiler {
    /** The `$schema` value this variant stamps (`None` in background.js). */
    const tag: Option<string>
    /** `this.schema` */
    var schema: Schema

    constructor(tag: Option<string>)
      ensures this.tag == tag && schema == Blank
    {
      this.tag := tag;
      schema := Blank;
    }

    /** `Compiler.prototype.compile` */
    method Compile(t: Inference.Tree)
      modifies this
      ensures schema == Inference.Compile(t, tag)
    {
      if t.typ == Some(TObject) {
        schema := Blank.(schemaUri := tag, description := Some(""), typ := Some(TObject),
                         properties := Props(map[]), required := Some({}));
        schema := Generate(t, schema);
      } else {
        var items := Generate(t, Inference.ObjectShell);
        schema := Blank.(typ := Some(TArray), schemaUri := tag, description := Some(""), minItems := Some(1),
                         uniqueItems := Some(true), items := Some(items));
      }
    }

    /**
     * `Compiler.prototype.generate`: writes one property per child of `t` into
     * `node` and pushes the names of object, array and required children
     * into `node`'s `required`.
     */
    static method Generate(t: Inference.Tree, node: Schema) returns (r: Schema)
      ensures r == Inference.Generate(t, node)
      decreases t, 0
    {
      var children := Inference.ChildrenOf(t);
      ghost var target := Inference.GeneratedProps(t);
      ghost var pushed := Inference.GeneratedRequired(t);
      InferenceFacts.GeneratedLookup(t);
      var props := PropsOf(node);
      var required := RequiredOf(node);
      var todo := children.Keys;
      ghost var done: set<string> := {};
      RestrictNone(target);
      assert props == PropsOf(node) + Restrict(target, done);
      while todo != {}
        invariant todo <= children.Keys && done == children.Keys - todo
        invariant props == PropsOf(node) + Restrict(target, done)
        invariant required == RequiredOf(node) + pushed * done
        decreases todo
      {
        var i :| i in todo;
        var child := children[i];
        var compiled, push := CompileChild(child);
        assert compiled == target[i];
        assert push <==> i in pushed;
        RestrictStep(target, done, i);
        UnionUpdate(PropsOf(node), Restrict(target, done), i, compiled);
        props := props[i := compiled];
        if push {
          required := required + {i};
        }
        todo := todo - {i};
        done := done + {i};
      }
      RestrictAll(target, done);
      assert pushed * done == pushed;
      r := node.(properties := Props(props), required := Some(required));
    }

    /**
     * The body of `generate`'s loop for one child: the schema written for
     * it, and whether its name is pushed into `required`.
     */
    static method CompileChild(child: Inference.Tree) returns (compiled: Schema, push: bool)
      ensures compiled == Inference.CompileChild(child)
      ensures push == Inference.PushesRequired(child)
      decreases child, 1
    {
      if child.typ == Some(TObject) {
        push := true;
        compiled := Generate(child, Inference.ObjectShell);
      } else if child.typ == Some(TArray) {
        push := true;
        var items := Generate(child, Inference.ObjectShell);
        compiled := Blank.(typ := Some(TArray), uniqueItems := child.uniqueItems,
                           minItems := child.minItems, items := Some(items));
      } else {
        var ty := if child.typ.Some? then child.typ.value else TString;
        var minLength := if child.minLength.Some? && child.minLength.value != 0 then child.minLength else None;
        compiled := Blank.(typ := Some(ty), minLength := minLength);
        push := child.required;
      }
    }
  }

  /** `jsonToSchema`: build the tree, then compile it (`tag` is `None` in background.js). */
  method JsonToSchema(json: Json, tag: Option<string>) returns (s: Schema)
    ensures s == Inference.Compile(Inference.Build(json), tag)
    ensures WellShaped(s) && UnionFree(s)
  {
    var ast := new Ast();
    ast.Build(json);
    var compiler := new Compiler(tag);
    compiler.Compile(ast.tree);
    s := compiler.schema;
    InferenceFacts.GeneratedShaped(json, tag);
  }
}
