# api-visualizer: schema recording, export and AI visualisation, in Dafny

The api-visualizer browser extension watches the JSON responses of a web
application's API. This project models its algorithmic core and proves
properties of the model.

- **Schema inference.** `jsonToSchema` turns each response body into a
  JSON Schema (draft-04 keywords). The inference is modelled in three forms:
  - functions over values (`Inference`);
  - the `AST` and `Compiler` classes that build the schema step by step
    (`Generator`), proved equal to those functions;
  - the simplified generator of api-tracker-visualizer (`SimpleSchema`).
- **Schema merge.** `mergeSchemas` folds a new observation into the schema
  already recorded for the same endpoint (`SchemaMerge`).
- **Endpoint identity.** `canonicalKeyFor` and `toAbsoluteUrl` decide which
  endpoint a response belongs to (`Endpoint`).
- **Recording logs.** The three `addSchemaEntry` variants keep the recording
  log: an upsert by canonical key, an upsert by URL and `GET`, and an append
  that keeps the last 100 (`Logs`).
- **Popup export.** popup.js has two steps (`Popup`):
  - `getDedupedEntries` keeps one entry per endpoint;
  - `normalizeOpenApiSpec` rewrites a generated OpenAPI document onto the
    observed backend origins and path-only keys.
- **Visualisation component.** The `AIDataVisualization` component of the
  visualisation library is a class whose fields are updated in place
  (`Visualization`). It covers:
  - the bridge injection;
  - the fence stripping applied to the model's reply;
  - the newest-first history of at most ten items;
  - the prompt bookkeeping of `generateVisualization`;
  - whether listing the history throws, which it does on an item without a
    prompt (a legacy item stored without one), ending a generation in the
    error state.

Supporting modules:
- `Json` and `Schemas` are the data model.
- `Text` holds the JavaScript string operations the code relies on: `trim`,
  `toUpperCase`, `toLowerCase`, `indexOf`, and the `"0"`, `"1"`, … keys of
  array indices.
- `Ordered` models JavaScript `Map`, `Set` and object spread as key-ordered
  association lists.
- `Collections` holds small map lemmas.

Behaviour of the code worth noting:
- **Top-level empty array.** A top-level `[]` compiles to `minItems: 1` and
  `uniqueItems: true`, with an object `items`. The compiler's array branch
  ignores the tree's own counts.
- **Numeric-looking strings.** These are typed `"string"`, because `isString`
  is tested before the number check.
- **Required keys of object arrays.** In an array of objects, a key counts as
  required when its first-seen value is non-null, even if some elements lack
  it. So in `[{a:1},{a:2,b:"x"}]`, `b` is required.
- **Idempotence of merge.** Merging a well-shaped schema with itself keeps
  its structure: the same types, property names and required names
  throughout (`SchemaMerge.MergeSelfShape`). Exact equality
  `merge(s, s) == s` does not hold: a merge of arrays drops `minItems` and
  `uniqueItems`, and a merge of objects drops `description` and `$schema`.
- **Operand order of merge.** The merge is not commutative. A stored union
  merged with `{type: string}` gives the string schema, but
  `{type: string}` merged with the union gives the union
  (`SchemaMerge.MergeOrderMatters`).

## Model

| member | source | states |
|---|---|---|
| Inference.GetType | background.js:29-43 | the classifier yields no type exactly for `null`, and `object`, `array`, `string`, `number`, `boolean` exactly for values of that kind; never `null` as a type |
| Inference.BuildObjectTree | background.js:62-77 | keeps a type already set, else `object`; the node's children are its earlier children plus one per member name |
| Inference.BuildArrayTree | background.js:79-132 | the node is typed `array` and always has a children object |
| Inference.PositionalKids | background.js:110-131 | the index loop makes exactly one node per element |
| Inference.AddMissing | background.js:96-103 | the union of member names, where names already in the merged object keep their first value |
| Inference.MergedObjectFrom | background.js:94-105 | every value in `mergedObject` is the member value of some object element under that name |
| Inference.MergedObjectBounded | background.js:94-105 | every merged member value is structurally part of the array |
| Inference.ForInMembers | background.js:65-76 | the members `for…in` enumerates on a non-array top-level value are parts of that value |
| Inference.CharMembers | background.js:65-76 | a string enumerates as one-character strings |
| Inference.CharValues | background.js:65-76 | character `i` of the string becomes the string of that one character |
| InferenceFacts.GeneratedLookup | background.js:147-196 | `generate` writes one compiled child per tree child and pushes a name exactly when the child is an object, an array or marked required |
| InferenceFacts.GenerateLeaf | background.js:147-148 | a node without children leaves the parent's properties and required list as they were |
| InferenceFacts.PrimitiveChildCompiles | background.js:51-60 | a scalar member compiles to its type (`null` falls back to `string`), with `minLength: 1` only for a non-empty string, and is required exactly when it is not `null` |
| InferenceFacts.ObjectChildPushes | background.js:62-77 | a member of an object is pushed into `required` exactly when its value is not `null`, objects and arrays included |
| InferenceFacts.PositionalChildPushes | background.js:110-131 | an array element is pushed into `required` exactly when it is not `null`, empty objects and arrays included |
| InferenceFacts.ObjectMembers | background.js:62-77 | an object's generated properties are exactly its member names, its required list is exactly the non-null members, and each scalar member gets its primitive schema |
| InferenceFacts.TopObjectGenerated | background.js:198-206 | an object tree compiles to the generated properties and required list of its children |
| InferenceFacts.TopLevelObjectShape | good-request-tracking/background.js:226-235 | a non-array top-level value compiles to an object schema with the variant's `$schema`, `description: ''`, properties and a required list |
| InferenceFacts.TopLevelArrayShape | good-request-tracking/background.js:236-250 | a top-level array of any length compiles to `type: array`, `minItems: 1`, `uniqueItems: true` and an object `items` |
| InferenceFacts.TaggedCarriesDraft04 | good-request-tracking/background.js:226-251 | the tagged generator produces the untagged schema with `$schema` set to the draft-04 URI |
| InferenceFacts.ObjectSchema | background.js:224-230 | an object's schema has one property per member, requires exactly the non-null members, and gives each scalar member its primitive schema |
| InferenceFacts.NestedEmptyArray | background.js:83-87 | a nested empty array becomes a required property with `uniqueItems: false`, `minItems: 0` and an `items` with no properties |
| InferenceFacts.MergedObjectSpec | background.js:94-105 | `mergedObject` has exactly the member names of the object elements, each with its first-seen value; other elements add nothing |
| InferenceFacts.ObjectArrayItems | background.js:89-107 | an array whose first element is an object gets item properties for exactly the merged names, requires the names whose first-seen value is non-null, and gives scalars their primitive schema |
| InferenceFacts.ObjectArrayTree | background.js:89-107 | such an array is built as the object tree of `mergedObject`, with `uniqueItems: true` and `minItems: 1` |
| InferenceFacts.ArrayItemsGenerated | background.js:207-220 | an array tree compiles to an `items` object holding the generated properties and required list |
| InferenceFacts.PositionalArrayTree | background.js:110-131 | an array whose first element is not an object gets one child per index, keyed `"0"`, `"1"`, … |
| InferenceFacts.PositionalGenerated | background.js:147-196 | the generated properties of such an array are exactly the index keys, each compiled from its element, and an index is required exactly when its element is not `null` |
| InferenceFacts.PositionalItems | background.js:110-131 | a top-level array of primitives compiles to index-keyed `items.properties`, one per element, each inferred on its own |
| InferenceFacts.PositionalPrimitive | background.js:127-130 | a scalar element compiles to its primitive schema |
| InferenceFacts.CompileChildShaped | background.js:147-196 | every compiled child is well shaped (required names are declared properties) and has no `anyOf` |
| InferenceFacts.GenerateShaped | background.js:147-196 | filling an object shell gives a well-shaped, union-free schema |
| InferenceFacts.GeneratedShaped | background.js:224-230 | every inferred schema is well shaped and union-free |
| Generator.Ast.constructor | background.js:47-49 | the tree starts empty |
| Generator.Ast.Build | background.js:134-140 | the tree after `build(json)` is the reference tree of `json` |
| Generator.Ast.ForInMembers | background.js:65 | the members `for…in` visits are those of the reference definition, each part of the value |
| Generator.Ast.CharMembers | background.js:65-76 | the loop over a string's characters keys each one-character string by its index |
| Generator.Ast.BuildObjectTree | background.js:62-77 | the loop over the members produces the reference object tree |
| Generator.Ast.ObjectChild | background.js:66-75 | one member's node is the reference node |
| Generator.Ast.BuildArrayTree | background.js:79-132 | the array builder produces the reference array tree |
| Generator.Ast.PositionalChildren | background.js:110-131 | the index loop leaves each element's node under its index key |
| Generator.Ast.PositionalChild | background.js:111-130 | one element's node is the reference node |
| Generator.Ast.MergeObjects | background.js:94-105 | the nested key-union loops compute `mergedObject` |
| Generator.Compiler.constructor | background.js:143-145 | the schema starts as `{}`, with the variant's `$schema` tag |
| Generator.Compiler.Compile | background.js:198-221 | `compile` leaves the reference schema of the tree |
| Generator.Compiler.Generate | background.js:147-196 | the loop over the children fills the parent's properties and required list as the reference `generate` does |
| Generator.Compiler.CompileChild | background.js:149-194 | one child's schema and whether its name is pushed agree with the reference |
| Generator.JsonToSchema | background.js:224-230 | the class-based generator returns the reference schema, which is well shaped and union-free |
| SchemaMerge.MergeSchemas | background.js:306-308 | a missing operand is the identity on either side; the result is missing only when both are |
| SchemaMerge.MergeObjectsSpec | background.js:318-329 | merged objects have the union of property names, recursively merged shared ones, one-sided ones kept, `required` equal to the names required on both sides, and no `required` when that set is empty |
| SchemaMerge.MergedRequiredBounds | background.js:326-329 | the merged `required` lies within the merged properties and within each side's `required` |
| SchemaMerge.MergeObjectsSymmetric | background.js:318-329 | the property names and `required` of an object merge do not depend on the operand order |
| SchemaMerge.UnionFlattened | background.js:310-315 | the union branch yields `anyOf` of both sides' alternatives, flattened one level, with no nested `anyOf` when the alternatives had none |
| SchemaMerge.DifferentTypesUnion | background.js:311-314 | two non-union schemas of different types merge to `{anyOf: [a, b]}` |
| SchemaMerge.MergeArrays | background.js:333-335 | merged arrays keep only `type: array` and the merged `items`, dropping `minItems` and `uniqueItems` |
| SchemaMerge.UntypedFallsThrough | background.js:337-338 | as written, when either side has no type the result is the side with `properties` or `items`, else the second |
| SchemaMerge.SameScalarTypeKeepsNewer | background.js:337-338 | two scalars of the same type merge to the newer observation |
| SchemaMerge.UnionOperandDiscarded | background.js:310-338 | as written, merging an `anyOf` schema with anything returns the other operand, so the recorded union is lost |
| SchemaMerge.UnionOperandKept | background.js:310-315 | the corrected merge extends a recorded union by the new alternatives and keeps every old one |
| SchemaMerge.CorrectionAgreesWithoutUnions | background.js:306-339 | on union-free schemas the corrected merge equals the merge as written |
| SchemaMerge.MergeOrderMatters | background.js:306-339 | as written, a stored union gives way to a plain typed schema, while that schema stored first gives way to the union, so the two operand orders differ |
| SchemaMerge.SameShapeReflexive | background.js:306-339 | every schema has its own structure (the base case of the self-merge property) |
| SchemaMerge.MergeSelfShape | background.js:306-339 | merging a well-shaped schema with itself as written keeps its types, `anyOf`, property names, required names and `items` presence throughout |
| SchemaMerge.UnionFreeMergeSelfShape | background.js:306-339 | for a union-free schema the self-merge keeps the structure in either merge |
| SchemaMerge.MergeKeepsShape | background.js:306-339 | merging well-shaped schemas yields a well-shaped schema, so `required` stays within `properties` |
| SchemaMerge.MergeSchemasKeepsShape | background.js:306-339 | the same holds when either operand may be missing |
| SimpleSchema.TypeName | api-tracker-visualizer/background.js:235-239 | `_getType` is `null` exactly for `null` and agrees with the classifier otherwise |
| SimpleSchema.Simple | api-tracker-visualizer/background.js:241-263 | the simplified schema's type is the value's `_getType`, with no `required` and no `anyOf` |
| SimpleSchema.SimpleObject | api-tracker-visualizer/background.js:243-249 | an object maps to `type: object` with exactly one recursively inferred property per member and no `required` |
| SimpleSchema.SimpleEmptyArray | api-tracker-visualizer/background.js:250-253 | an empty array maps to `{type: array, items: {}}` |
| SimpleSchema.SimpleFirstElementOnly | api-tracker-visualizer/background.js:254-260 | `items` depends on the first element only: recursive for an object, `{type}` otherwise |
| SimpleSchema.SimplePrimitive | api-tracker-visualizer/background.js:262 | a scalar maps to `{type: t}`, and `null` to type `null` |
| SimpleSchema.SimpleShaped | api-tracker-visualizer/background.js:241-263 | simplified schemas carry no `required` anywhere and are well shaped and union-free |
| Endpoint.MethodOrGet | background.js:375 | a missing or empty method defaults to a non-empty one, and a given method is kept |
| Endpoint.ToAbsoluteUrl | background.js:256-263 | a resolvable URL becomes the parsed URL's `href`; otherwise the input is returned unchanged |
| Endpoint.CanonicalKeyFor | background.js:266-273 | the key always ends with `::` and the upper-cased method |
| Endpoint.KeyIgnoresQueryAndFragment | background.js:266-273 | URLs with the same origin and path get the same key, whatever their query or fragment |
| Endpoint.KeySeparatesEndpoints | background.js:266-273 | parsable URLs whose origin and pathname, concatenated, differ get different keys for the same method |
| Endpoint.KeyIgnoresMethodCase | background.js:266-273 | the method's case does not matter |
| Endpoint.KeyFallback | background.js:270-272 | an unparsable URL falls back to `url::METHOD` |
| Logs.FindKey | background.js:380 | `findIndex` yields the first entry with that canonical key, or none when no entry has it |
| Logs.UpsertedSpec | background.js:373-391 | with a match, only that entry changes: the response is merged, with the given merge, into a recorded schema (or replaced otherwise) and the timestamp refreshed; without one, exactly one entry is appended with the key, the schema and the time |
| Logs.UpsertedKeepsKeysUnique | background.js:373-391 | canonical keys stay unique, and the key of the new response is present afterwards, whichever merge folds responses |
| Logs.RecordingLog.constructor | background.js:237 | the recording log starts empty |
| Logs.RecordingLog.AddSchemaEntry | background.js:373-391 | the in-place update leaves the upserted log, with responses folded by `mergeSchemas` as written |
| Logs.ResponseSchema | background.js:381-382 | a stored response is a merge operand exactly when it is a schema |
| Logs.FindGet | api-tracker-visualizer/background.js:342 | yields the first `GET` entry with the URL, or none |
| Logs.TrackerUpserted | api-tracker-visualizer/background.js:340-349 | with a match the length is unchanged; without one, one entry is appended after the old log |
| Logs.TrackerUpsertedSpec | api-tracker-visualizer/background.js:340-349 | only the matched entry's response is replaced, otherwise one new `GET` entry is appended; URLs of `GET` entries stay unique |
| Logs.TrackerLog.constructor | api-tracker-visualizer/background.js:269 | the recording log starts empty |
| Logs.TrackerLog.AddSchemaEntry | api-tracker-visualizer/background.js:340-349 | the in-place update leaves the upserted log |
| Logs.LastN | good-request-tracking/background.js:355 | `slice(-n)` keeps the last `min(n, length)` elements, in order |
| Logs.SchemaStore.constructor | good-request-tracking/background.js:350-351 | the stored list defaults to empty |
| Logs.SchemaStore.AddSchemaEntry | good-request-tracking/background.js:342-357 | after appending, the list holds at most 100 entries, the new entry is last, and nothing is dropped below the limit |
| Logs.StoreKeepsNewest | good-request-tracking/background.js:350-357 | trimming after every append keeps the same entries as trimming once at the end |
| Ordered.KeysOf | popup.js:410 | the keys of an ordered map, in order |
| Ordered.ValuesOf | popup.js:410 | `Array.from(map.values())`: the values, in key order |
| Ordered.Find | popup.js:399 | the position of a key, the first one, or none when the key is absent |
| Ordered.Get | popup.js:403 | `map.get` is defined exactly for the present keys and yields the value stored under the key |
| Ordered.Put | popup.js:400-407 | `map.set` keeps the position of an existing key and appends a new key at the end; other entries are untouched |
| Ordered.PutGet | popup.js:400-407 | after `set(k, v)`, `get(k)` is `v` and other keys read as before |
| Ordered.PutKeys | popup.js:400-407 | `set` adds exactly its key to the key set |
| Ordered.Spread | popup.js:445 | spreading two objects with distinct keys gives distinct keys |
| Ordered.SpreadGet | popup.js:445 | in `{...a, ...b}` a key reads from `b` when `b` has it, else from `a` |
| Ordered.GetLast | popup.js:403 | reading a list extended by one entry |
| Ordered.Distinct | popup.js:415-417 | `Array.from(new Set(xs))` holds exactly the elements of `xs` |
| Ordered.DistinctMembers | popup.js:415-417 | an element is in the distinct list exactly when it is in the input |
| Ordered.DistinctSnoc | popup.js:415-417 | a `Set` appends a new element at the end and ignores one it already holds |
| Ordered.DistinctNoDuplicates | popup.js:415-417 | the distinct list has no duplicates |
| Text.IndexKey | background.js:110-131 | an array index used as a property name is a non-empty decimal numeral, of one digit exactly below 10 |
| Text.IndexKeyInjective | background.js:110-131 | different indices give different property names |
| Text.IndexKeyed | background.js:110-131 | every property set by the index loop is an index key holding that element |
| Text.IndexKeyedLookup | background.js:110-131 | every element can be read back under its index key |
| Text.ToUpper | background.js:269 | `toUpperCase` maps each character and keeps the length |
| Text.ToLower | libs/ai-data-visualization/dist/esm/ai-visualization.js:850 | `toLowerCase` maps each character and keeps the length |
| Text.ToUpperIdempotent | background.js:375-376 | upper-casing twice is upper-casing once |
| Text.TrimStart | libs/ai-data-visualization/dist/esm/ai-visualization.js:862 | drops exactly the leading whitespace |
| Text.TrimEnd | libs/ai-data-visualization/dist/esm/ai-visualization.js:866 | drops exactly the trailing whitespace |
| Text.Trim | libs/ai-data-visualization/dist/esm/ai-visualization.js:703 | the result is empty or starts and ends with non-whitespace |
| Text.TrimOfTrimmed | libs/ai-data-visualization/dist/esm/ai-visualization.js:866 | trimming a trimmed string changes nothing |
| Text.IndexOfFrom | libs/ai-data-visualization/dist/esm/ai-visualization.js:850-855 | `indexOf` yields the first occurrence at or after the start, or none when there is none |
| Popup.TimeOf | popup.js:404-405 | a missing timestamp reads as 0, a valid one as its milliseconds, and an unparsable one as NaN |
| Popup.DedupKey | popup.js:391-398 | the key is the canonical key when present, else origin, path and upper-cased method (defaulting to GET), else `url::METHOD` |
| Popup.DedupStep | popup.js:399-408 | a step only replaces or appends the entry under its own key |
| Popup.DedupStepGet | popup.js:399-408 | the entry is kept under its key exactly when the key is new or the entry is strictly newer or brings the first object response; other keys keep their entries |
| Popup.Deduped | popup.js:388-411 | the map holds each key once |
| Popup.GetDedupedEntries | popup.js:388-411 | the loop returns the values of the reference map, in key order |
| Popup.DedupedKeysFirstSeen | popup.js:399-410 | there is exactly one entry per distinct input key, in first-seen order |
| Popup.DedupStepKeys | popup.js:399-407 | a step appends a new key and keeps the key order otherwise |
| Popup.DedupedFromInput | popup.js:390-410 | every entry kept is an input entry, filed under its own key |
| Popup.DedupStepKeepsNewest | popup.js:402-407 | one step keeps a newest entry for every key seen so far |
| Popup.DedupedKeepsNewest | popup.js:388-411 | with valid timestamps and object responses, the entry kept for a key is at least as new as every input entry with that key |
| Popup.OriginOf | popup.js:416 | a request contributes an origin only when its URL parses and the origin is non-empty |
| Popup.Origins | popup.js:415-417 | the origins collected are exactly those of the parsable requests |
| Popup.PathKey | popup.js:434-440 | every normalised path key starts with `/`; a key that already does and has no `://` is kept |
| Popup.PathsStep | popup.js:441-446 | a step appends the normalised key or keeps the key list, and the key is present afterwards |
| Popup.NormalizedPaths | popup.js:431-448 | the rewritten paths object has distinct keys |
| Popup.NormalizeOpenApiSpec | popup.js:414-451 | the method returns the reference normalisation of the document |
| Popup.NormalizedHeader | popup.js:415-429 | `openapi` defaults to 3.0.3 only when missing; `servers` are always replaced by the distinct origins of the parsable requests, whatever was there; other members are untouched |
| Popup.NormalizedPathKeysCovered | popup.js:433-447 | every input key's normalised form is a key of the result |
| Popup.PathsStepCovers | popup.js:433-447 | one step of the `forEach` keeps every key covered before and adds the key it visits |
| Popup.PathsStepKeepsKeys | popup.js:441-446 | a step never drops a key |
| Popup.NormalizedPathKeysDrawn | popup.js:433-447 | every result key starts with `/` and is the normalised form of some input key |
| Popup.LastOperation | popup.js:441-446 | the reference answer for a method under a normalised key comes from an input item with that key and method |
| Popup.PathsStepOperation | popup.js:441-446 | in one step, the item's methods override those already under its normalised key |
| Popup.LaterMethodsWin | popup.js:441-446 | when keys collide, each method's operation is the one from the last input item under that path that has the method |
| Visualization.BridgeAt | libs/ai-data-visualization/dist/esm/ai-visualization.js:850-858 | the insertion point is the first case-insensitive `</head>`; failing that, just after the first `>` following the first `<body`, or 0 when no `>` follows; failing both, 0 |
| Visualization.AfterTagEnd | libs/ai-data-visualization/dist/esm/ai-visualization.js:855 | `indexOf('>', b) + 1` is just after the first `>` from `b`, or 0 when there is none |
| Visualization.InjectApiBridge | libs/ai-data-visualization/dist/esm/ai-visualization.js:845-859 | the result is the page with the bridge inserted at the insertion point; removing it gives the original page back |
| Visualization.OpeningFenceEnd | libs/ai-data-visualization/dist/esm/ai-visualization.js:864 | an opening fence match spans at least the seven characters of a fence and the word `html` |
| Visualization.SanitizeHtmlResponse | libs/ai-data-visualization/dist/esm/ai-visualization.js:861-870 | the cleaned reply is empty or starts and ends with non-whitespace |
| Visualization.HtmlFenceRoundTrip | libs/ai-data-visualization/dist/esm/ai-visualization.js:861-866 | a trimmed page wrapped in an html code fence comes back unchanged |
| Visualization.EmptyFenceRoundTrip | libs/ai-data-visualization/dist/esm/ai-visualization.js:861-866 | an empty html code fence sanitises to the empty page |
| Visualization.PageFenceRoundTrip | libs/ai-data-visualization/dist/esm/ai-visualization.js:861-866 | a non-empty trimmed page in an html code fence comes back unchanged |
| Visualization.SanitizeOfTrimmed | libs/ai-data-visualization/dist/esm/ai-visualization.js:862-866 | on an already trimmed reply, sanitising strips the opening fence, stray backticks and the closing fence, then trims |
| Visualization.OpeningOfWrapped | libs/ai-data-visualization/dist/esm/ai-visualization.js:864 | the opening pattern removes exactly the fence, the word `html` and the whitespace after it |
| Visualization.ClosingOfWrapped | libs/ai-data-visualization/dist/esm/ai-visualization.js:866 | the closing pattern removes exactly the trailing fence |
| Visualization.UnfencedPassesThrough | libs/ai-data-visualization/dist/esm/ai-visualization.js:861-866 | a reply without fences is only trimmed |
| Visualization.Migrate | libs/ai-data-visualization/dist/esm/ai-visualization.js:977-985 | an item with `versions` is kept; a legacy item becomes its prompt with a single version built from its `html` and `timestamp` |
| Visualization.Loaded | libs/ai-data-visualization/dist/esm/ai-visualization.js:969-988 | a stored list replaces the history element by element, migrated; a missing, unparsable or non-list value, or one with a `null` element, leaves the history as it was |
| Visualization.Persisted | libs/ai-data-visualization/dist/esm/ai-visualization.js:1001-1006 | persisting writes a list of the same length |
| Visualization.LoadPersisted | libs/ai-data-visualization/dist/esm/ai-visualization.js:969-1006 | loading what was persisted gives back the same history |
| Visualization.Saved | libs/ai-data-visualization/dist/esm/ai-visualization.js:989-993 | the new item is first, earlier items shift by one, and the list is capped at 10 |
| Visualization.WithVersion | libs/ai-data-visualization/dist/esm/ai-visualization.js:995-1000 | out of range nothing changes; otherwise exactly one version is appended to that item only |
| Visualization.Removed | libs/ai-data-visualization/dist/esm/ai-visualization.js:1069-1075 | out of range nothing changes; otherwise exactly that item goes and the rest keep their order |
| Visualization.RemoveUndoesSave | libs/ai-data-visualization/dist/esm/ai-visualization.js:989-1075 | below the cap, removing item 0 undoes a save |
| Visualization.GeneratedHtml | libs/ai-data-visualization/dist/esm/ai-visualization.js:723-727 | a page is produced exactly when the reply arrives and sanitises to something non-empty |
| Visualization.NonEmpty | libs/ai-data-visualization/dist/esm/ai-visualization.js:735 | `filter(Boolean)` keeps only non-empty prompts from the list |
| Visualization.BlankPromptIgnored | libs/ai-data-visualization/dist/esm/ai-visualization.js:703-707 | a blank message changes nothing |
| Visualization.PromptTrailOfGenerate | libs/ai-data-visualization/dist/esm/ai-visualization.js:709-736 | an improvement appends the message to the prompt trail; otherwise the trail restarts with the message |
| Visualization.PromptsOfGenerate | libs/ai-data-visualization/dist/esm/ai-visualization.js:709-717 | an improvement appends to `improvementPrompts` and keeps `originalPrompt`; otherwise `originalPrompt` becomes the message and the improvements are cleared |
| Visualization.NonEmptyAppend | libs/ai-data-visualization/dist/esm/ai-visualization.js:735 | a non-empty prompt survives the filter |
| Visualization.FailedReplyKeepsPage | libs/ai-data-visualization/dist/esm/ai-visualization.js:757-760 | a failed or empty reply ends in ERROR and keeps the page, history and active item |
| Visualization.PageRecorded | libs/ai-data-visualization/dist/esm/ai-visualization.js:728-760 | when the active index is absent or names an item (always so under the corrected removal, not under the removal as written), a produced page is the newest version, stamped now, of the active history item; it is displayed exactly when every history item has a prompt to list, and the error state follows otherwise |
| Visualization.ListableHistoryDisplays | libs/ai-data-visualization/dist/esm/ai-visualization.js:743-755 | when every history item has a prompt, so do they all after a page is filed, and the page is displayed |
| Visualization.PromptlessItemFailsImprovement | libs/ai-data-visualization/dist/esm/ai-visualization.js:743-760 | improving a page whose item has no prompt records the version, and then listing the history (line 1021) throws, so the error state follows |
| Visualization.Initialized | libs/ai-data-visualization/dist/esm/ai-visualization.js:57-67 | initialising succeeds exactly when every loaded item has a prompt, and then leaves an idle component with the loaded history |
| Visualization.PersistedListableInitializes | libs/ai-data-visualization/dist/esm/ai-visualization.js:57-67 | a persisted history whose items all have prompts initialises the component with that history |
| Visualization.PromptlessLegacyFailsInitialization | libs/ai-data-visualization/dist/esm/ai-visualization.js:977-984 | a stored legacy item without a prompt migrates to an item without one, which makes initialising throw when the history is listed (line 1021) |
| Visualization.Cleared | libs/ai-data-visualization/dist/esm/ai-visualization.js:872-893 | clearing resets everything but the history |
| Visualization.RemovalKeepsActiveItem | libs/ai-data-visualization/dist/esm/ai-visualization.js:1069-1075 | the corrected removal keeps the active index on the same item, or clears it when that item went |
| Visualization.RemovedActiveMisfilesImprovement | libs/ai-data-visualization/dist/esm/ai-visualization.js:1069-1075 | as written, after removing the active item an improvement is filed as a version of the item that moved into its place |
| Visualization.RemovedActiveStartsNewItem | libs/ai-data-visualization/dist/esm/ai-visualization.js:1069-1075 | with the corrected removal the same steps start a new item, and the moved item is unchanged |
| Visualization.RemovedOnlyItemLosesImprovement | libs/ai-data-visualization/dist/esm/ai-visualization.js:1069-1075 | as written, after removing the only item, which is active, an improvement is displayed but filed nowhere, and the index stays stale |
| Visualization.RemovedOnlyItemKeepsImprovement | libs/ai-data-visualization/dist/esm/ai-visualization.js:1069-1075 | with the corrected removal the same steps file the page as the one version of a new, active item |
| Visualization.HistoryCleared | libs/ai-data-visualization/dist/esm/ai-visualization.js:1056-1068 | clearing the history gives the fresh state |
| Visualization.GenerateKeepsActiveInRange | libs/ai-data-visualization/dist/esm/ai-visualization.js:743-753 | after a generation, the active index names an existing item or nothing |
| Visualization.OthersKeepActiveInRange | libs/ai-data-visualization/dist/esm/ai-visualization.js:1056-1075 | removal, clearing and loading keep the active index valid |
| Visualization.AIDataVisualization.constructor | libs/ai-data-visualization/dist/esm/ai-visualization.js:6-26 | a new component is idle, with no page or prompts, and the loaded history; it is the component initialising yields whenever that does not throw |
| Visualization.AIDataVisualization.LoadHistory | libs/ai-data-visualization/dist/esm/ai-visualization.js:969-988 | only the history changes, to the loaded one |
| Visualization.AIDataVisualization.SaveHistory | libs/ai-data-visualization/dist/esm/ai-visualization.js:989-993 | only the history changes, to the saved one |
| Visualization.AIDataVisualization.AddVersionToHistory | libs/ai-data-visualization/dist/esm/ai-visualization.js:995-1000 | only the history changes, by one version |
| Visualization.AIDataVisualization.RemoveHistory | libs/ai-data-visualization/dist/esm/ai-visualization.js:1069-1075 | the corrected removal, which also moves the active index |
| Visualization.AIDataVisualization.ClearVisualization | libs/ai-data-visualization/dist/esm/ai-visualization.js:872-893 | the fields become those of a cleared session |
| Visualization.AIDataVisualization.ClearHistory | libs/ai-data-visualization/dist/esm/ai-visualization.js:1056-1068 | the fields become those of a fresh session |
| Visualization.AIDataVisualization.GenerateVisualization | libs/ai-data-visualization/dist/esm/ai-visualization.js:701-765 | the fields become those of the session after generating from the sanitised reply |
| Visualization.AIDataVisualization.ShowPage | libs/ai-data-visualization/dist/esm/ai-visualization.js:709-760 | the prompt bookkeeping, history update and final state (displaying, or the error state when there is no page or listing the history throws) are the session's `Generate` step |
| Visualization.AIDataVisualization.RecordPrompt | libs/ai-data-visualization/dist/esm/ai-visualization.js:709-717 | the improvement test reads a displayed page; an improvement appends its prompt, anything else starts a new original prompt with no improvements |
| Visualization.AIDataVisualization.FilePage | libs/ai-data-visualization/dist/esm/ai-visualization.js:728-753 | the page becomes the last generated code and is filed: a new version of the active item for an improvement, otherwise a new item in front that becomes active |
| Visualization.AIDataVisualization.RenderHistoryList | libs/ai-data-visualization/dist/esm/ai-visualization.js:1007-1055 | listing succeeds exactly when every history item has a prompt |

## Left out

- **URL parsing.** `new URL(…)` is a parameter `string -> Option<Url>` yielding the serialisation (`href`), origin and pathname, or nothing where it throws. In background.js it resolves against the recording origin; in popup.js it takes no base. The WHATWG parsing rules are not part of this model.
- Inference.CharValues: a `char` is a Unicode scalar value, while JavaScript enumerates UTF-16 code units; a character outside the Basic Multilingual Plane is one member here and two (its surrogate halves) in JavaScript, and a lone surrogate cannot be written.
- Inference.CharMembers: enumerates one member per Unicode scalar value, not per UTF-16 code unit, as Inference.CharValues.
- Generator.Ast.CharMembers: loops over Unicode scalar values, not UTF-16 code units, as Inference.CharValues.
- Visualization.AIDataVisualization.constructor: a Dafny constructor cannot throw, so it builds the component even from a stored history with an item without a prompt, where the source's constructor throws in `renderHistoryList` (ai-visualization.js line 67); Visualization.Initialized states that outcome.
- Text.ToUpper, Text.ToLower: case mapping is modelled on ASCII letters only and keeps the length. JavaScript maps all of Unicode, and some characters change length there (`"ß".toUpperCase()` is `"SS"`, `"İ".toLowerCase()` is two code units).
- Visualization.BridgeAt: finds `</head>` and `<body` in a lower-cased copy of the same length. In JavaScript, a character before the tag whose lower case is longer (such as `İ`) shifts the index found in the lower-cased copy (ai-visualization.js line 850), so the source inserts the bridge after the tag's `<` instead of before the tag.
- **Key order.** Objects in parsed JSON and schema `properties` are maps, and `required` is a set. Member order and the order of `required` names are not modelled. The popup's `Map`, `Set` and paths object are ordered lists, because their order is observable.
- **Integer-like keys.** JavaScript enumerates integer-like object keys first, in numeric order. Schema properties are unordered maps, so this is not modelled.
- **Unreachable branch.** In `Compiler.generate`, a primitive child's name would go into `parent.items.required` when the parent has `items` (background.js:188-189). No parent passed to `generate` has `items`, so this branch never runs and is not modelled.
- **Numbers.** JSON numbers are exact reals: no `Infinity` or `NaN`. `utils.isNumber`'s float test is not modelled, since only genuine numbers reach it.
- Visualization.SanitizeHtmlResponse: does not strip `//# sourceMappingURL=` comments (the multi-line regex clean-up at ai-visualization.js line 868); it states the fence and whitespace handling only.
- **Storage and logging I/O.** `chrome.storage`, `localStorage`, `persistLog`, console logging and message passing are not modelled. Stored history is a `Stored` value, and persisting is `Persisted`.
- **Clock, ids and AI reply.** `Date.now()`, `new Date().toISOString()`, the random id and the chat completion reply are parameters.
  - Timestamps are integers in milliseconds, not ISO strings.
  - `generateVisualization` reads the clock twice for a new item; the model uses one reading.
- **Aliasing.** Trees, schemas and history items are values. Aliasing between a stored object and later mutations is not modelled.
- **Interleaving.** Another call may interleave during the `await` in `generateVisualization`; this is not modelled.
- Visualization.AIDataVisualization.GenerateVisualization: computes the sanitised page first and then applies the session step, so the GENERATING state seen during the call is not modelled.
- **UI.** `displayVisualization`, the DOM part of `setState`, `showError`/`hideError`, the DOM that `renderHistoryList` builds (only whether it throws is modelled), the prompt texts sent to the model, event handlers, and the iframe message bridge are not modelled. A `displayVisualization` that throws is not modelled either.
- Visualization.AIDataVisualization.RemoveHistory: models the corrected removal, which moves `activeHistoryIndex` along with its item. The code as written is Visualization.RemovedAsWritten (see Findings).
- **Requests passed to `normalizeOpenApiSpec`.** Each request is given by its `url`, the only member read.
- Inference.AddMissing: member names are map keys, with no JavaScript object prototype. In the source, `mergedObject.hasOwnProperty(key)` (background.js line 100) throws once an element has a member named `hasOwnProperty`, and the response is then dropped (lines 366-368). Assigning a member named `__proto__` (line 101) sets the prototype instead of adding the member. The model records both as ordinary members.
- SchemaMerge.MergeObjects: reads properties from maps. In the source, `propsB[key]` (background.js line 324) reads an inherited `Object` member (`constructor`, `toString`, `valueOf`, …) when only the stored side has a property of that name. The merged value is then that function, and the property is lost when the log is serialised.
- SchemaMerge.MergeObjectsSpec: states that one-sided properties are kept. This does not hold in the source for names of inherited `Object` members, as explained on the SchemaMerge.MergeObjects line.
- **Path items.** A path item is a list of `(method, operation)` pairs. Non-object path items are not modelled.
- **History elements.** Stored elements are `null`, legacy items or current items. Other non-object elements (numbers, strings) are not modelled.
- **Stored responses.** An entry's `response` is a schema, `null`, absent or text. A response that is some other object is not modelled.
- Logs.SchemaStore.AddSchemaEntry: stores `Schema` values only. The source also stores the non-schema objects `{type: 'xml_or_html', length, rootElement}` and `{type: 'text', length, lines, contentType}` for bodies that do not parse as JSON (good-request-tracking/background.js lines 314-330). The store appends and trims them like any other entry.
- **Not part of this model.** The network interception scripts, the content scripts, the DevTools protocol plumbing, `isIgnoredUrl` and `isJsonContentType`.

## Findings

| source | as written | input that shows it | evidently intended | confidence | as-written member | corrected member |
|---|---|---|---|---|---|---|
| background.js:306-339 | the union branch of `mergeSchemas` requires both operands to have a `type`. An `anyOf` node has none, so it falls through to the last line, which returns the other operand. | Record `{type: number}` and then `{type: string}` for a field, giving `{anyOf: [number, string]}`. A third observation `{type: boolean}` then merges to just `{type: boolean}`. | `toArray` flattens an existing `anyOf`, so a recorded union should grow to `[number, string, boolean]` | not executed | SchemaMerge.UnionOperandDiscarded | SchemaMerge.UnionOperandKept |
| libs/ai-data-visualization/dist/esm/ai-visualization.js:1069-1075 | `removeHistory` splices the list but leaves `activeHistoryIndex` unchanged | history `[a, b]` with item 0 active and a page displayed; remove item 0; ask for an improvement. The new page is appended as a version of `b`. With the history `[a]` instead, the improved page is displayed but filed nowhere, since `addVersionToHistory(0, …)` returns on the empty list. | the active index follows its item and is cleared when that item is removed, so the improvement starts a new item | not executed | Visualization.RemovedActiveMisfilesImprovement | Visualization.RemovedActiveStartsNewItem |
