# Bedrock render-controller parser, modelled in Dafny

This project models `BedrockControllerParser`. The parser reads the
`render_controllers` section of a Bedrock resource-pack JSON document. It
produces one render controller for each entry whose value is an object and
whose identifier starts with `controller.render`. Each controller has these fields:

- its texture expressions;
- its geometry expression;
- a merged material map;
- an insertion-ordered part-visibility map;
- two lighting settings;
- three lists of named selector arrays.

The input is a JSON tree as Gson builds it. Java exceptions become `Err`
results.

The modules are:

- `JsonTree` holds the JSON datatype and the parts of Gson's API the
  parser calls: `has`, `get`, `getAsJsonObject`, `getAsJsonArray`,
  `getAsString`, `getAsBoolean` and `getAsFloat`. Each Gson call keeps its
  branches and the cases where it throws, except `getAsFloat` on
  non-numeric text (see Left out).
- `OrderedMaps` models `LinkedHashMap` as a value: the keys in order of
  first insertion, plus the mapping.
- `RenderControllers` holds the output values.
- `ControllerSpec` gives what each part of `parse` computes as functions
  of the tree. The list walks are written with an accumulator.
- `BedrockControllerParser` holds the source's loops as methods. Each
  method is proved to return its specification function, and the loop
  invariants say "whole walk = rest of the walk from the current state".
- `ControllerProperties` proves the promised properties about those
  functions:
  - filtering and order of controllers;
  - defaults;
  - last-write-wins for materials;
  - first-insertion order for part visibility;
  - which `arrays` sub-object feeds which list.

Gson behaviours the model keeps that a reader might not expect:

- `getAsBoolean` on a string or number does not fail. It parses the text
  with `Boolean.parseBoolean`, so `"ignore_lighting": "yes"` gives `false`.
- Gson's `getAsString`, `getAsBoolean` and `getAsFloat` also accept an
  array of exactly one element.
- The geometry field accepts only a primitive. Any other value gives `""`
  without failing.
- The first failure in the source's order of reads is the one reported.
  For example, a bad `textures` is reported before a bad `materials`.

## Model

| member | source | states |
|---|---|---|
| JsonTree.LookupMember | src/main/java/org/cube/converter/parser/bedrock/controller/BedrockControllerParser.java:29-34 | walking an object's members is walking `keySet()` and calling `get` on each key: looking up a member's key finds that member's value |
| JsonTree.AsString | src/main/java/org/cube/converter/parser/bedrock/controller/BedrockControllerParser.java:45 | `getAsString` succeeds on every primitive and fails on null and on objects |
| JsonTree.AsBoolean | src/main/java/org/cube/converter/parser/bedrock/controller/BedrockControllerParser.java:76-78 | `getAsBoolean` returns a JSON boolean as it is and fails on null and on objects |
| JsonTree.AsFloat | src/main/java/org/cube/converter/parser/bedrock/controller/BedrockControllerParser.java:79-81 | `getAsFloat` keeps a number's text and fails on booleans, null and objects |
| JsonTree.AsArray | src/main/java/org/cube/converter/parser/bedrock/controller/BedrockControllerParser.java:38 | the cast of `getAsJsonArray` succeeds exactly on arrays |
| JsonTree.ObjectMember | src/main/java/org/cube/converter/parser/bedrock/controller/BedrockControllerParser.java:28 | `getAsJsonObject` gives null for an absent key, succeeds exactly when the present value is an object, and then returns that object |
| OrderedMaps.Put | src/main/java/org/cube/converter/parser/bedrock/controller/BedrockControllerParser.java:67 | `LinkedHashMap.put` keeps the map's invariant, maps the key to the new value, keeps an existing key in place and appends a new key at the end |
| OrderedMaps.DedupOnto | src/main/java/org/cube/converter/parser/bedrock/controller/BedrockControllerParser.java:66-67 | putting a sequence of keys after the `seen` ones keeps the `seen` ones as a prefix, lists each key once, and lists exactly the keys of both |
| OrderedMaps.First | src/main/java/org/cube/converter/parser/bedrock/controller/BedrockControllerParser.java:66-67 | the first occurrence of a key in the insertion sequence holds the key, and no earlier position does |
| OrderedMaps.DedupOrder | src/main/java/org/cube/converter/parser/bedrock/controller/BedrockControllerParser.java:60-71 | two keys of the ordered key list appear in the order of their first insertions |
| ControllerSpec.Strings | src/main/java/org/cube/converter/parser/bedrock/controller/BedrockControllerParser.java:99-107 | a successful `arrayToList` has one string per array element |
| ControllerSpec.Names | src/main/java/org/cube/converter/parser/bedrock/controller/BedrockControllerParser.java:66 | the bone names of a list of members are their keys, position by position |
| ControllerSpec.GeometryExpression | src/main/java/org/cube/converter/parser/bedrock/controller/BedrockControllerParser.java:41-47 | the geometry is `""` when absent or not a primitive, and the primitive's `getAsString` otherwise |
| ControllerSpec.ControllerOf | src/main/java/org/cube/converter/parser/bedrock/controller/BedrockControllerParser.java:34-93 | every controller built for an entry carries that entry's identifier |
| ControllerSpec.Filter | src/main/java/org/cube/converter/parser/bedrock/controller/BedrockControllerParser.java:29-32 | the selected entries are exactly the entries whose value is an object and whose key starts with `controller.render`, and there are no more of them than entries |
| BedrockControllerParser.ArrayToList | src/main/java/org/cube/converter/parser/bedrock/controller/BedrockControllerParser.java:99-107 | the loop returns each element's `getAsString` in order, or the first element's failure |
| BedrockControllerParser.CollectMaterials | src/main/java/org/cube/converter/parser/bedrock/controller/BedrockControllerParser.java:51-56 | the `materials` loop skips non-objects and `putAll`s each object's `objectToMap` into the map |
| BedrockControllerParser.CollectPartVisibility | src/main/java/org/cube/converter/parser/bedrock/controller/BedrockControllerParser.java:62-70 | the nested `part_visibility` loops put each bone of each object element, in order, into the ordered map |
| BedrockControllerParser.ReadTextures | src/main/java/org/cube/converter/parser/bedrock/controller/BedrockControllerParser.java:36-39 | the texture expressions are empty when `textures` is absent, and `arrayToList` of the array otherwise |
| BedrockControllerParser.ReadGeometry | src/main/java/org/cube/converter/parser/bedrock/controller/BedrockControllerParser.java:41-47 | the geometry expression as the geometry function states it |
| BedrockControllerParser.ReadMaterials | src/main/java/org/cube/converter/parser/bedrock/controller/BedrockControllerParser.java:49-57 | the materials map is empty when `materials` is absent, and the materials loop's result otherwise |
| BedrockControllerParser.ReadPartVisibility | src/main/java/org/cube/converter/parser/bedrock/controller/BedrockControllerParser.java:59-71 | part visibility is empty when `part_visibility` is absent, and the part-visibility loops' result otherwise |
| BedrockControllerParser.ReadIgnoreLighting | src/main/java/org/cube/converter/parser/bedrock/controller/BedrockControllerParser.java:74-78 | `ignoreLighting` is false when absent, and `getAsBoolean` otherwise |
| BedrockControllerParser.ReadLightColorMultiplier | src/main/java/org/cube/converter/parser/bedrock/controller/BedrockControllerParser.java:75-81 | `lightColorMultiplier` is 1.0 when absent, and `getAsFloat` otherwise |
| BedrockControllerParser.ParseController | src/main/java/org/cube/converter/parser/bedrock/controller/BedrockControllerParser.java:34-93 | the body of the loop for one selected entry builds exactly the controller of the specification, with the same first failure |
| BedrockControllerParser.Parse | src/main/java/org/cube/converter/parser/bedrock/controller/BedrockControllerParser.java:22-97 | `parse` returns exactly the document's specified controller list, or its first failure |
| JsonTree.Lookup | src/main/java/org/cube/converter/parser/bedrock/controller/BedrockControllerParser.java:23-79 | `JsonObject.get` (and `has`, which is `Lookup(..).Some?`) finds a value exactly when some member has the key, and the value found is that member's |
| JsonTree.ParseBooleanSpec | src/main/java/org/cube/converter/parser/bedrock/controller/BedrockControllerParser.java:77 | `Boolean.parseBoolean` inside `getAsBoolean` is true exactly for four characters that lower-case to `true` |
| ControllerSpec.StartsWithSpec | src/main/java/org/cube/converter/parser/bedrock/controller/BedrockControllerParser.java:30 | `identifier.startsWith("controller.render")` holds exactly when the identifier is the prefix followed by more text; with the object test it makes `Selected` |
| ControllerSpec.MaterialsFrom | src/main/java/org/cube/converter/parser/bedrock/controller/BedrockControllerParser.java:51-56 | the `materials` loop, which `CollectMaterials` is proved equal to: `putAll` never removes a key already in the map |
| ControllerSpec.PutMembers | src/main/java/org/cube/converter/parser/bedrock/controller/BedrockControllerParser.java:66-68 | the inner `part_visibility` loop: putting bones keeps the ordered map valid and never moves a key already placed |
| ControllerSpec.VisibilityFrom | src/main/java/org/cube/converter/parser/bedrock/controller/BedrockControllerParser.java:63-70 | the outer `part_visibility` loop, which `CollectPartVisibility` is proved equal to: it keeps the map valid and the already placed keys in place |
| ControllerSpec.Controllers | src/main/java/org/cube/converter/parser/bedrock/controller/BedrockControllerParser.java:29-94 | the controller loop, which `Parse` is proved to walk: no more controllers than entries, each identifier starting with `controller.render` |
| ControllerSpec.Document | src/main/java/org/cube/converter/parser/bedrock/controller/BedrockControllerParser.java:22-97 | `parse`, which `Parse` is proved equal to: no `render_controllers` gives the empty list, and success with one means it is an object |
| ControllerProperties.ObjectToMapSpec | src/main/java/org/cube/converter/parser/bedrock/controller/BedrockControllerParser.java:55 | assumption about `GsonUtil.objectToMap`: on an object it succeeds exactly when every value has a string form, and then maps exactly the object's keys, each to its own value's string |
| ControllerProperties.ArraysOfSpec | src/main/java/org/cube/converter/parser/bedrock/controller/BedrockControllerParser.java:89-91 | assumption about `Array.parse(arrays.getAsJsonObject(key))`: an absent category gives no arrays, a non-object fails the cast, and an object gives `NamedArrays` of its members |
| ControllerProperties.StringsElementwise | src/main/java/org/cube/converter/parser/bedrock/controller/BedrockControllerParser.java:99-107 | `arrayToList` succeeds exactly when every element has a string form, and then element i of the list is element i's string |
| ControllerProperties.TexturesInOrder | src/main/java/org/cube/converter/parser/bedrock/controller/BedrockControllerParser.java:36-39 | an absent `textures` gives no expressions, a non-array fails, and otherwise the i-th expression is the i-th element's string |
| ControllerProperties.MergeIntoSpec | src/main/java/org/cube/converter/parser/bedrock/controller/BedrockControllerParser.java:55 | putting bindings into a map succeeds exactly when every value has a string form; then the keys are the old keys plus the bound ones, untouched keys keep their values, and each bound key holds its last binding's value |
| ControllerProperties.MergeIntoAppend | src/main/java/org/cube/converter/parser/bedrock/controller/BedrockControllerParser.java:51-56 | merging two lists of bindings is merging the first and then the second |
| ControllerProperties.MergeIntoPutAll | src/main/java/org/cube/converter/parser/bedrock/controller/BedrockControllerParser.java:55 | `putAll` of `objectToMap` equals putting the object's bindings one by one into the map |
| ControllerProperties.MaterialsAreMerge | src/main/java/org/cube/converter/parser/bedrock/controller/BedrockControllerParser.java:49-57 | the materials loop equals putting the bindings of all object elements, in order, into one map |
| ControllerProperties.MaterialsLastWriteWins | src/main/java/org/cube/converter/parser/bedrock/controller/BedrockControllerParser.java:49-57 | the materials map's keys are exactly the keys of the object elements, and each key holds the value of its last occurrence |
| ControllerProperties.MaterialsExample | src/main/java/org/cube/converter/parser/bedrock/controller/BedrockControllerParser.java:49-57 | `[{a:x},{b:y},{a:z}]` gives `{a:z, b:y}` |
| ControllerProperties.PutMembersAppend | src/main/java/org/cube/converter/parser/bedrock/controller/BedrockControllerParser.java:63-70 | putting two lists of bones is putting the first and then the second |
| ControllerProperties.VisibilityIsPutMembers | src/main/java/org/cube/converter/parser/bedrock/controller/BedrockControllerParser.java:60-71 | the part-visibility loops equal putting the bones of all object elements in order, with non-objects skipped |
| ControllerProperties.PutMembersSpec | src/main/java/org/cube/converter/parser/bedrock/controller/BedrockControllerParser.java:66-67 | putting bones into a valid ordered map keeps it valid, maps exactly what the unordered merge maps, and lists the keys in order of first insertion |
| ControllerProperties.PartVisibilitySpec | src/main/java/org/cube/converter/parser/bedrock/controller/BedrockControllerParser.java:60-71 | part visibility succeeds exactly when putting the same bones into a plain map does; its mapping is that merge (last value wins) and its key order is the bones' first-insertion order |
| ControllerProperties.PartVisibilityFirstInsertion | src/main/java/org/cube/converter/parser/bedrock/controller/BedrockControllerParser.java:60-71 | of two listed bones, the earlier one was first inserted earlier |
| ControllerProperties.HeadThenArm | src/main/java/org/cube/converter/parser/bedrock/controller/BedrockControllerParser.java:67 | putting `head` into the empty map and then `arm` lists head before arm |
| ControllerProperties.PartVisibilityOrderExample | src/main/java/org/cube/converter/parser/bedrock/controller/BedrockControllerParser.java:60-71 | `[{head:true},{arm:false}]` lists head before arm |
| ControllerProperties.HeadAgain | src/main/java/org/cube/converter/parser/bedrock/controller/BedrockControllerParser.java:67 | putting `head` again into `[head, arm]` changes its value and keeps it first |
| ControllerProperties.PartVisibilityUpdateExample | src/main/java/org/cube/converter/parser/bedrock/controller/BedrockControllerParser.java:60-71 | a later `{head:x}` changes head's value without moving it |
| ControllerProperties.NamedArraysSpec | src/main/java/org/cube/converter/parser/bedrock/controller/BedrockControllerParser.java:89-91 | one selector array per member of a category's sub-object, in order, named by the member's key and holding its expressions; it fails exactly when some member is not an array of strings |
| ControllerProperties.ControllerFields | src/main/java/org/cube/converter/parser/bedrock/controller/BedrockControllerParser.java:34-93 | a built controller's fields are the results of the field readers for its entry |
| ControllerProperties.LightingDefaults | src/main/java/org/cube/converter/parser/bedrock/controller/BedrockControllerParser.java:73-81 | `ignoreLighting` is false and `lightColorMultiplier` is 1.0 when the fields are absent, and are the coerced values when present |
| ControllerProperties.ArraysAbsent | src/main/java/org/cube/converter/parser/bedrock/controller/BedrockControllerParser.java:83-87 | without `arrays` the controller still builds whenever its other fields do, with all three selector-array lists empty |
| ControllerProperties.ArraysPresent | src/main/java/org/cube/converter/parser/bedrock/controller/BedrockControllerParser.java:88-93 | with `arrays`, texture arrays come from `textures`, geometry arrays from `geometries` and material arrays from `materials` |
| ControllerProperties.ControllersOfSelected | src/main/java/org/cube/converter/parser/bedrock/controller/BedrockControllerParser.java:29-32 | the controller loop gives the same result as it does on the selected entries alone |
| ControllerProperties.ControllersOfSelectedOnly | src/main/java/org/cube/converter/parser/bedrock/controller/BedrockControllerParser.java:29-94 | over selected entries only, the loop succeeds exactly when every entry's controller does, and then gives them in order |
| ControllerProperties.OneControllerPerSelectedEntry | src/main/java/org/cube/converter/parser/bedrock/controller/BedrockControllerParser.java:29-94 | a successful loop yields one controller per selected entry, in entry order, each built from its entry |
| ControllerProperties.EmittedIdentifiers | src/main/java/org/cube/converter/parser/bedrock/controller/BedrockControllerParser.java:29-32 | every emitted identifier starts with `controller.render`, and an identifier is emitted exactly when a selected entry has it |
| ControllerProperties.NoRenderControllers | src/main/java/org/cube/converter/parser/bedrock/controller/BedrockControllerParser.java:23-25 | a document without `render_controllers` gives the empty list |
| ControllerProperties.EndToEndExample | src/main/java/org/cube/converter/parser/bedrock/controller/BedrockControllerParser.java:22-97 | `{"render_controllers":{"controller.render.default":{"geometry":"Geometry.default"}}}` gives one controller with that identifier and geometry, and every other field at its default |

## Left out

- `parse(String)` (lines 18-20) is left out. Reading JSON text belongs to Gson, and the model starts from the JSON tree.
- `GsonUtil.objectToMap` and `BedrockRenderController.Array.parse` are not part of this model as code.
  - Both are assumptions: `ObjectToMap` puts each key with its value's `getAsString`; `NamedArrays` makes one `SelectorArray` per member from an array of strings, and none for an absent category.
- The `BedrockRenderController` constructor is not part of this model. Its arguments become named fields. Following the call at line 93, each list is named after the `arrays` sub-object that feeds it.
- The model's member lists may repeat keys, and nothing in `Parse` rules that out; only lists with distinct keys (`JsonTree.DistinctKeys`) stand for Gson's `JsonObject`. On those lists `JsonTree.LookupMember` shows that walking the members equals walking `keySet()` and calling `get`. On a list that repeats a key the model walks every member, which no `JsonObject` can present.
- The model does not capture the iteration order of the `HashMap` behind `materials`. That map is a plain Dafny `map`.
- JsonTree.AsFloat: keeps the element's text rather than a 32-bit float. It does not model `Float.parseFloat` rejecting a non-numeric string, or rounding.
- JsonTree.AsString: a number gives the literal text it was written with. Gson's normalisation of numbers that are not lazily parsed is not modelled.
- The lists and maps the source builds in place are values that the methods reassign. No other code sees them while `parse` runs, so no aliasing is lost.
