/** What BedrockControllerParser.parse computes, as functions of the JSON
    tree. Each list-walking function takes the state accumulated so far, so
    that "the whole walk" equals "the rest of the walk from the current state";
    the parser's loops keep exactly that as their invariant. */
module ControllerSpec {
  import opened JsonTree
  import opened OrderedMaps
  import opened RenderControllers

  /** Identifiers of render controllers start with this (no trailing dot). */
  const Prefix := "controller.render"

  /** String.startsWith. */
  predicate StartsWith(s: string, prefix: string) {
    |prefix| <= |s| && s[..|prefix|] == prefix
  }

  /** `s` starts with `prefix` exactly when it is `prefix` followed by more. */
  lemma StartsWithSpec(s: string, prefix: string)
    ensures StartsWith(s, prefix) <==> exists rest :: s == prefix + rest
  {
    if StartsWith(s, prefix) {
      assert s == prefix + s[|prefix|..];
    }
    if exists rest :: s == prefix + rest {
      var rest :| s == prefix + rest;
      assert s[..|prefix|] == prefix;
    }
  }

  /** An entry of `render_controllers` that the parser turns into a controller. */
  predicate Selected(entry: (string, Json)) {
    entry.1.JObj? && StartsWith(entry.0, Prefix)
  }

  // ---------------------------------------------------------------- lists

  /** arrayToList: each element of a JSON array through getAsString, in order. */
  function Strings(elems: seq<Json>): (r: Result<seq<string>>)
    ensures r.Ok? ==> |r.value| == |elems|
  {
    if elems == [] then Ok([])
    else
      var head :- AsString(elems[0]);
      var tail :- Strings(elems[1..]);
      Ok([head] + tail)
  }

  /** A JSON array of expressions (getAsJsonArray, then arrayToList). */
  function ArrayOfStrings(j: Json): Result<seq<string>> {
    var elems :- AsArray(j);
    Strings(elems)
  }

  // ------------------------------------------------------------- mappings

  /** The keys of a list of bindings, in order. */
  function Names(bindings: Members): (r: seq<string>)
    ensures |r| == |bindings|
    ensures forall i :: 0 <= i < |bindings| ==> r[i] == bindings[i].0
  {
    if bindings == [] then [] else [bindings[0].0] + Names(bindings[1..])
  }

  /** The members of the object elements of a list, in order; elements that
      are not objects contribute nothing. */
  function Bindings(elems: seq<Json>): Members {
    if elems == [] then []
    else (if elems[0].JObj? then elems[0].members else []) + Bindings(elems[1..])
  }

  /** Map.put of each binding's string value into `m`, left to right. */
  function MergeInto(m: map<string, string>, bindings: Members): Result<map<string, string>>
    decreases |bindings|
  {
    if bindings == [] then Ok(m)
    else
      var value :- AsString(bindings[0].1);
      MergeInto(m[bindings[0].0 := value], bindings[1..])
  }

  /** GsonUtil.objectToMap (its code is not part of this model): each member's
      key mapped to the member's value through getAsString. */
  function ObjectToMap(members: Members): Result<map<string, string>> {
    MergeInto(map[], members)
  }

  /** The `materials` loop from map `m` on: every object element's
      objectToMap is put into the map with putAll; other elements are skipped. */
  function MaterialsFrom(m: map<string, string>, elems: seq<Json>): (r: Result<map<string, string>>)
    ensures r.Ok? ==> m.Keys <= r.value.Keys
    decreases |elems|
  {
    if elems == [] then Ok(m)
    else if elems[0].JObj? then
      var entries :- ObjectToMap(elems[0].members);
      MaterialsFrom(m + entries, elems[1..])
    else MaterialsFrom(m, elems[1..])
  }

  /** The inner `part_visibility` loop: put each bone with its string value. */
  function PutMembers(m: OrderedMap, members: Members): (r: Result<OrderedMap>)
    ensures Valid(m) && r.Ok? ==>
              Valid(r.value) && |m.keys| <= |r.value.keys| && r.value.keys[..|m.keys|] == m.keys
    decreases |members|
  {
    if members == [] then Ok(m)
    else
      var value :- AsString(members[0].1);
      PutMembers(Put(m, members[0].0, value), members[1..])
  }

  /** The outer `part_visibility` loop from map `m` on: the bones of every
      object element are put in; other elements are skipped. */
  function VisibilityFrom(m: OrderedMap, elems: seq<Json>): (r: Result<OrderedMap>)
    ensures Valid(m) && r.Ok? ==>
              Valid(r.value) && |m.keys| <= |r.value.keys| && r.value.keys[..|m.keys|] == m.keys
    decreases |elems|
  {
    if elems == [] then Ok(m)
    else if elems[0].JObj? then
      var next :- PutMembers(m, elems[0].members);
      VisibilityFrom(next, elems[1..])
    else VisibilityFrom(m, elems[1..])
  }

  // --------------------------------------------------------- entry fields

  /** `textures`: absent gives no expressions; otherwise the array's strings. */
  function TextureExpressions(obj: Members): Result<seq<string>> {
    match Lookup(obj, "textures")
    case None => Ok([])
    case Some(textures) => ArrayOfStrings(textures)
  }

  /** `geometry`: the string form of a primitive, and "" when the member is
      absent or not a primitive; never a failure. */
  function GeometryExpression(obj: Members): (r: string)
    ensures Lookup(obj, "geometry").None? ==> r == ""
    ensures Lookup(obj, "geometry").Some? ==>
              var g := Lookup(obj, "geometry").value;
              if IsPrimitive(g) then AsString(g) == Ok(r) else r == ""
  {
    match Lookup(obj, "geometry")
    case Some(JStr(s)) => s
    case Some(JNum(literal)) => literal
    case Some(JBool(b)) => if b then "true" else "false"
    case _ => ""
  }

  /** `materials`: absent gives the empty map; otherwise an array merged by
      the materials loop. */
  function MaterialsOf(obj: Members): Result<map<string, string>> {
    match Lookup(obj, "materials")
    case None => Ok(map[])
    case Some(materials) =>
      var elems :- AsArray(materials);
      MaterialsFrom(map[], elems)
  }

  /** `part_visibility`: absent gives the empty ordered map; otherwise an
      array walked by the part-visibility loops. */
  function PartVisibilityOf(obj: Members): Result<OrderedMap> {
    match Lookup(obj, "part_visibility")
    case None => Ok(Empty)
    case Some(visibility) =>
      var elems :- AsArray(visibility);
      VisibilityFrom(Empty, elems)
  }

  /** `ignore_lighting`: false when absent, getAsBoolean otherwise. */
  function IgnoreLighting(obj: Members): Result<bool> {
    match Lookup(obj, "ignore_lighting")
    case None => Ok(false)
    case Some(flag) => AsBoolean(flag)
  }

  /** `light_color_multiplier`: 1.0 when absent, getAsFloat otherwise. */
  function LightColorMultiplier(obj: Members): Result<FloatValue> {
    match Lookup(obj, "light_color_multiplier")
    case None => Ok(DefaultMultiplier)
    case Some(multiplier) => AsFloat(multiplier)
  }

  /** BedrockRenderController.Array.parse (its code is not part of this
      model): one selector array per member of the category's sub-object, in
      order, each member's value an array of expressions. */
  function NamedArrays(members: Members): Result<seq<SelectorArray>> {
    if members == [] then Ok([])
    else
      var expressions :- ArrayOfStrings(members[0].1);
      var rest :- NamedArrays(members[1..]);
      Ok([SelectorArray(members[0].0, expressions)] + rest)
  }

  /** One category of `arrays`: getAsJsonObject(key), then Array.parse, which
      gives no arrays when the category is absent. */
  function ArraysOf(arrays: Members, key: string): Result<seq<SelectorArray>> {
    var category :- ObjectMember(arrays, key);
    match category
    case None => Ok([])
    case Some(members) => NamedArrays(members)
  }

  // ---------------------------------------------------------- controllers

  /** One render controller from the members of its entry, the fields read in
      the source's order so that the first failure is the source's. Without
      an `arrays` member the three selector-array lists are empty. */
  function ControllerOf(identifier: string, obj: Members): (r: Result<RenderController>)
    ensures r.Ok? ==> r.value.identifier == identifier
  {
    var textureExpressions :- TextureExpressions(obj);
    var geometryExpression := GeometryExpression(obj);
    var materials :- MaterialsOf(obj);
    var partVisibility :- PartVisibilityOf(obj);
    var ignoreLighting :- IgnoreLighting(obj);
    var lightColorMultiplier :- LightColorMultiplier(obj);
    var arrays :- ObjectMember(obj, "arrays");
    match arrays
    case None =>
      Ok(RenderController(identifier, materials, geometryExpression, textureExpressions,
                          [], [], [], partVisibility, ignoreLighting, lightColorMultiplier))
    case Some(section) =>
      var textures :- ArraysOf(section, "textures");
      var geometries :- ArraysOf(section, "geometries");
      var materialArrays :- ArraysOf(section, "materials");
      Ok(RenderController(identifier, materials, geometryExpression, textureExpressions,
                          materialArrays, textures, geometries, partVisibility,
                          ignoreLighting, lightColorMultiplier))
  }

  /** The controller of a selected entry. */
  function EntryController(entry: (string, Json)): Result<RenderController>
    requires Selected(entry)
  {
    ControllerOf(entry.0, entry.1.members)
  }

  /** The controller loop: one controller per selected entry, in order. */
  function Controllers(entries: Members): (r: Result<seq<RenderController>>)
    ensures r.Ok? ==> |r.value| <= |entries|
    ensures r.Ok? ==> forall i :: 0 <= i < |r.value| ==> StartsWith(r.value[i].identifier, Prefix)
  {
    if entries == [] then Ok([])
    else if !Selected(entries[0]) then Controllers(entries[1..])
    else
      var controller :- EntryController(entries[0]);
      var rest :- Controllers(entries[1..]);
      Ok([controller] + rest)
  }

  /** parse(JsonObject): no `render_controllers` member gives no controllers;
      otherwise it must be an obj, whose entries the controller loop walks. */
  function Document(json: Members): (r: Result<seq<RenderController>>)
    ensures !Has(json, "render_controllers") ==> r == Ok([])
    ensures Has(json, "render_controllers") && r.Ok? ==> Lookup(json, "render_controllers").value.JObj?
  {
    var section :- ObjectMember(json, "render_controllers");
    match section
    case None => Ok([])
    case Some(entries) => Controllers(entries)
  }

  /** The selected entries, in order: the reference the controller loop is
      measured against. */
  function Filter(entries: Members): (r: Members)
    ensures |r| <= |entries|
    ensures forall e :: e in r <==> e in entries && Selected(e)
    ensures forall i :: 0 <= i < |r| ==> Selected(r[i])
  {
    if entries == [] then []
    else if Selected(entries[0]) then [entries[0]] + Filter(entries[1..])
    else Filter(entries[1..])
  }
}
