/** BedrockControllerParser: the loops of `parse(JsonObject)` and of
    `arrayToList`, each proved to compute its specification function. A
    Java exception ends the method with an `Err`, as the source has no
    try/catch. */
module BedrockControllerParser {
  import opened JsonTree
  import opened OrderedMaps
  import opened RenderControllers
  import opened ControllerSpec

  /** arrayToList: append each element's getAsString to a list. */
  method ArrayToList(elements: seq<Json>) returns (r: Result<seq<string>>)
    ensures r == Strings(elements)
  {
    var list: seq<string> := [];
    var i := 0;
    assert elements[0..] == elements;
    PrependNothing(Strings(elements));
    while i < |elements|
      invariant 0 <= i <= |elements|
      invariant Strings(elements) == Prepend(list, Strings(elements[i..]))
    {
      assert elements[i..] == [elements[i]] + elements[i + 1..];
      var element :- AsString(elements[i]);
      PrependOne(list, element, Strings(elements[i + 1..]));
      list := list + [element];
      i := i + 1;
    }
    assert elements[i..] == [] && list + [] == list;
    return Ok(list);
  }

  /** The `materials` loop: putAll of objectToMap for every object element. */
  method CollectMaterials(elems: seq<Json>) returns (r: Result<map<string, string>>)
    ensures r == MaterialsFrom(map[], elems)
  {
    var materialsMap: map<string, string> := map[];
    var i := 0;
    while i < |elems|
      invariant 0 <= i <= |elems|
      invariant MaterialsFrom(map[], elems) == MaterialsFrom(materialsMap, elems[i..])
    {
      assert elems[i..] == [elems[i]] + elems[i + 1..];
      if !elems[i].JObj? {
        i := i + 1;
        continue;
      }
      var entries :- ObjectToMap(elems[i].members);
      materialsMap := materialsMap + entries;
      i := i + 1;
    }
    return Ok(materialsMap);
  }

  /** The `part_visibility` loops: for every object element, put each of its
      bones with the bone's string value into a LinkedHashMap. */
  method CollectPartVisibility(elems: seq<Json>) returns (r: Result<OrderedMap>)
    ensures r == VisibilityFrom(Empty, elems)
  {
    var partVisibility := Empty;
    var i := 0;
    while i < |elems|
      invariant 0 <= i <= |elems|
      invariant VisibilityFrom(Empty, elems) == VisibilityFrom(partVisibility, elems[i..])
    {
      assert elems[i..] == [elems[i]] + elems[i + 1..];
      if elems[i].JObj? {
        var obj := elems[i].members;
        var j := 0;
        while j < |obj|
          invariant 0 <= j <= |obj|
          invariant VisibilityFrom(Empty, elems)
                    == (var next :- PutMembers(partVisibility, obj[j..]); VisibilityFrom(next, elems[i + 1..]))
        {
          assert obj[j..] == [obj[j]] + obj[j + 1..];
          var value :- AsString(obj[j].1);
          partVisibility := Put(partVisibility, obj[j].0, value);
          j := j + 1;
        }
      }
      i := i + 1;
    }
    return Ok(partVisibility);
  }

  /** `textures`: arrayToList of the array when the member is present. */
  method ReadTextures(obj: Members) returns (r: Result<seq<string>>)
    ensures r == TextureExpressions(obj)
  {
    var textureExpressions: seq<string> := [];
    var textures := Lookup(obj, "textures");
    if textures.Some? {
      var elements :- AsArray(textures.value);
      textureExpressions :- ArrayToList(elements);
    }
    return Ok(textureExpressions);
  }

  /** `geometry`: the string form of the member when it is a primitive. */
  method ReadGeometry(obj: Members) returns (geometryExpression: string)
    ensures geometryExpression == GeometryExpression(obj)
  {
    geometryExpression := "";
    var geometry := Lookup(obj, "geometry");
    if geometry.Some? && IsPrimitive(geometry.value) {
      geometryExpression := AsString(geometry.value).value;
    }
  }

  /** `materials`: the materials loop over the array when the member is present. */
  method ReadMaterials(obj: Members) returns (r: Result<map<string, string>>)
    ensures r == MaterialsOf(obj)
  {
    var materialsMap: map<string, string> := map[];
    var materials := Lookup(obj, "materials");
    if materials.Some? {
      var elems :- AsArray(materials.value);
      materialsMap :- CollectMaterials(elems);
    }
    return Ok(materialsMap);
  }

  /** `part_visibility`: the part-visibility loops over the array when the
      member is present. */
  method ReadPartVisibility(obj: Members) returns (r: Result<OrderedMap>)
    ensures r == PartVisibilityOf(obj)
  {
    var partVisibility := Empty;
    var visibility := Lookup(obj, "part_visibility");
    if visibility.Some? {
      var elems :- AsArray(visibility.value);
      partVisibility :- CollectPartVisibility(elems);
    }
    return Ok(partVisibility);
  }

  /** `ignore_lighting`: false unless the member is present, then getAsBoolean. */
  method ReadIgnoreLighting(obj: Members) returns (r: Result<bool>)
    ensures r == IgnoreLighting(obj)
  {
    var ignoreLighting := false;
    var flag := Lookup(obj, "ignore_lighting");
    if flag.Some? {
      ignoreLighting :- AsBoolean(flag.value);
    }
    return Ok(ignoreLighting);
  }

  /** `light_color_multiplier`: 1.0 unless the member is present, then getAsFloat. */
  method ReadLightColorMultiplier(obj: Members) returns (r: Result<FloatValue>)
    ensures r == LightColorMultiplier(obj)
  {
    var lightColorMultiplier := DefaultMultiplier;
    var multiplier := Lookup(obj, "light_color_multiplier");
    if multiplier.Some? {
      lightColorMultiplier :- AsFloat(multiplier.value);
    }
    return Ok(lightColorMultiplier);
  }

  /** The body of the controller loop for one selected entry: read each field
      in the source's order, then the selector arrays when `arrays` is present,
      and build the controller. */
  method ParseController(identifier: string, obj: Members) returns (r: Result<RenderController>)
    ensures r == ControllerOf(identifier, obj)
  {
    var textureExpressions :- ReadTextures(obj);
    var geometryExpression := ReadGeometry(obj);
    var materialsMap :- ReadMaterials(obj);
    var partVisibility :- ReadPartVisibility(obj);
    var ignoreLighting :- ReadIgnoreLighting(obj);
    var lightColorMultiplier :- ReadLightColorMultiplier(obj);

    var arrays :- ObjectMember(obj, "arrays");
    if arrays.None? {
      return Ok(RenderController(identifier, materialsMap, geometryExpression, textureExpressions,
                                 [], [], [], partVisibility, ignoreLighting, lightColorMultiplier));
    }

    var textureArrays :- ArraysOf(arrays.value, "textures");
    var geometryArrays :- ArraysOf(arrays.value, "geometries");
    var materialArrays :- ArraysOf(arrays.value, "materials");
    return Ok(RenderController(identifier, materialsMap, geometryExpression, textureExpressions,
                               materialArrays, textureArrays, geometryArrays, partVisibility,
                               ignoreLighting, lightColorMultiplier));
  }

  /** parse(JsonObject): walk the `render_controllers` entries in order, skip
      those whose value is not an object or whose key lacks the prefix, and
      append one controller for each of the others. */
  method Parse(json: Members) returns (r: Result<seq<RenderController>>)
    ensures r == Document(json)
  {
    if !Has(json, "render_controllers") {
      return Ok([]);
    }

    var list: seq<RenderController> := [];
    var section :- ObjectMember(json, "render_controllers");
    var controllers := section.value;
    assert Document(json) == Controllers(controllers);
    assert controllers[0..] == controllers;
    PrependNothing(Controllers(controllers));
    var i := 0;
    while i < |controllers|
      invariant 0 <= i <= |controllers|
      invariant Document(json) == Prepend(list, Controllers(controllers[i..]))
    {
      assert controllers[i..] == [controllers[i]] + controllers[i + 1..];
      var (identifier, value) := controllers[i];
      if !value.JObj? || !StartsWith(identifier, Prefix) {
        i := i + 1;
        continue;
      }
      var controller :- ParseController(identifier, value.members);
      assert EntryController(controllers[i]) == Ok(controller);
      PrependOne(list, controller, Controllers(controllers[i + 1..]));
      list := list + [controller];
      i := i + 1;
    }
    assert controllers[i..] == [] && list + [] == list;
    return Ok(list);
  }
}
