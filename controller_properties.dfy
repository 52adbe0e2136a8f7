/** Properties of the render-controller parser, stated over the functions the
    parser's methods are proved to compute. */
module ControllerProperties {
  import opened JsonTree
  import opened OrderedMaps
  import opened RenderControllers
  import opened ControllerSpec

  // ------------------------------------------------------------- textures

  /** arrayToList succeeds exactly when every element has a string form, and
      then yields one string per element, in order. */
  lemma {:induction false} StringsElementwise(elems: seq<Json>)
    ensures Strings(elems).Ok? <==> forall i :: 0 <= i < |elems| ==> AsString(elems[i]).Ok?
    ensures Strings(elems).Ok? ==>
              |Strings(elems).value| == |elems| &&
              forall i :: 0 <= i < |elems| ==> AsString(elems[i]) == Ok(Strings(elems).value[i])
    decreases |elems|
  {
    if elems != [] {
      var rest := elems[1..];
      StringsElementwise(rest);
      assert forall i :: 0 <= i < |rest| ==> rest[i] == elems[i + 1];
    }
  }

  /** `textures` absent gives no expressions; present, it must be an array,
      and the expressions are its elements' strings, one each, in order. */
  lemma TexturesInOrder(obj: Members)
    ensures Lookup(obj, "textures").None? ==> TextureExpressions(obj) == Ok([])
    ensures Lookup(obj, "textures").Some? && !Lookup(obj, "textures").value.JArr? ==>
              TextureExpressions(obj) == Err(NotAnArray)
    ensures TextureExpressions(obj).Ok? && Lookup(obj, "textures").Some? ==>
              var elems := Lookup(obj, "textures").value.elems;
              var textures := TextureExpressions(obj).value;
              |textures| == |elems| &&
              forall i :: 0 <= i < |elems| ==> AsString(elems[i]) == Ok(textures[i])
  {
    var t := Lookup(obj, "textures");
    if t.Some? && t.value.JArr? {
      StringsElementwise(t.value.elems);
    }
  }

  // ------------------------------------------------------------ materials

  /** Binding `p` is the last one with its key. */
  predicate IsLastBinding(bindings: Members, p: int)
    requires 0 <= p < |bindings|
  {
    bindings[p].0 !in Names(bindings[p + 1..])
  }

  /** Putting bindings into a map one by one succeeds exactly when every value
      has a string form; it adds exactly their keys, leaves other keys alone,
      and each key ends up with the value of its last binding. */
  lemma {:induction false} MergeIntoSpec(m: map<string, string>, bindings: Members)
    ensures MergeInto(m, bindings).Ok? <==>
              forall p :: 0 <= p < |bindings| ==> AsString(bindings[p].1).Ok?
    ensures MergeInto(m, bindings).Ok? ==>
              var r := MergeInto(m, bindings).value;
              (forall k :: k in r <==> k in m || k in Names(bindings)) &&
              (forall k :: k in m && k !in Names(bindings) ==> r[k] == m[k]) &&
              (forall p :: 0 <= p < |bindings| && IsLastBinding(bindings, p) ==>
                 AsString(bindings[p].1) == Ok(r[bindings[p].0]))
    decreases |bindings|
  {
    if bindings != [] {
      var key, rest := bindings[0].0, bindings[1..];
      assert forall p :: 0 <= p < |rest| ==> rest[p] == bindings[p + 1];
      assert Names(bindings) == [key] + Names(rest);
      var value := AsString(bindings[0].1);
      if value.Ok? {
        var m' := m[key := value.value];
        MergeIntoSpec(m', rest);
        if MergeInto(m, bindings).Ok? {
          var r := MergeInto(m, bindings).value;
          assert r == MergeInto(m', rest).value;
          forall p | 0 <= p < |bindings| && IsLastBinding(bindings, p)
            ensures AsString(bindings[p].1) == Ok(r[bindings[p].0])
          {
            if p > 0 {
              assert bindings[p + 1..] == rest[p - 1 + 1..];
              assert IsLastBinding(rest, p - 1);
            } else {
              assert key !in Names(rest);
            }
          }
        }
      }
    }
  }

  /** The assumed objectToMap: on an object (whose keys are distinct) it
      succeeds exactly when every value has a string form, and then maps
      exactly the object's keys, each to its own value's string. */
  lemma ObjectToMapSpec(members: Members)
    requires DistinctKeys(members)
    ensures ObjectToMap(members).Ok? <==>
              forall i :: 0 <= i < |members| ==> AsString(members[i].1).Ok?
    ensures ObjectToMap(members).Ok? ==>
              var r := ObjectToMap(members).value;
              (forall k :: k in r <==> k in Names(members)) &&
              forall i :: 0 <= i < |members| ==> AsString(members[i].1) == Ok(r[members[i].0])
  {
    MergeIntoSpec(map[], members);
    forall p | 0 <= p < |members|
      ensures IsLastBinding(members, p)
    {
      var later := Names(members[p + 1..]);
      forall q | 0 <= q < |later|
        ensures later[q] != members[p].0
      {
        assert later[q] == members[p + 1 + q].0;
      }
    }
  }

  /** Putting a concatenation of bindings puts the first part, then the second. */
  lemma {:induction false} MergeIntoAppend(m: map<string, string>, a: Members, b: Members)
    ensures MergeInto(m, a + b) == (var r :- MergeInto(m, a); MergeInto(r, b))
    decreases |a|
  {
    if a != [] {
      assert (a + b)[0] == a[0] && (a + b)[1..] == a[1..] + b;
      var value := AsString(a[0].1);
      if value.Ok? {
        MergeIntoAppend(m[a[0].0 := value.value], a[1..], b);
      }
    } else {
      assert a + b == b;
    }
  }

  /** Putting bindings into `base + m` is putAll of what they make of `m`. */
  lemma {:induction false} MergeIntoPutAll(base: map<string, string>, m: map<string, string>, bindings: Members)
    ensures MergeInto(base + m, bindings) == (var x :- MergeInto(m, bindings); Ok(base + x))
    decreases |bindings|
  {
    if bindings != [] {
      var value := AsString(bindings[0].1);
      if value.Ok? {
        var key := bindings[0].0;
        assert (base + m)[key := value.value] == base + m[key := value.value];
        MergeIntoPutAll(base, m[key := value.value], bindings[1..]);
      }
    }
  }

  /** The materials loop is one left-to-right merge of all the bindings of the
      object elements (putAll of objectToMap, element by element). */
  lemma {:induction false} MaterialsAreMerge(m: map<string, string>, elems: seq<Json>)
    ensures MaterialsFrom(m, elems) == MergeInto(m, Bindings(elems))
    decreases |elems|
  {
    if elems != [] {
      var rest := elems[1..];
      MaterialsAreMerge(m, rest);
      if elems[0].JObj? {
        var members := elems[0].members;
        MergeIntoAppend(m, members, Bindings(rest));
        MergeIntoPutAll(m, map[], members);
        assert m + map[] == m;
        var entries := ObjectToMap(members);
        if entries.Ok? {
          MaterialsAreMerge(m + entries.value, rest);
        }
      } else {
        assert Bindings(elems) == Bindings(rest);
      }
    }
  }

  /** The materials map: it fails exactly when some value of an object element
      has no string form; its keys are the keys of the object elements
      (non-objects are skipped); on a repeated key the later value wins. */
  lemma MaterialsLastWriteWins(elems: seq<Json>)
    ensures var bindings := Bindings(elems);
            MaterialsFrom(map[], elems).Ok? <==>
              forall p :: 0 <= p < |bindings| ==> AsString(bindings[p].1).Ok?
    ensures MaterialsFrom(map[], elems).Ok? ==>
              var bindings := Bindings(elems);
              var materials := MaterialsFrom(map[], elems).value;
              (forall k :: k in materials <==> k in Names(bindings)) &&
              (forall p :: 0 <= p < |bindings| && IsLastBinding(bindings, p) ==>
                 AsString(bindings[p].1) == Ok(materials[bindings[p].0]))
  {
    MaterialsAreMerge(map[], elems);
    MergeIntoSpec(map[], Bindings(elems));
  }

  /** [{a:x}, {b:y}, {a:z}] merges to {a:z, b:y}. */
  lemma MaterialsExample()
    ensures MaterialsFrom(map[], [JObj([("a", JStr("x"))]), JObj([("b", JStr("y"))]), JObj([("a", JStr("z"))])])
            == Ok(map["a" := "z", "b" := "y"])
  {
    var ax, bY, az := [("a", JStr("x"))], [("b", JStr("y"))], [("a", JStr("z"))];
    var elems := [JObj(ax), JObj(bY), JObj(az)];
    assert ObjectToMap(ax) == Ok(map["a" := "x"]) by { assert ax[1..] == []; }
    assert ObjectToMap(bY) == Ok(map["b" := "y"]) by { assert bY[1..] == []; }
    assert ObjectToMap(az) == Ok(map["a" := "z"]) by { assert az[1..] == []; }
    assert elems[1..] == [JObj(bY), JObj(az)] && elems[1..][1..] == [JObj(az)] && elems[1..][1..][1..] == [];
    assert "a" != "b" by { assert "a"[0] != "b"[0]; }
    assert map[] + map["a" := "x"] + map["b" := "y"] + map["a" := "z"] == map["a" := "z", "b" := "y"];
  }

  // ------------------------------------------------------ part visibility

  /** Putting a concatenation of bones puts the first part, then the second. */
  lemma {:induction false} PutMembersAppend(m: OrderedMap, a: Members, b: Members)
    ensures PutMembers(m, a + b) == (var r :- PutMembers(m, a); PutMembers(r, b))
    decreases |a|
  {
    if a != [] {
      assert (a + b)[0] == a[0] && (a + b)[1..] == a[1..] + b;
      var value := AsString(a[0].1);
      if value.Ok? {
        PutMembersAppend(Put(m, a[0].0, value.value), a[1..], b);
      }
    } else {
      assert a + b == b;
    }
  }

  /** The part-visibility loops are one walk over all the bindings of the
      object elements. */
  lemma {:induction false} VisibilityIsPutMembers(m: OrderedMap, elems: seq<Json>)
    ensures VisibilityFrom(m, elems) == PutMembers(m, Bindings(elems))
    decreases |elems|
  {
    if elems != [] {
      var rest := elems[1..];
      if elems[0].JObj? {
        var members := elems[0].members;
        PutMembersAppend(m, members, Bindings(rest));
        var next := PutMembers(m, members);
        if next.Ok? {
          VisibilityIsPutMembers(next.value, rest);
        }
      } else {
        assert Bindings(elems) == Bindings(rest);
        VisibilityIsPutMembers(m, rest);
      }
    }
  }

  /** Putting bones into a LinkedHashMap keeps its invariant, maps keys as a
      plain map would, and lists the keys in the order of their first put. */
  lemma {:induction false} PutMembersSpec(m: OrderedMap, bindings: Members)
    requires Valid(m)
    ensures PutMembers(m, bindings).Ok? == MergeInto(m.values, bindings).Ok?
    ensures PutMembers(m, bindings).Ok? ==>
              var r := PutMembers(m, bindings).value;
              Valid(r) && r.values == MergeInto(m.values, bindings).value &&
              r.keys == DedupOnto(m.keys, Names(bindings))
    decreases |bindings|
  {
    if bindings != [] {
      var key, rest := bindings[0].0, bindings[1..];
      assert Names(bindings) == [key] + Names(rest);
      var value := AsString(bindings[0].1);
      if value.Ok? {
        PutMembersSpec(Put(m, key, value.value), rest);
      }
    }
  }

  /** The part-visibility map succeeds exactly when putting all the bones of
      the object elements into a plain map would; it maps the same keys to the
      same values (later value wins), and its bones are listed in the order of
      their first insertion, with no repeats. */
  lemma PartVisibilitySpec(elems: seq<Json>)
    ensures VisibilityFrom(Empty, elems).Ok? == MergeInto(map[], Bindings(elems)).Ok?
    ensures VisibilityFrom(Empty, elems).Ok? ==>
              var visibility := VisibilityFrom(Empty, elems).value;
              Valid(visibility) &&
              visibility.values == MergeInto(map[], Bindings(elems)).value &&
              visibility.keys == Dedup(Names(Bindings(elems)))
  {
    VisibilityIsPutMembers(Empty, elems);
    PutMembersSpec(Empty, Bindings(elems));
  }

  /** A bone listed before another was first put before it. */
  lemma PartVisibilityFirstInsertion(elems: seq<Json>, i: int, j: int)
    requires VisibilityFrom(Empty, elems).Ok?
    requires 0 <= i < j < |VisibilityFrom(Empty, elems).value.keys|
    ensures var names := Names(Bindings(elems));
            var keys := VisibilityFrom(Empty, elems).value.keys;
            keys[i] in names && keys[j] in names && First(names, keys[i]) < First(names, keys[j])
  {
    PartVisibilitySpec(elems);
    DedupOrder(Names(Bindings(elems)), i, j);
  }

  /** Putting {head:true} and then {arm:false} into the empty map. */
  lemma HeadThenArm()
    ensures PutMembers(Empty, [("head", JStr("true"))]) == Ok(OrderedMap(["head"], map["head" := "true"]))
    ensures PutMembers(OrderedMap(["head"], map["head" := "true"]), [("arm", JStr("false"))])
            == Ok(OrderedMap(["head", "arm"], map["head" := "true", "arm" := "false"]))
  {
    var head, arm := [("head", JStr("true"))], [("arm", JStr("false"))];
    var one := OrderedMap(["head"], map["head" := "true"]);
    assert head[1..] == [] && arm[1..] == [];
    assert Put(Empty, "head", "true") == one by { assert [] + ["head"] == ["head"]; }
    assert "arm" !in one.values by { assert "head"[0] != "arm"[0]; }
    assert ["head"] + ["arm"] == ["head", "arm"];
  }

  /** [{head:true}, {arm:false}] lists head before arm. */
  lemma PartVisibilityOrderExample()
    ensures VisibilityFrom(Empty, [JObj([("head", JStr("true"))]), JObj([("arm", JStr("false"))])])
            == Ok(OrderedMap(["head", "arm"], map["head" := "true", "arm" := "false"]))
  {
    HeadThenArm();
    var elems := [JObj([("head", JStr("true"))]), JObj([("arm", JStr("false"))])];
    assert elems[1..] == [JObj([("arm", JStr("false"))])] && elems[1..][1..] == [];
  }

  /** Putting {head:x} into [head, arm] keeps head in place. */
  lemma HeadAgain()
    ensures PutMembers(OrderedMap(["head", "arm"], map["head" := "true", "arm" := "false"]), [("head", JStr("x"))])
            == Ok(OrderedMap(["head", "arm"], map["head" := "x", "arm" := "false"]))
  {
    var two := OrderedMap(["head", "arm"], map["head" := "true", "arm" := "false"]);
    var head' := [("head", JStr("x"))];
    assert head'[1..] == [];
    assert "head" in two.values;
    assert Put(two, "head", "x") == OrderedMap(["head", "arm"], map["head" := "x", "arm" := "false"]);
  }

  /** A later {head:x} changes head's value and not its place. */
  lemma PartVisibilityUpdateExample()
    ensures VisibilityFrom(Empty, [JObj([("head", JStr("true"))]), JObj([("arm", JStr("false"))]),
                                   JObj([("head", JStr("x"))])])
            == Ok(OrderedMap(["head", "arm"], map["head" := "x", "arm" := "false"]))
  {
    HeadThenArm();
    HeadAgain();
    var one := OrderedMap(["head"], map["head" := "true"]);
    var two := OrderedMap(["head", "arm"], map["head" := "true", "arm" := "false"]);
    var three := OrderedMap(["head", "arm"], map["head" := "x", "arm" := "false"]);
    var elems := [JObj([("head", JStr("true"))]), JObj([("arm", JStr("false"))]), JObj([("head", JStr("x"))])];
    assert elems[2..][1..] == [];
    assert VisibilityFrom(two, elems[2..]) == Ok(three);
    assert elems[1..][1..] == elems[2..];
    assert VisibilityFrom(one, elems[1..]) == VisibilityFrom(two, elems[2..]);
    assert VisibilityFrom(Empty, elems) == VisibilityFrom(one, elems[1..]);
  }

  // ------------------------------------------------------------- arrays

  /** Array.parse gives one selector array per member, in order, named by the
      member's key, each holding that member's expressions; it fails exactly
      when some member is not an array of strings. */
  lemma {:induction false} NamedArraysSpec(members: Members)
    ensures NamedArrays(members).Ok? <==>
              forall i :: 0 <= i < |members| ==> ArrayOfStrings(members[i].1).Ok?
    ensures NamedArrays(members).Ok? ==>
              var arrays := NamedArrays(members).value;
              |arrays| == |members| &&
              forall i :: 0 <= i < |members| ==>
                arrays[i].name == members[i].0 &&
                ArrayOfStrings(members[i].1) == Ok(arrays[i].expressions)
    decreases |members|
  {
    if members != [] {
      var rest := members[1..];
      NamedArraysSpec(rest);
      assert forall i :: 0 <= i < |rest| ==> rest[i] == members[i + 1];
    }
  }

  /** The assumed Array.parse of one category: none when the category is
      absent, a failed cast when it is not an object, and otherwise one
      selector array per member of the category's sub-object. */
  lemma ArraysOfSpec(arrays: Members, key: string)
    ensures Lookup(arrays, key).None? ==> ArraysOf(arrays, key) == Ok([])
    ensures Lookup(arrays, key).Some? && !Lookup(arrays, key).value.JObj? ==>
              ArraysOf(arrays, key) == Err(NotAnObject)
    ensures Lookup(arrays, key).Some? && Lookup(arrays, key).value.JObj? ==>
              ArraysOf(arrays, key) == NamedArrays(Lookup(arrays, key).value.members)
  {
  }

  // ------------------------------------------------------------ one entry

  /** A controller is built exactly when every field can be read; it carries
      the entry's identifier, and each field is what that field's reading
      gives, independently of the other fields. */
  lemma ControllerFields(identifier: string, obj: Members)
    ensures ControllerOf(identifier, obj).Ok? ==>
              TextureExpressions(obj).Ok? && MaterialsOf(obj).Ok? && PartVisibilityOf(obj).Ok? &&
              IgnoreLighting(obj).Ok? && LightColorMultiplier(obj).Ok? &&
              var c := ControllerOf(identifier, obj).value;
              c.identifier == identifier &&
              c.textureExpressions == TextureExpressions(obj).value &&
              c.geometryExpression == GeometryExpression(obj) &&
              c.materials == MaterialsOf(obj).value &&
              c.partVisibility == PartVisibilityOf(obj).value &&
              c.ignoreLighting == IgnoreLighting(obj).value &&
              c.lightColorMultiplier == LightColorMultiplier(obj).value
  {
  }

  /** Lighting: `ignore_lighting` defaults to false and
      `light_color_multiplier` to 1.0; a present member gives its coerced value. */
  lemma LightingDefaults(identifier: string, obj: Members)
    requires ControllerOf(identifier, obj).Ok?
    ensures var c := ControllerOf(identifier, obj).value;
            (Lookup(obj, "ignore_lighting").None? ==> !c.ignoreLighting) &&
            (Lookup(obj, "ignore_lighting").Some? ==>
               AsBoolean(Lookup(obj, "ignore_lighting").value) == Ok(c.ignoreLighting)) &&
            (Lookup(obj, "light_color_multiplier").None? ==> c.lightColorMultiplier == DefaultMultiplier) &&
            (Lookup(obj, "light_color_multiplier").Some? ==>
               AsFloat(Lookup(obj, "light_color_multiplier").value) == Ok(c.lightColorMultiplier))
  {
    ControllerFields(identifier, obj);
  }

  /** Without `arrays` the three selector-array lists are empty, and the
      controller is still built whenever its other fields can be read. */
  lemma ArraysAbsent(identifier: string, obj: Members)
    requires !Has(obj, "arrays")
    ensures ControllerOf(identifier, obj).Ok? <==>
              TextureExpressions(obj).Ok? && MaterialsOf(obj).Ok? && PartVisibilityOf(obj).Ok? &&
              IgnoreLighting(obj).Ok? && LightColorMultiplier(obj).Ok?
    ensures ControllerOf(identifier, obj).Ok? ==>
              var c := ControllerOf(identifier, obj).value;
              c.textureArrays == [] && c.geometryArrays == [] && c.materialArrays == []
  {
  }

  /** With `arrays` present, each selector-array list comes from the
      sub-object of the same category. */
  lemma ArraysPresent(identifier: string, obj: Members, section: Members)
    requires Lookup(obj, "arrays") == Some(JObj(section))
    requires ControllerOf(identifier, obj).Ok?
    ensures var c := ControllerOf(identifier, obj).value;
            ArraysOf(section, "textures") == Ok(c.textureArrays) &&
            ArraysOf(section, "geometries") == Ok(c.geometryArrays) &&
            ArraysOf(section, "materials") == Ok(c.materialArrays)
  {
  }

  // ------------------------------------------------------ the whole list

  /** The controller loop depends on the selected entries only. */
  lemma {:induction false} ControllersOfSelected(entries: Members)
    ensures Controllers(entries) == Controllers(Filter(entries))
    decreases |entries|
  {
    if entries != [] {
      ControllersOfSelected(entries[1..]);
      if Selected(entries[0]) {
        var f := Filter(entries);
        assert f[0] == entries[0] && f[1..] == Filter(entries[1..]);
      }
    }
  }

  /** Over selected entries only, the controller loop builds one controller
      per entry, in order, and fails exactly when some entry fails. */
  lemma {:induction false} ControllersOfSelectedOnly(selected: Members)
    requires forall i :: 0 <= i < |selected| ==> Selected(selected[i])
    ensures Controllers(selected).Ok? <==>
              forall i :: 0 <= i < |selected| ==> EntryController(selected[i]).Ok?
    ensures Controllers(selected).Ok? ==>
              |Controllers(selected).value| == |selected| &&
              forall i :: 0 <= i < |selected| ==>
                EntryController(selected[i]) == Ok(Controllers(selected).value[i])
    decreases |selected|
  {
    if selected != [] {
      var rest := selected[1..];
      assert forall i :: 0 <= i < |rest| ==> rest[i] == selected[i + 1];
      ControllersOfSelectedOnly(rest);
    }
  }

  /** One controller per entry whose value is an object and whose key starts
      with "controller.render", in source order; the whole call fails exactly
      when one of those entries fails. */
  lemma OneControllerPerSelectedEntry(entries: Members)
    ensures var selected := Filter(entries);
            Controllers(entries).Ok? <==>
              forall i :: 0 <= i < |selected| ==> EntryController(selected[i]).Ok?
    ensures Controllers(entries).Ok? ==>
              var selected := Filter(entries);
              |Controllers(entries).value| == |selected| &&
              forall i :: 0 <= i < |selected| ==>
                EntryController(selected[i]) == Ok(Controllers(entries).value[i])
  {
    ControllersOfSelected(entries);
    ControllersOfSelectedOnly(Filter(entries));
  }

  /** An identifier is emitted iff some entry with that key has an object
      value and the prefix; so every emitted identifier has the prefix, and
      there are no more controllers than entries. */
  lemma EmittedIdentifiers(entries: Members, id: string)
    requires Controllers(entries).Ok?
    ensures |Controllers(entries).value| <= |entries|
    ensures forall c :: c in Controllers(entries).value ==> StartsWith(c.identifier, Prefix)
    ensures (exists c :: c in Controllers(entries).value && c.identifier == id) <==>
            (exists e :: e in entries && e.0 == id && Selected(e))
  {
    OneControllerPerSelectedEntry(entries);
    var controllers, selected := Controllers(entries).value, Filter(entries);
    forall c | c in controllers
      ensures exists e :: e in entries && e.0 == c.identifier && Selected(e)
    {
      var i :| 0 <= i < |controllers| && controllers[i] == c;
      assert selected[i] in selected;
    }
    forall e | e in entries && Selected(e)
      ensures exists c :: c in controllers && c.identifier == e.0
    {
      var i :| 0 <= i < |selected| && selected[i] == e;
      assert controllers[i] in controllers;
    }
  }

  /** A document without `render_controllers` yields no controllers. */
  lemma NoRenderControllers(json: Members)
    requires !Has(json, "render_controllers")
    ensures Document(json) == Ok([])
  {
  }

  /** The only controller of
      {"render_controllers": {"controller.render.default": {"geometry": "Geometry.default"}}}
      has that identifier and geometry, and every other field at its default. */
  lemma EndToEndExample()
    ensures Document([("render_controllers",
                       JObj([("controller.render.default", JObj([("geometry", JStr("Geometry.default"))]))]))])
            == Ok([RenderController("controller.render.default", map[], "Geometry.default", [],
                                    [], [], [], Empty, false, DefaultMultiplier)])
  {
    var obj := [("geometry", JStr("Geometry.default"))];
    assert StartsWith("controller.render.default", Prefix);
    assert Lookup(obj, "textures") == None by { assert "geometry"[0] != "textures"[0]; }
    assert Lookup(obj, "materials") == None by { assert "geometry"[0] != "materials"[0]; }
    assert Lookup(obj, "part_visibility") == None by { assert "geometry"[0] != "part_visibility"[0]; }
    assert Lookup(obj, "ignore_lighting") == None by { assert "geometry"[0] != "ignore_lighting"[0]; }
    assert Lookup(obj, "light_color_multiplier") == None by { assert "geometry"[0] != "light_color_multiplier"[0]; }
    assert Lookup(obj, "arrays") == None by { assert "geometry"[0] != "arrays"[0]; }
    var c := RenderController("controller.render.default", map[], "Geometry.default", [],
                              [], [], [], Empty, false, DefaultMultiplier);
    assert ControllerOf("controller.render.default", obj) == Ok(c);
    var entries := [("controller.render.default", JObj(obj))];
    assert Selected(entries[0]);
    assert entries[1..] == [];
    assert Controllers(entries) == Ok([c]) by { assert [c] + [] == [c]; }
  }
}
