/** The values the parser produces: Bedrock render controllers and the named
    selector arrays they carry. */
module RenderControllers {
  import opened JsonTree
  import opened OrderedMaps

  /** One named array of expressions, indexed by expressions such as
      `array.skins[variable.skin_id]`. */
  datatype SelectorArray = SelectorArray(name: string, expressions: seq<string>)

  /** One render controller. `materials` is an unordered map (a HashMap);
      `partVisibility` keeps its bones in insertion order (a LinkedHashMap).
      Each selector-array list is named after the `arrays` sub-object that
      feeds it. */
  datatype RenderController = RenderController(
    identifier: string,
    materials: map<string, string>,
    geometryExpression: string,
    textureExpressions: seq<string>,
    materialArrays: seq<SelectorArray>,
    textureArrays: seq<SelectorArray>,
    geometryArrays: seq<SelectorArray>,
    partVisibility: OrderedMap,
    ignoreLighting: bool,
    lightColorMultiplier: FloatValue)

  /** The value a controller without `light_color_multiplier` gets (1.0f). */
  const DefaultMultiplier := FloatOf("1.0")
}
