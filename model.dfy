/** The diagram the generator is given, and the parsed attribute it works with. */
module Model {
  import opened Wrappers

  /**
   * One class box of the diagram. `name` is `"<visibility> <ClassName>"`;
   * `attributes` are strings such as `"+name: String"` and `methods` strings
   * such as `"+speak"`.
   */
  datatype ClassNode = ClassNode(id: string, name: string, attributes: seq<string>, methods: seq<string>)

  /**
   * A link between two classes. `kind` is the link's `type` field
   * (`"Inheritance"`, `"Aggregation"`, ...); `source` and `target` are class ids.
   */
  datatype Relationship = Relationship(kind: string, source: string, target: string)

  /** The request body's `diagramData`. */
  datatype DiagramData = DiagramData(classes: seq<ClassNode>, relationships: seq<Relationship>)

  /** An attribute as `{ name, type }`; `typ` is `None` where JavaScript has `undefined`. */
  datatype Attribute = Attribute(name: string, typ: Option<string>)

  /** What the generator derives from one class before it emits any text. */
  datatype NormalizedClass = NormalizedClass(
    className: Option<string>,
    visibility: string,
    attributes: seq<Attribute>,
    methods: seq<string>)
}
