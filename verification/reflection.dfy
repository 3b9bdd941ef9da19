/** The input: the reflection tree a TypeDoc JSON export describes, reduced
    to the fields the documentation builders read, together with the
    interface of the type serializer that renders its type expressions.

    Every optional JSON property is an `Option`; an absent list and an empty
    list are different values, because the builders tell them apart. */
module Reflection {
  import opened Wrappers

  // The `kindString` labels the builders dispatch on (compared exactly).
  const KindClass := "Class"
  const KindInterface := "Interface"
  const KindTypeAlias := "Type alias"
  const KindEnumeration := "Enumeration"
  const KindNamespace := "Namespace"
  const KindProperty := "Property"
  const KindAccessor := "Accessor"
  const KindMethod := "Method"
  const KindConstructor := "Constructor"
  const KindEvent := "Event"

  /** Boolean flags; a flag the export leaves out is `None`. */
  datatype Flags = Flags(
    isPrivate: Option<bool>,
    isStatic: Option<bool>,
    isOptional: Option<bool>,
    isReadonly: Option<bool>,
    isExternal: Option<bool>)

  /** A block tag such as `@see`, `@default` or `@example`, with its text. */
  datatype Tag = Tag(tag: string, text: string)

  datatype Comment = Comment(
    shortText: Option<string>,
    text: Option<string>,
    returnsText: Option<string>,
    tags: Option<seq<Tag>>)

  /** A source location: file name (a '/'-separated path) and line. */
  datatype Source = Source(fileName: string, line: nat)

  /** A declaration reflection. `typ` is the declared type (the JSON property
      `type`). Call signatures, parameters and accessor signatures are
      themselves nodes, as they are in the export. */
  datatype Node = Node(
    name: string,
    kindString: Option<string>,
    flags: Flags,
    comment: Option<Comment>,
    typ: Option<TypeExpr>,
    children: Option<seq<Node>>,
    signatures: Option<seq<Node>>,
    parameters: Option<seq<Node>>,
    getSignature: Option<seq<Node>>,
    setSignature: Option<seq<Node>>,
    extendedTypes: Option<seq<TypeExpr>>,
    implementedTypes: Option<seq<TypeExpr>>,
    sources: Option<seq<Source>>,
    defaultValue: Option<string>)

  /** A type expression. Only the inline-declaration case matters to the
      builders; the others stand for the rest of the variant family, which
      the type serializer alone looks into. */
  datatype TypeExpr =
    | Intrinsic(name: string)
    | Reference(name: string, typeArguments: seq<TypeExpr>)
    | Literal(value: string)
    | Union(types: seq<TypeExpr>)
    | ReflectionType(declaration: Node)

  /** The root of the export. */
  datatype Project = Project(name: string, children: Option<seq<Node>>)

  predicate IsKind(n: Node, kind: string) {
    n.kindString == Some(kind)
  }

  /** `element.children ?? []`. */
  function ChildrenOf(n: Node): seq<Node> {
    n.children.GetOr([])
  }

  /** True when the list property is present and non-empty (JavaScript's
      truthiness of `list?.length`). */
  predicate NonEmpty<T>(list: Option<seq<T>>) {
    list.Some? && |list.value| > 0
  }

  /** `list?.[0]`. */
  function FirstOf<T>(list: Option<seq<T>>): (r: Option<T>)
    ensures r.Some? <==> NonEmpty(list)
    ensures r.Some? ==> r.value == list.value[0]
  {
    if NonEmpty(list) then Some(list.value[0]) else None
  }

  /** The type utility's reflection test: an inline declaration type. */
  predicate IsReflectionType(t: Option<TypeExpr>) {
    t.Some? && t.value.ReflectionType?
  }

  /** The serializer's output, a nested-list "compact type". */
  datatype DocType = Name(text: string) | Nested(items: seq<DocType>)

  /** The type serializer, which this model leaves uninterpreted: `full` is
      `parseType`, `simple` is `parseTypeSimple`. Every builder receives it. */
  datatype TypeRenderer = TypeRenderer(full: TypeExpr -> DocType, simple: TypeExpr -> string)

  /** `t ? parseType(t) : undefined`. */
  function RenderType(ren: TypeRenderer, t: Option<TypeExpr>): (r: Option<DocType>)
    ensures r.Some? <==> t.Some?
    ensures t.Some? ==> r.value == ren.full(t.value)
  {
    match t
    case Some(e) => Some(ren.full(e))
    case None => None
  }
}
