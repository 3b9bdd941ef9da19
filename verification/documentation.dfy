/** The root dispatcher and the output envelope: top-level children are
    routed by kind to the class, typedef and namespace builders, and the
    three resulting collections are wrapped with the custom pages and the
    generation metadata. */
module Documentation {
  import opened Wrappers
  import opened Seqs
  import opened Reflection
  import opened ClassDocs
  import opened TypedefDocs
  import opened NamespaceDocs

  /** The schema version of the output envelope. */
  const FormatVersion: int := 20

  /** What `parseRootElement` makes of one top-level child. */
  datatype RootEntry =
    | ClassEntry(classDoc: ClassDoc)
    | TypedefEntry(typedef: TypedefDoc)
    | NamespaceEntry(namespace: NamespaceDoc)
    | Skipped

  predicate IsClassNode(c: Node) {
    IsKind(c, KindClass)
  }

  predicate IsTypedefNode(c: Node) {
    IsKind(c, KindInterface) || IsKind(c, KindTypeAlias) || IsKind(c, KindEnumeration)
  }

  predicate IsNamespaceNode(c: Node) {
    IsKind(c, KindNamespace)
  }

  /** The five kinds the dispatcher documents. */
  predicate IsRoutedNode(c: Node) {
    IsClassNode(c) || IsTypedefNode(c) || IsNamespaceNode(c)
  }

  /** The builder a top-level child is routed to. */
  datatype Destination = ToClasses | ToTypedefs | ToNamespaces | Nowhere

  /** The `switch` of `parseRootElement` on the kind label. */
  function DestinationOf(n: Node): (d: Destination)
    ensures d == ToClasses <==> IsClassNode(n)
    ensures d == ToTypedefs <==> IsTypedefNode(n)
    ensures d == ToNamespaces <==> IsNamespaceNode(n)
    ensures d == Nowhere <==> !IsRoutedNode(n)
  {
    if n.kindString == Some(KindClass) then ToClasses
    else if n.kindString == Some(KindInterface) || n.kindString == Some(KindTypeAlias)
         || n.kindString == Some(KindEnumeration) then ToTypedefs
    else if n.kindString == Some(KindNamespace) then ToNamespaces
    else Nowhere
  }

  /** `parseRootElement`: Class to the class builder; Interface, Type alias
      and Enumeration to the typedef builder; Namespace to the namespace
      builder; any other kind is skipped. */
  function ParseRootElement(n: Node, ren: TypeRenderer): (r: RootEntry)
    ensures r.ClassEntry? <==> IsClassNode(n)
    ensures r.TypedefEntry? <==> IsTypedefNode(n)
    ensures r.NamespaceEntry? <==> IsNamespaceNode(n)
    ensures r.Skipped? <==> !IsRoutedNode(n)
    ensures r.ClassEntry? ==> r.classDoc == ParseClass(n, ren)
    ensures r.TypedefEntry? ==> r.typedef == ParseTypedef(n, ren)
    ensures r.NamespaceEntry? ==> r.namespace == ParseNamespace(n, ren)
  {
    match DestinationOf(n)
    case ToClasses => ClassEntry(ParseClass(n, ren))
    case ToTypedefs => TypedefEntry(ParseTypedef(n, ren))
    case ToNamespaces => NamespaceEntry(ParseNamespace(n, ren))
    case Nowhere => Skipped
  }

  /** The generated documentation: three collections. */
  datatype CodeDoc = CodeDoc(classes: seq<ClassDoc>, typedefs: seq<TypedefDoc>, namespaces: seq<NamespaceDoc>)

  function ClassParser(ren: TypeRenderer): Node -> ClassDoc {
    c => ParseClass(c, ren)
  }

  function NamespaceParser(ren: TypeRenderer): Node -> NamespaceDoc {
    c => ParseNamespace(c, ren)
  }

  /** The reference meaning of the dispatch loop: each collection is the
      children of its kinds, in child order, through its builder. */
  function Route(cs: seq<Node>, ren: TypeRenderer): CodeDoc {
    CodeDoc(
      Map(ClassParser(ren), Filter(IsClassNode, cs)),
      Map(TypedefParser(ren), Filter(IsTypedefNode, cs)),
      Map(NamespaceParser(ren), Filter(IsNamespaceNode, cs)))
  }

  /** The routed collections together hold one entry per child of a routed
      kind, so never more entries than there are children. */
  lemma {:induction false} RouteCount(cs: seq<Node>, ren: TypeRenderer)
    ensures var r := Route(cs, ren);
      |r.classes| + |r.typedefs| + |r.namespaces| == |Filter(IsRoutedNode, cs)| <= |cs|
  {
    FilterPartitionCount(IsClassNode, IsTypedefNode, IsNamespaceNode, IsRoutedNode, cs);
  }

  function Concat(a: CodeDoc, b: CodeDoc): CodeDoc {
    CodeDoc(a.classes + b.classes, a.typedefs + b.typedefs, a.namespaces + b.namespaces)
  }

  /** The contribution of a single routed entry. */
  function EntryDoc(e: RootEntry): CodeDoc {
    match e
    case ClassEntry(c) => CodeDoc([c], [], [])
    case TypedefEntry(t) => CodeDoc([], [t], [])
    case NamespaceEntry(ns) => CodeDoc([], [], [ns])
    case Skipped => CodeDoc([], [], [])
  }

  /** Routing preserves source order: the documentation of children `a + b`
      is that of `a` followed, collection by collection, by that of `b`. */
  lemma RouteAppend(a: seq<Node>, b: seq<Node>, ren: TypeRenderer)
    ensures Route(a + b, ren) == Concat(Route(a, ren), Route(b, ren))
  {
    FilterAppend(IsClassNode, a, b);
    FilterAppend(IsTypedefNode, a, b);
    FilterAppend(IsNamespaceNode, a, b);
    MapAppend(ClassParser(ren), Filter(IsClassNode, a), Filter(IsClassNode, b));
    MapAppend(TypedefParser(ren), Filter(IsTypedefNode, a), Filter(IsTypedefNode, b));
    MapAppend(NamespaceParser(ren), Filter(IsNamespaceNode, a), Filter(IsNamespaceNode, b));
  }

  /** One child lands in exactly the collection `ParseRootElement` names,
      or nowhere when it is skipped. */
  lemma RouteSingle(c: Node, ren: TypeRenderer)
    ensures Route([c], ren) == EntryDoc(ParseRootElement(c, ren))
  {
    MapFilterSingle(ClassParser(ren), IsClassNode, c);
    MapFilterSingle(TypedefParser(ren), IsTypedefNode, c);
    MapFilterSingle(NamespaceParser(ren), IsNamespaceNode, c);
  }

  /** Extending the children by one extends the documentation by that
      child's entry. */
  lemma RouteStep(cs: seq<Node>, i: nat, ren: TypeRenderer)
    requires i < |cs|
    ensures Route(cs[..i + 1], ren) == Concat(Route(cs[..i], ren), EntryDoc(ParseRootElement(cs[i], ren)))
  {
    assert cs[..i + 1] == cs[..i] + [cs[i]];
    RouteAppend(cs[..i], [cs[i]], ren);
    RouteSingle(cs[i], ren);
  }

  /** `generateDocs`: one pass over the top-level children, appending each
      routed entry to its collection. */
  method GenerateDocs(data: Project, ren: TypeRenderer) returns (docs: CodeDoc)
    ensures docs == Route(data.children.GetOr([]), ren)
    ensures |docs.classes| + |docs.typedefs| + |docs.namespaces| <= |data.children.GetOr([])|
    ensures data.children.None? ==> docs == CodeDoc([], [], [])
  {
    var cs := data.children.GetOr([]);
    var classes: seq<ClassDoc> := [];
    var typedefs: seq<TypedefDoc> := [];
    var namespaces: seq<NamespaceDoc> := [];
    for i := 0 to |cs|
      invariant CodeDoc(classes, typedefs, namespaces) == Route(cs[..i], ren)
    {
      var entry := ParseRootElement(cs[i], ren);
      RouteStep(cs, i, ren);
      classes, typedefs, namespaces := Collect(classes, typedefs, namespaces, entry);
    }
    assert cs[..|cs|] == cs;
    RouteCount(cs, ren);
    docs := CodeDoc(classes, typedefs, namespaces);
  }

  /** Appends one routed entry to the collection its variant names. */
  method Collect(classes: seq<ClassDoc>, typedefs: seq<TypedefDoc>, namespaces: seq<NamespaceDoc>, entry: RootEntry)
    returns (classes': seq<ClassDoc>, typedefs': seq<TypedefDoc>, namespaces': seq<NamespaceDoc>)
    ensures CodeDoc(classes', typedefs', namespaces') == Concat(CodeDoc(classes, typedefs, namespaces), EntryDoc(entry))
  {
    classes', typedefs', namespaces' := classes, typedefs, namespaces;
    match entry {
      case ClassEntry(c) => classes' := classes + [c];
      case TypedefEntry(t) => typedefs' := typedefs + [t];
      case NamespaceEntry(ns) => namespaces' := namespaces + [ns];
      case Skipped =>
    }
  }

  /** One custom documentation page, or a slot still waiting for its file. */
  datatype CustomFile = CustomFile(name: string, fileType: string, content: string, path: string)
  datatype CustomCategory = CustomCategory(name: string, files: map<string, Option<CustomFile>>)
  type CustomDocs = map<string, CustomCategory>

  datatype OutputMeta = OutputMeta(version: string, format: int, date: int)

  datatype Output = Output(
    meta: OutputMeta,
    custom: CustomDocs,
    classes: seq<ClassDoc>,
    typedefs: seq<TypedefDoc>,
    namespaces: seq<NamespaceDoc>)

  /** The generated collections carried by an output envelope. */
  function CodeOf(out: Output): CodeDoc {
    CodeDoc(out.classes, out.typedefs, out.namespaces)
  }

  /** `generateFinalOutput`, with the package version and the clock reading
      passed in. */
  function GenerateFinalOutput(codeDocs: CodeDoc, customDocs: CustomDocs, version: string, date: int): (r: Output)
    ensures r.meta.format == 20 && r.meta.version == version && r.meta.date == date
    ensures r.custom == customDocs
    ensures CodeOf(r) == codeDocs
  {
    Output(
      OutputMeta(version, FormatVersion, date),
      customDocs,
      codeDocs.classes,
      codeDocs.typedefs,
      codeDocs.namespaces)
  }
}
