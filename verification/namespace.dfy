/** The namespace builder: a Namespace node becomes a namespace record whose
    type aliases, interfaces and enumerations are its children of those
    kinds, each through the typedef builder. */
module NamespaceDocs {
  import opened Wrappers
  import opened Seqs
  import opened Reflection
  import opened Comments
  import opened Meta
  import opened ClassDocs
  import opened TypedefDocs

  datatype NamespaceDoc = NamespaceDoc(
    name: string,
    description: Option<string>,
    extendedDescription: Option<string>,
    see: Option<seq<string>>,
    deprecated: Option<bool>,
    typeAliases: Option<seq<TypedefDoc>>,
    interfaces: Option<seq<TypedefDoc>>,
    enumerations: Option<seq<TypedefDoc>>,
    meta: Option<DocMeta>,
    isExternal: Option<bool>)

  function TypedefParser(ren: TypeRenderer): Node -> TypedefDoc {
    c => ParseTypedef(c, ren)
  }

  /** The typedef records of the children of one kind, in child order;
      absent, never empty, when there are none. */
  function Partition(cs: seq<Node>, kind: string, ren: TypeRenderer): (r: Option<seq<TypedefDoc>>)
    ensures r.Some? <==> exists i :: 0 <= i < |cs| && IsKind(cs[i], kind)
    ensures r.Some? ==> |r.value| > 0 && r.value == Map(TypedefParser(ren), Filter(KindIs(kind), cs))
  {
    FilterEmpty(KindIs(kind), cs);
    AbsentIfEmpty(Map(TypedefParser(ren), Filter(KindIs(kind), cs)))
  }

  /** `parseNamespace`. */
  function ParseNamespace(n: Node, ren: TypeRenderer): (r: NamespaceDoc)
    ensures r.name == n.name && r.isExternal == n.flags.isExternal && r.meta == ParseMeta(n)
    ensures r.description == ShortText(n.comment) && r.extendedDescription == LongText(n.comment)
    ensures r.see == TagTexts(n.comment, "see")
    ensures r.deprecated.Some? <==> TagsOf(n.comment).Some?
    ensures r.deprecated == Some(true) <==>
      TagsOf(n.comment).Some? && exists i :: 0 <= i < |TagsOf(n.comment).value| && TagsOf(n.comment).value[i].tag == "deprecated"
    ensures r.typeAliases.Some? <==> exists i :: 0 <= i < |ChildrenOf(n)| && IsKind(ChildrenOf(n)[i], KindTypeAlias)
    ensures r.interfaces.Some? <==> exists i :: 0 <= i < |ChildrenOf(n)| && IsKind(ChildrenOf(n)[i], KindInterface)
    ensures r.enumerations.Some? <==> exists i :: 0 <= i < |ChildrenOf(n)| && IsKind(ChildrenOf(n)[i], KindEnumeration)
    ensures r.typeAliases.Some? ==> |r.typeAliases.value| > 0
    ensures r.interfaces.Some? ==> |r.interfaces.value| > 0
    ensures r.enumerations.Some? ==> |r.enumerations.value| > 0
  {
    var cs := ChildrenOf(n);
    NamespaceDoc(
      n.name,
      ShortText(n.comment),
      LongText(n.comment),
      TagTexts(n.comment, "see"),
      HasTag(n.comment, "deprecated"),
      Partition(cs, KindTypeAlias, ren),
      Partition(cs, KindInterface, ren),
      Partition(cs, KindEnumeration, ren),
      ParseMeta(n),
      n.flags.isExternal)
  }

  /** The children a namespace documents. */
  predicate IsNamespaceMember(c: Node) {
    IsKind(c, KindTypeAlias) || IsKind(c, KindInterface) || IsKind(c, KindEnumeration)
  }

  /** A partition as a list, reading absent as empty. */
  function Entries(p: Option<seq<TypedefDoc>>): seq<TypedefDoc> {
    p.GetOr([])
  }

  /** Each partition holds exactly the children of its kind, one record per
      child in child order; together they hold one record per documented
      child, so no child is in two partitions and other kinds are left out. */
  lemma ParseNamespacePartitions(n: Node, ren: TypeRenderer)
    ensures var r := ParseNamespace(n, ren);
      && Entries(r.typeAliases) == Map(TypedefParser(ren), Filter(KindIs(KindTypeAlias), ChildrenOf(n)))
      && Entries(r.interfaces) == Map(TypedefParser(ren), Filter(KindIs(KindInterface), ChildrenOf(n)))
      && Entries(r.enumerations) == Map(TypedefParser(ren), Filter(KindIs(KindEnumeration), ChildrenOf(n)))
      && |Entries(r.typeAliases)| + |Entries(r.interfaces)| + |Entries(r.enumerations)|
         == |Filter(IsNamespaceMember, ChildrenOf(n))| <= |ChildrenOf(n)|
  {
    var cs := ChildrenOf(n);
    FilterEmpty(KindIs(KindTypeAlias), cs);
    FilterEmpty(KindIs(KindInterface), cs);
    FilterEmpty(KindIs(KindEnumeration), cs);
    FilterPartitionCount(KindIs(KindTypeAlias), KindIs(KindInterface), KindIs(KindEnumeration), IsNamespaceMember, cs);
  }

  /** Partitions preserve child order: the entries for children `a + b` are
      the entries for `a` followed by those for `b`. */
  lemma PartitionAppend(a: seq<Node>, b: seq<Node>, kind: string, ren: TypeRenderer)
    ensures Entries(Partition(a + b, kind, ren)) == Entries(Partition(a, kind, ren)) + Entries(Partition(b, kind, ren))
  {
    FilterEmpty(KindIs(kind), a);
    FilterEmpty(KindIs(kind), b);
    FilterEmpty(KindIs(kind), a + b);
    FilterAppend(KindIs(kind), a, b);
    MapAppend(TypedefParser(ren), Filter(KindIs(kind), a), Filter(KindIs(kind), b));
  }
}
