/** The typedef builder: interfaces, type aliases and enumerations become
    typedef records. Which shape the record takes depends on the node's
    declared type and kind: enumeration members, object members, a call
    signature, or nothing beyond the base record. */
module TypedefDocs {
  import opened Wrappers
  import opened Seqs
  import opened Strings
  import opened Reflection
  import opened Comments
  import opened Meta
  import opened ClassDocs

  datatype Variant = TypeVariant | InterfaceVariant | EnumVariant

  datatype TypedefDoc = TypedefDoc(
    name: string,
    description: Option<string>,
    extendedDescription: Option<string>,
    variant: Variant,
    see: Option<seq<string>>,
    access: Option<Access>,
    deprecated: Option<bool>,
    typ: Option<DocType>,
    props: Option<seq<ParamDoc>>,
    params: Option<seq<ParamDoc>>,
    returnType: Option<DocType>,
    returnsDescription: Option<string>,
    meta: Option<DocMeta>)

  /** `parseKindString`: a case-insensitive reading of the kind label. */
  function ParseKindString(kind: Option<string>): (r: Variant)
    ensures r == InterfaceVariant <==> kind.Some? && Lower(kind.value) == "interface"
    ensures r == EnumVariant <==> kind.Some? && Lower(kind.value) == "enumeration"
  {
    match kind
    case None => TypeVariant
    case Some(k) =>
      var lower := Lower(k);
      if lower == "interface" then InterfaceVariant
      else if lower == "enumeration" then EnumVariant
      else TypeVariant
  }

  /** The variant does not depend on the letter case of the kind label. */
  lemma ParseKindStringIgnoresCase(k: string)
    ensures ParseKindString(Some(Lower(k))) == ParseKindString(Some(k))
  {
    LowerIdempotent(k);
  }

  /** The three labels the dispatcher routes to this builder get the three
      variants; anything else, or no label, is a plain type. */
  lemma ParseKindStringOfRoutedKinds()
    ensures ParseKindString(Some(KindInterface)) == InterfaceVariant
    ensures ParseKindString(Some(KindEnumeration)) == EnumVariant
    ensures ParseKindString(Some(KindTypeAlias)) == TypeVariant
    ensures ParseKindString(None) == TypeVariant
  {
    assert Lower(KindInterface) == "interface";
    assert Lower(KindEnumeration) == "enumeration";
    assert Lower(KindTypeAlias) == "type alias";
  }

  /** The record built from the node alone (`baseReturn`). */
  function BaseTypedef(n: Node, ren: TypeRenderer): TypedefDoc {
    TypedefDoc(
      n.name,
      ShortText(n.comment),
      LongText(n.comment),
      ParseKindString(n.kindString),
      TagTexts(n.comment, "see"),
      PrivateAccess(n.flags, n.comment),
      HasTag(n.comment, "deprecated"),
      RenderType(ren, n.typ),
      None, None, None, None,
      ParseMeta(n))
  }

  /** An enumeration member's recorded value wrapped as the compact type
      `[[[value]]]`. */
  function EnumLiteral(value: string): DocType {
    Nested([Nested([Nested([Name(value)])])])
  }

  /** The record of one enumeration member. */
  function EnumMember(child: Node): (r: ParamDoc)
    ensures r.name == child.name && r.description == ShortText(child.comment)
    ensures r.optional.None? && r.default.None?
    ensures r.typ.Some? <==> child.defaultValue.Some?
    ensures r.typ.Some? ==> r.typ.value == EnumLiteral(child.defaultValue.value)
  {
    ParamDoc(
      child.name,
      ShortText(child.comment),
      None,
      None,
      if child.defaultValue.Some? then Some(EnumLiteral(child.defaultValue.value)) else None)
  }

  /** `child.signatures?.[0]?.comment?.shortText?.trim()`. */
  function FirstSignatureShortText(child: Node): Option<string> {
    match FirstOf(child.signatures)
    case Some(s) => ShortText(s.comment)
    case None => None
  }

  /** The type of an object member: its declared type, else for a method
      its own signature wrapped as an inline declaration, else none. */
  function MemberType(child: Node, ren: TypeRenderer): (r: Option<DocType>)
    ensures child.typ.Some? ==> r == Some(ren.full(child.typ.value))
    ensures child.typ.None? && IsKind(child, KindMethod) ==> r == Some(ren.full(ReflectionType(child)))
    ensures child.typ.None? && !IsKind(child, KindMethod) ==> r.None?
  {
    if child.typ.Some? then Some(ren.full(child.typ.value))
    else if IsKind(child, KindMethod) then Some(ren.full(ReflectionType(child)))
    else None
  }

  /** The record of one object member. Name, optionality and default follow
      the parameter builder; the description falls back to the first
      signature's short text. */
  function MemberProp(child: Node, ren: TypeRenderer): (r: ParamDoc)
    ensures r.description == FirstSome([ShortText(child.comment), FirstSignatureShortText(child)])
    ensures r.typ == MemberType(child, ren)
    ensures r.name == ParseParam(child, ren).name
    ensures r.optional == ParseParam(child, ren).optional
    ensures r.default == ParseParam(child, ren).default
    ensures child.typ.Some? ==> r.typ == ParseParam(child, ren).typ
  {
    var ds := [ShortText(child.comment), FirstSignatureShortText(child)];
    assert ds[1..] == [FirstSignatureShortText(child)] && ds[1..][1..] == [];
    ParamDoc(
      child.name,
      ShortText(child.comment).Or(FirstSignatureShortText(child)),
      Some(OptionalOf(child)),
      OwnDefault(child),
      MemberType(child, ren))
  }

  /** The record of a callable typedef's parameter: the parameter builder's
      record, except that the description has no long-text fallback. */
  function SignatureParam(p: Node, ren: TypeRenderer): (r: ParamDoc)
    ensures r == ParseParam(p, ren).(description := ShortText(p.comment))
  {
    ParamDoc(p.name, ShortText(p.comment), Some(OptionalOf(p)), OwnDefault(p), RenderType(ren, p.typ))
  }

  function MemberParser(ren: TypeRenderer): Node -> ParamDoc {
    c => MemberProp(c, ren)
  }

  function SignatureParamParser(ren: TypeRenderer): Node -> ParamDoc {
    p => SignatureParam(p, ren)
  }

  /** The declaration whose members or signatures describe the typedef: the
      inline declaration of a reflection type, else the node itself when it
      is an interface. */
  function ResolvedDeclaration(n: Node): (r: Option<Node>)
    ensures IsReflectionType(n.typ) ==> r == Some(n.typ.value.declaration)
    ensures !IsReflectionType(n.typ) && IsKind(n, KindInterface) ==> r == Some(n)
    ensures !IsReflectionType(n.typ) && !IsKind(n, KindInterface) ==> r.None?
  {
    if IsReflectionType(n.typ) then Some(n.typ.value.declaration)
    else if IsKind(n, KindInterface) then Some(n)
    else None
  }

  /** `r` keeps the identity fields of `base`: name, variant, type, long
      description and location. */
  predicate Keeps(base: TypedefDoc, r: TypedefDoc) {
    && r.name == base.name && r.variant == base.variant && r.typ == base.typ
    && r.extendedDescription == base.extendedDescription && r.meta == base.meta
  }

  /** The record of a callable typedef: the first signature's comment,
      access and deprecation replace the base record's; parameters, return
      type and return description are added. */
  function SignatureTypedef(base: TypedefDoc, sig: Node, ren: TypeRenderer): (r: TypedefDoc)
    ensures Keeps(base, r) && r.props == base.props
  {
    base.(
      description := ShortText(sig.comment),
      see := TagTexts(sig.comment, "see"),
      access := PrivateAccess(sig.flags, sig.comment),
      deprecated := HasTag(sig.comment, "deprecated"),
      params := if sig.parameters.Some? then Some(Map(SignatureParamParser(ren), sig.parameters.value)) else None,
      returnType := RenderType(ren, sig.typ),
      returnsDescription := ReturnsText(sig.comment))
  }

  /** The `if (typeDef)` block: members first, then signatures, else the
      base record. */
  function FromDeclaration(base: TypedefDoc, decl: Node, ren: TypeRenderer): (r: TypedefDoc)
    ensures Keeps(base, r)
    ensures NonEmpty(decl.children) ==> r.props == Some(Map(MemberParser(ren), decl.children.value))
    ensures !NonEmpty(decl.children) ==> r.props == base.props
  {
    if NonEmpty(decl.children) then
      base.(props := Some(Map(MemberParser(ren), decl.children.value)))
    else if NonEmpty(decl.signatures) then
      SignatureTypedef(base, decl.signatures.value[0], ren)
    else
      base
  }

  /** `parseTypedef`. The reflection-type test comes first, so only an
      enumeration without an inline declaration type lists its members as
      enumeration members. */
  function ParseTypedef(n: Node, ren: TypeRenderer): (r: TypedefDoc)
    // Every branch keeps the node's own name, variant, type, long description and location.
    ensures r.name == n.name && r.variant == ParseKindString(n.kindString)
    ensures r.typ == RenderType(ren, n.typ) && r.meta == ParseMeta(n)
    ensures r.extendedDescription == LongText(n.comment)
  {
    var base := BaseTypedef(n, ren);
    if IsReflectionType(n.typ) then
      FromDeclaration(base, n.typ.value.declaration, ren)
    else if IsKind(n, KindInterface) then
      FromDeclaration(base, n, ren)
    else if IsKind(n, KindEnumeration) then
      base.(props := if NonEmpty(n.children) then Some(Map(EnumMember, n.children.value)) else None)
    else
      base
  }

  /** An enumeration without an inline declaration type: one member record
      per child, in order, absent when there are no children; nothing else
      differs from the base record. */
  lemma ParseTypedefEnumeration(n: Node, ren: TypeRenderer)
    requires !IsReflectionType(n.typ) && IsKind(n, KindEnumeration)
    ensures var r := ParseTypedef(n, ren);
      && r == BaseTypedef(n, ren).(props := r.props)
      && (r.props.Some? <==> |ChildrenOf(n)| > 0)
      && (r.props.Some? ==>
            && |r.props.value| == |ChildrenOf(n)|
            && forall i :: 0 <= i < |ChildrenOf(n)| ==> r.props.value[i] == EnumMember(ChildrenOf(n)[i]))
  {
    var props := if NonEmpty(n.children) then Some(Map(EnumMember, n.children.value)) else None;
    assert ParseTypedef(n, ren) == BaseTypedef(n, ren).(props := props);
  }

  /** When the resolved declaration has members: one member record per
      member, in order, and no parameters or return type. */
  lemma ParseTypedefMembers(n: Node, ren: TypeRenderer)
    requires ResolvedDeclaration(n).Some? && NonEmpty(ResolvedDeclaration(n).value.children)
    ensures var r := ParseTypedef(n, ren);
      var members := ResolvedDeclaration(n).value.children.value;
      && r == BaseTypedef(n, ren).(props := r.props)
      && r.props.Some? && |r.props.value| == |members|
      && r.params.None? && r.returnType.None?
      && forall i :: 0 <= i < |members| ==> r.props.value[i] == MemberProp(members[i], ren)
  {
  }

  /** When the resolved declaration has no members but has call signatures:
      the first signature supplies description, tags, parameters and
      return; the long description stays the node's own. */
  lemma ParseTypedefSignature(n: Node, ren: TypeRenderer)
    requires ResolvedDeclaration(n).Some?
    requires !NonEmpty(ResolvedDeclaration(n).value.children)
    requires NonEmpty(ResolvedDeclaration(n).value.signatures)
    ensures var r := ParseTypedef(n, ren);
      var sig := ResolvedDeclaration(n).value.signatures.value[0];
      && r.props.None?
      && r.extendedDescription == LongText(n.comment)
      && r.description == ShortText(sig.comment)
      && r.see == TagTexts(sig.comment, "see")
      && r.access == PrivateAccess(sig.flags, sig.comment)
      && r.deprecated == HasTag(sig.comment, "deprecated")
      && (r.params.Some? <==> sig.parameters.Some?)
      && (r.params.Some? ==>
            && |r.params.value| == |sig.parameters.value|
            && forall i :: 0 <= i < |sig.parameters.value| ==>
                 r.params.value[i] == SignatureParam(sig.parameters.value[i], ren))
      && r.returnType == RenderType(ren, sig.typ)
      && r.returnsDescription == ReturnsText(sig.comment)
  {
  }

  /** With no declaration to read (and not an enumeration), or a declaration
      with neither members nor signatures, the base record is the result. */
  lemma ParseTypedefPlain(n: Node, ren: TypeRenderer)
    requires || (ResolvedDeclaration(n).None? && !IsKind(n, KindEnumeration))
             || (ResolvedDeclaration(n).Some? && !NonEmpty(ResolvedDeclaration(n).value.children)
                 && !NonEmpty(ResolvedDeclaration(n).value.signatures))
    ensures ParseTypedef(n, ren) == BaseTypedef(n, ren)
  {
  }

  /** A type alias of an inline object type documents its members exactly
      as an interface declaring the same members would. */
  lemma AliasOfObjectTypeMatchesInterface(alias: Node, iface: Node, ren: TypeRenderer)
    requires alias.typ.Some? && alias.typ.value.ReflectionType?
    requires !IsReflectionType(iface.typ) && IsKind(iface, KindInterface)
    requires alias.typ.value.declaration.children == iface.children
    ensures ParseTypedef(alias, ren).props == ParseTypedef(iface, ren).props
  {
    var decl := alias.typ.value.declaration;
    assert ParseTypedef(alias, ren) == FromDeclaration(BaseTypedef(alias, ren), decl, ren);
    assert ParseTypedef(iface, ren) == FromDeclaration(BaseTypedef(iface, ren), iface, ren);
  }
}
