/** The class builder: a Class node becomes a class record, its Property
    and Accessor children become property records, its Constructor, Method
    and Event children become method records, and call parameters become
    parameter records.

    Dafny keywords force three field names: `abstract` is `isAbstract`,
    `returns` is `returnType`, `extends`/`implements` are
    `extended`/`implemented`. */
module ClassDocs {
  import opened Wrappers
  import opened Seqs
  import opened Strings
  import opened Reflection
  import opened Comments
  import opened Meta

  datatype Scope = Static

  datatype ParamDoc = ParamDoc(
    name: string,
    description: Option<string>,
    optional: Option<bool>,
    default: Option<string>,
    typ: Option<DocType>)

  datatype PropDoc = PropDoc(
    name: string,
    description: Option<string>,
    extendedDescription: Option<string>,
    see: Option<seq<string>>,
    scope: Option<Scope>,
    access: Option<Access>,
    readonly: Option<bool>,
    isAbstract: Option<bool>,
    deprecated: Option<bool>,
    default: Option<string>,
    typ: Option<DocType>,
    meta: Option<DocMeta>)

  /** A method record. The source spells its long-description field
      `extendDescription`, unlike every other record. */
  datatype MethodDoc = MethodDoc(
    name: string,
    description: Option<string>,
    extendDescription: Option<string>,
    see: Option<seq<string>>,
    scope: Option<Scope>,
    access: Option<Access>,
    examples: Option<seq<string>>,
    isAbstract: Option<bool>,
    deprecated: Option<bool>,
    emits: Option<seq<string>>,
    params: Option<seq<ParamDoc>>,
    returnType: Option<DocType>,
    returnsDescription: Option<string>,
    meta: Option<DocMeta>)

  /** An event is documented by the method builder, so its record is a
      method record. */
  type EventDoc = MethodDoc

  datatype ClassDoc = ClassDoc(
    name: string,
    description: Option<string>,
    extendedDescription: Option<string>,
    see: Option<seq<string>>,
    extended: Option<seq<string>>,
    implemented: Option<seq<string>>,
    examples: Option<seq<string>>,
    access: Option<Access>,
    isAbstract: Option<bool>,
    deprecated: Option<bool>,
    construct: Option<MethodDoc>,
    props: Option<seq<PropDoc>>,
    methods: Option<seq<MethodDoc>>,
    events: Option<seq<EventDoc>>,
    meta: Option<DocMeta>)

  /** `flags.isStatic ? 'static' : undefined`. */
  function ScopeOf(flags: Flags): (r: Option<Scope>)
    ensures r.Some? <==> flags.isStatic == Some(true)
  {
    if flags.isStatic == Some(true) then Some(Static) else None
  }

  // ---------------------------------------------------------------------
  // Parameters

  /** `parseParam`. */
  function ParseParam(p: Node, ren: TypeRenderer): (r: ParamDoc)
    ensures r.name == p.name
    ensures r.description == FirstSome([ShortText(p.comment), LongText(p.comment)])
    ensures r.optional.Some?
    ensures p.flags.isOptional.Some? ==> r.optional == p.flags.isOptional
    ensures p.flags.isOptional.None? ==> r.optional == Some(p.defaultValue.Some?)
    ensures r.default == FirstSome([TagText(p.comment, "default"), RecordedDefault(p)])
    ensures r.typ.Some? <==> p.typ.Some?
    ensures p.typ.Some? ==> r.typ == Some(ren.full(p.typ.value))
  {
    var ds := [ShortText(p.comment), LongText(p.comment)];
    assert ds[1..] == [LongText(p.comment)] && ds[1..][1..] == [];
    ParamDoc(
      p.name,
      ShortText(p.comment).Or(LongText(p.comment)),
      Some(OptionalOf(p)),
      OwnDefault(p),
      RenderType(ren, p.typ))
  }

  function ParamParser(ren: TypeRenderer): Node -> ParamDoc {
    p => ParseParam(p, ren)
  }

  /** The parameter records of a parameter list, one per parameter, in
      order. */
  function ParseParams(ps: Option<seq<Node>>, ren: TypeRenderer): (r: Option<seq<ParamDoc>>)
    ensures r.Some? <==> ps.Some?
    ensures r.Some? ==> |r.value| == |ps.value|
    ensures r.Some? ==> forall i :: 0 <= i < |ps.value| ==> r.value[i] == ParseParam(ps.value[i], ren)
  {
    match ps
    case Some(s) => Some(Map(ParamParser(ren), s))
    case None => None
  }

  // ---------------------------------------------------------------------
  // Properties

  /** `parseClassProp` may only be given accessors that have a getter. */
  predicate PropParsable(n: Node) {
    IsKind(n, KindAccessor) ==> NonEmpty(n.getSignature)
  }

  /** The record built from the node alone (the `base` of `parseClassProp`). */
  function BaseProp(n: Node, ren: TypeRenderer): PropDoc {
    PropDoc(
      n.name,
      ShortText(n.comment),
      LongText(n.comment),
      TagTexts(n.comment, "see"),
      ScopeOf(n.flags),
      PrivateAccess(n.flags, n.comment),
      n.flags.isReadonly,
      HasTag(n.comment, "abstract"),
      HasTag(n.comment, "deprecated"),
      OwnDefault(n),
      RenderType(ren, n.typ),
      ParseMeta(n))
  }

  /** The accessor read-only rule: forcing `true` when there is no setter and
      then defaulting an absent flag to "no setter" leaves exactly "no setter,
      or flagged read-only". */
  lemma ReadonlyRule(flag: Option<bool>, hasSetter: bool)
    ensures (if !hasSetter then Some(true) else flag).Or(Some(!hasSetter))
            == Some(!hasSetter || flag == Some(true))
  {
    if hasSetter && flag.Some? {
      if flag.value {
        assert flag == Some(true);
      } else {
        assert flag == Some(false);
      }
    }
  }

  /** `parseClassProp`. An accessor takes its documentation and type from
      its first getter signature, and is read-only when it has no setter. */
  function ParseClassProp(n: Node, ren: TypeRenderer): (r: PropDoc)
    requires PropParsable(n)
    ensures r.name == n.name && r.scope == ScopeOf(n.flags) && r.meta == ParseMeta(n)
    ensures !IsKind(n, KindAccessor) ==> r == BaseProp(n, ren)
    ensures IsKind(n, KindAccessor) ==>
      var g := n.getSignature.value[0];
      && r.description == ShortText(g.comment)
      && r.extendedDescription == LongText(g.comment)
      && r.see == TagTexts(g.comment, "see")
      && r.access == PrivateAccess(g.flags, g.comment)
      && r.isAbstract == HasTag(g.comment, "abstract")
      && r.deprecated == HasTag(g.comment, "deprecated")
      && r.typ == RenderType(ren, g.typ)
    ensures IsKind(n, KindAccessor) ==>
      r.readonly == Some(!NonEmpty(n.setSignature) || n.flags.isReadonly == Some(true))
    ensures IsKind(n, KindAccessor) ==>
      var g := n.getSignature.value[0];
      r.default == FirstSome([TagText(n.comment, "default"), RecordedDefault(n),
                              TagText(g.comment, "default"), g.defaultValue])
  {
    var base := BaseProp(n, ren);
    if IsKind(n, KindAccessor) then
      var getter := n.getSignature.value[0];
      var hasSetter := NonEmpty(n.setSignature);
      var res := if !hasSetter then base.(readonly := Some(true)) else base;
      ReadonlyRule(n.flags.isReadonly, hasSetter);
      OrChainIsFirstSome(TagText(n.comment, "default"), RecordedDefault(n),
                         TagText(getter.comment, "default"), getter.defaultValue);
      res.(
        description := ShortText(getter.comment),
        extendedDescription := LongText(getter.comment),
        see := TagTexts(getter.comment, "see"),
        access := PrivateAccess(getter.flags, getter.comment),
        readonly := res.readonly.Or(Some(!hasSetter)),
        isAbstract := HasTag(getter.comment, "abstract"),
        deprecated := HasTag(getter.comment, "deprecated"),
        default := res.default.Or(TagText(getter.comment, "default")).Or(getter.defaultValue),
        typ := RenderType(ren, getter.typ))
    else
      base
  }

  /** The children `parseClass` documents as properties: Property nodes, and
      Accessor nodes with a getter. */
  predicate IsPropChild(c: Node) {
    IsKind(c, KindProperty) || (IsKind(c, KindAccessor) && NonEmpty(c.getSignature))
  }

  /** The property records of a child list: its property children, each
      through `ParseClassProp`, in child order. */
  function PropsOf(cs: seq<Node>, ren: TypeRenderer): (r: seq<PropDoc>)
    ensures |r| == |Filter(IsPropChild, cs)|
  {
    var ps := Filter(IsPropChild, cs);
    seq(|ps|, i requires 0 <= i < |ps| => assert ps[i] in ps; ParseClassProp(ps[i], ren))
  }

  /** Property records of a concatenation are those of each part, in order. */
  lemma PropsOfAppend(a: seq<Node>, b: seq<Node>, ren: TypeRenderer)
    ensures PropsOf(a + b, ren) == PropsOf(a, ren) + PropsOf(b, ren)
  {
    FilterAppend(IsPropChild, a, b);
  }

  /** A single child yields one property record when it is a property child
      and none otherwise; in particular a setter-only accessor yields none. */
  lemma PropsOfSingle(c: Node, ren: TypeRenderer)
    ensures IsPropChild(c) ==> PropsOf([c], ren) == [ParseClassProp(c, ren)]
    ensures !IsPropChild(c) ==> PropsOf([c], ren) == []
  {
    FilterSingle(IsPropChild, c);
  }

  // ---------------------------------------------------------------------
  // Methods and events

  /** The node a method record is read from: the first call signature when
      there is one, else the node itself (`signatures[0] || element`). */
  function CallSource(n: Node): (s: Node)
    ensures NonEmpty(n.signatures) ==> s == n.signatures.value[0]
    ensures !NonEmpty(n.signatures) ==> s == n
  {
    FirstOf(n.signatures).GetOr(n)
  }

  /** `parseClassMethod`. Name, scope and location always come from the node;
      comment, parameters and return type from `CallSource(n)`. */
  function ParseClassMethod(n: Node, ren: TypeRenderer): (r: MethodDoc)
    ensures r.name == n.name && r.scope == ScopeOf(n.flags) && r.meta == ParseMeta(n)
    ensures
      var s := if NonEmpty(n.signatures) then n.signatures.value[0] else n;
      && r.description == ShortText(s.comment)
      && r.extendDescription == LongText(s.comment)
      && r.see == TagTexts(s.comment, "see")
      && r.examples == TagTexts(s.comment, "example")
      && r.emits == TagTexts(s.comment, "emits")
      && r.returnsDescription == ReturnsText(s.comment)
      && r.isAbstract == HasTag(s.comment, "abstract")
      && r.deprecated == HasTag(s.comment, "deprecated")
      && (r.access.Some? <==> (n.flags.isPrivate == Some(true)
                               || HasTag(s.comment, "private") == Some(true)
                               || HasTag(s.comment, "internal") == Some(true)))
      && (r.params.Some? <==> s.parameters.Some?)
      && (r.params.Some? ==> |r.params.value| == |s.parameters.value|
                             && forall i :: 0 <= i < |s.parameters.value| ==>
                                  r.params.value[i] == ParseParam(s.parameters.value[i], ren))
      && r.returnType == RenderType(ren, s.typ)
  {
    var sig := CallSource(n);
    MethodDoc(
      n.name,
      ShortText(sig.comment),
      LongText(sig.comment),
      TagTexts(sig.comment, "see"),
      ScopeOf(n.flags),
      PrivateAccess(n.flags, sig.comment),
      TagTexts(sig.comment, "example"),
      HasTag(sig.comment, "abstract"),
      HasTag(sig.comment, "deprecated"),
      TagTexts(sig.comment, "emits"),
      ParseParams(sig.parameters, ren),
      RenderType(ren, sig.typ),
      ReturnsText(sig.comment),
      ParseMeta(n))
  }

  /** Documenting a method through its first signature is the same as
      documenting the node with that signature's comment, parameters and
      return type moved onto it. */
  lemma ParseClassMethodFromSignature(n: Node, ren: TypeRenderer)
    requires NonEmpty(n.signatures)
    ensures
      var s := n.signatures.value[0];
      ParseClassMethod(n, ren)
        == ParseClassMethod(n.(comment := s.comment, parameters := s.parameters, typ := s.typ, signatures := None), ren)
  {
  }

  /** `parseClassEvent`: an event is documented exactly like a method. */
  function ParseClassEvent(n: Node, ren: TypeRenderer): (r: EventDoc)
    ensures r == ParseClassMethod(n, ren)
  {
    ParseClassMethod(n, ren)
  }

  function MethodParser(ren: TypeRenderer): Node -> MethodDoc {
    n => ParseClassMethod(n, ren)
  }

  function EventParser(ren: TypeRenderer): Node -> EventDoc {
    n => ParseClassEvent(n, ren)
  }

  function KindIs(kind: string): Node -> bool {
    (n: Node) => IsKind(n, kind)
  }

  /** `list.length > 0 ? list : undefined`. */
  function AbsentIfEmpty<T>(s: seq<T>): (r: Option<seq<T>>)
    ensures r.Some? <==> |s| > 0
    ensures r.Some? ==> r.value == s
  {
    if |s| > 0 then Some(s) else None
  }

  // ---------------------------------------------------------------------
  // Classes

  /** A class's documented name: its own, except that a default export is
      named after its source file, extension removed. */
  function ClassName(n: Node): (r: string)
    ensures n.name != "default" ==> r == n.name
    ensures n.name == "default" && !NonEmpty(n.sources) ==> r == "default"
    ensures n.name == "default" && NonEmpty(n.sources) ==> r == Stem(n.sources.value[0].fileName)
  {
    var meta := ParseMeta(n);
    if n.name == "default" then
      assert Lacks("default", '/') && Lacks("default", '.');
      Stem(if meta.Some? then meta.value.file else "default")
    else n.name
  }

  /** The simple rendering of the first type of a heritage list, as a
      one-element list. */
  function FirstSimple(types: Option<seq<TypeExpr>>, ren: TypeRenderer): (r: Option<seq<string>>)
    ensures r.Some? <==> NonEmpty(types)
    ensures r.Some? ==> r.value == [ren.simple(types.value[0])]
  {
    match FirstOf(types)
    case Some(t) => Some([ren.simple(t)])
    case None => None
  }

  /** The record of the first Constructor child, if any. */
  function ConstructorOf(cs: seq<Node>, ren: TypeRenderer): (r: Option<MethodDoc>)
    ensures r.Some? <==> exists i :: 0 <= i < |cs| && IsKind(cs[i], KindConstructor)
    ensures r.Some? ==> exists i :: 0 <= i < |cs| && IsKind(cs[i], KindConstructor)
                          && r.value == ParseClassMethod(cs[i], ren)
                          && forall j :: 0 <= j < i ==> !IsKind(cs[j], KindConstructor)
  {
    match FindFirst(KindIs(KindConstructor), cs)
    case Some(c) => Some(ParseClassMethod(c, ren))
    case None => None
  }

  /** The records of the children of one kind, each through `parse`,
      absent when there are none. */
  function MembersOf(cs: seq<Node>, kind: string, parse: Node -> MethodDoc): (r: Option<seq<MethodDoc>>)
    ensures r.Some? <==> exists i :: 0 <= i < |cs| && IsKind(cs[i], kind)
    ensures r.Some? ==> r.value == Map(parse, Filter(KindIs(kind), cs)) && |r.value| > 0
  {
    FilterEmpty(KindIs(kind), cs);
    AbsentIfEmpty(Map(parse, Filter(KindIs(kind), cs)))
  }

  /** The property records of the children, absent when there are none. */
  function PropsField(cs: seq<Node>, ren: TypeRenderer): (r: Option<seq<PropDoc>>)
    ensures r.Some? <==> exists i :: 0 <= i < |cs| && IsPropChild(cs[i])
    ensures r.Some? ==> r.value == PropsOf(cs, ren) && |r.value| > 0
  {
    FilterEmpty(IsPropChild, cs);
    AbsentIfEmpty(PropsOf(cs, ren))
  }

  /** `parseClass`. */
  function ParseClass(n: Node, ren: TypeRenderer): (r: ClassDoc)
    ensures n.name != "default" ==> r.name == n.name
    ensures n.name == "default" && !NonEmpty(n.sources) ==> r.name == "default"
    ensures n.name == "default" && NonEmpty(n.sources) ==> r.name == Stem(n.sources.value[0].fileName)
    ensures r.description == ShortText(n.comment) && r.extendedDescription == LongText(n.comment)
    ensures r.extended.Some? <==> NonEmpty(n.extendedTypes)
    ensures r.extended.Some? ==> r.extended.value == [ren.simple(n.extendedTypes.value[0])]
    ensures r.implemented.Some? <==> NonEmpty(n.implementedTypes)
    ensures r.implemented.Some? ==> r.implemented.value == [ren.simple(n.implementedTypes.value[0])]
    ensures r.access.Some? <==>
      n.flags.isPrivate == Some(true) || HasTag(n.comment, "private") == Some(true) || HasTag(n.comment, "internal") == Some(true)
    ensures r.see == TagTexts(n.comment, "see") && r.examples == TagTexts(n.comment, "example")
    ensures r.isAbstract == HasTag(n.comment, "abstract") && r.deprecated == HasTag(n.comment, "deprecated")
    ensures r.meta == ParseMeta(n)
    ensures r.props.Some? <==> exists i :: 0 <= i < |ChildrenOf(n)| && IsPropChild(ChildrenOf(n)[i])
    ensures r.props.Some? ==> r.props.value == PropsOf(ChildrenOf(n), ren) && |r.props.value| > 0
    ensures r.methods.Some? <==> exists i :: 0 <= i < |ChildrenOf(n)| && IsKind(ChildrenOf(n)[i], KindMethod)
    ensures r.methods.Some? ==> r.methods.value == Map(MethodParser(ren), Filter(KindIs(KindMethod), ChildrenOf(n)))
    ensures r.events.Some? <==> exists i :: 0 <= i < |ChildrenOf(n)| && IsKind(ChildrenOf(n)[i], KindEvent)
    ensures r.events.Some? ==> r.events.value == Map(EventParser(ren), Filter(KindIs(KindEvent), ChildrenOf(n)))
    ensures r.construct == ConstructorOf(ChildrenOf(n), ren)
  {
    var cs := ChildrenOf(n);
    ClassDoc(
      ClassName(n),
      ShortText(n.comment),
      LongText(n.comment),
      TagTexts(n.comment, "see"),
      FirstSimple(n.extendedTypes, ren),
      FirstSimple(n.implementedTypes, ren),
      TagTexts(n.comment, "example"),
      PrivateAccess(n.flags, n.comment),
      HasTag(n.comment, "abstract"),
      HasTag(n.comment, "deprecated"),
      ConstructorOf(cs, ren),
      PropsField(cs, ren),
      MembersOf(cs, KindMethod, MethodParser(ren)),
      MembersOf(cs, KindEvent, EventParser(ren)),
      ParseMeta(n))
  }

  /** A default-exported class declared in `src/Foo.ts` is documented as
      `Foo`, from file `Foo.ts`. */
  lemma DefaultExportNamedAfterFile(n: Node, ren: TypeRenderer)
    requires n.name == "default" && n.sources == Some([Source("src/Foo.ts", 3)])
    ensures ParseClass(n, ren).name == "Foo"
    ensures ParseClass(n, ren).meta.Some? && ParseClass(n, ren).meta.value.file == "Foo.ts"
  {
    StemOfSample();
  }

  lemma StemOfSample()
    ensures Basename("src/Foo.ts") == "Foo.ts"
    ensures Stem("src/Foo.ts") == "Foo"
  {
    var dir, stem, ext := "src", "Foo", "ts";
    assert Lacks(stem, '/') && Lacks(ext, '/') && Lacks(ext, '.');
    StemOfJoinedPath(dir, stem, ext);
    assert dir + "/" + stem + "." + ext == "src/Foo.ts";
    assert stem + "." + ext == "Foo.ts";
  }
}
