# ts-docgen documentation builders, modelled in Dafny

ts-docgen reads the JSON reflection tree that TypeDoc exports for a
TypeScript project and turns it into documentation records: one record per
class, per typedef (interface, type alias or enumeration) and per namespace.
It then wraps those records in an output envelope together with the custom
documentation pages. This project models that transformation as pure
functions over immutable datatypes and proves what each builder promises.

- `wrappers.dfy` (`Wrappers`): `Option`, the `??` operator (`Or`), and
  `FirstSome`, which gives the meaning of a whole `??` chain.
- `seqs.dfy` (`Seqs`): the `filter`, `map` and `find` the builders apply
  to child and tag lists, with order and partition lemmas.
- `strings.dfy` (`Strings`): small stand-ins for `trim`, `toLowerCase`,
  `path.basename`, `path.dirname` and `path.parse(p).name`.
- `reflection.dfy` (`Reflection`): the input tree.
  - Nodes, comments, tags, flags, sources and type expressions.
  - The type serializer is a `TypeRenderer` parameter whose two functions
    stay uninterpreted.
- `comments.dfy` (`Comments`): the comment reads every builder repeats.
  - Short, long and returns text; tag texts and tag tests.
  - The private check and the default-value chain.
- `meta.dfy` (`Meta`): `parseMeta`.
- `class.dfy` (`ClassDocs`): `parseClass`, `parseClassProp`,
  `parseClassMethod`, `parseClassEvent` and `parseParam`.
- `typedef.dfy` (`TypedefDocs`): `parseKindString` and the four branches
  of `parseTypedef`.
- `namespace.dfy` (`NamespaceDocs`): `parseNamespace`.
- `documentation.dfy` (`Documentation`): `parseRootElement`,
  `generateDocs` and `generateFinalOutput`.

An absent optional field and an empty one are different values throughout,
because the builders tell them apart. For example, `props` is absent rather
than empty when a class has no property children. A few fields are renamed
because their source names are Dafny keywords:

| source | model |
|---|---|
| `abstract` | `isAbstract` |
| `returns` | `returnType` (`returnsText` on a comment) |
| `extends` | `extended` |
| `implements` | `implemented` |
| `type` | `typ` |

The method record keeps the source's spelling `extendDescription`.

Points of the code's behaviour worth knowing:
- A parameter's `optional` is the explicit flag when one is present, so
  an explicit `false` wins over a recorded default
  (src/util/class.ts:204).
- An accessor's default chain is: the accessor's own `@default` tag, then
  its own recorded default, then the getter's tag, then the getter's
  recorded default (src/util/class.ts:92-95 and 128-133).
- For an accessor, the scope and location come from the accessor node,
  not from the getter (src/util/class.ts:84 and 98).
- A plain Property gets its `readonly` from its flag alone; the "no
  setter means read-only" rule applies only to accessors
  (src/util/class.ts:89 and 101).

## Model

| member | source | states |
|---|---|---|
| Wrappers.FirstSome | src/util/class.ts:128-133 | a fallback chain is absent exactly when every candidate is absent; otherwise it is the first present candidate |
| Wrappers.OrChainIsFirstSome | src/util/class.ts:128-133 | a left-to-right `??` chain of four operands picks the first present operand |
| Strings.SplitJoinedPath | src/documentation.ts:100-101 | the base name and directory of `dir/file` are `file` and `dir` |
| Strings.StemOfJoinedPath | src/util/class.ts:40 | the extension-stripped name of `dir/stem.ext` is `stem` |
| Strings.Trim | src/util/class.ts:41 | a trimmed text is the infix left after dropping white space at both ends; it has no surrounding white space, and a text without any is unchanged |
| Comments.ShortText | src/util/class.ts:41 | a description is present exactly when the comment has a short text, and it is that text trimmed |
| Comments.TagTexts | src/util/class.ts:43 | `see`-style lists are absent exactly when the tag list is; otherwise they are the trimmed texts of the matching tags, in tag order |
| Comments.TextsOfAppend | src/util/class.ts:43 | tag texts preserve tag order across a concatenation |
| Comments.HasTag | src/util/class.ts:51-52 | `abstract`/`deprecated` are absent without a tag list, and true exactly when a tag of that name exists |
| Comments.TagText | src/util/class.ts:94 | the `@default` text is that of the first tag of that name, trimmed, and absent when there is none |
| Comments.PrivateAccess | src/util/class.ts:47-50 | access is private exactly when the node is flagged private or has a `private` or `internal` tag |
| Comments.RecordedDefault | src/util/class.ts:95 | a recorded default of "..." reads as no default; any other recorded default is kept |
| Comments.OwnDefault | src/util/class.ts:92-95 | a node's default is the first present of its `@default` tag text and its recorded default |
| Comments.OptionalOf | src/util/class.ts:204 | an explicit optional flag wins, even when it is false; without a flag, a parameter is optional exactly when a default is recorded |
| Meta.ParseMeta | src/documentation.ts:94-106 | location metadata is absent exactly when the sources are missing or empty; otherwise it holds the first source's line, the base name of its file as `file`, and the directory of its file as `path` |
| Meta.ParseMetaRecoversFileName | src/documentation.ts:98-102 | `path + "/" + file` rebuilds the first source's file name when it lies below a directory |
| ClassDocs.ParseParam | src/util/class.ts:200-212 | a parameter record has the short text falling back to the long text, an always-present `optional` (flag first, else default recorded), the default chain, and the rendered type |
| ClassDocs.ParseParams | src/util/class.ts:191 | the parameter list is present exactly when the parameters are, with one record per parameter, in order |
| ClassDocs.ReadonlyRule | src/util/class.ts:114-125 | forcing `true` without a setter, then defaulting to "no setter", leaves "no setter, or flagged read-only" |
| ClassDocs.ParseClassProp | src/util/class.ts:78-139 | see below the table |
| ClassDocs.PropsOfAppend | src/util/class.ts:31-33 | property records preserve child order across a concatenation |
| ClassDocs.PropsOfSingle | src/util/class.ts:31-33 | a Property child or an Accessor child with a getter gives one record; any other child, including a setter-only accessor, gives none |
| ClassDocs.CallSource | src/util/class.ts:175 | a method is read from its first call signature when it has one, else from the node itself |
| ClassDocs.ParseClassMethod | src/util/class.ts:174-196 | name, scope and location come from the node; texts, tags, access, examples, emits, parameters and return type come from the first signature or the node |
| ClassDocs.ParseClassMethodFromSignature | src/util/class.ts:175-195 | documenting through the first signature equals documenting the node with that signature's comment, parameters and type moved onto it |
| ClassDocs.ParseClassEvent | src/util/class.ts:234-236 | an event is documented exactly like a method |
| ClassDocs.ClassName | src/util/class.ts:40 | a class keeps its name, except that "default" becomes the stem of its first source file, or stays "default" without a source |
| ClassDocs.FirstSimple | src/util/class.ts:44-45 | `extends`/`implements` are absent when the list is missing or empty, else a one-element list with the simple rendering of the first type |
| ClassDocs.ConstructorOf | src/util/class.ts:29 | the constructor record is present exactly when a Constructor child exists, and it documents the first such child |
| ClassDocs.MembersOf | src/util/class.ts:55-56 | the method and event lists are absent exactly when no child of that kind exists; otherwise they hold those children's records from the given builder, in child order |
| ClassDocs.PropsField | src/util/class.ts:54 | the property list is absent exactly when no child is a property child; otherwise it holds their records, non-empty |
| ClassDocs.ParseClass | src/util/class.ts:24-59 | a class record relates name, descriptions, heritage, access, tags, location, constructor, properties, methods (through the method builder) and events (through the event builder) to the node and its children |
| ClassDocs.DefaultExportNamedAfterFile | src/util/class.ts:40 | a default export in `src/Foo.ts` is documented as `Foo`, with file `Foo.ts` |
| TypedefDocs.ParseKindString | src/util/typedef.ts:21-31 | the variant is interface exactly for "interface" and enum exactly for "enumeration", compared after lower-casing; anything else, or no label, is type |
| TypedefDocs.ParseKindStringIgnoresCase | src/util/typedef.ts:22 | lower-casing the label first does not change the variant |
| TypedefDocs.ParseKindStringOfRoutedKinds | src/util/typedef.ts:21-31 | Interface, Enumeration and Type alias labels give the interface, enum and type variants; no label gives type |
| TypedefDocs.EnumMember | src/util/typedef.ts:59-63 | an enumeration member keeps its name and short text; its type is `[[[value]]]` exactly when a value is recorded |
| TypedefDocs.MemberType | src/util/typedef.ts:81-89 | a member's type is its declared type, else a Method's own declaration wrapped as an inline type, else absent |
| TypedefDocs.MemberProp | src/util/typedef.ts:73-90 | an object member's record agrees with the parameter builder on name, optional and default; its description falls back to its first signature's short text |
| TypedefDocs.SignatureParam | src/util/typedef.ts:102-112 | a callable typedef's parameter record is the parameter builder's record without the long-text fallback |
| TypedefDocs.ResolvedDeclaration | src/util/typedef.ts:50-54 | the declaration read is the inline declaration of a reflection type, else the node itself for an Interface, else none |
| TypedefDocs.FromDeclaration | src/util/typedef.ts:68-128 | members win over signatures; a declaration with members gives one member record per member, in order |
| TypedefDocs.ParseTypedef | src/util/typedef.ts:33-132 | every branch keeps the node's own name, variant, type, long description and location |
| TypedefDocs.ParseTypedefEnumeration | src/util/typedef.ts:55-66 | a non-reflection Enumeration adds only props, absent when there are no children and otherwise one member record per child, in order |
| TypedefDocs.ParseTypedefMembers | src/util/typedef.ts:68-96 | a resolved declaration with members adds only props, one record per member, in order, and no parameters or return type |
| TypedefDocs.ParseTypedefSignature | src/util/typedef.ts:98-127 | without members, the first signature supplies description, see, access, deprecation, parameters and returns; props stay absent and the long description stays the node's |
| TypedefDocs.ParseTypedefPlain | src/util/typedef.ts:130-131 | with no declaration to read (and not an enumeration), or one with neither members nor signatures, the result is the base record |
| TypedefDocs.AliasOfObjectTypeMatchesInterface | src/util/typedef.ts:50-54 | a type alias of an inline object type and an interface with the same members get the same props |
| NamespaceDocs.Partition | src/util/namespace.ts:28-30 | a partition is absent exactly when no child has its kind; otherwise it is non-empty and holds those children's typedef records, in order |
| NamespaceDocs.ParseNamespace | src/util/namespace.ts:17-34 | a namespace record copies name, external flag, location and comment texts; each partition is present exactly when a child of its kind exists |
| NamespaceDocs.ParseNamespacePartitions | src/util/namespace.ts:18-30 | the partitions hold exactly the Type alias, Interface and Enumeration children; together they hold one record per such child, so no child is in two and others are in none |
| NamespaceDocs.PartitionAppend | src/util/namespace.ts:18-20 | partitions preserve child order across a concatenation |
| Documentation.DestinationOf | src/documentation.ts:61-84 | Class, the three typedef kinds and Namespace each have their own destination, and every other kind, or no kind, has none |
| Documentation.ParseRootElement | src/documentation.ts:60-86 | Class goes to the class builder; Interface, Type alias and Enumeration to the typedef builder; Namespace to the namespace builder; every other kind is skipped |
| Documentation.RouteCount | src/documentation.ts:40-49 | the routed collections together hold one entry per child of a routed kind, so never more than there are children |
| Documentation.RouteAppend | src/documentation.ts:40-49 | routing preserves child order: children `a + b` give the collections of `a` followed by those of `b` |
| Documentation.RouteSingle | src/documentation.ts:41-47 | one child lands in exactly the collection its root entry names, or in none when skipped |
| Documentation.RouteStep | src/documentation.ts:40-49 | one more child extends the collections by exactly that child's entry |
| Documentation.Collect | src/documentation.ts:44-47 | appending an entry extends only the collection its variant names, by that entry |
| Documentation.GenerateDocs | src/documentation.ts:33-58 | the loop's collections equal the routing of the children; their total size is at most the number of children; a project without children gives three empty collections |
| Documentation.GenerateFinalOutput | src/documentation.ts:13-23 | the envelope has format 20 and the given version and date, passes the custom pages through, and carries the generated collections unchanged |

`ClassDocs.ParseClassProp` states:
- name, scope and location always come from the node itself;
- a non-accessor gives the base record built from the node;
- an accessor takes its descriptions, see, access, abstract, deprecated and
  type from its first getter;
- an accessor is read-only exactly when it has no setter or is flagged
  read-only;
- an accessor's default is the first present of its own `@default` tag, its
  own recorded default, the getter's tag, and the getter's recorded default.

## Left out

- `src/index.ts`: reading files, parsing YAML and JSON, loading the custom
  pages, logging, writing the output and exiting. This is I/O plumbing
  around the builders. The custom pages enter the model already loaded, as
  a map.
- The type serializer in `src/util/types.ts` (`parseType`,
  `parseTypeSimple`). It is a `TypeRenderer` parameter whose functions
  are uninterpreted. `typeUtil.isReflectionType` is modelled as "is the
  inline-declaration case". `src/util/types.ts` is not part of this model.
- `Date.now()` and the package version: both are parameters of
  `GenerateFinalOutput`.
- JSON stringification and indentation of the output.
- Strings.Trim: removes only space, tab, CR and LF. JavaScript's `trim`
  also removes the other Unicode white-space characters.
- Strings.Lower: lower-cases only ASCII letters, because the only labels
  compared are ASCII.
- Strings.Basename, Strings.Dirname, Strings.Stem: POSIX `/` paths without
  trailing separators. Reflection file names never carry a trailing
  separator.
- ClassDocs.ParseClassProp: an accessor without a getter makes the source
  throw. The model makes that a precondition instead, because the class
  builder filters such accessors out before calling it.
- The `default` fields are typed as string, boolean or number in the
  source. Recorded defaults in the export are strings, and so is every
  default in the model.
- `generateDocs` skips an entry whose value is falsy. Every built record
  is a non-null object, so only unrouted kinds are ever skipped, and the
  model routes on the kind alone.
