/** Reading a doc comment: the field extractions every builder repeats
    (`comment?.shortText?.trim()`, tag filters, the private check, the
    default-value chain), each defined once here. */
module Comments {
  import opened Wrappers
  import opened Seqs
  import opened Strings
  import opened Reflection

  /** The only access level a record can carry; public is absence. */
  datatype Access = Private

  /** `comment?.shortText?.trim()`. */
  function ShortText(c: Option<Comment>): (r: Option<string>)
    ensures r.Some? <==> c.Some? && c.value.shortText.Some?
    ensures r.Some? ==> r.value == Trim(c.value.shortText.value) && IsTrimmed(r.value)
  {
    if c.Some? && c.value.shortText.Some? then Some(Trim(c.value.shortText.value)) else None
  }

  /** `comment?.text?.trim()`. */
  function LongText(c: Option<Comment>): (r: Option<string>)
    ensures r.Some? <==> c.Some? && c.value.text.Some?
    ensures r.Some? ==> r.value == Trim(c.value.text.value) && IsTrimmed(r.value)
  {
    if c.Some? && c.value.text.Some? then Some(Trim(c.value.text.value)) else None
  }

  /** `comment?.returns?.trim()`. */
  function ReturnsText(c: Option<Comment>): (r: Option<string>)
    ensures r.Some? <==> c.Some? && c.value.returnsText.Some?
    ensures r.Some? ==> r.value == Trim(c.value.returnsText.value) && IsTrimmed(r.value)
  {
    if c.Some? && c.value.returnsText.Some? then Some(Trim(c.value.returnsText.value)) else None
  }

  /** `comment?.tags`. */
  function TagsOf(c: Option<Comment>): Option<seq<Tag>> {
    if c.Some? then c.value.tags else None
  }

  function TrimmedText(t: Tag): string {
    Trim(t.text)
  }

  /** The test `t => t.tag === name`. */
  function Named(name: string): Tag -> bool {
    (t: Tag) => t.tag == name
  }

  /** The trimmed texts of the tags called `name`, in tag order. */
  function TextsOf(tags: seq<Tag>, name: string): (r: seq<string>)
    ensures |r| <= |tags|
    ensures forall i :: 0 <= i < |r| ==> IsTrimmed(r[i])
  {
    Map(TrimmedText, Filter(Named(name), tags))
  }

  /** Tag texts of a concatenation are the texts of each part, in order. */
  lemma TextsOfAppend(a: seq<Tag>, b: seq<Tag>, name: string)
    ensures TextsOf(a + b, name) == TextsOf(a, name) + TextsOf(b, name)
  {
    FilterAppend(Named(name), a, b);
    MapAppend(TrimmedText, Filter(Named(name), a), Filter(Named(name), b));
  }

  /** One tag contributes its trimmed text exactly when its name matches. */
  lemma TextsOfSingle(t: Tag, name: string)
    ensures TextsOf([t], name) == if t.tag == name then [Trim(t.text)] else []
  {
    FilterSingle(Named(name), t);
  }

  /** `comment?.tags?.filter(t => t.tag === name).map(t => t.text.trim())`:
      absent when the comment or its tag list is. */
  function TagTexts(c: Option<Comment>, name: string): (r: Option<seq<string>>)
    ensures r.Some? <==> TagsOf(c).Some?
    ensures r.Some? ==> r.value == TextsOf(TagsOf(c).value, name)
  {
    match TagsOf(c)
    case Some(ts) => Some(TextsOf(ts, name))
    case None => None
  }

  /** `comment?.tags?.some(t => t.tag === name)`. */
  function HasTag(c: Option<Comment>, name: string): (r: Option<bool>)
    ensures r.Some? <==> TagsOf(c).Some?
    ensures r == Some(true) <==>
      TagsOf(c).Some? && exists i :: 0 <= i < |TagsOf(c).value| && TagsOf(c).value[i].tag == name
  {
    match TagsOf(c)
    case Some(ts) => Some(exists i | 0 <= i < |ts| :: ts[i].tag == name)
    case None => None
  }

  /** `comment?.tags?.find(t => t.tag === name)?.text?.trim()`: the text of
      the first tag of that name. */
  function TagText(c: Option<Comment>, name: string): (r: Option<string>)
    ensures r.None? <==>
      TagsOf(c).None? || forall i :: 0 <= i < |TagsOf(c).value| ==> TagsOf(c).value[i].tag != name
    ensures r.Some? ==> exists i :: 0 <= i < |TagsOf(c).value| && TagsOf(c).value[i].tag == name
                          && r.value == Trim(TagsOf(c).value[i].text)
                          && forall j :: 0 <= j < i ==> TagsOf(c).value[j].tag != name
  {
    match TagsOf(c)
    case Some(ts) =>
      (match FindFirst(Named(name), ts)
       case Some(t) => Some(Trim(t.text))
       case None => None)
    case None => None
  }

  /** `'private'` when the flags say private or the comment carries an
      `@private` or `@internal` tag. */
  function PrivateAccess(flags: Flags, c: Option<Comment>): (r: Option<Access>)
    ensures r.Some? <==>
      flags.isPrivate == Some(true) || HasTag(c, "private") == Some(true) || HasTag(c, "internal") == Some(true)
  {
    if flags.isPrivate == Some(true) || HasTag(c, "private") == Some(true) || HasTag(c, "internal") == Some(true)
    then Some(Private) else None
  }

  /** The literal default a node records, with the placeholder "..." read
      as no default. */
  function RecordedDefault(n: Node): (r: Option<string>)
    ensures r.Some? <==> n.defaultValue.Some? && n.defaultValue.value != "..."
    ensures r.Some? ==> r == n.defaultValue
  {
    if n.defaultValue == Some("...") then None else n.defaultValue
  }

  /** A node's own default: its `@default` tag text, else its recorded
      default. */
  function OwnDefault(n: Node): (r: Option<string>)
    ensures r == FirstSome([TagText(n.comment, "default"), RecordedDefault(n)])
  {
    var cs := [TagText(n.comment, "default"), RecordedDefault(n)];
    assert cs[1..] == [RecordedDefault(n)] && cs[1..][1..] == [];
    TagText(n.comment, "default").Or(RecordedDefault(n))
  }

  /** `flags.isOptional ?? typeof defaultValue != 'undefined'`: an explicit
      flag wins, even when it is false and a default exists. */
  function OptionalOf(n: Node): (r: bool)
    ensures n.flags.isOptional.Some? ==> r == n.flags.isOptional.value
    ensures n.flags.isOptional.None? ==> (r <==> n.defaultValue.Some?)
  {
    n.flags.isOptional.GetOr(n.defaultValue.Some?)
  }
}
