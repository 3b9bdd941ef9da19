/** Source-location metadata attached to every documentation record. */
module Meta {
  import opened Wrappers
  import opened Strings
  import opened Reflection

  datatype DocMeta = DocMeta(line: nat, file: string, path: string)

  /** `parseMeta`: only the first source location counts; its file name is
      split into base name and directory. */
  function ParseMeta(n: Node): (r: Option<DocMeta>)
    ensures r.None? <==> n.sources.None? || |n.sources.value| == 0
    ensures r.Some? ==> r.value.line == n.sources.value[0].line
    ensures r.Some? ==> Lacks(r.value.file, '/') && |r.value.file| <= |n.sources.value[0].fileName|
    ensures r.Some? ==> r.value.file == Basename(n.sources.value[0].fileName)
    ensures r.Some? ==> r.value.path == Dirname(n.sources.value[0].fileName)
  {
    match FirstOf(n.sources)
    case Some(s) => Some(DocMeta(s.line, Basename(s.fileName), Dirname(s.fileName)))
    case None => None
  }

  /** For a file below some directory, `path` and `file` put back together
      give the recorded file name. */
  lemma ParseMetaRecoversFileName(n: Node)
    requires n.sources.Some? && |n.sources.value| > 0
    requires LastIndexOf(n.sources.value[0].fileName, '/') > 0
    ensures ParseMeta(n).Some?
    ensures ParseMeta(n).value.path + "/" + ParseMeta(n).value.file == n.sources.value[0].fileName
  {
    DirnameBasenameJoin(n.sources.value[0].fileName);
  }
}
