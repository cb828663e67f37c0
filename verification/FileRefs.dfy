/** References to files by path and digest. */
module FileRefs {
  import opened Text
  import opened Changes
  import opened ReportBuilding
  import J = Json

  datatype FileRef = FileRef(path: string, sha256: string)

  /** A reference as a JSON value; an empty digest is left out. */
  function FileRefValue(ref: Option<FileRef>): Value {
    if ref.None? then J.Null
    else J.Obj([J.Member("path", J.Str(ref.value.path))]
      + if ref.value.sha256 == "" then [] else [J.Member("sha256", J.Str(ref.value.sha256))])
  }

  /** `ValidateFileRef`: a path, and a digest if one is given. */
  predicate IsFileRef(ref: FileRef) { !IsBlank(ref.path) && (ref.sha256 != "" ==> IsHexDigest(ref.sha256)) }
}
