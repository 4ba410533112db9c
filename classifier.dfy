/** Deciding from a stat record whether an entry is a directory or a file,
    and the label `ls` prints for it. */
module Classifier {
  import opened Failures

  datatype Kind = DirKind | FileKind

  /** The flags the remote end reports for a directory: 51 from `stat`, 19
      from `dirlist`. */
  predicate DirFlags(flags: int)
  {
    flags == 51 || flags == 19
  }

  /** The flags reported for a plain file: 48 from `stat`, 16 from `dirlist`. */
  predicate FileFlags(flags: int)
  {
    flags == 48 || flags == 16
  }

  /** The classification used both by `_check_file_or_directory` and by the
      loop of `_get_directory_listing`: directory flags with size 512 give a
      directory, directory flags with any other size fail the size assertion,
      file flags give a file whatever the size, anything else is unknown. */
  function Classify(flags: int, size: int): (r: Result<Kind>)
    ensures r == Ok(DirKind) <==> DirFlags(flags) && size == 512
    ensures r == Ok(FileKind) <==> FileFlags(flags)
    ensures r == Err(DirSizeNot512(flags, size)) <==> DirFlags(flags) && size != 512
    ensures r == Err(UnknownFlags(flags)) <==> !DirFlags(flags) && !FileFlags(flags)
  {
    if DirFlags(flags) then
      if size == 512 then Ok(DirKind) else Err(DirSizeNot512(flags, size))
    else if FileFlags(flags) then Ok(FileKind)
    else Err(UnknownFlags(flags))
  }

  /** The classification fails exactly outside its table, and the size
      matters only for directory flags. */
  lemma ClassifyDomain(flags: int, size: int, size': int)
    ensures Classify(flags, size).Ok? <==> (DirFlags(flags) && size == 512) || FileFlags(flags)
    ensures !DirFlags(flags) ==> Classify(flags, size) == Classify(flags, size')
  {
  }

  const DirLabel: string := "(dir)"
  const ReviewLabel: string := "(dir) [TO BE REVIEWED BECAUSE OF \".\"]"
  const FileLabel: string := "(file)"

  /** The label `ls` prints: a size of 512 means directory, and a directory
      whose name holds a '.' is marked for review. */
  function LsLabel(size: int, name: string): (tag: string)
    ensures tag == FileLabel <==> size != 512
    ensures tag == DirLabel <==> size == 512 && '.' !in name
    ensures tag == ReviewLabel <==> size == 512 && '.' in name
  {
    if size == 512 && '.' !in name then DirLabel
    else if size == 512 && '.' in name then ReviewLabel
    else FileLabel
  }

  /** The size heuristic of `ls` and the flag-based classification disagree
      on a 512-byte file: it is classified as a file but labelled a directory. */
  lemma LabelAndKindDisagreeOn512ByteFile()
    ensures Classify(16, 512) == Ok(FileKind)
    ensures LsLabel(512, "data") == DirLabel
  {
  }
}
