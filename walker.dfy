/** One `dirlist` round trip turned into the tool's directory dictionary
    (`_get_directory_listing`), the split of that dictionary into directories
    and files (`_get_dir_list`, `_get_file_list`, `interactive_ls`), the
    per-path checks (`_exists`, `_check_file_or_directory`, `stat`) and `ls`. */
module Walker {
  import opened Paths
  import opened Wrappers
  import opened Remote
  import opened Failures
  import opened Classifier

  /** One pair of `dir_dict`: the path, and 1 for a directory, 0 for a file. */
  datatype Item = Item(key: Path, value: int)

  /** `dir_dict`, in insertion order. */
  type Dict = seq<Item>

  /** The pair for entry `e` of a listing with parent `parent`: a directory's
      key gets a trailing '/'. */
  function ItemOf(parent: Path, e: Entry, k: Kind): Item
  {
    match k
    case DirKind => Item(parent + e.name + "/", 1)
    case FileKind => Item(parent + e.name, 0)
  }

  /** The dictionary built from the entries `es`, or the error of the first
      entry that cannot be classified. */
  function DictSpec(parent: Path, es: seq<Entry>): Result<Dict>
  {
    if es == [] then Ok([])
    else
      match DictSpec(parent, es[..|es| - 1])
      case Err(e) => Err(e)
      case Ok(d) =>
        var last := es[|es| - 1];
        match Classify(last.flags, last.size)
        case Err(e) => Err(e)
        case Ok(k) => Ok(d + [ItemOf(parent, last, k)])
  }

  predicate Placeable(e: Entry)
  {
    Classify(e.flags, e.size).Ok?
  }

  /** Entry `i` is the first one that cannot be classified. */
  predicate FirstUnplaceable(es: seq<Entry>, i: int)
  {
    0 <= i < |es| && !Placeable(es[i]) && forall j | 0 <= j < i :: Placeable(es[j])
  }

  /** What the dictionary is: one pair per entry, in listing order, keyed
      `parent + name + "/"` with value 1 for a directory and `parent + name`
      with value 0 for a file; and it exists exactly when every entry can be
      classified, the error otherwise being that of the first entry that
      cannot. */
  lemma {:induction false} DictSpecMeaning(parent: Path, es: seq<Entry>)
    ensures DictSpec(parent, es).Ok? <==> forall i | 0 <= i < |es| :: Placeable(es[i])
    ensures DictSpec(parent, es).Ok? ==>
      var d := DictSpec(parent, es).value;
      && |d| == |es|
      && forall i | 0 <= i < |es| ::
        d[i] == ItemOf(parent, es[i], Classify(es[i].flags, es[i].size).value)
    ensures DictSpec(parent, es).Err? ==>
      exists i :: FirstUnplaceable(es, i) && Classify(es[i].flags, es[i].size) == Err(DictSpec(parent, es).error)
  {
    if es != [] {
      var init := es[..|es| - 1];
      DictSpecMeaning(parent, init);
      assert forall i | 0 <= i < |init| :: init[i] == es[i];
      if DictSpec(parent, init).Err? {
        var i :| FirstUnplaceable(init, i) && Classify(init[i].flags, init[i].size) == Err(DictSpec(parent, init).error);
        assert FirstUnplaceable(es, i);
      } else if !Placeable(es[|es| - 1]) {
        assert FirstUnplaceable(es, |es| - 1);
      }
    }
  }

  /** Once a prefix of the entries fails, the whole listing fails the same
      way: the loop stops at the first bad entry. */
  lemma {:induction false} DictErrorSticks(parent: Path, es: seq<Entry>, i: int)
    requires 0 <= i <= |es| && DictSpec(parent, es[..i]).Err?
    ensures DictSpec(parent, es) == DictSpec(parent, es[..i])
  {
    if i < |es| {
      var init := es[..|es| - 1];
      assert init[..i] == es[..i];
      DictErrorSticks(parent, init, i);
    } else {
      assert es[..i] == es;
    }
  }

  /** The loop of `_get_directory_listing` over one listing. */
  method DictOf(l: Listing) returns (r: Result<Dict>)
    ensures r == DictSpec(l.parent, l.entries)
  {
    var d: Dict := [];
    var i := 0;
    while i < |l.entries|
      invariant 0 <= i <= |l.entries|
      invariant DictSpec(l.parent, l.entries[..i]) == Ok(d)
    {
      var e := l.entries[i];
      assert l.entries[..i + 1][..i] == l.entries[..i];
      if DirFlags(e.flags) {
        if e.size != 512 {
          DictErrorSticks(l.parent, l.entries, i + 1);
          return Err(DirSizeNot512(e.flags, e.size));
        }
        d := d + [Item(l.parent + e.name + "/", 1)];
      } else if FileFlags(e.flags) {
        d := d + [Item(l.parent + e.name, 0)];
      } else {
        DictErrorSticks(l.parent, l.entries, i + 1);
        return Err(UnknownFlags(e.flags));
      }
      i := i + 1;
    }
    assert l.entries[..i] == l.entries;
    return Ok(d);
  }

  predicate DistinctKeys(d: Dict)
  {
    forall i, j | 0 <= i < j < |d| :: d[i].key != d[j].key
  }

  /** Distinct names under one parent give distinct paths. */
  lemma AppendDistinct(p: string, a: string, b: string)
    requires a != b
    ensures p + a != p + b
  {
    assert (p + a)[|p|..] == a;
    assert (p + b)[|p|..] == b;
  }

  /** The entries of a real listing have distinct proper names, so the keys of
      the dictionary are distinct: it holds one key per entry and the sequence
      of pairs is exactly the Python dict. */
  lemma ListingKeysDistinct(parent: Path, es: seq<Entry>)
    requires forall i | 0 <= i < |es| :: NameOk(es[i].name)
    requires forall i, j | 0 <= i < j < |es| :: es[i].name != es[j].name
    requires DictSpec(parent, es).Ok?
    ensures DistinctKeys(DictSpec(parent, es).value)
  {
    DictSpecMeaning(parent, es);
    var d := DictSpec(parent, es).value;
    forall i, j | 0 <= i < j < |d| ensures d[i].key != d[j].key {
      var ni, nj := es[i].name, es[j].name;
      assert ni[|ni| - 1] in ni && nj[|nj| - 1] in nj;
      AppendDistinct(parent, ni, nj);
      var ki := Classify(es[i].flags, es[i].size).value;
      var kj := Classify(es[j].flags, es[j].size).value;
      var keyI, keyJ := d[i].key, d[j].key;
      if ki == DirKind && kj == DirKind {
        assert keyI[..|keyI| - 1] == parent + ni;
        assert keyJ[..|keyJ| - 1] == parent + nj;
      } else if ki == DirKind && kj == FileKind {
        assert keyI[|keyI| - 1] == '/';
        assert keyJ[|keyJ| - 1] == nj[|nj| - 1];
      } else if ki == FileKind && kj == DirKind {
        assert keyJ[|keyJ| - 1] == '/';
        assert keyI[|keyI| - 1] == ni[|ni| - 1];
      }
    }
  }

  /** The answer of `_get_directory_listing(directory)`: the dictionary and the
      listing, or the failed `dirlist` status, or the first classification
      error. */
  function ListingDict(nodes: map<Path, Node>, directory: Path): Result<(Dict, Listing)>
    requires WellFormed(nodes)
  {
    match ListingOf(nodes, directory)
    case None => Err(CallFailed(DirListCall(directory)))
    case Some(l) =>
      match DictSpec(l.parent, l.entries)
      case Err(e) => Err(e)
      case Ok(d) => Ok((d, l))
  }

  /** `_get_directory_listing`: one `dirlist` call, then the classification
      loop. */
  method GetDirectoryListing(fs: FileSystem, directory: Path) returns (r: Result<(Dict, Listing)>)
    requires fs.Valid()
    modifies fs
    ensures fs.Valid() && fs.nodes == old(fs.nodes)
    ensures fs.log == old(fs.log) + [DirListCall(directory)]
    ensures r == ListingDict(fs.nodes, directory)
  {
    var listing := fs.DirList(directory);
    if listing.None? {
      return Err(CallFailed(DirListCall(directory)));
    }
    var d := DictOf(listing.value);
    if d.Err? {
      return Err(d.error);
    }
    return Ok((d.value, listing.value));
  }

  /** The keys of `d` whose value is `v`, in order: `[k for k, v' in d.items()
      if v' == v]`. */
  function KeysWith(d: Dict, v: int): seq<Path>
  {
    if d == [] then []
    else (if d[0].value == v then [d[0].key] else []) + KeysWith(d[1..], v)
  }

  /** `_get_file_list`. */
  function FilesOf(d: Dict): seq<Path>
  {
    KeysWith(d, 0)
  }

  /** `_get_dir_list`. */
  function DirsOf(d: Dict): seq<Path>
  {
    KeysWith(d, 1)
  }

  function Keys(d: Dict): seq<Path>
  {
    seq(|d|, i requires 0 <= i < |d| => d[i].key)
  }

  /** Selecting keys commutes with concatenation, so the selection keeps the
      dictionary's order. */
  lemma {:induction false} KeysWithAppend(a: Dict, b: Dict, v: int)
    ensures KeysWith(a + b, v) == KeysWith(a, v) + KeysWith(b, v)
  {
    if a != [] {
      assert (a + b)[1..] == a[1..] + b;
      KeysWithAppend(a[1..], b, v);
    } else {
      assert a + b == b;
    }
  }

  /** A key is selected exactly when some pair carries it with value `v`. */
  lemma {:induction false} KeysWithMember(d: Dict, v: int, k: Path)
    ensures k in KeysWith(d, v) <==> exists i :: 0 <= i < |d| && d[i] == Item(k, v)
  {
    if d != [] {
      KeysWithMember(d[1..], v, k);
      if exists i :: 0 <= i < |d[1..]| && d[1..][i] == Item(k, v) {
        var i :| 0 <= i < |d[1..]| && d[1..][i] == Item(k, v);
        assert d[i + 1] == Item(k, v);
      }
      if exists i :: 0 <= i < |d| && d[i] == Item(k, v) {
        var i :| 0 <= i < |d| && d[i] == Item(k, v);
        if i > 0 {
          assert d[1..][i - 1] == Item(k, v);
        }
      }
    }
  }

  /** On a 0/1-valued dictionary the file list and the directory list share
      out its keys: together they hold every key exactly as often as the
      dictionary does. */
  lemma {:induction false} FilesAndDirsPartition(d: Dict)
    requires forall i | 0 <= i < |d| :: d[i].value == 0 || d[i].value == 1
    ensures multiset(FilesOf(d)) + multiset(DirsOf(d)) == multiset(Keys(d))
    ensures |FilesOf(d)| + |DirsOf(d)| == |d|
  {
    if d != [] {
      FilesAndDirsPartition(d[1..]);
      assert Keys(d) == [d[0].key] + Keys(d[1..]);
    }
  }

  /** With distinct keys no key is both a file and a directory. */
  lemma FilesAndDirsDisjoint(d: Dict, k: Path)
    requires DistinctKeys(d)
    ensures !(k in FilesOf(d) && k in DirsOf(d))
  {
    KeysWithMember(d, 0, k);
    KeysWithMember(d, 1, k);
    if k in FilesOf(d) {
      var i :| 0 <= i < |d| && d[i] == Item(k, 0);
      forall j | 0 <= j < |d| ensures d[j] != Item(k, 1) {
        if j < i {
          assert d[j].key != d[i].key;
        } else if i < j {
          assert d[i].key != d[j].key;
        }
      }
    }
  }

  /** What `interactive_ls(directory)` returns: the directories and the files
      of the dictionary. */
  function DirsAndFiles(nodes: map<Path, Node>, directory: Path): Result<(seq<Path>, seq<Path>)>
    requires WellFormed(nodes)
  {
    match ListingDict(nodes, directory)
    case Err(e) => Err(e)
    case Ok(dl) => Ok((DirsOf(dl.0), FilesOf(dl.0)))
  }

  /** `interactive_ls`. */
  method InteractiveLs(fs: FileSystem, directory: Path) returns (r: Result<(seq<Path>, seq<Path>)>)
    requires fs.Valid()
    modifies fs
    ensures fs.Valid() && fs.nodes == old(fs.nodes)
    ensures fs.log == old(fs.log) + [DirListCall(directory)]
    ensures r == DirsAndFiles(fs.nodes, directory)
  {
    var dl := GetDirectoryListing(fs, directory);
    if dl.Err? {
      return Err(dl.error);
    }
    var (d, _) := dl.value;
    return Ok((DirsOf(d), FilesOf(d)));
  }

  /** `_exists`: one `stat` call. */
  method Exists(fs: FileSystem, p: Path) returns (b: bool)
    requires fs.Valid()
    modifies fs
    ensures fs.Valid() && fs.nodes == old(fs.nodes)
    ensures fs.log == old(fs.log) + [StatCall(p)]
    ensures b <==> Canon(p) in fs.nodes
  {
    var s := fs.Stat(p);
    b := s.Some?;
  }

  /** What `_check_file_or_directory(p)` decides from the stat record. */
  function KindOf(nodes: map<Path, Node>, p: Path): Result<Kind>
  {
    match StatOf(nodes, p)
    case None => Err(NotFound(p))
    case Some(s) => Classify(s.flags, s.size)
  }

  /** `_check_file_or_directory`: a `stat`, the `_exists` probe (a second
      `stat`), then the classification. */
  method CheckFileOrDirectory(fs: FileSystem, p: Path) returns (r: Result<Kind>)
    requires fs.Valid()
    modifies fs
    ensures fs.Valid() && fs.nodes == old(fs.nodes)
    ensures fs.log == old(fs.log) + [StatCall(p), StatCall(p)]
    ensures r == KindOf(fs.nodes, p)
  {
    var listing := fs.Stat(p);
    var present := Exists(fs, p);
    if !present {
      return Err(NotFound(p));
    }
    r := Classify(listing.value.flags, listing.value.size);
  }

  /** `stat`: a `stat` and the `_exists` probe; a missing path is reported,
      not a failure. The displayed record is returned. */
  method ShowStat(fs: FileSystem, p: Path) returns (r: Option<StatRecord>)
    requires fs.Valid()
    modifies fs
    ensures fs.Valid() && fs.nodes == old(fs.nodes)
    ensures fs.log == old(fs.log) + [StatCall(p), StatCall(p)]
    ensures r == StatOf(fs.nodes, p)
  {
    var listing := fs.Stat(p);
    var present := Exists(fs, p);
    if !present {
      return None;
    }
    return listing;
  }

  /** One printed line of `ls`: name, size and label. */
  datatype LsLine = LsLine(name: string, size: int, tag: string)

  /** What `ls` shows: a file path alone, or one line per directory entry. */
  datatype LsView = FileShown(path: Path) | DirShown(lines: seq<LsLine>)

  /** A directory entry that `ls` refuses: size 512 and a '.' in its name,
      but not the flags of a directory. */
  predicate LsRejects(e: Entry)
  {
    e.size == 512 && '.' in e.name && !DirFlags(e.flags)
  }

  /** The lines of the `ls` loop, or the failed flag assertion of the first
      entry it refuses. */
  function LsLines(es: seq<Entry>): Result<seq<LsLine>>
  {
    if es == [] then Ok([])
    else
      match LsLines(es[..|es| - 1])
      case Err(e) => Err(e)
      case Ok(lines) =>
        var last := es[|es| - 1];
        if LsRejects(last) then Err(NotDirFlags(last.flags, last.size))
        else Ok(lines + [LsLine(last.name, last.size, LsLabel(last.size, last.name))])
  }

  /** `ls` prints one labelled line per entry, in order, unless some entry is
      refused, in which case it fails with the first refused entry's record. */
  lemma {:induction false} LsLinesMeaning(es: seq<Entry>)
    ensures LsLines(es).Ok? <==> forall i | 0 <= i < |es| :: !LsRejects(es[i])
    ensures LsLines(es).Ok? ==>
      var lines := LsLines(es).value;
      && |lines| == |es|
      && forall i | 0 <= i < |es| :: lines[i] == LsLine(es[i].name, es[i].size, LsLabel(es[i].size, es[i].name))
    ensures LsLines(es).Err? ==>
      exists i :: 0 <= i < |es| && LsRejects(es[i]) && (forall j | 0 <= j < i :: !LsRejects(es[j]))
        && LsLines(es).error == NotDirFlags(es[i].flags, es[i].size)
  {
    if es != [] {
      var init := es[..|es| - 1];
      LsLinesMeaning(init);
      assert forall i | 0 <= i < |init| :: init[i] == es[i];
      if LsLines(init).Err? {
        var i :| 0 <= i < |init| && LsRejects(init[i]) && (forall j | 0 <= j < i :: !LsRejects(init[j]))
          && LsLines(init).error == NotDirFlags(init[i].flags, init[i].size);
        assert LsRejects(es[i]);
      }
    }
  }

  /** The remote calls `ls(p)` makes: the two `stat` calls of the check and,
      for a directory, one `dirlist`. */
  function LsCalls(nodes: map<Path, Node>, p: Path): seq<Call>
  {
    [StatCall(p), StatCall(p)] + (if KindOf(nodes, p) == Ok(DirKind) then [DirListCall(p)] else [])
  }

  /** The outcome of `ls(p)`. */
  function LsSpec(nodes: map<Path, Node>, p: Path): Result<LsView>
    requires WellFormed(nodes)
  {
    match KindOf(nodes, p)
    case Err(e) => Err(e)
    case Ok(FileKind) => Ok(FileShown(p))
    case Ok(DirKind) =>
      match ListingDict(nodes, p)
      case Err(e) => Err(e)
      case Ok(dl) =>
        match LsLines(dl.1.entries)
        case Err(e) => Err(e)
        case Ok(lines) => Ok(DirShown(lines))
  }

  /** `ls`: a file is shown by its path; a directory is listed through
      `_get_directory_listing` and labelled entry by entry. */
  method Ls(fs: FileSystem, p: Path) returns (r: Result<LsView>)
    requires fs.Valid()
    modifies fs
    ensures fs.Valid() && fs.nodes == old(fs.nodes)
    ensures fs.log == old(fs.log) + LsCalls(fs.nodes, p)
    ensures r == LsSpec(fs.nodes, p)
  {
    var kind := CheckFileOrDirectory(fs, p);
    if kind.Err? {
      return Err(kind.error);
    }
    if kind.value == FileKind {
      return Ok(FileShown(p));
    }
    var dl := GetDirectoryListing(fs, p);
    if dl.Err? {
      return Err(dl.error);
    }
    var lines := LsLines(dl.value.1.entries);
    if lines.Err? {
      return Err(lines.error);
    }
    return Ok(DirShown(lines.value));
  }
}
