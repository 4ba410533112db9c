/** `stat_dir` with `get_size=True` and `dir_size`: the recursive size of a
    directory, where every entry of exactly 512 bytes is taken for a
    subdirectory and descended into. */
module Sizes {
  import opened Paths
  import opened Remote
  import opened Failures
  import opened Classifier

  /** What `dir_size(d)` returns: 0 plus, for every entry in listing order, its
      own size, or, for a 512-byte entry (which must carry directory flags),
      the size of the subdirectory below it. */
  function SizeOf(nodes: map<Path, Node>, d: Path): Result<int>
    requires WellFormed(nodes)
    decreases Under(nodes, Canon(d) + "/"), 1, 0
  {
    match ListingOf(nodes, d)
    case None => Err(CallFailed(DirListCall(d)))
    case Some(l) => SumEntries(nodes, l.parent, l.entries)
  }

  /** The running total of the size loop of `stat_dir` over `es`. */
  function SumEntries(nodes: map<Path, Node>, parent: Path, es: seq<Entry>): Result<int>
    requires WellFormed(nodes)
    requires forall i | 0 <= i < |es| :: NameOk(es[i].name) && parent + es[i].name in nodes
    decreases Under(nodes, parent), 0, |es|
  {
    if es == [] then Ok(0)
    else
      var init := es[..|es| - 1];
      assert forall i | 0 <= i < |init| :: init[i] == es[i];
      match SumEntries(nodes, parent, init)
      case Err(e) => Err(e)
      case Ok(acc) => AddEntry(nodes, parent, acc, es[|es| - 1])
  }

  /** One turn of the size loop: a 512-byte entry must carry directory flags
      and adds the size of the subdirectory, any other entry adds its own
      size. */
  function AddEntry(nodes: map<Path, Node>, parent: Path, acc: int, e: Entry): Result<int>
    requires WellFormed(nodes)
    requires NameOk(e.name) && parent + e.name in nodes
    decreases Under(nodes, parent), 0, 0
  {
    if e.size != 512 then Ok(acc + e.size)
    else if !DirFlags(e.flags) then Err(NotDirFlags(e.flags, e.size))
    else
      UnderShrinks(nodes, nodes, parent, e.name);
      match SizeOf(nodes, parent + e.name)
      case Err(err) => Err(err)
      case Ok(s) => Ok(acc + s)
  }

  /** The loop's running total after one more entry. */
  lemma SumEntriesStep(nodes: map<Path, Node>, parent: Path, es: seq<Entry>, i: int, acc: int)
    requires WellFormed(nodes)
    requires forall j | 0 <= j < |es| :: NameOk(es[j].name) && parent + es[j].name in nodes
    requires 0 <= i < |es| && SumEntries(nodes, parent, es[..i]) == Ok(acc)
    ensures SumEntries(nodes, parent, es[..i + 1]) == AddEntry(nodes, parent, acc, es[i])
  {
    assert es[..i + 1][..i] == es[..i];
  }

  /** Once a prefix of the entries fails, the whole loop fails the same way. */
  lemma {:induction false} SumErrorSticks(nodes: map<Path, Node>, parent: Path, es: seq<Entry>, i: int)
    requires WellFormed(nodes)
    requires forall j | 0 <= j < |es| :: NameOk(es[j].name) && parent + es[j].name in nodes
    requires 0 <= i <= |es| && SumEntries(nodes, parent, es[..i]).Err?
    ensures SumEntries(nodes, parent, es) == SumEntries(nodes, parent, es[..i])
  {
    if i < |es| {
      var init := es[..|es| - 1];
      assert init[..i] == es[..i];
      SumErrorSticks(nodes, parent, init, i);
    } else {
      assert es[..i] == es;
    }
  }

  /** `stat_dir(d, show_output, get_size)`: one `dirlist`, which must succeed,
      then, when `get_size` holds, the size loop. Only reading calls are
      made. */
  method StatDir(fs: FileSystem, d: Path, getSize: bool) returns (r: Result<int>)
    requires fs.Valid()
    modifies fs
    decreases Under(fs.nodes, Canon(d) + "/"), 1
    ensures fs.Valid() && fs.nodes == old(fs.nodes)
    ensures r == if ListingOf(fs.nodes, d).None? then Err(CallFailed(DirListCall(d)))
                 else if getSize then SizeOf(fs.nodes, d) else Ok(0)
    ensures ReadOnlySuffix(old(fs.log), fs.log)
    ensures |fs.log| > |old(fs.log)| && fs.log[|old(fs.log)|] == DirListCall(d)
    ensures !getSize || ListingOf(fs.nodes, d).None? ==> fs.log == old(fs.log) + [DirListCall(d)]
  {
    var listing := fs.DirList(d);
    if listing.None? {
      return Err(CallFailed(DirListCall(d)));
    }
    if !getSize {
      return Ok(0);
    }
    ghost var before := fs.log;
    r := SizeLoop(fs, listing.value);
    ReadOnlySuffixTrans(old(fs.log), before, fs.log);
  }

  /** The size loop of `stat_dir` over one listing, calling `dir_size` on
      every 512-byte entry. */
  method SizeLoop(fs: FileSystem, l: Listing) returns (r: Result<int>)
    requires fs.Valid() && ListingFits(fs.nodes, l)
    modifies fs
    decreases Under(fs.nodes, l.parent), 0
    ensures fs.Valid() && fs.nodes == old(fs.nodes)
    ensures r == SumEntries(fs.nodes, l.parent, l.entries)
    ensures ReadOnlySuffix(old(fs.log), fs.log)
  {
    var total := 0;
    var i := 0;
    while i < |l.entries|
      invariant 0 <= i <= |l.entries|
      invariant fs.Valid() && fs.nodes == old(fs.nodes)
      invariant SumEntries(fs.nodes, l.parent, l.entries[..i]) == Ok(total)
      invariant ReadOnlySuffix(old(fs.log), fs.log)
    {
      var e := l.entries[i];
      SumEntriesStep(fs.nodes, l.parent, l.entries, i, total);
      if e.size == 512 {
        if !DirFlags(e.flags) {
          SumErrorSticks(fs.nodes, l.parent, l.entries, i + 1);
          return Err(NotDirFlags(e.flags, e.size));
        }
        UnderShrinks(fs.nodes, fs.nodes, l.parent, e.name);
        ghost var before := fs.log;
        var s := DirSize(fs, l.parent + e.name);
        ReadOnlySuffixTrans(old(fs.log), before, fs.log);
        if s.Err? {
          SumErrorSticks(fs.nodes, l.parent, l.entries, i + 1);
          return Err(s.error);
        }
        total := total + s.value;
      } else {
        total := total + e.size;
      }
      i := i + 1;
    }
    assert l.entries[..i] == l.entries;
    return Ok(total);
  }

  /** `dir_size(d)`: `stat_dir(d, False, True)`. */
  method DirSize(fs: FileSystem, d: Path) returns (r: Result<int>)
    requires fs.Valid()
    modifies fs
    decreases Under(fs.nodes, Canon(d) + "/"), 2
    ensures fs.Valid() && fs.nodes == old(fs.nodes)
    ensures r == SizeOf(fs.nodes, d)
    ensures ReadOnlySuffix(old(fs.log), fs.log)
    ensures |fs.log| > |old(fs.log)| && fs.log[|old(fs.log)|] == DirListCall(d)
  {
    r := StatDir(fs, d, true);
  }

  /** The namespace follows the convention the size loop relies on: exactly
      the directories report 512 bytes, and they carry directory flags. */
  ghost predicate Conventional(nodes: map<Path, Node>)
  {
    forall k | k in nodes :: (nodes[k].Dir? <==> nodes[k].size == 512) && (nodes[k].Dir? ==> DirFlags(nodes[k].flags))
  }

  /** Reference definition: the bytes of all files below directory `k`. */
  ghost function TreeSum(nodes: map<Path, Node>, k: Path): int
    requires WellFormed(nodes) && k in nodes && nodes[k].Dir?
    decreases Under(nodes, k + "/"), 1, 0
  {
    var names := nodes[k].children;
    assert forall i | 0 <= i < |names| :: names[i] in names;
    ChildrenSum(nodes, k, names)
  }

  ghost function ChildrenSum(nodes: map<Path, Node>, k: Path, names: seq<string>): int
    requires WellFormed(nodes)
    requires forall i | 0 <= i < |names| :: NameOk(names[i]) && k + "/" + names[i] in nodes
    decreases Under(nodes, k + "/"), 0, |names|
  {
    if names == [] then 0
    else
      var init := names[..|names| - 1];
      assert forall i | 0 <= i < |init| :: init[i] == names[i];
      var c := k + "/" + names[|names| - 1];
      if nodes[c].Dir? then
        UnderShrinks(nodes, nodes, k + "/", names[|names| - 1]);
        ChildrenSum(nodes, k, init) + TreeSum(nodes, c)
      else ChildrenSum(nodes, k, init) + nodes[c].size
  }

  /** On a conventional namespace `dir_size` is the total size of the files
      below the directory. */
  lemma {:induction false} SizeOfTree(nodes: map<Path, Node>, d: Path)
    requires WellFormed(nodes) && Conventional(nodes)
    requires Canon(d) in nodes && nodes[Canon(d)].Dir?
    ensures SizeOf(nodes, d) == Ok(TreeSum(nodes, Canon(d)))
    decreases Under(nodes, Canon(d) + "/"), 1, 0
  {
    var k := Canon(d);
    var names := nodes[k].children;
    assert forall i | 0 <= i < |names| :: names[i] in names;
    EntriesSum(nodes, k, names);
  }

  lemma {:induction false} EntriesSum(nodes: map<Path, Node>, k: Path, names: seq<string>)
    requires WellFormed(nodes) && Conventional(nodes)
    requires forall i | 0 <= i < |names| :: NameOk(names[i]) && k + "/" + names[i] in nodes
    ensures forall m | m in names :: k + "/" + m in nodes
    ensures SumEntries(nodes, k + "/", EntriesOf(nodes, k + "/", names)) == Ok(ChildrenSum(nodes, k, names))
    decreases Under(nodes, k + "/"), 0, |names|
  {
    if names != [] {
      var init := names[..|names| - 1];
      assert forall i | 0 <= i < |init| :: init[i] == names[i];
      EntriesSum(nodes, k, init);
      var es := EntriesOf(nodes, k + "/", names);
      assert es[..|es| - 1] == EntriesOf(nodes, k + "/", init);
      var m := names[|names| - 1];
      var c := k + "/" + m;
      if nodes[c].Dir? {
        UnderShrinks(nodes, nodes, k + "/", m);
        SizeOfTree(nodes, c);
      }
    }
  }

  /** A 512-byte entry without directory flags (a file of exactly 512 bytes)
      makes `dir_size` fail, wherever it sits in the listing. */
  lemma BadEntryAborts(nodes: map<Path, Node>, d: Path, i: int)
    requires WellFormed(nodes) && ListingOf(nodes, d).Some?
    requires 0 <= i < |ListingOf(nodes, d).value.entries|
    requires ListingOf(nodes, d).value.entries[i].size == 512
    requires !DirFlags(ListingOf(nodes, d).value.entries[i].flags)
    ensures SizeOf(nodes, d).Err?
  {
    var l := ListingOf(nodes, d).value;
    if SumEntries(nodes, l.parent, l.entries[..i]).Err? {
      SumErrorSticks(nodes, l.parent, l.entries, i);
    } else {
      SumEntriesStep(nodes, l.parent, l.entries, i, SumEntries(nodes, l.parent, l.entries[..i]).value);
      SumErrorSticks(nodes, l.parent, l.entries, i + 1);
    }
  }

  /** `/a` holds `f1` (100 bytes) and `b/`, which holds `f2` (200 bytes). */
  function SampleTree(): map<Path, Node>
  {
    map["/a" := Dir(19, 512, ["f1", "b"]), "/a/f1" := File(16, 100),
        "/a/b" := Dir(19, 512, ["f2"]), "/a/b/f2" := File(16, 200)]
  }

  /** `dir_size("/a")` on the sample tree is 300. */
  lemma SampleTreeSize()
    ensures WellFormed(SampleTree()) && SizeOf(SampleTree(), "/a") == Ok(300)
  {
    var nodes := SampleTree();
    assert ChildrenOk(nodes, "/a", ["f1", "b"]) by {
      assert "/a" + "/" + "f1" == "/a/f1" && "/a" + "/" + "b" == "/a/b";
    }
    assert ChildrenOk(nodes, "/a/b", ["f2"]) by {
      assert "/a/b" + "/" + "f2" == "/a/b/f2";
    }
    assert WellFormed(nodes);
    assert Conventional(nodes);
    assert ["f2"][..0] == [] && ["f1", "b"][..1] == ["f1"] && ["f1"][..0] == [];
    assert ChildrenSum(nodes, "/a/b", ["f2"]) == 200;
    assert TreeSum(nodes, "/a/b") == 200;
    assert ChildrenSum(nodes, "/a", ["f1"]) == 100;
    assert ChildrenSum(nodes, "/a", ["f1", "b"]) == 300;
    SizeOfTree(nodes, "/a");
  }

  /** A 512-byte file `x.dat` in `/a` makes `dir_size("/a")` fail. */
  lemma FileOf512BytesAborts()
    ensures var nodes := map["/a" := Dir(19, 512, ["x.dat"]), "/a/x.dat" := File(16, 512)];
      WellFormed(nodes) && SizeOf(nodes, "/a") == Err(NotDirFlags(16, 512))
  {
    var nodes := map["/a" := Dir(19, 512, ["x.dat"]), "/a/x.dat" := File(16, 512)];
    assert ChildrenOk(nodes, "/a", ["x.dat"]) by {
      assert "/a" + "/" + "x.dat" == "/a/x.dat";
    }
    var l := ListingOf(nodes, "/a").value;
    assert l.entries == [Entry("x.dat", 16, 512)];
    assert l.entries[..0] == [];
  }
}
