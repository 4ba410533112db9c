/** `create_file_list`: the paths of one directory listing, written one per
    line to a local file named after the directory, with an optional
    substring filter. */
module Export {
  import opened Paths
  import opened Remote
  import opened Failures
  import opened Terminal
  import opened Walker

  /** `s.replace('/', '_')`. */
  function ReplaceSlashes(s: string): (r: string)
    ensures |r| == |s|
    ensures forall i | 0 <= i < |s| :: r[i] == if s[i] == '/' then '_' else s[i]
  {
    if s == [] then []
    else [if s[0] == '/' then '_' else s[0]] + ReplaceSlashes(s[1..])
  }

  /** The name of the list file: `'list' + directory.replace('/', '_') + '.txt'`. */
  function OutputName(directory: Path): string
  {
    "list" + ReplaceSlashes(directory) + ".txt"
  }

  /** The list file is written to the working directory: its name has no '/',
      and it is eight characters longer than the directory path. */
  lemma OutputNameIsLocal(directory: Path)
    ensures '/' !in OutputName(directory)
    ensures |OutputName(directory)| == |directory| + 8
  {
    var r := ReplaceSlashes(directory);
    forall i | 0 <= i < |OutputName(directory)| ensures OutputName(directory)[i] != '/' {
      if 4 <= i < 4 + |r| {
        assert OutputName(directory)[i] == r[i - 4];
      }
    }
  }

  /** Different directories can share a list file: `/a/b` and `/a_b` both
      write `list_a_b.txt`. */
  lemma OutputNamesCollide()
    ensures OutputName("/a/b") == OutputName("/a_b") == "list_a_b.txt"
  {
  }

  /** `len(exclude) > 0 and exclude in entry`: an empty filter excludes
      nothing, any other one excludes every path containing it. */
  predicate Excluded(key: Path, exclude: string)
  {
    |exclude| > 0 && Contains(key, exclude)
  }

  /** The pairs of `dir_dict` that reach the file, in order. */
  function Kept(d: Dict, exclude: string): Dict
  {
    if d == [] then []
    else (if Excluded(d[0].key, exclude) then [] else [d[0]]) + Kept(d[1..], exclude)
  }

  /** The lines written for `items`: each key followed by a newline. */
  function Lines(items: Dict): seq<string>
  {
    seq(|items|, i requires 0 <= i < |items| => items[i].key + "\n")
  }

  /** Some of `items` is a directory. */
  predicate HasDir(items: Dict)
  {
    exists i | 0 <= i < |items| :: items[i].value == 1
  }

  /** Filtering commutes with concatenation, so the file keeps the listing's
      order. */
  lemma {:induction false} KeptAppend(a: Dict, b: Dict, exclude: string)
    ensures Kept(a + b, exclude) == Kept(a, exclude) + Kept(b, exclude)
  {
    if a == [] {
      assert a + b == b;
    } else {
      assert (a + b)[1..] == a[1..] + b;
      KeptAppend(a[1..], b, exclude);
    }
  }

  /** A pair reaches the file exactly when it is in the dictionary and not
      excluded. */
  lemma {:induction false} KeptMember(d: Dict, exclude: string, x: Item)
    ensures x in Kept(d, exclude) <==> x in d && !Excluded(x.key, exclude)
  {
    if d != [] {
      KeptMember(d[1..], exclude, x);
      assert d == [d[0]] + d[1..];
    }
  }

  /** An empty filter keeps the whole dictionary. */
  lemma {:induction false} KeptEmptyExclude(d: Dict)
    ensures Kept(d, "") == d
  {
    if d != [] {
      KeptEmptyExclude(d[1..]);
      assert d == [d[0]] + d[1..];
    }
  }

  lemma LogFilterMatches()
    ensures Excluded("/d/x.log", ".log") && Excluded("/d/x.log.txt", ".log")
  {
    assert OccursAt("/d/x.log", ".log", 4);
    assert OccursAt("/d/x.log.txt", ".log", 4);
    ContainsIff("/d/x.log", ".log");
    ContainsIff("/d/x.log.txt", ".log");
  }

  lemma LogFilterMisses()
    ensures !Excluded("/d/x.txt", ".log")
  {
    ContainsIff("/d/x.txt", ".log");
    forall i ensures !OccursAt("/d/x.txt", ".log", i) {
      if 0 <= i <= 4 {
        assert 'l' !in "/d/x.txt";
        assert "/d/x.txt"[i..i + 4][1] != ".log"[1];
      }
    }
  }

  /** The filter is a substring test, not a test on the ending: ".log" drops
      `x.log` and also `x.log.txt`, and keeps `x.txt`. */
  lemma ExcludeExample()
    ensures Kept([Item("/d/x.txt", 0), Item("/d/x.log", 0), Item("/d/x.log.txt", 0)], ".log")
      == [Item("/d/x.txt", 0)]
  {
    var d := [Item("/d/x.txt", 0), Item("/d/x.log", 0), Item("/d/x.log.txt", 0)];
    LogFilterMatches();
    LogFilterMisses();
    assert d[1..][1..][1..] == [];
    assert Kept(d[1..][1..], ".log") == [];
    assert Kept(d[1..], ".log") == [];
  }

  /** The writing loop of `create_file_list`: the lines of the kept pairs, and
      whether a directory was among them. */
  method ExportLines(d: Dict, exclude: string) returns (lines: seq<string>, warn: bool)
    ensures lines == Lines(Kept(d, exclude))
    ensures warn <==> HasDir(Kept(d, exclude))
  {
    lines := [];
    warn := false;
    var i := 0;
    while i < |d|
      invariant 0 <= i <= |d|
      invariant lines == Lines(Kept(d[..i], exclude))
      invariant warn <==> HasDir(Kept(d[..i], exclude))
    {
      assert d[..i + 1] == d[..i] + [d[i]];
      KeptAppend(d[..i], [d[i]], exclude);
      assert Kept([d[i]], exclude) == if Excluded(d[i].key, exclude) then [] else [d[i]];
      if !Excluded(d[i].key, exclude) {
        if d[i].value == 1 {
          warn := true;
        }
        lines := lines + [d[i].key + "\n"];
        ghost var kept := Kept(d[..i], exclude) + [d[i]];
        assert kept[|kept| - 1] == d[i];
        assert forall k | 0 <= k < |kept| - 1 :: kept[k] == Kept(d[..i], exclude)[k];
      } else {
        assert Kept(d[..i + 1], exclude) == Kept(d[..i], exclude);
      }
      i := i + 1;
    }
    assert d[..i] == d;
  }

  /** `create_file_list(directory, exclude)`: one `dirlist`, which must
      succeed and classify; the kept paths are written to the list file. The
      file name and whether the directory warning is given are returned. */
  method CreateFileList(fs: FileSystem, con: Console, directory: Path, exclude: string)
    returns (r: Result<(string, bool)>)
    requires fs.Valid()
    modifies fs, con`written
    ensures fs.Valid() && fs.nodes == old(fs.nodes)
    ensures fs.log == old(fs.log) + [DirListCall(directory)]
    ensures r.Ok? <==> ListingDict(fs.nodes, directory).Ok?
    ensures r.Err? ==> r.error == ListingDict(fs.nodes, directory).error && con.written == old(con.written)
    ensures r.Ok? ==>
      var kept := Kept(ListingDict(fs.nodes, directory).value.0, exclude);
      && r.value == (OutputName(directory), HasDir(kept))
      && con.written == old(con.written)[OutputName(directory) := Lines(kept)]
  {
    var dl := GetDirectoryListing(fs, directory);
    if dl.Err? {
      return Err(dl.error);
    }
    var name := OutputName(directory);
    var lines, warn := ExportLines(dl.value.0, exclude);
    con.Write(name, lines);
    return Ok((name, warn));
  }
}
