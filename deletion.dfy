/** `del_file` and `del_dir`: removal of a remote file, and of a directory by
    removing its entries one by one (there is no recursive removal on the
    remote end) before the then empty directory itself. */
module Deletion {
  import opened Paths
  import opened Wrappers
  import opened Remote
  import opened Failures
  import opened Classifier
  import opened Terminal
  import opened Walker

  /** How a deletion that did not fail ended: done, or refused at the prompt. */
  datatype Removal = Removed | Declined

  /** The safety guard of both deletions: the user name must occur in the
      path. */
  predicate Guard(p: Path, user: string)
  {
    Contains(p, user)
  }

  /** The outcome of one `rm(p)`: done, or the failed `assert status.ok`. */
  function RmResult(nodes: map<Path, Node>, p: Path): Result<Removal>
  {
    if RmOk(nodes, p) then Ok(Removed) else Err(CallFailed(RmCall(p)))
  }

  /** The namespace after one `rm(p)`. */
  function AfterRm(nodes: map<Path, Node>, p: Path): map<Path, Node>
  {
    if RmOk(nodes, p) then Unlink(nodes, Canon(p)) else nodes
  }

  /** `del_file(filepath, user, ask)`. A path without the user name is
      refused before any remote call. Without `ask` the file is removed at
      once; with `ask` it is stated first, then removed only on the answer
      "y"; any other answer declines. */
  method DelFile(fs: FileSystem, con: Console, filepath: Path, user: string, ask: bool) returns (r: Result<Removal>)
    requires fs.Valid()
    modifies fs, con`answers
    ensures fs.Valid()
    ensures !Guard(filepath, user) ==>
      && r == Err(PermissionDenied(user, filepath))
      && fs.nodes == old(fs.nodes) && fs.log == old(fs.log) && con.answers == old(con.answers)
    ensures Guard(filepath, user) && !ask ==>
      && r == RmResult(old(fs.nodes), filepath) && fs.nodes == AfterRm(old(fs.nodes), filepath)
      && fs.log == old(fs.log) + [RmCall(filepath)] && con.answers == old(con.answers)
    ensures Guard(filepath, user) && ask && old(con.answers) == [] ==>
      && r == Err(NoAnswer) && fs.nodes == old(fs.nodes)
      && fs.log == old(fs.log) + [StatCall(filepath), StatCall(filepath)] && con.answers == []
    ensures Guard(filepath, user) && ask && old(con.answers) != [] && old(con.answers)[0] == "y" ==>
      && r == RmResult(old(fs.nodes), filepath) && fs.nodes == AfterRm(old(fs.nodes), filepath)
      && fs.log == old(fs.log) + [StatCall(filepath), StatCall(filepath), RmCall(filepath)]
      && con.answers == old(con.answers)[1..]
    ensures Guard(filepath, user) && ask && old(con.answers) != [] && old(con.answers)[0] != "y" ==>
      && r == Ok(Declined) && fs.nodes == old(fs.nodes)
      && fs.log == old(fs.log) + [StatCall(filepath), StatCall(filepath)]
      && con.answers == old(con.answers)[1..]
  {
    if !Guard(filepath, user) {
      return Err(PermissionDenied(user, filepath));
    }
    if ask {
      var _ := ShowStat(fs, filepath);
      var answer := con.Input();
      if answer.None? {
        return Err(NoAnswer);
      }
      if answer.value != "y" {
        return Ok(Declined);
      }
    }
    var ok := fs.Rm(filepath);
    if !ok {
      return Err(CallFailed(RmCall(filepath)));
    }
    return Ok(Removed);
  }

  /** A path at or below directory `d`: `d` itself, or a path that extends
      `d`'s canonical name followed by '/'. */
  predicate Within(d: Path, p: Path)
  {
    p == d || Canon(d) + "/" <= p
  }

  /** Every call after `before` in `after` is on a path within `d`. */
  predicate CallsWithin(d: Path, before: seq<Call>, after: seq<Call>)
  {
    before <= after && forall i | |before| <= i < |after| :: Within(d, after[i].path)
  }

  /** Every call after `before` in `after` is on a path strictly extending
      `pre`. */
  predicate CallsBelow(pre: Path, before: seq<Call>, after: seq<Call>)
  {
    before <= after && forall i | |before| <= i < |after| :: pre < after[i].path
  }

  /** The last call after `before` in `after` is `rmdir(d)`, and it is the
      only `rmdir(d)` among them. */
  predicate RmdirLast(d: Path, before: seq<Call>, after: seq<Call>)
  {
    && |after| > |before|
    && after[|after| - 1] == RmdirCall(d)
    && forall j | |before| <= j < |after| - 1 :: after[j] != RmdirCall(d)
  }

  lemma RmdirLastAfterReads(d: Path, a: seq<Call>, b: seq<Call>, c: seq<Call>)
    requires ReadOnlySuffix(a, b) && b <= c && RmdirLast(d, b, c)
    ensures RmdirLast(d, a, c)
  {
    forall j | |a| <= j < |c| - 1 ensures c[j] != RmdirCall(d) {
      if j < |b| {
        assert c[j] == b[j];
      }
    }
  }

  /** The guard checked on a directory holds for every path within it, so the
      guards of the nested deletions never refuse. */
  lemma GuardCoversWithin(d: Path, p: Path, user: string)
    requires Guard(d, user) && Within(d, p)
    ensures Guard(p, user)
  {
    if p != d {
      ParentExtends(d);
      assert d <= p;
      assert p == d + p[|d|..];
      ContainsExtend(d, p[|d|..], user);
    }
  }

  lemma PrefixTrans(a: string, b: string, c: string)
    requires a <= b && b <= c
    ensures a <= c
  {
    assert c[..|a|] == b[..|a|];
  }

  /** What `del_dir` reaches before its prompt: the guard holds, the directory
      can be listed, and `ls` on it succeeds. */
  ghost predicate Prompted(nodes: map<Path, Node>, directory: Path, user: string)
  {
    && Guard(directory, user)
    && WellFormed(nodes)
    && ListingOf(nodes, directory).Some?
    && LsSpec(nodes, directory).Ok?
  }

  /** `del_dir(directory, user, ask)`. The guard, one `dirlist`, `ls` of the
      directory, and a prompt whatever `ask` says; on "y" every listed entry is
      removed in listing order (a 512-byte entry, which must carry directory
      flags, by a nested `del_dir` that prompts again; anything else by
      `del_file` without prompt), then the directory itself by `rmdir`. A
      nested refusal only stops that subdirectory: its parent's `rmdir` then
      fails. */
  method DelDir(fs: FileSystem, con: Console, directory: Path, user: string, ask: bool) returns (r: Result<Removal>)
    requires fs.Valid()
    modifies fs, con`answers
    decreases Under(fs.nodes, Canon(directory) + "/"), 6
    ensures fs.Valid()
    ensures !Guard(directory, user) ==>
      && r == Err(PermissionDenied(user, directory))
      && fs.nodes == old(fs.nodes) && fs.log == old(fs.log) && con.answers == old(con.answers)
    ensures Guard(directory, user) ==> |fs.log| > |old(fs.log)| && fs.log[|old(fs.log)|] == DirListCall(directory)
    ensures Guard(directory, user) && !Prompted(old(fs.nodes), directory, user) ==>
      && r.Err? && fs.nodes == old(fs.nodes) && ReadOnlySuffix(old(fs.log), fs.log)
      && con.answers == old(con.answers)
    ensures CallsWithin(directory, old(fs.log), fs.log)
    ensures CallsGuarded(user, old(fs.log), fs.log)
    ensures fs.nodes.Keys <= old(fs.nodes).Keys
    ensures forall k | k in old(fs.nodes) && k !in fs.nodes :: k == Canon(directory) || Canon(directory) + "/" <= k
    ensures Remaining(old(con.answers), con.answers)
    ensures Prompted(old(fs.nodes), directory, user) && old(con.answers) == [] ==>
      r == Err(NoAnswer) && fs.nodes == old(fs.nodes) && ReadOnlySuffix(old(fs.log), fs.log)
    ensures r == Ok(Declined) <==>
      Prompted(old(fs.nodes), directory, user) && old(con.answers) != [] && old(con.answers)[0] != "y"
    ensures r == Ok(Declined) ==>
      fs.nodes == old(fs.nodes) && ReadOnlySuffix(old(fs.log), fs.log) && con.answers == old(con.answers)[1..]
    ensures r == Ok(Removed) ==>
      && Prompted(old(fs.nodes), directory, user) && old(con.answers) != [] && old(con.answers)[0] == "y"
      && RmdirLast(directory, old(fs.log), fs.log)
      && Emptied(fs.nodes, directory, ListingOf(old(fs.nodes), directory).value)
      && SubdirsFlagged(ListingOf(old(fs.nodes), directory).value)
    ensures Prompted(old(fs.nodes), directory, user) && old(con.answers) != [] && old(con.answers)[0] == "y"
            && NoSubdirs(ListingOf(old(fs.nodes), directory).value) ==>
      && |con.answers| == |old(con.answers)| - 1
      && (r == Ok(Removed) <==> FilesRemovable(old(fs.nodes), ListingOf(old(fs.nodes), directory).value))
  {
    if !Guard(directory, user) {
      return Err(PermissionDenied(user, directory));
    }
    var listing := Survey(fs, directory);
    if listing.Err? {
      return Err(listing.error);
    }
    ghost var surveyed := fs.log;
    r := Confirm(fs, con, directory, listing.value, user);
    if r == Ok(Removed) {
      RmdirLastAfterReads(directory, old(fs.log), surveyed, fs.log);
    }
    forall j | |old(fs.log)| <= j < |fs.log| ensures Within(directory, fs.log[j].path) && Guard(fs.log[j].path, user) {
      if j < |surveyed| {
        assert fs.log[j] == surveyed[j];
      }
    }
  }

  /** The prompt of `del_dir` and what follows it on the listing `l` of
      `directory`: "y" removes, any other answer declines. */
  method Confirm(fs: FileSystem, con: Console, directory: Path, l: Listing, user: string) returns (r: Result<Removal>)
    requires fs.Valid() && Guard(directory, user) && ListingOf(fs.nodes, directory) == Some(l)
    modifies fs, con`answers
    decreases Under(fs.nodes, Canon(directory) + "/"), 5
    ensures fs.Valid()
    ensures CallsWithin(directory, old(fs.log), fs.log)
    ensures CallsGuarded(user, old(fs.log), fs.log)
    ensures fs.nodes.Keys <= old(fs.nodes).Keys
    ensures forall k | k in old(fs.nodes) && k !in fs.nodes :: k == Canon(directory) || Canon(directory) + "/" <= k
    ensures Remaining(old(con.answers), con.answers)
    ensures old(con.answers) == [] ==> r == Err(NoAnswer) && fs.nodes == old(fs.nodes) && fs.log == old(fs.log)
    ensures r == Ok(Declined) <==> old(con.answers) != [] && old(con.answers)[0] != "y"
    ensures r == Ok(Declined) ==>
      fs.nodes == old(fs.nodes) && fs.log == old(fs.log) && con.answers == old(con.answers)[1..]
    ensures r == Ok(Removed) ==>
      && old(con.answers) != [] && old(con.answers)[0] == "y"
      && RmdirLast(directory, old(fs.log), fs.log)
      && Emptied(fs.nodes, directory, l) && SubdirsFlagged(l)
    ensures old(con.answers) != [] && old(con.answers)[0] == "y"
            && NoSubdirs(l) ==>
      && |con.answers| == |old(con.answers)| - 1
      && (r == Ok(Removed) <==> FilesRemovable(old(fs.nodes), l))
  {
    var answer := con.Input();
    if answer.None? {
      return Err(NoAnswer);
    }
    if answer.value != "y" {
      return Ok(Declined);
    }
    ghost var rest := con.answers;
    r := RemoveListed(fs, con, directory, l, user);
    RemainingTrans(old(con.answers), rest, con.answers);
    if r.Ok? {
      assert r.value.Removed? || r.value.Declined?;
    }
  }

  /** The part of `del_dir` after the answer "y": the loop over the listing
      `l` of `directory`, then, if it ran to the end, `rmdir` of the
      directory. */
  method RemoveListed(fs: FileSystem, con: Console, directory: Path, l: Listing, user: string) returns (r: Result<Removal>)
    requires fs.Valid() && Guard(directory, user) && ListingOf(fs.nodes, directory) == Some(l)
    modifies fs, con`answers
    decreases Under(fs.nodes, Canon(directory) + "/"), 4
    ensures fs.Valid() && r != Ok(Declined)
    ensures CallsWithin(directory, old(fs.log), fs.log)
    ensures CallsGuarded(user, old(fs.log), fs.log)
    ensures fs.nodes.Keys <= old(fs.nodes).Keys
    ensures forall k | k in old(fs.nodes) && k !in fs.nodes :: Canon(directory) + "/" <= k || k == Canon(directory)
    ensures Remaining(old(con.answers), con.answers)
    ensures r.Ok? ==>
      && RmdirLast(directory, old(fs.log), fs.log)
      && Emptied(fs.nodes, directory, l) && SubdirsFlagged(l)
    ensures NoSubdirs(l) ==> |con.answers| == |old(con.answers)|
    ensures NoSubdirs(l) ==> (r.Ok? <==> FilesRemovable(old(fs.nodes), l))
  {
    var failed := RemoveEntries(fs, con, directory, l, user);
    if NoSubdirs(l) {
      EntriesGuarded(directory, l, user);
    }
    if failed.Some? {
      GuardsOfCalls(directory, user, old(fs.log), fs.log);
      return Err(failed.value);
    }
    ghost var before := fs.log;
    ghost var emptied := fs.nodes;
    var ok := fs.Rmdir(directory);
    assert forall j | |old(fs.log)| <= j < |before| :: fs.log[j] == before[j];
    if NoSubdirs(l) {
      FlatRmdir(old(fs.nodes), emptied, directory, l, user);
    }
    assert |directory| <= |l.parent|;
    forall j | |old(fs.log)| <= j < |fs.log| - 1 ensures fs.log[j] != RmdirCall(directory) {
      assert l.parent < before[j].path;
    }
    GuardsOfCalls(directory, user, old(fs.log), fs.log);
    if !ok {
      return Err(CallFailed(RmdirCall(directory)));
    }
    forall j | 0 <= j < |l.entries| ensures l.parent < l.parent + l.entries[j].name {
      assert (l.parent + l.entries[j].name)[..|l.parent|] == l.parent;
    }
    return Ok(Removed);
  }

  /** Directory `d`, everything below it and every entry of its listing `l`
      are gone from `nodes`. */
  ghost predicate Emptied(nodes: map<Path, Node>, d: Path, l: Listing)
  {
    && Canon(d) !in nodes
    && (forall k | k in nodes :: !(Canon(d) + "/" < k))
    && (forall j | 0 <= j < |l.entries| :: l.parent + l.entries[j].name !in nodes)
  }

  /** Every entry of listing `l` with the 512 bytes of a subdirectory carries
      directory flags, as `del_dir` demands before it descends. */
  predicate SubdirsFlagged(l: Listing)
  {
    forall j | 0 <= j < |l.entries| && l.entries[j].size == 512 :: DirFlags(l.entries[j].flags)
  }

  /** No entry of listing `l` has the 512 bytes that make `del_dir` treat it
      as a subdirectory; removing such a listing prompts only once. */
  predicate NoSubdirs(l: Listing)
  {
    forall j | 0 <= j < |l.entries| :: l.entries[j].size != 512
  }

  /** The paths of the first `i` entries of listing `l`. */
  ghost function EntryPaths(l: Listing, i: nat): set<Path>
    requires i <= |l.entries|
  {
    set j | 0 <= j < i :: l.parent + l.entries[j].name
  }

  /** Every entry of `l` passes the guard and is a file that `rm` removes. */
  predicate AllRemovable(nodes: map<Path, Node>, l: Listing, user: string)
  {
    forall j | 0 <= j < |l.entries| ::
      Guard(l.parent + l.entries[j].name, user) && RmOk(nodes, l.parent + l.entries[j].name)
  }

  /** A listing `l` of plain files that `del_dir` clears: every entry is a
      file that `rm` removes, and nothing but those entries lies below the
      directory, so the closing `rmdir` finds it empty. */
  ghost predicate FilesRemovable(nodes: map<Path, Node>, l: Listing)
  {
    && (forall j | 0 <= j < |l.entries| :: RmOk(nodes, l.parent + l.entries[j].name))
    && (forall k | k in nodes && l.parent < k :: k in EntryPaths(l, |l.entries|))
  }

  /** Where the loop of `del_dir` over a listing `l` of plain files stands
      after the first `i` entries were removed from `n0`: exactly their paths
      are gone, each of them passed the guard and was a file, the later
      entries are untouched, and the directory `c` lists only the names of
      the later entries. */
  ghost predicate FlatProgress(n0: map<Path, Node>, nodes: map<Path, Node>, l: Listing, c: Path, i: nat, user: string)
    requires i <= |l.entries|
  {
    && nodes.Keys == n0.Keys - EntryPaths(l, i)
    && (forall j | i <= j < |l.entries| ::
          l.parent + l.entries[j].name in nodes && nodes[l.parent + l.entries[j].name] == n0[l.parent + l.entries[j].name])
    && (forall j | 0 <= j < i :: Guard(l.parent + l.entries[j].name, user) && RmOk(n0, l.parent + l.entries[j].name))
    && c in nodes && nodes[c].Dir? && n0[c].Dir? && |n0[c].children| == |l.entries|
    && nodes[c].children == n0[c].children[i..]
  }

  /** The path of a listed entry is its own canonical key. */
  lemma CanonOfEntry(parent: Path, name: string)
    requires NameOk(name)
    ensures Canon(parent + name) == parent + name
  {
    var p := parent + name;
    assert p[|p| - 1] == name[|name| - 1];
    assert name[|name| - 1] in name;
  }

  lemma FlatStart(n0: map<Path, Node>, d: Path, l: Listing, user: string)
    requires WellFormed(n0) && ListingOf(n0, d) == Some(l)
    ensures FlatProgress(n0, n0, l, Canon(d), 0, user)
  {
    assert EntryPaths(l, 0) == {};
  }

  /** Before entry `i` is removed it is as it was in `n0`. */
  lemma FlatRmOk(n0: map<Path, Node>, nodes: map<Path, Node>, l: Listing, c: Path, i: nat, user: string)
    requires ListingFits(n0, l) && i < |l.entries| && FlatProgress(n0, nodes, l, c, i, user)
    ensures RmOk(nodes, l.parent + l.entries[i].name) <==> RmOk(n0, l.parent + l.entries[i].name)
  {
    CanonOfEntry(l.parent, l.entries[i].name);
  }

  /** One successful `rm` of entry `i` advances the loop by one entry. */
  lemma {:induction false} FlatStep(n0: map<Path, Node>, nodes: map<Path, Node>, d: Path, l: Listing, i: nat, user: string)
    requires WellFormed(n0) && ListingOf(n0, d) == Some(l)
    requires i < |l.entries| && FlatProgress(n0, nodes, l, Canon(d), i, user)
    requires Guard(l.parent + l.entries[i].name, user) && RmOk(nodes, l.parent + l.entries[i].name)
    ensures FlatProgress(n0, AfterRm(nodes, l.parent + l.entries[i].name), l, Canon(d), i + 1, user)
  {
    var c := Canon(d);
    var name := l.entries[i].name;
    var p := l.parent + name;
    CanonOfEntry(l.parent, name);
    SplitLastOfChild(c, name);
    var r := AfterRm(nodes, p);
    assert r == Unlink(nodes, p);
    assert EntryPaths(l, i + 1) == EntryPaths(l, i) + {p};
    assert c != p by {
      assert |c| < |p|;
    }
    assert ChildrenOk(n0, c, n0[c].children);
    assert n0[c].children[i..][0] == name;
    WithoutHead(nodes[c].children);
    assert nodes[c].children[1..] == n0[c].children[i + 1..];
    forall j | i + 1 <= j < |l.entries|
      ensures l.parent + l.entries[j].name in r && r[l.parent + l.entries[j].name] == n0[l.parent + l.entries[j].name]
    {
      var q := l.parent + l.entries[j].name;
      AppendDistinct(l.parent, name, l.entries[j].name);
      assert |c| < |q|;
    }
    forall j | 0 <= j < i + 1
      ensures Guard(l.parent + l.entries[j].name, user) && RmOk(n0, l.parent + l.entries[j].name)
    {
      if j == i {
        FlatRmOk(n0, nodes, l, c, i, user);
      }
    }
  }

  /** After every entry of a listing of plain files is gone, `rmdir` of the
      directory succeeds exactly when nothing but those entries lay below
      it. */
  lemma FlatRmdir(n0: map<Path, Node>, nodes: map<Path, Node>, d: Path, l: Listing, user: string)
    requires WellFormed(n0) && ListingOf(n0, d) == Some(l)
    requires FlatProgress(n0, nodes, l, Canon(d), |l.entries|, user)
    ensures RmdirOk(nodes, d) <==> forall k | k in n0 && l.parent < k :: k in EntryPaths(l, |l.entries|)
  {
    var c := Canon(d);
    assert l.parent == c + "/";
    assert (forall q | q in nodes :: !(l.parent < q)) <==> forall k | k in n0 && l.parent < k :: k in EntryPaths(l, |l.entries|) by {
      if forall k | k in n0 && l.parent < k :: k in EntryPaths(l, |l.entries|) {
        forall q | q in nodes ensures !(l.parent < q) {
          assert q in n0 && q !in EntryPaths(l, |l.entries|);
        }
      }
      if forall q | q in nodes :: !(l.parent < q) {
        forall k | k in n0 && l.parent < k ensures k in EntryPaths(l, |l.entries|) {
          assert k !in nodes;
        }
      }
    }
  }

  /** The part of `del_dir` before its prompt: the `dirlist` that must
      succeed, then `ls` of the directory. */
  method Survey(fs: FileSystem, directory: Path) returns (r: Result<Listing>)
    requires fs.Valid()
    modifies fs
    ensures fs.Valid() && fs.nodes == old(fs.nodes)
    ensures ReadOnlySuffix(old(fs.log), fs.log)
    ensures |fs.log| > |old(fs.log)| && fs.log[|old(fs.log)|] == DirListCall(directory)
    ensures forall i | |old(fs.log)| <= i < |fs.log| :: fs.log[i].path == directory
    ensures r.Ok? <==> ListingOf(fs.nodes, directory).Some? && LsSpec(fs.nodes, directory).Ok?
    ensures r.Ok? ==> r.value == ListingOf(fs.nodes, directory).value
  {
    var listing := fs.DirList(directory);
    if listing.None? {
      return Err(CallFailed(DirListCall(directory)));
    }
    var shown := Ls(fs, directory);
    if shown.Err? {
      return Err(shown.error);
    }
    return Ok(listing.value);
  }

  /** What the loop of `del_dir` may have removed from `n0`: only paths
      below the listing's parent. */
  ghost predicate WithinParent(n0: map<Path, Node>, nodes: map<Path, Node>, l: Listing)
  {
    && nodes.Keys <= n0.Keys
    && forall k | k in n0 && k !in nodes :: l.parent <= k
  }

  /** The loop of `del_dir` got past the first `i` entries of `l`: each
      subdirectory among them carried directory flags, and each other entry
      is gone. */
  ghost predicate Swept(n0: map<Path, Node>, nodes: map<Path, Node>, l: Listing, i: nat)
    requires i <= |l.entries|
  {
    && WithinParent(n0, nodes, l)
    && (forall j | 0 <= j < i && l.entries[j].size == 512 :: DirFlags(l.entries[j].flags))
    && (forall j | 0 <= j < i && l.entries[j].size != 512 :: l.parent + l.entries[j].name !in nodes)
  }

  /** The loop of `del_dir` over the listing `l`, in listing order; the error
      that stopped it, if any. */
  method RemoveEntries(fs: FileSystem, con: Console, ghost directory: Path, l: Listing, user: string)
    returns (failed: Option<Error>)
    requires fs.Valid() && ListingOf(fs.nodes, directory) == Some(l)
    modifies fs, con`answers
    decreases Under(fs.nodes, l.parent), 3
    ensures fs.Valid() && fs.nodes.Keys <= old(fs.nodes).Keys
    ensures forall k | k in old(fs.nodes) && k !in fs.nodes :: l.parent <= k
    ensures CallsBelow(l.parent, old(fs.log), fs.log)
    ensures Remaining(old(con.answers), con.answers)
    ensures failed.None? ==> SubdirsFlagged(l)
    ensures failed.None? ==>
      forall j | 0 <= j < |l.entries| && l.entries[j].size != 512 :: l.parent + l.entries[j].name !in fs.nodes
    ensures NoSubdirs(l) ==> |con.answers| == |old(con.answers)|
    ensures NoSubdirs(l) ==> (failed.None? <==> AllRemovable(old(fs.nodes), l, user))
    ensures NoSubdirs(l) && failed.None? ==>
      FlatProgress(old(fs.nodes), fs.nodes, l, Canon(directory), |l.entries|, user)
  {
    ghost var n0 := fs.nodes;
    FlatStart(n0, directory, l, user);
    var i := 0;
    while i < |l.entries|
      invariant 0 <= i <= |l.entries| && fs.Valid()
      invariant Swept(n0, fs.nodes, l, i)
      invariant CallsBelow(l.parent, old(fs.log), fs.log)
      invariant Remaining(old(con.answers), con.answers)
      invariant NoSubdirs(l) ==> |con.answers| == |old(con.answers)|
      invariant NoSubdirs(l) ==> FlatProgress(n0, fs.nodes, l, Canon(directory), i, user)
    {
      failed := RemoveEntryAt(fs, con, directory, l, i, user, n0, old(fs.log), old(con.answers));
      if failed.Some? {
        return;
      }
      i := i + 1;
    }
    if NoSubdirs(l) {
      FlatAllRemovable(n0, fs.nodes, l, Canon(directory), user);
    }
    return None;
  }

  /** Once the loop over a listing of plain files is past its last entry,
      every entry passed the guard and was a removable file. */
  lemma FlatAllRemovable(n0: map<Path, Node>, nodes: map<Path, Node>, l: Listing, c: Path, user: string)
    requires FlatProgress(n0, nodes, l, c, |l.entries|, user)
    ensures AllRemovable(n0, l, user)
  {
  }

  /** Turn `i` of the loop of `RemoveEntries`: the loop's facts about `n0`,
      the calls since `log0` and the answers since `script` carry over to
      the next entry. */
  method RemoveEntryAt(fs: FileSystem, con: Console, ghost directory: Path, l: Listing, i: nat, user: string,
                       ghost n0: map<Path, Node>, ghost log0: seq<Call>, ghost script: seq<string>)
    returns (failed: Option<Error>)
    requires fs.Valid() && WellFormed(n0) && ListingOf(n0, directory) == Some(l)
    requires i < |l.entries| && Swept(n0, fs.nodes, l, i)
    requires CallsBelow(l.parent, log0, fs.log) && Remaining(script, con.answers)
    requires NoSubdirs(l) ==> |con.answers| == |script|
    requires NoSubdirs(l) ==> FlatProgress(n0, fs.nodes, l, Canon(directory), i, user)
    modifies fs, con`answers
    decreases Under(n0, l.parent), 2
    ensures fs.Valid() && WithinParent(n0, fs.nodes, l)
    ensures CallsBelow(l.parent, log0, fs.log) && Remaining(script, con.answers)
    ensures failed.None? ==> Swept(n0, fs.nodes, l, i + 1)
    ensures NoSubdirs(l) ==> |con.answers| == |script|
    ensures NoSubdirs(l) && failed.Some? ==> !AllRemovable(n0, l, user)
    ensures NoSubdirs(l) && failed.None? ==> FlatProgress(n0, fs.nodes, l, Canon(directory), i + 1, user)
  {
    ghost var nodesBefore := fs.nodes;
    ghost var before := fs.log;
    ghost var answersBefore := con.answers;
    failed := DelEntry(fs, con, l.parent, l.entries[i], user, n0);
    RemainingTrans(script, answersBefore, con.answers);
    forall j | |log0| <= j < |fs.log| ensures l.parent < fs.log[j].path {
      if j < |before| {
        assert fs.log[j] == before[j];
      }
    }
    forall k | k in n0 && k !in fs.nodes ensures l.parent <= k {
      if k !in nodesBefore {
        assert l.parent <= k;
      }
    }
    if failed.None? {
      forall j | 0 <= j < i + 1 && l.entries[j].size != 512 ensures l.parent + l.entries[j].name !in fs.nodes {
        if j < i {
          assert l.parent + l.entries[j].name !in nodesBefore;
        }
      }
    }
    if NoSubdirs(l) {
      FlatRmOk(n0, nodesBefore, l, Canon(directory), i, user);
      if failed.None? {
        FlatStep(n0, nodesBefore, directory, l, i, user);
      }
    }
  }

  /** Every call after the first `|before|` of `after` is on a path that
      passes the guard. */
  predicate CallsGuarded(user: string, before: seq<Call>, after: seq<Call>)
  {
    forall i | |before| <= i < |after| :: Guard(after[i].path, user)
  }

  lemma GuardsOfCalls(d: Path, user: string, before: seq<Call>, after: seq<Call>)
    requires Guard(d, user) && CallsWithin(d, before, after)
    ensures CallsGuarded(user, before, after)
  {
    forall i | |before| <= i < |after| ensures Guard(after[i].path, user) {
      GuardCoversWithin(d, after[i].path, user);
    }
  }

  /** The guard checked on a directory covers every entry of its listing. */
  lemma EntriesGuarded(d: Path, l: Listing, user: string)
    requires Guard(d, user) && l.parent == Canon(d) + "/"
    ensures forall j | 0 <= j < |l.entries| :: Guard(l.parent + l.entries[j].name, user)
  {
    forall j | 0 <= j < |l.entries| ensures Guard(l.parent + l.entries[j].name, user) {
      assert (l.parent + l.entries[j].name)[..|l.parent|] == l.parent;
      GuardCoversWithin(d, l.parent + l.entries[j].name, user);
    }
  }

  /** One turn of the loop of `del_dir` over entry `e` of the listing with
      parent `parent`; `n0` is the namespace the listing was taken from. The
      error that ends the loop, if any. */
  method DelEntry(fs: FileSystem, con: Console, parent: Path, e: Entry, user: string, ghost n0: map<Path, Node>)
    returns (failed: Option<Error>)
    requires fs.Valid() && fs.nodes.Keys <= n0.Keys
    requires NameOk(e.name) && parent + e.name in n0
    modifies fs, con`answers
    decreases Under(n0, parent), 1
    ensures fs.Valid() && fs.nodes.Keys <= old(fs.nodes).Keys
    ensures forall k | k in old(fs.nodes) && k !in fs.nodes :: parent <= k
    ensures CallsBelow(parent, old(fs.log), fs.log)
    ensures Remaining(old(con.answers), con.answers)
    ensures e.size == 512 && !DirFlags(e.flags) ==>
      && failed == Some(NotDirFlags(e.flags, e.size))
      && fs.nodes == old(fs.nodes) && fs.log == old(fs.log) && con.answers == old(con.answers)
    ensures e.size != 512 ==> con.answers == old(con.answers)
    ensures e.size != 512 && !Guard(parent + e.name, user) ==>
      && failed == Some(PermissionDenied(user, parent + e.name))
      && fs.nodes == old(fs.nodes) && fs.log == old(fs.log)
    ensures e.size != 512 && Guard(parent + e.name, user) ==>
      && fs.log == old(fs.log) + [RmCall(parent + e.name)]
      && fs.nodes == AfterRm(old(fs.nodes), parent + e.name)
      && (failed.None? <==> RmOk(old(fs.nodes), parent + e.name))
      && (failed.Some? ==> failed == Some(CallFailed(RmCall(parent + e.name))))
    ensures e.size != 512 && failed.None? ==> parent + e.name !in fs.nodes
    ensures e.size == 512 && DirFlags(e.flags) && !Guard(parent + e.name, user) ==>
      && failed == Some(PermissionDenied(user, parent + e.name))
      && fs.nodes == old(fs.nodes) && fs.log == old(fs.log) && con.answers == old(con.answers)
    ensures e.size == 512 && DirFlags(e.flags) && Guard(parent + e.name, user) ==>
      |fs.log| > |old(fs.log)| && fs.log[|old(fs.log)|] == DirListCall(parent + e.name)
    ensures e.size == 512 && DirFlags(e.flags) && Guard(parent + e.name, user)
            && !Prompted(old(fs.nodes), parent + e.name, user) ==>
      && failed.Some? && fs.nodes == old(fs.nodes) && ReadOnlySuffix(old(fs.log), fs.log)
      && con.answers == old(con.answers)
    ensures e.size == 512 && DirFlags(e.flags) && Prompted(old(fs.nodes), parent + e.name, user) && old(con.answers) == [] ==>
      failed == Some(NoAnswer) && fs.nodes == old(fs.nodes)
    ensures e.size == 512 && DirFlags(e.flags) && Prompted(old(fs.nodes), parent + e.name, user)
            && old(con.answers) != [] && old(con.answers)[0] != "y" ==>
      failed == None && fs.nodes == old(fs.nodes) && con.answers == old(con.answers)[1..]
    ensures e.size == 512 && failed.None? ==>
      DirFlags(e.flags) && Prompted(old(fs.nodes), parent + e.name, user) && old(con.answers) != []
    ensures e.size == 512 && failed.None? && old(con.answers) != [] && old(con.answers)[0] == "y" ==>
      parent + e.name !in fs.nodes && forall k | k in fs.nodes :: !(parent + e.name + "/" < k)
  {
    UnderShrinks(n0, fs.nodes, parent, e.name);
    if e.size == 512 {
      failed := DelSubdir(fs, con, parent, e, user, n0);
    } else {
      failed := DelPlainEntry(fs, con, parent, e, user);
    }
  }

  /** The calls of `del_dir` on entry `name` stay strictly below its parent. */
  lemma EntryCallsBelow(parent: Path, name: string, before: seq<Call>, after: seq<Call>)
    requires NameOk(name) && CallsWithin(parent + name, before, after)
    ensures CallsBelow(parent, before, after)
  {
    var p := parent + name;
    CanonOfEntry(parent, name);
    assert p[..|parent|] == parent;
    forall j | |before| <= j < |after| ensures parent < after[j].path {
      if after[j].path != p {
        PrefixTrans(parent, p + "/", after[j].path);
      }
    }
  }

  /** What `del_dir` on entry `name` removes lies below its parent. */
  lemma EntryRemovalsBelow(parent: Path, name: string, n0: map<Path, Node>, n1: map<Path, Node>)
    requires NameOk(name)
    requires forall k | k in n0 && k !in n1 :: k == Canon(parent + name) || Canon(parent + name) + "/" <= k
    ensures forall k | k in n0 && k !in n1 :: parent <= k
  {
    var p := parent + name;
    CanonOfEntry(parent, name);
    assert p[..|parent|] == parent;
    forall k | k in n0 && k !in n1 ensures parent <= k {
      if k != p {
        PrefixTrans(parent, p + "/", k);
      }
    }
  }

  /** The turn of `DelEntry` for a 512-byte entry: it must carry directory
      flags, and is then removed by `del_dir` with a prompt of its own; a
      refusal there lets the loop go on. */
  method DelSubdir(fs: FileSystem, con: Console, parent: Path, e: Entry, user: string, ghost n0: map<Path, Node>)
    returns (failed: Option<Error>)
    requires fs.Valid() && fs.nodes.Keys <= n0.Keys
    requires NameOk(e.name) && parent + e.name in n0 && e.size == 512
    modifies fs, con`answers
    decreases Under(n0, parent), 0
    ensures fs.Valid() && fs.nodes.Keys <= old(fs.nodes).Keys
    ensures forall k | k in old(fs.nodes) && k !in fs.nodes :: parent <= k
    ensures CallsBelow(parent, old(fs.log), fs.log)
    ensures Remaining(old(con.answers), con.answers)
    ensures !DirFlags(e.flags) ==>
      && failed == Some(NotDirFlags(e.flags, e.size))
      && fs.nodes == old(fs.nodes) && fs.log == old(fs.log) && con.answers == old(con.answers)
    ensures DirFlags(e.flags) && !Guard(parent + e.name, user) ==>
      && failed == Some(PermissionDenied(user, parent + e.name))
      && fs.nodes == old(fs.nodes) && fs.log == old(fs.log) && con.answers == old(con.answers)
    ensures DirFlags(e.flags) && Guard(parent + e.name, user) ==>
      |fs.log| > |old(fs.log)| && fs.log[|old(fs.log)|] == DirListCall(parent + e.name)
    ensures DirFlags(e.flags) && Guard(parent + e.name, user) && !Prompted(old(fs.nodes), parent + e.name, user) ==>
      && failed.Some? && fs.nodes == old(fs.nodes) && ReadOnlySuffix(old(fs.log), fs.log)
      && con.answers == old(con.answers)
    ensures DirFlags(e.flags) && Prompted(old(fs.nodes), parent + e.name, user) && old(con.answers) == [] ==>
      failed == Some(NoAnswer) && fs.nodes == old(fs.nodes)
    ensures DirFlags(e.flags) && Prompted(old(fs.nodes), parent + e.name, user)
            && old(con.answers) != [] && old(con.answers)[0] != "y" ==>
      failed == None && fs.nodes == old(fs.nodes) && con.answers == old(con.answers)[1..]
    ensures failed.None? ==>
      DirFlags(e.flags) && Prompted(old(fs.nodes), parent + e.name, user) && old(con.answers) != []
    ensures failed.None? && old(con.answers) != [] && old(con.answers)[0] == "y" ==>
      parent + e.name !in fs.nodes && forall k | k in fs.nodes :: !(parent + e.name + "/" < k)
  {
    var p := parent + e.name;
    UnderShrinks(n0, fs.nodes, parent, e.name);
    assert p[..|parent|] == parent;
    if !DirFlags(e.flags) {
      return Some(NotDirFlags(e.flags, e.size));
    }
    var sub := DelDir(fs, con, p, user, true);
    EntryCallsBelow(parent, e.name, old(fs.log), fs.log);
    EntryRemovalsBelow(parent, e.name, old(fs.nodes), fs.nodes);
    if sub.Err? {
      return Some(sub.error);
    }
    assert sub.value.Removed? || sub.value.Declined?;
    assert sub == Ok(Removed) || sub == Ok(Declined);
    return None;
  }

  /** The turn of `DelEntry` for any other entry: `del_file` without a
      prompt. */
  method DelPlainEntry(fs: FileSystem, con: Console, parent: Path, e: Entry, user: string)
    returns (failed: Option<Error>)
    requires fs.Valid() && NameOk(e.name) && Canon(parent + e.name) == parent + e.name
    modifies fs, con`answers
    ensures fs.Valid() && fs.nodes.Keys <= old(fs.nodes).Keys && con.answers == old(con.answers)
    ensures forall k | k in old(fs.nodes) && k !in fs.nodes :: parent <= k
    ensures CallsBelow(parent, old(fs.log), fs.log)
    ensures !Guard(parent + e.name, user) ==>
      && failed == Some(PermissionDenied(user, parent + e.name))
      && fs.nodes == old(fs.nodes) && fs.log == old(fs.log)
    ensures Guard(parent + e.name, user) ==>
      && fs.log == old(fs.log) + [RmCall(parent + e.name)]
      && fs.nodes == AfterRm(old(fs.nodes), parent + e.name)
      && (failed.None? <==> RmOk(old(fs.nodes), parent + e.name))
      && (failed.Some? ==> failed == Some(CallFailed(RmCall(parent + e.name))))
    ensures failed.None? ==> parent + e.name !in fs.nodes
  {
    var p := parent + e.name;
    assert p[..|parent|] == parent;
    var f := DelFile(fs, con, p, user, false);
    if f.Err? {
      return Some(f.error);
    }
    return None;
  }
}
