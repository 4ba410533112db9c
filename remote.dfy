/** The remote namespace as the XRootD client sees it, reduced to what the
    tool uses: `stat`, `dirlist`, `rm` and `rmdir` on a map from path to node.
    Every call is appended to a ghost log so that the order of remote calls
    can be stated. */
module Remote {
  import opened Paths
  import opened Wrappers

  /** A node of the namespace. Its `flags` and `size` are what `stat` and
      `dirlist` report for it; a directory keeps its children's names in the
      order `dirlist` returns them. */
  datatype Node =
    | File(flags: int, size: int)
    | Dir(flags: int, size: int, children: seq<string>)

  /** What `stat` reports for a path (`listing.flags`, `listing.size`). */
  datatype StatRecord = StatRecord(flags: int, size: int)

  /** One entry of a `dirlist` answer: `entry.name` and `entry.statinfo`. */
  datatype Entry = Entry(name: string, flags: int, size: int)

  /** A `dirlist` answer: `listing.parent` and the entries in remote order. */
  datatype Listing = Listing(parent: Path, entries: seq<Entry>)

  /** The remote calls the core issues. */
  datatype Call =
    | StatCall(path: Path)
    | DirListCall(path: Path)
    | RmCall(path: Path)
    | RmdirCall(path: Path)
  {
    /** The calls that change the namespace. */
    predicate Mutating()
    {
      RmCall? || RmdirCall?
    }
  }

  /** A name as a directory lists it: non-empty and free of '/'. */
  predicate NameOk(n: string)
  {
    |n| > 0 && '/' !in n
  }

  predicate Distinct(names: seq<string>)
  {
    forall i, j | 0 <= i < j < |names| :: names[i] != names[j]
  }

  /** The children `names` of the directory stored under key `k` are proper
      names, each has a node under `k + "/" + name`, and none is repeated. */
  ghost predicate ChildrenOk(nodes: map<Path, Node>, k: Path, names: seq<string>)
  {
    && (forall m | m in names :: NameOk(m) && k + "/" + m in nodes)
    && Distinct(names)
  }

  /** The shape every namespace has: every listed child exists. */
  ghost predicate WellFormed(nodes: map<Path, Node>)
  {
    forall k | k in nodes && nodes[k].Dir? :: ChildrenOk(nodes, k, nodes[k].children)
  }

  /** The keys strictly below the prefix `pre`; the recursive walks of the
      tool descend into strictly smaller such sets, which is why they end. */
  ghost function Under(nodes: map<Path, Node>, pre: Path): set<Path>
  {
    set p | p in nodes && pre < p
  }

  /** The keys below a child `pre + name` form a strict subset of those below
      `pre`, also after nodes were removed. */
  lemma UnderShrinks(n0: map<Path, Node>, n1: map<Path, Node>, pre: Path, name: string)
    requires n1.Keys <= n0.Keys
    requires NameOk(name) && pre + name in n0
    ensures Canon(pre + name) == pre + name
    ensures Under(n1, Canon(pre + name) + "/") < Under(n0, pre)
  {
    var c := pre + name;
    assert c[|c| - 1] == name[|name| - 1];
    assert name[|name| - 1] in name;
    forall p | p in Under(n1, c + "/") ensures p in Under(n0, pre) {
      assert p[..|c| + 1] == c + "/";
      assert p[..|pre|] == (c + "/")[..|pre|];
      assert (c + "/")[..|pre|] == pre;
    }
    assert c[..|pre|] == pre;
    assert c in Under(n0, pre);
  }

  function StatOf(nodes: map<Path, Node>, p: Path): (r: Option<StatRecord>)
    ensures r.Some? <==> Canon(p) in nodes
  {
    var c := Canon(p);
    if c in nodes then Some(StatRecord(nodes[c].flags, nodes[c].size)) else None
  }

  function EntriesOf(nodes: map<Path, Node>, pre: Path, names: seq<string>): seq<Entry>
    requires forall m | m in names :: pre + m in nodes
  {
    seq(|names|, i requires 0 <= i < |names| =>
      Entry(names[i], nodes[pre + names[i]].flags, nodes[pre + names[i]].size))
  }

  /** Every entry of `l` is a proper name whose path `l.parent + name` has a
      node, and no name is repeated. */
  ghost predicate ListingFits(nodes: map<Path, Node>, l: Listing)
  {
    && (forall i | 0 <= i < |l.entries| :: NameOk(l.entries[i].name) && l.parent + l.entries[i].name in nodes)
    && (forall i, j | 0 <= i < j < |l.entries| :: l.entries[i].name != l.entries[j].name)
  }

  /** The answer of `dirlist(p)`: only a directory can be listed; its parent
      name ends in '/', and the entries carry the children's stat records in
      the directory's order. */
  function ListingOf(nodes: map<Path, Node>, p: Path): (r: Option<Listing>)
    requires WellFormed(nodes)
    ensures r.Some? <==> Canon(p) in nodes && nodes[Canon(p)].Dir?
    ensures r.Some? ==> r.value.parent == Canon(p) + "/" && ListingFits(nodes, r.value)
    ensures r.Some? ==> |r.value.entries| == |nodes[Canon(p)].children|
    ensures r.Some? ==> forall i | 0 <= i < |r.value.entries| :: r.value.entries[i].name == nodes[Canon(p)].children[i]
  {
    var c := Canon(p);
    if c in nodes && nodes[c].Dir? then
      var names := nodes[c].children;
      var l := Listing(c + "/", EntriesOf(nodes, c + "/", names));
      assert forall i | 0 <= i < |names| :: names[i] in names;
      Some(l)
    else None
  }

  /** The last '/'-separated step of a path: `(k, n)` for `k + "/" + n`. */
  function SplitLast(c: Path): Option<(Path, string)>
  {
    if |c| == 0 then None
    else if c[|c| - 1] == '/' then Some((c[..|c| - 1], ""))
    else match SplitLast(c[..|c| - 1])
      case None => None
      case Some(kn) => Some((kn.0, kn.1 + [c[|c| - 1]]))
  }

  lemma {:induction false} SplitLastOfChild(k: Path, n: string)
    requires '/' !in n
    ensures SplitLast(k + "/" + n) == Some((k, n))
    decreases |n|
  {
    var c := k + "/" + n;
    if |n| == 0 {
      assert c[..|c| - 1] == k;
    } else {
      var n' := n[..|n| - 1];
      assert '/' !in n' by {
        forall j | 0 <= j < |n'| ensures n'[j] != '/' {
          assert n'[j] == n[j];
        }
      }
      assert c[..|c| - 1] == k + "/" + n';
      assert c[|c| - 1] == n[|n| - 1];
      assert n[|n| - 1] in n;
      SplitLastOfChild(k, n');
      assert n' + [n[|n| - 1]] == n;
    }
  }

  /** `names` with every occurrence of `n` taken out. */
  function Without(names: seq<string>, n: string): (r: seq<string>)
    ensures forall m :: m in r <==> m in names && m != n
    ensures Distinct(names) ==> Distinct(r)
  {
    if |names| == 0 then []
    else if names[0] == n then Without(names[1..], n)
    else
      var rest := Without(names[1..], n);
      assert Distinct(names) ==> names[0] !in names[1..];
      [names[0]] + rest
  }

  /** Taking out a name that is not there changes nothing. */
  lemma {:induction false} WithoutAbsent(names: seq<string>, n: string)
    requires n !in names
    ensures Without(names, n) == names
  {
    if |names| > 0 {
      WithoutAbsent(names[1..], n);
      assert names == [names[0]] + names[1..];
    }
  }

  /** Taking the first of distinct names out leaves the rest in order. */
  lemma WithoutHead(names: seq<string>)
    requires |names| > 0 && Distinct(names)
    ensures Without(names, names[0]) == names[1..]
  {
    assert names[0] !in names[1..];
    WithoutAbsent(names[1..], names[0]);
  }

  /** The namespace after the node `c` is removed: `c` is gone, and so is its
      name from the listing of the directory that held it. */
  function Unlink(nodes: map<Path, Node>, c: Path): (r: map<Path, Node>)
    ensures r.Keys == nodes.Keys - {c}
    ensures forall k | k in r :: r[k].flags == nodes[k].flags && r[k].size == nodes[k].size && r[k].Dir? == nodes[k].Dir?
    ensures forall k | k in r && (SplitLast(c).None? || SplitLast(c).value.0 != k) :: r[k] == nodes[k]
    ensures SplitLast(c).Some? && SplitLast(c).value.0 in r && r[SplitLast(c).value.0].Dir? ==>
      r[SplitLast(c).value.0].children == Without(nodes[SplitLast(c).value.0].children, SplitLast(c).value.1)
  {
    var m := nodes - {c};
    match SplitLast(c)
    case None => m
    case Some(kn) =>
      if kn.0 in m && m[kn.0].Dir? then
        m[kn.0 := Dir(m[kn.0].flags, m[kn.0].size, Without(m[kn.0].children, kn.1))]
      else m
  }

  /** Removing a file, or a directory with no children, keeps the namespace
      well formed. */
  lemma UnlinkWellFormed(nodes: map<Path, Node>, c: Path)
    requires WellFormed(nodes)
    requires c in nodes && nodes[c].Dir? ==> nodes[c].children == []
    ensures WellFormed(Unlink(nodes, c))
  {
    var r := Unlink(nodes, c);
    forall k | k in r && r[k].Dir? ensures ChildrenOk(r, k, r[k].children) {
      assert nodes[k].Dir?;
      var old_ch := nodes[k].children;
      assert ChildrenOk(nodes, k, old_ch);
      forall m | m in r[k].children ensures NameOk(m) && k + "/" + m in r {
        assert m in old_ch;
        if k + "/" + m == c {
          SplitLastOfChild(k, m);
        }
      }
    }
  }

  /** `rm(p)` succeeds exactly on an existing file. */
  predicate RmOk(nodes: map<Path, Node>, p: Path)
  {
    Canon(p) in nodes && nodes[Canon(p)].File?
  }

  /** `rmdir(p)` succeeds exactly on an existing, empty directory: it lists
      no children and no path lies below it. */
  predicate RmdirOk(nodes: map<Path, Node>, p: Path)
  {
    && Canon(p) in nodes && nodes[Canon(p)].Dir? && nodes[Canon(p)].children == []
    && forall q | q in nodes :: !(Canon(p) + "/" < q)
  }

  /** `after` is `before` followed by calls that change nothing. */
  predicate ReadOnlySuffix(before: seq<Call>, after: seq<Call>)
  {
    before <= after && forall i | |before| <= i < |after| :: !after[i].Mutating()
  }

  lemma ReadOnlySuffixTrans(a: seq<Call>, b: seq<Call>, c: seq<Call>)
    requires ReadOnlySuffix(a, b) && ReadOnlySuffix(b, c)
    ensures ReadOnlySuffix(a, c)
  {
    assert c[..|a|] == b[..|a|];
  }

  /** The remote end, reached through `client.FileSystem(redirector)`. */
  class FileSystem {
    var nodes: map<Path, Node>
    ghost var log: seq<Call>

    ghost predicate Valid()
      reads this
    {
      WellFormed(nodes)
    }

    constructor (initial: map<Path, Node>)
      requires WellFormed(initial)
      ensures Valid() && nodes == initial && log == []
    {
      nodes := initial;
      log := [];
    }

    /** `myclient.stat(p)`: a record when the path exists. */
    method Stat(p: Path) returns (r: Option<StatRecord>)
      requires Valid()
      modifies this
      ensures Valid() && nodes == old(nodes)
      ensures log == old(log) + [StatCall(p)]
      ensures r == StatOf(nodes, p)
    {
      r := StatOf(nodes, p);
      log := log + [StatCall(p)];
    }

    /** `myclient.dirlist(p, DirListFlags.STAT)`: a listing when `p` is a
        directory. */
    method DirList(p: Path) returns (r: Option<Listing>)
      requires Valid()
      modifies this
      ensures Valid() && nodes == old(nodes)
      ensures log == old(log) + [DirListCall(p)]
      ensures r == ListingOf(nodes, p)
    {
      r := ListingOf(nodes, p);
      log := log + [DirListCall(p)];
    }

    /** `myclient.rm(p)`: `ok` is `status.ok`. */
    method Rm(p: Path) returns (ok: bool)
      requires Valid()
      modifies this
      ensures Valid()
      ensures log == old(log) + [RmCall(p)]
      ensures ok == RmOk(old(nodes), p)
      ensures nodes == if ok then Unlink(old(nodes), Canon(p)) else old(nodes)
    {
      ok := RmOk(nodes, p);
      if ok {
        UnlinkWellFormed(nodes, Canon(p));
        nodes := Unlink(nodes, Canon(p));
      }
      log := log + [RmCall(p)];
    }

    /** `myclient.rmdir(p)`: only an empty directory can be removed. */
    method Rmdir(p: Path) returns (ok: bool)
      requires Valid()
      modifies this
      ensures Valid()
      ensures log == old(log) + [RmdirCall(p)]
      ensures ok == RmdirOk(old(nodes), p)
      ensures nodes == if ok then Unlink(old(nodes), Canon(p)) else old(nodes)
    {
      ok := RmdirOk(nodes, p);
      if ok {
        UnlinkWellFormed(nodes, Canon(p));
        nodes := Unlink(nodes, Canon(p));
      }
      log := log + [RmdirCall(p)];
    }
  }
}
