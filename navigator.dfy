/** The two navigation loops of the shell: `interactive ls`, which states the
    files the operator picks, and `interactive file rm`, which deletes them.
    Both offer `exit`, `..`, the directories and the files of the current
    listing as choices. */
module Navigation {
  import opened Paths
  import opened Wrappers
  import opened Remote
  import opened Failures
  import opened Classifier
  import opened Terminal
  import opened Walker
  import opened Deletion

  datatype Mode = Browse | Delete

  const DirHeader := "------Directories:------"

  /** The separator above the files, which warns in the deleting loop. */
  function FileHeader(mode: Mode): string
  {
    match mode
    case Browse => "------Files (will be stated):------"
    case Delete => "------Files (will be DELETED!!):------"
  }

  /** `['exit'] + ['..'] + ['------Directories:------'] + dirs + [header] + files`. */
  function Choices(mode: Mode, dirs: seq<Path>, files: seq<Path>): seq<string>
  {
    ["exit", ".."] + [DirHeader] + dirs + [FileHeader(mode)] + files
  }

  /** `'------' in selection`: a separator line, or any path containing six
      dashes, is ignored. */
  predicate IsHeader(s: string)
  {
    Contains(s, "------")
  }

  /** Both separators are recognised as such. */
  lemma HeadersAreIgnored(mode: Mode, dirs: seq<Path>, files: seq<Path>)
    ensures var c := Choices(mode, dirs, files);
      && c[0] == "exit" && c[1] == ".."
      && c[2] == DirHeader && IsHeader(c[2])
      && c[3 + |dirs|] == FileHeader(mode) && IsHeader(c[3 + |dirs|])
  {
    assert OccursAt(DirHeader, "------", 0);
    assert OccursAt(FileHeader(mode), "------", 0);
    ContainsIff(DirHeader, "------");
    ContainsIff(FileHeader(mode), "------");
  }

  /** `exit` is no separator: it is too short to hold six dashes. */
  lemma ExitIsNoHeader()
    ensures !IsHeader("exit")
  {
    ContainsIff("exit", "------");
  }

  /** Python's `xs.remove(x)`: drops the first occurrence of `x`. */
  function RemoveFirst(xs: seq<string>, x: string): (r: seq<string>)
    requires x in xs
    ensures |r| == |xs| - 1
    ensures multiset(r) == multiset(xs) - multiset{x}
  {
    assert xs == [xs[0]] + xs[1..];
    if xs[0] == x then xs[1..]
    else [xs[0]] + RemoveFirst(xs[1..], x)
  }

  /** The index of the first occurrence of `x` in `xs`. */
  function FirstIndex(xs: seq<string>, x: string): (i: nat)
    requires x in xs
    ensures i < |xs| && xs[i] == x && x !in xs[..i]
  {
    if xs[0] == x then 0
    else
      var j := FirstIndex(xs[1..], x);
      assert xs[..j + 1] == [xs[0]] + xs[1..][..j];
      j + 1
  }

  /** `RemoveFirst` drops the first occurrence of `x` and keeps the order of
      everything else. */
  lemma {:induction false} RemoveFirstIsFirstOccurrence(xs: seq<string>, x: string)
    requires x in xs
    ensures RemoveFirst(xs, x) == xs[..FirstIndex(xs, x)] + xs[FirstIndex(xs, x) + 1..]
  {
    if xs[0] == x {
      assert xs[..0] + xs[1..] == xs[1..];
    } else {
      var j := FirstIndex(xs[1..], x);
      assert FirstIndex(xs, x) == j + 1;
      assert RemoveFirst(xs, x) == [xs[0]] + RemoveFirst(xs[1..], x);
      RemoveFirstIsFirstOccurrence(xs[1..], x);
      ConsSplit(xs, j);
    }
  }

  lemma ConsSplit(xs: seq<string>, j: nat)
    requires j + 1 < |xs|
    ensures [xs[0]] + (xs[1..][..j] + xs[1..][j + 1..]) == xs[..j + 1] + xs[j + 2..]
  {
    assert xs[..j + 1] == [xs[0]] + xs[1..][..j];
    assert xs[j + 2..] == xs[1..][j + 1..];
  }

  /** Removing an element that occurs only after `a` leaves `a` alone. */
  lemma {:induction false} RemoveFirstAppend(a: seq<string>, b: seq<string>, x: string)
    requires x !in a && x in b
    ensures RemoveFirst(a + b, x) == a + RemoveFirst(b, x)
  {
    if a != [] {
      assert (a + b)[0] == a[0];
      assert (a + b)[1..] == a[1..] + b;
      RemoveFirstAppend(a[1..], b, x);
    } else {
      assert a + b == b;
    }
  }

  /** After deleting file `x` the choices are those of the same listing
      without `x`, provided `x` is no label and no directory. */
  lemma RemoveFileFromChoices(mode: Mode, dirs: seq<Path>, files: seq<Path>, x: string)
    requires x in files && x !in dirs
    requires x != "exit" && x != ".." && x != DirHeader && x != FileHeader(mode)
    ensures RemoveFirst(Choices(mode, dirs, files), x) == Choices(mode, dirs, RemoveFirst(files, x))
  {
    var a := ["exit", ".."] + [DirHeader] + dirs + [FileHeader(mode)];
    assert Choices(mode, dirs, files) == a + files;
    RemoveFirstAppend(a, files, x);
  }

  /** A file of the dictionary is the parent followed by an entry's name. */
  lemma FileKeyOfEntry(parent: Path, es: seq<Entry>, x: Path)
    requires DictSpec(parent, es).Ok? && x in FilesOf(DictSpec(parent, es).value)
    ensures exists i :: 0 <= i < |es| && x == parent + es[i].name
  {
    var d := DictSpec(parent, es).value;
    KeysWithMember(d, 0, x);
    DictSpecMeaning(parent, es);
    var i :| 0 <= i < |d| && d[i] == Item(x, 0);
    assert x == parent + es[i].name;
  }

  /** The paths of a listing (proper, distinct names below a parent ending
      in '/') are neither a label of the menu nor both a file and a directory,
      so picking and deleting a file keeps the choices in shape. */
  lemma ListingPathsAreNotLabels(parent: Path, es: seq<Entry>, x: Path)
    requires |parent| > 0 && parent[|parent| - 1] == '/'
    requires forall i | 0 <= i < |es| :: NameOk(es[i].name)
    requires forall i, j | 0 <= i < j < |es| :: es[i].name != es[j].name
    requires DictSpec(parent, es).Ok? && x in FilesOf(DictSpec(parent, es).value)
    ensures x !in DirsOf(DictSpec(parent, es).value)
    ensures x != "exit" && x != ".." && x != DirHeader
    ensures x != FileHeader(Browse) && x != FileHeader(Delete)
  {
    var d := DictSpec(parent, es).value;
    ListingKeysDistinct(parent, es);
    FilesAndDirsDisjoint(d, x);
    FileKeyOfEntry(parent, es, x);
    var i :| 0 <= i < |es| && x == parent + es[i].name;
    assert x[|parent| - 1] == '/';
    LabelsHaveNoSlash();
    NotALabel(x);
  }

  lemma LabelsHaveNoSlash()
    ensures '/' !in "exit" && '/' !in ".." && '/' !in DirHeader
    ensures '/' !in FileHeader(Browse) && '/' !in FileHeader(Delete)
  {
  }

  lemma NotALabel(x: string)
    requires '/' in x
    requires '/' !in "exit" && '/' !in ".." && '/' !in DirHeader
    requires '/' !in FileHeader(Browse) && '/' !in FileHeader(Delete)
    ensures x != "exit" && x != ".." && x != DirHeader
    ensures x != FileHeader(Browse) && x != FileHeader(Delete)
  {
  }

  /** What the loop does after a selection. */
  datatype Next = Continue | Leave

  /** The outcome of `..` from directory `from`: the parent is listed; on
      success the loop moves there and offers that listing's choices,
      otherwise it stays where it was with the choices it had. */
  ghost predicate WentUp(mode: Mode, nodes: map<Path, Node>, from: Path, choices0: seq<string>,
                         r: Result<Next>, dir: Path, choices1: seq<string>)
  {
    && WellFormed(nodes)
    && r == (match DirsAndFiles(nodes, Up(from)) case Err(e) => Err(e) case Ok(_) => Ok(Continue))
    && (r.Ok? ==>
          var df := DirsAndFiles(nodes, Up(from)).value;
          dir == Up(from) && choices1 == Choices(mode, df.0, df.1))
    && (r.Err? ==> dir == from && choices1 == choices0)
  }

  /** The outcome of picking file `sel` in the deleting loop, by the cases of
      `del_file(sel, user, ask=True)`: refused by the guard, no answer, a
      declined prompt, or "y" and one `rm`. Whenever `del_file` returns, the
      file leaves the choices, also when the operator declined. */
  predicate DeletedChoice(user: string, nodes0: map<Path, Node>, nodes1: map<Path, Node>, answers0: seq<string>,
                          sel: Path, choices0: seq<string>, r: Result<Next>, choices1: seq<string>)
  {
    && sel in choices0
    && (!Guard(sel, user) ==>
          r == Err(PermissionDenied(user, sel)) && nodes1 == nodes0 && choices1 == choices0)
    && (Guard(sel, user) && answers0 == [] ==>
          r == Err(NoAnswer) && nodes1 == nodes0 && choices1 == choices0)
    && (Guard(sel, user) && answers0 != [] && answers0[0] != "y" ==>
          r == Ok(Continue) && nodes1 == nodes0 && choices1 == RemoveFirst(choices0, sel))
    && (Guard(sel, user) && answers0 != [] && answers0[0] == "y" ==>
          && nodes1 == AfterRm(nodes0, sel)
          && (r.Ok? <==> RmOk(nodes0, sel))
          && (r.Ok? ==> r == Ok(Continue) && choices1 == RemoveFirst(choices0, sel))
          && (r.Err? ==> r == Err(CallFailed(RmCall(sel))) && choices1 == choices0))
  }

  /** The outcome of opening selection `sel`: a missing or unclassifiable
      path fails; a directory is listed and its choices offered; a file is
      stated with the choices kept (browsing) or deleted as `DeletedChoice`
      says (deleting). */
  ghost predicate Opened(mode: Mode, user: string, nodes0: map<Path, Node>, nodes1: map<Path, Node>,
                         answers0: seq<string>, sel: Path, choices0: seq<string>, r: Result<Next>,
                         choices1: seq<string>)
  {
    && WellFormed(nodes0)
    && (KindOf(nodes0, sel).Err? ==>
          r == Err(KindOf(nodes0, sel).error) && nodes1 == nodes0 && choices1 == choices0)
    && (KindOf(nodes0, sel) == Ok(DirKind) ==>
          && nodes1 == nodes0
          && r == (match DirsAndFiles(nodes0, sel) case Err(e) => Err(e) case Ok(_) => Ok(Continue))
          && (r.Ok? ==> var df := DirsAndFiles(nodes0, sel).value; choices1 == Choices(mode, df.0, df.1))
          && (r.Err? ==> choices1 == choices0))
    && (KindOf(nodes0, sel) == Ok(FileKind) && mode == Browse ==>
          r == Ok(Continue) && nodes1 == nodes0 && choices1 == choices0)
    && (KindOf(nodes0, sel) == Ok(FileKind) && mode == Delete ==>
          DeletedChoice(user, nodes0, nodes1, answers0, sel, choices0, r, choices1))
  }

  /** The calls appended to `before` by one turn on selection `sel`: the log
      only grows, and the one call that can change the namespace is an `rm`
      of `sel` in the deleting loop, on a path holding the user name. */
  predicate RemovalsOf(mode: Mode, user: string, sel: string, before: seq<Call>, after: seq<Call>)
  {
    && |after| >= |before| && after[..|before|] == before
    && forall i | |before| <= i < |after| :: after[i].Mutating() ==>
         mode == Delete && after[i] == RmCall(sel) && Guard(sel, user)
  }

  lemma RemovalsOfTrans(mode: Mode, user: string, sel: string, a: seq<Call>, b: seq<Call>, c: seq<Call>)
    requires RemovalsOf(mode, user, sel, a, b) && RemovalsOf(mode, user, sel, b, c)
    ensures RemovalsOf(mode, user, sel, a, c)
  {
    assert c[..|a|] == b[..|b|][..|a|];
    forall i | |a| <= i < |c| && c[i].Mutating()
      ensures mode == Delete && c[i] == RmCall(sel) && Guard(sel, user)
    {
      if i < |b| {
        assert c[i] == b[i];
      }
    }
  }

  /** What a turn of the loop sees and leaves: the current directory, the
      choices offered, the namespace and the operator's remaining answers. */
  datatype View = View(dir: Path, choices: seq<string>, nodes: map<Path, Node>, answers: seq<string>)

  /** The turn on the offered choice `sel` from `v0`, with `rest` the answers
      after the pick: a separator re-prompts and `exit` leaves, both with
      nothing changed; `..` goes up as `WentUp` says; any other choice becomes
      the current directory and is opened as `Opened` says. */
  ghost predicate Picked(mode: Mode, user: string, v0: View, sel: string, rest: seq<string>, r: Result<Next>, v1: View)
  {
    && (IsHeader(sel) ==> r == Ok(Continue) && v1 == v0.(answers := rest))
    && (!IsHeader(sel) && sel == "exit" ==> r == Ok(Leave) && v1 == v0.(answers := rest))
    && (!IsHeader(sel) && sel == ".." ==>
          && v1.nodes == v0.nodes && v1.answers == rest
          && WentUp(mode, v0.nodes, v0.dir, v0.choices, r, v1.dir, v1.choices))
    && (!IsHeader(sel) && sel != "exit" && sel != ".." ==>
          && v1.dir == sel && Remaining(rest, v1.answers)
          && Opened(mode, user, v0.nodes, v1.nodes, rest, sel, v0.choices, r, v1.choices))
  }

  /** One prompt of the loop from `v0` with outcome `r`, leaving `v1`: no
      answer, or one that is not offered, is `NoAnswer` with nothing changed
      but that answer used; an offered one is acted on as `Picked` says. */
  ghost predicate Turned(mode: Mode, user: string, v0: View, r: Result<Next>, v1: View)
  {
    && (v0.answers == [] ==> r == Err(NoAnswer) && v1 == v0)
    && (v0.answers != [] && v0.answers[0] !in v0.choices ==>
          r == Err(NoAnswer) && v1 == v0.(answers := v0.answers[1..]))
    && (v0.answers != [] && v0.answers[0] in v0.choices ==>
          Picked(mode, user, v0, v0.answers[0], v0.answers[1..], r, v1))
  }

  /** The first `|outcomes|` turns of a loop that started from `views[0]`:
      turn `i` went from `views[i]` to `views[i + 1]`, and each of them asked
      for another prompt. */
  ghost predicate TrailSoFar(mode: Mode, user: string, views: seq<View>, outcomes: seq<Result<Next>>)
  {
    && |views| == |outcomes| + 1
    && forall i | 0 <= i < |outcomes| ::
         Turned(mode, user, views[i], outcomes[i], views[i + 1]) && outcomes[i] == Ok(Continue)
  }

  /** A whole loop: turns that asked for another prompt, then one that
      left (`exit`) or failed. */
  ghost predicate Trail(mode: Mode, user: string, views: seq<View>, outcomes: seq<Result<Next>>)
  {
    && |outcomes| > 0 && |views| == |outcomes| + 1
    && (forall i | 0 <= i < |outcomes| :: Turned(mode, user, views[i], outcomes[i], views[i + 1]))
    && (forall i | 0 <= i < |outcomes| - 1 :: outcomes[i] == Ok(Continue))
    && outcomes[|outcomes| - 1] != Ok(Continue)
  }

  /** How a loop with last outcome `r` ends: no failure after `exit`, else
      the failure. */
  function Ending(r: Result<Next>): Option<Error>
  {
    if r.Err? then Some(r.error) else None
  }

  lemma TrailGrows(mode: Mode, user: string, views: seq<View>, outcomes: seq<Result<Next>>, v: View)
    requires TrailSoFar(mode, user, views, outcomes)
    requires Turned(mode, user, views[|outcomes|], Ok(Continue), v)
    ensures TrailSoFar(mode, user, views + [v], outcomes + [Ok(Continue)])
  {
    var views', outcomes' := views + [v], outcomes + [Ok(Continue)];
    forall i | 0 <= i < |outcomes'|
      ensures Turned(mode, user, views'[i], outcomes'[i], views'[i + 1]) && outcomes'[i] == Ok(Continue)
    {
      if i < |outcomes| {
        assert views'[i] == views[i] && views'[i + 1] == views[i + 1] && outcomes'[i] == outcomes[i];
      }
    }
  }

  lemma TrailCloses(mode: Mode, user: string, views: seq<View>, outcomes: seq<Result<Next>>, r: Result<Next>, v: View)
    requires TrailSoFar(mode, user, views, outcomes)
    requires Turned(mode, user, views[|outcomes|], r, v) && r != Ok(Continue)
    ensures Trail(mode, user, views + [v], outcomes + [r])
  {
    var views', outcomes' := views + [v], outcomes + [r];
    forall i | 0 <= i < |outcomes'|
      ensures Turned(mode, user, views'[i], outcomes'[i], views'[i + 1])
    {
      if i < |outcomes| {
        assert views'[i] == views[i] && views'[i + 1] == views[i + 1] && outcomes'[i] == outcomes[i];
      }
    }
    forall i | 0 <= i < |outcomes'| - 1 ensures outcomes'[i] == Ok(Continue) {
      assert outcomes'[i] == outcomes[i];
    }
  }

  /** `..` is no separator either. */
  lemma UpIsNoHeader()
    ensures !IsHeader("..")
  {
    ContainsIff("..", "------");
  }

  /** Answering `..` and then `exit` from a directory whose parent lists
      takes exactly two turns: the first moves to the parent and offers its
      choices, the second leaves without failure. */
  lemma UpThenExit(mode: Mode, user: string, views: seq<View>, outcomes: seq<Result<Next>>)
    requires Trail(mode, user, views, outcomes)
    requires views[0].answers == ["..", "exit"] && ".." in views[0].choices
    requires WellFormed(views[0].nodes) && DirsAndFiles(views[0].nodes, Up(views[0].dir)).Ok?
    ensures |outcomes| == 2 && outcomes[1] == Ok(Leave)
    ensures views[1].dir == Up(views[0].dir) && views[2].dir == Up(views[0].dir)
    ensures views[2].nodes == views[0].nodes && views[2].answers == []
  {
    var v0 := views[0];
    UpIsNoHeader();
    ExitIsNoHeader();
    assert Turned(mode, user, v0, outcomes[0], views[1]);
    assert Picked(mode, user, v0, "..", ["exit"], outcomes[0], views[1]);
    var df := DirsAndFiles(v0.nodes, Up(v0.dir)).value;
    assert outcomes[0] == Ok(Continue) && views[1].choices == Choices(mode, df.0, df.1);
    HeadersAreIgnored(mode, df.0, df.1);
    assert views[1].answers == ["exit"] && "exit" in views[1].choices;
    assert |outcomes| != 1;
    assert Turned(mode, user, views[1], outcomes[1], views[2]);
    assert Picked(mode, user, views[1], "exit", [], outcomes[1], views[2]);
    assert outcomes[1] == Ok(Leave);
  }

  /** The state of one navigation loop: the current directory and the list
      of choices offered at the next prompt. */
  class Navigator {
    const mode: Mode
    var currentDir: Path
    var choices: seq<string>

    constructor (mode: Mode, start: Path, choices: seq<string>)
      ensures this.mode == mode && currentDir == start && this.choices == choices
    {
      this.mode := mode;
      currentDir := start;
      this.choices := choices;
    }

    /** `..`: list `'/'.join(current_dir.split('/')[:-2])` and move there. */
    method GoUp(fs: FileSystem) returns (r: Result<Next>)
      requires fs.Valid()
      modifies this, fs
      ensures fs.Valid() && fs.nodes == old(fs.nodes)
      ensures fs.log == old(fs.log) + [DirListCall(Up(old(currentDir)))]
      ensures WentUp(mode, fs.nodes, old(currentDir), old(choices), r, currentDir, choices)
    {
      var target := Up(currentDir);
      var df := InteractiveLs(fs, target);
      if df.Err? {
        return Err(df.error);
      }
      choices := Choices(mode, df.value.0, df.value.1);
      currentDir := target;
      return Ok(Continue);
    }

    /** A path: list it when it is a directory; otherwise state it (browsing)
        or delete it with a prompt and drop it from the choices, whatever the
        answer (deleting). */
    method Open(fs: FileSystem, con: Console, user: string, sel: Path) returns (r: Result<Next>)
      requires fs.Valid() && sel in choices
      modifies this, fs, con`answers
      ensures fs.Valid() && currentDir == sel
      ensures |fs.log| >= |old(fs.log)| + 2
      ensures fs.log[..|old(fs.log)|] == old(fs.log)
      ensures fs.log[|old(fs.log)|..|old(fs.log)| + 2] == [StatCall(sel), StatCall(sel)]
      ensures Opened(mode, user, old(fs.nodes), fs.nodes, old(con.answers), sel, old(choices), r, choices)
      ensures KindOf(old(fs.nodes), sel).Err? ==>
        |fs.log| == |old(fs.log)| + 2 && con.answers == old(con.answers)
      ensures KindOf(old(fs.nodes), sel) == Ok(DirKind) ==>
        fs.log == old(fs.log) + [StatCall(sel), StatCall(sel), DirListCall(sel)] && con.answers == old(con.answers)
      ensures KindOf(old(fs.nodes), sel) == Ok(FileKind) && mode == Browse ==>
        && fs.log == old(fs.log) + [StatCall(sel), StatCall(sel), StatCall(sel), StatCall(sel)]
        && con.answers == old(con.answers)
      ensures RemovalsOf(mode, user, sel, old(fs.log), fs.log)
      ensures mode == Browse ==> fs.nodes == old(fs.nodes)
      ensures Remaining(old(con.answers), con.answers)
    {
      currentDir := sel;
      var kind := CheckFileOrDirectory(fs, sel);
      assert RemovalsOf(mode, user, sel, old(fs.log), fs.log);
      if kind.Err? {
        return Err(kind.error);
      }
      if kind.value == DirKind {
        var df := InteractiveLs(fs, sel);
        assert RemovalsOf(mode, user, sel, old(fs.log), fs.log);
        if df.Err? {
          return Err(df.error);
        }
        choices := Choices(mode, df.value.0, df.value.1);
        return Ok(Continue);
      }
      ghost var stated := fs.log;
      if mode == Browse {
        var _ := ShowStat(fs, sel);
        assert RemovalsOf(mode, user, sel, stated, fs.log);
        RemovalsOfTrans(mode, user, sel, old(fs.log), stated, fs.log);
        return Ok(Continue);
      }
      r := DeleteChoice(fs, con, user, sel);
      assert RemovalsOf(mode, user, sel, stated, fs.log);
      RemovalsOfTrans(mode, user, sel, old(fs.log), stated, fs.log);
    }

    /** A file picked in the deleting loop: `del_file(selection, user,
        ask=True)`, after which the file leaves the choices whatever the
        answer was. */
    method DeleteChoice(fs: FileSystem, con: Console, user: string, sel: Path) returns (r: Result<Next>)
      requires fs.Valid() && sel in choices
      modifies this`choices, fs, con`answers
      ensures fs.Valid()
      ensures DeletedChoice(user, old(fs.nodes), fs.nodes, old(con.answers), sel, old(choices), r, choices)
      ensures |fs.log| >= |old(fs.log)| && fs.log[..|old(fs.log)|] == old(fs.log)
      ensures forall i | |old(fs.log)| <= i < |fs.log| :: fs.log[i].Mutating() ==>
        fs.log[i] == RmCall(sel) && Guard(sel, user)
      ensures Remaining(old(con.answers), con.answers)
    {
      var removal := DelFile(fs, con, sel, user, true);
      if removal.Err? {
        return Err(removal.error);
      }
      choices := RemoveFirst(choices, sel);
      return Ok(Continue);
    }

    /** One turn of the loop after the prompt returned `sel`. */
    method Step(fs: FileSystem, con: Console, user: string, sel: string) returns (r: Result<Next>)
      requires fs.Valid() && sel in choices
      modifies this, fs, con`answers
      ensures fs.Valid()
      ensures IsHeader(sel) ==>
        r == Ok(Continue) && currentDir == old(currentDir) && choices == old(choices)
        && fs.log == old(fs.log) && fs.nodes == old(fs.nodes) && con.answers == old(con.answers)
      ensures !IsHeader(sel) && sel == "exit" ==>
        r == Ok(Leave) && currentDir == old(currentDir) && choices == old(choices)
        && fs.log == old(fs.log) && fs.nodes == old(fs.nodes) && con.answers == old(con.answers)
      ensures !IsHeader(sel) && sel == ".." ==>
        && fs.log == old(fs.log) + [DirListCall(Up(old(currentDir)))] && fs.nodes == old(fs.nodes)
        && con.answers == old(con.answers)
        && WentUp(mode, fs.nodes, old(currentDir), old(choices), r, currentDir, choices)
      ensures !IsHeader(sel) && sel != "exit" && sel != ".." ==>
        && currentDir == sel && |fs.log| > |old(fs.log)| && fs.log[|old(fs.log)|] == StatCall(sel)
        && Opened(mode, user, old(fs.nodes), fs.nodes, old(con.answers), sel, old(choices), r, choices)
      ensures r == Ok(Leave) ==> sel == "exit"
      ensures RemovalsOf(mode, user, sel, old(fs.log), fs.log)
      ensures mode == Browse ==> fs.nodes == old(fs.nodes)
      ensures Remaining(old(con.answers), con.answers)
    {
      if IsHeader(sel) {
        return Ok(Continue);
      }
      if sel == "exit" {
        return Ok(Leave);
      }
      if sel == ".." {
        r := GoUp(fs);
        return;
      }
      r := Open(fs, con, user, sel);
    }

    /** One prompt of the loop: ask for a selection among the current
        choices and act on it. A missing answer is `NoAnswer`; every answer
        acted on is used up. */
    method Prompt(fs: FileSystem, con: Console, user: string) returns (r: Result<Next>)
      requires fs.Valid()
      modifies this, fs, con`answers
      ensures fs.Valid()
      ensures RemovalsGuarded(mode, user, old(fs.log), fs.log)
      ensures mode == Browse ==> fs.nodes == old(fs.nodes)
      ensures Remaining(old(con.answers), con.answers)
      ensures r.Ok? ==> |con.answers| < |old(con.answers)|
      ensures r == Ok(Leave) ==> old(con.answers)[0] == "exit"
      ensures old(con.answers) == [] ==>
        r == Err(NoAnswer) && fs.log == old(fs.log) && fs.nodes == old(fs.nodes) && choices == old(choices)
      ensures old(con.answers) != [] && old(con.answers)[0] == "exit" && "exit" in old(choices) ==>
        && r == Ok(Leave) && fs.log == old(fs.log) && fs.nodes == old(fs.nodes)
        && con.answers == old(con.answers)[1..]
      ensures Turned(mode, user, View(old(currentDir), old(choices), old(fs.nodes), old(con.answers)), r,
                     View(currentDir, choices, fs.nodes, con.answers))
    {
      var sel := con.Select(choices);
      if sel.None? {
        return Err(NoAnswer);
      }
      ghost var logBefore := fs.log;
      ghost var answersMid := con.answers;
      ghost var exiting := sel.value == "exit";
      assert old(con.answers)[0] == "exit" && "exit" in choices ==> exiting;
      if exiting {
        ExitIsNoHeader();
      }
      r := Step(fs, con, user, sel.value);
      if exiting {
        assert r == Ok(Leave) && fs.log == logBefore && fs.nodes == old(fs.nodes) && con.answers == answersMid;
      }
      RemainingTrans(old(con.answers), answersMid, con.answers);
      RemovalsGuardedOfStep(mode, user, sel.value, logBefore, fs.log);
    }

    /** `while True:` prompt after prompt until `exit` is picked, a prompt
        fails or the operator's answers run out. The ghost trail holds the
        views before and after each turn and the turns' outcomes. */
    method Loop(fs: FileSystem, con: Console, user: string)
      returns (failure: Option<Error>, ghost views: seq<View>, ghost outcomes: seq<Result<Next>>)
      requires fs.Valid()
      modifies this, fs, con`answers
      ensures fs.Valid()
      ensures RemovalsGuarded(mode, user, old(fs.log), fs.log)
      ensures mode == Browse ==> fs.nodes == old(fs.nodes)
      ensures Remaining(old(con.answers), con.answers)
      ensures old(con.answers) == [] ==>
        failure == Some(NoAnswer) && fs.log == old(fs.log) && fs.nodes == old(fs.nodes)
      ensures old(con.answers) != [] && old(con.answers)[0] == "exit" && "exit" in old(choices) ==>
        && failure == None && fs.log == old(fs.log) && fs.nodes == old(fs.nodes)
        && con.answers == old(con.answers)[1..]
      ensures failure == None ==> "exit" in old(con.answers)
      ensures Trail(mode, user, views, outcomes)
      ensures views[0] == View(old(currentDir), old(choices), old(fs.nodes), old(con.answers))
      ensures views[|outcomes|] == View(currentDir, choices, fs.nodes, con.answers)
      ensures failure == Ending(outcomes[|outcomes| - 1])
    {
      views, outcomes := [View(currentDir, choices, fs.nodes, con.answers)], [];
      while true
        invariant fs.Valid()
        invariant RemovalsGuarded(mode, user, old(fs.log), fs.log)
        invariant mode == Browse ==> fs.nodes == old(fs.nodes)
        invariant Remaining(old(con.answers), con.answers)
        invariant TrailSoFar(mode, user, views, outcomes)
        invariant views[0] == View(old(currentDir), old(choices), old(fs.nodes), old(con.answers))
        invariant views[|outcomes|] == View(currentDir, choices, fs.nodes, con.answers)
        invariant outcomes == [] ==>
          fs.log == old(fs.log) && fs.nodes == old(fs.nodes) && con.answers == old(con.answers) && choices == old(choices)
        invariant outcomes != [] ==> old(con.answers) != []
        invariant outcomes != [] ==> !(old(con.answers)[0] == "exit" && "exit" in old(choices))
        decreases |con.answers|
      {
        ghost var answersBefore := con.answers;
        ghost var logBefore := fs.log;
        var next := Prompt(fs, con, user);
        ghost var v := View(currentDir, choices, fs.nodes, con.answers);
        RemainingTrans(old(con.answers), answersBefore, con.answers);
        RemovalsGuardedTrans(mode, user, old(fs.log), logBefore, fs.log);
        if next.Err? || next.value == Leave {
          TrailCloses(mode, user, views, outcomes, next, v);
          views, outcomes := views + [v], outcomes + [next];
          if next.Err? {
            return Some(next.error), views, outcomes;
          }
          assert answersBefore[0] == old(con.answers)[|old(con.answers)| - |answersBefore|];
          return None, views, outcomes;
        }
        TrailGrows(mode, user, views, outcomes, v);
        views, outcomes := views + [v], outcomes + [next];
      }
    }
  }

  /** Every call after `before` in `after` that changes the namespace is an
      `rm` of the deleting loop on a path holding the user name. */
  predicate RemovalsGuarded(mode: Mode, user: string, before: seq<Call>, after: seq<Call>)
  {
    before <= after && forall i | |before| <= i < |after| :: after[i].Mutating() ==>
      mode == Delete && after[i].RmCall? && Guard(after[i].path, user)
  }

  lemma RemovalsGuardedOfStep(mode: Mode, user: string, sel: string, before: seq<Call>, after: seq<Call>)
    requires RemovalsOf(mode, user, sel, before, after)
    ensures RemovalsGuarded(mode, user, before, after)
  {
  }

  lemma RemovalsGuardedTrans(mode: Mode, user: string, a: seq<Call>, b: seq<Call>, c: seq<Call>)
    requires RemovalsGuarded(mode, user, a, b) && RemovalsGuarded(mode, user, b, c)
    ensures RemovalsGuarded(mode, user, a, c)
  {
    assert c[..|a|] == b[..|a|];
  }

  /** A whole navigation loop from directory `start`: the first listing, then
      prompt after prompt until `exit` (or a failure, or the end of the
      operator's answers). Browsing never changes the namespace; deleting
      only ever removes files whose path holds the user name. */
  method Navigate(fs: FileSystem, con: Console, user: string, mode: Mode, start: Path)
    returns (failure: Option<Error>, ghost views: seq<View>, ghost outcomes: seq<Result<Next>>)
    requires fs.Valid()
    modifies fs, con`answers
    ensures fs.Valid()
    ensures |fs.log| > |old(fs.log)| && fs.log[|old(fs.log)|] == DirListCall(start)
    ensures DirsAndFiles(old(fs.nodes), start).Err? ==>
      failure == Some(DirsAndFiles(old(fs.nodes), start).error) && fs.log == old(fs.log) + [DirListCall(start)]
    ensures DirsAndFiles(old(fs.nodes), start).Ok? && old(con.answers) == [] ==>
      failure == Some(NoAnswer) && fs.log == old(fs.log) + [DirListCall(start)] && fs.nodes == old(fs.nodes)
    ensures DirsAndFiles(old(fs.nodes), start).Ok? && old(con.answers) != [] && old(con.answers)[0] == "exit" ==>
      && failure == None && fs.log == old(fs.log) + [DirListCall(start)] && fs.nodes == old(fs.nodes)
      && con.answers == old(con.answers)[1..]
    ensures failure == None ==> DirsAndFiles(old(fs.nodes), start).Ok? && "exit" in old(con.answers)
    ensures RemovalsGuarded(mode, user, old(fs.log), fs.log)
    ensures mode == Browse ==> fs.nodes == old(fs.nodes)
    ensures Remaining(old(con.answers), con.answers)
    ensures DirsAndFiles(old(fs.nodes), start).Ok? ==>
      && Trail(mode, user, views, outcomes)
      && (var df := DirsAndFiles(old(fs.nodes), start).value;
          views[0] == View(start, Choices(mode, df.0, df.1), old(fs.nodes), old(con.answers)))
      && views[|outcomes|].nodes == fs.nodes && views[|outcomes|].answers == con.answers
      && failure == Ending(outcomes[|outcomes| - 1])
  {
    var df := InteractiveLs(fs, start);
    if df.Err? {
      return Some(df.error), [], [];
    }
    ghost var first := fs.log;
    assert RemovalsGuarded(mode, user, old(fs.log), first);
    failure, views, outcomes := Explore(fs, con, user, mode, start, df.value.0, df.value.1);
    RemovalsGuardedTrans(mode, user, old(fs.log), first, fs.log);
  }

  /** The loop of `Navigate` from directory `start`, once its listing gave
      `dirs` and `files`. */
  method Explore(fs: FileSystem, con: Console, user: string, mode: Mode, start: Path, dirs: seq<Path>, files: seq<Path>)
    returns (failure: Option<Error>, ghost views: seq<View>, ghost outcomes: seq<Result<Next>>)
    requires fs.Valid()
    modifies fs, con`answers
    ensures fs.Valid()
    ensures RemovalsGuarded(mode, user, old(fs.log), fs.log)
    ensures mode == Browse ==> fs.nodes == old(fs.nodes)
    ensures Remaining(old(con.answers), con.answers)
    ensures old(con.answers) == [] ==>
      failure == Some(NoAnswer) && fs.log == old(fs.log) && fs.nodes == old(fs.nodes)
    ensures old(con.answers) != [] && old(con.answers)[0] == "exit" ==>
      && failure == None && fs.log == old(fs.log) && fs.nodes == old(fs.nodes)
      && con.answers == old(con.answers)[1..]
    ensures failure == None ==> "exit" in old(con.answers)
    ensures Trail(mode, user, views, outcomes)
    ensures views[0] == View(start, Choices(mode, dirs, files), old(fs.nodes), old(con.answers))
    ensures views[|outcomes|].nodes == fs.nodes && views[|outcomes|].answers == con.answers
    ensures failure == Ending(outcomes[|outcomes| - 1])
  {
    var nav := new Navigator(mode, start, Choices(mode, dirs, files));
    HeadersAreIgnored(mode, dirs, files);
    failure, views, outcomes := nav.Loop(fs, con, user);
  }
}
