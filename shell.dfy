/** The interactive shell: the base path check at start-up, then a menu loop
    that dispatches each command to the operation behind it, with the base
    path prepended to every path the operator types. */
module Shell {
  import opened Paths
  import opened Wrappers
  import opened Remote
  import opened Failures
  import opened Terminal
  import opened Walker
  import opened Sizes
  import opened Deletion
  import opened Export
  import opened Navigation

  /** The base path is empty, or begins and ends with '/'. */
  predicate BasePathOk(b: Path)
  {
    |b| == 0 || (b[0] == '/' && b[|b| - 1] == '/')
  }

  /** The commands of the main menu, in the order offered. */
  const Menu: seq<string> := [
    "exit", "ls", "interactive ls", "stat", "stat directory", "dir size",
    "rm file", "interactive file rm", "rm dir", "mv", "mkdir",
    "copy file to", "copy file from", "create file list",
    "change base path", "change redirector", "help"]

  /** How a session ends: the process status, or a command this model does
      not cover. */
  datatype SessionEnd = Exited(code: int) | OutOfModel(command: string)

  /** After one command: the base path for the next one, or the end. */
  datatype Turn = Again(basepath: Path) | End(end: SessionEnd)

  /** Every removal after `before` in `after` is on a path holding the user
      name. */
  predicate GuardedSince(before: seq<Call>, after: seq<Call>, user: string)
  {
    before <= after && forall i | |before| <= i < |after| :: after[i].Mutating() ==> Guard(after[i].path, user)
  }

  lemma GuardedTrans(a: seq<Call>, b: seq<Call>, c: seq<Call>, user: string)
    requires GuardedSince(a, b, user) && GuardedSince(b, c, user)
    ensures GuardedSince(a, c, user)
  {
    assert c[..|a|] == b[..|a|];
  }

  /** `change base path`: the typed path must begin and end with '/' (an
      empty one fails on `basepath[0]`), and must be a directory that can be
      listed. */
  method ChangeBasePath(fs: FileSystem, con: Console) returns (r: Result<Path>)
    requires fs.Valid()
    modifies fs, con`answers
    ensures fs.Valid() && fs.nodes == old(fs.nodes)
    ensures old(con.answers) == [] ==> r == Err(NoAnswer) && fs.log == old(fs.log) && con.answers == []
    ensures old(con.answers) != [] ==> con.answers == old(con.answers)[1..]
    ensures old(con.answers) != [] && (|old(con.answers)[0]| == 0 || !BasePathOk(old(con.answers)[0])) ==>
      r == Err(BadBasePath(old(con.answers)[0])) && fs.log == old(fs.log)
    ensures old(con.answers) != [] && |old(con.answers)[0]| > 0 && BasePathOk(old(con.answers)[0]) ==>
      && fs.log == old(fs.log) + [DirListCall(old(con.answers)[0])]
      && r == if ListingOf(fs.nodes, old(con.answers)[0]).Some? then Ok(old(con.answers)[0])
              else Err(CallFailed(DirListCall(old(con.answers)[0])))
  {
    var answer := con.Input();
    if answer.None? {
      return Err(NoAnswer);
    }
    var b := answer.value;
    if |b| == 0 || b[0] != '/' || b[|b| - 1] != '/' {
      return Err(BadBasePath(b));
    }
    var checked := StatDir(fs, b, false);
    if checked.Err? {
      return Err(checked.error);
    }
    return Ok(b);
  }

  /** The start-up check on typical base paths: the empty one (which
      `change base path` refuses, see `ChangeBasePath`) and the default pass,
      a path missing either '/' does not. */
  lemma BasePathExamples()
    ensures BasePathOk("")
    ensures BasePathOk("/store/user/")
    ensures !BasePathOk("/store/user") && !BasePathOk("store/user/")
  {
  }

  /** The typed path, or the prompt that ended without one. */
  method AskPath(con: Console, basepath: Path) returns (r: Result<Path>)
    modifies con`answers
    ensures old(con.answers) == [] ==> r == Err(NoAnswer) && con.answers == []
    ensures old(con.answers) != [] ==>
      r == Ok(basepath + old(con.answers)[0]) && con.answers == old(con.answers)[1..]
  {
    var answer := con.Input();
    if answer.None? {
      return Err(NoAnswer);
    }
    return Ok(basepath + answer.value);
  }

  /** The commands that only read the remote end, on the typed path. */
  method Inspect(fs: FileSystem, con: Console, cmd: string, path: Path) returns (failure: Option<Error>)
    requires fs.Valid()
    modifies fs, con`answers, con`written
    ensures fs.Valid() && fs.nodes == old(fs.nodes)
    ensures ReadOnlySuffix(old(fs.log), fs.log)
    ensures Remaining(old(con.answers), con.answers)
    ensures cmd in OneAnswerCommands ==> con.answers == old(con.answers)
    ensures cmd == "ls" ==>
      && (failure.None? <==> LsSpec(fs.nodes, path).Ok?)
      && (failure.Some? ==> failure.value == LsSpec(fs.nodes, path).error)
    ensures cmd == "stat" ==> failure == None && fs.log == old(fs.log) + [StatCall(path), StatCall(path)]
    ensures cmd == "stat directory" ==>
      && (failure.None? <==> ListingOf(fs.nodes, path).Some?)
      && (failure.Some? ==> failure.value == CallFailed(DirListCall(path)))
    ensures cmd == "dir size" ==>
      && (failure.None? <==> SizeOf(fs.nodes, path).Ok?)
      && (failure.Some? ==> failure.value == SizeOf(fs.nodes, path).error)
    ensures cmd == "create file list" ==>
      && (old(con.answers) == [] ==> failure == Some(NoAnswer) && fs.log == old(fs.log))
      && (old(con.answers) != [] ==> con.answers == old(con.answers)[1..])
      && (failure.None? <==> old(con.answers) != [] && ListingDict(fs.nodes, path).Ok?)
  {
    if cmd == "ls" {
      var r := Ls(fs, path);
      failure := if r.Err? then Some(r.error) else None;
    } else if cmd == "stat" {
      var _ := ShowStat(fs, path);
      failure := None;
    } else if cmd == "stat directory" {
      var r := StatDir(fs, path, false);
      failure := if r.Err? then Some(r.error) else None;
    } else if cmd == "dir size" {
      var r := DirSize(fs, path);
      failure := if r.Err? then Some(r.error) else None;
    } else {
      var exclude := con.Input();
      if exclude.None? {
        return Some(NoAnswer);
      }
      var r := CreateFileList(fs, con, path, exclude.value);
      failure := if r.Err? then Some(r.error) else None;
    }
  }

  /** The commands that may remove something, on the typed path, and the
      browsing loop. */
  method Operate(fs: FileSystem, con: Console, user: string, cmd: string, path: Path) returns (failure: Option<Error>)
    requires fs.Valid()
    modifies fs, con`answers
    ensures fs.Valid()
    ensures GuardedSince(old(fs.log), fs.log, user)
    ensures cmd == "interactive ls" ==> fs.nodes == old(fs.nodes) && ReadOnlySuffix(old(fs.log), fs.log)
    ensures Remaining(old(con.answers), con.answers)
    ensures (cmd == "interactive ls" || cmd == "interactive file rm") && DirsAndFiles(old(fs.nodes), path).Err? ==>
      failure == Some(DirsAndFiles(old(fs.nodes), path).error)
    ensures cmd == "rm file" ==>
      && (!Guard(path, user) ==> failure == Some(PermissionDenied(user, path)) && fs.nodes == old(fs.nodes))
      && (Guard(path, user) && old(con.answers) == [] ==> failure == Some(NoAnswer) && fs.nodes == old(fs.nodes))
      && (Guard(path, user) && old(con.answers) != [] && old(con.answers)[0] != "y" ==>
            failure == None && fs.nodes == old(fs.nodes))
      && (Guard(path, user) && old(con.answers) != [] && old(con.answers)[0] == "y" ==>
            fs.nodes == AfterRm(old(fs.nodes), path) && (failure.None? <==> RmOk(old(fs.nodes), path)))
    ensures cmd == "rm dir" ==>
      && (!Guard(path, user) ==> failure == Some(PermissionDenied(user, path)) && fs.nodes == old(fs.nodes))
      && (Prompted(old(fs.nodes), path, user) && old(con.answers) == [] ==>
            failure == Some(NoAnswer) && fs.nodes == old(fs.nodes))
      && (Prompted(old(fs.nodes), path, user) && old(con.answers) != [] && old(con.answers)[0] != "y" ==>
            failure == None && fs.nodes == old(fs.nodes))
      && (failure.None? ==> Prompted(old(fs.nodes), path, user) && old(con.answers) != [])
      && (failure.None? && old(con.answers) != [] && old(con.answers)[0] == "y" ==>
            Canon(path) !in fs.nodes && forall k | k in fs.nodes :: !(Canon(path) + "/" < k))
      && (Prompted(old(fs.nodes), path, user) && old(con.answers) != [] && old(con.answers)[0] == "y"
          && NoSubdirs(ListingOf(old(fs.nodes), path).value) ==>
            (failure.None? <==> FilesRemovable(old(fs.nodes), ListingOf(old(fs.nodes), path).value)))
      && (Guard(path, user) && !Prompted(old(fs.nodes), path, user) ==>
            failure.Some? && fs.nodes == old(fs.nodes) && con.answers == old(con.answers))
    ensures cmd == "rm dir" && (fs.nodes != old(fs.nodes) || con.answers != old(con.answers)) ==>
      Prompted(old(fs.nodes), path, user)
  {
    if cmd == "interactive ls" {
      var f, _, _ := Navigate(fs, con, user, Browse, path);
      failure := f;
    } else if cmd == "rm file" {
      var r := DelFile(fs, con, path, user, true);
      failure := if r.Err? then Some(r.error) else None;
    } else if cmd == "interactive file rm" {
      var f, _, _ := Navigate(fs, con, user, Delete, path);
      failure := f;
    } else {
      var r := DelDir(fs, con, path, user, true);
      assert r.Ok? ==> r.value.Removed? || r.value.Declined?;
      failure := if r.Err? then Some(r.error) else None;
    }
  }

  /** One command of the menu. */
  method Command(fs: FileSystem, con: Console, user: string, basepath: Path, cmd: string) returns (t: Turn)
    requires fs.Valid()
    modifies fs, con`answers, con`written
    ensures fs.Valid()
    ensures GuardedSince(old(fs.log), fs.log, user)
    ensures Remaining(old(con.answers), con.answers)
    ensures cmd == "exit" ==> fs.log == old(fs.log) && con.answers == old(con.answers)
    ensures t == End(Exited(0)) <==> cmd == "exit"
    ensures t.Again? && cmd != "change base path" ==> t.basepath == basepath
    ensures t.End? && t.end.Exited? ==> 0 <= t.end.code < 256
    ensures t.End? && t.end.OutOfModel? <==> cmd != "exit" && cmd != "change base path" && cmd !in PathCommands
    ensures t.End? && t.end.OutOfModel? ==> t.end.command == cmd && fs.log == old(fs.log)
    ensures cmd in ReadOnlyCommands ==> fs.nodes == old(fs.nodes) && ReadOnlySuffix(old(fs.log), fs.log)
    ensures cmd == "change base path" ==>
      && (t.Again? <==> old(con.answers) != [] && |old(con.answers)[0]| > 0 && BasePathOk(old(con.answers)[0])
                         && ListingOf(old(fs.nodes), old(con.answers)[0]).Some?)
      && (t.Again? ==> t.basepath == old(con.answers)[0])
    ensures cmd in PathCommands && old(con.answers) == [] ==> t == End(Exited(ExitCode(NoAnswer)))
    ensures cmd == "ls" ==>
      (t.Again? <==> old(con.answers) != [] && LsSpec(old(fs.nodes), basepath + old(con.answers)[0]).Ok?)
    ensures cmd == "stat" ==> (t.Again? <==> old(con.answers) != [])
    ensures cmd == "stat directory" ==>
      (t.Again? <==> old(con.answers) != [] && ListingOf(old(fs.nodes), basepath + old(con.answers)[0]).Some?)
    ensures cmd == "dir size" ==>
      (t.Again? <==> old(con.answers) != [] && SizeOf(old(fs.nodes), basepath + old(con.answers)[0]).Ok?)
    ensures cmd == "create file list" ==>
      (t.Again? <==> |old(con.answers)| >= 2 && ListingDict(old(fs.nodes), basepath + old(con.answers)[0]).Ok?)
    ensures cmd == "rm file" ==>
      (t.Again? <==> |old(con.answers)| >= 2 && Guard(basepath + old(con.answers)[0], user)
                     && (old(con.answers)[1] == "y" ==> RmOk(old(fs.nodes), basepath + old(con.answers)[0])))
    ensures cmd == "rm file" && t.Again? ==>
      fs.nodes == if old(con.answers)[1] == "y" then AfterRm(old(fs.nodes), basepath + old(con.answers)[0]) else old(fs.nodes)
    ensures cmd == "rm dir" && t.Again? ==>
      |old(con.answers)| >= 2 && Prompted(old(fs.nodes), basepath + old(con.answers)[0], user)
    ensures cmd == "rm dir" && |old(con.answers)| >= 2 && Prompted(old(fs.nodes), basepath + old(con.answers)[0], user)
            && old(con.answers)[1] != "y" ==>
      t.Again? && fs.nodes == old(fs.nodes)
    ensures cmd == "rm dir" && |old(con.answers)| >= 2 && Prompted(old(fs.nodes), basepath + old(con.answers)[0], user)
            && old(con.answers)[1] == "y" && NoSubdirs(ListingOf(old(fs.nodes), basepath + old(con.answers)[0]).value) ==>
      (t.Again? <==> FilesRemovable(old(fs.nodes), ListingOf(old(fs.nodes), basepath + old(con.answers)[0]).value))
    ensures (cmd == "interactive ls" || cmd == "interactive file rm") && old(con.answers) != []
            && DirsAndFiles(old(fs.nodes), basepath + old(con.answers)[0]).Err? ==>
      t == End(Exited(ExitCode(DirsAndFiles(old(fs.nodes), basepath + old(con.answers)[0]).error)))
    ensures cmd in OneAnswerCommands && old(con.answers) != [] ==> con.answers == old(con.answers)[1..]
    ensures cmd == "rm dir" && (fs.nodes != old(fs.nodes) || |con.answers| + 1 < |old(con.answers)|) ==>
      |old(con.answers)| >= 2 && Prompted(old(fs.nodes), basepath + old(con.answers)[0], user)
  {
    if cmd == "exit" {
      return End(Exited(0));
    }
    if cmd == "change base path" {
      var b := ChangeBasePath(fs, con);
      assert ReadOnlySuffix(old(fs.log), fs.log);
      if b.Err? {
        return End(Exited(ExitCode(b.error)));
      }
      return Again(b.value);
    }
    if cmd !in PathCommands {
      return End(OutOfModel(cmd));
    }
    if cmd in InspectCommands {
      assert cmd != "rm dir";
      t := InspectCommand(fs, con, user, basepath, cmd);
    } else {
      t := OperateCommand(fs, con, user, basepath, cmd);
    }
  }

  /** A read-only menu command on a typed path: the prompt for the path,
      relative to the base path, then the operation; a failure ends the
      session with its status. */
  method InspectCommand(fs: FileSystem, con: Console, user: string, basepath: Path, cmd: string) returns (t: Turn)
    requires fs.Valid() && cmd in InspectCommands
    modifies fs, con`answers, con`written
    ensures fs.Valid()
    ensures GuardedSince(old(fs.log), fs.log, user)
    ensures Remaining(old(con.answers), con.answers)
    ensures t.Again? ==> t.basepath == basepath
    ensures t.End? ==> t.end.Exited? && 0 < t.end.code < 256
    ensures old(con.answers) == [] ==> t == End(Exited(ExitCode(NoAnswer)))
    ensures cmd in OneAnswerCommands && old(con.answers) != [] ==> con.answers == old(con.answers)[1..]
    ensures fs.nodes == old(fs.nodes) && ReadOnlySuffix(old(fs.log), fs.log)
    ensures cmd == "ls" ==>
      (t.Again? <==> old(con.answers) != [] && LsSpec(old(fs.nodes), basepath + old(con.answers)[0]).Ok?)
    ensures cmd == "stat" ==> (t.Again? <==> old(con.answers) != [])
    ensures cmd == "stat directory" ==>
      (t.Again? <==> old(con.answers) != [] && ListingOf(old(fs.nodes), basepath + old(con.answers)[0]).Some?)
    ensures cmd == "dir size" ==>
      (t.Again? <==> old(con.answers) != [] && SizeOf(old(fs.nodes), basepath + old(con.answers)[0]).Ok?)
    ensures cmd == "create file list" ==>
      (t.Again? <==> |old(con.answers)| >= 2 && ListingDict(old(fs.nodes), basepath + old(con.answers)[0]).Ok?)
  {
    var p := AskPath(con, basepath);
    if p.Err? {
      return End(Exited(ExitCode(p.error)));
    }
    ghost var n := con.answers;
    var failure := Inspect(fs, con, cmd, p.value);
    RemainingTrans(old(con.answers), n, con.answers);
    if failure.Some? {
      return End(Exited(ExitCode(failure.value)));
    }
    return Again(basepath);
  }

  /** The other menu commands on a typed path: browsing and the three
      deletions, after the prompt for the path. */
  method OperateCommand(fs: FileSystem, con: Console, user: string, basepath: Path, cmd: string) returns (t: Turn)
    requires fs.Valid() && cmd in PathCommands && cmd !in InspectCommands
    modifies fs, con`answers, con`written
    ensures fs.Valid()
    ensures GuardedSince(old(fs.log), fs.log, user)
    ensures Remaining(old(con.answers), con.answers)
    ensures t.Again? ==> t.basepath == basepath
    ensures t.End? ==> t.end.Exited? && 0 < t.end.code < 256
    ensures old(con.answers) == [] ==> t == End(Exited(ExitCode(NoAnswer)))
    ensures cmd == "interactive ls" ==> fs.nodes == old(fs.nodes) && ReadOnlySuffix(old(fs.log), fs.log)
    ensures cmd == "rm file" ==>
      (t.Again? <==> |old(con.answers)| >= 2 && Guard(basepath + old(con.answers)[0], user)
                     && (old(con.answers)[1] == "y" ==> RmOk(old(fs.nodes), basepath + old(con.answers)[0])))
    ensures cmd == "rm file" && t.Again? ==>
      fs.nodes == if old(con.answers)[1] == "y" then AfterRm(old(fs.nodes), basepath + old(con.answers)[0]) else old(fs.nodes)
    ensures cmd == "rm dir" && t.Again? ==>
      |old(con.answers)| >= 2 && Prompted(old(fs.nodes), basepath + old(con.answers)[0], user)
    ensures cmd == "rm dir" && |old(con.answers)| >= 2 && Prompted(old(fs.nodes), basepath + old(con.answers)[0], user)
            && old(con.answers)[1] != "y" ==>
      t.Again? && fs.nodes == old(fs.nodes)
    ensures cmd == "rm dir" && |old(con.answers)| >= 2 && Prompted(old(fs.nodes), basepath + old(con.answers)[0], user)
            && old(con.answers)[1] == "y" && NoSubdirs(ListingOf(old(fs.nodes), basepath + old(con.answers)[0]).value) ==>
      (t.Again? <==> FilesRemovable(old(fs.nodes), ListingOf(old(fs.nodes), basepath + old(con.answers)[0]).value))
    ensures (cmd == "interactive ls" || cmd == "interactive file rm") && old(con.answers) != []
            && DirsAndFiles(old(fs.nodes), basepath + old(con.answers)[0]).Err? ==>
      t == End(Exited(ExitCode(DirsAndFiles(old(fs.nodes), basepath + old(con.answers)[0]).error)))
    ensures cmd == "rm dir" && (fs.nodes != old(fs.nodes) || |con.answers| + 1 < |old(con.answers)|) ==>
      |old(con.answers)| >= 2 && Prompted(old(fs.nodes), basepath + old(con.answers)[0], user)
  {
    var p := AskPath(con, basepath);
    if p.Err? {
      return End(Exited(ExitCode(p.error)));
    }
    ghost var n := con.answers;
    var failure := Operate(fs, con, user, cmd, p.value);
    RemainingTrans(old(con.answers), n, con.answers);
    if failure.Some? {
      return End(Exited(ExitCode(failure.value)));
    }
    return Again(basepath);
  }

  /** The menu commands of this model that act on a typed path. */
  const PathCommands: seq<string> :=
    ["ls", "interactive ls", "stat", "stat directory", "dir size", "rm file", "interactive file rm", "rm dir", "create file list"]

  /** The path commands that only read, through `Inspect`. */
  const InspectCommands: seq<string> := ["ls", "stat", "stat directory", "dir size", "create file list"]

  /** The read-only commands whose only prompt is the one for the path. */
  const OneAnswerCommands: seq<string> := ["ls", "stat", "stat directory", "dir size"]

  /** The menu commands that never change the remote namespace. */
  const ReadOnlyCommands: seq<string> :=
    ["ls", "stat", "stat directory", "dir size", "create file list", "interactive ls", "change base path"]

  /** What one menu turn from base path `b` does with the operator's answers
      `a0`, leaving `a1`: no pick ends the session as an interrupted prompt,
      `exit` ends it with status 0 and nothing else does, and `stat` on a
      typed path always comes back to the menu after two answers. */
  predicate TurnOutcome(b: Path, a0: seq<string>, a1: seq<string>, t: Turn)
  {
    && Remaining(a0, a1)
    && (a0 == [] ==> t == End(Exited(ExitCode(NoAnswer))))
    && (a0 != [] ==> |a1| < |a0|)
    && (a0 != [] && a0[0] !in Menu ==> t == End(Exited(ExitCode(NoAnswer))))
    && (t == End(Exited(0)) <==> a0 != [] && a0[0] == "exit")
    && (a0 != [] && a0[0] == "exit" ==> a1 == a0[1..])
    && (|a0| >= 2 && a0[0] in OneAnswerCommands ==> a1 == a0[2..])
    && (|a0| >= 2 && a0[0] == "stat" ==> t == Again(b))
  }

  /** The first `|turns|` turns of a session that started from base path `b`
      with answers `a`: turn `i` ran from `bases[i]` on `scripts[i]`, left
      `scripts[i + 1]` and came back to the menu with base path `bases[i + 1]`. */
  predicate SessionSoFar(b: Path, a: seq<string>, bases: seq<Path>, scripts: seq<seq<string>>, turns: seq<Turn>)
  {
    && |bases| == |turns| + 1 && |scripts| == |turns| + 1
    && bases[0] == b && scripts[0] == a
    && forall i | 0 <= i < |turns| ::
         && TurnOutcome(bases[i], scripts[i], scripts[i + 1], turns[i])
         && turns[i] == Again(bases[i + 1])
  }

  /** A whole session: turns that came back to the menu, then one that
      ended it with `end`. */
  predicate Session(b: Path, a: seq<string>, bases: seq<Path>, scripts: seq<seq<string>>, turns: seq<Turn>, end: SessionEnd)
  {
    && |turns| > 0 && |bases| == |turns| && |scripts| == |turns| + 1
    && bases[0] == b && scripts[0] == a
    && (forall i | 0 <= i < |turns| :: TurnOutcome(bases[i], scripts[i], scripts[i + 1], turns[i]))
    && (forall i | 0 <= i < |turns| - 1 :: turns[i] == Again(bases[i + 1]))
    && turns[|turns| - 1] == End(end)
  }

  lemma SessionGrows(b: Path, a: seq<string>, bases: seq<Path>, scripts: seq<seq<string>>, turns: seq<Turn>,
                     a1: seq<string>, next: Path)
    requires SessionSoFar(b, a, bases, scripts, turns)
    requires TurnOutcome(bases[|turns|], scripts[|turns|], a1, Again(next))
    ensures SessionSoFar(b, a, bases + [next], scripts + [a1], turns + [Again(next)])
  {
    var bases', scripts', turns' := bases + [next], scripts + [a1], turns + [Again(next)];
    forall i | 0 <= i < |turns'|
      ensures TurnOutcome(bases'[i], scripts'[i], scripts'[i + 1], turns'[i]) && turns'[i] == Again(bases'[i + 1])
    {
      if i < |turns| {
        assert bases'[i] == bases[i] && bases'[i + 1] == bases[i + 1];
        assert scripts'[i] == scripts[i] && scripts'[i + 1] == scripts[i + 1] && turns'[i] == turns[i];
      }
    }
  }

  lemma SessionCloses(b: Path, a: seq<string>, bases: seq<Path>, scripts: seq<seq<string>>, turns: seq<Turn>,
                      a1: seq<string>, end: SessionEnd)
    requires SessionSoFar(b, a, bases, scripts, turns)
    requires TurnOutcome(bases[|turns|], scripts[|turns|], a1, End(end))
    ensures Session(b, a, bases, scripts + [a1], turns + [End(end)], end)
  {
    var scripts', turns' := scripts + [a1], turns + [End(end)];
    forall i | 0 <= i < |turns'|
      ensures TurnOutcome(bases[i], scripts'[i], scripts'[i + 1], turns'[i])
    {
      if i < |turns| {
        assert scripts'[i] == scripts[i] && scripts'[i + 1] == scripts[i + 1] && turns'[i] == turns[i];
      }
    }
    forall i | 0 <= i < |turns'| - 1 ensures turns'[i] == Again(bases[i + 1]) {
      assert turns'[i] == turns[i];
    }
  }

  /** A session that answers `stat`, a path, then `exit` states the path once
      and ends with status 0 after exactly two turns. */
  lemma StatThenExit(b: Path, p: string, bases: seq<Path>, scripts: seq<seq<string>>, turns: seq<Turn>, end: SessionEnd)
    requires Session(b, ["stat", p, "exit"], bases, scripts, turns, end)
    ensures |turns| == 2 && turns[0] == Again(b) && end == Exited(0)
  {
    var a := ["stat", p, "exit"];
    assert a[0] in OneAnswerCommands;
    assert TurnOutcome(bases[0], scripts[0], scripts[1], turns[0]);
    assert turns[0] == Again(b) && scripts[1] == ["exit"];
    assert |turns| != 1;
    assert TurnOutcome(bases[1], scripts[1], scripts[2], turns[1]);
    assert turns[1] == End(Exited(0));
    assert |turns| == 2;
  }

  /** A whole session from the base path given on the command line. A bad
      base path ends it at once with status 1; otherwise commands run until
      `exit` (status 0), a failure (its status), a prompt without an answer,
      or a command outside this model. Over the whole session every remote
      removal is on a path that holds the user name. */
  method Run(fs: FileSystem, con: Console, user: string, basepath: Path)
    returns (end: SessionEnd, ghost bases: seq<Path>, ghost scripts: seq<seq<string>>, ghost turns: seq<Turn>)
    requires fs.Valid()
    modifies fs, con`answers, con`written
    ensures fs.Valid()
    ensures !BasePathOk(basepath) ==> end == Exited(1) && fs.log == old(fs.log) && con.answers == old(con.answers)
    ensures GuardedSince(old(fs.log), fs.log, user)
    ensures Remaining(old(con.answers), con.answers)
    ensures end.Exited? ==> 0 <= end.code < 256
    ensures BasePathOk(basepath) && old(con.answers) == [] ==>
      end == Exited(ExitCode(NoAnswer)) && fs.log == old(fs.log)
    ensures BasePathOk(basepath) && old(con.answers) != [] ==> |con.answers| < |old(con.answers)|
    ensures BasePathOk(basepath) && old(con.answers) != [] && old(con.answers)[0] == "exit" ==>
      end == Exited(0) && fs.log == old(fs.log) && con.answers == old(con.answers)[1..]
    ensures end == Exited(0) ==> "exit" in old(con.answers)
    ensures BasePathOk(basepath) ==>
      Session(basepath, old(con.answers), bases, scripts, turns, end) && scripts[|turns|] == con.answers
  {
    if !BasePathOk(basepath) {
      return Exited(ExitCode(BadBasePath(basepath))), [], [], [];
    }
    var base := basepath;
    bases, scripts, turns := [basepath], [con.answers], [];
    while true
      invariant fs.Valid()
      invariant GuardedSince(old(fs.log), fs.log, user)
      invariant Remaining(old(con.answers), con.answers)
      invariant con.answers == old(con.answers) ==> fs.log == old(fs.log)
      invariant con.answers != old(con.answers) ==>
        |con.answers| < |old(con.answers)| && old(con.answers)[0] != "exit"
      invariant SessionSoFar(basepath, old(con.answers), bases, scripts, turns)
      invariant bases[|turns|] == base && scripts[|turns|] == con.answers
      decreases |con.answers|
    {
      ghost var answersBefore := con.answers;
      ghost var logBefore := fs.log;
      var t := MenuTurn(fs, con, user, base);
      assert TurnOutcome(base, answersBefore, con.answers, t);
      RemainingTrans(old(con.answers), answersBefore, con.answers);
      GuardedTrans(old(fs.log), logBefore, fs.log, user);
      if t.End? {
        if t.end == Exited(0) {
          assert old(con.answers)[|old(con.answers)| - |answersBefore|] == answersBefore[0];
        }
        SessionCloses(basepath, old(con.answers), bases, scripts, turns, con.answers, t.end);
        return t.end, bases, scripts + [con.answers], turns + [t];
      }
      SessionGrows(basepath, old(con.answers), bases, scripts, turns, con.answers, t.basepath);
      bases, scripts, turns := bases + [t.basepath], scripts + [con.answers], turns + [t];
      base := t.basepath;
    }
  }

  /** One turn of the menu loop: the pick from the menu (none, or anything
      not on it, ends the session as an interrupted prompt), then the
      command. */
  method MenuTurn(fs: FileSystem, con: Console, user: string, basepath: Path) returns (t: Turn)
    requires fs.Valid()
    modifies fs, con`answers, con`written
    ensures fs.Valid()
    ensures GuardedSince(old(fs.log), fs.log, user)
    ensures Remaining(old(con.answers), con.answers)
    ensures t.End? && t.end.Exited? ==> 0 <= t.end.code < 256
    ensures old(con.answers) == [] ==> t == End(Exited(ExitCode(NoAnswer))) && fs.log == old(fs.log)
    ensures old(con.answers) != [] ==> |con.answers| < |old(con.answers)|
    ensures old(con.answers) != [] && old(con.answers)[0] !in Menu ==>
      t == End(Exited(ExitCode(NoAnswer))) && fs.log == old(fs.log)
    ensures old(con.answers) != [] && old(con.answers)[0] == "exit" ==>
      t == End(Exited(0)) && fs.log == old(fs.log) && con.answers == old(con.answers)[1..]
    ensures t == End(Exited(0)) <==> old(con.answers) != [] && old(con.answers)[0] == "exit"
    ensures |old(con.answers)| >= 2 && old(con.answers)[0] in OneAnswerCommands ==>
      con.answers == old(con.answers)[2..]
    ensures |old(con.answers)| >= 2 && old(con.answers)[0] == "stat" ==> t == Again(basepath)
  {
    var cmd := con.Select(Menu);
    if cmd.None? {
      return End(Exited(ExitCode(NoAnswer)));
    }
    ghost var answersMid := con.answers;
    assert Remaining(old(con.answers), answersMid);
    t := Command(fs, con, user, basepath, cmd.value);
    assert Remaining(answersMid, con.answers);
    RemainingTrans(old(con.answers), answersMid, con.answers);
    if |old(con.answers)| >= 2 && cmd.value in OneAnswerCommands {
      assert answersMid[1..] == old(con.answers)[2..];
    }
  }
}
