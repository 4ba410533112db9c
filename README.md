# xrd-interactive, modelled in Dafny

xrd-interactive is a small interactive shell over the XRootD Python
bindings. Its operator lists, states, sizes, exports and deletes files and
directories on a remote storage element. This project models the decision
logic of that shell and proves what it promises:

- how a `(flags, size)` stat record is classified as a directory, a file or
  a failure;
- how a `dirlist` answer becomes the ordered path → 0/1 dictionary, and how
  the files and the directories are split from it;
- the recursive directory size of `stat_dir(get_size=True)` and `dir_size`;
- the `(dir)` / `(dir) [TO BE REVIEWED…]` / `(file)` labels of `ls`;
- ownership-guarded deletion: `del_file`, and the bottom-up recursive
  `del_dir` with its prompt at every level;
- the file list written by `create_file_list`: its name, its lines after the
  exclusion filter, and its directory warning;
- the two navigation loops (`interactive ls`, `interactive file rm`): the
  choices, the `..` parent computed with `split('/')` and `'/'.join`, the
  separator no-ops, and `choices.remove` after a deletion;
- the base-path check at start-up and on `change base path`, and the main
  menu loop.

The remote end is a class `Remote.FileSystem`. It holds a map from path to
node (flags, size, and for a directory its children in listing order) and a
ghost log of every `stat`, `dirlist`, `rm` and `rmdir` call made. A non-ok
status, a failing `assert` and `exit(...)` become the `Err` alternatives of
`Failures.Result`. `Failures.ExitCode` maps them to the process status:
`exit(-1)` gives 255 and `exit('message')` gives 1. The operator's answers to
`input(...)` and to the `questionary` prompts come from `Terminal.Console`,
a queue of pre-set strings.

Modules, one file each:

| file | module | models |
|---|---|---|
| wrappers.dfy | Wrappers | `Option` |
| paths.dfy | Paths | Python's `in` on strings, `split('/')`, `'/'.join`, the `..` parent |
| remote.dfy | Remote | the remote namespace and its four calls |
| failures.dfy | Failures | error outcomes and exit codes |
| terminal.dfy | Terminal | the operator's answers and the written local files |
| classifier.dfy | Classifier | the flags table and the `ls` label rule |
| walker.dfy | Walker | `_exists`, `_check_file_or_directory`, `_get_directory_listing`, `_get_file_list`, `_get_dir_list`, `stat`, `ls`, `interactive_ls` |
| sizes.dfy | Sizes | `stat_dir` and `dir_size` |
| deletion.dfy | Deletion | `del_file` and `del_dir` |
| export.dfy | Export | `create_file_list` |
| navigator.dfy | Navigation | the two navigation loops |
| shell.dfy | Shell | the base-path check, `change base path` and the menu loop |

## Model

| member | source | states |
|---|---|---|
| Paths.ContainsIff | xrootd_utils.py:517 | Python's `sub in s` holds exactly when `sub` occurs in `s` at some index |
| Paths.ContainsExtend | xrootd_utils.py:563 | a substring of a path is a substring of every path extending it, so the user-name guard carries over to the paths below a directory |
| Paths.Split | xrootd_interactive.py:130 | `split('/')` yields at least one part, and no part contains '/' |
| Paths.JoinSplit | xrootd_interactive.py:130 | `'/'.join(s.split('/')) == s` for every string |
| Paths.SplitAppend | xrootd_interactive.py:130 | splitting `a + "/" + b` gives the parts of `a` followed by the parts of `b` |
| Paths.SplitJoin | xrootd_interactive.py:130 | splitting the join of '/'-free segments gives the segments back |
| Paths.UpOfChild | xrootd_interactive.py:129-134 | `..` from `p/a/b` goes to `p`; for a directory path `p/a/` it drops the last segment and the trailing '/' |
| Paths.UpOfShortPaths | xrootd_interactive.py:130 | `..` on "", "/" and any '/'-free path yields "" and does not fail |
| Paths.UpTwiceSkipsALevel | xrootd_interactive.py:133 | `..` leaves no trailing '/', so two `..` in a row from `q/a/b/c/` go to `q/a/b` and then to `q`, skipping `q/a` |
| Remote.StatOf | xrootd_utils.py:81-87 | `stat` gives a record exactly when the path exists |
| Remote.ListingOf | xrootd_utils.py:194-198 | `dirlist` succeeds exactly on a directory; the parent ends in '/', entry i names the directory's i-th child, which exists, names are distinct, and there is one entry per child |
| Remote.UnderShrinks | xrootd_utils.py:356 | the paths below a child are a strict subset of those below its parent, even after removals, so the recursions of `stat_dir` and `del_dir` end |
| Remote.Without | xrootd_utils.py:592 | dropping a name from a directory's children keeps exactly the other names, and keeps them distinct |
| Remote.WithoutAbsent | xrootd_utils.py:592 | dropping a name that is not among the children changes nothing |
| Remote.WithoutHead | xrootd_utils.py:592 | dropping the first of distinct children leaves exactly the rest, in order, so removing a directory's entries front to back empties it |
| Remote.Unlink | xrootd_utils.py:528 | removing a node deletes exactly its key; every other node keeps its flags, size and kind; only the parent directory changes, and it loses exactly that child's name |
| Remote.UnlinkWellFormed | xrootd_utils.py:592 | removing a file or an empty directory keeps every listed child present |
| Remote.FileSystem.Stat | xrootd_utils.py:81 | logs one `stat`, changes nothing, returns the path's record |
| Remote.FileSystem.DirList | xrootd_utils.py:194 | logs one `dirlist`, changes nothing, returns the directory's listing |
| Remote.FileSystem.Rm | xrootd_utils.py:528 | logs one `rm`; succeeds exactly on an existing file, which it removes; otherwise changes nothing |
| Remote.FileSystem.Rmdir | xrootd_utils.py:592 | logs one `rmdir`; succeeds exactly on an empty directory, which it removes; otherwise changes nothing |
| Failures.ExitCode | xrootd_utils.py:521 | every failure exits with a status in 1..255; 255 (`exit(-1)`) exactly for the permission check |
| Terminal.Console.Input | xrootd_utils.py:527 | `input()` consumes the first answer; with no answer left there is none |
| Terminal.Console.Select | xrootd_interactive.py:119-121 | a selection consumes the first answer and yields it only when it is one of the choices |
| Terminal.Console.Write | xrootd_utils.py:699-706 | writing a file replaces that file's lines and touches no other file |
| Classifier.Classify | xrootd_utils.py:126-134 | flags 51/19 with size 512 give a directory; 51/19 with another size fail; 48/16 give a file whatever the size; any other flags fail; each case in both directions |
| Classifier.ClassifyDomain | xrootd_utils.py:209-217 | classification succeeds exactly on those inputs, and the size matters only for directory flags |
| Classifier.LsLabel | xrootd_utils.py:415-422 | `(file)` exactly when the size is not 512; `(dir)` exactly for size 512 without '.' in the name; the review label exactly for size 512 with '.' |
| Classifier.LabelAndKindDisagreeOn512ByteFile | xrootd_utils.py:415-416 | a 512-byte file with flags 16 is classified a file but labelled `(dir)` by `ls` |
| Walker.DictSpecMeaning | xrootd_utils.py:209-218 | the dictionary exists exactly when every entry classifies; it then has one item per entry in listing order, `parent+name+"/"` → 1 for a directory and `parent+name` → 0 for a file; a failure is the first entry that does not classify |
| Walker.DictErrorSticks | xrootd_utils.py:215-217 | once an entry aborts, the entries after it do not matter |
| Walker.DictOf | xrootd_utils.py:200-218 | the filling loop yields exactly the dictionary of the listing |
| Walker.AppendDistinct | xrootd_utils.py:212-214 | two keys built from one parent and different names differ |
| Walker.ListingKeysDistinct | xrootd_utils.py:212-214 | the keys of a real listing are pairwise distinct, so the sequence behaves like the Python dict |
| Walker.GetDirectoryListing | xrootd_utils.py:192-218 | one `dirlist`, nothing changed; a failed `dirlist` or an unknown flag aborts, otherwise the dictionary and the listing |
| Walker.KeysWithAppend | xrootd_utils.py:235 | selecting keys by value commutes with concatenation, so it keeps the dictionary's order |
| Walker.KeysWithMember | xrootd_utils.py:252 | a key is selected for value v exactly when the dictionary holds that key with v |
| Walker.FilesAndDirsPartition | xrootd_utils.py:235 | for a 0/1 dictionary the files and the directories together are exactly its keys (as multisets and by count) |
| Walker.FilesAndDirsDisjoint | xrootd_utils.py:252 | with distinct keys no key is both a file and a directory |
| Walker.InteractiveLs | xrootd_utils.py:429-433 | one `dirlist`, nothing changed; returns the directories and the files of the listing's dictionary |
| Walker.Exists | xrootd_utils.py:67-87 | one `stat`; true exactly when the path exists |
| Walker.CheckFileOrDirectory | xrootd_utils.py:116-134 | two `stat` calls; a missing path fails, otherwise the classification of its record |
| Walker.ShowStat | xrootd_utils.py:293-300 | two `stat` calls, nothing changed; the record when the path exists, none otherwise |
| Walker.LsLinesMeaning | xrootd_utils.py:413-425 | every entry gets one line with its label, in order; a size-512 entry with '.' in its name and no directory flags aborts, and the failure is the first such entry |
| Walker.Ls | xrootd_utils.py:405-425 | a file path is echoed once (after its two `stat` calls); a directory is listed with a `dirlist`; nothing changes, and the log grows by exactly those calls |
| Sizes.SumEntriesStep | xrootd_utils.py:353-358 | one more entry adds its size, or the recursive size of a size-512 entry, to the running sum |
| Sizes.SumErrorSticks | xrootd_utils.py:355 | the first failing entry ends the sum |
| Sizes.StatDir | xrootd_utils.py:331-359 | the first call is the `dirlist`; it fails when the directory cannot be listed; otherwise the recursive size when `get_size` is set and 0 otherwise; no call changes the namespace |
| Sizes.SizeLoop | xrootd_utils.py:352-358 | the summing loop yields exactly the sum of the listing's entries, each size-512 entry by its recursive size |
| Sizes.DirSize | xrootd_utils.py:378-383 | `dir_size` returns the recursive size; it starts with a `dirlist` and changes nothing |
| Sizes.SizeOfTree | xrootd_utils.py:352-358 | on a namespace where directories alone have size 512 and directory flags, the recursive size is the sum of all file sizes below |
| Sizes.EntriesSum | xrootd_utils.py:353-358 | the sum over a directory's entries is the sum over its children's trees |
| Sizes.BadEntryAborts | xrootd_utils.py:354-355 | a size-512 entry without directory flags makes the size fail |
| Sizes.SampleTreeSize | xrootd_utils.py:352-358 | `/a` holding a 100-byte file and a sub-directory with a 200-byte file has size 300 |
| Sizes.FileOf512BytesAborts | xrootd_utils.py:354-355 | a directory holding a 512-byte file with flags 16 makes the size fail |
| Deletion.DelFile | xrootd_utils.py:513-543 | a path without the user name fails before any call; without `ask` one `rm`; with `ask` two `stat` calls and a prompt, then one `rm` on "y" and none otherwise; a failed `rm` is a failure |
| Deletion.GuardCoversWithin | xrootd_utils.py:585-587 | a path below a directory that holds the user name holds it too |
| Deletion.GuardsOfCalls | xrootd_utils.py:563-587 | every call that stays below a guarded directory is on a path holding the user name |
| Deletion.Survey | xrootd_utils.py:569-577 | one `dirlist` and the `ls` of the directory; nothing changes; succeeds exactly when both do |
| Deletion.DelEntry | xrootd_utils.py:582-587 | case by case: a size-512 entry without directory flags fails with nothing changed; any other entry is refused by the guard with nothing changed, else a plain file gets exactly one `rm` (no prompt) and succeeds exactly when that `rm` does, which removes it, while a size-512 directory starts a `dirlist`, fails with nothing changed when that `dirlist` or its `ls` fails, and is otherwise prompted for: no answer fails, a decline keeps the namespace and uses one answer, and "y" with success leaves neither the entry nor anything below it; only paths below the parent are touched |
| Deletion.RemoveEntries | xrootd_utils.py:580-587 | the loop over the entries removes only paths below the listing's parent; when it completes, every plain file entry is gone and every size-512 entry had directory flags; for a listing without sub-directories it uses no answer and completes exactly when every entry passed the guard and was a removable file, each removed in turn |
| Deletion.FlatStep | xrootd_utils.py:580-587 | one turn over a listing of plain files: removing entry `i` drops exactly its path, leaves the later entries untouched and shortens the directory's children by that first name |
| Deletion.FlatRmdir | xrootd_utils.py:592 | after every plain file entry is removed, `rmdir` succeeds exactly when nothing but those entries was below the directory |
| Deletion.EntriesGuarded | xrootd_utils.py:563-587 | every entry path of a guarded directory holds the user name, so the guard of `del_file` never refuses inside `del_dir` |
| Deletion.RemoveListed | xrootd_utils.py:580-597 | the loop, then `rmdir(directory)` only when the loop completed; success ends with that `rmdir`, issued once; for a listing without sub-directories it succeeds exactly when every entry is a removable file and nothing else is below the directory |
| Deletion.Confirm | xrootd_utils.py:579-599 | the per-level prompt: no answer fails with nothing changed; a decline is exactly an answer other than "y" and changes nothing; "y" followed by success ends with the single `rmdir` of the directory and leaves no entry of the listing and nothing below the directory; for a listing without sub-directories, "y" succeeds exactly when every entry is a removable file and nothing else is below the directory |
| Deletion.DelDir | xrootd_utils.py:546-599 | the guard comes before the `dirlist`; when the guard passes but the `dirlist` or the `ls` of the directory fails it fails with the namespace and the answers unchanged and only reading calls made; every call stays at or below the directory and holds the user name; it prompts at every level whatever `ask` is; no answer or a decline removes nothing, and a decline is exactly a prompted answer other than "y"; a success follows "y", ends with the one `rmdir` of the directory, and leaves no listing entry, no path below the directory and not the directory itself; for a directory without sub-directories "y" uses exactly one answer and succeeds exactly when every entry is a removable file and nothing else is below the directory |
| Export.ReplaceSlashes | xrootd_utils.py:696 | `replace('/', '_')` keeps the length and maps each '/' to '_' and every other character to itself |
| Export.OutputNameIsLocal | xrootd_utils.py:696-697 | the output name holds no '/' and is 8 characters longer than the directory |
| Export.OutputNamesCollide | xrootd_utils.py:696-697 | `/a/b` and `/a_b` are written to the same file `list_a_b.txt` |
| Export.KeptAppend | xrootd_utils.py:700-703 | the exclusion filter keeps the dictionary's order |
| Export.KeptMember | xrootd_utils.py:700-703 | an item is written exactly when it is in the dictionary and its key does not contain a non-empty `exclude` |
| Export.KeptEmptyExclude | xrootd_utils.py:701 | an empty `exclude` filters nothing |
| Export.LogFilterMatches | xrootd_utils.py:701 | ".log" excludes "/d/x.log" and also "/d/x.log.txt" |
| Export.LogFilterMisses | xrootd_utils.py:701 | ".log" keeps "/d/x.txt" |
| Export.ExcludeExample | xrootd_utils.py:700-706 | of those three keys only "/d/x.txt" is written |
| Export.ExportLines | xrootd_utils.py:698-708 | the lines are the kept keys each followed by a newline; the warning is set exactly when a kept entry is a directory |
| Export.CreateFileList | xrootd_utils.py:694-711 | one `dirlist`, nothing changed; on success the file `list<dir>.txt` holds exactly the kept lines and no other file changes; on failure nothing is written |
| Navigation.HeadersAreIgnored | xrootd_interactive.py:115-124 | the choices start with `exit` and `..`, and both separators contain "------", so selecting one is a no-op |
| Navigation.ExitIsNoHeader | xrootd_interactive.py:122-125 | `exit` holds no "------", so picking it is not skipped as a separator |
| Navigation.RemoveFirst | xrootd_interactive.py:198 | `choices.remove(x)` drops exactly one occurrence of `x` |
| Navigation.FirstIndex | xrootd_interactive.py:198 | the index of the first occurrence: it holds `x` and nothing before it does |
| Navigation.RemoveFirstIsFirstOccurrence | xrootd_interactive.py:198 | `choices.remove(x)` is the choices before the first occurrence of `x` followed by those after it |
| Navigation.RemoveFirstAppend | xrootd_interactive.py:198 | removing an element that occurs only further on leaves the prefix alone |
| Navigation.RemoveFileFromChoices | xrootd_interactive.py:171-198 | removing a deleted file from the choices gives the choices of the same listing without that file |
| Navigation.FileKeyOfEntry | xrootd_utils.py:214 | every file of the dictionary is the parent followed by an entry's name |
| Navigation.ListingPathsAreNotLabels | xrootd_interactive.py:171-172 | a file of a real listing is no menu label, no separator and no directory, so removing it keeps the choices in shape |
| Navigation.Navigator.constructor | xrootd_interactive.py:113-116 | the loop starts in the typed directory with the given choices |
| Navigation.Navigator.GoUp | xrootd_interactive.py:129-134 | `..` lists the parent; on success it moves there and offers that listing's choices; on failure nothing changes |
| Navigation.Navigator.Open | xrootd_interactive.py:127-140 | the selection becomes the current directory before it is classified; a missing or unclassifiable path fails with nothing changed; a directory is listed and, on success, its choices offered, on failure the choices kept; a file is stated and the choices kept (browsing) or deleted as `DeleteChoice` states (deleting) |
| Navigation.Navigator.DeleteChoice | xrootd_interactive.py:196-198 | by the cases of `del_file(ask=True)`: a refused guard or no answer fails with the namespace and the choices kept; a declined prompt keeps the namespace and drops the file from the choices; "y" removes the file exactly when `rm` succeeds, and then drops it from the choices, while a failed `rm` fails and keeps them |
| Navigation.Navigator.Step | xrootd_interactive.py:122-140 | a separator changes nothing; `exit` leaves and changes nothing; `..` lists the parent and moves there with its choices, or stays on failure, as `GoUp` states; anything else starts with a `stat` of it and has the outcome `Open` states; every namespace change is an `rm` of the deleting loop on the selection, which holds the user name |
| Navigation.Navigator.Prompt | xrootd_interactive.py:118-140 | one prompt, as `Turned` states: no answer, or one not offered, fails with the no-answer error and nothing changed but that answer used; an offered separator re-prompts and `exit` leaves, both changing nothing; `..` goes up as `WentUp` states; any other choice becomes the current directory and is opened as `Opened` states; `exit`, when offered, makes no call; only guarded `rm` calls of the deleting loop change the namespace |
| Navigation.UpIsNoHeader | xrootd_interactive.py:123-129 | `..` holds no "------", so picking it is not skipped as a separator |
| Navigation.TrailGrows | xrootd_interactive.py:117-140 | a turn that asks for another prompt extends the trail by one view and one outcome |
| Navigation.TrailCloses | xrootd_interactive.py:117-140 | a turn that leaves or fails completes the trail with that outcome last |
| Navigation.UpThenExit | xrootd_interactive.py:117-134 | the answers `..`, `exit` from a directory whose parent lists make exactly two turns: the first moves to the parent and offers its choices, the second leaves without failure and with the namespace unchanged |
| Navigation.Navigator.Loop | xrootd_interactive.py:117-140 | prompt after prompt: the ghost trail of views and outcomes is a `Trail`, so every turn is the `Turned` outcome of one prompt on the view the turn before left, every turn but the last asks for another prompt, and the last leaves on `exit` or fails, giving the loop's result; with no answer the loop fails with the no-answer error and no call; a first answer `exit`, when offered, ends it at once with no call, one answer used and no failure; it ends without failure only after `exit` was answered; only guarded `rm` calls of the deleting loop change the namespace |
| Navigation.Navigate | xrootd_interactive.py:109-198 | both loops start with a `dirlist` of the typed directory, and fail with its error when it fails; otherwise the loop runs from the typed directory with the choices of that listing as a `Trail` of turns ending in its result; no answer fails with the no-answer error, a first answer `exit` ends without failure after that one `dirlist`, and ending without failure requires `exit` among the answers; browsing never changes the namespace; deleting changes it only by `rm` calls on paths holding the user name |
| Navigation.Explore | xrootd_interactive.py:113-117 | the loop from the typed directory with the choices `exit`, `..`, the separator, the directories, the separator and the files: a `Trail` starting from that view, with the loop's first-answer cases |
| Shell.BasePathExamples | xrootd_interactive.py:65-66 | at start-up the empty base path and `/store/user/` pass the check; `/store/user` and `store/user/` do not |
| Shell.ChangeBasePath | xrootd_interactive.py:273-280 | an empty answer (whose `basepath[0]` fails in the source) or one that does not begin and end with '/' is refused with no remote call; otherwise the path is accepted exactly when a `dirlist` of it succeeds |
| Shell.AskPath | xrootd_interactive.py:103-106 | the typed path is prefixed with the base path |
| Shell.Inspect | xrootd_interactive.py:101-270 | `ls`, `stat`, `stat directory`, `dir size` and `create file list` change nothing and issue only non-mutating calls; each fails exactly when the operation it calls fails, with that operation's error; `create file list` reads one more answer and fails without it |
| Shell.Operate | xrootd_interactive.py:157-205 | `rm file`, `interactive file rm` and `rm dir` only remove paths holding the user name; `interactive ls` changes nothing; a navigation loop whose start cannot be listed fails with that error; `rm file` has the four outcomes of `del_file(ask=True)`; `rm dir` is refused by the guard, fails with nothing changed when its `dirlist` or `ls` fails, changes the namespace or reads the confirmation only once the directory was listed and shown, fails without an answer, changes nothing on a decline, on success after "y" leaves neither the directory nor anything below it, and for a directory without sub-directories succeeds after "y" exactly when every entry is a removable file and nothing else is below it |
| Shell.Command | xrootd_interactive.py:97-281 | status 0 exactly for `exit`, which makes no call and uses no answer; every exit status is in 0..255; a command outside the model ends as such exactly when it is not modelled; the base path changes only on `change base path`, which is accepted exactly for a non-empty answer beginning and ending with '/' that lists; a path command without an answer exits with the no-answer status; for each of `ls`, `stat`, `stat directory`, `dir size`, `create file list` and `rm file` the loop goes on exactly when the operation on the base path plus the answer succeeds, and the first four use exactly one answer; `rm dir` changes the namespace or reads more than the path only when the directory was listed and shown (so a path that cannot be listed ends the session with nothing changed), goes on after a decline without a change, and for a directory without sub-directories goes on after "y" exactly when every entry is a removable file and nothing else is below it; the read-only commands change nothing; every removal holds the user name |
| Shell.MenuTurn | xrootd_interactive.py:73-99 | one menu turn: no answer or one off the menu ends with the no-answer status; `exit` ends with status 0, no call and one answer used; status 0 exactly when the first answer is `exit`; `ls`, `stat`, `stat directory` and `dir size` with a path use exactly two answers, and `stat` always comes back to the menu with the same base path; any turn with an answer uses at least one |
| Shell.Run | xrootd_interactive.py:63-99 | a bad base path exits with 1 before any call; otherwise the session is a sequence of turns, each with the outcome `TurnOutcome` states on the answers left by the one before, every one but the last coming back to the menu with its base path, and the last ending the session; with no answer it ends with the no-answer status and no call; a first answer `exit` ends with 0, no call and one answer used; status 0 only if `exit` was answered; over the whole session every `rm`/`rmdir` is on a path holding the user name, and the exit status is in 0..255 |
| Shell.SessionGrows | xrootd_interactive.py:73-99 | a turn that comes back to the menu extends the session by one turn, starting from the answers and the base path it left |
| Shell.SessionCloses | xrootd_interactive.py:73-99 | a turn that ends the session completes it, with that turn's end as the session's end |
| Shell.StatThenExit | xrootd_interactive.py:94-148 | the answers `stat`, a path, `exit` make a session of exactly two turns: `stat` comes back to the menu with the same base path, and `exit` then ends it with status 0 |

## Left out

- XRootD client internals, the wire protocol and the flag enums: the remote end is the abstract namespace. Its rules are modelled assumptions:
  - a path is looked up without one trailing '/';
  - `listing.parent` is the directory followed by '/';
  - `dirlist` on a file fails;
  - `stat` and `dirlist` report the same flags for a node;
  - `rmdir` succeeds only on a directory with nothing below it.
- `ping`/`_check_redirector`, `locate`, `copy_file_to_remote`, `copy_file_from_remote`, `mv` and `mkdir`: each is a single pass-through remote call with no local logic. In the menu, `mv`, `mkdir`, `copy file to`, `copy file from`, `change redirector` and `help` end the modelled session with `OutOfModel`.
- Redirector selection, `argparse` and the help text: these are user-interface glue. The redirector plays no part in the namespace.
- Logging, `print`, the display in `stat`, and the `show_output` printing in `stat_dir` and `ls`: output only, and not modelled.
- The GiB figure of `dir_size`: a floating-point display value.
- The local file write of `create_file_list`: modelled as `Terminal.Console.written`, a map from file name to lines.
- `questionary` and `input()`: modelled as a queue of answers. A cancelled prompt, or an answer that is not one of the offered choices, is modelled as `NoAnswer`. The source crashes there.
- Deprecated and commented-out code (`_is_file`, the file-level `stat`): not modelled.
- Python dicts are modelled as sequences of items. The keys of a real listing are proved distinct (`Walker.ListingKeysDistinct`), so the two agree.
- Deletion.DelDir: after a failure that follows the answer "y", the contract bounds what was removed (only paths at or below the directory, every call guarded) but does not state that `rmdir(directory)` was left out.
- Deletion.RemoveEntries: that a size-512 entry is gone after the loop completes is not stated, because a declined nested prompt lets the loop go on with that directory kept; `Deletion.DelEntry` states it per entry.
- Deletion.DelDir: with nested directories the number of answers used is not stated, because it depends on the answers to the nested prompts.
- Shell.Inspect: does not restate the values each command computes. Those are stated by `Walker.Ls`, `Walker.ShowStat`, `Sizes.StatDir`, `Sizes.DirSize` and `Export.CreateFileList`.
- Deletion.DelDir: success after "y" is stated in both directions only for a directory whose listing has no 512-byte entry. With sub-directories it depends on the answer to every nested prompt, and only its consequences are stated.
- Shell.Operate: for `rm dir` with sub-directories, success after "y" is stated in one direction only, as for `Deletion.DelDir`. For `interactive ls` / `interactive file rm` it states the first listing's failure, the loop's guard and its frame; the turn-by-turn trail is stated by `Navigation.Navigate` and not lifted to this command.
- Shell.Command: for `rm dir` with sub-directories, going on after "y" is stated in one direction only. It depends on the nested prompts.
