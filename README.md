# create_structure.py, modelled in Dafny

`create_structure.py` scaffolds the "Todo Smart" project. It makes a root
directory. It writes 45 placeholder files from a fixed table of paths and
texts (`build_structure`), counting how many it created and how many it
skipped because they already existed. Then it adds six extra directories,
each with an empty `.gitkeep` marker (`ensure_empty_dirs`). A file that
already exists is only rewritten when `--overwrite` is given.

The project models that behaviour on an abstract directory tree:

- `paths.dfy` (module `Paths`): paths as sequences of names. `[]` is the
  filesystem root, the root is its own parent, and ancestors are prefixes.
- `fsmodel.dfy` (module `FsModel`): the tree as a value (`Disk`: a map from
  file paths to texts and a set of directories). `ensure_dir` and
  `write_file` are functions on it, including the three exceptions pathlib
  raises and the script never catches.
- `bulk.dfy` (module `Bulk`): the counting loop of `main` (`Materialize`)
  and `ensure_empty_dirs`, each defined entry by entry, with their frame,
  count, success and re-run lemmas.
- `structure.dfy` (module `Structure`): the table of `build_structure`,
  grouped by directory, and the extra directories. It proves that the table
  has 45 distinct paths, each strictly under the root, none an ancestor of
  another.
- `script.dfy` (module `Script`): `main` after argument parsing. It covers
  the counts it reports, a run on an empty filesystem, and idempotence of a
  second run.
- `filesystem.dfy` (module `Filesystem`): the same operations as methods of a
  `FileSystem` object whose `files` and `dirs` fields change in place. The
  loops carry invariants that tie each method's final state and results to
  the functions above. Its constructor gives the starting point of
  `Script.FreshRun` and `Script.RunFresh`: a filesystem holding only the root
  directory "/". The script itself never makes one.

About the counters: the comment at `create_structure.py:661` says
overwritten files are counted, but the code does not count them. With
`--overwrite`, a file that already existed lands in neither `created` nor
`skipped`. The model follows the code (`Bulk.OverwrittenIsUncounted`,
`Script.MainCounts`).

## Model

| member | source | states |
|---|---|---|
| Paths.Parent | create_structure.py:23 | `path.parent` is a prefix one name shorter, and the root is its own parent |
| Paths.Child | create_structure.py:640 | `d / name` has `d` as its parent and `name` as its last component |
| Paths.Prefixes | create_structure.py:19-20 | the directories `mkdir(parents=True)` needs are exactly the prefixes of the path |
| FsModel.Exists | create_structure.py:24 | `path.exists()` holds for a file and for a directory alike. It is the test both `write_file` and the loop of `main` make |
| FsModel.EnsureDir | create_structure.py:19-20 | `ensure_dir` succeeds exactly when no file lies on the path. It raises FileExists when the path itself is a file and NotADirectory when a file lies higher up. On success it leaves files alone and makes the directories the old ones plus every prefix of the path |
| FsModel.EnsureDirIdempotent | create_structure.py:19-20 | `exist_ok=True`: `ensure_dir` on an existing directory of a valid tree changes nothing |
| FsModel.EnsureDirPreservesValid | create_structure.py:19-20 | a successful `ensure_dir` keeps the tree valid: root present, files and directories disjoint, every parent a directory |
| FsModel.AncestorsAreDirs | create_structure.py:19-20 | in a valid tree every strict ancestor of an existing path is a directory |
| FsModel.WriteFile | create_structure.py:22-26 | after a successful `write_file` the path exists and each of its ancestors is a directory. No directory or file disappears, no other file changes, and the only new directories are ancestors of the path. It raises IsADirectory exactly when the parent could be made, `overwrite` is on and the path is a directory; otherwise the exception is that of `ensure_dir(path.parent)` |
| FsModel.WriteFileFailsCleanly | create_structure.py:22-26 | in a valid tree a raising `write_file` has made nothing: `ensure_dir(path.parent)` either raised or was a no-op, since IsADirectory comes only from a path that is already a directory |
| FsModel.WriteFilePreservesValid | create_structure.py:22-26 | a successful `write_file` keeps the tree valid |
| FsModel.WriteFileKeepsExisting | create_structure.py:24-25 | with `overwrite` off, writing an existing path changes nothing at all |
| FsModel.WriteFileStores | create_structure.py:26 | when the path was absent or `overwrite` is on, a successful write leaves it a file holding exactly the content |
| FsModel.WriteFileFails | create_structure.py:22-26 | in a valid tree `write_file` raises exactly when a file lies on the way to the path, or when the path is a directory and `overwrite` is on |
| Bulk.Step | create_structure.py:658-665 | one iteration: at most one counter grows, by one. After a successful write `created` grows exactly when the path was absent, and `skipped` exactly when it was present and `overwrite` is off. After an exception neither counter changes |
| Bulk.Materialize | create_structure.py:656-665 | each entry lands in at most one counter. With `overwrite` on nothing is skipped. With it off, a completed loop counts every entry exactly once |
| Bulk.CountAbsent | create_structure.py:658 | the number of manifest paths for which `path.exists()` is false is at most the manifest's length |
| Bulk.MaterializeCounts | create_structure.py:656-665 | for distinct paths none of which is an ancestor of another, `created` is the number absent before the loop. `skipped` is the number present, or 0 with `overwrite` on |
| Bulk.OverwrittenIsUncounted | create_structure.py:661-665 | an existing file overwritten with `--overwrite` is rewritten and counted neither as created nor as skipped |
| Bulk.MaterializeFrame | create_structure.py:657-660 | the loop removes nothing and changes no file outside the manifest. Every directory it adds is an ancestor of a manifest path |
| Bulk.ExistsUntouched | create_structure.py:657-660 | a path neither in the manifest nor an ancestor of a manifest path exists afterwards exactly when it existed before |
| Bulk.MaterializeValid | create_structure.py:657-660 | the loop keeps a valid tree valid |
| Bulk.NoOverwriteKeepsFiles | create_structure.py:24-25 | without `--overwrite`, every pre-existing file keeps its content |
| Bulk.MaterializeStores | create_structure.py:657-660 | after a completed loop, every absent path, or every path with `overwrite` on, holds exactly its manifest content |
| Bulk.AllExistAfter | create_structure.py:657-660 | after a completed loop every manifest path exists |
| Bulk.MaterializeSucceeds | create_structure.py:657-660 | the loop completes when no file lies on the way to a manifest path and, with `overwrite` on, no manifest path is a directory |
| Bulk.CountAbsentSame | create_structure.py:658 | the absent count depends only on which manifest paths exist |
| Bulk.CountAbsentAll | create_structure.py:658 | when no manifest path exists, all of them are absent |
| Bulk.RerunIsNoop | create_structure.py:656-665 | without `--overwrite`, a manifest whose paths all exist leaves the tree unchanged, creates 0 and skips all |
| Bulk.SecondRunIdempotent | create_structure.py:656-665 | a second loop without `--overwrite` after a completed first loop changes nothing, creates 0 and skips every entry |
| Bulk.EnsureEmptyDirs | create_structure.py:628-640 | a completed `ensure_empty_dirs` keeps every directory and every existing file's content. Each extra directory then exists with a marker in it. Every new file is an empty marker, and every new directory is an extra directory or one of its ancestors |
| Bulk.MarkDir | create_structure.py:638-640 | one iteration of `ensure_empty_dirs` keeps every directory and file. It leaves the directory existing with a marker in it, and adds nothing but that marker and ancestors of the directory |
| Bulk.EnsureDirBeforeWriteIsRedundant | create_structure.py:639-640 | the `ensure_dir(d)` before `write_file(d / ".gitkeep", "")` changes nothing that `write_file` would not |
| Bulk.EnsureEmptyDirsPreservesValid | create_structure.py:628-640 | `ensure_empty_dirs` keeps a valid tree valid |
| Bulk.EnsureEmptyDirsSucceeds | create_structure.py:628-640 | `ensure_empty_dirs` completes when no file and no marker lies on the way to an extra directory |
| Bulk.EnsureEmptyDirsRerun | create_structure.py:628-640 | once the extra directories and markers exist, `ensure_empty_dirs` changes nothing (markers are never overwritten) |
| Structure.Layout | create_structure.py:563-626 | the table of `build_structure` has 19 directories, holding 1, 2, 6, 6, 4, 2, 1, 4, 2, 1, 2, 2, 2, 5, 1, 1, 1, 1 and 1 files in the order the source lists them |
| Structure.BuildStructure | create_structure.py:563-626 | `build_structure(root)` has 45 entries whose paths are pairwise distinct, none an ancestor of another, each strictly under `root` with a dotted last name and no dotted directory |
| Structure.ConcatWellFormed | create_structure.py:563-626 | well-formed groups in distinct directories concatenate to distinct paths that each name a file |
| Structure.FlattenWellFormed | create_structure.py:563-626 | any table with the group sizes of `build_structure`, well-formed groups and distinct directories flattens to 45 distinct, prefix-free, file-shaped paths |
| Structure.UiRulesWrittenTwice | create_structure.py:578 | `specs/rules/ui.rules.fa.md` and `apps/mobile/src/design/ui-rules.fa.md` are different paths with the same text, UI_RULES_FA |
| Structure.FlattenAt | create_structure.py:578 | the 10th and 35th entries of the table come from the `specs/rules` and `design` groups |
| Structure.ExtraDirs | create_structure.py:630-637 | `ensure_empty_dirs` makes six directories, each under `root` with no dotted name below it. Their markers are file-shaped, so no manifest file lies on their way |
| Structure.FileNotOnDir | create_structure.py:563-637 | a file path of the table is never a prefix of an extra directory |
| Structure.FileNotOnFile | create_structure.py:563-626 | a file path of the table is never an ancestor of another |
| Script.MainRun | create_structure.py:645-667 | `main` reports at most 45 files. With `--overwrite` it skips none. Without it, a completed run counts all 45 |
| Script.Run | create_structure.py:652-667 | the same bounds for any manifest: `created + skipped` is at most its length and equals it on a completed run without `overwrite` |
| Script.RunCounts | create_structure.py:656-665 | for a well-shaped manifest, `created` is the number of manifest paths absent before the run |
| Script.MainCounts | create_structure.py:656-673 | the printed `created` is the number of the 45 files that did not exist before. `skipped` is 45 minus that, or 0 with `--overwrite` |
| Script.RunFresh | create_structure.py:645-667 | on an empty filesystem, a run over any well-shaped manifest completes, creating every file with its content and marking every extra directory |
| Script.FreshRun | create_structure.py:645-667 | on an empty filesystem the script completes with `created == 45` and `skipped == 0`. Every file holds its template text and each extra directory has a marker |
| Script.RunIdempotent | create_structure.py:645-667 | rerunning without `overwrite` after a completed run changes nothing, creates 0 and skips all |
| Script.MainIdempotent | create_structure.py:645-667 | a second run of the script without `--overwrite` changes nothing, reports 0 created and 45 skipped |
| Filesystem.FileSystem.Exists | create_structure.py:24 | `path.exists()` is true for files and directories alike |
| Filesystem.FileSystem.EnsureDir | create_structure.py:19-20 | the in-place `ensure_dir` leaves the state `FsModel.EnsureDir` gives. It raises the same exception and changes nothing when it raises. It keeps the tree valid |
| Filesystem.FileSystem.WriteFile | create_structure.py:22-26 | the in-place `write_file` leaves the state `FsModel.WriteFile` gives, raises the same exception, and keeps the tree valid. In a valid tree an exception leaves the tree unchanged |
| Filesystem.FileSystem.WriteEntry | create_structure.py:657-665 | one in-place iteration takes the loop's counters and completion from those of `Bulk.Materialize` on the first `i` entries to those on the first `i + 1`, and its tree too after a successful write, or in a valid tree after an exception |
| Filesystem.FileSystem.WriteAll | create_structure.py:656-665 | the loop's counters and its completion are those of `Bulk.Materialize`. Its final tree is `Materialize`'s after a completed loop, and in a valid tree also after an exception, when it is the tree reached before the failing write |
| Filesystem.FileSystem.EnsureEmptyDirs | create_structure.py:628-640 | the in-place loop ends in the state `Bulk.EnsureEmptyDirs` gives, or raises its exception. After an exception the tree is the one `ensure_empty_dirs` reaches over the first few directories, and `ensure_dir` fails on the next one |
| Filesystem.FileSystem.Run | create_structure.py:652-667 | for any manifest and extra directories, the in-place run reports the counters and completion of `Script.Run` and leaves its tree. In a valid tree a run that raised leaves `Script.Run`'s tree with the first few extra directories marked |
| Filesystem.FileSystem.CreateStructure | create_structure.py:645-667 | `main` in place reports the counters and completion of `Script.MainRun` and leaves its tree. In a valid tree a run that raised leaves that tree with the first few of the six extra directories marked |
| Filesystem.StopsAtFailure | create_structure.py:657-660 | once `write_file` has raised, the loop is over: later entries change nothing |
| Filesystem.EmptyDirsStopAtFailure | create_structure.py:638-640 | once `ensure_empty_dirs` has raised, the run has failed with that exception |

## Left out

- Template texts: the strings of the 39 templates (README, PRD_FA, ...) are not reproduced. `text: Template -> string` stands for them, and the `.gitkeep` entries are the empty string as in the source.
- `now_stamp` (create_structure.py:28-29): the clock reading is part of `text(Readme)`.
- Argument parsing and `Path(args.root).resolve()`: the resolved root is the parameter `root`, an arbitrary path.
- The printed summary (create_structure.py:669-675): the model returns the counters and the outcome instead of printing.
- UTF-8 encoding, permissions, a full disk and other operating-system failures are not modelled. Only the three exceptions a directory tree itself can cause are: FileExistsError, NotADirectoryError and IsADirectoryError.
- Symbolic links, concurrent changes to the filesystem and file metadata are not modelled.
- FileSystem.EnsureDir: the directories are made from the root down, not by pathlib's recursion from the path up. Only the final tree is stated.
- Script.Run: when `ensure_empty_dirs` raises, the `disk` it reports is the tree before `ensure_empty_dirs` began, not the tree with the first few extra directories marked. `FileSystem.Run` and `FileSystem.CreateStructure` state the tree the run actually leaves.
- Bulk.Materialize: after an exception the reported `disk` is the tree before the failing write. That is the real tree only in a valid tree, the only kind a filesystem holds, so FileSystem.WriteFile, FileSystem.WriteAll, FileSystem.Run and FileSystem.CreateStructure state the tree after an exception only for a valid starting tree.
- The TypeScript, JSON and Markdown files the script writes are content only. Their meaning is not modelled.
