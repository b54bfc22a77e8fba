# File operations of the dual-pane file manager

This project models `kursach/core/file_ops.py`, the file-operations layer of a
desktop file manager. That layer is a set of thin wrappers over the operating
system: `get_properties`, `rename_item`, `copy_item`, `delete_item`,
`create_folder` and `normalize`. The model proves what each wrapper does to
the filesystem, which collision policy it applies, and which errors it lets through.

The filesystem is a finite map from paths to nodes (`Tree.Entries`):

- A node is a file, with its bytes and modification time, or a directory,
  with its modification time.
- Every mutating operation is a method of the class `FileOps.FileSystem`.
  On success it replaces the map with a whole-map transition from module `Tree`:
  - `Pruned` for `shutil.rmtree` and `os.remove`;
  - `Moved` for `os.rename`;
  - `Copied` for `shutil.copytree`;
  - a single-entry update for `shutil.copy2`;
  - `MadeDirs` for `os.makedirs`.
- The class invariant `Tree.WellFormed` says the map is a tree:
  - the root `/` is a directory;
  - every path is canonical;
  - the parent of every other path is a directory in the map.

  Every operation preserves it.

Paths are strings.

- Module `Paths` writes `posixpath.join`, `posixpath.dirname` and
  `posixpath.basename` exactly as Python does.
- A path is canonical when it is `/`, or when it is the join of its own
  (canonical) dirname and its own basename, and that basename is a proper name.
- Exceptions become the `FileOps.Error` datatype. A failed operation leaves
  the map unchanged.

The collision policies are as the source writes them:

- `rename_item` fails when the target exists.
- `copy_item` appends `_copy` exactly once and never retries.
- `create_folder` tries `name`, `name_1`, `name_2`, … and stops at the first
  free one. `FreePath` models this loop as a `while` loop. It terminates
  because every path it skips is a distinct existing entry.

The walk-through in module `Walkthrough` derives the effect of a sequence of
calls from the operations' contracts alone. Starting from an empty directory:

1. create a folder twice;
2. copy the first folder into the same directory;
3. rename the copy;
4. delete the second folder.

`WalkAtRoot` instantiates it at `/root` with `Data` and `Backup`.

Two choices depart from what a POSIX system does:

- `get_properties` returns `st_size` for a directory as well as for a file
  (`kursach/core/file_ops.py:11`). The model reports 0 for a directory.
- `os.rename` replaces an existing target on POSIX and refuses it on Windows.
  The model refuses it. So the path helpers follow `posixpath`, while this
  one rename policy follows Windows.

A missing operand is told apart as the OS tells it apart: NotADirectory when
an existing file stands above the path, since resolving the path then fails
on that file, and NotFound otherwise.

## Model

| member | source | states |
|---|---|---|
| FileOps.FileSystem.GetProperties | kursach/core/file_ops.py:6-13 | succeeds exactly when the (canonical) path is an entry; otherwise fails with NotADirectory when a file stands above the path, NotFound when nothing does, and Unsupported for a path spelled non-canonically; reports that path, whether it is a directory, the byte length of a file and its modification time; reads only, so nothing changes |
| FileOps.FileSystem.RenameItem | kursach/core/file_ops.py:16-20 | the new path is `join(dirname(old_path), new_name)`; succeeds exactly when the old path exists and the new one is free, lies in an existing directory and is not inside the old one; a missing old path, or a target whose directory is not a directory, fails with NotADirectory when a file stands above it and NotFound otherwise, an existing target with AlreadyExists; on success the entry and its whole subtree now sit at the new path, the old path is gone, everything outside it is untouched, and the map stays a tree |
| FileOps.FileSystem.CopyItem | kursach/core/file_ops.py:23-35 | returns the `copy_item` target (the source's name in `dst_dir`, with `_copy` when taken); a missing source fails with NotADirectory when a file stands above it and NotFound otherwise, a free target below a file with NotADirectory; a directory is copied as a whole tree, also into a new directory inside itself, with nothing existing changed, a file as one entry with the source's data and time stamp; fails with the map unchanged otherwise; the map stays a tree |
| FileOps.CopyTargetPlacement | kursach/core/file_ops.py:24-28 | the copy target lies directly in `dst_dir`, is canonical, and is named after the source, with `_copy` appended exactly when the plain name is taken |
| FileOps.FileSystem.CopyTree | kursach/core/file_ops.py:30-31 | `shutil.copytree`: succeeds exactly when the target is free, below no file, and no existing entry inside the source lies above it (otherwise `copytree`'s listings would keep finding its own output); AlreadyExists / NotADirectory / InvalidArgument otherwise; on success the subtree at the target is the source's subtree as it was, existing entries are unchanged, and the only other new entries are the target's missing ancestors as directories |
| FileOps.FileSystem.CopyFile | kursach/core/file_ops.py:32-33 | `shutil.copy2`: writes the source's node at the target, or inside it when the target is a directory, exactly when that path is not the source, not a directory, and lies in an existing directory; otherwise SameFile, IsADirectory, or NotADirectory / NotFound as a file does or does not stand above the path; nothing else changes |
| FileOps.FileSystem.DeleteItem | kursach/core/file_ops.py:38-42 | succeeds exactly for an existing path other than the root; a missing path fails with NotADirectory when a file stands above it and NotFound otherwise; removes precisely the path and everything inside it and keeps every other entry as it was (a file: exactly that one entry); afterwards `get_properties` of the path fails with NotFound |
| FileOps.FileSystem.FreePath | kursach/core/file_ops.py:50-54 | the loop returns the first candidate (`base`, `base_1`, `base_2`, …) that is free, every earlier one being taken, and its counter never exceeds the number of entries |
| FileOps.FileSystem.CreateFolder | kursach/core/file_ops.py:45-57 | NotADirectory when the parent is not an existing directory, checked before anything else; otherwise the result is the first free numbered candidate, made as a directory together with its missing ancestors, with every existing entry unchanged; `get_properties` then reports it as a directory |
| FileOps.CandidateCanonical | kursach/core/file_ops.py:49-53 | every candidate of `create_folder` is a canonical path in the same directory as the base; a numbered one's name is the base name followed by `_` and the decimal counter |
| FileOps.CandidateInjective | kursach/core/file_ops.py:53 | distinct counters give distinct candidate paths |
| FileOps.TriedCount | kursach/core/file_ops.py:50-54 | the `k` candidates tried before the `k`-th are `k` distinct paths, none equal to a later candidate |
| FileOps.FirstFreeUnique | kursach/core/file_ops.py:50-54 | the counter at which the loop stops is unique |
| Paths.NatToString | kursach/core/file_ops.py:53 | the counter as `f"{counter}"` writes it: at least one character, all decimal digits, one digit exactly below 10, no leading zero |
| Paths.NatToStringValue | kursach/core/file_ops.py:53 | the digits, read from left to right, denote the counter itself |
| Paths.NatToStringInjective | kursach/core/file_ops.py:53 | distinct counters have distinct decimal spellings |
| Paths.LastSep | kursach/core/file_ops.py:17 | the index of the last separator, or -1, with no separator after it |
| Paths.RStripSlashes | kursach/core/file_ops.py:17 | the string with its trailing separators removed, and nothing else |
| Paths.Basename | kursach/core/file_ops.py:24 | `posixpath.basename`: the separator-free tail of the path, following its last separator |
| Paths.Dirname | kursach/core/file_ops.py:17 | `posixpath.dirname`: a prefix of the path ending no later than its last separator, empty exactly when there is none, ending in a separator only when it is all separators |
| Paths.DirnameStripped | kursach/core/file_ops.py:17 | with `Dirname`'s own contract this fixes the result: only separators lie between the dirname and the last separator, and when everything up to the last separator is separators, all of it is kept |
| Paths.DirnameUnique | kursach/core/file_ops.py:17 | any string meeting the contracts of `Dirname` and `DirnameStripped` is the dirname, so those contracts characterise `posixpath.dirname` completely |
| Paths.JoinName | kursach/core/file_ops.py:18 | joining a name onto a canonical directory gives a canonical path whose dirname is that directory and whose basename is that name |
| Paths.UnrebaseRebase | kursach/core/file_ops.py:19 | the re-keying of a moved or copied subtree can be undone, so no two entries collide |
| Paths.RebaseInjective | kursach/core/file_ops.py:19 | distinct entries of a moved or copied subtree land on distinct paths |
| Paths.RebaseCanonical | kursach/core/file_ops.py:19 | a moved or copied entry lands on a canonical path inside the target, keeps its name, and its parent is the moved parent |
| Paths.ForwardSlashes | kursach/core/file_ops.py:61 | every backslash becomes `/`, every other character stays, and no backslash remains |
| Paths.ForwardSlashesIdempotent | kursach/core/file_ops.py:61 | rewriting the separators a second time changes nothing |
| Tree.PrunedWellFormed | kursach/core/file_ops.py:38-42 | removing a non-root entry and its subtree from a tree leaves a tree |
| Tree.MovedWellFormed | kursach/core/file_ops.py:19 | moving an entry and its subtree to a free path in an existing directory, outside itself, leaves a tree in which the target holds the source's subtree and nothing else moved |
| Tree.CopiedWellFormed | kursach/core/file_ops.py:31 | copying a subtree to a free path below no file leaves a tree: existing entries unchanged, the subtree at the target is the source's subtree as it was, and the only other new entries are the target's ancestors as new directories |
| Tree.AddedWellFormed | kursach/core/file_ops.py:33 | writing one node at a path whose parent is a directory of a tree, where no directory stands, leaves a tree |
| Tree.MadeDirsWellFormed | kursach/core/file_ops.py:56 | making a directory and its missing ancestors below no file leaves a tree in which it is a directory, every existing entry unchanged, and the only new entries are it and its ancestors, stamped `now` |
| Walkthrough.Walk | kursach/core/file_ops.py:16-57 | from an empty directory `d`: making folder `n` twice gives `d/n` then `d/n_1`, copying `d/n` into `d` gives `d/n_copy`, renaming it to `b` gives `d/b`, and deleting `d/n_1` leaves exactly `d/n` and `d/b` added to the starting map |
| Walkthrough.SelfCopyIntoNewChild | kursach/core/file_ops.py:23-31 | `copy_item(d, c)` for an empty directory `d` and a child `c` of it that does not exist yet (as `copy_item("/a", "/a/q")`) succeeds with `c/<name of d>`; the map gains `c`, made at the call's time, and the old `d` at that path, and nothing else |
| Walkthrough.SelfCopyIntoOldChild | kursach/core/file_ops.py:23-31 | the same call once `c` exists fails, and the map is unchanged |
| Walkthrough.WalkAtRoot | kursach/core/file_ops.py:16-57 | the same walk at `/root`: `/root/Data`, `/root/Data_1`, `/root/Data_copy`, `/root/Backup`, and the final map holds `/`, `/root`, `/root/Data` and `/root/Backup` |

## Left out

- The time stamp formatting of `get_properties`: `modified` is the raw modification time, because formatting it needs time zones and a calendar.
- FileOps.FileSystem.GetProperties: reports size 0 for a directory, because the size of a directory entry depends on the OS's on-disk layout.
- `normalize` beyond its backslash rewrite (`Paths.ForwardSlashes`): `os.path.abspath` depends on the process's working directory.
- Path resolution in general: relative paths, `.`/`..`, repeated or trailing separators and symbolic links are not resolved. An argument, or a constructed path, that is not canonical gives `Unsupported`.
- The clock: the time stamp of a directory that an operation makes is the `now` parameter.
- Permissions, ownership, extended attributes, disk space, and OS errors other than those listed in `FileOps.Error`.
- Partial failure: a failing operation leaves the map unchanged, whereas `shutil.copytree` and `shutil.rmtree` can stop half-way on a real disk.
- Concurrency and races with other processes: each operation is one atomic transition of the map.
- The modification time of a parent directory that changes when an entry is added or removed inside it.
- When several error conditions hold at once (say, a missing source and an existing target), the model reports one of them in a fixed order; the OS may report another.
- FileOps.FileSystem.RenameItem: an existing target always fails with AlreadyExists; POSIX `os.rename` would replace an existing file or empty directory instead.
- FileOps.FileSystem.DeleteItem: deleting `/` fails with InvalidArgument; `shutil.rmtree("/")` would delete what it is allowed to and then fail.
- FileOps.FileSystem.CopyTree: a target with an existing entry of the source above it fails with InvalidArgument; `shutil.copytree` would copy its own partial output until the path becomes too long.
- FileOps.FileSystem.CopyItem: refuses the same self-copy that `CopyTree` refuses, for the same reason.
- FileOps.FileSystem.CopyTree: the copied directories keep the source's time stamps, as `copystat` does; the made ancestors get `now`.
- The text of exception messages; only the exception class is modelled.
- The graphical front end, which calls these operations, is not part of this model.
