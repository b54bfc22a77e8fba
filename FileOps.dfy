/**
 * The file operations of `kursach/core/file_ops.py` over the abstract
 * filesystem of module Tree: `get_properties`, `rename_item`, `copy_item`,
 * `delete_item` and `create_folder`, with the collision policies they apply
 * and the errors the OS primitives underneath them raise.
 */
module FileOps {
  import opened Paths
  import opened Tree

  /** The exception classes the operations let through, without their messages. */
  datatype Error =
    | NotFound          // FileNotFoundError
    | NotADirectory     // NotADirectoryError
    | AlreadyExists     // FileExistsError
    | IsADirectory      // IsADirectoryError
    | SameFile          // shutil.SameFileError
    | InvalidArgument   // OSError (EINVAL/EBUSY) for a tree renamed into itself or the root removed; also a copy that would recurse into its own output
    | Unsupported       // a path that is not spelled canonically (no path resolution is modelled)

  datatype Result<T> = Ok(value: T) | Err(error: Error)

  datatype Outcome = Pass | Fail(error: Error)

  /** The dictionary `get_properties` returns; `modified` is the raw time stamp. */
  datatype Properties = Properties(path: Path, isDir: bool, size: nat, modified: int)

  // ---------------------------------------------------------------------------
  // The numbered names `create_folder` tries
  // ---------------------------------------------------------------------------

  /** The `k`-th path `create_folder` tries: the base, then `base_1`, `base_2`, ... */
  function Candidate(base: Path, k: nat): Path {
    if k == 0 then base else base + ("_" + NatToString(k))
  }

  /** `k` is the counter `create_folder` stops at: its candidate is free and all earlier ones are taken. */
  predicate FirstFree(m: Entries, base: Path, k: nat) {
    Candidate(base, k) !in m && forall j :: 0 <= j < k ==> Candidate(base, j) in m
  }

  /** The candidates tried before the `k`-th one. */
  function Tried(base: Path, k: nat): set<Path> {
    if k == 0 then {} else Tried(base, k - 1) + {Candidate(base, k - 1)}
  }

  lemma DigitsHaveNoSeparator(k: nat)
    ensures '/' !in "_" + NatToString(k)
    ensures ("_" + NatToString(k))[0] == '_'
  {
    var s := "_" + NatToString(k);
    forall i | 0 <= i < |s| ensures s[i] != '/' {
      if i > 0 { assert s[i] == NatToString(k)[i - 1]; }
    }
  }

  /**
   * Every candidate of a canonical base is canonical and sits in the same
   * directory as the base; a numbered one extends the base's name by `_k`.
   */
  lemma CandidateCanonical(base: Path, k: nat)
    requires Canonical(base)
    ensures Canonical(Candidate(base, k)) && Dirname(Candidate(base, k)) == Dirname(base)
    ensures k > 0 ==> Basename(Candidate(base, k)) == Basename(base) + ("_" + NatToString(k))
  {
    if k > 0 {
      var suffix := "_" + NatToString(k);
      DigitsHaveNoSeparator(k);
      AppendSuffix(base, suffix);
    }
  }

  /** Distinct counters give distinct candidates. */
  lemma CandidateInjective(base: Path, i: nat, j: nat)
    requires Candidate(base, i) == Candidate(base, j)
    ensures i == j
  {
    if i > 0 && j > 0 {
      var c := Candidate(base, i);
      assert c[|base| + 1..] == NatToString(i);
      assert c[|base| + 1..] == NatToString(j);
      NatToStringInjective(i, j);
    }
  }

  /** The `k` candidates tried before the `k`-th are `k` distinct paths. */
  lemma TriedCount(base: Path, k: nat)
    ensures |Tried(base, k)| == k
    ensures forall j :: k <= j ==> Candidate(base, j) !in Tried(base, k)
  {
    if k > 0 {
      TriedCount(base, k - 1);
      forall j | k <= j ensures Candidate(base, j) !in Tried(base, k) {
        if Candidate(base, j) == Candidate(base, k - 1) {
          CandidateInjective(base, j, k - 1);
        }
      }
    }
  }

  lemma SubsetCount<T>(a: set<T>, b: set<T>)
    requires a <= b
    ensures |a| <= |b|
  {
    assert b == a + (b - a);
  }

  /** At most one counter is the first free one. */
  lemma FirstFreeUnique(m: Entries, base: Path, i: nat, j: nat)
    requires FirstFree(m, base, i) && FirstFree(m, base, j)
    ensures i == j
  {
  }

  // ---------------------------------------------------------------------------
  // The collision policy of `copy_item`
  // ---------------------------------------------------------------------------

  /**
   * The path `copy_item` copies to: `dst_dir` joined with the source's base
   * name, with `_copy` appended once when that path is taken.
   */
  function CopyTarget(m: Entries, src: Path, dstDir: Path): Path {
    var dst := Join(dstDir, Basename(src));
    if dst in m then dst + "_copy" else dst
  }

  /**
   * For a canonical source other than the root and a canonical destination
   * directory, the copy lands directly in `dstDir`, is canonical, and is
   * named after the source, with `_copy` appended exactly when the plain
   * name was taken; never a second suffix, never a number.
   */
  lemma CopyTargetPlacement(m: Entries, src: Path, dstDir: Path)
    requires Canonical(src) && src != "/" && Canonical(dstDir)
    ensures Canonical(CopyTarget(m, src, dstDir)) && CopyTarget(m, src, dstDir) != "/"
    ensures Dirname(CopyTarget(m, src, dstDir)) == dstDir
    ensures Basename(CopyTarget(m, src, dstDir)) ==
      if Join(dstDir, Basename(src)) in m then Basename(src) + "_copy" else Basename(src)
  {
    Decompose(src);
    var dst := Join(dstDir, Basename(src));
    JoinName(dstDir, Basename(src));
    if dst in m {
      SuffixedOnce(dst);
    }
  }

  lemma SuffixedOnce(dst: Path)
    requires Canonical(dst)
    ensures Canonical(dst + "_copy") && dst + "_copy" != "/"
    ensures Dirname(dst + "_copy") == Dirname(dst) && Basename(dst + "_copy") == Basename(dst) + "_copy"
  {
    var suffix := "_copy";
    assert '/' !in suffix && suffix[0] == '_';
    AppendSuffix(dst, suffix);
    assert |dst + suffix| > 1;
  }

  /** The path `shutil.copy2` writes when copying the file `src` to `dst`: inside `dst` when that is a directory. */
  function Copy2Dest(m: Entries, src: Path, dst: Path): Path {
    if IsDirIn(m, dst) then Join(dst, Basename(src)) else dst
  }

  /**
   * `copytree` lists a directory before it makes that directory's copy. A
   * copy into `src` itself therefore keeps finding its own output, and never
   * stops, exactly when an existing entry inside `src` lies above `dst`. In a
   * tree, that means the first directory below `src` on the way to `dst`
   * already exists.
   */
  predicate CopiesOwnOutput(m: Entries, src: Path, dst: Path) {
    exists c :: c in m && Beneath(c, src) && Beneath(dst, c)
  }

  /**
   * `shutil.copytree(src, dst)` succeeds: `dst` is free, no file stands
   * above it, and the copy does not recurse into its own output.
   */
  predicate TreeCopyAllowed(m: Entries, src: Path, dst: Path) {
    dst !in m && !BlockedByFile(m, dst) && !CopiesOwnOutput(m, src, dst)
  }

  /**
   * `shutil.copy2(src, dst)` succeeds: the path it writes is not the source,
   * not a directory, and lies in an existing directory.
   */
  predicate FileCopyAllowed(m: Entries, src: Path, dst: Path) {
    var target := Copy2Dest(m, src, dst);
    target != src && !IsDirIn(m, target) && IsDirIn(m, Dirname(target))
  }

  /** `os.rename(src, dst)` succeeds: both paths are canonical, `src` exists, `dst` is free in an existing directory and not inside `src`. */
  predicate MoveAllowed(m: Entries, src: Path, dst: Path) {
    Canonical(src) && Canonical(dst) && src in m && dst !in m && IsDirIn(m, Dirname(dst)) && !Beneath(dst, src)
  }

  // ---------------------------------------------------------------------------
  // The filesystem and the operations
  // ---------------------------------------------------------------------------

  /** The filesystem the operations act on; each successful mutating operation replaces `entries`. */
  class FileSystem {
    var entries: Entries

    ghost predicate Valid()
      reads this
    {
      WellFormed(entries)
    }

    constructor (initial: Entries)
      requires WellFormed(initial)
      ensures Valid() && entries == initial
    {
      entries := initial;
    }

    /**
     * `get_properties(path)`: `os.stat` fails with NotADirectory when an
     * existing file stands above `path` and with NotFound when nothing else
     * is at `path`; otherwise it reports the path, whether it is a directory, the byte size
     * of a file and the modification time, and changes nothing.
     */
    function GetProperties(path: Path): (r: Result<Properties>)
      reads this
      ensures r.Ok? <==> Canonical(path) && path in entries
      ensures !Canonical(path) ==> r == Err(Unsupported)
      ensures Canonical(path) && path !in entries ==>
        r == Err(if BlockedByFile(entries, path) then NotADirectory else NotFound)
      ensures r.Ok? ==> r.value.path == path && r.value.isDir == entries[path].Dir?
      ensures r.Ok? ==> r.value.modified == entries[path].mtime
      ensures r.Ok? && entries[path].File? ==> r.value.size == |entries[path].data|
    {
      if !Canonical(path) then Err(Unsupported)
      else if path !in entries then Err(if BlockedByFile(entries, path) then NotADirectory else NotFound)
      else
        var node := entries[path];
        Ok(Properties(path, node.Dir?, if node.File? then |node.data| else 0, node.mtime))
    }

    /**
     * `rename_item(old_path, new_name)`: the target is `new_name` joined to
     * the directory of `old_path`. `os.rename` moves the entry, and the tree
     * beneath a directory, to the target; it refuses a target that exists,
     * one whose directory is missing or a file, and one inside the source.
     * A missing path with an existing file above it gives NotADirectory,
     * any other missing path NotFound.
     */
    method RenameItem(oldPath: Path, newName: string) returns (r: Result<Path>)
      requires Valid()
      modifies this
      ensures Valid()
      ensures r.Ok? <==> MoveAllowed(old(entries), oldPath, Join(Dirname(oldPath), newName))
      ensures r.Ok? ==> r.value == Join(Dirname(oldPath), newName)
      ensures r.Err? ==> entries == old(entries)
      ensures !Canonical(oldPath) || !Canonical(Join(Dirname(oldPath), newName)) ==> r == Err(Unsupported)
      ensures Canonical(oldPath) && Canonical(Join(Dirname(oldPath), newName)) ==>
        (oldPath !in old(entries) ==>
           r == Err(if BlockedByFile(old(entries), oldPath) then NotADirectory else NotFound)) &&
        (oldPath in old(entries) && Join(Dirname(oldPath), newName) in old(entries) ==> r == Err(AlreadyExists)) &&
        (oldPath in old(entries) && Join(Dirname(oldPath), newName) !in old(entries) &&
         !IsDirIn(old(entries), Dirname(Join(Dirname(oldPath), newName))) ==>
           r == Err(if BlockedByFile(old(entries), Join(Dirname(oldPath), newName)) then NotADirectory else NotFound))
      ensures r.Ok? ==> entries == Moved(old(entries), oldPath, r.value)
      ensures r.Ok? ==> oldPath !in entries && r.value in entries && entries[r.value] == old(entries)[oldPath]
      ensures r.Ok? ==> Subtree(entries, r.value) == Image(old(entries), oldPath, r.value)
      ensures r.Ok? ==> forall k :: k in old(entries) && !AtOrBeneath(k, oldPath) ==>
        k in entries && entries[k] == old(entries)[k]
      ensures r.Ok? ==> forall k :: k in entries ==>
        (k in old(entries) && !AtOrBeneath(k, oldPath)) || AtOrBeneath(k, r.value)
    {
      var baseDir := Dirname(oldPath);
      var newPath := Join(baseDir, newName);
      if !Canonical(oldPath) || !Canonical(newPath) {
        return Err(Unsupported);
      }
      if oldPath !in entries {
        return Err(if BlockedByFile(entries, oldPath) then NotADirectory else NotFound);
      }
      if newPath in entries {
        return Err(AlreadyExists);
      }
      if !IsDirIn(entries, Dirname(newPath)) {
        return Err(if BlockedByFile(entries, newPath) then NotADirectory else NotFound);
      }
      if Beneath(newPath, oldPath) {
        return Err(InvalidArgument);
      }
      MovedWellFormed(entries, oldPath, newPath);
      entries := Moved(entries, oldPath, newPath);
      r := Ok(newPath);
    }

    /**
     * `shutil.copytree(src, dst)`: makes the missing directories above `dst`
     * and copies the tree at `src`, as it was before the call, to `dst`.
     * It refuses a `dst` that exists and one below a file. The model also
     * refuses a copy that would recurse into its own output. A `dst` inside
     * `src` whose first directory below `src` is new is copied, since no
     * listing of the source can see it.
     */
    method CopyTree(src: Path, dst: Path, now: int) returns (r: Outcome)
      requires Valid() && src in entries && Canonical(dst)
      modifies this
      ensures Valid()
      ensures r.Pass? <==> TreeCopyAllowed(old(entries), src, dst)
      ensures dst in old(entries) ==> r == Fail(AlreadyExists)
      ensures dst !in old(entries) && BlockedByFile(old(entries), dst) ==> r == Fail(NotADirectory)
      ensures r.Fail? ==> entries == old(entries)
      ensures r.Pass? ==> dst != "/" && entries == Copied(old(entries), src, dst, now)
      ensures r.Pass? ==> Subtree(entries, dst) == Image(old(entries), src, dst)
      ensures r.Pass? ==> forall k :: k in old(entries) ==> k in entries && entries[k] == old(entries)[k]
      ensures r.Pass? ==> forall k :: k in entries && k !in old(entries) && !AtOrBeneath(k, dst) ==>
        k in Ancestors(dst) && entries[k] == Dir(now)
    {
      if dst in entries {
        return Fail(AlreadyExists);
      }
      if BlockedByFile(entries, dst) {
        return Fail(NotADirectory);
      }
      if exists c :: c in entries && Beneath(c, src) && Beneath(dst, c) {
        return Fail(InvalidArgument);
      }
      CopiedWellFormed(entries, src, dst, now);
      entries := Copied(entries, src, dst, now);
      r := Pass;
    }

    /**
     * `shutil.copy2(src, dst)` for a file `src`: writes the file's data and
     * time stamp to `dst`, or into `dst` under the source's name when `dst`
     * is a directory, replacing a file already there. It refuses a
     * destination that is a directory or the source itself, and one whose
     * directory is not a directory: NotADirectory when an existing file
     * stands above it, NotFound otherwise.
     */
    method CopyFile(src: Path, dst: Path) returns (r: Outcome)
      requires Valid() && src in entries && entries[src].File? && Canonical(dst)
      modifies this
      ensures Valid()
      ensures r.Pass? <==> FileCopyAllowed(old(entries), src, dst)
      ensures var t := Copy2Dest(old(entries), src, dst);
        && (t == src ==> r == Fail(SameFile))
        && (t != src && IsDirIn(old(entries), t) ==> r == Fail(IsADirectory))
        && (t != src && !IsDirIn(old(entries), t) && !IsDirIn(old(entries), Dirname(t)) ==>
              r == Fail(if BlockedByFile(old(entries), t) then NotADirectory else NotFound))
      ensures r.Fail? ==> entries == old(entries)
      ensures r.Pass? ==> entries == old(entries)[Copy2Dest(old(entries), src, dst) := old(entries)[src]]
    {
      assert src != "/";
      Decompose(src);
      if IsDirIn(entries, dst) {
        JoinName(dst, Basename(src));
      }
      var target := Copy2Dest(entries, src, dst);
      assert Canonical(target) && target != "/";
      if target == src {
        return Fail(SameFile);
      }
      if IsDirIn(entries, target) {
        return Fail(IsADirectory);
      }
      if !IsDirIn(entries, Dirname(target)) {
        return Fail(if BlockedByFile(entries, target) then NotADirectory else NotFound);
      }
      AddedWellFormed(entries, target, entries[src]);
      entries := entries[target := entries[src]];
      r := Pass;
    }

    /**
     * `copy_item(src, dst_dir)`: copies the directory tree or the file at
     * `src` to `dst_dir` under its own name, or under that name with `_copy`
     * appended once when the plain name is taken, and returns that path.
     * A taken `_copy` name is not retried: `copytree` refuses it and `copy2`
     * writes into it (a directory) or over it (a file).
     */
    method CopyItem(src: Path, dstDir: Path, now: int) returns (r: Result<Path>)
      requires Valid()
      modifies this
      ensures Valid()
      ensures r.Err? ==> entries == old(entries)
      ensures !Canonical(src) || !Canonical(dstDir) || !Canonical(Join(dstDir, Basename(src))) ==> r == Err(Unsupported)
      ensures Canonical(src) && Canonical(dstDir) && Canonical(Join(dstDir, Basename(src))) && src !in old(entries) ==>
        r == Err(if BlockedByFile(old(entries), src) then NotADirectory else NotFound)
      ensures Canonical(src) && Canonical(dstDir) && Canonical(Join(dstDir, Basename(src))) && src in old(entries) ==>
        (r.Ok? <==> if old(entries)[src].Dir? then TreeCopyAllowed(old(entries), src, CopyTarget(old(entries), src, dstDir))
                    else FileCopyAllowed(old(entries), src, CopyTarget(old(entries), src, dstDir)))
      ensures r.Ok? ==> r.value == CopyTarget(old(entries), src, dstDir)
      ensures r.Ok? ==> Canonical(src) && src in old(entries) && Canonical(r.value) && r.value != "/"
      // a free target with an existing file above it
      ensures var t := CopyTarget(old(entries), src, dstDir);
        (&& Canonical(src) && Canonical(dstDir) && Canonical(Join(dstDir, Basename(src))) && src in old(entries)
         && t !in old(entries) && BlockedByFile(old(entries), t)) ==> r == Err(NotADirectory)
      // a directory: the whole tree, nothing existing changed
      ensures (Canonical(src) && src in old(entries) && old(entries)[src].Dir? && Canonical(dstDir) &&
        CopyTarget(old(entries), src, dstDir) in old(entries)) ==> r == Err(AlreadyExists)
      ensures r.Ok? && old(entries)[src].Dir? ==> entries == Copied(old(entries), src, r.value, now)
      ensures r.Ok? && old(entries)[src].Dir? ==> Subtree(entries, r.value) == Image(old(entries), src, r.value)
      ensures r.Ok? && old(entries)[src].Dir? ==>
        forall k :: k in old(entries) ==> k in entries && entries[k] == old(entries)[k]
      ensures r.Ok? && old(entries)[src].Dir? ==> forall k :: k in entries && k !in old(entries) ==>
        AtOrBeneath(k, r.value) || (k in Ancestors(r.value) && entries[k] == Dir(now))
      // a file: one entry written, holding the source's data and time stamp
      ensures r.Ok? && old(entries)[src].File? ==>
        entries == old(entries)[Copy2Dest(old(entries), src, r.value) := old(entries)[src]]
    {
      var name := Basename(src);
      var dstPath := Join(dstDir, name);
      if !Canonical(src) || !Canonical(dstDir) || !Canonical(dstPath) {
        return Err(Unsupported);
      }
      if dstPath in entries {
        SuffixedOnce(dstPath);
        dstPath := dstPath + "_copy";
      }
      assert dstPath == CopyTarget(entries, src, dstDir);
      if src !in entries {
        return Err(if BlockedByFile(entries, src) then NotADirectory else NotFound);
      }
      CanonicalShape(dstPath);
      var done: Outcome;
      if entries[src].Dir? {
        done := CopyTree(src, dstPath, now);
      } else {
        if IsDirIn(entries, Dirname(dstPath)) {
          FreeBelowDir(entries, dstPath);
        }
        done := CopyFile(src, dstPath);
      }
      if done.Fail? {
        return Err(done.error);
      }
      r := Ok(dstPath);
    }

    /**
     * `delete_item(path)`: `shutil.rmtree` removes a directory and every
     * entry beneath it, `os.remove` removes a file; everything else stays.
     * `os.remove` of a missing path fails with NotADirectory when an
     * existing file stands above it, and with NotFound otherwise.
     */
    method DeleteItem(path: Path) returns (r: Outcome)
      requires Valid()
      modifies this
      ensures Valid()
      ensures r.Pass? <==> Canonical(path) && path in old(entries) && path != "/"
      ensures !Canonical(path) ==> r == Fail(Unsupported)
      ensures Canonical(path) && path !in old(entries) ==>
        r == Fail(if BlockedByFile(old(entries), path) then NotADirectory else NotFound)
      ensures r.Fail? ==> entries == old(entries)
      ensures r.Pass? ==> entries == Pruned(old(entries), path)
      ensures r.Pass? ==> forall k :: k in old(entries) ==> (k in entries <==> !AtOrBeneath(k, path))
      ensures r.Pass? ==> forall k :: k in entries ==> k in old(entries) && entries[k] == old(entries)[k]
      ensures r.Pass? && old(entries)[path].File? ==> entries == old(entries) - {path}
      ensures r.Pass? ==> GetProperties(path) == Err(NotFound)
    {
      if !Canonical(path) {
        return Fail(Unsupported);
      }
      if path !in entries {
        return Fail(if BlockedByFile(entries, path) then NotADirectory else NotFound);
      }
      if path == "/" {
        return Fail(InvalidArgument);
      }
      PrunedWellFormed(entries, path);
      AncestorsKept(entries, path);
      entries := Pruned(entries, path);
      r := Pass;
    }

    /**
     * The loop of `create_folder`: tries `base`, then `base_1`, `base_2`, ...
     * and stops at the first path that does not exist. The loop ends because
     * every path it passes over is a distinct existing entry, so the counter
     * never exceeds the number of entries plus one.
     */
    method FreePath(base: Path) returns (newPath: Path, k: nat)
      ensures newPath == Candidate(base, k) && FirstFree(entries, base, k)
      ensures k <= |entries|
    {
      newPath := base;
      var counter: nat := 1;
      while newPath in entries
        invariant counter >= 1
        invariant newPath == Candidate(base, counter - 1)
        invariant forall j :: 0 <= j < counter - 1 ==> Candidate(base, j) in entries
        invariant Tried(base, counter - 1) <= entries.Keys
        decreases |entries| - counter
      {
        TriedCount(base, counter);
        SubsetCount(Tried(base, counter), entries.Keys);
        newPath := base + ("_" + NatToString(counter));
        counter := counter + 1;
      }
      k := counter - 1;
      TriedCount(base, k);
      SubsetCount(Tried(base, k), entries.Keys);
    }

    /**
     * `create_folder(parent_dir, folder_name)`: refuses a parent that is not
     * an existing directory; otherwise makes a directory at the first free
     * numbered candidate for `folder_name` joined to the parent, along with
     * any missing directories above it, and returns its path.
     */
    method CreateFolder(parentDir: Path, folderName: string, now: int) returns (r: Result<Path>)
      requires Valid()
      modifies this
      ensures Valid()
      ensures r.Err? ==> entries == old(entries)
      ensures !Canonical(parentDir) ==> r == Err(Unsupported)
      ensures Canonical(parentDir) && !IsDirIn(old(entries), parentDir) ==> r == Err(NotADirectory)
      ensures IsDirIn(old(entries), parentDir) && !Canonical(Join(parentDir, folderName)) ==> r == Err(Unsupported)
      ensures IsDirIn(old(entries), parentDir) && Canonical(Join(parentDir, folderName)) ==>
        exists k: nat :: k <= |old(entries)| && FirstFree(old(entries), Join(parentDir, folderName), k) &&
          r == if BlockedByFile(old(entries), Candidate(Join(parentDir, folderName), k))
               then Err(NotADirectory) else Ok(Candidate(Join(parentDir, folderName), k))
      ensures r.Ok? ==> Canonical(r.value) && r.value !in old(entries)
      ensures r.Ok? ==> entries == MadeDirs(old(entries), r.value, now)
      ensures r.Ok? ==> GetProperties(r.value).Ok? && GetProperties(r.value).value.isDir
      ensures r.Ok? ==> forall p :: p in old(entries) ==> p in entries && entries[p] == old(entries)[p]
      ensures r.Ok? ==> forall p :: p in entries && p !in old(entries) ==>
        (p == r.value || p in Ancestors(r.value)) && entries[p] == Dir(now)
    {
      if !Canonical(parentDir) {
        return Err(Unsupported);
      }
      if !IsDirIn(entries, parentDir) {
        return Err(NotADirectory);
      }
      var base := Join(parentDir, folderName);
      if !Canonical(base) {
        return Err(Unsupported);
      }
      var newPath, k := FreePath(base);
      CandidateCanonical(base, k);
      if BlockedByFile(entries, newPath) {
        return Err(NotADirectory);
      }
      MadeDirsWellFormed(entries, newPath, now);
      entries := MadeDirs(entries, newPath, now);
      r := Ok(newPath);
    }
  }
}

/**
 * The walk-through of the file operations in an empty directory `d`, derived
 * from the operations' contracts alone: making folder `n` twice gives `d/n`
 * and then `d/n_1`; copying `d/n` into `d` gives `d/n_copy`; renaming that to
 * `b` gives `d/b`; deleting `d/n_1` leaves exactly `d/n` and `d/b` in `d`.
 */
module Walkthrough {
  import opened Paths
  import opened Tree
  import opened FileOps

  /** `d` is an existing directory with nothing inside it. */
  ghost predicate EmptyDir(m: Entries, d: Path) {
    WellFormed(m) && Canonical(d) && IsDirIn(m, d) && forall k :: k in m ==> !Beneath(k, d)
  }

  /** `p` names an entry directly inside `d`. */
  ghost predicate ChildOf(p: Path, d: Path) {
    Canonical(p) && p != "/" && Dirname(p) == d
  }

  /** Every path of `kids` lies directly inside `d`. */
  ghost predicate Family(kids: set<Path>, d: Path) {
    forall p :: p in kids ==> ChildOf(p, d)
  }

  /** `x` is `m` with new directories, stamped `now`, at exactly the paths `kids`. */
  ghost predicate Grown(x: Entries, m: Entries, kids: set<Path>, now: int) {
    && (forall k :: k in m ==> k in x && x[k] == m[k])
    && (forall k :: k in x && k !in m ==> k in kids)
    && (forall p :: p in kids ==> p in x && x[p] == Dir(now))
  }

  lemma BeneathTrans(k: Path, c: Path, d: Path)
    requires Beneath(k, c) && Beneath(c, d)
    ensures Beneath(k, d)
  {
    assert k[..|d|] == k[..|c|][..|d|];
    if d != "/" {
      assert k[|d|] == c[|d|];
    }
  }

  /** Two different entries of one directory: neither lies inside the other. */
  lemma Siblings(d: Path, p: Path, q: Path)
    requires Canonical(d) && ChildOf(p, d) && ChildOf(q, d) && p != q
    ensures !Beneath(p, q)
  {
    ParentWithin(p, q);
    BeneathParent(q, d);
  }

  /** An entry directly inside the empty directory `d` is not in `m`, and nothing of `m` lies inside it. */
  lemma Outside(m: Entries, d: Path, p: Path)
    requires EmptyDir(m, d) && ChildOf(p, d)
    ensures forall k :: k in m ==> k != p && !Beneath(k, p)
  {
    BeneathParent(p, d);
    forall k | k in m ensures k != p && !Beneath(k, p) {
      if Beneath(k, p) { BeneathTrans(k, p, d); }
    }
  }

  /** A path of `d` not yet grown is free, and nothing lies inside it. */
  lemma Fresh(x: Entries, m: Entries, d: Path, kids: set<Path>, p: Path, now: int)
    requires EmptyDir(m, d) && Grown(x, m, kids, now) && Family(kids, d) && ChildOf(p, d) && p !in kids
    ensures forall k :: k in x ==> k != p && !Beneath(k, p)
  {
    Outside(m, d, p);
    forall k | k in x && k !in m ensures k != p && !Beneath(k, p) {
      Siblings(d, k, p);
    }
  }

  /** Nothing lies inside a grown path. */
  lemma Leaf(x: Entries, m: Entries, d: Path, kids: set<Path>, p: Path, now: int)
    requires EmptyDir(m, d) && Grown(x, m, kids, now) && Family(kids, d) && p in kids
    ensures p !in m && forall k :: k in x ==> !Beneath(k, p)
  {
    Outside(m, d, p);
    forall k | k in x && k !in m && k != p ensures !Beneath(k, p) {
      Siblings(d, k, p);
    }
  }

  lemma GrownAdd(x: Entries, m: Entries, kids: set<Path>, p: Path, now: int)
    requires Grown(x, m, kids, now) && p !in m
    ensures Grown(x[p := Dir(now)], m, kids + {p}, now)
  {
  }

  lemma GrownRemove(x: Entries, m: Entries, kids: set<Path>, p: Path, now: int)
    requires Grown(x, m, kids, now) && p in kids && p !in m
    ensures Grown(x - {p}, m, kids - {p}, now)
  {
  }

  /** The ancestors of a child of `d` are `d` and its ancestors, directories of `m` kept in `x`. */
  lemma AncestorsDirs(x: Entries, m: Entries, d: Path, p: Path)
    requires EmptyDir(m, d) && (forall k :: k in m ==> k in x && x[k] == m[k]) && ChildOf(p, d)
    ensures IsDirIn(x, d) && forall q :: q in Ancestors(p) ==> IsDirIn(x, q)
    ensures forall q :: q in Ancestors(d) ==> IsDirIn(x, q)
    ensures !BlockedByFile(x, p)
  {
    assert forall q :: q in Ancestors(d) ==> IsDirIn(x, q) by {
      AncestorsPresent(m, d);
    }
    assert Ancestors(p) == {d} + Ancestors(d) by {
      AncestorsOfChild(p);
    }
    assert IsDirIn(x, d);
  }

  lemma AncestorsOfChild(p: Path)
    requires Canonical(p) && p != "/"
    ensures Canonical(Dirname(p)) && Ancestors(p) == {Dirname(p)} + Ancestors(Dirname(p))
  {
  }

  lemma UnionOne(x: Entries, k: Path, v: Node)
    ensures x + map[k := v] == x[k := v]
  {
  }

  /** Making a directory whose ancestors all exist adds just that directory. */
  lemma MadeOne(x: Entries, p: Path, now: int)
    requires Canonical(p) && p !in x
    requires forall q :: q in Ancestors(p) ==> q in x
    ensures MadeDirs(x, p, now) == x[p := Dir(now)]
  {
    var r, y := MadeDirs(x, p, now), x[p := Dir(now)];
    assert r.Keys == y.Keys by {
      assert p in r;
      forall q | q in r ensures q in y {
      }
    }
    forall q | q in r ensures r[q] == y[q] {
    }
  }

  /** Making a directory that exists, with all its ancestors, changes nothing. */
  lemma MadeNone(x: Entries, p: Path, now: int)
    requires Canonical(p) && p in x
    requires forall q :: q in Ancestors(p) ==> q in x
    ensures MadeDirs(x, p, now) == x
  {
    var r := MadeDirs(x, p, now);
    assert r.Keys == x.Keys by {
      forall q | q in r ensures q in x {
      }
    }
    forall q | q in r ensures r[q] == x[q] {
    }
  }

  /** The image of an entry with nothing inside it is that one entry at its new path. */
  lemma ImageOne(x: Entries, src: Path, dst: Path)
    requires Canonical(src) && src in x && forall k :: k in x ==> !Beneath(k, src)
    ensures Image(x, src, dst) == map[dst := x[src]]
  {
    assert Image(x, src, dst).Keys == {dst} by {
      ImageAt(x, src, dst, src);
    }
    ImageAt(x, src, dst, src);
  }

  /** Copying an entry with nothing inside it, into an existing directory, adds the one entry. */
  lemma CopiedOne(x: Entries, d: Path, src: Path, dst: Path, now: int)
    requires Canonical(src) && src in x && ChildOf(dst, d)
    requires d in x && forall q :: q in Ancestors(d) ==> q in x
    requires forall k :: k in x ==> !Beneath(k, src)
    ensures Copied(x, src, dst, now) == x[dst := x[src]]
  {
    Decompose(dst);
    calc {
      Copied(x, src, dst, now);
      MadeDirs(x, d, now) + Image(x, src, dst);
      { MadeNone(x, d, now); ImageOne(x, src, dst); }
      x + map[dst := x[src]];
      { UnionOne(x, dst, x[src]); }
      x[dst := x[src]];
    }
  }

  /** Moving an entry with nothing inside it removes it and adds it again at `dst`. */
  lemma MovedOne(x: Entries, src: Path, dst: Path)
    requires Canonical(src) && src in x && dst !in x
    requires forall k :: k in x ==> !Beneath(k, src)
    ensures Moved(x, src, dst) == (x - {src})[dst := x[src]]
  {
    calc {
      Moved(x, src, dst);
      Pruned(x, src) + Image(x, src, dst);
      { PrunedLeaf(x, src); ImageOne(x, src, dst); }
      (x - {src}) + map[dst := x[src]];
      { UnionOne(x - {src}, dst, x[src]); }
      (x - {src})[dst := x[src]];
    }
  }

  /** A map grown at two paths is `m` with exactly those two directories added. */
  lemma GrownTwo(x: Entries, m: Entries, p: Path, q: Path, now: int)
    requires Grown(x, m, {p, q}, now)
    ensures x == m[p := Dir(now)][q := Dir(now)]
  {
    var y := m[p := Dir(now)][q := Dir(now)];
    assert x.Keys == y.Keys;
  }

  // ---------------------------------------------------------------------------
  // One operation on a directory grown at `kids`
  // ---------------------------------------------------------------------------

  /** Making a new entry of `d`: it is free, not blocked, and added alone. */
  lemma MakeKid(x: Entries, m: Entries, d: Path, kids: set<Path>, p: Path, now: int)
    requires EmptyDir(m, d) && Grown(x, m, kids, now) && Family(kids, d) && ChildOf(p, d) && p !in kids
    ensures IsDirIn(x, d) && p !in x && !BlockedByFile(x, p)
    ensures MadeDirs(x, p, now) == x[p := Dir(now)]
    ensures Grown(x[p := Dir(now)], m, kids + {p}, now) && Family(kids + {p}, d)
  {
    Fresh(x, m, d, kids, p, now);
    GrownAdd(x, m, kids, p, now);
    AncestorsDirs(x, m, d, p);
    MadeOne(x, p, now);
  }

  /** Copying a grown entry to a new entry of `d`: allowed, and adds the one copy. */
  lemma CopyKid(x: Entries, m: Entries, d: Path, kids: set<Path>, src: Path, dst: Path, now: int)
    requires EmptyDir(m, d) && Grown(x, m, kids, now) && Family(kids, d) && src in kids
    requires ChildOf(dst, d) && dst !in kids
    ensures Canonical(src) && src in x && x[src].Dir?
    ensures Join(d, Basename(src)) == src && Canonical(dst) && dst != "/"
    ensures TreeCopyAllowed(x, src, dst)
    ensures Copied(x, src, dst, now) == x[dst := Dir(now)]
    ensures Grown(x[dst := Dir(now)], m, kids + {dst}, now) && Family(kids + {dst}, d)
  {
    Leaf(x, m, d, kids, src, now);
    Fresh(x, m, d, kids, dst, now);
    GrownAdd(x, m, kids, dst, now);
    Siblings(d, dst, src);
    AncestorsDirs(x, m, d, dst);
    CopiedOne(x, d, src, dst, now);
  }

  /** Renaming a grown entry to a new entry of `d`: allowed, and moves the one entry. */
  lemma MoveKid(x: Entries, m: Entries, d: Path, kids: set<Path>, src: Path, dst: Path, now: int)
    requires EmptyDir(m, d) && Grown(x, m, kids, now) && Family(kids, d) && src in kids
    requires ChildOf(dst, d) && dst !in kids
    ensures Dirname(src) == d && MoveAllowed(x, src, dst)
    ensures Grown(Moved(x, src, dst), m, (kids - {src}) + {dst}, now) && Family((kids - {src}) + {dst}, d)
  {
    Leaf(x, m, d, kids, src, now);
    Fresh(x, m, d, kids, dst, now);
    Siblings(d, dst, src);
    GrownRemove(x, m, kids, src, now);
    GrownAdd(x - {src}, m, kids - {src}, dst, now);
    MovedOne(x, src, dst);
  }

  /** Deleting a grown entry: allowed, and removes just that entry. */
  lemma PruneKid(x: Entries, m: Entries, d: Path, kids: set<Path>, p: Path, now: int)
    requires EmptyDir(m, d) && Grown(x, m, kids, now) && Family(kids, d) && p in kids
    ensures Canonical(p) && p in x && p != "/"
    ensures Grown(Pruned(x, p), m, kids - {p}, now) && Family(kids - {p}, d)
  {
    Leaf(x, m, d, kids, p, now);
    PrunedLeaf(x, p);
    GrownRemove(x, m, kids, p, now);
  }

  lemma Absent(x: Entries, m: Entries, d: Path, kids: set<Path>, p: Path, now: int)
    requires EmptyDir(m, d) && Grown(x, m, kids, now) && Family(kids, d) && ChildOf(p, d) && p !in kids
    ensures p !in x
  {
    Fresh(x, m, d, kids, p, now);
  }

  // ---------------------------------------------------------------------------
  // The paths of the walk
  // ---------------------------------------------------------------------------

  /** A canonical path with a name suffix stays in its directory and gets a longer name. */
  lemma Suffixed(p: Path, s: string)
    requires Canonical(p) && p != "/" && |s| > 0 && s[0] == '_' && '/' !in s
    ensures ChildOf(p + s, Dirname(p)) && Basename(p + s) == Basename(p) + s
  {
    AppendSuffix(p, s);
  }

  /** `d/n_1` lies in `d` and is the second free name the folder maker tries for `d/n`. */
  lemma SecondPath(d: Path, n: string)
    requires Canonical(d) && IsName(n)
    ensures ChildOf(Join(d, n) + "_1", d) && Basename(Join(d, n) + "_1") == n + "_1"
    ensures Candidate(Join(d, n), 1) == Join(d, n) + "_1"
  {
    JoinName(d, n);
    var one := "_1";
    assert '/' !in one && one[0] == '_';
    Suffixed(Join(d, n), one);
    CandidateOne(Join(d, n));
  }

  lemma CandidateOne(base: Path)
    ensures Candidate(base, 1) == base + "_1"
  {
    assert NatToString(1) == "1";
  }

  /** `d/n_copy` lies in `d`. */
  lemma CopyPath(d: Path, n: string)
    requires Canonical(d) && IsName(n)
    ensures ChildOf(Join(d, n) + "_copy", d) && Basename(Join(d, n) + "_copy") == n + "_copy"
  {
    JoinName(d, n);
    var copy := "_copy";
    assert '/' !in copy && copy[0] == '_';
    Suffixed(Join(d, n), copy);
  }

  /** Entries of one directory with different names are different. */
  lemma NamesApart(p: Path, q: Path)
    requires Basename(p) != Basename(q)
    ensures p != q
  {
  }

  /** The four paths of the walk are different entries of `d`; the first two are the folder maker's first candidates. */
  lemma WalkPaths(d: Path, n: string, b: string)
    requires Canonical(d) && IsName(n) && IsName(b) && b != n && b != n + "_1" && b != n + "_copy"
    ensures var p1 := Join(d, n); var p2 := p1 + "_1"; var p3 := p1 + "_copy"; var p4 := Join(d, b);
      && Canonical(p1) && ChildOf(p1, d) && ChildOf(p2, d) && ChildOf(p3, d) && ChildOf(p4, d)
      && Candidate(p1, 0) == p1 && Candidate(p1, 1) == p2
      && p1 != p2 && p1 != p3 && p1 != p4 && p2 != p3 && p2 != p4 && p3 != p4
  {
    var p1, p4 := Join(d, n), Join(d, b);
    var p2, p3 := p1 + "_1", p1 + "_copy";
    JoinName(d, n);
    JoinName(d, b);
    SecondPath(d, n);
    CopyPath(d, n);
    assert p1 != p2 && p1 != p3 && p2 != p3 by {
      assert |p1| < |p2| < |p3|;
    }
    NamesApart(p4, p1);
    NamesApart(p4, p2);
    NamesApart(p4, p3);
  }

  /** The set algebra of the walk, for four different paths. */
  lemma FirstSets<T>(a: T, b: T, c: T)
    requires a != b && a != c && b != c
    ensures var k1 := {} + {a}; var k2 := k1 + {b};
      a !in {} && b !in k1 && c !in k2 && a in k2 && k2 + {c} == {a, b, c}
  {
  }

  lemma LastSets<T>(a: T, b: T, c: T, e: T)
    requires a != b && a != c && a != e && b != c && b != e && c != e
    ensures var k4 := ({a, b, c} - {c}) + {e}; var k5 := k4 - {b};
      c in {a, b, c} && e !in {a, b, c} && b in k4 && k5 == {a, e} && b !in k5 && c !in k5
  {
  }

  // ---------------------------------------------------------------------------
  // The steps of the walk
  // ---------------------------------------------------------------------------

  /** Making folder `n` in `d` when its first `k` candidates are taken gives the `k`-th candidate. */
  method MakeStep(fs: FileSystem, ghost m: Entries, d: Path, n: string, ghost kids: set<Path>, ghost k: nat,
                  ghost p: Path, now: int) returns (r: Path)
    requires fs.Valid() && Grown(fs.entries, m, kids, now) && Family(kids, d) && EmptyDir(m, d)
    requires Canonical(Join(d, n)) && p == Candidate(Join(d, n), k) && ChildOf(p, d) && p !in kids
    requires forall j :: 0 <= j < k ==> Candidate(Join(d, n), j) in kids
    modifies fs
    ensures fs.Valid() && Grown(fs.entries, m, kids + {p}, now) && Family(kids + {p}, d) && r == p
  {
    ghost var x, base := fs.entries, Join(d, n);
    MakeKid(x, m, d, kids, p, now);
    assert FirstFree(x, base, k);
    var res := fs.CreateFolder(d, n, now);
    ghost var i: nat :| FirstFree(x, base, i) &&
      res == if BlockedByFile(x, Candidate(base, i)) then Err(NotADirectory) else Ok(Candidate(base, i));
    FirstFreeUnique(x, base, i, k);
    r := res.value;
  }

  /** Copying the entry `src` of `d` into `d`, its name taken, lands at `src_copy`. */
  method CopyStep(fs: FileSystem, ghost m: Entries, d: Path, src: Path, ghost kids: set<Path>, ghost dst: Path, now: int)
    returns (r: Path)
    requires fs.Valid() && Grown(fs.entries, m, kids, now) && Family(kids, d) && EmptyDir(m, d)
    requires src in kids && ChildOf(dst, d) && dst == src + "_copy" && dst !in kids
    modifies fs
    ensures fs.Valid() && Grown(fs.entries, m, kids + {dst}, now) && Family(kids + {dst}, d) && r == dst
  {
    ghost var x := fs.entries;
    CopyKid(x, m, d, kids, src, dst, now);
    assert CopyTarget(x, src, d) == dst;
    var res := fs.CopyItem(src, d, now);
    r := res.value;
  }

  /** Renaming the entry `src` of `d` to `b` moves it to `d/b`. */
  method RenameStep(fs: FileSystem, ghost m: Entries, d: Path, src: Path, b: string, ghost kids: set<Path>,
                    ghost dst: Path, now: int) returns (r: Path)
    requires fs.Valid() && Grown(fs.entries, m, kids, now) && Family(kids, d) && EmptyDir(m, d)
    requires src in kids && ChildOf(dst, d) && dst == Join(d, b) && dst !in kids
    modifies fs
    ensures fs.Valid() && Grown(fs.entries, m, (kids - {src}) + {dst}, now) && Family((kids - {src}) + {dst}, d)
    ensures r == dst
  {
    ghost var x := fs.entries;
    MoveKid(x, m, d, kids, src, dst, now);
    var res := fs.RenameItem(src, b);
    r := res.value;
  }

  /** Deleting the entry `p` of `d` removes just it. */
  method DeleteStep(fs: FileSystem, ghost m: Entries, d: Path, p: Path, ghost kids: set<Path>, now: int)
    requires fs.Valid() && Grown(fs.entries, m, kids, now) && Family(kids, d) && EmptyDir(m, d) && p in kids
    modifies fs
    ensures fs.Valid() && Grown(fs.entries, m, kids - {p}, now) && Family(kids - {p}, d)
  {
    ghost var x := fs.entries;
    PruneKid(x, m, d, kids, p, now);
    var res := fs.DeleteItem(p);
  }

  /**
   * The scenario run in an empty directory `d`: the returned paths are
   * `d/n`, `d/n_1`, `d/n_copy` and `d/b`, and afterwards `d` holds exactly
   * `d/n` and `d/b`, as new directories.
   */
  method Walk(m: Entries, d: Path, n: string, b: string, now: int)
    returns (made: Path, again: Path, copied: Path, renamed: Path, final: Entries)
    requires EmptyDir(m, d) && IsName(n) && IsName(b) && b != n && b != n + "_1" && b != n + "_copy"
    ensures made == Join(d, n) && again == made + "_1" && copied == made + "_copy" && renamed == Join(d, b)
    ensures final == m[made := Dir(now)][renamed := Dir(now)]
    ensures WellFormed(final) && again !in final && copied !in final
  {
    WalkPaths(d, n, b);
    var fs := new FileSystem(m);
    made, again, copied := FirstSteps(fs, m, d, n, now);
    renamed := LastSteps(fs, m, d, made, again, copied, b, now);
    final := fs.entries;
  }

  /** Making folder `n` twice, then copying the first folder into `d`. */
  method FirstSteps(fs: FileSystem, ghost m: Entries, d: Path, n: string, now: int)
    returns (made: Path, again: Path, copied: Path)
    requires fs.Valid() && fs.entries == m && EmptyDir(m, d)
    requires var p := Join(d, n);
      && Canonical(p) && ChildOf(p, d) && ChildOf(p + "_1", d) && ChildOf(p + "_copy", d)
      && Candidate(p, 0) == p && Candidate(p, 1) == p + "_1"
      && p != p + "_1" && p != p + "_copy" && p + "_1" != p + "_copy"
    modifies fs
    ensures made == Join(d, n) && again == made + "_1" && copied == made + "_copy"
    ensures fs.Valid() && Grown(fs.entries, m, {made, again, copied}, now) && Family({made, again, copied}, d)
  {
    ghost var p1 := Join(d, n);
    ghost var p2, p3 := p1 + "_1", p1 + "_copy";
    FirstSets(p1, p2, p3);
    assert Grown(m, m, {}, now) && Family({}, d);
    made := MakeStep(fs, m, d, n, {}, 0, p1, now);
    again := MakeStep(fs, m, d, n, {} + {p1}, 1, p2, now);
    copied := CopyStep(fs, m, d, made, {} + {p1} + {p2}, p3, now);
  }

  /** Renaming the copy to `b`, then deleting the second folder. */
  method LastSteps(fs: FileSystem, ghost m: Entries, d: Path, p1: Path, p2: Path, p3: Path, b: string, now: int)
    returns (renamed: Path)
    requires fs.Valid() && EmptyDir(m, d) && Grown(fs.entries, m, {p1, p2, p3}, now) && Family({p1, p2, p3}, d)
    requires ChildOf(Join(d, b), d)
    requires var p4 := Join(d, b); p1 != p2 && p1 != p3 && p1 != p4 && p2 != p3 && p2 != p4 && p3 != p4
    modifies fs
    ensures renamed == Join(d, b) && fs.entries == m[p1 := Dir(now)][renamed := Dir(now)]
    ensures fs.Valid() && p2 !in fs.entries && p3 !in fs.entries
  {
    ghost var p4 := Join(d, b);
    LastSets(p1, p2, p3, p4);
    ghost var k4 := ({p1, p2, p3} - {p3}) + {p4};
    renamed := RenameStep(fs, m, d, p3, b, {p1, p2, p3}, p4, now);
    DeleteStep(fs, m, d, p2, k4, now);
    GrownTwo(fs.entries, m, p1, p4, now);
    Absent(fs.entries, m, d, {p1, p4}, p2, now);
    Absent(fs.entries, m, d, {p1, p4}, p3, now);
  }

  /** The root with one empty directory `/r` in it. */
  lemma HomeOnly(r: string)
    requires IsName(r)
    ensures EmptyDir(map["/" := Dir(0), Join("/", r) := Dir(0)], Join("/", r))
  {
    JoinName("/", r);
    var m := map["/" := Dir(0), Join("/", r) := Dir(0)];
    assert forall k :: k in m ==> k == "/" || k == Join("/", r);
  }

  lemma RootNames()
    ensures IsName("root") && IsName("Data") && IsName("Backup")
    ensures "Backup" != "Data" && "Backup" != "Data" + "_1" && "Backup" != "Data" + "_copy"
  {
    assert "Backup"[0] != ("Data" + "_1")[0];
  }

  lemma HomePath()
    ensures Join("/", "root") == "/root"
  {
  }

  lemma DataPath()
    ensures Join("/root", "Data") == "/root/Data"
  {
  }

  lemma DataSuffixes()
    ensures "/root/Data" + "_1" == "/root/Data_1" && "/root/Data" + "_copy" == "/root/Data_copy"
  {
  }

  lemma BackupPath()
    ensures Join("/root", "Backup") == "/root/Backup"
  {
  }

  /**
   * The scenario at `/root`, at time 1: the folders are `/root/Data`, then
   * `/root/Data_1`; the copy is `/root/Data_copy`, renamed to `/root/Backup`;
   * at the end `/root` holds `Data` and `Backup`.
   */
  method WalkAtRoot() returns (made: Path, again: Path, copied: Path, renamed: Path, final: Entries)
    ensures made == "/root/Data" && again == "/root/Data_1"
    ensures copied == "/root/Data_copy" && renamed == "/root/Backup"
    ensures final == map["/" := Dir(0), "/root" := Dir(0), "/root/Data" := Dir(1), "/root/Backup" := Dir(1)]
  {
    RootNames();
    HomeOnly("root");
    HomePath();
    DataPath();
    DataSuffixes();
    BackupPath();
    made, again, copied, renamed, final := Walk(map["/" := Dir(0), "/root" := Dir(0)], "/root", "Data", "Backup", 1);
  }

  /** The paths of a copy of the empty directory `d` into its new child `c`. */
  lemma SelfCopyPaths(m: Entries, d: Path, q: string)
    requires EmptyDir(m, d) && d != "/" && IsName(q)
    ensures var c := Join(d, q); var t := Join(c, Basename(d));
      && ChildOf(c, d) && ChildOf(t, c) && c !in m && t !in m
      && (forall a :: a in Ancestors(c) ==> IsDirIn(m, a))
      && (forall a :: a in Ancestors(t) ==> a == c || IsDirIn(m, a))
  {
    Decompose(d);
    JoinName(d, q);
    var c := Join(d, q);
    JoinName(c, Basename(d));
    var t := Join(c, Basename(d));
    BeneathParent(c, d);
    BeneathParent(t, d);
    AncestorsPresent(m, d);
    AncestorsOfChild(c);
    AncestorsOfChild(t);
  }

  /** That copy is allowed: its target is free and lies below no file and no old entry of `d`. */
  lemma SelfCopyAllowed(m: Entries, d: Path, c: Path, t: Path)
    requires Canonical(t) && t !in m && c !in m
    requires forall k :: k in m ==> !Beneath(k, d)
    requires forall a :: a in Ancestors(t) ==> a == c || IsDirIn(m, a)
    ensures TreeCopyAllowed(m, d, t)
  {
  }

  /** It makes `c` and puts the copy of `d` inside it. */
  lemma SelfCopyMade(m: Entries, d: Path, c: Path, t: Path, now: int)
    requires Canonical(d) && d in m && ChildOf(c, d) && ChildOf(t, c) && c !in m
    requires forall k :: k in m ==> !Beneath(k, d)
    requires forall a :: a in Ancestors(c) ==> IsDirIn(m, a)
    ensures Copied(m, d, t, now) == m[c := Dir(now)][t := m[d]]
  {
    MadeOne(m, c, now);
    ImageOne(m, d, t);
    UnionOne(m[c := Dir(now)], t, m[d]);
  }

  /**
   * `copy_item(d, c)` for an empty directory `d` and a new child `c` of it,
   * as in `copy_item("/a", "/a/q")`: `copytree` lists `d` before it makes the
   * copy, so the copy ends. `c` is made at time `now`, and the old `d` is
   * copied into it.
   */
  method SelfCopyIntoNewChild(m: Entries, d: Path, q: string, now: int) returns (r: Result<Path>, final: Entries)
    requires EmptyDir(m, d) && d != "/" && IsName(q)
    ensures r == Ok(Join(Join(d, q), Basename(d)))
    ensures final == m[Join(d, q) := Dir(now)][Join(Join(d, q), Basename(d)) := m[d]]
  {
    SelfCopyPaths(m, d, q);
    var c := Join(d, q);
    var t := Join(c, Basename(d));
    SelfCopyAllowed(m, d, c, t);
    SelfCopyMade(m, d, c, t, now);
    assert CopyTarget(m, d, c) == t;
    var fs := new FileSystem(m);
    r := fs.CopyItem(d, c, now);
    final := fs.entries;
  }

  /** The copy target inside the child `c` of `d`, with or without `_copy`, lies inside `c`. */
  lemma SelfCopyLoops(d: Path, q: string)
    requires Canonical(d) && d != "/" && IsName(q)
    ensures var c := Join(d, q); var t := Join(c, Basename(d));
      && Canonical(c) && Canonical(t) && Beneath(c, d) && Beneath(t, c) && Beneath(t + "_copy", c)
  {
    Decompose(d);
    JoinName(d, q);
    var c := Join(d, q);
    JoinName(c, Basename(d));
    var t := Join(c, Basename(d));
    SuffixedOnce(t);
    BeneathParent(c, d);
    BeneathParent(t, c);
    BeneathParent(t + "_copy", c);
  }

  /** Once `c` exists, an entry of `d` lies above the copy target, whichever it is. */
  lemma SelfCopyRefused(m: Entries, d: Path, q: string)
    requires Canonical(d) && d != "/" && IsName(q) && Join(d, q) in m
    ensures var c := Join(d, q);
      && Canonical(c) && Canonical(Join(c, Basename(d))) && !TreeCopyAllowed(m, d, CopyTarget(m, d, c))
  {
    var c := Join(d, q);
    SelfCopyLoops(d, q);
    var u := CopyTarget(m, d, c);
    assert Beneath(u, c);
    assert CopiesOwnOutput(m, d, u);
  }

  /**
   * The same call once `c` exists: every listing would find the copy made one
   * level up, so the call fails and nothing changes.
   */
  method SelfCopyIntoOldChild(m: Entries, d: Path, q: string, now: int) returns (r: Result<Path>, final: Entries)
    requires WellFormed(m) && IsDirIn(m, d) && d != "/" && IsName(q) && Join(d, q) in m
    ensures r.Err? && final == m
  {
    SelfCopyRefused(m, d, q);
    var fs := new FileSystem(m);
    r := fs.CopyItem(d, Join(d, q), now);
    final := fs.entries;
  }
}
