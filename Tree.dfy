/**
 * The abstract filesystem the file operations act on: a finite map from
 * canonical paths to nodes, and the whole-map transitions that the OS
 * primitives `os.rename`, `shutil.copytree`/`shutil.copy2`,
 * `shutil.rmtree`/`os.remove` and `os.makedirs` perform on it.
 */
module Tree {
  import opened Paths

  newtype byte = x: int | 0 <= x < 256

  /** A file holds bytes; both kinds carry their modification time (seconds). */
  datatype Node = File(data: seq<byte>, mtime: int) | Dir(mtime: int)

  type Entries = map<Path, Node>

  predicate IsDirIn(m: Entries, p: Path) {
    p in m && m[p].Dir?
  }

  /**
   * The map is a tree: the root is a directory, every path is canonical, and
   * the parent of every other path is a directory in the map.
   */
  ghost predicate WellFormed(m: Entries) {
    && IsDirIn(m, "/")
    && (forall k {:trigger Canonical(k)} :: k in m ==> Canonical(k))
    && (forall k {:trigger Dirname(k) in m} :: k in m && k != "/" ==> IsDirIn(m, Dirname(k)))
  }

  /** Every directory `p` with some entry inside it holds a directory chain down to it. */
  lemma {:induction false} EnclosingIsDir(m: Entries, k: Path, p: Path)
    requires WellFormed(m) && k in m && Canonical(p) && Beneath(k, p)
    ensures IsDirIn(m, p)
    decreases |k|
  {
    DirnameWithin(k, p);
    var d := Dirname(k);
    assert IsDirIn(m, d);
    if d != p {
      EnclosingIsDir(m, d, p);
    }
  }

  lemma InsideOnlyDirs(m: Entries, p: Path)
    requires WellFormed(m) && Canonical(p)
    ensures forall k :: k in m && Beneath(k, p) ==> IsDirIn(m, p)
  {
    forall k | k in m && Beneath(k, p) ensures IsDirIn(m, p) {
      EnclosingIsDir(m, k, p);
    }
  }

  /** Nothing lies inside a path that is absent or a file. */
  lemma NothingInside(m: Entries, p: Path)
    requires WellFormed(m) && Canonical(p) && !IsDirIn(m, p)
    ensures forall k :: k in m ==> !Beneath(k, p)
  {
    InsideOnlyDirs(m, p);
  }

  /** The proper ancestors of a canonical path, obtained by repeated `dirname`. */
  function Ancestors(p: Path): set<Path>
    requires Canonical(p)
    decreases |p|
  {
    if p == "/" then {} else {Dirname(p)} + Ancestors(Dirname(p))
  }

  /** Ancestors are canonical, include the root, and are closed under `dirname`. */
  lemma {:induction false} AncestorsClosed(p: Path)
    requires Canonical(p)
    ensures p != "/" ==> "/" in Ancestors(p) && Dirname(p) in Ancestors(p)
    ensures forall q :: q in Ancestors(p) ==> Canonical(q) && |q| < |p|
    ensures forall q {:trigger Dirname(q) in Ancestors(p)} ::
      q in Ancestors(p) && q != "/" ==> Dirname(q) in Ancestors(p)
    decreases |p|
  {
    if p != "/" {
      var d := Dirname(p);
      Decompose(p);
      AncestorsClosed(d);
    }
  }

  /** In a well-formed map, every ancestor of an entry is a directory entry. */
  lemma {:induction false} AncestorsPresent(m: Entries, p: Path)
    requires WellFormed(m) && p in m
    ensures forall q :: q in Ancestors(p) ==> IsDirIn(m, q)
    decreases |p|
  {
    if p != "/" {
      assert Canonical(p);
      AncestorsPresent(m, Dirname(p));
    }
  }

  /** Some existing ancestor of the canonical path `p` is a file, so no directory can be made at `p`. */
  predicate BlockedByFile(m: Entries, p: Path) {
    Canonical(p) && exists q :: q in Ancestors(p) && q in m && m[q].File?
  }

  /** No file stands above a path whose parent is a directory of a tree. */
  lemma FreeBelowDir(m: Entries, p: Path)
    requires WellFormed(m) && Canonical(p) && p != "/" && IsDirIn(m, Dirname(p))
    ensures !BlockedByFile(m, p)
  {
    AncestorsPresent(m, Dirname(p));
    assert Ancestors(p) == {Dirname(p)} + Ancestors(Dirname(p));
  }

  /**
   * Removing an entry keeps every ancestor of it, so afterwards no file
   * stands above it either.
   */
  lemma AncestorsKept(m: Entries, p: Path)
    requires WellFormed(m) && p in m
    ensures forall q :: q in Ancestors(p) ==> q in Pruned(m, p) && Pruned(m, p)[q].Dir?
    ensures !BlockedByFile(Pruned(m, p), p)
  {
    AncestorsPresent(m, p);
    AncestorsClosed(p);
  }

  /** The entries at `p` and inside it. */
  function Subtree(m: Entries, p: Path): Entries {
    map k | k in m && AtOrBeneath(k, p) :: m[k]
  }

  /** `shutil.rmtree(p)` / `os.remove(p)`: the map without `p` and what lies inside it. */
  function Pruned(m: Entries, p: Path): Entries {
    map k | k in m && !AtOrBeneath(k, p) :: m[k]
  }

  /** The subtree at `src`, re-keyed so that it sits at `dst`. */
  function Image(m: Entries, src: Path, dst: Path): Entries {
    var keys := set k | k in m && AtOrBeneath(k, src) :: Rebase(k, src, dst);
    assert forall y :: y in keys ==> Unrebase(y, src, dst) in m by {
      forall y | y in keys ensures Unrebase(y, src, dst) in m {
        var k :| k in m && AtOrBeneath(k, src) && y == Rebase(k, src, dst);
        UnrebaseRebase(k, src, dst);
      }
    }
    map y | y in keys :: m[Unrebase(y, src, dst)]
  }

  /** `os.rename(src, dst)`: the subtree at `src` now sits at `dst`. */
  function Moved(m: Entries, src: Path, dst: Path): Entries {
    Pruned(m, src) + Image(m, src, dst)
  }

  /** `os.makedirs(p, exist_ok=True)`: `p` and its missing ancestors become new directories. */
  function MadeDirs(m: Entries, p: Path, now: int): Entries
    requires Canonical(p)
  {
    m + map q | q in Ancestors(p) + {p} && q !in m :: Dir(now)
  }

  /**
   * `shutil.copytree(src, dst)`: the missing
   * directories above `dst` are made, then the subtree at `src`, as it was
   * before the call, is copied to `dst` with its nodes (data and time stamps).
   */
  function Copied(m: Entries, src: Path, dst: Path, now: int): Entries
    requires Canonical(dst) && dst != "/"
  {
    Decompose(dst);
    MadeDirs(m, Dirname(dst), now) + Image(m, src, dst)
  }

  /** What `Image` holds: each entry of the subtree at `src`, at its rebased path. */
  lemma ImageAt(m: Entries, src: Path, dst: Path, j: Path)
    requires j in m && AtOrBeneath(j, src)
    ensures Rebase(j, src, dst) in Image(m, src, dst)
    ensures Image(m, src, dst)[Rebase(j, src, dst)] == m[j]
  {
    UnrebaseRebase(j, src, dst);
  }

  /** Nothing outside `dst` is a key of `Image`. */
  lemma ImageOutside(m: Entries, src: Path, dst: Path, y: Path)
    requires !AtOrBeneath(y, dst)
    ensures y !in Image(m, src, dst)
  {
    if y in Image(m, src, dst) {
      var k :| k in m && AtOrBeneath(k, src) && y == Rebase(k, src, dst);
      RebaseWithin(k, src, dst);
    }
  }

  /** Every key of `Image` lies at or inside `dst`. */
  lemma ImageWithin(m: Entries, src: Path, dst: Path)
    ensures forall y :: y in Image(m, src, dst) ==> AtOrBeneath(y, dst)
  {
    forall y | y in Image(m, src, dst) ensures AtOrBeneath(y, dst) {
      var k :| k in m && AtOrBeneath(k, src) && y == Rebase(k, src, dst);
      RebaseWithin(k, src, dst);
    }
  }

  /** Every key of `Image` is a rebased entry of the tree at `src`, and lies at or inside `dst`. */
  lemma ImageKeys(m: Entries, src: Path, dst: Path)
    requires WellFormed(m) && Canonical(src) && Canonical(dst) && dst != "/"
    ensures forall y :: y in Image(m, src, dst) ==>
      exists j :: j in m && AtOrBeneath(j, src) && y == Rebase(j, src, dst)
    ensures forall y :: y in Image(m, src, dst) ==> Canonical(y) && AtOrBeneath(y, dst)
  {
    forall y | y in Image(m, src, dst) ensures Canonical(y) && AtOrBeneath(y, dst) {
      var j :| j in m && AtOrBeneath(j, src) && y == Rebase(j, src, dst);
      RebaseCanonical(j, src, dst);
    }
  }

  /**
   * Deleting a non-root entry keeps the map a tree and removes the entry; a
   * file takes nothing else with it.
   */
  lemma PrunedWellFormed(m: Entries, p: Path)
    requires WellFormed(m) && p in m && p != "/"
    ensures WellFormed(Pruned(m, p)) && p !in Pruned(m, p)
    ensures m[p].File? ==> Pruned(m, p) == m - {p}
  {
    var r := Pruned(m, p);
    assert Canonical(p);
    forall k | k in r && k != "/" ensures IsDirIn(r, Dirname(k)) {
      KeepsParent(k, p);
    }
    if m[p].File? {
      NothingInside(m, p);
      PrunedLeaf(m, p);
    }
  }

  /** What survives the removal of `p` still has its parent. */
  lemma KeepsParent(k: Path, p: Path)
    requires Canonical(k) && k != "/" && Canonical(p) && !AtOrBeneath(k, p)
    ensures !AtOrBeneath(Dirname(k), p)
  {
    ParentWithin(k, p);
  }

  lemma PrunedLeaf(m: Entries, p: Path)
    requires forall k :: k in m ==> !Beneath(k, p)
    ensures Pruned(m, p) == m - {p}
  {
    assert Pruned(m, p).Keys == (m - {p}).Keys;
  }

  /**
   * Making the directories at `p` keeps the map a tree, leaves every existing
   * entry as it was, and adds only `p` and its missing ancestors, as new
   * directories stamped `now`.
   */
  lemma MadeDirsWellFormed(m: Entries, p: Path, now: int)
    requires WellFormed(m) && Canonical(p) && !BlockedByFile(m, p)
    requires p in m ==> m[p].Dir?
    ensures WellFormed(MadeDirs(m, p, now)) && IsDirIn(MadeDirs(m, p, now), p)
    ensures forall k :: k in m ==> k in MadeDirs(m, p, now) && MadeDirs(m, p, now)[k] == m[k]
    ensures forall k :: k in MadeDirs(m, p, now) && k !in m ==>
      (k == p || k in Ancestors(p)) && MadeDirs(m, p, now)[k] == Dir(now)
  {
    MadeDirsShape(m, p, now);
    MadeDirsParents(m, p, now);
  }

  lemma MadeDirsShape(m: Entries, p: Path, now: int)
    requires WellFormed(m) && Canonical(p)
    requires p in m ==> m[p].Dir?
    ensures IsDirIn(MadeDirs(m, p, now), "/") && IsDirIn(MadeDirs(m, p, now), p)
    ensures forall k :: k in MadeDirs(m, p, now) ==> Canonical(k)
    ensures forall k :: k in m ==> k in MadeDirs(m, p, now) && MadeDirs(m, p, now)[k] == m[k]
    ensures forall k :: k in MadeDirs(m, p, now) && k !in m ==>
      (k == p || k in Ancestors(p)) && MadeDirs(m, p, now)[k] == Dir(now)
  {
    AncestorsClosed(p);
  }

  lemma MadeDirsParents(m: Entries, p: Path, now: int)
    requires WellFormed(m) && Canonical(p) && !BlockedByFile(m, p)
    ensures forall k :: k in MadeDirs(m, p, now) && k != "/" ==> IsDirIn(MadeDirs(m, p, now), Dirname(k))
  {
    var r := MadeDirs(m, p, now);
    AncestorsClosed(p);
    forall k | k in r && k != "/" ensures IsDirIn(r, Dirname(k)) {
      if k !in m {
        assert Dirname(k) in Ancestors(p) by {
          assert k == p || k in Ancestors(p);
        }
      }
    }
  }

  /**
   * Moving the tree at `src` to a free `dst` whose parent is a directory and
   * that does not lie inside `src` keeps the map a tree: `src` is gone, the
   * tree found at `dst` afterwards is exactly the old tree at `src` rebased,
   * every entry outside the old tree is unchanged, and nothing else appears.
   */
  lemma MovedWellFormed(m: Entries, src: Path, dst: Path)
    requires WellFormed(m) && src in m && Canonical(dst) && dst !in m
    requires IsDirIn(m, Dirname(dst)) && !Beneath(dst, src)
    ensures WellFormed(Moved(m, src, dst))
    ensures src !in Moved(m, src, dst) && dst in Moved(m, src, dst) && Moved(m, src, dst)[dst] == m[src]
    ensures Subtree(Moved(m, src, dst), dst) == Image(m, src, dst)
    ensures forall k :: k in m && !AtOrBeneath(k, src) ==>
      k in Moved(m, src, dst) && Moved(m, src, dst)[k] == m[k]
    ensures forall k :: k in Moved(m, src, dst) ==> (k in m && !AtOrBeneath(k, src)) || AtOrBeneath(k, dst)
  {
    assert Canonical(src) && dst != "/";
    assert src != "/" by {
      CanonicalShape(dst);
      assert dst[..1] == "/";
    }
    assert forall k :: k in m ==> !AtOrBeneath(k, dst) by {
      NothingInside(m, dst);
    }
    assert !AtOrBeneath("/", src) && !AtOrBeneath("/", dst) by {
      RootOutside(src);
      RootOutside(dst);
    }
    MovedOutside(m, src, dst, "/");
    MovedKeys(m, src, dst);
    MovedParents(m, src, dst);
    MovedTop(m, src, dst);
    MovedSubtree(m, src, dst);
    MovedKept(m, src, dst);
  }

  /** Every key after a move is canonical, and either stayed in place outside `src` or lies inside `dst`. */
  lemma MovedKeys(m: Entries, src: Path, dst: Path)
    requires WellFormed(m) && Canonical(src) && Canonical(dst) && dst != "/"
    ensures forall k :: k in Moved(m, src, dst) ==> Canonical(k)
    ensures forall k :: k in Moved(m, src, dst) ==> (k in m && !AtOrBeneath(k, src)) || AtOrBeneath(k, dst)
  {
    ImageKeys(m, src, dst);
  }

  /** The moved entry leaves `src` and sits at `dst`. */
  lemma MovedTop(m: Entries, src: Path, dst: Path)
    requires src in m && !AtOrBeneath(src, dst)
    ensures src !in Moved(m, src, dst) && dst in Moved(m, src, dst) && Moved(m, src, dst)[dst] == m[src]
  {
    ImageOutside(m, src, dst, src);
    ImageAt(m, src, dst, src);
  }

  /** When nothing lay at or inside `dst`, the tree found there after the move is the image. */
  lemma MovedSubtree(m: Entries, src: Path, dst: Path)
    requires forall k :: k in m ==> !AtOrBeneath(k, dst)
    ensures Subtree(Moved(m, src, dst), dst) == Image(m, src, dst)
  {
    ImageWithin(m, src, dst);
    SubtreeOfUnion(Pruned(m, src), Image(m, src, dst), dst);
  }

  /** When nothing lay at or inside `dst`, every entry outside `src` is untouched. */
  lemma MovedKept(m: Entries, src: Path, dst: Path)
    requires forall k :: k in m ==> !AtOrBeneath(k, dst)
    ensures forall k :: k in m && !AtOrBeneath(k, src) ==>
      k in Moved(m, src, dst) && Moved(m, src, dst)[k] == m[k]
  {
    forall k | k in m && !AtOrBeneath(k, src) ensures k in Moved(m, src, dst) && Moved(m, src, dst)[k] == m[k] {
      MovedOutside(m, src, dst, k);
    }
  }

  lemma MovedParents(m: Entries, src: Path, dst: Path)
    requires WellFormed(m) && src in m && Canonical(dst) && dst !in m
    requires IsDirIn(m, Dirname(dst)) && !Beneath(dst, src)
    ensures forall k :: k in Moved(m, src, dst) && k != "/" ==> IsDirIn(Moved(m, src, dst), Dirname(k))
  {
    var im := Image(m, src, dst);
    var r := Moved(m, src, dst);
    assert Canonical(src) && dst != "/";
    ImageKeys(m, src, dst);
    NothingInside(m, dst);
    forall k | k in r && k != "/" ensures IsDirIn(r, Dirname(k)) {
      if k in im {
        var j :| j in m && AtOrBeneath(j, src) && k == Rebase(j, src, dst);
        if j == src {
          MovedTopParent(m, src, dst);
        } else {
          ImageParent(m, src, dst, j);
        }
      } else {
        MovedKeptParent(m, src, dst, k);
      }
    }
  }

  /** The parent of the moved tree's top is the existing directory above `dst`. */
  lemma MovedTopParent(m: Entries, src: Path, dst: Path)
    requires Canonical(src) && Canonical(dst) && dst != "/" && !AtOrBeneath(dst, src)
    requires IsDirIn(m, Dirname(dst))
    ensures IsDirIn(Moved(m, src, dst), Dirname(dst))
  {
    var d := Dirname(dst);
    assert !AtOrBeneath(d, src) && !AtOrBeneath(d, dst) by {
      KeepsParent(dst, src);
      DirnameShorter(dst);
    }
    MovedOutside(m, src, dst, d);
  }

  /** An entry left in place keeps its parent, which the moved tree does not cover. */
  lemma MovedKeptParent(m: Entries, src: Path, dst: Path, k: Path)
    requires Canonical(src) && Canonical(dst) && Canonical(k) && k != "/"
    requires !AtOrBeneath(k, src) && !AtOrBeneath(k, dst) && IsDirIn(m, Dirname(k))
    ensures IsDirIn(Moved(m, src, dst), Dirname(k))
  {
    var d := Dirname(k);
    assert !AtOrBeneath(d, src) && !AtOrBeneath(d, dst) by {
      KeepsParent(k, src);
      KeepsParent(k, dst);
    }
    MovedOutside(m, src, dst, d);
  }

  /** An entry outside both `src` and `dst` is untouched by the move. */
  lemma MovedOutside(m: Entries, src: Path, dst: Path, k: Path)
    requires k in m && !AtOrBeneath(k, src) && !AtOrBeneath(k, dst)
    ensures k in Moved(m, src, dst) && Moved(m, src, dst)[k] == m[k]
  {
    ImageOutside(m, src, dst, k);
  }

  /** Inside the image, the parent of a rebased entry is the rebased parent, a directory. */
  lemma ImageParent(m: Entries, src: Path, dst: Path, j: Path)
    requires Canonical(j) && Canonical(src) && Canonical(dst) && dst != "/"
    requires j in m && AtOrBeneath(j, src) && j != src && IsDirIn(m, Dirname(j))
    ensures IsDirIn(Image(m, src, dst), Dirname(Rebase(j, src, dst)))
  {
    RebaseCanonical(j, src, dst);
    ImageAt(m, src, dst, Dirname(j));
  }

  /** When only `b` has keys at or inside `p`, the tree at `p` in `a + b` is `b`. */
  lemma SubtreeOfUnion(a: Entries, b: Entries, p: Path)
    requires forall k :: k in a ==> !AtOrBeneath(k, p)
    requires forall k :: k in b ==> AtOrBeneath(k, p)
    ensures Subtree(a + b, p) == b
  {
    assert Subtree(a + b, p).Keys == b.Keys;
  }

  /**
   * Copying the tree at `src` to a free `dst` that no file blocks keeps the
   * map a tree: every existing entry is unchanged, the tree found at `dst`
   * afterwards is exactly the old tree at `src` rebased, and the only other
   * additions are missing ancestors of `dst`, as new directories.
   */
  lemma CopiedWellFormed(m: Entries, src: Path, dst: Path, now: int)
    requires WellFormed(m) && src in m && Canonical(dst) && dst !in m && !BlockedByFile(m, dst)
    ensures dst != "/" && WellFormed(Copied(m, src, dst, now))
    ensures forall k :: k in m ==> k in Copied(m, src, dst, now) && Copied(m, src, dst, now)[k] == m[k]
    ensures dst in Copied(m, src, dst, now) && Copied(m, src, dst, now)[dst] == m[src]
    ensures Subtree(Copied(m, src, dst, now), dst) == Image(m, src, dst)
    ensures forall k :: k in Copied(m, src, dst, now) && k !in m && !AtOrBeneath(k, dst) ==>
      k in Ancestors(dst) && Copied(m, src, dst, now)[k] == Dir(now)
  {
    CopiedShape(m, src, dst, now);
    CopiedParents(m, src, dst, now);
  }

  /** The directories made above `dst` lie outside it and keep the map a tree. */
  lemma MadeAbove(m: Entries, dst: Path, now: int)
    requires WellFormed(m) && Canonical(dst) && dst !in m && !BlockedByFile(m, dst)
    ensures dst != "/" && Canonical(Dirname(dst))
    ensures WellFormed(MadeDirs(m, Dirname(dst), now)) && IsDirIn(MadeDirs(m, Dirname(dst), now), Dirname(dst))
    ensures forall k :: k in m ==> k in MadeDirs(m, Dirname(dst), now) && MadeDirs(m, Dirname(dst), now)[k] == m[k]
    ensures forall k :: k in MadeDirs(m, Dirname(dst), now) && k !in m ==>
      k in Ancestors(dst) && MadeDirs(m, Dirname(dst), now)[k] == Dir(now)
    ensures forall k :: k in MadeDirs(m, Dirname(dst), now) ==> !AtOrBeneath(k, dst)
  {
    var d := Dirname(dst);
    assert dst != "/" && Canonical(d) && Ancestors(dst) == {d} + Ancestors(d) by {
      CanonicalShape(dst);
      Decompose(dst);
    }
    assert forall q :: q in Ancestors(dst) ==> |q| < |dst| by {
      AncestorsClosed(dst);
    }
    assert forall k :: k in m ==> !AtOrBeneath(k, dst) by {
      NothingInside(m, dst);
    }
    MadeDirsWellFormed(m, d, now);
  }

  lemma CopiedShape(m: Entries, src: Path, dst: Path, now: int)
    requires WellFormed(m) && src in m && Canonical(dst) && dst !in m && !BlockedByFile(m, dst)
    ensures dst != "/"
    ensures IsDirIn(Copied(m, src, dst, now), "/")
    ensures forall k :: k in Copied(m, src, dst, now) ==> Canonical(k)
    ensures forall k :: k in m ==> k in Copied(m, src, dst, now) && Copied(m, src, dst, now)[k] == m[k]
    ensures dst in Copied(m, src, dst, now) && Copied(m, src, dst, now)[dst] == m[src]
    ensures Subtree(Copied(m, src, dst, now), dst) == Image(m, src, dst)
    ensures forall k :: k in Copied(m, src, dst, now) && k !in m && !AtOrBeneath(k, dst) ==>
      k in Ancestors(dst) && Copied(m, src, dst, now)[k] == Dir(now)
  {
    MadeAbove(m, dst, now);
    assert Canonical(src);
    var md, im := MadeDirs(m, Dirname(dst), now), Image(m, src, dst);
    ImageKeys(m, src, dst);
    ImageAt(m, src, dst, src);
    forall k | k in md ensures k !in im {
      assert !AtOrBeneath(k, dst);
    }
    SubtreeOfUnion(md, im, dst);
  }

  lemma CopiedParents(m: Entries, src: Path, dst: Path, now: int)
    requires WellFormed(m) && src in m && Canonical(dst) && dst !in m && !BlockedByFile(m, dst)
    ensures dst != "/"
    ensures forall k :: k in Copied(m, src, dst, now) && k != "/" ==> IsDirIn(Copied(m, src, dst, now), Dirname(k))
  {
    MadeAbove(m, dst, now);
    assert Canonical(src);
    var md, im := MadeDirs(m, Dirname(dst), now), Image(m, src, dst);
    var r := Copied(m, src, dst, now);
    ImageKeys(m, src, dst);
    forall k | k in r && k != "/" ensures IsDirIn(r, Dirname(k)) {
      if k in im {
        var j :| j in m && AtOrBeneath(j, src) && k == Rebase(j, src, dst);
        if j == src {
          assert Dirname(k) !in im;
        } else {
          ImageParent(m, src, dst, j);
        }
      } else {
        KeepsParent(k, dst);
      }
    }
  }

  /**
   * `shutil.copy2(src, p)` onto a free path or an existing file, inside an
   * existing directory: the map stays a tree and only `p` changes.
   */
  lemma AddedWellFormed(m: Entries, p: Path, v: Node)
    requires WellFormed(m) && Canonical(p) && p != "/" && IsDirIn(m, Dirname(p))
    requires p in m ==> m[p].File?
    ensures WellFormed(m[p := v])
  {
    var r := m[p := v];
    assert IsDirIn(r, "/");
    assert forall k :: k in r ==> Canonical(k) by {
      forall k | k in r ensures Canonical(k) {
        if k != p {
          assert k in m;
        }
      }
    }
    AddedParents(m, p, v);
  }

  lemma AddedParents(m: Entries, p: Path, v: Node)
    requires WellFormed(m) && Canonical(p) && p != "/" && IsDirIn(m, Dirname(p))
    requires p in m ==> m[p].File?
    ensures forall k :: k in m[p := v] && k != "/" ==> IsDirIn(m[p := v], Dirname(k))
  {
    DirnameShorter(p);
    forall k | k in m[p := v] && k != "/" ensures IsDirIn(m[p := v], Dirname(k)) {
      AddedParent(m, p, v, k);
    }
  }

  /**
   * After writing `v` at `p`, an entry's parent is still a directory: the
   * parent of `p` is untouched, and `p`, which held no directory, was
   * nobody's parent.
   */
  lemma AddedParent(m: Entries, p: Path, v: Node, k: Path)
    requires k in m[p := v] && k != "/"
    requires IsDirIn(m, Dirname(p)) && Dirname(p) != p && (p in m ==> m[p].File?)
    requires k != p ==> IsDirIn(m, Dirname(k))
    ensures IsDirIn(m[p := v], Dirname(k))
  {
  }
}
