/**
 * Path strings and the three helpers the file operations use: `join`,
 * `dirname` and `basename`, written as Python's `posixpath` writes them.
 *
 * The abstract filesystem stores only canonical paths: "/" or
 * "/n1/n2/.../nk" where every ni is a proper name (no separator, not
 * empty, not "." or ".."). Canonical is defined by the helpers themselves:
 * a non-root path is canonical when it is the join of its own dirname
 * (canonical) and its own basename (a name).
 */
module Paths {

  type Path = string

  /** The components a canonical path is built from. */
  predicate IsName(n: string) {
    n != "" && '/' !in n && n != "." && n != ".."
  }

  /** Python's `p.rfind("/")`: the index of the last separator, or -1. */
  function LastSep(p: string): (i: int)
    ensures -1 <= i < |p|
    ensures i >= 0 ==> p[i] == '/'
    ensures forall j :: i < j < |p| ==> p[j] != '/'
  {
    if |p| == 0 then -1
    else if p[|p| - 1] == '/' then |p| - 1
    else LastSep(p[..|p| - 1])
  }

  predicate AllSlashes(s: string) {
    forall i :: 0 <= i < |s| ==> s[i] == '/'
  }

  /** Python's `s.rstrip("/")`. */
  function RStripSlashes(s: string): (r: string)
    ensures |r| <= |s| && r == s[..|r|]
    ensures |r| > 0 ==> r[|r| - 1] != '/'
    ensures forall j :: |r| <= j < |s| ==> s[j] == '/'
  {
    if |s| > 0 && s[|s| - 1] == '/' then RStripSlashes(s[..|s| - 1]) else s
  }

  /** `posixpath.basename`: everything after the last separator. */
  function Basename(p: Path): (r: string)
    ensures '/' !in r
    ensures |r| <= |p| && r == p[|p| - |r|..]
    ensures |r| < |p| ==> p[|p| - |r| - 1] == '/'
  {
    p[LastSep(p) + 1..]
  }

  /**
   * `posixpath.dirname`: everything before the last separator, with
   * trailing separators stripped unless the head consists of separators only.
   */
  function Dirname(p: Path): (r: Path)
    ensures |r| <= LastSep(p) + 1 && r == p[..|r|]
    ensures r == "" <==> LastSep(p) < 0
    ensures r != "" && r[|r| - 1] == '/' ==> AllSlashes(r)
  {
    var head := p[..LastSep(p) + 1];
    if head != "" && !AllSlashes(head) then RStripSlashes(head) else head
  }

  /**
   * What `Dirname` keeps of `p`: the part up to the last separator, less
   * its trailing separators, unless that part is separators only, in which
   * case all of it; together with the contract of `Dirname` this fixes the
   * result.
   */
  lemma DirnameStripped(p: Path)
    ensures forall j :: |Dirname(p)| <= j <= LastSep(p) ==> p[j] == '/'
    ensures Dirname(p) != "" && !AllSlashes(Dirname(p)) ==> Dirname(p)[|Dirname(p)| - 1] != '/'
    ensures AllSlashes(p[..LastSep(p) + 1]) ==> Dirname(p) == p[..LastSep(p) + 1]
  {
  }

  /** Whatever meets the contract of `Dirname` and `DirnameStripped` is the dirname. */
  lemma DirnameUnique(p: Path, r: Path)
    requires |r| <= LastSep(p) + 1 && r == p[..|r|]
    requires r == "" <==> LastSep(p) < 0
    requires r != "" && r[|r| - 1] == '/' ==> AllSlashes(r)
    requires forall j :: |r| <= j <= LastSep(p) ==> p[j] == '/'
    requires AllSlashes(p[..LastSep(p) + 1]) ==> r == p[..LastSep(p) + 1]
    ensures r == Dirname(p)
  {
    var h := p[..LastSep(p) + 1];
    if !AllSlashes(h) {
      var t := RStripSlashes(h);
      assert t == Dirname(p);
      var j :| 0 <= j < |h| && h[j] != '/';
      assert j < |r| && j < |t|;
      assert r[j] == h[j];
      assert !AllSlashes(r);
      assert |t| - 1 < |r| by {
        assert t[|t| - 1] == p[|t| - 1];
      }
      assert |r| - 1 < |t| by {
        assert r[|r| - 1] == h[|r| - 1];
      }
      assert t == p[..|t|];
    }
  }

  /** Two-argument `posixpath.join`. */
  function Join(a: Path, b: string): Path {
    if |b| > 0 && b[0] == '/' then b
    else if a == "" || a[|a| - 1] == '/' then a + b
    else a + "/" + b
  }

  predicate Canonical(p: Path)
    decreases |p|
  {
    p == "/" ||
    (IsName(Basename(p)) && Canonical(Dirname(p)) && Join(Dirname(p), Basename(p)) == p)
  }

  /** `k` lies strictly inside the directory `p`. */
  predicate Beneath(k: Path, p: Path) {
    |p| < |k| && k[..|p|] == p && (p == "/" || k[|p|] == '/')
  }

  predicate AtOrBeneath(k: Path, p: Path) {
    k == p || Beneath(k, p)
  }

  /** A canonical path starts with "/" and, unless it is the root, does not end with one. */
  lemma {:induction false} CanonicalShape(p: Path)
    requires Canonical(p)
    ensures |p| >= 1 && p[0] == '/'
    ensures p != "/" ==> |p| >= 2 && p[|p| - 1] != '/'
    decreases |p|
  {
    if p != "/" {
      var d, n := Dirname(p), Basename(p);
      CanonicalShape(d);
      assert n[0] != '/' by { assert n[0] in n; }
      if d[|d| - 1] == '/' {
        assert p == d + n;
      } else {
        assert p == d + "/" + n;
      }
      assert p[|p| - 1] == n[|n| - 1] by { assert n[|n| - 1] in n; }
    }
  }

  /** The parent of a non-root canonical path is a strictly shorter path. */
  lemma DirnameShorter(p: Path)
    requires Canonical(p) && p != "/"
    ensures |Dirname(p)| < |p|
  {
  }

  lemma LastSepAt(p: string, i: int)
    requires 0 <= i < |p| && p[i] == '/'
    requires forall j :: i < j < |p| ==> p[j] != '/'
    ensures LastSep(p) == i
  {
  }

  /** A non-root canonical path is its dirname, one separator and its basename. */
  lemma Decompose(k: Path)
    requires Canonical(k) && k != "/"
    ensures Canonical(Dirname(k)) && IsName(Basename(k))
    ensures k == Stem(Dirname(k)) + "/" + Basename(k)
  {
    var d, n := Dirname(k), Basename(k);
    CanonicalShape(d);
    assert n[0] != '/' by { assert n[0] in n; }
  }

  /**
   * Joining a name onto a canonical directory gives a canonical path whose
   * dirname is that directory and whose basename is that name.
   */
  lemma JoinName(d: Path, n: string)
    requires Canonical(d) && IsName(n)
    ensures Canonical(Join(d, n)) && Join(d, n) != "/"
    ensures Dirname(Join(d, n)) == d && Basename(Join(d, n)) == n
  {
    var p := Join(d, n);
    assert p == Stem(d) + "/" + n && p != "/" by {
      CanonicalShape(d);
      assert n[0] != '/' by { assert n[0] in n; }
    }
    assert Basename(p) == n && Dirname(p) == d by {
      CanonicalShape(d);
      ChildParts(Stem(d), n);
      if d == "/" {
        assert Dirname(p) == "/" by { assert AllSlashes(p[..1]); }
      } else {
        DirnameOfChild(d, n);
      }
    }
    CanonicalFromParts(p, d, n);
  }

  /** The last separator of `x + "/" + n`, for a name `n`, is the one before `n`. */
  lemma ChildParts(x: string, n: string)
    requires '/' !in n
    ensures LastSep(x + "/" + n) == |x| && Basename(x + "/" + n) == n
    ensures (x + "/" + n)[..|x| + 1] == x + "/"
  {
    var p := x + "/" + n;
    forall j | |x| < j < |p| ensures p[j] != '/' {
      assert p[j] == n[j - |x| - 1];
      assert n[j - |x| - 1] in n;
    }
    LastSepAt(p, |x|);
  }

  /** Below a directory other than the root, `dirname` strips the one separator before the name. */
  lemma DirnameOfChild(d: Path, n: string)
    requires Rooted(d) && d != "/" && '/' !in n
    ensures Dirname(d + "/" + n) == d
  {
    var p := d + "/" + n;
    ChildParts(d, n);
    var head := d + "/";
    assert head[|d| - 1] == d[|d| - 1];
    assert !AllSlashes(head);
    StripOne(d);
  }

  lemma StripOne(d: string)
    requires |d| > 0 && d[|d| - 1] != '/'
    ensures RStripSlashes(d + "/") == d
  {
    assert (d + "/")[..|d|] == d;
  }

  /**
   * Appending a suffix that starts with '_' and holds no separator to a
   * canonical path extends its last component: the result is canonical, has
   * the same dirname and the old basename followed by the suffix.
   */
  lemma AppendSuffix(p: Path, s: string)
    requires Canonical(p) && |s| > 0 && s[0] == '_' && '/' !in s
    ensures Canonical(p + s) && Dirname(p + s) == Dirname(p)
    ensures Basename(p + s) == Basename(p) + s
  {
    CanonicalShape(p);
    HelpersAppend(p, s);
    var q, b, d := p + s, Basename(p), Dirname(p);
    SuffixedName(b, s);
    if p == "/" {
      assert d == "/" && b == "";
      assert Join(d, b + s) == q;
    } else {
      Decompose(p);
      assert b[0] != '/' by { assert b[0] in b; }
      JoinAppend(d, b, s);
      assert Join(d, b) == p;
    }
    CanonicalFromParts(q, d, b + s);
  }

  /** A name followed by a suffix that starts with '_' and holds no separator is a name. */
  lemma SuffixedName(b: string, s: string)
    requires '/' !in b && |s| > 0 && s[0] == '_' && '/' !in s
    ensures IsName(b + s)
  {
    var n := b + s;
    assert n[|b|] == '_';
    forall i | 0 <= i < |n| ensures n[i] != '/' {
      if i < |b| { assert n[i] == b[i]; assert b[i] in b; } else { assert n[i] == s[i - |b|]; assert s[i - |b|] in s; }
    }
  }

  /** A path that is the join of its canonical dirname and its basename, a name, is canonical. */
  lemma CanonicalFromParts(q: Path, d: Path, n: string)
    requires Dirname(q) == d && Basename(q) == n && Canonical(d) && IsName(n) && Join(d, n) == q
    ensures Canonical(q)
  {
  }

  lemma HelpersAppend(p: Path, s: string)
    requires |p| >= 1 && p[0] == '/' && '/' !in s
    ensures Dirname(p + s) == Dirname(p) && Basename(p + s) == Basename(p) + s
  {
    var i := LastSep(p);
    assert LastSep(p + s) == i by {
      assert i >= 0 && (p + s)[i] == '/';
      forall j | i < j < |p + s| ensures (p + s)[j] != '/' {
        if j >= |p| { assert (p + s)[j] == s[j - |p|]; assert s[j - |p|] in s; }
      }
      LastSepAt(p + s, i);
    }
    assert Basename(p + s) == Basename(p) + s by {
      SliceAppend(p, s, i + 1);
    }
    assert Dirname(p + s) == Dirname(p) by {
      SliceAppend(p, s, i + 1);
      DirnameFromHead(p + s, p, i);
    }
  }

  lemma SliceAppend(p: string, s: string, i: nat)
    requires i <= |p|
    ensures (p + s)[i..] == p[i..] + s && (p + s)[..i] == p[..i]
  {
  }

  /** Two strings with the same last separator, at the same place, have the same dirname. */
  lemma DirnameFromHead(a: string, b: string, i: int)
    requires 0 <= i < |a| && i < |b| && LastSep(a) == i && LastSep(b) == i && a[..i + 1] == b[..i + 1]
    ensures Dirname(a) == Dirname(b)
  {
  }

  lemma JoinAppend(d: Path, b: string, s: string)
    requires |b| > 0 && b[0] != '/'
    ensures Join(d, b + s) == Join(d, b) + s
  {
    assert (b + s)[0] == b[0];
    if d == "" || d[|d| - 1] == '/' {
      assert d + (b + s) == (d + b) + s;
    } else {
      assert d + "/" + (b + s) == (d + "/" + b) + s;
    }
  }

  /**
   * The shape every canonical path has: it starts with "/" and, unless it is
   * the root, does not end with one.
   */
  predicate Rooted(q: Path) {
    |q| >= 1 && q[0] == '/' && (q != "/" ==> |q| >= 2 && q[|q| - 1] != '/')
  }

  /** The text a child's path adds after its directory: nothing for the root. */
  function Stem(d: Path): Path {
    if d == "/" then "" else d
  }

  lemma SplitWithin(d: Path, n: string, p: Path)
    requires Rooted(d) && Rooted(p) && '/' !in n
    requires Beneath(Stem(d) + "/" + n, p)
    ensures AtOrBeneath(d, p)
  {
    var k := Stem(d) + "/" + n;
    if d != "/" && p != "/" {
      if |p| < |d| {
        assert d[..|p|] == k[..|p|];
      } else {
        assert d == k[..|d|];
      }
    }
  }

  lemma SplitBeneath(d: Path, n: string, p: Path)
    requires Rooted(d) && Rooted(p) && n != ""
    requires AtOrBeneath(d, p)
    ensures Beneath(Stem(d) + "/" + n, p)
  {
    var k := Stem(d) + "/" + n;
    if d != "/" {
      assert k[..|d|] == d;
      if d != p {
        assert k[..|p|] == d[..|p|];
      }
    }
  }

  /** The parent of a path inside `p` is `p` itself or still inside `p`. */
  lemma DirnameWithin(k: Path, p: Path)
    requires Canonical(k) && Canonical(p) && Beneath(k, p)
    ensures AtOrBeneath(Dirname(k), p)
  {
    CanonicalShape(p);
    Decompose(k);
    CanonicalShape(Dirname(k));
    SplitWithin(Dirname(k), Basename(k), p);
  }

  /** A path whose parent is `p` or inside `p` is itself inside `p`. */
  lemma BeneathParent(k: Path, p: Path)
    requires Canonical(k) && k != "/" && Canonical(p)
    requires AtOrBeneath(Dirname(k), p)
    ensures Beneath(k, p)
  {
    CanonicalShape(p);
    Decompose(k);
    CanonicalShape(Dirname(k));
    SplitBeneath(Dirname(k), Basename(k), p);
  }

  /** A path is inside `p` exactly when its parent is `p` or inside `p`. */
  lemma ParentWithin(k: Path, p: Path)
    requires Canonical(k) && k != "/" && Canonical(p)
    ensures Beneath(k, p) <==> AtOrBeneath(Dirname(k), p)
  {
    if Beneath(k, p) {
      DirnameWithin(k, p);
    }
    if AtOrBeneath(Dirname(k), p) {
      BeneathParent(k, p);
    }
  }

  /** The root lies inside no other canonical path. */
  lemma RootOutside(p: Path)
    requires Canonical(p) && p != "/"
    ensures !AtOrBeneath("/", p)
  {
    CanonicalShape(p);
  }

  /** The part of `k`, strictly inside `src`, that lies below `src`; it starts with a separator. */
  function Below(k: Path, src: Path): (t: Path)
    requires Beneath(k, src)
    ensures |t| >= 1 && t[0] == '/' && k == Stem(src) + t
  {
    k[|Stem(src)|..]
  }

  /** A path made of `src` and a tail starting with a separator lies inside `src`, with that tail below it. */
  lemma BelowOf(k: Path, src: Path, t: Path)
    requires Rooted(src) && |t| >= 2 && t[0] == '/' && k == Stem(src) + t
    ensures Beneath(k, src) && Below(k, src) == t
  {
    if src != "/" {
      assert k[..|src|] == src;
    }
  }

  /**
   * The path that `k`, at or inside `src`, has once `src` is moved or copied
   * to `dst`: `dst` followed by the part of `k` below `src`.
   */
  function Rebase(k: Path, src: Path, dst: Path): Path
    requires AtOrBeneath(k, src)
  {
    if k == src then dst else dst + Below(k, src)
  }

  /** The path at or inside `src` that `Rebase` sends to `y`, when there is one. */
  function Unrebase(y: Path, src: Path, dst: Path): Path {
    if y == dst || |y| < |dst| then src else Stem(src) + y[|dst|..]
  }

  /** `Unrebase` undoes `Rebase`. */
  lemma UnrebaseRebase(k: Path, src: Path, dst: Path)
    requires AtOrBeneath(k, src)
    ensures Unrebase(Rebase(k, src, dst), src, dst) == k
  {
    if k != src {
      var t := Below(k, src);
      assert (dst + t)[|dst|..] == t;
    }
  }

  /**
   * Rebasing keeps a path canonical, puts it inside `dst`, and commutes with
   * taking the parent: the parent of the rebased path is the rebased parent.
   */
  lemma {:induction false} RebaseCanonical(k: Path, src: Path, dst: Path)
    requires Canonical(k) && Canonical(src) && Canonical(dst) && dst != "/"
    requires AtOrBeneath(k, src)
    ensures Canonical(Rebase(k, src, dst)) && AtOrBeneath(Rebase(k, src, dst), dst)
    ensures k != src ==> AtOrBeneath(Dirname(k), src)
    ensures k != src ==> Dirname(Rebase(k, src, dst)) == Rebase(Dirname(k), src, dst)
    ensures k != src ==> Basename(Rebase(k, src, dst)) == Basename(k)
    decreases |k|
  {
    CanonicalShape(k);
    CanonicalShape(src);
    RebaseWithin(k, src, dst);
    if k != src {
      DirnameWithin(k, src);
      Decompose(k);
      RebaseCanonical(Dirname(k), src, dst);
      RebaseStep(k, src, dst);
    }
  }

  /** One step of `RebaseCanonical`: from the rebased parent to the rebased child. */
  lemma RebaseStep(k: Path, src: Path, dst: Path)
    requires Canonical(k) && k != "/" && Canonical(src) && Canonical(dst) && dst != "/"
    requires Beneath(k, src) && AtOrBeneath(Dirname(k), src) && Canonical(Rebase(Dirname(k), src, dst))
    requires AtOrBeneath(Rebase(Dirname(k), src, dst), dst)
    ensures Canonical(Rebase(k, src, dst))
    ensures Dirname(Rebase(k, src, dst)) == Rebase(Dirname(k), src, dst)
    ensures Basename(Rebase(k, src, dst)) == Basename(k)
  {
    RebaseIsJoin(k, src, dst);
    JoinName(Rebase(Dirname(k), src, dst), Basename(k));
  }

  /** Rebasing a path strictly inside `src` is joining its name to its rebased parent. */
  lemma RebaseIsJoin(k: Path, src: Path, dst: Path)
    requires Canonical(k) && k != "/" && Canonical(src) && Canonical(dst) && dst != "/"
    requires Beneath(k, src) && AtOrBeneath(Dirname(k), src) && Canonical(Rebase(Dirname(k), src, dst))
    requires AtOrBeneath(Rebase(Dirname(k), src, dst), dst)
    ensures IsName(Basename(k))
    ensures Rebase(k, src, dst) == Join(Rebase(Dirname(k), src, dst), Basename(k))
  {
    Decompose(k);
    RebaseOfChild(k, src, dst);
    RootOutside(dst);
    JoinOfChild(Rebase(Dirname(k), src, dst), Basename(k));
  }

  lemma RebaseOfChild(k: Path, src: Path, dst: Path)
    requires Canonical(k) && k != "/" && Canonical(src)
    requires Beneath(k, src) && AtOrBeneath(Dirname(k), src)
    ensures Rebase(k, src, dst) == Rebase(Dirname(k), src, dst) + "/" + Basename(k)
  {
    var d, n := Dirname(k), Basename(k);
    Decompose(k);
    CanonicalShape(d);
    CanonicalShape(src);
    RebaseChild(d, n, src, dst);
  }

  lemma JoinOfChild(a: Path, n: string)
    requires Canonical(a) && a != "/" && IsName(n)
    ensures Join(a, n) == a + "/" + n
  {
    CanonicalShape(a);
    assert n[0] != '/' by { assert n[0] in n; }
    JoinChild(a, n);
  }



  lemma JoinChild(a: Path, n: string)
    requires |a| >= 1 && a[|a| - 1] != '/' && |n| > 0 && n[0] != '/'
    ensures Join(a, n) == a + "/" + n
  {
  }

  lemma RebaseWithin(k: Path, src: Path, dst: Path)
    requires AtOrBeneath(k, src)
    ensures AtOrBeneath(Rebase(k, src, dst), dst)
  {
    if k != src {
      var t := Below(k, src);
      assert (dst + t)[..|dst|] == dst;
      assert (dst + t)[|dst|] == t[0];
    }
  }

  lemma RebaseChild(d: Path, n: string, src: Path, dst: Path)
    requires Rooted(d) && Rooted(src) && n != "" && AtOrBeneath(d, src)
    ensures Beneath(Stem(d) + "/" + n, src)
    ensures Rebase(Stem(d) + "/" + n, src, dst) == Rebase(d, src, dst) + "/" + n
  {
    if d == src {
      RebaseOwnChild(n, src, dst);
    } else {
      RebaseGrandchild(d, n, src, dst);
    }
  }

  lemma RebaseOwnChild(n: string, src: Path, dst: Path)
    requires Rooted(src) && n != ""
    ensures Beneath(Stem(src) + "/" + n, src)
    ensures Rebase(Stem(src) + "/" + n, src, dst) == dst + "/" + n
  {
    var t := "/" + n;
    assert Stem(src) + "/" + n == Stem(src) + t;
    BelowOf(Stem(src) + t, src, t);
  }

  lemma RebaseGrandchild(d: Path, n: string, src: Path, dst: Path)
    requires Rooted(d) && Rooted(src) && n != "" && Beneath(d, src)
    ensures Beneath(d + "/" + n, src)
    ensures Rebase(d + "/" + n, src, dst) == Rebase(d, src, dst) + "/" + n
  {
    var k, b := d + "/" + n, Below(d, src);
    assert k == Stem(src) + (b + "/" + n);
    BelowOf(k, src, b + "/" + n);
    assert dst + (b + "/" + n) == dst + b + "/" + n;
  }

  /** Two distinct paths inside `src` stay distinct when rebased. */
  lemma RebaseInjective(k1: Path, k2: Path, src: Path, dst: Path)
    requires AtOrBeneath(k1, src) && AtOrBeneath(k2, src)
    requires Rebase(k1, src, dst) == Rebase(k2, src, dst)
    ensures k1 == k2
  {
    if k1 != src && k2 != src {
      var t1, t2 := Below(k1, src), Below(k2, src);
      assert t1 == (dst + t1)[|dst|..];
      assert t2 == (dst + t2)[|dst|..];
    }
  }

  /** The decimal digits of `n`, as Python's `f"{n}"` writes them. */
  function NatToString(n: nat): (s: string)
    ensures |s| >= 1
    ensures forall i :: 0 <= i < |s| ==> '0' <= s[i] <= '9'
    ensures (|s| == 1) == (n < 10)
    ensures s[0] == '0' ==> n == 0
  {
    var digit := ['0' + (n % 10) as char];
    if n < 10 then digit else NatToString(n / 10) + digit
  }

  /** The number a string of decimal digits denotes, read from left to right. */
  function DecimalValue(s: string): nat
  {
    if s == "" then 0
    else
      var c := s[|s| - 1];
      var d := if '0' <= c <= '9' then (c as int) - ('0' as int) else 0;
      10 * DecimalValue(s[..|s| - 1]) + d
  }

  /** The digits `NatToString` writes denote the number itself. */
  lemma {:induction false} NatToStringValue(n: nat)
    ensures DecimalValue(NatToString(n)) == n
  {
    var s := NatToString(n);
    if n >= 10 {
      assert s[..|s| - 1] == NatToString(n / 10);
      NatToStringValue(n / 10);
    }
  }

  /** Distinct numbers have distinct decimal representations. */
  lemma {:induction false} NatToStringInjective(a: nat, b: nat)
    requires NatToString(a) == NatToString(b)
    ensures a == b
  {
    var s := NatToString(a);
    if a >= 10 && b >= 10 {
      assert s[..|s| - 1] == NatToString(a / 10);
      assert s[..|s| - 1] == NatToString(b / 10);
      NatToStringInjective(a / 10, b / 10);
      assert s[|s| - 1] == '0' + (a % 10) as char;
      assert s[|s| - 1] == '0' + (b % 10) as char;
    }
  }

  /**
   * Python's `path.replace("\\", "/")`, the separator rewriting half of
   * `normalize`: every backslash becomes '/', every other character stays.
   */
  function ForwardSlashes(s: string): (r: string)
    ensures |r| == |s| && '\\' !in r
    ensures forall i :: 0 <= i < |s| ==> r[i] == (if s[i] == '\\' then '/' else s[i])
  {
    if s == "" then ""
    else ForwardSlashes(s[..|s| - 1]) + [if s[|s| - 1] == '\\' then '/' else s[|s| - 1]]
  }

  /** Rewriting the separators a second time changes nothing. */
  lemma ForwardSlashesIdempotent(s: string)
    ensures ForwardSlashes(ForwardSlashes(s)) == ForwardSlashes(s)
  {
    var r := ForwardSlashes(s);
    var rr := ForwardSlashes(r);
    assert forall i :: 0 <= i < |r| ==> rr[i] == r[i] by {
      forall i | 0 <= i < |r| ensures rr[i] == r[i] {
        assert r[i] != '\\' by { assert r[i] in r; }
      }
    }
  }
}
