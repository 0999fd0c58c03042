/** The directory tree `os.walk` reads, as a value, with what the file system
    answers about each entry; the records a pruning top-down walk makes of
    it; and the measure that makes such a walk terminate. */
module DirTree {
  import opened PyPath

  /** A file as its directory lists it: its name, whether it carries the
      hidden or system attribute, and whether `os.access` allows reading it. */
  datatype FileNode = FileNode(name: string, attrHidden: bool, accessible: bool)

  /** A directory as its parent lists it, with its own listing: the
      subdirectories and the files, in the order `os.scandir` gives. A
      directory that cannot be listed has empty lists. */
  datatype DirNode = DirNode(name: string, attrHidden: bool, accessible: bool, dirs: seq<DirNode>, files: seq<FileNode>)

  /** One directory still to be visited, with its path. */
  datatype Frame = Frame(path: string, dir: DirNode)

  /** The number of directories in the tree. */
  function Size(d: DirNode): nat
    decreases d, |d.dirs| + 1
  {
    1 + SizeAll(d, |d.dirs|)
  }

  /** The number of directories under the first `n` subdirectories. */
  function SizeAll(d: DirNode, n: nat): nat
    requires n <= |d.dirs|
    decreases d, n
  {
    if n == 0 then 0 else SizeAll(d, n - 1) + Size(d.dirs[n - 1])
  }

  /** The number of directories the frames still hold. */
  function FramesSize(fs: seq<Frame>): nat
  {
    if fs == [] then 0 else Size(fs[0].dir) + FramesSize(fs[1..])
  }

  lemma {:induction false} FramesSizeAppend(a: seq<Frame>, b: seq<Frame>)
    ensures FramesSize(a + b) == FramesSize(a) + FramesSize(b)
  {
    if a == [] {
      assert a + b == b;
    } else {
      assert (a + b)[0] == a[0] && (a + b)[1..] == a[1..] + b;
      FramesSizeAppend(a[1..], b);
    }
  }

  lemma FramesSizeSnoc(a: seq<Frame>, f: Frame)
    ensures FramesSize(a + [f]) == FramesSize(a) + Size(f.dir)
  {
    FramesSizeAppend(a, [f]);
    assert [f][1..] == [];
  }

  /** A name a directory listing can hold: non-empty, without a '/'. */
  predicate ListedName(name: string) { name != [] && '/' !in name }

  /** Every name in the tree is one a real listing can hold. */
  ghost predicate WellNamed(d: DirNode)
    decreases d, |d.dirs| + 1
  {
    && ListedName(d.name)
    && (forall i | 0 <= i < |d.files| :: ListedName(d.files[i].name))
    && (forall i | 0 <= i < |d.dirs| :: WellNamedBelow(d, i))
  }

  ghost predicate WellNamedBelow(d: DirNode, i: nat)
    requires i < |d.dirs|
    decreases d, i
  {
    WellNamed(d.dirs[i])
  }

  // ---------------------------------------------------------------------
  // Filtering loops

  /** `rec(x)` for each `x` of `xs` that `keep` admits, in order: what a loop
      that skips by `continue` and appends otherwise produces. */
  function Filtered<T, U>(keep: T -> bool, rec: T -> U, xs: seq<T>): seq<U>
  {
    if xs == [] then []
    else
      var x := xs[|xs| - 1];
      Filtered(keep, rec, xs[..|xs| - 1]) + (if keep(x) then [rec(x)] else [])
  }

  lemma FilteredSnoc<T, U>(keep: T -> bool, rec: T -> U, xs: seq<T>, j: nat)
    requires j < |xs|
    ensures Filtered(keep, rec, xs[..j + 1]) == Filtered(keep, rec, xs[..j]) + (if keep(xs[j]) then [rec(xs[j])] else [])
  {
    assert xs[..j + 1][..j] == xs[..j];
  }

  /** What a filtering loop appends is exactly the records of the elements
      it admits. */
  lemma {:induction false} FilteredIff<T, U>(keep: T -> bool, rec: T -> U, xs: seq<T>, y: U)
    ensures y in Filtered(keep, rec, xs) <==> exists i | 0 <= i < |xs| :: keep(xs[i]) && y == rec(xs[i])
  {
    if xs != [] {
      var init := xs[..|xs| - 1];
      FilteredIff(keep, rec, init, y);
      if exists i | 0 <= i < |xs| :: keep(xs[i]) && y == rec(xs[i]) {
        var i :| 0 <= i < |xs| && keep(xs[i]) && y == rec(xs[i]);
        if i < |init| {
          assert init[i] == xs[i];
        }
      }
      if exists i | 0 <= i < |init| :: keep(init[i]) && y == rec(init[i]) {
        var i :| 0 <= i < |init| && keep(init[i]) && y == rec(init[i]);
        assert init[i] == xs[i];
      }
    }
  }

  /** `f(x)` for each `x` of `xs`, concatenated in order: what a loop that
      extends a list by each element's contribution produces. */
  function Flat<T, U>(f: T -> seq<U>, xs: seq<T>): seq<U>
  {
    if xs == [] then [] else Flat(f, xs[..|xs| - 1]) + f(xs[|xs| - 1])
  }

  lemma FlatSnoc<T, U>(f: T -> seq<U>, xs: seq<T>, j: nat)
    requires j < |xs|
    ensures Flat(f, xs[..j + 1]) == Flat(f, xs[..j]) + f(xs[j])
  {
    assert xs[..j + 1][..j] == xs[..j];
  }

  /** Something is in the concatenation iff one of the elements contributes it. */
  lemma {:induction false} FlatIff<T, U>(f: T -> seq<U>, xs: seq<T>, y: U)
    ensures y in Flat(f, xs) <==> exists i | 0 <= i < |xs| :: y in f(xs[i])
  {
    if xs != [] {
      var init := xs[..|xs| - 1];
      FlatIff(f, init, y);
      if exists i | 0 <= i < |xs| :: y in f(xs[i]) {
        var i :| 0 <= i < |xs| && y in f(xs[i]);
        if i < |init| {
          assert init[i] == xs[i];
        }
      }
      if exists i | 0 <= i < |init| :: y in f(init[i]) {
        var i :| 0 <= i < |init| && y in f(init[i]);
        assert init[i] == xs[i];
      }
    }
  }

  // ---------------------------------------------------------------------
  // A top-down walk that prunes

  /** The subdirectories of a directory at `root` that `keep` admits, each
      with its path: the list a top-down walk goes on with. */
  function KeptFrames(keep: (string, DirNode) -> bool, root: string, ds: seq<DirNode>): seq<Frame>
  {
    Filtered((c: DirNode) => keep(Join(root, c.name), c), (c: DirNode) => Frame(Join(root, c.name), c), ds)
  }

  /** The records of a top-down walk from `d` at `path` that records
      `own(p, x)` at each directory `x` it visits, at path `p`, and descends
      only into the subdirectories `keep` admits: first the directory's own
      records, then the walks of the admitted subdirectories, in order. */
  function TopDown<U>(keep: (string, DirNode) -> bool, own: (string, DirNode) -> seq<U>, path: string, d: DirNode): seq<U>
    decreases d, |d.dirs| + 1
  {
    own(path, d) + TopDownBelow(keep, own, path, d, |d.dirs|)
  }

  /** The walks of the admitted ones among the first `n` subdirectories. */
  function TopDownBelow<U>(keep: (string, DirNode) -> bool, own: (string, DirNode) -> seq<U>, path: string, d: DirNode, n: nat): seq<U>
    requires n <= |d.dirs|
    decreases d, n
  {
    if n == 0 then []
    else
      var c := d.dirs[n - 1];
      var p := Join(path, c.name);
      TopDownBelow(keep, own, path, d, n - 1) + (if keep(p, c) then TopDown(keep, own, p, c) else [])
  }

  /** What the directories still to be visited add, next one first. */
  function Pending<U>(keep: (string, DirNode) -> bool, own: (string, DirNode) -> seq<U>, fs: seq<Frame>): seq<U>
  {
    if fs == [] then [] else TopDown(keep, own, fs[0].path, fs[0].dir) + Pending(keep, own, fs[1..])
  }

  lemma KeptFramesStep(keep: (string, DirNode) -> bool, root: string, ds: seq<DirNode>, j: nat)
    requires j < |ds|
    ensures var c := ds[j]; var p := Join(root, c.name);
      KeptFrames(keep, root, ds[..j + 1]) == KeptFrames(keep, root, ds[..j]) + (if keep(p, c) then [Frame(p, c)] else [])
  {
    FilteredSnoc((c: DirNode) => keep(Join(root, c.name), c), (c: DirNode) => Frame(Join(root, c.name), c), ds, j);
  }

  lemma {:induction false} PendingAppend<U>(keep: (string, DirNode) -> bool, own: (string, DirNode) -> seq<U>, a: seq<Frame>, b: seq<Frame>)
    ensures Pending(keep, own, a + b) == Pending(keep, own, a) + Pending(keep, own, b)
  {
    if a == [] {
      assert a + b == b;
    } else {
      assert (a + b)[0] == a[0] && (a + b)[1..] == a[1..] + b;
      PendingAppend(keep, own, a[1..], b);
    }
  }

  /** The admitted subdirectories, walked one after another, give the walks
      below the directory. */
  lemma {:induction false} PendingOfKept<U>(keep: (string, DirNode) -> bool, own: (string, DirNode) -> seq<U>, path: string, d: DirNode, n: nat)
    requires n <= |d.dirs|
    ensures Pending(keep, own, KeptFrames(keep, path, d.dirs[..n])) == TopDownBelow(keep, own, path, d, n)
  {
    if n > 0 {
      var c := d.dirs[n - 1];
      var p := Join(path, c.name);
      KeptFramesStep(keep, path, d.dirs, n - 1);
      PendingOfKept(keep, own, path, d, n - 1);
      var init := KeptFrames(keep, path, d.dirs[..n - 1]);
      if keep(p, c) {
        PendingAppend(keep, own, init, [Frame(p, c)]);
        assert Pending(keep, own, [Frame(p, c)]) == TopDown(keep, own, p, c) + [];
      } else {
        assert init + [] == init;
      }
    }
  }

  lemma {:induction false} KeptFramesSize(keep: (string, DirNode) -> bool, path: string, d: DirNode, n: nat)
    requires n <= |d.dirs|
    ensures FramesSize(KeptFrames(keep, path, d.dirs[..n])) <= SizeAll(d, n)
  {
    if n > 0 {
      var c := d.dirs[n - 1];
      KeptFramesStep(keep, path, d.dirs, n - 1);
      KeptFramesSize(keep, path, d, n - 1);
      var init := KeptFrames(keep, path, d.dirs[..n - 1]);
      if keep(Join(path, c.name), c) {
        FramesSizeSnoc(init, Frame(Join(path, c.name), c));
      } else {
        assert init + [] == init;
      }
    }
  }

  /** Replacing the next directory by its admitted subdirectories moves its
      own records out of the pending part and leaves fewer directories to
      visit. */
  lemma WalkStep<U>(keep: (string, DirNode) -> bool, own: (string, DirNode) -> seq<U>, stack: seq<Frame>)
    requires stack != []
    ensures var p, d := stack[0].path, stack[0].dir;
      Pending(keep, own, stack) == own(p, d) + Pending(keep, own, KeptFrames(keep, p, d.dirs) + stack[1..])
    ensures var p, d := stack[0].path, stack[0].dir;
      FramesSize(KeptFrames(keep, p, d.dirs) + stack[1..]) < FramesSize(stack)
  {
    var p, d := stack[0].path, stack[0].dir;
    var allowed := KeptFrames(keep, p, d.dirs);
    assert d.dirs[..|d.dirs|] == d.dirs;
    PendingOfKept(keep, own, p, d, |d.dirs|);
    KeptFramesSize(keep, p, d, |d.dirs|);
    PendingAppend(keep, own, allowed, stack[1..]);
    FramesSizeAppend(allowed, stack[1..]);
  }

  /** Pruning: a record of a walk is one of the directory's own records, or
      a record of the walk of a subdirectory `keep` admits. Nothing below a
      subdirectory it refuses is recorded. */
  lemma WalkFrom<U>(keep: (string, DirNode) -> bool, own: (string, DirNode) -> seq<U>, path: string, d: DirNode, g: U)
    requires g in TopDown(keep, own, path, d)
    ensures || g in own(path, d)
            || exists i | 0 <= i < |d.dirs| ::
                 keep(Join(path, d.dirs[i].name), d.dirs[i]) && g in TopDown(keep, own, Join(path, d.dirs[i].name), d.dirs[i])
  {
    if g !in own(path, d) {
      WalkBelowFrom(keep, own, path, d, |d.dirs|, g);
    }
  }

  lemma {:induction false} WalkBelowFrom<U>(keep: (string, DirNode) -> bool, own: (string, DirNode) -> seq<U>, path: string, d: DirNode, n: nat, g: U)
    requires n <= |d.dirs| && g in TopDownBelow(keep, own, path, d, n)
    ensures exists i | 0 <= i < n ::
      keep(Join(path, d.dirs[i].name), d.dirs[i]) && g in TopDown(keep, own, Join(path, d.dirs[i].name), d.dirs[i])
  {
    var c := d.dirs[n - 1];
    var p := Join(path, c.name);
    if g in TopDownBelow(keep, own, path, d, n - 1) {
      WalkBelowFrom(keep, own, path, d, n - 1, g);
    } else {
      assert keep(p, c) && g in TopDown(keep, own, p, c);
    }
  }

  /** `ok` holds of every record the walk would make at every directory of
      the tree, pruned or not. */
  ghost predicate OwnAll<U>(own: (string, DirNode) -> seq<U>, ok: U -> bool, path: string, d: DirNode)
    decreases d, |d.dirs| + 1
  {
    && (forall g | g in own(path, d) :: ok(g))
    && (forall i | 0 <= i < |d.dirs| :: OwnAllBelow(own, ok, path, d, i))
  }

  ghost predicate OwnAllBelow<U>(own: (string, DirNode) -> seq<U>, ok: U -> bool, path: string, d: DirNode, i: nat)
    requires i < |d.dirs|
    decreases d, i
  {
    OwnAll(own, ok, Join(path, d.dirs[i].name), d.dirs[i])
  }

  /** What holds of every record made at every directory holds of the walk. */
  lemma {:induction false} WalkAll<U>(keep: (string, DirNode) -> bool, own: (string, DirNode) -> seq<U>, ok: U -> bool, path: string, d: DirNode)
    requires OwnAll(own, ok, path, d)
    ensures forall g | g in TopDown(keep, own, path, d) :: ok(g)
    decreases d, |d.dirs| + 1
  {
    WalkBelowAll(keep, own, ok, path, d, |d.dirs|);
  }

  lemma {:induction false} WalkBelowAll<U>(keep: (string, DirNode) -> bool, own: (string, DirNode) -> seq<U>, ok: U -> bool, path: string, d: DirNode, n: nat)
    requires OwnAll(own, ok, path, d) && n <= |d.dirs|
    ensures forall g | g in TopDownBelow(keep, own, path, d, n) :: ok(g)
    decreases d, n
  {
    if n > 0 {
      var c := d.dirs[n - 1];
      var p := Join(path, c.name);
      WalkBelowAll(keep, own, ok, path, d, n - 1);
      assert OwnAllBelow(own, ok, path, d, n - 1);
      WalkAll(keep, own, ok, p, c);
    }
  }

  /** The directory `x` at path `p` is visited by the walk from `d` at
      `path`: it is `d` itself, or lies within a subdirectory `keep` admits. */
  ghost predicate Within(keep: (string, DirNode) -> bool, path: string, d: DirNode, p: string, x: DirNode)
    decreases d
  {
    || (p == path && x == d)
    || exists i | 0 <= i < |d.dirs| ::
         keep(Join(path, d.dirs[i].name), d.dirs[i]) && Within(keep, Join(path, d.dirs[i].name), d.dirs[i], p, x)
  }

  /** The walk of an admitted subdirectory is part of the walk. */
  lemma {:induction false} WalkIncludes<U>(keep: (string, DirNode) -> bool, own: (string, DirNode) -> seq<U>, path: string, d: DirNode, n: nat, i: nat, g: U)
    requires i < n <= |d.dirs|
    requires keep(Join(path, d.dirs[i].name), d.dirs[i]) && g in TopDown(keep, own, Join(path, d.dirs[i].name), d.dirs[i])
    ensures g in TopDownBelow(keep, own, path, d, n)
  {
    if i < n - 1 {
      WalkIncludes(keep, own, path, d, n - 1, i, g);
    }
  }

  /** Every record made at a visited directory is a record of the walk. */
  lemma {:induction false} WalkComplete<U>(keep: (string, DirNode) -> bool, own: (string, DirNode) -> seq<U>, path: string, d: DirNode, p: string, x: DirNode, g: U)
    requires Within(keep, path, d, p, x) && g in own(p, x)
    ensures g in TopDown(keep, own, path, d)
    decreases d
  {
    if !(p == path && x == d) {
      var i :| 0 <= i < |d.dirs| && keep(Join(path, d.dirs[i].name), d.dirs[i])
        && Within(keep, Join(path, d.dirs[i].name), d.dirs[i], p, x);
      WalkComplete(keep, own, Join(path, d.dirs[i].name), d.dirs[i], p, x, g);
      WalkIncludes(keep, own, path, d, |d.dirs|, i, g);
    }
  }

  /** Every record of the walk was made at a visited directory. */
  lemma {:induction false} WalkSound<U>(keep: (string, DirNode) -> bool, own: (string, DirNode) -> seq<U>, path: string, d: DirNode, g: U)
    requires g in TopDown(keep, own, path, d)
    ensures exists p, x :: Within(keep, path, d, p, x) && g in own(p, x)
    decreases d
  {
    WalkFrom(keep, own, path, d, g);
    if g !in own(path, d) {
      var i :| 0 <= i < |d.dirs| && keep(Join(path, d.dirs[i].name), d.dirs[i])
        && g in TopDown(keep, own, Join(path, d.dirs[i].name), d.dirs[i]);
      var c := d.dirs[i];
      WalkSound(keep, own, Join(path, c.name), c, g);
      var p, x :| Within(keep, Join(path, c.name), c, p, x) && g in own(p, x);
      assert Within(keep, path, d, p, x);
    } else {
      assert Within(keep, path, d, path, d);
    }
  }

  /** A walk that starts at a `dead` path, where every path below a dead one
      is dead and the directories at dead paths contribute nothing, gives
      nothing. */
  lemma {:induction false} WalkSilent<U>(keep: (string, DirNode) -> bool, own: (string, DirNode) -> seq<U>,
                                         dead: string -> bool, path: string, d: DirNode)
    requires dead(path) && WellNamed(d)
    requires forall p, x :: dead(p) ==> own(p, x) == []
    requires forall p, n :: dead(p) && ListedName(n) ==> dead(Join(p, n))
    ensures TopDown(keep, own, path, d) == []
    decreases d, |d.dirs| + 1
  {
    assert own(path, d) == [];
    WalkBelowSilent(keep, own, dead, path, d, |d.dirs|);
  }

  lemma {:induction false} WalkBelowSilent<U>(keep: (string, DirNode) -> bool, own: (string, DirNode) -> seq<U>,
                                              dead: string -> bool, path: string, d: DirNode, n: nat)
    requires dead(path) && WellNamed(d) && n <= |d.dirs|
    requires forall p, x :: dead(p) ==> own(p, x) == []
    requires forall p, n :: dead(p) && ListedName(n) ==> dead(Join(p, n))
    ensures TopDownBelow(keep, own, path, d, n) == []
    decreases d, n
  {
    if n > 0 {
      var c := d.dirs[n - 1];
      WalkBelowSilent(keep, own, dead, path, d, n - 1);
      assert WellNamedBelow(d, n - 1);
      assert WellNamed(c) && ListedName(c.name);
      WalkSilent(keep, own, dead, Join(path, c.name), c);
    }
  }

  lemma ConcatAssoc<T>(a: seq<T>, b: seq<T>, c: seq<T>)
    ensures a + b + c == a + (b + c)
  {
  }
}
