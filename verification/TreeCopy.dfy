/** The recursive copy of a directory tree inside a guest. The destination may lie inside
    the tree that is copied: it is found by its inode while walking and left alone. It may
    also be that tree, or lie above it. Paths are absolute and resolved; a link met at a place
    the copy is about to write, or a file with other names, is where the model stops, since
    the write then lands elsewhere too. */
module TreeCopy {

  type Path = seq<string>

  /** A directory is told apart from every other by its inode; a file is `linked` when it has
      another name as well. */
  datatype Node =
    | Dir(ino: nat, mode: nat)
    | File(content: seq<nat>, mode: nat, linked: bool)
    | Link(target: string)
    | Special

  type Tree = map<Path, Node>

  /** The mode of a directory made on the way. */
  const DEFAULT_MODE := 0x1ED

  datatype Outcome =
    | Copied
    | Failed
    /** The copy goes on through the link or device at `at`, or into a file with other names. */
    | Through(at: Path)

  /** What is written here does not stay here. */
  predicate LeadsAway(node: Node)
  {
    node.Link? || node.Special? || (node.File? && node.linked)
  }

  predicate Within(p: Path, dir: Path)
  {
    |dir| <= |p| && p[..|dir|] == dir
  }

  function Parent(p: Path): (r: Path)
    requires p != []
    ensures |r| == |p| - 1 && Within(p, r)
  {
    p[..|p| - 1]
  }

  predicate IsDir(f: Tree, p: Path)
  {
    p in f && f[p].Dir?
  }

  /** Everything lies in a directory, and no two directories are the same one. */
  ghost predicate WellFormed(f: Tree)
  {
    && IsDir(f, [])
    && (forall p {:trigger Parent(p)} :: p in f && p != [] ==> IsDir(f, Parent(p)))
    && (forall p, q :: IsDir(f, p) && IsDir(f, q) && f[p].ino == f[q].ino ==> p == q)
  }

  lemma {:induction false} AncestorsAreDirs(f: Tree, p: Path, n: nat)
    requires WellFormed(f) && p in f && n < |p|
    ensures IsDir(f, p[..n])
    decreases |p| - n
  {
    if n + 1 == |p| {
      assert p[..n] == Parent(p);
    } else {
      AncestorsAreDirs(f, p, n + 1);
      assert Parent(p[..n + 1]) == p[..n];
    }
  }

  // ---------------------------------------------------------------------
  // What is copied, and to where
  // ---------------------------------------------------------------------

  function Image(src: Path, dst: Path, p: Path): (r: Path)
    requires Within(p, src)
    ensures Within(r, dst)
  {
    dst + p[|src|..]
  }

  function Origin(src: Path, dst: Path, q: Path): (r: Path)
    requires Within(q, dst)
    ensures Within(r, src)
  {
    src + q[|dst|..]
  }

  /** The tree at `src` without what lies at or below `dst`; all of it when that is `src`. */
  ghost predicate InScope(f: Tree, src: Path, dst: Path, p: Path)
  {
    p in f && Within(p, src) && (src == dst || !Within(p, dst))
  }

  ghost function Scope(f: Tree, src: Path, dst: Path): (r: set<Path>)
  {
    set p | p in f && InScope(f, src, dst, p)
  }

  /** Nothing stands in the way of copying `p` to `q`. */
  predicate Clear(f: Tree, p: Path, q: Path)
    requires p in f
  {
    match f[p]
    case Dir(_, _) => q !in f || f[q].Dir?
    case File(_, _, _) => q !in f || (f[q].File? && !f[q].linked)
    case Link(_) => q !in f || !f[q].Dir?
    case Special => false
  }

  /** Copying `p` to `q` fails outright. */
  predicate FailsAt(f: Tree, p: Path, q: Path)
    requires p in f
  {
    match f[p]
    case Dir(_, _) => q in f && !f[q].Dir? && !f[q].Link?
    case File(_, _, _) => IsDir(f, q)
    case Link(_) => IsDir(f, q)
    case Special => true
  }

  /** Copying `p` to `q` goes on somewhere else, where what stands at `q` leads. */
  predicate AwayAt(f: Tree, p: Path, q: Path)
    requires p in f
  {
    match f[p]
    case Dir(_, _) => q in f && f[q].Link?
    case File(_, _, _) => q in f && LeadsAway(f[q])
    case _ => false
  }

  /** What a copy puts at its place. A file copied `onto` itself is cut off before it is read. */
  function Put(a: Node, onto: bool): (b: Node)
  {
    if a.File? then File(if onto then [] else a.content, a.mode, false) else a
  }

  predicate Alike(a: Node, b: Node)
  {
    match a
    case Dir(_, mode) => b.Dir? && b.mode == mode
    case File(content, mode, _) => b.File? && b.content == content && b.mode == mode
    case _ => a == b
  }

  ghost predicate Same(f: Tree, g: Tree, q: Path)
  {
    (q in f <==> q in g) && (q in f ==> f[q] == g[q])
  }

  predicate ImageOf(src: Path, dst: Path, done: set<Path>, q: Path)
  {
    Within(q, dst) && Origin(src, dst, q) in done
  }

  /** `g` is `f` with the tree at `src` copied to `dst`, and nothing else changed. */
  ghost predicate CopyOf(f: Tree, src: Path, dst: Path, g: Tree)
  {
    && (forall p :: InScope(f, src, dst, p) ==>
          && Image(src, dst, p) in g && Alike(Put(f[p], src == dst), g[Image(src, dst, p)])
          && (f[p].File? ==> !g[Image(src, dst, p)].linked))
    && (forall q :: !ImageOf(src, dst, Scope(f, src, dst), q) ==> Same(f, g, q))
  }

  // ---------------------------------------------------------------------
  // How far a walk has come
  // ---------------------------------------------------------------------

  ghost predicate Below(roots: set<Path>, p: Path)
  {
    exists r :: r in roots && Within(p, r)
  }

  /** Every path of the scope is either done or below exactly one of the roots to come. */
  ghost predicate Covers(f: Tree, src: Path, dst: Path, done: set<Path>, roots: set<Path>)
  {
    && (forall p :: p in done ==> InScope(f, src, dst, p))
    && (forall r :: r in roots ==> InScope(f, src, dst, r))
    && (forall p :: InScope(f, src, dst, p) ==> (p in done <==> !Below(roots, p)))
    && (forall r, s :: r in roots && s in roots && Within(s, r) ==> r == s)
  }

  ghost predicate KidOf(f: Tree, src: Path, dst: Path, s: Path, c: Path)
  {
    InScope(f, src, dst, c) && |c| == |s| + 1 && Within(c, s)
  }

  ghost function Kids(f: Tree, src: Path, dst: Path, s: Path): (r: set<Path>)
  {
    set c | c in f && KidOf(f, src, dst, s, c)
  }

  lemma WithinTrans(a: Path, b: Path, c: Path)
    requires Within(a, b) && Within(b, c)
    ensures Within(a, c)
  {
    assert b[..|c|] == a[..|b|][..|c|] == a[..|c|];
  }

  lemma Longer(p: Path, q: Path)
    requires Within(p, q)
    ensures p == q || |q| < |p|
  {
    assert |p| == |q| ==> p[..|q|] == p;
  }

  lemma WithinBoth(p: Path, a: Path, b: Path)
    requires Within(p, a) && Within(p, b) && |a| <= |b|
    ensures Within(b, a)
  {
    assert b[..|a|] == p[..|b|][..|a|] == p[..|a|];
  }

  /** The way down from `s` to something else of the scope starts with a child of the scope. */
  lemma FirstKid(f: Tree, src: Path, dst: Path, s: Path, p: Path)
    requires WellFormed(f) && InScope(f, src, dst, s) && InScope(f, src, dst, p) && Within(p, s) && p != s
    ensures |s| < |p| && KidOf(f, src, dst, s, p[..|s| + 1]) && Within(p, p[..|s| + 1])
  {
    Longer(p, s);
    var c := p[..|s| + 1];
    assert c[..|s|] == p[..|s|];
    if |c| < |p| {
      AncestorsAreDirs(f, p, |c|);
    } else {
      assert c == p;
    }
    WithinTrans(c, s, src);
    if Within(c, dst) {
      WithinTrans(p, c, dst);
    }
  }

  lemma ExpandSplit(f: Tree, src: Path, dst: Path, done: set<Path>, roots: set<Path>, s: Path, p: Path)
    requires WellFormed(f) && Covers(f, src, dst, done, roots) && s in roots && InScope(f, src, dst, p)
    ensures p in done + {s} <==> !Below(roots - {s} + Kids(f, src, dst, s), p)
  {
    var more := roots - {s} + Kids(f, src, dst, s);
    if p == s {
      forall r | r in more ensures !Within(s, r) {
      }
    } else if Within(p, s) {
      FirstKid(f, src, dst, s, p);
      assert p[..|s| + 1] in more;
      assert Below(more, p);
      assert Below(roots, p);
    } else {
      if Below(roots, p) {
        var r :| r in roots && Within(p, r);
        assert r in more;
      }
      if Below(more, p) {
        var r :| r in more && Within(p, r);
        if r !in roots {
          WithinTrans(p, r, s);
        }
        assert r in roots;
      }
    }
  }

  lemma ExpandApart(f: Tree, src: Path, dst: Path, done: set<Path>, roots: set<Path>, s: Path, a: Path, b: Path)
    requires Covers(f, src, dst, done, roots) && s in roots
    requires a in roots - {s} + Kids(f, src, dst, s) && b in roots - {s} + Kids(f, src, dst, s) && Within(b, a)
    ensures a == b
  {
    if a in roots && a != s {
      if !(b in roots && b != s) {
        if |a| <= |s| {
          WithinBoth(b, a, s);
        } else {
          assert a == b[..|a|] == b;
        }
      }
    } else {
      if b in roots && b != s {
        WithinTrans(b, a, s);
      } else {
        assert a == b[..|a|] == b;
      }
    }
  }

  /** Listing a directory leaves its children to come. */
  lemma Expand(f: Tree, src: Path, dst: Path, done: set<Path>, roots: set<Path>, s: Path)
    requires WellFormed(f) && Covers(f, src, dst, done, roots) && s in roots
    ensures Covers(f, src, dst, done + {s}, roots - {s} + Kids(f, src, dst, s))
    ensures s !in done
  {
    hide Within, WellFormed;
    var more := roots - {s} + Kids(f, src, dst, s);
    assert Within(s, s) by { WithinSelf(s); }
    assert Below(roots, s);
    forall p | InScope(f, src, dst, p) ensures p in done + {s} <==> !Below(more, p) {
      ExpandSplit(f, src, dst, done, roots, s, p);
    }
    forall r, t | r in more && t in more && Within(t, r) ensures r == t {
      ExpandApart(f, src, dst, done, roots, s, r, t);
    }
  }

  lemma WithinSelf(p: Path)
    ensures Within(p, p)
  {
    assert p[..|p|] == p;
  }

  /** What is not a directory is done once it is copied. */
  lemma Leaf(f: Tree, src: Path, dst: Path, done: set<Path>, roots: set<Path>, c: Path)
    requires WellFormed(f) && Covers(f, src, dst, done, roots) && c in roots && !f[c].Dir?
    ensures Covers(f, src, dst, done + {c}, roots - {c}) && c !in done
  {
    Expand(f, src, dst, done, roots, c);
    forall k | k in f && k != [] ensures IsDir(f, Parent(k)) {
    }
    assert Kids(f, src, dst, c) == {};
    assert roots - {c} + {} == roots - {c};
  }

  // ---------------------------------------------------------------------
  // What has been written
  // ---------------------------------------------------------------------

  /** A copy before the modes of directories are set. */
  predicate Drafted(a: Node, b: Node, onto: bool)
  {
    if a.Dir? then b.Dir? else b == Put(a, onto)
  }

  ghost predicate FilledAt(f: Tree, g: Tree, src: Path, dst: Path, p: Path)
    requires InScope(f, src, dst, p)
  {
    var q := Image(src, dst, p);
    q in g && Drafted(f[p], g[q], src == dst) && Clear(f, p, q)
  }

  /** `g` is `f` with the paths of `done` copied and nothing else changed. */
  ghost predicate Filled(f: Tree, g: Tree, src: Path, dst: Path, done: set<Path>)
  {
    && (forall p :: p in done ==> InScope(f, src, dst, p) && FilledAt(f, g, src, dst, p))
    && (forall q :: !ImageOf(src, dst, done, q) ==> Same(f, g, q))
  }

  /** The destination is the source, or the source does not lie there. */
  predicate Tidy(src: Path, dst: Path)
  {
    src == dst || !Within(src, dst)
  }

  /** A walk over `f` that has reached `g`. */
  ghost predicate Walk(f: Tree, g: Tree, src: Path, dst: Path, done: set<Path>, roots: set<Path>)
  {
    && WellFormed(f) && IsDir(f, src) && IsDir(f, dst) && Tidy(src, dst)
    && WellFormed(g) && IsDir(g, dst) && g[dst].ino == f[dst].ino
    && Covers(f, src, dst, done, roots) && Filled(f, g, src, dst, done)
  }

  lemma OriginOfImage(src: Path, dst: Path, p: Path)
    requires Within(p, src)
    ensures Origin(src, dst, Image(src, dst, p)) == p
  {
  }

  lemma OwnImage(src: Path, dst: Path, p: Path)
    requires Within(p, src)
    ensures Image(src, dst, p) == p <==> src == dst
  {
    var rest := p[|src|..];
    assert p == src + rest;
    assert (dst + rest)[..|dst|] == dst && (src + rest)[..|src|] == src;
  }

  lemma ImageOfOrigin(src: Path, dst: Path, q: Path)
    requires Within(q, dst)
    ensures Image(src, dst, Origin(src, dst, q)) == q
  {
  }

  lemma FillOne(f: Tree, g: Tree, h: Tree, src: Path, dst: Path, done: set<Path>, c: Path)
    requires Filled(f, g, src, dst, done) && InScope(f, src, dst, c) && c !in done
    requires FilledAt(f, h, src, dst, c) && forall r :: r != Image(src, dst, c) ==> Same(g, h, r)
    ensures Filled(f, h, src, dst, done + {c})
  {
    var q := Image(src, dst, c);
    forall p | p in done ensures FilledAt(f, h, src, dst, p) {
      OriginOfImage(src, dst, p);
      OriginOfImage(src, dst, c);
      assert Same(g, h, Image(src, dst, p));
    }
    forall r | !ImageOf(src, dst, done + {c}, r) ensures Same(f, h, r) {
      OriginOfImage(src, dst, c);
      assert r != q;
      assert !ImageOf(src, dst, done, r);
      assert Same(f, g, r) && Same(g, h, r);
    }
  }

  /** A root's place at the destination is as it was, and lies in a directory. */
  lemma Place(f: Tree, g: Tree, src: Path, dst: Path, done: set<Path>, roots: set<Path>, c: Path)
    requires Walk(f, g, src, dst, done, roots) && c in roots
    ensures InScope(f, src, dst, c) && Same(f, g, c) && c !in done
    ensures Same(f, g, Image(src, dst, c))
    ensures var q := Image(src, dst, c); q != [] ==> IsDir(g, Parent(q))
  {
    WithinSelf(c);
    assert Below(roots, c);
    OriginOfImage(src, dst, c);
    var q := Image(src, dst, c);
    assert !ImageOf(src, dst, done, q);
    assert src == dst ==> q == c;
    assert !ImageOf(src, dst, done, c);
    if c == src {
      assert q == dst;
    } else {
      ParentIsDone(f, src, dst, done, roots, c);
      ParentOfImage(src, dst, c);
    }
  }

  lemma ParentOfImage(src: Path, dst: Path, c: Path)
    requires Within(c, src) && |src| < |c|
    ensures Within(Parent(c), src) && Image(src, dst, c) != []
    ensures Parent(Image(src, dst, c)) == Image(src, dst, Parent(c))
  {
    var rest := c[|src|..];
    assert Parent(c)[..|src|] == c[..|src|] && Parent(c)[|src|..] == rest[..|rest| - 1];
    assert (dst + rest)[..|dst| + |rest| - 1] == dst + rest[..|rest| - 1];
  }

  lemma ParentIsDone(f: Tree, src: Path, dst: Path, done: set<Path>, roots: set<Path>, c: Path)
    requires WellFormed(f) && Covers(f, src, dst, done, roots) && c in roots && c != src
    ensures |src| < |c| && Parent(c) in done && IsDir(f, Parent(c))
  {
    Longer(c, src);
    var up := Parent(c);
    assert up[..|src|] == c[..|src|];
    assert Within(c, up);
    if Within(up, dst) {
      WithinTrans(c, up, dst);
    }
    if Below(roots, up) {
      var r :| r in roots && Within(up, r);
      WithinTrans(c, up, r);
      assert false;
    }
  }

  /** `p` and what was missing above it are directories now. */
  ghost predicate MadeDirs(f: Tree, p: Path, g: Tree)
  {
    && IsDir(g, p)
    && (forall q :: q in f ==> q in g && g[q] == f[q])
    && (forall q :: q in g && q !in f ==> Within(p, q) && g[q].Dir? && g[q].mode == DEFAULT_MODE)
  }

  lemma DirDone(f: Tree, g: Tree, h: Tree, src: Path, dst: Path, done: set<Path>, roots: set<Path>, s: Path)
    requires Walk(f, g, src, dst, done, roots) && s in roots && f[s].Dir?
    requires WellFormed(h) && MadeDirs(g, Image(src, dst, s), h)
    ensures s !in done && Walk(f, h, src, dst, done + {s}, roots - {s} + Kids(f, src, dst, s))
  {
    hide Covers, Within, Same, Kids, WellFormed, Filled, MadeDirs;
    Place(f, g, src, dst, done, roots, s);
    Expand(f, src, dst, done, roots, s);
    var q := Image(src, dst, s);
    OnlyThatDir(g, q, h);
    assert h[dst] == g[dst];
    DirFilled(f, g, h, src, dst, s);
    FillOne(f, g, h, src, dst, done, s);
  }

  lemma DirFilled(f: Tree, g: Tree, h: Tree, src: Path, dst: Path, s: Path)
    requires InScope(f, src, dst, s) && f[s].Dir? && Same(f, g, Image(src, dst, s))
    requires MadeDirs(g, Image(src, dst, s), h)
    ensures FilledAt(f, h, src, dst, s)
  {
  }

  lemma SoClear(f: Tree, g: Tree, c: Path, q: Path)
    requires c in f && Same(f, g, c) && Same(f, g, q)
    ensures Clear(f, c, q) <==> Clear(g, c, q)
  {
  }

  lemma OnlyThatDir(g: Tree, q: Path, h: Tree)
    requires WellFormed(g) && MadeDirs(g, q, h)
    requires q != [] ==> IsDir(g, Parent(q))
    requires q == [] ==> q in g
    ensures forall r :: r != q ==> Same(g, h, r)
    ensures forall d :: IsDir(g, d) ==> IsDir(h, d) && h[d] == g[d]
  {
    hide WellFormed;
    forall r | r != q ensures Same(g, h, r) {
      if r in h && r !in g {
        OnTheWay(g, q, r);
      }
    }
  }

  lemma OnTheWay(g: Tree, q: Path, r: Path)
    requires WellFormed(g) && Within(q, r) && r != q && q != [] && IsDir(g, Parent(q))
    ensures IsDir(g, r)
  {
    Longer(q, r);
    var up := Parent(q);
    assert up[..|r|] == q[..|r|] == r;
    if |r| < |up| {
      AncestorsAreDirs(g, up, |r|);
    }
  }

  lemma LeafDone(f: Tree, g: Tree, h: Tree, src: Path, dst: Path, done: set<Path>, roots: set<Path>, c: Path)
    requires Walk(f, g, src, dst, done, roots) && c in roots && !f[c].Dir?
    requires c in g && Clear(g, c, Image(src, dst, c))
    requires var q := Image(src, dst, c); h == g[q := Put(g[c], c == q)]
    requires WellFormed(h)
    ensures c !in done && Walk(f, h, src, dst, done + {c}, roots - {c})
  {
    hide Covers, WellFormed, Clear, Filled;
    Place(f, g, src, dst, done, roots, c);
    WithinSelf(src);
    hide Within;
    Leaf(f, src, dst, done, roots, c);
    SoClear(f, g, c, Image(src, dst, c));
    OriginOfImage(src, dst, c);
    OriginOfImage(src, dst, src);
    OwnImage(src, dst, c);
    assert h[dst] == g[dst];
    FillOne(f, g, h, src, dst, done, c);
  }

  // ---------------------------------------------------------------------
  // The file system
  // ---------------------------------------------------------------------

  ghost predicate Obstacle(f: Tree, p: Path, q: Path)
  {
    Within(p, q) && q in f && !f[q].Dir?
  }

  ghost predicate IsListing(f: Tree, s: Path, kids: seq<Path>)
  {
    && (forall c :: c in kids <==> c in f && |c| == |s| + 1 && Within(c, s))
    && (forall i, j :: 0 <= i < j < |kids| ==> kids[i] != kids[j])
  }

  ghost function Roots(stack: seq<(Path, Path)>): (r: set<Path>)
  {
    set e | e in stack :: e.0
  }

  /** Each directory to visit goes with its place at the destination, and is there once. */
  ghost predicate Stacked(g: Tree, src: Path, dst: Path, stack: seq<(Path, Path)>)
  {
    && (forall e :: e in stack ==> IsDir(g, e.0) && Within(e.0, src) && e.1 == Image(src, dst, e.0))
    && (forall i, j :: 0 <= i < j < |stack| ==> stack[i].0 != stack[j].0)
  }

  /** Something of the scope fails outright, or its place leads away. */
  ghost predicate Blocked(f: Tree, src: Path, dst: Path, r: Outcome)
  {
    exists p :: InScope(f, src, dst, p) && BlockedAt(f, src, dst, r, p)
  }

  ghost predicate BlockedAt(f: Tree, src: Path, dst: Path, r: Outcome, p: Path)
    requires InScope(f, src, dst, p)
  {
    var q := Image(src, dst, p);
    match r
    case Copied => false
    case Failed => FailsAt(f, p, q)
    case Through(at) => at == q && AwayAt(f, p, q)
  }

  ghost predicate NoneFails(f: Tree, src: Path, dst: Path)
  {
    forall p :: InScope(f, src, dst, p) ==> !FailsAt(f, p, Image(src, dst, p))
  }

  ghost predicate NoneLeadsAway(f: Tree, src: Path, dst: Path)
  {
    forall p :: InScope(f, src, dst, p) ==> !AwayAt(f, p, Image(src, dst, p))
  }

  /** How a copy ends: it is made whole, keeping to places of its own, exactly when every place
      is clear. Otherwise it ends at a place that fails or at one that leads away. */
  ghost predicate Ends(f: Tree, src: Path, dst: Path, r: Outcome)
  {
    && (r.Copied? <==> AllClear(f, src, dst))
    && (r.Failed? ==> !NoneFails(f, src, dst))
    && (r.Through? ==> exists p :: InScope(f, src, dst, p) && r.at == Image(src, dst, p) && AwayAt(f, p, r.at))
    && (NoneFails(f, src, dst) ==> (r.Through? <==> !NoneLeadsAway(f, src, dst)))
    && (NoneLeadsAway(f, src, dst) ==> (r.Failed? <==> !NoneFails(f, src, dst)))
  }

  /** The directories of `done`, each at its place with the mode it is to get. */
  ghost predicate Lists(f: Tree, src: Path, dst: Path, done: set<Path>, made: seq<(Path, nat)>)
  {
    && (forall p :: p in done ==> InScope(f, src, dst, p))
    && (forall p :: p in done && f[p].Dir? ==> (Image(src, dst, p), f[p].mode) in made)
    && (forall e :: e in made ==> exists p :: p in done && f[p].Dir? && e == (Image(src, dst, p), f[p].mode))
  }

  class FileSystem {
    var nodes: Tree
    var nextIno: nat
    /** What was listed, or read for its content or target. */
    ghost var seen: set<Path>

    ghost predicate Valid()
      reads this
    {
      WellFormed(nodes) && forall p :: IsDir(nodes, p) ==> nodes[p].ino < nextIno
    }

    constructor (start: Tree, next: nat)
      requires WellFormed(start) && forall p :: IsDir(start, p) ==> start[p].ino < next
      ensures Valid() && nodes == start && nextIno == next && seen == {}
    {
      nodes, nextIno, seen := start, next, {};
    }

    method MakeDir(p: Path)
      requires Valid() && p !in nodes && IsDir(nodes, Parent(p))
      modifies `nodes, `nextIno
      ensures Valid() && nodes == old(nodes)[p := Dir(old(nextIno), DEFAULT_MODE)]
    {
      nodes := nodes[p := Dir(nextIno, DEFAULT_MODE)];
      nextIno := nextIno + 1;
    }

    /** Makes a directory and what is missing above it. */
    method MakeDirs(p: Path) returns (r: Outcome)
      requires Valid()
      modifies `nodes, `nextIno
      ensures Valid()
      ensures r.Copied? <==> forall q :: !Obstacle(old(nodes), p, q)
      ensures if r.Copied? then MadeDirs(old(nodes), p, nodes) else nodes == old(nodes)
      ensures match r
              case Copied => true
              case Failed => exists q :: Obstacle(old(nodes), p, q) && !old(nodes)[q].Link?
              case Through(q) => Obstacle(old(nodes), p, q) && old(nodes)[q].Link?
    {
      hide WellFormed;
      var n := 0;
      assert MadeDirs(nodes, p[..0], nodes) by { RootIsDir(nodes); }
      while n < |p|
        invariant n <= |p| && Valid() && MadeDirs(old(nodes), p[..n], nodes)
        decreases |p| - n
      {
        var q := p[..n + 1];
        assert Parent(q) == p[..n];
        if q !in nodes {
          OneMoreDir(old(nodes), q, nodes, Dir(nextIno, DEFAULT_MODE));
          MakeDir(q);
        } else if !nodes[q].Dir? {
          Stuck(old(nodes), p, n, nodes);
          return if nodes[q].Link? then Through(q) else Failed;
        } else {
          OneMoreThere(old(nodes), q, nodes);
        }
        n := n + 1;
      }
      assert p[..|p|] == p;
      NoObstacle(old(nodes), p, nodes);
      return Copied;
    }

    method ReadDir(s: Path) returns (kids: seq<Path>)
      requires Valid() && IsDir(nodes, s)
      modifies `seen
      ensures Valid() && seen == old(seen) + {s}
      ensures IsListing(nodes, s, kids)
    {
      seen := seen + {s};
      kids := [];
      var rest := nodes.Keys;
      while rest != {}
        invariant rest <= nodes.Keys
        invariant forall c :: c in kids <==> c in nodes && c !in rest && |c| == |s| + 1 && Within(c, s)
        invariant forall i, j :: 0 <= i < j < |kids| ==> kids[i] != kids[j]
        decreases rest
      {
        var c :| c in rest;
        rest := rest - {c};
        if |c| == |s| + 1 && Within(c, s) {
          kids := kids + [c];
        }
      }
    }

    /** Copies a file or a link over what a file or a link may replace. */
    method CopyOne(from: Path, to: Path) returns (r: Outcome)
      requires Valid() && from in nodes && !nodes[from].Dir?
      requires to != [] && IsDir(nodes, Parent(to))
      modifies `nodes, `seen
      ensures Valid() && seen == old(seen) + {from}
      ensures r.Copied? <==> Clear(old(nodes), from, to)
      ensures nodes == if r.Copied? then old(nodes)[to := Put(old(nodes)[from], from == to)] else old(nodes)
      ensures r.Failed? <==> FailsAt(old(nodes), from, to)
      ensures r.Through? <==> AwayAt(old(nodes), from, to)
      ensures r.Through? ==> r.at == to
    {
      hide WellFormed;
      seen := seen + {from};
      var node := nodes[from];
      if node.Link? {
        if to in nodes {
          if nodes[to].Dir? {
            return Failed;
          }
          nodes := nodes - {to};
        }
        nodes := nodes[to := node];
        assert nodes == old(nodes)[to := node];
      } else if node.File? {
        if to in nodes && nodes[to].Dir? {
          return Failed;
        }
        if to in nodes && LeadsAway(nodes[to]) {
          return Through(to);
        }
        // The file at `to` is cut off before the one at `from` is read.
        nodes := nodes[to := File([], node.mode, false)];
        if from != to {
          nodes := nodes[to := File(node.content, node.mode, false)];
        }
      } else {
        return Failed;
      }
      assert nodes == old(nodes)[to := nodes[to]];
      Replaced(old(nodes), to, nodes[to]);
      return Copied;
    }

    /** What the copy of a file does at a link that leads to the file at `lead`. */
    method CopyThrough(from: Path, at: Path, lead: Path)
      requires Valid() && from in nodes && nodes[from].File? && at in nodes && nodes[at].Link?
      requires lead in nodes && nodes[lead].File? && !nodes[lead].linked
      modifies `nodes
      ensures Valid() && nodes == old(nodes)[lead := Put(old(nodes)[from], from == lead)]
    {
      hide WellFormed;
      var node := nodes[from];
      nodes := nodes[lead := File(if from == lead then [] else node.content, node.mode, false)];
      assert lead != [] && IsDir(old(nodes), Parent(lead)) by { InADirectory(old(nodes), lead); }
      Replaced(old(nodes), lead, nodes[lead]);
    }

    method SetMode(d: Path, mode: nat)
      requires Valid() && IsDir(nodes, d)
      modifies `nodes
      ensures Valid() && nodes == old(nodes)[d := Dir(old(nodes)[d].ino, mode)]
    {
      nodes := nodes[d := Dir(nodes[d].ino, mode)];
    }

    /** Makes the place for a directory. */
    method Enter(ghost f: Tree, ghost src: Path, ghost dst: Path, s: Path, d: Path,
                 ghost before: set<Path>, ghost roots: set<Path>) returns (r: Outcome)
      requires Valid() && Going(f, nodes, src, dst, before, roots) && s in roots
      requires IsDir(nodes, s) && Within(s, src) && d == Image(src, dst, s)
      modifies `nodes, `nextIno
      ensures Valid() && Grows(old(nodes), nodes)
      ensures if r.Copied?
              then && s !in before && IsDir(nodes, s) && IsDir(nodes, d)
                   && Going(f, nodes, src, dst, before + {s}, roots - {s} + ToCome(f, nodes, src, dst, s))
                   && (roots - {s}) !! ToCome(f, nodes, src, dst, s)
              else Halted(f, nodes, src, dst, r)
    {
      hide Going, WellFormed, Halted, ToCome, Within;
      ghost var g := nodes;
      GoingPlace(f, g, src, dst, before, roots, s);
      r := MakeDirs(d);
      if r.Copied? {
        GoingDir(f, g, nodes, src, dst, before, roots, s);
      } else {
        DirHalts(f, g, src, dst, before, roots, s, r);
      }
    }

    method CopyKid(ghost f: Tree, ghost src: Path, ghost dst: Path, c: Path, to: Path,
                   ghost done: set<Path>, ghost roots: set<Path>) returns (r: Outcome)
      requires Valid() && Going(f, nodes, src, dst, done, roots) && c in roots
      requires c in nodes && !nodes[c].Dir? && Within(c, src) && to == Image(src, dst, c) && to != []
      modifies `nodes, `seen
      ensures Valid() && Grows(old(nodes), nodes) && seen == old(seen) + {c} && c !in done
      ensures if r.Copied?
              then Going(f, nodes, src, dst, done + {c}, roots - {c})
              else Halted(f, nodes, src, dst, r)
    {
      hide Going, WellFormed, Within, Clear, Halted, FailsAt, AwayAt;
      ghost var g := nodes;
      GoingPlace(f, g, src, dst, done, roots, c);
      r := CopyOne(c, to);
      if r.Copied? {
        GoingLeaf(f, g, nodes, src, dst, done, roots, c);
      } else {
        LeafHalts(f, g, src, dst, done, roots, c, r);
      }
    }

    /** Goes through a listing: what is not a directory is copied, directories other than the
        destination go on the stack. */
    method VisitKids(ghost f: Tree, ghost src: Path, ghost dst: Path, dstIno: nat, s: Path, d: Path,
                     kids: seq<Path>, rest: seq<(Path, Path)>, ghost before: set<Path>)
      returns (r: Outcome, stack: seq<(Path, Path)>, count: nat, ghost done: set<Path>)
      requires Valid() && Going(f, nodes, src, dst, before, Roots(rest) + ToCome(f, nodes, src, dst, s))
      requires Roots(rest) !! ToCome(f, nodes, src, dst, s) && Stacked(nodes, src, dst, rest)
      requires IsListing(nodes, s, kids) && Within(s, src) && d == Image(src, dst, s)
      requires Tidy(src, dst) ==> InScope(f, src, dst, s)
      requires IsDir(f, dst) && f[dst].ino == dstIno
      modifies `nodes, `seen
      ensures Valid() && Grows(old(nodes), nodes) && before <= done && ReadsOnly(old(seen), seen, src, dst)
      ensures if r.Copied?
              then && Going(f, nodes, src, dst, done, Roots(stack)) && Stacked(nodes, src, dst, stack)
                   && |done| == |before| + count && (Tidy(src, dst) ==> Leaves(f, done - before))
              else Halted(f, nodes, src, dst, r)
    {
      hide *;
      r, stack, count, done := Copied, rest, 0, before;
      ghost var left := ToCome(f, nodes, src, dst, s);
      ListingIsToCome(f, nodes, src, dst, before, Roots(rest) + left, s, kids);
      StartMidway(f, nodes, src, dst, before, rest, left);
      NothingRead(seen, src, dst);
      GrowsNot(nodes);
      for i := 0 to |kids|
        invariant r.Copied? && Valid() && Remaining(kids, i, dst, left) && Grows(old(nodes), nodes)
        invariant Midway(f, nodes, src, dst, before, done, stack, left)
        invariant |done| == |before| + count && before <= done
        invariant ReadsOnly(old(seen), seen, src, dst)
      {
        var c := kids[i];
        NextKid(old(nodes), s, kids, i, dst, left);
        MidwayKid(f, nodes, src, dst, before, done, stack, left, s, c);
        var to := d + [c[|c| - 1]];
        if nodes[c].Dir? {
          if nodes[c].ino != dstIno {
            PushKid(f, nodes, src, dst, before, done, stack, left, c);
            stack := stack + [(c, to)];
            left := left - {c};
          } else {
            assert left - {c} == left;
          }
        } else {
          ghost var g, read := nodes, seen;
          r := CopyKid(f, src, dst, c, to, done, Roots(stack) + left);
          OneMoreRead(old(seen), read, src, dst, c);
          GrowsOn(old(nodes), g, nodes);
          if !r.Copied? {
            return;
          }
          CopiedKid(f, g, nodes, src, dst, before, done, stack, left, c);
          done, left, count := done + {c}, left - {c}, count + 1;
        }
      }
      NoKidLeft(kids, dst, left);
      EndMidway(f, nodes, src, dst, before, done, stack);
    }

    /** The walk: the stack holds the directories to visit, `made` those whose mode is to be
        set at the end. */
    method WalkTree(ghost f: Tree, src: Path, dst: Path, dstIno: nat)
      returns (r: Outcome, count: nat, made: seq<(Path, nat)>, ghost done: set<Path>)
      requires Valid() && f == nodes && IsDir(f, src) && IsDir(f, dst) && f[dst].ino == dstIno
      modifies this
      ensures Valid() && ReadsOnly(old(seen), seen, src, dst) && OutsideSame(f, nodes, dst)
      ensures if r.Copied?
              then Arrived(f, nodes, src, dst, done, made) && |done| == count && src in seen
              else Halted(f, nodes, src, dst, r)
    {
      hide Going, Halted, WellFormed, Within, Stacked, MadeFor, Arrived, ReadsOnly, Bound, OutsideSame, Grows;
      hide ToCome, Leaves, InScope, Roots, Scope, AllClear, CopyOf, Same, Obstacle, MadeDirs, MayRead, DirIn, Tidy;
      r, count, made, done := Copied, 0, [], {};
      var stack := [(src, dst)];
      StartGoing(f, src, dst);
      NothingRead(seen, src, dst);
      while stack != []
        invariant r.Copied? && Valid() && Going(f, nodes, src, dst, done, Roots(stack))
        invariant Stacked(nodes, src, dst, stack) && |done| == count && MadeFor(f, nodes, src, dst, done, made)
        invariant ReadsOnly(old(seen), seen, src, dst)
        invariant src in seen || stack == [(src, dst)]
        invariant |done| <= |Bound(f, src, dst)|
        decreases |Bound(f, src, dst)| - |done|
      {
        var d, mode, more, n;
        ghost var before, s, read, g := done, stack[|stack| - 1].0, seen, nodes;
        r, d, mode, more, n, done := Visit(f, src, dst, dstIno, stack, done);
        ReadOn(old(seen), read, seen, src, dst);
        if !r.Copied? {
          HaltedOutside(f, nodes, src, dst, r);
          return;
        }
        DoneFits(f, nodes, src, dst, done, Roots(more));
        OneMoreMade(f, g, nodes, src, dst, before, done, s, made, mode);
        made := made + [(d, mode)];
        count := count + n;
        stack := more;
      }
      EndGoing(f, nodes, src, dst, done, made);
    }

    /** Takes a directory off the stack, makes its place and goes through it. */
    method Visit(ghost f: Tree, ghost src: Path, ghost dst: Path, dstIno: nat,
                 stack: seq<(Path, Path)>, ghost before: set<Path>)
      returns (r: Outcome, d: Path, mode: nat, more: seq<(Path, Path)>, count: nat, ghost done: set<Path>)
      requires Valid() && stack != [] && Stacked(nodes, src, dst, stack)
      requires Going(f, nodes, src, dst, before, Roots(stack))
      requires IsDir(f, dst) && f[dst].ino == dstIno
      modifies this
      ensures Valid() && Grows(old(nodes), nodes) && ReadsOnly(old(seen), seen, src, dst)
      ensures var s := stack[|stack| - 1].0;
              if r.Copied?
              then && Going(f, nodes, src, dst, done, Roots(more)) && Stacked(nodes, src, dst, more)
                   && |done| == |before| + count && 0 < count && s in seen
                   && s !in before && before + {s} <= done && Within(s, src) && d == Image(src, dst, s)
                   && IsDir(nodes, d)
                   && (Tidy(src, dst) ==> DirIn(f, src, dst, s, mode) && Leaves(f, done - before - {s}))
              else Halted(f, nodes, src, dst, r)
    {
      hide Going, Halted, WellFormed, Within, Stacked, MadeFor, Arrived, ReadsOnly, Bound, OutsideSame;
      hide ToCome, Leaves, InScope, Roots, Scope, AllClear, CopyOf, Same, Obstacle, MadeDirs, MayRead, Tidy;
      GoingPop(f, nodes, src, dst, before, stack);
      var rest := stack[..|stack| - 1];
      var s := stack[|stack| - 1].0;
      d := stack[|stack| - 1].1;
      mode := nodes[s].mode;
      more, count, done := [], 0, before;
      NothingRead(seen, src, dst);
      r := Enter(f, src, dst, s, d, before, Roots(stack));
      if !r.Copied? {
        return;
      }
      ghost var g, read := nodes, seen;
      var kids := ReadDir(s);
      OneMoreRead(read, read, src, dst, s);
      StackedGrows(old(nodes), nodes, src, dst, rest);
      r, more, count, done := VisitKids(f, src, dst, dstIno, s, d, kids, rest, before + {s});
      ReadOn(read, read + {s}, seen, src, dst);
      GrowsOn(old(nodes), g, nodes);
      count := count + 1;
      assert done - (before + {s}) == done - before - {s};
    }

    /** Modes go last, in the reverse of the order directories were made in. */
    method SetModes(ghost f: Tree, ghost src: Path, ghost dst: Path, ghost done: set<Path>, made: seq<(Path, nat)>)
      requires Valid() && Arrived(f, nodes, src, dst, done, made) && OutsideSame(f, nodes, dst)
      modifies `nodes
      ensures Valid() && OutsideSame(f, nodes, dst) && Arrived(f, nodes, src, dst, done, made)
      ensures ModesSet(nodes, made, 0) || !Tidy(src, dst)
    {
      hide WellFormed, Arrived, ModesSet, OutsideSame;
      var i := |made|;
      assert ModesSet(nodes, made, i) by { NoneSet(nodes, made); }
      while i > 0
        invariant 0 <= i <= |made| && Valid() && Arrived(f, nodes, src, dst, done, made)
        invariant OutsideSame(f, nodes, dst) && (ModesSet(nodes, made, i) || !Tidy(src, dst))
      {
        i := i - 1;
        OneModeSet(f, nodes, src, dst, done, made, i);
        SetMode(made[i].0, made[i].1);
      }
    }

    /** Copies the tree at `src` to `dst`, wherever that lies. `base` is the tree once `dst` is
        there, `read` what the copy lists, and what it reads for its content or target. */
    method CopyTree(src: Path, dst: Path) returns (r: Outcome, count: nat, ghost base: Tree, ghost read: set<Path>)
      requires Valid() && IsDir(nodes, src)
      modifies this
      ensures Valid() && seen == old(seen) + read
      ensures if exists q :: Obstacle(old(nodes), dst, q)
              then && base == old(nodes) && !r.Copied?
                   && (r.Through? <==> exists q :: Obstacle(base, dst, q) && base[q].Link?)
              else MadeDirs(old(nodes), dst, base) && (Tidy(src, dst) ==> Ends(base, src, dst, r))
      ensures r.Copied? && Tidy(src, dst) ==> CopyOf(base, src, dst, nodes) && count == |Scope(base, src, dst)|
      ensures forall q :: !Within(q, dst) ==> Same(base, nodes, q)
      ensures forall p :: p in read ==> Within(p, src) && (Within(src, dst) || !Within(p, dst))
      ensures r.Copied? ==> ((forall p :: p in read ==> !Within(p, dst)) <==> !Within(src, dst))
      ensures r.Through? ==> r.at in nodes && LeadsAway(nodes[r.at]) && (Tidy(src, dst) ==> Same(base, nodes, r.at))
    {
      hide Going, Halted, WellFormed, Within, Stacked, MadeFor, Arrived, ReadsOnly, Bound, OutsideSame, Grows;
      hide ToCome, Leaves, InScope, Roots, Scope, AllClear, CopyOf, Same, MadeDirs, MayRead, DirIn, Tidy, Ends;
      hide LeadsAway;
      ghost var before := seen;
      seen := {};
      read := {};
      r := MakeDirs(dst);
      base, count := nodes, 0;
      if !r.Copied? {
        SameAsItself(base, dst);
        ObstacleDecides(base, dst, r);
        seen := before;
        return;
      }
      KeptDir(old(nodes), dst, base, src);
      var made;
      ghost var done;
      r, count, made, done := WalkTree(base, src, dst, nodes[dst].ino);
      read := seen;
      seen := before + read;
      WhatIsRead(read, src, dst, r.Copied?);
      if r.Copied? {
        SetModes(base, src, dst, done, made);
        CopyIsDone(base, nodes, src, dst, done, made);
        if Tidy(src, dst) {
          ClearEnds(base, src, dst);
        }
      } else {
        HaltedEnds(base, nodes, src, dst, r);
      }
      OutsideIsSame(base, nodes, dst);
    }
  }

  ghost predicate ModesSet(g: Tree, made: seq<(Path, nat)>, i: nat)
  {
    forall j :: i <= j < |made| ==> IsDir(g, made[j].0) && g[made[j].0].mode == made[j].1
  }

  lemma NoneSet(g: Tree, made: seq<(Path, nat)>)
    ensures ModesSet(g, made, |made|)
  {
  }

  /** Setting the mode of a copied directory leaves the copy as it was otherwise. */
  lemma OneModeFilled(f: Tree, g: Tree, src: Path, dst: Path, done: set<Path>, s: Path)
    requires Filled(f, g, src, dst, done) && s in done && f[s].Dir? && IsDir(g, Image(src, dst, s))
    ensures var d := Image(src, dst, s); Filled(f, g[d := Dir(g[d].ino, f[s].mode)], src, dst, done)
  {
    var d := Image(src, dst, s);
    var h := g[d := Dir(g[d].ino, f[s].mode)];
    forall p | p in done ensures FilledAt(f, h, src, dst, p) {
      assert FilledAt(f, g, src, dst, p);
      if p != s {
        assert Image(src, dst, p) != d by { OriginOfImage(src, dst, p); OriginOfImage(src, dst, s); }
      }
    }
    forall q | !ImageOf(src, dst, done, q) ensures Same(f, h, q) {
      assert q != d by { OriginOfImage(src, dst, s); }
      assert Same(f, g, q);
    }
  }

  lemma OneModeLater(f: Tree, g: Tree, src: Path, dst: Path, done: set<Path>, made: seq<(Path, nat)>, i: nat)
    requires Lists(f, src, dst, done, made) && i < |made| && ModesSet(g, made, i + 1) && IsDir(g, made[i].0)
    ensures ModesSet(g[made[i].0 := Dir(g[made[i].0].ino, made[i].1)], made, i)
  {
    hide InScope;
    var s := MadeFrom(f, src, dst, done, made, i);
    forall j | i <= j < |made| && made[j].0 == made[i].0 ensures made[j] == made[i] {
      var t := MadeFrom(f, src, dst, done, made, j);
      assert s == t by { OriginOfImage(src, dst, t); OriginOfImage(src, dst, s); }
    }
  }

  lemma MadeFrom(f: Tree, src: Path, dst: Path, done: set<Path>, made: seq<(Path, nat)>, i: nat) returns (s: Path)
    requires Lists(f, src, dst, done, made) && i < |made|
    ensures s in done && InScope(f, src, dst, s) && f[s].Dir? && made[i] == (Image(src, dst, s), f[s].mode)
  {
    assert made[i] in made;
    s :| s in done && f[s].Dir? && made[i] == (Image(src, dst, s), f[s].mode);
  }

  ghost predicate AllClear(f: Tree, src: Path, dst: Path)
  {
    forall p :: InScope(f, src, dst, p) ==> Clear(f, p, Image(src, dst, p))
  }

  lemma FilledOutside(f: Tree, g: Tree, src: Path, dst: Path, done: set<Path>)
    requires Filled(f, g, src, dst, done)
    ensures forall q :: !Within(q, dst) ==> Same(f, g, q)
  {
    forall q | !Within(q, dst) ensures Same(f, g, q) {
      assert !ImageOf(src, dst, done, q);
    }
  }

  /** What is to be copied is clear, fails outright or leads away, and only one of these. */
  lemma ThreeWays(f: Tree, p: Path, q: Path)
    requires p in f
    ensures Clear(f, p, q) <==> !FailsAt(f, p, q) && !AwayAt(f, p, q)
    ensures !FailsAt(f, p, q) || !AwayAt(f, p, q)
  {
  }

  lemma BlockedEnds(f: Tree, src: Path, dst: Path, r: Outcome)
    requires Blocked(f, src, dst, r)
    ensures Ends(f, src, dst, r)
  {
    hide Clear, FailsAt, AwayAt;
    var p :| InScope(f, src, dst, p) && BlockedAt(f, src, dst, r, p);
    ThreeWays(f, p, Image(src, dst, p));
  }

  lemma ClearEnds(f: Tree, src: Path, dst: Path)
    requires AllClear(f, src, dst)
    ensures Ends(f, src, dst, Copied)
  {
    hide Clear, FailsAt, AwayAt;
    forall p | InScope(f, src, dst, p)
      ensures !FailsAt(f, p, Image(src, dst, p)) && !AwayAt(f, p, Image(src, dst, p))
    {
      ThreeWays(f, p, Image(src, dst, p));
    }
  }

  lemma CopyIsDone(f: Tree, g: Tree, src: Path, dst: Path, done: set<Path>, made: seq<(Path, nat)>)
    requires Arrived(f, g, src, dst, done, made) && (ModesSet(g, made, 0) || !Tidy(src, dst))
    ensures Tidy(src, dst) ==> CopyOf(f, src, dst, g) && AllClear(f, src, dst) && done == Scope(f, src, dst)
  {
    if Tidy(src, dst) {
      forall p | InScope(f, src, dst, p)
        ensures Image(src, dst, p) in g && Alike(Put(f[p], src == dst), g[Image(src, dst, p)])
        ensures f[p].File? ==> !g[Image(src, dst, p)].linked
        ensures Clear(f, p, Image(src, dst, p))
      {
        assert p in done;
        assert FilledAt(f, g, src, dst, p);
        if f[p].Dir? {
          var j :| 0 <= j < |made| && made[j] == (Image(src, dst, p), f[p].mode);
        }
      }
    }
  }

  /** None of these is a directory. */
  ghost predicate Leaves(f: Tree, ps: set<Path>)
  {
    forall p :: p in ps ==> p in f && !f[p].Dir?
  }

  lemma StartWalk(f: Tree, src: Path, dst: Path)
    requires WellFormed(f) && IsDir(f, src) && IsDir(f, dst) && Tidy(src, dst)
    ensures Walk(f, f, src, dst, {}, {src})
  {
    WithinSelf(src);
    forall p | InScope(f, src, dst, p) ensures Below({src}, p) {
    }
  }

  lemma KidIsNoRoot(f: Tree, g: Tree, src: Path, dst: Path, done: set<Path>, roots: set<Path>, s: Path, k: Path)
    requires Walk(f, g, src, dst, done, roots) && s in roots && k in Kids(f, src, dst, s)
    ensures k !in roots
  {
  }

  lemma Smaller(a: set<Path>, b: set<Path>)
    requires a <= b
    ensures |a| <= |b|
  {
    assert b == a + (b - a);
  }

  lemma EndWalk(f: Tree, g: Tree, src: Path, dst: Path, done: set<Path>)
    requires Walk(f, g, src, dst, done, {})
    ensures Filled(f, g, src, dst, done) && done == Scope(f, src, dst)
  {
    forall p | InScope(f, src, dst, p) ensures p in done {
      assert !Below({}, p);
    }
  }

  lemma DirBlocked(f: Tree, g: Tree, src: Path, dst: Path, s: Path, r: Outcome)
    requires WellFormed(g) && InScope(f, src, dst, s) && f[s].Dir?
    requires var d := Image(src, dst, s);
             && Same(f, g, d) && (d != [] ==> IsDir(g, Parent(d)))
             && match r
                case Copied => false
                case Failed => exists q :: Obstacle(g, d, q) && !g[q].Link?
                case Through(q) => Obstacle(g, d, q) && g[q].Link?
    ensures Blocked(f, src, dst, r) && (r.Through? ==> r.at == Image(src, dst, s))
  {
    var d := Image(src, dst, s);
    var q :| Obstacle(g, d, q) && if r.Through? then q == r.at else !g[q].Link?;
    if q != d {
      assert d != [];
      OnTheWay(g, d, q);
    }
    assert BlockedAt(f, src, dst, r, s);
  }

  lemma LeafBlocked(f: Tree, g: Tree, src: Path, dst: Path, c: Path, r: Outcome)
    requires InScope(f, src, dst, c) && Same(f, g, c) && Same(f, g, Image(src, dst, c)) && !f[c].Dir?
    requires var q := Image(src, dst, c);
             match r
             case Copied => false
             case Failed => FailsAt(g, c, q)
             case Through(at) => at == q && AwayAt(g, c, q)
    ensures Blocked(f, src, dst, r)
  {
    assert BlockedAt(f, src, dst, r, c);
  }

  /** The children still to come, from the `i`th of a listing. */
  ghost predicate Remaining(kids: seq<Path>, i: nat, dst: Path, left: set<Path>)
    requires i <= |kids|
  {
    forall c :: c in left <==> c in kids[i..] && c != dst
  }

  lemma NextKid(f: Tree, s: Path, kids: seq<Path>, i: nat, dst: Path, left: set<Path>)
    requires IsListing(f, s, kids) && i < |kids| && Remaining(kids, i, dst, left)
    ensures var c := kids[i];
            && |c| == |s| + 1 && Within(c, s) && (c in left <==> c != dst)
            && Remaining(kids, i + 1, dst, left - {c})
  {
    var c := kids[i];
    assert c in kids;
    assert kids[i..] == [c] + kids[i + 1..];
    assert c !in kids[i + 1..];
  }

  lemma NoKidLeft(kids: seq<Path>, dst: Path, left: set<Path>)
    requires Remaining(kids, |kids|, dst, left)
    ensures left == {}
  {
  }

  lemma ListingIsKids(f: Tree, g: Tree, src: Path, dst: Path, done: set<Path>, roots: set<Path>,
                      s: Path, kids: seq<Path>)
    requires Walk(f, g, src, dst, done, roots) && InScope(f, src, dst, s) && IsListing(g, s, kids)
    ensures Remaining(kids, 0, dst, Kids(f, src, dst, s))
  {
    forall c ensures c in Kids(f, src, dst, s) <==> c in kids && c != dst {
      if |c| == |s| + 1 && Within(c, s) {
        WithinTrans(c, s, src);
        if src == dst {
          assert Origin(src, dst, c) == c == Image(src, dst, c);
          assert c in done ==> FilledAt(f, g, src, dst, c);
          assert c !in done ==> Same(f, g, c);
        } else if Within(c, dst) {
          if |dst| <= |s| {
            WithinBoth(c, dst, s);
            assert false;
          } else {
            assert c == c[..|dst|] == dst;
          }
        } else {
          assert !ImageOf(src, dst, done, c);
          assert Same(f, g, c);
          WithinSelf(c);
        }
      }
    }
  }

  lemma PushRoot(g: Tree, src: Path, dst: Path, stack: seq<(Path, Path)>, c: Path, to: Path)
    requires Stacked(g, src, dst, stack) && c !in Roots(stack)
    requires IsDir(g, c) && Within(c, src) && to == Image(src, dst, c)
    ensures Stacked(g, src, dst, stack + [(c, to)]) && Roots(stack + [(c, to)]) == Roots(stack) + {c}
  {
    var more := stack + [(c, to)];
    assert more[|stack|] == (c, to);
    forall e | e in stack ensures e.0 in Roots(stack) && e in more {
    }
  }

  // ---------------------------------------------------------------------
  // A source below its destination
  // ---------------------------------------------------------------------

  /** Every name in the tree. */
  ghost function NamesIn(f: Tree): (r: set<string>)
  {
    set p, i | p in f && 0 <= i < |p| :: p[i]
  }

  ghost function Deepest(ps: set<Path>): (n: nat)
    ensures forall p :: p in ps ==> |p| <= n
  {
    if ps == {} then 0 else
      var p :| p in ps;
      var n := Deepest(ps - {p});
      assert forall q :: q in ps ==> q == p || q in ps - {p};
      if |p| <= n then n else |p|
  }

  /** The paths of at most `n` of these names. */
  ghost function Words(names: set<string>, n: nat): (r: set<Path>)
  {
    if n == 0 then {[]}
    else Words(names, n - 1) + set w, a | w in Words(names, n - 1) && a in names :: w + [a]
  }

  lemma {:induction false} WordsAre(names: set<string>, n: nat, w: Path)
    ensures w in Words(names, n) <==> |w| <= n && forall i :: 0 <= i < |w| ==> w[i] in names
  {
    if n > 0 {
      WordsAre(names, n - 1, w);
      if w != [] {
        var up, a := w[..|w| - 1], w[|w| - 1];
        WordsAre(names, n - 1, up);
        assert w == up + [a];
        if |w| <= n && forall i :: 0 <= i < |w| ==> w[i] in names {
          assert up in Words(names, n - 1) && a in names;
        }
        forall v, b | v in Words(names, n - 1) && b in names && w == v + [b] ensures v == up && b == a {
          assert (v + [b])[..|v|] == v;
        }
      }
    }
  }

  /** What a walk from `src` can come to see, even of what it makes itself: no path longer than
      the longest there was, and no name that was not there. */
  ghost function Reach(f: Tree, src: Path): (r: set<Path>)
  {
    set w | w in Words(NamesIn(f), Deepest(f.Keys)) :: src + w
  }

  lemma ReachIs(f: Tree, src: Path, p: Path)
    requires Within(p, src)
    ensures p in Reach(f, src) <==> p[|src|..] in Words(NamesIn(f), Deepest(f.Keys))
  {
    var w := p[|src|..];
    assert p == src + w;
    forall v | p == src + v ensures v == w {
      assert (src + v)[|src|..] == v;
    }
  }

  lemma AllInReach(f: Tree, src: Path, p: Path)
    requires p in f && Within(p, src)
    ensures p in Reach(f, src)
  {
    ReachIs(f, src, p);
    var w := p[|src|..];
    forall i | 0 <= i < |w| ensures w[i] in NamesIn(f) {
      assert w[i] == p[|src| + i];
    }
    WordsAre(NamesIn(f), Deepest(f.Keys), w);
  }

  /** What is written above what is read is within reach. */
  lemma ImageInReach(f: Tree, src: Path, dst: Path, c: Path)
    requires Within(src, dst) && Within(c, src) && c in Reach(f, src) && Within(Image(src, dst, c), src)
    ensures Image(src, dst, c) in Reach(f, src)
  {
    var q, w := Image(src, dst, c), c[|src|..];
    ReachIs(f, src, c);
    ReachIs(f, src, q);
    WordsAre(NamesIn(f), Deepest(f.Keys), w);
    var v, n := q[|src|..], |src| - |dst|;
    assert v == w[n..];
    forall i | 0 <= i < |v| ensures v[i] in NamesIn(f) {
      assert v[i] == w[n + i];
    }
    WordsAre(NamesIn(f), Deepest(f.Keys), v);
  }

  ghost predicate OutsideSame(f: Tree, g: Tree, dst: Path)
  {
    forall q :: !Within(q, dst) ==> Same(f, g, q)
  }

  /** A directory to visit was found in one that is done, whose place is there. */
  ghost predicate Found(g: Tree, src: Path, dst: Path, done: set<Path>, r: Path)
  {
    r != [] && Within(Parent(r), src) && Parent(r) in done && IsDir(g, Image(src, dst, Parent(r)))
  }

  ghost predicate Followed(src: Path, done: set<Path>, p: Path)
  {
    p == src || (p != [] && Parent(p) in done)
  }

  /** A walk from below its destination: it may read what it has written, but nothing twice. */
  ghost predicate Loose(f: Tree, g: Tree, src: Path, dst: Path, done: set<Path>, roots: set<Path>)
  {
    && Within(src, dst) && src != dst && IsDir(f, dst)
    && WellFormed(g) && IsDir(g, dst) && g[dst].ino == f[dst].ino && OutsideSame(f, g, dst)
    && (forall q :: q in g && Within(q, src) ==> q in Reach(f, src))
    && (forall p :: p in done ==> p in Reach(f, src) && Followed(src, done, p))
    && (forall r :: r in roots ==> r in g && Within(r, src) && r !in done && (r == src || Found(g, src, dst, done, r)))
  }

  ghost predicate Grows(g: Tree, h: Tree)
  {
    forall p :: IsDir(g, p) ==> IsDir(h, p)
  }

  lemma GrowsNot(g: Tree)
    ensures Grows(g, g)
  {
  }

  lemma GrowsOn(a: Tree, b: Tree, c: Tree)
    requires Grows(a, b) && Grows(b, c)
    ensures Grows(a, c)
  {
  }

  /** Writing at the place of a root keeps the walk. */
  lemma LooseWrite(f: Tree, g: Tree, h: Tree, src: Path, dst: Path, done: set<Path>, roots: set<Path>, c: Path)
    requires Loose(f, g, src, dst, done, roots) && c in roots && WellFormed(h)
    requires Image(src, dst, c) in h && forall r :: r != Image(src, dst, c) ==> Same(g, h, r)
    requires Grows(g, h) && (Image(src, dst, c) == dst ==> h[dst] == g[dst])
    ensures Loose(f, h, src, dst, done, roots)
  {
    hide Reach, WellFormed;
    var q := Image(src, dst, c);
    assert c in Reach(f, src);
    if Within(q, src) {
      ImageInReach(f, src, dst, c);
    }
    forall r | r in h && Within(r, src) ensures r in Reach(f, src) {
      assert r != q ==> Same(g, h, r);
    }
    forall r | !Within(r, dst) ensures Same(f, h, r) {
      assert Same(f, g, r) && Same(g, h, r);
    }
    forall r | r in roots ensures r in h && (r == src || Found(h, src, dst, done, r)) {
      assert r != q ==> Same(g, h, r);
    }
    assert dst != q ==> Same(g, h, dst);
  }

  lemma LooseLeaf(f: Tree, g: Tree, src: Path, dst: Path, done: set<Path>, roots: set<Path>, c: Path)
    requires Loose(f, g, src, dst, done, roots) && c in roots
    ensures Loose(f, g, src, dst, done + {c}, roots - {c})
  {
    hide Reach, WellFormed, Within;
  }

  ghost function KidsNow(g: Tree, s: Path): (r: set<Path>)
  {
    set c | c in g && |c| == |s| + 1 && Within(c, s)
  }

  lemma LooseDir(f: Tree, g: Tree, src: Path, dst: Path, done: set<Path>, roots: set<Path>, s: Path)
    requires Loose(f, g, src, dst, done, roots) && s in roots && IsDir(g, Image(src, dst, s))
    ensures Loose(f, g, src, dst, done + {s}, roots - {s} + KidsNow(g, s))
    ensures (roots - {s}) !! KidsNow(g, s)
  {
    hide Reach, WellFormed;
    forall k | k in KidsNow(g, s)
      ensures Within(k, src) && k !in done && k != s && k !in roots && Found(g, src, dst, done + {s}, k)
    {
      WithinTrans(k, s, src);
      assert Parent(k) == s;
      assert k != src;
    }
  }

  // ---------------------------------------------------------------------
  // Either walk
  // ---------------------------------------------------------------------

  ghost predicate Going(f: Tree, g: Tree, src: Path, dst: Path, done: set<Path>, roots: set<Path>)
  {
    if Tidy(src, dst) then Walk(f, g, src, dst, done, roots) else Loose(f, g, src, dst, done, roots)
  }

  /** What listing `s` leaves to come. */
  ghost function ToCome(f: Tree, g: Tree, src: Path, dst: Path, s: Path): (r: set<Path>)
  {
    if Tidy(src, dst) then Kids(f, src, dst, s) else KidsNow(g, s)
  }

  /** What is read lies in the source, and not in a destination inside it. */
  ghost predicate ReadsOnly(before: set<Path>, after: set<Path>, src: Path, dst: Path)
  {
    before <= after && forall p :: p in after && p !in before ==> MayRead(src, dst, p)
  }

  predicate MayRead(src: Path, dst: Path, p: Path)
  {
    Within(p, src) && (Within(src, dst) || !Within(p, dst))
  }

  lemma NothingRead(seen: set<Path>, src: Path, dst: Path)
    ensures ReadsOnly(seen, seen, src, dst)
  {
  }

  lemma OneMoreRead(before: set<Path>, read: set<Path>, src: Path, dst: Path, p: Path)
    requires ReadsOnly(before, read, src, dst) && MayRead(src, dst, p)
    ensures ReadsOnly(before, read + {p}, src, dst)
  {
  }

  lemma ReadOn(a: set<Path>, b: set<Path>, c: set<Path>, src: Path, dst: Path)
    requires ReadsOnly(a, b, src, dst) && ReadsOnly(b, c, src, dst)
    ensures ReadsOnly(a, c, src, dst) && b <= c
  {
  }

  /** The copy stopped: nothing outside the destination changed, and in a tidy copy something
      could not be copied. Where it would have gone on elsewhere, what leads there stands. */
  ghost predicate Halted(f: Tree, g: Tree, src: Path, dst: Path, r: Outcome)
  {
    && !r.Copied? && OutsideSame(f, g, dst) && (Tidy(src, dst) ==> Blocked(f, src, dst, r))
    && (r.Through? ==> r.at in g && LeadsAway(g[r.at]) && (Tidy(src, dst) ==> Same(f, g, r.at)))
  }

  lemma HaltedOutside(f: Tree, g: Tree, src: Path, dst: Path, r: Outcome)
    requires Halted(f, g, src, dst, r)
    ensures OutsideSame(f, g, dst)
  {
  }

  lemma GoingOutside(f: Tree, g: Tree, src: Path, dst: Path, done: set<Path>, roots: set<Path>)
    requires Going(f, g, src, dst, done, roots)
    ensures OutsideSame(f, g, dst)
  {
    hide Reach, WellFormed;
    if Tidy(src, dst) {
      FilledOutside(f, g, src, dst, done);
    }
  }

  lemma GoingPlace(f: Tree, g: Tree, src: Path, dst: Path, done: set<Path>, roots: set<Path>, c: Path)
    requires Going(f, g, src, dst, done, roots) && c in roots
    ensures c in g && c !in done && Within(c, src)
    ensures var q := Image(src, dst, c); q != [] ==> IsDir(g, Parent(q))
    ensures Tidy(src, dst) ==> InScope(f, src, dst, c) && Same(f, g, c) && Same(f, g, Image(src, dst, c))
    ensures MayRead(src, dst, c)
  {
    hide Reach;
    if Tidy(src, dst) {
      Place(f, g, src, dst, done, roots, c);
    } else {
      var q := Image(src, dst, c);
      if c == src {
        assert q == dst;
      } else {
        Longer(c, src);
        ParentOfImage(src, dst, c);
      }
    }
  }

  lemma GoingDir(f: Tree, g: Tree, h: Tree, src: Path, dst: Path, done: set<Path>, roots: set<Path>, s: Path)
    requires Going(f, g, src, dst, done, roots) && s in roots && IsDir(g, s) && Within(s, src)
    requires WellFormed(g) && WellFormed(h) && MadeDirs(g, Image(src, dst, s), h)
    ensures s !in done && Grows(g, h) && IsDir(h, s) && IsDir(h, Image(src, dst, s))
    ensures Going(f, h, src, dst, done + {s}, roots - {s} + ToCome(f, h, src, dst, s))
    ensures (roots - {s}) !! ToCome(f, h, src, dst, s)
  {
    hide Walk, Loose, WellFormed, Same, Within;
    GoingPlace(f, g, src, dst, done, roots, s);
    assert Grows(g, h) by { DirsStay(g, Image(src, dst, s), h); }
    if Tidy(src, dst) {
      assert f[s].Dir? by { SameKind(f, g, s); }
      DirDone(f, g, h, src, dst, done, roots, s);
      forall k | k in Kids(f, src, dst, s) ensures k !in roots {
        KidIsNoRoot(f, g, src, dst, done, roots, s, k);
      }
    } else {
      var q := Image(src, dst, s);
      LooseRoot(f, g, src, dst, done, roots);
      OnlyThatDir(g, q, h);
      assert q == dst ==> h[dst] == g[dst];
      LooseWrite(f, g, h, src, dst, done, roots, s);
      LooseDir(f, h, src, dst, done, roots, s);
    }
  }

  lemma SameKind(f: Tree, g: Tree, s: Path)
    requires Same(f, g, s) && s in g
    ensures s in f && f[s] == g[s]
  {
  }

  lemma DirsStay(g: Tree, q: Path, h: Tree)
    requires MadeDirs(g, q, h)
    ensures Grows(g, h) && IsDir(h, q)
  {
  }

  lemma LooseRoot(f: Tree, g: Tree, src: Path, dst: Path, done: set<Path>, roots: set<Path>)
    requires Loose(f, g, src, dst, done, roots)
    ensures IsDir(g, dst) && IsDir(g, [])
  {
  }

  lemma GoingLeaf(f: Tree, g: Tree, h: Tree, src: Path, dst: Path, done: set<Path>, roots: set<Path>, c: Path)
    requires Going(f, g, src, dst, done, roots) && c in roots && c in g && !g[c].Dir? && Within(c, src)
    requires var q := Image(src, dst, c); Clear(g, c, q) && h == g[q := Put(g[c], c == q)]
    requires WellFormed(h)
    ensures Grows(g, h) && Going(f, h, src, dst, done + {c}, roots - {c})
  {
    hide Walk, Loose, WellFormed, Within;
    var q := Image(src, dst, c);
    assert Grows(g, h) by { assert !IsDir(g, q); }
    if Tidy(src, dst) {
      GoingPlace(f, g, src, dst, done, roots, c);
      LeafDone(f, g, h, src, dst, done, roots, c);
    } else {
      LooseRoot(f, g, src, dst, done, roots);
      LooseWrite(f, g, h, src, dst, done, roots, c);
      LooseLeaf(f, h, src, dst, done, roots, c);
    }
  }

  lemma DirHalts(f: Tree, g: Tree, src: Path, dst: Path, done: set<Path>, roots: set<Path>, s: Path, r: Outcome)
    requires Going(f, g, src, dst, done, roots) && s in roots && IsDir(g, s) && Within(s, src) && WellFormed(g)
    requires var d := Image(src, dst, s);
             match r
             case Copied => false
             case Failed => exists q :: Obstacle(g, d, q) && !g[q].Link?
             case Through(q) => Obstacle(g, d, q) && g[q].Link?
    ensures Halted(f, g, src, dst, r)
  {
    hide Going, WellFormed, Within, Blocked;
    GoingOutside(f, g, src, dst, done, roots);
    GoingPlace(f, g, src, dst, done, roots, s);
    if Tidy(src, dst) {
      DirBlocked(f, g, src, dst, s, r);
    }
  }

  lemma LeafHalts(f: Tree, g: Tree, src: Path, dst: Path, done: set<Path>, roots: set<Path>, c: Path, r: Outcome)
    requires Going(f, g, src, dst, done, roots) && c in roots && c in g && !g[c].Dir? && Within(c, src)
    requires var q := Image(src, dst, c);
             match r
             case Copied => false
             case Failed => FailsAt(g, c, q)
             case Through(at) => at == q && AwayAt(g, c, q)
    ensures Halted(f, g, src, dst, r)
  {
    hide Going, Within, Blocked;
    GoingOutside(f, g, src, dst, done, roots);
    GoingPlace(f, g, src, dst, done, roots, c);
    if Tidy(src, dst) {
      LeafBlocked(f, g, src, dst, c, r);
    }
  }

  lemma StartGoing(f: Tree, src: Path, dst: Path)
    requires WellFormed(f) && IsDir(f, src) && IsDir(f, dst)
    ensures Going(f, f, src, dst, {}, Roots([(src, dst)])) && Stacked(f, src, dst, [(src, dst)])
    ensures MadeFor(f, f, src, dst, {}, [])
  {
    assert [(src, dst)][0].0 == src;
    assert Roots([(src, dst)]) == {src};
    WithinSelf(src);
    if Tidy(src, dst) {
      StartWalk(f, src, dst);
    } else {
      forall q | q in f && Within(q, src) ensures q in Reach(f, src) {
        AllInReach(f, src, q);
      }
    }
  }

  lemma GoingPop(f: Tree, g: Tree, src: Path, dst: Path, done: set<Path>, stack: seq<(Path, Path)>)
    requires stack != [] && Going(f, g, src, dst, done, Roots(stack)) && Stacked(g, src, dst, stack)
    ensures var (s, d) := stack[|stack| - 1];
            var rest := stack[..|stack| - 1];
            && s in Roots(stack) && Roots(rest) == Roots(stack) - {s} && Stacked(g, src, dst, rest)
            && Within(s, src) && d == Image(src, dst, s) && IsDir(g, s) && MayRead(src, dst, s)
            && (Tidy(src, dst) ==> DirIn(f, src, dst, s, g[s].mode))
  {
    hide Going, Within;
    var e := stack[|stack| - 1];
    var s := e.0;
    var rest := stack[..|stack| - 1];
    assert stack == rest + [e];
    assert e in stack;
    assert s in Roots(stack);
    GoingPlace(f, g, src, dst, done, Roots(stack), s);
    assert s !in Roots(rest);
    forall x | x in rest ensures x in stack && x.0 in Roots(stack) {
    }
    forall r | r in Roots(stack) && r != s ensures r in Roots(rest) {
      var x :| x in stack && x.0 == r;
      assert x in rest;
    }
  }

  ghost predicate DirIn(f: Tree, src: Path, dst: Path, s: Path, mode: nat)
  {
    InScope(f, src, dst, s) && IsDir(f, s) && f[s].mode == mode
  }

  lemma StackedGrows(g: Tree, h: Tree, src: Path, dst: Path, stack: seq<(Path, Path)>)
    requires Stacked(g, src, dst, stack) && Grows(g, h)
    ensures Stacked(h, src, dst, stack)
  {
  }

  lemma ListingIsToCome(f: Tree, g: Tree, src: Path, dst: Path, done: set<Path>, roots: set<Path>,
                        s: Path, kids: seq<Path>)
    requires Going(f, g, src, dst, done, roots) && Within(s, src) && IsListing(g, s, kids)
    requires Tidy(src, dst) ==> InScope(f, src, dst, s)
    ensures Remaining(kids, 0, dst, ToCome(f, g, src, dst, s))
  {
    if Tidy(src, dst) {
      ListingIsKids(f, g, src, dst, done, roots, s, kids);
    } else {
      assert forall c :: c in kids ==> c != dst;
    }
  }

  /** In the middle of a listing: the children left to come are roots too. */
  ghost predicate Midway(f: Tree, g: Tree, src: Path, dst: Path, before: set<Path>, done: set<Path>,
                         stack: seq<(Path, Path)>, left: set<Path>)
  {
    && Going(f, g, src, dst, done, Roots(stack) + left) && Roots(stack) !! left && Stacked(g, src, dst, stack)
    && before <= done && (Tidy(src, dst) ==> Leaves(f, done - before))
  }

  lemma StartMidway(f: Tree, g: Tree, src: Path, dst: Path, done: set<Path>, stack: seq<(Path, Path)>, left: set<Path>)
    requires Going(f, g, src, dst, done, Roots(stack) + left) && Roots(stack) !! left && Stacked(g, src, dst, stack)
    ensures Midway(f, g, src, dst, done, done, stack, left)
  {
  }

  lemma EndMidway(f: Tree, g: Tree, src: Path, dst: Path, before: set<Path>, done: set<Path>, stack: seq<(Path, Path)>)
    requires Midway(f, g, src, dst, before, done, stack, {})
    ensures Going(f, g, src, dst, done, Roots(stack)) && Stacked(g, src, dst, stack)
    ensures before <= done && (Tidy(src, dst) ==> Leaves(f, done - before))
  {
    assert Roots(stack) + {} == Roots(stack);
  }

  lemma MidwayKid(f: Tree, g: Tree, src: Path, dst: Path, before: set<Path>, done: set<Path>,
                  stack: seq<(Path, Path)>, left: set<Path>, s: Path, c: Path)
    requires Midway(f, g, src, dst, before, done, stack, left) && Within(s, src)
    requires |c| == |s| + 1 && Within(c, s) && (c == dst || c in left)
    ensures dst in f && f[dst].Dir? && c in g && (c == dst ==> g[c].Dir?)
    ensures g[c].Dir? ==> (g[c].ino == f[dst].ino <==> c == dst)
    ensures Within(c, src) && Image(src, dst, c) == Image(src, dst, s) + [c[|c| - 1]]
    ensures Going(f, g, src, dst, done, Roots(stack) + left) && before <= done
    ensures c != dst ==> MayRead(src, dst, c)
  {
    hide Covers, Filled, OutsideSame, Stacked, Reach;
    WithinTrans(c, s, src);
    assert c[|src|..] == s[|src|..] + [c[|c| - 1]];
    if c != dst {
      GoingPlace(f, g, src, dst, done, Roots(stack) + left, c);
    }
  }

  lemma PushKid(f: Tree, g: Tree, src: Path, dst: Path, before: set<Path>, done: set<Path>,
                stack: seq<(Path, Path)>, left: set<Path>, c: Path)
    requires Midway(f, g, src, dst, before, done, stack, left) && c in left
    requires Within(c, src) && c in g && g[c].Dir?
    ensures Midway(f, g, src, dst, before, done, stack + [(c, Image(src, dst, c))], left - {c})
  {
    hide Going, Within, Stacked, Roots;
    var more := stack + [(c, Image(src, dst, c))];
    PushRoot(g, src, dst, stack, c, Image(src, dst, c));
    assert Roots(more) + (left - {c}) == Roots(stack) + left;
  }

  lemma CopiedKid(f: Tree, g: Tree, h: Tree, src: Path, dst: Path, before: set<Path>, done: set<Path>,
                  stack: seq<(Path, Path)>, left: set<Path>, c: Path)
    requires Midway(f, g, src, dst, before, done, stack, left) && c in left && Grows(g, h)
    requires Going(f, h, src, dst, done + {c}, Roots(stack) + left - {c}) && c in g && !g[c].Dir?
    ensures Midway(f, h, src, dst, before, done + {c}, stack, left - {c})
  {
    hide Stacked, Roots, Walk, Loose;
    GoingPlace(f, g, src, dst, done, Roots(stack) + left, c);
    StackedGrows(g, h, src, dst, stack);
    assert Roots(stack) + left - {c} == Roots(stack) + (left - {c});
  }

  /** The directories made, each in its place, and in a tidy copy with the mode it is to get. */
  ghost predicate MadeFor(f: Tree, g: Tree, src: Path, dst: Path, done: set<Path>, made: seq<(Path, nat)>)
  {
    (forall e :: e in made ==> IsDir(g, e.0) && Within(e.0, dst)) && (Tidy(src, dst) ==> Lists(f, src, dst, done, made))
  }

  lemma OneMoreMade(f: Tree, g: Tree, h: Tree, src: Path, dst: Path, before: set<Path>, done: set<Path>, s: Path,
                    made: seq<(Path, nat)>, mode: nat)
    requires MadeFor(f, g, src, dst, before, made) && Grows(g, h) && Within(s, src) && IsDir(h, Image(src, dst, s))
    requires before + {s} <= done
    requires Tidy(src, dst) ==> DirIn(f, src, dst, s, mode) && Leaves(f, done - before - {s})
    requires Tidy(src, dst) ==> forall p :: p in done ==> InScope(f, src, dst, p)
    ensures MadeFor(f, h, src, dst, done, made + [(Image(src, dst, s), mode)])
  {
    hide Lists, Within;
    if Tidy(src, dst) {
      OneMoreListed(f, src, dst, before, done, s, made);
    }
  }

  lemma OneMoreListed(f: Tree, src: Path, dst: Path, before: set<Path>, done: set<Path>, s: Path,
                      made: seq<(Path, nat)>)
    requires Lists(f, src, dst, before, made) && before + {s} <= done && Leaves(f, done - before - {s})
    requires InScope(f, src, dst, s) && IsDir(f, s) && forall p :: p in done ==> InScope(f, src, dst, p)
    ensures Lists(f, src, dst, done, made + [(Image(src, dst, s), f[s].mode)])
  {
    var more := made + [(Image(src, dst, s), f[s].mode)];
    assert more[|made|] == (Image(src, dst, s), f[s].mode);
    forall p | p in done && f[p].Dir? ensures (Image(src, dst, p), f[p].mode) in more {
      assert p in before || p == s;
    }
    forall e | e in more ensures exists p :: p in done && f[p].Dir? && e == (Image(src, dst, p), f[p].mode) {
      if e in made {
        var p :| p in before && f[p].Dir? && e == (Image(src, dst, p), f[p].mode);
        assert p in done;
      }
    }
  }

  /** What a walk can come to do at all. */
  ghost function Bound(f: Tree, src: Path, dst: Path): (r: set<Path>)
  {
    if Tidy(src, dst) then Scope(f, src, dst) else Reach(f, src)
  }

  lemma DoneFits(f: Tree, g: Tree, src: Path, dst: Path, done: set<Path>, roots: set<Path>)
    requires Going(f, g, src, dst, done, roots)
    ensures |done| <= |Bound(f, src, dst)|
    ensures Tidy(src, dst) ==> forall p :: p in done ==> InScope(f, src, dst, p)
  {
    hide Reach;
    assert done <= Bound(f, src, dst);
    Smaller(done, Bound(f, src, dst));
  }

  /** The walk is over; in a tidy copy everything is copied. */
  ghost predicate Arrived(f: Tree, g: Tree, src: Path, dst: Path, done: set<Path>, made: seq<(Path, nat)>)
  {
    && MadeFor(f, g, src, dst, done, made)
    && (Tidy(src, dst) ==> Filled(f, g, src, dst, done) && done == Scope(f, src, dst))
  }

  lemma EndGoing(f: Tree, g: Tree, src: Path, dst: Path, done: set<Path>, made: seq<(Path, nat)>)
    requires Going(f, g, src, dst, done, Roots([])) && MadeFor(f, g, src, dst, done, made)
    ensures Arrived(f, g, src, dst, done, made) && OutsideSame(f, g, dst)
  {
    hide MadeFor;
    assert Roots([]) == {};
    GoingOutside(f, g, src, dst, done, {});
    if Tidy(src, dst) {
      EndWalk(f, g, src, dst, done);
    }
  }

  lemma OneModeSet(f: Tree, g: Tree, src: Path, dst: Path, done: set<Path>, made: seq<(Path, nat)>, i: nat)
    requires Arrived(f, g, src, dst, done, made) && OutsideSame(f, g, dst) && i < |made|
    requires ModesSet(g, made, i + 1) || !Tidy(src, dst)
    ensures IsDir(g, made[i].0)
    ensures var h := g[made[i].0 := Dir(g[made[i].0].ino, made[i].1)];
            && Arrived(f, h, src, dst, done, made) && OutsideSame(f, h, dst)
            && (ModesSet(h, made, i) || !Tidy(src, dst))
  {
    hide Filled, Lists, ModesSet;
    assert made[i] in made;
    if Tidy(src, dst) {
      var s := MadeFrom(f, src, dst, done, made, i);
      OneModeFilled(f, g, src, dst, done, s);
      OneModeLater(f, g, src, dst, done, made, i);
    }
  }

  lemma HaltedEnds(f: Tree, g: Tree, src: Path, dst: Path, r: Outcome)
    requires Halted(f, g, src, dst, r)
    ensures !r.Copied? && (Tidy(src, dst) ==> Ends(f, src, dst, r))
    ensures r.Through? ==> r.at in g && LeadsAway(g[r.at]) && (Tidy(src, dst) ==> Same(f, g, r.at))
  {
    if Tidy(src, dst) {
      BlockedEnds(f, src, dst, r);
    }
  }

  /** At most one thing stands in the way of a directory: nothing lies below what is none. */
  lemma OneObstacle(f: Tree, p: Path, a: Path, b: Path)
    requires WellFormed(f) && Obstacle(f, p, a) && Obstacle(f, p, b)
    ensures a == b
  {
    assert a == p[..|a|] && b == p[..|b|];
    if |a| < |b| {
      assert b[..|a|] == a;
      AncestorsAreDirs(f, b, |a|);
    } else if |b| < |a| {
      assert a[..|b|] == b;
      AncestorsAreDirs(f, a, |b|);
    }
  }

  lemma ObstacleDecides(f: Tree, p: Path, r: Outcome)
    requires WellFormed(f)
    requires match r
             case Copied => false
             case Failed => exists q :: Obstacle(f, p, q) && !f[q].Link?
             case Through(q) => Obstacle(f, p, q) && f[q].Link?
    ensures r.Through? <==> exists q :: Obstacle(f, p, q) && f[q].Link?
    ensures r.Through? ==> r.at in f && LeadsAway(f[r.at]) && Same(f, f, r.at)
  {
    if r.Failed? {
      var a :| Obstacle(f, p, a) && !f[a].Link?;
      forall q | Obstacle(f, p, q) ensures !f[q].Link? {
        OneObstacle(f, p, a, q);
      }
    }
  }

  lemma OutsideIsSame(f: Tree, g: Tree, dst: Path)
    requires OutsideSame(f, g, dst)
    ensures forall q :: !Within(q, dst) ==> Same(f, g, q)
  {
  }

  lemma SameAsItself(f: Tree, dst: Path)
    ensures forall q :: !Within(q, dst) ==> Same(f, f, q)
  {
  }

  lemma KeptDir(f: Tree, dst: Path, g: Tree, src: Path)
    requires MadeDirs(f, dst, g) && IsDir(f, src)
    ensures IsDir(g, src) && IsDir(g, dst)
  {
  }

  /** Nothing below the destination is read exactly when the source is not there. */
  lemma WhatIsRead(read: set<Path>, src: Path, dst: Path, whole: bool)
    requires ReadsOnly({}, read, src, dst) && (whole ==> src in read)
    ensures forall p :: p in read ==> Within(p, src) && (Within(src, dst) || !Within(p, dst))
    ensures whole ==> ((forall p :: p in read ==> !Within(p, dst)) <==> !Within(src, dst))
  {
  }

  // ---------------------------------------------------------------------
  // What a copy amounts to
  // ---------------------------------------------------------------------

  /** Nothing lies below `dst`. */
  ghost predicate Bare(f: Tree, dst: Path)
  {
    forall q :: q in f && Within(q, dst) ==> q == dst
  }

  /** In a bare destination stands exactly the tree that was copied. */
  lemma BareDestinationHoldsTheTree(f: Tree, src: Path, dst: Path, g: Tree, q: Path)
    requires CopyOf(f, src, dst, g) && Bare(f, dst) && IsDir(f, src) && !Within(src, dst) && Within(q, dst)
    ensures q in g <==> InScope(f, src, dst, Origin(src, dst, q))
    ensures q in g ==> Alike(f[Origin(src, dst, q)], g[q])
  {
    var p := Origin(src, dst, q);
    ImageOfOrigin(src, dst, q);
    WithinSelf(src);
    assert q == dst ==> p == src;
    if !InScope(f, src, dst, p) {
      assert !ImageOf(src, dst, Scope(f, src, dst), q);
    }
  }

  /** Copying a copy back changes nothing. */
  lemma CopyingBackChangesNothing(f: Tree, src: Path, dst: Path, g: Tree, h: Tree, p: Path)
    requires IsDir(f, src) && !Within(src, dst) && !Within(dst, src) && Bare(f, dst)
    requires CopyOf(f, src, dst, g) && CopyOf(g, dst, src, h)
    ensures p in h <==> p in g
    ensures p in g ==> Alike(g[p], h[p])
  {
    if ImageOf(dst, src, Scope(g, dst, src), p) {
      var q := Origin(dst, src, p);
      ImageOfOrigin(dst, src, p);
      BareDestinationHoldsTheTree(f, src, dst, g, q);
      OriginOfImage(dst, src, q);
      assert Origin(src, dst, q) == p;
      assert !Within(p, dst);
      assert Same(f, g, p);
    } else {
      assert Same(g, h, p);
    }
  }

  /** A tree copied onto itself keeps its shape and its modes, and every file in it is empty. */
  lemma CopyOntoItself(f: Tree, src: Path, g: Tree, p: Path)
    requires CopyOf(f, src, src, g)
    ensures p in g <==> p in f
    ensures p in f && Within(p, src) && f[p].File? ==> g[p].File? && g[p].content == [] && g[p].mode == f[p].mode
    ensures p in f && !(Within(p, src) && f[p].File?) ==> Alike(f[p], g[p])
  {
    if Within(p, src) {
      OwnImage(src, src, p);
      ImageOfOrigin(src, src, p);
      if p !in f {
        assert !ImageOf(src, src, Scope(f, src, src), p);
        assert Same(f, g, p);
      }
    } else {
      assert Same(f, g, p);
    }
  }

  /** A copy onto itself fails only at a device; the model stops at a file with another name. */
  lemma OntoItselfIsClear(f: Tree, src: Path)
    ensures AllClear(f, src, src) <==>
            forall p :: p in f && Within(p, src) ==> !f[p].Special? && !(f[p].File? && f[p].linked)
  {
    forall p | p in f && Within(p, src)
      ensures InScope(f, src, src, p) && Image(src, src, p) == p
      ensures Clear(f, p, p) <==> !f[p].Special? && !(f[p].File? && f[p].linked)
    {
      OwnImage(src, src, p);
    }
  }

  /** A directory that holds one file, copied onto itself. */
  method CopyOneFileOntoItself(content: seq<nat>) returns (r: Outcome, count: nat, left: seq<nat>)
    ensures r.Copied? && count == 2 && left == []
  {
    hide WellFormed, Obstacle, MadeDirs, AllClear, Scope, CopyOf, Same, InScope;
    var start: Tree := map[[] := Dir(0, DEFAULT_MODE), ["a"] := Dir(1, DEFAULT_MODE),
                           ["a", "b"] := File(content, 0x1A4, false)];
    OneFileTree(start, content);
    var disk := new FileSystem(start, 2);
    ghost var base, read;
    r, count, base, read := disk.CopyTree(["a"], ["a"]);
    NothingMade(start, ["a"], base);
    CopyOntoItself(start, ["a"], disk.nodes, ["a", "b"]);
    left := disk.nodes[["a", "b"]].content;
  }

  lemma InADirectory(f: Tree, p: Path)
    requires WellFormed(f) && p in f && !f[p].Dir?
    ensures p != [] && IsDir(f, Parent(p))
  {
  }

  /** A directory that holds one file, copied over one that holds a link of the same name: the
      copy goes through the link, and when that leads to the file `e`, the content lands there. */
  method CopyThroughALink(content: seq<nat>, other: seq<nat>) returns (r: Outcome, outside: seq<nat>)
    ensures r == Through(["c", "b"]) && outside == content && !Within(["e"], ["c"])
  {
    hide WellFormed, Obstacle, MadeDirs, Ends, CopyOf, InScope, AllClear, Scope, Within;
    var start: Tree := map[[] := Dir(0, DEFAULT_MODE), ["a"] := Dir(1, DEFAULT_MODE), ["c"] := Dir(2, DEFAULT_MODE),
                           ["a", "b"] := File(content, 0x1A4, false), ["c", "b"] := Link("../e"),
                           ["e"] := File(other, 0x1A4, false)];
    LinkTree(start, content, other);
    var disk := new FileSystem(start, 3);
    var count;
    ghost var base, read;
    r, count, base, read := disk.CopyTree(["a"], ["c"]);
    NothingMade(start, ["c"], base);
    LinkTreeEnds(start, content, other, r);
    assert Same(start, disk.nodes, ["a", "b"]) && Same(start, disk.nodes, ["e"]);
    disk.CopyThrough(["a", "b"], ["c", "b"], ["e"]);
    outside := disk.nodes[["e"]].content;
  }

  lemma NothingMade(f: Tree, p: Path, g: Tree)
    requires WellFormed(f) && IsDir(f, p)
    ensures (forall q :: !Obstacle(f, p, q)) && (MadeDirs(f, p, g) ==> g == f)
  {
    forall q | Within(p, q) ensures IsDir(f, q) {
      if |q| < |p| {
        AncestorsAreDirs(f, p, |q|);
      } else {
        assert p[..|q|] == p;
      }
    }
  }

  lemma OneFileTree(f: Tree, content: seq<nat>)
    requires f == map[[] := Dir(0, DEFAULT_MODE), ["a"] := Dir(1, DEFAULT_MODE),
                      ["a", "b"] := File(content, 0x1A4, false)]
    ensures WellFormed(f) && forall p :: IsDir(f, p) ==> f[p].ino < 2
    ensures AllClear(f, ["a"], ["a"]) && |Scope(f, ["a"], ["a"])| == 2
  {
    assert Parent(["a"]) == [] && Parent(["a", "b"]) == ["a"];
    OntoItselfIsClear(f, ["a"]);
    assert Scope(f, ["a"], ["a"]) == {["a"], ["a", "b"]};
  }

  ghost predicate IsLinkTree(f: Tree, content: seq<nat>, other: seq<nat>)
  {
    f == map[[] := Dir(0, DEFAULT_MODE), ["a"] := Dir(1, DEFAULT_MODE), ["c"] := Dir(2, DEFAULT_MODE),
             ["a", "b"] := File(content, 0x1A4, false), ["c", "b"] := Link("../e"),
             ["e"] := File(other, 0x1A4, false)]
  }

  lemma LinkTree(f: Tree, content: seq<nat>, other: seq<nat>)
    requires IsLinkTree(f, content, other)
    ensures WellFormed(f) && forall p :: IsDir(f, p) ==> f[p].ino < 3
    ensures !Within(["e"], ["c"]) && !Within(["a", "b"], ["c"]) && Tidy(["a"], ["c"])
  {
    assert ["e"][..1][0] != "c" && ["a", "b"][..1][0] != "c" && ["a"][..1][0] != "c";
    assert Parent(["a"]) == [] && Parent(["c"]) == [] && Parent(["e"]) == [];
    assert Parent(["a", "b"]) == ["a"] && Parent(["c", "b"]) == ["c"];
  }

  lemma LinkTreeEnds(f: Tree, content: seq<nat>, other: seq<nat>, r: Outcome)
    requires IsLinkTree(f, content, other) && Ends(f, ["a"], ["c"], r)
    ensures r == Through(["c", "b"])
  {
    assert forall p :: InScope(f, ["a"], ["c"], p) <==> p == ["a"] || p == ["a", "b"];
    assert Image(["a"], ["c"], ["a"]) == ["c"] && Image(["a"], ["c"], ["a", "b"]) == ["c", "b"];
    assert AwayAt(f, ["a", "b"], ["c", "b"]);
    assert !AwayAt(f, ["a"], ["c"]);
  }

  lemma RootIsDir(f: Tree)
    requires WellFormed(f)
    ensures MadeDirs(f, [], f)
  {
  }

  lemma OneMoreDir(f: Tree, q: Path, g: Tree, d: Node)
    requires q != [] && MadeDirs(f, Parent(q), g) && q !in g && d.Dir? && d.mode == DEFAULT_MODE
    ensures MadeDirs(f, q, g[q := d])
  {
    WithinSelf(q);
    forall r | r in g && r !in f ensures Within(q, r) {
      WithinTrans(q, Parent(q), r);
    }
  }

  lemma OneMoreThere(f: Tree, q: Path, g: Tree)
    requires q != [] && MadeDirs(f, Parent(q), g) && IsDir(g, q)
    ensures MadeDirs(f, q, g)
  {
    forall r | r in g && r !in f ensures Within(q, r) {
      WithinTrans(q, Parent(q), r);
    }
  }

  lemma NoObstacle(f: Tree, p: Path, g: Tree)
    requires WellFormed(g) && MadeDirs(f, p, g)
    ensures forall q :: !Obstacle(f, p, q)
  {
    forall q | Within(p, q) && q in f ensures f[q].Dir? {
      Longer(p, q);
      if |q| < |p| {
        AncestorsAreDirs(g, p, |q|);
      }
    }
  }

  /** Nothing was made above what is in the way. */
  lemma Stuck(f: Tree, p: Path, n: nat, g: Tree)
    requires WellFormed(f) && n < |p| && MadeDirs(f, p[..n], g)
    requires p[..n + 1] in g && !g[p[..n + 1]].Dir?
    ensures f == g && Obstacle(f, p, p[..n + 1])
  {
    var q := p[..n + 1];
    assert q in f;
    forall r | r in g ensures r in f {
      if r !in f {
        assert r == p[..n][..|r|] == q[..|r|];
        AncestorsAreDirs(f, q, |r|);
      }
    }
    assert f.Keys == g.Keys;
  }

  /** What is not a directory can stand where none is, in a directory. */
  lemma Replaced(f: Tree, to: Path, node: Node)
    requires WellFormed(f) && to != [] && IsDir(f, Parent(to)) && !IsDir(f, to) && !node.Dir?
    ensures WellFormed(f[to := node])
  {
    var g := f[to := node];
    forall p | IsDir(g, p) ensures IsDir(f, p) {
    }
    forall p | p in g && p != [] ensures IsDir(g, Parent(p)) {
      assert IsDir(f, Parent(p));
    }
  }
}
