/**
 * The directory tree as a value: which inodes there are, what each directory names, and the link counts
 * (kernel/fs/ext2/directoryController.c).
 */
module Namespace {
  import opened Volumes
  import opened DirBlock

  const ROOT: nat := 2   // ROOT_INODE_N

  type Dir = map<Name, nat>

  datatype Ns = Ns(kinds: map<nat, Kind>, links: map<nat, int>, dirs: map<nat, Dir>)

  /** The live entries naming inode n: the directory and the name. */
  ghost function Refs(s: Ns, n: nat): set<(nat, Name)> {
    set d, x | d in s.dirs && x in s.dirs[d] && s.dirs[d][x] == n :: (d, x)
  }

  /** Each link count is the number of entries naming the inode. */
  ghost predicate LinksExact(s: Ns) {
    s.links.Keys == s.kinds.Keys && forall n :: n in s.links ==> s.links[n] == |Refs(s, n)|
  }

  /** Entries name live inodes only. */
  ghost predicate EntriesLive(s: Ns) {
    forall d, x :: d in s.dirs && x in s.dirs[d] ==> s.dirs[d][x] in s.kinds
  }

  /** Name x of directory d now stands for n. */
  ghost function Bind(s: Ns, d: nat, x: Name, n: nat): Ns
    requires d in s.dirs
  {
    var dir: Dir := s.dirs[d][x := n];
    s.(dirs := s.dirs[d := dir])
  }

  ghost function Unbind(s: Ns, d: nat, x: Name): Ns
    requires d in s.dirs
  {
    var dir: Dir := s.dirs[d] - {x};
    s.(dirs := s.dirs[d := dir])
  }

  ghost function Count(s: Ns, n: nat, delta: int): Ns
    requires n in s.links
  {
    s.(links := s.links[n := s.links[n] + delta])
  }

  lemma RefsBind(s: Ns, d: nat, x: Name, n: nat, m: nat)
    requires d in s.dirs
    ensures Refs(Bind(s, d, x, n), m) == Refs(s, m) - {(d, x)} + (if m == n then {(d, x)} else {})
  {
    var s' := Bind(s, d, x, n);
    forall r | r in Refs(s', m) ensures r in Refs(s, m) - {(d, x)} + (if m == n then {(d, x)} else {}) {}
    forall r | r in Refs(s, m) - {(d, x)} + (if m == n then {(d, x)} else {}) ensures r in Refs(s', m) {
      if r == (d, x) { assert s'.dirs[d][x] == n; }
    }
  }

  lemma RefsUnbind(s: Ns, d: nat, x: Name, m: nat)
    requires d in s.dirs
    ensures Refs(Unbind(s, d, x), m) == Refs(s, m) - {(d, x)}
  {
    var s' := Unbind(s, d, x);
    forall r | r in Refs(s', m) ensures r in Refs(s, m) - {(d, x)} {}
    forall r | r in Refs(s, m) - {(d, x)} ensures r in Refs(s', m) {}
  }

  /** dir_insert keeps link counts exact. */
  lemma LinkAdded(s: Ns, d: nat, x: Name, n: nat)
    requires LinksExact(s) && d in s.dirs && x !in s.dirs[d] && n in s.links
    ensures LinksExact(Count(Bind(s, d, x, n), n, 1))
  {
    var s' := Count(Bind(s, d, x, n), n, 1);
    forall m | m in s'.links ensures s'.links[m] == |Refs(s', m)| {
      RefsBind(s, d, x, n, m);
      assert Refs(s', m) == Refs(Bind(s, d, x, n), m);
      assert (d, x) !in Refs(s, m);
      assert Refs(s, m) - {(d, x)} == Refs(s, m);
    }
  }

  /** dir_remove keeps link counts exact. */
  lemma LinkDropped(s: Ns, d: nat, x: Name)
    requires LinksExact(s) && d in s.dirs && x in s.dirs[d] && s.dirs[d][x] in s.links
    ensures LinksExact(Count(Unbind(s, d, x), s.dirs[d][x], -1))
  {
    var n := s.dirs[d][x];
    var s' := Count(Unbind(s, d, x), n, -1);
    assert (d, x) in Refs(s, n);
    forall m | m in s'.links ensures s'.links[m] == |Refs(s', m)| {
      RefsUnbind(s, d, x, m);
      assert Refs(s', m) == Refs(Unbind(s, d, x), m);
      if m != n {
        assert (d, x) !in Refs(s, m);
        assert Refs(s, m) - {(d, x)} == Refs(s, m);
      }
    }
  }

  /** Pointing an entry elsewhere and moving one link count over keeps them exact. */
  lemma LinkMoved(s: Ns, d: nat, x: Name, n: nat)
    requires LinksExact(s) && d in s.dirs && x in s.dirs[d] && s.dirs[d][x] in s.links && n in s.links
    ensures LinksExact(Count(Count(Bind(s, d, x, n), s.dirs[d][x], -1), n, 1))
  {
    hide Refs;
    var o := s.dirs[d][x];
    var s1 := Bind(s, d, x, n);
    var s' := Count(Count(s1, o, -1), n, 1);
    forall m | m in s'.links ensures s'.links[m] == |Refs(s', m)| {
      RefsDirs(s1, s', m);
      MovedRefs(s, d, x, n, m);
      assert s.links[m] == |Refs(s, m)|;
    }
  }

  lemma RefsDirs(s: Ns, s': Ns, m: nat)
    requires s'.dirs == s.dirs
    ensures Refs(s', m) == Refs(s, m)
  {
  }

  lemma MovedRefs(s: Ns, d: nat, x: Name, n: nat, m: nat)
    requires d in s.dirs && x in s.dirs[d]
    ensures |Refs(Bind(s, d, x, n), m)| == |Refs(s, m)| - (if m == s.dirs[d][x] then 1 else 0) + (if m == n then 1 else 0)
  {
    RefsBind(s, d, x, n, m);
    assert (d, x) in Refs(s, m) <==> m == s.dirs[d][x];
    hide Refs;
    var rest := Refs(s, m) - {(d, x)};
    if m != s.dirs[d][x] { assert rest == Refs(s, m); }
  }

  /** A new inode that nothing names yet. */
  ghost function Create(s: Ns, n: nat, kind: Kind): Ns {
    Ns(s.kinds[n := kind], s.links[n := 0], if kind == Directory then s.dirs[n := map[]] else s.dirs)
  }

  lemma RefsCreate(s: Ns, n: nat, kind: Kind, m: nat)
    requires n !in s.dirs
    ensures Refs(Create(s, n, kind), m) == Refs(s, m)
  {
    var s' := Create(s, n, kind);
    forall r | r in Refs(s', m) ensures r in Refs(s, m) {
      assert r.0 != n;
    }
    forall r | r in Refs(s, m) ensures r in Refs(s', m) {}
  }

  lemma LinkCreated(s: Ns, n: nat, kind: Kind)
    requires LinksExact(s) && n !in s.kinds && n !in s.dirs && EntriesLive(s)
    ensures LinksExact(Create(s, n, kind))
  {
    hide Refs;
    var s' := Create(s, n, kind);
    forall m | m in s'.links ensures s'.links[m] == |Refs(s', m)| {
      RefsCreate(s, n, kind, m);
      if m == n { Unnamed(s, n); }
    }
  }

  lemma Unnamed(s: Ns, n: nat)
    requires EntriesLive(s) && n !in s.kinds
    ensures Refs(s, n) == {}
  {
  }

  /** An inode that nothing names any more goes away. */
  ghost function Destroy(s: Ns, n: nat): Ns {
    Ns(s.kinds - {n}, s.links - {n}, s.dirs - {n})
  }

  lemma LinkDestroyed(s: Ns, n: nat)
    requires LinksExact(s) && (n in s.dirs ==> s.dirs[n] == map[])
    ensures LinksExact(Destroy(s, n))
  {
    var s' := Destroy(s, n);
    forall m | m in s'.links ensures s'.links[m] == |Refs(s', m)| {
      assert Refs(s', m) == Refs(s, m);
    }
  }

  // ----- the shape of the tree

  /** The inode under name x in directory d; 0 is none. */
  ghost function Ent(s: Ns, d: nat, x: Name): nat {
    if d in s.dirs && x in s.dirs[d] then s.dirs[d][x] else 0
  }

  /** The directories are the live inodes of that type, and entries name live inodes. */
  ghost predicate Closed(s: Ns) {
    && 0 !in s.kinds && (forall n :: n in s.dirs <==> n in s.kinds && s.kinds[n] == Directory)
    && EntriesLive(s)
  }

  predicate IsDot(x: Name) {
    x == DOT || x == DOTDOT
  }

  /** What ".." says. */
  ghost function Parent(s: Ns, d: nat): nat {
    Ent(s, d, DOTDOT)
  }

  /** Name x of directory d is a subdirectory. */
  ghost predicate Subdir(s: Ns, d: nat, x: Name) {
    !IsDot(x) && Ent(s, d, x) in s.dirs
  }

  /** Following ".." from d reaches the root in at most k steps. */
  ghost predicate Climbs(s: Ns, d: nat, k: nat)
    decreases k
  {
    d == 2 || (k > 0 && Climbs(s, Parent(s, d), k - 1))
  }

  /** Every directory has "." and "..", and the root is its own parent. */
  ghost predicate Dots(s: Ns) {
    2 in s.dirs && Parent(s, 2) == 2 && forall d {:trigger Dotted(s, d)} :: d in s.dirs ==> Dotted(s, d)
  }

  ghost predicate Dotted(s: Ns, d: nat) {
    Ent(s, d, DOT) == d && Parent(s, d) in s.dirs
  }

  /** The ".." of a directory is the directory that names it. */
  ghost predicate Parents(s: Ns) {
    forall d, x :: Subdir(s, d, x) ==> Ent(s, d, x) != ROOT && Parent(s, Ent(s, d, x)) == d
  }

  /** A directory has one name. */
  ghost predicate OneName(s: Ns) {
    forall d, x, y :: Subdir(s, d, x) && Subdir(s, d, y) && Ent(s, d, x) == Ent(s, d, y) ==> x == y
  }

  /** Every directory but the root is named in its parent. */
  ghost predicate AllNamed(s: Ns) {
    forall c :: c in s.dirs && c != ROOT ==> Named(s, c)
  }

  ghost predicate Named(s: Ns, c: nat) {
    exists x :: !IsDot(x) && Ent(s, Parent(s, c), x) == c
  }

  /** No cycles: every chain of ".." ends at the root. */
  ghost predicate AllClimb(s: Ns) {
    forall d :: d in s.dirs ==> exists k: nat :: Climbs(s, d, k)
  }

  ghost predicate Treelike(s: Ns) {
    Closed(s) && Dots(s) && Parents(s) && OneName(s) && AllNamed(s) && AllClimb(s)
  }

  ghost predicate NsOK(s: Ns) {
    Treelike(s) && LinksExact(s)
  }

  /** s' has the directories of s, with the same "..". */
  ghost predicate SameUp(s: Ns, s': Ns) {
    forall c :: c in s.dirs ==> c in s'.dirs && Parent(s', c) == Parent(s, c)
  }

  /** Chains depend only on the ".." entries. */
  lemma {:induction false} ClimbsFrame(s: Ns, s': Ns, d: nat, k: nat)
    requires Dots(s) && SameUp(s, s') && d in s.dirs && Climbs(s, d, k)
    ensures Climbs(s', d, k)
    decreases k
  {
    assert Dotted(s, d);
    if d != ROOT { ClimbsFrame(s, s', Parent(s, d), k - 1); }
  }

  lemma SameClimb(s: Ns, s': Ns)
    requires Dots(s) && AllClimb(s) && SameUp(s, s') && s'.dirs.Keys == s.dirs.Keys
    ensures AllClimb(s')
  {
    hide Climbs, Dots;
    forall d | d in s'.dirs ensures exists k: nat :: Climbs(s', d, k) {
      assert d in s.dirs.Keys;
      var k: nat :| Climbs(s, d, k);
      ClimbsFrame(s, s', d, k);
    }
  }

  lemma BindIs(s: Ns, d: nat, x: Name, n: nat)
    requires d in s.dirs
    ensures Bind(s, d, x, n).dirs.Keys == s.dirs.Keys
    ensures forall e, y :: Ent(Bind(s, d, x, n), e, y) == if e == d && y == x then n else Ent(s, e, y)
  {
  }

  lemma UnbindIs(s: Ns, d: nat, x: Name)
    requires d in s.dirs
    ensures Unbind(s, d, x).dirs.Keys == s.dirs.Keys
    ensures forall e, y :: Ent(Unbind(s, d, x), e, y) == if e == d && y == x then 0 else Ent(s, e, y)
  {
  }

  lemma BindClosed(s: Ns, d: nat, x: Name, n: nat)
    requires Closed(s) && d in s.dirs && n in s.kinds
    ensures Closed(Bind(s, d, x, n))
  {
  }

  lemma UnbindClosed(s: Ns, d: nat, x: Name)
    requires Closed(s) && d in s.dirs
    ensures Closed(Unbind(s, d, x))
  {
  }

  /** s' has the same directories under the same names as s. */
  ghost predicate SameDirs(s: Ns, s': Ns) {
    s'.dirs.Keys == s.dirs.Keys && forall d: nat, x: Name :: SameName(s, s', d, x)
  }

  ghost predicate SameName(s: Ns, s': Ns, d: nat, x: Name) {
    (Ent(s', d, x) in s.dirs || Ent(s, d, x) in s.dirs || IsDot(x)) ==> Ent(s', d, x) == Ent(s, d, x)
  }

  lemma SameSubdir(s: Ns, s': Ns, d: nat, x: Name)
    requires SameDirs(s, s')
    ensures Subdir(s', d, x) <==> Subdir(s, d, x)
    ensures Subdir(s, d, x) ==> Ent(s', d, x) == Ent(s, d, x)
    ensures Parent(s', d) == Parent(s, d) && Ent(s', d, DOT) == Ent(s, d, DOT)
    ensures d in s'.dirs <==> d in s.dirs
  {
    assert SameName(s, s', d, x) && SameName(s, s', d, DOT) && SameName(s, s', d, DOTDOT);
    assert d in s'.dirs.Keys <==> d in s.dirs.Keys;
    assert Ent(s', d, x) in s'.dirs.Keys <==> Ent(s', d, x) in s.dirs.Keys;
  }

  lemma SameDots(s: Ns, s': Ns)
    requires Dots(s) && SameDirs(s, s')
    ensures Dots(s') && SameUp(s, s')
  {
    hide SameDirs, Ent;
    SameSubdir(s, s', ROOT, DOT);
    forall d | d in s'.dirs ensures Dotted(s', d) {
      SameSubdir(s, s', d, DOT);
      assert Dotted(s, d);
      SameSubdir(s, s', Parent(s, d), DOT);
    }
    forall c | c in s.dirs ensures c in s'.dirs && Parent(s', c) == Parent(s, c) { SameSubdir(s, s', c, DOT); }
  }

  lemma SameParents(s: Ns, s': Ns)
    requires Parents(s) && OneName(s) && SameDirs(s, s')
    ensures Parents(s') && OneName(s')
  {
    hide SameDirs, Ent, Subdir;
    forall d: nat, x: Name | Subdir(s', d, x) ensures Ent(s', d, x) != ROOT && Parent(s', Ent(s', d, x)) == d {
      SameSubdir(s, s', d, x);
      SameSubdir(s, s', Ent(s, d, x), x);
    }
    forall d: nat, x: Name, y: Name | Subdir(s', d, x) && Subdir(s', d, y) && Ent(s', d, x) == Ent(s', d, y) ensures x == y {
      SameSubdir(s, s', d, x);
      SameSubdir(s, s', d, y);
    }
  }

  lemma SameNamed(s: Ns, s': Ns)
    requires AllNamed(s) && SameDirs(s, s')
    ensures AllNamed(s')
  {
    hide SameDirs, Ent;
    forall c | c in s'.dirs && c != ROOT ensures Named(s', c) {
      SameSubdir(s, s', c, DOT);
      assert Named(s, c);
      var x :| !IsDot(x) && Ent(s, Parent(s, c), x) == c;
      SameSubdir(s, s', Parent(s, c), x);
    }
  }

  lemma SameTree(s: Ns, s': Ns)
    requires Treelike(s) && SameDirs(s, s') && Closed(s')
    ensures Treelike(s')
  {
    hide Closed, Climbs, Ent, Dots, Parents, OneName, AllNamed, AllClimb, SameUp;
    SameDots(s, s');
    SameParents(s, s');
    SameNamed(s, s');
    SameClimb(s, s');
  }

  lemma NotDot(s: Ns, d: nat, x: Name)
    requires Closed(s) && Dots(s) && d in s.dirs && x !in s.dirs[d]
    ensures !IsDot(x) && Ent(s, d, x) == 0 && 0 !in s.dirs
  {
    assert Dotted(s, d);
  }

  /** A new name for an inode that is not a directory. */
  lemma BindFile(s: Ns, d: nat, x: Name, n: nat)
    requires Treelike(s) && d in s.dirs && x !in s.dirs[d] && n in s.kinds && n !in s.dirs
    ensures Treelike(Bind(s, d, x, n))
  {
    hide Climbs, AllClimb, Parents, OneName, AllNamed, Ent;
    NotDot(s, d, x);
    BindIs(s, d, x, n);
    BindClosed(s, d, x, n);
    SameTree(s, Bind(s, d, x, n));
  }

  /** A name of an inode that is not a directory goes. */
  lemma UnbindFile(s: Ns, d: nat, x: Name)
    requires Treelike(s) && d in s.dirs && x in s.dirs[d] && s.dirs[d][x] !in s.dirs
    ensures Treelike(Unbind(s, d, x))
  {
    hide Climbs, AllClimb, Parents, OneName, AllNamed;
    assert Dotted(s, d);
    UnbindIs(s, d, x);
    UnbindClosed(s, d, x);
    assert 0 !in s.dirs;
    SameTree(s, Unbind(s, d, x));
  }

  // ----- making a directory

  /** s' is s with the new directory n under name x in d. */
  ghost predicate MadeDir(s: Ns, s': Ns, d: nat, x: Name, n: nat) {
    && s'.dirs.Keys == s.dirs.Keys + {n}
    && forall e: nat, y: Name :: Ent(s', e, y) == MadeEnt(s, d, x, n, e, y)
  }

  ghost function MadeEnt(s: Ns, d: nat, x: Name, n: nat, e: nat, y: Name): nat {
    if e == d && y == x then n
    else if e != n then Ent(s, e, y)
    else if y == DOT then n else if y == DOTDOT then d else 0
  }

  lemma MadeSubdir(s: Ns, s': Ns, d: nat, x: Name, n: nat, e: nat, y: Name)
    requires Closed(s) && Dots(s) && MadeDir(s, s', d, x, n) && d in s.dirs && !IsDot(x) && n !in s.kinds && n != 0
    ensures Subdir(s', e, y) <==> (e == d && y == x) || (Subdir(s, e, y) && !(e == d && y == x))
    ensures Subdir(s', e, y) && !(e == d && y == x) ==> Ent(s', e, y) == Ent(s, e, y)
    ensures e in s.dirs ==> e in s'.dirs && Ent(s', e, DOT) == Ent(s, e, DOT) && Parent(s', e) == Parent(s, e)
    ensures e in s'.dirs <==> e in s.dirs || e == n
    ensures Ent(s', n, DOT) == n && Parent(s', n) == d && Ent(s', d, x) == n && n != d
  {
    assert Ent(s', e, y) == MadeEnt(s, d, x, n, e, y);
    assert Ent(s', e, DOT) == MadeEnt(s, d, x, n, e, DOT) && Ent(s', e, DOTDOT) == MadeEnt(s, d, x, n, e, DOTDOT);
    assert Ent(s', n, DOT) == MadeEnt(s, d, x, n, n, DOT) && Ent(s', n, DOTDOT) == MadeEnt(s, d, x, n, n, DOTDOT);
    assert Ent(s', d, x) == MadeEnt(s, d, x, n, d, x);
    assert e in s'.dirs.Keys <==> e in s.dirs.Keys + {n};
    assert n in s'.dirs.Keys && Ent(s', e, y) in s'.dirs.Keys <==> Ent(s', e, y) in s.dirs.Keys + {n};
    EntLive(s, e, y);
  }

  lemma EntLive(s: Ns, d: nat, x: Name)
    requires Closed(s)
    ensures Ent(s, d, x) == 0 || Ent(s, d, x) in s.kinds
    ensures Ent(s, d, x) in s.dirs ==> Ent(s, d, x) in s.kinds
  {
  }

  lemma MadeTree(s: Ns, s': Ns, d: nat, x: Name, n: nat)
    requires Treelike(s) && MadeDir(s, s', d, x, n) && d in s.dirs && x !in s.dirs[d] && n !in s.kinds && n != 0 && Closed(s')
    ensures Treelike(s')
  {
    hide Closed, Ent, Dots, Parents, OneName, AllNamed, AllClimb, SameUp, MadeDir;
    NotDot(s, d, x);
    MadeDots(s, s', d, x, n);
    MadeParents(s, s', d, x, n);
    MadeAllNamed(s, s', d, x, n);
    MadeSubdir(s, s', d, x, n, d, x);
    MadeKeys(s, s', d, x, n);
    MadeClimb(s, s', d, n);
  }

  lemma MadeKeys(s: Ns, s': Ns, d: nat, x: Name, n: nat)
    requires MadeDir(s, s', d, x, n)
    ensures forall e :: e in s'.dirs <==> e in s.dirs || e == n
  {
    assert s'.dirs.Keys == s.dirs.Keys + {n};
  }

  lemma MadeDots(s: Ns, s': Ns, d: nat, x: Name, n: nat)
    requires Closed(s) && Dots(s) && MadeDir(s, s', d, x, n) && d in s.dirs && !IsDot(x) && n !in s.kinds && n != 0
    ensures Dots(s') && SameUp(s, s')
  {
    hide Closed, Ent, Subdir, MadeDir;
    MadeSubdir(s, s', d, x, n, ROOT, x);
    forall e | e in s'.dirs ensures Dotted(s', e) {
      MadeSubdir(s, s', d, x, n, e, x);
      if e != n { assert Dotted(s, e); }
      MadeSubdir(s, s', d, x, n, Parent(s', e), x);
    }
    forall c | c in s.dirs ensures c in s'.dirs && Parent(s', c) == Parent(s, c) { MadeSubdir(s, s', d, x, n, c, x); }
  }

  lemma MadeAllNamed(s: Ns, s': Ns, d: nat, x: Name, n: nat)
    requires Closed(s) && Dots(s) && AllNamed(s) && MadeDir(s, s', d, x, n) && d in s.dirs && !IsDot(x) && n !in s.kinds && n != 0
    requires Ent(s, d, x) == 0
    ensures AllNamed(s')
  {
    hide Closed, Ent, Subdir, MadeDir, Dots;
    forall c | c in s'.dirs && c != ROOT ensures Named(s', c) {
      MadeSubdir(s, s', d, x, n, c, x);
      if c != n { MadeNamed(s, s', d, x, n, c); }
    }
  }

  lemma MadeNamed(s: Ns, s': Ns, d: nat, x: Name, n: nat, c: nat)
    requires Closed(s) && Dots(s) && AllNamed(s) && MadeDir(s, s', d, x, n) && d in s.dirs && !IsDot(x) && n !in s.kinds && n != 0
    requires c in s.dirs && c != ROOT && Ent(s, d, x) == 0
    ensures Named(s', c)
  {
    hide Ent, MadeDir, Subdir;
    assert Named(s, c);
    var y :| !IsDot(y) && Ent(s, Parent(s, c), y) == c;
    MadeSubdir(s, s', d, x, n, c, y);
    MadeSubdir(s, s', d, x, n, Parent(s, c), y);
    NotZero(s, c);
    assert Subdir(s, Parent(s, c), y) by { SubdirIs(s, Parent(s, c), y); }
  }

  lemma SubdirIs(s: Ns, d: nat, x: Name)
    requires !IsDot(x) && Ent(s, d, x) in s.dirs
    ensures Subdir(s, d, x)
  {
  }

  lemma NotZero(s: Ns, c: nat)
    requires Closed(s) && c in s.dirs
    ensures c != 0 && c in s.kinds
  {
  }

  lemma MadeParents(s: Ns, s': Ns, d: nat, x: Name, n: nat)
    requires Closed(s) && Dots(s) && Parents(s) && OneName(s) && MadeDir(s, s', d, x, n) && d in s.dirs && !IsDot(x) && n !in s.kinds && n != 0
    ensures Parents(s') && OneName(s')
  {
    hide Ent, MadeDir, Subdir;
    NotZero(s, ROOT);
    forall e: nat, y: Name | Subdir(s', e, y) ensures Ent(s', e, y) != ROOT && Parent(s', Ent(s', e, y)) == e {
      MadeSubdir(s, s', d, x, n, e, y);
      MadeSubdir(s, s', d, x, n, Ent(s, e, y), y);
      if !(e == d && y == x) { SubdirMeans(s, e, y); }
    }
    forall e: nat, y: Name, z: Name | Subdir(s', e, y) && Subdir(s', e, z) && Ent(s', e, y) == Ent(s', e, z) ensures y == z {
      MadeSubdir(s, s', d, x, n, e, y);
      MadeSubdir(s, s', d, x, n, e, z);
      if Subdir(s, e, y) { SubdirMeans(s, e, y); EntLive(s, e, y); }
      if Subdir(s, e, z) { SubdirMeans(s, e, z); EntLive(s, e, z); }
    }
  }

  lemma SubdirMeans(s: Ns, d: nat, x: Name)
    requires Subdir(s, d, x)
    ensures !IsDot(x) && Ent(s, d, x) in s.dirs
  {
  }

  lemma MadeClimb(s: Ns, s': Ns, d: nat, n: nat)
    requires Dots(s) && AllClimb(s) && SameUp(s, s') && d in s.dirs && Parent(s', n) == d
    requires forall e :: e in s'.dirs <==> e in s.dirs || e == n
    ensures AllClimb(s')
  {
    forall e | e in s'.dirs ensures exists k: nat :: Climbs(s', e, k) {
      var f := if e == n then d else e;
      var k: nat :| Climbs(s, f, k);
      ClimbsFrame(s, s', f, k);
      if e == n { assert Climbs(s', n, k + 1); }
    }
  }

  // ----- removing a directory

  /** s' is s without directory n, which was name x of d. */
  ghost predicate GoneDir(s: Ns, s': Ns, d: nat, x: Name, n: nat) {
    && s'.dirs.Keys == s.dirs.Keys - {n}
    && forall e: nat, y: Name :: Ent(s', e, y) == if e == n || (e == d && y == x) then 0 else Ent(s, e, y)
  }

  /** Nothing but "." and ".." in n, and x in d is its name. */
  ghost predicate EmptyDir(s: Ns, d: nat, x: Name, n: nat) {
    Subdir(s, d, x) && Ent(s, d, x) == n && forall y: Name :: Ent(s, n, y) != 0 ==> IsDot(y)
  }

  /** An empty directory is nobody's parent. */
  lemma NoChild(s: Ns, d: nat, x: Name, n: nat, c: nat)
    requires Closed(s) && Dots(s) && Parents(s) && AllNamed(s) && EmptyDir(s, d, x, n) && c in s.dirs
    ensures Parent(s, c) != n && n != ROOT
  {
    hide Ent, Climbs;
    SubdirMeans(s, d, x);
    NotZero(s, c);
    if c != ROOT { assert Named(s, c); }
  }

  lemma GoneEnt(s: Ns, s': Ns, d: nat, x: Name, n: nat, e: nat, y: Name)
    requires Closed(s) && GoneDir(s, s', d, x, n) && !IsDot(x) && n in s.dirs
    ensures Ent(s', e, y) == if e == n || (e == d && y == x) then 0 else Ent(s, e, y)
    ensures e in s'.dirs <==> e in s.dirs && e != n
    ensures e != n ==> Ent(s', e, DOT) == Ent(s, e, DOT) && Parent(s', e) == Parent(s, e)
    ensures Subdir(s', e, y) ==> Subdir(s, e, y) && e != n && !(e == d && y == x) && Ent(s', e, y) == Ent(s, e, y) && Ent(s, e, y) != n
  {
    assert e in s'.dirs.Keys <==> e in s.dirs.Keys - {n};
    assert Ent(s', e, y) in s'.dirs.Keys <==> Ent(s', e, y) in s.dirs.Keys - {n};
    assert Ent(s', e, DOT) == if e == n || (e == d && DOT == x) then 0 else Ent(s, e, DOT);
    assert Ent(s', e, DOTDOT) == if e == n || (e == d && DOTDOT == x) then 0 else Ent(s, e, DOTDOT);
  }

  lemma GoneTree(s: Ns, s': Ns, d: nat, x: Name, n: nat)
    requires Treelike(s) && EmptyDir(s, d, x, n) && GoneDir(s, s', d, x, n) && Closed(s')
    ensures Treelike(s')
  {
    hide Closed, Ent, GoneDir, EmptyDir, Climbs, Subdir, AllClimb;
    EmptyFacts(s, d, x, n);
    NoChild(s, d, x, n, ROOT);
    GoneEnt(s, s', d, x, n, ROOT, x);
    forall e | e in s'.dirs ensures Dotted(s', e) {
      GoneEnt(s, s', d, x, n, e, x);
      assert Dotted(s, e);
      NoChild(s, d, x, n, e);
      GoneEnt(s, s', d, x, n, Parent(s, e), x);
    }
    GoneParents(s, s', d, x, n);
    GoneNamed(s, s', d, x, n);
    GoneClimb(s, s', d, x, n);
  }

  lemma EmptyFacts(s: Ns, d: nat, x: Name, n: nat)
    requires EmptyDir(s, d, x, n)
    ensures !IsDot(x) && n in s.dirs && Ent(s, d, x) == n && Subdir(s, d, x)
  {
  }

  lemma GoneParents(s: Ns, s': Ns, d: nat, x: Name, n: nat)
    requires Closed(s) && Dots(s) && Parents(s) && OneName(s) && AllNamed(s) && EmptyDir(s, d, x, n) && GoneDir(s, s', d, x, n)
    ensures Parents(s') && OneName(s')
  {
    hide Closed, Ent, GoneDir, EmptyDir, Subdir, Dots;
    EmptyFacts(s, d, x, n);
    forall e: nat, y: Name | Subdir(s', e, y) ensures Ent(s', e, y) != ROOT && Parent(s', Ent(s', e, y)) == e {
      GoneEnt(s, s', d, x, n, e, y);
      GoneEnt(s, s', d, x, n, Ent(s, e, y), y);
    }
    forall e: nat, y: Name, z: Name | Subdir(s', e, y) && Subdir(s', e, z) && Ent(s', e, y) == Ent(s', e, z) ensures y == z {
      GoneEnt(s, s', d, x, n, e, y);
      GoneEnt(s, s', d, x, n, e, z);
    }
  }

  lemma GoneNamed(s: Ns, s': Ns, d: nat, x: Name, n: nat)
    requires Closed(s) && Dots(s) && Parents(s) && AllNamed(s) && EmptyDir(s, d, x, n) && GoneDir(s, s', d, x, n)
    ensures AllNamed(s')
  {
    hide Closed, Ent, GoneDir, EmptyDir, Dots, Parents;
    EmptyFacts(s, d, x, n);
    forall c | c in s'.dirs && c != ROOT ensures Named(s', c) {
      GoneEnt(s, s', d, x, n, c, x);
      NoChild(s, d, x, n, c);
      assert Named(s, c);
      var y :| !IsDot(y) && Ent(s, Parent(s, c), y) == c;
      GoneEnt(s, s', d, x, n, Parent(s, c), y);
    }
  }

  lemma {:induction false} GoneClimbs(s: Ns, s': Ns, d: nat, x: Name, n: nat, e: nat, k: nat)
    requires Closed(s) && Dots(s) && Parents(s) && AllNamed(s) && EmptyDir(s, d, x, n) && GoneDir(s, s', d, x, n)
    requires e in s.dirs && e != n && Climbs(s, e, k)
    ensures Climbs(s', e, k)
    decreases k
  {
    hide Closed, Ent, GoneDir, EmptyDir, Parents, AllNamed;
    EmptyFacts(s, d, x, n);
    GoneEnt(s, s', d, x, n, e, x);
    NoChild(s, d, x, n, e);
    assert Dotted(s, e);
    if e != ROOT { GoneClimbs(s, s', d, x, n, Parent(s, e), k - 1); }
  }

  lemma GoneClimb(s: Ns, s': Ns, d: nat, x: Name, n: nat)
    requires Closed(s) && Dots(s) && Parents(s) && AllNamed(s) && AllClimb(s) && EmptyDir(s, d, x, n) && GoneDir(s, s', d, x, n)
    ensures AllClimb(s')
  {
    hide Closed, Ent, GoneDir, EmptyDir, Parents, AllNamed, Climbs, Dots;
    EmptyFacts(s, d, x, n);
    forall e | e in s'.dirs ensures exists k: nat :: Climbs(s', e, k) {
      GoneEnt(s, s', d, x, n, e, x);
      var k: nat :| Climbs(s, e, k);
      GoneClimbs(s, s', d, x, n, e, k);
    }
  }

  /** No entry of what is left names the directory that is gone. */
  lemma GoneLive(s: Ns, s': Ns, d: nat, x: Name, n: nat, e: nat, y: Name)
    requires Treelike(s) && EmptyDir(s, d, x, n) && e in s.dirs && e != n && !(e == d && y == x)
    ensures Ent(s, e, y) != n
  {
    hide Ent, Climbs, AllClimb;
    EmptyFacts(s, d, x, n);
    assert Dotted(s, e);
    NoChild(s, d, x, n, e);
    if Ent(s, e, y) == n {
      SubdirIs(s, e, y);
    }
  }

  // ----- moving a directory

  /** s' is s with directory c, which was name x of p, as name y of q. */
  ghost predicate MovedDir(s: Ns, s': Ns, p: nat, x: Name, q: nat, y: Name, c: nat) {
    && s'.dirs.Keys == s.dirs.Keys
    && forall e: nat, z: Name :: Ent(s', e, z) == MovedEnt(s, p, x, q, y, c, e, z)
  }

  ghost function MovedEnt(s: Ns, p: nat, x: Name, q: nat, y: Name, c: nat, e: nat, z: Name): nat {
    if e == c && z == DOTDOT then q
    else if e == p && z == x then 0
    else if e == q && z == y then c
    else Ent(s, e, z)
  }

  /** Following ".." from d reaches the root in at most k steps without meeting c. */
  ghost predicate ClimbsClear(s: Ns, d: nat, c: nat, k: nat)
    decreases k
  {
    d != c && (d == 2 || (k > 0 && ClimbsClear(s, Parent(s, d), c, k - 1)))
  }

  ghost predicate CanMove(s: Ns, p: nat, x: Name, q: nat, y: Name, c: nat) {
    Subdir(s, p, x) && Ent(s, p, x) == c && p in s.dirs && q in s.dirs && !IsDot(y) && Ent(s, q, y) == 0
  }

  lemma MovedFacts(s: Ns, s': Ns, p: nat, x: Name, q: nat, y: Name, c: nat, e: nat, z: Name)
    requires Closed(s) && CanMove(s, p, x, q, y, c) && MovedDir(s, s', p, x, q, y, c)
    ensures !IsDot(x) && c in s.dirs && Ent(s', e, z) == MovedEnt(s, p, x, q, y, c, e, z)
    ensures e in s'.dirs <==> e in s.dirs
    ensures Ent(s', e, DOT) == Ent(s, e, DOT) && Parent(s', e) == if e == c then q else Parent(s, e)
    ensures Ent(s', q, y) == c && Subdir(s', q, y)
    ensures !IsDot(z) && !(e == q && z == y) && Subdir(s', e, z) ==> Subdir(s, e, z) && !(e == p && z == x) && Ent(s', e, z) == Ent(s, e, z)
  {
    assert e in s'.dirs.Keys <==> e in s.dirs.Keys;
    assert c in s'.dirs.Keys && (Ent(s', e, z) in s'.dirs.Keys <==> Ent(s', e, z) in s.dirs.Keys);
    assert Ent(s', e, DOT) == MovedEnt(s, p, x, q, y, c, e, DOT) && Ent(s', e, DOTDOT) == MovedEnt(s, p, x, q, y, c, e, DOTDOT);
    assert Ent(s', q, y) == MovedEnt(s, p, x, q, y, c, q, y);
  }

  lemma MovedParents(s: Ns, s': Ns, p: nat, x: Name, q: nat, y: Name, c: nat)
    requires Closed(s) && Parents(s) && OneName(s) && CanMove(s, p, x, q, y, c) && MovedDir(s, s', p, x, q, y, c)
    ensures Parents(s') && OneName(s')
  {
    hide Closed, Ent, MovedDir, CanMove, Subdir;
    MoveFacts(s, p, x, q, y, c);
    forall e: nat, z: Name | Subdir(s', e, z) ensures Ent(s', e, z) != ROOT && Parent(s', Ent(s', e, z)) == e {
      SubdirMeans(s', e, z);
      MovedFacts(s, s', p, x, q, y, c, e, z);
      MovedFacts(s, s', p, x, q, y, c, Ent(s', e, z), z);
    }
    forall e: nat, z: Name, w: Name | Subdir(s', e, z) && Subdir(s', e, w) && Ent(s', e, z) == Ent(s', e, w) ensures z == w {
      SubdirMeans(s', e, z);
      SubdirMeans(s', e, w);
      MovedFacts(s, s', p, x, q, y, c, e, z);
      MovedFacts(s, s', p, x, q, y, c, e, w);
    }
  }

  lemma MoveFacts(s: Ns, p: nat, x: Name, q: nat, y: Name, c: nat)
    requires CanMove(s, p, x, q, y, c)
    ensures Subdir(s, p, x) && Ent(s, p, x) == c && p in s.dirs && q in s.dirs && !IsDot(x) && !IsDot(y) && Ent(s, q, y) == 0 && c in s.dirs
  {
  }

  lemma MovedNamed(s: Ns, s': Ns, p: nat, x: Name, q: nat, y: Name, c: nat)
    requires Closed(s) && Dots(s) && AllNamed(s) && CanMove(s, p, x, q, y, c) && MovedDir(s, s', p, x, q, y, c)
    ensures AllNamed(s')
  {
    hide Closed, Ent, MovedDir, CanMove, Subdir, Dots;
    MoveFacts(s, p, x, q, y, c);
    forall a | a in s'.dirs && a != ROOT ensures Named(s', a) {
      MovedFacts(s, s', p, x, q, y, c, a, y);
      if a != c {
        assert Named(s, a);
        var z :| !IsDot(z) && Ent(s, Parent(s, a), z) == a;
        NotZero(s, a);
        MovedFacts(s, s', p, x, q, y, c, Parent(s, a), z);
      }
    }
  }

  lemma {:induction false} ClearClimbs(s: Ns, s': Ns, p: nat, x: Name, q: nat, y: Name, c: nat, d: nat, k: nat)
    requires Closed(s) && CanMove(s, p, x, q, y, c) && MovedDir(s, s', p, x, q, y, c) && ClimbsClear(s, d, c, k)
    ensures Climbs(s', d, k)
    decreases k
  {
    hide Closed, Ent, MovedDir, CanMove;
    MovedFacts(s, s', p, x, q, y, c, d, y);
    if d != ROOT { ClearClimbs(s, s', p, x, q, y, c, Parent(s, d), k - 1); }
  }

  lemma {:induction false} MovedClimbs(s: Ns, s': Ns, p: nat, x: Name, q: nat, y: Name, c: nat, top: nat, d: nat, k: nat) returns (k': nat)
    requires Closed(s) && CanMove(s, p, x, q, y, c) && MovedDir(s, s', p, x, q, y, c) && Climbs(s', c, top) && Climbs(s, d, k)
    ensures Climbs(s', d, k')
    decreases k
  {
    hide Closed, Ent, MovedDir, CanMove;
    MovedFacts(s, s', p, x, q, y, c, d, y);
    if d == c {
      k' := top;
    } else if d == ROOT {
      k' := 0;
    } else {
      k' := MovedClimbs(s, s', p, x, q, y, c, top, Parent(s, d), k - 1);
      k' := k' + 1;
    }
  }

  /** Moving a directory to where the way up does not pass through it makes no cycle. */
  lemma MovedTree(s: Ns, s': Ns, p: nat, x: Name, q: nat, y: Name, c: nat, k: nat)
    requires Treelike(s) && CanMove(s, p, x, q, y, c) && MovedDir(s, s', p, x, q, y, c) && Closed(s') && ClimbsClear(s, q, c, k)
    ensures Treelike(s')
  {
    hide Closed, Ent, MovedDir, CanMove, Subdir, ClimbsClear, Parents, OneName, AllNamed;
    MoveFacts(s, p, x, q, y, c);
    MovedDots(s, s', p, x, q, y, c);
    MovedParents(s, s', p, x, q, y, c);
    MovedNamed(s, s', p, x, q, y, c);
    ClearClimbs(s, s', p, x, q, y, c, q, k);
    MovedFacts(s, s', p, x, q, y, c, c, y);
    assert Climbs(s', c, k + 1);
    forall d | d in s'.dirs ensures exists j: nat :: Climbs(s', d, j) {
      MovedFacts(s, s', p, x, q, y, c, d, y);
      var j: nat :| Climbs(s, d, j);
      var j' := MovedClimbs(s, s', p, x, q, y, c, k + 1, d, j);
    }
  }

  lemma MovedDots(s: Ns, s': Ns, p: nat, x: Name, q: nat, y: Name, c: nat)
    requires Closed(s) && Dots(s) && Parents(s) && CanMove(s, p, x, q, y, c) && MovedDir(s, s', p, x, q, y, c)
    ensures Dots(s')
  {
    hide Closed, Ent, MovedDir, CanMove, Subdir;
    MoveFacts(s, p, x, q, y, c);
    MovedFacts(s, s', p, x, q, y, c, ROOT, y);
    forall d | d in s'.dirs ensures Dotted(s', d) {
      MovedFacts(s, s', p, x, q, y, c, d, y);
      assert Dotted(s, d);
      MovedFacts(s, s', p, x, q, y, c, Parent(s', d), y);
    }
  }

  // ----- whole operations on the tree

  lemma DestroyCreate(s: Ns, n: nat, kind: Kind)
    requires n !in s.kinds && n !in s.links && n !in s.dirs
    ensures Destroy(Create(s, n, kind), n) == s
  {
    assert s.kinds[n := kind] - {n} == s.kinds;
    assert s.links[n := 0] - {n} == s.links;
    assert Create(s, n, kind).dirs - {n} == s.dirs;
  }

  /** Link counts do not matter to the shape. */
  lemma CountTree(s: Ns, n: nat, delta: int)
    requires n in s.links && Treelike(s)
    ensures Treelike(Count(s, n, delta))
  {
    hide Ent, Climbs, AllClimb, Parents, OneName, AllNamed, Dots;
    var s' := Count(s, n, delta);
    EntSame(s, s');
    SameTree(s, s');
  }

  lemma EntSame(s: Ns, s': Ns)
    requires s'.dirs == s.dirs
    ensures forall d: nat, x: Name :: Ent(s', d, x) == Ent(s, d, x)
  {
  }

  /** A new file under a free name. */
  lemma FileMade(s: Ns, d: nat, x: Name, n: nat, kind: Kind)
    requires NsOK(s) && d in s.dirs && x !in s.dirs[d] && n !in s.kinds && n != 0 && kind != Directory
    ensures n in Create(s, n, kind).links && NsOK(Count(Bind(Create(s, n, kind), d, x, n), n, 1))
  {
    hide Ent, Climbs, AllClimb, Parents, OneName, AllNamed, Dots, LinksExact;
    var s1 := Create(s, n, kind);
    EntSame(s, s1);
    SameTree(s, s1);
    LinkCreated(s, n, kind);
    BindFile(s1, d, x, n);
    LinkAdded(s1, d, x, n);
    CountTree(Bind(s1, d, x, n), n, 1);
  }

  /** Another name for a file. */
  lemma FileLinked(s: Ns, d: nat, x: Name, n: nat)
    requires NsOK(s) && d in s.dirs && x !in s.dirs[d] && n in s.kinds && n !in s.dirs
    ensures n in s.links && NsOK(Count(Bind(s, d, x, n), n, 1))
  {
    hide Ent, Climbs, AllClimb, Parents, OneName, AllNamed, Dots;
    BindFile(s, d, x, n);
    LinkAdded(s, d, x, n);
    CountTree(Bind(s, d, x, n), n, 1);
  }

  /** A name of a file goes. */
  lemma FileUnlinked(s: Ns, d: nat, x: Name)
    requires NsOK(s) && d in s.dirs && x in s.dirs[d] && s.dirs[d][x] !in s.dirs
    ensures s.dirs[d][x] in s.links && NsOK(Count(Unbind(s, d, x), s.dirs[d][x], -1))
  {
    hide Ent, Climbs, AllClimb, Parents, OneName, AllNamed, Dots;
    assert s.dirs[d][x] in s.kinds && s.links.Keys == s.kinds.Keys;
    UnbindFile(s, d, x);
    LinkDropped(s, d, x);
    CountTree(Unbind(s, d, x), s.dirs[d][x], -1);
  }

  /** A file without names goes away altogether. */
  lemma FileGone(s: Ns, n: nat)
    requires NsOK(s) && n in s.links && s.links[n] == 0 && n !in s.dirs
    ensures NsOK(Destroy(s, n))
  {
    hide Ent, Climbs, AllClimb, Parents, OneName, AllNamed, Dots;
    var s' := Destroy(s, n);
    assert s'.dirs == s.dirs;
    EntSame(s, s');
    NoRefs(s, n);
    GoneClosed(s, n);
    SameTree(s, s');
    LinkDestroyed(s, n);
  }

  lemma NoRefs(s: Ns, n: nat)
    requires |Refs(s, n)| == 0
    ensures forall d, x :: d in s.dirs && x in s.dirs[d] ==> s.dirs[d][x] != n
  {
    forall d, x | d in s.dirs && x in s.dirs[d] ensures s.dirs[d][x] != n {
      assert (d, x) in Refs(s, s.dirs[d][x]);
    }
  }

  lemma GoneClosed(s: Ns, n: nat)
    requires Closed(s) && forall d, x :: d in s.dirs && d != n && x in s.dirs[d] ==> s.dirs[d][x] != n
    ensures Closed(Destroy(s, n))
  {
  }

  // ----- directories

  /** make_dir: a new directory with its two dots, under a free name. */
  ghost function MkDir(s: Ns, d: nat, x: Name, n: nat): Ns
    requires d in s.dirs && d in s.links && n !in s.dirs
  {
    var s1 := Count(Bind(Create(s, n, Directory), n, DOT, n), n, 1);
    var s2 := Count(Bind(s1, n, DOTDOT, d), d, 1);
    Count(Bind(s2, d, x, n), n, 1)
  }

  lemma MkDirLinks(s: Ns, d: nat, x: Name, n: nat)
    requires LinksExact(s) && Closed(s) && d in s.dirs && d in s.links && x !in s.dirs[d] && n !in s.kinds && n !in s.dirs
    ensures LinksExact(MkDir(s, d, x, n))
  {
    hide LinksExact;
    var s0 := Create(s, n, Directory);
    LinkCreated(s, n, Directory);
    LinkAdded(s0, n, DOT, n);
    var s1 := Count(Bind(s0, n, DOT, n), n, 1);
    LinkAdded(s1, n, DOTDOT, d);
    var s2 := Count(Bind(s1, n, DOTDOT, d), d, 1);
    assert s2.dirs[d] == s.dirs[d];
    LinkAdded(s2, d, x, n);
  }

  lemma MkDirIs(s: Ns, d: nat, x: Name, n: nat)
    requires Closed(s) && d in s.dirs && d in s.links && x !in s.dirs[d] && n !in s.kinds && n != 0
    ensures n !in s.dirs && MadeDir(s, MkDir(s, d, x, n), d, x, n)
  {
    hide Ent;
    var s' := MkDir(s, d, x, n);
    var a := Create(s, n, Directory);
    CreateIs(s, n);
    BindIs(a, n, DOT, n);
    var s1 := Count(Bind(a, n, DOT, n), n, 1);
    EntSame(Bind(a, n, DOT, n), s1);
    BindIs(s1, n, DOTDOT, d);
    var s2 := Count(Bind(s1, n, DOTDOT, d), d, 1);
    EntSame(Bind(s1, n, DOTDOT, d), s2);
    BindIs(s2, d, x, n);
    EntSame(Bind(s2, d, x, n), s');
    assert s'.dirs.Keys == s.dirs.Keys + {n};
  }

  lemma CreateIs(s: Ns, n: nat)
    requires n !in s.dirs
    ensures Create(s, n, Directory).dirs.Keys == s.dirs.Keys + {n}
    ensures forall e: nat, y: Name :: Ent(Create(s, n, Directory), e, y) == if e == n then 0 else Ent(s, e, y)
  {
  }

  lemma MkDirClosed(s: Ns, d: nat, x: Name, n: nat)
    requires Closed(s) && d in s.dirs && d in s.links && n !in s.kinds && n != 0 && n !in s.dirs
    ensures Closed(MkDir(s, d, x, n))
  {
    hide Closed;
    CreateClosed(s, n, Directory);
    var s1 := Count(Bind(Create(s, n, Directory), n, DOT, n), n, 1);
    BindClosed(Create(s, n, Directory), n, DOT, n);
    CountClosed(Bind(Create(s, n, Directory), n, DOT, n), n, 1);
    DirLive(s1, d);
    BindClosed(s1, n, DOTDOT, d);
    CountClosed(Bind(s1, n, DOTDOT, d), d, 1);
    var s2 := Count(Bind(s1, n, DOTDOT, d), d, 1);
    BindClosed(s2, d, x, n);
    CountClosed(Bind(s2, d, x, n), n, 1);
  }

  lemma DirLive(s: Ns, d: nat)
    requires Closed(s) && d in s.dirs
    ensures d in s.kinds
  {
  }

  lemma CreateClosed(s: Ns, n: nat, kind: Kind)
    requires Closed(s) && n !in s.kinds && n != 0
    ensures Closed(Create(s, n, kind)) && n in Create(s, n, kind).kinds
  {
  }

  lemma CountClosed(s: Ns, n: nat, delta: int)
    requires Closed(s) && n in s.links
    ensures Closed(Count(s, n, delta))
  {
  }

  lemma DirMade(s: Ns, d: nat, x: Name, n: nat)
    requires NsOK(s) && d in s.dirs && x !in s.dirs[d] && n !in s.kinds && n != 0
    ensures d in s.links && n !in s.dirs && NsOK(MkDir(s, d, x, n))
  {
    hide Ent, Climbs, AllClimb, Parents, OneName, AllNamed, Dots, MadeDir, MkDir;
    assert d in s.kinds && s.links.Keys == s.kinds.Keys;
    MkDirLinks(s, d, x, n);
    MkDirIs(s, d, x, n);
    MkDirClosed(s, d, x, n);
    MadeTree(s, MkDir(s, d, x, n), d, x, n);
  }

  /** unlink_dir: the name goes, the parent loses a link, and the directory goes with its dots. */
  ghost function RmDir(s: Ns, d: nat, x: Name, n: nat): Ns
    requires d in s.dirs && d in s.links && n in s.links
  {
    Destroy(Count(Count(Unbind(s, d, x), n, -1), d, -1), n)
  }

  /** Directory n holds nothing but its dots, and ".." is d. */
  ghost predicate JustDots(s: Ns, n: nat, d: nat) {
    n in s.dirs && s.dirs[n].Keys == {DOT, DOTDOT} && s.dirs[n][DOT] == n && s.dirs[n][DOTDOT] == d
  }

  lemma DropDots(s: Ns, n: nat, d: nat)
    requires LinksExact(s) && JustDots(s, n, d) && n in s.links && d in s.links
    ensures LinksExact(Destroy(Count(s, d, -1), n))
  {
    hide LinksExact;
    var b := Count(Unbind(s, n, DOTDOT), d, -1);
    LinkDropped(s, n, DOTDOT);
    var c := Count(Unbind(b, n, DOT), n, -1);
    LinkDropped(b, n, DOT);
    assert c.dirs[n].Keys == {};
    LinkDestroyed(c, n);
    var r := Destroy(Count(s, d, -1), n);
    assert Destroy(c, n).dirs == r.dirs;
    assert Destroy(c, n).links == r.links;
    assert Destroy(c, n) == r;
  }

  lemma RmDirLinks(s: Ns, d: nat, x: Name, n: nat)
    requires LinksExact(s) && JustDots(s, n, d) && d in s.dirs && d in s.links && n in s.links && d != n && x in s.dirs[d] && s.dirs[d][x] == n
    ensures LinksExact(RmDir(s, d, x, n))
  {
    hide LinksExact;
    var a := Count(Unbind(s, d, x), n, -1);
    LinkDropped(s, d, x);
    assert a.dirs[n] == s.dirs[n];
    DropDots(a, n, d);
  }

  lemma EmptyIsDots(s: Ns, d: nat, x: Name, n: nat)
    requires Closed(s) && Dots(s) && Parents(s) && EmptyDir(s, d, x, n)
    ensures d in s.dirs && x in s.dirs[d] && s.dirs[d][x] == n && n in s.dirs && d != n && JustDots(s, n, d) && n in s.kinds && d in s.kinds
  {
    assert Dotted(s, n);
    forall y: Name ensures y in s.dirs[n] <==> y in {DOT, DOTDOT} {
      if y in s.dirs[n] { assert Ent(s, n, y) != 0; }
    }
    assert s.dirs[n].Keys == {DOT, DOTDOT};
  }

  lemma RmDirIs(s: Ns, d: nat, x: Name, n: nat)
    requires Treelike(s) && EmptyDir(s, d, x, n) && d in s.dirs && d in s.links && n in s.links
    ensures GoneDir(s, RmDir(s, d, x, n), d, x, n)
  {
    hide Treelike, EmptyDir;
    var s' := RmDir(s, d, x, n);
    assert s'.dirs.Keys == s.dirs.Keys - {n};
    forall e: nat, y: Name ensures Ent(s', e, y) == if e == n || (e == d && y == x) then 0 else Ent(s, e, y) {}
  }

  lemma RmDirClosed(s: Ns, d: nat, x: Name, n: nat)
    requires Treelike(s) && EmptyDir(s, d, x, n) && d in s.dirs && d in s.links && n in s.links
    ensures Closed(RmDir(s, d, x, n))
  {
    hide Climbs, AllClimb, Parents, OneName, AllNamed, Dots, EmptyDir;
    var u := Count(Count(Unbind(s, d, x), n, -1), d, -1);
    forall e, y | e in u.dirs && e != n && y in u.dirs[e] ensures u.dirs[e][y] != n {
      GoneLive(s, s, d, x, n, e, y);
    }
    GoneClosed(u, n);
  }

  lemma DirRemoved(s: Ns, d: nat, x: Name, n: nat)
    requires NsOK(s) && EmptyDir(s, d, x, n)
    ensures d in s.dirs && d in s.links && n in s.links && NsOK(RmDir(s, d, x, n))
  {
    hide Ent, Climbs, AllClimb, OneName, AllNamed, GoneDir, RmDir, EmptyDir, JustDots, Closed, Dots, Parents;
    EmptyIsDots(s, d, x, n);
    assert s.links.Keys == s.kinds.Keys;
    RmDirLinks(s, d, x, n);
    RmDirIs(s, d, x, n);
    RmDirClosed(s, d, x, n);
    GoneTree(s, RmDir(s, d, x, n), d, x, n);
  }

  /** rename_inode of a file. */
  lemma FileMoved(s: Ns, p: nat, x: Name, q: nat, y: Name)
    requires NsOK(s) && p in s.dirs && x in s.dirs[p] && q in s.dirs && y !in s.dirs[q] && s.dirs[p][x] !in s.dirs
    ensures var c := s.dirs[p][x];
            && c in s.links && x in Bind(s, q, y, c).dirs[p]
            && NsOK(Count(Unbind(Count(Bind(s, q, y, c), c, 1), p, x), c, -1))
  {
    hide Ent, Climbs, AllClimb, OneName, AllNamed, Dots, Parents;
    var c := s.dirs[p][x];
    assert c in s.kinds;
    FileLinked(s, q, y, c);
    var s1 := Count(Bind(s, q, y, c), c, 1);
    assert s1.dirs[p][x] == c;
    FileUnlinked(s1, p, x);
  }

  /** rename_inode of a directory: the new name, the old name, "..", and the two parents' link counts. */
  ghost function MvDir(s: Ns, p: nat, x: Name, q: nat, y: Name, c: nat): Ns
    requires p in s.dirs && q in s.dirs && c in s.dirs && p in s.links && q in s.links && c in s.links
  {
    var s1 := Count(Unbind(Count(Bind(s, q, y, c), c, 1), p, x), c, -1);
    if p == q then s1 else Count(Count(Bind(s1, c, DOTDOT, q), p, -1), q, 1)
  }

  lemma MvDirLinks(s: Ns, p: nat, x: Name, q: nat, y: Name, c: nat)
    requires LinksExact(s) && p in s.dirs && q in s.dirs && c in s.dirs && p in s.links && q in s.links && c in s.links
    requires x in s.dirs[p] && s.dirs[p][x] == c && y !in s.dirs[q] && DOTDOT in s.dirs[c] && s.dirs[c][DOTDOT] == p && c != p && c != q
    ensures LinksExact(MvDir(s, p, x, q, y, c))
  {
    hide LinksExact;
    var a := Count(Bind(s, q, y, c), c, 1);
    LinkAdded(s, q, y, c);
    assert x in a.dirs[p] && a.dirs[p][x] == c;
    var b := Count(Unbind(a, p, x), c, -1);
    LinkDropped(a, p, x);
    if p != q {
      assert b.dirs[c] == s.dirs[c];
      LinkMoved(b, c, DOTDOT, q);
    }
  }

  lemma MvDirIs(s: Ns, p: nat, x: Name, q: nat, y: Name, c: nat)
    requires p in s.dirs && q in s.dirs && c in s.dirs && p in s.links && q in s.links && c in s.links && !IsDot(x) && !IsDot(y)
    requires x in s.dirs[p] && y !in s.dirs[q] && Parent(s, c) == p
    ensures MovedDir(s, MvDir(s, p, x, q, y, c), p, x, q, y, c)
  {
    hide Ent;
    var s' := MvDir(s, p, x, q, y, c);
    NotThere(s, q, y);
    BindIs(s, q, y, c);
    var a := Count(Bind(s, q, y, c), c, 1);
    EntSame(Bind(s, q, y, c), a);
    UnbindIs(a, p, x);
    var b := Count(Unbind(a, p, x), c, -1);
    EntSame(Unbind(a, p, x), b);
    if p != q {
      BindIs(b, c, DOTDOT, q);
      EntSame(Bind(b, c, DOTDOT, q), s');
    }
  }

  lemma NotThere(s: Ns, d: nat, x: Name)
    requires d in s.dirs && x !in s.dirs[d]
    ensures Ent(s, d, x) == 0
  {
  }

  lemma MvDirClosed(s: Ns, p: nat, x: Name, q: nat, y: Name, c: nat)
    requires Closed(s) && p in s.dirs && q in s.dirs && c in s.dirs && p in s.links && q in s.links && c in s.links
    ensures Closed(MvDir(s, p, x, q, y, c))
  {
    hide Closed;
    DirLive(s, c);
    BindClosed(s, q, y, c);
    var a := Count(Bind(s, q, y, c), c, 1);
    CountClosed(Bind(s, q, y, c), c, 1);
    UnbindClosed(a, p, x);
    var b := Count(Unbind(a, p, x), c, -1);
    CountClosed(Unbind(a, p, x), c, -1);
    if p != q {
      DirLive(b, q);
      BindClosed(b, c, DOTDOT, q);
      CountClosed(Bind(b, c, DOTDOT, q), p, -1);
      CountClosed(Count(Bind(b, c, DOTDOT, q), p, -1), q, 1);
    }
  }

  /** No directory but the root is its own parent. */
  lemma {:induction false} NotOwnParent(s: Ns, c: nat, k: nat)
    requires Climbs(s, c, k) && c != ROOT
    ensures Parent(s, c) != c
    decreases k
  {
    if Parent(s, c) == c { NotOwnParent(s, c, k - 1); }
  }

  lemma DirMoved(s: Ns, p: nat, x: Name, q: nat, y: Name, c: nat, k: nat)
    requires NsOK(s) && p in s.dirs && q in s.dirs && x in s.dirs[p] && s.dirs[p][x] == c && c in s.dirs && y !in s.dirs[q] && !IsDot(x)
    requires ClimbsClear(s, q, c, k)
    ensures p in s.links && q in s.links && c in s.links && DOTDOT in s.dirs[c] && s.dirs[c][DOTDOT] == p && NsOK(MvDir(s, p, x, q, y, c))
  {
    hide Climbs, OneName, AllNamed, MovedDir, MvDir, Closed;
    NotDot(s, q, y);
    DirLive(s, p);
    DirLive(s, q);
    DirLive(s, c);
    assert s.links.Keys == s.kinds.Keys;
    assert Subdir(s, p, x) && Ent(s, p, x) == c;
    assert Dotted(s, c);
    var j: nat :| Climbs(s, c, j);
    NotOwnParent(s, c, j);
    assert s.dirs[c][DOTDOT] == p by { NotZero(s, p); }
    MvDirLinks(s, p, x, q, y, c);
    MvDirIs(s, p, x, q, y, c);
    MvDirClosed(s, p, x, q, y, c);
    MovedTree(s, MvDir(s, p, x, q, y, c), p, x, q, y, c, k);
  }
}
