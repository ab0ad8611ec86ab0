/** The directory tree that a volume stores, and what each directory edit does to it. */
module DirTree {
  import opened Blocks
  import opened BlockTree
  import opened Bitmaps
  import opened Volumes
  import opened MapFileBlock
  import opened FileBlocks
  import opened FileSystem
  import opened DirBlock
  import opened DirFile
  import opened Namespace

  ghost predicate Unique(es: seq<Entry>) {
    forall i, j :: 0 <= i < j < |es| ==> es[i].name != es[j].name
  }

  ghost predicate Used(es: seq<Entry>) {
    forall i :: 0 <= i < |es| ==> es[i].inode != 0
  }

  /** The entries as a map from names to inodes. */
  ghost function NameMap(es: seq<Entry>): Dir {
    map x | x in Names(es) :: Find(es, x)
  }

  ghost function Names(es: seq<Entry>): set<Name> {
    set i | 0 <= i < |es| :: es[i].name
  }

  lemma InNames(es: seq<Entry>, x: Name)
    requires Used(es)
    ensures x in NameMap(es) <==> Find(es, x) != 0
    ensures x in NameMap(es) ==> NameMap(es)[x] == Find(es, x)
    ensures x in NameMap(es) <==> !Absent(es, x)
  {
    FindNone(es, x);
  }

  /** Two name maps are equal when the lookups are. */
  lemma SameMap(es: seq<Entry>, m: Dir)
    requires Used(es) && forall x: Name :: (x in m <==> Find(es, x) != 0) && (x in m ==> m[x] == Find(es, x))
    ensures NameMap(es) == m
  {
    forall x: Name ensures (x in NameMap(es) <==> x in m) && (x in m ==> NameMap(es)[x] == m[x]) { InNames(es, x); }
  }

  lemma FindAdded(es: seq<Entry>, e: Entry, es': seq<Entry>, x: Name)
    requires Added(es, e, es') && Absent(es, e.name)
    ensures Find(es', x) == if x == e.name then e.inode else Find(es, x)
  {
    hide Find, Without, Absent;
    var k :| 0 <= k <= |es| && es' == es[..k] + [e] + es[k..];
    if x == e.name {
      RemoveUndoesInsert(es, e, es');
    } else {
      FindAcross(es[..k], e, es[k..], x);
      assert es[..k] + es[k..] == es;
    }
  }

  lemma {:induction false} FindAcross(a: seq<Entry>, e: Entry, b: seq<Entry>, x: Name)
    requires x != e.name
    ensures Find(a + [e] + b, x) == Find(a + b, x)
  {
    if a == [] {
      assert a + [e] + b == [e] + b && ([e] + b)[1..] == b && a + b == b;
    } else {
      assert (a + [e] + b)[1..] == a[1..] + [e] + b && (a + b)[1..] == a[1..] + b;
      FindAcross(a[1..], e, b, x);
    }
  }

  lemma AddedDistinct(es: seq<Entry>, e: Entry, es': seq<Entry>)
    requires Unique(es) && Used(es) && Added(es, e, es') && Absent(es, e.name) && e.inode != 0
    ensures Unique(es') && Used(es')
  {
    hide Absent;
    var k :| 0 <= k <= |es| && es' == es[..k] + [e] + es[k..];
    forall i | 0 <= i < |es'| ensures es'[i].inode != 0 { AddedAt(es, e, k, i); }
    forall i, j | 0 <= i < j < |es'| ensures es'[i].name != es'[j].name {
      hide Unique, Used;
      AddedAt(es, e, k, i);
      AddedAt(es, e, k, j);
      AddedApart(es, e, k, i, j);
    }
  }

  lemma AddedAt(es: seq<Entry>, e: Entry, k: nat, i: nat)
    requires k <= |es| && i <= |es|
    ensures (es[..k] + [e] + es[k..])[i] == if i < k then es[i] else if i == k then e else es[i - 1]
  {
  }

  lemma AddedApart(es: seq<Entry>, e: Entry, k: nat, i: nat, j: nat)
    requires Unique(es) && Absent(es, e.name) && k <= |es| && i < j <= |es|
    ensures (if i < k then es[i] else if i == k then e else es[i - 1]).name != (if j < k then es[j] else if j == k then e else es[j - 1]).name
  {
  }

  lemma AddedUnique(es: seq<Entry>, e: Entry, es': seq<Entry>)
    requires Unique(es) && Used(es) && Added(es, e, es') && Absent(es, e.name) && e.inode != 0
    ensures Unique(es') && Used(es') && NameMap(es') == NameMap(es)[e.name := e.inode]
  {
    hide Added, Absent, Unique, Used, Find, NameMap;
    AddedDistinct(es, e, es');
    var m := NameMap(es)[e.name := e.inode];
    forall x: Name ensures (x in m <==> Find(es', x) != 0) && (x in m ==> m[x] == Find(es', x)) {
      FindAdded(es, e, es', x);
      InNames(es, x);
    }
    SameMap(es', m);
  }

  lemma {:induction false} FindWithout(es: seq<Entry>, name: Name, x: Name)
    requires Unique(es)
    ensures Find(Without(es, name), x) == if x == name then 0 else Find(es, x)
  {
    if es != [] {
      assert forall i, j :: 0 <= i < j < |es[1..]| ==> es[1..][i].name == es[i + 1].name && es[1..][j].name == es[j + 1].name;
      FindWithout(es[1..], name, x);
      if es[0].name == name {
        assert Absent(es[1..], name);
        NotFound(es[1..], name);
      } else {
        var w := Without(es[1..], name);
        assert ([es[0]] + w)[1..] == w;
      }
    }
  }

  lemma {:induction false} WithoutSub(es: seq<Entry>, name: Name) returns (k: nat)
    requires Find(es, name) != 0
    ensures k < |es| && es[k].name == name && Without(es, name) == es[..k] + es[k + 1..]
  {
    if es[0].name == name {
      k := 0;
      assert es[..0] + es[1..] == es[1..];
    } else {
      k := WithoutSub(es[1..], name);
      k := k + 1;
      assert [es[0]] + (es[1..][..k - 1] + es[1..][k..]) == es[..k] + es[k + 1..];
    }
  }

  lemma SubUnique(es: seq<Entry>, w: seq<Entry>, k: nat)
    requires Unique(es) && Used(es) && k < |es| && w == es[..k] + es[k + 1..]
    ensures Unique(w) && Used(w)
  {
    assert forall i :: 0 <= i < |w| ==> w[i] == es[if i < k then i else i + 1];
  }

  lemma WithoutUnique(es: seq<Entry>, name: Name)
    requires Unique(es) && Used(es) && Find(es, name) != 0
    ensures Unique(Without(es, name)) && Used(Without(es, name)) && NameMap(Without(es, name)) == NameMap(es) - {name}
  {
    hide Unique, Used, Find, NameMap, Without;
    var k := WithoutSub(es, name);
    var w := Without(es, name);
    SubUnique(es, w, k);
    var m := NameMap(es) - {name};
    forall x: Name ensures (x in m <==> Find(w, x) != 0) && (x in m ==> m[x] == Find(w, x)) {
      FindWithout(es, name, x);
      InNames(es, x);
    }
    SameMap(w, m);
  }

  lemma {:induction false} RedirectedAt(es: seq<Entry>, name: Name, n: nat) returns (k: nat)
    requires Find(es, name) != 0
    ensures k < |es| && es[k].name == name && Redirected(es, name, n) == es[k := es[k].(inode := n)]
    ensures forall i :: 0 <= i < k ==> es[i].name != name
  {
    if es[0].name == name {
      k := 0;
    } else {
      k := RedirectedAt(es[1..], name, n);
      assert forall i :: 0 <= i < k ==> es[1..][i] == es[i + 1];
      k := k + 1;
    }
  }

  lemma RedirectedUnique(es: seq<Entry>, name: Name, n: nat)
    requires Unique(es) && Used(es) && Find(es, name) != 0 && n != 0
    ensures Unique(Redirected(es, name, n)) && Used(Redirected(es, name, n)) && NameMap(Redirected(es, name, n)) == NameMap(es)[name := n]
  {
    var k := RedirectedAt(es, name, n);
    var r := Redirected(es, name, n);
    var m := NameMap(es)[name := n];
    forall x: Name ensures (x in m <==> Find(r, x) != 0) && (x in m ==> m[x] == Find(r, x)) {
      FindUpdated(es, k, n, x);
      InNames(es, x);
    }
    SameMap(r, m);
  }

  lemma FindUpdated(es: seq<Entry>, k: nat, n: nat, x: Name)
    requires k < |es| && Unique(es)
    ensures Find(es[k := es[k].(inode := n)], x) == if x == es[k].name then n else Find(es, x)
  {
    var a, b := es[..k], es[k + 1..];
    var r := es[k := es[k].(inode := n)];
    assert es == a + [es[k]] + b && r == a + [r[k]] + b;
    if x == es[k].name {
      assert Absent(a, x);
      assert r == a + ([r[k]] + b);
      FindSkips(a, [r[k]] + b, x);
    } else {
      FindAcross(a, es[k], b, x);
      FindAcross(a, r[k], b, x);
    }
  }

  // ----- the tree of a volume

  ghost function EntriesOf(v: Vol, n: nat): seq<Entry> {
    if IsDir(v, n) then Entries(v, n) else []
  }

  /** Live directories are well formed and name nothing twice. */
  ghost predicate AllDirs(v: Vol) {
    forall n {:trigger DirOK(v, n)} :: n in v.trees ==> DirOK(v, n)
  }

  ghost predicate DirOK(v: Vol, n: nat) {
    n in v.itab && (v.itab[n].kind == Directory ==> IsDir(v, n) && Unique(Entries(v, n)))
  }

  ghost function KindOf(v: Vol, n: nat): Kind {
    if n in v.itab then v.itab[n].kind else Regular
  }

  ghost function LinksOf(v: Vol, n: nat): int {
    if n in v.itab then v.itab[n].links else 0
  }

  /** The directory tree stored in a volume. */
  ghost function Abs(v: Vol): Ns {
    Ns(map n | n in v.trees :: KindOf(v, n), map n | n in v.trees :: LinksOf(v, n),
       map n | n in v.trees && KindOf(v, n) == Directory :: NameMap(EntriesOf(v, n)))
  }

  lemma {:induction false} ListingUsed(s: Snap, k: nat)
    requires k <= MAX_FILE_BLOCKS
    ensures Used(Listing(s, k))
  {
    hide BlockEntries, Data;
    if k > 0 {
      ListingUsed(s, k - 1);
      BlockUsed(Data(s, k - 1));
    }
  }

  lemma {:induction false} ListingNamed(s: Snap, k: nat)
    requires k <= MAX_FILE_BLOCKS
    ensures DirBlock.AllNamed(Listing(s, k))
  {
    hide BlockEntries, Data;
    if k > 0 {
      ListingNamed(s, k - 1);
      BlockNamed(Data(s, k - 1));
    }
  }

  lemma EntriesNamed(v: Vol, n: nat, x: Name)
    requires IsDir(v, n) && Find(Entries(v, n), x) != 0
    ensures GoodName(x)
  {
    ListingNamed(Part(v, n, [], 0, 0), v.itab[n].size / 4096);
    var i := FoundAt(Entries(v, n), x);
  }

  lemma EntriesUsed(v: Vol, n: nat)
    ensures Used(EntriesOf(v, n))
  {
    if IsDir(v, n) { ListingUsed(Part(v, n, [], 0, 0), v.itab[n].size / 4096); }
  }

  lemma DataKept(v: Vol, v': Vol, m: nat, i: nat)
    requires FileKept(v, v', m) && i < 0x10_0000
    ensures Data(Part(v', m, [], 0, 0), i) == Data(Part(v, m, [], 0, 0), i)
  {
    hide Data;
    var a, b := Data(Part(v, m, [], 0, 0), i), Data(Part(v', m, [], 0, 0), i);
    forall x | 0 <= x < 4096 ensures a[x] == b[x] {
      var p := 4096 * i + x;
      assert p / 4096 == i && p % 4096 == x;
      assert ByteAt(Part(v', m, [], 0, 0), p) == ByteAt(Part(v, m, [], 0, 0), p);
    }
  }

  /** Directories other than the one an operation works on keep their entries. */
  lemma EntriesKept(v: Vol, v': Vol, n: nat, m: nat)
    requires ElseSame(v, v', n) && m != n && IsDir(v, m)
    ensures IsDir(v', m) && Entries(v', m) == Entries(v, m) && v'.itab[m] == v.itab[m]
  {
    hide Data, Listing, ByteAt;
    assert FileKept(v, v', m);
    var k := v.itab[m].size / 4096;
    var a, b := Part(v, m, [], 0, 0), Part(v', m, [], 0, 0);
    forall i | 0 <= i < k ensures Data(b, i) == Data(a, i) && IsMapped(b, i) == IsMapped(a, i) {
      DataKept(v, v', m, i);
    }
    ListingFrame(a, b, k);
  }

  /** Back and forth: a link count does not matter to the entries. */
  lemma RelinkBack(v: Vol, c: nat, links: nat, n: nat)
    requires c in v.itab && IsDir(Relink(v, c, links), n)
    ensures IsDir(v, n) && Entries(v, n) == Entries(Relink(v, c, links), n)
  {
    hide IsDir, Entries;
    var u := Relink(v, c, links);
    RelinkDir(u, c, v.itab[c].links, n);
    assert Relink(u, c, v.itab[c].links).itab == v.itab;
    assert Relink(u, c, v.itab[c].links) == v;
  }

  /** What DirInsert, DirRemove and the ".." edit say about the volume. */
  ghost predicate DirEdit(v: Vol, v': Vol, parent: nat, child: nat) {
    && v'.trees.Keys == v.trees.Keys && child in v.itab && child in v'.itab && child in v.trees
    && IsDir(v, parent) && IsDir(v', parent)
    && ElseSame(v, Relink(v', child, v.itab[child].links), parent)
    && (parent != child ==> v'.itab[parent].links == v.itab[parent].links)
  }

  /** Editing a directory leaves every file intact. */
  lemma EditPassed(v: Vol, v': Vol, parent: nat, child: nat)
    requires DirEdit(v, v', parent, child)
    ensures Passed(v, v')
  {
    hide FilesKept, ElseSame, DirBlocks;
    var u := Relink(v', child, v.itab[child].links);
    ElseFiles(v, u, parent);
    RelinkPassed(u, child, v'.itab[child].links);
    assert Relink(u, child, v'.itab[child].links).itab == v'.itab;
    assert Relink(u, child, v'.itab[child].links) == v';
    assert v.trees.Keys * v'.trees.Keys <= u.trees.Keys;
    FilesTrans(v, u, v');
    forall n | n in v.trees && n in v.itab ensures n in v'.itab { ElseThere(v, u, parent, n); }
  }

  lemma ElseThere(v: Vol, v': Vol, parent: nat, n: nat)
    requires ElseSame(v, v', parent) && n in v.itab && (n == parent ==> n in v'.itab)
    ensures n in v'.itab
  {
  }

  lemma EditOther(v: Vol, v': Vol, parent: nat, child: nat, n: nat)
    requires DirEdit(v, v', parent, child) && n in v.trees && DirOK(v, n) && n != parent
    ensures DirOK(v', n) && KindOf(v', n) == KindOf(v, n) && EntriesOf(v', n) == EntriesOf(v, n)
    ensures n != child ==> LinksOf(v', n) == LinksOf(v, n)
  {
    hide IsDir, Entries;
    var u := Relink(v', child, v.itab[child].links);
    ElseInode(v, u, parent, n);
    if v.itab[n].kind == Directory {
      EntriesKept(v, u, parent, n);
      RelinkBack(v', child, v.itab[child].links, n);
    } else {
      NotDir(v, n);
      NotDir(v', n);
    }
  }

  lemma NotDir(v: Vol, n: nat)
    requires n in v.itab && v.itab[n].kind != Directory
    ensures !IsDir(v, n)
  {
  }

  lemma ElseInode(v: Vol, v': Vol, n: nat, m: nat)
    requires ElseSame(v, v', n) && m != n && m in v.itab
    ensures m in v'.itab && v'.itab[m] == v.itab[m]
  {
  }

  /** The effect of one directory edit on the whole tree. */
  lemma Edited1(v: Vol, v': Vol, parent: nat, child: nat, dir: Dir)
    requires AllDirs(v) && DirEdit(v, v', parent, child) && Unique(Entries(v', parent)) && NameMap(Entries(v', parent)) == dir
    ensures AllDirs(v') && child in Abs(v).links && parent in Abs(v).dirs
    ensures Abs(v') == Ns(Abs(v).kinds, Abs(v).links[child := LinksOf(v', child)], Abs(v).dirs[parent := dir])
  {
    hide DirEdit, IsDir, Entries, NameMap, Unique, Relink, ElseSame, Abs, DirOK, KindOf, LinksOf;
    EditFacts(v, v', parent, child);
    forall n | n in v.trees ensures Stays(v, v', parent, child, n) && (n != parent ==> DirOK(v', n)) {
      assert DirOK(v, n);
      if n != parent { EditOther(v, v', parent, child, n); }
    }
    forall n | n in v'.trees ensures DirOK(v', n) {
      assert n in v.trees.Keys;
      if n == parent { DirHere(v', parent); }
    }
    AbsEqual(v, v', parent, child, dir);
  }

  lemma DirHere(v: Vol, n: nat)
    requires n in v.itab && IsDir(v, n) && Unique(Entries(v, n))
    ensures DirOK(v, n)
  {
  }

  ghost predicate Stays(v: Vol, v': Vol, parent: nat, child: nat, n: nat) {
    KindOf(v', n) == KindOf(v, n) && (n != child ==> LinksOf(v', n) == LinksOf(v, n)) && (n != parent ==> EntriesOf(v', n) == EntriesOf(v, n))
  }

  lemma AbsEqual(v: Vol, v': Vol, parent: nat, child: nat, dir: Dir)
    requires v'.trees.Keys == v.trees.Keys && child in v.trees && parent in v.trees && KindOf(v, parent) == Directory
    requires forall n :: n in v.trees ==> Stays(v, v', parent, child, n)
    requires NameMap(EntriesOf(v', parent)) == dir
    ensures child in Abs(v).links && parent in Abs(v).dirs
    ensures Abs(v') == Ns(Abs(v).kinds, Abs(v).links[child := LinksOf(v', child)], Abs(v).dirs[parent := dir])
  {
    hide EntriesOf, NameMap, KindOf, LinksOf;
    KindsEqual(v, v', parent, child);
    LinksEqual(v, v', parent, child);
    DirsEqual(v, v', parent, child, dir);
  }

  lemma KindsEqual(v: Vol, v': Vol, parent: nat, child: nat)
    requires v'.trees.Keys == v.trees.Keys && forall n :: n in v.trees ==> Stays(v, v', parent, child, n)
    ensures Abs(v').kinds == Abs(v).kinds
  {
    hide EntriesOf, NameMap, KindOf, LinksOf;
    var a, b := Abs(v).kinds, Abs(v').kinds;
    forall n ensures (n in b <==> n in a) && (n in b ==> b[n] == a[n]) {
      assert n in v'.trees.Keys <==> n in v.trees.Keys;
    }
  }

  lemma LinksEqual(v: Vol, v': Vol, parent: nat, child: nat)
    requires v'.trees.Keys == v.trees.Keys && child in v.trees && forall n :: n in v.trees ==> Stays(v, v', parent, child, n)
    ensures Abs(v').links == Abs(v).links[child := LinksOf(v', child)]
  {
    hide EntriesOf, NameMap, KindOf, LinksOf;
    var a, b := Abs(v).links[child := LinksOf(v', child)], Abs(v').links;
    forall n ensures (n in b <==> n in a) && (n in b ==> b[n] == a[n]) {
      assert n in v'.trees.Keys <==> n in v.trees.Keys;
    }
  }

  lemma DirsEqual(v: Vol, v': Vol, parent: nat, child: nat, dir: Dir)
    requires v'.trees.Keys == v.trees.Keys && parent in v.trees && KindOf(v, parent) == Directory
    requires (forall n :: n in v.trees ==> Stays(v, v', parent, child, n)) && NameMap(EntriesOf(v', parent)) == dir
    ensures Abs(v').dirs == Abs(v).dirs[parent := dir]
  {
    hide EntriesOf, NameMap, KindOf, LinksOf;
    var a, b := Abs(v).dirs[parent := dir], Abs(v').dirs;
    forall n ensures (n in b <==> n in a) && (n in b ==> b[n] == a[n]) {
      assert n in v'.trees.Keys <==> n in v.trees.Keys;
    }
  }

  lemma EditFacts(v: Vol, v': Vol, parent: nat, child: nat)
    requires DirEdit(v, v', parent, child)
    ensures v'.trees.Keys == v.trees.Keys && child in v.trees && parent in v.trees && parent in v'.itab && parent in v.itab
    ensures child in v.itab && child in v'.itab
    ensures IsDir(v', parent) && KindOf(v', parent) == Directory == KindOf(v, parent)
    ensures parent != child ==> LinksOf(v', parent) == LinksOf(v, parent)
  {
  }

  /** What the abstract tree says about a directory, said of its entries. */
  lemma AbsDir(v: Vol, d: nat)
    requires AllDirs(v)
    ensures d in Abs(v).kinds <==> d in v.trees
    ensures d in Abs(v).links <==> d in v.trees
    ensures d in Abs(v).dirs <==> d in v.trees && KindOf(v, d) == Directory
    ensures d in v.trees ==> d in v.itab && Abs(v).kinds[d] == v.itab[d].kind && Abs(v).links[d] == v.itab[d].links
    ensures d in Abs(v).dirs ==> IsDir(v, d) && Unique(Entries(v, d)) && Used(Entries(v, d)) && Abs(v).dirs[d] == NameMap(Entries(v, d))
  {
    hide IsDir, Entries, NameMap, Unique, Used;
    if d in v.trees { assert DirOK(v, d); }
    EntriesUsed(v, d);
  }

  lemma AbsName(v: Vol, d: nat, x: Name)
    requires AllDirs(v) && d in Abs(v).dirs
    ensures IsDir(v, d) && Find(Entries(v, d), x) == Ent(Abs(v), d, x)
    ensures x in Abs(v).dirs[d] <==> Find(Entries(v, d), x) != 0
    ensures x !in Abs(v).dirs[d] ==> Absent(Entries(v, d), x)
    ensures x in Abs(v).dirs[d] ==> GoodName(x)
  {
    hide IsDir, Entries, NameMap, Unique, Used, Abs, Find, Absent, AllDirs;
    AbsDir(v, d);
    InNames(Entries(v, d), x);
    if x in Abs(v).dirs[d] { EntriesNamed(v, d, x); }
  }

  /** dir_insert on the tree. */
  lemma AbsInserted(v: Vol, v': Vol, d: nat, e: Entry)
    requires AllDirs(v) && DirEdit(v, v', d, e.inode) && d in Abs(v).dirs && e.name !in Abs(v).dirs[d] && e.inode != 0
    requires Added(Entries(v, d), e, Entries(v', d)) && v'.itab[e.inode].links == v.itab[e.inode].links + 1
    ensures AllDirs(v') && e.inode in Abs(v).links && Abs(v') == Count(Bind(Abs(v), d, e.name, e.inode), e.inode, 1)
  {
    hide AllDirs, DirEdit, IsDir, Entries, NameMap, Unique, Used, Abs, Added, Absent, Find;
    EditFacts(v, v', d, e.inode);
    AbsName(v, d, e.name);
    AbsDir(v, d);
    AbsDir(v, e.inode);
    AddedUnique(Entries(v, d), e, Entries(v', d));
    Edited1(v, v', d, e.inode, NameMap(Entries(v', d)));
  }

  /** dir_remove on the tree. */
  lemma AbsRemoved(v: Vol, v': Vol, d: nat, x: Name, n: nat)
    requires AllDirs(v) && DirEdit(v, v', d, n) && d in Abs(v).dirs && Find(Entries(v, d), x) == n && n != 0
    requires Entries(v', d) == Without(Entries(v, d), x) && v'.itab[n].links + 1 == v.itab[n].links
    ensures AllDirs(v') && n in Abs(v).links && Abs(v') == Count(Unbind(Abs(v), d, x), n, -1)
  {
    hide AllDirs, DirEdit, IsDir, Entries, NameMap, Unique, Used, Abs, Find, Without;
    EditFacts(v, v', d, n);
    AbsDir(v, d);
    AbsDir(v, n);
    WithoutUnique(Entries(v, d), x);
    Edited1(v, v', d, n, NameMap(Entries(v', d)));
  }

  /** dir_set_parent_entry on the tree. */
  lemma AbsRedirected(v: Vol, v': Vol, c: nat, q: nat)
    requires AllDirs(v) && c in Abs(v).dirs && IsDir(v, c) && IsDir(v', c) && v' == v.(disk := v'.disk) && ElseSame(v, v', c)
    requires Find(Entries(v, c), DOTDOT) != 0 && q != 0 && Entries(v', c) == Redirected(Entries(v, c), DOTDOT, q)
    ensures AllDirs(v') && Abs(v') == Bind(Abs(v), c, DOTDOT, q)
  {
    hide AllDirs, IsDir, Entries, NameMap, Unique, Used, Abs, Find, Redirected, ElseSame;
    AbsDir(v, c);
    RedirectedUnique(Entries(v, c), DOTDOT, q);
    assert Relink(v', c, v.itab[c].links).itab == v'.itab;
    assert Relink(v', c, v.itab[c].links) == v';
    Edited1(v, v', c, c, NameMap(Entries(v', c)));
    var links := Abs(v).links;
    assert links[c := LinksOf(v', c)] == links;
  }

  /** An operation that failed and left every directory and inode alone. */
  lemma AbsSame(v: Vol, v': Vol, d: nat)
    requires AllDirs(v) && d in Abs(v).dirs && IsDir(v, d) && IsDir(v', d) && v' == v.(disk := v'.disk) && ElseSame(v, v', d)
    requires Entries(v', d) == Entries(v, d)
    ensures AllDirs(v') && Abs(v') == Abs(v)
  {
    hide AllDirs, IsDir, Entries, NameMap, Unique, Used, Abs, ElseSame;
    AbsDir(v, d);
    assert Relink(v', d, v.itab[d].links).itab == v'.itab;
    assert Relink(v', d, v.itab[d].links) == v';
    Edited1(v, v', d, d, NameMap(Entries(v', d)));
    var links, dirs := Abs(v).links, Abs(v).dirs;
    assert links[d := LinksOf(v', d)] == links && dirs[d := NameMap(Entries(v', d))] == dirs;
  }

  /** A changed link count on the tree. */
  lemma AbsRelinked(v: Vol, n: nat, links: nat)
    requires AllDirs(v) && n in v.trees && n in v.itab
    ensures AllDirs(Relink(v, n, links)) && n in Abs(v).links
    ensures Abs(Relink(v, n, links)) == Count(Abs(v), n, links - v.itab[n].links)
  {
    hide IsDir, Entries, NameMap, Unique, EntriesOf;
    var v' := Relink(v, n, links);
    AbsDir(v, n);
    forall m | m in v'.trees ensures DirOK(v', m) && KindOf(v', m) == KindOf(v, m) && EntriesOf(v', m) == EntriesOf(v, m) {
      assert DirOK(v, m);
      RelinkOther(v, n, links, m);
    }
    assert Abs(v').kinds == Abs(v).kinds && Abs(v').dirs == Abs(v).dirs;
    assert Abs(v').links == Abs(v).links[n := links];
  }

  lemma RelinkOther(v: Vol, n: nat, links: nat, m: nat)
    requires n in v.itab && DirOK(v, m)
    ensures DirOK(Relink(v, n, links), m) && EntriesOf(Relink(v, n, links), m) == EntriesOf(v, m)
  {
    hide Entries, Unique, IsDir;
    if v.itab[m].kind == Directory {
      RelinkDir(v, n, links, m);
    } else {
      NotDir(v, m);
      NotDir(Relink(v, n, links), m);
    }
  }

  /** Inodes other than n are as they were. */
  lemma OtherKept1(v: Vol, v': Vol, n: nat, m: nat)
    requires ElseSame(v, v', n) && m != n && m in v.trees && DirOK(v, m)
    ensures m in v'.trees && DirOK(v', m) && KindOf(v', m) == KindOf(v, m) && LinksOf(v', m) == LinksOf(v, m) && EntriesOf(v', m) == EntriesOf(v, m)
  {
    hide Entries, Unique, IsDir;
    ElseInode(v, v', n, m);
    if v.itab[m].kind == Directory {
      EntriesKept(v, v', n, m);
    } else {
      NotDir(v, m);
      NotDir(v', m);
    }
  }

  /** Everything but inode n is as it was. */
  lemma OthersKept1(v: Vol, v': Vol, n: nat)
    requires AllDirs(v) && ElseSame(v, v', n)
    ensures forall m :: m in v.trees && m != n ==>
              m in v'.trees && DirOK(v', m) && KindOf(v', m) == KindOf(v, m) && LinksOf(v', m) == LinksOf(v, m) && EntriesOf(v', m) == EntriesOf(v, m)
    ensures forall m :: m in v'.trees && m != n ==> m in v.trees
  {
    hide DirOK, KindOf, LinksOf, EntriesOf;
    forall m | m in v.trees && m != n
      ensures m in v'.trees && DirOK(v', m) && KindOf(v', m) == KindOf(v, m) && LinksOf(v', m) == LinksOf(v, m) && EntriesOf(v', m) == EntriesOf(v, m)
    {
      assert DirOK(v, m);
      OtherKept1(v, v', n, m);
    }
  }

  /** put_inode on the tree. */
  lemma AbsCreated(v: Vol, v': Vol, n: nat, kind: Kind)
    requires AllDirs(v) && ElseSame(v, v', n) && n !in v.trees && n in v'.trees && n in v'.itab
    requires v'.itab[n].kind == kind && v'.itab[n].links == 0 && (kind == Directory ==> IsDir(v', n) && Entries(v', n) == [])
    ensures AllDirs(v') && Abs(v') == Create(Abs(v), n, kind)
  {
    hide ElseSame, IsDir, Entries, NameMap, DirOK, KindOf, LinksOf, EntriesOf;
    OthersKept1(v, v', n);
    NewFacts(v', n);
    forall m | m in v'.trees ensures DirOK(v', m) {}
    assert Abs(v').kinds == Abs(v).kinds[n := kind];
    assert Abs(v').links == Abs(v).links[n := 0];
    CreatedDirs(v, v', n, kind);
  }

  lemma CreatedDirs(v: Vol, v': Vol, n: nat, kind: Kind)
    requires n !in v.trees && n in v'.trees && KindOf(v', n) == kind && (kind == Directory ==> NameMap(EntriesOf(v', n)) == map[])
    requires forall m :: m in v.trees && m != n ==> m in v'.trees && KindOf(v', m) == KindOf(v, m) && EntriesOf(v', m) == EntriesOf(v, m)
    requires forall m :: m in v'.trees && m != n ==> m in v.trees
    ensures Abs(v').dirs == if kind == Directory then Abs(v).dirs[n := map[]] else Abs(v).dirs
  {
    hide NameMap, KindOf, LinksOf, EntriesOf;
  }

  lemma NewFacts(v: Vol, n: nat)
    requires n in v.itab && (v.itab[n].kind == Directory ==> IsDir(v, n) && Entries(v, n) == [])
    ensures DirOK(v, n) && KindOf(v, n) == v.itab[n].kind && LinksOf(v, n) == v.itab[n].links
    ensures v.itab[n].kind == Directory ==> NameMap(EntriesOf(v, n)) == map[]
  {
    hide IsDir, Entries, NameMap;
    NoNames();
  }

  lemma NoNames()
    ensures NameMap([]) == map[]
  {
  }

  /** delete_inode on the tree. */
  lemma AbsDestroyed(v: Vol, v': Vol, n: nat)
    requires AllDirs(v) && ElseSame(v, v', n) && n !in v'.trees
    ensures AllDirs(v') && Abs(v') == Destroy(Abs(v), n)
  {
    hide ElseSame, IsDir, Entries, NameMap, DirOK, KindOf, LinksOf, EntriesOf;
    OthersKept1(v, v', n);
    forall m | m in v'.trees ensures DirOK(v', m) {}
    assert Abs(v').kinds == Abs(v).kinds - {n};
    assert Abs(v').links == Abs(v).links - {n};
    assert Abs(v').dirs == Abs(v).dirs - {n};
  }
}
