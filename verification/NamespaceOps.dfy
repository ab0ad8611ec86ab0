/**
 * make_dir, make_file, hard and symbolic links, unlink and rename (kernel/fs/ext2/directoryController.c), as edits of
 * the stored directory tree.
 */
module NamespaceOps {
  import opened Blocks
  import opened BlockTree
  import opened Bitmaps
  import opened Volumes
  import opened MapFileBlock
  import opened FileBlocks
  import opened FileSystem
  import WriteInode
  import opened WholeFiles
  import IndirFree
  import opened DirBlock
  import opened DirFile
  import opened DirTree
  import opened Namespace

  ghost predicate NsValid(fs: Volume)
    reads fs, fs.blocks, fs.inodes
  {
    Valid(fs) && AllDirs(View(fs))
  }

  /** The directory tree on the volume. */
  ghost function TreeIn(fs: Volume): Ns
    reads fs, fs.blocks
  {
    Abs(View(fs))
  }

  /** The directory can still grow by a block. */
  predicate Roomy(fs: Volume, d: nat)
    reads fs
  {
    d in fs.itab && fs.itab[d].size + 4096 <= MAX_SIZE
  }

  lemma LiveInTable(fs: Volume, n: nat)
    requires NsValid(fs) && n in TreeIn(fs).kinds
    ensures n in fs.trees && n in fs.itab && InTable(fs, n) && IsWord(n) && n != 0 && n != 1
    ensures fs.itab[n].kind == TreeIn(fs).kinds[n] && fs.itab[n].links == TreeIn(fs).links[n]
  {
    hide VolOK, AllDirs, Abs;
    AbsDir(View(fs), n);
  }

  lemma DirInTable(fs: Volume, d: nat)
    requires NsValid(fs)
    ensures d in TreeIn(fs).dirs <==> d in fs.trees && d in fs.itab && fs.itab[d].kind == Directory
    ensures d in TreeIn(fs).dirs ==> d in TreeIn(fs).kinds && IsDir(View(fs), d) && InTable(fs, d) && IsWord(d) && d != 0
  {
    hide VolOK, AllDirs, Abs, IsDir;
    AbsDir(View(fs), d);
    if d in TreeIn(fs).dirs { LiveInTable(fs, d); }
  }

  /** Two entries have this name. */
  ghost predicate Twice(es: seq<Entry>, x: Name) {
    exists i, j :: 0 <= i < j < |es| && es[i].name == x && es[j].name == x
  }

  /** Directory d names x twice. */
  ghost predicate Doubled(v: Vol, d: nat, x: Name) {
    IsDir(v, d) && Twice(Entries(v, d), x)
  }

  /** A usable name that d has already but that name_in cannot see. */
  ghost predicate Collides(s: Ns, d: nat, x: Name) {
    GoodName(x) && !Ascii(x) && d in s.dirs && x in s.dirs[d]
  }

  /** A volume with a name twice is not one of a sound tree. */
  lemma DoubledBreaks(v: Vol, d: nat, x: Name)
    requires Doubled(v, d, x)
    ensures !AllDirs(v)
  {
    hide Entries, DirBlocks;
    assert !DirOK(v, d);
  }

  /** dir_insert: one more entry.  A name that is there already is there twice afterwards. */
  method Link(fs: Volume, d: nat, x: Name, n: nat) returns (ok: bool)
    requires NsValid(fs) && NulFree(x) && GoodName(x) && d in TreeIn(fs).dirs && n in TreeIn(fs).kinds && Roomy(fs, d)
    modifies fs`disk, fs`itab, fs`trees, fs.blocks
    ensures Valid(fs) && (!ok || x !in old(TreeIn(fs)).dirs[d] ==> NsValid(fs))
    ensures n in old(TreeIn(fs)).links
    ensures ok && x !in old(TreeIn(fs)).dirs[d] ==> TreeIn(fs) == Count(Bind(old(TreeIn(fs)), d, x, n), n, 1)
    ensures ok && x in old(TreeIn(fs)).dirs[d] ==> Doubled(View(fs), d, x) && Inserted1(old(View(fs)), View(fs), d, x, n)
    ensures !ok ==> TreeIn(fs) == old(TreeIn(fs)) && old(fs.blocks.superFree) < 4
    ensures ok ==> old(fs.blocks.superFree) <= fs.blocks.superFree + 4
    ensures forall m :: m in old(fs.itab) && m != d ==> m in fs.itab && fs.itab[m].size == old(fs.itab[m].size)
    ensures d in fs.itab && fs.itab[d].size <= old(fs.itab[d].size) + 4096
    ensures Passed(old(View(fs)), View(fs))
  {
    hide Valid, AllDirs, IsDir, Entries, Abs, NulFree, ElseSame, DirBlock.Added, Twice, Passed, DirEdit;
    ghost var v := View(fs);
    DirInTable(fs, d);
    LiveInTable(fs, n);
    AbsName(v, d, x);
    ok := DirInsert(fs, d, x, n);
    if ok {
      EditIs(v, View(fs), d, n);
      EditPassed(v, View(fs), d, n);
      ghost var e := Entry(x, n, TypeByte(old(fs.itab[n].kind)));
      if x !in Abs(v).dirs[d] { AbsInserted(v, View(fs), d, e); } else { AddedTwice(Entries(v, d), e, Entries(View(fs), d)); }
      SizesKept(v, View(fs), d, n);
    } else {
      AbsSame(v, View(fs), d);
      DirPassed(v, View(fs), d);
    }
    AbsDir(v, n);
  }

  /** An edit of one directory that keeps the set of live inodes. */
  lemma DirPassed(v: Vol, v': Vol, d: nat)
    requires ElseSame(v, v', d) && d in v.itab && v.itab[d].kind == Directory && v'.trees.Keys == v.trees.Keys && v'.itab == v.itab
    ensures Passed(v, v')
  {
    hide ElseSame;
    ElseFiles(v, v', d);
  }

  /** The entry (x, n) has been added to directory d, and n counts it. */
  ghost predicate Inserted1(v: Vol, v': Vol, d: nat, x: Name, n: nat) {
    && DirEdit(v, v', d, n) && v'.itab[n].links == v.itab[n].links + 1
    && exists e: Entry :: e.name == x && e.inode == n && DirBlock.Added(Entries(v, d), e, Entries(v', d))
  }

  lemma AddedTwice(es: seq<Entry>, e: Entry, es': seq<Entry>)
    requires DirBlock.Added(es, e, es') && Find(es, e.name) != 0
    ensures Twice(es', e.name)
  {
    var i := FoundAt(es, e.name);
    var k :| 0 <= k <= |es| && es' == es[..k] + [e] + es[k..];
    assert es'[k] == e && es'[if i < k then i else i + 1] == es[i];
  }

  lemma EditIs(v: Vol, v': Vol, d: nat, n: nat)
    requires v'.trees.Keys == v.trees.Keys && n in v.itab && n in v'.itab && n in v.trees && IsDir(v, d) && IsDir(v', d)
    requires ElseSame(v, Relink(v', n, v.itab[n].links), d) && (d != n ==> v'.itab[d].links == v.itab[d].links)
    ensures DirEdit(v, v', d, n)
  {
  }

  lemma SizesKept(v: Vol, v': Vol, d: nat, n: nat)
    requires n in v'.itab && n in v.itab && ElseSame(v, Relink(v', n, v.itab[n].links), d)
    ensures forall m :: m in v.itab && m != d ==> m in v'.itab && v'.itab[m].size == v.itab[m].size
  {
  }

  lemma EntriesTarget(fs: Volume, d: nat)
    requires NsValid(fs) && d in TreeIn(fs).dirs && Closed(TreeIn(fs)) && LinksExact(TreeIn(fs))
    ensures IsDir(View(fs), d) && Targets(fs, Entries(View(fs), d))
  {
    hide Valid, AllDirs, IsDir, Entries, Abs, LinksExact, Closed;
    ghost var v := View(fs);
    AbsDir(v, d);
    var es := Entries(v, d);
    forall i | 0 <= i < |es| ensures Reaches(fs, es[i].inode) {
      InNames(es, es[i].name);
      FindHere(es, i);
      Counted(TreeIn(fs), d, es[i].name);
      LiveInTable(fs, es[i].inode);
    }
    TargetsAre(fs, es);
  }

  ghost predicate Reaches(fs: Volume, n: nat)
    reads fs
  {
    InTable(fs, n) && n in fs.trees && n in fs.itab && fs.itab[n].links > 0
  }

  lemma TargetsAre(fs: Volume, es: seq<Entry>)
    requires forall i :: 0 <= i < |es| ==> Reaches(fs, es[i].inode)
    ensures Targets(fs, es)
  {
  }

  lemma FindHere(es: seq<Entry>, i: nat)
    requires Unique(es) && i < |es|
    ensures Find(es, es[i].name) == es[i].inode
  {
    hide Find, Without;
    var a, b := es[..i], es[i + 1..];
    assert es == a + ([es[i]] + b);
    FindSkips(a, [es[i]] + b, es[i].name);
    FindFirst(es[i], b);
  }

  lemma FindFirst(e: Entry, b: seq<Entry>)
    ensures Find([e] + b, e.name) == e.inode
  {
  }

  /** The inode behind an entry is live and counts it. */
  lemma Counted(s: Ns, d: nat, x: Name)
    requires Closed(s) && LinksExact(s) && d in s.dirs && x in s.dirs[d]
    ensures s.dirs[d][x] in s.kinds && s.dirs[d][x] in s.links && s.links[s.dirs[d][x]] > 0
  {
    assert (d, x) in Refs(s, s.dirs[d][x]);
  }

  /** A directory that get_inode and the scans accept. */
  ghost predicate RawDir(fs: Volume, d: nat)
    reads fs, fs.blocks
  {
    InTable(fs, d) && d in fs.trees && d in fs.itab && IsDir(View(fs), d)
  }

  /** The entry x has been taken out of directory d, and its inode n counts one less. */
  ghost predicate Removed1(v: Vol, v': Vol, d: nat, x: Name, n: nat) {
    DirEdit(v, v', d, n) && Find(Entries(v, d), x) == n && Entries(v', d) == Without(Entries(v, d), x) && v'.itab[n].links + 1 == v.itab[n].links
  }

  /** dir_remove of a name that is there.  `tidy`: the volume stores a sound tree. */
  method Unlink(fs: Volume, d: nat, x: Name, ghost tidy: bool) returns (n: nat)
    requires Valid(fs) && NulFree(x) && GoodName(x) && Ascii(x)
    requires tidy ==> NsValid(fs) && d in TreeIn(fs).dirs && x in TreeIn(fs).dirs[d] && Closed(TreeIn(fs)) && LinksExact(TreeIn(fs))
    requires !tidy ==> RawDir(fs, d) && Targets(fs, Entries(View(fs), d)) && Find(Entries(View(fs), d), x) != 0
    modifies fs`disk, fs`itab, fs`trees
    ensures Valid(fs)
    ensures tidy ==> NsValid(fs) && n == old(TreeIn(fs)).dirs[d][x] && n in old(TreeIn(fs)).links
    ensures tidy ==> TreeIn(fs) == Count(Unbind(old(TreeIn(fs)), d, x), n, -1)
    ensures !tidy ==> Removed1(old(View(fs)), View(fs), d, x, n)
    ensures Passed(old(View(fs)), View(fs))
  {
    hide Valid, AllDirs, IsDir, Entries, Abs, NulFree, ElseSame, LinksExact, Closed, Find, Without, Ascii, Targets, Passed;
    ghost var v := View(fs);
    if tidy {
      DirInTable(fs, d);
      AbsName(v, d, x);
      EntriesTarget(fs, d);
    }
    DirKind(v, d);
    var ok;
    ok, n := DirRemove(fs, d, x);
    assert ok;   // the "failed mid call" branches are unreachable
    EditIs(v, View(fs), d, n);
    EditPassed(v, View(fs), d, n);
    if tidy { AbsRemoved(v, View(fs), d, x, n); }
  }

  lemma DirKind(v: Vol, d: nat)
    requires IsDir(v, d)
    ensures d in v.trees && d in v.itab && v.itab[d].kind == Directory
  {
  }

  /** dir_set_parent_entry. */
  method Redirect(fs: Volume, c: nat, q: nat, ghost tidy: bool)
    requires Valid(fs)
    requires tidy ==> NsValid(fs) && c in TreeIn(fs).dirs && q in TreeIn(fs).dirs && DOTDOT in TreeIn(fs).dirs[c]
    requires !tidy ==> RawDir(fs, c) && RawDir(fs, q) && IsWord(q) && Find(Entries(View(fs), c), DOTDOT) != 0
    modifies fs`disk
    ensures Valid(fs) && (tidy ==> NsValid(fs) && TreeIn(fs) == Bind(old(TreeIn(fs)), c, DOTDOT, q))
    ensures !tidy ==> ElseSame(old(View(fs)), View(fs), c) && View(fs) == old(View(fs)).(disk := fs.disk)
    ensures Passed(old(View(fs)), View(fs))
  {
    hide Valid, AllDirs, IsDir, Entries, Abs, ElseSame, Find, Redirected, Passed;
    ghost var v := View(fs);
    if tidy {
      DirInTable(fs, c);
      DirInTable(fs, q);
      AbsName(v, c, DOTDOT);
    }
    DirKind(v, c);
    DirKind(v, q);
    var ok := SetParentEntry(fs, c, q);
    assert ok;   // the "failed mid call" branch is unreachable
    DirPassed(v, View(fs), c);
    if tidy { AbsRedirected(v, View(fs), c, q); }
  }

  /** get_inode, a changed hard_link_cnt, and set_inode. */
  method Recount(fs: Volume, n: nat, delta: int, ghost tidy: bool)
    requires Valid(fs) && n in fs.itab && n in fs.trees && fs.itab[n].links + delta >= 0
    requires tidy ==> NsValid(fs)
    modifies fs`itab, fs`trees
    ensures Valid(fs) && n in fs.itab && View(fs) == Relink(old(View(fs)), n, old(fs.itab[n].links) + delta)
    ensures tidy ==> NsValid(fs) && n in old(TreeIn(fs)).links && TreeIn(fs) == Count(old(TreeIn(fs)), n, delta)
    ensures Passed(old(View(fs)), View(fs))
  {
    hide VolOK, AllDirs, Abs, Relink, Bitmap.Valid, Volume.BlocksReady, Passed;
    ghost var v := View(fs);
    var ino := fs.itab[n];
    var links := ino.links + delta;
    SetInode(fs, n, ino.(links := links), fs.trees[n]);
    RelinkIs(v, n, links, View(fs));
    RelinkOK(v, n, links);
    RelinkPassed(v, n, links);
    if tidy { AbsRelinked(v, n, links); }
  }

  lemma RelinkIs(v: Vol, n: nat, links: nat, v': Vol)
    requires n in v.itab && n in v.trees && v' == v.(itab := v.itab[n := v.itab[n].(links := links)], trees := v.trees[n := v.trees[n]])
    ensures v' == Relink(v, n, links)
  {
    assert v.trees[n := v.trees[n]] == v.trees;
  }

  /** delete_inode. */
  method Discard(fs: Volume, n: nat)
    requires NsValid(fs) && n in TreeIn(fs).kinds
    modifies fs`itab, fs`trees, fs.blocks, fs.inodes
    ensures NsValid(fs) && TreeIn(fs) == Destroy(old(TreeIn(fs)), n)
    ensures FilesKept(old(View(fs)), View(fs)) && fs.trees.Keys == old(fs.trees.Keys) - {n}
  {
    hide Valid, AllDirs, Abs, ElseSame, FilesKept;
    ghost var v := View(fs);
    LiveInTable(fs, n);
    var ok := Delete(fs, n);
    ElseFiles(v, View(fs), n);
    ElseLive(v, View(fs), n);
    AbsDestroyed(v, View(fs), n);
  }

  lemma ElseLive(v: Vol, v': Vol, n: nat)
    requires ElseSame(v, v', n)
    ensures v'.trees.Keys - {n} == v.trees.Keys - {n}
  {
    forall m | m != n ensures m in v.trees.Keys <==> m in v'.trees.Keys {}
  }

  // ----- new inodes

  /** A directory made of one fresh block is empty. */
  lemma FreshDir(fs: Volume, n: nat, buf: Block)
    requires Born(fs, n, buf, Directory) && Tiled(buf) && BlockEntries(buf) == []
    ensures IsDir(View(fs), n) && Entries(View(fs), n) == []
  {
    hide BlockEntries, Tiled;
    var v := View(fs);
    var s := Part(v, n, [], 0, 0);
    assert Data(s, 0) == buf by { FirstBlock(v, n, buf); }
    BlockCountIs(4096);
    MappedFirst(fs, n);
    assert Listing(s, 0) == [];
    assert Listing(s, 1) == Listing(s, 0) + BlockEntries(Data(s, 0));
  }

  lemma MappedFirst(fs: Volume, n: nat)
    requires Solid(fs, n) && fs.itab[n].size == 4096
    ensures IsMapped(Part(View(fs), n, [], 0, 0), 0)
  {
    BlockCountIs(4096);
    assert IsMapped(Now(fs, fs.itab[n].ptr, fs.trees[n], 0), 0);
  }

  lemma FirstBlock(v: Vol, n: nat, buf: Block)
    requires n in v.itab && v.itab[n].size == 4096 && Contents(v, n) == buf
    ensures Data(Part(v, n, [], 0, 0), 0) == buf
  {
    var s := Part(v, n, [], 0, 0);
    forall x | 0 <= x < 4096 ensures Data(s, 0)[x] == buf[x] {
      assert x / 4096 == 0 && x % 4096 == x;
      assert ByteAt(s, x) == Contents(v, n)[x];
    }
  }

  /** put_inode for a new directory or an empty file. */
  method NewInode(fs: Volume, isDir: bool) returns (n: nat)
    requires NsValid(fs)
    modifies fs`disk, fs`itab, fs`trees, fs.blocks, fs.inodes
    ensures NsValid(fs)
    ensures n == 1 ==> TreeIn(fs) == old(TreeIn(fs)) && (old(fs.inodes.superFree) == 0 || old(fs.blocks.superFree) < 2)
    ensures n != 1 ==> n !in old(TreeIn(fs)).kinds && n != 0 && TreeIn(fs) == Create(old(TreeIn(fs)), n, if isDir then Directory else Regular)
    ensures n != 1 ==> n in fs.itab && fs.itab[n].size == (if isDir then 4096 else 0)
    ensures n != 1 ==> old(fs.blocks.superFree) <= fs.blocks.superFree + (if isDir then 1 else 0)
    ensures n != 1 ==> fs.inodes.superFree + 1 == old(fs.inodes.superFree)
    ensures forall m :: m in old(fs.itab) && m in old(fs.trees) ==> m in fs.itab && fs.itab[m].size == old(fs.itab[m].size)
    ensures FilesKept(old(View(fs)), View(fs)) && fs.trees.Keys == old(fs.trees.Keys) + (if n == 1 then {} else {n}) && (n != 1 ==> n !in old(fs.trees))
  {
    hide Valid, AllDirs, Abs, ElseSame, IsDir, Entries, BlockEntries, Tiled, Born, FilesKept;
    ghost var v := View(fs);
    NewFacts1(fs);
    var buf: seq<byte> := [];
    if isDir {
      var blk := FreshBlock();
      buf := blk;
    }
    SmallNeeds(|buf|);
    RoomIs(fs);
    n := Put(fs, buf, isDir);
    RoomIs(fs);
    if n == 1 {
      QuietSame(v, View(fs), 1);
    } else {
      BornFacts(fs, n, buf, if isDir then Directory else Regular);
      NotYet(v, n, old(fs.trees), old(fs.inodes.used));
      if isDir { FreshDir(fs, n, buf); }
      AbsCreated(v, View(fs), n, if isDir then Directory else Regular);
    }
    OtherSizes(v, View(fs), n);
    NewFiles(v, View(fs), n, n != 1);
  }

  lemma NewFiles(v: Vol, v': Vol, n: nat, made: bool)
    requires ElseSame(v, v', n) && n !in v.trees && (n in v'.trees <==> made)
    ensures FilesKept(v, v') && v'.trees.Keys == v.trees.Keys + if made then {n} else {}
  {
    hide ElseSame, FilesKept;
    ElseFiles(v, v', n);
    ElseLive(v, v', n);
    assert v.trees.Keys - {n} == v.trees.Keys;
    assert v'.trees.Keys == (v'.trees.Keys - {n}) + if made then {n} else {};
  }

  lemma NewFacts1(fs: Volume)
    requires NsValid(fs)
    ensures fs.trees.Keys <= fs.inodes.used && 1 !in fs.trees && (forall n :: n in TreeIn(fs).kinds <==> n in fs.trees)
    ensures forall n :: n in fs.trees ==> n in fs.itab
  {
    hide VolOK, Bitmap.Valid;
    forall n | n in fs.trees ensures n in fs.itab { assert DirOK(View(fs), n); }
  }

  lemma NotYet(v: Vol, n: nat, trees: map<nat, Tree>, used: set<nat>)
    requires v.trees == trees && trees.Keys <= used && n !in used
    ensures n !in v.trees
  {
    assert n !in trees.Keys;
  }

  lemma BornFacts(fs: Volume, n: nat, buf: seq<byte>, kind: Kind)
    requires Born(fs, n, buf, kind)
    ensures n in fs.trees && n in fs.itab && fs.itab[n].kind == kind && fs.itab[n].links == 0 && fs.itab[n].size == |buf|
    ensures |buf| == 4096 || |buf| == 0 ==> |fs.trees[n]| * 8 == fs.itab[n].sectors
  {
  }

  lemma OtherSizes(v: Vol, v': Vol, n: nat)
    requires ElseSame(v, v', n) && n !in v.trees
    ensures forall m :: m in v.itab && m in v.trees ==> m in v'.itab && v'.itab[m].size == v.itab[m].size
  {
  }

  /** A failed creation changes nothing that anyone can see. */
  lemma QuietSame(v: Vol, v': Vol, n: nat)
    requires AllDirs(v) && ElseSame(v, v', n) && n !in v.trees && n !in v'.trees
    ensures AllDirs(v') && Abs(v') == Abs(v)
  {
    hide AllDirs, ElseSame;
    AbsDestroyed(v, v', n);
    var s := Abs(v);
    assert s.kinds - {n} == s.kinds && s.links - {n} == s.links && s.dirs - {n} == s.dirs;
  }

  lemma SmallNeeds(size: nat)
    requires size == 0 || size == 4096
    ensures WriteInode.Need(BlockCount(size)) == (if size == 0 then 1 else 2) && size <= MAX_SIZE
  {
  }

  // ----- the operations

  /** The tree on the volume is sound. */
  ghost predicate Sane(fs: Volume)
    reads fs, fs.blocks, fs.inodes
  {
    NsValid(fs) && NsOK(TreeIn(fs))
  }

  /** The parent comes from a path lookup: a live inode, with room to grow if it is a directory. */
  ghost predicate ParentOK(fs: Volume, d: nat)
    reads fs
  {
    InTable(fs, d) ==> d in fs.trees && Roomy(fs, d)
  }

  /** The checks every operation starts with: a usable name and a parent that is a directory. */
  method CheckParent(fs: Volume, d: nat) returns (ok: bool)
    requires NsValid(fs) && ParentOK(fs, d)
    ensures ok <==> d in TreeIn(fs).dirs
  {
    hide Valid, AllDirs, Abs, IsDir;
    DirInTable(fs, d);
    ok := InTable(fs, d) && fs.itab[d].kind == Directory;
  }

  method HasName(fs: Volume, d: nat, x: Name) returns (n: nat)
    requires NsValid(fs) && d in TreeIn(fs).dirs && NulFree(x)
    ensures n == (if Ascii(x) then Ent(TreeIn(fs), d, x) else 0) && (n != 0 <==> x in TreeIn(fs).dirs[d] && Ascii(x))
    ensures n != 0 ==> n == TreeIn(fs).dirs[d][x] && GoodName(x)
  {
    hide Valid, AllDirs, Abs, IsDir, Entries, Find, Ascii;
    AbsName(View(fs), d, x);
    n := NameIn(fs, d, x);
  }

  /** free_inode on an inode that has no blocks: the failure path of make_file. */
  method Abandon(fs: Volume, n: nat)
    requires NsValid(fs) && n in TreeIn(fs).kinds && fs.itab[n].size == 0 && fs.itab[n].kind == Regular
    modifies fs`itab, fs`trees, fs.inodes
    ensures NsValid(fs) && TreeIn(fs) == Destroy(old(TreeIn(fs)), n)
    ensures FilesKept(old(View(fs)), View(fs)) && fs.trees.Keys == old(fs.trees.Keys) - {n}
  {
    hide VolOK, AllDirs, Abs, ElseSame, Bitmap.Valid, Volume.BlocksReady, FilesKept;
    ghost var v := View(fs);
    LiveInTable(fs, n);
    NoBlocks(fs, n);
    DropInode(fs, n, fs.itab[n]);
    Deleted(v, n, View(fs), v.itab[n]);
    ElseFiles(v, View(fs), n);
    ElseLive(v, View(fs), n);
    AbsDestroyed(v, View(fs), n);
    var _ := fs.inodes.Free(n);
  }

  lemma NoBlocks(fs: Volume, n: nat)
    requires Valid(fs) && n in fs.trees && n in fs.itab && fs.itab[n].size == 0 && fs.itab[n].kind == Regular
    ensures fs.trees[n] == map[] && IndirFree.AllBlocks(fs.trees[n]) == {} && fs.blocks.used - {} == fs.blocks.used
  {
    var t := fs.trees[n];
    assert FileOK(View(fs), fs.itab[n], t);
    BlockCountIs(0);
    if t != map[] { var i := SomeData(t, |fs.disk|); }
  }

  /** A tree that is not empty maps some file block. */
  lemma SomeData(t: Tree, nblocks: nat) returns (i: nat)
    requires BlockTree.Rooted(t, nblocks) && NoEmpty(t) && t != map[]
    ensures i < MAX_FILE_BLOCKS && Slot(t, i) != 0
  {
    var k :| k in t;
    i := DataBelow(t, nblocks, k);
  }

  /** make_file. */
  method MakeFile(fs: Volume, d: nat, x: Name) returns (n: nat)
    requires Sane(fs) && NulFree(x) && ParentOK(fs, d)
    modifies fs`disk, fs`itab, fs`trees, fs.blocks, fs.inodes
    ensures Valid(fs) && (n == 1 || !Collides(old(TreeIn(fs)), d, x) ==> Sane(fs))
    ensures n == 1 ==> TreeIn(fs) == old(TreeIn(fs))
    ensures n != 1 && !Collides(old(TreeIn(fs)), d, x) ==> NewFile(old(TreeIn(fs)), d, x, n, Regular, TreeIn(fs))
    ensures n != 1 && Collides(old(TreeIn(fs)), d, x) ==> Doubled(View(fs), d, x)
    ensures n == 1 ==> !Offered(old(TreeIn(fs)), d, x) || old(fs.inodes.superFree) == 0 || old(fs.blocks.superFree) < 4
    ensures n != 1 ==> fs.inodes.superFree + 1 == old(fs.inodes.superFree) && old(fs.blocks.superFree) <= fs.blocks.superFree + 4
    ensures n != 1 && d in old(fs.itab) && d in old(fs.trees) ==> d in fs.itab && fs.itab[d].size <= old(fs.itab[d].size) + 4096
    ensures FilesKept(old(View(fs)), View(fs))
    ensures n != 1 ==> n !in old(fs.trees) && n in fs.trees && n in fs.itab && fs.itab[n].size == 0 && Contents(View(fs), n) == []
  {
    hide Valid, AllDirs, Abs, NulFree, Treelike, LinksExact, Ascii, Doubled, FilesKept, Passed;
    ghost var s, v := TreeIn(fs), View(fs);
    KeptSame(v);
    if !GoodName(x) { return 1; }
    var isDir := CheckParent(fs, d);
    if !isDir { return 1; }
    var there := HasName(fs, d, x);
    if there != 0 { return 1; }
    DirInTable(fs, d);
    n := NewInode(fs, false);
    if n == 1 { return; }
    ghost var v1 := View(fs);
    if x !in s.dirs[d] { FileMade(s, d, x, n, Regular); }
    var ok := Link(fs, d, x, n);
    ghost var v2 := View(fs);
    KeptMore(v, v1, v2);
    if !ok {
      LiveInTable(fs, n);
      Abandon(fs, n);
      DestroyNew(s, n);
      KeptGone(v, v2, View(fs));
      return 1;
    }
    PassedKeys(v1, v2, n);
  }

  lemma KeptSame(v: Vol)
    ensures FilesKept(v, v)
  {
  }

  lemma KeptMore(a: Vol, b: Vol, c: Vol)
    requires FilesKept(a, b) && a.trees.Keys <= b.trees.Keys && Passed(b, c)
    ensures FilesKept(a, c) && c.trees.Keys == b.trees.Keys
  {
    hide FilesKept;
    FilesTrans(a, b, c);
  }

  lemma KeptGone(a: Vol, b: Vol, c: Vol)
    requires FilesKept(a, b) && a.trees.Keys <= b.trees.Keys && FilesKept(b, c)
    ensures FilesKept(a, c)
  {
    hide FilesKept;
    FilesTrans(a, b, c);
  }

  lemma PassedKeys(v: Vol, v': Vol, n: nat)
    requires Passed(v, v') && n in v.trees
    ensures n in v'.trees
  {
    assert n in v.trees.Keys;
  }

  /** s' is s with the new file n under the free name x of d. */
  ghost predicate NewFile(s: Ns, d: nat, x: Name, n: nat, kind: Kind, s': Ns) {
    && Free1(s, d, x) && n !in s.kinds && n in Create(s, n, kind).links && d in Create(s, n, kind).dirs
    && s' == Count(Bind(Create(s, n, kind), d, x, n), n, 1)
  }

  /** d is a directory and x a usable name that it does not have. */
  ghost predicate Free1(s: Ns, d: nat, x: Name) {
    0 < |x| < 256 && d in s.dirs && x !in s.dirs[d]
  }

  /** The name passes the checks: it is free, or name_in cannot see that it is not. */
  ghost predicate Offered(s: Ns, d: nat, x: Name) {
    Free1(s, d, x) || Collides(s, d, x)
  }

  lemma DestroyNew(s: Ns, n: nat)
    requires NsOK(s) && n !in s.kinds
    ensures Destroy(Create(s, n, Regular), n) == s
  {
    assert s.links.Keys == s.kinds.Keys;
    DestroyCreate(s, n, Regular);
  }

  /**
   * make_dir.  If it runs out of space between its three insertions (`partial`), the tree is left with a directory
   * that its parent does not name; link counts are exact even then.
   */
  method MakeDir(fs: Volume, d: nat, x: Name) returns (n: nat, partial: bool)
    requires Sane(fs) && NulFree(x) && ParentOK(fs, d)
    modifies fs`disk, fs`itab, fs`trees, fs.blocks, fs.inodes
    ensures Valid(fs) && (n == 1 || !Collides(old(TreeIn(fs)), d, x) ==> NsValid(fs) && LinksExact(TreeIn(fs)))
    ensures n == 1 || !Collides(old(TreeIn(fs)), d, x) ==> !partial ==> Sane(fs)
    ensures partial ==> n == 1 && Offered(old(TreeIn(fs)), d, x) && old(fs.blocks.superFree) < 13
    ensures n == 1 && !partial ==> TreeIn(fs) == old(TreeIn(fs))
    ensures n == 1 && !partial ==> !Offered(old(TreeIn(fs)), d, x) || old(fs.inodes.superFree) == 0 || old(fs.blocks.superFree) < 2
    ensures n != 1 && !Collides(old(TreeIn(fs)), d, x) ==> NewDir(old(TreeIn(fs)), d, x, n, TreeIn(fs))
    ensures n != 1 && Collides(old(TreeIn(fs)), d, x) ==> Doubled(View(fs), d, x)
    ensures FilesKept(old(View(fs)), View(fs))
  {
    hide Valid, AllDirs, Abs, NulFree, Treelike, LinksExact, Ent, Ascii, Doubled, FilesKept, Passed;
    ghost var s, v := TreeIn(fs), View(fs);
    KeptSame(v);
    partial := false;
    if !GoodName(x) { return 1, partial; }
    var isDir := CheckParent(fs, d);
    if !isDir { return 1, partial; }
    var there := HasName(fs, d, x);
    if there != 0 { return 1, partial; }
    DirInTable(fs, d);
    n := NewInode(fs, true);
    if n == 1 { return; }
    if x !in s.dirs[d] { DirMade(s, d, x, n); }
    LinksHere(s, d, d);
    NotLiveDir(s, n);
    ghost var v1 := View(fs);
    var ok := FurnishDir(fs, d, x, n, s);
    KeptMore(v, v1, View(fs));
    partial := !ok;
    if !ok { return 1, partial; }
  }

  lemma NotLiveDir(s: Ns, n: nat)
    requires NsOK(s) && n !in s.kinds
    ensures n !in s.dirs
  {
  }

  /** The three insertions of make_dir: ".", ".." and the name in the parent. */
  method FurnishDir(fs: Volume, d: nat, x: Name, n: nat, ghost s: Ns) returns (ok: bool)
    requires NsValid(fs) && NsOK(s) && TreeIn(fs) == Create(s, n, Directory) && NulFree(x) && Offered(s, d, x) && d in s.links
    requires n !in s.kinds && n !in s.dirs && n != 0 && n in fs.itab && fs.itab[n].size == 4096 && Roomy(fs, d)
    modifies fs`disk, fs`itab, fs`trees, fs.blocks
    ensures Valid(fs) && (!ok || Free1(s, d, x) ==> NsValid(fs) && LinksExact(TreeIn(fs)))
    ensures ok && Free1(s, d, x) ==> TreeIn(fs) == MkDir(s, d, x, n)
    ensures ok && !Free1(s, d, x) ==> Doubled(View(fs), d, x)
    ensures !ok ==> old(fs.blocks.superFree) < 12
    ensures Passed(old(View(fs)), View(fs))
  {
    hide Valid, AllDirs, Abs, NulFree, NsOK, LinksExact, Ent, Ascii, Doubled, Passed;
    ghost var v := View(fs);
    MkDirSteps(s, d, x, n);
    DotNames();
    ok := Link(fs, n, DOT, n);
    if !ok { return; }
    ghost var v1 := View(fs);
    ok := Link(fs, n, DOTDOT, d);
    ghost var v2 := View(fs);
    PassedTrans(v, v1, v2);
    if !ok { return; }
    ok := Link(fs, d, x, n);
    PassedTrans(v, v2, View(fs));
    if Free1(s, d, x) { MkDirExact(s, d, x, n); }
  }

  lemma MkDirExact(s: Ns, d: nat, x: Name, n: nat)
    requires NsOK(s) && Free1(s, d, x) && n !in s.kinds && n !in s.dirs && d in s.links
    ensures LinksExact(MkDir(s, d, x, n))
  {
    MkDirLinks(s, d, x, n);
  }

  lemma DotNames()
    ensures NulFree(DOT) && GoodName(DOT) && NulFree(DOTDOT) && GoodName(DOTDOT) && DOT != DOTDOT
  {
    assert DOT[0] == 46 && |DOT| == 1 && |DOTDOT| == 2;
  }

  ghost predicate NewDir(s: Ns, d: nat, x: Name, n: nat, s': Ns) {
    Free1(s, d, x) && n !in s.kinds && n !in s.dirs && d in s.links && s' == MkDir(s, d, x, n)
  }

  /** The states make_dir passes through. */
  lemma MkDirSteps(s: Ns, d: nat, x: Name, n: nat)
    requires NsOK(s) && d in s.dirs && d in s.links && n !in s.kinds && n !in s.dirs && n != 0
    ensures var s0 := Create(s, n, Directory);
            && LinksExact(s0) && d in s0.dirs && d in s0.kinds && n in s0.dirs && n in s0.kinds && DOT !in s0.dirs[n] && n != d
            && var s1 := Count(Bind(s0, n, DOT, n), n, 1);
            && LinksExact(s1) && DOTDOT !in s1.dirs[n] && d in s1.kinds && d in s1.links
            && var s2 := Count(Bind(s1, n, DOTDOT, d), d, 1);
            LinksExact(s2) && s2.dirs[d] == s.dirs[d] && n in s2.kinds && n in s2.links
  {
    hide LinksExact, Ent, Climbs, AllClimb, Parents, OneName, Namespace.AllNamed, Dots;
    DotNames();
    DirLive(s, d);
    var s0 := Create(s, n, Directory);
    LinkCreated(s, n, Directory);
    LinkAdded(s0, n, DOT, n);
    var s1 := Count(Bind(s0, n, DOT, n), n, 1);
    LinkAdded(s1, n, DOTDOT, d);
  }

  /** sys_link_inode: another name for a file. */
  method HardLink(fs: Volume, d: nat, x: Name, n: nat) returns (ok: bool)
    requires Sane(fs) && NulFree(x) && ParentOK(fs, d) && (n in fs.inodes.used ==> n in fs.trees)
    modifies fs`disk, fs`itab, fs`trees, fs.blocks
    ensures Valid(fs) && (!ok || !Collides(old(TreeIn(fs)), d, x) ==> Sane(fs))
    ensures !ok ==> TreeIn(fs) == old(TreeIn(fs))
    ensures ok && !Collides(old(TreeIn(fs)), d, x) ==> Linked1(old(TreeIn(fs)), d, x, n, TreeIn(fs))
    ensures ok && Collides(old(TreeIn(fs)), d, x) ==> Doubled(View(fs), d, x)
    ensures ok ==> n in old(TreeIn(fs)).kinds && n !in old(TreeIn(fs)).dirs
    ensures !ok ==> !Offered(old(TreeIn(fs)), d, x) || n !in old(TreeIn(fs)).kinds || n in old(TreeIn(fs)).dirs || old(fs.blocks.superFree) < 4
    ensures Passed(old(View(fs)), View(fs))
  {
    hide Valid, AllDirs, Abs, NulFree, Treelike, LinksExact, Ascii, Doubled, Passed;
    ghost var s := TreeIn(fs);
    PassedSame(View(fs));
    InodesReady(fs);
    NewFacts1(fs);
    var taken := fs.inodes.Exists(n);
    if !taken { return false; }
    DirInTable(fs, n);
    if fs.itab[n].kind == Directory { return false; }
    if !GoodName(x) { return false; }
    var isDir := CheckParent(fs, d);
    if !isDir { return false; }
    var there := HasName(fs, d, x);
    if there != 0 { return false; }
    DirInTable(fs, d);
    if x !in s.dirs[d] { FileLinked(s, d, x, n); }
    ok := Link(fs, d, x, n);
  }

  lemma InodesReady(fs: Volume)
    requires NsValid(fs)
    ensures fs.inodes.Valid()
  {
  }

  ghost predicate Linked1(s: Ns, d: nat, x: Name, n: nat, s': Ns) {
    Free1(s, d, x) && n in s.kinds && n !in s.dirs && n in s.links && s' == Count(Bind(s, d, x, n), n, 1)
  }

  /** unlink_inode: a name of a file goes, and the file with its last name. */
  method UnlinkFile(fs: Volume, d: nat, x: Name) returns (ok: bool, gone: set<nat>)
    requires Sane(fs) && NulFree(x) && ParentOK(fs, d)
    modifies fs`disk, fs`itab, fs`trees, fs.blocks, fs.inodes
    ensures Sane(fs)
    ensures ok <==> Ascii(x) && d in old(TreeIn(fs)).dirs && x in old(TreeIn(fs)).dirs[d] && old(TreeIn(fs)).dirs[d][x] !in old(TreeIn(fs)).dirs
    ensures !ok ==> TreeIn(fs) == old(TreeIn(fs))
    ensures ok ==> Unlinked1(old(TreeIn(fs)), d, x, TreeIn(fs))
    ensures TreeIn(fs).kinds.Keys == old(TreeIn(fs)).kinds.Keys - gone
    ensures FilesKept(old(View(fs)), View(fs))
  {
    hide Valid, AllDirs, Abs, NulFree, Treelike, LinksExact, Ent, Ascii, FilesKept, Passed;
    ghost var s, v := TreeIn(fs), View(fs);
    KeptSame(v);
    TreeFacts(s);
    ok, gone := false, {};
    var isDir := CheckParent(fs, d);
    if !isDir { return; }
    var n := HasName(fs, d, x);
    if n == 0 { return; }
    EntryLive(s, d, x);
    DirInTable(fs, n);
    LiveInTable(fs, n);
    if fs.itab[n].kind == Directory { return; }
    FileUnlinked(s, d, x);
    var removed := Unlink(fs, d, x, true);
    ghost var v1 := View(fs);
    KeptMore(v, v, v1);
    LiveInTable(fs, removed);
    if fs.itab[removed].links == 0 {
      FileGone(TreeIn(fs), removed);
      Discard(fs, removed);
      KeptGone(v, v1, View(fs));
      gone := {removed};
    }
    ok := true;
  }

  lemma TreeFacts(s: Ns)
    requires NsOK(s)
    ensures Closed(s) && LinksExact(s) && Treelike(s) && s.links.Keys == s.kinds.Keys && Dots(s) && Parents(s)
  {
  }

  lemma EntryLive(s: Ns, d: nat, x: Name)
    requires NsOK(s) && d in s.dirs && x in s.dirs[d]
    ensures s.dirs[d][x] in s.kinds && s.dirs[d][x] in s.links && Ent(s, d, x) == s.dirs[d][x] != 0
  {
    assert s.links.Keys == s.kinds.Keys;
  }

  /** s' is s without name x of d, and without the file if that was its last name. */
  ghost predicate Unlinked1(s: Ns, d: nat, x: Name, s': Ns) {
    && d in s.dirs && x in s.dirs[d] && s.dirs[d][x] in s.links
    && var n := s.dirs[d][x];
    var u := Count(Unbind(s, d, x), n, -1);
    s' == if u.links[n] == 0 then Destroy(u, n) else u
  }

  /** unlink_dir: an empty directory goes. */
  method UnlinkDir(fs: Volume, d: nat, x: Name) returns (ok: bool, gone: set<nat>)
    requires Sane(fs) && NulFree(x) && ParentOK(fs, d)
    modifies fs`disk, fs`itab, fs`trees, fs.blocks, fs.inodes
    ensures Sane(fs)
    ensures ok <==> Ascii(x) && exists n :: EmptyDir(old(TreeIn(fs)), d, x, n)
    ensures !ok ==> TreeIn(fs) == old(TreeIn(fs))
    ensures ok ==> RemovedDir(old(TreeIn(fs)), d, x, TreeIn(fs))
    ensures TreeIn(fs).kinds.Keys == old(TreeIn(fs)).kinds.Keys - gone
    ensures FilesKept(old(View(fs)), View(fs))
  {
    hide Valid, AllDirs, Abs, NulFree, Treelike, LinksExact, Ent, EmptyDir, Subdir, Ascii, FilesKept, Passed;
    ghost var s, v := TreeIn(fs), View(fs);
    KeptSame(v);
    TreeFacts(s);
    ok, gone := false, {};
    if x == DOT || x == DOTDOT {
      NotEmptyDir(s, d, x, 0);
      return;
    }
    var isDir := CheckParent(fs, d);
    if !isDir {
      NotEmptyDir(s, d, x, 0);
      return;
    }
    var n := HasName(fs, d, x);
    if Ascii(x) { NotEmptyDir(s, d, x, n); }
    if n == 0 { return; }
    EntryLive(s, d, x);
    LiveInTable(fs, n);
    DirInTable(fs, n);
    if fs.itab[n].kind != Directory { return; }
    var empty := DirIsEmpty(fs, n);
    EmptyMeans(fs, n);
    EmptyDirIs(s, d, x, n);
    if !empty { return; }
    DirRemoved(s, d, x, n);
    var removed := Unlink(fs, d, x, true);
    ghost var v1 := View(fs);
    StillLive(s, d, x, n);
    LiveInTable(fs, d);
    Recount(fs, d, -1, true);
    ghost var v2 := View(fs);
    PassedTrans(v, v1, v2);
    KeptMore(v, v, v2);
    Discard(fs, removed);
    KeptGone(v, v2, View(fs));
    ok, gone := true, {removed};
  }

  ghost predicate RemovedDir(s: Ns, d: nat, x: Name, s': Ns) {
    && d in s.dirs && x in s.dirs[d] && d in s.links && s.dirs[d][x] in s.links && s.dirs[d][x] in s.dirs
    && s' == RmDir(s, d, x, s.dirs[d][x])
  }

  lemma NotEmptyDir(s: Ns, d: nat, x: Name, n: nat)
    requires NsOK(s) && (d in s.dirs && !IsDot(x) ==> Ent(s, d, x) == n)
    ensures forall m :: EmptyDir(s, d, x, m) ==> d in s.dirs && !IsDot(x) && m == n && n in s.dirs
    ensures 0 !in s.dirs
  {
    forall m | EmptyDir(s, d, x, m) ensures d in s.dirs && !IsDot(x) && m == n && n in s.dirs {
      EmptyIsDots(s, d, x, m);
    }
  }

  /** dir_is_empty in terms of the tree. */
  lemma EmptyMeans(fs: Volume, n: nat)
    requires NsValid(fs) && n in TreeIn(fs).dirs
    ensures IsDir(View(fs), n)
    ensures OnlyDots(Entries(View(fs), n)) <==> forall y: Name :: Ent(TreeIn(fs), n, y) != 0 ==> IsDot(y)
  {
    hide Valid, AllDirs, Abs, IsDir, Entries, Find;
    var v := View(fs);
    AbsDir(v, n);
    var es := Entries(v, n);
    forall y: Name ensures Find(es, y) == Ent(TreeIn(fs), n, y) { AbsName(v, n, y); }
    if OnlyDots(es) {
      forall y: Name | Find(es, y) != 0 ensures IsDot(y) { var i := FoundAt(es, y); }
    } else {
      var i :| 0 <= i < |es| && es[i].name != DOT && es[i].name != DOTDOT;
      FindHere(es, i);
      assert Ent(TreeIn(fs), n, es[i].name) != 0;
    }
  }

  lemma EmptyDirIs(s: Ns, d: nat, x: Name, n: nat)
    requires Ent(s, d, x) == n && n in s.dirs && !IsDot(x)
    ensures EmptyDir(s, d, x, n) <==> forall y: Name :: Ent(s, n, y) != 0 ==> IsDot(y)
  {
  }

  lemma StillLive(s: Ns, d: nat, x: Name, n: nat)
    requires NsOK(s) && EmptyDir(s, d, x, n) && d in s.dirs && x in s.dirs[d] && n in s.links && d in s.links
    ensures var u := Count(Unbind(s, d, x), n, -1); d in u.kinds && d in u.links && u.links[d] >= 1 && n in u.kinds && d != n
  {
    EmptyIsDots(s, d, x, n);
    var u := Count(Unbind(s, d, x), n, -1);
    assert s.dirs[n][DOTDOT] == d;
    assert (n, DOTDOT) in Refs(s, d);
  }

  const MAX_DIR_DEPTH: nat := 1024

  /**
   * is_ancestor: false only when the way up from q ends at the root without passing c.  Chains longer than
   * MAX_DIR_DEPTH count as passing it.
   */
  method IsAncestor(fs: Volume, c: nat, q: nat) returns (yes: bool)
    requires Sane(fs) && q in TreeIn(fs).dirs
    ensures yes <==> !ClimbsClear(TreeIn(fs), q, c, 1023)
  {
    hide Valid, AllDirs, Abs, NulFree, LinksExact, Ent, Closed, Parents, OneName, Namespace.AllNamed, AllClimb;
    ghost var s := TreeIn(fs);
    TreeFacts(s);
    DotNames();
    DotsAscii();
    var cur := q;
    for depth := 0 to MAX_DIR_DEPTH
      invariant cur in s.dirs
      invariant depth < MAX_DIR_DEPTH ==> (ClimbsClear(s, q, c, MAX_DIR_DEPTH - 1) <==> ClimbsClear(s, cur, c, MAX_DIR_DEPTH - 1 - depth))
      invariant depth == MAX_DIR_DEPTH ==> !ClimbsClear(s, q, c, MAX_DIR_DEPTH - 1)
    {
      if cur == c { return true; }
      if cur == ROOT { return false; }
      assert Dotted(s, cur);
      var up := HasName(fs, cur, DOTDOT);
      NotZero(s, up);
      if up == 0 { assert false; }   // every directory has a ".."
      cur := up;
    }
    return true;
  }

  /** What rename_inode does: a file moves, or a directory with its "..". */
  ghost predicate Renamed(s: Ns, p: nat, x: Name, q: nat, y: Name, s': Ns) {
    && p in s.dirs && x in s.dirs[p] && Free1(s, q, y) && s.dirs[p][x] in s.links && p in s.links && q in s.links
    && var c := s.dirs[p][x];
    if c in s.dirs then s' == MvDir(s, p, x, q, y, c)
    else s' == Count(Unbind(Count(Bind(s, q, y, c), c, 1), p, x), c, -1)
  }

  /** rename_inode goes ahead with the old name: no dot, found by name_in, and no directory moved below itself. */
  ghost predicate MayMove(s: Ns, p: nat, x: Name, q: nat, y: Name) {
    && !IsDot(x) && !IsDot(y) && Ascii(x) && p in s.dirs && x in s.dirs[p] && q in s.dirs
    && (s.dirs[p][x] in s.dirs ==> ClimbsClear(s, q, s.dirs[p][x], 1023))
  }

  /** The new name is usable and free as well. */
  ghost predicate MayRename(s: Ns, p: nat, x: Name, q: nat, y: Name) {
    MayMove(s, p, x, q, y) && Free1(s, q, y)
  }

  /** rename_inode. */
  method Rename(fs: Volume, p: nat, x: Name, q: nat, y: Name) returns (ok: bool)
    requires Sane(fs) && NulFree(x) && NulFree(y) && ParentOK(fs, p) && ParentOK(fs, q)
    modifies fs`disk, fs`itab, fs`trees, fs.blocks
    ensures Valid(fs) && (!ok || !Collides(old(TreeIn(fs)), q, y) ==> Sane(fs))
    ensures !ok ==> TreeIn(fs) == old(TreeIn(fs))
    ensures ok && !Collides(old(TreeIn(fs)), q, y) ==> MayRename(old(TreeIn(fs)), p, x, q, y) && Renamed(old(TreeIn(fs)), p, x, q, y, TreeIn(fs))
    ensures ok && Collides(old(TreeIn(fs)), q, y) ==> MayMove(old(TreeIn(fs)), p, x, q, y) && Doubled(View(fs), q, y)
    ensures !ok ==> !MayMove(old(TreeIn(fs)), p, x, q, y) || !Offered(old(TreeIn(fs)), q, y) || old(fs.blocks.superFree) < 4
    ensures Passed(old(View(fs)), View(fs))
  {
    hide Valid, AllDirs, Abs, NulFree, Treelike, LinksExact, Ent, Closed, ClimbsClear, Ascii, Doubled, Passed;
    ghost var s := TreeIn(fs);
    PassedSame(View(fs));
    TreeFacts(s);
    if x == DOT || x == DOTDOT || y == DOT || y == DOTDOT { return false; }
    var isDir := CheckParent(fs, p);
    if !isDir { return false; }
    isDir := CheckParent(fs, q);
    if !isDir { return false; }
    var c := HasName(fs, p, x);
    if c == 0 { return false; }
    var there := HasName(fs, q, y);
    if there != 0 { return false; }
    EntryLive(s, p, x);
    NotRoot(s, p, x);
    if c == ROOT { return false; }
    DirInTable(fs, p);
    DirInTable(fs, q);
    LiveInTable(fs, c);
    DirInTable(fs, c);
    if !GoodName(y) { return false; }   // dir_insert refuses it
    if fs.itab[c].kind == Directory {
      var ancestor := IsAncestor(fs, c, q);
      if ancestor { return false; }
      ok := MoveDir(fs, p, x, q, y, c);
    } else {
      ok := MoveFile(fs, p, x, q, y, c);
    }
  }

  lemma NotRoot(s: Ns, p: nat, x: Name)
    requires NsOK(s) && p in s.dirs && x in s.dirs[p] && !IsDot(x)
    ensures s.dirs[p][x] != ROOT
  {
    if s.dirs[p][x] in s.dirs { assert Subdir(s, p, x); }
  }

  // ----- a rename onto a name that is there but not seen

  /** Targets, of a volume as a value. */
  ghost predicate LiveTargets(v: Vol, limit: nat, es: seq<Entry>) {
    forall i :: 0 <= i < |es| ==> LiveTarget(v, limit, es[i].inode)
  }

  ghost predicate LiveTarget(v: Vol, limit: nat, n: nat) {
    0 < n < limit && n in v.trees && n in v.itab && v.itab[n].links > 0
  }

  lemma TargetsLive(fs: Volume, es: seq<Entry>)
    ensures Targets(fs, es) <==> LiveTargets(View(fs), fs.inodes.limit, es)
  {
  }

  lemma InsertedLinks(v: Vol, v': Vol, q: nat, y: Name, c: nat, limit: nat, n: nat)
    requires Inserted1(v, v', q, y, c) && LiveTarget(v, limit, n)
    ensures LiveTarget(v', limit, n)
  {
    hide IsDir, Entries, DirBlock.Added;
    assert n in v.trees.Keys;
    if n != q && n != c { ElseInode(v, Relink(v', c, v.itab[c].links), q, n); }
    EditFacts(v, v', q, c);
  }

  /** A directory that is not edited keeps its entries. */
  lemma DirStays(v: Vol, v': Vol, parent: nat, child: nat, m: nat)
    requires DirEdit(v, v', parent, child) && IsDir(v, m) && m != parent
    ensures IsDir(v', m) && Entries(v', m) == Entries(v, m)
  {
    hide IsDir, Entries;
    var u := Relink(v', child, v.itab[child].links);
    EntriesKept(v, u, parent, m);
    RelinkBack(v', child, v.itab[child].links, m);
  }

  lemma AddedKeeps(es: seq<Entry>, e: Entry, es': seq<Entry>, x: Name)
    requires DirBlock.Added(es, e, es') && x != e.name
    ensures Find(es', x) == Find(es, x)
    ensures forall i :: 0 <= i < |es'| ==> es'[i] == e || es'[i] in es
  {
    hide Find;
    var k :| 0 <= k <= |es| && es' == es[..k] + [e] + es[k..];
    FindAcross(es[..k], e, es[k..], x);
    assert es[..k] + es[k..] == es;
    forall i | 0 <= i < |es'| ensures es'[i] == e || es'[i] in es { AddedAt(es, e, k, i); }
  }

  /** After the insertion the old name can be removed as before. */
  lemma ClashTargets(v: Vol, v': Vol, limit: nat, p: nat, x: Name, q: nat, y: Name, c: nat)
    requires Inserted1(v, v', q, y, c) && IsDir(v, p) && LiveTargets(v, limit, Entries(v, p)) && Find(Entries(v, p), x) == c && x != y
    requires LiveTarget(v, limit, c)
    ensures IsDir(v', p) && LiveTargets(v', limit, Entries(v', p)) && Find(Entries(v', p), x) == c
  {
    hide IsDir, Entries, DirBlock.Added, Find, LiveTarget, DirEdit;
    var es := Entries(v, p);
    EditFacts(v, v', q, c);
    if p == q {
      var e: Entry :| e.name == y && e.inode == c && DirBlock.Added(es, e, Entries(v', p));
      AddedKeeps(es, e, Entries(v', p), x);
    } else {
      DirStays(v, v', q, c, p);
    }
    var es' := Entries(v', p);
    forall i | 0 <= i < |es'| ensures LiveTarget(v', limit, es'[i].inode) {
      if es'[i] in es { var k :| 0 <= k < |es| && es[k] == es'[i]; }
      InsertedLinks(v, v', q, y, c, limit, es'[i].inode);
    }
  }

  lemma TwiceWithout(es: seq<Entry>, x: Name, y: Name)
    requires Twice(es, y) && x != y && Find(es, x) != 0
    ensures Twice(Without(es, x), y)
  {
    var i, j :| 0 <= i < j < |es| && es[i].name == y && es[j].name == y;
    var k := WithoutSub(es, x);
    var w := Without(es, x);
    var i', j' := if i < k then i else i - 1, if j < k then j else j - 1;
    assert w[i'] == es[i] && w[j'] == es[j];
  }

  /** Removing the old name leaves the new one there twice. */
  lemma RemovedDoubled(v: Vol, v': Vol, p: nat, x: Name, c: nat, q: nat, y: Name)
    requires Removed1(v, v', p, x, c) && Doubled(v, q, y) && x != y && c != 0
    ensures Doubled(v', q, y)
  {
    hide IsDir, Entries, Find, Without, Twice;
    if p == q { TwiceWithout(Entries(v, p), x, y); } else { DirStays(v, v', p, c, q); }
  }

  lemma RelinkDoubled(v: Vol, n: nat, links: nat, q: nat, y: Name)
    requires n in v.itab && Doubled(v, q, y)
    ensures Doubled(Relink(v, n, links), q, y)
  {
    hide IsDir, Entries, Twice;
    RelinkDir(v, n, links, q);
  }

  lemma RedirectDoubled(v: Vol, v': Vol, c: nat, q: nat, y: Name)
    requires ElseSame(v, v', c) && c != q && Doubled(v, q, y)
    ensures Doubled(v', q, y)
  {
    hide IsDir, Entries, Twice, ElseSame;
    EntriesKept(v, v', c, q);
  }

  /** What a rename finds in the old directory. */
  lemma OldName(fs: Volume, p: nat, x: Name)
    requires Sane(fs) && p in TreeIn(fs).dirs && x in TreeIn(fs).dirs[p]
    ensures RawDir(fs, p) && LiveTargets(View(fs), fs.inodes.limit, Entries(View(fs), p))
    ensures Find(Entries(View(fs), p), x) == TreeIn(fs).dirs[p][x] && LiveTarget(View(fs), fs.inodes.limit, TreeIn(fs).dirs[p][x])
  {
    hide Valid, AllDirs, Abs, IsDir, Entries, Find, Treelike, LinksExact, Closed, LiveTargets, Targets;
    var s := TreeIn(fs);
    TreeFacts(s);
    DirInTable(fs, p);
    EntriesTarget(fs, p);
    TargetsLive(fs, Entries(View(fs), p));
    AbsName(View(fs), p, x);
    Counted(s, p, x);
    LiveInTable(fs, s.dirs[p][x]);
  }

  /** The insertion and removal of rename_inode for a file. */
  method MoveFile(fs: Volume, p: nat, x: Name, q: nat, y: Name, c: nat) returns (ok: bool)
    requires Sane(fs) && NulFree(x) && NulFree(y) && GoodName(x) && Ascii(x) && Offered(TreeIn(fs), q, y) && Roomy(fs, q)
    requires p in TreeIn(fs).dirs && x in TreeIn(fs).dirs[p] && TreeIn(fs).dirs[p][x] == c && c !in TreeIn(fs).dirs
    modifies fs`disk, fs`itab, fs`trees, fs.blocks
    ensures Valid(fs) && (!ok || Free1(old(TreeIn(fs)), q, y) ==> Sane(fs))
    ensures !ok ==> TreeIn(fs) == old(TreeIn(fs)) && old(fs.blocks.superFree) < 4
    ensures ok && Free1(old(TreeIn(fs)), q, y) ==> Renamed(old(TreeIn(fs)), p, x, q, y, TreeIn(fs))
    ensures ok && !Free1(old(TreeIn(fs)), q, y) ==> Doubled(View(fs), q, y)
    ensures Passed(old(View(fs)), View(fs))
  {
    hide Passed;
    hide Valid, AllDirs, Abs, NulFree, Treelike, LinksExact, Ent, Closed, Ascii, Doubled, Inserted1, Removed1, Targets, LiveTargets, IsDir, Entries, Find;
    ghost var s, v, free := TreeIn(fs), View(fs), Free1(TreeIn(fs), q, y);
    TreeFacts(s);
    EntryLive(s, p, x);
    LinksHere(s, p, q);
    if free {
      FileLinked(s, q, y, c);
      FileMoved(s, p, x, q, y);
    }
    OldName(fs, p, x);
    ok := Link(fs, q, y, c);
    if !ok { return; }
    ghost var v1 := View(fs);
    if free {
      TreeFacts(TreeIn(fs));
      assert TreeIn(fs).dirs[p][x] == c;
    } else {
      ClashTargets(v, v1, fs.inodes.limit, p, x, q, y, c);
      TargetsLive(fs, Entries(v1, p));
      DirKind(v1, p);
    }
    var removed := Unlink(fs, p, x, free);
    PassedTrans(v, v1, View(fs));
    if !free { Clashed(v1, View(fs), p, x, removed, q, y, c); }
  }

  lemma Clashed(v1: Vol, v2: Vol, p: nat, x: Name, removed: nat, q: nat, y: Name, c: nat)
    requires Removed1(v1, v2, p, x, removed) && Find(Entries(v1, p), x) == c && c != 0 && Doubled(v1, q, y) && x != y
    ensures removed == c && Doubled(v2, q, y)
  {
    hide IsDir, Entries, Find, Without, Doubled;
    RemovedDoubled(v1, v2, p, x, removed, q, y);
  }

  lemma LinksHere(s: Ns, p: nat, q: nat)
    requires NsOK(s) && p in s.dirs && q in s.dirs
    ensures p in s.links && q in s.links
  {
    assert s.links.Keys == s.kinds.Keys;
  }

  /** The directories of a move: three different ones or a move within one, the moved one with its ".." counted. */
  ghost predicate MoveBase(v: Vol, limit: nat, p: nat, q: nat, c: nat) {
    && c != p && c != q && 0 < c < limit && 0 < q < limit && IsWord(q) && IsDir(v, p) && IsDir(v, q) && IsDir(v, c)
    && Find(Entries(v, c), DOTDOT) != 0 && v.itab[p].links >= 1
  }

  lemma OldDirs(fs: Volume, p: nat, x: Name, q: nat, c: nat)
    requires Sane(fs) && p in TreeIn(fs).dirs && x in TreeIn(fs).dirs[p] && TreeIn(fs).dirs[p][x] == c && c in TreeIn(fs).dirs
    requires !IsDot(x) && q in TreeIn(fs).dirs && ClimbsClear(TreeIn(fs), q, c, MAX_DIR_DEPTH - 1)
    ensures MoveBase(View(fs), fs.inodes.limit, p, q, c)
  {
    hide Valid, AllDirs, Abs, IsDir, Entries, Find, LinksExact, Ent, Closed, OneName, Namespace.AllNamed, AllClimb;
    var s := TreeIn(fs);
    TreeFacts(s);
    DirInTable(fs, p);
    DirInTable(fs, q);
    DirInTable(fs, c);
    assert Dotted(s, c);
    MovedParent(s, p, x, q, c);
    AbsName(View(fs), c, DOTDOT);
    LiveInTable(fs, p);
  }

  lemma MovedParent(s: Ns, p: nat, x: Name, q: nat, c: nat)
    requires NsOK(s) && p in s.dirs && x in s.dirs[p] && s.dirs[p][x] == c && c in s.dirs && !IsDot(x) && q in s.dirs
    requires ClimbsClear(s, q, c, MAX_DIR_DEPTH - 1)
    ensures c != p && c != q && DOTDOT in s.dirs[c] && s.dirs[c][DOTDOT] == p && p in s.links && s.links[p] >= 1 && p in s.kinds
  {
    hide AllClimb, OneName, Namespace.AllNamed;
    LinksHere(s, p, q);
    assert Subdir(s, p, x);
    assert Dotted(s, c);
    assert (c, DOTDOT) in Refs(s, p);
    NotRoot(s, p, x);
    if p == c { OwnParent(s, c); }
  }

  /** After insertion and removal the other directories are still there. */
  lemma ClashDirs(fs: Volume, v: Vol, v1: Vol, p: nat, x: Name, q: nat, y: Name, c: nat)
    requires Valid(fs) && MoveBase(v, fs.inodes.limit, p, q, c) && p != q && Inserted1(v, v1, q, y, c) && Removed1(v1, View(fs), p, x, c)
    requires Doubled(View(fs), q, y)
    ensures RawDir(fs, c) && RawDir(fs, q) && Find(Entries(View(fs), c), DOTDOT) != 0
    ensures p in fs.itab && p in fs.trees && fs.itab[p].links >= 1 && q in fs.itab && q in fs.trees
  {
    hide Valid, IsDir, Entries, Find, Without, Twice, DirBlock.Added, DirEdit, ElseSame;
    DirStays(v, v1, q, c, c);
    DirStays(v1, View(fs), p, c, c);
    DirKind(View(fs), c);
    DirKind(View(fs), q);
    EditFacts(v, v1, q, c);
    EditFacts(v1, View(fs), p, c);
    DirKind(v, p);
    LinksStay(v, v1, q, c, p);
  }

  lemma LinksStay(v: Vol, v': Vol, parent: nat, child: nat, n: nat)
    requires DirEdit(v, v', parent, child) && n != parent && n != child && n in v.itab
    ensures n in v'.itab && v'.itab[n].links == v.itab[n].links
  {
    hide IsDir;
    ElseInode(v, Relink(v', child, v.itab[child].links), parent, n);
  }

  /** The insertion, removal, ".." edit and link counts of rename_inode for a directory. */
  method MoveDir(fs: Volume, p: nat, x: Name, q: nat, y: Name, c: nat) returns (ok: bool)
    requires Sane(fs) && NulFree(x) && NulFree(y) && GoodName(x) && Ascii(x) && Offered(TreeIn(fs), q, y) && Roomy(fs, q) && !IsDot(x)
    requires p in TreeIn(fs).dirs && x in TreeIn(fs).dirs[p] && TreeIn(fs).dirs[p][x] == c && c in TreeIn(fs).dirs
    requires ClimbsClear(TreeIn(fs), q, c, MAX_DIR_DEPTH - 1)
    modifies fs`disk, fs`itab, fs`trees, fs.blocks
    ensures Valid(fs) && (!ok || Free1(old(TreeIn(fs)), q, y) ==> Sane(fs))
    ensures !ok ==> TreeIn(fs) == old(TreeIn(fs)) && old(fs.blocks.superFree) < 4
    ensures ok && Free1(old(TreeIn(fs)), q, y) ==> Renamed(old(TreeIn(fs)), p, x, q, y, TreeIn(fs))
    ensures ok && !Free1(old(TreeIn(fs)), q, y) ==> Doubled(View(fs), q, y)
    ensures Passed(old(View(fs)), View(fs))
  {
    hide Passed;
    hide Valid, AllDirs, Abs, NulFree, Treelike, LinksExact, Ent, Closed, ClimbsClear, Ascii, Doubled, Inserted1, Removed1, Targets, LiveTargets, IsDir, Entries, Find;
    ghost var s, v, free := TreeIn(fs), View(fs), Free1(TreeIn(fs), q, y);
    TreeFacts(s);
    EntryLive(s, p, x);
    LinksHere(s, p, q);
    if free {
      DirMoved(s, p, x, q, y, c, MAX_DIR_DEPTH - 1);
      MoveSteps(s, p, x, q, y, c);
    }
    OldName(fs, p, x);
    OldDirs(fs, p, x, q, c);
    ok := Link(fs, q, y, c);
    if !ok { return; }
    ghost var v1 := View(fs);
    if !free {
      ClashTargets(v, v1, fs.inodes.limit, p, x, q, y, c);
      TargetsLive(fs, Entries(v1, p));
      DirKind(v1, p);
    }
    var removed := Unlink(fs, p, x, free);
    ghost var v2 := View(fs);
    PassedTrans(v, v1, v2);
    if !free { Clashed(v1, v2, p, x, removed, q, y, c); }
    if p != q {
      if !free { ClashDirs(fs, v, v1, p, x, q, y, c); }
      Reparent(fs, p, q, c, free, y);
      PassedTrans(v, v2, View(fs));
    }
  }

  /** The ".." edit and the link counts of both parents. */
  method Reparent(fs: Volume, p: nat, q: nat, c: nat, ghost tidy: bool, ghost y: Name)
    requires Valid(fs) && p != q && c != q
    requires tidy ==> NsValid(fs) && c in TreeIn(fs).dirs && q in TreeIn(fs).dirs && DOTDOT in TreeIn(fs).dirs[c]
    requires tidy ==> p in TreeIn(fs).kinds && q in TreeIn(fs).kinds && p in TreeIn(fs).links && q in TreeIn(fs).links
    requires tidy ==> TreeIn(fs).links[p] >= 1 && TreeIn(fs).links[q] >= 0
    requires !tidy ==> RawDir(fs, c) && RawDir(fs, q) && IsWord(q) && Find(Entries(View(fs), c), DOTDOT) != 0 && Doubled(View(fs), q, y)
    requires !tidy ==> p in fs.itab && p in fs.trees && fs.itab[p].links >= 1
    modifies fs`disk, fs`itab, fs`trees
    ensures Valid(fs)
    ensures tidy ==> NsValid(fs) && TreeIn(fs) == Count(Count(Bind(old(TreeIn(fs)), c, DOTDOT, q), p, -1), q, 1)
    ensures !tidy ==> Doubled(View(fs), q, y)
    ensures Passed(old(View(fs)), View(fs))
  {
    hide Valid, AllDirs, Abs, Doubled, IsDir, Entries, Find, ElseSame, Passed;
    ghost var v2 := View(fs);
    Redirect(fs, c, q, tidy);
    ghost var v3 := View(fs);
    if tidy { LiveInTable(fs, p); } else { RedirectDoubled(v2, v3, c, q, y); }
    Recount(fs, p, -1, tidy);
    ghost var v4 := View(fs);
    PassedTrans(v2, v3, v4);
    if tidy { LiveInTable(fs, q); } else { RelinkDoubled(v3, p, v3.itab[p].links - 1, q, y); }
    Recount(fs, q, 1, tidy);
    PassedTrans(v2, v4, View(fs));
    if !tidy { RelinkDoubled(v4, q, v4.itab[q].links + 1, q, y); }
  }

  /** The states rename_inode passes through. */
  lemma MoveSteps(s: Ns, p: nat, x: Name, q: nat, y: Name, c: nat)
    requires NsOK(s) && p in s.dirs && x in s.dirs[p] && s.dirs[p][x] == c && c in s.dirs && q in s.dirs && y !in s.dirs[q] && !IsDot(x)
    requires p in s.links && q in s.links && c in s.links && DOTDOT in s.dirs[c] && s.dirs[c][DOTDOT] == p && ClimbsClear(s, q, c, MAX_DIR_DEPTH - 1)
    ensures var a := Count(Bind(s, q, y, c), c, 1);
            && c in s.kinds && Closed(a) && LinksExact(a) && x in a.dirs[p] && a.dirs[p][x] == c
            && var b := Count(Unbind(a, p, x), c, -1);
            && c in b.dirs && q in b.dirs && DOTDOT in b.dirs[c] && p in b.kinds && q in b.kinds && p in b.links && q in b.links
            && (p != q ==> b.links[p] >= 1) && b.links[q] >= 0 && c != q
  {
    hide Ent, Climbs, AllClimb, Parents, OneName, Namespace.AllNamed, Dots;
    DirLive(s, c);
    DirLive(s, p);
    DirLive(s, q);
    var a := Count(Bind(s, q, y, c), c, 1);
    LinkAdded(s, q, y, c);
    BindClosed(s, q, y, c);
    CountClosed(Bind(s, q, y, c), c, 1);
    assert (c, DOTDOT) in Refs(s, p);
    assert c != q;
    if p == c { OwnParent(s, c); }
  }

  lemma OwnParent(s: Ns, c: nat)
    requires NsOK(s) && c in s.dirs && DOTDOT in s.dirs[c] && s.dirs[c][DOTDOT] == c
    ensures c == ROOT
  {
    var k: nat :| Climbs(s, c, k);
    if c != ROOT { NotOwnParent(s, c, k); }
  }
}
