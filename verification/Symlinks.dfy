/** make_symlink (kernel/fs/ext2/directoryController.c): short targets live in the inode, long ones in a block. */
module Symlinks {
  import opened Blocks
  import opened BlockTree
  import opened Bitmaps
  import opened Volumes
  import opened MapFileBlock
  import opened FileBlocks
  import opened FileSystem
  import WriteInode
  import opened WholeFiles
  import IndirFree
  import opened DirBlock
  import opened DirFile
  import opened DirTree
  import opened Namespace
  import opened NamespaceOps

  const MAX_SYMLINK_LEN: nat := 59

  /** The inode's pointer area read as 60 bytes. */
  function InlineBytes(ptr: seq<nat>): seq<byte> {
    if forall i :: 0 <= i < |ptr| ==> IsWord(ptr[i]) then Encode(ptr) else []
  }

  /** What lookup_path takes as the target of a symbolic link. */
  ghost function LinkTarget(v: Vol, n: nat): seq<byte> {
    if n !in v.itab then []
    else if v.itab[n].sectors == 0 then Cut(InlineBytes(v.itab[n].ptr), v.itab[n].size)
    else Cut(Data(Part(v, n, [], 0, 0), 0), v.itab[n].size)
  }

  /** An intact link has the same target. */
  lemma IntactTarget(v: Vol, v': Vol, n: nat)
    requires Intact(v, v', n)
    ensures LinkTarget(v', n) == LinkTarget(v, n)
  {
    hide Data, InlineBytes;
    DirTree.DataKept(v, v', n, 0);
  }

  function Cut(b: seq<byte>, n: nat): seq<byte> {
    if n <= |b| then b[..n] else b
  }

  /** The target, its terminator, and zeros up to the 60 bytes of the pointer area, as pointers. */
  function InlinePtrs(target: seq<byte>): (ptr: seq<nat>)
    requires |target| <= MAX_SYMLINK_LEN
    ensures |ptr| == 15
  {
    Decode(Padded(target))
  }

  function Padded(target: seq<byte>): (b: seq<byte>)
    requires |target| <= MAX_SYMLINK_LEN
    ensures |b| == 60
  {
    target + seq(60 - |target|, _ => 0)
  }

  /** A short target reads back. */
  lemma InlineBack(target: seq<byte>)
    requires |target| <= MAX_SYMLINK_LEN
    ensures Cut(InlineBytes(InlinePtrs(target)), |target|) == target
  {
    EncodeDecode(Padded(target));
  }

  /** An inode that keeps its target inline takes no blocks. */
  lemma SeatInline(v: Vol, n: nat, free: nat, ino: Inode)
    requires VolOK(v) && n !in v.trees && Inline(ino) && ino.size <= MAX_SIZE
    ensures var v' := v.(itab := v.itab[n := ino], trees := v.trees[n := map[]]);
            VolOK(v') && ElseSame(v, v', n)
  {
    hide VolOK, ElseSame, OthersKept;
    var s := Part(v, n, ino.ptr, free, 0);
    Itself(s);
    InlineOK(v, n, s, ino);
    Reseat(v, n, s, s, ino);
    SeatElse(v, n, s, s, ino);
    assert Seat(v, n, s, ino) == v.(itab := v.itab[n := ino], trees := v.trees[n := map[]]);
  }

  lemma Itself(s: Snap)
    ensures OthersKept(s, s)
  {
  }

  lemma InlineOK(v: Vol, n: nat, s: Snap, ino: Inode)
    requires s == Part(v, n, ino.ptr, s.free, 0) && n !in v.trees && Inline(ino) && ino.size <= MAX_SIZE
    ensures FileOK(Seat(v, n, s, ino), ino, s.t)
  {
  }

  /** A target of up to 59 bytes is in the inode, a longer one in a block. */
  ghost predicate Stored(v: Vol, n: nat, len: nat) {
    n in v.itab && v.itab[n].size == len && (v.itab[n].sectors == 0 <==> len <= 59)
  }

  /** The new link inode: its target, no names yet. */
  ghost predicate BornLink(v: Vol, n: nat, target: seq<byte>) {
    n in v.trees && n in v.itab && v.itab[n].kind == Symlink && v.itab[n].links == 0 && LinkTarget(v, n) == target && Stored(v, n, |target|)
  }

  /** The block of a long target. */
  method TargetBlock(fs: Volume, target: seq<byte>) returns (blk: Block)
    requires |target| < 4096
    ensures blk[..|target|] == target
  {
    blk := fs.Scratch();
    for i := 0 to |target|
      invariant |blk| == 4096 && blk[..i] == target[..i]
    {
      blk := blk[i := target[i]];
    }
    blk := blk[|target| := 0];
  }

  /** map_file_block in ALLOC mode and write_block for a long target. */
  method PutTarget(fs: Volume, target: seq<byte>) returns (ok: bool, b: nat, ptr: seq<nat>, ghost t: Tree, ghost cnt: int)
    requires fs.BlocksReady() && 0 < |target| < 4096
    modifies fs`disk, fs.blocks
    ensures fs.BlocksReady()
    ensures ok ==> Step(old(Now(fs, WriteInode.Zeros(15), map[], 0)), Now(fs, ptr, t, cnt)) && t == map[Root(0) := b] && b != 0
    ensures ok ==> Data(Now(fs, ptr, t, cnt), 0)[..|target|] == target && old(fs.blocks.superFree) == fs.blocks.superFree + 1
    ensures !ok ==> Step(old(Now(fs, WriteInode.Zeros(15), map[], 0)), Now(fs, WriteInode.Zeros(15), map[], 0)) && old(fs.blocks.superFree) == 0
    ensures !ok ==> fs.blocks.used == old(fs.blocks.used) && fs.blocks.superFree == old(fs.blocks.superFree)
  {
    hide Good, OthersKept, FileSame, Data, Volume.BlocksReady, WriteInode.Zeros;
    ghost var s := Now(fs, WriteInode.Zeros(15), map[], 0);
    WriteInode.EmptyGood(s);
    var alloced;
    ok, b, ptr, alloced, t := Alloc(fs, WriteInode.Zeros(15), 0, 0, map[]);
    cnt := alloced;
    FirstMissing();
    if !ok { return; }
    ghost var s1 := Now(fs, ptr, t, cnt);
    OnlyBlock(s1, b);
    var blk := TargetBlock(fs, target);
    StepIsGood(s, s1);
    PutData(fs, b, blk, ptr, 0, cnt, t);
    StepTrans(s, s1, Now(fs, ptr, t, cnt));
  }

  lemma StepIsGood(s: Snap, s': Snap)
    requires Step(s, s')
    ensures Good(s')
  {
  }

  lemma FirstMissing()
    ensures Missing(map[], Path(0)) == 1
  {
  }

  /** One file block at the first direct pointer is the whole tree. */
  lemma OnlyBlock(s: Snap, b: nat)
    requires Good(s) && Slot(s.t, 0) == b != 0 && |s.t| == 1
    ensures s.t == map[Root(0) := b]
  {
    hide Good;
    OnlyKey(s.t, Root(0));
  }

  lemma OnlyKey(t: Tree, k: Key)
    requires |t| == 1 && k in t
    ensures t == map[k := t[k]]
  {
    var rest := t.Keys - {k};
    assert t.Keys == rest + {k};
    assert rest == {};
  }

  /** The tree of a link inode: nothing, or the one block of a long target. */
  ghost predicate LinkTree(t: Tree, b: nat) {
    t == if b == 0 then map[] else map[Root(0) := b]
  }

  lemma LongTarget(v: Vol, n: nat, base: Snap, s: Snap, ino: Inode, target: seq<byte>, b: nat)
    requires VolOK(v) && n !in v.trees && base == Part(v, n, base.ptr, base.free, base.cnt) && Step(base, s)
    requires s.t == map[Root(0) := b] && 59 < |target| < 4096 && Data(s, 0)[..|target|] == target
    requires ino == Inode(Symlink, |target|, 0, 8, s.ptr)
    ensures VolOK(Seat(v, n, s, ino)) && ElseSame(v, Seat(v, n, s, ino), n) && BornLink(Seat(v, n, s, ino), n, target)
  {
    hide VolOK, ElseSame, OthersKept, Good, Contents, FileBytes;
    BlockCountIs(|target|);
    assert |s.t| == 1;
    forall i | 0 <= i < MAX_FILE_BLOCKS && IsMapped(s, i) ensures i < BlockCount(|target|) {
      assert Path(i) == Root(0);
    }
    Finish(v, n, base, s, ino);
    assert Data(Part(Seat(v, n, s, ino), n, [], 0, 0), 0) == Data(s, 0);
  }

  /** The target goes into a block or into the inode, and set_inode stores the inode. */
  method StoreTarget(fs: Volume, n: nat, target: seq<byte>) returns (ok: bool, b: nat)
    requires fs.BlocksReady() && VolOK(View(fs)) && AllDirs(View(fs)) && n !in fs.trees && 0 < |target| < 4096
    modifies fs`disk, fs`itab, fs`trees, fs.blocks
    ensures fs.BlocksReady() && VolOK(View(fs)) && ElseSame(old(View(fs)), View(fs), n)
    ensures !ok ==> View(fs) == old(View(fs)).(disk := fs.disk) && AllDirs(View(fs)) && TreeIn(fs) == old(TreeIn(fs)) && old(fs.blocks.superFree) == 0
    ensures ok ==> BornLink(View(fs), n, target) && LinkTree(fs.trees[n], b) && old(fs.blocks.superFree) <= fs.blocks.superFree + 1
    ensures ok ==> fs.trees == old(fs.trees)[n := fs.trees[n]] && fs.itab == old(fs.itab)[n := fs.itab[n]]
  {
    hide VolOK, AllDirs, Abs, ElseSame, Step, Data, Volume.BlocksReady, WriteInode.Zeros, LinkTarget;
    ghost var v := View(fs);
    b := 0;
    if |target| > MAX_SYMLINK_LEN {
      var ptr;
      ghost var t, cnt;
      ghost var base := Now(fs, WriteInode.Zeros(15), map[], 0);
      ok, b, ptr, t, cnt := PutTarget(fs, target);
      if !ok {
        NoLink(v, n, base, Now(fs, WriteInode.Zeros(15), map[], 0), View(fs));
        return;
      }
      var ino := Inode(Symlink, |target|, 0, 8, ptr);
      LongTarget(v, n, base, Now(fs, ptr, t, cnt), ino, target, b);
      SetInode(fs, n, ino, t);
      assert View(fs) == Seat(v, n, Now(fs, ptr, t, cnt), ino);
    } else {
      var ino := Inode(Symlink, |target|, 0, 0, InlinePtrs(target));
      SeatInline(v, n, 0, ino);
      SetInode(fs, n, ino, map[]);
      InlineBorn(View(fs), n, target, ino);
      ok := true;
    }
  }

  /** mint_inode and the storing of the target. */
  method MintLink(fs: Volume, target: seq<byte>) returns (n: nat, b: nat)
    requires NsValid(fs) && 0 < |target| < 4096
    modifies fs`disk, fs`itab, fs`trees, fs.blocks, fs.inodes
    ensures NsValid(fs)
    ensures n == 1 ==> TreeIn(fs) == old(TreeIn(fs)) && (old(fs.inodes.superFree) == 0 || old(fs.blocks.superFree) == 0)
    ensures n != 1 ==> n !in old(TreeIn(fs)).kinds && n != 0 && TreeIn(fs) == Create(old(TreeIn(fs)), n, Symlink)
    ensures n != 1 ==> BornLink(View(fs), n, target) && LinkTree(fs.trees[n], b) && old(fs.blocks.superFree) <= fs.blocks.superFree + 1
    ensures forall m :: m in old(fs.itab) && m in old(fs.trees) ==> m in fs.itab && fs.itab[m].size == old(fs.itab[m].size)
    ensures FilesKept(old(View(fs)), View(fs)) && old(fs.trees.Keys) <= fs.trees.Keys
  {
    hide VolOK, AllDirs, Abs, ElseSame, LinkTarget, Bitmap.Valid, Volume.BlocksReady, FilesKept;
    ghost var v := View(fs);
    NewFacts1(fs);
    KeptSame(v);
    n := fs.inodes.Alloc();
    b := 0;
    if n == 1 { return; }
    NotYet(v, n, old(fs.trees), old(fs.inodes.used));
    var ok;
    ok, b := StoreTarget(fs, n, target);
    ElseFiles(v, View(fs), n);
    OtherSizes(v, View(fs), n);
    if !ok {
      var _ := fs.inodes.Free(n);
      return 1, 0;
    }
    AbsCreated(v, View(fs), n, Symlink);
  }

  lemma InlineBorn(v: Vol, n: nat, target: seq<byte>, ino: Inode)
    requires n in v.trees && n in v.itab && v.itab[n] == ino && |target| <= MAX_SYMLINK_LEN && ino == Inode(Symlink, |target|, 0, 0, InlinePtrs(target))
    ensures BornLink(v, n, target)
  {
    InlineBack(target);
  }

  lemma NoLink(v: Vol, n: nat, base: Snap, s: Snap, v': Vol)
    requires VolOK(v) && AllDirs(v) && n !in v.trees && base == Part(v, n, base.ptr, base.free, base.cnt) && Step(base, s)
    requires s.t == map[] && s.used == v.used && v' == v.(disk := s.disk)
    ensures VolOK(v') && AllDirs(v') && Abs(v') == Abs(v) && ElseSame(v, v', n)
  {
    hide VolOK, AllDirs, Abs, ElseSame, Step;
    NotPut(v, n, base, s, v');
    QuietSame(v, v', n);
  }

  /** free_inode and free_block: the failure path of make_symlink. */
  method DropLink(fs: Volume, n: nat, b: nat)
    requires NsValid(fs) && n in TreeIn(fs).kinds && n in fs.trees && LinkTree(fs.trees[n], b)
    modifies fs`itab, fs`trees, fs.blocks, fs.inodes
    ensures NsValid(fs) && TreeIn(fs) == Destroy(old(TreeIn(fs)), n) && FilesKept(old(View(fs)), View(fs))
  {
    hide VolOK, AllDirs, Abs, ElseSame, Bitmap.Valid, Volume.BlocksReady, FilesKept;
    ghost var v := View(fs);
    LiveInTable(fs, n);
    LinkBlocks(fs, n, b);
    var _ := fs.inodes.Free(n);
    if b != 0 {
      fs.FreeBlock(b);
    }
    DropInode(fs, n, fs.itab[n]);
    Deleted(v, n, View(fs), v.itab[n]);
    ElseFiles(v, View(fs), n);
    AbsDestroyed(v, View(fs), n);
  }

  lemma LinkBlocks(fs: Volume, n: nat, b: nat)
    requires Valid(fs) && n in fs.trees && n in fs.itab && LinkTree(fs.trees[n], b)
    ensures IndirFree.AllBlocks(fs.trees[n]) == (if b == 0 then {} else {b}) && (b != 0 ==> b in fs.blocks.used)
    ensures fs.itab[n := fs.itab[n]] == fs.itab
  {
    hide VolOK, Bitmap.Valid, Volume.BlocksReady;
    LiveTree(fs, n);
    LinkSet(fs.trees[n], b);
  }

  lemma LinkSet(t: Tree, b: nat)
    requires LinkTree(t, b)
    ensures IndirFree.AllBlocks(t) == if b == 0 then {} else {b}
  {
    if b != 0 { assert Root(0) in t && t[Root(0)] == b; }
  }

  /** Inserting the name of a link in its parent leaves its target alone. */
  lemma TargetKept(v: Vol, v': Vol, d: nat, n: nat)
    requires n != d && n in v.trees && n in v.itab && n in v'.itab && ElseSame(v, Relink(v', n, v.itab[n].links), d)
    ensures LinkTarget(v', n) == LinkTarget(v, n)
  {
    hide Data;
    var u := Relink(v', n, v.itab[n].links);
    ElseInode(v, u, d, n);
    assert FileKept(v, u, n);
    DirTree.DataKept(v, u, n, 0);
    assert Part(u, n, [], 0, 0) == Part(v', n, [], 0, 0);
  }

  /** dir_insert of the new link, and its removal when that fails. */
  method LinkOrDrop(fs: Volume, d: nat, x: Name, n: nat, b: nat, target: seq<byte>, ghost s: Ns) returns (ok: bool)
    requires NsValid(fs) && NsOK(s) && NulFree(x) && Offered(s, d, x) && n !in s.kinds && n != 0 && TreeIn(fs) == Create(s, n, Symlink)
    requires BornLink(View(fs), n, target) && LinkTree(fs.trees[n], b) && Roomy(fs, d)
    modifies fs`disk, fs`itab, fs`trees, fs.blocks, fs.inodes
    ensures Valid(fs) && (!ok || Free1(s, d, x) ==> NsValid(fs) && NsOK(TreeIn(fs)))
    ensures ok ==> LinkTarget(View(fs), n) == target
    ensures ok && Free1(s, d, x) ==> NewFile(s, d, x, n, Symlink, TreeIn(fs))
    ensures ok && !Free1(s, d, x) ==> Doubled(View(fs), d, x)
    ensures !ok ==> TreeIn(fs) == s && old(fs.blocks.superFree) < 4
    ensures FilesKept(old(View(fs)), View(fs)) && (ok ==> fs.trees.Keys == old(fs.trees.Keys))
  {
    hide FilesKept, Passed;
    hide Ascii, Twice, Find, VolOK, AllDirs, Abs, ElseSame, IsDir, Entries, DirBlock.Added, NulFree, LinkTarget, Treelike, LinksExact, Bitmap.Valid, Volume.BlocksReady;
    ghost var v := View(fs);
    if x !in s.dirs[d] { FileMade(s, d, x, n, Symlink); }
    DirInTable(fs, d);
    LiveInTable(fs, n);
    AbsName(v, d, x);
    ok := DirInsert(fs, d, x, n);
    if ok {
      EditIs(v, View(fs), d, n);
      ghost var e := Entry(x, n, TypeByte(Symlink));
      if x !in s.dirs[d] { AbsInserted(v, View(fs), d, e); } else { AddedTwice(Entries(v, d), e, Entries(View(fs), d)); }
      TargetKept(v, View(fs), d, n);
      EditPassed(v, View(fs), d, n);
      KeptSame(v);
      KeptMore(v, v, View(fs));
    } else {
      ghost var v1 := View(fs);
      AbsSame(v, v1, d);
      ElseFiles(v, v1, d);
      DropLink(fs, n, b);
      KeptGone(v, v1, View(fs));
      DropNew(s, n);
    }
  }

  lemma DropNew(s: Ns, n: nat)
    requires NsOK(s) && n !in s.kinds
    ensures Destroy(Create(s, n, Symlink), n) == s
  {
    assert s.links.Keys == s.kinds.Keys;
    DestroyCreate(s, n, Symlink);
  }

  /** sys_make_symlink and make_symlink. */
  method MakeSymlink(fs: Volume, d: nat, x: Name, target: seq<byte>) returns (ok: bool, n: nat)
    requires Sane(fs) && NulFree(x) && ParentOK(fs, d)
    modifies fs`disk, fs`itab, fs`trees, fs.blocks, fs.inodes
    ensures Valid(fs) && (!ok || !Collides(old(TreeIn(fs)), d, x) ==> Sane(fs))
    ensures ok ==> LinkTarget(View(fs), n) == target && 0 < |target| < 4096 && Stored(View(fs), n, |target|) && Offered(old(TreeIn(fs)), d, x)
    ensures ok && !Collides(old(TreeIn(fs)), d, x) ==> NewFile(old(TreeIn(fs)), d, x, n, Symlink, TreeIn(fs))
    ensures ok && Collides(old(TreeIn(fs)), d, x) ==> Doubled(View(fs), d, x)
    ensures !ok ==> TreeIn(fs) == old(TreeIn(fs))
    ensures !ok ==> !Offered(old(TreeIn(fs)), d, x) || |target| == 0 || |target| >= 4096 || old(fs.inodes.superFree) == 0 || old(fs.blocks.superFree) < 5
    ensures FilesKept(old(View(fs)), View(fs))
  {
    hide Valid, AllDirs, Abs, NulFree, Treelike, LinksExact, LinkTarget, BornLink, Ascii, Doubled, FilesKept, Stored;
    ghost var s, v := TreeIn(fs), View(fs);
    KeptSame(v);
    ok, n := false, 1;
    var isDir := CheckParent(fs, d);
    if !isDir { return; }
    var there := HasName(fs, d, x);
    if there != 0 { return; }
    if |target| == 0 || |target| >= 4096 { return; }
    if !GoodName(x) { return; }   // dir_insert refuses it, and everything is undone
    DirInTable(fs, d);
    var b;
    n, b := MintLink(fs, target);
    if n == 1 { return; }
    ghost var v1 := View(fs);
    BornHere(v1, n, target);
    ok := LinkOrDrop(fs, d, x, n, b, target, s);
    if ok { StaysStored(v1, View(fs), n, target); }
    KeptGone(v, v1, View(fs));
  }

  lemma StaysStored(v: Vol, v': Vol, n: nat, target: seq<byte>)
    requires BornLink(v, n, target) && FilesKept(v, v') && n in v'.trees
    ensures Stored(v', n, |target|)
  {
    hide LinkTarget;
    assert Intact(v, v', n);
  }

  lemma BornHere(v: Vol, n: nat, target: seq<byte>)
    requires BornLink(v, n, target)
    ensures n in v.trees && n in v.itab
  {
  }

  /** The reading of a link's target in lookup_path. */
  method ReadLink(fs: Volume, n: nat) returns (target: seq<byte>)
    requires Valid(fs) && n in fs.trees && fs.itab[n].kind == Symlink && n in fs.itab
    requires fs.itab[n].sectors == 0 ==> fs.itab[n].size <= MAX_SYMLINK_LEN && |fs.itab[n].ptr| == 15
    requires fs.itab[n].sectors == 0 ==> forall i :: 0 <= i < 15 ==> IsWord(fs.itab[n].ptr[i])
    requires fs.itab[n].sectors != 0 ==> 0 < fs.itab[n].size < 4096 && Slot(fs.trees[n], 0) != 0
    ensures target == LinkTarget(View(fs), n)
  {
    var ino := fs.itab[n];
    if ino.sectors == 0 {
      target := Encode(ino.ptr)[..ino.size];
    } else {
      FirstPointer(fs, n);
      var blk := fs.ReadBlock(ino.ptr[0]);
      target := blk[..ino.size];
    }
  }

  lemma FirstPointer(fs: Volume, n: nat)
    requires Valid(fs) && n in fs.trees && n in fs.itab && fs.itab[n].kind == Symlink && fs.itab[n].sectors != 0 && Slot(fs.trees[n], 0) != 0
    ensures |fs.itab[n].ptr| == 15 && fs.itab[n].ptr[0] < |fs.disk| && Data(Part(View(fs), n, [], 0, 0), 0) == fs.disk[fs.itab[n].ptr[0]]
  {
    assert FileOK(View(fs), fs.itab[n], fs.trees[n]);
    assert Path(0) == Root(0);
  }
}
