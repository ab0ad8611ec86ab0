/** replace_inode, put_inode and delete_inode (kernel/fs/block/blockController.c). */
module WholeFiles {
  import opened Blocks
  import opened BlockTree
  import opened Bitmaps
  import opened Volumes
  import opened MapFileBlock
  import opened FileBlocks
  import opened FileSystem
  import opened IndirFree
  import opened WriteFile
  import opened WriteInode

  /** Freeing exactly the tree leaves the inode with an empty one and touches nothing else. */
  lemma Emptied(base: Snap, s: Snap)
    requires s.disk == base.disk && s.used == base.used - AllBlocks(base.t) && s.free == base.free + |base.t|
    requires s.t == map[] && s.ptr == Zeros(15)
    ensures Step(base, s)
  {
    EmptyGood(s);
    forall b: nat ensures Foreign(base, b) <==> Foreign(s, b) {
      assert b in AllBlocks(base.t) <==> Holds(base.t, b);
    }
  }

  /** A failed write leaves an empty file where an empty file was. */
  lemma StillEmpty(s: Snap, r: Snap, s': Snap)
    requires GivenBack(s, r) && s.t == map[] && s.ptr == Zeros(15) && s' == s.(disk := r.disk)
    ensures Step(s, s')
  {
    EmptyGood(s');
    forall b: nat ensures Foreign(s, b) <==> Foreign(s', b) {}
  }

  /** What write_inode stores, read back as bytes. */
  lemma StoredBytes(s: Snap, buf: seq<byte>)
    requires |buf| <= MAX_SIZE && Stored(s, buf, BlockCount(|buf|))
    ensures Holding(s, buf, |buf|)
    ensures forall i :: 0 <= i < MAX_FILE_BLOCKS && IsMapped(s, i) ==> i < BlockCount(|buf|)
  {
    BlockCountIs(|buf|);
    forall p | 0 <= p < |buf| ensures ByteAt(s, p) == buf[p] {
      var i := p / 4096;
      assert Data(s, i) == Chunk(buf, i);
      assert p == 4096 * i + p % 4096;
    }
  }

  lemma StoredWhole(s: Snap, buf: seq<byte>, s': Snap)
    requires |buf| <= MAX_SIZE && Stored(s, buf, BlockCount(|buf|)) && s'.t == s.t
    ensures HoleFree(s', |buf|)
  {
    forall j | 0 <= j < MAX_FILE_BLOCKS && j < BlockCount(|buf|) ensures IsMapped(s', j) {
      assert IsMapped(s, j);
    }
  }

  /** The wrapped block count covers the file exactly when the round-up does not wrap. */
  lemma BlocksCover(size: nat)
    requires size < 0x1_0000_0000
    ensures size <= 4096 * BlockCount(size) <==> size <= MAX_SIZE
  {
  }

  /** The blocks of a live inode that is not a short symbolic link. */
  lemma LiveTree(fs: Volume, n: nat)
    requires Valid(fs) && n in fs.trees
    ensures n in fs.itab && InTable(fs, n) && AllBlocks(fs.trees[n]) <= fs.blocks.used
    ensures fs.itab[n].sectors == 8 * |fs.trees[n]|
    ensures fs.itab[n].sectors > 0 ==> TreeShape(fs.disk, fs.itab[n].ptr, fs.trees[n])
  {
    assert FileOK(View(fs), fs.itab[n], fs.trees[n]);
    if fs.itab[n].sectors == 0 { assert fs.trees[n] == map[]; }
  }

  /** s is a freshly written file: it holds exactly `bytes`, without holes. */
  ghost predicate Fresh(base: Snap, s: Snap, bytes: seq<byte>, sectors: nat) {
    && Step(base, s) && |bytes| <= MAX_SIZE && Holding(s, bytes, |bytes|) && HoleFree(s, |bytes|) && sectors == 8 * |s.t|
    && (forall i :: 0 <= i < MAX_FILE_BLOCKS && IsMapped(s, i) ==> i < BlockCount(|bytes|))
  }

  lemma FreshWritten(base: Snap, s1: Snap, s: Snap, buf: seq<byte>, sectors: nat)
    requires |buf| <= MAX_SIZE && Step(base, s1) && Wrote(s1, s, buf, BlockCount(|buf|), sectors)
    ensures Fresh(base, s, buf, sectors)
  {
    hide Good, OthersKept, Holding, HoleFree, BlockCount, Stored;
    StepTrans(base, s1, s);
    StoredBytes(s, buf);
    StoredWhole(s, buf, s);
  }

  lemma FreshEmpty(base: Snap, s1: Snap, r: Snap, s: Snap)
    requires Step(base, s1) && GivenBack(s1, r) && s1.t == map[] && s1.ptr == Zeros(15)
    requires s.disk == r.disk && s.used == s1.used && s.free == s1.free && s.t == map[] && s.ptr == s1.ptr && s.cnt == s1.cnt
    ensures Fresh(base, s, [], 0)
  {
    hide Good, OthersKept, Holding, HoleFree, BlockCount, GivenBack;
    StillEmpty(s1, r, s);
    StepTrans(base, s1, s);
    EmptyFile(s);
  }

  /** write_inode, and the empty inode that replace_inode stores instead when it fails. */
  method Rewrite(fs: Volume, buf: seq<byte>, ghost base: Snap) returns (ok: bool, ptr: seq<nat>, sectors: nat, ghost t: Tree)
    requires fs.BlocksReady() && |buf| <= MAX_SIZE && Step(base, Now(fs, Zeros(15), map[], 0))
    modifies fs`disk, fs.blocks
    ensures fs.BlocksReady() && (ok <==> old(fs.blocks.superFree) >= Need(BlockCount(|buf|)))
    ensures Fresh(base, Now(fs, ptr, t, |t|), if ok then buf else [], sectors)
    ensures !ok ==> GivenBack(old(Device(fs)), Device(fs)) && t == map[] && ptr == Zeros(15)
    ensures ok ==> |t| < Need(BlockCount(|buf|))
  {
    hide Step, Good, BlockCount, Need, Stored, GivenBack, Fresh, Volume.BlocksReady;
    ghost var s1 := Now(fs, Zeros(15), map[], 0);
    ok, ptr, sectors, t := Write(fs, buf);
    if ok {
      FreshWritten(base, s1, Now(fs, ptr, t, |t|), buf, sectors);
    } else {
      ptr, sectors, t := Zeros(15), 0, map[];
      SameBase(s1, old(Device(fs)), Device(fs));
      FreshEmpty(base, s1, Device(fs), Now(fs, ptr, t, |t|));
    }
  }

  lemma SameBase(s: Snap, s': Snap, r: Snap)
    requires GivenBack(s, r) && s'.disk == s.disk && s'.used == s.used && s'.free == s.free
    ensures GivenBack(s', r) && r.used == s.used && r.free == s.free
  {
  }

  /** The end of an operation that has given inode n a freshly written file. */
  lemma SeatFresh(v: Vol, n: nat, base: Snap, s: Snap, ino: Inode, bytes: seq<byte>)
    requires VolOK(v) && base == Part(v, n, base.ptr, base.free, base.cnt) && Fresh(base, s, bytes, ino.sectors)
    requires ino.ptr == s.ptr && ino.kind != Symlink && ino.size == |bytes|
    ensures VolOK(Seat(v, n, s, ino)) && ElseSame(v, Seat(v, n, s, ino), n)
    ensures Contents(Seat(v, n, s, ino), n) == bytes
    ensures s.free + |s.t| == base.free + |base.t|
  {
    hide VolOK, ElseSame, Good, OthersKept, Contents, Holding, BlockCount;
    Finish(v, n, base, s, ino);
    BytesUnique(s, bytes);
  }

  lemma FreshWhole(base: Snap, s: Snap, s': Snap, bytes: seq<byte>, sectors: nat)
    requires Fresh(base, s, bytes, sectors) && s'.t == s.t
    ensures HoleFree(s', |bytes|) && sectors == 8 * |s.t| && |bytes| <= MAX_SIZE
  {
    forall j | 0 <= j < MAX_FILE_BLOCKS && j < BlockCount(|bytes|) ensures IsMapped(s', j) {
      assert IsMapped(s, j);
    }
  }

  /** replace_inode: the file holds the buffer, or is empty if there was no room for it. */
  method Replace(fs: Volume, n: nat, buf: seq<byte>) returns (ok: bool)
    requires Valid(fs) && |buf| <= MAX_SIZE
    requires InTable(fs, n) ==> n in fs.trees && fs.itab[n].kind != Symlink
    modifies fs`disk, fs`itab, fs`trees, fs.blocks
    ensures Valid(fs) && ElseSame(old(View(fs)), View(fs), n)
    ensures InTable(fs, n) ==> SameFile(fs, n, old(fs.itab[n])) && Solid(fs, n)
    ensures InTable(fs, n) ==> Contents(View(fs), n) == if ok then buf else []
    ensures InTable(fs, n) ==> (ok <==> old(fs.blocks.superFree + |fs.trees[n]|) >= Need(BlockCount(|buf|)))
    ensures InTable(fs, n) ==> 8 * fs.blocks.superFree + fs.itab[n].sectors == old(8 * fs.blocks.superFree + fs.itab[n].sectors)
    ensures !InTable(fs, n) ==> !ok && View(fs) == old(View(fs))
  {
    hide VolOK, ElseSame, Good, Step, BlockCount, Need, Contents, HoleFree, IsMapped, GivenBack, TreeShape, AllBlocks, Fresh, Volume.BlocksReady, Bitmap.Valid;
    ghost var v := View(fs);
    SameElse(v, n);
    if !InTable(fs, n) {
      return false;
    }
    Begin(fs, n);
    LiveTree(fs, n);
    var ino := fs.itab[n];
    ghost var base := Now(fs, ino.ptr, fs.trees[n], 0);
    GoodShape(base);
    FreeTree(fs, ino.ptr, fs.trees[n]);
    Emptied(base, Now(fs, Zeros(15), map[], 0));
    var ptr, sectors;
    ghost var t;
    ok, ptr, sectors, t := Rewrite(fs, buf, base);
    ghost var bytes := if ok then buf else [];
    ghost var s := Now(fs, ptr, t, |t|);
    var ino' := ino.(size := if ok then |buf| else 0, sectors := sectors, ptr := ptr);
    SeatFresh(v, n, base, s, ino', bytes);
    SetInode(fs, n, ino', t);
    assert View(fs) == Seat(v, n, s, ino');
    FreshWhole(base, s, Now(fs, ptr, t, 0), bytes, sectors);
  }

  lemma GoodShape(s: Snap)
    requires Good(s)
    ensures TreeShape(s.disk, s.ptr, s.t)
  {
  }

  lemma EmptyFile(s: Snap)
    requires s.t == map[]
    ensures forall i :: 0 <= i < MAX_FILE_BLOCKS ==> !IsMapped(s, i)
    ensures HoleFree(s, 0) && Holding(s, [], 0)
  {
  }

  // ----- inodes that come and go

  /** The volume without inode n's tree. */
  ghost function Unseat(v: Vol, n: nat, s: Snap, itab: map<nat, Inode>): Vol {
    v.(disk := s.disk, used := s.used, itab := itab, trees := v.trees - {n})
  }

  lemma UnseatOK(v: Vol, n: nat, s0: Snap, s: Snap, itab: map<nat, Inode>)
    requires VolOK(v) && s0 == Part(v, n, s0.ptr, s0.free, s0.cnt) && OthersKept(s0, s) && s.t == map[]
    requires forall m :: m != n ==> (m in itab <==> m in v.itab) && (m in itab ==> itab[m] == v.itab[m])
    ensures VolOK(Unseat(v, n, s, itab))
  {
    hide FileOK;
    var v' := Unseat(v, n, s, itab);
    var ino := Inode(Regular, 0, 0, 0, s.ptr);
    forall m | m in v'.trees ensures m in v'.itab && FileOK(v', v'.itab[m], v'.trees[m]) {
      OtherFileOK(v, n, s0, s, ino, m);
      SameFileOK(Seat(v, n, s, ino), v', v.itab[m], v.trees[m]);
    }
    forall b | b in v'.used ensures b in v'.meta || exists m :: m in v'.trees && Holds(v'.trees[m], b) {
      SeatCovers(v, n, s0, s, ino, b);
      if b !in v.meta {
        var m :| m in Seat(v, n, s, ino).trees && Holds(Seat(v, n, s, ino).trees[m], b);
        assert m in v'.trees && v'.trees[m] == v.trees[m];
      }
    }
    forall b | b in v.meta ensures b in v'.used {
      MetaForeign(v, n, s0.ptr, s0.free, s0.cnt, b);
      assert Foreign(s, b);
    }
  }

  lemma SameFileOK(v: Vol, v': Vol, ino: Inode, t: Tree)
    requires FileOK(v, ino, t) && v'.disk == v.disk && v'.used == v.used && v'.meta == v.meta
    ensures FileOK(v', ino, t)
  {
  }

  lemma UnseatElse(v: Vol, n: nat, s0: Snap, s: Snap, itab: map<nat, Inode>)
    requires VolOK(v) && s0 == Part(v, n, s0.ptr, s0.free, s0.cnt) && OthersKept(s0, s)
    requires forall m :: m != n ==> (m in itab <==> m in v.itab) && (m in itab ==> itab[m] == v.itab[m])
    ensures ElseSame(v, Unseat(v, n, s, itab), n)
  {
    hide VolOK, OthersKept, ByteAt;
    var v', ino := Unseat(v, n, s, itab), Inode(Regular, 0, 0, 0, s.ptr);
    forall m | m != n && m in v.trees ensures FileKept(v, v', m) {
      OtherKept(v, n, s0, s, ino, m);
      forall p | 0 <= p < 0x1_0000_0000 ensures ByteAt(Part(v', m, [], 0, 0), p) == ByteAt(Part(v, m, [], 0, 0), p) {
        assert Part(v', m, [], 0, 0) == Part(Seat(v, n, s, ino), m, [], 0, 0);
      }
    }
  }

  lemma StepOthers(s: Snap, s': Snap)
    requires Step(s, s')
    ensures OthersKept(s, s') && s'.free + |s'.t| == s.free + |s.t|
  {
  }

  /** The frees of delete_inode; the sector count tells an inode with blocks from a short symbolic link. */
  method FreeBlocks(fs: Volume, ino: Inode, ghost t: Tree)
    requires fs.BlocksReady() && ino.sectors == 8 * |t| && AllBlocks(t) <= fs.blocks.used
    requires ino.sectors > 0 ==> TreeShape(fs.disk, ino.ptr, t)
    modifies fs.blocks
    ensures fs.BlocksReady() && fs.blocks.used == old(fs.blocks.used) - AllBlocks(t)
    ensures 8 * fs.blocks.superFree == old(8 * fs.blocks.superFree) + ino.sectors
  {
    hide TreeShape, AllBlocks, Volume.BlocksReady;
    if ino.sectors > 0 {
      FreeTree(fs, ino.ptr, t);
    } else {
      NothingThere(t);
    }
  }

  lemma Deleted(v: Vol, n: nat, v': Vol, ino: Inode)
    requires VolOK(v) && n in v.trees && n in v.itab
    requires v' == v.(used := v.used - AllBlocks(v.trees[n]), itab := v.itab[n := ino], trees := v.trees - {n})
    ensures VolOK(v') && ElseSame(v, v', n)
  {
    hide VolOK, ElseSame, Step, OthersKept, AllBlocks;
    var base := Part(v, n, [], 0, 0);
    var s := Snap(v.disk, v'.used, |base.t|, Zeros(15), map[], 0);
    Emptied(base, s);
    StepOthers(base, s);
    UnseatOK(v, n, base, s, v'.itab);
    UnseatElse(v, n, base, s, v'.itab);
  }

  lemma NothingThere(t: Tree)
    requires |t| == 0
    ensures t == map[] && AllBlocks(t) == {}
  {
  }

  /** set_inode on an inode whose blocks have been given back. */
  method DropInode(fs: Volume, n: nat, ino: Inode)
    modifies fs`itab, fs`trees
    ensures fs.itab == old(fs.itab)[n := ino] && fs.trees == old(fs.trees) - {n}
    ensures old(fs.BlocksReady()) ==> fs.BlocksReady()
  {
    fs.itab := fs.itab[n := ino];
    fs.trees := fs.trees - {n};
  }

  /** delete_inode: the inode and exactly its blocks are given back. */
  method Delete(fs: Volume, n: nat) returns (ok: bool)
    requires Valid(fs) && (InTable(fs, n) ==> n in fs.trees)
    modifies fs`itab, fs`trees, fs.blocks, fs.inodes
    ensures Valid(fs) && ElseSame(old(View(fs)), View(fs), n)
    ensures ok <==> InTable(fs, n)
    ensures ok ==> fs.inodes.used == old(fs.inodes.used) - {n} && fs.trees == old(fs.trees) - {n}
    ensures ok ==> fs.blocks.used == old(fs.blocks.used) - AllBlocks(old(fs.trees[n]))
    ensures ok ==> 8 * fs.blocks.superFree == old(8 * fs.blocks.superFree + fs.itab[n].sectors)
    ensures ok ==> fs.itab == old(fs.itab)[n := old(fs.itab[n]).(links := 0)]
    ensures !ok ==> View(fs) == old(View(fs)) && fs.inodes.used == old(fs.inodes.used)
  {
    hide VolOK, ElseSame, TreeShape, AllBlocks, Volume.BlocksReady, Bitmap.Valid;
    ghost var v := View(fs);
    SameElse(v, n);
    if !InTable(fs, n) {
      return false;
    }
    LiveTree(fs, n);
    var ino := fs.itab[n];
    FreeBlocks(fs, ino, fs.trees[n]);
    DropInode(fs, n, ino.(links := 0));
    Deleted(v, n, View(fs), ino.(links := 0));
    ok := fs.inodes.Free(n);
  }

  /** A failed write for an inode that is not live leaves the volume as it was, bytes of free blocks aside. */
  lemma NotPut(v: Vol, n: nat, base: Snap, s: Snap, v': Vol)
    requires VolOK(v) && n !in v.trees && base == Part(v, n, base.ptr, base.free, base.cnt) && Step(base, s)
    requires s.t == map[] && s.used == v.used && v' == v.(disk := s.disk)
    ensures VolOK(v') && ElseSame(v, v', n)
  {
    hide VolOK, ElseSame, OthersKept, Good;
    UnseatOK(v, n, base, s, v.itab);
    UnseatElse(v, n, base, s, v.itab);
    assert v.trees - {n} == v.trees;
    assert v' == Unseat(v, n, s, v.itab);
  }

  lemma FreshStep(base: Snap, s: Snap, bytes: seq<byte>, sectors: nat)
    requires Fresh(base, s, bytes, sectors)
    ensures Step(base, s)
  {
  }

  lemma PutFailed(v: Vol, n: nat, base: Snap, s: Snap, r: Snap, v': Vol, sectors: nat)
    requires VolOK(v) && n !in v.trees && base == Part(v, n, base.ptr, base.free, base.cnt) && Fresh(base, s, [], sectors)
    requires s.t == map[] && s.disk == r.disk && s.used == r.used && GivenBack(base.(ptr := [], t := map[], cnt := 0), r)
    requires v' == v.(disk := s.disk, used := s.used)
    ensures VolOK(v') && ElseSame(v, v', 1) && s.used == v.used
  {
    hide VolOK, ElseSame, Step, Fresh;
    FreshStep(base, s, [], sectors);
    SameUsed(v, r, base);
    NotPut(v, n, base, s, v');
    AnyElse(v, v', n, 1);
  }

  /** The newly written inode n. */
  ghost predicate Born(fs: Volume, n: nat, buf: seq<byte>, kind: Kind)
    reads fs, fs.blocks
  {
    && n in fs.trees && n in fs.itab && fs.itab[n].size == |buf| <= MAX_SIZE && fs.itab[n].links == 0 && fs.itab[n].kind == kind
    && Solid(fs, n) && Contents(View(fs), n) == buf && fs.itab[n].sectors == 8 * |fs.trees[n]|
  }

  /** write_inode and set_inode for a newly allocated inode number. */
  method PutAt(fs: Volume, n: nat, buf: seq<byte>, kind: Kind) returns (ok: bool)
    requires fs.BlocksReady() && VolOK(View(fs)) && n !in fs.trees && |buf| <= MAX_SIZE && kind != Symlink
    modifies fs`disk, fs`itab, fs`trees, fs.blocks
    ensures fs.BlocksReady() && VolOK(View(fs)) && (ok <==> old(fs.blocks.superFree) >= Need(BlockCount(|buf|)))
    ensures !ok ==> ElseSame(old(View(fs)), View(fs), 1) && View(fs) == old(View(fs)).(disk := fs.disk)
    ensures ok ==> ElseSame(old(View(fs)), View(fs), n) && Born(fs, n, buf, kind)
    ensures ok ==> fs.trees == old(fs.trees)[n := fs.trees[n]] && fs.itab == old(fs.itab)[n := fs.itab[n]]
    ensures ok ==> fs.blocks.superFree + |fs.trees[n]| == old(fs.blocks.superFree) && |fs.trees[n]| < Need(BlockCount(|buf|))
  {
    hide VolOK, ElseSame, Good, Step, BlockCount, Need, Contents, HoleFree, GivenBack, Fresh, Zeros, Volume.BlocksReady;
    ghost var v := View(fs);
    ghost var base := Now(fs, Zeros(15), map[], 0);
    EmptyGood(base);
    StepRefl(base);
    var ptr, sectors;
    ghost var t;
    ok, ptr, sectors, t := Rewrite(fs, buf, base);
    ghost var s := Now(fs, ptr, t, |t|);
    if !ok {
      PutFailed(v, n, base, s, Device(fs), View(fs), sectors);
      return;
    }
    var ino := Inode(kind, |buf|, 0, sectors, ptr);
    SeatFresh(v, n, base, s, ino, buf);
    SetInode(fs, n, ino, t);
    assert View(fs) == Seat(v, n, s, ino);
    FreshWhole(base, s, Now(fs, ptr, t, 0), buf, sectors);
  }

  /** put_inode: a new inode with the given contents, or nothing at all (INODE_ERROR is 1). */
  method Put(fs: Volume, buf: seq<byte>, isDir: bool) returns (n: nat)
    requires Valid(fs) && |buf| <= MAX_SIZE
    modifies fs`disk, fs`itab, fs`trees, fs.blocks, fs.inodes
    ensures Valid(fs) && ElseSame(old(View(fs)), View(fs), n)
    ensures n == 1 <==> old(fs.inodes.superFree) == 0 || old(fs.blocks.superFree) < Need(BlockCount(|buf|))
    ensures n == 1 ==> View(fs) == old(View(fs)).(disk := fs.disk) && fs.inodes.used == old(fs.inodes.used)
    ensures n != 1 ==> InTable(fs, n) && n !in old(fs.inodes.used) && fs.inodes.used == old(fs.inodes.used) + {n}
    ensures n != 1 ==> Born(fs, n, buf, if isDir then Directory else Regular)
    ensures n != 1 ==> 8 * fs.blocks.superFree + fs.itab[n].sectors == old(8 * fs.blocks.superFree)
    ensures n != 1 ==> fs.itab[n].sectors < 8 * Need(BlockCount(|buf|))
  {
    hide VolOK, ElseSame, BlockCount, Need, Contents, Solid, Volume.BlocksReady, Bitmap.Valid;
    ghost var v := View(fs);
    n := fs.inodes.Alloc();
    SameElse(v, n);
    if n == 1 {
      return;
    }
    var ok := PutAt(fs, n, buf, if isDir then Directory else Regular);
    if !ok {
      var _ := fs.inodes.Free(n);
      return 1;
    }
  }

  lemma SameUsed(v: Vol, r: Snap, base: Snap)
    requires base.used == v.used && GivenBack(base.(ptr := [], t := map[], cnt := 0), r)
    ensures r.used == v.used
  {
  }

  /** When n has no tree on either side, nothing at all has changed but bytes of free blocks. */
  lemma AnyElse(v: Vol, v': Vol, n: nat, m: nat)
    requires ElseSame(v, v', n) && n !in v.trees && v' == v.(disk := v'.disk)
    ensures ElseSame(v, v', m)
  {
  }
}
