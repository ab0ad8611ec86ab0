/** The invariant that ties inodes, block trees and the block bitmap together, and file contents as byte sequences. */
module FileSystem {
  import opened Blocks
  import opened BlockTree
  import opened Bitmaps
  import opened Volumes
  import opened MapFileBlock
  import opened FileBlocks

  const MAX_SIZE: nat := 0xFFFF_F000   // larger sizes make the round-up in write_inode wrap

  /** The number of blocks of a file: (size + BLOCK_SIZE - 1) / BLOCK_SIZE in 32 bits. */
  function BlockCount(size: nat): nat {
    ((size + 4095) % 0x1_0000_0000) / 4096
  }

  lemma BlockCountIs(size: nat)
    requires size <= MAX_SIZE
    ensures BlockCount(size) <= 0xF_FFFF && 4096 * BlockCount(size) - 4096 < size <= 4096 * BlockCount(size)
    ensures size % 4096 == 0 ==> size == 4096 * BlockCount(size)
    ensures size % 4096 != 0 ==> BlockCount(size) == size / 4096 + 1
  {
  }

  /** The state of a volume as a value. */
  datatype Vol = Vol(disk: seq<Block>, used: set<nat>, itab: map<nat, Inode>, trees: map<nat, Tree>, meta: set<nat>)

  ghost function View(fs: Volume): Vol
    reads fs, fs.blocks
  {
    Vol(fs.disk, fs.blocks.used, fs.itab, fs.trees, fs.meta)
  }

  /** A short symbolic link keeps its target where the block pointers would be. */
  predicate Inline(ino: Inode) {
    ino.kind == Symlink && ino.sectors == 0
  }

  /** One inode and its tree: sector count, nothing mapped past the end, sound pointers. */
  ghost predicate FileOK(v: Vol, ino: Inode, t: Tree) {
    && (if Inline(ino) then t == map[] else TreeOK(v.disk, ino.ptr, t))
    && (forall k :: k in t ==> t[k] in v.used && t[k] !in v.meta)
    && ino.sectors == 8 * |t| && ino.size <= MAX_SIZE
    && (forall i :: 0 <= i < MAX_FILE_BLOCKS && Slot(t, i) != 0 ==> i < BlockCount(ino.size))
  }

  /**
   * Every allocated block is metadata or sits once in exactly one live inode's tree, and every block in a tree is
   * allocated.
   */
  ghost predicate VolOK(v: Vol) {
    && v.meta <= v.used
    && (forall n :: n in v.trees ==> n in v.itab && FileOK(v, v.itab[n], v.trees[n]))
    && (forall m, n :: m in v.trees && n in v.trees && m != n ==> Apart(v.trees[m], v.trees[n]))
    && (forall b :: b in v.used ==> b in v.meta || exists n :: n in v.trees && Holds(v.trees[n], b))
  }

  ghost predicate Apart(t: Tree, t': Tree) {
    forall k, k' :: k in t && k' in t' ==> t[k] != t'[k']
  }

  ghost predicate Valid(fs: Volume)
    reads fs, fs.blocks, fs.inodes
  {
    && fs.blocks != fs.inodes && fs.BlocksReady() && fs.inodes.Valid() && fs.inodes.first == 1 == fs.inodes.fail
    && fs.inodes.limit <= 0x1_0000_0000
    && (forall n :: 1 <= n < fs.inodes.limit ==> n in fs.itab)
    && fs.trees.Keys <= fs.inodes.used && 1 !in fs.trees
    && VolOK(View(fs))
  }

  /** A volume as a value, with all that decides how much room is left on it. */
  datatype State = State(vol: Vol, inodes: set<nat>, blockTotal: int, inodeTotal: int)

  ghost function StateOf(fs: Volume): State
    reads fs, fs.blocks, fs.inodes
  {
    State(View(fs), fs.inodes.used, fs.blocks.limit - fs.blocks.first, fs.inodes.limit - fs.inodes.first)
  }

  /** What is free: blocks and inodes. */
  datatype Room = Room(blocks: int, inodes: int)

  ghost function RoomIn(s: State): Room {
    Room(s.blockTotal - |s.vol.used|, s.inodeTotal - |s.inodes|)
  }

  /** The superblock's counters are the numbers of free blocks and inodes. */
  lemma RoomIs(fs: Volume)
    requires Valid(fs)
    ensures RoomIn(StateOf(fs)) == Room(fs.blocks.superFree, fs.inodes.superFree)
  {
    hide VolOK;
  }

  ghost function TreeOf(v: Vol, n: nat): Tree {
    if n in v.trees then v.trees[n] else map[]
  }

  /** The part of a volume that an operation on inode n works on. */
  ghost function Part(v: Vol, n: nat, ptr: seq<nat>, free: nat, cnt: int): Snap {
    Snap(v.disk, v.used, free, ptr, TreeOf(v, n), cnt)
  }

  lemma PartForeign(v: Vol, n: nat, ptr: seq<nat>, free: nat, cnt: int, m: nat, k: Key)
    requires VolOK(v) && m in v.trees && m != n && k in v.trees[m]
    ensures Foreign(Part(v, n, ptr, free, cnt), v.trees[m][k])
  {
    assert FileOK(v, v.itab[m], v.trees[m]);
    if n in v.trees { assert Apart(v.trees[m], v.trees[n]); }
  }

  /** The volume after inode n has been given tree s.t on device s.disk, and inode ino has been stored. */
  ghost function Seat(v: Vol, n: nat, s: Snap, ino: Inode): Vol {
    v.(disk := s.disk, used := s.used, itab := v.itab[n := ino], trees := v.trees[n := s.t])
  }

  lemma OtherFileOK(v: Vol, n: nat, s0: Snap, s: Snap, ino: Inode, m: nat)
    requires VolOK(v) && s0 == Part(v, n, s0.ptr, s0.free, s0.cnt) && OthersKept(s0, s)
    requires m in v.trees && m != n
    ensures FileOK(Seat(v, n, s, ino), v.itab[m], v.trees[m])
  {
    var t := v.trees[m];
    assert FileOK(v, v.itab[m], t);
    forall k | k in t ensures t[k] in s.used && (t[k] < |v.disk| ==> s.disk[t[k]] == v.disk[t[k]]) {
      PartForeign(v, n, s0.ptr, s0.free, s0.cnt, m, k);
      assert Foreign(s, t[k]);
    }
    if !Inline(v.itab[m]) {
      ShapeFrame(v.disk, v.itab[m].ptr, t, s.disk);
    }
  }

  lemma SeatApart(v: Vol, n: nat, s0: Snap, s: Snap, m: nat)
    requires VolOK(v) && s0 == Part(v, n, s0.ptr, s0.free, s0.cnt) && OthersKept(s0, s)
    requires m in v.trees && m != n
    ensures Apart(v.trees[m], s.t) && Apart(s.t, v.trees[m])
  {
    forall k, k' | k in v.trees[m] && k' in s.t ensures v.trees[m][k] != s.t[k'] {
      PartForeign(v, n, s0.ptr, s0.free, s0.cnt, m, k);
      assert Foreign(s, v.trees[m][k]);
    }
  }

  lemma SeatCovers(v: Vol, n: nat, s0: Snap, s: Snap, ino: Inode, b: nat)
    requires VolOK(v) && s0 == Part(v, n, s0.ptr, s0.free, s0.cnt) && OthersKept(s0, s) && b in s.used
    ensures b in v.meta || exists m :: m in Seat(v, n, s, ino).trees && Holds(Seat(v, n, s, ino).trees[m], b)
  {
    hide FileOK, Apart, Holds, VolOK;
    var v' := Seat(v, n, s, ino);
    if Holds(s.t, b) {
      assert n in v'.trees && v'.trees[n] == s.t;
    } else {
      assert Foreign(s, b);
      assert Foreign(s0, b);
      if b !in v.meta {
        var m := Owner(v, b);
        assert m in v'.trees && v'.trees[m] == v.trees[m];
      }
    }
  }

  lemma Owner(v: Vol, b: nat) returns (m: nat)
    requires VolOK(v) && b in v.used && b !in v.meta
    ensures m in v.trees && Holds(v.trees[m], b)
  {
    hide FileOK, Apart, Holds;
    m :| m in v.trees && Holds(v.trees[m], b);
  }

  /** Ending an operation on inode n: the volume is sound again. */
  lemma Reseat(v: Vol, n: nat, s0: Snap, s: Snap, ino: Inode)
    requires VolOK(v) && s0 == Part(v, n, s0.ptr, s0.free, s0.cnt) && OthersKept(s0, s)
    requires FileOK(Seat(v, n, s, ino), ino, s.t)
    ensures VolOK(Seat(v, n, s, ino))
  {
    hide FileOK;
    var v' := Seat(v, n, s, ino);
    forall m | m in v'.trees ensures m in v'.itab && FileOK(v', v'.itab[m], v'.trees[m]) {
      if m != n { OtherFileOK(v, n, s0, s, ino, m); }
    }
    forall a, b | a in v'.trees && b in v'.trees && a != b ensures Apart(v'.trees[a], v'.trees[b]) {
      if b == n { SeatApart(v, n, s0, s, a); }
      if a == n { SeatApart(v, n, s0, s, b); }
    }
    forall b | b in v'.used ensures b in v'.meta || exists m :: m in v'.trees && Holds(v'.trees[m], b) {
      SeatCovers(v, n, s0, s, ino, b);
    }
    forall b | b in v.meta ensures b in v'.used {
      MetaForeign(v, n, s0.ptr, s0.free, s0.cnt, b);
      assert Foreign(s, b);
    }
  }

  lemma MetaForeign(v: Vol, n: nat, ptr: seq<nat>, free: nat, cnt: int, b: nat)
    requires VolOK(v) && b in v.meta
    ensures Foreign(Part(v, n, ptr, free, cnt), b)
  {
    if n in v.trees { assert FileOK(v, v.itab[n], v.trees[n]); }
  }

  /** Byte p of the file. */
  ghost function ByteAt(s: Snap, p: nat): byte
    requires p < 0x1_0000_0000
  {
    Data(s, p / 4096)[p % 4096]
  }

  /** The first `done` bytes of the file are those of `bytes`. */
  ghost predicate Holding(s: Snap, bytes: seq<byte>, done: nat)
    requires done <= |bytes| && done <= 0x1_0000_0000
  {
    forall p :: 0 <= p < done ==> ByteAt(s, p) == bytes[p]
  }

  /** The first `size` bytes of the file. */
  ghost function FileBytes(s: Snap, size: nat): (bytes: seq<byte>)
    requires size <= 0x1_0000_0000
    ensures |bytes| == size && Holding(s, bytes, size)
  {
    seq(size, p requires 0 <= p < size => ByteAt(s, p))
  }

  lemma BytesUnique(s: Snap, bytes: seq<byte>)
    requires |bytes| <= 0x1_0000_0000 && Holding(s, bytes, |bytes|)
    ensures FileBytes(s, |bytes|) == bytes
  {
  }

  /** What a reader of inode n sees: the file cut at its size, holes as zeros. */
  ghost function Contents(v: Vol, n: nat): (bytes: seq<byte>)
    requires n in v.itab && v.itab[n].size <= MAX_SIZE
    ensures |bytes| == v.itab[n].size
  {
    FileBytes(Part(v, n, [], 0, 0), v.itab[n].size)
  }

  /** All inodes but n have the same inode, the same blocks and the same contents. */
  ghost predicate ElseSame(v: Vol, v': Vol, n: nat) {
    && v'.meta == v.meta
    && (forall m :: m != n ==> (m in v.trees <==> m in v'.trees) && (m in v.itab <==> m in v'.itab))
    && (forall m :: m != n && m in v.itab && m in v'.itab ==> v'.itab[m] == v.itab[m])
    && (forall m :: m != n && m in v.trees && m in v'.trees ==> FileKept(v, v', m))
  }

  ghost predicate FileKept(v: Vol, v': Vol, m: nat) {
    m in v.trees && m in v'.trees && v'.trees[m] == v.trees[m] && forall p :: 0 <= p < 0x1_0000_0000 ==>
      ByteAt(Part(v', m, [], 0, 0), p) == ByteAt(Part(v, m, [], 0, 0), p)
  }

  /** Inode n has the same blocks, the same bytes and the same inode, its link count aside. */
  ghost predicate Intact(v: Vol, v': Vol, n: nat) {
    && n in v.itab && n in v'.itab && v'.itab[n] == v.itab[n].(links := v'.itab[n].links) && FileKept(v, v', n)
  }

  /** Whatever is no directory and is live before and after is intact. */
  ghost predicate FilesKept(v: Vol, v': Vol) {
    forall n :: n in v.trees && n in v.itab && n in v'.trees && v.itab[n].kind != Directory ==> Intact(v, v', n)
  }

  /** Files are kept, and the same inodes are live. */
  ghost predicate Passed(v: Vol, v': Vol) {
    FilesKept(v, v') && v'.trees.Keys == v.trees.Keys && forall n :: n in v.trees && n in v.itab ==> n in v'.itab
  }

  lemma IntactTrans(a: Vol, b: Vol, c: Vol, n: nat)
    requires Intact(a, b, n) && Intact(b, c, n)
    ensures Intact(a, c, n)
  {
  }

  lemma FilesTrans(a: Vol, b: Vol, c: Vol)
    requires FilesKept(a, b) && FilesKept(b, c) && a.trees.Keys * c.trees.Keys <= b.trees.Keys
    ensures FilesKept(a, c)
  {
    hide FileKept;
    forall n | n in a.trees && n in a.itab && n in c.trees && a.itab[n].kind != Directory ensures Intact(a, c, n) {
      assert n in a.trees.Keys * c.trees.Keys;
      assert Intact(a, b, n);
      assert Intact(b, c, n);
      IntactTrans(a, b, c, n);
    }
  }

  lemma PassedTrans(a: Vol, b: Vol, c: Vol)
    requires Passed(a, b) && Passed(b, c)
    ensures Passed(a, c)
  {
    hide FilesKept;
    assert a.trees.Keys * c.trees.Keys <= b.trees.Keys;
    FilesTrans(a, b, c);
    forall n | n in a.trees && n in a.itab ensures n in c.itab { assert n in b.trees.Keys; }
  }

  lemma PassedSame(v: Vol)
    ensures Passed(v, v)
  {
  }

  /** An operation on one inode that is a directory, new or gone. */
  lemma ElseFiles(v: Vol, v': Vol, n: nat)
    requires ElseSame(v, v', n) && (n !in v.trees || n !in v'.trees || (n in v.itab && v.itab[n].kind == Directory))
    ensures FilesKept(v, v')
  {
    forall m | m in v.trees && m in v.itab && m in v'.trees && v.itab[m].kind != Directory ensures Intact(v, v', m) {
      assert m != n && FileKept(v, v', m);
    }
  }

  /** An intact file has the same bytes. */
  lemma IntactBytes(v: Vol, v': Vol, n: nat)
    requires Intact(v, v', n) && v.itab[n].size <= MAX_SIZE
    ensures v'.itab[n].size == v.itab[n].size && v'.itab[n].kind == v.itab[n].kind && Contents(v', n) == Contents(v, n)
  {
    assert Holding(Part(v, n, [], 0, 0), Contents(v, n), |Contents(v, n)|);
    BytesUnique(Part(v', n, [], 0, 0), Contents(v, n));
  }

  lemma KeptContents(v: Vol, v': Vol, n: nat, m: nat)
    requires ElseSame(v, v', n) && m != n && m in v.trees && m in v.itab && v.itab[m].size <= MAX_SIZE
    ensures m in v'.itab && v'.itab[m] == v.itab[m] && Contents(v', m) == Contents(v, m)
  {
    assert FileKept(v, v', m);
    assert Holding(Part(v, m, [], 0, 0), Contents(v, m), |Contents(v, m)|);
    BytesUnique(Part(v', m, [], 0, 0), Contents(v, m));
  }

  lemma OtherData(v: Vol, n: nat, s0: Snap, s: Snap, ino: Inode, m: nat, i: nat)
    requires VolOK(v) && s0 == Part(v, n, s0.ptr, s0.free, s0.cnt) && OthersKept(s0, s)
    requires m in v.trees && m != n && i < MAX_FILE_BLOCKS
    ensures Data(Part(Seat(v, n, s, ino), m, [], 0, 0), i) == Data(Part(v, m, [], 0, 0), i)
  {
    hide VolOK;
    if Path(i) in v.trees[m] {
      PartForeign(v, n, s0.ptr, s0.free, s0.cnt, m, Path(i));
    }
  }

  lemma OtherKept(v: Vol, n: nat, s0: Snap, s: Snap, ino: Inode, m: nat)
    requires VolOK(v) && s0 == Part(v, n, s0.ptr, s0.free, s0.cnt) && OthersKept(s0, s)
    requires m in v.trees && m != n
    ensures FileKept(v, Seat(v, n, s, ino), m)
  {
    hide VolOK, OthersKept, Data;
    var v' := Seat(v, n, s, ino);
    forall p | 0 <= p < 0x1_0000_0000 ensures ByteAt(Part(v', m, [], 0, 0), p) == ByteAt(Part(v, m, [], 0, 0), p) {
      OtherData(v, n, s0, s, ino, m, p / 4096);
    }
  }

  lemma SeatElse(v: Vol, n: nat, s0: Snap, s: Snap, ino: Inode)
    requires VolOK(v) && s0 == Part(v, n, s0.ptr, s0.free, s0.cnt) && OthersKept(s0, s)
    ensures ElseSame(v, Seat(v, n, s, ino), n)
  {
    forall m | m != n && m in v.trees ensures FileKept(v, Seat(v, n, s, ino), m) {
      OtherKept(v, n, s0, s, ino, m);
    }
  }

  lemma SeatOwn(v: Vol, n: nat, s0: Snap, s: Snap, ino: Inode)
    requires VolOK(v) && s0 == Part(v, n, s0.ptr, s0.free, s0.cnt) && Step(s0, s)
    requires ino.ptr == s.ptr && !Inline(ino) && ino.sectors == 8 * |s.t| && ino.size <= MAX_SIZE
    requires forall i :: 0 <= i < MAX_FILE_BLOCKS && IsMapped(s, i) ==> i < BlockCount(ino.size)
    ensures FileOK(Seat(v, n, s, ino), ino, s.t)
  {
    hide VolOK, TreeShape, NoEmpty, BlockCount;
    forall b | b in v.meta ensures Foreign(s, b) {
      MetaForeign(v, n, s0.ptr, s0.free, s0.cnt, b);
    }
    forall k | k in s.t ensures s.t[k] !in v.meta {
      assert Holds(s.t, s.t[k]);
    }
    forall i | 0 <= i < MAX_FILE_BLOCKS && Slot(s.t, i) != 0 ensures i < BlockCount(ino.size) {
      assert IsMapped(s, i);
    }
  }

  /** The end of an operation that changed inode n's blocks, size or contents. */
  lemma Finish(v: Vol, n: nat, s0: Snap, s: Snap, ino: Inode)
    requires VolOK(v) && s0 == Part(v, n, s0.ptr, s0.free, s0.cnt) && Step(s0, s)
    requires ino.ptr == s.ptr && !Inline(ino) && ino.sectors == 8 * |s.t| && ino.size <= MAX_SIZE
    requires forall i :: 0 <= i < MAX_FILE_BLOCKS && IsMapped(s, i) ==> i < BlockCount(ino.size)
    ensures VolOK(Seat(v, n, s, ino)) && ElseSame(v, Seat(v, n, s, ino), n)
    ensures Contents(Seat(v, n, s, ino), n) == FileBytes(s, ino.size)
  {
    hide VolOK, Sound, OthersKept, Good, FileOK, ElseSame, BlockCount;
    SeatOwn(v, n, s0, s, ino);
    Reseat(v, n, s0, s, ino);
    SeatElse(v, n, s0, s, ino);
    SameBytes(Seat(v, n, s, ino), n, s, ino.size);
  }

  lemma SameBytes(v: Vol, n: nat, s: Snap, size: nat)
    requires n in v.trees && v.trees[n] == s.t && v.disk == s.disk && size <= MAX_SIZE
    ensures FileBytes(Part(v, n, [], 0, 0), size) == FileBytes(s, size)
  {
    forall p | 0 <= p < size ensures ByteAt(Part(v, n, [], 0, 0), p) == ByteAt(s, p) {}
  }

  /** No file block below the size is a hole. */
  ghost predicate HoleFree(s: Snap, size: nat) {
    forall j :: 0 <= j < MAX_FILE_BLOCKS && j < BlockCount(size) ==> IsMapped(s, j)
  }

  /** The file has no holes. */
  ghost predicate Solid(fs: Volume, n: nat)
    reads fs, fs.blocks
  {
    n in fs.trees && n in fs.itab && HoleFree(Now(fs, fs.itab[n].ptr, fs.trees[n], 0), fs.itab[n].size)
  }

  /** Operations on a file's bytes leave its type and link count alone, and the file stays live. */
  ghost predicate SameFile(fs: Volume, n: nat, ino: Inode)
    reads fs
  {
    n in fs.itab && n in fs.trees && fs.itab[n].kind == ino.kind && fs.itab[n].links == ino.links && fs.itab[n].size <= MAX_SIZE
  }

  /** Inode numbers that get_inode accepts. */
  predicate InTable(fs: Volume, n: nat) {
    0 < n < fs.inodes.limit
  }

  /** set_inode, with the tree that belongs to the stored pointers. */
  method SetInode(fs: Volume, n: nat, ino: Inode, ghost t: Tree)
    modifies fs`itab, fs`trees
    ensures fs.itab == old(fs.itab)[n := ino] && fs.trees == old(fs.trees)[n := t]
    ensures old(fs.BlocksReady()) ==> fs.BlocksReady()
  {
    fs.itab := fs.itab[n := ino];
    fs.trees := fs.trees[n := t];
  }

  lemma Begin(fs: Volume, n: nat)
    requires Valid(fs) && n in fs.trees && fs.itab[n].kind != Symlink
    ensures InTable(fs, n) && n in fs.itab
    ensures Good(Now(fs, fs.itab[n].ptr, fs.trees[n], 0)) && fs.itab[n].sectors == 8 * |fs.trees[n]|
    ensures fs.itab[n].size <= MAX_SIZE
    ensures forall i :: 0 <= i < MAX_FILE_BLOCKS && IsMapped(Now(fs, fs.itab[n].ptr, fs.trees[n], 0), i) ==> i < BlockCount(fs.itab[n].size)
  {
    assert FileOK(View(fs), fs.itab[n], fs.trees[n]);
  }

  lemma ElseTrans(a: Vol, b: Vol, c: Vol, n: nat)
    requires ElseSame(a, b, n) && ElseSame(b, c, n)
    ensures ElseSame(a, c, n)
  {
    forall m | m != n && m in a.trees && m in c.trees ensures FileKept(a, c, m) {
      assert FileKept(a, b, m) && FileKept(b, c, m);
    }
  }

  lemma SameElse(v: Vol, n: nat)
    ensures ElseSame(v, v, n)
  {
  }
}
