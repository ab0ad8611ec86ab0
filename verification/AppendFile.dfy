/** append_to_inode (kernel/fs/block/blockController.c). */
module AppendFile {
  import opened Blocks
  import opened BlockTree
  import opened Bitmaps
  import opened Volumes
  import opened MapFileBlock
  import opened FileBlocks
  import opened FileSystem
  import opened Footprints

  /** src copied into blk from offset `off` on. */
  function Splice(blk: Block, off: nat, src: seq<byte>): (r: Block)
    requires off + |src| <= 4096
  {
    blk[..off] + src + blk[off + |src|..]
  }

  /** Writing one block fills in the bytes it covers and leaves the others. */
  lemma WriteHolds(s: Snap, s': Snap, i: nat, bytes: seq<byte>, done: nat, done': nat)
    requires i < 0x10_0000 && done <= done' <= |bytes| && done' <= 0x1_0000_0000
    requires Holding(s, bytes, done) && FileSame(s, s', i)
    requires 4096 * i <= done <= done' <= 4096 * i + 4096
    requires forall x :: 0 <= x < 4096 && 4096 * i + x < done' ==> Data(s', i)[x] == bytes[4096 * i + x]
    ensures Holding(s', bytes, done')
  {
    forall p | 0 <= p < done' ensures ByteAt(s', p) == bytes[p] {
      if p / 4096 == i {
        assert p == 4096 * i + p % 4096;
      } else {
        assert p < 4096 * i;
        assert ByteAt(s, p) == bytes[p];
      }
    }
  }

  lemma TailBytes(s: Snap, size: nat, buf: seq<byte>, taken: nat, bytes: seq<byte>)
    requires taken <= |buf| && size % 4096 + taken <= 4096
    requires |bytes| == size + |buf| <= MAX_SIZE && bytes[size..] == buf && Holding(s, bytes, size)
    ensures forall x :: 0 <= x < 4096 && 4096 * (size / 4096) + x < size + taken ==>
              Splice(Data(s, size / 4096), size % 4096, buf[..taken])[x] == bytes[4096 * (size / 4096) + x]
  {
    var i, off := size / 4096, size % 4096;
    forall x | 0 <= x < 4096 && 4096 * i + x < size + taken
      ensures Splice(Data(s, i), off, buf[..taken])[x] == bytes[4096 * i + x]
    {
      if x < off {
        var p := 4096 * i + x;
        assert p / 4096 == i && p % 4096 == x;
        assert ByteAt(s, p) == bytes[p];
      } else {
        assert bytes[size..][x - off] == bytes[4096 * i + x];
      }
    }
  }

  /** The partly filled last block takes as much of buf as fits. */
  method SpliceTail(fs: Volume, ptr: seq<nat>, size: nat, buf: seq<byte>, ghost t: Tree, ghost bytes: seq<byte>)
    returns (ok: bool, alloced: bool, taken: nat, ptr': seq<nat>, cnt': int, ghost t': Tree)
    requires fs.BlocksReady() && Good(Now(fs, ptr, t, 0)) && size % 4096 != 0
    requires |bytes| == size + |buf| <= MAX_SIZE && bytes[size..] == buf && Holding(Now(fs, ptr, t, 0), bytes, size)
    modifies fs`disk, fs.blocks
    ensures fs.BlocksReady()
    ensures !ok ==> Stalls(old(Now(fs, ptr, t, 0)), Now(fs, ptr', t', cnt'), size / 4096)
    ensures ok ==> Step(old(Now(fs, ptr, t, 0)), Now(fs, ptr', t', cnt')) && IsMapped(Now(fs, ptr', t', cnt'), size / 4096)
    ensures ok ==> FileSame(old(Now(fs, ptr, t, 0)), Now(fs, ptr', t', cnt'), size / 4096)
    ensures ok ==> Extends(t', t) && cnt' == |t'| - |t| && alloced == !old(IsMapped(Now(fs, ptr, t, 0), size / 4096))
    ensures ok ==> old(fs.blocks.superFree) <= fs.blocks.superFree + if alloced then 4 else 0
    ensures ok ==> taken <= |buf| && size + taken <= 4096 * (size / 4096 + 1)
    ensures ok ==> taken == |buf| || size + taken == 4096 * (size / 4096 + 1)
    ensures ok ==> Holding(Now(fs, ptr', t', cnt'), bytes, size + taken)
  {
    hide Good, Sound, OthersKept, Slot, Data, Missing, ByteAt, Volume.BlocksReady;
    ghost var s := Now(fs, ptr, t, 0);
    var i, off := size / 4096, size % 4096;
    GoodSlot(s, i);
    StepRefl(s);
    var st, b := Lookup(fs, ptr, i, t, 0);
    ptr', cnt', t', alloced := ptr, 0, t, false;
    taken := if |buf| < 4096 - off then |buf| else 4096 - off;
    var slack: Block;
    if st == Empty {
      ok, b, ptr', cnt', t' := Alloc(fs, ptr, i, 0, t);
      if !ok { return; }
      slack, alloced := ZeroBlock(), true;
      HoleData(s, i);
      MissingAtMostFour(t, i);
    } else {
      slack := GetData(fs, b, ptr, i, 0, t);
    }
    ghost var s1 := Now(fs, ptr', t', cnt');
    var blk := Splice(slack, off, buf[..taken]);
    TailBytes(s, size, buf, taken, bytes);
    PutData(fs, b, blk, ptr', i, cnt', t');
    ghost var s2 := Now(fs, ptr', t', cnt');
    StepTrans(s, s1, s2);
    WriteHolds(s, s2, i, bytes, size, size + taken);
    ok := true;
  }

  /** While an append runs: what the file started from is still there, under blocks that were added. */
  ghost predicate Appending(base: Snap, s: Snap, bytes: seq<byte>, size: nat)
    requires size <= |bytes| && size <= 0x1_0000_0000
  {
    Good(base) && Step(base, s) && Extends(s.t, base.t) && Holding(base, bytes, size) && Holding(s, bytes, size)
  }

  /** Only the file blocks in lo..hi are mapped beyond those of the base. */
  ghost predicate MappedWithin(base: Snap, s: Snap, lo: nat, hi: nat) {
    forall j :: 0 <= j < MAX_FILE_BLOCKS && IsMapped(s, j) ==> IsMapped(base, j) || lo <= j < hi
  }

  lemma ReleaseOne(base: Snap, s: Snap, s': Snap, bytes: seq<byte>, size: nat, i: nat)
    requires size <= |bytes| && size <= 0x1_0000_0000 && i < MAX_FILE_BLOCKS
    requires Appending(base, s, bytes, size) && Good(s) && Clears(s, s', i) && Releases(s, s', i) && !IsMapped(base, i)
    ensures Appending(base, s', bytes, size)
  {
    hide Releases, OthersKept, Good;
    BaseKept(base, s, s', i);
    StepTrans(base, s, s');
    HoleData(s', i);
    HoleData(base, i);
    forall p | 0 <= p < size ensures ByteAt(s', p) == bytes[p] {
      assert ByteAt(base, p) == bytes[p] && ByteAt(s, p) == bytes[p];
    }
  }

  /** The unwind loop of a failed append: free the added blocks from the lowest up, then the tail block. */
  method UnwindAppend(fs: Volume, ptr: seq<nat>, start: nat, cnt: nat, alloced: bool, c: int, ghost t: Tree,
                      ghost base: Snap, ghost bytes: seq<byte>, ghost size: nat)
    returns (ptr': seq<nat>, c': int, ghost t': Tree)
    requires fs.BlocksReady() && size <= |bytes| <= MAX_SIZE && start + cnt < MAX_FILE_BLOCKS
    requires Appending(base, Now(fs, ptr, t, c), bytes, size)
    requires alloced ==> 0 < start && !IsMapped(base, start - 1) && IsMapped(Now(fs, ptr, t, c), start - 1)
    requires forall j :: start <= j < start + cnt ==> !IsMapped(base, j) && IsMapped(Now(fs, ptr, t, c), j)
    requires MappedWithin(base, Now(fs, ptr, t, c), if alloced then start - 1 else start, start + cnt)
    modifies fs`disk, fs.blocks
    ensures fs.BlocksReady() && Appending(base, Now(fs, ptr', t', c'), bytes, size)
    ensures t' == base.t && ptr' == base.ptr && fs.blocks.used == base.used && fs.blocks.superFree == base.free
  {
    hide Good, OthersKept, Slot, Data, Missing, ByteAt, Holding, Extends, Releases, Volume.BlocksReady;
    ptr', t', c' := ptr, t, c;
    var freed;
    var i := start;
    while i < start + cnt
      invariant start <= i <= start + cnt && fs.BlocksReady()
      invariant Appending(base, Now(fs, ptr', t', c'), bytes, size)
      invariant alloced ==> IsMapped(Now(fs, ptr', t', c'), start - 1)
      invariant forall j :: i <= j < start + cnt ==> IsMapped(Now(fs, ptr', t', c'), j)
      invariant forall j :: start <= j < i ==> !IsMapped(Now(fs, ptr', t', c'), j)
      invariant MappedWithin(base, Now(fs, ptr', t', c'), if alloced then start - 1 else start, start + cnt)
    {
      ghost var s := Now(fs, ptr', t', c');
      freed, ptr', c', t' := Release(fs, ptr', i, c', t');
      assert freed;   // the panic is unreachable
      ReleaseOne(base, s, Now(fs, ptr', t', c'), bytes, size, i);
      i := i + 1;
    }
    if alloced {
      ghost var s := Now(fs, ptr', t', c');
      freed, ptr', c', t' := Release(fs, ptr', start - 1, c', t');
      assert freed;
      ReleaseOne(base, s, Now(fs, ptr', t', c'), bytes, size, start - 1);
    }
    ghost var e := Now(fs, ptr', t', c');
    SameDisk(base, e);
    BaseRestored(base, e);
    UsedRestored(base, e);
  }

  lemma SameDisk(s: Snap, s': Snap)
    requires Step(s, s')
    ensures |s'.disk| == |s.disk|
  {
  }

  lemma AppendOne(base: Snap, s: Snap, s1: Snap, s2: Snap, i: nat, out: nat, blk: Block, bytes: seq<byte>, size: nat)
    requires size <= |bytes| && size <= 0x1_0000_0000 && i < 0x10_0000 && size <= 4096 * i
    requires Appending(base, s, bytes, size) && Grows(s, s1, i, out) && Writes(s1, s2, i, blk)
    ensures Appending(base, s2, bytes, size) && FileSame(s, s2, i) && IsMapped(s2, i)
    ensures s.free <= s2.free + 4
  {
    hide OthersKept, Good;
    StepTrans(base, s, s1);
    StepTrans(base, s1, s2);
    MissingAtMostFour(s.t, i);
    forall p | 0 <= p < size ensures ByteAt(s2, p) == bytes[p] {
      assert ByteAt(s, p) == bytes[p];
      assert p / 4096 < i;
    }
  }

  /** One pass of the loop that adds whole blocks. */
  method AppendChunk(fs: Volume, ptr: seq<nat>, i: nat, buf: seq<byte>, cur: nat, cnt: int,
                     ghost t: Tree, ghost base: Snap, ghost bytes: seq<byte>, ghost size: nat)
    returns (ok: bool, add: nat, ptr': seq<nat>, cnt': int, ghost t': Tree)
    requires fs.BlocksReady() && |bytes| == size + |buf| <= MAX_SIZE && bytes[size..] == buf && cur < |buf|
    requires i < 0x10_0000 && size + cur == 4096 * i
    requires Appending(base, Now(fs, ptr, t, cnt), bytes, size) && Holding(Now(fs, ptr, t, cnt), bytes, size + cur)
    modifies fs`disk, fs.blocks
    ensures fs.BlocksReady() && Appending(base, Now(fs, ptr', t', cnt'), bytes, size)
    ensures !ok ==> FileSame(old(Now(fs, ptr, t, cnt)), Now(fs, ptr', t', cnt'), MAX_FILE_BLOCKS)
    ensures !ok ==> fs.blocks.superFree == old(fs.blocks.superFree) < 4 && t' == t && Missing(t, Path(i)) > fs.blocks.superFree
    ensures ok ==> add == (if |buf| - cur < 4096 then |buf| - cur else 4096)
    ensures ok ==> Holding(Now(fs, ptr', t', cnt'), bytes, size + cur + add) && cnt' - cnt == |t'| - |t|
    ensures ok ==> FileSame(old(Now(fs, ptr, t, cnt)), Now(fs, ptr', t', cnt'), i) && IsMapped(Now(fs, ptr', t', cnt'), i)
    ensures ok ==> old(fs.blocks.superFree) <= fs.blocks.superFree + 4
  {
    hide Good, OthersKept, Slot, Data, Missing, ByteAt, Extends, Volume.BlocksReady;
    ghost var s := Now(fs, ptr, t, cnt);
    var b;
    ok, b, ptr', cnt', t' := Alloc(fs, ptr, i, cnt, t);
    add := if |buf| - cur < 4096 then |buf| - cur else 4096;
    ghost var s1 := Now(fs, ptr', t', cnt');
    if !ok {
      MissingAtMostFour(t, i);
      AppendStalled(base, s, s1, i, bytes, size);
      return;
    }
    var blk := fs.Scratch();
    blk := Splice(blk, 0, buf[cur..cur + add]);
    PutData(fs, b, blk, ptr', i, cnt', t');
    ghost var s2 := Now(fs, ptr', t', cnt');
    AppendOne(base, s, s1, s2, i, b, blk, bytes, size);
    assert forall x :: 0 <= x < add ==> blk[x] == bytes[size..][cur + x];
    WriteHolds(s, s2, i, bytes, size + cur, size + cur + add);
  }

  lemma AppendStalled(base: Snap, s: Snap, s': Snap, i: nat, bytes: seq<byte>, size: nat)
    requires size <= |bytes| && size <= 0x1_0000_0000 && i < MAX_FILE_BLOCKS
    requires Appending(base, s, bytes, size) && Stalls(s, s', i)
    ensures Appending(base, s', bytes, size)
  {
    StepTrans(base, s, s');
    forall p | 0 <= p < size ensures ByteAt(s', p) == bytes[p] {
      assert ByteAt(s, p) == bytes[p];
    }
  }

  /** The loop that adds whole blocks, and its unwinding when the disk fills up. */
  method AppendBlocks(fs: Volume, ptr: seq<nat>, start: nat, buf: seq<byte>, cursor: nat, cnt: int, alloced: bool,
                      ghost t: Tree, ghost base: Snap, ghost bytes: seq<byte>, ghost size: nat)
    returns (ok: bool, ptr': seq<nat>, cnt': int, ghost t': Tree)
    requires fs.BlocksReady() && |bytes| == size + |buf| <= MAX_SIZE && bytes[size..] == buf && cursor <= |buf|
    requires start == BlockCount(size) && size + cursor <= 4096 * start && (cursor < |buf| ==> size + cursor == 4096 * start)
    requires Appending(base, Now(fs, ptr, t, cnt), bytes, size) && Holding(Now(fs, ptr, t, cnt), bytes, size + cursor)
    requires alloced ==> size % 4096 != 0 && !IsMapped(base, start - 1) && IsMapped(Now(fs, ptr, t, cnt), start - 1)
    requires MappedWithin(base, Now(fs, ptr, t, cnt), if alloced then start - 1 else start, start)
    requires forall j :: start <= j < MAX_FILE_BLOCKS ==> !IsMapped(base, j)
    requires cnt == |t| - |base.t| && base.free <= fs.blocks.superFree + if alloced then 4 else 0
    modifies fs`disk, fs.blocks
    ensures fs.BlocksReady() && Appending(base, Now(fs, ptr', t', cnt'), bytes, size)
    ensures !ok ==> t' == base.t && ptr' == base.ptr && fs.blocks.used == base.used && fs.blocks.superFree == base.free
    ensures !ok ==> base.free < 4 * (BlockCount(|bytes|) - size / 4096)
    ensures !ok && Spans(base, start, start, start) ==> base.free + |base.t| < Footprint(BlockCount(|bytes|))
    ensures ok ==> Holding(Now(fs, ptr', t', cnt'), bytes, |bytes|) && cnt' == |t'| - |base.t|
    ensures ok ==> MappedWithin(base, Now(fs, ptr', t', cnt'), 0, BlockCount(|bytes|))
    ensures ok ==> forall j :: start <= j < BlockCount(|bytes|) ==> IsMapped(Now(fs, ptr', t', cnt'), j)
  {
    hide Good, OthersKept, Slot, Data, Missing, ByteAt, Extends, Holding, Appending, BlockCount, FileSame, Path, Spans, Footprint, Rows, Volume.BlocksReady;
    ptr', t', cnt' := ptr, t, cnt;
    ghost var lo := if alloced then start - 1 else start;
    var cur, q, add := cursor, 0, 0;
    BlockCountIs(size);
    BlockCountIs(|bytes|);
    RowsNone(base, Now(fs, ptr, t, cnt), start, alloced);
    while cur < |buf|
      invariant cursor <= cur <= |buf| && fs.BlocksReady() && start + q <= BlockCount(|bytes|) && size + cur <= 4096 * (start + q)
      invariant cur < |buf| ==> size + cur == 4096 * (start + q)
      invariant Appending(base, Now(fs, ptr', t', cnt'), bytes, size) && Holding(Now(fs, ptr', t', cnt'), bytes, size + cur)
      invariant Rows(base, Now(fs, ptr', t', cnt'), start, q, alloced)
      invariant cnt' == |t'| - |base.t| && base.free <= fs.blocks.superFree + 4 * (start + q - lo)
      decreases |buf| - cur
    {
      ghost var s := Now(fs, ptr', t', cnt');
      ok, add, ptr', cnt', t' := AppendChunk(fs, ptr', start + q, buf, cur, cnt', t', base, bytes, size);
      if !ok {
        if Spans(base, start, start, start) { RowsStuck(base, s, bytes, size, start, q, alloced, BlockCount(|bytes|)); }
        RowsSame(base, s, Now(fs, ptr', t', cnt'), start, q, alloced);
        RowsIs(base, Now(fs, ptr', t', cnt'), start, q, alloced);
        ptr', cnt', t' := UnwindAppend(fs, ptr', start, q, alloced, cnt', t', base, bytes, size);
        return;
      }
      RowsMore(base, s, Now(fs, ptr', t', cnt'), start, q, alloced);
      cur, q := cur + add, q + 1;
    }
    RowsIs(base, Now(fs, ptr', t', cnt'), start, q, alloced);
    ok := true;
  }

  /** The file blocks that the append has mapped so far. */
  ghost predicate Rows(base: Snap, s: Snap, start: nat, q: nat, alloced: bool) {
    && (alloced ==> 0 < start <= MAX_FILE_BLOCKS && IsMapped(s, start - 1) && !IsMapped(base, start - 1))
    && (forall j :: start <= j < start + q && j < MAX_FILE_BLOCKS ==> IsMapped(s, j))
    && MappedWithin(base, s, if alloced then start - 1 else start, start + q)
  }

  lemma RowsNone(base: Snap, s: Snap, start: nat, alloced: bool)
    requires MappedWithin(base, s, if alloced && 0 < start then start - 1 else start, start)
    requires alloced ==> 0 < start <= MAX_FILE_BLOCKS && IsMapped(s, start - 1) && !IsMapped(base, start - 1)
    ensures Rows(base, s, start, 0, alloced)
  {
  }

  lemma RowsIs(base: Snap, s: Snap, start: nat, q: nat, alloced: bool)
    requires Rows(base, s, start, q, alloced)
    ensures alloced ==> 0 < start <= MAX_FILE_BLOCKS && IsMapped(s, start - 1)
    ensures forall j :: start <= j < start + q && j < MAX_FILE_BLOCKS ==> IsMapped(s, j)
    ensures MappedWithin(base, s, if alloced then start - 1 else start, start + q)
  {
  }

  lemma RowsSame(base: Snap, s: Snap, s': Snap, start: nat, q: nat, alloced: bool)
    requires Rows(base, s, start, q, alloced) && FileSame(s, s', MAX_FILE_BLOCKS)
    ensures Rows(base, s', start, q, alloced)
  {
    hide Data, IsMapped;
  }

  lemma RowsMore(base: Snap, s: Snap, s': Snap, start: nat, q: nat, alloced: bool)
    requires Rows(base, s, start, q, alloced) && start + q < MAX_FILE_BLOCKS && FileSame(s, s', start + q) && IsMapped(s', start + q)
    ensures Rows(base, s', start, q + 1, alloced)
  {
    hide Data, IsMapped;
  }

  /** On a file without holes, the next block does not fit. */
  lemma RowsStuck(base: Snap, s: Snap, bytes: seq<byte>, size: nat, start: nat, q: nat, alloced: bool, blocks: nat)
    requires size <= |bytes| && size <= 0x1_0000_0000 && Appending(base, s, bytes, size) && Spans(base, start, start, start)
    requires Rows(base, s, start, q, alloced) && start + q < blocks <= MAX_FILE_BLOCKS && Missing(s.t, Path(start + q)) > s.free
    ensures base.free + |base.t| < Footprint(blocks)
  {
    hide Holding, Good, Step, Missing, Path, Weight, IsMapped;
    forall j | 0 <= j < MAX_FILE_BLOCKS ensures IsMapped(s, j) <==> Within(j, start + q, start + q, start + q) {
      if IsMapped(base, j) { StillMapped(base, s, j); }
    }
    TooFew(base, s, start + q, start + q, start + q, start + q, blocks, blocks, blocks);
  }

  lemma StillMapped(base: Snap, s: Snap, j: nat)
    requires Extends(s.t, base.t) && j < MAX_FILE_BLOCKS && IsMapped(base, j)
    ensures IsMapped(s, j)
  {
  }

  /** What a failed operation on inode n leaves behind: everything as it was, bytes past end-of-file aside. */
  lemma Unwound(v: Vol, n: nat, base: Snap, s: Snap, bytes: seq<byte>)
    requires VolOK(v) && n in v.trees && n in v.itab && v.itab[n].kind != Symlink && base == Part(v, n, v.itab[n].ptr, base.free, base.cnt)
    requires |bytes| == v.itab[n].size <= MAX_SIZE && Step(base, s) && Holding(s, bytes, |bytes|)
    requires s.t == base.t && s.ptr == base.ptr && s.used == base.used && Contents(v, n) == bytes
    ensures VolOK(v.(disk := s.disk)) && ElseSame(v, v.(disk := s.disk), n)
    ensures Contents(v.(disk := s.disk), n) == bytes
  {
    hide VolOK, OthersKept, Good, ElseSame, BlockCount;
    var ino := v.itab[n];
    LiveFile(v, n);
    Finish(v, n, base, s, ino);
    assert Seat(v, n, s, ino) == v.(disk := s.disk);
    BytesUnique(s, bytes);
  }

  lemma LiveFile(v: Vol, n: nat)
    requires VolOK(v) && n in v.trees && n in v.itab
    ensures v.itab[n].sectors == 8 * |v.trees[n]| && v.itab[n].size <= MAX_SIZE
    ensures forall i :: 0 <= i < MAX_FILE_BLOCKS && Slot(v.trees[n], i) != 0 ==> i < BlockCount(v.itab[n].size)
  {
    assert FileOK(v, v.itab[n], v.trees[n]);
  }

  /** The body of append_to_inode once the inode has been read and the new size fits. */
  method AppendFits(fs: Volume, n: nat, buf: seq<byte>, ghost bytes: seq<byte>) returns (ok: bool, ptr: seq<nat>, cnt: int, ghost t: Tree)
    requires fs.BlocksReady() && n in fs.trees && n in fs.itab && |bytes| == fs.itab[n].size + |buf| <= MAX_SIZE
    requires Good(Now(fs, fs.itab[n].ptr, fs.trees[n], 0)) && bytes[fs.itab[n].size..] == buf
    requires Holding(Now(fs, fs.itab[n].ptr, fs.trees[n], 0), bytes, fs.itab[n].size)
    requires forall i :: 0 <= i < MAX_FILE_BLOCKS && IsMapped(Now(fs, fs.itab[n].ptr, fs.trees[n], 0), i) ==> i < BlockCount(fs.itab[n].size)
    modifies fs`disk, fs.blocks
    ensures fs.BlocksReady() && Appending(old(Now(fs, fs.itab[n].ptr, fs.trees[n], 0)), Now(fs, ptr, t, cnt), bytes, fs.itab[n].size)
    ensures !ok ==> t == fs.trees[n] && ptr == fs.itab[n].ptr && fs.blocks.used == old(fs.blocks.used) && fs.blocks.superFree == old(fs.blocks.superFree)
    ensures !ok ==> old(fs.blocks.superFree) < 4 * (BlockCount(|bytes|) - fs.itab[n].size / 4096)
    ensures !ok && old(HoleFree(Now(fs, fs.itab[n].ptr, fs.trees[n], 0), fs.itab[n].size)) ==>
              old(fs.blocks.superFree) + Footprint(BlockCount(fs.itab[n].size)) < Footprint(BlockCount(|bytes|))
    ensures ok ==> Holding(Now(fs, ptr, t, cnt), bytes, |bytes|) && cnt == |t| - |fs.trees[n]|
    ensures ok ==> forall i :: 0 <= i < MAX_FILE_BLOCKS && IsMapped(Now(fs, ptr, t, cnt), i) ==> i < BlockCount(|bytes|)
    ensures ok ==> forall i :: BlockCount(fs.itab[n].size) <= i < BlockCount(|bytes|) ==> IsMapped(Now(fs, ptr, t, cnt), i)
  {
    hide Good, OthersKept, Slot, Data, Missing, ByteAt, Holding, BlockCount, Spans, Footprint, Volume.BlocksReady;
    var size := fs.itab[n].size;
    ptr, cnt, t := fs.itab[n].ptr, 0, fs.trees[n];
    ghost var base := Now(fs, ptr, t, 0);
    if HoleFree(base, size) { SolidFootprint(base, size); }
    StepRefl(base);
    BlockCountIs(size);
    BlockCountIs(|bytes|);
    var alloced, taken := false, 0;
    if size % 4096 != 0 {
      ok, alloced, taken, ptr, cnt, t := SpliceTail(fs, ptr, size, buf, t, bytes);
      if !ok {
        if IsMapped(base, size / 4096) { MappedMissing(base, size / 4096); }
        MissingAtMostFour(base.t, size / 4096);
        AppendStalled(base, base, Now(fs, ptr, t, cnt), size / 4096, bytes, size);
        return;
      }
      HoldingLess(Now(fs, ptr, t, cnt), bytes, size, size + taken);
    }
    ok, ptr, cnt, t := AppendBlocks(fs, ptr, BlockCount(size), buf, taken, cnt, alloced, t, base, bytes, size);
  }

  lemma HoldingLess(s: Snap, bytes: seq<byte>, less: nat, done: nat)
    requires less <= done <= |bytes| && done <= 0x1_0000_0000 && Holding(s, bytes, done)
    ensures Holding(s, bytes, less)
  {
  }

  /** append_to_inode. */
  method Append(fs: Volume, n: nat, buf: seq<byte>) returns (ok: bool)
    requires Valid(fs) && |buf| < 0x1_0000_0000
    requires InTable(fs, n) ==> n in fs.trees && fs.itab[n].kind != Symlink
    requires InTable(fs, n) ==> fs.itab[n].size + |buf| <= MAX_SIZE || fs.itab[n].size + |buf| >= 0x1_0000_0000
    modifies fs`disk, fs`itab, fs`trees, fs.blocks
    ensures Valid(fs) && ElseSame(old(View(fs)), View(fs), n)
    ensures InTable(fs, n) ==> SameFile(fs, n, old(fs.itab[n]))
    ensures ok ==> InTable(fs, n) && fs.itab[n].size == old(fs.itab[n].size) + |buf|
    ensures ok ==> Contents(View(fs), n) == old(Contents(View(fs), n)) + buf
    ensures ok ==> 8 * fs.blocks.superFree + fs.itab[n].sectors == old(8 * fs.blocks.superFree + fs.itab[n].sectors)
    ensures ok && old(Solid(fs, n)) ==> Solid(fs, n)
    ensures !ok ==> View(fs) == old(View(fs)).(disk := fs.disk) && fs.blocks.superFree == old(fs.blocks.superFree)
    ensures !ok && InTable(fs, n) ==> Contents(View(fs), n) == old(Contents(View(fs), n))
    ensures !ok && InTable(fs, n) ==>
              || fs.itab[n].size + |buf| >= 0x1_0000_0000
              || old(fs.blocks.superFree) < 4 * (BlockCount(fs.itab[n].size + |buf|) - fs.itab[n].size / 4096)
    ensures old(Solid(fs, n)) && InTable(fs, n) && old(fs.itab[n].size) + |buf| <= MAX_SIZE ==>
              (ok <==> old(fs.blocks.superFree) + Footprint(BlockCount(old(fs.itab[n].size))) >= Footprint(BlockCount(old(fs.itab[n].size) + |buf|)))
  {
    hide Footprint, Spans;
    hide VolOK, ElseSame, Good, OthersKept, BlockCount, Contents, FileBytes, Holding, Data, Slot, IsMapped, HoleFree, Volume.BlocksReady, Bitmap.Valid;
    ghost var v := View(fs);
    SameElse(v, n);
    if !InTable(fs, n) {
      return false;
    }
    Begin(fs, n);
    var ino := fs.itab[n];
    var needed := (ino.size + |buf|) % 0x1_0000_0000;
    if needed < ino.size {
      return false;
    }
    ghost var base := Now(fs, ino.ptr, fs.trees[n], 0);
    ghost var old1 := Contents(v, n);
    StartBytes(v, n, base, buf);
    var ptr, cnt;
    ghost var t;
    ok, ptr, cnt, t := AppendFits(fs, n, buf, old1 + buf);
    ghost var s := Now(fs, ptr, t, cnt);
    if !ok {
      HoldingPrefix(s, old1, old1 + buf);
      Unwound(v, n, base, s, old1);
      return;
    }
    var ino' := ino.(size := needed, sectors := ino.sectors + 8 * cnt, ptr := ptr);
    Finish(v, n, base, s, ino');
    BytesUnique(s, old1 + buf);
    SetInode(fs, n, ino', t);
    assert View(fs) == Seat(v, n, s, ino');
    GrownHoleFree(base, s, ino.size, old1 + buf, Now(fs, ino'.ptr, t, 0));
    if HoleFree(base, ino.size) { GrownFits(base, s, ino.size, old1 + buf); }
  }

  /** What has been appended has fitted. */
  lemma GrownFits(base: Snap, s: Snap, size: nat, bytes: seq<byte>)
    requires size <= |bytes| <= MAX_SIZE && Appending(base, s, bytes, size) && HoleFree(base, size)
    requires forall i :: 0 <= i < MAX_FILE_BLOCKS && IsMapped(base, i) ==> i < BlockCount(size)
    requires forall i :: 0 <= i < MAX_FILE_BLOCKS && IsMapped(s, i) ==> i < BlockCount(|bytes|)
    requires forall i :: BlockCount(size) <= i < BlockCount(|bytes|) ==> IsMapped(s, i)
    ensures base.free + Footprint(BlockCount(size)) >= Footprint(BlockCount(|bytes|))
  {
    hide Holding, Good, IsMapped, BlockCount, Footprint, Spans, Extends, Slot, HoleFree, OthersKept;
    GrownHoleFree(base, s, size, bytes, s);
    SolidFootprint(base, size);
    SolidFootprint(s, |bytes|);
  }

  lemma GrownHoleFree(base: Snap, s: Snap, size: nat, bytes: seq<byte>, s': Snap)
    requires size <= |bytes| <= MAX_SIZE && Appending(base, s, bytes, size) && s'.t == s.t
    requires forall i :: BlockCount(size) <= i < BlockCount(|bytes|) ==> IsMapped(s, i)
    ensures HoleFree(base, size) ==> HoleFree(s', |bytes|)
  {
    if HoleFree(base, size) {
      forall j | 0 <= j < MAX_FILE_BLOCKS && j < BlockCount(|bytes|) ensures IsMapped(s', j) {
        if j < BlockCount(size) { assert IsMapped(base, j); } else { assert IsMapped(s, j); }
      }
    }
  }

  lemma StartBytes(v: Vol, n: nat, base: Snap, buf: seq<byte>)
    requires n in v.trees && n in v.itab && v.itab[n].size <= MAX_SIZE && base.t == v.trees[n] && base.disk == v.disk
    ensures |Contents(v, n)| == v.itab[n].size && Holding(base, Contents(v, n) + buf, v.itab[n].size)
    ensures (Contents(v, n) + buf)[v.itab[n].size..] == buf
  {
    SameBytes(v, n, base, v.itab[n].size);
  }

  lemma HoldingPrefix(s: Snap, bytes: seq<byte>, longer: seq<byte>)
    requires |bytes| <= |longer| && bytes == longer[..|bytes|] && |bytes| <= 0x1_0000_0000 && Holding(s, longer, |bytes|)
    ensures Holding(s, bytes, |bytes|)
  {
  }
}
