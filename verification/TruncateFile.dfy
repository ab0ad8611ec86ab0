/** truncate_inode (kernel/fs/block/blockController.c). */
module TruncateFile {
  import opened Blocks
  import opened BlockTree
  import opened Bitmaps
  import opened Volumes
  import opened MapFileBlock
  import opened FileBlocks
  import opened FileSystem

  /** Blocks lo..cur of the base file have been released; everything below lo is as in the base. */
  ghost predicate Cutting(base: Snap, s: Snap, lo: nat, cur: nat) {
    && Good(base) && Step(base, s) && Extends(base.t, s.t) && s.cnt - base.cnt == |base.t| - |s.t|
    && (forall j :: 0 <= j < MAX_FILE_BLOCKS && IsMapped(s, j) ==> IsMapped(base, j) && (j < lo || cur <= j))
    && (forall j :: 0 <= j < lo && j < MAX_FILE_BLOCKS ==> Data(s, j) == Data(base, j) && IsMapped(s, j) == IsMapped(base, j))
  }

  lemma CutOne(base: Snap, s: Snap, s': Snap, lo: nat, cur: nat)
    requires lo <= cur < MAX_FILE_BLOCKS && Cutting(base, s, lo, cur)
    requires Clears(s, s', cur) || (s' == s && !IsMapped(s, cur))
    ensures Cutting(base, s', lo, cur + 1)
  {
    if Clears(s, s', cur) {
      StepTrans(base, s, s');
    }
  }

  method CutBlocks(fs: Volume, ptr: seq<nat>, lo: nat, hi: nat, ghost t: Tree) returns (ptr': seq<nat>, cnt': int, ghost t': Tree)
    requires fs.BlocksReady() && Good(Now(fs, ptr, t, 0)) && lo <= hi < MAX_FILE_BLOCKS
    requires forall j :: 0 <= j < MAX_FILE_BLOCKS && IsMapped(Now(fs, ptr, t, 0), j) ==> j < hi
    modifies fs`disk, fs.blocks
    ensures fs.BlocksReady() && Cutting(old(Now(fs, ptr, t, 0)), Now(fs, ptr', t', cnt'), lo, hi)
  {
    hide Good, OthersKept, Step, FileSame, Slot, IsMapped, Data, Releases, Clears, Volume.BlocksReady;
    ghost var base := Now(fs, ptr, t, 0);
    StepRefl(base);
    ptr', cnt', t' := ptr, 0, t;
    var blk := lo;
    while blk < hi
      invariant lo <= blk <= hi && fs.BlocksReady() && Cutting(base, Now(fs, ptr', t', cnt'), lo, blk)
    {
      ghost var s := Now(fs, ptr', t', cnt');
      var freed;
      StepGood(base, s);
      freed, ptr', cnt', t' := Release(fs, ptr', blk, cnt', t');
      CutOne(base, s, Now(fs, ptr', t', cnt'), lo, blk);
      blk := blk + 1;
    }
  }

  lemma StepGood(s: Snap, s': Snap)
    requires Step(s, s')
    ensures Good(s')
  {
  }

  /** The bytes below the cut survive, whatever is written past them in the last block. */
  lemma CutBytes(base: Snap, s: Snap, size: nat, bytes: seq<byte>)
    requires |bytes| <= size <= MAX_SIZE && Holding(base, bytes, |bytes|)
    requires forall j :: 0 <= j < |bytes| / 4096 ==> Data(s, j) == Data(base, j)
    requires |bytes| % 4096 != 0 ==> forall x :: 0 <= x < |bytes| % 4096 ==> Data(s, |bytes| / 4096)[x] == Data(base, |bytes| / 4096)[x]
    ensures Holding(s, bytes, |bytes|)
  {
    forall p | 0 <= p < |bytes| ensures ByteAt(s, p) == bytes[p] {
      assert ByteAt(base, p) == bytes[p];
      if p / 4096 < |bytes| / 4096 {
      } else {
        assert p / 4096 == |bytes| / 4096;
      }
    }
  }

  /** blk' is blk with the bytes from..to zeroed. */
  ghost predicate Zeroed(blk: Block, from: nat, blk': Block, to: nat) {
    forall x :: 0 <= x < 4096 ==> blk'[x] == (if from <= x < to then 0 else blk[x])
  }

  /** The tail of the last remaining block is zeroed. */
  method ZeroTail(fs: Volume, ptr: seq<nat>, size: nat, cnt: int, ghost t: Tree)
    requires fs.BlocksReady() && Good(Now(fs, ptr, t, cnt)) && size <= MAX_SIZE && size % 4096 != 0
    modifies fs`disk
    ensures fs.BlocksReady() && Step(old(Now(fs, ptr, t, cnt)), Now(fs, ptr, t, cnt))
    ensures FileSame(old(Now(fs, ptr, t, cnt)), Now(fs, ptr, t, cnt), size / 4096)
    ensures IsMapped(Now(fs, ptr, t, cnt), size / 4096) == old(IsMapped(Now(fs, ptr, t, cnt), size / 4096))
    ensures Zeroed(old(Data(Now(fs, ptr, t, cnt), size / 4096)), size % 4096, Data(Now(fs, ptr, t, cnt), size / 4096), 4096)
  {
    hide Good, OthersKept, Slot, Data, Volume.BlocksReady;
    ghost var s := Now(fs, ptr, t, cnt);
    var i := size / 4096;
    GoodSlot(s, i);
    StepRefl(s);
    var st, b := Lookup(fs, ptr, i, t, cnt);
    if st != Empty {
      var blk := GetData(fs, b, ptr, i, cnt, t);
      var byte1 := size % 4096;
      while byte1 < 4096
        invariant size % 4096 <= byte1 <= 4096 && |blk| == 4096
        invariant Zeroed(Data(s, i), size % 4096, blk, byte1)
      {
        blk := blk[byte1 := 0];
        byte1 := byte1 + 1;
      }
      PutData(fs, b, blk, ptr, i, cnt, t);
    } else {
      HoleData(s, i);
    }
  }

  /** truncate_inode. */
  method Truncate(fs: Volume, n: nat, newSize: nat) returns (ok: bool)
    requires Valid(fs)
    requires InTable(fs, n) ==> n in fs.trees && fs.itab[n].kind != Symlink
    modifies fs`disk, fs`itab, fs`trees, fs.blocks
    ensures Valid(fs) && ElseSame(old(View(fs)), View(fs), n)
    ensures ok <==> InTable(fs, n) && newSize <= old(fs.itab[n].size)
    ensures ok ==> SameFile(fs, n, old(fs.itab[n])) && fs.itab[n].size == newSize
    ensures ok ==> Contents(View(fs), n) == old(Contents(View(fs), n))[..newSize]
    ensures !ok ==> View(fs) == old(View(fs))
    ensures ok && old(Solid(fs, n)) ==> Solid(fs, n)
    ensures ok ==> 8 * fs.blocks.superFree + fs.itab[n].sectors == old(8 * fs.blocks.superFree + fs.itab[n].sectors)
  {
    hide VolOK, ElseSame, Good, OthersKept, BlockCount, Contents, FileBytes, Holding, Data, Slot, FileSame, IsMapped, HoleFree, Volume.BlocksReady, Bitmap.Valid;
    ghost var v := View(fs);
    SameElse(v, n);
    if !InTable(fs, n) {
      return false;
    }
    Begin(fs, n);
    var ino := fs.itab[n];
    if ino.size < newSize {
      return false;
    }
    ghost var base := Now(fs, ino.ptr, fs.trees[n], 0);
    ghost var bytes := Contents(v, n)[..newSize];
    BlockCountIs(newSize);
    BlockCountIs(ino.size);
    var lo, hi := BlockCount(newSize), BlockCount(ino.size);
    var ptr, cnt;
    ghost var t;
    ptr, cnt, t := CutBlocks(fs, ino.ptr, lo, hi, fs.trees[n]);
    ghost var s1 := Now(fs, ptr, t, cnt);
    if newSize % 4096 != 0 {
      ZeroTail(fs, ptr, newSize, cnt, t);
    } else {
      StepRefl(s1);
    }
    ghost var s := Now(fs, ptr, t, cnt);
    StepTrans(base, s1, s);
    var ino' := ino.(size := newSize, sectors := ino.sectors - 8 * cnt, ptr := ptr);
    CutEnd(v, n, base, s1, s, lo, hi, bytes);
    Finish(v, n, base, s, ino');
    BytesUnique(s, bytes);
    SetInode(fs, n, ino', t);
    assert View(fs) == Seat(v, n, s, ino');
    CutHoleFree(base, s1, s, ino.size, newSize, hi, Now(fs, ino'.ptr, t, 0));
    ok := true;
  }

  lemma CutHoleFree(base: Snap, s1: Snap, s: Snap, size: nat, newSize: nat, hi: nat, s': Snap)
    requires newSize <= size <= MAX_SIZE && Cutting(base, s1, BlockCount(newSize), hi) && s'.t == s.t
    requires newSize % 4096 == 0 ==> s == s1
    requires newSize % 4096 != 0 ==> FileSame(s1, s, newSize / 4096) && IsMapped(s, newSize / 4096) == IsMapped(s1, newSize / 4096)
    ensures HoleFree(base, size) ==> HoleFree(s', newSize)
  {
    BlockCountIs(size);
    BlockCountIs(newSize);
    if HoleFree(base, size) {
      forall j | 0 <= j < MAX_FILE_BLOCKS && j < BlockCount(newSize) ensures IsMapped(s', j) {
        assert IsMapped(base, j);
        assert IsMapped(s1, j);
        if newSize % 4096 != 0 && j != newSize / 4096 { assert IsMapped(s, j); }
      }
    }
  }

  lemma CutEnd(v: Vol, n: nat, base: Snap, s1: Snap, s: Snap, lo: nat, hi: nat, bytes: seq<byte>)
    requires n in v.trees && n in v.itab && v.itab[n].size <= MAX_SIZE && base.t == v.trees[n] && base.disk == v.disk
    requires |bytes| <= v.itab[n].size && bytes == Contents(v, n)[..|bytes|] && lo == BlockCount(|bytes|)
    requires lo <= hi == BlockCount(v.itab[n].size) && Cutting(base, s1, lo, hi)
    requires forall j :: 0 <= j < MAX_FILE_BLOCKS && IsMapped(base, j) ==> j < hi
    requires |bytes| % 4096 == 0 ==> s == s1
    requires |bytes| % 4096 != 0 ==> FileSame(s1, s, |bytes| / 4096) && IsMapped(s, |bytes| / 4096) == IsMapped(s1, |bytes| / 4096)
    requires |bytes| % 4096 != 0 ==> Zeroed(Data(s1, |bytes| / 4096), |bytes| % 4096, Data(s, |bytes| / 4096), 4096)
    ensures Holding(s, bytes, |bytes|)
    ensures forall j :: 0 <= j < MAX_FILE_BLOCKS && IsMapped(s, j) ==> j < lo
  {
    BlockCountIs(|bytes|);
    var i := |bytes| / 4096;
    SameBytes(v, n, base, v.itab[n].size);
    assert Holding(base, bytes, |bytes|);
    CutBytes(base, s, v.itab[n].size, bytes);
  }
}
