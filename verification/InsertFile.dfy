/** insert_in_inode and unwind_insert (kernel/fs/block/blockController.c). */
module InsertFile {
  import opened Blocks
  import opened BlockTree
  import opened Bitmaps
  import opened Volumes
  import opened MapFileBlock
  import opened FileBlocks
  import opened FileSystem
  import opened Footprints

  /** What the counters of a running insert say about the blocks taken and given back since `base`. */
  datatype Tally = Tally(unwind: seq<nat>, alloc: int, free: int, minted: int)

  ghost predicate Distinct2(s: seq<nat>) {
    forall a, b :: 0 <= a < b < |s| ==> s[a] != s[b]
  }

  /**
   * The counters account for every block taken or freed since base, and the unwind buffer lists, once each, file
   * blocks in lo..hi that are mapped.
   */
  ghost predicate Tallied(base: Snap, s: Snap, lo: nat, hi: nat, c: Tally) {
    && Good(base) && Step(base, s)
    && |s.t| - |base.t| == c.alloc - c.free && c.alloc == |c.unwind| + c.minted
    && c.alloc <= 4 * |c.unwind| && 0 <= c.free
    && Distinct2(c.unwind)
    && (forall a :: 0 <= a < |c.unwind| ==> lo <= c.unwind[a] <= hi < MAX_FILE_BLOCKS && IsMapped(s, c.unwind[a]))
    && (forall j :: 0 <= j < MAX_FILE_BLOCKS && IsMapped(s, j) ==> IsMapped(base, j) || j in c.unwind)
  }

  /** The unwind buffer, sized top - offset/BLOCK_SIZE + 1, never overruns. */
  lemma {:induction false} UnwindFits(u: seq<nat>, lo: nat, hi: nat)
    requires Distinct2(u) && forall a :: 0 <= a < |u| ==> lo <= u[a] <= hi
    ensures |u| <= hi - lo + 1 || u == []
    decreases hi
  {
    if u != [] && lo < hi {
      if hi in u {
        var a :| 0 <= a < |u| && u[a] == hi;
        var rest := u[..a] + u[a + 1..];
        UnwindFits(rest, lo, hi - 1);
      } else {
        UnwindFits(u, lo, hi - 1);
      }
    } else if u != [] {
      assert lo <= u[0] <= hi && lo <= u[|u| - 1] <= hi;
    }
  }

  /** unwind_buf[unwind_cursor++] = i, when map_file_block counted something. */
  function Pushed(c: Tally, i: nat, delta: int): Tally {
    if delta == 0 then c
    else Tally(c.unwind + [i], c.alloc + delta, c.free, c.minted + delta - 1)
  }

  /** The counter plays no part in the rest of the state. */
  lemma Recount(s: Snap, s': Snap, a: int, b: int)
    ensures Good(s) <==> Good(s.(cnt := a))
    ensures Step(s, s') <==> Step(s.(cnt := a), s'.(cnt := b))
  {
    assert forall x: nat :: Foreign(s, x) <==> Foreign(s.(cnt := a), x);
    assert forall x: nat :: Foreign(s', x) <==> Foreign(s'.(cnt := b), x);
  }

  lemma RecountFile(s: Snap, s': Snap, a: int, b: int, i: nat)
    ensures FileSame(s, s', i) <==> FileSame(s.(cnt := a), s'.(cnt := b), i)
  {
    RecountData(s, a);
    RecountData(s', b);
    forall j | 0 <= j < MAX_FILE_BLOCKS && j != i
      ensures (Data(s', j) == Data(s, j) && IsMapped(s', j) == IsMapped(s, j)) <==>
              (Data(s'.(cnt := b), j) == Data(s.(cnt := a), j) && IsMapped(s'.(cnt := b), j) == IsMapped(s.(cnt := a), j))
    {}
  }

  lemma RecountData(s: Snap, a: int)
    ensures forall i :: 0 <= i < MAX_FILE_BLOCKS ==> Data(s.(cnt := a), i) == Data(s, i)
    ensures forall i :: 0 <= i < MAX_FILE_BLOCKS ==> IsMapped(s.(cnt := a), i) == IsMapped(s, i)
  {
  }

  /** The counters after map_file_block in ALLOC mode and the push that follows it. */
  lemma TallyGrown(base: Snap, s: Snap, s': Snap, lo: nat, hi: nat, c: Tally, i: nat, out: nat)
    requires s.cnt == 0 && Tallied(base, s, lo, hi, c) && lo <= i <= hi < MAX_FILE_BLOCKS && Grows(s, s', i, out)
    ensures Tallied(base, s'.(cnt := 0), lo, hi, Pushed(c, i, s'.cnt))
    ensures FileSame(s, s'.(cnt := 0), i) && IsMapped(s'.(cnt := 0), i)
    ensures IsMapped(s, i) ==> Data(s'.(cnt := 0), i) == Data(s, i)
  {
    hide OthersKept, Good, Data, Slot, FileSame, Missing, Extends, Tallied;
    TallyMore(base, s, s', lo, hi, c, i, out);
    TallyRecount(base, s', lo, hi, Pushed(c, i, s'.cnt));
    RecountFile(s, s', 0, 0, i);
    RecountData(s', 0);
  }

  lemma TallyCleared(base: Snap, s: Snap, s': Snap, lo: nat, hi: nat, c: Tally, i: nat)
    requires s.cnt == 0 && Tallied(base, s, lo, hi, c) && i < MAX_FILE_BLOCKS && Clears(s, s', i) && i !in c.unwind
    ensures Tallied(base, s'.(cnt := 0), lo, hi, c.(free := c.free + s'.cnt))
    ensures FileSame(s, s'.(cnt := 0), i) && !IsMapped(s'.(cnt := 0), i)
  {
    hide OthersKept, Good, Data, Slot, FileSame, Extends, Tallied;
    TallyLess(base, s, s', lo, hi, c, i);
    TallyRecount(base, s', lo, hi, c.(free := c.free + s'.cnt));
    RecountFile(s, s', 0, 0, i);
    RecountData(s', 0);
  }

  lemma TallyRecount(base: Snap, s: Snap, lo: nat, hi: nat, c: Tally)
    requires Tallied(base, s, lo, hi, c)
    ensures Tallied(base, s.(cnt := 0), lo, hi, c)
  {
    hide OthersKept, Good, Data, Slot, Step;
    var s' := s.(cnt := 0);
    Recount(base, s, base.cnt, 0);
    RecountData(s, 0);
    assert Step(base, s') by { assert base.(cnt := base.cnt) == base; }
    assert forall a :: 0 <= a < |c.unwind| ==> lo <= c.unwind[a] <= hi && IsMapped(s', c.unwind[a]) == IsMapped(s, c.unwind[a]);
  }

  lemma TallyLess(base: Snap, s: Snap, s': Snap, lo: nat, hi: nat, c: Tally, i: nat)
    requires s.cnt == 0 && Tallied(base, s, lo, hi, c) && i < MAX_FILE_BLOCKS && Clears(s, s', i) && i !in c.unwind
    ensures Tallied(base, s', lo, hi, c.(free := c.free + s'.cnt))
  {
    hide OthersKept, Good, Data;
    StepTrans(base, s, s');
    SmallerTree(s.t, s'.t);
    assert forall a :: 0 <= a < |c.unwind| ==> c.unwind[a] != i && IsMapped(s', c.unwind[a]);
  }

  lemma SmallerTree(t: Tree, t': Tree)
    requires Extends(t, t')
    ensures |t'| <= |t|
  {
    assert t.Keys == t'.Keys + (t.Keys - t'.Keys);
    assert |t'| == |t'.Keys| && |t| == |t.Keys|;
  }

  lemma TallyMore(base: Snap, s: Snap, s': Snap, lo: nat, hi: nat, c: Tally, i: nat, out: nat)
    requires Tallied(base, s, lo, hi, c) && lo <= i <= hi < MAX_FILE_BLOCKS && Grows(s, s', i, out)
    ensures Tallied(base, s', lo, hi, Pushed(c, i, s'.cnt - s.cnt))
  {
    hide OthersKept, Good, Data;
    StepTrans(base, s, s');
    var c' := Pushed(c, i, s'.cnt - s.cnt);
    MissingAtMostFour(s.t, i);
    if s'.cnt != s.cnt {
      assert !IsMapped(s, i);
      assert forall a :: 0 <= a < |c.unwind| ==> c.unwind[a] != i && IsMapped(s', c.unwind[a]);
    }
    assert forall a :: 0 <= a < |c.unwind| ==> c'.unwind[a] == c.unwind[a];
  }

  lemma TallyWritten(base: Snap, s: Snap, s': Snap, lo: nat, hi: nat, c: Tally, i: nat, blk: Block)
    requires Tallied(base, s, lo, hi, c) && i < MAX_FILE_BLOCKS && Writes(s, s', i, blk)
    ensures Tallied(base, s', lo, hi, c)
  {
    hide Tallied, FileSame, Step, Data, IsMapped;
    TallyAgain(base, s, s', lo, hi, c);
  }

  /** A step that leaves the tree alone. */
  lemma TallyAgain(base: Snap, s: Snap, s': Snap, lo: nat, hi: nat, c: Tally)
    requires Tallied(base, s, lo, hi, c) && Step(s, s') && s'.t == s.t
    ensures Tallied(base, s', lo, hi, c)
  {
    StepTrans(base, s, s');
    MappedByTree(s, s');
    hide Step, Good, IsMapped;
  }

  lemma MappedByTree(s: Snap, s': Snap)
    requires s'.t == s.t
    ensures forall j :: 0 <= j < MAX_FILE_BLOCKS ==> IsMapped(s', j) == IsMapped(s, j)
  {
  }

  lemma TallyStalled(base: Snap, s: Snap, s': Snap, lo: nat, hi: nat, c: Tally, i: nat)
    requires s.cnt == 0 && Tallied(base, s, lo, hi, c) && i < MAX_FILE_BLOCKS && Stalls(s, s', i)
    ensures Tallied(base, s', lo, hi, c)
  {
    hide Tallied, FileSame, Step, Data, IsMapped, Missing;
    TallyAgain(base, s, s', lo, hi, c);
  }

  /** There were too few free blocks for file block i, and nothing changed. */
  ghost predicate Refused(s: Snap, s': Snap, i: nat)
    requires i < MAX_FILE_BLOCKS
  {
    && FileSame(s, s', MAX_FILE_BLOCKS) && s'.t == s.t && s'.free == s.free && !IsMapped(s, i)
    && Missing(s.t, Path(i)) > s.free && s.free < 4
  }

  /** ALLOC mode with the bookkeeping that insert_in_inode puts around it. */
  method GrowBlock(fs: Volume, ptr: seq<nat>, i: nat, c: Tally, ghost t: Tree, ghost base: Snap, ghost lo: nat, ghost hi: nat)
    returns (ok: bool, out: nat, ptr': seq<nat>, c': Tally, ghost t': Tree)
    requires fs.BlocksReady() && Tallied(base, Now(fs, ptr, t, 0), lo, hi, c) && lo <= i <= hi < MAX_FILE_BLOCKS
    modifies fs`disk, fs.blocks
    ensures fs.BlocksReady() && Tallied(base, Now(fs, ptr', t', 0), lo, hi, c')
    ensures !ok ==> Refused(old(Now(fs, ptr, t, 0)), Now(fs, ptr', t', 0), i) && c' == c && fs.blocks.superFree < 4
    ensures ok ==> FileSame(old(Now(fs, ptr, t, 0)), Now(fs, ptr', t', 0), i) && IsMapped(Now(fs, ptr', t', 0), i)
    ensures ok ==> 0 < out == Slot(t', i) < |fs.disk| && c'.free == c.free && Extends(t', t)
    ensures ok ==> c'.unwind == c.unwind || (c'.unwind == c.unwind + [i] && !old(IsMapped(Now(fs, ptr, t, 0), i)))
    ensures ok && old(IsMapped(Now(fs, ptr, t, 0), i)) ==> Data(Now(fs, ptr', t', 0), i) == old(Data(Now(fs, ptr, t, 0), i))
  {
    hide Good, OthersKept, Slot, Data, Missing, FileSame, Volume.BlocksReady;
    ghost var s := Now(fs, ptr, t, 0);
    var delta;
    ok, out, ptr', delta, t' := Alloc(fs, ptr, i, 0, t);
    ghost var s' := Now(fs, ptr', t', delta);
    if !ok {
      c' := c;
      TallyStalled(base, s, s', lo, hi, c, i);
      if IsMapped(s, i) { MappedMissing(s, i); }
      MissingAtMostFour(t, i);
      return;
    }
    c' := Pushed(c, i, delta);
    TallyGrown(base, s, s', lo, hi, c, i, out);
    assert s'.(cnt := 0) == Now(fs, ptr', t', 0);
  }

  /** A block of the shifted file: the end of one old block followed by the start of the next. */
  function Joined(low: Block, high: Block, rem: nat): (r: Block)
    requires rem <= 4096
  {
    low[4096 - rem..] + high[..4096 - rem]
  }

  /** File block i of the file moved up by shift blocks and rem bytes. */
  ghost function Moved(s: Snap, i: nat, shift: nat, rem: nat): Block
    requires i < MAX_FILE_BLOCKS && shift <= i && rem < 4096 && (rem != 0 ==> shift < i)
  {
    Joined(if rem == 0 then ZeroBlock() else Data(s, i - shift - 1), Data(s, i - shift), rem)
  }

  lemma SlotKept(t: Tree, t': Tree, i: nat)
    requires i < MAX_FILE_BLOCKS && Extends(t', t) && Slot(t, i) != 0
    ensures Slot(t', i) == Slot(t, i)
  {
  }

  /** Bounds that hold all through the shift loop. */
  ghost predicate ShiftArgs(i: nat, shift: nat, rem: nat) {
    i < MAX_FILE_BLOCKS && shift <= i && rem < 4096 && (rem != 0 ==> shift < i)
  }

  /** The copy of one block in the shift loop: ALLOC the destination, read both sources, write their join. */
  method CopyUp(fs: Volume, ptr: seq<nat>, dest: nat, shift: nat, rem: nat, lowBlk: nat, highBlk: nat, c: Tally,
                ghost t: Tree, ghost base: Snap, ghost lo: nat, ghost hi: nat)
    returns (ok: bool, ptr': seq<nat>, c': Tally, ghost t': Tree)
    requires fs.BlocksReady() && Tallied(base, Now(fs, ptr, t, 0), lo, hi, c) && lo <= dest <= hi < MAX_FILE_BLOCKS
    requires ShiftArgs(dest, shift, rem) && highBlk == Slot(t, dest - shift)
    requires lowBlk == if rem == 0 then 0 else Slot(t, dest - shift - 1)
    modifies fs`disk, fs.blocks
    ensures fs.BlocksReady() && Tallied(base, Now(fs, ptr', t', 0), lo, hi, c')
    ensures !ok ==> Refused(old(Now(fs, ptr, t, 0)), Now(fs, ptr', t', 0), dest) && c' == c && fs.blocks.superFree < 4
    ensures ok ==> FileSame(old(Now(fs, ptr, t, 0)), Now(fs, ptr', t', 0), dest) && IsMapped(Now(fs, ptr', t', 0), dest)
    ensures ok ==> Data(Now(fs, ptr', t', 0), dest) == old(Moved(Now(fs, ptr, t, 0), dest, shift, rem))
    ensures ok ==> c'.unwind == c.unwind || (c'.unwind == c.unwind + [dest] && !old(IsMapped(Now(fs, ptr, t, 0), dest)))
  {
    hide Good, OthersKept, Slot, Data, Missing, Step, Extends, FileSame, IsMapped, Refused, Volume.BlocksReady;
    ghost var s := Now(fs, ptr, t, 0);
    var b;
    ok, b, ptr', c', t' := GrowBlock(fs, ptr, dest, c, t, base, lo, hi);
    if !ok { return; }
    ghost var s1 := Now(fs, ptr', t', 0);
    ghost var src := dest - shift;
    TallyGood(base, s1, lo, hi, c');
    var low := ZeroBlock();
    if rem != 0 {
      low := ReadFound(fs, lowBlk, ptr', src - 1, t', s, dest);
    }
    var high := ReadFound(fs, highBlk, ptr', src, t', s, dest);
    var joined := Joined(low, high, rem);
    PutData(fs, b, joined, ptr', dest, 0, t');
    TallyWritten(base, s1, Now(fs, ptr', t', 0), lo, hi, c', dest, joined);
    FileSameTrans(s, s1, Now(fs, ptr', t', 0), dest);
  }

  lemma FileSameTrans(a: Snap, b: Snap, c: Snap, i: nat)
    requires FileSame(a, b, i) && FileSame(b, c, i)
    ensures FileSame(a, c, i)
  {
  }

  /** Reading a source block whose number was looked up before the destination was allocated. */
  method ReadFound(fs: Volume, b: nat, ghost ptr: seq<nat>, ghost i: nat, ghost t: Tree, ghost s: Snap, ghost dest: nat) returns (blk: Block)
    requires i < MAX_FILE_BLOCKS && Good(Now(fs, ptr, t, 0)) && b == Slot(s.t, i) && Extends(t, s.t)
    requires dest < MAX_FILE_BLOCKS && FileSame(s, Now(fs, ptr, t, 0), dest)
    requires IsMapped(s, dest) ==> Data(Now(fs, ptr, t, 0), dest) == Data(s, dest)
    ensures blk == Data(s, i)
  {
    if b == 0 {
      HoleData(s, i);
      return ZeroBlock();
    }
    SlotKept(s.t, t, i);
    GoodSlot(Now(fs, ptr, t, 0), i);
    blk := GetData(fs, b, ptr, i, 0, t);
  }

  lemma TallyGood(base: Snap, s: Snap, lo: nat, hi: nat, c: Tally)
    requires Tallied(base, s, lo, hi, c)
    ensures Good(s) && Good(base) && Step(base, s) && |s.t| == |base.t| + c.alloc - c.free
    ensures s.free + |s.t| == base.free + |base.t| && base.free <= s.free + 4 * |c.unwind|
  {
  }

  /** One pass of the shift loop. */
  method ShiftBlock(fs: Volume, ptr: seq<nat>, dest: nat, shift: nat, rem: nat, c: Tally,
                    ghost t: Tree, ghost base: Snap, ghost lo: nat, ghost hi: nat)
    returns (ok: bool, ptr': seq<nat>, c': Tally, ghost t': Tree)
    requires fs.BlocksReady() && Tallied(base, Now(fs, ptr, t, 0), lo, hi, c) && lo <= dest <= hi < MAX_FILE_BLOCKS
    requires ShiftArgs(dest, shift, rem) && dest !in c.unwind
    modifies fs`disk, fs.blocks
    ensures fs.BlocksReady() && Tallied(base, Now(fs, ptr', t', 0), lo, hi, c')
    ensures !ok ==> Refused(old(Now(fs, ptr, t, 0)), Now(fs, ptr', t', 0), dest) && c' == c && fs.blocks.superFree < 4
    ensures ok ==> FileSame(old(Now(fs, ptr, t, 0)), Now(fs, ptr', t', 0), dest)
    ensures ok ==> Data(Now(fs, ptr', t', 0), dest) == old(Moved(Now(fs, ptr, t, 0), dest, shift, rem))
    ensures ok && old(IsMapped(Now(fs, ptr, t, 0), dest - shift)) ==> IsMapped(Now(fs, ptr', t', 0), dest)
    ensures ok && rem != 0 && old(IsMapped(Now(fs, ptr, t, 0), dest - shift - 1)) ==> IsMapped(Now(fs, ptr', t', 0), dest)
    ensures ok ==> c'.unwind == c.unwind || (c'.unwind == c.unwind + [dest] && !old(IsMapped(Now(fs, ptr, t, 0), dest)))
  {
    hide Good, Sound, OthersKept, Slot, Data, Missing, Step, FileSame, Extends, Releases, Clears, Refused, Volume.BlocksReady;
    ghost var s := Now(fs, ptr, t, 0);
    TallyGood(base, s, lo, hi, c);
    GoodSlot(s, dest);
    var hiStatus, highBlk := Lookup(fs, ptr, dest - shift, t, 0);
    var loStatus, lowBlk := Empty, 0;
    if rem != 0 {
      loStatus, lowBlk := Lookup(fs, ptr, dest - shift - 1, t, 0);
    }
    if loStatus == Empty && hiStatus == Empty {
      var freed, delta;
      freed, ptr', delta, t' := Release(fs, ptr, dest, 0, t);
      c' := if freed then c.(free := c.free + delta) else c;
      MovedHole(s, dest, shift, rem);
      if freed {
        TallyCleared(base, s, Now(fs, ptr', t', delta), lo, hi, c, dest);
      } else {
        SameHere(s, dest);
      }
      HoleData(Now(fs, ptr', t', 0), dest);
      ok := true;
    } else {
      ok, ptr', c', t' := CopyUp(fs, ptr, dest, shift, rem, lowBlk, highBlk, c, t, base, lo, hi);
    }
  }

  lemma SameHere(s: Snap, i: nat)
    ensures FileSame(s, s, i)
  {
  }

  lemma MovedHole(s: Snap, i: nat, shift: nat, rem: nat)
    requires ShiftArgs(i, shift, rem) && !IsMapped(s, i - shift) && (rem != 0 ==> !IsMapped(s, i - shift - 1))
    ensures Moved(s, i, shift, rem) == ZeroBlock()
  {
    HoleData(s, i - shift);
    if rem != 0 { HoleData(s, i - shift - 1); }
  }

  /** Blocks above d and up to top hold the moved file; all others are as in base. */
  ghost predicate Shifted(base: Snap, s: Snap, d: int, top: nat, shift: nat, rem: nat)
    requires top < MAX_FILE_BLOCKS && d >= -1 && rem < 4096
  {
    && (forall j :: d < j <= top && ShiftArgs(j, shift, rem) ==> Data(s, j) == Moved(base, j, shift, rem))
    && (forall j :: d < j <= top && ShiftArgs(j, shift, rem) && IsMapped(base, j - shift) ==> IsMapped(s, j))
    && (forall j :: d < j <= top && ShiftArgs(j, shift, rem) && rem != 0 && IsMapped(base, j - shift - 1) ==> IsMapped(s, j))
    && (forall j :: 0 <= j <= d && j < MAX_FILE_BLOCKS ==> Data(s, j) == Data(base, j) && IsMapped(s, j) == IsMapped(base, j))
    && (forall j :: top < j < MAX_FILE_BLOCKS ==> Data(s, j) == Data(base, j) && IsMapped(s, j) == IsMapped(base, j))
  }

  /** The shift never reads a block it has already overwritten: sources lie at or below the destination. */
  lemma ShiftedOne(base: Snap, s: Snap, s': Snap, d: nat, top: nat, shift: nat, rem: nat)
    requires d <= top < MAX_FILE_BLOCKS && ShiftArgs(d, shift, rem) && Shifted(base, s, d, top, shift, rem)
    requires FileSame(s, s', d) && Data(s', d) == Moved(s, d, shift, rem)
    requires IsMapped(s, d - shift) ==> IsMapped(s', d)
    requires rem != 0 && IsMapped(s, d - shift - 1) ==> IsMapped(s', d)
    ensures Shifted(base, s', d - 1, top, shift, rem)
  {
    hide Data, IsMapped, Moved;
    assert Data(s, d - shift) == Data(base, d - shift);
    if rem != 0 { assert Data(s, d - shift - 1) == Data(base, d - shift - 1); }
    MovedSame(base, s, d, shift, rem);
  }

  lemma MovedSame(base: Snap, s: Snap, d: nat, shift: nat, rem: nat)
    requires ShiftArgs(d, shift, rem) && Data(s, d - shift) == Data(base, d - shift) && (rem != 0 ==> Data(s, d - shift - 1) == Data(base, d - shift - 1))
    ensures Moved(s, d, shift, rem) == Moved(base, d, shift, rem)
  {
    hide Data, Joined;
  }

  // ----- inserting into a file without holes

  function Max(a: nat, b: nat): nat {
    if a < b then b else a
  }

  /** A file of n blocks without holes, where every block that the shift loop writes has a block to be copied from. */
  ghost predicate Dense(base: Snap, n: nat, low: nat, top: nat, shift: nat, rem: nat) {
    && Spans(base, n, n, n) && n <= top + 1 <= MAX_FILE_BLOCKS
    && forall j :: low <= j <= top ==> Sourced(j, shift, rem, n)
  }

  predicate Sourced(j: nat, shift: nat, rem: nat, n: nat) {
    rem < 4096 && shift <= j && (rem != 0 ==> shift < j) && j - shift - (if rem == 0 then 0 else 1) < n
  }

  /** Only blocks behind the old end of the file have been taken. */
  predicate Fresh(c: Tally, n: nat) {
    forall a :: 0 <= a < |c.unwind| ==> c.unwind[a] >= n
  }

  /** The old blocks of the file are in place and hold their bytes. */
  ghost predicate OldKept(base: Snap, s: Snap, n: nat) {
    forall j :: 0 <= j < n && j < MAX_FILE_BLOCKS ==> Data(s, j) == Data(base, j) && IsMapped(s, j) == IsMapped(base, j)
  }

  /** The shift loop is down to dest: the blocks above are mapped, and the old ones still are. */
  ghost predicate Down(s: Snap, c: Tally, n: nat, dest: int, top: nat)
    requires dest >= -1
  {
    Spans(s, n, Max(dest + 1, n), top + 1) && Fresh(c, n)
  }

  lemma DownOne(base: Snap, s: Snap, s': Snap, c: Tally, c': Tally, n: nat, low: nat, dest: nat, top: nat, shift: nat, rem: nat)
    requires Dense(base, n, low, top, shift, rem) && low <= dest <= top && Down(s, c, n, dest, top) && FileSame(s, s', dest)
    requires ShiftArgs(dest, shift, rem) && (IsMapped(s, dest - shift) ==> IsMapped(s', dest))
    requires rem != 0 && IsMapped(s, dest - shift - 1) ==> IsMapped(s', dest)
    requires c'.unwind == c.unwind || (c'.unwind == c.unwind + [dest] && !IsMapped(s, dest))
    ensures Down(s', c', n, dest - 1, top)
  {
    hide Data, IsMapped;
    assert Sourced(dest, shift, rem, n);
    assert IsMapped(s, dest - shift - if rem == 0 then 0 else 1);
    assert IsMapped(s', dest);
    forall j | 0 <= j < MAX_FILE_BLOCKS ensures IsMapped(s', j) <==> Within(j, n, Max(dest, n), top + 1) {
      if j != dest { assert IsMapped(s', j) == IsMapped(s, j); }
    }
    assert Fresh(c', n);
  }

  /** A block was refused while only new blocks had been written. */
  lemma DownStuck(base: Snap, s: Snap, s': Snap, c: Tally, n: nat, low: nat, dest: nat, top: nat)
    requires Step(base, s) && low <= dest <= top < MAX_FILE_BLOCKS && Down(s, c, n, dest, top) && Refused(s, s', dest)
    ensures n <= dest && base.free + |base.t| < Weight(n, Max(low, n), top + 1)
  {
    hide Data, IsMapped, Step, Missing, FileSame, Path, Weight;
    assert !Within(dest, n, Max(dest + 1, n), top + 1);
    TooFew(base, s, n, Max(dest + 1, n), top + 1, dest, n, Max(low, n), top + 1);
  }

  lemma SameOld(base: Snap, s: Snap, s': Snap, n: nat, i: nat)
    requires OldKept(base, s, n) && i < MAX_FILE_BLOCKS && Refused(s, s', i)
    ensures OldKept(base, s', n)
  {
  }

  lemma ShiftedOld(base: Snap, s: Snap, d: int, top: nat, shift: nat, rem: nat, n: nat)
    requires top < MAX_FILE_BLOCKS && d >= -1 && rem < 4096 && Shifted(base, s, d, top, shift, rem) && n <= d + 1
    ensures OldKept(base, s, n)
  {
  }

  /** The top-down loop that moves the end of the file up. */
  method ShiftUp(fs: Volume, ptr: seq<nat>, top: nat, bottom: nat, split: nat, shift: nat, rem: nat,
                 ghost t: Tree, ghost base: Snap, ghost lo: nat, ghost n: nat)
    returns (ok: bool, ptr': seq<nat>, c: Tally, ghost t': Tree)
    requires fs.BlocksReady() && base == Now(fs, ptr, t, 0) && Good(base) && top < MAX_FILE_BLOCKS && rem < 4096
    requires lo <= bottom <= top + 1 && (if split == 0 then 0 < bottom else bottom <= top)
    requires forall j :: bottom <= j <= top && (split != 0 ==> bottom < j) ==> ShiftArgs(j, shift, rem)
    modifies fs`disk, fs.blocks
    ensures !ok ==> fs.blocks.superFree < 4
    ensures fs.BlocksReady() && Tallied(base, Now(fs, ptr', t', 0), lo, top, c)
    ensures ok ==> Shifted(base, Now(fs, ptr', t', 0), if split == 0 then bottom - 1 else bottom, top, shift, rem)
    ensures ok ==> forall a :: 0 <= a < |c.unwind| ==> c.unwind[a] > if split == 0 then bottom - 1 else bottom
    ensures var low := if split == 0 then bottom else bottom + 1;
            Dense(base, n, low, top, shift, rem) ==>
              && Fresh(c, n)
              && (ok ==> Down(Now(fs, ptr', t', 0), c, n, low - 1, top))
              && (!ok ==> OldKept(base, Now(fs, ptr', t', 0), n) && base.free + |base.t| < Weight(n, Max(low, n), top + 1))
  {
    hide Good, OthersKept, Slot, Data, IsMapped, Missing, Step, FileSame, Shifted, Dense, Down, OldKept, Weight, Tallied, Refused, Fresh, Moved,
      Volume.BlocksReady;
    ptr', t', c := ptr, t, Tally([], 0, 0, 0);
    TallyStart(base, lo, top);
    var dest := top;
    ghost var stop := if split == 0 then bottom - 1 else bottom;
    ghost var dense := Dense(base, n, stop + 1, top, shift, rem);
    ShiftedNone(base, top, shift, rem);
    if dense { DownStart(base, c, n, stop + 1, top, shift, rem); }
    while !(dest < bottom || (dest == bottom && split != 0))
      invariant dest <= top && (dest >= stop || dest == top)
      invariant fs.BlocksReady() && Tallied(base, Now(fs, ptr', t', 0), lo, top, c)
      invariant Shifted(base, Now(fs, ptr', t', 0), dest, top, shift, rem)
      invariant forall a :: 0 <= a < |c.unwind| ==> c.unwind[a] > dest
      invariant dest == top ==> Now(fs, ptr', t', 0) == base && c.unwind == []
      invariant dense ==> Down(Now(fs, ptr', t', 0), c, n, dest, top)
      decreases dest
    {
      ghost var s, c0 := Now(fs, ptr', t', 0), c;
      TallyGood(base, s, lo, top, c);
      ok, ptr', c, t' := ShiftBlock(fs, ptr', dest, shift, rem, c, t', base, lo, top);
      if !ok {
        if dense {
          DownStuck(base, s, Now(fs, ptr', t', 0), c, n, stop + 1, dest, top);
          ShiftedOld(base, s, dest, top, shift, rem, n);
          SameOld(base, s, Now(fs, ptr', t', 0), n, dest);
          DownFresh(s, c, n, dest, top);
        }
        return;
      }
      ShiftedOne(base, s, Now(fs, ptr', t', 0), dest, top, shift, rem);
      if dense { DownOne(base, s, Now(fs, ptr', t', 0), c0, c, n, stop + 1, dest, top, shift, rem); }
      dest := dest - 1;
    }
    if dense { DownFresh(Now(fs, ptr', t', 0), c, n, stop, top); }
    ok := true;
  }

  lemma TallyStart(base: Snap, lo: nat, hi: nat)
    requires Good(base)
    ensures Tallied(base, base, lo, hi, Tally([], 0, 0, 0))
  {
    StepRefl(base);
  }

  lemma DownStart(base: Snap, c: Tally, n: nat, low: nat, top: nat, shift: nat, rem: nat)
    requires Dense(base, n, low, top, shift, rem) && c.unwind == []
    ensures Down(base, c, n, top, top)
  {
    hide IsMapped;
  }

  lemma DownFresh(s: Snap, c: Tally, n: nat, dest: int, top: nat)
    requires dest >= -1 && Down(s, c, n, dest, top)
    ensures Fresh(c, n)
  {
  }

  lemma ShiftedNone(base: Snap, top: nat, shift: nat, rem: nat)
    requires top < MAX_FILE_BLOCKS && rem < 4096
    ensures Shifted(base, base, top, top, shift, rem)
  {
  }

  lemma MovedByte(base: Snap, p: nat, f: nat)
    requires f <= p < 0x1_0000_0000 && ShiftArgs(p / 4096, f / 4096, f % 4096)
    ensures Moved(base, p / 4096, f / 4096, f % 4096)[p % 4096] == ByteAt(base, p - f)
  {
    hide Data;
    var i, shift, rem, x := p / 4096, f / 4096, f % 4096, p % 4096;
    if x < rem {
      PlaceIs(p - f, i - shift - 1, 4096 - rem + x);
    } else {
      PlaceIs(p - f, i - shift, x - rem);
    }
  }

  lemma PlaceIs(p: nat, i: nat, x: nat)
    requires p == 4096 * i + x && x < 4096
    ensures p / 4096 == i && p % 4096 == x
  {
  }

  /** The second phase: the block that holds the end of buf and the first moved bytes. */
  method FillSplit(fs: Volume, ptr: seq<nat>, offset: nat, bottom: nat, split: nat, c: Tally,
                   ghost t: Tree, ghost base: Snap, ghost lo: nat, ghost hi: nat)
    returns (ok: bool, ptr': seq<nat>, c': Tally, ghost t': Tree)
    requires fs.BlocksReady() && Tallied(base, Now(fs, ptr, t, 0), lo, hi, c) && lo <= bottom <= hi < MAX_FILE_BLOCKS
    requires 0 < split < 4096 && offset + 4096 < 0x1_0000_0000
    modifies fs`disk, fs.blocks
    ensures fs.BlocksReady() && Tallied(base, Now(fs, ptr', t', 0), lo, hi, c')
    ensures !ok ==> Refused(old(Now(fs, ptr, t, 0)), Now(fs, ptr', t', 0), bottom) && c' == c && fs.blocks.superFree < 4
    ensures ok ==> c'.unwind == c.unwind || (c'.unwind == c.unwind + [bottom] && !old(IsMapped(Now(fs, ptr, t, 0), bottom)))
    ensures ok ==> FileSame(old(Now(fs, ptr, t, 0)), Now(fs, ptr', t', 0), bottom) && IsMapped(Now(fs, ptr', t', 0), bottom)
    ensures ok ==> SplitBytes(old(Now(fs, ptr, t, 0)), Now(fs, ptr', t', 0), offset, bottom, split)
  {
    hide Good, Sound, OthersKept, Slot, Data, Missing, Step, FileSame, Extends, ByteAt, Volume.BlocksReady;
    ghost var s := Now(fs, ptr, t, 0);
    var b;
    ok, b, ptr', c', t' := GrowBlock(fs, ptr, bottom, c, t, base, lo, hi);
    if !ok { return; }
    ghost var s1 := Now(fs, ptr', t', 0);
    TallyGood(base, s1, lo, hi, c');
    var old1 := GetData(fs, b, ptr', bottom, 0, t');
    var blk := CollectBytes(fs, ptr', old1, offset, split, t');
    PutData(fs, b, blk, ptr', bottom, 0, t');
    ghost var s2 := Now(fs, ptr', t', 0);
    TallyWritten(base, s1, s2, lo, hi, c', bottom, blk);
    FileSameTrans(s, s1, s2, bottom);
    SplitDone(s, s1, s2, old1, blk, offset, bottom, split);
  }

  /** Byte x of the split block, from split on, is file byte offset + x - split. */
  ghost predicate SplitBytes(s: Snap, s': Snap, offset: nat, bottom: nat, split: nat)
    requires bottom < MAX_FILE_BLOCKS && offset + 4096 < 0x1_0000_0000
  {
    && (forall x :: split <= x < 4096 && (IsMapped(s, bottom) || (offset + x - split) / 4096 != bottom) ==>
          Data(s', bottom)[x] == ByteAt(s, offset + x - split))
    && (IsMapped(s, bottom) ==> forall x :: 0 <= x < split && x < 4096 ==> Data(s', bottom)[x] == Data(s, bottom)[x])
  }

  lemma SplitDone(s: Snap, s1: Snap, s2: Snap, old1: Block, blk: Block, offset: nat, bottom: nat, split: nat)
    requires bottom < MAX_FILE_BLOCKS && 0 < split < 4096 && offset + 4096 < 0x1_0000_0000
    requires FileSame(s, s1, bottom) && (IsMapped(s, bottom) ==> Data(s1, bottom) == Data(s, bottom))
    requires Collected(s1, old1, blk, offset, split, 4096) && old1 == Data(s1, bottom) && Data(s2, bottom) == blk
    ensures SplitBytes(s, s2, offset, bottom, split)
  {
    forall x | split <= x < 4096 && (IsMapped(s, bottom) || (offset + x - split) / 4096 != bottom)
      ensures Data(s2, bottom)[x] == ByteAt(s, offset + x - split)
    {
      assert blk[x] == ByteAt(s1, offset + x - split);
    }
  }

  /** Bytes split..done of blk are the file's bytes from offset on; the others are those of old1. */
  ghost predicate Collected(s: Snap, old1: Block, blk: Block, offset: nat, split: nat, done: nat)
    requires offset + 4096 < 0x1_0000_0000
  {
    && (forall x :: split <= x < done && x < 4096 ==> blk[x] == ByteAt(s, offset + x - split))
    && (forall x :: 0 <= x < 4096 && (x < split || done <= x) ==> blk[x] == old1[x])
  }

  /** The chunk loop that gathers the moved bytes block by block. */
  method CollectBytes(fs: Volume, ptr: seq<nat>, old1: Block, offset: nat, split: nat, ghost t: Tree) returns (blk: Block)
    requires Good(Now(fs, ptr, t, 0)) && 0 < split < 4096 && offset + 4096 < 0x1_0000_0000
    ensures Collected(Now(fs, ptr, t, 0), old1, blk, offset, split, 4096)
  {
    hide Good, Sound, Slot, Data;
    ghost var s := Now(fs, ptr, t, 0);
    blk := old1;
    var bufIdx, srcByte := split, offset;
    while bufIdx < 4096
      invariant split <= bufIdx <= 4096 && srcByte == offset + bufIdx - split
      invariant Collected(s, old1, blk, offset, split, bufIdx)
    {
      var srcBlk, srcOff := srcByte / 4096, srcByte % 4096;
      var chunk := if 4096 - bufIdx < 4096 - srcOff then 4096 - bufIdx else 4096 - srcOff;
      GoodSlot(s, srcBlk);
      var st, b := Lookup(fs, ptr, srcBlk, t, 0);
      var src := ZeroBlock();
      if st == Empty {
        HoleData(s, srcBlk);
      } else {
        src := GetData(fs, b, ptr, srcBlk, 0, t);
      }
      ghost var before := blk;
      blk := blk[..bufIdx] + src[srcOff..srcOff + chunk] + blk[bufIdx + chunk..];
      CollectChunk(s, old1, before, blk, offset, split, bufIdx, chunk, src);
      srcByte, bufIdx := srcByte + chunk, bufIdx + chunk;
    }
  }

  lemma CollectChunk(s: Snap, old1: Block, before: Block, blk: Block, offset: nat, split: nat, done: nat, chunk: nat, src: Block)
    requires offset + 4096 < 0x1_0000_0000 && split <= done && done + chunk <= 4096 && 0 < split
    requires Collected(s, old1, before, offset, split, done)
    requires (offset + done - split) % 4096 + chunk <= 4096 && src == Data(s, (offset + done - split) / 4096)
    requires blk == before[..done] + src[(offset + done - split) % 4096..(offset + done - split) % 4096 + chunk] + before[done + chunk..]
    ensures Collected(s, old1, blk, offset, split, done + chunk)
  {
    hide ByteAt, Data;
    var q := offset + done - split;
    var o := q % 4096;
    forall x | split <= x < done + chunk ensures blk[x] == ByteAt(s, offset + x - split) {
      if done <= x {
        assert blk[x] == src[o..o + chunk][x - done];
        SameBlock(s, q, x - done);
      } else {
        assert blk[x] == before[x];
      }
    }
    assert forall x :: 0 <= x < done ==> blk[x] == before[x];
  }

  lemma SameBlock(s: Snap, q: nat, d: nat)
    requires q % 4096 + d < 4096 && q + d < 0x1_0000_0000
    ensures ByteAt(s, q + d) == Data(s, q / 4096)[q % 4096 + d]
  {
    hide Data;
    assert (q + d) / 4096 == q / 4096 && (q + d) % 4096 == q % 4096 + d;
  }

  /** One pass of the copy loop: chunk bytes of buf go into one block. */
  method WriteChunk(fs: Volume, ptr: seq<nat>, dest: nat, src: seq<byte>, offset: nat, oldSize: nat, c: Tally,
                    ghost t: Tree, ghost base: Snap, ghost lo: nat, ghost hi: nat)
    returns (ok: bool, ptr': seq<nat>, c': Tally, ghost t': Tree)
    requires fs.BlocksReady() && Tallied(base, Now(fs, ptr, t, 0), lo, hi, c) && lo <= dest / 4096 <= hi < MAX_FILE_BLOCKS
    requires 0 < |src| && dest % 4096 + |src| <= 4096 && dest < 0x1_0000_0000
    modifies fs`disk, fs.blocks
    ensures !ok ==> Refused(old(Now(fs, ptr, t, 0)), Now(fs, ptr', t', 0), dest / 4096) && c' == c
    ensures ok ==> c'.unwind == c.unwind || (c'.unwind == c.unwind + [dest / 4096] && !old(IsMapped(Now(fs, ptr, t, 0), dest / 4096)))
    ensures fs.BlocksReady() && Tallied(base, Now(fs, ptr', t', 0), lo, hi, c')
    ensures ok ==> FileSame(old(Now(fs, ptr, t, 0)), Now(fs, ptr', t', 0), dest / 4096) && IsMapped(Now(fs, ptr', t', 0), dest / 4096)
    ensures ok ==> Data(Now(fs, ptr', t', 0), dest / 4096)[dest % 4096..dest % 4096 + |src|] == src
    ensures ok && old(IsMapped(Now(fs, ptr, t, 0), dest / 4096)) && (dest % 4096 == 0 || offset <= oldSize) ==>
              KeptAround(old(Data(Now(fs, ptr, t, 0), dest / 4096)), Data(Now(fs, ptr', t', 0), dest / 4096), dest % 4096, |src|)
  {
    hide Good, OthersKept, Slot, Data, Missing, Step, FileSame, Extends, Refused, IsMapped, Volume.BlocksReady;
    ghost var s := Now(fs, ptr, t, 0);
    var i, off := dest / 4096, dest % 4096;
    var b;
    ok, b, ptr', c', t' := GrowBlock(fs, ptr, i, c, t, base, lo, hi);
    if !ok { return; }
    ghost var s1 := Now(fs, ptr', t', 0);
    TallyGood(base, s1, lo, hi, c');
    var blk := fs.Scratch();
    if off != 0 || |src| != 4096 {
      blk := GetData(fs, b, ptr', i, 0, t');
    }
    if dest == offset && dest - off >= oldSize {
      var start := dest - off;
      var zeroFrom := if oldSize > start then oldSize - start else 0;
      if zeroFrom < off {
        blk := blk[..zeroFrom] + seq(off - zeroFrom, _ => 0) + blk[off..];
      }
    }
    blk := blk[..off] + src + blk[off + |src|..];
    PutData(fs, b, blk, ptr', i, 0, t');
    TallyWritten(base, s1, Now(fs, ptr', t', 0), lo, hi, c', i, blk);
    FileSameTrans(s, s1, Now(fs, ptr', t', 0), i);
  }

  ghost predicate KeptAround(blk: Block, blk': Block, off: nat, len: nat) {
    forall x :: 0 <= x < 4096 && (x < off || off + len <= x) ==> blk'[x] == blk[x]
  }

  /** While buf is being copied in: the bytes before q are in place, blocks wholly outside are as in s0. */
  ghost predicate Copying(s0: Snap, s: Snap, offset: nat, buf: seq<byte>, q: nat)
    requires offset <= q <= offset + |buf| < 0x1_0000_0000
  {
    && (forall p :: offset <= p < q ==> ByteAt(s, p) == buf[p - offset])
    && (forall j :: 0 <= j < MAX_FILE_BLOCKS && (j < offset / 4096 || q <= 4096 * j || q == offset) ==>
          Data(s, j) == Data(s0, j) && IsMapped(s, j) == IsMapped(s0, j))
    && (forall j :: 0 <= j < MAX_FILE_BLOCKS && IsMapped(s0, j) ==> IsMapped(s, j))
    && (forall j :: 0 <= j < MAX_FILE_BLOCKS && offset / 4096 <= j && 4096 * j < q && offset < q ==> IsMapped(s, j))
  }

  /** The bytes of the first block before offset survive. */
  ghost predicate LowEdge(s0: Snap, s: Snap, offset: nat)
    requires offset < 0x1_0000_0000
  {
    forall p :: 0 <= p < offset && p / 4096 == offset / 4096 ==> ByteAt(s, p) == ByteAt(s0, p)
  }

  /** The bytes of the last block after the end of buf survive. */
  ghost predicate HighEdge(s0: Snap, s: Snap, end: nat) {
    forall p :: end <= p < 0x1_0000_0000 && p / 4096 == end / 4096 ==> ByteAt(s, p) == ByteAt(s0, p)
  }

  /** Both edge blocks hold something worth keeping: they are mapped, or buf covers them from their first byte. */
  ghost predicate Clean(s0: Snap, offset: nat, len: nat, oldSize: nat)
    requires offset + len < 0x1_0000_0000
  {
    && offset <= oldSize && (offset % 4096 == 0 || IsMapped(s0, offset / 4096))
    && ((offset + len) % 4096 == 0 || IsMapped(s0, (offset + len) / 4096))
  }

  lemma CopyStep(s0: Snap, s: Snap, s': Snap, offset: nat, buf: seq<byte>, q: nat, chunk: nat)
    requires offset <= q && 0 < chunk && q + chunk <= offset + |buf| < 0x1_0000_0000 && q % 4096 + chunk <= 4096
    requires (q == offset || q % 4096 == 0) && Copying(s0, s, offset, buf, q)
    requires (q + chunk) % 4096 == 0 || q + chunk == offset + |buf|
    requires FileSame(s, s', q / 4096) && IsMapped(s', q / 4096)
    requires Data(s', q / 4096)[q % 4096..q % 4096 + chunk] == buf[q - offset..q - offset + chunk]
    ensures Copying(s0, s', offset, buf, q + chunk)
  {
    hide Data, IsMapped;
    var i := q / 4096;
    forall p | offset <= p < q + chunk ensures ByteAt(s', p) == buf[p - offset] {
      if p < q {
        assert p / 4096 != i;
        assert ByteAt(s, p) == buf[p - offset];
      } else {
        assert p / 4096 == i && p % 4096 == q % 4096 + (p - q);
        assert Data(s', i)[q % 4096..q % 4096 + chunk][p - q] == buf[q - offset..q - offset + chunk][p - q];
      }
    }
  }

  lemma EdgeStep(s0: Snap, s: Snap, s': Snap, offset: nat, buf: seq<byte>, q: nat, chunk: nat, oldSize: nat)
    requires offset <= q && 0 < chunk && q + chunk <= offset + |buf| < 0x1_0000_0000 && q % 4096 + chunk <= 4096
    requires (q == offset || q % 4096 == 0) && Copying(s0, s, offset, buf, q) && FileSame(s, s', q / 4096)
    requires Clean(s0, offset, |buf|, oldSize) && LowEdge(s0, s, offset)
    requires IsMapped(s, q / 4096) && (q % 4096 == 0 || offset <= oldSize) ==>
               KeptAround(Data(s, q / 4096), Data(s', q / 4096), q % 4096, chunk)
    ensures LowEdge(s0, s', offset)
    ensures q + chunk == offset + |buf| ==> HighEdge(s0, s', offset + |buf|)
  {
    var i := q / 4096;
    forall p | 0 <= p < offset && p / 4096 == offset / 4096 ensures ByteAt(s', p) == ByteAt(s0, p) {
      assert ByteAt(s, p) == ByteAt(s0, p);
    }
    var end := offset + |buf|;
    if q + chunk == end {
      forall p | end <= p < 0x1_0000_0000 && p / 4096 == end / 4096 ensures ByteAt(s', p) == ByteAt(s0, p) {
        if p / 4096 == i {
          assert Data(s, i) == Data(s0, i);
        } else {
          assert Data(s, p / 4096) == Data(s0, p / 4096);
        }
      }
    }
  }

  /** The copy loop has come to byte q: the blocks in front of it are mapped, and so are those from m on. */
  ghost predicate Filling(s: Snap, c: Tally, n: nat, m: nat, q: nat, hi: nat) {
    Spans(s, Max(n, (q + 4095) / 4096), m, hi + 1) && Fresh(c, n)
  }

  /** Before the third phase of an insert into a file of n blocks without holes. */
  ghost predicate FillArgs(offset: nat, f: nat, size: nat, n: nat, m: nat, hi: nat) {
    && offset <= size <= 4096 * n && m == Max((offset + f) / 4096, n) && n <= hi + 1
    && ((offset + f) % 4096 != 0 ==> (offset + f) / 4096 <= hi)
  }

  /** buf has overwritten the old file from offset on. */
  ghost predicate Overrun(s0: Snap, s: Snap, offset: nat, buf: seq<byte>, n: nat) {
    && 4096 * n <= offset + |buf| < 0x1_0000_0000 && (forall j :: 0 <= j < n && j < MAX_FILE_BLOCKS ==> IsMapped(s, j))
    && forall p :: 0 <= p < 4096 * n ==> ByteAt(s, p) == if p < offset then ByteAt(s0, p) else buf[p - offset]
  }

  lemma FillClean(s0: Snap, c: Tally, offset: nat, f: nat, size: nat, n: nat, m: nat, hi: nat)
    requires offset + f < 0x1_0000_0000 && FillArgs(offset, f, size, n, m, hi) && Filling(s0, c, n, m, offset, hi)
    ensures Clean(s0, offset, f, size)
  {
    hide IsMapped;
    if offset % 4096 != 0 { assert Within(offset / 4096, Max(n, (offset + 4095) / 4096), m, hi + 1); }
    if (offset + f) % 4096 != 0 { assert Within((offset + f) / 4096, Max(n, (offset + 4095) / 4096), m, hi + 1); }
  }

  lemma FillOne(s: Snap, s': Snap, c: Tally, c': Tally, n: nat, m: nat, q: nat, q': nat, hi: nat)
    requires q < 0x1_0000_0000 && Filling(s, c, n, m, q, hi) && FileSame(s, s', q / 4096) && IsMapped(s', q / 4096)
    requires (q' + 4095) / 4096 == q / 4096 + 1
    requires c'.unwind == c.unwind || (c'.unwind == c.unwind + [q / 4096] && !IsMapped(s, q / 4096))
    ensures Filling(s', c', n, m, q', hi)
  {
    hide IsMapped, Data;
    var i := q / 4096;
    forall j | 0 <= j < MAX_FILE_BLOCKS ensures IsMapped(s', j) <==> Within(j, Max(n, i + 1), m, hi + 1) {
      if j != i { assert IsMapped(s', j) == IsMapped(s, j); }
    }
    assert IsMapped(s, i) || !Within(i, Max(n, (q + 4095) / 4096), m, hi + 1);
    assert Fresh(c', n);
  }

  /** A block was refused: it lies behind the old end of the file, and in front of the blocks taken first. */
  lemma FillStuck(base: Snap, s: Snap, s': Snap, c: Tally, n: nat, m: nat, q: nat, hi: nat)
    requires q < 0x1_0000_0000 && q / 4096 <= hi && Filling(s, c, n, m, q, hi) && n <= hi + 1 && Step(base, s) && Refused(s, s', q / 4096)
    ensures n <= q / 4096 < m && q % 4096 == 0
    ensures Weight(n, m, hi + 1) <= base.free + |base.t| < Footprint(hi + 1)
  {
    hide IsMapped, Data, Step, Missing, FileSame, Path, Weight;
    var i := q / 4096;
    var a := Max(n, (q + 4095) / 4096);
    assert !Within(i, a, m, hi + 1);
    TooFew(base, s, a, m, hi + 1, i, hi + 1, hi + 1, hi + 1);
    Fitted(base, s, a, m, hi + 1, n, m, hi + 1);
  }

  lemma FillOverrun(s0: Snap, s: Snap, s': Snap, c: Tally, offset: nat, buf: seq<byte>, n: nat, m: nat, q: nat, hi: nat)
    requires offset <= q <= offset + |buf| < 0x1_0000_0000 && 4096 * n <= q && Filling(s, c, n, m, q, hi)
    requires Copying(s0, s, offset, buf, q) && LowEdge(s0, s, offset) && FileSame(s, s', MAX_FILE_BLOCKS)
    ensures Overrun(s0, s', offset, buf, n)
  {
    hide IsMapped, Data;
    forall j | 0 <= j < n && j < MAX_FILE_BLOCKS ensures IsMapped(s', j) {
      assert Within(j, Max(n, (q + 4095) / 4096), m, hi + 1);
    }
    forall p | 0 <= p < 4096 * n ensures ByteAt(s', p) == if p < offset then ByteAt(s0, p) else buf[p - offset] {
      assert Data(s', p / 4096) == Data(s, p / 4096);
      assert ByteAt(s', p) == ByteAt(s, p);
      if p < offset && p / 4096 < offset / 4096 { assert Data(s, p / 4096) == Data(s0, p / 4096); }
    }
  }

  /** The copy loop has come to byte q; `dense` says that the file had no holes. */
  ghost predicate Copied(s0: Snap, s: Snap, c: Tally, offset: nat, buf: seq<byte>, q: nat, size: nat, n: nat, m: nat, hi: nat, dense: bool) {
    && offset <= q <= offset + |buf| < 0x1_0000_0000 && (q == offset || q % 4096 == 0 || q == offset + |buf|)
    && Copying(s0, s, offset, buf, q)
    && (Clean(s0, offset, |buf|, size) ==> LowEdge(s0, s, offset) && (q == offset + |buf| ==> HighEdge(s0, s, q)))
    && (dense ==> Filling(s, c, n, m, q, hi) && Clean(s0, offset, |buf|, size) && n <= hi + 1)
  }

  lemma CopiedMore(s0: Snap, s: Snap, s': Snap, c: Tally, c': Tally, offset: nat, buf: seq<byte>, q: nat, chunk: nat, size: nat,
                   n: nat, m: nat, hi: nat, dense: bool)
    requires Copied(s0, s, c, offset, buf, q, size, n, m, hi, dense) && 0 < chunk && q + chunk <= offset + |buf| && q % 4096 + chunk <= 4096
    requires (q + chunk) % 4096 == 0 || q + chunk == offset + |buf|
    requires q != offset ==> q % 4096 == 0
    requires FileSame(s, s', q / 4096) && IsMapped(s', q / 4096)
    requires Data(s', q / 4096)[q % 4096..q % 4096 + chunk] == buf[q - offset..q - offset + chunk]
    requires IsMapped(s, q / 4096) && (q % 4096 == 0 || offset <= size) ==> KeptAround(Data(s, q / 4096), Data(s', q / 4096), q % 4096, chunk)
    requires c'.unwind == c.unwind || (c'.unwind == c.unwind + [q / 4096] && !IsMapped(s, q / 4096))
    ensures Copied(s0, s', c', offset, buf, q + chunk, size, n, m, hi, dense)
  {
    hide Copying, Clean, LowEdge, HighEdge, Filling, FileSame, KeptAround, Data, IsMapped;
    CopyStep(s0, s, s', offset, buf, q, chunk);
    if Clean(s0, offset, |buf|, size) { EdgeStep(s0, s, s', offset, buf, q, chunk, size); }
    if dense { FillOne(s, s', c, c', n, m, q, q + chunk, hi); }
  }

  /** One pass of the third phase. */
  method CopyChunk(fs: Volume, ptr: seq<nat>, q: nat, offset: nat, buf: seq<byte>, oldSize: nat, c: Tally,
                   ghost t: Tree, ghost base: Snap, ghost s0: Snap, ghost hi: nat, ghost n: nat, ghost m: nat, ghost dense: bool)
    returns (ok: bool, q': nat, ptr': seq<nat>, c': Tally, ghost t': Tree)
    requires fs.BlocksReady() && Tallied(base, Now(fs, ptr, t, 0), offset / 4096, hi, c)
    requires Copied(s0, Now(fs, ptr, t, 0), c, offset, buf, q, oldSize, n, m, hi, dense) && q < offset + |buf|
    requires (offset + |buf| - 1) / 4096 <= hi < MAX_FILE_BLOCKS
    modifies fs`disk, fs.blocks
    ensures fs.BlocksReady() && Tallied(base, Now(fs, ptr', t', 0), offset / 4096, hi, c')
    ensures ok ==> q < q' <= offset + |buf| && Copied(s0, Now(fs, ptr', t', 0), c', offset, buf, q', oldSize, n, m, hi, dense)
    ensures !ok ==> fs.blocks.superFree < 4
    ensures !ok && dense ==> Fresh(c', n) && n < m && Overrun(s0, Now(fs, ptr', t', 0), offset, buf, n)
    ensures !ok && dense ==> Weight(n, m, hi + 1) <= base.free + |base.t| < Footprint(hi + 1)
  {
    hide Tallied, Copying, Clean, LowEdge, HighEdge, FileSame, Slot, Data, IsMapped, Filling, Overrun, Weight, Footprint, Step, KeptAround, Volume.BlocksReady;
    ghost var s := Now(fs, ptr, t, 0);
    var room := 4096 - q % 4096;
    var remaining := offset + |buf| - q;
    var chunk := if remaining < room then remaining else room;
    assert q / 4096 <= hi;
    ok, ptr', c', t' := WriteChunk(fs, ptr, q, buf[q - offset..q - offset + chunk], offset, oldSize, c, t, base, offset / 4096, hi);
    q' := q;
    if ok {
      CopiedMore(s0, s, Now(fs, ptr', t', 0), c, c', offset, buf, q, chunk, oldSize, n, m, hi, dense);
      q' := q + chunk;
    } else if dense {
      TallyGood(base, s, offset / 4096, hi, c);
      FillFailed(base, s0, s, Now(fs, ptr', t', 0), c', offset, buf, n, m, q, hi);
    }
  }

  /** The third phase: buf is copied in, block by block. */
  method CopyBuf(fs: Volume, ptr: seq<nat>, offset: nat, buf: seq<byte>, oldSize: nat, c: Tally,
                 ghost t: Tree, ghost base: Snap, ghost hi: nat, ghost n: nat, ghost m: nat)
    returns (ok: bool, ptr': seq<nat>, c': Tally, ghost t': Tree)
    requires fs.BlocksReady() && Tallied(base, Now(fs, ptr, t, 0), offset / 4096, hi, c) && 0 < |buf|
    requires offset + |buf| < 0x1_0000_0000 && (offset + |buf| - 1) / 4096 <= hi < MAX_FILE_BLOCKS
    modifies fs`disk, fs.blocks
    ensures !ok ==> fs.blocks.superFree < 4
    ensures fs.BlocksReady() && Tallied(base, Now(fs, ptr', t', 0), offset / 4096, hi, c')
    ensures ok ==> Copying(old(Now(fs, ptr, t, 0)), Now(fs, ptr', t', 0), offset, buf, offset + |buf|)
    ensures ok && old(Clean(Now(fs, ptr, t, 0), offset, |buf|, oldSize)) ==>
              LowEdge(old(Now(fs, ptr, t, 0)), Now(fs, ptr', t', 0), offset) && HighEdge(old(Now(fs, ptr, t, 0)), Now(fs, ptr', t', 0), offset + |buf|)
    ensures FillArgs(offset, |buf|, oldSize, n, m, hi) && old(Filling(Now(fs, ptr, t, 0), c, n, m, offset, hi)) ==>
              && Fresh(c', n)
              && (ok ==> Filling(Now(fs, ptr', t', 0), c', n, m, offset + |buf|, hi))
              && (!ok ==> n < m && Overrun(old(Now(fs, ptr, t, 0)), Now(fs, ptr', t', 0), offset, buf, n))
              && (!ok ==> Weight(n, m, hi + 1) <= base.free + |base.t| < Footprint(hi + 1))
  {
    hide Tallied, Copying, Clean, LowEdge, HighEdge, Filling, Fresh, Overrun, Weight, Footprint, Volume.BlocksReady;
    ghost var s0 := Now(fs, ptr, t, 0);
    ghost var dense := FillArgs(offset, |buf|, oldSize, n, m, hi) && Filling(s0, c, n, m, offset, hi);
    ptr', c', t', ok := ptr, c, t, true;
    CopyStart(s0, offset, buf);
    if dense { FillClean(s0, c, offset, |buf|, oldSize, n, m, hi); }
    var q := offset;
    while q < offset + |buf|
      invariant ok && fs.BlocksReady() && Tallied(base, Now(fs, ptr', t', 0), offset / 4096, hi, c')
      invariant Copied(s0, Now(fs, ptr', t', 0), c', offset, buf, q, oldSize, n, m, hi, dense)
    {
      ok, q, ptr', c', t' := CopyChunk(fs, ptr', q, offset, buf, oldSize, c', t', base, s0, hi, n, m, dense);
      if !ok { return; }
    }
    if dense { FillFresh(Now(fs, ptr', t', 0), c', n, m, q, hi); }
  }

  lemma FillFresh(s: Snap, c: Tally, n: nat, m: nat, q: nat, hi: nat)
    requires Filling(s, c, n, m, q, hi)
    ensures Fresh(c, n)
  {
  }

  lemma FillFailed(base: Snap, s0: Snap, s: Snap, s': Snap, c: Tally, offset: nat, buf: seq<byte>, n: nat, m: nat, q: nat, hi: nat)
    requires offset <= q < offset + |buf| < 0x1_0000_0000 && q / 4096 <= hi < MAX_FILE_BLOCKS && n <= hi + 1
    requires Filling(s, c, n, m, q, hi) && Step(base, s) && Refused(s, s', q / 4096)
    requires Copying(s0, s, offset, buf, q) && LowEdge(s0, s, offset)
    ensures Fresh(c, n) && n < m && Overrun(s0, s', offset, buf, n)
    ensures Weight(n, m, hi + 1) <= base.free + |base.t| < Footprint(hi + 1)
  {
    hide Filling, Copying, LowEdge, Step, Weight, Footprint, Overrun;
    FillStuck(base, s, s', c, n, m, q, hi);
    FillOverrun(s0, s, s', c, offset, buf, n, m, q, hi);
    FillFresh(s, c, n, m, q, hi);
  }

  lemma CopyStart(s: Snap, offset: nat, buf: seq<byte>)
    requires offset + |buf| < 0x1_0000_0000
    ensures Copying(s, s, offset, buf, offset) && LowEdge(s, s, offset) && HighEdge(s, s, offset)
  {
  }

  /** The states between the three phases of an insert of `buf` at `offset`. */
  ghost predicate Phases(base: Snap, s1: Snap, s2: Snap, s3: Snap, offset: nat, buf: seq<byte>, top: nat, size: nat)
    requires 0 < |buf| && offset + |buf| <= MAX_SIZE && top < MAX_FILE_BLOCKS
  {
    && MovedUp(base, s1, s2, offset, |buf|, top)
    && Copying(s2, s3, offset, buf, offset + |buf|)
    && (Clean(s2, offset, |buf|, size) ==> LowEdge(s2, s3, offset) && HighEdge(s2, s3, offset + |buf|))
  }

  /** The states after the first two phases. */
  ghost predicate MovedUp(base: Snap, s1: Snap, s2: Snap, offset: nat, f: nat, top: nat)
    requires 0 < f && offset + f <= MAX_SIZE && top < MAX_FILE_BLOCKS
  {
    var bottom, split := (offset + f) / 4096, (offset + f) % 4096;
    && Shifted(base, s1, if split == 0 then bottom - 1 else bottom, top, f / 4096, f % 4096)
    && (split == 0 ==> s2 == s1)
    && (split != 0 ==> FileSame(s1, s2, bottom) && IsMapped(s2, bottom) && SplitBytes(s1, s2, offset, bottom, split))
  }

  /** The arithmetic of an insert within a file of the given size. */
  ghost predicate InsertArgs(size: nat, offset: nat, f: nat, top: nat) {
    0 < f && offset <= size && size + f <= MAX_SIZE && top == BlockCount(size + f) - 1 && top < MAX_FILE_BLOCKS
  }

  lemma PhasesClean(base: Snap, s1: Snap, s2: Snap, s3: Snap, offset: nat, buf: seq<byte>, top: nat, size: nat)
    requires InsertArgs(size, offset, |buf|, top) && HoleFree(base, size) && Phases(base, s1, s2, s3, offset, buf, top, size)
    ensures Clean(s2, offset, |buf|, size)
  {
    hide Data, IsMapped, SplitBytes, Copying, LowEdge, HighEdge, ByteAt, BlockCount;
    BlockCountIs(size);
    var i := offset / 4096;
    if offset % 4096 != 0 {
      assert i < BlockCount(size);
      assert IsMapped(base, i);
      assert IsMapped(s1, i);
    }
  }

  lemma NoHole(base: Snap, size: nat, p: nat)
    requires HoleFree(base, size) && p < size <= MAX_SIZE
    ensures IsMapped(base, p / 4096)
  {
    BlockCountIs(size);
  }

  /** Bytes before offset. */
  lemma BytesBelow(base: Snap, s1: Snap, s2: Snap, s3: Snap, offset: nat, buf: seq<byte>, top: nat, size: nat, p: nat)
    requires InsertArgs(size, offset, |buf|, top) && HoleFree(base, size) && Phases(base, s1, s2, s3, offset, buf, top, size)
    requires p < offset
    ensures ByteAt(s3, p) == ByteAt(base, p)
  {
    hide HoleFree, Moved, BlockCount, Slot, Data, IsMapped;
    PhasesClean(base, s1, s2, s3, offset, buf, top, size);
    NoHole(base, size, p);
    var j, bottom, split := p / 4096, (offset + |buf|) / 4096, (offset + |buf|) % 4096;
    assert Data(s1, j) == Data(base, j) && IsMapped(s1, j) == IsMapped(base, j);
    if j == offset / 4096 {
      assert ByteAt(s3, p) == ByteAt(s2, p);
      if split != 0 && j == bottom {
        assert p % 4096 < split;
        assert Data(s2, bottom)[p % 4096] == Data(s1, bottom)[p % 4096];
      }
    } else {
      assert Data(s3, j) == Data(s2, j);
    }
  }

  /** Bytes after the inserted ones, in the block where buf ends. */
  lemma BytesSplit(base: Snap, s1: Snap, s2: Snap, s3: Snap, offset: nat, buf: seq<byte>, top: nat, size: nat, p: nat)
    requires InsertArgs(size, offset, |buf|, top) && HoleFree(base, size) && Phases(base, s1, s2, s3, offset, buf, top, size)
    requires offset + |buf| <= p < size + |buf| && p / 4096 == (offset + |buf|) / 4096 && (offset + |buf|) % 4096 != 0
    ensures ByteAt(s3, p) == ByteAt(base, p - |buf|)
  {
    hide HoleFree, Moved, BlockCount, Slot, Data, IsMapped, Copying, LowEdge, Clean;
    PhasesClean(base, s1, s2, s3, offset, buf, top, size);
    var f := |buf|;
    var bottom, split, q, x := (offset + f) / 4096, (offset + f) % 4096, p - f, p % 4096;
    assert ByteAt(s3, p) == ByteAt(s2, p);
    NoHole(base, size, q);
    assert q == offset + x - split && q / 4096 <= bottom;
    assert Data(s1, q / 4096) == Data(base, q / 4096) && IsMapped(s1, q / 4096);
    assert Data(s2, bottom)[x] == ByteAt(s1, q);
  }

  /** Bytes after the inserted ones, in a block that was moved whole. */
  lemma BytesMoved(base: Snap, s1: Snap, s2: Snap, s3: Snap, offset: nat, buf: seq<byte>, top: nat, size: nat, p: nat)
    requires InsertArgs(size, offset, |buf|, top) && Phases(base, s1, s2, s3, offset, buf, top, size)
    requires offset + |buf| <= p < size + |buf|
    requires p / 4096 != (offset + |buf|) / 4096 || (offset + |buf|) % 4096 == 0
    ensures ByteAt(s3, p) == ByteAt(base, p - |buf|)
  {
    hide Moved, BlockCount, Slot, Data, IsMapped, LowEdge, HighEdge, Clean, SplitBytes;
    BlockCountIs(size + |buf|);
    var f := |buf|;
    var j := p / 4096;
    assert Data(s3, j) == Data(s2, j) == Data(s1, j);
    assert ShiftArgs(j, f / 4096, f % 4096);
    MovedByte(base, p, f);
  }

  lemma BytesInserted(base: Snap, s1: Snap, s2: Snap, s3: Snap, offset: nat, buf: seq<byte>, top: nat, size: nat, p: nat)
    requires InsertArgs(size, offset, |buf|, top) && Phases(base, s1, s2, s3, offset, buf, top, size)
    requires offset <= p < offset + |buf|
    ensures ByteAt(s3, p) == buf[p - offset]
  {
    hide ByteAt, Shifted, LowEdge, HighEdge, SplitBytes, BlockCount;
  }

  /** insert_in_inode gives old[..offset] + buf + old[offset..]. */
  lemma InsertedBytes(base: Snap, s1: Snap, s2: Snap, s3: Snap, offset: nat, buf: seq<byte>, top: nat, size: nat, bytes: seq<byte>)
    requires InsertArgs(size, offset, |buf|, top) && HoleFree(base, size) && Phases(base, s1, s2, s3, offset, buf, top, size)
    requires |bytes| == size && Holding(base, bytes, size)
    ensures Holding(s3, bytes[..offset] + buf + bytes[offset..], size + |buf|)
  {
    hide Phases, HoleFree, ByteAt, BlockCount;
    var f := |buf|;
    var want := bytes[..offset] + buf + bytes[offset..];
    forall p | 0 <= p < size + f ensures ByteAt(s3, p) == want[p] {
      if p < offset {
        BytesBelow(base, s1, s2, s3, offset, buf, top, size, p);
      } else if p < offset + f {
        BytesInserted(base, s1, s2, s3, offset, buf, top, size, p);
      } else {
        if p / 4096 == (offset + f) / 4096 && (offset + f) % 4096 != 0 {
          BytesSplit(base, s1, s2, s3, offset, buf, top, size, p);
        } else {
          BytesMoved(base, s1, s2, s3, offset, buf, top, size, p);
        }
        assert ByteAt(base, p - f) == bytes[p - f];
      }
    }
  }

  /** A hole-free file stays hole-free. */
  lemma InsertedHoleFree(base: Snap, s1: Snap, s2: Snap, s3: Snap, offset: nat, buf: seq<byte>, top: nat, size: nat)
    requires InsertArgs(size, offset, |buf|, top) && HoleFree(base, size) && Phases(base, s1, s2, s3, offset, buf, top, size)
    ensures HoleFree(s3, size + |buf|)
  {
    hide HoleFree, Moved, BlockCount, Slot, Data, IsMapped, LowEdge, HighEdge, Clean, SplitBytes;
    var f := |buf|;
    BlockCountIs(size + f);
    var bottom, split := (offset + f) / 4096, (offset + f) % 4096;
    forall j | 0 <= j < MAX_FILE_BLOCKS && j < BlockCount(size + f) ensures IsMapped(s3, j) {
      if j < offset / 4096 {
        NoHole(base, size, 4096 * j);
        assert (4096 * j) / 4096 == j;
      } else if 4096 * j < offset + f {
      } else {
        var q := 4096 * j - f;
        NoHole(base, size, q);
        assert ShiftArgs(j, f / 4096, f % 4096);
        assert f % 4096 == 0 ==> q / 4096 == j - f / 4096;
        assert f % 4096 != 0 ==> q / 4096 == j - f / 4096 - 1;
        assert IsMapped(s1, j);
      }
    }
    HoleFreeAll(s3, size + f);
  }

  lemma HoleFreeAll(s: Snap, size: nat)
    requires forall j :: 0 <= j < MAX_FILE_BLOCKS && j < BlockCount(size) ==> IsMapped(s, j)
    ensures HoleFree(s, size)
  {
  }

  /** What is left of an insert while unwind_insert frees unwind_buf[..a]. */
  ghost predicate Unwinding(base: Snap, s: Snap, c: Tally, a: nat) {
    && Good(base) && Step(base, s) && a <= |c.unwind| && Distinct2(c.unwind)
    && |s.t| - |base.t| == c.alloc - c.free - s.cnt && c.alloc == |c.unwind| + c.minted
    && (forall b :: a <= b < |c.unwind| ==> c.unwind[b] < MAX_FILE_BLOCKS && IsMapped(s, c.unwind[b]))
    && (forall j :: 0 <= j < MAX_FILE_BLOCKS && IsMapped(s, j) ==> IsMapped(base, j) || j in c.unwind[a..])
  }

  lemma UnwindStart(base: Snap, s: Snap, lo: nat, hi: nat, c: Tally)
    requires Tallied(base, s, lo, hi, c) && s.cnt == 0
    ensures Unwinding(base, s, c, 0)
  {
    assert c.unwind[0..] == c.unwind;
  }

  lemma UnwindOne(base: Snap, s: Snap, s': Snap, c: Tally, a: nat)
    requires Unwinding(base, s, c, a) && a < |c.unwind| && c.unwind[a] < MAX_FILE_BLOCKS && Clears(s, s', c.unwind[a])
    ensures Unwinding(base, s', c, a + 1)
  {
    hide OthersKept, Good, Data;
    StepTrans(base, s, s');
    forall j | 0 <= j < MAX_FILE_BLOCKS && IsMapped(s', j) ensures IsMapped(base, j) || j in c.unwind[a + 1..] {
      if j in c.unwind[a..] {
        assert c.unwind[a..] == [c.unwind[a]] + c.unwind[a + 1..];
      }
    }
  }

  /** unwind_insert: the blocks listed in the unwind buffer are freed, and the sector count is settled. */
  method UnwindInsert(fs: Volume, ptr: seq<nat>, sectors: nat, c: Tally, ghost t: Tree, ghost base: Snap, ghost lo: nat, ghost hi: nat, ghost n: nat)
    returns (ptr': seq<nat>, sectors': int, ghost t': Tree)
    requires fs.BlocksReady() && Tallied(base, Now(fs, ptr, t, 0), lo, hi, c) && sectors == 8 * |base.t|
    modifies fs`disk, fs.blocks
    ensures fs.BlocksReady() && Step(base, Now(fs, ptr', t', 0)) && sectors' == 8 * |t'|
    ensures forall j :: 0 <= j < MAX_FILE_BLOCKS && IsMapped(Now(fs, ptr', t', 0), j) ==> IsMapped(base, j)
    ensures Fresh(c, n) ==> OldKept(old(Now(fs, ptr, t, 0)), Now(fs, ptr', t', 0), n)
  {
    hide Good, OthersKept, Slot, Data, IsMapped, Step, Releases, OldKept, Fresh, Volume.BlocksReady;
    ghost var s0 := Now(fs, ptr, t, 0);
    UnwindStart(base, s0, lo, hi, c);
    OldRefl(s0, n);
    ptr', t' := ptr, t;
    var freeCnt := 0;
    var i := 0;
    while i < |c.unwind|
      invariant 0 <= i <= |c.unwind| && fs.BlocksReady() && Unwinding(base, Now(fs, ptr', t', freeCnt), c, i)
      invariant Fresh(c, n) ==> OldKept(s0, Now(fs, ptr', t', freeCnt), n)
    {
      ghost var s := Now(fs, ptr', t', freeCnt);
      StepIsGood(base, s);
      var freed;
      freed, ptr', freeCnt, t' := Release(fs, ptr', c.unwind[i], freeCnt, t');
      assert freed;   // the panic is unreachable
      UnwindOne(base, s, Now(fs, ptr', t', freeCnt), c, i);
      if Fresh(c, n) { OldMore(s0, s, Now(fs, ptr', t', freeCnt), c, n, i); }
      i := i + 1;
    }
    sectors' := sectors - (c.free + (freeCnt - |c.unwind| - c.minted)) * 8;
    Recount(base, Now(fs, ptr', t', freeCnt), base.cnt, 0);
    RecountData(Now(fs, ptr', t', freeCnt), 0);
    if Fresh(c, n) { OldRecount(s0, Now(fs, ptr', t', freeCnt), n); }
  }

  lemma OldRefl(s: Snap, n: nat)
    ensures OldKept(s, s, n)
  {
  }

  lemma OldMore(s0: Snap, s: Snap, s': Snap, c: Tally, n: nat, a: nat)
    requires OldKept(s0, s, n) && Fresh(c, n) && a < |c.unwind| && FileSame(s, s', c.unwind[a])
    ensures OldKept(s0, s', n)
  {
    hide Data, IsMapped;
    assert c.unwind[a] >= n;
  }

  lemma OldRecount(s0: Snap, s: Snap, n: nat)
    requires OldKept(s0, s, n)
    ensures OldKept(s0, s.(cnt := 0), n)
  {
    RecountData(s, 0);
  }

  lemma StepIsGood(s: Snap, s': Snap)
    requires Step(s, s')
    ensures Good(s')
  {
  }

  lemma ShiftBounds(offset: nat, f: nat, newSize: nat)
    requires 0 < f && offset + f <= newSize <= MAX_SIZE
    ensures var bottom, split, top := (offset + f) / 4096, (offset + f) % 4096, BlockCount(newSize) - 1;
            && 0 <= top < MAX_FILE_BLOCKS && offset / 4096 <= bottom <= top + 1
            && (if split == 0 then 0 < bottom else bottom <= top) && (offset + f - 1) / 4096 <= top
            && forall j :: bottom <= j <= top && (split != 0 ==> bottom < j) ==> ShiftArgs(j, f / 4096, f % 4096)
  {
    BlockCountIs(newSize);
  }

  /** A file of this size without holes, and an offset within it. */
  ghost predicate Solid1(base: Snap, size: nat, offset: nat, f: nat, newSize: nat) {
    && Spans(base, BlockCount(size), BlockCount(size), BlockCount(size)) && offset <= size <= MAX_SIZE
    && 0 < f && newSize == size + f <= MAX_SIZE
  }

  /** The blocks of the file and those behind the end of buf, which insert_in_inode takes first. */
  ghost function Reserve(size: nat, offset: nat, f: nat): nat {
    Weight(BlockCount(size), Max((offset + f) / 4096, BlockCount(size)), BlockCount(size + f))
  }

  lemma DenseArgs(base: Snap, size: nat, offset: nat, f: nat, newSize: nat)
    requires Solid1(base, size, offset, f, newSize)
    ensures var bottom, split, n, top := (offset + f) / 4096, (offset + f) % 4096, BlockCount(size), BlockCount(newSize) - 1;
            && 0 <= top && Dense(base, n, if split == 0 then bottom else bottom + 1, top, f / 4096, f % 4096)
            && FillArgs(offset, f, size, n, Max(bottom, n), top)
  {
    hide BlockCount, IsMapped;
    BlockCountIs(size);
    BlockCountIs(newSize);
    var bottom, split, n, top := (offset + f) / 4096, (offset + f) % 4096, BlockCount(size), BlockCount(newSize) - 1;
    forall j | (if split == 0 then bottom else bottom + 1) <= j <= top ensures Sourced(j, f / 4096, f % 4096, n) {}
  }

  /** What a failed insert leaves before it is unwound. */
  ghost predicate Halted(base: Snap, s: Snap, size: nat, offset: nat, buf: seq<byte>) {
    var n, m := BlockCount(size), (offset + |buf|) / 4096;
    if base.free + |base.t| < Reserve(size, offset, |buf|) then OldKept(base, s, n) else n < m && Overrun(base, s, offset, buf, n)
  }

  lemma HaltedEarly(base: Snap, s: Snap, size: nat, offset: nat, buf: seq<byte>, newSize: nat, low: nat)
    requires Solid1(base, size, offset, |buf|, newSize) && OldKept(base, s, BlockCount(size)) && low >= (offset + |buf|) / 4096
    requires base.free + |base.t| < Weight(BlockCount(size), Max(low, BlockCount(size)), BlockCount(newSize))
    ensures Halted(base, s, size, offset, buf) && base.free + |base.t| < Footprint(BlockCount(newSize))
  {
    hide OldKept, Weight, BlockCount, Spans;
    var n, c := BlockCount(size), BlockCount(newSize);
    BlockCountIs(size);
    BlockCountIs(newSize);
    WeightMore(n, Max(low, n), c, n, Max((offset + |buf|) / 4096, n), c);
    WeightMore(n, Max(low, n), c, c, c, c);
  }

  /** The second phase was refused its block. */
  lemma HaltedSplit(base: Snap, s1: Snap, s2: Snap, c: Tally, size: nat, offset: nat, buf: seq<byte>, newSize: nat)
    requires Solid1(base, size, offset, |buf|, newSize) && 0 < BlockCount(newSize) <= MAX_FILE_BLOCKS
    requires var bottom, top := (offset + |buf|) / 4096, BlockCount(newSize) - 1;
             && bottom <= top && Tallied(base, s1, offset / 4096, top, c) && Down(s1, c, BlockCount(size), bottom, top) && Refused(s1, s2, bottom)
             && Shifted(base, s1, bottom, top, |buf| / 4096, |buf| % 4096)
    ensures Fresh(c, BlockCount(size)) && Halted(base, s2, size, offset, buf) && base.free + |base.t| < Footprint(BlockCount(newSize))
  {
    hide OldKept, Weight, BlockCount, Spans, Shifted, Down, Halted, Footprint, Step, Solid1, Data, IsMapped, Missing, Tallied;
    var bottom, n, top := (offset + |buf|) / 4096, BlockCount(size), BlockCount(newSize) - 1;
    TallyGood(base, s1, offset / 4096, top, c);
    DownStuck(base, s1, s2, c, n, bottom, bottom, top);
    ShiftedOld(base, s1, bottom, top, |buf| / 4096, |buf| % 4096, n);
    SameOld(base, s1, s2, n, bottom);
    DownFresh(s1, c, n, bottom, top);
    HaltedEarly(base, s2, size, offset, buf, newSize, bottom);
  }

  lemma DownSplit(s: Snap, s': Snap, c: Tally, c': Tally, n: nat, bottom: nat, top: nat)
    requires bottom <= top < MAX_FILE_BLOCKS && Down(s, c, n, bottom, top) && FileSame(s, s', bottom) && IsMapped(s', bottom)
    requires c'.unwind == c.unwind || (c'.unwind == c.unwind + [bottom] && !IsMapped(s, bottom))
    ensures Down(s', c', n, bottom - 1, top)
  {
    hide Data, IsMapped;
    forall j | 0 <= j < MAX_FILE_BLOCKS ensures IsMapped(s', j) <==> Within(j, n, Max(bottom, n), top + 1) {
      if j != bottom { assert IsMapped(s', j) == IsMapped(s, j); }
    }
    assert Fresh(c', n);
  }

  lemma DownFills(s: Snap, c: Tally, size: nat, offset: nat, f: nat, n: nat, bottom: nat, top: nat)
    requires Down(s, c, n, bottom - 1, top) && FillArgs(offset, f, size, n, Max(bottom, n), top)
    ensures Filling(s, c, n, Max(bottom, n), offset, top)
  {
    hide Spans;
  }

  lemma AllFitted(base: Snap, s: Snap, c: Tally, n: nat, m: nat, end: nat, lo: nat, top: nat)
    requires Tallied(base, s, lo, top, c) && Filling(s, c, n, m, end, top) && m == Max(end / 4096, n)
    ensures base.free + |base.t| >= Footprint(top + 1)
  {
    hide Spans, Weight, Step, Good;
    Fitted(base, s, Max(n, (end + 4095) / 4096), m, top + 1, top + 1, top + 1, top + 1);
  }

  /** The third phase was refused a block after it had overwritten the old end of the file. */
  lemma HaltedLate(base: Snap, s1: Snap, s2: Snap, s: Snap, size: nat, offset: nat, buf: seq<byte>, newSize: nat)
    requires Solid1(base, size, offset, |buf|, newSize) && 0 < BlockCount(newSize) <= MAX_FILE_BLOCKS
    requires var n, bottom, split, top := BlockCount(size), (offset + |buf|) / 4096, (offset + |buf|) % 4096, BlockCount(newSize) - 1;
             && n < Max(bottom, n) && Overrun(s2, s, offset, buf, n) && Weight(n, Max(bottom, n), top + 1) <= base.free + |base.t|
             && MovedUp(base, s1, s2, offset, |buf|, top)
    ensures Halted(base, s, size, offset, buf)
  {
    hide Weight, BlockCount, Spans, Shifted, SplitBytes, Data, IsMapped;
    var n, bottom, split, top := BlockCount(size), (offset + |buf|) / 4096, (offset + |buf|) % 4096, BlockCount(newSize) - 1;
    ShiftedOld(base, s1, if split == 0 then bottom - 1 else bottom, top, |buf| / 4096, |buf| % 4096, n);
    forall p | 0 <= p < 4096 * n ensures ByteAt(s2, p) == ByteAt(base, p) {
      assert Data(s1, p / 4096) == Data(base, p / 4096);
    }
  }

  /** The first two phases: the bytes from offset on are moved up. */
  method MakeRoom(fs: Volume, ptr: seq<nat>, size: nat, offset: nat, buf: seq<byte>, newSize: nat, ghost t: Tree)
    returns (ok: bool, ptr': seq<nat>, c: Tally, ghost t': Tree, ghost s1: Snap)
    requires fs.BlocksReady() && Good(Now(fs, ptr, t, 0)) && 0 < |buf| && offset + |buf| <= newSize <= MAX_SIZE
    modifies fs`disk, fs.blocks
    ensures 0 < BlockCount(newSize) <= MAX_FILE_BLOCKS
    ensures !ok ==> fs.blocks.superFree < 4
    ensures fs.BlocksReady() && Tallied(old(Now(fs, ptr, t, 0)), Now(fs, ptr', t', 0), offset / 4096, BlockCount(newSize) - 1, c)
    ensures ok ==> MovedUp(old(Now(fs, ptr, t, 0)), s1, Now(fs, ptr', t', 0), offset, |buf|, BlockCount(newSize) - 1)
    ensures old(Solid1(Now(fs, ptr, t, 0), size, offset, |buf|, newSize)) ==>
              && Fresh(c, BlockCount(size))
              && (ok ==> Filling(Now(fs, ptr', t', 0), c, BlockCount(size), Max((offset + |buf|) / 4096, BlockCount(size)), offset, BlockCount(newSize) - 1))
              && (!ok ==> Halted(old(Now(fs, ptr, t, 0)), Now(fs, ptr', t', 0), size, offset, buf))
              && (!ok ==> old(fs.blocks.superFree) + |t| < Footprint(BlockCount(newSize)))
  {
    hide Good, Tallied, Shifted, SplitBytes, FileSame, Slot, Data, IsMapped, BlockCount, Volume.BlocksReady,
      Dense, Down, OldKept, Filling, FillArgs, Overrun, Refused, Fresh, Halted, Solid1, Footprint, Weight, Spans;
    ghost var base := Now(fs, ptr, t, 0);
    ShiftBounds(offset, |buf|, newSize);
    var top, bottom, split := BlockCount(newSize) - 1, (offset + |buf|) / 4096, (offset + |buf|) % 4096;
    ghost var n, solid := BlockCount(size), Solid1(base, size, offset, |buf|, newSize);
    if solid { DenseArgs(base, size, offset, |buf|, newSize); }
    ok, ptr', c, t' := ShiftUp(fs, ptr, top, bottom, split, |buf| / 4096, |buf| % 4096, t, base, offset / 4096, n);
    s1 := Now(fs, ptr', t', 0);
    if !ok {
      if solid { HaltedEarly(base, s1, size, offset, buf, newSize, if split == 0 then bottom else bottom + 1); }
      return;
    }
    if split != 0 {
      ghost var c1 := c;
      ok, ptr', c, t' := FillSplit(fs, ptr', offset, bottom, split, c, t', base, offset / 4096, top);
      if !ok {
        if solid { HaltedSplit(base, s1, Now(fs, ptr', t', 0), c, size, offset, buf, newSize); }
        return;
      }
      if solid { DownSplit(s1, Now(fs, ptr', t', 0), c1, c, n, bottom, top); }
    }
    if solid {
      DownFills(Now(fs, ptr', t', 0), c, size, offset, |buf|, n, bottom, top);
      DownFresh(Now(fs, ptr', t', 0), c, n, bottom - 1, top);
    }
  }

  /** The three phases of insert_in_inode. */
  method InsertBlocks(fs: Volume, ptr: seq<nat>, size: nat, offset: nat, buf: seq<byte>, newSize: nat, ghost t: Tree)
    returns (ok: bool, ptr': seq<nat>, c: Tally, ghost t': Tree, ghost s1: Snap, ghost s2: Snap)
    requires fs.BlocksReady() && Good(Now(fs, ptr, t, 0)) && 0 < |buf| && offset + |buf| <= newSize <= MAX_SIZE
    modifies fs`disk, fs.blocks
    ensures 0 < BlockCount(newSize) <= MAX_FILE_BLOCKS
    ensures !ok ==> fs.blocks.superFree < 4
    ensures fs.BlocksReady() && Tallied(old(Now(fs, ptr, t, 0)), Now(fs, ptr', t', 0), offset / 4096, BlockCount(newSize) - 1, c)
    ensures |c.unwind| <= BlockCount(newSize) - 1 - offset / 4096 + 1
    ensures ok ==> Phases(old(Now(fs, ptr, t, 0)), s1, s2, Now(fs, ptr', t', 0), offset, buf, BlockCount(newSize) - 1, size)
    ensures old(Solid1(Now(fs, ptr, t, 0), size, offset, |buf|, newSize)) ==>
              && Fresh(c, BlockCount(size))
              && (ok <==> old(fs.blocks.superFree) + |t| >= Footprint(BlockCount(newSize)))
              && (!ok ==> Halted(old(Now(fs, ptr, t, 0)), Now(fs, ptr', t', 0), size, offset, buf))
  {
    hide Good, Tallied, MovedUp, Copying, LowEdge, HighEdge, Clean, BlockCount, Volume.BlocksReady,
      Filling, FillArgs, Overrun, Fresh, Halted, Solid1, Footprint, Weight;
    ghost var base := Now(fs, ptr, t, 0);
    ShiftBounds(offset, |buf|, newSize);
    var top, bottom := BlockCount(newSize) - 1, (offset + |buf|) / 4096;
    ghost var n, solid := BlockCount(size), Solid1(base, size, offset, |buf|, newSize);
    ghost var m := Max(bottom, n);
    ok, ptr', c, t', s1 := MakeRoom(fs, ptr, size, offset, buf, newSize, t);
    s2 := Now(fs, ptr', t', 0);
    BufferFits(base, s2, offset / 4096, top, c);
    if !ok { return; }
    if solid { DenseArgs(base, size, offset, |buf|, newSize); }
    ok, ptr', c, t' := CopyBuf(fs, ptr', offset, buf, size, c, t', base, top, n, m);
    ghost var s := Now(fs, ptr', t', 0);
    BufferFits(base, s, offset / 4096, top, c);
    if solid {
      if ok { AllFitted(base, s, c, n, m, offset + |buf|, offset / 4096, top); } else { HaltedLate(base, s1, s2, s, size, offset, buf, newSize); }
    }
  }

  lemma BufferFits(base: Snap, s: Snap, lo: nat, hi: nat, c: Tally)
    requires Tallied(base, s, lo, hi, c) && lo <= hi + 1
    ensures |c.unwind| <= hi - lo + 1
  {
    UnwindFits(c.unwind, lo, hi);
  }

  /**
   * What a failed insert leaves of a file without holes: the file as it was, if the blocks behind the end of buf could
   * not be taken; otherwise buf has overwritten the file from offset up to its old end.
   */
  ghost predicate CutShort(was: seq<byte>, now: seq<byte>, offset: nat, buf: seq<byte>, early: bool) {
    if early then now == was
    else
      && BlockCount(|was|) < (offset + |buf|) / 4096 && offset <= |was| <= offset + |buf|
      && now == was[..offset] + buf[..|was| - offset]
  }

  lemma HaltedBytes(base: Snap, s: Snap, s': Snap, bytes: seq<byte>, offset: nat, buf: seq<byte>)
    requires |bytes| + |buf| <= MAX_SIZE && Holding(base, bytes, |bytes|) && offset <= |bytes| && HoleFree(base, |bytes|)
    requires Halted(base, s, |bytes|, offset, buf) && OldKept(s, s', BlockCount(|bytes|))
    ensures HoleFree(s', |bytes|)
    ensures CutShort(bytes, FileBytes(s', |bytes|), offset, buf, base.free + |base.t| < Reserve(|bytes|, offset, |buf|))
  {
    hide Data, IsMapped, BlockCount, Reserve;
    var size := |bytes|;
    BlockCountIs(size);
    var early := base.free + |base.t| < Reserve(size, offset, |buf|);
    var want := if early then bytes else bytes[..offset] + buf[..size - offset];
    forall p | 0 <= p < size ensures ByteAt(s', p) == want[p] {
      assert Data(s', p / 4096) == Data(s, p / 4096);
      assert ByteAt(s', p) == ByteAt(s, p);
      assert ByteAt(base, p) == bytes[p];
    }
    BytesUnique(s', want);
  }

  /** insert_in_inode once the sizes have been checked. */
  method InsertInto(fs: Volume, n: nat, buf: seq<byte>, offset: nat, newSize: nat) returns (ok: bool)
    requires Valid(fs) && n in fs.trees && fs.itab[n].kind != Symlink && 0 < |buf|
    requires newSize == (if offset > fs.itab[n].size then offset else fs.itab[n].size) + |buf| <= MAX_SIZE
    modifies fs`disk, fs`itab, fs`trees, fs.blocks
    ensures Valid(fs) && ElseSame(old(View(fs)), View(fs), n) && SameFile(fs, n, old(fs.itab[n]))
    ensures fs.itab[n].size == if ok then newSize else old(fs.itab[n].size)
    ensures 8 * fs.blocks.superFree + fs.itab[n].sectors == old(8 * fs.blocks.superFree + fs.itab[n].sectors)
    ensures !ok ==> old(fs.blocks.superFree) < 4 * (BlockCount(newSize) - offset / 4096 + 1)
    ensures ok && offset <= old(fs.itab[n].size) && old(Solid(fs, n)) ==>
              Solid(fs, n) && Contents(View(fs), n) == old(Contents(View(fs), n))[..offset] + buf + old(Contents(View(fs), n))[offset..]
    ensures offset <= old(fs.itab[n].size) && old(Solid(fs, n)) ==>
              (ok <==> old(fs.blocks.superFree) + Footprint(BlockCount(old(fs.itab[n].size))) >= Footprint(BlockCount(newSize)))
    ensures !ok && offset <= old(fs.itab[n].size) && old(Solid(fs, n)) ==>
              Solid(fs, n) && CutShort(old(Contents(View(fs), n)), Contents(View(fs), n), offset, buf,
                old(fs.blocks.superFree) + Footprint(BlockCount(old(fs.itab[n].size))) < Reserve(old(fs.itab[n].size), offset, |buf|))
  {
    hide Solid1, Fresh, OldKept, Halted, Footprint, Weight, Reserve, CutShort, Spans;
    hide VolOK, ElseSame, Good, Tallied, Phases, HoleFree, OthersKept, BlockCount, Contents, FileBytes, Holding, Data, Slot, IsMapped, Volume.BlocksReady, Bitmap.Valid;
    Begin(fs, n);
    ghost var v := View(fs);
    var ino := fs.itab[n];
    ghost var base := Now(fs, ino.ptr, fs.trees[n], 0);
    ghost var solid := offset <= ino.size && HoleFree(base, ino.size);
    if solid { SolidArgs(base, ino.size, offset, |buf|, newSize); }
    var ptr, c;
    ghost var t, s1, s2;
    ok, ptr, c, t, s1, s2 := InsertBlocks(fs, ino.ptr, ino.size, offset, buf, newSize, fs.trees[n]);
    ghost var s := Now(fs, ptr, t, 0);
    TallyGood(base, s, offset / 4096, BlockCount(newSize) - 1, c);
    if !ok {
      var sectors;
      ghost var halted := s;
      ptr, sectors, t := UnwindInsert(fs, ptr, ino.sectors, c, t, base, offset / 4096, BlockCount(newSize) - 1, BlockCount(ino.size));
      s := Now(fs, ptr, t, 0);
      var ino' := ino.(sectors := sectors, ptr := ptr);
      Finish(v, n, base, s, ino');
      if solid { HaltedContents(v, n, base, halted, s, offset, buf); }
      SetInode(fs, n, ino', t);
      assert View(fs) == Seat(v, n, s, ino');
      return;
    }
    var ino' := ino.(size := newSize, sectors := ino.sectors + (c.alloc - c.free) * 8, ptr := ptr);
    InsertDone(v, n, base, s1, s2, s, offset, buf, newSize, c, ino');
    SetInode(fs, n, ino', t);
    assert View(fs) == Seat(v, n, s, ino');
  }

  lemma SolidArgs(base: Snap, size: nat, offset: nat, f: nat, newSize: nat)
    requires Good(base) && HoleFree(base, size) && offset <= size <= MAX_SIZE && 0 < f && newSize == size + f <= MAX_SIZE
    requires forall i :: 0 <= i < MAX_FILE_BLOCKS && IsMapped(base, i) ==> i < BlockCount(size)
    ensures Solid1(base, size, offset, f, newSize) && |base.t| == Footprint(BlockCount(size))
  {
    hide Good, Weight, Spans, HoleFree, BlockCount;
    SolidFootprint(base, size);
  }

  lemma HaltedContents(v: Vol, n: nat, base: Snap, s: Snap, s': Snap, offset: nat, buf: seq<byte>)
    requires n in v.trees && n in v.itab && v.itab[n].size <= MAX_SIZE && base.t == v.trees[n] && base.disk == v.disk
    requires offset <= v.itab[n].size && HoleFree(base, v.itab[n].size) && v.itab[n].size + |buf| <= MAX_SIZE
    requires Halted(base, s, v.itab[n].size, offset, buf) && OldKept(s, s', BlockCount(v.itab[n].size))
    ensures HoleFree(s', v.itab[n].size)
    ensures CutShort(Contents(v, n), FileBytes(s', v.itab[n].size), offset, buf, base.free + |base.t| < Reserve(v.itab[n].size, offset, |buf|))
  {
    hide HoleFree, Halted, OldKept, CutShort, Reserve, BlockCount, Contents, FileBytes;
    ContentsHeld(v, n, base);
    HaltedBytes(base, s, s', Contents(v, n), offset, buf);
  }

  /** insert_in_inode. */
  method Insert(fs: Volume, n: nat, buf: seq<byte>, offset: nat) returns (ok: bool)
    requires Valid(fs) && |buf| < 0x1_0000_0000 && offset < 0x1_0000_0000
    requires InTable(fs, n) && buf != [] ==> n in fs.trees && fs.itab[n].kind != Symlink
    requires InTable(fs, n) && buf != [] ==>
               || offset + |buf| >= 0x1_0000_0000 || fs.itab[n].size + |buf| >= 0x1_0000_0000
               || (offset + |buf| <= MAX_SIZE && fs.itab[n].size + |buf| <= MAX_SIZE)
    modifies fs`disk, fs`itab, fs`trees, fs.blocks
    ensures Valid(fs) && ElseSame(old(View(fs)), View(fs), n)
    ensures buf == [] ==> ok && View(fs) == old(View(fs))
    ensures buf != [] && !InTable(fs, n) ==> !ok && View(fs) == old(View(fs))
    ensures InTable(fs, n) && buf != [] ==> SameFile(fs, n, old(fs.itab[n]))
    ensures InTable(fs, n) && buf != [] && ok ==> fs.itab[n].size == (if offset > old(fs.itab[n].size) then offset else old(fs.itab[n].size)) + |buf|
    ensures InTable(fs, n) && buf != [] && !ok ==> fs.itab[n].size == old(fs.itab[n].size)
    ensures InTable(fs, n) && buf != [] ==>
              8 * fs.blocks.superFree + fs.itab[n].sectors == old(8 * fs.blocks.superFree + fs.itab[n].sectors)
    ensures InTable(fs, n) && buf != [] && !ok && offset + |buf| <= MAX_SIZE && fs.itab[n].size + |buf| <= MAX_SIZE ==>
              old(fs.blocks.superFree) < 4 * (BlockCount((if offset > fs.itab[n].size then offset else fs.itab[n].size) + |buf|) - offset / 4096 + 1)
    ensures ok && buf != [] && offset <= old(fs.itab[n].size) && old(Solid(fs, n)) ==>
              Solid(fs, n) && Contents(View(fs), n) == old(Contents(View(fs), n))[..offset] + buf + old(Contents(View(fs), n))[offset..]
    ensures InTable(fs, n) && buf != [] && offset <= old(fs.itab[n].size) && old(Solid(fs, n)) && old(fs.itab[n].size) + |buf| <= MAX_SIZE ==>
              (ok <==> old(fs.blocks.superFree) + Footprint(BlockCount(old(fs.itab[n].size))) >= Footprint(BlockCount(old(fs.itab[n].size) + |buf|)))
    ensures InTable(fs, n) && buf != [] && offset <= old(fs.itab[n].size) && old(Solid(fs, n)) && old(fs.itab[n].size) + |buf| <= MAX_SIZE && !ok ==>
              Solid(fs, n) && CutShort(old(Contents(View(fs), n)), Contents(View(fs), n), offset, buf,
                old(fs.blocks.superFree) + Footprint(BlockCount(old(fs.itab[n].size))) < Reserve(old(fs.itab[n].size), offset, |buf|))
  {
    hide Footprint, Reserve, CutShort;
    hide Valid, VolOK, ElseSame, Solid, Contents, Good, BlockCount, IsMapped, Volume.BlocksReady;
    SameElse(View(fs), n);
    if buf == [] { return true; }
    if !InTable(fs, n) { return false; }
    Begin(fs, n);
    var size := fs.itab[n].size;
    if (offset + |buf|) % 0x1_0000_0000 < offset || (size + |buf|) % 0x1_0000_0000 < size {
      return false;
    }
    var newSize := if offset + |buf| > size + |buf| then offset + |buf| else size + |buf|;
    ok := InsertInto(fs, n, buf, offset, newSize);
  }

  /** Three blocks at the start of a one-byte file, with one or two blocks free: the insert fails, and the byte is gone. */
  method LosesByte(fs: Volume, n: nat, buf: seq<byte>) returns (ok: bool)
    requires Valid(fs) && Solid(fs, n) && fs.itab[n].kind != Symlink && fs.itab[n].size == 1 && |buf| == 12288
    requires fs.blocks.superFree == 1 || fs.blocks.superFree == 2
    modifies fs`disk, fs`itab, fs`trees, fs.blocks
    ensures !ok && Solid(fs, n) && fs.itab[n].size == 1 && Contents(View(fs), n) == [buf[0]]
  {
    hide Valid, VolOK, ElseSame, Contents, HoleFree, Footprint, Reserve, BlockCount, Good, IsMapped, Slot, FileBytes;
    Begin(fs, n);
    ThreeBlocks();
    ok := Insert(fs, n, buf, 0);
  }

  lemma ThreeBlocks()
    ensures Footprint(BlockCount(1)) == 1 && Footprint(BlockCount(1 + 12288)) == 4 && Reserve(1, 0, 12288) == 2
  {
    hide Footprint, Ways, BlockCount;
    FootprintIs(1);
    FootprintIs(4);
    FirstAndFourth();
    BlockCountIs(1);
    BlockCountIs(1 + 12288);
  }

  lemma FirstAndFourth()
    ensures Ways(1, 3, 4) == {Root(0), Root(3)}
  {
    hide Above, Path;
    AboveIs(0);
    AboveIs(3);
    forall k | k in Ways(1, 3, 4) ensures k == Root(0) || k == Root(3) {
      var j: nat :| j < MAX_FILE_BLOCKS && Within(j, 1, 3, 4) && k in Above(Path(j));
    }
    assert Within(0, 1, 3, 4) && Within(3, 1, 3, 4);
  }

  lemma InsertDone(v: Vol, n: nat, base: Snap, s1: Snap, s2: Snap, s: Snap, offset: nat, buf: seq<byte>, newSize: nat, c: Tally, ino: Inode)
    requires VolOK(v) && n in v.trees && n in v.itab && base == Part(v, n, v.itab[n].ptr, base.free, 0) && v.itab[n].kind != Symlink
    requires 0 < |buf| && offset + |buf| <= newSize <= MAX_SIZE && 0 < BlockCount(newSize) <= MAX_FILE_BLOCKS
    requires v.itab[n].size <= MAX_SIZE && v.itab[n].sectors == 8 * |base.t| && v.itab[n].size <= newSize
    requires forall i :: 0 <= i < MAX_FILE_BLOCKS && IsMapped(base, i) ==> i < BlockCount(v.itab[n].size)
    requires Tallied(base, s, offset / 4096, BlockCount(newSize) - 1, c)
    requires Phases(base, s1, s2, s, offset, buf, BlockCount(newSize) - 1, v.itab[n].size)
    requires ino == v.itab[n].(size := newSize, sectors := v.itab[n].sectors + (c.alloc - c.free) * 8, ptr := s.ptr)
    ensures VolOK(Seat(v, n, s, ino)) && ElseSame(v, Seat(v, n, s, ino), n) && ino.sectors == 8 * |s.t|
    ensures offset <= v.itab[n].size && newSize == v.itab[n].size + |buf| && HoleFree(base, v.itab[n].size) ==>
              && HoleFree(s, newSize)
              && Contents(Seat(v, n, s, ino), n) == Contents(v, n)[..offset] + buf + Contents(v, n)[offset..]
  {
    hide VolOK, ElseSame, Good, Phases, HoleFree, OthersKept, Contents, FileBytes, Holding, Data, Slot, IsMapped;
    BlockCountIs(newSize);
    BlockCountIs(v.itab[n].size);
    Finish(v, n, base, s, ino);
    if offset <= v.itab[n].size && newSize == v.itab[n].size + |buf| && HoleFree(base, v.itab[n].size) {
      var bytes := Contents(v, n);
      ContentsHeld(v, n, base);
      InsertedBytes(base, s1, s2, s, offset, buf, BlockCount(newSize) - 1, v.itab[n].size, bytes);
      InsertedHoleFree(base, s1, s2, s, offset, buf, BlockCount(newSize) - 1, v.itab[n].size);
      BytesUnique(s, bytes[..offset] + buf + bytes[offset..]);
    }
  }

  lemma ContentsHeld(v: Vol, n: nat, base: Snap)
    requires n in v.trees && n in v.itab && v.itab[n].size <= MAX_SIZE && base.t == v.trees[n] && base.disk == v.disk
    ensures Holding(base, Contents(v, n), |Contents(v, n)|)
  {
    SameBytes(v, n, base, v.itab[n].size);
  }
}
