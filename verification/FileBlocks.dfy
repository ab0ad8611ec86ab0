/**
 * map_file_block as the file operations see it: a partial map from file block numbers to disk blocks, with the
 * pointer blocks out of sight.
 */
module FileBlocks {
  import opened Blocks
  import opened BlockTree
  import opened Bitmaps
  import opened Volumes
  import opened MapFileBlock
  import opened FreeFileBlock

  /** The disk block of file block i; 0 is a hole. */
  ghost function Slot(t: Tree, i: nat): nat
    requires i < MAX_FILE_BLOCKS
  {
    At(t, Path(i))
  }

  ghost predicate Good(s: Snap) {
    Sound(s) && NoEmpty(s.t)
  }

  /** The block is allocated, but not to this file. */
  ghost predicate Foreign(s: Snap, b: nat) {
    b in s.used && !Holds(s.t, b)
  }

  /** The allocated blocks of everything else are the same and hold the same bytes. */
  ghost predicate OthersKept(s: Snap, s': Snap) {
    && |s'.disk| == |s.disk|
    && (forall b: nat :: Foreign(s, b) <==> Foreign(s', b))
    && (forall b: nat :: Foreign(s, b) && b < |s.disk| ==> s'.disk[b] == s.disk[b])
  }

  /** The file's block map is m' where it was m at every file block but i. */
  ghost predicate MapSame(t: Tree, t': Tree, i: nat) {
    forall j :: 0 <= j < MAX_FILE_BLOCKS && j != i ==> Slot(t', j) == Slot(t, j)
  }

  /** Data blocks present on both sides hold the same bytes, except file block i's. */
  ghost predicate BytesSame(s: Snap, s': Snap, i: nat) {
    |s'.disk| == |s.disk| &&
    forall j :: 0 <= j < MAX_FILE_BLOCKS && j != i && 0 < Slot(s.t, j) < |s.disk| && Slot(s'.t, j) == Slot(s.t, j) ==>
      s'.disk[Slot(s.t, j)] == s.disk[Slot(s.t, j)]
  }

  lemma SlotSound(s: Snap, i: nat)
    requires Sound(s) && i < MAX_FILE_BLOCKS
    ensures Slot(s.t, i) != 0 ==> Slot(s.t, i) < |s.disk| && Slot(s.t, i) in s.used
    ensures Slot(s.t, i) != 0 <==> Path(i) in s.t
  {
  }

  lemma SlotsDistinct(s: Snap, i: nat, j: nat)
    requires Sound(s) && i < MAX_FILE_BLOCKS && j < MAX_FILE_BLOCKS && i != j && Slot(s.t, i) != 0
    ensures Slot(s.t, i) != Slot(s.t, j)
  {
    if Path(i) == Path(j) { PathInjective(i, j); }
  }

  /** LOOKUP mode. */
  method Lookup(fs: Volume, ptr: seq<nat>, i: nat, ghost t: Tree, ghost cnt: int) returns (st: Status, out: nat)
    requires Sound(Now(fs, ptr, t, cnt)) && i < MAX_FILE_BLOCKS
    ensures st != BlockError && (st == Empty <==> Slot(t, i) == 0) && out == Slot(t, i)
  {
    hide Sound, TreeShape, Ptrs;
    ghost var s := Now(fs, ptr, t, cnt);
    SlotSound(s, i);
    if i < 12 {
      RootAt(s, i);
      return if ptr[i] == 0 then Empty else Mapped, ptr[i];
    } else if i < 1036 {
      st, out := LookupSingly(fs, ptr, i - 12, t, cnt);
    } else if i < 1049612 {
      st, out := LookupDoubly(fs, ptr, i - 1036, t, cnt);
    } else {
      st, out := LookupTriply(fs, ptr, i - 1049612, t, cnt);
    }
  }

  method LookupSingly(fs: Volume, ptr: seq<nat>, rel: nat, ghost t: Tree, ghost cnt: int) returns (st: Status, out: nat)
    requires Sound(Now(fs, ptr, t, cnt)) && rel < 1024
    ensures st != BlockError && (st == Empty <==> Sub(Root(12), rel) !in t) && out == At(t, Sub(Root(12), rel))
  {
    hide Sound, TreeShape, Ptrs;
    ghost var s := Now(fs, ptr, t, cnt);
    RootAt(s, 12);
    if Sub(Root(12), rel) in t { ParentIn(s, Sub(Root(12), rel)); }
    if ptr[12] == 0 { return Empty, 0; }
    EntryAt(s, Root(12), rel);
    var single := fs.ReadPtrs(ptr[12]);
    return if single[rel] == 0 then Empty else Mapped, single[rel];
  }

  method LookupDoubly(fs: Volume, ptr: seq<nat>, rel: nat, ghost t: Tree, ghost cnt: int) returns (st: Status, out: nat)
    requires Sound(Now(fs, ptr, t, cnt)) && rel < 1048576
    ensures var k := Sub(Sub(Root(13), rel / 1024), rel % 1024);
            st != BlockError && (st == Empty <==> k !in t) && out == At(t, k)
  {
    hide Sound, TreeShape, Ptrs;
    ghost var s := Now(fs, ptr, t, cnt);
    var a, b := rel / 1024, rel % 1024;
    ghost var k1, k0 := Sub(Root(13), a), Sub(Sub(Root(13), a), b);
    RootAt(s, 13);
    if k0 in t { ParentIn(s, k0); }
    if k1 in t { ParentIn(s, k1); }
    if ptr[13] == 0 { return Empty, 0; }
    EntryAt(s, Root(13), a);
    var double := fs.ReadPtrs(ptr[13]);
    if double[a] == 0 { return Empty, 0; }
    EntryAt(s, k1, b);
    var single := fs.ReadPtrs(double[a]);
    return if single[b] == 0 then Empty else Mapped, single[b];
  }

  method LookupTriply(fs: Volume, ptr: seq<nat>, rel: nat, ghost t: Tree, ghost cnt: int) returns (st: Status, out: nat)
    requires Sound(Now(fs, ptr, t, cnt)) && rel < 1073741824
    ensures var k := Sub(Sub(Sub(Root(14), rel / 1048576), (rel / 1024) % 1024), rel % 1024);
            st != BlockError && (st == Empty <==> k !in t) && out == At(t, k)
  {
    hide Sound, TreeShape, Ptrs;
    ghost var s := Now(fs, ptr, t, cnt);
    var a, b, c := rel / 1048576, (rel / 1024) % 1024, rel % 1024;
    ghost var k2 := Sub(Root(14), a);
    ghost var k1, k0 := Sub(k2, b), Sub(Sub(k2, b), c);
    RootAt(s, 14);
    if k0 in t { ParentIn(s, k0); }
    if k1 in t { ParentIn(s, k1); }
    if k2 in t { ParentIn(s, k2); }
    if ptr[14] == 0 { return Empty, 0; }
    EntryAt(s, Root(14), a);
    var triple := fs.ReadPtrs(ptr[14]);
    if triple[a] == 0 { return Empty, 0; }
    EntryAt(s, k2, b);
    var double := fs.ReadPtrs(triple[a]);
    if double[b] == 0 { return Empty, 0; }
    EntryAt(s, k1, c);
    var single := fs.ReadPtrs(double[b]);
    return if single[c] == 0 then Empty else Mapped, single[c];
  }

  /** A call in ALLOC mode that succeeds. */
  ghost predicate Allocs(s: Snap, s': Snap, i: nat, out: nat)
    requires i < MAX_FILE_BLOCKS
  {
    && Good(s') && OthersKept(s, s') && MapSame(s.t, s'.t, i) && BytesSame(s, s', MAX_FILE_BLOCKS)
    && 0 < out == Slot(s'.t, i) < |s'.disk|
    && (if Slot(s.t, i) != 0 then s'.t == s.t && out == Slot(s.t, i) else out !in s.used)
    && s'.cnt - s.cnt == |s'.t| - |s.t| == s.free - s'.free && Extends(s'.t, s.t)
    && s.free == s'.free + Missing(s.t, Path(i))
  }

  /** A call in ALLOC mode that finds the disk full. */
  ghost predicate AllocFails(s: Snap, s': Snap, i: nat)
    requires i < MAX_FILE_BLOCKS
  {
    && Good(s') && s' == s.(disk := s'.disk) && OthersKept(s, s') && BytesSame(s, s', MAX_FILE_BLOCKS)
    && Missing(s.t, Path(i)) > s.free
  }

  lemma ReachedMap(s: Snap, s': Snap, i: nat)
    requires i < MAX_FILE_BLOCKS && Good(s) && Reached(s, s', Path(i))
    ensures MapSame(s.t, s'.t, i)
    ensures Slot(s.t, i) != 0 ==> s'.t == s.t
  {
    forall j | 0 <= j < MAX_FILE_BLOCKS && j != i ensures Slot(s'.t, j) == Slot(s.t, j) {
      if Path(j) in s'.t && Path(j) !in s.t {
        NotOnOwnPath(Path(i), Path(j));
        OnPathData(Path(j), Path(i));
        PathInjective(i, j);
      }
    }
    if Slot(s.t, i) != 0 {
      forall x | x in s'.t ensures x in s.t {
        if x !in s.t { PathOccupied(s.t, |s.disk|, x, Path(i)); }
      }
    }
  }

  lemma OnPathData(x: Key, k: Key)
    requires OnPath(x, k) && Height(x) == Height(k)
    ensures x == k
  {
    if x != k { OnPathHigher(x, k); }
  }

  lemma DataNotPointer(s: Snap, i: nat)
    requires Sound(s) && i < MAX_FILE_BLOCKS && Slot(s.t, i) != 0
    ensures Slot(s.t, i) !in PtrBlocks(s.t)
  {
  }

  lemma KeptBytes(s: Snap, s': Snap)
    requires Sound(s) && DataKept(s, s')
    ensures BytesSame(s, s', MAX_FILE_BLOCKS)
  {
    forall j | 0 <= j < MAX_FILE_BLOCKS && 0 < Slot(s.t, j) < |s.disk|
      ensures s'.disk[Slot(s.t, j)] == s.disk[Slot(s.t, j)]
    {
      DataNotPointer(s, j);
    }
  }

  lemma GrewOthers(s: Snap, s': Snap)
    requires Sound(s) && Sound(s') && Grew(s, s')
    ensures OthersKept(s, s')
  {
    forall b: nat ensures Foreign(s, b) <==> Foreign(s', b) {
      if Holds(s.t, b) {
        var k :| k in s.t && s.t[k] == b;
        assert s'.t[k] == b;
      }
    }
    forall b: nat | Foreign(s, b) && b < |s.disk| ensures s'.disk[b] == s.disk[b] {
      assert b !in PtrBlocks(s.t);
    }
  }

  lemma AllocatedAllocs(s: Snap, s': Snap, i: nat, out: nat)
    requires i < MAX_FILE_BLOCKS && Good(s) && Allocated(s, s', Path(i), out)
    ensures Allocs(s, s', i, out)
  {
    hide TreeShape;
    ReachedMap(s, s', i);
    GrewOthers(s, s');
    KeptBytes(s, s');
    SlotSound(s', i);
    ValidHere(s', Path(i));
  }

  lemma FailedAllocs(s: Snap, s': Snap, i: nat)
    requires i < MAX_FILE_BLOCKS && Good(s) && OutOfSpace(s, s', Path(i))
    ensures AllocFails(s, s', i)
  {
    KeptBytes(s, s');
    forall b: nat | Foreign(s, b) && b < |s.disk| ensures s'.disk[b] == s.disk[b] {
      assert b !in PtrBlocks(s.t);
    }
  }

  /** FREE mode on a mapped file block, followed by free_block on the block it yields. */
  ghost predicate Releases(s: Snap, s': Snap, i: nat)
    requires i < MAX_FILE_BLOCKS
  {
    && Good(s') && OthersKept(s, s') && MapSame(s.t, s'.t, i) && BytesSame(s, s', i)
    && Slot(s.t, i) != 0 && Slot(s'.t, i) == 0 && Extends(s.t, s'.t)
    && s'.cnt - s.cnt == |s.t| - |s'.t| == s'.free - s.free
  }

  lemma FreedMap(s: Snap, s': Snap, i: nat)
    requires i < MAX_FILE_BLOCKS && Shrank(s, s', Path(i))
    ensures MapSame(s.t, s'.t, i) && Slot(s'.t, i) == 0
  {
    forall j | 0 <= j < MAX_FILE_BLOCKS && j != i ensures Slot(s'.t, j) == Slot(s.t, j) {
      if Path(j) in s.t && Path(j) !in s'.t {
        OnPathData(Path(j), Path(i));
        PathInjective(i, j);
      }
    }
  }

  lemma FreedOthers(s: Snap, s': Snap, k: Key)
    requires Sound(s) && Shrank(s, s', k)
    ensures OthersKept(s, s'.(used := s'.used - {s.t[k]}))
  {
    hide TreeShape, Sound, OnPath, Shrank;
    ShrankDisk(s, s', k);
    var e := s'.(used := s'.used - {s.t[k]});
    forall b: nat ensures Foreign(s, b) <==> Foreign(e, b) { FreedForeign(s, s', k, b); }
    forall b: nat | Foreign(s, b) && b < |s.disk| ensures s'.disk[b] == s.disk[b] { ForeignKept(s, s', k, b); }
  }

  lemma ShrankDisk(s: Snap, s': Snap, k: Key)
    requires Shrank(s, s', k)
    ensures |s'.disk| == |s.disk| && k in s.t
  {
    hide Sound, OnPath;
  }

  lemma ForeignKept(s: Snap, s': Snap, k: Key, b: nat)
    requires Shrank(s, s', k) && Foreign(s, b) && b < |s.disk|
    ensures |s'.disk| == |s.disk| && s'.disk[b] == s.disk[b]
  {
    hide Sound, OnPath;
    assert b !in PtrBlocks(s.t);
  }

  lemma FreedForeign(s: Snap, s': Snap, k: Key, b: nat)
    requires Sound(s) && Shrank(s, s', k)
    ensures Foreign(s, b) <==> Foreign(s'.(used := s'.used - {s.t[k]}), b)
  {
    if Foreign(s, b) { ForeignStays(s, s', k, b); }
    if b in s'.used && b != s.t[k] && !Holds(s'.t, b) { WasForeign(s, s', k, b); }
  }

  lemma ForeignStays(s: Snap, s': Snap, k: Key, b: nat)
    requires Shrank(s, s', k) && Foreign(s, b)
    ensures b in s'.used && b != s.t[k] && !Holds(s'.t, b)
  {
    hide Sound, OnPath, DataKept;
    assert b in s'.used;
    forall x | x in s'.t ensures s'.t[x] != b { assert s.t[x] == s'.t[x]; }
  }

  lemma WasForeign(s: Snap, s': Snap, k: Key, b: nat)
    requires Shrank(s, s', k) && b in s'.used && b != s.t[k] && !Holds(s'.t, b)
    ensures Foreign(s, b)
  {
    hide Sound, OnPath, DataKept;
    forall x | x in s.t ensures s.t[x] != b {
      if x in s'.t { assert s'.t[x] == s.t[x]; }
    }
  }

  lemma FreedReleases(s: Snap, s': Snap, i: nat, out: nat)
    requires i < MAX_FILE_BLOCKS && Good(s) && Path(i) in s.t && Freed(s, s', Path(i), out)
    ensures Releases(s, s'.(used := s'.used - {out}, free := s'.free + 1), i)
  {
    FreedMap(s, s', i);
    FreedOthers(s, s', Path(i));
    KeptBytes(s, s');
    SlotSound(s, i);
    StillSound(s, s', Path(i));
  }

  lemma StillSound(s: Snap, s': Snap, k: Key)
    requires Sound(s) && Shrank(s, s', k)
    ensures Sound(s'.(used := s'.used - {s.t[k]}))
  {
    forall x | x in s'.t ensures s'.t[x] != s.t[k] {
      Distinct(s, x, k);
    }
  }

  lemma FreedPending(s: Snap, s': Snap, k: Key, out: nat)
    requires Sound(s) && k in s.t && Freed(s, s', k, out)
    ensures out in s'.used && out != 0
  {
  }

  // ----- the file as an array of blocks

  function ZeroBlock(): (b: Block)
    ensures forall i :: 0 <= i < 4096 ==> b[i] == 0
  {
    seq(4096, _ => 0)
  }

  /** The bytes of file block i; a hole reads as zeros. */
  ghost function Data(s: Snap, i: nat): Block
    requires i < MAX_FILE_BLOCKS
  {
    if 0 < Slot(s.t, i) < |s.disk| then s.disk[Slot(s.t, i)] else ZeroBlock()
  }

  ghost predicate IsMapped(s: Snap, i: nat)
    requires i < MAX_FILE_BLOCKS
  {
    Slot(s.t, i) != 0
  }

  /** The two files agree on every file block except i: same bytes, same holes. */
  ghost predicate FileSame(s: Snap, s': Snap, i: nat) {
    forall j :: 0 <= j < MAX_FILE_BLOCKS && j != i ==> Data(s', j) == Data(s, j) && IsMapped(s', j) == IsMapped(s, j)
  }

  /** A step of an operation on one file: the tree stays sound, other blocks stay put, no block is lost. */
  ghost predicate Step(s: Snap, s': Snap) {
    Good(s') && OthersKept(s, s') && s'.free + |s'.t| == s.free + |s.t|
  }

  lemma StepTrans(a: Snap, b: Snap, c: Snap)
    requires Step(a, b) && Step(b, c)
    ensures Step(a, c)
  {
  }

  lemma StepRefl(s: Snap)
    requires Good(s)
    ensures Step(s, s)
  {
  }

  lemma GoodSlot(s: Snap, i: nat)
    requires Good(s) && i < MAX_FILE_BLOCKS
    ensures Sound(s) && NoEmpty(s.t) && (Slot(s.t, i) != 0 ==> Slot(s.t, i) < |s.disk|)
  {
    SlotSound(s, i);
  }

  lemma HoleData(s: Snap, i: nat)
    requires i < MAX_FILE_BLOCKS && !IsMapped(s, i)
    ensures Data(s, i) == ZeroBlock()
  {
  }

  lemma AllocsView(s: Snap, s': Snap, i: nat, out: nat)
    requires i < MAX_FILE_BLOCKS && Good(s) && Allocs(s, s', i, out)
    ensures Step(s, s') && FileSame(s, s', i) && IsMapped(s', i)
    ensures IsMapped(s, i) ==> Data(s', i) == Data(s, i) && s'.t == s.t
  {
    forall j | 0 <= j < MAX_FILE_BLOCKS && (j == i ==> IsMapped(s, i)) ensures Data(s', j) == Data(s, j) {
      SlotSound(s, j);
    }
  }

  lemma AllocFailsView(s: Snap, s': Snap, i: nat)
    requires i < MAX_FILE_BLOCKS && Good(s) && AllocFails(s, s', i)
    ensures Step(s, s') && FileSame(s, s', MAX_FILE_BLOCKS)
  {
    forall j | 0 <= j < MAX_FILE_BLOCKS ensures Data(s', j) == Data(s, j) {
      SlotSound(s, j);
    }
  }

  lemma ReleasesView(s: Snap, s': Snap, i: nat)
    requires i < MAX_FILE_BLOCKS && Good(s) && Releases(s, s', i)
    ensures Step(s, s') && FileSame(s, s', i) && !IsMapped(s', i) && IsMapped(s, i)
  {
    forall j | 0 <= j < MAX_FILE_BLOCKS && j != i ensures Data(s', j) == Data(s, j) {
      SlotSound(s, j);
    }
  }

  /** Overwriting the data block of file block i. */
  lemma WriteView(s: Snap, s': Snap, i: nat, blk: Block)
    requires i < MAX_FILE_BLOCKS && Good(s) && IsMapped(s, i) && Slot(s.t, i) < |s.disk|
    requires s' == s.(disk := s.disk[Slot(s.t, i) := blk])
    ensures Step(s, s') && FileSame(s, s', i) && IsMapped(s', i) && Data(s', i) == blk
  {
    var b := Slot(s.t, i);
    SlotSound(s, i);
    DataNotPointer(s, i);
    forall k | k in s.t && Height(k) > 0 ensures Ptrs(s'.disk[s.t[k]]) == Ptrs(s.disk[s.t[k]]) {
      assert s.t[k] in PtrBlocks(s.t);
    }
    ShapeFrame(s.disk, s.ptr, s.t, s'.disk);
    forall j | 0 <= j < MAX_FILE_BLOCKS && j != i ensures Data(s', j) == Data(s, j) {
      SlotsDistinct(s, i, j);
    }
    assert Holds(s.t, b);
  }

  // ----- undoing allocations restores the very same tree

  /** Every occupied position lies on the way to an occupied data position. */
  lemma DataBelow(t: Tree, nblocks: nat, k: Key) returns (i: nat)
    requires Rooted(t, nblocks) && NoEmpty(t) && k in t
    ensures i < MAX_FILE_BLOCKS && Path(i) in t && OnPath(k, Path(i))
    decreases Height(k)
  {
    HeightBound(k);
    if Height(k) == 0 {
      PathIndex(k);
      i := Index(k);
    } else {
      assert HasChild(t, k);
      var j :| 0 <= j < 1024 && Sub(k, j) in t;
      i := DataBelow(t, nblocks, Sub(k, j));
      PathUp(k, Sub(k, j), Path(i));
    }
  }

  /** Releasing a file block that the base tree does not map keeps the base tree inside. */
  lemma BaseKept(base: Snap, s: Snap, s': Snap, i: nat)
    requires Good(base) && Good(s) && i < MAX_FILE_BLOCKS && Releases(s, s', i)
    requires Extends(s.t, base.t) && !IsMapped(base, i)
    ensures Extends(s'.t, base.t)
  {
    forall k | k in base.t ensures k in s'.t && s'.t[k] == base.t[k] {
      var d := DataBelow(base.t, |base.disk|, k);
      SlotSound(base, d);
      SlotSound(s, d);
      SlotSound(s', d);
      PathOccupied(s'.t, |s'.disk|, k, Path(d));
    }
  }

  /** A tree that contains the base tree and maps no more file blocks is the base tree. */
  lemma BaseRestored(base: Snap, s: Snap)
    requires Good(base) && Good(s) && Extends(s.t, base.t) && |s.disk| == |base.disk|
    requires forall j :: 0 <= j < MAX_FILE_BLOCKS && IsMapped(s, j) ==> IsMapped(base, j)
    ensures s.t == base.t && s.ptr == base.ptr
  {
    forall k | k in s.t ensures k in base.t {
      var d := DataBelow(s.t, |s.disk|, k);
      SlotSound(s, d);
      assert IsMapped(s, d);
      SlotSound(base, d);
      PathOccupied(base.t, |base.disk|, k, Path(d));
    }
  }

  lemma UsedRestored(base: Snap, s: Snap)
    requires Step(base, s) && Good(base) && s.t == base.t
    ensures s.used == base.used && s.free == base.free
  {
    forall b: nat ensures b in s.used <==> b in base.used {
      assert Foreign(s, b) <==> Foreign(base, b);
      if Holds(s.t, b) { var k :| k in s.t && s.t[k] == b; }
    }
  }

  // ----- map_file_block on the array of blocks

  /** ALLOC mode succeeded: file block i is mapped to `out` and the rest of the file is as before. */
  ghost predicate Grows(s: Snap, s': Snap, i: nat, out: nat)
    requires i < MAX_FILE_BLOCKS
  {
    && Step(s, s') && FileSame(s, s', i) && IsMapped(s', i) && 0 < out == Slot(s'.t, i) < |s'.disk|
    && (IsMapped(s, i) ==> Data(s', i) == Data(s, i) && s'.t == s.t)
    && Extends(s'.t, s.t) && s'.cnt - s.cnt == |s'.t| - |s.t|
    && s.free == s'.free + Missing(s.t, Path(i))
  }

  /** ALLOC mode failed: the way to file block i needs more blocks than are free, and nothing changed. */
  ghost predicate Stalls(s: Snap, s': Snap, i: nat)
    requires i < MAX_FILE_BLOCKS
  {
    && Step(s, s') && FileSame(s, s', MAX_FILE_BLOCKS) && s' == s.(disk := s'.disk)
    && Missing(s.t, Path(i)) > s.free
  }

  /** FREE mode and free_block: file block i is a hole now and the rest of the file is as before. */
  ghost predicate Clears(s: Snap, s': Snap, i: nat)
    requires i < MAX_FILE_BLOCKS
  {
    && Step(s, s') && FileSame(s, s', i) && IsMapped(s, i) && !IsMapped(s', i)
    && Extends(s.t, s'.t) && s'.cnt - s.cnt == |s.t| - |s'.t|
  }

  /** Overwriting file block i. */
  ghost predicate Writes(s: Snap, s': Snap, i: nat, blk: Block)
    requires i < MAX_FILE_BLOCKS
  {
    && Step(s, s') && FileSame(s, s', i) && IsMapped(s', i) && Data(s', i) == blk && s' == s.(disk := s'.disk)
  }

  /** ALLOC mode. */
  method Alloc(fs: Volume, ptr: seq<nat>, i: nat, cnt: int, ghost t: Tree)
    returns (ok: bool, out: nat, ptr': seq<nat>, cnt': int, ghost t': Tree)
    requires fs.BlocksReady() && Good(Now(fs, ptr, t, cnt)) && i < MAX_FILE_BLOCKS
    modifies fs`disk, fs.blocks
    ensures fs.BlocksReady()
    ensures !ok ==> Stalls(old(Now(fs, ptr, t, cnt)), Now(fs, ptr', t', cnt'), i)
    ensures ok ==> Grows(old(Now(fs, ptr, t, cnt)), Now(fs, ptr', t', cnt'), i, out)
  {
    hide Sound, NoEmpty, Allocated, OutOfSpace, Step, FileSame, OthersKept, BytesSame, MapSame, Data, Volume.BlocksReady;
    ghost var s := Now(fs, ptr, t, cnt);
    var st;
    if i < 12 {
      st, out, ptr', cnt', t' := AllocDirect(fs, ptr, i, cnt, t);
    } else if i < 1036 {
      st, out, ptr', cnt', t' := AllocSingly(fs, ptr, i, cnt, t);
    } else if i < 1049612 {
      st, out, ptr', cnt', t' := AllocDoubly(fs, ptr, i, cnt, t);
    } else {
      st, out, ptr', cnt', t' := AllocTriply(fs, ptr, i, cnt, t);
    }
    ghost var s' := Now(fs, ptr', t', cnt');
    if st == Mapped {
      AllocatedAllocs(s, s', i, out);
      AllocsView(s, s', i, out);
    } else {
      FailedAllocs(s, s', i);
      AllocFailsView(s, s', i);
    }
    ok := st == Mapped;
  }

  /** FREE mode, and free_block on the block it yields. */
  method Release(fs: Volume, ptr: seq<nat>, i: nat, cnt: int, ghost t: Tree)
    returns (freed: bool, ptr': seq<nat>, cnt': int, ghost t': Tree)
    requires fs.BlocksReady() && Good(Now(fs, ptr, t, cnt)) && i < MAX_FILE_BLOCKS
    modifies fs`disk, fs.blocks
    ensures fs.BlocksReady() && freed == old(IsMapped(Now(fs, ptr, t, cnt), i))
    ensures !freed ==> Now(fs, ptr', t', cnt') == old(Now(fs, ptr, t, cnt))
    ensures freed ==> Clears(old(Now(fs, ptr, t, cnt)), Now(fs, ptr', t', cnt'), i)
    ensures freed ==> Releases(old(Now(fs, ptr, t, cnt)), Now(fs, ptr', t', cnt'), i)
  {
    hide Sound, NoEmpty, Freed, Releases, Step, FileSame, OthersKept, Data, Volume.BlocksReady;
    ghost var s := Now(fs, ptr, t, cnt);
    SlotSound(s, i);
    var st, out;
    if i < 12 {
      st, out, ptr', cnt', t' := FreeDirect(fs, ptr, i, cnt, t);
    } else if i < 1036 {
      st, out, ptr', cnt', t' := FreeSingly(fs, ptr, i, cnt, t);
    } else if i < 1049612 {
      st, out, ptr', cnt', t' := FreeDoubly(fs, ptr, i, cnt, t);
    } else {
      st, out, ptr', cnt', t' := FreeTriply(fs, ptr, i, cnt, t);
    }
    freed := st == Mapped;
    if freed {
      FreedReleases(s, Now(fs, ptr', t', cnt'), i, out);
      FreedPending(s, Now(fs, ptr', t', cnt'), Path(i), out);
      fs.FreeBlock(out);
      ReleasesView(s, Now(fs, ptr', t', cnt'), i);
      ReleasesCount(s, Now(fs, ptr', t', cnt'), i);
    }
  }

  lemma ReleasesCount(s: Snap, s': Snap, i: nat)
    requires i < MAX_FILE_BLOCKS && Releases(s, s', i)
    ensures Extends(s.t, s'.t) && s'.cnt - s.cnt == |s.t| - |s'.t|
  {
  }

  /** write_block to the data block of file block i. */
  method PutData(fs: Volume, b: nat, blk: Block, ghost ptr: seq<nat>, ghost i: nat, ghost cnt: int, ghost t: Tree)
    requires fs.BlocksReady() && Good(Now(fs, ptr, t, cnt)) && i < MAX_FILE_BLOCKS && 0 < b == Slot(t, i) < |fs.disk|
    modifies fs`disk
    ensures fs.BlocksReady() && Writes(old(Now(fs, ptr, t, cnt)), Now(fs, ptr, t, cnt), i, blk)
    ensures |fs.disk| == |old(fs.disk)|
  {
    hide Good, Step, FileSame, Volume.BlocksReady;
    ghost var s := Now(fs, ptr, t, cnt);
    WriteView(s, s.(disk := s.disk[b := blk]), i, blk);
    fs.WriteBlock(b, blk);
  }

  /** read_block of the data block of file block i. */
  method GetData(fs: Volume, b: nat, ghost ptr: seq<nat>, ghost i: nat, ghost cnt: int, ghost t: Tree) returns (blk: Block)
    requires i < MAX_FILE_BLOCKS && 0 < b == Slot(t, i) < |fs.disk|
    ensures blk == Data(Now(fs, ptr, t, cnt), i)
  {
    blk := fs.ReadBlock(b);
  }

  lemma MissingAtMostFour(t: Tree, i: nat)
    requires i < MAX_FILE_BLOCKS
    ensures Missing(t, Path(i)) <= 4
  {
    var k := Path(i);
    if k.Sub? {
      assert Missing(t, k) <= 1 + Missing(t, k.parent);
      if k.parent.Sub? {
        assert Missing(t, k.parent) <= 1 + Missing(t, k.parent.parent);
        if k.parent.parent.Sub? {
          assert Missing(t, k.parent.parent) <= 1 + Missing(t, k.parent.parent.parent);
        }
      }
    }
  }
}
