/**
 * The kernel heap (kernel/memory/heap/kernelHeap.c): block headers written into the memory they describe, first fit
 * with splitting, forward coalescing on free, and growth by doubling.
 */
module KernelHeap {
  const START: nat := 0x1000_0000
  const END_MIN: nat := 0x1000_1000
  const CEILING: nat := 0x4000_0000
  const PAGE: nat := 0x1000
  const HEADER: nat := 8
  const TWO32: nat := 0x1_0000_0000

  /** The size kmalloc looks for: (size + 3) & ~3 in 32 bits. */
  function Wanted(size: nat): nat {
    ((size + 3) % TWO32) / 4 * 4
  }

  /** The rounding is exact until it wraps: the three largest sizes ask for nothing. */
  lemma WantedCovers(size: nat)
    requires size < TWO32
    ensures Wanted(size) >= size <==> size <= TWO32 - 4
    ensures Wanted(size) % 4 == 0 && (size <= TWO32 - 4 ==> Wanted(size) < size + 4)
    ensures size > TWO32 - 4 ==> Wanted(size) == 0
  {
  }

  /** A block as its header describes it. */
  datatype Blk = Blk(addr: nat, size: nat, free: bool)

  function End(b: Blk): nat {
    b.addr + HEADER + b.size
  }

  /** The blocks follow each other without a gap from the start of the heap to its end. */
  ghost predicate Tiles(bs: seq<Blk>, end: nat) {
    && |bs| > 0 && bs[0].addr == START && End(bs[|bs| - 1]) == end
    && (forall i :: 0 <= i < |bs| ==> bs[i].addr % 4 == 0 && bs[i].size % 4 == 0)
    && (forall i :: 0 <= i < |bs| - 1 ==> Follows(bs, i))
  }

  ghost predicate Follows(bs: seq<Blk>, i: nat)
    requires i + 1 < |bs|
  {
    bs[i + 1].addr == End(bs[i])
  }

  /** Memory holds these headers: the size, then the free flag. */
  ghost predicate Stored(mem: map<nat, nat>, b: Blk) {
    b.addr in mem && b.addr + 4 in mem && mem[b.addr] == b.size && mem[b.addr + 4] == if b.free then 1 else 0
  }

  ghost function LiveSet(bs: seq<Blk>): set<Blk> {
    set b | b in bs && !b.free
  }

  /** The words of the block's payload are what they were. */
  ghost predicate Kept(mem: map<nat, nat>, mem': map<nat, nat>, b: Blk) {
    forall a :: b.addr + HEADER <= a < End(b) && a in mem ==> a in mem' && mem'[a] == mem[a]
  }

  ghost predicate Untouched(mem: map<nat, nat>, mem': map<nat, nat>, live: set<Blk>) {
    forall b :: b in live ==> Kept(mem, mem', b)
  }

  lemma UntouchedTrans(m0: map<nat, nat>, m1: map<nat, nat>, m2: map<nat, nat>, live: set<Blk>)
    requires Untouched(m0, m1, live) && Untouched(m1, m2, live)
    ensures Untouched(m0, m2, live)
  {
    forall b | b in live ensures Kept(m0, m2, b) {
      assert Kept(m0, m1, b) && Kept(m1, m2, b);
    }
  }

  // ----- what tiling means

  lemma {:induction false} InOrder(bs: seq<Blk>, end: nat, i: nat, j: nat)
    requires Tiles(bs, end) && i < j < |bs|
    ensures End(bs[i]) <= bs[j].addr
    decreases j
  {
    assert Follows(bs, j - 1);
    if i < j - 1 { InOrder(bs, end, i, j - 1); }
  }

  lemma Within(bs: seq<Blk>, end: nat, i: nat)
    requires Tiles(bs, end) && i < |bs|
    ensures START <= bs[i].addr && End(bs[i]) <= end
  {
    if i > 0 { InOrder(bs, end, 0, i); }
    if i < |bs| - 1 { InOrder(bs, end, i, |bs| - 1); }
  }

  /** Two blocks share no byte, headers included. */
  lemma Apart(bs: seq<Blk>, end: nat, i: nat, j: nat)
    requires Tiles(bs, end) && i < |bs| && j < |bs| && i != j
    ensures End(bs[i]) <= bs[j].addr || End(bs[j]) <= bs[i].addr
    ensures bs[i].addr != bs[j].addr
  {
    if i < j { InOrder(bs, end, i, j); } else { InOrder(bs, end, j, i); }
  }

  // ----- edits of the tiling

  function Taken(bs: seq<Blk>, i: nat): seq<Blk>
    requires i < |bs|
  {
    bs[i := bs[i].(free := false)]
  }

  function Split(bs: seq<Blk>, i: nat, wanted: nat): seq<Blk>
    requires i < |bs| && wanted + HEADER <= bs[i].size
  {
    var b := bs[i];
    bs[..i] + [Blk(b.addr, wanted, false), Blk(b.addr + HEADER + wanted, b.size - wanted - HEADER, true)] + bs[i + 1..]
  }

  /** Where the run of free blocks from k on ends. */
  function RunEnd(bs: seq<Blk>, k: nat): (j: nat)
    requires k <= |bs|
    ensures k <= j <= |bs| && (j < |bs| ==> !bs[j].free) && forall i :: k <= i < j ==> bs[i].free
    decreases |bs| - k
  {
    if k < |bs| && bs[k].free then RunEnd(bs, k + 1) else k
  }

  /** Blocks i to j - 1 become one free block. */
  function Merged(bs: seq<Blk>, i: nat, j: nat): seq<Blk>
    requires i < j <= |bs| && bs[i].addr + HEADER <= End(bs[j - 1])
  {
    bs[..i] + [Blk(bs[i].addr, End(bs[j - 1]) - bs[i].addr - HEADER, true)] + bs[j..]
  }

  function Extended(bs: seq<Blk>, oldEnd: nat, end: nat): seq<Blk>
    requires |bs| > 0 && oldEnd + HEADER <= end
  {
    var last := bs[|bs| - 1];
    if last.free then bs[|bs| - 1 := last.(size := last.size + (end - oldEnd))]
    else bs + [Blk(oldEnd, end - oldEnd - HEADER, true)]
  }

  lemma TakenTiles(bs: seq<Blk>, end: nat, i: nat)
    requires Tiles(bs, end) && i < |bs|
    ensures Tiles(Taken(bs, i), end)
  {
    var bs' := Taken(bs, i);
    forall k | 0 <= k < |bs'| - 1 ensures Follows(bs', k) { assert Follows(bs, k); }
  }

  lemma SplitTiles(bs: seq<Blk>, end: nat, i: nat, wanted: nat)
    requires Tiles(bs, end) && i < |bs| && wanted + HEADER <= bs[i].size && wanted % 4 == 0
    ensures Tiles(Split(bs, i, wanted), end)
  {
    var bs' := Split(bs, i, wanted);
    assert forall k :: 0 <= k < i ==> bs'[k] == bs[k];
    assert forall k :: i + 1 < k < |bs'| ==> bs'[k] == bs[k - 1];
    SplitWords(bs[i].addr, bs[i].size, wanted);
    forall k | 0 <= k < |bs'| - 1 ensures Follows(bs', k) {
      if k < i { assert Follows(bs, k); }
      if k > i { assert Follows(bs, k - 1); }
    }
  }

  lemma SplitWords(addr: nat, size: nat, wanted: nat)
    requires addr % 4 == 0 && size % 4 == 0 && wanted % 4 == 0 && wanted + HEADER <= size
    ensures (addr + HEADER + wanted) % 4 == 0 && (size - wanted - HEADER) % 4 == 0
  {
  }

  lemma MergedTiles(bs: seq<Blk>, end: nat, i: nat, j: nat)
    requires Tiles(bs, end) && i < j <= |bs|
    ensures bs[i].addr + HEADER <= End(bs[j - 1]) && Tiles(Merged(bs, i, j), end)
  {
    if i < j - 1 { InOrder(bs, end, i, j - 1); }
    var bs' := Merged(bs, i, j);
    assert forall k :: i < k < |bs'| ==> bs'[k] == bs[k - i - 1 + j];
    MergedWords(bs[i].addr, bs[j - 1].addr, bs[j - 1].size);
    MergedFollows(bs, end, i, j);
  }

  lemma MergedWords(a: nat, c: nat, size: nat)
    requires a % 4 == 0 && c % 4 == 0 && size % 4 == 0 && a <= c
    ensures (c + HEADER + size - a - HEADER) % 4 == 0
  {
  }

  lemma MergedFollows(bs: seq<Blk>, end: nat, i: nat, j: nat)
    requires Tiles(bs, end) && i < j <= |bs| && bs[i].addr + HEADER <= End(bs[j - 1])
    ensures forall k :: 0 <= k < |Merged(bs, i, j)| - 1 ==> Follows(Merged(bs, i, j), k)
  {
    var bs' := Merged(bs, i, j);
    forall k | 0 <= k < |bs'| - 1 ensures Follows(bs', k) {
      if k < i { assert Follows(bs, k); }
      if k >= i { assert Follows(bs, k - i - 1 + j); }
    }
  }

  lemma ExtendedTiles(bs: seq<Blk>, oldEnd: nat, end: nat)
    requires Tiles(bs, oldEnd) && oldEnd + HEADER <= end && oldEnd % 4 == 0 && end % 4 == 0
    ensures Tiles(Extended(bs, oldEnd, end), end)
  {
    var bs', n := Extended(bs, oldEnd, end), |bs| - 1;
    forall k | 0 <= k < |bs'| - 1 ensures Follows(bs', k) {
      if k < n { assert Follows(bs, k); }
    }
    ExtendedWords(bs[n].size, oldEnd, end);
    assert forall k :: 0 <= k < n ==> bs'[k] == bs[k];
  }

  lemma ExtendedWords(size: nat, oldEnd: nat, end: nat)
    requires size % 4 == 0 && oldEnd % 4 == 0 && end % 4 == 0 && oldEnd + HEADER <= end
    ensures (size + (end - oldEnd)) % 4 == 0 && (end - oldEnd - HEADER) % 4 == 0
  {
  }

  // ----- the allocated blocks under each edit

  lemma TakenLive(bs: seq<Blk>, i: nat)
    requires i < |bs| && bs[i].free
    ensures LiveSet(Taken(bs, i)) == LiveSet(bs) + {bs[i].(free := false)}
  {
    var bs', b' := Taken(bs, i), bs[i].(free := false);
    forall b | b in LiveSet(bs') ensures b in LiveSet(bs) + {b'} {
      var k :| 0 <= k < |bs'| && bs'[k] == b;
      assert k != i ==> bs[k] == b;
    }
    forall b | b in LiveSet(bs) ensures b in bs' {
      var k :| 0 <= k < |bs| && bs[k] == b;
      assert bs'[k] == b;
    }
    assert bs'[i] == b';
  }

  lemma SplitLive(bs: seq<Blk>, i: nat, wanted: nat)
    requires i < |bs| && bs[i].free && wanted + HEADER <= bs[i].size
    ensures LiveSet(Split(bs, i, wanted)) == LiveSet(bs) + {Blk(bs[i].addr, wanted, false)}
  {
    var bs', b' := Split(bs, i, wanted), Blk(bs[i].addr, wanted, false);
    forall b | b in LiveSet(bs') ensures b in LiveSet(bs) + {b'} {
      var k :| 0 <= k < |bs'| && bs'[k] == b;
      if k < i { assert bs[k] == b; }
      if k > i + 1 { assert bs[k - 1] == b; }
    }
    forall b | b in LiveSet(bs) ensures b in bs' {
      var k :| 0 <= k < |bs| && bs[k] == b;
      assert bs'[if k < i then k else k + 1] == b;
    }
    assert bs'[i] == b';
  }

  lemma MergedLive(bs: seq<Blk>, end: nat, i: nat, j: nat)
    requires Tiles(bs, end) && i < j <= |bs| && bs[i].addr + HEADER <= End(bs[j - 1]) && !bs[i].free
    requires forall k :: i < k < j ==> bs[k].free
    ensures LiveSet(Merged(bs, i, j)) == LiveSet(bs) - {bs[i]}
  {
    var bs' := Merged(bs, i, j);
    forall b | b in LiveSet(bs') ensures b in LiveSet(bs) - {bs[i]} {
      var k :| 0 <= k < |bs'| && bs'[k] == b;
      var m := if k < i then k else k - i - 1 + j;
      assert k != i && bs[m] == b;
      Apart(bs, end, i, m);
    }
    forall b | b in LiveSet(bs) - {bs[i]} ensures b in bs' {
      var k :| 0 <= k < |bs| && bs[k] == b;
      assert k < i || k >= j;
      assert bs'[if k < i then k else k - j + i + 1] == b;
    }
  }

  lemma ExtendedLive(bs: seq<Blk>, oldEnd: nat, end: nat)
    requires |bs| > 0 && oldEnd + HEADER <= end
    ensures LiveSet(Extended(bs, oldEnd, end)) == LiveSet(bs)
  {
    var bs', n := Extended(bs, oldEnd, end), |bs| - 1;
    forall b | b in LiveSet(bs') ensures b in LiveSet(bs) {
      var k :| 0 <= k < |bs'| && bs'[k] == b;
      assert bs[k] == b;
    }
    forall b | b in LiveSet(bs) ensures b in bs' {
      var k :| 0 <= k < |bs| && bs[k] == b;
      assert bs'[k] == b;
    }
  }

  // ----- writes inside one block leave the others alone

  ghost predicate OnlyIn(mem: map<nat, nat>, mem': map<nat, nat>, lo: nat, hi: nat) {
    forall a :: a in mem ==> a in mem' && (lo <= a < hi || mem'[a] == mem[a])
  }

  lemma OutsideKept(mem: map<nat, nat>, mem': map<nat, nat>, b: Blk, lo: nat, hi: nat)
    requires OnlyIn(mem, mem', lo, hi) && (End(b) <= lo || hi <= b.addr) && Stored(mem, b)
    ensures Stored(mem', b) && Kept(mem, mem', b)
  {
  }

  lemma OthersStored(mem: map<nat, nat>, mem': map<nat, nat>, bs: seq<Blk>, end: nat, i: nat)
    requires Tiles(bs, end) && i < |bs| && OnlyIn(mem, mem', bs[i].addr, End(bs[i]))
    requires forall k :: 0 <= k < |bs| ==> Stored(mem, bs[k])
    ensures forall k :: 0 <= k < |bs| && k != i ==> Stored(mem', bs[k])
    ensures Untouched(mem, mem', LiveSet(bs) - {bs[i]})
  {
    hide Tiles, Stored, Kept, OnlyIn;
    forall k | 0 <= k < |bs| && k != i ensures Stored(mem', bs[k]) && Kept(mem, mem', bs[k]) {
      Apart(bs, end, i, k);
      OutsideKept(mem, mem', bs[k], bs[i].addr, End(bs[i]));
    }
    forall b | b in LiveSet(bs) - {bs[i]} ensures Kept(mem, mem', b) {
      var k :| 0 <= k < |bs| && bs[k] == b;
    }
  }

  /** A free block is none of the live ones. */
  lemma FreeNotLive(bs: seq<Blk>, i: nat)
    requires i < |bs| && bs[i].free
    ensures LiveSet(bs) - {bs[i]} == LiveSet(bs)
  {
  }

  // ----- headers in memory

  /** Memory from the start to the end of the heap holds exactly these blocks. */
  ghost predicate Laid(mem: map<nat, nat>, bs: seq<Blk>, end: nat) {
    && (forall a :: START <= a < CEILING && a % 4 == 0 ==> a in mem)
    && Tiles(bs, end) && (forall i :: 0 <= i < |bs| ==> Stored(mem, bs[i]))
  }

  lemma TakenLaid(mem: map<nat, nat>, bs: seq<Blk>, end: nat, i: nat)
    requires Laid(mem, bs, end) && i < |bs| && bs[i].free
    ensures var mem' := mem[bs[i].addr + 4 := 0];
            Laid(mem', Taken(bs, i), end) && Untouched(mem, mem', LiveSet(bs))
  {
    hide Tiles, Kept, Untouched, LiveSet;
    FreeNotLive(bs, i);
    TakenTiles(bs, end, i);
    OthersStored(mem, mem[bs[i].addr + 4 := 0], bs, end, i);
  }

  lemma SplitLaid(mem: map<nat, nat>, bs: seq<Blk>, end: nat, i: nat, wanted: nat)
    requires Laid(mem, bs, end) && i < |bs| && bs[i].free && bs[i].size > wanted + HEADER && wanted % 4 == 0
    ensures var b, n := bs[i], bs[i].addr + HEADER + wanted;
            var mem' := mem[n := b.size - wanted - HEADER][n + 4 := 1][b.addr := wanted][b.addr + 4 := 0];
            Laid(mem', Split(bs, i, wanted), end) && Untouched(mem, mem', LiveSet(bs))
  {
    hide Tiles, Kept, Untouched, LiveSet;
    FreeNotLive(bs, i);
    var b, n := bs[i], bs[i].addr + HEADER + wanted;
    var mem' := mem[n := b.size - wanted - HEADER][n + 4 := 1][b.addr := wanted][b.addr + 4 := 0];
    BlockFacts(bs, end, i);
    SplitTiles(bs, end, i, wanted);
    OthersStored(mem, mem', bs, end, i);
    SplitStored(mem', bs, i, wanted);
  }

  lemma ExtendedLaid(mem: map<nat, nat>, bs: seq<Blk>, oldEnd: nat, end: nat)
    requires Laid(mem, bs, oldEnd) && START < oldEnd && oldEnd + HEADER <= end <= CEILING && oldEnd % 4 == 0 && end % 4 == 0
    ensures var last := bs[|bs| - 1];
            var mem' := if last.free then mem[last.addr := last.size + (end - oldEnd)] else mem[oldEnd + 4 := 1][oldEnd := end - oldEnd - HEADER];
            Laid(mem', Extended(bs, oldEnd, end), end) && Untouched(mem, mem', LiveSet(bs))
  {
    hide Tiles, Kept, LiveSet, Untouched;
    var n := |bs| - 1;
    assert |bs| > 0 by { TilesSome(bs, oldEnd); }
    var last := bs[n];
    ExtendedTiles(bs, oldEnd, end);
    if last.free {
      FreeNotLive(bs, n);
      OthersStored(mem, mem[last.addr := last.size + (end - oldEnd)], bs, oldEnd, n);
    } else {
      BeyondKept(mem, mem[oldEnd + 4 := 1][oldEnd := end - oldEnd - HEADER], bs, oldEnd, end);
    }
  }

  /** Memory after the header at block i has been rewritten to cover blocks i to j - 1. */
  function MergeMem(mem: map<nat, nat>, bs: seq<Blk>, i: nat, j: nat): map<nat, nat>
    requires i < j <= |bs| && bs[i].addr + HEADER <= End(bs[j - 1])
  {
    mem[bs[i].addr + 4 := 1][bs[i].addr := End(bs[j - 1]) - bs[i].addr - HEADER]
  }

  lemma MergedLaid(mem: map<nat, nat>, bs: seq<Blk>, end: nat, i: nat, j: nat)
    requires Laid(mem, bs, end) && i < j <= |bs| && bs[i].addr + HEADER <= End(bs[j - 1])
    ensures Laid(MergeMem(mem, bs, i, j), Merged(bs, i, j), end)
    ensures Untouched(mem, MergeMem(mem, bs, i, j), LiveSet(bs) - {bs[i]})
  {
    hide Tiles, Kept, Untouched, LiveSet;
    var mem', bs' := MergeMem(mem, bs, i, j), Merged(bs, i, j);
    MergedTiles(bs, end, i, j);
    OthersStored(mem, mem', bs, end, i);
    forall k | 0 <= k < |bs'| ensures Stored(mem', bs'[k]) {
      if k < i { assert bs'[k] == bs[k]; }
      if k > i { assert bs'[k] == bs[k - i - 1 + j]; }
    }
  }

  lemma Covers(mem: map<nat, nat>, bs: seq<Blk>, end: nat, i: nat, j: nat)
    requires Laid(mem, bs, end) && i < j <= |bs|
    ensures bs[i].addr + HEADER <= End(bs[j - 1])
  {
    if i < j - 1 { InOrder(bs, end, i, j - 1); }
  }

  lemma TilesSome(bs: seq<Blk>, end: nat)
    requires Tiles(bs, end)
    ensures |bs| > 0
  {
  }

  lemma BeyondKept(mem: map<nat, nat>, mem': map<nat, nat>, bs: seq<Blk>, oldEnd: nat, end: nat)
    requires Laid(mem, bs, oldEnd) && OnlyIn(mem, mem', oldEnd, end)
    ensures (forall k :: 0 <= k < |bs| ==> Stored(mem', bs[k])) && Untouched(mem, mem', LiveSet(bs))
  {
    hide Tiles, Kept, Stored, OnlyIn;
    forall k | 0 <= k < |bs| ensures Stored(mem', bs[k]) && Kept(mem, mem', bs[k]) {
      Within(bs, oldEnd, k);
      OutsideKept(mem, mem', bs[k], oldEnd, end);
    }
    forall b | b in LiveSet(bs) ensures Kept(mem, mem', b) {
      var k :| 0 <= k < |bs| && bs[k] == b;
    }
  }

  // ----- the heap

  class Heap {
    var mem: map<nat, nat>     // the 32-bit words at 4-aligned addresses
    var heapEnd: nat
    var mapped: set<nat>       // the pages given to map_kernel_page
    var frames: nat            // how often alloc_frame will still succeed
    ghost var blocks: seq<Blk>

    ghost predicate Valid()
      reads this
    {
      START < heapEnd <= CEILING && Paged(heapEnd) && Laid(mem, blocks, heapEnd) && Backed(mapped, heapEnd)
    }

    /** heap_init. */
    constructor (mem: map<nat, nat>, frames: nat)
      requires forall a :: START <= a < CEILING && a % 4 == 0 ==> a in mem
      ensures Valid() && blocks == [Blk(START, PAGE - HEADER, true)] && heapEnd == END_MIN
    {
      heapEnd := END_MIN;
      mapped := {START};
      this.mem := mem[START := PAGE - HEADER][START + 4 := 1];
      this.frames := frames;
      blocks := [Blk(START, PAGE - HEADER, true)];
    }

    /** The found block becomes allocated, and what it does not need a block of its own. */
    method Place(cursor: nat, wanted: nat, ghost i: nat) returns (r: nat)
      requires Valid() && i < |blocks| && blocks[i].addr == cursor && blocks[i].free && blocks[i].size >= wanted && wanted % 4 == 0
      modifies this`mem, this`blocks
      ensures Valid() && r == cursor + HEADER && Given(old(blocks), blocks, cursor, wanted) && Carved(old(blocks), blocks, cursor, wanted)
      ensures Untouched(old(mem), mem, old(LiveSet(blocks)))
    {
      hide Laid, LiveSet, Untouched, Backed, Carved;
      StoredAt(mem, blocks, heapEnd, i);
      var size := mem[cursor];
      if size - wanted > HEADER {
        SplitLaid(mem, blocks, heapEnd, i, wanted);
        SplitLive(blocks, i, wanted);
        SplitCarved(blocks, i, wanted);
        var n := cursor + HEADER + wanted;
        mem := mem[n := size - wanted - HEADER][n + 4 := 1][cursor := wanted];
        blocks := Split(blocks, i, wanted);
      } else {
        TakenLaid(mem, blocks, heapEnd, i);
        TakenLive(blocks, i);
        TakenCarved(blocks, i, wanted);
        blocks := Taken(blocks, i);
      }
      mem := mem[cursor + 4 := 0];
      assert blocks[i] in blocks;
      r := cursor + HEADER;
    }

    /** Maps pages from heapEnd on until the heap has doubled, memory ends or frames run out; one frame is in hand. */
    method MapPages() returns (end: nat)
      requires Valid() && heapEnd < CEILING - PAGE
      modifies this`mapped, this`frames
      ensures heapEnd < end <= CEILING && end <= 2 * heapEnd - START && Paged(end) && Backed(mapped, end)
      ensures frames > 0 ==> end == if 2 * heapEnd - START < CEILING then 2 * heapEnd - START else CEILING
    {
      hide Paged, Backed;
      PagedSum(heapEnd);
      end := heapEnd + (heapEnd - START);
      var i, got := heapEnd, true;
      while i <= end - PAGE && i <= CEILING - PAGE
        invariant heapEnd <= i && Paged(i) && Paged(end) && end == heapEnd + (heapEnd - START) && got
        invariant Backed(mapped, i) && (i > heapEnd || i <= end - PAGE)
        decreases CEILING - i
      {
        BackedNext(mapped, i);
        mapped := mapped + {i};
        got := frames > 0;
        if got {
          frames := frames - 1;
        } else {
          end := i + PAGE;
          break;
        }
        i := i + PAGE;
      }
      if got { PagedStop(i, end); }
      if end > CEILING { end := CEILING; }
      if got { BackedLess(mapped, i, end); }
      if got { frames := frames + 1; }
    }

    /** The heap grows; its last block is `last`. */
    method Grow(last: nat)
      requires Valid() && heapEnd < CEILING - PAGE && last == blocks[|blocks| - 1].addr
      modifies this
      ensures Valid() && old(heapEnd) < heapEnd <= 2 * old(heapEnd) - START && Tail(blocks) == Tail(old(blocks)) + (heapEnd - old(heapEnd))
      ensures blocks == Extended(old(blocks), old(heapEnd), heapEnd) && LiveSet(blocks) == old(LiveSet(blocks))
      ensures FreeBytes(blocks) + NewHeader(old(blocks), old(heapEnd), heapEnd) == FreeBytes(old(blocks)) + (heapEnd - old(heapEnd))
      ensures blocks != [] && blocks[|blocks| - 1].free
      ensures Untouched(old(mem), mem, old(LiveSet(blocks)))
    {
      hide Laid, LiveSet, Untouched, Backed, Paged, Extended, Tail;
      var oldEnd := heapEnd;
      var end := MapPages();
      PagedWord(oldEnd);
      PagedWord(end);
      PagedGap(oldEnd, end);
      FirstBlock(mem, blocks, oldEnd);
      StoredAt(mem, blocks, oldEnd, |blocks| - 1);
      ExtendedLaid(mem, blocks, oldEnd, end);
      ExtendedLive(blocks, oldEnd, end);
      ExtendedFree(blocks, oldEnd, end);
      TailGrows(blocks, oldEnd, end);
      heapEnd := end;
      if mem[last + 4] != 0 {
        mem := mem[last := mem[last] + (heapEnd - oldEnd)];
      } else {
        mem := mem[oldEnd + 4 := 1];
        mem := mem[oldEnd := heapEnd - oldEnd - HEADER];
      }
      blocks := Extended(blocks, oldEnd, heapEnd);
    }

    /** The search of kmalloc: the first free block that is large enough, if any, and the last block looked at. */
    method Search(wanted: nat) returns (found: bool, cursor: nat, last: nat, ghost i: nat)
      requires Valid()
      ensures i == FirstFit(blocks, wanted, 0) && (found <==> i < |blocks|)
      ensures found ==> cursor == blocks[i].addr
      ensures !found ==> last == blocks[|blocks| - 1].addr
    {
      hide Laid, FirstFit;
      cursor, last, i := START, START, 0;
      FirstBlock(mem, blocks, heapEnd);
      while cursor < heapEnd
        invariant i <= |blocks| && cursor == (if i < |blocks| then blocks[i].addr else heapEnd)
        invariant i > 0 ==> last == blocks[i - 1].addr
        invariant FirstFit(blocks, wanted, 0) == FirstFit(blocks, wanted, i)
        decreases heapEnd - cursor
      {
        StoredAt(mem, blocks, heapEnd, i);
        FitStep(blocks, wanted, i);
        NextBlock(mem, blocks, heapEnd, i);
        last := cursor;
        if mem[cursor + 4] != 0 && mem[cursor] >= wanted { return true, cursor, last, i; }
        cursor, i := cursor + HEADER + mem[cursor], i + 1;
      }
      if i < |blocks| { StoredAt(mem, blocks, heapEnd, i); }
      FitNone(blocks, wanted);
      found := false;
    }

    /** kmalloc; NULL is 0.  `grown` are the blocks after the growth, if any, of which one is handed out. */
    method Kmalloc(size: nat) returns (r: nat, ghost grown: seq<Blk>)
      requires Valid() && size < TWO32
      modifies this
      ensures Valid() && heapEnd >= old(heapEnd)
      ensures r != 0 ==> HEADER <= r && Given(old(blocks), blocks, r - HEADER, Wanted(size)) && r % 4 == 0
      ensures r == 0 ==> LiveSet(blocks) == old(LiveSet(blocks)) && FirstFit(blocks, Wanted(size), 0) == |blocks|
      ensures Modest(old(blocks), old(heapEnd), heapEnd, Wanted(size))
      ensures r == 0 ==> heapEnd >= 0x3FFF_F000 || frames == 0
      ensures var f := FirstFit(old(blocks), Wanted(size), 0);
              f < |old(blocks)| ==> r == old(blocks)[f].addr + HEADER && heapEnd == old(heapEnd)
      ensures Untouched(old(mem), mem, old(LiveSet(blocks)))
      ensures (heapEnd == old(heapEnd) ==> grown == old(blocks)) && FreeBytes(grown) + NewHeader(old(blocks), old(heapEnd), heapEnd) == FreeBytes(old(blocks)) + (heapEnd - old(heapEnd))
      ensures if r != 0 then Carved(grown, blocks, r - HEADER, Wanted(size)) else blocks == grown
      decreases CEILING - heapEnd
    {
      hide Laid, LiveSet, Untouched, Backed, FirstFit, Wanted, Extended, Carved, FreeBytes, Tail;
      ghost var mem0, live0 := mem, LiveSet(blocks);
      UntouchedRefl(mem0, live0);
      WantedCovers(size);
      grown := blocks;
      var wanted := Wanted(size);
      var found, cursor, last;
      ghost var i;
      found, cursor, last, i := Search(wanted);
      if found {
        FitFits(blocks, wanted);
        StoredAt(mem, blocks, heapEnd, i);
        r := Place(cursor, wanted, i);
        return;
      }
      var got := false;
      if heapEnd < CEILING - PAGE {
        got := frames > 0;
        if got { frames := frames - 1; }
      }
      if got {
        TailShort(blocks, wanted);
        Grow(last);
        ghost var mem1 := mem;
        r, grown := Kmalloc(size);
        UntouchedTrans(mem0, mem1, mem, live0);
        return;
      }
      r := 0;
    }

    /** The loop of kfree: the block at h, which is block i, takes in the free blocks that follow it. */
    method Coalesce(h: nat, ghost bs: seq<Blk>, ghost mem0: map<nat, nat>, ghost i: nat)
      requires Laid(mem0, bs, heapEnd) && i < |bs| && bs[i].addr == h && mem == mem0[h + 4 := 1]
      modifies this`mem
      ensures bs[i].addr + HEADER <= End(bs[RunEnd(bs, i + 1) - 1]) && mem == MergeMem(mem0, bs, i, RunEnd(bs, i + 1))
    {
      hide Laid, RunEnd, Stored, MergeMem;
      ghost var j := i + 1;
      MergeStart(mem0, bs, heapEnd, i);
      AtCursor(mem0, bs, heapEnd, i, j);
      var cursor := h + HEADER + mem[h];
      while cursor < heapEnd && mem[cursor + 4] != 0
        invariant i < j <= |bs| && bs[i].addr + HEADER <= End(bs[j - 1]) && cursor == End(bs[j - 1])
        invariant (forall k :: i < k < j ==> bs[k].free) && mem == MergeMem(mem0, bs, i, j)
        invariant h in mem && mem[h] == cursor - h - HEADER && cursor <= heapEnd && (cursor < heapEnd <==> j < |bs|)
        invariant j < |bs| ==> cursor in mem && cursor + 4 in mem && mem[cursor] == bs[j].size && (mem[cursor + 4] != 0 <==> bs[j].free)
        decreases |bs| - j
      {
        MergeMore(mem0, bs, heapEnd, i, j);
        mem := mem[h := mem[h] + mem[cursor] + HEADER];
        cursor, j := h + HEADER + mem[h], j + 1;
        AtCursor(mem0, bs, heapEnd, i, j);
      }
      RunEndIs(bs, i + 1, j);
    }

    /** kfree of NULL or of a pointer that kmalloc has handed out. */
    method Kfree(ptr: nat)
      requires Valid() && (ptr != 0 ==> HEADER <= ptr && IsLive(blocks, ptr - HEADER))
      modifies this`mem, this`blocks
      ensures Valid()
      ensures ptr == 0 ==> blocks == old(blocks) && mem == old(mem)
      ensures ptr != 0 ==> Absorbed(old(blocks), blocks, ptr - HEADER)
      ensures forall b :: b in LiveSet(blocks) <==> b in old(LiveSet(blocks)) && b.addr + HEADER != ptr
      ensures Untouched(old(mem), mem, LiveSet(blocks))
      ensures forall b :: b in old(LiveSet(blocks)) && b.addr + HEADER == ptr ==> FreeBytes(blocks) >= FreeBytes(old(blocks)) + b.size
    {
      hide Laid, LiveSet, Untouched, Backed, Paged, RunEnd, IsLive, Merged, MergeMem, FreeBytes;
      ghost var bs, mem0 := blocks, mem;
      UntouchedRefl(mem0, LiveSet(bs));
      if ptr == 0 {
        NoNull(mem, bs, heapEnd);
        return;
      }
      var h := ptr - HEADER;
      ghost var i := LiveIndex(bs, h);
      StoredAt(mem, bs, heapEnd, i);
      mem := mem[h + 4 := 1];
      Coalesce(h, bs, mem0, i);
      ghost var j := RunEnd(bs, i + 1);
      MergedLaid(mem0, bs, heapEnd, i, j);
      LaidTiles(mem0, bs, heapEnd);
      MergedLive(bs, heapEnd, i, j);
      OneLive(bs, i);
      MergedFree(bs, heapEnd, i, j);
      forall b | b in LiveSet(bs) && b.addr + HEADER == ptr ensures b == bs[i] { OneAt(mem0, bs, heapEnd, b, bs[i]); }
      blocks := Merged(bs, i, j);
    }
  }

  lemma LaidTiles(mem: map<nat, nat>, bs: seq<Blk>, end: nat)
    requires Laid(mem, bs, end)
    ensures Tiles(bs, end)
  {
  }

  lemma OneLive(bs: seq<Blk>, i: nat)
    requires i < |bs| && !bs[i].free
    ensures bs[i] in LiveSet(bs)
  {
  }

  lemma MergeStart(mem: map<nat, nat>, bs: seq<Blk>, end: nat, i: nat)
    requires Laid(mem, bs, end) && i < |bs|
    ensures mem[bs[i].addr + 4 := 1] == MergeMem(mem, bs, i, i + 1)
  {
    Header(mem, bs, end, i);
  }

  lemma MergeMore(mem: map<nat, nat>, bs: seq<Blk>, end: nat, i: nat, j: nat)
    requires Laid(mem, bs, end) && i < j < |bs|
    ensures bs[i].addr + HEADER <= End(bs[j - 1]) && bs[i].addr + HEADER <= End(bs[j])
    ensures MergeMem(mem, bs, i, j + 1) == MergeMem(mem, bs, i, j)[bs[i].addr := End(bs[j - 1]) - bs[i].addr - HEADER + bs[j].size + HEADER]
  {
    hide Laid;
    Covers(mem, bs, end, i, j);
    Covers(mem, bs, end, i, j + 1);
    NextBlock(mem, bs, end, j - 1);
  }

  /** What the loop of kfree finds behind the block. */
  lemma AtCursor(mem: map<nat, nat>, bs: seq<Blk>, end: nat, i: nat, j: nat)
    requires Laid(mem, bs, end) && i < j <= |bs|
    ensures bs[i].addr + HEADER <= End(bs[j - 1]) <= end && (End(bs[j - 1]) < end <==> j < |bs|)
    ensures var m, c := MergeMem(mem, bs, i, j), End(bs[j - 1]);
            && bs[i].addr in m && m[bs[i].addr] == c - bs[i].addr - HEADER
            && (j < |bs| ==> c in m && c + 4 in m && m[c] == bs[j].size && (m[c + 4] != 0 <==> bs[j].free))
  {
    hide Laid;
    Covers(mem, bs, end, i, j);
    NextBlock(mem, bs, end, j - 1);
    StoredAt(mem, bs, end, j - 1);
    if j < |bs| {
      StoredAt(mem, bs, end, j);
      Header(mem, bs, end, j);
    }
  }

  /** What the header of block i holds. */
  lemma Header(mem: map<nat, nat>, bs: seq<Blk>, end: nat, i: nat)
    requires Laid(mem, bs, end) && i < |bs|
    ensures bs[i].addr in mem && bs[i].addr + 4 in mem && mem[bs[i].addr] == bs[i].size
    ensures mem[bs[i].addr + 4] != 0 <==> bs[i].free
  {
    assert Stored(mem, bs[i]);
  }

  lemma NoNull(mem: map<nat, nat>, bs: seq<Blk>, end: nat)
    requires Laid(mem, bs, end)
    ensures forall b :: b in LiveSet(bs) ==> b.addr >= START
  {
    forall b | b in LiveSet(bs) ensures b.addr >= START {
      var k :| 0 <= k < |bs| && bs[k] == b;
      Within(bs, end, k);
    }
  }

  /** bs' is bs after the block at addr has absorbed exactly the run of free blocks behind it. */
  ghost predicate Absorbed(bs: seq<Blk>, bs': seq<Blk>, addr: nat) {
    exists i: nat :: i < |bs| && bs[i].addr == addr && !bs[i].free && bs[i].addr + HEADER <= End(bs[RunEnd(bs, i + 1) - 1]) && bs' == Merged(bs, i, RunEnd(bs, i + 1))
  }

  ghost predicate IsLive(bs: seq<Blk>, addr: nat) {
    exists b :: b in LiveSet(bs) && b.addr == addr
  }

  lemma LiveIndex(bs: seq<Blk>, addr: nat) returns (i: nat)
    requires IsLive(bs, addr)
    ensures i < |bs| && bs[i].addr == addr && !bs[i].free
  {
    var b :| b in LiveSet(bs) && b.addr == addr;
    i :| 0 <= i < |bs| && bs[i] == b;
  }

  lemma RunEndIs(bs: seq<Blk>, k: nat, j: nat)
    requires k <= j <= |bs| && (forall i :: k <= i < j ==> bs[i].free) && (j < |bs| ==> !bs[j].free)
    ensures RunEnd(bs, k) == j
  {
  }

  function FirstFit(bs: seq<Blk>, wanted: nat, k: nat): (i: nat)
    requires k <= |bs|
    ensures k <= i <= |bs|
    decreases |bs| - k
  {
    if k == |bs| || (bs[k].free && bs[k].size >= wanted) then k else FirstFit(bs, wanted, k + 1)
  }

  lemma FitStep(bs: seq<Blk>, wanted: nat, k: nat)
    requires k < |bs|
    ensures FirstFit(bs, wanted, k) == if bs[k].free && bs[k].size >= wanted then k else FirstFit(bs, wanted, k + 1)
  {
  }

  lemma FitNone(bs: seq<Blk>, wanted: nat)
    ensures FirstFit(bs, wanted, |bs|) == |bs|
  {
  }

  /** The first fit fits, and no earlier block does. */
  lemma {:induction false} FirstFitIs(bs: seq<Blk>, wanted: nat, k: nat)
    requires k <= |bs|
    ensures var i := FirstFit(bs, wanted, k);
            (i < |bs| ==> bs[i].free && bs[i].size >= wanted) && forall j :: k <= j < i ==> !(bs[j].free && bs[j].size >= wanted)
    decreases |bs| - k
  {
    if k < |bs| && !(bs[k].free && bs[k].size >= wanted) { FirstFitIs(bs, wanted, k + 1); }
  }

  lemma FitFits(bs: seq<Blk>, wanted: nat)
    ensures var i := FirstFit(bs, wanted, 0); i < |bs| ==> bs[i].free && bs[i].size >= wanted
  {
    FirstFitIs(bs, wanted, 0);
  }

  lemma UntouchedRefl(mem: map<nat, nat>, live: set<Blk>)
    ensures Untouched(mem, mem, live)
  {
  }

  lemma FirstBlock(mem: map<nat, nat>, bs: seq<Blk>, end: nat)
    requires Laid(mem, bs, end)
    ensures |bs| > 0 && bs[0].addr == START
  {
  }

  lemma NextBlock(mem: map<nat, nat>, bs: seq<Blk>, end: nat, i: nat)
    requires Laid(mem, bs, end) && i < |bs|
    ensures End(bs[i]) == if i + 1 < |bs| then bs[i + 1].addr else end
  {
    if i + 1 < |bs| { assert Follows(bs, i); }
  }

  predicate Paged(a: nat) {
    a % PAGE == 0
  }

  /** Every page of the heap has been mapped. */
  ghost predicate Backed(mapped: set<nat>, end: nat) {
    forall p :: START <= p < end && Paged(p) ==> p in mapped
  }

  lemma PagedSum(a: nat)
    requires Paged(a) && a > START
    ensures Paged(a + (a - START)) && a >= START + PAGE && Paged(CEILING)
  {
  }

  lemma BackedNext(mapped: set<nat>, i: nat)
    requires Backed(mapped, i) && Paged(i)
    ensures Backed(mapped + {i}, i + PAGE) && Paged(i + PAGE)
  {
  }

  lemma BackedLess(mapped: set<nat>, i: nat, end: nat)
    requires Backed(mapped, i) && end <= i
    ensures Backed(mapped, end)
  {
  }

  /** A page-aligned address past the last page is past the end. */
  lemma PagedStop(i: nat, end: nat)
    requires Paged(i) && Paged(end)
    ensures i + PAGE > end ==> i >= end
    ensures i + PAGE > CEILING ==> i >= CEILING
  {
  }

  lemma PagedWord(a: nat)
    requires Paged(a)
    ensures a % 4 == 0
  {
  }

  lemma PagedGap(a: nat, b: nat)
    requires Paged(a) && Paged(b) && a < b
    ensures a + HEADER <= b
  {
  }

  /** One block has been handed out: big enough but hardly bigger, and none of the others changed. */
  ghost predicate Given(bs: seq<Blk>, bs': seq<Blk>, addr: nat, wanted: nat) {
    exists b: Blk :: b.addr == addr && wanted <= b.size <= wanted + HEADER && !b.free && b in bs' && b !in LiveSet(bs) && LiveSet(bs') == LiveSet(bs) + {b}
  }

  /** The header that growing adds: one, if the last block was not free. */
  ghost function NewHeader(bs: seq<Blk>, oldEnd: nat, end: nat): nat {
    if end > oldEnd && bs != [] && !bs[|bs| - 1].free then HEADER else 0
  }

  /** The bytes of the last block, if it is free, and of its header. */
  ghost function Tail(bs: seq<Blk>): nat {
    if bs != [] && bs[|bs| - 1].free then bs[|bs| - 1].size + HEADER else 0
  }

  /** The heap at most doubles beyond the end that the request needs. */
  ghost predicate Modest(bs: seq<Blk>, oldEnd: nat, end: nat, wanted: nat) {
    end != oldEnd ==> end - 0x1000_0000 <= 2 * (oldEnd - 0x1000_0000 + wanted + 8 - Tail(bs))
  }

  lemma TailGrows(bs: seq<Blk>, oldEnd: nat, end: nat)
    requires bs != [] && oldEnd + HEADER <= end
    ensures Tail(Extended(bs, oldEnd, end)) == Tail(bs) + (end - oldEnd)
  {
  }

  lemma TailShort(bs: seq<Blk>, wanted: nat)
    requires FirstFit(bs, wanted, 0) == |bs|
    ensures Tail(bs) < wanted + HEADER
  {
    FirstFitIs(bs, wanted, 0);
  }

  /** The block at addr, which was free, has been handed out; what of it was not needed is a free block directly behind it. */
  ghost predicate Carved(bs: seq<Blk>, bs': seq<Blk>, addr: nat, wanted: nat) {
    exists i: nat :: i < |bs| && bs[i].addr == addr && CarvedAt(bs, bs', i, wanted)
  }

  ghost predicate CarvedAt(bs: seq<Blk>, bs': seq<Blk>, i: nat, wanted: nat)
    requires i < |bs|
  {
    && i < |bs'| && bs[i].free && !bs'[i].free && bs'[i].addr == bs[i].addr && wanted <= bs'[i].size <= wanted + HEADER
    && bs'[..i] == bs[..i]
    && if bs'[i].size == bs[i].size then bs'[i + 1..] == bs[i + 1..]
       else bs'[i].size == wanted && i + 1 < |bs'| && bs'[i + 1].free && bs'[i + 1].addr == End(bs'[i]) && End(bs'[i + 1]) == End(bs[i]) && bs'[i + 2..] == bs[i + 1..]
  }

  lemma TakenCarved(bs: seq<Blk>, i: nat, wanted: nat)
    requires i < |bs| && bs[i].free && wanted <= bs[i].size <= wanted + HEADER
    ensures Carved(bs, Taken(bs, i), bs[i].addr, wanted)
  {
    assert CarvedAt(bs, Taken(bs, i), i, wanted);
  }

  lemma SplitCarved(bs: seq<Blk>, i: nat, wanted: nat)
    requires i < |bs| && bs[i].free && bs[i].size > wanted + HEADER
    ensures Carved(bs, Split(bs, i, wanted), bs[i].addr, wanted)
  {
    assert CarvedAt(bs, Split(bs, i, wanted), i, wanted);
  }

  // ----- free bytes

  /** The bytes in free blocks, headers not counted. */
  function FreeBytes(bs: seq<Blk>): nat {
    if bs == [] then 0 else (if bs[0].free then bs[0].size else 0) + FreeBytes(bs[1..])
  }

  lemma {:induction false} FreeJoin(a: seq<Blk>, b: seq<Blk>)
    ensures FreeBytes(a + b) == FreeBytes(a) + FreeBytes(b)
  {
    if a == [] {
      assert a + b == b;
    } else {
      assert (a + b)[1..] == a[1..] + b;
      FreeJoin(a[1..], b);
    }
  }

  lemma FreeOne(b: Blk)
    ensures FreeBytes([b]) == if b.free then b.size else 0
  {
  }

  lemma FreeAround(bs: seq<Blk>, i: nat)
    requires i < |bs|
    ensures FreeBytes(bs) == FreeBytes(bs[..i]) + (if bs[i].free then bs[i].size else 0) + FreeBytes(bs[i + 1..])
  {
    hide FreeBytes;
    assert bs == bs[..i] + ([bs[i]] + bs[i + 1..]);
    FreeJoin(bs[..i], [bs[i]] + bs[i + 1..]);
    FreeJoin([bs[i]], bs[i + 1..]);
    FreeOne(bs[i]);
  }

  /** Handing out a block costs what was asked for and at most one header. */
  lemma CarvedFree(bs: seq<Blk>, bs': seq<Blk>, addr: nat, wanted: nat)
    requires Carved(bs, bs', addr, wanted)
    ensures FreeBytes(bs') + wanted <= FreeBytes(bs) <= FreeBytes(bs') + wanted + HEADER
  {
    hide FreeBytes;
    var i: nat :| i < |bs| && bs[i].addr == addr && CarvedAt(bs, bs', i, wanted);
    FreeAround(bs, i);
    FreeAround(bs', i);
    if bs'[i].size != bs[i].size {
      FreeAround(bs'[i + 1..], 0);
      assert bs'[i + 1..][0] == bs'[i + 1] && bs'[i + 1..][1..] == bs'[i + 2..] && bs'[i + 1..][..0] == [];
      NoFree();
    }
  }

  lemma NoFree()
    ensures FreeBytes([]) == 0
  {
  }

  /** Growing adds to the free bytes all but the header of a new block. */
  lemma ExtendedFree(bs: seq<Blk>, oldEnd: nat, end: nat)
    requires |bs| > 0 && oldEnd + HEADER <= end
    ensures FreeBytes(Extended(bs, oldEnd, end)) + (if bs[|bs| - 1].free then 0 else HEADER) == FreeBytes(bs) + (end - oldEnd)
    ensures Extended(bs, oldEnd, end) != [] && Extended(bs, oldEnd, end)[|Extended(bs, oldEnd, end)| - 1].free
  {
    hide FreeBytes;
    var n, bs' := |bs| - 1, Extended(bs, oldEnd, end);
    if bs[n].free {
      FreeAround(bs, n);
      FreeAround(bs', n);
      assert bs'[..n] == bs[..n] && bs'[n + 1..] == bs[n + 1..];
    } else {
      FreeJoin(bs, [Blk(oldEnd, end - oldEnd - HEADER, true)]);
      FreeOne(Blk(oldEnd, end - oldEnd - HEADER, true));
    }
  }

  /** A run of free blocks: their bytes and their headers fill the space. */
  lemma {:induction false} FreeRun(bs: seq<Blk>, end: nat, i: nat, j: nat)
    requires Tiles(bs, end) && i < j <= |bs| && forall k :: i < k < j ==> bs[k].free
    ensures FreeBytes(bs[i + 1..j]) <= End(bs[j - 1]) - End(bs[i])
    decreases j
  {
    if j == i + 1 {
      NoFree();
    } else {
      FreeRun(bs, end, i, j - 1);
      assert Follows(bs, j - 2);
      assert bs[i + 1..j] == bs[i + 1..j - 1] + [bs[j - 1]];
      FreeJoin(bs[i + 1..j - 1], [bs[j - 1]]);
      FreeOne(bs[j - 1]);
    }
  }

  /** Freeing gives back at least the bytes of the block. */
  lemma MergedFree(bs: seq<Blk>, end: nat, i: nat, j: nat)
    requires Tiles(bs, end) && i < j <= |bs| && bs[i].addr + HEADER <= End(bs[j - 1]) && !bs[i].free && forall k :: i < k < j ==> bs[k].free
    ensures FreeBytes(Merged(bs, i, j)) >= FreeBytes(bs) + bs[i].size
  {
    hide FreeBytes, Tiles;
    var bs' := Merged(bs, i, j);
    FreeAround(bs, i);
    FreeAround(bs', i);
    FreeRun(bs, end, i, j);
    assert bs[i + 1..] == bs[i + 1..j] + bs[j..];
    FreeJoin(bs[i + 1..j], bs[j..]);
    assert bs'[..i] == bs[..i] && bs'[i + 1..] == bs[j..];
  }

  lemma StoredAt(mem: map<nat, nat>, bs: seq<Blk>, end: nat, i: nat)
    requires Laid(mem, bs, end) && i < |bs|
    ensures Stored(mem, bs[i]) && bs[i].addr % 4 == 0 && bs[i].size % 4 == 0
    ensures START <= bs[i].addr && End(bs[i]) <= end
    ensures forall b :: b in LiveSet(bs) && b.addr == bs[i].addr ==> b == bs[i]
  {
    hide Stored;
    Within(bs, end, i);
    forall b | b in LiveSet(bs) && b.addr == bs[i].addr ensures b == bs[i] {
      var k :| 0 <= k < |bs| && bs[k] == b;
      if k != i { Apart(bs, end, i, k); }
    }
  }

  lemma BlockFacts(bs: seq<Blk>, end: nat, i: nat)
    requires Tiles(bs, end) && i < |bs|
    ensures bs[i].addr % 4 == 0 && bs[i].size % 4 == 0
  {
  }

  lemma SplitStored(mem: map<nat, nat>, bs: seq<Blk>, i: nat, wanted: nat)
    requires i < |bs| && wanted + HEADER <= bs[i].size && forall k :: 0 <= k < |bs| && k != i ==> Stored(mem, bs[k])
    requires Stored(mem, Blk(bs[i].addr, wanted, false))
    requires Stored(mem, Blk(bs[i].addr + HEADER + wanted, bs[i].size - wanted - HEADER, true))
    ensures forall k :: 0 <= k < |Split(bs, i, wanted)| ==> Stored(mem, Split(bs, i, wanted)[k])
  {
    hide Stored;
    var bs' := Split(bs, i, wanted);
    forall k | 0 <= k < |bs'| ensures Stored(mem, bs'[k]) {
      if k < i { assert bs'[k] == bs[k]; }
      if k > i + 1 { assert bs'[k] == bs[k - 1]; }
    }
  }

  // ----- every sequence of calls

  datatype HeapOp = Alloc(size: nat) | Release(ptr: nat) | Store(ptr: nat, offset: nat, word: nat)

  /** The caller writes a word into a payload that it holds. */
  predicate Mine(held: map<nat, nat>, op: HeapOp) {
    op.Store? && op.ptr in held && op.offset % 4 == 0 && op.offset + 4 <= Wanted(held[op.ptr]) && op.word < TWO32
  }

  /** The pointers the caller holds, with the sizes it asked for, are the allocated blocks and no others. */
  ghost predicate HeldOK(bs: seq<Blk>, held: map<nat, nat>) {
    && (forall b :: b in LiveSet(bs) ==> b.addr + HEADER in held && b.size >= Wanted(held[b.addr + HEADER]))
    && (forall p :: p in held ==> HEADER <= p && IsLive(bs, p - HEADER))
  }

  lemma OneAt(mem: map<nat, nat>, bs: seq<Blk>, end: nat, b: Blk, b': Blk)
    requires Laid(mem, bs, end) && b in LiveSet(bs) && b' in LiveSet(bs) && b.addr == b'.addr
    ensures b == b'
  {
    hide Stored;
    var i :| 0 <= i < |bs| && bs[i] == b;
    var j :| 0 <= j < |bs| && bs[j] == b';
    if i != j { Apart(bs, end, i, j); }
  }

  /** Any two held payloads are disjoint and aligned, and neither reaches the other's header. */
  lemma HeldApart(mem: map<nat, nat>, bs: seq<Blk>, end: nat, held: map<nat, nat>, p: nat, q: nat)
    requires Laid(mem, bs, end) && HeldOK(bs, held) && p in held && q in held && p < q
    ensures p % 4 == 0 && q % 4 == 0 && p + Wanted(held[p]) + HEADER <= q
  {
    hide Wanted, Laid, LiveSet, IsLive;
    var i := LiveIndex(bs, p - HEADER);
    var j := LiveIndex(bs, q - HEADER);
    OneLive(bs, i);
    OneLive(bs, j);
    LaidTiles(mem, bs, end);
    StoredAt(mem, bs, end, i);
    StoredAt(mem, bs, end, j);
    Apart(bs, end, i, j);
  }

  lemma HeldMore(mem: map<nat, nat>, bs: seq<Blk>, bs': seq<Blk>, end: nat, held: map<nat, nat>, r: nat, size: nat)
    requires HeldOK(bs, held) && Laid(mem, bs', end) && HEADER <= r && Given(bs, bs', r - HEADER, Wanted(size))
    ensures HeldOK(bs', held[r := size]) && r !in held
  {
    hide Laid, Wanted, LiveSet, IsLive;
    var b: Blk :| b.addr == r - HEADER && Wanted(size) <= b.size <= Wanted(size) + HEADER && !b.free && b in bs' && b !in LiveSet(bs) && LiveSet(bs') == LiveSet(bs) + {b};
    forall c | c in LiveSet(bs') && c != b ensures c.addr + HEADER != r {
      if c.addr == b.addr { OneAt(mem, bs', end, b, c); }
    }
    LiveFrom(bs', b);
    forall p | p in held ensures p != r && IsLive(bs', p - HEADER) {
      var c := LiveWitness(bs, p - HEADER);
      LiveFrom(bs', c);
    }
  }

  lemma LiveWitness(bs: seq<Blk>, addr: nat) returns (b: Blk)
    requires IsLive(bs, addr)
    ensures b in LiveSet(bs) && b.addr == addr
  {
    b :| b in LiveSet(bs) && b.addr == addr;
  }

  lemma LiveFrom(bs: seq<Blk>, b: Blk)
    requires b in LiveSet(bs)
    ensures IsLive(bs, b.addr)
  {
  }

  lemma HeldLess(bs: seq<Blk>, bs': seq<Blk>, held: map<nat, nat>, p: nat)
    requires HeldOK(bs, held) && p in held
    requires forall b :: b in LiveSet(bs') <==> b in LiveSet(bs) && b.addr + HEADER != p
    ensures HeldOK(bs', held - {p})
  {
    hide Wanted, LiveSet, IsLive;
    forall q | q in held && q != p ensures IsLive(bs', q - HEADER) {
      var c := LiveWitness(bs, q - HEADER);
      LiveFrom(bs', c);
    }
  }

  /** The heap and its caller between two calls. */
  datatype Shot = Shot(mem: map<nat, nat>, blocks: seq<Blk>, end: nat, frames: nat, held: map<nat, nat>)

  ghost predicate ShotOK(s: Shot) {
    Laid(s.mem, s.blocks, s.end) && HeldOK(s.blocks, s.held)
  }

  /** The words of a payload are what they were. */
  ghost predicate PayloadKept(mem: map<nat, nat>, mem': map<nat, nat>, p: nat, size: nat) {
    forall a :: p <= a < p + size && a in mem ==> a in mem' && mem'[a] == mem[a]
  }

  /** What is held across a call keeps its size and every word of its payload. */
  ghost predicate HeldKept(s: Shot, s': Shot) {
    forall p :: p in s.held && p in s'.held ==> s'.held[p] == s.held[p] && PayloadKept(s.mem, s'.mem, p, Wanted(s.held[p]))
  }

  /** No free block is large enough, and the heap cannot grow. */
  ghost predicate Exhausted(s: Shot, size: nat) {
    FirstFit(s.blocks, Wanted(size), 0) == |s.blocks| && (s.end >= 0x3FFF_F000 || s.frames == 0)
  }

  /** One step: kmalloc hands out a new pointer unless the heap is exhausted, kfree takes one back, or the caller writes a word. */
  ghost predicate Goes(s: Shot, op: HeapOp, s': Shot) {
    match op
    case Alloc(size) =>
      HeldKept(s, s') && Modest(s.blocks, s.end, s'.end, Wanted(size)) && (((exists p: nat :: NewHeld(s.held, p, size, s'.held)) && Spent(s, s', Wanted(size), HEADER))
                          || (s'.held == s.held && Exhausted(s', size) && Spent(s, s', 0, 0)))
    case Release(p) =>
      HeldKept(s, s') && s'.held == s.held - {p} && FreeBytes(s'.blocks) >= FreeBytes(s.blocks) + if p in s.held then Wanted(s.held[p]) else 0
    case Store(p, offset, word) => s' == if Mine(s.held, op) then s.(mem := s.mem[p + offset := word]) else s
  }

  /** Free bytes are conserved: what is gone was asked for, apart from at most `waste` bytes and the header that growth adds. */
  ghost predicate Spent(s: Shot, s': Shot, wanted: nat, waste: nat) {
    && s'.end >= s.end
    && var gone := FreeBytes(s.blocks) + (s'.end - s.end) - NewHeader(s.blocks, s.end, s'.end) - FreeBytes(s'.blocks);
       wanted <= gone <= wanted + waste
  }

  ghost predicate NewHeld(held: map<nat, nat>, p: nat, size: nat, held': map<nat, nat>) {
    p !in held && p != 0 && held' == held[p := size]
  }

  ghost predicate IsRun(ops: seq<HeapOp>, shots: seq<Shot>) {
    && |shots| == |ops| + 1 && (forall i :: 0 <= i <= |ops| ==> ShotOK(shots[i]))
    && (forall i :: 0 <= i < |ops| ==> Goes(shots[i], ops[i], shots[i + 1]))
  }

  ghost function ShotOf(h: Heap, held: map<nat, nat>): Shot
    reads h
  {
    Shot(h.mem, h.blocks, h.heapEnd, h.frames, held)
  }

  lemma PayloadFromBlock(mem: map<nat, nat>, mem': map<nat, nat>, bs: seq<Blk>, held: map<nat, nat>, live: set<Blk>, p: nat)
    requires HeldOK(bs, held) && p in held && Untouched(mem, mem', live)
    requires forall b :: b in LiveSet(bs) && b.addr + HEADER == p ==> b in live
    ensures PayloadKept(mem, mem', p, Wanted(held[p]))
  {
    hide Wanted, LiveSet, IsLive;
    var b := LiveWitness(bs, p - HEADER);
    assert Kept(mem, mem', b);
  }

  lemma AllocKept(s: Shot, s': Shot)
    requires HeldOK(s.blocks, s.held) && Untouched(s.mem, s'.mem, LiveSet(s.blocks))
    requires forall p :: p in s.held && p in s'.held ==> s'.held[p] == s.held[p]
    ensures HeldKept(s, s')
  {
    hide Wanted, LiveSet, HeldOK, Untouched, PayloadKept;
    forall p | p in s.held && p in s'.held ensures PayloadKept(s.mem, s'.mem, p, Wanted(s.held[p])) {
      PayloadFromBlock(s.mem, s'.mem, s.blocks, s.held, LiveSet(s.blocks), p);
    }
  }

  lemma ReleaseKept(s: Shot, s': Shot, q: nat)
    requires HeldOK(s.blocks, s.held) && Untouched(s.mem, s'.mem, LiveSet(s'.blocks)) && s'.held == s.held - {q}
    requires forall b :: b in LiveSet(s'.blocks) <==> b in LiveSet(s.blocks) && b.addr + HEADER != q
    ensures HeldKept(s, s')
  {
    hide Wanted, LiveSet, HeldOK, Untouched, PayloadKept;
    forall p | p in s.held && p in s'.held ensures PayloadKept(s.mem, s'.mem, p, Wanted(s.held[p])) {
      PayloadFromBlock(s.mem, s'.mem, s.blocks, s.held, LiveSet(s'.blocks), p);
    }
  }

  lemma NothingChanged(s: Shot)
    ensures HeldKept(s, s)
  {
  }

  /** Two blocks of four bytes from a new heap: the second stands directly behind the first. */
  method TwoSmall(mem: map<nat, nat>, frames: nat) returns (p: nat, q: nat)
    requires forall a :: START <= a < CEILING && a % 4 == 0 ==> a in mem
    ensures p == 0x1000_0008 && q == 0x1000_0014
  {
    hide Laid, LiveSet, Backed, Paged, Given, Untouched, FreeBytes, NewHeader, Tail;
    var h := new Heap(mem, frames);
    ghost var grown;
    p, grown := h.Kmalloc(4);
    ghost var i: nat :| i < |grown| && grown[i].addr == p - HEADER && CarvedAt(grown, h.blocks, i, Wanted(4));
    assert i == 0 && !h.blocks[0].free && h.blocks[1].free;
    q, grown := h.Kmalloc(4);
  }

  method RunAlloc(h: Heap, size: nat, held: map<nat, nat>) returns (held': map<nat, nat>)
    requires h.Valid() && HeldOK(h.blocks, held) && size < TWO32
    modifies h
    ensures h.Valid() && HeldOK(h.blocks, held') && Goes(old(ShotOf(h, held)), Alloc(size), ShotOf(h, held'))
  {
    hide Laid, LiveSet, Backed, Paged, HeldOK, Given, Wanted, Untouched, FirstFit, HeldKept, Carved, FreeBytes, NewHeader;
    ghost var s := ShotOf(h, held);
    var r;
    ghost var grown;
    r, grown := h.Kmalloc(size);
    held' := held;
    if r != 0 {
      CarvedFree(grown, h.blocks, r - HEADER, Wanted(size));
      HeldMore(h.mem, s.blocks, h.blocks, h.heapEnd, held, r, size);
      held' := held[r := size];
      assert NewHeld(held, r, size, held');
    } else {
      HeldSame(s.blocks, h.blocks, held);
    }
    AllocKept(s, ShotOf(h, held'));
  }

  method RunRelease(h: Heap, p: nat, held: map<nat, nat>) returns (held': map<nat, nat>)
    requires h.Valid() && HeldOK(h.blocks, held)
    modifies h
    ensures h.Valid() && HeldOK(h.blocks, held') && Goes(old(ShotOf(h, held)), Release(p), ShotOf(h, held'))
  {
    hide Laid, LiveSet, Backed, Paged, HeldOK, Wanted, Untouched, HeldKept, IsLive, Absorbed, FreeBytes;
    ghost var s := ShotOf(h, held);
    held' := held - {p};
    if p in held {
      HeldLive(s.blocks, held, p);
      ghost var b := LiveWitness(s.blocks, p - HEADER);
      HeldSize(s.blocks, held, b);
      h.Kfree(p);
      HeldLess(s.blocks, h.blocks, held, p);
      ReleaseKept(s, ShotOf(h, held'), p);
    } else {
      assert held' == held;
      NothingChanged(s);
    }
  }

  /** A word in the payload of a held pointer is in no header. */
  lemma StoreLaid(mem: map<nat, nat>, bs: seq<Blk>, end: nat, held: map<nat, nat>, op: HeapOp)
    requires Laid(mem, bs, end) && HeldOK(bs, held) && Mine(held, op)
    ensures Laid(mem[op.ptr + op.offset := op.word], bs, end)
  {
    hide Laid, HeldOK, Wanted;
    var i := StoreIndex(bs, held, op);
    PayloadLaid(mem, bs, end, i, op.ptr + op.offset, op.word);
  }

  lemma PayloadLaid(mem: map<nat, nat>, bs: seq<Blk>, end: nat, i: nat, a: nat, word: nat)
    requires Laid(mem, bs, end) && i < |bs| && bs[i].addr + HEADER <= a < End(bs[i])
    ensures Laid(mem[a := word], bs, end)
  {
    hide Tiles, LiveSet;
    var mem' := mem[a := word];
    OthersStored(mem, mem', bs, end, i);
    assert Stored(mem, bs[i]);
    assert Stored(mem', bs[i]);
  }

  lemma StoreIndex(bs: seq<Blk>, held: map<nat, nat>, op: HeapOp) returns (i: nat)
    requires HeldOK(bs, held) && Mine(held, op)
    ensures i < |bs| && bs[i].addr + HEADER == op.ptr && op.offset + 4 <= bs[i].size
  {
    hide Wanted, LiveSet, IsLive;
    i := LiveIndex(bs, op.ptr - HEADER);
    OneLive(bs, i);
  }

  method RunStore(h: Heap, op: HeapOp, held: map<nat, nat>)
    requires h.Valid() && HeldOK(h.blocks, held) && op.Store?
    modifies h
    ensures h.Valid() && HeldOK(h.blocks, held) && Goes(old(ShotOf(h, held)), op, ShotOf(h, held))
  {
    hide Laid, LiveSet, Backed, Paged, HeldOK, Wanted;
    if Mine(held, op) {
      StoreLaid(h.mem, h.blocks, h.heapEnd, held, op);
      h.mem := h.mem[op.ptr + op.offset := op.word];
    }
  }

  /**
   * Over every sequence of kmalloc and kfree calls that frees only what it holds: the heap stays tiled, the caller's
   * pointers are its allocated blocks, a call is refused only by an exhausted heap, and no call writes a held word; the
   * words that the caller itself writes in between reach no header.
   */
  method Run(h: Heap, ops: seq<HeapOp>) returns (held: map<nat, nat>, ghost shots: seq<Shot>)
    requires h.Valid() && LiveSet(h.blocks) == {} && forall i :: 0 <= i < |ops| && ops[i].Alloc? ==> ops[i].size < TWO32
    modifies h
    ensures h.Valid() && IsRun(ops, shots)
    ensures shots[0] == old(ShotOf(h, map[])) && shots[|ops|] == ShotOf(h, held)
  {
    hide Laid, LiveSet, Backed, Paged, HeldOK, Goes;
    held := map[];
    assert HeldOK(h.blocks, held) by { HeldNone(h.blocks); }
    shots := [ShotOf(h, held)];
    for n := 0 to |ops|
      invariant h.Valid() && HeldOK(h.blocks, held) && IsRun(ops[..n], shots)
      invariant shots[0] == old(ShotOf(h, map[])) && shots[n] == ShotOf(h, held)
    {
      match ops[n] {
        case Alloc(size) => held := RunAlloc(h, size, held);
        case Release(p) => held := RunRelease(h, p, held);
        case Store(_, _, _) => RunStore(h, ops[n], held);
      }
      RunMore(ops, n, shots, ShotOf(h, held));
      shots := shots + [ShotOf(h, held)];
    }
    assert ops[..|ops|] == ops;
  }

  lemma RunMore(ops: seq<HeapOp>, n: nat, shots: seq<Shot>, s: Shot)
    requires n < |ops| && IsRun(ops[..n], shots) && Goes(shots[n], ops[n], s) && ShotOK(s)
    ensures IsRun(ops[..n + 1], shots + [s])
  {
    hide Goes, ShotOK;
    var more, shots' := ops[..n + 1], shots + [s];
    forall i | 0 <= i < |more| ensures Goes(shots'[i], more[i], shots'[i + 1]) {
      if i < n { assert more[i] == ops[..n][i]; }
    }
  }

  ghost predicate Writes(op: HeapOp, p: nat, a: nat) {
    op.Store? && op.ptr == p && op.ptr + op.offset == a
  }

  ghost predicate HeldFrom(shots: seq<Shot>, i: nat, j: nat, p: nat) {
    i <= j < |shots| && forall k :: i <= k <= j ==> p in shots[k].held
  }

  /** Steps i to j - 1 of the run do not write this word of p's payload. */
  ghost predicate Unwritten(ops: seq<HeapOp>, i: nat, j: nat, p: nat, a: nat) {
    i <= j <= |ops| && forall k :: i <= k < j ==> !Writes(ops[k], p, a)
  }

  /** From kmalloc to kfree every word of a payload keeps its value until its holder writes it, whatever else is done. */
  lemma {:induction false} PayloadStays(ops: seq<HeapOp>, shots: seq<Shot>, i: nat, j: nat, p: nat, a: nat)
    requires IsRun(ops, shots) && i <= j <= |ops| && HeldFrom(shots, i, j, p) && Unwritten(ops, i, j, p, a)
    requires p <= a < p + Wanted(shots[i].held[p]) && a in shots[i].mem
    ensures p in shots[j].held && shots[j].held[p] == shots[i].held[p] && a in shots[j].mem && shots[j].mem[a] == shots[i].mem[a]
    decreases j
  {
    hide ShotOK, Wanted, Goes;
    if i < j {
      PayloadStays(ops, shots, i, j - 1, p, a);
      assert Goes(shots[j - 1], ops[j - 1], shots[j]);
      assert !Writes(ops[j - 1], p, a);
      if Mine(shots[j - 1].held, ops[j - 1]) && ops[j - 1].ptr != p {
        var q := ops[j - 1].ptr;
        if p < q { RunApart(ops, shots, j - 1, p, q); } else { RunApart(ops, shots, j - 1, q, p); }
      }
      WordKept(shots[j - 1], ops[j - 1], shots[j], p, a);
    }
  }

  lemma WordKept(s: Shot, op: HeapOp, s': Shot, p: nat, a: nat)
    requires Goes(s, op, s') && p in s.held && p in s'.held && p <= a < p + Wanted(s.held[p]) && a in s.mem
    requires Mine(s.held, op) ==> op.ptr + op.offset != a
    ensures s'.held[p] == s.held[p] && a in s'.mem && s'.mem[a] == s.mem[a]
  {
    hide Wanted, Exhausted, NewHeld;
  }

  /** A word that the caller has written reads back until it writes it again or frees the block. */
  lemma StoreReadsBack(ops: seq<HeapOp>, shots: seq<Shot>, i: nat, j: nat, op: HeapOp)
    requires IsRun(ops, shots) && i < j <= |ops| && ops[i] == op && Mine(shots[i].held, op) && HeldFrom(shots, i, j, op.ptr)
    requires Unwritten(ops, i + 1, j, op.ptr, op.ptr + op.offset)
    ensures j < |shots| && op.ptr + op.offset in shots[j].mem && shots[j].mem[op.ptr + op.offset] == op.word
  {
    hide ShotOK, Wanted;
    assert Goes(shots[i], op, shots[i + 1]);
    PayloadStays(ops, shots, i + 1, j, op.ptr, op.ptr + op.offset);
  }

  /** In every state of a run, held payloads are aligned and lie apart. */
  lemma RunApart(ops: seq<HeapOp>, shots: seq<Shot>, i: nat, p: nat, q: nat)
    requires IsRun(ops, shots) && i <= |ops| && p in shots[i].held && q in shots[i].held && p < q
    ensures p % 4 == 0 && q % 4 == 0 && p + Wanted(shots[i].held[p]) + 8 <= q
  {
    hide Goes, Wanted, Laid, HeldOK;
    assert ShotOK(shots[i]);
    HeldApart(shots[i].mem, shots[i].blocks, shots[i].end, shots[i].held, p, q);
  }

  lemma HeldLive(bs: seq<Blk>, held: map<nat, nat>, p: nat)
    requires HeldOK(bs, held) && p in held
    ensures HEADER <= p && IsLive(bs, p - HEADER)
  {
    hide Wanted, LiveSet, IsLive;
  }

  lemma HeldSize(bs: seq<Blk>, held: map<nat, nat>, b: Blk)
    requires HeldOK(bs, held) && b in LiveSet(bs)
    ensures b.addr + HEADER in held && b.size >= Wanted(held[b.addr + HEADER])
  {
    hide Wanted, LiveSet, IsLive;
  }

  lemma HeldNone(bs: seq<Blk>)
    requires LiveSet(bs) == {}
    ensures HeldOK(bs, map[])
  {
  }

  lemma HeldSame(bs: seq<Blk>, bs': seq<Blk>, held: map<nat, nat>)
    requires HeldOK(bs, held) && LiveSet(bs') == LiveSet(bs)
    ensures HeldOK(bs', held)
  {
    hide LiveSet, Wanted, IsLive;
    forall q | q in held ensures IsLive(bs', q - HEADER) {
      var c := LiveWitness(bs, q - HEADER);
      LiveFrom(bs', c);
    }
  }
}
