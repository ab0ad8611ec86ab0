/** write_inode (kernel/fs/block/blockController.c): the direct, single and double indirect loops with their unwinds. */
module WriteInode {
  import opened Blocks
  import opened BlockTree
  import opened Bitmaps
  import opened Volumes
  import opened MapFileBlock
  import opened FileBlocks
  import opened FileSystem
  import opened IndirFree
  import opened WriteFile

  /** The device and the bitmap. */
  ghost function Device(fs: Volume): Snap
    reads fs, fs.blocks
  {
    Now(fs, [], map[], 0)
  }

  /** The state between two steps: `done` file blocks are in the tree, `extra` are allocated blocks outside it. */
  ghost predicate Drafting(base: Snap, v: Snap, r: Snap, extra: set<nat>, pend: set<nat>, buf: seq<byte>, done: nat) {
    Building(base, v, r, extra, pend) && Laid(v, buf, done) && pend <= DoubleIn(v.t)
  }

  /** Nothing allocated at the start has changed, and nothing else is allocated. */
  ghost predicate GivenBack(base: Snap, r: Snap) {
    r.used == base.used && r.free == base.free && BaseKeptBytes(base, r)
  }

  ghost predicate BaseKeptBytes(base: Snap, r: Snap) {
    |r.disk| == |base.disk| && forall b :: b in base.used && 0 <= b < |r.disk| ==> r.disk[b] == base.disk[b]
  }

  lemma BaseBytes(base: Snap, v: Snap, r: Snap, extra: set<nat>, pend: set<nat>)
    requires Building(base, v, r, extra, pend) && pend <= DoubleIn(v.t)
    ensures BaseKeptBytes(base, r)
  {
    assert PtrBlocks(base.t) == {};
  }

  lemma TookExtra(base: Snap, v: Snap, r: Snap, r': Snap, extra: set<nat>, pend: set<nat>, n: nat)
    requires Building(base, v, r, extra, pend) && r'.disk == r.disk && n !in r.used && 0 < n < |r.disk|
    requires r'.used == r.used + {n} && r'.free == r.free - 1
    ensures Building(base, v, r', extra + {n}, pend) && n !in extra && |extra + {n}| == |extra| + 1 && n !in v.used
  {
  }

  lemma WroteExtra(base: Snap, v: Snap, r: Snap, r': Snap, extra: set<nat>, pend: set<nat>, n: nat, blk: Block)
    requires Building(base, v, r, extra, pend) && n in extra && n < |r.disk|
    requires r'.disk == r.disk[n := blk] && r'.used == r.used && r'.free == r.free
    ensures Building(base, v, r', extra, pend)
  {
  }

  lemma LaidDirect(v: Snap, w: Snap, i: nat, n: nat, buf: seq<byte>)
    requires i < 12 && Laid(v, buf, i) && Sound(v) && 0 < n < |v.disk| && IsWord(n) && n !in v.used
    requires w == Add(v, Root(i), n, Chunk(buf, i))
    ensures Root(i) !in v.t && Laid(w, buf, i + 1)
  {
    hide Sound, Data, Chunk;
    assert Root(i) !in v.t;
    forall j | 0 <= j < i + 1 ensures Data(w, j) == Chunk(buf, j) {
      AddFile(v, Root(i), n, Chunk(buf, i), j);
    }
  }

  /** A data block written to the device takes direct position i. */
  lemma BuildDirect(base: Snap, v: Snap, r: Snap, i: nat, n: nat, buf: seq<byte>) returns (w: Snap)
    requires Drafting(base, v, r, {n}, {}, buf, i) && i < 12 && n < |r.disk| && r.disk[n] == Chunk(buf, i)
    ensures Drafting(base, w, r, {}, {}, buf, i + 1) && w.t == v.t[Root(i) := n] && w.cnt == v.cnt + 1
  {
    hide Sound, Grew, Laid, Matches, Building, Took, Chunk;
    BuildingFacts(base, v, r, {n}, {});
    assert |{n}| == 1;
    w := Add(v, Root(i), n, Chunk(buf, i));
    LaidDirect(v, w, i, n, buf);
    AddTook(v, Root(i), n, Chunk(buf, i));
    MatchDirect(v, w, r, i, n);
    Moved(base, v, w, r, {n}, {n}, {}, {});
    assert {n} - {n} == {};
  }

  lemma MatchDirect(v: Snap, w: Snap, r: Snap, i: nat, n: nat)
    requires Matches(v, r, {}) && Took(v, w, Root(i), n) && w.disk[n] == r.disk[n]
    ensures Matches(w, r, {})
  {
  }

  /** Copying the next block out of the buffer, two bytes at a time; `cursor` counts 16-bit units. */
  method FillBlock(buf: seq<byte>, cursor: nat, ghost i: nat) returns (blk: Block, next: nat)
    requires cursor == 2048 * i && 4096 * i < |buf|
    ensures blk == Chunk(buf, i) && (4096 * (i + 1) <= |buf| ==> next == 2048 * (i + 1))
  {
    var copy := if |buf| - cursor * 2 < 4096 then |buf| - cursor * 2 else 4096;
    blk, next := ZeroBlock(), cursor;
    for j := 0 to copy / 2
      invariant next == cursor + j
      invariant forall p :: 0 <= p < 4096 ==> blk[p] == if p < 2 * j then buf[4096 * i + p] else 0
    {
      blk := blk[2 * j := buf[2 * next]][2 * j + 1 := buf[2 * next + 1]];
      next := next + 1;
    }
    if copy % 2 == 1 {
      blk := blk[copy - 1 := buf[2 * next]];
    }
    assert forall p :: 0 <= p < 4096 ==> blk[p] == Chunk(buf, i)[p];
  }

  function Zeros(n: nat): seq<nat> {
    seq(n, _ => 0)
  }

  lemma BlockBelow(size: nat, i: nat)
    requires size < 0x1_0000_0000 && i < BlockCount(size)
    ensures 4096 * i < size && (i + 1 < BlockCount(size) ==> 4096 * (i + 1) <= size)
  {
  }

  /** alloc_block and write_block of the next block of the buffer. */
  method PutChunk(fs: Volume, buf: seq<byte>, cursor: nat, ghost i: nat,
                  ghost base: Snap, ghost v: Snap, ghost extra: set<nat>, ghost pend: set<nat>) returns (n: nat, next: nat)
    requires fs.BlocksReady() && Building(base, v, Device(fs), extra, pend) && cursor == 2048 * i && 4096 * i < |buf|
    modifies fs`disk, fs.blocks
    ensures fs.BlocksReady() && |fs.disk| == |old(fs.disk)|
    ensures n == 0 ==> Device(fs) == old(Device(fs)) && fs.blocks.superFree == 0
    ensures n != 0 ==> Building(base, v, Device(fs), extra + {n}, pend) && n !in extra && n !in v.used && n < |fs.disk|
    ensures n != 0 ==> fs.disk == old(fs.disk)[n := Chunk(buf, i)] && (4096 * (i + 1) <= |buf| ==> next == 2048 * (i + 1))
    ensures n != 0 ==> fs.blocks.superFree == old(fs.blocks.superFree) - 1
  {
    hide Volume.BlocksReady, Building, Chunk;
    ghost var r := Device(fs);
    n := fs.AllocBlock();
    next := cursor;
    if n == 0 { return; }
    BuildingFacts(base, v, r, extra, pend);
    TookExtra(base, v, r, Device(fs), extra, pend, n);
    ghost var r1 := Device(fs);
    var blk: Block;
    blk, next := FillBlock(buf, cursor, i);
    fs.WriteBlock(n, blk);
    WroteExtra(base, v, r1, Device(fs), extra + {n}, pend, n, blk);
  }

  lemma PendIs(base: Snap, v: Snap, r: Snap, extra: set<nat>, pend: set<nat>, buf: seq<byte>, done: nat)
    requires Drafting(base, v, r, extra, pend, buf, done)
    ensures (forall b :: b in pend ==> Root(13) in v.t && v.t[Root(13)] == b) && Root(14) !in v.t
    ensures Building(base, v, r, extra, pend) && BaseKeptBytes(base, r) && r.free + |extra| + v.cnt == base.free
  {
    BaseBytes(base, v, r, extra, pend);
  }

  /** One of the five failing allocations: everything taken since the start is given back. */
  method Abort(fs: Volume, ptr: seq<nat>, cur: seq<nat>, words: seq<nat>, spares: seq<nat>,
               ghost base: Snap, ghost v: Snap, ghost extra: set<nat>, ghost pend: set<nat>, ghost buf: seq<byte>, ghost done: nat)
    requires fs.BlocksReady() && Drafting(base, v, Device(fs), extra, pend, buf, done) && Recorded(ptr, cur, v.t)
    requires Nonrepeating(words) && Nonrepeating(spares) && Entries(words) !! Entries(spares)
    requires Entries(words) + Entries(spares) == extra + DoubleIn(v.t) && fs.blocks.superFree == 0
    modifies fs.blocks
    ensures fs.BlocksReady() && GivenBack(base, Device(fs)) && base.free == v.cnt + |extra|
  {
    hide Volume.BlocksReady, Building, Drafting, Nonrepeating, Entries, Recorded, DoubleIn;
    PendIs(base, v, Device(fs), extra, pend, buf, done);
    Unwind(fs, ptr, cur, words, spares, base, v, extra, pend);
  }

  ghost predicate DirectDone(base: Snap, v: Snap, r: Snap, buf: seq<byte>, ptr: seq<nat>, done: nat) {
    Drafting(base, v, r, {}, {}, buf, done) && Recorded(ptr, Zeros(1024), v.t) && v.cnt == done && done <= 12
  }

  lemma DirectStart(base: Snap, r: Snap, buf: seq<byte>)
    requires base.t == map[] && base.ptr == Zeros(15) && base.cnt == 0 && |base.disk| <= 0x2000_0000
    requires r.disk == base.disk && r.used == base.used && r.free == base.free
    ensures DirectDone(base, base, r, buf, Zeros(15), 0)
  {
  }

  lemma DirectFacts(base: Snap, v: Snap, r: Snap, buf: seq<byte>, ptr: seq<nat>, i: nat)
    requires DirectDone(base, v, r, buf, ptr, i)
    ensures Building(base, v, r, {}, {}) && Drafting(base, v, r, {}, {}, buf, i) && Recorded(ptr, Zeros(1024), v.t) && v.cnt == i
    ensures Entries([]) + Entries([]) == {} + DoubleIn(v.t) && Nonrepeating([]) && Entries([]) !! Entries([])
  {
  }

  lemma DirectNext(base: Snap, v: Snap, r: Snap, w: Snap, r': Snap, buf: seq<byte>, ptr: seq<nat>, i: nat, n: nat)
    requires DirectDone(base, v, r, buf, ptr, i) && i < 12
    requires Drafting(base, w, r', {}, {}, buf, i + 1) && w.t == v.t[Root(i) := n] && w.cnt == v.cnt + 1
    ensures |ptr| == 15 && DirectDone(base, w, r', buf, ptr[i := n], i + 1)
  {
    hide Drafting;
  }

  /** One pass of the direct loop. */
  method PutDirect(fs: Volume, buf: seq<byte>, ptr: seq<nat>, i: nat, cursor: nat, ghost base: Snap, ghost v: Snap)
    returns (ok: bool, ptr': seq<nat>, next: nat, ghost w: Snap)
    requires fs.BlocksReady() && DirectDone(base, v, Device(fs), buf, ptr, i) && i < 12 && |ptr| == 15
    requires cursor == 2048 * i && 4096 * i < |buf|
    modifies fs`disk, fs.blocks
    ensures fs.BlocksReady() && |ptr'| == 15
    ensures !ok ==> GivenBack(base, Device(fs)) && base.free == i
    ensures ok ==> DirectDone(base, w, Device(fs), buf, ptr', i + 1) && (4096 * (i + 1) <= |buf| ==> next == 2048 * (i + 1))
  {
    hide Volume.BlocksReady, Building, Chunk, DirectDone, Drafting, GivenBack, Entries, Recorded, Nonrepeating, Zeros;
    ghost var r := Device(fs);
    DirectFacts(base, v, r, buf, ptr, i);
    ptr', w := ptr, v;
    var n;
    n, next := PutChunk(fs, buf, cursor, i, base, v, {}, {});
    if n == 0 {
      Abort(fs, ptr, Zeros(1024), [], [], base, v, {}, {}, buf, i);
      return false, ptr', next, w;
    }
    assert {} + {n} == {n};
    DraftMore(base, v, r, Device(fs), {}, {n}, {}, buf, i);
    w := BuildDirect(base, v, Device(fs), i, n, buf);
    DirectNext(base, v, r, w, Device(fs), buf, ptr, i, n);
    return true, ptr[i := n], next, w;
  }

  lemma DraftMore(base: Snap, v: Snap, r: Snap, r': Snap, extra: set<nat>, extra': set<nat>, pend: set<nat>, buf: seq<byte>, done: nat)
    requires Drafting(base, v, r, extra, pend, buf, done) && Building(base, v, r', extra', pend)
    ensures Drafting(base, v, r', extra', pend, buf, done)
  {
  }

  /** The loop over the twelve direct pointers. */
  method WriteDirect(fs: Volume, buf: seq<byte>, ghost base: Snap)
    returns (ok: bool, ptr: seq<nat>, left: nat, cursor: nat, sectors: nat, ghost v: Snap)
    requires fs.BlocksReady() && base == Now(fs, Zeros(15), map[], 0) && |buf| < 0x1_0000_0000
    modifies fs`disk, fs.blocks
    ensures fs.BlocksReady() && |ptr| == 15
    ensures !ok ==> GivenBack(base, Device(fs)) && base.free < BlockCount(|buf|)
    ensures ok ==> left <= BlockCount(|buf|) && DirectDone(base, v, Device(fs), buf, ptr, BlockCount(|buf|) - left)
    ensures ok ==> left == if BlockCount(|buf|) < 12 then 0 else BlockCount(|buf|) - 12
    ensures ok ==> sectors == 8 * (BlockCount(|buf|) - left) && (left > 0 ==> cursor == 2048 * 12)
  {
    hide Volume.BlocksReady, DirectDone, GivenBack;
    ptr, left, cursor, sectors := Zeros(15), BlockCount(|buf|), 0, 0;
    v := base;
    fs.FitsDisk();
    DirectStart(base, Device(fs), buf);
    var i := 0;
    while i < 12 && left > 0
      invariant fs.BlocksReady() && i <= 12 && left == BlockCount(|buf|) - i && sectors == 8 * i && |ptr| == 15
      invariant DirectDone(base, v, Device(fs), buf, ptr, i) && (left > 0 ==> cursor == 2048 * i)
    {
      BlockBelow(|buf|, i);
      var more, ptr', next;
      ghost var w;
      more, ptr', next, w := PutDirect(fs, buf, ptr, i, cursor, base, v);
      ptr, cursor, v := ptr', next, w;
      if !more { return false, ptr, left, cursor, sectors, v; }
      sectors, left, i := sectors + 8, left - 1, i + 1;
    }
    ok := true;
  }

  // ----- one single indirect block

  /** Block b is being filled with data pointers: m are in the buffer `words`, none of this is in the tree yet. */
  ghost predicate Filling(base: Snap, v: Snap, r: Snap, extra: set<nat>, pend: set<nat>, buf: seq<byte>, idx: nat, b: nat, words: seq<nat>, m: nat) {
    && idx <= 1024 && m <= 1024 && |words| == 1024
    && Drafting(base, v, r, extra + {b} + Firsts(words, m), pend, buf, First(idx))
    && Separate(extra, b, words, m) && Drafted(r.disk, v.used, words, m) && Copied(r.disk, buf, words, m, First(idx))
  }

  ghost predicate Separate(extra: set<nat>, b: nat, words: seq<nat>, m: nat)
    requires m <= |words|
  {
    b !in extra && b !in Firsts(words, m) && Firsts(words, m) !! extra && |Firsts(words, m)| == m
  }

  lemma FillingStart(base: Snap, v: Snap, r: Snap, extra: set<nat>, pend: set<nat>, buf: seq<byte>, idx: nat, b: nat)
    requires Drafting(base, v, r, extra + {b}, pend, buf, First(idx)) && idx <= 1024 && b !in extra
    ensures Filling(base, v, r, extra, pend, buf, idx, b, Zeros(1024), 0)
  {
    assert Firsts(Zeros(1024), 0) == {};
    assert extra + {b} + {} == extra + {b};
  }

  lemma FirstsSame(words: seq<nat>, m: nat, n: nat)
    requires m < |words|
    ensures Firsts(words[m := n], m + 1) == Firsts(words, m) + {n}
  {
    assert forall j :: 0 <= j < m ==> words[m := n][j] == words[j];
    assert words[m := n][m] == n;
  }

  lemma FillingNext(base: Snap, v: Snap, r: Snap, r': Snap, extra: set<nat>, pend: set<nat>, buf: seq<byte>, idx: nat, b: nat, words: seq<nat>, m: nat, n: nat)
    requires Filling(base, v, r, extra, pend, buf, idx, b, words, m) && m < 1024
    requires Building(base, v, r', extra + {b} + Firsts(words, m) + {n}, pend) && 0 < n < |r.disk|
    requires n !in extra + {b} + Firsts(words, m) && n !in v.used && r'.disk == r.disk[n := Chunk(buf, First(idx) + m)]
    ensures |words| == 1024 && Filling(base, v, r', extra, pend, buf, idx, b, words[m := n], m + 1)
  {
    hide Chunk, Drafting, Building, Separate, Drafted, Copied, Firsts;
    FirstsSame(words, m, n);
    assert extra + {b} + Firsts(words[m := n], m + 1) == extra + {b} + Firsts(words, m) + {n};
    SeparateNext(extra, b, words, m, n);
    BuildingFacts(base, v, r', extra + {b} + Firsts(words, m) + {n}, pend);
    WithinDisk(base, v, r', extra + {b} + Firsts(words, m) + {n}, pend);
    DraftMore(base, v, r, r', extra + {b} + Firsts(words, m), extra + {b} + Firsts(words[m := n], m + 1), pend, buf, First(idx));
    DraftedNext(base, v, r, r', extra, pend, buf, idx, b, words, m, n);
  }

  lemma WithinDisk(base: Snap, v: Snap, r: Snap, extra: set<nat>, pend: set<nat>)
    requires Building(base, v, r, extra, pend)
    ensures |r.disk| <= 0x2000_0000
  {
  }

  lemma SeparateNext(extra: set<nat>, b: nat, words: seq<nat>, m: nat, n: nat)
    requires m < |words| && Separate(extra, b, words, m) && n !in extra + {b} + Firsts(words, m)
    ensures Separate(extra, b, words[m := n], m + 1)
  {
    FirstsSame(words, m, n);
  }

  lemma DraftedNext(base: Snap, v: Snap, r: Snap, r': Snap, extra: set<nat>, pend: set<nat>, buf: seq<byte>, idx: nat, b: nat, words: seq<nat>, m: nat, n: nat)
    requires Filling(base, v, r, extra, pend, buf, idx, b, words, m) && m < 1024 && 0 < n < |r.disk|
    requires n !in Firsts(words, m) && n !in v.used && r'.disk == r.disk[n := Chunk(buf, First(idx) + m)] && |r.disk| <= 0x2000_0000
    ensures Drafted(r'.disk, v.used, words[m := n], m + 1)
    ensures Copied(r'.disk, buf, words[m := n], m + 1, First(idx))
  {
    hide Chunk, Drafting;
    assert forall j :: 0 <= j < m ==> words[j] in Firsts(words, m);
  }

  lemma FillingFacts(base: Snap, v: Snap, r: Snap, extra: set<nat>, pend: set<nat>, buf: seq<byte>, idx: nat, b: nat, words: seq<nat>, m: nat)
    requires Filling(base, v, r, extra, pend, buf, idx, b, words, m)
    ensures idx <= 1024 && m <= 1024 && |words| == 1024
    ensures Building(base, v, r, extra + {b} + Firsts(words, m), pend)
    ensures Drafting(base, v, r, extra + {b} + Firsts(words, m), pend, buf, First(idx))
    ensures |extra + {b} + Firsts(words, m)| == |extra| + 1 + m
  {
  }

  /** The two pointer blocks allocated ahead of time, as far as they are not in the tree. */
  ghost function Ahead(t: Tree, d: nat, tp: nat): set<nat> {
    {tp} + if Root(13) in t then {} else {d}
  }

  /** The state at the head of the loop over single indirect blocks. */
  ghost predicate Doubling(base: Snap, v: Snap, r: Snap, buf: seq<byte>, ptr: seq<nat>, cur: seq<nat>, idx: nat, d: nat, tp: nat, done: nat) {
    && Drafting(base, v, r, Ahead(v.t, d, tp), DoubleIn(v.t), buf, done) && AheadOK(v.t, d, tp) && Recorded(ptr, cur, v.t)
    && v.cnt == done + idx + if idx < 2 then 0 else 1
  }

  ghost predicate AheadOK(t: Tree, d: nat, tp: nat) {
    0 < d && 0 < tp && d != tp && (Root(13) in t ==> t[Root(13)] == d)
  }

  lemma DoublingFacts(base: Snap, v: Snap, r: Snap, buf: seq<byte>, ptr: seq<nat>, cur: seq<nat>, idx: nat, d: nat, tp: nat, done: nat)
    requires Doubling(base, v, r, buf, ptr, cur, idx, d, tp, done)
    ensures Building(base, v, r, Ahead(v.t, d, tp), DoubleIn(v.t)) && AheadOK(v.t, d, tp) && Recorded(ptr, cur, v.t)
    ensures Drafting(base, v, r, Ahead(v.t, d, tp), DoubleIn(v.t), buf, done)
    ensures v.cnt + |Ahead(v.t, d, tp)| == done + idx + (if idx < 2 then 0 else 1) + (if Root(13) in v.t then 1 else 2)
    ensures Root(13) in v.t <==> done > 1036
  {
  }

  lemma TwoSpares(t: Tree, d: nat, tp: nat)
    requires AheadOK(t, d, tp)
    ensures Nonrepeating([]) && Nonrepeating([d, tp]) && Entries([]) !! Entries([d, tp])
    ensures Entries([]) + Entries([d, tp]) == Ahead(t, d, tp) + DoubleIn(t)
  {
    var s := [d, tp];
    assert s[0] == d && s[1] == tp;
  }

  lemma FirstsEntries(disk: seq<Block>, used: set<nat>, words: seq<nat>, m: nat)
    requires Drafted(disk, used, words, m)
    ensures Entries(words) == Firsts(words, m) && Nonrepeating(words)
  {
    forall b | b in Firsts(words, m) ensures b in Entries(words) {
      var j :| 0 <= j < m && words[j] == b;
    }
    forall b | b in Entries(words) ensures b in Firsts(words, m) {
      var j :| 0 <= j < |words| && words[j] != 0 && words[j] == b;
    }
  }

  lemma ThreeSpares(t: Tree, b: nat, d: nat, tp: nat, words: seq<nat>, first: set<nat>)
    requires AheadOK(t, d, tp) && 0 < b && b !in Ahead(t, d, tp) + DoubleIn(t) && Entries(words) == first
    requires first !! Ahead(t, d, tp) + DoubleIn(t) && b !in first
    ensures Nonrepeating([b, d, tp]) && Entries(words) !! Entries([b, d, tp])
    ensures Entries(words) + Entries([b, d, tp]) == Ahead(t, d, tp) + {b} + first + DoubleIn(t)
  {
    var s := [b, d, tp];
    assert s[0] == b && s[1] == d && s[2] == tp;
    assert Ahead(t, d, tp) + DoubleIn(t) == {d, tp};
    assert Entries(s) == {b, d, tp};
  }

  lemma FillingApart(base: Snap, v: Snap, r: Snap, pend: set<nat>, buf: seq<byte>, idx: nat, b: nat, words: seq<nat>, m: nat, d: nat, tp: nat)
    requires Filling(base, v, r, Ahead(v.t, d, tp), pend, buf, idx, b, words, m)
    ensures 0 < b && b !in Ahead(v.t, d, tp) + DoubleIn(v.t) && |words| == 1024 && m <= 1024 && b !in Firsts(words, m)
    ensures Firsts(words, m) !! Ahead(v.t, d, tp) + DoubleIn(v.t) && Drafted(r.disk, v.used, words, m)
  {
    hide Firsts, Drafted, Grew, Laid, Matches, Copied, TreeShape;
    var all := Ahead(v.t, d, tp) + {b} + Firsts(words, m);
    BuildingFacts(base, v, r, all, pend);
    assert b in all;
    if Root(13) in v.t { KeyUsed(v, Root(13)); }
  }

  /** Everything allocated outside the tree while b is being filled. */
  ghost function Taken(extra: set<nat>, b: nat, words: seq<nat>, m: nat): set<nat>
    requires m <= |words|
  {
    extra + {b} + Firsts(words, m)
  }

  lemma TakenFacts(base: Snap, v: Snap, r: Snap, extra: set<nat>, pend: set<nat>, buf: seq<byte>, idx: nat, b: nat, words: seq<nat>, m: nat)
    requires Filling(base, v, r, extra, pend, buf, idx, b, words, m)
    ensures m <= |words| == 1024 && Building(base, v, r, Taken(extra, b, words, m), pend)
  {
  }

  lemma TakenNext(base: Snap, v: Snap, r: Snap, r': Snap, extra: set<nat>, pend: set<nat>, buf: seq<byte>, idx: nat, i: nat, b: nat, words: seq<nat>, m: nat, n: nat)
    requires Filling(base, v, r, extra, pend, buf, idx, b, words, m) && m < 1024 && |words| == 1024
    requires Building(base, v, r', Taken(extra, b, words, m) + {n}, pend) && 0 < n < |r.disk|
    requires n !in Taken(extra, b, words, m) && n !in v.used && r'.disk == r.disk[n := Chunk(buf, i)] && i == First(idx) + m
    ensures Filling(base, v, r', extra, pend, buf, idx, b, words[m := n], m + 1)
  {
    hide Filling, Building, Chunk, Firsts;
    FillingNext(base, v, r, r', extra, pend, buf, idx, b, words, m, n);
  }

  /** The innermost unwind. */
  method AbortEntry(fs: Volume, ptr: seq<nat>, cur: seq<nat>, b: nat, d: nat, tp: nat, words: seq<nat>,
                    ghost base: Snap, ghost v: Snap, ghost buf: seq<byte>, ghost idx: nat, ghost j: nat)
    requires fs.BlocksReady() && Filling(base, v, Device(fs), Ahead(v.t, d, tp), DoubleIn(v.t), buf, idx, b, words, j)
    requires AheadOK(v.t, d, tp) && Recorded(ptr, cur, v.t) && fs.blocks.superFree == 0
    modifies fs.blocks
    ensures fs.BlocksReady() && GivenBack(base, Device(fs)) && base.free == v.cnt + |Ahead(v.t, d, tp)| + 1 + j
  {
    hide Volume.BlocksReady, Building, Drafting, Filling, GivenBack, Recorded, AheadOK, Ahead, DoubleIn, Entries, Nonrepeating, Firsts, Drafted, First;
    ghost var r := Device(fs);
    FillingFacts(base, v, r, Ahead(v.t, d, tp), DoubleIn(v.t), buf, idx, b, words, j);
    FillingApart(base, v, r, DoubleIn(v.t), buf, idx, b, words, j, d, tp);
    FirstsEntries(fs.disk, v.used, words, j);
    ThreeSpares(v.t, b, d, tp, words, Firsts(words, j));
    Abort(fs, ptr, cur, words, [b, d, tp], base, v, Ahead(v.t, d, tp) + {b} + Firsts(words, j), DoubleIn(v.t), buf, First(idx));
  }

  /** One pass of the innermost loop. */
  method PutEntry(fs: Volume, buf: seq<byte>, ptr: seq<nat>, cur: seq<nat>, idx: nat, b: nat, d: nat, tp: nat, words: seq<nat>, j: nat, cursor: nat,
                  ghost base: Snap, ghost v: Snap) returns (ok: bool, words': seq<nat>, next: nat)
    requires fs.BlocksReady() && Filling(base, v, Device(fs), Ahead(v.t, d, tp), DoubleIn(v.t), buf, idx, b, words, j) && j < 1024
    requires AheadOK(v.t, d, tp) && Recorded(ptr, cur, v.t)
    requires cursor == 2048 * (First(idx) + j) && 4096 * (First(idx) + j) < |buf|
    modifies fs`disk, fs.blocks
    ensures fs.BlocksReady()
    ensures !ok ==> GivenBack(base, Device(fs)) && base.free == v.cnt + |Ahead(v.t, d, tp)| + 1 + j
    ensures ok ==> Filling(base, v, Device(fs), Ahead(v.t, d, tp), DoubleIn(v.t), buf, idx, b, words', j + 1)
    ensures ok ==> 4096 * (First(idx) + j + 1) <= |buf| ==> next == 2048 * (First(idx) + j + 1)
  {
    hide Volume.BlocksReady, Building, Filling, GivenBack, Recorded, AheadOK, Ahead, DoubleIn, Taken, Chunk, First;
    ghost var extra := Ahead(v.t, d, tp);
    ghost var i := First(idx) + j;
    ghost var r := Device(fs);
    words' := words;
    TakenFacts(base, v, r, extra, DoubleIn(v.t), buf, idx, b, words, j);
    var n;
    n, next := PutChunk(fs, buf, cursor, i, base, v, Taken(extra, b, words, j), DoubleIn(v.t));
    if n == 0 {
      AbortEntry(fs, ptr, cur, b, d, tp, words, base, v, buf, idx, j);
      return false, words', next;
    }
    TakenNext(base, v, r, Device(fs), extra, DoubleIn(v.t), buf, idx, i, b, words, j, n);
    return true, words[j := n], next;
  }

  /** The innermost loop of write_inode: up to 1024 data blocks for the single indirect block b. */
  method FillSingle(fs: Volume, buf: seq<byte>, ptr: seq<nat>, cur: seq<nat>, idx: nat, b: nat, d: nat, tp: nat, left0: nat, cursor0: nat,
                    ghost base: Snap, ghost v: Snap) returns (ok: bool, words: seq<nat>, left: nat, cursor: nat, sectors: nat, ghost m: nat)
    requires fs.BlocksReady() && Filling(base, v, Device(fs), Ahead(v.t, d, tp), DoubleIn(v.t), buf, idx, b, Zeros(1024), 0)
    requires AheadOK(v.t, d, tp) && Recorded(ptr, cur, v.t) && |buf| < 0x1_0000_0000
    requires left0 > 0 && First(idx) + left0 == BlockCount(|buf|) && cursor0 == 2048 * (First(idx))
    modifies fs`disk, fs.blocks
    ensures fs.BlocksReady()
    ensures !ok ==> GivenBack(base, Device(fs)) && base.free < v.cnt + |Ahead(v.t, d, tp)| + 1 + left0
    ensures !ok ==> base.free < v.cnt + |Ahead(v.t, d, tp)| + 1 + 1024
    ensures ok ==> Filling(base, v, Device(fs), Ahead(v.t, d, tp), DoubleIn(v.t), buf, idx, b, words, m)
    ensures ok ==> m == (if left0 < 1024 then left0 else 1024) && left == left0 - m && sectors == 8 * m
    ensures ok && left > 0 ==> cursor == 2048 * (First(idx) + m)
  {
    hide Volume.BlocksReady, Filling, GivenBack, Recorded, AheadOK, Ahead, DoubleIn, BlockCount, Zeros, First;
    words, left, cursor, sectors, m := Zeros(1024), left0, cursor0, 0, 0;
    var j := 0;
    while j < 1024 && left > 0
      invariant fs.BlocksReady() && m == j <= 1024 && left == left0 - j && sectors == 8 * j
      invariant Filling(base, v, Device(fs), Ahead(v.t, d, tp), DoubleIn(v.t), buf, idx, b, words, j)
      invariant left > 0 ==> cursor == 2048 * (First(idx) + j)
    {
      BlockBelow(|buf|, First(idx) + j);
      var more, words', next := PutEntry(fs, buf, ptr, cur, idx, b, d, tp, words, j, cursor, base, v);
      words, cursor := words', next;
      if !more { return false, words, left, cursor, sectors, m; }
      sectors, left, j, m := sectors + 8, left - 1, j + 1, m + 1;
    }
    ok := true;
  }

  // ----- flushing a single indirect block

  /** u has been made ready for the single indirect block number idx: the double indirect block is in place if needed. */
  ghost predicate Ready(base: Snap, v: Snap, u: Snap, r: Snap, idx: nat, b: nat, d: nat, tp: nat, words: seq<nat>, m: nat, buf: seq<byte>)
    requires m <= |words|
  {
    && Building(base, u, r, Taken(Ahead(u.t, d, tp), b, words, m), DoubleIn(u.t))
    && Filled(u, r, Taken(Ahead(u.t, d, tp), b, words, m), idx, b, words, m, buf)
    && u.t == (if idx == 1 then v.t[Root(13) := d] else v.t) && u.cnt == v.cnt + (if idx == 1 then 1 else 0)
    && Buffered(u, buf, First(idx))
  }

  lemma FillingFilled(base: Snap, v: Snap, u: Snap, r: Snap, extra: set<nat>, extra': set<nat>, pend: set<nat>, buf: seq<byte>, idx: nat, b: nat, words: seq<nat>, m: nat)
    requires Filling(base, v, r, extra, pend, buf, idx, b, words, m) && 0 < m && First(idx) + m <= DOUBLE_END
    requires extra' <= extra && v.used <= u.used && (forall x :: x in u.used && x !in v.used ==> x in extra)
    ensures Filled(u, r, Taken(extra', b, words, m), idx, b, words, m, buf)
  {
    hide Drafting, Copied;
    assert forall j :: 0 <= j < m ==> words[j] in Firsts(words, m);
  }

  lemma MakeReady(base: Snap, v: Snap, r: Snap, buf: seq<byte>, idx: nat, b: nat, d: nat, tp: nat, words: seq<nat>, m: nat) returns (u: Snap)
    requires Filling(base, v, r, Ahead(v.t, d, tp), DoubleIn(v.t), buf, idx, b, words, m) && AheadOK(v.t, d, tp)
    requires 0 < m && First(idx) + m <= DOUBLE_END && m <= |words|
    ensures Ready(base, v, u, r, idx, b, d, tp, words, m, buf)
  {
    hide Building, Filled, Buffered, Filling, Firsts, Taken, Ahead, DoubleIn, AheadOK, Laid, Drafted, First;
    var extra := Ahead(v.t, d, tp);
    FillingLaid(base, v, r, extra, DoubleIn(v.t), buf, idx, b, words, m);
    TakenFacts(base, v, r, extra, DoubleIn(v.t), buf, idx, b, words, m);
    if idx == 1 {
      FillingApart(base, v, r, DoubleIn(v.t), buf, idx, b, words, m, d, tp);
      DoubleMoves(v.t, d, tp, b, words, m);
      u := BuildDouble(base, v, r, Taken(extra, b, words, m), d, buf, First(idx));
      FillingFilled(base, v, u, r, extra, Ahead(u.t, d, tp), DoubleIn(v.t), buf, idx, b, words, m);
    } else {
      u := v;
      FillingFilled(base, v, v, r, extra, extra, DoubleIn(v.t), buf, idx, b, words, m);
    }
  }

  lemma DoubleMoves(t: Tree, d: nat, tp: nat, b: nat, words: seq<nat>, m: nat)
    requires AheadOK(t, d, tp) && Root(13) !in t && m <= |words|
    requires b !in Ahead(t, d, tp) + DoubleIn(t) && Firsts(words, m) !! Ahead(t, d, tp) + DoubleIn(t)
    ensures d in Ahead(t, d, tp) && d in Taken(Ahead(t, d, tp), b, words, m) && DoubleIn(t) == {} && DoubleIn(t[Root(13) := d]) == {d}
    ensures Taken(Ahead(t, d, tp), b, words, m) - {d} == Taken(Ahead(t[Root(13) := d], d, tp), b, words, m)
    ensures Ahead(t[Root(13) := d], d, tp) <= Ahead(t, d, tp)
  {
  }

  lemma FillingLaid(base: Snap, v: Snap, r: Snap, extra: set<nat>, pend: set<nat>, buf: seq<byte>, idx: nat, b: nat, words: seq<nat>, m: nat)
    requires Filling(base, v, r, extra, pend, buf, idx, b, words, m)
    ensures Laid(v, buf, First(idx)) && Buffered(v, buf, First(idx))
    ensures (Root(13) in v.t <==> idx >= 2) && Single(idx) !in v.t
  {
  }

  /** The tree after single indirect block number idx, with its m entries, has been added to v. */
  ghost predicate Added(v: Snap, w: Snap, idx: nat, b: nat, d: nat, m: nat) {
    && (forall x :: x in w.t <==> x in v.t || x == Single(idx) || (idx == 1 && x == Root(13)) || (x.Sub? && x.parent == Single(idx) && x.j < m))
    && (forall x :: x in v.t ==> x in w.t && w.t[x] == v.t[x])
    && Single(idx) in w.t && w.t[Single(idx)] == b && (idx == 1 ==> Root(13) in w.t && w.t[Root(13)] == d)
    && w.cnt == v.cnt + m + 1 + if idx == 1 then 1 else 0
  }

  lemma AddedIs(v: Snap, u: Snap, w: Snap, idx: nat, b: nat, d: nat, words: seq<nat>, m: nat)
    requires m <= |words| && Sprouted(u, w, Single(idx), b, words, m) && (idx == 1 ==> Root(13) !in v.t)
    requires u.t == (if idx == 1 then v.t[Root(13) := d] else v.t) && u.cnt == v.cnt + (if idx == 1 then 1 else 0)
    ensures Added(v, w, idx, b, d, m)
  {
  }

  lemma AddedLaid(v: Snap, w: Snap, idx: nat, b: nat, d: nat, m: nat, buf: seq<byte>)
    requires Laid(v, buf, First(idx)) && Added(v, w, idx, b, d, m) && Buffered(w, buf, First(idx) + m) && idx <= 1024 && 0 < m <= 1024
    ensures Laid(w, buf, First(idx) + m)
  {
    hide Buffered, Lies;
    forall x ensures x in w.t <==> Lies(x, First(idx) + m) {
      LiesNext(x, idx, m);
    }
  }

  /** What the code stores in the inode or in the double indirect buffer for the new single indirect block. */
  lemma AddedRecorded(v: Snap, w: Snap, ptr: seq<nat>, cur: seq<nat>, idx: nat, b: nat, d: nat, m: nat)
    requires Added(v, w, idx, b, d, m) && Recorded(ptr, cur, v.t) && idx <= 1024 && Single(idx) !in v.t
    ensures idx == 0 ==> Recorded(ptr[12 := b], cur, w.t)
    ensures idx > 0 ==> Recorded(ptr, cur[idx - 1 := b], w.t)
  {
    forall s | 0 <= s < 13 && Root(s) != Single(idx) ensures At(w.t, Root(s)) == At(v.t, Root(s)) {}
    forall j | 0 <= j < 1024 && Sub(Root(13), j) != Single(idx) ensures At(w.t, Sub(Root(13), j)) == At(v.t, Sub(Root(13), j)) {
      assert Sub(Root(13), j).parent == Root(13);
    }
  }

  lemma AheadAfter(v: Snap, w: Snap, u: Snap, idx: nat, b: nat, d: nat, tp: nat, m: nat, words: seq<nat>)
    requires m <= |words| && Added(v, w, idx, b, d, m) && AheadOK(v.t, d, tp) && (Root(13) in v.t <==> idx >= 2)
    requires u.t == (if idx == 1 then v.t[Root(13) := d] else v.t)
    requires b !in Ahead(v.t, d, tp) + DoubleIn(v.t) && Firsts(words, m) !! Ahead(v.t, d, tp) + DoubleIn(v.t)
    ensures AheadOK(w.t, d, tp) && DoubleIn(w.t) == DoubleIn(u.t)
    ensures Taken(Ahead(u.t, d, tp), b, words, m) - {b} - Firsts(words, m) == Ahead(w.t, d, tp)
  {
    assert Root(13) in w.t <==> Root(13) in u.t;
    assert Ahead(u.t, d, tp) == Ahead(w.t, d, tp);
  }

  /** The single indirect block has been flushed: it and its data blocks join the tree. */
  lemma Flushed(base: Snap, v: Snap, r: Snap, buf: seq<byte>, idx: nat, b: nat, d: nat, tp: nat, words: seq<nat>, m: nat) returns (w: Snap)
    requires Filling(base, v, r, Ahead(v.t, d, tp), DoubleIn(v.t), buf, idx, b, words, m) && AheadOK(v.t, d, tp)
    requires 0 < m && First(idx) + m <= DOUBLE_END && 0 <= b < |r.disk| && Ptrs(r.disk[b]) == words
    ensures Drafting(base, w, r, Ahead(w.t, d, tp), DoubleIn(w.t), buf, First(idx) + m)
    ensures AheadOK(w.t, d, tp) && Added(v, w, idx, b, d, m)
  {
    hide Building, Filled, Buffered, Filling, Firsts, Taken, Ahead, DoubleIn, AheadOK, Laid, Drafted, First, Ptrs, Sprouted, Added;
    FillingLaid(base, v, r, Ahead(v.t, d, tp), DoubleIn(v.t), buf, idx, b, words, m);
    FillingApart(base, v, r, DoubleIn(v.t), buf, idx, b, words, m, d, tp);
    FillingFacts(base, v, r, Ahead(v.t, d, tp), DoubleIn(v.t), buf, idx, b, words, m);
    var u := MakeReady(base, v, r, buf, idx, b, d, tp, words, m);
    ReadyHas(v, u, idx, d, tp);
    w := BuildSingle(base, u, r, Taken(Ahead(u.t, d, tp), b, words, m), DoubleIn(u.t), idx, b, words, m, buf);
    AddedIs(v, u, w, idx, b, d, words, m);
    AddedLaid(v, w, idx, b, d, m, buf);
    AheadAfter(v, w, u, idx, b, d, tp, m, words);
  }

  lemma ReadyHas(v: Snap, u: Snap, idx: nat, d: nat, tp: nat)
    requires u.t == (if idx == 1 then v.t[Root(13) := d] else v.t) && AheadOK(v.t, d, tp)
    requires (Root(13) in v.t <==> idx >= 2) && Single(idx) !in v.t
    ensures Single(idx) !in u.t && (idx > 0 ==> Root(13) in u.t && u.t[Root(13)] in DoubleIn(u.t))
  {
  }

  lemma FillingWrote(base: Snap, v: Snap, r: Snap, r': Snap, extra: set<nat>, pend: set<nat>, buf: seq<byte>, idx: nat, b: nat, words: seq<nat>, m: nat, blk: Block)
    requires Filling(base, v, r, extra, pend, buf, idx, b, words, m) && 0 <= b < |r.disk|
    requires r'.disk == r.disk[b := blk] && r'.used == r.used && r'.free == r.free
    ensures Filling(base, v, r', extra, pend, buf, idx, b, words, m)
  {
    hide Building, Laid, Chunk, Firsts, Drafted, Copied;
    var all := extra + {b} + Firsts(words, m);
    WroteExtra(base, v, r, r', all, pend, b, blk);
    DraftWrote(r.disk, r'.disk, v.used, buf, words, m, First(idx), b, blk);
  }

  lemma DraftWrote(disk: seq<Block>, disk': seq<Block>, used: set<nat>, buf: seq<byte>, words: seq<nat>, m: nat, first: nat, b: nat, blk: Block)
    requires Drafted(disk, used, words, m) && Copied(disk, buf, words, m, first) && b < |disk| && disk' == disk[b := blk]
    requires b !in Firsts(words, m)
    ensures Drafted(disk', used, words, m) && Copied(disk', buf, words, m, first)
  {
    hide Chunk;
    assert forall j :: 0 <= j < m ==> words[j] in Firsts(words, m);
  }

  lemma FillingWords(base: Snap, v: Snap, r: Snap, extra: set<nat>, pend: set<nat>, buf: seq<byte>, idx: nat, b: nat, words: seq<nat>, m: nat)
    requires Filling(base, v, r, extra, pend, buf, idx, b, words, m)
    ensures |words| == 1024 && 0 < b < |r.disk| && forall j :: 0 <= j < 1024 ==> IsWord(words[j])
  {
    hide Laid, Copied, Matches;
    assert b in extra + {b} + Firsts(words, m);
  }

  /** The number of blocks write_inode allocates for n data blocks before it gives back those it did not need. */
  function Need(n: nat): nat {
    n + 1 + if n <= 12 then 0 else 1 + (n + 1011) / 1024
  }

  lemma NeedAt(idx: nat, left: nat)
    requires left > 0
    ensures First(idx) + idx + 3 + (if left < 1024 then left else 1024) <= Need(First(idx) + left)
  {
  }

  lemma DoublingCount(base: Snap, v: Snap, r: Snap, buf: seq<byte>, ptr: seq<nat>, cur: seq<nat>, idx: nat, d: nat, tp: nat)
    requires Doubling(base, v, r, buf, ptr, cur, idx, d, tp, First(idx)) && idx <= 1024
    ensures v.cnt + |Ahead(v.t, d, tp)| == First(idx) + idx + 2
  {
    DoublingFacts(base, v, r, buf, ptr, cur, idx, d, tp, First(idx));
  }

  /** alloc_block for the next single indirect block. */
  method StartSingle(fs: Volume, ptr: seq<nat>, cur: seq<nat>, idx: nat, d: nat, tp: nat, ghost buf: seq<byte>, ghost base: Snap, ghost v: Snap)
    returns (b: nat)
    requires fs.BlocksReady() && Doubling(base, v, Device(fs), buf, ptr, cur, idx, d, tp, First(idx)) && idx <= 1024
    modifies fs.blocks
    ensures fs.BlocksReady()
    ensures b == 0 ==> GivenBack(base, Device(fs)) && base.free == First(idx) + idx + 2
    ensures b != 0 ==> Filling(base, v, Device(fs), Ahead(v.t, d, tp), DoubleIn(v.t), buf, idx, b, Zeros(1024), 0)
  {
    hide Volume.BlocksReady, Building, Drafting, Doubling, Filling, GivenBack, Recorded, AheadOK, Ahead, DoubleIn, Entries, Nonrepeating, First, Zeros;
    ghost var r := Device(fs);
    DoublingFacts(base, v, r, buf, ptr, cur, idx, d, tp, First(idx));
    DoublingCount(base, v, r, buf, ptr, cur, idx, d, tp);
    b := fs.AllocBlock();
    if b == 0 {
      TwoSpares(v.t, d, tp);
      Abort(fs, ptr, cur, [], [d, tp], base, v, Ahead(v.t, d, tp), DoubleIn(v.t), buf, First(idx));
      return;
    }
    TookExtra(base, v, r, Device(fs), Ahead(v.t, d, tp), DoubleIn(v.t), b);
    DraftMore(base, v, r, Device(fs), Ahead(v.t, d, tp), Ahead(v.t, d, tp) + {b}, DoubleIn(v.t), buf, First(idx));
    FillingStart(base, v, Device(fs), Ahead(v.t, d, tp), DoubleIn(v.t), buf, idx, b);
  }

  /** write_block of a filled single indirect buffer, and recording its block in the inode or the double indirect buffer. */
  method FlushSingle(fs: Volume, ptr: seq<nat>, cur: seq<nat>, idx: nat, b: nat, d: nat, tp: nat, words: seq<nat>,
                     ghost buf: seq<byte>, ghost base: Snap, ghost v: Snap, ghost m: nat)
    returns (ptr': seq<nat>, cur': seq<nat>, ghost w: Snap)
    requires fs.BlocksReady() && Filling(base, v, Device(fs), Ahead(v.t, d, tp), DoubleIn(v.t), buf, idx, b, words, m)
    requires AheadOK(v.t, d, tp) && Recorded(ptr, cur, v.t) && 0 < m && First(idx) + m <= DOUBLE_END && idx <= 1024
    requires v.cnt == First(idx) + idx + if idx < 2 then 0 else 1
    modifies fs`disk
    ensures fs.BlocksReady() && Doubling(base, w, Device(fs), buf, ptr', cur', idx + 1, d, tp, First(idx) + m)
  {
    hide Volume.BlocksReady, Building, Drafting, Filling, AheadOK, Ahead, DoubleIn, First, Laid, Ptrs, Added;
    ghost var r := Device(fs);
    FillingWords(base, v, r, Ahead(v.t, d, tp), DoubleIn(v.t), buf, idx, b, words, m);
    FillingLaid(base, v, r, Ahead(v.t, d, tp), DoubleIn(v.t), buf, idx, b, words, m);
    var blk := PtrBlock(words);
    fs.WriteBlock(b, blk);
    FillingWrote(base, v, r, Device(fs), Ahead(v.t, d, tp), DoubleIn(v.t), buf, idx, b, words, m, blk);
    w := Flushed(base, v, Device(fs), buf, idx, b, d, tp, words, m);
    AddedRecorded(v, w, ptr, cur, idx, b, d, m);
    AddedCount(v, w, idx, b, d, m);
    if idx == 0 {
      return ptr[12 := b], cur, w;
    }
    return ptr, cur[idx - 1 := b], w;
  }

  lemma AddedCount(v: Snap, w: Snap, idx: nat, b: nat, d: nat, m: nat)
    requires Added(v, w, idx, b, d, m)
    ensures w.cnt == v.cnt + m + 1 + if idx == 1 then 1 else 0
  {
  }

  /** One pass of the loop over single indirect blocks. */
  method WriteSingle(fs: Volume, buf: seq<byte>, ptr: seq<nat>, cur: seq<nat>, idx: nat, d: nat, tp: nat, left0: nat, cursor0: nat, ghost base: Snap, ghost v: Snap)
    returns (ok: bool, ptr': seq<nat>, cur': seq<nat>, left: nat, cursor: nat, sectors: nat, ghost w: Snap, ghost m: nat)
    requires fs.BlocksReady() && Doubling(base, v, Device(fs), buf, ptr, cur, idx, d, tp, First(idx)) && |buf| < 0x1_0000_0000
    requires idx <= 1024 && left0 > 0 && First(idx) + left0 == BlockCount(|buf|) && cursor0 == 2048 * First(idx)
    modifies fs`disk, fs.blocks
    ensures fs.BlocksReady()
    ensures !ok ==> GivenBack(base, Device(fs)) && base.free < Need(BlockCount(|buf|))
    ensures ok ==> m == (if left0 < 1024 then left0 else 1024) && left == left0 - m && sectors == 8 * (m + 1)
    ensures ok ==> Doubling(base, w, Device(fs), buf, ptr', cur', idx + 1, d, tp, First(idx) + m)
    ensures ok && left > 0 ==> cursor == 2048 * First(idx + 1)
  {
    hide Volume.BlocksReady, Filling, Doubling, GivenBack, Recorded, AheadOK, Ahead, DoubleIn, Need, BlockCount;
    ptr', cur', left, cursor, sectors, w, m := ptr, cur, left0, cursor0, 0, v, 0;
    CountSmall(|buf|);
    NeedAt(idx, left0);
    DoublingIs(base, v, Device(fs), buf, ptr, cur, idx, d, tp);
    var b := StartSingle(fs, ptr, cur, idx, d, tp, buf, base, v);
    if b == 0 { return false, ptr', cur', left, cursor, sectors, w, m; }
    var words;
    ok, words, left, cursor, sectors, m := FillSingle(fs, buf, ptr, cur, idx, b, d, tp, left0, cursor0, base, v);
    if !ok { return; }
    sectors := sectors + 8;
    ptr', cur', w := FlushSingle(fs, ptr, cur, idx, b, d, tp, words, buf, base, v, m);
  }

  lemma CountSmall(size: nat)
    requires size < 0x1_0000_0000
    ensures BlockCount(size) <= 0xF_FFFF
  {
  }

  lemma DoublingIs(base: Snap, v: Snap, r: Snap, buf: seq<byte>, ptr: seq<nat>, cur: seq<nat>, idx: nat, d: nat, tp: nat)
    requires Doubling(base, v, r, buf, ptr, cur, idx, d, tp, First(idx)) && idx <= 1024
    ensures AheadOK(v.t, d, tp) && Recorded(ptr, cur, v.t) && v.cnt == First(idx) + idx + if idx < 2 then 0 else 1
    ensures v.cnt + |Ahead(v.t, d, tp)| == First(idx) + idx + 2
  {
    DoublingCount(base, v, r, buf, ptr, cur, idx, d, tp);
  }

  // ----- the loop over single indirect blocks

  /** The state of that loop: `done` of the n blocks are in the tree, in idx single indirect blocks. */
  ghost predicate SinglesLoop(base: Snap, v: Snap, r: Snap, buf: seq<byte>, ptr: seq<nat>, cur: seq<nat>, idx: nat, d: nat, tp: nat, done: nat, n: nat) {
    && Doubling(base, v, r, buf, ptr, cur, idx, d, tp, done) && idx <= 1024 && done <= n
    && (if done < n then done == First(idx) else n == 12 == First(idx) || (idx > 0 && First(idx - 1) < n <= First(idx)))
  }

  lemma SinglesNext(base: Snap, w: Snap, r: Snap, buf: seq<byte>, ptr: seq<nat>, cur: seq<nat>, idx: nat, d: nat, tp: nat, done: nat, m: nat, n: nat)
    requires idx < 1024 && done == First(idx) && done < n
    requires m == (if n - done < 1024 then n - done else 1024)
    requires Doubling(base, w, r, buf, ptr, cur, idx + 1, d, tp, First(idx) + m)
    ensures SinglesLoop(base, w, r, buf, ptr, cur, idx + 1, d, tp, done + m, n)
  {
    hide Doubling;
  }

  lemma SinglesEnd(base: Snap, v: Snap, r: Snap, buf: seq<byte>, ptr: seq<nat>, cur: seq<nat>, idx: nat, d: nat, tp: nat, done: nat, n: nat)
    requires SinglesLoop(base, v, r, buf, ptr, cur, idx, d, tp, done, n) && n > 12 && n <= 0xF_FFFF
    ensures done < n ==> idx < 1024
    ensures done == n ==> idx == (n + 1011) / 1024 && n > 12
  {
    hide Doubling;
  }

  /** The middle loop of write_inode. */
  method WriteSingles(fs: Volume, buf: seq<byte>, ptr0: seq<nat>, d: nat, tp: nat, left0: nat, cursor0: nat, ghost base: Snap, ghost v0: Snap)
    returns (ok: bool, ptr: seq<nat>, cur: seq<nat>, sectors: nat, hasDouble: bool, left: nat, ghost v: Snap, ghost idx: nat)
    requires fs.BlocksReady() && Doubling(base, v0, Device(fs), buf, ptr0, Zeros(1024), 0, d, tp, 12) && |buf| < 0x1_0000_0000
    requires left0 > 0 && 12 + left0 == BlockCount(|buf|) && cursor0 == 2048 * 12
    modifies fs`disk, fs.blocks
    ensures fs.BlocksReady()
    ensures !ok ==> GivenBack(base, Device(fs)) && base.free < Need(BlockCount(|buf|))
    ensures ok ==> Doubling(base, v, Device(fs), buf, ptr, cur, idx, d, tp, BlockCount(|buf|)) && left == 0
    ensures ok ==> idx == (BlockCount(|buf|) + 1011) / 1024 && hasDouble == (idx >= 2) && sectors == 8 * (left0 + idx)
  {
    hide Volume.BlocksReady, Doubling, GivenBack, Need, BlockCount, SinglesLoop, First, Zeros;
    ghost var n := BlockCount(|buf|);
    CountSmall(|buf|);
    FirstIs(0);
    ptr, cur, left, sectors, hasDouble, v, idx := ptr0, Zeros(1024), left0, 0, false, v0, 0;
    var cursor := cursor0;
    SinglesStart(base, v0, Device(fs), buf, ptr0, cur, d, tp, n);
    var k := 0;
    ghost var done, r := 12, Device(fs);
    while k < 1024 && left > 0
      invariant fs.BlocksReady() && left <= left0 && idx == k <= 1024 && done == n - left && r == Device(fs)
      invariant SinglesLoop(base, v, r, buf, ptr, cur, k, d, tp, done, n)
      invariant (left > 0 ==> cursor == 2048 * First(k)) && hasDouble == (k >= 2) && sectors == 8 * (left0 - left + k)
      decreases 1024 - k
    {
      SinglesHead(base, v, r, buf, ptr, cur, k, d, tp, done, n);
      ghost var m := 0;
      var more, ptr', cur', left', cursor', spent;
      ghost var w;
      more, ptr', cur', left', cursor', spent, w, m := WriteSingle(fs, buf, ptr, cur, k, d, tp, left, cursor, base, v);
      if !more { return false, ptr, cur, sectors, hasDouble, left, v, idx; }
      r := Device(fs);
      SinglesNext(base, w, r, buf, ptr', cur', k, d, tp, done, m, n);
      done := done + m;
      ptr, cur, left, cursor, sectors, v := ptr', cur', left', cursor', sectors + spent, w;
      hasDouble := k > 0;
      k, idx := k + 1, idx + 1;
    }
    SinglesEnd(base, v, r, buf, ptr, cur, k, d, tp, done, n);
    SinglesHead(base, v, r, buf, ptr, cur, k, d, tp, done, n);
    ok := true;
  }

  lemma FirstIs(idx: nat)
    ensures First(idx) == 12 + 1024 * idx
  {
  }

  lemma SinglesStart(base: Snap, v: Snap, r: Snap, buf: seq<byte>, ptr: seq<nat>, cur: seq<nat>, d: nat, tp: nat, n: nat)
    requires Doubling(base, v, r, buf, ptr, cur, 0, d, tp, 12) && n > 12
    ensures SinglesLoop(base, v, r, buf, ptr, cur, 0, d, tp, 12, n)
  {
  }

  lemma SinglesHead(base: Snap, v: Snap, r: Snap, buf: seq<byte>, ptr: seq<nat>, cur: seq<nat>, idx: nat, d: nat, tp: nat, done: nat, n: nat)
    requires SinglesLoop(base, v, r, buf, ptr, cur, idx, d, tp, done, n)
    ensures Doubling(base, v, r, buf, ptr, cur, idx, d, tp, done) && (done < n ==> done == First(idx)) && idx <= 1024
  {
  }

  // ----- the end of write_inode

  lemma FreedExtra(base: Snap, v: Snap, r: Snap, r': Snap, extra: set<nat>, pend: set<nat>, n: nat)
    requires Building(base, v, r, extra, pend) && n in extra && r'.disk == r.disk
    requires r'.used == r.used - {n} && r'.free == r.free + 1
    ensures Building(base, v, r', extra - {n}, pend)
  {
    CountMinus(extra, {n});
  }

  /** Once the double indirect buffer is flushed, the device holds the whole tree. */
  lemma FlushedDouble(base: Snap, v: Snap, r: Snap, r': Snap, extra: set<nat>, d: nat, blk: Block)
    requires Building(base, v, r, extra, {d}) && Root(13) in v.t && v.t[Root(13)] == d && 0 <= d < |r.disk|
    requires r'.disk == r.disk[d := blk] && r'.used == r.used && r'.free == r.free
    requires forall j :: 0 <= j < 1024 ==> Ptrs(blk)[j] == At(v.t, Sub(Root(13), j))
    ensures Building(base, v, r', extra, {})
  {
    hide Ptrs, Grew;
    assert NodeStored(v.disk, v.t, Root(13));
    assert Ptrs(v.disk[d]) == Ptrs(blk);
    PtrsInjective(v.disk[d], blk);
  }

  /** The file has been written: its first n blocks hold the buffer and nothing else is mapped. */
  ghost predicate Stored(s: Snap, buf: seq<byte>, n: nat) {
    n <= DOUBLE_END && Buffered(s, buf, n) && forall i :: 0 <= i < MAX_FILE_BLOCKS ==> (IsMapped(s, i) <==> i < n)
  }

  lemma LiesPath(i: nat, n: nat)
    requires i < MAX_FILE_BLOCKS && n <= DOUBLE_END
    ensures Lies(Path(i), n) <==> i < n
  {
  }

  lemma LiesChild(k: Key, n: nat)
    requires Lies(k, n) && Height(k) > 0
    ensures Lies(Sub(k, 0), n)
  {
    match k
    case Root(slot) =>
    case Sub(Root(slot), a) =>
    case Sub(Sub(g, a), j) => assert Height(g) == 2;
  }

  lemma LaidNoEmpty(v: Snap, buf: seq<byte>, n: nat)
    requires Laid(v, buf, n)
    ensures NoEmpty(v.t)
  {
    forall k | k in v.t && Height(k) > 0 ensures HasChild(v.t, k) {
      LiesChild(k, n);
    }
  }

  /** With no buffer pending and nothing allocated outside the tree, the device is the finished file. */
  lemma Finished(base: Snap, v: Snap, r: Snap, buf: seq<byte>, n: nat, s: Snap)
    requires Building(base, v, r, {}, {}) && Laid(v, buf, n) && Good(base) && base.t == map[]
    requires s == v.(disk := r.disk, used := r.used, free := r.free)
    ensures Step(base, s) && Stored(s, buf, n) && |s.t| == v.cnt
  {
    assert r.used == v.used;
    LaidNoEmpty(v, buf, n);
    FinishedShape(v, r);
    FinishedOthers(base, v, r, s);
    forall i | 0 <= i < n ensures Data(s, i) == Chunk(buf, i) { SlotSound(v, i); }
    FinishedMap(v, s, buf, n);
  }

  lemma FinishedMap(v: Snap, s: Snap, buf: seq<byte>, n: nat)
    requires Laid(v, buf, n) && s.t == v.t && Rooted(v.t, |v.disk|)
    ensures forall i :: 0 <= i < MAX_FILE_BLOCKS ==> (IsMapped(s, i) <==> i < n)
  {
    forall i | 0 <= i < MAX_FILE_BLOCKS ensures IsMapped(s, i) <==> i < n {
      LiesPath(i, n);
      assert Path(i) in v.t <==> Lies(Path(i), n);
    }
  }

  lemma FinishedShape(v: Snap, r: Snap)
    requires Sound(v) && Matches(v, r, {})
    ensures TreeShape(r.disk, v.ptr, v.t)
  {
    ShapeFrame(v.disk, v.ptr, v.t, r.disk);
  }

  lemma FinishedOthers(base: Snap, v: Snap, r: Snap, s: Snap)
    requires Building(base, v, r, {}, {}) && Good(base) && s == v.(disk := r.disk, used := r.used, free := r.free)
    ensures OthersKept(base, s) && s.free + |s.t| == base.free + |base.t| && s.used == v.used
  {
    GrewOthers(base, v);
    assert r.used == v.used;
    forall b: nat ensures Foreign(base, b) <==> Foreign(s, b) {
      assert Foreign(base, b) <==> Foreign(v, b);
    }
  }

  /** The end of the pass over the double indirect block: it is flushed and recorded, or given back unused. */
  method SettleDouble(fs: Volume, ptr: seq<nat>, cur: seq<nat>, hasDouble: bool, d: nat, tp: nat,
                      ghost base: Snap, ghost v: Snap, ghost buf: seq<byte>, ghost idx: nat, ghost n: nat) returns (ptr': seq<nat>)
    requires fs.BlocksReady() && Doubling(base, v, Device(fs), buf, ptr, cur, idx, d, tp, n) && (hasDouble <==> Root(13) in v.t)
    modifies fs`disk, fs.blocks
    ensures fs.BlocksReady() && Drafting(base, v, Device(fs), {tp}, {}, buf, n) && RootsStored(ptr', v.t)
    ensures fs.blocks.superFree == old(fs.blocks.superFree) + if hasDouble then 0 else 1
  {
    hide Volume.BlocksReady, Building, Laid, Ptrs, Doubling, RootsStored;
    ghost var r := Device(fs);
    if hasDouble {
      WithDouble(base, v, r, buf, ptr, cur, idx, d, tp, n);
      var blk := PtrBlock(cur);
      fs.WriteBlock(d, blk);
      FlushedDouble(base, v, r, Device(fs), {tp}, d, blk);
      return ptr[13 := d];
    }
    WithoutDouble(base, v, r, buf, ptr, cur, idx, d, tp, n);
    fs.FreeBlock(d);
    FreedExtra(base, v, r, Device(fs), {tp, d}, {}, d);
    return ptr;
  }

  lemma WithDouble(base: Snap, v: Snap, r: Snap, buf: seq<byte>, ptr: seq<nat>, cur: seq<nat>, idx: nat, d: nat, tp: nat, n: nat)
    requires Doubling(base, v, r, buf, ptr, cur, idx, d, tp, n) && Root(13) in v.t
    ensures Building(base, v, r, {tp}, {d}) && Laid(v, buf, n) && v.t[Root(13)] == d && 0 <= d < |r.disk|
    ensures |ptr| == 15 && RootsStored(ptr[13 := d], v.t) && |cur| == 1024
    ensures forall j :: 0 <= j < 1024 ==> IsWord(cur[j]) && cur[j] == At(v.t, Sub(Root(13), j))
  {
    hide Grew, Buffered;
    RootAt(v, 13);
    assert {tp} + {} == {tp};
    assert Root(14) !in v.t;
  }

  lemma WithoutDouble(base: Snap, v: Snap, r: Snap, buf: seq<byte>, ptr: seq<nat>, cur: seq<nat>, idx: nat, d: nat, tp: nat, n: nat)
    requires Doubling(base, v, r, buf, ptr, cur, idx, d, tp, n) && Root(13) !in v.t
    ensures Building(base, v, r, {tp, d}, {}) && Laid(v, buf, n) && {tp, d} - {d} == {tp} && d in r.used && d != 0
    ensures RootsStored(ptr, v.t)
  {
    hide Grew, Buffered, Sound;
    assert {tp} + {d} == {tp, d};
    assert Root(14) !in v.t;
  }

  /** The allocations of the two pointer blocks that write_inode takes before it knows whether it needs them. */
  method TakeAhead(fs: Volume, ptr: seq<nat>, spares: seq<nat>, ghost extra: set<nat>, ghost base: Snap, ghost v: Snap, ghost buf: seq<byte>, ghost done: nat)
    returns (b: nat)
    requires fs.BlocksReady() && Drafting(base, v, Device(fs), extra, {}, buf, done) && Recorded(ptr, Zeros(1024), v.t) && Root(13) !in v.t
    requires Nonrepeating(spares) && Entries(spares) == extra
    modifies fs.blocks
    ensures fs.BlocksReady()
    ensures b == 0 ==> GivenBack(base, Device(fs)) && base.free == v.cnt + |extra|
    ensures b != 0 ==> Drafting(base, v, Device(fs), extra + {b}, {}, buf, done) && b !in extra
  {
    hide Volume.BlocksReady, Building, Laid, GivenBack, Recorded, Entries, Nonrepeating, Zeros;
    ghost var r := Device(fs);
    b := fs.AllocBlock();
    if b == 0 {
      NoWords();
      assert {} + Entries(spares) == extra + DoubleIn(v.t);
      Abort(fs, ptr, Zeros(1024), [], spares, base, v, extra, {}, buf, done);
      return;
    }
    BuildingFacts(base, v, r, extra, {});
    TookExtra(base, v, r, Device(fs), extra, {}, b);
  }

  lemma NoWords()
    ensures Nonrepeating([]) && Entries([]) == {}
  {
  }

  lemma SingleSpare(b: nat)
    requires b != 0
    ensures Nonrepeating([b]) && Entries([b]) == {b}
  {
    assert [b][0] == b;
  }

  lemma DoublingBegins(base: Snap, v: Snap, r: Snap, buf: seq<byte>, ptr: seq<nat>, d: nat, tp: nat)
    requires Drafting(base, v, r, {tp} + {d}, {}, buf, 12) && d != tp && Recorded(ptr, Zeros(1024), v.t) && v.cnt == 12
    ensures Doubling(base, v, r, buf, ptr, Zeros(1024), 0, d, tp, 12)
  {
    assert d in {tp} + {d} && tp in {tp} + {d};
  }

  lemma DoublingEnds(base: Snap, v: Snap, r: Snap, buf: seq<byte>, ptr: seq<nat>, cur: seq<nat>, idx: nat, d: nat, tp: nat, n: nat)
    requires Doubling(base, v, r, buf, ptr, cur, idx, d, tp, n) && n > 12 && idx == (n + 1011) / 1024
    ensures base.free >= Need(n) && v.cnt == n + idx + (if idx >= 2 then 1 else 0) < Need(n) && (Root(13) in v.t <==> idx >= 2)
  {
    DoublingFacts(base, v, r, buf, ptr, cur, idx, d, tp, n);
    PendIs(base, v, r, Ahead(v.t, d, tp), DoubleIn(v.t), buf, n);
  }

  /** One pass of the outermost loop: a double indirect block and everything below it. */
  method WriteDouble(fs: Volume, buf: seq<byte>, ptr: seq<nat>, tp: nat, left0: nat, cursor: nat, ghost base: Snap, ghost v0: Snap)
    returns (ok: bool, ptr': seq<nat>, sectors: nat, left: nat, ghost v: Snap)
    requires fs.BlocksReady() && Drafting(base, v0, Device(fs), {tp}, {}, buf, 12) && Recorded(ptr, Zeros(1024), v0.t) && v0.cnt == 12
    requires |buf| < 0x1_0000_0000 && left0 > 0 && 12 + left0 == BlockCount(|buf|) && cursor == 2048 * 12 && tp != 0
    modifies fs`disk, fs.blocks
    ensures fs.BlocksReady()
    ensures !ok ==> GivenBack(base, Device(fs)) && base.free < Need(BlockCount(|buf|))
    ensures ok ==> Drafting(base, v, Device(fs), {tp}, {}, buf, BlockCount(|buf|)) && RootsStored(ptr', v.t)
    ensures ok ==> left == 0 && 96 + sectors == 8 * v.cnt && base.free >= Need(BlockCount(|buf|)) > v.cnt
  {
    hide Volume.BlocksReady, Drafting, Doubling, GivenBack, Recorded, BlockCount, RootsStored, Entries, Nonrepeating, Zeros;
    ptr', sectors, left, v := ptr, 0, left0, v0;
    SingleSpare(tp);
    ghost var r := Device(fs);
    NoDouble(base, v0, r, {tp}, {}, buf, 12);
    var d := TakeAhead(fs, ptr, [tp], {tp}, base, v0, buf, 12);
    if d == 0 { return false, ptr', sectors, left, v; }
    r := Device(fs);
    DoublingBegins(base, v0, r, buf, ptr, d, tp);
    var cur, hasDouble;
    ghost var idx;
    ok, ptr', cur, sectors, hasDouble, left, v, idx := WriteSingles(fs, buf, ptr, d, tp, left0, cursor, base, v0);
    if !ok { return; }
    r := Device(fs);
    DoublingEnds(base, v, r, buf, ptr', cur, idx, d, tp, BlockCount(|buf|));
    ptr' := SettleDouble(fs, ptr', cur, hasDouble, d, tp, base, v, buf, idx, BlockCount(|buf|));
    if hasDouble { sectors := sectors + 8; }
  }

  lemma NoDouble(base: Snap, v: Snap, r: Snap, extra: set<nat>, pend: set<nat>, buf: seq<byte>, done: nat)
    requires Drafting(base, v, r, extra, pend, buf, done) && done <= 12
    ensures Root(13) !in v.t
  {
  }

  /** The end of write_inode: the file holds the buffer, its sectors are counted, and there was room. */
  ghost predicate Wrote(base: Snap, s: Snap, buf: seq<byte>, n: nat, sectors: nat) {
    Step(base, s) && Stored(s, buf, n) && sectors == 8 * |s.t| && |s.t| < Need(n)
  }

  lemma WroteIs(base: Snap, v: Snap, r: Snap, r': Snap, buf: seq<byte>, n: nat, tp: nat, ptr: seq<nat>, sectors: nat)
    requires Drafting(base, v, r, {tp}, {}, buf, n) && RootsStored(ptr, v.t) && sectors == 8 * v.cnt && Good(base) && v.cnt < Need(n)
    requires r'.disk == r.disk && r'.used == r.used - {tp} && r'.free == r.free + 1
    ensures Wrote(base, Snap(r'.disk, r'.used, r'.free, ptr, v.t, v.cnt), buf, n, sectors)
    ensures v.cnt == |v.t|
  {
    hide Grew, Laid, Stored, Step, Good;
    FreedExtra(base, v, r, r', {tp}, {}, tp);
    assert {tp} - {tp} == {};
    assert ptr == v.ptr;
    Finished(base, v, r', buf, n, Snap(r'.disk, r'.used, r'.free, ptr, v.t, v.cnt));
  }

  /** The state at the head of the outermost loop. */
  ghost predicate Tripling(base: Snap, v: Snap, r: Snap, buf: seq<byte>, ptr: seq<nat>, tp: nat, done: nat, n: nat, sectors: nat) {
    && Drafting(base, v, r, {tp}, {}, buf, done) && RootsStored(ptr, v.t) && tp != 0 && sectors == 8 * v.cnt && done <= n
    && (done < n ==> done == v.cnt == 12 && Recorded(ptr, Zeros(1024), v.t))
    && (done == n ==> base.free >= Need(n) > v.cnt)
  }

  lemma TriplingFacts(base: Snap, v: Snap, r: Snap, buf: seq<byte>, ptr: seq<nat>, tp: nat, done: nat, n: nat, sectors: nat)
    requires Tripling(base, v, r, buf, ptr, tp, done, n, sectors)
    ensures Drafting(base, v, r, {tp}, {}, buf, done) && tp in r.used && tp != 0 && RootsStored(ptr, v.t) && sectors == 8 * v.cnt
    ensures done < n ==> done == v.cnt == 12 && Recorded(ptr, Zeros(1024), v.t)
    ensures done == n ==> base.free >= Need(n) > v.cnt
  {
    hide Recorded, RootsStored;
  }

  /** The outermost loop of write_inode and the return of the unused triple indirect block. */
  method WriteRest(fs: Volume, buf: seq<byte>, ptr0: seq<nat>, tp: nat, left0: nat, cursor: nat, sectors0: nat,
                   ghost base: Snap, ghost v0: Snap, ghost done0: nat) returns (ok: bool, ptr: seq<nat>, sectors: nat, ghost t: Tree)
    requires fs.BlocksReady() && Tripling(base, v0, Device(fs), buf, ptr0, tp, done0, BlockCount(|buf|), sectors0)
    requires |buf| < 0x1_0000_0000 && Good(base) && done0 + left0 == BlockCount(|buf|) && (left0 > 0 ==> cursor == 2048 * 12)
    modifies fs`disk, fs.blocks
    ensures fs.BlocksReady()
    ensures !ok ==> GivenBack(base, Device(fs)) && base.free < Need(BlockCount(|buf|))
    ensures ok ==> Wrote(base, Now(fs, ptr, t, |t|), buf, BlockCount(|buf|), sectors) && base.free >= Need(BlockCount(|buf|))
  {
    hide Volume.BlocksReady, Drafting, GivenBack, Recorded, BlockCount, RootsStored, Good, Need, Wrote, Tripling, Zeros;
    ptr, sectors, t := ptr0, sectors0, v0.t;
    ghost var v, done, r, n := v0, done0, Device(fs), BlockCount(|buf|);
    var left, k := left0, 0;
    while k < 1024 && left > 0
      invariant fs.BlocksReady() && done + left == n && k <= 1 && r == Device(fs)
      invariant Tripling(base, v, r, buf, ptr, tp, done, n, sectors)
      invariant if k == 0 then left == left0 else left == 0   // a second pass never starts
      decreases 1024 - k
    {
      TriplingFacts(base, v, r, buf, ptr, tp, done, n, sectors);
      var more, ptr', spent, left';
      ghost var w;
      more, ptr', spent, left', w := WriteDouble(fs, buf, ptr, tp, left, cursor, base, v);
      if !more { return false, ptr, sectors, t; }
      r := Device(fs);
      TriplingDone(base, w, r, buf, ptr', tp, n, sectors + spent);
      ptr, sectors, left, v, done := ptr', sectors + spent, left', w, n;
      k := k + 1;
    }
    SettleTriple(fs, ptr, tp, sectors, base, v, buf, n);
    return true, ptr, sectors, v.t;
  }

  /** The unused triple indirect block is given back. */
  method SettleTriple(fs: Volume, ptr: seq<nat>, tp: nat, sectors: nat, ghost base: Snap, ghost v: Snap, ghost buf: seq<byte>, ghost n: nat)
    requires fs.BlocksReady() && Tripling(base, v, Device(fs), buf, ptr, tp, n, n, sectors) && Good(base)
    modifies fs.blocks
    ensures fs.BlocksReady() && Wrote(base, Now(fs, ptr, v.t, |v.t|), buf, n, sectors) && base.free >= Need(n)
  {
    hide Volume.BlocksReady, Drafting, Recorded, RootsStored, Good, Need, Wrote, Tripling;
    TriplingFacts(base, v, Device(fs), buf, ptr, tp, n, n, sectors);
    ghost var r := Device(fs);
    fs.FreeBlock(tp);
    WroteIs(base, v, r, Device(fs), buf, n, tp, ptr, sectors);
  }

  lemma TriplingDone(base: Snap, v: Snap, r: Snap, buf: seq<byte>, ptr: seq<nat>, tp: nat, n: nat, sectors: nat)
    requires Drafting(base, v, r, {tp}, {}, buf, n) && RootsStored(ptr, v.t) && tp != 0 && sectors == 8 * v.cnt && base.free >= Need(n) > v.cnt
    ensures Tripling(base, v, r, buf, ptr, tp, n, n, sectors)
  {
    hide Drafting, RootsStored, Need;
  }

  lemma NeedMore(n: nat)
    ensures Need(n) > n
  {
  }

  lemma NeedDirect(n: nat)
    requires n <= 12
    ensures Need(n) == n + 1
  {
  }

  lemma TriplingStart(base: Snap, v: Snap, r: Snap, r': Snap, buf: seq<byte>, ptr: seq<nat>, tp: nat, done: nat, n: nat, sectors: nat)
    requires DirectDone(base, v, r, buf, ptr, done) && Drafting(base, v, r', {tp}, {}, buf, done) && tp != 0
    requires sectors == 8 * done && done == if n < 12 then n else 12
    ensures Tripling(base, v, r', buf, ptr, tp, done, n, sectors)
  {
    hide Drafting, Recorded, RootsStored, DirectDone, DoubleIn, GivenBack, Entries, Building, BaseKeptBytes, Need;
    DirectFacts(base, v, r, buf, ptr, done);
    DirectRoots(base, v, r', {tp}, buf, done, ptr);
    PendIs(base, v, r', {tp}, {}, buf, done);
    assert |{tp}| == 1;
    NeedDirect(done);
  }

  lemma DirectRoots(base: Snap, v: Snap, r: Snap, extra: set<nat>, buf: seq<byte>, done: nat, ptr: seq<nat>)
    requires Drafting(base, v, r, extra, {}, buf, done) && done <= 12 && Recorded(ptr, Zeros(1024), v.t)
    ensures RootsStored(ptr, v.t)
  {
    hide Building, Buffered, Lies, Zeros;
    NoHighRoots(done);
  }

  lemma NoHighRoots(done: nat)
    requires done <= 12
    ensures !Lies(Root(13), done) && !Lies(Root(14), done)
  {
  }

  /**
   * write_inode: succeeds exactly when the blocks it allocates are there.  On success file block i holds block i of
   * the buffer, for every i below the block count, and nothing else is mapped; on failure, at whichever
   * depth, the bitmap is as at entry and no allocated block has changed.
   */
  method Write(fs: Volume, buf: seq<byte>) returns (ok: bool, ptr: seq<nat>, sectors: nat, ghost t: Tree)
    requires fs.BlocksReady() && |buf| < 0x1_0000_0000
    modifies fs`disk, fs.blocks
    ensures fs.BlocksReady()
    ensures ok <==> old(fs.blocks.superFree) >= Need(BlockCount(|buf|))
    ensures !ok ==> GivenBack(old(Now(fs, Zeros(15), map[], 0)), Device(fs))
    ensures ok ==> Wrote(old(Now(fs, Zeros(15), map[], 0)), Now(fs, ptr, t, |t|), buf, BlockCount(|buf|), sectors)
  {
    hide Volume.BlocksReady, Drafting, DirectDone, GivenBack, Recorded, BlockCount, Entries, Nonrepeating, Good, Wrote, Tripling, Need, DoubleIn, Building, Zeros;
    ghost var n := BlockCount(|buf|);
    NeedMore(n);
    ghost var base := Now(fs, Zeros(15), map[], 0);
    EmptyGood(base);
    var left, cursor;
    ghost var v;
    ok, ptr, left, cursor, sectors, v := WriteDirect(fs, buf, base);
    t := map[];
    if !ok { return; }
    ghost var done: nat := n - left;
    ghost var r := Device(fs);
    DirectFacts(base, v, r, buf, ptr, done);
    NoDouble(base, v, r, {}, {}, buf, done);
    NoWords();
    var tp := TakeAhead(fs, ptr, [], {}, base, v, buf, done);
    if tp == 0 { return false, ptr, sectors, t; }
    assert {} + {tp} == {tp};
    ghost var r' := Device(fs);
    TriplingStart(base, v, r, r', buf, ptr, tp, done, n, sectors);
    ok, ptr, sectors, t := WriteRest(fs, buf, ptr, tp, left, cursor, sectors, base, v, done);
  }

  lemma EmptyGood(s: Snap)
    requires s.t == map[] && s.ptr == Zeros(15)
    ensures Good(s)
  {
  }
}
