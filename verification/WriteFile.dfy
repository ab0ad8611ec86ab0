/** write_inode (kernel/fs/block/blockController.c): building a new block tree from a buffer. */
module WriteFile {
  import opened Blocks
  import opened BlockTree
  import opened Bitmaps
  import opened Volumes
  import opened MapFileBlock
  import opened FreeFileBlock
  import opened FileBlocks
  import opened FileSystem
  import opened IndirFree

  /** The tree with block n, holding `content`, put at the free position k. */
  ghost function Add(v: Snap, k: Key, n: nat, content: Block): (v': Snap)
    requires Sound(v) && ValidKey(k) && n < |v.disk| && IsWord(n) && (k.Sub? ==> k.parent in v.t)
    ensures |v'.disk| == |v.disk|
  {
    var disk := if k.Sub? then v.disk[v.t[k.parent] := PtrBlock(Ptrs(v.disk[v.t[k.parent]])[k.j := n])] else v.disk;
    Snap(disk[n := content], v.used + {n}, if v.free > 0 then v.free - 1 else 0,
         if k.Root? then v.ptr[k.slot := n] else v.ptr, v.t[k := n], v.cnt + 1)
  }

  lemma AddTook(v: Snap, k: Key, n: nat, content: Block)
    requires Sound(v) && ValidKey(k) && 0 < n < |v.disk| && IsWord(n) && (k.Sub? ==> k.parent in v.t)
    requires k !in v.t && n !in v.used && v.free > 0 && (Height(k) > 0 ==> AllZero(Ptrs(content)))
    ensures Took(v, Add(v, k, n, content), k, n)
    ensures Sound(Add(v, k, n, content)) && Grew(v, Add(v, k, n, content))
  {
    TookSound(v, Add(v, k, n, content), k, n);
    TookGrows(v, Add(v, k, n, content), k, n);
  }

  /** Adding at a data position maps that file block; adding a pointer block maps none. */
  lemma AddFile(v: Snap, k: Key, n: nat, content: Block, i: nat)
    requires Sound(v) && ValidKey(k) && 0 < n < |v.disk| && IsWord(n) && (k.Sub? ==> k.parent in v.t)
    requires k !in v.t && n !in v.used && i < MAX_FILE_BLOCKS
    ensures Path(i) != k ==> Slot(Add(v, k, n, content).t, i) == Slot(v.t, i) && Data(Add(v, k, n, content), i) == Data(v, i)
    ensures Path(i) == k ==> Slot(Add(v, k, n, content).t, i) == n && Data(Add(v, k, n, content), i) == content
  {
    if Path(i) != k && Slot(v.t, i) != 0 {
      SlotSound(v, i);
      DataNotPointer(v, i);
      if k.Sub? { assert v.t[k.parent] in PtrBlocks(v.t); }
    }
  }

  /** A fresh pointer block under way: the first m entries of `words` are distinct fresh blocks, the rest are 0. */
  ghost predicate Drafted(disk: seq<Block>, used: set<nat>, words: seq<nat>, m: nat) {
    && |words| == 1024 && m <= 1024
    && (forall j :: 0 <= j < m ==> 0 < words[j] < |disk| && IsWord(words[j]) && words[j] !in used)
    && (forall i, j :: 0 <= i < j < m ==> words[i] != words[j])
    && (forall j :: m <= j < 1024 ==> words[j] == 0)
  }

  ghost function Firsts(words: seq<nat>, m: nat): set<nat>
    requires m <= |words|
  {
    set j | 0 <= j < m :: words[j]
  }

  /** w is v with the first m entries of `words` put below position k. */
  ghost predicate HungTree(v: Snap, w: Snap, k: Key, words: seq<nat>, m: nat)
    requires m <= |words|
  {
    && w.ptr == v.ptr && w.cnt == v.cnt + m && w.free == v.free - m && w.used == v.used + Firsts(words, m)
    && (forall x :: x in w.t <==> x in v.t || (x.Sub? && x.parent == k && x.j < m))
    && (forall x :: x in v.t ==> x in w.t && w.t[x] == v.t[x])
    && (forall j :: 0 <= j < m ==> Sub(k, j) in w.t && w.t[Sub(k, j)] == words[j])
  }

  /** Only k's own block changed, apart from the new blocks, which hold what the device holds there. */
  ghost predicate HungDisk(v: Snap, w: Snap, k: Key, words: seq<nat>, m: nat, disk: seq<Block>)
    requires m <= |words| && k in v.t
  {
    && |w.disk| == |v.disk| == |disk|
    && (forall b :: 0 <= b < |disk| && b !in Firsts(words, m) && b != v.t[k] ==> w.disk[b] == v.disk[b])
    && (forall j :: 0 <= j < m && words[j] < |disk| ==> w.disk[words[j]] == disk[words[j]])
  }

  lemma FirstsNext(words: seq<nat>, m: nat)
    requires m < |words|
    ensures Firsts(words, m + 1) == Firsts(words, m) + {words[m]}
  {
  }

  lemma HungTreeNext(v: Snap, u: Snap, w: Snap, k: Key, words: seq<nat>, m: nat)
    requires m < |words| && HungTree(v, u, k, words, m) && Took(u, w, Sub(k, m), words[m])
    ensures HungTree(v, w, k, words, m + 1)
  {
    FirstsNext(words, m);
  }

  lemma HungDiskNext(v: Snap, u: Snap, w: Snap, k: Key, words: seq<nat>, m: nat, n: nat, disk: seq<Block>)
    requires m < |words| && k in v.t && k in u.t && u.t[k] == v.t[k] && v.t[k] in v.used
    requires HungDisk(v, u, k, words, m, disk) && Took(u, w, Sub(k, m), words[m]) && w.disk[words[m]] == disk[words[m]]
    requires Drafted(v.disk, v.used, words, n) && m < n
    ensures HungDisk(v, w, k, words, m + 1, disk)
  {
    FirstsNext(words, m);
  }

  lemma HungFresh(v: Snap, u: Snap, k: Key, words: seq<nat>, m: nat, n: nat)
    requires Drafted(v.disk, v.used, words, n) && m < n && HungTree(v, u, k, words, m) && n <= v.free
    requires Sound(v) && Height(k) == 1 && k in v.t && (forall j :: 0 <= j < 1024 ==> Sub(k, j) !in v.t)
    ensures ValidKey(Sub(k, m)) && k in u.t && u.t[k] == v.t[k] && v.t[k] in v.used
    ensures Sub(k, m) !in u.t && words[m] !in u.used && 0 < words[m] < |v.disk| && IsWord(words[m]) && u.free > 0
    ensures Height(Sub(k, m)) == 0
  {
  }

  lemma {:induction false} Hang(v: Snap, k: Key, words: seq<nat>, m: nat, n: nat, disk: seq<Block>) returns (w: Snap)
    requires Sound(v) && k in v.t && Height(k) == 1 && (forall j :: 0 <= j < 1024 ==> Sub(k, j) !in v.t)
    requires |words| == 1024 && Drafted(v.disk, v.used, words, n) && m <= n <= v.free && n <= 1024 && |disk| == |v.disk|
    ensures |w.disk| == |disk| && Sound(w) && Grew(v, w)
    ensures HungTree(v, w, k, words, m) && HungDisk(v, w, k, words, m, disk)
  {
    hide Sound, Drafted, Grew, HungTree, HungDisk, Add, Took, Ptrs;
    if m == 0 {
      w := v;
      HungNone(v, k, words, disk);
    } else {
      var u := Hang(v, k, words, m - 1, n, disk);
      HungFresh(v, u, k, words, m - 1, n);
      w := Add(u, Sub(k, m - 1), words[m - 1], disk[words[m - 1]]);
      AddTook(u, Sub(k, m - 1), words[m - 1], disk[words[m - 1]]);
      AddContent(u, Sub(k, m - 1), words[m - 1], disk[words[m - 1]]);
      HungTreeNext(v, u, w, k, words, m - 1);
      HungDiskNext(v, u, w, k, words, m - 1, n, disk);
      GrewTrans(v, u, w);
    }
  }

  lemma AddContent(v: Snap, k: Key, n: nat, content: Block)
    requires Sound(v) && ValidKey(k) && n < |v.disk| && IsWord(n) && (k.Sub? ==> k.parent in v.t)
    ensures Add(v, k, n, content).disk[n] == content
  {
  }

  lemma HungNone(v: Snap, k: Key, words: seq<nat>, disk: seq<Block>)
    requires k in v.t && |disk| == |v.disk|
    ensures HungTree(v, v, k, words, 0) && HungDisk(v, v, k, words, 0, disk) && Grew(v, v)
  {
  }

  // ----- the layout of a freshly written file

  /** Block i of the buffer, padded with zeros. */
  function Chunk(buf: seq<byte>, i: nat): Block {
    seq(4096, p requires 0 <= p < 4096 => if 4096 * i + p < |buf| then buf[4096 * i + p] else 0)
  }

  const DOUBLE_END: nat := 1049612   // 12 + 1024 + 1024^2

  /** The positions on the way to the first n file blocks. */
  predicate Lies(k: Key, n: nat) {
    match k
    case Root(slot) => (slot < 12 && slot < n) || (slot == 12 && n > 12) || (slot == 13 && n > 1036)
    case Sub(Root(12), j) => j < 1024 && 12 + j < n
    case Sub(Root(13), a) => a < 1024 && 1036 + 1024 * a < n
    case Sub(Sub(Root(13), a), j) => a < 1024 && j < 1024 && 1036 + 1024 * a + j < n
    case _ => false
  }

  /** The first n file blocks hold the buffer, and the tree has no other position than those on the way to them. */
  ghost predicate Laid(v: Snap, buf: seq<byte>, n: nat) {
    Buffered(v, buf, n) && forall k :: k in v.t <==> Lies(k, n)
  }

  /** The first n file blocks hold the buffer. */
  ghost predicate Buffered(v: Snap, buf: seq<byte>, n: nat) {
    n <= DOUBLE_END && forall i :: 0 <= i < n ==> Data(v, i) == Chunk(buf, i)
  }

  /** The position of the idx-th pointer block that holds data pointers. */
  function Single(idx: nat): Key {
    if idx == 0 then Root(12) else Sub(Root(13), idx - 1)
  }

  /** The first file block of single indirect block number idx. */
  function First(idx: nat): nat {
    12 + 1024 * idx
  }

  lemma LiesNext(x: Key, idx: nat, m: nat)
    requires idx <= 1024 && 0 < m <= 1024
    ensures Lies(x, First(idx) + m) <==>
            Lies(x, First(idx)) || x == Single(idx) || (idx == 1 && x == Root(13)) || (x.Sub? && x.parent == Single(idx) && x.j < m)
  {
  }

  lemma PathSingle(idx: nat, i: nat)
    requires idx <= 1024 && i < MAX_FILE_BLOCKS
    ensures forall j :: 0 <= j < 1024 ==> (Path(i) == Sub(Single(idx), j) <==> i == First(idx) + j)
    ensures Path(i) != Single(idx)
  {
  }

  /** A pointer block taking a free position maps no file block. */
  lemma AddPointer(v: Snap, k: Key, n: nat, content: Block, buf: seq<byte>, done: nat)
    requires Sound(v) && ValidKey(k) && 0 < n < |v.disk| && IsWord(n) && (k.Sub? ==> k.parent in v.t)
    requires k !in v.t && n !in v.used && Height(k) > 0
    requires Buffered(v, buf, done)
    ensures Buffered(Add(v, k, n, content), buf, done)
  {
    hide Sound, Data, Add;
    forall i | 0 <= i < done ensures Data(Add(v, k, n, content), i) == Chunk(buf, i) {
      AddFile(v, k, n, content, i);
    }
  }

  lemma HungData(v: Snap, w: Snap, idx: nat, words: seq<nat>, m: nat, disk: seq<Block>, buf: seq<byte>, n: nat)
    requires Sound(v) && Sound(w) && idx <= 1024 && Single(idx) in v.t && |words| == 1024 && m <= n && m <= 1024
    requires Drafted(v.disk, v.used, words, n) && Height(Single(idx)) == 1 && First(idx) + m <= DOUBLE_END
    requires HungTree(v, w, Single(idx), words, m) && HungDisk(v, w, Single(idx), words, m, disk)
    requires Buffered(v, buf, First(idx))
    requires Copied(disk, buf, words, m, First(idx))
    ensures Buffered(w, buf, First(idx) + m)
  {
    hide Sound, Data, Chunk, Drafted, HungTree, HungDisk, Copied;
    forall i | 0 <= i < First(idx) + m ensures Data(w, i) == Chunk(buf, i) {
      PathSingle(idx, i);
      if i < First(idx) {
        HungOld(v, w, Single(idx), words, m, n, disk, i);
      } else {
        assert Path(i) == Sub(Single(idx), i - First(idx));
        HungNew(v, w, idx, words, m, disk, buf, n, i, i - First(idx));
      }
    }
  }

  lemma HungNew(v: Snap, w: Snap, idx: nat, words: seq<nat>, m: nat, disk: seq<Block>, buf: seq<byte>, n: nat, i: nat, j: nat)
    requires Sound(w) && Single(idx) in v.t && |words| == 1024 && j < m <= n && i == First(idx) + j < MAX_FILE_BLOCKS
    requires Drafted(v.disk, v.used, words, n) && Copied(disk, buf, words, m, First(idx))
    requires HungTree(v, w, Single(idx), words, m) && HungDisk(v, w, Single(idx), words, m, disk)
    requires Path(i) == Sub(Single(idx), j)
    ensures Data(w, i) == Chunk(buf, i)
  {
  }

  lemma HungOld(v: Snap, w: Snap, k: Key, words: seq<nat>, m: nat, n: nat, disk: seq<Block>, i: nat)
    requires Sound(v) && k in v.t && |words| == 1024 && Height(k) == 1 && i < MAX_FILE_BLOCKS
    requires Drafted(v.disk, v.used, words, n) && m <= n
    requires HungTree(v, w, k, words, m) && HungDisk(v, w, k, words, m, disk)
    requires forall j :: 0 <= j < m ==> Path(i) != Sub(k, j)
    ensures Data(w, i) == Data(v, i)
  {
    SlotSound(v, i);
    if Slot(v.t, i) != 0 {
      DataNotPointer(v, i);
      assert v.t[k] in PtrBlocks(v.t);
      assert Slot(v.t, i) !in Firsts(words, m);
    }
  }

  // ----- the state while the tree is being built

  /**
   * v is the tree as it will be once the double indirect buffer is flushed to the block in `pend` (none: no such
   * buffer).  The device r agrees with it on every other allocated block; `extra` are blocks allocated but not yet in the tree.
   */
  ghost predicate Building(base: Snap, v: Snap, r: Snap, extra: set<nat>, pend: set<nat>) {
    && Sound(v) && Grew(base, v) && base.t == map[] && base.cnt == 0 && |r.disk| == |v.disk| <= 0x2000_0000
    && r.used == v.used + extra && extra !! v.used && r.free + |extra| == v.free
    && (forall b :: b in extra ==> 0 < b < |r.disk|)
    && Matches(v, r, pend)
  }

  ghost predicate Matches(v: Snap, r: Snap, pend: set<nat>) {
    |r.disk| == |v.disk| && forall b :: b in v.used && 0 <= b < |v.disk| && b !in pend ==> r.disk[b] == v.disk[b]
  }

  function ZeroPtrs(): (b: Block)
    ensures AllZero(Ptrs(b))
  {
    PtrBlock(seq(1024, _ => 0))
  }

  lemma CountMinus(a: set<nat>, b: set<nat>)
    requires b <= a
    ensures |a - b| == |a| - |b|
  {
    assert a == (a - b) + b;
  }

  /** Some of the extra blocks move into the tree. */
  lemma Moved(base: Snap, v: Snap, w: Snap, r: Snap, extra: set<nat>, moved: set<nat>, pend: set<nat>, pend': set<nat>)
    requires Building(base, v, r, extra, pend) && Sound(w) && Grew(v, w) && moved <= extra
    requires w.used == v.used + moved && |moved| == v.free - w.free && Matches(w, r, pend')
    ensures Building(base, w, r, extra - moved, pend')
  {
    hide Sound, Grew;
    CountMinus(extra, moved);
    GrewTrans(base, v, w);
    assert r.used == w.used + (extra - moved);
  }

  lemma BuildingFacts(base: Snap, v: Snap, r: Snap, extra: set<nat>, pend: set<nat>)
    requires Building(base, v, r, extra, pend)
    ensures Sound(v) && Grew(base, v) && |r.disk| == |v.disk| && Matches(v, r, pend)
    ensures forall b :: b in extra ==> 0 < b < |v.disk| && IsWord(b) && b !in v.used
    ensures r.free + |extra| == v.free
  {
  }

  /** The double indirect block enters the tree with its first entry. */
  lemma BuildDouble(base: Snap, v: Snap, r: Snap, extra: set<nat>, d: nat, buf: seq<byte>, done: nat) returns (w: Snap)
    requires Building(base, v, r, extra, {}) && d in extra && Root(13) !in v.t
    requires Buffered(v, buf, done)
    ensures Building(base, w, r, extra - {d}, {d}) && w.t == v.t[Root(13) := d] && w.cnt == v.cnt + 1 && w.used == v.used + {d}
    ensures Buffered(w, buf, done)
  {
    hide Sound, Grew, Data, Building, Chunk, Matches, Written;
    BuildingFacts(base, v, r, extra, {});
    w := Add(v, Root(13), d, ZeroPtrs());
    assert |extra| >= 1 by { CountMinus(extra, {d}); }
    AddTook(v, Root(13), d, ZeroPtrs());
    MatchDouble(v, w, r, d);
    Moved(base, v, w, r, extra, {d}, {}, {d});
    AddPointer(v, Root(13), d, ZeroPtrs(), buf, done);
  }

  lemma MatchDouble(v: Snap, w: Snap, r: Snap, d: nat)
    requires Matches(v, r, {}) && Took(v, w, Root(13), d)
    ensures Matches(w, r, {d})
  {
  }

  /** The pointer block at k, once flushed, is what the tree says. */
  lemma FlushedBlock(w: Snap, k: Key, words: seq<nat>, m: nat, blk: Block)
    requires Sound(w) && k in w.t && Height(k) == 1 && |words| == 1024 && m <= 1024
    requires forall j :: 0 <= j < 1024 ==> IsWord(words[j]) && At(w.t, Sub(k, j)) == words[j]
    requires Ptrs(blk) == words
    ensures 0 < w.t[k] < |w.disk| && w.disk[w.t[k]] == blk
  {
    assert NodeStored(w.disk, w.t, k);
    assert Ptrs(w.disk[w.t[k]]) == words;
    PtrsInjective(w.disk[w.t[k]], blk);
  }

  lemma HungEntries(v: Snap, w: Snap, k: Key, words: seq<nat>, m: nat)
    requires Drafted(v.disk, v.used, words, m) && HungTree(v, w, k, words, m)
    requires forall j :: 0 <= j < 1024 ==> Sub(k, j) !in v.t
    ensures forall j :: 0 <= j < 1024 ==> IsWord(words[j]) && At(w.t, Sub(k, j)) == words[j]
  {
  }

  lemma NoEntries(v: Snap, k: Key)
    requires Sound(v) && k !in v.t
    ensures forall j :: 0 <= j < 1024 ==> Sub(k, j) !in v.t
  {
    forall j | 0 <= j < 1024 ensures Sub(k, j) !in v.t { NoOrphan(v.t, |v.disk|, Sub(k, j)); }
  }

  /** The blocks in the buffer hold the file blocks from `first` on. */
  ghost predicate Copied(disk: seq<Block>, buf: seq<byte>, words: seq<nat>, m: nat, first: nat)
    requires m <= |words|
  {
    forall j :: 0 <= j < m && words[j] < |disk| ==> disk[words[j]] == Chunk(buf, first + j)
  }

  /** Everything a filled single indirect buffer must satisfy when it is flushed to block b. */
  ghost predicate Filled(v: Snap, r: Snap, extra: set<nat>, idx: nat, b: nat, words: seq<nat>, m: nat, buf: seq<byte>) {
    && idx <= 1024 && 0 < m <= 1024 && First(idx) + m <= DOUBLE_END
    && |words| == 1024 && b in extra && b !in Firsts(words, m)
    && Firsts(words, m) <= extra && |Firsts(words, m)| == m && Drafted(r.disk, v.used, words, m)
    && Copied(r.disk, buf, words, m, First(idx))
  }

  lemma SproutReady(base: Snap, v: Snap, r: Snap, extra: set<nat>, pend: set<nat>, idx: nat, b: nat, words: seq<nat>, m: nat, buf: seq<byte>)
    requires Building(base, v, r, extra, pend) && Filled(v, r, extra, idx, b, words, m, buf)
    requires Single(idx) !in v.t && (idx > 0 ==> Root(13) in v.t && v.t[Root(13)] in pend)
    ensures ValidKey(Single(idx)) && Height(Single(idx)) == 1 && 0 < b < |v.disk| && IsWord(b) && b !in v.used
    ensures v.free > m && |r.disk| == |v.disk|
  {
    CountMinus(extra, Firsts(words, m) + {b});
  }

  lemma DraftedStill(v: Snap, u: Snap, r: Snap, extra: set<nat>, idx: nat, b: nat, words: seq<nat>, m: nat, buf: seq<byte>)
    requires Filled(v, r, extra, idx, b, words, m, buf) && |u.disk| == |r.disk| && u.used == v.used + {b}
    ensures Drafted(u.disk, u.used, words, m)
  {
    assert forall j :: 0 <= j < m ==> words[j] in Firsts(words, m);
  }

  lemma MatchSingle(v: Snap, u: Snap, w: Snap, r: Snap, pend: set<nat>, k: Key, b: nat, words: seq<nat>, m: nat)
    requires Matches(v, r, pend) && Rooting(v, u, k, b, pend, words, m) && |words| == 1024 && m <= 1024 && Height(k) == 1
    requires k in u.t && 0 <= b < |r.disk| && Ptrs(r.disk[b]) == words
    requires Sound(w) && HungTree(u, w, k, words, m) && HungDisk(u, w, k, words, m, r.disk)
    ensures Matches(w, r, pend)
  {
    hide Sound, Grew, Ptrs, Took, Drafted;
    RootingIs(v, u, k, b, pend, words, m);
    HungEntries(u, w, k, words, m);
    FlushedBlock(w, k, words, m, r.disk[b]);
    forall x | x in w.used && 0 <= x < |w.disk| && x !in pend ensures r.disk[x] == w.disk[x] {
      if x in Firsts(words, m) {
        var j :| 0 <= j < m && words[j] == x;
      }
    }
  }

  /** w is v with the pointer block b at position k and m entries below it. */
  ghost predicate Sprouted(v: Snap, w: Snap, k: Key, b: nat, words: seq<nat>, m: nat)
    requires m <= |words|
  {
    && w.used == v.used + {b} + Firsts(words, m) && w.free == v.free - m - 1 && w.cnt == v.cnt + m + 1
    && (forall x :: x in w.t <==> x in v.t || x == k || (x.Sub? && x.parent == k && x.j < m))
    && (forall x :: x in v.t ==> x in w.t && w.t[x] == v.t[x])
    && k in w.t && w.t[k] == b
  }

  lemma SproutedIs(v: Snap, u: Snap, w: Snap, k: Key, b: nat, words: seq<nat>, m: nat)
    requires m <= |words| && HungTree(u, w, k, words, m) && Took(v, u, k, b)
    ensures Sprouted(v, w, k, b, words, m)
  {
  }

  /** The pointer block itself is in the tree; its entries are still to come. */
  ghost predicate Rooting(v: Snap, u: Snap, k: Key, b: nat, pend: set<nat>, words: seq<nat>, m: nat) {
    && Sound(u) && Grew(v, u) && Took(v, u, k, b) && Drafted(u.disk, u.used, words, m) && m <= u.free
    && (forall j :: 0 <= j < 1024 ==> Sub(k, j) !in u.t)
    && (forall x :: 0 <= x < |v.disk| && x != b && x !in pend ==> u.disk[x] == v.disk[x])
  }

  lemma GraftRoot(base: Snap, v: Snap, r: Snap, extra: set<nat>, pend: set<nat>, idx: nat, b: nat, words: seq<nat>, m: nat, buf: seq<byte>)
    returns (u: Snap)
    requires Building(base, v, r, extra, pend) && m <= |words| && Filled(v, r, extra, idx, b, words, m, buf)
    requires Single(idx) !in v.t && (idx > 0 ==> Root(13) in v.t && v.t[Root(13)] in pend)
    requires Buffered(v, buf, First(idx))
    ensures Rooting(v, u, Single(idx), b, pend, words, m) && Buffered(u, buf, First(idx))
  {
    hide Sound, Grew, Data, Add, Drafted, Filled, Chunk, Ptrs, Building, Matches, Took, Buffered, Firsts;
    var k := Single(idx);
    BuildingFacts(base, v, r, extra, pend);
    SproutReady(base, v, r, extra, pend, idx, b, words, m, buf);
    u := Add(v, k, b, ZeroPtrs());
    AddTook(v, k, b, ZeroPtrs());
    AddPointer(v, k, b, ZeroPtrs(), buf, First(idx));
    NoEntries(v, k);
    SproutIs(v, u, k, b, pend);
    DraftedStill(v, u, r, extra, idx, b, words, m, buf);
  }

  lemma RootingIs(v: Snap, u: Snap, k: Key, b: nat, pend: set<nat>, words: seq<nat>, m: nat)
    requires Rooting(v, u, k, b, pend, words, m)
    ensures Sound(u) && Grew(v, u) && Took(v, u, k, b) && Drafted(u.disk, u.used, words, m) && m <= u.free && m <= |words| == 1024
    ensures forall j :: 0 <= j < 1024 ==> Sub(k, j) !in u.t
    ensures u.used == v.used + {b} && k in u.t && u.t[k] == b && |u.disk| == |v.disk| && 0 < b < |v.disk| && b !in v.used
  {
  }

  /** A flushed single indirect block enters the tree with all its data blocks. */
  lemma GraftSingle(base: Snap, v: Snap, r: Snap, extra: set<nat>, pend: set<nat>, idx: nat, b: nat, words: seq<nat>, m: nat, buf: seq<byte>)
    returns (w: Snap)
    requires Building(base, v, r, extra, pend) && m <= |words| && Filled(v, r, extra, idx, b, words, m, buf)
    requires Single(idx) !in v.t && (idx > 0 ==> Root(13) in v.t && v.t[Root(13)] in pend)
    requires 0 <= b < |r.disk| && Ptrs(r.disk[b]) == words && Buffered(v, buf, First(idx))
    ensures Sound(w) && Grew(v, w) && Matches(w, r, pend) && Sprouted(v, w, Single(idx), b, words, m)
    ensures First(idx) + m <= DOUBLE_END && Buffered(w, buf, First(idx) + m)
  {
    hide Sound, Grew, Data, HungTree, HungDisk, Drafted, Filled, Chunk, Ptrs, Building, Matches, Took, Buffered, Firsts, Sprouted, Rooting;
    var k := Single(idx);
    BuildingFacts(base, v, r, extra, pend);
    FilledIs(v, r, extra, idx, b, words, m, buf);
    var u := GraftRoot(base, v, r, extra, pend, idx, b, words, m, buf);
    RootingIs(v, u, k, b, pend, words, m);
    w := Hang(u, k, words, m, m, r.disk);
    GrewTrans(v, u, w);
    HungData(u, w, idx, words, m, r.disk, buf, m);
    SproutedIs(v, u, w, k, b, words, m);
    MatchSingle(v, u, w, r, pend, k, b, words, m);
  }

  lemma FilledIs(v: Snap, r: Snap, extra: set<nat>, idx: nat, b: nat, words: seq<nat>, m: nat, buf: seq<byte>)
    requires Filled(v, r, extra, idx, b, words, m, buf)
    ensures idx <= 1024 && 0 < m <= 1024 && |words| == 1024 && b in extra && b !in Firsts(words, m)
    ensures Firsts(words, m) <= extra && |Firsts(words, m)| == m && First(idx) + m <= DOUBLE_END
    ensures Copied(r.disk, buf, words, m, First(idx))
  {
  }

  lemma BuildSingle(base: Snap, v: Snap, r: Snap, extra: set<nat>, pend: set<nat>, idx: nat, b: nat, words: seq<nat>, m: nat, buf: seq<byte>)
    returns (w: Snap)
    requires Building(base, v, r, extra, pend) && m <= |words| && Filled(v, r, extra, idx, b, words, m, buf)
    requires Single(idx) !in v.t && (idx > 0 ==> Root(13) in v.t && v.t[Root(13)] in pend)
    requires 0 <= b < |r.disk| && Ptrs(r.disk[b]) == words && Buffered(v, buf, First(idx))
    ensures Building(base, w, r, extra - {b} - Firsts(words, m), pend) && Sprouted(v, w, Single(idx), b, words, m)
    ensures Buffered(w, buf, First(idx) + m)
  {
    hide Sound, Grew, Filled, Building, Matches, Buffered, Firsts, Ptrs;
    FilledIs(v, r, extra, idx, b, words, m, buf);
    w := GraftSingle(base, v, r, extra, pend, idx, b, words, m, buf);
    var moved := Firsts(words, m) + {b};
    assert w.used == v.used + moved;
    Moved(base, v, w, r, extra, moved, pend, pend);
    assert extra - moved == extra - {b} - Firsts(words, m);
  }

  lemma SproutIs(v: Snap, u: Snap, k: Key, b: nat, pend: set<nat>)
    requires Took(v, u, k, b) && (k.Sub? ==> k.parent in v.t && v.t[k.parent] in pend)
    requires forall j :: 0 <= j < 1024 ==> Sub(k, j) !in v.t
    ensures u.used == v.used + {b} && u.free == v.free - 1 && u.cnt == v.cnt + 1 && u.t == v.t[k := b] && |u.disk| == |v.disk|
    ensures forall j :: 0 <= j < 1024 ==> Sub(k, j) !in u.t
    ensures forall x :: 0 <= x < |v.disk| && x != b && x !in pend ==> u.disk[x] == v.disk[x]
  {
  }

  // ----- giving everything back

  /** Since (used0, free0), exactly the blocks in f were freed. */
  ghost predicate Gave(used0: set<nat>, free0: nat, used: set<nat>, free: nat, f: set<nat>) {
    f <= used0 && used == used0 - f && free == free0 + |f|
  }

  lemma GaveMore(used0: set<nat>, free0: nat, used1: set<nat>, free1: nat, used2: set<nat>, free2: nat, f: set<nat>, g: set<nat>)
    requires Gave(used0, free0, used1, free1, f) && g <= used0 && g !! f
    requires used2 == used1 - g && free2 == free1 + |g|
    ensures Gave(used0, free0, used2, free2, f + g)
  {
  }

  /** Position k and everything below it can be freed, and has not been. */
  ghost predicate Due(disk: seq<Block>, used0: set<nat>, t: Tree, k: Key, f: set<nat>) {
    StoredUnder(disk, t, k) && Under(t, k) <= used0 && 0 !in Under(t, k) && Under(t, k) !! f
  }

  /** indir_free_block on a pointer of the tree under construction. */
  method GiveBack(fs: Volume, b: nat, layer: nat, ghost t: Tree, ghost k: Key, ghost used0: set<nat>, ghost free0: nat, ghost f: set<nat>)
    requires fs.BlocksReady() && Gave(used0, free0, fs.blocks.used, fs.blocks.superFree, f) && Due(fs.disk, used0, t, k, f)
    requires b == At(t, k) && layer == Height(k)
    modifies fs.blocks
    ensures fs.BlocksReady() && Gave(used0, free0, fs.blocks.used, fs.blocks.superFree, f + Under(t, k))
  {
    hide StoredUnder, Under, Volume.BlocksReady;
    ghost var used1, free1 := fs.blocks.used, fs.blocks.superFree;
    FreeUnder(fs, b, layer, t, k);
    GaveMore(used0, free0, used1, free1, fs.blocks.used, fs.blocks.superFree, f, Under(t, k));
  }

  /** The inode pointers and the buffered double indirect pointers, as far as they have been filled in. */
  ghost predicate Recorded(ptr: seq<nat>, cur: seq<nat>, t: Tree) {
    && |ptr| == 15 && |cur| == 1024 && ptr[13] == 0 && ptr[14] == 0
    && (forall s :: 0 <= s < 13 ==> ptr[s] == At(t, Root(s)))
    && (forall j :: 0 <= j < 1024 ==> cur[j] == At(t, Sub(Root(13), j)))
  }

  lemma DueRoot(base: Snap, v: Snap, r: Snap, extra: set<nat>, pend: set<nat>, i: nat)
    requires Building(base, v, r, extra, pend) && i < 13 && (forall b :: b in pend ==> Root(13) in v.t && v.t[Root(13)] == b)
    ensures Due(r.disk, r.used, v.t, Root(i), UnderRoots(v.t, i))
    ensures UnderRoots(v.t, i + 1) == UnderRoots(v.t, i) + Under(v.t, Root(i))
  {
    DueAt(base, v, r, extra, pend, Root(i));
    RootsNext(v.t, i);
  }

  lemma DueAt(base: Snap, v: Snap, r: Snap, extra: set<nat>, pend: set<nat>, k: Key)
    requires Building(base, v, r, extra, pend) && (forall b :: b in pend ==> Root(13) in v.t && v.t[Root(13)] == b)
    requires !OnPath(k, Root(13))
    ensures StoredUnder(r.disk, v.t, k) && Under(v.t, k) <= r.used && 0 !in Under(v.t, k)
  {
    forall x | x in v.t && OnPath(k, x) && Height(x) > 0 ensures NodeStored(r.disk, v.t, x) {
      assert NodeStored(v.disk, v.t, x);
      assert v.t[x] !in pend;
    }
  }

  lemma DueEntry(base: Snap, v: Snap, r: Snap, extra: set<nat>, pend: set<nat>, j: nat)
    requires Building(base, v, r, extra, pend) && j < 1024 && (forall b :: b in pend ==> Root(13) in v.t && v.t[Root(13)] == b)
    ensures Due(r.disk, r.used, v.t, Sub(Root(13), j), UnderRoots(v.t, 13) + UnderFirst(v.t, Root(13), j))
    ensures UnderFirst(v.t, Root(13), j + 1) == UnderFirst(v.t, Root(13), j) + Under(v.t, Sub(Root(13), j))
  {
    DueAt(base, v, r, extra, pend, Sub(Root(13), j));
    UnderFirstNext(v.t, Root(13), j);
    UnderRootsApart(v.t, 13, 13);
    UnderFirstBelow(v.t, Root(13), 1024);
  }

  /** What the calls for the tree itself free. */
  ghost function TreeDue(t: Tree): set<nat> {
    UnderRoots(t, 13) + UnderFirst(t, Root(13), 1024)
  }

  /** The calls on the direct pointers and the single indirect pointer. */
  method GiveDirect(fs: Volume, ptr: seq<nat>, cur: seq<nat>, ghost base: Snap, ghost v: Snap, ghost r: Snap, ghost extra: set<nat>, ghost pend: set<nat>)
    requires fs.BlocksReady() && Building(base, v, r, extra, pend) && fs.disk == r.disk && Recorded(ptr, cur, v.t)
    requires forall b :: b in pend ==> Root(13) in v.t && v.t[Root(13)] == b
    requires fs.blocks.used == r.used && fs.blocks.superFree == r.free
    modifies fs.blocks
    ensures fs.BlocksReady() && Gave(r.used, r.free, fs.blocks.used, fs.blocks.superFree, UnderRoots(v.t, 13))
  {
    hide Volume.BlocksReady, Building, Gave, Due, Under;
    GaveNone(r.used, r.free);
    for i := 0 to 12
      invariant fs.BlocksReady() && Gave(r.used, r.free, fs.blocks.used, fs.blocks.superFree, UnderRoots(v.t, i))
    {
      DueRoot(base, v, r, extra, pend, i);
      GiveBack(fs, ptr[i], 0, v.t, Root(i), r.used, r.free, UnderRoots(v.t, i));
    }
    DueRoot(base, v, r, extra, pend, 12);
    GiveBack(fs, ptr[12], 1, v.t, Root(12), r.used, r.free, UnderRoots(v.t, 12));
  }

  /** The calls on the buffered double indirect pointers. */
  method GiveDouble(fs: Volume, ptr: seq<nat>, cur: seq<nat>, ghost base: Snap, ghost v: Snap, ghost r: Snap, ghost extra: set<nat>, ghost pend: set<nat>)
    requires fs.BlocksReady() && Building(base, v, r, extra, pend) && fs.disk == r.disk && Recorded(ptr, cur, v.t)
    requires forall b :: b in pend ==> Root(13) in v.t && v.t[Root(13)] == b
    requires Gave(r.used, r.free, fs.blocks.used, fs.blocks.superFree, UnderRoots(v.t, 13))
    modifies fs.blocks
    ensures fs.BlocksReady() && Gave(r.used, r.free, fs.blocks.used, fs.blocks.superFree, TreeDue(v.t))
  {
    hide Volume.BlocksReady, Building, Gave, Due, Under, UnderRoots, UnderFirst;
    UnderFirstZero(v.t, Root(13));
    ghost var f := UnderRoots(v.t, 13);
    assert f == f + UnderFirst(v.t, Root(13), 0);
    for j := 0 to 1024
      invariant fs.BlocksReady()
      invariant Gave(r.used, r.free, fs.blocks.used, fs.blocks.superFree, f + UnderFirst(v.t, Root(13), j))
    {
      DueEntry(base, v, r, extra, pend, j);
      GiveBack(fs, cur[j], 1, v.t, Sub(Root(13), j), r.used, r.free, f + UnderFirst(v.t, Root(13), j));
      assert f + UnderFirst(v.t, Root(13), j) + Under(v.t, Sub(Root(13), j)) == f + UnderFirst(v.t, Root(13), j + 1);
    }
  }

  lemma GaveNone(used: set<nat>, free: nat)
    ensures Gave(used, free, used, free, {})
  {
  }

  ghost function Entries(words: seq<nat>): set<nat> {
    set j | 0 <= j < |words| && words[j] != 0 :: words[j]
  }

  lemma EntriesNext(words: seq<nat>, j: nat)
    requires j < |words|
    ensures Entries(words[..j + 1]) == Entries(words[..j]) + (if words[j] == 0 then {} else {words[j]})
  {
    var s, s' := words[..j], words[..j + 1];
    forall b | b in Entries(s) ensures b in Entries(s') {
      var i :| 0 <= i < |s| && s[i] != 0 && s[i] == b;
      assert s'[i] == b;
    }
    if words[j] != 0 { assert s'[j] == words[j]; }
    forall b | b in Entries(s') ensures b in Entries(s) || b == words[j] {
      var i :| 0 <= i < |s'| && s'[i] != 0 && s'[i] == b;
      if i < j { assert s[i] == b; }
    }
  }

  ghost predicate Nonrepeating(words: seq<nat>) {
    forall i, j :: 0 <= i < j < |words| && words[j] != 0 ==> words[i] != words[j]
  }

  lemma DueBlock(disk: seq<Block>, used0: set<nat>, b: nat, f: set<nat>)
    requires 0 < b < |disk| && b in used0 && b !in f
    ensures Due(disk, used0, map[Root(0) := b], Root(0), f) && Under(map[Root(0) := b], Root(0)) == {b}
  {
    UnderLeaf(map[Root(0) := b], |disk|, Root(0));
  }

  lemma EntryNew(words: seq<nat>, j: nat)
    requires Nonrepeating(words) && j < |words| && words[j] != 0
    ensures words[j] !in Entries(words[..j]) && words[j] in Entries(words)
  {
  }

  /** The calls on a list of blocks outside the tree: buffered data pointers, then pointer blocks not yet linked. */
  method GiveList(fs: Volume, words: seq<nat>, ghost used0: set<nat>, ghost free0: nat, ghost f: set<nat>)
    requires fs.BlocksReady() && Gave(used0, free0, fs.blocks.used, fs.blocks.superFree, f) && Nonrepeating(words)
    requires Entries(words) <= used0 && Entries(words) !! f && forall b :: b in Entries(words) ==> b < |fs.disk|
    modifies fs.blocks
    ensures fs.BlocksReady() && Gave(used0, free0, fs.blocks.used, fs.blocks.superFree, f + Entries(words))
  {
    hide Volume.BlocksReady, Gave, Due, Under, Entries, Nonrepeating;
    assert Entries(words[..0]) == {} by { NoneYet(words); }
    assert f + Entries(words[..0]) == f;
    for j := 0 to |words|
      invariant fs.BlocksReady() && Gave(used0, free0, fs.blocks.used, fs.blocks.superFree, f + Entries(words[..j]))
    {
      EntriesNext(words, j);
      ghost var g := f + Entries(words[..j]);
      if words[j] != 0 {
        EntryNew(words, j);
        DueBlock(fs.disk, used0, words[j], g);
        GiveBack(fs, words[j], 0, map[Root(0) := words[j]], Root(0), used0, free0, g);
        assert g + {words[j]} == f + Entries(words[..j + 1]);
      } else {
        assert g == f + Entries(words[..j + 1]);
      }
    }
    assert words[..|words|] == words;
  }

  lemma NoneYet(words: seq<nat>)
    ensures Entries(words[..0]) == {}
  {
  }

  /** The block of the double indirect pointer, once it is in the tree. */
  ghost function DoubleIn(t: Tree): set<nat> {
    if Root(13) in t then {t[Root(13)]} else {}
  }

  lemma TreeDueIs(v: Snap)
    requires Sound(v) && Root(14) !in v.t
    ensures TreeDue(v.t) + DoubleIn(v.t) == AllBlocks(v.t) && TreeDue(v.t) !! DoubleIn(v.t) && AllBlocks(v.t) <= v.used
    ensures |AllBlocks(v.t)| == |v.t|
  {
    hide Under, UnderFirst, UnderRoots, AllBlocks, Rooted, Unshared, DoubleIn;
    var t := v.t;
    UnderRootsAll(t, |v.disk|);
    AllBlocksCount(t);
    UnderEmpty(t, |v.disk|, Root(14));
    RootsNext(t, 13);
    RootsNext(t, 14);
    DoubleSplit(t, |v.disk|);
    InUse(v);
  }

  lemma InUse(v: Snap)
    requires Sound(v)
    ensures AllBlocks(v.t) <= v.used
  {
  }

  lemma DoubleSplit(t: Tree, nblocks: nat)
    requires Rooted(t, nblocks) && Unshared(t)
    ensures Under(t, Root(13)) == UnderFirst(t, Root(13), 1024) + DoubleIn(t) && UnderFirst(t, Root(13), 1024) !! DoubleIn(t)
  {
    if Root(13) in t {
      UnderSplit(t, nblocks, Root(13));
    } else {
      UnderEmpty(t, nblocks, Root(13));
      UnderFirstBelow(t, Root(13), 1024);
    }
  }

  /** Freeing the tree and the extra blocks restores the bitmap. */
  lemma AllGiven(base: Snap, v: Snap, r: Snap, extra: set<nat>, pend: set<nat>, used: set<nat>, free: nat)
    requires Building(base, v, r, extra, pend)
    requires Gave(r.used, r.free, used, free, AllBlocks(v.t) + extra) && AllBlocks(v.t) <= v.used && |AllBlocks(v.t)| == |v.t|
    ensures used == base.used && free == base.free
  {
    hide AllBlocks, Grew, Sound, Matches;
    GrownFromNothing(base, v);
    assert v.used + extra - (AllBlocks(v.t) + extra) == base.used;
  }

  lemma GrownFromNothing(base: Snap, v: Snap)
    requires Grew(base, v) && base.t == map[] && AllBlocks(v.t) <= v.used
    ensures v.used == base.used + AllBlocks(v.t) && base.used !! AllBlocks(v.t) && v.free + |v.t| == base.free
  {
    forall b | b in v.used && b !in base.used ensures b in AllBlocks(v.t) {
      assert Holds(v.t, b);
    }
    forall b | b in AllBlocks(v.t) ensures b !in base.used {
      var k :| k in v.t && v.t[k] == b;
    }
  }

  /** The unwind that write_inode repeats at each of its failing allocations. */
  method Unwind(fs: Volume, ptr: seq<nat>, cur: seq<nat>, words: seq<nat>, spares: seq<nat>,
                ghost base: Snap, ghost v: Snap, ghost extra: set<nat>, ghost pend: set<nat>)
    requires fs.BlocksReady() && Building(base, v, Now(fs, [], map[], 0), extra, pend) && Recorded(ptr, cur, v.t)
    requires (forall b :: b in pend ==> Root(13) in v.t && v.t[Root(13)] == b) && Root(14) !in v.t
    requires Nonrepeating(words) && Nonrepeating(spares) && Entries(words) !! Entries(spares)
    requires Entries(words) + Entries(spares) == extra + DoubleIn(v.t)
    modifies fs.blocks
    ensures fs.BlocksReady() && fs.blocks.used == base.used && fs.blocks.superFree == base.free
  {
    hide Volume.BlocksReady, Building, Gave, Entries, TreeDue, AllBlocks, Nonrepeating, Recorded, Sound, DoubleIn;
    ghost var r := Now(fs, [], map[], 0);
    UnwindOrder(base, v, r, extra, pend, words, spares);
    GiveDirect(fs, ptr, cur, base, v, r, extra, pend);
    GiveDouble(fs, ptr, cur, base, v, r, extra, pend);
    GiveList(fs, words, r.used, r.free, TreeDue(v.t));
    GiveList(fs, spares, r.used, r.free, TreeDue(v.t) + Entries(words));
    SetSum(TreeDue(v.t), DoubleIn(v.t), Entries(words), Entries(spares), AllBlocks(v.t), extra);
    AllGiven(base, v, r, extra, pend, fs.blocks.used, fs.blocks.superFree);
  }

  lemma SetSum(tree: set<nat>, double: set<nat>, words: set<nat>, spares: set<nat>, all: set<nat>, extra: set<nat>)
    requires words + spares == extra + double && tree + double == all
    ensures tree + words + spares == all + extra
  {
    assert tree + words + spares == tree + (words + spares);
  }

  lemma UnwindOrder(base: Snap, v: Snap, r: Snap, extra: set<nat>, pend: set<nat>, words: seq<nat>, spares: seq<nat>)
    requires Building(base, v, r, extra, pend) && Root(14) !in v.t
    requires Entries(words) !! Entries(spares) && Entries(words) + Entries(spares) == extra + DoubleIn(v.t)
    ensures AllBlocks(v.t) <= v.used && |AllBlocks(v.t)| == |v.t|
    ensures TreeDue(v.t) + DoubleIn(v.t) == AllBlocks(v.t) && TreeDue(v.t) !! DoubleIn(v.t)
    ensures Entries(words) <= r.used && Entries(words) !! TreeDue(v.t)
    ensures Entries(spares) <= r.used && Entries(spares) !! TreeDue(v.t) + Entries(words)
    ensures forall b :: b in Entries(words) + Entries(spares) ==> b < |r.disk|
  {
    hide TreeDue, Entries, AllBlocks, Grew;
    TreeDueIs(v);
    forall b | b in extra ensures b !in TreeDue(v.t) { assert b !in v.used; }
    if Root(13) in v.t { RootAt(v, 13); KeyUsed(v, Root(13)); }
  }

  lemma KeyUsed(v: Snap, k: Key)
    requires Sound(v) && k in v.t
    ensures v.t[k] in v.used && ValidKey(k) && 0 < v.t[k] < |v.disk|
  {
  }
}
