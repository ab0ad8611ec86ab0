/** Reading files: read_inode and indir_read_block (kernel/fs/block/blockController.c), sys_read_chunk and cp's copy_file. */
module ReadFile {
  import opened Blocks
  import opened BlockTree
  import opened Bitmaps
  import opened Volumes
  import opened MapFileBlock
  import opened FileBlocks
  import opened FileSystem
  import Footprints
  import opened AppendFile

  // ----- the recursive reader

  /** How many file blocks lie below a pointer of the given layer. */
  function Span(layer: nat): nat {
    if layer == 0 then 1 else 1024 * Span(layer - 1)
  }

  /** How far into the span of a pointer block of the given layer entry j begins. */
  function Off(j: nat, layer: nat): nat
    requires layer > 0
  {
    j * Span(layer - 1)
  }

  lemma OffNext(i: nat, layer: nat)
    requires layer > 0
    ensures Off(0, layer) == 0 && Off(i, layer) + Span(layer - 1) == Off(i + 1, layer)
    ensures Off(1024, layer) == Span(layer) && Span(layer - 1) > 0
    ensures i < 1024 ==> Off(i + 1, layer) <= Span(layer)
  {
    SpanPositive(layer - 1);
    assert i * Span(layer - 1) + Span(layer - 1) == (i + 1) * Span(layer - 1);
  }

  /** The first file block at or below a position. */
  function Start(k: Key): nat
    requires ValidKey(k)
  {
    match k
    case Root(slot) => if slot <= 12 then slot else if slot == 13 then 1036 else 1049612
    case Sub(p, j) => Start(p) + Off(j, Height(p))
  }

  lemma Spans()
    ensures Span(0) == 1 && Span(1) == 1024 && Span(2) == 1048576 && Span(3) == 1073741824
  {
    assert Span(1) == 1024 * Span(0);
    assert Span(2) == 1024 * Span(1);
    assert Span(3) == 1024 * Span(2);
  }

  /** At a data position, the recursive reader and map_file_block look for the same file block. */
  lemma StartIsIndex(k: Key)
    requires ValidKey(k) && Height(k) == 0
    ensures Start(k) == Index(k) && Start(k) < MAX_FILE_BLOCKS && Path(Start(k)) == k
  {
    Spans();
    PathIndex(k);
    if k.Sub? {
      var p := k.parent;
      assert ValidKey(p) && Height(p) == 1;
      if p.Sub? {
        var q := p.parent;
        assert ValidKey(q) && Height(q) == 2;
        if q.Sub? {
          var g := q.parent;
          assert ValidKey(g) && Height(g) == 3;
          HeightBound(g);
          assert Start(q) == Start(g) + q.j * 1048576;
          assert Start(p) == Start(q) + p.j * 1024;
        }
      }
    }
  }

  /** All the positions below an empty one are empty: its whole span is a hole. */
  lemma {:induction false} HoleSpan(s: Snap, k: Key, i: nat)
    requires Sound(s) && ValidKey(k) && k !in s.t && i < Span(Height(k)) && Start(k) + i < MAX_FILE_BLOCKS && Height(k) >= 0
    ensures Data(s, Start(k) + i) == ZeroBlock()
    decreases Height(k)
  {
    hide Sound, Off, Span, Data, IsMapped, Rooted;
    SoundRooted(s);
    if Height(k) == 0 {
      assert i == 0 by { Spans(); }
      StartIsIndex(k);
      EmptySlot(s, k);
      HoleData(s, Start(k));
    } else {
      hide Height;
      var j, r := Within(i, Height(k));
      NoOrphan(s.t, |s.disk|, Sub(k, j));
      BelowValid(k, j);
      HoleSpan(s, Sub(k, j), r);
    }
  }

  lemma EmptySlot(s: Snap, k: Key)
    requires ValidKey(k) && Start(k) < MAX_FILE_BLOCKS && Path(Start(k)) == k && k !in s.t
    ensures !IsMapped(s, Start(k))
  {
  }

  lemma BelowValid(k: Key, j: nat)
    requires ValidKey(k) && Height(k) > 0 && j < 1024
    ensures ValidKey(Sub(k, j)) && Height(Sub(k, j)) == Height(k) - 1 && Start(Sub(k, j)) == Start(k) + Off(j, Height(k))
  {
  }

  lemma SoundRooted(s: Snap)
    requires Sound(s)
    ensures Rooted(s.t, |s.disk|)
  {
  }

  lemma Within(i: nat, layer: nat) returns (j: nat, r: nat)
    requires layer > 0 && i < Span(layer)
    ensures j < 1024 && r < Span(layer - 1) && i == Off(j, layer) + r
  {
    var m := Span(layer - 1);
    SpanPositive(layer - 1);
    DivBound(i, m);
    j, r := i / m, i % m;
  }

  lemma SpanNext(layer: nat)
    ensures Span(layer + 1) == 1024 * Span(layer)
  {
  }

  lemma SpanPositive(layer: nat)
    ensures Span(layer) > 0
  {
  }

  lemma DivBound(i: nat, m: nat)
    requires 0 < m && i < 1024 * m
    ensures i / m < 1024 && i == (i / m) * m + i % m && i % m < m
  {
  }

  /** The first n blocks of the file, one after the other. */
  ghost function Image(s: Snap, n: nat): (bytes: seq<byte>)
    requires n <= MAX_FILE_BLOCKS
    ensures |bytes| == 4096 * n
  {
    if n == 0 then [] else Image(s, n - 1) + Data(s, n - 1)
  }

  lemma ImageNext(s: Snap, n: nat)
    requires n < MAX_FILE_BLOCKS
    ensures Image(s, n + 1) == Image(s, n) + Data(s, n)
  {
  }

  function Min(a: nat, b: nat): nat {
    if a < b then a else b
  }

  /** The zero-filled stretch that indir_read_block writes for a missing pointer. */
  method ReadHole(out: seq<byte>, layer: nat, left: nat, ghost s: Snap, ghost k: Key) returns (out': seq<byte>, left': nat)
    requires Sound(s) && ValidKey(k) && k !in s.t && layer == Height(k) && Start(k) + Min(Span(layer), left) <= MAX_FILE_BLOCKS
    requires Start(k) <= MAX_FILE_BLOCKS && out == Image(s, Start(k))
    ensures out' == Image(s, Start(k) + Min(Span(layer), left)) && left' == left - Min(Span(layer), left)
  {
    hide Sound, Data, Span, Start, Image;
    Spans();
    var span := 1;
    for l := 0 to layer
      invariant span == Span(l)
    {
      SpanNext(l);
      span := span * 1024;
    }
    span := Min(span, left);
    out' := out;
    for w := 0 to span
      invariant out' == Image(s, Start(k) + w)
    {
      HoleSpan(s, k, w);
      ImageNext(s, Start(k) + w);
      out' := out' + ZeroBlock();
    }
    left' := left - span;
  }

  /** indir_read_block: the file blocks below one pointer, as far as the file goes. */
  method ReadUnder(fs: Volume, b: nat, layer: nat, left: nat, out: seq<byte>, ghost s: Snap, ghost k: Key)
    returns (out': seq<byte>, left': nat)
    requires Sound(s) && s.disk == fs.disk && ValidKey(k) && b == At(s.t, k) && layer == Height(k) && left > 0
    requires Start(k) <= MAX_FILE_BLOCKS && Start(k) + Min(Span(layer), left) <= MAX_FILE_BLOCKS && out == Image(s, Start(k))
    ensures out' == Image(s, Start(k) + Min(Span(layer), left)) && left' == left - Min(Span(layer), left)
    decreases layer
  {
    hide Sound, Data, Ptrs, Span, Off, Image;
    KeyFits(s, k);
    Spans();
    if b == 0 {
      out', left' := ReadHole(out, layer, left, s, k);
      return;
    }
    if layer == 0 {
      StartIsIndex(k);
      DataHere(s, k);
      var blk := fs.ReadBlock(b);
      ImageNext(s, Start(k));
      return out + blk, left - 1;
    }
    var entries := fs.ReadPtrs(b);
    out', left' := out, left;
    OffNext(0, layer);
    var i := 0;
    while i < 1024 && left' > 0
      invariant i <= 1024 && left' == left - Min(Off(i, layer), left)
      invariant Start(k) + Min(Off(i, layer), left) <= MAX_FILE_BLOCKS && out' == Image(s, Start(k) + Min(Off(i, layer), left))
      invariant Off(i, layer) <= Span(layer) && (left' > 0 || Min(Span(layer), left) == left)
    {
      OffNext(i, layer);
      EntryAt(s, k, i);
      out', left' := ReadUnder(fs, entries[i], layer - 1, left', out', s, Sub(k, i));
      i := i + 1;
    }
    OffNext(0, layer);
  }

  lemma KeyFits(s: Snap, k: Key)
    requires Sound(s)
    ensures k in s.t ==> 0 < s.t[k] < |s.disk|
  {
  }

  lemma DataHere(s: Snap, k: Key)
    requires Sound(s) && k in s.t && Height(k) == 0 && Start(k) < MAX_FILE_BLOCKS && Path(Start(k)) == k
    ensures 0 < s.t[k] < |s.disk| && Data(s, Start(k)) == s.disk[s.t[k]]
  {
  }

  lemma {:induction false} ImageBytes(s: Snap, n: nat, p: nat)
    requires n <= MAX_FILE_BLOCKS && p < 4096 * n && p < 0x1_0000_0000
    ensures Image(s, n)[p] == ByteAt(s, p)
  {
    if p < 4096 * (n - 1) {
      ImageBytes(s, n - 1, p);
    } else {
      assert p / 4096 == n - 1;
    }
  }

  lemma ImageContents(v: Vol, n: nat, s: Snap)
    requires n in v.trees && n in v.itab && v.itab[n].size <= MAX_SIZE && s.t == v.trees[n] && s.disk == v.disk
    ensures BlockCount(v.itab[n].size) <= MAX_FILE_BLOCKS && v.itab[n].size <= 4096 * BlockCount(v.itab[n].size)
    ensures Image(s, BlockCount(v.itab[n].size))[..v.itab[n].size] == Contents(v, n)
  {
    var size := v.itab[n].size;
    BlockCountIs(size);
    var bytes := Image(s, BlockCount(size))[..size];
    forall p | 0 <= p < size ensures ByteAt(s, p) == bytes[p] {
      ImageBytes(s, BlockCount(size), p);
    }
    BytesUnique(s, bytes);
    SameBytes(v, n, s, size);
  }

  /** read_inode: the recursive reader sees what map_file_block's LOOKUP mode defines as the contents. */
  method ReadInode(fs: Volume, n: nat) returns (out: seq<byte>)
    requires Valid(fs) && n in fs.trees && fs.itab[n].kind != Symlink
    ensures n in fs.itab && fs.itab[n].size <= |out| == 4096 * BlockCount(fs.itab[n].size)
    ensures fs.itab[n].size <= MAX_SIZE && out[..fs.itab[n].size] == Contents(View(fs), n)
  {
    hide VolOK, Good, Sound, Contents, Image, BlockCount, Span, Bitmap.Valid, Volume.BlocksReady;
    Begin(fs, n);
    var ino := fs.itab[n];
    ghost var s := Now(fs, ino.ptr, fs.trees[n], 0);
    GoodSlot(s, 0);
    ImageContents(View(fs), n, s);
    BlockCountIs(ino.size);
    Spans();
    out := [];
    ImageNone(s);
    var left := BlockCount(ino.size);
    var i := 0;
    while i < 12 && left > 0
      invariant i <= 12 && left == BlockCount(ino.size) - i && out == Image(s, i)
    {
      RootAt(s, i);
      out, left := ReadUnder(fs, ino.ptr[i], 0, left, out, s, Root(i));
      i := i + 1;
    }
    if left > 0 {
      RootAt(s, 12);
      out, left := ReadUnder(fs, ino.ptr[12], 1, left, out, s, Root(12));
    }
    if left > 0 {
      RootAt(s, 13);
      out, left := ReadUnder(fs, ino.ptr[13], 2, left, out, s, Root(13));
    }
    assert left == 0;   // the triple indirect pointer is never needed
  }

  lemma ImageNone(s: Snap)
    ensures Image(s, 0) == []
  {
  }

  // ----- sys_read_chunk

  datatype Chunk = ReadError | Bytes(len: nat, blk: Block)

  /** sys_read_chunk: chunk i of the file, its length, and 0 past the end. */
  method ReadChunk(fs: Volume, n: nat, i: nat) returns (r: Chunk)
    requires Valid(fs) && (InTable(fs, n) ==> n in fs.trees && fs.itab[n].kind != Symlink)
    ensures r.ReadError? <==> !InTable(fs, n)
    ensures InTable(fs, n) ==> n in fs.itab && fs.itab[n].size <= MAX_SIZE
    ensures r.Bytes? ==> r.len <= 4096 && (r.len == 0 <==> 4096 * i >= fs.itab[n].size)
    ensures r.Bytes? && r.len > 0 ==> r.len == Min(4096, fs.itab[n].size - 4096 * i)
    ensures r.Bytes? && r.len > 0 ==> r.blk[..r.len] == Contents(View(fs), n)[4096 * i..4096 * i + r.len]
  {
    hide VolOK, Good, Sound, Contents, BlockCount, Data, Slot, Bitmap.Valid, Volume.BlocksReady;
    if !InTable(fs, n) {
      return ReadError;
    }
    Begin(fs, n);
    var ino := fs.itab[n];
    ghost var s := Now(fs, ino.ptr, fs.trees[n], 0);
    BlockCountIs(ino.size);
    var blocks := BlockCount(ino.size);
    if i >= blocks {
      return Bytes(0, ZeroBlock());
    }
    GoodSlot(s, i);
    var st, b := Lookup(fs, ino.ptr, i, fs.trees[n], 0);
    var blk := ZeroBlock();
    if st == Empty {
      HoleData(s, i);
    } else {
      blk := GetData(fs, b, ino.ptr, i, 0, fs.trees[n]);
    }
    var len := if i == blocks - 1 && ino.size % 4096 != 0 then ino.size % 4096 else 4096;
    ChunkContents(View(fs), n, s, i, len);
    return Bytes(len, blk);
  }

  lemma ChunkContents(v: Vol, n: nat, s: Snap, i: nat, len: nat)
    requires n in v.trees && n in v.itab && v.itab[n].size <= MAX_SIZE && s.t == v.trees[n] && s.disk == v.disk
    requires 4096 * i + len <= v.itab[n].size && len <= 4096 && i < MAX_FILE_BLOCKS
    ensures Data(s, i)[..len] == Contents(v, n)[4096 * i..4096 * i + len]
  {
    var size := v.itab[n].size;
    SameBytes(v, n, s, size);
    var bytes := Contents(v, n);
    assert Holding(s, bytes, size);
    forall x | 0 <= x < len ensures Data(s, i)[x] == bytes[4096 * i + x] {
      var p := 4096 * i + x;
      assert p / 4096 == i && p % 4096 == x;
      assert ByteAt(s, p) == bytes[p];
    }
  }

  // ----- copy_file

  /** A live regular file or directory, or a number outside the inode table. */
  ghost predicate Readable(fs: Volume, n: nat)
    reads fs
  {
    InTable(fs, n) ==> n in fs.trees && n in fs.itab && fs.itab[n].kind != Symlink && fs.itab[n].size <= MAX_SIZE
  }

  /** dst has received the first `done` bytes of src. */
  ghost predicate Received(v: Vol, w: Vol, src: nat, dst: nat, done: nat) {
    && src in v.itab && dst in v.itab && dst in w.itab && v.itab[src].size <= MAX_SIZE && v.itab[dst].size <= MAX_SIZE && w.itab[dst].size <= MAX_SIZE
    && done <= v.itab[src].size && Contents(w, dst) == Contents(v, dst) + Contents(v, src)[..done]
  }

  /** One pass of the copy loop keeps a prefix of the source in the target. */
  lemma ReceivedMore(v: Vol, w: Vol, w': Vol, src: nat, dst: nat, done: nat, chunk: seq<byte>)
    requires Received(v, w, src, dst, done) && dst in w'.itab && w'.itab[dst].size <= MAX_SIZE
    requires done + |chunk| <= v.itab[src].size && chunk == Contents(v, src)[done..done + |chunk|]
    requires Contents(w', dst) == Contents(w, dst) + chunk
    ensures Received(v, w', src, dst, done + |chunk|)
  {
    hide Contents;
    var bytes := Contents(v, src);
    assert bytes[..done] + bytes[done..done + |chunk|] == bytes[..done + |chunk|];
    assert Contents(v, dst) + bytes[..done] + chunk == Contents(v, dst) + (bytes[..done] + chunk);
  }

  lemma ReceivedNone(v: Vol, src: nat, dst: nat)
    requires src in v.itab && dst in v.itab && v.itab[src].size <= MAX_SIZE && v.itab[dst].size <= MAX_SIZE
    ensures Received(v, v, src, dst, 0)
  {
    assert Contents(v, dst) + Contents(v, src)[..0] == Contents(v, dst);
  }

  /** copy_file: a copy that reports success is complete; one that fails has copied whole chunks. */
  method CopyFile(fs: Volume, src: nat, dst: nat) returns (ok: bool, ghost chunks: nat)
    requires Valid(fs) && Readable(fs, src) && Readable(fs, dst) && src != dst && InTable(fs, src) && InTable(fs, dst)
    requires fs.itab[src].size + fs.itab[dst].size <= MAX_SIZE
    modifies fs`disk, fs`itab, fs`trees, fs.blocks
    ensures Valid(fs) && ElseSame(old(View(fs)), View(fs), dst) && SameFile(fs, dst, old(fs.itab[dst]))
    ensures ok ==> Contents(View(fs), dst) == old(Contents(View(fs), dst)) + old(Contents(View(fs), src))
    ensures Received(old(View(fs)), View(fs), src, dst, Min(4096 * chunks, old(fs.itab[src].size)))
    ensures !ok ==> 4096 * chunks < old(fs.itab[src].size)
    ensures !ok ==> fs.blocks.superFree < 8   // the disk is full, or nearly so
  {
    hide Valid, VolOK, ElseSame, Contents, BlockCount, Received, Solid, Footprints.Footprint;
    ghost var v := View(fs);
    ghost var done := 0;
    SameElse(v, dst);
    ReceivedNone(v, src, dst);
    var k := 0;
    chunks := 0;
    while true
      invariant chunks == k && Valid(fs) && ElseSame(v, View(fs), dst) && SameFile(fs, dst, old(fs.itab[dst]))
      invariant Received(v, View(fs), src, dst, done) && done == Min(4096 * k, v.itab[src].size)
      decreases v.itab[src].size - done, if done < v.itab[src].size then 1 else 0
    {
      ghost var w := View(fs);
      StillThere(v, w, src, dst);
      ReceivedSize(v, w, src, dst, done);
      var r := ReadChunk(fs, src, k);
      if r.ReadError? {
        ok := false;
        return;
      }
      if r.len == 0 {
        ReceivedAll(v, w, src, dst);
        ok := true;
        return;
      }
      var appended := Append(fs, dst, r.blk[..r.len]);
      if !appended {
        BlockCountIs(fs.itab[dst].size + r.len);
        ElseTrans(v, w, View(fs), dst);
        ReceivedSame(v, w, View(fs), src, dst, done);
        ok := false;
        return;
      }
      ElseTrans(v, w, View(fs), dst);
      ReceivedMore(v, w, View(fs), src, dst, done, r.blk[..r.len]);
      done := done + r.len;
      k := k + 1;
      chunks := k;
    }
  }

  lemma StillThere(v: Vol, w: Vol, src: nat, dst: nat)
    requires ElseSame(v, w, dst) && src != dst && src in v.trees && src in v.itab && v.itab[src].size <= MAX_SIZE
    ensures src in w.trees && src in w.itab && w.itab[src] == v.itab[src] && Contents(w, src) == Contents(v, src)
  {
    KeptContents(v, w, dst, src);
  }

  lemma ReceivedSize(v: Vol, w: Vol, src: nat, dst: nat, done: nat)
    requires Received(v, w, src, dst, done)
    ensures w.itab[dst].size == v.itab[dst].size + done
  {
    assert |Contents(w, dst)| == |Contents(v, dst)| + done;
  }

  lemma ReceivedAll(v: Vol, w: Vol, src: nat, dst: nat)
    requires src in v.itab && v.itab[src].size <= MAX_SIZE && Received(v, w, src, dst, v.itab[src].size)
    ensures Contents(w, dst) == Contents(v, dst) + Contents(v, src)
  {
    assert Contents(v, src)[..v.itab[src].size] == Contents(v, src);
  }

  lemma ReceivedSame(v: Vol, w: Vol, w': Vol, src: nat, dst: nat, done: nat)
    requires Received(v, w, src, dst, done) && dst in w'.itab && w'.itab[dst].size <= MAX_SIZE && Contents(w', dst) == Contents(w, dst)
    ensures Received(v, w', src, dst, done)
  {
  }
}
