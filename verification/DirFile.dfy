/** Directories as files of tiled blocks: name_in, dir_insert and dir_remove (kernel/fs/ext2/directoryController.c). */
module DirFile {
  import opened Blocks
  import opened BlockTree
  import opened Bitmaps
  import opened Volumes
  import opened MapFileBlock
  import opened FileBlocks
  import opened FileSystem
  import opened DirBlock

  /** The first k file blocks are directory blocks. */
  ghost predicate DirBlocks(s: Snap, k: nat) {
    k <= MAX_FILE_BLOCKS && forall i :: 0 <= i < k ==> IsMapped(s, i) && Tiled(Data(s, i))
  }

  /** The entries of the first k file blocks. */
  ghost function Listing(s: Snap, k: nat): seq<Entry>
    requires k <= MAX_FILE_BLOCKS
  {
    if k == 0 then [] else Listing(s, k - 1) + BlockEntries(Data(s, k - 1))
  }

  /** A well-formed directory. */
  ghost predicate IsDir(v: Vol, n: nat) {
    && n in v.trees && n in v.itab && v.itab[n].kind == Directory && v.itab[n].size <= MAX_SIZE && v.itab[n].size % 4096 == 0
    && DirBlocks(Part(v, n, [], 0, 0), v.itab[n].size / 4096)
  }

  ghost function Entries(v: Vol, n: nat): seq<Entry>
    requires IsDir(v, n)
  {
    Listing(Part(v, n, [], 0, 0), v.itab[n].size / 4096)
  }

  lemma {:induction false} ListingFrame(s: Snap, s': Snap, k: nat)
    requires DirBlocks(s, k) && forall i :: 0 <= i < k ==> Data(s', i) == Data(s, i) && IsMapped(s', i) == IsMapped(s, i)
    ensures DirBlocks(s', k) && Listing(s', k) == Listing(s, k)
  {
    hide BlockEntries, Tiled, Data, IsMapped;
    if k > 0 { ListingFrame(s, s', k - 1); }
  }

  lemma SamePart(v: Vol, n: nat, s: Snap, k: nat)
    requires n in v.trees && s.t == v.trees[n] && s.disk == v.disk && k <= MAX_FILE_BLOCKS
    ensures DirBlocks(s, k) <==> DirBlocks(Part(v, n, [], 0, 0), k)
    ensures Listing(s, k) == Listing(Part(v, n, [], 0, 0), k)
  {
    ListingSame(s, Part(v, n, [], 0, 0), k);
  }

  lemma {:induction false} ListingSame(s: Snap, s': Snap, k: nat)
    requires s'.t == s.t && s'.disk == s.disk && k <= MAX_FILE_BLOCKS
    ensures DirBlocks(s, k) <==> DirBlocks(s', k)
    ensures Listing(s, k) == Listing(s', k)
  {
    hide BlockEntries, Tiled, Data, IsMapped;
    if k > 0 {
      DataSame(s, s', k - 1);
      ListingSame(s, s', k - 1);
    }
  }

  lemma DataSame(s: Snap, s': Snap, i: nat)
    requires s'.t == s.t && s'.disk == s.disk && i < MAX_FILE_BLOCKS
    ensures Data(s', i) == Data(s, i) && IsMapped(s', i) == IsMapped(s, i)
  {
  }

  lemma AddedMore(front: seq<Entry>, es: seq<Entry>, e: Entry, es': seq<Entry>, back: seq<Entry>)
    requires Added(es, e, es')
    ensures Added(front + es + back, e, front + es' + back)
  {
    var k :| 0 <= k <= |es| && es' == es[..k] + [e] + es[k..];
    var all, i := front + es + back, |front| + k;
    assert all[..i] == front + es[..k] && all[i..] == es[k..] + back;
    assert front + es' + back == all[..i] + [e] + all[i..];
  }

  /** Editing one block edits the listing in one place. */
  lemma {:induction false} ListingAdded(s: Snap, s': Snap, i: nat, k: nat, e: Entry)
    requires DirBlocks(s, k) && i < k && FileSame(s, s', i) && IsMapped(s', i) && Tiled(Data(s', i))
    requires Added(BlockEntries(Data(s, i)), e, BlockEntries(Data(s', i)))
    ensures DirBlocks(s', k) && Added(Listing(s, k), e, Listing(s', k))
  {
    hide BlockEntries, Tiled, Data, IsMapped, Added;
    var here, here' := BlockEntries(Data(s, k - 1)), BlockEntries(Data(s', k - 1));
    if i == k - 1 {
      ListingFrame(s, s', k - 1);
      AddedMore(Listing(s, k - 1), here, e, here', []);
      assert Listing(s, k) == Listing(s, k - 1) + here + [];
      assert Listing(s', k) == Listing(s, k - 1) + here' + [];
    } else {
      ListingAdded(s, s', i, k - 1, e);
      AddedMore([], Listing(s, k - 1), e, Listing(s', k - 1), here);
      assert Listing(s, k) == [] + Listing(s, k - 1) + here;
      assert Listing(s', k) == [] + Listing(s', k - 1) + here;
    }
  }

  // ----- lookups

  /** No entry of the first k blocks has the name. */
  lemma {:induction false} ListingSearch(s: Snap, k: nat, name: Name, i: nat)
    requires DirBlocks(s, k) && i <= k && forall j :: 0 <= j < i ==> Find(BlockEntries(Data(s, j)), name) == 0
    ensures Absent(Listing(s, i), name)
    decreases i
  {
    hide BlockEntries, Tiled, Data, IsMapped, Find;
    if i > 0 {
      ListingSearch(s, k, name, i - 1);
      BlockUsed(Data(s, i - 1));
      FindNone(BlockEntries(Data(s, i - 1)), name);
    }
  }

  lemma BlockUsed(b: Block)
    ensures forall i :: 0 <= i < |BlockEntries(b)| ==> BlockEntries(b)[i].inode != 0
  {
    if Tiled(b) { LiveUsed(Recs(b, 0, 4096)); }
  }

  lemma {:induction false} ListingFound(s: Snap, k: nat, name: Name, i: nat)
    requires DirBlocks(s, k) && i < k && Absent(Listing(s, i), name) && Find(BlockEntries(Data(s, i)), name) != 0
    ensures Find(Listing(s, k), name) == Find(BlockEntries(Data(s, i)), name)
    decreases k
  {
    hide BlockEntries, Tiled, Data, IsMapped;
    if i == k - 1 {
      FindSkips(Listing(s, i), BlockEntries(Data(s, i)), name);
    } else {
      ListingFound(s, k - 1, name, i);
      FindFront(Listing(s, k - 1), BlockEntries(Data(s, k - 1)), name);
    }
  }

  lemma {:induction false} FindFront(a: seq<Entry>, b: seq<Entry>, name: Name)
    requires Find(a, name) != 0
    ensures Find(a + b, name) == Find(a, name) && Without(a + b, name) == Without(a, name) + b
    ensures forall n :: Redirected(a + b, name, n) == Redirected(a, name, n) + b
  {
    hide Redirected;
    forall n ensures Redirected(a + b, name, n) == Redirected(a, name, n) + b { RedirectFront(a, b, name, n); }
    assert (a + b)[0] == a[0] && (a + b)[1..] == a[1..] + b;
    if a[0].name != name {
      FindFront(a[1..], b, name);
      assert [a[0]] + (Without(a[1..], name) + b) == Without(a, name) + b;
    }
  }

  lemma {:induction false} RedirectFront(a: seq<Entry>, b: seq<Entry>, name: Name, n: nat)
    requires Find(a, name) != 0
    ensures Redirected(a + b, name, n) == Redirected(a, name, n) + b
  {
    assert (a + b)[0] == a[0] && (a + b)[1..] == a[1..] + b;
    if a[0].name != name {
      RedirectFront(a[1..], b, name, n);
      assert [a[0]] + (Redirected(a[1..], name, n) + b) == Redirected(a, name, n) + b;
    } else {
      assert [a[0].(inode := n)] + (a[1..] + b) == Redirected(a, name, n) + b;
    }
  }

  /** map_file_block in LOOKUP mode and read_block, for a block of a directory. */
  method ReadDirBlock(fs: Volume, ptr: seq<nat>, i: nat, ghost t: Tree, ghost k: nat) returns (blk: Block, b: nat)
    requires Good(Now(fs, ptr, t, 0)) && DirBlocks(Now(fs, ptr, t, 0), k) && i < k
    ensures blk == Data(Now(fs, ptr, t, 0), i) && Tiled(blk) && 0 < b == Slot(t, i) < |fs.disk|
  {
    hide Good, Tiled, Data, Slot;
    ghost var s := Now(fs, ptr, t, 0);
    GoodSlot(s, i);
    var st;
    st, b := Lookup(fs, ptr, i, t, 0);
    MappedHere(s, i, k);
    blk := GetData(fs, b, ptr, i, 0, t);
  }

  lemma MappedHere(s: Snap, i: nat, k: nat)
    requires DirBlocks(s, k) && i < k
    ensures Slot(s.t, i) != 0 && Tiled(Data(s, i))
  {
    assert IsMapped(s, i);
  }

  lemma OpenDir(fs: Volume, n: nat, s: Snap)
    requires Valid(fs) && IsDir(View(fs), n) && s == Now(fs, fs.itab[n].ptr, fs.trees[n], 0)
    ensures Good(s) && DirBlocks(s, fs.itab[n].size / 4096) && Listing(s, fs.itab[n].size / 4096) == Entries(View(fs), n)
    ensures InTable(fs, n) && BlockCount(fs.itab[n].size) == fs.itab[n].size / 4096
  {
    hide VolOK, Good, DirBlocks, Listing;
    Begin(fs, n);
    BlockCountIs(fs.itab[n].size);
    SamePart(View(fs), n, s, fs.itab[n].size / 4096);
  }

  /** name_in: the inode under a name, or 0. */
  method NameIn(fs: Volume, n: nat, name: Name) returns (out: nat)
    requires Valid(fs) && IsDir(View(fs), n) && NulFree(name)
    ensures out == Seen(Entries(View(fs), n), name)
    ensures Find(Entries(View(fs), n), name) != 0 ==> (out != 0 <==> Ascii(name))
  {
    hide Ascii, Valid, IsDir, Entries, Good, DirBlocks, Listing, Tiled, BlockEntries, Data, IsMapped, NulFree, Absent, Find;
    DirInode(View(fs), n);
    var ino := fs.itab[n];
    ghost var s := Now(fs, ino.ptr, fs.trees[n], 0);
    OpenDir(fs, n, s);
    ghost var k := ino.size / 4096;
    for i := 0 to ino.size / 4096
      invariant forall j :: 0 <= j < i ==> Seen(BlockEntries(Data(s, j)), name) == 0
    {
      var blk, _ := ReadDirBlock(fs, ino.ptr, i, fs.trees[n], k);
      out := NameInBlock(blk, name);
      if out != 0 {
        ListingSearch(s, k, name, i);
        ListingFound(s, k, name, i);
        return;
      }
    }
    if Ascii(name) {
      ListingSearch(s, k, name, k);
      NotFound(Listing(s, k), name);
    }
    out := 0;
  }

  lemma NotFound(es: seq<Entry>, name: Name)
    requires Absent(es, name)
    ensures Find(es, name) == 0
  {
    FindSkips(es, [], name);
    assert es + [] == es;
  }

  lemma DirInode(v: Vol, n: nat)
    requires IsDir(v, n)
    ensures n in v.itab && n in v.trees && v.itab[n].kind == Directory && v.itab[n].size <= MAX_SIZE && v.itab[n].size % 4096 == 0
    ensures v.itab[n].size / 4096 < MAX_FILE_BLOCKS
  {
  }

  /** The scan of a directory in lookup_path: it agrees with name_in. */
  method LookupDir(fs: Volume, n: nat, name: Name) returns (out: nat)
    requires Valid(fs) && IsDir(View(fs), n) && NulFree(name)
    ensures out == Seen(Entries(View(fs), n), name)
    ensures Find(Entries(View(fs), n), name) != 0 ==> (out != 0 <==> Ascii(name))
  {
    hide Ascii, Valid, IsDir, Entries, Good, DirBlocks, Listing, Tiled, BlockEntries, Data, IsMapped, NulFree, Absent, Find, BlockCount;
    DirInode(View(fs), n);
    var ino := fs.itab[n];
    ghost var s := Now(fs, ino.ptr, fs.trees[n], 0);
    OpenDir(fs, n, s);
    ghost var k := ino.size / 4096;
    for i := 0 to BlockCount(ino.size)
      invariant forall j :: 0 <= j < i ==> Seen(BlockEntries(Data(s, j)), name) == 0
    {
      var blk, _ := ReadDirBlock(fs, ino.ptr, i, fs.trees[n], k);
      out := LookupBlock(blk, name);
      if out != 0 {
        ListingSearch(s, k, name, i);
        ListingFound(s, k, name, i);
        return;
      }
    }
    if Ascii(name) {
      ListingSearch(s, k, name, k);
      NotFound(Listing(s, k), name);
    }
    out := 0;
  }

  // ----- dir_insert

  /** An edit of directory blocks that keeps the file's block map. */
  ghost predicate Edited(s: Snap, s': Snap) {
    Step(s, s') && s' == s.(disk := s'.disk)
  }

  lemma EditedSame(s: Snap)
    requires Good(s)
    ensures Edited(s, s)
  {
    StepRefl(s);
  }

  lemma WritesEdited(s: Snap, s': Snap, i: nat, blk: Block)
    requires i < MAX_FILE_BLOCKS && Writes(s, s', i, blk)
    ensures Edited(s, s') && FileSame(s, s', i) && IsMapped(s', i) && Data(s', i) == blk
  {
  }

  /** The pass over the blocks a directory already has. */
  method InsertExisting(fs: Volume, ptr: seq<nat>, k: nat, name: Name, child: nat, kind: byte, ghost t: Tree) returns (ok: bool)
    requires fs.BlocksReady() && Good(Now(fs, ptr, t, 0)) && DirBlocks(Now(fs, ptr, t, 0), k) && k <= MAX_FILE_BLOCKS
    requires NulFree(name) && 0 < |name| < 256 && 0 < child && IsWord(child)
    modifies fs`disk
    ensures fs.BlocksReady() && Edited(old(Now(fs, ptr, t, 0)), Now(fs, ptr, t, 0)) && DirBlocks(Now(fs, ptr, t, 0), k)
    ensures ok ==> Added(old(Listing(Now(fs, ptr, t, 0), k)), Entry(name, child, kind), Listing(Now(fs, ptr, t, 0), k))
    ensures !ok ==> fs.disk == old(fs.disk)
    ensures ok <==> !old(AllCrammed(Now(fs, ptr, t, 0), k, name))
  {
    hide Good, Step, FileSame, DirBlocks, Listing, Tiled, BlockEntries, Data, Slot, IsMapped, NulFree, Added, Edited, Crammed, Placed, NoSlack, Recs,
      Volume.BlocksReady;
    ghost var s := Now(fs, ptr, t, 0);
    EditedSame(s);
    for i := 0 to k
      invariant fs.BlocksReady() && fs.disk == s.disk && forall j :: 0 <= j < i ==> Crammed(Data(s, j), name)
    {
      var blk, b := ReadDirBlock(fs, ptr, i, t, k);
      var blk';
      ok, blk' := InsertInBlock(blk, name, child, kind);
      if ok {
        PutData(fs, b, blk', ptr, i, 0, t);
        WritesEdited(s, Now(fs, ptr, t, 0), i, blk');
        ListingAdded(s, Now(fs, ptr, t, 0), i, k, Entry(name, child, kind));
        NotCrammed(blk, blk', Entry(name, child, kind));
        return;
      }
      CrammedIs(blk, name);
    }
    ok := false;
  }

  /** The block has no room for the name. */
  ghost predicate Crammed(b: Block, name: Name) {
    Tiled(b) && NoSlack(Recs(b, 0, 4096), |name|)
  }

  lemma CrammedIs(b: Block, name: Name)
    requires Tiled(b) && NoSlack(Recs(b, 0, 4096), |name|)
    ensures Crammed(b, name)
  {
  }

  lemma NotCrammed(b: Block, b': Block, e: Entry)
    requires Tiled(b) && Tiled(b') && Placed(Recs(b, 0, 4096), Recs(b', 0, 4096), e)
    ensures !Crammed(b, e.name)
  {
    hide Chain, Recs;
    PlacedNotFull(Recs(b, 0, 4096), Recs(b', 0, 4096), e);
  }

  /** None of the blocks of a directory has room for the name. */
  ghost predicate AllCrammed(s: Snap, k: nat, name: Name) {
    k <= MAX_FILE_BLOCKS && forall i :: 0 <= i < k ==> Crammed(Data(s, i), name)
  }

  ghost predicate Packed(v: Vol, n: nat, name: Name) {
    IsDir(v, n) && AllCrammed(Part(v, n, [], 0, 0), v.itab[n].size / 4096, name)
  }

  lemma PackedIs(v: Vol, n: nat, s: Snap, name: Name)
    requires IsDir(v, n) && s.t == v.trees[n] && s.disk == v.disk
    ensures Packed(v, n, name) <==> AllCrammed(s, v.itab[n].size / 4096, name)
  {
    hide Crammed, DirBlocks;
    var k := v.itab[n].size / 4096;
    assert k <= MAX_FILE_BLOCKS;
    assert forall i :: 0 <= i < k ==> Data(s, i) == Data(Part(v, n, [], 0, 0), i);
  }

  /** A new block at the end of the directory. */
  ghost predicate GrewDir(s: Snap, s': Snap, k: nat, e: Entry) {
    && k < MAX_FILE_BLOCKS && Step(s, s') && DirBlocks(s', k + 1) && Added(Listing(s, k), e, Listing(s', k + 1))
    && (forall j :: 0 <= j < MAX_FILE_BLOCKS && IsMapped(s', j) ==> IsMapped(s, j) || j == k)
  }

  lemma DirGrown(s: Snap, s1: Snap, s': Snap, k: nat, out: nat, blk: Block, e: Entry)
    requires k < MAX_FILE_BLOCKS && DirBlocks(s, k) && Grows(s, s1, k, out) && Writes(s1, s', k, blk) && Tiled(blk) && BlockEntries(blk) == [e]
    ensures GrewDir(s, s', k, e)
  {
    hide Good, OthersKept, BlockEntries, Tiled, Data, Slot, Added, IsMapped, Missing;
    StepTrans(s, s1, s');
    ListingFrame(s, s', k);
    AddedEnd(Listing(s, k), e);
  }

  lemma AddedEnd(es: seq<Entry>, e: Entry)
    ensures Added(es, e, es + [e])
  {
    assert es[..|es|] == es && es[|es|..] == [];
    assert es + [e] == es[..|es|] + [e] + es[|es|..];
  }

  method GrowDir(fs: Volume, ptr: seq<nat>, k: nat, name: Name, child: nat, kind: byte, ghost t: Tree)
    returns (ok: bool, ptr': seq<nat>, cnt: int, ghost t': Tree)
    requires fs.BlocksReady() && Good(Now(fs, ptr, t, 0)) && DirBlocks(Now(fs, ptr, t, 0), k) && k < MAX_FILE_BLOCKS
    requires NulFree(name) && 0 < |name| < 256 && 0 < child && IsWord(child)
    modifies fs`disk, fs.blocks
    ensures fs.BlocksReady() && cnt == |t'| - |t|
    ensures ok ==> GrewDir(old(Now(fs, ptr, t, 0)), Now(fs, ptr', t', cnt), k, Entry(name, child, kind))
    ensures !ok ==> Stalls(old(Now(fs, ptr, t, 0)), Now(fs, ptr', t', cnt), k) && old(fs.blocks.superFree) < 4
    ensures old(fs.blocks.superFree) <= fs.blocks.superFree + 4
  {
    hide Good, Step, FileSame, OthersKept, DirBlocks, Listing, Tiled, BlockEntries, Data, Slot, IsMapped, NulFree, Missing, GrewDir, Volume.BlocksReady;
    ghost var s := Now(fs, ptr, t, 0);
    var b;
    ok, b, ptr', cnt, t' := Alloc(fs, ptr, k, 0, t);
    MissingAtMostFour(t, k);
    if !ok { return; }
    ghost var s1 := Now(fs, ptr', t', cnt);
    var blk := SeedBlock(name, child, kind);
    StepGood(s, s1);
    PutData(fs, b, blk, ptr', k, cnt, t');
    DirGrown(s, s1, Now(fs, ptr', t', cnt), k, b, blk, Entry(name, child, kind));
  }

  lemma StepGood(s: Snap, s': Snap)
    requires Step(s, s')
    ensures Good(s')
  {
  }

  /** The volume with inode c's link count changed. */
  ghost function Relink(v: Vol, c: nat, links: nat): Vol
    requires c in v.itab
  {
    v.(itab := v.itab[c := v.itab[c].(links := links)])
  }

  /** A changed link count leaves every file intact. */
  lemma RelinkPassed(v: Vol, c: nat, links: nat)
    requires c in v.itab
    ensures Passed(v, Relink(v, c, links))
  {
    var v' := Relink(v, c, links);
    forall n | n in v.trees && n in v.itab && n in v'.trees && v.itab[n].kind != Directory ensures Intact(v, v', n) {
      assert forall p :: 0 <= p < 0x1_0000_0000 ==> ByteAt(Part(v', n, [], 0, 0), p) == ByteAt(Part(v, n, [], 0, 0), p);
    }
  }

  /** Link counts play no part in what the blocks mean. */
  lemma RelinkOK(v: Vol, c: nat, links: nat)
    requires VolOK(v) && c in v.itab
    ensures VolOK(Relink(v, c, links))
  {
    var v' := Relink(v, c, links);
    forall n | n in v'.trees ensures n in v'.itab && FileOK(v', v'.itab[n], v'.trees[n]) {
      assert FileOK(v, v.itab[n], v.trees[n]);
    }
  }

  lemma RelinkDir(v: Vol, c: nat, links: nat, n: nat)
    requires IsDir(v, n) && c in v.itab
    ensures IsDir(Relink(v, c, links), n) && Entries(Relink(v, c, links), n) == Entries(v, n)
  {
    hide DirBlocks, Listing;
    SamePart(Relink(v, c, links), n, Part(v, n, [], 0, 0), v.itab[n].size / 4096);
  }

  /** The type that ext2 gives an entry. */
  ghost function TypeByte(kind: Kind): byte {
    match kind case Symlink => 7 case Directory => 2 case Regular => 1
  }

  /** The end of an operation that left directory n with the blocks of s. */
  lemma SeatDir(v: Vol, n: nat, base: Snap, s: Snap, ino: Inode)
    requires VolOK(v) && base == Part(v, n, base.ptr, base.free, base.cnt) && Step(base, s)
    requires ino.ptr == s.ptr && ino.kind == Directory && ino.sectors == 8 * |s.t| && ino.size <= MAX_SIZE && ino.size % 4096 == 0
    requires DirBlocks(s, ino.size / 4096) && forall i :: 0 <= i < MAX_FILE_BLOCKS && IsMapped(s, i) ==> i < BlockCount(ino.size)
    ensures VolOK(Seat(v, n, s, ino)) && ElseSame(v, Seat(v, n, s, ino), n)
    ensures IsDir(Seat(v, n, s, ino), n) && Entries(Seat(v, n, s, ino), n) == Listing(s, ino.size / 4096)
  {
    hide VolOK, ElseSame, Good, OthersKept, DirBlocks, Listing, BlockCount;
    Finish(v, n, base, s, ino);
    SamePart(Seat(v, n, s, ino), n, s, ino.size / 4096);
  }

  /** A directory gained an entry, and its blocks and size say so. */
  ghost predicate Gained(base: Snap, s: Snap, size: nat, size': nat, e: Entry) {
    && Step(base, s) && size % 4096 == 0 && size' % 4096 == 0 && size <= size' <= size + 4096 && size' <= MAX_SIZE
    && DirBlocks(s, size' / 4096) && Added(Listing(base, size / 4096), e, Listing(s, size' / 4096))
    && (forall i :: 0 <= i < MAX_FILE_BLOCKS && IsMapped(s, i) ==> i < BlockCount(size'))
  }

  lemma GainedHere(base: Snap, s: Snap, size: nat, e: Entry)
    requires size % 4096 == 0 && size <= MAX_SIZE && Edited(base, s) && DirBlocks(s, size / 4096)
    requires Added(Listing(base, size / 4096), e, Listing(s, size / 4096))
    requires forall i :: 0 <= i < MAX_FILE_BLOCKS && IsMapped(base, i) ==> i < BlockCount(size)
    ensures Gained(base, s, size, size, e)
  {
    forall i | 0 <= i < MAX_FILE_BLOCKS && IsMapped(s, i) ensures i < BlockCount(size) {
      assert IsMapped(base, i);
    }
  }

  lemma GainedBlock(base: Snap, s: Snap, size: nat, e: Entry)
    requires size % 4096 == 0 && size + 4096 <= MAX_SIZE && GrewDir(base, s, size / 4096, e)
    requires forall i :: 0 <= i < MAX_FILE_BLOCKS && IsMapped(base, i) ==> i < BlockCount(size)
    ensures Gained(base, s, size, size + 4096, e)
  {
    hide DirBlocks, Listing, Added, Step, IsMapped;
    BlockCountIs(size);
    BlockCountIs(size + 4096);
    assert (size + 4096) / 4096 == size / 4096 + 1;
  }

  /** The search for room in dir_insert: an existing block, or a new one. */
  method MakeEntry(fs: Volume, ino: Inode, name: Name, child: nat, kind: byte, ghost t: Tree)
    returns (ok: bool, ino': Inode, ghost t': Tree, ghost cnt: int)
    requires fs.BlocksReady() && Good(Now(fs, ino.ptr, t, 0)) && ino.size % 4096 == 0 && ino.size + 4096 <= MAX_SIZE
    requires DirBlocks(Now(fs, ino.ptr, t, 0), ino.size / 4096) && ino.sectors == 8 * |t|
    requires forall i :: 0 <= i < MAX_FILE_BLOCKS && IsMapped(Now(fs, ino.ptr, t, 0), i) ==> i < BlockCount(ino.size)
    requires NulFree(name) && 0 < |name| < 256 && 0 < child && IsWord(child)
    modifies fs`disk, fs.blocks
    ensures fs.BlocksReady() && ino'.kind == ino.kind && ino'.links == ino.links && ino'.sectors == 8 * |t'|
    ensures ok ==> Gained(old(Now(fs, ino.ptr, t, 0)), Now(fs, ino'.ptr, t', cnt), ino.size, ino'.size, Entry(name, child, kind))
    ensures old(fs.blocks.superFree) <= fs.blocks.superFree + 4
    ensures !ok ==> ino' == ino && t' == t && Stalls(old(Now(fs, ino.ptr, t, 0)), Now(fs, ino.ptr, t, cnt), ino.size / 4096) && old(fs.blocks.superFree) < 4
    ensures ok ==> ino'.size == ino.size + if old(AllCrammed(Now(fs, ino.ptr, t, 0), ino.size / 4096, name)) then 4096 else 0
    ensures !ok ==> old(AllCrammed(Now(fs, ino.ptr, t, 0), ino.size / 4096, name))
  {
    hide Good, Step, FileSame, OthersKept, DirBlocks, Listing, Tiled, Data, Slot, IsMapped, NulFree, Missing, GrewDir, Added, Gained, Edited,
      AllCrammed, BlockCount, Volume.BlocksReady;
    ghost var s := Now(fs, ino.ptr, t, 0);
    ino', t', cnt := ino, t, 0;
    ok := InsertExisting(fs, ino.ptr, ino.size / 4096, name, child, kind, t);
    if ok {
      GainedHere(s, Now(fs, ino.ptr, t, 0), ino.size, Entry(name, child, kind));
      return;
    }
    BlockCountIs(ino.size);
    var ptr, alloced;
    ok, ptr, alloced, t' := GrowDir(fs, ino.ptr, BlockCount(ino.size), name, child, kind, t);
    cnt := alloced;
    if !ok { return; }
    GainedBlock(s, Now(fs, ptr, t', cnt), ino.size, Entry(name, child, kind));
    ino' := ino.(size := ino.size + 4096, sectors := ino.sectors + 8 * alloced, ptr := ptr);
  }

  /** What callers of dir_insert and dir_remove vouch for: live inodes, and a well-formed parent if it is a directory at all. */
  ghost predicate Linkable(fs: Volume, parent: nat)
    reads fs, fs.blocks
  {
    InTable(fs, parent) ==> parent in fs.trees && parent in fs.itab && (fs.itab[parent].kind == Directory ==> IsDir(View(fs), parent))
  }

  predicate GoodName(name: Name) {
    0 < |name| < 256
  }

  /** The parent and the child are there and the parent is a directory. */
  ghost predicate CanLink(fs: Volume, parent: nat, name: Name, child: nat)
    reads fs
  {
    0 < |name| < 256 && InTable(fs, child) && InTable(fs, parent) && parent in fs.itab && fs.itab[parent].kind == Directory
  }

  /** set_inode on the child and then on the parent, or once if they are the same. */
  method StoreBoth(fs: Volume, parent: nat, ino: Inode, child: nat, links: nat, ghost t: Tree)
    requires child in fs.itab && child in fs.trees
    modifies fs`itab, fs`trees
    ensures parent == child ==> fs.itab == old(fs.itab)[parent := ino.(links := links)]
    ensures parent != child ==> fs.itab == old(fs.itab)[parent := ino][child := old(fs.itab[child]).(links := links)]
    ensures fs.trees == old(fs.trees)[parent := t] && (old(fs.BlocksReady()) ==> fs.BlocksReady())
  {
    if parent == child {
      SetInode(fs, parent, ino.(links := links), t);
    } else {
      SetInode(fs, child, fs.itab[child].(links := links), fs.trees[child]);
      SetInode(fs, parent, ino, t);
    }
  }

  lemma StoredBoth(v: Vol, parent: nat, s: Snap, ino: Inode, child: nat, links: nat, v': Vol)
    requires parent in v.itab && child in v.itab && ino.links == v.itab[parent].links
    requires v'.disk == s.disk && v'.used == s.used && v'.meta == v.meta && v'.trees == v.trees[parent := s.t]
    requires parent == child ==> v'.itab == v.itab[parent := ino.(links := links)]
    requires parent != child ==> v'.itab == v.itab[parent := ino][child := v.itab[child].(links := links)]
    ensures v' == Relink(Seat(v, parent, s, ino), child, links)
  {
  }

  /** Directory `parent` has the blocks of s and inode `child` a new link count; everything else is as it was. */
  lemma Settled(v: Vol, parent: nat, base: Snap, s: Snap, ino: Inode, child: nat, links: nat, v': Vol)
    requires VolOK(v) && IsDir(v, parent) && base == Part(v, parent, base.ptr, base.free, base.cnt) && child in v.itab && child in v.trees
    requires Step(base, s) && ino.ptr == s.ptr && ino.kind == Directory && ino.sectors == 8 * |s.t| && ino.size <= MAX_SIZE && ino.size % 4096 == 0
    requires DirBlocks(s, ino.size / 4096) && forall i :: 0 <= i < MAX_FILE_BLOCKS && IsMapped(s, i) ==> i < BlockCount(ino.size)
    requires v' == Relink(Seat(v, parent, s, ino), child, links) && ino.links == v.itab[parent].links
    ensures VolOK(v') && IsDir(v', parent) && Entries(v', parent) == Listing(s, ino.size / 4096)
    ensures child in v'.itab && ElseSame(v, Relink(v', child, v.itab[child].links), parent)
    ensures s.free + |s.t| == base.free + |base.t|
  {
    hide VolOK, ElseSame, DirBlocks, Listing, Good, OthersKept, BlockCount, IsMapped;
    SeatDir(v, parent, base, s, ino);
    var u := Seat(v, parent, s, ino);
    RelinkOK(u, child, links);
    RelinkDir(u, child, links, parent);
    assert Relink(v', child, v.itab[child].links).itab == u.itab;
  }

  lemma GainedFacts(v: Vol, parent: nat, base: Snap, s: Snap, size: nat, e: Entry)
    requires IsDir(v, parent) && base == Part(v, parent, base.ptr, base.free, base.cnt) && Gained(base, s, v.itab[parent].size, size, e)
    ensures Step(base, s) && size % 4096 == 0 && size <= MAX_SIZE && DirBlocks(s, size / 4096)
    ensures forall i :: 0 <= i < MAX_FILE_BLOCKS && IsMapped(s, i) ==> i < BlockCount(size)
    ensures Added(Entries(v, parent), e, Listing(s, size / 4096)) && size <= v.itab[parent].size + 4096
  {
    hide DirBlocks, Listing, Added, Step, BlockCount, IsMapped;
    SamePart(v, parent, base, v.itab[parent].size / 4096);
  }

  /** dir_insert: one entry more, the child's link count one more; or nothing at all. */
  method DirInsert(fs: Volume, parent: nat, name: Name, child: nat) returns (ok: bool)
    requires Valid(fs) && NulFree(name) && Linkable(fs, parent)
    requires InTable(fs, child) ==> child in fs.trees && child in fs.itab && IsWord(child)
    requires InTable(fs, parent) ==> fs.itab[parent].size + 4096 <= MAX_SIZE
    modifies fs`disk, fs`itab, fs`trees, fs.blocks
    ensures Valid(fs) && fs.trees.Keys == old(fs.trees.Keys)
    ensures ok ==> CanLink(fs, parent, name, child) && IsDir(old(View(fs)), parent) && IsDir(View(fs), parent)
    ensures ok ==> child in fs.itab && Added(old(Entries(View(fs), parent)), Entry(name, child, TypeByte(old(fs.itab[child].kind))), Entries(View(fs), parent))
    ensures ok ==> fs.itab[child].links == old(fs.itab[child].links) + 1 && (parent != child ==> fs.itab[parent].links == old(fs.itab[parent].links))
    ensures ok ==> ElseSame(old(View(fs)), Relink(View(fs), child, old(fs.itab[child].links)), parent)
    ensures ok ==> fs.itab[parent].size == old(fs.itab[parent].size) + (if old(Packed(View(fs), parent, name)) then 4096 else 0)
    ensures ok ==> old(fs.blocks.superFree) <= fs.blocks.superFree + 4
    ensures ok ==> 8 * fs.blocks.superFree + fs.itab[parent].sectors == old(8 * fs.blocks.superFree + fs.itab[parent].sectors)
    ensures !ok ==> View(fs) == old(View(fs)).(disk := fs.disk) && ElseSame(old(View(fs)), View(fs), parent)
    ensures !ok && old(IsDir(View(fs), parent)) ==> IsDir(View(fs), parent) && Entries(View(fs), parent) == old(Entries(View(fs), parent))
    ensures !ok ==> !CanLink(fs, parent, name, child) || (old(fs.blocks.superFree) < 4 && old(Packed(View(fs), parent, name)))
  {
    hide Packed, AllCrammed;
    hide VolOK, ElseSame, Good, DirBlocks, Listing, NulFree, Added, Gained, BlockCount, IsMapped, Volume.BlocksReady, Bitmap.Valid, Relink;
    ghost var v := View(fs);
    SameElse(v, parent);
    if !GoodName(name) { return false; }
    if !InTable(fs, child) { return false; }
    var childKind := fs.itab[child].kind;
    if !InTable(fs, parent) { return false; }
    var ino := fs.itab[parent];
    if ino.kind != Directory { return false; }
    ghost var base := Now(fs, ino.ptr, fs.trees[parent], 0);
    Begin(fs, parent);
    OpenDir(fs, parent, base);
    PackedIs(v, parent, base, name);
    var ino';
    ghost var t, cnt;
    var tag := if childKind == Symlink then 7 else if childKind == Directory then 2 else 1;
    ok, ino', t, cnt := MakeEntry(fs, ino, name, child, tag, fs.trees[parent]);
    ghost var s := Now(fs, ino'.ptr, t, cnt);
    if !ok {
      NotLinked(v, parent, base, s, fs.blocks.superFree);
      return;
    }
    var links := fs.itab[child].links + 1;
    StoreBoth(fs, parent, ino', child, links, t);
    StoredBoth(v, parent, s, ino', child, links, View(fs));
    GainedFacts(v, parent, base, s, ino'.size, Entry(name, child, TypeByte(childKind)));
    Settled(v, parent, base, s, ino', child, links, View(fs));
  }

  lemma NotLinked(v: Vol, parent: nat, base: Snap, s: Snap, free: nat)
    requires VolOK(v) && IsDir(v, parent) && base == Part(v, parent, v.itab[parent].ptr, base.free, 0) && s.ptr == base.ptr && s.t == base.t
    requires Stalls(base, s, v.itab[parent].size / 4096) && v.itab[parent].sectors == 8 * |base.t|
    requires forall i :: 0 <= i < MAX_FILE_BLOCKS && IsMapped(base, i) ==> i < BlockCount(v.itab[parent].size)
    ensures var v' := v.(disk := s.disk);
            && VolOK(v') && ElseSame(v, v', parent) && IsDir(v', parent) && Entries(v', parent) == Entries(v, parent) && s.used == v.used
  {
    hide VolOK, ElseSame, Good, OthersKept, Listing, BlockCount, Missing, Data;
    var k := v.itab[parent].size / 4096;
    SamePart(v, parent, base, k);
    ListingFrame(base, s, k);
    forall i | 0 <= i < MAX_FILE_BLOCKS && IsMapped(s, i) ensures i < BlockCount(v.itab[parent].size) {
      assert IsMapped(base, i);
    }
    SeatDir(v, parent, base, s, v.itab[parent]);
    assert Seat(v, parent, s, v.itab[parent]) == v.(disk := s.disk);
  }

  // ----- dir_remove

  lemma {:induction false} ListingWithout(s: Snap, s': Snap, i: nat, k: nat, name: Name)
    requires DirBlocks(s, k) && i < k && FileSame(s, s', i) && IsMapped(s', i) && Tiled(Data(s', i))
    requires Absent(Listing(s, i), name) && Find(BlockEntries(Data(s, i)), name) != 0
    requires BlockEntries(Data(s', i)) == Without(BlockEntries(Data(s, i)), name)
    ensures DirBlocks(s', k) && Listing(s', k) == Without(Listing(s, k), name)
  {
    hide BlockEntries, Tiled, Data, IsMapped, Find, Without, Absent;
    if i == k - 1 {
      ListingFrame(s, s', k - 1);
      FindSkips(Listing(s, i), BlockEntries(Data(s, i)), name);
    } else {
      ListingWithout(s, s', i, k - 1, name);
      ListingFound(s, k - 1, name, i);
      FindFront(Listing(s, k - 1), BlockEntries(Data(s, k - 1)), name);
    }
  }

  /** The pass over the blocks of a directory in dir_remove. */
  method RemoveEntry(fs: Volume, ptr: seq<nat>, k: nat, name: Name, ghost t: Tree) returns (removed: nat)
    requires fs.BlocksReady() && Good(Now(fs, ptr, t, 0)) && DirBlocks(Now(fs, ptr, t, 0), k) && k <= MAX_FILE_BLOCKS && NulFree(name)
    modifies fs`disk
    ensures fs.BlocksReady() && Edited(old(Now(fs, ptr, t, 0)), Now(fs, ptr, t, 0)) && DirBlocks(Now(fs, ptr, t, 0), k)
    ensures removed == old(Seen(Listing(Now(fs, ptr, t, 0), k), name))
    ensures removed != 0 ==> Listing(Now(fs, ptr, t, 0), k) == old(Without(Listing(Now(fs, ptr, t, 0), k), name))
    ensures removed == 0 ==> fs.disk == old(fs.disk)
  {
    hide Ascii, Good, Step, FileSame, DirBlocks, Listing, Tiled, BlockEntries, Data, Slot, IsMapped, NulFree, Absent, Find, Without, Edited, Volume.BlocksReady;
    ghost var s := Now(fs, ptr, t, 0);
    EditedSame(s);
    for i := 0 to k
      invariant fs.BlocksReady() && fs.disk == s.disk && forall j :: 0 <= j < i ==> Seen(BlockEntries(Data(s, j)), name) == 0
    {
      var blk, b := ReadDirBlock(fs, ptr, i, t, k);
      var blk';
      removed, blk' := RemoveInBlock(blk, name);
      if removed != 0 {
        ListingSearch(s, k, name, i);
        ListingFound(s, k, name, i);
        PutData(fs, b, blk', ptr, i, 0, t);
        WritesEdited(s, Now(fs, ptr, t, 0), i, blk');
        ListingWithout(s, Now(fs, ptr, t, 0), i, k, name);
        return;
      }
    }
    if Ascii(name) {
      ListingSearch(s, k, name, k);
      NotFound(Listing(s, k), name);
    }
    removed := 0;
  }

  /** Every entry names a live inode that counts the link. */
  ghost predicate Targets(fs: Volume, es: seq<Entry>)
    reads fs
  {
    forall i :: 0 <= i < |es| ==> InTable(fs, es[i].inode) && es[i].inode in fs.trees && es[i].inode in fs.itab && fs.itab[es[i].inode].links > 0
  }

  lemma {:induction false} FoundAt(es: seq<Entry>, name: Name) returns (i: nat)
    requires Find(es, name) != 0
    ensures i < |es| && es[i].name == name && es[i].inode == Find(es, name)
  {
    if es[0].name == name {
      i := 0;
    } else {
      i := FoundAt(es[1..], name);
      i := i + 1;
    }
  }

  lemma FoundTarget(fs: Volume, es: seq<Entry>, name: Name)
    requires Targets(fs, es) && Find(es, name) != 0
    ensures var n := Find(es, name); InTable(fs, n) && n in fs.trees && n in fs.itab && fs.itab[n].links > 0
  {
    var i := FoundAt(es, name);
  }

  lemma EditedFacts(base: Snap, s: Snap, size: nat)
    requires Edited(base, s) && forall i :: 0 <= i < MAX_FILE_BLOCKS && IsMapped(base, i) ==> i < BlockCount(size)
    ensures Step(base, s) && s.t == base.t && s.ptr == base.ptr && s.used == base.used && s.free == base.free
    ensures forall i :: 0 <= i < MAX_FILE_BLOCKS && IsMapped(s, i) ==> i < BlockCount(size)
  {
    forall i | 0 <= i < MAX_FILE_BLOCKS && IsMapped(s, i) ensures i < BlockCount(size) {
      assert IsMapped(base, i);
    }
  }

  /** dir_remove: the first entry of that name goes and its inode loses a link; or nothing happens. */
  method DirRemove(fs: Volume, parent: nat, name: Name) returns (ok: bool, removed: nat)
    requires Valid(fs) && NulFree(name) && Linkable(fs, parent)
    requires InTable(fs, parent) && fs.itab[parent].kind == Directory ==> Targets(fs, Entries(View(fs), parent))
    modifies fs`disk, fs`itab, fs`trees
    ensures Valid(fs) && fs.trees == old(fs.trees)
    ensures ok <==> 0 < |name| < 256 && InTable(fs, parent) && old(IsDir(View(fs), parent)) && old(Seen(Entries(View(fs), parent), name)) != 0
    ensures ok ==> removed == old(Find(Entries(View(fs), parent), name)) && removed in fs.itab && removed in fs.trees
    ensures ok ==> IsDir(View(fs), parent) && Entries(View(fs), parent) == old(Without(Entries(View(fs), parent), name))
    ensures ok ==> removed in old(fs.itab) && fs.itab[removed].links + 1 == old(fs.itab)[removed].links
    ensures ok ==> fs.itab == old(fs.itab)[removed := old(fs.itab)[removed].(links := fs.itab[removed].links)]
    ensures ok ==> ElseSame(old(View(fs)), Relink(View(fs), removed, old(fs.itab)[removed].links), parent)
    ensures !ok ==> View(fs) == old(View(fs))
  {
    hide Ascii, VolOK, ElseSame, Good, DirBlocks, Listing, NulFree, BlockCount, IsMapped, Find, Without, Edited, Volume.BlocksReady, Bitmap.Valid, Relink;
    ghost var v := View(fs);
    removed := 0;
    if !GoodName(name) { return false, removed; }
    if !InTable(fs, parent) { return false, removed; }
    var ino := fs.itab[parent];
    if ino.kind != Directory { return false, removed; }
    ghost var base := Now(fs, ino.ptr, fs.trees[parent], 0);
    Begin(fs, parent);
    OpenDir(fs, parent, base);
    removed := RemoveEntry(fs, ino.ptr, ino.size / 4096, name, fs.trees[parent]);
    if removed == 0 {
      return false, removed;
    }
    FoundTarget(fs, Entries(v, parent), name);
    ghost var s := Now(fs, ino.ptr, fs.trees[parent], 0);
    EditedFacts(base, s, ino.size);
    var links := fs.itab[removed].links - 1;
    StoreBoth(fs, parent, ino, removed, links, fs.trees[parent]);
    StoredBoth(v, parent, s, ino, removed, links, View(fs));
    Settled(v, parent, base, s, ino, removed, links, View(fs));
    ok := true;
  }

  /** dir_is_empty: nothing but "." and "..". */
  method DirIsEmpty(fs: Volume, n: nat) returns (empty: bool)
    requires Valid(fs) && IsDir(View(fs), n)
    ensures empty <==> OnlyDots(Entries(View(fs), n))
  {
    hide Valid, IsDir, Entries, Good, DirBlocks, Listing, Tiled, BlockEntries, Data, IsMapped, OnlyDots;
    DirInode(View(fs), n);
    var ino := fs.itab[n];
    ghost var s := Now(fs, ino.ptr, fs.trees[n], 0);
    OpenDir(fs, n, s);
    ghost var k := ino.size / 4096;
    for i := 0 to ino.size / 4096
      invariant forall j :: 0 <= j < i ==> OnlyDots(BlockEntries(Data(s, j)))
    {
      var blk, _ := ReadDirBlock(fs, ino.ptr, i, fs.trees[n], k);
      empty := OnlyDotsInBlock(blk);
      if !empty {
        ListingDots(s, k, i);
        return;
      }
    }
    ListingAllDots(s, k);
    empty := true;
  }

  lemma {:induction false} ListingDots(s: Snap, k: nat, i: nat)
    requires i < k <= MAX_FILE_BLOCKS && !OnlyDots(BlockEntries(Data(s, i)))
    ensures !OnlyDots(Listing(s, k))
    decreases k
  {
    hide BlockEntries, Data;
    var front, here := Listing(s, k - 1), BlockEntries(Data(s, k - 1));
    if i < k - 1 {
      ListingDots(s, k - 1, i);
      var j :| 0 <= j < |front| && front[j].name != DOT && front[j].name != DOTDOT;
      assert (front + here)[j] == front[j];
    } else {
      var j :| 0 <= j < |here| && here[j].name != DOT && here[j].name != DOTDOT;
      assert (front + here)[|front| + j] == here[j];
    }
  }

  lemma {:induction false} ListingAllDots(s: Snap, k: nat)
    requires k <= MAX_FILE_BLOCKS && forall j :: 0 <= j < k ==> OnlyDots(BlockEntries(Data(s, j)))
    ensures OnlyDots(Listing(s, k))
  {
    hide BlockEntries, Data;
    if k > 0 { ListingAllDots(s, k - 1); }
  }

  // ----- dir_set_parent_entry

  lemma {:induction false} ListingRedirected(s: Snap, s': Snap, i: nat, k: nat, name: Name, n: nat)
    requires DirBlocks(s, k) && i < k && FileSame(s, s', i) && IsMapped(s', i) && Tiled(Data(s', i))
    requires Absent(Listing(s, i), name) && Find(BlockEntries(Data(s, i)), name) != 0
    requires BlockEntries(Data(s', i)) == Redirected(BlockEntries(Data(s, i)), name, n)
    ensures DirBlocks(s', k) && Listing(s', k) == Redirected(Listing(s, k), name, n)
  {
    hide BlockEntries, Tiled, Data, IsMapped, Find, Redirected, Absent;
    if i == k - 1 {
      ListingFrame(s, s', k - 1);
      RedirectSkips(Listing(s, i), BlockEntries(Data(s, i)), name, n);
    } else {
      ListingRedirected(s, s', i, k - 1, name, n);
      ListingFound(s, k - 1, name, i);
      FindFront(Listing(s, k - 1), BlockEntries(Data(s, k - 1)), name);
    }
  }

  /** The pass over the blocks of a directory in dir_set_parent_entry. */
  method RedirectEntry(fs: Volume, ptr: seq<nat>, k: nat, name: Name, n: nat, ghost t: Tree) returns (found: bool)
    requires fs.BlocksReady() && Good(Now(fs, ptr, t, 0)) && DirBlocks(Now(fs, ptr, t, 0), k) && k <= MAX_FILE_BLOCKS && NulFree(name)
    requires 0 < n && IsWord(n)
    modifies fs`disk
    ensures fs.BlocksReady() && Edited(old(Now(fs, ptr, t, 0)), Now(fs, ptr, t, 0)) && DirBlocks(Now(fs, ptr, t, 0), k)
    ensures found <==> old(Seen(Listing(Now(fs, ptr, t, 0), k), name)) != 0
    ensures found ==> Listing(Now(fs, ptr, t, 0), k) == old(Redirected(Listing(Now(fs, ptr, t, 0), k), name, n))
    ensures !found ==> fs.disk == old(fs.disk)
  {
    hide Ascii, Good, Step, FileSame, DirBlocks, Listing, Tiled, BlockEntries, Data, Slot, IsMapped, NulFree, Absent, Find, Redirected, Edited, Volume.BlocksReady;
    ghost var s := Now(fs, ptr, t, 0);
    EditedSame(s);
    for i := 0 to k
      invariant fs.BlocksReady() && fs.disk == s.disk && forall j :: 0 <= j < i ==> Seen(BlockEntries(Data(s, j)), name) == 0
    {
      var blk, b := ReadDirBlock(fs, ptr, i, t, k);
      var blk';
      found, blk' := RedirectInBlock(blk, name, n);
      if found {
        ListingSearch(s, k, name, i);
        ListingFound(s, k, name, i);
        PutData(fs, b, blk', ptr, i, 0, t);
        WritesEdited(s, Now(fs, ptr, t, 0), i, blk');
        ListingRedirected(s, Now(fs, ptr, t, 0), i, k, name, n);
        return;
      }
    }
    if Ascii(name) {
      ListingSearch(s, k, name, k);
      NotFound(Listing(s, k), name);
    }
    found := false;
  }

  /** dir_set_parent_entry: ".." of a directory points to its new parent. */
  method SetParentEntry(fs: Volume, child: nat, parent: nat) returns (ok: bool)
    requires Valid(fs) && Linkable(fs, child) && Linkable(fs, parent) && (InTable(fs, parent) ==> IsWord(parent))
    modifies fs`disk
    ensures Valid(fs)
    ensures ok <==> InTable(fs, child) && old(IsDir(View(fs), child)) && InTable(fs, parent) && old(IsDir(View(fs), parent))
                    && old(Find(Entries(View(fs), child), DOTDOT)) != 0
    ensures ok ==> IsDir(View(fs), child) && Entries(View(fs), child) == old(Redirected(Entries(View(fs), child), DOTDOT, parent))
    ensures ok ==> ElseSame(old(View(fs)), View(fs), child) && View(fs) == old(View(fs)).(disk := fs.disk)
    ensures !ok ==> View(fs) == old(View(fs))
  {
    hide Ascii, VolOK, ElseSame, Good, DirBlocks, Listing, BlockCount, IsMapped, Find, Redirected, Edited, Volume.BlocksReady, Bitmap.Valid;
    ghost var v := View(fs);
    if !InTable(fs, child) || fs.itab[child].kind != Directory { return false; }
    if !InTable(fs, parent) || fs.itab[parent].kind != Directory { return false; }
    var ino := fs.itab[child];
    ghost var base := Now(fs, ino.ptr, fs.trees[child], 0);
    Begin(fs, child);
    OpenDir(fs, child, base);
    DotsAscii();
    ok := RedirectEntry(fs, ino.ptr, ino.size / 4096, DOTDOT, parent, fs.trees[child]);
    if !ok { return; }
    ghost var s := Now(fs, ino.ptr, fs.trees[child], 0);
    EditedFacts(base, s, ino.size);
    SeatDir(v, child, base, s, ino);
    assert View(fs) == Seat(v, child, s, ino);
  }

  lemma DotsAscii()
    ensures Ascii(DOT) && Ascii(DOTDOT) && NulFree(DOT) && NulFree(DOTDOT)
  {
  }
}
