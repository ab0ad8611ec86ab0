/**
 * Runs of the file operations: whatever sequence of put, replace, append, truncate, insert and delete is issued, and
 * wherever it runs out of space, the volume stays sound and the files behave like byte strings.
 */
module StorageRuns {
  import opened Blocks
  import opened BlockTree
  import opened Bitmaps
  import opened Volumes
  import opened MapFileBlock
  import opened FileBlocks
  import opened FileSystem
  import opened AppendFile
  import opened TruncateFile
  import opened Footprints
  import opened InsertFile
  import opened WholeFiles
  import opened WriteInode

  datatype Op =
    | PutOp(buf: seq<byte>, isDir: bool)
    | ReplaceOp(n: nat, buf: seq<byte>)
    | AppendOp(n: nat, buf: seq<byte>)
    | TruncateOp(n: nat, size: nat)
    | InsertOp(n: nat, offset: nat, buf: seq<byte>)
    | DeleteOp(n: nat)

  /** A file as its users see it; `whole` says that it is known to have no holes. */
  datatype File = File(bytes: seq<byte>, whole: bool)

  type Files = map<nat, File>

  /** Where a file ends once an insert at `offset` has filled the gap before it. */
  function Reach(f: File, offset: nat): nat {
    if offset > |f.bytes| then offset else |f.bytes|
  }

  /** An operation of which it is known beforehand how many blocks it needs: a put, or one on a file without holes. */
  ghost predicate Exact(m: Files, op: Op) {
    match op
    case PutOp(_, _) => true
    case ReplaceOp(n, _) => n in m && m[n].whole
    case AppendOp(n, _) => n in m && m[n].whole
    case InsertOp(n, offset, buf) => n in m && m[n].whole && offset <= |m[n].bytes| && buf != []
    case _ => true
  }

  /** Enough free blocks for the operation to be sure to succeed; if it is exact, not one too many. */
  ghost predicate Ample(m: Files, op: Op, room: Room) {
    match op
    case PutOp(buf, _) => room.blocks >= Need(BlockCount(|buf|)) && room.inodes > 0
    case ReplaceOp(n, buf) =>
      room.blocks + (if Exact(m, op) then Footprint(BlockCount(|m[n].bytes|)) else 0) >= Need(BlockCount(|buf|))
    case AppendOp(n, buf) => n in m &&
      if Exact(m, op) then Covers1(m[n], buf, room) else room.blocks >= 4 * (BlockCount(|m[n].bytes| + |buf|) - |m[n].bytes| / 4096)
    case InsertOp(n, offset, buf) => n in m &&
      if Exact(m, op) then Covers1(m[n], buf, room) else room.blocks >= 4 * (BlockCount(Reach(m[n], offset) + |buf|) - offset / 4096 + 1)
    case _ => true
  }

  /** The free blocks cover the growth of the file. */
  ghost predicate Covers1(f: File, buf: seq<byte>, room: Room) {
    room.blocks + Footprint(BlockCount(|f.bytes|)) >= Footprint(BlockCount(|f.bytes| + |buf|))
  }

  /** The effect of an operation that finds the room it needs. */
  ghost predicate Effect(m: Files, op: Op, m': Files) {
    match op
    case PutOp(buf, _) => exists n: nat :: n !in m && m' == m[n := File(buf, true)]
    case ReplaceOp(n, buf) => m' == m[n := File(buf, true)]
    case AppendOp(n, buf) => n in m && m' == m[n := m[n].(bytes := m[n].bytes + buf)]
    case TruncateOp(n, size) => n in m && m' == if size <= |m[n].bytes| then m[n := m[n].(bytes := m[n].bytes[..size])] else m
    case InsertOp(n, offset, buf) => n in m && n in m' && m' == m[n := m'[n]] && Inserted(m[n], offset, buf, m'[n])
    case DeleteOp(n) => m' == m - {n}
  }

  /** Exact on a file without holes; past the end, or on a sparse file, only the length is promised. */
  ghost predicate Inserted(f: File, offset: nat, buf: seq<byte>, f': File) {
    if buf == [] then f' == f
    else if f.whole && offset <= |f.bytes| then f' == f.(bytes := f.bytes[..offset] + buf + f.bytes[offset..])
    else |f'.bytes| == Reach(f, offset) + |buf| && !f'.whole
  }

  /**
   * What is left of the files when an operation runs out of space.  An insert leaves a file without holes as it was, or
   * overwritten up to its old end, depending on the room; of a sparse file it keeps the length.
   */
  ghost predicate Shortfall(m: Files, op: Op, m': Files, room: Room) {
    match op
    case PutOp(_, _) => m' == m
    case ReplaceOp(n, _) => m' == m[n := File([], true)]
    case AppendOp(_, _) => m' == m
    case InsertOp(n, _, _) => n in m && n in m' && m' == m[n := m'[n]] && Stopped(m, op, m'[n], room)
    case _ => false
  }

  ghost predicate Stopped(m: Files, op: Op, f: File, room: Room)
    requires op.InsertOp? && op.n in m
  {
    var was, offset, buf := m[op.n].bytes, op.offset, op.buf;
    if Exact(m, op)
    then f.whole && CutShort(was, f.bytes, offset, buf, room.blocks + Footprint(BlockCount(|was|)) < Reserve(|was|, offset, |buf|))
    else |f.bytes| == |was| && !f.whole
  }

  ghost predicate Next(m: Files, op: Op, m': Files, room: Room) {
    if Exact(m, op) && Ample(m, op, room) then Effect(m, op, m')
    else if Exact(m, op) then Shortfall(m, op, m', room)
    else Effect(m, op, m') || (!Ample(m, op, room) && Shortfall(m, op, m', room))
  }

  /** The volume stores these files. */
  ghost predicate Stores(v: Vol, m: Files) {
    forall n :: n in m ==> Holds1(v, n, m[n])
  }

  ghost predicate Holds1(v: Vol, n: nat, f: File) {
    && n in v.trees && n in v.itab && v.itab[n].kind != Symlink && v.itab[n].size <= MAX_SIZE
    && Contents(v, n) == f.bytes && (f.whole ==> Whole(v, n))
  }

  ghost predicate Whole(v: Vol, n: nat) {
    n in v.trees && n in v.itab && HoleFree(Part(v, n, [], 0, 0), v.itab[n].size)
  }

  lemma SolidWhole(fs: Volume, n: nat)
    ensures Solid(fs, n) <==> Whole(View(fs), n)
  {
    if n in fs.trees && n in fs.itab {
      var a, b := Now(fs, fs.itab[n].ptr, fs.trees[n], 0), Part(View(fs), n, [], 0, 0);
      assert forall j :: 0 <= j < MAX_FILE_BLOCKS ==> IsMapped(a, j) == IsMapped(b, j);
    }
  }

  /** The other files are still stored. */
  lemma OthersStored(v: Vol, v': Vol, n: nat, m: Files)
    requires Stores(v, m) && ElseSame(v, v', n)
    ensures Stores(v', m - {n})
  {
    forall k | k in m && k != n ensures Holds1(v', k, m[k]) {
      assert Holds1(v, k, m[k]);
      KeptContents(v, v', n, k);
      assert FileKept(v, v', k);
      KeptWhole(v, v', k);
    }
  }

  lemma KeptWhole(v: Vol, v': Vol, k: nat)
    requires k in v.trees && k in v'.trees && v'.trees[k] == v.trees[k] && k in v.itab && k in v'.itab && v'.itab[k] == v.itab[k]
    ensures Whole(v, k) ==> Whole(v', k)
  {
    var a, b := Part(v, k, [], 0, 0), Part(v', k, [], 0, 0);
    assert forall j :: 0 <= j < MAX_FILE_BLOCKS ==> IsMapped(a, j) == IsMapped(b, j);
  }

  lemma StoredAgain(v: Vol, m: Files, n: nat, f: File)
    requires Stores(v, m - {n}) && Holds1(v, n, f)
    ensures Stores(v, m[n := f])
  {
    var m' := m[n := f];
    forall k | k in m' ensures Holds1(v, k, m'[k]) {
      if k != n { assert k in m - {n}; }
    }
  }

  /** The caller knows the inode and respects the limit on file sizes. */
  predicate Permitted(itab: map<nat, Inode>, live: set<nat>, op: Op) {
    match op
    case PutOp(buf, _) => |buf| <= MAX_SIZE
    case ReplaceOp(n, buf) => n in live && |buf| <= MAX_SIZE
    case AppendOp(n, buf) => n in live && n in itab && itab[n].size + |buf| <= MAX_SIZE
    case TruncateOp(n, _) => n in live
    case InsertOp(n, offset, buf) => n in live && n in itab && offset + |buf| <= MAX_SIZE && itab[n].size + |buf| <= MAX_SIZE
    case DeleteOp(n) => n in live
  }

  /** The same, said of the files. */
  ghost predicate Allowed(m: Files, op: Op) {
    match op
    case PutOp(buf, _) => |buf| <= MAX_SIZE
    case ReplaceOp(n, buf) => n in m && |buf| <= MAX_SIZE
    case AppendOp(n, buf) => n in m && |m[n].bytes| + |buf| <= MAX_SIZE
    case TruncateOp(n, _) => n in m
    case InsertOp(n, offset, buf) => n in m && offset + |buf| <= MAX_SIZE && |m[n].bytes| + |buf| <= MAX_SIZE
    case DeleteOp(n) => n in m
  }

  lemma PermittedIs(v: Vol, m: Files, op: Op)
    requires Stores(v, m)
    ensures Permitted(v.itab, m.Keys, op) <==> Allowed(m, op)
  {
    hide Contents;
    if !op.PutOp? && op.n in m { assert Holds1(v, op.n, m[op.n]); }
  }

  ghost function Free(fs: Volume): Room
    reads fs.blocks, fs.inodes, fs
  {
    Room(fs.blocks.superFree, fs.inodes.superFree)
  }

  method AppendStep(fs: Volume, n: nat, buf: seq<byte>, ghost m: Files) returns (ghost m': Files)
    requires Valid(fs) && Stores(View(fs), m) && n in m && n in fs.itab && fs.itab[n].size + |buf| <= MAX_SIZE
    modifies fs`disk, fs`itab, fs`trees, fs.blocks
    ensures Valid(fs) && Stores(View(fs), m') && ElseSame(old(View(fs)), View(fs), n) && m'.Keys == m.Keys && Next(m, AppendOp(n, buf), m', old(Free(fs)))
  {
    hide Valid, VolOK, ElseSame, Contents, Whole, BlockCount, Solid, Footprint;
    ghost var v := View(fs);
    StoredFacts(fs, m, n);
    SolidWhole(fs, n);
    var ok := Append(fs, n, buf);
    SolidWhole(fs, n);
    OthersStored(v, View(fs), n, m);
    ghost var f := if ok then m[n].(bytes := m[n].bytes + buf) else m[n];
    if !ok { KeptWhole(v, View(fs), n); }
    StoredAgain(View(fs), m, n, f);
    m' := m[n := f];
    assert !ok ==> m' == m;
  }

  method TruncateStep(fs: Volume, n: nat, size: nat, ghost m: Files) returns (ghost m': Files)
    requires Valid(fs) && Stores(View(fs), m) && n in m
    modifies fs`disk, fs`itab, fs`trees, fs.blocks
    ensures Valid(fs) && Stores(View(fs), m') && ElseSame(old(View(fs)), View(fs), n) && m'.Keys == m.Keys && Next(m, TruncateOp(n, size), m', old(Free(fs)))
  {
    hide Valid, VolOK, ElseSame, Contents, Whole, Solid;
    ghost var v := View(fs);
    StoredFacts(fs, m, n);
    SolidWhole(fs, n);
    var ok := Truncate(fs, n, size);
    SolidWhole(fs, n);
    OthersStored(v, View(fs), n, m);
    ghost var f := if ok then m[n].(bytes := m[n].bytes[..size]) else m[n];
    StoredAgain(View(fs), m, n, f);
    m' := m[n := f];
    assert !ok ==> m' == m;
  }

  method ReplaceStep(fs: Volume, n: nat, buf: seq<byte>, ghost m: Files) returns (ghost m': Files)
    requires Valid(fs) && Stores(View(fs), m) && n in m && |buf| <= MAX_SIZE
    modifies fs`disk, fs`itab, fs`trees, fs.blocks
    ensures Valid(fs) && Stores(View(fs), m') && ElseSame(old(View(fs)), View(fs), n) && m'.Keys == m.Keys && Next(m, ReplaceOp(n, buf), m', old(Free(fs)))
  {
    hide Valid, VolOK, ElseSame, Contents, Whole, BlockCount, Need, Solid, Footprint;
    ghost var v := View(fs);
    StoredFacts(fs, m, n);
    SolidWhole(fs, n);
    if Solid(fs, n) { SolidTree(fs, n); }
    var ok := Replace(fs, n, buf);
    SolidWhole(fs, n);
    OthersStored(v, View(fs), n, m);
    ghost var f := File(if ok then buf else [], true);
    StoredAgain(View(fs), m, n, f);
    m' := m[n := f];
  }

  lemma SolidTree(fs: Volume, n: nat)
    requires Valid(fs) && Solid(fs, n) && fs.itab[n].kind != Symlink
    ensures |fs.trees[n]| == Footprint(BlockCount(fs.itab[n].size))
  {
    hide Valid, VolOK, Good, IsMapped, BlockCount, HoleFree, Footprint, Spans;
    Begin(fs, n);
    SolidFootprint(Now(fs, fs.itab[n].ptr, fs.trees[n], 0), fs.itab[n].size);
  }

  method InsertStep(fs: Volume, n: nat, offset: nat, buf: seq<byte>, ghost m: Files) returns (ghost m': Files)
    requires Valid(fs) && Stores(View(fs), m) && n in m && n in fs.itab && offset + |buf| <= MAX_SIZE && fs.itab[n].size + |buf| <= MAX_SIZE
    modifies fs`disk, fs`itab, fs`trees, fs.blocks
    ensures Valid(fs) && Stores(View(fs), m') && ElseSame(old(View(fs)), View(fs), n) && m'.Keys == m.Keys && Next(m, InsertOp(n, offset, buf), m', old(Free(fs)))
  {
    hide Valid, VolOK, ElseSame, Contents, Whole, BlockCount, Solid, Footprint, Reserve, CutShort;
    ghost var v, within := View(fs), Exact(m, InsertOp(n, offset, buf));
    StoredFacts(fs, m, n);
    SolidWhole(fs, n);
    var ok := Insert(fs, n, buf, offset);
    SolidWhole(fs, n);
    OthersStored(v, View(fs), n, m);
    ghost var f := File(Contents(View(fs), n), m[n].whole && (buf == [] || within));
    StoredAgain(View(fs), m, n, f);
    m' := m[n := f];
  }

  method DeleteStep(fs: Volume, n: nat, ghost m: Files) returns (ghost m': Files)
    requires Valid(fs) && Stores(View(fs), m) && n in m
    modifies fs`itab, fs`trees, fs.blocks, fs.inodes
    ensures Valid(fs) && Stores(View(fs), m') && ElseSame(old(View(fs)), View(fs), n) && m'.Keys == m.Keys - {n} && Next(m, DeleteOp(n), m', old(Free(fs)))
  {
    hide Valid, VolOK, ElseSame, Holds1;
    ghost var v := View(fs);
    StoredFacts(fs, m, n);
    var ok := Delete(fs, n);
    OthersStored(v, View(fs), n, m);
    m' := m - {n};
  }

  method PutStep(fs: Volume, buf: seq<byte>, isDir: bool, ghost m: Files) returns (n: nat, ghost m': Files)
    requires Valid(fs) && Stores(View(fs), m) && |buf| <= MAX_SIZE
    modifies fs`disk, fs`itab, fs`trees, fs.blocks, fs.inodes
    ensures Valid(fs) && Stores(View(fs), m') && ElseSame(old(View(fs)), View(fs), n) && m'.Keys == (if n == 1 then m.Keys else m.Keys + {n})
    ensures Next(m, PutOp(buf, isDir), m', old(Free(fs)))
  {
    hide VolOK, ElseSame, Contents, Whole, BlockCount, Need, Solid, Volume.BlocksReady, Bitmap.Valid;
    ghost var v := View(fs);
    NotLive(fs, m);
    n := Put(fs, buf, isDir);
    SolidWhole(fs, n);
    OthersStored(v, View(fs), n, m);
    assert n !in m;
    assert m - {n} == m;
    if n == 1 {
      m' := m;
    } else {
      StoredAgain(View(fs), m, n, File(buf, true));
      m' := m[n := File(buf, true)];
    }
  }

  lemma NotLive(fs: Volume, m: Files)
    requires Valid(fs) && Stores(View(fs), m)
    ensures forall n :: n in m ==> n in fs.trees && n in fs.inodes.used && n != 1
  {
    forall n | n in m ensures n in fs.trees && n in fs.inodes.used && n != 1 {
      assert Holds1(View(fs), n, m[n]);
    }
  }

  lemma StoredFacts(fs: Volume, m: Files, n: nat)
    requires Valid(fs) && Stores(View(fs), m) && n in m
    ensures Holds1(View(fs), n, m[n]) && InTable(fs, n)
  {
    assert Holds1(View(fs), n, m[n]);
  }

  /** One operation, issued only if the caller is entitled to; n is the inode it works on. */
  method Step1(fs: Volume, live: set<nat>, op: Op, ghost m: Files) returns (live': set<nat>, ghost m': Files, ghost n: nat)
    requires Valid(fs) && Stores(View(fs), m) && live == m.Keys
    modifies fs`disk, fs`itab, fs`trees, fs.blocks, fs.inodes
    ensures Valid(fs) && Stores(View(fs), m') && live' == m'.Keys
    ensures Allowed(m, op) ==> Next(m, op, m', old(Free(fs))) && ElseSame(old(View(fs)), View(fs), n) && (op.PutOp? || n == op.n)
    ensures !Allowed(m, op) ==> m' == m && StateOf(fs) == old(StateOf(fs))
  {
    hide Valid, Stores, Next, Free, Allowed, ElseSame;
    live', m', n := live, m, 0;
    PermittedIs(View(fs), m, op);
    if !Permitted(fs.itab, live, op) {
      return;
    }
    match op
    case PutOp(buf, isDir) =>
      var k;
      k, m' := PutStep(fs, buf, isDir, m);
      live' := if k == 1 then live else live + {k};
      n := k;
    case ReplaceOp(k, buf) =>
      m' := ReplaceStep(fs, k, buf, m);
      n := k;
    case AppendOp(k, buf) =>
      StoredFacts(fs, m, k);
      m' := AppendStep(fs, k, buf, m);
      n := k;
    case TruncateOp(k, size) =>
      m' := TruncateStep(fs, k, size, m);
      n := k;
    case InsertOp(k, offset, buf) =>
      m' := InsertStep(fs, k, offset, buf, m);
      n := k;
    case DeleteOp(k) =>
      m' := DeleteStep(fs, k, m);
      live' := live - {k};
      n := k;
  }

  /**
   * One operation on a volume in state s that stores the files m.  An operation on a file the caller knows, within the
   * size limit, has its effect, unless the room left in s is too little for it; it changes no other inode.  Others are
   * not issued.
   */
  ghost predicate Goes(s: State, m: Files, op: Op, s': State, m': Files) {
    if Allowed(m, op) then Next(m, op, m', RoomIn(s)) && OneTouched(s.vol, s'.vol, op) else m' == m && s' == s
  }

  ghost predicate OneTouched(v: Vol, v': Vol, op: Op) {
    exists n: nat :: (op.PutOp? || n == op.n) && ElseSame(v, v', n)
  }

  /** The volume is sound and stores these files. */
  ghost predicate Good1(s: State, m: Files) {
    VolOK(s.vol) && Stores(s.vol, m)
  }

  /** The states a volume goes through, and the files it stores in each. */
  ghost predicate IsRun(ops: seq<Op>, states: seq<State>, trace: seq<Files>) {
    && |states| == |trace| == |ops| + 1
    && (forall i :: 0 <= i <= |ops| ==> Good1(states[i], trace[i]))
    && (forall i :: 0 <= i < |ops| ==> Goes(states[i], trace[i], ops[i], states[i + 1], trace[i + 1]))
  }

  /** Every run, over any number of operations and through any number of failures. */
  method Run(fs: Volume, live: set<nat>, ops: seq<Op>, ghost m: Files)
    returns (live': set<nat>, ghost states: seq<State>, ghost trace: seq<Files>)
    requires Valid(fs) && Stores(View(fs), m) && live == m.Keys
    modifies fs`disk, fs`itab, fs`trees, fs.blocks, fs.inodes
    ensures Valid(fs) && IsRun(ops, states, trace) && live' == trace[|ops|].Keys
    ensures states[0] == old(StateOf(fs)) && trace[0] == m && states[|ops|] == StateOf(fs)
  {
    hide Valid, Stores, Next, Allowed, OneTouched, VolOK, Good1, Goes, ElseSame, RoomIn;
    live', states, trace := live, [StateOf(fs)], [m];
    ValidGood(fs, m);
    for i := 0 to |ops|
      invariant Valid(fs) && IsRun(ops[..i], states, trace) && Stores(View(fs), trace[i]) && live' == trace[i].Keys
      invariant states[0] == old(StateOf(fs)) && trace[0] == m && states[i] == StateOf(fs)
    {
      ghost var s, last, next, n := StateOf(fs), trace[i], m, 0;
      RoomIs(fs);
      live', next, n := Step1(fs, live', ops[i], last);
      ghost var s' := StateOf(fs);
      Went(s, last, ops[i], s', next, n);
      ValidGood(fs, next);
      RunMore(ops, i, states, trace, s', next);
      states, trace := states + [s'], trace + [next];
    }
    assert ops[..|ops|] == ops;
  }

  lemma ValidGood(fs: Volume, m: Files)
    requires Valid(fs) && Stores(View(fs), m)
    ensures Good1(StateOf(fs), m)
  {
    hide VolOK, Stores;
  }

  lemma Went(s: State, m: Files, op: Op, s': State, m': Files, n: nat)
    requires Allowed(m, op) ==> Next(m, op, m', RoomIn(s)) && ElseSame(s.vol, s'.vol, n) && (op.PutOp? || n == op.n)
    requires !Allowed(m, op) ==> m' == m && s' == s
    ensures Goes(s, m, op, s', m')
  {
    hide Allowed, Next, ElseSame;
  }

  lemma RunMore(ops: seq<Op>, i: nat, states: seq<State>, trace: seq<Files>, s': State, next: Files)
    requires i < |ops| && IsRun(ops[..i], states, trace) && Goes(states[i], trace[i], ops[i], s', next) && Good1(s', next)
    ensures IsRun(ops[..i + 1], states + [s'], trace + [next])
  {
    hide Goes, Good1;
    var more, states', trace' := ops[..i + 1], states + [s'], trace + [next];
    forall j | 0 <= j < |more| ensures Goes(states'[j], trace'[j], more[j], states'[j + 1], trace'[j + 1]) {
      if j < i { assert more[j] == ops[..i][j]; }
    }
  }
}
