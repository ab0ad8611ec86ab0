/** A directory block: 4096 bytes tiled by variable-length records (kernel/fs/ext2/directoryEntry.h). */
module DirBlock {
  import opened Blocks

  type Name = seq<byte>

  /** struct ext2_directory_entry with its name. */
  datatype Rec = Rec(inode: nat, size: nat, kind: nat, name: Name)

  function Word2(b: Block, p: nat): nat
    requires p + 2 <= 4096
  {
    (b[p] as int) + 0x100 * (b[p + 1] as int)
  }

  function Word4(b: Block, p: nat): nat
    requires p + 4 <= 4096
  {
    BytesWord(b[p..p + 4])
  }

  /** ALIGN4(8 + len): what a record with a name of this length needs. */
  function TrueSize(len: nat): nat {
    (8 + len + 3) / 4 * 4
  }

  function InodeAt(b: Block, p: nat): nat
    requires p + 8 <= 4096
  {
    Word4(b, p)
  }

  function SizeAt(b: Block, p: nat): nat
    requires p + 8 <= 4096
  {
    Word2(b, p + 4)
  }

  function LenAt(b: Block, p: nat): nat
    requires p + 8 <= 4096
  {
    b[p + 6]
  }

  /** The test that every directory walk but `lookup` applies to a record. */
  predicate Fits(b: Block, p: nat) {
    p + 8 <= 4096 && SizeAt(b, p) >= 8 && TrueSize(LenAt(b, p)) <= SizeAt(b, p) && p + SizeAt(b, p) <= 4096
  }

  predicate NulFree(name: Name) {
    forall i :: 0 <= i < |name| ==> name[i] != 0
  }

  function RecAt(b: Block, p: nat): Rec
    requires Fits(b, p)
  {
    Rec(InodeAt(b, p), SizeAt(b, p), b[p + 7], b[p + 8..p + 8 + LenAt(b, p)])
  }

  /** No NUL in the name, a record in use has one, and the size is a multiple of four. */
  predicate Proper(r: Rec) {
    NulFree(r.name) && |r.name| < 256 && (r.inode != 0 ==> r.name != []) && r.size % 4 == 0
  }

  /** Records tile the bytes from p to q exactly. */
  ghost predicate Chain(b: Block, p: nat, q: nat)
    decreases q - p
  {
    p == q || (p < q && Fits(b, p) && Proper(RecAt(b, p)) && p + SizeAt(b, p) <= q && Chain(b, p + SizeAt(b, p), q))
  }

  ghost function Recs(b: Block, p: nat, q: nat): seq<Rec>
    requires Chain(b, p, q)
    decreases q - p
  {
    if p == q then [] else [RecAt(b, p)] + Recs(b, p + SizeAt(b, p), q)
  }

  /** The block is a well-formed directory block. */
  ghost predicate Tiled(b: Block) {
    Chain(b, 0, 4096)
  }

  lemma {:induction false} ChainJoin(b: Block, p: nat, m: nat, q: nat)
    requires Chain(b, p, m) && Chain(b, m, q) && p <= m <= q
    ensures Chain(b, p, q) && Recs(b, p, q) == Recs(b, p, m) + Recs(b, m, q)
    decreases m - p
  {
    hide RecAt, Proper, SizeAt, LenAt, TrueSize;
    if p < m {
      var n := p + SizeAt(b, p);
      ChainJoin(b, n, m, q);
      RecsFirst(b, p, n, m);
      RecsFirst(b, p, n, q);
      hide Recs;
      assert [RecAt(b, p)] + (Recs(b, n, m) + Recs(b, m, q)) == [RecAt(b, p)] + Recs(b, n, m) + Recs(b, m, q);
    }
  }

  lemma RecsFirst(b: Block, p: nat, n: nat, q: nat)
    requires p < q && Fits(b, p) && Proper(RecAt(b, p)) && n == p + SizeAt(b, p) <= q && Chain(b, n, q)
    ensures Chain(b, p, q) && Recs(b, p, q) == [RecAt(b, p)] + Recs(b, n, q)
  {
    hide RecAt, Proper, SizeAt, LenAt, TrueSize, Fits;
  }

  lemma RecFrame(b: Block, b': Block, p: nat, q: nat)
    requires Fits(b, p) && p + SizeAt(b, p) <= q <= 4096 && forall i :: p <= i < q ==> b'[i] == b[i]
    ensures Fits(b', p) && SizeAt(b', p) == SizeAt(b, p) && RecAt(b', p) == RecAt(b, p)
  {
    assert b'[p..p + 4] == b[p..p + 4];
    assert b'[p + 8..p + 8 + LenAt(b, p)] == b[p + 8..p + 8 + LenAt(b, p)];
  }

  /** A chain is unaffected by writes outside it. */
  lemma {:induction false} ChainFrame(b: Block, b': Block, p: nat, q: nat)
    requires Chain(b, p, q) && q <= 4096 && forall i :: p <= i < q ==> b'[i] == b[i]
    ensures Chain(b', p, q) && Recs(b', p, q) == Recs(b, p, q)
    decreases q - p
  {
    hide NulFree, LenAt, TrueSize, Word2, Word4;
    if p < q {
      RecFrame(b, b', p, q);
      ChainFrame(b, b', p + SizeAt(b, p), q);
    }
  }

  /** What a reader sees of a record. */
  datatype Entry = Entry(name: Name, inode: nat, kind: nat)

  /** The records in use, in order. */
  function Live(rs: seq<Rec>): seq<Entry> {
    if rs == [] then []
    else (if rs[0].inode == 0 then [] else [Entry(rs[0].name, rs[0].inode, rs[0].kind)]) + Live(rs[1..])
  }

  lemma {:induction false} LiveJoin(a: seq<Rec>, b: seq<Rec>)
    ensures Live(a + b) == Live(a) + Live(b)
  {
    if a == [] {
      assert a + b == b;
    } else {
      assert (a + b)[1..] == a[1..] + b;
      LiveJoin(a[1..], b);
    }
  }

  ghost function BlockEntries(b: Block): seq<Entry> {
    if Tiled(b) then Live(Recs(b, 0, 4096)) else []
  }

  /** The block splits at records p and q. */
  lemma EntriesAt(b: Block, p: nat, q: nat)
    requires Chain(b, 0, p) && Chain(b, p, q) && Chain(b, q, 4096) && p <= q <= 4096
    ensures Tiled(b) && BlockEntries(b) == Live(Recs(b, 0, p)) + Live(Recs(b, p, q)) + Live(Recs(b, q, 4096))
  {
    ChainJoin(b, 0, p, q);
    ChainJoin(b, 0, q, 4096);
    LiveJoin(Recs(b, 0, p), Recs(b, p, q));
    LiveJoin(Recs(b, 0, q), Recs(b, q, 4096));
  }

  /** Replacing the records from p to q by others of the same total length. */
  lemma Spliced(b: Block, b': Block, p: nat, q: nat)
    requires Chain(b, 0, p) && Chain(b, p, q) && Chain(b, q, 4096) && Chain(b', p, q) && p <= q <= 4096
    requires forall i :: 0 <= i < 4096 && (i < p || q <= i) ==> b'[i] == b[i]
    ensures Tiled(b) && Tiled(b')
    ensures BlockEntries(b) == Live(Recs(b, 0, p)) + Live(Recs(b, p, q)) + Live(Recs(b, q, 4096))
    ensures BlockEntries(b') == Live(Recs(b, 0, p)) + Live(Recs(b', p, q)) + Live(Recs(b, q, 4096))
  {
    hide Chain, Recs, Live, BlockEntries, Tiled;
    EntriesAt(b, p, q);
    ChainFrame(b, b', 0, p);
    ChainFrame(b, b', q, 4096);
    EntriesAt(b', p, q);
  }

  // ----- edits in place

  /** Bytes written at offset p. */
  function Poke(b: Block, p: nat, bytes: seq<byte>): (b': Block)
    requires p + |bytes| <= 4096
    ensures forall i :: 0 <= i < 4096 ==> b'[i] == if p <= i < p + |bytes| then bytes[i - p] else b[i]
  {
    b[..p] + bytes + b[p + |bytes|..]
  }

  function Bytes2(w: nat): (r: seq<byte>)
    requires w < 0x1_0000
    ensures |r| == 2
  {
    [w % 0x100, w / 0x100]
  }

  /** entry->curr_entry_size = size. */
  method SetSize(b: Block, p: nat, size: nat) returns (b': Block)
    requires p + 8 <= 4096 && size < 0x1_0000
    ensures SizeAt(b', p) == size && forall i :: 0 <= i < 4096 && i != p + 4 && i != p + 5 ==> b'[i] == b[i]
  {
    b' := Poke(b, p + 4, Bytes2(size));
  }

  /** entry->inode = n. */
  method SetInodeField(b: Block, p: nat, n: nat) returns (b': Block)
    requires p + 8 <= 4096 && IsWord(n)
    ensures InodeAt(b', p) == n && forall i :: 0 <= i < 4096 && !(p <= i < p + 4) ==> b'[i] == b[i]
  {
    b' := Poke(b, p, WordBytes(n));
    assert b'[p..p + 4] == WordBytes(n);
    WordAgain(n);
  }

  /** b' has the given record header and name at p, over b. */
  ghost predicate Named(b: Block, b': Block, p: nat, n: nat, kind: nat, name: Name) {
    && p + 8 + |name| <= 4096 && InodeAt(b', p) == n && LenAt(b', p) == |name| && b'[p + 7] == kind
    && b'[p + 8..p + 8 + |name|] == name && SizeAt(b', p) == SizeAt(b, p)
    && (forall i :: 0 <= i < 4096 && !(p <= i < p + 8 + |name|) ==> b'[i] == b[i])
  }

  /** Filling in a record: inode, name length, name and type, but not its size. */
  method Fill(b: Block, p: nat, n: nat, kind: byte, name: Name) returns (b': Block)
    requires |name| < 256 && p + 8 + |name| <= 4096 && IsWord(n)
    ensures Named(b, b', p, n, kind, name)
  {
    b' := SetInodeField(b, p, n);
    b' := b'[p + 6 := |name|];
    ghost var b1 := b';
    for j := 0 to |name|
      invariant |b'| == 4096 && forall i :: 0 <= i < 4096 ==> b'[i] == if p + 8 <= i < p + 8 + j then name[i - p - 8] else b1[i]
    {
      b' := b'[p + 8 + j := name[j]];
    }
    b' := b'[p + 7 := kind];
    assert b'[p..p + 4] == b1[p..p + 4];
  }

  /** The least multiple of four that holds a header of eight bytes and a name of this length. */
  predicate Takes(room: nat, len: nat) {
    room % 4 == 0 && 8 + len <= room < 12 + len
  }

  lemma TrueSizeIs(len: nat)
    ensures 8 + len <= TrueSize(len) <= 8 + len + 3 && TrueSize(len) % 4 == 0
    ensures forall room: nat :: Takes(room, len) <==> room == TrueSize(len)
  {
  }

  /** Every record of a directory block starts at a multiple of four and is a multiple of four bytes long. */
  lemma {:induction false} ChainAligned(b: Block, p: nat, c: nat)
    requires Chain(b, p, c) && p % 4 == 0
    ensures c % 4 == 0
    decreases c - p
  {
    hide NulFree, LenAt, TrueSize, SizeAt, InodeAt;
    if p < c { ChainAligned(b, p + SizeAt(b, p), c); }
  }

  lemma RecordsAligned(b: Block, c: nat)
    requires Chain(b, 0, c) && Chain(b, c, 4096) && c < 4096
    ensures Tiled(b) && c % 4 == 0 && c + 8 <= 4096 && SizeAt(b, c) % 4 == 0
  {
    ChainAligned(b, 0, c);
    ChainJoin(b, 0, c, 4096);
  }

  /** A record filled in over an unused one that is large enough. */
  lemma Reused(b: Block, b': Block, p: nat, n: nat, kind: nat, name: Name)
    requires Fits(b, p) && InodeAt(b, p) == 0 && TrueSize(|name|) <= SizeAt(b, p) && Named(b, b', p, n, kind, name)
    requires NulFree(name) && 0 < |name| < 256 && Proper(RecAt(b, p)) && n != 0
    ensures var q := p + SizeAt(b, p);
            && Chain(b, p, q) && Chain(b', p, q) && Live(Recs(b, p, q)) == [] && Live(Recs(b', p, q)) == [Entry(name, n, kind)]
            && Recs(b, p, q) == [RecAt(b, p)] && Recs(b', p, q) == [Rec(n, SizeAt(b, p), kind, name)]
  {
    hide Chain, Recs, Live, NulFree, Named, TrueSize, Word2, Word4;
    NamedRec(b, b', p, n, kind, name);
    OneRecord(b, p);
    OneRecord(b', p);
  }

  lemma NamedRec(b: Block, b': Block, p: nat, n: nat, kind: nat, name: Name)
    requires Named(b, b', p, n, kind, name) && TrueSize(|name|) <= SizeAt(b, p) && p + SizeAt(b, p) <= 4096
    ensures Fits(b', p) && RecAt(b', p) == Rec(n, SizeAt(b, p), kind, name)
  {
    TrueSizeIs(|name|);
  }

  lemma OneRecord(b: Block, p: nat)
    requires Fits(b, p) && Proper(RecAt(b, p))
    ensures var r := RecAt(b, p);
            && Chain(b, p, p + r.size) && Recs(b, p, p + r.size) == [r]
            && Live([r]) == if r.inode == 0 then [] else [Entry(r.name, r.inode, r.kind)]
  {
    var r := RecAt(b, p);
    assert Chain(b, p + r.size, p + r.size);
    assert Recs(b, p + r.size, p + r.size) == [];
    assert [r][1..] == [];
  }

  /** A record cut to its true size, with a new one in the slack behind it. */
  lemma SplitOff(b: Block, b1: Block, b2: Block, b': Block, p: nat, n: nat, kind: nat, name: Name)
    requires Fits(b, p) && Proper(RecAt(b, p)) && NulFree(name) && 0 < |name| < 256 && n != 0
    requires var t := TrueSize(LenAt(b, p));
             && t + TrueSize(|name|) <= SizeAt(b, p)
             && SizeAt(b1, p) == t && (forall i :: 0 <= i < 4096 && i != p + 4 && i != p + 5 ==> b1[i] == b[i])
             && SizeAt(b2, p + t) == SizeAt(b, p) - t && (forall i :: 0 <= i < 4096 && i != p + t + 4 && i != p + t + 5 ==> b2[i] == b1[i])
             && Named(b2, b', p + t, n, kind, name)
    ensures var q := p + SizeAt(b, p);
            && Chain(b, p, q) && Chain(b', p, q) && Live(Recs(b', p, q)) == Live(Recs(b, p, q)) + [Entry(name, n, kind)]
            && Recs(b, p, q) == [RecAt(b, p)]
            && Recs(b', p, q) == [RecAt(b, p).(size := TrueSize(LenAt(b, p)))] + [Rec(n, SizeAt(b, p) - TrueSize(LenAt(b, p)), kind, name)]
            && (forall i :: 0 <= i < 4096 && (i < p || q <= i) ==> b'[i] == b[i])
  {
    hide Chain, Recs, Live, NulFree, TrueSize, Word2, Word4;
    var t := TrueSize(LenAt(b, p));
    TrueSizeIs(LenAt(b, p));
    TrueSizeIs(|name|);
    NamedRec(b2, b', p + t, n, kind, name);
    SizeKept(b1, b', p);
    HeadKept(b, b', p, t);
    OneRecord(b, p);
    OneRecord(b', p);
    OneRecord(b', p + t);
    ChainJoin(b', p, p + t, p + SizeAt(b, p));
    LiveJoin(Recs(b', p, p + t), Recs(b', p + t, p + SizeAt(b, p)));
  }

  lemma SizeKept(b: Block, b': Block, p: nat)
    requires p + 8 <= 4096 && b'[p + 4] == b[p + 4] && b'[p + 5] == b[p + 5]
    ensures SizeAt(b', p) == SizeAt(b, p)
  {
  }

  /** A record whose size field alone has changed. */
  lemma HeadKept(b: Block, b': Block, p: nat, t: nat)
    requires Fits(b, p) && 8 <= TrueSize(LenAt(b, p)) <= t && p + t <= 4096 && SizeAt(b', p) == t
    requires forall i :: p <= i < p + 8 + LenAt(b, p) && i != p + 4 && i != p + 5 ==> i < 4096 && b'[i] == b[i]
    ensures Fits(b', p) && RecAt(b', p) == RecAt(b, p).(size := t)
  {
    TrueSizeIs(LenAt(b, p));
    assert b'[p..p + 4] == b[p..p + 4];
    assert b'[p + 8..p + 8 + LenAt(b, p)] == b[p + 8..p + 8 + LenAt(b, p)];
  }

  /** A record whose inode field alone has changed. */
  lemma Retargeted(b: Block, b': Block, p: nat, n: nat)
    requires Fits(b, p) && InodeAt(b', p) == n && forall i :: p + 4 <= i < p + SizeAt(b, p) ==> i < 4096 && b'[i] == b[i]
    ensures Fits(b', p) && RecAt(b', p) == RecAt(b, p).(inode := n)
  {
    TrueSizeIs(LenAt(b, p));
    assert b'[p + 8..p + 8 + LenAt(b, p)] == b[p + 8..p + 8 + LenAt(b, p)];
  }

  /** One record further along the block. */
  lemma StepOver(b: Block, c: nat)
    requires c < 4096 && Chain(b, 0, c) && Chain(b, c, 4096)
    ensures Fits(b, c) && Proper(RecAt(b, c)) && Chain(b, c, c + SizeAt(b, c)) && Recs(b, c, c + SizeAt(b, c)) == [RecAt(b, c)]
    ensures Chain(b, 0, c + SizeAt(b, c)) && Recs(b, 0, c + SizeAt(b, c)) == Recs(b, 0, c) + [RecAt(b, c)]
    ensures Live(Recs(b, 0, c + SizeAt(b, c))) == Live(Recs(b, 0, c)) + Live([RecAt(b, c)]) && Chain(b, c + SizeAt(b, c), 4096)
  {
    hide TrueSize, Live, InodeAt, LenAt;
    OneRecord(b, c);
    ChainJoin(b, 0, c, c + SizeAt(b, c));
    LiveJoin(Recs(b, 0, c), [RecAt(b, c)]);
  }

  // ----- the name map

  /** The inode under a name; 0 when there is none. */
  function Find(es: seq<Entry>, name: Name): nat {
    if es == [] then 0 else if es[0].name == name then es[0].inode else Find(es[1..], name)
  }

  /** The entries without the first one of that name. */
  function Without(es: seq<Entry>, name: Name): seq<Entry> {
    if es == [] then [] else if es[0].name == name then es[1..] else [es[0]] + Without(es[1..], name)
  }

  predicate Absent(es: seq<Entry>, name: Name) {
    forall i :: 0 <= i < |es| ==> es[i].name != name
  }

  /** es' is es with e put in somewhere; the other entries keep their order. */
  ghost predicate Added(es: seq<Entry>, e: Entry, es': seq<Entry>) {
    exists k :: 0 <= k <= |es| && es' == es[..k] + [e] + es[k..]
  }

  lemma {:induction false} FindSkips(a: seq<Entry>, b: seq<Entry>, name: Name)
    requires Absent(a, name)
    ensures Find(a + b, name) == Find(b, name) && Without(a + b, name) == a + Without(b, name)
  {
    if a == [] {
      assert a + b == b;
      assert a + Without(b, name) == Without(b, name);
    } else {
      assert (a + b)[1..] == a[1..] + b;
      FindSkips(a[1..], b, name);
      assert [a[0]] + (a[1..] + Without(b, name)) == a + Without(b, name);
    }
  }

  lemma {:induction false} FindNone(es: seq<Entry>, name: Name)
    requires forall i :: 0 <= i < |es| ==> es[i].inode != 0
    ensures Find(es, name) == 0 <==> Absent(es, name)
  {
    if es != [] {
      FindNone(es[1..], name);
      assert Absent(es, name) <==> es[0].name != name && Absent(es[1..], name) by {
        forall i | 0 < i < |es| ensures es[i] == es[1..][i - 1] {}
      }
    }
  }

  /** dir_remove undoes dir_insert. */
  lemma RemoveUndoesInsert(es: seq<Entry>, e: Entry, es': seq<Entry>)
    requires Added(es, e, es') && Absent(es, e.name)
    ensures Without(es', e.name) == es && Find(es', e.name) == e.inode
  {
    var k :| 0 <= k <= |es| && es' == es[..k] + [e] + es[k..];
    assert es' == es[..k] + ([e] + es[k..]);
    FindSkips(es[..k], [e] + es[k..], e.name);
    assert ([e] + es[k..])[1..] == es[k..];
    assert es[..k] + es[k..] == es;
  }

  lemma {:induction false} LiveUsed(rs: seq<Rec>)
    ensures forall i :: 0 <= i < |Live(rs)| ==> Live(rs)[i].inode != 0
  {
    if rs != [] { LiveUsed(rs[1..]); }
  }

  predicate AllNamed(es: seq<Entry>) {
    forall i :: 0 <= i < |es| ==> 0 < |es[i].name| < 256
  }

  lemma {:induction false} RecsProper(b: Block, p: nat, q: nat)
    requires Chain(b, p, q)
    ensures forall i :: 0 <= i < |Recs(b, p, q)| ==> Proper(Recs(b, p, q)[i])
    decreases q - p
  {
    hide Proper, RecAt, SizeAt, LenAt, TrueSize;
    if p < q { RecsProper(b, p + SizeAt(b, p), q); }
  }

  lemma {:induction false} LiveNamed(rs: seq<Rec>)
    requires forall i :: 0 <= i < |rs| ==> Proper(rs[i])
    ensures AllNamed(Live(rs))
  {
    if rs != [] { LiveNamed(rs[1..]); }
  }

  /** Every entry of a directory block has a name of 1 to 255 bytes. */
  lemma BlockNamed(b: Block)
    ensures AllNamed(BlockEntries(b))
  {
    if Tiled(b) {
      RecsProper(b, 0, 4096);
      LiveNamed(Recs(b, 0, 4096));
    }
  }

  // ----- walks

  /** Every byte is below 0x80, so that it is the same number as a `uint8_t` and as a signed `char`. */
  predicate Ascii(name: Name) {
    forall i :: 0 <= i < |name| ==> name[i] < 0x80
  }

  /** A byte as a `char`, which is signed. */
  function Signed(x: byte): int {
    if x < 0x80 then x else x - 0x100
  }

  /** What comp_name can match: the name, or, for a name with a byte of 0x80 or more, nothing that is in use. */
  function Key(name: Name): Name {
    if Ascii(name) then name else []
  }

  /** The inode that a scan with comp_name finds for a name. */
  function Seen(es: seq<Entry>, name: Name): nat {
    if Ascii(name) then Find(es, name) else 0
  }

  /** comp_name: bytes of the record as `uint8_t` against the name as `char`, so only ASCII names ever match. */
  method CompName(a: Name, b: Name) returns (same: bool)
    requires NulFree(a) && NulFree(b)
    ensures same <==> a == b && Ascii(b)
  {
    var s := b + [0];
    for i := 0 to |a|
      invariant i <= |b| && a[..i] == b[..i] && Ascii(b[..i])
    {
      if a[i] != Signed(s[i]) {
        return false;
      }
      assert i < |b| && b[..i + 1] == b[..i] + [b[i]];
    }
    same := Signed(s[|a|]) == 0;
    assert a[..|a|] == a && (|a| == |b| ==> b[..|a|] == b);
  }

  /** On a record in use, matching is being named by the key. */
  lemma Compared(b: Block, c: nat, name: Name)
    requires Fits(b, c) && Proper(RecAt(b, c)) && InodeAt(b, c) != 0
    ensures RecAt(b, c).name == Key(name) <==> RecAt(b, c).name == name && Ascii(name)
  {
  }

  /** The walk stands at record c: the records before c are `front`, and none of them has the name. */
  ghost predicate WalkAt(b: Block, c: nat, name: Name) {
    c <= 4096 && Chain(b, 0, c) && Chain(b, c, 4096) && Absent(Live(Recs(b, 0, c)), name)
  }

  lemma WalkStart(b: Block, name: Name)
    requires Tiled(b)
    ensures WalkAt(b, 0, name)
  {
  }

  lemma WalkHere(b: Block, c: nat, name: Name)
    requires WalkAt(b, c, name) && c < 4096
    ensures Fits(b, c) && Proper(RecAt(b, c)) && Chain(b, c + SizeAt(b, c), 4096)
    ensures BlockEntries(b) == Live(Recs(b, 0, c)) + Live([RecAt(b, c)]) + Live(Recs(b, c + SizeAt(b, c), 4096))
  {
    hide Recs, Live, BlockEntries, LenAt, TrueSize, Absent;
    StepOver(b, c);
    EntriesAt(b, c, c + SizeAt(b, c));
  }

  lemma WalkNext(b: Block, c: nat, name: Name)
    requires WalkAt(b, c, name) && c < 4096 && Fits(b, c) && (InodeAt(b, c) == 0 || RecAt(b, c).name != name)
    ensures WalkAt(b, c + SizeAt(b, c), name)
  {
    hide Chain, Recs, Live, SizeAt;
    StepOver(b, c);
    OneRecord(b, c);
  }

  lemma WalkFound(b: Block, c: nat, name: Name)
    requires WalkAt(b, c, name) && c < 4096 && Fits(b, c) && InodeAt(b, c) != 0 && RecAt(b, c).name == name
    ensures Find(BlockEntries(b), name) == InodeAt(b, c)
    ensures Without(BlockEntries(b), name) == Live(Recs(b, 0, c)) + Live(Recs(b, c + SizeAt(b, c), 4096))
  {
    hide Chain, Recs, Proper, BlockEntries, LenAt, TrueSize, Live;
    WalkHere(b, c, name);
    OneRecord(b, c);
    var a, e, z := Live(Recs(b, 0, c)), Live([RecAt(b, c)]), Live(Recs(b, c + SizeAt(b, c), 4096));
    assert a + e + z == a + (e + z);
    FindSkips(a, e + z, name);
    assert (e + z)[1..] == z;
  }

  lemma WalkEnd(b: Block, name: Name)
    requires WalkAt(b, 4096, name)
    ensures Find(BlockEntries(b), name) == 0 && Absent(BlockEntries(b), name)
  {
    FindSkips(BlockEntries(b), [], name);
    assert BlockEntries(b) + [] == BlockEntries(b);
  }

  /** The scan of one block in name_in. */
  method NameInBlock(b: Block, name: Name) returns (out: nat)
    requires Tiled(b) && NulFree(name)
    ensures out == Seen(BlockEntries(b), name)
  {
    hide Chain, Recs, Live, Find, Absent, BlockEntries, Tiled, RecAt, NulFree, TrueSize;
    ghost var key := Key(name);
    WalkStart(b, key);
    var cursor := 0;
    while cursor < 4096
      invariant WalkAt(b, cursor, key)
      decreases 4096 - cursor
    {
      WalkHere(b, cursor, key);
      FitsMeans(b, cursor);
      if SizeAt(b, cursor) < 8 || TrueSize(LenAt(b, cursor)) > SizeAt(b, cursor) || cursor + SizeAt(b, cursor) > 4096 {
        assert false;   // never in a tiled block
      }
      var same := CompName(RecAt(b, cursor).name, name);
      if InodeAt(b, cursor) != 0 { Compared(b, cursor, name); }
      if InodeAt(b, cursor) != 0 && same {
        WalkFound(b, cursor, key);
        return InodeAt(b, cursor);
      }
      WalkNext(b, cursor, key);
      cursor := cursor + SizeAt(b, cursor);
    }
    WalkEnd(b, key);
    return 0;
  }

  lemma FitsMeans(b: Block, p: nat)
    requires Fits(b, p)
    ensures p + 8 <= 4096 && SizeAt(b, p) >= 8 && TrueSize(LenAt(b, p)) <= SizeAt(b, p) && p + SizeAt(b, p) <= 4096
  {
  }

  /** lookup: the scan of one block in lookup_path, which checks only for a zero record size. */
  method LookupBlock(b: Block, name: Name) returns (out: nat)
    requires Tiled(b) && NulFree(name)
    ensures out == Seen(BlockEntries(b), name)
  {
    hide Chain, Recs, Live, Find, Absent, BlockEntries, Tiled, RecAt, NulFree, TrueSize;
    ghost var key := Key(name);
    WalkStart(b, key);
    var cursor := 0;
    while cursor < 4096
      invariant WalkAt(b, cursor, key)
      decreases 4096 - cursor
    {
      WalkHere(b, cursor, key);
      FitsMeans(b, cursor);
      var entry := cursor;
      cursor := cursor + SizeAt(b, entry);
      if SizeAt(b, entry) == 0 {
        assert false;   // never in a tiled block
      }
      if InodeAt(b, entry) == 0 {
        WalkNext(b, entry, key);
        continue;
      }
      var same := CompName(RecAt(b, entry).name, name);
      if InodeAt(b, entry) != 0 { Compared(b, entry, name); }
      if same {
        WalkFound(b, entry, key);
        return InodeAt(b, entry);
      }
      WalkNext(b, entry, key);
    }
    WalkEnd(b, key);
    return 0;
  }

  // ----- insertion

  /** The record cannot take a new one with a name of this length: it is in use or too small, and so is its slack. */
  predicate Full(r: Rec, len: nat) {
    (r.inode == 0 ==> r.size < 8 + len) && forall own: nat :: Takes(own, |r.name|) ==> r.size < own + 8 + len
  }

  ghost predicate NoSlack(rs: seq<Rec>, len: nat) {
    forall i :: 0 <= i < |rs| ==> Full(rs[i], len)
  }

  /**
   * The first record with room took the entry: an unused one is filled in, and one in use is cut to the least multiple of
   * four that holds it, with the new record in the rest.
   */
  ghost predicate Placed(rs: seq<Rec>, rs': seq<Rec>, e: Entry) {
    exists k: nat :: k < |rs| && NoSlack(rs[..k], |e.name|) && (Refilled(rs, rs', k, e) || Cut(rs, rs', k, e))
  }

  ghost predicate Refilled(rs: seq<Rec>, rs': seq<Rec>, k: nat, e: Entry)
    requires k < |rs|
  {
    && rs[k].inode == 0 && rs[k].size >= 8 + |e.name|
    && rs' == rs[..k] + [Rec(e.inode, rs[k].size, e.kind, e.name)] + rs[k + 1..]
  }

  ghost predicate Cut(rs: seq<Rec>, rs': seq<Rec>, k: nat, e: Entry)
    requires k < |rs|
  {
    exists own: nat :: Takes(own, |rs[k].name|) && own + 8 + |e.name| <= rs[k].size && (rs[k].inode == 0 ==> rs[k].size < 8 + |e.name|)
      && rs' == rs[..k] + [rs[k].(size := own)] + [Rec(e.inode, rs[k].size - own, e.kind, e.name)] + rs[k + 1..]
  }

  ghost predicate InsertAt(b: Block, c: nat, len: nat) {
    c <= 4096 && Chain(b, 0, c) && Chain(b, c, 4096) && NoSlack(Recs(b, 0, c), len)
  }

  lemma InsertStart(b: Block, len: nat)
    requires Tiled(b)
    ensures InsertAt(b, 0, len)
  {
  }

  lemma InsertHere(b: Block, c: nat, len: nat)
    requires InsertAt(b, c, len) && c < 4096
    ensures Fits(b, c) && Proper(RecAt(b, c)) && Chain(b, 0, c) && Chain(b, c, c + SizeAt(b, c)) && Chain(b, c + SizeAt(b, c), 4096)
    ensures SizeAt(b, c) < 0x1_0000
  {
    OneRecord(b, c);
  }

  lemma InsertNext(b: Block, c: nat, len: nat)
    requires InsertAt(b, c, len) && c < 4096 && Fits(b, c) && Full(RecAt(b, c), len)
    ensures InsertAt(b, c + SizeAt(b, c), len)
  {
    hide Chain, Recs, Live, SizeAt;
    StepOver(b, c);
  }

  lemma RecsSpliced(b: Block, b': Block, p: nat, q: nat)
    requires Chain(b, 0, p) && Chain(b, p, q) && Chain(b, q, 4096) && Chain(b', p, q) && p <= q <= 4096
    requires forall i :: 0 <= i < 4096 && (i < p || q <= i) ==> b'[i] == b[i]
    ensures Chain(b, 0, 4096) && Recs(b, 0, 4096) == Recs(b, 0, p) + Recs(b, p, q) + Recs(b, q, 4096)
    ensures Chain(b', 0, 4096) && Recs(b', 0, 4096) == Recs(b, 0, p) + Recs(b', p, q) + Recs(b, q, 4096)
  {
    hide Chain, Recs;
    ChainFrame(b, b', 0, p);
    ChainFrame(b, b', q, 4096);
    ChainJoin(b, 0, p, q);
    ChainJoin(b, 0, q, 4096);
    ChainJoin(b', 0, p, q);
    ChainJoin(b', 0, q, 4096);
  }

  lemma PlacedNotFull(rs: seq<Rec>, rs': seq<Rec>, e: Entry)
    requires Placed(rs, rs', e)
    ensures !NoSlack(rs, |e.name|)
  {
    hide Takes;
    var k: nat :| k < |rs| && NoSlack(rs[..k], |e.name|) && (Refilled(rs, rs', k, e) || Cut(rs, rs', k, e));
    assert !Full(rs[k], |e.name|);
  }

  lemma PlacedRefilled(front: seq<Rec>, r: Rec, back: seq<Rec>, e: Entry)
    requires NoSlack(front, |e.name|) && r.inode == 0 && r.size >= 8 + |e.name|
    ensures Placed(front + [r] + back, front + [Rec(e.inode, r.size, e.kind, e.name)] + back, e)
  {
    var rs, rs', k := front + [r] + back, front + [Rec(e.inode, r.size, e.kind, e.name)] + back, |front|;
    assert rs[..k] == front && rs[k + 1..] == back;
    assert Refilled(rs, rs', k, e);
  }

  lemma PlacedCut(front: seq<Rec>, r: Rec, back: seq<Rec>, e: Entry, own: nat)
    requires NoSlack(front, |e.name|) && Takes(own, |r.name|) && own + 8 + |e.name| <= r.size && (r.inode == 0 ==> r.size < 8 + |e.name|)
    ensures Placed(front + [r] + back, front + ([r.(size := own)] + [Rec(e.inode, r.size - own, e.kind, e.name)]) + back, e)
  {
    var rs, k := front + [r] + back, |front|;
    var rs' := front + ([r.(size := own)] + [Rec(e.inode, r.size - own, e.kind, e.name)]) + back;
    assert rs[..k] == front && rs[k + 1..] == back;
    assert rs[k] == r;
    assert rs' == front + [r.(size := own)] + [Rec(e.inode, r.size - own, e.kind, e.name)] + back;
    assert Cut(rs, rs', k, e);
  }

  /** One record of a block replaced: the entries change only there. */
  lemma AddedHere(b: Block, b': Block, p: nat, q: nat, e: Entry)
    requires Chain(b, 0, p) && Chain(b, p, q) && Chain(b, q, 4096) && Chain(b', p, q) && p <= q <= 4096
    requires forall i :: 0 <= i < 4096 && (i < p || q <= i) ==> b'[i] == b[i]
    requires Live(Recs(b', p, q)) == Live(Recs(b, p, q)) + [e]
    ensures Tiled(b') && Added(BlockEntries(b), e, BlockEntries(b'))
    ensures Chain(b, 0, 4096) && Recs(b, 0, 4096) == Recs(b, 0, p) + Recs(b, p, q) + Recs(b, q, 4096)
    ensures Recs(b', 0, 4096) == Recs(b, 0, p) + Recs(b', p, q) + Recs(b, q, 4096)
  {
    hide Chain, Recs, Live, BlockEntries, Tiled;
    RecsSpliced(b, b', p, q);
    Spliced(b, b', p, q);
    var front, here, back := Live(Recs(b, 0, p)), Live(Recs(b, p, q)), Live(Recs(b, q, 4096));
    var es, k := BlockEntries(b), |front + here|;
    assert es == front + here + back;
    assert es[..k] == front + here && es[k..] == back;
    assert BlockEntries(b') == es[..k] + [e] + es[k..];
  }

  /** The scan of one block in dir_insert: reuse an unused record or split one with enough slack. */
  method InsertInBlock(b: Block, name: Name, child: nat, kind: byte) returns (ok: bool, b': Block)
    requires Tiled(b) && NulFree(name) && 0 < |name| < 256 && 0 < child && IsWord(child)
    ensures ok ==> Tiled(b') && Added(BlockEntries(b), Entry(name, child, kind), BlockEntries(b'))
    ensures ok ==> Placed(Recs(b, 0, 4096), Recs(b', 0, 4096), Entry(name, child, kind))
    ensures !ok ==> b' == b && NoSlack(Recs(b, 0, 4096), |name|)
  {
    hide Chain, Recs, Live, BlockEntries, RecAt, NulFree, TrueSize, Added, NoSlack, Full, SizeAt, LenAt, InodeAt, Named, Placed, Takes, Proper;
    b' := b;
    var needed := TrueSize(|name|);
    TrueSizeIs(|name|);
    InsertStart(b, |name|);
    var cursor := 0;
    while cursor < 4096
      invariant InsertAt(b, cursor, |name|) && b' == b
      decreases 4096 - cursor
    {
      InsertHere(b, cursor, |name|);
      FitsMeans(b, cursor);
      var size, trueSize := SizeAt(b, cursor), TrueSize(LenAt(b, cursor));
      TrueSizeIs(LenAt(b, cursor));
      if size < 8 || trueSize > size || cursor + size > 4096 {
        assert false;   // never in a tiled block
      }
      if InodeAt(b, cursor) == 0 && size >= needed {
        b' := Fill(b, cursor, child, kind, name);
        NamedOutside(b, b', cursor, child, kind, name, cursor + size);
        Reused(b, b', cursor, child, kind, name);
        AddedHere(b, b', cursor, cursor + size, Entry(name, child, kind));
        RefillHere(b, cursor, |name|);
        PlacedRefilled(Recs(b, 0, cursor), RecAt(b, cursor), Recs(b, cursor + size, 4096), Entry(name, child, kind));
        return true, b';
      }
      var slack := size - trueSize;
      if slack >= needed {
        var b1 := SetSize(b, cursor, trueSize);
        var b2 := SetSize(b1, cursor + trueSize, slack);
        b' := Fill(b2, cursor + trueSize, child, kind, name);
        SplitOff(b, b1, b2, b', cursor, child, kind, name);
        AddedHere(b, b', cursor, cursor + size, Entry(name, child, kind));
        CutHere(b, cursor, |name|);
        PlacedCut(Recs(b, 0, cursor), RecAt(b, cursor), Recs(b, cursor + size, 4096), Entry(name, child, kind), trueSize);
        return true, b';
      }
      FullHere(b, cursor, |name|);
      InsertNext(b, cursor, |name|);
      cursor := cursor + size;
    }
    InsertEnd(b, |name|);
    ok := false;
  }

  lemma NamedOutside(b: Block, b': Block, p: nat, n: nat, kind: nat, name: Name, q: nat)
    requires Named(b, b', p, n, kind, name) && p + 8 + |name| <= q
    ensures forall i :: 0 <= i < 4096 && (i < p || q <= i) ==> b'[i] == b[i]
  {
  }

  lemma FullHere(b: Block, c: nat, len: nat)
    requires Fits(b, c) && Proper(RecAt(b, c)) && !(InodeAt(b, c) == 0 && SizeAt(b, c) >= TrueSize(len))
    requires SizeAt(b, c) - TrueSize(LenAt(b, c)) < TrueSize(len)
    ensures Full(RecAt(b, c), len)
  {
    hide TrueSize, Takes, SizeAt, LenAt, InodeAt, NulFree;
    TrueSizeIs(LenAt(b, c));
    TrueSizeIs(len);
  }

  lemma RefillHere(b: Block, c: nat, len: nat)
    requires Fits(b, c) && InodeAt(b, c) == 0 && SizeAt(b, c) >= TrueSize(len)
    ensures RecAt(b, c).inode == 0 && 8 + len <= RecAt(b, c).size == SizeAt(b, c)
  {
    hide TrueSize, Takes, SizeAt, LenAt, InodeAt, NulFree;
    TrueSizeIs(len);
  }

  /** The test for slack, in numbers. */
  lemma CutHere(b: Block, c: nat, len: nat)
    requires Fits(b, c) && Proper(RecAt(b, c)) && !(InodeAt(b, c) == 0 && SizeAt(b, c) >= TrueSize(len))
    requires SizeAt(b, c) - TrueSize(LenAt(b, c)) >= TrueSize(len)
    ensures var r, own := RecAt(b, c), TrueSize(LenAt(b, c));
            Takes(own, |r.name|) && own + 8 + len <= r.size == SizeAt(b, c) && (r.inode == 0 ==> r.size < 8 + len)
  {
    hide TrueSize, SizeAt, LenAt, InodeAt, NulFree;
    TrueSizeIs(LenAt(b, c));
    TrueSizeIs(len);
  }

  lemma InsertEnd(b: Block, len: nat)
    requires InsertAt(b, 4096, len)
    ensures Tiled(b) && NoSlack(Recs(b, 0, 4096), len)
  {
  }

  /** The block dir_insert adds to a full directory: one record that takes it all. */
  method SeedBlock(name: Name, child: nat, kind: byte) returns (b: Block)
    requires NulFree(name) && 0 < |name| < 256 && 0 < child && IsWord(child)
    ensures Tiled(b) && BlockEntries(b) == [Entry(name, child, kind)] && Recs(b, 0, 4096) == [Rec(child, 4096, kind, name)]
  {
    hide Chain, Recs, Live, NulFree, Named, TrueSize;
    TrueSizeIs(|name|);
    var b1 := SetSize(seq(4096, _ => 0), 0, 4096);
    b := Fill(b1, 0, child, kind, name);
    NamedRec(b1, b, 0, child, kind, name);
    OneRecord(b, 0);
  }

  /** The block make_dir starts a directory with: one unused record. */
  method FreshBlock() returns (b: Block)
    ensures Tiled(b) && BlockEntries(b) == [] && Recs(b, 0, 4096) == [Rec(0, 4096, 0, [])]
  {
    hide Chain, Recs, Live;
    b := SetSize(seq(4096, _ => 0), 0, 4096);
    assert InodeAt(b, 0) == 0 by { assert b[0..4] == [0, 0, 0, 0]; }
    assert b[8..8] == [];
    OneRecord(b, 0);
  }

  /** The first block of a directory in bytes: "." takes twelve of them, and ".." the rest. */
  method DotBlock(n: nat, parent: nat, kind: byte) returns (b: Block)
    requires 0 < n && IsWord(n) && 0 < parent && IsWord(parent)
    ensures Tiled(b) && Recs(b, 0, 4096) == [Rec(n, 12, kind, [46]), Rec(parent, 4084, kind, [46, 46])]
  {
    hide Chain, Recs, Live, BlockEntries, NulFree, Added, Placed, NoSlack;
    PlainDots();
    b := FreshBlock();
    ghost var rs := Recs(b, 0, 4096);
    var ok;
    ok, b := InsertInBlock(b, [46], n, kind);
    OnlyRecord(rs[0], Recs(b, 0, 4096), Entry([46], n, kind), ok, 8);
    rs := Recs(b, 0, 4096);
    ok, b := InsertInBlock(b, [46, 46], parent, kind);
    OnlyRecord(rs[0], Recs(b, 0, 4096), Entry([46, 46], parent, kind), ok, 12);
  }

  lemma PlainDots()
    ensures NulFree([46]) && NulFree([46, 46])
  {
  }

  /** What an insert makes of a block with one large record. */
  lemma OnlyRecord(r: Rec, rs': seq<Rec>, e: Entry, ok: bool, own: nat)
    requires Takes(own, |r.name|) && own + 8 + |e.name| <= r.size
    requires if ok then Placed([r], rs', e) else NoSlack([r], |e.name|)
    ensures ok
    ensures rs' == if r.inode == 0 then [Rec(e.inode, r.size, e.kind, e.name)]
                   else [r.(size := own), Rec(e.inode, r.size - own, e.kind, e.name)]
  {
    var rs := [r];
    assert !Full(r, |e.name|) && rs[0] == r;
    assert rs[..0] == [] && rs[1..] == [];
  }

  // ----- removal

  /** The first record of a block marked unused. */
  lemma Unused(b: Block, b': Block)
    requires Tiled(b) && Fits(b, 0) && InodeAt(b', 0) == 0 && forall i :: 4 <= i < 4096 ==> b'[i] == b[i]
    ensures Tiled(b') && BlockEntries(b') == Live(Recs(b, SizeAt(b, 0), 4096)) && Chain(b, SizeAt(b, 0), 4096)
  {
    hide Chain, Recs, Live, BlockEntries, NulFree, TrueSize, LenAt, Word2, Word4;
    var q := SizeAt(b, 0);
    NoRecords(b);
    NoRecords(b');
    StepOver(b, 0);
    FitsMeans(b, 0);
    Retargeted(b, b', 0, 0);
    OneRecord(b', 0);
    ChainFrame(b, b', q, 4096);
    EntriesAt(b', 0, q);
  }

  lemma NoRecords(b: Block)
    ensures Chain(b, 0, 0) && Recs(b, 0, 0) == [] && Live(Recs(b, 0, 0)) == []
  {
  }

  /** A record given the bytes of the one behind it. */
  lemma Absorbed(b: Block, b': Block, p: nat, c: nat)
    requires Chain(b, 0, p) && Fits(b, p) && Proper(RecAt(b, p)) && c == p + SizeAt(b, p) && Fits(b, c) && Proper(RecAt(b, c))
    requires Chain(b, c + SizeAt(b, c), 4096)
    requires SizeAt(b', p) == SizeAt(b, p) + SizeAt(b, c) && forall i :: 0 <= i < 4096 && i != p + 4 && i != p + 5 ==> b'[i] == b[i]
    ensures Tiled(b') && BlockEntries(b') == Live(Recs(b, 0, p)) + Live([RecAt(b, p)]) + Live(Recs(b, c + SizeAt(b, c), 4096))
  {
    hide Chain, Recs, Live, BlockEntries, Tiled, TrueSize, LenAt, Word2, Word4;
    var q := c + SizeAt(b, c);
    FitsMeans(b, p);
    FitsMeans(b, c);
    TrueSizeIs(LenAt(b, p));
    HeadKept(b, b', p, q - p);
    OneRecord(b, p);
    OneRecord(b', p);
    ChainFrame(b, b', 0, p);
    ChainFrame(b, b', q, 4096);
    EntriesAt(b', p, q);
  }

  /** The walk of dir_remove, which also remembers the record before the current one. */
  ghost predicate RemoveAt(b: Block, prev: nat, c: nat, name: Name) {
    && WalkAt(b, c, name)
    && (c > 0 ==> prev < c && Fits(b, prev) && Proper(RecAt(b, prev)) && prev + SizeAt(b, prev) == c && Chain(b, 0, prev)
                  && Live(Recs(b, 0, c)) == Live(Recs(b, 0, prev)) + Live([RecAt(b, prev)]))
  }

  lemma RemoveNext(b: Block, prev: nat, c: nat, name: Name)
    requires RemoveAt(b, prev, c, name) && c < 4096 && Fits(b, c) && (InodeAt(b, c) == 0 || RecAt(b, c).name != name)
    ensures RemoveAt(b, c, c + SizeAt(b, c), name)
  {
    hide Chain, Recs, Live, Absent, SizeAt, InodeAt, LenAt, RecAt;
    StepOver(b, c);
    WalkNext(b, c, name);
    FitsMeans(b, c);
  }

  lemma RemoveHere(b: Block, prev: nat, c: nat, name: Name)
    requires RemoveAt(b, prev, c, name) && c < 4096
    ensures WalkAt(b, c, name) && Fits(b, c) && Proper(RecAt(b, c)) && Chain(b, c + SizeAt(b, c), 4096) && Tiled(b)
    ensures c > 0 ==> Fits(b, prev) && SizeAt(b, prev) + SizeAt(b, c) <= 4096
  {
    WalkHere(b, c, name);
    ChainJoin(b, 0, c, 4096);
  }

  /** The record of that name is gone: the one before it has its bytes, and without one before it stays, unused. */
  ghost predicate Freed(rs: seq<Rec>, rs': seq<Rec>, name: Name) {
    exists k: nat :: k < |rs| && rs[k].inode != 0 && rs[k].name == name && FreedAt(rs, rs', k)
  }

  ghost predicate FreedAt(rs: seq<Rec>, rs': seq<Rec>, k: nat)
    requires k < |rs|
  {
    if k == 0 then rs' == [rs[0].(inode := 0)] + rs[1..]
    else rs' == rs[..k - 1] + [rs[k - 1].(size := rs[k - 1].size + rs[k].size)] + rs[k + 1..]
  }

  lemma FreedFirst(r: Rec, back: seq<Rec>)
    requires r.inode != 0
    ensures Freed([] + [r] + back, [] + [r.(inode := 0)] + back, r.name)
  {
    var rs, rs' := [] + [r] + back, [] + [r.(inode := 0)] + back;
    assert rs[1..] == back && rs[0] == r;
    assert FreedAt(rs, rs', 0);
  }

  lemma FreedBehind(front: seq<Rec>, p: Rec, r: Rec, back: seq<Rec>)
    requires r.inode != 0
    ensures Freed(front + ([p] + [r]) + back, front + [p.(size := p.size + r.size)] + back, r.name)
  {
    var rs, k := front + ([p] + [r]) + back, |front| + 1;
    assert rs[..k - 1] == front && rs[k + 1..] == back && rs[k - 1] == p && rs[k] == r;
    assert FreedAt(rs, front + [p.(size := p.size + r.size)] + back, k);
  }

  /** What a removal frees takes any name that is no longer than the one removed. */
  lemma FreedRoom(b: Block, rs': seq<Rec>, name: Name, len: nat)
    requires Tiled(b) && Freed(Recs(b, 0, 4096), rs', name) && len <= |name|
    ensures !NoSlack(rs', len)
  {
    hide Chain, Recs, Proper;
    var rs := Recs(b, 0, 4096);
    var k: nat :| k < |rs| && rs[k].inode != 0 && rs[k].name == name && FreedAt(rs, rs', k);
    RecHolds(b, 0, 4096, k);
    if k == 0 {
      assert !Full(rs'[0], len);
    } else {
      RecHolds(b, 0, 4096, k - 1);
      var own := TrueSize(|rs[k - 1].name|);
      TrueSizeIs(|rs[k - 1].name|);
      assert Takes(own, |rs'[k - 1].name|) && own + 8 + len <= rs'[k - 1].size;
      assert !Full(rs'[k - 1], len);
    }
  }

  /** A record is large enough for its name. */
  lemma {:induction false} RecHolds(b: Block, p: nat, q: nat, k: nat)
    requires Chain(b, p, q) && k < |Recs(b, p, q)|
    ensures var r := Recs(b, p, q)[k]; 8 + |r.name| <= TrueSize(|r.name|) <= r.size
    decreases q - p
  {
    hide TrueSize;
    TrueSizeIs(LenAt(b, p));
    if k > 0 { RecHolds(b, p + SizeAt(b, p), q, k - 1); }
  }

  /** A name removed makes room for another one in the same block. */
  method Reuse(b: Block, name: Name, other: Name, child: nat, kind: byte) returns (removed: nat, ok: bool, b': Block)
    requires Tiled(b) && NulFree(name) && NulFree(other) && 0 < |other| < 256 && 0 < child && IsWord(child)
    ensures removed == Seen(BlockEntries(b), name)
    ensures removed != 0 && |other| <= |name| ==> ok && Added(Without(BlockEntries(b), name), Entry(other, child, kind), BlockEntries(b'))
  {
    hide Chain, Recs, Freed, Find, Without, Added, NoSlack, Placed, BlockEntries, NulFree;
    var b1;
    removed, b1 := RemoveInBlock(b, name);
    ok, b' := InsertInBlock(b1, other, child, kind);
    if removed != 0 && |other| <= |name| { FreedRoom(b, Recs(b1, 0, 4096), name, |other|); }
  }

  /** The scan of one block in dir_remove. */
  method RemoveInBlock(b: Block, name: Name) returns (removed: nat, b': Block)
    requires Tiled(b) && NulFree(name)
    ensures Tiled(b') && removed == Seen(BlockEntries(b), name)
    ensures BlockEntries(b') == if removed != 0 then Without(BlockEntries(b), name) else BlockEntries(b)
    ensures removed == 0 ==> b' == b
    ensures removed != 0 ==> Freed(Recs(b, 0, 4096), Recs(b', 0, 4096), name)
  {
    hide Chain, Recs, Live, Find, Without, Absent, BlockEntries, RecAt, NulFree, TrueSize, SizeAt, LenAt, InodeAt, RemoveAt, Freed;
    b' := b;
    ghost var key := Key(name);
    RemoveStart(b, key);
    var cursor: nat, prev: nat := 0, 0;
    while cursor < 4096
      invariant cursor <= 4096 && RemoveAt(b, prev, cursor, key) && b' == b
      decreases 4096 - cursor
    {
      RemoveHere(b, prev, cursor, key);
      FitsMeans(b, cursor);
      if SizeAt(b, cursor) < 8 || TrueSize(LenAt(b, cursor)) > SizeAt(b, cursor) || cursor + SizeAt(b, cursor) > 4096 {
        assert false;   // never in a tiled block
      }
      var same := CompName(RecAt(b, cursor).name, name);
      if InodeAt(b, cursor) != 0 { Compared(b, cursor, name); }
      if InodeAt(b, cursor) != 0 && same {
        removed := InodeAt(b, cursor);
        WalkFound(b, cursor, key);
        if cursor == 0 {
          b' := SetInodeField(b, 0, 0);
          RemovedFirst(b, b', key);
        } else {
          FitsMeans(b, prev);
          b' := SetSize(b, prev, SizeAt(b, prev) + SizeAt(b, cursor));
          RemovedBehind(b, b', prev, cursor, key);
        }
        return;
      }
      RemoveNext(b, prev, cursor, key);
      prev := cursor;
      cursor := cursor + SizeAt(b, cursor);
    }
    RemoveEnd(b, prev, key);
    removed := 0;
  }

  lemma RemoveStart(b: Block, name: Name)
    requires Tiled(b)
    ensures RemoveAt(b, 0, 0, name)
  {
  }

  lemma RemoveEnd(b: Block, prev: nat, name: Name)
    requires RemoveAt(b, prev, 4096, name)
    ensures Find(BlockEntries(b), name) == 0
  {
    WalkEnd(b, name);
  }

  lemma RemovedFirst(b: Block, b': Block, name: Name)
    requires Tiled(b) && Fits(b, 0) && InodeAt(b, 0) != 0 && RecAt(b, 0).name == name && InodeAt(b', 0) == 0 && forall i :: 4 <= i < 4096 ==> b'[i] == b[i]
    ensures Tiled(b') && Chain(b, SizeAt(b, 0), 4096) && BlockEntries(b') == Live(Recs(b, 0, 0)) + Live(Recs(b, SizeAt(b, 0), 4096))
    ensures Freed(Recs(b, 0, 4096), Recs(b', 0, 4096), name)
  {
    hide Chain, Recs, Live, BlockEntries, NulFree, TrueSize, LenAt, Word2, Word4, Freed;
    Unused(b, b');
    NoRecords(b);
    StepOver(b, 0);
    FitsMeans(b, 0);
    Retargeted(b, b', 0, 0);
    OneRecord(b', 0);
    RecsSpliced(b, b', 0, SizeAt(b, 0));
    FreedFirst(RecAt(b, 0), Recs(b, SizeAt(b, 0), 4096));
    assert [] + Live(Recs(b, SizeAt(b, 0), 4096)) == Live(Recs(b, SizeAt(b, 0), 4096));
  }

  lemma RemovedBehind(b: Block, b': Block, prev: nat, c: nat, name: Name)
    requires RemoveAt(b, prev, c, name) && 0 < c < 4096 && Fits(b, prev) && Fits(b, c) && InodeAt(b, c) != 0 && RecAt(b, c).name == name && Proper(RecAt(b, c)) && Chain(b, c + SizeAt(b, c), 4096)
    requires SizeAt(b', prev) == SizeAt(b, prev) + SizeAt(b, c) && forall i :: 0 <= i < 4096 && i != prev + 4 && i != prev + 5 ==> b'[i] == b[i]
    ensures Tiled(b') && Chain(b, 0, c) && BlockEntries(b') == Live(Recs(b, 0, c)) + Live(Recs(b, c + SizeAt(b, c), 4096))
    ensures Tiled(b) && Freed(Recs(b, 0, 4096), Recs(b', 0, 4096), name)
  {
    hide Chain, Recs, Live, BlockEntries, Absent, Freed, TrueSize, LenAt, NulFree, SizeAt, InodeAt;
    Absorbed(b, b', prev, c);
    var q := c + SizeAt(b, c);
    FitsMeans(b, prev);
    FitsMeans(b, c);
    TrueSizeIs(LenAt(b, prev));
    HeadKept(b, b', prev, q - prev);
    OneRecord(b, prev);
    OneRecord(b, c);
    OneRecord(b', prev);
    ChainJoin(b, prev, c, q);
    RecsSpliced(b, b', prev, q);
    FreedBehind(Recs(b, 0, prev), RecAt(b, prev), RecAt(b, c), Recs(b, q, 4096));
  }

  // ----- the two names every directory has

  const DOT: Name := [46]
  const DOTDOT: Name := [46, 46]

  /** Only "." and ".." are left. */
  predicate OnlyDots(es: seq<Entry>) {
    forall i :: 0 <= i < |es| ==> es[i].name == DOT || es[i].name == DOTDOT
  }

  ghost predicate DotsTo(b: Block, c: nat) {
    c <= 4096 && Chain(b, 0, c) && Chain(b, c, 4096) && OnlyDots(Live(Recs(b, 0, c)))
  }

  lemma DotsNext(b: Block, c: nat)
    requires DotsTo(b, c) && c < 4096 && Fits(b, c)
    requires InodeAt(b, c) == 0 || RecAt(b, c).name == DOT || RecAt(b, c).name == DOTDOT
    ensures DotsTo(b, c + SizeAt(b, c))
  {
    hide Chain, Recs, Live, SizeAt;
    StepOver(b, c);
    OneRecord(b, c);
  }

  lemma DotsNot(b: Block, c: nat)
    requires DotsTo(b, c) && c < 4096 && Fits(b, c) && InodeAt(b, c) != 0 && RecAt(b, c).name != DOT && RecAt(b, c).name != DOTDOT
    ensures !OnlyDots(BlockEntries(b))
  {
    OneRecord(b, c);
    EntriesAt(b, c, c + SizeAt(b, c));
    assert BlockEntries(b)[|Live(Recs(b, 0, c))|].name == RecAt(b, c).name;
  }

  /** The scan of one block in dir_is_empty. */
  method OnlyDotsInBlock(b: Block) returns (empty: bool)
    requires Tiled(b)
    ensures empty <==> OnlyDots(BlockEntries(b))
  {
    hide Chain, Recs, Live, BlockEntries, RecAt, TrueSize, SizeAt, LenAt, InodeAt, OnlyDots, Fits;
    DotsStart(b);
    var cursor := 0;
    while cursor < 4096
      invariant DotsTo(b, cursor)
      decreases 4096 - cursor
    {
      DotsHere(b, cursor);
      FitsMeans(b, cursor);
      if SizeAt(b, cursor) < 8 || TrueSize(LenAt(b, cursor)) > SizeAt(b, cursor) || cursor + SizeAt(b, cursor) > 4096 {
        assert false;   // never in a tiled block
      }
      var dot := CompName(RecAt(b, cursor).name, DOT);
      var dotdot := CompName(RecAt(b, cursor).name, DOTDOT);
      if InodeAt(b, cursor) != 0 && !dot && !dotdot {
        DotsNot(b, cursor);
        return false;
      }
      DotsNext(b, cursor);
      cursor := cursor + SizeAt(b, cursor);
    }
    DotsEnd(b);
    return true;
  }

  lemma DotsStart(b: Block)
    requires Tiled(b)
    ensures DotsTo(b, 0)
  {
  }

  lemma DotsHere(b: Block, c: nat)
    requires DotsTo(b, c) && c < 4096
    ensures Fits(b, c) && Proper(RecAt(b, c))
  {
  }

  lemma DotsEnd(b: Block)
    requires DotsTo(b, 4096)
    ensures OnlyDots(BlockEntries(b))
  {
  }

  /** The entries with the first one of that name pointing to another inode. */
  function Redirected(es: seq<Entry>, name: Name, n: nat): seq<Entry> {
    if es == [] then [] else if es[0].name == name then [es[0].(inode := n)] + es[1..] else [es[0]] + Redirected(es[1..], name, n)
  }

  lemma {:induction false} RedirectSkips(a: seq<Entry>, b: seq<Entry>, name: Name, n: nat)
    requires Absent(a, name)
    ensures Redirected(a + b, name, n) == a + Redirected(b, name, n)
  {
    if a == [] {
      assert a + b == b && a + Redirected(b, name, n) == Redirected(b, name, n);
    } else {
      assert (a + b)[1..] == a[1..] + b;
      RedirectSkips(a[1..], b, name, n);
      assert [a[0]] + (a[1..] + Redirected(b, name, n)) == a + Redirected(b, name, n);
    }
  }

  lemma Redirect(b: Block, b': Block, c: nat, name: Name, n: nat)
    requires WalkAt(b, c, name) && c < 4096 && Fits(b, c) && InodeAt(b, c) != 0 && RecAt(b, c).name == name && n != 0
    requires InodeAt(b', c) == n && forall i :: 0 <= i < 4096 && !(c <= i < c + 4) ==> b'[i] == b[i]
    ensures Tiled(b') && BlockEntries(b') == Redirected(BlockEntries(b), name, n)
  {
    hide Chain, Recs, Live, Absent, TrueSize, SizeAt, LenAt, BlockEntries, Tiled, NulFree;
    var q := c + SizeAt(b, c);
    WalkHere(b, c, name);
    FitsMeans(b, c);
    Retargeted(b, b', c, n);
    OneRecord(b, c);
    OneRecord(b', c);
    Spliced(b, b', c, q);
    var a, e, z := Live(Recs(b, 0, c)), Live([RecAt(b, c)]), Live(Recs(b, q, 4096));
    assert a + e + z == a + (e + z);
    RedirectSkips(a, e + z, name, n);
    assert (e + z)[1..] == z;
    assert a + Live([RecAt(b', c)]) + z == a + (Live([RecAt(b', c)]) + z);
  }

  /** The scan of one block in dir_set_parent_entry. */
  method RedirectInBlock(b: Block, name: Name, n: nat) returns (found: bool, b': Block)
    requires Tiled(b) && NulFree(name) && 0 < n && IsWord(n)
    ensures found <==> Seen(BlockEntries(b), name) != 0
    ensures found ==> Tiled(b') && BlockEntries(b') == Redirected(BlockEntries(b), name, n)
    ensures !found ==> b' == b
  {
    hide Chain, Recs, Live, Find, Absent, BlockEntries, Tiled, RecAt, NulFree, TrueSize, SizeAt, LenAt, InodeAt, Redirected;
    b' := b;
    ghost var key := Key(name);
    WalkStart(b, key);
    var cursor := 0;
    while cursor < 4096
      invariant WalkAt(b, cursor, key) && b' == b
      decreases 4096 - cursor
    {
      WalkHere(b, cursor, key);
      FitsMeans(b, cursor);
      if SizeAt(b, cursor) < 8 || TrueSize(LenAt(b, cursor)) > SizeAt(b, cursor) || cursor + SizeAt(b, cursor) > 4096 {
        assert false;   // never in a tiled block
      }
      var same := CompName(RecAt(b, cursor).name, name);
      if InodeAt(b, cursor) != 0 { Compared(b, cursor, name); }
      if InodeAt(b, cursor) != 0 && same {
        WalkFound(b, cursor, key);
        b' := SetInodeField(b, cursor, n);
        Redirect(b, b', cursor, name, n);
        return true, b';
      }
      WalkNext(b, cursor, key);
      cursor := cursor + SizeAt(b, cursor);
    }
    WalkEnd(b, key);
    found := false;
  }

  /** Inserting a name and removing it again restores the entries of a block exactly if the name is ASCII. */
  method InsertAndRemove(b: Block, name: Name, child: nat, kind: byte) returns (ok: bool, b': Block)
    requires Tiled(b) && NulFree(name) && 0 < |name| < 256 && 0 < child && IsWord(child) && Absent(BlockEntries(b), name)
    ensures Tiled(b') && (!ok ==> b' == b)
    ensures ok ==> (BlockEntries(b') == BlockEntries(b) <==> Ascii(name))
  {
    hide BlockEntries, Tiled, NulFree, Absent, Added, Find, Without, Ascii, NoSlack;
    ok, b' := InsertInBlock(b, name, child, kind);
    if !ok { return; }
    ghost var es, e, es' := BlockEntries(b), Entry(name, child, kind), BlockEntries(b');
    AddedLonger(es, e, es');
    RemoveUndoesInsert(es, e, es');
    var removed;
    removed, b' := RemoveInBlock(b', name);
  }

  lemma AddedLonger(es: seq<Entry>, e: Entry, es': seq<Entry>)
    requires Added(es, e, es')
    ensures |es'| == |es| + 1
  {
  }
}
