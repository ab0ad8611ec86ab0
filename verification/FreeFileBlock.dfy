/** map_file_block in FREE mode: unlinking one file block and every pointer block that empties. */
module FreeFileBlock {
  import opened Blocks
  import opened BlockTree
  import opened Bitmaps
  import opened Volumes
  import opened MapFileBlock

  /** Position k emptied, its entry in the parent cleared; a pointer block's own block is given back. */
  ghost function Drop(s: Snap, k: Key): (s': Snap)
    requires Sound(s) && k in s.t
    ensures |s'.disk| == |s.disk|
  {
    var parent := if k.Sub? then s.t[k.parent] else 0;
    Snap(
      if k.Sub? then s.disk[parent := PtrBlock(Ptrs(s.disk[parent])[k.j := 0])] else s.disk,
      if Height(k) == 0 then s.used else s.used - {s.t[k]},
      if Height(k) == 0 then s.free else s.free + 1,
      if k.Root? then s.ptr[k.slot := 0] else s.ptr,
      s.t - {k},
      s.cnt + 1)
  }

  lemma DropSound(s: Snap, k: Key)
    requires Sound(s) && k in s.t && !HasChild(s.t, k)
    ensures Sound(Drop(s, k))
  {
    var s' := Drop(s, k);
    forall x | x in s.t && x != k && (k.Sub? ==> x != k.parent) ensures s'.disk[s.t[x]] == s.disk[s.t[x]] {
      assert k.Sub? ==> s.t[x] != s.t[k.parent];
    }
    Prune(s.disk, s.ptr, s.t, k, s'.disk, s'.ptr);
  }

  /** s' is s without data position k and without some pointer blocks on the way to k. */
  ghost predicate Shrank(s: Snap, s': Snap, k: Key) {
    && Sound(s') && Extends(s.t, s'.t) && k in s.t && k !in s'.t
    && (forall x :: x in s.t && x !in s'.t ==> OnPath(x, k))
    && s'.used <= s.used && s.t[k] in s'.used
    && (forall x :: x in s.t && x !in s'.t && x != k ==> s.t[x] !in s'.used)
    && (forall b :: b in s.used && b !in s'.used ==> exists x :: x in s.t && x !in s'.t && s.t[x] == b)
    && s'.cnt - s.cnt == |s.t| - |s'.t| == s'.free - s.free + 1
    && DataKept(s, s')
  }

  /** What a drop leaves alone. */
  lemma DropFrame(s: Snap, k: Key)
    requires Sound(s) && k in s.t
    ensures |Drop(s, k).t| == |s.t| - 1 && DataKept(s, Drop(s, k))
  {
    var s' := Drop(s, k);
    assert s'.t.Keys == s.t.Keys - {k};
    forall b | b in s.used && b < |s.disk| && s'.disk[b] != s.disk[b] ensures b in PtrBlocks(s.t) {
      assert k.Sub? && b == s.t[k.parent];
    }
  }

  lemma DataHasNoChild(s: Snap, k: Key)
    requires Sound(s) && Height(k) == 0
    ensures !HasChild(s.t, k)
  {
    forall j: nat ensures Sub(k, j) !in s.t {
      if Sub(k, j) in s.t { HeightBound(Sub(k, j)); }
    }
  }

  lemma ShrankFirst(s: Snap, k: Key)
    requires Sound(s) && k in s.t && Height(k) == 0
    ensures Shrank(s, Drop(s, k), k)
  {
    hide TreeShape, DataKept, Ptrs;
    DataHasNoChild(s, k);
    DropSound(s, k);
    DropFrame(s, k);
  }

  lemma DataKeptTwice(s: Snap, s': Snap, s'': Snap)
    requires Extends(s.t, s'.t) && s'.used <= s.used && DataKept(s, s') && DataKept(s', s'')
    requires forall b :: b in s.used && b !in s'.used ==> b in PtrBlocks(s.t)
    ensures DataKept(s, s'')
  {
    forall b | b in s.used && b < |s.disk| && s''.disk[b] != s.disk[b] ensures b in PtrBlocks(s.t) {
      if s'.disk[b] == s.disk[b] && b in s'.used {
        var x :| x in s'.t && Height(x) > 0 && s'.t[x] == b;
        assert x in s.t && s.t[x] == b;
      }
    }
  }

  lemma OnPathHigher(x: Key, k: Key)
    requires OnPath(x, k) && x != k
    ensures Height(x) > Height(k)
  {
    NotOnOwnPath(k.parent, x);
  }

  lemma ShrankMore(s: Snap, s': Snap, k: Key, x: Key)
    requires Sound(s) && Shrank(s, s', k) && OnPath(x, k) && x in s'.t && Height(x) > 0 && !HasChild(s'.t, x) && Height(k) == 0
    ensures Shrank(s, Drop(s', x), k)
  {
    hide TreeShape, DataKept, Ptrs;
    DropSound(s', x);
    DropFrame(s', x);
    var s'' := Drop(s', x);
    forall b | b in s.used && b !in s'.used ensures b in PtrBlocks(s.t) {
      var y :| y in s.t && y !in s'.t && s.t[y] == b;
      OnPathHigher(y, k);
    }
    DataKeptTwice(s, s', s'');
    forall b | b in s.used && b !in s''.used ensures exists y :: y in s.t && y !in s''.t && s.t[y] == b {
      if b in s'.used {
        assert s.t[x] == b;
      } else {
        var y :| y in s.t && y !in s'.t && s.t[y] == b;
        assert y !in s''.t;
      }
    }
    Distinct(s, x, k);
  }

  /** The real device may differ from the imagined one in blocks that no longer belong to the tree. */
  lemma ShrankReal(s: Snap, v: Snap, k: Key, e: Snap)
    requires Sound(s) && Shrank(s, v, k) && e == v.(disk := e.disk) && |e.disk| == |s.disk|
    requires forall x :: x in v.t && Height(x) > 0 ==> Ptrs(e.disk[v.t[x]]) == Ptrs(v.disk[v.t[x]])
    requires DataKept(s, e)
    ensures Shrank(s, e, k)
  {
    ShapeFrame(v.disk, v.ptr, v.t, e.disk);
  }

  /** After dropping x and stopping, no pointer block is empty. */
  lemma {:induction false} ShrankNoEmpty(s: Snap, s': Snap, k: Key, x: Key)
    requires Shrank(s, s', k) && NoEmpty(s.t) && ValidKey(k) && Height(k) == 0
    requires OnPath(x, k) && x !in s'.t && (x.Sub? ==> x.parent in s'.t && HasChild(s'.t, x.parent))
    ensures NoEmpty(s'.t)
  {
    forall y | y in s'.t && Height(y) > 0 ensures HasChild(s'.t, y) {
      if x.Root? || y != x.parent {
        assert HasChild(s.t, y);
        var j :| 0 <= j < 1024 && Sub(y, j) in s.t;
        if Sub(y, j) !in s'.t {
          SamePath(Sub(y, j), x, k);
          if OnPath(x, Sub(y, j)) {
            // x lies at or above a child of y, so x is that child or at or above y
            if x != Sub(y, j) { PathOccupied(s'.t, |s'.disk|, x, y); }
          } else {
            PathOccupied(s'.t, |s'.disk|, Sub(y, j), x.parent);
          }
        }
      }
    }
  }

  /** Two positions on one path are comparable. */
  lemma {:induction false} SamePath(a: Key, b: Key, k: Key)
    requires OnPath(a, k) && OnPath(b, k)
    ensures OnPath(a, b) || OnPath(b, a)
  {
    if a != k && b != k { SamePath(a, b, k.parent); }
  }

  /** The drops from data position k up to x, seen as a state: the last entry cleared is x's. */
  ghost predicate Dropping(s: Snap, v: Snap, k: Key, x: Key) {
    && Sound(s) && Shrank(s, v, k) && Height(k) == 0 && OnPath(x, k) && x in s.t && x !in v.t
    && v.ptr == (if x.Root? && x.slot < |s.ptr| then s.ptr[x.slot := 0] else s.ptr)
    && (x.Sub? ==> x.parent in v.t && Ptrs(v.disk[v.t[x.parent]]) == Ptrs(s.disk[s.t[x.parent]])[x.j := 0])
    && (forall y :: y in v.t && Height(y) > 0 && (x.Sub? ==> y != x.parent) ==> v.disk[v.t[y]] == s.disk[v.t[y]])
  }

  lemma DroppingFirst(s: Snap, k: Key)
    requires Sound(s) && k in s.t && Height(k) == 0
    ensures Dropping(s, Drop(s, k), k, k)
  {
    ShrankFirst(s, k);
    forall y | y in s.t && k.Sub? && y != k.parent ensures s.t[y] != s.t[k.parent] {}
  }

  lemma ScanMeans(v: Snap, k: Key)
    requires Sound(v) && k in v.t && Height(k) > 0
    ensures HasChild(v.t, k) <==> !AllZero(Ptrs(v.disk[v.t[k]]))
  {
    assert NodeStored(v.disk, v.t, k);
    forall j | 0 <= j < 1024 ensures Sub(k, j) in v.t <==> Ptrs(v.disk[v.t[k]])[j] != 0 {
      assert Sub(k, j) in v.t ==> v.t[Sub(k, j)] > 0;
    }
  }

  /** An emptied pointer block is dropped too. */
  lemma DroppingMore(s: Snap, v: Snap, k: Key, x: Key)
    requires Dropping(s, v, k, x) && x.Sub? && AllZero(Ptrs(s.disk[s.t[x.parent]])[x.j := 0])
    ensures Sound(v) && x.parent in v.t && v.t[x.parent] == s.t[x.parent]
    ensures Dropping(s, Drop(v, x.parent), k, x.parent)
  {
    var p := x.parent;
    ParentHeight(s, x);
    ScanMeans(v, p);
    PathUp(p, x, k);
    ShrankMore(s, v, k, p);
    DroppedFrame(s, v, k, x);
  }

  lemma ParentHeight(s: Snap, x: Key)
    requires Sound(s) && x in s.t && x.Sub?
    ensures Height(x.parent) > 0 && ValidKey(x) && x.parent in s.t
  {
  }

  lemma {:induction false} PathUp(p: Key, x: Key, k: Key)
    requires OnPath(x, k) && x.Sub? && x.parent == p
    ensures OnPath(p, k)
  {
    if x != k { PathUp(p, x, k.parent); }
  }

  lemma DroppedFrame(s: Snap, v: Snap, k: Key, x: Key)
    requires Dropping(s, v, k, x) && x.Sub?
    ensures var v' := Drop(v, x.parent);
            && (x.parent.Sub? ==> x.parent.parent in v'.t && Ptrs(v'.disk[v'.t[x.parent.parent]]) == Ptrs(s.disk[s.t[x.parent.parent]])[x.parent.j := 0])
            && (forall y :: y in v'.t && Height(y) > 0 && (x.parent.Sub? ==> y != x.parent.parent) ==> v'.disk[v'.t[y]] == s.disk[v'.t[y]])
  {
    hide Shrank;
    var p := x.parent;
    ShrankSound(s, v, k);
    if p.Sub? {
      ParentHeight(v, p);
      assert Height(p) == Height(p.parent) - 1;
      var q := p.parent;
      assert q in v.t && v.disk[v.t[q]] == s.disk[v.t[q]];
      forall y | y in v.t && y != p.parent ensures v.t[y] != v.t[p.parent] { Distinct(v, y, p.parent); }
      ShrankSame(s, v, k, p.parent);
    }
  }

  lemma ShrankSound(s: Snap, v: Snap, k: Key)
    requires Shrank(s, v, k)
    ensures Sound(v) && |v.disk| == |s.disk|
  {
  }

  lemma ShrankSame(s: Snap, v: Snap, k: Key, y: Key)
    requires Shrank(s, v, k) && y in v.t
    ensures y in s.t && s.t[y] == v.t[y]
  {
  }

  /** FREE mode succeeded for data position k: the caller still has to free the data block `out`. */
  ghost predicate Freed(s: Snap, s': Snap, k: Key, out: nat) {
    Shrank(s, s', k) && NoEmpty(s'.t) && out == s.t[k]
  }

  /** The drops stopped at x, and the device holds x's parent with its entry cleared. */
  lemma DroppingDone(s: Snap, v: Snap, k: Key, x: Key, e: Snap)
    requires Dropping(s, v, k, x) && NoEmpty(s.t) && e == v.(disk := e.disk) && |e.disk| == |s.disk|
    requires x.Root? ==> e.disk == s.disk
    requires x.Sub? ==> Ptrs(e.disk[s.t[x.parent]]) == Ptrs(s.disk[s.t[x.parent]])[x.j := 0] && !AllZero(Ptrs(e.disk[s.t[x.parent]]))
    requires x.Sub? ==> forall b :: 0 <= b < |s.disk| && b != s.t[x.parent] ==> e.disk[b] == s.disk[b]
    ensures Freed(s, e, k, s.t[k])
  {
    DoneFrame(s, v, k, x, e);
    ShrankReal(s, v, k, e);
    if x.Sub? {
      ParentHeight(s, x);
      ScanMeans(v, x.parent);
    }
    ValidHere(s, k);
    ShrankNoEmpty(s, e, k, x);
  }

  lemma ValidHere(s: Snap, k: Key)
    requires Sound(s) && k in s.t
    ensures ValidKey(k) && 0 < s.t[k] < |s.disk| && s.t[k] in s.used
  {
  }

  lemma DoneFrame(s: Snap, v: Snap, k: Key, x: Key, e: Snap)
    requires Dropping(s, v, k, x) && |e.disk| == |s.disk|
    requires x.Root? ==> e.disk == s.disk
    requires x.Sub? ==> Ptrs(e.disk[s.t[x.parent]]) == Ptrs(s.disk[s.t[x.parent]])[x.j := 0]
    requires x.Sub? ==> forall b :: 0 <= b < |s.disk| && b != s.t[x.parent] ==> e.disk[b] == s.disk[b]
    ensures forall y :: y in v.t && Height(y) > 0 ==> Ptrs(e.disk[v.t[y]]) == Ptrs(v.disk[v.t[y]])
    ensures DataKept(s, e)
  {
    if x.Sub? {
      ParentHeight(s, x);
      assert s.t[x.parent] in PtrBlocks(s.t);
    }
    forall y | y in v.t && Height(y) > 0 ensures Ptrs(e.disk[v.t[y]]) == Ptrs(v.disk[v.t[y]]) {
      if x.Root? || y != x.parent {
        if x.Sub? { Distinct(s, y, x.parent); }
        assert v.disk[v.t[y]] == s.disk[v.t[y]];
      }
    }
  }

  /** The "elements_inside" loop. */
  method AnyNonzero(words: seq<nat>) returns (any: bool)
    ensures any <==> !AllZero(words)
  {
    any := false;
    for i := 0 to |words|
      invariant !any && forall j :: 0 <= j < i ==> words[j] == 0
    {
      if words[i] != 0 {
        return true;
      }
    }
  }

  /** File blocks 0 to 11, FREE mode. */
  method FreeDirect(fs: Volume, ptr: seq<nat>, i: nat, cnt: int, ghost t: Tree)
    returns (st: Status, out: nat, ptr': seq<nat>, cnt': int, ghost t': Tree)
    requires fs.BlocksReady() && Sound(Now(fs, ptr, t, cnt)) && NoEmpty(t) && i < 12
    modifies fs`disk, fs.blocks
    ensures fs.BlocksReady() && st != BlockError
    ensures st == Empty ==> Now(fs, ptr', t', cnt') == old(Now(fs, ptr, t, cnt)) && Path(i) !in t
    ensures st == Mapped ==> Path(i) in t && Freed(old(Now(fs, ptr, t, cnt)), Now(fs, ptr', t', cnt'), Path(i), out)
  {
    hide Sound, TreeShape, Shrank, Freed, Dropping, NoEmpty, Ptrs, Volume.BlocksReady;
    ghost var s := Now(fs, ptr, t, cnt);
    RootAt(s, i);
    if ptr[i] == 0 {
      return Empty, 0, ptr, cnt, t;
    }
    DroppingFirst(s, Root(i));
    st, out, ptr', cnt', t' := Mapped, ptr[i], ptr[i := 0], cnt + 1, Drop(s, Root(i)).t;
    DroppingDone(s, Drop(s, Root(i)), Root(i), Root(i), Now(fs, ptr', t', cnt'));
  }

  /** File blocks 12 to 1035, FREE mode. */
  method FreeSingly(fs: Volume, ptr: seq<nat>, i: nat, cnt: int, ghost t: Tree)
    returns (st: Status, out: nat, ptr': seq<nat>, cnt': int, ghost t': Tree)
    requires fs.BlocksReady() && Sound(Now(fs, ptr, t, cnt)) && NoEmpty(t) && 12 <= i < 1036
    modifies fs`disk, fs.blocks
    ensures fs.BlocksReady() && st != BlockError
    ensures st == Empty ==> Now(fs, ptr', t', cnt') == old(Now(fs, ptr, t, cnt)) && Path(i) !in t
    ensures st == Mapped ==> Path(i) in t && Freed(old(Now(fs, ptr, t, cnt)), Now(fs, ptr', t', cnt'), Path(i), out)
  {
    hide Sound, TreeShape, Shrank, Freed, Dropping, NoEmpty, Ptrs, Volume.BlocksReady;
    var rel := i - 12;
    ghost var k1, k0 := Root(12), Sub(Root(12), rel);
    ghost var s := Now(fs, ptr, t, cnt);
    ptr', cnt', t' := ptr, cnt, t;
    RootAt(s, 12);
    if k0 in t { ParentIn(s, k0); }
    if ptr[12] == 0 {
      return Empty, 0, ptr, cnt, t;
    }
    EntryAt(s, k1, rel);
    var single := fs.ReadPtrs(ptr[12]);
    if single[rel] == 0 {
      return Empty, 0, ptr, cnt, t;
    }
    out := single[rel];
    DroppingFirst(s, k0);
    ghost var v := Drop(s, k0);
    single, cnt' := single[rel := 0], cnt + 1;
    var inside := AnyNonzero(single);
    if !inside {
      DroppingMore(s, v, k0, k0);
      v := Drop(v, k1);
      fs.FreeBlock(ptr[12]);
      ptr', cnt' := ptr[12 := 0], cnt' + 1;
      DroppingDone(s, v, k0, k1, Now(fs, ptr', v.t, cnt'));
    } else {
      fs.WritePtrs(ptr[12], single);
      DroppingDone(s, v, k0, k0, Now(fs, ptr', v.t, cnt'));
    }
    st, t' := Mapped, v.t;
  }

  /**
   * The pointer block under entry a of a double or triple root emptied: free it, and then either the root block too
   * or write the root block back.
   */
  method UnlinkUnderRoot(fs: Volume, ptr: seq<nat>, slot: nat, words: seq<nat>, a: nat, cnt: int,
                         ghost s: Snap, ghost v: Snap, ghost k: Key, ghost x: Key)
    returns (ptr': seq<nat>, cnt': int, ghost t': Tree)
    requires fs.BlocksReady() && 12 < slot < 15 && a < 1024 && x.Sub? && x.parent == Sub(Root(slot), a)
    requires Dropping(s, v, k, x) && NoEmpty(s.t) && AllZero(Ptrs(s.disk[s.t[x.parent]])[x.j := 0])
    requires Now(fs, ptr, v.t, cnt) == v.(disk := fs.disk) && fs.disk == s.disk
    requires Root(slot) in s.t && ptr == s.ptr && |ptr| == 15 && ptr[slot] == s.t[Root(slot)] < |fs.disk|
    requires words == Ptrs(s.disk[ptr[slot]]) && words[a] == s.t[x.parent]
    modifies fs`disk, fs.blocks
    ensures fs.BlocksReady() && Freed(s, Now(fs, ptr', t', cnt'), k, s.t[k])
  {
    hide Sound, TreeShape, Shrank, Freed, Dropping, NoEmpty, Ptrs, Volume.BlocksReady;
    ghost var k2, k1 := Root(slot), x.parent;
    DroppingMore(s, v, k, x);
    ValidHere(v, k1);
    ghost var v1 := Drop(v, k1);
    fs.FreeBlock(words[a]);
    var words', cnt1 := words[a := 0], cnt + 1;
    ptr', cnt', t' := ptr, cnt1, v1.t;
    var inside := AnyNonzero(words');
    if !inside {
      DroppingMore(s, v1, k, k1);
      ValidHere(v1, k2);
      ghost var v2 := Drop(v1, k2);
      fs.FreeBlock(ptr[slot]);
      ptr', cnt', t' := ptr[slot := 0], cnt1 + 1, v2.t;
      DroppingDone(s, v2, k, k2, Now(fs, ptr', t', cnt'));
    } else {
      fs.WritePtrs(ptr[slot], words');
      DroppingDone(s, v1, k, k1, Now(fs, ptr', t', cnt'));
    }
  }

  /** File blocks 1036 to 1049611, FREE mode. */
  method FreeDoubly(fs: Volume, ptr: seq<nat>, i: nat, cnt: int, ghost t: Tree)
    returns (st: Status, out: nat, ptr': seq<nat>, cnt': int, ghost t': Tree)
    requires fs.BlocksReady() && Sound(Now(fs, ptr, t, cnt)) && NoEmpty(t) && 1036 <= i < 1049612
    modifies fs`disk, fs.blocks
    ensures fs.BlocksReady() && st != BlockError
    ensures st == Empty ==> Now(fs, ptr', t', cnt') == old(Now(fs, ptr, t, cnt)) && Path(i) !in t
    ensures st == Mapped ==> Path(i) in t && Freed(old(Now(fs, ptr, t, cnt)), Now(fs, ptr', t', cnt'), Path(i), out)
  {
    hide Sound, TreeShape, Shrank, Freed, Dropping, NoEmpty, Ptrs, Volume.BlocksReady;
    var rel := i - 1036;
    var a, b := rel / 1024, rel % 1024;
    ghost var k2, k1, k0 := Root(13), Sub(Root(13), a), Sub(Sub(Root(13), a), b);
    ghost var s := Now(fs, ptr, t, cnt);
    ptr', cnt', t' := ptr, cnt, t;
    RootAt(s, 13);
    if k0 in t { ParentIn(s, k0); }
    if k1 in t { ParentIn(s, k1); }
    if ptr[13] == 0 {
      return Empty, 0, ptr, cnt, t;
    }
    EntryAt(s, k2, a);
    var double := fs.ReadPtrs(ptr[13]);
    if double[a] == 0 {
      return Empty, 0, ptr, cnt, t;
    }
    EntryAt(s, k1, b);
    var single := fs.ReadPtrs(double[a]);
    if single[b] == 0 {
      return Empty, 0, ptr, cnt, t;
    }
    st, out := Mapped, single[b];
    DroppingFirst(s, k0);
    ghost var v := Drop(s, k0);
    single, cnt' := single[b := 0], cnt + 1;
    var inside := AnyNonzero(single);
    if !inside {
      ptr', cnt', t' := UnlinkUnderRoot(fs, ptr, 13, double, a, cnt', s, v, k0, k0);
    } else {
      fs.WritePtrs(double[a], single);
      t' := v.t;
      DroppingDone(s, v, k0, k0, Now(fs, ptr', t', cnt'));
    }
  }

  /** A single indirect block of the triple branch emptied. */
  method UnlinkUnderDouble(fs: Volume, ptr: seq<nat>, triple: seq<nat>, double: seq<nat>, a: nat, b: nat, cnt: int,
                           ghost s: Snap, ghost v: Snap, ghost k0: Key)
    returns (ptr': seq<nat>, cnt': int, ghost t': Tree)
    requires fs.BlocksReady() && a < 1024 && b < 1024 && k0.Sub? && k0.parent == Sub(Sub(Root(14), a), b)
    requires Dropping(s, v, k0, k0) && NoEmpty(s.t) && AllZero(Ptrs(s.disk[s.t[k0.parent]])[k0.j := 0])
    requires Now(fs, ptr, v.t, cnt) == v.(disk := fs.disk) && fs.disk == s.disk && ptr == s.ptr && |ptr| == 15
    requires Root(14) in s.t && ptr[14] == s.t[Root(14)] < |fs.disk| && triple == Ptrs(s.disk[ptr[14]])
    requires Sub(Root(14), a) in s.t && triple[a] == s.t[Sub(Root(14), a)] < |fs.disk| && double == Ptrs(s.disk[triple[a]])
    requires double[b] == s.t[k0.parent]
    modifies fs`disk, fs.blocks
    ensures fs.BlocksReady() && Freed(s, Now(fs, ptr', t', cnt'), k0, s.t[k0])
  {
    hide Sound, TreeShape, Shrank, Freed, Dropping, NoEmpty, Ptrs, Volume.BlocksReady;
    ghost var k1 := k0.parent;
    DroppingMore(s, v, k0, k0);
    ValidHere(v, k1);
    ghost var v1 := Drop(v, k1);
    fs.FreeBlock(double[b]);
    var double', cnt1 := double[b := 0], cnt + 1;
    var inside := AnyNonzero(double');
    if !inside {
      ptr', cnt', t' := UnlinkUnderRoot(fs, ptr, 14, triple, a, cnt1, s, v1, k0, k1);
    } else {
      fs.WritePtrs(triple[a], double');
      ptr', cnt', t' := ptr, cnt1, v1.t;
      DroppingDone(s, v1, k0, k1, Now(fs, ptr', t', cnt'));
    }
  }

  lemma TriplePath(i: nat, a: nat, b: nat, c: nat)
    requires 1049612 <= i < MAX_FILE_BLOCKS
    requires a == (i - 1049612) / 1048576 && b == ((i - 1049612) / 1024) % 1024 && c == (i - 1049612) % 1024
    ensures a < 1024 && b < 1024 && c < 1024 && Path(i) == Sub(Sub(Sub(Root(14), a), b), c)
  {
  }

  /** File blocks from 1049612 on, FREE mode. */
  method FreeTriply(fs: Volume, ptr: seq<nat>, i: nat, cnt: int, ghost t: Tree)
    returns (st: Status, out: nat, ptr': seq<nat>, cnt': int, ghost t': Tree)
    requires fs.BlocksReady() && Sound(Now(fs, ptr, t, cnt)) && NoEmpty(t) && 1049612 <= i < MAX_FILE_BLOCKS
    modifies fs`disk, fs.blocks
    ensures fs.BlocksReady() && st != BlockError
    ensures st == Empty ==> Now(fs, ptr', t', cnt') == old(Now(fs, ptr, t, cnt)) && Path(i) !in t
    ensures st == Mapped ==> Path(i) in t && Freed(old(Now(fs, ptr, t, cnt)), Now(fs, ptr', t', cnt'), Path(i), out)
  {
    hide Sound, TreeShape, Shrank, Freed, Dropping, NoEmpty, Ptrs, Volume.BlocksReady, Path;
    var rel := i - 1049612;
    var a, b, c := rel / 1048576, (rel / 1024) % 1024, rel % 1024;
    TriplePath(i, a, b, c);
    ghost var k3, k2 := Root(14), Sub(Root(14), a);
    ghost var k1, k0 := Sub(k2, b), Sub(Sub(k2, b), c);
    ghost var s := Now(fs, ptr, t, cnt);
    ptr', cnt', t' := ptr, cnt, t;
    RootAt(s, 14);
    if k0 in t { ParentIn(s, k0); }
    if k1 in t { ParentIn(s, k1); }
    if k2 in t { ParentIn(s, k2); }
    if ptr[14] == 0 {
      return Empty, 0, ptr, cnt, t;
    }
    EntryAt(s, k3, a);
    var triple := fs.ReadPtrs(ptr[14]);
    if triple[a] == 0 {
      return Empty, 0, ptr, cnt, t;
    }
    EntryAt(s, k2, b);
    var double := fs.ReadPtrs(triple[a]);
    if double[b] == 0 {
      return Empty, 0, ptr, cnt, t;
    }
    EntryAt(s, k1, c);
    var single := fs.ReadPtrs(double[b]);
    if single[c] == 0 {
      return Empty, 0, ptr, cnt, t;
    }
    st, out := Mapped, single[c];
    DroppingFirst(s, k0);
    ghost var v := Drop(s, k0);
    single, cnt' := single[c := 0], cnt + 1;
    var inside := AnyNonzero(single);
    if !inside {
      ptr', cnt', t' := UnlinkUnderDouble(fs, ptr, triple, double, a, b, cnt', s, v, k0);
    } else {
      fs.WritePtrs(double[b], single);
      t' := v.t;
      DroppingDone(s, v, k0, k0, Now(fs, ptr', t', cnt'));
    }
  }
}
