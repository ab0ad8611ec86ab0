/** map_file_block: the hand-unrolled index from file blocks to disk blocks (kernel/fs/block/blockController.c). */
module MapFileBlock {
  import opened Blocks
  import opened BlockTree
  import opened Bitmaps
  import opened Volumes

  datatype Status = Mapped | Empty | BlockError

  /** Everything a call can change: the device, the block bitmap, the inode's pointers and the caller's counter. */
  datatype Snap = Snap(disk: seq<Block>, used: set<nat>, free: nat, ptr: seq<nat>, t: Tree, cnt: int)

  ghost function Now(fs: Volume, ptr: seq<nat>, t: Tree, cnt: int): Snap
    reads fs, fs.blocks
  {
    Snap(fs.disk, fs.blocks.used, fs.blocks.superFree, ptr, t, cnt)
  }

  /** t' has every binding of t. */
  ghost predicate Extends(t': Tree, t: Tree) {
    forall k :: k in t ==> k in t' && t'[k] == t[k]
  }

  ghost predicate Holds(t: Tree, b: nat) {
    exists k :: k in t && t[k] == b
  }

  ghost predicate Sound(s: Snap) {
    TreeShape(s.disk, s.ptr, s.t) && forall k :: k in s.t ==> s.t[k] in s.used
  }

  /** No allocated block changed except pointer blocks of the tree. */
  ghost predicate DataKept(s: Snap, s': Snap) {
    |s'.disk| == |s.disk| &&
    forall b :: b in s.used && b < |s.disk| && s'.disk[b] != s.disk[b] ==> b in PtrBlocks(s.t)
  }

  /** s' is s with some positions newly occupied by blocks that were free. */
  ghost predicate Grew(s: Snap, s': Snap) {
    && Extends(s'.t, s.t)
    && (forall k :: k in s'.t && k !in s.t ==> s'.t[k] !in s.used)
    && s.used <= s'.used && (forall b :: b in s'.used && b !in s.used ==> Holds(s'.t, b))
    && s'.cnt - s.cnt == |s'.t| - |s.t| == s.free - s'.free
    && DataKept(s, s')
  }

  lemma GrewTrans(a: Snap, b: Snap, c: Snap)
    requires Grew(a, b) && Grew(b, c)
    ensures Grew(a, c)
  {
    forall x | x in a.used && x < |a.disk| && c.disk[x] != a.disk[x] ensures x in PtrBlocks(a.t) {
      if b.disk[x] == a.disk[x] {
        assert x in PtrBlocks(b.t);
        var k :| k in b.t && Height(k) > 0 && b.t[k] == x;
        assert k in a.t;
      }
    }
    forall x | x in c.used && x !in a.used ensures Holds(c.t, x) {
      if x in b.used {
        var k :| k in b.t && b.t[k] == x;
        assert c.t[k] == x;
      }
    }
  }

  /** Block n takes the free position k; only n and the parent's entry for k are written. */
  ghost predicate Took(s: Snap, s': Snap, k: Key, n: nat) {
    && ValidKey(k) && k !in s.t && 0 < n < |s.disk| == |s'.disk| && n !in s.used
    && s'.t == s.t[k := n] && s'.used == s.used + {n} && s'.cnt == s.cnt + 1 && s'.free == s.free - 1
    && |s.ptr| == 15 && s'.ptr == (if k.Root? then s.ptr[k.slot := n] else s.ptr)
    && (k.Sub? ==> k.parent in s.t && 0 <= s.t[k.parent] < |s.disk|)
    && Written(s, s', k, n)
  }

  ghost predicate Written(s: Snap, s': Snap, k: Key, n: nat)
    requires |s.disk| == |s'.disk| && (k.Sub? ==> k.parent in s.t && 0 <= s.t[k.parent] < |s.disk|) && n < |s.disk|
  {
    && (k.Sub? ==> k.j < 1024 && Ptrs(s'.disk[s.t[k.parent]]) == Ptrs(s.disk[s.t[k.parent]])[k.j := n])
    && (forall x :: 0 <= x < |s.disk| && x != n && (k.Sub? ==> x != s.t[k.parent]) ==> s'.disk[x] == s.disk[x])
    && (Height(k) > 0 ==> AllZero(Ptrs(s'.disk[n])))
  }

  lemma TookSound(s: Snap, s': Snap, k: Key, n: nat)
    requires Sound(s) && Took(s, s', k, n)
    ensures Sound(s')
  {
    forall x | x in s.t && (k.Sub? ==> x != k.parent) ensures s'.disk[s.t[x]] == s.disk[s.t[x]] {
      assert k.Sub? ==> s.t[x] != s.t[k.parent];
    }
    Graft(s.disk, s.ptr, s.t, k, n, s'.disk, s'.ptr);
  }

  lemma TookGrows(s: Snap, s': Snap, k: Key, n: nat)
    requires Sound(s) && Took(s, s', k, n)
    ensures Grew(s, s')
  {
    assert s'.t[k] == n;
    forall x | x in s.used && x < |s.disk| && s'.disk[x] != s.disk[x] ensures x in PtrBlocks(s.t) {
      assert k.Sub? && x == s.t[k.parent];
    }
  }

  /** x lies on the way from the inode to k. */
  predicate OnPath(x: Key, k: Key) {
    x == k || (k.Sub? && OnPath(x, k.parent))
  }

  /** How many positions on the way to k are still unoccupied. */
  function Missing(t: Tree, k: Key): nat {
    (if k in t then 0 else 1) + (if k.Sub? then Missing(t, k.parent) else 0)
  }

  /** ALLOC mode has got as far as position k: the way to k is occupied and nothing else was added. */
  ghost predicate Reached(s: Snap, s': Snap, k: Key) {
    && Sound(s') && Grew(s, s') && k in s'.t
    && (forall x :: x in s'.t && x !in s.t ==> OnPath(x, k))
    && s.free == s'.free + Missing(s.t, k)
  }

  lemma NotOnOwnPath(k: Key, x: Key)
    ensures OnPath(x, k) ==> Height(x) >= Height(k)
    ensures k.Sub? ==> !OnPath(k, k.parent)
  {
    if k.Sub? { NotOnOwnPath(k.parent, x); NotOnOwnPath(k.parent, k); }
  }

  lemma ReachedRoot(s: Snap, slot: nat)
    requires Sound(s) && Root(slot) in s.t
    ensures Reached(s, s, Root(slot))
  {
  }

  lemma ReachedMinted(s: Snap, s': Snap, slot: nat, n: nat)
    requires Sound(s) && Took(s, s', Root(slot), n)
    ensures Reached(s, s', Root(slot))
  {
    TookSound(s, s', Root(slot), n);
    TookGrows(s, s', Root(slot), n);
  }

  lemma ReachedEntry(s: Snap, s': Snap, k: Key)
    requires k.Sub? && Reached(s, s', k.parent) && k in s'.t
    ensures Reached(s, s', k)
  {
    NotOnOwnPath(k, k);
  }

  lemma ReachedTook(s: Snap, s': Snap, s'': Snap, k: Key, n: nat)
    requires k.Sub? && Reached(s, s', k.parent) && Took(s', s'', k, n)
    ensures Reached(s, s'', k)
  {
    TookSound(s', s'', k, n);
    TookGrows(s', s'', k, n);
    GrewTrans(s, s', s'');
    assert k !in s.t;
  }

  /** The call left the tree, the inode, the bitmap, the counter and all data as they were. */
  ghost predicate Untouched(s: Snap, s': Snap) {
    Sound(s') && DataKept(s, s') && s' == s.(disk := s'.disk)
  }

  /** All that was added since s hangs below k, and the only allocated block written is k's parent. */
  ghost predicate Hangs(s: Snap, s': Snap, k: Key, n: nat) {
    && k !in s.t && |s'.disk| == |s.disk| && Grew(s, s')
    && (k.Sub? ==>
          && k.parent in s.t && 0 <= s.t[k.parent] < |s.disk| && k.j < 1024
          && Ptrs(s'.disk[s.t[k.parent]]) == Ptrs(s.disk[s.t[k.parent]])[k.j := n])
    && (forall b :: b in s.used && b < |s.disk| && (k.Sub? ==> b != s.t[k.parent]) ==> s'.disk[b] == s.disk[b])
  }

  lemma HangsTook(s: Snap, s': Snap, k: Key, n: nat)
    requires Sound(s) && Took(s, s', k, n)
    ensures Hangs(s, s', k, n)
  {
    TookGrows(s, s', k, n);
  }

  lemma HangsBelow(s: Snap, s': Snap, s'': Snap, k: Key, n: nat, c: Key, m: nat)
    requires Sound(s') && Hangs(s, s', k, n) && Took(s', s'', c, m) && c.Sub? && c.parent !in s.t
    requires k.Sub? ==> s.t[k.parent] in s.used
    ensures Hangs(s, s'', k, n)
  {
    TookGrows(s', s'', c, m);
    GrewTrans(s, s', s'');
  }

  /** Giving back everything that hangs below k and clearing k's entry restores the state. */
  lemma Undo(s: Snap, s': Snap, k: Key, n: nat, e: Snap)
    requires Sound(s) && Hangs(s, s', k, n) && e == s.(disk := e.disk) && |e.disk| == |s.disk| && ValidKey(k)
    requires k.Root? ==> e.disk == s'.disk
    requires k.Sub? ==> Ptrs(e.disk[s.t[k.parent]]) == Ptrs(s'.disk[s.t[k.parent]])[k.j := 0]
    requires k.Sub? ==> forall x :: 0 <= x < |s.disk| && x != s.t[k.parent] ==> e.disk[x] == s'.disk[x]
    ensures Untouched(s, e)
  {
    if k.Sub? {
      var p := s.t[k.parent];
      assert NodeStored(s.disk, s.t, k.parent);
      assert Ptrs(e.disk[p]) == Ptrs(s.disk[p]);
      assert p in PtrBlocks(s.t);
    }
    ShapeFrame(s.disk, s.ptr, s.t, e.disk);
  }

  lemma RootAt(s: Snap, slot: nat)
    requires Sound(s) && slot < 15
    ensures |s.ptr| == 15 && s.ptr[slot] == At(s.t, Root(slot))
    ensures Root(slot) in s.t ==> 0 < s.t[Root(slot)] < |s.disk|
  {
  }

  lemma ParentIn(s: Snap, k: Key)
    requires Sound(s) && k.Sub? && k in s.t
    ensures k.parent in s.t
  {
  }

  lemma UnfoldPath(t: Tree, t': Tree, k: Key)
    ensures NewBlocks(t, t', k) == (if k in t then {} else {At(t', k)}) + (if k.Sub? then NewBlocks(t, t', k.parent) else {})
    ensures Missing(t, k) == (if k in t then 0 else 1) + (if k.Sub? then Missing(t, k.parent) else 0)
  {
  }

  lemma EntryAt(s: Snap, k: Key, j: nat)
    requires Sound(s) && k in s.t && Height(k) > 0 && j < 1024
    ensures 0 < s.t[k] < |s.disk| && s.t[k] in s.used && ValidKey(k)
    ensures Ptrs(s.disk[s.t[k]])[j] == At(s.t, Sub(k, j))
    ensures Sub(k, j) in s.t ==> 0 < s.t[Sub(k, j)] < |s.disk|
  {
    assert NodeStored(s.disk, s.t, k);
  }

  /** ALLOC mode succeeded for data position k. */
  ghost predicate Allocated(s: Snap, s': Snap, k: Key, out: nat) {
    Reached(s, s', k) && NoEmpty(s'.t) && k in s'.t && out == s'.t[k]
  }

  /** ALLOC mode found the disk full before reaching k. */
  ghost predicate OutOfSpace(s: Snap, s': Snap, k: Key) {
    Untouched(s, s') && Missing(s.t, k) > s.free
  }

  lemma {:induction false} PathChild(x: Key, k: Key)
    requires ValidKey(k) && OnPath(x, k) && x != k
    ensures exists j :: 0 <= j < 1024 && OnPath(Sub(x, j), k)
  {
    if k.parent == x {
      assert OnPath(Sub(x, k.j), k);
    } else {
      PathChild(x, k.parent);
    }
  }

  lemma {:induction false} PathOccupied(t: Tree, nblocks: nat, x: Key, k: Key)
    requires Rooted(t, nblocks) && k in t && OnPath(x, k)
    ensures x in t
  {
    if x != k { PathOccupied(t, nblocks, x, k.parent); }
  }

  /** Occupying the whole way down to a data position leaves no pointer block empty. */
  lemma ReachedAllocated(s: Snap, s': Snap, k: Key)
    requires Reached(s, s', k) && NoEmpty(s.t) && Height(k) == 0
    ensures Allocated(s, s', k, s'.t[k])
  {
    forall x | x in s'.t && Height(x) > 0 ensures HasChild(s'.t, x) {
      if x in s.t {
        assert HasChild(s.t, x);
      } else {
        PathChild(x, k);
        var j :| 0 <= j < 1024 && OnPath(Sub(x, j), k);
        PathOccupied(s'.t, |s'.disk|, Sub(x, j), k);
      }
    }
  }

  /** The blocks added on the way to k. */
  ghost function NewBlocks(t: Tree, t': Tree, k: Key): set<nat> {
    (if k in t then {} else {At(t', k)}) + (if k.Sub? then NewBlocks(t, t', k.parent) else {})
  }

  lemma {:induction false} NewBlocksAre(t: Tree, t': Tree, k: Key, x: Key)
    requires OnPath(x, k) && x !in t
    ensures At(t', x) in NewBlocks(t, t', k)
  {
    if x != k { NewBlocksAre(t, t', k.parent, x); }
  }

  lemma {:induction false} NewBlocksFresh(s: Snap, s': Snap, k: Key)
    requires Sound(s') && Grew(s, s') && k in s'.t
    ensures NewBlocks(s.t, s'.t, k) !! s.used && NewBlocks(s.t, s'.t, k) <= s'.used
  {
    if k.Sub? { NewBlocksFresh(s, s', k.parent); }
  }

  lemma ReachedUsed(s: Snap, s': Snap, k: Key)
    requires Sound(s) && Reached(s, s', k)
    ensures s'.used == s.used + NewBlocks(s.t, s'.t, k) && NewBlocks(s.t, s'.t, k) !! s.used
  {
    hide TreeShape, NewBlocks, OnPath, Missing, DataKept;
    NewBlocksFresh(s, s', k);
    forall b | b in s'.used && b !in s.used ensures b in NewBlocks(s.t, s'.t, k) {
      assert Holds(s'.t, b);
      var x :| x in s'.t && s'.t[x] == b;
      assert x !in s.t;
      NewBlocksAre(s.t, s'.t, k, x);
    }
  }

  /**
   * ALLOC mode stands at position k.  Either the whole way to k was there already and nothing has changed, or
   * everything from `top` down to k is new.
   */
  ghost predicate Progress(s: Snap, s': Snap, k: Key, minted: bool, top: Key) {
    && Sound(s) && Reached(s, s', k) && (minted <==> k !in s.t)
    && (!minted ==> s' == s)
    && (minted ==> OnPath(top, k) && ValidKey(top) && top in s'.t && Hangs(s, s', top, s'.t[top]))
    && (minted ==> |s.ptr| == 15 && s'.ptr == if top.Root? then s.ptr[top.slot := s'.t[top]] else s.ptr)
  }

  lemma ProgressEntry(s: Snap, s': Snap, k: Key, minted: bool, top: Key, j: nat)
    requires Progress(s, s', k, minted, top) && Sub(k, j) in s'.t
    ensures !minted && Progress(s, s', Sub(k, j), false, Sub(k, j))
  {
    ReachedEntry(s, s', Sub(k, j));
    NotOnOwnPath(Sub(k, j), k);
    assert Sub(k, j) in s.t;
  }

  lemma ProgressTook(s: Snap, s': Snap, k: Key, minted: bool, top: Key, s'': Snap, j: nat, n: nat)
    requires Progress(s, s', k, minted, top) && Took(s', s'', Sub(k, j), n)
    ensures Progress(s, s'', Sub(k, j), true, if minted then top else Sub(k, j))
  {
    ReachedTook(s, s', s'', Sub(k, j), n);
    if minted {
      HangsBelow(s, s', s'', top, s'.t[top], Sub(k, j), n);
    } else {
      HangsTook(s, s'', Sub(k, j), n);
    }
  }

  lemma FullAt(s: Snap, s': Snap, k: Key)
    requires k.Sub? && Reached(s, s', k.parent) && k !in s'.t && s'.free == 0
    ensures Missing(s.t, k) > s.free
  {
  }

  /** The disk is too full for a position on the way to x, so it is too full for x. */
  lemma NoRoom(s: Snap, s': Snap, k: Key, x: Key)
    requires Untouched(s, s') && Missing(s.t, k) > s.free
    requires x == k || (x.Sub? && (x.parent == k || (x.parent.Sub? && (x.parent.parent == k || (x.parent.parent.Sub? && x.parent.parent.parent == k)))))
    ensures OutOfSpace(s, s', x)
  {
    assert x.Sub? ==> Missing(s.t, x) >= Missing(s.t, x.parent);
    if x.Sub? && x.parent.Sub? {
      assert Missing(s.t, x.parent) >= Missing(s.t, x.parent.parent);
      if x.parent.parent.Sub? {
        assert Missing(s.t, x.parent.parent) >= Missing(s.t, x.parent.parent.parent);
      }
    }
  }

  lemma UntouchedRefl(s: Snap)
    requires Sound(s)
    ensures Untouched(s, s)
  {
  }

  lemma ReachedCounts(s: Snap, s': Snap, k: Key)
    requires Reached(s, s', k)
    ensures s'.cnt - s.cnt == s.free - s'.free == Missing(s.t, k) && |s'.disk| == |s.disk|
  {
    hide Sound, Extends, Holds, Missing;
  }

  /** Giving back the new blocks and clearing the topmost new entry undoes all progress. */
  lemma RollBack(s: Snap, s': Snap, k: Key, top: Key, e: Snap)
    requires Progress(s, s', k, true, top) && |e.disk| == |s'.disk|
    requires e.t == s.t && e.ptr == s.ptr && e.used == s'.used - NewBlocks(s.t, s'.t, k)
    requires e.cnt == s'.cnt - Missing(s.t, k) && e.free == s'.free + Missing(s.t, k)
    requires top.Root? ==> e.disk == s'.disk
    requires top.Sub? ==> Ptrs(e.disk[s.t[top.parent]]) == Ptrs(s'.disk[s.t[top.parent]])[top.j := 0]
    requires top.Sub? ==> forall x :: 0 <= x < |s'.disk| && x != s.t[top.parent] ==> e.disk[x] == s'.disk[x]
    ensures Untouched(s, e)
  {
    hide Sound, Reached, Hangs, NewBlocks, Missing, OnPath, Ptrs, Untouched;
    ReachedUsed(s, s', k);
    ReachedCounts(s, s', k);
    assert e.used == s.used;
    Undo(s, s', top, s'.t[top], e);
  }

  /** The root pointer in `slot`, minted if it is zero. */
  method EnsureRoot(fs: Volume, ptr: seq<nat>, slot: nat, cnt: int, ghost t: Tree)
    returns (ok: bool, minted: bool, ptr': seq<nat>, cnt': int, ghost t': Tree)
    requires fs.BlocksReady() && Sound(Now(fs, ptr, t, cnt)) && 12 <= slot < 15
    modifies fs`disk, fs.blocks
    ensures fs.BlocksReady()
    ensures !ok ==> Now(fs, ptr', t', cnt') == old(Now(fs, ptr, t, cnt)) && Missing(t, Root(slot)) > fs.blocks.superFree
    ensures ok ==> Progress(old(Now(fs, ptr, t, cnt)), Now(fs, ptr', t', cnt'), Root(slot), minted, Root(slot))
    ensures ok ==> (minted <==> Root(slot) !in t)
    ensures ok ==> |ptr'| == 15 && Root(slot) in t' && 0 < ptr'[slot] == t'[Root(slot)] < |fs.disk|
  {
    hide Sound, TreeShape, Reached, Hangs, Written, Volume.BlocksReady;
    ghost var s := Now(fs, ptr, t, cnt);
    RootAt(s, slot);
    ptr', cnt', t', minted := ptr, cnt, t, false;
    if ptr[slot] == 0 {
      var n := fs.MintPointerBlock();
      if n == 0 { return false, false, ptr, cnt, t; }
      ptr', cnt', t' := ptr[slot := n], cnt + 1, t[Root(slot) := n];
      minted := true;
      ghost var s' := Now(fs, ptr', t', cnt');
      WroteRoot(s, s', slot, n);
      ReachedMinted(s, s', slot, n);
      HangsTook(s, s', Root(slot), n);
    } else {
      ReachedRoot(s, slot);
    }
    ok := true;
  }

  lemma WroteRoot(s: Snap, s': Snap, slot: nat, n: nat)
    requires n < |s.disk| == |s'.disk|
    requires forall x :: 0 <= x < |s.disk| && x != n ==> s'.disk[x] == s.disk[x]
    requires Height(Root(slot)) > 0 ==> AllZero(Ptrs(s'.disk[n]))
    ensures Written(s, s', Root(slot), n)
  {
  }

  ghost predicate SameBut(disk: seq<Block>, disk': seq<Block>, used: set<nat>, b: nat) {
    |disk'| == |disk| && forall x :: x in used && x < |disk| && x != b ==> disk'[x] == disk[x]
  }

  /**
   * Entry j of the pointer block `parent` at position k.  A zero entry gets a fresh block, zeroed unless it is to
   * hold data, and the parent is written back.
   */
  method EnsureEntry(fs: Volume, ptr: seq<nat>, parent: nat, words: seq<nat>, j: nat, data: bool, cnt: int,
                     ghost k: Key, ghost t: Tree, ghost s: Snap, ghost above: bool, ghost top: Key)
    returns (ok: bool, minted: bool, words': seq<nat>, cnt': int, ghost t': Tree)
    requires fs.BlocksReady() && Progress(s, Now(fs, ptr, t, cnt), k, above, top)
    requires k in t && t[k] == parent < |fs.disk| && Height(k) > 0 && data == (Height(k) == 1)
    requires words == Ptrs(fs.disk[parent]) && j < 1024
    modifies fs`disk, fs.blocks
    ensures fs.BlocksReady()
    ensures !ok ==> Now(fs, ptr, t', cnt') == old(Now(fs, ptr, t, cnt)) && Missing(s.t, Sub(k, j)) > s.free
    ensures ok ==> Progress(s, Now(fs, ptr, t', cnt'), Sub(k, j), minted, if above then top else Sub(k, j))
    ensures ok ==> (minted <==> Sub(k, j) !in s.t)
    ensures ok ==> parent < |fs.disk| == old(|fs.disk|) && words' == Ptrs(fs.disk[parent])
    ensures ok ==> t' == if minted then t[Sub(k, j) := words'[j]] else t
    ensures ok ==> Sub(k, j) in t' && 0 < words'[j] == t'[Sub(k, j)] < |fs.disk|
    ensures ok ==> SameBut(old(fs.disk), fs.disk, old(fs.blocks.used), parent)
  {
    hide Sound, TreeShape, Reached, Hangs, Written, Progress, Volume.BlocksReady;
    ghost var s1 := Now(fs, ptr, t, cnt);
    words', cnt', t', minted := words, cnt, t, false;
    ProgressSound(s, s1, k, above, top);
    EntryAt(s1, k, j);
    RootAt(s1, 0);
    if words[j] == 0 {
      var n;
      if data { n := fs.AllocBlock(); } else { n := fs.MintPointerBlock(); }
      if n == 0 {
        FullAt(s, s1, Sub(k, j));
        return false, false, words, cnt, t;
      }
      words' := words[j := n];
      fs.FitsWord(n);
      fs.WritePtrs(parent, words');
      cnt', t', minted := cnt + 1, t[Sub(k, j) := n], true;
      ghost var s2 := Now(fs, ptr, t', cnt');
      WroteEntry(s1, s2, k, j, n);
      ProgressTook(s, s1, k, above, top, s2, j, n);
    } else {
      ProgressEntry(s, s1, k, above, top, j);
    }
    ok := true;
  }

  lemma WroteEntry(s: Snap, s': Snap, k: Key, j: nat, n: nat)
    requires k in s.t && 0 <= s.t[k] < |s.disk| && n < |s.disk| == |s'.disk| && j < 1024
    requires Ptrs(s'.disk[s.t[k]]) == Ptrs(s.disk[s.t[k]])[j := n]
    requires forall x :: 0 <= x < |s.disk| && x != n && x != s.t[k] ==> s'.disk[x] == s.disk[x]
    requires Height(k) > 1 ==> AllZero(Ptrs(s'.disk[n]))
    ensures Written(s, s', Sub(k, j), n)
  {
  }

  lemma ProgressSound(s: Snap, s': Snap, k: Key, minted: bool, top: Key)
    requires Progress(s, s', k, minted, top)
    ensures Sound(s) && Sound(s') && k in s'.t && Reached(s, s', k)
  {
  }

  lemma ProgressNew(s: Snap, s': Snap, k: Key, minted: bool, top: Key)
    requires Progress(s, s', k, minted, top)
    ensures minted <==> k !in s.t
    ensures !minted ==> s' == s
    ensures minted ==> NewBlocks(s.t, s'.t, k) <= s'.used && 0 !in NewBlocks(s.t, s'.t, k)
    ensures minted && top.Sub? ==> top.parent in s.t && s'.t[top.parent] == s.t[top.parent]
    ensures minted ==> |s.ptr| == 15 && s'.ptr == if top.Root? then s.ptr[top.slot := s'.t[top]] else s.ptr
    ensures minted && top.Root? && top.slot < 15 ==> s.ptr[top.slot] == 0
  {
    if minted {
      NewBlocksFresh(s, s', k);
      NewBlocksPositive(s, s', k);
    }
  }

  lemma {:induction false} NewBlocksPositive(s: Snap, s': Snap, k: Key)
    requires Sound(s') && k in s'.t
    ensures 0 !in NewBlocks(s.t, s'.t, k)
  {
    if k.Sub? { NewBlocksPositive(s, s', k.parent); }
  }

  /** File blocks 0 to 11, ALLOC mode. */
  method AllocDirect(fs: Volume, ptr: seq<nat>, i: nat, cnt: int, ghost t: Tree)
    returns (st: Status, out: nat, ptr': seq<nat>, cnt': int, ghost t': Tree)
    requires fs.BlocksReady() && Sound(Now(fs, ptr, t, cnt)) && NoEmpty(t) && i < 12
    modifies fs`disk, fs.blocks
    ensures fs.BlocksReady() && st != Empty
    ensures st == BlockError ==> OutOfSpace(old(Now(fs, ptr, t, cnt)), Now(fs, ptr', t', cnt'), Path(i))
    ensures st == Mapped ==> Allocated(old(Now(fs, ptr, t, cnt)), Now(fs, ptr', t', cnt'), Path(i), out)
  {
    hide Sound, Grew, TreeShape, Reached, Hangs, Progress, DataKept, NoEmpty, HasChild, Volume.BlocksReady;
    ghost var s := Now(fs, ptr, t, cnt);
    ptr', cnt', t' := ptr, cnt, t;
    RootAt(s, i);
    if ptr[i] == 0 {
      var n := fs.AllocBlock();
      if n == 0 {
        UntouchedRefl(s);
        return BlockError, 0, ptr, cnt, t;
      }
      ptr', cnt', t' := ptr[i := n], cnt + 1, t[Root(i) := n];
      WroteRoot(s, Now(fs, ptr', t', cnt'), i, n);
      ReachedMinted(s, Now(fs, ptr', t', cnt'), i, n);
    } else {
      ReachedRoot(s, i);
    }
    ReachedAllocated(s, Now(fs, ptr', t', cnt'), Root(i));
    st, out := Mapped, ptr'[i];
  }

  /** Rollback of a freshly minted root. */
  method UnmintRoot(fs: Volume, ptr: seq<nat>, slot: nat, minted: bool, cnt: int, ghost t: Tree, ghost s: Snap)
    returns (ptr': seq<nat>, cnt': int)
    requires fs.BlocksReady() && 12 <= slot < 15 && |ptr| == 15 && Root(slot) in t && t[Root(slot)] == ptr[slot]
    requires Progress(s, Now(fs, ptr, t, cnt), Root(slot), minted, Root(slot))
    modifies fs`disk, fs.blocks
    ensures fs.BlocksReady() && Untouched(s, Now(fs, ptr', s.t, cnt'))
  {
    hide Sound, Grew, TreeShape, Reached, Hangs, Progress, DataKept, NoEmpty, HasChild, Volume.BlocksReady;
    ghost var s1 := Now(fs, ptr, t, cnt);
    ptr', cnt' := ptr, cnt;
    ProgressNew(s, s1, Root(slot), minted, Root(slot));
    ProgressSound(s, s1, Root(slot), minted, Root(slot));
    if minted {
      fs.FreeBlock(ptr[slot]);
      ptr', cnt' := ptr[slot := 0], cnt - 1;
      assert ptr' == s.ptr;
      RollBack(s, s1, Root(slot), Root(slot), Now(fs, ptr', s.t, cnt'));
    } else {
      UntouchedRefl(s);
    }
  }

  /**
   * The rollback shared by the double and triple branches: give back a freshly minted pointer block under a root,
   * then either the freshly minted root, or write the surviving root block with its entry cleared.
   */
  method UnmintTwo(fs: Volume, ptr: seq<nat>, slot: nat, words: seq<nat>, a: nat, mintedRoot: bool, mintedChild: bool, cnt: int,
                   ghost t: Tree, ghost s: Snap)
    returns (ptr': seq<nat>, cnt': int)
    requires fs.BlocksReady() && 12 < slot < 15 && a < 1024 && (mintedRoot <==> Root(slot) !in s.t)
    requires Progress(s, Now(fs, ptr, t, cnt), Sub(Root(slot), a), mintedChild, if mintedRoot then Root(slot) else Sub(Root(slot), a))
    requires |ptr| == 15 && Root(slot) in t && t[Root(slot)] == ptr[slot] < |fs.disk| && words == Ptrs(fs.disk[ptr[slot]])
    requires Sub(Root(slot), a) in t && t[Sub(Root(slot), a)] == words[a]
    modifies fs`disk, fs.blocks
    ensures fs.BlocksReady() && Untouched(s, Now(fs, ptr', s.t, cnt'))
  {
    hide Sound, Grew, TreeShape, Reached, Hangs, Progress, DataKept, NoEmpty, HasChild, Volume.BlocksReady;
    ghost var k2, k1 := Root(slot), Sub(Root(slot), a);
    ghost var top := if mintedRoot then k2 else k1;
    ghost var s1 := Now(fs, ptr, t, cnt);
    ptr', cnt' := ptr, cnt;
    ProgressNew(s, s1, k1, mintedChild, top);
    ProgressSound(s, s1, k1, mintedChild, top);
    Distinct(s1, k1, k2);
    if !mintedChild {
      UntouchedRefl(s);
      return;
    }
    fs.FreeBlock(words[a]);
    cnt' := cnt' - 1;
    if mintedRoot {
      fs.FreeBlock(ptr[slot]);
      ptr', cnt' := ptr[slot := 0], cnt' - 1;
      assert ptr' == s.ptr;
    } else {
      fs.WritePtrs(ptr[slot], words[a := 0]);
    }
    RollBack(s, s1, k1, top, Now(fs, ptr', s.t, cnt'));
  }

  lemma Distinct(s: Snap, k: Key, k': Key)
    requires Sound(s) && k in s.t && k' in s.t && k != k'
    ensures s.t[k] != s.t[k'] && s.t[k] in s.used && s.t[k'] in s.used
  {
  }

  /** File blocks 12 to 1035, ALLOC mode. */
  method AllocSingly(fs: Volume, ptr: seq<nat>, i: nat, cnt: int, ghost t: Tree)
    returns (st: Status, out: nat, ptr': seq<nat>, cnt': int, ghost t': Tree)
    requires fs.BlocksReady() && Sound(Now(fs, ptr, t, cnt)) && NoEmpty(t) && 12 <= i < 1036
    modifies fs`disk, fs.blocks
    ensures fs.BlocksReady() && st != Empty
    ensures st == BlockError ==> OutOfSpace(old(Now(fs, ptr, t, cnt)), Now(fs, ptr', t', cnt'), Path(i))
    ensures st == Mapped ==> Allocated(old(Now(fs, ptr, t, cnt)), Now(fs, ptr', t', cnt'), Path(i), out)
  {
    hide Ptrs, ValidKey, Extends, OnPath, Sound, Reached, Progress, Untouched, OutOfSpace, Allocated, Missing, NoEmpty, Volume.BlocksReady;
    var rel := i - 12;
    ghost var k1, k0 := Root(12), Sub(Root(12), rel);
    ghost var s := Now(fs, ptr, t, cnt);
    UntouchedRefl(s);
    var ok, minted;
    ok, minted, ptr', cnt', t' := EnsureRoot(fs, ptr, 12, cnt, t);
    if !ok {
      NoRoom(s, s, k1, k0);
      return BlockError, 0, ptr', cnt', t';
    }
    var words := fs.ReadPtrs(ptr'[12]);
    var leaf;
    ok, leaf, words, cnt', t' := EnsureEntry(fs, ptr', ptr'[12], words, rel, true, cnt', k1, t', s, minted, k1);
    if !ok {
      ptr', cnt' := UnmintRoot(fs, ptr', 12, minted, cnt', t', s);
      NoRoom(s, Now(fs, ptr', t, cnt'), k0, k0);
      return BlockError, 0, ptr', cnt', t;
    }
    ProgressSound(s, Now(fs, ptr', t', cnt'), k0, leaf, if minted then k1 else k0);
    ReachedAllocated(s, Now(fs, ptr', t', cnt'), k0);
    st, out := Mapped, words[rel];
  }

  /** File blocks 1036 to 1049611, ALLOC mode. */
  method AllocDoubly(fs: Volume, ptr: seq<nat>, i: nat, cnt: int, ghost t: Tree)
    returns (st: Status, out: nat, ptr': seq<nat>, cnt': int, ghost t': Tree)
    requires fs.BlocksReady() && Sound(Now(fs, ptr, t, cnt)) && NoEmpty(t) && 1036 <= i < 1049612
    modifies fs`disk, fs.blocks
    ensures fs.BlocksReady() && st != Empty
    ensures st == BlockError ==> OutOfSpace(old(Now(fs, ptr, t, cnt)), Now(fs, ptr', t', cnt'), Path(i))
    ensures st == Mapped ==> Allocated(old(Now(fs, ptr, t, cnt)), Now(fs, ptr', t', cnt'), Path(i), out)
  {
    hide Ptrs, ValidKey, Extends, OnPath, Sound, Reached, Progress, Untouched, OutOfSpace, Allocated, Missing, NoEmpty, Volume.BlocksReady;
    var rel := i - 1036;
    var a, b := rel / 1024, rel % 1024;
    ghost var k2, k1, k0 := Root(13), Sub(Root(13), a), Sub(Sub(Root(13), a), b);
    ghost var s := Now(fs, ptr, t, cnt);
    UntouchedRefl(s);
    var ok, mintedD, mintedS, leaf;
    ok, mintedD, ptr', cnt', t' := EnsureRoot(fs, ptr, 13, cnt, t);
    if !ok {
      NoRoom(s, s, k2, k0);
      return BlockError, 0, ptr', cnt', t';
    }
    var double := fs.ReadPtrs(ptr'[13]);
    ok, mintedS, double, cnt', t' := EnsureEntry(fs, ptr', ptr'[13], double, a, false, cnt', k2, t', s, mintedD, k2);
    if !ok {
      ptr', cnt' := UnmintRoot(fs, ptr', 13, mintedD, cnt', t', s);
      NoRoom(s, Now(fs, ptr', t, cnt'), k1, k0);
      return BlockError, 0, ptr', cnt', t;
    }
    var single := fs.ReadPtrs(double[a]);
    ok, leaf, single, cnt', t' := EnsureEntry(fs, ptr', double[a], single, b, true, cnt', k1, t', s, mintedS, if mintedD then k2 else k1);
    if !ok {
      ptr', cnt' := UnmintTwo(fs, ptr', 13, double, a, mintedD, mintedS, cnt', t', s);
      NoRoom(s, Now(fs, ptr', t, cnt'), k0, k0);
      return BlockError, 0, ptr', cnt', t;
    }
    ProgressSound(s, Now(fs, ptr', t', cnt'), k0, leaf, if mintedS then (if mintedD then k2 else k1) else k0);
    ReachedAllocated(s, Now(fs, ptr', t', cnt'), k0);
    st, out := Mapped, single[b];
  }

  /** Rollback when the data block of the triple branch cannot be had. */
  method UnmintThree(fs: Volume, ptr: seq<nat>, triple: seq<nat>, double: seq<nat>, a: nat, b: nat,
                     mintedT: bool, mintedD: bool, mintedS: bool, cnt: int, ghost t: Tree, ghost s: Snap, ghost top: Key)
    returns (ptr': seq<nat>, cnt': int)
    requires fs.BlocksReady() && a < 1024 && b < 1024
    requires (mintedT <==> Root(14) !in s.t) && (mintedD <==> Sub(Root(14), a) !in s.t)
    requires top == if !mintedD then Sub(Sub(Root(14), a), b) else if mintedT then Root(14) else Sub(Root(14), a)
    requires Progress(s, Now(fs, ptr, t, cnt), Sub(Sub(Root(14), a), b), mintedS, top)
    requires |ptr| == 15 && Root(14) in t && t[Root(14)] == ptr[14] < |fs.disk| && triple == Ptrs(fs.disk[ptr[14]])
    requires Sub(Root(14), a) in t && t[Sub(Root(14), a)] == triple[a] < |fs.disk| && double == Ptrs(fs.disk[triple[a]])
    requires Sub(Sub(Root(14), a), b) in t && t[Sub(Sub(Root(14), a), b)] == double[b]
    modifies fs`disk, fs.blocks
    ensures fs.BlocksReady() && Untouched(s, Now(fs, ptr', s.t, cnt'))
  {
    hide Ptrs, Sound, Progress, Untouched, Missing, NewBlocks, Volume.BlocksReady;
    ghost var k3, k2, k1 := Root(14), Sub(Root(14), a), Sub(Sub(Root(14), a), b);
    ghost var s1 := Now(fs, ptr, t, cnt);
    ptr', cnt' := ptr, cnt;
    ProgressNew(s, s1, k1, mintedS, top);
    ProgressSound(s, s1, k1, mintedS, top);
    ThreeLevels(s, s1, k1);
    if !mintedS {
      UntouchedRefl(s);
      return;
    }
    fs.FreeBlock(double[b]);
    cnt' := cnt' - 1;
    if mintedD {
      fs.FreeBlock(triple[a]);
      cnt' := cnt' - 1;
      if mintedT {
        fs.FreeBlock(ptr[14]);
        ptr', cnt' := ptr[14 := 0], cnt' - 1;
        assert ptr' == s.ptr;
        assert fs.blocks.used == s1.used - {double[b], triple[a], ptr[14]};
        RollBack(s, s1, k1, top, Now(fs, ptr', s.t, cnt'));
      } else {
        fs.WritePtrs(ptr[14], triple[a := 0]);
        assert fs.blocks.used == s1.used - {double[b], triple[a]};
        RollBack(s, s1, k1, top, Now(fs, ptr', s.t, cnt'));
      }
    } else {
      fs.WritePtrs(triple[a], double[b := 0]);
      RollBack(s, s1, k1, top, Now(fs, ptr', s.t, cnt'));
    }
  }

  /** The new blocks on the three levels down to the single indirect block k. */
  lemma ThreeLevels(s: Snap, s': Snap, k: Key)
    requires Sound(s) && Sound(s') && k.Sub? && k.parent.Sub? && k.parent.parent.Root?
    requires k in s'.t && k.parent in s'.t && k.parent.parent in s'.t
    ensures s'.t[k] != s'.t[k.parent] && s'.t[k] != s'.t[k.parent.parent] && s'.t[k.parent] != s'.t[k.parent.parent]
    ensures {s'.t[k], s'.t[k.parent], s'.t[k.parent.parent]} <= s'.used
    ensures k.parent in s.t ==> k.parent.parent in s.t
    ensures k !in s.t && k.parent in s.t ==> NewBlocks(s.t, s'.t, k) == {s'.t[k]} && Missing(s.t, k) == 1
    ensures k.parent !in s.t && k.parent.parent in s.t ==>
              NewBlocks(s.t, s'.t, k) == {s'.t[k], s'.t[k.parent]} && Missing(s.t, k) == 2
    ensures k.parent.parent !in s.t ==>
              NewBlocks(s.t, s'.t, k) == {s'.t[k], s'.t[k.parent], s'.t[k.parent.parent]} && Missing(s.t, k) == 3
  {
    UnfoldPath(s.t, s'.t, k);
    UnfoldPath(s.t, s'.t, k.parent);
    UnfoldPath(s.t, s'.t, k.parent.parent);
    if k in s.t { ParentIn(s, k); }
    if k.parent in s.t { ParentIn(s, k.parent); }
  }

  /** The triple branch from the double indirect block down, ALLOC mode. */
  method AllocTriplyBelow(fs: Volume, ptr: seq<nat>, triple: seq<nat>, a: nat, b: nat, c: nat, mintedT: bool, mintedD: bool,
                          cnt: int, ghost t: Tree, ghost s: Snap)
    returns (st: Status, out: nat, ptr': seq<nat>, cnt': int, ghost t': Tree)
    requires fs.BlocksReady() && a < 1024 && b < 1024 && c < 1024 && NoEmpty(s.t)
    requires (mintedT <==> Root(14) !in s.t) && (mintedD <==> Sub(Root(14), a) !in s.t)
    requires Progress(s, Now(fs, ptr, t, cnt), Sub(Root(14), a), mintedD, if mintedT then Root(14) else Sub(Root(14), a))
    requires |ptr| == 15 && Root(14) in t && t[Root(14)] == ptr[14] < |fs.disk| && triple == Ptrs(fs.disk[ptr[14]])
    requires Sub(Root(14), a) in t && t[Sub(Root(14), a)] == triple[a] < |fs.disk|
    modifies fs`disk, fs.blocks
    ensures fs.BlocksReady() && st != Empty
    ensures st == BlockError ==> OutOfSpace(s, Now(fs, ptr', t', cnt'), Sub(Sub(Sub(Root(14), a), b), c))
    ensures st == Mapped ==> Allocated(s, Now(fs, ptr', t', cnt'), Sub(Sub(Sub(Root(14), a), b), c), out)
  {
    hide Ptrs, ValidKey, OnPath, Sound, Reached, Progress, Untouched, OutOfSpace, Allocated, Missing, NoEmpty, Volume.BlocksReady;
    ghost var k3, k2 := Root(14), Sub(Root(14), a);
    ghost var k1, k0 := Sub(k2, b), Sub(Sub(k2, b), c);
    ghost var s1 := Now(fs, ptr, t, cnt);
    ptr' := ptr;
    ghost var top2 := if mintedT then k3 else k2;
    ProgressSound(s, s1, k2, mintedD, top2);
    if k2 in s.t { ParentIn(s, k2); }
    Distinct(s1, k2, k3);
    var ok, mintedS, leaf;
    var double := fs.ReadPtrs(triple[a]);
    ok, mintedS, double, cnt', t' := EnsureEntry(fs, ptr, triple[a], double, b, false, cnt, k2, t, s, mintedD, top2);
    if !ok {
      ptr', cnt' := UnmintTwo(fs, ptr, 14, triple, a, mintedT, mintedD, cnt', t', s);
      NoRoom(s, Now(fs, ptr', s.t, cnt'), k1, k0);
      return BlockError, 0, ptr', cnt', s.t;
    }
    ghost var top1 := if mintedD then top2 else k1;
    ProgressSound(s, Now(fs, ptr, t', cnt'), k1, mintedS, top1);
    Distinct(Now(fs, ptr, t', cnt'), k1, k2);
    Distinct(Now(fs, ptr, t', cnt'), k1, k3);
    var single := fs.ReadPtrs(double[b]);
    ok, leaf, single, cnt', t' := EnsureEntry(fs, ptr, double[b], single, c, true, cnt', k1, t', s, mintedS, top1);
    if !ok {
      ptr', cnt' := UnmintThree(fs, ptr, triple, double, a, b, mintedT, mintedD, mintedS, cnt', t', s, top1);
      NoRoom(s, Now(fs, ptr', s.t, cnt'), k0, k0);
      return BlockError, 0, ptr', cnt', s.t;
    }
    ProgressSound(s, Now(fs, ptr', t', cnt'), k0, leaf, if mintedS then top1 else k0);
    ReachedAllocated(s, Now(fs, ptr', t', cnt'), k0);
    st, out := Mapped, single[c];
  }

  /** File blocks from 1049612 on, ALLOC mode. */
  method AllocTriply(fs: Volume, ptr: seq<nat>, i: nat, cnt: int, ghost t: Tree)
    returns (st: Status, out: nat, ptr': seq<nat>, cnt': int, ghost t': Tree)
    requires fs.BlocksReady() && Sound(Now(fs, ptr, t, cnt)) && NoEmpty(t) && 1049612 <= i < MAX_FILE_BLOCKS
    modifies fs`disk, fs.blocks
    ensures fs.BlocksReady() && st != Empty
    ensures st == BlockError ==> OutOfSpace(old(Now(fs, ptr, t, cnt)), Now(fs, ptr', t', cnt'), Path(i))
    ensures st == Mapped ==> Allocated(old(Now(fs, ptr, t, cnt)), Now(fs, ptr', t', cnt'), Path(i), out)
  {
    hide Ptrs, ValidKey, OnPath, Sound, Reached, Progress, Untouched, OutOfSpace, Allocated, Missing, NoEmpty, Volume.BlocksReady;
    var rel := i - 1049612;
    var a, b, c := rel / 1048576, (rel / 1024) % 1024, rel % 1024;
    ghost var k3, k2 := Root(14), Sub(Root(14), a);
    ghost var k0 := Sub(Sub(k2, b), c);
    ghost var s := Now(fs, ptr, t, cnt);
    UntouchedRefl(s);
    var ok, mintedT, mintedD;
    ok, mintedT, ptr', cnt', t' := EnsureRoot(fs, ptr, 14, cnt, t);
    if !ok {
      NoRoom(s, s, k3, k0);
      return BlockError, 0, ptr', cnt', t';
    }
    var triple := fs.ReadPtrs(ptr'[14]);
    ok, mintedD, triple, cnt', t' := EnsureEntry(fs, ptr', ptr'[14], triple, a, false, cnt', k3, t', s, mintedT, k3);
    if !ok {
      ptr', cnt' := UnmintRoot(fs, ptr', 14, mintedT, cnt', t', s);
      NoRoom(s, Now(fs, ptr', t, cnt'), k2, k0);
      return BlockError, 0, ptr', cnt', t;
    }
    st, out, ptr', cnt', t' := AllocTriplyBelow(fs, ptr', triple, a, b, c, mintedT, mintedD, cnt', t', s);
  }
}
