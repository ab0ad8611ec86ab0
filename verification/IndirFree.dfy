/** indir_free_block: freeing a block tree (kernel/fs/block/blockController.c). */
module IndirFree {
  import opened Blocks
  import opened BlockTree
  import opened Bitmaps
  import opened Volumes
  import opened MapFileBlock
  import opened FreeFileBlock

  /** The blocks at and below position k. */
  ghost function Under(t: Tree, k: Key): set<nat> {
    set x | x in t && OnPath(k, x) :: t[x]
  }

  /** The blocks below the first n entries of position k. */
  ghost function UnderFirst(t: Tree, k: Key, n: nat): set<nat> {
    if n == 0 then {} else UnderFirst(t, k, n - 1) + Under(t, Sub(k, n - 1))
  }

  /** The pointer blocks at and below k are on disk as the tree says. */
  ghost predicate StoredUnder(disk: seq<Block>, t: Tree, k: Key) {
    && Rooted(t, |disk|) && Unshared(t)
    && forall x :: x in t && OnPath(k, x) && Height(x) > 0 ==> NodeStored(disk, t, x)
  }

  lemma {:induction false} OnPathTrans(a: Key, b: Key, c: Key)
    requires OnPath(a, b) && OnPath(b, c)
    ensures OnPath(a, c)
  {
    if b != c { OnPathTrans(a, b, c.parent); }
  }

  /** Two subtrees share no block unless one root lies above the other. */
  lemma UnderDisjoint(t: Tree, a: Key, b: Key)
    requires Unshared(t) && !OnPath(a, b) && !OnPath(b, a)
    ensures Under(t, a) !! Under(t, b)
  {
    forall x, y | x in t && y in t && OnPath(a, x) && OnPath(b, y) && t[x] == t[y] ensures false {
      SamePath(a, b, x);
    }
  }

  lemma SiblingsApart(k: Key, i: nat, j: nat)
    requires i != j
    ensures !OnPath(Sub(k, i), Sub(k, j))
  {
    if OnPath(Sub(k, i), k) { NotOnOwnPath(k, Sub(k, i)); }
  }

  lemma {:induction false} UnderFirstApart(t: Tree, k: Key, n: nat, m: nat)
    requires Unshared(t) && n <= m
    ensures UnderFirst(t, k, n) !! Under(t, Sub(k, m))
  {
    if n > 0 {
      UnderFirstApart(t, k, n - 1, m);
      SiblingsApart(k, n - 1, m);
      SiblingsApart(k, m, n - 1);
      UnderDisjoint(t, Sub(k, n - 1), Sub(k, m));
    }
  }

  lemma {:induction false} UnderFirstMember(t: Tree, k: Key, n: nat, j: nat)
    requires j < n
    ensures Under(t, Sub(k, j)) <= UnderFirst(t, k, n)
  {
    if j < n - 1 { UnderFirstMember(t, k, n - 1, j); }
  }

  lemma {:induction false} UnderFirstBelow(t: Tree, k: Key, n: nat)
    ensures UnderFirst(t, k, n) <= Under(t, k)
  {
    if n > 0 {
      UnderFirstBelow(t, k, n - 1);
      forall x | x in t && OnPath(Sub(k, n - 1), x) ensures OnPath(k, x) { OnPathTrans(k, Sub(k, n - 1), x); }
    }
  }

  /** A subtree is its root and the subtrees of the root's entries. */
  lemma UnderSplit(t: Tree, nblocks: nat, k: Key)
    requires Rooted(t, nblocks) && Unshared(t) && k in t
    ensures Under(t, k) == UnderFirst(t, k, 1024) + {t[k]} && t[k] !in UnderFirst(t, k, 1024)
  {
    UnderFirstBelow(t, k, 1024);
    forall b | b in Under(t, k) ensures b in UnderFirst(t, k, 1024) + {t[k]} {
      var x :| x in t && OnPath(k, x) && t[x] == b;
      if x != k {
        PathChild(k, x);
        var j :| 0 <= j < 1024 && OnPath(Sub(k, j), x);
        UnderFirstMember(t, k, 1024, j);
        assert b in Under(t, Sub(k, j));
      }
    }
    NotUnderOwn(t, nblocks, k, 1024);
  }

  lemma {:induction false} NotUnderOwn(t: Tree, nblocks: nat, k: Key, n: nat)
    requires Rooted(t, nblocks) && Unshared(t) && k in t
    ensures t[k] !in UnderFirst(t, k, n)
  {
    if n > 0 {
      NotUnderOwn(t, nblocks, k, n - 1);
      if t[k] in Under(t, Sub(k, n - 1)) {
        NotOnOwnPath(k, Sub(k, n - 1));
      }
    }
  }

  /** Nothing lies below an empty position. */
  lemma UnderEmpty(t: Tree, nblocks: nat, k: Key)
    requires Rooted(t, nblocks) && k !in t
    ensures Under(t, k) == {}
  {
    forall x | x in t && OnPath(k, x) ensures false { PathOccupied(t, nblocks, k, x); }
  }

  lemma UnderLeaf(t: Tree, nblocks: nat, k: Key)
    requires Rooted(t, nblocks) && k in t && Height(k) == 0
    ensures Under(t, k) == {t[k]}
  {
    forall x | x in t && OnPath(k, x) ensures x == k {
      HeightBound(x);
      if x != k { OnPathHigher(k, x); }
    }
  }

  lemma StoredBelow(disk: seq<Block>, t: Tree, k: Key, j: nat)
    requires StoredUnder(disk, t, k)
    ensures StoredUnder(disk, t, Sub(k, j))
  {
    forall x | x in t && OnPath(Sub(k, j), x) ensures OnPath(k, x) { OnPathTrans(k, Sub(k, j), x); }
  }

  /** indir_free_block frees exactly the tree at and below the given block. */
  method FreeUnder(fs: Volume, b: nat, layer: nat, ghost t: Tree, ghost k: Key)
    requires fs.BlocksReady() && StoredUnder(fs.disk, t, k) && b == At(t, k) && layer == Height(k) && 0 !in Under(t, k)
    requires Under(t, k) <= fs.blocks.used
    modifies fs.blocks
    ensures fs.BlocksReady() && fs.blocks.used == old(fs.blocks.used) - Under(t, k)
    ensures fs.blocks.superFree == old(fs.blocks.superFree) + |Under(t, k)|
    decreases layer
  {
    hide StoredUnder, Under, UnderFirst, Volume.BlocksReady;
    RootedHere(fs.disk, t, k);
    if b == 0 {
      UnderEmpty(t, |fs.disk|, k);
      return;
    }
    if layer == 0 {
      UnderLeaf(t, |fs.disk|, k);
      fs.FreeBlock(b);
      return;
    }
    UnderSplit(t, |fs.disk|, k);
    EntriesHere(fs.disk, t, k);
    var entries := fs.ReadPtrs(b);
    UnderFirstZero(t, k);
    ghost var used0, free0 := fs.blocks.used, fs.blocks.superFree;
    for i := 0 to 1024
      invariant fs.BlocksReady() && fs.blocks.used == used0 - UnderFirst(t, k, i)
      invariant fs.blocks.superFree == free0 + |UnderFirst(t, k, i)|
    {
      UnderFirstNext(t, k, i);
      StoredBelow(fs.disk, t, k, i);
      FreeUnder(fs, entries[i], layer - 1, t, Sub(k, i));
    }
    fs.FreeBlock(b);
  }

  lemma UnderFirstZero(t: Tree, k: Key)
    ensures UnderFirst(t, k, 0) == {}
  {
  }

  lemma UnderFirstNext(t: Tree, k: Key, i: nat)
    requires Unshared(t) && i < 1024
    ensures UnderFirst(t, k, i + 1) == UnderFirst(t, k, i) + Under(t, Sub(k, i))
    ensures UnderFirst(t, k, i) !! Under(t, Sub(k, i))
    ensures Under(t, Sub(k, i)) <= UnderFirst(t, k, 1024)
  {
    UnderFirstApart(t, k, i, i);
    UnderFirstMember(t, k, 1024, i);
  }

  lemma RootedHere(disk: seq<Block>, t: Tree, k: Key)
    requires StoredUnder(disk, t, k)
    ensures Rooted(t, |disk|) && Unshared(t)
  {
  }

  lemma EntriesHere(disk: seq<Block>, t: Tree, k: Key)
    requires StoredUnder(disk, t, k) && k in t && Height(k) > 0
    ensures 0 < t[k] < |disk| && forall j :: 0 <= j < 1024 ==> Ptrs(disk[t[k]])[j] == At(t, Sub(k, j))
  {
    assert OnPath(k, k) && NodeStored(disk, t, k);
  }

  // ----- the whole tree

  ghost function AllBlocks(t: Tree): set<nat> {
    set x | x in t :: t[x]
  }

  lemma {:induction false} AllBlocksCount(t: Tree)
    requires Unshared(t)
    ensures |AllBlocks(t)| == |t|
    decreases |t|
  {
    if t != map[] {
      var k :| k in t;
      var r := t - {k};
      assert |r| == |t| - 1 by { assert r.Keys == t.Keys - {k}; }
      AllBlocksCount(r);
      forall b | b in AllBlocks(t) ensures b in AllBlocks(r) + {t[k]} {
        var x :| x in t && t[x] == b;
        assert x != k ==> x in r && r[x] == b;
      }
      forall b | b in AllBlocks(r) ensures b in AllBlocks(t) && b != t[k] {
        var x :| x in r && r[x] == b;
      }
      assert t[k] in AllBlocks(t);
      assert AllBlocks(t) == AllBlocks(r) + {t[k]};
    } else {
      assert AllBlocks(t) == {};
    }
  }

  /** The blocks below the first n inode pointers. */
  ghost function UnderRoots(t: Tree, n: nat): set<nat> {
    if n == 0 then {} else UnderRoots(t, n - 1) + Under(t, Root(n - 1))
  }

  lemma {:induction false} UnderRootsApart(t: Tree, n: nat, m: nat)
    requires Unshared(t) && n <= m
    ensures UnderRoots(t, n) !! Under(t, Root(m))
  {
    if n > 0 {
      UnderRootsApart(t, n - 1, m);
      UnderDisjoint(t, Root(n - 1), Root(m));
    }
  }

  lemma {:induction false} RootOf(k: Key) returns (slot: nat)
    requires ValidKey(k)
    ensures slot < 15 && OnPath(Root(slot), k)
  {
    if k.Root? {
      slot := k.slot;
    } else {
      slot := RootOf(k.parent);
    }
  }

  lemma {:induction false} UnderRootsMember(t: Tree, n: nat, m: nat)
    requires m < n
    ensures Under(t, Root(m)) <= UnderRoots(t, n)
  {
    if m < n - 1 { UnderRootsMember(t, n - 1, m); }
  }

  lemma {:induction false} UnderRootsInside(t: Tree, n: nat)
    ensures UnderRoots(t, n) <= AllBlocks(t)
  {
    if n > 0 { UnderRootsInside(t, n - 1); }
  }

  lemma UnderRootsAll(t: Tree, nblocks: nat)
    requires Rooted(t, nblocks)
    ensures UnderRoots(t, 15) == AllBlocks(t)
  {
    UnderRootsInside(t, 15);
    forall b | b in AllBlocks(t) ensures b in UnderRoots(t, 15) {
      var x :| x in t && t[x] == b;
      var slot := RootOf(x);
      UnderRootsMember(t, 15, slot);
      assert b in Under(t, Root(slot));
    }
  }

  lemma RootsNext(t: Tree, i: nat)
    requires Unshared(t) && i < 15
    ensures UnderRoots(t, i + 1) == UnderRoots(t, i) + Under(t, Root(i)) && UnderRoots(t, i) !! Under(t, Root(i))
    ensures Under(t, Root(i)) <= UnderRoots(t, 15)
  {
    UnderRootsApart(t, i, i);
    UnderRootsMember(t, 15, i);
  }

  lemma TreeStored(disk: seq<Block>, ptr: seq<nat>, t: Tree, k: Key)
    requires TreeShape(disk, ptr, t)
    ensures StoredUnder(disk, t, k) && Rooted(t, |disk|) && Unshared(t)
    ensures k.Root? && k.slot < 15 ==> |ptr| == 15 && ptr[k.slot] == At(t, k)
    ensures 0 !in AllBlocks(t)
  {
  }

  /** The first i inode pointers have been freed. */
  ghost predicate FreedTo(used: set<nat>, free: nat, used0: set<nat>, free0: nat, t: Tree, i: nat) {
    used == used0 - UnderRoots(t, i) && free == free0 + |UnderRoots(t, i)|
  }

  lemma FreedAll(used: set<nat>, free: nat, used0: set<nat>, free0: nat, t: Tree, nblocks: nat)
    requires FreedTo(used, free, used0, free0, t, 15) && Rooted(t, nblocks) && Unshared(t)
    ensures used == used0 - AllBlocks(t) && free == free0 + |t|
  {
    UnderRootsAll(t, nblocks);
    AllBlocksCount(t);
  }

  /** One inode pointer of the fifteen. */
  method FreeRoot(fs: Volume, ptr: seq<nat>, i: nat, layer: nat, ghost t: Tree, ghost used0: set<nat>, ghost free0: nat)
    requires fs.BlocksReady() && TreeShape(fs.disk, ptr, t) && i < 15 && |ptr| == 15 && layer == Height(Root(i))
    requires UnderRoots(t, 15) <= used0 && 0 !in UnderRoots(t, 15)
    requires FreedTo(fs.blocks.used, fs.blocks.superFree, used0, free0, t, i)
    modifies fs.blocks
    ensures fs.BlocksReady() && FreedTo(fs.blocks.used, fs.blocks.superFree, used0, free0, t, i + 1)
  {
    hide TreeShape, StoredUnder, Under, UnderRoots, Volume.BlocksReady;
    TreeStored(fs.disk, ptr, t, Root(i));
    RootsNext(t, i);
    FreeUnder(fs, ptr[i], layer, t, Root(i));
  }

  /** The calls that delete_inode and replace_inode make: all fifteen pointers of the inode. */
  method FreeTree(fs: Volume, ptr: seq<nat>, ghost t: Tree)
    requires fs.BlocksReady() && TreeShape(fs.disk, ptr, t) && AllBlocks(t) <= fs.blocks.used
    modifies fs.blocks
    ensures fs.BlocksReady() && fs.blocks.used == old(fs.blocks.used) - AllBlocks(t)
    ensures fs.blocks.superFree == old(fs.blocks.superFree) + |t|
  {
    hide TreeShape, UnderRoots, AllBlocks, FreedTo, Rooted, Unshared, Volume.BlocksReady;
    TreeStored(fs.disk, ptr, t, Root(0));
    UnderRootsAll(t, |fs.disk|);
    ghost var used0, free0 := fs.blocks.used, fs.blocks.superFree;
    FreedNone(used0, free0, t);
    for i := 0 to 12
      invariant fs.BlocksReady() && FreedTo(fs.blocks.used, fs.blocks.superFree, used0, free0, t, i)
    {
      FreeRoot(fs, ptr, i, 0, t, used0, free0);
    }
    FreeRoot(fs, ptr, 12, 1, t, used0, free0);
    FreeRoot(fs, ptr, 13, 2, t, used0, free0);
    FreeRoot(fs, ptr, 14, 3, t, used0, free0);
    FreedAll(fs.blocks.used, fs.blocks.superFree, used0, free0, t, |fs.disk|);
  }

  lemma FreedNone(used: set<nat>, free: nat, t: Tree)
    ensures FreedTo(used, free, used, free, t, 0)
  {
  }
}
