/** The shape of an inode's block tree: 12 direct pointers and a single, a double and a triple indirect root. */
module BlockTree {
  import opened Blocks

  /** A position in the tree: one of the fifteen inode pointers, or entry j of a pointer block. */
  datatype Key = Root(slot: nat) | Sub(parent: Key, j: nat)

  /** How many pointer levels lie below a position; 0 is a data block. */
  function Height(k: Key): int {
    match k
    case Root(slot) => if slot < 12 then 0 else slot - 11
    case Sub(parent, _) => Height(parent) - 1
  }

  predicate ValidKey(k: Key) {
    match k
    case Root(slot) => slot < 15
    case Sub(parent, j) => ValidKey(parent) && Height(parent) > 0 && j < 1024
  }

  /** Which disk block sits at each occupied position. */
  type Tree = map<Key, nat>

  const MAX_FILE_BLOCKS: nat := 0x4010_040C   // 12 + 1024 + 1024^2 + 1024^3

  /** The position of file block i. */
  function Path(i: nat): (k: Key)
    requires i < MAX_FILE_BLOCKS
    ensures ValidKey(k) && Height(k) == 0
  {
    if i < 12 then Root(i)
    else if i < 1036 then Sub(Root(12), i - 12)
    else if i < 1049612 then
      var r := i - 1036;
      Sub(Sub(Root(13), r / 1024), r % 1024)
    else
      var r := i - 1049612;
      var double := Sub(Root(14), r / 1048576);
      assert ValidKey(double) && Height(double) == 2;
      Sub(Sub(double, (r / 1024) % 1024), r % 1024)
  }

  /** The file block stored at a data position. */
  function Index(k: Key): (i: nat)
    requires ValidKey(k) && Height(k) == 0
  {
    match k
    case Root(slot) => slot
    case Sub(Root(_), j) => 12 + j
    case Sub(Sub(Root(_), a), j) => 1036 + 1024 * a + j
    case Sub(Sub(Sub(Root(_), a), b), j) => 1049612 + 1048576 * a + 1024 * b + j
    case Sub(Sub(Sub(Sub(_, _), _), _), _) => 0
  }

  lemma HeightBound(k: Key)
    requires ValidKey(k)
    ensures 0 <= Height(k) <= 3
    ensures k.Sub? ==> Height(k) <= 2
  {
  }

  lemma PathIndex(k: Key)
    requires ValidKey(k) && Height(k) == 0
    ensures Index(k) < MAX_FILE_BLOCKS && Path(Index(k)) == k
  {
    if k.Sub? {
      var p := k.parent;
      assert ValidKey(p) && Height(p) == 1;
      if p.Sub? {
        var q := p.parent;
        assert ValidKey(q) && Height(q) == 2;
        if q.Sub? {
          var g := q.parent;
          assert ValidKey(g) && Height(g) == 3;
          HeightBound(g);
          var r := 1048576 * q.j + 1024 * p.j + k.j;
          assert r / 1048576 == q.j && (r / 1024) % 1024 == p.j && r % 1024 == k.j;
        } else {
          assert (1024 * p.j + k.j) / 1024 == p.j && (1024 * p.j + k.j) % 1024 == k.j;
        }
      }
    }
  }

  lemma IndexPath(i: nat)
    requires i < MAX_FILE_BLOCKS
    ensures Index(Path(i)) == i
  {
    if 1049612 <= i {
      var r := i - 1049612;
      assert r == 1048576 * (r / 1048576) + 1024 * ((r / 1024) % 1024) + r % 1024;
    }
  }

  lemma PathInjective(i: nat, j: nat)
    requires i < MAX_FILE_BLOCKS && j < MAX_FILE_BLOCKS && Path(i) == Path(j)
    ensures i == j
  {
    IndexPath(i);
    IndexPath(j);
  }

  /** The pointer value a position must hold: 0 when nothing is there. */
  function At(t: Tree, k: Key): nat {
    if k in t then t[k] else 0
  }

  /** Occupied positions are real ones, hold real blocks, and lie below occupied positions. */
  ghost predicate Rooted(t: Tree, nblocks: nat) {
    forall k :: k in t ==> ValidKey(k) && 0 < t[k] < nblocks && (k.Sub? ==> k.parent in t)
  }

  lemma NoOrphan(t: Tree, nblocks: nat, k: Key)
    requires Rooted(t, nblocks) && k.Sub? && k.parent !in t
    ensures k !in t
  {
  }

  /** No block sits at two positions. */
  ghost predicate Unshared(t: Tree) {
    forall k, k' :: k in t && k' in t && t[k] == t[k'] ==> k == k'
  }

  ghost predicate RootsStored(ptr: seq<nat>, t: Tree) {
    |ptr| == 15 && forall s :: 0 <= s < 15 ==> ptr[s] == At(t, Root(s))
  }

  ghost predicate NodeStored(disk: seq<Block>, t: Tree, k: Key)
    requires k in t && t[k] < |disk|
  {
    forall j :: 0 <= j < 1024 ==> Ptrs(disk[t[k]])[j] == At(t, Sub(k, j))
  }

  /**
   * The inode's pointers and the pointer blocks on disk store exactly the tree t: every pointer is the block
   * at that position, no block sits at two positions, and a position is occupied only below an occupied one.
   */
  ghost predicate TreeShape(disk: seq<Block>, ptr: seq<nat>, t: Tree) {
    && Rooted(t, |disk|)
    && Unshared(t)
    && RootsStored(ptr, t)
    && (forall k :: k in t && Height(k) > 0 ==> NodeStored(disk, t, k))
  }

  ghost predicate HasChild(t: Tree, k: Key) {
    exists j :: 0 <= j < 1024 && Sub(k, j) in t
  }

  /** No pointer block is all zero. */
  ghost predicate NoEmpty(t: Tree) {
    forall k :: k in t && Height(k) > 0 ==> HasChild(t, k)
  }

  ghost predicate TreeOK(disk: seq<Block>, ptr: seq<nat>, t: Tree) {
    TreeShape(disk, ptr, t) && NoEmpty(t)
  }

  /** The pointer blocks of a tree. */
  ghost function PtrBlocks(t: Tree): set<nat> {
    set k | k in t && Height(k) > 0 :: t[k]
  }

  /** The shape depends on the disk only through the pointers in the tree's own pointer blocks. */
  lemma ShapeFrame(disk: seq<Block>, ptr: seq<nat>, t: Tree, disk': seq<Block>)
    requires TreeShape(disk, ptr, t) && |disk| == |disk'|
    requires forall k :: k in t && Height(k) > 0 ==> Ptrs(disk'[t[k]]) == Ptrs(disk[t[k]])
    ensures TreeShape(disk', ptr, t)
  {
    forall k | k in t && Height(k) > 0 ensures NodeStored(disk', t, k) {
      assert NodeStored(disk, t, k);
    }
  }

  lemma GraftNode(disk: seq<Block>, t: Tree, k: Key, b: nat, disk': seq<Block>, x: Key)
    requires x in t && t[x] < |disk| == |disk'| && NodeStored(disk, t, x)
    requires Ptrs(disk'[t[x]]) == if k.Sub? && k.parent == x && k.j < 1024 then Ptrs(disk[t[x]])[k.j := b] else Ptrs(disk[t[x]])
    requires ValidKey(k) && k != x
    ensures NodeStored(disk', t[k := b], x)
  {
    forall j | 0 <= j < 1024 ensures Ptrs(disk'[t[x]])[j] == At(t[k := b], Sub(x, j)) {
      assert At(t[k := b], Sub(x, j)) == if k == Sub(x, j) then b else At(t, Sub(x, j));
    }
  }

  /** Occupying one free position below an occupied one. */
  lemma Graft(disk: seq<Block>, ptr: seq<nat>, t: Tree, k: Key, b: nat, disk': seq<Block>, ptr': seq<nat>)
    requires TreeShape(disk, ptr, t) && ValidKey(k) && k !in t
    requires 0 < b < |disk| == |disk'| && forall x :: x in t ==> t[x] != b
    requires k.Sub? ==> k.parent in t && Ptrs(disk'[t[k.parent]]) == Ptrs(disk[t[k.parent]])[k.j := b]
    requires ptr' == if k.Root? then ptr[k.slot := b] else ptr
    requires forall x :: x in t && (k.Sub? ==> x != k.parent) ==> disk'[t[x]] == disk[t[x]]
    requires Height(k) > 0 ==> AllZero(Ptrs(disk'[b]))
    ensures TreeShape(disk', ptr', t[k := b])
  {
    var t' := t[k := b];
    forall x | x in t' && Height(x) > 0 ensures NodeStored(disk', t', x) {
      if x != k {
        GraftNode(disk, t, k, b, disk', x);
      } else {
        forall j | 0 <= j < 1024 ensures Sub(k, j) !in t {
          NoOrphan(t, |disk|, Sub(k, j));
        }
      }
    }
    assert Unshared(t');
    assert Rooted(t', |disk'|);
  }

  lemma PruneNode(disk: seq<Block>, t: Tree, k: Key, disk': seq<Block>, x: Key)
    requires x in t && t[x] < |disk| == |disk'| && NodeStored(disk, t, x)
    requires Ptrs(disk'[t[x]]) == if k.Sub? && k.parent == x && k.j < 1024 then Ptrs(disk[t[x]])[k.j := 0] else Ptrs(disk[t[x]])
    requires ValidKey(k) && k != x
    ensures NodeStored(disk', t - {k}, x)
  {
    forall j | 0 <= j < 1024 ensures Ptrs(disk'[t[x]])[j] == At(t - {k}, Sub(x, j)) {
      assert At(t - {k}, Sub(x, j)) == if k == Sub(x, j) then 0 else At(t, Sub(x, j));
    }
  }

  /** Emptying one position that has nothing below it. */
  lemma Prune(disk: seq<Block>, ptr: seq<nat>, t: Tree, k: Key, disk': seq<Block>, ptr': seq<nat>)
    requires TreeShape(disk, ptr, t) && k in t && |disk| == |disk'|
    requires !HasChild(t, k)
    requires k.Sub? ==> Ptrs(disk'[t[k.parent]]) == Ptrs(disk[t[k.parent]])[k.j := 0]
    requires ptr' == if k.Root? then ptr[k.slot := 0] else ptr
    requires forall x :: x in t && x != k && (k.Sub? ==> x != k.parent) ==> disk'[t[x]] == disk[t[x]]
    ensures TreeShape(disk', ptr', t - {k})
  {
    var t' := t - {k};
    forall x | x in t' && Height(x) > 0 ensures NodeStored(disk', t', x) {
      PruneNode(disk, t, k, disk', x);
    }
    forall x | x in t' && x.Sub? ensures x.parent in t' {
      assert x == Sub(x.parent, x.j);
    }
    assert Unshared(t');
    assert Rooted(t', |disk'|);
  }
}
