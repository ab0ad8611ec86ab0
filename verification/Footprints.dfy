/** How many blocks a file occupies, pointer blocks included, given which of its file blocks are mapped. */
module Footprints {
  import opened Blocks
  import opened BlockTree
  import opened MapFileBlock
  import opened FileBlocks
  import opened FileSystem

  /** The positions on the way to k. */
  ghost function Above(k: Key): set<Key> {
    {k} + if k.Sub? then Above(k.parent) else {}
  }

  /** File block j is below a, or from b on and below c. */
  predicate Within(j: nat, a: nat, b: nat, c: nat) {
    j < a || b <= j < c
  }

  /** Exactly the file blocks below a, and those from b on and below c, are mapped. */
  ghost predicate Spans(s: Snap, a: nat, b: nat, c: nat) {
    forall j :: 0 <= j < MAX_FILE_BLOCKS ==> (IsMapped(s, j) <==> Within(j, a, b, c))
  }

  /** The positions on the ways to these file blocks. */
  ghost function Ways(a: nat, b: nat, c: nat): set<Key> {
    set j: nat, k | j < MAX_FILE_BLOCKS && Within(j, a, b, c) && k in Above(Path(j)) :: k
  }

  /** The number of blocks that these file blocks take. */
  ghost function Weight(a: nat, b: nat, c: nat): nat {
    |Ways(a, b, c)|
  }

  /** The number of blocks that a file without holes takes. */
  ghost function Footprint(n: nat): nat {
    Weight(n, n, n)
  }

  lemma {:induction false} AboveHeight(k: Key, x: Key)
    requires x in Above(k)
    ensures Height(x) >= Height(k) && (x.Sub? ==> x.parent in Above(k))
  {
    if x != k { AboveHeight(k.parent, x); }
  }

  lemma {:induction false} AboveIn(s: Snap, k: Key)
    requires Sound(s) && k in s.t
    ensures Above(k) <= s.t.Keys
  {
    if k.Sub? { AboveIn(s, k.parent); }
  }

  /** Below every occupied position lies a mapped file block. */
  lemma {:induction false} LeafBelow(s: Snap, k: Key) returns (j: nat)
    requires Good(s) && k in s.t
    ensures j < MAX_FILE_BLOCKS && IsMapped(s, j) && k in Above(Path(j))
    decreases if Height(k) < 0 then 0 else Height(k)
  {
    HeightBound(k);
    if Height(k) == 0 {
      PathIndex(k);
      j := Index(k);
    } else {
      assert HasChild(s.t, k);
      var x :| 0 <= x < 1024 && Sub(k, x) in s.t;
      j := LeafBelow(s, Sub(k, x));
      AboveHeight(Path(j), Sub(k, x));
    }
  }

  lemma OnWay(s: Snap, a: nat, b: nat, c: nat, k: Key)
    requires Good(s) && Spans(s, a, b, c) && k in s.t
    ensures k in Ways(a, b, c)
  {
    hide Good, IsMapped, Above;
    var j := LeafBelow(s, k);
  }

  lemma WayTaken(s: Snap, a: nat, b: nat, c: nat, k: Key)
    requires Good(s) && Spans(s, a, b, c) && k in Ways(a, b, c)
    ensures k in s.t
  {
    hide Sound, NoEmpty, Above, Path;
    var j: nat :| j < MAX_FILE_BLOCKS && Within(j, a, b, c) && k in Above(Path(j));
    assert IsMapped(s, j);
    SlotSound(s, j);
    AboveIn(s, Path(j));
  }

  /** The mapped file blocks determine which positions are occupied. */
  lemma TreeWays(s: Snap, a: nat, b: nat, c: nat)
    requires Good(s) && Spans(s, a, b, c)
    ensures s.t.Keys == Ways(a, b, c) && |s.t| == Weight(a, b, c)
  {
    hide Good, Spans, Ways;
    forall k | k in s.t ensures k in Ways(a, b, c) { OnWay(s, a, b, c, k); }
    forall k | k in Ways(a, b, c) ensures k in s.t { WayTaken(s, a, b, c, k); }
    assert |s.t| == |s.t.Keys|;
  }

  lemma SolidFootprint(base: Snap, size: nat)
    requires Good(base) && HoleFree(base, size) && forall i :: 0 <= i < MAX_FILE_BLOCKS && IsMapped(base, i) ==> i < BlockCount(size)
    ensures Spans(base, BlockCount(size), BlockCount(size), BlockCount(size)) && |base.t| == Footprint(BlockCount(size))
  {
    hide IsMapped, BlockCount, Good, Weight;
    assert Spans(base, BlockCount(size), BlockCount(size), BlockCount(size));
    TreeWays(base, BlockCount(size), BlockCount(size), BlockCount(size));
  }

  lemma {:induction false} MissingIs(t: Tree, k: Key)
    ensures Missing(t, k) == |Above(k) - t.Keys|
  {
    var rest: set<Key> := {};
    if k.Sub? {
      MissingIs(t, k.parent);
      NotAboveParent(k);
      rest := Above(k.parent);
    }
    OneMore(k, rest, t.Keys);
  }

  lemma OneMore(k: Key, rest: set<Key>, taken: set<Key>)
    requires k !in rest
    ensures |{k} + rest - taken| == |rest - taken| + if k in taken then 0 else 1
  {
    if k in taken {
      assert {k} + rest - taken == rest - taken;
    } else {
      assert {k} + rest - taken == {k} + (rest - taken);
    }
  }

  lemma NotAboveParent(k: Key)
    requires k.Sub?
    ensures k !in Above(k.parent)
  {
    if k in Above(k.parent) { AboveHeight(k.parent, k); }
  }

  lemma MappedMissing(s: Snap, i: nat)
    requires Good(s) && i < MAX_FILE_BLOCKS && IsMapped(s, i)
    ensures Missing(s.t, Path(i)) == 0
  {
    SlotSound(s, i);
    MissingNone(s, Path(i));
  }

  lemma {:induction false} MissingNone(s: Snap, k: Key)
    requires Sound(s) && k in s.t
    ensures Missing(s.t, k) == 0
  {
    if k.Sub? { MissingNone(s, k.parent); }
  }

  lemma SubsetSize(x: set<Key>, y: set<Key>)
    requires x <= y
    ensures |x| <= |y|
  {
    assert y == x + (y - x);
  }

  /** The target comprises the mapped blocks. */
  ghost predicate Covers(a': nat, b': nat, c': nat, a: nat, b: nat, c: nat) {
    forall j: nat :: Within(j, a, b, c) ==> Within(j, a', b', c')
  }

  lemma WeightMore(a: nat, b: nat, c: nat, a': nat, b': nat, c': nat)
    requires Covers(a', b', c', a, b, c)
    ensures Ways(a, b, c) <= Ways(a', b', c') && Weight(a, b, c) <= Weight(a', b', c')
  {
    SubsetSize(Ways(a, b, c), Ways(a', b', c'));
  }

  /** File block i does not fit, so that whatever comprises it did not fit from the start. */
  lemma TooFew(base: Snap, s: Snap, a: nat, b: nat, c: nat, i: nat, a': nat, b': nat, c': nat)
    requires Step(base, s) && Spans(s, a, b, c) && i < MAX_FILE_BLOCKS && Missing(s.t, Path(i)) > s.free
    requires Covers(a', b', c', a, b, c) && Within(i, a', b', c')
    ensures base.free + |base.t| < Weight(a', b', c')
  {
    hide OthersKept, Sound;
    TreeWays(s, a, b, c);
    MissingIs(s.t, Path(i));
    WeightMore(a, b, c, a', b', c');
    var extra := Above(Path(i)) - s.t.Keys;
    assert |s.t.Keys + extra| == |s.t.Keys| + |extra|;
    SubsetSize(s.t.Keys + extra, Ways(a', b', c'));
  }

  /** What is mapped has fitted. */
  lemma Fitted(base: Snap, s: Snap, a: nat, b: nat, c: nat, a': nat, b': nat, c': nat)
    requires Step(base, s) && Spans(s, a, b, c) && Covers(a, b, c, a', b', c')
    ensures base.free + |base.t| >= Weight(a', b', c')
  {
    hide OthersKept, Sound;
    TreeWays(s, a, b, c);
    WeightMore(a', b', c', a, b, c);
  }

  // ----- the footprint as a number

  const DOUBLY: nat := 1049612   // the file blocks reached without triple indirection, more than a 32-bit size has

  /** The pointer blocks of a file of n blocks without holes. */
  function Pointers(n: nat): nat {
    (if n <= 12 then 0 else 1) + (if n <= 1036 then 0 else 1 + (n - 1036 + 1023) / 1024)
  }

  lemma AboveIs(j: nat)
    requires j < DOUBLY
    ensures Above(Path(j)) ==
            if j < 12 then {Root(j)} else if j < 1036 then {Sub(Root(12), j - 12), Root(12)}
            else {Sub(Sub(Root(13), (j - 1036) / 1024), (j - 1036) % 1024), Sub(Root(13), (j - 1036) / 1024), Root(13)}
  {
    var k := Path(j);
    if j >= 12 {
      assert Above(k) == {k} + Above(k.parent);
      if j >= 1036 { assert Above(k.parent) == {k.parent} + Above(k.parent.parent); }
    }
  }

  /** Position k lies on the way to an earlier file block. */
  ghost predicate Taken(k: Key, n: nat) {
    exists j: nat :: j < n && j < MAX_FILE_BLOCKS && k in Above(Path(j))
  }

  lemma LeafNew(n: nat)
    requires n < MAX_FILE_BLOCKS
    ensures !Taken(Path(n), n)
  {
    forall j: nat | j < n && j < MAX_FILE_BLOCKS ensures Path(n) !in Above(Path(j)) {
      if Path(n) in Above(Path(j)) { OwnHeight(Path(j), Path(n)); PathInjective(j, n); }
    }
  }

  lemma OwnHeight(k: Key, x: Key)
    requires x in Above(k) && Height(x) == Height(k)
    ensures x == k
  {
    if x != k { AboveHeight(k.parent, x); }
  }

  lemma SinglyTaken(n: nat)
    requires 12 <= n < 1036
    ensures Taken(Root(12), n) <==> n > 12
  {
    hide Path, Above;
    AboveIs(12);
    forall j: nat | j < 12 { AboveIs(j); }
  }

  lemma DoublyTaken(n: nat)
    requires 1036 <= n < DOUBLY
    ensures Taken(Root(13), n) <==> n > 1036
  {
    hide Path, Above;
    AboveIs(1036);
    forall j: nat | j < 1036 { AboveIs(j); }
  }

  lemma RowTaken(n: nat)
    requires 1036 <= n < DOUBLY
    ensures Taken(Sub(Root(13), (n - 1036) / 1024), n) <==> (n - 1036) % 1024 != 0
  {
    hide Path, Above;
    if (n - 1036) % 1024 != 0 {
      AboveIs(n - 1);
      assert (n - 1 - 1036) / 1024 == (n - 1036) / 1024;
    } else {
      forall j: nat | j < n ensures Sub(Root(13), (n - 1036) / 1024) !in Above(Path(j)) { AboveIs(j); }
    }
  }

  lemma TakenWays(k: Key, n: nat)
    ensures k in Ways(n, n, n) <==> Taken(k, n)
  {
    hide Above, Path;
  }

  lemma FootprintStep(n: nat)
    requires n < DOUBLY
    ensures Footprint(n + 1) == Footprint(n) + 1 + (Pointers(n + 1) - Pointers(n))
  {
    var before, added := Ways(n, n, n), Above(Path(n)) - Ways(n, n, n);
    assert Ways(n + 1, n + 1, n + 1) == before + added by { MoreWays(n); }
    assert |before + added| == |before| + |added|;
    NewPositions(n);
  }

  lemma MoreWays(n: nat)
    requires n < MAX_FILE_BLOCKS
    ensures Ways(n + 1, n + 1, n + 1) == Ways(n, n, n) + Above(Path(n))
  {
    hide Above, Path;
  }

  lemma NewPositions(n: nat)
    requires n < DOUBLY
    ensures |Above(Path(n)) - Ways(n, n, n)| == 1 + (Pointers(n + 1) - Pointers(n))
  {
    hide Ways, Taken, Above, Path;
    AboveIs(n);
    LeafNew(n);
    TakenWays(Path(n), n);
    if n < 12 {
      assert Path(n) == Root(n) by { PathIs(n); }
      assert Above(Path(n)) - Ways(n, n, n) == {Path(n)};
    } else if n < 1036 {
      NewSingly(n);
    } else {
      NewDoubly(n);
    }
  }

  lemma PathIs(n: nat)
    requires n < DOUBLY
    ensures Path(n) == if n < 12 then Root(n) else if n < 1036 then Sub(Root(12), n - 12) else Sub(Sub(Root(13), (n - 1036) / 1024), (n - 1036) % 1024)
  {
  }

  lemma NewSingly(n: nat)
    requires 12 <= n < 1036 && Path(n) !in Ways(n, n, n)
    ensures |Above(Path(n)) - Ways(n, n, n)| == 1 + (Pointers(n + 1) - Pointers(n))
  {
    hide Ways, Taken, Above, Path;
    AboveIs(n);
    PathIs(n);
    SinglyTaken(n);
    TakenWays(Root(12), n);
    assert Above(Path(n)) - Ways(n, n, n) == {Path(n)} + if n > 12 then {} else {Root(12)};
  }

  lemma NewDoubly(n: nat)
    requires 1036 <= n < DOUBLY && Path(n) !in Ways(n, n, n)
    ensures |Above(Path(n)) - Ways(n, n, n)| == 1 + (Pointers(n + 1) - Pointers(n))
  {
    hide Ways, Taken, Above, Path;
    var row := Sub(Root(13), (n - 1036) / 1024);
    AboveIs(n);
    PathIs(n);
    DoublyTaken(n);
    RowTaken(n);
    TakenWays(Root(13), n);
    TakenWays(row, n);
    var rows := if (n - 1036) % 1024 != 0 then {} else {row};
    var roots := if n > 1036 then {} else {Root(13)};
    assert Above(Path(n)) - Ways(n, n, n) == {Path(n)} + roots + rows;
    PointersDoubly(n);
    assert |{Path(n)} + roots + rows| == 1 + |roots| + |rows|;
  }

  lemma PointersDoubly(n: nat)
    requires 1036 <= n
    ensures Pointers(n + 1) - Pointers(n) == (if n > 1036 then 0 else 1) + if (n - 1036) % 1024 != 0 then 0 else 1
  {
  }

  lemma FootprintNone()
    ensures Footprint(0) == 0
  {
    hide Above, Path;
    forall k ensures k !in Ways(0, 0, 0) {}
    assert Ways(0, 0, 0) == {};
  }

  /** A file without holes takes its data blocks, the singly indirect block, the doubly indirect block and its rows. */
  lemma {:induction false} FootprintIs(n: nat)
    requires n <= DOUBLY
    ensures Footprint(n) == n + Pointers(n)
  {
    hide Footprint;
    if n == 0 {
      FootprintNone();
    } else {
      hide Pointers;
      FootprintIs(n - 1);
      FootprintStep(n - 1);
    }
  }
}
