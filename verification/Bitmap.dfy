/** The block and inode bitmaps with their group and superblock counters (kernel/fs/ext2/bitmapController.c). */
module Bitmaps {

  /** The C expression 1 << bit on a byte. */
  function Mask(bit: nat): bv8
    requires bit < 8
  {
    match bit
    case 0 => 0x01 case 1 => 0x02 case 2 => 0x04 case 3 => 0x08
    case 4 => 0x10 case 5 => 0x20 case 6 => 0x40 case 7 => 0x80
  }

  /** Bit k of a byte, the lowest first. */
  ghost predicate BitOf(x: bv8, k: nat)
    requires k < 8
  {
    (x >> k) & 1 == 1
  }

  /** Bit i of a bitmap block. */
  ghost predicate Bit(map8: seq<bv8>, i: nat)
    requires i < 8 * |map8|
  {
    BitOf(map8[i / 8], i % 8)
  }

  lemma Masked(x: bv8, k: nat)
    requires k < 8
    ensures x & Mask(k) != 0 <==> BitOf(x, k)
  {
  }

  function Switched(x: bv8, k: nat, on: bool): bv8
    requires k < 8
  {
    if on then x | Mask(k) else x & !Mask(k)
  }

  lemma SwitchedAt(x: bv8, a: nat, on: bool, b: nat)
    requires a < 8 && b < 8
    ensures BitOf(Switched(x, a, on), b) <==> if a == b then on else BitOf(x, b)
  {
    hide BitOf;
    Masked(x, b);
    Masked(Switched(x, a, on), b);
  }

  function WithBit(map8: seq<bv8>, i: nat, on: bool): (r: seq<bv8>)
    requires i < 8 * |map8|
    ensures |r| == |map8|
  {
    map8[i / 8 := Switched(map8[i / 8], i % 8, on)]
  }

  /** Setting or clearing the masked bit of one byte changes that bit of the map and no other. */
  lemma WithBitAt(map8: seq<bv8>, i: nat, on: bool, j: nat)
    requires i < 8 * |map8| && j < 8 * |map8|
    ensures Bit(WithBit(map8, i, on), j) == if j == i then on else Bit(map8, j)
  {
    hide BitOf, Switched;
    if i / 8 == j / 8 {
      SwitchedAt(map8[i / 8], i % 8, on, j % 8);
      assert i % 8 == j % 8 <==> i == j;
    }
  }

  /** The byte and bit loops: the lowest clear bit of the first scanBytes bytes, if there is one. */
  method FirstClear(map8: seq<bv8>, scanBytes: nat) returns (found: bool, idx: nat)
    requires scanBytes <= |map8|
    ensures found ==> idx < 8 * scanBytes && !Bit(map8, idx)
    ensures forall i :: 0 <= i < (if found then idx else 8 * scanBytes) ==> Bit(map8, i)
  {
    hide BitOf, Mask;
    idx := 0;
    var byteIdx := 0;
    while byteIdx < scanBytes
      invariant byteIdx <= scanBytes && idx == 8 * byteIdx
      invariant forall i :: 0 <= i < idx ==> Bit(map8, i)
    {
      var bit := 0;
      while bit < 8
        invariant bit <= 8 && idx == 8 * byteIdx + bit
        invariant forall i :: 0 <= i < idx ==> Bit(map8, i)
      {
        assert idx / 8 == byteIdx && idx % 8 == bit;
        Masked(map8[byteIdx], bit);
        if map8[byteIdx] & Mask(bit) == 0 {
          return true, idx;
        }
        idx := idx + 1;
        bit := bit + 1;
      }
      byteIdx := byteIdx + 1;
    }
    found := false;
  }

  /** How many of the first n bits are clear. */
  ghost function Clear(map8: seq<bv8>, n: nat): nat
    requires n <= 8 * |map8|
  {
    if n == 0 then 0 else Clear(map8, n - 1) + if Bit(map8, n - 1) then 0 else 1
  }

  lemma {:induction false} ClearUpdate(map8: seq<bv8>, i: nat, on: bool, n: nat)
    requires i < 8 * |map8| && n <= 8 * |map8| && Bit(map8, i) != on
    ensures Clear(WithBit(map8, i, on), n) == Clear(map8, n) + if i >= n then 0 else if on then -1 else 1
  {
    if n > 0 {
      ClearUpdate(map8, i, on, n - 1);
      WithBitAt(map8, i, on, n - 1);
    }
  }

  lemma {:induction false} NoneClear(map8: seq<bv8>, n: nat)
    requires n <= 8 * |map8|
    requires forall i :: 0 <= i < n ==> Bit(map8, i)
    ensures Clear(map8, n) == 0
  {
    if n > 0 { NoneClear(map8, n - 1); }
  }

  function Sum(s: seq<nat>): nat {
    if s == [] then 0 else s[0] + Sum(s[1..])
  }

  lemma {:induction false} SumUpdate(s: seq<nat>, g: nat, v: nat)
    requires g < |s|
    ensures Sum(s[g := v]) == Sum(s) - s[g] + v
  {
    if g == 0 {
      assert s[g := v][1..] == s[1..];
    } else {
      assert s[g := v][1..] == s[1..][g - 1 := v];
      SumUpdate(s[1..], g - 1, v);
    }
  }

  lemma {:induction false} SumZero(s: seq<nat>)
    ensures Sum(s) == 0 <==> forall g :: 0 <= g < |s| ==> s[g] == 0
  {
    if s != [] {
      SumZero(s[1..]);
      assert forall g :: 1 <= g < |s| ==> s[g] == s[1..][g - 1];
    }
  }

  /** The first number of group g, counted from the first group: g * per. */
  function Base(g: nat, per: nat): nat {
    if g == 0 then 0 else Base(g - 1, per) + per
  }

  lemma {:induction false} BaseIsProduct(g: nat, per: nat)
    ensures Base(g, per) == g * per
  {
    if g > 0 {
      BaseIsProduct(g - 1, per);
      assert g * per == (g - 1) * per + per;
    }
  }

  lemma {:induction false} BaseMonotone(g: nat, h: nat, per: nat)
    requires g <= h
    ensures Base(g, per) + (if g < h then per else 0) <= Base(h, per)
  {
    if g < h { BaseMonotone(g, h - 1, per); }
  }

  /**
   * One kind of bitmap over all block groups.  For blocks `first` is the superblock's block number, `fail` is
   * BLOCK_ERROR (0) and 4096 bytes are searched; for inodes `first` is 1, `fail` is INODE_ERROR (1) and
   * inodes_per_grp / 8 bytes are searched.
   */
  class Bitmap {
    const perGroup: nat
    const first: nat
    const limit: nat       // block_cnt, or inode_cnt + 1
    const scanBytes: nat
    const fail: nat
    var maps: seq<seq<bv8>>
    var groupFree: seq<nat>
    var superFree: nat
    ghost var used: set<nat>

    predicate InRange(n: nat) {
      first <= n < limit
    }

    /** The number that bit i of group g stands for. */
    ghost function Number(g: nat, i: nat): nat {
      Base(g, perGroup) + i + first
    }

    ghost predicate Valid()
      reads this
    {
      && 0 < perGroup <= 8 * scanBytes && scanBytes <= 4096
      && |maps| == |groupFree| && first <= limit <= first + Base(|maps|, perGroup)
      && (forall g :: 0 <= g < |maps| ==> |maps[g]| == 4096 && groupFree[g] == Clear(maps[g], 8 * scanBytes))
      && superFree == Sum(groupFree)
      // a bit is clear exactly when it stands for a free number: padding bits are set
      && (forall g, i :: 0 <= g < |maps| && 0 <= i < 8 * scanBytes ==>
            (Bit(maps[g], i) <==> (i < perGroup && InRange(Number(g, i)) ==> Number(g, i) in used)))
      && (forall n :: n in used ==> InRange(n))
      && |used| + superFree == limit - first
      // the value that means failure is never free
      && (InRange(fail) ==> fail in used)
    }

    /** The encoding of numbers as (group, bit) is one to one. */
    lemma NumberInjective(g: nat, i: nat, g': nat, i': nat)
      requires i < perGroup && i' < perGroup && Number(g, i) == Number(g', i')
      ensures g == g' && i == i'
    {
      if g < g' { BaseMonotone(g, g', perGroup); }
      if g' < g { BaseMonotone(g', g, perGroup); }
    }

    /** The division and remainder that free_block and free_inode start from. */
    method Locate(n: nat) returns (g: nat, idx: nat)
      requires first <= n && 0 < perGroup
      ensures idx < perGroup && Number(g, idx) == n
      ensures g < |maps| <==> n < first + Base(|maps|, perGroup)
    {
      g, idx := (n - first) / perGroup, (n - first) % perGroup;
      BaseIsProduct(g, perGroup);
      if g < |maps| { BaseMonotone(g, |maps|, perGroup); } else { BaseMonotone(|maps|, g, perGroup); }
    }

    /** alloc_block and alloc_inode. */
    method Alloc() returns (n: nat)
      requires Valid()
      modifies this
      ensures Valid()
      ensures old(superFree) == 0 ==> n == fail && used == old(used) && superFree == 0
      ensures old(superFree) > 0 ==> InRange(n) && n != fail && n !in old(used) && used == old(used) + {n}
      ensures old(superFree) > 0 ==> superFree == old(superFree) - 1
    {
      var g := 0;
      while g < |maps| && groupFree[g] == 0
        invariant g <= |maps| && forall h :: 0 <= h < g ==> groupFree[h] == 0
      {
        g := g + 1;
      }
      SumZero(groupFree);
      if g == |maps| {
        return fail;
      }
      var found, idx := FirstClear(maps[g], scanBytes);
      if !found {
        NoneClear(maps[g], 8 * scanBytes);
        assert false;  // the corrupted-count panic is unreachable
      }
      n := g * perGroup + idx + first;
      BaseIsProduct(g, perGroup);
      SetBit(g, idx, n);
    }

    /** What flipping one bit does to the whole bitmap. */
    lemma UpdateBit(g: nat, idx: nat, on: bool)
      requires Valid() && g < |maps| && idx < perGroup && Bit(maps[g], idx) != on
      ensures Clear(WithBit(maps[g], idx, on), 8 * scanBytes) + (if on then 1 else 0) == groupFree[g] + (if on then 0 else 1)
      ensures forall h, i :: 0 <= h < |maps| && 0 <= i < 8 * scanBytes ==>
                Bit(maps[g := WithBit(maps[g], idx, on)][h], i) == if h == g && i == idx then on else Bit(maps[h], i)
      ensures forall h: nat, i: nat :: i < perGroup && Number(h, i) == Number(g, idx) ==> h == g && i == idx
    {
      ClearUpdate(maps[g], idx, on, 8 * scanBytes);
      forall i | 0 <= i < 8 * scanBytes
        ensures Bit(WithBit(maps[g], idx, on), i) == if i == idx then on else Bit(maps[g], i)
      {
        WithBitAt(maps[g], idx, on, i);
      }
      forall h: nat, i: nat | i < perGroup && Number(h, i) == Number(g, idx) ensures h == g && i == idx {
        NumberInjective(h, i, g, idx);
      }
    }

    /** The found bit is set and both counters go down. */
    method SetBit(g: nat, idx: nat, ghost n: nat)
      requires Valid() && g < |maps| && idx < 8 * scanBytes && !Bit(maps[g], idx) && n == Number(g, idx)
      modifies this
      ensures Valid()
      ensures InRange(n) && n != fail && n !in old(used) && used == old(used) + {n}
      ensures superFree == old(superFree) - 1
    {
      UpdateBit(g, idx, true);
      SumUpdate(groupFree, g, groupFree[g] - 1);
      maps := maps[g := WithBit(maps[g], idx, true)];
      groupFree := groupFree[g := groupFree[g] - 1];
      superFree := superFree - 1;
      used := used + {n};
    }

    /** free_block and free_inode. */
    method Free(n: nat) returns (ok: bool)
      requires Valid() && (n != fail || n == 0)
      modifies this
      ensures Valid()
      ensures ok <==> n != 0 && InRange(n)
      ensures used == if ok then old(used) - {n} else old(used)
      ensures superFree == old(superFree) + if ok && n in old(used) then 1 else 0
    {
      hide BitOf, Mask;
      if n == 0 || n < first {
        return false;
      }
      var g, idx := Locate(n);
      if g >= |maps| || n >= limit {
        return false;
      }
      Masked(maps[g][idx / 8], idx % 8);
      if maps[g][idx / 8] & Mask(idx % 8) != 0 {
        ClearBit(g, idx, n);
      }
      ok := true;
    }

    method ClearBit(g: nat, idx: nat, ghost n: nat)
      requires Valid() && g < |maps| && idx < perGroup && Bit(maps[g], idx) && n == Number(g, idx)
      requires InRange(n) && n != fail
      modifies this
      ensures Valid() && n in old(used) && used == old(used) - {n} && superFree == old(superFree) + 1
    {
      UpdateBit(g, idx, false);
      SumUpdate(groupFree, g, groupFree[g] + 1);
      maps := maps[g := WithBit(maps[g], idx, false)];
      groupFree := groupFree[g := groupFree[g] + 1];
      superFree := superFree + 1;
      used := used - {n};
    }

    /** inode_exists. */
    method Exists(n: nat) returns (taken: bool)
      requires Valid()
      ensures taken <==> n in used
    {
      hide BitOf, Mask;
      if n < first {
        return false;
      }
      var g, idx := Locate(n);
      if g >= |maps| || n >= limit {
        return false;
      }
      Masked(maps[g][idx / 8], idx % 8);
      taken := maps[g][idx / 8] & Mask(idx % 8) != 0;
    }
  }
}
