/** Shift-subtract division of 64-bit numbers (etc/lib/longops/longops.c). */
module Division {
  const TWO63: nat := 0x8000_0000_0000_0000
  const TWO64: nat := 0x1_0000_0000_0000_0000

  /** x doubled i times. */
  function Doubled(x: nat, i: nat): nat {
    if i == 0 then x else 2 * Doubled(x, i - 1)
  }

  lemma DoubledEight(x: nat, i: nat)
    ensures Doubled(x, i + 8) == 256 * Doubled(x, i)
  {
    assert Doubled(x, i + 8) == 2 * Doubled(x, i + 7) == 4 * Doubled(x, i + 6) == 8 * Doubled(x, i + 5);
    assert Doubled(x, i + 5) == 2 * Doubled(x, i + 4) == 4 * Doubled(x, i + 3) == 8 * Doubled(x, i + 2);
    assert Doubled(x, i + 2) == 2 * Doubled(x, i + 1) == 4 * Doubled(x, i);
  }

  lemma Doubled64(x: nat)
    ensures Doubled(x, 64) == TWO64 * x && Doubled(x, 63) == TWO63 * x
  {
    DoubledEight(x, 0);
    DoubledEight(x, 8);
    DoubledEight(x, 16);
    DoubledEight(x, 24);
    DoubledEight(x, 32);
    DoubledEight(x, 40);
    DoubledEight(x, 48);
    DoubledEight(x, 56);
    assert Doubled(x, 64) == 2 * Doubled(x, 63);
  }

  lemma {:induction false} DoubledGrows(i: nat, j: nat)
    requires i <= j
    ensures Doubled(1, i) <= Doubled(1, j)
    decreases j
  {
    if i < j { DoubledGrows(i, j - 1); }
  }

  /** x << 1 in 64 bits: the top bit is dropped. */
  function Shl(x: nat): nat {
    (2 * x) % TWO64
  }

  /** x >> 63. */
  function Top(x: nat): nat {
    x / TWO63
  }

  lemma ShlIs(x: nat)
    requires x < TWO64
    ensures Top(x) <= 1 && Shl(x) == 2 * x - TWO64 * Top(x) < TWO64
  {
  }

  /** The state after i steps: h is the number made of the top i bits of n0, and q and r are its quotient and remainder. */
  ghost predicate Stage(n0: nat, d: nat, i: nat, n: nat, q: nat, r: nat, h: nat) {
    && Doubled(n0, i) == TWO64 * h + n && n < TWO64 && h < Doubled(1, i) && q < Doubled(1, i)
    && h == q * d + r && r < d
  }

  lemma StageRoom(n0: nat, d: nat, i: nat, n: nat, q: nat, r: nat, h: nat)
    requires Stage(n0, d, i, n, q, r, h) && i < 64
    ensures r < TWO63 && q < TWO63
  {
    DoubledGrows(i, 63);
    Doubled64(1);
    assert q * d >= 0;
  }

  lemma StageNext(n0: nat, d: nat, i: nat, n: nat, q: nat, r: nat, h: nat)
    requires Stage(n0, d, i, n, q, r, h) && i < 64
    ensures var r1 := 2 * r + Top(n);
            && (r1 < d ==> Stage(n0, d, i + 1, Shl(n), 2 * q, r1, 2 * h + Top(n)))
            && (r1 >= d ==> Stage(n0, d, i + 1, Shl(n), 2 * q + 1, r1 - d, 2 * h + Top(n)))
  {
    ShlIs(n);
    var b := Top(n);
    hide Top, Shl;
    assert Doubled(n0, i + 1) == 2 * Doubled(n0, i) && Doubled(1, i + 1) == 2 * Doubled(1, i);
    Twice(q, d);
  }

  lemma Twice(q: nat, d: nat)
    ensures (2 * q) * d == 2 * (q * d) && (2 * q + 1) * d == 2 * (q * d) + d
  {
  }

  lemma StageEnd(n0: nat, d: nat, n: nat, q: nat, r: nat, h: nat)
    requires Stage(n0, d, 64, n, q, r, h)
    ensures n0 == h
  {
    Doubled64(n0);
  }

  /** __udivmoddi4; d == 0 raises a division error instead. */
  method UDivMod(n0: nat, d: nat) returns (q: nat, r: nat)
    requires n0 < TWO64 && 0 < d < TWO64
    ensures n0 == q * d + r && r < d && q < TWO64
  {
    hide Stage, Shl, Top;
    var n := n0;
    q, r := 0, 0;
    ghost var h: nat := 0;
    assert Stage(n0, d, 0, n, q, r, h) by { Start(n0, d); }
    for i := 0 to 64
      invariant Stage(n0, d, i, n, q, r, h)
    {
      StageRoom(n0, d, i, n, q, r, h);
      StageNext(n0, d, i, n, q, r, h);
      Exact(r);
      Exact(q);
      h := 2 * h + Top(n);
      r := Shl(r) + Top(n);   // the or of an even number and a bit
      n := Shl(n);
      q := Shl(q);
      if r >= d {
        r := r - d;
        q := q + 1;
      }
    }
    StageEnd(n0, d, n, q, r, h);
    Final(n0, d, n, q, r, h);
  }

  lemma Start(n0: nat, d: nat)
    requires n0 < TWO64 && 0 < d
    ensures Stage(n0, d, 0, n0, 0, 0, 0)
  {
  }

  /** Below 2^63 the left shift drops no bit. */
  lemma Exact(x: nat)
    requires x < TWO63
    ensures Shl(x) == 2 * x
  {
  }

  lemma Final(n0: nat, d: nat, n: nat, q: nat, r: nat, h: nat)
    requires Stage(n0, d, 64, n, q, r, h) && h == n0
    ensures n0 == q * d + r && r < d && q < TWO64
  {
    Doubled64(1);
  }
}
