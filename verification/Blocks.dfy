/** Disk blocks: 4096 bytes, read either as file bytes or as 1024 little-endian block pointers. */
module Blocks {


  type byte = x: int | 0 <= x < 0x100

  predicate IsWord(x: int) {
    0 <= x < 0x1_0000_0000
  }

  type Block = b: seq<byte> | |b| == 4096 witness seq(4096, _ => 0)

  /** One 32-bit pointer as four bytes, least significant first. */
  function WordBytes(w: nat): (b: seq<byte>)
    requires IsWord(w)
    ensures |b| == 4
  {
    [w % 0x100, (w / 0x100) % 0x100, (w / 0x1_0000) % 0x100, w / 0x100_0000]
  }

  function BytesWord(b: seq<byte>): (w: nat)
    requires |b| == 4
    ensures IsWord(w)
  {
    (b[0] as int) + 0x100 * (b[1] as int) + 0x1_0000 * (b[2] as int) + 0x100_0000 * (b[3] as int)
  }

  function Encode(ws: seq<nat>): (b: seq<byte>)
    requires forall i :: 0 <= i < |ws| ==> IsWord(ws[i])
    ensures |b| == 4 * |ws|
  {
    if ws == [] then [] else WordBytes(ws[0]) + Encode(ws[1..])
  }

  function Decode(b: seq<byte>): (ws: seq<nat>)
    ensures |ws| == |b| / 4
    ensures forall i :: 0 <= i < |ws| ==> IsWord(ws[i])
  {
    if |b| < 4 then [] else [BytesWord(b[..4])] + Decode(b[4..])
  }

  lemma {:induction false} DecodeEncode(ws: seq<nat>)
    requires forall i :: 0 <= i < |ws| ==> IsWord(ws[i])
    ensures Decode(Encode(ws)) == ws
  {
    if ws != [] {
      DecodeEncode(ws[1..]);
      var b := Encode(ws);
      assert b[..4] == WordBytes(ws[0]);
      assert b[4..] == Encode(ws[1..]);
      WordAgain(ws[0]);
    }
  }

  lemma WordAgain(w: nat)
    requires IsWord(w)
    ensures BytesWord(WordBytes(w)) == w
  {
    var x := w / 0x100;
    var y := x / 0x100;
    assert w / 0x1_0000 == y && w / 0x100_0000 == y / 0x100;
  }

  lemma {:induction false} EncodeDecode(b: seq<byte>)
    requires |b| % 4 == 0
    ensures Encode(Decode(b)) == b
  {
    if b != [] {
      var head: seq<byte> := b[..4];
      EncodeDecode(b[4..]);
      WordBack(head);
      assert Decode(b) == [BytesWord(head)] + Decode(b[4..]);
      assert b == head + b[4..];
    }
  }

  lemma WordBack(b: seq<byte>)
    requires |b| == 4
    ensures WordBytes(BytesWord(b)) == b
  {
    Digits(b[0], b[1], b[2], b[3]);
  }

  lemma Digits(a: byte, b: byte, c: byte, d: byte)
    ensures WordBytes((a as int) + 0x100 * (b as int) + 0x1_0000 * (c as int) + 0x100_0000 * (d as int)) == [a, b, c, d]
  {
    var z := d as int;
    var y := (c as int) + 0x100 * z;
    var x := (b as int) + 0x100 * y;
    var w := (a as int) + 0x100 * x;
    assert w / 0x100 == x && x / 0x100 == y && y / 0x100 == z;
    assert w / 0x1_0000 == y && w / 0x100_0000 == z;
  }

  /** The pointers stored in a pointer block. */
  function Ptrs(b: Block): (ws: seq<nat>)
    ensures |ws| == 1024 && forall i :: 0 <= i < |ws| ==> IsWord(ws[i])
  {
    Decode(b)
  }

  function PtrBlock(ws: seq<nat>): (b: Block)
    requires |ws| == 1024 && forall i :: 0 <= i < |ws| ==> IsWord(ws[i])
    ensures Ptrs(b) == ws
  {
    DecodeEncode(ws);
    Encode(ws)
  }

  /** A block is determined by the pointers in it. */
  lemma PtrsInjective(a: Block, b: Block)
    requires Ptrs(a) == Ptrs(b)
    ensures a == b
  {
    EncodeDecode(a);
    EncodeDecode(b);
  }

  predicate AllZero(ws: seq<nat>) {
    forall i :: 0 <= i < |ws| ==> ws[i] == 0
  }
}
