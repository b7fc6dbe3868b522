/**
Disk blocks of BSIZE bytes (fs.h), and the two ways the kernel looks inside one
other than as plain bytes: as an array of little-endian 32-bit words (the log
header, an indirect block) and as an array of bits (the free map).
*/
module Blocks {
  import opened Param

  const BSIZE := 512
  const WORDS := 128 // BSIZE / sizeof(uint)

  type Bytes = b: seq<Byte> | |b| == BSIZE witness seq(BSIZE, _ => 0)
  datatype Block = Block(bytes: Bytes)

  function ZeroBlock(): (b: Block)
    ensures forall k :: 0 <= k < BSIZE ==> b.bytes[k] == 0
  {
    Block(seq(BSIZE, _ => 0))
  }

  /** `((uint*)b)[k]` */
  function Word(b: Block, k: nat): (w: nat)
    requires k < WORDS
    ensures w < UINT_MOD
  {
    var b0: nat, b1: nat, b2: nat, b3: nat :=
      b.bytes[4 * k], b.bytes[4 * k + 1], b.bytes[4 * k + 2], b.bytes[4 * k + 3];
    b0 + 0x100 * b1 + 0x1_0000 * b2 + 0x100_0000 * b3
  }

  /** `((uint*)b)[k] = w` */
  function PutWord(b: Block, k: nat, w: nat): (r: Block)
    requires k < WORDS && w < UINT_MOD
    ensures Word(r, k) == w
    ensures forall j {:trigger Word(r, j)} :: 0 <= j < WORDS && j != k ==> Word(r, j) == Word(b, j)
  {
    var w1, w2, w3 := w / 0x100, w / 0x100 / 0x100, w / 0x100 / 0x100 / 0x100;
    BytesOfWord(w);
    Block(b.bytes[4 * k := w % 0x100][4 * k + 1 := w1 % 0x100][4 * k + 2 := w2 % 0x100][4 * k + 3 := w3])
  }

  lemma BytesOfWord(w: nat)
    requires w < UINT_MOD
    ensures var w1, w2, w3 := w / 0x100, w / 0x100 / 0x100, w / 0x100 / 0x100 / 0x100;
            && w3 < 0x100
            && w == w % 0x100 + 0x100 * (w1 % 0x100) + 0x1_0000 * (w2 % 0x100) + 0x100_0000 * w3
  {
    var w1 := w / 0x100;
    assert w == w % 0x100 + 0x100 * w1;
    var w2 := w1 / 0x100;
    assert w1 == w1 % 0x100 + 0x100 * w2;
    assert w2 == w2 % 0x100 + 0x100 * (w2 / 0x100);
  }

  function Pow2(w: nat): (p: nat)
  {
    if w == 0 then 1 else 2 * Pow2(w - 1)
  }

  /** `(x & (1 << k)) != 0` */
  predicate TestBit(x: nat, k: nat)
  {
    if k == 0 then x % 2 == 1 else TestBit(x / 2, k - 1)
  }

  /** `x | (1 << k)` or `x & ~(1 << k)` */
  function PutBit(x: nat, k: nat, v: bool): (r: nat)
  {
    if k == 0 then x / 2 * 2 + (if v then 1 else 0)
    else 2 * PutBit(x / 2, k - 1, v) + x % 2
  }

  lemma {:induction false} PutBitAt(x: nat, k: nat, v: bool, j: nat)
    ensures TestBit(PutBit(x, k, v), j) <==> if j == k then v else TestBit(x, j)
  {
    if k > 0 && j > 0 {
      PutBitAt(x / 2, k - 1, v, j - 1);
      assert PutBit(x, k, v) / 2 == PutBit(x / 2, k - 1, v);
    }
  }

  /** A bit below the width stays within the width. */
  lemma {:induction false} PutBitFits(x: nat, k: nat, v: bool, w: nat)
    requires k < w && x < Pow2(w)
    ensures PutBit(x, k, v) < Pow2(w)
  {
    if k > 0 { PutBitFits(x / 2, k - 1, v, w - 1); }
  }

  /** Bit k of a free-map block: bit k % 8 of byte k / 8. */
  predicate Bit(b: Block, k: nat)
    requires k < 8 * BSIZE
  {
    TestBit(b.bytes[k / 8], k % 8)
  }

  function PutBlockBit(b: Block, k: nat, v: bool): (r: Block)
    requires k < 8 * BSIZE
    ensures forall j {:trigger Bit(r, j)} :: 0 <= j < 8 * BSIZE ==> Bit(r, j) == if j == k then v else Bit(b, j)
  {
    PutByteBit(b, k, v);
    Block(b.bytes[k / 8 := PutBit(b.bytes[k / 8], k % 8, v)])
  }

  lemma PutByteBit(b: Block, k: nat, v: bool)
    requires k < 8 * BSIZE
    ensures PutBit(b.bytes[k / 8], k % 8, v) < 256
    ensures forall j :: 0 <= j < 8 ==>
              TestBit(PutBit(b.bytes[k / 8], k % 8, v), j) == if j == k % 8 then v else TestBit(b.bytes[k / 8], j)
  {
    assert Pow2(8) == 256;
    PutBitFits(b.bytes[k / 8], k % 8, v, 8);
    forall j | 0 <= j < 8
      ensures TestBit(PutBit(b.bytes[k / 8], k % 8, v), j) == if j == k % 8 then v else TestBit(b.bytes[k / 8], j)
    {
      PutBitAt(b.bytes[k / 8], k % 8, v, j);
    }
  }
}
