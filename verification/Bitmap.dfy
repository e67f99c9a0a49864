/** The free map: one bit per disk block, packed eight to a byte and BPB to a block. */
module Bitmap {
  import opened Blocks

  const BPB := BSIZE * 8

  /** x & (1 << k): bit k of x, counting from the lowest. */
  predicate HasBit(x: nat, k: nat) {
    if k == 0 then x % 2 == 1 else HasBit(x / 2, k - 1)
  }

  /** x | (1 << k) when v holds, x & ~(1 << k) when it does not. */
  function WithBit(x: nat, k: nat, v: bool): (y: nat) {
    if k == 0 then x / 2 * 2 + (if v then 1 else 0) else x % 2 + 2 * WithBit(x / 2, k - 1, v)
  }

  /** Setting or clearing a bit gives that bit the value wanted and leaves the others alone. */
  lemma {:induction false} WithBitAt(x: nat, k: nat, v: bool, j: nat)
    ensures HasBit(WithBit(x, k, v), j) == if j == k then v else HasBit(x, j)
  {
    if k > 0 && j > 0 {
      WithBitAt(x / 2, k - 1, v, j - 1);
    }
  }

  function Power(m: nat): nat { if m == 0 then 1 else 2 * Power(m - 1) }

  /** A bit that exists in the byte can be set without leaving the byte. */
  lemma {:induction false} WithBitFits(x: nat, k: nat, v: bool, m: nat)
    requires k < m <= 8 && x < Power(m)
    ensures WithBit(x, k, v) < Power(m)
  {
    if k > 0 {
      WithBitFits(x / 2, k - 1, v, m - 1);
    }
  }

  function WithByteBit(x: Byte, k: nat, v: bool): Byte
    requires k < 8
  {
    WithBitFits(x, k, v, 8);
    assert Power(8) == 256;
    WithBit(x, k, v)
  }

  predicate BlockBit(b: Block, i: nat)
    requires i < BPB
  {
    HasBit(b[i / 8], i % 8)
  }

  function WithBlockBit(b: Block, i: nat, v: bool): Block
    requires i < BPB
  {
    b[i / 8 := WithByteBit(b[i / 8], i % 8, v)]
  }

  lemma WithBlockBitAt(b: Block, i: nat, v: bool, j: nat)
    requires i < BPB && j < BPB
    ensures BlockBit(WithBlockBit(b, i, v), j) == if j == i then v else BlockBit(b, j)
  {
    if j / 8 == i / 8 {
      WithBitAt(b[i / 8], i % 8, v, j % 8);
    }
  }
}
