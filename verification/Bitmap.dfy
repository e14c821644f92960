/** The free-block bitmap of kernel/fs.c: block b has bit b % 8 of a byte of its bitmap block. */
module Bitmap {
  import opened Common
  import opened Blocks

  const BPB: nat := 8192                 // BSIZE * 8

  /** 1 << k */
  function Mask(k: nat): (m: nat)
    ensures m > 0
  {
    if k == 0 then 1 else 2 * Mask(k - 1)
  }

  /** x & (1 << k) */
  predicate BitOf(x: nat, k: nat) {
    if k == 0 then x % 2 == 1 else BitOf(x / 2, k - 1)
  }

  lemma {:induction false} AddMask(x: nat, k: nat, j: nat)
    requires !BitOf(x, k)
    ensures BitOf(x + Mask(k), j) <==> j == k || BitOf(x, j)
  {
    if k > 0 {
      assert (x + Mask(k)) / 2 == x / 2 + Mask(k - 1);
      if j > 0 { AddMask(x / 2, k - 1, j - 1); }
    } else {
      assert (x + 1) / 2 == x / 2;
    }
  }

  lemma {:induction false} SubMask(x: nat, k: nat, j: nat)
    requires BitOf(x, k)
    ensures x >= Mask(k) && (BitOf(x - Mask(k), j) <==> j != k && BitOf(x, j))
  {
    if k > 0 {
      SubMask(x / 2, k - 1, if j > 0 then j - 1 else 0);
      assert (x - Mask(k)) / 2 == x / 2 - Mask(k - 1);
    } else {
      assert (x - 1) / 2 == x / 2;
    }
  }

  lemma MaskStep(k: nat)
    requires k > 0
    ensures Mask(k) == 2 * Mask(k - 1)
  {
  }

  lemma HalfBit(x: nat, k: nat)
    ensures BitOf(x, k) <==> if k == 0 then x % 2 == 1 else BitOf(x / 2, k - 1)
    ensures Mask(0) == 1
  {
  }

  /** A clear bit below the width can be added without overflow. */
  lemma {:induction false} AddFits(x: nat, k: nat, w: nat)
    requires k < w && x < Mask(w) && !BitOf(x, k)
    ensures x + Mask(k) < Mask(w)
  {
    hide BitOf, Mask;
    MaskStep(w);
    if k > 0 {
      MaskStep(k);
      HalfBit(x, k);
      AddFits(x / 2, k - 1, w - 1);
    } else {
      HalfBit(x, 0);
    }
  }

  lemma ByteWidth()
    ensures Mask(8) == 256
  {
    assert Mask(4) == 16;
    assert Mask(6) == 64;
  }

  /** x | (1 << k) */
  function Raised(x: byte, k: nat): (y: byte)
    requires k < 8
    ensures forall j: nat :: BitOf(y, j) <==> j == k || BitOf(x, j)
  {
    if BitOf(x, k) then x
    else
      ByteWidth(); AddFits(x, k, 8);
      assert forall j: nat :: BitOf(x + Mask(k), j) <==>
               j == k || BitOf(x, j) by { forall j: nat { AddMask(x, k, j); } }
      x + Mask(k)
  }

  /** x & ~(1 << k) */
  function Lowered(x: byte, k: nat): (y: byte)
    requires k < 8
    ensures forall j: nat :: BitOf(y, j) <==> j != k && BitOf(x, j)
  {
    if !BitOf(x, k) then x
    else
      SubMask(x, k, k);
      assert forall j: nat :: BitOf(x - Mask(k), j) <==>
               j != k && BitOf(x, j) by { forall j: nat { SubMask(x, k, j); } }
      x - Mask(k)
  }

  /** Is block `b` marked in a bitmap that starts at block `start`? */
  predicate Marked(blocks: seq<Block>, start: nat, b: nat)
    requires start + b / BPB < |blocks|
  {
    BitOf(blocks[start + b / BPB][b % BPB / 8], b % 8)
  }

  function Mark(blocks: seq<Block>, start: nat, b: nat): (r: seq<Block>)
    requires start + b / BPB < |blocks|
    ensures |r| == |blocks|
  {
    var x, i := blocks[start + b / BPB], b % BPB / 8;
    blocks[start + b / BPB := x[i := Raised(x[i], b % 8)]]
  }

  function Unmark(blocks: seq<Block>, start: nat, b: nat): (r: seq<Block>)
    requires start + b / BPB < |blocks|
    ensures |r| == |blocks|
  {
    var x, i := blocks[start + b / BPB], b % BPB / 8;
    blocks[start + b / BPB := x[i := Lowered(x[i], b % 8)]]
  }

  /** Two block numbers share a bit only if they are equal. */
  lemma BitPlace(b: nat, c: nat)
    requires b / BPB == c / BPB && b % BPB / 8 == c % BPB / 8 && b % 8 == c % 8
    ensures b == c
  {
    assert b % BPB % 8 == b % 8 && c % BPB % 8 == c % 8;
  }

  lemma MarkBits(blocks: seq<Block>, start: nat, b: nat, c: nat)
    requires start + b / BPB < |blocks| && start + c / BPB < |blocks|
    ensures Marked(Mark(blocks, start, b), start, c) <==> c == b || Marked(blocks, start, c)
  {
    hide BitOf;
    if b / BPB == c / BPB && b % BPB / 8 == c % BPB / 8 && b % 8 == c % 8 { BitPlace(b, c); }
  }

  lemma UnmarkBits(blocks: seq<Block>, start: nat, b: nat, c: nat)
    requires start + b / BPB < |blocks| && start + c / BPB < |blocks|
    ensures Marked(Unmark(blocks, start, b), start, c) <==> c != b && Marked(blocks, start, c)
  {
    hide BitOf;
    if b / BPB == c / BPB && b % BPB / 8 == c % BPB / 8 && b % 8 == c % 8 { BitPlace(b, c); }
  }
}
