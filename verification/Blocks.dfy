/** Disk blocks as byte sequences, and the little-endian 32-bit words that kernel/fs.h and
    kernel/log.c lay over them. */
module Blocks {
  import opened Common

  const BSIZE: nat := 1024
  const NWORDS: nat := 256               // BSIZE / sizeof(uint)
  const U32: nat := 0x1_0000_0000

  type Block = b: seq<byte> | |b| == BSIZE witness seq(BSIZE, _ => 0)

  function ZeroBlock(): Block { seq(BSIZE, _ => 0) }

  function Word(b: Block, i: nat): (w: nat)
    requires i < NWORDS
    ensures w < U32
  {
    Join(b[4 * i], b[4 * i + 1], b[4 * i + 2], b[4 * i + 3])
  }

  function Join(b0: int, b1: int, b2: int, b3: int): int {
    b0 + 0x100 * b1 + 0x1_0000 * b2 + 0x100_0000 * b3
  }

  function SetWord(b: Block, i: nat, w: nat): Block
    requires i < NWORDS && w < U32
  {
    b[4 * i := w % 0x100][4 * i + 1 := w / 0x100 % 0x100][4 * i + 2 := w / 0x1_0000 % 0x100][4 * i + 3 :=
        w / 0x100_0000]
  }

  lemma JoinDigits(w: nat)
    requires w < U32
    ensures Join(w % 0x100, w / 0x100 % 0x100, w / 0x1_0000 % 0x100, w / 0x100_0000) == w
  {
    assert w / 0x1_0000 == w / 0x100 / 0x100 && w / 0x100_0000 == w / 0x1_0000 / 0x100;
  }

  /** Storing a word is read back, and changes no other word. */
  lemma WordSet(b: Block, i: nat, w: nat, j: nat)
    requires i < NWORDS && j < NWORDS && w < U32
    ensures Word(SetWord(b, i, w), j) == if i == j then w else Word(b, j)
  {
    hide Join;
    JoinDigits(w);
  }

  lemma ZeroWord(i: nat)
    requires i < NWORDS
    ensures Word(ZeroBlock(), i) == 0
  {
  }
}
