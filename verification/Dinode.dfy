/** struct dinode of kernel/fs.h: sixteen 32-bit words in an inode block. */
module Dinode {
  import opened Blocks

  const NDIRECT: nat := 12
  const IPB: nat := 16                   // BSIZE / sizeof(struct dinode)

  type U16 = x: int | 0 <= x < 0x1_0000
  type Word32 = x: int | 0 <= x < 0x1_0000_0000

  datatype Fields = Inode(kind: U16, major: U16, minor: U16, nlink: U16, size: Word32, addrs: seq<Word32>)

  type Inode = ip: Fields | |ip.addrs| == NDIRECT + 1 witness Inode(0, 0, 0, 0, 0, seq(13, _ => 0))

  function Words(ip: Inode): (ws: seq<Word32>)
    ensures |ws| == 16
  {
    [ip.kind + 0x1_0000 * ip.major, ip.minor + 0x1_0000 * ip.nlink, ip.size] + ip.addrs
  }

  /** Stores `ws` at word `base`. */
  function PutWords(b: Block, base: nat, ws: seq<Word32>): Block
    requires base + |ws| <= NWORDS
    decreases |ws|
  {
    if ws == [] then b else PutWords(SetWord(b, base, ws[0]), base + 1, ws[1..])
  }

  lemma {:induction false} PutWordsAt(b: Block, base: nat, ws: seq<Word32>, j: nat)
    requires base + |ws| <= NWORDS && j < NWORDS
    ensures Word(PutWords(b, base, ws), j) == if base <= j < base + |ws| then ws[j - base] else Word(b, j)
    decreases |ws|
  {
    hide Word, SetWord;
    if ws != [] {
      PutWordsAt(SetWord(b, base, ws[0]), base + 1, ws[1..], j);
      WordSet(b, base, ws[0], j);
    }
  }

  function Put(b: Block, slot: nat, ip: Inode): Block
    requires slot < IPB
  {
    PutWords(b, 16 * slot, Words(ip))
  }

  function WordsFrom(b: Block, base: nat, n: nat): (ws: seq<Word32>)
    requires base + n <= NWORDS
    ensures |ws| == n && forall i :: 0 <= i < n ==> ws[i] == Word(b, base + i)
  {
    if n == 0 then [] else WordsFrom(b, base, n - 1) + [Word(b, base + n - 1)]
  }

  function Get(b: Block, slot: nat): Inode
    requires slot < IPB
  {
    var w0, w1 := Word(b, 16 * slot), Word(b, 16 * slot + 1);
    Inode(w0 % 0x1_0000, w0 / 0x1_0000, w1 % 0x1_0000, w1 / 0x1_0000, Word(b, 16 * slot + 2),
          WordsFrom(b, 16 * slot + 3, NDIRECT + 1))
  }

  lemma PutWord(b: Block, slot: nat, ip: Inode, other: nat, j: nat)
    requires slot < IPB && other < IPB && j < 16
    ensures Word(Put(b, slot, ip), 16 * other + j) == if other == slot then Words(ip)[j] else Word(b, 16 * other + j)
  {
    PutWordsAt(b, 16 * slot, Words(ip), 16 * other + j);
  }

  /** An inode written by iupdate() is the one ilock() reads, and the others in its block stay. */
  lemma GetPut(b: Block, slot: nat, ip: Inode, other: nat)
    requires slot < IPB && other < IPB
    ensures Get(Put(b, slot, ip), other) == if other == slot then ip else Get(b, other)
  {
    hide Word, Put, WordsFrom;
    var b' := Put(b, slot, ip);
    PutWord(b, slot, ip, other, 0);
    PutWord(b, slot, ip, other, 1);
    PutWord(b, slot, ip, other, 2);
    forall i | 0 <= i < NDIRECT + 1
      ensures Get(b', other).addrs[i] == if other == slot then ip.addrs[i] else Get(b, other).addrs[i]
    {
      PutWord(b, slot, ip, other, 3 + i);
    }
  }
}
