/** Where the bytes of the on-disk structures of kernel/fs.h and kernel/log.c are: what mkfs and the
    kernel have to agree on. */
module DiskFormat {
  import opened Common
  import opened Blocks
  import opened Bitmap
  import opened Dinode
  import opened LogSpec

  /** A uint at byte k, least significant byte first, */
  function Uint(b: Block, k: nat): nat
    requires k + 4 <= BSIZE
  {
    Short(b, k) + 0x1_0000 * Short(b, k + 2)
  }

  /** ... and a short */
  function Short(b: Block, k: nat): nat
    requires k + 2 <= BSIZE
  {
    b[k] as int + 0x100 * (b[k + 1] as int)
  }

  lemma WordPlace(b: Block, i: nat)
    requires i < NWORDS
    ensures Word(b, i) == Uint(b, 4 * i)
    ensures Word(b, i) % 0x1_0000 == Short(b, 4 * i) && Word(b, i) / 0x1_0000 == Short(b, 4 * i + 2)
  {
    assert Word(b, i) == Short(b, 4 * i) + 0x1_0000 * Short(b, 4 * i + 2);
  }

  /** struct dinode: 64 bytes; type, major, minor and nlink, then size, then thirteen block numbers */
  lemma DinodePlace(b: Block, slot: nat, k: nat)
    requires slot < IPB && k <= NDIRECT
    ensures var ip, at := Get(b, slot), 64 * slot;
            && ip.kind == Short(b, at) && ip.major == Short(b, at + 2) && ip.minor == Short(b, at + 4)
            && ip.nlink == Short(b, at + 6) && ip.size == Uint(b, at + 8) && ip.addrs[k] == Uint(b, at + 12 + 4 * k)
  {
    hide Word, Uint, Short;
    WordPlace(b, 16 * slot);
    WordPlace(b, 16 * slot + 1);
    WordPlace(b, 16 * slot + 2);
    WordPlace(b, 16 * slot + 3 + k);
  }

  /** struct logheader: the count, then the block numbers */
  lemma HeaderPlace(hb: Block, lh: seq<nat>, i: nat)
    requires |lh| <= LOGSIZE && forall i :: 0 <= i < |lh| ==> lh[i] < U32
    ensures Uint(Encode(hb, lh), 0) == |lh|
    ensures i < |lh| ==> Uint(Encode(hb, lh), 4 + 4 * i) == lh[i]
    ensures |lh| <= i < LOGSIZE ==> Uint(Encode(hb, lh), 4 + 4 * i) == Uint(hb, 4 + 4 * i)
  {
    hide Word, Uint, SetWord, SetEntries;
    var h0 := SetWord(hb, 0, |lh|);
    WordPlace(Encode(hb, lh), 0);
    EntriesRead(h0, lh, 0);
    WordSet(hb, 0, |lh|, 0);
    if i < LOGSIZE {
      WordPlace(Encode(hb, lh), 1 + i);
      WordPlace(hb, 1 + i);
      EntriesRead(h0, lh, 1 + i);
      WordSet(hb, 0, |lh|, 1 + i);
    }
  }

  /** Bit k counts 2 to the k. */
  lemma {:induction false} BitValue(x: nat, k: nat)
    ensures BitOf(x, k) <==> x / Mask(k) % 2 == 1
  {
    if k > 0 {
      BitValue(x / 2, k - 1);
      DivTwice(x, Mask(k - 1));
    }
  }

  lemma DivTwice(x: nat, m: nat)
    requires m > 0
    ensures x / (2 * m) == x / 2 / m
  {
    var q := x / (2 * m);
    var r := x - q * (2 * m);
    assert 0 <= r < 2 * m;
    assert x == q * m * 2 + r;
    assert x / 2 == q * m + r / 2 && 0 <= r / 2 < m;
    DivUnique(x / 2, m, q);
  }

  lemma DivUnique(y: nat, m: nat, q: nat)
    requires m > 0 && q * m <= y < q * m + m
    ensures y / m == q
  {
    var d := y / m;
    assert d * m <= y < d * m + m;
    MulLess(d, q, m);
    MulLess(q, d, m);
  }

  lemma {:induction false} MulLess(a: nat, b: nat, m: nat)
    ensures a < b ==> a * m + m <= b * m
    decreases b
  {
    if a + 1 < b { MulLess(a, b - 1, m); }
    if a < b { assert b * m == (b - 1) * m + m; }
  }

  /** The bitmap counts on from block to block: block n has bit n % 8 of its byte n / 8. */
  lemma BitmapPlace(blocks: seq<Block>, start: nat, n: nat)
    requires start + n / BPB < |blocks|
    ensures n / 8 / BSIZE == n / BPB
    ensures Marked(blocks, start, n) <==> blocks[start + n / BPB][n / 8 % BSIZE] / Mask(n % 8) % 2 == 1
  {
    hide BitOf, Mask;
    var x := blocks[start + n / BPB];
    assert n % BPB / 8 == n / 8 % BSIZE;
    BitValue(x[n % BPB / 8], n % 8);
  }
}
