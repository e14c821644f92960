/** The loop of writei() against the flat byte sequence: what has been written so far, one block at a
    time, and what the file is once the size is set. */
module FsIo {
  import opened Common
  import opened Sets
  import opened Blocks
  import opened Bitmap
  import opened Dinode
  import opened FsSpec
  import opened FsSteps
  import opened FsMap
  import opened FsFree
  import opened FsRoom

  /** Bytes of a block replaced from offset `o`. */
  function Patch(b: Block, o: nat, e: seq<byte>): (r: Block)
    requires o + |e| <= BSIZE
  {
    b[..o] + e + b[o + |e|..]
  }

  /** Bytes of a file replaced from `off`, growing it if necessary. */
  function Over(c: seq<byte>, off: nat, d: seq<byte>): (r: seq<byte>)
    requires off <= |c|
    ensures |r| == if off + |d| < |c| then |c| else off + |d|
    ensures forall p :: 0 <= p < |r| ==> r[p] == if off <= p < off + |d| then d[p - off] else c[p]
  {
    c[..off] + d + if off + |d| < |c| then c[off + |d|..] else []
  }

  ghost predicate MappedTo(s: State, ino: nat, end: nat)
    requires Shape(s) && ino < |s.inodes|
  {
    forall bn {:trigger Addr(s, ino, bn)} :: 0 <= bn < MAXFILE && bn * BSIZE < end ==> Addr(s, ino, bn) != 0
  }

  /** Within the old size and the part written, the bytes are `d` from `off` on and as before elsewhere. */
  ghost predicate Bytes(s0: State, s: State, ino: nat, off: nat, d: seq<byte>)
    requires Shape(s0) && Shape(s) && ino < |s0.inodes| && ino < |s.inodes|
  {
    forall p {:trigger ByteAt(s, ino, p)} :: 0 <= p < MAXBYTES && (p < s0.inodes[ino].size || off <= p < off + |d|) ==>
      ByteAt(s, ino, p) == if off <= p < off + |d| then d[p - off] else ByteAt(s0, ino, p)
  }

  /** Everything but the bytes of file `ino` and its block numbers is as at the start. */
  ghost predicate Others(s0: State, s: State, ino: nat) {
    && Shape(s0) && Shape(s) && s.sb == s0.sb && ino < |s0.inodes|
    && (forall i :: 0 <= i < |s0.inodes| && i != ino ==> s.inodes[i] == s0.inodes[i])
    && (forall i {:trigger SameFile(s0, s, i)} :: 0 <= i < |s0.inodes| && i != ino ==> SameFile(s0, s, i))
    && s.inodes[ino] == s0.inodes[ino].(addrs := s.inodes[ino].addrs)
    && (forall c :: 0 <= c < s0.sb.bmapstart ==> s.blocks[c] == s0.blocks[c])
  }

  /** The state inside writei(), after storing `d` from offset `off`. */
  ghost predicate Mid(s0: State, s: State, ino: nat, off: nat, d: seq<byte>) {
    && Inv(s0) && Files(s0) && Inv(s) && Clean(s) && Others(s0, s, ino)
    && off <= s0.inodes[ino].size && off + |d| <= MAXBYTES
    && MappedTo(s, ino, s0.inodes[ino].size) && MappedTo(s, ino, off + |d|) && Bytes(s0, s, ino, off, d)
  }

  lemma MidStart(s: State, ino: nat, off: nat)
    requires Inv(s) && Clean(s) && Files(s) && ino < |s.inodes| && off <= s.inodes[ino].size
    ensures Mid(s, s, ino, off, [])
  {
    hide Inv, Addr;
    InvShape(s);
    assert FileOk(s, ino);
    forall i | 0 <= i < |s.inodes| ensures SameFile(s, s, i) {
      forall bn | 0 <= bn < MAXFILE ensures SameBlock(s, s, i, bn) {
      }
    }
  }

  /** bmap() does not disturb what was written. */
  lemma MidGrew(s0: State, s: State, s1: State, ino: nat, off: nat, d: seq<byte>)
    requires Mid(s0, s, ino, off, d) && Grew(s, s1, ino)
    ensures Mid(s0, s1, ino, off, d)
  {
    hide Inv, Files, Addr;
    InvShape(s0);
    InvShape(s);
    InvShape(s1);
    assert SameFile(s, s1, ino);
    forall bn {:trigger Addr(s1, ino, bn)} | 0 <= bn < MAXFILE && Addr(s, ino, bn) != 0 ensures Addr(s1, ino, bn) != 0 {
      assert SameBlock(s, s1, ino, bn);
    }
    forall p {:trigger ByteAt(s1, ino, p)} | 0 <= p < MAXBYTES && (p < s0.inodes[ino].size || off <= p < off + |d|)
      ensures ByteAt(s1, ino, p) == ByteAt(s, ino, p)
    {
      assert SameBlock(s, s1, ino, p / BSIZE);
      assert Addr(s, ino, p / BSIZE) != 0;
      LinkAt(s, ino, p / BSIZE);
    }
    forall i | 0 <= i < |s0.inodes| && i != ino ensures SameFile(s0, s1, i) {
      assert SameFile(s0, s, i) && SameFile(s, s1, i);
      SameFileTrans(s0, s, s1, i);
    }
  }

  /** One byte after a block was stored. */
  lemma StoredByte(s: State, ino: nat, bn: nat, b: Block, p: nat)
    requires Inv(s) && s.stale == {} && ino < |s.inodes| && bn < MAXFILE && Addr(s, ino, bn) != 0 && p < MAXBYTES
    ensures LinkOk(s, ino, bn) && Shape(Store(s, ino, bn, b))
    ensures ByteAt(Store(s, ino, bn, b), ino, p) == if p / BSIZE == bn then b[p % BSIZE]
            else if Addr(s, ino, p / BSIZE) == 0 then ByteAt(Store(s, ino, bn, b), ino, p) else ByteAt(s, ino, p)
  {
    hide Inv, Addr;
    InvShape(s);
    StoreAt(s, ino, bn, b, ino, p / BSIZE);
    LinkAt(s, ino, p / BSIZE);
  }

  lemma PatchNothing(b: Block, o: nat)
    requires o <= BSIZE
    ensures Patch(b, o, []) == b
  {
  }

  lemma PatchAt(b: Block, o: nat, e: seq<byte>, k: nat)
    requires o + |e| <= BSIZE && k < BSIZE
    ensures Patch(b, o, e)[k] == if o <= k < o + |e| then e[k - o] else b[k]
  {
  }

  /** Position p of the file against position pos in the same block. */
  lemma InBlock(p: nat, pos: nat)
    requires p / BSIZE == pos / BSIZE
    ensures p % BSIZE - pos % BSIZE == p - pos
  {
  }

  /** Storing `e` into the block under position off + |d| appends it to what was written. */
  lemma MidStore(s0: State, s: State, ino: nat, off: nat, d: seq<byte>, e: seq<byte>)
    requires Mid(s0, s, ino, off, d) && off + |d| < MAXBYTES && (off + |d|) % BSIZE + |e| <= BSIZE
    requires Addr(s, ino, (off + |d|) / BSIZE) != 0
    ensures LinkOk(s, ino, (off + |d|) / BSIZE)
    ensures var bn := (off + |d|) / BSIZE;
            Mid(s0, Store(s, ino, bn, Patch(s.blocks[Addr(s, ino, bn)], (off + |d|) % BSIZE, e)), ino, off, d + e)
  {
    hide Inv, Files, Addr, Patch;
    InvShape(s0);
    InvShape(s);
    var pos := off + |d|;
    var bn, o := pos / BSIZE, pos % BSIZE;
    LinkAt(s, ino, bn);
    var b := Patch(s.blocks[Addr(s, ino, bn)], o, e);
    var s' := Store(s, ino, bn, b);
    StoreOk(s, ino, bn, b);
    InvShape(s');
    forall bn2 {:trigger Addr(s', ino, bn2)} | 0 <= bn2 < MAXFILE ensures Addr(s', ino, bn2) == Addr(s, ino, bn2) {
      StoreAt(s, ino, bn, b, ino, bn2);
    }
    forall i | 0 <= i < |s0.inodes| && i != ino ensures SameFile(s0, s', i) {
      forall bn2 | 0 <= bn2 < MAXFILE ensures SameBlock(s, s', i, bn2) { StoreAt(s, ino, bn, b, i, bn2); }
      assert SameFile(s0, s, i) && SameFile(s, s', i);
      SameFileTrans(s0, s, s', i);
    }
    StoredBytes(s0, s, ino, off, d, e);
  }

  lemma StoredBytes(s0: State, s: State, ino: nat, off: nat, d: seq<byte>, e: seq<byte>)
    requires Mid(s0, s, ino, off, d) && off + |d| < MAXBYTES && (off + |d|) % BSIZE + |e| <= BSIZE
    requires Addr(s, ino, (off + |d|) / BSIZE) != 0
    ensures LinkOk(s, ino, (off + |d|) / BSIZE) && off + |d| + |e| <= MAXBYTES
    ensures var bn := (off + |d|) / BSIZE;
            var s' := Store(s, ino, bn, Patch(s.blocks[Addr(s, ino, bn)], (off + |d|) % BSIZE, e));
            Shape(s') && Bytes(s0, s', ino, off, d + e) && forall bn2 ::
                0 <= bn2 < MAXFILE && bn2 * BSIZE < off + |d| + |e| ==> Addr(s, ino, bn2) != 0
  {
    hide Inv, Files, Addr, Patch, Others;
    InvShape(s);
    OthersShape(s0, s, ino);
    var pos := off + |d|;
    var bn, o := pos / BSIZE, pos % BSIZE;
    LinkAt(s, ino, bn);
    var b := Patch(s.blocks[Addr(s, ino, bn)], o, e);
    var s' := Store(s, ino, bn, b);
    StoredByte(s, ino, bn, b, 0);
    assert pos + |e| <= (bn + 1) * BSIZE;
    forall p {:trigger ByteAt(s', ino, p)} | 0 <= p < MAXBYTES && (p < s0.inodes[ino].size || off <= p < off + |d + e|)
      ensures ByteAt(s', ino, p) == if off <= p < off + |d + e| then (d + e)[p - off] else ByteAt(s0, ino, p)
    {
      NewByte(s0, s, ino, off, d, e, p);
    }
  }

  lemma NewByte(s0: State, s: State, ino: nat, off: nat, d: seq<byte>, e: seq<byte>, p: nat)
    requires Mid(s0, s, ino, off, d) && off + |d| < MAXBYTES && (off + |d|) % BSIZE + |e| <= BSIZE
    requires Shape(s0) && Shape(s) && ino < |s0.inodes| && ino < |s.inodes| && Addr(s, ino, (off + |d|) / BSIZE) != 0
             && LinkOk(s, ino, (off + |d|) / BSIZE)
    requires p < MAXBYTES && (p < s0.inodes[ino].size || off <= p < off + |d + e|)
    ensures var bn := (off + |d|) / BSIZE;
            var s' := Store(s, ino, bn, Patch(s.blocks[Addr(s, ino, bn)], (off + |d|) % BSIZE, e));
            Shape(s') && ByteAt(s', ino, p) == if off <= p < off + |d + e| then (d + e)[p - off] else ByteAt(s0, ino, p)
  {
    hide Inv, Files, Addr, Patch, Others, Clean;
    CleanStale(s);
    var pos := off + |d|;
    var bn, o := pos / BSIZE, pos % BSIZE;
    var b := Patch(s.blocks[Addr(s, ino, bn)], o, e);
    StoredByte(s, ino, bn, b, p);
    if p / BSIZE == bn {
      InBlock(p, pos);
      PatchAt(s.blocks[Addr(s, ino, bn)], o, e, p % BSIZE);
      assert ByteAt(s, ino, p) == s.blocks[Addr(s, ino, bn)][p % BSIZE];
    } else {
      assert p < pos || p < s0.inodes[ino].size;
      assert Addr(s, ino, p / BSIZE) != 0;
    }
  }

  lemma CleanStale(s: State)
    requires Clean(s)
    ensures s.stale == {}
  {
  }

  lemma OthersShape(s0: State, s: State, ino: nat)
    requires Others(s0, s, ino)
    ensures Shape(s0) && Shape(s) && s.sb == s0.sb && ino < |s0.inodes| == |s.inodes|
            && s.inodes[ino].size == s0.inodes[ino].size
  {
  }

  lemma MidFiles(s0: State, s: State, ino: nat, off: nat, d: seq<byte>)
    requires Mid(s0, s, ino, off, d)
    ensures Shape(s) && Files(s)
  {
    hide Inv, Addr, SameFile, Bytes;
    InvShape(s0);
    InvShape(s);
    forall i | 0 <= i < |s.inodes| ensures FileOk(s, i) {
      assert FileOk(s0, i);
      if i != ino {
        assert SameFile(s0, s, i);
        SameContents(s0, s, i);
      }
    }
  }

  lemma MidParts(s0: State, s: State, ino: nat, off: nat, d: seq<byte>)
    requires Mid(s0, s, ino, off, d)
    ensures Inv(s) && Shape(s) && Clean(s) && s.stale == {} && ino < |s.inodes| == |s0.inodes| && s.sb == s0.sb
    ensures s.inodes[ino].size == s0.inodes[ino].size
  {
  }

  /** One round logs bitmap blocks `marks`, the round's data block and the table. */
  ghost predicate Round(s: State, s': State, ino: nat, bn: nat, before: set<nat>, after: set<nat>, marks: set<nat>) {
    && Shape(s) && Shape(s') && ino < |s.inodes| && ino < |s'.inodes| && bn < MAXFILE
    && (s.inodes[ino].addrs[NDIRECT] != 0 ==> s'.inodes[ino].addrs[NDIRECT] == s.inodes[ino].addrs[NDIRECT])
    && before <= after <= before + marks + {Addr(s', ino, bn)} + TableSet(s', ino)
    && |marks| + Untabled(s', ino) <= (if Addr(s, ino, bn) == 0 then 1 else 0) + Untabled(s, ino)
    && (forall m :: m in marks ==> m < s'.sb.nmeta)
    && (Addr(s, ino, bn) == 0 && Addr(s', ino, bn) != 0 ==> Addr(s', ino, bn) in after)
  }

  lemma RoundIntro(s: State, s': State, ino: nat, bn: nat, r: nat, before: set<nat>, after: set<nat>, marks: set<nat>)
    requires Mapped(s, s', ino, bn, r) && Effort(s, s', ino, bn, r, before, after, marks)
    ensures Round(s, s', ino, bn, before, after, marks)
  {
    hide Addr, Inv, SameFiles;
  }

  lemma MappedParts(s: State, s': State, ino: nat, bn: nat, r: nat)
    requires Mapped(s, s', ino, bn, r)
    ensures Inv(s') && Shape(s') && Clean(s') && s'.stale == {} && ino < |s'.inodes| == |s.inodes| && s'.sb == s.sb
            && Grew(s, s', ino)
    ensures r == Addr(s', ino, bn) && (r == 0 ==> UsedBelow(s'.owner, s'.sb.size))
    ensures Addr(s, ino, bn) != 0 ==> s' == s
  {
  }

  lemma StoredFields(s: State, s': State, ino: nat, bn: nat, b: Block)
    requires Inv(s) && s.stale == {} && ino < |s.inodes| && bn < MAXFILE && Addr(s, ino, bn) != 0 && LinkOk(s, ino, bn)
    requires s' == s.(blocks := s.blocks[Addr(s, ino, bn) := b])
    ensures s' == Store(s, ino, bn, b) && Shape(s') && Addr(s', ino, bn) == Addr(s, ino, bn)
  {
    hide Inv, Addr;
    InvShape(s);
    StoreAt(s, ino, bn, b, ino, bn);
  }

  lemma RoundStore(s: State, s1: State, s2: State, ino: nat, bn: nat, before: set<nat>, after: set<nat>,
                   marks: set<nat>)
    requires Round(s, s1, ino, bn, before, after, marks) && Shape(s2) && s2.inodes == s1.inodes && s2.sb == s1.sb
             && Addr(s2, ino, bn) == Addr(s1, ino, bn)
    ensures Round(s, s2, ino, bn, before, after, marks)
            && Round(s, s2, ino, bn, before, after + {Addr(s1, ino, bn)}, marks)
  {
    hide Addr;
  }

  ghost function NewSize(size: nat, end: nat): nat { if end > size then end else size }

  /** Setting the size: of `d`, what lies below the new end is in the file. */
  lemma MidFinish(s0: State, s: State, ino: nat, off: nat, d: seq<byte>, r: nat)
    requires Mid(s0, s, ino, off, d) && r <= |d|
    ensures Shape(s) && ino < |s.inodes| && s.inodes[ino].size == s0.inodes[ino].size && Shape(s0) && FileOk(s0, ino)
    ensures var size := NewSize(s0.inodes[ino].size, off + r); var s' := Resize(s, ino, size);
            && Inv(s') && Clean(s') && Files(s')
            && Contents(s', ino) == Over(Contents(s0, ino), off, d)[..size]
            && forall i :: 0 <= i < |s0.inodes| && i != ino ==> FileOk(s0, i) && Contents(s', i) == Contents(s0, i)
  {
    hide Inv, Addr, SameFile;
    InvShape(s0);
    InvShape(s);
    assert FileOk(s0, ino);
    var size := NewSize(s0.inodes[ino].size, off + r);
    var s' := Resize(s, ino, size);
    ResizeOk(s, ino, size);
    forall i | 0 <= i < |s0.inodes| && i != ino ensures FileOk(s', i) && FileOk(s0, i)
        && Contents(s', i) == Contents(s0, i) {
      assert SameFile(s0, s, i) && FileOk(s0, i);
      ResizedOther(s, ino, size, i);
      SameFileTrans(s0, s, s', i);
      SameContents(s0, s', i);
    }
    assert FileOk(s', ino);
    FinishBytes(s0, s, ino, off, d, r);
  }

  lemma ResizedOther(s: State, ino: nat, size: nat, i: nat)
    requires Inv(s) && ino < |s.inodes| && size <= MAXBYTES && i < |s.inodes| && i != ino
    ensures SameFile(s, Resize(s, ino, size), i)
  {
    hide Inv, Addr;
    InvShape(s);
    ResizeOk(s, ino, size);
    forall bn | 0 <= bn < MAXFILE ensures SameBlock(s, Resize(s, ino, size), i, bn) {
    }
  }

  lemma FinishBytes(s0: State, s: State, ino: nat, off: nat, d: seq<byte>, r: nat)
    requires Mid(s0, s, ino, off, d) && r <= |d| && Shape(s0) && FileOk(s0, ino)
    requires Shape(s) && ino < |s.inodes|
    requires var size := NewSize(s0.inodes[ino].size, off + r); size <= MAXBYTES && FileOk(Resize(s, ino, size), ino)
    ensures var size := NewSize(s0.inodes[ino].size, off + r);
            Contents(Resize(s, ino, size), ino) == Over(Contents(s0, ino), off, d)[..size]
  {
    hide Inv, Addr, Files, Clean, Others, MappedTo;
    OthersShape(s0, s, ino);
    var size := NewSize(s0.inodes[ino].size, off + r);
    var s', c := Resize(s, ino, size), Over(Contents(s0, ino), off, d);
    ResizeOk(s, ino, size);
    forall p | 0 <= p < size ensures Contents(s', ino)[p] == c[p] {
      assert ByteAt(s', ino, p) == ByteAt(s, ino, p);
    }
  }

  /** A finished writei(): `d` was stored from `off`, of which the file's end covers `r` bytes. */
  ghost predicate Written(s0: State, s: State, ino: nat, off: nat, d: seq<byte>, r: nat) {
    && Shape(s0) && Shape(s) && |s.inodes| == |s0.inodes| && ino < |s0.inodes| && Files(s0) && Files(s)
    && FileOk(s0, ino) && FileOk(s, ino) && off <= s0.inodes[ino].size && r <= |d|
    && Contents(s, ino) == Over(Contents(s0, ino), off, d)[..NewSize(s0.inodes[ino].size, off + r)]
    && (forall i :: 0 <= i < |s0.inodes| && i != ino ==> Unread(s0, s, i))
  }

  ghost predicate Unread(s0: State, s: State, i: nat)
    requires Shape(s0) && Shape(s) && i < |s0.inodes| && i < |s.inodes|
  {
    FileOk(s0, i) && FileOk(s, i) && Contents(s, i) == Contents(s0, i)
  }

  /** Setting the size and writing the inode back completes the write. */
  lemma WriteDone(s0: State, s: State, ino: nat, off: nat, d: seq<byte>, r: nat, s1: State, s2: State)
    requires Mid(s0, s, ino, off, d) && r <= |d| && Shape(s) && ino < |s.inodes|
    requires var size := NewSize(s.inodes[ino].size, off + r); size <= MAXBYTES && s1 == Resize(s, ino, size)
    requires Inv(s2) && SameFiles(s1, s2)
    ensures Files(s2) && Written(s0, s2, ino, off, d, r)
  {
    hide Inv, SameFile, FileOk, Bytes, MappedTo, Resize;
    MidFinish(s0, s, ino, off, d, r);
    FilesKept(s1, s2);
    InvShape(s2);
    InvShape(s1);
    ResizeSize(s, ino, NewSize(s.inodes[ino].size, off + r));
    assert SameFile(s1, s2, ino) && FileOk(s1, ino);
    SameContents(s1, s2, ino);
    forall i | 0 <= i < |s0.inodes| && i != ino ensures Unread(s0, s2, i) {
      assert SameFile(s1, s2, i) && FileOk(s1, i);
      SameContents(s1, s2, i);
    }
  }

  lemma ResizeSize(s: State, ino: nat, size: nat)
    requires Shape(s) && ino < |s.inodes| && size <= MAXBYTES
    ensures |Resize(s, ino, size).inodes| == |s.inodes|
  {
  }

  // ----- how many blocks a write touches -----

  /** Blocks covered by n bytes from off. */
  function Rounds(off: nat, n: nat): nat {
    if n == 0 then 0 else (off + n - 1) / BSIZE - off / BSIZE + 1
  }

  function Piece(pos: nat, left: nat): (m: nat)
    ensures left > 0 ==> 0 < m <= left && pos % BSIZE + m <= BSIZE
  {
    if left < BSIZE - pos % BSIZE then left else BSIZE - pos % BSIZE
  }

  /** After `k` rounds and `tot` bytes, the next round, if any, starts at a block boundary. */
  ghost predicate InStep(off: nat, n: nat, tot: nat, k: nat) {
    && k <= Rounds(off, n)
    && if k == 0 then tot == 0 else tot < n ==> (off + tot) % BSIZE == 0 && k == (off + tot) / BSIZE - off / BSIZE
  }

  lemma RoundStep(off: nat, n: nat, tot: nat, k: nat)
    requires tot < n && InStep(off, n, tot, k)
    ensures k == 0 ==> tot == 0
    ensures k + 1 <= Rounds(off, n) && InStep(off, n, tot + Piece(off + tot, n - tot), k + 1)
  {
  }

  /** Most blocks one write can log: data, bitmap, indirect table and inode blocks. */
  function Cost(off: nat, n: nat): nat {
    2 * Rounds(off, n) + 3 - (if n > 0 && off % BSIZE != 0 then 1 else 0)
  }

  /** A chunk of filewrite() fits in one operation's share of the log, at every offset. */
  lemma ChunkFits(off: nat, n: nat)
    requires n <= 3 * BSIZE
    ensures Cost(off, n) <= 10
  {
  }

  /** The tally of blocks logged after `k` rounds: data blocks D, bitmap blocks M and the table. */
  ghost predicate Tally(s: State, ino: nat, off: nat, k: nat, before: set<nat>, after: set<nat>, D: set<nat>,
                        M: set<nat>)
  {
    && Shape(s) && ino < |s.inodes| && before <= after <= before + D + M + TableSet(s, ino) && |D| <= k
    && |M| + Untabled(s, ino) <= k + 1 - (if k > 0 && off % BSIZE != 0 then 1 else 0)
  }

  lemma TallyRound(s: State, s': State, ino: nat, off: nat, bn: nat, k: nat, before: set<nat>, mid: set<nat>,
                   after: set<nat>, D: set<nat>, M: set<nat>, marks: set<nat>)
    requires Tally(s, ino, off, k, before, mid, D, M) && Round(s, s', ino, bn, mid, after, marks)
    requires k == 0 && off % BSIZE != 0 ==> Addr(s, ino, bn) != 0
    ensures Tally(s', ino, off, k + 1, before, after, D + {Addr(s', ino, bn)}, M + marks)
  {
    hide Addr;
    UnionSize(M, marks);
    UnionSize(D, {Addr(s', ino, bn)});
  }

  lemma TallyBound(s: State, ino: nat, off: nat, n: nat, k: nat, before: set<nat>, after: set<nat>, D: set<nat>,
                   M: set<nat>)
    requires Tally(s, ino, off, k, before, after, D, M) && k <= Rounds(off, n) && (n > 0 ==> k > 0)
    ensures |after| + 1 <= |before| + Cost(off, n)
  {
    UnionSize(before, D);
    UnionSize(before + D, M);
    UnionSize(before + D + M, TableSet(s, ino));
    SubsetSize(after, before + D + M + TableSet(s, ino));
  }

  /** An unaligned write starts in a block that is already there. */
  lemma FirstMapped(s0: State, s: State, ino: nat, off: nat)
    requires Mid(s0, s, ino, off, []) && off % BSIZE != 0 && off < MAXBYTES
    ensures Shape(s) && ino < |s.inodes| && Addr(s, ino, off / BSIZE) != 0
  {
    hide Inv, Files, Addr, Bytes, Others;
    OthersShape(s0, s, ino);
    assert off / BSIZE * BSIZE < off;
  }

  lemma TallyStart(s: State, ino: nat, off: nat, logged: set<nat>)
    requires Inv(s) && ino < |s.inodes|
    ensures Tally(s, ino, off, 0, logged, logged, {}, {})
  {
  }

  lemma InStepAligned(off: nat, n: nat, tot: nat, k: nat)
    requires InStep(off, n, tot, k)
    ensures tot == 0 || tot >= n || (off + tot) % BSIZE == 0
  {
  }

  lemma InStepStart(off: nat, n: nat)
    ensures InStep(off, n, 0, 0)
  {
  }

  lemma CostPositive(off: nat, n: nat)
    ensures Cost(off, n) >= 1
  {
  }

  lemma MidSizes(s0: State, s: State, ino: nat, off: nat, d: seq<byte>)
    requires Mid(s0, s, ino, off, d)
    ensures ino < |s0.inodes| && off <= s0.inodes[ino].size <= MAXBYTES && off + |d| <= MAXBYTES
  {
    hide Inv, Addr, Bytes, MappedTo;
    InvShape(s0);
    assert FileOk(s0, ino);
  }

  lemma ResizeFields(s: State, s': State, ino: nat, size: nat)
    requires Shape(s) && ino < |s.inodes| && size <= MAXBYTES
    requires s' == (if size > s.inodes[ino].size then s.(inodes := s.inodes[ino := s.inodes[ino].(size := size)])
             else s) && size >= s.inodes[ino].size
    ensures s' == Resize(s, ino, size)
  {
    assert s.inodes[ino := s.inodes[ino]] == s.inodes;
  }

  /** The inode blocks are untouched until iupdate(). */
  lemma MidDisk(s0: State, s: State, s': State, ino: nat, off: nat, d: seq<byte>, size: nat)
    requires Mid(s0, s, ino, off, d) && Shape(s) && ino < |s.inodes| && size <= MAXBYTES && s' == Resize(s, ino, size)
    ensures Shape(s0) && Shape(s') && |s'.inodes| == |s0.inodes| && s'.sb == s0.sb
    ensures forall i :: 0 <= i < |s0.inodes| ==> OnDisk(s', i) == OnDisk(s0, i)
  {
    hide Inv, Addr, Bytes, MappedTo, Files, Get;
  }

  lemma SavedClean(s: State, s': State, ino: nat)
    requires Clean(s) && Shape(s) && ino < |s.inodes| && s' == Save(s, ino)
    ensures Clean(s')
  {
  }

  // ----- the end of itrunc() -----

  lemma TruncDone(s0: State, s: State, ino: nat, s1: State, s2: State)
    requires Freed(s0, s, ino, MAXFILE, true) && s.stale == {} && Files(s0) && Shape(s) && ino < |s.inodes|
             && s1 == Resize(s, ino, 0)
    requires Inv(s2) && SameFiles(s1, s2)
    ensures Files(s2) && ino < |s2.inodes| == |s0.inodes| && FileOk(s2, ino) && Contents(s2, ino) == []
    ensures forall i :: 0 <= i < |s0.inodes| && i != ino ==> Unread(s0, s2, i)
  {
    hide Inv, SameFile, FileOk, Resize;
    FreedParts(s0, s, ino, MAXFILE, true);
    ResizeOk(s, ino, 0);
    ResizeSize(s, ino, 0);
    InvShape(s0);
    InvShape(s1);
    InvShape(s2);
    forall i | 0 <= i < |s0.inodes| ensures FileOk(s2, i) && (i != ino ==> Unread(s0, s2, i)) {
      assert SameFile(s1, s2, i);
      if i == ino {
        EmptyFile(s, ino);
        SameContents(s1, s2, i);
      } else {
        assert FileOk(s0, i);
        FreedOther(s0, s, ino, i);
        ResizedOther(s, ino, 0, i);
        SameFileTrans(s0, s, s1, i);
        SameFileTrans(s0, s1, s2, i);
        SameContents(s0, s2, i);
      }
    }
    assert SameFile(s1, s2, ino);
    EmptyFile(s, ino);
    SameContents(s1, s2, ino);
  }

  lemma EmptyFile(s: State, ino: nat)
    requires Shape(s) && ino < |s.inodes|
    ensures FileOk(Resize(s, ino, 0), ino) && Contents(Resize(s, ino, 0), ino) == []
  {
  }

  lemma FreedDisk(s0: State, s: State, ino: nat, s': State)
    requires Freed(s0, s, ino, MAXFILE, true) && Shape(s) && ino < |s.inodes| && s' == Resize(s, ino, 0)
    ensures Shape(s0) && Shape(s') && |s'.inodes| == |s0.inodes| && s'.sb == s0.sb
    ensures forall i :: 0 <= i < |s0.inodes| ==> OnDisk(s', i) == OnDisk(s0, i)
  {
    hide Inv, Get;
    InvShape(s0);
  }

  // ----- readi() -----

  /** A piece of one block is the matching slice of the file. */
  lemma ReadPiece(s: State, ino: nat, pos: nat, m: nat)
    requires Inv(s) && s.stale == {} && ino < |s.inodes| && Shape(s) && FileOk(s, ino) && pos + m <= s.inodes[ino].size
             && pos % BSIZE + m <= BSIZE && m > 0
    ensures pos / BSIZE < MAXFILE && Addr(s, ino, pos / BSIZE) != 0 && LinkOk(s, ino, pos / BSIZE)
    ensures s.blocks[Addr(s, ino, pos / BSIZE)][pos % BSIZE..pos % BSIZE + m] == Contents(s, ino)[pos..pos + m]
  {
    hide Inv, Addr;
    LinkAt(s, ino, pos / BSIZE);
    var b := s.blocks[Addr(s, ino, pos / BSIZE)];
    var x, y := b[pos % BSIZE..pos % BSIZE + m], Contents(s, ino)[pos..pos + m];
    forall k | 0 <= k < m ensures x[k] == y[k] {
      PieceByte(pos, k);
      assert ByteAt(s, ino, pos + k) == b[pos % BSIZE + k];
    }
  }

  lemma PieceByte(pos: nat, k: nat)
    requires pos % BSIZE + k < BSIZE
    ensures (pos + k) / BSIZE == pos / BSIZE && (pos + k) % BSIZE == pos % BSIZE + k
  {
  }

  // ----- what a failed copy changes -----

  /** The bytes stored beyond the `r` reported are visible exactly where they lie inside the old
      file and differ from it. */
  lemma ExactWrite(c: seq<byte>, off: nat, d: seq<byte>, r: nat)
    requires off <= |c| && r <= |d|
    ensures Over(c, off, d)[..NewSize(|c|, off + r)] == Over(c, off, d[..r]) <==>
              forall k :: r <= k < |d| && off + k < |c| ==> d[k] == c[off + k]
  {
    var w, e := Over(c, off, d)[..NewSize(|c|, off + r)], Over(c, off, d[..r]);
    if forall k :: r <= k < |d| && off + k < |c| ==> d[k] == c[off + k] {
      forall p | 0 <= p < |w| ensures w[p] == e[p] {
        if off + r <= p < off + |d| { assert d[p - off] == c[off + (p - off)]; }
      }
    } else {
      var k :| r <= k < |d| && off + k < |c| && d[k] != c[off + k];
      assert w[off + k] == d[k] && e[off + k] == c[off + k];
    }
  }

  /** Two adjacent writes are one. */
  lemma OverOver(c: seq<byte>, off: nat, a: seq<byte>, b: seq<byte>)
    requires off <= |c|
    ensures Over(Over(c, off, a), off + |a|, b) == Over(c, off, a + b)
  {
  }

  /** A write continued where a complete one ended. */
  lemma WrittenOn(s0: State, s1: State, s2: State, ino: nat, off: nat, a: seq<byte>, b: seq<byte>, r: nat)
    requires Written(s0, s1, ino, off, a, |a|) && Written(s1, s2, ino, off + |a|, b, r)
    ensures Written(s0, s2, ino, off, a + b, |a| + r)
  {
    hide FileOk, Files;
    var c := Contents(s0, ino);
    assert Contents(s1, ino) == Over(c, off, a);
    OverOver(c, off, a, b);
    forall i | 0 <= i < |s0.inodes| && i != ino ensures Unread(s0, s2, i) {
      assert Unread(s0, s1, i) && Unread(s1, s2, i);
    }
  }

  lemma WrittenStart(s: State, ino: nat, off: nat)
    requires Inv(s) && Files(s) && ino < |s.inodes| && off <= s.inodes[ino].size
    ensures Written(s, s, ino, off, [], 0)
  {
    hide Inv, Addr;
    InvShape(s);
    assert FileOk(s, ino);
    forall i | 0 <= i < |s.inodes| && i != ino ensures Unread(s, s, i) {
      assert FileOk(s, i);
    }
  }

  /** The next chunk of a write */
  lemma ChunkWritten(s0: State, s1: State, s2: State, ino: nat, off: nat, src: seq<byte>, i: nat, e: nat, r: nat)
    requires i + e <= |src| && Written(s0, s1, ino, off, src[..i], i) && Written(s1, s2, ino, off + i, src[i..][..e], r)
    ensures Written(s0, s2, ino, off, src[..i + e], i + r) && ino < |s2.inodes| == |s1.inodes|
  {
    hide Written;
    assert src[..i] + src[i..][..e] == src[..i + e];
    WrittenOn(s0, s1, s2, ino, off, src[..i], src[i..][..e], r);
    WrittenSize(s1, s2, ino, off + i, src[i..][..e], r);
  }

  lemma WrittenSize(s0: State, s: State, ino: nat, off: nat, d: seq<byte>, r: nat)
    requires Written(s0, s, ino, off, d, r)
    ensures ino < |s.inodes| == |s0.inodes| && off <= s0.inodes[ino].size
            && s.inodes[ino].size == NewSize(s0.inodes[ino].size, off + r)
  {
  }

  lemma FileAt(s: State, ino: nat)
    requires Inv(s) && Files(s) && ino < |s.inodes|
    ensures Shape(s) && FileOk(s, ino) && |Contents(s, ino)| == s.inodes[ino].size <= MAXBYTES
  {
    hide Inv, Addr;
    InvShape(s);
    assert FileOk(s, ino);
  }

  lemma SavedFields(s: State, s': State, ino: nat)
    requires Shape(s) && ino < |s.inodes| && s' == Save(s, ino)
    ensures s'.inodes == s.inodes && s'.owner == s.owner && s'.stale == s.stale
  {
  }

  lemma Slices(c: seq<byte>, a: nat, b: nat, d: nat, k: nat)
    requires a <= b <= k <= d <= |c|
    ensures c[a..b] + c[b..d][..k - b] == c[a..k]
    ensures k == d ==> c[a..b] + c[b..d] == c[a..d]
  {
  }

  function Min(a: nat, b: nat): nat { if a < b then a else b }

  /** What readi() returns for a file with contents `c` and a destination of `room` bytes. */
  ghost predicate ReadOut(c: seq<byte>, off: nat, n: nat, room: nat, r: int, out: seq<byte>) {
    if off > |c| || off + n >= U32 then r == 0 && out == []
    else
      var want := Min(n, |c| - off);
      out == c[off..off + Min(want, room)] && r == if want <= room then want else -1
  }

  lemma ReadNothing(c: seq<byte>, off: nat, n: nat, room: nat)
    requires off < U32 && n < U32 && (off > |c| || (off + n) % U32 < off)
    ensures ReadOut(c, off, n, room, 0, [])
  {
  }

  lemma ReadSome(c: seq<byte>, off: nat, n: nat, room: nat, want: nat, k: nat)
    requires off <= |c| && off < U32 && n < U32 && (off + n) % U32 >= off
             && want == (if off + n > |c| then |c| - off else n)
    requires (k == want <= room) || (k == room < want)
    ensures off + k <= |c| && ReadOut(c, off, n, room, if k == want then want else -1, c[off..off + k])
  {
  }

  // ----- the abstract file system -----

  type View = seq<seq<byte>>

  ghost function ViewOf(s: State): (v: View)
    requires Inv(s) && Files(s)
    ensures |v| == |s.inodes|
  {
    InvShape(s);
    seq(|s.inodes|, i requires 0 <= i < |s.inodes| => assert FileOk(s, i); Contents(s, i))
  }

  lemma ViewAt(s: State, i: nat)
    requires Inv(s) && Files(s) && i < |s.inodes|
    ensures Shape(s) && FileOk(s, i) && ViewOf(s)[i] == Contents(s, i)
  {
    InvShape(s);
    assert FileOk(s, i);
  }

  datatype Op = Write(ino: nat, src: seq<byte>, off: nat, n: nat) | Read(ino: nat, off: nat, n: nat, room: nat)
      | Trunc(ino: nat)

  datatype Result = Wrote(r: int) | Got(r: int, out: seq<byte>) | Truncated

  /** One operation on flat byte sequences.  How far a write gets is up to the disk and the source;
      `got` bytes were stored, the same number as reported if the source was readable. */
  ghost predicate Allowed(v: View, op: Op, res: Result, got: nat, v': View) {
    && op.ino < |v|
    && match op
       case Write(ino, src, off, n) =>
         && res.Wrote?
         && if off > |v[ino]| || off + n >= U32 || off + n > MAXBYTES then res.r == -1 && v' == v
            else 0 <= res.r <= got <= |src| && res.r <= n && (|src| >= n ==> res.r == got)
                 && v' == v[ino := Over(v[ino], off, src[..got])[..NewSize(|v[ino]|, off + res.r)]]
       case Read(ino, off, n, room) => res.Got? && ReadOut(v[ino], off, n, room, res.r, res.out) && v' == v
       case Trunc(ino) => res == Truncated && v' == v[ino := []]
  }

  lemma WrittenView(s: State, s': State, ino: nat, off: nat, d: seq<byte>, r: nat)
    requires Inv(s) && Inv(s') && Written(s, s', ino, off, d, r)
    ensures ViewOf(s') == ViewOf(s)[ino := Over(ViewOf(s)[ino], off, d)[..NewSize(|ViewOf(s)[ino]|, off + r)]]
  {
    hide Inv, Files, FileOk, Contents, Over;
    var v, v' := ViewOf(s), ViewOf(s');
    ViewAt(s, ino);
    ViewAt(s', ino);
    forall i | 0 <= i < |v| && i != ino ensures v'[i] == v[i] {
      ViewAt(s, i);
      ViewAt(s', i);
      assert Unread(s, s', i);
    }
  }

  lemma TruncView(s: State, s': State, ino: nat)
    requires Inv(s) && Inv(s') && Files(s) && Files(s') && Shape(s) && Shape(s') && ino < |s.inodes| == |s'.inodes|
    requires FileOk(s', ino) && Contents(s', ino) == []
    requires forall i :: 0 <= i < |s.inodes| && i != ino ==> Unread(s, s', i)
    ensures ViewOf(s') == ViewOf(s)[ino := []]
  {
    hide Inv, Files, FileOk, Contents;
    var v, v' := ViewOf(s), ViewOf(s');
    ViewAt(s', ino);
    forall i | 0 <= i < |v| && i != ino ensures v'[i] == v[i] {
      ViewAt(s, i);
      ViewAt(s', i);
      assert Unread(s, s', i);
    }
  }

  // ----- the bitmap, in full -----

  ghost predicate InData(s: State, b: nat, ino: nat, bn: nat)
    requires Shape(s)
  {
    ino < |s.inodes| && bn < MAXFILE && Addr(s, ino, bn) == b && b != 0
  }

  ghost predicate InTable(s: State, b: nat, ino: nat)
    requires Shape(s)
  {
    ino < |s.inodes| && s.inodes[ino].addrs[NDIRECT] == b && b != 0
  }

  /** The set bits are exactly the metadata blocks and the blocks that some slot names. */
  lemma BitmapExact(s: State, b: nat)
    requires Inv(s) && Clean(s) && b < s.sb.size
    ensures Shape(s)
    ensures Marked(s.blocks, s.sb.bmapstart, b) <==>
              b < s.sb.nmeta || (exists ino, bn :: InData(s, b, ino, bn)) || (exists ino :: InTable(s, b, ino))
  {
    hide Inv, Addr, Marked;
    InvShape(s);
    BitAt(s, b);
    if b in s.owner {
      BackAt(s, b);
      match s.owner[b]
      case Data(ino, bn) => assert InData(s, b, ino, bn);
      case Table(ino) => assert InTable(s, b, ino);
      case Meta =>
      case Loose =>
    }
    forall ino, bn | InData(s, b, ino, bn) ensures b in s.owner { LinkAt(s, ino, bn); }
    forall ino | InTable(s, b, ino) ensures b in s.owner { LinkAt(s, ino, 0); }
  }

  /** No block is named by two slots, and none that is named is metadata. */
  lemma OneSlot(s: State, b: nat, ino: nat, bn: nat, ino2: nat, bn2: nat)
    requires Inv(s) && Clean(s) && Shape(s)
    ensures InData(s, b, ino, bn) && InData(s, b, ino2, bn2) ==> ino == ino2 && bn == bn2
    ensures InTable(s, b, ino) && InTable(s, b, ino2) ==> ino == ino2
    ensures !(InData(s, b, ino, bn) && InTable(s, b, ino2))
    ensures InData(s, b, ino, bn) || InTable(s, b, ino2) ==> b >= s.sb.nmeta
  {
    hide Inv, Addr;
    InvShape(s);
    if InData(s, b, ino, bn) { LinkAt(s, ino, bn); }
    if InData(s, b, ino2, bn2) { LinkAt(s, ino2, bn2); }
    if InTable(s, b, ino) { LinkAt(s, ino, 0); }
    if InTable(s, b, ino2) { LinkAt(s, ino2, 0); }
  }

  // ----- how far a write gets, and when a failed copy leaves an unlogged change -----

  /** Why the loop ended: all done, no free block left, or source bytes `got` were all there were. */
  ghost predicate Stopped(s: State, ino: nat, src: seq<byte>, off: nat, n: nat, tot: nat, got: nat)
    requires Shape(s) && ino < |s.inodes| && off + n <= MAXBYTES
  {
    && (tot == 0 || tot == n || (off + tot) % BSIZE == 0)
    && (|| (tot == n && got == tot)
        || (tot < n && got == tot && UsedBelow(s.owner, s.sb.size) && Addr(s, ino, (off + tot) / BSIZE) == 0)
        || (tot < n && got == |src| < tot + Piece(off + tot, n - tot)))
  }

  /** The number of blocks of a file of `end` bytes */
  function BlocksTo(end: nat): (k: nat)
    ensures end <= MAXBYTES ==> k <= MAXFILE
    ensures forall bn: nat :: bn * BSIZE < end <==> bn < k
  {
    (end + BSIZE - 1) / BSIZE
  }

  /** The free blocks suffice for n bytes from off. */
  ghost predicate Fits(s: State, ino: nat, off: nat, n: nat)
    requires Shape(s) && ino < |s.inodes| && off + n <= MAXBYTES
  {
    Room(s, ino, off / BSIZE, BlocksTo(off + n))
  }

  /** The call stores part of a block and does not log it: the readable bytes end inside a block, and
      the disk has room for all of them. */
  ghost predicate Tears(s: State, ino: nat, readable: nat, off: nat, n: nat)
    requires Shape(s) && ino < |s.inodes| && off + n <= MAXBYTES
  {
    0 < readable < n && (off + readable) % BSIZE != 0 && Fits(s, ino, off, readable)
  }

  /** Of `n` bytes at `off` with `readable` bytes to read, `tot` are reported and `got` stored. */
  ghost predicate Settled(s: State, ino: nat, readable: nat, off: nat, n: nat, tot: nat, got: nat)
    requires Shape(s) && ino < |s.inodes| && off + n <= MAXBYTES
  {
    && (tot == n <==> readable >= n && Fits(s, ino, off, n))
    && (got > tot <==> Tears(s, ino, readable, off, n))
  }

  /** All that is stored is on blocks that were there or were taken from the free ones. */
  lemma StoredFits(s0: State, s: State, ino: nat, off: nat, d: seq<byte>)
    requires Mid(s0, s, ino, off, d) && Gains(s0, s, ino, off / BSIZE, BlocksTo(off + |d|))
    ensures Shape(s0) && ino < |s0.inodes| && off + |d| <= MAXBYTES && Fits(s0, ino, off, |d|)
  {
    hide Inv, Files, Addr, Others, Bytes, Need;
    OthersShape(s0, s, ino);
    CleanStale(s);
    NeedNone(s, ino, off / BSIZE, BlocksTo(off + |d|));
  }

  /** A full disk stopped the write at a missing block within the first m bytes. */
  lemma FullNotFits(s0: State, s: State, ino: nat, off: nat, tot: nat, m: nat)
    requires tot < m && off + m <= MAXBYTES && Gains(s0, s, ino, off / BSIZE, BlocksTo(off + m))
    requires UsedBelow(s.owner, s.sb.size) && Addr(s, ino, (off + tot) / BSIZE) == 0
    ensures !Fits(s0, ino, off, m)
  {
    hide Addr, Need;
    var bn := (off + tot) / BSIZE;
    assert bn * BSIZE < off + m;
    NeedSome(s, ino, off / BSIZE, BlocksTo(off + m), bn);
    FullIsEmpty(s);
  }

  /** How far writei() gets, and whether it tears a block, is decided by the state and the arguments. */
  lemma TornExactly(s0: State, s: State, ino: nat, src: seq<byte>, off: nat, n: nat, tot: nat, got: nat)
    requires off + n <= MAXBYTES && tot <= got <= |src| && Mid(s0, s, ino, off, src[..got])
    requires Shape(s) && ino < |s.inodes| && Stopped(s, ino, src, off, n, tot, got)
    requires tot < Min(n, |src|) || tot == n ==> Gains(s0, s, ino, off / BSIZE, BlocksTo(off + Min(n, |src|)))
    ensures Shape(s0) && ino < |s0.inodes| && Settled(s0, ino, |src|, off, n, tot, got)
  {
    hide Addr, UsedBelow, Gains, Fits, Mid, Piece, BlocksTo;
    MidParts(s0, s, ino, off, src[..got]);
    MidShape(s0, s, ino, off, src[..got]);
    if tot == n {
      StoredFits(s0, s, ino, off, src[..got]);
    } else if got == tot && tot < |src| {
      FullNotFits(s0, s, ino, off, tot, Min(n, |src|));
    } else if tot < |src| {
      WithinPiece(off + tot, n - tot, |src| - tot);
      StoredFits(s0, s, ino, off, src[..got]);
    }
  }

  /** One more round, at position off + tot of the first n bytes. */
  lemma GainsRound(s0: State, s1: State, s2: State, ino: nat, off: nat, n: nat, tot: nat)
    requires tot < n && off + n <= MAXBYTES && Gains(s0, s1, ino, off / BSIZE, BlocksTo(off + n))
    requires Gains(s1, s2, ino, (off + tot) / BSIZE, (off + tot) / BSIZE + 1)
    ensures Gains(s0, s2, ino, off / BSIZE, BlocksTo(off + n))
  {
    hide Gains;
    var bn := (off + tot) / BSIZE;
    assert bn * BSIZE < off + n && off / BSIZE <= bn;
    GainsWider(s1, s2, ino, bn, bn + 1, off / BSIZE, BlocksTo(off + n));
    GainsTrans(s0, s1, s2, ino, off / BSIZE, BlocksTo(off + n));
  }

  lemma StoppedWhy(s: State, ino: nat, src: seq<byte>, off: nat, n: nat, tot: nat, got: nat)
    requires Shape(s) && ino < |s.inodes| && off + n <= MAXBYTES && Stopped(s, ino, src, off, n, tot, got)
    ensures tot == n ==> got == n
    ensures tot != n ==> |src| < n || UsedBelow(s.owner, s.sb.size)
  {
    hide Addr, UsedBelow;
  }

  lemma SettledFull(s0: State, ino: nat, src: seq<byte>, off: nat, n: nat, tot: nat, got: nat)
    requires Shape(s0) && ino < |s0.inodes| && off + n <= MAXBYTES && Settled(s0, ino, |src|, off, n, tot, got)
             && tot <= got
    ensures |src| >= n ==> tot == got
  {
    hide Fits;
  }

  lemma StoppedOn(s: State, s': State, ino: nat, src: seq<byte>, off: nat, n: nat, tot: nat, got: nat)
    requires SameMap(s, s', ino) && off + n <= MAXBYTES && Stopped(s, ino, src, off, n, tot, got)
    ensures Stopped(s', ino, src, off, n, tot, got)
  {
    hide Addr, Piece, UsedBelow;
  }

  /** Bytes the file now has were on its blocks or fitted on the free ones. */
  lemma GrownFits(s0: State, s: State, ino: nat, off: nat, n: nat)
    requires Inv(s) && s.stale == {} && ino < |s.inodes| && Shape(s) && FileOk(s, ino) && off + n <= s.inodes[ino].size
    requires off + n <= MAXBYTES && Gains(s0, s, ino, off / BSIZE, BlocksTo(off + n))
    ensures Fits(s0, ino, off, n)
  {
    hide Inv, Addr, Need;
    NeedNone(s, ino, off / BSIZE, BlocksTo(off + n));
  }

  /** A part that no longer fits did not fit with the whole at first. */
  lemma PartFits(s0: State, s: State, ino: nat, off: nat, n: nat, i: nat, m: nat)
    requires i + m <= n && off + n <= MAXBYTES && Gains(s0, s, ino, off / BSIZE, BlocksTo(off + n))
    requires !Fits(s, ino, off + i, m)
    ensures !Fits(s0, ino, off, n)
  {
    hide Addr, Need;
    var lo, hi := (off + i) / BSIZE, BlocksTo(off + i + m);
    assert forall bn: nat :: bn < hi ==> bn * BSIZE < off + n;
    assert hi <= BlocksTo(off + n);
    NeedLess(s, ino, lo, hi, off / BSIZE, BlocksTo(off + n));
  }

  /** A write() of n bytes is carried out in full. */
  ghost predicate Takes(s: State, ino: nat, readable: nat, off: nat, n: nat) {
    && Shape(s) && ino < |s.inodes| && off <= s.inodes[ino].size && off + n <= MAXBYTES && readable >= n
    && Fits(s, ino, off, n)
  }

  /** Only blocks within the range written came to the file. */
  ghost predicate Grown(s0: State, s: State, ino: nat, off: nat, n: int) {
    n >= 0 && off + n <= MAXBYTES ==> Gains(s0, s, ino, off / BSIZE, BlocksTo(off + n))
  }

  lemma GrownStart(s: State, ino: nat, off: nat, n: int)
    requires Inv(s) && ino < |s.inodes|
    ensures Grown(s, s, ino, off, n)
  {
    hide Inv, Gains;
    InvShape(s);
    if n >= 0 && off + n <= MAXBYTES { GainsNone(s, ino, off / BSIZE, BlocksTo(off + n)); }
  }

  lemma GrownTakes(s0: State, s: State, ino: nat, off: nat, n: nat, src: seq<byte>)
    requires Inv(s) && Clean(s) && Shape(s) && Files(s) && n <= |src|
    requires Written(s0, s, ino, off, src[..n], n) && Grown(s0, s, ino, off, n)
    ensures Takes(s0, ino, |src|, off, n)
  {
    hide Inv, Gains, Fits, Addr, Contents, Over;
    WrittenSize(s0, s, ino, off, src[..n], n);
    FileAt(s, ino);
    CleanStale(s);
    GrownFits(s0, s, ino, off, n);
  }

  /** A chunk refused by writei() */
  lemma ChunkRefused(s0: State, ino: nat, readable: nat, off: nat, n: nat)
    requires ino < |s0.inodes| && (off > s0.inodes[ino].size || off + n > MAXBYTES)
    ensures !Takes(s0, ino, readable, off, n)
  {
  }

  /** A chunk taken by writei(): it falls short only when the whole does. */
  lemma ChunkTakes(s0: State, s1: State, s2: State, ino: nat, readable: nat, off: nat, n: nat, i: nat, m: nat, r: nat,
                   got: nat)
    requires 0 < m && i + m <= n && i <= readable && Grown(s0, s1, ino, off, n)
    requires Shape(s1) && ino < |s1.inodes| && off + i + m <= MAXBYTES
             && Settled(s1, ino, readable - i, off + i, m, r, got)
    requires Gains(s1, s2, ino, (off + i) / BSIZE, BlocksTo(off + i + m))
    ensures Grown(s0, s2, ino, off, n)
    ensures r != m ==> !Takes(s0, ino, readable, off, n)
  {
    hide Gains, Fits;
    if off + n <= MAXBYTES {
      GainsPart(s0, s1, s2, ino, off, n, i, m);
      if r != m && readable - i >= m { PartFits(s0, s1, ino, off, n, i, m); }
    }
  }

  lemma GainsPart(s0: State, s1: State, s2: State, ino: nat, off: nat, n: nat, i: nat, m: nat)
    requires 0 < m && i + m <= n && off + n <= MAXBYTES && Gains(s0, s1, ino, off / BSIZE, BlocksTo(off + n))
    requires Gains(s1, s2, ino, (off + i) / BSIZE, BlocksTo(off + i + m))
    ensures Gains(s0, s2, ino, off / BSIZE, BlocksTo(off + n))
  {
    hide Gains;
    var lo, hi := (off + i) / BSIZE, BlocksTo(off + i + m);
    assert lo * BSIZE < off + i + m;
    GainsWider(s1, s2, ino, lo, hi, off / BSIZE, BlocksTo(off + n));
    GainsTrans(s0, s1, s2, ino, off / BSIZE, BlocksTo(off + n));
  }

  lemma MidShape(s0: State, s: State, ino: nat, off: nat, d: seq<byte>)
    requires Mid(s0, s, ino, off, d)
    ensures Shape(s0) && ino < |s0.inodes|
  {
  }

  // ----- which blocks an operation has touched -----

  /** Since `base` only the blocks `touched` have changed, none of them below the inode blocks. */
  ghost predicate Tracks(sb: Super, base: seq<Block>, blocks: seq<Block>, touched: set<nat>) {
    && |base| == |blocks| == sb.size && (forall b :: b in touched ==> sb.inodestart <= b < sb.size)
    && forall b :: 0 <= b < |blocks| && b !in touched ==> blocks[b] == base[b]
  }

  lemma TracksMore(sb: Super, base: seq<Block>, blocks: seq<Block>, touched: set<nat>, b: nat, d: Block, now: set<nat>)
    requires Tracks(sb, base, blocks, touched) && sb.inodestart <= b < sb.size && now == touched + {b}
    ensures Tracks(sb, base, blocks[b := d], now)
  {
  }

  /** bmap() filled an entry of the indirect table. */
  lemma EntryDone(s: State, s': State, ino: nat, j: nat, b: nat, before: set<nat>, after: set<nat>)
    requires Inv(s) && Clean(s) && Shape(s) && Files(s) && ino < |s.inodes| && j < NINDIRECT
             && s.inodes[ino].addrs[NDIRECT] != 0
    requires Addr(s, ino, NDIRECT + j) == 0 && b < s.sb.size && b !in s.owner && b != 0
    requires Shape(Alloc(s, b)) && s' == PlaceEntry(Alloc(s, b), ino, j, b)
    requires after == before + {s.sb.bmapstart + b / BPB, b} + {s.inodes[ino].addrs[NDIRECT]}
    ensures Inv(s') && Clean(s') && Shape(s') && Files(s') && Mapped(s, s', ino, NDIRECT + j, b)
    ensures Effort(s, s', ino, NDIRECT + j, b, before, after, {s.sb.bmapstart + b / BPB})
    ensures Gains(s, s', ino, NDIRECT + j, NDIRECT + j + 1)
  {
    hide Inv, Clean, Files, SameFiles, Addr, Alloc, PlaceEntry, Mapped, Effort, Gains;
    PlacedEntry(s, ino, j, b, s', before, after);
    EntryGains(s, s', ino, j, b);
    FilesKept(s, s');
    InvShape(s');
  }

  /** A block changed and logged */
  lemma TracksOne(sb: Super, base: seq<Block>, blocks: seq<Block>, logged: set<nat>, unlogged: set<nat>, b: nat,
                  d: Block, logged': set<nat>, unlogged': set<nat>)
    requires sb.inodestart <= b < sb.size == |blocks| && logged' == logged + {b} && unlogged' == unlogged - {b}
    ensures Tracks(sb, base, blocks, logged + unlogged) ==> Tracks(sb, base, blocks[b := d], logged' + unlogged')
  {
    assert logged' + unlogged' == logged + unlogged + {b};
  }

  /** Two of them */
  lemma TracksTwo(sb: Super, base: seq<Block>, blocks: seq<Block>, logged: set<nat>, unlogged: set<nat>, b: nat,
                  d: Block, b2: nat, d2: Block, logged': set<nat>, unlogged': set<nat>)
    requires sb.inodestart <= b < sb.size == |blocks| && sb.inodestart <= b2 < sb.size
    requires logged' == logged + {b} + {b2} && unlogged' == unlogged - {b} - {b2}
    ensures Tracks(sb, base, blocks, logged + unlogged) ==>
              Tracks(sb, base, blocks[b := d][b2 := d2], logged' + unlogged')
  {
    hide Tracks;
    TracksOne(sb, base, blocks, logged, unlogged, b, d, logged + {b}, unlogged - {b});
    TracksOne(sb, base, blocks[b := d], logged + {b}, unlogged - {b}, b2, d2, logged', unlogged');
  }

  /** A block into which `e` was copied, and which was logged or not */
  lemma TracksStore(sb: Super, base: seq<Block>, blocks: seq<Block>, logged: set<nat>, unlogged: set<nat>, b: nat,
                    o: nat, e: seq<byte>, logged': set<nat>, unlogged': set<nat>)
    requires sb.inodestart <= b < sb.size == |blocks| && o + |e| <= BSIZE
    requires || (logged' == logged + {b} && unlogged' == unlogged - {b})
             || (logged' == logged && unlogged' == if e == [] then unlogged else unlogged + {b})
    ensures Tracks(sb, base, blocks, logged + unlogged) ==>
              Tracks(sb, base, blocks[b := Patch(blocks[b], o, e)], logged' + unlogged')
  {
    hide Patch;
    if e == [] { PatchNothing(blocks[b], o); }
    if e == [] && logged' == logged && unlogged' == unlogged {
      assert blocks[b := blocks[b]] == blocks;
    } else {
      assert logged' + unlogged' == logged + unlogged + {b};
    }
  }

  lemma WithinPiece(pos: nat, left: nat, k: nat)
    requires 0 < k < Piece(pos, left)
    ensures (pos + k) % BSIZE != 0
  {
    PieceByte(pos, k);
  }
}
