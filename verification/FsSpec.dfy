/** Inodes, their blocks and the bitmap of kernel/fs.c as one state.  A ghost map `owner` gives every
    allocated block its single owner, pointing back at the slot that names it; the invariant ties it
    to the bitmap bits, to the inodes and to the indirect tables in both directions. */
module FsSpec {
  import opened Common
  import opened Blocks
  import opened Bitmap
  import opened Dinode

  const NINDIRECT: nat := 256            // BSIZE / sizeof(uint)
  const MAXFILE: nat := 268              // NDIRECT + NINDIRECT
  const MAXBYTES: nat := 274432          // MAXFILE * BSIZE

  /** struct superblock; blocks below nmeta are boot block, log, inodes and bitmap. */
  datatype Super = Super(size: nat, ninodes: nat, inodestart: nat, bmapstart: nat, nmeta: nat)

  predicate Layout(sb: Super) {
    && 1 <= sb.inodestart && sb.inodestart + sb.ninodes / IPB + 1 <= sb.bmapstart
    && sb.bmapstart + sb.size / BPB + 1 <= sb.nmeta <= sb.size < 0x7FFF_0000
  }

  /** What an allocated block is for: metadata, allocated and not yet placed, data block `bn` of
      inode `ino`, or its indirect table. */
  datatype Slot = Meta | Loose | Data(ino: nat, bn: nat) | Table(ino: nat)

  /** `blocks` is what bread() returns, `inodes` the in-memory inodes; `stale` are slots whose block
      itrunc() has freed but whose number it has not cleared yet. */
  datatype State = State(sb: Super, blocks: seq<Block>, inodes: seq<Inode>, owner: map<nat, Slot>, stale: set<Slot>)

  ghost predicate Shape(s: State) {
    && Layout(s.sb) && |s.blocks| == s.sb.size && |s.inodes| == s.sb.ninodes
    && forall i :: 0 <= i < |s.inodes| ==> s.inodes[i].addrs[NDIRECT] < s.sb.size
  }

  /** The block number stored for block `bn` of inode `ino`, 0 if none. */
  ghost function Addr(s: State, ino: nat, bn: nat): nat
    requires Shape(s) && ino < |s.inodes| && bn < MAXFILE
  {
    var a := s.inodes[ino].addrs;
    if bn < NDIRECT then a[bn] else if a[NDIRECT] == 0 then 0 else Word(s.blocks[a[NDIRECT]], bn - NDIRECT)
  }

  ghost predicate OwnerOk(s: State) {
    && (forall b :: b in s.owner ==> b < s.sb.size && (s.owner[b] == Meta <==> b < s.sb.nmeta))
    && (forall b :: 0 <= b < s.sb.nmeta ==> b in s.owner)
  }

  ghost predicate BitOk(s: State, b: nat)
    requires Shape(s) && b < s.sb.size
  {
    Marked(s.blocks, s.sb.bmapstart, b) <==> b in s.owner
  }

  ghost predicate LinkOk(s: State, ino: nat, bn: nat)
    requires Shape(s) && ino < |s.inodes| && bn < MAXFILE
  {
    var b := Addr(s, ino, bn);
    b < s.sb.size && (b != 0 && Data(ino, bn) !in s.stale ==> b in s.owner && s.owner[b] == Data(ino, bn))
  }

  ghost predicate TableOk(s: State, ino: nat)
    requires Shape(s) && ino < |s.inodes|
  {
    var t := s.inodes[ino].addrs[NDIRECT];
    t != 0 ==> t >= s.sb.nmeta && (Table(ino) !in s.stale ==> t in s.owner && s.owner[t] == Table(ino))
  }

  ghost predicate BackOk(s: State, b: nat)
    requires Shape(s) && b in s.owner
  {
    match s.owner[b]
    case Data(ino, bn) => ino < |s.inodes| && bn < MAXFILE && Addr(s, ino, bn) == b && Data(ino, bn) !in s.stale
    case Table(ino) => ino < |s.inodes| && s.inodes[ino].addrs[NDIRECT] == b && Table(ino) !in s.stale
    case Meta => true
    case Loose => true
  }

  ghost predicate Links(s: State)
    requires Shape(s)
  {
    && (forall ino, bn {:trigger LinkOk(s, ino, bn)} :: 0 <= ino < |s.inodes| && 0 <= bn < MAXFILE ==>
        LinkOk(s, ino, bn))
    && (forall ino {:trigger TableOk(s, ino)} :: 0 <= ino < |s.inodes| ==> TableOk(s, ino))
    && (forall b {:trigger BackOk(s, b)} :: b in s.owner ==> BackOk(s, b))
  }

  ghost predicate Bits(s: State)
    requires Shape(s)
  {
    forall b {:trigger BitOk(s, b)} :: 0 <= b < s.sb.size ==> BitOk(s, b)
  }

  ghost predicate Inv(s: State) {
    Shape(s) && OwnerOk(s) && Bits(s) && Links(s)
  }

  /** Between file-system calls: nothing half placed, nothing half freed. */
  ghost predicate Clean(s: State) {
    s.stale == {} && forall b :: b in s.owner ==> s.owner[b] != Loose
  }

  // ----- files -----

  /** No holes: every block below the size is there. */
  ghost predicate FileOk(s: State, ino: nat)
    requires Shape(s) && ino < |s.inodes|
  {
    s.inodes[ino].size <= MAXBYTES
    && forall bn {:trigger Addr(s, ino, bn)} :: 0 <= bn < MAXFILE && bn * BSIZE < s.inodes[ino].size ==>
        Addr(s, ino, bn) != 0
  }

  ghost predicate Files(s: State)
    requires Shape(s)
  {
    forall ino {:trigger FileOk(s, ino)} :: 0 <= ino < |s.inodes| ==> FileOk(s, ino)
  }

  ghost function ByteAt(s: State, ino: nat, p: nat): byte
    requires Shape(s) && ino < |s.inodes| && p < MAXBYTES
  {
    var a := Addr(s, ino, p / BSIZE);
    if a < |s.blocks| then s.blocks[a][p % BSIZE] else 0
  }

  /** The file as a flat byte sequence. */
  ghost function Contents(s: State, ino: nat): (c: seq<byte>)
    requires Shape(s) && ino < |s.inodes| && FileOk(s, ino)
    ensures |c| == s.inodes[ino].size
  {
    seq(s.inodes[ino].size, p requires 0 <= p < s.inodes[ino].size => ByteAt(s, ino, p))
  }

  /** Every mapped block of the file keeps its place and its content. */
  ghost predicate SameFile(s: State, s': State, ino: nat)
    requires Shape(s) && Shape(s') && ino < |s.inodes| && ino < |s'.inodes|
  {
    && s'.inodes[ino].size == s.inodes[ino].size
    && forall bn {:trigger SameBlock(s, s', ino, bn)} :: 0 <= bn < MAXFILE ==> SameBlock(s, s', ino, bn)
  }

  ghost predicate SameBlock(s: State, s': State, ino: nat, bn: nat)
    requires Shape(s) && Shape(s') && ino < |s.inodes| && ino < |s'.inodes| && bn < MAXFILE
  {
    var b := Addr(s, ino, bn);
    b != 0 ==> Addr(s', ino, bn) == b && (b < |s.blocks| ==> b < |s'.blocks| && s'.blocks[b] == s.blocks[b])
  }

  ghost predicate SameFiles(s: State, s': State) {
    && Shape(s) && Shape(s') && |s'.inodes| == |s.inodes|
    && forall ino {:trigger SameFile(s, s', ino)} :: 0 <= ino < |s.inodes| ==> SameFile(s, s', ino)
  }

  lemma SameContents(s: State, s': State, ino: nat)
    requires Inv(s) && Inv(s') && ino < |s.inodes| && ino < |s'.inodes| && SameFile(s, s', ino) && FileOk(s, ino)
    ensures FileOk(s', ino) && Contents(s', ino) == Contents(s, ino)
  {
    hide Inv, Addr;
    InvShape(s);
    InvShape(s');
    forall bn | 0 <= bn < MAXFILE && bn * BSIZE < s'.inodes[ino].size ensures Addr(s', ino, bn) != 0 {
      assert SameBlock(s, s', ino, bn);
    }
    forall p | 0 <= p < s.inodes[ino].size ensures ByteAt(s', ino, p) == ByteAt(s, ino, p) {
      assert SameBlock(s, s', ino, p / BSIZE);
      LinkAt(s, ino, p / BSIZE);
    }
  }

  lemma SameFilesTrans(s: State, s1: State, s2: State)
    requires SameFiles(s, s1) && SameFiles(s1, s2) && Inv(s)
    ensures SameFiles(s, s2)
  {
    hide Addr, Inv;
    forall ino | 0 <= ino < |s.inodes| ensures SameFile(s, s2, ino) {
      assert SameFile(s, s1, ino) && SameFile(s1, s2, ino);
      SameFileTrans(s, s1, s2, ino);
    }
  }

  lemma SameFileTrans(s: State, s1: State, s2: State, ino: nat)
    requires Inv(s) && Shape(s1) && Shape(s2) && ino < |s.inodes| && ino < |s1.inodes| && ino < |s2.inodes|
    requires SameFile(s, s1, ino) && SameFile(s1, s2, ino)
    ensures SameFile(s, s2, ino)
  {
    hide Addr, Inv;
    InvShape(s);
    forall bn | 0 <= bn < MAXFILE ensures SameBlock(s, s2, ino, bn) {
      LinkAt(s, ino, bn);
      assert SameBlock(s, s1, ino, bn) && SameBlock(s1, s2, ino, bn);
    }
  }

  // ----- projections of the invariant -----

  lemma InvShape(s: State)
    requires Inv(s)
    ensures Shape(s) && OwnerOk(s)
  {
  }

  lemma LinkAt(s: State, ino: nat, bn: nat)
    requires Inv(s) && ino < |s.inodes| && bn < MAXFILE
    ensures LinkOk(s, ino, bn) && TableOk(s, ino)
    ensures Addr(s, ino, bn) != 0 && s.stale == {} ==> Addr(s, ino, bn) >= s.sb.nmeta
  {
    assert LinkOk(s, ino, bn) && TableOk(s, ino);
  }

  lemma BackAt(s: State, b: nat)
    requires Inv(s) && b in s.owner
    ensures BackOk(s, b)
  {
  }

  lemma BitAt(s: State, b: nat)
    requires Inv(s) && b < s.sb.size
    ensures BitOk(s, b)
  {
  }

  /** A bitmap block is metadata. */
  lemma BitmapBlock(sb: Super, b: nat)
    requires Layout(sb) && b < sb.size
    ensures sb.bmapstart + b / BPB < sb.nmeta
  {
  }

  /** Different slots name different blocks. */
  lemma Apart(s: State, ino: nat, bn: nat, ino2: nat, bn2: nat)
    requires Inv(s) && s.stale == {} && ino < |s.inodes| && ino2 < |s.inodes| && bn < MAXFILE && bn2 < MAXFILE
    requires Addr(s, ino, bn) != 0 && Addr(s, ino, bn) == Addr(s, ino2, bn2)
    ensures ino == ino2 && bn == bn2
  {
    hide Addr;
    LinkAt(s, ino, bn);
    LinkAt(s, ino2, bn2);
  }

  /** The tables being the same, so are all block numbers. */
  lemma AddrSame(s: State, s': State, ino: nat, bn: nat)
    requires Shape(s) && Shape(s') && ino < |s.inodes| && ino < |s'.inodes| && bn < MAXFILE
    requires s'.inodes[ino].addrs == s.inodes[ino].addrs
    requires var t := s.inodes[ino].addrs[NDIRECT]; t != 0 ==> s'.blocks[t] == s.blocks[t]
    ensures Addr(s', ino, bn) == Addr(s, ino, bn)
  {
  }
}
