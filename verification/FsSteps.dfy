/** The single updates that kernel/fs.c makes to inodes, tables and bitmap, and what each keeps. */
module FsSteps {
  import opened Blocks
  import opened Bitmap
  import opened Dinode
  import opened FsSpec

  /** balloc(): mark the bit, then bzero() */
  ghost function Alloc(s: State, b: nat): State
    requires Shape(s) && b < s.sb.size
  {
    s.(blocks := Mark(s.blocks, s.sb.bmapstart, b)[b := ZeroBlock()], owner := s.owner[b := Loose])
  }

  /** ip->addrs[bn] = addr, for a direct block */
  ghost function PlaceDirect(s: State, ino: nat, bn: nat, b: nat): State
    requires Shape(s) && ino < |s.inodes| && bn < NDIRECT && b < s.sb.size
  {
    s.(inodes := SetAddr(s.inodes, ino, bn, b), owner := s.owner[b := Data(ino, bn)])
  }

  /** ip->addrs[NDIRECT] = addr */
  ghost function PlaceTable(s: State, ino: nat, b: nat): State
    requires Shape(s) && ino < |s.inodes| && b < s.sb.size
  {
    s.(inodes := SetAddr(s.inodes, ino, NDIRECT, b), owner := s.owner[b := Table(ino)])
  }

  /** a[j] = addr in the indirect table */
  ghost function PlaceEntry(s: State, ino: nat, j: nat, b: nat): State
    requires Shape(s) && ino < |s.inodes| && j < NINDIRECT && b < s.sb.size
  {
    var t := s.inodes[ino].addrs[NDIRECT];
    s.(blocks := s.blocks[t := SetWord(s.blocks[t], j, b)], owner := s.owner[b := Data(ino, NDIRECT + j)])
  }

  /** New content for block `bn` of the file */
  ghost function Store(s: State, ino: nat, bn: nat, d: Block): State
    requires Shape(s) && ino < |s.inodes| && bn < MAXFILE && Addr(s, ino, bn) < s.sb.size
  {
    s.(blocks := s.blocks[Addr(s, ino, bn) := d])
  }

  ghost function Resize(s: State, ino: nat, size: nat): State
    requires Shape(s) && ino < |s.inodes| && size <= MAXBYTES
  {
    s.(inodes := s.inodes[ino := s.inodes[ino].(size := size)])
  }

  /** iupdate() */
  ghost function Save(s: State, ino: nat): State
    requires Shape(s) && ino < |s.inodes|
  {
    var ib := InodeBlock(s.sb, ino);
    s.(blocks := s.blocks[ib := Put(s.blocks[ib], ino % IPB, s.inodes[ino])])
  }

  /** bfree() */
  ghost function Release(s: State, b: nat): State
    requires Shape(s) && b < s.sb.size && b in s.owner
  {
    s.(blocks := Unmark(s.blocks, s.sb.bmapstart, b), owner := s.owner - {b}, stale := s.stale + {s.owner[b]})
  }

  /** ip->addrs[bn] = 0 after its block is freed */
  ghost function ClearDirect(s: State, ino: nat, bn: nat): State
    requires Shape(s) && ino < |s.inodes| && bn < NDIRECT
  {
    s.(inodes := SetAddr(s.inodes, ino, bn, 0), stale := s.stale - {Data(ino, bn)})
  }

  /** ip->addrs[NDIRECT] = 0 after the table and all its blocks are freed */
  ghost function ClearTable(s: State, ino: nat): State
    requires Shape(s) && ino < |s.inodes|
  {
    s.(inodes := SetAddr(s.inodes, ino, NDIRECT, 0),
       stale := set x | x in s.stale && x != Table(ino) && !(x.Data? && x.ino == ino && x.bn >= NDIRECT))
  }

  function SetAddr(inodes: seq<Inode>, ino: nat, k: nat, b: Word32): (r: seq<Inode>)
    requires ino < |inodes| && k <= NDIRECT
    ensures |r| == |inodes| && r[ino].size == inodes[ino].size && forall i :: 0 <= i < |r| && i != ino ==>
              r[i] == inodes[i]
  {
    inodes[ino := inodes[ino].(addrs := inodes[ino].addrs[k := b])]
  }

  /** IBLOCK(i, sb): an inode block is neither bitmap nor data. */
  function InodeBlock(sb: Super, ino: nat): (b: nat)
    requires Layout(sb) && ino < sb.ninodes
    ensures b < sb.bmapstart
  {
    sb.inodestart + ino / IPB
  }

  /** The inode as ilock() would read it. */
  ghost function OnDisk(s: State, ino: nat): Inode
    requires Shape(s) && ino < |s.inodes|
  {
    Get(s.blocks[InodeBlock(s.sb, ino)], ino % IPB)
  }

  // ----- allocating -----

  lemma AllocShape(s: State, b: nat)
    requires Inv(s) && b < s.sb.size && b !in s.owner
    ensures Shape(Alloc(s, b)) && b >= s.sb.nmeta && Alloc(s, b).blocks[b] == ZeroBlock()
    ensures forall c :: s.sb.nmeta <= c < s.sb.size && c != b ==> Alloc(s, b).blocks[c] == s.blocks[c]
    ensures forall c :: 0 <= c < s.sb.bmapstart ==> Alloc(s, b).blocks[c] == s.blocks[c]
  {
    hide Bits, Links;
    BitmapBlock(s.sb, b);
  }

  lemma AllocBits(s: State, b: nat)
    requires Inv(s) && b < s.sb.size && b !in s.owner
    ensures Shape(Alloc(s, b)) && Bits(Alloc(s, b))
  {
    hide Links, Mark, Marked;
    AllocShape(s, b);
    var s' := Alloc(s, b);
    forall c | 0 <= c < s'.sb.size ensures BitOk(s', c) {
      BitAt(s, c);
      BitmapBlock(s.sb, b);
      BitmapBlock(s.sb, c);
      MarkBits(s.blocks, s.sb.bmapstart, b, c);
      MarkedSame(Mark(s.blocks, s.sb.bmapstart, b), s'.blocks, s.sb.bmapstart, c);
    }
  }

  lemma MarkedSame(blocks: seq<Block>, blocks': seq<Block>, start: nat, b: nat)
    requires start + b / BPB < |blocks| == |blocks'| && blocks'[start + b / BPB] == blocks[start + b / BPB]
    ensures Marked(blocks', start, b) <==> Marked(blocks, start, b)
  {
  }

  lemma AllocAt(s: State, b: nat, ino: nat, bn: nat)
    requires Inv(s) && s.stale == {} && b < s.sb.size && b !in s.owner && ino < |s.inodes| && bn < MAXFILE
    ensures Shape(Alloc(s, b)) && Addr(Alloc(s, b), ino, bn) == Addr(s, ino, bn) != b
    ensures SameBlock(s, Alloc(s, b), ino, bn)
  {
    hide Inv, Mark, Addr;
    InvShape(s);
    AllocShape(s, b);
    LinkAt(s, ino, bn);
    AddrSame(s, Alloc(s, b), ino, bn);
  }

  /** balloc() keeps the invariant and every file, and the new block is zero and not yet owned. */
  lemma AllocOk(s: State, b: nat)
    requires Inv(s) && s.stale == {} && b < s.sb.size && b !in s.owner
    ensures Inv(Alloc(s, b)) && SameFiles(s, Alloc(s, b))
  {
    hide Inv, Mark, Addr, Bits;
    InvShape(s);
    AllocShape(s, b);
    AllocBits(s, b);
    var s' := Alloc(s, b);
    forall ino, bn | 0 <= ino < |s'.inodes| && 0 <= bn < MAXFILE ensures LinkOk(s', ino, bn)
        && SameBlock(s, s', ino, bn) {
      AllocAt(s, b, ino, bn);
      LinkAt(s, ino, bn);
    }
    forall ino | 0 <= ino < |s'.inodes| ensures TableOk(s', ino) {
      LinkAt(s, ino, 0);
    }
    forall c | c in s'.owner ensures BackOk(s', c) {
      if c != b {
        BackAt(s, c);
        if s.owner[c].Data? { AllocAt(s, b, s.owner[c].ino, s.owner[c].bn); }
      }
    }
    SameFilesIntro(s, s');
    InvIntro(s');
  }

  lemma SameFilesIntro(s: State, s': State)
    requires Shape(s) && Shape(s') && |s'.inodes| == |s.inodes|
    requires forall ino :: 0 <= ino < |s.inodes| ==> s'.inodes[ino].size == s.inodes[ino].size
    requires forall ino, bn {:trigger SameBlock(s, s', ino, bn)} :: 0 <= ino < |s.inodes| && 0 <= bn < MAXFILE ==>
               SameBlock(s, s', ino, bn)
    ensures SameFiles(s, s')
  {
    hide SameBlock;
    forall ino | 0 <= ino < |s.inodes| ensures SameFile(s, s', ino) {
    }
  }

  lemma InvIntro(s: State)
    requires Shape(s) && OwnerOk(s) && Bits(s)
    requires forall ino, bn {:trigger LinkOk(s, ino, bn)} :: 0 <= ino < |s.inodes| && 0 <= bn < MAXFILE ==>
               LinkOk(s, ino, bn)
    requires forall ino {:trigger TableOk(s, ino)} :: 0 <= ino < |s.inodes| ==> TableOk(s, ino)
    requires forall b {:trigger BackOk(s, b)} :: b in s.owner ==> BackOk(s, b)
    ensures Inv(s)
  {
  }

  // ----- placing -----

  lemma DirectAt(s: State, ino: nat, bn: nat, b: nat, ino2: nat, bn2: nat)
    requires Shape(s) && ino < |s.inodes| && bn < NDIRECT && b < s.sb.size && ino2 < |s.inodes| && bn2 < MAXFILE
    ensures Shape(PlaceDirect(s, ino, bn, b))
    ensures Addr(PlaceDirect(s, ino, bn, b), ino2, bn2) == if ino == ino2 && bn == bn2 then b else Addr(s, ino2, bn2)
  {
    hide Word;
  }

  /** The bitmap and the set of owned blocks stay. */
  lemma BitsSame(s: State, s': State)
    requires Inv(s) && Shape(s') && s'.sb == s.sb && s'.owner.Keys == s.owner.Keys
    requires forall c :: s.sb.bmapstart <= c < s.sb.nmeta ==> s'.blocks[c] == s.blocks[c]
    ensures Bits(s')
  {
    hide Links, Marked;
    forall c | 0 <= c < s'.sb.size ensures BitOk(s', c) {
      BitAt(s, c);
      BitmapBlock(s.sb, c);
      MarkedSame(s.blocks, s'.blocks, s.sb.bmapstart, c);
    }
  }

  lemma PlaceDirectOk(s: State, ino: nat, bn: nat, b: nat)
    requires Inv(s) && s.stale == {} && ino < |s.inodes| && bn < NDIRECT && b in s.owner && s.owner[b] == Loose
    requires Addr(s, ino, bn) == 0
    ensures b < s.sb.size && Inv(PlaceDirect(s, ino, bn, b)) && SameFiles(s, PlaceDirect(s, ino, bn, b))
    ensures Addr(PlaceDirect(s, ino, bn, b), ino, bn) == b
  {
    hide Inv, Addr, Bits;
    InvShape(s);
    var s' := PlaceDirect(s, ino, bn, b);
    DirectAt(s, ino, bn, b, ino, bn);
    BitsSame(s, s');
    forall ino2, bn2 | 0 <= ino2 < |s'.inodes| && 0 <= bn2 < MAXFILE ensures LinkOk(s', ino2, bn2)
        && SameBlock(s, s', ino2, bn2) {
      DirectAt(s, ino, bn, b, ino2, bn2);
      LinkAt(s, ino2, bn2);
    }
    forall ino2 | 0 <= ino2 < |s'.inodes| ensures TableOk(s', ino2) {
      LinkAt(s, ino2, 0);
    }
    forall c | c in s'.owner ensures BackOk(s', c) {
      if c != b {
        BackAt(s, c);
        if s.owner[c].Data? { DirectAt(s, ino, bn, b, s.owner[c].ino, s.owner[c].bn); }
      }
    }
    SameFilesIntro(s, s');
    InvIntro(s');
  }

  lemma TableAt(s: State, ino: nat, b: nat, ino2: nat, bn2: nat)
    requires Shape(s) && ino < |s.inodes| && b < s.sb.size && s.blocks[b] == ZeroBlock() && ino2 < |s.inodes|
             && bn2 < MAXFILE
    requires s.inodes[ino].addrs[NDIRECT] == 0
    ensures Shape(PlaceTable(s, ino, b))
    ensures Addr(PlaceTable(s, ino, b), ino2, bn2) == Addr(s, ino2, bn2)
  {
    hide Word;
    if bn2 >= NDIRECT { ZeroWord(bn2 - NDIRECT); }
  }

  lemma PlaceTableOk(s: State, ino: nat, b: nat)
    requires Inv(s) && s.stale == {} && ino < |s.inodes| && b in s.owner && s.owner[b] == Loose
    requires s.inodes[ino].addrs[NDIRECT] == 0 && b < s.sb.size && s.blocks[b] == ZeroBlock()
    ensures Inv(PlaceTable(s, ino, b)) && SameFiles(s, PlaceTable(s, ino, b))
  {
    hide Inv, Addr, Bits;
    InvShape(s);
    var s' := PlaceTable(s, ino, b);
    TableAt(s, ino, b, ino, 0);
    BitsSame(s, s');
    forall ino2, bn2 | 0 <= ino2 < |s'.inodes| && 0 <= bn2 < MAXFILE ensures LinkOk(s', ino2, bn2)
        && SameBlock(s, s', ino2, bn2) {
      TableAt(s, ino, b, ino2, bn2);
      LinkAt(s, ino2, bn2);
    }
    forall ino2 | 0 <= ino2 < |s'.inodes| ensures TableOk(s', ino2) {
      LinkAt(s, ino2, 0);
    }
    forall c | c in s'.owner ensures BackOk(s', c) {
      if c != b {
        BackAt(s, c);
        if s.owner[c].Data? { TableAt(s, ino, b, s.owner[c].ino, s.owner[c].bn); }
      }
    }
    SameFilesIntro(s, s');
    InvIntro(s');
  }

  lemma EntryAt(s: State, ino: nat, j: nat, b: nat, ino2: nat, bn2: nat)
    requires Inv(s) && s.stale == {} && ino < |s.inodes| && j < NINDIRECT && b < s.sb.size && ino2 < |s.inodes|
             && bn2 < MAXFILE
    requires s.inodes[ino].addrs[NDIRECT] != 0
    ensures Shape(PlaceEntry(s, ino, j, b))
    ensures Addr(PlaceEntry(s, ino, j, b), ino2, bn2) == if ino == ino2 && bn2 == NDIRECT + j then b
            else Addr(s, ino2, bn2)
    ensures Addr(s, ino2, bn2) != 0 ==> Addr(s, ino2, bn2) != s.inodes[ino].addrs[NDIRECT]
  {
    hide Inv, Word, SetWord;
    InvShape(s);
    LinkAt(s, ino, 0);
    LinkAt(s, ino2, bn2);
    if bn2 >= NDIRECT { WordSet(s.blocks[s.inodes[ino].addrs[NDIRECT]], j, b, bn2 - NDIRECT); }
  }

  lemma PlaceEntryOk(s: State, ino: nat, j: nat, b: nat)
    requires Inv(s) && s.stale == {} && ino < |s.inodes| && j < NINDIRECT && b in s.owner && s.owner[b] == Loose
    requires s.inodes[ino].addrs[NDIRECT] != 0 && Addr(s, ino, NDIRECT + j) == 0
    ensures b < s.sb.size && Inv(PlaceEntry(s, ino, j, b)) && SameFiles(s, PlaceEntry(s, ino, j, b))
    ensures Addr(PlaceEntry(s, ino, j, b), ino, NDIRECT + j) == b
  {
    hide Inv, Addr, Bits, SetWord;
    InvShape(s);
    LinkAt(s, ino, 0);
    var s' := PlaceEntry(s, ino, j, b);
    EntryAt(s, ino, j, b, ino, NDIRECT + j);
    BitsSame(s, s');
    forall ino2, bn2 | 0 <= ino2 < |s'.inodes| && 0 <= bn2 < MAXFILE ensures LinkOk(s', ino2, bn2)
        && SameBlock(s, s', ino2, bn2) {
      EntryAt(s, ino, j, b, ino2, bn2);
      LinkAt(s, ino2, bn2);
    }
    forall ino2 | 0 <= ino2 < |s'.inodes| ensures TableOk(s', ino2) {
      LinkAt(s, ino2, 0);
    }
    forall c | c in s'.owner ensures BackOk(s', c) {
      if c != b {
        BackAt(s, c);
        if s.owner[c].Data? { EntryAt(s, ino, j, b, s.owner[c].ino, s.owner[c].bn); }
      }
    }
    SameFilesIntro(s, s');
    InvIntro(s');
  }

  // ----- storing -----

  lemma StoreAt(s: State, ino: nat, bn: nat, d: Block, ino2: nat, bn2: nat)
    requires Inv(s) && s.stale == {} && ino < |s.inodes| && bn < MAXFILE && ino2 < |s.inodes| && bn2 < MAXFILE
    requires Addr(s, ino, bn) != 0
    ensures LinkOk(s, ino, bn) && Shape(Store(s, ino, bn, d))
    ensures Addr(Store(s, ino, bn, d), ino2, bn2) == Addr(s, ino2, bn2)
    ensures ino != ino2 || bn != bn2 ==> SameBlock(s, Store(s, ino, bn, d), ino2, bn2)
  {
    hide Inv, Addr;
    InvShape(s);
    LinkAt(s, ino, bn);
    LinkAt(s, ino2, bn2);
    AddrSame(s, Store(s, ino, bn, d), ino2, bn2);
  }

  /** Writing one block of a file changes that block only. */
  lemma StoreOk(s: State, ino: nat, bn: nat, d: Block)
    requires Inv(s) && s.stale == {} && ino < |s.inodes| && bn < MAXFILE && Addr(s, ino, bn) != 0
    ensures LinkOk(s, ino, bn) && Inv(Store(s, ino, bn, d))
    ensures forall c :: 0 <= c < s.sb.nmeta ==> Store(s, ino, bn, d).blocks[c] == s.blocks[c]
  {
    hide Inv, Addr, Bits;
    InvShape(s);
    LinkAt(s, ino, bn);
    var s' := Store(s, ino, bn, d);
    BitsSame(s, s');
    forall ino2, bn2 | 0 <= ino2 < |s'.inodes| && 0 <= bn2 < MAXFILE ensures LinkOk(s', ino2, bn2) {
      StoreAt(s, ino, bn, d, ino2, bn2);
      LinkAt(s, ino2, bn2);
    }
    forall ino2 | 0 <= ino2 < |s'.inodes| ensures TableOk(s', ino2) {
      LinkAt(s, ino2, 0);
    }
    forall c | c in s'.owner ensures BackOk(s', c) {
      BackAt(s, c);
      if s.owner[c].Data? { StoreAt(s, ino, bn, d, s.owner[c].ino, s.owner[c].bn); }
    }
    InvIntro(s');
  }

  /** A step that keeps blocks in use and all block numbers keeps the invariant. */
  lemma KeepsLinks(s: State, s': State)
    requires Inv(s) && Shape(s') && s'.sb == s.sb && s'.owner == s.owner && s'.stale == s.stale
             && |s'.inodes| == |s.inodes|
    requires forall i :: 0 <= i < |s.inodes| ==> s'.inodes[i].addrs == s.inodes[i].addrs
    requires forall c :: s.sb.bmapstart <= c < s.sb.size ==> s'.blocks[c] == s.blocks[c]
    ensures Inv(s')
    ensures forall ino, bn {:trigger Addr(s', ino, bn)} :: 0 <= ino < |s.inodes| && 0 <= bn < MAXFILE ==>
              Addr(s', ino, bn) == Addr(s, ino, bn)
  {
    hide Inv, Addr, Bits;
    InvShape(s);
    BitsSame(s, s');
    forall ino, bn {:trigger Addr(s', ino, bn)} | 0 <= ino < |s'.inodes| && 0 <= bn < MAXFILE
      ensures LinkOk(s', ino, bn) && Addr(s', ino, bn) == Addr(s, ino, bn) {
      LinkAt(s, ino, bn);
      AddrSame(s, s', ino, bn);
    }
    forall ino | 0 <= ino < |s'.inodes| ensures TableOk(s', ino) {
      LinkAt(s, ino, 0);
    }
    forall c | c in s'.owner ensures BackOk(s', c) {
      BackAt(s, c);
    }
    InvIntro(s');
  }

  lemma ResizeOk(s: State, ino: nat, size: nat)
    requires Inv(s) && ino < |s.inodes| && size <= MAXBYTES
    ensures Inv(Resize(s, ino, size))
    ensures forall ino2, bn {:trigger Addr(Resize(s, ino, size), ino2, bn)} ::
              0 <= ino2 < |s.inodes| && 0 <= bn < MAXFILE ==> Addr(Resize(s, ino, size), ino2, bn) == Addr(s, ino2, bn)
  {
    hide Inv, Addr, Bits;
    InvShape(s);
    KeepsLinks(s, Resize(s, ino, size));
  }

  /** iupdate() stores the inode and nothing else that ilock() or a file would read. */
  lemma SaveOk(s: State, ino: nat)
    requires Inv(s) && s.stale == {} && ino < |s.inodes|
    ensures Inv(Save(s, ino)) && SameFiles(s, Save(s, ino))
    ensures forall i :: 0 <= i < |s.inodes| ==>
              OnDisk(Save(s, ino), i) == if i == ino then s.inodes[ino] else OnDisk(s, i)
  {
    hide Inv, Addr, Bits, Put, Get;
    InvShape(s);
    var s' := Save(s, ino);
    KeepsLinks(s, s');
    forall ino2, bn | 0 <= ino2 < |s.inodes| && 0 <= bn < MAXFILE ensures SameBlock(s, s', ino2, bn) {
      LinkAt(s, ino2, bn);
    }
    SameFilesIntro(s, s');
    forall i | 0 <= i < |s.inodes| ensures OnDisk(s', i) == if i == ino then s.inodes[ino] else OnDisk(s, i) {
      GetPut(s.blocks[InodeBlock(s.sb, ino)], ino % IPB, s.inodes[ino], i % IPB);
    }
  }

  // ----- freeing -----

  lemma ReleaseShape(s: State, b: nat)
    requires Inv(s) && b in s.owner
    ensures b < s.sb.size && Shape(Release(s, b))
    ensures forall c :: s.sb.nmeta <= c < s.sb.size ==> Release(s, b).blocks[c] == s.blocks[c]
    ensures forall c :: 0 <= c < s.sb.bmapstart ==> Release(s, b).blocks[c] == s.blocks[c]
  {
    hide Bits, Links;
    BitmapBlock(s.sb, b);
  }

  lemma ReleaseBits(s: State, b: nat)
    requires Inv(s) && b in s.owner
    ensures b < s.sb.size && Shape(Release(s, b)) && Bits(Release(s, b))
  {
    hide Links, Unmark, Marked;
    ReleaseShape(s, b);
    var s' := Release(s, b);
    forall c | 0 <= c < s'.sb.size ensures BitOk(s', c) {
      BitAt(s, c);
      BitmapBlock(s.sb, b);
      BitmapBlock(s.sb, c);
      UnmarkBits(s.blocks, s.sb.bmapstart, b, c);
    }
  }

  lemma ReleaseAt(s: State, b: nat, ino: nat, bn: nat)
    requires Inv(s) && b in s.owner && ino < |s.inodes| && bn < MAXFILE
    ensures b < s.sb.size && Shape(Release(s, b)) && Addr(Release(s, b), ino, bn) == Addr(s, ino, bn)
  {
    hide Inv, Unmark, Addr;
    InvShape(s);
    ReleaseShape(s, b);
    LinkAt(s, ino, bn);
    AddrSame(s, Release(s, b), ino, bn);
  }

  /** bfree() of an owned block: its slot alone goes stale. */
  lemma ReleaseOk(s: State, b: nat)
    requires Inv(s) && b in s.owner && (s.owner[b].Data? || s.owner[b].Table?)
    ensures b < s.sb.size && Inv(Release(s, b))
  {
    hide Inv, Unmark, Addr, Bits;
    InvShape(s);
    ReleaseShape(s, b);
    ReleaseBits(s, b);
    var s' := Release(s, b);
    BackAt(s, b);
    forall ino, bn | 0 <= ino < |s'.inodes| && 0 <= bn < MAXFILE ensures LinkOk(s', ino, bn) {
      ReleaseAt(s, b, ino, bn);
      LinkAt(s, ino, bn);
    }
    forall ino | 0 <= ino < |s'.inodes| ensures TableOk(s', ino) {
      LinkAt(s, ino, 0);
    }
    forall c | c in s'.owner ensures BackOk(s', c) {
      BackAt(s, c);
      if s.owner[c].Data? { ReleaseAt(s, b, s.owner[c].ino, s.owner[c].bn); }
    }
    InvIntro(s');
  }

  lemma ClearAt(s: State, ino: nat, bn: nat, ino2: nat, bn2: nat)
    requires Shape(s) && ino < |s.inodes| && bn < NDIRECT && ino2 < |s.inodes| && bn2 < MAXFILE
    ensures Shape(ClearDirect(s, ino, bn))
    ensures Addr(ClearDirect(s, ino, bn), ino2, bn2) == if ino == ino2 && bn == bn2 then 0 else Addr(s, ino2, bn2)
  {
    hide Word;
  }

  lemma ClearDirectOk(s: State, ino: nat, bn: nat)
    requires Inv(s) && ino < |s.inodes| && bn < NDIRECT && Data(ino, bn) in s.stale
    ensures Inv(ClearDirect(s, ino, bn))
  {
    hide Inv, Addr, Bits;
    InvShape(s);
    var s' := ClearDirect(s, ino, bn);
    ClearAt(s, ino, bn, ino, bn);
    BitsSame(s, s');
    forall ino2, bn2 | 0 <= ino2 < |s'.inodes| && 0 <= bn2 < MAXFILE ensures LinkOk(s', ino2, bn2) {
      ClearAt(s, ino, bn, ino2, bn2);
      LinkAt(s, ino2, bn2);
    }
    forall ino2 | 0 <= ino2 < |s'.inodes| ensures TableOk(s', ino2) {
      LinkAt(s, ino2, 0);
    }
    forall c | c in s'.owner ensures BackOk(s', c) {
      BackAt(s, c);
      if s.owner[c].Data? { ClearAt(s, ino, bn, s.owner[c].ino, s.owner[c].bn); }
    }
    InvIntro(s');
  }

  lemma ClearTableAt(s: State, ino: nat, ino2: nat, bn2: nat)
    requires Shape(s) && ino < |s.inodes| && ino2 < |s.inodes| && bn2 < MAXFILE
    ensures Shape(ClearTable(s, ino))
    ensures Addr(ClearTable(s, ino), ino2, bn2) == if ino == ino2 && bn2 >= NDIRECT then 0 else Addr(s, ino2, bn2)
  {
    hide Word;
  }

  lemma ClearTableOk(s: State, ino: nat)
    requires Inv(s) && ino < |s.inodes| && Table(ino) in s.stale
    requires forall bn {:trigger Addr(s, ino, bn)} :: NDIRECT <= bn < MAXFILE && Addr(s, ino, bn) != 0 ==>
               Data(ino, bn) in s.stale
    ensures Inv(ClearTable(s, ino))
  {
    hide Inv, Addr, Bits;
    InvShape(s);
    var s' := ClearTable(s, ino);
    ClearTableAt(s, ino, ino, 0);
    BitsSame(s, s');
    forall ino2, bn2 | 0 <= ino2 < |s'.inodes| && 0 <= bn2 < MAXFILE ensures LinkOk(s', ino2, bn2) {
      ClearTableAt(s, ino, ino2, bn2);
      LinkAt(s, ino2, bn2);
    }
    forall ino2 | 0 <= ino2 < |s'.inodes| ensures TableOk(s', ino2) {
      LinkAt(s, ino2, 0);
    }
    forall c | c in s'.owner ensures BackOk(s', c) {
      BackAt(s, c);
      if s.owner[c].Data? { ClearTableAt(s, ino, s.owner[c].ino, s.owner[c].bn);
          LinkAt(s, s.owner[c].ino, s.owner[c].bn); }
    }
    InvIntro(s');
  }

  ghost function MetaBelow(n: nat): (m: map<nat, Slot>)
    ensures (forall b :: b in m <==> 0 <= b < n) && (forall b :: b in m ==> m[b] == Meta)
  {
    if n == 0 then map[] else MetaBelow(n - 1)[n - 1 := Meta]
  }

  /** A freshly made file system: only metadata is marked and no inode has blocks. */
  lemma FreshOk(s: State)
    requires Shape(s) && s.stale == {} && (forall b :: b in s.owner <==> 0 <= b < s.sb.nmeta)
             && (forall b :: b in s.owner ==> s.owner[b] == Meta)
    requires forall b :: 0 <= b < s.sb.size ==> (Marked(s.blocks, s.sb.bmapstart, b) <==> b < s.sb.nmeta)
    requires forall i :: 0 <= i < |s.inodes| ==> s.inodes[i].size == 0 && s.inodes[i].addrs == seq(NDIRECT + 1, _ => 0)
    ensures Inv(s) && Clean(s) && Files(s)
  {
    forall b | 0 <= b < s.sb.size ensures BitOk(s, b) { }
    forall ino, bn | 0 <= ino < |s.inodes| && 0 <= bn < MAXFILE ensures LinkOk(s, ino, bn) { }
    forall ino | 0 <= ino < |s.inodes| ensures FileOk(s, ino) { }
  }
}
