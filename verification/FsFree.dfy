/** itrunc() step by step: which blocks are free after each round. */
module FsFree {
  import opened Common
  import opened Sets
  import opened Blocks
  import opened Bitmap
  import opened Dinode
  import opened FsSpec
  import opened FsSteps

  /** Slots of inode `ino` that itrunc() has dealt with: blocks below `bn`, and the table if `tab`. */
  ghost predicate Gone(x: Slot, ino: nat, bn: nat, tab: bool) {
    (x.Data? && x.ino == ino && x.bn < bn) || (tab && x == Table(ino))
  }

  /** Exactly the blocks of the slots dealt with were freed; no other file or data block changed. */
  ghost predicate Freed(s0: State, s: State, ino: nat, bn: nat, tab: bool) {
    && Inv(s0) && Clean(s0) && Inv(s) && s.sb == s0.sb && ino < |s.inodes| == |s0.inodes|
    && (forall i :: 0 <= i < |s0.inodes| && i != ino ==> s.inodes[i] == s0.inodes[i])
    && s.inodes[ino] == s0.inodes[ino].(addrs := s.inodes[ino].addrs)
    && (forall c :: s0.sb.nmeta <= c < s0.sb.size ==> s.blocks[c] == s0.blocks[c])
    && (forall c :: 0 <= c < s0.sb.bmapstart ==> s.blocks[c] == s0.blocks[c])
    && (forall b :: b in s.owner <==> b in s0.owner && !Gone(s0.owner[b], ino, bn, tab))
    && (forall b :: b in s.owner ==> s.owner[b] == s0.owner[b])
  }

  /** Table entries freed but still in the table. */
  ghost predicate StaleTo(s: State, ino: nat, bn: nat)
    requires Shape(s) && ino < |s.inodes|
  {
    && (forall x :: x in s.stale ==> x.Data? && x.ino == ino && NDIRECT <= x.bn < bn)
    && (forall k {:trigger Addr(s, ino, k)} :: NDIRECT <= k < bn && k < MAXFILE && Addr(s, ino, k) != 0 ==>
        Data(ino, k) in s.stale)
  }

  lemma FreedParts(s0: State, s: State, ino: nat, bn: nat, tab: bool)
    requires Freed(s0, s, ino, bn, tab)
    ensures Inv(s) && Shape(s) && s.sb == s0.sb && ino < |s.inodes| == |s0.inodes|
  {
  }

  lemma FreedStart(s: State, ino: nat)
    requires Inv(s) && Clean(s) && ino < |s.inodes|
    ensures Freed(s, s, ino, 0, false)
  {
  }

  /** The only block with slot Data(ino, bn) is the one the inode names. */
  lemma OnlyOwner(s: State, b: nat, x: Slot)
    requires Inv(s) && b in s.owner && s.owner[b] == x && (x.Data? || x.Table?)
    ensures x.Data? ==> x.ino < |s.inodes| && x.bn < MAXFILE && b == Addr(s, x.ino, x.bn) != 0
    ensures x.Table? ==> x.ino < |s.inodes| && b == s.inodes[x.ino].addrs[NDIRECT] != 0
  {
    hide Addr, Bits;
    BackAt(s, b);
  }

  /** A missing block: nothing to free. */
  lemma FreedSkip(s0: State, s: State, ino: nat, bn: nat)
    requires Freed(s0, s, ino, bn, false) && bn < MAXFILE && Addr(s, ino, bn) == 0
    ensures Freed(s0, s, ino, bn + 1, false)
  {
    hide Inv, Addr;
    InvShape(s);
    forall b | b in s.owner ensures s.owner[b] != Data(ino, bn) {
      if s.owner[b] == Data(ino, bn) { OnlyOwner(s, b, Data(ino, bn)); }
    }
  }

  /** bfree() of block `bn` of the file. */
  lemma FreedOne(s0: State, s: State, ino: nat, bn: nat, b: nat)
    requires Freed(s0, s, ino, bn, false) && bn < MAXFILE && b in s.owner && s.owner[b] == Data(ino, bn)
             && Inv(Release(s, b))
    ensures Freed(s0, Release(s, b), ino, bn + 1, false)
  {
    hide Inv, Addr, Unmark;
    InvShape(s);
    ReleaseShape(s, b);
    forall c | c in s.owner && c != b ensures s.owner[c] != Data(ino, bn) {
      OnlyOwner(s, b, Data(ino, bn));
      if s.owner[c] == Data(ino, bn) { OnlyOwner(s, c, Data(ino, bn)); }
    }
  }

  lemma FreedTable(s0: State, s: State, ino: nat, b: nat)
    requires Freed(s0, s, ino, MAXFILE, false) && b in s.owner && s.owner[b] == Table(ino) && Inv(Release(s, b))
    ensures Freed(s0, Release(s, b), ino, MAXFILE, true)
  {
    hide Inv, Addr, Unmark;
    InvShape(s);
    ReleaseShape(s, b);
    forall c | c in s.owner && c != b ensures s.owner[c] != Table(ino) {
      OnlyOwner(s, b, Table(ino));
      if s.owner[c] == Table(ino) { OnlyOwner(s, c, Table(ino)); }
    }
  }

  /** One round of the first loop: bfree() and addrs[bn] = 0. */
  lemma DirectFreed(s0: State, s: State, ino: nat, bn: nat, b: nat)
    requires Freed(s0, s, ino, bn, false) && s.stale == {} && bn < NDIRECT && b == Addr(s, ino, bn) != 0
    ensures b in s.owner && s.owner[b] == Data(ino, bn) && Inv(Release(s, b)) && ino < |Release(s, b).inodes|
    ensures var s' := ClearDirect(Release(s, b), ino, bn); Freed(s0, s', ino, bn + 1, false) && s'.stale == {}
  {
    hide Inv, Addr, Unmark;
    FreedParts(s0, s, ino, bn, false);
    InvShape(s);
    LinkAt(s, ino, bn);
    ReleaseOk(s, b);
    var s1 := Release(s, b);
    FreedOne(s0, s, ino, bn, b);
    ClearDirectOk(s1, ino, bn);
  }

  /** One round of the second loop. */
  lemma EntryFreed(s0: State, s: State, ino: nat, bn: nat, b: nat)
    requires Freed(s0, s, ino, bn, false) && Shape(s) && ino < |s.inodes| && StaleTo(s, ino, bn)
             && NDIRECT <= bn < MAXFILE && b == Addr(s, ino, bn) != 0
    ensures b in s.owner && s.owner[b] == Data(ino, bn) && Inv(Release(s, b)) && ino < |Release(s, b).inodes|
    ensures Freed(s0, Release(s, b), ino, bn + 1, false) && StaleTo(Release(s, b), ino, bn + 1)
  {
    hide Inv, Addr, Unmark, Freed;
    FreedParts(s0, s, ino, bn, false);
    InvShape(s);
    LinkAt(s, ino, bn);
    ReleaseOk(s, b);
    FreedOne(s0, s, ino, bn, b);
    forall k {:trigger Addr(Release(s, b), ino, k)} | NDIRECT <= k < bn + 1 && k < MAXFILE
        && Addr(Release(s, b), ino, k) != 0 ensures Data(ino, k) in Release(s, b).stale {
      ReleaseAt(s, b, ino, k);
    }
  }

  /** After the second loop: bfree() of the table and addrs[NDIRECT] = 0. */
  lemma TableFreed(s0: State, s: State, ino: nat, t: nat)
    requires Freed(s0, s, ino, MAXFILE, false) && Shape(s) && ino < |s.inodes| && StaleTo(s, ino, MAXFILE)
             && t == s.inodes[ino].addrs[NDIRECT] != 0
    ensures t in s.owner && s.owner[t] == Table(ino) && Inv(Release(s, t)) && ino < |Release(s, t).inodes|
    ensures var s' := ClearTable(Release(s, t), ino); Freed(s0, s', ino, MAXFILE, true) && s'.stale == {}
  {
    hide Inv, Addr, Unmark;
    FreedParts(s0, s, ino, MAXFILE, false);
    InvShape(s);
    LinkAt(s, ino, 0);
    ReleaseOk(s, t);
    var s1 := Release(s, t);
    FreedTable(s0, s, ino, t);
    forall k {:trigger Addr(s1, ino, k)} | NDIRECT <= k < MAXFILE && Addr(s1, ino, k) != 0
      ensures Data(ino, k) in s1.stale {
      ReleaseAt(s, t, ino, k);
    }
    ClearTableOk(s1, ino);
  }

  /** Without a table there is nothing beyond the direct blocks. */
  lemma NoTableFreed(s0: State, s: State, ino: nat)
    requires Freed(s0, s, ino, NDIRECT, false) && Shape(s) && ino < |s.inodes| && s.inodes[ino].addrs[NDIRECT] == 0
    ensures Freed(s0, s, ino, MAXFILE, true)
  {
    hide Inv, Bits;
    InvShape(s);
    forall b | b in s.owner ensures !Gone(s.owner[b], ino, MAXFILE, true) {
      var x := s.owner[b];
      if Gone(x, ino, MAXFILE, true) { OnlyOwner(s, b, x); }
    }
  }

  /** Does slot `x` belong to inode `ino`? */
  ghost predicate Of(x: Slot, ino: nat) {
    (x.Data? || x.Table?) && x.ino == ino
  }

  /** Nothing of the file is left. */
  lemma AllGone(s0: State, s: State, ino: nat)
    requires Freed(s0, s, ino, MAXFILE, true) && s.stale == {}
    ensures Clean(s) && Shape(s) && ino < |s.inodes|
    ensures forall b :: b in s.owner <==> b in s0.owner && !Of(s0.owner[b], ino)
    ensures forall k :: 0 <= k <= NDIRECT ==> s.inodes[ino].addrs[k] == 0
  {
    hide Inv, Bits;
    InvShape(s);
    forall b | b in s0.owner && Of(s0.owner[b], ino) ensures Gone(s0.owner[b], ino, MAXFILE, true) {
      OnlyOwner(s0, b, s0.owner[b]);
    }
    forall k | 0 <= k <= NDIRECT ensures s.inodes[ino].addrs[k] == 0 {
      LinkAt(s, ino, if k < NDIRECT then k else 0);
      assert k < NDIRECT ==> Addr(s, ino, k) == s.inodes[ino].addrs[k];
    }
  }

  /** Other files keep their blocks and contents. */
  lemma FreedOther(s0: State, s: State, ino: nat, i: nat)
    requires Freed(s0, s, ino, MAXFILE, true) && i < |s0.inodes| && i != ino
    ensures Shape(s0) && Shape(s) && SameFile(s0, s, i)
  {
    hide Inv, Addr, Bits;
    InvShape(s0);
    InvShape(s);
    forall bn | 0 <= bn < MAXFILE ensures SameBlock(s0, s, i, bn) {
      LinkAt(s0, i, bn);
      AddrSame(s0, s, i, bn);
    }
  }

  lemma ClearFields(s: State, ino: nat, bn: nat)
    requires Shape(s) && ino < |s.inodes| && bn < NDIRECT
    ensures ClearDirect(s, ino, bn) == s.(inodes := SetAddr(s.inodes, ino, bn, 0), stale := s.stale - {Data(ino, bn)})
  {
  }

  lemma ClearTableFields(s: State, ino: nat)
    requires Shape(s) && ino < |s.inodes|
    ensures ClearTable(s, ino) == s.(inodes := SetAddr(s.inodes, ino, NDIRECT, 0),
                                     stale := set x | x in s.stale && x != Table(ino)
                                         && !(x.Data? && x.ino == ino && x.bn >= NDIRECT))
  {
  }

  lemma TableStays(s: State, ino: nat, b: nat)
    requires Inv(s) && ino < |s.inodes| && s.inodes[ino].addrs[NDIRECT] != 0 && b in s.owner
    ensures b < s.sb.size && Release(s, b).inodes == s.inodes
    ensures var t := s.inodes[ino].addrs[NDIRECT];
            t < s.sb.size && |Release(s, b).blocks| == |s.blocks| == s.sb.size && Release(s, b).blocks[t] == s.blocks[t]
  {
    hide Inv, Unmark;
    InvShape(s);
    LinkAt(s, ino, 0);
    ReleaseShape(s, b);
  }

  lemma FreedInodes(s0: State, s: State, ino: nat)
    requires Freed(s0, s, ino, MAXFILE, true)
    ensures forall i :: 0 <= i < |s0.inodes| && i != ino ==> s.inodes[i] == s0.inodes[i]
    ensures s.inodes[ino] == s0.inodes[ino].(addrs := s.inodes[ino].addrs)
    ensures forall b :: b in s.owner ==> b in s0.owner && s.owner[b] == s0.owner[b]
  {
  }

  // ----- what itrunc() logs -----

  /** The bitmap blocks that hold the bits of `xs` */
  ghost function MapBlocks(sb: Super, xs: set<nat>): set<nat> {
    set b | b in xs :: sb.bmapstart + b / BPB
  }

  /** The blocks that left the file system between two states */
  ghost function Left(o: map<nat, Slot>, o': map<nat, Slot>): set<nat> { o.Keys - o'.Keys }

  lemma LeftNone(sb: Super, o: map<nat, Slot>, logged: set<nat>)
    ensures logged == logged + MapBlocks(sb, Left(o, o))
  {
    assert Left(o, o) == {};
  }

  lemma LeftMore(sb: Super, o: map<nat, Slot>, o1: map<nat, Slot>, o2: map<nat, Slot>, a: set<nat>, b: set<nat>,
                 c: set<nat>)
    requires o2.Keys <= o1.Keys <= o.Keys && b == a + MapBlocks(sb, Left(o, o1)) && c == b + MapBlocks(sb, Left(o1, o2))
    ensures c == a + MapBlocks(sb, Left(o, o2))
  {
    assert Left(o, o2) == Left(o, o1) + Left(o1, o2);
  }

  /** bfree() of one more block */
  lemma LeftOne(s: State, s': State, b: nat, o: map<nat, Slot>, start: set<nat>, before: set<nat>, after: set<nat>)
    requires Shape(s) && b < s.sb.size && b in s.owner && s' == Release(s, b) && s.owner.Keys <= o.Keys
    requires before == start + MapBlocks(s.sb, Left(o, s.owner)) && after == before + {s.sb.bmapstart + b / BPB}
    ensures s'.owner.Keys <= o.Keys && after == start + MapBlocks(s.sb, Left(o, s'.owner))
  {
    hide Shape;
    assert s'.owner == s.owner - {b};
    assert Left(s.owner, s'.owner) == {b};
    LeftMore(s.sb, o, s.owner, s'.owner, start, before, after);
  }

  /** There are no more bitmap blocks than it takes for the disk, so on a disk of up to
      (MAXOPBLOCKS - 1) * BPB blocks they and the inode block stay within one log operation. */
  lemma MapBlocksFew(sb: Super, xs: set<nat>)
    requires Layout(sb) && forall b :: b in xs ==> b < sb.size
    ensures |MapBlocks(sb, xs)| <= (sb.size + BPB - 1) / BPB
    ensures sb.size <= (MAXOPBLOCKS - 1) * BPB ==> |MapBlocks(sb, xs)| + 1 <= MAXOPBLOCKS
  {
    SubsetSize(MapBlocks(sb, xs), Range(sb.bmapstart, (sb.size + BPB - 1) / BPB));
  }

  ghost function Range(lo: nat, n: nat): (r: set<nat>)
    ensures |r| == n && forall b :: b in r <==> lo <= b < lo + n
  {
    if n == 0 then {} else Range(lo, n - 1) + {lo + n - 1}
  }

  /** And the bound is met: blocks under n different bitmap blocks make itrunc() log all of these. */
  lemma MapBlocksMany(sb: Super, xs: set<nat>, bs: seq<nat>)
    requires forall k :: 0 <= k < |bs| ==> bs[k] in xs && bs[k] / BPB == k
    ensures |MapBlocks(sb, xs)| >= |bs|
  {
    forall b | b in Range(sb.bmapstart, |bs|) ensures b in MapBlocks(sb, xs) {
      assert bs[b - sb.bmapstart] in xs;
    }
    SubsetSize(Range(sb.bmapstart, |bs|), MapBlocks(sb, xs));
  }
}
