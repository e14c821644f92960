/** kernel/fs.c in place: block allocation, block mapping, truncation, reading and writing. */
module Fs {
  import opened Common
  import opened Sets
  import opened Blocks
  import opened Bitmap
  import opened Dinode
  import opened FsSpec
  import opened FsSteps
  import opened FsMap
  import opened FsIo
  import opened FsFree
  import opened FsRoom
  import opened FsLoop
  import opened FsChain

  class Disk {
    const sb: Super
    var blocks: seq<Block>
    var inodes: seq<Inode>
    ghost var owner: map<nat, Slot>
    ghost var stale: set<Slot>
    ghost var logged: set<nat>             // blocks given to log_write() by the current operation
    ghost var peak: nat                    // largest |logged| at the start of any of those calls
    ghost var unlogged: set<nat>           // blocks changed in the cache since their last log_write()
    ghost var base: seq<Block>             // the blocks at begin_op()

    ghost function S(): State
      reads this
    {
      State(sb, blocks, inodes, owner, stale)
    }

    ghost predicate Valid()
      reads this
    {
      Inv(S()) && Clean(S()) && Files(S())
    }

    /** Every block changed since begin_op() is logged or awaits it. */
    ghost predicate Tracked()
      reads this
    {
      Tracks(sb, base, blocks, logged + unlogged)
    }

    /** log_write(bp) */
    ghost method LogWrite(b: nat)
      modifies this`logged, this`peak, this`unlogged
      ensures logged == old(logged) + {b} && unlogged == old(unlogged) - {b} && peak == Max(old(peak), |old(logged)|)
    {
      peak := Max(peak, |logged|);
      logged := logged + {b};
      unlogged := unlogged - {b};
    }

    // ----- balloc() and bfree() -----

    /** The inner loop of balloc(): the first clear bit of one bitmap block. */
    method FindClear(b: nat) returns (bi: nat)
      requires Inv(S()) && b % BPB == 0 && b < sb.size
      ensures bi <= BPB
      ensures forall c :: b <= c < b + bi ==> c in owner
      ensures bi < BPB && b + bi < sb.size ==> b + bi !in owner
    {
      hide Inv, BitOf;
      InvShape(S());
      BitmapBlock(sb, b);
      var bp := blocks[sb.bmapstart + b / BPB];
      bi := 0;
      while bi < BPB && b + bi < sb.size
        invariant 0 <= bi <= BPB && forall c :: b <= c < b + bi ==> c in owner
      {
        BitIndex(b, bi);
        BitAt(S(), b + bi);
        if !BitOf(bp[bi / 8], bi % 8) {
          return;
        }
        bi := bi + 1;
      }
    }

    /** Marks the clear bit `k` of byte `i` in bitmap block `bb`, logs that block, and zeroes block `x`. */
    method Claim(x: nat, bb: nat, i: nat, k: nat)
      requires Inv(S()) && stale == {} && x < sb.size && x !in owner
      requires bb == sb.bmapstart + x / BPB && i == x % BPB / 8 && k == x % 8
      modifies this`blocks, this`owner, this`logged, this`peak, this`unlogged
      ensures S() == Alloc(old(S()), x) && Inv(S()) && SameFiles(old(S()), S())
      ensures logged == old(logged) + {bb, x} && peak <= Max(old(peak), |logged|)
      ensures unlogged <= old(unlogged)
      ensures old(Tracked()) ==> Tracked()
    {
      hide Inv, BitOf, SameFiles, Raised, Alloc, Max, Tracks;
      InvShape(S());
      BitmapBlock(sb, x);
      AllocOk(S(), x);
      AllocFields(S(), x);
      PeakTwo(peak, logged, bb, x);
      blocks := blocks[bb := blocks[bb][i := Raised(blocks[bb][i], k)]];
      ghost var blocks1 := blocks;
      LogWrite(bb);
      blocks := blocks[x := ZeroBlock()];
      LogWrite(x);
      TracksTwo(sb, base, old(blocks), old(logged), old(unlogged), bb, blocks1[bb], x, ZeroBlock(), logged, unlogged);
      owner := owner[x := Loose];
    }

    /** balloc(): the lowest free block, or 0 exactly when there is none. */
    method Balloc() returns (r: nat)
      requires Inv(S()) && stale == {}
      modifies this`blocks, this`owner, this`logged, this`peak, this`unlogged
      ensures r == 0 <==> UsedBelow(old(owner), sb.size)
      ensures r == 0 ==> S() == old(S()) && logged == old(logged) && peak == old(peak) && unlogged == old(unlogged)
      ensures r != 0 ==> r < sb.size && r !in old(owner) && UsedBelow(old(owner), r) && S() == Alloc(old(S()), r)
      ensures Inv(S()) && SameFiles(old(S()), S())
      ensures r != 0 ==> logged == old(logged) + {sb.bmapstart + r / BPB, r} && peak <= Max(old(peak), |logged|)
      ensures unlogged <= old(unlogged)
      ensures old(Tracked()) ==> Tracked()
    {
      hide Inv, SameFiles, Alloc, Tracks;
      InvShape(S());
      var b := 0;
      while b < sb.size
        invariant b % BPB == 0 && UsedBelow(owner, if b < sb.size then b else sb.size)
        invariant S() == old(S()) && logged == old(logged) && peak == old(peak) && unlogged == old(unlogged)
      {
        var bi := FindClear(b);
        if bi < BPB && b + bi < sb.size {
          BitIndex(b, bi);
          assert 0 in owner;
          Claim(b + bi, sb.bmapstart + b / BPB, bi / 8, bi % 8);
          return b + bi;
        }
        b := b + BPB;
      }
      SameFilesRefl(S());
      return 0;
    }

    /** bfree(): the guard against freeing a free block is met by every owned block. */
    method Bfree(b: nat)
      requires Inv(S()) && b in owner && (owner[b].Data? || owner[b].Table?)
      modifies this`blocks, this`owner, this`stale, this`logged, this`peak, this`unlogged
      ensures b < sb.size && S() == Release(old(S()), b) && Inv(S())
      ensures logged == old(logged) + {sb.bmapstart + b / BPB} && unlogged <= old(unlogged)
      ensures old(Tracked()) ==> Tracked()
    {
      hide Inv, BitOf, Lowered, Release, Tracks;
      InvShape(S());
      BitmapBlock(sb, b);
      BitAt(S(), b);
      ReleaseOk(S(), b);
      ReleaseFields(S(), b);
      var bp := blocks[sb.bmapstart + b / BPB];
      var bi := b % BPB;
      assert BitOf(bp[bi / 8], b % 8);
      blocks := blocks[sb.bmapstart + b / BPB := bp[bi / 8 := Lowered(bp[bi / 8], bi % 8)]];
      LogWrite(sb.bmapstart + b / BPB);
      TracksOne(sb, base, old(blocks), old(logged), old(unlogged), sb.bmapstart + b / BPB,
                blocks[sb.bmapstart + b / BPB], logged, unlogged);
      owner, stale := owner - {b}, stale + {owner[b]};
    }

    /** iupdate() */
    method Iupdate(ino: nat)
      requires Inv(S()) && stale == {} && ino < |inodes|
      modifies this`blocks, this`logged, this`peak, this`unlogged
      ensures S() == Save(old(S()), ino) && Inv(S()) && SameFiles(old(S()), S())
      ensures forall i :: 0 <= i < |inodes| ==> OnDisk(S(), i) == if i == ino then inodes[ino] else old(OnDisk(S(), i))
      ensures logged == old(logged) + {InodeBlock(sb, ino)} && peak == Max(old(peak), |old(logged)|)
              && unlogged == old(unlogged) - {InodeBlock(sb, ino)}
      ensures old(Tracked()) ==> Tracked()
    {
      hide Inv, SameFiles, Put, Get, Tracks;
      InvShape(S());
      SaveOk(S(), ino);
      var ib := InodeBlock(sb, ino);
      blocks := blocks[ib := Put(blocks[ib], ino % IPB, inodes[ino])];
      LogWrite(ib);
      TracksOne(sb, base, old(blocks), old(logged), old(unlogged), ib, blocks[ib], logged, unlogged);
    }

    // ----- bmap() -----

    /** ip->addrs[bn], allocated if necessary */
    method BmapDirect(ino: nat, bn: nat) returns (r: nat, ghost marks: set<nat>)
      requires Valid() && ino < |inodes| && bn < NDIRECT
      modifies this`blocks, this`inodes, this`owner, this`logged, this`peak, this`unlogged
      ensures Valid() && Mapped(old(S()), S(), ino, bn, r)
              && Effort(old(S()), S(), ino, bn, r, old(logged), logged, marks)
      ensures peak <= Max(old(peak), |logged|) && unlogged <= old(unlogged)
      ensures old(Addr(S(), ino, bn)) != 0 ==> logged == old(logged) && peak == old(peak) && unlogged == old(unlogged)
      ensures Gains(old(S()), S(), ino, bn, bn + 1)
      ensures old(Tracked()) ==> Tracked()
    {
      hide Inv, SameFiles, Alloc, Files, Mapped, Effort, Addr, Tracks, Gains;
      InvShape(S());
      GainsNone(S(), ino, bn, bn + 1);
      AddrDirect(S(), ino, bn);
      marks := {};
      r := inodes[ino].addrs[bn];
      if r == 0 {
        r := Balloc();
        if r == 0 {
          MappedNot(S(), ino, bn, logged);
          return;
        }
        DirectGrew(old(S()), ino, bn, r);
        marks := {sb.bmapstart + r / BPB};
        inodes := SetAddr(inodes, ino, bn, r);
        owner := owner[r := Data(ino, bn)];
        PlacedDirect(old(S()), ino, bn, r, S(), old(logged), logged);
        DirectGains(old(S()), S(), ino, bn, r);
        FilesKept(old(S()), S());
      } else {
        MappedNot(S(), ino, bn, logged);
      }
    }

    /** ip->addrs[NDIRECT], allocated if necessary */
    method LoadTable(ino: nat, ghost bn: nat) returns (t: nat, ghost marks: set<nat>)
      requires Valid() && ino < |inodes| && NDIRECT <= bn < MAXFILE
      modifies this`blocks, this`inodes, this`owner, this`logged, this`peak, this`unlogged
      ensures Valid() && Tabled(old(S()), S(), ino, t, old(logged), logged, marks)
      ensures peak <= Max(old(peak), |logged|) && unlogged <= old(unlogged)
      ensures S() == old(S()) ==> peak == old(peak) && unlogged == old(unlogged)
      ensures Gains(old(S()), S(), ino, bn, bn + 1)
      ensures old(Tracked()) ==> Tracked()
    {
      hide Inv, SameFiles, Alloc, Files, Tabled, Addr, Tracks, Gains;
      InvShape(S());
      GainsNone(S(), ino, bn, bn + 1);
      marks := {};
      t := inodes[ino].addrs[NDIRECT];
      if t == 0 {
        t := Balloc();
        if t == 0 {
          TabledNot(S(), ino, logged);
          return;
        }
        TableGrew(old(S()), ino, t);
        marks := {sb.bmapstart + t / BPB};
        inodes := SetAddr(inodes, ino, NDIRECT, t);
        owner := owner[t := Table(ino)];
        TabledNew(old(S()), ino, t, S(), old(logged), logged);
        TableGains(old(S()), S(), ino, bn, t);
        FilesKept(old(S()), S());
      } else {
        TabledNot(S(), ino, logged);
      }
    }

    /** a[j] = addr in bmap(), and log_write() of the table */
    method SetEntry(ino: nat, t: nat, j: nat, b: nat)
      requires Shape(S()) && ino < |inodes| && j < NINDIRECT && b < sb.size
               && t == inodes[ino].addrs[NDIRECT] >= sb.nmeta
      modifies this`blocks, this`owner, this`logged, this`peak, this`unlogged
      ensures S() == PlaceEntry(old(S()), ino, j, b) && logged == old(logged) + {t} && unlogged <= old(unlogged)
      ensures |old(logged)| <= |logged| && peak <= Max(old(peak), |logged|) && (old(Tracked()) ==> Tracked())
    {
      hide Word, SetWord, Tracks;
      blocks := blocks[t := SetWord(blocks[t], j, b)];
      LogWrite(t);
      TracksOne(sb, base, old(blocks), old(logged), old(unlogged), t, blocks[t], logged, unlogged);
      owner := owner[b := Data(ino, NDIRECT + j)];
      SubsetSize(old(logged), logged);
    }

    /** a[j] in the table, allocated if necessary */
    method BmapEntry(ino: nat, j: nat) returns (r: nat, ghost marks: set<nat>)
      requires Valid() && ino < |inodes| && j < NINDIRECT && inodes[ino].addrs[NDIRECT] != 0
      modifies this`blocks, this`owner, this`logged, this`peak, this`unlogged
      ensures Valid() && Mapped(old(S()), S(), ino, NDIRECT + j, r)
      ensures Effort(old(S()), S(), ino, NDIRECT + j, r, old(logged), logged, marks)
      ensures peak <= Max(old(peak), |logged|) && unlogged <= old(unlogged)
      ensures old(Addr(S(), ino, NDIRECT + j)) != 0 ==>
                logged == old(logged) && peak == old(peak) && unlogged == old(unlogged)
      ensures Gains(old(S()), S(), ino, NDIRECT + j, NDIRECT + j + 1)
      ensures old(Tracked()) ==> Tracked()
    {
      hide Inv, Clean, SameFiles, Alloc, PlaceEntry, Files, Mapped, Effort, Addr, Word, SetWord, Tracks, Gains,
           UsedBelow;
      CleanStale(S());
      InvShape(S());
      GainsNone(S(), ino, NDIRECT + j, NDIRECT + j + 1);
      AddrEntry(S(), ino, j);
      marks := {};
      var t := inodes[ino].addrs[NDIRECT];
      r := Word(blocks[t], j);
      if r == 0 {
        r := Balloc();
        if r == 0 {
          MappedNot(S(), ino, NDIRECT + j, logged);
          return;
        }
        assert Shape(S()) by { InvShape(S()); }
        marks := {sb.bmapstart + r / BPB};
        assert t >= sb.nmeta by { LinkAt(old(S()), ino, 0); }
        SetEntry(ino, t, j, r);
        EntryDone(old(S()), S(), ino, j, r, old(logged), logged);
      } else {
        MappedNot(S(), ino, NDIRECT + j, logged);
      }
    }

    /** bmap(): the block number for block `bn` of the file, 0 if the disk is full.  Its callers
        keep bn below MAXFILE, so the panic after the two cases is never reached. */
    method Bmap(ino: nat, bn: nat) returns (r: nat, ghost marks: set<nat>)
      requires Valid() && ino < |inodes| && bn < MAXFILE
      modifies this`blocks, this`inodes, this`owner, this`logged, this`peak, this`unlogged
      ensures Valid() && Mapped(old(S()), S(), ino, bn, r)
              && Effort(old(S()), S(), ino, bn, r, old(logged), logged, marks)
      ensures peak <= Max(old(peak), |logged|) && unlogged <= old(unlogged)
      ensures old(Addr(S(), ino, bn)) != 0 ==> logged == old(logged) && peak == old(peak) && unlogged == old(unlogged)
      ensures Gains(old(S()), S(), ino, bn, bn + 1)
      ensures old(Tracked()) ==> Tracked()
    {
      hide Inv, SameFiles, Files, Mapped, Effort, Addr, Tabled, Tracks, Gains;
      if bn < NDIRECT {
        r, marks := BmapDirect(ino, bn);
        return;
      }
      var t, marks1 := LoadTable(ino, bn);
      ghost var s1, logged1 := S(), logged;
      TabledFacts(old(S()), s1, ino, t, old(logged), logged1, marks1);
      if old(inodes)[ino].addrs[NDIRECT] == 0 { NoTable(old(S()), ino, bn); }
      if t == 0 {
        TableFull(old(S()), s1, ino, bn, old(logged), logged1, marks1);
        return 0, {};
      }
      ghost var marks2;
      r, marks2 := BmapEntry(ino, bn - NDIRECT);
      marks := marks1 + marks2;
      TableThenEntry(old(S()), s1, S(), ino, bn, t, r, old(logged), logged1, logged, marks1, marks2);
      SubsetSize(logged1, logged);
      GainsTrans(old(S()), s1, S(), ino, bn, bn + 1);
    }

    // ----- writei() -----

    /** One round of the loop in writei().  `src` are the bytes readable at the source address; if
        either_copyin() needs more, it fails after copying those into the buffer, which is then
        released without log_write(). */
    method WriteBlock(ino: nat, src: seq<byte>, pos: nat, n: nat, tot: nat, ghost s0: State, ghost off: nat)
      returns (ok: bool, m: nat, ghost got: nat, ghost marks: set<nat>)
      requires tot < n && tot <= |src| && pos == off + tot && off + n <= MAXBYTES && Mid(s0, S(), ino, off, src[..tot])
      modifies this`blocks, this`inodes, this`owner, this`logged, this`peak, this`unlogged
      ensures m == Piece(pos, n - tot) && peak <= Max(old(peak), |logged|)
      ensures Turned(s0, old(S()), S(), ino, src, off, n, tot, ok, got, old(logged), logged, marks)
      ensures got == tot || ok ==> unlogged <= old(unlogged)
      ensures unlogged <= old(unlogged) + {Addr(S(), ino, pos / BSIZE)}
      ensures got > tot && !ok ==> Addr(S(), ino, pos / BSIZE) in unlogged
      ensures old(Tracked()) ==> Tracked()
    {
      hide Inv, Clean, Files, Mid, Mapped, Effort, Addr, Patch, Round, Store, Tracks, Gains, Turned, OneBlock,
           UsedBelow, Piece, Shape;
      MidParts(s0, S(), ino, off, src[..tot]);
      MidFiles(s0, S(), ino, off, src[..tot]);
      m := Piece(pos, n - tot);
      var addr, marks1 := Bmap(ino, pos / BSIZE);
      marks := marks1;
      MappedParts(old(S()), S(), ino, pos / BSIZE, addr);
      MidGrew(s0, old(S()), S(), ino, off, src[..tot]);
      RoundIntro(old(S()), S(), ino, pos / BSIZE, addr, old(logged), logged, marks);
      got := tot;
      if addr == 0 {
        TurnedFull(s0, old(S()), S(), ino, src, off, n, tot, old(logged), logged, marks);
        return false, m, got, marks;
      }
      LinkAt(S(), ino, pos / BSIZE);
      ghost var s1, logged1 := S(), logged;
      ok, got := StoreBlock(ino, src, pos, tot, m, addr, s0, off);
      TurnedStore(s0, old(S()), s1, S(), ino, src, off, n, tot, ok, got, old(logged), logged1, logged, marks);
      SubsetSize(logged1, logged);
    }

    /** The copy into the buffer, and log_write() unless it failed */
    method StoreBlock(ino: nat, src: seq<byte>, pos: nat, tot: nat, m: nat, addr: nat, ghost s0: State, ghost off: nat)
      returns (ok: bool, ghost got: nat)
      requires tot <= |src| && pos == off + tot < MAXBYTES && pos % BSIZE + m <= BSIZE
               && Mid(s0, S(), ino, off, src[..tot])
      requires Inv(S()) && stale == {} && ino < |inodes| && Shape(S()) && addr == Addr(S(), ino, pos / BSIZE) != 0
               && LinkOk(S(), ino, pos / BSIZE)
      modifies this`blocks, this`logged, this`peak, this`unlogged
      ensures tot <= got <= |src| && Mid(s0, S(), ino, off, src[..got]) && (ok <==> tot + m <= |src|)
              && got == if ok then tot + m else |src|
      ensures inodes == old(inodes) && Shape(S()) && Addr(S(), ino, pos / BSIZE) == addr
      ensures logged == if ok then old(logged) + {addr} else old(logged)
      ensures peak <= Max(old(peak), |logged|) && (got == tot || ok ==> unlogged <= old(unlogged))
              && unlogged <= old(unlogged) + {addr}
      ensures got > tot && !ok ==> addr in unlogged
      ensures Gains(old(S()), S(), ino, pos / BSIZE, pos / BSIZE + 1) && OneBlock(old(S()), S(), addr)
      ensures old(Tracked()) ==> Tracked()
    {
      hide Inv, Clean, Files, Mid, Addr, Patch, Store, Tracks, Gains;
      LinkAt(S(), ino, pos / BSIZE);
      ok := tot + m <= |src|;
      var e := if ok then src[tot..tot + m] else src[tot..];
      assert src[..tot] + e == src[..tot + |e|];
      MidStore(s0, S(), ino, off, src[..tot], e);
      ghost var s1 := S();
      blocks := blocks[addr := Patch(blocks[addr], pos % BSIZE, e)];
      StoredFields(s1, S(), ino, pos / BSIZE, blocks[addr]);
      StoreGains(s1, S(), ino, pos / BSIZE, blocks[addr], pos / BSIZE, pos / BSIZE + 1);
      got := tot + |e|;
      if e != [] { unlogged := unlogged + {addr}; }
      if ok {
        LogWrite(addr);
        SubsetSize(old(logged), logged);
      }
      TracksStore(sb, base, old(blocks), old(logged), old(unlogged), addr, pos % BSIZE, e, logged, unlogged);
    }

    /** The loop of writei(): stops early only when the disk is full or the source unreadable.  `e` is
        what the log holds when it stops. */
    method WriteLoop(ino: nat, src: seq<byte>, off: nat, n: nat)
      returns (tot: nat, ghost got: nat, ghost torn: nat, ghost e: State)
      requires Valid() && ino < |inodes| && off <= inodes[ino].size && off + n <= MAXBYTES
      modifies this`blocks, this`inodes, this`owner, this`logged, this`peak, this`unlogged
      ensures Ended(old(S()), S(), e, ino, src, off, n, tot, got, old(logged), logged, torn)
      ensures peak <= Max(old(peak), |logged|) && (got == tot ==> unlogged <= old(unlogged))
      ensures got > tot ==> torn in unlogged && unlogged <= old(unlogged) + {torn}
      ensures old(Tracked()) ==> Tracked()
      ensures old(Tracked() && logged == {} && unlogged == {}) ==> Tracks(sb, base, e.blocks, logged)
    {
      hide Inv, Clean, Files, Mid, Addr, InLoop, Turned, Ended, Tracks, Saved, Piece, Shape;
      LoopStart(S(), ino, src, off, n, logged);
      tot, got, torn := 0, 0, 0;
      var pos := off;
      ghost var k, D, M := 0, {}, {};
      ghost var s0, fresh0 := S(), Tracked() && logged == {} && unlogged == {};
      while tot < n
        invariant pos == off + tot && got == tot && torn == 0 && tot <= n
        invariant InLoop(s0, S(), ino, src, off, n, tot, k, old(logged), logged, D, M)
        invariant peak <= Max(old(peak), |logged|) && unlogged <= old(unlogged) && (old(Tracked()) ==> Tracked())
      {
        ghost var s1, logged1 := S(), logged;
        LoopFacts(s0, s1, ino, src, off, n, tot, k, old(logged), logged, D, M);
        assert fresh0 ==> Tracks(sb, base, s1.blocks, logged1) by {
          if fresh0 { assert logged1 + unlogged == logged1; }
        }
        var ok, m, got1, marks := WriteBlock(ino, src, pos, n, tot, s0, off);
        TurnedFacts(s0, s1, S(), ino, src, off, n, tot, ok, got1, logged1, logged, marks);
        if !ok {
          got, torn := got1, Addr(S(), ino, pos / BSIZE);
          e := Saved(s1, S(), tot, got, logged, torn);
          LoopFail(s0, s1, S(), ino, src, off, n, tot, k, got, old(logged), logged1, logged, D, M, marks);
          if fresh0 { SavedTracks(sb, base, s1, S(), tot, got, logged1, logged, unlogged, torn); }
          return;
        }
        LoopRound(s0, s1, S(), ino, src, off, n, tot, k, got1, old(logged), logged1, logged, D, M, marks);
        k, D, M := k + 1, D + {Addr(S(), ino, pos / BSIZE)}, M + marks;
        tot, pos := tot + m, pos + m;
        got := tot;
      }
      e := S();
      LoopDone(s0, S(), ino, src, off, n, k, old(logged), logged, D, M);
      assert fresh0 ==> Tracks(sb, base, e.blocks, logged) by { if fresh0 { assert logged + unlogged == logged; } }
    }

    /** The end of writei(): set the size if the file grew and write the inode back. */
    method WriteEnd(ino: nat, end: nat, ghost s0: State, ghost off: nat, ghost d: seq<byte>, ghost r: nat)
      requires Mid(s0, S(), ino, off, d) && r <= |d| && end == off + r
      modifies this`blocks, this`inodes, this`logged, this`peak, this`unlogged
      ensures Valid() && Written(s0, S(), ino, off, d, r) && Closes(old(S()), S(), ino, end)
              && SameMap(old(S()), S(), ino)
      ensures OnDisk(S(), ino) == inodes[ino]
      ensures forall i :: 0 <= i < |inodes| && i != ino ==>
                OnDisk(S(), i) == OnDisk(s0, i) && inodes[i] == old(inodes)[i]
      ensures logged == old(logged) + {InodeBlock(sb, ino)} && peak == Max(old(peak), |old(logged)|)
      ensures unlogged == old(unlogged) - {InodeBlock(sb, ino)}
      ensures old(Tracked()) ==> Tracked()
    {
      hide Inv, Clean, Files, Mid, Addr, Written, Resize, Save, SameFiles, OnDisk, SameMap, Tracks;
      ghost var s1 := S();
      MidParts(s0, s1, ino, off, d);
      MidSizes(s0, s1, ino, off, d);
      if end > inodes[ino].size {
        inodes := inodes[ino := inodes[ino].(size := end)];
      }
      ghost var s2, size := S(), NewSize(s1.inodes[ino].size, end);
      ResizeFields(s1, s2, ino, size);
      MidDisk(s0, s1, s2, ino, off, d, size);
      MidFinish(s0, s1, ino, off, d, r);
      CleanStale(s2);
      InvShape(s2);
      Iupdate(ino);
      WriteDone(s0, s1, ino, off, d, r, s2, S());
      SavedClean(s2, S(), ino);
      InvShape(S());
      SavedMap(s1, s2, S(), ino, size);
    }

    /** writei().  `src` are the bytes readable at the source address (all of them for a kernel
        source); `got` counts the bytes stored, `r` those the caller is told about, and `torn` is
        the block changed without log_write() when the two differ.  `e` is what the log holds of it. */
    method Writei(ino: nat, src: seq<byte>, off: nat, n: nat)
      returns (r: int, ghost got: nat, ghost torn: nat, ghost e: State)
      requires Valid() && ino < |inodes| && off < U32 && n < U32
      modifies this`blocks, this`inodes, this`owner, this`logged, this`peak, this`unlogged
      ensures Valid()
      ensures r == -1 <==> off > old(inodes)[ino].size || off + n >= U32 || off + n > MAXBYTES
      ensures r == -1 ==> S() == old(S()) && logged == old(logged) && peak == old(peak) && unlogged == old(unlogged)
      ensures r != -1 ==> r >= 0 && Carried(old(S()), S(), ino, src, off, n, r, got)
      ensures |logged| <= |old(logged)| + Cost(off, n) && peak + 1 <= Max(old(peak) + 1, |old(logged)| + Cost(off, n))
      ensures r != -1 && got == r ==> unlogged <= old(unlogged)
      ensures r != -1 && got > r ==> torn in unlogged && unlogged <= old(unlogged) + {torn}
      ensures old(Tracked()) ==> Tracked()
      ensures r != -1 && old(logged) == {} ==>
                Lasting(old(S()), S(), e, ino, off, src[..r], logged, torn) && (got == r ==> e == S())
      ensures r != -1 && old(Tracked() && logged == {} && unlogged == {}) ==> Tracks(sb, base, e.blocks, logged)
    {
      hide Inv, Clean, Files, Cost, Carried, Lasting, Tracks;
      CostPositive(off, n);
      e := S();
      if off > inodes[ino].size || (off + n) % U32 < off {
        return -1, 0, 0, e;
      }
      if off + n > MAXFILE * BSIZE {
        return -1, 0, 0, e;
      }
      r, got, torn, e := WriteAll(ino, src, off, n);
    }

    /** writei() once its arguments are accepted */
    method WriteAll(ino: nat, src: seq<byte>, off: nat, n: nat)
      returns (tot: nat, ghost got: nat, ghost torn: nat, ghost e: State)
      requires Valid() && ino < |inodes| && off <= inodes[ino].size && off + n <= MAXBYTES
      modifies this`blocks, this`inodes, this`owner, this`logged, this`peak, this`unlogged
      ensures Valid() && Carried(old(S()), S(), ino, src, off, n, tot, got)
      ensures |logged| <= |old(logged)| + Cost(off, n) && peak + 1 <= Max(old(peak) + 1, |old(logged)| + Cost(off, n))
      ensures got == tot ==> unlogged <= old(unlogged)
      ensures got > tot ==> torn in unlogged && unlogged <= old(unlogged) + {torn}
      ensures old(Tracked()) ==> Tracked()
      ensures old(logged) == {} ==> Lasting(old(S()), S(), e, ino, off, src[..tot], logged, torn) && (got == tot ==>
                e == S())
      ensures old(Tracked() && logged == {} && unlogged == {}) ==> Tracks(sb, base, e.blocks, logged)
    {
      hide Inv, Clean, Files, Mid, Written, Cost, OnDisk, Ended, SameMap, Closes, Lasting, Tracks, Carried, Shape;
      tot, got, torn, e := WriteLoop(ino, src, off, n);
      ghost var s1, e1, logged1 := S(), e, logged;
      EndedFacts(old(S()), s1, e1, ino, src, off, n, tot, got, old(logged), logged1, torn);
      InvShape(old(S()));
      InodeBlockLow(old(S()), ino);
      WriteEnd(ino, off + tot, old(S()), off, src[..got], tot);
      EndedCarried(old(S()), s1, e1, S(), ino, src, off, n, tot, got, old(logged), logged1, torn);
      if old(logged) == {} {
        e := EndedLasting(old(S()), s1, e1, S(), ino, src, off, n, tot, got, logged1, logged, torn);
        if old(Tracked() && unlogged == {}) { CloseTracks(sb, base, e1, e, ino, off + tot, logged1, logged); }
      }
      UnionSize(logged1, {InodeBlock(sb, ino)});
    }

    // ----- readi() -----

    /** readi(), into a destination with `room` writable bytes.  Nothing is ever allocated: all
        blocks below the size are there. */
    method Readi(ino: nat, off: nat, n: nat, room: nat) returns (r: int, out: seq<byte>)
      requires Valid() && ino < |inodes| && off < U32 && n < U32
      modifies this`blocks, this`inodes, this`owner, this`logged, this`peak, this`unlogged
      ensures Valid() && S() == old(S()) && logged == old(logged) && peak == old(peak) && unlogged == old(unlogged)
      ensures FileOk(S(), ino) && ReadOut(Contents(S(), ino), off, n, room, r, out)
    {
      hide Inv, Shape, Clean, Files, FileOk, Contents, Piece, ReadOut;
      FileAt(S(), ino);
      ghost var c := Contents(S(), ino);
      if off > inodes[ino].size || (off + n) % U32 < off {
        ReadNothing(c, off, n, room);
        return 0, [];
      }
      var want := if off + n > inodes[ino].size then inodes[ino].size - off else n;
      var tot, pos := 0, off;
      out := [];
      while tot < want
        invariant tot <= want && tot <= room && pos == off + tot && out == c[off..off + tot]
        invariant S() == old(S()) && logged == old(logged) && peak == old(peak) && unlogged == old(unlogged)
      {
        var m := Piece(pos, want - tot);
        var e := ReadBlock(ino, pos, m);
        if tot + m > room {
          Slices(c, off, pos, pos + m, off + room);
          out := out + e[..room - tot];
          ReadSome(c, off, n, room, want, room);
          return -1, out;
        }
        Slices(c, off, pos, pos + m, pos + m);
        out := out + e;
        tot, pos := tot + m, pos + m;
      }
      ReadSome(c, off, n, room, want, want);
      return tot, out;
    }

    /** bmap() and bread() in readi(): the bytes under position `pos`. */
    method ReadBlock(ino: nat, pos: nat, m: nat) returns (e: seq<byte>)
      requires Valid() && ino < |inodes| && m > 0 && pos + m <= inodes[ino].size && pos % BSIZE + m <= BSIZE
      modifies this`blocks, this`inodes, this`owner, this`logged, this`peak, this`unlogged
      ensures Valid() && S() == old(S()) && logged == old(logged) && peak == old(peak) && unlogged == old(unlogged)
      ensures FileOk(S(), ino) && e == Contents(S(), ino)[pos..pos + m]
    {
      hide Inv, Clean, Files, FileOk, Addr, Contents, Mapped, Effort;
      CleanStale(S());
      FileAt(S(), ino);
      ReadPiece(S(), ino, pos, m);
      var addr, _ := Bmap(ino, pos / BSIZE);
      MappedParts(old(S()), S(), ino, pos / BSIZE, addr);
      assert addr != 0;
      e := blocks[addr][pos % BSIZE..pos % BSIZE + m];
    }

    // ----- itrunc() -----

    /** First loop: the direct blocks */
    method FreeDirect(ino: nat)
      requires Valid() && ino < |inodes|
      modifies this`blocks, this`inodes, this`owner, this`stale, this`logged, this`peak, this`unlogged
      ensures Freed(old(S()), S(), ino, NDIRECT, false) && stale == {}
      ensures logged == old(logged) + MapBlocks(sb, Left(old(owner), owner)) && unlogged <= old(unlogged)
      ensures owner.Keys <= old(owner).Keys && (old(Tracked()) ==> Tracked())
    {
      hide Inv, Freed, Addr, Release, ClearDirect, Tracks, MapBlocks, Left;
      LeftNone(sb, owner, logged);
      FreedStart(S(), ino);
      var i := 0;
      while i < NDIRECT
        invariant 0 <= i <= NDIRECT && Freed(old(S()), S(), ino, i, false) && stale == {}
        invariant logged == old(logged) + MapBlocks(sb, Left(old(owner), owner)) && unlogged <= old(unlogged)
        invariant owner.Keys <= old(owner).Keys && (old(Tracked()) ==> Tracked())
      {
        FreedParts(old(S()), S(), ino, i, false);
        AddrDirect(S(), ino, i);
        ghost var s1 := S();
        if inodes[ino].addrs[i] != 0 {
          DirectFreed(old(S()), s1, ino, i, inodes[ino].addrs[i]);
          ghost var logged1 := logged;
          Bfree(inodes[ino].addrs[i]);
          LeftOne(s1, S(), inodes[ino].addrs[i], old(owner), old(logged), logged1, logged);
          InvShape(S());
          ClearFields(S(), ino, i);
          inodes := SetAddr(inodes, ino, i, 0);
          stale := stale - {Data(ino, i)};
        } else {
          FreedSkip(old(S()), s1, ino, i);
        }
        i := i + 1;
      }
    }

    /** Second loop: the blocks in the indirect table, and then the table itself */
    method FreeTable(ino: nat, ghost s0: State)
      requires Freed(s0, S(), ino, NDIRECT, false) && stale == {} && ino < |inodes| && inodes[ino].addrs[NDIRECT] != 0
      modifies this`blocks, this`inodes, this`owner, this`stale, this`logged, this`peak, this`unlogged
      ensures Freed(s0, S(), ino, MAXFILE, true) && stale == {}
      ensures logged == old(logged) + MapBlocks(sb, Left(old(owner), owner)) && unlogged <= old(unlogged)
      ensures owner.Keys <= old(owner).Keys && (old(Tracked()) ==> Tracked())
    {
      hide Inv, Freed, Addr, Release, ClearTable, Word, Tracks, MapBlocks, Left;
      LeftNone(sb, owner, logged);
      FreedParts(s0, S(), ino, NDIRECT, false);
      var t := inodes[ino].addrs[NDIRECT];
      LinkAt(S(), ino, 0);
      var a := blocks[t];
      var j := 0;
      while j < NINDIRECT
        invariant 0 <= j <= NINDIRECT && Freed(s0, S(), ino, NDIRECT + j, false) && Shape(S()) && ino < |inodes|
        invariant StaleTo(S(), ino, NDIRECT + j) && inodes[ino].addrs[NDIRECT] == t && blocks[t] == a
        invariant logged == old(logged) + MapBlocks(sb, Left(old(owner), owner)) && unlogged <= old(unlogged)
        invariant owner.Keys <= old(owner).Keys && (old(Tracked()) ==> Tracked())
      {
        FreedParts(s0, S(), ino, NDIRECT + j, false);
        AddrEntry(S(), ino, j);
        if Word(a, j) != 0 {
          EntryFreed(s0, S(), ino, NDIRECT + j, Word(a, j));
          TableStays(S(), ino, Word(a, j));
          ghost var s1, logged1 := S(), logged;
          Bfree(Word(a, j));
          LeftOne(s1, S(), Word(a, j), old(owner), old(logged), logged1, logged);
        } else {
          FreedSkip(s0, S(), ino, NDIRECT + j);
        }
        j := j + 1;
      }
      FreedParts(s0, S(), ino, MAXFILE, false);
      TableFreed(s0, S(), ino, t);
      ghost var s2, logged2 := S(), logged;
      Bfree(t);
      LeftOne(s2, S(), t, old(owner), old(logged), logged2, logged);
      InvShape(S());
      ClearTableFields(S(), ino);
      inodes := SetAddr(inodes, ino, NDIRECT, 0);
      stale := set x | x in stale && x != Table(ino) && !(x.Data? && x.ino == ino && x.bn >= NDIRECT);
    }

    /** itrunc(): frees every block of the file once and no other. */
    method Itrunc(ino: nat)
      requires Valid() && ino < |inodes|
      modifies this`blocks, this`inodes, this`owner, this`stale, this`logged, this`peak, this`unlogged
      ensures Valid() && |inodes| == |old(inodes)| && FileOk(S(), ino) && Contents(S(), ino) == []
      ensures forall b :: b in owner <==> b in old(owner) && !Of(old(owner)[b], ino)
      ensures forall b :: b in owner ==> owner[b] == old(owner)[b]
      ensures inodes[ino] == old(inodes)[ino].(size := 0, addrs := inodes[ino].addrs) && forall k ::
                0 <= k <= NDIRECT ==> inodes[ino].addrs[k] == 0
      ensures forall i :: 0 <= i < |inodes| && i != ino ==> inodes[i] == old(inodes)[i] && Unread(old(S()), S(), i)
      ensures OnDisk(S(), ino) == inodes[ino] && forall i :: 0 <= i < |inodes| && i != ino ==>
                OnDisk(S(), i) == old(OnDisk(S(), i))
      ensures logged == old(logged) + MapBlocks(sb, Left(old(owner), owner)) + {InodeBlock(sb, ino)}
              && unlogged <= old(unlogged)
      ensures old(Tracked()) ==> Tracked()
    {
      hide Inv, Freed, Addr, Contents, FileOk, Save, SameFiles, OnDisk, Tracks, MapBlocks, Left;
      FreeDirect(ino);
      ghost var owner1, logged1 := owner, logged;
      LeftNone(sb, owner1, logged1);
      FreedParts(old(S()), S(), ino, NDIRECT, false);
      if inodes[ino].addrs[NDIRECT] != 0 {
        FreeTable(ino, old(S()));
      } else {
        NoTableFreed(old(S()), S(), ino);
      }
      LeftMore(sb, old(owner), owner1, owner, old(logged), logged1, logged);
      ghost var s1 := S();
      FreedParts(old(S()), s1, ino, MAXFILE, true);
      FreedInodes(old(S()), s1, ino);
      AllGone(old(S()), s1, ino);
      inodes := inodes[ino := inodes[ino].(size := 0)];
      ghost var s2 := S();
      ResizeOk(s1, ino, 0);
      FreedDisk(old(S()), s1, ino, s2);
      Iupdate(ino);
      TruncDone(old(S()), s1, ino, s2, S());
      SavedFields(s2, S(), ino);
    }

    // ----- filewrite() -----

    /** filewrite() on an inode: chunks of at most three blocks, each its own log operation.  `off` is
        f->off, `w` how far it moved, and `worst` the largest number of blocks any operation had
        logged at the start of a log_write() call.  `ss`, `lhs` and `ws` are what the disk goes through. */
    method Filewrite(writable: bool, ino: nat, src: seq<byte>, off: nat, n: int)
      returns (ret: int, w: nat, ghost got: nat, ghost worst: nat, ghost ss: seq<State>, ghost lhs: seq<set<nat>>,
               ghost ws: seq<nat>)
      requires Valid() && ino < |inodes| && off < U32 && n < 0x8000_0000
      modifies this`blocks, this`inodes, this`owner, this`logged, this`peak, this`unlogged, this`base
      ensures Valid() && worst < MAXOPBLOCKS
      ensures ret == -1 || ret == n == w
      ensures !writable || off > old(inodes)[ino].size ==> S() == old(S()) && w == 0
      ensures writable && off <= old(inodes)[ino].size ==>
                w <= got <= |src| && Written(old(S()), S(), ino, off, src[..got], w)
      ensures n >= 0 ==> (ret == n <==> writable && (n == 0 || Takes(old(S()), ino, |src|, off, n)))
      ensures ret == -1 && writable && n > 0 ==>
                off > old(inodes)[ino].size || off + n > MAXBYTES || |src| < n || UsedBelow(owner, sb.size)
      ensures old(unlogged) == {} && off <= old(inodes)[ino].size ==>
                Chain(ss, lhs, ws, ino, off, src) && ss[0] == old(S()) && ws[|lhs|] == w
                    && (ret == n ==> ss[|lhs|] == S())
      ensures |ws| == |lhs| + 1 && Cut(ws, n, w, ret == n)
      ensures ret == n > 0 ==> |lhs| == (n + 3 * BSIZE - 1) / (3 * BSIZE)
      ensures 0 < n <= 3 * BSIZE ==> |lhs| <= 1
    {
      hide Inv, Clean, Files, Written, UsedBelow, Cost, Shape, OnDisk, Takes, Chain, Stage, Grown, Tracks, Cut,
           Min;
      w, got, worst, ss, lhs, ws := 0, 0, 0, [S()], [], [0];
      FileAt(S(), ino);
      ChainStart(S(), ino, off, src);
      CutStart(n);
      CutWeaker(ws, n, 0, false);
      if !writable {
        return -1, w, got, worst, ss, lhs, ws;
      }
      var max := (MAXOPBLOCKS - 1 - 1 - 2) / 2 * BSIZE;
      var i := 0;
      if off <= inodes[ino].size { WrittenStart(S(), ino, off); }
      assert src[..0] == [];
      GrownStart(S(), ino, off, n);
      while i < n
        invariant 0 <= i <= n || (i == 0 && n < 0)
        invariant Valid() && ino < |inodes| && worst < MAXOPBLOCKS && w == i == got <= |src|
                  && |ss| == |ws| == |lhs| + 1
        invariant off > old(inodes)[ino].size ==> S() == old(S()) && i == 0
        invariant off <= old(inodes)[ino].size ==>
                    Written(old(S()), S(), ino, off, src[..i], i) && Grown(old(S()), S(), ino, off, n)
        invariant old(unlogged) == {} && off <= old(inodes)[ino].size ==>
                    unlogged == {} && Chain(ss, lhs, ws, ino, off, src) && ss[0] == old(S()) && ss[|lhs|] == S()
                        && ws[|lhs|] == i
        invariant i > 0 ==> off <= old(inodes)[ino].size
        invariant Cut(ws, n, i, true)
      {
        var n1 := n - i;
        if n1 > max {
          n1 := max;
        }
        ghost var calm := old(unlogged) == {} && off <= old(inodes)[ino].size;
        var r, e, p, c := WriteChunk(ino, src, off, i, n1, n, old(S()));
        worst := Max(worst, p);
        if calm && r >= 0 { ChainMore(ss, lhs, ws, ino, off, src, c, logged, r); }
        if r >= 0 {
          CutMore(ws, n, i, r, n1);
          ss, lhs, ws := ss + [c], lhs + [logged], ws + [i + r];
        }
        if r > 0 {
          w := w + r;
        }
        got := i + e;
        if r != n1 {
          break;
        }
        i := i + r;
      }
      ret := if i == n then n else -1;
      CutEnd(ws, n, w, ret);
      InvShape(S());
      if i == n && n > 0 { GrownTakes(old(S()), S(), ino, off, n, src); }
    }

    /** One round of the loop in filewrite(): begin_op(), writei() at f->off, end_op(). */
    method WriteChunk(ino: nat, src: seq<byte>, off: nat, i: nat, n1: nat, n: int, ghost s0: State)
      returns (r: int, ghost e: nat, ghost p: nat, ghost c: State)
      requires Valid() && ino < |inodes| && off < U32 && 0 < n1 <= 3 * BSIZE && i + n1 <= n && i <= |src|
      requires ino < |s0.inodes|
      requires off > s0.inodes[ino].size ==> S() == s0 && i == 0
      requires off <= s0.inodes[ino].size ==> Written(s0, S(), ino, off, src[..i], i) && Grown(s0, S(), ino, off, n)
      modifies this`blocks, this`inodes, this`owner, this`logged, this`peak, this`unlogged, this`base
      ensures Valid() && ino < |inodes| && p < MAXOPBLOCKS && -1 <= r <= n1 && i + e <= |src| && |logged| <= MAXOPBLOCKS
      ensures if r > 0 then r <= e else r <= 0
      ensures r == n1 ==> e == r && (old(unlogged) == {} ==> unlogged == {} && c == S())
      ensures off > s0.inodes[ino].size ==> S() == s0 && r == -1 && e == 0
      ensures off <= s0.inodes[ino].size ==>
                Written(s0, S(), ino, off, src[..i + e], if r >= 0 then i + r else i) && Grown(s0, S(), ino, off, n)
      ensures r != n1 ==> !Takes(s0, ino, |src|, off, n)
      ensures r != n1 ==> off > s0.inodes[ino].size || off + n > MAXBYTES || |src| < n || UsedBelow(owner, sb.size)
      ensures r >= 0 && old(unlogged) == {} ==> Stage(old(S()), c, ino, off + i, src[i..][..r], logged)
    {
      hide Inv, Clean, Files, Written, UsedBelow, Takes, Grown, Gains, Settled, Stopped, Stage, Shape, OnDisk;
      ghost var s1 := S();
      if off <= s0.inodes[ino].size { WrittenSize(s0, s1, ino, off, src[..i], i); }
      FileAt(S(), ino);
      r, e, p, c := WriteOp(ino, src[i..], off + i, n1);
      if r == -1 {
        e := 0;
        assert S() == s1 && i + e == i;
        ChunkRefused(s0, ino, |src|, off, n);
      } else {
        ChunkWritten(s0, s1, S(), ino, off, src, i, e, r);
        ChunkTakes(s0, s1, S(), ino, |src|, off, n, i, n1, r, e);
        StoppedWhy(S(), ino, src[i..], off + i, n1, r, e);
      }
    }

    /** begin_op(), writei(), end_op(): one log operation */
    method WriteOp(ino: nat, src: seq<byte>, off: nat, n: nat)
      returns (r: int, ghost got: nat, ghost p: nat, ghost c: State)
      requires Valid() && ino < |inodes| && off < U32 && 0 < n <= 3 * BSIZE
      modifies this`blocks, this`inodes, this`owner, this`logged, this`peak, this`unlogged, this`base
      ensures Valid() && Shape(S()) && p < MAXOPBLOCKS && |logged| <= MAXOPBLOCKS && |inodes| == |old(inodes)|
      ensures r == -1 <==> off > old(inodes)[ino].size || off + n > MAXBYTES
      ensures r == -1 ==> S() == old(S())
      ensures r != -1 ==> r >= 0 && Carried(old(S()), S(), ino, src, off, n, r, got)
      ensures r == n && old(unlogged) == {} ==> unlogged == {} && c == S()
      ensures r != -1 && old(unlogged) == {} ==> Stage(old(S()), c, ino, off, src[..r], logged)
      ensures r != -1 && old(unlogged) == {} ==> forall b :: b in logged ==>
                b < |blocks| == |c.blocks| && c.blocks[b] == blocks[b]
    {
      hide Inv, Clean, Files, Written, UsedBelow, Cost, OnDisk, Piece, Gains, Settled, Stopped, Lasting, Tracks, Stage;
      logged, peak, base := {}, 0, blocks;
      InvShape(S());
      ChunkFits(off, n);
      assert unlogged == {} ==> Tracked() by { if unlogged == {} { TracksStart(sb, blocks, logged + unlogged); } }
      ghost var torn;
      r, got, torn, c := Writei(ino, src, off, n);
      p := peak;
      InvShape(S());
      if r != -1 {
        StoppedWhy(S(), ino, src, off, n, r, got);
        if old(unlogged) == {} { StageOf(old(S()), S(), c, ino, off, src[..r], logged, torn); }
      }
    }

    // ----- runs -----

    /** A freshly made disk */
    constructor (super: Super, content: seq<Block>, empty: seq<Inode>)
      requires Layout(super) && |content| == super.size && |empty| == super.ninodes
      requires forall b :: 0 <= b < super.size ==> (Marked(content, super.bmapstart, b) <==> b < super.nmeta)
      requires forall i :: 0 <= i < |empty| ==> empty[i].size == 0 && empty[i].addrs == seq(NDIRECT + 1, _ => 0)
      ensures Valid() && sb == super && blocks == content && inodes == empty
    {
      sb, blocks, inodes := super, content, empty;
      owner, stale := MetaBelow(super.nmeta), {};
      logged, peak, unlogged, base := {}, 0, {}, content;
      new;
      FreshOk(S());
    }

    method Do(op: Op) returns (res: Result, ghost got: nat)
      requires Valid() && op.ino < |inodes| && (op.Write? || op.Read? ==> op.off < U32 && op.n < U32)
      modifies this`blocks, this`inodes, this`owner, this`stale, this`logged, this`peak, this`unlogged
      ensures Valid() && |inodes| == |old(inodes)| && Steps(old(S()), op, res, got, S())
    {
      hide Inv, Clean, Files, FileOk, Written, ReadOut, ViewOf, Contents, OnDisk, Stopped, Settled, Cost, Unread, Over,
           Gains;
      hide Lasting, Tracks, MapBlocks, Left, Addr;
      InvShape(S());
      ViewAt(S(), op.ino);
      match op
      case Write(ino, src, off, n) =>
        var r;
        ghost var torn, e;
        r, got, torn, e := Writei(ino, src, off, n);
        res := Wrote(r);
        InvShape(S());
        if r != -1 {
          WrittenView(old(S()), S(), ino, off, src[..got], r);
          SettledFull(old(S()), ino, src, off, n, r, got);
        }
      case Read(ino, off, n, room) =>
        var r, out := Readi(ino, off, n, room);
        res, got := Got(r, out), 0;
      case Trunc(ino) =>
        Itrunc(ino);
        InvShape(S());
        TruncView(old(S()), S(), ino);
        res, got := Truncated, 0;
    }

    /** Any sequence of calls does to the flat files what the abstract file system allows, and writes
        fall short only for lack of room or of readable bytes. */
    method Run(ops: seq<Op>) returns (results: seq<Result>, ghost gots: seq<nat>, ghost states: seq<State>)
      requires Valid()
      requires forall k :: 0 <= k < |ops| ==>
                 ops[k].ino < |inodes| && (ops[k].Write? || ops[k].Read? ==> ops[k].off < U32 && ops[k].n < U32)
      modifies this`blocks, this`inodes, this`owner, this`stale, this`logged, this`peak, this`unlogged
      ensures Valid() && |results| == |gots| == |ops| && |states| == |ops| + 1
      ensures states[0] == old(S()) && states[|ops|] == S()
      ensures forall k :: 0 <= k < |ops| ==> Steps(states[k], ops[k], results[k], gots[k], states[k + 1])
    {
      hide Inv, Clean, Files, Steps;
      results, gots, states := [], [], [S()];
      var k := 0;
      while k < |ops|
        invariant 0 <= k <= |ops| && |results| == |gots| == k && |states| == k + 1 && Valid()
                  && |inodes| == |old(inodes)|
        invariant states[0] == old(S()) && states[k] == S()
        invariant forall j :: 0 <= j < k ==> Steps(states[j], ops[j], results[j], gots[j], states[j + 1])
      {
        var res, got := Do(ops[k]);
        results, gots, states := results + [res], gots + [got], states + [S()];
        k := k + 1;
      }
    }
  }
  /** A write that is told of too many bytes: of two bytes only one can be read.  writei() reports that
      nothing was written, and yet the file has changed, in a block that was not logged. */
  method TornWrite(super: Super, content: seq<Block>, empty: seq<Inode>)
    returns (d: Disk, first: int, second: int, ghost torn: nat)
    requires Layout(super) && |content| == super.size && |empty| == super.ninodes > 0 && super.nmeta < super.size
    requires forall b :: 0 <= b < super.size ==> (Marked(content, super.bmapstart, b) <==> b < super.nmeta)
    requires forall i :: 0 <= i < |empty| ==> empty[i].size == 0 && empty[i].addrs == seq(NDIRECT + 1, _ => 0)
    ensures fresh(d) && d.Valid() && |d.inodes| > 0 && first == 2 && second == 0
    ensures FileOk(d.S(), 0) && Contents(d.S(), 0) == [9, 2] && torn in d.unlogged
  {
    hide Inv, Clean, Files, Written, Gains, Lasting, Tracks, OnDisk, Addr, Contents, FileOk, Fits, UsedBelow;
    d := new Disk(super, content, empty);
    ghost var s0 := d.S();
    FirstFits(s0, 0, 2);
    ghost var got, e;
    first, got, torn, e := d.Writei(0, [1, 2], 0, 2);
    assert [1, 2][..2] == [1, 2];
    FirstWritten(s0, d.S(), 0, [1, 2]);
    ghost var s1 := d.S();
    PrefixFits(s1, 0, 1);
    second, got, torn, e := d.Writei(0, [9], 0, 2);
    assert [9][..1] == [9];
    SecondWritten(s1, d.S(), 0, [1, 2], [9]);
  }
}
