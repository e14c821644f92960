/** What bmap() does to the state, value by value. */
module FsMap {
  import opened Sets
  import opened Blocks
  import opened Bitmap
  import opened Dinode
  import opened FsSpec
  import opened FsSteps

  /** Only inode `ino` gained blocks; nothing visible in any file changed. */
  ghost predicate Grew(s: State, s': State, ino: nat) {
    && Inv(s') && Clean(s') && SameFiles(s, s') && s'.sb == s.sb && ino < |s.inodes|
    && (forall i :: 0 <= i < |s.inodes| && i != ino ==> s'.inodes[i] == s.inodes[i])
    && s'.inodes[ino] == s.inodes[ino].(addrs := s'.inodes[ino].addrs)
    && (forall c :: 0 <= c < s.sb.bmapstart ==> s'.blocks[c] == s.blocks[c])
    && (s.inodes[ino].addrs[NDIRECT] != 0 ==> s'.inodes[ino].addrs[NDIRECT] == s.inodes[ino].addrs[NDIRECT])
  }

  lemma GrewTrans(s: State, s1: State, s2: State, ino: nat)
    requires Inv(s) && Grew(s, s1, ino) && Grew(s1, s2, ino)
    ensures Grew(s, s2, ino)
  {
    hide Inv, SameFiles;
    SameFilesTrans(s, s1, s2);
    InvShape(s);
    InvShape(s1);
    InvShape(s2);
    SameFilesShape(s, s1);
    SameFilesShape(s1, s2);
  }

  lemma SameFilesShape(s: State, s': State)
    requires SameFiles(s, s')
    ensures Shape(s) && Shape(s') && |s'.inodes| == |s.inodes|
  {
  }

  lemma FilesKept(s: State, s': State)
    requires Inv(s) && Files(s) && Inv(s') && SameFiles(s, s')
    ensures Files(s')
  {
    hide Inv, FileOk, SameFile;
    InvShape(s);
    forall ino | 0 <= ino < |s'.inodes| ensures FileOk(s', ino) {
      assert SameFile(s, s', ino) && FileOk(s, ino);
      SameContents(s, s', ino);
    }
  }

  /** A fresh block becomes a direct block of the file. */
  lemma DirectGrew(s: State, ino: nat, bn: nat, b: nat)
    requires Inv(s) && Clean(s) && ino < |s.inodes| && bn < NDIRECT && Addr(s, ino, bn) == 0 && b < s.sb.size
             && b !in s.owner
    ensures Shape(Alloc(s, b)) && ino < |Alloc(s, b).inodes|
    ensures var s' := PlaceDirect(Alloc(s, b), ino, bn, b);
            Grew(s, s', ino) && Addr(s', ino, bn) == b && s'.blocks[b] == ZeroBlock()
  {
    hide Inv, SameFiles, Addr, Mark;
    InvShape(s);
    AllocOk(s, b);
    AllocShape(s, b);
    AllocAt(s, b, ino, bn);
    var s1 := Alloc(s, b);
    PlaceDirectOk(s1, ino, bn, b);
    SameFilesTrans(s, s1, PlaceDirect(s1, ino, bn, b));
  }

  /** A fresh block becomes the indirect table. */
  lemma TableGrew(s: State, ino: nat, b: nat)
    requires Inv(s) && Clean(s) && ino < |s.inodes| && s.inodes[ino].addrs[NDIRECT] == 0 && b < s.sb.size
             && b !in s.owner
    ensures Shape(Alloc(s, b)) && ino < |Alloc(s, b).inodes|
    ensures var s' := PlaceTable(Alloc(s, b), ino, b);
            && Grew(s, s', ino) && s'.inodes[ino].addrs[NDIRECT] == b != 0
            && forall bn {:trigger Addr(s', ino, bn)} :: 0 <= bn < MAXFILE ==> Addr(s', ino, bn) == Addr(s, ino, bn)
  {
    hide Inv, SameFiles, Addr, Mark;
    InvShape(s);
    AllocOk(s, b);
    AllocShape(s, b);
    var s1 := Alloc(s, b);
    var s' := PlaceTable(s1, ino, b);
    PlaceTableOk(s1, ino, b);
    SameFilesTrans(s, s1, s');
    SameFilesShape(s, s');
    forall bn | 0 <= bn < MAXFILE ensures Addr(s', ino, bn) == Addr(s, ino, bn) {
      AllocAt(s, b, ino, bn);
      TableAt(s1, ino, b, ino, bn);
    }
  }

  /** A fresh block becomes an entry of the indirect table. */
  lemma EntryGrew(s: State, ino: nat, j: nat, b: nat)
    requires Inv(s) && Clean(s) && ino < |s.inodes| && j < NINDIRECT && s.inodes[ino].addrs[NDIRECT] != 0
    requires Addr(s, ino, NDIRECT + j) == 0 && b < s.sb.size && b !in s.owner
    ensures Shape(Alloc(s, b)) && ino < |Alloc(s, b).inodes|
    ensures var s' := PlaceEntry(Alloc(s, b), ino, j, b);
            Grew(s, s', ino) && Addr(s', ino, NDIRECT + j) == b && s'.blocks[b] == ZeroBlock()
  {
    hide Inv, SameFiles, Addr, Mark, SetWord;
    InvShape(s);
    AllocOk(s, b);
    AllocShape(s, b);
    AllocAt(s, b, ino, NDIRECT + j);
    LinkAt(s, ino, 0);
    var s1 := Alloc(s, b);
    PlaceEntryOk(s1, ino, j, b);
    SameFilesTrans(s, s1, PlaceEntry(s1, ino, j, b));
  }

  function Max(a: nat, b: nat): nat { if a < b then b else a }

  /** Bit bi of the bitmap block for blocks b, b + 1, ... is block b + bi. */
  lemma BitIndex(b: nat, bi: nat)
    requires b % BPB == 0 && bi < BPB
    ensures (b + bi) / BPB == b / BPB && (b + bi) % BPB == bi && (b + bi) % 8 == bi % 8
  {
    var q := b / BPB;
    assert b == BPB * q;
    assert b + bi == 8 * (1024 * q) + bi;
  }

  ghost predicate UsedBelow(owner: map<nat, Slot>, n: nat) {
    forall c :: 0 <= c < n ==> c in owner
  }

  /** LoadTable() returned `t`. */
  ghost predicate Tabled(s: State, s': State, ino: nat, t: nat, before: set<nat>, after: set<nat>, marks: set<nat>) {
    && Shape(s) && Grew(s, s', ino) && Shape(s') && ino < |s'.inodes| && t == s'.inodes[ino].addrs[NDIRECT]
    && (t == 0 ==> UsedBelow(s'.owner, s.sb.size) && s' == s)
    && (s.inodes[ino].addrs[NDIRECT] != 0 ==> s' == s)
    && (forall bn {:trigger Addr(s', ino, bn)} :: 0 <= bn < MAXFILE ==> Addr(s', ino, bn) == Addr(s, ino, bn))
    && s.owner.Keys <= s'.owner.Keys
    && before <= after <= before + marks + TableSet(s', ino) && |marks| + Untabled(s', ino) <= Untabled(s, ino)
    && (s' == s ==> after == before) && (forall m :: m in marks ==> m < s.sb.nmeta)
  }

  lemma TabledFacts(s: State, s': State, ino: nat, t: nat, before: set<nat>, after: set<nat>, marks: set<nat>)
    requires Tabled(s, s', ino, t, before, after, marks)
    ensures Shape(s) && Shape(s') && ino < |s'.inodes| && ino < |s.inodes| && t == s'.inodes[ino].addrs[NDIRECT]
    ensures s.inodes[ino].addrs[NDIRECT] != 0 ==> s' == s && after == before
  {
  }

  lemma TabledNot(s: State, ino: nat, logged: set<nat>)
    requires Inv(s) && Clean(s) && ino < |s.inodes|
    requires s.inodes[ino].addrs[NDIRECT] == 0 ==> UsedBelow(s.owner, s.sb.size)
    ensures Tabled(s, s, ino, s.inodes[ino].addrs[NDIRECT], logged, logged, {})
  {
    hide Inv, SameFiles, Addr;
    InvShape(s);
    SameFilesRefl(s);
  }

  lemma TabledNew(s: State, ino: nat, t: nat, s': State, before: set<nat>, after: set<nat>)
    requires Inv(s) && Clean(s) && ino < |s.inodes| && s.inodes[ino].addrs[NDIRECT] == 0 && t < s.sb.size
             && t !in s.owner && t != 0
    requires Shape(Alloc(s, t)) && s' == PlaceTable(Alloc(s, t), ino, t)
    requires after == before + {s.sb.bmapstart + t / BPB, t}
    ensures Inv(s') && SameFiles(s, s') && Clean(s') && Tabled(s, s', ino, t, before, after, {s.sb.bmapstart + t / BPB})
  {
    hide Inv, SameFiles, Addr, Mark;
    InvShape(s);
    TableGrew(s, ino, t);
    BitmapBlock(s.sb, t);
    InvShape(s');
    SameFilesShape(s, s');
  }

  /** The disk is too full for the table, so the block stays missing. */
  lemma TableFull(s: State, s': State, ino: nat, bn: nat, before: set<nat>, after: set<nat>, marks: set<nat>)
    requires Tabled(s, s', ino, 0, before, after, marks) && Inv(s) && Clean(s) && NDIRECT <= bn < MAXFILE
    ensures Mapped(s, s', ino, bn, 0) && Effort(s, s', ino, bn, 0, before, after, {})
  {
    hide Inv, SameFiles;
    MappedNot(s, ino, bn, before);
  }

  lemma TableThenEntry(s: State, s1: State, s2: State, ino: nat, bn: nat, t: nat, r: nat, logged: set<nat>,
                       logged1: set<nat>, logged2: set<nat>, marks1: set<nat>, marks2: set<nat>)
    requires Inv(s) && Tabled(s, s1, ino, t, logged, logged1, marks1) && t != 0 && NDIRECT <= bn < MAXFILE
    requires Mapped(s1, s2, ino, bn, r) && Effort(s1, s2, ino, bn, r, logged1, logged2, marks2)
    ensures logged1 <= logged2 && Mapped(s, s2, ino, bn, r)
            && Effort(s, s2, ino, bn, r, logged, logged2, marks1 + marks2)
  {
    hide Inv, SameFiles, Addr, Grew;
    GrewTrans(s, s1, s2, ino);
    GrewTable(s, s1, ino);
    GrewTable(s1, s2, ino);
    if s.inodes[ino].addrs[NDIRECT] == 0 { NoTable(s, ino, bn); }
    UnionSize(marks1, marks2);
  }

  lemma GrewTable(s: State, s': State, ino: nat)
    requires Grew(s, s', ino) && Shape(s) && Shape(s') && ino < |s'.inodes|
    ensures s'.sb == s.sb && ino < |s.inodes|
    ensures s.inodes[ino].addrs[NDIRECT] != 0 ==> s'.inodes[ino].addrs[NDIRECT] == s.inodes[ino].addrs[NDIRECT]
  {
  }

  lemma NoTable(s: State, ino: nat, bn: nat)
    requires Shape(s) && ino < |s.inodes| && NDIRECT <= bn < MAXFILE && s.inodes[ino].addrs[NDIRECT] == 0
    ensures Addr(s, ino, bn) == 0
  {
  }

  lemma UnionSize(a: set<nat>, b: set<nat>)
    ensures |a + b| <= |a| + |b|
  {
    assert a + b == a + (b - a);
    SubsetSize(b - a, b);
  }

  lemma AddrEntry(s: State, ino: nat, j: nat)
    requires Shape(s) && ino < |s.inodes| && j < NINDIRECT && s.inodes[ino].addrs[NDIRECT] != 0
    ensures Addr(s, ino, NDIRECT + j) == Word(s.blocks[s.inodes[ino].addrs[NDIRECT]], j)
  {
  }

  lemma PlacedEntry(s: State, ino: nat, j: nat, b: nat, s': State, before: set<nat>, after: set<nat>)
    requires Inv(s) && Clean(s) && ino < |s.inodes| && j < NINDIRECT && s.inodes[ino].addrs[NDIRECT] != 0
    requires Addr(s, ino, NDIRECT + j) == 0 && b < s.sb.size && b !in s.owner && b != 0
    requires Shape(Alloc(s, b)) && s' == PlaceEntry(Alloc(s, b), ino, j, b)
    requires after == before + {s.sb.bmapstart + b / BPB, b} + {s.inodes[ino].addrs[NDIRECT]}
    ensures Inv(s') && SameFiles(s, s') && Clean(s') && Mapped(s, s', ino, NDIRECT + j, b)
    ensures Effort(s, s', ino, NDIRECT + j, b, before, after, {s.sb.bmapstart + b / BPB})
  {
    hide Inv, SameFiles, Addr, Alloc, PlaceEntry;
    InvShape(s);
    EntryGrew(s, ino, j, b);
    BitmapBlock(s.sb, b);
    InvShape(s');
    SameFilesShape(s, s');
  }

  /** bmap() returned `r` for block `bn`: 0 exactly when the block is still missing and the disk is
      full; a block that was there stays, a new one is zero. */
  ghost predicate Mapped(s: State, s': State, ino: nat, bn: nat, r: nat) {
    && Shape(s) && Grew(s, s', ino) && Shape(s') && ino < |s'.inodes| && bn < MAXFILE && r == Addr(s', ino, bn)
    && (r == 0 ==> UsedBelow(s'.owner, s.sb.size))
    && (Addr(s, ino, bn) != 0 ==> s' == s)
    && (Addr(s, ino, bn) == 0 && r != 0 ==> r !in s.owner && r < |s'.blocks| && s'.blocks[r] == ZeroBlock())
  }

  /** 1 while the file has no indirect table */
  ghost function Untabled(s: State, ino: nat): nat
    requires Shape(s) && ino < |s.inodes|
  {
    if s.inodes[ino].addrs[NDIRECT] == 0 then 1 else 0
  }

  ghost function TableSet(s: State, ino: nat): set<nat>
    requires Shape(s) && ino < |s.inodes|
  {
    if s.inodes[ino].addrs[NDIRECT] == 0 then {} else {s.inodes[ino].addrs[NDIRECT]}
  }

  /** Blocks logged by bmap(): bitmap blocks `marks`, the block itself and the table. */
  ghost predicate Effort(s: State, s': State, ino: nat, bn: nat, r: nat, before: set<nat>, after: set<nat>,
                         marks: set<nat>)
  {
    && Shape(s) && Shape(s') && ino < |s.inodes| && ino < |s'.inodes| && bn < MAXFILE
    && before <= after <= before + marks + {r} + TableSet(s', ino)
    && |marks| + Untabled(s', ino) <= (if Addr(s, ino, bn) == 0 then 1 else 0) + Untabled(s, ino)
    && (Addr(s, ino, bn) != 0 ==> after == before) && (Addr(s, ino, bn) == 0 && r != 0 ==> r in after)
    && (forall m :: m in marks ==> m < s.sb.nmeta)
  }

  lemma AddrDirect(s: State, ino: nat, bn: nat)
    requires Shape(s) && ino < |s.inodes| && bn < NDIRECT
    ensures Addr(s, ino, bn) == s.inodes[ino].addrs[bn]
  {
  }

  lemma MappedNot(s: State, ino: nat, bn: nat, logged: set<nat>)
    requires Inv(s) && Clean(s) && ino < |s.inodes| && bn < MAXFILE
    requires Addr(s, ino, bn) == 0 ==> UsedBelow(s.owner, s.sb.size)
    ensures Mapped(s, s, ino, bn, Addr(s, ino, bn)) && Effort(s, s, ino, bn, Addr(s, ino, bn), logged, logged, {})
  {
    hide Inv, SameFiles, Addr;
    InvShape(s);
    SameFilesRefl(s);
  }

  lemma PlacedDirect(s: State, ino: nat, bn: nat, b: nat, s': State, before: set<nat>, after: set<nat>)
    requires Inv(s) && Clean(s) && ino < |s.inodes| && bn < NDIRECT && Addr(s, ino, bn) == 0 && b < s.sb.size
             && b !in s.owner && b != 0
    requires Shape(Alloc(s, b)) && s' == PlaceDirect(Alloc(s, b), ino, bn, b)
    requires after == before + {s.sb.bmapstart + b / BPB, b}
    ensures Inv(s') && SameFiles(s, s') && Clean(s') && Mapped(s, s', ino, bn, b)
    ensures Effort(s, s', ino, bn, b, before, after, {s.sb.bmapstart + b / BPB})
  {
    hide Inv, SameFiles, Addr, Alloc, PlaceDirect;
    InvShape(s);
    DirectGrew(s, ino, bn, b);
    BitmapBlock(s.sb, b);
    InvShape(s');
    SameFilesShape(s, s');
  }

  lemma AllocFields(s: State, x: nat)
    requires Shape(s) && x < s.sb.size
    ensures s.sb.bmapstart + x / BPB < |s.blocks|
    ensures var bb, i := s.sb.bmapstart + x / BPB, x % BPB / 8;
            Alloc(s, x) == s.(blocks := s.blocks[bb := s.blocks[bb][i := Raised(s.blocks[bb][i], x % 8)]][x :=
                ZeroBlock()], owner := s.owner[x := Loose])
  {
    hide Raised;
    BitmapBlock(s.sb, x);
  }

  lemma ReleaseFields(s: State, b: nat)
    requires Shape(s) && b < s.sb.size && b in s.owner
    ensures s.sb.bmapstart + b / BPB < |s.blocks| && b % BPB % 8 == b % 8
    ensures var bb, i := s.sb.bmapstart + b / BPB, b % BPB / 8; var bp := s.blocks[bb];
            Release(s, b) == s.(blocks := s.blocks[bb := bp[i := Lowered(bp[i], b % 8)]], owner := s.owner - {b},
                                stale := s.stale + {s.owner[b]})
  {
    hide Lowered;
    BitmapBlock(s.sb, b);
  }

  lemma PeakTwo(peak: nat, logged: set<nat>, x: nat, y: nat)
    ensures Max(Max(peak, |logged|), |logged + {x}|) <= Max(peak, |logged + {x} + {y}|)
    ensures logged + {x} + {y} == logged + {x, y}
  {
    SubsetSize(logged, logged + {x} + {y});
    SubsetSize(logged + {x}, logged + {x} + {y});
  }

  lemma SameFilesRefl(s: State)
    requires Shape(s)
    ensures SameFiles(s, s)
  {
    forall ino | 0 <= ino < |s.inodes| ensures SameFile(s, s, ino) {
      forall bn | 0 <= bn < MAXFILE ensures SameBlock(s, s, ino, bn) {
      }
    }
  }
}
