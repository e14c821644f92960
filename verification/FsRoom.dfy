/** Free blocks against missing blocks: bmap() takes as many free blocks as the file gains. */
module FsRoom {
  import opened Sets
  import opened Blocks
  import opened Bitmap
  import opened Dinode
  import opened FsSpec
  import opened FsSteps
  import opened FsMap

  ghost function FreeSet(s: State): set<nat> {
    set b | 0 <= b < s.sb.size && b !in s.owner
  }

  /** Blocks lo .. hi of the file that are missing. */
  ghost function Holes(s: State, ino: nat, lo: nat, hi: nat): set<nat>
    requires Shape(s) && ino < |s.inodes| && hi <= MAXFILE
  {
    set bn | lo <= bn < hi && Addr(s, ino, bn) == 0
  }

  /** Blocks that have to be allocated before blocks lo .. hi of the file are all there. */
  ghost function Need(s: State, ino: nat, lo: nat, hi: nat): nat
    requires Shape(s) && ino < |s.inodes| && hi <= MAXFILE
  {
    |Holes(s, ino, lo, hi)| + if lo < hi && NDIRECT < hi then Untabled(s, ino) else 0
  }

  /** The disk has enough free blocks for that. */
  ghost predicate Room(s: State, ino: nat, lo: nat, hi: nat)
    requires Shape(s) && ino < |s.inodes| && hi <= MAXFILE
  {
    |FreeSet(s)| >= Need(s, ino, lo, hi)
  }

  /** Only blocks lo .. hi of the file, and the table for them, came to it, each from a free block. */
  ghost predicate Gains(s: State, s': State, ino: nat, lo: nat, hi: nat) {
    && Shape(s) && Shape(s') && ino < |s.inodes| && ino < |s'.inodes| && hi <= MAXFILE
    && (forall bn {:trigger Addr(s', ino, bn)} :: 0 <= bn < MAXFILE && (!(lo <= bn < hi) || Addr(s, ino, bn) != 0) ==>
          Addr(s', ino, bn) == Addr(s, ino, bn))
    && (!(lo < hi && NDIRECT < hi) ==> Untabled(s', ino) == Untabled(s, ino))
    && |FreeSet(s')| + Need(s, ino, lo, hi) == |FreeSet(s)| + Need(s', ino, lo, hi)
  }

  lemma GainsNone(s: State, ino: nat, lo: nat, hi: nat)
    requires Shape(s) && ino < |s.inodes| && hi <= MAXFILE
    ensures Gains(s, s, ino, lo, hi)
  {
  }

  lemma GainsTrans(s: State, s1: State, s2: State, ino: nat, lo: nat, hi: nat)
    requires Gains(s, s1, ino, lo, hi) && Gains(s1, s2, ino, lo, hi)
    ensures Gains(s, s2, ino, lo, hi)
  {
    hide Addr, FreeSet, Need, Shape;
    forall bn {:trigger Addr(s2, ino, bn)} | 0 <= bn < MAXFILE && (!(lo <= bn < hi) || Addr(s, ino, bn) != 0)
      ensures Addr(s2, ino, bn) == Addr(s, ino, bn)
    {
      assert Addr(s1, ino, bn) == Addr(s, ino, bn);
    }
  }

  /** The same over a larger range */
  lemma GainsWider(s: State, s': State, ino: nat, lo: nat, hi: nat, lo2: nat, hi2: nat)
    requires Gains(s, s', ino, lo, hi) && lo2 <= lo < hi <= hi2 <= MAXFILE
    ensures Gains(s, s', ino, lo2, hi2)
  {
    hide Addr, FreeSet, Shape;
    var a, b := Holes(s, ino, lo, hi), Holes(s', ino, lo, hi);
    var rest := Holes(s, ino, lo2, hi2) - a;
    forall bn {:trigger Addr(s', ino, bn)} | lo2 <= bn < hi2 ensures bn in rest <==>
        bn in Holes(s', ino, lo2, hi2) - b { }
    assert rest == Holes(s', ino, lo2, hi2) - b;
    Split(Holes(s, ino, lo2, hi2), a);
    Split(Holes(s', ino, lo2, hi2), b);
  }

  lemma Split(big: set<nat>, small: set<nat>)
    requires small <= big
    ensures |big| == |small| + |big - small|
  {
    assert big == small + (big - small);
  }

  /** A part of the range needs no more than the whole. */
  lemma NeedLess(s: State, ino: nat, lo: nat, hi: nat, lo2: nat, hi2: nat)
    requires Shape(s) && ino < |s.inodes| && lo2 <= lo && hi <= hi2 <= MAXFILE
    ensures Need(s, ino, lo, hi) <= Need(s, ino, lo2, hi2)
  {
    hide Addr;
    SubsetSize(Holes(s, ino, lo, hi), Holes(s, ino, lo2, hi2));
  }

  lemma NeedNone(s: State, ino: nat, lo: nat, hi: nat)
    requires Inv(s) && s.stale == {} && ino < |s.inodes| && hi <= MAXFILE
    requires forall bn {:trigger Addr(s, ino, bn)} :: lo <= bn < hi ==> Addr(s, ino, bn) != 0
    ensures Shape(s) && Need(s, ino, lo, hi) == 0
  {
    hide Inv;
    InvShape(s);
    assert Holes(s, ino, lo, hi) == {};
    if lo < hi && NDIRECT < hi && s.inodes[ino].addrs[NDIRECT] == 0 { NoTable(s, ino, hi - 1); }
  }

  lemma NeedSome(s: State, ino: nat, lo: nat, hi: nat, bn: nat)
    requires Shape(s) && ino < |s.inodes| && hi <= MAXFILE && lo <= bn < hi && Addr(s, ino, bn) == 0
    ensures Need(s, ino, lo, hi) > 0
  {
    assert bn in Holes(s, ino, lo, hi);
  }

  lemma FullIsEmpty(s: State)
    requires UsedBelow(s.owner, s.sb.size)
    ensures |FreeSet(s)| == 0
  {
    assert FreeSet(s) == {};
  }

  // ----- the three places where a block is allocated -----

  /** One block left the free set, one hole of the file or its missing table went. */
  lemma OneGained(s: State, s': State, ino: nat, lo: nat, hi: nat, b: nat, bn: nat)
    requires Shape(s) && Shape(s') && ino < |s.inodes| && ino < |s'.inodes| && lo <= bn < hi <= MAXFILE
    requires s'.sb == s.sb && b < s.sb.size && b !in s.owner && s'.owner.Keys == s.owner.Keys + {b}
    requires Addr(s, ino, bn) == 0 && Addr(s', ino, bn) != 0 && Untabled(s', ino) == Untabled(s, ino)
    requires forall k {:trigger Addr(s', ino, k)} :: 0 <= k < MAXFILE && k != bn ==> Addr(s', ino, k) == Addr(s, ino, k)
    ensures Gains(s, s', ino, lo, hi)
  {
    hide Addr, Shape;
    assert FreeSet(s) == FreeSet(s') + {b};
    assert Holes(s, ino, lo, hi) == Holes(s', ino, lo, hi) + {bn};
  }

  lemma TableGained(s: State, s': State, ino: nat, lo: nat, hi: nat, b: nat)
    requires Shape(s) && Shape(s') && ino < |s.inodes| && ino < |s'.inodes| && lo < hi <= MAXFILE && NDIRECT < hi
    requires s'.sb == s.sb && b < s.sb.size && b !in s.owner && s'.owner.Keys == s.owner.Keys + {b}
    requires Untabled(s, ino) == 1 && Untabled(s', ino) == 0
    requires forall k {:trigger Addr(s', ino, k)} :: 0 <= k < MAXFILE ==> Addr(s', ino, k) == Addr(s, ino, k)
    ensures Gains(s, s', ino, lo, hi)
  {
    hide Addr, Shape;
    assert FreeSet(s) == FreeSet(s') + {b};
    assert Holes(s, ino, lo, hi) == Holes(s', ino, lo, hi);
  }

  lemma DirectGains(s: State, s': State, ino: nat, bn: nat, b: nat)
    requires Inv(s) && Clean(s) && ino < |s.inodes| && bn < NDIRECT && Addr(s, ino, bn) == 0
    requires b < s.sb.size && b !in s.owner && b != 0 && Shape(Alloc(s, b))
             && s' == PlaceDirect(Alloc(s, b), ino, bn, b)
    ensures Gains(s, s', ino, bn, bn + 1)
  {
    hide Inv, Addr, Alloc, PlaceDirect;
    InvShape(s);
    var s1 := Alloc(s, b);
    PlacedOwner(s, s1, b);
    DirectFields(s1, s', ino, bn, b);
    forall k {:trigger Addr(s', ino, k)} | 0 <= k < MAXFILE
      ensures Addr(s', ino, k) == if k == bn then b else Addr(s, ino, k)
    {
      AllocAt(s, b, ino, k);
      DirectAt(s1, ino, bn, b, ino, k);
    }
    OneGained(s, s', ino, bn, bn + 1, b, bn);
  }

  lemma PlacedOwner(s: State, s1: State, b: nat)
    requires Inv(s) && b < s.sb.size && b !in s.owner && Shape(s) && s1 == Alloc(s, b)
    ensures Shape(s1) && s1.sb == s.sb && s1.inodes == s.inodes && s1.owner == s.owner[b := Loose]
            && s1.stale == s.stale
  {
    hide Inv;
    AllocShape(s, b);
  }

  lemma DirectFields(s1: State, s': State, ino: nat, bn: nat, b: nat)
    requires Shape(s1) && ino < |s1.inodes| && bn < NDIRECT && b < s1.sb.size && s' == PlaceDirect(s1, ino, bn, b)
    ensures Shape(s') && s'.sb == s1.sb && s'.owner == s1.owner[b := Data(ino, bn)] && |s'.inodes| == |s1.inodes|
    ensures s'.inodes[ino].addrs[NDIRECT] == s1.inodes[ino].addrs[NDIRECT]
  {
  }

  lemma TableGains(s: State, s': State, ino: nat, bn: nat, b: nat)
    requires Inv(s) && Clean(s) && ino < |s.inodes| && s.inodes[ino].addrs[NDIRECT] == 0 && NDIRECT <= bn < MAXFILE
    requires b < s.sb.size && b !in s.owner && b != 0 && Shape(Alloc(s, b)) && s' == PlaceTable(Alloc(s, b), ino, b)
    ensures Gains(s, s', ino, bn, bn + 1)
  {
    hide Inv, Addr, Alloc, PlaceTable;
    InvShape(s);
    var s1 := Alloc(s, b);
    PlacedOwner(s, s1, b);
    TableFields(s1, s', ino, b);
    TableGrew(s, ino, b);
    TableGained(s, s', ino, bn, bn + 1, b);
  }

  lemma TableFields(s1: State, s': State, ino: nat, b: nat)
    requires Shape(s1) && ino < |s1.inodes| && b < s1.sb.size && s' == PlaceTable(s1, ino, b)
    ensures Shape(s') && s'.sb == s1.sb && s'.owner == s1.owner[b := Table(ino)] && |s'.inodes| == |s1.inodes|
    ensures s'.inodes[ino].addrs[NDIRECT] == b
  {
  }

  lemma EntryGains(s: State, s': State, ino: nat, j: nat, b: nat)
    requires Inv(s) && Clean(s) && ino < |s.inodes| && j < NINDIRECT && s.inodes[ino].addrs[NDIRECT] != 0
    requires Addr(s, ino, NDIRECT + j) == 0 && b < s.sb.size && b !in s.owner && b != 0
    requires Shape(Alloc(s, b)) && s' == PlaceEntry(Alloc(s, b), ino, j, b)
    ensures Gains(s, s', ino, NDIRECT + j, NDIRECT + j + 1)
  {
    hide Inv, Addr, Alloc, PlaceEntry;
    InvShape(s);
    var s1 := Alloc(s, b);
    PlacedOwner(s, s1, b);
    AllocOk(s, b);
    EntryFields(s1, s', ino, j, b);
    forall k {:trigger Addr(s', ino, k)} | 0 <= k < MAXFILE
      ensures Addr(s', ino, k) == if k == NDIRECT + j then b else Addr(s, ino, k)
    {
      AllocAt(s, b, ino, k);
      EntryAt(s1, ino, j, b, ino, k);
    }
    OneGained(s, s', ino, NDIRECT + j, NDIRECT + j + 1, b, NDIRECT + j);
  }

  lemma EntryFields(s1: State, s': State, ino: nat, j: nat, b: nat)
    requires Shape(s1) && ino < |s1.inodes| && j < NINDIRECT && b < s1.sb.size && s' == PlaceEntry(s1, ino, j, b)
    ensures Shape(s') && s'.sb == s1.sb && s'.owner == s1.owner[b := Data(ino, NDIRECT + j)] && s'.inodes == s1.inodes
  {
  }

  /** Storing into a data block moves no block. */
  lemma StoreGains(s: State, s': State, ino: nat, bn: nat, d: Block, lo: nat, hi: nat)
    requires Inv(s) && s.stale == {} && ino < |s.inodes| && bn < MAXFILE && Addr(s, ino, bn) != 0 && LinkOk(s, ino, bn)
    requires s' == Store(s, ino, bn, d) && hi <= MAXFILE
    ensures Gains(s, s', ino, lo, hi)
  {
    hide Inv, Addr;
    InvShape(s);
    StoreOk(s, ino, bn, d);
    InvShape(s');
    forall k {:trigger Addr(s', ino, k)} | 0 <= k < MAXFILE ensures Addr(s', ino, k) == Addr(s, ino, k) {
      StoreAt(s, ino, bn, d, ino, k);
    }
    assert FreeSet(s') == FreeSet(s);
    assert Holes(s', ino, lo, hi) == Holes(s, ino, lo, hi);
  }

  /** The same blocks in the same places, and none taken or given back. */
  ghost predicate SameMap(s: State, s': State, ino: nat) {
    && Shape(s) && Shape(s') && ino < |s.inodes| && ino < |s'.inodes| && s'.sb == s.sb && s'.owner == s.owner
    && (forall bn {:trigger Addr(s', ino, bn)} :: 0 <= bn < MAXFILE ==> Addr(s', ino, bn) == Addr(s, ino, bn))
    && Untabled(s', ino) == Untabled(s, ino)
  }

  lemma SameMapGains(s: State, s': State, ino: nat, lo: nat, hi: nat)
    requires SameMap(s, s', ino) && hi <= MAXFILE
    ensures Gains(s, s', ino, lo, hi)
  {
    hide Addr, Shape;
    assert FreeSet(s') == FreeSet(s);
    assert Holes(s', ino, lo, hi) == Holes(s, ino, lo, hi);
  }

  /** Setting the size and writing the inode back moves no block. */
  lemma SavedMap(s: State, s1: State, s2: State, ino: nat, size: nat)
    requires Inv(s) && s.stale == {} && ino < |s.inodes| && size <= MAXBYTES
    requires Shape(s) && s1 == Resize(s, ino, size) && Shape(s1) && s2 == Save(s1, ino) && Shape(s2)
    ensures SameMap(s, s2, ino)
  {
    hide Inv, Put;
    LinkAt(s, ino, 0);
    forall bn {:trigger Addr(s2, ino, bn)} | 0 <= bn < MAXFILE ensures Addr(s2, ino, bn) == Addr(s, ino, bn) {
      AddrSame(s, s2, ino, bn);
    }
  }
}
