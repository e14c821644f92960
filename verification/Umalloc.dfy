/** user/umalloc.c in place: the ptr and size fields of the headers, and the roving pointer freep. */
module Umalloc {
  import opened Common
  import opened FreeList

  const HEADER: nat := 16                // sizeof(Header)

  function Next(n: nat, k: nat): (i: nat)
    requires k < n
    ensures i < n
  {
    if k + 1 < n then k + 1 else 0
  }

  /** The ptr fields connect the ring. */
  ghost predicate Link(ring: seq<nat>, ptr: map<nat, nat>, i: nat)
    requires i < |ring|
  {
    ring[i] in ptr && ptr[ring[i]] == ring[Next(|ring|, i)]
  }

  ghost predicate Linked(ring: seq<nat>, ptr: map<nat, nat>) {
    forall i {:trigger Link(ring, ptr, i)} :: 0 <= i < |ring| ==> Link(ring, ptr, i)
  }

  // ----- free() relinks -----

  ghost function Relinked(s: State, ptr: map<nat, nat>, b: nat, j: nat): map<nat, nat>
    requires Inv(s) && b in s.live && Place(s, b, j) && Linked(s.ring, ptr)
  {
    var p := s.ring[j];
    assert Link(s.ring, ptr, j);
    assert Upper(s, b, j) ==> Link(s.ring, ptr, j + 1);
    var after := if Upper(s, b, j) then ptr[ptr[p]] else ptr[p];
    if Lower(s, b, j) then ptr[b := after][p := after] else ptr[b := after][p := b]
  }

  lemma RelinkedOk(s: State, ptr: map<nat, nat>, b: nat, j: nat)
    requires Inv(s) && b in s.live && Place(s, b, j) && Linked(s.ring, ptr)
    ensures Linked(NewRing(s, b, j), Relinked(s, ptr, b, j))
    ensures j < |NewRing(s, b, j)| && NewRing(s, b, j)[j] == s.ring[j]
  {
    hide Owns, OwnOk;
    var ring, ptr' := NewRing(s, b, j), Relinked(s, ptr, b, j);
    LoNotLive(s, b, j);
    forall i | 0 <= i < |ring| ensures Link(ring, ptr', i) {
      RelinkedAt(s, ptr, b, j, i);
    }
  }

  lemma RingDistinct(s: State, i: nat, k: nat)
    requires Inv(s) && i < |s.ring| && k < |s.ring| && i != k
    ensures s.ring[i] != s.ring[k]
  {
    hide Owns, OwnOk;
    if i < k { assert s.ring[i] < s.ring[k]; } else { assert s.ring[k] < s.ring[i]; }
  }

  /** Before the place: links as they were. */
  lemma RelinkedBefore(s: State, ptr: map<nat, nat>, b: nat, j: nat, i: nat)
    requires Inv(s) && b in s.live && Place(s, b, j) && Linked(s.ring, ptr) && i < j
    ensures i < |NewRing(s, b, j)| && Link(NewRing(s, b, j), Relinked(s, ptr, b, j), i)
  {
    hide Owns, OwnOk, RingOk, Lower, Upper, Sorted;
    SortedSkip(s, b, 0);
    assert Link(s.ring, ptr, i);
    RingDistinct(s, i, j);
    PlaceKept(s, b, j);
  }

  lemma PlaceKept(s: State, b: nat, j: nat)
    requires Inv(s) && b in s.live && Place(s, b, j)
    ensures j < |NewRing(s, b, j)| && NewRing(s, b, j)[j] == s.ring[j]
    ensures forall i :: 0 <= i < j ==> NewRing(s, b, j)[i] == s.ring[i]
  {
    hide Owns, OwnOk, RingOk, Upper, Sorted;
  }

  /** At the place: to the block freed, or past it if it was joined. */
  lemma RelinkedHere(s: State, ptr: map<nat, nat>, b: nat, j: nat)
    requires Inv(s) && b in s.live && Place(s, b, j) && Linked(s.ring, ptr)
    ensures j < |NewRing(s, b, j)| && Link(NewRing(s, b, j), Relinked(s, ptr, b, j), j)
  {
    hide Owns, OwnOk, RingOk, Sorted;
    PlaceKept(s, b, j);
    assert Link(s.ring, ptr, j);
    assert Upper(s, b, j) ==> Link(s.ring, ptr, j + 1);
  }

  /** The block freed, when it keeps a header of its own. */
  lemma RelinkedFreed(s: State, ptr: map<nat, nat>, b: nat, j: nat)
    requires Inv(s) && b in s.live && Place(s, b, j) && Linked(s.ring, ptr) && !Lower(s, b, j)
    ensures j + 1 < |NewRing(s, b, j)| && Link(NewRing(s, b, j), Relinked(s, ptr, b, j), j + 1)
  {
    hide Owns, OwnOk, RingOk, Sorted;
    SortedSkip(s, b, 0);
    assert Link(s.ring, ptr, j);
    assert Upper(s, b, j) ==> Link(s.ring, ptr, j + 1);
  }

  lemma AfterPlace(s: State, b: nat, j: nat, i: nat)
    requires Inv(s) && b in s.live && Place(s, b, j) && From(s, b, j) < i < |NewRing(s, b, j)|
    ensures var k, n, m := i - From(s, b, j) - 1 + To(s, b, j), |s.ring|, |NewRing(s, b, j)|;
            && j < k < n && NewRing(s, b, j)[i] == s.ring[k] && (i + 1 < m <==> k + 1 < n)
                && (i + 1 < m ==> NewRing(s, b, j)[i + 1] == s.ring[k + 1])
            && NewRing(s, b, j)[0] == s.ring[0]
  {
    hide Owns, OwnOk, Upper, Sorted;
    LoNotLive(s, b, j);
  }

  /** Behind the place: links as they were. */
  lemma RelinkedAfter(s: State, ptr: map<nat, nat>, b: nat, j: nat, i: nat)
    requires Inv(s) && b in s.live && Place(s, b, j) && Linked(s.ring, ptr) && From(s, b, j) < i < |NewRing(s, b, j)|
    ensures Link(NewRing(s, b, j), Relinked(s, ptr, b, j), i)
  {
    hide Owns, OwnOk, RingOk, Lower, Upper, Sorted, NewRing, From, To;
    SortedSkip(s, b, 0);
    AfterPlace(s, b, j, i);
    var k := i - From(s, b, j) - 1 + To(s, b, j);
    assert Link(s.ring, ptr, k);
    RingDistinct(s, k, j);
  }

  lemma RelinkedAt(s: State, ptr: map<nat, nat>, b: nat, j: nat, i: nat)
    requires Inv(s) && b in s.live && Place(s, b, j) && Linked(s.ring, ptr) && i < |NewRing(s, b, j)|
    ensures Link(NewRing(s, b, j), Relinked(s, ptr, b, j), i)
  {
    hide Inv, Linked, NewRing, Relinked, Link;
    if i < j {
      RelinkedBefore(s, ptr, b, j, i);
    } else if i == j {
      RelinkedHere(s, ptr, b, j);
    } else if i > From(s, b, j) {
      RelinkedAfter(s, ptr, b, j, i);
    } else {
      RelinkedFreed(s, ptr, b, j);
    }
  }

  // ----- cyclic order from freep -----

  /** The index reached `t` steps after the one behind `at`. */
  function Cyc(n: nat, at: nat, t: nat): (i: nat)
    requires at < n && t < n
    ensures i < n
  {
    if at + 1 + t < n then at + 1 + t else at + 1 + t - n
  }

  /** Blocks visited so far are too small. */
  ghost predicate Small(s: State, at: nat, t: nat, n: nat)
    requires Sized(s)
  {
    at < |s.ring| && t <= |s.ring| && forall k :: 0 <= k < t ==> s.size[s.ring[Cyc(|s.ring|, at, k)]] < n
  }

  ghost predicate Fits(s: State, i: nat, n: nat)
    requires Sized(s)
  {
    1 <= i < |s.ring| && s.size[s.ring[i]] >= n
  }

  lemma AllSmall(s: State, at: nat, n: nat, i: nat)
    requires Inv(s) && Small(s, at, |s.ring|, n) && i < |s.ring|
    ensures s.size[s.ring[i]] < n
  {
    hide Owns, OwnOk, Sorted;
    var t := if i > at then i - at - 1 else i + |s.ring| - at - 1;
    assert Cyc(|s.ring|, at, t) == i;
  }

  /** (nbytes + sizeof(Header) - 1) / sizeof(Header) + 1 */
  function Units(nbytes: nat): (n: nat)
    ensures n >= 1 && (n - 1) * HEADER >= nbytes && (n > 1 ==> (n - 2) * HEADER < nbytes)
  {
    (nbytes + HEADER - 1) / HEADER + 1
  }

  function Max(a: nat, b: nat): nat { if a < b then b else a }

  /** A 64-bit value passed as the int argument of sbrk(). */
  function AsInt(x: nat): int {
    var y := x % 0x1_0000_0000;
    if y < 0x8000_0000 then y else y - 0x1_0000_0000
  }

  /** The request reaches sbrk() unchanged exactly up to this size. */
  lemma SbrkArgument(nbytes: nat)
    requires nbytes < 0x1_0000_0000
    ensures AsInt(Max(Units(nbytes), 4096) * HEADER) == Max(Units(nbytes), 4096) * HEADER <==> nbytes <= 0x7FFF_FFE0
  {
  }

  /** A request just above the limit asks sbrk() for a negative amount. */
  lemma SbrkNegative()
    ensures AsInt(Max(Units(0x7FFF_FFE1), 4096) * HEADER) == -0x8000_0000
  {
  }

  class Allocator {
    var ptr: map<nat, nat>
    var size: map<nat, nat>
    var freep: nat
    var ready: bool                        // freep != 0
    ghost var ring: seq<nat>
    ghost var live: set<nat>
    ghost var own: map<nat, nat>
    ghost var at: nat

    ghost function S(): State
      reads this
    {
      State(ring, size, live, own)
    }

    ghost predicate Valid()
      reads this
    {
      if ready then Inv(S()) && Linked(ring, ptr) && at < |ring| && ring[at] == freep
      else live == {} && own == map[]
    }

    constructor ()
      ensures Valid() && !ready
    {
      ptr, size, freep, ready := map[], map[], 0, false;
      ring, live, own, at := [], {}, map[], 0;
    }

    /** The search of free(): the free block behind which `bp` belongs. */
    method FindPlace(bp: nat) returns (p: nat, ghost j: nat)
      requires Valid() && ready && bp in live
      ensures Place(S(), bp, j) && p == ring[j]
    {
      hide Owns, OwnOk;
      ghost var goal := PlaceOf(S(), bp);
      p, j := freep, at;
      assert Link(ring, ptr, j);
      while !(bp > p && bp < ptr[p])
        invariant j < |ring| && p == ring[j] && Link(ring, ptr, j)
        decreases if j <= goal then goal - j else |ring| - j + goal
      {
        AtPlace(S(), bp, goal, j);
        if p >= ptr[p] && (bp > p || bp < ptr[p]) {
          break;
        }
        p := ptr[p];
        j := Next(|ring|, j);
        assert Link(ring, ptr, j);
      }
    }

    /** free() of the block with header `bp` (the pointer passed, less one) */
    method Free(bp: nat) returns (ghost j: nat)
      requires Valid() && ready && bp in live
      modifies this
      ensures Valid() && ready && Place(old(S()), bp, j) && S() == Freed(old(S()), bp, j)
      ensures own.Keys == old(own.Keys) && live == old(live) - {bp}
      ensures forall u: nat :: FreeList.Free(S(), u) <==> FreeList.Free(old(S()), u) || (bp <= u < bp + old(size)[bp])
      ensures freep == old(ring)[j]
    {
      hide Inv, Place, Lower, Upper, Start, End, NewRing, Relinked, Linked, FreeList.Free;
      var p;
      p, j := FindPlace(bp);
      FreedOk(S(), bp, j);
      RelinkedOk(S(), ptr, bp, j);
      FreeFields(S(), ptr, bp, j);
      FreedMaps(S(), ptr, bp, j);
      if bp + size[bp] == ptr[p] {
        size := size[bp := size[bp] + size[ptr[p]]];
        ptr := ptr[bp := ptr[ptr[p]]];
      } else {
        ptr := ptr[bp := ptr[p]];
      }
      if p + size[p] == bp {
        size := size[p := size[p] + size[bp]];
        ptr := ptr[p := ptr[bp]];
      } else {
        ptr := ptr[p := bp];
      }
      freep := p;
      ring, own, live := NewRing(old(S()), bp, j), Reown(own, Start(old(S()), bp, j), End(old(S()), bp, j)),
          live - {bp};
      at := j;
    }

    /** morecore(): false if sbrk() fails; `more` is where the new memory lies. */
    method Morecore(n: nat, more: Option<nat>) returns (ok: bool, ghost asked: int)
      requires Valid() && ready && n >= 1 && (more.Some? ==> more.value > BASE && forall u :: u in own ==>
                 u < more.value)
      modifies this
      ensures Valid() && ready && ok == more.Some? && live == old(live) && asked == AsInt(Max(n, 4096) * HEADER)
      ensures !ok ==> S() == old(S()) && freep == old(freep) && at == old(at)
      ensures ok ==> Sized(S()) && !Tight(S(), n)
      ensures ok ==> forall u: nat :: FreeList.Free(S(), u) <==>
                FreeList.Free(old(S()), u) || (more.value <= u < more.value + Max(n, 4096))
      ensures ok ==> forall u: nat :: u in own <==> u in old(own) || (more.value <= u < more.value + Max(n, 4096))
      ensures ok ==> forall a :: a in live ==> a in size && a in old(size) && size[a] == old(size)[a]
    {
      hide Inv, FreeList.Free, Place, Freed, Linked;
      var nu := n;
      if nu < 4096 {
        nu := 4096;
      }
      asked := AsInt(nu * HEADER);
      if more.None? {
        return false, asked;
      }
      var hp := more.value;
      GrownOk(S(), hp, nu);
      size := size[hp := nu];
      live, own := live + {hp}, own + Run(hp, nu);
      ghost var s1 := S();
      assert s1 == Grown(old(S()), hp, nu);
      ghost var j := Free(hp);
      FreedFits(s1, hp, j, n);
      FreedSizes(s1, hp, j);
      GrownSizes(old(S()), hp);
      return true, asked;
    }

    /** The search of malloc(), from behind freep once around. */
    method FindFit(n: nat) returns (found: bool, prevp: nat, p: nat, ghost i: nat, ghost t: nat)
      requires Valid() && ready && n >= 1
      ensures i < |ring| && p == ring[i] && Sized(S()) && t < |ring| && i == Cyc(|ring|, at, t) && Small(S(), at, t, n)
      ensures found ==> Fits(S(), i, n) && prevp == ring[i - 1]
      ensures !found ==> Small(S(), at, |ring|, n) && p == freep
    {
      hide Owns, OwnOk, Sorted;
      prevp := freep;
      assert Link(ring, ptr, at);
      p := ptr[prevp];
      t, i := 0, Next(|ring|, at);
      while true
        invariant t < |ring| && i == Cyc(|ring|, at, t) && p == ring[i] && Small(S(), at, t, n)
        invariant Link(ring, ptr, i) && prevp == ring[if i == 0 then |ring| - 1 else i - 1]
        decreases |ring| - t
      {
        if size[p] >= n {
          return true, prevp, p, i, t;
        }
        SmallStep(S(), at, t, n);
        if p == freep {
          if i != at { RingDistinct(S(), i, at); }
          return false, prevp, p, i, t;
        }
        prevp := p;
        p := ptr[p];
        i, t := Next(|ring|, i), t + 1;
        assert Link(ring, ptr, i);
      }
    }

    /** Takes `n` units from the free block `p` behind `prevp`. */
    method Carve(prevp: nat, p: nat, n: nat, ghost i: nat) returns (hp: nat)
      requires Valid() && ready && n >= 1 && Sized(S()) && Fits(S(), i, n) && p == ring[i] && prevp == ring[i - 1]
      modifies this
      ensures Inv(old(S())) && S() == Carved(old(S()), i, n) && hp == Taken(old(S()), i, n) && Valid() && ready
              && freep == prevp
      ensures hp !in old(live) && live == old(live) + {hp} && own.Keys == old(own.Keys) && hp in size && size[hp] == n
      ensures p in old(size) && hp + n == p + old(size)[p]
      ensures forall a :: a in old(live) ==> a in size && a in old(size) && size[a] == old(size)[a]
      ensures forall u: nat :: FreeList.Free(S(), u) <==> FreeList.Free(old(S()), u) && !(hp <= u < hp + n)
    {
      hide Inv, RingOk, FreeList.Free, Linked, Carved;
      CarvedOk(S(), i, n);
      CarvedFields(S(), i, n);
      hp := p;
      if size[p] == n {
        UnlinkOk(S(), ptr, i);
        ptr := ptr[prevp := ptr[p]];
        ring := ring[..i] + ring[i + 1..];
        live := live + {hp};
      } else {
        size := size[p := size[p] - n];
        hp := hp + size[p];
        size := size[hp := n];
        live, own := live + {hp}, Reown(own, hp, hp + n);
      }
      freep, at := prevp, i - 1;
    }

    /** The first call: an empty list of just the static header. */
    method Begin()
      requires Valid() && !ready
      modifies this
      ensures Valid() && ready && live == {} && own == map[] && ring == [BASE]
    {
      ptr, size := ptr[BASE := BASE], size[BASE := 0];
      freep, ready := BASE, true;
      ring, at := [BASE], 0;
      assert Link(ring, ptr, 0);
    }

    /** malloc(): 0, or the address behind the header.  `more` is what sbrk() would return; `grew` says
        that it was called, which happens at most once, and `asked` for how many bytes.  `own` is what
        malloc() takes for its own: of a request too large for sbrk()'s argument, more than it asked for. */
    method Malloc(nbytes: nat, more: Option<nat>) returns (r: nat, ghost grew: bool, ghost asked: int)
      requires Valid() && nbytes < 0x1_0000_0000 && (more.Some? ==> more.value > BASE && forall u :: u in own ==>
                 u < more.value)
      modifies this
      ensures Valid() && ready && (r == 0 <==> grew && more.None?)
      ensures r == 0 ==> live == old(live) && own == old(own) && (old(ready) ==> S() == old(S()))
      ensures old(ready) ==> Sized(old(S())) && (grew <==> Tight(old(S()), Units(nbytes)))
      ensures r != 0 ==>
                r - 1 !in old(live) && live == old(live) + {r - 1} && r - 1 in size && size[r - 1] == Units(nbytes)
      ensures forall a :: a in old(live) ==> a in size && a in old(size) && size[a] == old(size)[a]
      ensures forall u: nat :: u in own <==>
                u in old(own) || (grew && more.Some? && more.value <= u < more.value + Max(Units(nbytes), 4096))
      ensures r != 0 ==> forall u: nat :: r - 1 <= u < r - 1 + Units(nbytes) ==> u in own && own[u] == r - 1
      ensures grew ==> asked == AsInt(Max(Units(nbytes), 4096) * HEADER)
      ensures grew ==> (asked == Max(Units(nbytes), 4096) * HEADER <==> nbytes <= 0x7FFF_FFE0)
    {
      hide AsInt;
      hide Inv, FreeList.Free, Linked, Units, Carved, Taken, RingOk, Owns, OwnOk, Fits, Small;
      var n := Units(nbytes);
      if !ready {
        Begin();
      }
      ghost var s0 := S();
      GrownSizes(s0, 0);
      SbrkArgument(nbytes);
      grew, asked := false, 0;
      var found: bool, prevp: nat, p: nat;
      ghost var i: nat, t: nat;
      found, prevp, p, i, t := FindFit(n);
      NotFound(S(), at, n, i);
      while !found
        invariant Valid() && ready && live == s0.live && Sized(S())
        invariant found ==> Fits(S(), i, n) && 1 <= i < |ring| && p == ring[i] && prevp == ring[i - 1]
        invariant !found ==> Tight(S(), n)
        invariant if grew then more.Some? && !Tight(S(), n) && Tight(s0, n) else S() == s0 && (found ==> !Tight(s0, n))
        invariant forall u: nat :: u in own <==>
                    u in s0.own || (grew && more.Some? && more.value <= u < more.value + Max(n, 4096))
        invariant forall a :: a in s0.live ==> a in size && a in s0.size && size[a] == s0.size[a]
        invariant grew ==> asked == AsInt(Max(n, 4096) * HEADER)
        decreases if grew then 0 else 1
      {
        var ok;
        ok, asked := Morecore(n, more);
        grew := true;
        if !ok {
          return 0, grew, asked;
        }
        found, prevp, p, i, t := FindFit(n);
        NotFound(S(), at, n, i);
      }
      var hp := Carve(prevp, p, n, i);
      r := hp + 1;
      LiveOwns(S(), hp);
      OwnsAll(S(), hp);
    }
  }

  /** No free block has `n` units. */
  ghost predicate Tight(s: State, n: nat)
    requires Sized(s)
  {
    forall k :: 1 <= k < |s.ring| ==> s.size[s.ring[k]] < n
  }

  lemma NotFound(s: State, at: nat, n: nat, i: nat)
    requires Inv(s) && Sized(s)
    ensures Small(s, at, |s.ring|, n) ==> Tight(s, n)
    ensures Fits(s, i, n) ==> !Tight(s, n) && 1 <= i < |s.ring|
  {
    hide Owns, OwnOk, Sorted;
    if Small(s, at, |s.ring|, n) {
      forall k | 1 <= k < |s.ring| ensures s.size[s.ring[k]] < n { AllSmall(s, at, n, k); }
    }
  }

  lemma OwnsAll(s: State, a: nat)
    requires a in s.size && Owns(s, a)
    ensures forall u: nat :: a <= u < a + s.size[a] ==> u in s.own && s.own[u] == a
  {
  }

  lemma CarvedFields(s: State, i: nat, n: nat)
    requires Inv(s) && 1 <= i < |s.ring| && s.size[s.ring[i]] >= n >= 1
    ensures forall a :: a in s.live ==> a in s.size
    ensures var f := s.ring[i];
            if s.size[f] == n then
              Carved(s, i, n) == State(s.ring[..i] + s.ring[i + 1..], s.size, s.live + {f}, s.own)
              && (Carved(s, i, n).ring)[i - 1] == s.ring[i - 1]
            else
              var h := f + (s.size[f] - n);
              Carved(s, i, n) == State(s.ring, s.size[f := s.size[f] - n][h := n], s.live + {h}, Reown(s.own, h, h + n))
  {
    hide Owns, OwnOk, Sorted;
  }

  /** The predecessor's link skips the block taken whole. */
  lemma UnlinkOk(s: State, ptr: map<nat, nat>, i: nat)
    requires Inv(s) && Linked(s.ring, ptr) && 1 <= i < |s.ring|
    ensures s.ring[i] in ptr && Linked(s.ring[..i] + s.ring[i + 1..], ptr[s.ring[i - 1] := ptr[s.ring[i]]])
  {
    hide Owns, OwnOk, Sorted, RingOk;
    assert Link(s.ring, ptr, i) && Link(s.ring, ptr, i - 1);
    var ring, ptr' := s.ring[..i] + s.ring[i + 1..], ptr[s.ring[i - 1] := ptr[s.ring[i]]];
    forall k | 0 <= k < |ring| ensures Link(ring, ptr', k) {
      var m := if k < i then k else k + 1;
      assert Link(s.ring, ptr, m);
      if m != i - 1 { RingDistinct(s, m, i - 1); }
    }
  }

  lemma SmallStep(s: State, at: nat, t: nat, n: nat)
    requires Sized(s) && Small(s, at, t, n) && t < |s.ring| && s.size[s.ring[Cyc(|s.ring|, at, t)]] < n
    ensures Small(s, at, t + 1, n)
    ensures Cyc(|s.ring|, at, t) == at <==> t + 1 == |s.ring|
    ensures t + 1 < |s.ring| ==> Next(|s.ring|, Cyc(|s.ring|, at, t)) == Cyc(|s.ring|, at, t + 1)
  {
  }

  /** The block that free() leaves is at least as large as the one freed. */
  lemma FreedFits(s: State, b: nat, j: nat, n: nat)
    requires Inv(s) && b in s.live && Place(s, b, j) && s.size[b] >= n
    ensures Sized(Freed(s, b, j)) && !Tight(Freed(s, b, j), n)
  {
    hide Owns, OwnOk, Sorted, Lower, Upper;
    FreedRing(s, b, j);
    ExtentOrder(s, b, j);
    LoNotLive(s, b, j);
    var k := From(s, b, j);
    assert Freed(s, b, j).ring[k] == Start(s, b, j);
  }

  lemma FreedSizes(s: State, b: nat, j: nat)
    requires Inv(s) && b in s.live && Place(s, b, j)
    ensures forall a :: a in s.live && a != b ==>
              a in s.size && a in Freed(s, b, j).size && Freed(s, b, j).size[a] == s.size[a]
  {
    hide Owns, OwnOk, Sorted, Lower, Upper;
    LoNotLive(s, b, j);
  }

  lemma GrownSizes(s: State, a: nat)
    requires Inv(s)
    ensures forall b :: b in s.live ==> b in s.size
  {
  }

  lemma PlaceOf(s: State, b: nat) returns (j: nat)
    requires Inv(s) && b in s.live
    ensures Place(s, b, j)
  {
    hide Owns, OwnOk;
    SortedSkip(s, b, 0);
    j := 0;
    while j + 1 < |s.ring| && s.ring[j + 1] < b
      invariant j < |s.ring| && s.ring[j] < b
    {
      j := j + 1;
    }
  }

  /** At the right place the search stops; it stops nowhere else. */
  lemma AtPlace(s: State, b: nat, goal: nat, j: nat)
    requires Inv(s) && b in s.live && Place(s, b, goal) && j < |s.ring|
    ensures var p, q := s.ring[j], s.ring[Next(|s.ring|, j)];
            && (j == goal ==> (b > p && b < q) || (p >= q && (b > p || b < q)))
            && ((p >= q && (b > p || b < q)) ==> Place(s, b, j))
  {
    hide Owns, OwnOk;
    SortedSkip(s, b, 0);
  }

  lemma FreeFields(s: State, ptr: map<nat, nat>, b: nat, j: nat)
    requires Inv(s) && b in s.live && Place(s, b, j) && Linked(s.ring, ptr)
    ensures j < |s.ring| && b in s.size && s.ring[j] in s.size && s.ring[j] in ptr && ptr[s.ring[j]] in ptr
            && ptr[s.ring[j]] in s.size
    ensures s.ring[j] != b && ptr[s.ring[j]] != b
    ensures b + s.size[b] == ptr[s.ring[j]] <==> Upper(s, b, j)
    ensures s.ring[j] + s.size[s.ring[j]] == b <==> Lower(s, b, j)
  {
    hide Owns, OwnOk;
    SortedSkip(s, b, 0);
    assert Link(s.ring, ptr, j);
    assert Link(s.ring, ptr, Next(|s.ring|, j));
  }

  /** The header fields that free() writes, case by case. */
  lemma FreedMaps(s: State, ptr: map<nat, nat>, b: nat, j: nat)
    requires Inv(s) && b in s.live && Place(s, b, j) && Linked(s.ring, ptr)
    ensures j < |s.ring| && b in s.size && s.ring[j] in s.size && s.ring[j] in ptr && ptr[s.ring[j]] in ptr
            && ptr[s.ring[j]] in s.size
    ensures var p := s.ring[j];
            var size1 := if Upper(s, b, j) then s.size[b := s.size[b] + s.size[ptr[p]]] else s.size;
            var ptr1 := if Upper(s, b, j) then ptr[b := ptr[ptr[p]]] else ptr[b := ptr[p]];
            && Freed(s, b, j).size == (if Lower(s, b, j) then size1[p := size1[p] + size1[b]] else size1)
            && Relinked(s, ptr, b, j) == (if Lower(s, b, j) then ptr1[p := ptr1[b]] else ptr1[p := b])
            && Freed(s, b, j) == State(NewRing(s, b, j), Freed(s, b, j).size, s.live - {b},
                                       Reown(s.own, Start(s, b, j), End(s, b, j)))
  {
    hide Owns, OwnOk, NewRing;
    FreeFields(s, ptr, b, j);
    assert Link(s.ring, ptr, j);
  }
}
