/** The physical page allocator of kernel/kalloc.c, run by one caller at a time.
    (KallocRace.dfy treats concurrent callers and kfree()'s unlocked window.) */
module Kalloc {
  import opened Sv39
  import opened Frames

  class Kmem {
    var freelist: seq<nat>
    var refcnt: map<nat, nat>
    var data: map<nat, Page>

    ghost predicate Valid()
      reads this
    {
      FreeListOk(refcnt, data, freelist)
    }

    /** kinit(): freerange() gives every frame in lo..hi one reference and frees it. */
    constructor (lo: nat, hi: nat)
      requires 0 < lo <= hi
      ensures Valid()
      ensures forall f :: f in refcnt <==> lo <= f < hi
      ensures |freelist| == hi - lo && forall f :: lo <= f < hi ==> refcnt[f] == 0
    {
      freelist, refcnt, data := [], map[], map[];
      new;
      var p := lo;
      while p < hi
        invariant lo <= p <= hi && Valid()
        invariant forall f :: f in refcnt <==> lo <= f < p
        invariant |freelist| == p - lo && forall f :: lo <= f < p ==> refcnt[f] == 0
      {
        refcnt, data := refcnt[p := 1], data[p := Fill(0)];
        Kfree(p);
        p := p + 1;
      }
    }

    method Increse(f: nat)
      requires Valid() && f in refcnt && refcnt[f] >= 1
      modifies this`refcnt
      ensures Valid() && refcnt == old(refcnt)[f := old(refcnt[f]) + 1]
    {
      refcnt := refcnt[f := refcnt[f] + 1];
    }

    method Kfree(f: nat)
      requires f in refcnt && refcnt[f] >= 1
      requires FreeListOk(refcnt, data, freelist)
      modifies this
      ensures Valid()
      ensures refcnt == old(refcnt)[f := old(refcnt[f]) - 1]
      ensures old(refcnt[f]) > 1 ==> data == old(data) && freelist == old(freelist)
      ensures old(refcnt[f]) == 1 ==> data == old(data)[f := Fill(1)] && freelist == [f] + old(freelist)
    {
      refcnt := refcnt[f := refcnt[f] - 1];
      var tmp := refcnt[f];
      if tmp > 0 {
        return;
      }
      data := data[f := Fill(1)];
      freelist := [f] + freelist;
    }

    /** Returns 0 when there is no memory. */
    method Kalloc() returns (f: nat)
      requires Valid()
      modifies this
      ensures Valid()
      ensures old(freelist) == [] ==> f == 0 && unchanged(this)
      ensures old(freelist) != [] ==>
                && f == old(freelist)[0] && f != 0 && freelist == old(freelist)[1..]
                && old(refcnt[f]) == 0 && refcnt == old(refcnt)[f := 1] && data == old(data)[f := Fill(5)]
    {
      if freelist == [] {
        return 0;
      }
      f := freelist[0];
      ghost var m := Mem(map[], map[], refcnt, data, map[], freelist);
      TakeFreeList(m);
      assert f in freelist;
      assert refcnt[f] == 0;               // panic("refcnt kalloc") is unreachable
      refcnt := refcnt[f := 1];
      freelist := freelist[1..];
      data := data[f := Fill(5)];
    }
  }
}
