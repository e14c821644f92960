/** uvmalloc() and uvmdealloc() of kernel/vm.c. */
module Grow {
  import opened Common
  import opened Sets
  import opened Sv39
  import opened Frames
  import opened Kalloc
  import opened Vm
  import opened Cow
  import opened AddressSpace

  /** The frames of the first `n` pages. */
  ghost function Image(m: Mem, root: nat, n: nat): set<nat>
    requires n <= MAXVPN && forall v {:trigger Lookup(m.table, root, v)} :: 0 <= v < n ==>
               Lookup(m.table, root, v).Some?
  {
    if n == 0 then {} else Image(m, root, n - 1) + {Lookup(m.table, root, n - 1).value.ppn}
  }

  lemma {:induction false} ImageSize(m: Mem, root: nat, n: nat, frames: set<nat>)
    requires Injective(m, root) && n <= MAXVPN
    requires forall v {:trigger Lookup(m.table, root, v)} :: 0 <= v < n ==>
               Lookup(m.table, root, v).Some? && Lookup(m.table, root, v).value.ppn in frames
    ensures |Image(m, root, n)| == n && Image(m, root, n) <= frames
    ensures forall w {:trigger Lookup(m.table, root, w)} :: n <= w < MAXVPN && Lookup(m.table, root, w).Some? ==>
              Lookup(m.table, root, w).value.ppn !in Image(m, root, n)
  {
    hide Lookup;
    if n > 0 {
      ImageSize(m, root, n - 1, frames);
      assert Lookup(m.table, root, n - 1).Some?;
    }
  }

  /** A dense address space is smaller than physical memory while a frame is free. */
  lemma FewerPagesThanFrames(m: Mem, root: nat, n: nat)
    requires Ok(m) && Dense(m, root, n) && Injective(m, root) && m.free != []
    ensures n < |m.role|
  {
    hide Ok, Lookup, See;
    DenseLookup(m, root, n);
    FreeHead(m);
    var frames := m.role.Keys - {m.free[0]};
    forall v {:trigger Lookup(m.table, root, v)} | 0 <= v < n ensures Lookup(m.table, root, v).value.ppn in frames {
      SeeSome(m, root, v);
    }
    ImageSize(m, root, n, frames);
    Smaller(Image(m, root, n), m.role.Keys, m.free[0]);
  }

  lemma Smaller(a: set<nat>, b: set<nat>, x: nat)
    requires a <= b - {x} && x in b
    ensures |a| < |b|
  {
    SubsetSize(a, b - {x});
  }

  /** `n` fresh zero pages were added to `root` from page `a` on; nothing else shows a difference. */
  ghost predicate Extended(m: Mem, m': Mem, root: nat, a: nat, n: nat) {
    && m'.held == m.held && m'.role.Keys == m.role.Keys
    && (forall r :: IsRoot(m, r) <==> IsRoot(m', r))
    && (forall r, v {:trigger See(m', r, v)} :: IsRoot(m, r) && 0 <= v < MAXVPN ==>
          See(m', r, v) == if r == root && a <= v < a + n then Some(View(Fill(0), true)) else See(m, r, v))
    && (forall r, v {:trigger Lookup(m'.table, r, v)} ::
        IsRoot(m, r) && 0 <= v < MAXVPN && !(r == root && a <= v < a + n) ==>
          Lookup(m'.table, r, v) == Lookup(m.table, r, v))
  }

  lemma ExtendedNone(m: Mem, root: nat, a: nat)
    ensures Extended(m, m, root, a, 0)
  {
  }

  lemma ExtendedTrans(m0: Mem, m: Mem, m': Mem, root: nat, a: nat, n: nat)
    requires Extended(m0, m, root, a, n) && Extended(m, m', root, a + n, 1)
    ensures Extended(m0, m', root, a, n + 1)
  {
  }

  lemma ExtendedDense(m: Mem, m': Mem, root: nat, a: nat, n: nat)
    requires Dense(m, root, a) && Extended(m, m', root, a, n) && a + n <= MAXVPN
    ensures Dense(m', root, a + n)
  {
  }

  /** The entry uvmalloc() stores. */
  function UserPte(w: bool, x: bool): Pte { Pte(true, true, w, x, true, 0) }

  /** A zeroed frame just taken is mapped at page `a`. */
  lemma MappedFresh(m: Mem, n: Mem, m': Mem, g: nat, root: nat, a: nat, w: bool, x: bool)
    requires Ok(m) && m.free != [] && g == m.free[0] && Dense(m, root, a) && Injective(m, root) && a < MAXVPN
    requires n == Take(m).(data := Take(m).data[g := Fill(0)]) && Ok(n)
    requires Mapped(n, m', root, a, g, UserPte(w, x), 1) && CanMap(n, root, a, g, UserPte(w, x), 0)
    ensures Extended(m, m', root, a, 1) && Injective(m', root)
  {
    hide Ok, Lookup, LeafTable;
    FreeHead(m);
    forall r, v {:trigger See(m', r, v)} | IsRoot(m, r) && 0 <= v < MAXVPN
      ensures See(m', r, v) == if r == root && v == a then Some(View(Fill(0), true)) else See(m, r, v)
    {
      MappedSees(n, m', root, a, g, UserPte(w, x), 1, r, v);
      if Lookup(m.table, r, v).Some? { SeeSome(m, r, v); }
    }
    HeldAfterMap(m, n, m', root, a, g, UserPte(w, x));
    assert forall v {:trigger Lookup(m.table, root, v)} :: 0 <= v < MAXVPN && Lookup(m.table, root, v).Some? ==>
             Lookup(m.table, root, v).value.ppn != g by {
      forall v {:trigger Lookup(m.table, root, v)} | 0 <= v < MAXVPN && Lookup(m.table, root, v).Some?
        ensures Lookup(m.table, root, v).value.ppn != g
      {
        SeeSome(m, root, v);
      }
    }
  }

  lemma HeldAfterMap(m: Mem, n: Mem, m': Mem, root: nat, a: nat, g: nat, perm: Pte)
    requires n.held == Plus(m.held, g) && g in m.held && Mapped(n, m', root, a, g, perm, 1)
    ensures m'.held == m.held
  {
    forall f | f in m.held ensures f in m'.held && m'.held[f] == m.held[f] {
      assert m'.held[f] + (if g <= f < g + 1 then 1 else 0) == n.held[f];
    }
  }

  /** Every translation and every byte is as it was; only table pages may have been added. */
  ghost predicate Restored(m: Mem, m': Mem) {
    && m'.held == m.held && m'.role.Keys == m.role.Keys
    && (forall r :: IsRoot(m, r) <==> IsRoot(m', r))
    && (forall r, v {:trigger See(m', r, v)} :: IsRoot(m, r) && 0 <= v < MAXVPN ==> See(m', r, v) == See(m, r, v))
    && (forall r, v {:trigger Lookup(m'.table, r, v)} :: IsRoot(m, r) && 0 <= v < MAXVPN ==>
          Lookup(m'.table, r, v) == Lookup(m.table, r, v))
  }

  lemma RestoredRefl(m: Mem)
    ensures Restored(m, m)
  {
  }

  lemma RestoredKeeps(m: Mem, m': Mem, root: nat, n: nat)
    requires Restored(m, m') && Dense(m, root, n) && Injective(m, root)
    ensures Dense(m', root, n) && Injective(m', root)
  {
  }

  lemma ExtendedUndone(m0: Mem, m: Mem, m1: Mem, m2: Mem, root: nat, a: nat, n: nat)
    requires Ok(m0) && Ok(m1) && Ok(m2) && Dense(m0, root, a) && a + n <= MAXVPN
    requires Extended(m0, m, root, a, n) && Restored(m, m1) && Unmapped(m1, m2, root, a, n) && m2.held == m1.held
    ensures Restored(m0, m2)
  {
    hide Ok;
    UnmappedSees(m1, m2, root, a, n);
    forall r, v {:trigger Lookup(m2.table, r, v)} | IsRoot(m0, r) && 0 <= v < MAXVPN
      ensures Lookup(m2.table, r, v) == Lookup(m0.table, r, v)
    {
      if r == root && a <= v < a + n {
        NoneSeen(m0, root, a, v);
        if Lookup(m0.table, r, v).Some? { SeeSome(m0, r, v); }
      }
    }
    forall r, v {:trigger See(m2, r, v)} | IsRoot(m0, r) && 0 <= v < MAXVPN ensures See(m2, r, v) == See(m0, r, v) {
      if r == root && a <= v < a + n {
        assert !See(m0, root, v).Some?;
      }
    }
  }

  lemma NoneSeen(m: Mem, root: nat, n: nat, v: nat)
    requires Dense(m, root, n) && n <= v < MAXVPN
    ensures See(m, root, v) == None
  {
  }

  /** uvmdealloc() */
  method Uvmdealloc(vm: Mmu, root: nat, oldsz: nat, newsz: nat) returns (r: nat)
    requires vm.Valid() && IsRoot(vm.S(), root) && PageUp(oldsz) <= MAXVPN
    requires forall v :: PageUp(newsz) <= v < PageUp(oldsz) ==> Lookup(vm.table, root, v).Some?
    modifies vm, vm.k
    ensures vm.Valid() && vm.held == old(vm.held)
    ensures newsz >= oldsz ==> r == oldsz && vm.S() == old(vm.S())
    ensures newsz < oldsz ==> r == newsz && PageUp(newsz) <= PageUp(oldsz)
                              && Unmapped(old(vm.S()), vm.S(), root, PageUp(newsz), PageUp(oldsz) - PageUp(newsz))
  {
    hide Ok, Unmapped, Lookup;
    if newsz >= oldsz {
      return oldsz;
    }
    assert PageUp(newsz) <= PageUp(oldsz);
    UnmappedNone(vm.S(), root, PageUp(newsz));
    if PageUp(newsz) < PageUp(oldsz) {
      var npages := PageUp(oldsz) - PageUp(newsz);
      PageOfPage(PageUp(newsz));
      vm.Uvmunmap(root, PageUp(newsz) * PGSIZE, npages, true);
    }
    return newsz;
  }

  lemma PageOfPage(n: nat)
    ensures PageOf(n * PGSIZE) == n && (n * PGSIZE) % PGSIZE == 0 && PageUp(n * PGSIZE) == n
    ensures PageOf(n * PGSIZE + PGSIZE - 1) == n
  {
  }

  lemma DroppedFresh(m: Mem, n: Mem, n': Mem, g: nat, root: nat, a: nat, perm: Pte)
    requires Ok(m) && m.free != [] && g == m.free[0]
    requires n == Take(m).(data := Take(m).data[g := Fill(0)]) && Ok(n') && Mapped(n, n', root, a, g, perm, 0)
    ensures g in n'.held && n'.held[g] >= 1 && g in n'.refcnt && n'.refcnt[g] >= 1 && Restored(m, Drop(n', g))
  {
    hide Ok, LeafTable, Fill;
    FreeHead(m);
    assert g in n.role && n.role[g].Data? && g in n.refcnt && g in n.data;
    HeldKept(n, n', root, a, g, perm);
    var m' := Drop(n', g);
    HeldBack(m.held, g);
    forall r ensures IsRoot(m, r) <==> IsRoot(m', r) {
      assert IsRoot(n, r) <==> IsRoot(n', r);
    }
    forall r, v {:trigger See(m', r, v)} | IsRoot(m, r) && 0 <= v < MAXVPN ensures See(m', r, v) == See(m, r, v) {
      if Lookup(m.table, r, v).Some? { SeeSome(m, r, v); }
    }
  }

  lemma HeldKept(n: Mem, n': Mem, root: nat, a: nat, g: nat, perm: Pte)
    requires Mapped(n, n', root, a, g, perm, 0)
    ensures n'.held == n.held
  {
    forall f | f in n.held ensures f in n'.held && n'.held[f] == n.held[f] {
      assert n'.held[f] + 0 == n.held[f];
    }
  }

  lemma FreshCanMap(m: Mem, n: Mem, g: nat, root: nat, a: nat, w: bool, x: bool)
    requires Ok(m) && m.free != [] && g == m.free[0] && Dense(m, root, a) && a < MAXVPN
    requires n == Take(m).(data := Take(m).data[g := Fill(0)])
    ensures Ok(n) && IsRoot(n, root) && CanMap(n, root, a, g, UserPte(w, x), 0)
  {
    hide Ok, Fill;
    FreeHead(m);
    TakeOk(m);
    WriteOk(Take(m), g, Fill(0));
    NoneSeen(m, root, a, a);
    if Lookup(m.table, root, a).Some? { SeeSome(m, root, a); }
  }

  /** One round of the loop in uvmalloc(): a zeroed page at page number `a`. */
  method GrowPage(vm: Mmu, root: nat, a: nat, w: bool, x: bool) returns (ok: bool)
    requires vm.Valid() && Dense(vm.S(), root, a) && Injective(vm.S(), root) && |vm.role| <= MAXVPN
    modifies vm, vm.k
    ensures vm.Valid()
    ensures ok ==> a < MAXVPN && Extended(old(vm.S()), vm.S(), root, a, 1) && Injective(vm.S(), root)
    ensures !ok ==> Restored(old(vm.S()), vm.S()) && |old(vm.k.freelist)| <= 3
    ensures |old(vm.k.freelist)| <= |vm.k.freelist| + 3
  {
    hide Ok, Dense, Injective, Extended, Restored, Mapped, Fill, CanMap, Lookup, IsRoot;
    ghost var m := vm.S();
    RestoredRefl(m);
    if vm.k.freelist != [] {
      FewerPagesThanFrames(m, root, a);        // so panic("walk") is unreachable
    }
    var mem := vm.TakeFrame();
    if mem == 0 {
      return false;
    }
    vm.k.data := vm.k.data[mem := Fill(0)];
    ghost var n := vm.S();
    FreshCanMap(m, n, mem, root, a, w, x);
    PageOfPage(a);
    PageOfPage(mem);
    var r, done := vm.Mappages(root, a * PGSIZE, PGSIZE, mem * PGSIZE, UserPte(w, x));
    if r != 0 {
      DroppedFresh(m, n, vm.S(), mem, root, a, UserPte(w, x));
      vm.DropFrame(mem);
      return false;
    }
    MappedFresh(m, n, vm.S(), mem, root, a, w, x);
    ok := true;
  }

  /** uvmalloc(): grow from `oldsz` to `newsz` bytes, or 0 when memory runs out. */
  method Uvmalloc(vm: Mmu, root: nat, oldsz: nat, newsz: nat, w: bool, x: bool) returns (r: nat, ghost ok: bool)
    requires vm.Valid() && Dense(vm.S(), root, PageUp(oldsz)) && Injective(vm.S(), root) && |vm.role| <= MAXVPN
    modifies vm, vm.k
    ensures vm.Valid() && Injective(vm.S(), root)
    ensures newsz < oldsz ==> ok && r == oldsz && vm.S() == old(vm.S())
    ensures newsz >= oldsz && ok ==>
              && r == newsz && PageUp(oldsz) <= PageUp(newsz) <= MAXVPN
              && Extended(old(vm.S()), vm.S(), root, PageUp(oldsz), PageUp(newsz) - PageUp(oldsz))
    ensures !ok ==> && r == 0 && Restored(old(vm.S()), vm.S()) && PageUp(oldsz) <= PageUp(newsz)
                    && |old(vm.k.freelist)| <= 3 * (PageUp(newsz) - PageUp(oldsz))
    ensures newsz >= oldsz && ok ==> |old(vm.k.freelist)| <= |vm.k.freelist| + 3 * (PageUp(newsz) - PageUp(oldsz))
  {
    hide Ok, Injective, Extended, Restored, Lookup, See, PageUp, IsRoot;
    if newsz < oldsz {
      return oldsz, true;
    }
    ghost var m0 := vm.S();
    var a0 := PageUp(oldsz);
    PageUpMonotone(oldsz, newsz);
    var a := a0;
    ExtendedNone(m0, root, a0);
    while a * PGSIZE < newsz
      invariant a0 <= a <= PageUp(newsz) && a <= MAXVPN && vm.Valid() && Injective(vm.S(), root)
      invariant Extended(m0, vm.S(), root, a0, a - a0)
      invariant |old(vm.k.freelist)| <= |vm.k.freelist| + 3 * (a - a0)
      decreases PageUp(newsz) - a
    {
      ghost var m := vm.S();
      ExtendedDense(m0, m, root, a0, a - a0);
      ExtendedRoles(m0, m, root, a0, a - a0);
      var got := GrowPage(vm, root, a, w, x);
      if !got {
        PageUpAbove(a, newsz);
        Shrink(vm, root, a0, a, m0, m);
        return 0, false;
      }
      ExtendedTrans(m0, m, vm.S(), root, a0, a - a0);
      PageUpAbove(a, newsz);
      a := a + 1;
    }
    PageUpReached(a, newsz);
    return newsz, true;
  }

  /** The uvmdealloc() on uvmalloc()'s error exits. */
  method Shrink(vm: Mmu, root: nat, a0: nat, a: nat, ghost m0: Mem, ghost m: Mem)
    requires vm.Valid() && Ok(m0) && Dense(m0, root, a0) && Injective(m0, root) && a0 <= a <= MAXVPN
    requires Extended(m0, m, root, a0, a - a0) && Restored(m, vm.S()) && Injective(m, root)
    modifies vm, vm.k
    ensures vm.Valid() && Restored(m0, vm.S()) && Injective(vm.S(), root)
  {
    hide Ok, Extended, Restored, Lookup, Unmapped, Injective, IsRoot;
    ghost var m1 := vm.S();
    ExtendedDense(m0, m, root, a0, a - a0);
    RestoredKeeps(m, m1, root, a);
    DenseLookup(m1, root, a);
    PageOfPage(a);
    PageOfPage(a0);
    UnmappedNone(m1, root, a0);
    var _ := Uvmdealloc(vm, root, a * PGSIZE, a0 * PGSIZE);
    ExtendedUndone(m0, m, m1, vm.S(), root, a0, a - a0);
    RestoredKeeps(m0, vm.S(), root, a0);
  }

  lemma ExtendedRoles(m: Mem, m': Mem, root: nat, a: nat, n: nat)
    requires Extended(m, m', root, a, n)
    ensures |m'.role| == |m.role|
  {
  }

  lemma PageUpMonotone(x: nat, y: nat)
    requires x <= y
    ensures PageUp(x) <= PageUp(y)
  {
  }

  lemma PageUpAbove(a: nat, sz: nat)
    requires a * PGSIZE < sz
    ensures a < PageUp(sz)
  {
  }

  lemma PageUpReached(a: nat, sz: nat)
    requires a * PGSIZE >= sz && a <= PageUp(sz)
    ensures a == PageUp(sz)
  {
  }
}
