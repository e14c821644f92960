/** Copy-on-write pages: cowfault() of kernel/trap.c, and what it does to the bytes every process sees. */
module Cow {
  import opened Common
  import opened Sv39
  import opened Frames
  import opened Kalloc
  import opened Vm

  /** No process sees any difference. */
  ghost predicate SameSees(m: Mem, m': Mem) {
    && (forall r :: IsRoot(m, r) <==> IsRoot(m', r))
    && (forall r, v {:trigger See(m', r, v)} :: IsRoot(m, r) && 0 <= v < MAXVPN ==> See(m', r, v) == See(m, r, v))
  }

  /** No two pages of a process share a frame. */
  ghost predicate Injective(m: Mem, root: nat) {
    forall v, w {:trigger Lookup(m.table, root, v), Lookup(m.table, root, w)} ::
      (&& 0 <= v < MAXVPN && 0 <= w < MAXVPN && Lookup(m.table, root, v).Some? && Lookup(m.table, root, w).Some?
       && Lookup(m.table, root, v).value.ppn == Lookup(m.table, root, w).value.ppn) ==> v == w
  }

  ghost predicate AllInjective(m: Mem) {
    forall r {:trigger Injective(m, r)} :: IsRoot(m, r) ==> Injective(m, r)
  }

  lemma SeeSome(m: Mem, r: nat, v: nat)
    requires Ok(m) && IsRoot(m, r) && v < MAXVPN && Lookup(m.table, r, v).Some?
    ensures var p := Lookup(m.table, r, v).value;
            && p.v && p.r && p.ppn in m.role && m.role[p.ppn].Data? && p.ppn in m.refcnt && p.ppn in m.data
            && p.ppn in m.held && m.refcnt[p.ppn] >= 1
            && See(m, r, v) == Some(View(m.data[p.ppn], p.u))
  {
    hide WellFormed, Counted, NoSharedWrite, Slots;
    LookupIsSlot(m, r, v);
  }

  lemma UnmappedSees(m: Mem, m': Mem, root: nat, a: nat, n: nat)
    requires Ok(m) && Ok(m') && Unmapped(m, m', root, a, n)
    ensures forall r, v {:trigger See(m', r, v)} :: IsRoot(m, r) && 0 <= v < MAXVPN ==>
              See(m', r, v) == if r == root && a <= v < a + n then None else See(m, r, v)
  {
    hide Ok;
    forall r, v {:trigger See(m', r, v)} | IsRoot(m, r) && 0 <= v < MAXVPN
      ensures See(m', r, v) == if r == root && a <= v < a + n then None else See(m, r, v)
    {
      if Lookup(m.table, r, v).Some? { SeeSome(m, r, v); }
      if Lookup(m'.table, r, v).Some? { SeeSome(m', r, v); }
    }
  }

  /** What `r` sees at page `v` after mappages() stored `n` entries. */
  ghost predicate SeesMapped(m: Mem, m': Mem, root: nat, a: nat, p: nat, perm: Pte, n: nat, r: nat, v: nat)
    requires v < MAXVPN
  {
    if r == root && a <= v < a + n
    then p + v - a in m.data && See(m', r, v) == Some(View(m.data[p + v - a], perm.u))
    else See(m', r, v) == See(m, r, v)
  }

  lemma MappedSees(m: Mem, m': Mem, root: nat, a: nat, p: nat, perm: Pte, n: nat, r: nat, v: nat)
    requires Ok(m) && Mapped(m, m', root, a, p, perm, n) && IsRoot(m, r) && v < MAXVPN
    requires forall j {:trigger CanMap(m, root, a, p, perm, j)} :: 0 <= j < n ==> CanMap(m, root, a, p, perm, j)
    ensures SeesMapped(m, m', root, a, p, perm, n, r, v)
  {
    hide Ok;
    if Lookup(m.table, r, v).Some? { SeeSome(m, r, v); }
    if r == root && a <= v < a + n {
      assert CanMap(m, root, a, p, perm, v - a);
    }
  }

  // ----- cowfault() -----

  /** The private, writable entry that cowfault() installs. */
  function Private(f: nat): Pte { Pte(true, true, true, true, true, f) }

  /** A copy of frame `pa` in the frame just taken, mapped in its place. */
  ghost function Recopied(m: Mem, f: nat, i: nat): Mem
    requires m.free != [] && f in m.table && i < NPTE && m.table[f][i].ppn in m.data
    requires m.table[f][i].ppn in m.refcnt && m.refcnt[m.table[f][i].ppn] >= 1 && m.table[f][i].ppn != m.free[0]
  {
    var pa, g := m.table[f][i].ppn, m.free[0];
    var m1 := Take(m);
    var m2 := m1.(data := m1.data[g := m1.data[pa]]);
    Drop(SetLeaf(m2, f, i, Private(g)), pa)
  }

  ghost predicate Faulting(m: Mem, root: nat, vpn: nat, f: nat) {
    && Ok(m) && IsRoot(m, root) && vpn < MAXVPN && Lookup(m.table, root, vpn).Some?
    && LeafTable(m.table, root, vpn) == Some(f)
  }

  lemma FaultFacts(m: Mem, root: nat, vpn: nat, f: nat)
    requires Faulting(m, root, vpn, f) && m.free != []
    ensures f in m.table && f in m.role && m.role[f].Node? && |m.role[f].path| == 2
    ensures var p := m.table[f][Px(0, vpn)];
            && Lookup(m.table, root, vpn) == Some(p) && p.v && p.r
            && p.ppn in m.role && m.role[p.ppn].Data? && p.ppn in m.data && p.ppn in m.held
            && p.ppn in m.refcnt && m.refcnt[p.ppn] >= 1 && p.ppn != m.free[0]
            && (f, Px(0, vpn)) in Slots(m.table, m.role, p.ppn)
    ensures m.free[0] in m.role && m.role[m.free[0]].Free? && m.free[0] in m.data && m.free[0] in m.held
            && m.held[m.free[0]] == 0
  {
    hide WellFormed, Counted, NoSharedWrite, Slots;
    LookupIsSlot(m, root, vpn);
    FreeHead(m);
  }

  lemma RecopiedOk(m: Mem, root: nat, vpn: nat, f: nat)
    requires Faulting(m, root, vpn, f) && m.free != []
    ensures f in m.table && m.table[f][Px(0, vpn)].ppn in m.data
    ensures m.table[f][Px(0, vpn)].ppn in m.refcnt && m.refcnt[m.table[f][Px(0, vpn)].ppn] >= 1
    ensures m.table[f][Px(0, vpn)].ppn != m.free[0]
    ensures Ok(Recopied(m, f, Px(0, vpn)))
  {
    hide Ok, Slots, LeafTable;
    FaultFacts(m, root, vpn, f);
    var pa, g, i := m.table[f][Px(0, vpn)].ppn, m.free[0], Px(0, vpn);
    TakeOk(m);
    var m1 := Take(m);
    WriteOk(m1, g, m1.data[pa]);
    var m2 := m1.(data := m1.data[g := m1.data[pa]]);
    SetLeafOk(m2, f, i, Private(g));
    DropOk(SetLeaf(m2, f, i, Private(g)), pa);
  }

  /** cowfault() replaces one entry by a private copy and shows nobody any difference. */
  lemma RecopiedSees(m: Mem, root: nat, vpn: nat, f: nat)
    requires Faulting(m, root, vpn, f) && m.free != []
    requires Lookup(m.table, root, vpn).value.u
    ensures f in m.table && m.table[f][Px(0, vpn)].ppn in m.data
    ensures m.table[f][Px(0, vpn)].ppn in m.refcnt && m.refcnt[m.table[f][Px(0, vpn)].ppn] >= 1
    ensures m.table[f][Px(0, vpn)].ppn != m.free[0]
    ensures var m' := Recopied(m, f, Px(0, vpn));
            && SameSees(m, m') && m'.held == m.held && m'.role.Keys == m.role.Keys
            && (forall r, v {:trigger Lookup(m'.table, r, v)} :: IsRoot(m, r) && 0 <= v < MAXVPN ==>
                  Lookup(m'.table, r, v) == if r == root && v == vpn then Some(Private(m.free[0]))
                                            else Lookup(m.table, r, v))
  {
    hide Ok, Slots, LeafTable;
    FaultFacts(m, root, vpn, f);
    RecopiedOk(m, root, vpn, f);
    var pa, g := m.table[f][Px(0, vpn)].ppn, m.free[0];
    SetLeafLookup(m, root, vpn, f, Private(g));
    var m' := Recopied(m, f, Px(0, vpn));
    assert Minus(Plus(Minus(Plus(m.held, g), g), pa), pa) == m.held;
    forall r, v {:trigger See(m', r, v)} | IsRoot(m, r) && 0 <= v < MAXVPN ensures See(m', r, v) == See(m, r, v) {
      RecopiedSeesAt(m, root, vpn, f, r, v);
    }
  }

  lemma RecopiedSeesAt(m: Mem, root: nat, vpn: nat, f: nat, r: nat, v: nat)
    requires Faulting(m, root, vpn, f) && m.free != [] && IsRoot(m, r) && v < MAXVPN
    requires Lookup(m.table, root, vpn).value.u
    requires f in m.table && m.table[f][Px(0, vpn)].ppn in m.data
    requires m.table[f][Px(0, vpn)].ppn in m.refcnt && m.refcnt[m.table[f][Px(0, vpn)].ppn] >= 1
    requires m.table[f][Px(0, vpn)].ppn != m.free[0]
    ensures IsRoot(Recopied(m, f, Px(0, vpn)), r)
    ensures See(Recopied(m, f, Px(0, vpn)), r, v) == See(m, r, v)
  {
    hide Ok, Slots, LeafTable, Lookup;
    FaultFacts(m, root, vpn, f);
    RecopiedOk(m, root, vpn, f);
    var pa, g := m.table[f][Px(0, vpn)].ppn, m.free[0];
    SetLeafLookup(m, root, vpn, f, Private(g));
    var m' := Recopied(m, f, Px(0, vpn));
    FreeHead(m);
    if Lookup(m.table, r, v).Some? {
      SeeSome(m, r, v);
      SeeSome(m', r, v);
    }
  }

  /** The second half of cowfault(): copy the frame, install the copy, drop the old reference. */
  method Recopy(vm: Mmu, root: nat, vpn: nat, f: nat) returns (ok: bool)
    requires Faulting(vm.S(), root, vpn, f)
    modifies vm, vm.k
    ensures ok <==> old(vm.k.freelist) != []
    ensures !ok ==> vm.S() == old(vm.S())
    ensures ok ==> var m, i := old(vm.S()), Px(0, vpn);
              && f in m.table && m.table[f][i].ppn in m.data && m.table[f][i].ppn != m.free[0]
              && m.table[f][i].ppn in m.refcnt && m.refcnt[m.table[f][i].ppn] >= 1
              && vm.S() == Recopied(m, f, i) && Ok(vm.S())
    ensures |old(vm.k.freelist)| <= |vm.k.freelist| + 1
  {
    hide Ok, FreeListOk, Slots, Fill, Px, LeafTable, Lookup;
    ghost var m := vm.S();
    var i := Px(0, vpn);
    if vm.k.freelist != [] {
      FaultFacts(m, root, vpn, f);
      RecopiedOk(m, root, vpn, f);
    }
    var pa2 := vm.TakeFrame();
    if pa2 == 0 {
      return false;
    }
    var pa1 := vm.table[f][i].ppn;
    ghost var m1 := vm.S();
    WriteOk(m1, pa2, m1.data[pa1]);
    vm.k.data := vm.k.data[pa2 := vm.k.data[pa1]];
    ghost var m2 := vm.S();
    SetLeafOk(m2, f, i, Private(pa2));
    vm.table := vm.table[f := vm.table[f][i := Private(pa2)]];
    vm.held := Plus(Minus(vm.held, pa2), pa1);
    assert vm.S() == SetLeaf(m2, f, i, Private(pa2));
    vm.DropFrame(pa1);
    ok := true;
  }

  /** A fresh frame at one page cannot collide with another page's frame. */
  lemma RecopiedInjective(m: Mem, m': Mem, root: nat, vpn: nat)
    requires Ok(m) && AllInjective(m) && m.free != [] && vpn < MAXVPN
    requires forall r :: IsRoot(m, r) <==> IsRoot(m', r)
    requires forall r, v {:trigger Lookup(m'.table, r, v)} :: IsRoot(m, r) && 0 <= v < MAXVPN ==>
               Lookup(m'.table, r, v) == if r == root && v == vpn then Some(Private(m.free[0]))
                   else Lookup(m.table, r, v)
    ensures AllInjective(m')
  {
    hide Ok, Lookup;
    FreeHead(m);
    forall r {:trigger Injective(m', r)} | IsRoot(m', r) ensures Injective(m', r) {
      assert Injective(m, r);
      forall v {:trigger Lookup(m.table, r, v)} | 0 <= v < MAXVPN && Lookup(m.table, r, v).Some?
        ensures Lookup(m.table, r, v).value.ppn != m.free[0]
      {
        SeeSome(m, r, v);
      }
    }
  }

  /** cowfault(): give the process a private writable copy of the page; -1 if it cannot. */
  method Cowfault(vm: Mmu, root: nat, vpn: nat) returns (r: int)
    requires vm.Valid() && IsRoot(vm.S(), root)
    modifies vm, vm.k
    ensures vm.Valid() && SameSees(old(vm.S()), vm.S()) && vm.held == old(vm.held)
    ensures r == 0 || (r == -1 && vm.S() == old(vm.S()))
    ensures r == 0 <==> && vpn < MAXVPN && old(vm.k.freelist) != []
                        && old(Lookup(vm.table, root, vpn)).Some? && old(Lookup(vm.table, root, vpn)).value.u
    ensures r == 0 ==> forall q, v {:trigger Lookup(vm.table, q, v)} :: IsRoot(old(vm.S()), q) && 0 <= v < MAXVPN ==>
              Lookup(vm.table, q, v) == if q == root && v == vpn then Some(Private(old(vm.k.freelist)[0]))
                                        else old(Lookup(vm.table, q, v))
    ensures vm.role.Keys == old(vm.role.Keys) && |old(vm.k.freelist)| <= |vm.k.freelist| + 1
    ensures AllInjective(old(vm.S())) ==> AllInjective(vm.S())
  {
    hide Ok, FreeListOk, Recopied, LeafTable, AllInjective;
    SameSeesRefl(vm.S());
    if vpn >= MAXVPN {
      return -1;
    }
    ghost var m := vm.S();
    var f := vm.Walk(root, vpn, false);
    if f == 0 {
      return -1;
    }
    var i := Px(0, vpn);
    if !vm.table[f][i].u || !vm.table[f][i].v {
      return -1;
    }
    assert Faulting(m, root, vpn, f);
    if vm.k.freelist != [] {
      RecopiedSees(m, root, vpn, f);
    }
    var ok := Recopy(vm, root, vpn, f);
    if ok {
      ghost var inj := AllInjective(m);
      if inj {
        RecopiedInjective(m, vm.S(), root, vpn);
      }
    }
    return if ok then 0 else -1;
  }

  lemma SameSeesRefl(m: Mem)
    ensures SameSees(m, m)
  {
  }
}
