/** Whole address spaces: uvmcreate() and uvmfree() of kernel/vm.c. */
module AddressSpace {
  import opened Common
  import opened Sv39
  import opened Frames
  import opened Kalloc
  import opened Teardown
  import opened Vm
  import opened TableCount
  import opened Cow

  /** Exactly the first `n` pages are mapped. */
  ghost predicate Dense(m: Mem, root: nat, n: nat) {
    && IsRoot(m, root) && n <= MAXVPN
    && forall v {:trigger See(m, root, v)} :: 0 <= v < MAXVPN ==> (See(m, root, v).Some? <==> v < n)
  }

  // ----- uvmcreate() -----

  ghost function MakeRoot(m: Mem, g: nat): Mem {
    m.(table := m.table[g := ZeroTable()], role := m.role[g := Node(g, [], g)], held := Minus(m.held, g))
  }

  /** `g` was just taken from the free list and is referred to by nothing. */
  ghost predicate JustTaken(m: Mem, g: nat) {
    && Ok(m) && g in m.role && m.role[g].Data? && g in m.refcnt && m.refcnt[g] == 1 && g in m.held && m.held[g] == 1
    && g !in m.table
  }

  lemma MakeRootShape(m: Mem, g: nat)
    requires JustTaken(m, g)
    ensures WellFormed(MakeRoot(m, g).table, MakeRoot(m, g).role, {})
  {
    hide FreeListOk, RolesOk, Counted, NoSharedWrite, Slots, Minus;
    Unreferenced(m, g);
    var m' := MakeRoot(m, g);
    forall f | f in m'.table ensures UpLink(m'.table, m'.role, f) {
      if f != g { Up(m.table, m.role, {}, f); }
    }
    forall f, i | f in m'.table && 0 <= i < NPTE ensures DownLink(m'.table, m'.role, f, i) {
      if f != g { Down(m.table, m.role, {}, f, i); }
    }
  }

  lemma MakeRootRoles(m: Mem, g: nat)
    requires JustTaken(m, g)
    ensures RolesOk(MakeRoot(m, g)) && FreeListOk(m.refcnt, m.data, m.free)
  {
    hide Counted, NoSharedWrite, Slots, WellFormed;
  }

  lemma MakeRootCounted(m: Mem, g: nat)
    requires JustTaken(m, g) && RolesOk(MakeRoot(m, g))
    ensures Counted(MakeRoot(m, g)) && NoSharedWrite(MakeRoot(m, g))
  {
    hide FreeListOk, WellFormed, Slots;
    var m' := MakeRoot(m, g);
    forall h {:trigger Slots(m'.table, m'.role, h)} | h in m'.role && !m'.role[h].Node?
      ensures m'.refcnt[h] == |Slots(m'.table, m'.role, h)| + m'.held[h]
    {
      forall s: (nat, nat) ensures s in Slots(m'.table, m'.role, h) <==> s in Slots(m.table, m.role, h) {
        SlotMember(m'.table, m'.role, h, s);
        SlotMember(m.table, m.role, h, s);
      }
      assert Slots(m'.table, m'.role, h) == Slots(m.table, m.role, h);
    }
    forall s: (nat, nat) ensures SoleWriter(m', s) {
      assert SoleWriter(m, s);
    }
  }

  lemma MakeRootOk(m: Mem, g: nat)
    requires JustTaken(m, g)
    ensures Ok(MakeRoot(m, g))
  {
    hide Ok, FreeListOk, RolesOk, WellFormed, Counted, NoSharedWrite, Slots;
    MakeRootShape(m, g);
    MakeRootRoles(m, g);
    MakeRootCounted(m, g);
    OkIntro(MakeRoot(m, g));
  }

  lemma MakeRootLookup(m: Mem, g: nat, r: nat, v: nat)
    requires JustTaken(m, g) && v < MAXVPN && (IsRoot(m, r) || r == g)
    ensures IsRoot(MakeRoot(m, g), r)
    ensures Lookup(MakeRoot(m, g).table, r, v) == if r == g then None else Lookup(m.table, r, v)
  {
    hide FreeListOk, RolesOk, WellFormed, Counted, NoSharedWrite, Slots;
    if r != g {
      Up(m.table, m.role, {}, r);
      Down(m.table, m.role, {}, r, Px(2, v));
      if m.table[r][Px(2, v)].v {
        var mid := m.table[r][Px(2, v)].ppn;
        Up(m.table, m.role, {}, mid);
        Down(m.table, m.role, {}, mid, Px(1, v));
      }
    }
  }

  /** Besides the empty page table `g`, everything is as it was. */
  ghost predicate Created(m: Mem, m': Mem, g: nat) {
    && !IsRoot(m, g) && IsRoot(m', g) && Dense(m', g, 0) && m'.held == m.held && m'.role.Keys == m.role.Keys
    && (forall r, v {:trigger See(m', r, v)} :: IsRoot(m, r) && 0 <= v < MAXVPN ==> See(m', r, v) == See(m, r, v))
    && (forall r, v {:trigger Lookup(m'.table, r, v)} :: IsRoot(m, r) && 0 <= v < MAXVPN ==>
          Lookup(m'.table, r, v) == Lookup(m.table, r, v))
    && (forall r :: IsRoot(m', r) <==> IsRoot(m, r) || r == g)
  }

  lemma MakeRootCreated(m: Mem)
    requires Ok(m) && m.free != []
    ensures JustTaken(Take(m), m.free[0]) && Created(m, MakeRoot(Take(m), m.free[0]), m.free[0])
  {
    hide Ok;
    var g := m.free[0];
    FreeHead(m);
    TakeOk(m);
    var n, m' := Take(m), MakeRoot(Take(m), g);
    forall r, v {:trigger Lookup(m'.table, r, v)} | (IsRoot(m, r) || r == g) && 0 <= v < MAXVPN
      ensures Lookup(m'.table, r, v) == if r == g then None else Lookup(m.table, r, v)
    {
      MakeRootLookup(n, g, r, v);
    }
    forall r, v {:trigger See(m', r, v)} | IsRoot(m, r) && 0 <= v < MAXVPN ensures See(m', r, v) == See(m, r, v) {
      if Lookup(m.table, r, v).Some? { SeeSome(m, r, v); }
    }
    assert m'.held == m.held;
  }

  lemma MakeRootAlone(m: Mem)
    requires Ok(m) && m.free != []
    ensures OnlyRoot(MakeRoot(Take(m), m.free[0]).role, m.free[0])
  {
    var g := m.free[0];
    FreeHead(m);
    OkParts(m);
    hide Ok, WellFormed;
    var role := MakeRoot(Take(m), g).role;
    forall p | Has(role, g, p) ensures p == [] {
      var f :| f in role && role[f].Node? && role[f].root == g && role[f].path == p;
      if f != g {
        assert m.role[f] == role[f];
        TableOf(m, f);
        assert false;
      }
    }
  }

  lemma TableOf(m: Mem, f: nat)
    requires Ok(m) && f in m.role && m.role[f].Node?
    ensures IsRoot(m, m.role[f].root)
  {
    Up(m.table, m.role, {}, f);
  }

  /** uvmcreate(): an empty page table, or 0 when there is no memory. */
  method Uvmcreate(vm: Mmu) returns (root: nat)
    requires vm.Valid()
    modifies vm, vm.k
    ensures vm.Valid() && vm.held == old(vm.held)
    ensures root == 0 <==> old(vm.k.freelist) == []
    ensures root == 0 ==> vm.S() == old(vm.S())
    ensures root != 0 ==> Created(old(vm.S()), vm.S(), root) && vm.k.freelist == old(vm.k.freelist)[1..]
    ensures root != 0 ==> OnlyRoot(vm.role, root)
  {
    hide Ok, Created, JustTaken, OnlyRoot;
    ghost var m := vm.S();
    if vm.k.freelist != [] {
      MakeRootAlone(m);
      MakeRootCreated(m);
      MakeRootOk(Take(m), m.free[0]);
    }
    root := vm.TakeFrame();
    if root == 0 {
      return;
    }
    HeldBack(m.held, root);
    vm.table := vm.table[root := ZeroTable()];
    vm.role := vm.role[root := Node(root, [], root)];
    vm.held := Minus(vm.held, root);
    assert vm.S() == MakeRoot(Take(m), root);
  }

  lemma HeldBack(h: map<nat, nat>, g: nat)
    ensures Minus(Plus(h, g), g) == h
  {
  }

  // ----- uvmfree() -----

  /** Page table `root` is gone; all others are untouched. */
  ghost predicate Destroyed(m: Mem, m': Mem, root: nat) {
    && m'.held == m.held && m'.role.Keys == m.role.Keys
    && (forall r :: IsRoot(m', r) <==> IsRoot(m, r) && r != root)
    && (forall r, v {:trigger Lookup(m'.table, r, v)} :: IsRoot(m, r) && r != root && 0 <= v < MAXVPN ==>
          Lookup(m'.table, r, v) == Lookup(m.table, r, v))
    && (forall r, v {:trigger See(m', r, v)} :: IsRoot(m, r) && r != root && 0 <= v < MAXVPN ==>
          See(m', r, v) == See(m, r, v))
    && (forall g :: g in m.role && m.role[g].Node? && m.role[g].root == root ==> m'.role[g].Free?)
  }

  lemma WalkedLookup(m: Mem, m': Mem, root: nat, r: nat, v: nat)
    requires Ok(m) && IsRoot(m, root) && IsRoot(m, r) && r != root && v < MAXVPN && Walked(m, m', root)
    ensures IsRoot(m', r) && Lookup(m'.table, r, v) == Lookup(m.table, r, v)
  {
    hide FreeListOk, RolesOk, WellFormed, Counted, NoSharedWrite, Slots;
    Up(m.table, m.role, {}, r);
    Down(m.table, m.role, {}, r, Px(2, v));
    if m.table[r][Px(2, v)].v {
      var mid := m.table[r][Px(2, v)].ppn;
      Up(m.table, m.role, {}, mid);
      Down(m.table, m.role, {}, mid, Px(1, v));
    }
  }

  lemma WalkedDestroyed(m: Mem, m': Mem, root: nat)
    requires Ok(m) && IsRoot(m, root) && Walked(m, m', root)
    ensures Destroyed(m, m', root)
  {
    hide Ok;
    RootPath(m, root);
    forall r, v {:trigger Lookup(m'.table, r, v)} | IsRoot(m, r) && r != root && 0 <= v < MAXVPN
      ensures Lookup(m'.table, r, v) == Lookup(m.table, r, v)
    {
      WalkedLookup(m, m', root, r, v);
    }
    forall r, v {:trigger See(m', r, v)} | IsRoot(m, r) && r != root && 0 <= v < MAXVPN
      ensures See(m', r, v) == See(m, r, v)
    {
      WalkedLookup(m, m', root, r, v);
      if Lookup(m.table, r, v).Some? { SeeSome(m, r, v); }
    }
    assert Under(m, root, root);
  }

  lemma RootPath(m: Mem, root: nat)
    requires Ok(m) && IsRoot(m, root)
    ensures m.role[root].path == []
  {
    hide FreeListOk, RolesOk, WellFormed, Counted, NoSharedWrite, Slots;
    Up(m.table, m.role, {}, root);
  }

  /** With no page mapped, no level-0 table below `root` has a valid entry. */
  lemma EmptyHasNoLeaves(m: Mem, root: nat)
    requires Ok(m) && Dense(m, root, 0)
    ensures CanFreewalk(m, {}, root)
  {
    hide FreeListOk, RolesOk, WellFormed, Counted, NoSharedWrite, Slots, Lookup, LeafTable;
    OkIsOkExcept(m);
    RootPath(m, root);
    forall g | Under(m, root, g) && |m.role[g].path| == 2 ensures AllInvalid(m, g) {
      NodesAreTables(m, {}, g);
      forall i | 0 <= i < NPTE ensures !m.table[g][i].v {
        LeafIsMapped(m, g, i);
        if m.table[g][i].v {
          SeeSome(m, root, VpnOf(m.role[g].path, i));
        }
      }
    }
  }

  /** Every level-0 entry is the entry of one page of its page table. */
  lemma LeafIsMapped(m: Mem, g: nat, i: nat)
    requires Ok(m) && g in m.table && g in m.role && m.role[g].Node? && |m.role[g].path| == 2 && i < NPTE
    ensures VpnOf(m.role[g].path, i) < MAXVPN
    ensures m.table[g][i].v ==> Lookup(m.table, m.role[g].root, VpnOf(m.role[g].path, i)) == Some(m.table[g][i])
  {
    hide FreeListOk, RolesOk, WellFormed, Counted, NoSharedWrite, Slots;
    Up(m.table, m.role, {}, g);
    Up(m.table, m.role, {}, m.role[g].parent);
    VpnRoundTrip(m.role[g].path, i);
    WalkFinds(m.table, m.role, g, VpnOf(m.role[g].path, i));
  }

  /** uvmfree(): unmap the user pages, then return every table page to the allocator. */
  method Uvmfree(vm: Mmu, root: nat, sz: nat)
    requires vm.Valid() && Dense(vm.S(), root, PageUp(sz))
    modifies vm, vm.k
    ensures vm.Valid() && Destroyed(old(vm.S()), vm.S(), root)
  {
    hide Ok, Unmapped, Walked, OkExcept, Destroyed, CanFreewalk;
    ghost var m0 := vm.S();
    if sz > 0 {
      DenseLookup(m0, root, PageUp(sz));
      vm.Uvmunmap(root, 0, PageUp(sz), true);
      UnmappedAll(m0, vm.S(), root, PageUp(sz));
    }
    ghost var m := vm.S();
    EmptyHasNoLeaves(m, root);
    vm.Freewalk(root, {});
    OkIsOkExcept(vm.S());
    WalkedDestroyed(m, vm.S(), root);
    if sz > 0 {
      UnmappedDestroyed(m0, m, vm.S(), root, PageUp(sz));
    }
  }

  /** PGROUNDUP(sz) / PGSIZE */
  function PageUp(sz: nat): (n: nat)
    ensures n * PGSIZE >= sz && (n > 0 ==> (n - 1) * PGSIZE < sz)
  {
    (sz + PGSIZE - 1) / PGSIZE
  }

  lemma DenseLookup(m: Mem, root: nat, n: nat)
    requires Dense(m, root, n)
    ensures forall v {:trigger Lookup(m.table, root, v)} :: 0 <= v < n ==> Lookup(m.table, root, v).Some?
  {
    forall v {:trigger Lookup(m.table, root, v)} | 0 <= v < n ensures Lookup(m.table, root, v).Some? {
      assert See(m, root, v).Some?;
    }
  }

  lemma UnmappedAll(m: Mem, m': Mem, root: nat, n: nat)
    requires Ok(m) && Ok(m') && Dense(m, root, n) && Unmapped(m, m', root, 0, n)
    ensures Dense(m', root, 0)
  {
    hide Ok;
    UnmappedSees(m, m', root, 0, n);
  }

  lemma UnmappedDestroyed(m0: Mem, m: Mem, m': Mem, root: nat, n: nat)
    requires Ok(m0) && Ok(m) && Unmapped(m0, m, root, 0, n) && m.held == m0.held && Destroyed(m, m', root)
    ensures Destroyed(m0, m', root)
  {
    hide Ok;
    UnmappedSees(m0, m, root, 0, n);
  }
}
