/** uvmcopy() of kernel/vm.c: fork() shares every page instead of copying it. */
module Fork {
  import opened Common
  import opened Sv39
  import opened Frames
  import opened Kalloc
  import opened Vm
  import opened Cow
  import opened AddressSpace
  import opened Grow
  import opened TableCount

  function NoWrite(p: Option<Pte>): Option<Pte> {
    match p
    case None => None
    case Some(q) => Some(q.(w := false))
  }

  /** The first `n` pages of `from` are shared with `to`, write-protected in both; every process
      sees its old bytes, and `to` sees those of `from`. */
  ghost predicate Shared(m: Mem, m': Mem, from: nat, to: nat, n: nat) {
    && m'.held == m.held && m'.role.Keys == m.role.Keys
    && (forall r :: IsRoot(m, r) <==> IsRoot(m', r))
    && (forall r, v {:trigger Lookup(m'.table, r, v)} :: IsRoot(m, r) && 0 <= v < MAXVPN ==>
          Lookup(m'.table, r, v) == if (r == from || r == to) && v < n then NoWrite(Lookup(m.table, from, v))
                                    else Lookup(m.table, r, v))
    && (forall r, v {:trigger See(m', r, v)} :: IsRoot(m, r) && 0 <= v < MAXVPN ==>
          See(m', r, v) == if r == to && v < n then See(m, from, v) else See(m, r, v))
  }

  lemma SharedNone(m: Mem, from: nat, to: nat)
    ensures Shared(m, m, from, to, 0)
  {
  }

  /** Entry `i` of `from` loses its write permission and its frame gains a held reference. */
  ghost function Protect(m: Mem, f: nat, i: nat): Mem
    requires f in m.table && i < NPTE && m.table[f][i].ppn in m.refcnt
  {
    Raise(m.(table := m.table[f := m.table[f][i := m.table[f][i].(w := false)]]), m.table[f][i].ppn)
  }

  lemma ProtectOk(m: Mem, from: nat, v: nat)
    requires Ok(m) && IsRoot(m, from) && v < MAXVPN && Lookup(m.table, from, v).Some?
    ensures var f, i := LeafTable(m.table, from, v).value, Px(0, v);
            && f in m.table && m.table[f][i].v && m.table[f][i].ppn in m.refcnt && m.refcnt[m.table[f][i].ppn] >= 1
            && m.table[f][i].ppn in m.held && FreeListOk(m.refcnt, m.data, m.free)
            && Lookup(m.table, from, v) == Some(m.table[f][i]) && Ok(Protect(m, f, i))
  {
    hide Ok, Slots, FreeListOk;
    LookupIsSlot(m, from, v);
    SeeSome(m, from, v);
    OkParts(m);
    var f, i := LeafTable(m.table, from, v).value, Px(0, v);
    var a := m.(table := m.table[f := m.table[f][i := m.table[f][i].(w := false)]]);
    ClearWriteOk(m, f, i);
    forall s: (nat, nat) | IsSlot(a.table, a.role, s) && a.table[s.0][s.1].ppn == m.table[f][i].ppn
      ensures !a.table[s.0][s.1].w
    {
      if s != (f, i) && m.table[s.0][s.1].w {
        assert IsSlot(m.table, m.role, s);
        SlotCounts(m, s);
        OkWriter(m, s);
      }
    }
    RaiseOk(a, m.table[f][i].ppn);
  }

  lemma OkWriter(m: Mem, s: (nat, nat))
    requires Ok(m)
    ensures SoleWriter(m, s)
  {
  }

  lemma ProtectEffect(m: Mem, from: nat, v: nat, f: nat)
    requires Ok(m) && IsRoot(m, from) && v < MAXVPN && Lookup(m.table, from, v).Some?
             && LeafTable(m.table, from, v) == Some(f)
    requires f in m.table && m.table[f][Px(0, v)].ppn in m.refcnt
             && Lookup(m.table, from, v) == Some(m.table[f][Px(0, v)])
    ensures var b := Protect(m, f, Px(0, v));
            && b.held == Plus(m.held, m.table[f][Px(0, v)].ppn) && b.role == m.role && b.data == m.data
            && (forall r, w {:trigger Lookup(b.table, r, w)} :: IsRoot(m, r) && 0 <= w < MAXVPN ==>
                  Lookup(b.table, r, w) == if r == from && w == v then NoWrite(Lookup(m.table, r, w))
                      else Lookup(m.table, r, w))
            && (forall r :: IsRoot(m, r) <==> IsRoot(b, r))
  {
    hide Ok, LeafTable;
    LookupValid(m, from, v);
    SetLeafLookup(m, from, v, f, m.table[f][Px(0, v)].(w := false));
  }

  lemma LookupValid(m: Mem, r: nat, v: nat)
    requires v < MAXVPN && Lookup(m.table, r, v).Some?
    ensures Lookup(m.table, r, v).value.v
  {
  }

  /** One successful round of uvmcopy(). */
  lemma SharedStep(m0: Mem, m: Mem, b: Mem, c: Mem, from: nat, to: nat, n: nat, f: nat)
    requires Ok(m0) && Ok(m) && Ok(b) && Ok(c) && IsRoot(m0, from) && IsRoot(m0, to) && from != to && n < MAXVPN
    requires Shared(m0, m, from, to, n) && Lookup(m0.table, from, n).Some? && LeafTable(m.table, from, n) == Some(f)
    requires f in m.table && m.table[f][Px(0, n)].ppn in m.refcnt
             && Lookup(m.table, from, n) == Some(m.table[f][Px(0, n)])
    requires b == Protect(m, f, Px(0, n))
    requires var pte := m.table[f][Px(0, n)]; Mapped(b, c, to, n, pte.ppn, pte.(w := false), 1)
    ensures Shared(m0, c, from, to, n + 1)
  {
    hide Ok, LeafTable;
    var pte := m.table[f][Px(0, n)];
    ProtectEffect(m, from, n, f);
    LookupValid(m, from, n);
    SeeSome(m, from, n);
    HeldAfterMap(m, b, c, to, n, pte.ppn, pte.(w := false));
    forall r, v {:trigger Lookup(c.table, r, v)} | IsRoot(m0, r) && 0 <= v < MAXVPN
      ensures Lookup(c.table, r, v) == if (r == from || r == to) && v < n + 1 then NoWrite(Lookup(m0.table, from, v))
                                       else Lookup(m0.table, r, v)
    {
      assert IsRoot(m, r) && IsRoot(b, r);
    }
    forall r, v {:trigger See(c, r, v)} | IsRoot(m0, r) && 0 <= v < MAXVPN
      ensures See(c, r, v) == if r == to && v < n + 1 then See(m0, from, v) else See(m0, r, v)
    {
      SharedSee(m0, m, b, c, from, to, n, f, r, v);
    }
    forall r ensures IsRoot(m0, r) <==> IsRoot(c, r) {
      assert IsRoot(m0, r) <==> IsRoot(m, r);
      assert IsRoot(m, r) <==> IsRoot(b, r);
      assert IsRoot(b, r) <==> IsRoot(c, r);
    }
  }

  lemma SharedSee(m0: Mem, m: Mem, b: Mem, c: Mem, from: nat, to: nat, n: nat, f: nat, r: nat, v: nat)
    requires Ok(m) && Ok(b) && IsRoot(m0, from) && IsRoot(m0, to) && from != to && n < MAXVPN
    requires Shared(m0, m, from, to, n) && LeafTable(m.table, from, n) == Some(f)
    requires f in m.table && m.table[f][Px(0, n)].ppn in m.refcnt
             && Lookup(m.table, from, n) == Some(m.table[f][Px(0, n)])
    requires b == Protect(m, f, Px(0, n)) && IsRoot(m0, r) && v < MAXVPN
    requires var pte := m.table[f][Px(0, n)]; Mapped(b, c, to, n, pte.ppn, pte.(w := false), 1)
    ensures See(c, r, v) == if r == to && v < n + 1 then See(m0, from, v) else See(m0, r, v)
  {
    hide Ok, LeafTable, Protect;
    ProtectEffect(m, from, n, f);
    assert IsRoot(m, r) && IsRoot(b, r) && IsRoot(m, from);
    SeeSome(m, from, n);
    assert IsRoot(b, from) && Lookup(b.table, from, n).Some?;
    SeeSome(b, from, n);
    if Lookup(m.table, r, v).Some? { SeeSome(m, r, v); }
    if Lookup(b.table, r, v).Some? { SeeSome(b, r, v); }
    assert Lookup(c.table, r, v) == if r == to && v == n then Some(m.table[f][Px(0, n)].(w := false))
           else Lookup(b.table, r, v) by {
      LookupValid(m, from, n);
    }
    assert See(m, r, v) == if r == to && v < n then See(m0, from, v) else See(m0, r, v);
    assert See(m, from, n) == See(m0, from, n);
  }

  /** Nobody sees a difference and at most write permissions were lost. */
  ghost predicate Weakened(m: Mem, m': Mem) {
    && m'.role.Keys == m.role.Keys
    && (forall r :: IsRoot(m, r) <==> IsRoot(m', r))
    && (forall r, v {:trigger Lookup(m'.table, r, v)} :: IsRoot(m, r) && 0 <= v < MAXVPN ==>
          NoWrite(Lookup(m'.table, r, v)) == NoWrite(Lookup(m.table, r, v)))
    && (forall r, v {:trigger See(m', r, v)} :: IsRoot(m, r) && 0 <= v < MAXVPN ==> See(m', r, v) == See(m, r, v))
  }

  /** A failed round of uvmcopy(): the page is write-protected and its count stays raised. */
  lemma ShareFailed(m0: Mem, m: Mem, b: Mem, c: Mem, from: nat, to: nat, n: nat, f: nat)
    requires Ok(m) && Ok(b) && IsRoot(m0, from) && IsRoot(m0, to) && from != to && n < MAXVPN
    requires Shared(m0, m, from, to, n) && LeafTable(m.table, from, n) == Some(f)
    requires f in m.table && m.table[f][Px(0, n)].ppn in m.refcnt
             && Lookup(m.table, from, n) == Some(m.table[f][Px(0, n)])
    requires b == Protect(m, f, Px(0, n))
    requires var pte := m.table[f][Px(0, n)]; Mapped(b, c, to, n, pte.ppn, pte.(w := false), 0)
    ensures c.held == Plus(m0.held, m.table[f][Px(0, n)].ppn) && Weakened(m, c)
  {
    hide Ok, LeafTable;
    ProtectEffect(m, from, n, f);
    HeldKept(b, c, to, n, m.table[f][Px(0, n)].ppn, m.table[f][Px(0, n)].(w := false));
    forall r ensures IsRoot(m, r) <==> IsRoot(c, r) {
      assert IsRoot(m, r) <==> IsRoot(b, r);
      assert IsRoot(b, r) <==> IsRoot(c, r);
    }
    hide Protect;
    forall r, v {:trigger Lookup(c.table, r, v)} | IsRoot(m, r) && 0 <= v < MAXVPN
      ensures NoWrite(Lookup(c.table, r, v)) == NoWrite(Lookup(m.table, r, v))
    {
      assert IsRoot(b, r);
    }
    forall r, v {:trigger See(c, r, v)} | IsRoot(m, r) && 0 <= v < MAXVPN ensures See(c, r, v) == See(m, r, v) {
      assert IsRoot(b, r);
      if Lookup(m.table, r, v).Some? { SeeSome(m, r, v); }
      if Lookup(b.table, r, v).Some? { SeeSome(b, r, v); }
    }
  }

  /** uvmcopy()'s error exit unmaps what it had shared before the failing page. */
  lemma UnsharedWeakened(m0: Mem, m: Mem, c: Mem, d: Mem, from: nat, to: nat, n: nat)
    requires Ok(m0) && Ok(c) && Ok(d) && IsRoot(m0, from) && Dense(m0, to, 0) && from != to && n < MAXVPN
    requires Shared(m0, m, from, to, n) && Weakened(m, c) && Unmapped(c, d, to, 0, n)
    ensures Weakened(m0, d)
  {
    hide Ok, Dense;
    UnmappedSees(c, d, to, 0, n);
    EmptyLookup(m0, to);
    forall r, v {:trigger Lookup(d.table, r, v)} | IsRoot(m0, r) && 0 <= v < MAXVPN
      ensures NoWrite(Lookup(d.table, r, v)) == NoWrite(Lookup(m0.table, r, v))
    {
      assert IsRoot(m, r) && IsRoot(c, r);
    }
    forall r, v {:trigger See(d, r, v)} | IsRoot(m0, r) && 0 <= v < MAXVPN ensures See(d, r, v) == See(m0, r, v) {
      assert IsRoot(m, r) && IsRoot(c, r);
    }
    forall r ensures IsRoot(m0, r) <==> IsRoot(d, r) {
      assert IsRoot(m0, r) <==> IsRoot(m, r);
      assert IsRoot(m, r) <==> IsRoot(c, r);
      assert IsRoot(c, r) <==> IsRoot(d, r);
    }
  }

  lemma EmptyLookup(m: Mem, root: nat)
    requires Ok(m) && Dense(m, root, 0)
    ensures IsRoot(m, root)
    ensures forall v {:trigger Lookup(m.table, root, v)} :: 0 <= v < MAXVPN ==> Lookup(m.table, root, v) == None
    ensures forall v {:trigger See(m, root, v)} :: 0 <= v < MAXVPN ==> See(m, root, v) == None
  {
    hide Ok;
    forall v {:trigger Lookup(m.table, root, v)} | 0 <= v < MAXVPN ensures Lookup(m.table, root, v) == None {
      NoneSeen(m, root, 0, v);
      if Lookup(m.table, root, v).Some? { SeeSome(m, root, v); }
    }
  }

  // ----- consequences for address spaces -----

  lemma SharedInjective(m: Mem, m': Mem, from: nat, to: nat, n: nat, r: nat)
    requires Ok(m) && Shared(m, m', from, to, n) && IsRoot(m, from) && Dense(m, to, 0) && Injective(m, from)
    requires r == from || r == to
    ensures Injective(m', r)
  {
    hide Ok, Lookup, See, Dense;
    EmptyLookup(m, to);
    forall v, w {:trigger Lookup(m'.table, r, v), Lookup(m'.table, r, w)} |
        (&& 0 <= v < MAXVPN && 0 <= w < MAXVPN && Lookup(m'.table, r, v).Some? && Lookup(m'.table, r, w).Some?
         && Lookup(m'.table, r, v).value.ppn == Lookup(m'.table, r, w).value.ppn)
      ensures v == w
    {
      assert Lookup(m.table, from, v).Some? && Lookup(m.table, from, w).Some?;
    }
  }

  lemma WeakenedInjective(m: Mem, m': Mem, root: nat)
    requires Weakened(m, m') && IsRoot(m, root) && Injective(m, root)
    ensures Injective(m', root)
  {
    hide Lookup;
    forall v, w {:trigger Lookup(m'.table, root, v), Lookup(m'.table, root, w)} |
        (&& 0 <= v < MAXVPN && 0 <= w < MAXVPN && Lookup(m'.table, root, v).Some? && Lookup(m'.table, root, w).Some?
         && Lookup(m'.table, root, v).value.ppn == Lookup(m'.table, root, w).value.ppn)
      ensures v == w
    {
      assert Lookup(m.table, root, v).Some? && Lookup(m.table, root, w).Some?;
    }
  }

  /** One round of the loop in uvmcopy(), `n` rounds after state `m0`. */
  method SharePage(vm: Mmu, from: nat, to: nat, n: nat, ghost m0: Mem) returns (ok: bool, ghost pa: nat)
    requires Ok(vm.S()) && Ok(m0) && IsRoot(m0, from) && Dense(m0, to, 0) && from != to && n < MAXVPN
    requires Shared(m0, vm.S(), from, to, n) && Lookup(m0.table, from, n).Some?
    modifies vm, vm.k
    ensures Ok(vm.S())
    ensures ok ==> Shared(m0, vm.S(), from, to, n + 1)
    ensures !ok ==> Weakened(old(vm.S()), vm.S()) && vm.held == Plus(m0.held, pa)
                    && pa == Lookup(m0.table, from, n).value.ppn && vm.k.freelist == []
    ensures if ok then Took(old(vm.S()), vm.S(), to, n) else Lacks(old(vm.S()), to, n)
  {
    hide Ok, Shared, Mapped, Weakened, LeafTable, Dense, FreeListOk, CanMap, IsRoot, Reaches, Missing;
    ghost var m := vm.S();
    SharedFacts(m0, m, from, to, n);
    ProtectOk(m, from, n);
    var f := vm.Walk(from, n, false);
    assert f != 0;                             // panic("uvmcopy: pte should exist") is unreachable
    var i := Px(0, n);
    assert vm.table[f][i].v;                   // panic("uvmcopy: page not present") is unreachable
    var p := vm.table[f][i].ppn;
    var flags := vm.table[f][i].(w := false);
    vm.table := vm.table[f := vm.table[f][i := flags]];
    vm.k.Increse(p);
    vm.held := Plus(vm.held, p);
    ghost var b := vm.S();
    assert b == Protect(m, f, i);
    ShareCanMap(m0, m, from, to, n, f);
    PageOfPage(n);
    PageOfPage(p);
    var r, done := vm.Mappages(to, n * PGSIZE, PGSIZE, p * PGSIZE, flags);
    if r != 0 {
      ShareFailed(m0, m, b, vm.S(), from, to, n, f);
      return false, p;
    }
    SharedStep(m0, m, b, vm.S(), from, to, n, f);
    return true, p;
  }

  lemma SharedFacts(m0: Mem, m: Mem, from: nat, to: nat, n: nat)
    requires Ok(m0) && IsRoot(m0, from) && Dense(m0, to, 0) && from != to && n < MAXVPN
    requires Shared(m0, m, from, to, n) && Lookup(m0.table, from, n).Some?
    ensures IsRoot(m0, to) && IsRoot(m, from) && IsRoot(m, to)
    ensures Lookup(m.table, from, n) == Lookup(m0.table, from, n) && Lookup(m.table, to, n) == None
  {
    hide Ok, Dense;
    EmptyLookup(m0, to);
  }

  lemma ShareCanMap(m0: Mem, m: Mem, from: nat, to: nat, n: nat, f: nat)
    requires Ok(m0) && Ok(m) && IsRoot(m0, from) && Dense(m0, to, 0) && from != to && n < MAXVPN
    requires Shared(m0, m, from, to, n) && Lookup(m0.table, from, n).Some? && LeafTable(m.table, from, n) == Some(f)
    requires f in m.table && m.table[f][Px(0, n)].ppn in m.refcnt
             && Lookup(m.table, from, n) == Some(m.table[f][Px(0, n)])
    requires Ok(Protect(m, f, Px(0, n)))
    ensures var b, pte := Protect(m, f, Px(0, n)), m.table[f][Px(0, n)];
            IsRoot(b, to) && pte.r && CanMap(b, to, n, pte.ppn, pte.(w := false), 0)
  {
    hide Ok, LeafTable, Shared, Dense;
    SharedFacts(m0, m, from, to, n);
    ProtectEffect(m, from, n, f);
    SeeSome(m, from, n);
  }

  /** uvmcopy(): 0, or -1 when a page-table page could not be allocated, which for a child without table
      pages for that range is exactly when the free frames are fewer than the table pages it takes.  On
      the error exit the page at which it stopped has had its count raised but is mapped in no child:
      `leak`. */
  method Uvmcopy(vm: Mmu, from: nat, to: nat, sz: nat) returns (r: int, ghost leak: nat)
    requires vm.Valid() && Dense(vm.S(), from, PageUp(sz)) && Dense(vm.S(), to, 0) && from != to
    modifies vm, vm.k
    ensures vm.Valid()
    ensures r == 0 || r == -1
    ensures r == 0 ==> Shared(old(vm.S()), vm.S(), from, to, PageUp(sz))
    ensures r == -1 ==> && Weakened(old(vm.S()), vm.S()) && vm.held == Plus(old(vm.held), leak)
                        && exists v :: 0 <= v < PageUp(sz) && old(Lookup(vm.table, from, v)).Some?
                                       && leak == old(Lookup(vm.table, from, v)).value.ppn
    ensures Bare(old(vm.role), to, PageUp(sz)) ==> (r == -1 <==> |old(vm.k.freelist)| < TablesFor(PageUp(sz)))
  {
    hide Ok, Shared, Weakened, Unmapped, Lookup, See, PageUp, Bare, Covers, Reaches, Missing, TablesFor;
    ghost var m0 := vm.S();
    CoversNone(m0.role, to);
    NoTables();
    DenseLookup(m0, from, PageUp(sz));
    SharedNone(m0, from, to);
    var i := 0;
    leak := 0;
    while i * PGSIZE < sz
      invariant 0 <= i <= PageUp(sz) && vm.Valid() && Shared(m0, vm.S(), from, to, i)
      invariant Bare(m0.role, to, PageUp(sz)) ==>
                  Covers(m0.role, vm.role, to, i) && |vm.k.freelist| + TablesFor(i) == |m0.free|
      decreases PageUp(sz) - i
    {
      PageUpAbove(i, sz);
      ghost var m := vm.S();
      assert Lookup(m0.table, from, i).Some?;
      if Bare(m0.role, to, PageUp(sz)) { NextTables(m0.role, vm.role, to, i, PageUp(sz)); }
      var ok, pa := SharePage(vm, from, to, i, m0);
      if ok && Bare(m0.role, to, PageUp(sz)) { CoversNext(m0.role, m.role, vm.role, to, i); }
      if !ok {
        leak := pa;
        Unshare(vm, from, to, i, m0, m);
        return -1, leak;
      }
      i := i + 1;
    }
    PageUpReached(i, sz);
    r := 0;
  }

  lemma NoTables()
    ensures TablesFor(0) == 0
  {
  }

  lemma NextTables(role: Roles, role': Roles, to: nat, i: nat, n: nat)
    requires i < n <= MAXVPN && Covers(role, role', to, i) && Bare(role, to, n)
    ensures Missing(role', to, i, 0) == TablesFor(i + 1) - TablesFor(i) && TablesFor(i + 1) <= TablesFor(n)
  {
    hide Covers, Has, Missing;
    NextMissing(role, role', to, i);
    TablesGrow(i + 1, n);
  }

  /** The uvmunmap() on uvmcopy()'s error exit. */
  method Unshare(vm: Mmu, from: nat, to: nat, n: nat, ghost m0: Mem, ghost m: Mem)
    requires vm.Valid() && Ok(m0) && Dense(m0, to, 0) && from != to && n < MAXVPN && IsRoot(m0, from)
    requires Shared(m0, m, from, to, n) && Weakened(m, vm.S())
    requires forall v {:trigger Lookup(m0.table, from, v)} :: 0 <= v < n ==> Lookup(m0.table, from, v).Some?
    modifies vm, vm.k
    ensures vm.Valid() && vm.held == old(vm.held) && Weakened(m0, vm.S())
  {
    hide Ok, Shared, Weakened, Unmapped, See, Dense;
    ghost var c := vm.S();
    UnshareFacts(m0, m, c, from, to, n);
    PageOfPage(0);
    vm.Uvmunmap(to, 0, n, true);
    UnsharedWeakened(m0, m, c, vm.S(), from, to, n);
  }

  lemma UnshareFacts(m0: Mem, m: Mem, c: Mem, from: nat, to: nat, n: nat)
    requires Dense(m0, to, 0) && from != to && n < MAXVPN && IsRoot(m0, from)
    requires Shared(m0, m, from, to, n) && Weakened(m, c)
    requires forall v {:trigger Lookup(m0.table, from, v)} :: 0 <= v < n ==> Lookup(m0.table, from, v).Some?
    ensures IsRoot(c, to) && forall v {:trigger Lookup(c.table, to, v)} :: 0 <= v < n ==> Lookup(c.table, to, v).Some?
  {
    hide Lookup;
    assert IsRoot(m, to);
    forall v {:trigger Lookup(c.table, to, v)} | 0 <= v < n ensures Lookup(c.table, to, v).Some? {
      assert Lookup(m0.table, from, v).Some?;
      assert NoWrite(Lookup(c.table, to, v)) == NoWrite(Lookup(m.table, to, v));
    }
  }
}
