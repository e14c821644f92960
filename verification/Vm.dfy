/** kernel/vm.c and cowfault() of kernel/trap.c on page tables in physical frames. */
module Vm {
  import opened Common
  import opened Sv39
  import opened Frames
  import opened Kalloc
  import opened Teardown
  import opened TableCount

  /** Only table pages were added: nothing any process sees has changed. */
  ghost predicate Grown(m: Mem, m': Mem) {
    && (forall r :: IsRoot(m, r) <==> IsRoot(m', r))
    && (forall r, v {:trigger Lookup(m'.table, r, v)} :: IsRoot(m, r) && 0 <= v < MAXVPN ==>
          Lookup(m'.table, r, v) == Lookup(m.table, r, v))
    && m'.held == m.held && m'.role.Keys == m.role.Keys
    && (forall f :: f in m.role && m.role[f].Data? && f in m.refcnt && f in m.data ==>
          && m'.role[f].Data?
          && f in m'.refcnt && m'.refcnt[f] == m.refcnt[f] && f in m'.data && m'.data[f] == m.data[f])
    && |m'.free| <= |m.free|
  }

  lemma FreeHead(m: Mem)
    requires Ok(m) && m.free != []
    ensures var g := m.free[0];
            && g in m.role && m.role[g].Free? && g !in m.table && g != 0
            && g in m.refcnt && m.refcnt[g] == 0 && g in m.held && m.held[g] == 0 && g in m.data
  {
    var g := m.free[0];
    assert g in m.free;
    assert m.refcnt[g] == |Slots(m.table, m.role, g)| + m.held[g];
  }

  lemma RootIsTable(m: Mem, f: nat)
    requires Ok(m) && f in m.table
    ensures f in m.role && m.role[f].Node? && m.role[f].root in m.table
  {
    hide FreeListOk, RolesOk, Counted, NoSharedWrite;
    Up(m.table, m.role, {}, f);
  }

  lemma TakeLinkGrown(m: Mem, f: nat, i: nat)
    requires Ok(m) && m.free != []
    requires f in m.table && f in m.role && m.role[f].Node? && |m.role[f].path| < 2
    requires i < NPTE && !m.table[f][i].v && (m.role[f].path == [] ==> i < NPTE / 2)
    ensures var g := m.free[0];
            && g in m.role && g != f && g != 0 && Ok(Take(m)) && Ok(Link(Take(m), f, i, g))
                && Grown(m, Link(Take(m), f, i, g))
  {
    hide Ok;
    var g := m.free[0];
    FreeHead(m);
    RootIsTable(m, f);
    TakeOk(m);
    var n := Take(m);
    LinkOk(n, f, i, g);
    hide CanLink;
    var m' := Link(n, f, i, g);
    forall r, v {:trigger Lookup(m'.table, r, v)} | IsRoot(m, r) && 0 <= v < MAXVPN
      ensures Lookup(m'.table, r, v) == Lookup(m.table, r, v)
    {
      LinkIsolated(n.table, n.role, f, i, g, r, v);
    }
  }

  /** walk() stands at a table page `f` of `root`, above level 0, on the way to `vpn`. */
  ghost predicate OnPath(m: Mem, root: nat, vpn: nat, level: nat, f: nat)
    requires level <= 2 && vpn < MAXVPN
  {
    && f in m.table && f in m.role && m.role[f].Node? && m.role[f].root == root
    && m.role[f].path == PathOf(vpn)[..2 - level]
  }

  lemma WalkStarts(m: Mem, root: nat, vpn: nat)
    requires Ok(m) && IsRoot(m, root) && vpn < MAXVPN
    ensures OnPath(m, root, vpn, 2, root)
  {
    assert UpLink(m.table, m.role, root);
  }

  lemma WalkGoesOn(m: Mem, root: nat, vpn: nat, level: nat, f: nat)
    requires Ok(m) && vpn < MAXVPN && 1 <= level <= 2 && OnPath(m, root, vpn, level, f)
    ensures var p := m.table[f][Px(level, vpn)];
            p.v ==> OnPath(m, root, vpn, level - 1, p.ppn) && p.ppn != 0
  {
    var i := Px(level, vpn);
    assert DownLink(m.table, m.role, f, i);
    assert PathOf(vpn)[..2 - level] + [i] == PathOf(vpn)[..2 - (level - 1)];
    if m.table[f][i].v {
      assert UpLink(m.table, m.role, m.table[f][i].ppn);
    }
  }

  lemma WalkGrows(m: Mem, root: nat, vpn: nat, level: nat, f: nat)
    requires Ok(m) && vpn < MAXVPN && 1 <= level <= 2 && OnPath(m, root, vpn, level, f)
    requires m.free != [] && !m.table[f][Px(level, vpn)].v
    ensures var i, g := Px(level, vpn), m.free[0];
            && g in m.role && g != f && g != 0
            && var m' := Link(Take(m), f, i, g);
               Ok(m') && Grown(m, m') && OnPath(m', root, vpn, level - 1, g) && |m'.free| == |m.free| - 1
               && Gained(m.role, m'.role, root, PathOf(vpn)[..3 - level])
  {
    hide Ok, Grown, Gained;
    var i := Px(level, vpn);
    TakeLinkGrown(m, f, i);
    FreeHead(m);
    LinkHas(m.role, Take(m).role, f, i, m.free[0]);
    assert PathOf(vpn)[..2 - level] + [i] == PathOf(vpn)[..2 - (level - 1)];
  }

  /** An entry on the way is valid exactly when the next table page exists. */
  lemma WalkHas(m: Mem, root: nat, vpn: nat, level: nat, f: nat)
    requires Ok(m) && vpn < MAXVPN && 1 <= level <= 2 && OnPath(m, root, vpn, level, f)
    ensures m.table[f][Px(level, vpn)].v <==> Has(m.role, root, PathOf(vpn)[..3 - level])
  {
    hide Has;
    OkParts(m);
    ValidHas(m.table, m.role, f, Px(level, vpn));
    assert PathOf(vpn)[..2 - level] + [Px(level, vpn)] == PathOf(vpn)[..3 - level];
  }

  lemma ReachesNone(role: Roles, root: nat, vpn: nat)
    requires vpn < MAXVPN
    ensures Reaches(role, role, root, vpn, 2) && Missing(role, root, vpn, 2) == 0
  {
  }

  /** A table page not there when walk() needs it was not there at the start. */
  lemma WalkLacks(role: Roles, role': Roles, root: nat, vpn: nat, level: nat)
    requires vpn < MAXVPN && 1 <= level <= 2 && Reaches(role, role', root, vpn, level)
    requires !Has(role', root, PathOf(vpn)[..3 - level])
    ensures Missing(role, root, vpn, level) < Missing(role, root, vpn, 0)
  {
    hide Has;
    assert PathOf(vpn)[..2] == PathOf(vpn);
  }

  /** walk() added the table pages for `vpn` that were missing, each from one free frame. */
  ghost predicate Took(m: Mem, m': Mem, root: nat, vpn: nat)
    requires vpn < MAXVPN
  {
    Reaches(m.role, m'.role, root, vpn, 0) && |m'.free| + Missing(m.role, root, vpn, 0) == |m.free|
  }

  /** There are too few free frames for that. */
  ghost predicate Lacks(m: Mem, root: nat, vpn: nat)
    requires vpn < MAXVPN
  {
    |m.free| < Missing(m.role, root, vpn, 0)
  }

  lemma WalkStops(m: Mem, root: nat, vpn: nat, f: nat)
    requires Ok(m) && vpn < MAXVPN && OnPath(m, root, vpn, 0, f)
    ensures LeafTable(m.table, root, vpn) == Some(f) && f != 0 && m.role[f].path == PathOf(vpn)
  {
    assert UpLink(m.table, m.role, f);
    assert PathOf(vpn)[..2] == PathOf(vpn);
    WalkFinds(m.table, m.role, f, vpn);
  }

  lemma TookFew(m: Mem, m': Mem, root: nat, vpn: nat)
    requires vpn < MAXVPN && Took(m, m', root, vpn)
    ensures |m.free| <= |m'.free| + 2
  {
  }

  lemma LacksFew(m: Mem, root: nat, vpn: nat)
    requires vpn < MAXVPN && Lacks(m, root, vpn)
    ensures |m.free| <= 1
  {
  }

  lemma OnPathMeans(m: Mem, root: nat, vpn: nat, level: nat, f: nat)
    requires level <= 2 && vpn < MAXVPN && OnPath(m, root, vpn, level, f)
    ensures f in m.table && f in m.role && m.role[f].Node? && m.role[f].root == root
    ensures m.role[f].path == PathOf(vpn)[..2 - level]
  {
  }

  lemma GrownRefl(a: Mem)
    ensures Grown(a, a)
  {
  }

  lemma GrownTrans(a: Mem, b: Mem, c: Mem)
    requires Grown(a, b) && Grown(b, c)
    ensures Grown(a, c)
  {
  }

  /** Lookup after one level-0 entry was rewritten, for every page of every page table. */
  lemma SetLeafLookup(m: Mem, root: nat, vpn: nat, f: nat, pte: Pte)
    requires Ok(m) && IsRoot(m, root) && vpn < MAXVPN && LeafTable(m.table, root, vpn) == Some(f)
    ensures f in m.table && f in m.role && m.role[f].Node? && |m.role[f].path| == 2
    ensures var t' := m.table[f := m.table[f][Px(0, vpn) := pte]];
            forall r, v {:trigger Lookup(t', r, v)} :: IsRoot(m, r) && 0 <= v < MAXVPN ==>
              Lookup(t', r, v) == if r == root && v == vpn then (if pte.v then Some(pte) else None)
                                  else Lookup(m.table, r, v)
  {
    OkParts(m);
    hide Ok, WellFormed;
    WalkArrives(m.table, m.role, root, vpn);
    var t' := m.table[f := m.table[f][Px(0, vpn) := pte]];
    forall r, v {:trigger Lookup(t', r, v)} | IsRoot(m, r) && 0 <= v < MAXVPN
      ensures Lookup(t', r, v) == if r == root && v == vpn then (if pte.v then Some(pte) else None)
                                  else Lookup(m.table, r, v)
    {
      SetLeafIsolated(m.table, m.role, f, Px(0, vpn), pte, r, v);
      if r == root && PathOf(v) == PathOf(vpn) && Px(0, v) == Px(0, vpn) {
        PxInjective(v, vpn);
      }
    }
  }

  /** `n` pages of `root` from `a` on were mapped to the held frames from `p` on. */
  ghost predicate Mapped(m: Mem, m': Mem, root: nat, a: nat, p: nat, perm: Pte, n: nat) {
    && (forall r :: IsRoot(m, r) <==> IsRoot(m', r))
    && (forall r, v {:trigger Lookup(m'.table, r, v)} :: IsRoot(m, r) && 0 <= v < MAXVPN ==>
          Lookup(m'.table, r, v) == if r == root && a <= v < a + n then Some(perm.(v := true, ppn := p + v - a))
                                    else Lookup(m.table, r, v))
    && m'.role.Keys == m.role.Keys && m'.held.Keys == m.held.Keys
    && (forall f {:trigger m'.held[f]} :: f in m.held ==> m'.held[f] + (if p <= f < p + n then 1 else 0) == m.held[f])
    && (forall f :: f in m.role && m.role[f].Data? && f in m.refcnt && f in m.data ==>
          && m'.role[f].Data?
          && f in m'.refcnt && m'.refcnt[f] == m.refcnt[f] && f in m'.data && m'.data[f] == m.data[f])
  }

  /** Page `a + j` of `root` is unmapped, and frame `p + j` is held for it. */
  ghost predicate CanMap(m: Mem, root: nat, a: nat, p: nat, perm: Pte, j: nat) {
    && a + j < MAXVPN && Lookup(m.table, root, a + j) == None
    && p + j in m.role && m.role[p + j].Data? && p + j in m.held && m.held[p + j] >= 1
    && p + j in m.refcnt && p + j in m.data && (perm.w ==> m.refcnt[p + j] == 1)
  }

  lemma MappedNone(m: Mem, root: nat, a: nat, p: nat, perm: Pte)
    ensures Mapped(m, m, root, a, p, perm, 0)
  {
  }

  lemma MappedRoot(m: Mem, m': Mem, root: nat, a: nat, p: nat, perm: Pte, n: nat)
    requires Mapped(m, m', root, a, p, perm, n) && IsRoot(m, root)
    ensures IsRoot(m', root)
  {
  }

  lemma MappedGrown(m0: Mem, m: Mem, n: Mem, root: nat, a: nat, p: nat, perm: Pte, k: nat)
    requires Mapped(m0, m, root, a, p, perm, k) && Grown(m, n)
    ensures Mapped(m0, n, root, a, p, perm, k)
  {
  }

  /** One round of mappages(): walk() may add table pages, then one entry is stored. */
  lemma MappedStep(m0: Mem, m: Mem, n: Mem, root: nat, a: nat, p: nat, perm: Pte, k: nat, f: nat)
    requires Mapped(m0, m, root, a, p, perm, k) && Grown(m, n) && Ok(n) && IsRoot(m0, root) && a + k < MAXVPN
    requires LeafTable(n.table, root, a + k) == Some(f)
    requires perm.r && CanMap(m0, root, a, p, perm, k)
    ensures var pte := perm.(v := true, ppn := p + k);
            && CanSetLeaf(n, f, Px(0, a + k), pte) && !n.table[f][Px(0, a + k)].v
            && Ok(SetLeaf(n, f, Px(0, a + k), pte))
            && Mapped(m0, SetLeaf(n, f, Px(0, a + k), pte), root, a, p, perm, k + 1)
  {
    hide Ok;
    var pte, i := perm.(v := true, ppn := p + k), Px(0, a + k);
    SetLeafLookup(n, root, a + k, f, pte);
    assert Lookup(n.table, root, a + k) == None;
    assert CanSetLeaf(n, f, i, pte);
    SetLeafOk(n, f, i, pte);
  }

  /** `n` pages of `root` from `a` on were unmapped; frames that lost their last reference
      are free, and no byte of any other frame has changed. */
  ghost predicate Unmapped(m: Mem, m': Mem, root: nat, a: nat, n: nat) {
    && (forall r :: IsRoot(m, r) <==> IsRoot(m', r))
    && (forall r, v {:trigger Lookup(m'.table, r, v)} :: IsRoot(m, r) && 0 <= v < MAXVPN ==>
          Lookup(m'.table, r, v) == if r == root && a <= v < a + n then None else Lookup(m.table, r, v))
    && m'.role.Keys == m.role.Keys && m'.table.Keys == m.table.Keys
    && (forall f :: f in m.role ==> m'.role[f] == m.role[f] || (m.role[f].Data? && m'.role[f].Free?))
    && (forall f :: f in m.role && f in m.data && m'.role[f].Data? ==> f in m'.data && m'.data[f] == m.data[f])
  }

  lemma UnmappedNone(m: Mem, root: nat, a: nat)
    ensures Unmapped(m, m, root, a, 0)
  {
  }

  /** One round of uvmunmap(): kfree() of the frame, then the entry is cleared. */
  ghost function Unmap(m: Mem, f: nat, i: nat, do_free: bool): Mem
    requires f in m.table && i < NPTE && m.table[f][i].ppn in m.refcnt && m.refcnt[m.table[f][i].ppn] >= 1
  {
    var m1 := SetLeaf(m, f, i, EMPTY);
    if do_free then Drop(m1, m.table[f][i].ppn) else m1
  }

  lemma UnmapOk(m: Mem, root: nat, vpn: nat, do_free: bool)
    requires Ok(m) && IsRoot(m, root) && vpn < MAXVPN && Lookup(m.table, root, vpn).Some?
    ensures var f, i := LeafTable(m.table, root, vpn).value, Px(0, vpn);
            && f in m.table && m.table[f][i].v && m.table[f][i].r && f in m.role && m.role[f].Node?
            && m.table[f][i].ppn in m.refcnt && m.refcnt[m.table[f][i].ppn] >= 1 && m.table[f][i].ppn in m.held
            && m.table[f][i].ppn in m.role && m.role[m.table[f][i].ppn].Data? && m.table[f][i].ppn in m.data
            && FreeListOk(m.refcnt, m.data, m.free)
            && Ok(Unmap(m, f, i, do_free))
  {
    hide Ok, Slots;
    LookupIsSlot(m, root, vpn);
    var f, i := LeafTable(m.table, root, vpn).value, Px(0, vpn);
    SlotCounts(m, (f, i));
    OkParts(m);
    SetLeafOk(m, f, i, EMPTY);
    var m1 := SetLeaf(m, f, i, EMPTY);
    if do_free {
      DropOk(m1, m.table[f][i].ppn);
    }
  }

  lemma UnmapEffect(m: Mem, root: nat, vpn: nat, do_free: bool)
    requires Ok(m) && IsRoot(m, root) && vpn < MAXVPN && Lookup(m.table, root, vpn).Some?
    ensures var f, i := LeafTable(m.table, root, vpn).value, Px(0, vpn);
            && f in m.table && m.table[f][i].ppn in m.refcnt && m.refcnt[m.table[f][i].ppn] >= 1
            && Unmapped(m, Unmap(m, f, i, do_free), root, vpn, 1)
  {
    hide Ok, FreeListOk, LeafTable;
    UnmapOk(m, root, vpn, do_free);
    SetLeafLookup(m, root, vpn, LeafTable(m.table, root, vpn).value, EMPTY);
  }

  lemma UnmappedTrans(m0: Mem, m: Mem, m': Mem, root: nat, a: nat, n: nat)
    requires Unmapped(m0, m, root, a, n) && Unmapped(m, m', root, a + n, 1)
    ensures Unmapped(m0, m', root, a, n + 1)
  {
  }

  lemma UnmapStep(m0: Mem, m: Mem, root: nat, a: nat, n: nat, do_free: bool)
    requires Ok(m) && IsRoot(m0, root) && a + n < MAXVPN && Unmapped(m0, m, root, a, n)
    requires Lookup(m0.table, root, a + n).Some?
    ensures IsRoot(m, root) && Lookup(m.table, root, a + n).Some?
    ensures var f, i := LeafTable(m.table, root, a + n).value, Px(0, a + n);
            && f in m.table && m.table[f][i].ppn in m.refcnt && m.refcnt[m.table[f][i].ppn] >= 1
            && Unmapped(m0, Unmap(m, f, i, do_free), root, a, n + 1)
  {
    hide Ok, Unmap;
    assert IsRoot(m, root) && Lookup(m.table, root, a + n) == Lookup(m0.table, root, a + n);
    UnmapEffect(m, root, a + n, do_free);
    var f, i := LeafTable(m.table, root, a + n).value, Px(0, a + n);
    UnmappedTrans(m0, m, Unmap(m, f, i, do_free), root, a, n);
  }

  function PageOf(va: nat): nat { va / PGSIZE }

  lemma PageOrder(va: nat, size: nat)
    requires size > 0 && va + size - 1 < MAXVPN * PGSIZE
    ensures PageOf(va) <= PageOf(va + size - 1) < MAXVPN
  {
  }

  class Mmu {
    const k: Kmem
    var table: Tables
    ghost var role: Roles
    ghost var held: map<nat, nat>

    ghost function S(): Mem
      reads this, k
    {
      Mem(table, role, k.refcnt, k.data, held, k.freelist)
    }

    ghost predicate Valid()
      reads this, k
    {
      Ok(S())
    }

    /** The machine after kinit(): every frame is free and there is no page table. */
    constructor (kmem: Kmem)
      requires kmem.Valid() && forall f :: f in kmem.refcnt ==> kmem.refcnt[f] == 0
      ensures Valid() && k == kmem && table == map[] && forall f :: f in held ==> held[f] == 0
    {
      k, table := kmem, map[];
      role, held := map f | f in kmem.refcnt :: Free, map f | f in kmem.refcnt :: 0;
      new;
      forall f {:trigger Slots(table, role, f)} | f in role ensures k.refcnt[f] == |Slots(table, role, f)| + held[f] {
        assert Slots(table, role, f) == {};
      }
      assert forall s: (nat, nat) :: SoleWriter(S(), s);
    }

    /** kalloc() for this module's own use: the frame is held by the caller. */
    method TakeFrame() returns (f: nat)
      requires Valid()
      modifies this`role, this`held, k
      ensures Valid()
      ensures old(k.freelist) == [] ==> f == 0 && S() == old(S())
      ensures old(k.freelist) != [] ==> f == old(k.freelist)[0] && f != 0 && S() == Take(old(S()))
    {
      ghost var m := S();
      if k.freelist != [] {
        TakeOk(m);
      }
      f := k.Kalloc();
      if f != 0 {
        role := role[f := Data];
        held := Plus(held, f);
        assert S() == Take(m);
      }
    }

    /** kfree() of a frame whose reference the caller holds. */
    method DropFrame(f: nat)
      requires Valid() && f in held && held[f] >= 1
      modifies this`role, this`held, k
      ensures f in old(k.refcnt) && old(k.refcnt)[f] >= 1 && Valid() && S() == Drop(old(S()), f)
    {
      hide Ok, FreeListOk;
      ghost var m := S();
      DropOk(m, f);
      OkParts(m);
      k.Kfree(f);
      if k.refcnt[f] == 0 {
        role := role[f := Free];
      }
      held := Minus(held, f);
      assert S() == Drop(m, f);
    }

    /** walk(): the level-0 table page that holds the entry for `vpn`, or 0. */
    method Walk(root: nat, vpn: nat, alloc: bool) returns (f: nat)
      requires Valid() && IsRoot(S(), root) && vpn < MAXVPN
      modifies this, k
      ensures Valid() && Grown(old(S()), S())
      ensures !alloc ==> S() == old(S())
      ensures f == 0 ==> if alloc then k.freelist == [] else LeafTable(table, root, vpn) == None
      ensures alloc ==> if f == 0 then Lacks(old(S()), root, vpn) else Took(old(S()), S(), root, vpn)
      ensures f != 0 ==> LeafTable(table, root, vpn) == Some(f)
                         && f in table && role[f].root == root && role[f].path == PathOf(vpn)
    {
      hide Ok, Grown, OnPath, Reaches, Missing, Has;
      ghost var start := S();
      ReachesNone(start.role, root, vpn);
      GrownRefl(start);
      WalkStarts(start, root, vpn);
      var level := 2;
      f := root;
      while level > 0
        invariant 0 <= level <= 2 && Ok(S()) && Grown(start, S()) && OnPath(S(), root, vpn, level, f)
        invariant level == 2 ==> f == root
        invariant alloc ==> Reaches(start.role, role, root, vpn, level)
        invariant alloc ==> |k.freelist| + Missing(start.role, root, vpn, level) == |start.free|
        invariant !alloc ==> S() == start && (level == 1 ==> Descend(table, root, Px(2, vpn)) == Some(f))
      {
        ghost var m := S();
        var i := Px(level, vpn);
        OnPathMeans(m, root, vpn, level, f);
        WalkGoesOn(m, root, vpn, level, f);
        WalkHas(m, root, vpn, level, f);
        if table[f][i].v {
          if alloc { ReachesOn(start.role, role, root, vpn, level); }
          f := table[f][i].ppn;
        } else {
          if !alloc {
            f := 0;
            return;
          }
          WalkLacks(start.role, role, root, vpn, level);
          if k.freelist != [] {
            WalkGrows(m, root, vpn, level, f);
          }
          var g := TakeFrame();
          if g == 0 {
            f := 0;
            return;
          }
          table := table[f := table[f][i := EMPTY.(v := true, ppn := g)]][g := ZeroTable()];
          role := LinkRole(role, f, i, g);
          held := Minus(held, g);
          assert S() == Link(Take(m), f, i, g);
          ReachesNew(start.role, m.role, role, root, vpn, level);
          GrownTrans(start, m, S());
          f := g;
        }
        level := level - 1;
      }
      OnPathMeans(S(), root, vpn, level, f);
      WalkStops(S(), root, vpn, f);
    }

    /** One round of the loop in mappages(), `done` rounds after state `m0`. */
    method MapPage(root: nat, a: nat, p: nat, perm: Pte, ghost m0: Mem, ghost a0: nat, ghost p0: nat, ghost done: nat)
        returns (ok: bool)
      requires Ok(S()) && IsRoot(m0, root) && Mapped(m0, S(), root, a0, p0, perm, done)
      requires a == a0 + done < MAXVPN && p == p0 + done && perm.r && CanMap(m0, root, a0, p0, perm, done)
      modifies this, k
      ensures Ok(S()) && Mapped(m0, S(), root, a0, p0, perm, if ok then done + 1 else done)
      ensures !ok ==> k.freelist == []
      ensures if ok then Took(old(S()), S(), root, a) else Lacks(old(S()), root, a)
    {
      hide Ok, Mapped, Grown, CanMap, LeafTable, Lookup, PathOf, IsRoot, Reaches, Missing;
      ghost var m := S();
      MappedRoot(m0, m, root, a0, p0, perm, done);
      var f := Walk(root, a, true);
      if f == 0 {
        MappedGrown(m0, m, S(), root, a0, p0, perm, done);
        return false;
      }
      MappedStep(m0, m, S(), root, a0, p0, perm, done, f);
      ghost var n := S();
      assert !table[f][Px(0, a)].v;          // panic("mappages: remap") is unreachable
      table := table[f := table[f][Px(0, a) := perm.(v := true, ppn := p)]];
      held := Minus(held, p);
      assert S() == SetLeaf(n, f, Px(0, a), perm.(v := true, ppn := p));
      ok := true;
    }

    /** mappages(): 0, or -1 when walk() ran out of memory after `done` pages. */
    method Mappages(root: nat, va: nat, size: nat, pa: nat, perm: Pte) returns (r: int, ghost done: nat)
      requires Valid() && IsRoot(S(), root)
      requires size > 0 && va + size - 1 < MAXVPN * PGSIZE && perm.r
      requires forall j :: 0 <= j <= PageOf(va + size - 1) - PageOf(va) ==>
                 CanMap(S(), root, PageOf(va), PageOf(pa), perm, j)
      modifies this, k
      ensures Valid() && Mapped(old(S()), S(), root, PageOf(va), PageOf(pa), perm, done)
      ensures r == 0 ==> done == PageOf(va + size - 1) - PageOf(va) + 1
      ensures r != 0 ==> r == -1 && done <= PageOf(va + size - 1) - PageOf(va) && k.freelist == []
      ensures |old(k.freelist)| <= |k.freelist| + 2 * done + if r == 0 then 0 else 2
      ensures PageOf(va) == PageOf(va + size - 1) ==>
                if r == 0 then Took(old(S()), S(), root, PageOf(va)) else Lacks(old(S()), root, PageOf(va))
    {
      hide Ok, Mapped, CanMap, PageOf, Took, Lacks;
      var a, last, p := PageOf(va), PageOf(va + size - 1), PageOf(pa);
      ghost var m0, a0, p0 := S(), a, p;
      PageOrder(va, size);
      MappedNone(m0, root, a, p, perm);
      done, r := 0, 0;
      while r == 0 && a <= last
        invariant r == 0 || (r == -1 && k.freelist == [] && a <= last)
        invariant |m0.free| <= |S().free| + 2 * done + if r == 0 then 0 else 2
        invariant done == 0 && r == 0 ==> S() == m0
        invariant done == 1 && r == 0 ==> Took(m0, S(), root, a0)
        invariant done == 0 && r != 0 ==> Lacks(m0, root, a0)
        invariant last < MAXVPN && a == a0 + done && p == p0 + done && a <= last + 1
        invariant Ok(S()) && Mapped(m0, S(), root, a0, p0, perm, done)
        decreases last - a, r
      {
        assert CanMap(m0, root, a0, p0, perm, done);
        ghost var m := S();
        var ok := MapPage(root, a, p, perm, m0, a0, p0, done);
        if ok { TookFew(m, S(), root, a0 + done); } else { LacksFew(m, root, a0 + done); }
        if ok {
          a, p, done := a + 1, p + 1, done + 1;
        } else {
          r := -1;
        }
      }
    }

    /** uvmunmap(): the pages must be mapped, so its three panics are unreachable. */
    method Uvmunmap(root: nat, va: nat, npages: nat, do_free: bool)
      requires Valid() && IsRoot(S(), root) && va % PGSIZE == 0 && PageOf(va) + npages <= MAXVPN
      requires forall v :: PageOf(va) <= v < PageOf(va) + npages ==> Lookup(table, root, v).Some?
      modifies this, k
      ensures Valid() && Unmapped(old(S()), S(), root, PageOf(va), npages)
      ensures do_free ==> held == old(held)
      ensures !do_free ==> role == old(role) && k.data == old(k.data) && k.refcnt == old(k.refcnt)
    {
      hide Ok, Unmapped, PageOf, LeafTable, IsRoot, FreeListOk;
      ghost var m0 := S();
      var a := PageOf(va);
      var i := 0;
      UnmappedNone(m0, root, a);
      while i < npages
        invariant 0 <= i <= npages && Ok(S()) && Unmapped(m0, S(), root, a, i)
        invariant do_free ==> held == old(held)
        invariant !do_free ==> role == old(role) && k.data == old(k.data) && k.refcnt == old(k.refcnt)
      {
        UnmapStep(m0, S(), root, a, i, do_free);
        UnmapPage(root, a + i, do_free);
        i := i + 1;
      }
    }

    /** One round of the loop in uvmunmap(). */
    method UnmapPage(root: nat, vpn: nat, do_free: bool)
      requires Ok(S()) && IsRoot(S(), root) && vpn < MAXVPN && Lookup(table, root, vpn).Some?
      modifies this, k
      ensures var m := old(S());
              var f, i := LeafTable(m.table, root, vpn).value, Px(0, vpn);
              && f in m.table && m.table[f][i].ppn in m.refcnt && m.refcnt[m.table[f][i].ppn] >= 1
              && S() == Unmap(m, f, i, do_free) && Ok(S())
      ensures do_free ==> held == old(held)
      ensures !do_free ==> role == old(role) && k.data == old(k.data) && k.refcnt == old(k.refcnt)
    {
      hide Ok, FreeListOk;
      ghost var m := S();
      UnmapOk(m, root, vpn, do_free);
      var f := Walk(root, vpn, false);
      assert f != 0;                           // panic("uvmunmap: walk") is unreachable
      var pte := table[f][Px(0, vpn)];
      assert pte.v && Leafy(pte);              // "uvmunmap: not mapped", "uvmunmap: not a leaf"
      if do_free {
        var pa := pte.ppn;
        k.Kfree(pa);
        if k.refcnt[pa] == 0 {
          role := role[pa := Free];
        }
      } else {
        held := Plus(held, pte.ppn);
      }
      table := table[f := table[f][Px(0, vpn) := EMPTY]];
      if do_free {
        assert Minus(Plus(m.held, pte.ppn), pte.ppn) == m.held;
      }
      assert S() == Unmap(m, f, Px(0, vpn), do_free);
    }

    /** freewalk(): return every table page of the subtree at `f`, each once. */
    method Freewalk(f: nat, ghost holes: set<(nat, nat)>)
      requires CanFreewalk(S(), holes, f)
      modifies this, k
      ensures OkExcept(S(), holes) && Walked(old(S()), S(), f)
      decreases 2 - |role[f].path|
    {
      hide OkExcept, Round, Walked, NoLeaves, Detached, HolesAbove, Childless, Leafy;
      ghost var m0 := S();
      WalkBegins(m0, holes, f);
      var i := 0;
      while i < NPTE
        invariant 0 <= i <= NPTE && OkExcept(S(), holes) && Round(m0, S(), f, i)
      {
        ghost var m := S();
        RoundRoles(m0, m, f, i);
        var pte := table[f][i];
        if pte.v && !Leafy(pte) {
          var child := pte.ppn;
          RoundValid(m0, m, holes, f, i);
          Freewalk(child, holes + {(f, i)});
          RoundDone(m0, m, S(), f, i, child);
          RoundChildless(m0, m, S(), f, i, child);
          ClearEntryOk(S(), holes, f, i);
          table := table[f := table[f][i := EMPTY]];
        } else if pte.v {
          RoundValid(m0, m, holes, f, i);
          assert false;                        // panic("freewalk: leaf") is unreachable
        } else {
          RoundInvalid(m0, m, holes, f, i);
        }
        i := i + 1;
      }
      FreeSelf(m0, f, holes);
    }

    /** The kfree() at the end of freewalk(). */
    method FreeSelf(ghost m0: Mem, f: nat, ghost holes: set<(nat, nat)>)
      requires CanFreewalk(m0, holes, f) && OkExcept(S(), holes) && Round(m0, S(), f, NPTE)
      modifies this, k
      ensures OkExcept(S(), holes) && Walked(m0, S(), f)
    {
      hide OkExcept, Round, Walked, NoLeaves, FreeListOk;
      ghost var m := S();
      LastRound(m0, m, holes, f);
      WalkEnds(m0, m, holes, f);
      FreeTableOk(m, holes, f);
      OkExceptFree(m, holes);
      k.Kfree(f);
      table := table - {f};
      role := role[f := Free];
      assert S() == FreeTable(m, f);
    }
  }
}
