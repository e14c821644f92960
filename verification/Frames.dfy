/** The state shared by kernel/kalloc.c, kernel/vm.c and cowfault() of kernel/trap.c as one
    value, its invariant, and the elementary moves every operation is made of.  Each move
    keeps the invariant; the classes in Kalloc.dfy and Vm.dfy perform the moves in place. */
module Frames {
  import opened Common
  import opened Sv39

  type Page = p: seq<byte> | |p| == PGSIZE witness seq(PGSIZE, _ => 0)

  function Fill(b: byte): Page { seq(PGSIZE, _ => b) }

  /** `held` counts the references to a frame that are not page-table entries: a frame in a
      kernel variable between kalloc() and mappages(), and references that were lost. */
  datatype Mem = Mem(table: Tables, role: Roles, refcnt: map<nat, nat>, data: map<nat, Page>,
                     held: map<nat, nat>, free: seq<nat>)

  function Plus(h: map<nat, nat>, f: nat): map<nat, nat> {
    if f in h then h[f := h[f] + 1] else h
  }

  function Minus(h: map<nat, nat>, f: nat): map<nat, nat> {
    if f in h && h[f] > 0 then h[f := h[f] - 1] else h
  }

  /** The free list holds each frame with reference count 0 exactly once. */
  ghost predicate FreeListOk(refcnt: map<nat, nat>, data: map<nat, Page>, free: seq<nat>) {
    && refcnt.Keys == data.Keys && 0 !in refcnt
    && (forall i, j :: 0 <= i < j < |free| ==> free[i] != free[j])
    && (forall f :: f in free <==> f in refcnt && refcnt[f] == 0)
  }

  ghost predicate RolesOk(m: Mem) {
    && m.role.Keys == m.refcnt.Keys == m.held.Keys
    && (forall f :: f in m.role ==> (m.role[f].Free? <==> m.refcnt[f] == 0))
    && (forall f :: f in m.role && m.role[f].Node? ==> m.refcnt[f] == 1 && m.held[f] == 0)
  }

  /** Reference counts are exact: page-table entries plus held references. */
  ghost predicate Counted(m: Mem)
    requires m.role.Keys == m.refcnt.Keys == m.held.Keys
  {
    forall f {:trigger Slots(m.table, m.role, f)} :: f in m.role && !m.role[f].Node? ==>
      m.refcnt[f] == |Slots(m.table, m.role, f)| + m.held[f]
  }

  ghost predicate SoleWriter(m: Mem, s: (nat, nat)) {
    IsSlot(m.table, m.role, s) && m.table[s.0][s.1].w ==>
      m.table[s.0][s.1].ppn in m.refcnt && m.refcnt[m.table[s.0][s.1].ppn] == 1
  }

  /** The copy-on-write invariant: a frame with two references is mapped writable nowhere. */
  ghost predicate NoSharedWrite(m: Mem) {
    forall s: (nat, nat) :: SoleWriter(m, s)
  }

  ghost predicate Ok(m: Mem) {
    && FreeListOk(m.refcnt, m.data, m.free)
    && RolesOk(m)
    && WellFormed(m.table, m.role, {})
    && Counted(m)
    && NoSharedWrite(m)
  }

  lemma OkParts(m: Mem)
    requires Ok(m)
    ensures FreeListOk(m.refcnt, m.data, m.free) && RolesOk(m) && WellFormed(m.table, m.role, {})
  {
  }

  lemma OkIntro(m: Mem)
    requires FreeListOk(m.refcnt, m.data, m.free) && RolesOk(m) && WellFormed(m.table, m.role, {})
    requires Counted(m) && NoSharedWrite(m)
    ensures Ok(m)
  {
  }

  lemma OkCount(m: Mem, f: nat)
    requires Ok(m) && f in m.role && !m.role[f].Node?
    ensures f in m.refcnt && f in m.held && m.refcnt[f] == |Slots(m.table, m.role, f)| + m.held[f]
  {
  }

  predicate IsRoot(m: Mem, r: nat) { r in m.table && r in m.role && m.role[r].Node? && m.role[r].root == r }

  /** What a process sees at a page: its bytes, and whether user mode may touch it. */
  datatype View = View(bytes: Page, user: bool)

  function See(m: Mem, root: nat, vpn: nat): Option<View>
    requires vpn < MAXVPN
  {
    match Lookup(m.table, root, vpn)
    case None => None
    case Some(p) => if p.ppn in m.data then Some(View(m.data[p.ppn], p.u)) else None
  }

  /** A valid translation is a physical entry that counts as a reference. */
  lemma LookupIsSlot(m: Mem, root: nat, vpn: nat)
    requires Ok(m) && IsRoot(m, root) && vpn < MAXVPN && Lookup(m.table, root, vpn).Some?
    ensures var p, f := Lookup(m.table, root, vpn).value, LeafTable(m.table, root, vpn).value;
            && IsSlot(m.table, m.role, (f, Px(0, vpn)))
            && m.role[f].root == root && m.role[f].path == PathOf(vpn)
            && m.table[f][Px(0, vpn)] == p && p.r && p.v
            && (f, Px(0, vpn)) in Slots(m.table, m.role, p.ppn)
            && p.ppn in m.role && m.role[p.ppn].Data? && m.refcnt[p.ppn] >= 1
  {
    var f, i := LeafTable(m.table, root, vpn).value, Px(0, vpn);
    WalkArrives(m.table, m.role, root, vpn);
    assert UpLink(m.table, m.role, f);
    assert DownLink(m.table, m.role, f, i);
    assert (f, i) in Entries(m.table);
    var p := m.table[f][i];
    assert (f, i) in Slots(m.table, m.role, p.ppn);
    assert |Slots(m.table, m.role, p.ppn)| >= 1;
  }

  /** A free frame, and a frame only held, is referred to by no page table at all. */
  lemma Unreferenced(m: Mem, g: nat)
    requires Ok(m) && g in m.role && !m.role[g].Node? && g in m.held && m.refcnt[g] == m.held[g]
    ensures Slots(m.table, m.role, g) == {}
    ensures forall s, j :: s in m.table && 0 <= j < NPTE && m.table[s][j].v ==> m.table[s][j].ppn != g
  {
    forall s, j | s in m.table && 0 <= j < NPTE && m.table[s][j].v ensures m.table[s][j].ppn != g {
      assert UpLink(m.table, m.role, s);
      assert DownLink(m.table, m.role, s, j);
      assert (s, j) in Entries(m.table);
    }
  }

  lemma FreeListRecount(refcnt: map<nat, nat>, data: map<nat, Page>, free: seq<nat>, f: nat, n: nat)
    requires FreeListOk(refcnt, data, free) && f in refcnt && refcnt[f] > 0 && n > 0
    ensures FreeListOk(refcnt[f := n], data, free)
  {
  }

  lemma FreeListPush(refcnt: map<nat, nat>, data: map<nat, Page>, free: seq<nat>, f: nat, p: Page)
    requires FreeListOk(refcnt, data, free) && f in refcnt && refcnt[f] > 0
    ensures FreeListOk(refcnt[f := 0], data[f := p], [f] + free)
  {
  }

  lemma FreeListWrite(refcnt: map<nat, nat>, data: map<nat, Page>, free: seq<nat>, f: nat, p: Page)
    requires FreeListOk(refcnt, data, free) && f in data
    ensures FreeListOk(refcnt, data[f := p], free)
  {
  }

  // ----- the moves -----

  /** kalloc(): take the head of the free list; its content becomes junk. */
  ghost function Take(m: Mem): Mem
    requires m.free != []
  {
    var f := m.free[0];
    m.(role := m.role[f := Data], refcnt := m.refcnt[f := 1], data := m.data[f := Fill(5)],
       held := Plus(m.held, f), free := m.free[1..])
  }

  lemma TakeFreeList(m: Mem)
    requires FreeListOk(m.refcnt, m.data, m.free) && m.free != []
    ensures FreeListOk(Take(m).refcnt, Take(m).data, Take(m).free)
  {
    var f := m.free[0];
    forall g ensures g in m.free[1..] <==> g in m.free && g != f {
      if g in m.free && g != f {
        var i :| 0 <= i < |m.free| && m.free[i] == g;
        assert m.free[1..][i - 1] == g;
      }
    }
  }

  lemma TakeRoles(m: Mem)
    requires Ok(m) && m.free != []
    ensures var f := m.free[0];
            && f in m.role && m.role[f].Free? && f in m.refcnt && m.refcnt[f] == 0 && f in m.held && m.held[f] == 0
                && f !in m.table
            && Slots(m.table, m.role, f) == {}
            && RolesOk(Take(m))
  {
    var m', f := Take(m), m.free[0];
    assert f in m.free;
    OkCount(m, f);
    hide Counted, NoSharedWrite;
  }

  lemma TakeOk(m: Mem)
    requires Ok(m) && m.free != []
    ensures Ok(Take(m))
  {
    hide Ok, WellFormed, NoSharedWrite, RolesOk, Counted, Slots, FreeListOk;
    var m', f := Take(m), m.free[0];
    TakeRoles(m);
    Unreferenced(m, f);
    OkParts(m);
    TakeFreeList(m);
    RolesMoveOk(m.table, m.role, f, Data);
    RoleMoveCounted(m, m', f);
    OkIntro(m');
  }

  /** A frame that no table refers to changes role, count and held references together. */
  lemma RoleMoveCounted(m: Mem, m': Mem, f: nat)
    requires Ok(m) && f in m.role && !m.role[f].Node? && Slots(m.table, m.role, f) == {}
    requires m'.table == m.table && f in m'.role && !m'.role[f].Node? && m'.role == m.role[f := m'.role[f]]
    requires RolesOk(m') && f in m'.refcnt && f in m'.held && m'.refcnt == m.refcnt[f := m'.refcnt[f]]
    requires m'.refcnt[f] == m'.held[f] && m'.held == m.held[f := m'.held[f]]
    ensures Counted(m') && NoSharedWrite(m')
  {
    forall g {:trigger Slots(m'.table, m'.role, g)} | g in m'.role && !m'.role[g].Node?
      ensures m'.refcnt[g] == |Slots(m'.table, m'.role, g)| + m'.held[g]
    {
      SlotsUnaffected(m.table, m.role, m'.role, g);
    }
    forall s: (nat, nat) ensures SoleWriter(m', s) {
      assert SoleWriter(m, s);
      if IsSlot(m'.table, m'.role, s) {
        assert IsSlot(m.table, m.role, s);
        SlotCounts(m, s);
      }
    }
  }

  /** Between Free and Data a frame may change role while no table refers to it. */
  lemma RolesMoveOk(t: Tables, role: Roles, f: nat, r: Role)
    requires WellFormed(t, role, {}) && f in role && !role[f].Node? && !r.Node?
    requires forall s, j :: s in t && 0 <= j < NPTE && t[s][j].v ==> t[s][j].ppn != f
    ensures WellFormed(t, role[f := r], {})
  {
    var role' := role[f := r];
    forall g | g in t ensures UpLink(t, role', g) {
      assert UpLink(t, role, g);
    }
    forall g, j | g in t && 0 <= j < NPTE ensures DownLink(t, role', g, j) {
      assert DownLink(t, role, g, j);
    }
  }

  /** kfree(): give up a held reference; the last one returns the frame, scrubbed, to the list. */
  ghost function Drop(m: Mem, f: nat): Mem
    requires f in m.refcnt && m.refcnt[f] >= 1
  {
    var m' := m.(refcnt := m.refcnt[f := m.refcnt[f] - 1], held := Minus(m.held, f));
    if m.refcnt[f] > 1 then m'
    else m'.(role := m.role[f := Free], data := m.data[f := Fill(1)], free := [f] + m.free)
  }

  lemma DropLast(m: Mem, f: nat)
    requires Ok(m) && f in m.held && m.held[f] >= 1 && f in m.refcnt && m.refcnt[f] == 1
    ensures Ok(Drop(m, f))
  {
    var m' := Drop(m, f);
    assert f in m.role && !m.role[f].Node? by { hide WellFormed, Counted, NoSharedWrite, FreeListOk; }
    OkCount(m, f);
    Unreferenced(m, f);
    assert RolesOk(m') by { hide WellFormed, Counted, NoSharedWrite, FreeListOk; }
    hide WellFormed, NoSharedWrite, FreeListOk, RolesOk, Counted, Slots;
    OkParts(m);
    FreeListPush(m.refcnt, m.data, m.free, f, Fill(1));
    RolesMoveOk(m.table, m.role, f, Free);
    RoleMoveCounted(m, m', f);
  }

  lemma DropShared(m: Mem, f: nat)
    requires Ok(m) && f in m.held && m.held[f] >= 1 && f in m.refcnt && m.refcnt[f] > 1
    ensures Ok(Drop(m, f))
  {
    var m' := Drop(m, f);
    assert RolesOk(m') by { hide WellFormed, Counted, NoSharedWrite, FreeListOk; }
    assert Counted(m') by { hide WellFormed, NoSharedWrite, FreeListOk, Slots; }
    assert NoSharedWrite(m') by {
      hide WellFormed, Counted, FreeListOk, Slots, RolesOk;
      forall s: (nat, nat) ensures SoleWriter(m', s) {
        assert SoleWriter(m, s);
        if IsSlot(m.table, m.role, s) { SlotCounts(m, s); }
      }
    }
    hide WellFormed, NoSharedWrite, FreeListOk, RolesOk, Counted, Slots;
    OkParts(m);
    FreeListRecount(m.refcnt, m.data, m.free, f, m.refcnt[f] - 1);
  }

  lemma DropOk(m: Mem, f: nat)
    requires Ok(m) && f in m.held && m.held[f] >= 1
    ensures f in m.refcnt && m.refcnt[f] >= 1 && Ok(Drop(m, f))
  {
    assert f in m.role && !m.role[f].Node? by { hide WellFormed, Counted, NoSharedWrite, FreeListOk; }
    OkCount(m, f);
    hide Ok;
    if m.refcnt[f] == 1 {
      DropLast(m, f);
    } else {
      DropShared(m, f);
    }
  }

  /** A physical entry counts in the reference count of its frame. */
  lemma SlotCounts(m: Mem, s: (nat, nat))
    requires Ok(m) && IsSlot(m.table, m.role, s)
    ensures var p := m.table[s.0][s.1];
            && p.r && p.ppn in m.role && m.role[p.ppn].Data? && s in Slots(m.table, m.role, p.ppn)
            && m.refcnt[p.ppn] >= 1 + m.held[p.ppn]
            && (m.refcnt[p.ppn] == 1 ==> Slots(m.table, m.role, p.ppn) == {s})
  {
    assert UpLink(m.table, m.role, s.0);
    assert DownLink(m.table, m.role, s.0, s.1);
    assert s in Entries(m.table);
    var sl := Slots(m.table, m.role, m.table[s.0][s.1].ppn);
    assert s in sl;
    CardRemove(sl, s);
    if |sl| == 1 {
      assert sl - {s} == {};
    }
  }

  /** increse(): one more held reference to a frame that is mapped writable nowhere. */
  ghost function Raise(m: Mem, f: nat): Mem
    requires f in m.refcnt
  {
    m.(refcnt := m.refcnt[f := m.refcnt[f] + 1], held := Plus(m.held, f))
  }

  lemma RaiseOk(m: Mem, f: nat)
    requires Ok(m) && f in m.refcnt && m.role[f].Data?
    requires forall s: (nat, nat) :: IsSlot(m.table, m.role, s) && m.table[s.0][s.1].ppn == f ==> !m.table[s.0][s.1].w
    ensures Ok(Raise(m, f))
  {
    var m' := Raise(m, f);
    assert RolesOk(m') by { hide WellFormed, Counted, NoSharedWrite, FreeListOk; }
    assert Counted(m') by { hide WellFormed, NoSharedWrite, FreeListOk, Slots; }
    assert NoSharedWrite(m') by {
      hide WellFormed, Counted, FreeListOk, RolesOk;
      forall s: (nat, nat) ensures SoleWriter(m', s) { assert SoleWriter(m, s); }
    }
    assert FreeListOk(m'.refcnt, m'.data, m'.free) by {
      hide WellFormed, NoSharedWrite, Counted;
      FreeListRecount(m.refcnt, m.data, m.free, f, m.refcnt[f] + 1);
    }
    hide WellFormed, NoSharedWrite, FreeListOk, RolesOk, Counted, Slots;
  }

  /** Bytes of a frame in use may change without touching the bookkeeping. */
  lemma WriteOk(m: Mem, f: nat, p: Page)
    requires Ok(m) && f in m.data
    ensures Ok(m.(data := m.data[f := p]))
  {
    var m' := m.(data := m.data[f := p]);
    assert RolesOk(m') by { hide WellFormed, Counted, NoSharedWrite, FreeListOk; }
    assert Counted(m') by { hide WellFormed, NoSharedWrite, FreeListOk, Slots; }
    assert NoSharedWrite(m') by {
      hide WellFormed, Counted, FreeListOk, RolesOk;
      forall s: (nat, nat) ensures SoleWriter(m', s) { assert SoleWriter(m, s); }
    }
    hide WellFormed, NoSharedWrite, FreeListOk, RolesOk, Counted, Slots;
    FreeListWrite(m.refcnt, m.data, m.free, f, p);
  }

  /** Store `pte` into a level-0 entry: the new target gives up a held reference to it, and the
      reference of the old target becomes a held one. */
  ghost function SetLeaf(m: Mem, f: nat, i: nat, pte: Pte): Mem
    requires f in m.table && i < NPTE
  {
    var old' := m.table[f][i];
    m.(table := m.table[f := m.table[f][i := pte]],
       held := var h := if pte.v then Minus(m.held, pte.ppn) else m.held;
               if old'.v then Plus(h, old'.ppn) else h)
  }

  ghost predicate CanSetLeaf(m: Mem, f: nat, i: nat, pte: Pte) {
    && Ok(m) && f in m.table && f in m.role && m.role[f].Node? && |m.role[f].path| == 2 && i < NPTE
    && (pte.v ==> pte.r && pte.ppn in m.role && m.role[pte.ppn].Data? && m.held[pte.ppn] >= 1
                  && (pte.w ==> m.refcnt[pte.ppn] == 1))
  }

  lemma SetLeafRoles(m: Mem, f: nat, i: nat, pte: Pte)
    requires CanSetLeaf(m, f, i, pte)
    ensures RolesOk(SetLeaf(m, f, i, pte))
  {
    if m.table[f][i].v { SlotCounts(m, (f, i)); }
    hide WellFormed, Counted, NoSharedWrite, FreeListOk, Slots;
  }

  lemma SetLeafCounted(m: Mem, f: nat, i: nat, pte: Pte)
    requires CanSetLeaf(m, f, i, pte) && RolesOk(SetLeaf(m, f, i, pte))
    ensures Counted(SetLeaf(m, f, i, pte))
  {
    hide WellFormed, NoSharedWrite, FreeListOk, Slots;
    if m.table[f][i].v { SlotCounts(m, (f, i)); }
    var m' := SetLeaf(m, f, i, pte);
    forall h {:trigger Slots(m'.table, m'.role, h)} | h in m'.role && !m'.role[h].Node?
      ensures m'.refcnt[h] == |Slots(m'.table, m'.role, h)| + m'.held[h]
    {
      SlotsAfterSetLeaf(m.table, m.role, f, i, pte, h);
      OkCount(m, h);
    }
  }

  lemma SetLeafOk(m: Mem, f: nat, i: nat, pte: Pte)
    requires CanSetLeaf(m, f, i, pte)
    ensures Ok(SetLeaf(m, f, i, pte))
  {
    var m' := SetLeaf(m, f, i, pte);
    SetLeafRoles(m, f, i, pte);
    SetLeafCounted(m, f, i, pte);
    assert NoSharedWrite(m') by {
      hide WellFormed, Counted, FreeListOk, RolesOk, Slots;
      forall s: (nat, nat) ensures SoleWriter(m', s) { assert SoleWriter(m, s); }
    }
    hide WellFormed, NoSharedWrite, FreeListOk, RolesOk, Counted, Slots;
    SetLeafWellFormed(m.table, m.role, f, i, pte);
  }

  /** The same entry with its write permission removed. */
  lemma ClearWriteOk(m: Mem, f: nat, i: nat)
    requires Ok(m) && IsSlot(m.table, m.role, (f, i))
    ensures Ok(m.(table := m.table[f := m.table[f][i := m.table[f][i].(w := false)]]))
  {
    var pte := m.table[f][i].(w := false);
    var m' := m.(table := m.table[f := m.table[f][i := pte]]);
    SlotCounts(m, (f, i));
    assert RolesOk(m') by { hide WellFormed, Counted, NoSharedWrite, FreeListOk, Slots; }
    assert Counted(m') by {
      hide WellFormed, NoSharedWrite, FreeListOk, Slots;
      forall h {:trigger Slots(m'.table, m'.role, h)} | h in m'.role && !m'.role[h].Node?
        ensures m'.refcnt[h] == |Slots(m'.table, m'.role, h)| + m'.held[h]
      {
        SlotsAfterSetLeaf(m.table, m.role, f, i, pte, h);
        OkCount(m, h);
      }
    }
    assert NoSharedWrite(m') by {
      hide WellFormed, Counted, FreeListOk, RolesOk, Slots;
      forall s: (nat, nat) ensures SoleWriter(m', s) { assert SoleWriter(m, s); }
    }
    hide WellFormed, NoSharedWrite, FreeListOk, RolesOk, Counted, Slots;
    SetLeafWellFormed(m.table, m.role, f, i, pte);
  }

  /** walk(): a held frame becomes the table page below entry `i` of `f`. */
  ghost function Link(m: Mem, f: nat, i: nat, g: nat): Mem
    requires f in m.table && i < NPTE && f in m.role && m.role[f].Node?
  {
    m.(table := LinkTable(m.table, f, i, g), role := LinkRole(m.role, f, i, g), held := Minus(m.held, g))
  }

  lemma LinkRoles(m: Mem, f: nat, i: nat, g: nat)
    requires Ok(m) && f in m.table && |m.role[f].path| < 2 && i < NPTE && !m.table[f][i].v
    requires m.role[f].path == [] ==> i < NPTE / 2
    requires g in m.role && m.role[g].Data? && m.refcnt[g] == 1 && m.held[g] == 1
    ensures CanLink(m.table, m.role, f, i, g) && g !in m.table && RolesOk(Link(m, f, i, g))
  {
    Unreferenced(m, g);
    hide Counted, NoSharedWrite, FreeListOk;
  }

  lemma LinkCounted(m: Mem, f: nat, i: nat, g: nat)
    requires Ok(m) && CanLink(m.table, m.role, f, i, g) && g !in m.table
    requires m.role[g].Data? && m.refcnt[g] == 1 && m.held[g] == 1 && RolesOk(Link(m, f, i, g))
    ensures Counted(Link(m, f, i, g)) && NoSharedWrite(Link(m, f, i, g))
  {
    hide WellFormed, FreeListOk, Slots;
    var m' := Link(m, f, i, g);
    forall h {:trigger Slots(m'.table, m'.role, h)} | h in m'.role && !m'.role[h].Node?
      ensures m'.refcnt[h] == |Slots(m'.table, m'.role, h)| + m'.held[h]
    {
      SlotsAfterLink(m.table, m.role, f, i, g, h);
      OkCount(m, h);
    }
    forall s: (nat, nat) ensures SoleWriter(m', s) {
      assert SoleWriter(m, s);
      if IsSlot(m'.table, m'.role, s) {
        assert s.0 != g && s.0 != f;
        assert IsSlot(m.table, m.role, s);
      }
    }
  }

  lemma LinkOk(m: Mem, f: nat, i: nat, g: nat)
    requires Ok(m) && f in m.table && f in m.role && m.role[f].Node? && |m.role[f].path| < 2
    requires i < NPTE && !m.table[f][i].v && (m.role[f].path == [] ==> i < NPTE / 2)
    requires g in m.role && m.role[g].Data? && g in m.refcnt && m.refcnt[g] == 1 && g in m.held && m.held[g] == 1
    ensures CanLink(m.table, m.role, f, i, g) && Ok(Link(m, f, i, g))
  {
    hide Ok, WellFormed, NoSharedWrite, RolesOk, Counted, Slots, FreeListOk, CanLink;
    OkParts(m);
    LinkRoles(m, f, i, g);
    LinkCounted(m, f, i, g);
    LinkWellFormed(m.table, m.role, f, i, g);
    OkIntro(Link(m, f, i, g));
  }
}
