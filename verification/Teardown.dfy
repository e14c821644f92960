/** Taking page tables apart: the value-level steps of freewalk() in kernel/vm.c.
    While freewalk() has freed a child but not yet cleared the entry that points to it,
    that one entry dangles; `OkExcept` is the invariant with such entries exempted. */
module Teardown {
  import opened Sv39
  import opened Frames

  ghost predicate OkExcept(m: Mem, holes: set<(nat, nat)>) {
    && FreeListOk(m.refcnt, m.data, m.free)
    && RolesOk(m)
    && WellFormed(m.table, m.role, holes)
    && Counted(m)
    && NoSharedWrite(m)
  }

  lemma OkIsOkExcept(m: Mem)
    ensures Ok(m) <==> OkExcept(m, {})
  {
  }

  lemma OkExceptFree(m: Mem, holes: set<(nat, nat)>)
    requires OkExcept(m, holes)
    ensures FreeListOk(m.refcnt, m.data, m.free)
  {
  }

  lemma MoreHoles(m: Mem, holes: set<(nat, nat)>, s: (nat, nat))
    requires OkExcept(m, holes)
    ensures OkExcept(m, holes + {s})
  {
    var more := holes + {s};
    forall f, i {:trigger DownLink(m.table, m.role, f, i)} | f in m.table && 0 <= i < NPTE && (f, i) !in more
      ensures DownLink(m.table, m.role, f, i)
    {
      assert (f, i) !in holes;
    }
  }

  /** `g` is a table page of the subtree below (and including) `f`. */
  ghost predicate Under(m: Mem, f: nat, g: nat) {
    && f in m.role && m.role[f].Node? && g in m.role && m.role[g].Node?
    && m.role[g].root == m.role[f].root && m.role[f].path <= m.role[g].path
  }

  ghost predicate AllInvalid(m: Mem, f: nat) {
    f in m.table && forall i :: 0 <= i < NPTE ==> !m.table[f][i].v
  }

  /** No page is mapped below `f`. */
  ghost predicate NoLeaves(m: Mem, f: nat) {
    forall g :: Under(m, f, g) && |m.role[g].path| == 2 ==> AllInvalid(m, g)
  }

  /** The entry that points to `f`, unless `f` is a root, is exempt. */
  ghost predicate Detached(m: Mem, holes: set<(nat, nat)>, f: nat) {
    && f in m.role && m.role[f].Node?
    && (m.role[f].path != [] ==> (m.role[f].parent, m.role[f].path[|m.role[f].path| - 1]) in holes)
  }

  // ----- kfree() of a table page -----

  ghost function FreeTable(m: Mem, f: nat): Mem {
    m.(table := m.table - {f}, role := m.role[f := Free], refcnt := m.refcnt[f := 0],
       data := m.data[f := Fill(1)], free := [f] + m.free)
  }

  ghost predicate CanFreeTable(m: Mem, holes: set<(nat, nat)>, f: nat) {
    && OkExcept(m, holes) && AllInvalid(m, f) && Detached(m, holes, f)
    && (forall g :: Under(m, f, g) ==> g == f)
  }

  lemma FreeTableUp(m: Mem, holes: set<(nat, nat)>, f: nat, g: nat)
    requires CanFreeTable(m, holes, f) && g in m.table && g != f
    ensures UpLink(FreeTable(m, f).table, FreeTable(m, f).role, g)
  {
    hide FreeListOk, RolesOk, Counted, NoSharedWrite, WellFormed;
    Up(m.table, m.role, holes, f);
    Up(m.table, m.role, holes, g);
    assert !Under(m, f, g);
    assert m.role[g].root != f;
  }

  lemma FreeTableShape(m: Mem, holes: set<(nat, nat)>, f: nat)
    requires CanFreeTable(m, holes, f)
    ensures WellFormed(FreeTable(m, f).table, FreeTable(m, f).role, holes)
  {
    hide FreeListOk, RolesOk, Counted, NoSharedWrite, Under;
    var m' := FreeTable(m, f);
    Up(m.table, m.role, holes, f);
    forall g | g in m'.table ensures UpLink(m'.table, m'.role, g) {
      FreeTableUp(m, holes, f, g);
    }
    forall g, i | g in m'.table && 0 <= i < NPTE && (g, i) !in holes ensures DownLink(m'.table, m'.role, g, i) {
      Down(m.table, m.role, holes, g, i);
    }
  }

  lemma FreeTableRoles(m: Mem, holes: set<(nat, nat)>, f: nat)
    requires CanFreeTable(m, holes, f)
    ensures f in m.refcnt && m.refcnt[f] == 1 && RolesOk(FreeTable(m, f))
    ensures FreeListOk(FreeTable(m, f).refcnt, FreeTable(m, f).data, FreeTable(m, f).free)
  {
    hide Counted, NoSharedWrite, WellFormed;
    FreeListPush(m.refcnt, m.data, m.free, f, Fill(1));
  }

  lemma FreeTableSlots(m: Mem, f: nat, h: nat)
    requires AllInvalid(m, f)
    ensures Slots(FreeTable(m, f).table, FreeTable(m, f).role, h) == Slots(m.table, m.role, h)
  {
    var m' := FreeTable(m, f);
    forall s: (nat, nat) ensures s in Slots(m'.table, m'.role, h) <==> s in Slots(m.table, m.role, h) {
      SlotMember(m'.table, m'.role, h, s);
      SlotMember(m.table, m.role, h, s);
    }
  }

  /** A table page is the target of no level-0 entry. */
  lemma NodeHasNoSlots(m: Mem, holes: set<(nat, nat)>, f: nat)
    requires OkExcept(m, holes) && f in m.role && m.role[f].Node?
    requires forall s: (nat, nat) :: s in holes && s.0 in m.role && m.role[s.0].Node? ==> |m.role[s.0].path| < 2
    ensures Slots(m.table, m.role, f) == {}
  {
    hide FreeListOk, RolesOk, Counted, NoSharedWrite;
    forall s: (nat, nat) ensures s !in Slots(m.table, m.role, f) {
      SlotMember(m.table, m.role, f, s);
      if IsSlot(m.table, m.role, s) {
        Down(m.table, m.role, holes, s.0, s.1);
      }
    }
  }

  lemma FreeTableCounted(m: Mem, holes: set<(nat, nat)>, f: nat)
    requires CanFreeTable(m, holes, f) && RolesOk(FreeTable(m, f)) && Slots(m.table, m.role, f) == {}
    ensures Counted(FreeTable(m, f)) && NoSharedWrite(FreeTable(m, f))
  {
    hide FreeListOk, WellFormed, Slots;
    var m' := FreeTable(m, f);
    forall h {:trigger Slots(m'.table, m'.role, h)} | h in m'.role && !m'.role[h].Node?
      ensures m'.refcnt[h] == |Slots(m'.table, m'.role, h)| + m'.held[h]
    {
      FreeTableSlots(m, f, h);
    }
    forall s: (nat, nat) ensures SoleWriter(m', s) {
      assert SoleWriter(m, s);
      if IsSlot(m'.table, m'.role, s) {
        assert IsSlot(m.table, m.role, s);
        SlotMember(m.table, m.role, f, s);
      }
    }
  }

  lemma FreeTableOk(m: Mem, holes: set<(nat, nat)>, f: nat)
    requires CanFreeTable(m, holes, f) && HolesAbove(m, holes, f)
    ensures f in m.refcnt && m.refcnt[f] == 1 && OkExcept(FreeTable(m, f), holes)
  {
    hide FreeListOk, RolesOk, WellFormed, Counted, NoSharedWrite, Slots;
    Up(m.table, m.role, holes, f);
    NodeHasNoSlots(m, holes, f);
    FreeTableShape(m, holes, f);
    FreeTableRoles(m, holes, f);
    FreeTableCounted(m, holes, f);
  }

  // ----- pagetable[i] = 0 above level 0 -----

  ghost function ClearEntry(m: Mem, f: nat, i: nat): Mem
    requires f in m.table && i < NPTE
  {
    m.(table := m.table[f := m.table[f][i := EMPTY]])
  }

  /** Entry `i` of `f` leads to no remaining table page. */
  ghost predicate Childless(m: Mem, f: nat, i: nat) {
    && f in m.table && f in m.role && m.role[f].Node? && |m.role[f].path| < 2 && i < NPTE
    && (forall g :: g in m.role && m.role[g].Node? && m.role[g].root == m.role[f].root
                    ==> m.role[g].path != m.role[f].path + [i])
  }

  lemma ClearEntryShape(m: Mem, holes: set<(nat, nat)>, f: nat, i: nat)
    requires OkExcept(m, holes + {(f, i)}) && Childless(m, f, i)
    ensures WellFormed(ClearEntry(m, f, i).table, m.role, holes)
  {
    hide FreeListOk, RolesOk, Counted, NoSharedWrite;
    var m' := ClearEntry(m, f, i);
    forall g | g in m'.table ensures UpLink(m'.table, m'.role, g) {
      Up(m.table, m.role, holes + {(f, i)}, g);
      var path := m.role[g].path;
      if path != [] {
        assert path == path[..|path| - 1] + [path[|path| - 1]];
      }
    }
    forall g, j | g in m'.table && 0 <= j < NPTE && (g, j) !in holes ensures DownLink(m'.table, m'.role, g, j) {
      if (g, j) != (f, i) {
        assert (g, j) !in holes + {(f, i)};
        Down(m.table, m.role, holes + {(f, i)}, g, j);
      }
    }
  }

  lemma ClearEntryCounted(m: Mem, holes: set<(nat, nat)>, f: nat, i: nat)
    requires OkExcept(m, holes) && Childless(m, f, i)
    ensures RolesOk(ClearEntry(m, f, i)) && Counted(ClearEntry(m, f, i)) && NoSharedWrite(ClearEntry(m, f, i))
  {
    hide FreeListOk, WellFormed, Slots;
    var m' := ClearEntry(m, f, i);
    forall h {:trigger Slots(m'.table, m'.role, h)} ensures Slots(m'.table, m'.role, h) == Slots(m.table, m.role, h) {
      forall s: (nat, nat) ensures s in Slots(m'.table, m'.role, h) <==> s in Slots(m.table, m.role, h) {
        SlotMember(m'.table, m'.role, h, s);
        SlotMember(m.table, m.role, h, s);
      }
    }
    forall s: (nat, nat) ensures SoleWriter(m', s) {
      assert SoleWriter(m, s);
    }
  }

  lemma ClearEntryOk(m: Mem, holes: set<(nat, nat)>, f: nat, i: nat)
    requires OkExcept(m, holes + {(f, i)}) && Childless(m, f, i)
    ensures OkExcept(ClearEntry(m, f, i), holes)
  {
    hide FreeListOk, RolesOk, WellFormed, Counted, NoSharedWrite, Slots, Childless;
    ClearEntryShape(m, holes, f, i);
    ClearEntryCounted(m, holes + {(f, i)}, f, i);
  }

  // ----- progress of freewalk() -----

  /** `g` hangs below one of the first `i` entries of `f`. */
  ghost predicate Below(m: Mem, f: nat, i: nat, g: nat) {
    Under(m, f, g) && |m.role[g].path| > |m.role[f].path| && m.role[g].path[|m.role[f].path|] < i
  }

  /** From `m` to `m'` exactly the table pages in `gone` were returned to the allocator. */
  ghost predicate Returned(m: Mem, m': Mem, gone: iset<nat>) {
    && m'.held == m.held && m'.role.Keys == m.role.Keys && m'.refcnt.Keys == m.refcnt.Keys
    && (forall g :: g in m.role ==> m'.role[g] == if g in gone then Free else m.role[g])
    && (forall g :: g in m'.table <==> g in m.table && g !in gone)
    && (forall g :: g in m.refcnt && g !in gone ==> m'.refcnt[g] == m.refcnt[g])
    && m'.data.Keys == m.data.Keys
    && (forall g :: g in m.data && g !in gone ==> m'.data[g] == m.data[g])
  }

  ghost function BelowSet(m: Mem, f: nat, i: nat): iset<nat> { iset g | Below(m, f, i, g) }

  ghost function UnderSet(m: Mem, f: nat): iset<nat> { iset g | Under(m, f, g) }

  lemma ReturnedTrans(a: Mem, b: Mem, c: Mem, ab: iset<nat>, bc: iset<nat>)
    requires Returned(a, b, ab) && Returned(b, c, bc)
    ensures Returned(a, c, ab + bc)
  {
  }

  /** The state of freewalk(f) before round `i`: everything below the first `i` entries is gone. */
  ghost predicate Round(m0: Mem, m: Mem, f: nat, i: nat) {
    && f in m0.table && f in m.table && f in m0.role && m0.role[f].Node?
    && Returned(m0, m, BelowSet(m0, f, i))
    && (forall g :: g in m.table && g != f ==> m.table[g] == m0.table[g])
    && (forall j :: 0 <= j < NPTE ==> if j < i then !m.table[f][j].v else m.table[f][j] == m0.table[f][j])
  }

  /** The effect of freewalk(f): its whole subtree is gone, all else is as before. */
  ghost predicate Walked(m0: Mem, m: Mem, f: nat) {
    && Returned(m0, m, UnderSet(m0, f))
    && (forall g :: g in m.table ==> m.table[g] == m0.table[g])
  }

  /** The exempt entries belong to table pages above `f`. */
  ghost predicate HolesAbove(m: Mem, holes: set<(nat, nat)>, f: nat)
    requires f in m.role && m.role[f].Node?
  {
    forall s: (nat, nat) :: s in holes ==> s.0 in m.role && m.role[s.0].Node? && |m.role[s.0].path| < |m.role[f].path|
  }

  /** What freewalk(f) asks of its caller. */
  ghost predicate CanFreewalk(m: Mem, holes: set<(nat, nat)>, f: nat) {
    && OkExcept(m, holes) && f in m.table && Detached(m, holes, f) && HolesAbove(m, holes, f) && NoLeaves(m, f)
  }

  lemma WalkBegins(m: Mem, holes: set<(nat, nat)>, f: nat)
    requires CanFreewalk(m, holes, f)
    ensures Round(m, m, f, 0)
  {
    hide OkExcept, NoLeaves;
  }

  /** A page below entry `i` of `f` exists only if that entry is valid. */
  lemma {:induction false} PathThrough(m: Mem, holes: set<(nat, nat)>, f: nat, i: nat, g: nat)
    requires WellFormed(m.table, m.role, holes) && f in m.table
    requires Under(m, f, g) && |m.role[g].path| > |m.role[f].path| && m.role[g].path[|m.role[f].path|] == i
    ensures i < NPTE && m.table[f][i].v
    decreases |m.role[g].path|
  {
    hide WellFormed;
    assert g in m.table by { NodesAreTables(m, holes, g); }
    Up(m.table, m.role, holes, g);
    var p := m.role[g].parent;
    if |m.role[g].path| == |m.role[f].path| + 1 {
      UniquePath(m.table, m.role, holes, p, f);
    } else {
      PathThrough(m, holes, f, i, p);
    }
  }

  lemma NodesAreTables(m: Mem, holes: set<(nat, nat)>, g: nat)
    requires WellFormed(m.table, m.role, holes)
    ensures g in m.role && m.role[g].Node? <==> g in m.table
  {
  }

  /** Round `i` finds an invalid entry: there is nothing to free below it. */
  lemma RoundInvalid(m0: Mem, m: Mem, holes: set<(nat, nat)>, f: nat, i: nat)
    requires OkExcept(m0, holes) && Round(m0, m, f, i) && i < NPTE && !m.table[f][i].v
    ensures Round(m0, m, f, i + 1)
  {
    hide FreeListOk, RolesOk, WellFormed, Counted, NoSharedWrite;
    forall g ensures Below(m0, f, i, g) <==> Below(m0, f, i + 1, g) {
      if Below(m0, f, i + 1, g) && !Below(m0, f, i, g) {
        PathThrough(m0, holes, f, i, g);
      }
    }
    assert BelowSet(m0, f, i) == BelowSet(m0, f, i + 1);
  }

  /** Round `i` finds a valid entry: it is no leaf, and freewalk() may be called on its target. */
  lemma RoundValid(m0: Mem, m: Mem, holes: set<(nat, nat)>, f: nat, i: nat)
    requires CanFreewalk(m0, holes, f) && OkExcept(m, holes) && Round(m0, m, f, i) && i < NPTE && m.table[f][i].v
    ensures var c := m.table[f][i].ppn;
            && !Leafy(m.table[f][i])
            && CanFreewalk(m, holes + {(f, i)}, c) && ChildAt(m0, m, f, i, c)
  {
    hide FreeListOk, RolesOk, WellFormed, Counted, NoSharedWrite;
    NodesAreTables(m, holes, f);
    assert (f, i) !in holes;
    Down(m.table, m.role, holes, f, i);
    MoreHoles(m, holes, (f, i));
    assert |m.role[f].path| < 2 by {
      Up(m.table, m.role, holes, f);
      assert Under(m0, f, f);
    }
    var c := m.table[f][i].ppn;
    NodesAreTables(m, holes, c);
    forall g | Under(m, c, g) && |m.role[g].path| == 2 ensures AllInvalid(m, g) {
      assert m.role[f].path <= m.role[c].path <= m.role[g].path;
      assert Under(m0, f, g);
      NodesAreTables(m, holes, g);
      if g == f {
        assert false;
      }
    }
  }

  /** Round `i` found entry `i` of `f` to lead to the table page `c`. */
  ghost predicate ChildAt(m0: Mem, m: Mem, f: nat, i: nat, c: nat) {
    && Round(m0, m, f, i) && i < NPTE && m.table[f][i].v && c == m.table[f][i].ppn
    && f in m.role && m.role[f].Node? && m.role[f] == m0.role[f] && |m.role[f].path| < 2
    && c in m.role && m.role[c] == Node(m.role[f].root, m.role[f].path + [i], f)
  }

  /** After freewalk() on the target and clearing the entry, round `i` is done. */
  lemma RoundDone(m0: Mem, m: Mem, m1: Mem, f: nat, i: nat, c: nat)
    requires ChildAt(m0, m, f, i, c) && Walked(m, m1, c)
    ensures f in m1.table && Round(m0, ClearEntry(m1, f, i), f, i + 1)
  {
    hide Returned, BelowSet, UnderSet;
    ReturnedRoles(m, m1, UnderSet(m, c));
    BelowNext(m0, m, f, i, c);
    ReturnedTrans(m0, m, m1, BelowSet(m0, f, i), UnderSet(m, c));
    ReturnedClear(m0, m1, BelowSet(m0, f, i + 1), f, i);
  }

  lemma BelowNext(m0: Mem, m: Mem, f: nat, i: nat, c: nat)
    requires ChildAt(m0, m, f, i, c)
    ensures BelowSet(m0, f, i) + UnderSet(m, c) == BelowSet(m0, f, i + 1) && f !in UnderSet(m, c)
  {
    hide Returned;
    ReturnedRoles(m0, m, BelowSet(m0, f, i));
    forall g ensures (Below(m0, f, i, g) || Under(m, c, g)) <==> Below(m0, f, i + 1, g) {
      BelowSplit(m0, m, f, i, c, g);
    }
  }

  lemma RoundChildless(m0: Mem, m: Mem, m1: Mem, f: nat, i: nat, c: nat)
    requires ChildAt(m0, m, f, i, c) && Walked(m, m1, c)
    ensures Childless(m1, f, i)
  {
    hide Returned, Round, BelowSet;
    ReturnedRoles(m, m1, UnderSet(m, c));
    RoundRoles(m0, m, f, i);
    assert !Under(m, c, f);
    forall g | g in m1.role && m1.role[g].Node? && m1.role[g].root == m1.role[f].root
      ensures m1.role[g].path != m1.role[f].path + [i]
    {
      assert !Under(m, c, g);
    }
  }

  lemma RoundRoles(m0: Mem, m: Mem, f: nat, i: nat)
    requires Round(m0, m, f, i)
    ensures f in m.table
  {
  }

  lemma ReturnedRoles(m: Mem, m': Mem, gone: iset<nat>)
    requires Returned(m, m', gone)
    ensures m'.role.Keys == m.role.Keys && forall g :: g in m.role ==>
              m'.role[g] == if g in gone then Free else m.role[g]
    ensures forall g :: g in m'.table <==> g in m.table && g !in gone
  {
  }

  lemma ReturnedClear(m: Mem, m': Mem, gone: iset<nat>, f: nat, i: nat)
    requires Returned(m, m', gone) && f in m'.table && i < NPTE
    ensures Returned(m, ClearEntry(m', f, i), gone)
  {
  }

  lemma BelowSplit(m0: Mem, m: Mem, f: nat, i: nat, c: nat, g: nat)
    requires f in m0.role && m0.role[f].Node? && c in m.role && m.role[c].Node? && i < NPTE
    requires m.role[c].path == m0.role[f].path + [i] && m.role[c].root == m0.role[f].root
    requires m.role.Keys == m0.role.Keys
    requires forall h :: h in m0.role ==> m.role[h] == if Below(m0, f, i, h) then Free else m0.role[h]
    ensures (Below(m0, f, i, g) || Under(m, c, g)) <==> Below(m0, f, i + 1, g)
  {
    var n := |m0.role[f].path|;
    if Under(m, c, g) {
      assert m.role[g].path[..n] == m0.role[f].path && m.role[g].path[n] == i;
    }
    if Below(m0, f, i + 1, g) && !Below(m0, f, i, g) {
      assert m0.role[g].path[..n + 1] == m.role[c].path;
    }
  }

  lemma UnderIsBelow(m: Mem, holes: set<(nat, nat)>, f: nat)
    requires OkExcept(m, holes) && f in m.table && f in m.role && m.role[f].Node?
    ensures UnderSet(m, f) == BelowSet(m, f, NPTE) + iset{f} && f !in BelowSet(m, f, NPTE)
  {
    hide FreeListOk, RolesOk, WellFormed, Counted, NoSharedWrite;
    forall g | Under(m, f, g) ensures g == f || Below(m, f, NPTE, g) {
      NodesAreTables(m, holes, g);
      var n := |m.role[f].path|;
      if |m.role[g].path| == n {
        assert m.role[g].path == m.role[f].path;
        UniquePath(m.table, m.role, holes, f, g);
      } else {
        PathThrough(m, holes, f, m.role[g].path[n], g);
      }
    }
  }

  /** After the last round only `f` itself is left ... */
  lemma LastRound(m0: Mem, m: Mem, holes: set<(nat, nat)>, f: nat)
    requires CanFreewalk(m0, holes, f) && OkExcept(m, holes) && Round(m0, m, f, NPTE)
    ensures CanFreeTable(m, holes, f) && HolesAbove(m, holes, f)
  {
    hide OkExcept, NoLeaves, Returned;
    UnderIsBelow(m0, holes, f);
    ReturnedRoles(m0, m, BelowSet(m0, f, NPTE));
    forall g | Under(m, f, g) ensures g == f {
      assert g in UnderSet(m0, f);
    }
    HolesStay(m0, m, holes, f);
  }

  lemma HolesStay(m0: Mem, m: Mem, holes: set<(nat, nat)>, f: nat)
    requires f in m0.role && m0.role[f].Node? && HolesAbove(m0, holes, f) && f in m.role && m.role[f] == m0.role[f]
    requires m.role.Keys == m0.role.Keys
    requires forall g :: g in m0.role ==> m.role[g] == if g in BelowSet(m0, f, NPTE) then Free else m0.role[g]
    ensures HolesAbove(m, holes, f)
  {
  }

  /** ... and kfree(f) completes freewalk(f). */
  lemma WalkEnds(m0: Mem, m: Mem, holes: set<(nat, nat)>, f: nat)
    requires CanFreewalk(m0, holes, f) && OkExcept(m, holes) && Round(m0, m, f, NPTE)
    ensures Walked(m0, FreeTable(m, f), f)
  {
    hide OkExcept, NoLeaves, Returned, Detached, HolesAbove, BelowSet, UnderSet;
    UnderIsBelow(m0, holes, f);
    ReturnedRoles(m0, m, BelowSet(m0, f, NPTE));
    FreeTableReturned(m, holes, f);
    ReturnedTrans(m0, m, FreeTable(m, f), BelowSet(m0, f, NPTE), iset{f});
  }

  lemma FreeTableReturned(m: Mem, holes: set<(nat, nat)>, f: nat)
    requires OkExcept(m, holes) && f in m.role
    ensures Returned(m, FreeTable(m, f), iset{f})
  {
    hide WellFormed, Counted, NoSharedWrite;
  }
}
