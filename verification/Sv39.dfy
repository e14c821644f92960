/** Three-level Sv39 page tables (section 4.4 of the RISC-V Privileged Architecture,
    version 20211203) as kernel/vm.c lays them out in physical page frames.

    `Tables` is the content of every frame that currently holds a page-table page.
    The ghost map `Roles` records, for each frame, what it is used for; for a table
    page it holds a back pointer (root, path from the root, parent frame).  Back
    pointers make the tree shape of all page tables a local condition (`WellFormed`),
    from which sharing-freedom and isolation of translations follow. */
module Sv39 {
  import opened Common

  const PGSIZE: nat := 4096
  const NPTE: nat := 512
  const MAXVPN: nat := 0x400_0000        // MAXVA / PGSIZE

  datatype Pte = Pte(v: bool, r: bool, w: bool, x: bool, u: bool, ppn: nat)

  const EMPTY: Pte := Pte(false, false, false, false, false, 0)

  type Table = t: seq<Pte> | |t| == NPTE witness seq(NPTE, _ => EMPTY)

  type Tables = map<nat, Table>

  datatype Role = Free | Data | Node(root: nat, path: seq<nat>, parent: nat)

  type Roles = map<nat, Role>

  function ZeroTable(): Table {
    seq(NPTE, _ => EMPTY)
  }

  /** PX(level, va) of kernel/riscv.h, on the virtual page number. */
  function Px(level: nat, vpn: nat): (i: nat)
    requires level <= 2 && vpn < MAXVPN
    ensures i < NPTE && (level == 2 ==> i < NPTE / 2)
  {
    if level == 2 then vpn / 262144 else if level == 1 then vpn / 512 % 512 else vpn % 512
  }

  function PathOf(vpn: nat): seq<nat>
    requires vpn < MAXVPN
  {
    [Px(2, vpn), Px(1, vpn)]
  }

  /** The three indices determine the page number. */
  lemma PxInjective(v: nat, w: nat)
    requires v < MAXVPN && w < MAXVPN
    requires PathOf(v) == PathOf(w) && Px(0, v) == Px(0, w)
    ensures v == w
  {
    assert PathOf(v)[0] == PathOf(w)[0] && PathOf(v)[1] == PathOf(w)[1];
    assert v / 512 / 512 == v / 262144 && w / 512 / 512 == w / 262144;
  }

  /** The page whose entry is number `i` of the level-0 table with this path. */
  function VpnOf(path: seq<nat>, i: nat): nat
    requires |path| == 2
  {
    path[0] * 262144 + path[1] * 512 + i
  }

  lemma VpnRoundTrip(path: seq<nat>, i: nat)
    requires |path| == 2 && path[0] < NPTE / 2 && path[1] < NPTE && i < NPTE
    ensures VpnOf(path, i) < MAXVPN && PathOf(VpnOf(path, i)) == path && Px(0, VpnOf(path, i)) == i
  {
    var v := VpnOf(path, i);
    assert v / 512 == path[0] * 512 + path[1];
    assert v / 262144 == path[0];
  }

  /** The pointer that walk() follows from entry `i` of table `f`. */
  function Descend(t: Tables, f: nat, i: nat): Option<nat> {
    if f in t && i < NPTE && t[f][i].v then Some(t[f][i].ppn) else None
  }

  /** The level-0 table page that walk(pagetable, va, 0) reaches, if any. */
  function LeafTable(t: Tables, root: nat, vpn: nat): Option<nat>
    requires vpn < MAXVPN
  {
    match Descend(t, root, Px(2, vpn))
    case None => None
    case Some(mid) => Descend(t, mid, Px(1, vpn))
  }

  /** The flat map a page table stands for: page number to valid leaf entry. */
  function Lookup(t: Tables, root: nat, vpn: nat): Option<Pte>
    requires vpn < MAXVPN
  {
    match LeafTable(t, root, vpn)
    case None => None
    case Some(low) =>
      if low in t && t[low][Px(0, vpn)].v then Some(t[low][Px(0, vpn)]) else None
  }

  predicate Leafy(p: Pte) { p.r || p.w || p.x }

  /** A table page hangs below its parent at the place its path says. */
  ghost predicate UpLink(t: Tables, role: Roles, f: nat) {
    && f in t && f in role && role[f].Node? && |role[f].path| <= 2
    && role[f].root in role && role[role[f].root].Node? && role[role[f].root].root == role[f].root
    && (role[f].path == [] <==> f == role[f].root)
    && (role[f].path != [] ==> role[f].path[0] < NPTE / 2)
    && (role[f].path != [] ==>
          var p, n := role[f].parent, |role[f].path| - 1;
          && p in t && p in role && role[p].Node?
          && role[p].root == role[f].root && role[p].path == role[f].path[..n]
          && role[f].path[n] < NPTE && t[p][role[f].path[n]].v && t[p][role[f].path[n]].ppn == f)
  }

  /** A valid entry above level 0 leads to a table page; one at level 0 maps a data frame. */
  ghost predicate DownLink(t: Tables, role: Roles, f: nat, i: nat)
    requires f in t && f in role && role[f].Node? && i < NPTE
  {
    t[f][i].v ==>
      var c := t[f][i].ppn;
      if |role[f].path| < 2
      then !Leafy(t[f][i]) && c in role && role[c] == Node(role[f].root, role[f].path + [i], f)
      else t[f][i].r && c in role && role[c].Data?
  }

  /** All page tables at once; `holes` are entries exempt from DownLink. */
  ghost predicate WellFormed(t: Tables, role: Roles, holes: set<(nat, nat)>) {
    && (forall f :: f in t <==> f in role && role[f].Node?)
    && (forall f {:trigger UpLink(t, role, f)} :: f in t ==> UpLink(t, role, f))
    && (forall f, i {:trigger DownLink(t, role, f, i)} ::
          f in t && 0 <= i < NPTE && (f, i) !in holes ==> DownLink(t, role, f, i))
  }

  lemma Up(t: Tables, role: Roles, holes: set<(nat, nat)>, f: nat)
    requires WellFormed(t, role, holes) && f in t
    ensures UpLink(t, role, f)
  {
  }

  lemma Down(t: Tables, role: Roles, holes: set<(nat, nat)>, f: nat, i: nat)
    requires WellFormed(t, role, holes) && f in t && i < NPTE && (f, i) !in holes
    ensures f in role && role[f].Node? && DownLink(t, role, f, i)
    ensures t[f][i].v && |role[f].path| < 2 ==> t[f][i].ppn in t
  {
  }

  /** No two table pages of one page table have the same path: tables are trees. */
  lemma {:induction false} UniquePath(t: Tables, role: Roles, holes: set<(nat, nat)>, f: nat, g: nat)
    requires WellFormed(t, role, holes)
    requires f in t && g in t && role[f].root == role[g].root && role[f].path == role[g].path
    ensures f == g
    decreases |role[f].path|
  {
    Up(t, role, holes, f);
    Up(t, role, holes, g);
    if role[f].path != [] {
      UniquePath(t, role, holes, role[f].parent, role[g].parent);
    }
  }

  /** walk() ends in the level-0 table whose path is the page number's upper indices. */
  lemma WalkArrives(t: Tables, role: Roles, root: nat, vpn: nat)
    requires WellFormed(t, role, {}) && vpn < MAXVPN
    requires root in t && root in role && role[root].Node? && role[root].root == root
    ensures LeafTable(t, root, vpn).Some? ==>
              var f := LeafTable(t, root, vpn).value;
              f in t && f in role && role[f].Node? && role[f].root == root && role[f].path == PathOf(vpn)
  {
    hide WellFormed;
    var i, j := Px(2, vpn), Px(1, vpn);
    Up(t, role, {}, root);
    Down(t, role, {}, root, i);
    if t[root][i].v {
      var mid := t[root][i].ppn;
      Up(t, role, {}, mid);
      Down(t, role, {}, mid, j);
      assert role[mid].path == [i];
      if t[mid][j].v {
        assert role[t[mid][j].ppn].path == [i, j];
      }
    }
  }

  /** Every level-0 table is found by walk(). */
  lemma WalkFinds(t: Tables, role: Roles, f: nat, vpn: nat)
    requires WellFormed(t, role, {}) && vpn < MAXVPN
    requires f in t && f in role && role[f].Node? && role[f].path == PathOf(vpn)
    ensures LeafTable(t, role[f].root, vpn) == Some(f)
  {
    hide WellFormed;
    Up(t, role, {}, f);
    var mid := role[f].parent;
    Up(t, role, {}, mid);
    assert role[mid].path == [Px(2, vpn)];
    Up(t, role, {}, role[mid].parent);
    assert role[role[mid].parent].path == [];
  }

  /** Writing one level-0 entry keeps every page table well formed ... */
  lemma SetLeafWellFormed(t: Tables, role: Roles, f: nat, i: nat, pte: Pte)
    requires WellFormed(t, role, {})
    requires f in t && |role[f].path| == 2 && i < NPTE
    requires pte.v ==> pte.r && pte.ppn in role && role[pte.ppn].Data?
    ensures WellFormed(t[f := t[f][i := pte]], role, {})
  {
    assert UpLink(t, role, f);
    var t' := t[f := t[f][i := pte]];
    forall g | g in t' ensures UpLink(t', role, g) {
      assert UpLink(t, role, g);
    }
    forall g, j | g in t' && 0 <= j < NPTE ensures DownLink(t', role, g, j) {
      assert DownLink(t, role, g, j);
    }
  }

  /** ... and changes exactly one translation of exactly one page table. */
  lemma SetLeafIsolated(t: Tables, role: Roles, f: nat, i: nat, pte: Pte, root: nat, vpn: nat)
    requires WellFormed(t, role, {})
    requires f in t && |role[f].path| == 2 && i < NPTE
    requires root in t && role[root].root == root && vpn < MAXVPN
    ensures Lookup(t[f := t[f][i := pte]], root, vpn) ==
            if root == role[f].root && PathOf(vpn) == role[f].path && Px(0, vpn) == i
            then (if pte.v then Some(pte) else None)
            else Lookup(t, root, vpn)
  {
    var t' := t[f := t[f][i := pte]];
    assert UpLink(t, role, root);
    WalkArrives(t, role, root, vpn);
    var i2 := Px(2, vpn);
    assert LeafTable(t', root, vpn) == LeafTable(t, root, vpn) by {
      if t[root][i2].v {
        assert DownLink(t, role, root, i2);
        assert role[t[root][i2].ppn].path == [i2];
      }
    }
    if root == role[f].root && PathOf(vpn) == role[f].path {
      WalkFinds(t, role, f, vpn);
    }
  }

  /** What walk(pagetable, va, 1) stores when it links the new table page `g` at entry `i` of `f`. */
  function LinkTable(t: Tables, f: nat, i: nat, g: nat): Tables
    requires f in t && i < NPTE
  {
    t[f := t[f][i := EMPTY.(v := true, ppn := g)]][g := ZeroTable()]
  }

  ghost function LinkRole(role: Roles, f: nat, i: nat, g: nat): Roles
    requires f in role && role[f].Node?
  {
    role[g := Node(role[f].root, role[f].path + [i], f)]
  }

  /** walk() found entry `i` of table `f` invalid, and `g` is a frame no table refers to. */
  ghost predicate CanLink(t: Tables, role: Roles, f: nat, i: nat, g: nat) {
    && WellFormed(t, role, {})
    && f in t && f in role && role[f].Node? && |role[f].path| < 2 && i < NPTE && !t[f][i].v
    && (role[f].path == [] ==> i < NPTE / 2) && g in role && !role[g].Node?
    && (forall s, j :: s in t && 0 <= j < NPTE && t[s][j].v ==> t[s][j].ppn != g)
  }

  lemma LinkUp(t: Tables, role: Roles, f: nat, i: nat, g: nat, h: nat)
    requires CanLink(t, role, f, i, g) && (h in t || h == g)
    ensures UpLink(LinkTable(t, f, i, g), LinkRole(role, f, i, g), h)
  {
    assert UpLink(t, role, f);
    if h == g {
      assert (role[f].path + [i])[..|role[f].path|] == role[f].path;
    } else {
      assert UpLink(t, role, h);
    }
  }

  lemma LinkDown(t: Tables, role: Roles, f: nat, i: nat, g: nat, h: nat, j: nat)
    requires CanLink(t, role, f, i, g) && (h in t || h == g) && j < NPTE
    ensures var t', role' := LinkTable(t, f, i, g), LinkRole(role, f, i, g);
            h in t' && h in role' && role'[h].Node? && DownLink(t', role', h, j)
  {
    if h != g {
      assert DownLink(t, role, h, j);
    }
  }

  /** Linking a fresh zeroed table page below an invalid entry keeps the shape ... */
  lemma LinkWellFormed(t: Tables, role: Roles, f: nat, i: nat, g: nat)
    requires CanLink(t, role, f, i, g)
    ensures WellFormed(LinkTable(t, f, i, g), LinkRole(role, f, i, g), {})
  {
    var t', role' := LinkTable(t, f, i, g), LinkRole(role, f, i, g);
    forall h | h in t' ensures UpLink(t', role', h) {
      LinkUp(t, role, f, i, g, h);
    }
    forall h, j | h in t' && 0 <= j < NPTE ensures DownLink(t', role', h, j) {
      LinkUp(t, role, f, i, g, h);
      LinkDown(t, role, f, i, g, h, j);
    }
  }

  /** ... and changes no translation at all. */
  lemma LinkIsolated(t: Tables, role: Roles, f: nat, i: nat, g: nat, root: nat, vpn: nat)
    requires CanLink(t, role, f, i, g)
    requires root in t && role[root].root == root && vpn < MAXVPN
    ensures Lookup(LinkTable(t, f, i, g), root, vpn) == Lookup(t, root, vpn)
  {
    var t' := LinkTable(t, f, i, g);
    assert g !in t;
    hide WellFormed;
    var i2, i1 := Px(2, vpn), Px(1, vpn);
    Up(t, role, {}, root);
    Down(t, role, {}, root, i2);
    if t[root][i2].v {
      var mid := t[root][i2].ppn;
      Up(t, role, {}, mid);
      Down(t, role, {}, mid, i1);
      if t[mid][i1].v {
        assert |role[t[mid][i1].ppn].path| == 2;
      }
    }
  }

  ghost predicate IsSlot(t: Tables, role: Roles, s: (nat, nat)) {
    && s.0 in t && s.1 < NPTE && s.0 in role && role[s.0].Node? && |role[s.0].path| == 2
    && t[s.0][s.1].v
  }

  ghost function Entries(t: Tables): set<(nat, nat)> {
    set g, i | g in t && 0 <= i < NPTE :: (g, i)
  }

  /** The physical level-0 entries that refer to frame `f`. */
  ghost function Slots(t: Tables, role: Roles, f: nat): set<(nat, nat)> {
    set s | s in Entries(t) && IsSlot(t, role, s) && t[s.0][s.1].ppn == f
  }

  lemma SlotMember(t: Tables, role: Roles, f: nat, s: (nat, nat))
    ensures s in Slots(t, role, f) <==> IsSlot(t, role, s) && t[s.0][s.1].ppn == f
  {
    if IsSlot(t, role, s) {
      assert (s.0, s.1) in Entries(t);
    }
  }

  lemma CardRemove<T>(a: set<T>, x: T)
    ensures |a| == |a - {x}| + if x in a then 1 else 0
  {
    if x in a {
      assert a == (a - {x}) + {x};
    } else {
      assert a - {x} == a;
    }
  }

  /** Rewriting one entry moves one reference from its old target to its new one. */
  lemma SlotsAfterSetLeaf(t: Tables, role: Roles, f: nat, i: nat, pte: Pte, h: nat)
    requires f in t && f in role && role[f].Node? && |role[f].path| == 2 && i < NPTE
    ensures |Slots(t[f := t[f][i := pte]], role, h)| ==
            |Slots(t, role, h)| - (if t[f][i].v && t[f][i].ppn == h then 1 else 0)
                                + (if pte.v && pte.ppn == h then 1 else 0)
  {
    var t' := t[f := t[f][i := pte]];
    forall s: (nat, nat) ensures s != (f, i) ==> (s in Slots(t', role, h) <==> s in Slots(t, role, h)) {
      SlotMember(t, role, h, s);
      SlotMember(t', role, h, s);
    }
    SlotMember(t, role, h, (f, i));
    SlotMember(t', role, h, (f, i));
    hide Slots;
    assert Slots(t', role, h) - {(f, i)} == Slots(t, role, h) - {(f, i)};
    CardRemove(Slots(t, role, h), (f, i));
    CardRemove(Slots(t', role, h), (f, i));
  }

  lemma SlotsAfterLink(t: Tables, role: Roles, f: nat, i: nat, g: nat, h: nat)
    requires CanLink(t, role, f, i, g)
    ensures Slots(LinkTable(t, f, i, g), LinkRole(role, f, i, g), h) == Slots(t, role, h)
  {
    var t', role' := LinkTable(t, f, i, g), LinkRole(role, f, i, g);
    forall s ensures s in Slots(t', role', h) <==> s in Slots(t, role, h) {
      assert s.0 in t ==> s.0 != g && role'[s.0] == role[s.0];
    }
  }

  /** A change of role that neither makes nor unmakes a table page moves no reference. */
  lemma SlotsUnaffected(t: Tables, role: Roles, role': Roles, h: nat)
    requires forall g :: g in t ==> g in role && g in role' && role'[g] == role[g]
    ensures Slots(t, role', h) == Slots(t, role, h)
  {
  }
}
