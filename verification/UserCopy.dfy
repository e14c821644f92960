/** User stores, copyout() and copyin() (kernel/vm.c:357-411) as reads and writes of bytes
    in one process's address space. */
module UserCopy {
  import opened Common
  import opened Sv39
  import opened Frames
  import opened Kalloc
  import opened Vm
  import opened Cow

  // ----- writing a frame that is mapped writable -----

  /** A writable page is private: new bytes in its frame show in one place only. */
  lemma WriteAlone(m: Mem, root: nat, vpn: nat, page: Page, r: nat, v: nat)
    requires Ok(m) && IsRoot(m, root) && vpn < MAXVPN && Lookup(m.table, root, vpn).Some?
    requires Lookup(m.table, root, vpn).value.w && IsRoot(m, r) && v < MAXVPN
    ensures var p := Lookup(m.table, root, vpn).value;
            && p.ppn in m.data
            && See(m.(data := m.data[p.ppn := page]), r, v) ==
               if r == root && v == vpn then Some(View(page, p.u)) else See(m, r, v)
  {
    hide Ok, WellFormed;
    SeeSome(m, root, vpn);
    LookupIsSlot(m, root, vpn);
    var f, i := LeafTable(m.table, root, vpn).value, Px(0, vpn);
    SlotCounts(m, (f, i));
    OkSoleWriter(m, (f, i));
    if Lookup(m.table, r, v).Some? {
      SeeSome(m, r, v);
      LookupIsSlot(m, r, v);
      if Lookup(m.table, r, v).value.ppn == m.table[f][i].ppn {
        assert (LeafTable(m.table, r, v).value, Px(0, v)) in Slots(m.table, m.role, m.table[f][i].ppn);
        PxInjective(v, vpn);
      }
    }
  }

  lemma OkSoleWriter(m: Mem, s: (nat, nat))
    requires Ok(m)
    ensures SoleWriter(m, s)
  {
  }

  // ----- bytes -----

  /** A page at virtual address `base` after `src` was written at virtual address `dst`. */
  function WriteInto(b: Page, base: nat, dst: nat, src: seq<byte>): Page {
    seq(PGSIZE, o requires 0 <= o < PGSIZE => if dst <= base + o < dst + |src| then src[base + o - dst] else b[o])
  }

  function Over(s: Option<View>, vpn: nat, dst: nat, src: seq<byte>): Option<View> {
    match s
    case None => None
    case Some(view) => Some(view.(bytes := WriteInto(view.bytes, vpn * PGSIZE, dst, src)))
  }

  /** Exactly the bytes `src` from address `dst` on have changed, for process `root` only. */
  ghost predicate Written(m: Mem, m': Mem, root: nat, dst: nat, src: seq<byte>) {
    && (forall r :: IsRoot(m, r) <==> IsRoot(m', r))
    && (forall r, v {:trigger See(m', r, v)} :: IsRoot(m, r) && 0 <= v < MAXVPN ==>
          See(m', r, v) == if r == root then Over(See(m, r, v), v, dst, src) else See(m, r, v))
  }

  lemma WriteNothing(s: Option<View>, vpn: nat, dst: nat)
    ensures Over(s, vpn, dst, []) == s
  {
    if s.Some? {
      assert WriteInto(s.value.bytes, vpn * PGSIZE, dst, []) == s.value.bytes;
    }
  }

  lemma WriteTwice(s: Option<View>, vpn: nat, dst: nat, s1: seq<byte>, s2: seq<byte>)
    ensures Over(Over(s, vpn, dst, s1), vpn, dst + |s1|, s2) == Over(s, vpn, dst, s1 + s2)
  {
    if s.Some? {
      var base := vpn * PGSIZE;
      assert WriteInto(WriteInto(s.value.bytes, base, dst, s1), base, dst + |s1|, s2)
             == WriteInto(s.value.bytes, base, dst, s1 + s2);
    }
  }

  /** A write within page `vpn` leaves every other page alone. */
  lemma WriteElsewhere(s: Option<View>, v: nat, vpn: nat, dst: nat, src: seq<byte>)
    requires v != vpn && vpn * PGSIZE <= dst && dst + |src| <= vpn * PGSIZE + PGSIZE
    ensures Over(s, v, dst, src) == s
  {
    if s.Some? {
      assert WriteInto(s.value.bytes, v * PGSIZE, dst, src) == s.value.bytes by {
        if v < vpn { assert v * PGSIZE + PGSIZE <= vpn * PGSIZE; } else { assert vpn * PGSIZE + PGSIZE <= v * PGSIZE; }
      }
    }
  }

  lemma WrittenNothing(m: Mem, m': Mem, root: nat, dst: nat)
    requires SameSees(m, m')
    ensures Written(m, m', root, dst, [])
  {
    forall r, v {:trigger See(m', r, v)} | IsRoot(m, r) && 0 <= v < MAXVPN
      ensures See(m', r, v) == if r == root then Over(See(m, r, v), v, dst, []) else See(m, r, v)
    {
      WriteNothing(See(m, r, v), v, dst);
    }
  }

  lemma WrittenTrans(a: Mem, b: Mem, c: Mem, root: nat, dst: nat, s1: seq<byte>, s2: seq<byte>)
    requires Written(a, b, root, dst, s1) && Written(b, c, root, dst + |s1|, s2)
    ensures Written(a, c, root, dst, s1 + s2)
  {
    hide Over;
    forall r, v {:trigger See(c, r, v)} | IsRoot(a, r) && 0 <= v < MAXVPN
      ensures See(c, r, v) == if r == root then Over(See(a, r, v), v, dst, s1 + s2) else See(a, r, v)
    {
      WriteTwice(See(a, r, v), v, dst, s1, s2);
    }
  }

  /** Bytes stored into the frame of a writable page, the whole write inside that page. */
  lemma WritePage(m: Mem, root: nat, vpn: nat, dst: nat, src: seq<byte>)
    requires Ok(m) && IsRoot(m, root) && vpn < MAXVPN && Lookup(m.table, root, vpn).Some?
    requires Lookup(m.table, root, vpn).value.w && vpn * PGSIZE <= dst && dst + |src| <= vpn * PGSIZE + PGSIZE
    ensures var p := Lookup(m.table, root, vpn).value;
            && p.ppn in m.data
            && var m' := m.(data := m.data[p.ppn := WriteInto(m.data[p.ppn], vpn * PGSIZE, dst, src)]);
               Ok(m') && Written(m, m', root, dst, src)
  {
    hide Ok, WriteInto, LeafTable, Lookup;
    SeeSome(m, root, vpn);
    var p := Lookup(m.table, root, vpn).value;
    var page := WriteInto(m.data[p.ppn], vpn * PGSIZE, dst, src);
    WriteOk(m, p.ppn, page);
    var m' := m.(data := m.data[p.ppn := page]);
    forall r, v {:trigger See(m', r, v)} | IsRoot(m, r) && 0 <= v < MAXVPN
      ensures See(m', r, v) == if r == root then Over(See(m, r, v), v, dst, src) else See(m, r, v)
    {
      WriteAlone(m, root, vpn, page, r, v);
      if v != vpn { WriteElsewhere(See(m, r, v), v, vpn, dst, src); }
    }
  }

  /** The page may be touched by user code. */
  ghost predicate UserPage(m: Mem, root: nat, vpn: nat) {
    vpn < MAXVPN && Lookup(m.table, root, vpn).Some? && Lookup(m.table, root, vpn).value.u
  }

  /** The byte a process sees at a virtual address of one of its pages. */
  ghost function ByteAt(m: Mem, root: nat, va: nat): byte
    requires UserPage(m, root, PageOf(va)) && See(m, root, PageOf(va)).Some?
  {
    See(m, root, PageOf(va)).value.bytes[va % PGSIZE]
  }

  ghost predicate ReadsAt(m: Mem, root: nat, va: nat, b: byte) {
    UserPage(m, root, PageOf(va)) && See(m, root, PageOf(va)).Some? && ByteAt(m, root, va) == b
  }

  /** The bytes from `va` on are readable and are `bs`. */
  ghost predicate Reads(m: Mem, root: nat, va: nat, bs: seq<byte>) {
    forall i :: 0 <= i < |bs| ==> ReadsAt(m, root, va + i, bs[i])
  }

  /** What was written is what is read, and every other address reads as before. */
  lemma WrittenReads(m: Mem, m': Mem, root: nat, dst: nat, src: seq<byte>, r: nat, va: nat, b: byte)
    requires Ok(m) && Ok(m') && IsRoot(m, r) && Written(m, m', root, dst, src) && UserPage(m, r, PageOf(va))
    ensures ReadsAt(m', r, va, b) <==>
              if r == root && dst <= va < dst + |src| then b == src[va - dst] else ReadsAt(m, r, va, b)
  {
    hide Ok, LeafTable;
    var vpn := PageOf(va);
    SplitAddress(va);
    SeeSome(m, r, vpn);
    assert See(m', r, vpn) == if r == root then Over(See(m, r, vpn), vpn, dst, src) else See(m, r, vpn);
    SeeSome(m', r, vpn);
  }

  /** User code may touch the `n` bytes from `dst` on. */
  ghost predicate Touchable(m: Mem, root: nat, dst: nat, n: nat) {
    forall va :: dst <= va < dst + n ==> UserAt(m, root, va)
  }

  ghost predicate UserAt(m: Mem, root: nat, va: nat) { UserPage(m, root, PageOf(va)) }

  lemma TouchableMore(m: Mem, root: nat, dst: nat, n: nat, more: nat)
    requires Touchable(m, root, dst, n) && UserPage(m, root, PageOf(dst + n)) && (dst + n) % PGSIZE + more <= PGSIZE
    ensures Touchable(m, root, dst, n + more)
  {
    hide UserPage, PageOf;
    forall va | dst <= va < dst + n + more ensures UserAt(m, root, va) {
      if va >= dst + n {
        SamePage(dst + n, va - (dst + n));
        assert va == dst + n + (va - (dst + n));
      }
    }
  }

  /** After a write to addresses that user code may touch, these read as what was written. */
  lemma WrittenAllRead(m: Mem, m': Mem, root: nat, dst: nat, src: seq<byte>)
    requires Ok(m) && Ok(m') && IsRoot(m, root) && Written(m, m', root, dst, src) && Touchable(m, root, dst, |src|)
    ensures Reads(m', root, dst, src)
  {
    hide Ok, Written, ReadsAt, UserPage, PageOf, IsRoot;
    forall i | 0 <= i < |src| ensures ReadsAt(m', root, dst + i, src[i]) {
      assert UserAt(m, root, dst + i);
      WrittenReads(m, m', root, dst, src, root, dst + i, src[i]);
    }
  }

  /** In particular within one page */
  lemma WrittenPageReads(m: Mem, m': Mem, root: nat, vpn: nat, dst: nat, src: seq<byte>)
    requires Ok(m) && Ok(m') && IsRoot(m, root) && Written(m, m', root, dst, src)
    requires vpn * PGSIZE <= dst && dst + |src| <= vpn * PGSIZE + PGSIZE
    ensures UserPage(m, root, vpn) ==> Reads(m', root, dst, src)
  {
    hide Ok, Written, UserPage, Reads;
    if UserPage(m, root, vpn) {
      forall va | dst <= va < dst + |src| ensures UserAt(m, root, va) {
        assert PageOf(va) == vpn;
      }
      WrittenAllRead(m, m', root, dst, src);
    }
  }

  /** The hardware lets user code store here without a fault. */
  ghost predicate Writable(m: Mem, root: nat, vpn: nat) {
    vpn < MAXVPN && Lookup(m.table, root, vpn).Some? &&
    var pte := Lookup(m.table, root, vpn).value;
    pte.v && pte.u && pte.w
  }

  /** One store instruction of a user program: when the page is not writable it faults, cowfault()
      runs, and the store is repeated; the process is killed (false) when cowfault() fails. */
  method UserStore(vm: Mmu, root: nat, va: nat, b: byte) returns (ok: bool)
    requires vm.Valid() && IsRoot(vm.S(), root)
    modifies vm, vm.k
    ensures vm.Valid() && vm.held == old(vm.held)
    ensures Written(old(vm.S()), vm.S(), root, va, if ok then [b] else [])
    ensures vm.role.Keys == old(vm.role.Keys) && (AllInjective(old(vm.S())) ==> AllInjective(vm.S()))
    ensures ok ==> UserPage(old(vm.S()), root, PageOf(va)) && ReadsAt(vm.S(), root, va, b)
    ensures ok <==> UserPage(old(vm.S()), root, PageOf(va))
                    && (Writable(old(vm.S()), root, PageOf(va)) || old(vm.k.freelist) != [])
    ensures Writable(old(vm.S()), root, PageOf(va)) ==>
              vm.table == old(vm.table) && vm.k.freelist == old(vm.k.freelist)
  {
    hide Ok, Written, Over, LeafTable, AllInjective;
    ghost var m := vm.S();
    var vpn := PageOf(va);
    SameSeesRefl(m);
    var writable := false;
    if vpn < MAXVPN {
      var f := vm.Walk(root, vpn, false);
      writable := f != 0 && vm.table[f][Px(0, vpn)].v && vm.table[f][Px(0, vpn)].u && vm.table[f][Px(0, vpn)].w;
    }
    if !writable {
      var r := Cowfault(vm, root, vpn);
      if r < 0 {
        WrittenNothing(m, vm.S(), root, va);
        return false;
      }
    }
    ghost var m1 := vm.S();
    WrittenNothing(m, m1, root, va);
    StoreBytes(vm, root, vpn, va, [b]);
    WrittenTrans(m, m1, vm.S(), root, va, [], [b]);
    assert [] + [b] == [b];
    WrittenReads(m, vm.S(), root, va, [b], root, va, b);
    ok := true;
  }

  /** memmove() into a user page that is mapped writable. */
  method StoreBytes(vm: Mmu, root: nat, vpn: nat, dst: nat, src: seq<byte>)
    requires vm.Valid() && IsRoot(vm.S(), root) && vpn < MAXVPN && Lookup(vm.table, root, vpn).Some?
    requires Lookup(vm.table, root, vpn).value.w && vpn * PGSIZE <= dst && dst + |src| <= vpn * PGSIZE + PGSIZE
    modifies vm, vm.k
    ensures vm.Valid() && vm.held == old(vm.held) && vm.table == old(vm.table) && vm.role == old(vm.role)
    ensures vm.k.freelist == old(vm.k.freelist)
    ensures Written(old(vm.S()), vm.S(), root, dst, src)
    ensures UserPage(old(vm.S()), root, vpn) ==> Reads(vm.S(), root, dst, src)
    ensures AllInjective(old(vm.S())) ==> AllInjective(vm.S())
  {
    hide Ok, Written, Over, LeafTable, AllInjective, Reads, UserPage;
    ghost var m := vm.S();
    WritePage(m, root, vpn, dst, src);
    var f := vm.Walk(root, vpn, false);
    var pa := vm.table[f][Px(0, vpn)].ppn;
    vm.k.data := vm.k.data[pa := WriteInto(vm.k.data[pa], vpn * PGSIZE, dst, src)];
    SameTableInjective(m, vm.S());
    WrittenPageReads(m, vm.S(), root, vpn, dst, src);
  }

  lemma SameTableInjective(m: Mem, m': Mem)
    requires m'.table == m.table && m'.role == m.role
    ensures AllInjective(m) ==> AllInjective(m')
  {
    if AllInjective(m) {
      forall r {:trigger Injective(m', r)} | IsRoot(m', r) ensures Injective(m', r) {
        assert Injective(m, r);
      }
    }
  }

  lemma SplitAddress(va: nat)
    ensures PageOf(va) * PGSIZE <= va < PageOf(va) * PGSIZE + PGSIZE && va == PageOf(va) * PGSIZE + va % PGSIZE
  {
  }

  lemma NextPage(dst: nat, n: nat)
    requires dst + n <= PageOf(dst) * PGSIZE + PGSIZE
    ensures dst + n == PageOf(dst) * PGSIZE + PGSIZE ==> PageAligned(dst + n) && PageOf(dst + n) == PageOf(dst) + 1
  {
  }

  predicate PageAligned(va: nat) { va % PGSIZE == 0 }

  /** copyout(): 0 when all of `src` was stored; otherwise -1, and the pages before the one
      that could not be made writable have been stored. */
  method Copyout(vm: Mmu, root: nat, dstva: nat, src: seq<byte>) returns (r: int, done: nat)
    requires vm.Valid() && IsRoot(vm.S(), root)
    modifies vm, vm.k
    ensures vm.Valid() && vm.held == old(vm.held) && done <= |src|
    ensures Written(old(vm.S()), vm.S(), root, dstva, src[..done]) && Reads(vm.S(), root, dstva, src[..done])
    ensures Touchable(old(vm.S()), root, dstva, done)
    ensures vm.role.Keys == old(vm.role.Keys) && (AllInjective(old(vm.S())) ==> AllInjective(vm.S()))
    ensures r == 0 <==> done == |src|
    ensures r != 0 ==> r == -1 && (done > 0 ==> PageAligned(dstva + done))
    ensures r != 0 ==> || !UserPage(old(vm.S()), root, PageOf(dstva + done))
                       || |old(vm.k.freelist)| <= PageOf(dstva + done) - PageOf(dstva)
  {
    hide Ok, Written, PageOf, SameSees, IsRoot, PageAligned, AllInjective, UserPage, Reads, Touchable;
    ghost var m0 := vm.S();
    SameSeesRefl(m0);
    WrittenNothing(m0, m0, root, dstva);
    var dst, i := dstva, 0;
    done := 0;
    assert src[..0] == [];
    assert Touchable(m0, root, dstva, 0) by { NoneTouched(m0, root, dstva); }
    while i < |src|
      invariant 0 <= i <= |src| && done == i && dst == dstva + i && (0 < i < |src| ==> PageAligned(dst))
      invariant vm.Valid() && IsRoot(vm.S(), root) && vm.held == old(vm.held)
      invariant Written(m0, vm.S(), root, dstva, src[..i]) && Touchable(m0, root, dstva, i)
      invariant vm.role.Keys == old(vm.role.Keys) && (AllInjective(m0) ==> AllInjective(vm.S()))
      invariant i < |src| ==> |old(vm.k.freelist)| <= |vm.k.freelist| + PageOf(dst) - PageOf(dstva)
    {
      SplitAddress(dst);
      WrittenUserPage(m0, vm.S(), root, dstva, src[..i], PageOf(dst));
      var va0 := PageOf(dst) * PGSIZE;
      if va0 > MAXVPN * PGSIZE {
        NoPageBeyond(m0, root, PageOf(dst));
        WrittenAllRead(m0, vm.S(), root, dstva, src[..i]);
        return -1, done;
      }
      var n := PGSIZE - (dst - va0);
      if n > |src| - i {
        n := |src| - i;
      }
      ghost var m := vm.S();
      var ok := CopyoutPage(vm, root, dst, src[i..i + n]);
      if !ok {
        WrittenAllRead(m0, vm.S(), root, dstva, src[..i]);
        return -1, done;
      }
      TouchableMore(m0, root, dstva, i, n);
      assert src[..i] + src[i..i + n] == src[..i + n];
      WrittenTrans(m0, m, vm.S(), root, dstva, src[..i], src[i..i + n]);
      WrittenRoot(m, vm.S(), root, dst, src[i..i + n]);
      NextPage(dst, n);
      i, dst := i + n, dst + n;
      done := i;
    }
    assert src[..|src|] == src;
    WrittenAllRead(m0, vm.S(), root, dstva, src);
    r := 0;
  }

  lemma NoneTouched(m: Mem, root: nat, dst: nat)
    ensures Touchable(m, root, dst, 0)
  {
  }

  lemma NoPageBeyond(m: Mem, root: nat, vpn: nat)
    requires vpn * PGSIZE > MAXVPN * PGSIZE
    ensures !UserPage(m, root, vpn)
  {
  }

  lemma WrittenUserPage(m: Mem, m': Mem, root: nat, dst: nat, src: seq<byte>, vpn: nat)
    requires Ok(m) && Ok(m') && IsRoot(m, root) && IsRoot(m', root) && Written(m, m', root, dst, src)
    ensures UserPage(m, root, vpn) <==> UserPage(m', root, vpn)
  {
    hide Ok, LeafTable;
    if vpn < MAXVPN {
      if Lookup(m.table, root, vpn).Some? { SeeSome(m, root, vpn); }
      if Lookup(m'.table, root, vpn).Some? { SeeSome(m', root, vpn); }
      assert See(m', root, vpn) == Over(See(m, root, vpn), vpn, dst, src);
    }
  }

  lemma WrittenRoot(m: Mem, m': Mem, root: nat, dst: nat, src: seq<byte>)
    requires Written(m, m', root, dst, src) && IsRoot(m, root)
    ensures IsRoot(m', root)
  {
  }

  /** One round of the loop in copyout(). */
  method CopyoutPage(vm: Mmu, root: nat, dst: nat, chunk: seq<byte>) returns (ok: bool)
    requires vm.Valid() && IsRoot(vm.S(), root) && dst + |chunk| <= PageOf(dst) * PGSIZE + PGSIZE
    modifies vm, vm.k
    ensures vm.Valid() && vm.held == old(vm.held)
    ensures !ok ==> vm.S() == old(vm.S())
    ensures ok ==> Written(old(vm.S()), vm.S(), root, dst, chunk) && Reads(vm.S(), root, dst, chunk)
    ensures vm.role.Keys == old(vm.role.Keys) && (AllInjective(old(vm.S())) ==> AllInjective(vm.S()))
    ensures ok <==> UserPage(old(vm.S()), root, PageOf(dst)) && old(vm.k.freelist) != []
    ensures |old(vm.k.freelist)| <= |vm.k.freelist| + 1
  {
    hide Ok, Written, Over, LeafTable, AllInjective, Reads;
    ghost var m := vm.S();
    var vpn := PageOf(dst);
    SplitAddress(dst);
    var r := Cowfault(vm, root, vpn);
    if r < 0 {
      return false;
    }
    ghost var m1 := vm.S();
    WrittenNothing(m, m1, root, dst);
    StoreBytes(vm, root, vpn, dst, chunk);
    WrittenTrans(m, m1, vm.S(), root, dst, [], chunk);
    assert [] + chunk == chunk;
    WrittenPageReads(m, vm.S(), root, vpn, dst, chunk);
    ok := true;
  }

  /** copyin(): 0 when `len` bytes were read; otherwise -1, and `got` ends where the first page
      that user code may not touch begins.  Nothing a process sees changes. */
  method Copyin(vm: Mmu, root: nat, srcva: nat, len: nat) returns (r: int, got: seq<byte>)
    requires vm.Valid() && IsRoot(vm.S(), root)
    modifies vm, vm.k
    ensures vm.S() == old(vm.S()) && |got| <= len && Reads(vm.S(), root, srcva, got)
    ensures r == 0 <==> |got| == len
    ensures r != 0 ==> r == -1 && !UserPage(vm.S(), root, PageOf(srcva + |got|))
  {
    hide Ok, PageOf, LeafTable, See, ReadsAt;
    ghost var m := vm.S();
    got := [];
    var src := srcva;
    while |got| < len
      invariant |got| <= len && src == srcva + |got| && vm.S() == m
      invariant Reads(m, root, srcva, got)
    {
      SplitAddress(src);
      var vpn := PageOf(src);
      if vpn >= MAXVPN {
        return -1, got;
      }
      var f := vm.Walk(root, vpn, false);
      if f == 0 || !vm.table[f][Px(0, vpn)].v || !vm.table[f][Px(0, vpn)].u {
        return -1, got;
      }
      var pa0 := vm.table[f][Px(0, vpn)].ppn;
      SeeSome(m, root, vpn);
      var o := src - vpn * PGSIZE;
      var n := PGSIZE - o;
      if n > len - |got| {
        n := len - |got|;
      }
      var chunk := vm.k.data[pa0][o..o + n];
      ReadChunk(m, root, srcva, got, vm.k.data[pa0], chunk);
      got := got + chunk;
      src := src + n;
    }
    r := 0;
  }

  lemma ReadChunk(m: Mem, root: nat, va: nat, got: seq<byte>, page: Page, chunk: seq<byte>)
    requires Reads(m, root, va, got) && |chunk| > 0
    requires var src := va + |got|;
             && UserPage(m, root, PageOf(src)) && See(m, root, PageOf(src)).Some?
                 && See(m, root, PageOf(src)).value.bytes == page
             && src % PGSIZE + |chunk| <= PGSIZE && chunk == page[src % PGSIZE..src % PGSIZE + |chunk|]
    ensures Reads(m, root, va, got + chunk)
  {
    hide See, Lookup, PageOf;
    var src := va + |got|;
    forall i | 0 <= i < |got + chunk| ensures ReadsAt(m, root, va + i, (got + chunk)[i]) {
      if i >= |got| {
        SamePage(src, i - |got|);
        assert va + i == src + (i - |got|);
      }
    }
  }

  lemma SamePage(src: nat, j: nat)
    requires src % PGSIZE + j < PGSIZE
    ensures PageOf(src + j) == PageOf(src) && (src + j) % PGSIZE == src % PGSIZE + j
  {
  }
}
