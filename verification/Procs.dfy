/** The processes of the machine, their address spaces kept by copy-on-write, and the proof that
    they refine the eager machine over every run. */
module Procs {
  import opened Common
  import opened Sv39
  import opened Frames
  import opened Kalloc
  import opened Vm
  import opened Cow
  import opened AddressSpace
  import opened Grow
  import F = Fork
  import opened UserCopy
  import opened TableCount
  import opened Sets
  import opened Eager

  datatype Proc = Proc(root: nat, sz: nat)

  /** Process `q` sees exactly the pages `s`. */
  ghost predicate Shows(m: Mem, q: Proc, s: Space) {
    && IsRoot(m, q.root) && PageUp(q.sz) <= MAXVPN && |s| == PageUp(q.sz)
    && forall v {:trigger See(m, q.root, v)} :: 0 <= v < MAXVPN ==>
        See(m, q.root, v) == if v < |s| then Some(s[v]) else None
  }

  /** The abstraction relation between machine and eager world. */
  ghost predicate Matches(m: Mem, procs: map<nat, Proc>, w: World) {
    && procs.Keys == w.Keys
    && (forall p :: p in procs ==> Shows(m, procs[p], w[p]))
    && (forall p, q :: p in procs && q in procs && p != q ==> procs[p].root != procs[q].root)
    && (forall r :: IsRoot(m, r) ==> exists p :: p in procs && procs[p].root == r)
  }

  // ----- which outcome a state calls for -----

  /** What a process table and the allocator have to say about an operation: the eager world, the size
      of each process in bytes, and the number of free frames. */
  datatype Snap = Snap(world: World, size: map<nat, nat>, free: nat)

  /** The size growproc(n) leaves; a shrink below zero wraps to a huge size, which
      uvmdealloc() takes for no shrink at all. */
  function NewSize(sz: nat, n: int): nat { if sz + n >= 0 then sz + n else sz }

  function Sizes(size: map<nat, nat>, op: Op, out: Outcome): map<nat, nat> {
    match op
    case Create(p) => if out.Done? then size[p := 0] else size
    case Fork(p, c) => if out.Done? && p in size then size[c := size[p]] else size
    case Store(_, _, _) => size
    case Copyout(_, _, _) => size
    case Sbrk(p, n) => if out.Done? && p in size then size[p := NewSize(size[p], n)] else size
    case Exit(p) => if out.Done? then size - {p} else size
  }

  /** fork() fits: a root for the child and the table pages for the parent's size. */
  predicate Affords(a: Snap, p: nat) {
    p in a.size && a.free >= 1 + TablesFor(PageUp(a.size[p]))
  }

  /** An operation is refused only for a missing process, a process there already, an address outside
      the process, or short memory; for create, fork and exit exactly then. */
  ghost predicate Fair(a: Snap, op: Op, out: Outcome) {
    match op
    case Create(p) => out.Done? <==> p !in a.size && a.free >= 1
    case Fork(p, c) => out.Done? <==> c !in a.size && Affords(a, p)
    case Store(p, va, _) =>
      && (out.Done? ==> Eager.Load(a.world, p, va).Some?)
      && (Eager.Load(a.world, p, va).Some? && a.free >= 1 ==> out.Done?)
    case Copyout(p, va, src) =>
      && (out.Done? <==> p in a.size)
      && (out.Done? ==> out.count <= |src| && forall y :: va <= y < va + out.count ==> Eager.Load(a.world, p, y).Some?)
      && (out.Done? && out.count < |src| ==>
            Eager.Load(a.world, p, va + out.count) == None || a.free <= PageOf(va + out.count) - PageOf(va))
    case Sbrk(p, n) =>
      && (out.Done? ==> p in a.size && out.count == PageUp(NewSize(a.size[p], n)))
      && (out.Refused? && p in a.size ==> n > 0 && a.free <= 3 * (PageUp(a.size[p] + n) - PageUp(a.size[p])))
    case Exit(p) => out.Done? <==> p in a.size
  }

  /** fork() gets as far as uvmcopy() and is refused there. */
  predicate Leaks(a: Snap, op: Op) {
    op.Fork? && op.p in a.size && op.child !in a.size && a.free >= 1 && !Affords(a, op.p)
  }

  /** The frame of one of the first n pages */
  ghost predicate PageFrame(m: Mem, root: nat, n: nat, f: nat) {
    exists v :: 0 <= v < n && v < MAXVPN && Lookup(m.table, root, v).Some? && Lookup(m.table, root, v).value.ppn == f
  }

  ghost function PlusAll(h: map<nat, nat>, fs: seq<nat>): map<nat, nat> {
    if fs == [] then h else Plus(PlusAll(h, fs[..|fs| - 1]), fs[|fs| - 1])
  }

  ghost function CountLeaks(snaps: seq<Snap>, ops: seq<Op>, n: nat): nat
    requires n <= |ops| && n <= |snaps|
  {
    if n == 0 then 0 else CountLeaks(snaps, ops, n - 1) + if Leaks(snaps[n - 1], ops[n - 1]) then 1 else 0
  }

  lemma {:induction false} CountSame(snaps: seq<Snap>, more: seq<Snap>, ops: seq<Op>, n: nat)
    requires n <= |ops| && n <= |snaps|
    ensures CountLeaks(snaps + more, ops, n) == CountLeaks(snaps, ops, n)
  {
    if n > 0 { CountSame(snaps, more, ops, n - 1); }
  }

  /** One operation, from what a state says about it to what the next one says. */
  ghost predicate Follows(a: Snap, op: Op, out: Outcome, b: Snap) {
    && Fair(a, op, out) && b.world == Step(a.world, op, out) && b.size == Sizes(a.size, op, out)
    && Effect(a.world, a.size, op, out, b.world, b.size)
  }

  /** What loads deliver and how large processes are afterwards follows from the other parts. */
  lemma FollowsIntro(a: Snap, op: Op, out: Outcome, b: Snap)
    requires Sized(a.world, a.size) && Fair(a, op, out)
    requires b.world == Step(a.world, op, out) && b.size == Sizes(a.size, op, out)
    ensures Follows(a, op, out, b)
  {
    hide Effect, Step, PageUp, Eager.Load, Sized, TablesFor, PageOf;
    StepEffect(a.world, a.size, op, out, b.world, b.size);
  }

  /** The first |outs| operations of a run */
  ghost predicate Story(snaps: seq<Snap>, ops: seq<Op>, outs: seq<Outcome>) {
    && |snaps| == |outs| + 1 && |outs| <= |ops|
    && forall k :: 0 <= k < |outs| ==> Follows(snaps[k], ops[k], outs[k], snaps[k + 1])
  }

  lemma StoryMore(snaps: seq<Snap>, ops: seq<Op>, outs: seq<Outcome>, out: Outcome, b: Snap)
    requires Story(snaps, ops, outs) && |outs| < |ops| && Follows(snaps[|outs|], ops[|outs|], out, b)
    ensures Story(snaps + [b], ops, outs + [out])
    ensures CountLeaks(snaps + [b], ops, |outs| + 1) ==
            CountLeaks(snaps, ops, |outs|) + if Leaks(snaps[|outs|], ops[|outs|]) then 1 else 0
  {
    hide Follows, Leaks;
    CountSame(snaps, [b], ops, |outs|);
    forall k | 0 <= k < |outs| + 1
      ensures Follows((snaps + [b])[k], ops[k], (outs + [out])[k], (snaps + [b])[k + 1])
    {
      if k < |outs| { assert Follows(snaps[k], ops[k], outs[k], snaps[k + 1]); }
    }
  }

  /** In such a run the worlds are those of the eager machine. */
  lemma {:induction false} StoryRuns(snaps: seq<Snap>, ops: seq<Op>, outs: seq<Outcome>, n: nat)
    requires Story(snaps, ops, outs) && n <= |outs|
    ensures snaps[n].world == Eager.Run(snaps[0].world, ops[..n], outs[..n])
  {
    hide Fair, Step, Sizes, Effect;
    if n > 0 {
      StoryRuns(snaps, ops, outs, n - 1);
      assert Follows(snaps[n - 1], ops[n - 1], outs[n - 1], snaps[n - 1 + 1]);
      assert ops[..n][..n - 1] == ops[..n - 1] && outs[..n][..n - 1] == outs[..n - 1];
    }
  }

  lemma ShowsDense(m: Mem, q: Proc, s: Space)
    requires Shows(m, q, s)
    ensures Dense(m, q.root, PageUp(q.sz))
  {
  }

  /** A step that changes what one process sees, and no page table comes or goes. */
  lemma MatchesOne(m: Mem, m': Mem, procs: map<nat, Proc>, w: World, p: nat, q: Proc, s: Space)
    requires Matches(m, procs, w) && p in procs && q.root == procs[p].root && Shows(m', q, s)
    requires forall r :: IsRoot(m, r) <==> IsRoot(m', r)
    requires forall r, v {:trigger See(m', r, v)} :: IsRoot(m, r) && r != q.root && 0 <= v < MAXVPN ==>
               See(m', r, v) == See(m, r, v)
    ensures Matches(m', procs[p := q], w[p := s])
  {
    hide See;
    var procs' := procs[p := q];
    forall r | IsRoot(m', r) ensures exists x :: x in procs' && procs'[x].root == r {
      var x :| x in procs && procs[x].root == r;
      assert x in procs' && procs'[x].root == r;
    }
    forall x | x in procs' ensures Shows(m', procs'[x], w[p := s][x]) {
      if x != p {
        assert Shows(m, procs[x], w[x]);
      }
    }
  }

  lemma MatchesSame(m: Mem, m': Mem, procs: map<nat, Proc>, w: World)
    requires Matches(m, procs, w) && forall r :: IsRoot(m, r) <==> IsRoot(m', r)
    requires forall r, v {:trigger See(m', r, v)} :: IsRoot(m, r) && 0 <= v < MAXVPN ==> See(m', r, v) == See(m, r, v)
    ensures Matches(m', procs, w)
  {
    hide See;
    forall x | x in procs ensures Shows(m', procs[x], w[x]) {
      assert Shows(m, procs[x], w[x]);
    }
  }

  lemma WrittenShows(m: Mem, m': Mem, q: Proc, s: Space, dst: nat, src: seq<byte>)
    requires Shows(m, q, s) && Written(m, m', q.root, dst, src)
    ensures Shows(m', q, Write(s, dst, src))
  {
    hide See, WriteInto;
  }

  lemma ExtendedShows(m: Mem, m': Mem, q: Proc, s: Space, sz: nat)
    requires Shows(m, q, s) && q.sz <= sz && PageUp(q.sz) <= PageUp(sz) <= MAXVPN
    requires Extended(m, m', q.root, PageUp(q.sz), PageUp(sz) - PageUp(q.sz))
    ensures Shows(m', q.(sz := sz), Resize(s, PageUp(sz)))
  {
    hide See, PageUp, Fill;
  }

  lemma UnmappedShows(m: Mem, m': Mem, q: Proc, s: Space, sz: nat)
    requires Ok(m) && Ok(m') && Shows(m, q, s) && sz < q.sz && PageUp(sz) <= PageUp(q.sz)
    requires Unmapped(m, m', q.root, PageUp(sz), PageUp(q.sz) - PageUp(sz))
    ensures Shows(m', q.(sz := sz), Resize(s, PageUp(sz)))
  {
    hide Ok, See, PageUp;
    UnmappedSees(m, m', q.root, PageUp(sz), PageUp(q.sz) - PageUp(sz));
  }

  lemma CreatedMatches(m: Mem, m': Mem, procs: map<nat, Proc>, w: World, p: nat, root: nat)
    requires Matches(m, procs, w) && p !in procs && Created(m, m', root)
    ensures Matches(m', procs[p := Proc(root, 0)], w[p := []])
  {
    hide See;
    var procs' := procs[p := Proc(root, 0)];
    forall x | x in procs' ensures Shows(m', procs'[x], w[p := []][x]) {
      if x != p {
        assert Shows(m, procs[x], w[x]);
      }
    }
    forall r | IsRoot(m', r) ensures exists x :: x in procs' && procs'[x].root == r {
      if r == root {
        assert procs'[p].root == r;
      } else {
        var x :| x in procs && procs[x].root == r;
        assert x in procs' && procs'[x].root == r;
      }
    }
  }

  lemma DestroyedMatches(m: Mem, m': Mem, procs: map<nat, Proc>, w: World, p: nat)
    requires Matches(m, procs, w) && p in procs && Destroyed(m, m', procs[p].root)
    ensures Matches(m', procs - {p}, w - {p})
  {
    hide See;
    var procs' := procs - {p};
    forall x | x in procs' ensures Shows(m', procs'[x], (w - {p})[x]) {
      assert Shows(m, procs[x], w[x]);
    }
    forall r | IsRoot(m', r) ensures exists x :: x in procs' && procs'[x].root == r {
      var x :| x in procs && procs[x].root == r;
      assert x in procs' && procs'[x].root == r;
    }
  }

  lemma SharedMatches(m: Mem, m': Mem, procs: map<nat, Proc>, w: World, p: nat, c: nat)
    requires Matches(m, procs, w) && p in procs && c in procs && p != c && procs[c].sz == 0
    requires F.Shared(m, m', procs[p].root, procs[c].root, PageUp(procs[p].sz))
    ensures Matches(m', procs[c := procs[c].(sz := procs[p].sz)], w[c := w[p]])
  {
    hide See, Lookup, PageUp;
    assert Shows(m, procs[p], w[p]) && Shows(m, procs[c], w[c]);
    assert w[c] == [] by { assert PageUp(0) == 0; }
    MatchesOne(m, m', procs, w, c, procs[c].(sz := procs[p].sz), w[p]);
  }

  // ----- no two pages of one process share a frame, in every process -----

  lemma SameLookupsInjective(m: Mem, m': Mem, r: nat)
    requires Injective(m, r)
    requires forall v {:trigger Lookup(m'.table, r, v)} :: 0 <= v < MAXVPN ==>
               Lookup(m'.table, r, v) == Lookup(m.table, r, v)
    ensures Injective(m', r)
  {
    hide Lookup;
  }

  lemma CreatedInjective(m: Mem, m': Mem, g: nat)
    requires Ok(m') && AllInjective(m) && Created(m, m', g)
    ensures AllInjective(m')
  {
    hide Ok, Lookup, See, Dense, Injective;
    forall r {:trigger Injective(m', r)} | IsRoot(m', r) ensures Injective(m', r) {
      if r == g {
        F.EmptyLookup(m', g);
        EmptyInjective(m', g);
      } else {
        SameLookupsInjective(m, m', r);
      }
    }
  }

  lemma EmptyInjective(m: Mem, g: nat)
    requires forall v {:trigger Lookup(m.table, g, v)} :: 0 <= v < MAXVPN ==> Lookup(m.table, g, v) == None
    ensures Injective(m, g)
  {
  }

  lemma DestroyedInjective(m: Mem, m': Mem, root: nat)
    requires AllInjective(m) && Destroyed(m, m', root)
    ensures AllInjective(m')
  {
    hide Lookup, See, Injective;
    forall r {:trigger Injective(m', r)} | IsRoot(m', r) ensures Injective(m', r) {
      SameLookupsInjective(m, m', r);
    }
  }

  lemma RestoredInjective(m: Mem, m': Mem)
    requires AllInjective(m) && Restored(m, m')
    ensures AllInjective(m')
  {
    hide Lookup, See, Injective;
    forall r {:trigger Injective(m', r)} | IsRoot(m', r) ensures Injective(m', r) {
      SameLookupsInjective(m, m', r);
    }
  }

  lemma ExtendedInjective(m: Mem, m': Mem, root: nat, a: nat, n: nat)
    requires AllInjective(m) && Extended(m, m', root, a, n) && Injective(m', root)
    ensures AllInjective(m')
  {
    hide Lookup, See, Injective;
    forall r {:trigger Injective(m', r)} | IsRoot(m', r) ensures Injective(m', r) {
      if r != root { SameLookupsInjective(m, m', r); }
    }
  }

  lemma UnmappedInjective(m: Mem, m': Mem, root: nat, a: nat, n: nat)
    requires AllInjective(m) && Unmapped(m, m', root, a, n)
    ensures AllInjective(m')
  {
    hide Lookup;
    forall r {:trigger Injective(m', r)} | IsRoot(m', r) ensures Injective(m', r) {
      assert Injective(m, r);
    }
  }

  lemma SharedInjective(m: Mem, m': Mem, from: nat, to: nat, n: nat)
    requires Ok(m) && AllInjective(m) && F.Shared(m, m', from, to, n) && IsRoot(m, from) && Dense(m, to, 0)
    ensures AllInjective(m')
  {
    hide Ok, Lookup, See, Dense, Injective;
    forall r {:trigger Injective(m', r)} | IsRoot(m', r) ensures Injective(m', r) {
      if r == from || r == to {
        F.SharedInjective(m, m', from, to, n, r);
      } else {
        SameLookupsInjective(m, m', r);
      }
    }
  }

  lemma WeakenedInjective(m: Mem, m': Mem)
    requires AllInjective(m) && F.Weakened(m, m')
    ensures AllInjective(m')
  {
    hide Lookup, See, Injective;
    forall r {:trigger Injective(m', r)} | IsRoot(m', r) ensures Injective(m', r) {
      F.WeakenedInjective(m, m', r);
    }
  }

  class Machine {
    const vm: Mmu
    var procs: map<nat, Proc>
    ghost var world: World

    ghost predicate Valid()
      reads this, vm, vm.k
    {
      vm.Valid() && Matches(vm.S(), procs, world) && AllInjective(vm.S()) && |vm.role| <= MAXVPN
    }

    ghost function Now(): Snap
      reads this, vm, vm.k
    {
      Snap(world, map p | p in procs :: procs[p].sz, |vm.k.freelist|)
    }

    constructor (mmu: Mmu)
      requires mmu.Valid() && mmu.table == map[] && |mmu.role| <= MAXVPN
      ensures Valid() && vm == mmu && procs == map[] && world == map[]
    {
      vm, procs, world := mmu, map[], map[];
    }

    lemma Facts(p: nat)
      requires Valid() && p in procs
      ensures p in world && Shows(vm.S(), procs[p], world[p]) && IsRoot(vm.S(), procs[p].root)
      ensures Dense(vm.S(), procs[p].root, PageUp(procs[p].sz)) && Injective(vm.S(), procs[p].root)
    {
      hide Ok, Lookup, See, Injective;
      ShowsDense(vm.S(), procs[p], world[p]);
    }

    lemma NowSized()
      requires Valid()
      ensures Sized(Now().world, Now().size)
    {
      hide Ok, AllInjective, See;
      forall p | p in world ensures |world[p]| == PageUp(procs[p].sz) {
        assert Shows(vm.S(), procs[p], world[p]);
      }
    }

    /** A process with an empty address space. */
    method Create(p: nat) returns (out: Outcome)
      requires Valid()
      modifies this, vm, vm.k
      ensures Valid() && world == Step(old(world), Op.Create(p), out)
      ensures out.Refused? <==> p in old(procs) || old(vm.k.freelist) == []
      ensures out.Refused? ==> procs == old(procs)
      ensures out.Done? ==> p in procs && procs[p].sz == 0 && procs == old(procs)[p := procs[p]]
                            && vm.k.freelist == old(vm.k.freelist)[1..]
      ensures out.Done? ==> OnlyRoot(vm.role, procs[p].root) && Created(old(vm.S()), vm.S(), procs[p].root)
      ensures vm.held == old(vm.held)
    {
      hide Ok, Matches, AllInjective, Created, OnlyRoot;
      if p in procs {
        return Refused;
      }
      ghost var m := vm.S();
      var root := Uvmcreate(vm);
      if root == 0 {
        return Refused;
      }
      CreatedMatches(m, vm.S(), procs, world, p, root);
      CreatedInjective(m, vm.S(), root);
      CreatedRoles(m, vm.S(), root);
      procs := procs[p := Proc(root, 0)];
      world := world[p := []];
      out := Done(0);
    }

    /** A user store; Refused kills the process. */
    method Store(p: nat, va: nat, b: byte) returns (out: Outcome)
      requires Valid()
      modifies this, vm, vm.k
      ensures Valid() && world == Step(old(world), Op.Store(p, va, b), out) && vm.held == old(vm.held)
              && procs == old(procs)
      ensures out.Refused? ==> Eager.Load(old(world), p, va) == None || old(vm.k.freelist) == []
      ensures out.Done? ==> Eager.Load(old(world), p, va).Some?
      ensures out.Done? ==> forall q: nat, x: nat :: Eager.Load(world, q, x) ==
                              if q == p && x == va then Some(b) else Eager.Load(old(world), q, x)
    {
      hide Ok, AllInjective, Written, Injective, See, Lookup, Matches, PageOf, UserPage, Eager.Load, ReadsAt;
      KeysMatch(vm.S(), procs, world);
      if p !in procs {
        LoadAbsent(world, p, va);
        return Refused;
      }
      ghost var m := vm.S();
      Facts(p);
      var ok := UserStore(vm, procs[p].root, va, b);
      WrittenMatches(m, vm.S(), procs, world, p, va, if ok then [b] else []);
      UserPageLoads(m, procs[p], world, p, va);
      if !ok {
        WriteNone(world, p, va);
        return Refused;
      }
      StoreEffect(world, p, va, b);
      world := world[p := Write(world[p], va, [b])];
      out := Done(0);
    }

    /** A user load of process `p` delivers what the eager machine would. */
    method Load(p: nat, va: nat) returns (b: Option<byte>)
      requires Valid()
      modifies vm, vm.k
      ensures Valid() && vm.S() == old(vm.S()) && b == Eager.Load(world, p, va)
    {
      hide Ok, AllInjective, Injective, Lookup, PageOf, Matches, See;
      KeysMatch(vm.S(), procs, world);
      if p !in procs {
        return None;
      }
      Facts(p);
      ghost var m := vm.S();
      UserPageLoads(m, procs[p], world, p, va);
      var r, got := Copyin(vm, procs[p].root, va, 1);
      if r != 0 {
        assert got == [];
        return None;
      }
      assert ReadsAt(m, procs[p].root, va + 0, got[0]);
      LoadIs(m, procs[p], world, p, va, got[0]);
      b := Some(got[0]);
    }

    /** copyout() into process `p`; Done(k) when the first k bytes were stored. */
    method Copyout(p: nat, va: nat, src: seq<byte>) returns (out: Outcome)
      requires Valid()
      modifies this, vm, vm.k
      ensures Valid() && world == Step(old(world), Op.Copyout(p, va, src), out) && vm.held == old(vm.held)
              && procs == old(procs)
      ensures (out.Refused? <==> p !in old(procs)) && (out.Done? ==> out.count <= |src|)
      ensures out.Done? ==> forall y :: va <= y < va + out.count ==> Eager.Load(old(world), p, y).Some?
      ensures out.Done? ==> Stored(old(world), p, va, src[..out.count], world)
      ensures out.Done? && out.count < |src| ==>
                || Eager.Load(old(world), p, va + out.count) == None
                || |old(vm.k.freelist)| <= PageOf(va + out.count) - PageOf(va)
    {
      hide Ok, AllInjective, Written, Injective, See, Lookup, Shows, Matches, UserPage, PageOf, Eager.Load, Reads;
      hide Touchable, Stored;
      KeysMatch(vm.S(), procs, world);
      if p !in procs {
        return Refused;
      }
      ghost var m := vm.S();
      Facts(p);
      var _, n := UserCopy.Copyout(vm, procs[p].root, va, src);
      UserPageLoads(m, procs[p], world, p, va + n);
      WrittenMatches(m, vm.S(), procs, world, p, va, src[..n]);
      TouchableLoads(m, procs[p], world, p, va, n);
      WriteStores(world, p, va, src[..n]);
      world := world[p := Write(world[p], va, src[..n])];
      out := Done(n);
    }

    /** fork(): Refused when a page-table page could not be allocated.  If that is in uvmcopy(), the
        reference `leak` to a page of the parent is lost; otherwise none is. */
    method Fork(p: nat, c: nat) returns (out: Outcome, ghost leak: nat)
      requires Valid()
      modifies this, vm, vm.k
      ensures Valid() && world == Step(old(world), Op.Fork(p, c), out)
      ensures out.Done? <==> c !in old(procs) && Affords(old(Now()), p)
      ensures if out.Done? then p in old(procs) && c in procs && procs == old(procs)[c := procs[c]]
              && procs[c].sz == old(procs)[p].sz
              else procs == old(procs)
      ensures if Leaks(old(Now()), Op.Fork(p, c))
              then p in old(procs) && leak in old(vm.held) && vm.held == old(vm.held)[leak := old(vm.held)[leak] + 1]
                   && PageFrame(old(vm.S()), old(procs)[p].root, PageUp(old(procs)[p].sz), leak)
              else vm.held == old(vm.held)
    {
      hide Ok, Matches, AllInjective, Created, OnlyRoot, TablesFor, PageFrame, PageUp;
      leak := 0;
      if p !in procs || c in procs {
        return Refused, leak;
      }
      ghost var m0, w0 := vm.S(), world;
      Facts(p);
      KeysMatch(vm.S(), procs, world);
      var made := Create(c);
      if made.Refused? {
        return Refused, leak;
      }
      var ok;
      ok, leak := CopyInto(p, c, m0);
      if !ok {
        assert world == w0 && procs == old(procs);
        return Refused, leak;
      }
      assert world == w0[c := w0[p]];
      out := Done(0);
    }

    /** fork() from uvmcopy() on, for a child just created in state `m0`. */
    method CopyInto(p: nat, c: nat, ghost m0: Mem) returns (ok: bool, ghost leak: nat)
      requires Valid() && p in procs && c in procs && p != c && procs[c].sz == 0 && OnlyRoot(vm.role, procs[c].root)
      requires Ok(m0) && IsRoot(m0, procs[p].root) && Created(m0, vm.S(), procs[c].root)
      modifies this, vm, vm.k
      ensures Valid() && p in old(world) && (ok <==> |old(vm.k.freelist)| >= TablesFor(PageUp(old(procs)[p].sz)))
      ensures ok ==> world == old(world)[c := old(world)[p]] && vm.held == old(vm.held)
      ensures ok ==> procs == old(procs)[c := old(procs)[c].(sz := old(procs)[p].sz)]
      ensures !ok ==> world == old(world) - {c} && procs == old(procs) - {c} && leak in m0.held
      ensures !ok ==> vm.held == Plus(old(vm.held), leak)
      ensures !ok ==> PageFrame(m0, old(procs)[p].root, PageUp(old(procs)[p].sz), leak)
    {
      hide Ok, Matches, AllInjective, Injective, See, Lookup, F.Shared, F.Weakened, Destroyed, Dense, PageUp, Shows,
        Created, Bare, OnlyRoot, TablesFor, PageFrame;
      ghost var m1 := vm.S();
      Facts(p);
      Facts(c);
      EmptySpace();
      DistinctRoots(m1, procs, world, p, c);
      SizeInRange(m1, procs[p], world[p]);
      OnlyRootBare(vm.role, procs[c].root, PageUp(procs[p].sz));
      var r;
      r, leak := F.Uvmcopy(vm, procs[p].root, procs[c].root, procs[p].sz);
      if r < 0 {
        WeakenedRoles(m1, vm.S());
        LeakFacts(m0, m1, procs[c].root, procs[p].root, PageUp(procs[p].sz), leak);
        Abandon(c, m1);
        return false, leak;
      }
      SharedMatches(m1, vm.S(), procs, world, p, c);
      SharedInjective(m1, vm.S(), procs[p].root, procs[c].root, PageUp(procs[p].sz));
      SharedRoles(m1, vm.S(), procs[p].root, procs[c].root, PageUp(procs[p].sz));
      procs := procs[c := procs[c].(sz := procs[p].sz)];
      world := world[c := world[p]];
      return true, leak;
    }

    /** fork()'s error exit: freeproc() on the child, whose recorded size is still 0. */
    method Abandon(c: nat, ghost m1: Mem)
      requires vm.Valid() && Matches(m1, procs, world) && AllInjective(m1) && F.Weakened(m1, vm.S())
      requires c in procs && procs[c].sz == 0 && |vm.role| <= MAXVPN
      modifies this, vm, vm.k
      ensures Valid() && procs == old(procs) - {c} && world == old(world) - {c} && vm.held == old(vm.held)
    {
      hide Ok, Matches, AllInjective, Injective, See, Lookup, F.Weakened, Destroyed, Shows, PageUp;
      ghost var m := vm.S();
      WeakenedMatches(m1, m, procs, world);
      WeakenedInjective(m1, m);
      Remove(c);
    }

    /** uvmfree() of a process that goes away. */
    method Remove(c: nat)
      requires Valid() && c in procs
      modifies this, vm, vm.k
      ensures Valid() && procs == old(procs) - {c} && world == old(world) - {c} && vm.held == old(vm.held)
    {
      hide Ok, Matches, AllInjective, Injective, See, Lookup, Destroyed, Shows, PageUp;
      ghost var m := vm.S();
      Facts(c);
      Uvmfree(vm, procs[c].root, procs[c].sz);
      DestroyedMatches(m, vm.S(), procs, world, c);
      DestroyedInjective(m, vm.S(), procs[c].root);
      DestroyedRoles(m, vm.S(), procs[c].root);
      procs := procs - {c};
      world := world - {c};
    }

    /** exit() and wait(): the process and its address space are gone. */
    method Exit(p: nat) returns (out: Outcome)
      requires Valid()
      modifies this, vm, vm.k
      ensures Valid() && world == Step(old(world), Op.Exit(p), out) && vm.held == old(vm.held)
      ensures (out.Done? <==> p in old(procs)) && procs == old(procs) - {p}
    {
      hide Ok, Matches, AllInjective;
      KeysMatch(vm.S(), procs, world);
      if p !in procs {
        return Refused;
      }
      Remove(p);
      out := Done(0);
    }

    /** growproc(n) */
    method Sbrk(p: nat, n: int) returns (out: Outcome)
      requires Valid()
      modifies this, vm, vm.k
      ensures Valid() && world == Step(old(world), Op.Sbrk(p, n), out) && vm.held == old(vm.held)
      ensures out.Done? ==>
                p in old(procs) && procs == old(procs)[p := old(procs)[p].(sz := NewSize(old(procs)[p].sz, n))]
      ensures out.Done? ==> out.count == PageUp(procs[p].sz)
      ensures out.Done? && old(procs)[p].sz + n >= 0 ==>
                && p in procs && procs[p].sz == old(procs)[p].sz + n
                && p in world && |world[p]| == PageUp(old(procs)[p].sz + n)
                && Resized(old(world), p, old(procs)[p].sz, procs[p].sz, world)
      ensures out.Done? && old(procs)[p].sz + n < 0 ==> procs == old(procs) && world == old(world)
      ensures out.Refused? ==> procs == old(procs)
      ensures out.Refused? ==> p !in old(procs) || (n > 0 && LittleMemory(old(vm.k.freelist), old(procs)[p].sz, n))
      ensures out.Done? && n > 0 ==>
                |old(vm.k.freelist)| <= |vm.k.freelist| + 3 * (PageUp(procs[p].sz) - PageUp(old(procs)[p].sz))
    {
      hide Ok, Matches, AllInjective, Injective, See, Lookup, Extended, Restored, Unmapped, PageUp, Dense, Resize,
           Resized;
      if p !in procs {
        return Refused;
      }
      Facts(p);
      var q := procs[p];
      if q.sz + n >= 0 {
        ResizeLoads(world, p, q.sz, q.sz + n);
        ResizeLength(world[p], PageUp(q.sz + n));
      }
      if n > 0 {
        var ok := Extend(p, q.sz + n);
        if !ok {
          return Refused;
        }
      } else if n < 0 && q.sz + n >= 0 {
        Reduce(p, q.sz + n);
      } else {
        ResizeSame(vm.S(), q, world[p]);
        assert world[p := world[p]] == world && procs[p := q] == procs;
      }
      out := Done(PageUp(NewSize(q.sz, n)));
    }

    method Extend(p: nat, sz: nat) returns (ok: bool)
      requires Valid() && p in procs && sz > procs[p].sz
      modifies this, vm, vm.k
      ensures Valid() && vm.held == old(vm.held) && p in old(world)
      ensures !ok ==> procs == old(procs) && world == old(world)
      ensures !ok ==> LittleMemory(old(vm.k.freelist), old(procs)[p].sz, sz - old(procs)[p].sz)
      ensures ok ==> procs == old(procs)[p := old(procs)[p].(sz := sz)]
                     && world == old(world)[p := Resize(old(world)[p], PageUp(sz))]
      ensures ok ==> |old(vm.k.freelist)| <= |vm.k.freelist| + 3 * (PageUp(sz) - PageUp(old(procs)[p].sz))
    {
      hide Ok, Matches, AllInjective, Injective, See, Lookup, Extended, Restored, PageUp, Dense, Shows;
      ghost var m := vm.S();
      var q := procs[p];
      Facts(p);
      var r, done := Uvmalloc(vm, q.root, q.sz, sz, true, false);
      if r == 0 {
        RestoredMatches(m, vm.S(), procs, world);
        RestoredInjective(m, vm.S());
        return false;
      }
      ExtendedMatches(m, vm.S(), procs, world, p, sz);
      ExtendedInjective(m, vm.S(), q.root, PageUp(q.sz), PageUp(sz) - PageUp(q.sz));
      procs := procs[p := q.(sz := sz)];
      world := world[p := Resize(world[p], PageUp(sz))];
      ok := true;
    }

    method Reduce(p: nat, sz: nat)
      requires Valid() && p in procs && sz < procs[p].sz
      modifies this, vm, vm.k
      ensures Valid() && vm.held == old(vm.held) && p in old(world)
      ensures procs == old(procs)[p := old(procs)[p].(sz := sz)]
      ensures world == old(world)[p := Resize(old(world)[p], PageUp(sz))]
    {
      hide Ok, Matches, AllInjective, Injective, See, Lookup, Unmapped, PageUp, Shows;
      ghost var m := vm.S();
      var q := procs[p];
      Facts(p);
      DenseLookup(m, q.root, PageUp(q.sz));
      var _ := Uvmdealloc(vm, q.root, q.sz, sz);
      UnmappedMatches(m, vm.S(), procs, world, p, sz);
      UnmappedInjective(m, vm.S(), q.root, PageUp(sz), PageUp(q.sz) - PageUp(sz));
      procs := procs[p := q.(sz := sz)];
      world := world[p := Resize(world[p], PageUp(sz))];
    }

    /** Any one operation: the copy-on-write machine does what the eager machine does, with the outcome
        the state calls for; `lost` are the references lost, one in a fork() refused by uvmcopy(). */
    method Do(op: Op) returns (out: Outcome, ghost lost: seq<nat>)
      requires Valid()
      modifies this, vm, vm.k
      ensures Valid() && Follows(old(Now()), op, out, Now())
      ensures |lost| == (if Leaks(old(Now()), op) then 1 else 0) && vm.held == PlusAll(old(vm.held), lost)
      ensures forall f :: f in lost ==> f in old(vm.held)
    {
      hide Ok, Matches, AllInjective, Step, Fair, Sizes, Leaks, PlusAll, Follows, Sized;
      NowSized();
      if op.Create? || op.Fork? || op.Exit? {
        out, lost := DoProcess(op);
      } else {
        lost := [];
        out := DoMemory(op);
      }
      FollowsIntro(old(Now()), op, out, Now());
    }

    /** Operations that make or unmake a process */
    method DoProcess(op: Op) returns (out: Outcome, ghost lost: seq<nat>)
      requires Valid() && (op.Create? || op.Fork? || op.Exit?)
      modifies this, vm, vm.k
      ensures Valid() && world == Step(old(world), op, out)
      ensures Fair(old(Now()), op, out) && Now().size == Sizes(old(Now()).size, op, out)
      ensures |lost| == (if Leaks(old(Now()), op) then 1 else 0) && vm.held == PlusAll(old(vm.held), lost)
      ensures forall f :: f in lost ==> f in old(vm.held)
    {
      hide Ok, Matches, AllInjective, Step, PageUp, TablesFor, PageFrame, OnlyRoot, Created, PlusAll;
      lost := [];
      PlusOne(vm.held, 0);
      match op
      case Create(p) => out := Create(p);
      case Fork(p, c) =>
        ghost var leak;
        out, leak := Fork(p, c);
        if Leaks(old(Now()), op) { lost := [leak]; }
        PlusOne(old(vm.held), leak);
      case Exit(p) => out := Exit(p);
    }

    /** Operations on the memory of one process */
    method DoMemory(op: Op) returns (out: Outcome)
      requires Valid() && (op.Store? || op.Copyout? || op.Sbrk?)
      modifies this, vm, vm.k
      ensures Valid() && world == Step(old(world), op, out)
      ensures Fair(old(Now()), op, out) && Now().size == Sizes(old(Now()).size, op, out)
      ensures !Leaks(old(Now()), op) && vm.held == PlusAll(old(vm.held), [])
    {
      hide Ok, Matches, AllInjective, Step, PageUp, PageOf, Eager.Load, PlusAll;
      PlusOne(vm.held, 0);
      KeysMatch(vm.S(), procs, world);
      match op
      case Store(p, va, b) => out := Store(p, va, b);
      case Copyout(p, va, src) => out := Copyout(p, va, src);
      case Sbrk(p, n) => out := Sbrk(p, n);
    }

    /** Copy-on-write refines eager copy over every run: each operation has the outcome its state calls
        for, and as many references are lost as fork()s were refused by uvmcopy(). */
    method Run(ops: seq<Op>) returns (outs: seq<Outcome>, ghost snaps: seq<Snap>, ghost lost: seq<nat>)
      requires Valid()
      modifies this, vm, vm.k
      ensures |outs| == |ops| && Valid() && world == Eager.Run(old(world), ops, outs)
      ensures Story(snaps, ops, outs) && snaps[0] == old(Now()) && snaps[|ops|] == Now()
      ensures vm.held == PlusAll(old(vm.held), lost) && |lost| == CountLeaks(snaps, ops, |ops|)
    {
      hide Ok, Matches, AllInjective, Step, Follows, Leaks, Story, PlusAll, CountLeaks;
      outs, snaps, lost := [], [Now()], [];
      StoryStarts(Now(), ops);
      PlusOne(vm.held, 0);
      while |outs| < |ops|
        invariant |outs| <= |ops| && |snaps| == |outs| + 1 && Valid() && Story(snaps, ops, outs)
        invariant snaps[0] == old(Now()) && snaps[|outs|] == Now()
        invariant vm.held == PlusAll(old(vm.held), lost) && |lost| == CountLeaks(snaps, ops, |outs|)
      {
        ghost var before := lost;
        var out, gone := Do(ops[|outs|]);
        PlusMore(old(vm.held), before, gone);
        StoryMore(snaps, ops, outs, out, Now());
        outs, snaps, lost := outs + [out], snaps + [Now()], lost + gone;
      }
      StoryRuns(snaps, ops, outs, |ops|);
      assert ops[..|ops|] == ops && outs[..|ops|] == outs;
    }
  }

  lemma StoryStarts(a: Snap, ops: seq<Op>)
    ensures Story([a], ops, []) && CountLeaks([a], ops, 0) == 0
  {
  }

  lemma PlusOne(h: map<nat, nat>, f: nat)
    ensures PlusAll(h, []) == h && PlusAll(h, [f]) == Plus(h, f)
  {
    assert [f][..0] == [];
  }

  lemma PlusMore(h: map<nat, nat>, a: seq<nat>, b: seq<nat>)
    requires |b| <= 1
    ensures PlusAll(PlusAll(h, a), b) == PlusAll(h, a + b)
  {
    if b == [] {
      assert a + b == a;
    } else {
      assert (a + b)[..|a|] == a && b[..0] == [];
    }
  }

  lemma SizeInRange(m: Mem, q: Proc, s: Space)
    requires Shows(m, q, s)
    ensures PageUp(q.sz) <= MAXVPN
  {
  }

  /** The frame uvmcopy() leaks is one of the parent's before the fork(). */
  lemma LeakFacts(m0: Mem, m1: Mem, g: nat, root: nat, n: nat, leak: nat)
    requires Ok(m0) && Created(m0, m1, g) && IsRoot(m0, root) && n <= MAXVPN
    requires exists v :: 0 <= v < n && Lookup(m1.table, root, v).Some? && leak == Lookup(m1.table, root, v).value.ppn
    ensures PageFrame(m0, root, n, leak) && leak in m0.held
  {
    hide Ok;
    var v :| 0 <= v < n && Lookup(m1.table, root, v).Some? && leak == Lookup(m1.table, root, v).value.ppn;
    SeeSome(m0, root, v);
  }

  lemma WeakenedMatches(m: Mem, m': Mem, procs: map<nat, Proc>, w: World)
    requires Matches(m, procs, w) && F.Weakened(m, m')
    ensures Matches(m', procs, w)
  {
    hide Matches, See, Lookup;
    MatchesSame(m, m', procs, w);
  }

  lemma RestoredMatches(m: Mem, m': Mem, procs: map<nat, Proc>, w: World)
    requires Matches(m, procs, w) && Restored(m, m')
    ensures Matches(m', procs, w) && |m'.role| == |m.role| && m'.held == m.held
  {
    hide Matches, See, Lookup;
    MatchesSame(m, m', procs, w);
  }

  lemma DestroyedRoles(m: Mem, m': Mem, root: nat)
    requires Destroyed(m, m', root)
    ensures |m'.role| == |m.role| && m'.held == m.held
  {
  }

  lemma ResizeSame(m: Mem, q: Proc, s: Space)
    requires Shows(m, q, s)
    ensures Resize(s, PageUp(q.sz)) == s
  {
  }

  lemma ExtendedMatches(m: Mem, m': Mem, procs: map<nat, Proc>, w: World, p: nat, sz: nat)
    requires Matches(m, procs, w) && p in procs && procs[p].sz <= sz && PageUp(procs[p].sz) <= PageUp(sz) <= MAXVPN
    requires Extended(m, m', procs[p].root, PageUp(procs[p].sz), PageUp(sz) - PageUp(procs[p].sz))
    ensures p in w && Matches(m', procs[p := procs[p].(sz := sz)], w[p := Resize(w[p], PageUp(sz))])
    ensures |m'.role| == |m.role| && m'.held == m.held
  {
    hide See, Lookup, PageUp, Resize;
    ExtendedShows(m, m', procs[p], w[p], sz);
    MatchesOne(m, m', procs, w, p, procs[p].(sz := sz), Resize(w[p], PageUp(sz)));
  }

  lemma UnmappedMatches(m: Mem, m': Mem, procs: map<nat, Proc>, w: World, p: nat, sz: nat)
    requires Ok(m) && Ok(m') && Matches(m, procs, w) && p in procs && sz < procs[p].sz
             && PageUp(sz) <= PageUp(procs[p].sz)
    requires Unmapped(m, m', procs[p].root, PageUp(sz), PageUp(procs[p].sz) - PageUp(sz))
    ensures p in w && Matches(m', procs[p := procs[p].(sz := sz)], w[p := Resize(w[p], PageUp(sz))])
    ensures |m'.role| == |m.role|
  {
    hide Ok, See, Lookup, PageUp, Resize;
    UnmappedShows(m, m', procs[p], w[p], sz);
    UnmappedSees(m, m', procs[p].root, PageUp(sz), PageUp(procs[p].sz) - PageUp(sz));
    MatchesOne(m, m', procs, w, p, procs[p].(sz := sz), Resize(w[p], PageUp(sz)));
  }

  lemma LoadIs(m: Mem, q: Proc, w: World, p: nat, va: nat, b: byte)
    requires p in w && Shows(m, q, w[p]) && ReadsAt(m, q.root, va, b) && Eager.Load(w, p, va).Some?
    ensures Eager.Load(w, p, va) == Some(b)
  {
  }

  /** Too few free frames for `n` more bytes: a page and its table pages take at most three. */
  predicate LittleMemory(free: seq<nat>, sz: nat, n: int)
    requires sz + n >= 0
  {
    |free| <= 3 * (PageUp(sz + n) - PageUp(sz))
  }

  lemma KeysMatch(m: Mem, procs: map<nat, Proc>, w: World)
    requires Matches(m, procs, w)
    ensures procs.Keys == w.Keys
  {
  }

  lemma WeakenedRoles(m: Mem, m': Mem)
    requires F.Weakened(m, m')
    ensures |m'.role| == |m.role|
  {
  }

  lemma EmptySpace()
    ensures PageUp(0) == 0
  {
  }

  lemma DistinctRoots(m: Mem, procs: map<nat, Proc>, w: World, p: nat, c: nat)
    requires Matches(m, procs, w) && p in procs && c in procs && p != c
    ensures procs[p].root != procs[c].root
  {
  }

  lemma SharedRoles(m: Mem, m': Mem, from: nat, to: nat, n: nat)
    requires F.Shared(m, m', from, to, n)
    ensures |m'.role| == |m.role| && m'.held == m.held
  {
  }

  lemma CreatedRoles(m: Mem, m': Mem, g: nat)
    requires Created(m, m', g)
    ensures |m'.role| == |m.role|
  {
  }

  lemma WrittenMatches(m: Mem, m': Mem, procs: map<nat, Proc>, w: World, p: nat, dst: nat, src: seq<byte>)
    requires Matches(m, procs, w) && p in procs && Written(m, m', procs[p].root, dst, src)
    ensures p in w && Matches(m', procs, w[p := Write(w[p], dst, src)])
  {
    hide See, WriteInto, Write;
    WrittenShows(m, m', procs[p], w[p], dst, src);
    MatchesOne(m, m', procs, w, p, procs[p], Write(w[p], dst, src));
    assert procs[p := procs[p]] == procs;
  }

  lemma WriteNone(w: World, p: nat, dst: nat)
    requires p in w
    ensures w[p := Write(w[p], dst, [])] == w
  {
    forall v | 0 <= v < |w[p]| ensures Write(w[p], dst, [])[v] == w[p][v] {
      assert WriteInto(w[p][v].bytes, v * PGSIZE, dst, []) == w[p][v].bytes;
    }
    assert Write(w[p], dst, []) == w[p];
  }

  /** User mode may touch exactly what an eager load delivers. */
  lemma UserPageLoads(m: Mem, q: Proc, w: World, p: nat, va: nat)
    requires Ok(m) && p in w && Shows(m, q, w[p])
    ensures UserPage(m, q.root, PageOf(va)) <==> Eager.Load(w, p, va).Some?
  {
    hide Ok;
    var v := PageOf(va);
    if v < MAXVPN {
      assert See(m, q.root, v) == if v < |w[p]| then Some(w[p][v]) else None;
      if Lookup(m.table, q.root, v).Some? { SeeSome(m, q.root, v); }
    }
  }

  lemma TouchableLoads(m: Mem, q: Proc, w: World, p: nat, va: nat, n: nat)
    requires Ok(m) && p in w && Shows(m, q, w[p]) && Touchable(m, q.root, va, n)
    ensures forall y :: va <= y < va + n ==> Eager.Load(w, p, y).Some?
  {
    hide Ok, Shows, Eager.Load, UserPage, PageOf;
    forall y | va <= y < va + n ensures Eager.Load(w, p, y).Some? {
      assert UserAt(m, q.root, y);
      UserPageLoads(m, q, w, p, y);
    }
  }

  // ----- conservation, and where it fails -----

  /** With no process left, the free list holds every frame but those with a lost reference. */
  lemma AllReturned(m: Mem, w: World, f: nat)
    requires Ok(m) && Matches(m, map[], w) && f in m.role && f in m.held
    ensures f in m.free <==> m.held[f] == 0
  {
    forall g | g in m.role && m.role[g].Node? ensures IsRoot(m, m.role[g].root) { TableOf(m, g); }
    OkCount(m, f);
    forall s ensures s !in Slots(m.table, m.role, f) { SlotMember(m.table, m.role, f, s); }
    assert Slots(m.table, m.role, f) == {};
  }

  /** A machine of ten frames in which process 0 has one page */
  method SmallMachine() returns (m: Machine)
    ensures fresh(m) && fresh(m.vm) && fresh(m.vm.k) && m.Valid() && m.procs.Keys == {0} && m.procs[0].sz == PGSIZE
    ensures |m.vm.k.freelist| >= 1 && forall g :: g in m.vm.held ==> m.vm.held[g] == 0
  {
    hide Ok, Matches, AllInjective, Step, Resized, OnlyRoot, Created;
    var k := new Kmem(1, 11);
    var mmu := new Mmu(k);
    FramesBelow(mmu.S(), 11);
    m := new Machine(mmu);
    var out := m.Create(0);
    out := m.Sbrk(0, PGSIZE);
  }

  /** There, other processes use up all frames but one, and fork() of process 0 is refused by uvmcopy().
      The frame of its page then has a reference that no page table accounts for. */
  method LeakingFork() returns (m: Machine, ghost f: nat)
    ensures fresh(m) && m.Valid() && f in m.vm.held && m.vm.held[f] == 1
            && m.vm.k.refcnt[f] > |Slots(m.vm.table, m.vm.role, f)|
  {
    hide Ok, Matches, AllInjective, Step, OnlyRoot, Created, PageFrame;
    m := SmallMachine();
    var i := 1;
    while |m.vm.k.freelist| > 1
      invariant m.Valid() && 0 in m.procs && m.procs[0].sz == PGSIZE && (forall p :: p in m.procs ==> p < i)
      invariant |m.vm.k.freelist| >= 1 && forall g :: g in m.vm.held ==> m.vm.held[g] == 0
      invariant fresh(m) && fresh(m.vm) && fresh(m.vm.k)
      decreases |m.vm.k.freelist|
    {
      var out := m.Create(i);
      i := i + 1;
    }
    var out;
    out, f := m.Fork(0, i);
    LeakCounted(m.vm.S(), f);
  }

  lemma FramesBelow(m: Mem, n: nat)
    requires Ok(m) && forall f :: f in m.refcnt ==> f < n
    ensures |m.role| <= n
  {
    Below(m.role.Keys, n);
  }

  lemma LeakCounted(m: Mem, f: nat)
    requires Ok(m) && f in m.held && m.held[f] > 0
    ensures f in m.refcnt && m.refcnt[f] > |Slots(m.table, m.role, f)|
  {
    if !m.role[f].Node? { OkCount(m, f); }
  }
}
