/** Address spaces under an eager fork(): the specification that copy-on-write refines. */
module Eager {
  import opened Common
  import opened Sv39
  import opened Frames
  import opened AddressSpace
  import opened UserCopy

  type Space = seq<View>
  type World = map<nat, Space>

  /** `src` written at address `dst`; bytes outside the space are dropped. */
  function Write(s: Space, dst: nat, src: seq<byte>): Space {
    seq(|s|, v requires 0 <= v < |s| => s[v].(bytes := WriteInto(s[v].bytes, v * PGSIZE, dst, src)))
  }

  function Zeros(n: nat): Space { seq(n, _ => View(Fill(0), true)) }

  /** Grow or shrink to `n` pages. */
  function Resize(s: Space, n: nat): Space {
    if n <= |s| then s[..n] else s + Zeros(n - |s|)
  }

  /** What a load instruction delivers: nothing when the page is absent or not for user mode. */
  function Load(w: World, p: nat, va: nat): Option<byte> {
    if p in w && va / PGSIZE < |w[p]| && w[p][va / PGSIZE].user
    then Some(w[p][va / PGSIZE].bytes[va % PGSIZE]) else None
  }

  datatype Op = Create(p: nat) | Fork(p: nat, child: nat) | Store(p: nat, va: nat, b: byte)
              | Copyout(p: nat, va: nat, src: seq<byte>) | Sbrk(p: nat, n: int) | Exit(p: nat)

  /** How an operation went: refused (no memory, bad address, no such process), or done;
      `count` is the number of bytes stored by Copyout and the new size in pages for Sbrk. */
  datatype Outcome = Refused | Done(count: nat)

  /** One operation of the eager machine: fork() copies every page. */
  function Step(w: World, op: Op, out: Outcome): World {
    match op
    case Create(p) => if out.Done? then w[p := []] else w
    case Fork(p, c) => if out.Done? && p in w then w[c := w[p]] else w
    case Store(p, va, b) => if out.Done? && p in w then w[p := Write(w[p], va, [b])] else w
    case Copyout(p, va, src) =>
      if out.Done? && p in w && out.count <= |src| then w[p := Write(w[p], va, src[..out.count])] else w
    case Sbrk(p, n) => if out.Done? && p in w then w[p := Resize(w[p], out.count)] else w
    case Exit(p) => if out.Done? then w - {p} else w
  }

  function Run(w: World, ops: seq<Op>, outs: seq<Outcome>): World
    requires |ops| == |outs|
  {
    if ops == [] then w else Step(Run(w, ops[..|ops| - 1], outs[..|ops| - 1]), ops[|ops| - 1], outs[|ops| - 1])
  }

  // ----- what an operation does, by loads alone -----

  /** The sizes in bytes belong to the spaces. */
  ghost predicate Sized(w: World, size: map<nat, nat>) {
    w.Keys == size.Keys && forall p :: p in w ==> |w[p]| == PageUp(size[p])
  }

  /** What every load of every process delivers after an operation, and the sizes in bytes. */
  ghost predicate Effect(w: World, size: map<nat, nat>, op: Op, out: Outcome, w': World, size': map<nat, nat>) {
    if out.Refused? then w' == w && size' == size
    else
      match op
      case Create(p) =>
        size' == size[p := 0] && forall q: nat, x: nat :: Load(w', q, x) == if q == p then None else Load(w, q, x)
      case Fork(p, c) =>
        && p in size && size' == size[c := size[p]]
        && forall q: nat, x: nat :: Load(w', q, x) == if q == c then Load(w, p, x) else Load(w, q, x)
      case Store(p, va, b) =>
        && size' == size && Load(w, p, va).Some?
        && forall q: nat, x: nat :: Load(w', q, x) == if q == p && x == va then Some(b) else Load(w, q, x)
      case Copyout(p, va, src) =>
        size' == size && out.count <= |src| && Stored(w, p, va, src[..out.count], w')
      case Sbrk(p, n) =>
        && p in size
        && if size[p] + n < 0 then w' == w && size' == size
           else size' == size[p := size[p] + n] && Resized(w, p, size[p], size[p] + n, w')
      case Exit(p) =>
        && p in size && size' == size - {p}
        && forall q: nat, x: nat :: Load(w', q, x) == if q == p then None else Load(w, q, x)
  }

  /** Process `p` finds `src` from `va` on; nothing else is different for anybody. */
  ghost predicate Stored(w: World, p: nat, va: nat, src: seq<byte>, w': World) {
    forall q: nat, x: nat ::
      Load(w', q, x) == if q == p && va <= x < va + |src| then Some(src[x - va]) else Load(w, q, x)
  }

  /** Process `p` goes from `sz` to sz' bytes: what it keeps is as it was, what is new is zero. */
  ghost predicate Resized(w: World, p: nat, sz: nat, sz': nat, w': World) {
    forall q: nat, x: nat :: Load(w', q, x) ==
      if q != p || x < Lower(sz, sz') then Load(w, q, x) else if x < PageUp(sz') * PGSIZE then Some(0) else None
  }

  /** Where the smaller of two spaces ends */
  function Lower(sz: nat, sz': nat): nat { PageUp(if sz < sz' then sz else sz') * PGSIZE }

  lemma LoadAt(w: World, p: nat, s: Space, q: nat, x: nat)
    ensures Load(w[p := s], q, x) ==
              if q != p then Load(w, q, x)
              else if x / PGSIZE < |s| && s[x / PGSIZE].user then Some(s[x / PGSIZE].bytes[x % PGSIZE]) else None
  {
  }

  lemma WriteLoads(w: World, p: nat, va: nat, src: seq<byte>, q: nat, x: nat)
    requires p in w && forall y :: va <= y < va + |src| ==> Load(w, p, y).Some?
    ensures Load(w[p := Write(w[p], va, src)], q, x) ==
              if q == p && va <= x < va + |src| then Some(src[x - va]) else Load(w, q, x)
  {
    LoadAt(w, p, Write(w[p], va, src), q, x);
    assert x == x / PGSIZE * PGSIZE + x % PGSIZE;
    if va <= x < va + |src| { assert Load(w, p, x).Some?; }
  }

  lemma WriteStores(w: World, p: nat, va: nat, src: seq<byte>)
    requires p in w && forall y :: va <= y < va + |src| ==> Load(w, p, y).Some?
    ensures Stored(w, p, va, src, w[p := Write(w[p], va, src)])
  {
    hide Write, Load;
    var w' := w[p := Write(w[p], va, src)];
    forall q: nat, x: nat
      ensures Load(w', q, x) == if q == p && va <= x < va + |src| then Some(src[x - va]) else Load(w, q, x)
    {
      WriteLoads(w, p, va, src, q, x);
    }
  }

  lemma ResizeLoads(w: World, p: nat, sz: nat, sz': nat)
    requires p in w && |w[p]| == PageUp(sz)
    ensures Resized(w, p, sz, sz', w[p := Resize(w[p], PageUp(sz'))])
  {
    PageOrder(sz, sz');
    var w' := w[p := Resize(w[p], PageUp(sz'))];
    forall q: nat, x: nat ensures Load(w', q, x) ==
      if q != p || x < Lower(sz, sz') then Load(w, q, x) else if x < PageUp(sz') * PGSIZE then Some(0) else None
    {
      LoadAt(w, p, Resize(w[p], PageUp(sz')), q, x);
      PageBound(x, PageUp(sz));
      PageBound(x, PageUp(sz'));
    }
  }

  lemma PageBound(x: nat, n: nat)
    ensures x < n * PGSIZE <==> x / PGSIZE < n
  {
    assert x == x / PGSIZE * PGSIZE + x % PGSIZE;
  }

  lemma PageOrder(a: nat, b: nat)
    ensures a <= b ==> PageUp(a) <= PageUp(b)
    ensures b <= a ==> PageUp(b) <= PageUp(a)
  {
  }

  /** The conditions under which the machine says Done */
  ghost predicate Sound(w: World, size: map<nat, nat>, op: Op, out: Outcome) {
    out.Done? ==>
      match op
      case Create(p) => true
      case Fork(p, c) => p in size
      case Store(p, va, _) => Load(w, p, va).Some?
      case Copyout(p, va, src) =>
        p in size && out.count <= |src| && forall y :: va <= y < va + out.count ==> Load(w, p, y).Some?
      case Sbrk(p, n) => p in size && out.count == PageUp(if size[p] + n >= 0 then size[p] + n else size[p])
      case Exit(p) => p in size
  }

  /** One operation of the eager machine does to loads just that. */
  lemma StepEffect(w: World, size: map<nat, nat>, op: Op, out: Outcome, w': World, size': map<nat, nat>)
    requires Sized(w, size) && Sound(w, size, op, out) && w' == Step(w, op, out) && (out.Refused? ==> size' == size)
    requires out.Done? ==>
               match op
               case Create(p) => size' == size[p := 0]
               case Fork(p, c) => size' == size[c := size[p]]
               case Store(_, _, _) => size' == size
               case Copyout(_, _, _) => size' == size
               case Sbrk(p, n) => size' == if size[p] + n >= 0 then size[p := size[p] + n] else size
               case Exit(p) => size' == size - {p}
    ensures Effect(w, size, op, out, w', size')
  {
    hide Write, Resize, PageUp, Load, Resized, Stored;
    if out.Done? {
      match op
      case Create(p) =>
        forall q: nat, x: nat ensures Load(w', q, x) == if q == p then None else Load(w, q, x) {
          LoadAt(w, p, [], q, x);
        }
      case Fork(p, c) =>
        forall q: nat, x: nat ensures Load(w', q, x) == if q == c then Load(w, p, x) else Load(w, q, x) {
          LoadCopy(w, p, c, q, x);
        }
      case Store(p, va, b) => StoreEffect(w, p, va, b);
      case Copyout(p, va, src) => WriteStores(w, p, va, src[..out.count]);
      case Sbrk(p, n) =>
        if size[p] + n < 0 { ResizeNone(w[p]); } else { ResizeLoads(w, p, size[p], size[p] + n); }
      case Exit(p) =>
        forall q: nat, x: nat ensures Load(w', q, x) == if q == p then None else Load(w, q, x) {
          LoadGone(w, p, q, x);
        }
    }
  }

  lemma LoadCopy(w: World, p: nat, c: nat, q: nat, x: nat)
    requires p in w
    ensures Load(w[c := w[p]], q, x) == if q == c then Load(w, p, x) else Load(w, q, x)
  {
  }

  lemma LoadGone(w: World, p: nat, q: nat, x: nat)
    ensures Load(w - {p}, q, x) == if q == p then None else Load(w, q, x)
  {
  }

  lemma StoreEffect(w: World, p: nat, va: nat, b: byte)
    requires Load(w, p, va).Some?
    ensures p in w
    ensures forall q: nat, x: nat ::
              Load(w[p := Write(w[p], va, [b])], q, x) == if q == p && x == va then Some(b) else Load(w, q, x)
  {
    hide Write;
    forall q: nat, x: nat
      ensures Load(w[p := Write(w[p], va, [b])], q, x) == if q == p && x == va then Some(b) else Load(w, q, x)
    {
      WriteLoads(w, p, va, [b], q, x);
    }
  }

  lemma LoadAbsent(w: World, p: nat, x: nat)
    requires p !in w
    ensures Load(w, p, x) == None
  {
  }

  lemma ResizeLength(s: Space, n: nat)
    ensures |Resize(s, n)| == n
  {
  }

  lemma ResizeNone(s: Space)
    ensures Resize(s, |s|) == s
  {
  }
}
