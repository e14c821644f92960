/** The buffer cache under the log of kernel/log.c.  log_write() pins a block when it enters the log
    and only then; a block written again in the same transaction is absorbed.  install_trans() unpins
    each block once.  Runs of both together are runs of the cache alone, and the pins are the log. */
module BioLog {
  import opened Common
  import opened Blocks
  import opened BioSpec
  import opened Bio
  import R = BioRun

  /** `lh` are the blocks in the log header, `pending` those that install_trans() has not yet unpinned. */
  datatype Logged = Logged(c: State, lh: set<Key>, pending: set<Key>, committing: bool)

  /** One pin for a block of the log, none for any other; and a block of the log is in a buffer. */
  ghost predicate PinsAre(c: State, pending: set<Key>) {
    && Shape(c)
    && (forall i :: 0 <= i < |c.buf| ==> c.pins[i] == if c.buf[i].key in pending then 1 else 0)
    && (forall k :: k in pending ==> k.dev != 0 && exists i :: 0 <= i < |c.buf| && c.buf[i].key == k)
  }

  ghost predicate LogInv(s: Logged) {
    && Inv(s.c) && PinsAre(s.c, s.pending) && s.pending <= s.lh && (!s.committing ==> s.pending == s.lh)
  }

  /** A step of the cache other than pinning, a log_write(), or a step of commit(). */
  datatype Event = Cache(e: R.Event) | Write(i: nat) | Begun | Install(i: nat) | Ended

  /** LogSpace.dfy shows that no log_write() falls into a commit(). */
  ghost predicate Enabled(s: Logged, v: Event) {
    && Shape(s.c)
    && match v
       case Cache(e) => R.Enabled(s.c, e) && !e.Pinned? && !e.Absorbed? && !e.Unpinned?
       case Write(i) => !s.committing && i < |s.c.buf| && s.c.buf[i].valid && s.c.buf[i].owner.Some?
       case Begun => !s.committing
       case Install(i) => s.committing && i < |s.c.buf| && s.c.buf[i].key in s.pending && Clean(s.c, i)
       case Ended => s.committing && s.pending == {}
  }

  /** The block was just written home. */
  ghost predicate Clean(c: State, i: nat)
    requires i < |c.buf|
  {
    c.buf[i].key in c.disk && c.disk[c.buf[i].key] == c.buf[i].data
  }

  /** What the step is for the cache, if anything. */
  ghost function CacheStep(s: Logged, v: Event): Option<R.Event>
    requires Enabled(s, v)
  {
    match v
    case Cache(e) => Some(e)
    case Write(i) => if s.c.buf[i].key in s.lh then Some(R.Absorbed(i)) else Some(R.Pinned(i))
    case Begun => None
    case Install(i) => Some(R.Unpinned(i))
    case Ended => None
  }

  ghost predicate Moves(s: Logged, v: Event, s': Logged) {
    && Enabled(s, v)
    && (var e := CacheStep(s, v);
        if e.None? then s'.c == s.c else R.Moves(s.c, e.value, s'.c))
    && match v
       case Cache(_) => s' == s.(c := s'.c)
       case Write(i) =>
         var k := s.c.buf[i].key;
         s' == s.(c := s'.c, lh := s.lh + {k}, pending := s.pending + {k})
       case Begun => s' == s.(committing := true)
       case Install(i) => s' == s.(c := s'.c, pending := s.pending - {s.c.buf[i].key})
       case Ended => s' == s.(lh := {}, committing := false)
  }

  ghost predicate IsRun(ss: seq<Logged>, vs: seq<Event>) {
    |ss| == |vs| + 1 && forall m :: 0 <= m < |vs| ==> Moves(ss[m], vs[m], ss[m + 1])
  }

  /** log_write() and bunpin() find the pins as they expect them: a block of the log is pinned, so it
      may be absorbed, and so it may be unpinned; a block new in the log is not. */
  lemma PinsReady(s: Logged, v: Event)
    requires LogInv(s) && Enabled(s, v) && (v.Write? || v.Install?)
    ensures s.c.pins[v.i] == if s.c.buf[v.i].key in s.pending then 1 else 0
    ensures v.Install? ==> s.c.buf[v.i].refcnt > 0
    ensures var e := CacheStep(s, v); e.Some? && R.Enabled(s.c, e.value)
  {
    assert BufOk(s.c, v.i);
  }

  lemma CacheKeepsPins(c: State, e: R.Event, c': State, pending: set<Key>)
    requires Inv(c) && PinsAre(c, pending) && R.Moves(c, e, c') && !e.Pinned? && !e.Unpinned?
    ensures PinsAre(c', pending)
  {
    hide Inv;
    R.StepKeeps(c, e, c');
    R.ShapeOf(c');
    if e.Recycled? { Unpinned(c, e.i); }
    SamePins(c, e, c');
    forall k | k in pending ensures exists i :: 0 <= i < |c'.buf| && c'.buf[i].key == k {
      var i :| 0 <= i < |c.buf| && c.buf[i].key == k;
      assert c'.buf[i].key == k;
    }
  }

  /** A buffer that may be recycled has no pin. */
  lemma Unpinned(c: State, i: nat)
    requires Inv(c) && i < |c.buf| && c.buf[i].refcnt == 0
    ensures Shape(c) && c.pins[i] == 0
  {
    assert BufOk(c, i);
  }

  /** No other step changes a pin or a key; a recycled buffer gets a key no buffer had. */
  lemma SamePins(c: State, e: R.Event, c': State)
    requires R.Moves(c, e, c') && !e.Pinned? && !e.Unpinned? && Shape(c')
    ensures |c'.buf| == |c.buf| && c'.pins == c.pins
    ensures forall i :: 0 <= i < |c.buf| && !(e.Recycled? && i == e.i) ==> c'.buf[i].key == c.buf[i].key
    ensures e.Recycled? ==> c'.buf[e.i].key == e.k && forall i :: 0 <= i < |c.buf| ==> c.buf[i].key != e.k
  {
  }

  lemma PinKeeps(c: State, i: nat, pending: set<Key>)
    requires Inv(c) && PinsAre(c, pending) && i < |c.buf| && c.buf[i].valid && c.buf[i].key !in pending
    ensures PinsAre(Pin(c, i), pending + {c.buf[i].key})
  {
    assert BufOk(c, i);
    var c', k0 := Pin(c, i), c.buf[i].key;
    forall j | 0 <= j < |c'.buf| ensures c'.pins[j] == if c'.buf[j].key in pending + {k0} then 1 else 0 {
      if j != i { assert Different(c, i, j); }
    }
    assert c'.buf[i].key == k0;
    forall k | k in pending ensures exists j :: 0 <= j < |c'.buf| && c'.buf[j].key == k {
      var j :| 0 <= j < |c.buf| && c.buf[j].key == k;
      assert c'.buf[j].key == k;
    }
  }

  lemma UnpinKeeps(c: State, i: nat, pending: set<Key>)
    requires Inv(c) && PinsAre(c, pending) && i < |c.buf| && c.buf[i].key in pending && c.buf[i].refcnt > 0
    ensures PinsAre(Unpin(c, i), pending - {c.buf[i].key})
  {
    assert BufOk(c, i);
    var c', k0 := Unpin(c, i), c.buf[i].key;
    forall j | 0 <= j < |c'.buf| ensures c'.pins[j] == if c'.buf[j].key in pending - {k0} then 1 else 0 {
      if j != i { assert Different(c, i, j); }
    }
    forall k | k in pending ensures exists j :: 0 <= j < |c'.buf| && c'.buf[j].key == k {
      var j :| 0 <= j < |c.buf| && c.buf[j].key == k;
      assert c'.buf[j].key == k;
    }
  }

  lemma StepKeeps(s: Logged, v: Event, s': Logged)
    requires LogInv(s) && Moves(s, v, s')
    ensures LogInv(s')
  {
    hide Inv, PinsAre;
    match v {
      case Cache(e) =>
        R.StepKeeps(s.c, e, s'.c);
        CacheKeepsPins(s.c, e, s'.c, s.pending);
      case Write(i) =>
        PinsReady(s, v);
        R.StepKeeps(s.c, CacheStep(s, v).value, s'.c);
        if s.c.buf[i].key in s.lh {
          assert s.pending + {s.c.buf[i].key} == s.pending;
          CacheKeepsPins(s.c, R.Absorbed(i), s'.c, s.pending);
        } else {
          PinKeeps(s.c, i, s.pending);
        }
      case Install(i) =>
        PinsReady(s, v);
        R.StepKeeps(s.c, CacheStep(s, v).value, s'.c);
        UnpinKeeps(s.c, i, s.pending);
      case Begun =>
      case Ended =>
    }
  }

  /** Over every run of cache and log, the pinned buffers are exactly those of blocks in the log that
      are not yet home, with one pin each; and every block shows its last stored value. */
  lemma {:induction false} RunKeeps(ss: seq<Logged>, vs: seq<Event>, m: nat)
    requires IsRun(ss, vs) && LogInv(ss[0]) && m <= |vs|
    ensures LogInv(ss[m])
    ensures forall k :: k in ss[m].c.disk ==> Shown(ss[m].c, k) == ss[m].c.logical[k]
  {
    if m > 0 {
      RunKeeps(ss, vs, m - 1);
      assert Moves(ss[m - 1], vs[m - 1], ss[m]);
      StepKeeps(ss[m - 1], vs[m - 1], ss[m]);
    }
    forall k | k in ss[m].c.disk ensures Shown(ss[m].c, k) == ss[m].c.logical[k] {
      ShownIsLogical(ss[m].c, k);
    }
  }

  /** When a commit() ends nothing is pinned, and apart from blocks being changed at that moment the
      disk has the last value stored in every block. */
  lemma CommittedIsOnDisk(ss: seq<Logged>, vs: seq<Event>, m: nat, k: Key)
    requires IsRun(ss, vs) && LogInv(ss[0]) && m < |vs| && vs[m] == Ended
    ensures ss[m + 1].lh == {} && PinsAre(ss[m + 1].c, {})
    ensures var c := ss[m + 1].c;
            k in c.disk && (forall i :: 0 <= i < |c.buf| && c.buf[i].key == k ==> !c.dirty[i]) ==>
                c.disk[k] == c.logical[k]
  {
    RunKeeps(ss, vs, m + 1);
    assert Moves(ss[m], vs[m], ss[m + 1]);
    var c := ss[m + 1].c;
    if k in c.disk && Cached(c, k) {
      var i :| 0 <= i < |c.buf| && c.buf[i].valid && c.buf[i].key == k;
      assert BufOk(c, i);
    }
  }

  /** log_write(): the search for the block in the header, and bpin() if it is not there. */
  method LogWrite(c: Bcache, t: nat, i: nat, lh: seq<Key>) returns (lh': seq<Key>)
    requires c.Valid() && i < c.n && c.buf[i].owner == Some(t) && c.buf[i].valid
    requires PinsAre(c.S(), set k | k in lh)
    modifies c
    ensures c.Valid() && i < |c.buf| && PinsAre(c.S(), set k | k in lh')
    ensures lh' == if c.buf[i].key in lh then lh else lh + [c.buf[i].key]
    ensures Shape(old(c.S())) && i < |old(c.buf)|
    ensures c.S() == if old(c.buf)[i].key in lh then Absorb(old(c.S()), i) else Pin(old(c.S()), i)
  {
    hide Inv, RingOk, PinsAre;
    InvShape(c.S());
    var j := 0;
    while j < |lh| && lh[j] != c.buf[i].key
      invariant 0 <= j <= |lh| && c.buf[i].key !in lh[..j]
      modifies {}
    {
      j := j + 1;
    }
    ghost var k := c.buf[i].key;
    if j == |lh| {
      PinKeeps(c.S(), i, set k | k in lh);
      c.Bpin(t, i);
      lh' := lh + [c.buf[i].key];
      assert (set k | k in lh') == (set k | k in lh) + {k};
    } else {
      AbsorbKeeps(c.S(), i, set k | k in lh);
      c.Absorb(t, i);
      lh' := lh;
    }
  }

  lemma AbsorbKeeps(c: State, i: nat, pending: set<Key>)
    requires Inv(c) && PinsAre(c, pending) && i < |c.buf| && c.buf[i].key in pending
    ensures c.pins[i] > 0 && PinsAre(Absorb(c, i), pending)
  {
    var c' := Absorb(c, i);
    forall k | k in pending ensures exists j :: 0 <= j < |c'.buf| && c'.buf[j].key == k {
      var j :| 0 <= j < |c.buf| && c.buf[j].key == k;
      assert c'.buf[j].key == k;
    }
  }
}
