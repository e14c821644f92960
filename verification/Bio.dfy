/** kernel/bio.c in place: the buffer array, its LRU ring, and the operations on them. */
module Bio {
  import opened Common
  import opened Blocks
  import opened BioSpec
  import opened Ring

  /** Every buffer is on the ring, the head is index n. */
  ghost predicate RingOk(n: nat, next: seq<nat>, prev: seq<nat>, walk: seq<nat>) {
    && |next| == n + 1 && |prev| == n + 1 && |walk| == n + 2 && Walk(next, prev, walk) && walk[0] == n
    && (forall k :: 0 < k <= n ==> walk[k] < n)
    && (forall i :: 0 <= i < n ==> i in walk)
  }

  lemma RingStep(n: nat, next: seq<nat>, prev: seq<nat>, walk: seq<nat>, k: nat)
    requires RingOk(n, next, prev, walk) && k <= n
    ensures |next| == n + 1 && |prev| == n + 1 && |walk| == n + 2
    ensures walk[k] <= n && walk[k + 1] <= n && next[walk[k]] == walk[k + 1] && prev[walk[k + 1]] == walk[k]
    ensures (k > 0 ==> walk[k] != n) && (k < n ==> walk[k + 1] != n)
  {
    assert Link(next, prev, walk, k);
  }

  /** Moving a buffer to the front of the ring, as brelse() does. */
  lemma MoveToFront(n: nat, next: seq<nat>, prev: seq<nat>, walk: seq<nat>, b: nat, k: nat)
    requires RingOk(n, next, prev, walk) && 0 < k <= n && walk[k] == b
    ensures |next| == n + 1 && |prev| == n + 1 && b < n && next[b] <= n && prev[b] <= n && next[b] != b && prev[b] != b
    ensures var next1, prev1 := next[prev[b] := next[b]], prev[next[b] := prev[b]];
            && next1[n] <= n
            && RingOk(n, next1[b := next1[n]][n := b], prev1[b := n][next1[n] := b], PushedFront(Removed(walk, k), b))
  {
    hide Simple;
    Unlink(next, prev, walk, k);
    var next1, prev1, w1 := next[prev[b] := next[b]], prev[next[b] := prev[b]], Removed(walk, k);
    RemovedOne(walk, k, b);
    PushFront(next1, prev1, w1, b);
    var w2 := PushedFront(w1, b);
    assert next1[n] == w1[1];
    assert w2[|w2| - 1] == walk[|walk| - 1];
    forall j | 0 < j <= n ensures w2[j] < n {
      if j >= 2 { assert w2[j] == w1[j - 1]; }
    }
    forall i | 0 <= i < n ensures i in w2 {
      if i == b {
        assert w2[1] == b;
      } else {
        assert i in walk;
        var j :| 0 <= j < |walk| && walk[j] == i;
        var j1 := if j < k then j else j - 1;
        assert w1[j1] == i;
        assert w2[if j1 == 0 then 0 else j1 + 1] == i;
      }
    }
  }

  lemma RemovedOne(w: seq<nat>, k: nat, b: nat)
    requires Simple(w) && 1 <= k < |w| - 1 && w[k] == b
    ensures b !in Removed(w, k) && |Removed(w, k)| == |w| - 1 && Removed(w, k)[0] == w[0]
  {
    var w' := Removed(w, k);
    forall i | 0 <= i < |w'| ensures w'[i] != b {
      Apart(w, if i < k then i else i + 1, k);
    }
  }

  /** Buffers in ring order between positions `lo` and `hi` do not hold block `k`. */
  ghost predicate Absent(buf: seq<Buf>, walk: seq<nat>, lo: nat, hi: nat, k: Key) {
    forall j :: lo <= j < hi && j < |walk| && walk[j] < |buf| ==> buf[walk[j]].key != k
  }

  /** Buffers in ring order between positions `lo` and `hi` are all in use. */
  ghost predicate InUse(buf: seq<Buf>, walk: seq<nat>, lo: nat, hi: nat) {
    forall j :: lo <= j < hi && j < |walk| && walk[j] < |buf| ==> buf[walk[j]].refcnt > 0
  }

  lemma AllAbsent(n: nat, next: seq<nat>, prev: seq<nat>, buf: seq<Buf>, walk: seq<nat>, k: Key)
    requires RingOk(n, next, prev, walk) && |buf| == n && Absent(buf, walk, 1, n + 1, k)
    ensures forall i :: 0 <= i < n ==> buf[i].key != k
  {
    hide Walk;
    RingEnds(n, next, prev, walk);
    forall i | 0 <= i < n ensures buf[i].key != k {
      assert i in walk;
    }
  }

  lemma AllInUse(n: nat, next: seq<nat>, prev: seq<nat>, buf: seq<Buf>, walk: seq<nat>)
    requires RingOk(n, next, prev, walk) && |buf| == n && InUse(buf, walk, 1, n + 1)
    ensures forall i :: 0 <= i < n ==> buf[i].refcnt > 0
  {
    hide Walk;
    RingEnds(n, next, prev, walk);
    forall i | 0 <= i < n ensures buf[i].refcnt > 0 {
      assert i in walk;
    }
  }

  /** The ring is in order of time: `stamp` says when brelse() last left each buffer unused. */
  ghost predicate Recency(n: nat, walk: seq<nat>, stamp: seq<nat>, clock: nat) {
    && |stamp| == n && |walk| == n + 2 && (forall i :: 0 <= i < n ==> stamp[i] < clock)
    && (forall k :: 0 < k <= n ==> walk[k] < n)
    && (forall j, k :: 0 < j < k <= n ==> stamp[walk[k]] <= stamp[walk[j]])
  }

  /** No unused buffer was given up longer ago than `i`. */
  ghost predicate Oldest(buf: seq<Buf>, stamp: seq<nat>, i: nat) {
    && |stamp| == |buf| && i < |buf| && buf[i].refcnt == 0
    && forall j :: 0 <= j < |buf| && buf[j].refcnt == 0 ==> stamp[i] <= stamp[j]
  }

  /** The first unused buffer from the end of the ring is the one given up longest ago. */
  lemma OldestHere(n: nat, next: seq<nat>, prev: seq<nat>, walk: seq<nat>, buf: seq<Buf>, stamp: seq<nat>, clock: nat,
                   p: nat)
    requires RingOk(n, next, prev, walk) && Recency(n, walk, stamp, clock) && |buf| == n && 0 < p <= n
    requires InUse(buf, walk, p + 1, n + 1) && buf[walk[p]].refcnt == 0
    ensures Oldest(buf, stamp, walk[p])
  {
    hide Walk;
    RingEnds(n, next, prev, walk);
    forall j | 0 <= j < n && buf[j].refcnt == 0 ensures stamp[walk[p]] <= stamp[j] {
      var q := Position(n, next, prev, walk, j);
      assert q <= p;
    }
  }

  /** A buffer given up now comes first. */
  lemma RecencyMoved(n: nat, next: seq<nat>, prev: seq<nat>, walk: seq<nat>, stamp: seq<nat>, clock: nat, i: nat,
                     p: nat)
    requires RingOk(n, next, prev, walk) && Recency(n, walk, stamp, clock) && 0 < p <= n && walk[p] == i < n
    ensures Recency(n, PushedFront(Removed(walk, p), i), stamp[i := clock], clock + 1)
  {
    var w, stamp' := PushedFront(Removed(walk, p), i), stamp[i := clock];
    forall k | 2 <= k <= n ensures w[k] == walk[if k <= p then k - 1 else k] != i {
      Apart(walk, if k <= p then k - 1 else k, p);
    }
    forall j, k | 0 < j < k <= n ensures stamp'[w[k]] <= stamp'[w[j]] {
      assert w[k] == walk[if k <= p then k - 1 else k] != i;
      if j >= 2 { assert w[j] == walk[if j <= p then j - 1 else j] != i; }
    }
  }

  lemma RecencySize(n: nat, walk: seq<nat>, stamp: seq<nat>, clock: nat)
    requires Recency(n, walk, stamp, clock)
    ensures |stamp| == n && Recency(n, walk, stamp, clock + 1)
  {
  }

  lemma RingEnds(n: nat, next: seq<nat>, prev: seq<nat>, walk: seq<nat>)
    requires RingOk(n, next, prev, walk)
    ensures |next| == n + 1 && |prev| == n + 1 && |walk| == n + 2 && walk[0] == n && walk[n + 1] == n
  {
  }

  class Bcache {
    const n: nat
    var buf: seq<Buf>
    var next: seq<nat>
    var prev: seq<nat>
    var disk: Store
    ghost var walk: seq<nat>
    ghost var stamp: seq<nat>
    ghost var clock: nat
    ghost var users: seq<set<nat>>
    ghost var pins: seq<nat>
    ghost var dirty: seq<bool>
    ghost var logical: Store

    ghost function S(): State
      reads this
    {
      State(buf, users, pins, dirty, disk, logical)
    }

    ghost predicate Valid()
      reads this
    {
      |buf| == n && Inv(S()) && RingOk(n, next, prev, walk) && Recency(n, walk, stamp, clock)
    }

    /** binit(): all buffers on the ring, none valid; buffer 0 was inserted first. */
    constructor (nbuf: nat, d: Store, content: seq<Block>)
      requires |content| == nbuf && forall k :: k in d ==> k.dev != 0
      ensures Valid() && n == nbuf && disk == d && logical == d
      ensures forall i :: 0 <= i < n ==> buf[i] == Buf(Key(0, 0), false, 0, content[i], None)
      ensures forall k :: 0 < k <= n ==> walk[k] == n - k
    {
      n, disk, logical := nbuf, d, d;
      buf := seq(nbuf, i requires 0 <= i < nbuf => Buf(Key(0, 0), false, 0, content[i], None));
      users, pins, dirty := seq(nbuf, _ => {}), seq(nbuf, _ => 0), seq(nbuf, _ => false);
      next, prev := seq(nbuf + 1, _ => nbuf), seq(nbuf + 1, _ => nbuf);
      walk, stamp, clock := [nbuf, nbuf], seq(nbuf, _ => 0), 1;
      new;
      FreshState(S());
      EmptyRing(n, next, prev);
      var b := 0;
      while b < n
        invariant 0 <= b <= n && Partial(n, next, prev, walk, b)
        invariant S() == State(buf, users, pins, dirty, d, d) && |buf| == n && Inv(S())
        invariant |stamp| == n && clock == 1 && forall i :: 0 <= i < n ==> stamp[i] == 0
        invariant forall i :: 0 <= i < n ==> buf[i] == Buf(Key(0, 0), false, 0, content[i], None)
      {
        Insert(b);
        b := b + 1;
      }
      PartialAll(n, next, prev, walk);
    }

    /** One round of the loop in binit() */
    method Insert(b: nat)
      requires b < n && Partial(n, next, prev, walk, b)
      modifies this`next, this`prev, this`walk
      ensures Partial(n, next, prev, walk, b + 1)
    {
      hide Walk;
      PartialPush(n, next, prev, walk, b);
      next := next[b := next[n]];
      prev := prev[b := n];
      prev := prev[next[n] := b];
      next := next[n := b];
      walk := PushedFront(walk, b);
    }

    /** bget() under bcache.lock; false stands for panic("bget: no buffers"). */
    method Bget(t: nat, k: Key) returns (found: bool, i: nat)
      requires Valid() && k in disk && forall j :: 0 <= j < n && buf[j].key == k ==> t !in users[j]
      modifies this`buf, this`users
      ensures Valid()
      ensures found <==> exists j :: 0 <= j < n && (old(buf)[j].key == k || old(buf)[j].refcnt == 0)
      ensures !found ==> S() == old(S())
      ensures found ==>
                i < n && buf[i].key == k && (IsHit(old(S()), S(), i, t) || IsRecycle(old(S()), S(), walk, i, t, k))
      ensures found && old(buf)[i].key != k ==> Oldest(old(buf), stamp, i)
    {
      hide Inv, RingOk, Recency, Oldest;
      InvShape(S());
      RingEnds(n, next, prev, walk);
      RingStep(n, next, prev, walk, 0);
      var b := next[n];
      ghost var p := 1;
      while b != n && buf[b].key != k
        invariant 1 <= p <= n + 1 && |walk| == n + 2 && b == walk[p] <= n && Absent(buf, walk, 1, p, k)
        invariant b == n ==> p == n + 1
        modifies {}
        decreases n + 1 - p
      {
        RingStep(n, next, prev, walk, p);
        b := next[b];
        p := p + 1;
      }
      if b != n {
        HitOk(S(), b, t);
        buf := buf[b := buf[b].(refcnt := buf[b].refcnt + 1)];
        users := users[b := users[b] + {t}];
        assert S() == Hit(old(S()), b, t);
        return true, b;
      }
      AllAbsent(n, next, prev, buf, walk, k);
      found, i := RecycleLru(t, k);
    }

    /** The second loop of bget(): from the least recently used end, the first unused buffer. */
    method RecycleLru(t: nat, k: Key) returns (found: bool, i: nat)
      requires Valid() && k in disk && forall j :: 0 <= j < n ==> buf[j].key != k
      modifies this`buf, this`users
      ensures Valid()
      ensures found <==> exists j :: 0 <= j < n && old(buf)[j].refcnt == 0
      ensures !found ==> S() == old(S())
      ensures found ==> i < n && buf[i].key == k && IsRecycle(old(S()), S(), walk, i, t, k)
      ensures found ==> Oldest(old(buf), stamp, i)
    {
      hide Inv, RingOk, Recency, Oldest;
      InvShape(S());
      RingEnds(n, next, prev, walk);
      RingStep(n, next, prev, walk, n);
      var b := prev[n];
      ghost var p := n;
      while b != n && buf[b].refcnt != 0
        invariant 0 <= p <= n && |walk| == n + 2 && b == walk[p] <= n && InUse(buf, walk, p + 1, n + 1)
        invariant b == n ==> p == 0
        modifies {}
        decreases p
      {
        RingStep(n, next, prev, walk, p - 1);
        b := prev[b];
        p := p - 1;
      }
      if b == n {
        AllInUse(n, next, prev, buf, walk);
        return false, 0;
      }
      RecycleOk(S(), b, t, k);
      OldestHere(n, next, prev, walk, buf, stamp, clock, p);
      buf := buf[b := buf[b].(key := k, valid := false, refcnt := 1)];
      users := users[b := {t}];
      assert S() == Recycle(old(S()), b, t, k);
      assert InUse(old(buf), walk, p + 1, n + 1) && walk[p] == b;
      return true, b;
    }

    /** acquiresleep(&b->lock), once the lock is free */
    method Acquire(t: nat, i: nat)
      requires Valid() && i < n && t in users[i] && buf[i].owner == None
      modifies this`buf
      ensures Valid() && S() == Lock(old(S()), i, t)
    {
      hide Inv, RingOk;
      InvShape(S());
      LockOk(S(), i, t);
      buf := buf[i := buf[i].(owner := Some(t))];
    }

    /** The rest of bread(): the buffer now holds the last value stored in its block. */
    method ReadIn(t: nat, i: nat)
      requires Valid() && i < n && buf[i].owner == Some(t) && buf[i].key in disk
      modifies this`buf
      ensures Valid() && S() == (if old(buf)[i].valid then old(S()) else Fill(old(S()), i))
      ensures buf[i].valid && buf[i].data == logical[buf[i].key]
    {
      hide RingOk;
      assert BufOk(S(), i);
      if !buf[i].valid {
        FillOk(S(), i);
        buf := buf[i := buf[i].(data := disk[buf[i].key], valid := true)];
        assert S() == Fill(old(S()), i);
      }
    }

    /** The lock holder stores into b->data. */
    method Modify(t: nat, i: nat, d: Block)
      requires Valid() && i < n && buf[i].owner == Some(t) && buf[i].valid
      modifies this`buf, this`dirty, this`logical
      ensures Valid() && S() == Change(old(S()), i, d)
    {
      hide Inv, RingOk;
      InvShape(S());
      ChangeOk(S(), i, d);
      buf := buf[i := buf[i].(data := d)];
      dirty := dirty[i := true];
      logical := logical[buf[i].key := d];
    }

    method Bwrite(t: nat, i: nat)
      requires Valid() && i < n && buf[i].owner == Some(t) && buf[i].valid
      modifies this`disk, this`dirty
      ensures Valid() && S() == Flush(old(S()), i)
    {
      hide Inv, RingOk;
      InvShape(S());
      FlushOk(S(), i);
      disk := disk[buf[i].key := buf[i].data];
      dirty := dirty[i := false];
    }

    method Bpin(t: nat, i: nat)
      requires Valid() && i < n && buf[i].owner == Some(t) && buf[i].valid
      modifies this`buf, this`pins, this`dirty
      ensures Valid() && S() == Pin(old(S()), i)
    {
      hide Inv, RingOk;
      InvShape(S());
      PinOk(S(), i);
      buf := buf[i := buf[i].(refcnt := buf[i].refcnt + 1)];
      pins := pins[i := pins[i] + 1];
      dirty := dirty[i := false];
    }

    /** log_write() of a block that is in the log: no second bpin(), the first covers the new data. */
    ghost method Absorb(t: nat, i: nat)
      requires Valid() && i < n && buf[i].owner == Some(t) && pins[i] > 0
      modifies this`dirty
      ensures Valid() && S() == BioSpec.Absorb(old(S()), i)
    {
      hide Inv, RingOk;
      InvShape(S());
      AbsorbOk(S(), i);
      dirty := dirty[i := false];
    }

    /** bunpin(), after install_trans() has written the block home */
    method Bunpin(i: nat)
      requires Valid() && i < n && pins[i] > 0 && buf[i].key in disk && disk[buf[i].key] == buf[i].data
      modifies this`buf, this`pins
      ensures old(buf)[i].refcnt > 0 && Valid() && S() == Unpin(old(S()), i)
    {
      hide Inv, RingOk;
      InvShape(S());
      UnpinOk(S(), i);
      buf := buf[i := buf[i].(refcnt := buf[i].refcnt - 1)];
      pins := pins[i := pins[i] - 1];
    }

    /** brelse() up to releasesleep(); the caller must have logged or written what it changed. */
    method Release(t: nat, i: nat)
      requires Valid() && i < n && buf[i].owner == Some(t) && !dirty[i]
      modifies this`buf
      ensures Valid() && S() == Unlock(old(S()), i)
    {
      hide Inv, RingOk;
      InvShape(S());
      UnlockOk(S(), i);
      buf := buf[i := buf[i].(owner := None)];
    }

    /** brelse() under bcache.lock: a buffer nobody uses becomes the most recently used one. */
    method Brelse(t: nat, i: nat)
      requires Valid() && i < n && t in users[i] && buf[i].owner != Some(t)
      modifies this`buf, this`users, this`next, this`prev, this`walk, this`stamp, this`clock
      ensures old(buf)[i].refcnt > 0 && Valid() && S() == Unref(old(S()), i, t)
      ensures if buf[i].refcnt > 0 then walk == old(walk)
              else exists p ::
                0 < p <= n && p < |old(walk)| && old(walk)[p] == i && walk == PushedFront(Removed(old(walk), p), i)
      ensures clock == old(clock) + 1 && |old(stamp)| == n
      ensures stamp == if buf[i].refcnt > 0 then old(stamp) else old(stamp)[i := old(clock)]
    {
      hide Inv, RingOk, Recency;
      InvShape(S());
      RecencySize(n, walk, stamp, clock);
      UnrefOk(S(), i, t);
      buf := buf[i := buf[i].(refcnt := buf[i].refcnt - 1)];
      users := users[i := users[i] - {t}];
      if buf[i].refcnt == 0 {
        ToFront(i);
      }
      clock := clock + 1;
    }

    /** The assignments of brelse() that take the buffer out of the ring and put it behind the head. */
    method ToFront(i: nat)
      requires i < n && RingOk(n, next, prev, walk) && Recency(n, walk, stamp, clock)
      modifies this`next, this`prev, this`walk, this`stamp
      ensures RingOk(n, next, prev, walk) && Recency(n, walk, stamp, clock + 1)
      ensures |old(stamp)| == n && stamp == old(stamp)[i := clock]
      ensures exists p ::
                0 < p <= n && p < |old(walk)| && old(walk)[p] == i && walk == PushedFront(Removed(old(walk), p), i)
    {
      hide RingOk, Recency;
      RecencySize(n, walk, stamp, clock);
      ghost var p := Position(n, next, prev, walk, i);
      MoveToFront(n, next, prev, walk, i, p);
      RecencyMoved(n, next, prev, walk, stamp, clock, i, p);
      prev := prev[next[i] := prev[i]];
      next := next[prev[i] := next[i]];
      next := next[i := next[n]];
      prev := prev[i := n];
      prev := prev[next[n] := i];
      next := next[n := i];
      walk := PushedFront(Removed(walk, p), i);
      stamp := stamp[i := clock];
    }
  }

  lemma InvShape(s: State)
    requires Inv(s)
    ensures Shape(s)
  {
  }

  ghost predicate IsHit(s: State, s': State, i: nat, t: nat) {
    Shape(s) && i < |s.buf| && s' == Hit(s, i, t)
  }

  /** Buffer `i` was unused, everything less recently used is in use, and its data was on disk. */
  ghost predicate IsRecycle(s: State, s': State, walk: seq<nat>, i: nat, t: nat, k: Key) {
    && Shape(s) && i < |s.buf| && s.buf[i].refcnt == 0 && s' == Recycle(s, i, t, k)
    && (s.buf[i].valid ==> s.buf[i].key in s.disk && s.disk[s.buf[i].key] == s.buf[i].data)
    && exists p :: 0 < p < |walk| - 1 && walk[p] == i && InUse(s.buf, walk, p + 1, |walk| - 1)
  }

  lemma Position(n: nat, next: seq<nat>, prev: seq<nat>, walk: seq<nat>, i: nat) returns (p: nat)
    requires RingOk(n, next, prev, walk) && i < n
    ensures 0 < p <= n && |walk| == n + 2 && walk[p] == i
  {
    assert i in walk;
    p :| 0 <= p < |walk| && walk[p] == i;
    RingEnds(n, next, prev, walk);
  }

  lemma FreshState(s: State)
    requires |s.users| == |s.pins| == |s.dirty| == |s.buf| && s.logical == s.disk && forall k :: k in s.disk ==>
               k.dev != 0
    requires forall i :: 0 <= i < |s.buf| ==> s.users[i] == {} && s.pins[i] == 0 && !s.dirty[i]
    requires forall i :: 0 <= i < |s.buf| ==>
               s.buf[i].key.dev == 0 && !s.buf[i].valid && s.buf[i].refcnt == 0 && s.buf[i].owner == None
    ensures Inv(s)
  {
    forall i, j | 0 <= i < |s.buf| && 0 <= j < |s.buf| && i != j ensures Different(s, i, j) {
    }
  }

  // ----- binit() -----

  /** The first `b` buffers are on the ring, the last one first. */
  ghost predicate Partial(n: nat, next: seq<nat>, prev: seq<nat>, walk: seq<nat>, b: nat) {
    && b <= n && |next| == n + 1 && |prev| == n + 1 && |walk| == b + 2 && Walk(next, prev, walk) && walk[0] == n
    && forall k :: 0 < k <= b ==> walk[k] == b - k
  }

  lemma EmptyRing(n: nat, next: seq<nat>, prev: seq<nat>)
    requires |next| == n + 1 && |prev| == n + 1 && next[n] == n && prev[n] == n
    ensures Partial(n, next, prev, [n, n], 0)
  {
    forall k | 0 <= k < 1 ensures Link(next, prev, [n, n], k) {
    }
  }

  lemma PartialPush(n: nat, next: seq<nat>, prev: seq<nat>, walk: seq<nat>, b: nat)
    requires Partial(n, next, prev, walk, b) && b < n
    ensures next[n] <= n
    ensures var f := next[n]; Partial(n, next[b := f][n := b], prev[b := n][f := b], PushedFront(walk, b), b + 1)
  {
    assert b !in walk by {
      forall j | 0 <= j < |walk| ensures walk[j] != b {
      }
    }
    PushFront(next, prev, walk, b);
    var w := PushedFront(walk, b);
    forall k | 0 < k <= b + 1 ensures w[k] == b + 1 - k {
      if k > 1 { assert w[k] == walk[k - 1]; }
    }
  }

  lemma PartialAll(n: nat, next: seq<nat>, prev: seq<nat>, walk: seq<nat>)
    requires Partial(n, next, prev, walk, n)
    ensures RingOk(n, next, prev, walk)
  {
    forall i | 0 <= i < n ensures i in walk { assert walk[n - i] == i; }
  }

  // ----- what goes wrong without the client's duty -----

  /** A process releases a changed buffer it neither logged nor wrote, and the buffer is recycled:
      readers then get the old disk content, which is the last value stored exactly when the two
      happen to be equal. */
  lemma UnloggedChangeLost(s: State, i: nat, t: nat, u: nat, k: Key)
    requires Inv(s) && i < |s.buf| && s.dirty[i] && s.pins[i] == 0 && s.users[i] == {t}
    requires k in s.disk && forall j :: 0 <= j < |s.buf| ==> s.buf[j].key != k
    ensures s.buf[i].refcnt > 0 && s.buf[i].key in s.disk
    ensures var s' := Recycle(Unref(Unlock(s, i), i, t), i, u, k);
            Shown(s', s.buf[i].key) == s.logical[s.buf[i].key] <==> s.disk[s.buf[i].key] == s.buf[i].data
  {
    assert BufOk(s, i);
    var s', k0 := Recycle(Unref(Unlock(s, i), i, t), i, u, k), s.buf[i].key;
    forall j | 0 <= j < |s'.buf| ensures !(s'.buf[j].valid && s'.buf[j].key == k0) {
      if j != i { assert Different(s, i, j); }
    }
  }
}
