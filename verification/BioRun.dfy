/** Whole runs of the buffer cache: any number of processes, in any order of their steps. */
module BioRun {
  import opened Common
  import opened Blocks
  import opened BioSpec

  datatype Event =
    | Found(i: nat, t: nat)
    | Recycled(i: nat, t: nat, k: Key)
    | Locked(i: nat, t: nat)
    | Read(i: nat)
    | Stored(i: nat, d: Block)
    | Wrote(i: nat)
    | Pinned(i: nat)
    | Absorbed(i: nat)
    | Unpinned(i: nat)
    | Unlocked(i: nat)
    | Released(i: nat, t: nat)

  /** What kernel/bio.c and its callers check or guarantee before each step. */
  ghost predicate Enabled(s: State, e: Event) {
    && Shape(s) && e.i < |s.buf|
    && match e
       case Found(i, t) => t !in s.users[i]
       case Recycled(i, t, k) => s.buf[i].refcnt == 0 && k in s.disk && forall j :: 0 <= j < |s.buf| ==>
           s.buf[j].key != k
       case Locked(i, t) => t in s.users[i] && s.buf[i].owner == None
       case Read(i) => !s.buf[i].valid && s.buf[i].key in s.disk
       case Stored(i, d) => s.buf[i].valid && s.buf[i].owner.Some?
       case Wrote(i) => s.buf[i].valid
       case Pinned(i) => s.buf[i].valid
       case Absorbed(i) => s.pins[i] > 0 && s.buf[i].owner.Some?
       case Unpinned(i) =>
         s.pins[i] > 0 && s.buf[i].refcnt > 0 && s.buf[i].key in s.disk && s.disk[s.buf[i].key] == s.buf[i].data
       case Unlocked(i) => !s.dirty[i]
       case Released(i, t) => t in s.users[i] && s.buf[i].refcnt > 0 && s.buf[i].owner != Some(t)
  }

  ghost function After(s: State, e: Event): State
    requires Enabled(s, e)
  {
    match e
    case Found(i, t) => Hit(s, i, t)
    case Recycled(i, t, k) => Recycle(s, i, t, k)
    case Locked(i, t) => Lock(s, i, t)
    case Read(i) => Fill(s, i)
    case Stored(i, d) => Change(s, i, d)
    case Wrote(i) => Flush(s, i)
    case Pinned(i) => Pin(s, i)
    case Absorbed(i) => Absorb(s, i)
    case Unpinned(i) => Unpin(s, i)
    case Unlocked(i) => Unlock(s, i)
    case Released(i, t) => Unref(s, i, t)
  }

  ghost predicate Moves(s: State, e: Event, s': State) {
    Enabled(s, e) && s' == After(s, e)
  }

  ghost predicate IsRun(ss: seq<State>, es: seq<Event>) {
    |ss| == |es| + 1 && forall m :: 0 <= m < |es| ==> Moves(ss[m], es[m], ss[m + 1])
  }

  /** The value most recently stored in block `k` by the first `m` steps, from the events alone. */
  ghost function LastStored(ss: seq<State>, es: seq<Event>, k: Key, m: nat, initial: Block): Block
    requires m <= |es| && |ss| == |es| + 1
  {
    if m == 0 then initial
    else if es[m - 1].Stored? && es[m - 1].i < |ss[m - 1].buf| && ss[m - 1].buf[es[m - 1].i].key == k then es[m - 1].d
    else LastStored(ss, es, k, m - 1, initial)
  }

  lemma StepKeeps(s: State, e: Event, s': State)
    requires Inv(s) && Moves(s, e, s')
    ensures Inv(s')
    ensures forall k :: k in s.disk ==> k in s'.disk
    ensures forall k :: k in s.disk ==>
              k in s.logical && k in s'.logical
              && s'.logical[k] == if e.Stored? && e.i < |s.buf| && s.buf[e.i].key == k then e.d else s.logical[k]
  {
    hide Inv;
    match e
    case Found(i, t) => HitOk(s, i, t);
    case Recycled(i, t, k) => RecycleOk(s, i, t, k);
    case Locked(i, t) => LockOk(s, i, t);
    case Read(i) => FillOk(s, i);
    case Stored(i, d) => ChangeOk(s, i, d);
    case Wrote(i) => FlushOk(s, i);
    case Pinned(i) => PinOk(s, i);
    case Absorbed(i) => AbsorbOk(s, i);
    case Unpinned(i) => UnpinOk(s, i);
    case Unlocked(i) => UnlockOk(s, i);
    case Released(i, t) => UnrefOk(s, i, t);
    ShapeOf(s);
    ShapeOf(s');
  }

  lemma ShapeOf(s: State)
    requires Inv(s)
    ensures Shape(s)
  {
  }

  /** Over every run the cache together with the disk shows each block's last stored value. */
  lemma {:induction false} RunRefinesMap(ss: seq<State>, es: seq<Event>, k: Key, m: nat)
    requires IsRun(ss, es) && Inv(ss[0]) && k in ss[0].disk && m <= |es|
    ensures Inv(ss[m]) && k in ss[m].disk
    ensures ss[m].logical[k] == LastStored(ss, es, k, m, ss[0].logical[k]) == Shown(ss[m], k)
  {
    hide Moves, Shown;
    if m > 0 {
      RunRefinesMap(ss, es, k, m - 1);
      assert Moves(ss[m - 1], es[m - 1], ss[m]);
      StepKeeps(ss[m - 1], es[m - 1], ss[m]);
    }
    ShownIsLogical(ss[m], k);
  }

  /** Any valid buffer a process sees, at any time, holds the last value stored in its block, and
      no other buffer holds that block. */
  lemma RunReadsLast(ss: seq<State>, es: seq<Event>, m: nat, i: nat)
    requires IsRun(ss, es) && Inv(ss[0]) && m <= |es| && i < |ss[m].buf| && ss[m].buf[i].valid
             && ss[m].buf[i].key in ss[0].disk
    ensures var b := ss[m].buf[i]; b.data == LastStored(ss, es, b.key, m, ss[0].logical[b.key])
    ensures forall j :: 0 <= j < |ss[m].buf| && j != i ==> ss[m].buf[j].key != ss[m].buf[i].key
  {
    RunRefinesMap(ss, es, ss[m].buf[i].key, m);
    assert BufOk(ss[m], i);
    forall j | 0 <= j < |ss[m].buf| && j != i ensures ss[m].buf[j].key != ss[m].buf[i].key {
      assert Different(ss[m], i, j);
    }
  }

  lemma PinKept(s: State, e: Event, s': State, i: nat)
    requires Inv(s) && Inv(s') && Moves(s, e, s') && e != Unpinned(i) && i < |s.buf| && i < |s.pins| && s.pins[i] > 0
    ensures i < |s'.buf| && i < |s'.pins| && s'.pins[i] > 0 && s'.buf[i].key == s.buf[i].key
    ensures s'.buf[i].valid && s'.buf[i].refcnt > 0
  {
    assert BufOk(s, i);
    assert BufOk(s', i);
  }

  /** A block pinned by the log stays in its buffer, with its value, until it is unpinned. */
  lemma {:induction false} PinnedSurvives(ss: seq<State>, es: seq<Event>, lo: nat, m: nat, i: nat)
    requires IsRun(ss, es) && Inv(ss[0]) && lo <= m <= |es| && i < |ss[lo].buf|
    requires i < |ss[lo].pins| && ss[lo].pins[i] > 0
    requires forall j :: lo <= j < m ==> es[j] != Unpinned(i)
    ensures i < |ss[m].buf| && i < |ss[m].pins| && ss[m].pins[i] > 0
    ensures ss[m].buf[i].valid && ss[m].buf[i].key == ss[lo].buf[i].key && ss[m].buf[i].refcnt > 0
  {
    hide Moves, Inv;
    InvAt(ss, es, lo);
    if m > lo {
      PinnedSurvives(ss, es, lo, m - 1, i);
      assert Moves(ss[m - 1], es[m - 1], ss[m]);
      InvAt(ss, es, m - 1);
      InvAt(ss, es, m);
      PinKept(ss[m - 1], es[m - 1], ss[m], i);
    } else {
      PinnedNow(ss[lo], i);
    }
  }

  lemma PinnedNow(s: State, i: nat)
    requires Inv(s) && i < |s.buf| && i < |s.pins| && s.pins[i] > 0
    ensures s.buf[i].valid && s.buf[i].refcnt > 0
  {
    assert BufOk(s, i);
  }

  lemma {:induction false} InvAt(ss: seq<State>, es: seq<Event>, m: nat)
    requires IsRun(ss, es) && Inv(ss[0]) && m <= |es|
    ensures Inv(ss[m])
  {
    if m > 0 {
      InvAt(ss, es, m - 1);
      assert Moves(ss[m - 1], es[m - 1], ss[m]);
      StepKeeps(ss[m - 1], es[m - 1], ss[m]);
    }
  }
}
