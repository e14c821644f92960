/** Log space (kernel/log.c:125-142 and 214-235): begin_op() admits an operation only if every
    operation in progress can still log MAXOPBLOCKS blocks.  Operations run in process slots and
    interleave freely; a locked section is one step.  The last operation out commits without holding
    log.lock, so other processes may run in that window. */
module LogSpace {
  import opened Common

  /** In: the blocks this operation has logged so far.  Commit: in commit(), before or after it has
      emptied log.lh. */
  datatype Slot = Out | In(logged: set<nat>) | Commit(erased: bool)

  /** `blocks` is the content of log.lh; `ops` has one slot per process. */
  datatype State = State(blocks: set<nat>, ops: seq<Slot>, committing: bool)

  /** Erase and Done are commit()'s emptying of log.lh and the end of end_op(). */
  datatype Event = Begin(t: nat) | Write(t: nat, b: nat) | End(t: nat) | Erase(t: nat) | Done(t: nat)

  datatype Result = Sleep | Panic | Next(s: State)

  function Outstanding(ops: seq<Slot>): nat {
    if ops == [] then 0 else Outstanding(ops[..|ops| - 1]) + if ops[|ops| - 1].In? then 1 else 0
  }

  /** `size` is log.size: the number of blocks of the log area, header included. */
  function Exec(size: nat, s: State, e: Event): Result
    requires e.t < |s.ops|
  {
    match e
    case Begin(t) =>
      if s.committing || |s.blocks| + (Outstanding(s.ops) + 1) * MAXOPBLOCKS > LOGSIZE then Sleep
      else Next(s.(ops := s.ops[t := In({})]))
    case Write(t, b) =>
      if |s.blocks| >= LOGSIZE || |s.blocks| + 1 >= size || Outstanding(s.ops) == 0 then Panic
      else Next(s.(blocks := s.blocks + {b}, ops := s.ops[t := In(LoggedBy(s.ops[t]) + {b})]))
    case End(t) =>
      if s.committing then Panic
      else if Outstanding(s.ops[t := Out]) == 0 then Next(s.(ops := s.ops[t := Commit(false)], committing := true))
      else Next(s.(ops := s.ops[t := Out]))
    case Erase(t) => Next(s.(blocks := {}, ops := s.ops[t := Commit(true)]))
    case Done(t) => Next(s.(ops := s.ops[t := Out], committing := false))
  }

  function LoggedBy(o: Slot): set<nat> {
    if o.In? then o.logged else {}
  }

  /** What an operation may do: calls nest properly, and it calls log_write() only while it has
      logged fewer than MAXOPBLOCKS different blocks. */
  predicate Allowed(s: State, e: Event) {
    e.t < |s.ops| &&
    match e
    case Begin(t) => s.ops[t].Out?
    case Write(t, b) => s.ops[t].In? && |s.ops[t].logged| < MAXOPBLOCKS
    case End(t) => s.ops[t].In?
    case Erase(t) => s.ops[t] == Commit(false)
    case Done(t) => s.ops[t] == Commit(true)
  }

  // ----- unspent reservations -----

  function Spare(o: Slot): nat {
    if o.In? && |o.logged| <= MAXOPBLOCKS then MAXOPBLOCKS - |o.logged| else 0
  }

  function Reserved(ops: seq<Slot>): nat {
    if ops == [] then 0 else Reserved(ops[..|ops| - 1]) + Spare(ops[|ops| - 1])
  }

  lemma {:induction false} ReservedUpdate(ops: seq<Slot>, t: nat, o: Slot)
    requires t < |ops|
    ensures Reserved(ops[t := o]) == Reserved(ops) - Spare(ops[t]) + Spare(o)
    ensures Spare(ops[t]) <= Reserved(ops)
  {
    var n := |ops| - 1;
    if t < n {
      ReservedUpdate(ops[..n], t, o);
      assert ops[t := o][..n] == ops[..n][t := o];
    } else {
      assert ops[t := o][..n] == ops[..n];
    }
  }

  lemma {:induction false} ReservedBound(ops: seq<Slot>)
    ensures Reserved(ops) <= Outstanding(ops) * MAXOPBLOCKS
  {
    if ops != [] {
      ReservedBound(ops[..|ops| - 1]);
    }
  }

  lemma {:induction false} NoneOutstanding(ops: seq<Slot>, t: nat)
    requires t < |ops| && Outstanding(ops) == 0
    ensures !ops[t].In?
  {
    if t < |ops| - 1 {
      NoneOutstanding(ops[..|ops| - 1], t);
    }
  }

  lemma {:induction false} OutstandingUpdate(ops: seq<Slot>, t: nat, o: Slot)
    requires t < |ops|
    ensures Outstanding(ops[t := o]) == Outstanding(ops) - (if ops[t].In? then 1 else 0) + (if o.In? then 1 else 0)
  {
    var n := |ops| - 1;
    if t < n {
      OutstandingUpdate(ops[..n], t, o);
      assert ops[t := o][..n] == ops[..n][t := o];
    } else {
      assert ops[t := o][..n] == ops[..n];
    }
  }

  /** Every operation in progress can still log what was reserved for it. */
  ghost predicate Fits(s: State) {
    && |s.blocks| + Reserved(s.ops) <= LOGSIZE
    && forall t :: 0 <= t < |s.ops| && s.ops[t].In? ==> |s.ops[t].logged| <= MAXOPBLOCKS && s.ops[t].logged <= s.blocks
  }

  /** log.committing is set exactly while one process is in commit(), and no operation is then in progress. */
  ghost predicate Alone(s: State) {
    && (s.committing ==> Outstanding(s.ops) == 0)
    && (s.committing <==> exists t :: 0 <= t < |s.ops| && s.ops[t].Commit?)
    && (forall t, u :: 0 <= t < u < |s.ops| ==> !(s.ops[t].Commit? && s.ops[u].Commit?))
    && (forall t :: 0 <= t < |s.ops| && s.ops[t] == Commit(true) ==> s.blocks == {})
  }

  ghost predicate Inv(s: State) { Fits(s) && Alone(s) }

  lemma CardAdd(a: set<nat>, b: nat)
    ensures |a + {b}| == |a| + if b in a then 0 else 1
  {
    if b in a { assert a + {b} == a; }
  }

  lemma BeginKeeps(size: nat, s: State, t: nat)
    requires Inv(s) && Allowed(s, Begin(t))
    ensures !Exec(size, s, Begin(t)).Panic? && (Exec(size, s, Begin(t)).Next? ==> Inv(Exec(size, s, Begin(t)).s))
  {
    ReservedBound(s.ops);
    ReservedUpdate(s.ops, t, In({}));
    hide Reserved;
  }

  /** A process that is in an operation finds log.outstanding positive and nobody committing. */
  lemma Inside(s: State, t: nat)
    requires Inv(s) && t < |s.ops| && s.ops[t].In?
    ensures Outstanding(s.ops) > 0 && !s.committing
  {
    if Outstanding(s.ops) == 0 { NoneOutstanding(s.ops, t); }
  }

  lemma WriteKeeps(size: nat, s: State, t: nat, b: nat)
    requires Inv(s) && Allowed(s, Write(t, b)) && size > LOGSIZE
    ensures Exec(size, s, Write(t, b)).Next? && Inv(Exec(size, s, Write(t, b)).s)
  {
    hide Reserved, Outstanding;
    var logged := s.ops[t].logged;
    CardAdd(logged, b);
    CardAdd(s.blocks, b);
    ReservedUpdate(s.ops, t, In(logged + {b}));
    Inside(s, t);
  }

  lemma EndKeeps(size: nat, s: State, t: nat)
    requires Inv(s) && Allowed(s, End(t))
    ensures Exec(size, s, End(t)).Next? && Inv(Exec(size, s, End(t)).s)
  {
    hide Reserved, Outstanding;
    ReservedUpdate(s.ops, t, Out);
    ReservedUpdate(s.ops, t, Commit(false));
    OutstandingUpdate(s.ops, t, Out);
    OutstandingUpdate(s.ops, t, Commit(false));
    Inside(s, t);
    assert s.ops[t := Commit(false)][t].Commit?;
  }

  lemma CommitKeeps(size: nat, s: State, e: Event)
    requires Inv(s) && Allowed(s, e) && (e.Erase? || e.Done?)
    ensures Exec(size, s, e).Next? && Inv(Exec(size, s, e).s)
  {
    hide Reserved, Outstanding;
    var o := if e.Erase? then Commit(true) else Out;
    ReservedUpdate(s.ops, e.t, o);
    OutstandingUpdate(s.ops, e.t, o);
    assert s.ops[e.t].Commit? && s.committing;
    forall u | 0 <= u < |s.ops| ensures !s.ops[u].In? { NoneOutstanding(s.ops, u); }
    assert e.Erase? ==> s.ops[e.t := Commit(true)][e.t].Commit?;
  }

  /** A permitted step keeps the reservations and, in a log of enough blocks, does not panic. */
  lemma StepKeeps(size: nat, s: State, e: Event)
    requires Inv(s) && Allowed(s, e) && size > LOGSIZE
    ensures !Exec(size, s, e).Panic? && (Exec(size, s, e).Next? ==> Inv(Exec(size, s, e).s))
  {
    hide Inv;
    match e
    case Begin(t) => BeginKeeps(size, s, t);
    case Write(t, b) => WriteKeeps(size, s, t, b);
    case End(t) => EndKeeps(size, s, t);
    case Erase(t) => CommitKeeps(size, s, e);
    case Done(t) => CommitKeeps(size, s, e);
  }

  /** A begin_op() that has to sleep changes nothing and will be tried again; a panic ends the run. */
  predicate Follows(size: nat, s: State, e: Event, s': State)
    requires e.t < |s.ops|
  {
    Exec(size, s, e) == Next(s') || (Exec(size, s, e) == Sleep && s' == s)
  }

  /** A run from an idle log: `states[i + 1]` is what `events[i]` made of `states[i]`. */
  ghost predicate IsRun(size: nat, states: seq<State>, events: seq<Event>) {
    && |states| == |events| + 1 && states[0].blocks == {} && !states[0].committing
    && (forall t :: 0 <= t < |states[0].ops| ==> states[0].ops[t].Out?)
    && forall i :: 0 <= i < |events| ==>
        Allowed(states[i], events[i]) && Follows(size, states[i], events[i], states[i + 1])
  }

  lemma {:induction false} RunKeeps(size: nat, states: seq<State>, events: seq<Event>, k: nat)
    requires IsRun(size, states, events) && k <= |events| && size > LOGSIZE
    ensures Inv(states[k])
  {
    if k == 0 {
      FullyUsed(states[0].ops);
    } else {
      RunKeeps(size, states, events, k - 1);
      StepKeeps(size, states[k - 1], events[k - 1]);
    }
  }

  /** While a process commits, no operation is in progress and none begins, nobody else commits, and
      log.lh stays what it was until commit() itself empties it. */
  lemma {:induction false} CommitUndisturbed(size: nat, states: seq<State>, events: seq<Event>, m: nat, n: nat)
    requires IsRun(size, states, events) && size > LOGSIZE && m <= n <= |events|
    requires forall k :: m <= k <= n ==> states[k].committing
    ensures Outstanding(states[n].ops) == 0
    ensures forall k {:trigger Harmless(states, events, k)} :: m <= k < n ==> Harmless(states, events, k)
    ensures (forall k :: m <= k < n ==> !events[k].Erase?) ==> states[n] == states[m]
  {
    hide Outstanding, Fits, Alone, Exec;
    RunKeeps(size, states, events, n);
    CommittingAlone(states[n]);
    if m < n {
      CommitUndisturbed(size, states, events, m, n - 1);
      RunKeeps(size, states, events, n - 1);
      OnlyCommitter(size, states[n - 1], events[n - 1]);
      assert Follows(size, states[n - 1], events[n - 1], states[n]);
      assert Harmless(states, events, n - 1);
    }
  }

  /** The committer empties log.lh, or a begin_op() goes to sleep. */
  ghost predicate Harmless(states: seq<State>, events: seq<Event>, k: nat)
    requires k < |events| && |states| == |events| + 1
  {
    events[k].Erase? || (events[k].Begin? && states[k + 1] == states[k])
  }

  lemma CommittingAlone(s: State)
    requires Inv(s) && s.committing
    ensures Outstanding(s.ops) == 0
  {
  }

  /** The only steps in the window are the committer's own. */
  lemma OnlyCommitter(size: nat, s: State, e: Event)
    requires Inv(s) && s.committing && Allowed(s, e)
    ensures e.Begin? ==> Exec(size, s, e) == Sleep
    ensures !e.Begin? ==> s.ops[e.t].Commit? && (e.Erase? || e.Done?)
    ensures e.Done? ==> Exec(size, s, e).Next? && !Exec(size, s, e).s.committing
    ensures forall u :: 0 <= u < |s.ops| && u != e.t && !e.Begin? ==> s.ops[u].Out?
  {
    hide Outstanding;
    forall u | 0 <= u < |s.ops| ensures !s.ops[u].In? { NoneOutstanding(s.ops, u); }
  }

  // ----- exactly when the log is large enough -----

  function Interval(lo: nat, hi: nat): (s: set<nat>)
    requires lo <= hi
    ensures |s| == hi - lo && forall b :: b in s <==> lo <= b < hi
    decreases hi
  {
    if lo == hi then {} else Interval(lo, hi - 1) + {hi - 1}
  }

  lemma IntervalNext(lo: nat, hi: nat)
    requires lo <= hi
    ensures Interval(lo, hi) + {hi} == Interval(lo, hi + 1)
  {
  }

  function Clamp(x: nat, lo: nat, hi: nat): nat { if x < lo then lo else if x > hi then hi else x }

  /** Three operations in slots 0, 1 and 2 that have together logged blocks 0 .. j. */
  function Filled(j: nat): State {
    State(Interval(0, j),
          [In(Interval(0, Clamp(j, 0, 10))), In(Interval(10, Clamp(j, 10, 20))), In(Interval(20, Clamp(j, 20, 30)))],
              false)
  }

  /** log_write() number j of the run is allowed, and panics exactly when the log is full. */
  lemma FillStep(size: nat, j: nat)
    requires j < LOGSIZE
    ensures var s, e := Filled(j), Write(j / 10, j);
            Allowed(s, e) && Exec(size, s, e) == if j + 1 >= size then Panic else Next(Filled(j + 1))
  {
    hide Interval, Outstanding;
    IntervalNext(0, j);
    Outstanding3(Filled(j).ops[0], Filled(j).ops[1], Filled(j).ops[2]);
    if j < 10 {
      assert j / 10 == 0;
    } else if j < 20 {
      assert j / 10 == 1;
      IntervalNext(10, j);
    } else {
      assert j / 10 == 2;
      IntervalNext(20, j);
    }
  }

  /** begin_op() by 0, 1 and 2, then `n` calls of log_write() for different blocks. */
  function FillStates(n: nat): seq<State> {
    [State({}, [Out, Out, Out], false), State({}, [In({}), Out, Out], false), State({}, [In({}), In({}), Out], false)]
      + seq(n + 1, j requires 0 <= j => Filled(j))
  }

  function FillEvents(n: nat): seq<Event> {
    [Begin(0), Begin(1), Begin(2)] + seq(n, j requires 0 <= j => Write(j / 10, j))
  }

  lemma OutstandingAdd(ops: seq<Slot>, o: Slot)
    ensures Outstanding(ops + [o]) == Outstanding(ops) + if o.In? then 1 else 0
  {
    assert (ops + [o])[..|ops|] == ops;
  }

  lemma Outstanding3(a: Slot, b: Slot, c: Slot)
    ensures Outstanding([a, b, c]) == (if a.In? then 1 else 0) + (if b.In? then 1 else 0) + (if c.In? then 1 else 0)
  {
    OutstandingAdd([], a);
    OutstandingAdd([a], b);
    OutstandingAdd([a, b], c);
    assert [] + [a] == [a] && [a] + [b] == [a, b] && [a, b] + [c] == [a, b, c];
  }

  lemma BeginThree(size: nat)
    ensures Exec(size, State({}, [Out, Out, Out], false), Begin(0)) == Next(State({}, [In({}), Out, Out], false))
    ensures Exec(size, State({}, [In({}), Out, Out], false), Begin(1)) == Next(State({}, [In({}), In({}), Out], false))
    ensures Exec(size, State({}, [In({}), In({}), Out], false), Begin(2)) == Next(Filled(0))
  {
    hide Outstanding;
    Outstanding3(Out, Out, Out);
    Outstanding3(In({}), Out, Out);
    Outstanding3(In({}), In({}), Out);
  }

  lemma FillIsRun(size: nat, n: nat)
    requires n <= LOGSIZE && n < size
    ensures IsRun(size, FillStates(n), FillEvents(n))
  {
    hide Filled, Exec, Outstanding;
    var states, events := FillStates(n), FillEvents(n);
    Outstanding3(Out, Out, Out);
    BeginThree(size);
    forall i | 0 <= i < |events|
      ensures Allowed(states[i], events[i]) && Follows(size, states[i], events[i], states[i + 1])
    {
      if i >= 3 {
        FillStep(size, i - 3);
      }
    }
  }

  /** "too big a transaction" is out of reach of every permitted run exactly when log.size, the
      header included, exceeds LOGSIZE. */
  lemma LogLargeEnough(size: nat)
    requires size > 0
    ensures size > LOGSIZE <==>
            forall states, events, e :: IsRun(size, states, events) && Allowed(states[|events|], e) ==>
              !Exec(size, states[|events|], e).Panic?
  {
    if size > LOGSIZE {
      forall states, events, e | IsRun(size, states, events) && Allowed(states[|events|], e)
        ensures !Exec(size, states[|events|], e).Panic?
      {
        RunKeeps(size, states, events, |events|);
        StepKeeps(size, states[|events|], e);
      }
    } else {
      var n := size - 1;
      FillIsRun(size, n);
      FillStep(size, n);
      var states, events := FillStates(n), FillEvents(n);
      assert states[|events|] == Filled(n);
      assert Exec(size, states[|events|], Write(n / 10, n)).Panic?;
    }
  }

  /** mkfs sets nlog = LOGSIZE, one block short. */
  lemma MkfsLogTooSmall()
    ensures exists states, events, e :: IsRun(LOGSIZE, states, events) && Allowed(states[|events|], e)
              && Exec(LOGSIZE, states[|events|], e).Panic?
  {
    LogLargeEnough(LOGSIZE);
  }

  lemma {:induction false} FullyUsed(ops: seq<Slot>)
    requires forall t :: 0 <= t < |ops| ==> Spare(ops[t]) == 0
    ensures Reserved(ops) == 0
  {
    if ops != [] {
      FullyUsed(ops[..|ops| - 1]);
    }
  }

  /** MAXOPBLOCKS different blocks per operation is not by itself enough: in a full log even a
      call for a block already logged panics, whatever the size of the log. */
  lemma RelogPanics(size: nat) returns (states: seq<State>, events: seq<Event>)
    requires size > LOGSIZE
    ensures IsRun(size, states, events) && |states[|events|].ops| == 3
    ensures var s := states[|events|];
            && s.ops[2].In? && 29 in s.ops[2].logged && |s.ops[2].logged| == MAXOPBLOCKS
            && Exec(size, s, Write(2, 29)) == Panic
  {
    hide Outstanding, Interval;
    states, events := FillStates(LOGSIZE), FillEvents(LOGSIZE);
    FillIsRun(size, LOGSIZE);
    assert states[|events|] == Filled(LOGSIZE);
  }
}
