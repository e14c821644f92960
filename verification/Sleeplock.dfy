/** What the steps of SleepWakeup.dfy give a user of the sleeplock over whole runs: it excludes, and
    the spinlocks behind it never deadlock. */
module Sleeplock {
  import opened Common
  import opened SleepWakeup

  // ----- the sleeplock excludes -----

  /** The end of acquiresleep() by p: it finds lk->locked clear and returns. */
  ghost predicate Acquires(s: State, s': State, p: nat) {
    p < |s.pc| && p < |s'.pc| && s.pc[p] == AcqTest && s'.pc[p] == Out
  }

  /** p clears lk->locked in releasesleep(). */
  ghost predicate Clears(s: State, s': State, p: nat) {
    p < |s.pc| && p < |s'.pc| && s.pc[p] == RelClear && s'.pc[p] == Scan(0)
  }

  lemma AcquireStays(s: State, c: nat, q: nat, s': State, p: nat)
    requires Shape(s) && q < |s.st| && p < |s.st| && p != q && (AcquireStep(s, c, q, s') || SleepStep(s, c, q, s')
             || YieldStep(s, c, q, s'))
    ensures |s'.pc| == |s.pc| && s'.pc[p] == s.pc[p]
  {
  }

  lemma ReleaseStays(s: State, c: nat, q: nat, s': State, p: nat)
    requires Shape(s) && c < |s.cpu| && q < |s.st| && p < |s.st| && p != q
    requires || SwitchStep(s, c, q, s') || ReleaseStep(s, c, q, s') || ClearStep(s, q, s')
             || ScanStep(s, c, q, s') || PokeStep(s, q, s')
    ensures |s'.pc| == |s.pc| && s'.pc[p] == s.pc[p]
  {
  }

  lemma SchedulerStays(s: State, c: nat, s': State)
    requires Shape(s) && c < |s.cpu| && (SchedulerStep(s, c, s') || exists k :: 0 <= k < |s.st| && KillStep(s, k, s'))
    ensures s'.pc == s.pc
  {
  }

  /** A step moves no process but the one on the CPU. */
  lemma OthersStay(s: State, c: nat, s': State, p: nat)
    requires Step(s, c, s') && p < |s.pc| && s.cpu[c] != On(p)
    ensures |s'.pc| == |s.pc| && s'.pc[p] == s.pc[p]
  {
    hide AcquireStep, SleepStep, YieldStep, SwitchStep, ReleaseStep, ClearStep, ScanStep, PokeStep, SchedulerStep,
         KillStep;
    if s.cpu[c].On? && s.cpu[c].p < |s.st| && ProcStep(s, c, s.cpu[c].p, s') {
      var q := s.cpu[c].p;
      if AcquireStep(s, c, q, s') || SleepStep(s, c, q, s') || YieldStep(s, c, q, s') {
        AcquireStays(s, c, q, s', p);
      } else {
        ReleaseStays(s, c, q, s', p);
      }
    } else {
      SchedulerStays(s, c, s');
    }
  }

  lemma TestStep(s: State, c: nat, s': State, p: nat)
    requires Step(s, c, s') && p < |s.pc| && s.cpu[c] == On(p) && s.pc[p] == AcqTest && s'.pc != s.pc
    ensures AcquireStep(s, c, p, s')
  {
  }

  lemma AcquiresFree(s: State, c: nat, s': State, p: nat)
    requires Inv(s) && Step(s, c, s') && Acquires(s, s', p)
    ensures !s.locked && s'.locked && s'.owner == Some(p)
  {
    hide Inv;
    if s.cpu[c] == On(p) { TestStep(s, c, s', p); } else { OthersStay(s, c, s', p); }
  }

  lemma OnlyOwnerClears(s: State, c: nat, s': State, p: nat)
    requires Inv(s) && Step(s, c, s') && s.owner == Some(p) && !Clears(s, s', p)
    ensures s'.owner == Some(p)
  {
    if s.cpu[c].On? {
      assert CpuOk(s, c);
      assert ProcOk(s, s.cpu[c].p);
    }
  }

  /** From p's acquisition at step m on it stays the owner, unless it clears the lock. */
  lemma {:induction false} OwnedUntilCleared(ss: seq<State>, cs: seq<nat>, m: nat, n: nat, p: nat)
    requires IsRun(ss, cs) && m < n <= |cs| && Acquires(ss[m], ss[m + 1], p)
    requires forall k :: m < k < n ==> !Clears(ss[k], ss[k + 1], p)
    ensures ss[n].owner == Some(p)
  {
    hide Inv, Init, Step, Acquires, Clears;
    RunKeeps(ss, cs, n - 1);
    if n == m + 1 {
      AcquiresFree(ss[m], cs[m], ss[n], p);
    } else {
      OwnedUntilCleared(ss, cs, m, n - 1, p);
      assert !Clears(ss[n - 1], ss[n - 1 + 1], p);
      OnlyOwnerClears(ss[n - 1], cs[n - 1], ss[n], p);
    }
  }

  /** Between two acquisitions of the sleeplock, by whomever, the first to have it clears it. */
  lemma Exclusion(ss: seq<State>, cs: seq<nat>, m: nat, n: nat, p: nat, q: nat)
    requires IsRun(ss, cs) && m < n < |cs| && Acquires(ss[m], ss[m + 1], p) && Acquires(ss[n], ss[n + 1], q)
    ensures exists k :: m < k < n && Clears(ss[k], ss[k + 1], p)
  {
    hide Init, Step, Acquires, Clears;
    if forall k :: m < k < n ==> !Clears(ss[k], ss[k + 1], p) {
      OwnedUntilCleared(ss, cs, m, n, p);
      RunKeeps(ss, cs, n);
      AcquiresFree(ss[n], cs[n], ss[n + 1], q);
    }
  }

  // ----- no deadlock -----

  /** The spinlock a CPU is about to acquire, as the CPU that holds it now; None if it can go on. */
  ghost function Awaits(s: State, c: nat): Option<nat>
    requires Shape(s) && c < |s.cpu|
  {
    match s.cpu[c]
    case Seek(k) => if k < |s.st| then s.plock[k] else None
    case Test(_) => None
    case Back(_) => None
    case On(p) =>
      if p >= |s.st| then None
      else match s.pc[p]
           case AcqWant => s.lk
           case RelWant => s.lk
           case SlpWant => s.plock[p]
           case YldWant => s.plock[p]
           case Scan(k) => if k < |s.st| && k != p then s.plock[k] else None
           case _ => None
  }

  /** The next state of a CPU that waits for no lock. */
  ghost predicate CanMove(s: State, c: nat) {
    exists s' :: Moves(s, c, s')
  }

  ghost predicate Moves(s: State, c: nat, s': State) {
    && Shape(s) && c < |s.cpu|
    && (SchedulerStep(s, c, s') || (s.cpu[c].On? && s.cpu[c].p < |s.st| && ProcStep(s, c, s.cpu[c].p, s')))
  }

  lemma SchedulerCanMove(s: State, c: nat)
    requires Shape(s) && c < |s.cpu| && CpuOk(s, c) && !s.cpu[c].On? && Awaits(s, c) == None
    ensures CanMove(s, c)
  {
    var k := s.cpu[c].k;
    var s' := if s.cpu[c].Seek? then s.(plock := s.plock[k := Some(c)], cpu := s.cpu[c := Test(k)])
              else if s.cpu[c].Test? && s.st[k] == Runnable then
                s.(st := s.st[k := Running], cpu := s.cpu[c := On(k)], on := s.on[k := Some(c)])
              else s.(plock := s.plock[k := None], cpu := s.cpu[c := Seek((k + 1) % |s.st|)]);
    assert SchedulerStep(s, c, s');
    assert Moves(s, c, s');
  }

  /** What process p does next on CPU c; a process outside acquires the sleeplock. */
  ghost function Next(s: State, c: nat, p: nat): State
    requires Shape(s) && c < |s.cpu| && p < |s.st| && (s.pc[p].Poke? ==> s.pc[p].k < |s.st|)
  {
    match s.pc[p]
    case Out => At(s, p, AcqWant)
    case AcqWant => At(s, p, AcqTest).(lk := Some(c))
    case AcqTest =>
      if s.locked then At(s, p, SlpWant) else At(s, p, Out).(locked := true, owner := Some(p), lk := None)
    case SlpWant => At(s, p, SlpDrop).(plock := s.plock[p := Some(c)])
    case SlpDrop => At(s, p, SlpMark).(lk := None)
    case SlpMark => At(s, p, Switch(true)).(chan := s.chan[p := true], st := s.st[p := Sleeping])
    case SlpDone => At(s, p, AcqWant).(chan := s.chan[p := false], plock := s.plock[p := None])
    case YldWant => At(s, p, YldMark).(plock := s.plock[p := Some(c)])
    case YldMark => At(s, p, Switch(false)).(st := s.st[p := Runnable])
    case YldDone => At(s, p, Out).(plock := s.plock[p := None])
    case Switch(sleeping) =>
      At(s, p, if sleeping then SlpDone else YldDone).(cpu := s.cpu[c := Back(p)], on := s.on[p := None])
    case RelWant => At(s, p, RelClear).(lk := Some(c))
    case RelClear => At(s, p, Scan(0)).(locked := false, owner := None)
    case Scan(k) =>
      if k >= |s.st| then At(s, p, RelEnd)
      else if k == p then At(s, p, Scan(k + 1))
      else At(s, p, Poke(k)).(plock := s.plock[k := Some(c)])
    case Poke(k) =>
      At(s, p, Scan(k + 1)).(plock := s.plock[k := None],
                             st := if s.st[k] == Sleeping && s.chan[k] then s.st[k := Runnable] else s.st)
    case RelEnd => At(s, p, Out).(lk := None)
  }

  lemma ProcCanMove(s: State, c: nat, p: nat)
    requires Shape(s) && c < |s.cpu| && s.cpu[c] == On(p) && CpuOk(s, c) && p < |s.st| && ProcOk(s, p)
             && Awaits(s, c) == None
    ensures CanMove(s, c)
  {
    assert ProcStep(s, c, p, Next(s, c, p));
    assert Moves(s, c, Next(s, c, p));
  }

  /** A CPU that waits for no lock can go on. */
  lemma FreeCanMove(s: State, c: nat)
    requires Inv(s) && c < |s.cpu| && Awaits(s, c) == None
    ensures CanMove(s, c)
  {
    hide CanMove;
    assert CpuOk(s, c);
    if s.cpu[c].On? {
      assert ProcOk(s, s.cpu[c].p);
      ProcCanMove(s, c, s.cpu[c].p);
    } else {
      SchedulerCanMove(s, c);
    }
  }

  /** Whoever holds a process's lock waits for nothing. */
  lemma HolderIsFree(s: State, k: nat)
    requires Inv(s) && k < |s.st| && s.plock[k].Some?
    ensures s.plock[k].value < |s.cpu| && Awaits(s, s.plock[k].value) == None
  {
    assert LockOk(s, k);
  }

  /** In every reachable state each CPU can go on, or waits for one that can, or for the holder of
      lk->lk that waits for one that can: locks are taken in the order lk->lk, p->lock. */
  lemma NoDeadlock(ss: seq<State>, cs: seq<nat>, m: nat, c: nat)
    requires IsRun(ss, cs) && m <= |cs| && c < |ss[m].cpu|
    ensures Shape(ss[m])
    ensures var s := ss[m];
            var d := if Awaits(s, c).Some? then Awaits(s, c).value else c;
            d < |s.cpu| && var e := if Awaits(s, d).Some? then Awaits(s, d).value else d;
            e < |s.cpu| && Awaits(s, e) == None && CanMove(s, e)
  {
    var s := ss[m];
    hide Inv, CanMove;
    RunKeeps(ss, cs, m);
    Chain(s, c);
    var d := if Awaits(s, c).Some? then Awaits(s, c).value else c;
    FreeCanMove(s, if Awaits(s, d).Some? then Awaits(s, d).value else d);
  }

  lemma Chain(s: State, c: nat)
    requires Inv(s) && c < |s.cpu|
    ensures Shape(s)
    ensures var d := if Awaits(s, c).Some? then Awaits(s, c).value else c;
            d < |s.cpu| && var e := if Awaits(s, d).Some? then Awaits(s, d).value else d;
            e < |s.cpu| && Awaits(s, e) == None
  {
    if Awaits(s, c).Some? {
      LocalChain(s, c);
      if Awaits(s, Awaits(s, c).value).Some? { LocalChain(s, Awaits(s, c).value); }
    }
  }

  /** One link: a process's lock leads to a free CPU, lk->lk to one that wants at most a process's lock. */
  lemma LocalChain(s: State, c: nat)
    requires Inv(s) && c < |s.cpu| && Awaits(s, c).Some?
    ensures Awaits(s, c).value < |s.cpu|
    ensures WantsProcLock(s, c) ==> Awaits(s, Awaits(s, c).value) == None
    ensures !WantsProcLock(s, c) ==> Awaits(s, Awaits(s, c).value).Some? ==> WantsProcLock(s, Awaits(s, c).value)
  {
    assert CpuOk(s, c);
    match s.cpu[c]
    case Seek(k) => HolderIsFree(s, k);
    case On(p) =>
      match s.pc[p]
      case SlpWant => HolderIsFree(s, p);
      case YldWant => HolderIsFree(s, p);
      case Scan(k) => HolderIsFree(s, k);
      case _ =>
  }

  ghost predicate WantsProcLock(s: State, c: nat)
    requires Shape(s) && c < |s.cpu|
  {
    match s.cpu[c]
    case On(p) => p < |s.st| && (s.pc[p] == SlpWant || s.pc[p] == YldWant || s.pc[p].Scan?)
    case _ => s.cpu[c].Seek?
  }
}
