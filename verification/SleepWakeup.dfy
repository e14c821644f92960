/** sleep(), wakeup(), sched(), yield() and scheduler() of kernel/proc.c with a sleeplock as the
    client, as steps of CPUs.  A spinlock is held by a CPU, so p->lock passes across swtch() from the
    process to the scheduler on the same CPU and back. */
module SleepWakeup {
  import opened Common

  datatype ProcState = Runnable | Running | Sleeping

  /** Where the kernel thread of a process is; a process off the CPU resumes at its Pc. */
  datatype Pc =
    | Out                                  // no lock of interest held
    | AcqWant                              // acquiresleep(): acquire(&lk->lk)
    | AcqTest                              // while (lk->locked)
    | SlpWant                              // sleep(): acquire(&p->lock)
    | SlpDrop                              // release(lk)
    | SlpMark                              // records the channel and goes SLEEPING
    | SlpDone                              // back from sched(): clears the channel, releases p->lock
    | YldWant                              // yield(): acquire(&p->lock)
    | YldMark                              // p->state = RUNNABLE
    | YldDone                              // back from sched(), or forkret(): release(&p->lock)
    | Switch(sleeping: bool)               // sched(): swtch(), from sleep() or from yield()
    | RelWant                              // releasesleep(): acquire(&lk->lk)
    | RelClear                             // lk->locked = 0
    | Scan(k: nat)                         // wakeup(): acquire(&proc[k].lock), unless k is this process
    | Poke(k: nat)                         // if SLEEPING on lk, RUNNABLE; release(&proc[k].lock)
    | RelEnd                               // release(&lk->lk)

  datatype Cpu =
    | Seek(k: nat)                         // scheduler(): acquire(&proc[k].lock)
    | Test(k: nat)                         // if RUNNABLE, swtch()
    | On(p: nat)                           // process p executes
    | Back(k: nat)                         // after swtch(): release(&proc[k].lock)

  /** `on` is the CPU a process is on, `owner` the process holding the sleeplock. */
  datatype State = State(
    cpu: seq<Cpu>, st: seq<ProcState>, chan: seq<bool>, pc: seq<Pc>, plock: seq<Option<nat>>,
    lk: Option<nat>, locked: bool, owner: Option<nat>, on: seq<Option<nat>>)

  ghost predicate Shape(s: State) {
    |s.st| == |s.chan| == |s.pc| == |s.plock| == |s.on|
  }

  ghost predicate HoldsOwn(pc: Pc) {
    pc == SlpDrop || pc == SlpMark || pc == SlpDone || pc == YldMark || pc == YldDone || pc.Switch?
  }

  ghost predicate HoldsLk(pc: Pc) {
    pc == AcqTest || pc == SlpWant || pc == SlpDrop || pc == RelClear || pc.Scan? || pc.Poke? || pc == RelEnd
  }

  // ----- the invariant -----

  ghost predicate CpuOk(s: State, c: nat)
    requires Shape(s) && c < |s.cpu|
  {
    match s.cpu[c]
    case Seek(k) => k < |s.st|
    case Test(k) => k < |s.st| && s.plock[k] == Some(c)
    case Back(k) => k < |s.st| && s.plock[k] == Some(c)
    case On(p) => p < |s.st| && s.on[p] == Some(c)
  }

  ghost predicate ProcOk(s: State, p: nat)
    requires Shape(s) && p < |s.st|
  {
    && (s.on[p].Some? ==>
          && s.on[p].value < |s.cpu| && s.cpu[s.on[p].value] == On(p)
          && (if s.pc[p].Switch? then s.st[p] == (if s.pc[p].sleeping then s.st[p] else Runnable) && s.st[p] != Running
              else s.st[p] == Running)
          && (HoldsOwn(s.pc[p]) ==> s.plock[p] == s.on[p])
          && (s.pc[p].Poke? ==> s.pc[p].k < |s.st| && s.pc[p].k != p && s.plock[s.pc[p].k] == s.on[p])
          && (s.pc[p].Scan? ==> s.pc[p].k <= |s.st|))
    && (s.on[p].None? ==> (s.pc[p] == SlpDone || s.pc[p] == YldDone) && s.st[p] != Running)
    && (s.st[p] == Sleeping ==> s.chan[p] && (s.pc[p] == SlpDone || s.pc[p] == Switch(true)))
    && (HoldsLk(s.pc[p]) ==> s.on[p].Some? && s.lk == s.on[p])
    && (s.pc[p] == RelWant || s.pc[p] == RelClear ==> s.locked && s.owner == Some(p))
  }

  ghost predicate LockOk(s: State, k: nat)
    requires Shape(s) && k < |s.st|
  {
    s.plock[k].Some? ==>
      var c := s.plock[k].value;
      && c < |s.cpu|
      && match s.cpu[c]
         case Seek(_) => false
         case Test(i) => i == k
         case Back(i) => i == k
         case On(p) => p < |s.st| && ((p == k && HoldsOwn(s.pc[k])) || s.pc[p] == Poke(k))
  }

  ghost predicate LkOk(s: State)
    requires Shape(s)
  {
    && (s.lk.Some? ==>
          && s.lk.value < |s.cpu| && s.cpu[s.lk.value].On? && s.cpu[s.lk.value].p < |s.st|
          && HoldsLk(s.pc[s.cpu[s.lk.value].p]))
    && (s.locked <==> s.owner.Some?)
  }

  /** The releaser holding lk->lk is scanning and has not yet passed slot p. */
  ghost predicate Pending(s: State, p: nat)
    requires Shape(s)
  {
    && s.lk.Some? && s.lk.value < |s.cpu| && s.cpu[s.lk.value].On? && s.cpu[s.lk.value].p < |s.st|
    && var pc := s.pc[s.cpu[s.lk.value].p]; (pc.Scan? || pc.Poke?) && pc.k <= p
  }

  /** A process asleep on the lock, or past the point of no return, will be woken. */
  ghost predicate Safe(s: State, p: nat)
    requires Shape(s) && p < |s.st|
  {
    && (s.st[p] == Sleeping || s.pc[p] == SlpMark ==> s.locked || Pending(s, p))
    && (s.pc[p] == SlpWant || s.pc[p] == SlpDrop ==> s.locked)
  }

  ghost predicate Inv(s: State) {
    && Shape(s) && LkOk(s)
    && (forall c {:trigger CpuOk(s, c)} :: 0 <= c < |s.cpu| ==> CpuOk(s, c))
    && (forall p {:trigger ProcOk(s, p)} :: 0 <= p < |s.st| ==> ProcOk(s, p))
    && (forall k {:trigger LockOk(s, k)} :: 0 <= k < |s.st| ==> LockOk(s, k))
    && (forall p {:trigger Safe(s, p)} :: 0 <= p < |s.st| ==> Safe(s, p))
  }

  // ----- the steps of CPU c -----

  ghost predicate SchedulerStep(s: State, c: nat, s': State)
    requires Shape(s) && c < |s.cpu|
  {
    match s.cpu[c]
    case Seek(k) =>
      k < |s.st| && s.plock[k] == None && s' == s.(plock := s.plock[k := Some(c)], cpu := s.cpu[c := Test(k)])
    case Test(k) =>
      k < |s.st| &&
      if s.st[k] == Runnable then
        s' == s.(st := s.st[k := Running], cpu := s.cpu[c := On(k)], on := s.on[k := Some(c)])
      else
        s' == s.(plock := s.plock[k := None], cpu := s.cpu[c := Seek((k + 1) % |s.st|)])
    case Back(k) =>
      k < |s.st| && s' == s.(plock := s.plock[k := None], cpu := s.cpu[c := Seek((k + 1) % |s.st|)])
    case On(p) => false
  }

  ghost function At(s: State, p: nat, pc: Pc): State
    requires p < |s.pc|
  {
    s.(pc := s.pc[p := pc])
  }

  /** acquiresleep(), up to acquire(&p->lock) in the sleep() it may call */
  ghost predicate AcquireStep(s: State, c: nat, p: nat, s': State)
    requires Shape(s) && p < |s.st|
  {
    match s.pc[p]
    case Out => s' == At(s, p, AcqWant)
    case AcqWant => s.lk == None && s' == At(s, p, AcqTest).(lk := Some(c))
    case AcqTest =>
      if s.locked then s' == At(s, p, SlpWant)
      else s' == At(s, p, Out).(locked := true, owner := Some(p), lk := None)
    case SlpWant => s.plock[p] == None && s' == At(s, p, SlpDrop).(plock := s.plock[p := Some(c)])
    case _ => false
  }

  /** The rest of sleep(), before and after sched() */
  ghost predicate SleepStep(s: State, c: nat, p: nat, s': State)
    requires Shape(s) && p < |s.st|
  {
    match s.pc[p]
    case SlpDrop => s' == At(s, p, SlpMark).(lk := None)
    case SlpMark => s' == At(s, p, Switch(true)).(chan := s.chan[p := true], st := s.st[p := Sleeping])
    case SlpDone => s' == At(s, p, AcqWant).(chan := s.chan[p := false], plock := s.plock[p := None])
    case _ => false
  }

  /** yield(), before and after sched(), and forkret() */
  ghost predicate YieldStep(s: State, c: nat, p: nat, s': State)
    requires Shape(s) && p < |s.st|
  {
    match s.pc[p]
    case Out => s' == At(s, p, YldWant)
    case YldWant => s.plock[p] == None && s' == At(s, p, YldMark).(plock := s.plock[p := Some(c)])
    case YldMark => s' == At(s, p, Switch(false)).(st := s.st[p := Runnable])
    case YldDone => s' == At(s, p, Out).(plock := s.plock[p := None])
    case _ => false
  }

  /** swtch() in sched(): the CPU goes back to its scheduler, p->lock still held */
  ghost predicate SwitchStep(s: State, c: nat, p: nat, s': State)
    requires Shape(s) && p < |s.st| && c < |s.cpu|
  {
    && s.pc[p].Switch?
    && s' == At(s, p, if s.pc[p].sleeping then SlpDone else YldDone).(cpu := s.cpu[c := Back(p)], on := s.on[p := None])
  }

  /** releasesleep(), around its wakeup() */
  ghost predicate ReleaseStep(s: State, c: nat, p: nat, s': State)
    requires Shape(s) && p < |s.st|
  {
    match s.pc[p]
    case Out => s.owner == Some(p) && s.locked && s' == At(s, p, RelWant)
    case RelWant => s.lk == None && s' == At(s, p, RelClear).(lk := Some(c))
    case RelEnd => s' == At(s, p, Out).(lk := None)
    case _ => false
  }

  ghost predicate ClearStep(s: State, p: nat, s': State)
    requires Shape(s) && p < |s.st|
  {
    s.pc[p] == RelClear && s' == At(s, p, Scan(0)).(locked := false, owner := None)
  }

  /** The loop of wakeup() */
  ghost predicate ScanStep(s: State, c: nat, p: nat, s': State)
    requires Shape(s) && p < |s.st|
  {
    s.pc[p].Scan? &&
    var k := s.pc[p].k;
    if k >= |s.st| then s' == At(s, p, RelEnd)
    else if k == p then s' == At(s, p, Scan(k + 1))
    else s.plock[k] == None && s' == At(s, p, Poke(k)).(plock := s.plock[k := Some(c)])
  }

  ghost predicate PokeStep(s: State, p: nat, s': State)
    requires Shape(s) && p < |s.st|
  {
    s.pc[p].Poke? && s.pc[p].k < |s.st| &&
    var k := s.pc[p].k;
    s' == At(s, p, Scan(k + 1)).(plock := s.plock[k := None],
                                 st := if s.st[k] == Sleeping && s.chan[k] then s.st[k := Runnable] else s.st)
  }

  /** kill() of a sleeping process, under its p->lock */
  ghost predicate KillStep(s: State, k: nat, s': State)
    requires Shape(s) && k < |s.st|
  {
    s.plock[k] == None && s.st[k] == Sleeping && s' == s.(st := s.st[k := Runnable])
  }

  ghost predicate ProcStep(s: State, c: nat, p: nat, s': State)
    requires Shape(s) && p < |s.st| && c < |s.cpu|
  {
    || AcquireStep(s, c, p, s') || SleepStep(s, c, p, s') || YieldStep(s, c, p, s') || SwitchStep(s, c, p, s')
    || ReleaseStep(s, c, p, s') || ClearStep(s, p, s') || ScanStep(s, c, p, s') || PokeStep(s, p, s')
  }

  ghost predicate Step(s: State, c: nat, s': State) {
    && Shape(s) && c < |s.cpu|
    && (|| SchedulerStep(s, c, s')
        || (s.cpu[c].On? && s.cpu[c].p < |s.st| &&
            ProcStep(s, c, s.cpu[c].p, s'))
        || (exists k :: 0 <= k < |s.st| && KillStep(s, k, s')))
  }

  // ----- a step of process p on CPU c, seen from everybody else -----

  /** Only p's own entries change, the lock of slot k, and lk->lk or the sleeplock as far as p may. */
  ghost predicate Local(s: State, c: nat, p: nat, k: nat, s': State) {
    && Shape(s) && Shape(s') && |s'.st| == |s.st| && c < |s.cpu| && p < |s.st| && k < |s.st|
    && s.cpu[c] == On(p) && s'.cpu == s.cpu && s'.on == s.on
    && (forall q :: 0 <= q < |s.st| && q != p ==> s'.pc[q] == s.pc[q] && s'.chan[q] == s.chan[q])
    && (forall q :: 0 <= q < |s.st| && q != p ==>
        s'.st[q] == s.st[q] || (q == k && s.pc[p] == Poke(k) && s.st[q] == Sleeping && s'.st[q] == Runnable))
    && (forall i :: 0 <= i < |s.st| && i != k ==> s'.plock[i] == s.plock[i])
    && (s'.plock[k] != s.plock[k] ==> s.plock[k] == None || s.plock[k] == Some(c))
    && (s.pc[p].Poke? ==> k == s.pc[p].k) && (HoldsOwn(s.pc[p]) ==> k == p)
    && (s'.lk != s.lk ==> s.lk == None || s.lk == Some(c))
    && (s'.locked != s.locked || s'.owner != s.owner ==> s.lk == Some(c) && (!s.locked || s.owner == Some(p)))
  }

  lemma OtherCpu(s: State, c: nat, p: nat, k: nat, s': State, d: nat)
    requires Local(s, c, p, k, s') && d < |s.cpu| && CpuOk(s, d)
    ensures CpuOk(s', d)
  {
  }

  lemma OtherProc(s: State, c: nat, p: nat, k: nat, s': State, q: nat)
    requires Local(s, c, p, k, s') && q < |s.st| && q != p && ProcOk(s, q) && CpuOk(s, c)
    requires s.pc[q].Poke? && s.on[q].Some? ==> s.pc[q].k < |s.st| && LockOk(s, s.pc[q].k)
    ensures ProcOk(s', q)
  {
    hide HoldsOwn, HoldsLk;
  }

  lemma OtherLock(s: State, c: nat, p: nat, k: nat, s': State, i: nat)
    requires Local(s, c, p, k, s') && i < |s.st| && i != k && LockOk(s, i)
    ensures LockOk(s', i)
  {
    hide HoldsOwn, HoldsLk;
  }

  /** Nobody's wakeup is lost by a step outside wakeup() that keeps the lock held if it was. */
  lemma OtherSafe(s: State, c: nat, p: nat, k: nat, s': State, q: nat)
    requires Local(s, c, p, k, s') && q < |s.st| && q != p && Safe(s, q) && ProcOk(s, q) && ProcOk(s, p) && LkOk(s)
    requires !s.pc[p].Scan? && !s.pc[p].Poke? && (s.locked ==> s'.locked)
    ensures Safe(s', q)
  {
    hide HoldsOwn;
  }

  /** What p's step must show about p itself. */
  ghost predicate OwnOk(s': State, p: nat, k: nat) {
    Shape(s') && p < |s'.st| && k < |s'.st| && LkOk(s') && ProcOk(s', p) && LockOk(s', k) && Safe(s', p)
  }

  lemma LocalKeeps(s: State, c: nat, p: nat, k: nat, s': State)
    requires Inv(s) && Local(s, c, p, k, s') && OwnOk(s', p, k)
    requires forall q {:trigger Safe(s', q)} :: 0 <= q < |s.st| && q != p ==> Safe(s', q)
    ensures Inv(s')
  {
    hide CpuOk, ProcOk, LockOk, Safe, LkOk;
    forall d | 0 <= d < |s'.cpu| ensures CpuOk(s', d) { assert CpuOk(s, d); OtherCpu(s, c, p, k, s', d); }
    forall q | 0 <= q < |s'.st| ensures ProcOk(s', q) {
      if q != p {
        assert ProcOk(s, q) && CpuOk(s, c);
        PokeSlot(s, q);
        OtherProc(s, c, p, k, s', q);
      }
    }
    forall i | 0 <= i < |s'.st| ensures LockOk(s', i) {
      if i != k { assert LockOk(s, i); OtherLock(s, c, p, k, s', i); }
    }
  }

  lemma PokeSlot(s: State, q: nat)
    requires Inv(s) && q < |s.st|
    ensures s.pc[q].Poke? && s.on[q].Some? ==> s.pc[q].k < |s.st| && LockOk(s, s.pc[q].k)
  {
    assert ProcOk(s, q);
  }

  /** The invariant at one CPU and one process. */
  ghost predicate Near(s: State, c: nat, p: nat) {
    Shape(s) && LkOk(s) && c < |s.cpu| && p < |s.st| && CpuOk(s, c) && ProcOk(s, p) && LockOk(s, p) && Safe(s, p)
  }

  lemma Nearby(s: State, c: nat, p: nat)
    requires Inv(s) && c < |s.cpu| && p < |s.st|
    ensures Near(s, c, p)
  {
    hide LkOk;
    assert CpuOk(s, c) && ProcOk(s, p) && LockOk(s, p) && Safe(s, p);
  }

  lemma LocalShape(s: State, c: nat, p: nat, k: nat, s': State)
    requires Local(s, c, p, k, s')
    ensures Shape(s') && |s'.st| == |s.st|
  {
  }

  lemma AcquireIsLocal(s: State, c: nat, p: nat, s': State)
    requires Near(s, c, p) && s.cpu[c] == On(p) && AcquireStep(s, c, p, s')
    ensures Local(s, c, p, p, s') && !s.pc[p].Scan? && !s.pc[p].Poke? && (s.locked ==> s'.locked)
  {
    hide LockOk, Safe;
  }

  lemma AcquireOwnProc(s: State, c: nat, p: nat, s': State)
    requires Near(s, c, p) && s.cpu[c] == On(p) && AcquireStep(s, c, p, s')
    ensures Shape(s') && p < |s'.st| && ProcOk(s', p)
  {
    hide LockOk, Safe, LkOk;
  }

  lemma AcquireLk(s: State, c: nat, p: nat, s': State)
    requires Near(s, c, p) && s.cpu[c] == On(p) && AcquireStep(s, c, p, s')
    ensures Shape(s') && LkOk(s')
  {
    hide LockOk, Safe, HoldsOwn;
  }

  lemma AcquireOwnLock(s: State, c: nat, p: nat, s': State)
    requires Near(s, c, p) && s.cpu[c] == On(p) && AcquireStep(s, c, p, s')
    ensures Shape(s') && p < |s'.st| && LockOk(s', p)
  {
    hide HoldsLk, Safe, LkOk;
  }

  lemma AcquireOwnSafe(s: State, c: nat, p: nat, s': State)
    requires Near(s, c, p) && s.cpu[c] == On(p) && AcquireStep(s, c, p, s')
    ensures Shape(s') && p < |s'.st| && Safe(s', p)
  {
    hide HoldsLk, LockOk, LkOk, HoldsOwn;
  }

  lemma AcquireKeeps(s: State, c: nat, p: nat, s': State)
    requires Inv(s) && c < |s.cpu| && p < |s.st| && s.cpu[c] == On(p) && AcquireStep(s, c, p, s')
    ensures Inv(s')
  {
    hide CpuOk, ProcOk, LockOk, Safe, LkOk, AcquireStep, Local;
    Nearby(s, c, p);
    AcquireIsLocal(s, c, p, s');
    AcquireOwnProc(s, c, p, s');
    AcquireLk(s, c, p, s');
    AcquireOwnLock(s, c, p, s');
    AcquireOwnSafe(s, c, p, s');
    LocalShape(s, c, p, p, s');
    forall q | 0 <= q < |s.st| && q != p ensures Safe(s', q) {
      Nearby(s, c, q);
      OtherSafe(s, c, p, p, s', q);
    }
    LocalKeeps(s, c, p, p, s');
  }

  lemma SleepIsLocal(s: State, c: nat, p: nat, s': State)
    requires Near(s, c, p) && s.cpu[c] == On(p) && SleepStep(s, c, p, s')
    ensures Local(s, c, p, p, s') && !s.pc[p].Scan? && !s.pc[p].Poke? && (s.locked ==> s'.locked)
  {
    hide LockOk, Safe;
  }

  lemma SleepOwnProc(s: State, c: nat, p: nat, s': State)
    requires Near(s, c, p) && s.cpu[c] == On(p) && SleepStep(s, c, p, s')
    ensures Shape(s') && p < |s'.st| && ProcOk(s', p)
  {
    hide LockOk, Safe, LkOk;
  }

  lemma SleepLk(s: State, c: nat, p: nat, s': State)
    requires Near(s, c, p) && s.cpu[c] == On(p) && SleepStep(s, c, p, s')
    ensures Shape(s') && LkOk(s')
  {
    hide LockOk, Safe, HoldsOwn;
  }

  lemma SleepOwnLock(s: State, c: nat, p: nat, s': State)
    requires Near(s, c, p) && s.cpu[c] == On(p) && SleepStep(s, c, p, s')
    ensures Shape(s') && p < |s'.st| && LockOk(s', p)
  {
    hide HoldsLk, Safe, LkOk;
  }

  lemma SleepOwnSafe(s: State, c: nat, p: nat, s': State)
    requires Near(s, c, p) && s.cpu[c] == On(p) && SleepStep(s, c, p, s')
    ensures Shape(s') && p < |s'.st| && Safe(s', p)
  {
    hide HoldsLk, LockOk, LkOk, HoldsOwn;
  }

  lemma SleepKeeps(s: State, c: nat, p: nat, s': State)
    requires Inv(s) && c < |s.cpu| && p < |s.st| && s.cpu[c] == On(p) && SleepStep(s, c, p, s')
    ensures Inv(s')
  {
    hide CpuOk, ProcOk, LockOk, Safe, LkOk, SleepStep, Local;
    Nearby(s, c, p);
    SleepIsLocal(s, c, p, s');
    SleepOwnProc(s, c, p, s');
    SleepLk(s, c, p, s');
    SleepOwnLock(s, c, p, s');
    SleepOwnSafe(s, c, p, s');
    LocalShape(s, c, p, p, s');
    forall q | 0 <= q < |s.st| && q != p ensures Safe(s', q) {
      Nearby(s, c, q);
      OtherSafe(s, c, p, p, s', q);
    }
    LocalKeeps(s, c, p, p, s');
  }

  lemma YieldIsLocal(s: State, c: nat, p: nat, s': State)
    requires Near(s, c, p) && s.cpu[c] == On(p) && YieldStep(s, c, p, s')
    ensures Local(s, c, p, p, s') && !s.pc[p].Scan? && !s.pc[p].Poke? && (s.locked ==> s'.locked)
  {
    hide LockOk, Safe;
  }

  lemma YieldOwnProc(s: State, c: nat, p: nat, s': State)
    requires Near(s, c, p) && s.cpu[c] == On(p) && YieldStep(s, c, p, s')
    ensures Shape(s') && p < |s'.st| && ProcOk(s', p)
  {
    hide LockOk, Safe, LkOk;
  }

  lemma YieldLk(s: State, c: nat, p: nat, s': State)
    requires Near(s, c, p) && s.cpu[c] == On(p) && YieldStep(s, c, p, s')
    ensures Shape(s') && LkOk(s')
  {
    hide LockOk, Safe, HoldsOwn;
  }

  lemma YieldOwnLock(s: State, c: nat, p: nat, s': State)
    requires Near(s, c, p) && s.cpu[c] == On(p) && YieldStep(s, c, p, s')
    ensures Shape(s') && p < |s'.st| && LockOk(s', p)
  {
    hide HoldsLk, Safe, LkOk;
  }

  lemma YieldOwnSafe(s: State, c: nat, p: nat, s': State)
    requires Near(s, c, p) && s.cpu[c] == On(p) && YieldStep(s, c, p, s')
    ensures Shape(s') && p < |s'.st| && Safe(s', p)
  {
    hide HoldsLk, LockOk, LkOk, HoldsOwn;
  }

  lemma YieldKeeps(s: State, c: nat, p: nat, s': State)
    requires Inv(s) && c < |s.cpu| && p < |s.st| && s.cpu[c] == On(p) && YieldStep(s, c, p, s')
    ensures Inv(s')
  {
    hide CpuOk, ProcOk, LockOk, Safe, LkOk, YieldStep, Local;
    Nearby(s, c, p);
    YieldIsLocal(s, c, p, s');
    YieldOwnProc(s, c, p, s');
    YieldLk(s, c, p, s');
    YieldOwnLock(s, c, p, s');
    YieldOwnSafe(s, c, p, s');
    LocalShape(s, c, p, p, s');
    forall q | 0 <= q < |s.st| && q != p ensures Safe(s', q) {
      Nearby(s, c, q);
      OtherSafe(s, c, p, p, s', q);
    }
    LocalKeeps(s, c, p, p, s');
  }

  lemma ReleaseIsLocal(s: State, c: nat, p: nat, s': State)
    requires Near(s, c, p) && s.cpu[c] == On(p) && ReleaseStep(s, c, p, s')
    ensures Local(s, c, p, p, s') && !s.pc[p].Scan? && !s.pc[p].Poke? && (s.locked ==> s'.locked)
  {
    hide LockOk, Safe;
  }

  lemma ReleaseOwnProc(s: State, c: nat, p: nat, s': State)
    requires Near(s, c, p) && s.cpu[c] == On(p) && ReleaseStep(s, c, p, s')
    ensures Shape(s') && p < |s'.st| && ProcOk(s', p)
  {
    hide LockOk, Safe, LkOk;
    assert s'.on == s.on && s'.st == s.st && s'.cpu == s.cpu && s'.plock == s.plock;
    assert s'.pc[p] == RelWant || s'.pc[p] == RelClear || s'.pc[p] == Out;
  }

  lemma ReleaseLk(s: State, c: nat, p: nat, s': State)
    requires Near(s, c, p) && s.cpu[c] == On(p) && ReleaseStep(s, c, p, s')
    ensures Shape(s') && LkOk(s')
  {
    hide LockOk, Safe, HoldsOwn;
  }

  lemma ReleaseOwnLock(s: State, c: nat, p: nat, s': State)
    requires Near(s, c, p) && s.cpu[c] == On(p) && ReleaseStep(s, c, p, s')
    ensures Shape(s') && p < |s'.st| && LockOk(s', p)
  {
    hide HoldsLk, Safe, LkOk;
  }

  lemma ReleaseOwnSafe(s: State, c: nat, p: nat, s': State)
    requires Near(s, c, p) && s.cpu[c] == On(p) && ReleaseStep(s, c, p, s')
    ensures Shape(s') && p < |s'.st| && Safe(s', p)
  {
    hide HoldsLk, LockOk, LkOk, HoldsOwn;
  }

  lemma ReleaseKeeps(s: State, c: nat, p: nat, s': State)
    requires Inv(s) && c < |s.cpu| && p < |s.st| && s.cpu[c] == On(p) && ReleaseStep(s, c, p, s')
    ensures Inv(s')
  {
    hide CpuOk, ProcOk, LockOk, Safe, LkOk, ReleaseStep, Local;
    Nearby(s, c, p);
    ReleaseIsLocal(s, c, p, s');
    ReleaseOwnProc(s, c, p, s');
    ReleaseLk(s, c, p, s');
    ReleaseOwnLock(s, c, p, s');
    ReleaseOwnSafe(s, c, p, s');
    LocalShape(s, c, p, p, s');
    forall q | 0 <= q < |s.st| && q != p ensures Safe(s', q) {
      Nearby(s, c, q);
      OtherSafe(s, c, p, p, s', q);
    }
    LocalKeeps(s, c, p, p, s');
  }

  // ----- releasesleep() clears the lock and wakes -----

  lemma ClearOwn(s: State, c: nat, p: nat, s': State)
    requires Near(s, c, p) && s.cpu[c] == On(p) && ClearStep(s, p, s')
    ensures Local(s, c, p, p, s') && OwnOk(s', p, p)
  {
  }

  /** The scan starts below every slot, so it covers whoever sleeps now. */
  lemma ClearSafe(s: State, c: nat, p: nat, s': State, q: nat)
    requires Near(s, c, p) && s.cpu[c] == On(p) && ClearStep(s, p, s') && q < |s.st| && q != p && ProcOk(s, q)
    ensures Shape(s') && |s'.st| == |s.st| && Safe(s', q)
  {
    hide HoldsOwn, LockOk;
  }

  lemma ClearKeeps(s: State, c: nat, p: nat, s': State)
    requires Inv(s) && c < |s.cpu| && p < |s.st| && s.cpu[c] == On(p) && ClearStep(s, p, s')
    ensures Inv(s')
  {
    hide CpuOk, ProcOk, LockOk, Safe, LkOk, ClearStep, Local;
    Nearby(s, c, p);
    ClearOwn(s, c, p, s');
    forall q | 0 <= q < |s.st| && q != p ensures Safe(s', q) {
      Nearby(s, c, q);
      ClearSafe(s, c, p, s', q);
    }
    LocalKeeps(s, c, p, p, s');
  }

  ghost function Slot(s: State, p: nat): nat
    requires p < |s.pc| && p < |s.st|
  {
    if (s.pc[p].Scan? || s.pc[p].Poke?) && s.pc[p].k < |s.st| then s.pc[p].k else p
  }

  lemma ScanOwn(s: State, c: nat, p: nat, s': State)
    requires Near(s, c, p) && s.cpu[c] == On(p) && ScanStep(s, c, p, s') && LockOk(s, Slot(s, p))
    ensures Local(s, c, p, Slot(s, p), s') && OwnOk(s', p, Slot(s, p))
  {
  }

  lemma ScanSafe(s: State, c: nat, p: nat, s': State, q: nat)
    requires Near(s, c, p) && s.cpu[c] == On(p) && ScanStep(s, c, p, s') && q < |s.st| && q != p && ProcOk(s, q)
             && Safe(s, q)
    ensures Shape(s') && |s'.st| == |s.st| && Safe(s', q)
  {
    hide HoldsOwn, LockOk;
  }

  lemma ScanKeeps(s: State, c: nat, p: nat, s': State)
    requires Inv(s) && c < |s.cpu| && p < |s.st| && s.cpu[c] == On(p) && ScanStep(s, c, p, s')
    ensures Inv(s')
  {
    hide CpuOk, ProcOk, LockOk, Safe, LkOk, ScanStep, Local;
    Nearby(s, c, p);
    Nearby(s, c, Slot(s, p));
    ScanOwn(s, c, p, s');
    forall q | 0 <= q < |s.st| && q != p ensures Safe(s', q) {
      Nearby(s, c, q);
      ScanSafe(s, c, p, s', q);
    }
    LocalKeeps(s, c, p, Slot(s, p), s');
  }

  lemma PokeIsLocal(s: State, c: nat, p: nat, s': State)
    requires Near(s, c, p) && s.cpu[c] == On(p) && PokeStep(s, p, s')
    ensures Local(s, c, p, Slot(s, p), s')
  {
    hide Safe, LockOk;
  }

  lemma PokeOwn(s: State, c: nat, p: nat, s': State)
    requires Near(s, c, p) && s.cpu[c] == On(p) && PokeStep(s, p, s')
    ensures OwnOk(s', p, Slot(s, p))
  {
  }

  /** Passing slot k is safe: its process was woken, or its lock shows that it is not about to sleep. */
  lemma PokeSafe(s: State, c: nat, p: nat, s': State, q: nat)
    requires Near(s, c, p) && s.cpu[c] == On(p) && PokeStep(s, p, s') && q < |s.st| && q != p && ProcOk(s, q)
             && Safe(s, q)
    ensures Shape(s') && |s'.st| == |s.st| && Safe(s', q)
  {
    hide LockOk;
  }

  lemma PokeKeeps(s: State, c: nat, p: nat, s': State)
    requires Inv(s) && c < |s.cpu| && p < |s.st| && s.cpu[c] == On(p) && PokeStep(s, p, s')
    ensures Inv(s')
  {
    hide CpuOk, ProcOk, LockOk, Safe, LkOk, PokeStep, Local;
    Nearby(s, c, p);
    PokeIsLocal(s, c, p, s');
    PokeOwn(s, c, p, s');
    LocalShape(s, c, p, Slot(s, p), s');
    forall q | 0 <= q < |s.st| && q != p ensures Safe(s', q) {
      Nearby(s, c, q);
      PokeSafe(s, c, p, s', q);
    }
    LocalKeeps(s, c, p, Slot(s, p), s');
  }

  // ----- swtch(), the scheduler and kill() -----

  lemma SwitchCpu(s: State, c: nat, p: nat, s': State, d: nat)
    requires Near(s, c, p) && c < |s.cpu| && p < |s.st| && s.cpu[c] == On(p) && SwitchStep(s, c, p, s') && d < |s.cpu|
             && CpuOk(s, d)
    ensures Shape(s') && LkOk(s') && |s'.st| == |s.st| && |s'.cpu| == |s.cpu| && CpuOk(s', d)
  {
  }

  lemma SwitchProc(s: State, c: nat, p: nat, s': State, q: nat)
    requires Near(s, c, p) && c < |s.cpu| && p < |s.st| && s.cpu[c] == On(p) && SwitchStep(s, c, p, s') && q < |s.st|
             && ProcOk(s, q)
    requires s.pc[q].Poke? && s.on[q].Some? ==> s.pc[q].k < |s.st| && LockOk(s, s.pc[q].k)
    ensures Shape(s') && |s'.st| == |s.st| && ProcOk(s', q)
  {
    hide Safe;
  }

  lemma SwitchLock(s: State, c: nat, p: nat, s': State, k: nat)
    requires Near(s, c, p) && c < |s.cpu| && p < |s.st| && s.cpu[c] == On(p) && SwitchStep(s, c, p, s') && k < |s.st|
             && LockOk(s, k)
    ensures Shape(s') && |s'.st| == |s.st| && LockOk(s', k)
  {
    hide Safe, HoldsLk;
  }

  lemma SwitchSafe(s: State, c: nat, p: nat, s': State, q: nat)
    requires Near(s, c, p) && c < |s.cpu| && p < |s.st| && s.cpu[c] == On(p) && SwitchStep(s, c, p, s') && q < |s.st|
             && ProcOk(s, q) && Safe(s, q)
    ensures Shape(s') && |s'.st| == |s.st| && Safe(s', q)
  {
    hide LockOk, HoldsOwn;
  }

  lemma SwitchKeeps(s: State, c: nat, p: nat, s': State)
    requires Inv(s) && c < |s.cpu| && p < |s.st| && s.cpu[c] == On(p) && SwitchStep(s, c, p, s')
    ensures Inv(s')
  {
    hide CpuOk, ProcOk, LockOk, Safe, LkOk, SwitchStep;
    Nearby(s, c, p);
    assert CpuOk(s, c);
    SwitchCpu(s, c, p, s', c);
    forall d | 0 <= d < |s'.cpu| ensures CpuOk(s', d) { assert CpuOk(s, d); SwitchCpu(s, c, p, s', d); }
    forall q | 0 <= q < |s'.st| ensures ProcOk(s', q) {
      assert ProcOk(s, q); PokeSlot(s, q); SwitchProc(s, c, p, s', q); }
    forall k | 0 <= k < |s'.st| ensures LockOk(s', k) { assert LockOk(s, k); SwitchLock(s, c, p, s', k); }
    forall q | 0 <= q < |s'.st| ensures Safe(s', q) { assert ProcOk(s, q) && Safe(s, q); SwitchSafe(s, c, p, s', q); }
  }

  lemma SchedulerCpu(s: State, c: nat, s': State, d: nat)
    requires c < |s.cpu| && !s.cpu[c].On? && Near(s, c, s.cpu[c].k) && SchedulerStep(s, c, s') && d < |s.cpu|
             && CpuOk(s, d)
    ensures Shape(s') && |s'.st| == |s.st| && |s'.cpu| == |s.cpu| && CpuOk(s', d)
  {
    hide Safe, HoldsLk, LkOk;
  }

  lemma SchedulerLk(s: State, c: nat, s': State)
    requires c < |s.cpu| && !s.cpu[c].On? && Near(s, c, s.cpu[c].k) && SchedulerStep(s, c, s')
    ensures Shape(s') && LkOk(s')
  {
    hide Safe, HoldsLk, HoldsOwn, LockOk;
  }

  lemma SchedulerProc(s: State, c: nat, s': State, q: nat)
    requires c < |s.cpu| && !s.cpu[c].On? && Near(s, c, s.cpu[c].k) && SchedulerStep(s, c, s') && q < |s.st|
             && ProcOk(s, q)
    requires s.pc[q].Poke? && s.on[q].Some? ==> s.pc[q].k < |s.st| && LockOk(s, s.pc[q].k)
    ensures Shape(s') && |s'.st| == |s.st| && ProcOk(s', q)
  {
    hide Safe;
    if q != s.cpu[c].k { SchedulerElse(s, c, s', q); }
  }

  lemma SchedulerElse(s: State, c: nat, s': State, q: nat)
    requires c < |s.cpu| && !s.cpu[c].On? && Near(s, c, s.cpu[c].k) && SchedulerStep(s, c, s') && q < |s.st|
             && ProcOk(s, q)
    requires s.pc[q].Poke? && s.on[q].Some? ==> s.pc[q].k < |s.st| && LockOk(s, s.pc[q].k)
    requires q != s.cpu[c].k
    ensures Shape(s') && |s'.st| == |s.st| && ProcOk(s', q)
  {
    hide Safe, HoldsLk;
  }

  lemma SchedulerLock(s: State, c: nat, s': State, k: nat)
    requires c < |s.cpu| && !s.cpu[c].On? && Near(s, c, s.cpu[c].k) && SchedulerStep(s, c, s') && k < |s.st|
             && LockOk(s, k)
    ensures Shape(s') && |s'.st| == |s.st| && LockOk(s', k)
  {
    hide Safe, HoldsLk;
  }

  lemma SchedulerSafe(s: State, c: nat, s': State, q: nat)
    requires c < |s.cpu| && !s.cpu[c].On? && Near(s, c, s.cpu[c].k) && SchedulerStep(s, c, s') && q < |s.st|
             && ProcOk(s, q) && Safe(s, q)
    ensures Shape(s') && |s'.st| == |s.st| && Safe(s', q)
  {
    hide LockOk, HoldsOwn;
  }

  lemma SchedulerKeeps(s: State, c: nat, s': State)
    requires Inv(s) && c < |s.cpu| && !s.cpu[c].On? && SchedulerStep(s, c, s')
    ensures Inv(s')
  {
    hide CpuOk, ProcOk, LockOk, Safe, LkOk, SchedulerStep;
    CpuSlot(s, c);
    Nearby(s, c, s.cpu[c].k);
    assert CpuOk(s, c);
    SchedulerCpu(s, c, s', c);
    SchedulerLk(s, c, s');
    forall d | 0 <= d < |s'.cpu| ensures CpuOk(s', d) { assert CpuOk(s, d); SchedulerCpu(s, c, s', d); }
    forall q | 0 <= q < |s'.st| ensures ProcOk(s', q) {
      assert ProcOk(s, q); PokeSlot(s, q); SchedulerProc(s, c, s', q); }
    forall k | 0 <= k < |s'.st| ensures LockOk(s', k) { assert LockOk(s, k); SchedulerLock(s, c, s', k); }
    forall q | 0 <= q < |s'.st| ensures Safe(s', q) { assert ProcOk(s, q) && Safe(s, q); SchedulerSafe(s, c, s', q); }
  }

  lemma CpuSlot(s: State, c: nat)
    requires Inv(s) && c < |s.cpu| && !s.cpu[c].On?
    ensures s.cpu[c].k < |s.st|
  {
    assert CpuOk(s, c);
  }

  lemma KillKeeps(s: State, k: nat, s': State)
    requires Inv(s) && k < |s.st| && KillStep(s, k, s')
    ensures Inv(s')
  {
    hide HoldsOwn, HoldsLk;
    forall d | 0 <= d < |s'.cpu| ensures CpuOk(s', d) { assert CpuOk(s, d); }
    forall q | 0 <= q < |s'.st| ensures ProcOk(s', q) { KillProc(s, k, s', q); }
    forall i | 0 <= i < |s'.st| ensures LockOk(s', i) { assert LockOk(s, i); }
    forall q | 0 <= q < |s'.st| ensures Safe(s', q) { assert Safe(s, q); }
  }

  lemma KillProc(s: State, k: nat, s': State, q: nat)
    requires Inv(s) && k < |s.st| && KillStep(s, k, s') && q < |s.st|
    ensures Shape(s') && |s'.st| == |s.st| && ProcOk(s', q)
  {
    assert ProcOk(s, q);
  }

  lemma StepKeeps(s: State, c: nat, s': State)
    requires Inv(s) && Step(s, c, s')
    ensures Inv(s')
  {
    hide Inv, SchedulerStep, AcquireStep, SleepStep, YieldStep, SwitchStep, ReleaseStep, ClearStep, ScanStep, PokeStep,
         KillStep;
    if SchedulerStep(s, c, s') {
      NotOn(s, c, s');
      SchedulerKeeps(s, c, s');
    } else if s.cpu[c].On? && s.cpu[c].p < |s.st| && ProcStep(s, c, s.cpu[c].p, s') {
      var p := s.cpu[c].p;
      if AcquireStep(s, c, p, s') { AcquireKeeps(s, c, p, s'); }
      else if SleepStep(s, c, p, s') { SleepKeeps(s, c, p, s'); }
      else if YieldStep(s, c, p, s') { YieldKeeps(s, c, p, s'); }
      else if SwitchStep(s, c, p, s') { SwitchKeeps(s, c, p, s'); }
      else if ReleaseStep(s, c, p, s') { ReleaseKeeps(s, c, p, s'); }
      else if ClearStep(s, p, s') { ClearKeeps(s, c, p, s'); }
      else if ScanStep(s, c, p, s') { ScanKeeps(s, c, p, s'); }
      else { PokeKeeps(s, c, p, s'); }
    } else {
      var k :| 0 <= k < |s.st| && KillStep(s, k, s');
      KillKeeps(s, k, s');
    }
  }

  lemma NotOn(s: State, c: nat, s': State)
    requires Shape(s) && c < |s.cpu| && SchedulerStep(s, c, s')
    ensures !s.cpu[c].On?
  {
  }

  // ----- whole runs -----

  /** Boot: every CPU in its scheduler, every process about to return from its first swtch(). */
  ghost predicate Init(s: State) {
    && Shape(s) && s.lk == None && !s.locked && s.owner == None
    && (forall c :: 0 <= c < |s.cpu| ==> s.cpu[c].Seek? && s.cpu[c].k < |s.st|)
    && (forall p :: 0 <= p < |s.st| ==>
        s.st[p] == Runnable && s.pc[p] == YldDone && s.plock[p] == None && s.on[p] == None)
  }

  ghost predicate IsRun(ss: seq<State>, cs: seq<nat>) {
    |ss| == |cs| + 1 && Init(ss[0]) && forall m :: 0 <= m < |cs| ==> Step(ss[m], cs[m], ss[m + 1])
  }

  lemma InitOk(s: State)
    requires Init(s)
    ensures Inv(s)
  {
    forall c | 0 <= c < |s.cpu| ensures CpuOk(s, c) { }
    forall p | 0 <= p < |s.st| ensures ProcOk(s, p) && LockOk(s, p) && Safe(s, p) { }
  }

  lemma {:induction false} RunKeeps(ss: seq<State>, cs: seq<nat>, m: nat)
    requires IsRun(ss, cs) && m <= |cs|
    ensures Inv(ss[m])
  {
    hide Inv, Init, Step;
    if m == 0 {
      InitOk(ss[0]);
    } else {
      RunKeeps(ss, cs, m - 1);
      StepKeeps(ss[m - 1], cs[m - 1], ss[m]);
    }
  }

  /** In every interleaving: a process asleep on the sleeplock means that the lock is held, or that a
      releaser is in wakeup() and has not yet passed the sleeper's slot. */
  lemma NoLostWakeup(ss: seq<State>, cs: seq<nat>, m: nat, p: nat)
    requires IsRun(ss, cs) && m <= |cs| && p < |ss[m].st| && ss[m].st[p] == Sleeping
    ensures Shape(ss[m]) && ss[m].chan[p]
    ensures ss[m].locked || exists q, k ::
              0 <= q < |ss[m].st| && 0 <= k <= p && q != p && (ss[m].pc[q] == Scan(k) || ss[m].pc[q] == Poke(k))
  {
    var s := ss[m];
    RunKeeps(ss, cs, m);
    assert Safe(s, p) && ProcOk(s, p);
    if !s.locked {
      var q := s.cpu[s.lk.value].p;
      assert s.pc[q] == Scan(s.pc[q].k) || s.pc[q] == Poke(s.pc[q].k);
    }
  }

  /** No process executes on two CPUs, and one that is RUNNING is on exactly one. */
  lemma OneCpu(ss: seq<State>, cs: seq<nat>, m: nat, p: nat, c: nat, d: nat)
    requires IsRun(ss, cs) && m <= |cs| && p < |ss[m].st| && c < |ss[m].cpu| && d < |ss[m].cpu|
    ensures ss[m].cpu[c] == On(p) && ss[m].cpu[d] == On(p) ==> c == d
    ensures ss[m].st[p] == Running ==> exists e :: 0 <= e < |ss[m].cpu| && ss[m].cpu[e] == On(p)
  {
    RunKeeps(ss, cs, m);
    assert CpuOk(ss[m], c) && CpuOk(ss[m], d) && ProcOk(ss[m], p);
  }

  /** The panics of sched() are unreachable: at swtch() the CPU holds p->lock and no other lock, and the
      process is no longer RUNNING. */
  lemma SchedGuards(ss: seq<State>, cs: seq<nat>, m: nat, c: nat, p: nat)
    requires IsRun(ss, cs) && m <= |cs| && c < |ss[m].cpu| && ss[m].cpu[c] == On(p)
    ensures p < |ss[m].st| && Shape(ss[m])
    ensures ss[m].pc[p].Switch? ==>
              && ss[m].plock[p] == Some(c) && ss[m].st[p] != Running && ss[m].lk != Some(c)
              && forall k :: 0 <= k < |ss[m].st| && k != p ==> ss[m].plock[k] != Some(c)
  {
    var s := ss[m];
    RunKeeps(ss, cs, m);
    assert CpuOk(s, c);
    assert ProcOk(s, p);
    forall k | 0 <= k < |s.st| && k != p && s.pc[p].Switch? ensures s.plock[k] != Some(c) {
      assert LockOk(s, k);
    }
  }

  /** The flag is set just while a process owns the sleeplock, and only its owner is releasing it. */
  lemma HolderIsOwner(ss: seq<State>, cs: seq<nat>, m: nat, p: nat)
    requires IsRun(ss, cs) && m <= |cs| && p < |ss[m].st|
    ensures Shape(ss[m]) && (ss[m].locked <==> ss[m].owner.Some?)
    ensures ss[m].pc[p] == RelWant || ss[m].pc[p] == RelClear ==> ss[m].locked && ss[m].owner == Some(p)
  {
    RunKeeps(ss, cs, m);
    assert ProcOk(ss[m], p);
  }
}
