/** fork()'s parent link, reparent(), exit() and wait() of kernel/proc.c as steps.  A section under
    wait_lock is split wherever another process could observe it.  sleep(p, &wait_lock) takes p->lock,
    releases wait_lock, marks the process SLEEPING and switches away, each as a step of its own; who
    wants p->lock meanwhile, above all wakeup(), has to wait. */
module ExitWait {
  import opened Common

  const INIT: nat := 0                   // initproc

  /** Ready stands for RUNNABLE and RUNNING; Sleeping means asleep in wait(). */
  datatype ProcState = Unused | Used | Ready | Sleeping | Zombie

  datatype Pc =
    | Idle                                 // not executing: UNUSED, or USED and not started
    | User
    | Link(child: nat)                     // fork(): the child gets its parent, under wait_lock
    | Start(child: nat)                    // fork(): np->state = RUNNABLE
    | ExitLock                             // exit(): acquire(&wait_lock)
    | Reparent(k: nat)                     // reparent(): if proc[k].parent == p, initproc
    | WakeInit(k: nat)                     // wakeup(initproc)
    | WakeParent                           // wakeup(p->parent)
    | Dying                                // becomes a ZOMBIE, under its own lock
    | Unlock                               // release(&wait_lock), still holding p->lock
    | Leaving                              // sched(), still on the CPU and holding p->lock
    | Gone                                 // switched away for good
    | WaitLock                             // wait(): acquire(&wait_lock), first or after sleep()
    | WaitScan(k: nat, kids: bool)         // the scan, havekids so far
    | WaitSleep                            // found children and is not killed: sleep() next
    | Drowsy                               // sleep(): holding p->lock, release(&wait_lock) next
    | Dozing                               // sleep(): holding p->lock only, SLEEPING next
    | Marked                               // sched(), still on the CPU and holding p->lock

  /** `forker` is the process inside fork() for a USED entry; `id` names the incarnation, `reaped` the
      incarnations freed by wait(); `killed` is p->killed. */
  datatype State = State(
    st: seq<ProcState>, parent: seq<Option<nat>>, pc: seq<Pc>, lock: Option<nat>,
    forker: seq<Option<nat>>, id: seq<nat>, nextId: nat, reaped: set<nat>, killed: seq<bool>)

  ghost predicate Shape(s: State) {
    |s.st| == |s.parent| == |s.pc| == |s.forker| == |s.id| == |s.killed| && INIT < |s.st|
  }

  ghost predicate Holds(pc: Pc) {
    || pc.Reparent? || pc.WakeInit? || pc == WakeParent || pc == Dying || pc == Unlock
    || pc.WaitScan? || pc == WaitSleep || pc == Drowsy
  }

  /** p->lock is held by the process itself for longer than one step. */
  ghost predicate Locked(pc: Pc) {
    pc == Unlock || pc == Leaving || pc == Drowsy || pc == Dozing || pc == Marked
  }

  /** Asleep in wait(), or past the point of no return. */
  ghost predicate Resting(s: State, p: nat)
    requires p < |s.st| && p < |s.pc|
  {
    s.st[p] == Sleeping || s.pc[p] == Dozing
  }

  /** Past reparent(): no children are left. */
  ghost predicate Childless(pc: Pc) {
    pc == WakeParent || pc == Dying || pc == Unlock || pc == Leaving || pc == Gone
  }

  ghost predicate Alive(st: ProcState) { st == Ready || st == Sleeping }

  // ----- the invariant -----

  ghost predicate ProcOk(s: State, p: nat)
    requires Shape(s) && p < |s.st|
  {
    var pc := s.pc[p];
    && (Holds(pc) <==> s.lock == Some(p))
    && (match s.st[p]
        case Unused => pc == Idle && s.parent[p] == None && !s.killed[p]
        case Used => pc == Idle && s.forker[p].Some? && s.forker[p].value < |s.st|
                     && (s.pc[s.forker[p].value] == Link(p) || s.pc[s.forker[p].value] == Start(p))
                     && (s.pc[s.forker[p].value] == Link(p) ==> s.parent[p] == None)
        case Ready => pc != Idle && pc != Unlock && pc != Leaving && pc != Gone && pc != Marked
        case Sleeping => pc == WaitLock || pc == Marked
        case Zombie => pc == Unlock || pc == Leaving || pc == Gone)
    && (pc.Link? || pc.Start? ==> pc.child < |s.st| && s.st[pc.child] == Used && s.forker[pc.child] == Some(p))
    && (pc.Start? ==> s.parent[pc.child] == Some(p))
    && (pc.WakeInit? || pc.Reparent? ==> pc.k <= |s.st|) && (pc.WakeInit? ==> pc.k < |s.st|)
    && (pc.WaitScan? ==> pc.k <= |s.st|)
    && (p == INIT ==>
          Alive(s.st[p]) && !Childless(pc) && !pc.Reparent? && !pc.WakeInit? && pc != ExitLock && s.parent[p] == None)
    && (p != INIT && s.st[p] != Unused && s.st[p] != Used ==> s.parent[p].Some?)
    && (pc == Dying ==> s.parent[p].Some? && s.parent[p].value < |s.st| && !Resting(s, s.parent[p].value))
  }

  /** A parent is neither UNUSED nor ZOMBIE, and reparent() has not yet passed this child. */
  ghost predicate ParentOk(s: State, j: nat)
    requires Shape(s) && j < |s.st|
  {
    s.parent[j].Some? ==>
      var q := s.parent[j].value;
      && q < |s.st| && q != j && Alive(s.st[q]) && !Childless(s.pc[q])
      && (s.pc[q].Reparent? ==> s.pc[q].k <= j) && (s.pc[q].WakeInit? ==> s.pc[q].k < j)
      && s.st[j] != Unused && (s.st[j] == Used ==> s.pc[q] == Start(j))
  }

  /** During the scan of wait(): children seen so far are no zombies. */
  ghost predicate ScanOk(s: State, p: nat, j: nat)
    requires Shape(s) && p < |s.st| && j < |s.st|
  {
    && (s.pc[p].WaitScan? && j < s.pc[p].k && s.parent[j] == Some(p) ==> s.st[j] != Zombie && s.pc[p].kids)
    && ((s.pc[p] == WaitSleep || s.pc[p] == Drowsy) && s.parent[j] == Some(p) ==> s.st[j] != Zombie)
  }

  /** wait() has seen a child, and may be asleep because of it. */
  ghost predicate Expects(s: State, p: nat)
    requires p < |s.st| && p < |s.pc|
  {
    || (s.pc[p].WaitScan? && s.pc[p].kids) || s.pc[p] == WaitSleep || s.pc[p] == Drowsy || Resting(s, p)
  }

  /** Whoever expects a child has one. */
  ghost predicate KidOk(s: State, p: nat)
    requires Shape(s) && p < |s.st|
  {
    Expects(s, p) ==> exists j :: 0 <= j < |s.st| && s.parent[j] == Some(p)
  }

  /** A parent asleep in wait() has a zombie child only while reparent() is about to wake it. */
  ghost predicate SleepOk(s: State, p: nat, j: nat)
    requires Shape(s) && p < |s.st| && j < |s.st|
  {
    Resting(s, p) && s.st[j] == Zombie && s.parent[j] == Some(p) ==>
      p == INIT && s.lock.Some? && s.lock.value < |s.st| && s.pc[s.lock.value] == WakeInit(j)
  }

  ghost predicate IdOk(s: State, p: nat, q: nat)
    requires Shape(s) && p < |s.st| && q < |s.st|
  {
    && (s.st[p] != Unused ==> s.id[p] < s.nextId && s.id[p] !in s.reaped)
    && (s.st[p] != Unused && s.st[q] != Unused && p != q ==> s.id[p] != s.id[q])
  }

  ghost predicate Inv(s: State) {
    && Shape(s) && (forall x :: x in s.reaped ==> x < s.nextId)
    && (s.lock.Some? ==> s.lock.value < |s.st|)
    && (forall p {:trigger ProcOk(s, p)} :: 0 <= p < |s.st| ==> ProcOk(s, p))
    && (forall j {:trigger ParentOk(s, j)} :: 0 <= j < |s.st| ==> ParentOk(s, j))
    && (forall p {:trigger KidOk(s, p)} :: 0 <= p < |s.st| ==> KidOk(s, p))
    && (forall p, j {:trigger ScanOk(s, p, j)} :: 0 <= p < |s.st| && 0 <= j < |s.st| ==> ScanOk(s, p, j))
    && (forall p, j {:trigger SleepOk(s, p, j)} :: 0 <= p < |s.st| && 0 <= j < |s.st| ==> SleepOk(s, p, j))
    && (forall p, q {:trigger IdOk(s, p, q)} :: 0 <= p < |s.st| && 0 <= q < |s.st| ==> IdOk(s, p, q))
  }

  // ----- the steps of process p -----

  ghost function At(s: State, p: nat, pc: Pc): State
    requires p < |s.pc|
  {
    s.(pc := s.pc[p := pc])
  }

  /** wakeup(proc[q]): the one process that sleeps on that channel */
  ghost function Woken(st: seq<ProcState>, q: nat): seq<ProcState>
    requires q < |st|
  {
    if st[q] == Sleeping then st[q := Ready] else st
  }

  /** fork(): allocproc() of an UNUSED entry, copying memory and files */
  ghost predicate AllocStep(s: State, p: nat, c: nat, s': State)
    requires Shape(s) && p < |s.st| && c < |s.st|
  {
    && s.pc[p] == User && s.st[c] == Unused
    && s' == At(s, p, Link(c)).(st := s.st[c := Used], forker := s.forker[c := Some(p)], id := s.id[c := s.nextId],
                                nextId := s.nextId + 1)
  }

  /** fork(): np->parent = p under wait_lock */
  ghost predicate LinkStep(s: State, p: nat, c: nat, s': State)
    requires Shape(s) && p < |s.st| && c < |s.st|
  {
    s.pc[p] == Link(c) && s.lock == None && s' == At(s, p, Start(c)).(parent := s.parent[c := Some(p)])
  }

  /** fork(): uvmcopy() failed, freeproc(np) */
  ghost predicate FailStep(s: State, p: nat, c: nat, s': State)
    requires Shape(s) && p < |s.st| && c < |s.st|
  {
    s.pc[p] == Link(c)
    && s' == At(s, p, User).(st := s.st[c := Unused], forker := s.forker[c := None], killed := s.killed[c := false])
  }

  /** fork(): np->state = RUNNABLE */
  ghost predicate StartStep(s: State, p: nat, c: nat, s': State)
    requires Shape(s) && p < |s.st| && c < |s.st|
  {
    s.pc[p] == Start(c) && s' == s.(pc := s.pc[c := User][p := User], st := s.st[c := Ready], forker :=
        s.forker[c := None])
  }

  /** exit() up to reparent() */
  ghost predicate ExitStep(s: State, p: nat, s': State)
    requires Shape(s) && p < |s.st|
  {
    || (s.pc[p] == User && p != INIT && s' == At(s, p, ExitLock))
    || (s.pc[p] == ExitLock && s.lock == None && s' == At(s, p, Reparent(0)).(lock := Some(p)))
  }

  /** reparent(): an entry that is not a child, or the end of the table */
  ghost predicate SkipStep(s: State, p: nat, s': State)
    requires Shape(s) && p < |s.st|
  {
    s.pc[p].Reparent? &&
    var k := s.pc[p].k;
    if k < |s.st| then s.parent[k] != Some(p) && s' == At(s, p, Reparent(k + 1)) else s' == At(s, p, WakeParent)
  }

  /** exit(): release(&wait_lock), and then the swtch() in sched() */
  ghost predicate LeaveStep(s: State, p: nat, s': State)
    requires Shape(s) && p < |s.st|
  {
    || (s.pc[p] == Unlock && s' == At(s, p, Leaving).(lock := None))
    || (s.pc[p] == Leaving && s' == At(s, p, Gone))
  }

  /** wait() up to its scan */
  ghost predicate EnterStep(s: State, p: nat, s': State)
    requires Shape(s) && p < |s.st|
  {
    || (s.pc[p] == User && s' == At(s, p, WaitLock))
    || (s.pc[p] == WaitLock && s.st[p] == Ready && s.lock == None
        && s' == At(s, p, WaitScan(0, false)).(lock := Some(p)))
  }

  /** The scan of wait(), where it finds nothing to free */
  ghost predicate ScanStep(s: State, p: nat, s': State)
    requires Shape(s) && p < |s.st|
  {
    s.pc[p].WaitScan? &&
    var k, kids := s.pc[p].k, s.pc[p].kids;
    if k >= |s.st| && (!kids || s.killed[p]) then s' == At(s, p, User).(lock := None)     // returns -1
    else if k >= |s.st| then s' == At(s, p, WaitSleep)
    else if s.parent[k] != Some(p) then s' == At(s, p, WaitScan(k + 1, kids))
    else if Locked(s.pc[k]) then false                                                     // acquire(&pp->lock)
    else if s.st[k] == Zombie then s' == At(s, p, User).(lock := None)                     // copyout() failed
    else s' == At(s, p, WaitScan(k + 1, true))
  }

  /** reparent(): pp->parent = initproc */
  ghost predicate MoveStep(s: State, p: nat, k: nat, s': State)
    requires Shape(s) && p < |s.st| && k < |s.st|
  {
    s.pc[p] == Reparent(k) && s.parent[k] == Some(p)
        && s' == At(s, p, WakeInit(k)).(parent := s.parent[k := Some(INIT)])
  }

  /** wakeup(initproc) in reparent(), and wakeup(p->parent) in exit() */
  ghost predicate WakeStep(s: State, p: nat, q: nat, s': State)
    requires Shape(s) && p < |s.st| && q < |s.st|
  {
    && s' == At(s, p, if s.pc[p].WakeInit? then Reparent(s.pc[p].k + 1) else Dying).(st := Woken(s.st, q))
    && ((s.pc[p].WakeInit? && q == INIT) || (s.pc[p] == WakeParent && s.parent[p] == Some(q))) && !Locked(s.pc[q])
  }

  /** exit(): p->state = ZOMBIE, holding wait_lock and p->lock */
  ghost predicate DieStep(s: State, p: nat, s': State)
    requires Shape(s) && p < |s.st|
  {
    s.pc[p] == Dying && s' == At(s, p, Unlock).(st := s.st[p := Zombie])
  }

  /** wait(): freeproc(pp), by its parent */
  ghost predicate ReapStep(s: State, p: nat, k: nat, s': State)
    requires Shape(s) && p < |s.st| && k < |s.st|
  {
    && s.pc[p].WaitScan? && s.pc[p].k == k && s.parent[k] == Some(p) && s.st[k] == Zombie && !Locked(s.pc[k])
    && s' == s.(st := s.st[k := Unused], parent := s.parent[k := None], pc := s.pc[k := Idle][p := User],
                lock := None, reaped := s.reaped + {s.id[k]}, killed := s.killed[k := false])
  }

  /** wait(): sleep(p, &wait_lock), up to the release of wait_lock */
  ghost predicate DozeStep(s: State, p: nat, s': State)
    requires Shape(s) && p < |s.st|
  {
    || (s.pc[p] == WaitSleep && s' == At(s, p, Drowsy))
    || (s.pc[p] == Drowsy && s' == At(s, p, Dozing).(lock := None))
  }

  /** The rest of it: SLEEPING, and the swtch() after which the scheduler releases p->lock */
  ghost predicate SleepStep(s: State, p: nat, s': State)
    requires Shape(s) && p < |s.st|
  {
    || (s.pc[p] == Dozing && s' == At(s, p, Marked).(st := s.st[p := Sleeping]))
    || (s.pc[p] == Marked && s' == At(s, p, WaitLock))
  }

  /** kill() marks a process, and wakes it if it sleeps. */
  ghost predicate KillStep(s: State, p: nat, s': State)
    requires Shape(s) && p < |s.st|
  {
    s.st[p] != Unused && !Locked(s.pc[p]) && s' == s.(st := Woken(s.st, p), killed := s.killed[p := true])
  }

  /** A step of process p, where `c` is the other table entry it works on. */
  ghost predicate Step(s: State, p: nat, c: nat, s': State) {
    && Shape(s) && p < |s.st| && c < |s.st|
    && (|| KillStep(s, p, s')
        || AllocStep(s, p, c, s') || LinkStep(s, p, c, s') || FailStep(s, p, c, s') || StartStep(s, p, c, s')
        || ExitStep(s, p, s') || SkipStep(s, p, s') || LeaveStep(s, p, s') || EnterStep(s, p, s') || ScanStep(s, p, s')
        || MoveStep(s, p, c, s') || WakeStep(s, p, c, s') || DieStep(s, p, s') || ReapStep(s, p, c, s')
        || DozeStep(s, p, s') || SleepStep(s, p, s'))
  }

  // ----- every step keeps the invariant -----

  /** The invariant at a process and a table entry. */
  ghost predicate Near(s: State, p: nat, c: nat) {
    && Shape(s) && p < |s.st| && c < |s.st| && (s.lock.Some? ==> s.lock.value < |s.st|)
    && ProcOk(s, p) && ProcOk(s, c) && ProcOk(s, INIT) && ParentOk(s, p) && ParentOk(s, c)
        && (forall x :: x in s.reaped ==> x < s.nextId)
  }

  /** ... and at any other two. */
  ghost predicate Pair(s: State, q: nat, j: nat) {
    && Shape(s) && q < |s.st| && j < |s.st| && ProcOk(s, q) && ProcOk(s, j) && ParentOk(s, j)
    && ScanOk(s, q, j) && SleepOk(s, q, j) && IdOk(s, q, j) && IdOk(s, j, q)
  }

  lemma ExitProc(s: State, p: nat, s': State, q: nat)
    requires Near(s, p, p) && ExitStep(s, p, s') && q < |s.st| && ProcOk(s, q) && ParentOk(s, q)
    ensures Shape(s') && |s'.st| == |s.st| && ProcOk(s', q)
  {
  }

  lemma ExitLinks(s: State, p: nat, s': State, j: nat)
    requires Near(s, p, p) && ExitStep(s, p, s') && j < |s.st| && ProcOk(s, j) && ParentOk(s, j)
    ensures Shape(s') && |s'.st| == |s.st| && ParentOk(s', j) && (s'.lock.Some? ==> s'.lock.value < |s.st|)
  {
  }

  lemma ExitPair(s: State, p: nat, s': State, q: nat, j: nat)
    requires Near(s, p, p) && ExitStep(s, p, s') && Pair(s, q, j)
    ensures Shape(s') && |s'.st| == |s.st| && ScanOk(s', q, j) && SleepOk(s', q, j) && IdOk(s', q, j)
    ensures forall x :: x in s'.reaped ==> x < s'.nextId
  {
  }

  lemma SkipProc(s: State, p: nat, s': State, q: nat)
    requires Near(s, p, p) && SkipStep(s, p, s') && q < |s.st| && ProcOk(s, q) && ParentOk(s, q)
    ensures Shape(s') && |s'.st| == |s.st| && ProcOk(s', q)
  {
  }

  lemma SkipLinks(s: State, p: nat, s': State, j: nat)
    requires Near(s, p, p) && SkipStep(s, p, s') && j < |s.st| && ProcOk(s, j) && ParentOk(s, j)
    ensures Shape(s') && |s'.st| == |s.st| && ParentOk(s', j) && (s'.lock.Some? ==> s'.lock.value < |s.st|)
  {
  }

  lemma SkipPair(s: State, p: nat, s': State, q: nat, j: nat)
    requires Near(s, p, p) && SkipStep(s, p, s') && Pair(s, q, j)
    ensures Shape(s') && |s'.st| == |s.st| && ScanOk(s', q, j) && SleepOk(s', q, j) && IdOk(s', q, j)
    ensures forall x :: x in s'.reaped ==> x < s'.nextId
  {
  }

  lemma LeaveProc(s: State, p: nat, s': State, q: nat)
    requires Near(s, p, p) && LeaveStep(s, p, s') && q < |s.st| && ProcOk(s, q) && ParentOk(s, q)
    ensures Shape(s') && |s'.st| == |s.st| && ProcOk(s', q)
  {
  }

  lemma LeaveLinks(s: State, p: nat, s': State, j: nat)
    requires Near(s, p, p) && LeaveStep(s, p, s') && j < |s.st| && ProcOk(s, j) && ParentOk(s, j)
    ensures Shape(s') && |s'.st| == |s.st| && ParentOk(s', j) && (s'.lock.Some? ==> s'.lock.value < |s.st|)
  {
  }

  lemma LeavePair(s: State, p: nat, s': State, q: nat, j: nat)
    requires Near(s, p, p) && LeaveStep(s, p, s') && Pair(s, q, j)
    ensures Shape(s') && |s'.st| == |s.st| && ScanOk(s', q, j) && SleepOk(s', q, j) && IdOk(s', q, j)
    ensures forall x :: x in s'.reaped ==> x < s'.nextId
  {
  }

  lemma EnterProc(s: State, p: nat, s': State, q: nat)
    requires Near(s, p, p) && EnterStep(s, p, s') && q < |s.st| && ProcOk(s, q) && ParentOk(s, q)
    ensures Shape(s') && |s'.st| == |s.st| && ProcOk(s', q)
  {
  }

  lemma EnterLinks(s: State, p: nat, s': State, j: nat)
    requires Near(s, p, p) && EnterStep(s, p, s') && j < |s.st| && ProcOk(s, j) && ParentOk(s, j)
    ensures Shape(s') && |s'.st| == |s.st| && ParentOk(s', j) && (s'.lock.Some? ==> s'.lock.value < |s.st|)
  {
  }

  lemma EnterPair(s: State, p: nat, s': State, q: nat, j: nat)
    requires Near(s, p, p) && EnterStep(s, p, s') && Pair(s, q, j)
    ensures Shape(s') && |s'.st| == |s.st| && ScanOk(s', q, j) && SleepOk(s', q, j) && IdOk(s', q, j)
    ensures forall x :: x in s'.reaped ==> x < s'.nextId
  {
  }

  lemma ScanProc(s: State, p: nat, s': State, q: nat)
    requires Near(s, p, p) && ScanStep(s, p, s') && q < |s.st| && ProcOk(s, q) && ParentOk(s, q)
    ensures Shape(s') && |s'.st| == |s.st| && ProcOk(s', q)
  {
    if q == p { ScanSelf(s, p, s'); } else { ScanOther(s, p, s', q); }
  }

  lemma ScanSelf(s: State, p: nat, s': State)
    requires Near(s, p, p) && ScanStep(s, p, s')
    ensures Shape(s') && |s'.st| == |s.st| && ProcOk(s', p)
  {
    hide ParentOk;
  }

  lemma ScanOther(s: State, p: nat, s': State, q: nat)
    requires Near(s, p, p) && ScanStep(s, p, s') && q < |s.st| && q != p && ProcOk(s, q)
    ensures Shape(s') && |s'.st| == |s.st| && ProcOk(s', q)
  {
    hide ParentOk;
  }

  lemma ScanLinks(s: State, p: nat, s': State, j: nat)
    requires Near(s, p, p) && ScanStep(s, p, s') && j < |s.st| && ProcOk(s, j) && ParentOk(s, j)
    ensures Shape(s') && |s'.st| == |s.st| && ParentOk(s', j) && (s'.lock.Some? ==> s'.lock.value < |s.st|)
  {
  }

  lemma ScanPair(s: State, p: nat, s': State, q: nat, j: nat)
    requires Near(s, p, p) && ScanStep(s, p, s') && Pair(s, q, j)
    ensures Shape(s') && |s'.st| == |s.st| && ScanOk(s', q, j) && SleepOk(s', q, j) && IdOk(s', q, j)
    ensures forall x :: x in s'.reaped ==> x < s'.nextId
  {
    hide ScanOk, ProcOk, ParentOk;
    ScanSeen(s, p, s', q, j);
    assert SleepOk(s', q, j) by { hide IdOk; ScanSleep(s, p, s', q, j); }
  }

  lemma ScanSeen(s: State, p: nat, s': State, q: nat, j: nat)
    requires Near(s, p, p) && ScanStep(s, p, s') && Pair(s, q, j)
    ensures Shape(s') && |s'.st| == |s.st| && ScanOk(s', q, j)
  {
    hide SleepOk, IdOk, ParentOk, ProcOk;
  }

  lemma ScanSleep(s: State, p: nat, s': State, q: nat, j: nat)
    requires Near(s, p, p) && ScanStep(s, p, s') && Pair(s, q, j)
    ensures Shape(s') && |s'.st| == |s.st| && SleepOk(s', q, j)
  {
    hide ScanOk, IdOk, ParentOk;
  }

  lemma AllocProc(s: State, p: nat, c: nat, s': State, q: nat)
    requires Near(s, p, c) && AllocStep(s, p, c, s') && q < |s.st| && ProcOk(s, q) && ParentOk(s, q)
    ensures Shape(s') && |s'.st| == |s.st| && ProcOk(s', q)
  {
  }

  lemma AllocLinks(s: State, p: nat, c: nat, s': State, j: nat)
    requires Near(s, p, c) && AllocStep(s, p, c, s') && j < |s.st| && ProcOk(s, j) && ParentOk(s, j)
    ensures Shape(s') && |s'.st| == |s.st| && ParentOk(s', j) && (s'.lock.Some? ==> s'.lock.value < |s.st|)
  {
  }

  lemma AllocPair(s: State, p: nat, c: nat, s': State, q: nat, j: nat)
    requires Near(s, p, c) && AllocStep(s, p, c, s') && Pair(s, q, j) && IdOk(s, q, c) && IdOk(s, c, q)
    ensures Shape(s') && |s'.st| == |s.st| && ScanOk(s', q, j) && SleepOk(s', q, j) && IdOk(s', q, j)
    ensures forall x :: x in s'.reaped ==> x < s'.nextId
  {
  }

  lemma LinkProc(s: State, p: nat, c: nat, s': State, q: nat)
    requires Near(s, p, c) && LinkStep(s, p, c, s') && q < |s.st| && ProcOk(s, q) && ParentOk(s, q)
    ensures Shape(s') && |s'.st| == |s.st| && ProcOk(s', q)
  {
  }

  lemma LinkLinks(s: State, p: nat, c: nat, s': State, j: nat)
    requires Near(s, p, c) && LinkStep(s, p, c, s') && j < |s.st| && ProcOk(s, j) && ParentOk(s, j)
    ensures Shape(s') && |s'.st| == |s.st| && ParentOk(s', j) && (s'.lock.Some? ==> s'.lock.value < |s.st|)
  {
  }

  lemma LinkPair(s: State, p: nat, c: nat, s': State, q: nat, j: nat)
    requires Near(s, p, c) && LinkStep(s, p, c, s') && Pair(s, q, j) && IdOk(s, q, c) && IdOk(s, c, q)
    ensures Shape(s') && |s'.st| == |s.st| && ScanOk(s', q, j) && SleepOk(s', q, j) && IdOk(s', q, j)
    ensures forall x :: x in s'.reaped ==> x < s'.nextId
  {
  }

  lemma FailProc(s: State, p: nat, c: nat, s': State, q: nat)
    requires Near(s, p, c) && FailStep(s, p, c, s') && q < |s.st| && ProcOk(s, q) && ParentOk(s, q)
    ensures Shape(s') && |s'.st| == |s.st| && ProcOk(s', q)
  {
  }

  lemma FailLinks(s: State, p: nat, c: nat, s': State, j: nat)
    requires Near(s, p, c) && FailStep(s, p, c, s') && j < |s.st| && ProcOk(s, j) && ParentOk(s, j)
    ensures Shape(s') && |s'.st| == |s.st| && ParentOk(s', j) && (s'.lock.Some? ==> s'.lock.value < |s.st|)
  {
  }

  lemma FailPair(s: State, p: nat, c: nat, s': State, q: nat, j: nat)
    requires Near(s, p, c) && FailStep(s, p, c, s') && Pair(s, q, j) && IdOk(s, q, c) && IdOk(s, c, q)
    ensures Shape(s') && |s'.st| == |s.st| && ScanOk(s', q, j) && SleepOk(s', q, j) && IdOk(s', q, j)
    ensures forall x :: x in s'.reaped ==> x < s'.nextId
  {
  }

  lemma StartProc(s: State, p: nat, c: nat, s': State, q: nat)
    requires Near(s, p, c) && StartStep(s, p, c, s') && q < |s.st| && ProcOk(s, q) && ParentOk(s, q)
    ensures Shape(s') && |s'.st| == |s.st| && ProcOk(s', q)
  {
  }

  lemma StartLinks(s: State, p: nat, c: nat, s': State, j: nat)
    requires Near(s, p, c) && StartStep(s, p, c, s') && j < |s.st| && ProcOk(s, j) && ParentOk(s, j)
    ensures Shape(s') && |s'.st| == |s.st| && ParentOk(s', j) && (s'.lock.Some? ==> s'.lock.value < |s.st|)
  {
  }

  lemma StartPair(s: State, p: nat, c: nat, s': State, q: nat, j: nat)
    requires Near(s, p, c) && StartStep(s, p, c, s') && Pair(s, q, j) && IdOk(s, q, c) && IdOk(s, c, q)
    ensures Shape(s') && |s'.st| == |s.st| && ScanOk(s', q, j) && SleepOk(s', q, j) && IdOk(s', q, j)
    ensures forall x :: x in s'.reaped ==> x < s'.nextId
  {
  }

  lemma MoveProc(s: State, p: nat, c: nat, s': State, q: nat)
    requires Near(s, p, c) && MoveStep(s, p, c, s') && q < |s.st| && ProcOk(s, q) && ParentOk(s, q)
    ensures Shape(s') && |s'.st| == |s.st| && ProcOk(s', q)
  {
  }

  lemma MoveLinks(s: State, p: nat, c: nat, s': State, j: nat)
    requires Near(s, p, c) && MoveStep(s, p, c, s') && j < |s.st| && ProcOk(s, j) && ParentOk(s, j)
    ensures Shape(s') && |s'.st| == |s.st| && ParentOk(s', j) && (s'.lock.Some? ==> s'.lock.value < |s.st|)
  {
  }

  lemma MovePair(s: State, p: nat, c: nat, s': State, q: nat, j: nat)
    requires Near(s, p, c) && MoveStep(s, p, c, s') && Pair(s, q, j) && IdOk(s, q, c) && IdOk(s, c, q)
    ensures Shape(s') && |s'.st| == |s.st| && ScanOk(s', q, j) && SleepOk(s', q, j) && IdOk(s', q, j)
    ensures forall x :: x in s'.reaped ==> x < s'.nextId
  {
  }

  lemma WakeProc(s: State, p: nat, c: nat, s': State, q: nat)
    requires Near(s, p, c) && WakeStep(s, p, c, s') && q < |s.st| && ProcOk(s, q) && ParentOk(s, q)
    ensures Shape(s') && |s'.st| == |s.st| && ProcOk(s', q)
  {
  }

  lemma WakeLinks(s: State, p: nat, c: nat, s': State, j: nat)
    requires Near(s, p, c) && WakeStep(s, p, c, s') && j < |s.st| && ProcOk(s, j) && ParentOk(s, j)
    ensures Shape(s') && |s'.st| == |s.st| && ParentOk(s', j) && (s'.lock.Some? ==> s'.lock.value < |s.st|)
  {
  }

  lemma WakePair(s: State, p: nat, c: nat, s': State, q: nat, j: nat)
    requires Near(s, p, c) && WakeStep(s, p, c, s') && Pair(s, q, j) && IdOk(s, q, c) && IdOk(s, c, q)
    ensures Shape(s') && |s'.st| == |s.st| && ScanOk(s', q, j) && SleepOk(s', q, j) && IdOk(s', q, j)
    ensures forall x :: x in s'.reaped ==> x < s'.nextId
  {
  }

  lemma DieProc(s: State, p: nat, s': State, q: nat)
    requires Near(s, p, p) && DieStep(s, p, s') && q < |s.st| && ProcOk(s, q) && ParentOk(s, q)
    ensures Shape(s') && |s'.st| == |s.st| && ProcOk(s', q)
  {
  }

  lemma DieLinks(s: State, p: nat, s': State, j: nat)
    requires Near(s, p, p) && DieStep(s, p, s') && j < |s.st| && ProcOk(s, j) && ParentOk(s, j)
    ensures Shape(s') && |s'.st| == |s.st| && ParentOk(s', j) && (s'.lock.Some? ==> s'.lock.value < |s.st|)
  {
  }

  lemma DiePair(s: State, p: nat, s': State, q: nat, j: nat)
    requires Near(s, p, p) && DieStep(s, p, s') && Pair(s, q, j)
    ensures Shape(s') && |s'.st| == |s.st| && ScanOk(s', q, j) && SleepOk(s', q, j) && IdOk(s', q, j)
    ensures forall x :: x in s'.reaped ==> x < s'.nextId
  {
  }

  lemma ReapProc(s: State, p: nat, c: nat, s': State, q: nat)
    requires Near(s, p, c) && ReapStep(s, p, c, s') && q < |s.st| && ProcOk(s, q) && ParentOk(s, q)
    ensures Shape(s') && |s'.st| == |s.st| && ProcOk(s', q)
  {
  }

  lemma ReapLinks(s: State, p: nat, c: nat, s': State, j: nat)
    requires Near(s, p, c) && ReapStep(s, p, c, s') && j < |s.st| && ProcOk(s, j) && ParentOk(s, j)
    ensures Shape(s') && |s'.st| == |s.st| && ParentOk(s', j) && (s'.lock.Some? ==> s'.lock.value < |s.st|)
  {
  }

  lemma ReapPair(s: State, p: nat, c: nat, s': State, q: nat, j: nat)
    requires Near(s, p, c) && ReapStep(s, p, c, s') && Pair(s, q, j) && IdOk(s, q, c) && IdOk(s, c, q)
    ensures Shape(s') && |s'.st| == |s.st| && ScanOk(s', q, j) && SleepOk(s', q, j) && IdOk(s', q, j)
    ensures forall x :: x in s'.reaped ==> x < s'.nextId
  {
  }

  lemma DozeProc(s: State, p: nat, s': State, q: nat)
    requires Near(s, p, p) && DozeStep(s, p, s') && q < |s.st| && ProcOk(s, q) && ParentOk(s, q)
    ensures Shape(s') && |s'.st| == |s.st| && ProcOk(s', q)
  {
  }

  lemma DozeLinks(s: State, p: nat, s': State, j: nat)
    requires Near(s, p, p) && DozeStep(s, p, s') && j < |s.st| && ProcOk(s, j) && ParentOk(s, j)
    ensures Shape(s') && |s'.st| == |s.st| && ParentOk(s', j) && (s'.lock.Some? ==> s'.lock.value < |s.st|)
  {
  }

  lemma DozePair(s: State, p: nat, s': State, q: nat, j: nat)
    requires Near(s, p, p) && DozeStep(s, p, s') && Pair(s, q, j)
    ensures Shape(s') && |s'.st| == |s.st| && ScanOk(s', q, j) && SleepOk(s', q, j) && IdOk(s', q, j)
    ensures forall x :: x in s'.reaped ==> x < s'.nextId
  {
  }

  lemma SleepProc(s: State, p: nat, s': State, q: nat)
    requires Near(s, p, p) && SleepStep(s, p, s') && q < |s.st| && ProcOk(s, q) && ParentOk(s, q)
    ensures Shape(s') && |s'.st| == |s.st| && ProcOk(s', q)
  {
    if q == p { SleepSelf(s, p, s'); } else { SleepOther(s, p, s', q); }
  }

  lemma SleepSelf(s: State, p: nat, s': State)
    requires Near(s, p, p) && SleepStep(s, p, s')
    ensures Shape(s') && |s'.st| == |s.st| && ProcOk(s', p)
  {
    hide ParentOk;
  }

  lemma SleepOther(s: State, p: nat, s': State, q: nat)
    requires Near(s, p, p) && SleepStep(s, p, s') && q < |s.st| && q != p && ProcOk(s, q)
    ensures Shape(s') && |s'.st| == |s.st| && ProcOk(s', q)
  {
    hide ParentOk;
  }

  lemma SleepLinks(s: State, p: nat, s': State, j: nat)
    requires Near(s, p, p) && SleepStep(s, p, s') && j < |s.st| && ProcOk(s, j) && ParentOk(s, j)
    ensures Shape(s') && |s'.st| == |s.st| && ParentOk(s', j) && (s'.lock.Some? ==> s'.lock.value < |s.st|)
  {
  }

  lemma SleepPair(s: State, p: nat, s': State, q: nat, j: nat)
    requires Near(s, p, p) && SleepStep(s, p, s') && Pair(s, q, j)
    ensures Shape(s') && |s'.st| == |s.st| && ScanOk(s', q, j) && SleepOk(s', q, j) && IdOk(s', q, j)
    ensures forall x :: x in s'.reaped ==> x < s'.nextId
  {
  }

  lemma KillProc(s: State, p: nat, s': State, q: nat)
    requires Near(s, p, p) && KillStep(s, p, s') && q < |s.st| && ProcOk(s, q) && ParentOk(s, q)
    ensures Shape(s') && |s'.st| == |s.st| && ProcOk(s', q)
  {
  }

  lemma KillLinks(s: State, p: nat, s': State, j: nat)
    requires Near(s, p, p) && KillStep(s, p, s') && j < |s.st| && ProcOk(s, j) && ParentOk(s, j)
    ensures Shape(s') && |s'.st| == |s.st| && ParentOk(s', j) && (s'.lock.Some? ==> s'.lock.value < |s.st|)
  {
  }

  lemma KillPair(s: State, p: nat, s': State, q: nat, j: nat)
    requires Near(s, p, p) && KillStep(s, p, s') && Pair(s, q, j)
    ensures Shape(s') && |s'.st| == |s.st| && ScanOk(s', q, j) && SleepOk(s', q, j) && IdOk(s', q, j)
    ensures forall x :: x in s'.reaped ==> x < s'.nextId
  {
  }

  // ----- children stay until wait() or reparent() takes them -----

  /** A step of `p` takes a child from nobody but `p` ... */
  lemma ParentsKept(s: State, p: nat, c: nat, s': State, j: nat)
    requires Near(s, p, c) && Step(s, p, c, s') && j < |s.st| && s.parent[j].Some? && s.parent[j] != Some(p)
    ensures |s'.parent| == |s.parent| && s'.parent[j] == s.parent[j]
  {
    hide ParentOk, Holds, Locked, Resting, Childless, Alive;
  }

  /** The steps of wait() and kill() */
  ghost predicate WaitPart(s: State, p: nat, c: nat, s': State)
    requires Shape(s) && p < |s.st| && c < |s.st|
  {
    || KillStep(s, p, s') || EnterStep(s, p, s') || ScanStep(s, p, s') || ReapStep(s, p, c, s') || DozeStep(s, p, s')
    || SleepStep(s, p, s')
  }

  /** The steps of fork() */
  ghost predicate ForkPart(s: State, p: nat, c: nat, s': State)
    requires Shape(s) && p < |s.st| && c < |s.st|
  {
    || AllocStep(s, p, c, s') || LinkStep(s, p, c, s') || FailStep(s, p, c, s') || StartStep(s, p, c, s')
  }

  /** The steps of exit() */
  ghost predicate ExitPart(s: State, p: nat, c: nat, s': State)
    requires Shape(s) && p < |s.st| && c < |s.st|
  {
    || ExitStep(s, p, s') || SkipStep(s, p, s') || LeaveStep(s, p, s') || MoveStep(s, p, c, s') || WakeStep(s, p, c, s')
    || DieStep(s, p, s')
  }

  lemma WaitExpects(s: State, p: nat, c: nat, s': State, q: nat)
    requires Shape(s) && p < |s.st| && c < |s.st| && WaitPart(s, p, c, s') && q < |s.st| && q != p
    ensures Shape(s') && |s'.st| == |s.st| && (Expects(s', q) ==> Expects(s, q))
  {
    hide Locked;
  }

  lemma ForkExpects(s: State, p: nat, c: nat, s': State, q: nat)
    requires Shape(s) && p < |s.st| && c < |s.st| && ForkPart(s, p, c, s') && q < |s.st| && q != p
    ensures Shape(s') && |s'.st| == |s.st| && (Expects(s', q) ==> Expects(s, q))
  {
    hide Locked;
  }

  lemma ExitExpects(s: State, p: nat, c: nat, s': State, q: nat)
    requires Shape(s) && p < |s.st| && c < |s.st| && ExitPart(s, p, c, s') && q < |s.st| && q != p
    ensures Shape(s') && |s'.st| == |s.st| && (Expects(s', q) ==> Expects(s, q))
  {
    hide Locked;
  }

  /** ... and makes nobody else expect one. */
  lemma ExpectsLess(s: State, p: nat, c: nat, s': State, q: nat)
    requires Step(s, p, c, s') && q < |s.st| && q != p
    ensures Shape(s') && |s'.st| == |s.st| && (Expects(s', q) ==> Expects(s, q))
  {
    hide Expects, AllocStep, LinkStep, FailStep, StartStep, ExitStep, SkipStep, LeaveStep, EnterStep, ScanStep,
         MoveStep, WakeStep, DieStep, ReapStep, DozeStep, SleepStep, KillStep;
    if WaitPart(s, p, c, s') { WaitExpects(s, p, c, s', q); }
    else if ForkPart(s, p, c, s') { ForkExpects(s, p, c, s', q); }
    else { ExitExpects(s, p, c, s', q); }
  }

  /** In fork() and exit() a process expects no child. */
  lemma ForkSelf(s: State, p: nat, c: nat, s': State)
    requires Shape(s) && p < |s.st| && c < |s.st| && ForkPart(s, p, c, s')
    requires s.st[p] == Sleeping ==> s.pc[p] == WaitLock || s.pc[p] == Marked
    ensures Shape(s') && |s'.st| == |s.st| && !Expects(s', p)
  {
    hide Locked;
  }

  lemma ExitSelf(s: State, p: nat, c: nat, s': State)
    requires Shape(s) && p < |s.st| && c < |s.st| && ExitPart(s, p, c, s')
    requires s.st[p] == Sleeping ==> s.pc[p] == WaitLock || s.pc[p] == Marked
    ensures Shape(s') && |s'.st| == |s.st| && !Expects(s', p)
  {
    hide Locked;
  }

  lemma WaitSelf(s: State, p: nat, c: nat, s': State)
    requires Shape(s) && p < |s.st| && c < |s.st| && WaitPart(s, p, c, s')
    requires s.st[p] == Sleeping ==> s.pc[p] == WaitLock || s.pc[p] == Marked
    ensures Shape(s') && |s'.st| == |s.st|
    ensures Expects(s', p) ==>
              && s'.parent == s.parent
              && (Expects(s, p) || (s.pc[p].WaitScan? && s.pc[p].k < |s.st| && s.parent[s.pc[p].k] == Some(p)))
  {
    hide Locked;
  }

  /** If `p` itself expects a child after its step, it did before, or has just met one. */
  lemma ExpectsSelf(s: State, p: nat, c: nat, s': State)
    requires Step(s, p, c, s') && (s.st[p] == Sleeping ==> s.pc[p] == WaitLock || s.pc[p] == Marked)
    ensures Shape(s') && |s'.st| == |s.st|
    ensures Expects(s', p) ==>
              && s'.parent == s.parent
              && (Expects(s, p) || (s.pc[p].WaitScan? && s.pc[p].k < |s.st| && s.parent[s.pc[p].k] == Some(p)))
  {
    hide Expects, AllocStep, LinkStep, FailStep, StartStep, ExitStep, SkipStep, LeaveStep, EnterStep, ScanStep,
         MoveStep, WakeStep, DieStep, ReapStep, DozeStep, SleepStep, KillStep;
    if WaitPart(s, p, c, s') { WaitSelf(s, p, c, s'); }
    else if ForkPart(s, p, c, s') { ForkSelf(s, p, c, s'); }
    else { ExitSelf(s, p, c, s'); }
  }

  lemma KidKept(s: State, p: nat, c: nat, s': State, q: nat)
    requires Near(s, p, c) && Step(s, p, c, s') && q < |s.st| && KidOk(s, q)
    ensures Shape(s') && |s'.st| == |s.st| && KidOk(s', q)
  {
    hide Step, ParentOk, Expects;
    if q == p {
      ExpectsSelf(s, p, c, s');
      if Expects(s', p) && !Expects(s, p) { assert s'.parent[s.pc[p].k] == Some(p); }
    } else {
      ExpectsLess(s, p, c, s', q);
      if Expects(s', q) {
        var j :| 0 <= j < |s.st| && s.parent[j] == Some(q);
        ParentsKept(s, p, c, s', j);
      }
    }
  }

  // ----- all steps together -----

  lemma StepProc(s: State, p: nat, c: nat, s': State, q: nat)
    requires Near(s, p, c) && Near(s, p, p) && Step(s, p, c, s') && q < |s.st| && ProcOk(s, q) && ParentOk(s, q)
    ensures Shape(s') && |s'.st| == |s.st| && ProcOk(s', q)
  {
    hide Near, ProcOk, ParentOk, ExitStep, SkipStep, LeaveStep, EnterStep, ScanStep, AllocStep, LinkStep, FailStep,
         StartStep, MoveStep, WakeStep, DieStep, ReapStep, DozeStep,
      SleepStep, KillStep;
    if ExitStep(s, p, s') { ExitProc(s, p, s', q); }
    else if SkipStep(s, p, s') { SkipProc(s, p, s', q); }
    else if LeaveStep(s, p, s') { LeaveProc(s, p, s', q); }
    else if EnterStep(s, p, s') { EnterProc(s, p, s', q); }
    else if ScanStep(s, p, s') { ScanProc(s, p, s', q); }
    else if AllocStep(s, p, c, s') { AllocProc(s, p, c, s', q); }
    else if LinkStep(s, p, c, s') { LinkProc(s, p, c, s', q); }
    else if FailStep(s, p, c, s') { FailProc(s, p, c, s', q); }
    else if StartStep(s, p, c, s') { StartProc(s, p, c, s', q); }
    else if MoveStep(s, p, c, s') { MoveProc(s, p, c, s', q); }
    else if WakeStep(s, p, c, s') { WakeProc(s, p, c, s', q); }
    else if DieStep(s, p, s') { DieProc(s, p, s', q); }
    else if ReapStep(s, p, c, s') { ReapProc(s, p, c, s', q); }
    else if DozeStep(s, p, s') { DozeProc(s, p, s', q); }
    else if SleepStep(s, p, s') { SleepProc(s, p, s', q); }
    else { KillProc(s, p, s', q); }
  }

  lemma StepLinks(s: State, p: nat, c: nat, s': State, j: nat)
    requires Near(s, p, c) && Near(s, p, p) && Step(s, p, c, s') && j < |s.st| && ProcOk(s, j) && ParentOk(s, j)
    ensures Shape(s') && |s'.st| == |s.st| && ParentOk(s', j) && (s'.lock.Some? ==> s'.lock.value < |s.st|)
  {
    hide Near, ProcOk, ParentOk, ExitStep, SkipStep, LeaveStep, EnterStep, ScanStep, AllocStep, LinkStep, FailStep,
         StartStep, MoveStep, WakeStep, DieStep, ReapStep, DozeStep,
      SleepStep, KillStep;
    if ExitStep(s, p, s') { ExitLinks(s, p, s', j); }
    else if SkipStep(s, p, s') { SkipLinks(s, p, s', j); }
    else if LeaveStep(s, p, s') { LeaveLinks(s, p, s', j); }
    else if EnterStep(s, p, s') { EnterLinks(s, p, s', j); }
    else if ScanStep(s, p, s') { ScanLinks(s, p, s', j); }
    else if AllocStep(s, p, c, s') { AllocLinks(s, p, c, s', j); }
    else if LinkStep(s, p, c, s') { LinkLinks(s, p, c, s', j); }
    else if FailStep(s, p, c, s') { FailLinks(s, p, c, s', j); }
    else if StartStep(s, p, c, s') { StartLinks(s, p, c, s', j); }
    else if MoveStep(s, p, c, s') { MoveLinks(s, p, c, s', j); }
    else if WakeStep(s, p, c, s') { WakeLinks(s, p, c, s', j); }
    else if DieStep(s, p, s') { DieLinks(s, p, s', j); }
    else if ReapStep(s, p, c, s') { ReapLinks(s, p, c, s', j); }
    else if DozeStep(s, p, s') { DozeLinks(s, p, s', j); }
    else if SleepStep(s, p, s') { SleepLinks(s, p, s', j); }
    else { KillLinks(s, p, s', j); }
  }

  lemma StepPair(s: State, p: nat, c: nat, s': State, q: nat, j: nat)
    requires Near(s, p, c) && Near(s, p, p) && Step(s, p, c, s') && Pair(s, q, j) && IdOk(s, q, c) && IdOk(s, c, q)
    ensures Shape(s') && |s'.st| == |s.st| && ScanOk(s', q, j) && SleepOk(s', q, j) && IdOk(s', q, j)
    ensures forall x :: x in s'.reaped ==> x < s'.nextId
  {
    hide Near, Pair, ScanOk, SleepOk, IdOk, ExitStep, SkipStep, LeaveStep, EnterStep, ScanStep, AllocStep, LinkStep,
         FailStep, StartStep, MoveStep, WakeStep, DieStep, ReapStep, DozeStep,
      SleepStep, KillStep;
    if ExitStep(s, p, s') { ExitPair(s, p, s', q, j); }
    else if SkipStep(s, p, s') { SkipPair(s, p, s', q, j); }
    else if LeaveStep(s, p, s') { LeavePair(s, p, s', q, j); }
    else if EnterStep(s, p, s') { EnterPair(s, p, s', q, j); }
    else if ScanStep(s, p, s') { ScanPair(s, p, s', q, j); }
    else if AllocStep(s, p, c, s') { AllocPair(s, p, c, s', q, j); }
    else if LinkStep(s, p, c, s') { LinkPair(s, p, c, s', q, j); }
    else if FailStep(s, p, c, s') { FailPair(s, p, c, s', q, j); }
    else if StartStep(s, p, c, s') { StartPair(s, p, c, s', q, j); }
    else if MoveStep(s, p, c, s') { MovePair(s, p, c, s', q, j); }
    else if WakeStep(s, p, c, s') { WakePair(s, p, c, s', q, j); }
    else if DieStep(s, p, s') { DiePair(s, p, s', q, j); }
    else if ReapStep(s, p, c, s') { ReapPair(s, p, c, s', q, j); }
    else if DozeStep(s, p, s') { DozePair(s, p, s', q, j); }
    else if SleepStep(s, p, s') { SleepPair(s, p, s', q, j); }
    else { KillPair(s, p, s', q, j); }
  }

  lemma Nearby(s: State, p: nat, c: nat)
    requires Inv(s) && p < |s.st| && c < |s.st|
    ensures Near(s, p, c)
  {
    hide ProcOk, ParentOk;
    assert ProcOk(s, p) && ProcOk(s, c) && ProcOk(s, INIT) && ParentOk(s, p) && ParentOk(s, c);
  }

  lemma Paired(s: State, q: nat, j: nat)
    requires Inv(s) && q < |s.st| && j < |s.st|
    ensures Pair(s, q, j)
  {
    hide ProcOk, ParentOk, ScanOk, SleepOk, IdOk;
    assert ProcOk(s, q) && ProcOk(s, j) && ParentOk(s, j) && ScanOk(s, q, j) && SleepOk(s, q, j) && IdOk(s, q, j)
           && IdOk(s, j, q);
  }

  lemma StepKeeps(s: State, p: nat, c: nat, s': State)
    requires Inv(s) && Step(s, p, c, s')
    ensures Inv(s')
  {
    hide ProcOk, ParentOk, ScanOk, SleepOk, IdOk, KidOk, Step, Near, Pair;
    StepBounds(s, p, c, s');
    Nearby(s, p, c);
    Nearby(s, p, p);
    assert ProcOk(s, p) && ParentOk(s, p) && IdOk(s, p, c) && IdOk(s, c, p);
    Paired(s, p, p);
    StepLinks(s, p, c, s', p);
    StepPair(s, p, c, s', p, p);
    forall q | 0 <= q < |s'.st| ensures ProcOk(s', q) { assert ProcOk(s, q) && ParentOk(s, q);
        StepProc(s, p, c, s', q); }
    forall q | 0 <= q < |s'.st| ensures KidOk(s', q) {
      assert KidOk(s, q);
      KidKept(s, p, c, s', q);
    }
    forall j | 0 <= j < |s'.st| ensures ParentOk(s', j) { assert ProcOk(s, j) && ParentOk(s, j);
        StepLinks(s, p, c, s', j); }
    forall q, j | 0 <= q < |s'.st| && 0 <= j < |s'.st| ensures ScanOk(s', q, j) && SleepOk(s', q, j) && IdOk(s', q, j) {
      Paired(s, q, j);
      assert IdOk(s, q, c) && IdOk(s, c, q);
      StepPair(s, p, c, s', q, j);
    }
  }

  lemma StepBounds(s: State, p: nat, c: nat, s': State)
    requires Step(s, p, c, s')
    ensures p < |s.st| && c < |s.st|
  {
  }

  // ----- whole runs -----

  /** userinit(): only initproc exists. */
  ghost predicate Start0(s: State) {
    && Shape(s) && s.lock == None && s.reaped == {} && s.id[INIT] < s.nextId
    && s.st[INIT] == Ready && s.pc[INIT] == User && s.parent[INIT] == None
    && forall p :: 0 <= p < |s.st| && p != INIT ==>
         s.st[p] == Unused && s.pc[p] == Idle && s.parent[p] == None && !s.killed[p]
  }

  ghost predicate IsRun(ss: seq<State>, ps: seq<nat>, cs: seq<nat>) {
    |ss| == |ps| + 1 == |cs| + 1 && Start0(ss[0]) && forall m :: 0 <= m < |ps| ==> Step(ss[m], ps[m], cs[m], ss[m + 1])
  }

  lemma StartOk(s: State)
    requires Start0(s)
    ensures Inv(s)
  {
    forall p | 0 <= p < |s.st| ensures ProcOk(s, p) && ParentOk(s, p) { }
  }

  lemma {:induction false} RunKeeps(ss: seq<State>, ps: seq<nat>, cs: seq<nat>, m: nat)
    requires IsRun(ss, ps, cs) && m <= |ps|
    ensures Inv(ss[m]) && |ss[m].st| == |ss[0].st|
  {
    hide Inv, Start0, Step;
    if m == 0 {
      StartOk(ss[0]);
    } else {
      RunKeeps(ss, ps, cs, m - 1);
      StepKeeps(ss[m - 1], ps[m - 1], cs[m - 1], ss[m]);
      StepSize(ss[m - 1], ps[m - 1], cs[m - 1], ss[m]);
    }
  }

  lemma StepSize(s: State, p: nat, c: nat, s': State)
    requires Step(s, p, c, s')
    ensures |s'.st| == |s.st| && s.reaped <= s'.reaped
  {
  }

  /** Every process that was started and not yet freed, other than init, has a living parent. */
  lemma ParentLives(ss: seq<State>, ps: seq<nat>, cs: seq<nat>, m: nat, p: nat)
    requires IsRun(ss, ps, cs) && m <= |ps| && p < |ss[m].st| && p != INIT && ss[m].st[p] != Unused
             && ss[m].st[p] != Used
    ensures Shape(ss[m]) && ss[m].parent[p].Some? && ss[m].parent[p].value < |ss[m].st|
            && Alive(ss[m].st[ss[m].parent[p].value])
  {
    RunKeeps(ss, ps, cs, m);
    assert ProcOk(ss[m], p) && ParentOk(ss[m], p);
  }

  /** With wait_lock free no parent is asleep in wait(), or bound to fall asleep, while it has a zombie
      child. */
  lemma NoMissedZombie(ss: seq<State>, ps: seq<nat>, cs: seq<nat>, m: nat, p: nat, j: nat)
    requires IsRun(ss, ps, cs) && m <= |ps| && p < |ss[m].st| && j < |ss[m].st| && ss[m].lock == None
    ensures Shape(ss[m]) && !(Resting(ss[m], p) && ss[m].st[j] == Zombie && ss[m].parent[j] == Some(p))
  {
    RunKeeps(ss, ps, cs, m);
    assert SleepOk(ss[m], p, j);
  }

  /** Nobody is asleep in wait(), or about to be, without a child. */
  lemma SleeperHasChild(ss: seq<State>, ps: seq<nat>, cs: seq<nat>, m: nat, p: nat)
    requires IsRun(ss, ps, cs) && m <= |ps| && p < |ss[m].st|
    ensures Shape(ss[m])
    ensures ss[m].pc[p] == WaitSleep || ss[m].pc[p] == Drowsy || ss[m].pc[p] == Dozing || ss[m].st[p] == Sleeping ==>
              exists j :: 0 <= j < |ss[m].st| && ss[m].parent[j] == Some(p)
  {
    RunKeeps(ss, ps, cs, m);
    assert KidOk(ss[m], p);
  }

  /** wait() returns without having freed a child only when there is none, when the caller is killed, or
      when the status of a zombie child could not be copied out. */
  lemma ReturnsEmpty(ss: seq<State>, ps: seq<nat>, cs: seq<nat>, m: nat)
    requires IsRun(ss, ps, cs) && m < |ps| && Shape(ss[m]) && Shape(ss[m + 1]) && ps[m] < |ss[m].st| == |ss[m + 1].st|
    requires ss[m].pc[ps[m]].WaitScan? && ss[m + 1].pc[ps[m]] == User && ss[m + 1].reaped == ss[m].reaped
    ensures var s, p := ss[m], ps[m];
            || (forall j :: 0 <= j < |s.st| ==> s.parent[j] != Some(p))
            || s.killed[p]
            || exists j :: 0 <= j < |s.st| && s.parent[j] == Some(p) && s.st[j] == Zombie
  {
    hide ProcOk, ParentOk, SleepOk;
    var s, p := ss[m], ps[m];
    RunKeeps(ss, ps, cs, m);
    assert Step(s, p, cs[m], ss[m + 1]) && IdOk(s, cs[m], cs[m]);
    forall j | 0 <= j < |s.st| && j < s.pc[p].k && !s.pc[p].kids ensures s.parent[j] != Some(p) {
      assert ScanOk(s, p, j);
    }
  }

  /** wait() frees only a process that has left the CPU for good, and only its own child. */
  lemma ReapsGone(ss: seq<State>, ps: seq<nat>, cs: seq<nat>, m: nat)
    requires IsRun(ss, ps, cs) && m < |ps|
    requires Shape(ss[m]) && ps[m] < |ss[m].st| && cs[m] < |ss[m].st| && ReapStep(ss[m], ps[m], cs[m], ss[m + 1])
    ensures ss[m].pc[cs[m]] == Gone && ss[m].parent[cs[m]] == Some(ps[m]) && ss[m].id[cs[m]] !in ss[m].reaped
    ensures forall j :: 0 <= j < |ss[m].st| ==> ss[m].parent[j] != Some(cs[m])
  {
    var s, c := ss[m], cs[m];
    RunKeeps(ss, ps, cs, m);
    assert ProcOk(s, c) && IdOk(s, c, c);
    forall j | 0 <= j < |s.st| ensures s.parent[j] != Some(c) {
      assert ParentOk(s, j);
    }
  }

  lemma {:induction false} ReapedStays(ss: seq<State>, ps: seq<nat>, cs: seq<nat>, m: nat, n: nat)
    requires IsRun(ss, ps, cs) && m <= n <= |ps|
    ensures ss[m].reaped <= ss[n].reaped
  {
    hide Start0;
    if m < n {
      ReapedStays(ss, ps, cs, m, n - 1);
      StepSize(ss[n - 1], ps[n - 1], cs[n - 1], ss[n]);
    }
  }

  /** No incarnation of a process is reaped twice. */
  lemma ReapedOnce(ss: seq<State>, ps: seq<nat>, cs: seq<nat>, m: nat, n: nat)
    requires IsRun(ss, ps, cs) && m < n < |ps|
    requires Shape(ss[m]) && ps[m] < |ss[m].st| && cs[m] < |ss[m].st| && ReapStep(ss[m], ps[m], cs[m], ss[m + 1])
    requires Shape(ss[n]) && ps[n] < |ss[n].st| && cs[n] < |ss[n].st| && ReapStep(ss[n], ps[n], cs[n], ss[n + 1])
    ensures ss[m].id[cs[m]] != ss[n].id[cs[n]]
  {
    hide Step, Start0;
    ReapedStays(ss, ps, cs, m + 1, n);
    ReapsGone(ss, ps, cs, n);
  }
}
