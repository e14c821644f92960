/** More about whole runs of ExitWait.dfy: somebody can always go on, and which kill() a sleeper in
    wait() does not notice. */
module WaitRuns {
  import opened Common
  import opened ExitWait

  // ----- wait_lock and p->lock do not deadlock -----

  /** A step in which p gets on; a kill() of p is none. */
  ghost predicate Moves(s: State, p: nat, c: nat, s': State) {
    Step(s, p, c, s') && p < |s'.pc| && s'.pc[p] != s.pc[p]
  }

  ghost predicate CanMove(s: State, p: nat) { exists c, s' :: Moves(s, p, c, s') }

  /** Whoever holds its own p->lock over several steps goes on. */
  lemma LockedMoves(s: State, p: nat)
    requires Inv(s) && p < |s.st| && Locked(s.pc[p])
    ensures CanMove(s, p)
  {
    hide Inv, AllocStep, LinkStep, FailStep, StartStep, ExitStep, SkipStep, EnterStep, ScanStep, MoveStep, WakeStep,
         DieStep, ReapStep, KillStep;
    assert Shape(s) by { ShapeOf(s); }
    var s' :=
      if s.pc[p] == Unlock then At(s, p, Leaving).(lock := None)
      else if s.pc[p] == Leaving then At(s, p, Gone)
      else if s.pc[p] == Drowsy then At(s, p, Dozing).(lock := None)
      else if s.pc[p] == Dozing then At(s, p, Marked).(st := s.st[p := Sleeping])
      else At(s, p, WaitLock);
    assert LeaveStep(s, p, s') || DozeStep(s, p, s') || SleepStep(s, p, s');
    assert Moves(s, p, p, s');
  }

  lemma ShapeOf(s: State)
    requires Inv(s)
    ensures Shape(s) && (s.lock.Some? ==> s.lock.value < |s.st|)
  {
  }

  /** The p->lock that the holder of wait_lock waits for, if any */
  ghost function Wants(s: State, p: nat): Option<nat>
    requires Shape(s) && p < |s.st|
  {
    match s.pc[p]
    case WaitScan(k, _) => if k < |s.st| && s.parent[k] == Some(p) && Locked(s.pc[k]) then Some(k) else None
    case WakeInit(_) => if Locked(s.pc[INIT]) then Some(INIT) else None
    case WakeParent => if s.parent[p].Some? && s.parent[p].value < |s.st| && Locked(s.pc[s.parent[p].value])
                       then s.parent[p] else None
    case _ => None
  }

  lemma ScanMoves(s: State, p: nat)
    requires Inv(s) && p < |s.st| && s.pc[p].WaitScan? && Wants(s, p) == None
    ensures CanMove(s, p)
  {
    hide Inv, AllocStep, LinkStep, FailStep, StartStep, ExitStep, SkipStep, EnterStep, MoveStep, WakeStep, LeaveStep,
         DieStep, ReapStep, KillStep, DozeStep, SleepStep, Locked, Holds;
    ShapeOf(s);
    var k, kids := s.pc[p].k, s.pc[p].kids;
    var s' :=
      if k >= |s.st| && (!kids || s.killed[p]) then At(s, p, User).(lock := None)
      else if k >= |s.st| then At(s, p, WaitSleep)
      else if s.parent[k] != Some(p) then At(s, p, WaitScan(k + 1, kids))
      else if s.st[k] == Zombie then At(s, p, User).(lock := None)
      else At(s, p, WaitScan(k + 1, true));
    assert ScanStep(s, p, s');
    assert Moves(s, p, p, s');
  }

  lemma ReparentMoves(s: State, p: nat)
    requires Inv(s) && p < |s.st| && (s.pc[p].Reparent? || s.pc[p] == Dying || s.pc[p] == WaitSleep)
    ensures CanMove(s, p)
  {
    hide Inv, AllocStep, LinkStep, FailStep, StartStep, ExitStep, EnterStep, ScanStep, WakeStep, LeaveStep,
         ReapStep, KillStep, SleepStep;
    ShapeOf(s);
    if s.pc[p].Reparent? && s.pc[p].k < |s.st| && s.parent[s.pc[p].k] == Some(p) {
      var k := s.pc[p].k;
      var s' := At(s, p, WakeInit(k)).(parent := s.parent[k := Some(INIT)]);
      assert Moves(s, p, k, s');
    } else {
      var s' :=
        if s.pc[p] == Dying then At(s, p, Unlock).(st := s.st[p := Zombie])
        else if s.pc[p] == WaitSleep then At(s, p, Drowsy)
        else if s.pc[p].k < |s.st| then At(s, p, Reparent(s.pc[p].k + 1)) else At(s, p, WakeParent);
      assert Moves(s, p, p, s');
    }
  }

  lemma WakeMoves(s: State, p: nat)
    requires Inv(s) && p < |s.st| && (s.pc[p].WakeInit? || s.pc[p] == WakeParent) && Wants(s, p) == None
    ensures CanMove(s, p)
  {
    hide Inv, AllocStep, LinkStep, FailStep, StartStep, ExitStep, SkipStep, EnterStep, ScanStep, MoveStep, LeaveStep,
         DieStep, ReapStep, KillStep, DozeStep, SleepStep;
    ShapeOf(s);
    if s.pc[p] == WakeParent { HasParent(s, p); }
    var q := if s.pc[p].WakeInit? then INIT else s.parent[p].value;
    var s' := At(s, p, if s.pc[p].WakeInit? then Reparent(s.pc[p].k + 1) else Dying).(st := Woken(s.st, q));
    assert WakeStep(s, p, q, s');
    assert Moves(s, p, q, s');
  }

  lemma HasParent(s: State, p: nat)
    requires Inv(s) && p < |s.st| && s.pc[p] == WakeParent
    ensures s.parent[p].Some? && s.parent[p].value < |s.st|
  {
    assert ProcOk(s, p) && ParentOk(s, p);
  }

  /** In every reachable state with wait_lock taken, its holder can go on, or waits for the p->lock of a
      process that can. */
  lemma WaitLockMoves(ss: seq<State>, ps: seq<nat>, cs: seq<nat>, m: nat)
    requires IsRun(ss, ps, cs) && m <= |ps| && ss[m].lock.Some?
    ensures var s, p := ss[m], ss[m].lock.value;
            Shape(s) && p < |s.st| && CanMove(s, if Wants(s, p).Some? then Wants(s, p).value else p)
  {
    hide Step, Moves, CanMove;
    var s, p := ss[m], ss[m].lock.value;
    RunKeeps(ss, ps, cs, m);
    assert ProcOk(s, p);
    var pc := s.pc[p];
    if Wants(s, p).Some? {
      LockedMoves(s, Wants(s, p).value);
    } else if pc.WaitScan? {
      ScanMoves(s, p);
    } else if pc.WakeInit? || pc == WakeParent {
      WakeMoves(s, p);
    } else if pc.Reparent? || pc == Dying || pc == WaitSleep {
      ReparentMoves(s, p);
    } else {
      LockedMoves(s, p);
    }
  }

  // ----- kill() and wait() -----

  /** From its test of p->killed on until it is woken */
  ghost predicate Committed(s: State, p: nat)
    requires p < |s.st| && p < |s.pc|
  {
    s.pc[p] == WaitSleep || s.pc[p] == Drowsy || Resting(s, p)
  }

  /** kill() comes after the test of p->killed and before sleep() has p->lock. */
  ghost predicate Slips(s: State, s': State, p: nat) {
    && p < |s.pc| && p < |s.killed| && p < |s'.killed|
    && s.pc[p] == WaitSleep && !s.killed[p] && s'.killed[p]
  }

  lemma ScanKill(s: State, p: nat, c: nat, s': State, q: nat)
    requires Shape(s) && p < |s.st| && c < |s.st| && q < |s.st| && ProcOk(s, q)
    requires EnterStep(s, p, s') || ScanStep(s, p, s')
    ensures Shape(s') && |s'.st| == |s.st|
    ensures Committed(s', q) && s'.killed[q] ==> Slips(s, s', q) || (Committed(s, q) && s.killed[q])
  {
    hide Holds, Childless, Alive, Locked;
  }

  lemma ReapKill(s: State, p: nat, c: nat, s': State, q: nat)
    requires Shape(s) && p < |s.st| && c < |s.st| && q < |s.st| && ProcOk(s, q)
    requires ReapStep(s, p, c, s')
    ensures Shape(s') && |s'.st| == |s.st|
    ensures Committed(s', q) && s'.killed[q] ==> Slips(s, s', q) || (Committed(s, q) && s.killed[q])
  {
    hide Holds, Childless, Alive, Locked;
  }

  lemma SleepKill(s: State, p: nat, c: nat, s': State, q: nat)
    requires Shape(s) && p < |s.st| && c < |s.st| && q < |s.st| && ProcOk(s, q)
    requires KillStep(s, p, s') || DozeStep(s, p, s') || SleepStep(s, p, s')
    ensures Shape(s') && |s'.st| == |s.st|
    ensures Committed(s', q) && s'.killed[q] ==> Slips(s, s', q) || (Committed(s, q) && s.killed[q])
  {
    hide Holds, Childless, Alive;
  }

  lemma ForkKill(s: State, p: nat, c: nat, s': State, q: nat)
    requires Shape(s) && p < |s.st| && c < |s.st| && ForkPart(s, p, c, s') && q < |s.st| && ProcOk(s, q)
    ensures Shape(s') && |s'.st| == |s.st|
    ensures Committed(s', q) && s'.killed[q] ==> Slips(s, s', q) || (Committed(s, q) && s.killed[q])
  {
    hide Holds, Locked, Childless, Alive;
  }

  lemma ExitKill(s: State, p: nat, c: nat, s': State, q: nat)
    requires Shape(s) && p < |s.st| && c < |s.st| && q < |s.st| && ProcOk(s, q)
    requires ExitStep(s, p, s') || SkipStep(s, p, s') || LeaveStep(s, p, s')
    ensures Shape(s') && |s'.st| == |s.st|
    ensures Committed(s', q) && s'.killed[q] ==> Slips(s, s', q) || (Committed(s, q) && s.killed[q])
  {
    hide Holds, Childless, Alive, Locked;
  }

  lemma WakeKill(s: State, p: nat, c: nat, s': State, q: nat)
    requires Shape(s) && p < |s.st| && c < |s.st| && q < |s.st| && ProcOk(s, q)
    requires MoveStep(s, p, c, s') || WakeStep(s, p, c, s') || DieStep(s, p, s')
    ensures Shape(s') && |s'.st| == |s.st|
    ensures Committed(s', q) && s'.killed[q] ==> Slips(s, s', q) || (Committed(s, q) && s.killed[q])
  {
    hide Holds, Childless, Alive, Locked;
  }

  lemma StepKill(s: State, p: nat, c: nat, s': State, q: nat)
    requires Step(s, p, c, s') && q < |s.st| && ProcOk(s, q)
    ensures Shape(s') && |s'.st| == |s.st|
    ensures Committed(s', q) && s'.killed[q] ==> Slips(s, s', q) || (Committed(s, q) && s.killed[q])
  {
    hide AllocStep, LinkStep, FailStep, StartStep, ExitStep, SkipStep, LeaveStep, EnterStep, ScanStep, MoveStep,
         WakeStep, DieStep, ReapStep, DozeStep, SleepStep, KillStep, ProcOk, Committed, Slips;
    if EnterStep(s, p, s') || ScanStep(s, p, s') { ScanKill(s, p, c, s', q); }
    else if ReapStep(s, p, c, s') { ReapKill(s, p, c, s', q); }
    else if KillStep(s, p, s') || DozeStep(s, p, s') || SleepStep(s, p, s') { SleepKill(s, p, c, s', q); }
    else if ForkPart(s, p, c, s') { ForkKill(s, p, c, s', q); }
    else if ExitStep(s, p, s') || SkipStep(s, p, s') || LeaveStep(s, p, s') { ExitKill(s, p, c, s', q); }
    else { WakeKill(s, p, c, s', q); }
  }

  /** A killed process is asleep in wait() only if kill() slipped between the test of p->killed and the
      acquire(&p->lock) in sleep(). */
  lemma {:induction false} KilledAsleep(ss: seq<State>, ps: seq<nat>, cs: seq<nat>, m: nat, p: nat)
    requires IsRun(ss, ps, cs) && m <= |ps| && p < |ss[m].st| && Shape(ss[m]) && Committed(ss[m], p) && ss[m].killed[p]
    ensures exists k :: 0 <= k < m && Slips(ss[k], ss[k + 1], p)
  {
    hide Step, ProcOk;
    if m == 0 {
      assert false;
    } else {
      RunKeeps(ss, ps, cs, m - 1);
      RunKeeps(ss, ps, cs, m);
      assert ProcOk(ss[m - 1], p);
      StepKill(ss[m - 1], ps[m - 1], cs[m - 1], ss[m], p);
      if Slips(ss[m - 1], ss[m - 1 + 1], p) {
      } else {
        KilledAsleep(ss, ps, cs, m - 1, p);
      }
    }
  }

  lemma Extend(ss: seq<State>, ps: seq<nat>, cs: seq<nat>, p: nat, s': State)
    requires IsRun(ss, ps, cs) && Step(ss[|ps|], p, p, s')
    ensures IsRun(ss + [s'], ps + [p], cs + [p])
  {
    hide Step;
    var ss', ps', cs' := ss + [s'], ps + [p], cs + [p];
    forall m | 0 <= m < |ps'| ensures Step(ss'[m], ps'[m], cs'[m], ss'[m + 1]) {
      if m < |ps| { assert Step(ss[m], ps[m], cs[m], ss[m + 1]); }
    }
  }

  lemma ReadyAt(s: State, p: nat)
    requires Inv(s) && p < |s.pc| && s.pc[p] == WaitSleep
    ensures Shape(s) && p < |s.st| && s.st[p] == Ready
  {
    assert ProcOk(s, p);
  }

  /** ... and each kill() that comes then leaves the killed process asleep: the run has this continuation. */
  lemma SleepsKilled(ss: seq<State>, ps: seq<nat>, cs: seq<nat>, p: nat)
    returns (ss': seq<State>, ps': seq<nat>, cs': seq<nat>)
    requires IsRun(ss, ps, cs) && p < |ss[|ps|].pc| && ss[|ps|].pc[p] == WaitSleep
    ensures IsRun(ss', ps', cs') && ss <= ss' && |ps'| == |ps| + 4
    ensures var s := ss'[|ps'|]; Shape(s) && p < |s.st| && s.st[p] == Sleeping && s.killed[p]
  {
    hide AllocStep, LinkStep, FailStep, StartStep, ExitStep, SkipStep, EnterStep, ScanStep, MoveStep, WakeStep, DieStep,
         LeaveStep, ReapStep, Inv;
    var s0 := ss[|ps|];
    RunKeeps(ss, ps, cs, |ps|);
    ReadyAt(s0, p);
    var s1 := s0.(killed := s0.killed[p := true]);
    assert KillStep(s0, p, s1);
    var s2 := At(s1, p, Drowsy);
    var s3 := At(s2, p, Dozing).(lock := None);
    assert DozeStep(s1, p, s2) && DozeStep(s2, p, s3);
    var s4 := At(s3, p, Marked).(st := s3.st[p := Sleeping]);
    assert SleepStep(s3, p, s4);
    Extend(ss, ps, cs, p, s1);
    Extend(ss + [s1], ps + [p], cs + [p], p, s2);
    Extend(ss + [s1] + [s2], ps + [p] + [p], cs + [p] + [p], p, s3);
    Extend(ss + [s1] + [s2] + [s3], ps + [p] + [p] + [p], cs + [p] + [p] + [p], p, s4);
    ss', ps', cs' := ss + [s1] + [s2] + [s3] + [s4], ps + [p] + [p] + [p] + [p], cs + [p] + [p] + [p] + [p];
  }
}
