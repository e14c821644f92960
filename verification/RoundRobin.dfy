/** The order of scheduler() in kernel/proc.c over whole runs: a CPU goes round the process table. */
module RoundRobin {
  import opened Common
  import opened SleepWakeup

  /** CPU c has p->lock of slot k and looks at its state. */
  ghost predicate Tests(s: State, s': State, c: nat, k: nat) {
    c < |s.cpu| && c < |s'.cpu| && s.cpu[c] == Seek(k) && s'.cpu[c] == Test(k)
  }

  /** One turn of the loop, seen from the CPU: it stays, or goes on with the slot it has, or to the next. */
  ghost predicate Turns(a: Cpu, b: Cpu, n: nat)
    requires n > 0
  {
    || b == a
    || match a
       case Seek(k) => b == Test(k)
       case Test(k) => b == On(k) || b == Seek(Next(k, n))
       case On(k) => b == Back(k)
       case Back(k) => b == Seek(Next(k, n))
  }

  /** The slot behind k, the first behind the last */
  function Next(k: nat, n: nat): nat { if k + 1 < n then k + 1 else 0 }

  lemma NextMod(k: nat, n: nat)
    requires k < n
    ensures (k + 1) % n == Next(k, n)
  {
  }

  /** The slot t places behind k */
  function After(k: nat, t: nat, n: nat): nat {
    if t == 0 then k else Next(After(k, t - 1, n), n)
  }

  lemma {:induction false} AfterIs(k: nat, t: nat, n: nat)
    requires k < n && t < n
    ensures After(k, t, n) == if k + t < n then k + t else k + t - n
  {
    if t > 0 { AfterIs(k, t - 1, n); }
  }

  lemma SchedulerTurns(s: State, c: nat, s': State)
    requires Shape(s) && c < |s.cpu| && SchedulerStep(s, c, s') && CpuOk(s, c) && |s.st| > 0
    ensures |s'.st| == |s.st| && |s'.cpu| == |s.cpu| && Turns(s.cpu[c], s'.cpu[c], |s.st|)
    ensures forall d :: 0 <= d < |s.cpu| && d != c ==> s'.cpu[d] == s.cpu[d]
  {
    if !s.cpu[c].On? { NextMod(s.cpu[c].k, |s.st|); }
  }

  lemma ProcTurns(s: State, c: nat, p: nat, s': State)
    requires Shape(s) && c < |s.cpu| && s.cpu[c] == On(p) && p < |s.st| && ProcStep(s, c, p, s')
    ensures |s'.st| == |s.st| && |s'.cpu| == |s.cpu| && Turns(s.cpu[c], s'.cpu[c], |s.st|)
    ensures forall d :: 0 <= d < |s.cpu| && d != c ==> s'.cpu[d] == s.cpu[d]
  {
  }

  lemma StepTurns(s: State, c: nat, s': State, d: nat)
    requires Step(s, c, s') && Inv(s) && |s.st| > 0 && d < |s.cpu|
    ensures |s'.st| == |s.st| && |s'.cpu| == |s.cpu| && Turns(s.cpu[d], s'.cpu[d], |s.st|)
  {
    hide SchedulerStep, ProcStep;
    assert CpuOk(s, c);
    if SchedulerStep(s, c, s') {
      SchedulerTurns(s, c, s');
    } else if s.cpu[c].On? && s.cpu[c].p < |s.st| && ProcStep(s, c, s.cpu[c].p, s') {
      ProcTurns(s, c, s.cpu[c].p, s');
    }
  }

  /** The CPU is about to test slot x, or busy with the one before it. */
  ghost predicate Heads(a: Cpu, x: nat, n: nat)
    requires n > 0
  {
    match a
    case Seek(k) => k == x
    case Test(k) => Next(k, n) == x
    case On(k) => Next(k, n) == x
    case Back(k) => Next(k, n) == x
  }

  /** Since CPU c looked at slot k in step m it has looked at k, k + 1, ... in turn, in the steps `at`. */
  ghost predicate Sweep(ss: seq<State>, m: nat, n: nat, c: nat, k: nat, size: nat, at: seq<nat>)
    requires n <= |ss|
  {
    && size > 0 && at != []
    && forall i :: 0 <= i < |at| ==>
         m <= at[i] < n && at[i] + 1 < |ss| && Tests(ss[at[i]], ss[at[i] + 1], c, After(k, i, size))
  }

  lemma {:induction false} Sweeps(ss: seq<State>, cs: seq<nat>, m: nat, n: nat, c: nat, k: nat) returns (at: seq<nat>)
    requires IsRun(ss, cs) && m < n <= |cs| && k < |ss[m].st| && Tests(ss[m], ss[m + 1], c, k)
    ensures |ss[n].st| == |ss[m].st| && c < |ss[n].cpu|
    ensures Sweep(ss, m, n, c, k, |ss[m].st|, at) && Heads(ss[n].cpu[c], After(k, |at|, |ss[m].st|), |ss[m].st|)
    decreases n
  {
    hide Init, Step, Inv;
    var size := |ss[m].st|;
    if n == m + 1 {
      RunKeeps(ss, cs, m);
      StepTurns(ss[m], cs[m], ss[m + 1], c);
      at := [m];
    } else {
      at := Sweeps(ss, cs, m, n - 1, c, k);
      RunKeeps(ss, cs, n - 1);
      StepTurns(ss[n - 1], cs[n - 1], ss[n], c);
      if Tests(ss[n - 1], ss[n], c, After(k, |at|, size)) { at := at + [n - 1]; }
    }
  }

  lemma WholeTurn(k: nat, t: nat, n: nat)
    requires k < n && After(k, t, n) == k
    ensures t == 0 || t >= n
  {
    if t < n { AfterIs(k, t, n); }
  }

  lemma Reaches(k: nat, j: nat, n: nat) returns (i: nat)
    requires k < n && j < n
    ensures i < n && After(k, i, n) == j
  {
    i := if k <= j then j - k else j + n - k;
    AfterIs(k, i, n);
  }

  /** When a CPU comes back to a slot, it has looked at every slot in between. */
  lemma EverySlot(ss: seq<State>, cs: seq<nat>, m: nat, n: nat, c: nat, k: nat, j: nat)
    requires IsRun(ss, cs) && m < n < |cs| && k < |ss[m].st| && j < |ss[m].st|
    requires Tests(ss[m], ss[m + 1], c, k) && Tests(ss[n], ss[n + 1], c, k)
    ensures exists i :: m <= i < n && Tests(ss[i], ss[i + 1], c, j)
  {
    hide Init, Step;
    var at := Sweeps(ss, cs, m, n, c, k);
    WholeTurn(k, |at|, |ss[m].st|);
    var i := Reaches(k, j, |ss[m].st|);
    assert m <= at[i] < n && Tests(ss[at[i]], ss[at[i] + 1], c, j);
  }
}
