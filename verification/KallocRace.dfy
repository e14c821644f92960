/** kernel/kalloc.c under any number of concurrent callers.  A section under kmem.lock is one
    step; kfree() drops the lock between its two sections and scrubs the page in between. */
module KallocRace {

  datatype State = State(
    refcnt: map<nat, nat>,     // the refcnt[] array, over the managed frames
    free: seq<nat>,            // kmem.freelist
    scrub: multiset<nat>,      // kfree() calls between their two locked sections
    refs: multiset<nat>,       // references the rest of the kernel can still drop
    lost: multiset<nat>)       // references it forgot

  /** One locked section, by any thread. */
  datatype Event =
    | Alloc                    // kalloc()
    | Increse(f: nat)          // increse(), by a holder of a reference
    | FreeFirst(f: nat)        // kfree() up to its first release
    | FreeSecond(f: nat)       // kfree() from its second acquire
    | Forget(f: nat)           // uvmcopy()'s error exit: the raised count is not lowered again

  datatype Result = Panic | Next(s: State)

  /** What callers owe: they drop or duplicate only references they have. */
  predicate Enabled(s: State, e: Event) {
    match e
    case Alloc => true
    case Increse(f) => f in s.refs
    case FreeFirst(f) => f in s.refs
    case FreeSecond(f) => f in s.scrub
    case Forget(f) => f in s.refs
  }

  function Exec(s: State, e: Event): Result
    requires Enabled(s, e)
  {
    match e
    case Alloc =>
      if s.free == [] then Next(s)
      else
        var f := s.free[0];
        if f !in s.refcnt || s.refcnt[f] != 0 then Panic        // "refcnt kalloc"
        else Next(s.(refcnt := s.refcnt[f := 1], free := s.free[1..], refs := s.refs + multiset{f}))
    case Increse(f) =>
      if f !in s.refcnt || s.refcnt[f] < 1 then Panic           // "increase ref cnt"
      else Next(s.(refcnt := s.refcnt[f := s.refcnt[f] + 1], refs := s.refs + multiset{f}))
    case FreeFirst(f) =>
      if f !in s.refcnt || s.refcnt[f] < 1 then Panic           // "kfree panic"
      else
        var n := s.refcnt[f] - 1;
        Next(s.(refcnt := s.refcnt[f := n], refs := s.refs - multiset{f},
                scrub := if n > 0 then s.scrub else s.scrub + multiset{f}))
    case FreeSecond(f) =>
      Next(s.(free := [f] + s.free, scrub := s.scrub - multiset{f}))
    case Forget(f) =>
      Next(s.(refs := s.refs - multiset{f}, lost := s.lost + multiset{f}))
  }

  /** Each managed page is exactly one of: on the free list once; being scrubbed by exactly one
      kfree(); or referenced, with a count that covers its references. */
  ghost predicate PageOk(s: State, f: nat)
    requires f in s.refcnt
  {
    && s.refcnt[f] == s.refs[f] + s.lost[f]
    && (if s.refcnt[f] > 0 then multiset(s.free)[f] == 0 && s.scrub[f] == 0
        else multiset(s.free)[f] + s.scrub[f] == 1)
  }

  ghost predicate Inv(s: State) {
    && (forall f {:trigger PageOk(s, f)} :: f in s.refcnt ==> PageOk(s, f))
    && (forall f :: f in multiset(s.free) || f in s.scrub || f in s.refs || f in s.lost ==> f in s.refcnt)
  }

  lemma AllocKeeps(s: State)
    requires Inv(s)
    ensures Exec(s, Alloc).Next? && Inv(Exec(s, Alloc).s)
  {
    if s.free != [] {
      var f := s.free[0];
      assert s.free == [f] + s.free[1..];
      assert f in multiset(s.free);
      assert PageOk(s, f);
      var t := Exec(s, Alloc).s;
      forall g | g in t.refcnt ensures PageOk(t, g) { assert PageOk(s, g); }
    }
  }

  lemma IncreseKeeps(s: State, f: nat)
    requires Inv(s) && f in s.refs
    ensures Exec(s, Increse(f)).Next? && Inv(Exec(s, Increse(f)).s)
  {
    assert PageOk(s, f);
    var t := Exec(s, Increse(f)).s;
    forall g | g in t.refcnt ensures PageOk(t, g) { assert PageOk(s, g); }
  }

  lemma FreeFirstKeeps(s: State, f: nat)
    requires Inv(s) && f in s.refs
    ensures Exec(s, FreeFirst(f)).Next? && Inv(Exec(s, FreeFirst(f)).s)
  {
    assert PageOk(s, f);
    var t := Exec(s, FreeFirst(f)).s;
    forall g | g in t.refcnt ensures PageOk(t, g) { assert PageOk(s, g); }
  }

  lemma FreeSecondKeeps(s: State, f: nat)
    requires Inv(s) && f in s.scrub
    ensures Exec(s, FreeSecond(f)).Next? && Inv(Exec(s, FreeSecond(f)).s)
  {
    assert PageOk(s, f);
    var t := Exec(s, FreeSecond(f)).s;
    forall g | g in t.refcnt ensures PageOk(t, g) { assert PageOk(s, g); }
  }

  lemma ForgetKeeps(s: State, f: nat)
    requires Inv(s) && f in s.refs
    ensures Exec(s, Forget(f)).Next? && Inv(Exec(s, Forget(f)).s)
  {
    var t := Exec(s, Forget(f)).s;
    forall g | g in t.refcnt ensures PageOk(t, g) { assert PageOk(s, g); }
  }

  /** No panic of the allocator is reachable, and every step keeps the accounting. */
  lemma StepKeeps(s: State, e: Event)
    requires Inv(s) && Enabled(s, e)
    ensures Exec(s, e).Next? && Inv(Exec(s, e).s)
    ensures !e.Forget? ==> Exec(s, e).s.lost == s.lost
  {
    hide Inv;
    match e
    case Alloc => AllocKeeps(s);
    case Increse(f) => IncreseKeeps(s, f);
    case FreeFirst(f) => FreeFirstKeeps(s, f);
    case FreeSecond(f) => FreeSecondKeeps(s, f);
    case Forget(f) => ForgetKeeps(s, f);
  }

  /** The states of a run: each event is one its caller may issue. */
  ghost predicate IsRun(states: seq<State>, events: seq<Event>) {
    && |states| == |events| + 1
    && forall i :: 0 <= i < |events| ==>
        Enabled(states[i], events[i]) && Exec(states[i], events[i]) == Next(states[i + 1])
  }

  /** Over every interleaving the accounting holds in every state; with no forgotten reference
      every count is exactly the number of references. */
  lemma {:induction false} RunKeeps(states: seq<State>, events: seq<Event>, k: nat)
    requires IsRun(states, events) && Inv(states[0]) && k <= |events|
    ensures Inv(states[k])
    ensures (forall i :: 0 <= i < |events| ==> !events[i].Forget?) && states[0].lost == multiset{} ==>
              states[k].lost == multiset{} && forall f :: f in states[k].refcnt ==>
                  states[k].refcnt[f] == states[k].refs[f]
  {
    if k > 0 {
      RunKeeps(states, events, k - 1);
      StepKeeps(states[k - 1], events[k - 1]);
    }
    forall f | f in states[k].refcnt ensures states[k].refcnt[f] == states[k].refs[f] + states[k].lost[f] {
      assert PageOk(states[k], f);
    }
  }

  /** A page being scrubbed is nobody's: no live data is overwritten in the unlocked window. */
  lemma ScrubbedIsUnreferenced(s: State, f: nat)
    requires Inv(s) && f in s.scrub
    ensures f !in s.refs && f !in s.free && s.scrub[f] == 1 && s.refcnt[f] == 0
  {
    assert PageOk(s, f);
  }

  /** With a forgotten reference the count stays above the references for good: the page can
      never again reach the free list. */
  lemma {:induction false} ForgottenStays(states: seq<State>, events: seq<Event>, f: nat, k: nat)
    requires IsRun(states, events) && Inv(states[0]) && k <= |events| && f in states[0].lost
    ensures f in states[k].lost && f in states[k].refcnt && states[k].refcnt[f] > 0 && f !in states[k].free
  {
    RunKeeps(states, events, k);
    if k > 0 {
      ForgottenStays(states, events, f, k - 1);
    }
    assert PageOk(states[k], f);
  }
}
