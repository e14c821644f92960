/** The inode table of kernel/fs.c as steps: what a process does under itable.lock, under an inode's
    sleep lock, or in the window that iput() leaves between the two. */
module ItableSpec {
  import opened Common

  /** struct dinode: its type, link count, and the rest */
  datatype Dinode = Dinode(kind: nat, nlink: nat, rest: nat)

  /** struct inode without its lock */
  datatype Entry = Entry(inum: nat, ref: nat, valid: bool, mem: Dinode)

  /** Where the lock holder is in iput(): Freeing from acquiresleep() on, Gone once type 0 is on disk,
      Blank once ip->valid is 0.  After releasesleep() it is among `leaving`, with ip->ref-- to go. */
  datatype Phase = Normal | Freeing | Gone | Blank

  /** `holders` are the references to an entry, each a token; `lock` is the one holding ip->lock, and
      `dirty` says that it has changed the inode since the last iupdate().  `marked` are the inodes that
      ialloc() has marked on disk and not yet got an entry for. */
  datatype State = State(entry: seq<Entry>, disk: seq<Dinode>, holders: seq<set<nat>>, lock: seq<Option<nat>>,
                         dirty: seq<bool>, phase: seq<Phase>, leaving: seq<set<nat>>, marked: set<nat>)

  ghost predicate Shape(s: State) {
    |s.holders| == |s.lock| == |s.dirty| == |s.phase| == |s.leaving| == |s.entry|
  }

  ghost predicate EntryOk(s: State, e: nat)
    requires Shape(s) && e < |s.entry|
  {
    var x := s.entry[e];
    && x.ref == |s.holders[e]|
    && s.leaving[e] <= s.holders[e]
    && (s.lock[e].Some? ==> s.lock[e].value in s.holders[e] && s.lock[e].value !in s.leaving[e])
    && (s.lock[e].None? ==> !s.dirty[e] && s.phase[e] == Normal)
    && (x.ref > 0 ==> x.inum < |s.disk|)
    && (s.dirty[e] ==> x.valid && (s.phase[e] == Normal || s.phase[e] == Freeing))
    && (x.ref > 0 && x.valid && s.phase[e] != Gone ==>
          x.mem.kind != 0 && s.disk[x.inum].kind != 0 && (!s.dirty[e] ==> x.mem == s.disk[x.inum]))
    && (s.phase[e] == Freeing || s.phase[e] == Gone ==> x.valid)
    && (s.phase[e] == Blank ==> !x.valid)
  }

  ghost predicate Different(s: State, e: nat, f: nat)
    requires e < |s.entry| && f < |s.entry|
  {
    s.entry[e].ref > 0 && s.entry[f].ref > 0 && e != f ==> s.entry[e].inum != s.entry[f].inum
  }

  ghost predicate Inv(s: State) {
    && Shape(s)
    && (forall e {:trigger EntryOk(s, e)} :: 0 <= e < |s.entry| ==> EntryOk(s, e))
    && (forall e, f {:trigger Different(s, e, f)} :: 0 <= e < |s.entry| && 0 <= f < |s.entry| ==> Different(s, e, f))
  }

  // ----- the steps, for token t and entry e -----

  /** iget() finds the inode, or idup() */
  ghost function Share(s: State, e: nat, t: nat): State
    requires Shape(s) && e < |s.entry|
  {
    s.(entry := s.entry[e := s.entry[e].(ref := s.entry[e].ref + 1)], holders := s.holders[e := s.holders[e] + {t}],
       marked := s.marked - {s.entry[e].inum})
  }

  /** iget() recycles a free entry */
  ghost function Recycle(s: State, e: nat, t: nat, inum: nat): State
    requires Shape(s) && e < |s.entry|
  {
    s.(entry := s.entry[e := s.entry[e].(inum := inum, ref := 1, valid := false)], holders := s.holders[e := {t}],
       marked := s.marked - {inum})
  }

  /** acquiresleep() in ilock(), or in iput() for the last reference to an inode without links */
  ghost function Lock(s: State, e: nat, t: nat, phase: Phase): State
    requires Shape(s) && e < |s.entry|
  {
    s.(lock := s.lock[e := Some(t)], phase := s.phase[e := phase])
  }

  /** ilock() reads the inode */
  ghost function Load(s: State, e: nat): State
    requires Shape(s) && e < |s.entry| && s.entry[e].inum < |s.disk|
  {
    s.(entry := s.entry[e := s.entry[e].(mem := s.disk[s.entry[e].inum], valid := true)])
  }

  /** The lock holder changes the inode in memory. */
  ghost function Change(s: State, e: nat, d: Dinode): State
    requires Shape(s) && e < |s.entry|
  {
    s.(entry := s.entry[e := s.entry[e].(mem := d)], dirty := s.dirty[e := true])
  }

  /** iupdate() */
  ghost function Update(s: State, e: nat): State
    requires Shape(s) && e < |s.entry| && s.entry[e].inum < |s.disk|
  {
    s.(disk := s.disk[s.entry[e].inum := s.entry[e].mem], dirty := s.dirty[e := false])
  }

  /** iput() writes type 0 to disk */
  ghost function Free(s: State, e: nat): State
    requires Shape(s) && e < |s.entry| && s.entry[e].inum < |s.disk|
  {
    var d := s.entry[e].mem.(kind := 0);
    s.(entry := s.entry[e := s.entry[e].(mem := d)], disk := s.disk[s.entry[e].inum := d], dirty := s.dirty[e := false],
       phase := s.phase[e := Gone])
  }

  /** iput(): ip->valid = 0 */
  ghost function Clear(s: State, e: nat): State
    requires Shape(s) && e < |s.entry|
  {
    s.(entry := s.entry[e := s.entry[e].(valid := false)], phase := s.phase[e := Blank])
  }

  /** releasesleep() in iunlock() */
  ghost function Unlock(s: State, e: nat): State
    requires Shape(s) && e < |s.entry|
  {
    s.(lock := s.lock[e := None], phase := s.phase[e := Normal])
  }

  /** releasesleep() in iput() */
  ghost function Close(s: State, e: nat): State
    requires Shape(s) && e < |s.entry| && s.lock[e].Some?
  {
    s.(lock := s.lock[e := None], phase := s.phase[e := Normal], leaving :=
        s.leaving[e := s.leaving[e] + {s.lock[e].value}])
  }

  /** iput(): ip->ref--, at once or after the window */
  ghost function Drop(s: State, e: nat, t: nat): State
    requires Shape(s) && e < |s.entry| && s.entry[e].ref > 0
  {
    s.(entry := s.entry[e := s.entry[e].(ref := s.entry[e].ref - 1)], holders := s.holders[e := s.holders[e] - {t}],
       leaving := s.leaving[e := s.leaving[e] - {t}])
  }

  /** ialloc(): an inode of type 0 on disk is given a type and cleared */
  ghost function Allocate(s: State, inum: nat, kind: nat): State
    requires inum < |s.disk|
  {
    s.(disk := s.disk[inum := Dinode(kind, 0, 0)], marked := s.marked + {inum})
  }

  datatype Event =
    | Shared(e: nat, t: nat) | Recycled(e: nat, t: nat, inum: nat) | Locked(e: nat, t: nat) | Loaded(e: nat)
    | Changed(e: nat, d: Dinode) | Updated(e: nat) | Unlocked(e: nat) | Dropped(e: nat, t: nat)
    | LastPut(e: nat, t: nat) | Freed(e: nat) | Cleared(e: nat) | Closed(e: nat) | Left(e: nat, t: nat)
    | Allocated(e: nat, inum: nat, kind: nat)

  /** The test in iput() */
  predicate LastUnlinked(x: Entry) { x.ref == 1 && x.valid && x.mem.nlink == 0 }

  /** When the code takes each step; a load of type 0 would be the panic "ilock: no type". */
  ghost predicate Enabled(s: State, v: Event) {
    && Shape(s) && v.e < |s.entry|
    && match v
       case Shared(e, t) => s.entry[e].ref > 0 && t !in s.holders[e]
       case Recycled(e, t, i) => s.entry[e].ref == 0 && i < |s.disk| && Unused(s, i)
       case Locked(e, t) => t in s.holders[e] && t !in s.leaving[e] && s.lock[e] == None
       case Loaded(e) =>
         && s.lock[e].Some? && s.phase[e] == Normal && !s.entry[e].valid
         && s.entry[e].inum < |s.disk| && s.disk[s.entry[e].inum].kind != 0
       case Changed(e, d) => s.lock[e].Some? && s.entry[e].valid && s.phase[e] in {Normal, Freeing} && d.kind != 0
       case Updated(e) =>
         s.lock[e].Some? && s.entry[e].valid && s.phase[e] in {Normal, Freeing} && s.entry[e].inum < |s.disk|
       case Unlocked(e) => s.lock[e].Some? && !s.dirty[e] && s.phase[e] == Normal
       case Dropped(e, t) => Putting(s, e, t) && !LastUnlinked(s.entry[e])
       case LastPut(e, t) => Putting(s, e, t) && LastUnlinked(s.entry[e])
       case Freed(e) => s.lock[e].Some? && s.phase[e] == Freeing && s.entry[e].inum < |s.disk|
       case Cleared(e) => s.lock[e].Some? && s.phase[e] == Gone
       case Closed(e) => s.lock[e].Some? && s.phase[e] == Blank
       case Left(e, t) => t in s.leaving[e] && s.entry[e].ref > 0
       case Allocated(_, i, k) => i < |s.disk| && s.disk[i].kind == 0 && k != 0
  }

  /** No entry in use is for inode i. */
  ghost predicate Unused(s: State, i: nat) {
    forall f :: 0 <= f < |s.entry| && s.entry[f].ref > 0 ==> s.entry[f].inum != i
  }

  /** A process at the start of iput() */
  ghost predicate Putting(s: State, e: nat, t: nat)
    requires Shape(s) && e < |s.entry|
  {
    t in s.holders[e] && t !in s.leaving[e] && s.lock[e] != Some(t) && s.entry[e].ref > 0
  }

  ghost function After(s: State, v: Event): State
    requires Enabled(s, v)
  {
    match v
    case Shared(e, t) => Share(s, e, t)
    case Recycled(e, t, i) => Recycle(s, e, t, i)
    case Locked(e, t) => Lock(s, e, t, Normal)
    case Loaded(e) => Load(s, e)
    case Changed(e, d) => Change(s, e, d)
    case Updated(e) => Update(s, e)
    case Unlocked(e) => Unlock(s, e)
    case Dropped(e, t) => Drop(s, e, t)
    case LastPut(e, t) => Lock(s, e, t, Freeing)
    case Freed(e) => Free(s, e)
    case Cleared(e) => Clear(s, e)
    case Closed(e) => Close(s, e)
    case Left(e, t) => Drop(s, e, t)
    case Allocated(_, i, k) => Allocate(s, i, k)
  }

  // ----- every step keeps the invariant -----

  lemma StepOwn(s: State, v: Event)
    requires Enabled(s, v) && EntryOk(s, v.e)
    ensures Shape(After(s, v)) && |After(s, v).entry| == |s.entry| && EntryOk(After(s, v), v.e)
  {
    if v.Dropped? || v.Left? || v.LastPut? { PutOwn(s, v); }
  }

  lemma PutOwn(s: State, v: Event)
    requires Enabled(s, v) && EntryOk(s, v.e) && (v.Dropped? || v.Left? || v.LastPut?)
    ensures Shape(After(s, v)) && |After(s, v).entry| == |s.entry| && EntryOk(After(s, v), v.e)
  {
    assert s.holders[v.e] == (s.holders[v.e] - {v.t}) + {v.t};
    if v.LastPut? { LastIsUnlocked(s, v.e, v.t); }
  }

  lemma StepOther(s: State, v: Event, f: nat)
    requires Enabled(s, v) && f < |s.entry| && f != v.e && EntryOk(s, v.e) && EntryOk(s, f) && Different(s, v.e, f)
    ensures Shape(After(s, v)) && |After(s, v).entry| == |s.entry| && EntryOk(After(s, v), f)
  {
  }

  /** The only reference is not the lock holder's, so nobody holds the lock: acquiresleep() in iput()
      does not block. */
  lemma LastIsUnlocked(s: State, e: nat, t: nat)
    requires Shape(s) && e < |s.entry| && EntryOk(s, e) && t in s.holders[e] && s.entry[e].ref == 1
             && s.lock[e] != Some(t)
    ensures s.lock[e] == None
  {
    assert s.holders[e] == {t} + (s.holders[e] - {t});
    assert |s.holders[e] - {t}| == 0;
  }

  lemma StepDifferent(s: State, v: Event, f: nat, g: nat)
    requires Enabled(s, v) && f < |s.entry| && g < |s.entry| && Different(s, f, g) && EntryOk(s, v.e)
    ensures |After(s, v).entry| == |s.entry| && Different(After(s, v), f, g)
  {
  }

  lemma StepKeeps(s: State, v: Event)
    requires Inv(s) && Enabled(s, v)
    ensures Inv(After(s, v))
  {
    hide EntryOk, Different;
    var s' := After(s, v);
    assert EntryOk(s, v.e);
    StepOwn(s, v);
    forall f | 0 <= f < |s'.entry| ensures EntryOk(s', f) {
      if f != v.e { assert EntryOk(s, f) && Different(s, v.e, f); StepOther(s, v, f); }
    }
    forall f, g | 0 <= f < |s'.entry| && 0 <= g < |s'.entry| ensures Different(s', f, g) {
      assert Different(s, f, g); StepDifferent(s, v, f, g); }
  }

  // ----- whole runs -----

  ghost predicate IsRun(ss: seq<State>, vs: seq<Event>) {
    && |ss| == |vs| + 1 && Shape(ss[0])
    && (forall e :: 0 <= e < |ss[0].entry| ==> Initial(ss[0], e))
    && forall m :: 0 <= m < |vs| ==> Enabled(ss[m], vs[m]) && ss[m + 1] == After(ss[m], vs[m])
  }

  ghost predicate Initial(s: State, e: nat)
    requires Shape(s) && e < |s.entry|
  {
    && s.entry[e].ref == 0 && s.holders[e] == {} && s.lock[e] == None && !s.dirty[e] && s.phase[e] == Normal
    && s.leaving[e] == {}
  }

  lemma {:induction false} RunKeeps(ss: seq<State>, vs: seq<Event>, m: nat)
    requires IsRun(ss, vs) && m <= |vs|
    ensures Inv(ss[m])
  {
    if m == 0 {
      forall e | 0 <= e < |ss[0].entry| ensures EntryOk(ss[0], e) { assert Initial(ss[0], e); }
      forall e, f | 0 <= e < |ss[0].entry| && 0 <= f < |ss[0].entry| ensures Different(ss[0], e, f) {
        assert Initial(ss[0], e);
      }
    } else {
      RunKeeps(ss, vs, m - 1);
      StepKeeps(ss[m - 1], vs[m - 1]);
    }
  }

  /** At most one entry in use per inode, and an entry nobody has locked that is valid is the inode on
      disk; so is a locked one its holder has not changed, outside the freeing in iput(). */
  lemma Coherent(ss: seq<State>, vs: seq<Event>, m: nat, e: nat, f: nat)
    requires IsRun(ss, vs) && m <= |vs| && e < |ss[m].entry| && f < |ss[m].entry|
    ensures Shape(ss[m])
    ensures ss[m].entry[e].ref > 0 && ss[m].entry[f].ref > 0 && ss[m].entry[e].inum == ss[m].entry[f].inum ==> e == f
    ensures ss[m].entry[e].ref > 0 && ss[m].entry[e].valid
            && (ss[m].lock[e] == None || (!ss[m].dirty[e] && ss[m].phase[e] == Normal)) ==>
              ss[m].entry[e].inum < |ss[m].disk| && ss[m].entry[e].mem == ss[m].disk[ss[m].entry[e].inum]
  {
    RunKeeps(ss, vs, m);
    assert EntryOk(ss[m], e) && Different(ss[m], e, f);
  }

  /** An inode given out again by ialloc(), at step m, while iput() still has a reference to its entry:
      whoever finds a valid entry for it later finds what was read from disk since, except the process
      in iput() that is about to make it not valid. */
  lemma {:induction false} ReallocatedIsReread(ss: seq<State>, vs: seq<Event>, m: nat, n: nat, e: nat)
    requires IsRun(ss, vs) && m < n <= |vs| && vs[m].Allocated? && e < |ss[n].entry|
    requires ss[n].entry[e].ref > 0 && ss[n].entry[e].inum == vs[m].inum && ss[n].entry[e].valid
    ensures Shape(ss[n])
    ensures ss[n].phase[e] == Gone || exists k :: m < k < n && Reads(ss[k], vs[k], e, vs[m].inum)
    decreases n
  {
    hide Inv, EntryOk, After, Enabled;
    RunInv(ss, vs, n, e);
    RunInv(ss, vs, n - 1, e);
    assert Enabled(ss[n - 1], vs[n - 1]) && ss[n] == After(ss[n - 1], vs[n - 1]);
    if n == m + 1 {
      SameEntry(ss[m], vs[m]);
      AllocatedGone(ss[m], vs[m], e);
    } else {
      StepReads(ss[n - 1], vs[n - 1], e);
      if !Reads(ss[n - 1], vs[n - 1], e, vs[m].inum) {
        ReallocatedIsReread(ss, vs, m, n - 1, e);
      }
    }
  }

  lemma RunInv(ss: seq<State>, vs: seq<Event>, n: nat, e: nat)
    requires IsRun(ss, vs) && n <= |vs| && e < |ss[n].entry|
    ensures Shape(ss[n]) && EntryOk(ss[n], e) && (n > 0 ==> |ss[n - 1].entry| == |ss[n].entry|)
  {
    RunKeeps(ss, vs, n);
    if n > 0 { RunKeeps(ss, vs, n - 1); }
  }

  lemma SameEntry(s: State, v: Event)
    requires Enabled(s, v) && v.Allocated?
    ensures After(s, v).entry == s.entry
  {
  }

  /** ilock() reads inode i from disk into entry e. */
  ghost predicate Reads(s: State, v: Event, e: nat, i: nat) {
    v == Loaded(e) && e < |s.entry| && s.entry[e].inum == i
  }

  /** Only ilock() makes an entry valid, and only iput() ends Gone, by making it not valid. */
  lemma StepReads(s: State, v: Event, e: nat)
    requires Enabled(s, v) && e < |s.entry| && EntryOk(s, e)
    requires var s' := After(s, v); e < |s'.entry| && s'.entry[e].ref > 0 && s'.entry[e].valid
    ensures var s' := After(s, v);
            Shape(s') && (Reads(s, v, e, s'.entry[e].inum)
              || (s.entry[e].valid && s.entry[e].ref > 0 && s.entry[e].inum == s'.entry[e].inum
                  && (s.phase[e] == Gone ==> s'.phase[e] == Gone)))
  {
    if v.LastPut? && v.e == e { LastIsUnlocked(s, e, v.t); }
  }

  /** An inode that ialloc() finds free is valid in no entry, except in iput() just before that ends. */
  lemma AllocatedGone(s: State, v: Event, e: nat)
    requires Enabled(s, v) && v.Allocated? && e < |s.entry| && EntryOk(s, e)
    requires s.entry[e].ref > 0 && s.entry[e].inum == v.inum && s.entry[e].valid
    ensures s.phase[e] == Gone && After(s, v).phase == s.phase && After(s, v).entry == s.entry
  {
  }

  // ----- inodes that nobody will free -----

  /** On disk the inode has a type but no links, and no process refers to it: nothing will ever free it. */
  ghost predicate Orphan(s: State, i: nat) {
    i < |s.disk| && s.disk[i].kind != 0 && s.disk[i].nlink == 0 && i !in s.marked && Unused(s, i)
  }

  /** The last reference to an inode with a type and no links is dropped without the test of iput():
      after its window, or because the entry is not valid. */
  ghost predicate Abandons(s: State, v: Event, i: nat) {
    && Shape(s) && (v.Left? || v.Dropped?) && v.e < |s.entry| && s.entry[v.e].ref == 1 && s.entry[v.e].inum == i
    && i < |s.disk| && s.disk[i].kind != 0 && s.disk[i].nlink == 0 && i !in s.marked
    && (v.Left? || !s.entry[v.e].valid)
  }

  /** A step orphans an inode exactly when it abandons it. */
  lemma OrphanedExactly(s: State, v: Event, i: nat)
    requires Inv(s) && Enabled(s, v) && !Orphan(s, i)
    ensures Orphan(After(s, v), i) <==> Abandons(s, v, i)
  {
    var s' := After(s, v);
    assert EntryOk(s, v.e);
    if Abandons(s, v, i) {
      forall f | 0 <= f < |s'.entry| && s'.entry[f].ref > 0 ensures s'.entry[f].inum != i {
        assert Different(s, v.e, f); }
    }
    if Orphan(s', i) {
      if v.Left? || v.Dropped? {
        if s.entry[v.e].inum != i || s.entry[v.e].ref > 1 { StillUsed(s, v, i); }
        if v.Dropped? && s.entry[v.e].valid { DroppedValid(s, v); }
      } else {
        NotByOthers(s, v, i);
      }
    }
  }

  /** A drop leaves an inode in use unless it was the last one. */
  lemma StillUsed(s: State, v: Event, i: nat)
    requires Inv(s) && Enabled(s, v) && (v.Left? || v.Dropped?) && !Unused(s, i)
    requires s.entry[v.e].inum != i || s.entry[v.e].ref > 1
    ensures !Unused(After(s, v), i)
  {
    var f :| 0 <= f < |s.entry| && s.entry[f].ref > 0 && s.entry[f].inum == i;
    assert After(s, v).entry[f].ref > 0 && After(s, v).entry[f].inum == i;
  }

  /** The test of iput() keeps it from dropping the last reference to a valid inode without links. */
  lemma DroppedValid(s: State, v: Event)
    requires Inv(s) && Enabled(s, v) && v.Dropped? && s.entry[v.e].ref == 1 && s.entry[v.e].valid
    ensures s.entry[v.e].inum < |s.disk| && s.disk[s.entry[v.e].inum].nlink != 0
  {
    assert EntryOk(s, v.e);
    LastIsUnlocked(s, v.e, v.t);
  }

  lemma Referred(s: State, e: nat, t: nat)
    requires Shape(s) && e < |s.entry| && EntryOk(s, e) && t in s.holders[e]
    ensures s.entry[e].ref > 0
  {
    assert s.holders[e] == (s.holders[e] - {t}) + {t};
  }

  lemma NotByOthers(s: State, v: Event, i: nat)
    requires Inv(s) && Enabled(s, v) && !v.Left? && !v.Dropped? && !Orphan(s, i)
    ensures !Orphan(After(s, v), i)
  {
    var s' := After(s, v);
    assert EntryOk(s, v.e);
    if !Unused(s, i) {
      var f :| 0 <= f < |s.entry| && s.entry[f].ref > 0 && s.entry[f].inum == i;
      assert s'.entry[f].ref > 0 && s'.entry[f].inum == i;
    } else if v.Recycled? {
      assert s'.entry[v.e].ref > 0 && s'.entry[v.e].inum == v.inum;
    } else if s.lock[v.e].Some? {
      Referred(s, v.e, s.lock[v.e].value);
    }
  }

  /** Without such a step no inode is ever orphaned. */
  lemma {:induction false} NoOrphans(ss: seq<State>, vs: seq<Event>, m: nat, i: nat)
    requires IsRun(ss, vs) && m <= |vs| && !Orphan(ss[0], i)
    requires forall k :: 0 <= k < m ==> !Abandons(ss[k], vs[k], i)
    ensures !Orphan(ss[m], i)
  {
    if m > 0 {
      NoOrphans(ss, vs, m - 1, i);
      RunKeeps(ss, vs, m - 1);
      OrphanedExactly(ss[m - 1], vs[m - 1], i);
    }
  }

  /** After the window of iput(), an entry that its test would find to be the last one without links is
      orphaned by the unconditional ip->ref--, and one with links or further references is not. */
  lemma TailOrphansExactly(s: State, e: nat, t: nat)
    requires Inv(s) && Enabled(s, Left(e, t)) && s.entry[e].valid && s.entry[e].inum !in s.marked
    ensures Orphan(After(s, Left(e, t)), s.entry[e].inum) <==> LastUnlinked(s.entry[e])
  {
    assert EntryOk(s, e);
    if s.entry[e].ref == 1 { LastIsUnlocked(s, e, t); }
    OrphanedExactly(s, Left(e, t), s.entry[e].inum);
  }

  // ----- such a run: process 0 unlinks and frees inode 1, process 1 allocates it and gives up -----

  ghost function At(x: Entry, d: Dinode, holders: set<nat>, lock: Option<nat>, dirty: bool, phase: Phase,
                    leaving: set<nat>, marked: set<nat>): State
  {
    State([x], [Dinode(0, 0, 0), d], [holders], [lock], [dirty], [phase], [leaving], marked)
  }

  const FREE := Dinode(0, 0, 0)
  const LINKED := Dinode(2, 1, 0)
  const UNLINKED := Dinode(2, 0, 0)
  const TYPED := Dinode(3, 0, 0)

  /** Process 0 gets the inode, removes its only link and goes through the window of iput(); process 1
      allocates the inode, reads it and gives it up; process 0 drops the reference it still has. */
  ghost function Stage(k: nat): State {
    if k == 0 then At(Entry(0, 0, false, FREE), LINKED, {}, None, false, Normal, {}, {})
    else if k == 1 then At(Entry(1, 1, false, FREE), LINKED, {0}, None, false, Normal, {}, {})
    else if k == 2 then At(Entry(1, 1, false, FREE), LINKED, {0}, Some(0), false, Normal, {}, {})
    else if k == 3 then At(Entry(1, 1, true, LINKED), LINKED, {0}, Some(0), false, Normal, {}, {})
    else if k == 4 then At(Entry(1, 1, true, UNLINKED), LINKED, {0}, Some(0), true, Normal, {}, {})
    else if k == 5 then At(Entry(1, 1, true, UNLINKED), UNLINKED, {0}, Some(0), false, Normal, {}, {})
    else if k == 6 then At(Entry(1, 1, true, UNLINKED), UNLINKED, {0}, None, false, Normal, {}, {})
    else if k == 7 then At(Entry(1, 1, true, UNLINKED), UNLINKED, {0}, Some(0), false, Freeing, {}, {})
    else if k == 8 then At(Entry(1, 1, true, FREE), FREE, {0}, Some(0), false, Gone, {}, {})
    else if k == 9 then At(Entry(1, 1, false, FREE), FREE, {0}, Some(0), false, Blank, {}, {})
    else if k == 10 then At(Entry(1, 1, false, FREE), FREE, {0}, None, false, Normal, {0}, {})
    else if k == 11 then At(Entry(1, 1, false, FREE), TYPED, {0}, None, false, Normal, {0}, {1})
    else if k == 12 then At(Entry(1, 2, false, FREE), TYPED, {0, 1}, None, false, Normal, {0}, {})
    else if k == 13 then At(Entry(1, 2, false, FREE), TYPED, {0, 1}, Some(1), false, Normal, {0}, {})
    else if k == 14 then At(Entry(1, 2, true, TYPED), TYPED, {0, 1}, Some(1), false, Normal, {0}, {})
    else if k == 15 then At(Entry(1, 2, true, TYPED), TYPED, {0, 1}, None, false, Normal, {0}, {})
    else if k == 16 then At(Entry(1, 1, true, TYPED), TYPED, {0}, None, false, Normal, {0}, {})
    else At(Entry(1, 0, true, TYPED), TYPED, {}, None, false, Normal, {}, {})
  }

  ghost function Act(k: nat): Event {
    if k == 0 then Recycled(0, 0, 1)
    else if k == 1 then Locked(0, 0)
    else if k == 2 then Loaded(0)
    else if k == 3 then Changed(0, UNLINKED)
    else if k == 4 then Updated(0)
    else if k == 5 then Unlocked(0)
    else if k == 6 then LastPut(0, 0)
    else if k == 7 then Freed(0)
    else if k == 8 then Cleared(0)
    else if k == 9 then Closed(0)
    else if k == 10 then Allocated(0, 1, 3)
    else if k == 11 then Shared(0, 1)
    else if k == 12 then Locked(0, 1)
    else if k == 13 then Loaded(0)
    else if k == 14 then Unlocked(0)
    else if k == 15 then Dropped(0, 1)
    else Left(0, 0)
  }

  ghost predicate Hop(k: nat) {
    Enabled(Stage(k), Act(k)) && Stage(k + 1) == After(Stage(k), Act(k))
  }

  lemma Getting()
    ensures Hop(0) && Hop(1) && Hop(2)
  {
  }

  lemma Unlinking()
    ensures Hop(3) && Hop(4) && Hop(5)
  {
  }

  lemma Opening()
    ensures Hop(6) && Hop(7)
  {
  }

  lemma Closing()
    ensures Hop(8) && Hop(9)
  {
    var none: set<nat> := {};
    assert none + {0} == {0};
  }

  lemma Allocating()
    ensures Hop(10) && Hop(11)
  {
    var none: set<nat>, a: set<nat>, b: set<nat> := {}, {0}, {1};
    assert none + b == b && b - b == none && a + b == {0, 1};
  }

  lemma Reading()
    ensures Hop(12) && Hop(13)
  {
  }

  lemma Marking()
    ensures Hop(14)
  {
  }

  lemma Dropping()
    ensures Hop(15)
  {
    var a: set<nat>, b: set<nat> := {0}, {1};
    assert {0, 1} - b == a && a - b == a;
  }

  lemma Leaving()
    ensures Hop(16)
  {
    var none: set<nat>, a: set<nat> := {}, {0};
    assert a - a == none;
  }

  /** The whole run leaves inode 1 orphaned on disk, though no inode was at the start. */
  lemma OrphaningRun() returns (ss: seq<State>, vs: seq<Event>)
    ensures IsRun(ss, vs) && !Orphan(ss[0], 0) && !Orphan(ss[0], 1) && |ss[0].disk| == 2 && Orphan(ss[|vs|], 1)
  {
    hide Enabled, After;
    ss, vs := seq(18, k requires 0 <= k => Stage(k)), seq(17, k requires 0 <= k => Act(k));
    Getting();
    Unlinking();
    Opening();
    Closing();
    Allocating();
    Reading();
    Marking();
    Dropping();
    Leaving();
    forall m | 0 <= m < 17 ensures Hop(m) { }
    assert Initial(ss[0], 0);
  }
}
