/** Crash atomicity of the redo log (kernel/log.c:67-123 and 177-203): a crash may fall between
    any two block writes of commit() and of recovery, any number of times. */
module LogCrash {
  import opened Blocks
  import opened LogSpec

  lemma HomeAt(g: Area, d: Disk, e: Disk)
    requires d.Keys == e.Keys && forall b :: b in d && !InLog(g, b) ==> e[b] == d[b]
    ensures Home(g, e) == Home(g, d)
  {
  }

  /** Writing the log's data blocks shows nowhere until the header is written. */
  lemma {:induction false} LogPrefix(g: Area, d: Disk, vals: seq<Block>, k: nat)
    requires k <= |vals| < g.size && forall b :: g.start <= b < g.start + g.size ==> b in d
    ensures var e := Apply(d, LogPart(g, vals)[..k]);
            && e.Keys == d.Keys && Home(g, e) == Home(g, d) && e[g.start] == d[g.start]
            && forall j :: 0 <= j < k ==> e[g.start + 1 + j] == vals[j]
  {
    if k > 0 {
      LogPrefix(g, d, vals, k - 1);
      var ws := LogPart(g, vals);
      assert ws[..k][..k - 1] == ws[..k - 1];
      var e := Apply(d, ws[..k]);
      HomeAt(g, Apply(d, ws[..k - 1]), e);
    }
  }

  /** Writing home locations leaves the log alone and installs a prefix. */
  lemma {:induction false} HomePrefix(g: Area, d: Disk, lh: seq<nat>, vals: seq<Block>, k: nat)
    requires |lh| == |vals| && k <= |lh| && Loggable(g, d, lh)
    ensures var e := Apply(d, HomePart(lh, vals)[..k]);
            && e.Keys == d.Keys && Home(g, e) == Installed(Home(g, d), lh[..k], vals[..k])
            && forall b :: b in d && InLog(g, b) ==> e[b] == d[b]
  {
    if k > 0 {
      HomePrefix(g, d, lh, vals, k - 1);
      var ws := HomePart(lh, vals);
      assert ws[..k][..k - 1] == ws[..k - 1];
      assert lh[..k][..k - 1] == lh[..k - 1] && vals[..k][..k - 1] == vals[..k - 1];
      var e := Apply(d, ws[..k]);
      var e1 := Apply(d, ws[..k - 1]);
      assert e == e1[lh[k - 1] := vals[k - 1]];
      assert Home(g, e) == Home(g, e1)[lh[k - 1] := vals[k - 1]];
    }
  }

  lemma EmptyRecovered(g: Area, d: Disk)
    requires Idle(g, d)
    ensures Recovered(g, d) == Home(g, d)
  {
  }

  /** The disk right after commit()'s header write. */
  lemma HeaderWritten(g: Area, d: Disk, lh: seq<nat>, vals: seq<Block>)
    requires Idle(g, d) && |lh| == |vals| && Loggable(g, d, lh)
    ensures var e := Apply(d, LogPart(g, vals))[g.start := Encode(d[g.start], lh)];
            && WfDisk(g, e) && e.Keys == d.Keys && Home(g, e) == Home(g, d)
            && e[g.start] == Encode(d[g.start], lh) && Decode(e[g.start]) == lh && Logged(g, e) == vals
  {
    hide Encode, Decode;
    LogPrefix(g, d, vals, |vals|);
    assert LogPart(g, vals)[..|vals|] == LogPart(g, vals);
    HeaderRoundTrip(d[g.start], lh);
    var e1 := Apply(d, LogPart(g, vals));
    var e := e1[g.start := Encode(d[g.start], lh)];
    HomeAt(g, e1, e);
  }

  /** A disk whose header says `lh`, after the first `k` installations. */
  lemma PartlyInstalled(g: Area, d: Disk, k: nat)
    requires WfDisk(g, d) && k <= |Decode(d[g.start])|
    ensures var e := Apply(d, HomePart(Decode(d[g.start]), Logged(g, d))[..k]);
            && WfDisk(g, e) && e.Keys == d.Keys && e[g.start] == d[g.start] && Recovered(g, e) == Recovered(g, d)
            && Home(g, e) == Installed(Home(g, d), Decode(d[g.start])[..k], Logged(g, d)[..k])
  {
    hide Decode;
    var lh, vals := Decode(d[g.start]), Logged(g, d);
    HomePrefix(g, d, lh, vals, k);
    var e := Apply(d, HomePart(lh, vals)[..k]);
    assert InLog(g, g.start);
    assert WfDisk(g, e);
    forall j | 0 <= j < |lh| ensures Logged(g, e)[j] == vals[j] {
      assert InLog(g, g.start + 1 + j);
    }
    assert Logged(g, e) == vals;
    InstallRedo(Home(g, d), lh, vals, k);
  }

  /** Clearing the header ends a transaction. */
  lemma Cleared(g: Area, d: Disk)
    requires WfDisk(g, d)
    ensures var e := d[g.start := Encode(d[g.start], [])];
            Idle(g, e) && e.Keys == d.Keys && Home(g, e) == Home(g, d)
  {
    hide Encode, Decode;
    HeaderRoundTrip(d[g.start], []);
    HomeAt(g, d, d[g.start := Encode(d[g.start], [])]);
  }

  lemma AllInstalled(g: Area, d: Disk)
    requires WfDisk(g, d)
    ensures var e := Apply(d, HomePart(Decode(d[g.start]), Logged(g, d)));
            && WfDisk(g, e) && e.Keys == d.Keys && e[g.start] == d[g.start] && Home(g, e) == Recovered(g, d)
  {
    hide Decode;
    var lh, vals := Decode(d[g.start]), Logged(g, d);
    PartlyInstalled(g, d, |lh|);
    assert HomePart(lh, vals)[..|lh|] == HomePart(lh, vals) && lh[..|lh|] == lh && vals[..|lh|] == vals;
  }

  // ----- recovery -----

  /** Recovery interrupted after any write loses nothing: recovering again gives the same. */
  lemma RecoverPrefix(g: Area, d: Disk, k: nat)
    requires WfDisk(g, d) && k <= |RecoverWrites(g, d)|
    ensures var e := Apply(d, RecoverWrites(g, d)[..k]);
            WfDisk(g, e) && e.Keys == d.Keys && Recovered(g, e) == Recovered(g, d)
  {
    hide Decode, Encode, Recovered;
    var lh, vals, ws := Decode(d[g.start]), Logged(g, d), RecoverWrites(g, d);
    if k <= |lh| {
      assert ws[..k] == HomePart(lh, vals)[..k];
      PartlyInstalled(g, d, k);
    } else {
      assert ws[..k] == ws;
      RecoverDone(g, d);
      EmptyRecovered(g, Apply(d, ws));
    }
  }

  /** A completed recovery leaves an empty log and the recovered home blocks. */
  lemma RecoverDone(g: Area, d: Disk)
    requires WfDisk(g, d)
    ensures var e := Apply(d, RecoverWrites(g, d));
            Idle(g, e) && e.Keys == d.Keys && Home(g, e) == Recovered(g, d)
  {
    hide Decode, Encode, Recovered;
    var home := HomePart(Decode(d[g.start]), Logged(g, d));
    var e1 := Apply(d, home);
    AllInstalled(g, d);
    Cleared(g, e1);
    assert RecoverWrites(g, d)[..|home|] == home;
  }

  // ----- commit -----

  /** The disk after the first `k` writes of commit(), for k beyond the header write. */
  lemma AfterHeader(g: Area, d: Disk, lh: seq<nat>, vals: seq<Block>, k: nat)
    requires Idle(g, d) && |lh| == |vals| && Loggable(g, d, lh) && |lh| < k <= |lh| + 1 + |lh|
    ensures var ws := CommitWrites(g, d[g.start], lh, vals);
            var e := Apply(d, LogPart(g, vals))[g.start := Encode(d[g.start], lh)];
            Apply(d, ws[..k]) == Apply(e, HomePart(lh, vals)[..k - |lh| - 1])
  {
    hide Encode, Decode;
    var ws, n := CommitWrites(g, d[g.start], lh, vals), |lh|;
    var front := LogPart(g, vals) + [Write(g.start, Encode(d[g.start], lh))];
    assert ws[..k] == front + HomePart(lh, vals)[..k - n - 1];
    ApplyConcat(d, front, HomePart(lh, vals)[..k - n - 1]);
    assert front[..n] == LogPart(g, vals);
  }

  /** A crash after any write of commit() leaves all of the transaction or none of it:
      the header write decides. */
  lemma CommitPrefix(g: Area, d: Disk, lh: seq<nat>, vals: seq<Block>, k: nat)
    requires Idle(g, d) && |lh| == |vals| && Loggable(g, d, lh)
    requires k <= |CommitWrites(g, d[g.start], lh, vals)|
    ensures var e := Apply(d, CommitWrites(g, d[g.start], lh, vals)[..k]);
            && WfDisk(g, e) && e.Keys == d.Keys
            && Recovered(g, e) == if k <= |lh| then Home(g, d) else Installed(Home(g, d), lh, vals)
  {
    hide Encode, Decode, Home, Installed, Apply;
    var ws, n := CommitWrites(g, d[g.start], lh, vals), |lh|;
    if k <= n {
      assert ws[..k] == LogPart(g, vals)[..k];
      LogPrefix(g, d, vals, k);
      EmptyRecovered(g, Apply(d, ws[..k]));
    } else {
      HeaderWritten(g, d, lh, vals);
      var e := Apply(d, LogPart(g, vals))[g.start := Encode(d[g.start], lh)];
      if k <= n + 1 + n {
        AfterHeader(g, d, lh, vals, k);
        PartlyInstalled(g, e, k - n - 1);
      } else {
        CommitDone(g, d, lh, vals);
        assert ws[..k] == ws;
        EmptyRecovered(g, Apply(d, ws));
      }
    }
  }

  /** A commit() that returns has installed the transaction and emptied the log. */
  lemma CommitDone(g: Area, d: Disk, lh: seq<nat>, vals: seq<Block>)
    requires Idle(g, d) && |lh| == |vals| && Loggable(g, d, lh)
    ensures var e := Apply(d, CommitWrites(g, d[g.start], lh, vals));
            Idle(g, e) && e.Keys == d.Keys && Home(g, e) == Installed(Home(g, d), lh, vals)
  {
    hide Encode, Decode;
    var ws, n := CommitWrites(g, d[g.start], lh, vals), |lh|;
    HeaderWritten(g, d, lh, vals);
    var e := Apply(d, LogPart(g, vals))[g.start := Encode(d[g.start], lh)];
    AfterHeader(g, d, lh, vals, n + 1 + n);
    assert HomePart(lh, vals)[..n] == HomePart(lh, vals);
    AllInstalled(g, e);
    Cleared(g, Apply(e, HomePart(lh, vals)));
    assert ws[..n + 1 + n] == ws[..|ws| - 1];
  }

  // ----- whole runs -----

  datatype Txn = Txn(lh: seq<nat>, vals: seq<Block>)

  /** What happens to the disk: a commit that returns, one cut short after `k` writes, a recovery
      that completes, and one cut short after `k` writes. */
  datatype Event = Commit(t: Txn) | CrashInCommit(t: Txn, k: nat) | Recover | CrashInRecover(k: nat)

  ghost predicate TxnOk(g: Area, d: Disk, t: Txn) {
    |t.lh| == |t.vals| && Loggable(g, d, t.lh)
  }

  ghost predicate Possible(g: Area, d: Disk, up: bool, e: Event) {
    match e
    case Commit(t) => up && TxnOk(g, d, t)
    case CrashInCommit(t, k) => up && TxnOk(g, d, t) && k <= 2 * |t.lh| + 2
    case Recover => !up
    case CrashInRecover(k) => !up && WfDisk(g, d) && k <= |RecoverWrites(g, d)|
  }

  ghost function Exec(g: Area, d: Disk, up: bool, e: Event): Disk
    requires Possible(g, d, up, e) && (if up then Idle(g, d) else WfDisk(g, d))
  {
    match e
    case Commit(t) => Apply(d, CommitWrites(g, d[g.start], t.lh, t.vals))
    case CrashInCommit(t, k) => Apply(d, CommitWrites(g, d[g.start], t.lh, t.vals)[..k])
    case Recover => Apply(d, RecoverWrites(g, d))
    case CrashInRecover(k) => Apply(d, RecoverWrites(g, d)[..k])
  }

  predicate IsUp(e: Event) { e.Commit? || e.Recover? }

  /** A commit counts when it returned, or was cut short after its header write. */
  predicate Counts(e: Event) { e.Commit? || (e.CrashInCommit? && e.k > |e.t.lh|) }

  /** The group commits that count, in order. */
  function Durable(events: seq<Event>): seq<Txn> {
    if events == [] then []
    else
      var before, e := Durable(events[..|events| - 1]), events[|events| - 1];
      if Counts(e) then before + [e.t] else before
  }

  ghost function InstallAll(h: Disk, ts: seq<Txn>): Disk
    requires forall i :: 0 <= i < |ts| ==> |ts[i].lh| == |ts[i].vals|
  {
    if ts == [] then h
    else Installed(InstallAll(h, ts[..|ts| - 1]), ts[|ts| - 1].lh, ts[|ts| - 1].vals)
  }

  /** A run: the disk before each event and at the end. */
  ghost predicate IsRun(g: Area, disks: seq<Disk>, ups: seq<bool>, events: seq<Event>) {
    && |disks| == |ups| == |events| + 1 && ups[0] && Idle(g, disks[0])
    && forall i :: 0 <= i < |events| ==>
         && (if ups[i] then Idle(g, disks[i]) else WfDisk(g, disks[i]))
         && Possible(g, disks[i], ups[i], events[i])
         && disks[i + 1] == Exec(g, disks[i], ups[i], events[i]) && ups[i + 1] == IsUp(events[i])
  }

  /** One event, on the disk and in the list of durable commits. */
  lemma StepRecovers(g: Area, d: Disk, up: bool, e: Event, h: Disk)
    requires if up then Idle(g, d) else WfDisk(g, d)
    requires Possible(g, d, up, e) && Recovered(g, d) == h
    ensures var d' := Exec(g, d, up, e);
            && WfDisk(g, d') && d'.Keys == d.Keys && (IsUp(e) ==> Idle(g, d') && Home(g, d') == Recovered(g, d'))
            && Recovered(g, d') == if Counts(e) then Installed(h, e.t.lh, e.t.vals) else h
  {
    hide Recovered, Decode, Encode, Home;
    if up { EmptyRecovered(g, d); }
    match e
    case Commit(t) =>
      CommitDone(g, d, t.lh, t.vals);
      EmptyRecovered(g, Exec(g, d, up, e));
    case CrashInCommit(t, k) => CommitPrefix(g, d, t.lh, t.vals, k);
    case Recover =>
      RecoverDone(g, d);
      EmptyRecovered(g, Exec(g, d, up, e));
    case CrashInRecover(k) => RecoverPrefix(g, d, k);
  }

  lemma {:induction false} DurableOk(g: Area, disks: seq<Disk>, ups: seq<bool>, events: seq<Event>, n: nat)
    requires IsRun(g, disks, ups, events) && n <= |events|
    ensures forall i :: 0 <= i < |Durable(events[..n])| ==>
              |Durable(events[..n])[i].lh| == |Durable(events[..n])[i].vals|
  {
    hide Exec, Idle, WfDisk;
    if n > 0 {
      DurableOk(g, disks, ups, events, n - 1);
      assert events[..n][..n - 1] == events[..n - 1];
      assert Possible(g, disks[n - 1], ups[n - 1], events[n - 1]);
    }
  }

  /** Over every run with crashes anywhere, recovery would yield exactly the durable commits, in
      order; whenever the system is up, the home blocks already are that. */
  lemma {:induction false} RunRecovers(g: Area, disks: seq<Disk>, ups: seq<bool>, events: seq<Event>, n: nat)
    requires IsRun(g, disks, ups, events) && n <= |events|
    ensures forall i :: 0 <= i < |Durable(events[..n])| ==>
              |Durable(events[..n])[i].lh| == |Durable(events[..n])[i].vals|
    ensures WfDisk(g, disks[n]) && disks[n].Keys == disks[0].Keys
    ensures Recovered(g, disks[n]) == InstallAll(Home(g, disks[0]), Durable(events[..n]))
    ensures ups[n] ==> Idle(g, disks[n]) && Home(g, disks[n]) == InstallAll(Home(g, disks[0]), Durable(events[..n]))
    decreases n
  {
    hide Exec, Recovered, Home, Installed, Possible;
    DurableOk(g, disks, ups, events, n);
    if n == 0 {
      EmptyRecovered(g, disks[0]);
      assert events[..0] == [];
    } else {
      RunRecovers(g, disks, ups, events, n - 1);
      assert events[..n][..n - 1] == events[..n - 1];
      StepRecovers(g, disks[n - 1], ups[n - 1], events[n - 1], Recovered(g, disks[n - 1]));
    }
  }

  /** The next event after a return is any commit, after a crash a recovery; either may be cut short after
      any of its disk writes. */
  ghost predicate Next(g: Area, d: Disk, events: seq<Event>, e: Event) {
    if events == [] || events[|events| - 1].Commit? || events[|events| - 1].Recover? then
      (e.Commit? || (e.CrashInCommit? && e.k <= 2 * |e.t.lh| + 2)) && |e.t.lh| == |e.t.vals| && Loggable(g, d, e.t.lh)
    else e.Recover? || (e.CrashInRecover? && WfDisk(g, d) && e.k <= |RecoverWrites(g, d)|)
  }

  /** Every run goes on with each of these: no order of commits, crashes and recoveries is left out. */
  lemma RunGoesOn(g: Area, disks: seq<Disk>, ups: seq<bool>, events: seq<Event>, e: Event) returns (d: Disk, up: bool)
    requires IsRun(g, disks, ups, events) && Next(g, disks[|events|], events, e)
    ensures IsRun(g, disks + [d], ups + [up], events + [e])
  {
    hide Exec, Recovered, Home, Idle, WfDisk, Loggable;
    var n := |events|;
    RunRecovers(g, disks, ups, events, n);
    if n > 0 { assert ups[n - 1 + 1] == IsUp(events[n - 1]); }
    assert Possible(g, disks[n], ups[n], e);
    d, up := Exec(g, disks[n], ups[n], e), IsUp(e);
    var disks', ups', events' := disks + [d], ups + [up], events + [e];
    forall i | 0 <= i <= n
      ensures (if ups'[i] then Idle(g, disks'[i]) else WfDisk(g, disks'[i]))
      ensures Possible(g, disks'[i], ups'[i], events'[i])
      ensures disks'[i + 1] == Exec(g, disks'[i], ups'[i], events'[i]) && ups'[i + 1] == IsUp(events'[i])
    {
      if i < n { assert disks'[i + 1] == disks[i + 1]; }
    }
  }
}
