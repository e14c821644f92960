/** kernel/log.c in place: the in-memory header, the operations on it, and the loops that write
    the disk.  `view` is what bread() returns (BioLog.dfy shows the buffer cache provides it);
    `disk` is what is on the device; the ghost `trace` records every block write. */
module Log {
  import opened Common
  import opened Blocks
  import opened LogSpec
  import opened LogCrash

  /** The logged blocks as the cache has them. */
  function ValsOf(view: Disk, lh: seq<nat>): (vals: seq<Block>)
    requires forall j :: 0 <= j < |lh| ==> lh[j] in view
    ensures |vals| == |lh| && forall j :: 0 <= j < |lh| ==> vals[j] == view[lh[j]]
  {
    seq(|lh|, j requires 0 <= j < |lh| => view[lh[j]])
  }

  lemma LogPartAll(g: Area, vals: seq<Block>)
    ensures |LogPart(g, vals)| == |vals| && LogPart(g, vals)[..|vals|] == LogPart(g, vals)
  {
  }

  class Log {
    const g: Area
    var lh: seq<nat>
    var outstanding: nat
    var committing: bool
    var disk: Disk
    var view: Disk
    ghost var trace: seq<Write>

    /** Blocks not in the log header are the same in the cache and on disk. */
    ghost predicate Coherent()
      reads this
    {
      && view.Keys == disk.Keys
      && forall b :: b in disk && b !in lh ==> view[b] == disk[b]
    }

    /** Between the locked sections; nobody is in an operation while a process commits. */
    ghost predicate Valid()
      reads this
    {
      Idle(g, disk) && Coherent() && Loggable(g, disk, lh) && (committing ==> outstanding == 0)
    }

    /** initlog() on the disk a crash left: the cache is empty, so bread() sees the disk. */
    constructor (area: Area, d: Disk)
      requires WfDisk(area, d) && Word(d[area.start], 0) <= LOGSIZE
      ensures g == area && lh == [] && outstanding == 0 && !committing && Valid()
      ensures disk == Apply(d, RecoverWrites(area, d)) && trace == RecoverWrites(area, d)
      ensures Home(g, disk) == Recovered(area, d) && view == disk
    {
      hide Decode, Encode, Recovered, Home, WfDisk, Apply, RecoverWrites, Idle, Loggable;
      g, lh, outstanding, committing, disk, view, trace := area, [], 0, false, d, d, [];
      new;
      RecoverFromLog();
    }

    /** begin_op(): false when the caller has to sleep. */
    method BeginOp() returns (go: bool)
      requires Valid()
      modifies this`outstanding
      ensures go <==> !committing && |lh| + (old(outstanding) + 1) * MAXOPBLOCKS <= LOGSIZE
      ensures outstanding == old(outstanding) + (if go then 1 else 0) && Valid()
    {
      if committing {
        go := false;
      } else if |lh| + (outstanding + 1) * MAXOPBLOCKS > LOGSIZE {
        go := false;
      } else {
        outstanding := outstanding + 1;
        go := true;
      }
    }

    /** The caller stores `data` in the buffer of block `b` and calls log_write(): the block joins
        the transaction once, whatever the number of calls.  LogSpace.dfy shows when the guard of
        "too big a transaction" holds. */
    method LogWrite(b: nat, data: Block)
      requires Valid() && outstanding >= 1 && |lh| < LOGSIZE && |lh| + 1 < g.size
      requires b in disk && b < U32 && !InLog(g, b)
      modifies this`lh, this`view
      ensures lh == if b in old(lh) then old(lh) else old(lh) + [b]
      ensures view == old(view)[b := data] && Valid()
    {
      hide Idle, Loggable, InLog;
      LoggableAdd(g, disk, lh, b);
      var i := 0;
      while i < |lh| && lh[i] != b
        invariant 0 <= i <= |lh| && b !in lh[..i]
      {
        i := i + 1;
      }
      if i == |lh| {
        assert lh[..i] == lh;
        lh := lh + [b];
      } else {
        lh := lh[i := b];
        assert lh == old(lh);
      }
      view := view[b := data];
    }

    /** end_op() up to its unlock: the last operation out is to commit.  An operation in progress
        excludes a commit, so panic("log.committing") is never reached. */
    method EndOp() returns (commit: bool)
      requires Valid() && outstanding >= 1
      modifies this`outstanding, this`committing
      ensures old(!committing) && Valid() && outstanding == old(outstanding) - 1
      ensures commit == committing == (outstanding == 0)
    {
      outstanding := outstanding - 1;
      if outstanding == 0 {
        committing := true;
      }
      commit := committing;
    }

    /** commit() by that process, without the lock, and the rest of end_op(): the whole group is home. */
    method FinishCommit()
      requires Valid() && committing
      modifies this
      ensures Valid() && !committing && outstanding == 0 && lh == [] && Home(g, view) == Home(g, old(view))
      ensures Home(g, disk) == Installed(Home(g, old(disk)), old(lh), ValsOf(old(view), old(lh)))
    {
      hide Idle, Loggable, Home, ValsOf;
      Commit();
      committing := false;
    }

    /** bwrite(): one atomic block write. */
    method Bwrite(b: nat)
      requires b in view
      modifies this`disk, this`trace
      ensures disk == old(disk)[b := view[b]] && trace == old(trace) + [Write(b, view[b])]
    {
      disk := disk[b := view[b]];
      trace := trace + [Write(b, view[b])];
    }

    /** A block copied within the cache and written through: one atomic disk write. */
    method CopyAndWrite(to: nat, from: nat)
      requires to in view && from in view
      modifies this`disk, this`trace, this`view
      ensures view == old(view)[to := old(view)[from]] && disk == old(disk)[to := old(view)[from]]
      ensures trace == old(trace) + [Write(to, old(view)[from])]
    {
      view := view[to := view[from]];
      Bwrite(to);
    }

    /** write_log() */
    method WriteLog()
      requires view.Keys == disk.Keys && Loggable(g, disk, lh)
               && (forall b :: g.start <= b < g.start + g.size ==> b in disk)
      modifies this`disk, this`trace, this`view
      ensures var ws := LogPart(g, ValsOf(old(view), lh));
              disk == Apply(old(disk), ws) && view == Apply(old(view), ws) && trace == old(trace) + ws
    {
      hide Apply, LogPart, ValsOf, Loggable;
      LoggableIn(g, disk, lh);
      ghost var vals := ValsOf(view, lh);
      ghost var ws := LogPart(g, vals);
      ApplyNone(disk, ws);
      ApplyNone(view, ws);
      LogPartAll(g, vals);
      var tail := 0;
      while tail < |lh|
        invariant 0 <= tail <= |lh| && disk == Apply(old(disk), ws[..tail])
        invariant view == Apply(old(view), ws[..tail]) && trace == old(trace) + ws[..tail]
      {
        LogRound(g, old(disk), old(view), lh, tail);
        ApplyNext(old(disk), old(trace), ws, tail);
        ApplyNext(old(view), old(trace), ws, tail);
        CopyAndWrite(g.start + tail + 1, lh[tail]);
        tail := tail + 1;
      }
    }

    /** write_head(): the true point at which the current transaction commits. */
    method WriteHead()
      requires view.Keys == disk.Keys && g.start in view && |lh| <= LOGSIZE && forall i :: 0 <= i < |lh| ==> lh[i] < U32
      modifies this`disk, this`trace, this`view
      ensures disk == old(disk)[g.start := Encode(old(view)[g.start], lh)]
      ensures view == old(view)[g.start := Encode(old(view)[g.start], lh)]
      ensures trace == old(trace) + [Write(g.start, Encode(old(view)[g.start], lh))]
    {
      var h0 := SetWord(view[g.start], 0, |lh|);
      var hb, i := h0, 0;
      while i < |lh|
        invariant 0 <= i <= |lh| && hb == SetEntries(h0, lh[..i])
      {
        hb := SetWord(hb, 1 + i, lh[i]);
        assert lh[..i + 1][..i] == lh[..i];
        i := i + 1;
      }
      assert lh[..|lh|] == lh;
      view := view[g.start := hb];
      Bwrite(g.start);
    }

    /** install_trans(), with `vals` in the log's data blocks. */
    method InstallTrans(ghost vals: seq<Block>)
      requires view.Keys == disk.Keys && Loggable(g, disk, lh) && |vals| == |lh| && LogHolds(g, view, vals)
      modifies this`disk, this`trace, this`view
      ensures var ws := HomePart(lh, vals);
              disk == Apply(old(disk), ws) && view == Apply(old(view), ws) && trace == old(trace) + ws
    {
      hide Apply, HomePart, Loggable, LogHolds;
      ghost var ws := HomePart(lh, vals);
      ApplyNone(disk, ws);
      ApplyNone(view, ws);
      HomePartAll(lh, vals);
      var tail := 0;
      while tail < |lh|
        invariant 0 <= tail <= |lh| && disk == Apply(old(disk), ws[..tail])
        invariant view == Apply(old(view), ws[..tail]) && trace == old(trace) + ws[..tail]
      {
        HomeRound(g, old(disk), old(view), lh, vals, tail);
        ApplyNext(old(disk), old(trace), ws, tail);
        ApplyNext(old(view), old(trace), ws, tail);
        CopyAndWrite(lh[tail], g.start + tail + 1);
        tail := tail + 1;
      }
    }

    /** read_head() */
    method ReadHead()
      requires g.start in view && Word(view[g.start], 0) <= LOGSIZE
      modifies this`lh
      ensures lh == Decode(view[g.start])
    {
      var hb := view[g.start];
      var n, i := Word(hb, 0), 0;
      lh := [];
      while i < n
        invariant 0 <= i <= n && lh == Decode(hb)[..i]
      {
        lh := lh + [Word(hb, 1 + i)];
        i := i + 1;
      }
    }

    /** recover_from_log(), on the disk a crash left and an empty cache: exactly the writes of
        RecoverWrites, after which the log is empty and the home blocks are the recovered ones. */
    method RecoverFromLog()
      requires WfDisk(g, disk) && view == disk && Word(disk[g.start], 0) <= LOGSIZE && !committing
      modifies this`disk, this`trace, this`view, this`lh
      ensures disk == Apply(old(disk), RecoverWrites(g, old(disk))) && trace == old(trace) + RecoverWrites(g, old(disk))
      ensures lh == [] && Valid() && view == disk && Home(g, disk) == Recovered(g, old(disk))
    {
      hide Decode, Encode, Apply, HomePart;
      ghost var d0 := disk;
      RecoverDone(g, d0);
      RecoverSplit(g, d0);
      LoggedHolds(g, d0);
      ReadHead();
      InstallTrans(Logged(g, d0));
      lh := [];
      WriteHead();
    }

    /** commit(): exactly the writes of CommitWrites, or none for an empty transaction. */
    method Commit()
      requires Valid()
      modifies this`disk, this`trace, this`view, this`lh
      ensures old(lh) == [] ==> disk == old(disk) && trace == old(trace) && view == old(view)
      ensures old(lh) != [] ==>
                var ws := CommitWrites(g, old(disk)[g.start], old(lh), ValsOf(old(view), old(lh)));
                disk == Apply(old(disk), ws) && trace == old(trace) + ws
      ensures lh == [] && Valid() && Home(g, disk) == Installed(Home(g, old(disk)), old(lh), ValsOf(old(view), old(lh)))
      ensures Home(g, view) == Home(g, old(view))
    {
      hide Decode, Encode, Apply, HomePart, LogPart, ValsOf, InLog, Idle, Loggable, LogHolds, Home;
      ghost var d0, v0 := disk, view;
      CommittedHome(g, d0, v0, lh);
      ghost var vals := ValsOf(v0, lh);
      if |lh| > 0 {
        CommitDone(g, d0, lh, vals);
        AfterHead(g, d0, v0, lh);
        AfterInstall(g, d0, v0, lh);
        CommitAgrees(g, d0, v0, lh);
        EmptyLoggable(g, Apply(d0, CommitWrites(g, d0[g.start], lh, vals)));
        WriteLog();
        WriteHead();
        InstallTrans(vals);
        lh := [];
        WriteHead();
        TraceJoin(old(trace), g, d0[g.start], old(lh), vals);
      }
    }
  }

  /** What commit() starts from: cache and disk differ only in the logged blocks. */
  ghost predicate Pending(g: Area, d: Disk, v: Disk, lh: seq<nat>) {
    && Idle(g, d) && v.Keys == d.Keys && Loggable(g, d, lh)
    && forall b :: b in d && b !in lh ==> v[b] == d[b]
  }

  /** Disk or cache after write_log() and the first write_head(). */
  ghost function Headed(g: Area, x: Disk, hb: Block, lh: seq<nat>, vals: seq<Block>): Disk
    requires |lh| <= LOGSIZE && forall i :: 0 <= i < |lh| ==> lh[i] < U32
  {
    Apply(x, LogPart(g, vals))[g.start := Encode(hb, lh)]
  }

  lemma LoggableAdd(g: Area, d: Disk, lh: seq<nat>, b: nat)
    requires Loggable(g, d, lh) && |lh| < LOGSIZE && |lh| + 1 < g.size && b in d && b < U32 && !InLog(g, b)
    ensures b !in lh ==> Loggable(g, d, lh + [b])
  {
  }

  lemma LoggableIn(g: Area, d: Disk, lh: seq<nat>)
    requires Loggable(g, d, lh)
    ensures forall j :: 0 <= j < |lh| ==> lh[j] in d
  {
  }

  lemma PendingFacts(g: Area, d: Disk, v: Disk, lh: seq<nat>)
    requires Pending(g, d, v, lh)
    ensures g.start in d && g.start in v && v[g.start] == d[g.start] && |lh| <= LOGSIZE && |lh| < g.size
    ensures forall b :: g.start <= b < g.start + g.size ==> b in d
    ensures forall i :: 0 <= i < |lh| ==> lh[i] < U32 && lh[i] in v
    ensures forall e: Disk :: e.Keys == d.Keys ==> Loggable(g, e, lh)
  {
    hide Decode, Distinct;
    assert InLog(g, g.start) && g.start !in lh;
  }

  lemma HeadHolds(g: Area, v: Disk, hb: Block, lh: seq<nat>, vals: seq<Block>)
    requires |lh| == |vals| <= LOGSIZE && |vals| < g.size && forall b :: g.start <= b < g.start + g.size ==> b in v
    requires forall i :: 0 <= i < |lh| ==> lh[i] < U32
    ensures LogHolds(g, Headed(g, v, hb, lh, vals), vals)
  {
    hide Apply, Encode;
    LogPrefix(g, v, vals, |vals|);
    LogPartAll(g, vals);
    var v1 := Apply(v, LogPart(g, vals));
    forall b | g.start < b <= g.start + |vals| ensures b in v1 && v1[b] == vals[b - g.start - 1] {
      assert v1[g.start + 1 + (b - g.start - 1)] == vals[b - g.start - 1];
    }
  }

  lemma AfterHead(g: Area, d: Disk, v: Disk, lh: seq<nat>)
    requires Pending(g, d, v, lh)
    ensures g.start in d && g.start in v && forall b :: g.start <= b < g.start + g.size ==> b in d
    ensures |lh| <= LOGSIZE && (forall i :: 0 <= i < |lh| ==> lh[i] < U32 && lh[i] in v)
    ensures var vals := ValsOf(v, lh); var v1, d1 := Apply(v, LogPart(g, vals)), Apply(d, LogPart(g, vals));
            && g.start in v1 && v1[g.start] == d[g.start] && v1.Keys == d1.Keys
            && var d2, v2 := Headed(g, d, d[g.start], lh, vals), Headed(g, v, d[g.start], lh, vals);
               v2.Keys == d2.Keys && Loggable(g, d2, lh) && LogHolds(g, v2, vals)
  {
    hide Apply, Decode, Encode, Pending, LogHolds, Loggable, LogPart, Home, InLog;
    PendingFacts(g, d, v, lh);
    PendingKeys(g, d, v, lh);
    var vals := ValsOf(v, lh);
    LogPrefix(g, d, vals, |vals|);
    LogPrefix(g, v, vals, |vals|);
    LogPartAll(g, vals);
    HeadHolds(g, v, d[g.start], lh, vals);
  }

  lemma PendingKeys(g: Area, d: Disk, v: Disk, lh: seq<nat>)
    requires Pending(g, d, v, lh)
    ensures v.Keys == d.Keys
  {
  }

  lemma AfterInstall(g: Area, d: Disk, v: Disk, lh: seq<nat>)
    requires Pending(g, d, v, lh)
    ensures |lh| <= LOGSIZE && g.start in d && (forall i :: 0 <= i < |lh| ==> lh[i] < U32 && lh[i] in v)
    ensures var vals := ValsOf(v, lh); var hb := d[g.start];
            var d3, v3 := Apply(Headed(g, d, hb, lh, vals), HomePart(lh, vals)),
                Apply(Headed(g, v, hb, lh, vals), HomePart(lh, vals));
            && g.start in v3 && v3[g.start] == Encode(hb, lh) && v3.Keys == d3.Keys
            && Apply(d, CommitWrites(g, hb, lh, vals)) == d3[g.start := Encode(Encode(hb, lh), [])]
            && Apply(v, CommitWrites(g, hb, lh, vals)) == v3[g.start := Encode(Encode(hb, lh), [])]
  {
    hide Apply, Decode, Encode, Distinct, LogPart, HomePart;
    AfterHead(g, d, v, lh);
    var vals, hb := ValsOf(v, lh), d[g.start];
    var d2, v2 := Headed(g, d, hb, lh, vals), Headed(g, v, hb, lh, vals);
    assert Loggable(g, v2, lh);
    HomePrefix(g, d2, lh, vals, |lh|);
    HomePrefix(g, v2, lh, vals, |lh|);
    HomePartAll(lh, vals);
    assert InLog(g, g.start);
    WritesSplit(g, d, hb, lh, vals);
    WritesSplit(g, v, hb, lh, vals);
  }

  /** commit()'s writes applied stage by stage. */
  lemma WritesSplit(g: Area, x: Disk, hb: Block, lh: seq<nat>, vals: seq<Block>)
    requires |lh| == |vals| <= LOGSIZE && forall i :: 0 <= i < |lh| ==> lh[i] < U32
    ensures Apply(x, CommitWrites(g, hb, lh, vals)) ==
            Apply(Headed(g, x, hb, lh, vals), HomePart(lh, vals))[g.start := Encode(Encode(hb, lh), [])]
  {
    hide Encode, LogPart, HomePart;
    var a, b, c := LogPart(g, vals), [Write(g.start, Encode(hb, lh))], HomePart(lh, vals);
    var ws := CommitWrites(g, hb, lh, vals);
    assert ws[..|ws| - 1] == (a + b) + c;
    ApplyConcat(x, a + b, c);
    assert (a + b)[..|a|] == a;
  }

  /** The same writes make cache and disk agree where they write, and elsewhere they agreed. */
  lemma {:induction false} ApplyAgree(d: Disk, v: Disk, ws: seq<Write>, b: nat)
    requires v.Keys == d.Keys && b in Apply(d, ws)
    requires (b in d && v[b] == d[b]) || exists j :: 0 <= j < |ws| && ws[j].b == b
    ensures b in Apply(v, ws) && Apply(v, ws)[b] == Apply(d, ws)[b]
  {
    if ws != [] {
      var n := |ws| - 1;
      if ws[n].b != b {
        if !(b in d && v[b] == d[b]) {
          var j :| 0 <= j < |ws| && ws[j].b == b;
          assert ws[..n][j].b == b;
        }
        ApplyAgree(d, v, ws[..n], b);
      }
    }
  }

  lemma CommitAgrees(g: Area, d: Disk, v: Disk, lh: seq<nat>)
    requires Pending(g, d, v, lh)
    ensures |lh| <= LOGSIZE && g.start in d && (forall i :: 0 <= i < |lh| ==> lh[i] < U32 && lh[i] in v)
    ensures var ws := CommitWrites(g, d[g.start], lh, ValsOf(v, lh)); Apply(v, ws) == Apply(d, ws)
  {
    hide Apply, Decode, Encode, Distinct, LogPart;
    AfterHead(g, d, v, lh);
    AfterInstall(g, d, v, lh);
    var vals := ValsOf(v, lh);
    var ws := CommitWrites(g, d[g.start], lh, vals);
    CommitDone(g, d, lh, vals);
    var x, y := Apply(v, ws), Apply(d, ws);
    forall b | b in y ensures b in x && x[b] == y[b] {
      if b in lh {
        var j :| 0 <= j < |lh| && lh[j] == b;
        LogPartAll(g, vals);
        assert ws[|lh| + 1 + j] == HomePart(lh, vals)[j];
      }
      ApplyAgree(d, v, ws, b);
    }
  }

  lemma CommittedHome(g: Area, d: Disk, v: Disk, lh: seq<nat>)
    requires Pending(g, d, v, lh)
    ensures forall j :: 0 <= j < |lh| ==> lh[j] in v
    ensures Installed(Home(g, d), lh, ValsOf(v, lh)) == Home(g, v)
  {
    hide Idle, ValsOf, Home, Installed, Pending;
    PendingFacts(g, d, v, lh);
    var x, y := Installed(Home(g, d), lh, ValsOf(v, lh)), Home(g, v);
    forall b ensures (b in x <==> b in y) && (b in x ==> x[b] == y[b]) {
      CommittedAt(g, d, v, lh, b);
    }
  }

  lemma CommittedAt(g: Area, d: Disk, v: Disk, lh: seq<nat>, b: nat)
    requires Pending(g, d, v, lh) && forall j :: 0 <= j < |lh| ==> lh[j] in v
    ensures var x, y := Installed(Home(g, d), lh, ValsOf(v, lh)), Home(g, v);
            (b in x <==> b in y) && (b in x ==> x[b] == y[b])
  {
    hide Idle, Installed;
    var vals := ValsOf(v, lh);
    if b in lh {
      var j :| 0 <= j < |lh| && lh[j] == b;
      InstalledHit(Home(g, d), lh, vals, j);
    } else {
      InstalledOther(Home(g, d), lh, vals, b);
    }
  }

  lemma EmptyLoggable(g: Area, d: Disk)
    requires Idle(g, d)
    ensures Loggable(g, d, [])
  {
  }

  lemma TraceJoin(t: seq<Write>, g: Area, hb: Block, lh: seq<nat>, vals: seq<Block>)
    requires |lh| == |vals| <= LOGSIZE && forall i :: 0 <= i < |lh| ==> lh[i] < U32
    ensures t + CommitWrites(g, hb, lh, vals) ==
            (((t + LogPart(g, vals)) + [Write(g.start, Encode(hb, lh))]) + HomePart(lh, vals))
                + [Write(g.start, Encode(Encode(hb, lh), []))]
  {
    hide Encode, LogPart, HomePart;
  }

  lemma ApplyNone(d: Disk, ws: seq<Write>)
    ensures Apply(d, ws[..0]) == d
  {
  }

  lemma HomePartAll(lh: seq<nat>, vals: seq<Block>)
    requires |lh| == |vals|
    ensures |HomePart(lh, vals)| == |lh| && HomePart(lh, vals)[..|lh|] == HomePart(lh, vals)
  {
  }

  /** The log's data blocks hold `vals`. */
  ghost predicate LogHolds(g: Area, view: Disk, vals: seq<Block>) {
    forall b :: g.start < b <= g.start + |vals| ==> b in view && view[b] == vals[b - g.start - 1]
  }

  /** Round `tail` of write_log() copies a block that no earlier round has touched. */
  lemma LogRound(g: Area, d: Disk, v: Disk, lh: seq<nat>, tail: nat)
    requires v.Keys == d.Keys && Loggable(g, d, lh) && tail < |lh|
    requires forall b :: g.start <= b < g.start + g.size ==> b in d
    ensures forall j :: 0 <= j < |lh| ==> lh[j] in v
    ensures var ws := LogPart(g, ValsOf(v, lh)); var v' := Apply(v, ws[..tail]);
            && |ws| == |lh| && lh[tail] in v' && g.start + tail + 1 in v'
            && ws[tail] == Write(g.start + tail + 1, v'[lh[tail]])
  {
    hide Apply, Distinct;
    var vals := ValsOf(v, lh);
    LogPrefix(g, v, vals, tail);
    var v' := Apply(v, LogPart(g, vals)[..tail]);
    assert !InLog(g, lh[tail]);
    assert lh[tail] in Home(g, v');
  }

  /** Round `tail` of install_trans() reads a log block that no earlier round has touched. */
  lemma HomeRound(g: Area, d: Disk, v: Disk, lh: seq<nat>, vals: seq<Block>, tail: nat)
    requires v.Keys == d.Keys && Loggable(g, d, lh) && |vals| == |lh| && LogHolds(g, v, vals) && tail < |lh|
    ensures var ws := HomePart(lh, vals); var v' := Apply(v, ws[..tail]);
            && |ws| == |lh| && lh[tail] in v' && g.start + tail + 1 in v'
            && ws[tail] == Write(lh[tail], v'[g.start + tail + 1])
  {
    hide Apply, Distinct;
    assert Loggable(g, v, lh);
    HomePrefix(g, v, lh, vals, tail);
    assert InLog(g, g.start + tail + 1) && g.start + tail + 1 in v;
  }

  lemma LoggedHolds(g: Area, d: Disk)
    requires WfDisk(g, d)
    ensures LogHolds(g, d, Logged(g, d))
  {
  }

  lemma RecoverSplit(g: Area, d: Disk)
    requires WfDisk(g, d)
    ensures var home := HomePart(Decode(d[g.start]), Logged(g, d));
            var e := Apply(d, home);
            && g.start in e && e[g.start] == d[g.start] && e.Keys == d.Keys
            && Apply(d, RecoverWrites(g, d)) == e[g.start := Encode(d[g.start], [])]
            && RecoverWrites(g, d) == home + [Write(g.start, Encode(d[g.start], []))]
  {
    hide Decode, Encode;
    AllInstalled(g, d);
    var home := HomePart(Decode(d[g.start]), Logged(g, d));
    assert RecoverWrites(g, d)[..|home|] == home;
  }
}
