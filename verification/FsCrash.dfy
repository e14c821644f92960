/** The file system above the log: a crash at any disk write of filewrite(), or of the recovery after
    it, leaves a consistent file system in which a prefix of the chunks is written. */
module FsCrash {
  import opened Common
  import opened Blocks
  import opened Dinode
  import opened FsSpec
  import opened FsSteps
  import opened FsMap
  import opened FsIo
  import opened FsLoop
  import opened FsChain
  import L = LogSpec
  import C = LogCrash

  // ----- commits of file-system operations -----

  /** Outside the log, the blocks `h` are those of `s`. */
  ghost predicate Holds(g: L.Area, h: L.Disk, s: State) {
    |s.blocks| == s.sb.size && forall b :: 0 <= b < s.sb.size && !L.InLog(g, b) ==> b in h && h[b] == s.blocks[b]
  }

  /** The group commit of the blocks `logged`, with the content they have in `c` */
  ghost predicate TxnOf(t: C.Txn, c: State, logged: set<nat>) {
    && |t.lh| == |t.vals| && L.Distinct(t.lh) && (forall b :: b in logged <==> b in t.lh)
    && forall i :: 0 <= i < |t.lh| ==> t.lh[i] < |c.blocks| && t.vals[i] == c.blocks[t.lh[i]]
  }

  lemma InstallHolds(g: L.Area, h: L.Disk, s: State, c: State, t: C.Txn, logged: set<nat>)
    requires Holds(g, h, s) && c.sb == s.sb && Tracks(s.sb, s.blocks, c.blocks, logged) && TxnOf(t, c, logged)
    ensures Holds(g, L.Installed(h, t.lh, t.vals), c)
  {
    forall b | 0 <= b < c.sb.size && !L.InLog(g, b)
      ensures b in L.Installed(h, t.lh, t.vals) && L.Installed(h, t.lh, t.vals)[b] == c.blocks[b]
    {
      if b in t.lh {
        var j :| 0 <= j < |t.lh| && t.lh[j] == b;
        L.InstalledHit(h, t.lh, t.vals, j);
      } else {
        L.InstalledOther(h, t.lh, t.vals, b);
      }
    }
  }

  lemma {:induction false} Listed(x: set<nat>) returns (q: seq<nat>)
    ensures |q| == |x| && L.Distinct(q) && forall b :: b in x <==> b in q
    decreases |x|
  {
    q := [];
    if x != {} {
      var b :| b in x;
      q := Listed(x - {b});
      q := q + [b];
    }
  }

  /** What an operation logs always makes a group commit that the log can hold. */
  lemma CommitExists(g: L.Area, d: L.Disk, s: State, c: State, logged: set<nat>) returns (t: C.Txn)
    requires Layout(s.sb) && Tracks(s.sb, s.blocks, c.blocks, logged) && |logged| <= MAXOPBLOCKS < g.size
    requires g.start + g.size <= s.sb.inodestart && forall b :: 0 <= b < s.sb.size ==> b in d
    ensures TxnOf(t, c, logged) && C.TxnOk(g, d, t)
  {
    var q := Listed(logged);
    forall i | 0 <= i < |q| ensures s.sb.inodestart <= q[i] < s.sb.size {
      assert q[i] in logged;
    }
    t := C.Txn(q, seq(|q|, i requires 0 <= i < |q| => c.blocks[q[i]]));
  }

  /** ts[j] commits the step from ss[j] to ss[j + 1]. */
  ghost predicate Commits(ss: seq<State>, lhs: seq<set<nat>>, ts: seq<C.Txn>) {
    && |ss| == |lhs| + 1 == |ts| + 1
    && forall j :: 0 <= j < |ts| ==>
         ss[j + 1].sb == ss[j].sb && Tracks(ss[j].sb, ss[j].blocks, ss[j + 1].blocks, lhs[j])
             && TxnOf(ts[j], ss[j + 1], lhs[j])
  }

  /** Installing the first `k` of them makes the disk hold ss[k]. */
  lemma {:induction false} InstallAllHolds(g: L.Area, h: L.Disk, ss: seq<State>, lhs: seq<set<nat>>, ts: seq<C.Txn>,
                                           k: nat)
    requires Commits(ss, lhs, ts) && k <= |ts| && Holds(g, h, ss[0])
    ensures forall i :: 0 <= i < k ==> |ts[..k][i].lh| == |ts[..k][i].vals|
    ensures Holds(g, C.InstallAll(h, ts[..k]), ss[k])
    decreases k
  {
    hide Holds, Tracks, L.Installed;
    if k > 0 {
      InstallAllHolds(g, h, ss, lhs, ts, k - 1);
      assert ts[..k][..k - 1] == ts[..k - 1];
      InstallHolds(g, C.InstallAll(h, ts[..k - 1]), ss[k - 1], ss[k], ts[k - 1], lhs[k - 1]);
    }
  }

  // ----- a run with a crash -----

  /** The first `m` commits return, in order; a crash then cuts the next one short, and recovery
      follows, which may crash itself. */
  ghost predicate Attempt(events: seq<C.Event>, ts: seq<C.Txn>, m: nat) {
    && m <= |events| && m <= |ts| && (forall i :: 0 <= i < m ==> events[i] == C.Commit(ts[i]))
    && (m < |events| ==> m < |ts| && events[m].CrashInCommit? && events[m].t == ts[m])
    && (forall i :: m < i < |events| ==> events[i].Recover? || events[i].CrashInRecover?)
  }

  /** How many of the commits the disk keeps: all that returned, and the one cut short if its header
      was written. */
  ghost function Kept(events: seq<C.Event>, m: nat, n: nat): nat
    requires m <= n <= |events|
  {
    if m < n && C.Counts(events[m]) then m + 1 else m
  }

  lemma {:induction false} DurablePrefix(events: seq<C.Event>, ts: seq<C.Txn>, m: nat, n: nat)
    requires Attempt(events, ts, m) && n <= |events|
    ensures n <= m ==> C.Durable(events[..n]) == ts[..n]
    ensures m <= n ==> Kept(events, m, n) <= |ts| && C.Durable(events[..n]) == ts[..Kept(events, m, n)]
    decreases n
  {
    if n > 0 {
      DurablePrefix(events, ts, m, n - 1);
      assert events[..n][..n - 1] == events[..n - 1] && events[..n][n - 1] == events[n - 1];
      if n <= m {
        assert ts[..n] == ts[..n - 1] + [ts[n - 1]];
      } else if n - 1 == m {
        assert ts[..m + 1] == ts[..m] + [ts[m]];
      }
    }
  }

  // ----- what is found on the disk -----

  /** The file system read from the blocks `h` after a reboot; `owner` is what its blocks are for. */
  ghost function Mount(sb: Super, owner: map<nat, Slot>, h: L.Disk): State
    requires Layout(sb)
  {
    var blocks := seq(sb.size, b requires 0 <= b < sb.size => if b in h then h[b] else ZeroBlock());
    State(sb, blocks, seq(sb.ninodes, i requires 0 <= i < sb.ninodes => Get(blocks[InodeBlock(sb, i)], i % IPB)),
          owner, {})
  }

  lemma MountInodes(g: L.Area, s: State, h: L.Disk)
    requires Shape(s) && Synced(s) && Holds(g, h, s) && g.start + g.size <= s.sb.inodestart
    ensures Mount(s.sb, s.owner, h).inodes == s.inodes
    ensures forall b :: s.sb.inodestart <= b < s.sb.size ==> Mount(s.sb, s.owner, h).blocks[b] == s.blocks[b]
  {
    hide Get;
    var m := Mount(s.sb, s.owner, h);
    forall i | 0 <= i < s.sb.ninodes ensures m.inodes[i] == s.inodes[i] {
      InodeBlockLow(s, i);
      assert OnDisk(s, i) == s.inodes[i];
    }
  }

  /** The log lies below the inode blocks, so a disk that holds `s` outside the log is read back as `s`. */
  lemma MountOk(g: L.Area, s: State, h: L.Disk)
    requires Whole(s) && Synced(s) && Holds(g, h, s) && g.start + g.size <= s.sb.inodestart
    ensures var m := Mount(s.sb, s.owner, h);
            Whole(m) && m.inodes == s.inodes && forall i :: 0 <= i < |s.inodes| ==> Unread(s, m, i)
  {
    hide Inv, Files, Contents, Addr, Mount, SameFile, Synced, Holds;
    var m := Mount(s.sb, s.owner, h);
    MountInodes(g, s, h);
    MountFields(s.sb, s.owner, h);
    CleanStale(s);
    KeepsLinks(s, m);
    forall i | 0 <= i < |s.inodes| ensures Unread(s, m, i) {
      FileAt(s, i);
      MountFile(s, m, i);
      SameContents(s, m, i);
    }
    MountFiles(s, m);
  }

  lemma MountFields(sb: Super, owner: map<nat, Slot>, h: L.Disk)
    requires Layout(sb)
    ensures var m := Mount(sb, owner, h);
            m.sb == sb && m.owner == owner && m.stale == {} && |m.blocks| == sb.size && |m.inodes| == sb.ninodes
  {
    hide Get;
  }

  lemma MountFiles(s: State, m: State)
    requires Shape(s) && Shape(m) && |m.inodes| == |s.inodes| && forall i :: 0 <= i < |s.inodes| ==> Unread(s, m, i)
    ensures Files(m)
  {
    hide FileOk, Contents;
    forall i | 0 <= i < |m.inodes| ensures FileOk(m, i) {
      assert Unread(s, m, i);
    }
  }

  lemma MountFile(s: State, m: State, i: nat)
    requires Inv(s) && s.stale == {} && Shape(m) && i < |s.inodes| == |m.inodes| && m.inodes[i] == s.inodes[i]
             && m.sb == s.sb
    requires forall bn {:trigger Addr(m, i, bn)} :: 0 <= bn < MAXFILE ==> Addr(m, i, bn) == Addr(s, i, bn)
    requires forall b :: s.sb.inodestart <= b < s.sb.size ==> m.blocks[b] == s.blocks[b]
    ensures Shape(s) && SameFile(s, m, i)
  {
    hide Inv, Addr;
    InvShape(s);
    forall bn | 0 <= bn < MAXFILE ensures SameBlock(s, m, i, bn) {
      LinkAt(s, i, bn);
      assert Addr(m, i, bn) == Addr(s, i, bn);
    }
  }

  // ----- filewrite() -----

  /** What the first `k` chunks together wrote */
  lemma {:induction false} ChainWritten(ss: seq<State>, lhs: seq<set<nat>>, ws: seq<nat>, ino: nat, off: nat,
                                        src: seq<byte>, k: nat)
    requires Chain(ss, lhs, ws, ino, off, src) && k <= |lhs|
    requires Whole(ss[0]) && Synced(ss[0]) && ino < |ss[0].inodes| && off <= ss[0].inodes[ino].size
    ensures Whole(ss[k]) && Synced(ss[k]) && ss[k].sb == ss[0].sb && ws[k] <= |src|
    ensures Written(ss[0], ss[k], ino, off, src[..ws[k]], ws[k])
    decreases k
  {
    hide Inv, Clean, Files, Written, Synced, Tracks;
    if k == 0 {
      assert src[..0] == [];
      WrittenStart(ss[0], ino, off);
    } else {
      ChainWritten(ss, lhs, ws, ino, off, src, k - 1);
      assert Link(ss, lhs, ws, ino, off, src, k - 1);
      var i, e := ws[k - 1], ws[k] - ws[k - 1];
      assert src[i..][..e] == src[i..i + e];
      ChunkWritten(ss[0], ss[k - 1], ss[k], ino, off, src, i, e, e);
    }
  }

  lemma ChainCommits(ss: seq<State>, lhs: seq<set<nat>>, ws: seq<nat>, ino: nat, off: nat, src: seq<byte>,
                     ts: seq<C.Txn>)
    requires Chain(ss, lhs, ws, ino, off, src) && |ts| == |lhs| && forall j :: 0 <= j < |ts| ==>
               TxnOf(ts[j], ss[j + 1], lhs[j])
    ensures Commits(ss, lhs, ts)
  {
    hide Inv, Clean, Files, Written, Synced, Tracks, TxnOf;
    forall j | 0 <= j < |ts| ensures ss[j + 1].sb == ss[j].sb
        && Tracks(ss[j].sb, ss[j].blocks, ss[j + 1].blocks, lhs[j]) {
      assert Link(ss, lhs, ws, ino, off, src, j);
    }
  }

  lemma WrittenMounted(s0: State, s: State, m: State, ino: nat, off: nat, d: seq<byte>, r: nat)
    requires Written(s0, s, ino, off, d, r) && Shape(m) && Files(m) && |m.inodes| == |s.inodes|
    requires forall i :: 0 <= i < |s.inodes| ==> Unread(s, m, i)
    ensures Written(s0, m, ino, off, d, r)
  {
    hide Files, FileOk, Contents, Over;
    assert Unread(s, m, ino);
    forall i | 0 <= i < |s0.inodes| && i != ino ensures Unread(s0, m, i) {
      assert Unread(s0, s, i) && Unread(s, m, i);
    }
  }

  /** A run in which the chunks ss, lhs, ws of a filewrite() are the commits ts, the first `m` of them
      returned and a crash came in the next, or in the recovery after it. */
  ghost predicate Interrupted(g: L.Area, disks: seq<L.Disk>, ups: seq<bool>, events: seq<C.Event>, m: nat,
                              ss: seq<State>, lhs: seq<set<nat>>, ws: seq<nat>, ino: nat, off: nat, src: seq<byte>,
                              ts: seq<C.Txn>)
  {
    && C.IsRun(g, disks, ups, events) && Attempt(events, ts, m)
    && Chain(ss, lhs, ws, ino, off, src) && |ts| == |lhs|
    && (forall j :: 0 <= j < |ts| ==> TxnOf(ts[j], ss[j + 1], lhs[j]))
    && Whole(ss[0]) && Synced(ss[0]) && ino < |ss[0].inodes| && off <= ss[0].inodes[ino].size
    && Holds(g, L.Home(g, disks[0]), ss[0]) && g.start + g.size <= ss[0].sb.inodestart
  }

  /** filewrite() over a crash: the disk recovered from the state left by a crash after any disk write
      holds a consistent file system in which exactly the chunks kept are written, and those are all
      whose commit returned and at most one more. */
  lemma FilewriteCrash(g: L.Area, disks: seq<L.Disk>, ups: seq<bool>, events: seq<C.Event>, m: nat,
                       ss: seq<State>, lhs: seq<set<nat>>, ws: seq<nat>, ino: nat, off: nat, src: seq<byte>,
                       ts: seq<C.Txn>)
    requires Interrupted(g, disks, ups, events, m, ss, lhs, ws, ino, off, src, ts)
    ensures var n, k := |events|, Kept(events, m, |events|);
            && m <= k <= m + 1 && k <= |lhs| && ws[k] <= |src| && L.WfDisk(g, disks[n])
            && var d := Mount(ss[0].sb, ss[k].owner, L.Recovered(g, disks[n]));
            && Whole(d) && Written(ss[0], d, ino, off, src[..ws[k]], ws[k])
            && (ups[n] ==> L.Home(g, disks[n]) == L.Recovered(g, disks[n]))
  {
    hide Inv, Clean, Files, Written, Synced, Tracks, Chain, TxnOf, Mount, Holds, C.IsRun, L.Recovered, L.Home, L.WfDisk,
         Attempt, C.InstallAll, C.Durable, Commits;
    var n := |events|;
    AttemptBound(g, disks, ups, events, ts, m);
    var k := Kept(events, m, n);
    DurablePrefix(events, ts, m, n);
    assert events[..n] == events;
    C.RunRecovers(g, disks, ups, events, n);
    ChainEnds(ss, lhs, ws, ino, off, src);
    ChainCommits(ss, lhs, ws, ino, off, src, ts);
    InstallAllHolds(g, L.Home(g, disks[0]), ss, lhs, ts, k);
    ChainWritten(ss, lhs, ws, ino, off, src, k);
    var h := L.Recovered(g, disks[n]);
    MountOk(g, ss[k], h);
    WrittenMounted(ss[0], ss[k], Mount(ss[k].sb, ss[k].owner, h), ino, off, src[..ws[k]], ws[k]);
  }

  /** A consistent file system in which the file is as before, or holds the `w` bytes reported. */
  ghost predicate AllOrNone(s: State, d: State, ino: nat, off: nat, src: seq<byte>, w: nat, none: bool) {
    && Whole(d) && Shape(s) && ino < |s.inodes| && ino < |d.inodes| && FileOk(s, ino) && FileOk(d, ino)
    && off <= s.inodes[ino].size && w <= |src|
    && var c := Contents(s, ino);
    Contents(d, ino) == if none then c else Over(c, off, src[..w])[..NewSize(|c|, off + w)]
  }

  /** A write of at most three blocks is one log operation: the recovered file is the old one, or has
      everything that filewrite() reported. */
  lemma SmallWriteCrash(g: L.Area, disks: seq<L.Disk>, ups: seq<bool>, events: seq<C.Event>, m: nat,
                        ss: seq<State>, lhs: seq<set<nat>>, ws: seq<nat>, ino: nat, off: nat, src: seq<byte>,
                        ts: seq<C.Txn>, n: int, w: nat, all: bool)
    requires Interrupted(g, disks, ups, events, m, ss, lhs, ws, ino, off, src, ts)
    requires Cut(ws, n, w, all) && 0 < n <= 3 * BSIZE
    ensures var k := Kept(events, m, |events|);
            && k < |ss| && L.WfDisk(g, disks[|events|])
            && AllOrNone(ss[0], Mount(ss[0].sb, ss[k].owner, L.Recovered(g, disks[|events|])), ino, off, src, w, k == 0)
  {
    hide Inv, Clean, Files, FileOk, Synced, Tracks, Chain, TxnOf, Mount, Holds, C.IsRun, L.Recovered, L.Home, L.WfDisk,
         Attempt, Cut, Contents, Over;
    AttemptBound(g, disks, ups, events, ts, m);
    FilewriteCrash(g, disks, ups, events, m, ss, lhs, ws, ino, off, src, ts);
    ChainEnds(ss, lhs, ws, ino, off, src);
    ChainWritten(ss, lhs, ws, ino, off, src, |lhs|);
    CutSmall(ws, n, w, all);
    CutEnds(ws, n, w, all);
    if Kept(events, m, |events|) == 0 { OverNothing(Contents(ss[0], ino), off, src[..ws[0]]); }
  }

  lemma CutEnds(ws: seq<nat>, n: int, w: nat, all: bool)
    requires Cut(ws, n, w, all)
    ensures |ws| > 0 && ws[0] == 0 && ws[|ws| - 1] == w
  {
  }

  lemma OverNothing(c: seq<byte>, off: nat, d: seq<byte>)
    requires off <= |c| && d == []
    ensures Over(c, off, d)[..NewSize(|c|, off + |d|)] == c
  {
  }

  lemma AttemptBound(g: L.Area, disks: seq<L.Disk>, ups: seq<bool>, events: seq<C.Event>, ts: seq<C.Txn>, m: nat)
    requires C.IsRun(g, disks, ups, events) && Attempt(events, ts, m)
    ensures m <= |events| && |disks| == |ups| == |events| + 1
  {
  }
}
