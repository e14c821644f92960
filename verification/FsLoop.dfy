/** The rounds of writei() together: which blocks they take and log, when they stop, and what a
    commit of the logged blocks leaves on the disk. */
module FsLoop {
  import opened Common
  import opened Sets
  import opened Blocks
  import opened Bitmap
  import opened Dinode
  import opened FsSpec
  import opened FsSteps
  import opened FsMap
  import opened FsRoom
  import opened FsIo

  /** None of the blocks the file has from number `from` on is logged. */
  ghost predicate Ahead(s: State, ino: nat, from: nat, logged: set<nat>) {
    && Shape(s) && ino < |s.inodes|
    && forall bn {:trigger Addr(s, ino, bn)} :: from <= bn < MAXFILE && Addr(s, ino, bn) != 0 ==>
        Addr(s, ino, bn) !in logged
  }

  lemma AheadRound(s: State, s': State, ino: nat, bn: nat, before: set<nat>, after: set<nat>, marks: set<nat>)
    requires Inv(s') && s'.stale == {} && Ahead(s, ino, bn, before) && Round(s, s', ino, bn, before, after, marks)
    requires Gains(s, s', ino, bn, bn + 1)
    ensures Ahead(s', ino, bn + 1, after)
  {
    hide Inv, Addr, Need, FreeSet;
    forall k {:trigger Addr(s', ino, k)} | bn + 1 <= k < MAXFILE && Addr(s', ino, k) != 0
      ensures Addr(s', ino, k) !in after {
      assert Addr(s', ino, k) == Addr(s, ino, k);
      LinkAt(s', ino, k);
      if Addr(s', ino, bn) == Addr(s', ino, k) { Apart(s', ino, bn, ino, k); }
    }
  }

  /** One round, at position off + tot, logging `after` where `before` was logged. */
  ghost predicate Turned(s0: State, s1: State, s2: State, ino: nat, src: seq<byte>, off: nat, n: nat, tot: nat,
                         ok: bool, got: nat, before: set<nat>, after: set<nat>, marks: set<nat>)
  {
    && tot < n && off + n <= MAXBYTES && tot <= got <= |src| && Mid(s0, s2, ino, off, src[..got])
    && var bn := (off + tot) / BSIZE;
    && Round(s1, s2, ino, bn, before, after, marks) && Gains(s1, s2, ino, bn, bn + 1)
    && (ok ==> got == tot + Piece(off + tot, n - tot))
    && (!ok ==> || (got == tot && UsedBelow(s2.owner, s2.sb.size) && Addr(s2, ino, bn) == 0)
                || got == |src| < tot + Piece(off + tot, n - tot))
    && (!ok && Addr(s1, ino, bn) != 0 ==> after == before && OneBlock(s1, s2, Addr(s2, ino, bn)))
  }

  /** The two differ at most in the content of block `b`. */
  ghost predicate OneBlock(s: State, s': State, b: nat) {
    s' == s.(blocks := s'.blocks) && |s'.blocks| == |s.blocks|
    && forall c :: 0 <= c < |s.blocks| && c != b ==> s'.blocks[c] == s.blocks[c]
  }

  lemma TurnedFull(s0: State, s1: State, s2: State, ino: nat, src: seq<byte>, off: nat, n: nat, tot: nat,
                   before: set<nat>, after: set<nat>, marks: set<nat>)
    requires tot < n && off + n <= MAXBYTES && tot <= |src| && Mid(s0, s2, ino, off, src[..tot])
    requires var bn := (off + tot) / BSIZE;
             Round(s1, s2, ino, bn, before, after, marks) && Gains(s1, s2, ino, bn, bn + 1)
    requires UsedBelow(s2.owner, s2.sb.size) && Addr(s2, ino, (off + tot) / BSIZE) == 0
    ensures Turned(s0, s1, s2, ino, src, off, n, tot, false, tot, before, after, marks)
  {
    hide Mid, UsedBelow, Need, Piece, Addr;
  }

  lemma TurnedStore(s0: State, s1: State, s: State, s2: State, ino: nat, src: seq<byte>, off: nat, n: nat, tot: nat,
                    ok: bool, got: nat, before: set<nat>, mid: set<nat>, after: set<nat>, marks: set<nat>)
    requires tot < n && off + n <= MAXBYTES && tot <= got <= |src| && Mid(s0, s2, ino, off, src[..got])
    requires ok <==> tot + Piece(off + tot, n - tot) <= |src|
    requires got == if ok then tot + Piece(off + tot, n - tot) else |src|
    requires var bn := (off + tot) / BSIZE;
             && Round(s1, s, ino, bn, before, mid, marks) && Gains(s1, s, ino, bn, bn + 1)
                 && Gains(s, s2, ino, bn, bn + 1)
             && OneBlock(s, s2, Addr(s, ino, bn)) && Addr(s2, ino, bn) == Addr(s, ino, bn)
             && after == (if ok then mid + {Addr(s, ino, bn)} else mid)
             && (Addr(s1, ino, bn) != 0 ==> s == s1 && mid == before)
    ensures Turned(s0, s1, s2, ino, src, off, n, tot, ok, got, before, after, marks) && mid <= after
  {
    hide Mid, UsedBelow, Need, Piece, Addr, Gains, Round;
    var bn := (off + tot) / BSIZE;
    GainsShape(s, s2, ino, bn);
    RoundStore(s1, s, s2, ino, bn, before, mid, marks);
    GainsTrans(s1, s, s2, ino, bn, bn + 1);
  }

  lemma GainsShape(s: State, s': State, ino: nat, bn: nat)
    requires Gains(s, s', ino, bn, bn + 1)
    ensures Shape(s) && Shape(s') && ino < |s.inodes| && ino < |s'.inodes| && bn < MAXFILE
  {
    hide Addr, Need, FreeSet;
  }

  /** At the head of the loop, after `k` rounds and `tot` bytes */
  ghost predicate InLoop(s0: State, s: State, ino: nat, src: seq<byte>, off: nat, n: nat, tot: nat, k: nat,
                         before: set<nat>, after: set<nat>, D: set<nat>, M: set<nat>)
  {
    && off + n <= MAXBYTES && tot <= n && tot <= |src| && Mid(s0, s, ino, off, src[..tot])
    && Tally(s, ino, off, k, before, after, D, M) && InStep(off, n, tot, k) && (tot > 0 ==> k > 0)
    && Gains(s0, s, ino, off / BSIZE, BlocksTo(off + n))
    && Gains(s0, s, ino, off / BSIZE, BlocksTo(off + Min(n, |src|)))
    && (before == {} && tot < n ==> Ahead(s, ino, (off + tot) / BSIZE, after))
  }

  lemma LoopStart(s: State, ino: nat, src: seq<byte>, off: nat, n: nat, logged: set<nat>)
    requires Inv(s) && Clean(s) && Files(s) && ino < |s.inodes| && off <= s.inodes[ino].size && off + n <= MAXBYTES
    ensures InLoop(s, s, ino, src, off, n, 0, 0, logged, logged, {}, {})
  {
    hide Inv, Clean, Files, Mid, Tally, InStep, Gains, Addr;
    InvShape(s);
    InStepStart(off, n);
    MidStart(s, ino, off);
    TallyStart(s, ino, off, logged);
    assert src[..0] == [];
    GainsNone(s, ino, off / BSIZE, BlocksTo(off + n));
    GainsNone(s, ino, off / BSIZE, BlocksTo(off + Min(n, |src|)));
  }

  /** What the next round may rely on */
  lemma LoopFacts(s0: State, s: State, ino: nat, src: seq<byte>, off: nat, n: nat, tot: nat, k: nat, before: set<nat>,
                  after: set<nat>, D: set<nat>, M: set<nat>)
    requires InLoop(s0, s, ino, src, off, n, tot, k, before, after, D, M)
    ensures off + n <= MAXBYTES && tot <= n && tot <= |src| && Mid(s0, s, ino, off, src[..tot])
    ensures before <= after && |before| <= |after|
  {
    hide Mid, InStep, Gains, Addr, Ahead;
    SubsetSize(before, after);
  }

  lemma NextBlock(off: nat, n: nat, tot: nat, k: nat)
    requires tot < n && InStep(off, n, tot, k)
    ensures var t := tot + Piece(off + tot, n - tot); t <= n && (t < n ==> (off + t) / BSIZE == (off + tot) / BSIZE + 1)
  {
  }

  lemma LoopRound(s0: State, s1: State, s2: State, ino: nat, src: seq<byte>, off: nat, n: nat, tot: nat, k: nat,
                  got: nat, before: set<nat>, mid: set<nat>, after: set<nat>, D: set<nat>, M: set<nat>, marks: set<nat>)
    requires InLoop(s0, s1, ino, src, off, n, tot, k, before, mid, D, M)
    requires Turned(s0, s1, s2, ino, src, off, n, tot, true, got, mid, after, marks)
    ensures InLoop(s0, s2, ino, src, off, n, got, k + 1, before, after, D + {Addr(s2, ino, (off + tot) / BSIZE)}, M
            + marks)
  {
    hide Inv, Clean, Files, Mid, Tally, InStep, Gains, Addr, Piece, BlocksTo, Round, Ahead;
    var bn := (off + tot) / BSIZE;
    MidParts(s0, s1, ino, off, src[..tot]);
    MidParts(s0, s2, ino, off, src[..got]);
    RoundStep(off, n, tot, k);
    NextBlock(off, n, tot, k);
    if k == 0 && off % BSIZE != 0 { FirstMapped(s0, s1, ino, off); }
    TallyRound(s1, s2, ino, off, bn, k, before, mid, after, D, M, marks);
    GainsRound(s0, s1, s2, ino, off, n, tot);
    GainsRound(s0, s1, s2, ino, off, Min(n, |src|), tot);
    if before == {} { AheadRound(s1, s2, ino, bn, mid, after, marks); }
  }

  /** `e` is what the log will hold of `s`: a block changed without log_write() is as it was before. */
  ghost predicate Held(s0: State, s: State, e: State, ino: nat, src: seq<byte>, off: nat, tot: nat, got: nat,
                       logged: set<nat>, torn: nat)
    requires tot <= |src| && ino < |s0.inodes|
  {
    && OneBlock(e, s, torn) && (got == tot || torn in logged ==> e == s)
    && (Mid(s0, e, ino, off, src[..tot]) || (e == s && s0.inodes[ino].size <= off + tot))
  }

  /** The loop is done; `logged` minus `before` are the blocks it logged. */
  ghost predicate Ended(s0: State, s: State, e: State, ino: nat, src: seq<byte>, off: nat, n: nat, tot: nat, got: nat,
                        before: set<nat>, logged: set<nat>, torn: nat)
  {
    && off + n <= MAXBYTES && tot <= got <= |src| && tot <= n && Mid(s0, s, ino, off, src[..got])
    && Shape(s0) && Shape(s) && ino < |s0.inodes| && ino < |s.inodes|
    && Stopped(s, ino, src, off, n, tot, got) && Settled(s0, ino, |src|, off, n, tot, got)
    && Gains(s0, s, ino, off / BSIZE, BlocksTo(off + n))
    && before <= logged && |logged| + 1 <= |before| + Cost(off, n)
    && (got > tot ==> tot < n && s.sb.nmeta <= torn)
    && (before == {} ==> Held(s0, s, e, ino, src, off, tot, got, logged, torn))
  }

  lemma LoopDone(s0: State, s: State, ino: nat, src: seq<byte>, off: nat, n: nat, k: nat, before: set<nat>,
                 logged: set<nat>, D: set<nat>, M: set<nat>)
    requires InLoop(s0, s, ino, src, off, n, n, k, before, logged, D, M)
    ensures Ended(s0, s, s, ino, src, off, n, n, n, before, logged, 0)
  {
    hide Inv, Clean, Files, Mid, Tally, InStep, Gains, Addr, Piece, BlocksTo, Ahead, Settled, Cost;
    MidParts(s0, s, ino, off, src[..n]);
    MidShape(s0, s, ino, off, src[..n]);
    TallyOrder(s, ino, off, k, before, logged, D, M);
    StepsBound(off, n, n, k);
    TallyBound(s, ino, off, n, k, before, logged, D, M);
    TornExactly(s0, s, ino, src, off, n, n, n);
  }

  lemma TallyOrder(s: State, ino: nat, off: nat, k: nat, before: set<nat>, after: set<nat>, D: set<nat>, M: set<nat>)
    requires Tally(s, ino, off, k, before, after, D, M)
    ensures before <= after
  {
  }

  lemma StepsBound(off: nat, n: nat, tot: nat, k: nat)
    requires InStep(off, n, tot, k)
    ensures k <= Rounds(off, n)
  {
  }

  /** The state a commit saves after a failing round */
  ghost function Saved(s1: State, s2: State, tot: nat, got: nat, logged: set<nat>, torn: nat): State {
    if got == tot || torn in logged then s2 else s1
  }

  /** A failing round: the torn block is logged just when it was allocated in this call, and then it
      lies beyond the end of the file. */
  lemma HeldBack(s0: State, s1: State, s2: State, ino: nat, src: seq<byte>, off: nat, n: nat, tot: nat, k: nat,
                 got: nat, mid: set<nat>, after: set<nat>, D: set<nat>, M: set<nat>, marks: set<nat>)
    requires InLoop(s0, s1, ino, src, off, n, tot, k, {}, mid, D, M)
    requires Turned(s0, s1, s2, ino, src, off, n, tot, false, got, mid, after, marks)
    ensures ino < |s0.inodes|
    ensures var torn := Addr(s2, ino, (off + tot) / BSIZE);
            && Held(s0, s2, Saved(s1, s2, tot, got, after, torn), ino, src, off, tot, got, after, torn)
            && (got > tot && torn !in after ==> mid == after)
  {
    hide Inv, Clean, Files, Tally, InStep, Addr, Piece, BlocksTo, Bytes, Others, Need, FreeSet;
    var bn := (off + tot) / BSIZE;
    MidShape(s0, s1, ino, off, src[..tot]);
    if got > tot && Addr(s1, ino, bn) == 0 {
      assert s0.inodes[ino].size <= bn * BSIZE;
    }
    if got == tot { assert src[..got] == src[..tot]; }
  }

  lemma SavedTracks(sb: Super, base: seq<Block>, s1: State, s2: State, tot: nat, got: nat, before: set<nat>,
                    after: set<nat>, unlogged: set<nat>, torn: nat)
    requires Tracks(sb, base, s1.blocks, before) && Tracks(sb, base, s2.blocks, after + unlogged) && tot <= got
    requires unlogged <= {torn} && (got == tot ==> unlogged == {}) && (got > tot && torn !in after ==> before == after)
    ensures Tracks(sb, base, Saved(s1, s2, tot, got, after, torn).blocks, after)
  {
    if got == tot || torn in after { assert after + unlogged == after; }
  }

  lemma StoredAt(s0: State, s: State, ino: nat, off: nat, d: seq<byte>, k: nat)
    requires Mid(s0, s, ino, off, d) && k < |d|
    ensures off + k < MAXBYTES && Shape(s) && ino < |s.inodes| && s.sb.nmeta <= Addr(s, ino, (off + k) / BSIZE)
  {
    hide Inv, Files, Addr, Bytes, Others;
    MidParts(s0, s, ino, off, d);
    LinkAt(s, ino, (off + k) / BSIZE);
  }

  lemma LoopFail(s0: State, s1: State, s2: State, ino: nat, src: seq<byte>, off: nat, n: nat, tot: nat, k: nat,
                 got: nat, before: set<nat>, mid: set<nat>, after: set<nat>, D: set<nat>, M: set<nat>, marks: set<nat>)
    requires InLoop(s0, s1, ino, src, off, n, tot, k, before, mid, D, M)
    requires Turned(s0, s1, s2, ino, src, off, n, tot, false, got, mid, after, marks)
    ensures var torn := Addr(s2, ino, (off + tot) / BSIZE);
            && Ended(s0, s2, Saved(s1, s2, tot, got, after, torn), ino, src, off, n, tot, got, before, after, torn)
            && (before == {} && got > tot && torn !in after ==> mid == after)
  {
    hide Inv, Clean, Files, Mid, Tally, InStep, Gains, Addr, Piece, BlocksTo, Round, Ahead, Settled, Cost, Held, Saved,
         UsedBelow;
    var bn := (off + tot) / BSIZE;
    MidParts(s0, s1, ino, off, src[..tot]);
    MidParts(s0, s2, ino, off, src[..got]);
    MidShape(s0, s2, ino, off, src[..got]);
    RoundStep(off, n, tot, k);
    InStepAligned(off, n, tot, k);
    if k == 0 && off % BSIZE != 0 { FirstMapped(s0, s1, ino, off); }
    TallyRound(s1, s2, ino, off, bn, k, before, mid, after, D, M, marks);
    TallyOrder(s2, ino, off, k + 1, before, after, D + {Addr(s2, ino, bn)}, M + marks);
    TallyBound(s2, ino, off, n, k + 1, before, after, D + {Addr(s2, ino, bn)}, M + marks);
    GainsRound(s0, s1, s2, ino, off, n, tot);
    if tot < |src| { GainsRound(s0, s1, s2, ino, off, Min(n, |src|), tot); }
    TornExactly(s0, s2, ino, src, off, n, tot, got);
    if got > tot { StoredAt(s0, s2, ino, off, src[..got], tot); }
    if before == {} { HeldBack(s0, s1, s2, ino, src, off, n, tot, k, got, mid, after, D, M, marks); }
  }

  // ----- the end of writei(), in memory and in the log -----

  /** The size is set and the inode written back. */
  ghost predicate Closes(s: State, s': State, ino: nat, end: nat) {
    && Shape(s) && ino < |s.inodes|
    && var size := NewSize(s.inodes[ino].size, end);
    && size <= MAXBYTES && Shape(Resize(s, ino, size)) && s' == Save(Resize(s, ino, size), ino)
  }

  /** `e`, which the log is to hold of `s`, is a consistent file system where just `d` was written. */
  ghost predicate Lasting(s0: State, s: State, e: State, ino: nat, off: nat, d: seq<byte>, logged: set<nat>, torn: nat)
  {
    && Inv(e) && Clean(e) && Shape(e) && Files(e) && Written(s0, e, ino, off, d, |d|)
    && OneBlock(e, s, torn) && (e == s || s.sb.nmeta <= torn) && (torn in logged ==> e == s)
  }

  lemma CloseMid(s0: State, s: State, s': State, ino: nat, off: nat, d: seq<byte>, r: nat)
    requires Mid(s0, s, ino, off, d) && r <= |d| && Closes(s, s', ino, off + r)
    ensures Inv(s') && Clean(s') && Shape(s') && Files(s') && Written(s0, s', ino, off, d, r)
  {
    hide Inv, Clean, Files, Mid, Written, Save, Resize, SameFiles, OnDisk;
    MidParts(s0, s, ino, off, d);
    MidFinish(s0, s, ino, off, d, r);
    var s2 := Resize(s, ino, NewSize(s.inodes[ino].size, off + r));
    CleanStale(s2);
    ResizeSize(s, ino, NewSize(s.inodes[ino].size, off + r));
    SaveOk(s2, ino);
    WriteDone(s0, s, ino, off, d, r, s2, s');
    SavedClean(s2, s', ino);
    InvShape(s');
  }

  /** Bytes stored beyond the new end of the file do not count. */
  lemma WrittenLess(s0: State, s: State, ino: nat, off: nat, d: seq<byte>, r: nat)
    requires Written(s0, s, ino, off, d, r) && s0.inodes[ino].size <= off + r
    ensures Written(s0, s, ino, off, d[..r], r)
  {
    hide Files, FileOk, Addr, Unread;
    var c := Contents(s0, ino);
    assert Over(c, off, d)[..off + r] == Over(c, off, d[..r])[..off + r];
  }

  lemma CloseBlock(s: State, e: State, s': State, e': State, ino: nat, end: nat, b: nat)
    requires OneBlock(e, s, b) && s.sb.nmeta <= b && Closes(s, s', ino, end) && Closes(e, e', ino, end)
    ensures OneBlock(e', s', b)
  {
    hide Put;
  }

  lemma CloseSame(s: State, e: State, ino: nat, end: nat)
    requires Shape(s) && ino < |s.inodes| && |e.blocks| == |s.blocks| && s == e.(blocks := s.blocks)
    requires NewSize(s.inodes[ino].size, end) <= MAXBYTES && Shape(Resize(s, ino, NewSize(s.inodes[ino].size, end)))
    ensures Shape(e) && ino < |e.inodes| && Shape(Resize(e, ino, NewSize(e.inodes[ino].size, end)))
    ensures Closes(e, Save(Resize(e, ino, NewSize(e.inodes[ino].size, end)), ino), ino, end)
  {
    hide Put;
  }

  /** What the log will hold when writei() returns */
  ghost function Close(e: State, ino: nat, end: nat): State
    requires Shape(e) && ino < |e.inodes| && NewSize(e.inodes[ino].size, end) <= MAXBYTES
    requires Shape(Resize(e, ino, NewSize(e.inodes[ino].size, end)))
  {
    Save(Resize(e, ino, NewSize(e.inodes[ino].size, end)), ino)
  }

  lemma EndedLasting(s0: State, s: State, e: State, s': State, ino: nat, src: seq<byte>, off: nat, n: nat, tot: nat,
                     got: nat, logged: set<nat>, now: set<nat>, torn: nat) returns (e': State)
    requires Ended(s0, s, e, ino, src, off, n, tot, got, {}, logged, torn) && Closes(s, s', ino, off + tot)
    requires now == logged + {InodeBlock(s.sb, ino)}
    ensures Closes(e, e', ino, off + tot) && Lasting(s0, s', e', ino, off, src[..tot], now, torn)
    ensures got == tot ==> e' == s'
  {
    hide Inv, Clean, Files, Mid, Written, Save, Resize, Stopped, Settled, Gains, Cost, BlocksTo;
    CloseSame(s, e, ino, off + tot);
    e' := Close(e, ino, off + tot);
    if e == s {
      CloseMid(s0, s, s', ino, off, src[..got], tot);
      assert src[..got][..tot] == src[..tot];
      if got > tot && s0.inodes[ino].size <= off + tot { WrittenLess(s0, s', ino, off, src[..got], tot); }
      else if got > tot { CloseMid(s0, e, e', ino, off, src[..tot], tot); }
    } else {
      CloseMid(s0, e, e', ino, off, src[..tot], tot);
      CloseBlock(s, e, s', e', ino, off + tot, torn);
      InodeBlockLow(s, ino);
      CloseFields(s, s', ino, off + tot);
    }
  }

  lemma CloseFields(s: State, s': State, ino: nat, end: nat)
    requires Closes(s, s', ino, end)
    ensures s'.sb == s.sb && |s'.inodes| == |s.inodes| && s'.owner == s.owner
  {
  }

  lemma InodeBlockLow(s: State, ino: nat)
    requires Shape(s) && ino < |s.inodes|
    ensures s.sb.inodestart <= InodeBlock(s.sb, ino) < s.sb.bmapstart
  {
  }

  lemma CloseTracks(sb: Super, base: seq<Block>, e: State, e': State, ino: nat, end: nat, logged: set<nat>,
                    now: set<nat>)
    requires Closes(e, e', ino, end) && e.sb == sb && Tracks(sb, base, e.blocks, logged)
    requires now == logged + {InodeBlock(sb, ino)}
    ensures Tracks(sb, base, e'.blocks, now)
  {
    hide Put, Tracks;
    InodeBlockLow(e, ino);
    var ib := InodeBlock(sb, ino);
    TracksMore(sb, base, e.blocks, logged, ib, e'.blocks[ib], now);
  }

  lemma TurnedFacts(s0: State, s1: State, s2: State, ino: nat, src: seq<byte>, off: nat, n: nat, tot: nat, ok: bool,
                    got: nat, before: set<nat>, after: set<nat>, marks: set<nat>)
    requires Turned(s0, s1, s2, ino, src, off, n, tot, ok, got, before, after, marks)
    ensures tot <= got <= |src| && before <= after && |before| <= |after| && Shape(s2) && ino < |s2.inodes|
    ensures ok ==> got == tot + Piece(off + tot, n - tot)
  {
    hide Mid, Gains, Addr, Piece;
    SubsetSize(before, after);
  }

  lemma EndedFacts(s0: State, s: State, e: State, ino: nat, src: seq<byte>, off: nat, n: nat, tot: nat, got: nat,
                   before: set<nat>, logged: set<nat>, torn: nat)
    requires Ended(s0, s, e, ino, src, off, n, tot, got, before, logged, torn)
    ensures tot <= got <= |src| && tot <= n && Mid(s0, s, ino, off, src[..got]) && s.sb == s0.sb
    ensures before <= logged && |logged| + 1 <= |before| + Cost(off, n) && (got > tot ==> s.sb.nmeta <= torn)
    ensures |s.inodes| == |s0.inodes| && forall i :: 0 <= i < |s0.inodes| && i != ino ==> s.inodes[i] == s0.inodes[i]
  {
    hide Mid, Stopped, Settled, Gains, Cost, Held;
    MidParts(s0, s, ino, off, src[..got]);
    MidOthers(s0, s, ino, off, src[..got]);
  }

  lemma MidOthers(s0: State, s: State, ino: nat, off: nat, d: seq<byte>)
    requires Mid(s0, s, ino, off, d)
    ensures |s.inodes| == |s0.inodes| && forall i :: 0 <= i < |s0.inodes| && i != ino ==> s.inodes[i] == s0.inodes[i]
  {
    hide Inv, Files, Bytes, MappedTo;
  }

  lemma EndedAfter(s0: State, s: State, e: State, s': State, ino: nat, src: seq<byte>, off: nat, n: nat, tot: nat,
                   got: nat, before: set<nat>, logged: set<nat>, torn: nat)
    requires Ended(s0, s, e, ino, src, off, n, tot, got, before, logged, torn) && SameMap(s, s', ino)
    ensures Shape(s0) && ino < |s0.inodes| && Settled(s0, ino, |src|, off, n, tot, got) && off + n <= MAXBYTES
    ensures Shape(s') && ino < |s'.inodes| && Stopped(s', ino, src, off, n, tot, got)
    ensures Gains(s0, s', ino, off / BSIZE, BlocksTo(off + n))
    ensures before == {} ==> e.sb == s.sb
  {
    hide Mid, Stopped, Settled, Gains, Cost, SameMap;
    SameShape(s, s', ino);
    StoppedOn(s, s', ino, src, off, n, tot, got);
    SameMapGains(s, s', ino, off / BSIZE, BlocksTo(off + n));
    GainsTrans(s0, s, s', ino, off / BSIZE, BlocksTo(off + n));
  }

  lemma SameShape(s: State, s': State, ino: nat)
    requires SameMap(s, s', ino)
    ensures Shape(s') && ino < |s'.inodes|
  {
  }

  /** What writei() of `n` bytes at `off` did when it was not refused: `got` bytes stored, `r` reported. */
  ghost predicate Carried(s0: State, s: State, ino: nat, src: seq<byte>, off: nat, n: nat, r: nat, got: nat) {
    && Shape(s0) && Shape(s) && s.sb == s0.sb && ino < |s0.inodes| == |s.inodes| && off + n <= MAXBYTES
    && r <= got <= |src| && r <= n && Written(s0, s, ino, off, src[..got], r)
    && Stopped(s, ino, src, off, n, r, got) && Settled(s0, ino, |src|, off, n, r, got)
    && Gains(s0, s, ino, off / BSIZE, BlocksTo(off + n)) && OnDisk(s, ino) == s.inodes[ino]
    && forall i :: 0 <= i < |s0.inodes| && i != ino ==> OnDisk(s, i) == OnDisk(s0, i) && s.inodes[i] == s0.inodes[i]
  }

  lemma EndedCarried(s0: State, s: State, e: State, s': State, ino: nat, src: seq<byte>, off: nat, n: nat, tot: nat,
                     got: nat, before: set<nat>, logged: set<nat>, torn: nat)
    requires Ended(s0, s, e, ino, src, off, n, tot, got, before, logged, torn) && SameMap(s, s', ino) && s'.sb == s.sb
    requires Written(s0, s', ino, off, src[..got], tot) && OnDisk(s', ino) == s'.inodes[ino]
    requires forall i :: 0 <= i < |s'.inodes| && i != ino ==>
               OnDisk(s', i) == OnDisk(s0, i) && s'.inodes[i] == s.inodes[i]
    ensures Carried(s0, s', ino, src, off, n, tot, got) && (before == {} ==> e.sb == s.sb)
  {
    hide Mid, Stopped, Settled, Gains, Cost, SameMap, OnDisk, Written, Ended;
    SameShape(s, s', ino);
    EndedFacts(s0, s, e, ino, src, off, n, tot, got, before, logged, torn);
    EndedAfter(s0, s, e, s', ino, src, off, n, tot, got, before, logged, torn);
    WrittenSize(s0, s', ino, off, src[..got], tot);
  }

  // ----- runs -----

  ghost predicate Whole(s: State) {
    Inv(s) && Clean(s) && Shape(s) && Files(s)
  }

  /** One call: the flat files change as allowed, and how much a write stores and reports is what the
      disk before the call and the arguments determine. */
  ghost predicate Steps(s: State, op: Op, res: Result, got: nat, s': State) {
    && Whole(s) && Whole(s') && |s'.inodes| == |s.inodes| && Allowed(ViewOf(s), op, res, got, ViewOf(s'))
    && (op.Write? && res.Wrote? && res.r != -1 ==>
          res.r >= 0 && op.ino < |s.inodes| && op.off + op.n <= MAXBYTES
          && Settled(s, op.ino, |op.src|, op.off, op.n, res.r, got))
  }

  // ----- a torn write -----

  /** One free block is room for the first bytes of an empty file. */
  lemma FirstFits(s: State, ino: nat, n: nat)
    requires Inv(s) && s.sb.nmeta < s.sb.size && ino < |s.inodes| && n <= BSIZE && Shape(s)
    requires !Marked(s.blocks, s.sb.bmapstart, s.sb.nmeta)
    ensures Fits(s, ino, 0, n)
  {
    hide Inv, Addr, Marked;
    BitAt(s, s.sb.nmeta);
    assert s.sb.nmeta in FreeSet(s);
    assert BlocksTo(n) <= 1;
    SubsetSize(Holes(s, ino, 0, BlocksTo(n)), {0});
  }

  lemma FirstWritten(s0: State, s: State, ino: nat, d: seq<byte>)
    requires Written(s0, s, ino, 0, d, |d|) && s0.inodes[ino].size == 0
    ensures ino < |s.inodes| && Shape(s) && FileOk(s, ino) && Contents(s, ino) == d && s.inodes[ino].size == |d|
  {
    hide Files, FileOk, Unread;
    assert Over(Contents(s0, ino), 0, d)[..|d|] == d;
  }

  lemma PrefixFits(s: State, ino: nat, n: nat)
    requires Inv(s) && Clean(s) && Shape(s) && Files(s) && ino < |s.inodes| && n <= s.inodes[ino].size
    ensures n <= MAXBYTES && Fits(s, ino, 0, n)
  {
    hide Inv, Files, Gains, Fits, FileOk;
    FileAt(s, ino);
    CleanStale(s);
    GainsNone(s, ino, 0, BlocksTo(n));
    GrownFits(s, s, ino, 0, n);
  }

  lemma SecondWritten(s0: State, s: State, ino: nat, c: seq<byte>, d: seq<byte>)
    requires Written(s0, s, ino, 0, d, 0) && |d| <= |c| && Contents(s0, ino) == c
    ensures ino < |s.inodes| && Shape(s) && FileOk(s, ino) && Contents(s, ino) == d + c[|d|..]
  {
    hide Files, FileOk, Unread;
    assert Over(c, 0, d)[..|c|] == d + c[|d|..];
  }
}
