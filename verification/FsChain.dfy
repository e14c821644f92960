/** What the disk goes through when each log operation of filewrite() is committed. */
module FsChain {
  import opened Common
  import opened Sets
  import opened Blocks
  import opened Dinode
  import opened FsSpec
  import opened FsSteps
  import opened FsRoom
  import opened FsIo
  import opened FsLoop

  /** Every inode in memory is as on disk. */
  ghost predicate Synced(s: State) {
    Shape(s) && forall i {:trigger OnDisk(s, i)} :: 0 <= i < |s.inodes| ==> OnDisk(s, i) == s.inodes[i]
  }

  /** Committing the blocks `logged` turns the consistent disk `s` into the consistent disk `c`, with
      `d` written into the file. */
  ghost predicate Stage(s: State, c: State, ino: nat, off: nat, d: seq<byte>, logged: set<nat>) {
    && c.sb == s.sb && Tracks(s.sb, s.blocks, c.blocks, logged) && |logged| <= MAXOPBLOCKS
    && Inv(c) && Clean(c) && Shape(c) && Files(c) && Written(s, c, ino, off, d, |d|) && (Synced(s) ==> Synced(c))
  }

  ghost predicate Link(ss: seq<State>, lhs: seq<set<nat>>, ws: seq<nat>, ino: nat, off: nat, src: seq<byte>, j: nat)
    requires |ss| == |ws| == |lhs| + 1 && j < |lhs|
  {
    && ws[j] <= ws[j + 1] <= |src|
    && Stage(ss[j], ss[j + 1], ino, off + ws[j], src[ws[j]..ws[j + 1]], lhs[j])
  }

  /** ss[j] is the disk after `j` commits, when ws[j] bytes of `src` are written. */
  ghost predicate Chain(ss: seq<State>, lhs: seq<set<nat>>, ws: seq<nat>, ino: nat, off: nat, src: seq<byte>) {
    && |ss| == |ws| == |lhs| + 1 && ws[0] == 0
    && forall j {:trigger Link(ss, lhs, ws, ino, off, src, j)} :: 0 <= j < |lhs| ==> Link(ss, lhs, ws, ino, off, src, j)
  }

  lemma ChainMore(ss: seq<State>, lhs: seq<set<nat>>, ws: seq<nat>, ino: nat, off: nat, src: seq<byte>, c: State,
                  logged: set<nat>, r: nat)
    requires Chain(ss, lhs, ws, ino, off, src)
    requires var w := ws[|lhs|]; w + r <= |src| && Stage(ss[|lhs|], c, ino, off + w, src[w..][..r], logged)
    ensures Chain(ss + [c], lhs + [logged], ws + [ws[|lhs|] + r], ino, off, src)
  {
    hide Stage;
    var n, w := |lhs|, ws[|lhs|];
    var ss', lhs', ws' := ss + [c], lhs + [logged], ws + [w + r];
    assert src[w..][..r] == src[w..w + r];
    forall j | 0 <= j < |lhs'| ensures Link(ss', lhs', ws', ino, off, src, j) {
      if j < n { assert Link(ss, lhs, ws, ino, off, src, j); }
    }
  }

  // ----- where filewrite() cuts -----

  const CHUNK: nat := 3 * BSIZE            // what one log operation can hold

  /** A write of `n` bytes of which `w` were written, cut at `ws`: every chunk is as long as a chunk can
      be, but for the last one if not `all` was written. */
  ghost predicate Cut(ws: seq<nat>, n: int, w: nat, all: bool) {
    && |ws| > 0 && ws[0] == 0 && ws[|ws| - 1] == w
    && (forall k :: 0 <= k < |ws| - 1 ==> ws[k] < n)
    && (forall k :: 0 <= k < |ws| - 1 && (k + 1 < |ws| - 1 || all) ==> ws[k + 1] == ws[k] + Min(CHUNK, n - ws[k]))
  }

  lemma CutStart(n: int)
    ensures Cut([0], n, 0, true)
  {
  }

  lemma CutWeaker(ws: seq<nat>, n: int, w: nat, all: bool)
    requires Cut(ws, n, w, true)
    ensures Cut(ws, n, w, all)
  {
  }

  lemma CutMore(ws: seq<nat>, n: nat, w: nat, r: nat, n1: nat)
    requires Cut(ws, n, w, true) && w < n && n1 == if n - w > CHUNK then CHUNK else n - w
    ensures Cut(ws + [w + r], n, w + r, r == n1)
  {
    var all, full := ws + [w + r], r == n1;
    forall k | 0 <= k < |all| - 1 && (k + 1 < |all| - 1 || full) ensures all[k + 1] == all[k] + Min(CHUNK, n - all[k]) {
      if k < |ws| - 1 { assert all[k + 1] == ws[k + 1] && all[k] == ws[k]; }
    }
  }

  /** Chunk k starts at 3 * BSIZE * k. */
  lemma {:induction false} CutAt(ws: seq<nat>, n: int, w: nat, all: bool, k: nat)
    requires Cut(ws, n, w, all) && k < |ws| - 1
    ensures ws[k] == CHUNK * k
  {
    if k > 0 {
      CutAt(ws, n, w, all, k - 1);
      assert ws[k - 1] < n && ws[k] < n;
    }
  }

  /** How many there are when all was written */
  lemma CutCount(ws: seq<nat>, n: nat)
    requires Cut(ws, n, n, true)
    ensures |ws| - 1 == (n + CHUNK - 1) / CHUNK
  {
    if |ws| > 1 {
      var k := |ws| - 2;
      CutAt(ws, n, n, true, k);
      assert ws[k] < n && ws[k + 1] == ws[k] + Min(CHUNK, n - ws[k]);
    }
  }

  /** What fits one chunk is one chunk. */
  lemma CutSmall(ws: seq<nat>, n: int, w: nat, all: bool)
    requires Cut(ws, n, w, all)
    ensures |ws| > 2 ==> n > CHUNK
  {
    if |ws| > 2 { assert ws[1] < n && ws[0 + 1] == Min(CHUNK, n); }
  }

  /** The cut when filewrite() returns `ret`: nothing but whole chunks, or stopped in one */
  lemma CutEnd(ws: seq<nat>, n: int, w: nat, ret: int)
    requires Cut(ws, n, w, true) || (Cut(ws, n, w, false) && ret != n)
    requires ret == n > 0 ==> w == n
    ensures Cut(ws, n, w, ret == n) && (ret == n > 0 ==> |ws| - 1 == (n + CHUNK - 1) / CHUNK)
    ensures 0 < n <= CHUNK ==> |ws| <= 2
  {
    hide Cut;
    if Cut(ws, n, w, true) { CutWeaker(ws, n, w, ret == n); }
    if ret == n > 0 { CutCount(ws, n); }
    CutSmall(ws, n, w, ret == n);
  }

  lemma ChainStart(s: State, ino: nat, off: nat, src: seq<byte>)
    ensures Chain([s], [], [0], ino, off, src)
  {
  }

  lemma ChainEnds(ss: seq<State>, lhs: seq<set<nat>>, ws: seq<nat>, ino: nat, off: nat, src: seq<byte>)
    requires Chain(ss, lhs, ws, ino, off, src)
    ensures |ss| == |ws| == |lhs| + 1
  {
  }

  lemma TracksStart(sb: Super, blocks: seq<Block>, touched: set<nat>)
    requires |blocks| == sb.size && touched == {}
    ensures Tracks(sb, blocks, blocks, touched)
  {
  }

  /** One log operation of filewrite() */
  lemma StageOf(s: State, s': State, c: State, ino: nat, off: nat, d: seq<byte>, logged: set<nat>, torn: nat)
    requires Lasting(s, s', c, ino, off, d, logged, torn) && Tracks(s.sb, s.blocks, c.blocks, logged)
             && |logged| <= MAXOPBLOCKS
    requires s'.sb == s.sb && Shape(s) && Shape(s') && ino < |s.inodes| == |s'.inodes|
             && OnDisk(s', ino) == s'.inodes[ino]
    requires forall i :: 0 <= i < |s'.inodes| && i != ino ==>
               OnDisk(s', i) == OnDisk(s, i) && s'.inodes[i] == s.inodes[i]
    ensures Stage(s, c, ino, off, d, logged) && forall b :: b in logged ==>
              b < |c.blocks| == |s'.blocks| && c.blocks[b] == s'.blocks[b]
  {
    hide Inv, Clean, Files, Written, Tracks, OnDisk;
    TracksRange(s.sb, s.blocks, c.blocks, logged);
    if Synced(s) {
      forall i | 0 <= i < |c.inodes| ensures OnDisk(c, i) == c.inodes[i] {
        DiskSame(c, s', i, torn);
      }
    }
  }

  lemma TracksRange(sb: Super, base: seq<Block>, blocks: seq<Block>, touched: set<nat>)
    requires Tracks(sb, base, blocks, touched)
    ensures forall b :: b in touched ==> b < |blocks|
  {
  }

  lemma DiskSame(c: State, s: State, i: nat, torn: nat)
    requires Shape(c) && Shape(s) && i < |s.inodes| && OneBlock(c, s, torn) && (c == s || s.sb.nmeta <= torn)
    ensures i < |c.inodes| && OnDisk(c, i) == OnDisk(s, i)
  {
    hide Get;
    InodeBlockLow(s, i);
  }
}
