/** The on-disk redo log of kernel/log.c: its header block, the block writes that commit() and
    recovery issue, and what a completed recovery makes of any disk a crash can leave. */
module LogSpec {
  import opened Common
  import opened Blocks

  type Disk = map<nat, Block>

  /** The log occupies blocks start .. start + size: a header and size - 1 data blocks. */
  datatype Area = Area(start: nat, size: nat)

  predicate InLog(g: Area, b: nat) { g.start <= b < g.start + g.size }

  // ----- the header block -----

  /** write_head(): entries beyond the count keep their stale bytes. */
  function Encode(hb: Block, lh: seq<nat>): Block
    requires |lh| <= LOGSIZE && forall i :: 0 <= i < |lh| ==> lh[i] < U32
  {
    SetEntries(SetWord(hb, 0, |lh|), lh)
  }

  function SetEntries(hb: Block, lh: seq<nat>): Block
    requires |lh| <= LOGSIZE && forall i :: 0 <= i < |lh| ==> lh[i] < U32
  {
    if lh == [] then hb
    else SetWord(SetEntries(hb, lh[..|lh| - 1]), |lh|, lh[|lh| - 1])
  }

  /** read_head(); a count that no commit() writes is read as an empty log. */
  function Decode(hb: Block): seq<nat> {
    if Word(hb, 0) <= LOGSIZE then seq(Word(hb, 0), i requires 0 <= i < Word(hb, 0) => Word(hb, 1 + i)) else []
  }

  lemma {:induction false} EntriesRead(hb: Block, lh: seq<nat>, j: nat)
    requires |lh| <= LOGSIZE && j < NWORDS && forall i :: 0 <= i < |lh| ==> lh[i] < U32
    ensures Word(SetEntries(hb, lh), j) == if 1 <= j <= |lh| then lh[j - 1] else Word(hb, j)
  {
    hide Word, SetWord;
    if lh != [] {
      var n := |lh| - 1;
      EntriesRead(hb, lh[..n], j);
      WordSet(SetEntries(hb, lh[..n]), n + 1, lh[n], j);
    }
  }

  /** The header survives the disk. */
  lemma HeaderRoundTrip(hb: Block, lh: seq<nat>)
    requires |lh| <= LOGSIZE && forall i :: 0 <= i < |lh| ==> lh[i] < U32
    ensures Decode(Encode(hb, lh)) == lh
  {
    hide Word, SetWord, SetEntries;
    var h0 := SetWord(hb, 0, |lh|);
    EntriesRead(h0, lh, 0);
    WordSet(hb, 0, |lh|, 0);
    forall i | 0 <= i < |lh| ensures Word(Encode(hb, lh), 1 + i) == lh[i] {
      EntriesRead(h0, lh, 1 + i);
    }
  }

  // ----- block writes -----

  datatype Write = Write(b: nat, data: Block)

  function Apply(d: Disk, ws: seq<Write>): Disk {
    if ws == [] then d else Apply(d, ws[..|ws| - 1])[ws[|ws| - 1].b := ws[|ws| - 1].data]
  }

  lemma {:induction false} ApplyConcat(d: Disk, a: seq<Write>, b: seq<Write>)
    ensures Apply(d, a + b) == Apply(Apply(d, a), b)
  {
    if b == [] {
      assert a + b == a;
    } else {
      var n := |b| - 1;
      ApplyConcat(d, a, b[..n]);
      assert (a + b)[..|a + b| - 1] == a + b[..n];
    }
  }

  /** One more write of a list of writes. */
  lemma ApplyNext(d: Disk, trace: seq<Write>, ws: seq<Write>, k: nat)
    requires k < |ws|
    ensures Apply(d, ws[..k + 1]) == Apply(d, ws[..k])[ws[k].b := ws[k].data]
    ensures trace + ws[..k + 1] == trace + ws[..k] + [ws[k]]
  {
    assert ws[..k + 1][..k] == ws[..k];
  }

  /** write_log(): copy the logged blocks into the log. */
  function LogPart(g: Area, vals: seq<Block>): seq<Write> {
    seq(|vals|, j requires 0 <= j < |vals| => Write(g.start + 1 + j, vals[j]))
  }

  /** install_trans(): copy them to their home locations. */
  function HomePart(lh: seq<nat>, vals: seq<Block>): seq<Write>
    requires |lh| == |vals|
  {
    seq(|lh|, j requires 0 <= j < |lh| => Write(lh[j], vals[j]))
  }

  /** All writes of commit(), in order, for a header block `hb` before it. */
  function CommitWrites(g: Area, hb: Block, lh: seq<nat>, vals: seq<Block>): seq<Write>
    requires |lh| == |vals| <= LOGSIZE && forall i :: 0 <= i < |lh| ==> lh[i] < U32
  {
    LogPart(g, vals) + [Write(g.start, Encode(hb, lh))] + HomePart(lh, vals)
        + [Write(g.start, Encode(Encode(hb, lh), []))]
  }

  /** The data blocks of the log that belong to the header. */
  function Logged(g: Area, d: Disk): seq<Block>
    requires WfDisk(g, d)
  {
    var n := |Decode(d[g.start])|;
    seq(n, j requires 0 <= j < n => d[g.start + 1 + j])
  }

  /** All writes of recover_from_log(). */
  function RecoverWrites(g: Area, d: Disk): seq<Write>
    requires WfDisk(g, d)
  {
    HomePart(Decode(d[g.start]), Logged(g, d)) + [Write(g.start, Encode(d[g.start], []))]
  }

  // ----- what a disk means -----

  ghost predicate Distinct(lh: seq<nat>) {
    forall i, j :: 0 <= i < j < |lh| ==> lh[i] != lh[j]
  }

  /** Block numbers log_write() may collect: distinct, outside the log, fewer than its data blocks. */
  ghost predicate Loggable(g: Area, d: Disk, lh: seq<nat>) {
    && |lh| <= LOGSIZE && |lh| < g.size && Distinct(lh)
    && forall i :: 0 <= i < |lh| ==> lh[i] in d && lh[i] < U32 && !InLog(g, lh[i])
  }

  ghost predicate WfDisk(g: Area, d: Disk) {
    && g.size > 0 && (forall b :: g.start <= b < g.start + g.size ==> b in d)
    && Loggable(g, d, Decode(d[g.start]))
  }

  /** The log is empty: nothing is to be redone. */
  ghost predicate Idle(g: Area, d: Disk) {
    WfDisk(g, d) && Decode(d[g.start]) == []
  }

  /** The blocks the file system sees. */
  function Home(g: Area, d: Disk): Disk {
    map b | b in d && !InLog(g, b) :: d[b]
  }

  function Installed(h: Disk, lh: seq<nat>, vals: seq<Block>): Disk
    requires |lh| == |vals|
  {
    if lh == [] then h
    else Installed(h, lh[..|lh| - 1], vals[..|lh| - 1])[lh[|lh| - 1] := vals[|lh| - 1]]
  }

  /** What the file system sees after a completed recovery. */
  ghost function Recovered(g: Area, d: Disk): Disk
    requires WfDisk(g, d)
  {
    Installed(Home(g, d), Decode(d[g.start]), Logged(g, d))
  }

  lemma {:induction false} InstalledOther(h: Disk, lh: seq<nat>, vals: seq<Block>, b: nat)
    requires |lh| == |vals| && b !in lh
    ensures b in Installed(h, lh, vals) <==> b in h
    ensures b in h ==> Installed(h, lh, vals)[b] == h[b]
  {
    if lh != [] {
      var n := |lh| - 1;
      assert b != lh[n] && b !in lh[..n];
      InstalledOther(h, lh[..n], vals[..n], b);
    }
  }

  lemma {:induction false} InstalledHit(h: Disk, lh: seq<nat>, vals: seq<Block>, j: nat)
    requires |lh| == |vals| && Distinct(lh) && j < |lh|
    ensures lh[j] in Installed(h, lh, vals) && Installed(h, lh, vals)[lh[j]] == vals[j]
  {
    var n := |lh| - 1;
    if j < n {
      assert lh[j] != lh[n];
      InstalledHit(h, lh[..n], vals[..n], j);
    }
  }

  /** Redoing a partly done installation completes it. */
  lemma InstallRedo(h: Disk, lh: seq<nat>, vals: seq<Block>, k: nat)
    requires |lh| == |vals| && Distinct(lh) && k <= |lh|
    ensures Installed(Installed(h, lh[..k], vals[..k]), lh, vals) == Installed(h, lh, vals)
  {
    var h1 := Installed(h, lh[..k], vals[..k]);
    var x, y := Installed(h1, lh, vals), Installed(h, lh, vals);
    forall b ensures (b in x <==> b in y) && (b in x ==> x[b] == y[b]) {
      if b in lh {
        var j :| 0 <= j < |lh| && lh[j] == b;
        InstalledHit(h1, lh, vals, j);
        InstalledHit(h, lh, vals, j);
      } else {
        InstalledOther(h1, lh, vals, b);
        InstalledOther(h, lh, vals, b);
        assert b !in lh[..k];
        InstalledOther(h, lh[..k], vals[..k], b);
      }
    }
  }
}
