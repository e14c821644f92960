/** The buffer cache of kernel/bio.c as a state: buffers, who uses and locks them, and the logical
    value of every block.  Each locked section or disk transfer is one step; every step keeps the
    invariant that ties the buffers to one plain map from blocks to contents. */
module BioSpec {
  import opened Common
  import opened Blocks

  datatype Key = Key(dev: nat, blockno: nat)

  type Store = map<Key, Block>

  /** struct buf, without its list links; `owner` is the process holding its sleep lock. */
  datatype Buf = Buf(key: Key, valid: bool, refcnt: nat, data: Block, owner: Option<nat>)

  /** `users` are the processes between bget() and the end of brelse(), `pins` the bpin() calls not
      yet undone, `dirty` says that the lock holder changed the data and has neither logged nor
      written it, and `logical` is the last value stored in each block. */
  datatype State = State(buf: seq<Buf>, users: seq<set<nat>>, pins: seq<nat>, dirty: seq<bool>, disk: Store,
                         logical: Store)

  ghost predicate Shape(s: State) {
    && |s.users| == |s.pins| == |s.dirty| == |s.buf|
    && s.logical.Keys == s.disk.Keys && forall k :: k in s.disk ==> k.dev != 0
  }

  /** One buffer: exact reference count, its lock held by a user, and its data the block's value,
      which is on the disk too unless the buffer is pinned or being changed. */
  ghost predicate BufOk(s: State, i: nat)
    requires Shape(s) && i < |s.buf|
  {
    var b := s.buf[i];
    && b.refcnt == |s.users[i]| + s.pins[i]
    && (b.owner.Some? ==> b.owner.value in s.users[i])
    && (s.dirty[i] ==> b.valid && b.owner.Some?)
    && (s.pins[i] > 0 ==> b.valid)
    && (b.valid ==> b.key in s.disk && s.logical[b.key] == b.data)
    && (b.valid && s.pins[i] == 0 && !s.dirty[i] ==> s.disk[b.key] == b.data)
  }

  ghost predicate Different(s: State, i: nat, j: nat)
    requires i < |s.buf| && j < |s.buf|
  {
    s.buf[i].key.dev == 0 || s.buf[i].key != s.buf[j].key
  }

  ghost predicate Cached(s: State, k: Key) {
    exists i :: 0 <= i < |s.buf| && s.buf[i].valid && s.buf[i].key == k
  }

  ghost predicate Inv(s: State) {
    && Shape(s)
    && (forall i {:trigger BufOk(s, i)} :: 0 <= i < |s.buf| ==> BufOk(s, i))
    && (forall i, j {:trigger Different(s, i, j)} :: 0 <= i < |s.buf| && 0 <= j < |s.buf| && i != j ==>
        Different(s, i, j))
    && (forall k {:trigger s.logical[k]} :: k in s.disk && !Cached(s, k) ==> s.logical[k] == s.disk[k])
  }

  // ----- the steps -----

  /** bget() finds the block. */
  ghost function Hit(s: State, i: nat, t: nat): State
    requires Shape(s) && i < |s.buf|
  {
    s.(buf := s.buf[i := s.buf[i].(refcnt := s.buf[i].refcnt + 1)], users := s.users[i := s.users[i] + {t}])
  }

  /** bget() recycles an unused buffer. */
  ghost function Recycle(s: State, i: nat, t: nat, k: Key): State
    requires Shape(s) && i < |s.buf|
  {
    s.(buf := s.buf[i := s.buf[i].(key := k, valid := false, refcnt := 1)], users := s.users[i := {t}])
  }

  ghost function Lock(s: State, i: nat, t: nat): State
    requires Shape(s) && i < |s.buf|
  {
    s.(buf := s.buf[i := s.buf[i].(owner := Some(t))])
  }

  /** virtio_disk_rw(b, 0) in bread() */
  ghost function Fill(s: State, i: nat): State
    requires Shape(s) && i < |s.buf| && s.buf[i].key in s.disk
  {
    s.(buf := s.buf[i := s.buf[i].(data := s.disk[s.buf[i].key], valid := true)])
  }

  /** The lock holder stores into b->data. */
  ghost function Change(s: State, i: nat, d: Block): State
    requires Shape(s) && i < |s.buf|
  {
    s.(buf := s.buf[i := s.buf[i].(data := d)], dirty := s.dirty[i := true], logical := s.logical[s.buf[i].key := d])
  }

  /** bwrite() */
  ghost function Flush(s: State, i: nat): State
    requires Shape(s) && i < |s.buf|
  {
    s.(disk := s.disk[s.buf[i].key := s.buf[i].data], dirty := s.dirty[i := false])
  }

  /** bpin(), from log_write() */
  ghost function Pin(s: State, i: nat): State
    requires Shape(s) && i < |s.buf|
  {
    s.(buf := s.buf[i := s.buf[i].(refcnt := s.buf[i].refcnt + 1)], pins := s.pins[i := s.pins[i] + 1], dirty :=
        s.dirty[i := false])
  }

  /** log_write() of a block the log has already: its pin covers the new data too. */
  ghost function Absorb(s: State, i: nat): State
    requires Shape(s) && i < |s.buf|
  {
    s.(dirty := s.dirty[i := false])
  }

  ghost function Unpin(s: State, i: nat): State
    requires Shape(s) && i < |s.buf| && s.pins[i] > 0 && s.buf[i].refcnt > 0
  {
    s.(buf := s.buf[i := s.buf[i].(refcnt := s.buf[i].refcnt - 1)], pins := s.pins[i := s.pins[i] - 1])
  }

  /** brelse(), first half: releasesleep() */
  ghost function Unlock(s: State, i: nat): State
    requires Shape(s) && i < |s.buf|
  {
    s.(buf := s.buf[i := s.buf[i].(owner := None)])
  }

  /** brelse(), second half: b->refcnt-- */
  ghost function Unref(s: State, i: nat, t: nat): State
    requires Shape(s) && i < |s.buf| && s.buf[i].refcnt > 0
  {
    s.(buf := s.buf[i := s.buf[i].(refcnt := s.buf[i].refcnt - 1)], users := s.users[i := s.users[i] - {t}])
  }

  // ----- every step keeps the invariant -----

  /** A step that touches one buffer, keeps its key and validity, and no block's value. */
  lemma OneBuffer(s: State, s': State, i: nat)
    requires Inv(s) && i < |s.buf| && Shape(s') && |s'.buf| == |s.buf| && s'.buf == s.buf[i := s'.buf[i]]
    requires s'.buf[i].key == s.buf[i].key && s'.buf[i].valid == s.buf[i].valid
    requires s'.disk == s.disk && s'.logical == s.logical && BufOk(s', i)
    requires forall j :: 0 <= j < |s.buf| && j != i ==>
               s'.users[j] == s.users[j] && s'.pins[j] == s.pins[j] && s'.dirty[j] == s.dirty[j]
    ensures Inv(s')
  {
    forall j | 0 <= j < |s'.buf| ensures BufOk(s', j) { assert BufOk(s, j); }
    forall j, k | 0 <= j < |s'.buf| && 0 <= k < |s'.buf| && j != k ensures Different(s', j, k) {
      assert Different(s, j, k); }
    forall k {:trigger s'.logical[k]} | k in s'.disk && !Cached(s', k) ensures s'.logical[k] == s'.disk[k] {
      StillCached(s, s', k, i);
    }
  }

  lemma HitOk(s: State, i: nat, t: nat)
    requires Inv(s) && i < |s.buf| && t !in s.users[i]
    ensures Inv(Hit(s, i, t))
  {
    assert BufOk(s, i);
    OneBuffer(s, Hit(s, i, t), i);
  }

  lemma LockOk(s: State, i: nat, t: nat)
    requires Inv(s) && i < |s.buf| && t in s.users[i] && s.buf[i].owner == None
    ensures Inv(Lock(s, i, t))
  {
    assert BufOk(s, i);
    OneBuffer(s, Lock(s, i, t), i);
  }

  lemma PinOk(s: State, i: nat)
    requires Inv(s) && i < |s.buf| && s.buf[i].valid
    ensures Inv(Pin(s, i))
  {
    assert BufOk(s, i);
    OneBuffer(s, Pin(s, i), i);
  }

  lemma AbsorbOk(s: State, i: nat)
    requires Inv(s) && i < |s.buf| && s.pins[i] > 0
    ensures Inv(Absorb(s, i))
  {
    assert BufOk(s, i);
    OneBuffer(s, Absorb(s, i), i);
  }

  /** Only a buffer whose data is on the disk may lose its last pin. */
  lemma UnpinOk(s: State, i: nat)
    requires Inv(s) && i < |s.buf| && s.pins[i] > 0 && s.buf[i].key in s.disk && s.disk[s.buf[i].key] == s.buf[i].data
    ensures s.buf[i].refcnt > 0 && Inv(Unpin(s, i))
  {
    assert BufOk(s, i);
    OneBuffer(s, Unpin(s, i), i);
  }

  /** A changed buffer must be logged or written before it is released. */
  lemma UnlockOk(s: State, i: nat)
    requires Inv(s) && i < |s.buf| && !s.dirty[i]
    ensures Inv(Unlock(s, i))
  {
    assert BufOk(s, i);
    OneBuffer(s, Unlock(s, i), i);
  }

  lemma UnrefOk(s: State, i: nat, t: nat)
    requires Inv(s) && i < |s.buf| && t in s.users[i] && s.buf[i].owner != Some(t)
    ensures s.buf[i].refcnt > 0 && Inv(Unref(s, i, t))
  {
    assert BufOk(s, i);
    assert s.users[i] == (s.users[i] - {t}) + {t};
    OneBuffer(s, Unref(s, i, t), i);
  }

  /** What bread() returns is the last value stored: the disk has it if no buffer does. */
  lemma FillOk(s: State, i: nat)
    requires Inv(s) && i < |s.buf| && !s.buf[i].valid && s.buf[i].key in s.disk
    ensures Inv(Fill(s, i)) && Fill(s, i).buf[i].data == s.logical[s.buf[i].key]
  {
    var s', k0 := Fill(s, i), s.buf[i].key;
    forall j | 0 <= j < |s.buf| ensures !(s.buf[j].valid && s.buf[j].key == k0) {
      if j != i { assert Different(s, i, j); }
    }
    assert s.logical[k0] == s.disk[k0];
    forall j | 0 <= j < |s'.buf| ensures BufOk(s', j) { assert BufOk(s, j); }
    forall j, k | 0 <= j < |s'.buf| && 0 <= k < |s'.buf| && j != k ensures Different(s', j, k) {
      assert Different(s, j, k); }
    forall k {:trigger s'.logical[k]} | k in s'.disk && !Cached(s', k) ensures s'.logical[k] == s'.disk[k] {
      StillCached(s, s', k, i);
    }
  }

  /** Buffers other than `i` keep what they cache. */
  lemma StillCached(s: State, s': State, k: Key, i: nat)
    requires i < |s.buf| && |s'.buf| == |s.buf| && s'.buf == s.buf[i := s'.buf[i]]
    requires s.buf[i].valid && s.buf[i].key == k ==> s'.buf[i].valid && s'.buf[i].key == k
    ensures Cached(s, k) ==> Cached(s', k)
  {
    if Cached(s, k) {
      var j :| 0 <= j < |s.buf| && s.buf[j].valid && s.buf[j].key == k;
      assert s'.buf[j].valid && s'.buf[j].key == k;
    }
  }

  lemma ChangeOk(s: State, i: nat, d: Block)
    requires Inv(s) && i < |s.buf| && s.buf[i].valid && s.buf[i].owner.Some?
    ensures Inv(Change(s, i, d))
  {
    var s', k0 := Change(s, i, d), s.buf[i].key;
    assert BufOk(s, i);
    forall j | 0 <= j < |s'.buf| ensures BufOk(s', j) {
      assert BufOk(s, j);
      if j != i { assert Different(s, i, j); }
    }
    forall j, k | 0 <= j < |s'.buf| && 0 <= k < |s'.buf| && j != k ensures Different(s', j, k) {
      assert Different(s, j, k); }
    forall k {:trigger s'.logical[k]} | k in s'.disk && !Cached(s', k) ensures s'.logical[k] == s'.disk[k] {
      assert s'.buf[i].valid && s'.buf[i].key == k0;
      StillCached(s, s', k, i);
      assert k != k0;
      assert s'.logical[k] == s.logical[k];
    }
  }

  lemma FlushOk(s: State, i: nat)
    requires Inv(s) && i < |s.buf| && s.buf[i].valid
    ensures Inv(Flush(s, i))
  {
    var s', k0 := Flush(s, i), s.buf[i].key;
    assert BufOk(s, i);
    forall j | 0 <= j < |s'.buf| ensures BufOk(s', j) {
      assert BufOk(s, j);
      if j != i { assert Different(s, i, j); }
    }
    forall j, k | 0 <= j < |s'.buf| && 0 <= k < |s'.buf| && j != k ensures Different(s', j, k) {
      assert Different(s, j, k); }
    forall k {:trigger s'.logical[k]} | k in s'.disk && !Cached(s', k) ensures s'.logical[k] == s'.disk[k] {
      assert s.buf[i].valid && s.buf[i].key == k0;
      StillCached(s, s', k, i);
      assert k != k0;
      assert s.logical[k] == s.disk[k];
    }
  }

  /** An unused buffer holds nothing the disk does not have, so recycling it loses nothing. */
  lemma RecycleOk(s: State, i: nat, t: nat, k: Key)
    requires Inv(s) && i < |s.buf| && s.buf[i].refcnt == 0 && k in s.disk
    requires forall j :: 0 <= j < |s.buf| ==> s.buf[j].key != k
    ensures Inv(Recycle(s, i, t, k))
    ensures s.buf[i].valid ==> s.buf[i].key in s.disk && s.disk[s.buf[i].key] == s.buf[i].data
    ensures s.users[i] == {} && s.pins[i] == 0 && s.buf[i].owner == None
  {
    var s' := Recycle(s, i, t, k);
    assert BufOk(s, i);
    forall j | 0 <= j < |s'.buf| ensures BufOk(s', j) { assert BufOk(s, j); }
    forall j, l | 0 <= j < |s'.buf| && 0 <= l < |s'.buf| && j != l ensures Different(s', j, l) {
      assert Different(s, j, l); }
    forall l {:trigger s'.logical[l]} | l in s'.disk && !Cached(s', l) ensures s'.logical[l] == s'.disk[l] {
      forall j | 0 <= j < |s.buf| && j != i ensures !(s.buf[j].valid && s.buf[j].key == l) {
        assert s'.buf[j] == s.buf[j];
      }
      assert s.logical[l] == s.disk[l];
    }
  }

  /** The plain block map that the cache and the disk together show. */
  ghost function Shown(s: State, k: Key): Block
    requires k in s.disk
  {
    if Cached(s, k) then
      var i :| 0 <= i < |s.buf| && s.buf[i].valid && s.buf[i].key == k;
      s.buf[i].data
    else s.disk[k]
  }

  lemma ShownIsLogical(s: State, k: Key)
    requires Inv(s) && k in s.disk
    ensures Shown(s, k) == s.logical[k]
  {
    if Cached(s, k) {
      forall i | 0 <= i < |s.buf| && s.buf[i].valid && s.buf[i].key == k ensures s.buf[i].data == s.logical[k] {
        assert BufOk(s, i);
      }
    } else {
      assert s.logical[k] == s.disk[k];
    }
  }
}
