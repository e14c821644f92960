/** kernel/virtio_disk.c in place, with the device as further methods on the same queue. */
module Virtio {
  import opened Common
  import opened Blocks
  import opened VirtioSpec

  /** The 16-bit index `i` has counted to n. */
  ghost predicate Counts16(i: nat, n: nat) { i == n % U16 }

  /** 16-bit indices that count for ever still name the right ring slots. */
  lemma Index(i: nat, n: nat)
    requires Counts16(i, n)
    ensures i % NUM == n % NUM && Counts16((i + 1) % U16, n + 1)
  {
    assert n == U16 * (n / U16) + n % U16;
    assert U16 * (n / U16) == NUM * (8192 * (n / U16));
  }

  lemma SameIndex(i: nat, j: nat, m: nat, n: nat)
    requires Counts16(i, m) && Counts16(j, n) && m <= n <= m + 2
    ensures i == j <==> m == n
  {
  }

  class Queue {
    var free: seq<bool>
    var desc: seq<Desc>
    var ops: seq<Op>
    var info: seq<Info>
    var avail: seq<nat>                    // disk.avail->ring
    var availIdx: nat                      // disk.avail->idx
    var used: seq<nat>                     // disk.used->ring[].id
    var usedIdx: nat                       // disk.used->idx
    var lookedAt: nat                      // disk.used_idx
    var fetched: nat                       // the device's position in the avail ring
    var busy: map<nat, bool>               // b->disk
    var data: map<nat, Block>              // b->data
    var store: map<nat, Block>             // the disk, by sector of a block's start
    ghost var q: State

    ghost predicate Valid()
      reads this
    {
      && Inv(q) && free == q.free && desc == q.desc && ops == q.ops && info == q.info && avail == q.avail
          && used == q.used && busy == q.busy
      && Counts16(availIdx, |q.reqs|) && Counts16(fetched, q.taken) && Counts16(usedIdx, |q.completed|)
          && Counts16(lookedAt, q.seen)
    }

    /** virtio_disk_init(): all descriptors free, both rings empty */
    constructor (buffers: map<nat, Block>, disk: map<nat, Block>)
      ensures Valid() && data == buffers && store == disk && q.reqs == []
    {
      free, desc, ops := seq(NUM, _ => true), seq(NUM, _ => Zero()), seq(NUM, _ => Op(false, 0));
      info, avail, used := seq(NUM, _ => Info(None, 0)), seq(NUM, _ => 0), seq(NUM, _ => 0);
      availIdx, usedIdx, lookedAt, fetched := 0, 0, 0, 0;
      busy, data, store := map[], buffers, disk;
      q := State(seq(NUM, _ => true), seq(NUM, _ => Zero()), seq(NUM, _ => Op(false, 0)), seq(NUM, _ => Info(None, 0)),
                 seq(NUM, _ => 0), seq(NUM, _ => 0), map[], [], 0, [], 0, {}, {}, map[], map[], {});
    }

    // ----- descriptors -----

    /** alloc_desc(): the lowest free descriptor, -1 if there is none */
    method AllocDesc() returns (r: int)
      requires |free| == NUM
      modifies this`free
      ensures r == -1 <==> forall i :: 0 <= i < NUM ==> !old(free)[i]
      ensures r == -1 ==> free == old(free)
      ensures r != -1 ==> 0 <= r < NUM && old(free)[r] && free == old(free)[r := false] && forall i :: 0 <= i < r ==>
                !old(free)[i]
    {
      var i := 0;
      while i < NUM
        invariant 0 <= i <= NUM && free == old(free) && forall k :: 0 <= k < i ==> !free[k]
      {
        if free[i] {
          free := free[i := false];
          return i;
        }
        i := i + 1;
      }
      return -1;
    }

    /** free_desc(); its two panics are the requires. */
    method FreeDesc(i: nat)
      requires |free| == NUM && |desc| == NUM && i < NUM && !free[i]
      modifies this`free, this`desc
      ensures free == old(free)[i := true] && desc == old(desc)[i := Zero()]
    {
      desc := desc[i := Zero()];
      free := free[i := true];
    }

    /** alloc3_desc(): three descriptors or none */
    method Alloc3() returns (ok: bool, idx: seq<nat>)
      requires |free| == NUM && |desc| == NUM
      modifies this`free, this`desc
      ensures |desc| == NUM && (forall i :: 0 <= i < NUM && !old(free)[i] ==> desc[i] == old(desc)[i])
      ensures ok ==> |idx| == 3 && idx[0] < NUM && idx[1] < NUM && idx[2] < NUM
      ensures ok ==> idx[0] != idx[1] && idx[0] != idx[2] && idx[1] != idx[2]
      ensures ok ==> old(free)[idx[0]] && old(free)[idx[1]] && old(free)[idx[2]]
      ensures ok ==> desc == old(desc) && free == old(free)[idx[0] := false][idx[1] := false][idx[2] := false]
      ensures !ok ==> free == old(free) && Count(free, NUM) < 3
    {
      hide Reserved;
      idx := [];
      ReservedStart(free);
      while |idx| < 3
        invariant |idx| <= 3 && |free| == NUM && Reserved(old(free), free, idx) && desc == old(desc)
        decreases 3 - |idx|
      {
        ghost var before := free;
        var i := AllocDesc();
        if i < 0 {
          CountNone(free, NUM);
          CountReserved(old(free), free, idx);
          GiveBack(idx, old(free));
          return false, idx;
        }
        ReservedMore(old(free), before, idx, i);
        idx := idx + [i];
      }
      ReservedThree(old(free), free, idx);
      return true, idx;
    }

    /** The inner loop of alloc3_desc() when the third or an earlier descriptor is missing */
    method GiveBack(idx: seq<nat>, ghost was: seq<bool>)
      requires |desc| == NUM && |was| == NUM && Reserved(was, free, idx)
      modifies this`free, this`desc
      ensures free == was && |desc| == NUM && forall k :: 0 <= k < NUM && !was[k] ==> desc[k] == old(desc)[k]
    {
      hide Reserved;
      var j := 0;
      assert idx[0..] == idx;
      while j < |idx|
        invariant 0 <= j <= |idx| && |desc| == NUM && Reserved(was, free, idx[j..]) && |was| == NUM
        invariant forall k :: 0 <= k < NUM && !was[k] ==> desc[k] == old(desc)[k]
      {
        ReservedBack(was, free, idx[j..]);
        assert idx[j..][1..] == idx[j + 1..];
        FreeDesc(idx[j]);
        j := j + 1;
      }
      ReservedNone(was, free, idx[j..]);
    }

    // ----- virtio_disk_rw() and virtio_disk_intr() -----

    /** virtio_disk_rw() up to the notification; false if it must first sleep for descriptors.  The
        caller holds the buffer's lock. */
    method Start(b: nat, blockno: nat, write: bool) returns (ok: bool, h: nat, ghost d1: nat, ghost d2: nat)
      requires Valid() && NewBuffer(q, b) && blockno < 0x8000_0000
      modifies this`free, this`desc, this`ops, this`info, this`avail, this`availIdx, this`busy, this`q
      ensures Valid() && Shape(old(q)) && (ok <==> Count(old(free), NUM) >= 3)
      ensures ok ==> Three(old(q), h, d1, d2) && q == Submit(old(q), h, d1, d2, b, blockno, write)
      ensures !ok ==> q == old(q).(desc := desc)
    {
      hide Inv, Counts16, Count, Submit, Shape, Chain;
      ShapeOf(q);
      Lengths(q);
      var idx;
      ok, idx := Alloc3();
      h, d1, d2 := 0, 0, 0;
      if !ok {
        DescChanged(q, q.(desc := desc));
        q := q.(desc := desc);
        return;
      }
      h, d1, d2 := idx[0], idx[1], idx[2];
      NotOwned(q, h, d1, d2);
      CountThree(q.free, h, d1, d2);
      SubmitOk(q, h, d1, d2, b, blockno, write);
      SubmitIs(q, h, d1, d2, b, blockno, write);
      Index(availIdx, |q.reqs|);
      Format(h, idx[1], idx[2], b, blockno, write);
      q := Submit(q, h, d1, d2, b, blockno, write);
    }

    /** Formats the three descriptors, records the buffer and announces the chain. */
    method Format(h: nat, d1: nat, d2: nat, b: nat, blockno: nat, write: bool)
      requires |desc| == NUM && |ops| == NUM && |info| == NUM && |avail| == NUM && h < NUM && d1 < NUM && d2 < NUM
               && h != d1 && h != d2 && d1 != d2
      modifies this`desc, this`ops, this`info, this`avail, this`availIdx, this`busy
      ensures desc == old(desc)[h := Desc(Header(h), 16, true, false, d1)][d1 :=
              Desc(Data(b), BSIZE, true, !write, d2)][d2 := Desc(Status(h), 1, false, true, 0)]
      ensures ops == old(ops)[h := Op(write, blockno * 2)] && info == old(info)[h := Info(Some(b), 0xff)]
      ensures busy == old(busy)[b := true] && avail == old(avail)[old(availIdx) % NUM := h]
              && availIdx == (old(availIdx) + 1) % U16
    {
      var sector := blockno * (BSIZE / 512);
      ops := ops[h := Op(write, sector)];
      desc := desc[h := Desc(Header(h), 16, true, false, d1)];
      desc := desc[d1 := Desc(Data(b), BSIZE, true, !write, d2)];
      info := info[h := Info(info[h].b, 0xff)];
      desc := desc[d2 := Desc(Status(h), 1, false, true, 0)];
      busy := busy[b := true];
      info := info[h := Info(Some(b), info[h].status)];
      avail := avail[availIdx % NUM := h];
      availIdx := (availIdx + 1) % U16;
    }

    /** The device fetches the next request from the avail ring. */
    method DeviceTake() returns (h: nat)
      requires Valid() && q.taken < |q.reqs|
      modifies this`fetched, this`q
      ensures Valid() && q == Take(old(q)) && h == q.reqs[old(q).taken].head && q.taken == old(q).taken + 1
    {
      hide Inv, Counts16, Shape;
      Lengths(q);
      TakeOk(q);
      Index(fetched, q.taken);
      h := avail[fetched % NUM];
      fetched := (fetched + 1) % U16;
      q := Take(q);
    }

    /** The device follows the chain from `h`, transfers the block, and reports completion. */
    method DeviceComplete(h: nat, ghost r: nat)
      requires Valid() && r < q.taken && r !in q.finished && r < |q.reqs| && q.reqs[r].head == h
      requires q.reqs[r].b in data && q.reqs[r].blockno * 2 in store
      modifies this`data, this`store, this`info, this`used, this`usedIdx, this`q
      ensures h < NUM && Shape(old(q)) && Valid() && q == Complete(old(q), r)
      ensures var req := old(q).reqs[r];
              if req.write then data == old(data) && store == old(store)[req.blockno * 2 := data[req.b]]
              else store == old(store) && data == old(data)[req.b := store[req.blockno * 2]]
    {
      hide Inv, Counts16, Shape, Complete;
      CompleteFacts(q, r);
      Transfer(h, q.reqs[r]);
      Report(h, r);
    }

    /** The device's entry in the used ring */
    method Report(h: nat, ghost r: nat)
      requires Inv(q) && r < q.taken && r !in q.finished && r < |q.reqs| && q.reqs[r].head == h < NUM && |q.info| == NUM
      requires free == q.free && desc == q.desc && ops == q.ops && avail == q.avail && used == q.used && busy == q.busy
      requires Counts16(availIdx, |q.reqs|) && Counts16(fetched, q.taken) && Counts16(usedIdx, |q.completed|)
               && Counts16(lookedAt, q.seen)
      requires info == q.info[h := q.info[h].(status := 0)]
      modifies this`used, this`usedIdx, this`q
      ensures Shape(old(q)) && Valid() && q == Complete(old(q), r)
    {
      hide Inv, Counts16, Shape, Complete;
      CompleteFacts(q, r);
      Index(usedIdx, |q.completed|);
      used := used[usedIdx % NUM := h];
      usedIdx := (usedIdx + 1) % U16;
      q := Complete(q, r);
    }

    /** The header says what to do, the second descriptor with which buffer, the third where to report. */
    method Transfer(h: nat, ghost req: Req)
      requires |desc| == NUM && |ops| == NUM && |info| == NUM && h < NUM && desc[h].addr == Header(h)
               && desc[h].next < NUM
      requires desc[desc[h].next].addr == Data(req.b) && desc[desc[h].next].next < NUM
               && desc[desc[desc[h].next].next].addr == Status(h)
      requires ops[h] == Op(req.write, req.blockno * 2) && req.b in data && req.blockno * 2 in store
      modifies this`data, this`store, this`info
      ensures info == old(info)[h := old(info)[h].(status := 0)]
      ensures if req.write then data == old(data) && store == old(store)[req.blockno * 2 := data[req.b]]
              else store == old(store) && data == old(data)[req.b := store[req.blockno * 2]]
    {
      var op := ops[desc[h].addr.i];
      var second := desc[desc[h].next];
      if op.write {
        store := store[op.sector := data[second.addr.b]];
      } else {
        data := data[second.addr.b := store[op.sector]];
      }
      var third := desc[second.next];
      info := info[third.addr.i := info[third.addr.i].(status := 0)];
    }

    /** virtio_disk_intr(): each completion not yet seen reaches the buffer of its own request. */
    method Intr()
      requires Valid()
      modifies this`busy, this`lookedAt, this`q
      ensures Valid() && Delivered(old(q), q, |q.completed|)
    {
      hide Inv, Counts16, Shape, Delivered, Deliver;
      DeliveredNone(q);
      Lengths(q);
      while lookedAt != usedIdx
        invariant Valid() && q.seen <= |q.completed| && Delivered(old(q), q, q.seen)
        decreases |q.completed| - q.seen
      {
        AtMostTwo(q);
        CountParts(q);
        SameIndex(lookedAt, usedIdx, q.seen, |q.completed|);
        IntrOne(old(q));
      }
      AtMostTwo(q);
      CountParts(q);
      SameIndex(lookedAt, usedIdx, q.seen, |q.completed|);
    }

    /** One round of its loop; the panic on a bad status is never reached. */
    method IntrOne(ghost q0: State)
      requires Valid() && q.seen < |q.completed| && Delivered(q0, q, q.seen)
      modifies this`busy, this`lookedAt, this`q
      ensures Valid() && Shape(old(q)) && old(q).completed[old(q).seen] < |old(q).reqs| && q == Deliver(old(q))
      ensures Delivered(q0, q, q.seen) && q.completed == old(q).completed && q.seen == old(q).seen + 1
    {
      hide Inv, Counts16, Shape, Deliver, Delivered;
      DeliverFacts(q0, q);
      Index(lookedAt, q.seen);
      var id := used[lookedAt % NUM];
      assert info[id].status == 0;
      var b := info[id].b.value;
      busy := busy[b := false];
      lookedAt := (lookedAt + 1) % U16;
      q := Deliver(q);
    }

    /** The rest of virtio_disk_rw() for buffer b, once b->disk is 0: free_chain() */
    method Finish(h: nat, b: nat)
      requires Valid() && h in q.active && q.active[h] < |q.reqs| && q.reqs[q.active[h]].b == b
      requires b in busy && !busy[b]
      modifies this`free, this`desc, this`info, this`q
      ensures Inv(old(q)) && Valid() && q == Retire(old(q), h)
      ensures |free| == |old(free)| == NUM && Count(free, NUM) == Count(old(free), NUM) + 3
    {
      hide Inv, Counts16, Shape, ChainOk, Count, Retire;
      Lengths(q);
      DoneRests(q, h);
      RetireOk(q, h);
      ChainUsed(q, h);
      RetireIs(q, h);
      CountChain(free, h, desc[h].next, desc[desc[h].next].next);
      info := info[h := info[h].(b := None)];
      FreeChain(h);
      q := Retire(q, h);
    }

    /** free_chain(): follows next while the flag says so */
    method FreeChain(h: nat)
      requires |free| == NUM && |desc| == NUM && h < NUM && !free[h] && desc[h].hasNext
      requires var d1 := desc[h].next; d1 < NUM && d1 != h && !free[d1] && desc[d1].hasNext
      requires var d2 := desc[desc[h].next].next;
               d2 < NUM && d2 != h && d2 != desc[h].next && !free[d2] && !desc[d2].hasNext
      modifies this`free, this`desc
      ensures var d1 := old(desc)[h].next; var d2 := old(desc)[d1].next;
              free == old(free)[h := true][d1 := true][d2 := true]
                  && desc == old(desc)[h := Zero()][d1 := Zero()][d2 := Zero()]
    {
      var i := h;
      ghost var n := 0;
      ghost var d1 := desc[h].next;
      ghost var d2 := desc[d1].next;
      while true
        invariant n <= 2 && i == [h, d1, d2][n] && |free| == NUM && |desc| == NUM
        invariant n == 0 ==> free == old(free) && desc == old(desc)
        invariant n == 1 ==> free == old(free)[h := true] && desc == old(desc)[h := Zero()]
        invariant n == 2 ==> free == old(free)[h := true][d1 := true] && desc == old(desc)[h := Zero()][d1 := Zero()]
        decreases 2 - n
      {
        var flag := desc[i].hasNext;
        var nxt := desc[i].next;
        FreeDesc(i);
        if flag {
          i, n := nxt, n + 1;
        } else {
          break;
        }
      }
    }
  }

  lemma ShapeOf(s: State)
    requires Inv(s)
    ensures Shape(s)
  {
  }

  lemma Lengths(s: State)
    requires Inv(s)
    ensures |s.free| == NUM && |s.desc| == NUM && |s.ops| == NUM && |s.info| == NUM && |s.avail| == NUM
            && |s.used| == NUM
    ensures s.seen <= |s.completed|
  {
  }

  lemma ChainWalk(s: State, h: nat)
    requires Shape(s) && h in s.active && ChainOk(s, h)
    ensures h < NUM && s.active[h] < |s.reqs| && |s.desc| == NUM && |s.ops| == NUM
    ensures var q := s.reqs[s.active[h]];
            && s.desc[h].addr == Header(h) && s.desc[h].next < NUM && s.desc[s.desc[h].next].addr == Data(q.b)
            && s.desc[s.desc[h].next].next < NUM && s.desc[s.desc[s.desc[h].next].next].addr == Status(h)
            && s.ops[h] == Op(q.write, q.blockno * 2)
  {
  }

  /** All that the device's completion of request r needs to know. */
  lemma CompleteFacts(s: State, r: nat)
    requires Inv(s) && r < s.taken && r !in s.finished && r < |s.reqs|
    ensures Shape(s) && s.reqs[r].head < NUM && |s.desc| == NUM && |s.ops| == NUM && |s.info| == NUM && |s.used| == NUM
    ensures var req, h := s.reqs[r], s.reqs[r].head;
            && s.desc[h].addr == Header(h) && s.desc[h].next < NUM && s.desc[s.desc[h].next].addr == Data(req.b)
            && s.desc[s.desc[h].next].next < NUM && s.desc[s.desc[s.desc[h].next].next].addr == Status(h)
            && s.ops[h] == Op(req.write, req.blockno * 2)
    ensures var s', h := Complete(s, r), s.reqs[r].head;
            && Inv(s') && s'.info == s.info[h := s.info[h].(status := 0)] && s'.used == s.used[|s.completed| % NUM := h]
            && |s'.completed| == |s.completed| + 1 && s'.free == s.free && s'.desc == s.desc && s'.ops == s.ops
            && s'.avail == s.avail && s'.busy == s.busy && s'.reqs == s.reqs && s'.taken == s.taken && s'.seen == s.seen
  {
    hide Inv, ChainOk;
    Lengths(s);
    ShapeOf(s);
    CompleteOk(s, r);
    ChainWalk(s, s.reqs[r].head);
  }

  /** All that one round of virtio_disk_intr() needs to know. */
  lemma DeliverFacts(q0: State, s: State)
    requires Inv(s) && s.seen < |s.completed| && Delivered(q0, s, s.seen)
    ensures Shape(s) && s.completed[s.seen] < |s.reqs| && |s.used| == NUM && |s.info| == NUM
    ensures var id := s.used[s.seen % NUM]; id < NUM && s.info[id] == Info(Some(s.reqs[s.completed[s.seen]].b), 0)
    ensures var s' := Deliver(s);
            && Inv(s') && Delivered(q0, s', s'.seen) && s'.busy == s.busy[s.reqs[s.completed[s.seen]].b := false]
                && s'.seen == s.seen + 1
            && s'.free == s.free && s'.desc == s.desc && s'.ops == s.ops && s'.info == s.info && s'.avail == s.avail
                && s'.used == s.used
            && s'.reqs == s.reqs && s'.taken == s.taken && s'.completed == s.completed
  {
    hide Inv, Delivered;
    Lengths(s);
    ShapeOf(s);
    DeliverOk(s);
    DeliveredMore(q0, s, Deliver(s));
  }

  lemma RetireIs(s: State, h: nat)
    requires Inv(s) && h in s.active && Shape(s) && ChainOk(s, h)
    ensures var d1 := s.desc[h].next; var d2 := s.desc[d1].next;
            && d1 < NUM && d2 < NUM && h < NUM && h != d1 && h != d2 && d1 != d2 && s.desc[h].hasNext
                && s.desc[d1].hasNext && !s.desc[d2].hasNext
            && Retire(s, h) == s.(free := s.free[h := true][d1 := true][d2 := true], desc :=
                s.desc[h := Zero()][d1 := Zero()][d2 := Zero()],
                                  info := s.info[h := s.info[h].(b := None)],
                                  active := s.active - {h}, own := s.own - {h, d1, d2},
                                      resting := s.resting - {s.active[h]})
  {
  }

  lemma CountChain(free: seq<bool>, h: nat, d1: nat, d2: nat)
    requires |free| == NUM && h < NUM && d1 < NUM && d2 < NUM && h != d1 && h != d2 && d1 != d2 && !free[h]
             && !free[d1] && !free[d2]
    ensures Count(free[h := true][d1 := true][d2 := true], NUM) == Count(free, NUM) + 3
  {
    CountFlip(free, h, NUM);
    CountFlip(free[h := true], d1, NUM);
    CountFlip(free[h := true][d1 := true], d2, NUM);
  }

  // ----- what one interrupt delivers -----

  /** Request r is among the completions from position lo up to hi. */
  ghost predicate Among(s: State, lo: nat, hi: nat, r: nat) {
    exists i :: lo <= i < hi && i < |s.completed| && s.completed[i] == r
  }

  /** From s to s', exactly the completions up to `hi` were delivered, each to its own buffer. */
  ghost predicate Delivered(s: State, s': State, hi: nat) {
    && s'.seen == hi && s.seen <= hi
        && s' == s.(busy := s'.busy, seen := s'.seen, delivered := s'.delivered, resting := s'.resting)
    && (forall r: nat :: r in s'.delivered <==> r in s.delivered || Among(s, s.seen, hi, r))
    && (forall b :: b in s'.busy ==> b in s.busy)
    && (forall b :: b in s.busy ==>
        b in s'.busy && (s'.busy[b] == s.busy[b] || (!s'.busy[b] && Served(s, s.seen, hi, b))))
    && (forall i :: s.seen <= i < hi && i < |s.completed| && s.completed[i] < |s.reqs| ==>
        s.reqs[s.completed[i]].b in s'.busy && !s'.busy[s.reqs[s.completed[i]].b])
  }

  ghost predicate Served(s: State, lo: nat, hi: nat, b: nat) {
    exists i :: lo <= i < hi && i < |s.completed| && s.completed[i] < |s.reqs| && s.reqs[s.completed[i]].b == b
  }

  lemma DeliveredNone(s: State)
    ensures Delivered(s, s, s.seen)
  {
  }

  lemma DeliveredMore(s0: State, s: State, s': State)
    requires Delivered(s0, s, s.seen) && Shape(s) && s.seen < |s.completed| && s.completed[s.seen] < |s.reqs|
             && s' == Deliver(s)
    requires s.reqs[s.completed[s.seen]].b in s.busy
    ensures Delivered(s0, s', s'.seen)
  {
    var r, lo, hi := s.completed[s.seen], s0.seen, s.seen;
    forall q: nat ensures q in s'.delivered <==> q in s0.delivered || Among(s0, lo, hi + 1, q) {
      AmongMore(s0, lo, hi, q);
    }
    forall b | b in s0.busy ensures b in s'.busy
        && (s'.busy[b] == s0.busy[b] || (!s'.busy[b] && Served(s0, lo, hi + 1, b))) {
      ServedMore(s0, lo, hi, b);
    }
  }

  lemma AmongMore(s: State, lo: nat, hi: nat, r: nat)
    requires lo <= hi < |s.completed|
    ensures Among(s, lo, hi + 1, r) <==> Among(s, lo, hi, r) || s.completed[hi] == r
  {
  }

  lemma ServedMore(s: State, lo: nat, hi: nat, b: nat)
    requires lo <= hi < |s.completed|
    ensures Served(s, lo, hi + 1, b) <==>
              Served(s, lo, hi, b) || (s.completed[hi] < |s.reqs| && s.reqs[s.completed[hi]].b == b)
  {
  }

  /** alloc3_desc() that fails rewrites only descriptors that are free anyway. */
  lemma DescChanged(s: State, s': State)
    requires Inv(s) && |s'.desc| == NUM && s' == s.(desc := s'.desc) && |s.free| == NUM && |s.desc| == NUM
    requires forall i :: 0 <= i < NUM && !s.free[i] ==> s'.desc[i] == s.desc[i]
    ensures Inv(s')
  {
    hide Inv, ChainOk;
    InvParts(s);
    forall h | h in s'.active ensures ChainOk(s', h) {
      At(s, h, 0, 0);
      forall i | 0 <= i < NUM && i in s.own ensures !s.free[i] { At(s, 0, 0, i); }
      ChainKept(s, s', h);
    }
    forall i | 0 <= i ensures OwnOk(s', i) { OwnAt(s, i); DescOwn(s, s', i); }
    forall r | 0 <= r < |s'.reqs| ensures ReqOk(s', r) { At(s, 0, r, 0); }
    forall r | 0 <= r ensures AvailOk(s', r) { At(s, 0, r, 0); }
    forall i | 0 <= i < |s'.completed| ensures UsedOk(s', i) { At(s, 0, 0, i); UsedKept(s, s', i); }
    forall g, h | g in s'.active && h in s'.active ensures Apart(s', g, h) { ApartAt(s, g, h); }
    InvIntro(s');
  }

  lemma DescOwn(s: State, s': State, i: nat)
    requires Inv(s) && Shape(s) && Shape(s') && s' == s.(desc := s'.desc) && OwnOk(s, i)
             && (i in s.own ==> ChainOk(s, s.own[i]))
    requires forall k :: 0 <= k < NUM && !s.free[k] ==> s'.desc[k] == s.desc[k]
    ensures OwnOk(s', i)
  {
    hide Inv;
    if i in s.own {
      var h := s.own[i];
      At(s, 0, 0, h);
      At(s, 0, 0, s.desc[h].next);
    }
  }

  lemma NotOwned(s: State, h: nat, d1: nat, d2: nat)
    requires Inv(s) && h < NUM && d1 < NUM && d2 < NUM && h != d1 && h != d2 && d1 != d2 && |s.free| == NUM
             && s.free[h] && s.free[d1] && s.free[d2]
    ensures Three(s, h, d1, d2)
  {
    hide Inv;
    InvParts(s);
    At(s, 0, 0, h);
    At(s, 0, 0, d1);
    At(s, 0, 0, d2);
  }

  lemma CountThree(free: seq<bool>, h: nat, d1: nat, d2: nat)
    requires |free| == NUM && h < NUM && d1 < NUM && d2 < NUM && h != d1 && h != d2 && d1 != d2 && free[h] && free[d1]
             && free[d2]
    ensures Count(free, NUM) >= 3
  {
    hide Count;
    var f1 := free[h := false];
    var f2 := f1[d1 := false];
    var f3 := f2[d2 := false];
    CountFlip(f3, d2, NUM);
    CountFlip(f2, d1, NUM);
    CountFlip(f1, h, NUM);
    assert f3[d2 := true] == f2 && f2[d1 := true] == f1 && f1[h := true] == free;
  }

  lemma ChainUsed(s: State, h: nat)
    requires Inv(s) && h in s.active
    ensures Shape(s) && ChainOk(s, h) && !s.free[h] && !s.free[s.desc[h].next] && !s.free[s.desc[s.desc[h].next].next]
  {
    hide Inv;
    InvParts(s);
    At(s, h, 0, h);
    At(s, 0, 0, s.desc[h].next);
    At(s, 0, 0, s.desc[s.desc[h].next].next);
  }

  lemma SubmitIs(s: State, h: nat, d1: nat, d2: nat, b: nat, blockno: nat, write: bool)
    requires Shape(s) && Three(s, h, d1, d2)
    ensures var s' := Submit(s, h, d1, d2, b, blockno, write);
            && s'.free == s.free[h := false][d1 := false][d2 := false]
            && s'.desc == s.desc[h := Desc(Header(h), 16, true, false, d1)][d1 :=
                Desc(Data(b), BSIZE, true, !write, d2)][d2 := Desc(Status(h), 1, false, true, 0)]
            && s'.ops == s.ops[h := Op(write, blockno * 2)] && s'.info == s.info[h := Info(Some(b), 0xff)]
            && s'.avail == s.avail[|s.reqs| % NUM := h] && s'.busy == s.busy[b := true] && |s'.reqs| == |s.reqs| + 1
            && s'.used == s.used && s'.taken == s.taken && s'.completed == s.completed && s'.seen == s.seen
  {
  }

  lemma ReservedStart(free: seq<bool>)
    requires |free| == NUM
    ensures Reserved(free, free, [])
  {
  }

  lemma ReservedMore(was: seq<bool>, now: seq<bool>, idx: seq<nat>, i: nat)
    requires Reserved(was, now, idx) && i < NUM && now[i]
    ensures Reserved(was, now[i := false], idx + [i])
  {
  }

  lemma ReservedBack(was: seq<bool>, now: seq<bool>, idx: seq<nat>)
    requires Reserved(was, now, idx) && idx != []
    ensures |was| == NUM && |now| == NUM && idx[0] < NUM && was[idx[0]] && !now[idx[0]]
            && Reserved(was, now[idx[0] := true], idx[1..])
  {
  }

  lemma ReservedNone(was: seq<bool>, now: seq<bool>, idx: seq<nat>)
    requires Reserved(was, now, idx) && idx == []
    ensures now == was
  {
  }

  lemma ReservedThree(was: seq<bool>, now: seq<bool>, idx: seq<nat>)
    requires Reserved(was, now, idx) && |idx| == 3
    ensures |was| == NUM && idx[0] < NUM && idx[1] < NUM && idx[2] < NUM && idx[0] != idx[1] && idx[0] != idx[2]
            && idx[1] != idx[2]
    ensures was[idx[0]] && was[idx[1]] && was[idx[2]] && now == was[idx[0] := false][idx[1] := false][idx[2] := false]
  {
    assert idx == [idx[0], idx[1], idx[2]];
  }

  /** `now` is `was` with the descriptors in idx, which were free, taken out. */
  ghost predicate Reserved(was: seq<bool>, now: seq<bool>, idx: seq<nat>) {
    && |was| == NUM && |now| == NUM
    && (forall k :: 0 <= k < |idx| ==> idx[k] < NUM && was[idx[k]])
    && (forall k, m :: 0 <= k < m < |idx| ==> idx[k] != idx[m])
    && (forall i :: 0 <= i < NUM ==> now[i] == (was[i] && i !in idx))
  }

  ghost function Count(free: seq<bool>, n: nat): nat
    requires n <= |free|
  {
    if n == 0 then 0 else Count(free, n - 1) + (if free[n - 1] then 1 else 0)
  }

  lemma {:induction false} CountNone(free: seq<bool>, n: nat)
    requires n <= |free| && forall i :: 0 <= i < |free| ==> !free[i]
    ensures Count(free, n) == 0
  {
    if n > 0 { CountNone(free, n - 1); }
  }

  /** Counting the free descriptors before some of them were taken. */
  lemma {:induction false} CountReserved(was: seq<bool>, now: seq<bool>, idx: seq<nat>)
    requires Reserved(was, now, idx)
    ensures Count(was, NUM) == Count(now, NUM) + |idx|
    decreases |idx|
  {
    if idx == [] {
      assert was == now;
    } else {
      var i := idx[0];
      CountFlip(now, i, NUM);
      CountReserved(was, now[i := true], idx[1..]);
    }
  }

  lemma {:induction false} CountFlip(free: seq<bool>, i: nat, n: nat)
    requires i < |free| && n <= |free| && !free[i]
    ensures Count(free[i := true], n) == Count(free, n) + (if i < n then 1 else 0)
  {
    if n > 0 { CountFlip(free, i, n - 1); }
  }

  ghost function OwnedBelow(own: set<nat>, n: nat): set<nat> { set i | i in own && i < n }

  lemma {:induction false} FreeOrOwned(s: State, n: nat)
    requires Inv(s) && n <= NUM && |s.free| == NUM
    ensures Count(s.free, n) + |OwnedBelow(s.own.Keys, n)| == n
  {
    hide Inv;
    if n == 0 {
      assert OwnedBelow(s.own.Keys, 0) == {};
    } else {
      FreeOrOwned(s, n - 1);
      ShapeOf(s);
      At(s, 0, 0, n - 1);
      var x := OwnedBelow(s.own.Keys, n - 1);
      assert OwnedBelow(s.own.Keys, n) == if n - 1 in s.own then x + {n - 1} else x;
    }
  }

  /** Free descriptors plus three for each request in progress are all there are. */
  lemma FreePlusThree(s: State)
    requires Inv(s)
    ensures |s.free| == NUM && Count(s.free, NUM) + 3 * |s.active| == NUM
  {
    hide Inv;
    Lengths(s);
    InvParts(s);
    FreeOrOwned(s, NUM);
    forall i | i in s.own ensures i < NUM { At(s, 0, 0, i); }
    assert OwnedBelow(s.own.Keys, NUM) == s.own.Keys;
  }
}
