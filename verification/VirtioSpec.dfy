/** The split virtqueue of kernel/virtio_disk.c as a state: descriptor chains, the two rings, and the
    requests from submission to delivery.  Ring layout as in section 2.6 of VIRTIO 1.1, block requests
    as in its section 5.2. */
module VirtioSpec {
  import opened Common
  import opened Sets
  import opened Blocks

  const NUM: nat := 8
  const U16: nat := 0x1_0000

  /** What a descriptor points to: request header, a buffer's data, or a status byte. */
  datatype Addr = Null | Header(i: nat) | Data(b: nat) | Status(i: nat)

  datatype Desc = Desc(addr: Addr, len: nat, hasNext: bool, devWrites: bool, next: nat)

  datatype Op = Op(write: bool, sector: nat)

  datatype Info = Info(b: Option<nat>, status: nat)

  /** A request: first descriptor, buffer, block and direction. */
  datatype Req = Req(head: nat, b: nat, blockno: nat, write: bool)

  /** `reqs` are all requests ever submitted, of which the device has taken the first `taken`;
      `completed` lists request numbers in the order the device finished them, of which the driver has
      seen the first `seen`; `finished` and `delivered` are the same as sets.  `active` maps the first
      descriptor of a chain in use to its request, `own` every descriptor in use to that first one, and
      `resting` are requests delivered but not yet freed.  `busy` is b->disk. */
  datatype State = State(
    free: seq<bool>, desc: seq<Desc>, ops: seq<Op>, info: seq<Info>, avail: seq<nat>, used: seq<nat>, busy: map<nat,
        bool>,
    reqs: seq<Req>, taken: nat, completed: seq<nat>, seen: nat, finished: set<nat>, delivered: set<nat>,
    active: map<nat, nat>, own: map<nat, nat>, resting: set<nat>)

  ghost predicate Shape(s: State) {
    && |s.free| == NUM && |s.desc| == NUM && |s.ops| == NUM && |s.info| == NUM && |s.avail| == NUM && |s.used| == NUM
    && s.seen <= |s.completed| && s.taken <= |s.reqs|
  }

  /** The chain of request r: header, data and status, each non-free and its own. */
  ghost predicate ChainOk(s: State, h: nat)
    requires Shape(s) && h in s.active
  {
    var r := s.active[h];
    && h < NUM && r < |s.reqs| && s.reqs[r].head == h
    && var q := s.reqs[r];
       && s.desc[h] == Desc(Header(h), 16, true, false, s.desc[h].next)
       && var d1 := s.desc[h].next;
          && d1 < NUM && s.desc[d1] == Desc(Data(q.b), BSIZE, true, !q.write, s.desc[d1].next)
          && var d2 := s.desc[d1].next;
             && d2 < NUM && s.desc[d2] == Desc(Status(h), 1, false, true, 0)
             && h != d1 && h != d2 && d1 != d2
             && h in s.own && d1 in s.own && d2 in s.own && s.own[h] == h && s.own[d1] == h && s.own[d2] == h
             && s.ops[h] == Op(q.write, q.blockno * 2) && s.info[h].b == Some(q.b)
  }

  /** Is descriptor i in the chain that starts at h? */
  ghost predicate InChain(desc: seq<Desc>, h: nat, i: nat)
    requires |desc| == NUM && h < NUM
  {
    i == h || i == desc[h].next || (desc[h].next < NUM && i == desc[desc[h].next].next)
  }

  ghost predicate OwnOk(s: State, i: nat)
    requires Shape(s)
  {
    && (i in s.own ==> i < NUM && s.own[i] in s.active && s.own[i] < NUM && InChain(s.desc, s.own[i], i))
    && (i < NUM ==> (s.free[i] <==> i !in s.own))
  }

  /** An undelivered request has its chain and its buffer is busy; a delivered one that is not yet
      freed has its chain, and the buffer is not busy. */
  ghost predicate ReqOk(s: State, r: nat)
    requires Shape(s) && r < |s.reqs|
  {
    && (r !in s.delivered || r in s.resting ==>
          && s.reqs[r].head in s.active && s.active[s.reqs[r].head] == r
          && s.reqs[r].b in s.busy && (s.busy[s.reqs[r].b] <==> r !in s.delivered))
    && (r in s.resting ==> r in s.delivered) && (r in s.delivered ==> r in s.finished)
        && (r in s.finished ==> r < s.taken)
    && (r in s.finished && r !in s.delivered ==> s.reqs[r].head < NUM && s.info[s.reqs[r].head].status == 0)
  }

  /** Two chains in use serve different buffers. */
  ghost predicate Apart(s: State, g: nat, h: nat)
    requires g in s.active && h in s.active
  {
    g != h && s.active[g] < |s.reqs| && s.active[h] < |s.reqs| ==> s.reqs[s.active[g]].b != s.reqs[s.active[h]].b
  }

  /** An avail slot holds the head of a request not yet taken. */
  ghost predicate AvailOk(s: State, r: nat)
    requires Shape(s)
  {
    s.taken <= r < |s.reqs| ==> s.avail[r % NUM] == s.reqs[r].head
  }

  /** A used slot holds the head of a completion not yet seen. */
  ghost predicate UsedOk(s: State, i: nat)
    requires Shape(s) && i < |s.completed|
  {
    && s.completed[i] < |s.reqs| && s.completed[i] in s.finished && (i < s.seen <==> s.completed[i] in s.delivered)
    && (s.seen <= i ==> s.used[i % NUM] == s.reqs[s.completed[i]].head)
    && forall j :: 0 <= j < |s.completed| && j != i ==> s.completed[j] != s.completed[i]
  }

  /** Free descriptors plus three per request in progress are NUM. */
  ghost predicate Counts(s: State) {
    |s.own| == 3 * |s.active| && |s.active| == |s.reqs| - s.seen + |s.resting|
        && |s.finished| == |s.completed| <= s.taken
  }

  ghost predicate Inv(s: State) {
    && Shape(s) && Counts(s)
    && (forall h {:trigger ChainOk(s, h)} :: h in s.active ==> ChainOk(s, h))
    && (forall i {:trigger OwnOk(s, i)} :: 0 <= i ==> OwnOk(s, i))
    && (forall r {:trigger ReqOk(s, r)} :: 0 <= r < |s.reqs| ==> ReqOk(s, r))
    && (forall r {:trigger AvailOk(s, r)} :: 0 <= r ==> AvailOk(s, r))
    && (forall i {:trigger UsedOk(s, i)} :: 0 <= i < |s.completed| ==> UsedOk(s, i))
    && (forall g, h {:trigger Apart(s, g, h)} :: g in s.active && h in s.active ==> Apart(s, g, h))
    && (forall r :: r in s.resting || r in s.finished || r in s.delivered ==> r < |s.reqs|)
    && (forall h :: h in s.active ==> s.active[h] !in s.delivered || s.active[h] in s.resting)
  }

  /** At most two requests fit, so neither ring is ever more than a quarter full. */
  lemma AtMostTwo(s: State)
    requires Inv(s)
    ensures |s.active| <= 2 && |s.reqs| - s.seen <= 2
  {
    forall i | i in s.own ensures i < NUM { assert OwnOk(s, i); }
    Below(s.own.Keys, NUM);
  }

  // ----- the steps -----

  ghost function Chain(h: nat, d1: nat, d2: nat): map<nat, nat> { map[h := h, d1 := h, d2 := h] }

  /** virtio_disk_rw(), first half: format a chain and announce it */
  ghost function Submit(s: State, h: nat, d1: nat, d2: nat, b: nat, blockno: nat, write: bool): State
    requires Shape(s) && h < NUM && d1 < NUM && d2 < NUM
  {
    s.(free := s.free[h := false][d1 := false][d2 := false],
       desc := s.desc[h := Desc(Header(h), 16, true, false, d1)][d1 := Desc(Data(b), BSIZE, true, !write, d2)][d2 :=
           Desc(Status(h), 1, false, true, 0)],
       ops := s.ops[h := Op(write, blockno * 2)], info := s.info[h := Info(Some(b), 0xff)],
       avail := s.avail[|s.reqs| % NUM := h], busy := s.busy[b := true],
       reqs := s.reqs + [Req(h, b, blockno, write)], active := s.active[h := |s.reqs|], own := s.own + Chain(h, d1, d2))
  }

  /** The device takes the next announced request. */
  ghost function Take(s: State): State
    requires s.taken < |s.reqs|
  {
    s.(taken := s.taken + 1)
  }

  /** The device finishes request r: status 0, and an entry in the used ring. */
  ghost function Complete(s: State, r: nat): State
    requires Shape(s) && r < |s.reqs| && s.reqs[r].head < NUM
  {
    var h := s.reqs[r].head;
    s.(info := s.info[h := s.info[h].(status := 0)], used := s.used[|s.completed| % NUM := h],
       completed := s.completed + [r], finished := s.finished + {r})
  }

  /** One round of virtio_disk_intr(): b->disk = 0 */
  ghost function Deliver(s: State): State
    requires Shape(s) && s.seen < |s.completed| && s.completed[s.seen] < |s.reqs|
  {
    var r := s.completed[s.seen];
    s.(busy := s.busy[s.reqs[r].b := false], seen := s.seen + 1, delivered := s.delivered + {r}, resting :=
        s.resting + {r})
  }

  /** virtio_disk_rw(), second half: free_chain() */
  ghost function Retire(s: State, h: nat): State
    requires Inv(s) && h in s.active
  {
    assert ChainOk(s, h);
    var d1 := s.desc[h].next;
    var d2 := s.desc[d1].next;
    s.(free := s.free[h := true][d1 := true][d2 := true], desc := s.desc[h := Zero()][d1 := Zero()][d2 := Zero()],
       info := s.info[h := s.info[h].(b := None)],
       active := s.active - {h}, own := s.own - {h, d1, d2}, resting := s.resting - {s.active[h]})
  }

  function Zero(): Desc { Desc(Null, 0, false, false, 0) }

  // ----- what a step leaves alone -----

  /** Requests are only appended. */
  ghost predicate Longer(s: State, s': State) {
    |s.reqs| <= |s'.reqs| && forall r :: 0 <= r < |s.reqs| ==> s'.reqs[r] == s.reqs[r]
  }

  /** A chain whose three descriptors, header and buffer were not touched. */
  lemma ChainKept(s: State, s': State, h: nat)
    requires Shape(s) && Shape(s') && h in s.active && h in s'.active && ChainOk(s, h) && s'.active[h] == s.active[h]
             && Longer(s, s')
    requires forall i :: 0 <= i < NUM && i in s.own && s.own[i] == h ==>
               s'.desc[i] == s.desc[i] && i in s'.own && s'.own[i] == h
    requires s'.ops[h] == s.ops[h] && s'.info[h].b == s.info[h].b
    ensures ChainOk(s', h)
  {
  }

  lemma InvParts(s: State)
    requires Inv(s)
    ensures Shape(s) && Counts(s)
    ensures forall r :: r in s.resting || r in s.finished || r in s.delivered ==> r < |s.reqs|
    ensures forall h :: h in s.active ==> s.active[h] !in s.delivered || s.active[h] in s.resting
  {
  }

  lemma At(s: State, h: nat, r: nat, i: nat)
    requires Inv(s)
    ensures OwnOk(s, i) && AvailOk(s, r) && (h in s.active ==> ChainOk(s, h)) && (r < |s.reqs| ==> ReqOk(s, r))
    ensures i < |s.completed| ==> UsedOk(s, i)
  {
  }

  /** A request in progress whose buffer is no longer busy has been delivered. */
  lemma DoneRests(s: State, h: nat)
    requires Inv(s) && h in s.active && s.active[h] < |s.reqs|
    requires s.reqs[s.active[h]].b in s.busy && !s.busy[s.reqs[s.active[h]].b]
    ensures s.active[h] in s.resting
  {
    hide Inv;
    InvParts(s);
    At(s, h, s.active[h], 0);
  }

  lemma ApartAt(s: State, g: nat, h: nat)
    requires Inv(s) && g in s.active && h in s.active
    ensures Apart(s, g, h)
  {
  }

  lemma TakeOk(s: State)
    requires Inv(s) && s.taken < |s.reqs|
    ensures Inv(Take(s)) && s.avail[s.taken % NUM] == s.reqs[s.taken].head
  {
    hide ChainOk;
    var s' := Take(s);
    InvParts(s);
    At(s, 0, s.taken, 0);
    forall h | h in s'.active ensures ChainOk(s', h) { At(s, h, 0, 0); ChainKept(s, s', h); }
    forall i | 0 <= i ensures OwnOk(s', i) { At(s, 0, 0, i); }
    forall r | 0 <= r < |s'.reqs| ensures ReqOk(s', r) { At(s, 0, r, 0); }
    forall r | 0 <= r ensures AvailOk(s', r) { At(s, 0, r, 0); }
    forall i | 0 <= i < |s'.completed| ensures UsedOk(s', i) { At(s, 0, 0, i); }
    forall g, h | g in s'.active && h in s'.active ensures Apart(s', g, h) { ApartAt(s, g, h); }
  }

  /** A slot of a ring that is at most two entries behind is not about to be overwritten. */
  lemma FreshSlot(lo: nat, i: nat, hi: nat)
    requires lo <= i < hi <= lo + 2
    ensures i % NUM != hi % NUM
  {
  }

  lemma CompleteUsed(s: State, r: nat, i: nat)
    requires Shape(s) && i < |s.completed| <= s.seen + 2 && UsedOk(s, i) && r < |s.reqs| && s.reqs[r].head < NUM
             && r !in s.finished
    ensures UsedOk(Complete(s, r), i)
  {
    if s.seen <= i { FreshSlot(s.seen, i, |s.completed|); }
  }

  lemma CompleteLast(s: State, r: nat)
    requires Inv(s) && r < |s.reqs| && s.reqs[r].head < NUM && r !in s.finished && r !in s.delivered
    ensures UsedOk(Complete(s, r), |s.completed|)
  {
    hide Inv;
    InvParts(s);
    forall j | 0 <= j < |s.completed| ensures s.completed[j] != r { At(s, 0, 0, j); }
  }

  lemma CompleteReq(s: State, r: nat, q: nat)
    requires Inv(s) && r < s.taken && r !in s.finished && q < |s.reqs| && s.reqs[r].head < NUM
    ensures ReqOk(Complete(s, r), q)
  {
    hide ChainOk, OwnOk, AvailOk, UsedOk, Apart;
    InvParts(s);
    At(s, 0, q, 0);
    At(s, 0, r, 0);
  }

  /** The device completes a request it took and has not completed: its own chain, its own buffer. */
  lemma CompleteOk(s: State, r: nat)
    requires Inv(s) && r < s.taken && r !in s.finished
    ensures r < |s.reqs| && r !in s.delivered && s.reqs[r].head in s.active && ChainOk(s, s.reqs[r].head)
            && s.active[s.reqs[r].head] == r
    ensures Inv(Complete(s, r))
  {
    hide ChainOk, AvailOk, UsedOk;
    InvParts(s);
    AtMostTwo(s);
    At(s, 0, r, 0);
    At(s, s.reqs[r].head, 0, 0);
    HeadSmall(s, s.reqs[r].head);
    var s' := Complete(s, r);
    RoomToFinish(s, r);
    forall g | g in s'.active ensures ChainOk(s', g) { At(s, g, 0, 0); ChainKept(s, s', g); }
    forall i | 0 <= i ensures OwnOk(s', i) { At(s, 0, 0, i); }
    forall q | 0 <= q < |s'.reqs| ensures ReqOk(s', q) { CompleteReq(s, r, q); }
    forall q | 0 <= q ensures AvailOk(s', q) { At(s, 0, q, 0); AvailKept(s, s', q); }
    forall i | 0 <= i < |s'.completed| ensures UsedOk(s', i) {
      if i < |s.completed| { At(s, 0, 0, i); CompleteUsed(s, r, i); } else { CompleteLast(s, r); }
    }
    forall f, g | f in s'.active && g in s'.active ensures Apart(s', f, g) { ApartAt(s, f, g); }
  }

  lemma AvailKept(s: State, s': State, r: nat)
    requires Shape(s) && Shape(s') && AvailOk(s, r) && s'.taken == s.taken && s'.reqs == s.reqs && s'.avail == s.avail
    ensures AvailOk(s', r)
  {
  }

  lemma HeadSmall(s: State, h: nat)
    requires Shape(s) && h in s.active && ChainOk(s, h)
    ensures h < NUM && s.active[h] < |s.reqs| && s.reqs[s.active[h]].head == h && h in s.own && s.own[h] == h
  {
  }

  lemma RoomToFinish(s: State, r: nat)
    requires Inv(s) && r < s.taken && r !in s.finished
    ensures |s.completed| < s.taken
  {
    hide ChainOk, OwnOk, AvailOk, UsedOk, Apart;
    forall q | q in s.finished + {r} ensures q < s.taken {
      if q != r { At(s, 0, q, 0); }
    }
    Below(s.finished + {r}, s.taken);
  }

  // ----- delivering -----

  lemma DeliverUsed(s: State, i: nat)
    requires Shape(s) && s.seen < |s.completed| && UsedOk(s, s.seen) && i < |s.completed| && UsedOk(s, i)
    ensures UsedOk(Deliver(s), i)
  {
  }

  /** Only this request's buffer is released: no other chain in use serves it. */
  lemma DeliverReq(s: State, q: nat)
    requires Inv(s) && s.seen < |s.completed| && s.completed[s.seen] < |s.reqs| && q < |s.reqs|
    ensures ReqOk(Deliver(s), q)
  {
    hide Inv;
    InvParts(s);
    var r := s.completed[s.seen];
    At(s, 0, q, s.seen);
    At(s, 0, r, 0);
    if q != r && (q !in s.delivered || q in s.resting) {
      At(s, s.reqs[q].head, 0, 0);
      At(s, s.reqs[r].head, 0, 0);
      ApartAt(s, s.reqs[q].head, s.reqs[r].head);
    }
  }

  /** The completion seen next belongs to the request whose chain and buffer it names. */
  lemma DeliverOk(s: State)
    requires Inv(s) && s.seen < |s.completed|
    ensures var r := s.completed[s.seen];
            && r < |s.reqs| && r !in s.delivered && s.reqs[r].head < NUM && s.used[s.seen % NUM] == s.reqs[r].head
            && s.info[s.reqs[r].head] == Info(Some(s.reqs[r].b), 0)
            && s.reqs[r].b in s.busy && s.busy[s.reqs[r].b] && Inv(Deliver(s))
  {
    hide Inv, ChainOk, AvailOk, UsedOk;
    InvParts(s);
    At(s, 0, 0, s.seen);
    UsedParts(s, s.seen);
    var r, s' := s.completed[s.seen], Deliver(s);
    At(s, 0, r, 0);
    At(s, s.reqs[r].head, 0, 0);
    HeadSmall(s, s.reqs[r].head);
    InfoOf(s, s.reqs[r].head);
    forall h | h in s'.active ensures ChainOk(s', h) { At(s, h, 0, 0); ChainKept(s, s', h); }
    forall i | 0 <= i ensures OwnOk(s', i) { At(s, 0, 0, i); }
    forall q | 0 <= q < |s'.reqs| ensures ReqOk(s', q) { DeliverReq(s, q); }
    forall q | 0 <= q ensures AvailOk(s', q) { At(s, 0, q, 0); AvailKept(s, s', q); }
    forall i | 0 <= i < |s'.completed| ensures UsedOk(s', i) { At(s, 0, 0, i); DeliverUsed(s, i); }
    forall g, h | g in s'.active && h in s'.active ensures Apart(s', g, h) { ApartAt(s, g, h); }
    InvIntro(s');
  }

  lemma InvIntro(s: State)
    requires Shape(s) && Counts(s)
    requires forall h {:trigger ChainOk(s, h)} :: h in s.active ==> ChainOk(s, h)
    requires forall i {:trigger OwnOk(s, i)} :: 0 <= i ==> OwnOk(s, i)
    requires forall r {:trigger ReqOk(s, r)} :: 0 <= r < |s.reqs| ==> ReqOk(s, r)
    requires forall r {:trigger AvailOk(s, r)} :: 0 <= r ==> AvailOk(s, r)
    requires forall i {:trigger UsedOk(s, i)} :: 0 <= i < |s.completed| ==> UsedOk(s, i)
    requires forall g, h {:trigger Apart(s, g, h)} :: g in s.active && h in s.active ==> Apart(s, g, h)
    requires forall r :: r in s.resting || r in s.finished || r in s.delivered ==> r < |s.reqs|
    requires forall h :: h in s.active ==> s.active[h] !in s.delivered || s.active[h] in s.resting
    ensures Inv(s)
  {
  }

  lemma UsedParts(s: State, i: nat)
    requires Shape(s) && i < |s.completed| && UsedOk(s, i)
    ensures s.completed[i] < |s.reqs| && s.completed[i] in s.finished && (i < s.seen <==> s.completed[i] in s.delivered)
    ensures s.seen <= i ==> s.used[i % NUM] == s.reqs[s.completed[i]].head
  {
  }

  lemma InfoOf(s: State, h: nat)
    requires Shape(s) && h in s.active && ChainOk(s, h)
    ensures h < NUM && s.info[h].b == Some(s.reqs[s.active[h]].b)
  {
  }

  // ----- submitting -----

  /** Three distinct descriptors, none in use. */
  ghost predicate Three(s: State, h: nat, d1: nat, d2: nat) {
    h < NUM && d1 < NUM && d2 < NUM && h != d1 && h != d2 && d1 != d2 && h !in s.own && d1 !in s.own && d2 !in s.own
  }

  lemma SubmitNew(s: State, h: nat, d1: nat, d2: nat, b: nat, blockno: nat, write: bool)
    requires Shape(s) && Three(s, h, d1, d2)
    ensures var s' := Submit(s, h, d1, d2, b, blockno, write);
            Shape(s') && h in s'.active && ChainOk(s', h) && Longer(s, s')
  {
  }

  lemma SubmitOther(s: State, h: nat, d1: nat, d2: nat, b: nat, blockno: nat, write: bool, g: nat)
    requires Inv(s) && Three(s, h, d1, d2) && g in s.active
    ensures var s' := Submit(s, h, d1, d2, b, blockno, write); g != h && g in s'.active && Shape(s') && ChainOk(s', g)
  {
    hide Inv, ChainOk, Submit;
    InvParts(s);
    At(s, g, 0, 0);
    HeadSmall(s, g);
    SubmitNew(s, h, d1, d2, b, blockno, write);
    SubmitFields(s, h, d1, d2, b, blockno, write);
    SubmitRest(s, h, d1, d2, b, blockno, write);
    ChainKept(s, Submit(s, h, d1, d2, b, blockno, write), g);
  }

  lemma SubmitFields(s: State, h: nat, d1: nat, d2: nat, b: nat, blockno: nat, write: bool)
    requires Shape(s) && Three(s, h, d1, d2)
    ensures var s' := Submit(s, h, d1, d2, b, blockno, write);
            && Shape(s') && s'.reqs == s.reqs + [Req(h, b, blockno, write)] && s'.active == s.active[h := |s.reqs|]
            && s'.busy == s.busy[b := true] && s'.own.Keys == s.own.Keys + {h, d1, d2}
            && s'.taken == s.taken && s'.completed == s.completed && s'.seen == s.seen
            && s'.finished == s.finished && s'.delivered == s.delivered && s'.resting == s.resting
            && forall g :: 0 <= g < NUM && g != h ==> s'.info[g] == s.info[g]
  {
  }

  lemma SubmitRest(s: State, h: nat, d1: nat, d2: nat, b: nat, blockno: nat, write: bool)
    requires Shape(s) && Three(s, h, d1, d2)
    ensures var s' := Submit(s, h, d1, d2, b, blockno, write);
            && Shape(s') && (forall i :: 0 <= i < NUM && i in s.own ==> s'.desc[i] == s.desc[i])
            && (forall i :: i in s.own ==> i in s'.own && s'.own[i] == s.own[i])
            && (forall g :: 0 <= g < NUM && g != h ==> s'.ops[g] == s.ops[g])
  {
  }

  lemma SubmitReq(s: State, h: nat, d1: nat, d2: nat, b: nat, blockno: nat, write: bool, r: nat)
    requires Inv(s) && Three(s, h, d1, d2) && r < |s.reqs| + 1 && NewBuffer(s, b)
    ensures Shape(s) && Shape(Submit(s, h, d1, d2, b, blockno, write))
            && r < |Submit(s, h, d1, d2, b, blockno, write).reqs|
    ensures ReqOk(Submit(s, h, d1, d2, b, blockno, write), r)
  {
    hide Inv, ChainOk, Submit, ReqOk;
    InvParts(s);
    SubmitFields(s, h, d1, d2, b, blockno, write);
    if r < |s.reqs| {
      SubmitReqOld(s, h, d1, d2, b, blockno, write, r);
    } else {
      SubmitReqNew(s, h, d1, d2, b, blockno, write);
    }
  }

  lemma SubmitReqOld(s: State, h: nat, d1: nat, d2: nat, b: nat, blockno: nat, write: bool, r: nat)
    requires Inv(s) && Three(s, h, d1, d2) && r < |s.reqs| && NewBuffer(s, b)
    ensures Shape(s) && Shape(Submit(s, h, d1, d2, b, blockno, write))
            && r < |Submit(s, h, d1, d2, b, blockno, write).reqs|
    ensures ReqOk(Submit(s, h, d1, d2, b, blockno, write), r)
  {
    hide Inv, ChainOk, Submit;
    InvParts(s);
    SubmitFields(s, h, d1, d2, b, blockno, write);
    At(s, 0, r, 0);
    if s.reqs[r].head in s.active {
      At(s, s.reqs[r].head, 0, 0);
      HeadSmall(s, s.reqs[r].head);
    }
  }

  lemma SubmitReqNew(s: State, h: nat, d1: nat, d2: nat, b: nat, blockno: nat, write: bool)
    requires Inv(s) && Three(s, h, d1, d2)
    ensures Shape(s) && Shape(Submit(s, h, d1, d2, b, blockno, write))
            && |s.reqs| < |Submit(s, h, d1, d2, b, blockno, write).reqs|
    ensures ReqOk(Submit(s, h, d1, d2, b, blockno, write), |s.reqs|)
  {
    hide Inv, ChainOk, Submit;
    InvParts(s);
    SubmitFields(s, h, d1, d2, b, blockno, write);
  }

  /** The caller holds the buffer's lock, so no chain in use serves it. */
  ghost predicate NewBuffer(s: State, b: nat) {
    forall g :: g in s.active && s.active[g] < |s.reqs| ==> s.reqs[s.active[g]].b != b
  }

  lemma SubmitAvail(s: State, h: nat, d1: nat, d2: nat, b: nat, blockno: nat, write: bool, r: nat)
    requires Shape(s) && Three(s, h, d1, d2) && AvailOk(s, r) && |s.reqs| <= s.taken + 2
    ensures Shape(Submit(s, h, d1, d2, b, blockno, write)) && AvailOk(Submit(s, h, d1, d2, b, blockno, write), r)
  {
    if s.taken <= r < |s.reqs| { FreshSlot(s.taken, r, |s.reqs|); }
  }

  lemma SubmitUsed(s: State, h: nat, d1: nat, d2: nat, b: nat, blockno: nat, write: bool, i: nat)
    requires Shape(s) && Three(s, h, d1, d2) && i < |s.completed| && UsedOk(s, i)
    ensures Shape(Submit(s, h, d1, d2, b, blockno, write)) && UsedOk(Submit(s, h, d1, d2, b, blockno, write), i)
  {
  }

  lemma SubmitOwn(s: State, h: nat, d1: nat, d2: nat, b: nat, blockno: nat, write: bool, i: nat)
    requires Shape(s) && Three(s, h, d1, d2) && OwnOk(s, i) && (i in s.own ==> ChainOk(s, s.own[i]))
    ensures Shape(Submit(s, h, d1, d2, b, blockno, write)) && OwnOk(Submit(s, h, d1, d2, b, blockno, write), i)
  {
  }

  lemma SubmitApart(s: State, h: nat, d1: nat, d2: nat, b: nat, blockno: nat, write: bool, f: nat, g: nat)
    requires Inv(s) && Three(s, h, d1, d2) && NewBuffer(s, b) && (f in s.active || f == h) && (g in s.active || g == h)
    ensures var s' := Submit(s, h, d1, d2, b, blockno, write); f in s'.active && g in s'.active && Apart(s', f, g)
  {
    hide Inv, ChainOk;
    InvParts(s);
    if f in s.active { At(s, f, 0, 0); HeadSmall(s, f); }
    if g in s.active { At(s, g, 0, 0); HeadSmall(s, g); }
    if f in s.active && g in s.active { ApartAt(s, f, g); }
  }

  lemma SubmitCounts(s: State, h: nat, d1: nat, d2: nat, b: nat, blockno: nat, write: bool)
    requires Inv(s) && Three(s, h, d1, d2)
    ensures Shape(s) && Counts(Submit(s, h, d1, d2, b, blockno, write)) && h !in s.active
  {
    hide Inv, ChainOk, Submit;
    InvParts(s);
    SubmitFields(s, h, d1, d2, b, blockno, write);
    if h in s.active { At(s, h, 0, 0); HeadSmall(s, h); }
    assert |s.own.Keys + {h, d1, d2}| == |s.own.Keys| + 3 by { DisjointSize(s.own.Keys, h, d1, d2); }
  }

  lemma DisjointSize(x: set<nat>, a: nat, b: nat, c: nat)
    requires a !in x && b !in x && c !in x && a != b && a != c && b != c
    ensures |x + {a, b, c}| == |x| + 3
  {
    assert x + {a, b, c} == x + {a} + {b} + {c};
  }

  /** A submitted request is the last one announced; everything earlier stays as it was. */
  lemma SubmitOk(s: State, h: nat, d1: nat, d2: nat, b: nat, blockno: nat, write: bool)
    requires Inv(s) && Three(s, h, d1, d2) && NewBuffer(s, b)
    ensures Inv(Submit(s, h, d1, d2, b, blockno, write))
  {
    hide Inv, ChainOk, OwnOk, ReqOk, AvailOk, UsedOk, Apart, Counts, Submit;
    InvParts(s);
    var s' := Submit(s, h, d1, d2, b, blockno, write);
    SubmitFields(s, h, d1, d2, b, blockno, write);
    AtMostTwo(s);
    CountParts(s);
    SubmitNew(s, h, d1, d2, b, blockno, write);
    SubmitCounts(s, h, d1, d2, b, blockno, write);
    forall g | g in s'.active ensures ChainOk(s', g) { if g != h { SubmitOther(s, h, d1, d2, b, blockno, write, g); } }
    forall i | 0 <= i ensures OwnOk(s', i) { OwnAt(s, i); SubmitOwn(s, h, d1, d2, b, blockno, write, i); }
    forall r | 0 <= r < |s'.reqs| ensures ReqOk(s', r) { SubmitReq(s, h, d1, d2, b, blockno, write, r); }
    forall r | 0 <= r ensures AvailOk(s', r) { At(s, 0, r, 0); SubmitAvail(s, h, d1, d2, b, blockno, write, r); }
    forall i | 0 <= i < |s'.completed| ensures UsedOk(s', i) {
      At(s, 0, 0, i); SubmitUsed(s, h, d1, d2, b, blockno, write, i); }
    forall f, g | f in s'.active && g in s'.active ensures Apart(s', f, g) {
      SubmitApart(s, h, d1, d2, b, blockno, write, f, g); }
    assert |s.reqs| !in s.delivered;
    InvIntro(s');
  }

  lemma CountParts(s: State)
    requires Inv(s)
    ensures s.seen <= |s.completed| <= s.taken <= |s.reqs|
  {
  }

  // ----- freeing -----

  lemma RetireOther(s: State, h: nat, g: nat)
    requires Inv(s) && h in s.active && g in s.active && g != h
    ensures Shape(Retire(s, h)) && g in Retire(s, h).active && ChainOk(Retire(s, h), g)
  {
    hide Inv;
    InvParts(s);
    At(s, g, 0, 0);
    At(s, h, 0, 0);
    ChainKept(s, Retire(s, h), g);
  }

  lemma RetireOwn(s: State, h: nat, i: nat)
    requires Inv(s) && h in s.active
    ensures Shape(Retire(s, h)) && OwnOk(Retire(s, h), i)
  {
    hide Inv;
    InvParts(s);
    At(s, h, 0, i);
    if i in s.own { At(s, s.own[i], 0, 0); }
  }

  lemma OwnAt(s: State, i: nat)
    requires Inv(s)
    ensures OwnOk(s, i) && (i in s.own ==> s.own[i] in s.active && ChainOk(s, s.own[i]))
  {
    assert OwnOk(s, i);
  }

  lemma RetireReq(s: State, h: nat, r: nat)
    requires Inv(s) && h in s.active && s.active[h] in s.resting && r < |s.reqs|
    ensures Shape(Retire(s, h)) && ReqOk(Retire(s, h), r)
  {
    hide Inv, ChainOk;
    InvParts(s);
    At(s, h, r, 0);
    HeadSmall(s, h);
    RetireShape(s, h);
    if r in s.finished && r !in s.delivered && s.reqs[r].head != h { At(s, s.reqs[r].head, 0, 0); }
  }

  lemma RetireShape(s: State, h: nat)
    requires Inv(s) && h in s.active
    ensures var s' := Retire(s, h);
            && Shape(s') && s'.active == s.active - {h} && s'.resting == s.resting - {s.active[h]} && h < NUM
            && s'.reqs == s.reqs && s'.busy == s.busy && s'.completed == s.completed && s'.seen == s.seen
                && s'.taken == s.taken
            && s'.finished == s.finished && s'.delivered == s.delivered && s'.avail == s.avail && s'.used == s.used
            && forall g :: 0 <= g < NUM ==> s'.info[g].status == s.info[g].status
  {
    hide Inv;
    InvParts(s);
    At(s, h, 0, 0);
  }

  lemma RetireCounts(s: State, h: nat)
    requires Inv(s) && h in s.active && s.active[h] in s.resting
    ensures Counts(Retire(s, h))
  {
    hide Inv;
    InvParts(s);
    At(s, h, 0, 0);
    var d1 := s.desc[h].next;
    var d2 := s.desc[d1].next;
    assert (s.own - {h, d1, d2}).Keys == s.own.Keys - {h, d1, d2};
    assert s.own.Keys == (s.own.Keys - {h, d1, d2}) + {h, d1, d2};
    assert (s.active - {h}).Keys == s.active.Keys - {h};
  }

  /** Freeing the chain of a delivered request returns exactly its three descriptors. */
  lemma RetireOk(s: State, h: nat)
    requires Inv(s) && h in s.active && s.active[h] in s.resting
    ensures Inv(Retire(s, h))
  {
    hide Inv, ChainOk, OwnOk, ReqOk, AvailOk, UsedOk, Apart, Counts, Retire;
    var s' := Retire(s, h);
    InvParts(s);
    RetireShape(s, h);
    RetireCounts(s, h);
    forall g | g in s'.active ensures ChainOk(s', g) { RetireOther(s, h, g); }
    forall i | 0 <= i ensures OwnOk(s', i) { RetireOwn(s, h, i); }
    forall r | 0 <= r < |s'.reqs| ensures ReqOk(s', r) { RetireReq(s, h, r); }
    forall r | 0 <= r ensures AvailOk(s', r) { At(s, 0, r, 0); AvailKept(s, s', r); }
    forall i | 0 <= i < |s'.completed| ensures UsedOk(s', i) { At(s, 0, 0, i); UsedKept(s, s', i); }
    forall f, g | f in s'.active && g in s'.active ensures Apart(s', f, g) { ApartAt(s, f, g); ApartKept(s, s', f, g); }
    RestingApart(s, h);
    InvIntro(s');
  }

  lemma UsedKept(s: State, s': State, i: nat)
    requires Shape(s) && Shape(s') && i < |s.completed| && UsedOk(s, i) && s'.reqs == s.reqs
             && s'.completed == s.completed
    requires s'.seen == s.seen && s'.finished == s.finished && s'.delivered == s.delivered && s'.used == s.used
    ensures UsedOk(s', i)
  {
  }

  lemma ApartKept(s: State, s': State, g: nat, h: nat)
    requires g in s.active && h in s.active && Apart(s, g, h) && s'.reqs == s.reqs
    requires g in s'.active && h in s'.active && s'.active[g] == s.active[g] && s'.active[h] == s.active[h]
    ensures Apart(s', g, h)
  {
  }

  /** No other chain in use serves the request that is freed. */
  lemma RestingApart(s: State, h: nat)
    requires Inv(s) && h in s.active
    ensures forall g :: g in s.active && g != h ==> s.active[g] != s.active[h]
  {
    hide Inv, ChainOk;
    InvParts(s);
    At(s, h, 0, 0);
    HeadSmall(s, h);
    forall g | g in s.active && g != h ensures s.active[g] != s.active[h] {
      At(s, g, 0, 0);
      HeadSmall(s, g);
    }
  }
}
