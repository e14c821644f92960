/** The free list of user/umalloc.c as a state.  Addresses count Header units; `ring` lists the free
    blocks in address order behind the static header `base`.  A ghost map `own` gives every heap unit
    the header of the one block, free or live, that it belongs to. */
module FreeList {

  const BASE: nat := 0

  datatype State = State(ring: seq<nat>, size: map<nat, nat>, live: set<nat>, own: map<nat, nat>)

  ghost predicate Sized(s: State) {
    && (forall i :: 0 <= i < |s.ring| ==> s.ring[i] in s.size)
    && (forall a :: a in s.live ==> a in s.size)
  }

  ghost predicate Sorted(ring: seq<nat>, size: map<nat, nat>)
    requires forall i :: 0 <= i < |ring| ==> ring[i] in size
  {
    forall i, j :: 0 <= i < j < |ring| ==> ring[i] + size[ring[i]] < ring[j]
  }

  /** Elements a .. c - 1 replaced by `x`. */
  ghost function Splice(ring: seq<nat>, a: nat, x: nat, c: nat): (r: seq<nat>)
    requires a <= c <= |ring|
    ensures |r| == |ring| - (c - a) + 1
    ensures forall i :: 0 <= i < |r| ==> r[i] == if i < a then ring[i] else if i == a then x else ring[i - a - 1 + c]
  {
    ring[..a] + [x] + ring[c..]
  }

  lemma SpliceSorted(ring: seq<nat>, size: map<nat, nat>, a: nat, x: nat, w: nat, c: nat)
    requires forall i :: 0 <= i < |ring| ==> ring[i] in size
    requires Sorted(ring, size) && a <= c <= |ring|
    requires forall i :: 0 <= i < a ==> ring[i] + size[ring[i]] < x
    requires forall i :: c <= i < |ring| ==> x + w < ring[i]
    ensures forall i :: 0 <= i < |Splice(ring, a, x, c)| ==> Splice(ring, a, x, c)[i] in size[x := w]
    ensures Sorted(Splice(ring, a, x, c), size[x := w])
  {
    var r, size' := Splice(ring, a, x, c), size[x := w];
    forall i, j | 0 <= i < j < |r| ensures r[i] in size' && r[i] + size'[r[i]] < r[j] {
      SplicePair(ring, size, a, x, w, c, i, j);
    }
  }

  lemma SplicePair(ring: seq<nat>, size: map<nat, nat>, a: nat, x: nat, w: nat, c: nat, i: nat, j: nat)
    requires forall i :: 0 <= i < |ring| ==> ring[i] in size
    requires Sorted(ring, size) && a <= c <= |ring|
    requires forall i :: 0 <= i < a ==> ring[i] + size[ring[i]] < x
    requires forall i :: c <= i < |ring| ==> x + w < ring[i]
    requires i < j < |Splice(ring, a, x, c)|
    ensures var r, size' := Splice(ring, a, x, c), size[x := w]; r[i] in size' && r[i] + size'[r[i]] < r[j]
  {
    var r := Splice(ring, a, x, c);
    assert i != a ==> r[i] == ring[if i < a then i else i - a - 1 + c] != x;
    assert j != a ==> r[j] == ring[if j < a then j else j - a - 1 + c];
  }

  lemma SpliceHas(ring: seq<nat>, a: nat, x: nat, c: nat, y: nat)
    requires a <= c <= |ring|
    ensures y in Splice(ring, a, x, c) <==> y == x || y in ring[..a] || y in ring[c..]
  {
    assert Splice(ring, a, x, c) == ring[..a] + [x] + ring[c..];
  }

  /** Sorted, disjoint and never adjacent; base first, with no units of its own. */
  ghost predicate RingOk(s: State)
    requires Sized(s)
  {
    && |s.ring| >= 1 && s.ring[0] == BASE && s.size[BASE] == 0
    && Sorted(s.ring, s.size)
    && (forall i :: 1 <= i < |s.ring| ==> s.size[s.ring[i]] >= 1 && s.ring[i] !in s.live)
  }

  ghost predicate Block(s: State, a: nat) {
    a in s.live || (a in s.ring && a != BASE)
  }

  /** All units of block `a` are its own. */
  ghost predicate Owns(s: State, a: nat)
    requires a in s.size
  {
    forall u :: a <= u < a + s.size[a] ==> u in s.own && s.own[u] == a
  }

  ghost predicate OwnOk(s: State, u: nat)
    requires u in s.own
  {
    Block(s, s.own[u]) && s.own[u] in s.size && s.own[u] <= u < s.own[u] + s.size[s.own[u]]
  }

  ghost predicate Inv(s: State) {
    && Sized(s) && RingOk(s)
    && (forall a :: a in s.live ==> a > BASE && s.size[a] >= 1)
    && (forall a {:trigger Owns(s, a)} :: a in s.size && Block(s, a) ==> Owns(s, a))
    && (forall u {:trigger OwnOk(s, u)} :: u in s.own ==> OwnOk(s, u))
  }

  /** Is unit `u` in a free block? */
  ghost predicate Free(s: State, u: nat) {
    u in s.own && s.own[u] !in s.live
  }

  /** Two blocks never overlap. */
  lemma Disjoint(s: State, a: nat, b: nat)
    requires Inv(s) && Block(s, a) && Block(s, b) && a < b
    ensures a in s.size && b in s.size && a + s.size[a] <= b
  {
    assert Sized(s);
    BlockSized(s, a);
    BlockSized(s, b);
    assert Owns(s, a) && Owns(s, b);
    assert s.own[b] == b;
  }

  lemma BlockSized(s: State, a: nat)
    requires Inv(s) && Block(s, a)
    ensures a in s.size && s.size[a] >= 1 && a > BASE && Owns(s, a)
  {
    if a !in s.live {
      var i :| 0 <= i < |s.ring| && s.ring[i] == a;
      assert s.ring[0] == BASE;
    }
  }

  // ----- free() -----

  /** The place of address `b` in the ring: after element `j`. */
  ghost predicate Place(s: State, b: nat, j: nat) {
    j < |s.ring| && s.ring[j] < b && (j + 1 < |s.ring| ==> b < s.ring[j + 1])
  }

  /** The free block that results: joined with the lower and upper neighbours that touch it. */
  ghost predicate Lower(s: State, b: nat, j: nat)
    requires Inv(s) && Place(s, b, j)
  {
    s.ring[j] + s.size[s.ring[j]] == b
  }

  ghost predicate Upper(s: State, b: nat, j: nat)
    requires Inv(s) && Place(s, b, j) && b in s.size
  {
    j + 1 < |s.ring| && b + s.size[b] == s.ring[j + 1]
  }

  ghost function Start(s: State, b: nat, j: nat): nat
    requires Inv(s) && Place(s, b, j)
  {
    if Lower(s, b, j) then s.ring[j] else b
  }

  ghost function End(s: State, b: nat, j: nat): nat
    requires Inv(s) && Place(s, b, j) && b in s.size
  {
    if Upper(s, b, j) then s.ring[j + 1] + s.size[s.ring[j + 1]] else b + s.size[b]
  }

  /** The ring elements that the joined block replaces: From, ..., To - 1. */
  ghost function From(s: State, b: nat, j: nat): (a: nat)
    requires Inv(s) && Place(s, b, j)
    ensures a <= j + 1
  {
    if Lower(s, b, j) then j else j + 1
  }

  ghost function To(s: State, b: nat, j: nat): (c: nat)
    requires Inv(s) && Place(s, b, j) && b in s.size
    ensures j + 1 <= c <= |s.ring|
  {
    if Upper(s, b, j) then j + 2 else j + 1
  }

  ghost function NewRing(s: State, b: nat, j: nat): seq<nat>
    requires Inv(s) && Place(s, b, j) && b in s.size
  {
    Splice(s.ring, From(s, b, j), Start(s, b, j), To(s, b, j))
  }

  ghost function Reown(own: map<nat, nat>, lo: nat, hi: nat): (r: map<nat, nat>)
    ensures r.Keys == own.Keys && forall u :: u in own ==> r[u] == if lo <= u < hi then lo else own[u]
  {
    map u | u in own :: if lo <= u < hi then lo else own[u]
  }

  ghost function Freed(s: State, b: nat, j: nat): State
    requires Inv(s) && b in s.live && Place(s, b, j)
  {
    Extent(s, b, j);
    var lo, hi := Start(s, b, j), End(s, b, j);
    State(NewRing(s, b, j), s.size[b := hi - b][lo := hi - lo], s.live - {b}, Reown(s.own, lo, hi))
  }

  /** Facts about the joined block: it covers `b` and the neighbours it swallowed, and touches nobody. */
  lemma Extent(s: State, b: nat, j: nat)
    requires Inv(s) && b in s.live && Place(s, b, j)
    ensures BASE < Start(s, b, j) <= b < b + s.size[b] <= End(s, b, j)
    ensures forall i :: 0 <= i < |s.ring| && i < From(s, b, j) ==> s.ring[i] + s.size[s.ring[i]] < Start(s, b, j)
    ensures forall i :: 0 <= i < |s.ring| && To(s, b, j) <= i ==> End(s, b, j) < s.ring[i]
    ensures forall u :: Start(s, b, j) <= u < End(s, b, j) ==> u in s.own
    ensures forall u :: Start(s, b, j) <= u < End(s, b, j) && u in s.own ==>
              s.own[u] == b || (Lower(s, b, j) && s.own[u] == s.ring[j])
                  || (Upper(s, b, j) && s.own[u] == s.ring[j + 1])
  {
    var p := s.ring[j];
    assert Owns(s, b);
    if j > 0 {
      assert Block(s, p);
      Disjoint(s, p, b);
      assert Owns(s, p);
    }
    if j + 1 < |s.ring| {
      assert Block(s, s.ring[j + 1]);
      Disjoint(s, b, s.ring[j + 1]);
      assert Owns(s, s.ring[j + 1]);
    }
  }

  lemma FreedSorted(s: State, b: nat, j: nat)
    requires Inv(s) && b in s.live && Place(s, b, j)
    ensures var s' := Freed(s, b, j);
            && (forall i :: 0 <= i < |s'.ring| ==> s'.ring[i] in s'.size) && Sorted(s'.ring, s'.size)
            && |s'.ring| >= 1 && s'.ring[0] == BASE && s'.size[BASE] == 0
  {
    hide Owns, OwnOk, Lower, Upper, Sorted;
    Extent(s, b, j);
    LoNotLive(s, b, j);
    SortedSkip(s, b, End(s, b, j) - b);
    SpliceSorted(s.ring, s.size[b := End(s, b, j) - b], From(s, b, j), Start(s, b, j), End(s, b, j) - Start(s, b, j),
                 To(s, b, j));
  }

  lemma FreedRing(s: State, b: nat, j: nat)
    requires Inv(s) && b in s.live && Place(s, b, j)
    ensures Sized(Freed(s, b, j)) && RingOk(Freed(s, b, j))
  {
    hide Inv, Place, Lower, Upper, Sorted, NewRing, Start, End;
    FreedSorted(s, b, j);
    LiveSized(s);
    var s' := Freed(s, b, j);
    forall i | 1 <= i < |s'.ring| ensures s'.size[s'.ring[i]] >= 1 && s'.ring[i] !in s'.live {
      FreedElement(s, b, j, i);
    }
  }

  lemma LiveSized(s: State)
    requires Inv(s)
    ensures forall a :: a in s.live ==> a in s.size
  {
  }

  lemma SortedSkip(s: State, b: nat, v: nat)
    requires Inv(s) && b in s.live
    ensures b !in s.ring && (forall i :: 0 <= i < |s.ring| ==>
              s.ring[i] in s.size[b := v] && s.size[b := v][s.ring[i]] == s.size[s.ring[i]])
    ensures Sorted(s.ring, s.size[b := v])
  {
    hide Owns, OwnOk;
  }

  lemma FreedElement(s: State, b: nat, j: nat, i: nat)
    requires Inv(s) && b in s.live && Place(s, b, j) && 1 <= i < |NewRing(s, b, j)|
    ensures var s' := Freed(s, b, j); s'.ring[i] in s'.size && s'.size[s'.ring[i]] >= 1 && s'.ring[i] !in s'.live
  {
    hide Owns, OwnOk, Lower, Upper, Sorted;
    Extent(s, b, j);
    LoNotLive(s, b, j);
    var a, c := From(s, b, j), To(s, b, j);
    if i != a { assert s.ring[if i < a then i else i - a - 1 + c] !in s.live; }
  }

  lemma LoNotLive(s: State, b: nat, j: nat)
    requires Inv(s) && b in s.live && Place(s, b, j)
    ensures Start(s, b, j) !in s.live - {b} && From(s, b, j) >= 1
  {
    hide Owns, OwnOk;
    if j > 0 { assert s.ring[j] !in s.live; }
  }

  /** Blocks after free(): the joined one, and all others except `b` and the swallowed neighbours. */
  lemma FreedBlock(s: State, b: nat, j: nat, a: nat)
    requires Inv(s) && b in s.live && Place(s, b, j)
    ensures var lo, hi := Start(s, b, j), End(s, b, j);
            Block(Freed(s, b, j), a) <==> a == lo || (Block(s, a) && !(lo <= a < hi))
  {
    hide OwnOk, Owns, Lower, Upper, Sorted, Splice;
    Extent(s, b, j);
    var lo, hi, x, c := Start(s, b, j), End(s, b, j), From(s, b, j), To(s, b, j);
    SpliceHas(s.ring, x, lo, c, a);
    if a in s.ring { RingOutside(s, b, j, a); }
    if a in s.live && a != b { LiveOutside(s, b, j, a); }
    assert a in s.ring[..x] || a in s.ring[c..] ==> a in s.ring;
  }

  lemma RingOutside(s: State, b: nat, j: nat, a: nat)
    requires Inv(s) && b in s.live && Place(s, b, j) && a in s.ring
    ensures a in s.ring[..From(s, b, j)] || a in s.ring[To(s, b, j)..] <==> !(Start(s, b, j) <= a < End(s, b, j))
  {
    hide OwnOk, Owns;
    Extent(s, b, j);
    var i :| 0 <= i < |s.ring| && s.ring[i] == a;
    var x, c := From(s, b, j), To(s, b, j);
    if i < x { assert s.ring[..x][i] == a; }
    if i >= c { assert s.ring[c..][i - c] == a; }
  }

  lemma LiveOutside(s: State, b: nat, j: nat, a: nat)
    requires Inv(s) && b in s.live && Place(s, b, j) && a in s.live && a != b
    ensures !(Start(s, b, j) <= a < End(s, b, j))
  {
    hide OwnOk;
    Extent(s, b, j);
    BlockSized(s, a);
    if j > 0 { assert s.ring[j] !in s.live; }
    if j + 1 < |s.ring| { assert s.ring[j + 1] !in s.live; }
    assert s.own[a] == a;
  }

  /** A block that is not swallowed lies outside the joined one, a swallowed one inside. */
  lemma Outside(s: State, b: nat, j: nat, a: nat)
    requires Inv(s) && b in s.live && Place(s, b, j) && Block(s, a)
    ensures var lo, hi := Start(s, b, j), End(s, b, j);
            a in s.size && if lo <= a < hi then a + s.size[a] <= hi else a + s.size[a] <= lo || hi <= a
  {
    hide OwnOk;
    Extent(s, b, j);
    BlockSized(s, a);
    var lo, hi := Start(s, b, j), End(s, b, j);
    assert Block(s, b);
    if Lower(s, b, j) { assert s.ring[j] == lo && Block(s, lo); }
    if a < lo {
      Disjoint(s, a, lo);
    } else if a < hi {
      assert s.own[a] == a;
      if Upper(s, b, j) && a != s.ring[j + 1] { assert Block(s, s.ring[j + 1]); Disjoint(s, a, s.ring[j + 1]); }
      if !Upper(s, b, j) && a != b { Disjoint(s, a, b); }
    }
  }

  lemma FreedUnit(s: State, b: nat, j: nat, u: nat)
    requires Inv(s) && b in s.live && Place(s, b, j) && u in s.own
    ensures OwnOk(Freed(s, b, j), u)
  {
    hide RingOk, Lower, Upper, Owns, NewRing, Start, End, Block;
    var s', lo, hi := Freed(s, b, j), Start(s, b, j), End(s, b, j);
    ExtentOrder(s, b, j);
    assert OwnOk(s, u);
    FreedBlock(s, b, j, s'.own[u]);
    if !(lo <= u < hi) { Outside(s, b, j, s.own[u]); }
  }

  lemma ExtentOrder(s: State, b: nat, j: nat)
    requires Inv(s) && b in s.live && Place(s, b, j)
    ensures BASE < Start(s, b, j) <= b < b + s.size[b] <= End(s, b, j)
  {
    Extent(s, b, j);
  }

  lemma FreeUnit(s: State, b: nat, j: nat, u: nat)
    requires Inv(s) && b in s.live && Place(s, b, j) && u in s.own
    ensures Free(Freed(s, b, j), u) <==> Free(s, u) || (b <= u < b + s.size[b])
  {
    hide RingOk, Lower, Upper, NewRing, End;
    Extent(s, b, j);
    LoNotLive(s, b, j);
    NeighboursFree(s, b, j);
    assert OwnOk(s, u) && Owns(s, b);
  }

  lemma NeighboursFree(s: State, b: nat, j: nat)
    requires Inv(s) && b in s.live && Place(s, b, j)
    ensures Lower(s, b, j) ==> s.ring[j] !in s.live
    ensures Upper(s, b, j) ==> s.ring[j + 1] !in s.live
  {
    hide Owns, OwnOk;
    if j > 0 { assert s.ring[j] !in s.live; }
  }

  lemma FreedOwns(s: State, b: nat, j: nat, a: nat)
    requires Inv(s) && b in s.live && Place(s, b, j) && Block(Freed(s, b, j), a)
    ensures a in Freed(s, b, j).size && Owns(Freed(s, b, j), a)
  {
    hide RingOk, Lower, Upper, NewRing, Start, End, Block;
    ExtentOwn(s, b, j);
    ExtentOrder(s, b, j);
    FreedBlock(s, b, j, a);
    if a != Start(s, b, j) {
      BlockSized(s, a);
      Outside(s, b, j, a);
    }
  }

  lemma ExtentOwn(s: State, b: nat, j: nat)
    requires Inv(s) && b in s.live && Place(s, b, j)
    ensures BASE < Start(s, b, j) <= End(s, b, j)
    ensures forall u :: Start(s, b, j) <= u < End(s, b, j) ==> u in s.own
  {
    Extent(s, b, j);
  }

  /** free() gives back exactly the block's units, joined with every free neighbour. */
  lemma FreedOk(s: State, b: nat, j: nat)
    requires Inv(s) && b in s.live && Place(s, b, j)
    ensures Inv(Freed(s, b, j)) && Freed(s, b, j).own.Keys == s.own.Keys && Freed(s, b, j).live == s.live - {b}
    ensures forall u: nat :: Free(Freed(s, b, j), u) <==> Free(s, u) || (b <= u < b + s.size[b])
  {
    hide RingOk, Lower, Upper, NewRing, Start, End, Block, OwnOk;
    FreedRing(s, b, j);
    ExtentOrder(s, b, j);
    LoNotLive(s, b, j);
    var s' := Freed(s, b, j);
    forall a | a in s'.size && Block(s', a) ensures Owns(s', a) { FreedOwns(s, b, j, a); }
    forall u | u in s'.own ensures OwnOk(s', u) { FreedUnit(s, b, j, u); }
    forall u: nat ensures Free(s', u) <==> Free(s, u) || (b <= u < b + s.size[b]) {
      if u in s.own { FreeUnit(s, b, j, u); }
      LiveOwns(s, b);
    }
  }

  lemma LiveOwns(s: State, b: nat)
    requires Inv(s) && b in s.live
    ensures Owns(s, b)
  {
    BlockSized(s, b);
  }

  // ----- malloc() -----

  /** The header malloc() hands out when it takes `n` units from free block `i`: the whole block, or
      its tail. */
  ghost function Taken(s: State, i: nat, n: nat): nat
    requires Inv(s) && 1 <= i < |s.ring| && s.size[s.ring[i]] >= n
  {
    s.ring[i] + s.size[s.ring[i]] - n
  }

  ghost function Carved(s: State, i: nat, n: nat): State
    requires Inv(s) && 1 <= i < |s.ring| && s.size[s.ring[i]] >= n
  {
    var f, h := s.ring[i], Taken(s, i, n);
    if s.size[f] == n then s.(ring := s.ring[..i] + s.ring[i + 1..], live := s.live + {f})
    else State(s.ring, s.size[f := s.size[f] - n][h := n], s.live + {h}, Reown(s.own, h, h + n))
  }

  lemma WithoutHas(ring: seq<nat>, i: nat, y: nat)
    requires i < |ring|
    ensures y in ring <==> y == ring[i] || y in ring[..i] + ring[i + 1..]
  {
    assert ring == ring[..i] + [ring[i]] + ring[i + 1..];
  }

  lemma CarvedWholeBlock(s: State, i: nat, n: nat, a: nat)
    requires Inv(s) && 1 <= i < |s.ring| && s.size[s.ring[i]] == n
    ensures Block(Carved(s, i, n), a) <==> Block(s, a)
  {
    hide Owns, OwnOk;
    WithoutHas(s.ring, i, a);
  }

  lemma CarvedWholeRing(s: State, i: nat, n: nat)
    requires Inv(s) && 1 <= i < |s.ring| && s.size[s.ring[i]] == n
    ensures Sized(Carved(s, i, n)) && RingOk(Carved(s, i, n))
  {
    hide Owns, OwnOk;
    var s' := Carved(s, i, n);
    forall k | 0 <= k < |s'.ring| ensures s'.ring[k] == s.ring[if k < i then k else k + 1] {
    }
  }

  lemma CarvedWhole(s: State, i: nat, n: nat)
    requires Inv(s) && 1 <= i < |s.ring| && s.size[s.ring[i]] == n
    ensures Inv(Carved(s, i, n))
    ensures forall u: nat :: Free(Carved(s, i, n), u) <==> Free(s, u) && !(s.ring[i] <= u < s.ring[i] + n)
  {
    hide RingOk, Block;
    var f, s' := s.ring[i], Carved(s, i, n);
    CarvedWholeRing(s, i, n);
    FreeAt(s, i);
    forall a | a in s'.size && Block(s', a) ensures Owns(s', a) {
      CarvedWholeBlock(s, i, n, a);
      BlockSized(s, a);
    }
    forall u | u in s'.own ensures OwnOk(s', u) {
      assert OwnOk(s, u);
      CarvedWholeBlock(s, i, n, s.own[u]);
    }
    forall u: nat ensures Free(s', u) <==> Free(s, u) && !(f <= u < f + n) {
      if u in s.own { assert OwnOk(s, u); }
    }
    BlockSized(s, f);
  }

  lemma CarvedTailBlock(s: State, i: nat, n: nat, a: nat)
    requires Inv(s) && 1 <= i < |s.ring| && s.size[s.ring[i]] > n >= 1
    ensures Block(Carved(s, i, n), a) <==> Block(s, a) || a == Taken(s, i, n)
    ensures !Block(s, Taken(s, i, n))
  {
    var f, h := s.ring[i], Taken(s, i, n);
    BlockSized(s, f);
    assert s.own[h] == f;
    if Block(s, h) { BlockSized(s, h); }
  }

  lemma CarvedTailRing(s: State, i: nat, n: nat)
    requires Inv(s) && 1 <= i < |s.ring| && s.size[s.ring[i]] > n >= 1
    ensures Sized(Carved(s, i, n)) && RingOk(Carved(s, i, n))
  {
    hide Owns, OwnOk;
    var h, s' := Taken(s, i, n), Carved(s, i, n);
    CarvedTailBlock(s, i, n, h);
    assert h != BASE;
    forall k | 0 <= k < |s.ring| ensures s.ring[k] != h { }
    forall k, m | 0 <= k < m < |s.ring| ensures s.ring[k] + s'.size[s.ring[k]] < s.ring[m] { }
  }

  lemma CarvedTailOwns(s: State, i: nat, n: nat, a: nat)
    requires Inv(s) && 1 <= i < |s.ring| && s.size[s.ring[i]] > n >= 1 && Block(Carved(s, i, n), a)
    ensures a in Carved(s, i, n).size && Owns(Carved(s, i, n), a)
  {
    hide RingOk, Block, OwnOk;
    FreeAt(s, i);
    CarvedTailBlock(s, i, n, a);
    if a != Taken(s, i, n) {
      BlockSized(s, a);
      var s' := Carved(s, i, n);
      forall u | a <= u < a + s'.size[a] ensures u in s'.own && s'.own[u] == a {
        assert s.own[u] == a;
      }
    }
  }

  lemma CarvedTailUnit(s: State, i: nat, n: nat, u: nat)
    requires Inv(s) && 1 <= i < |s.ring| && s.size[s.ring[i]] > n >= 1 && u in s.own
    ensures OwnOk(Carved(s, i, n), u)
    ensures Free(Carved(s, i, n), u) <==> Free(s, u) && !(Taken(s, i, n) <= u < Taken(s, i, n) + n)
  {
    hide RingOk, Block;
    var h, s' := Taken(s, i, n), Carved(s, i, n);
    FreeAt(s, i);
    assert OwnOk(s, u);
    CarvedTailBlock(s, i, n, s'.own[u]);
    CarvedTailBlock(s, i, n, h);
  }

  lemma CarvedTail(s: State, i: nat, n: nat)
    requires Inv(s) && 1 <= i < |s.ring| && s.size[s.ring[i]] > n >= 1
    ensures Inv(Carved(s, i, n))
    ensures forall u: nat :: Free(Carved(s, i, n), u) <==> Free(s, u) && !(Taken(s, i, n) <= u < Taken(s, i, n) + n)
  {
    hide RingOk, Block, Owns, OwnOk;
    var h, s' := Taken(s, i, n), Carved(s, i, n);
    CarvedTailRing(s, i, n);
    FreeAt(s, i);
    CarvedTailBlock(s, i, n, h);
    forall a | a in s'.size && Block(s', a) ensures Owns(s', a) { CarvedTailOwns(s, i, n, a); }
    forall u | u in s'.own ensures OwnOk(s', u) { CarvedTailUnit(s, i, n, u); }
    forall u: nat ensures Free(s', u) <==> Free(s, u) && !(h <= u < h + n) {
      if u in s.own { CarvedTailUnit(s, i, n, u); }
    }
    forall a | a in s.live ensures Block(s, a) { LiveBlock(s, a); }
  }

  lemma FreeAt(s: State, i: nat)
    requires Inv(s) && 1 <= i < |s.ring|
    ensures Block(s, s.ring[i]) && Owns(s, s.ring[i]) && s.ring[i] !in s.live && s.ring[i] > BASE
  {
    BlockSized(s, s.ring[i]);
  }

  lemma LiveBlock(s: State, a: nat)
    requires a in s.live
    ensures Block(s, a)
  {
  }

  /** malloc() takes exactly `n` free units and touches no live block. */
  lemma CarvedOk(s: State, i: nat, n: nat)
    requires Inv(s) && 1 <= i < |s.ring| && s.size[s.ring[i]] >= n >= 1
    ensures var s', h := Carved(s, i, n), Taken(s, i, n);
            && Inv(s') && s'.own.Keys == s.own.Keys && h !in s.live && s'.live == s.live + {h} && h in s'.size
                && s'.size[h] == n
            && (forall a :: a in s.live ==> a in s'.size && s'.size[a] == s.size[a])
            && (forall u: nat :: Free(s', u) <==> Free(s, u) && !(h <= u < h + n))
  {
    hide RingOk, Owns, OwnOk, Block;
    FreeAt(s, i);
    if s.size[s.ring[i]] == n {
      CarvedWhole(s, i, n);
    } else {
      CarvedTail(s, i, n);
      CarvedTailBlock(s, i, n, Taken(s, i, n));
      forall a | a in s.live ensures Block(s, a) { LiveBlock(s, a); }
    }
  }

  // ----- morecore() -----

  ghost function Run(a: nat, n: nat): (m: map<nat, nat>)
    ensures forall u :: u in m <==> a <= u < a + n
    ensures forall u :: u in m ==> m[u] == a
    decreases n
  {
    if n == 0 then map[] else Run(a, n - 1)[a + n - 1 := a]
  }

  /** New memory from sbrk(), as if it were a live block about to be freed. */
  ghost function Grown(s: State, a: nat, n: nat): State {
    s.(size := s.size[a := n], live := s.live + {a}, own := s.own + Run(a, n))
  }

  lemma GrownBelow(s: State, a: nat, b: nat)
    requires Inv(s) && (forall u :: u in s.own ==> u < a) && Block(s, b)
    ensures b in s.size && b + s.size[b] <= a && b < a && Owns(s, b)
  {
    hide OwnOk, RingOk;
    BlockSized(s, b);
    assert b + s.size[b] - 1 in s.own;
  }

  lemma GrownRing(s: State, a: nat, n: nat)
    requires Inv(s) && a > BASE && n >= 1 && forall u :: u in s.own ==> u < a
    ensures a !in s.live && a !in s.ring && Sized(Grown(s, a, n)) && RingOk(Grown(s, a, n))
  {
    hide Owns, OwnOk;
    forall i | 1 <= i < |s.ring| ensures s.ring[i] != a {
      assert Block(s, s.ring[i]);
      GrownBelow(s, a, s.ring[i]);
    }
    if a in s.live { GrownBelow(s, a, a); }
  }

  lemma GrownOk(s: State, a: nat, n: nat)
    requires Inv(s) && a > BASE && n >= 1 && forall u :: u in s.own ==> u < a
    ensures Inv(Grown(s, a, n)) && a !in s.live
    ensures forall u: nat :: Free(Grown(s, a, n), u) <==> Free(s, u)
  {
    hide RingOk, Block, Run;
    var s' := Grown(s, a, n);
    GrownRing(s, a, n);
    forall b | b in s'.size && Block(s', b) ensures Owns(s', b) {
      GrownBlock(s, a, n, b);
      if b != a { GrownBelow(s, a, b); }
    }
    forall u | u in s'.own ensures OwnOk(s', u) {
      if u in s.own { assert OwnOk(s, u); }
      GrownBlock(s, a, n, s'.own[u]);
    }
    forall u: nat ensures Free(s', u) <==> Free(s, u) {
      if u in s.own { assert OwnOk(s, u); GrownBelow(s, a, s.own[u]); }
    }
  }

  lemma GrownBlock(s: State, a: nat, n: nat, b: nat)
    ensures Block(Grown(s, a, n), b) <==> Block(s, b) || b == a
  {
  }

  // ----- the free list is canonical -----

  lemma FreeOwner(s: State, u: nat) returns (k: nat)
    requires Inv(s) && Free(s, u)
    ensures 1 <= k < |s.ring| && s.ring[k] <= u < s.ring[k] + s.size[s.ring[k]]
  {
    assert OwnOk(s, u);
    k :| 0 <= k < |s.ring| && s.ring[k] == s.own[u];
  }

  ghost predicate SameAt(s: State, t: State, k: nat)
    requires Sized(s) && Sized(t)
  {
    k < |s.ring| && k < |t.ring| && s.ring[k] == t.ring[k] && s.size[s.ring[k]] == t.size[t.ring[k]]
  }

  lemma Lead(s: State, t: State, i: nat)
    requires Inv(s) && Inv(t) && 1 <= i < |s.ring| && (forall u: nat :: Free(s, u) ==> Free(t, u))
    requires forall k {:trigger SameAt(s, t, k)} :: 0 <= k < i ==> SameAt(s, t, k)
    ensures i < |t.ring| && t.ring[i] <= s.ring[i]
  {
    FreeAt(s, i);
    var f := s.ring[i];
    assert Free(s, f);
    var k := FreeOwner(t, f);
    assert k < i ==> SameAt(s, t, k);
  }

  /** The unit after a free block is not free. */
  lemma EndNotFree(s: State, i: nat)
    requires Inv(s) && 1 <= i < |s.ring|
    ensures !Free(s, s.ring[i] + s.size[s.ring[i]])
  {
    hide Owns;
    var e := s.ring[i] + s.size[s.ring[i]];
    forall k | 1 <= k < |s.ring| ensures !(s.ring[k] <= e < s.ring[k] + s.size[s.ring[k]]) {
      assert k < i ==> s.ring[k] + s.size[s.ring[k]] < s.ring[i];
    }
    assert e in s.own ==> OwnOk(s, e);
  }

  lemma SizeLead(s: State, t: State, i: nat)
    requires Inv(s) && Inv(t) && 1 <= i < |s.ring| && i < |t.ring| && s.ring[i] == t.ring[i]
             && (forall u: nat :: Free(t, u) ==> Free(s, u))
    ensures t.size[t.ring[i]] <= s.size[s.ring[i]]
  {
    FreeAt(t, i);
    EndNotFree(s, i);
    assert !Free(t, s.ring[i] + s.size[s.ring[i]]);
  }

  /** The free list is determined by the free units alone, whatever calls led to it. */
  lemma {:induction false} Canonical(s: State, t: State, i: nat)
    requires Inv(s) && Inv(t) && forall u: nat :: Free(s, u) <==> Free(t, u)
    requires i < |s.ring|
    ensures SameAt(s, t, i)
  {
    hide Owns, OwnOk, Block, Free;
    if i > 0 {
      forall k | 0 <= k < i ensures SameAt(s, t, k) && SameAt(t, s, k) { Canonical(s, t, k); }
      Lead(s, t, i);
      Lead(t, s, i);
      SizeLead(s, t, i);
      SizeLead(t, s, i);
    }
  }
}
