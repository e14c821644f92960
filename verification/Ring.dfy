/** The doubly linked LRU ring of kernel/bio.c, as next and prev fields indexed by buffer; index n
    is the list head.  A walk spells the ring out: head, buffers from most to least recently used,
    head again. */
module Ring {

  /** No element before the closing head occurs twice. */
  ghost predicate Simple(w: seq<nat>) {
    && |w| >= 2 && w[0] == w[|w| - 1]
    && forall i, j :: 0 <= i < j < |w| - 1 ==> w[i] != w[j]
  }

  /** Fields next and prev connect element `k` of the walk to the following one. */
  ghost predicate Link(next: seq<nat>, prev: seq<nat>, w: seq<nat>, k: nat) {
    && k + 1 < |w| && w[k] < |next| && w[k + 1] < |prev|
    && next[w[k]] == w[k + 1] && prev[w[k + 1]] == w[k]
  }

  ghost predicate Walk(next: seq<nat>, prev: seq<nat>, w: seq<nat>) {
    Simple(w) && forall k {:trigger Link(next, prev, w, k)} :: 0 <= k < |w| - 1 ==> Link(next, prev, w, k)
  }

  function Removed(w: seq<nat>, k: nat): seq<nat>
    requires k < |w|
  {
    w[..k] + w[k + 1..]
  }

  /** Positions other than the two heads hold different elements. */
  lemma Apart(w: seq<nat>, i: nat, j: nat)
    requires Simple(w) && i < |w| && j < |w| && i != j && !(i == 0 && j == |w| - 1) && !(j == 0 && i == |w| - 1)
    ensures w[i] != w[j]
  {
  }

  lemma RemovedSimple(w: seq<nat>, k: nat)
    requires Simple(w) && 1 <= k < |w| - 1
    ensures Simple(Removed(w, k))
  {
    var w' := Removed(w, k);
    forall i, j | 0 <= i < j < |w'| - 1 ensures w'[i] != w'[j] {
      Apart(w, if i < k then i else i + 1, if j < k then j else j + 1);
    }
  }

  /** Taking an element out: its two neighbours are linked to each other. */
  lemma Unlink(next: seq<nat>, prev: seq<nat>, w: seq<nat>, k: nat)
    requires Walk(next, prev, w) && 1 <= k < |w| - 1
    ensures Link(next, prev, w, k - 1) && Link(next, prev, w, k)
    ensures Walk(next[w[k - 1] := w[k + 1]], prev[w[k + 1] := w[k - 1]], Removed(w, k))
  {
    assert Link(next, prev, w, k - 1) && Link(next, prev, w, k);
    var next', prev', w' := next[w[k - 1] := w[k + 1]], prev[w[k + 1] := w[k - 1]], Removed(w, k);
    RemovedSimple(w, k);
    forall j | 0 <= j < |w'| - 1 ensures Link(next', prev', w', j) {
      UnlinkAt(next, prev, w, k, j);
    }
  }

  lemma UnlinkAt(next: seq<nat>, prev: seq<nat>, w: seq<nat>, k: nat, j: nat)
    requires Walk(next, prev, w) && 1 <= k < |w| - 1 && j < |w| - 2
    requires Link(next, prev, w, k - 1) && Link(next, prev, w, k)
    ensures Link(next[w[k - 1] := w[k + 1]], prev[w[k + 1] := w[k - 1]], Removed(w, k), j)
  {
    hide Simple;
    if j < k - 1 {
      assert Link(next, prev, w, j);
      Apart(w, j, k - 1);
      Apart(w, j + 1, k + 1);
    } else if j > k - 1 {
      assert Link(next, prev, w, j + 1);
      Apart(w, j + 1, k - 1);
      Apart(w, j + 2, k + 1);
    }
  }

  function PushedFront(w: seq<nat>, b: nat): seq<nat>
    requires |w| >= 1
  {
    [w[0], b] + w[1..]
  }

  lemma PushedSimple(w: seq<nat>, b: nat)
    requires Simple(w) && b !in w
    ensures Simple(PushedFront(w, b))
  {
    var w' := PushedFront(w, b);
    forall i, j | 0 <= i < j < |w'| - 1 ensures w'[i] != w'[j] {
      if i != 1 && j != 1 {
        Apart(w, if i == 0 then 0 else i - 1, j - 1);
      }
    }
  }

  /** Putting an element back in, right behind the head. */
  lemma PushFront(next: seq<nat>, prev: seq<nat>, w: seq<nat>, b: nat)
    requires Walk(next, prev, w) && b < |next| && b < |prev| && b !in w
    ensures Link(next, prev, w, 0)
    ensures Walk(next[b := w[1]][w[0] := b], prev[b := w[0]][w[1] := b], PushedFront(w, b))
  {
    assert Link(next, prev, w, 0);
    var next', prev', w' := next[b := w[1]][w[0] := b], prev[b := w[0]][w[1] := b], PushedFront(w, b);
    PushedSimple(w, b);
    forall j | 0 <= j < |w'| - 1 ensures Link(next', prev', w', j) {
      PushAt(next, prev, w, b, j);
    }
  }

  lemma PushAt(next: seq<nat>, prev: seq<nat>, w: seq<nat>, b: nat, j: nat)
    requires Walk(next, prev, w) && b < |next| && b < |prev| && b !in w && j < |w|
    requires Link(next, prev, w, 0)
    ensures Link(next[b := w[1]][w[0] := b], prev[b := w[0]][w[1] := b], PushedFront(w, b), j)
  {
    hide Simple;
    assert b != w[0] && b != w[1];
    if j >= 2 {
      assert Link(next, prev, w, j - 1);
      assert b != w[j - 1] && b != w[j];
      Apart(w, j - 1, 0);
      Apart(w, j, 1);
    }
  }
}
