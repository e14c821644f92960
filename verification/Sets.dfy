/** Facts about finite sets of numbers. */
module Sets {
  lemma {:induction false} SubsetSize(a: set<nat>, b: set<nat>)
    requires a <= b
    ensures |a| <= |b|
    decreases a
  {
    if a != {} {
      var x :| x in a;
      SubsetSize(a - {x}, b - {x});
    }
  }

  lemma Below(x: set<nat>, n: nat)
    requires forall i :: i in x ==> i < n
    ensures |x| <= n
  {
    if n > 0 {
      if n - 1 in x { Below(x - {n - 1}, n - 1); } else { Below(x, n - 1); }
    } else {
      assert x == {};
    }
  }
}
