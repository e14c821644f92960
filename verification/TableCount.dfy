/** How many page-table pages a page table has: which paths exist, how many walk() has to add for a
    page, and how many a dense address space takes. */
module TableCount {
  import opened Sv39

  /** The page table has a table page with this path. */
  ghost predicate Has(role: Roles, root: nat, path: seq<nat>) {
    exists f :: f in role && role[f].Node? && role[f].root == root && role[f].path == path
  }

  /** An entry above level 0 is valid exactly when the table page below it exists. */
  lemma ValidHas(t: Tables, role: Roles, f: nat, i: nat)
    requires WellFormed(t, role, {}) && f in t && f in role && role[f].Node? && |role[f].path| < 2 && i < NPTE
    ensures t[f][i].v <==> Has(role, role[f].root, role[f].path + [i])
  {
    var path := role[f].path + [i];
    if t[f][i].v {
      Down(t, role, {}, f, i);
    } else if Has(role, role[f].root, path) {
      var g :| g in role && role[g].Node? && role[g].root == role[f].root && role[g].path == path;
      Up(t, role, {}, g);
      assert path[..|path| - 1] == role[f].path;
      UniquePath(t, role, {}, role[g].parent, f);
    }
  }

  /** One path more */
  ghost predicate Gained(role: Roles, role': Roles, root: nat, path: seq<nat>) {
    forall p {:trigger Has(role', root, p)} :: Has(role', root, p) <==> Has(role, root, p) || p == path
  }

  lemma LinkHas(role: Roles, role': Roles, f: nat, i: nat, g: nat)
    requires f in role && role[f].Node? && g in role && !role[g].Node? && f != g
    requires role' == role[g := Data] || role' == role
    ensures Gained(role, LinkRole(role', f, i, g), role[f].root, role[f].path + [i])
  {
    var now, root, path := LinkRole(role', f, i, g), role[f].root, role[f].path + [i];
    assert now[g].path == path;
    forall p ensures Has(now, root, p) <==> Has(role, root, p) || p == path {
      if Has(role, root, p) {
        var h :| h in role && role[h].Node? && role[h].root == root && role[h].path == p;
        assert now[h] == role[h];
      }
      if Has(now, root, p) {
        var h :| h in now && now[h].Node? && now[h].root == root && now[h].path == p;
        if h != g { assert role[h] == now[h]; }
      }
    }
  }

  // ----- what walk() adds -----

  /** Of the table pages for `vpn` above level `level`, those that are missing. */
  ghost function Missing(role: Roles, root: nat, vpn: nat, level: nat): nat
    requires vpn < MAXVPN && level <= 2
  {
    (if level < 2 && !Has(role, root, PathOf(vpn)[..1]) then 1 else 0)
    + (if level < 1 && !Has(role, root, PathOf(vpn)) then 1 else 0)
  }

  /** Just the table pages for `vpn` above level `level` were added. */
  ghost predicate Reaches(role: Roles, role': Roles, root: nat, vpn: nat, level: nat)
    requires vpn < MAXVPN && level <= 2
  {
    forall p {:trigger Has(role', root, p)} ::
      Has(role', root, p) <==>
        Has(role, root, p) || (level < 2 && p == PathOf(vpn)[..1]) || (level < 1 && p == PathOf(vpn))
  }

  /** walk() goes down where the table page exists ... */
  lemma ReachesOn(role: Roles, role': Roles, root: nat, vpn: nat, level: nat)
    requires vpn < MAXVPN && 1 <= level <= 2 && Reaches(role, role', root, vpn, level)
    requires Has(role', root, PathOf(vpn)[..3 - level])
    ensures Reaches(role, role', root, vpn, level - 1) && Missing(role, root, vpn, level - 1)
            == Missing(role, root, vpn, level)
  {
    assert PathOf(vpn)[..2] == PathOf(vpn);
    assert |PathOf(vpn)[..1]| == 1;
  }

  /** ... and adds it where it does not. */
  lemma ReachesNew(role: Roles, mid: Roles, role': Roles, root: nat, vpn: nat, level: nat)
    requires vpn < MAXVPN && 1 <= level <= 2 && Reaches(role, mid, root, vpn, level)
    requires !Has(mid, root, PathOf(vpn)[..3 - level]) && Gained(mid, role', root, PathOf(vpn)[..3 - level])
    ensures Reaches(role, role', root, vpn, level - 1) && Missing(role, root, vpn, level - 1)
            == Missing(role, root, vpn, level) + 1
  {
    assert PathOf(vpn)[..2] == PathOf(vpn);
    assert |PathOf(vpn)[..1]| == 1;
    forall p {:trigger Has(role', root, p)}
      ensures Has(role', root, p) <==> Has(role, root, p) || p == PathOf(vpn)[..1] || (level == 1 && p == PathOf(vpn))
    {
      assert Has(mid, root, p) <==> Has(role, root, p) || (level < 2 && p == PathOf(vpn)[..1]);
    }
  }

  // ----- a dense address space -----

  /** The table pages, besides the root, that the first n pages need: one per 512 pages and one per
      262144 pages, both rounded up. */
  function TablesFor(n: nat): nat { (n + 511) / 512 + (n + 262143) / 262144 }

  /** The page table has no table page for any of the first n pages. */
  ghost predicate Bare(role: Roles, root: nat, n: nat)
    requires n <= MAXVPN
  {
    forall v :: 0 <= v < n ==> !Has(role, root, PathOf(v)[..1]) && !Has(role, root, PathOf(v))
  }

  /** Only the root itself */
  ghost predicate OnlyRoot(role: Roles, root: nat) {
    forall p :: Has(role, root, p) ==> p == []
  }

  lemma OnlyRootBare(role: Roles, root: nat, n: nat)
    requires OnlyRoot(role, root) && n <= MAXVPN
    ensures Bare(role, root, n)
  {
    hide Has;
    forall v | 0 <= v < n ensures !Has(role, root, PathOf(v)[..1]) && !Has(role, root, PathOf(v)) {
      assert |PathOf(v)[..1]| == 1 && |PathOf(v)| == 2;
    }
  }

  lemma TablesGrow(a: nat, b: nat)
    requires a <= b
    ensures TablesFor(a) <= TablesFor(b)
  {
    LeavesGrow(a, b);
    assert (a + 262143) / 262144 <= (b + 262143) / 262144 by {
      var x, y := (a + 262143) / 262144, (b + 262143) / 262144;
      assert 262144 * x <= a + 262143 && b + 262143 < 262144 * y + 262144;
    }
  }

  lemma LeavesGrow(a: nat, b: nat)
    requires a <= b
    ensures (a + 511) / 512 <= (b + 511) / 512
  {
    var x, y := (a + 511) / 512, (b + 511) / 512;
    assert 512 * x <= a + 511 && b + 511 < 512 * y + 512;
  }

  /** The first n pages were walked with alloc set, and nothing else. */
  ghost predicate Covers(role: Roles, role': Roles, root: nat, n: nat)
    requires n <= MAXVPN
  {
    forall p {:trigger Has(role', root, p)} :: Has(role', root, p) <==> Has(role, root, p) || OnTheWay(p, n)
  }

  ghost predicate OnTheWay(p: seq<nat>, n: nat)
    requires n <= MAXVPN
  {
    exists v :: 0 <= v < n && (p == PathOf(v)[..1] || p == PathOf(v))
  }

  lemma CoversNone(role: Roles, root: nat)
    ensures Covers(role, role, root, 0)
  {
  }

  /** The next page needs a level-0 table when it is the first of 512, and one above it when it is the
      first of 262144. */
  lemma NextMissing(role: Roles, role': Roles, root: nat, n: nat)
    requires n < MAXVPN && Covers(role, role', root, n) && Bare(role, root, n + 1)
    ensures Missing(role', root, n, 0) == TablesFor(n + 1) - TablesFor(n)
  {
    assert PathOf(n)[..1] == [n / 262144];
    assert Has(role', root, PathOf(n)[..1]) <==> n % 262144 != 0 by {
      assert !Has(role, root, PathOf(n)[..1]);
      if n % 262144 != 0 {
        assert PathOf(n - 1)[..1] == PathOf(n)[..1];
      } else if OnTheWay(PathOf(n)[..1], n) {
        var v :| 0 <= v < n && (PathOf(n)[..1] == PathOf(v)[..1] || PathOf(n)[..1] == PathOf(v));
        SameTop(v, n);
      }
    }
    assert Has(role', root, PathOf(n)) <==> n % 512 != 0 by {
      assert !Has(role, root, PathOf(n));
      if n % 512 != 0 {
        SameLow(n - 1, n);
      } else if OnTheWay(PathOf(n), n) {
        var v :| 0 <= v < n && (PathOf(n) == PathOf(v)[..1] || PathOf(n) == PathOf(v));
        SamePath(v, n);
      }
    }
    Ceilings(n);
  }

  lemma SameTop(v: nat, n: nat)
    requires v < MAXVPN && n < MAXVPN && (PathOf(n)[..1] == PathOf(v)[..1] || PathOf(n)[..1] == PathOf(v))
    ensures v / 262144 == n / 262144
  {
    assert |PathOf(n)[..1]| == 1;
    assert PathOf(v)[..1][0] == v / 262144 && PathOf(n)[..1][0] == n / 262144;
  }

  lemma SameLow(v: nat, n: nat)
    requires v < MAXVPN && n < MAXVPN && n == v + 1 && n % 512 != 0
    ensures PathOf(v) == PathOf(n)
  {
    assert v / 512 == n / 512;
    assert v / 262144 == v / 512 / 512 && n / 262144 == n / 512 / 512;
  }

  lemma SamePath(v: nat, n: nat)
    requires v < MAXVPN && n < MAXVPN && (PathOf(n) == PathOf(v)[..1] || PathOf(n) == PathOf(v))
    ensures v / 512 == n / 512
  {
    assert |PathOf(v)[..1]| == 1;
    assert PathOf(v)[0] == PathOf(n)[0] && PathOf(v)[1] == PathOf(n)[1];
    assert v / 262144 == v / 512 / 512 && n / 262144 == n / 512 / 512;
  }

  lemma Ceilings(n: nat)
    ensures TablesFor(n + 1) - TablesFor(n) == (if n % 512 == 0 then 1 else 0) + (if n % 262144 == 0 then 1 else 0)
  {
  }

  lemma CoversNext(role: Roles, mid: Roles, role': Roles, root: nat, n: nat)
    requires n < MAXVPN && Covers(role, mid, root, n) && Reaches(mid, role', root, n, 0)
    ensures Covers(role, role', root, n + 1)
  {
    forall p {:trigger Has(role', root, p)} ensures Has(role', root, p) <==> Has(role, root, p) || OnTheWay(p, n + 1) {
      assert Has(mid, root, p) <==> Has(role, root, p) || OnTheWay(p, n);
      if OnTheWay(p, n + 1) {
        var v :| 0 <= v < n + 1 && (p == PathOf(v)[..1] || p == PathOf(v));
        if v < n { assert OnTheWay(p, n); }
      }
      if OnTheWay(p, n) {
        var v :| 0 <= v < n && (p == PathOf(v)[..1] || p == PathOf(v));
      }
    }
  }
}
