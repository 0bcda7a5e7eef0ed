/**
 How the data section of a product queue is divided: a map from the offset of
 each region to its table slot, its extent and whether it is free, in use, or just
 taken from the free lists and not yet in use.
 */
module Layouts {

  datatype Kind = Free | Used | Held

  datatype Span = Span(slot: nat, extent: int, kind: Kind)

  type Layout = map<int, Span>

  /** The regions tile `lo .. hi`: each ends where another begins or at `hi`, and none overlap. */
  ghost predicate Tiled(m: Layout, lo: int, hi: int) {
    && lo in m
    && (forall o :: o in m ==> lo <= o && 0 < m[o].extent && o + m[o].extent <= hi)
    && (forall o :: o in m ==> o + m[o].extent == hi || o + m[o].extent in m)
    && (forall o, p :: o in m && p in m && o < p ==> o + m[o].extent <= p)
  }

  /** No free region ends where another free region begins, except at `c`. */
  ghost predicate SpreadBut(m: Layout, c: int) {
    forall o :: o in m && m[o].kind == Free && o + m[o].extent in m && m[o + m[o].extent].kind == Free ==>
      o == c || o + m[o].extent == c
  }

  /** No two free regions are adjacent. */
  ghost predicate Spread(m: Layout) {
    forall o :: o in m && m[o].kind == Free && o + m[o].extent in m ==> m[o + m[o].extent].kind != Free
  }

  /** `x` is the largest free extent, 0 if nothing is free. */
  ghost predicate MaxFree(m: Layout, x: int) {
    && 0 <= x
    && (forall o :: o in m && m[o].kind == Free ==> m[o].extent <= x)
    && (0 < x ==> exists o :: o in m && m[o].kind == Free && m[o].extent == x)
  }

  /** Every byte of the section belongs to a region, and to one only. */
  lemma Covers(m: Layout, lo: int, hi: int, x: int)
    requires Tiled(m, lo, hi) && lo <= x < hi
    ensures exists o :: o in m && o <= x < o + m[o].extent
    ensures forall o, p :: o in m && p in m && o <= x < o + m[o].extent && p <= x < p + m[p].extent ==> o == p
  {
    CoversFrom(m, lo, hi, lo, x);
  }

  lemma {:induction false} CoversFrom(m: Layout, lo: int, hi: int, o: int, x: int)
    requires Tiled(m, lo, hi) && o in m && o <= x < hi
    ensures exists o :: o in m && o <= x < o + m[o].extent
    decreases x - o
  {
    if o + m[o].extent <= x {
      CoversFrom(m, lo, hi, o + m[o].extent, x);
    }
  }

  /** With nothing in use, the free regions are one region: the whole section. */
  lemma AllFreeIsOne(m: Layout, lo: int, hi: int)
    requires Tiled(m, lo, hi) && Spread(m) && forall o :: o in m ==> m[o].kind == Free
    ensures m.Keys == {lo} && m[lo].extent == hi - lo
  {
    FirstIsWhole(m, lo, hi, lo);
    forall o | o in m ensures o == lo {
      FirstIsWhole(m, lo, hi, o);
    }
  }

  lemma FirstIsWhole(m: Layout, lo: int, hi: int, o: int)
    requires Tiled(m, lo, hi) && Spread(m) && o in m && forall o :: o in m ==> m[o].kind == Free
    ensures o == lo && m[lo].extent == hi - lo
  {
    var next := lo + m[lo].extent;
    assert next == hi || next in m;
  }

  lemma KindKeepsTiles(m: Layout, lo: int, hi: int, o: int, s: Span)
    requires Tiled(m, lo, hi) && o in m && s.extent == m[o].extent
    ensures Tiled(m[o := s], lo, hi)
  {
  }

  /** Two adjacent regions become one. */
  function Merged(m: Layout, o: int): Layout
    requires o in m && o + m[o].extent in m
  {
    var p := o + m[o].extent;
    m[o := m[o].(extent := m[o].extent + m[p].extent)] - {p}
  }

  lemma MergeKeepsTiles(m: Layout, lo: int, hi: int, o: int)
    requires Tiled(m, lo, hi) && o in m && o + m[o].extent in m
    ensures Tiled(Merged(m, o), lo, hi)
  {
    hide Tiled;
    var p := o + m[o].extent;
    var m' := Merged(m, o);
    TileAt(m, lo, hi, o);
    TileAt(m, lo, hi, p);
    forall q | q in m'
      ensures lo <= q && 0 < m'[q].extent && q + m'[q].extent <= hi
      ensures q + m'[q].extent == hi || q + m'[q].extent in m'
    {
      TileAt(m, lo, hi, q);
      if q < o { TileOrder(m, lo, hi, q, o); }
      if o < q { TileOrder(m, lo, hi, o, q); }
    }
    forall q, r | q in m' && r in m' && q < r ensures q + m'[q].extent <= r {
      TileOrder(m, lo, hi, q, r);
      if q == o { TileOrder(m, lo, hi, p, r); }
    }
    FirstTile(m, lo, hi);
    TileFirst(m, lo, hi, p, o);
    TiledBy(m', lo, hi);
  }

  lemma TileFirst(m: Layout, lo: int, hi: int, p: int, o: int)
    requires Tiled(m, lo, hi) && p in m && o in m && o < p
    ensures lo < p
  {
  }

  /** One region becomes two. */
  function Divided(m: Layout, o: int, extent: int, slot: nat): Layout
    requires o in m
  {
    m[o := m[o].(extent := extent)][o + extent := Span(slot, m[o].extent - extent, Free)]
  }

  lemma CutKeepsTiles(m: Layout, lo: int, hi: int, o: int, extent: int, slot: nat)
    requires Tiled(m, lo, hi) && o in m && 0 < extent < m[o].extent
    ensures o + extent !in m && Tiled(Divided(m, o, extent, slot), lo, hi)
  {
    hide Tiled;
    NotInside(m, lo, hi, o, o + extent);
    var m' := Divided(m, o, extent, slot);
    forall q | q in m'
      ensures lo <= q && 0 < m'[q].extent && q + m'[q].extent <= hi
      ensures q + m'[q].extent == hi || q + m'[q].extent in m'
    {
      TileAt(m, lo, hi, if q == o + extent then o else q);
    }
    forall q, r | q in m' && r in m' && q < r ensures q + m'[q].extent <= r {
      var q', r' := if q == o + extent then o else q, if r == o + extent then o else r;
      if q' < r' { TileOrder(m, lo, hi, q', r'); }
      if r' < q' { TileOrder(m, lo, hi, r', q'); }
    }
    FirstTile(m, lo, hi);
    assert Tiled(m', lo, hi) by { TiledBy(m', lo, hi); }
  }

  lemma TileAt(m: Layout, lo: int, hi: int, o: int)
    requires Tiled(m, lo, hi) && o in m
    ensures lo <= o && 0 < m[o].extent && o + m[o].extent <= hi && (o + m[o].extent == hi || o + m[o].extent in m)
  {
  }

  lemma TileOrder(m: Layout, lo: int, hi: int, o: int, p: int)
    requires Tiled(m, lo, hi) && o in m && p in m && o < p
    ensures o + m[o].extent <= p
  {
  }

  lemma FirstTile(m: Layout, lo: int, hi: int)
    requires Tiled(m, lo, hi)
    ensures lo in m
  {
  }

  lemma NotInside(m: Layout, lo: int, hi: int, o: int, x: int)
    requires Tiled(m, lo, hi) && o in m && o < x < o + m[o].extent
    ensures x !in m
  {
  }

  lemma TiledBy(m: Layout, lo: int, hi: int)
    requires lo in m
    requires forall o :: o in m ==>
               lo <= o && 0 < m[o].extent && o + m[o].extent <= hi && (o + m[o].extent == hi || o + m[o].extent in m)
    requires forall o, p :: o in m && p in m && o < p ==> o + m[o].extent <= p
    ensures Tiled(m, lo, hi)
  {
  }

  /** Cutting a taken region in two leaves it taken and the section tiled exactly when both parts are non-empty. */
  lemma CutExactly(m: Layout, lo: int, hi: int, o: int, extent: int, slot: nat)
    requires Tiled(m, lo, hi) && o in m && m[o].kind != Free && 0 <= extent <= m[o].extent
    ensures var m' := Divided(m, o, extent, slot);
            m'[o].kind == m[o].kind && Tiled(m', lo, hi) <==> 0 < extent < m[o].extent
  {
    if 0 < extent < m[o].extent {
      CutKeepsTiles(m, lo, hi, o, extent, slot);
    } else {
      var m' := Divided(m, o, extent, slot);
      assert o + extent in m' && m'[o + extent].extent == m[o].extent - extent;
    }
  }

  /**
   Where the regions begin, record by record, after the one at `o` was cut: it keeps its record and its offset, and
   what is cut off gets a record of its own.
   */
  ghost function Begins(m: Layout, o: int, extent: int): multiset<int> {
    multiset(m.Keys) + multiset{o + extent}
  }

  /**
   No two records begin at the same offset exactly when both parts are non-empty, or nothing was cut off the last
   region.  Cut at 0, both parts begin at `o`: the region handed out is also on the free lists.
   */
  lemma CutBegins(m: Layout, lo: int, hi: int, o: int, extent: int)
    requires Tiled(m, lo, hi) && o in m && 0 <= extent <= m[o].extent
    ensures (forall p :: p in Begins(m, o, extent) ==> Begins(m, o, extent)[p] == 1) <==>
            0 < extent < m[o].extent || o + extent == hi
    ensures extent == 0 ==> Begins(m, o, extent)[o] == 2
  {
    var b := Begins(m, o, extent);
    assert o + extent in b;
    if 0 < extent < m[o].extent {
      NotInside(m, lo, hi, o, o + extent);
    } else {
      TileAt(m, lo, hi, o);
    }
  }

  /** A region cut off a region that is not free has no free neighbour. */
  lemma CutKeepsSpread(m: Layout, lo: int, hi: int, o: int, extent: int, slot: nat)
    requires Tiled(m, lo, hi) && Spread(m) && o in m && 0 < extent < m[o].extent && m[o].kind != Free
    requires o + m[o].extent in m ==> m[o + m[o].extent].kind != Free
    ensures Spread(Divided(m, o, extent, slot))
  {
    var m' := Divided(m, o, extent, slot);
    NotInside(m, lo, hi, o, o + extent);
    forall q | q in m' && m'[q].kind == Free && q + m'[q].extent in m' ensures m'[q + m'[q].extent].kind != Free {
      if q != o + extent { NotCutInto(m, lo, hi, o, extent, q); }
    }
  }

  /** No region ends inside another. */
  lemma NotCutInto(m: Layout, lo: int, hi: int, o: int, extent: int, q: int)
    requires Tiled(m, lo, hi) && o in m && 0 < extent < m[o].extent && q in m && q != o
    ensures q + m[q].extent != o + extent
  {
  }

  // ---------------------------------------------------------------------
  // Freeing: the region at `c` becomes free and swallows its free neighbours
  // ---------------------------------------------------------------------

  /** `c` may still have a free neighbour to its left, but none to its right, and nobody else has any. */
  ghost predicate SpreadRight(m: Layout, c: int) {
    SpreadBut(m, c) && c in m && (c + m[c].extent in m ==> m[c + m[c].extent].kind != Free)
  }

  lemma FreedSpread(m: Layout, c: int)
    requires Spread(m) && c in m && m[c].kind != Free
    ensures SpreadBut(m[c := m[c].(kind := Free)], c)
  {
    var m' := m[c := m[c].(kind := Free)];
    forall o | o in m' && m'[o].kind == Free && o + m'[o].extent in m' && m'[o + m'[o].extent].kind == Free
      ensures o == c || o + m'[o].extent == c
    {
      if o != c { assert o in m && m[o].kind == Free; }
    }
  }

  lemma RightMerged(m: Layout, lo: int, hi: int, c: int)
    requires Tiled(m, lo, hi) && SpreadBut(m, c) && c in m && m[c].kind == Free
    requires c + m[c].extent in m && m[c + m[c].extent].kind == Free
    ensures SpreadRight(Merged(m, c), c)
  {
    var p, m' := c + m[c].extent, Merged(m, c);
    forall o | o in m' && m'[o].kind == Free && o + m'[o].extent in m' && m'[o + m'[o].extent].kind == Free
      ensures o == c || o + m'[o].extent == c
    {
      if o != c { assert o in m && m[o].kind == Free && m[o] == m'[o]; }
    }
    TileAt(m, lo, hi, c);
    TileAt(m, lo, hi, p);
    var q := p + m[p].extent;
    assert q in m' ==> q in m && q != c;
    assert q in m ==> m[q].kind != Free;
  }

  lemma LeftMerged(m: Layout, lo: int, hi: int, c: int, l: int)
    requires Tiled(m, lo, hi) && SpreadRight(m, c) && m[c].kind == Free
    requires l in m && m[l].kind == Free && l + m[l].extent == c
    ensures Spread(Merged(m, l))
  {
    var m' := Merged(m, l);
    forall o | o in m' && m'[o].kind == Free && o + m'[o].extent in m' ensures m'[o + m'[o].extent].kind != Free {
      if o == l {
        assert o + m'[o].extent == c + m[c].extent;
      } else {
        assert o in m && m[o] == m'[o] && o != c && o + m[o].extent != c;
      }
    }
  }

  lemma NoLeft(m: Layout, c: int)
    requires SpreadRight(m, c) && forall l :: l in m && m[l].kind == Free ==> l + m[l].extent != c
    ensures Spread(m)
  {
  }

  /** `x` is the largest free extent, or `c` has taken that over. */
  ghost predicate MaxBut(m: Layout, c: int, x: int) {
    && c in m && m[c].kind == Free && 0 <= x
    && (forall o :: o in m && m[o].kind == Free && o != c ==> m[o].extent <= x)
    && (0 < x ==> x <= m[c].extent || exists o :: o in m && m[o].kind == Free && m[o].extent == x)
  }

  lemma FreedMax(m: Layout, c: int, x: int)
    requires MaxFree(m, x) && c in m && m[c].kind != Free
    ensures MaxBut(m[c := m[c].(kind := Free)], c, x)
  {
    var m' := m[c := m[c].(kind := Free)];
    if 0 < x {
      var o :| o in m && m[o].kind == Free && m[o].extent == x;
      assert m'[o].extent == x;
    }
  }

  /** Merging the neighbour at the end of `o`, with the result standing for `c`. */
  lemma MergedMax(m: Layout, lo: int, hi: int, c: int, o: int, x: int)
    requires Tiled(m, lo, hi) && MaxBut(m, c, x) && o in m && m[o].kind == Free
    requires o + m[o].extent in m && m[o + m[o].extent].kind == Free && (c == o || c == o + m[o].extent)
    ensures MaxBut(Merged(m, o), o, x)
  {
    TileAt(m, lo, hi, o);
    TileAt(m, lo, hi, o + m[o].extent);
    MergedMost(m, c, o, x);
  }

  lemma MergedMost(m: Layout, c: int, o: int, x: int)
    requires MaxBut(m, c, x) && o in m && m[o].kind == Free && 0 < m[o].extent
    requires o + m[o].extent in m && m[o + m[o].extent].kind == Free && 0 < m[o + m[o].extent].extent
    requires c == o || c == o + m[o].extent
    ensures MaxBut(Merged(m, o), o, x)
  {
    var p, m' := o + m[o].extent, Merged(m, o);
    assert m'[o].extent == m[o].extent + m[p].extent;
    if 0 < x && m'[o].extent < x {
      var q :| q in m && m[q].kind == Free && m[q].extent == x;
      assert q != o && q != p && m'[q].extent == x;
    }
  }

  lemma MaxSettled(m: Layout, c: int, x: int)
    requires MaxBut(m, c, x) && 0 < m[c].extent
    ensures MaxFree(m, if m[c].extent > x then m[c].extent else x)
  {
    if m[c].extent == x { assert m[c].extent == x && c in m; }
  }

  lemma CutMax(m: Layout, lo: int, hi: int, o: int, extent: int, slot: nat, x: int)
    requires Tiled(m, lo, hi) && MaxFree(m, x) && o in m && 0 < extent < m[o].extent && m[o].kind != Free
    ensures var rem := m[o].extent - extent; MaxFree(Divided(m, o, extent, slot), if rem > x then rem else x)
  {
    CutKeepsTiles(m, lo, hi, o, extent, slot);
    var m' := Divided(m, o, extent, slot);
    var rem := m[o].extent - extent;
    if rem <= x && 0 < x {
      var q :| q in m && m[q].kind == Free && m[q].extent == x;
      assert q in m' && m'[q].extent == x;
    }
    assert m'[o + extent].extent == rem;
  }

  // ---------------------------------------------------------------------
  // Bytes in use
  // ---------------------------------------------------------------------

  ghost function Weight(m: Layout, o: int): int {
    if o in m && m[o].kind == Used then m[o].extent else 0
  }

  lemma NonEmpty(ks: set<int>)
    requires ks != {}
    ensures exists o :: o in ks
  {
    assert (forall o :: o !in ks) ==> ks == {};
  }

  ghost function Pick(ks: set<int>): (o: int)
    requires ks != {}
    ensures o in ks
  {
    NonEmpty(ks);
    var o :| o in ks;
    o
  }

  ghost function SumOver(m: Layout, ks: set<int>): int
    decreases |ks|
  {
    if |ks| == 0 then 0 else Weight(m, Pick(ks)) + SumOver(m, ks - {Pick(ks)})
  }

  ghost function UsedKeys(m: Layout): set<int> {
    set o | o in m && m[o].kind == Used
  }

  /** The sum of the extents in use. */
  ghost function UsedBytes(m: Layout): int {
    SumOver(m, UsedKeys(m))
  }

  lemma {:induction false} SumRemove(m: Layout, ks: set<int>, o: int)
    requires o in ks
    ensures SumOver(m, ks) == Weight(m, o) + SumOver(m, ks - {o})
    decreases |ks|
  {
    assert |ks| > 0;
    var p := Pick(ks);
    if p != o {
      SumRemove(m, ks - {p}, o);
      SumRemove(m, ks - {o}, p);
      assert ks - {p} - {o} == ks - {o} - {p};
    }
  }

  lemma {:induction false} SumAgree(m: Layout, m': Layout, ks: set<int>)
    requires forall o :: o in ks ==> Weight(m, o) == Weight(m', o)
    ensures SumOver(m, ks) == SumOver(m', ks)
    decreases |ks|
  {
    if |ks| > 0 {
      var o := Pick(ks);
      SumRemove(m', ks, o);
      SumAgree(m, m', ks - {o});
    }
  }

  /** The same regions are in use, with the same extents. */
  ghost predicate SameUsed(m: Layout, m': Layout) {
    && (forall o :: o in m && m[o].kind == Used ==> o in m' && m'[o] == m[o])
    && (forall o :: o in m' && m'[o].kind == Used ==> o in m && m[o] == m'[o])
  }

  lemma SameUsedBytes(m: Layout, m': Layout)
    requires SameUsed(m, m')
    ensures UsedBytes(m') == UsedBytes(m)
  {
    assert forall o :: o in UsedKeys(m) ==> o in m && o in UsedKeys(m');
    assert forall o :: o in UsedKeys(m') ==> o in m' && o in UsedKeys(m);
    assert UsedKeys(m') == UsedKeys(m);
    SumAgree(m, m', UsedKeys(m));
  }

  /** A region that goes into use adds its extent to the bytes in use. */
  lemma MoreBytes(m: Layout, o: int)
    requires o in m && m[o].kind != Used
    ensures UsedBytes(m[o := m[o].(kind := Used)]) == UsedBytes(m) + m[o].extent
  {
    var m' := m[o := m[o].(kind := Used)];
    assert UsedKeys(m') == UsedKeys(m) + {o};
    SumRemove(m', UsedKeys(m'), o);
    assert UsedKeys(m') - {o} == UsedKeys(m);
    SumAgree(m, m', UsedKeys(m));
  }

  lemma FewerBytes(m: Layout, o: int, kind: Kind)
    requires o in m && m[o].kind == Used && kind != Used
    ensures UsedBytes(m[o := m[o].(kind := kind)]) == UsedBytes(m) - m[o].extent
  {
    var m' := m[o := m[o].(kind := kind)];
    MoreBytes(m', o);
    assert m'[o].(kind := Used) == m[o];
    assert m'[o := m[o]] == m;
  }

  /** Apart from free regions, the layouts are the same. */
  ghost predicate SameTaken(m: Layout, m': Layout) {
    && (forall o :: o in m && m[o].kind != Free ==> o in m' && m'[o] == m[o])
    && (forall o :: o in m' && m'[o].kind != Free ==> o in m && m[o] == m'[o])
  }

  lemma SameTakenTrans(m: Layout, m1: Layout, m2: Layout)
    requires SameTaken(m, m1) && SameTaken(m1, m2)
    ensures SameTaken(m, m2)
  {
  }

  lemma MergeSameTaken(m: Layout, o: int)
    requires o in m && o + m[o].extent in m && m[o].kind == Free && m[o + m[o].extent].kind == Free && 0 < m[o].extent
    ensures SameTaken(m, Merged(m, o))
  {
  }
}
