/**
 The table behind the region list (storage/pq/RegionList.h, RegionList.cpp): one
 array of region records.  A record is a sentinel, unused, free, held or in use; its
 `next` and `prev` fields name arena blocks while it is free, and neighbours in a
 hash chain while it is in use.
 */
module RegionTables {
  import opened SkipTheory
  import opened FreeBlocks
  import opened Layouts
  import S = SignatureIndexes

  const RL_NONE := -1
  const RL_FREE_OVERHEAD := 4
  const RL_FOFF_HD := 0
  const RL_FOFF_TL := 1
  const RL_FEXT_HD := 2
  const RL_FEXT_TL := 3
  const HUGE_OFF := 0x7fff_ffff_ffff_ffff
  const HUGE_EXT := 0xffff_ffff_ffff_fffe

  /** A region record; the lowest bit of `extent` is set while the region is in use. */
  datatype Region = Region(offset: int, extent: int, next: int, prev: int) {
    predicate IsAlloc() { extent % 2 == 1 }
    function GetExtent(): int { extent - extent % 2 }
    function SetAlloc(): Region { this.(extent := GetExtent() + 1) }
    function ClearAlloc(): Region { this.(extent := GetExtent()) }
  }

  ghost function Nexts(regs: seq<Region>): seq<int> {
    seq(|regs|, i requires 0 <= i < |regs| => regs[i].next)
  }

  /** The hash takes the low 32 bits of the offset. */
  function HashOffset(offset: int, nchains: nat): (h: nat)
    requires 0 < nchains
    ensures h < nchains
  {
    (offset % 0x1_0000_0000) % nchains
  }

  datatype Table = Table(regs: seq<Region>, chains: seq<int>, empty: int,
                         buckets: seq<seq<int>>, where: map<int, int>, empties: seq<int>, m: Layout, held: set<int>)

  ghost predicate Chained(t: Table, nchains: nat) {
    && |t.chains| == |t.buckets| == nchains > 0
    && (forall h :: 0 <= h < nchains ==>
         Chain(Nexts(t.regs), t.chains[h], t.buckets[h]) && Backed(t.regs, t.buckets[h]))
    && Once(t.buckets)
  }

  /** `prev` names the slot before in the chain. */
  ghost predicate Backed(regs: seq<Region>, l: seq<int>) {
    forall i :: 0 <= i < |l| ==> 0 <= l[i] < |regs| && regs[l[i]].prev == Before(l, i)
  }

  function Before(l: seq<int>, i: nat): int {
    if 0 < i <= |l| then l[i - 1] else RL_NONE
  }

  ghost predicate Placed(t: Table, nchains: nat) {
    && 0 < nchains == |t.buckets|
    && (forall h, i :: 0 <= h < nchains && 0 <= i < |t.buckets[h]| ==> Home(t, nchains, h, t.buckets[h][i]))
    && (forall o :: o in t.where ==> Away(t, nchains, o))
  }

  ghost predicate Home(t: Table, nchains: nat, h: nat, slot: int)
    requires 0 < nchains
  {
    0 <= slot < |t.regs| && HashOffset(t.regs[slot].offset, nchains) == h &&
    t.regs[slot].offset in t.where && t.where[t.regs[slot].offset] == slot
  }

  ghost predicate Away(t: Table, nchains: nat, o: int)
    requires 0 < nchains == |t.buckets| && o in t.where
  {
    t.where[o] in t.buckets[HashOffset(o, nchains)] && 0 <= t.where[o] < |t.regs| && t.regs[t.where[o]].offset == o
  }

  /** Unused records are chained through `next` and have no offset. */
  ghost predicate EmptyOk(t: Table) {
    && Chain(Nexts(t.regs), t.empty, t.empties) && S.Distinct(t.empties)
    && forall i :: 0 <= i < |t.empties| ==>
         RL_FREE_OVERHEAD <= t.empties[i] < |t.regs| && t.regs[t.empties[i]].offset == -1
  }

  /** Each region of the layout is recorded in its slot. */
  ghost predicate Filed(regs: seq<Region>, o: int, s: Span) {
    && RL_FREE_OVERHEAD <= s.slot < |regs| && regs[s.slot].offset == o
    && regs[s.slot].GetExtent() == s.extent && (regs[s.slot].IsAlloc() <==> s.kind == Used)
    && 0 < o < HUGE_OFF && 0 < s.extent < HUGE_EXT
  }

  ghost predicate MapOk(regs: seq<Region>, m: Layout) {
    forall o :: o in m ==> Filed(regs, o, m[o])
  }

  /** The hash holds the regions in use, and `held` the ones just taken. */
  ghost predicate Kinds(t: Table) {
    && (forall o :: o in t.where <==> o in t.m && t.m[o].kind == Used)
    && (forall o :: o in t.where && o in t.m ==> t.where[o] == t.m[o].slot)
    && (forall o :: o in t.held <==> o in t.m && t.m[o].kind == Held)
  }

  ghost predicate Sentinels(regs: seq<Region>) {
    && RL_FREE_OVERHEAD <= |regs|
    && regs[RL_FOFF_HD].offset == 0 && regs[RL_FOFF_TL].offset == HUGE_OFF
    && regs[RL_FEXT_HD].offset == 0 && regs[RL_FEXT_HD].GetExtent() == 0
    && regs[RL_FEXT_TL].offset == 0 && regs[RL_FEXT_TL].GetExtent() == HUGE_EXT
  }

  ghost predicate TableOk(t: Table, nchains: nat) {
    && Sentinels(t.regs) && 0 < nchains == |t.chains| == |t.buckets|
    && Chained(t, nchains) && Placed(t, nchains) && EmptyOk(t) && MapOk(t.regs, t.m) && Kinds(t)
  }

  ghost function FreeSlots(m: Layout): set<nat> {
    set o | o in m && m[o].kind == Free :: m[o].slot
  }

  /** A slot that is not in use is in no hash chain, and one with an offset is not unused. */
  lemma NotChained(t: Table, nchains: nat, o: int)
    requires TableOk(t, nchains) && o in t.m
    ensures Filed(t.regs, o, t.m[o])
    ensures t.m[o].slot !in t.empties
    ensures t.m[o].kind != Used ==> forall h :: 0 <= h < nchains ==> t.m[o].slot !in t.buckets[h]
  {
    hide Chained, HashOffset, Chain;
    assert Filed(t.regs, o, t.m[o]);
    var slot := t.m[o].slot;
    if t.m[o].kind != Used {
      forall h | 0 <= h < nchains ensures slot !in t.buckets[h] {
        forall i | 0 <= i < |t.buckets[h]| ensures t.buckets[h][i] != slot {
          assert Home(t, nchains, h, t.buckets[h][i]);
        }
      }
    }
  }

  /** No two regions share a slot. */
  lemma SlotsDiffer(regs: seq<Region>, m: Layout, o: int, p: int)
    requires MapOk(regs, m) && o in m && p in m && m[o].slot == m[p].slot
    ensures o == p
  {
    assert Filed(regs, o, m[o]) && Filed(regs, p, m[p]);
  }

  // ---------------------------------------------------------------------
  // Steps that leave the hash chains and the unused records alone
  // ---------------------------------------------------------------------

  /** `regs'` differs from `regs` in slot `x` only. */
  ghost predicate OnlyAt(regs: seq<Region>, regs': seq<Region>, x: int) {
    |regs'| == |regs| && forall i :: 0 <= i < |regs| && i != x ==> regs'[i] == regs[i]
  }

  /** Changing a slot outside every chain leaves the chains as they are. */
  lemma ChainsKept(t: Table, t': Table, nchains: nat, x: int)
    requires Chained(t, nchains) && t'.chains == t.chains && t'.buckets == t.buckets
    requires OnlyAt(t.regs, t'.regs, x) && 0 <= x < |t.regs|
    requires forall h :: 0 <= h < nchains ==> x !in t.buckets[h]
    ensures Chained(t', nchains)
  {
    hide Chain, Once;
    assert Nexts(t'.regs) == Nexts(t.regs)[x := t'.regs[x].next];
    forall h | 0 <= h < nchains ensures Chain(Nexts(t'.regs), t'.chains[h], t'.buckets[h])
        && Backed(t'.regs, t'.buckets[h]) {
      ChainKept(Nexts(t.regs), t.chains[h], t.buckets[h], x, t'.regs[x].next);
      var l := t.buckets[h];
      forall i | 0 <= i < |l| ensures 0 <= l[i] < |t'.regs| && t'.regs[l[i]].prev == Before(l, i) {
        assert l[i] in l;
      }
    }
  }

  lemma PlacedKept(t: Table, t': Table, nchains: nat, x: int)
    requires Placed(t, nchains) && t'.where == t.where && t'.buckets == t.buckets
    requires OnlyAt(t.regs, t'.regs, x) && 0 <= x < |t.regs|
    requires forall h :: 0 <= h < nchains ==> x !in t.buckets[h]
    ensures Placed(t', nchains)
  {
    hide HashOffset;
    forall h, i | 0 <= h < nchains && 0 <= i < |t'.buckets[h]| ensures Home(t', nchains, h, t'.buckets[h][i]) {
      assert Home(t, nchains, h, t.buckets[h][i]);
      assert t.buckets[h][i] in t.buckets[h];
    }
    forall o | o in t'.where ensures Away(t', nchains, o) {
      assert Away(t, nchains, o);
    }
  }

  lemma EmptyKept(t: Table, t': Table, x: int)
    requires EmptyOk(t) && t'.empty == t.empty && t'.empties == t.empties
    requires OnlyAt(t.regs, t'.regs, x) && 0 <= x < |t.regs| && x !in t.empties
    ensures EmptyOk(t')
  {
    hide Chain;
    assert Nexts(t'.regs) == Nexts(t.regs)[x := t'.regs[x].next];
    ChainKept(Nexts(t.regs), t.empty, t.empties, x, t'.regs[x].next);
    forall i | 0 <= i < |t.empties| ensures t'.regs[t.empties[i]] == t.regs[t.empties[i]] {
      assert t.empties[i] in t.empties;
    }
  }

  /**
   A free or held region's record changes (its links, its extent or its kind) together with the layout: the
   hash and the unused records are not affected.
   */
  lemma RecordChanged(t: Table, t': Table, nchains: nat, o: int)
    requires TableOk(t, nchains) && o in t.m && t.m[o].kind != Used
    requires t' == t.(regs := t'.regs, m := t'.m, held := t'.held) && OnlyAt(t.regs, t'.regs, t.m[o].slot)
    requires o in t'.m && t'.m == t.m[o := t'.m[o]] && t'.m[o].slot == t.m[o].slot && t'.m[o].kind != Used
    requires Filed(t'.regs, o, t'.m[o])
    requires t'.held == if t'.m[o].kind == Held then t.held + {o} else t.held - {o}
    ensures TableOk(t', nchains)
  {
    hide Chain, Once, HashOffset, Chained, Placed, EmptyOk;
    NotChained(t, nchains, o);
    var x := t.m[o].slot;
    ChainsKept(t, t', nchains, x);
    PlacedKept(t, t', nchains, x);
    EmptyKept(t, t', x);
    forall p | p in t'.m ensures Filed(t'.regs, p, t'.m[p]) {
      if p != o {
        assert Filed(t.regs, p, t.m[p]) && Filed(t.regs, o, t.m[o]);
      }
    }
  }

  // ---------------------------------------------------------------------
  // Taking and returning unused records
  // ---------------------------------------------------------------------

  /** The first unused record becomes the region at `o`, held for now. */
  function Taken(t: Table, o: int, extent: int): Table
    requires |t.empties| > 0 && 0 <= t.empties[0] < |t.regs|
  {
    var x := t.empties[0];
    t.(regs := t.regs[x := t.regs[x].(offset := o, extent := extent)], empty := t.regs[x].next,
       empties := t.empties[1..],
       m := t.m[o := Span(x, extent, Held)], held := t.held + {o})
  }

  lemma EmptyFacts(t: Table, nchains: nat, i: nat)
    requires TableOk(t, nchains) && i < |t.empties|
    ensures RL_FREE_OVERHEAD <= t.empties[i] < |t.regs|
    ensures forall h :: 0 <= h < nchains ==> t.empties[i] !in t.buckets[h]
    ensures forall o :: o in t.m ==> t.m[o].slot != t.empties[i]
    ensures t.empty == t.empties[0]
  {
    hide Chained, HashOffset;
    var x := t.empties[i];
    forall h | 0 <= h < nchains ensures x !in t.buckets[h] {
      forall j | 0 <= j < |t.buckets[h]| ensures t.buckets[h][j] != x {
        assert Home(t, nchains, h, t.buckets[h][j]);
        assert t.regs[t.buckets[h][j]].offset in t.m;
        assert Filed(t.regs, t.regs[t.buckets[h][j]].offset, t.m[t.regs[t.buckets[h][j]].offset]);
      }
    }
    forall o | o in t.m ensures t.m[o].slot != x {
      assert Filed(t.regs, o, t.m[o]);
    }
  }

  lemma TakenOk(t: Table, nchains: nat, o: int, extent: int)
    requires TableOk(t, nchains) && |t.empties| > 0 && o !in t.m
    requires 0 < o < HUGE_OFF && 0 < extent < HUGE_EXT && extent % 2 == 0
    ensures 0 <= t.empties[0] < |t.regs| && TableOk(Taken(t, o, extent), nchains)
  {
    hide Chain, Once, HashOffset, Chained, Placed;
    EmptyFacts(t, nchains, 0);
    var t', x := Taken(t, o, extent), t.empties[0];
    ChainsKept(t, t', nchains, x);
    PlacedKept(t, t', nchains, x);
    TakenEmpties(t, o, extent);
    forall p | p in t'.m ensures Filed(t'.regs, p, t'.m[p]) {
      if p != o { assert Filed(t.regs, p, t.m[p]); }
    }
  }

  lemma TakenEmpties(t: Table, o: int, extent: int)
    requires EmptyOk(t) && |t.empties| > 0 && 0 <= t.empties[0] < |t.regs|
    ensures EmptyOk(Taken(t, o, extent))
  {
    hide Chain;
    var t', x := Taken(t, o, extent), t.empties[0];
    assert Nexts(t'.regs) == Nexts(t.regs);
    ChainPop(Nexts(t.regs), t.empty, t.empties);
  }

  /** The region at `o` is given up and its record becomes the first unused one. */
  function Returned(t: Table, o: int): Table
    requires o in t.m && t.m[o].slot < |t.regs|
  {
    var x := t.m[o].slot;
    t.(regs := t.regs[x := Region(-1, 0, t.empty, t.regs[x].prev)], empty := x, empties := [x] + t.empties,
       m := t.m - {o}, held := t.held - {o})
  }

  lemma ReturnedOk(t: Table, nchains: nat, o: int)
    requires TableOk(t, nchains) && o in t.m && t.m[o].kind != Used
    ensures t.m[o].slot < |t.regs| && TableOk(Returned(t, o), nchains)
  {
    hide Chain, Once, HashOffset, Chained, Placed;
    NotChained(t, nchains, o);
    var t', x := Returned(t, o), t.m[o].slot;
    ChainsKept(t, t', nchains, x);
    PlacedKept(t, t', nchains, x);
    ReturnedEmpties(t, o);
    forall p | p in t'.m ensures Filed(t'.regs, p, t'.m[p]) {
      assert Filed(t.regs, p, t.m[p]) && Filed(t.regs, o, t.m[o]);
    }
  }

  lemma ReturnedEmpties(t: Table, o: int)
    requires EmptyOk(t) && o in t.m && RL_FREE_OVERHEAD <= t.m[o].slot < |t.regs| && t.m[o].slot !in t.empties
    ensures EmptyOk(Returned(t, o))
  {
    hide Chain;
    var t', x := Returned(t, o), t.m[o].slot;
    assert Nexts(t'.regs) == Nexts(t.regs)[x := t.empty];
    ChainPush(Nexts(t.regs), t.empty, t.empties, x);
    forall i | 0 <= i < |t'.empties| ensures t'.regs[t'.empties[i]].offset == -1
        && RL_FREE_OVERHEAD <= t'.empties[i] < |t.regs| {
      if i > 0 { assert t'.empties[i] == t.empties[i - 1] && t.empties[i - 1] in t.empties; }
    }
  }

  // ---------------------------------------------------------------------
  // Entering and leaving the hash
  // ---------------------------------------------------------------------

  /** Let the first region of a chain know its new predecessor. */
  function Prefixed(regs: seq<Region>, hd: int, x: int): seq<Region> {
    if 0 <= hd < |regs| then regs[hd := regs[hd].(prev := x)] else regs
  }

  /** A held region goes into use, as the first of its chain. */
  function Hashed(t: Table, nchains: nat, o: int): Table
    requires 0 < nchains == |t.chains| == |t.buckets| && o in t.m && t.m[o].slot < |t.regs|
  {
    var h, x := HashOffset(o, nchains), t.m[o].slot;
    var regs := Prefixed(t.regs, t.chains[h], x);
    t.(regs := regs[x := regs[x].SetAlloc().(next := t.chains[h], prev := RL_NONE)], chains := t.chains[h := x],
       buckets := t.buckets[h := [x] + t.buckets[h]], where := t.where[o := x],
       m := t.m[o := t.m[o].(kind := Used)], held := t.held - {o})
  }

  lemma BackedPush(regs: seq<Region>, regs': seq<Region>, hd: int, l: seq<int>, x: int)
    requires Backed(regs, l) && 0 <= x < |regs| == |regs'| && x !in l && S.Distinct(l)
    requires hd == (if l == [] then RL_NONE else l[0])
    requires regs'[x].prev == RL_NONE
    requires forall i :: 0 <= i < |regs| && i != x ==> regs'[i].prev == if i == hd then x else regs[i].prev
    ensures Backed(regs', [x] + l)
  {
    var k := [x] + l;
    forall i | 0 <= i < |k| ensures 0 <= k[i] < |regs'| && regs'[k[i]].prev == Before(k, i) {
      if i > 0 { assert k[i] == l[i - 1] && l[i - 1] in l; }
    }
  }

  /** In what way a region's record in `regs'` differs from the one in `regs` when a chain is relinked around it. */
  ghost predicate SameButLinks(regs: seq<Region>, regs': seq<Region>) {
    |regs'| == |regs| && forall i :: 0 <= i < |regs| ==>
        regs'[i].offset == regs[i].offset && regs'[i].GetExtent() == regs[i].GetExtent()
  }

  lemma BucketFacts(t: Table, nchains: nat, h: nat)
    requires TableOk(t, nchains) && h < nchains
    ensures S.Distinct(t.buckets[h]) && Chain(Nexts(t.regs), t.chains[h], t.buckets[h]) && Backed(t.regs, t.buckets[h])
    ensures t.chains[h] == if t.buckets[h] == [] then RL_NONE else t.buckets[h][0]
    ensures forall j :: 0 <= j < |t.buckets[h]| ==> 0 <= t.buckets[h][j] < |t.regs|
    ensures forall g, j :: 0 <= g < nchains && g != h && 0 <= j < |t.buckets[h]| ==> t.buckets[h][j] !in t.buckets[g]
    ensures forall j :: 0 <= j < |t.buckets[h]| ==> t.buckets[h][j] !in t.empties
  {
    hide HashOffset;
    var b := t.buckets;
    forall g, j | 0 <= g < nchains && g != h && 0 <= j < |b[h]| ensures b[h][j] !in b[g] {
      forall i | 0 <= i < |b[g]| ensures b[g][i] != b[h][j] {
      }
    }
    forall j | 0 <= j < |b[h]| ensures b[h][j] !in t.empties {
      assert Home(t, nchains, h, b[h][j]);
      var o := t.regs[b[h][j]].offset;
      assert Filed(t.regs, o, t.m[o]);
    }
  }

  lemma HashedChains(t: Table, nchains: nat, o: int)
    requires TableOk(t, nchains) && o in t.m && t.m[o].kind == Held && t.m[o].slot < |t.regs|
    ensures Chained(Hashed(t, nchains, o), nchains)
  {
    hide Chain, Placed, EmptyOk, HashOffset, Once, Backed, MapOk;
    var t', h, x := Hashed(t, nchains, o), HashOffset(o, nchains), t.m[o].slot;
    NotChained(t, nchains, o);
    BucketFacts(t, nchains, h);
    var w := Nexts(t.regs);
    assert Nexts(t'.regs) == w[x := t.chains[h]];
    forall g | 0 <= g < nchains ensures Chain(Nexts(t'.regs), t'.chains[g], t'.buckets[g])
        && Backed(t'.regs, t'.buckets[g]) {
      if g == h {
        ChainPush(w, t.chains[h], t.buckets[h], x);
        BackedPush(t.regs, t'.regs, t.chains[h], t.buckets[h], x);
      } else {
        ChainKept(w, t.chains[g], t.buckets[g], x, t.chains[h]);
        BackedElsewhere(t.regs, t'.regs, t.buckets[g], {x, t.chains[h]});
      }
    }
    HashedOnce(t, nchains, h, x);
  }

  lemma BackedElsewhere(regs: seq<Region>, regs': seq<Region>, l: seq<int>, xs: set<int>)
    requires Backed(regs, l) && |regs'| == |regs| && forall i :: i in xs ==> i !in l
    requires forall i :: 0 <= i < |regs| && i !in xs ==> regs'[i].prev == regs[i].prev
    ensures Backed(regs', l)
  {
    forall i | 0 <= i < |l| ensures 0 <= l[i] < |regs'| && regs'[l[i]].prev == Before(l, i) {
      assert l[i] in l;
    }
  }

  lemma HashedOnce(t: Table, nchains: nat, h: nat, x: int)
    requires Chained(t, nchains) && h < nchains && forall g :: 0 <= g < nchains ==> x !in t.buckets[g]
    ensures Once(t.buckets[h := [x] + t.buckets[h]])
  {
    hide Chain, Backed;
    var b, b' := t.buckets, t.buckets[h := [x] + t.buckets[h]];
    forall v, i, u, j | 0 <= v < |b'| && 0 <= i < |b'[v]| && 0 <= u < |b'| && 0 <= j < |b'[u]| && b'[v][i] == b'[u][j]
      ensures v == u && i == j
    {
      PushOnce(b, {x}, h, x, v, i, u, j);
    }
  }

  lemma HashedPlaced(t: Table, nchains: nat, o: int)
    requires TableOk(t, nchains) && o in t.m && t.m[o].kind == Held && t.m[o].slot < |t.regs|
    ensures Placed(Hashed(t, nchains, o), nchains)
  {
    hide Chained, EmptyOk, HashOffset;
    var t', h, x := Hashed(t, nchains, o), HashOffset(o, nchains), t.m[o].slot;
    NotChained(t, nchains, o);
    assert forall i :: 0 <= i < |t.regs| ==> t'.regs[i].offset == t.regs[i].offset;
    forall g, i | 0 <= g < nchains && 0 <= i < |t'.buckets[g]| ensures Home(t', nchains, g, t'.buckets[g][i]) {
      if !(g == h && i == 0) {
        var i0 := if g == h then i - 1 else i;
        assert t'.buckets[g][i] == t.buckets[g][i0];
        assert Home(t, nchains, g, t.buckets[g][i0]);
      }
    }
    forall p | p in t'.where ensures Away(t', nchains, p) {
      if p == o {
        assert t'.buckets[h][0] == x;
      } else {
        assert Away(t, nchains, p);
        var g := HashOffset(p, nchains);
        var i :| 0 <= i < |t.buckets[g]| && t.buckets[g][i] == t.where[p];
        assert t'.buckets[g][if g == h then i + 1 else i] == t.where[p];
      }
    }
  }

  lemma HashedRest(t: Table, nchains: nat, o: int)
    requires TableOk(t, nchains) && o in t.m && t.m[o].kind == Held && t.m[o].slot < |t.regs|
    ensures var t' := Hashed(t, nchains, o); Sentinels(t'.regs) && EmptyOk(t') && MapOk(t'.regs, t'.m) && Kinds(t')
  {
    hide Chained, Placed, HashOffset, Chain;
    var t', h, x := Hashed(t, nchains, o), HashOffset(o, nchains), t.m[o].slot;
    NotChained(t, nchains, o);
    assert SameButLinks(t.regs, t'.regs);
    assert Nexts(t'.regs) == Nexts(t.regs)[x := t.chains[h]];
    ChainKept(Nexts(t.regs), t.empty, t.empties, x, t.chains[h]);
    forall p | p in t'.m ensures Filed(t'.regs, p, t'.m[p]) {
      assert Filed(t.regs, p, t.m[p]);
    }
  }

  lemma HashedOk(t: Table, nchains: nat, o: int)
    requires TableOk(t, nchains) && o in t.m && t.m[o].kind == Held
    ensures t.m[o].slot < |t.regs| && TableOk(Hashed(t, nchains, o), nchains)
  {
    hide Chained, Placed, HashOffset, EmptyOk, MapOk, Kinds, Sentinels;
    NotChained(t, nchains, o);
    HashedChains(t, nchains, o);
    HashedPlaced(t, nchains, o);
    HashedRest(t, nchains, o);
  }

  /** Relink a chain around its element `x`: its neighbours take each other, or the head takes its successor. */
  function Relinked(regs: seq<Region>, x: nat): seq<Region>
    requires x < |regs|
  {
    var p, n := regs[x].prev, regs[x].next;
    var r := if 0 <= p < |regs| then regs[p := regs[p].(next := n)] else regs;
    if 0 <= n < |regs| then r[n := r[n].(prev := p)] else r
  }

  /** A region in use leaves the hash and is held. */
  function Unhashed(t: Table, nchains: nat, o: int, i: nat): Table
    requires 0 < nchains == |t.chains| == |t.buckets| && o in t.m && t.m[o].slot < |t.regs|
    requires i < |t.buckets[HashOffset(o, nchains)]|
  {
    var h, x := HashOffset(o, nchains), t.m[o].slot;
    var regs := Relinked(t.regs, x);
    t.(regs := regs[x := regs[x].ClearAlloc()], chains := if i == 0 then t.chains[h := t.regs[x].next] else t.chains,
       buckets := t.buckets[h := RemoveAt(t.buckets[h], i)], where := t.where - {o},
       m := t.m[o := t.m[o].(kind := Held)], held := t.held + {o})
  }

  /** Where in its chain a region in use is. */
  lemma ChainPlace(t: Table, nchains: nat, o: int) returns (i: nat)
    requires TableOk(t, nchains) && o in t.m && t.m[o].kind == Used
    ensures t.m[o].slot < |t.regs|
    ensures var h, x := HashOffset(o, nchains), t.m[o].slot;
            && i < |t.buckets[h]| && t.buckets[h][i] == x && t.regs[x].offset == o
            && t.regs[x].prev == Before(t.buckets[h], i) && t.regs[x].next == After(t.buckets[h], i)
  {
    hide HashOffset, EmptyOk, Once;
    assert Away(t, nchains, o) && Filed(t.regs, o, t.m[o]);
    var h := HashOffset(o, nchains);
    i :| 0 <= i < |t.buckets[h]| && t.buckets[h][i] == t.where[o];
    assert Chain(Nexts(t.regs), t.chains[h], t.buckets[h]);
    assert Nexts(t.regs)[t.buckets[h][i]] == After(t.buckets[h], i);
  }

  lemma UnhashedLinks(regs: seq<Region>, l: seq<int>, i: nat)
    requires i < |l| && S.Distinct(l) && forall j :: 0 <= j < |l| ==> 0 <= l[j] < |regs|
    requires regs[l[i]].prev == Before(l, i) && regs[l[i]].next == After(l, i)
    ensures var regs' := Relinked(regs, l[i]);
            && |regs'| == |regs|
            && Nexts(regs') == (if i == 0 then Nexts(regs) else Nexts(regs)[l[i - 1] := Nexts(regs)[l[i]]])
            && (forall j :: 0 <= j < |regs| ==>
                 regs'[j].prev == if j == After(l, i) then Before(l, i) else regs[j].prev)
            && (forall j :: 0 <= j < |regs| ==> regs'[j].offset == regs[j].offset && regs'[j].extent == regs[j].extent)
  {
  }

  lemma BackedDrop(regs: seq<Region>, regs': seq<Region>, l: seq<int>, i: nat)
    requires Backed(regs, l) && i < |l| && S.Distinct(l) && |regs'| == |regs|
    requires forall j :: 0 <= j < |regs| && j != l[i] ==>
               regs'[j].prev == if j == After(l, i) then Before(l, i) else regs[j].prev
    ensures Backed(regs', RemoveAt(l, i))
  {
    var k := RemoveAt(l, i);
    forall j | 0 <= j < |k| ensures 0 <= k[j] < |regs'| && regs'[k[j]].prev == Before(k, j) {
      var j0 := if j < i then j else j + 1;
      assert k[j] == l[j0] && l[j0] != l[i];
      assert After(l, i) == l[j0] <==> j0 == i + 1;
    }
  }

  lemma UnhashedChains(t: Table, nchains: nat, o: int, i: nat)
    requires TableOk(t, nchains) && o in t.m && t.m[o].slot < |t.regs|
    requires var h, x := HashOffset(o, nchains), t.m[o].slot;
             && i < |t.buckets[h]| && t.buckets[h][i] == x
             && t.regs[x].prev == Before(t.buckets[h], i) && t.regs[x].next == After(t.buckets[h], i)
    ensures Chained(Unhashed(t, nchains, o, i), nchains)
  {
    hide Chain, Placed, EmptyOk, HashOffset, Once, Backed, MapOk, Kinds, Sentinels;
    var t', h, x := Unhashed(t, nchains, o, i), HashOffset(o, nchains), t.m[o].slot;
    BucketFacts(t, nchains, h);
    var w, l := Nexts(t.regs), t.buckets[h];
    UnhashedLinks(t.regs, l, i);
    assert Nexts(t'.regs) == Nexts(Relinked(t.regs, x));
    forall g | 0 <= g < nchains ensures Chain(Nexts(t'.regs), t'.chains[g], t'.buckets[g])
        && Backed(t'.regs, t'.buckets[g]) {
      if g == h {
        UnhashedBucket(w, t.chains[h], l, i);
        BackedDrop(t.regs, t'.regs, l, i);
      } else {
        if i > 0 { ChainKept(w, t.chains[g], t.buckets[g], l[i - 1], w[l[i]]); }
        assert After(l, i) !in t.buckets[g] by { NoneNotIn(t, nchains, g); }
        BackedElsewhere(t.regs, t'.regs, t.buckets[g], {After(l, i)});
      }
    }
    UnhashedOnce(t.buckets, h, i);
  }

  lemma NoneNotIn(t: Table, nchains: nat, g: nat)
    requires TableOk(t, nchains) && g < nchains
    ensures RL_NONE !in t.buckets[g]
  {
    hide Once, Placed, EmptyOk, MapOk;
  }

  lemma UnhashedBucket(w: seq<int>, hd: int, l: seq<int>, i: nat)
    requires Chain(w, hd, l) && S.Distinct(l) && i < |l| && forall j :: 0 <= j < |l| ==> 0 <= l[j] < |w|
    ensures var w1 := if i == 0 then w else w[l[i - 1] := w[l[i]]];
            Chain(w1, if i == 0 then w[l[0]] else hd, RemoveAt(l, i))
  {
    hide Chain;
    if i == 0 {
      ChainPop(w, hd, l);
      assert RemoveAt(l, 0) == l[1..];
    } else {
      S.ChainBypass(w, hd, l, i);
    }
  }

  lemma UnhashedOnce(b: seq<seq<int>>, h: nat, i: nat)
    requires Once(b) && h < |b| && i < |b[h]|
    ensures Once(b[h := RemoveAt(b[h], i)])
  {
    var b' := b[h := RemoveAt(b[h], i)];
    forall v, k, u, j | 0 <= v < |b'| && 0 <= k < |b'[v]| && 0 <= u < |b'| && 0 <= j < |b'[u]| && b'[v][k] == b'[u][j]
      ensures v == u && k == j
    {
      assert b'[v][k] == b[v][if v == h && k >= i then k + 1 else k];
      assert b'[u][j] == b[u][if u == h && j >= i then j + 1 else j];
    }
  }

  lemma UnhashedHome(t: Table, nchains: nat, o: int, i: nat, g: nat, j: nat)
    requires TableOk(t, nchains) && o in t.m && t.m[o].slot < |t.regs|
    requires var h, x := HashOffset(o, nchains), t.m[o].slot;
             i < |t.buckets[h]| && t.buckets[h][i] == x && t.regs[x].offset == o
    requires g < nchains && j < |Unhashed(t, nchains, o, i).buckets[g]|
    ensures Home(Unhashed(t, nchains, o, i), nchains, g, Unhashed(t, nchains, o, i).buckets[g][j])
  {
    hide HashOffset, Chain, Backed, EmptyOk, MapOk, Once;
    var t', h, x := Unhashed(t, nchains, o, i), HashOffset(o, nchains), t.m[o].slot;
    assert forall i :: 0 <= i < |t.regs| ==> t'.regs[i].offset == t.regs[i].offset;
    var j0 := if g == h && j >= i then j + 1 else j;
    assert t'.buckets[g][j] == t.buckets[g][j0];
    assert Home(t, nchains, g, t.buckets[g][j0]) && Home(t, nchains, h, x);
    S.OnceAt(t.buckets, g, j0, h, i);
  }

  lemma UnhashedAway(t: Table, nchains: nat, o: int, i: nat, p: int)
    requires TableOk(t, nchains) && o in t.m && t.m[o].slot < |t.regs|
    requires var h, x := HashOffset(o, nchains), t.m[o].slot;
             i < |t.buckets[h]| && t.buckets[h][i] == x && t.regs[x].offset == o
    requires p in t.where && p != o
    ensures Away(Unhashed(t, nchains, o, i), nchains, p)
  {
    hide HashOffset, Chained, EmptyOk, MapOk;
    var t', h, x := Unhashed(t, nchains, o, i), HashOffset(o, nchains), t.m[o].slot;
    assert forall i :: 0 <= i < |t.regs| ==> t'.regs[i].offset == t.regs[i].offset;
    assert Away(t, nchains, p);
    var g := HashOffset(p, nchains);
    var j :| 0 <= j < |t.buckets[g]| && t.buckets[g][j] == t.where[p];
    assert t.buckets[g][j] != x;
    assert t'.buckets[g][if g == h && j > i then j - 1 else j] == t.where[p];
  }

  lemma UnhashedEmpty(t: Table, nchains: nat, o: int, i: nat)
    requires TableOk(t, nchains) && o in t.m && t.m[o].kind == Used && t.m[o].slot < |t.regs|
    requires var h, x := HashOffset(o, nchains), t.m[o].slot;
             && i < |t.buckets[h]| && t.buckets[h][i] == x
             && t.regs[x].prev == Before(t.buckets[h], i) && t.regs[x].next == After(t.buckets[h], i)
    ensures var t' := Unhashed(t, nchains, o, i); Sentinels(t'.regs) && EmptyOk(t')
  {
    hide Chained, Placed, HashOffset, EmptyOk, MapOk, Kinds, Sentinels, Relinked, Before, After, S.Distinct, Backed;
    var h, x := HashOffset(o, nchains), t.m[o].slot;
    var l := t.buckets[h];
    BucketFacts(t, nchains, h);
    UnhashedLinks(t.regs, l, i);
    var regs := Relinked(t.regs, x);
    SentinelsKept(t.regs, regs, x);
    UnusedKept(t, Unhashed(t, nchains, o, i), regs, x, if i == 0 then RL_NONE else l[i - 1], Nexts(t.regs)[x]);
  }

  lemma SentinelsKept(regs: seq<Region>, regs': seq<Region>, x: nat)
    requires Sentinels(regs) && |regs'| == |regs| && x < |regs|
    requires forall j :: 0 <= j < |regs| ==> regs'[j].offset == regs[j].offset && regs'[j].extent == regs[j].extent
    ensures Sentinels(regs'[x := regs'[x].ClearAlloc()])
  {
    var r := regs'[x := regs'[x].ClearAlloc()];
    assert r[RL_FEXT_HD].GetExtent() == regs[RL_FEXT_HD].GetExtent();
    assert r[RL_FEXT_TL].GetExtent() == regs[RL_FEXT_TL].GetExtent();
  }

  /** The unused records do not mind a change of `next` in a record outside their chain. */
  lemma UnusedKept(t: Table, t': Table, regs: seq<Region>, x: nat, b: int, n: int)
    requires EmptyOk(t) && x < |t.regs| == |regs| && t'.empty == t.empty && t'.empties == t.empties
    requires t'.regs == regs[x := regs[x].ClearAlloc()]
             && (forall j :: 0 <= j < |regs| ==> regs[j].offset == t.regs[j].offset)
    requires b != RL_NONE ==> 0 <= b < |regs| && b !in t.empties
    requires Nexts(regs) == if b == RL_NONE then Nexts(t.regs) else Nexts(t.regs)[b := n]
    ensures EmptyOk(t')
  {
    hide Chain, S.Distinct;
    assert Nexts(t'.regs) == Nexts(regs);
    if b != RL_NONE { ChainKept(Nexts(t.regs), t.empty, t.empties, b, n); }
  }

  lemma ClearedMap(regs: seq<Region>, regs': seq<Region>, m: Layout, o: int)
    requires MapOk(regs, m) && o in m && m[o].kind == Used && |regs'| == |regs| && m[o].slot < |regs|
    requires forall j :: 0 <= j < |regs| ==> regs'[j].offset == regs[j].offset && regs'[j].extent == regs[j].extent
    ensures MapOk(regs'[m[o].slot := regs'[m[o].slot].ClearAlloc()], m[o := m[o].(kind := Held)])
  {
    var x := m[o].slot;
    var r := regs'[x].ClearAlloc();
    assert Filed(regs, o, m[o]);
    forall p | p in m && p != o ensures Filed(regs'[x := r], p, m[p]) {
      assert Filed(regs, p, m[p]);
      assert regs'[m[p].slot].offset == p;
    }
  }

  lemma UnhashedMap(t: Table, nchains: nat, o: int, i: nat)
    requires TableOk(t, nchains) && o in t.m && t.m[o].kind == Used && t.m[o].slot < |t.regs|
    requires var h, x := HashOffset(o, nchains), t.m[o].slot;
             && i < |t.buckets[h]| && t.buckets[h][i] == x
             && t.regs[x].prev == Before(t.buckets[h], i) && t.regs[x].next == After(t.buckets[h], i)
    ensures var t' := Unhashed(t, nchains, o, i); MapOk(t'.regs, t'.m)
  {
    hide Chained, Placed, HashOffset, Chain, EmptyOk, Sentinels, Kinds, MapOk;
    var h := HashOffset(o, nchains);
    BucketFacts(t, nchains, h);
    UnhashedLinks(t.regs, t.buckets[h], i);
    ClearedMap(t.regs, Relinked(t.regs, t.m[o].slot), t.m, o);
  }

  lemma UnhashedKinds(t: Table, nchains: nat, o: int, i: nat)
    requires TableOk(t, nchains) && o in t.m && t.m[o].kind == Used && t.m[o].slot < |t.regs|
    requires var h, x := HashOffset(o, nchains), t.m[o].slot;
             && i < |t.buckets[h]| && t.buckets[h][i] == x
             && t.regs[x].prev == Before(t.buckets[h], i) && t.regs[x].next == After(t.buckets[h], i)
    ensures Kinds(Unhashed(t, nchains, o, i))
  {
    hide Chained, Placed, HashOffset, Chain, EmptyOk, Sentinels, MapOk, Relinked, Before, After;
  }

  lemma UnhashedOk(t: Table, nchains: nat, o: int, i: nat)
    requires TableOk(t, nchains) && o in t.m && t.m[o].kind == Used && t.m[o].slot < |t.regs|
    requires var h, x := HashOffset(o, nchains), t.m[o].slot;
             && i < |t.buckets[h]| && t.buckets[h][i] == x && t.regs[x].offset == o
             && t.regs[x].prev == Before(t.buckets[h], i) && t.regs[x].next == After(t.buckets[h], i)
    ensures TableOk(Unhashed(t, nchains, o, i), nchains)
  {
    hide Chained, HashOffset, EmptyOk, MapOk, Kinds, Sentinels, Home, Away;
    var t' := Unhashed(t, nchains, o, i);
    UnhashedChains(t, nchains, o, i);
    UnhashedEmpty(t, nchains, o, i);
    UnhashedMap(t, nchains, o, i);
    UnhashedKinds(t, nchains, o, i);
    forall g, j | 0 <= g < nchains && 0 <= j < |t'.buckets[g]| ensures Home(t', nchains, g, t'.buckets[g][j]) {
      UnhashedHome(t, nchains, o, i, g, j);
    }
    forall p | p in t'.where ensures Away(t', nchains, p) {
      UnhashedAway(t, nchains, o, i, p);
    }
  }
}
