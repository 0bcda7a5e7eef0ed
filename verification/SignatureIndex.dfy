/**
 The signature index (storage/pq/SignatureIndex.cpp): a chained hash table from
 product signatures to offsets, whose elements are slots of one array and are
 chained, in buckets or on the list of unused ones, through their `next` fields.
 */
module SignatureIndexes {
  import opened SkipTheory
  import opened FreeBlocks

  const SX_NONE := -1
  const OFF_NONE := -1

  type Byte = b: int | 0 <= b < 256

  /** A 16-byte digest. */
  type Signature = s: seq<Byte> | |s| == 16 witness seq(16, _ => 0)

  datatype SigElement = SigElement(sxi: Signature, offset: int, next: int)

  ghost function Nexts(es: seq<SigElement>): seq<int> {
    seq(|es|, i requires 0 <= i < |es| => es[i].next)
  }

  /** The first four bytes, as an unsigned number, modulo the number of chains. */
  function Hash(sig: Signature, nchains: nat): (h: nat)
    requires 0 < nchains
    ensures h < nchains
  {
    (((((sig[0] * 256) + sig[1]) * 256 + sig[2]) * 256) + sig[3]) % nchains
  }

  /** `where` names the slot of each signature in the index. */
  datatype Sx = Sx(es: seq<SigElement>, chains: seq<int>, freeHead: int, nelems: int, nfree: int,
                   buckets: seq<seq<int>>, frees: seq<int>, where: map<Signature, int>)

  ghost predicate Distinct(l: seq<int>) {
    forall i, j :: 0 <= i < j < |l| ==> l[i] != l[j]
  }

  ghost predicate Chained(x: Sx, nchains: nat) {
    && |x.chains| == |x.buckets| == nchains > 0
    && (forall h :: 0 <= h < nchains ==> Chain(Nexts(x.es), x.chains[h], x.buckets[h]))
    && Chain(Nexts(x.es), x.freeHead, x.frees)
  }

  /** A slot is in at most one chain, once. */
  ghost predicate Parted(x: Sx) {
    && Once(x.buckets) && Distinct(x.frees)
    && forall h, i, j :: 0 <= h < |x.buckets| && 0 <= i < |x.buckets[h]| && 0 <= j < |x.frees| ==>
         x.buckets[h][i] != x.frees[j]
  }

  /** A bucket holds exactly the signatures of its hash, each in one slot. */
  ghost predicate Placed(x: Sx, nchains: nat) {
    && 0 < nchains == |x.buckets|
    && (forall h, i :: 0 <= h < nchains && 0 <= i < |x.buckets[h]| ==> Home(x, nchains, h, x.buckets[h][i]))
    && (forall sig :: sig in x.where ==> Away(x, nchains, sig))
  }

  ghost predicate Home(x: Sx, nchains: nat, h: nat, slot: int)
    requires 0 < nchains
  {
    0 <= slot < |x.es| && Hash(x.es[slot].sxi, nchains) == h &&
    x.es[slot].sxi in x.where && x.where[x.es[slot].sxi] == slot
  }

  ghost predicate Away(x: Sx, nchains: nat, sig: Signature)
    requires 0 < nchains == |x.buckets| && sig in x.where
  {
    x.where[sig] in x.buckets[Hash(sig, nchains)] && 0 <= x.where[sig] < |x.es| && x.es[x.where[sig]].sxi == sig
  }

  ghost predicate SxOk(x: Sx, nalloc: nat, nchains: nat) {
    && |x.es| == nalloc && |x.chains| == |x.buckets| == nchains > 0
    && Chained(x, nchains) && Parted(x) && Placed(x, nchains)
    && x.nfree == |x.frees| && x.nelems == |x.where| && x.nfree + x.nelems == nalloc
  }

  /** The finite map that the table stands for. */
  ghost function AsMap(es: seq<SigElement>, where: map<Signature, int>): map<Signature, int> {
    map sig | sig in where && 0 <= where[sig] < |es| :: es[where[sig]].offset
  }

  // ---------------------------------------------------------------------
  // Chains
  // ---------------------------------------------------------------------

  lemma ChainAt(words: seq<int>, hd: int, l: seq<int>, i: nat)
    requires Chain(words, hd, l) && i < |l|
    ensures 0 <= l[i] < |words| && words[l[i]] == if i + 1 < |l| then l[i + 1] else SX_NONE
  {
    assert words[l[i]] == After(l, i);
  }

  /** Bypassing element `i > 0` of a chain takes it out. */
  lemma ChainBypass(words: seq<int>, hd: int, l: seq<int>, i: nat)
    requires Chain(words, hd, l) && Distinct(l) && 0 < i < |l|
    ensures 0 <= l[i - 1] < |words| && 0 <= l[i] < |words|
    ensures Chain(words[l[i - 1] := words[l[i]]], hd, RemoveAt(l, i))
  {
    var w, m := words[l[i - 1] := words[l[i]]], RemoveAt(l, i);
    ChainAt(words, hd, l, i);
    forall j {:trigger After(m, j)} | 0 <= j < |m| ensures w[m[j]] == After(m, j) {
      ChainAt(words, hd, l, if j < i then j else j + 1);
    }
  }

  lemma ChainElsewhere(words: seq<int>, hd: int, l: seq<int>, x: int, v: int)
    requires Chain(words, hd, l) && 0 <= x < |words| && x !in l
    ensures Chain(words[x := v], hd, l)
  {
    ChainKept(words, hd, l, x, v);
  }

  lemma InFrees(x: Sx, nalloc: nat, nchains: nat)
    requires SxOk(x, nalloc, nchains) && |x.frees| > 0
    ensures x.freeHead == x.frees[0] && 0 <= x.freeHead < nalloc
    ensures forall h :: 0 <= h < nchains ==> x.freeHead !in x.buckets[h]
    ensures x.freeHead !in x.frees[1..]
  {
    ChainAt(Nexts(x.es), x.freeHead, x.frees, 0);
  }

  // ---------------------------------------------------------------------
  // Insertion: the first unused slot becomes the first of its bucket
  // ---------------------------------------------------------------------

  function Added(x: Sx, nchains: nat, sig: Signature, offset: int): Sx
    requires 0 < nchains == |x.chains| == |x.buckets| && |x.frees| > 0 && 0 <= x.frees[0] < |x.es|
  {
    var h, slot := Hash(sig, nchains), x.frees[0];
    Sx(x.es[slot := SigElement(sig, offset, x.chains[h])], x.chains[h := slot], x.es[slot].next, x.nelems + 1,
       x.nfree - 1,
       x.buckets[h := [slot] + x.buckets[h]], x.frees[1..], x.where[sig := slot])
  }

  lemma AddedLinked(x: Sx, nalloc: nat, nchains: nat, sig: Signature, offset: int)
    requires SxOk(x, nalloc, nchains) && |x.frees| > 0 && 0 <= x.frees[0] < |x.es|
    ensures Chained(Added(x, nchains, sig, offset), nchains)
  {
    hide Parted, Placed, Chain;
    var x' := Added(x, nchains, sig, offset);
    var h, slot, w := Hash(sig, nchains), x.frees[0], Nexts(x.es);
    InFrees(x, nalloc, nchains);
    assert Nexts(x'.es) == w[slot := x.chains[h]];
    forall g | 0 <= g < nchains ensures Chain(Nexts(x'.es), x'.chains[g], x'.buckets[g]) {
      if g == h { ChainPush(w, x.chains[h], x.buckets[h], slot); }
          else { ChainElsewhere(w, x.chains[g], x.buckets[g], slot, x.chains[h]); }
    }
    ChainPop(w, x.freeHead, x.frees);
    ChainElsewhere(w, w[slot], x.frees[1..], slot, x.chains[h]);
  }

  lemma AddedParted(x: Sx, nalloc: nat, nchains: nat, sig: Signature, offset: int)
    requires SxOk(x, nalloc, nchains) && |x.frees| > 0 && 0 <= x.frees[0] < |x.es|
    ensures Parted(Added(x, nchains, sig, offset))
  {
    hide Chained, Placed, Chain;
    var x' := Added(x, nchains, sig, offset);
    var h, slot := Hash(sig, nchains), x.frees[0];
    InFrees(x, nalloc, nchains);
    var b, b' := x.buckets, x'.buckets;
    forall v, i, u, j | 0 <= v < |b'| && 0 <= i < |b'[v]| && 0 <= u < |b'| && 0 <= j < |b'[u]| && b'[v][i] == b'[u][j]
      ensures v == u && i == j
    {
      PushOnce(b, {slot}, h, slot, v, i, u, j);
    }
    forall g, i, j | 0 <= g < |b'| && 0 <= i < |b'[g]| && 0 <= j < |x'.frees| ensures b'[g][i] != x'.frees[j] {
      assert x'.frees[j] == x.frees[j + 1];
      if g == h && i > 0 { assert b'[g][i] == b[g][i - 1]; }
    }
  }

  lemma AddedPlaced(x: Sx, nalloc: nat, nchains: nat, sig: Signature, offset: int)
    requires SxOk(x, nalloc, nchains) && |x.frees| > 0 && 0 <= x.frees[0] < |x.es| && sig !in x.where
    ensures Placed(Added(x, nchains, sig, offset), nchains)
  {
    hide Chained, Parted, Chain;
    var x' := Added(x, nchains, sig, offset);
    var h, slot := Hash(sig, nchains), x.frees[0];
    InFrees(x, nalloc, nchains);
    forall g, i | 0 <= g < nchains && 0 <= i < |x'.buckets[g]| ensures Home(x', nchains, g, x'.buckets[g][i]) {
      if !(g == h && i == 0) {
        var i0 := if g == h then i - 1 else i;
        assert x'.buckets[g][i] == x.buckets[g][i0];
        assert Home(x, nchains, g, x.buckets[g][i0]);
        assert x.buckets[g][i0] in x.buckets[g];
      }
    }
    forall t | t in x'.where ensures Away(x', nchains, t) {
      if t == sig {
        assert x'.buckets[h][0] == slot;
      } else {
        assert Away(x, nchains, t);
        var g := Hash(t, nchains);
        var i :| 0 <= i < |x.buckets[g]| && x.buckets[g][i] == x.where[t];
        assert x'.buckets[g][if g == h then i + 1 else i] == x.where[t];
      }
    }
  }

  lemma AddedOk(x: Sx, nalloc: nat, nchains: nat, sig: Signature, offset: int)
    requires SxOk(x, nalloc, nchains) && |x.frees| > 0 && sig !in x.where
    ensures 0 <= x.frees[0] < |x.es|
    ensures SxOk(Added(x, nchains, sig, offset), nalloc, nchains)
    ensures var x' := Added(x, nchains, sig, offset); AsMap(x'.es, x'.where) == AsMap(x.es, x.where)[sig := offset]
  {
    hide Chained, Parted, Chain;
    InFrees(x, nalloc, nchains);
    AddedLinked(x, nalloc, nchains, sig, offset);
    AddedParted(x, nalloc, nchains, sig, offset);
    AddedPlaced(x, nalloc, nchains, sig, offset);
    AddedMap(x, nalloc, nchains, sig, offset);
  }

  lemma AddedMap(x: Sx, nalloc: nat, nchains: nat, sig: Signature, offset: int)
    requires SxOk(x, nalloc, nchains) && |x.frees| > 0 && 0 <= x.frees[0] < |x.es| && sig !in x.where
    ensures var x' := Added(x, nchains, sig, offset); AsMap(x'.es, x'.where) == AsMap(x.es, x.where)[sig := offset]
  {
    hide Chained, Parted, Chain, Hash;
    InFrees(x, nalloc, nchains);
    var x' := Added(x, nchains, sig, offset);
    forall t | t in x.where ensures 0 <= x.where[t] < |x.es| && x.where[t] != x.frees[0] && x'.where[t] == x.where[t] {
      assert Away(x, nchains, t);
    }
  }

  // ---------------------------------------------------------------------
  // Removal
  // ---------------------------------------------------------------------

  /** Take the slot at position `i` out of bucket `h`, as the first of the chain or by bypassing it. */
  function Bypassed(x: Sx, h: nat, i: nat): seq<SigElement>
    requires h < |x.buckets| && i < |x.buckets[h]|
    requires forall j :: 0 <= j < |x.buckets[h]| ==> 0 <= x.buckets[h][j] < |x.es|
  {
    var slot := x.buckets[h][i];
    if i == 0 then x.es else
      var prev := x.buckets[h][i - 1];
      x.es[prev := x.es[prev].(next := x.es[slot].next)]
  }

  function Dropped(x: Sx, h: nat, i: nat): Sx
    requires h < |x.buckets| && h < |x.chains| && i < |x.buckets[h]|
    requires forall j :: 0 <= j < |x.buckets[h]| ==> 0 <= x.buckets[h][j] < |x.es|
  {
    var slot, es := x.buckets[h][i], Bypassed(x, h, i);
    Sx(es[slot := es[slot].(offset := OFF_NONE, next := x.freeHead)],
       if i == 0 then x.chains[h := x.es[slot].next] else x.chains, slot, x.nelems - 1, x.nfree + 1,
       x.buckets[h := RemoveAt(x.buckets[h], i)], [slot] + x.frees, x.where - {x.es[slot].sxi})
  }

  lemma BucketBounds(x: Sx, nalloc: nat, nchains: nat, h: nat)
    requires SxOk(x, nalloc, nchains) && h < nchains
    ensures Distinct(x.buckets[h])
    ensures forall j :: 0 <= j < |x.buckets[h]| ==> 0 <= x.buckets[h][j] < |x.es|
    ensures forall j :: 0 <= j < |x.buckets[h]| ==> x.buckets[h][j] !in x.frees
    ensures forall g, j :: 0 <= g < nchains && g != h && 0 <= j < |x.buckets[h]| ==> x.buckets[h][j] !in x.buckets[g]
  {
    hide Placed;
    assert Chain(Nexts(x.es), x.chains[h], x.buckets[h]);
    var b := x.buckets;
    forall g, j | 0 <= g < nchains && g != h && 0 <= j < |b[h]| ensures b[h][j] !in b[g] {
      forall i | 0 <= i < |b[g]| ensures b[g][i] != b[h][j] {
      }
    }
  }

  lemma DroppedLinked(x: Sx, nalloc: nat, nchains: nat, h: nat, i: nat)
    requires SxOk(x, nalloc, nchains) && h < nchains && i < |x.buckets[h]|
    requires forall j :: 0 <= j < |x.buckets[h]| ==> 0 <= x.buckets[h][j] < |x.es|
    ensures Chained(Dropped(x, h, i), nchains)
  {
    hide Parted, Placed, Chain;
    BucketBounds(x, nalloc, nchains, h);
    var x' := Dropped(x, h, i);
    var slot, w := x.buckets[h][i], Nexts(x.es);
    var w1 := if i == 0 then w else w[x.buckets[h][i - 1] := w[slot]];
    assert Nexts(Bypassed(x, h, i)) == w1;
    assert Nexts(x'.es) == w1[slot := x.freeHead];
    forall g | 0 <= g < nchains ensures Chain(Nexts(x'.es), x'.chains[g], x'.buckets[g]) {
      if g == h {
        DropFromBucket(w, x.chains[h], x.buckets[h], i, x.freeHead);
      } else {
        OtherChain(w, x.chains[g], x.buckets[g], x.buckets[h], i, x.freeHead);
      }
    }
    if i > 0 { ChainElsewhere(w, x.freeHead, x.frees, x.buckets[h][i - 1], w[slot]); }
    ChainPush(w1, x.freeHead, x.frees, slot);
  }

  lemma DropFromBucket(w: seq<int>, hd: int, l: seq<int>, i: nat, v: int)
    requires Chain(w, hd, l) && Distinct(l) && i < |l| && forall j :: 0 <= j < |l| ==> 0 <= l[j] < |w|
    ensures var w1 := if i == 0 then w else w[l[i - 1] := w[l[i]]];
            Chain(w1[l[i] := v], if i == 0 then w[l[0]] else hd, RemoveAt(l, i))
  {
    hide Chain;
    assert l[i] !in RemoveAt(l, i);
    if i == 0 {
      ChainPop(w, hd, l);
      assert RemoveAt(l, 0) == l[1..];
      ChainElsewhere(w, w[l[0]], l[1..], l[0], v);
    } else {
      ChainBypass(w, hd, l, i);
      ChainElsewhere(w[l[i - 1] := w[l[i]]], hd, RemoveAt(l, i), l[i], v);
    }
  }

  lemma OtherChain(w: seq<int>, hd: int, m: seq<int>, l: seq<int>, i: nat, v: int)
    requires Chain(w, hd, m) && i < |l| && forall j :: 0 <= j < |l| ==> 0 <= l[j] < |w| && l[j] !in m
    ensures var w1 := if i == 0 then w else w[l[i - 1] := w[l[i]]]; Chain(w1[l[i] := v], hd, m)
  {
    hide Chain;
    if i > 0 { ChainElsewhere(w, hd, m, l[i - 1], w[l[i]]); }
    ChainElsewhere(if i == 0 then w else w[l[i - 1] := w[l[i]]], hd, m, l[i], v);
  }

  lemma DroppedParted(x: Sx, nalloc: nat, nchains: nat, h: nat, i: nat)
    requires SxOk(x, nalloc, nchains) && h < nchains && i < |x.buckets[h]|
    requires forall j :: 0 <= j < |x.buckets[h]| ==> 0 <= x.buckets[h][j] < |x.es|
    ensures Parted(Dropped(x, h, i))
  {
    hide Chained, Placed, Chain;
    var x' := Dropped(x, h, i);
    var b, b', slot := x.buckets, x'.buckets, x.buckets[h][i];
    forall g, j | 0 <= g < |b'| && 0 <= j < |b'[g]| ensures b'[g][j] == b[g][if g == h && j >= i then j + 1 else j] {
    }
    forall v, k, u, j | 0 <= v < |b'| && 0 <= k < |b'[v]| && 0 <= u < |b'| && 0 <= j < |b'[u]| && b'[v][k] == b'[u][j]
      ensures v == u && k == j
    {
      assert b[v][if v == h && k >= i then k + 1 else k] == b[u][if u == h && j >= i then j + 1 else j];
    }
    forall g, j, k | 0 <= g < |b'| && 0 <= j < |b'[g]| && 0 <= k < |x'.frees| ensures b'[g][j] != x'.frees[k] {
      assert b'[g][j] == b[g][if g == h && j >= i then j + 1 else j];
      if k > 0 { assert x'.frees[k] == x.frees[k - 1]; }
    }
    assert slot !in x.frees;
  }

  /** Removal does not touch any signature, nor the offset of any other slot. */
  lemma DroppedElements(x: Sx, h: nat, i: nat)
    requires h < |x.buckets| && h < |x.chains| && i < |x.buckets[h]|
    requires forall j :: 0 <= j < |x.buckets[h]| ==> 0 <= x.buckets[h][j] < |x.es|
    ensures var x' := Dropped(x, h, i);
            && |x'.es| == |x.es|
            && (forall t :: 0 <= t < |x.es| ==> x'.es[t].sxi == x.es[t].sxi)
            && (forall t :: 0 <= t < |x.es| && t != x.buckets[h][i] ==> x'.es[t].offset == x.es[t].offset)
  {
  }

  lemma SlotHome(x: Sx, nalloc: nat, nchains: nat, g: nat, j: nat)
    requires SxOk(x, nalloc, nchains) && g < nchains && j < |x.buckets[g]|
    ensures Home(x, nchains, g, x.buckets[g][j])
  {
    hide Chained, Chain, Hash, Parted;
  }

  lemma SigAway(x: Sx, nalloc: nat, nchains: nat, t: Signature)
    requires SxOk(x, nalloc, nchains) && t in x.where
    ensures Away(x, nchains, t)
  {
    hide Chained, Chain, Hash, Parted;
  }

  lemma OnceAt(b: seq<seq<int>>, v: nat, i: nat, u: nat, j: nat)
    requires Once(b) && v < |b| && i < |b[v]| && u < |b| && j < |b[u]| && (v != u || i != j)
    ensures b[v][i] != b[u][j]
  {
  }

  lemma DroppedHome(x: Sx, nalloc: nat, nchains: nat, h: nat, i: nat, g: nat, j: nat)
    requires SxOk(x, nalloc, nchains) && h < nchains && i < |x.buckets[h]|
    requires forall j :: 0 <= j < |x.buckets[h]| ==> 0 <= x.buckets[h][j] < |x.es|
    requires g < nchains && j < |Dropped(x, h, i).buckets[g]|
    ensures Home(Dropped(x, h, i), nchains, g, Dropped(x, h, i).buckets[g][j])
  {
    hide Chained, Chain, Hash, Placed, Once;
    DroppedElements(x, h, i);
    var j0 := if g == h && j >= i then j + 1 else j;
    assert Dropped(x, h, i).buckets[g][j] == x.buckets[g][j0];
    SlotHome(x, nalloc, nchains, g, j0);
    SlotHome(x, nalloc, nchains, h, i);
    OnceAt(x.buckets, g, j0, h, i);
  }

  lemma DroppedAway(x: Sx, nalloc: nat, nchains: nat, h: nat, i: nat, t: Signature)
    requires SxOk(x, nalloc, nchains) && h < nchains && i < |x.buckets[h]|
    requires forall j :: 0 <= j < |x.buckets[h]| ==> 0 <= x.buckets[h][j] < |x.es|
    requires t in Dropped(x, h, i).where
    ensures Away(Dropped(x, h, i), nchains, t)
    ensures 0 <= x.where[t] < |x.es| && x.where[t] != x.buckets[h][i]
  {
    hide Chained, Chain, Hash, Parted, Placed;
    DroppedElements(x, h, i);
    var b, b', slot := x.buckets, Dropped(x, h, i).buckets, x.buckets[h][i];
    SlotHome(x, nalloc, nchains, h, i);
    SigAway(x, nalloc, nchains, t);
    var g := Hash(t, nchains);
    var j :| 0 <= j < |b[g]| && b[g][j] == x.where[t];
    assert b'[g][if g == h && j > i then j - 1 else j] == x.where[t];
  }

  lemma DroppedPlaced(x: Sx, nalloc: nat, nchains: nat, h: nat, i: nat)
    requires SxOk(x, nalloc, nchains) && h < nchains && i < |x.buckets[h]|
    requires forall j :: 0 <= j < |x.buckets[h]| ==> 0 <= x.buckets[h][j] < |x.es|
    ensures Placed(Dropped(x, h, i), nchains)
  {
    hide Chained, Chain, Parted, Home, Away, Hash;
    var x' := Dropped(x, h, i);
    forall g, j | 0 <= g < nchains && 0 <= j < |x'.buckets[g]| ensures Home(x', nchains, g, x'.buckets[g][j]) {
      DroppedHome(x, nalloc, nchains, h, i, g, j);
    }
    forall t | t in x'.where ensures Away(x', nchains, t) {
      DroppedAway(x, nalloc, nchains, h, i, t);
    }
  }

  lemma DroppedOk(x: Sx, nalloc: nat, nchains: nat, h: nat, i: nat)
    requires SxOk(x, nalloc, nchains) && h < nchains && i < |x.buckets[h]|
    ensures forall j :: 0 <= j < |x.buckets[h]| ==> 0 <= x.buckets[h][j] < |x.es|
    ensures SxOk(Dropped(x, h, i), nalloc, nchains)
    ensures var x' := Dropped(x, h, i);
            AsMap(x'.es, x'.where) == AsMap(x.es, x.where) - {x.es[x.buckets[h][i]].sxi}
  {
    hide Chained, Parted, Chain, Placed, Hash, AsMap;
    BucketBounds(x, nalloc, nchains, h);
    DroppedLinked(x, nalloc, nchains, h, i);
    DroppedParted(x, nalloc, nchains, h, i);
    DroppedPlaced(x, nalloc, nchains, h, i);
    SlotHome(x, nalloc, nchains, h, i);
    DroppedMap(x, nalloc, nchains, h, i);
  }

  lemma DroppedMap(x: Sx, nalloc: nat, nchains: nat, h: nat, i: nat)
    requires SxOk(x, nalloc, nchains) && h < nchains && i < |x.buckets[h]|
    requires forall j :: 0 <= j < |x.buckets[h]| ==> 0 <= x.buckets[h][j] < |x.es|
    ensures var x' := Dropped(x, h, i);
            AsMap(x'.es, x'.where) == AsMap(x.es, x.where) - {x.es[x.buckets[h][i]].sxi}
  {
    hide Chained, Parted, Chain, Placed, Hash;
    var x' := Dropped(x, h, i);
    DroppedElements(x, h, i);
    forall t | t in x'.where ensures 0 <= x.where[t] < |x.es| && x.where[t] != x.buckets[h][i] {
      DroppedAway(x, nalloc, nchains, h, i, t);
    }
  }

  lemma EmptyIndexOk(es: seq<SigElement>, nchains: nat)
    requires 0 < |es| && 0 < nchains
    requires forall i :: 0 <= i < |es| ==> es[i].next == if i + 1 == |es| then SX_NONE else i + 1
    ensures SxOk(Sx(es, seq(nchains, _ => SX_NONE), 0, 0, |es|, seq(nchains, _ => []), seq(|es|, i => i), map[]), |es|,
                 nchains)
  {
    var l := seq(|es|, i => i);
    forall i {:trigger After(l, i)} | 0 <= i < |l| ensures Nexts(es)[l[i]] == After(l, i) {
    }
  }

  // ---------------------------------------------------------------------
  // The index
  // ---------------------------------------------------------------------

  class SignatureIndex {
    const nalloc: nat
    const nchains: nat
    const sxep: array<SigElement>
    const chains: array<int>
    var nelems: int
    var freeHead: int
    var nfree: int
    ghost var buckets: seq<seq<int>>
    ghost var frees: seq<int>
    ghost var where: map<Signature, int>

    ghost function View(): Sx
      reads this, sxep, chains
    {
      Sx(sxep[..], chains[..], freeHead, nelems, nfree, buckets, frees, where)
    }

    ghost predicate Valid()
      reads this, sxep, chains
    {
      SxOk(View(), nalloc, nchains)
    }

    /** The map from signatures to offsets that the table stands for. */
    ghost function Map(): map<Signature, int>
      reads this, sxep
    {
      AsMap(sxep[..], where)
    }

    constructor (n: nat, chainCount: nat)
      requires 0 < n && 0 < chainCount
      ensures Valid() && nalloc == n && fresh(sxep) && fresh(chains)
      ensures Map() == map[] && nelems == 0
    {
      nalloc, nchains := n, chainCount;
      chains := new int[chainCount](_ => SX_NONE);
      sxep := new SigElement[n](i => SigElement(seq(16, _ => 0), OFF_NONE, if i + 1 == n then SX_NONE else i + 1));
      nelems, freeHead, nfree := 0, 0, n;
      buckets, frees, where := seq(chainCount, _ => []), seq(n, i => i), map[];
      new;
      EmptyIndexOk(sxep[..], nchains);
      assert chains[..] == seq(nchains, _ => SX_NONE);
    }

    /** Follow the chain of the signature's hash. */
    method Find(sig: Signature) returns (slot: int)
      requires Valid()
      ensures slot != SX_NONE <==> sig in Map()
      ensures slot != SX_NONE ==> 0 <= slot < sxep.Length && sxep[slot].sxi == sig && Map()[sig] == sxep[slot].offset
      ensures sig in Map() <==> sig in where
    {
      hide Chained, Parted, Placed, Chain, Hash;
      ghost var i: nat;
      var prev;
      slot, prev, i := Walk(sig);
      if slot == SX_NONE { NotThere(View(), nalloc, nchains, sig); }
          else { ThereIs(View(), nalloc, nchains, Hash(sig, nchains), i); }
    }

    /** The slot of `sig` in its chain and the slot before it, both none if there is no such slot. */
    method Walk(sig: Signature) returns (slot: int, prev: int, ghost i: nat)
      requires Valid()
      ensures var b := buckets[Hash(sig, nchains)];
              && (slot == SX_NONE ==> forall j :: 0 <= j < |b| ==> 0 <= b[j] < sxep.Length && sxep[b[j]].sxi != sig)
              && (slot != SX_NONE ==>
                    && i < |b| && slot == b[i] && 0 <= slot < sxep.Length && sxep[slot].sxi == sig
                    && prev == if i == 0 then SX_NONE else b[i - 1])
    {
      hide Parted, Placed, Hash, Chain;
      var h := Hash(sig, nchains);
      ghost var b := buckets[h];
      BucketBounds(View(), nalloc, nchains, h);
      slot, prev, i := chains[h], SX_NONE, 0;
      ChainHead(Nexts(sxep[..]), slot, b);
      while slot != SX_NONE
        invariant 0 <= i <= |b| && slot == (if i < |b| then b[i] else SX_NONE)
        invariant prev == if i == 0 then SX_NONE else b[i - 1]
        invariant forall j :: 0 <= j < i ==> sxep[b[j]].sxi != sig
        decreases |b| - i
      {
        if sxep[slot].sxi == sig { return; }
        ChainAt(Nexts(sxep[..]), chains[h], b, i);
        prev, slot, i := slot, sxep[slot].next, i + 1;
      }
    }

    /** Enter a signature that is not there yet; fails exactly when no slot is left. */
    method Add(sig: Signature, offset: int) returns (ok: bool)
      requires Valid() && sig !in Map()
      modifies this`nelems, this`freeHead, this`nfree, this`buckets, this`frees, this`where, sxep, chains
      ensures Valid() && (ok <==> old(nelems) < nalloc)
      ensures Map() == if ok then old(Map())[sig := offset] else old(Map())
      ensures nelems == if ok then old(nelems) + 1 else old(nelems)
    {
      hide Chained, Parted, Placed, Chain, Hash;
      ghost var v := View();
      MapKeys(v, nalloc, nchains, sig);
      if nfree == 0 { return false; }
      AddedOk(v, nalloc, nchains, sig, offset);
      InFrees(v, nalloc, nchains);
      var sxix := freeHead;
      freeHead := sxep[sxix].next;
      nfree := nfree - 1;
      var h := Hash(sig, nchains);
      var next := chains[h];
      sxep[sxix] := SigElement(sig, offset, next);
      chains[h] := sxix;
      nelems := nelems + 1;
      buckets := buckets[h := [sxix] + buckets[h]];
      frees := frees[1..];
      where := where[sig := sxix];
      assert View() == Added(v, nchains, sig, offset);
      return true;
    }

    /** Take a signature out; answers whether it was there. */
    method Remove(sig: Signature) returns (ok: bool)
      requires Valid()
      modifies this`nelems, this`freeHead, this`nfree, this`buckets, this`frees, this`where, sxep, chains
      ensures Valid() && (ok <==> sig in old(Map()))
      ensures Map() == old(Map()) - {sig}
      ensures nelems == if ok then old(nelems) - 1 else old(nelems)
    {
      hide Chained, Parted, Placed, Chain, Hash;
      ghost var v := View();
      ghost var i: nat;
      var slot, prev;
      slot, prev, i := Walk(sig);
      var h := Hash(sig, nchains);
      MapKeys(v, nalloc, nchains, sig);
      if slot == SX_NONE {
        NotThere(v, nalloc, nchains, sig);
        return false;
      }
      ThereIs(v, nalloc, nchains, h, i);
      DroppedOk(v, nalloc, nchains, h, i);
      Unlink(slot, prev, h, i);
      return true;
    }

    /** Take a slot out of its chain, directly or by bypassing it, and free it. */
    method Unlink(slot: int, prev: int, h: nat, ghost i: nat)
      requires h < chains.Length && h < |buckets| && i < |buckets[h]| && slot == buckets[h][i]
      requires prev == if i == 0 then SX_NONE else buckets[h][i - 1]
      requires forall j :: 0 <= j < |buckets[h]| ==> 0 <= buckets[h][j] < sxep.Length
      modifies this`nelems, this`freeHead, this`nfree, this`buckets, this`frees, this`where, sxep, chains
      ensures View() == Dropped(old(View()), h, i)
    {
      ghost var v := View();
      ghost var sig := sxep[slot].sxi;
      if prev == SX_NONE {
        chains[h] := sxep[slot].next;
      } else {
        sxep[prev] := sxep[prev].(next := sxep[slot].next);
      }
      assert sxep[..] == Bypassed(v, h, i);
      FreeElement(slot);
      nelems := nelems - 1;
      buckets := buckets[h := RemoveAt(buckets[h], i)];
      where := where - {sig};
    }

    method FreeElement(slot: int)
      requires 0 <= slot < sxep.Length
      modifies this`freeHead, this`nfree, this`frees, sxep
      ensures sxep[..] == old(sxep[..])[slot := old(sxep[slot]).(offset := OFF_NONE, next := old(freeHead))]
      ensures freeHead == slot && nfree == old(nfree) + 1 && frees == [slot] + old(frees)
    {
      sxep[slot] := sxep[slot].(offset := OFF_NONE, next := freeHead);
      freeHead := slot;
      nfree := nfree + 1;
      frees := [slot] + frees;
    }
  }

  lemma ChainHead(words: seq<int>, hd: int, l: seq<int>)
    requires Chain(words, hd, l)
    ensures hd == if l == [] then SX_NONE else l[0]
  {
  }

  lemma MapKeys(x: Sx, nalloc: nat, nchains: nat, sig: Signature)
    requires SxOk(x, nalloc, nchains)
    ensures sig in AsMap(x.es, x.where) <==> sig in x.where
  {
    hide Chained, Parted, Chain, Hash;
    assert sig in x.where ==> Away(x, nchains, sig);
  }

  lemma NotThere(x: Sx, nalloc: nat, nchains: nat, sig: Signature)
    requires SxOk(x, nalloc, nchains)
    requires var b := x.buckets[Hash(sig, nchains)];
             forall j :: 0 <= j < |b| ==> 0 <= b[j] < |x.es| && x.es[b[j]].sxi != sig
    ensures sig !in x.where && sig !in AsMap(x.es, x.where)
  {
    hide Chained, Parted, Chain, Hash;
    assert sig in x.where ==> Away(x, nchains, sig);
  }

  lemma ThereIs(x: Sx, nalloc: nat, nchains: nat, h: nat, i: nat)
    requires SxOk(x, nalloc, nchains) && h < nchains && i < |x.buckets[h]|
    ensures var slot := x.buckets[h][i];
            && 0 <= slot < |x.es| && x.es[slot].sxi in x.where && x.where[x.es[slot].sxi] == slot
            && x.es[slot].sxi in AsMap(x.es, x.where) && AsMap(x.es, x.where)[x.es[slot].sxi] == x.es[slot].offset
  {
    hide Chained, Parted, Chain, Hash, Placed;
    SlotHome(x, nalloc, nchains, h, i);
  }
}
