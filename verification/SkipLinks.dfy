/**
 The pointer surgery that the three skip lists share: linking a node in after
 a search, unlinking it, and lowering the list's level.  Table slots are named by
 number, and a node's pointers start at the arena word given for it.
 */
module SkipLinks {
  import opened SkipTheory
  import opened FreeBlocks

  const MAXLEVELS := 15

  /** The record of a search that has not started. */
  function Blank15(): seq<nat> {
    seq(MAXLEVELS, _ => 0)
  }

  /** The arena blocks of the nodes recorded by a search. */
  ghost predicate Recorded(base: seq<int>, s: Skip, p: nat, top: int, ub: seq<int>, at: seq<nat>) {
    && |s.order| == |s.ht| >= 2
    && (forall i :: 0 <= i < |s.order| ==> s.order[i] < |base|)
    && -1 <= top < |ub| && top < |at|
    && forall k :: 0 <= k <= top ==> IsUpdate(s.ht, p, k, at[k]) && ub[k] == base[s.order[at[k]]]
  }

  /** A finished search has recorded a predecessor for every level in use. */
  lemma ProbeRecorded(base: seq<int>, keys: seq<Key>, s: Skip, maxsize: nat, level: int, head: nat, tail: nat,
                      t: Key, p: nat, c: nat, update: seq<int>, at: seq<nat>, ub: seq<int>)
    requires |base| == |keys| && ShapeOk(s, |base|, maxsize, level, head, tail)
    requires Probe(keys, s, level, t, p, -1, c, update, at)
    requires level < |ub| && forall k :: 0 <= k <= level ==> 0 <= update[k] < |base| && ub[k] == base[update[k]]
    ensures Recorded(base, s, p, level, ub, at)
  {
    forall k | 0 <= k <= level ensures IsUpdate(s.ht, p, k, at[k]) && ub[k] == base[s.order[at[k]]] {
      assert Passed(s, p, k, update[k], at[k]);
    }
  }

  lemma ProbeNodes(base: seq<int>, keys: seq<Key>, s: Skip, maxsize: nat, level: int,
                   t: Key, p: nat, c: nat, update: seq<int>, at: seq<nat>)
    requires forall i :: 0 <= i < |s.order| ==> s.order[i] < |base|
    requires Probe(keys, s, level, t, p, -1, c, update, at)
    ensures forall k :: 0 <= k <= level ==> 0 <= update[k] < |base|
  {
    forall k | 0 <= k <= level ensures 0 <= update[k] < |base| {
      assert Passed(s, p, k, update[k], at[k]);
    }
  }

  lemma ProbeLength(keys: seq<Key>, s: Skip, level: int, t: Key, p: nat, c: nat, update: seq<int>, at: seq<nat>)
    requires Probe(keys, s, level, t, p, -1, c, update, at)
    ensures |update| == |at| && level < |update|
  {
  }

  /** One level above the highest node, the predecessor is the head. */
  lemma HeadRecorded(base: seq<int>, s: Skip, maxsize: nat, level: int, head: nat, tail: nat,
                     p: nat, ub: seq<int>, at: seq<nat>)
    requires ShapeOk(s, |base|, maxsize, level, head, tail) && level + 1 < maxsize && 1 <= p < |s.order|
    requires Recorded(base, s, p, level, ub, at) && level + 1 == |ub| && level + 1 < |at|
    ensures Recorded(base, s, p, level + 1, ub + [base[head]], at[level + 1 := 0])
  {
  }

  lemma RecordedLower(base: seq<int>, s: Skip, p: nat, top: int, top': int, ub: seq<int>, at: seq<nat>)
    requires Recorded(base, s, p, top, ub, at) && -1 <= top' <= top
    ensures Recorded(base, s, p, top', ub, at)
  {
  }

  /** Link a node of `h` pointers, highest level first. */
  method LinkNode(fb: FreeBlock, nb: int, ub: seq<int>, n: nat, h: int,
                  ghost base: seq<int>, ghost keys: seq<Key>, ghost s: Skip, ghost level: int, ghost level': int,
                  ghost head: nat, ghost tail: nat, ghost p: nat, ghost at: seq<nat>)
    requires fb.Valid() && SkipOk(fb.Mem(), base, keys, s, fb.maxsize, level, head, tail)
    requires Recorded(base, s, p, h - 1, ub, at) && 1 <= p < |s.order|
    requires nb in fb.out && nb in fb.size && nb !in s.blocks && fb.size[nb] == h
    requires n < |base| && n !in s.order && level <= level' < fb.maxsize && 1 <= h <= level' + 1
    requires forall i :: 0 <= i < p ==> keys[s.order[i]].Less(keys[n])
    requires forall i :: p <= i < |s.order| ==> keys[n].Less(keys[s.order[i]])
    modifies fb.fblks
    ensures fb.Valid() && Frame(old(fb.Mem()), fb.Mem(), s.blocks + {nb})
    ensures SkipOk(fb.Mem(), base[n := nb], keys, Inserted(s, p, n, h, nb), fb.maxsize, level', head, tail)
  {
    hide FbOk, SkipOk, Frame, ArenaOk, Apart, Splice, BlocksOk, Inserted, Recorded;
    ghost var a := fb.Mem();
    LinkReady(fb.View(), fb.maxsize, fb.arenaSz, base, keys, s, level, head, tail, p, h, nb, ub, at);
    InsertOk(a, base, keys, s, fb.maxsize, level, head, tail, p, n, h, nb, ub, at, level');
    SpliceNone(a.words, nb, ub, n, h);
    var k := h - 1;
    while k >= 0
      invariant -1 <= k < h && fb.Valid()
      invariant fb.fblks[..] == Splice(a.words, nb, ub, n, h, k + 1)
    {
      SpliceStep(a.words, nb, ub, n, h, k);
      fb.Set(nb + k, fb.fblks[ub[k] + k], nb);
      fb.Set(ub[k] + k, n, ub[k]);
      k := k - 1;
    }
  }

  lemma SpliceStep(w: seq<int>, nb: int, ub: seq<int>, n: int, h: nat, k: nat)
    requires k < h <= |ub| && 0 <= nb && nb + h <= |w|
    requires forall j :: 0 <= j < h ==> 0 <= ub[j] && ub[j] + j < |w|
    ensures var v := Splice(w, nb, ub, n, h, k + 1);
            Splice(w, nb, ub, n, h, k) == v[nb + k := v[ub[k] + k]][ub[k] + k := n]
  {
  }

  lemma SpliceNone(w: seq<int>, nb: int, ub: seq<int>, n: int, h: nat)
    requires h <= |ub| && 0 <= nb && nb + h <= |w|
    requires forall j :: 0 <= j < h ==> 0 <= ub[j] && ub[j] + j < |w|
    ensures Splice(w, nb, ub, n, h, h) == w
  {
  }

  lemma LinkReady(f: Fb, maxsize: int, arenaSz: int, base: seq<int>, keys: seq<Key>, s: Skip, level: int, head: nat,
                  tail: nat,
                  p: nat, h: nat, nb: int, ub: seq<int>, at: seq<nat>)
    requires FbOk(f, maxsize, arenaSz) && SkipOk(f.AsArena(), base, keys, s, maxsize, level, head, tail)
    requires Recorded(base, s, p, h - 1, ub, at) && 1 <= p < |s.order|
    requires nb in f.out && nb in f.size && nb !in s.blocks && f.size[nb] == h
    ensures ArenaOk(f.AsArena()) && SpliceReady(f.AsArena(), base, s, p, h, nb, ub, at)
    ensures Inside(f.AsArena(), ub, h)
  {
    hide Total, Once, Chains, Listed, Linked, Sorted;
    RecordedInside(f.AsArena(), base, s, p, h - 1, ub, at);
  }

  /** The recorded nodes' pointers at the recorded levels lie in blocks that are handed out. */
  ghost predicate Inside(a: Arena, ub: seq<int>, h: int) {
    h <= |ub| && forall k :: 0 <= k < h ==> ub[k] in a.out && ub[k] in a.size && k < a.size[ub[k]]
  }

  lemma RecordedInside(a: Arena, base: seq<int>, s: Skip, p: nat, top: int, ub: seq<int>, at: seq<nat>)
    requires Recorded(base, s, p, top, ub, at) && BlocksOk(a, base, s)
    ensures Inside(a, ub, top + 1)
  {
    forall k | 0 <= k < top + 1 ensures ub[k] in a.out && ub[k] in a.size && k < a.size[ub[k]] {
      assert IsUpdate(s.ht, p, k, at[k]);
    }
  }

  /** Unlink the node at position `p`, lowest level first, stopping at the first level that does not point to it. */
  method UnlinkNode(fb: FreeBlock, nb: int, ub: seq<int>, n: nat, level: int,
                    ghost base: seq<int>, ghost keys: seq<Key>, ghost s: Skip,
                    ghost head: nat, ghost tail: nat, ghost p: nat, ghost at: seq<nat>) returns (k: int)
    requires fb.Valid() && SkipOk(fb.Mem(), base, keys, s, fb.maxsize, level, head, tail)
    requires 1 <= p < s.Last() && n == s.order[p] && nb == base[n]
    requires Recorded(base, s, p, level, ub, at)
    modifies fb.fblks
    ensures fb.Valid() && Frame(old(fb.Mem()), fb.Mem(), s.blocks)
    ensures k == s.ht[p] && nb in s.blocks && nb in fb.out && nb in fb.size && fb.size[nb] == k && 0 < k <= fb.maxsize
    ensures SkipOk(fb.Mem(), base, keys, Removed(s, p, nb), fb.maxsize, level, head, tail)
  {
    hide FbOk, SkipOk, Frame, ArenaOk, Apart, Unsplice, BlocksOk, Removed, UnspliceReady;
    ghost var a, h := fb.Mem(), s.ht[p];
    UnlinkReady(fb.View(), fb.maxsize, fb.arenaSz, base, keys, s, level, head, tail, p, ub, at);
    RemoveOk(a, base, keys, s, fb.maxsize, level, head, tail, p, ub, at);
    UnspliceStart(a.words, nb, ub);
    k := 0;
    while k <= level
      invariant 0 <= k <= h && fb.Valid()
      invariant fb.fblks[..] == Unsplice(a.words, nb, ub, k)
    {
      UnlinkTest(a, base, keys, s, fb.maxsize, level, head, tail, p, ub, at, k);
      if fb.fblks[ub[k] + k] != n { break; }
      UnspliceStep(a.words, nb, ub, k);
      fb.Set(ub[k] + k, fb.fblks[nb + k], ub[k]);
      k := k + 1;
    }
  }

  lemma UnspliceStart(w: seq<int>, nb: int, ub: seq<int>)
    requires 0 <= nb <= |w|
    ensures Unsplice(w, nb, ub, 0) == w
  {
  }

  lemma UnspliceStep(w: seq<int>, nb: int, ub: seq<int>, k: nat)
    requires k + 1 <= |ub| && 0 <= nb && nb + k + 1 <= |w|
    requires forall j :: 0 <= j < k + 1 ==> 0 <= ub[j] && ub[j] + j < |w|
    ensures var v := Unsplice(w, nb, ub, k); Unsplice(w, nb, ub, k + 1) == v[ub[k] + k := v[nb + k]]
  {
  }

  lemma UnlinkReady(f: Fb, maxsize: int, arenaSz: int, base: seq<int>, keys: seq<Key>, s: Skip, level: int, head: nat,
                    tail: nat,
                    p: nat, ub: seq<int>, at: seq<nat>)
    requires FbOk(f, maxsize, arenaSz) && SkipOk(f.AsArena(), base, keys, s, maxsize, level, head, tail)
    requires 1 <= p < s.Last() && Recorded(base, s, p, level, ub, at)
    ensures ArenaOk(f.AsArena()) && UnspliceReady(f.AsArena(), base, s, p, ub, at)
    ensures 1 <= s.ht[p] <= level + 1 <= maxsize && Inside(f.AsArena(), ub, level + 1)
    ensures base[s.order[p]] in s.blocks && base[s.order[p]] in f.out
    ensures base[s.order[p]] in f.size && f.size[base[s.order[p]]] == s.ht[p]
  {
    hide Total, Once, Chains, Listed, Linked, Sorted;
    RecordedInside(f.AsArena(), base, s, p, level, ub, at);
  }

  /** Reading the predecessor's pointer tells whether the node is linked at level `k`. */
  lemma UnlinkTest(a: Arena, base: seq<int>, keys: seq<Key>, s: Skip, maxsize: nat, level: int, head: nat, tail: nat,
                   p: nat, ub: seq<int>, at: seq<nat>, k: nat)
    requires ArenaOk(a) && SkipOk(a, base, keys, s, maxsize, level, head, tail)
    requires 1 <= p < s.Last() && UnspliceReady(a, base, s, p, ub, at)
    requires Recorded(base, s, p, level, ub, at) && k <= level && k <= s.ht[p]
    requires 0 <= base[s.order[p]] && base[s.order[p]] + s.ht[p] <= |a.words|
    requires forall j :: 0 <= j < s.ht[p] ==> 0 <= ub[j] && ub[j] + j < |a.words|
    ensures 0 <= ub[k] + k < |a.words|
    ensures Unsplice(a.words, base[s.order[p]], ub, k)[ub[k] + k] == s.order[p] <==> k < s.ht[p]
  {
    hide Unsplice, ArenaOk, BlocksOk, Sorted, Next;
    PointsToMe(a, base, s, maxsize, p, k, at[k]);
    RemoveKeepsWord(a, base, s, p, ub, at, k, at[k], k);
  }

  /** Drop the levels at which the head points straight to the tail. */
  method LowerLevel(fb: FreeBlock, hb: int, tail: nat, level: int,
                    ghost base: seq<int>, ghost keys: seq<Key>, ghost s: Skip, ghost head: nat) returns (m: int)
    requires SkipOk(fb.Mem(), base, keys, s, fb.maxsize, level, head, tail) && head < |base| && hb == base[head]
    ensures 0 <= m <= level && SkipOk(fb.Mem(), base, keys, s, fb.maxsize, m, head, tail)
    ensures Snug(fb.Mem().words, hb, m, tail)
  {
    hide BlocksOk, Linked, Sorted;
    m := level;
    while true
      invariant 0 <= m <= level && SkipOk(fb.Mem(), base, keys, s, fb.maxsize, m, head, tail)
      decreases m
    {
      if m > 0 { LevelDown(fb.Mem(), base, keys, s, fb.maxsize, m, head, tail); }
      if !(m > 0 && fb.fblks[hb + m] == tail) { break; }
      m := m - 1;
    }
  }

  /** Make every pointer of a full-size block `tail`. */
  method FillHead(fb: FreeBlock, headBlk: int, tail: int)
    requires fb.Valid() && headBlk in fb.out && headBlk in fb.size && fb.size[headBlk] == fb.maxsize
    modifies fb.fblks
    ensures fb.Valid() && Frame(old(fb.Mem()), fb.Mem(), {headBlk})
    ensures 0 <= headBlk && headBlk + fb.maxsize <= fb.fblks.Length
    ensures forall x :: headBlk <= x < headBlk + fb.maxsize ==> fb.fblks[x] == tail
  {
    hide FbOk, Frame, ArenaOk;
    ghost var a := fb.Mem();
    SizeBounds(fb.View(), fb.maxsize, fb.arenaSz);
    BlockBounds(a, headBlk);
    FrameGrows(a, a, {headBlk});
    for i := 0 to fb.maxsize
      invariant fb.Valid() && Frame(a, fb.Mem(), {headBlk})
      invariant forall x :: headBlk <= x < headBlk + i ==> fb.fblks[x] == tail
    {
      ghost var b := fb.Mem();
      SizeBounds(fb.View(), fb.maxsize, fb.arenaSz);
      fb.Set(headBlk + i, tail, headBlk);
      SizeBounds(fb.View(), fb.maxsize, fb.arenaSz);
      FrameTrans(a, b, fb.Mem(), {headBlk}, {headBlk});
    }
  }

  /** The blocks of an empty list's sentinels; `tailFirst` says in which order they are asked for. */
  method SentinelBlocks(fb: FreeBlock, tail: int, tailFirst: bool) returns (headBlk: int, tailBlk: int)
    requires fb.Valid() && fb.Room() >= 2
    modifies fb`avail, fb`outstanding, fb`size, fb`cuts, fb`peak, fb`out, fb`lists, fb.nfree, fb.free, fb.fblks
    ensures fb.Valid() && Frame(old(fb.Mem()), fb.Mem(), {})
    ensures headBlk != tailBlk && {headBlk, tailBlk} !! old(fb.out) && fb.out == old(fb.out) + {headBlk, tailBlk}
    ensures headBlk in fb.size && fb.size[headBlk] == fb.maxsize
    ensures 0 <= headBlk && headBlk + fb.maxsize <= fb.fblks.Length
    ensures forall x :: headBlk <= x < headBlk + fb.maxsize ==> fb.fblks[x] == tail
    ensures fb.Room() >= old(fb.Room()) - if tailFirst && old(fb.Spare()) then 1 else 2
  {
    hide FbOk, ArenaOk, Frame, Balanced, Pow2, FreeBlock.Room, FreeBlock.Spare;
    ghost var a0 := fb.Mem();
    SizeBounds(fb.View(), fb.maxsize, fb.arenaSz);
    if tailFirst {
      tailBlk, headBlk := TwoBlocks(fb, 0, fb.maxsize - 1);
    } else {
      headBlk, tailBlk := TwoBlocks(fb, fb.maxsize - 1, 0);
    }
    ghost var a2 := fb.Mem();
    SizeBounds(fb.View(), fb.maxsize, fb.arenaSz);
    FillHead(fb, headBlk, tail);
    SizeBounds(fb.View(), fb.maxsize, fb.arenaSz);
    FrameTrans(a0, a2, fb.Mem(), {}, {headBlk});
  }

  method TwoBlocks(fb: FreeBlock, level: int, level': int) returns (b: int, b': int)
    requires fb.Valid() && fb.Room() >= 2 && 0 <= level < fb.maxsize && 0 <= level' < fb.maxsize
    modifies fb`avail, fb`outstanding, fb`size, fb`cuts, fb`peak, fb`out, fb`lists, fb.nfree, fb.free, fb.fblks
    ensures fb.Valid() && Frame(old(fb.Mem()), fb.Mem(), {})
    ensures b != b' && {b, b'} !! old(fb.out) && fb.out == old(fb.out) + {b, b'}
    ensures b in fb.size && fb.size[b] == level + 1 && b' in fb.size && fb.size[b'] == level' + 1
    ensures fb.Room() >= old(fb.Room()) - if level == 0 && old(fb.Spare()) then 1 else 2
  {
    hide FbOk, ArenaOk, Frame, Balanced, Pow2, FreeBlock.Room, FreeBlock.Spare;
    ghost var a0 := fb.Mem();
    SizeBounds(fb.View(), fb.maxsize, fb.arenaSz);
    b := fb.Get(level);
    ghost var a1 := fb.Mem();
    SizeBounds(fb.View(), fb.maxsize, fb.arenaSz);
    b' := fb.Get(level');
    SizeBounds(fb.View(), fb.maxsize, fb.arenaSz);
    FrameTrans(a0, a1, fb.Mem(), {}, {});
    StillOut(a1, fb.Mem(), b);
  }
}
