/**
 The region list (storage/pq/RegionList.cpp): a best-fit allocator of the data
 section.  Free regions are in two skip lists, one by offset and one by extent and
 then offset; regions in use are in a hash table by offset.

 RegionList.cpp writes the searches, insertions and deletions of the two skip lists
 out twice; here each is one method with the order as a parameter.
 */
module RegionLists {
  import opened SkipTheory
  import opened FreeBlocks
  import opened SkipLinks
  import opened Layouts
  import opened RegionTables
  import S = SignatureIndexes

  datatype Order = ByOffset | ByExtent

  function Other(ord: Order): Order {
    if ord == ByOffset then ByExtent else ByOffset
  }

  function KeyIn(ord: Order, r: Region): Key {
    if ord == ByOffset then Key(r.offset, 0) else Key(r.GetExtent(), r.offset)
  }

  /** The field that names a free region's pointer block. */
  function LinkIn(ord: Order, r: Region): int {
    if ord == ByOffset then r.next else r.prev
  }

  function WithLink(ord: Order, r: Region, b: int): Region {
    if ord == ByOffset then r.(next := b) else r.(prev := b)
  }

  function Head(ord: Order): nat {
    if ord == ByOffset then RL_FOFF_HD else RL_FEXT_HD
  }

  function Tail(ord: Order): nat {
    if ord == ByOffset then RL_FOFF_TL else RL_FEXT_TL
  }

  ghost function Keys(ord: Order, regs: seq<Region>): seq<Key> {
    seq(|regs|, i requires 0 <= i < |regs| => KeyIn(ord, regs[i]))
  }

  ghost function Bases(ord: Order, regs: seq<Region>): seq<int> {
    seq(|regs|, i requires 0 <= i < |regs| => LinkIn(ord, regs[i]))
  }

  /** The node `x` of a list is at some place between the sentinels. */
  lemma PlaceOf(s: Skip, x: nat) returns (j: nat)
    requires x in Nodes(s)
    ensures 0 < j < s.Last() && j < |s.order| && s.order[j] == x
  {
    j :| 0 < j < s.Last() && j < |s.order| && s.order[j] == x;
  }

  class RegionList {
    const nalloc: nat
    const nchains: nat
    const fb: FreeBlock
    const rp: array<Region>
    const chains: array<int>
    /** The data section. */
    ghost const lo: int
    ghost const hi: int
    var empty: int
    var nelems: int
    var nfree: int
    var maxfextent: int
    var nempty: int
    var nbytes: int
    /** The largest byte count there has been. */
    var maxbytes: int
    var levelFoff: int
    var levelFext: int
    ghost var off: Skip
    ghost var ext: Skip
    ghost var buckets: seq<seq<int>>
    ghost var where: map<int, int>
    ghost var empties: seq<int>
    ghost var m: Layout
    ghost var held: set<int>
    /** The bytes handed out that `nbytes` does not count yet. */
    ghost var untracked: int

    /** An empty table: every record but the sentinels is unused, and both free lists are empty. */
    constructor (n: nat, chainCount: nat, arena: FreeBlock, ghost datao: int, ghost ixo: int)
      requires 0 < n && 0 < chainCount && arena.Valid() && arena.Room() >= 4
      modifies arena`avail, arena`outstanding, arena`size, arena`cuts, arena`peak, arena`out, arena`lists, arena.nfree,
               arena.free, arena.fblks
      ensures nalloc == n && nchains == chainCount && fb == arena && fresh(rp) && fresh(chains) && lo == datao
              && hi == ixo
      ensures Structure() && m == map[] && where == map[] && held == {}
      ensures nempty == n && nelems == 0 && nbytes == maxbytes == 0 && untracked == 0 && maxfextent == 0
      ensures Blocks() !! old(arena.out) && arena.out == old(arena.out) + Blocks()
      ensures Frame(old(arena.Mem()), arena.Mem(), {}) && arena.Room() >= old(arena.Room()) - 4
    {
      hide FbOk, Lists, Whole, Frame, FreeBlock.Books, FreeBlock.Room;
      nalloc, nchains, fb := n, chainCount, arena;
      rp := new Region[n + RL_FREE_OVERHEAD](i => InitialRegion(n, i));
      chains := new int[chainCount](_ => RL_NONE);
      empty, nelems, nfree, maxfextent, nempty, nbytes, levelFoff, levelFext := RL_FREE_OVERHEAD, 0, 0, 0, n, 0, 0, 0;
      m, where, held, untracked, maxbytes, lo, hi := map[], map[], {}, 0, 0, datao, ixo;
      buckets, empties := seq(chainCount, _ => []), seq(n, i => i + RL_FREE_OVERHEAD);
      new;
      assert chains[..] == seq(nchains, _ => RL_NONE)
             && rp[..] == seq(nalloc + RL_FREE_OVERHEAD, i => InitialRegion(nalloc, i));
      Initialize();
    }

    method Initialize()
      requires fb.Valid() && fb.Room() >= 4 && Separate() && InitialTable(View(), nalloc, nchains) && nfree == 0
               && nempty == nalloc
      requires rp[..] == seq(nalloc + RL_FREE_OVERHEAD, i => InitialRegion(nalloc, i))
      modifies this`off, this`ext, this`levelFoff, this`levelFext, rp
      modifies fb`avail, fb`outstanding, fb`size, fb`cuts, fb`peak, fb`out, fb`lists, fb.nfree, fb.free, fb.fblks
      ensures Structure()
      ensures Blocks() !! old(fb.out) && fb.out == old(fb.out) + Blocks()
      ensures Frame(old(fb.Mem()), fb.Mem(), {}) && fb.Room() >= old(fb.Room()) - 4
    {
      hide FbOk, ArenaOk, Frame, SkipOk, Lists, Whole, TableOk, FreeBlock.Books, FreeBlock.Room;
      ghost var t0 := View();
      forall i | 0 <= i < rp.Length ensures rp[i] == InitialRegion(nalloc, i) {
        assert rp[i] == rp[..][i];
      }
      InitLists();
      EmptyTableOk(t0, View(), nalloc, nchains);
      EmptyWhole(View(), nalloc, nchains, off, ext);
    }

    method InitLists()
      requires fb.Valid() && fb.Room() >= 4 && rp.Length == nalloc + RL_FREE_OVERHEAD
      requires forall i :: 0 <= i < rp.Length ==> rp[i] == InitialRegion(nalloc, i)
      modifies this`off, this`ext, this`levelFoff, this`levelFext, rp
      modifies fb`avail, fb`outstanding, fb`size, fb`cuts, fb`peak, fb`out, fb`lists, fb.nfree, fb.free, fb.fblks
      ensures Lists() && EmptyList(ByOffset, off) && EmptyList(ByExtent, ext)
      ensures SentinelLinks(old(rp[..]), rp[..])
      ensures Blocks() !! old(fb.out) && fb.out == old(fb.out) + Blocks()
      ensures Frame(old(fb.Mem()), fb.Mem(), {}) && fb.Room() >= old(fb.Room()) - 4
    {
      hide FbOk, ArenaOk, Frame, SkipOk, FreeBlock.Books, FreeBlock.Room;
      ghost var a0 := fb.Mem();
      SizeBounds(fb.View(), fb.maxsize, fb.arenaSz);
      InitList(ByOffset);
      ghost var a1, regs := fb.Mem(), rp[..];
      SizeBounds(fb.View(), fb.maxsize, fb.arenaSz);
      InitList(ByExtent);
      SizeBounds(fb.View(), fb.maxsize, fb.arenaSz);
      FrameTrans(a0, a1, fb.Mem(), {}, {});
      BlocksOut(a1, Bases(ByOffset, regs), Keys(ByOffset, regs), off, fb.maxsize, 0, RL_FOFF_HD, RL_FOFF_TL);
      ListKept(a1, ByOffset, regs, rp[..], off, fb.maxsize, 0);
      NodesSame(a1, Bases(ByOffset, rp[..]), Keys(ByOffset, rp[..]), Bases(ByOffset, rp[..]), Keys(ByOffset, rp[..]),
                off, fb.maxsize, 0, RL_FOFF_HD, RL_FOFF_TL);
      SkipSurvives(a1, fb.Mem(), Bases(ByOffset, rp[..]), Keys(ByOffset, rp[..]), Bases(ByOffset, rp[..]),
                   Keys(ByOffset, rp[..]), off,
                   fb.maxsize, 0, RL_FOFF_HD, RL_FOFF_TL, {});
    }

    /** Give one list's sentinels their blocks; every pointer of the head is the tail. */
    method InitList(ord: Order)
      requires fb.Valid() && fb.Room() >= 2 && rp.Length >= RL_FREE_OVERHEAD
               && KeyIn(ord, rp[Head(ord)]).Less(KeyIn(ord, rp[Tail(ord)]))
      modifies this`off, this`ext, this`levelFoff, this`levelFext, rp
      modifies fb`avail, fb`outstanding, fb`size, fb`cuts, fb`peak, fb`out, fb`lists, fb.nfree, fb.free, fb.fblks
      ensures fb.Valid() && Threads(ord, fb.Mem()) && EmptyList(ord, List(ord)) && Level(ord) == 0
      ensures rp[..] == old(rp[..])[Head(ord) := WithLink(ord, old(rp[Head(ord)]), LinkIn(ord, rp[Head(ord)]))]
                        [Tail(ord) := WithLink(ord, old(rp[Tail(ord)]), LinkIn(ord, rp[Tail(ord)]))]
      ensures List(Other(ord)) == old(List(Other(ord))) && Level(Other(ord)) == old(Level(Other(ord)))
      ensures List(ord).blocks !! old(fb.out) && fb.out == old(fb.out) + List(ord).blocks
      ensures Frame(old(fb.Mem()), fb.Mem(), {}) && fb.Room() >= old(fb.Room()) - 2
    {
      hide FbOk, ArenaOk, Frame, SkipOk, FreeBlock.Books, FreeBlock.Room;
      var headBlk, tailBlk := SentinelBlocks(fb, Tail(ord), false);
      rp[Head(ord)] := WithLink(ord, rp[Head(ord)], headBlk);
      rp[Tail(ord)] := WithLink(ord, rp[Tail(ord)], tailBlk);
      ghost var s := Skip([Head(ord), Tail(ord)], [fb.maxsize, fb.maxsize], {headBlk, tailBlk});
      if ord == ByOffset { off := s; levelFoff := 0; } else { ext := s; levelFext := 0; }
      EmptyListArena(fb.View(), fb.maxsize, fb.arenaSz, ord, rp[..]);
    }

    /** Make the whole data section one free region. */
    method Format(datao: int, extent: int) returns (ok: bool)
      requires Structure() && m == map[] && where == map[] && held == {} && nempty > 0
      requires nelems == 0 && nbytes == maxbytes == 0 && untracked == 0
      requires 0 < datao == lo && datao + extent == hi < HUGE_OFF && 0 < extent && extent % 2 == 0
      modifies this`levelFoff, this`levelFext, this`off, this`ext, this`m, this`held, this`nfree, this`maxfextent
      modifies this`empty, this`nempty, this`empties, rp
      modifies fb`avail, fb`outstanding, fb`size, fb`cuts, fb`peak, fb`out, fb`lists, fb.nfree, fb.free, fb.fblks
      ensures ok ==>
                && Valid() && held == {} && m.Keys == {datao} && m[datao].kind == Kind.Free
                && Kept(old(fb.Mem()), old(Blocks()), fb.Mem(), Blocks())
      ensures old(fb.Room()) > 1 ==> ok
      ensures old(fb.Room()) - 2 <= fb.Room()
    {
      hide Structure, FbOk, Frame, SkipOk, Kept, ArenaOk, FreeBlock.Books, FreeBlock.Room;
      var x;
      EmptyHead();
      ok, x := Add(datao, extent);
      if !ok { return; }
      OneRegion(datao, extent, x);
      SetMax(extent);
    }

    ghost function View(): Table
      reads `empty, `buckets, `where, `empties, `m, `held, rp, chains
    {
      Table(rp[..], chains[..], empty, buckets, where, empties, m, held)
    }

    ghost function List(ord: Order): Skip
      reads `off, `ext
    {
      if ord == ByOffset then off else ext
    }

    function Level(ord: Order): int
      reads `levelFoff, `levelFext
    {
      if ord == ByOffset then levelFoff else levelFext
    }

    /** The arena words spell out the free list of this order. */
    ghost predicate Threads(ord: Order, a: Arena)
      reads `off, `ext, `levelFoff, `levelFext, rp
    {
      SkipOk(a, Bases(ord, rp[..]), Keys(ord, rp[..]), List(ord), fb.maxsize, Level(ord), Head(ord), Tail(ord))
    }

    /** Search one free list from its top level down, recording where each level was left. */
    method Search(ord: Order, t: Key) returns (update: seq<int>, sq: int, ghost at: seq<nat>, ghost c: nat,
                                               ghost w: nat)
      requires fb.Valid() && Threads(ord, fb.Mem())
      requires Tail(ord) < rp.Length && !KeyIn(ord, rp[Tail(ord)]).Less(t)
      ensures Probe(Keys(ord, rp[..]), List(ord), Level(ord), t, w, -1, c, update, at) && |update| == MAXLEVELS
      ensures c + 1 == w < |List(ord).order| && sq == List(ord).order[w] && 0 <= sq < rp.Length
    {
      hide Sorted, BlocksOk, Linked, FbOk, FreeBlock.Books, FreeBlock.Room;
      ghost var s, bs, ks := List(ord), Bases(ord, rp[..]), Keys(ord, rp[..]);
      SizeBounds(fb.View(), fb.maxsize, fb.arenaSz);
      update, at := Blank15(), Blank15();
      w := ProbeStart(bs, ks, s, fb.maxsize, Level(ord), Head(ord), Tail(ord), t, update, at);
      var sp := Head(ord);
      var k := Level(ord);
      ghost var n: nat := 0;
      c, sq := 0, 0;
      while k >= 0
        invariant Probe(ks, s, Level(ord), t, w, k, c, update, at) && sp == s.order[c] && |update| == MAXLEVELS
        invariant k < 0 ==> c + 1 == w && sq == s.order[w]
      {
        n := ProbeStep(fb.Mem(), bs, ks, s, fb.maxsize, Level(ord), Head(ord), Tail(ord), t, w, k, c, update, at);
        sq := fb.fblks[LinkIn(ord, rp[sp]) + k];
        while KeyIn(ord, rp[sq]).Less(t)
          invariant Ahead(ks, s, Level(ord), t, w, k, c, n, update, at)
          invariant sp == s.order[c] && sq == s.order[n] && 0 <= sq < rp.Length
          decreases w - c
        {
          sp, c := sq, n;
          n := ProbeStep(fb.Mem(), bs, ks, s, fb.maxsize, Level(ord), Head(ord), Tail(ord), t, w, k, c, update, at);
          sq := fb.fblks[LinkIn(ord, rp[sp]) + k];
        }
        update, at := update[k := sp], at[k := c];
        k := k - 1;
      }
    }

    /** Delete the free region `x` from one free list and give back its pointer block. */
    method DeleteFrom(ord: Order, x: int)
      requires fb.Valid() && Threads(ord, fb.Mem()) && x in Nodes(List(ord))
      modifies this`levelFoff, this`levelFext, this`off, this`ext
      modifies fb`avail, fb`outstanding, fb`out, fb`lists, fb.nfree, fb.free, fb.fblks
      ensures fb.Valid() && Threads(ord, fb.Mem()) && 0 <= x < rp.Length
      ensures Nodes(List(ord)) == old(Nodes(List(ord))) - {x} && |List(ord).order| == |old(List(ord)).order| - 1
      ensures LinkIn(ord, rp[x]) in old(List(ord).blocks)
      ensures List(ord).blocks == old(List(ord).blocks) - {LinkIn(ord, rp[x])}
              && fb.out == old(fb.out) - {LinkIn(ord, rp[x])}
      ensures Frame(old(fb.Mem()), fb.Mem(), old(List(ord).blocks))
      ensures List(Other(ord)) == old(List(Other(ord))) && Level(Other(ord)) == old(Level(Other(ord)))
      ensures Level(ord) <= old(Level(ord)) && Head(ord) < rp.Length
              && Snug(fb.Mem().words, LinkIn(ord, rp[Head(ord)]), Level(ord), Tail(ord))
      ensures old(fb.Room()) <= fb.Room()
    {
      hide Sorted, BlocksOk, Linked, FbOk, Frame, Probe, ArenaOk, Nodes, FreeBlock.Books, FreeBlock.Room, Snug;
      ghost var s0 := List(ord);
      ghost var j := PlaceOf(s0, x);
      DeleteKey(fb.Mem(), ord, rp[..], s0, fb.maxsize, Level(ord), j);
      var update, sq, at, c, w := Search(ord, KeyIn(ord, rp[x]));
      DeletePlace(ord, rp[..], s0, Level(ord), j, w, c, update, at);
      if KeyIn(ord, rp[sq]) == KeyIn(ord, rp[x]) {
        Detach(ord, x, j, update, at, c);
        var level := LowerLevel(fb, LinkIn(ord, rp[Head(ord)]), Tail(ord), Level(ord), Bases(ord, rp[..]),
                                Keys(ord, rp[..]), List(ord), Head(ord));
        if ord == ByOffset { levelFoff := level; } else { levelFext := level; }
      }
    }

    /** The blocks that a finished search has recorded, level by level; above them, the head's. */
    method Previous(ord: Order, newTop: int, update: seq<int>, ghost at: seq<nat>, ghost c: nat, ghost w: nat,
                    ghost ks: seq<Key>, ghost t: Key)
      returns (ub: seq<int>, ghost at': seq<nat>)
      requires fb.Valid() && Threads(ord, fb.Mem()) && newTop < |update| && |ks| == rp.Length
      requires newTop == Level(ord) || newTop == Level(ord) + 1 < fb.maxsize
      requires Probe(ks, List(ord), Level(ord), t, w, -1, c, update, at) && 1 <= w < |List(ord).order|
      ensures |ub| == newTop + 1 && newTop < fb.maxsize && Recorded(Bases(ord, rp[..]), List(ord), w, newTop, ub, at')
    {
      hide Sorted, BlocksOk, Linked, FbOk, Recorded, Probe, FreeBlock.Books, FreeBlock.Room;
      ghost var bs, s := Bases(ord, rp[..]), List(ord);
      SizeBounds(fb.View(), fb.maxsize, fb.arenaSz);
      ProbeLength(ks, s, Level(ord), t, w, c, update, at);
      ProbeNodes(bs, ks, s, fb.maxsize, Level(ord), t, w, c, update, at);
      var top := Level(ord);
      ub := seq(top + 1, i requires 0 <= i <= top < |update|
                && 0 <= update[i] < rp.Length reads rp => LinkIn(ord, rp[update[i]]));
      ProbeRecorded(bs, ks, s, fb.maxsize, top, Head(ord), Tail(ord), t, w, c, update, at, ub);
      at' := at;
      if newTop > top {
        HeadRecorded(bs, s, fb.maxsize, top, Head(ord), Tail(ord), w, ub, at);
        ub, at' := ub + [LinkIn(ord, rp[Head(ord)])], at[newTop := 0];
      }
    }

    /** Unlink the region found by the search at every level and release its block. */
    method Detach(ord: Order, x: int, ghost j: nat, update: seq<int>, ghost at: seq<nat>, ghost c: nat)
      requires fb.Valid() && Threads(ord, fb.Mem()) && 0 < j < List(ord).Last() && x == List(ord).order[j]
               && 0 <= x < rp.Length
      requires |update| == MAXLEVELS
      requires Probe(Keys(ord, rp[..]), List(ord), Level(ord), KeyIn(ord, rp[x]), j, -1, c, update, at)
      modifies this`off, this`ext
      modifies fb`avail, fb`outstanding, fb`out, fb`lists, fb.nfree, fb.free, fb.fblks
      ensures fb.Valid() && Threads(ord, fb.Mem())
      ensures Nodes(List(ord)) == old(Nodes(List(ord))) - {x} && |List(ord).order| == |old(List(ord)).order| - 1
      ensures LinkIn(ord, rp[x]) in old(List(ord).blocks)
      ensures List(ord).blocks == old(List(ord).blocks) - {LinkIn(ord, rp[x])}
              && fb.out == old(fb.out) - {LinkIn(ord, rp[x])}
      ensures Frame(old(fb.Mem()), fb.Mem(), old(List(ord).blocks))
      ensures List(Other(ord)) == old(List(Other(ord)))
      ensures old(fb.Room()) <= fb.Room()
    {
      hide Sorted, BlocksOk, Linked, FbOk, ArenaOk, Frame, Probe, Recorded, Nodes, FreeBlock.Books, FreeBlock.Room;
      ghost var bs, ks := Bases(ord, rp[..]), Keys(ord, rp[..]);
      ghost var s0, a0 := List(ord), fb.Mem();
      SizeBounds(fb.View(), fb.maxsize, fb.arenaSz);
      var ub, top := [], Level(ord);
      ghost var at';
      ub, at' := Previous(ord, top, update, at, c, j, ks, KeyIn(ord, rp[x]));
      var k := UnlinkNode(fb, LinkIn(ord, rp[x]), ub, x, top, bs, ks, s0, Head(ord), Tail(ord), j, at');
      ghost var a1 := fb.Mem();
      SizeBounds(fb.View(), fb.maxsize, fb.arenaSz);
      fb.Release(k, LinkIn(ord, rp[x]));
      SizeBounds(fb.View(), fb.maxsize, fb.arenaSz);
      ghost var s1 := Removed(s0, j, bs[x]);
      SkipSurvives(a1, fb.Mem(), bs, ks, bs, ks, s1, fb.maxsize, top, Head(ord), Tail(ord), {bs[x]});
      NodesRemoved(s0, j, bs[x]);
      FrameTrans(a0, a1, fb.Mem(), s0.blocks, {bs[x]});
      if ord == ByOffset { off := s1; } else { ext := s1; }
    }

    /** Both free lists are intact and use different blocks. */
    ghost predicate Lists()
      reads `off, `ext, `levelFoff, `levelFext, rp, fb, fb.nfree, fb.free, fb.fblks
    {
      fb.Valid() && Threads(ByOffset, fb.Mem()) && Threads(ByExtent, fb.Mem()) && off.blocks !! ext.blocks
    }

    ghost function Blocks(): set<int>
      reads `off, `ext
    {
      off.blocks + ext.blocks
    }

    /** `DeleteFrom`, seen from both lists: the other one keeps all its arena words. */
    method Delete(ord: Order, x: int)
      requires Lists() && x in Nodes(List(ord))
      modifies this`levelFoff, this`levelFext, this`off, this`ext
      modifies fb`avail, fb`outstanding, fb`out, fb`lists, fb.nfree, fb.free, fb.fblks
      ensures Lists() && 0 <= x < rp.Length
      ensures Nodes(List(ord)) == old(Nodes(List(ord))) - {x} && |List(ord).order| == |old(List(ord)).order| - 1
      ensures LinkIn(ord, rp[x]) in old(List(ord).blocks)
      ensures List(ord).blocks == old(List(ord).blocks) - {LinkIn(ord, rp[x])}
              && fb.out == old(fb.out) - {LinkIn(ord, rp[x])}
      ensures Frame(old(fb.Mem()), fb.Mem(), old(List(ord).blocks))
      ensures List(Other(ord)) == old(List(Other(ord))) && Level(Other(ord)) == old(Level(Other(ord)))
      ensures old(fb.Room()) <= fb.Room()
    {
      hide SkipOk, FbOk, Frame, ArenaOk, Nodes, Keys, Bases, FreeBlock.Books, FreeBlock.Room;
      ghost var a, ot := fb.Mem(), Other(ord);
      ghost var bs, ks := Bases(ot, rp[..]), Keys(ot, rp[..]);
      SizeBounds(fb.View(), fb.maxsize, fb.arenaSz);
      DeleteFrom(ord, x);
      SizeBounds(fb.View(), fb.maxsize, fb.arenaSz);
      NodesSame(a, bs, ks, bs, ks, List(ot), fb.maxsize, Level(ot), Head(ot), Tail(ot));
      SkipSurvives(a, fb.Mem(), bs, ks, bs, ks, List(ot), fb.maxsize, Level(ot), Head(ot), Tail(ot),
                   old(List(ord)).blocks);
    }

    /**
     Insert `x` into one free list, with a node of random height (at most one level above the list's).  Fails if
     the arena has no block for that node.
     */
    method InsertInto(ord: Order, x: int) returns (ok: bool, ghost nb: int)
      requires fb.Valid() && Threads(ord, fb.Mem()) && Fits(ord, rp[..], List(ord), x)
      modifies this`levelFoff, this`levelFext, this`off, this`ext, rp
      modifies fb`avail, fb`outstanding, fb`size, fb`cuts, fb`peak, fb`out, fb`lists, fb.nfree, fb.free, fb.fblks
      ensures ok ==>
                && fb.Valid() && Threads(ord, fb.Mem())
                && Nodes(List(ord)) == old(Nodes(List(ord))) + {x} && |List(ord).order| == |old(List(ord)).order| + 1
                && nb !in old(fb.out) && fb.out == old(fb.out) + {nb}
                && List(ord).blocks == old(List(ord).blocks) + {nb}
                && rp[..] == old(rp[..])[x := WithLink(ord, old(rp[x]), nb)]
                && Frame(old(fb.Mem()), fb.Mem(), old(List(ord).blocks))
                && List(Other(ord)) == old(List(Other(ord))) && Level(Other(ord)) == old(Level(Other(ord)))
      ensures old(fb.Room()) > 0 ==> ok
      ensures old(fb.Room()) - 1 <= fb.Room()
    {
      hide Sorted, BlocksOk, Linked, FbOk, ArenaOk, Frame, Probe, Nodes, FreeBlock.Books, FreeBlock.Room;
      ghost var a0, s, regs, level := fb.Mem(), List(ord), rp[..], Level(ord);
      SizeBounds(fb.View(), fb.maxsize, fb.arenaSz);
      FitsBelowTail(a0, ord, regs, s, fb.maxsize, level, x);
      var update, sq, at, c, w := Search(ord, KeyIn(ord, rp[x]));
      var k := fb.GetRandomLevel();
      var top := Level(ord);
      if k > top {
        top := top + 1;
        k := top;
      }
      var b := fb.Get(k);
      nb, ok := b, b != FBLK_NONE;
      if !ok { return; }
      SizeBounds(fb.View(), fb.maxsize, fb.arenaSz);
      NodesSame(a0, Bases(ord, regs), Keys(ord, regs), Bases(ord, regs), Keys(ord, regs), s, fb.maxsize, level,
                Head(ord), Tail(ord));
      SkipSurvives(a0, fb.Mem(), Bases(ord, regs), Keys(ord, regs), Bases(ord, regs), Keys(ord, regs), s,
                   fb.maxsize, level, Head(ord), Tail(ord), {});
      ghost var a1 := fb.Mem();
      Fasten(ord, x, b, k, top, update, at, c, w);
      SizeBounds(fb.View(), fb.maxsize, fb.arenaSz);
      FrameWider(a0, a1, {}, s.blocks);
      FrameTrans(a0, a1, fb.Mem(), s.blocks, s.blocks + {b});
    }

    /** Give `x` its block and link it. */
    method Fasten(ord: Order, x: int, b: int, k: int, newTop: int, update: seq<int>, ghost at: seq<nat>, ghost c: nat,
                  ghost w: nat)
      requires fb.Valid() && Threads(ord, fb.Mem()) && |update| == MAXLEVELS && Fits(ord, rp[..], List(ord), x)
      requires 0 <= k < fb.maxsize && k <= newTop && (newTop == Level(ord) || newTop == k == Level(ord) + 1)
      requires Probe(Keys(ord, rp[..]), List(ord), Level(ord), KeyIn(ord, rp[x]), w, -1, c, update, at)
      requires b in fb.out && b in fb.size && fb.size[b] == k + 1 && b !in List(ord).blocks
      modifies this`levelFoff, this`levelFext, this`off, this`ext, rp, fb.fblks
      ensures fb.Valid() && Threads(ord, fb.Mem())
      ensures Nodes(List(ord)) == old(Nodes(List(ord))) + {x} && |List(ord).order| == |old(List(ord)).order| + 1
      ensures List(ord).blocks == old(List(ord).blocks) + {b}
      ensures rp[..] == old(rp[..])[x := WithLink(ord, old(rp[x]), b)]
      ensures Frame(old(fb.Mem()), fb.Mem(), old(List(ord)).blocks + {b})
      ensures List(Other(ord)) == old(List(Other(ord))) && Level(Other(ord)) == old(Level(Other(ord)))
    {
      hide SkipOk, FbOk, ArenaOk, Frame, Probe, Nodes, FreeBlock.Books, FreeBlock.Room;
      ghost var s, regs, level := List(ord), rp[..], Level(ord);
      SizeBounds(fb.View(), fb.maxsize, fb.arenaSz);
      FitsAt(ord, regs, s, level, x, b, w, c, update, at);
      rp[x] := WithLink(ord, rp[x], b);
      assert rp[..] == regs[x := WithLink(ord, regs[x], b)];
      FrameGrows(fb.Mem(), fb.Mem(), {});
      SkipSurvives(fb.Mem(), fb.Mem(), Bases(ord, regs), Keys(ord, regs), Bases(ord, rp[..]), Keys(ord, rp[..]), s,
                   fb.maxsize, level, Head(ord), Tail(ord), {});
      Attach(ord, x, k, newTop, update, at, c, w, Keys(ord, regs));
    }

    /** Link `x`, whose block is in place, at place `w` with `k + 1` pointers. */
    method Attach(ord: Order, x: int, k: int, newTop: int, update: seq<int>, ghost at: seq<nat>, ghost c: nat,
                  ghost w: nat, ghost ks0: seq<Key>)
      requires fb.Valid() && Threads(ord, fb.Mem()) && |update| == MAXLEVELS
      requires 0 <= x < rp.Length && x !in List(ord).order && 0 <= k < fb.maxsize
      requires k <= newTop && (newTop == Level(ord) || newTop == k == Level(ord) + 1)
      requires Probe(ks0, List(ord), Level(ord), KeyIn(ord, rp[x]), w, -1, c, update, at) && |ks0| == rp.Length
      requires var nb := LinkIn(ord, rp[x]);
               nb in fb.out && nb in fb.size && fb.size[nb] == k + 1 && nb !in List(ord).blocks
      requires Between(Keys(ord, rp[..]), List(ord), x, w)
      modifies this`levelFoff, this`levelFext, this`off, this`ext, fb.fblks
      ensures fb.Valid() && Threads(ord, fb.Mem())
      ensures Nodes(List(ord)) == old(Nodes(List(ord))) + {x} && |List(ord).order| == |old(List(ord)).order| + 1
      ensures List(ord).blocks == old(List(ord).blocks) + {LinkIn(ord, rp[x])}
      ensures Frame(old(fb.Mem()), fb.Mem(), old(List(ord)).blocks + {LinkIn(ord, rp[x])})
      ensures List(Other(ord)) == old(List(Other(ord))) && Level(Other(ord)) == old(Level(Other(ord)))
    {
      hide SkipOk, ArenaOk, FbOk, Frame, Recorded, Nodes, FreeBlock.Books, FreeBlock.Room;
      ghost var bs, ks, s := Bases(ord, rp[..]), Keys(ord, rp[..]), List(ord);
      SizeBounds(fb.View(), fb.maxsize, fb.arenaSz);
      var ub;
      ghost var at';
      ub, at' := Previous(ord, newTop, update, at, c, w, ks0, KeyIn(ord, rp[x]));
      RecordedLower(bs, s, w, newTop, k, ub, at');
      LinkNode(fb, LinkIn(ord, rp[x]), ub, x, k + 1, bs, ks, s, Level(ord), newTop, Head(ord), Tail(ord), w, at');
      assert bs[x := LinkIn(ord, rp[x])] == bs;
      ghost var s1 := Inserted(s, w, x, k + 1, LinkIn(ord, rp[x]));
      NodesInserted(s, w, x, k + 1, LinkIn(ord, rp[x]));
      if ord == ByOffset { off := s1; levelFoff := newTop; } else { ext := s1; levelFext := newTop; }
    }

    /** `InsertInto`, seen from both lists. */
    method Insert(ord: Order, x: int) returns (ok: bool, ghost nb: int)
      requires Lists() && Fits(ord, rp[..], List(ord), x)
      modifies this`levelFoff, this`levelFext, this`off, this`ext, rp
      modifies fb`avail, fb`outstanding, fb`size, fb`cuts, fb`peak, fb`out, fb`lists, fb.nfree, fb.free, fb.fblks
      ensures ok ==>
                && Lists()
                && Nodes(List(ord)) == old(Nodes(List(ord))) + {x} && |List(ord).order| == |old(List(ord)).order| + 1
                && nb !in old(fb.out) && fb.out == old(fb.out) + {nb}
                && List(ord).blocks == old(List(ord).blocks) + {nb}
                && rp[..] == old(rp[..])[x := WithLink(ord, old(rp[x]), nb)]
                && Frame(old(fb.Mem()), fb.Mem(), old(List(ord).blocks))
                && List(Other(ord)) == old(List(Other(ord))) && Level(Other(ord)) == old(Level(Other(ord)))
      ensures old(fb.Room()) > 0 ==> ok
      ensures old(fb.Room()) - 1 <= fb.Room()
    {
      hide SkipOk, FbOk, Frame, ArenaOk, Nodes, Fits, FreeBlock.Books, FreeBlock.Room;
      ghost var a, ot, regs := fb.Mem(), Other(ord), rp[..];
      ghost var bs, ks := Bases(ot, regs), Keys(ot, regs);
      SizeBounds(fb.View(), fb.maxsize, fb.arenaSz);
      BlocksOut(a, bs, ks, List(ot), fb.maxsize, Level(ot), Head(ot), Tail(ot));
      FitsRange(ord, regs, List(ord), x);
      ok, nb := InsertInto(ord, x);
      if ok {
        SizeBounds(fb.View(), fb.maxsize, fb.arenaSz);
        assert Bases(ot, rp[..]) == bs && Keys(ot, rp[..]) == ks;
        NodesSame(a, bs, ks, bs, ks, List(ot), fb.maxsize, Level(ot), Head(ot), Tail(ot));
        SkipSurvives(a, fb.Mem(), bs, ks, bs, ks, List(ot), fb.maxsize, Level(ot), Head(ot), Tail(ot),
                     old(List(ord)).blocks);
      }
    }

    ghost predicate Separate() {
      chains != fb.nfree && chains != fb.free && chains != fb.fblks
    }

    /** The table, the hash and the two free lists describe the same regions, and the counters count them. */
    ghost predicate Structure()
      reads this, rp, chains, fb, fb.nfree, fb.free, fb.fblks
    {
      Separate() && Lists() && Whole(View(), nalloc, nchains, off, ext, nfree, nempty)
    }

    /** Put the held region of slot `x` at offset `o` on both free lists. */
    method ReleaseRegion(x: int, ghost o: int) returns (ok: bool)
      requires Structure() && o in m && m[o].kind == Held && m[o].slot == x
      modifies this`levelFoff, this`levelFext, this`off, this`ext, this`nfree, this`m, this`held, rp
      modifies fb`avail, fb`outstanding, fb`size, fb`cuts, fb`peak, fb`out, fb`lists, fb.nfree, fb.free, fb.fblks
      ensures ok ==>
                && Structure() && m == old(m)[o := old(m)[o].(kind := Kind.Free)] && held == old(held) - {o}
                && nfree == old(nfree) + 1
                && Kept(old(fb.Mem()), old(Blocks()), fb.Mem(), Blocks())
      ensures old(fb.Room()) > 1 ==> ok
      ensures old(fb.Room()) - 2 <= fb.Room()
    {
      hide Lists, Frame, Whole, TableOk, Nodes, FreeBlock.Books, FreeBlock.Room;
      WholeParts(View(), nalloc, nchains, off, ext, nfree, nempty);
      ghost var t0, off0, ext0 := View(), off, ext;
      ok := EnlistTwice(x, o);
      if ok { Enlisted(o, t0, off0, ext0); }
    }

    method EnlistTwice(x: int, ghost o: int) returns (ok: bool)
      requires Separate() && Lists() && TableOk(View(), nchains) && Nodes(off) == FreeSlots(m)
               && Nodes(ext) == FreeSlots(m)
      requires o in m && m[o].kind == Held && m[o].slot == x
      modifies this`levelFoff, this`levelFext, this`off, this`ext, rp
      modifies fb`avail, fb`outstanding, fb`size, fb`cuts, fb`peak, fb`out, fb`lists, fb.nfree, fb.free, fb.fblks
      ensures ok ==>
                && Lists() && TableOk(View(), nchains)
                && Nodes(off) == old(Nodes(off)) + {x} && |off.order| == |old(off).order| + 1
                && Nodes(ext) == old(Nodes(ext)) + {x} && |ext.order| == |old(ext).order| + 1
                && Kept(old(fb.Mem()), old(Blocks()), fb.Mem(), Blocks())
      ensures old(fb.Room()) > 1 ==> ok
      ensures old(fb.Room()) - 2 <= fb.Room()
    {
      hide Lists, Frame, ArenaOk, TableOk, Nodes, FreeSlots, FreeBlock.Books, FreeBlock.Room;
      ghost var a0, b0, ext0 := fb.Mem(), Blocks(), ext;
      ListsArena();
      HeldNotFree(View(), nchains, o);
      ok := Enlist(ByOffset, x, o);
      if !ok { return; }
      ghost var a1 := fb.Mem();
      ListsArena();
      ok := Enlist(ByExtent, x, o);
      if !ok { return; }
      ListsArena();
      FrameWider(a0, a1, old(off.blocks), b0);
      FrameTrans(a0, a1, fb.Mem(), b0, ext0.blocks);
    }

    /** Count the region just put on the free lists. */
    method Enlisted(ghost o: int, ghost t: Table, ghost off0: Skip, ghost ext0: Skip)
      requires Separate() && Lists() && TableOk(View(), nchains)
      requires Whole(t, nalloc, nchains, off0, ext0, nfree, nempty) && o in t.m && t.m[o].kind == Held
      requires View() == t.(regs := rp[..]) && rp.Length == nalloc + RL_FREE_OVERHEAD
      requires Nodes(off) == Nodes(off0) + {t.m[o].slot} && |off.order| == |off0.order| + 1
      requires Nodes(ext) == Nodes(ext0) + {t.m[o].slot} && |ext.order| == |ext0.order| + 1
      modifies this`nfree, this`m, this`held
      ensures Structure() && m == old(m)[o := old(m)[o].(kind := Kind.Free)] && held == old(held) - {o}
              && nfree == old(nfree) + 1
    {
      hide Frame, Whole, TableOk, Nodes, SkipOk, FbOk, FreeBlock.Books, FreeBlock.Room;
      WholeParts(t, nalloc, nchains, off0, ext0, nfree, nempty);
      WholeReleased(t, View(), nalloc, nchains, off0, ext0, off, ext, nfree, nempty, o);
      nfree := nfree + 1;
      m := m[o := m[o].(kind := Kind.Free)];
      held := held - {o};
    }

    lemma ListsArena()
      requires Lists()
      ensures fb.Valid() && ArenaOk(fb.Mem()) && Blocks() <= fb.out && off.blocks !! ext.blocks
    {
      hide FbOk, ArenaOk, Linked, Sorted, FreeBlock.Books, FreeBlock.Room;
      SizeBounds(fb.View(), fb.maxsize, fb.arenaSz);
    }

    /** Insert a held region into one free list; the rest of the table does not notice. */
    method Enlist(ord: Order, x: int, ghost o: int) returns (ok: bool)
      requires Separate() && Lists() && TableOk(View(), nchains) && Nodes(List(ord)) <= FreeSlots(m)
      requires o in m && m[o].kind != Used && m[o].slot == x && x !in Nodes(List(ord))
      modifies this`levelFoff, this`levelFext, this`off, this`ext, rp
      modifies fb`avail, fb`outstanding, fb`size, fb`cuts, fb`peak, fb`out, fb`lists, fb.nfree, fb.free, fb.fblks
      ensures ok ==>
                && Lists() && TableOk(View(), nchains)
                && Nodes(List(ord)) == old(Nodes(List(ord))) + {x} && |List(ord).order| == |old(List(ord)).order| + 1
                && List(Other(ord)) == old(List(Other(ord))) && Level(Other(ord)) == old(Level(Other(ord)))
                && Frame(old(fb.Mem()), fb.Mem(), old(List(ord).blocks))
                && fb.out - Blocks() == old(fb.out - Blocks())
      ensures old(fb.Room()) > 0 ==> ok
      ensures old(fb.Room()) - 1 <= fb.Room()
    {
      hide SkipOk, FbOk, Frame, ArenaOk, TableOk, Nodes, FreeSlots, Fits, FreeBlock.Books, FreeBlock.Room;
      ghost var t0 := View();
      ghost var nb;
      RecordOf(t0, nchains, o);
      OutsideFits(t0, nchains, fb.Mem(), ord, List(ord), fb.maxsize, Level(ord), o);
      ok, nb := Insert(ord, x);
      if !ok { return; }
      LinkChanged(t0, nchains, ord, o, nb);
    }

    /** Take the free region `x` at offset `o` off both free lists. */
    method Withdraw(x: int, ghost o: int)
      requires Structure() && o in m && m[o].kind == Kind.Free && m[o].slot == x
      modifies this`levelFoff, this`levelFext, this`off, this`ext, this`nfree, this`m, this`held
      modifies fb`avail, fb`outstanding, fb`out, fb`lists, fb.nfree, fb.free, fb.fblks
      ensures Structure() && m == old(m)[o := old(m)[o].(kind := Held)] && held == old(held) + {o}
              && nfree == old(nfree) - 1
      ensures Kept(old(fb.Mem()), old(Blocks()), fb.Mem(), Blocks())
      ensures old(fb.Room()) <= fb.Room()
    {
      hide Lists, Frame, Whole, TableOk, Nodes, FreeSlots, FreeBlock.Books, FreeBlock.Room;
      WholeParts(View(), nalloc, nchains, off, ext, nfree, nempty);
      FreeIsListed(View(), nchains, o);
      ghost var t0, off0, ext0 := View(), off, ext;
      DeleteTwice(x);
      Withdrawn(o, t0, off0, ext0);
    }

    method DeleteTwice(x: int)
      requires Lists() && x in Nodes(off) && x in Nodes(ext)
      modifies this`levelFoff, this`levelFext, this`off, this`ext
      modifies fb`avail, fb`outstanding, fb`out, fb`lists, fb.nfree, fb.free, fb.fblks
      ensures Lists()
      ensures Nodes(off) == old(Nodes(off)) - {x} && |off.order| == |old(off).order| - 1
      ensures Nodes(ext) == old(Nodes(ext)) - {x} && |ext.order| == |old(ext).order| - 1
      ensures Kept(old(fb.Mem()), old(Blocks()), fb.Mem(), Blocks())
      ensures old(fb.Room()) <= fb.Room()
    {
      hide Lists, FbOk, SkipOk, Frame, ArenaOk, Nodes, FreeBlock.Books, FreeBlock.Room;
      ghost var a0, b0, ext0 := fb.Mem(), Blocks(), ext;
      ListsArena();
      Delete(ByOffset, x);
      ghost var a1 := fb.Mem();
      ListsArena();
      Delete(ByExtent, x);
      ListsArena();
      FrameWider(a0, a1, old(off.blocks), b0);
      FrameTrans(a0, a1, fb.Mem(), b0, ext0.blocks);
    }

    method Withdrawn(ghost o: int, ghost t: Table, ghost off0: Skip, ghost ext0: Skip)
      requires Separate() && Lists() && View() == t
      requires Whole(t, nalloc, nchains, off0, ext0, nfree, nempty) && o in t.m && t.m[o].kind == Kind.Free
      requires Nodes(off) == Nodes(off0) - {t.m[o].slot} && |off.order| == |off0.order| - 1
      requires Nodes(ext) == Nodes(ext0) - {t.m[o].slot} && |ext.order| == |ext0.order| - 1
      modifies this`nfree, this`m, this`held
      ensures Structure() && m == old(m)[o := old(m)[o].(kind := Held)] && held == old(held) + {o}
              && nfree == old(nfree) - 1
    {
      hide Frame, Whole, TableOk, Nodes, SkipOk, FbOk, FreeBlock.Books, FreeBlock.Room;
      WholeWithdrawn(t, nalloc, nchains, off0, ext0, off, ext, nfree, nempty, o);
      nfree := nfree - 1;
      m := m[o := m[o].(kind := Held)];
      held := held + {o};
    }

    /** The first unused record, if there is one, becomes the held region `offset`, `extent`. */
    method GetEmptyRegion(offset: int, extent: int) returns (x: int)
      requires Structure() && offset !in m
      requires 0 < offset < HUGE_OFF && 0 < extent < HUGE_EXT && extent % 2 == 0
      modifies this`empty, this`nempty, this`empties, this`m, this`held, rp
      ensures Structure() && (x == RL_NONE <==> old(nempty) == 0)
      ensures x == RL_NONE ==> m == old(m) && held == old(held) && nempty == old(nempty) && rp[..] == old(rp[..])
      ensures x != RL_NONE ==>
                && 0 <= x < rp.Length && m == old(m)[offset := Span(x, extent, Held)]
                && held == old(held) + {offset} && nempty == old(nempty) - 1
                && rp[x].offset == offset && rp[x].extent == extent
    {
      hide Structure, FbOk, Frame, SkipOk, FreeBlock.Books, FreeBlock.Room;
      EmptyHead();
      if empty == RL_NONE { return RL_NONE; }
      x := TakeEmpty(offset, extent);
    }

    method TakeEmpty(offset: int, extent: int) returns (x: int)
      requires Structure() && nempty > 0 && offset !in m
      requires 0 < offset < HUGE_OFF && 0 < extent < HUGE_EXT && extent % 2 == 0
      modifies this`empty, this`nempty, this`empties, this`m, this`held, rp
      ensures Structure() && 0 <= x && m == old(m)[offset := Span(x, extent, Held)]
      ensures held == old(held) + {offset} && nempty == old(nempty) - 1
      ensures 0 <= x < rp.Length && rp[x].offset == offset && rp[x].extent == extent
    {
      hide Frame, ArenaOk, Whole, TableOk, Nodes, SkipOk, FbOk, FreeSlots, FreeBlock.Books, FreeBlock.Room;
      ghost var t0 := View();
      WholeParts(t0, nalloc, nchains, off, ext, nfree, nempty);
      WholeTaken(t0, nalloc, nchains, off, ext, nfree, nempty, offset, extent);
      EmptyFacts(t0, nchains, 0);
      ListsUnlisted(empties[0]);
      x := empty;
      empty := rp[x].next;
      nempty := nempty - 1;
      rp[x] := rp[x].(offset := offset, extent := extent);
      empties := empties[1..];
      m := m[offset := Span(x, extent, Held)];
      held := held + {offset};
      assert View() == Taken(t0, offset, extent);
      ListsAfter(t0.regs, x);
    }

    /** A slot that is on neither free list. */
    lemma ListsUnlisted(x: int)
      requires Lists() && TableOk(View(), nchains) && RL_FREE_OVERHEAD <= x && x !in Nodes(off) && x !in Nodes(ext)
      ensures x !in off.order && x !in ext.order
    {
      NotListed(View(), nchains, fb.Mem(), ByOffset, off, fb.maxsize, levelFoff, x);
      NotListed(View(), nchains, fb.Mem(), ByExtent, ext, fb.maxsize, levelFext, x);
    }

    /** The lists after a change to the record of `x`, which is on neither. */
    lemma ListsAfter(regs: seq<Region>, x: int)
      requires fb.Valid() && x !in off.order && x !in ext.order && OnlyAt(regs, rp[..], x) && off.blocks !! ext.blocks
      requires SkipOk(fb.Mem(), Bases(ByOffset, regs), Keys(ByOffset, regs), off, fb.maxsize, levelFoff,
                      Head(ByOffset), Tail(ByOffset))
      requires SkipOk(fb.Mem(), Bases(ByExtent, regs), Keys(ByExtent, regs), ext, fb.maxsize, levelFext,
                      Head(ByExtent), Tail(ByExtent))
      ensures Lists()
    {
      hide FbOk, ArenaOk, SkipOk, FreeBlock.Books, FreeBlock.Room;
      SizeBounds(fb.View(), fb.maxsize, fb.arenaSz);
      ListKept(fb.Mem(), ByOffset, regs, rp[..], off, fb.maxsize, levelFoff);
      ListKept(fb.Mem(), ByExtent, regs, rp[..], ext, fb.maxsize, levelFext);
    }

    lemma ListsAfterLinks(regs: seq<Region>)
      requires fb.Valid() && off.blocks !! ext.blocks && rp.Length == |regs|
      requires forall j :: 0 <= j < |regs| && (j in off.order || j in ext.order) ==> rp[j] == regs[j]
      requires SkipOk(fb.Mem(), Bases(ByOffset, regs), Keys(ByOffset, regs), off, fb.maxsize, levelFoff,
                      Head(ByOffset), Tail(ByOffset))
      requires SkipOk(fb.Mem(), Bases(ByExtent, regs), Keys(ByExtent, regs), ext, fb.maxsize, levelFext,
                      Head(ByExtent), Tail(ByExtent))
      ensures Lists()
    {
      hide FbOk, ArenaOk, SkipOk, FreeBlock.Books, FreeBlock.Room;
      SizeBounds(fb.View(), fb.maxsize, fb.arenaSz);
      ListKept(fb.Mem(), ByOffset, regs, rp[..], off, fb.maxsize, levelFoff);
      ListKept(fb.Mem(), ByExtent, regs, rp[..], ext, fb.maxsize, levelFext);
    }

    /** Give up the held region of slot `x`: its record is unused again. */
    method ReleaseEmptyRegion(x: int, ghost o: int)
      requires Structure() && o in m && m[o].kind == Held && m[o].slot == x
      modifies this`empty, this`nempty, this`empties, this`m, this`held, rp
      ensures Structure() && m == old(m) - {o} && held == old(held) - {o} && nempty == old(nempty) + 1
    {
      hide Frame, ArenaOk, Whole, TableOk, Nodes, SkipOk, FbOk, FreeSlots, FreeBlock.Books, FreeBlock.Room;
      ghost var t0 := View();
      WholeParts(t0, nalloc, nchains, off, ext, nfree, nempty);
      WholeReturned(t0, nalloc, nchains, off, ext, nfree, nempty, o);
      RecordOf(t0, nchains, o);
      HeldNotFree(t0, nchains, o);
      ListsUnlisted(x);
      rp[x] := Region(-1, 0, empty, rp[x].prev);
      empty := x;
      nempty := nempty + 1;
      empties := [x] + empties;
      m := m - {o};
      held := held - {o};
      assert View() == Returned(t0, o);
      ListsAfter(t0.regs, x);
    }

    /** A new extent for a region that is not in use and not on the list by extent. */
    method Resize(x: int, extent: int, ghost o: int)
      requires Separate() && Lists() && TableOk(View(), nchains) && o in m && m[o].kind != Used && m[o].slot == x
      requires x !in ext.order && 0 < extent < HUGE_EXT && extent % 2 == 0
      modifies this`m, rp
      ensures Lists() && TableOk(View(), nchains) && m == old(m)[o := old(m)[o].(extent := extent)]
      ensures FreeSlots(m) == old(FreeSlots(m))
    {
      hide Frame, ArenaOk, TableOk, SkipOk, FbOk, FreeSlots, FreeBlock.Books, FreeBlock.Room;
      ghost var t0 := View();
      RecordOf(t0, nchains, o);
      ExtentChanged(t0, nchains, o, extent);
      SizeBounds(fb.View(), fb.maxsize, fb.arenaSz);
      rp[x] := rp[x].(extent := extent);
      m := m[o := m[o].(extent := extent)];
      assert rp[..] == t0.regs[x := t0.regs[x].(extent := extent)];
      ListKept(fb.Mem(), ByOffset, t0.regs, rp[..], off, fb.maxsize, levelFoff);
      ListKept(fb.Mem(), ByExtent, t0.regs, rp[..], ext, fb.maxsize, levelFext);
    }

    /** Change the extent of a free region, moving it in the list by extent. */
    method Regrow(x: int, extent: int, ghost o: int) returns (ok: bool)
      requires Structure() && o in m && m[o].kind == Kind.Free && m[o].slot == x
      requires 0 < extent < HUGE_EXT && extent % 2 == 0
      modifies this`levelFoff, this`levelFext, this`off, this`ext, this`m, rp
      modifies fb`avail, fb`outstanding, fb`size, fb`cuts, fb`peak, fb`out, fb`lists, fb.nfree, fb.free, fb.fblks
      ensures ok ==>
                && Structure() && m == old(m)[o := old(m)[o].(extent := extent)]
                && Kept(old(fb.Mem()), old(Blocks()), fb.Mem(), Blocks())
      ensures old(fb.Room()) > 0 ==> ok
      ensures old(fb.Room()) - 1 <= fb.Room()
    {
      hide Lists, Frame, Whole, TableOk, Nodes, FreeSlots, FreeBlock.Books, FreeBlock.Room;
      ghost var t0, off0, ext0 := View(), off, ext;
      WholeParts(t0, nalloc, nchains, off, ext, nfree, nempty);
      ok := MoveByExtent(x, extent, o);
      if ok { WholeRegrown(t0, View(), nalloc, nchains, off0, ext0, ext, nfree, nempty, o, extent); }
    }

    method MoveByExtent(x: int, extent: int, ghost o: int) returns (ok: bool)
      requires Separate() && Lists() && TableOk(View(), nchains) && Nodes(off) == FreeSlots(m)
               && Nodes(ext) == FreeSlots(m)
      requires o in m && m[o].kind == Kind.Free && m[o].slot == x && 0 < extent < HUGE_EXT && extent % 2 == 0
      modifies this`levelFoff, this`levelFext, this`off, this`ext, this`m, rp
      modifies fb`avail, fb`outstanding, fb`size, fb`cuts, fb`peak, fb`out, fb`lists, fb.nfree, fb.free, fb.fblks
      ensures ok ==>
                && Lists() && TableOk(View(), nchains) && m == old(m)[o := old(m)[o].(extent := extent)]
                && off == old(off) && FreeSlots(m) == old(FreeSlots(m))
                && Nodes(ext) == old(Nodes(ext)) - {x} + {x} && |ext.order| == |old(ext).order|
                && Kept(old(fb.Mem()), old(Blocks()), fb.Mem(), Blocks())
      ensures old(fb.Room()) > 0 ==> ok
      ensures old(fb.Room()) - 1 <= fb.Room()
    {
      hide Lists, Frame, ArenaOk, TableOk, Nodes, FreeSlots, FreeBlock.Books, FreeBlock.Room;
      ghost var a0, b0 := fb.Mem(), Blocks();
      ListsArena();
      Loosen(x, extent, o);
      ghost var a1, b1 := fb.Mem(), ext.blocks;
      ListsArena();
      ok := Enlist(ByExtent, x, o);
      if !ok { return; }
      ListsArena();
      FrameTrans(a0, a1, fb.Mem(), b0, b1);
    }

    /** Take a free region off the list by extent and change its extent. */
    method Loosen(x: int, extent: int, ghost o: int)
      requires Separate() && Lists() && TableOk(View(), nchains) && Nodes(off) == FreeSlots(m)
               && Nodes(ext) == FreeSlots(m)
      requires o in m && m[o].kind == Kind.Free && m[o].slot == x && 0 < extent < HUGE_EXT && extent % 2 == 0
      modifies this`levelFoff, this`levelFext, this`off, this`ext, this`m, rp
      modifies fb`avail, fb`outstanding, fb`out, fb`lists, fb.nfree, fb.free, fb.fblks
      ensures Lists() && TableOk(View(), nchains) && m == old(m)[o := old(m)[o].(extent := extent)]
      ensures off == old(off) && levelFoff == old(levelFoff) && FreeSlots(m) == old(FreeSlots(m))
      ensures Nodes(ext) == old(Nodes(ext)) - {x} && |ext.order| == |old(ext).order| - 1
              && ext.blocks <= old(ext.blocks)
      ensures Kept(old(fb.Mem()), old(Blocks()), fb.Mem(), Blocks())
      ensures old(fb.Room()) <= fb.Room()
    {
      hide Lists, Frame, ArenaOk, TableOk, Nodes, FreeSlots, FreeBlock.Books, FreeBlock.Room;
      ghost var a0, b0, ext0 := fb.Mem(), Blocks(), ext;
      FreeIsListed(View(), nchains, o);
      RecordOf(View(), nchains, o);
      ListsArena();
      Delete(ByExtent, x);
      FrameWider(a0, fb.Mem(), ext0.blocks, b0);
      ListsNotExt(x);
      Resize(x, extent, o);
    }

    lemma ListsNotExt(x: int)
      requires Lists() && TableOk(View(), nchains) && RL_FREE_OVERHEAD <= x && x !in Nodes(ext)
      ensures x !in ext.order
    {
      NotListed(View(), nchains, fb.Mem(), ByExtent, ext, fb.maxsize, levelFext, x);
    }

    /** Mark the held region of slot `x` as in use and put it first in its hash chain. */
    method EnterHash(x: int, ghost o: int)
      requires Structure() && o in m && m[o].kind == Held && m[o].slot == x
      modifies this`buckets, this`where, this`m, this`held, rp, chains
      ensures Structure() && m == old(m)[o := old(m)[o].(kind := Used)]
      ensures where == old(where)[o := x] && held == old(held) - {o}
      ensures fb.Mem() == old(fb.Mem()) && fb.Room() == old(fb.Room())
    {
      hide Frame, ArenaOk, Whole, TableOk, Nodes, SkipOk, FbOk, FreeSlots, HashOffset, Chain, Backed;
      hide FreeBlock.Books, FreeBlock.Room;
      ghost var t0 := View();
      WholeParts(t0, nalloc, nchains, off, ext, nfree, nempty);
      WholeHashed(t0, nalloc, nchains, off, ext, nfree, nempty, o);
      RecordOf(t0, nchains, o);
      HeldNotFree(t0, nchains, o);
      ListsUnlisted(x);
      ghost var h := HashOffset(o, nchains);
      BucketFacts(t0, nchains, h);
      NotChained(t0, nchains, o);
      ChainUnlisted(t0, nchains, fb.Mem(), ByOffset, off, fb.maxsize, levelFoff, h);
      ChainUnlisted(t0, nchains, fb.Mem(), ByExtent, ext, fb.maxsize, levelFext, h);
      EnterChain(x, o);
      ListsAfterLinks(t0.regs);
    }

    method EnterChain(x: int, ghost o: int)
      requires 0 < nchains == chains.Length == |buckets| && o in m && m[o].slot == x && x < rp.Length
               && rp[x].offset == o
      requires chains[HashOffset(o, nchains)] == RL_NONE || 0 <= chains[HashOffset(o, nchains)] < rp.Length
      requires chains[HashOffset(o, nchains)] != x
      modifies this`buckets, this`where, this`m, this`held, rp, chains
      ensures View() == Hashed(old(View()), nchains, o)
    {
      hide HashOffset, FreeBlock.Books, FreeBlock.Room;
      ghost var t0 := View();
      rp[x] := rp[x].SetAlloc();
      var h := HashOffset(rp[x].offset, nchains);
      var next := chains[h];
      if next != RL_NONE { rp[next] := rp[next].(prev := x); }
      rp[x] := rp[x].(next := next, prev := RL_NONE);
      chains[h] := x;
      buckets := buckets[h := [x] + buckets[h]];
      where := where[o := x];
      m := m[o := m[o].(kind := Used)];
      held := held - {o};
      assert rp[..] == Hashed(t0, nchains, o).regs;
    }

    /** Take the region of slot `x` out of use: out of its hash chain, and held. */
    method RemoveFromHash(x: int, ghost o: int)
      requires Structure() && o in m && m[o].kind == Used && m[o].slot == x
      modifies this`buckets, this`where, this`m, this`held, rp, chains
      ensures Structure() && m == old(m)[o := old(m)[o].(kind := Held)]
      ensures where == old(where) - {o} && held == old(held) + {o}
      ensures fb.Mem() == old(fb.Mem()) && fb.Room() == old(fb.Room())
    {
      hide Frame, ArenaOk, Whole, TableOk, Nodes, SkipOk, FbOk, FreeSlots, HashOffset, Chain, Backed, After, Before;
      hide FreeBlock.Books, FreeBlock.Room;
      ghost var t0 := View();
      WholeParts(t0, nalloc, nchains, off, ext, nfree, nempty);
      ghost var i := ChainPlace(t0, nchains, o);
      WholeUnhashed(t0, nalloc, nchains, off, ext, nfree, nempty, o, i);
      ghost var h := HashOffset(o, nchains);
      BucketFacts(t0, nchains, h);
      ChainUnlisted(t0, nchains, fb.Mem(), ByOffset, off, fb.maxsize, levelFoff, h);
      ChainUnlisted(t0, nchains, fb.Mem(), ByExtent, ext, fb.maxsize, levelFext, h);
      LeaveChain(x, o, i);
      RelinkedOnly(t0.regs, t0.buckets[h], i);
      ListsAfterLinks(t0.regs);
    }

    method LeaveChain(x: int, ghost o: int, ghost i: nat)
      requires 0 < nchains == chains.Length == |buckets| && o in m && m[o].slot == x && x < rp.Length
               && rp[x].offset == o
      requires var b := buckets[HashOffset(o, nchains)];
               && i < |b| && b[i] == x && rp[x].prev == Before(b, i) && rp[x].next == After(b, i)
               && (forall j :: 0 <= j < |b| ==> 0 <= b[j] < rp.Length)
               && forall j, k :: 0 <= j < k < |b| ==> b[j] != b[k]
      modifies this`buckets, this`where, this`m, this`held, rp, chains
      ensures View() == Unhashed(old(View()), nchains, o, i)
    {
      hide HashOffset, FreeBlock.Books, FreeBlock.Room;
      ghost var t0 := View();
      ghost var g := HashOffset(o, nchains);
      assert i > 0 ==> buckets[g][i - 1] != x;
      assert i + 1 < |buckets[g]| ==> buckets[g][i + 1] != x;
      rp[x] := rp[x].ClearAlloc();
      var prev, next := rp[x].prev, rp[x].next;
      if prev != RL_NONE {
        rp[prev] := rp[prev].(next := next);
      } else {
        var h := HashOffset(rp[x].offset, nchains);
        chains[h] := next;
      }
      if next != RL_NONE { rp[next] := rp[next].(prev := prev); }
      buckets := buckets[g := RemoveAt(buckets[g], i)];
      where := where - {o};
      m := m[o := m[o].(kind := Held)];
      held := held + {o};
      assert rp[..] == Unhashed(t0, nchains, o, i).regs;
    }

    /** Follow the hash chain of an offset. */
    method Find(offset: int) returns (x: int)
      requires Valid()
      ensures x != RL_NONE <==> offset in where
      ensures x != RL_NONE ==>
                x == where[offset] && 0 <= x < rp.Length && offset in m && m[offset].kind == Used
                && m[offset].slot == x
    {
      hide Chained, Placed, EmptyOk, MapOk, HashOffset, Lists, Settled, Counted, Nodes, FreeSlots;
      hide FreeBlock.Books, FreeBlock.Room;
      InUse(offset);
      ghost var t := View();
      var h := HashOffset(offset, nchains);
      BucketFacts(t, nchains, h);
      ghost var b := buckets[h];
      x := chains[h];
      ghost var i := 0;
      while x != RL_NONE
        invariant 0 <= i <= |b| && x == (if i < |b| then b[i] else RL_NONE)
        invariant forall j :: 0 <= j < i ==> rp[b[j]].offset != offset
        decreases |b| - i
      {
        if rp[x].offset == offset {
          FoundInUse(t, nchains, h, i);
          return;
        }
        S.ChainAt(Nexts(t.regs), t.chains[h], b, i);
        x, i := rp[x].next, i + 1;
      }
      NotInUse(t, nchains, offset);
    }

    /** Two adjacent free regions become one: `keep` grows over `drop`, whose record is unused from then on. */
    method Merge(keep: int, drop: int, ghost k: int, ghost d: int) returns (ok: bool)
      requires Structure() && FreeAt(m, k, keep) && FreeAt(m, d, drop) && Adjacent(m, k, d)
      modifies this`levelFoff, this`levelFext, this`off, this`ext, this`m, this`held, this`nfree, this`empty,
               this`nempty, this`empties, rp
      modifies fb`avail, fb`outstanding, fb`size, fb`cuts, fb`peak, fb`out, fb`lists, fb.nfree, fb.free, fb.fblks
      ensures ok ==>
                && Structure() && IsMerged(old(m), k, d, m) && held == old(held) - {d} && nempty == old(nempty) + 1
                && Kept(old(fb.Mem()), old(Blocks()), fb.Mem(), Blocks())
      ensures old(fb.Room()) > 0 ==> ok
      ensures old(fb.Room()) - 1 <= fb.Room()
    {
      hide Structure, Kept, ArenaOk, FbOk, Frame, SkipOk, FreeBlock.Books, FreeBlock.Room;
      ghost var a0, b0 := fb.Mem(), Blocks();
      StructureArena();
      ok := Widen(keep, drop, k, d);
      if !ok { return; }
      ghost var a1, b1 := fb.Mem(), Blocks();
      StructureArena();
      Discard(drop, d);
      StructureArena();
      KeptTrans(a0, b0, a1, b1, fb.Mem(), Blocks());
    }

    /** `keep` grows over `drop`. */
    method Widen(keep: int, drop: int, ghost k: int, ghost d: int) returns (ok: bool)
      requires Structure() && FreeAt(m, k, keep) && FreeAt(m, d, drop) && Adjacent(m, k, d)
      modifies this`levelFoff, this`levelFext, this`off, this`ext, this`m, rp
      modifies fb`avail, fb`outstanding, fb`size, fb`cuts, fb`peak, fb`out, fb`lists, fb.nfree, fb.free, fb.fblks
      ensures ok ==>
                && Structure() && m == old(m)[k := old(m)[k].(extent := old(m)[k].extent + old(m)[d].extent)]
                && Kept(old(fb.Mem()), old(Blocks()), fb.Mem(), Blocks())
      ensures old(fb.Room()) > 0 ==> ok
      ensures old(fb.Room()) - 1 <= fb.Room()
    {
      hide Structure, FbOk, Frame, SkipOk, Kept, ArenaOk, FreeBlock.Books, FreeBlock.Room;
      StructureRecord(k);
      StructureRecord(d);
      MergedExtent(rp[..], m, k, d);
      ok := Regrow(keep, rp[keep].extent + rp[drop].GetExtent(), k);
    }

    /** A free region is no more: off the free lists, its record unused. */
    method Discard(x: int, ghost d: int)
      requires Structure() && FreeAt(m, d, x)
      modifies this`levelFoff, this`levelFext, this`off, this`ext, this`m, this`held, this`nfree, this`empty,
               this`nempty, this`empties, rp
      modifies fb`avail, fb`outstanding, fb`out, fb`lists, fb.nfree, fb.free, fb.fblks
      ensures Structure() && m == old(m) - {d} && held == old(held) - {d} && nempty == old(nempty) + 1
      ensures Kept(old(fb.Mem()), old(Blocks()), fb.Mem(), Blocks())
      ensures old(fb.Room()) <= fb.Room()
    {
      hide Structure, FbOk, Frame, SkipOk, Kept, ArenaOk, FreeBlock.Books, FreeBlock.Room;
      Withdraw(x, d);
      ReleaseEmptyRegion(x, d);
    }

    lemma StructureRecord(o: int)
      requires Structure() && o in m
      ensures Filed(rp[..], o, m[o]) && (o in held <==> m[o].kind == Held) && ArenaOk(fb.Mem()) && Blocks() <= fb.out
    {
      hide TableOk, Nodes, FreeSlots, Lists, ArenaOk, FreeBlock.Books, FreeBlock.Room;
      RecordOf(View(), nchains, o);
      KindOf(View(), nchains, o);
      ListsArena();
    }

    /** The next free region to the right, or the tail. */
    method GetNextOffset(x: int, ghost o: int) returns (y: int)
      requires Structure() && Tiled(m, lo, hi) && FreeAt(m, o, x)
      ensures 0 <= y < rp.Length && RightOf(m, o, y, rp[y].offset)
    {
      hide TableOk, Nodes, FreeSlots, FbOk, Tiled, SkipOk, RightOf, FreeBlock.Books, FreeBlock.Room;
      WholeParts(View(), nalloc, nchains, off, ext, nfree, nempty);
      RecordOf(View(), nchains, o);
      FreeIsListed(View(), nchains, o);
      ghost var j := PlaceOf(off, x);
      NextRight(fb.Mem(), rp[..], off, fb.maxsize, levelFoff, j);
      RightNeighbour(View(), nchains, fb.Mem(), off, fb.maxsize, levelFoff, lo, hi, o, j);
      y := fb.fblks[rp[x].next];
    }

    /** The next free region to the left, or the head. */
    method GetPrevOffset(x: int, ghost o: int) returns (y: int)
      requires Structure() && Tiled(m, lo, hi) && FreeAt(m, o, x)
      ensures 0 <= y < rp.Length && LeftOf(m, o, y, rp[y].offset)
    {
      hide TableOk, Nodes, FreeSlots, FbOk, Tiled, SkipOk, Probe, LeftOf, FreeBlock.Books, FreeBlock.Room;
      WholeParts(View(), nalloc, nchains, off, ext, nfree, nempty);
      RecordOf(View(), nchains, o);
      FreeIsListed(View(), nchains, o);
      ghost var j := PlaceOf(off, x);
      DeleteKey(fb.Mem(), ByOffset, rp[..], off, fb.maxsize, levelFoff, j);
      var update, sq, at, c, w := Search(ByOffset, KeyIn(ByOffset, rp[x]));
      DeletePlace(ByOffset, rp[..], off, levelFoff, j, w, c, update, at);
      BottomPassed(Keys(ByOffset, rp[..]), off, levelFoff, KeyIn(ByOffset, rp[x]), w, c, update, at, fb.Mem(),
                   Bases(ByOffset, rp[..]), fb.maxsize, RL_FOFF_HD, RL_FOFF_TL);
      LeftNeighbour(View(), nchains, fb.Mem(), off, fb.maxsize, levelFoff, lo, hi, o, j);
      y := update[0];
    }

    /**
     A region just put on the free lists swallows its free neighbours: the one to its right first, then the one to
     its left swallows the result.
     */
    method Consolidate(x: int, ghost c: int) returns (ok: bool)
      requires Structure() && FreeAt(m, c, x) && Loose(m, lo, hi, c, maxfextent)
      modifies this`levelFoff, this`levelFext, this`off, this`ext, this`m, this`held, this`nfree, this`maxfextent
      modifies this`empty, this`nempty, this`empties, rp
      modifies fb`avail, fb`outstanding, fb`size, fb`cuts, fb`peak, fb`out, fb`lists, fb.nfree, fb.free, fb.fblks
      ensures ok ==>
                && Structure() && Settled(m, lo, hi, maxfextent) && SameTaken(old(m), m) && nempty >= old(nempty)
                && Kept(old(fb.Mem()), old(Blocks()), fb.Mem(), Blocks())
      ensures old(fb.Room()) > 1 ==> ok
      ensures old(fb.Room()) - 2 <= fb.Room()
    {
      hide Structure, FbOk, Frame, SkipOk, Kept, ArenaOk, Loose, LooseLeft, Settled, FreeAt, RightOf, LeftOf, SameTaken;
      hide FreeBlock.Books, FreeBlock.Room;
      ghost var m0, a0, b0 := m, fb.Mem(), Blocks();
      LooseTiled(m, lo, hi, c, maxfextent);
      StructureArena();
      var right := GetNextOffset(x, c);
      var left := GetPrevOffset(x, c);
      ghost var l := rp[left].offset;
      ok := MergeRight(x, right, left, c, l);
      if !ok { return; }
      ghost var m1, a1, b1 := m, fb.Mem(), Blocks();
      StructureArena();
      ok := MergeLeft(x, left, c, l);
      if !ok { return; }
      StructureArena();
      KeptTrans(a0, b0, a1, b1, fb.Mem(), Blocks());
      SameTakenTrans(m0, m1, m);
    }

    method MergeRight(x: int, right: int, left: int, ghost c: int, ghost l: int) returns (ok: bool)
      requires Structure() && FreeAt(m, c, x) && Loose(m, lo, hi, c, maxfextent)
      requires 0 <= right < rp.Length && RightOf(m, c, right, rp[right].offset) && LeftOf(m, c, left, l)
      modifies this`levelFoff, this`levelFext, this`off, this`ext, this`m, this`held, this`nfree, this`empty,
               this`nempty, this`empties, rp
      modifies fb`avail, fb`outstanding, fb`size, fb`cuts, fb`peak, fb`out, fb`lists, fb.nfree, fb.free, fb.fblks
      ensures ok ==>
                && Structure() && FreeAt(m, c, x) && LooseLeft(m, lo, hi, c, maxfextent) && LeftOf(m, c, left, l)
                && SameTaken(old(m), m) && nempty >= old(nempty)
                && Kept(old(fb.Mem()), old(Blocks()), fb.Mem(), Blocks())
      ensures old(fb.Room()) > 0 ==> ok
      ensures old(fb.Room()) - 1 <= fb.Room()
    {
      hide Structure, FbOk, Frame, SkipOk, Kept, ArenaOk, Loose, LooseLeft, LeftOf, SameTaken, FreeBlock.Books;
      hide FreeBlock.Room;
      StructureArena();
      StructureRecord(c);
      ok := true;
      if right != RL_FOFF_TL && rp[x].offset + rp[x].GetExtent() == rp[right].offset {
        LooseRight(m, lo, hi, c, maxfextent, left, l);
        ok := Merge(x, right, c, c + m[c].extent);
      } else {
        LooseNoRight(m, lo, hi, c, maxfextent);
        KeptSame(fb.Mem(), Blocks());
      }
    }

    method MergeLeft(x: int, left: int, ghost c: int, ghost l: int) returns (ok: bool)
      requires Structure() && FreeAt(m, c, x) && LooseLeft(m, lo, hi, c, maxfextent) && LeftOf(m, c, left, l)
      modifies this`levelFoff, this`levelFext, this`off, this`ext, this`m, this`held, this`nfree, this`maxfextent
      modifies this`empty, this`nempty, this`empties, rp
      modifies fb`avail, fb`outstanding, fb`size, fb`cuts, fb`peak, fb`out, fb`lists, fb.nfree, fb.free, fb.fblks
      ensures ok ==>
                && Structure() && Settled(m, lo, hi, maxfextent) && SameTaken(old(m), m) && nempty >= old(nempty)
                && Kept(old(fb.Mem()), old(Blocks()), fb.Mem(), Blocks())
      ensures old(fb.Room()) > 0 ==> ok
      ensures old(fb.Room()) - 1 <= fb.Room()
    {
      hide Structure, FbOk, Frame, SkipOk, Kept, ArenaOk, LooseLeft, Settled, SameTaken, FreeBlock.Books;
      hide FreeBlock.Room;
      StructureArena();
      StructureRecord(c);
      var rep := x;
      ok := true;
      if left != RL_FOFF_HD { StructureRecord(l); }
      if left != RL_FOFF_HD && rp[left].offset + rp[left].GetExtent() == rp[x].offset {
        LooseMergeLeft(m, lo, hi, c, l, maxfextent);
        ok := Merge(left, x, l, c);
        if !ok { return; }
        rep := left;
        StructureRecord(l);
      } else {
        LooseToSettled(m, lo, hi, c, maxfextent);
        KeptSame(fb.Mem(), Blocks());
      }
      if rp[rep].GetExtent() > maxfextent { SetMax(rp[rep].GetExtent()); }
    }

    method SetMax(extent: int)
      requires Structure()
      modifies this`maxfextent
      ensures Structure() && maxfextent == extent
    {
      hide Lists, Whole, FreeBlock.Books, FreeBlock.Room;
      maxfextent := extent;
    }

    lemma StructureArena()
      requires Structure()
      ensures fb.Valid() && ArenaOk(fb.Mem()) && Blocks() <= fb.out && rp.Length == nalloc + RL_FREE_OVERHEAD
    {
      hide TableOk, Nodes, FreeSlots, Lists, ArenaOk, FreeBlock.Books, FreeBlock.Room;
      ListsArena();
    }

    /**
     The invariant between operations: the structure is intact, the regions tile the data section with no two free
     ones adjacent, `maxfextent` is the largest free extent, and the counters of the regions and bytes in use are right.
     */
    ghost predicate Valid()
      reads this, rp, chains, fb, fb.nfree, fb.free, fb.fblks
    {
      Structure() && Settled(m, lo, hi, maxfextent) && Counted(m, nelems, |where| + |held|, nbytes + untracked)
          && nbytes <= maxbytes && 0 < lo && hi < HUGE_OFF
    }

    /** The arena words spell out both free lists. */
    ghost predicate Strung(a: Arena)
      reads this, rp
    {
      Threads(ByOffset, a) && Threads(ByExtent, a) && off.blocks !! ext.blocks
    }

    /** The part of the invariant that does not depend on the arena. */
    ghost predicate Still()
      reads this, rp, chains
    {
      && Separate() && Whole(View(), nalloc, nchains, off, ext, nfree, nempty)
      && Settled(m, lo, hi, maxfextent) && Counted(m, nelems, |where| + |held|, nbytes + untracked) && 0 < lo
      && nbytes <= maxbytes && hi < HUGE_OFF
    }

    lemma Pieces()
      ensures Valid() <==> fb.Valid() && Strung(fb.Mem()) && Still()
    {
      hide FbOk, SkipOk, Whole, Settled, Counted, FreeBlock.Books, FreeBlock.Room;
    }

    /** The arena blocks of both free lists: one for each node and each sentinel. */
    lemma BlockCount()
      requires Valid()
      ensures Blocks() <= fb.out && |Blocks()| == 2 * (nfree + 2)
    {
      hide TableOk, FbOk, Settled, Linked, Sorted, Nodes, FreeSlots, FreeBlock.Books, FreeBlock.Room;
      assert |off.blocks + ext.blocks| == |off.blocks| + |ext.blocks|;
    }

    /** Both free lists survive a change to other blocks of the arena. */
    lemma Survives(a: Arena, own: set<int>, a': Arena, own': set<int>)
      requires Strung(a) && ArenaOk(a) && ArenaOk(a') && Kept(a, own, a', own') && own !! Blocks()
      ensures Strung(a') && own' !! Blocks()
    {
      hide SkipOk, ArenaOk, Frame, FreeBlock.Books, FreeBlock.Room;
      SurvivesIn(ByOffset, a, own, a', own');
      SurvivesIn(ByExtent, a, own, a', own');
    }

    lemma SurvivesIn(ord: Order, a: Arena, own: set<int>, a': Arena, own': set<int>)
      requires Threads(ord, a) && ArenaOk(a) && ArenaOk(a') && Kept(a, own, a', own') && own !! List(ord).blocks
      ensures Threads(ord, a') && own' !! List(ord).blocks
    {
      hide SkipOk, ArenaOk, Frame, FreeBlock.Books, FreeBlock.Room;
      var bs, ks, s := Bases(ord, rp[..]), Keys(ord, rp[..]), List(ord);
      NodesSame(a, bs, ks, bs, ks, s, fb.maxsize, Level(ord), Head(ord), Tail(ord));
      SkipSurvives(a, a', bs, ks, bs, ks, s, fb.maxsize, Level(ord), Head(ord), Tail(ord), own);
    }

    /** What the table says about an offset. */
    lemma InUse(o: int)
      requires Valid()
      ensures TableOk(View(), nchains)
      ensures o in where <==> o in m && m[o].kind == Used
      ensures o in where ==>
                0 < o && where[o] == m[o].slot < rp.Length && rp[where[o]].offset == o
                && rp[where[o]].GetExtent() == m[o].extent && rp[where[o]].IsAlloc()
      ensures o in held <==> o in m && m[o].kind == Held
    {
      hide TableOk, Lists, Settled, Counted, FreeBlock.Books, FreeBlock.Room;
      StructureKinds();
      if o in m { StructureRecord(o); }
    }

    lemma Counters()
      requires Valid()
      ensures nelems == |where| + |held| && nelems + nfree + nempty == nalloc && 0 <= nempty && 0 <= nfree
      ensures Settled(m, lo, hi, maxfextent) && 0 < lo && hi < HUGE_OFF
    {
      hide TableOk, FbOk, Settled, BlocksOk, Linked, Sorted, FreeBlock.Books, FreeBlock.Room;
    }

    lemma Bytes()
      requires Valid()
      ensures nbytes + untracked == UsedBytes(m)
    {
      hide Structure, FbOk, Frame, SkipOk, Settled, FreeBlock.Books, FreeBlock.Room;
    }

    /** With nothing in use and nothing held, the whole section is one free region. */
    lemma NothingUsed()
      requires Valid() && where == map[] && held == {}
      ensures m.Keys == {lo} && m[lo].kind == Kind.Free && m[lo].extent == hi - lo && nempty == nalloc - 1
    {
      hide Lists, TableOk, Settled, Nodes, FreeSlots, FreeBlock.Books, FreeBlock.Room;
      StructureKinds();
      NothingUsedFree(m, where, held);
      OnlyRegion(m, lo, hi, maxfextent);
      OneNode();
    }

    lemma OneNode()
      requires Structure() && lo in m && m.Keys == {lo} && m[lo].kind == Kind.Free
      ensures nfree == 1
    {
      hide TableOk, FbOk, Nodes, FreeBlock.Books, FreeBlock.Room;
      assert FreeSlots(m) == {m[lo].slot};
      OneInOrder(fb.Mem(), Bases(ByOffset, rp[..]), Keys(ByOffset, rp[..]), off, fb.maxsize, levelFoff, m[lo].slot);
    }

    /** Exact best fit: take the smallest free region that can hold `extent`, the leftmost one of several. */
    method Get(extent: int) returns (x: int, ghost o: int)
      requires Valid() && 0 <= extent
      modifies this`levelFoff, this`levelFext, this`off, this`ext, this`m, this`held, this`nfree, this`maxfextent,
               this`nelems
      modifies fb`avail, fb`outstanding, fb`out, fb`lists, fb.nfree, fb.free, fb.fblks
      ensures Valid() && Kept(old(fb.Mem()), old(Blocks()), fb.Mem(), Blocks()) && old(fb.Room()) <= fb.Room()
      ensures x == RL_NONE <==> NoneFits(old(m), extent)
      ensures x == RL_NONE ==>
                m == old(m) && held == old(held) && fb.Mem() == old(fb.Mem())
                && fb.Room() == old(fb.Room()) && nelems == old(nelems)
      ensures x != RL_NONE ==> Chosen(old(m), extent, o, x, m) && held == old(held) + {o} && nelems == old(nelems) + 1
    {
      hide Structure, FbOk, Frame, SkipOk, Kept, ArenaOk, BestFit, NoneFits, Settled, Counted, FreeBlock.Books;
      hide FreeBlock.Room;
      StructureArena();
      KeptSame(fb.Mem(), Blocks());
      o := 0;
      MaxBounds(m, lo, hi, maxfextent, extent);
      if extent > maxfextent { return RL_NONE, o; }
      x, o := FindExtent(extent);
      if x == RL_FEXT_TL { return RL_NONE, o; }
      BestFits(m, extent, o);
      TakeBest(x, o);
    }

    /** Take the free region `x` off the free lists and keep `maxfextent` the largest extent left. */
    method TakeBest(x: int, ghost o: int)
      requires Valid() && FreeAt(m, o, x)
      modifies this`levelFoff, this`levelFext, this`off, this`ext, this`m, this`held, this`nfree, this`maxfextent,
               this`nelems
      modifies fb`avail, fb`outstanding, fb`out, fb`lists, fb.nfree, fb.free, fb.fblks
      ensures Valid() && Kept(old(fb.Mem()), old(Blocks()), fb.Mem(), Blocks()) && old(fb.Room()) <= fb.Room()
      ensures m == WithKind(old(m), o, Held) && held == old(held) + {o} && nelems == old(nelems) + 1
    {
      hide Structure, FbOk, Frame, SkipOk, Kept, ArenaOk, Tiled, Spread, MaxFree, UsedBytes, FreeBlock.Books;
      hide FreeBlock.Room;
      StructureArena();
      StructureRecord(o);
      TakenSettled(m, lo, hi, o, maxfextent, held);
      Withdraw(x, o);
      RenewMax(rp[x].GetExtent());
      CountElement();
    }

    /** A free region of that extent is gone: look for the largest one left if it was the largest. */
    method RenewMax(extent: int)
      requires Structure() && (extent != maxfextent ==> MaxFree(m, maxfextent))
      modifies this`maxfextent
      ensures Structure() && MaxFree(m, maxfextent)
    {
      hide Structure, FbOk, Frame, SkipOk, MaxFree, FreeBlock.Books, FreeBlock.Room;
      if extent == maxfextent {
        var max := RecalculateMaxFreeExtent();
        SetMax(max);
      }
    }

    /** The first node of the list by extent that can hold `extent`, or the tail. */
    method FindExtent(extent: int) returns (x: int, ghost o: int)
      requires Structure() && 0 <= extent < HUGE_EXT
      ensures x == RL_FEXT_TL <==> NoneFits(m, extent)
      ensures x != RL_FEXT_TL ==> BestFit(m, extent, o) && FreeAt(m, o, x)
    {
      hide TableOk, Nodes, FreeSlots, FbOk, SkipOk, Probe, BestFit, NoneFits, FreeBlock.Books, FreeBlock.Room;
      WholeParts(View(), nalloc, nchains, off, ext, nfree, nempty);
      TailKeys(View(), nchains);
      var update, sq, at, c, w := Search(ByExtent, Key(extent, -1));
      BestFound(View(), nchains, fb.Mem(), ext, fb.maxsize, levelFext, extent, w, c, update, at);
      x, o := sq, rp[sq].offset;
    }

    /** The largest free extent: that of the last node of the list by extent. */
    method RecalculateMaxFreeExtent() returns (r: int)
      requires Structure()
      ensures MaxFree(m, r)
    {
      hide TableOk, Nodes, FreeSlots, FbOk, SkipOk, Probe, MaxFree, FreeBlock.Books, FreeBlock.Room;
      WholeParts(View(), nalloc, nchains, off, ext, nfree, nempty);
      TailKeys(View(), nchains);
      var update, sq, at, c, w := Search(ByExtent, KeyIn(ByExtent, rp[RL_FEXT_TL]));
      BottomPassed(Keys(ByExtent, rp[..]), ext, levelFext, KeyIn(ByExtent, rp[RL_FEXT_TL]), w, c, update, at, fb.Mem(),
                   Bases(ByExtent, rp[..]), fb.maxsize, RL_FEXT_HD, RL_FEXT_TL);
      MaxFound(View(), nchains, fb.Mem(), ext, fb.maxsize, levelFext, w, c, update, at);
      r := rp[update[0]].GetExtent();
    }

    /** Put a held region back: on the free lists, merged with its free neighbours. */
    method Put(x: int, ghost o: int) returns (ok: bool)
      requires Valid() && HeldAt(m, o, x)
      modifies this`levelFoff, this`levelFext, this`off, this`ext, this`m, this`held, this`nfree, this`maxfextent,
               this`nelems
      modifies this`empty, this`nempty, this`empties, rp
      modifies fb`avail, fb`outstanding, fb`size, fb`cuts, fb`peak, fb`out, fb`lists, fb.nfree, fb.free, fb.fblks
      ensures ok ==>
                && Valid() && SameTaken(WithKind(old(m), o, Kind.Free), m) && held == old(held) - {o}
                && nelems == old(nelems) - 1
                && nempty >= old(nempty)
                && Kept(old(fb.Mem()), old(Blocks()), fb.Mem(), Blocks())
      ensures old(fb.Room()) > 3 ==> ok
      ensures old(fb.Room()) - 4 <= fb.Room()
    {
      hide Structure, FbOk, Frame, SkipOk, Kept, ArenaOk, Settled, UsedBytes, SameTaken, FreeBlock.Books;
      hide FreeBlock.Room;
      StructureRecord(o);
      ghost var m0 := m;
      UncountElement();
      ok := Reinstate(x, o);
      if ok { PutCounted(m0, m, o, old(held)); }
    }

    /** `Put`, before the region is counted out. */
    method Reinstate(x: int, ghost o: int) returns (ok: bool)
      requires Structure() && Settled(m, lo, hi, maxfextent) && HeldAt(m, o, x)
      modifies this`levelFoff, this`levelFext, this`off, this`ext, this`m, this`held, this`nfree, this`maxfextent
      modifies this`empty, this`nempty, this`empties, rp
      modifies fb`avail, fb`outstanding, fb`size, fb`cuts, fb`peak, fb`out, fb`lists, fb.nfree, fb.free, fb.fblks
      ensures ok ==>
                && Structure() && Settled(m, lo, hi, maxfextent) && SameTaken(WithKind(old(m), o, Kind.Free), m)
                && held == old(held) - {o}
                && nempty >= old(nempty)
                && Kept(old(fb.Mem()), old(Blocks()), fb.Mem(), Blocks())
      ensures old(fb.Room()) > 3 ==> ok
      ensures old(fb.Room()) - 4 <= fb.Room()
    {
      hide Structure, FbOk, Frame, SkipOk, Kept, ArenaOk, Settled, Loose, SameTaken, FreeBlock.Books, FreeBlock.Room;
      StructureArena();
      ghost var m0, a0, b0 := m, fb.Mem(), Blocks();
      ok := ReleaseRegion(x, o);
      if !ok { return; }
      StructureArena();
      FreedLoose(m0, lo, hi, o, maxfextent);
      ghost var a1, b1, m1, h1 := fb.Mem(), Blocks(), m, held;
      StructureKinds();
      ok := Consolidate(x, o);
      if !ok { return; }
      StructureArena();
      StructureKinds();
      SameHeld(m1, m, h1, held);
      KeptTrans(a0, b0, a1, b1, fb.Mem(), Blocks());
    }

    lemma StructureKinds()
      requires Structure()
      ensures HeldIn(m, held) && UsedIn(m, where)
    {
      hide Lists, Chained, Placed, EmptyOk, MapOk, Nodes, FreeSlots, FreeBlock.Books, FreeBlock.Room;
    }

    method UncountElement()
      requires Structure()
      modifies this`nelems
      ensures Structure() && nelems == old(nelems) - 1
    {
      hide Lists, Whole, FreeBlock.Books, FreeBlock.Room;
      nelems := nelems - 1;
    }

    /** Free a region in use. */
    method Free(x: int, ghost o: int) returns (ok: bool)
      requires Valid() && UsedAt(m, o, x)
      modifies this`levelFoff, this`levelFext, this`off, this`ext, this`m, this`held, this`nfree, this`maxfextent,
               this`nelems
      modifies this`empty, this`nempty, this`empties, this`buckets, this`where, this`nbytes, rp, chains
      modifies fb`avail, fb`outstanding, fb`size, fb`cuts, fb`peak, fb`out, fb`lists, fb.nfree, fb.free, fb.fblks
      ensures ok ==>
                && Valid() && SameTaken(WithKind(old(m), o, Kind.Free), m) && where == old(where) - {o}
                && held == old(held)
                && nelems == old(nelems) - 1 && nbytes == old(nbytes) - old(m)[o].extent && nempty >= old(nempty)
                && Kept(old(fb.Mem()), old(Blocks()), fb.Mem(), Blocks())
      ensures old(fb.Room()) > 3 ==> ok
      ensures old(fb.Room()) - 4 <= fb.Room()
    {
      hide Structure, FbOk, Frame, SkipOk, Kept, ArenaOk, Settled, SameTaken, Counted, FreeBlock.Books, FreeBlock.Room;
      ghost var m0, h0 := m, held;
      StructureRecord(o);
      Unuse(x, o);
      assert WithKind(m, o, Kind.Free) == WithKind(m0, o, Kind.Free);
      ok := Put(x, o);
      assert h0 + {o} - {o} == h0;
    }

    /** Take a region out of use and off the byte count. */
    method Unuse(x: int, ghost o: int)
      requires Valid() && UsedAt(m, o, x)
      modifies this`buckets, this`where, this`m, this`held, this`nbytes, rp, chains
      ensures Valid() && m == WithKind(old(m), o, Held) && where == old(where) - {o} && held == old(held) + {o}
      ensures nbytes == old(nbytes) - old(m)[o].extent
      ensures fb.Mem() == old(fb.Mem()) && Blocks() == old(Blocks()) && fb.Room() == old(fb.Room())
    {
      hide Structure, FbOk, Frame, SkipOk, Settled, UsedBytes, FreeBlock.Books, FreeBlock.Room;
      StructureRecord(o);
      StructureKinds();
      UnusedCounts(m, lo, hi, o, maxfextent, where, held);
      SubtractBytes(rp[x].GetExtent());
      RemoveFromHash(x, o);
    }

    method SubtractBytes(extent: int)
      requires Structure()
      modifies this`nbytes
      ensures Structure() && nbytes == old(nbytes) - extent
    {
      hide Lists, Whole, FreeBlock.Books, FreeBlock.Room;
      nbytes := nbytes - extent;
    }

    /** A new free region from an unused record; none if there is no unused record. */
    method Add(offset: int, extent: int) returns (ok: bool, x: int)
      requires Structure() && offset !in m && 0 < offset < HUGE_OFF && 0 < extent < HUGE_EXT && extent % 2 == 0
      modifies this`levelFoff, this`levelFext, this`off, this`ext, this`m, this`held, this`nfree
      modifies this`empty, this`nempty, this`empties, rp
      modifies fb`avail, fb`outstanding, fb`size, fb`cuts, fb`peak, fb`out, fb`lists, fb.nfree, fb.free, fb.fblks
      ensures x == RL_NONE <==> old(nempty) == 0
      ensures x == RL_NONE ==>
                Structure() && m == old(m) && held == old(held) && fb.Mem() == old(fb.Mem())
                && rp[..] == old(rp[..])
      ensures ok && x != RL_NONE ==>
                && Structure() && 0 <= x && m == old(m)[offset := Span(x, extent, Kind.Free)] && held == old(held)
                && nempty == old(nempty) - 1
                && Kept(old(fb.Mem()), old(Blocks()), fb.Mem(), Blocks())
      ensures old(fb.Room()) > 1 ==> ok
      ensures old(fb.Room()) - 2 <= fb.Room()
    {
      hide Structure, FbOk, Frame, SkipOk, Kept, ArenaOk, FreeBlock.Books, FreeBlock.Room;
      StructureKinds();
      ghost var h0 := held;
      x := GetEmptyRegion(offset, extent);
      if x == RL_NONE { return true, RL_NONE; }
      assert h0 + {offset} - {offset} == h0;
      ok := ReleaseRegion(x, offset);
    }

    lemma EmptyHead()
      requires Structure()
      ensures 0 <= nempty && (empty == RL_NONE <==> nempty == 0)
    {
      hide Lists, Chained, Placed, MapOk, Kinds, Nodes, FreeSlots, FreeBlock.Books, FreeBlock.Room;
      if |empties| > 0 { EmptyFacts(View(), nchains, 0); }
    }

    /** A new extent for a held region. */
    method Shorten(x: int, extent: int, ghost o: int)
      requires Structure() && HeldAt(m, o, x) && 0 < extent < HUGE_EXT && extent % 2 == 0
      modifies this`m, rp
      ensures Structure() && m == old(m)[o := old(m)[o].(extent := extent)]
    {
      hide Lists, Frame, Whole, TableOk, Nodes, FreeSlots, FreeBlock.Books, FreeBlock.Room;
      ghost var t0 := View();
      WholeParts(t0, nalloc, nchains, off, ext, nfree, nempty);
      RecordOf(t0, nchains, o);
      HeldNotFree(t0, nchains, o);
      ListsNotExt(x);
      Resize(x, extent, o);
      WholeShortened(t0, View(), nalloc, nchains, off, ext, nfree, nempty, o, extent);
    }

    /** Cut a held region in two: it keeps the first `extent` bytes and the rest becomes a free region. */
    method Split(x: int, extent: int, ghost o: int) returns (ok: bool, ghost y: int)
      requires Valid() && HeldAt(m, o, x) && 0 < extent < m[o].extent && extent % 2 == 0
      requires o + m[o].extent in m ==> m[o + m[o].extent].kind != Kind.Free
      modifies this`levelFoff, this`levelFext, this`off, this`ext, this`m, this`held, this`nfree, this`maxfextent
      modifies this`empty, this`nempty, this`empties, rp
      modifies fb`avail, fb`outstanding, fb`size, fb`cuts, fb`peak, fb`out, fb`lists, fb.nfree, fb.free, fb.fblks
      ensures y == RL_NONE <==> old(nempty) == 0
      ensures ok && y == RL_NONE ==> Valid() && m == old(m) && held == old(held) && fb.Mem() == old(fb.Mem())
      ensures ok && y != RL_NONE ==>
                && Valid() && 0 <= y && m == Divided(old(m), o, extent, y) && held == old(held)
                && multiset(m.Keys) == Begins(old(m), o, extent)
                && Kept(old(fb.Mem()), old(Blocks()), fb.Mem(), Blocks())
      ensures old(fb.Room()) > 1 ==> ok
      ensures old(fb.Room()) - 2 <= fb.Room()
    {
      hide Structure, FbOk, Frame, SkipOk, Kept, ArenaOk, Settled, UsedBytes, Divided, Begins, FreeBlock.Books;
      hide FreeBlock.Room;
      StructureRecord(o);
      CutFits(m, lo, hi, o, extent, maxfextent);
      ghost var m0 := m;
      var rem := rp[x].GetExtent() - extent;
      var added: int;
      ok, added := Add(rp[x].offset + extent, rem);
      y := added;
      if !ok || added == RL_NONE { return; }
      Shorten(x, extent, o);
      CutSettled(m0, lo, hi, o, extent, y, maxfextent);
      DividedInSteps(m0, o, extent, y);
      GrowMax(rem);
    }

    method GrowMax(extent: int)
      requires Structure()
      modifies this`maxfextent
      ensures Structure() && maxfextent == if extent > old(maxfextent) then extent else old(maxfextent)
    {
      hide Structure, FbOk, Frame, SkipOk, FreeBlock.Books, FreeBlock.Room;
      if extent > maxfextent { SetMax(extent); }
    }

    /** Mark a held region as in use; its bytes are not counted yet. */
    method AddToHash(x: int, ghost o: int)
      requires Valid() && HeldAt(m, o, x)
      modifies this`buckets, this`where, this`m, this`held, this`untracked, rp, chains
      ensures Valid() && m == WithKind(old(m), o, Used) && where == old(where)[o := x] && held == old(held) - {o}
      ensures untracked == old(untracked) + m[o].extent
      ensures fb.Mem() == old(fb.Mem()) && fb.Room() == old(fb.Room())
      ensures 0 <= x < rp.Length && rp[x].offset == o && rp[x].GetExtent() == m[o].extent
    {
      hide Structure, FbOk, Frame, SkipOk, Settled, UsedBytes, FreeBlock.Books, FreeBlock.Room;
      StructureRecord(o);
      StructureKinds();
      UsedCounts(m, lo, hi, o, maxfextent, where, held, x);
      EnterHash(x, o);
      Owe(m[o].extent);
      StructureRecord(o);
    }

    ghost method Owe(extent: int)
      requires Structure()
      modifies this`untracked
      ensures Structure() && untracked == old(untracked) + extent
    {
      hide Lists, Whole, FreeBlock.Books, FreeBlock.Room;
      untracked := untracked + extent;
    }

    /** Count the bytes of an allocation (`QueueMetrics::TrackAllocation`). */
    method CountBytes(extent: int)
      requires Valid()
      modifies this`nbytes, this`maxbytes, this`untracked
      ensures Valid() && nbytes == old(nbytes) + extent && untracked == old(untracked) - extent
      ensures maxbytes == if nbytes > old(maxbytes) then nbytes else old(maxbytes)
    {
      hide Lists, Whole, Settled, UsedBytes, FreeBlock.Books, FreeBlock.Room;
      nbytes := nbytes + extent;
      if nbytes > maxbytes { maxbytes := nbytes; }
      untracked := untracked - extent;
    }

    method HasSpace() returns (b: bool)
      requires Valid()
      ensures b <==> nempty > 0
    {
      b := nempty > 0;
    }

    method CountElement()
      requires Structure() && Settled(m, lo, hi, maxfextent)
               && Counted(m, nelems + 1, |where| + |held|, nbytes + untracked) && nbytes <= maxbytes && 0 < lo
               && hi < HUGE_OFF
      modifies this`nelems
      ensures Valid() && nelems == old(nelems) + 1
    {
      hide Lists, Whole, Settled, Counted, FreeBlock.Books, FreeBlock.Room;
      nelems := nelems + 1;
    }
  }

  /** The best fit for `extent`, `o`, was taken off the free lists. */
  ghost predicate Chosen(m: Layout, extent: int, o: int, x: int, m': Layout) {
    BestFit(m, extent, o) && FreeAt(m, o, x) && m' == WithKind(m, o, Held)
  }

  lemma MaxBounds(m: Layout, lo: int, hi: int, x: int, extent: int)
    requires Settled(m, lo, hi, x)
    ensures 0 <= x < HUGE_EXT && (extent > x ==> NoneFits(m, extent))
  {
  }

  lemma BestFits(m: Layout, extent: int, o: int)
    requires BestFit(m, extent, o)
    ensures !NoneFits(m, extent)
  {
  }

  lemma TakenSettled(m: Layout, lo: int, hi: int, o: int, x: int, held: set<int>)
    requires Settled(m, lo, hi, x) && o in m && m[o].kind == Free && o !in held
    ensures var m' := WithKind(m, o, Held);
            && Tiled(m', lo, hi) && Spread(m') && UsedBytes(m') == UsedBytes(m) && |held + {o}| == |held| + 1
            && (m[o].extent != x ==> MaxFree(m', x))
  {
    hide Tiled, Spread, MaxFree, UsedBytes;
    var m' := WithKind(m, o, Held);
    KindKeepsTiles(m, lo, hi, o, m'[o]);
    SameUsedBytes(m, m');
    TakenSpread(m, o);
    if m[o].extent != x { TakenMax(m, o, x); }
  }

  lemma TakenSpread(m: Layout, o: int)
    requires Spread(m) && o in m
    ensures Spread(WithKind(m, o, Held))
  {
  }

  lemma TakenMax(m: Layout, o: int, x: int)
    requires MaxFree(m, x) && o in m && m[o].extent != x
    ensures MaxFree(WithKind(m, o, Held), x)
  {
    if 0 < x {
      var m' := WithKind(m, o, Held);
      var p :| p in m && m[p].kind == Free && m[p].extent == x;
      assert p in m' && m'[p].kind == Free && m'[p].extent == x;
    }
  }

  lemma TailKeys(t: Table, nchains: nat)
    requires TableOk(t, nchains)
    ensures |t.regs| >= RL_FREE_OVERHEAD && KeyIn(ByExtent, t.regs[RL_FEXT_TL]) == Key(HUGE_EXT, 0)
  {
  }

  /** Nodes of the list by extent are in the order of their extents and then offsets. */
  lemma ExtentOrder(a: Arena, regs: seq<Region>, s: Skip, maxsize: nat, level: int, i: nat, j: nat)
    requires SkipOk(a, Bases(ByExtent, regs), Keys(ByExtent, regs), s, maxsize, level, RL_FEXT_HD, RL_FEXT_TL)
    requires i < |s.order| && j < |s.order|
    ensures s.order[i] < |regs| && s.order[j] < |regs|
    ensures i < j ==> KeyIn(ByExtent, regs[s.order[i]]).Less(KeyIn(ByExtent, regs[s.order[j]]))
  {
    hide BlocksOk, Linked, FreeBlock.Books, FreeBlock.Room;
    var ks := Keys(ByExtent, regs);
    var x, y := ks[s.order[i]], ks[s.order[j]];
    assert i < j ==> x.Less(y);
  }

  lemma BestFound(t: Table, nchains: nat, a: Arena, s: Skip, maxsize: nat, level: int, extent: int, w: nat, c: nat,
                  update: seq<int>, at: seq<nat>)
    requires TableOk(t, nchains) && Nodes(s) == FreeSlots(t.m)
    requires SkipOk(a, Bases(ByExtent, t.regs), Keys(ByExtent, t.regs), s, maxsize, level, RL_FEXT_HD, RL_FEXT_TL)
    requires Probe(Keys(ByExtent, t.regs), s, level, Key(extent, -1), w, -1, c, update, at)
    ensures w < |s.order| && s.order[w] < |t.regs|
    ensures s.order[w] == RL_FEXT_TL <==> NoneFits(t.m, extent)
    ensures s.order[w] != RL_FEXT_TL ==> var o := t.regs[s.order[w]].offset;
                                         BestFit(t.m, extent, o) && FreeAt(t.m, o, s.order[w])
  {
    hide BlocksOk, Linked, Sorted, TableOk, FreeSlots, Nodes, FreeBlock.Books, FreeBlock.Room;
    if w < s.Last() {
      NodeIsFree(t, nchains, s, w);
      RecordOf(t, nchains, t.regs[s.order[w]].offset);
    }
    forall p | p in t.m && t.m[p].kind == Free && extent <= t.m[p].extent
      ensures w < s.Last() && var o := t.regs[s.order[w]].offset;
                              o == p || Key(t.m[o].extent, o).Less(Key(t.m[p].extent, p))
    {
      RecordOf(t, nchains, p);
      FreeIsListed(t, nchains, p);
      var i := PlaceOf(s, t.m[p].slot);
      ExtentOrder(a, t.regs, s, maxsize, level, w, i);
      assert Keys(ByExtent, t.regs)[s.order[i]] == Key(t.m[p].extent, p);
    }
  }

  lemma MaxFound(t: Table, nchains: nat, a: Arena, s: Skip, maxsize: nat, level: int, w: nat, c: nat, update: seq<int>,
                 at: seq<nat>)
    requires TableOk(t, nchains) && Nodes(s) == FreeSlots(t.m)
    requires SkipOk(a, Bases(ByExtent, t.regs), Keys(ByExtent, t.regs), s, maxsize, level, RL_FEXT_HD, RL_FEXT_TL)
    requires |t.regs| >= RL_FREE_OVERHEAD
    requires Probe(Keys(ByExtent, t.regs), s, level, KeyIn(ByExtent, t.regs[RL_FEXT_TL]), w, -1, c, update, at)
    ensures 0 < w < |s.order| && s.order[w - 1] < |t.regs| && MaxFree(t.m, t.regs[s.order[w - 1]].GetExtent())
  {
    hide BlocksOk, Linked, Sorted, FreeSlots, Nodes, Chained, Placed, EmptyOk, MapOk, Kinds;
    hide FreeBlock.Books, FreeBlock.Room;
    if w < s.Last() { ExtentOrder(a, t.regs, s, maxsize, level, w, s.Last()); }
    if 1 < w {
      NodeIsFree(t, nchains, s, w - 1);
      RecordOf(t, nchains, t.regs[s.order[w - 1]].offset);
    }
    forall p | p in t.m && t.m[p].kind == Free ensures 1 < w && t.m[p].extent <= t.regs[s.order[w - 1]].GetExtent() {
      RecordOf(t, nchains, p);
      FreeIsListed(t, nchains, p);
      var i := PlaceOf(s, t.m[p].slot);
      ExtentOrder(a, t.regs, s, maxsize, level, i, w - 1);
    }
  }

  ghost predicate Counted(m: Layout, nelems: int, n: int, bytes: int) {
    nelems == n && bytes == UsedBytes(m)
  }

  ghost predicate NoneFits(m: Layout, extent: int) {
    forall p :: p in m && m[p].kind == Free ==> m[p].extent < extent
  }

  /** The free region at `o` is the smallest that can hold `extent`, and the leftmost of that size. */
  ghost predicate BestFit(m: Layout, extent: int, o: int) {
    && o in m && m[o].kind == Free && extent <= m[o].extent
    && forall p :: p in m && m[p].kind == Free && extent <= m[p].extent ==>
         m[o].extent < m[p].extent || (m[o].extent == m[p].extent && o <= p)
  }

  ghost function WithKind(m: Layout, o: int, kind: Kind): Layout {
    if o in m then m[o := m[o].(kind := kind)] else m
  }

  /** `y` is the first free region, of offset `r`, to the right of `o`, if there is one. */
  ghost predicate RightOf(m: Layout, o: int, y: int, r: int) {
    && (y != RL_FOFF_TL ==> FreeAt(m, r, y) && o < r)
    && (o in m && o + m[o].extent in m && m[o + m[o].extent].kind == Free ==> y != RL_FOFF_TL && r == o + m[o].extent)
  }

  /** `y` is the first free region, of offset `l`, to the left of `o`, if there is one. */
  ghost predicate LeftOf(m: Layout, o: int, y: int, l: int) {
    && (y != RL_FOFF_HD ==> FreeAt(m, l, y) && l < o)
    && (forall k :: k in m && m[k].kind == Free && k + m[k].extent == o ==> y != RL_FOFF_HD && k == l)
  }

  lemma LooseTiled(m: Layout, lo: int, hi: int, c: int, x: int)
    requires Loose(m, lo, hi, c, x)
    ensures Tiled(m, lo, hi)
  {
  }

  /** Everything but the region just freed at `c` is as it should be. */
  ghost predicate Loose(m: Layout, lo: int, hi: int, c: int, x: int) {
    Tiled(m, lo, hi) && hi - lo < HUGE_EXT && SpreadBut(m, c) && MaxBut(m, c, x)
  }

  /** ... and `c` has no free neighbour to its right any more. */
  ghost predicate LooseLeft(m: Layout, lo: int, hi: int, c: int, x: int) {
    Tiled(m, lo, hi) && hi - lo < HUGE_EXT && SpreadRight(m, c) && MaxBut(m, c, x)
  }

  /** The regions tile the section, no two free ones are adjacent, and `x` is the largest free extent. */
  ghost predicate Settled(m: Layout, lo: int, hi: int, x: int) {
    Tiled(m, lo, hi) && hi - lo < HUGE_EXT && Spread(m) && MaxFree(m, x)
  }

  lemma LooseRight(m: Layout, lo: int, hi: int, c: int, x: int, y: int, l: int)
    requires Loose(m, lo, hi, c, x) && c in m && m[c].kind == Free && LeftOf(m, c, y, l)
    requires c + m[c].extent in m && m[c + m[c].extent].kind == Free
    ensures Adjacent(m, c, c + m[c].extent)
    ensures LooseLeft(Merged(m, c), lo, hi, c, x) && SameTaken(m, Merged(m, c)) && LeftOf(Merged(m, c), c, y, l)
  {
    MergeKeepsTiles(m, lo, hi, c);
    RightMerged(m, lo, hi, c);
    MergedMax(m, lo, hi, c, c, x);
    MergeSameTaken(m, c);
  }

  lemma LooseNoRight(m: Layout, lo: int, hi: int, c: int, x: int)
    requires Loose(m, lo, hi, c, x) && c in m && (c + m[c].extent in m ==> m[c + m[c].extent].kind != Free)
    ensures LooseLeft(m, lo, hi, c, x) && SameTaken(m, m)
  {
  }

  lemma LooseToSettled(m: Layout, lo: int, hi: int, c: int, x: int)
    requires LooseLeft(m, lo, hi, c, x) && c in m
    requires forall l :: l in m && m[l].kind == Free ==> l + m[l].extent != c
    ensures Settled(m, lo, hi, if m[c].extent > x then m[c].extent else x) && SameTaken(m, m)
  {
    NoLeft(m, c);
    MaxSettled(m, c, x);
  }

  lemma LooseMergeLeft(m: Layout, lo: int, hi: int, c: int, l: int, x: int)
    requires LooseLeft(m, lo, hi, c, x) && c in m && l in m && m[l].kind == Free && l + m[l].extent == c
    ensures Adjacent(m, l, c) && SameTaken(m, Merged(m, l))
    ensures var m' := Merged(m, l); l in m' && Settled(m', lo, hi, if m'[l].extent > x then m'[l].extent else x)
  {
    MergeKeepsTiles(m, lo, hi, l);
    LeftMerged(m, lo, hi, c, l);
    MergedMax(m, lo, hi, c, l, x);
    MergeSameTaken(m, l);
    MaxSettled(Merged(m, l), l, x);
  }

  ghost predicate FreeAt(m: Layout, o: int, x: int) {
    o in m && m[o].kind == Free && m[o].slot == x
  }

  function InitialRegion(n: nat, i: int): Region {
    if i == RL_FOFF_TL then Region(HUGE_OFF, 0, 0, 0)
    else if i == RL_FEXT_TL then Region(0, HUGE_EXT, 0, 0)
    else if i < RL_FREE_OVERHEAD then Region(0, 0, 0, 0)
    else Region(-1, 0, if i + 1 == n + RL_FREE_OVERHEAD then RL_NONE else i + 1, 0)
  }

  ghost predicate EmptyList(ord: Order, s: Skip) {
    s.order == [Head(ord), Tail(ord)]
  }

  /** Only the links of the sentinels differ. */
  ghost predicate SentinelLinks(regs: seq<Region>, regs': seq<Region>) {
    && |regs'| == |regs|
    && (forall i :: RL_FREE_OVERHEAD <= i < |regs| ==> regs'[i] == regs[i])
    && (forall i :: 0 <= i < RL_FREE_OVERHEAD && i < |regs| ==>
         regs'[i].offset == regs[i].offset && regs'[i].extent == regs[i].extent)
  }

  lemma EmptyListArena(f: Fb, maxsize: nat, arenaSz: int, ord: Order, regs: seq<Region>)
    requires FbOk(f, maxsize, arenaSz) && |regs| >= RL_FREE_OVERHEAD
             && KeyIn(ord, regs[Head(ord)]).Less(KeyIn(ord, regs[Tail(ord)]))
    requires var hb, tb := LinkIn(ord, regs[Head(ord)]), LinkIn(ord, regs[Tail(ord)]);
             && hb in f.out && tb in f.out && hb != tb && hb in f.size && f.size[hb] == maxsize
             && 0 <= hb && hb + maxsize <= |f.words| && forall x :: hb <= x < hb + maxsize ==> f.words[x] == Tail(ord)
    ensures var hb, tb := LinkIn(ord, regs[Head(ord)]), LinkIn(ord, regs[Tail(ord)]);
            SkipOk(Arena(f.words, f.size, f.out), Bases(ord, regs), Keys(ord, regs),
                   Skip([Head(ord), Tail(ord)], [maxsize, maxsize], {hb, tb}),
                   maxsize, 0, Head(ord), Tail(ord))
  {
    hide FbOk, SkipOk, FreeBlock.Books, FreeBlock.Room;
    SizeBounds(f, maxsize, arenaSz);
    EmptyListOk(Arena(f.words, f.size, f.out), Bases(ord, regs), Keys(ord, regs), maxsize, Head(ord), Tail(ord));
  }

  ghost predicate InitialTable(t: Table, nalloc: nat, nchains: nat) {
    && 0 < nalloc && 0 < nchains && t.chains == seq(nchains, _ => RL_NONE) && t.buckets == seq(nchains, _ => [])
    && t.empty == RL_FREE_OVERHEAD && t.empties == seq(nalloc, i => i + RL_FREE_OVERHEAD)
    && t.where == map[] && t.m == map[] && t.held == {}
  }

  lemma EmptyTableOk(t0: Table, t: Table, nalloc: nat, nchains: nat)
    requires InitialTable(t0, nalloc, nchains) && t == t0.(regs := t.regs)
    requires t0.regs == seq(nalloc + RL_FREE_OVERHEAD, i => InitialRegion(nalloc, i)) && SentinelLinks(t0.regs, t.regs)
    ensures TableOk(t, nchains) && |t.regs| == nalloc + RL_FREE_OVERHEAD && |t.empties| == nalloc
    ensures t.m == map[] && t.where == map[] && t.held == {}
  {
    hide Chained, Placed, EmptyOk, MapOk, Kinds, Sentinels, SentinelLinks, FreeBlock.Books, FreeBlock.Room;
    NothingHashed(t, nchains);
    FirstSentinels(t0.regs, t.regs, nalloc);
    AllUnused(t0.regs, t, nalloc);
  }

  lemma NothingHashed(t: Table, nchains: nat)
    requires 0 < nchains && t.chains == seq(nchains, _ => RL_NONE) && t.buckets == seq(nchains, _ => [])
    requires t.where == map[] && t.m == map[] && t.held == {}
    ensures Chained(t, nchains) && Placed(t, nchains) && MapOk(t.regs, t.m) && Kinds(t)
  {
    hide Nexts, HashOffset, Home, FreeBlock.Books, FreeBlock.Room;
    assert forall h :: 0 <= h < nchains ==> t.buckets[h] == [] && t.chains[h] == RL_NONE;
  }

  lemma FirstSentinels(regs: seq<Region>, regs': seq<Region>, nalloc: nat)
    requires regs == seq(nalloc + RL_FREE_OVERHEAD, i => InitialRegion(nalloc, i)) && SentinelLinks(regs, regs')
    ensures Sentinels(regs') && |regs'| == |regs|
  {
    assert regs[0] == InitialRegion(nalloc, 0) && regs[1] == InitialRegion(nalloc, 1);
    assert regs[2] == InitialRegion(nalloc, 2) && regs[3] == InitialRegion(nalloc, 3);
    EvenExtent(regs'[2]);
    EvenExtent(regs'[3]);
  }

  lemma EvenExtent(r: Region)
    requires r.extent == 0 || r.extent == HUGE_EXT
    ensures r.GetExtent() == r.extent
  {
  }

  lemma AllUnused(regs: seq<Region>, t: Table, nalloc: nat)
    requires regs == seq(nalloc + RL_FREE_OVERHEAD, i => InitialRegion(nalloc, i)) && SentinelLinks(regs, t.regs)
    requires 0 < nalloc && t.empty == RL_FREE_OVERHEAD && t.empties == seq(nalloc, i => i + RL_FREE_OVERHEAD)
    ensures EmptyOk(t)
  {
    hide SentinelLinks, After, InitialRegion, Nexts;
    var l := t.empties;
    UnusedAt(regs, t, nalloc, 0);
    forall i {:trigger After(l, i)} | 0 <= i < |l| ensures 0 <= l[i] < |t.regs| && Nexts(t.regs)[l[i]] == After(l, i) {
      UnusedAt(regs, t, nalloc, i);
    }
    forall i | 0 <= i < |l| ensures RL_FREE_OVERHEAD <= l[i] < |t.regs| && t.regs[l[i]].offset == -1 {
      UnusedAt(regs, t, nalloc, i);
    }
  }

  lemma UnusedAt(regs: seq<Region>, t: Table, nalloc: nat, i: nat)
    requires regs == seq(nalloc + RL_FREE_OVERHEAD, i => InitialRegion(nalloc, i)) && SentinelLinks(regs, t.regs)
    requires i < nalloc && t.empties == seq(nalloc, i => i + RL_FREE_OVERHEAD)
    ensures t.empties[i] == i + RL_FREE_OVERHEAD < |t.regs| && t.regs[i + RL_FREE_OVERHEAD].offset == -1
    ensures |Nexts(t.regs)| == |t.regs| && Nexts(t.regs)[i + RL_FREE_OVERHEAD] == After(t.empties, i)
  {
    var x := i + RL_FREE_OVERHEAD;
    assert t.regs[x] == regs[x] == InitialRegion(nalloc, x);
  }

  lemma EmptyWhole(t: Table, nalloc: nat, nchains: nat, off: Skip, ext: Skip)
    requires TableOk(t, nchains) && |t.regs| == nalloc + RL_FREE_OVERHEAD && t.m == map[] && t.where == map[]
             && t.held == {} && |t.empties| == nalloc
    requires EmptyList(ByOffset, off) && EmptyList(ByExtent, ext)
    ensures Whole(t, nalloc, nchains, off, ext, 0, nalloc)
  {
    hide TableOk, FreeBlock.Books, FreeBlock.Room;
    assert Nodes(off) == {} && Nodes(ext) == {};
  }

  lemma OneRegion(o: int, extent: int, x: nat)
    requires 0 < extent < HUGE_EXT
    ensures var m: Layout := map[o := Span(x, extent, Free)]; Settled(m, o, o + extent, extent) && UsedBytes(m) == 0
  {
    var m: Layout := map[o := Span(x, extent, Free)];
    assert UsedKeys(m) == {};
  }

  lemma NodeOnce(keys: seq<Key>, s: Skip, i: nat, j: nat)
    requires (forall k :: 0 <= k < |s.order| ==> s.order[k] < |keys|) && Sorted(keys, s)
    requires i < |s.order| && j < |s.order| && s.order[i] == s.order[j]
    ensures i == j
  {
    var x, y := keys[s.order[i]], keys[s.order[j]];
    assert i < j ==> x.Less(y);
    assert j < i ==> y.Less(x);
  }

  lemma OneInOrder(a: Arena, base: seq<int>, keys: seq<Key>, s: Skip, maxsize: nat, level: int, x: nat)
    requires SkipOk(a, base, keys, s, maxsize, level, RL_FOFF_HD, RL_FOFF_TL) && Nodes(s) == {x}
    ensures |s.order| == 3
  {
    hide BlocksOk, Linked, Sorted, FreeBlock.Books, FreeBlock.Room;
    assert x in Nodes(s);
    var i := if 2 < s.Last() then 2 else 1;
    assert s.order[1] in Nodes(s) && s.order[i] in Nodes(s);
    NodeOnce(keys, s, 1, i);
  }

  lemma NothingUsedFree(m: Layout, where: map<int, int>, held: set<int>)
    requires HeldIn(m, held) && UsedIn(m, where) && where == map[] && held == {}
    ensures forall o :: o in m ==> m[o].kind == Free
  {
    forall o | o in m ensures m[o].kind == Free {
      assert o !in where && o !in held;
    }
  }

  lemma OnlyRegion(m: Layout, lo: int, hi: int, x: int)
    requires Settled(m, lo, hi, x) && forall o :: o in m ==> m[o].kind == Free
    ensures m.Keys == {lo} && m[lo].kind == Free && m[lo].extent == hi - lo
  {
    AllFreeIsOne(m, lo, hi);
  }

  ghost predicate HeldAt(m: Layout, o: int, x: int) {
    o in m && m[o].kind == Held && m[o].slot == x
  }

  ghost predicate UsedAt(m: Layout, o: int, x: int) {
    o in m && m[o].kind == Used && m[o].slot == x
  }

  ghost predicate HeldIn(m: Layout, held: set<int>) {
    forall o :: o in held <==> o in m && m[o].kind == Held
  }

  ghost predicate UsedIn(m: Layout, where: map<int, int>) {
    && (forall o :: o in where <==> o in m && m[o].kind == Used)
    && (forall o :: o in where && o in m ==> where[o] == m[o].slot)
  }

  lemma SameHeld(m: Layout, m': Layout, held: set<int>, held': set<int>)
    requires HeldIn(m, held) && HeldIn(m', held') && SameTaken(m, m')
    ensures held' == held
  {
    forall o ensures o in held <==> o in held' {
      assert o in m && m[o].kind == Held ==> o in m';
      assert o in m' && m'[o].kind == Held ==> o in m;
    }
  }

  lemma FreedLoose(m: Layout, lo: int, hi: int, o: int, x: int)
    requires Settled(m, lo, hi, x) && o in m && m[o].kind == Held
    ensures Loose(m[o := m[o].(kind := Free)], lo, hi, o, x)
  {
    FreedSpread(m, o);
    FreedMax(m, o, x);
    KindKeepsTiles(m, lo, hi, o, m[o].(kind := Free));
  }

  /** Freeing a region that is not in use changes no byte count. */
  lemma PutCounted(m: Layout, m': Layout, o: int, held: set<int>)
    requires o in m && m[o].kind == Held && SameTaken(WithKind(m, o, Free), m') && o in held
    ensures UsedBytes(m') == UsedBytes(m) && |held - {o}| == |held| - 1
  {
    SameUsedBytes(m, m');
  }

  lemma UnusedCounts(m: Layout, lo: int, hi: int, o: int, x: int, where: map<int, int>, held: set<int>)
    requires Settled(m, lo, hi, x) && o in m && m[o].kind == Used && o in where && o !in held
    ensures UsedBytes(WithKind(m, o, Held)) == UsedBytes(m) - m[o].extent
    ensures Settled(WithKind(m, o, Held), lo, hi, x)
    ensures |where - {o}| == |where| - 1 && |held + {o}| == |held| + 1
  {
    FewerBytes(m, o, Held);
    assert (where - {o}).Keys == where.Keys - {o};
    TakenStaysSettled(m, lo, hi, o, x, Held);
  }

  lemma UsedCounts(m: Layout, lo: int, hi: int, o: int, x: int, where: map<int, int>, held: set<int>, slot: int)
    requires Settled(m, lo, hi, x) && o in m && m[o].kind == Held && o !in where && o in held
    ensures UsedBytes(WithKind(m, o, Used)) == UsedBytes(m) + m[o].extent
    ensures Settled(WithKind(m, o, Used), lo, hi, x)
    ensures |where[o := slot]| == |where| + 1 && |held - {o}| == |held| - 1
  {
    MoreBytes(m, o);
    assert where[o := slot].Keys == where.Keys + {o};
    TakenStaysSettled(m, lo, hi, o, x, Used);
  }

  lemma CutFits(m: Layout, lo: int, hi: int, o: int, extent: int, x: int)
    requires Settled(m, lo, hi, x) && o in m && 0 < extent < m[o].extent
    ensures o + extent !in m && lo < o + extent < hi && m[o].extent <= hi - lo
  {
    CutKeepsTiles(m, lo, hi, o, extent, 0);
  }

  lemma DividedInSteps(m: Layout, o: int, extent: int, slot: nat)
    requires o in m && o + extent !in m && extent != 0
    ensures var m1 := m[o + extent := Span(slot, m[o].extent - extent, Free)];
            m1[o := m1[o].(extent := extent)] == Divided(m, o, extent, slot)
    ensures multiset(Divided(m, o, extent, slot).Keys) == Begins(m, o, extent)
  {
    var m' := Divided(m, o, extent, slot);
    assert m'.Keys == m.Keys + {o + extent};
    assert multiset(m.Keys + {o + extent}) == multiset(m.Keys) + multiset{o + extent};
  }

  lemma CutSettled(m: Layout, lo: int, hi: int, o: int, extent: int, slot: nat, x: int)
    requires Settled(m, lo, hi, x) && o in m && 0 < extent < m[o].extent && m[o].kind == Held
    requires o + m[o].extent in m ==> m[o + m[o].extent].kind != Free
    ensures var rem := m[o].extent - extent; Settled(Divided(m, o, extent, slot), lo, hi, if rem > x then rem else x)
    ensures UsedBytes(Divided(m, o, extent, slot)) == UsedBytes(m)
  {
    CutKeepsTiles(m, lo, hi, o, extent, slot);
    CutKeepsSpread(m, lo, hi, o, extent, slot);
    CutMax(m, lo, hi, o, extent, slot, x);
    SameUsedBytes(m, Divided(m, o, extent, slot));
  }

  /** Free regions are all that matters. */
  lemma TakenStaysSettled(m: Layout, lo: int, hi: int, o: int, x: int, kind: Kind)
    requires Settled(m, lo, hi, x) && o in m && m[o].kind != Free && kind != Free
    ensures Settled(WithKind(m, o, kind), lo, hi, x)
  {
    var m' := WithKind(m, o, kind);
    KindKeepsTiles(m, lo, hi, o, m'[o]);
    if 0 < x {
      var p :| p in m && m[p].kind == Free && m[p].extent == x;
      assert p in m' && m'[p].extent == x;
    }
  }

  ghost predicate Adjacent(m: Layout, k: int, d: int) {
    k in m && d in m && d == k + m[k].extent && 0 < m[k].extent && m[k].extent + m[d].extent < HUGE_EXT
  }

  lemma MergedExtent(regs: seq<Region>, m: Layout, k: int, d: int)
    requires k in m && d in m && Filed(regs, k, m[k]) && Filed(regs, d, m[d]) && m[k].kind != Used
    ensures 0 <= m[k].slot < |regs| && 0 <= m[d].slot < |regs|
    ensures var e := regs[m[k].slot].extent + regs[m[d].slot].GetExtent();
            e == m[k].extent + m[d].extent && e % 2 == 0 && 0 < e
  {
  }

  ghost predicate IsMerged(m: Layout, k: int, d: int, m': Layout) {
    k in m && d in m && d == k + m[k].extent && m' == Merged(m, k)
  }

  /** `x` is not in the list, and its key lies strictly between the sentinels' and differs from every node's. */
  ghost predicate Fits(ord: Order, regs: seq<Region>, s: Skip, x: int) {
    && 0 <= x < |regs| && x !in s.order && |s.order| >= 2
    && (forall i :: 0 <= i < |s.order| ==> s.order[i] < |regs| && KeyIn(ord, regs[s.order[i]]) != KeyIn(ord, regs[x]))
    && KeyIn(ord, regs[s.order[0]]).Less(KeyIn(ord, regs[x]))
    && KeyIn(ord, regs[x]).Less(KeyIn(ord, regs[s.order[s.Last()]]))
  }

  lemma FitsRange(ord: Order, regs: seq<Region>, s: Skip, x: int)
    requires Fits(ord, regs, s, x)
    ensures 0 <= x < |regs|
  {
  }

  ghost predicate Between(ks: seq<Key>, s: Skip, x: int, w: nat) {
    && 0 <= x < |ks| && (forall i :: 0 <= i < |s.order| ==> s.order[i] < |ks|)
    && (forall i :: 0 <= i < w && i < |s.order| ==> ks[s.order[i]].Less(ks[x]))
    && (forall i :: w <= i < |s.order| ==> ks[x].Less(ks[s.order[i]]))
  }

  lemma FitsBelowTail(a: Arena, ord: Order, regs: seq<Region>, s: Skip, maxsize: nat, level: int, x: int)
    requires SkipOk(a, Bases(ord, regs), Keys(ord, regs), s, maxsize, level, Head(ord), Tail(ord))
             && Fits(ord, regs, s, x)
    ensures Tail(ord) < |regs| && 0 <= x < |regs| && !KeyIn(ord, regs[Tail(ord)]).Less(KeyIn(ord, regs[x]))
  {
  }

  lemma FitsAt(ord: Order, regs: seq<Region>, s: Skip, level: int, x: nat, b: int, w: nat, c: nat, update: seq<int>,
               at: seq<nat>)
    requires Fits(ord, regs, s, x) && Probe(Keys(ord, regs), s, level, KeyIn(ord, regs[x]), w, -1, c, update, at)
    ensures var regs' := regs[x := WithLink(ord, regs[x], b)];
            && Between(Keys(ord, regs'), s, x, w)
            && SameNodes(Bases(ord, regs), Keys(ord, regs), Bases(ord, regs'), Keys(ord, regs'), s)
  {
    var regs' := regs[x := WithLink(ord, regs[x], b)];
    assert Keys(ord, regs') == Keys(ord, regs);
    forall i | 0 <= i < |s.order| ensures Bases(ord, regs')[s.order[i]] == Bases(ord, regs)[s.order[i]] {
      assert s.order[i] != x;
    }
    forall i | w <= i < |s.order| ensures KeyIn(ord, regs[x]).Less(KeyIn(ord, regs[s.order[i]])) {
      assert !Keys(ord, regs)[s.order[i]].Less(KeyIn(ord, regs[x]));
    }
  }

  /** The free lists hold exactly the free regions of the table, and the counters count the table's records. */
  ghost predicate Whole(t: Table, nalloc: nat, nchains: nat, off: Skip, ext: Skip, nfree: int, nempty: int) {
    && TableOk(t, nchains) && |t.regs| == nalloc + RL_FREE_OVERHEAD
    && Nodes(off) == FreeSlots(t.m) && Nodes(ext) == FreeSlots(t.m)
    && nfree == |off.order| - 2 && nfree == |ext.order| - 2 && nempty == |t.empties|
    && nfree + nempty + |t.where| + |t.held| == nalloc
  }

  lemma WholeParts(t: Table, nalloc: nat, nchains: nat, off: Skip, ext: Skip, nfree: int, nempty: int)
    requires Whole(t, nalloc, nchains, off, ext, nfree, nempty)
    ensures TableOk(t, nchains) && Nodes(off) == FreeSlots(t.m) && Nodes(ext) == FreeSlots(t.m)
    ensures |t.regs| == nalloc + RL_FREE_OVERHEAD && nempty == |t.empties|
    ensures 0 < nchains == |t.chains| == |t.buckets|
  {
    hide Nodes, FreeSlots, Chained, Placed, EmptyOk, MapOk, Kinds, FreeBlock.Books, FreeBlock.Room;
  }

  lemma WholeWithdrawn(t: Table, nalloc: nat, nchains: nat, off: Skip, ext: Skip, off': Skip, ext': Skip,
                       nfree: int, nempty: int, o: int)
    requires Whole(t, nalloc, nchains, off, ext, nfree, nempty) && o in t.m && t.m[o].kind == Free
    requires Nodes(off') == Nodes(off) - {t.m[o].slot} && |off'.order| == |off.order| - 1
    requires Nodes(ext') == Nodes(ext) - {t.m[o].slot} && |ext'.order| == |ext.order| - 1
    ensures Whole(t.(m := t.m[o := t.m[o].(kind := Held)], held := t.held + {o}), nalloc, nchains, off', ext',
                  nfree - 1, nempty)
  {
    hide TableOk, Nodes, FreeSlots, FreeBlock.Books, FreeBlock.Room;
    KindChanged(t, nchains, o, Held);
  }

  lemma WholeTaken(t: Table, nalloc: nat, nchains: nat, off: Skip, ext: Skip, nfree: int, nempty: int, o: int,
                   extent: int)
    requires Whole(t, nalloc, nchains, off, ext, nfree, nempty) && nempty > 0 && o !in t.m
    requires 0 < o < HUGE_OFF && 0 < extent < HUGE_EXT && extent % 2 == 0
    ensures |t.empties| > 0 && 0 <= t.empties[0] < |t.regs| && t.empty == t.empties[0]
    ensures Whole(Taken(t, o, extent), nalloc, nchains, off, ext, nfree, nempty - 1)
    ensures t.empties[0] !in Nodes(off) && t.empties[0] !in Nodes(ext)
  {
    hide Nodes, TableOk, FreeSlots, FreeBlock.Books, FreeBlock.Room;
    EmptyFacts(t, nchains, 0);
    TakenOk(t, nchains, o, extent);
    NotHeld(t, nchains, o);
    TakenFrees(t.m, o, t.empties[0], extent);
    WholeParts(t, nalloc, nchains, off, ext, nfree, nempty);
    EmptyNotFree(t, nchains, t.empties[0]);
  }

  lemma NotHeld(t: Table, nchains: nat, o: int)
    requires TableOk(t, nchains) && o !in t.m
    ensures o !in t.held
  {
    hide Chained, Placed, EmptyOk, MapOk, Sentinels, FreeBlock.Books, FreeBlock.Room;
  }

  lemma TakenFrees(m: Layout, o: int, x: nat, extent: int)
    requires o !in m
    ensures FreeSlots(m[o := Span(x, extent, Held)]) == FreeSlots(m)
  {
    var m' := m[o := Span(x, extent, Held)];
    forall p | p in m && m[p].kind == Free ensures m[p].slot in FreeSlots(m') {
      assert m'[p] == m[p];
    }
    forall p | p in m' && m'[p].kind == Free ensures m'[p].slot in FreeSlots(m) {
      assert p != o && m[p] == m'[p];
    }
  }

  lemma EmptyNotFree(t: Table, nchains: nat, x: nat)
    requires TableOk(t, nchains) && x in t.empties
    ensures x !in FreeSlots(t.m)
  {
    hide Chained, Placed, Kinds, EmptyOk, MapOk, FreeBlock.Books, FreeBlock.Room;
    forall p | p in t.m ensures t.m[p].slot != x {
      NotChained(t, nchains, p);
    }
  }

  lemma WholeReturned(t: Table, nalloc: nat, nchains: nat, off: Skip, ext: Skip, nfree: int, nempty: int, o: int)
    requires Whole(t, nalloc, nchains, off, ext, nfree, nempty) && o in t.m && t.m[o].kind == Held
    ensures t.m[o].slot < |t.regs|
    ensures Whole(Returned(t, o), nalloc, nchains, off, ext, nfree, nempty + 1)
  {
    hide Nodes, Chained, Placed, EmptyOk, MapOk, FreeBlock.Books, FreeBlock.Room;
    ReturnedOk(t, nchains, o);
    var m' := Returned(t, o).m;
    assert o in t.held;
    assert FreeSlots(m') == FreeSlots(t.m);
  }

  lemma FreeIsListed(t: Table, nchains: nat, o: int)
    requires TableOk(t, nchains) && o in t.m && t.m[o].kind == Free
    ensures t.m[o].slot in FreeSlots(t.m)
  {
    hide TableOk, FreeBlock.Books, FreeBlock.Room;
  }

  lemma WholeRegrown(t: Table, t': Table, nalloc: nat, nchains: nat, off: Skip, ext: Skip, ext': Skip,
                     nfree: int, nempty: int, o: int, extent: int)
    requires Whole(t, nalloc, nchains, off, ext, nfree, nempty) && o in t.m && t.m[o].kind == Free
    requires t' == t.(regs := t'.regs, m := t.m[o := t.m[o].(extent := extent)]) && TableOk(t', nchains)
    requires |t'.regs| == nalloc + RL_FREE_OVERHEAD && FreeSlots(t'.m) == FreeSlots(t.m)
    requires Nodes(ext') == Nodes(ext) - {t.m[o].slot} + {t.m[o].slot} && |ext'.order| == |ext.order|
    ensures Whole(t', nalloc, nchains, off, ext', nfree, nempty)
  {
    hide TableOk, Nodes, FreeSlots, FreeBlock.Books, FreeBlock.Room;
    FreeIsListed(t, nchains, o);
  }

  lemma WholeShortened(t: Table, t': Table, nalloc: nat, nchains: nat, off: Skip, ext: Skip, nfree: int, nempty: int,
                       o: int, extent: int)
    requires Whole(t, nalloc, nchains, off, ext, nfree, nempty) && o in t.m
    requires t' == t.(regs := t'.regs, m := t.m[o := t.m[o].(extent := extent)]) && TableOk(t', nchains)
    requires |t'.regs| == nalloc + RL_FREE_OVERHEAD && FreeSlots(t'.m) == FreeSlots(t.m)
    ensures Whole(t', nalloc, nchains, off, ext, nfree, nempty)
  {
    hide TableOk, Nodes, FreeSlots, FreeBlock.Books, FreeBlock.Room;
  }

  lemma WholeHashed(t: Table, nalloc: nat, nchains: nat, off: Skip, ext: Skip, nfree: int, nempty: int, o: int)
    requires Whole(t, nalloc, nchains, off, ext, nfree, nempty) && o in t.m && t.m[o].kind == Held
    ensures 0 < nchains == |t.chains| == |t.buckets| && t.m[o].slot < |t.regs|
    ensures Whole(Hashed(t, nchains, o), nalloc, nchains, off, ext, nfree, nempty)
  {
    hide Nodes, Chained, Placed, EmptyOk, MapOk, FreeBlock.Books, FreeBlock.Room;
    HashedOk(t, nchains, o);
    assert o in t.held && o !in t.where;
    SameFree(t.m, Hashed(t, nchains, o).m);
  }

  lemma WholeUnhashed(t: Table, nalloc: nat, nchains: nat, off: Skip, ext: Skip, nfree: int, nempty: int, o: int,
                      i: nat)
    requires Whole(t, nalloc, nchains, off, ext, nfree, nempty) && o in t.m && t.m[o].kind == Used
             && t.m[o].slot < |t.regs|
    requires 0 < nchains == |t.chains| == |t.buckets|
    requires var h, x := HashOffset(o, nchains), t.m[o].slot;
             && i < |t.buckets[h]| && t.buckets[h][i] == x && t.regs[x].offset == o
             && t.regs[x].prev == Before(t.buckets[h], i) && t.regs[x].next == After(t.buckets[h], i)
    ensures Whole(Unhashed(t, nchains, o, i), nalloc, nchains, off, ext, nfree, nempty)
  {
    hide Nodes, Chained, Placed, EmptyOk, MapOk, FreeSlots, HashOffset, Before, After, FreeBlock.Books, FreeBlock.Room;
    UnhashedOk(t, nchains, o, i);
    assert o !in t.held && o in t.where;
    SameFree(t.m, Unhashed(t, nchains, o, i).m);
  }

  /** The free slots depend only on which regions are free and where they are recorded. */
  lemma SameFree(m: Layout, m': Layout)
    requires m'.Keys == m.Keys
    requires forall p :: p in m ==> (m[p].kind == Free <==> m'[p].kind == Free) && m'[p].slot == m[p].slot
    ensures FreeSlots(m') == FreeSlots(m)
  {
    forall y | y in FreeSlots(m) ensures y in FreeSlots(m') {
      var p :| p in m && m[p].kind == Free && m[p].slot == y;
      assert m'[p].slot == y;
    }
    forall y | y in FreeSlots(m') ensures y in FreeSlots(m) {
      var p :| p in m' && m'[p].kind == Free && m'[p].slot == y;
      assert m[p].slot == y;
    }
  }

  lemma RelinkedOnly(regs: seq<Region>, b: seq<int>, i: nat)
    requires i < |b| && forall j :: 0 <= j < |b| ==> 0 <= b[j] < |regs|
    requires regs[b[i]].prev == Before(b, i) && regs[b[i]].next == After(b, i)
    ensures |Relinked(regs, b[i])| == |regs|
    ensures forall j :: 0 <= j < |regs| && j !in b ==> Relinked(regs, b[i])[j] == regs[j]
  {
    assert i > 0 ==> b[i - 1] in b;
    assert i + 1 < |b| ==> b[i + 1] in b;
  }

  lemma FoundInUse(t: Table, nchains: nat, h: nat, i: nat)
    requires TableOk(t, nchains) && h < nchains && i < |t.buckets[h]|
    ensures var x := t.buckets[h][i];
            && 0 <= x < |t.regs|
            && var o := t.regs[x].offset;
               o in t.where && t.where[o] == x && o in t.m && t.m[o].kind == Used && t.m[o].slot == x
  {
    hide Chained, EmptyOk, HashOffset, FreeBlock.Books, FreeBlock.Room;
    assert Home(t, nchains, h, t.buckets[h][i]);
  }

  lemma NotInUse(t: Table, nchains: nat, o: int)
    requires TableOk(t, nchains)
    requires var b := t.buckets[HashOffset(o, nchains)]; forall j :: 0 <= j < |b| ==>
               0 <= b[j] < |t.regs| && t.regs[b[j]].offset != o
    ensures o !in t.where
  {
    hide Chained, EmptyOk, HashOffset, FreeBlock.Books, FreeBlock.Room;
    assert o in t.where ==> Away(t, nchains, o);
  }

  lemma WholeReleased(t: Table, t': Table, nalloc: nat, nchains: nat, off: Skip, ext: Skip, off': Skip, ext': Skip,
                      nfree: int, nempty: int, o: int)
    requires Whole(t, nalloc, nchains, off, ext, nfree, nempty) && o in t.m && t.m[o].kind == Held
    requires t' == t.(regs := t'.regs) && TableOk(t', nchains) && |t'.regs| == nalloc + RL_FREE_OVERHEAD
    requires Nodes(off') == Nodes(off) + {t.m[o].slot} && |off'.order| == |off.order| + 1
    requires Nodes(ext') == Nodes(ext) + {t.m[o].slot} && |ext'.order| == |ext.order| + 1
    ensures Whole(t'.(m := t.m[o := t.m[o].(kind := Free)], held := t.held - {o}), nalloc, nchains, off', ext',
                  nfree + 1, nempty)
  {
    hide TableOk, Nodes, FreeSlots, FreeBlock.Books, FreeBlock.Room;
    KindChanged(t', nchains, o, Free);
  }

  /** The key of a region that is not in the list differs from those of all regions in it. */
  lemma OutsideFits(t: Table, nchains: nat, a: Arena, ord: Order, s: Skip, maxsize: nat, level: int, o: int)
    requires TableOk(t, nchains) && o in t.m && t.m[o].kind != Used && t.m[o].slot !in Nodes(s)
    requires SkipOk(a, Bases(ord, t.regs), Keys(ord, t.regs), s, maxsize, level, Head(ord), Tail(ord))
    requires Nodes(s) <= FreeSlots(t.m)
    ensures Fits(ord, t.regs, s, t.m[o].slot)
  {
    hide Chained, Placed, EmptyOk, BlocksOk, Linked, Sorted, FreeBlock.Books, FreeBlock.Room;
    var x := t.m[o].slot;
    assert Filed(t.regs, o, t.m[o]);
    forall i | 0 <= i < |s.order| ensures s.order[i] != x && KeyIn(ord, t.regs[s.order[i]]) != KeyIn(ord, t.regs[x]) {
      if 0 < i < s.Last() {
        assert s.order[i] in Nodes(s);
        var p :| p in t.m && t.m[p].kind == Free && t.m[p].slot == s.order[i];
        assert Filed(t.regs, p, t.m[p]);
      }
    }
  }

  /** Only sentinels and free regions are in a free list. */
  lemma NotListed(t: Table, nchains: nat, a: Arena, ord: Order, s: Skip, maxsize: nat, level: int, x: int)
    requires TableOk(t, nchains) && RL_FREE_OVERHEAD <= x
    requires SkipOk(a, Bases(ord, t.regs), Keys(ord, t.regs), s, maxsize, level, Head(ord), Tail(ord))
    requires x !in Nodes(s)
    ensures x !in s.order
  {
    hide TableOk, BlocksOk, Linked, Sorted, FreeBlock.Books, FreeBlock.Room;
    forall i | 0 <= i < |s.order| ensures s.order[i] != x {
      if 0 < i < s.Last() { assert s.order[i] in Nodes(s); }
    }
  }

  /** The regions of a hash chain are in no free list. */
  lemma ChainUnlisted(t: Table, nchains: nat, a: Arena, ord: Order, s: Skip, maxsize: nat, level: int, h: nat)
    requires TableOk(t, nchains) && h < nchains && Nodes(s) == FreeSlots(t.m)
    requires SkipOk(a, Bases(ord, t.regs), Keys(ord, t.regs), s, maxsize, level, Head(ord), Tail(ord))
    ensures forall i :: 0 <= i < |t.buckets[h]| ==> t.buckets[h][i] !in s.order
  {
    hide BlocksOk, Linked, Sorted, Chained, EmptyOk, HashOffset, Nodes, FreeSlots, FreeBlock.Books, FreeBlock.Room;
    forall i | 0 <= i < |t.buckets[h]| ensures t.buckets[h][i] !in s.order {
      assert Home(t, nchains, h, t.buckets[h][i]);
      var o := t.regs[t.buckets[h][i]].offset;
      RecordOf(t, nchains, o);
      HeldNotFree(t, nchains, o);
      NotListed(t, nchains, a, ord, s, maxsize, level, t.m[o].slot);
    }
  }

  /** Changing records outside a list does not affect it. */
  lemma ListKept(a: Arena, ord: Order, regs: seq<Region>, regs': seq<Region>, s: Skip, maxsize: nat, level: int)
    requires ArenaOk(a) && SkipOk(a, Bases(ord, regs), Keys(ord, regs), s, maxsize, level, Head(ord), Tail(ord))
    requires |regs'| == |regs|
    requires forall i :: 0 <= i < |s.order| && s.order[i] < |regs| ==>
               KeyIn(ord, regs'[s.order[i]]) == KeyIn(ord, regs[s.order[i]])
                   && LinkIn(ord, regs'[s.order[i]]) == LinkIn(ord, regs[s.order[i]])
    ensures SkipOk(a, Bases(ord, regs'), Keys(ord, regs'), s, maxsize, level, Head(ord), Tail(ord))
  {
    hide ArenaOk, BlocksOk, Linked, Sorted, FreeBlock.Books, FreeBlock.Room;
    FrameGrows(a, a, {});
    SkipSurvives(a, a, Bases(ord, regs), Keys(ord, regs), Bases(ord, regs'), Keys(ord, regs'), s, maxsize, level,
                 Head(ord), Tail(ord), {});
  }

  /** A new pointer block for a region that is not in use. */
  lemma LinkChanged(t: Table, nchains: nat, ord: Order, o: int, b: int)
    requires TableOk(t, nchains) && o in t.m && t.m[o].kind != Used
    ensures t.m[o].slot < |t.regs|
    ensures TableOk(t.(regs := t.regs[t.m[o].slot := WithLink(ord, t.regs[t.m[o].slot], b)]), nchains)
  {
    hide Chained, Placed, EmptyOk, FreeBlock.Books, FreeBlock.Room;
    assert Filed(t.regs, o, t.m[o]);
    var t' := t.(regs := t.regs[t.m[o].slot := WithLink(ord, t.regs[t.m[o].slot], b)]);
    RecordChanged(t, t', nchains, o);
  }

  /** A new extent for a region that is not in use. */
  lemma ExtentChanged(t: Table, nchains: nat, o: int, extent: int)
    requires TableOk(t, nchains) && o in t.m && t.m[o].kind != Used
    requires 0 < extent < HUGE_EXT && extent % 2 == 0
    ensures t.m[o].slot < |t.regs|
    ensures var x := t.m[o].slot;
            TableOk(t.(regs := t.regs[x := t.regs[x].(extent := extent)], m := t.m[o := t.m[o].(extent := extent)]),
                    nchains)
    ensures FreeSlots(t.m[o := t.m[o].(extent := extent)]) == FreeSlots(t.m)
  {
    hide Chained, Placed, EmptyOk, FreeBlock.Books, FreeBlock.Room;
    assert Filed(t.regs, o, t.m[o]);
    var x := t.m[o].slot;
    var m' := t.m[o := t.m[o].(extent := extent)];
    RecordChanged(t, t.(regs := t.regs[x := t.regs[x].(extent := extent)], m := m'), nchains, o);
    SameFree(t.m, m');
  }

  /** A region moves between free and held. */
  lemma KindChanged(t: Table, nchains: nat, o: int, kind: Kind)
    requires TableOk(t, nchains) && o in t.m && t.m[o].kind != Used && kind != Used
    ensures var s := t.m[o].(kind := kind);
            TableOk(t.(m := t.m[o := s], held := if kind == Held then t.held + {o} else t.held - {o}), nchains)
    ensures t.m[o].kind == Held && kind == Free ==>
              FreeSlots(t.m[o := t.m[o].(kind := Free)]) == FreeSlots(t.m) + {t.m[o].slot} && o in t.held
    ensures t.m[o].kind == Free && kind == Held ==>
              FreeSlots(t.m[o := t.m[o].(kind := Held)]) == FreeSlots(t.m) - {t.m[o].slot} && o !in t.held
  {
    hide Chained, Placed, EmptyOk, MapOk, FreeBlock.Books, FreeBlock.Room;
    RecordOf(t, nchains, o);
    var s := t.m[o].(kind := kind);
    var t' := t.(m := t.m[o := s], held := if kind == Held then t.held + {o} else t.held - {o});
    RecordChanged(t, t', nchains, o);
    FreeSlotsChange(t.regs, t.m, o, kind);
  }

  lemma HeldNotFree(t: Table, nchains: nat, o: int)
    requires TableOk(t, nchains) && o in t.m && t.m[o].kind != Free
    ensures t.m[o].slot !in FreeSlots(t.m)
  {
    hide Chained, Placed, EmptyOk, FreeBlock.Books, FreeBlock.Room;
    forall p | p in t.m && t.m[p].kind == Free ensures t.m[p].slot != t.m[o].slot {
      if t.m[p].slot == t.m[o].slot { SlotsDiffer(t.regs, t.m, o, p); }
    }
  }

  lemma RecordOf(t: Table, nchains: nat, o: int)
    requires TableOk(t, nchains) && o in t.m
    ensures Filed(t.regs, o, t.m[o])
  {
    hide Chained, Placed, EmptyOk, Kinds, FreeBlock.Books, FreeBlock.Room;
  }

  lemma KindOf(t: Table, nchains: nat, o: int)
    requires TableOk(t, nchains) && o in t.m
    ensures o in t.held <==> t.m[o].kind == Held
    ensures o in t.where <==> t.m[o].kind == Used
  {
    hide Chained, Placed, EmptyOk, MapOk, FreeBlock.Books, FreeBlock.Room;
  }

  lemma FreeSlotsChange(regs: seq<Region>, m: Layout, o: int, kind: Kind)
    requires MapOk(regs, m) && o in m
    ensures m[o].kind != Free && kind == Free ==> FreeSlots(m[o := m[o].(kind := kind)]) == FreeSlots(m) + {m[o].slot}
    ensures m[o].kind == Free && kind != Free ==> FreeSlots(m[o := m[o].(kind := kind)]) == FreeSlots(m) - {m[o].slot}
  {
    var m' := m[o := m[o].(kind := kind)];
    forall p | p in m && m[p].kind == Free && p != o ensures m[p].slot in FreeSlots(m') && m[p].slot in FreeSlots(m)
        && m[p].slot != m[o].slot {
      assert m'[p].kind == Free;
      if m[p].slot == m[o].slot { SlotsDiffer(regs, m, o, p); }
    }
    if kind == Free { assert o in m' && m'[o].slot in FreeSlots(m'); }
    if m[o].kind == Free { assert m[o].slot in FreeSlots(m); }
  }

  /** The lowest pointer of a node names the node behind it. */
  lemma NextRight(a: Arena, regs: seq<Region>, s: Skip, maxsize: nat, level: int, j: nat)
    requires SkipOk(a, Bases(ByOffset, regs), Keys(ByOffset, regs), s, maxsize, level, RL_FOFF_HD, RL_FOFF_TL)
             && j < s.Last()
    ensures s.order[j] < |regs| && s.order[j + 1] < |regs|
    ensures 0 <= regs[s.order[j]].next < |a.words| && a.words[regs[s.order[j]].next] == s.order[j + 1]
  {
    hide BlocksOk, Sorted, Next, FreeBlock.Books, FreeBlock.Room;
    NextAtBottom(s, |regs|, maxsize, level, RL_FOFF_HD, RL_FOFF_TL, j);
    LinkedAt(a.words, Bases(ByOffset, regs), s, maxsize, j, 0);
  }

  /** The record of a finished search at the lowest level is the node right before the place found. */
  lemma BottomPassed(keys: seq<Key>, s: Skip, level: int, t: Key, w: nat, c: nat, update: seq<int>, at: seq<nat>,
                     a: Arena, base: seq<int>, maxsize: nat, head: nat, tail: nat)
    requires SkipOk(a, base, keys, s, maxsize, level, head, tail)
    requires Probe(keys, s, level, t, w, -1, c, update, at)
    ensures 0 < w < |s.order| && |update| > 0 && update[0] == s.order[w - 1]
  {
    hide BlocksOk, Sorted, Linked, FreeBlock.Books, FreeBlock.Room;
    assert Passed(s, w, 0, update[0], at[0]);
    SearchEnd(s, |base|, maxsize, level, head, tail, w, at[0]);
  }

  /** What a node of the list by offset is. */
  lemma NodeIsFree(t: Table, nchains: nat, s: Skip, i: nat)
    requires TableOk(t, nchains) && Nodes(s) == FreeSlots(t.m) && 0 < i < s.Last() && i < |s.order|
    ensures s.order[i] < |t.regs|
    ensures var o := t.regs[s.order[i]].offset; o in t.m && t.m[o].kind == Free && t.m[o].slot == s.order[i]
  {
    hide Chained, Placed, EmptyOk, FreeBlock.Books, FreeBlock.Room;
    assert s.order[i] in Nodes(s);
    var p :| p in t.m && t.m[p].kind == Free && t.m[p].slot == s.order[i];
    assert Filed(t.regs, p, t.m[p]);
  }

  /** Nodes of the list by offset are in the order of their offsets. */
  lemma OffsetOrder(a: Arena, regs: seq<Region>, s: Skip, maxsize: nat, level: int, i: nat, j: nat)
    requires SkipOk(a, Bases(ByOffset, regs), Keys(ByOffset, regs), s, maxsize, level, RL_FOFF_HD, RL_FOFF_TL)
    requires i < |s.order| && j < |s.order|
    ensures s.order[i] < |regs| && s.order[j] < |regs|
    ensures i < j <==> regs[s.order[i]].offset < regs[s.order[j]].offset
  {
    hide BlocksOk, Linked, FreeBlock.Books, FreeBlock.Room;
    var ks := Keys(ByOffset, regs);
    var x, y := ks[s.order[i]], ks[s.order[j]];
    assert i < j ==> x.Less(y);
    assert j < i ==> y.Less(x);
  }

  lemma RightNeighbour(t: Table, nchains: nat, a: Arena, s: Skip, maxsize: nat, level: int, lo: int, hi: int, o: int,
                       j: nat)
    requires TableOk(t, nchains) && Tiled(t.m, lo, hi) && Nodes(s) == FreeSlots(t.m)
    requires SkipOk(a, Bases(ByOffset, t.regs), Keys(ByOffset, t.regs), s, maxsize, level, RL_FOFF_HD, RL_FOFF_TL)
    requires o in t.m && t.m[o].kind == Free && 0 < j < s.Last() && s.order[j] == t.m[o].slot
    ensures s.order[j + 1] < |t.regs|
    ensures RightOf(t.m, o, s.order[j + 1], t.regs[s.order[j + 1]].offset)
  {
    hide BlocksOk, Linked, Sorted, TableOk, FreeSlots, Nodes, FreeBlock.Books, FreeBlock.Room;
    RecordOf(t, nchains, o);
    var y, e := s.order[j + 1], o + t.m[o].extent;
    if j + 1 < s.Last() {
      NodeIsFree(t, nchains, s, j + 1);
      OffsetOrder(a, t.regs, s, maxsize, level, j, j + 1);
    }
    if e in t.m && t.m[e].kind == Free {
      RecordOf(t, nchains, e);
      FreeIsListed(t, nchains, e);
      var i := PlaceOf(s, t.m[e].slot);
      OffsetOrder(a, t.regs, s, maxsize, level, j, i);
      OffsetOrder(a, t.regs, s, maxsize, level, j + 1, i);
    }
  }

  lemma LeftNeighbour(t: Table, nchains: nat, a: Arena, s: Skip, maxsize: nat, level: int, lo: int, hi: int, o: int,
                      j: nat)
    requires TableOk(t, nchains) && Tiled(t.m, lo, hi) && Nodes(s) == FreeSlots(t.m)
    requires SkipOk(a, Bases(ByOffset, t.regs), Keys(ByOffset, t.regs), s, maxsize, level, RL_FOFF_HD, RL_FOFF_TL)
    requires o in t.m && t.m[o].kind == Free && 0 < j < s.Last() && s.order[j] == t.m[o].slot
    ensures s.order[j - 1] < |t.regs|
    ensures LeftOf(t.m, o, s.order[j - 1], t.regs[s.order[j - 1]].offset)
  {
    hide BlocksOk, Linked, Sorted, TableOk, FreeSlots, Nodes, FreeBlock.Books, FreeBlock.Room;
    RecordOf(t, nchains, o);
    var y := s.order[j - 1];
    if 0 < j - 1 {
      NodeIsFree(t, nchains, s, j - 1);
      RecordOf(t, nchains, t.regs[y].offset);
      OffsetOrder(a, t.regs, s, maxsize, level, j - 1, j);
    }
    forall l | l in t.m && t.m[l].kind == Free && l + t.m[l].extent == o
      ensures y != RL_FOFF_HD && t.regs[y].offset == l
    {
      RecordOf(t, nchains, l);
      FreeIsListed(t, nchains, l);
      var i := PlaceOf(s, t.m[l].slot);
      OffsetOrder(a, t.regs, s, maxsize, level, i, j);
      OffsetOrder(a, t.regs, s, maxsize, level, i, j - 1);
    }
  }

  lemma NodesSame(a: Arena, base: seq<int>, keys: seq<Key>, base': seq<int>, keys': seq<Key>, s: Skip, maxsize: nat,
                  level: int, head: nat, tail: nat)
    requires SkipOk(a, base, keys, s, maxsize, level, head, tail) && base' == base && keys' == keys
    ensures SameNodes(base, keys, base', keys', s) && s.blocks <= a.out
  {
  }

  /** A node's key is below the tail's, so the search for it is bounded. */
  lemma DeleteKey(a: Arena, ord: Order, regs: seq<Region>, s: Skip, maxsize: nat, level: int, j: nat)
    requires SkipOk(a, Bases(ord, regs), Keys(ord, regs), s, maxsize, level, Head(ord), Tail(ord)) && 0 < j < s.Last()
    ensures s.order[j] < |regs| && Tail(ord) < |regs| && !KeyIn(ord, regs[Tail(ord)]).Less(KeyIn(ord, regs[s.order[j]]))
    ensures IsRank(Keys(ord, regs), s, KeyIn(ord, regs[s.order[j]]), j)
  {
    hide BlocksOk, Linked, FreeBlock.Books, FreeBlock.Room;
    RankOfNode(Keys(ord, regs), s, j);
    assert Keys(ord, regs)[s.order[j]].Less(Keys(ord, regs)[s.order[s.Last()]]);
  }

  lemma DeletePlace(ord: Order, regs: seq<Region>, s: Skip, level: int, j: nat, w: nat, c: nat, update: seq<int>,
                    at: seq<nat>)
    requires 0 < j < |s.order| && s.order[j] < |regs| && IsRank(Keys(ord, regs), s, KeyIn(ord, regs[s.order[j]]), j)
    requires Probe(Keys(ord, regs), s, level, KeyIn(ord, regs[s.order[j]]), w, -1, c, update, at)
    ensures w == j
  {
    RankUnique(Keys(ord, regs), s, KeyIn(ord, regs[s.order[j]]), j, w);
  }
}
