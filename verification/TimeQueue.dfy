/**
 The time queue (storage/pq/TimeQueue.cpp): the products of the queue in
 insertion order, as a skip list of (time, offset) elements whose times are all
 different.
 */
module TimeQueues {
  import opened SkipTheory
  import opened FreeBlocks
  import opened SkipLinks
  import opened Timestamps

  const TQ_NONE := -1
  const TQ_NIL := 0
  const TQ_HEAD := 1

  datatype Match = LessThan | Equal | GreaterThan

  datatype Element = Element(tv: Timestamp, offset: int, fblk: int)

  /** A product in the queue: when it was inserted and where it is. */
  datatype Entry = Entry(tv: Timestamp, offset: int)

  function KeyOf(t: Timestamp): Key {
    Key(t.sec, t.usec)
  }

  ghost function Bases(es: seq<Element>): seq<int> {
    seq(|es|, i requires 0 <= i < |es| => es[i].fblk)
  }

  ghost function Keys(es: seq<Element>): seq<Key> {
    seq(|es|, i requires 0 <= i < |es| => KeyOf(es[i].tv))
  }

  ghost function Offsets(es: seq<Element>): seq<int> {
    seq(|es|, i requires 0 <= i < |es| => es[i].offset)
  }

  datatype Tq = Tq(es: seq<Element>, level: int, freeHead: int, nelems: int, nfree: int, list: Skip, frees: seq<int>)

  /** The unused elements are chained through their offsets, apart from the list. */
  ghost predicate FreeOk(q: Tq) {
    && Chain(Offsets(q.es), q.freeHead, q.frees)
    && (forall i, j :: 0 <= i < j < |q.frees| ==> q.frees[i] != q.frees[j])
    && (forall i, j :: 0 <= i < |q.frees| && 0 <= j < |q.list.order| ==> q.frees[i] != q.list.order[j])
  }

  ghost predicate EntriesOk(q: Tq) {
    forall i :: 0 < i < q.list.Last() ==>
      q.list.order[i] < |q.es| && q.es[q.list.order[i]].tv.Normal() && 0 <= q.es[q.list.order[i]].offset
  }

  ghost predicate Sentinels(es: seq<Element>) {
    && 2 <= |es|
    && es[TQ_NIL].tv == ENDT && es[TQ_NIL].offset == -1
    && es[TQ_HEAD].tv == NONE && es[TQ_HEAD].offset == -1
  }

  /** Every element is a sentinel, listed or unused, and the counters say so. */
  ghost predicate TqOk(q: Tq, nalloc: int) {
    && |q.es| == nalloc + 2 && Sentinels(q.es)
    && FreeOk(q) && EntriesOk(q)
    && q.nfree == |q.frees| && q.nelems == |q.list.order| && q.nelems + q.nfree == nalloc + 2
  }

  /** The queue's products in list order. */
  ghost function Entries(es: seq<Element>, s: Skip): (r: seq<Entry>)
    requires 2 <= |s.order| && forall i :: 0 <= i < |s.order| ==> s.order[i] < |es|
    ensures |r| == |s.order| - 2
  {
    seq(|s.order| - 2, i requires 0 <= i < |s.order| - 2 => Entry(es[s.order[i + 1]].tv, es[s.order[i + 1]].offset))
  }

  /** Times strictly increase along the queue. */
  ghost predicate Increasing(r: seq<Entry>) {
    forall i, j :: 0 <= i < j < |r| ==> r[i].tv.Less(r[j].tv)
  }

  /** What a lookup means: `j` counts the entries up to the one found, and is 0 if there is none. */
  ghost predicate Found(r: seq<Entry>, key: Timestamp, mt: Match, j: nat) {
    j <= |r| &&
    match mt
    case LessThan =>
      && (forall i :: 0 <= i < j ==> r[i].tv.Less(key))
      && (forall i :: j <= i < |r| ==> !r[i].tv.Less(key))
    case Equal =>
      if j == 0 then forall i :: 0 <= i < |r| ==> r[i].tv != key else r[j - 1].tv == key
    case GreaterThan =>
      if j == 0 then forall i :: 0 <= i < |r| ==> !key.Less(r[i].tv)
      else key.Less(r[j - 1].tv) && forall i :: 0 <= i < j - 1 ==> !key.Less(r[i].tv)
  }

  /** `t` is the first time at or after `now` that no entry has. */
  ghost predicate LeastUnused(r: seq<Entry>, now: Timestamp, t: Timestamp) {
    && t.Normal() && !t.Less(now)
    && (forall i :: 0 <= i < |r| ==> r[i].tv != t)
    && forall u: Timestamp :: u.Normal() && !u.Less(now) && u.Less(t) ==> exists i :: 0 <= i < |r| && r[i].tv == u
  }

  lemma EntriesIncrease(a: Arena, es: seq<Element>, s: Skip, maxsize: nat, level: int)
    requires SkipOk(a, Bases(es), Keys(es), s, maxsize, level, TQ_HEAD, TQ_NIL)
    ensures Increasing(Entries(es, s))
  {
    hide BlocksOk, Linked, FreeBlock.Books, FreeBlock.Room;
    var r := Entries(es, s);
    forall i, j | 0 <= i < j < |r| ensures r[i].tv.Less(r[j].tv) {
      assert Keys(es)[s.order[i + 1]].Less(Keys(es)[s.order[j + 1]]);
    }
  }

  /** The result of a finished search, read off the place it found. */
  lemma RankFinds(es: seq<Element>, s: Skip, key: Timestamp, p: nat, mt: Match)
    requires 2 <= |s.order| && forall i :: 0 <= i < |s.order| ==> s.order[i] < |es|
    requires Sorted(Keys(es), s) && IsRank(Keys(es), s, KeyOf(key), p)
    ensures var r := Entries(es, s);
            && (mt == LessThan ==> Found(r, key, mt, p - 1))
            && (mt == Equal ==> Found(r, key, mt, if es[s.order[p]].tv == key && p < s.Last() then p else 0))
            && (mt == GreaterThan ==>
                  Found(r, key, mt,
                        if p == s.Last() then 0
                        else if es[s.order[p]].tv != key then p
                        else if p + 1 == s.Last() then 0 else p + 1))
  {
    var r := Entries(es, s);
    var ks := Keys(es);
    forall i | 0 <= i < |r| ensures r[i].tv.Less(key) <==> i < p - 1 {
      assert ks[s.order[i + 1]].Less(KeyOf(key)) <==> i + 1 < p;
    }
    forall i | p <= i < |r| ensures key.Less(r[i].tv) && r[i].tv != key {
      assert ks[s.order[p]].Less(ks[s.order[i + 1]]);
    }
  }

  // ---------------------------------------------------------------------
  // The queue
  // ---------------------------------------------------------------------

  class TimeQueue {
    const nalloc: nat
    const fb: FreeBlock
    const tqep: array<Element>
    var nelems: int
    var nfree: int
    var freeHead: int
    var level: int
    ghost var list: Skip
    ghost var frees: seq<int>

    ghost function View(): Tq
      reads this, tqep
    {
      Tq(tqep[..], level, freeHead, nelems, nfree, list, frees)
    }

    ghost predicate Local()
      reads this, tqep
    {
      TqOk(View(), nalloc)
    }

    /** The arena words of this queue's blocks spell out its list. */
    ghost predicate Threads(a: Arena)
      reads this, tqep
    {
      SkipOk(a, Bases(tqep[..]), Keys(tqep[..]), list, fb.maxsize, level, TQ_HEAD, TQ_NIL)
    }

    ghost predicate Valid()
      reads this, tqep, fb, fb.nfree, fb.free, fb.fblks
    {
      fb.Valid() && Local() && Threads(fb.Mem())
    }

    ghost predicate InTable()
      reads this, tqep
    {
      2 <= |list.order| && forall i :: 0 <= i < |list.order| ==> list.order[i] < tqep.Length
    }

    ghost function Contents(): seq<Entry>
      requires InTable()
      reads this, tqep
    {
      Entries(tqep[..], list)
    }

    lemma ThreadsIncrease()
      requires Valid()
      ensures InTable() && Increasing(Contents())
    {
      hide Local, Threads, Contents, FreeBlock.Books, FreeBlock.Room;
      ThreadsInTable(fb.Mem());
    }

    lemma BlockCount()
      requires Valid()
      ensures InTable() && list.blocks <= fb.out && |list.blocks| == |Contents()| + 2
    {
      hide FbOk, TqOk, Linked, Sorted, Increasing, FreeBlock.Books, FreeBlock.Room;
      ThreadsInTable(fb.Mem());
    }

    lemma ThreadsInTable(a: Arena)
      requires Threads(a)
      ensures InTable() && Increasing(Contents())
    {
      EntriesIncrease(a, tqep[..], list, fb.maxsize, level);
    }

    /** Every product's time is before the end of time. */
    lemma BelowEnd()
      requires Valid() && InTable()
      ensures forall i :: 0 <= i < |Contents()| ==> Contents()[i].tv.Less(ENDT)
    {
      hide FbOk, BlocksOk, Linked, FreeOk, EntriesOk, FreeBlock.Books, FreeBlock.Room;
      var ks := Keys(tqep[..]);
      forall i | 0 <= i < |Contents()| ensures Contents()[i].tv.Less(ENDT) {
        assert ks[list.order[i + 1]].Less(ks[list.order[list.Last()]]);
      }
    }

    /** Every product's time is in normal form. */
    lemma Normal()
      requires Valid() && InTable()
      ensures forall i :: 0 <= i < |Contents()| ==> Contents()[i].tv.Normal()
    {
      hide FbOk, BlocksOk, Linked, Sorted, FreeOk, FreeBlock.Books, FreeBlock.Room;
      forall i | 0 <= i < |Contents()| ensures Contents()[i].tv.Normal() {
        assert 0 < i + 1 < list.Last();
      }
    }

    lemma Pieces()
      ensures Valid() <==> fb.Valid() && Threads(fb.Mem()) && Local()
    {
      hide FbOk, SkipOk, TqOk, FreeBlock.Books, FreeBlock.Room;
    }

    /** The queue survives a change to other blocks of the arena. */
    lemma Survives(a: Arena, own: set<int>, a': Arena, own': set<int>)
      requires Threads(a) && ArenaOk(a) && ArenaOk(a') && Kept(a, own, a', own') && own !! list.blocks
      ensures Threads(a') && own' !! list.blocks
    {
      hide ArenaOk, Frame, FreeBlock.Books, FreeBlock.Room;
      var bs, ks := Bases(tqep[..]), Keys(tqep[..]);
      SkipSurvives(a, a', bs, ks, bs, ks, list, fb.maxsize, level, TQ_HEAD, TQ_NIL, own);
    }

    /** An empty queue with room for `n` products. */
    constructor (n: nat, arena: FreeBlock)
      requires 0 < n && arena.Valid() && arena.Room() >= 2
      modifies arena`avail, arena`outstanding, arena`size, arena`cuts, arena`peak, arena`out, arena`lists, arena.nfree,
               arena.free, arena.fblks
      ensures Valid() && fb == arena && nalloc == n && fresh(tqep)
      ensures InTable() && Contents() == []
      ensures list.blocks !! old(arena.out) && arena.out == old(arena.out) + list.blocks
      ensures Frame(old(arena.Mem()), arena.Mem(), {}) && arena.Room() >= old(arena.Room()) - if old(arena.Spare())
              then 1 else 2
    {
      nalloc, fb := n, arena;
      tqep := new Element[n + 2](i => InitialElement(n, i));
      nelems, nfree, freeHead, level := 2, n, 2, 0;
      list, frees := Skip([TQ_HEAD, TQ_NIL], [arena.maxsize, arena.maxsize], {}), seq(n, i => i + 2);
      new;
      Initialize();
    }

    /** Give the sentinels their pointers: every pointer of the head is the tail. */
    method Initialize()
      requires fb.Valid() && fb.Room() >= 2 && 0 < nalloc && tqep.Length == nalloc + 2
      requires forall i :: 0 <= i < tqep.Length ==> tqep[i] == InitialElement(nalloc, i)
      requires nelems == 2 && nfree == nalloc && freeHead == 2 && level == 0
      requires list == Skip([TQ_HEAD, TQ_NIL], [fb.maxsize, fb.maxsize], {}) && frees == seq(nalloc, i => i + 2)
      modifies this`list, tqep
      modifies fb`avail, fb`outstanding, fb`size, fb`cuts, fb`peak, fb`out, fb`lists, fb.nfree, fb.free, fb.fblks
      ensures Valid() && InTable() && Contents() == []
      ensures list.blocks !! old(fb.out) && fb.out == old(fb.out) + list.blocks
      ensures Frame(old(fb.Mem()), fb.Mem(), {}) && fb.Room() >= old(fb.Room()) - if old(fb.Spare()) then 1 else 2
    {
      hide FbOk, ArenaOk, Frame, SkipOk, InitialElement, TqOk, FreeBlock.Books, FreeBlock.Room;
      var headBlk, nilBlk := SentinelBlocks(fb, TQ_NIL, true);
      tqep[TQ_NIL] := tqep[TQ_NIL].(fblk := nilBlk);
      tqep[TQ_HEAD] := tqep[TQ_HEAD].(fblk := headBlk);
      list := list.(blocks := {headBlk, nilBlk});
      InitialOk(View(), nalloc, fb.maxsize, nilBlk, headBlk);
      EmptyQueueOk(fb.View(), fb.maxsize, fb.arenaSz, tqep[..]);
    }

    /** Move right on level `k` as long as the next element is earlier than `t`. */
    method Advance(t: Timestamp, k: int, from: int, ghost w: nat, ghost c0: nat, ghost up: seq<int>, ghost at: seq<nat>)
      returns (p: int, q: int, ghost c: nat, ghost n: nat)
      requires Valid() && InTable() && 0 <= k
      requires Probe(Keys(tqep[..]), list, level, KeyOf(t), w, k, c0, up, at) && from == list.order[c0]
      ensures Ahead(Keys(tqep[..]), list, level, KeyOf(t), w, k, c, n, up, at) && n >= w
      ensures p == list.order[c] && q == list.order[n] && 0 <= q < tqep.Length && !tqep[q].tv.Less(t)
    {
      hide Sorted, BlocksOk, Linked, TqOk, FbOk, FreeBlock.Books, FreeBlock.Room;
      ghost var bs, ks := Bases(tqep[..]), Keys(tqep[..]);
      p, c := from, c0;
      n := ProbeStep(fb.Mem(), bs, ks, list, fb.maxsize, level, TQ_HEAD, TQ_NIL, KeyOf(t), w, k, c, up, at);
      q := fb.fblks[tqep[p].fblk + k];
      while tqep[q].tv.Less(t)
        invariant Ahead(ks, list, level, KeyOf(t), w, k, c, n, up, at)
        invariant p == list.order[c] && q == list.order[n] && 0 <= q < tqep.Length
        decreases w - c
      {
        p, c := q, n;
        n := ProbeStep(fb.Mem(), bs, ks, list, fb.maxsize, level, TQ_HEAD, TQ_NIL, KeyOf(t), w, k, c, up, at);
        q := fb.fblks[tqep[p].fblk + k];
      }
    }

    /** The last element below `key`, the one at `key`, or the first one above; none if there is no such element. */
    method Find(key: Timestamp, mt: Match) returns (r: int, ghost j: nat)
      requires Valid() && !ENDT.Less(key)
      ensures InTable() && Increasing(Contents())
      ensures mt == Equal && key == ENDT && Contents() != [] ==> r == TQ_NIL
      ensures !(mt == Equal && key == ENDT && Contents() != []) ==>
                && Found(Contents(), key, mt, j)
                && (r == TQ_NONE <==> j == 0)
                && (r != TQ_NONE ==> j < list.Last() && r == list.order[j])
    {
      hide Sorted, BlocksOk, Linked, TqOk, FbOk, Increasing, FreeBlock.Books, FreeBlock.Room;
      ghost var es := tqep[..];
      ThreadsInTable(fb.Mem());
      TqFacts(View(), nalloc);
      SizeBounds(fb.View(), fb.maxsize, fb.arenaSz);
      if nelems - 2 == 0 { return TQ_NONE, 0; }
      var p := TQ_HEAD;
      var k := level;
      var q := TQ_NIL;
      ghost var c: nat, n: nat := 0, 0;
      ghost var up: seq<int>, at: seq<nat> := Blank15(), Blank15();
      ghost var bs, ks := Bases(es), Keys(es);
      ghost var w := ProbeStart(bs, ks, list, fb.maxsize, level, TQ_HEAD, TQ_NIL, KeyOf(key), up, at);
      while k >= 0
        invariant Probe(ks, list, level, KeyOf(key), w, k, c, up, at) && p == list.order[c]
        invariant k < 0 ==> c + 1 == w && q == list.order[w]
      {
        p, q, c, n := Advance(key, k, p, w, c, up, at);
        up, at := up[k := list.order[c]], at[k := c];
        k := k - 1;
      }
      RankFinds(es, list, key, w, mt);
      RankAtEnd(es, list, key, w);
      match mt
      case LessThan =>
        if p == TQ_HEAD { return TQ_NONE, 0; }
        return p, c;
      case Equal =>
        if tqep[q].tv == key { return q, w; }
        return TQ_NONE, 0;
      case GreaterThan =>
        if q == TQ_NIL { return TQ_NONE, 0; }
        if tqep[q].tv == key {
          Bottom(fb.Mem(), es, list, fb.maxsize, level, w);
          q := fb.fblks[tqep[q].fblk];
          if q == TQ_NIL { return TQ_NONE, 0; }
          return q, w + 1;
        }
        return q, w;
    }

    method First() returns (r: int)
      requires Valid()
      ensures InTable()
      ensures r == if Contents() == [] then TQ_NONE else list.order[1]
    {
      hide Sorted, BlocksOk, Linked, TqOk, FbOk, Increasing, FreeBlock.Books, FreeBlock.Room;
      ThreadsInTable(fb.Mem());
      Bottom(fb.Mem(), tqep[..], list, fb.maxsize, level, 0);
      var q := fb.fblks[tqep[TQ_HEAD].fblk];
      if q == TQ_NIL { return TQ_NONE; }
      return q;
    }

    /** The element after `x`; after the last one, the tail sentinel. */
    method Next(x: int, ghost j: nat) returns (r: int)
      requires Valid() && InTable() && j < list.Last() && x == list.order[j]
      ensures r == list.order[j + 1] && 0 <= r < tqep.Length
    {
      hide Sorted, BlocksOk, Linked, TqOk, FbOk, FreeBlock.Books, FreeBlock.Room;
      Bottom(fb.Mem(), tqep[..], list, fb.maxsize, level, j);
      r := fb.fblks[tqep[x].fblk];
    }

    /** The search of `Delete`: by time and then offset, from the top level down. */
    method Locate(x: int, ghost j: nat) returns (q: int, update: seq<int>, ghost at: seq<nat>, ghost c: nat)
      requires Valid() && InTable() && 0 < j < list.Last() && x == list.order[j]
      ensures q == x && level < |update|
      ensures Probe(Keys(tqep[..]), list, level, KeyOf(tqep[x].tv), j, -1, c, update, at)
    {
      hide Sorted, BlocksOk, Linked, TqOk, FbOk, FreeBlock.Books, FreeBlock.Room;
      ghost var es, bs, ks := tqep[..], Bases(tqep[..]), Keys(tqep[..]);
      SizeBounds(fb.View(), fb.maxsize, fb.arenaSz);
      var t := tqep[x].tv;
      RankOfNode(ks, list, j);
      update, at := Blank15(), Blank15();
      var p := TQ_HEAD;
      var k := level;
      ghost var n: nat := 0;
      c := 0;
      q := TQ_NIL;
      while k >= 0
        invariant Probe(ks, list, level, KeyOf(t), j, k, c, update, at) && p == list.order[c]
        invariant k < 0 ==> q == x
      {
        n := ProbeStep(fb.Mem(), bs, ks, list, fb.maxsize, level, TQ_HEAD, TQ_NIL, KeyOf(t), j, k, c, update, at);
        q := fb.fblks[tqep[p].fblk + k];
        SameTime(ks, list, j, n);
        while tqep[q].tv.Less(t) || (tqep[q].tv == t && tqep[q].offset < tqep[x].offset)
          invariant Ahead(ks, list, level, KeyOf(t), j, k, c, n, update, at)
          invariant p == list.order[c] && q == list.order[n] && q < tqep.Length
          invariant tqep[q].tv == t ==> n == j
          decreases j - c
        {
          p, c := q, n;
          n := ProbeStep(fb.Mem(), bs, ks, list, fb.maxsize, level, TQ_HEAD, TQ_NIL, KeyOf(t), j, k, c, update, at);
          q := fb.fblks[tqep[p].fblk + k];
          SameTime(ks, list, j, n);
        }
        update, at := update[k := p], at[k := c];
        k := k - 1;
      }
    }

    /** Give back an unlinked element's pointers, and the element to the unused ones. */
    method FreeElement(lv: int, x: int, ghost j: nat, ghost bs: seq<int>, ghost ks: seq<Key>)
      requires fb.Valid() && Local() && InTable() && bs == Bases(tqep[..]) && ks == Keys(tqep[..])
      requires ShapeOk(list, tqep.Length, fb.maxsize, level, TQ_HEAD, TQ_NIL) && 0 < j < list.Last()
               && x == list.order[j]
      requires SkipOk(fb.Mem(), bs, ks, Removed(list, j, bs[x]), fb.maxsize, level, TQ_HEAD, TQ_NIL)
      requires bs[x] in fb.out && bs[x] in fb.size && fb.size[bs[x]] == lv + 1 && 0 <= lv < fb.maxsize
      modifies this`nelems, this`nfree, this`freeHead, this`list, this`frees, tqep
      modifies fb`avail, fb`outstanding, fb`out, fb`lists, fb.nfree, fb.free, fb.fblks
      ensures fb.Valid() && Local() && Threads(fb.Mem())
      ensures InTable() && Contents() == RemoveAt(old(Contents()), j - 1)
      ensures list == Removed(old(list), j, bs[x]) && tqep[TQ_HEAD] == old(tqep[TQ_HEAD])
      ensures fb.out == old(fb.out) - {bs[x]} && Frame(old(fb.Mem()), fb.Mem(), {bs[x]})
      ensures old(fb.Room()) <= fb.Room()
    {
      hide SkipOk, TqOk, ArenaOk, Frame, Chains, Once, Listed, Total, ShapeOk, SameNodes;
      hide FreeBlock.Books, FreeBlock.Room;
      ghost var a := fb.Mem();
      fb.Release(lv + 1, tqep[x].fblk);
      Unlist(x, j, bs, ks);
      SkipSurvives(a, fb.Mem(), bs, ks, Bases(tqep[..]), Keys(tqep[..]), list, fb.maxsize, level, TQ_HEAD, TQ_NIL,
                   {bs[x]});
    }

    /** The element `x` is unused from now on. */
    method Unlist(x: int, ghost j: nat, ghost bs: seq<int>, ghost ks: seq<Key>)
      requires Local() && InTable() && bs == Bases(tqep[..]) && ks == Keys(tqep[..])
      requires ShapeOk(list, tqep.Length, fb.maxsize, level, TQ_HEAD, TQ_NIL) && 0 < j < list.Last()
               && x == list.order[j]
      modifies this`nelems, this`nfree, this`freeHead, this`list, this`frees, tqep
      ensures Local() && InTable() && Contents() == RemoveAt(old(Contents()), j - 1)
      ensures list == Removed(old(list), j, bs[x]) && tqep[TQ_HEAD] == old(tqep[TQ_HEAD])
      ensures SameNodes(bs, ks, Bases(tqep[..]), Keys(tqep[..]), list)
    {
      hide TqOk, SameNodes;
      ghost var v := View();
      DeletedOk(v, nalloc, fb.maxsize, x, j, bs[x]);
      tqep[x] := Element(NONE, freeHead, -1);
      freeHead := x;
      nfree := nfree + 1;
      nelems := nelems - 1;
      frees := [x] + frees;
      list := Removed(list, j, bs[x]);
      assert View() == Freed(v, x, j, bs[x]);
      DeletedSame(v, fb.maxsize, x, j, bs[x]);
    }

    /** Unlink the element found by `Locate` and free it. */
    method Detach(x: int, ghost j: nat, update: seq<int>, ghost at: seq<nat>, ghost c: nat)
      requires Valid() && InTable() && 0 < j < list.Last() && x == list.order[j] && level < |update|
      requires Probe(Keys(tqep[..]), list, level, KeyOf(tqep[x].tv), j, -1, c, update, at)
      modifies this`nelems, this`nfree, this`freeHead, this`list, this`frees, tqep
      modifies fb`avail, fb`outstanding, fb`out, fb`lists, fb.nfree, fb.free, fb.fblks
      ensures Valid() && InTable() && Contents() == RemoveAt(old(Contents()), j - 1)
      ensures old(tqep[x].fblk) in old(list.blocks)
      ensures list.blocks == old(list.blocks) - {old(tqep[x].fblk)} && fb.out == old(fb.out) - {old(tqep[x].fblk)}
      ensures Frame(old(fb.Mem()), fb.Mem(), old(list.blocks))
      ensures old(fb.Room()) <= fb.Room()
    {
      hide Sorted, BlocksOk, Linked, TqOk, FbOk, ArenaOk, Frame, Probe, Recorded, FreeBlock.Books, FreeBlock.Room;
      ghost var bs, ks := Bases(tqep[..]), Keys(tqep[..]);
      ghost var s0, a0 := list, fb.Mem();
      SizeBounds(fb.View(), fb.maxsize, fb.arenaSz);
      var ub;
      ghost var at';
      ub, at' := Previous(level, update, at, c, j, ks, KeyOf(tqep[x].tv));
      var k := UnlinkNode(fb, tqep[x].fblk, ub, x, level, bs, ks, list, TQ_HEAD, TQ_NIL, j, at');
      ghost var a1 := fb.Mem();
      SizeBounds(fb.View(), fb.maxsize, fb.arenaSz);
      FreeElement(k - 1, x, j, bs, ks);
      SizeBounds(fb.View(), fb.maxsize, fb.arenaSz);
      FrameTrans(a0, a1, fb.Mem(), s0.blocks, {bs[x]});
    }

    /** Take the element `x` out of the queue. */
    method Delete(x: int, ghost j: nat)
      requires Valid() && InTable() && 0 < j < list.Last() && x == list.order[j]
      modifies this`nelems, this`nfree, this`freeHead, this`level, this`list, this`frees, tqep
      modifies fb`avail, fb`outstanding, fb`out, fb`lists, fb.nfree, fb.free, fb.fblks
      ensures Valid() && InTable() && Contents() == RemoveAt(old(Contents()), j - 1)
      ensures old(tqep[x].fblk) in old(list.blocks)
      ensures list.blocks == old(list.blocks) - {old(tqep[x].fblk)} && fb.out == old(fb.out) - {old(tqep[x].fblk)}
      ensures Frame(old(fb.Mem()), fb.Mem(), old(list.blocks))
      ensures level <= old(level) && Snug(fb.Mem().words, tqep[TQ_HEAD].fblk, level, TQ_NIL)
      ensures old(fb.Room()) <= fb.Room()
    {
      hide Sorted, BlocksOk, Linked, FbOk, ArenaOk, Frame, Probe, TqOk, Entries, FreeBlock.Books, FreeBlock.Room, Snug;
      var q, update, at, c := Locate(x, j);
      if tqep[q].tv == tqep[x].tv && tqep[q].offset == tqep[x].offset {
        Detach(q, j, update, at, c);
        TqFacts(View(), nalloc);
        AnyLevel(View(), nalloc);
        level := LowerLevel(fb, tqep[TQ_HEAD].fblk, TQ_NIL, level, Bases(tqep[..]), Keys(tqep[..]), list, TQ_HEAD);
      }
    }

    /** There is an element with the time `t`: step by a microsecond, and go on from the top level's record. */
    method Retry(t: Timestamp, k: int, p: int, update: seq<int>, ghost at: seq<nat>, ghost c: nat, ghost w: nat,
                 ghost n: nat, ghost now: Timestamp, ghost gap: Timestamp)
      returns (t': Timestamp, k': int, p': int, ghost c': nat)
      requires Valid() && InTable() && 0 <= k && n >= w && UsedUpTo(Contents(), now, gap, t)
      requires Ahead(Keys(tqep[..]), list, level, KeyOf(t), w, k, c, n, update, at) && p == list.order[c]
      requires list.order[n] < tqep.Length && tqep[list.order[n]].tv == t
      ensures Probe(Keys(tqep[..]), list, level, KeyOf(t'), w + 1, k', c', update, at) && p' == list.order[c']
              && 0 <= k'
      ensures UsedUpTo(Contents(), now, gap, t') && t.Micros() < t'.Micros() <= gap.Micros()
    {
      hide BlocksOk, Linked, FreeOk, FbOk, LeastUnused, UsedUpTo, Entries, FreeBlock.Books, FreeBlock.Room;
      GapBelow(Contents(), now, gap, t);
      Collide(tqep[..], list, fb.maxsize, level, t, w, n);
      GapStep(Contents(), now, gap, t, w - 1);
      t', k', p', c' := t.Increment(), k, p, c;
      if k < level {
        assert Passed(list, w, level, update[level], at[level]);
        k', p', c' := level, update[level], at[level];
      }
    }

    /**
     The search of `Add`: look for the place of `t`, starting with `now`; on meeting an element with that very
     time, step `t` by a microsecond and go on from the top level's record.
     */
    method FindGap(now: Timestamp, ghost gap: Timestamp)
      returns (t: Timestamp, update: seq<int>, ghost at: seq<nat>, ghost c: nat, ghost w: nat)
      requires Valid() && InTable() && now.Normal() && Unused(Contents(), now, gap)
      ensures LeastUnused(Contents(), now, t) && t.Normal() && t.Less(ENDT)
      ensures Probe(Keys(tqep[..]), list, level, KeyOf(t), w, -1, c, update, at)
      ensures 1 <= w < |list.order| && |update| == MAXLEVELS
    {
      hide SkipOk, TqOk, FbOk, LeastUnused, UsedUpTo, Unused, Entries, Keys;
      hide FreeBlock.Books, FreeBlock.Room;
      ghost var ks, es' := Keys(tqep[..]), Contents();
      t := now;
      GapStart(es', now, gap);
      update, at := Blank15(), Blank15();
      w := StartProbe(t, update, at);
      var p := TQ_HEAD;
      var k := level;
      ghost var n: nat := 0;
      c := 0;
      while k >= 0
        invariant Probe(ks, list, level, KeyOf(t), w, k, c, update, at) && p == list.order[c] && |update| == MAXLEVELS
        invariant UsedUpTo(es', now, gap, t)
        invariant k < 0 ==> w < |list.order| && tqep[list.order[w]].tv != t
        decreases gap.Micros() - t.Micros(), k
      {
        var q;
        p, q, c, n := Advance(t, k, p, w, c, update, at);
        if tqep[q].tv != t {
          update, at := update[k := p], at[k := c];
          k := k - 1;
        } else {
          t, k, p, c := Retry(t, k, p, update, at, c, w, n, now, gap);
          w := w + 1;
        }
      }
      EndProbe(now, gap, t, w, c, update, at);
    }

    lemma StartProbe(t: Timestamp, update: seq<int>, at: seq<nat>) returns (w: nat)
      requires Valid() && InTable() && !ENDT.Less(t) && |update| == |at| == MAXLEVELS
      ensures 0 <= level && Probe(Keys(tqep[..]), list, level, KeyOf(t), w, level, 0, update, at)
      ensures |list.order| > 0 && list.order[0] == TQ_HEAD
    {
      hide BlocksOk, Linked, FreeOk, EntriesOk, FbOk, FreeBlock.Books, FreeBlock.Room;
      SizeBounds(fb.View(), fb.maxsize, fb.arenaSz);
      w := ProbeStart(Bases(tqep[..]), Keys(tqep[..]), list, fb.maxsize, level, TQ_HEAD, TQ_NIL, KeyOf(t), update, at);
    }

    lemma EndProbe(now: Timestamp, gap: Timestamp, t: Timestamp, w: nat, c: nat, update: seq<int>, at: seq<nat>)
      requires Valid() && InTable() && UsedUpTo(Contents(), now, gap, t)
      requires Probe(Keys(tqep[..]), list, level, KeyOf(t), w, -1, c, update, at)
      requires w < |list.order| && tqep[list.order[w]].tv != t
      ensures LeastUnused(Contents(), now, t) && t.Normal() && t.Less(ENDT) && 1 <= w
    {
      hide BlocksOk, Linked, FreeOk, EntriesOk, FbOk, LeastUnused, UsedUpTo, FreeBlock.Books, FreeBlock.Room;
      GapBelow(Contents(), now, gap, t);
      GapEnd(tqep[..], list, now, gap, t, w);
    }

    predicate HasSpace()
      reads this
    {
      nelems - 2 < nalloc
    }

    /** Take the first unused element. */
    method AllocateElement() returns (x: int)
      requires Local() && nfree > 0
      modifies this`freeHead, this`nfree, this`nelems, this`frees
      ensures |old(frees)| > 0 && x == old(frees)[0] && frees == old(frees)[1..]
      ensures 0 <= x < tqep.Length && freeHead == tqep[x].offset
      ensures nfree == old(nfree) - 1 && nelems == old(nelems) + 1
    {
      FirstFree(View(), nalloc);
      x := freeHead;
      freeHead := tqep[x].offset;
      nfree := nfree - 1;
      nelems := nelems + 1;
      frees := frees[1..];
    }

    /**
     Insert a product at the first unused time from `now` on, with a node of random height (at most one level above
     the list's).  Fails if the arena has no block for that node.
     */
    method Add(offset: int, now: Timestamp, ghost gap: Timestamp)
      returns (ok: bool, t: Timestamp, ghost w: nat, ghost nb: int)
      requires Valid() && InTable() && HasSpace() && 0 <= offset
      requires now.Normal() && !now.Less(ZERO) && Unused(Contents(), now, gap)
      modifies this`nelems, this`nfree, this`freeHead, this`level, this`list, this`frees, tqep
      modifies fb`avail, fb`outstanding, fb`size, fb`cuts, fb`peak, fb`out, fb`lists, fb.nfree, fb.free, fb.fblks
      ensures LeastUnused(old(Contents()), now, t)
      ensures ok ==>
                && Valid() && InTable()
                && 1 <= w <= |old(Contents())| + 1 && Contents() == InsertAt(old(Contents()), w - 1, Entry(t, offset))
                && nb !in old(fb.out) && fb.out == old(fb.out) + {nb} && list.blocks == old(list.blocks) + {nb}
                && Frame(old(fb.Mem()), fb.Mem(), old(list.blocks))
      ensures old(fb.Room()) > 0 ==> ok
      ensures old(fb.Room()) - 1 <= fb.Room()
    {
      hide Sorted, BlocksOk, Linked, TqOk, FbOk, ArenaOk, Frame, Probe, LeastUnused, Unused, Entries, Keys, Bases;
      hide FreeBlock.Books, FreeBlock.Room;
      hide InsertAt;
      SizeBounds(fb.View(), fb.maxsize, fb.arenaSz);
      TqFacts(View(), nalloc);
      var update;
      ghost var at, c;
      t, update, at, c, w := FindGap(now, gap);
      var k := fb.GetRandomLevel();
      if k > level { k := level + 1; }
      ok, nb := Enter(t, offset, k, update, at, c, w, now);
    }

    /** The product is in the queue, in place `w`, or the arena has no block for it. */
    method Enter(t: Timestamp, offset: int, k: int, update: seq<int>, ghost at: seq<nat>, ghost c: nat, ghost w: nat,
                 ghost now: Timestamp)
      returns (ok: bool, ghost nb: int)
      requires Valid() && InTable() && nfree > 0 && 0 <= offset
      requires 0 <= k <= level + 1 && k < fb.maxsize && |update| == MAXLEVELS && 1 <= w < |list.order|
      requires LeastUnused(Contents(), now, t) && t.Normal() && t.Less(ENDT) && now.Normal() && !now.Less(ZERO)
      requires Probe(Keys(tqep[..]), list, level, KeyOf(t), w, -1, c, update, at)
      modifies this`nelems, this`nfree, this`freeHead, this`level, this`list, this`frees, tqep
      modifies fb`avail, fb`outstanding, fb`size, fb`cuts, fb`peak, fb`out, fb`lists, fb.nfree, fb.free, fb.fblks
      ensures ok ==>
                && Valid() && InTable()
                && w <= |old(Contents())| + 1 && Contents() == InsertAt(old(Contents()), w - 1, Entry(t, offset))
                && nb !in old(fb.out) && fb.out == old(fb.out) + {nb} && list.blocks == old(list.blocks) + {nb}
                && Frame(old(fb.Mem()), fb.Mem(), old(list.blocks))
      ensures old(fb.Room()) > 0 ==> ok
      ensures old(fb.Room()) - 1 <= fb.Room()
    {
      hide Sorted, BlocksOk, Linked, TqOk, FbOk, ArenaOk, Frame, Probe, LeastUnused, Entries, Keys, Bases, InsertAt;
      hide FreeBlock.Books, FreeBlock.Room;

      ghost var v := View();
      FirstFree(v, nalloc);
      ghost var e, lv := Element(t, offset, 0), if k > level then k else level;
      FilledOk(v, nalloc, fb.maxsize, v.freeHead, e, w, k + 1, lv);
      var x, fblk := Place(t, offset, k, update, at, c, w, now);
      nb, ok := fblk, fblk != FBLK_NONE;
      if !ok { return; }
      FilledOk(v, nalloc, fb.maxsize, x, e.(fblk := nb), w, k + 1, lv);
      FilledEntries(v.es, v.list, x, e.(fblk := nb), w, k + 1);
    }

    /** Fill the first unused element and link it in place `w` with `k + 1` pointers. */
    method Place(t: Timestamp, offset: int, k: int, update: seq<int>, ghost at: seq<nat>, ghost c: nat, ghost w: nat,
                 ghost now: Timestamp) returns (x: int, fblk: int)
      requires Valid() && InTable() && nfree > 0 && 0 <= offset
      requires 0 <= k <= level + 1 && k < fb.maxsize && |update| == MAXLEVELS && 1 <= w < |list.order|
      requires LeastUnused(Contents(), now, t) && t.Normal() && t.Less(ENDT) && now.Normal() && !now.Less(ZERO)
      requires Probe(Keys(tqep[..]), list, level, KeyOf(t), w, -1, c, update, at)
      requires 0 <= freeHead < tqep.Length && freeHead !in list.order
      modifies this`nelems, this`nfree, this`freeHead, this`level, this`list, this`frees, tqep
      modifies fb`avail, fb`outstanding, fb`size, fb`cuts, fb`peak, fb`out, fb`lists, fb.nfree, fb.free, fb.fblks
      ensures x == old(freeHead) && |old(frees)| > 0 && |old(list).order| == |old(list).ht|
      ensures fblk != FBLK_NONE ==>
                && View() == Filled(old(View()), x, Element(t, offset, fblk), w, k + 1, if k > old(level) then k
                                    else old(level))
                && fb.Valid() && Threads(fb.Mem())
                && fblk !in old(fb.out) && fb.out == old(fb.out) + {fblk}
                && Frame(old(fb.Mem()), fb.Mem(), old(list.blocks))
      ensures old(fb.Room()) > 0 ==> fblk != FBLK_NONE
      ensures old(fb.Room()) - 1 <= fb.Room()
    {
      hide Sorted, BlocksOk, Linked, TqOk, FbOk, ArenaOk, Frame, Probe, LeastUnused, Entries, Bases;
      hide FreeBlock.Books, FreeBlock.Room;
      ghost var a0, es, s := fb.Mem(), tqep[..], list;
      SizeBounds(fb.View(), fb.maxsize, fb.arenaSz);
      TqFacts(View(), nalloc);
      FirstFree(View(), nalloc);
      x := AllocateElement();
      fblk := fb.Get(k);
      if fblk == FBLK_NONE { return; }
      var e := Element(t, offset, fblk);
      AddFits(es, s, fb.maxsize, level, x, e, w, now, c, update, at);
      SizeBounds(fb.View(), fb.maxsize, fb.arenaSz);
      tqep[x] := e;
      assert tqep[..] == es[x := e];
      SkipSurvives(a0, fb.Mem(), Bases(es), Keys(es), Bases(tqep[..]), Keys(tqep[..]), s, fb.maxsize, level, TQ_HEAD,
                   TQ_NIL, {});
      ghost var a1 := fb.Mem();
      BlocksOut(a0, Bases(es), Keys(es), s, fb.maxsize, level, TQ_HEAD, TQ_NIL);
      Attach(x, k, update, at, c, w, Keys(es));
      SizeBounds(fb.View(), fb.maxsize, fb.arenaSz);
      FrameWider(a0, a1, {}, s.blocks);
      FrameTrans(a0, a1, fb.Mem(), s.blocks, s.blocks + {fblk});
    }

    /** The blocks that a finished search has recorded, level by level; above them, the head's. */
    method Previous(newTop: int, update: seq<int>, ghost at: seq<nat>, ghost c: nat, ghost w: nat, ghost ks: seq<Key>,
                    ghost t: Key)
      returns (ub: seq<int>, ghost at': seq<nat>)
      requires fb.Valid() && Threads(fb.Mem()) && newTop < |update| && |ks| == tqep.Length
      requires newTop == level || newTop == level + 1 < fb.maxsize
      requires Probe(ks, list, level, t, w, -1, c, update, at) && 1 <= w < |list.order|
      ensures |ub| == newTop + 1 && newTop < fb.maxsize && Recorded(Bases(tqep[..]), list, w, newTop, ub, at')
    {
      hide Sorted, BlocksOk, Linked, FbOk, Recorded, Probe, FreeBlock.Books, FreeBlock.Room;
      ghost var bs := Bases(tqep[..]);
      SizeBounds(fb.View(), fb.maxsize, fb.arenaSz);
      ProbeLength(ks, list, level, t, w, c, update, at);
      ProbeNodes(bs, ks, list, fb.maxsize, level, t, w, c, update, at);
      var top := level;
      ub := seq(top + 1, i requires 0 <= i <= top < |update|
                && 0 <= update[i] < tqep.Length reads tqep => tqep[update[i]].fblk);
      ProbeRecorded(bs, ks, list, fb.maxsize, level, TQ_HEAD, TQ_NIL, t, w, c, update, at, ub);
      at' := at;
      if newTop > top {
        HeadRecorded(bs, list, fb.maxsize, level, TQ_HEAD, TQ_NIL, w, ub, at);
        ub, at' := ub + [tqep[TQ_HEAD].fblk], at[newTop := 0];
      }
    }

    /** Link the filled element `x` in place `w`, raising the list's level if its node is higher. */
    method Attach(x: int, k: int, update: seq<int>, ghost at: seq<nat>, ghost c: nat, ghost w: nat, ghost ks0: seq<Key>)
      requires fb.Valid() && Threads(fb.Mem()) && |update| == MAXLEVELS
      requires 0 <= x < tqep.Length && x !in list.order && 0 <= k <= level + 1 && k < fb.maxsize
      requires Probe(ks0, list, level, KeyOf(tqep[x].tv), w, -1, c, update, at) && |ks0| == tqep.Length
      requires var nb := tqep[x].fblk; nb in fb.out && nb in fb.size && fb.size[nb] == k + 1 && nb !in list.blocks
      requires var ks := Keys(tqep[..]);
               && (forall i :: 0 <= i < |list.order| ==> list.order[i] < |ks|)
               && (forall i :: 0 <= i < w && i < |list.order| ==> ks[list.order[i]].Less(ks[x]))
               && (forall i :: w <= i < |list.order| ==> ks[x].Less(ks[list.order[i]]))
      modifies this`level, this`list, fb.fblks
      ensures fb.Valid() && Threads(fb.Mem())
      ensures |old(list).order| == |old(list).ht| && w <= |old(list).order|
      ensures list == Inserted(old(list), w, x, k + 1, tqep[x].fblk)
      ensures level == if k > old(level) then k else old(level)
      ensures Frame(old(fb.Mem()), fb.Mem(), old(list).blocks + {tqep[x].fblk})
    {
      hide SkipOk, ArenaOk, FbOk, Frame, Recorded, FreeBlock.Books, FreeBlock.Room;
      ghost var bs, ks := Bases(tqep[..]), Keys(tqep[..]);
      SizeBounds(fb.View(), fb.maxsize, fb.arenaSz);
      var ub, top := [], if k > level then k else level;
      ghost var at';
      ub, at' := Previous(top, update, at, c, w, ks0, KeyOf(tqep[x].tv));
      RecordedLower(bs, list, w, top, k, ub, at');
      LinkNode(fb, tqep[x].fblk, ub, x, k + 1, bs, ks, list, level, top, TQ_HEAD, TQ_NIL, w, at');
      assert bs[x := tqep[x].fblk] == bs;
      list := Inserted(list, w, x, k + 1, tqep[x].fblk);
      level := top;
    }
  }

  /** Only the tail sentinel carries the end of time. */
  lemma RankAtEnd(es: seq<Element>, s: Skip, key: Timestamp, p: nat)
    requires 2 <= |s.order| && forall i :: 0 <= i < |s.order| ==> s.order[i] < |es|
    requires Sorted(Keys(es), s) && IsRank(Keys(es), s, KeyOf(key), p)
    requires s.order[s.Last()] == TQ_NIL && Sentinels(es)
    ensures key == ENDT ==> p == s.Last()
    ensures p == s.Last() ==> es[s.order[p]].tv == ENDT
  {
    assert p < s.Last() ==> Keys(es)[s.order[p]].Less(Keys(es)[s.order[s.Last()]]);
  }

  lemma SameTime(keys: seq<Key>, s: Skip, j: nat, n: nat)
    requires j < |s.order| && n < |s.order| && (forall i :: 0 <= i < |s.order| ==> s.order[i] < |keys|)
             && Sorted(keys, s)
    ensures keys[s.order[n]] == keys[s.order[j]] ==> n == j
  {
    assert n < j ==> keys[s.order[n]].Less(keys[s.order[j]]);
    assert j < n ==> keys[s.order[j]].Less(keys[s.order[n]]);
  }

  function Freed(q: Tq, x: nat, j: nat, b: int): Tq
    requires x < |q.es| && |q.list.order| == |q.list.ht| && j < |q.list.order|
  {
    Tq(q.es[x := Element(NONE, q.freeHead, -1)], q.level, x, q.nelems - 1, q.nfree + 1, Removed(q.list, j, b),
       [x] + q.frees)
  }

  lemma DeletedOk(q: Tq, nalloc: nat, maxsize: nat, x: nat, j: nat, b: int)
    requires TqOk(q, nalloc) && ShapeOk(q.list, |q.es|, maxsize, q.level, TQ_HEAD, TQ_NIL)
    requires 0 < j < q.list.Last() && x == q.list.order[j]
    ensures var q' := Freed(q, x, j, b);
            && TqOk(q', nalloc)
            && 2 <= |q'.list.order| && (forall i :: 0 <= i < |q'.list.order| ==> q'.list.order[i] < |q'.es|)
            && Entries(q'.es, q'.list) == RemoveAt(Entries(q.es, q.list), j - 1)
  {
    hide FreeOk;
    var q' := Freed(q, x, j, b);
    FreedChain(q, x, j, b);
    assert forall i :: 0 <= i < |q'.list.order| ==> q'.list.order[i] == q.list.order[if i < j then i else i + 1];
  }

  lemma FreedChain(q: Tq, x: nat, j: nat, b: int)
    requires x < |q.es| && |q.list.order| == |q.list.ht| && 0 < j < q.list.Last() && x == q.list.order[j] && FreeOk(q)
    requires forall i, j :: 0 <= i < j < |q.list.order| ==> q.list.order[i] != q.list.order[j]
    ensures FreeOk(Freed(q, x, j, b))
  {
    var q' := Freed(q, x, j, b);
    assert x !in q.frees;
    ChainPush(Offsets(q.es), q.freeHead, q.frees, x);
    assert Offsets(q'.es) == Offsets(q.es)[x := q.freeHead];
    assert forall i :: 0 <= i < |q'.list.order| ==> q'.list.order[i] == q.list.order[if i < j then i else i + 1];
  }

  lemma DeletedSame(q: Tq, maxsize: nat, x: nat, j: nat, b: int)
    requires ShapeOk(q.list, |q.es|, maxsize, q.level, TQ_HEAD, TQ_NIL)
    requires 0 < j < q.list.Last() && x == q.list.order[j]
    ensures var q' := Freed(q, x, j, b); SameNodes(Bases(q.es), Keys(q.es), Bases(q'.es), Keys(q'.es), q'.list)
  {
    var q' := Freed(q, x, j, b);
    assert forall i :: 0 <= i < |q'.list.order| ==> q'.list.order[i] == q.list.order[if i < j then i else i + 1];
  }

  /** A time at or after `now` and before the end of time that no entry has. */
  ghost predicate Unused(r: seq<Entry>, now: Timestamp, gap: Timestamp) {
    gap.Normal() && !gap.Less(now) && gap.Less(ENDT) && forall i :: 0 <= i < |r| ==> r[i].tv != gap
  }

  /** All times from `now` up to but not including `t` are taken, so an unused one is not below `t`. */
  ghost predicate UsedUpTo(r: seq<Entry>, now: Timestamp, gap: Timestamp, t: Timestamp) {
    && now.Normal() && Unused(r, now, gap) && t.Normal() && !t.Less(now) && !gap.Less(t)
    && forall u: Timestamp :: u.Normal() && !u.Less(now) && u.Less(t) ==> exists i :: 0 <= i < |r| && r[i].tv == u
  }

  lemma GapStart(r: seq<Entry>, now: Timestamp, gap: Timestamp)
    requires now.Normal() && Unused(r, now, gap)
    ensures UsedUpTo(r, now, gap, now) && !ENDT.Less(now) && now.Micros() <= gap.Micros()
  {
    LessIsMicros(gap, now);
  }

  lemma GapStep(r: seq<Entry>, now: Timestamp, gap: Timestamp, t: Timestamp, i: nat)
    requires UsedUpTo(r, now, gap, t) && i < |r| && r[i].tv == t
    ensures UsedUpTo(r, now, gap, t.Increment())
    ensures t.Micros() < t.Increment().Micros() <= gap.Micros()
  {
    StepIsOne(t);
    LessIsMicros(gap, t);
    LessIsMicros(gap, t.Increment());
    LessIsMicros(t.Increment(), now);
    LessIsMicros(t, now);
    forall u: Timestamp | u.Normal() && !u.Less(now) && u.Less(t.Increment())
      ensures exists i :: 0 <= i < |r| && r[i].tv == u
    {
      LessIsMicros(u, t.Increment());
      LessIsMicros(u, t);
      assert u == t || u.Less(t);
    }
  }

  /** Meeting an element with time `t`: the place of the next microsecond is right behind it. */
  lemma Collide(es: seq<Element>, s: Skip, maxsize: nat, level: int, t: Timestamp, w: nat, n: nat)
    requires ShapeOk(s, |es|, maxsize, level, TQ_HEAD, TQ_NIL) && Sorted(Keys(es), s) && Sentinels(es)
    requires IsRank(Keys(es), s, KeyOf(t), w) && w <= n < |s.order| && es[s.order[n]].tv == t
    requires t.Normal() && t.Less(ENDT) && forall i :: 0 < i < |s.order| ==> es[s.order[i]].tv.Normal()
    ensures n == w && w < s.Last() && Entries(es, s)[w - 1].tv == t
    ensures IsRank(Keys(es), s, KeyOf(t.Increment()), w + 1)
  {
    var ks := Keys(es);
    var x, y := ks[s.order[w]], ks[s.order[n]];
    assert w < n ==> x.Less(y);
    forall i | w + 1 <= i < |s.order| ensures !ks[s.order[i]].Less(KeyOf(t.Increment())) {
      assert ks[s.order[w]].Less(ks[s.order[i]]);
      StepIsOne(t);
      LessIsMicros(t, es[s.order[i]].tv);
      LessIsMicros(es[s.order[i]].tv, t.Increment());
    }
  }

  lemma GapBelow(r: seq<Entry>, now: Timestamp, gap: Timestamp, t: Timestamp)
    requires UsedUpTo(r, now, gap, t)
    ensures t.Normal() && t.Less(ENDT) && t.Micros() <= gap.Micros()
  {
    LessIsMicros(gap, t);
    LessIsMicros(t, ENDT);
    LessIsMicros(gap, ENDT);
  }

  lemma GapEnd(es: seq<Element>, s: Skip, now: Timestamp, gap: Timestamp, t: Timestamp, w: nat)
    requires 2 <= |s.order| && forall i :: 0 <= i < |s.order| ==> s.order[i] < |es|
    requires Sorted(Keys(es), s) && IsRank(Keys(es), s, KeyOf(t), w) && es[s.order[w]].tv != t
    requires UsedUpTo(Entries(es, s), now, gap, t)
    ensures LeastUnused(Entries(es, s), now, t) && t.Less(ENDT)
  {
    LessIsMicros(gap, t);
    LessIsMicros(gap, ENDT);
    LessIsMicros(t, ENDT);
    var r, ks := Entries(es, s), Keys(es);
    forall i | 0 <= i < |r| ensures r[i].tv != t {
      assert i + 1 < w ==> ks[s.order[i + 1]].Less(KeyOf(t));
      assert i + 1 > w ==> ks[s.order[w]].Less(ks[s.order[i + 1]]);
    }
  }

  lemma FirstFree(q: Tq, nalloc: int)
    requires TqOk(q, nalloc) && q.nfree > 0
    ensures |q.frees| > 0 && q.freeHead == q.frees[0] && 0 <= q.freeHead < |q.es|
  {
  }

  function Filled(q: Tq, x: nat, e: Element, w: nat, h: nat, level: int): Tq
    requires x < |q.es| && |q.list.order| == |q.list.ht| && w <= |q.list.order| && |q.frees| > 0
  {
    Tq(q.es[x := e], level, q.es[x].offset, q.nelems + 1, q.nfree - 1, Inserted(q.list, w, x, h, e.fblk), q.frees[1..])
  }

  lemma FilledOk(q: Tq, nalloc: nat, maxsize: nat, x: nat, e: Element, w: nat, h: nat, level: int)
    requires TqOk(q, nalloc) && ShapeOk(q.list, |q.es|, maxsize, q.level, TQ_HEAD, TQ_NIL) && q.nfree > 0
    requires x == q.freeHead && 1 <= w < |q.list.order| && e.tv.Normal() && 0 <= e.offset
    ensures |q.frees| > 0 && x < |q.es| && x !in q.list.order
    ensures TqOk(Filled(q, x, e, w, h, level), nalloc)
  {
    FilledChain(q, x, e, w, h, level);
    var q' := Filled(q, x, e, w, h, level);
    assert forall i :: 0 <= i < |q'.list.order| && i != w ==>
             q'.list.order[i] == q.list.order[if i < w then i else i - 1];
    assert x != q.list.order[0] && x != q.list.order[q.list.Last()];
  }

  lemma FilledEntries(es: seq<Element>, s: Skip, x: nat, e: Element, w: nat, h: nat)
    requires |s.order| == |s.ht| && 1 <= w < |s.order| && x < |es| && x !in s.order
    requires forall i :: 0 <= i < |s.order| ==> s.order[i] < |es|
    ensures var s' := Inserted(s, w, x, h, e.fblk);
            && (forall i :: 0 <= i < |s'.order| ==> s'.order[i] < |es|)
            && Entries(es[x := e], s') == InsertAt(Entries(es, s), w - 1, Entry(e.tv, e.offset))
  {
    var s' := Inserted(s, w, x, h, e.fblk);
    assert forall i :: 0 <= i < |s'.order| && i != w ==> s'.order[i] == s.order[if i < w then i else i - 1];
    var r, r' := Entries(es, s), Entries(es[x := e], s');
    forall i | 0 <= i < |r'| ensures r'[i] == InsertAt(r, w - 1, Entry(e.tv, e.offset))[i] {
      if i + 1 < w { assert s'.order[i + 1] == s.order[i + 1]; }
          else if i + 1 > w { assert s'.order[i + 1] == s.order[i]; }
    }
  }

  lemma FilledChain(q: Tq, x: nat, e: Element, w: nat, h: nat, level: int)
    requires FreeOk(q) && |q.frees| > 0 && x == q.freeHead && |q.list.order| == |q.list.ht| && w <= |q.list.order|
    ensures x < |q.es| && x !in q.list.order && FreeOk(Filled(q, x, e, w, h, level))
  {
    var q' := Filled(q, x, e, w, h, level);
    ChainPop(Offsets(q.es), q.freeHead, q.frees);
    ChainKept(Offsets(q.es), Offsets(q.es)[x], q.frees[1..], x, e.offset);
    assert Offsets(q'.es) == Offsets(q.es)[x := e.offset];
    assert q.frees[0] == x;
    assert forall i :: 0 <= i < |q'.list.order| && i != w ==>
             q'.list.order[i] == q.list.order[if i < w then i else i - 1];
  }

  /** The new element's time falls between its neighbours'. */
  lemma FitsAt(es: seq<Element>, s: Skip, maxsize: nat, level: int, x: nat, e: Element, w: nat)
    requires ShapeOk(s, |es|, maxsize, level, TQ_HEAD, TQ_NIL) && Sentinels(es) && x < |es| && x !in s.order
    requires IsRank(Keys(es), s, KeyOf(e.tv), w) && e.tv.Less(ENDT) && !e.tv.Less(ZERO)
    requires forall i :: 0 <= i < |s.order| - 2 ==> Entries(es, s)[i].tv != e.tv
    ensures var ks := Keys(es[x := e]);
            && (forall i :: 0 <= i < w ==> ks[s.order[i]].Less(ks[x]))
            && (forall i :: w <= i < |s.order| ==> ks[x].Less(ks[s.order[i]]))
    ensures SameNodes(Bases(es), Keys(es), Bases(es[x := e]), Keys(es[x := e]), s)
  {
    var ks, ks0 := Keys(es[x := e]), Keys(es);
    forall i | 0 <= i < |s.order| ensures ks[s.order[i]] == ks0[s.order[i]] {
      assert s.order[i] != x;
    }
    forall i | w <= i < |s.order| ensures ks[x].Less(ks[s.order[i]]) {
      if i < s.Last() { assert Entries(es, s)[i - 1].tv != e.tv; }
    }
  }

  lemma AddFits(es: seq<Element>, s: Skip, maxsize: nat, level: int, x: nat, e: Element, w: nat, now: Timestamp,
                c: nat, update: seq<int>, at: seq<nat>)
    requires ShapeOk(s, |es|, maxsize, level, TQ_HEAD, TQ_NIL) && Sentinels(es) && x < |es| && x !in s.order
    requires Probe(Keys(es), s, level, KeyOf(e.tv), w, -1, c, update, at)
    requires LeastUnused(Entries(es, s), now, e.tv) && e.tv.Less(ENDT) && now.Normal() && !now.Less(ZERO)
    ensures var ks := Keys(es[x := e]);
            && (forall i :: 0 <= i < w && i < |s.order| ==> ks[s.order[i]].Less(ks[x]))
            && (forall i :: w <= i < |s.order| ==> ks[x].Less(ks[s.order[i]]))
    ensures SameNodes(Bases(es), Keys(es), Bases(es[x := e]), Keys(es[x := e]), s)
  {
    hide Entries, Keys, Bases, FreeBlock.Books, FreeBlock.Room;
    FitsAt(es, s, maxsize, level, x, e, w);
  }

  lemma InitialOk(q: Tq, n: nat, maxsize: nat, nilBlk: int, headBlk: int)
    requires 0 < n && |q.es| == n + 2
    requires forall i :: 2 <= i < n + 2 ==> q.es[i] == InitialElement(n, i)
    requires q.es[TQ_NIL] == InitialElement(n, TQ_NIL).(fblk := nilBlk)
    requires q.es[TQ_HEAD] == InitialElement(n, TQ_HEAD).(fblk := headBlk)
    requires q.nelems == 2 && q.nfree == n && q.freeHead == 2
    requires q.list.order == [TQ_HEAD, TQ_NIL] && q.frees == seq(n, i => i + 2)
    ensures TqOk(q, n) && Entries(q.es, q.list) == []
  {
    forall i {:trigger After(q.frees, i)} | 0 <= i < n ensures Offsets(q.es)[q.frees[i]] == After(q.frees, i) {
      assert q.frees[i] == i + 2;
    }
  }

  lemma EmptyQueueOk(f: Fb, maxsize: nat, arenaSz: int, es: seq<Element>)
    requires FbOk(f, maxsize, arenaSz) && 2 <= |es| && Sentinels(es)
    requires es[TQ_HEAD].fblk in f.out && es[TQ_NIL].fblk in f.out && es[TQ_HEAD].fblk != es[TQ_NIL].fblk
    requires es[TQ_HEAD].fblk in f.size && f.size[es[TQ_HEAD].fblk] == maxsize
    requires 0 <= es[TQ_HEAD].fblk && es[TQ_HEAD].fblk + maxsize <= |f.words|
    requires forall x :: es[TQ_HEAD].fblk <= x < es[TQ_HEAD].fblk + maxsize ==> f.words[x] == TQ_NIL
    ensures SkipOk(f.AsArena(), Bases(es), Keys(es),
                   Skip([TQ_HEAD, TQ_NIL], [maxsize, maxsize], {es[TQ_HEAD].fblk, es[TQ_NIL].fblk}), maxsize, 0,
                       TQ_HEAD, TQ_NIL)
  {
    hide FbOk, SkipOk, FreeBlock.Books, FreeBlock.Room;
    SizeBounds(f, maxsize, arenaSz);
    EmptyListOk(f.AsArena(), Bases(es), Keys(es), maxsize, TQ_HEAD, TQ_NIL);
  }

  function InitialElement(n: nat, i: int): Element {
    if i == TQ_NIL then Element(ENDT, -1, -1)
    else if i == TQ_HEAD then Element(NONE, -1, -1)
    else Element(NONE, if i == n + 1 then TQ_NONE else i + 1, -1)
  }

  lemma TqFacts(q: Tq, nalloc: int)
    requires TqOk(q, nalloc)
    ensures |q.es| == nalloc + 2 && Sentinels(q.es) && q.nelems == |q.list.order|
    ensures EntriesOk(q) && q.nelems + q.nfree == nalloc + 2 && 0 <= q.nfree
  {
  }

  lemma AnyLevel(q: Tq, nalloc: int)
    requires TqOk(q, nalloc)
    ensures forall lv :: TqOk(q.(level := lv), nalloc)
  {
  }

  /** Following the lowest pointers visits the list in order. */
  lemma Bottom(a: Arena, es: seq<Element>, s: Skip, maxsize: nat, level: int, i: nat)
    requires SkipOk(a, Bases(es), Keys(es), s, maxsize, level, TQ_HEAD, TQ_NIL) && i < s.Last()
    ensures s.order[i] < |es| && 0 <= es[s.order[i]].fblk < |a.words| && a.words[es[s.order[i]].fblk] == s.order[i + 1]
    ensures s.order[i + 1] < |es|
  {
    hide BlocksOk, Sorted, Next, FreeBlock.Books, FreeBlock.Room;
    NextAtBottom(s, |es|, maxsize, level, TQ_HEAD, TQ_NIL, i);
    LinkedAt(a.words, Bases(es), s, maxsize, i, 0);
  }
}
