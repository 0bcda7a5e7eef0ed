/**
 The index manager of a product queue (storage/pq/QueueIndexManager.cpp): it
 keeps the signature index, the region list and the time queue in agreement, and
 makes room by deleting the oldest products.
 */
module QueueIndexManagers {
  import opened SkipTheory
  import opened FreeBlocks
  import opened Timestamps
  import opened Layouts
  import opened RegionTables
  import opened IndexStates
  import RL = RegionLists
  import TQ = TimeQueues
  import SX = SignatureIndexes

  type Unit = n: int | 0 < n && n % 8 == 0 witness 8

  const SIZE_MAX := 0xffff_ffff_ffff_ffff

  datatype Status = Success | Dup | NotFound | Corrupt | NoMemory | Denied | Invalid | Big

  /** The region list's part of the state. */
  datatype Space = Space(m: Layout, held: set<int>, untracked: int, nempty: int, room: int)

  /** The regions at `gone` were freed, one after the other, and nothing else changed. */
  ghost predicate Shrunk(s: Space, gone: set<int>, n: nat, s': Space) {
    && (forall p :: p in s.m && s.m[p].kind != Free && p !in gone ==> p in s'.m && s'.m[p] == s.m[p])
    && (forall p :: p in s'.m && s'.m[p].kind != Free ==> p !in gone && p in s.m && s.m[p] == s'.m[p])
    && s'.held == s.held && s'.untracked == s.untracked && s'.nempty >= s.nempty && s'.room >= s.room - 4 * n
  }

  lemma ShrunkTrans(s: Space, g: set<int>, n: nat, s1: Space, h: set<int>, k: nat, s2: Space)
    requires Shrunk(s, g, n, s1) && Shrunk(s1, h, k, s2)
    ensures Shrunk(s, g + h, n + k, s2)
  {
  }

  /** A moment during an allocation. */
  datatype Moment = Moment(x: Ix, s: Space)

  /** Every product before the `k`th was found locked. */
  ghost predicate FirstUnlocked(x: Ix, busy: set<int>, k: nat) {
    k < |x.times| && x.times[k].offset in x.owner && forall i :: 0 <= i < k ==> x.times[i].offset in busy
  }

  ghost predicate AllBusy(x: Ix, n: nat, busy: set<int>) {
    forall i :: 0 <= i < n && i < |x.times| ==> x.times[i].offset in busy
  }

  lemma NoneBusy(x: Ix, busy: set<int>)
    ensures AllBusy(x, 0, busy)
  {
  }

  lemma MoreBusy(x: Ix, busy: set<int>, n: nat)
    requires AllBusy(x, n, busy) && n < |x.times| && x.times[n].offset in busy
    ensures AllBusy(x, n + 1, busy)
  {
  }

  lemma FirstEvicted(x: Ix, busy: set<int>, k: nat, o: int, x': Ix)
    requires AllBusy(x, k, busy) && WasEvicted(x, k, x') && x.times[k].offset == o
    ensures OldestEvicted(x, busy, o, x')
  {
    assert FirstUnlocked(x, busy, k);
  }

  /** The oldest product that was not found locked, the one with its region at `o`, was deleted. */
  ghost predicate OldestEvicted(x: Ix, busy: set<int>, o: int, x': Ix) {
    exists k: nat :: FirstUnlocked(x, busy, k) && x.times[k].offset == o && x' == Evicted(x, k)
  }

  ghost predicate EvictionStep(a: Moment, busy: set<int>, o: int, b: Moment) {
    OldestEvicted(a.x, busy, o, b.x) && Shrunk(a.s, {o}, 1, b.s)
  }

  /** From each moment to the next, the oldest product that was not found locked was deleted. */
  ghost predicate Evictions(trail: seq<Moment>, gone: seq<int>, busy: set<int>) {
    && |trail| == |gone| + 1
    && forall i :: 0 <= i < |gone| ==> EvictionStep(trail[i], busy, gone[i], trail[i + 1])
  }

  /** With nothing locked, what is evicted is a prefix of the insertion order. */
  lemma {:induction false} EvictedPrefix(trail: seq<Moment>, gone: seq<int>, i: nat)
    requires Evictions(trail, gone, {}) && i < |trail|
    ensures i <= |trail[0].x.times| && trail[i].x.times == trail[0].x.times[i..]
    decreases i
  {
    if i > 0 {
      EvictedPrefix(trail, gone, i - 1);
      assert EvictionStep(trail[i - 1], {}, gone[i - 1], trail[i - 1 + 1]);
      var k: nat :| FirstUnlocked(trail[i - 1].x, {}, k) && trail[i].x == Evicted(trail[i - 1].x, k);
      var o := trail[i - 1].x.times[0].offset;
      assert 0 < k ==> o in {};
    }
  }

  lemma EvictionsMore(trail: seq<Moment>, gone: seq<int>, busy: set<int>, o: int, b: Moment)
    requires Evictions(trail, gone, busy) && EvictionStep(trail[|gone|], busy, o, b)
    ensures Evictions(trail + [b], gone + [o], busy)
  {
    var t, g := trail + [b], gone + [o];
    forall i | 0 <= i < |g| ensures EvictionStep(t[i], busy, g[i], t[i + 1]) {
      if i < |gone| { assert EvictionStep(trail[i], busy, gone[i], trail[i + 1]); }
    }
  }

  lemma {:induction false} EvictionsJoin(trail: seq<Moment>, gone: seq<int>, busy: set<int>, trail': seq<Moment>,
                                         gone': seq<int>)
    requires Evictions(trail, gone, busy) && Evictions(trail', gone', busy) && trail[|gone|] == trail'[0]
    ensures Evictions(trail + trail'[1..], gone + gone', busy)
  {
    var t, g := trail + trail'[1..], gone + gone';
    forall i | 0 <= i < |g| ensures EvictionStep(t[i], busy, g[i], t[i + 1]) {
      if i < |gone| {
        assert EvictionStep(trail[i], busy, gone[i], trail[i + 1]);
      } else {
        assert EvictionStep(trail'[i - |gone|], busy, gone'[i - |gone|], trail'[i - |gone| + 1]);
      }
    }
  }

  ghost function Elements(l: seq<int>): set<int> {
    set o | o in l
  }

  lemma ElementsMore(l: seq<int>, o: int)
    ensures Elements(l + [o]) == Elements(l) + {o}
  {
  }

  /** Evictions free the evicted regions and touch nothing else. */
  lemma {:induction false} EvictionsShrink(trail: seq<Moment>, gone: seq<int>, busy: set<int>)
    requires Evictions(trail, gone, busy)
    ensures Shrunk(trail[0].s, Elements(gone), |gone|, trail[|gone|].s)
    decreases |gone|
  {
    if gone != [] {
      var n := |gone| - 1;
      var t, g := trail[..n + 1], gone[..n];
      forall i | 0 <= i < |g| ensures EvictionStep(t[i], busy, g[i], t[i + 1]) {
        assert EvictionStep(trail[i], busy, gone[i], trail[i + 1]);
      }
      EvictionsShrink(t, g, busy);
      assert EvictionStep(trail[n], busy, gone[n], trail[n + 1]);
      ShrunkTrans(trail[0].s, Elements(g), n, trail[n].s, {gone[n]}, 1, trail[n + 1].s);
      ElementsMore(g, gone[n]);
      assert g + [gone[n]] == gone;
    }
  }

  /** The moments from `a` to `b`. */
  ghost predicate Story(trail: seq<Moment>, gone: seq<int>, busy: set<int>, a: Moment, b: Moment) {
    Evictions(trail, gone, busy) && trail[0] == a && trail[|gone|] == b && b.s.room >= a.s.room - 4 * |gone|
  }

  /** No region record was unused at the first `n` moments. */
  ghost predicate Slotless(trail: seq<Moment>, n: nat) {
    forall i :: 0 <= i < n && i < |trail| ==> trail[i].s.nempty == 0
  }

  /** No free region could hold `extent` at the first `n` moments. */
  ghost predicate Fitless(trail: seq<Moment>, n: nat, extent: int) {
    forall i :: 0 <= i < n && i < |trail| ==> RL.NoneFits(trail[i].s.m, extent)
  }

  /** At each of the first `n` moments a region record or the space was missing. */
  ghost predicate Starved(trail: seq<Moment>, n: nat, extent: int) {
    forall i :: 0 <= i < n && i < |trail| ==> trail[i].s.nempty == 0 || RL.NoneFits(trail[i].s.m, extent)
  }

  lemma StarvedJoin(trail: seq<Moment>, n: nat, trail': seq<Moment>, n': nat, extent: int)
    requires |trail| == n + 1 && |trail'| == n' + 1 && trail[n] == trail'[0] && Slotless(trail, n)
             && Fitless(trail', n', extent)
    ensures Starved(trail + trail'[1..], n + n', extent)
  {
  }

  /**
   What allocating a region of at least `need` bytes for a product does.  A product already in the queue is
   refused.  Otherwise the oldest unlocked products are deleted, one by one, for as long as a region record or the
   space is missing; then the product gets a region of its own, or the attempt ends because every product left is
   locked, or because the data section is too small.  The region is the best fit; it is cut to size if what is left
   over is larger than the smallest request so far and 64 bytes more.  That smallest request is noted.
   */
  ghost predicate Allocation(st: Status, a: Moment, b: Moment, ask: Ask, trail: seq<Moment>, gone: seq<int>,
                             offset: int, granted: int, noted: int)
  {
    if st == Dup then
      ask.sig in a.x.sigs && b == a && noted == ask.seen
    else
      && ask.sig !in a.x.sigs && |trail| == |gone| + 1 && Story(trail, gone, ask.busy, a, trail[|gone|])
      && Starved(trail, |gone|, ask.need)
      && Outcome(st, trail[|gone|], b, ask, offset, granted)
      && noted == if trail[|gone|].s.nempty > 0 && ask.need < ask.seen then ask.need else ask.seen
  }

  /** What is asked for, how small the smallest request was before, how large the section is, and what may be locked. */
  datatype Ask = Ask(sig: SX.Signature, need: int, seen: int, size: int, busy: set<int>)

  ghost predicate Outcome(st: Status, a: Moment, b: Moment, ask: Ask, offset: int, granted: int) {
    match st
    case Success =>
      && ask.sig !in a.x.sigs && offset !in a.x.used && b.x == Reserved(a.x, ask.sig, offset)
      && Open(b.x) == Open(a.x) + {offset}
      && RL.BestFit(a.s.m, ask.need, offset)
      && granted == (if a.s.m[offset].extent - ask.need > (if ask.need < ask.seen then ask.need else ask.seen) + 64
                     then ask.need else a.s.m[offset].extent)
      && InUse(b.s.m, offset, granted) && ask.need <= granted <= 2 * ask.need + 64 && SameElse(a.s.m, offset, b.s.m)
      && b.s.untracked == a.s.untracked + granted
    case Denied => b == a && a.x.used != {} && AllBusy(a.x, |a.x.times|, ask.busy)
    case NoMemory => b == a && ask.need > ask.size && a.x.used == {}
    case _ => false
  }

  /** A region for `extent`, the best fit, was taken off the free lists. */
  ghost predicate Fetched(a: Moment, extent: int, o: int, x: int, b: Moment) {
    && b.x == a.x && RL.Chosen(a.s.m, extent, o, x, b.s.m)
    && b.s == a.s.(m := b.s.m, held := a.s.held + {o}, room := b.s.room) && b.s.room >= a.s.room
    && NoFreeAfter(b.s.m, o)
  }

  ghost predicate NoFreeAfter(m: Layout, o: int) {
    o in m && (o + m[o].extent in m ==> m[o + m[o].extent].kind != Free)
  }

  lemma TakenAlone(m: Layout, lo: int, hi: int, max: int, extent: int, o: int, x: int, m': Layout)
    requires RL.Settled(m, lo, hi, max) && RL.Chosen(m, extent, o, x, m')
    ensures NoFreeAfter(m', o)
  {
  }

  lemma StoryStarts(busy: set<int>, a: Moment)
    ensures Story([a], [], busy, a, a)
  {
  }

  lemma StoryGoesOn(trail: seq<Moment>, gone: seq<int>, busy: set<int>, a: Moment, b: Moment, o: int, c: Moment)
    requires Story(trail, gone, busy, a, b) && EvictionStep(b, busy, o, c) && Agree(b.x)
    ensures Story(trail + [c], gone + [o], busy, a, c)
    ensures Open(c.x) == Open(b.x) && |c.x.used| == |b.x.used| - 1 && c.s.held == b.s.held && c.s.nempty >= b.s.nempty
    ensures c.s.untracked == b.s.untracked
  {
    EvictionsMore(trail, gone, busy, o, c);
    var k: nat :| FirstUnlocked(b.x, busy, k) && b.x.times[k].offset == o && c.x == Evicted(b.x, k);
    EvictedAgrees(b.x, k);
  }

  lemma StoriesJoin(trail: seq<Moment>, gone: seq<int>, busy: set<int>, a: Moment, b: Moment, trail': seq<Moment>,
                    gone': seq<int>, c: Moment)
    requires Story(trail, gone, busy, a, b) && Story(trail', gone', busy, b, c)
    ensures Story(trail + trail'[1..], gone + gone', busy, a, c)
  {
    EvictionsJoin(trail, gone, busy, trail', gone');
  }

  lemma {:induction false} EvictionsSigs(trail: seq<Moment>, gone: seq<int>, busy: set<int>, i: nat)
    requires Evictions(trail, gone, busy) && i < |trail|
    ensures trail[i].x.sigs.Keys <= trail[0].x.sigs.Keys
    decreases i
  {
    if i > 0 {
      EvictionsSigs(trail, gone, busy, i - 1);
      assert EvictionStep(trail[i - 1], busy, gone[i - 1], trail[i - 1 + 1]);
    }
  }

  /** With every region in use committed and none locked, something can be deleted. */
  lemma SomeUnlocked(x: Ix)
    requires Agree(x) && Open(x) == {} && x.used != {}
    ensures !AllBusy(x, |x.times|, {})
  {
    AllCommitted(x);
    var o := x.times[0].offset;
    assert AllBusy(x, |x.times|, {}) ==> o in {};
  }

  function RoundUp(n: int, unit: int): (r: int)
    requires 0 < unit && unit % 8 == 0
    ensures n <= r < n + unit && r % unit == 0 && r % 2 == 0
  {
    var q := (n + unit - 1) / unit;
    Multiple(q, unit);
    q * unit
  }

  lemma RoundUpZero(n: int, unit: int)
    requires 0 < unit && unit % 8 == 0
    ensures 0 <= n ==> 0 <= RoundUp(n, unit) && (RoundUp(n, unit) == 0 <==> n == 0)
  {
    hide RoundUp;
    var r := RoundUp(n, unit);
    if n == 0 { DivMod(r, unit, r / unit, 0); Times1(r / unit, unit); }
  }

  lemma Multiple(q: int, unit: int)
    requires 0 < unit && unit % 8 == 0
    ensures (q * unit) % unit == 0 && (q * unit) % 2 == 0
  {
    var h := unit / 2;
    assert unit == 2 * h;
    assert q * unit == 2 * (q * h);
    ModMultiple(q, unit);
  }

  lemma ModMultiple(q: int, unit: int)
    requires 0 < unit
    ensures (q * unit) % unit == 0
  {
    var d, r := (q * unit) / unit, (q * unit) % unit;
    DivMod(q * unit, unit, d, r);
    assert (q - d) * unit == r;
    Times1(q - d, unit);
  }

  lemma DivMod(n: int, unit: int, d: int, r: int)
    requires 0 < unit && d == n / unit && r == n % unit
    ensures n == d * unit + r && 0 <= r < unit
  {
  }

  lemma Times1(k: int, unit: int)
    requires 0 < unit
    ensures k >= 1 ==> k * unit >= unit
    ensures k <= -1 ==> k * unit <= -unit
  {
  }

  class QueueIndexManager {
    const fb: FreeBlock
    const rl: RL.RegionList
    const tq: TQ.TimeQueue
    const sx: SX.SignatureIndex
    const align: Unit
    var isFull: bool
    var smallestExtentSeen: nat
    /** The product headers in the data section, by the offset of their region. */
    var disk: map<int, Header>
    ghost var owner: map<int, SX.Signature>

    /** Lay the manager over four structures that hold no product. */
    constructor (arena: FreeBlock, r: RL.RegionList, t: TQ.TimeQueue, s: SX.SignatureIndex, alignment: Unit)
      requires r.fb == arena && t.fb == arena && r.nalloc == t.nalloc == s.nalloc && 2 <= r.nalloc
      requires r.Separate() && s.chains != r.chains && s.chains != arena.nfree && s.chains != arena.free
               && s.chains != arena.fblks
      requires r.Valid() && t.Valid() && s.Valid() && t.list.blocks !! r.Blocks()
      requires arena.out == t.list.blocks + r.Blocks()
      requires r.where == map[] && r.held == {} && t.InTable() && t.Contents() == [] && s.Map() == map[]
               && s.nelems == 0
      ensures fb == arena && rl == r && tq == t && sx == s && align == alignment && smallestExtentSeen == SIZE_MAX
              && !isFull
      ensures Valid() && State() == Ix(map[], {}, [], map[], map[])
    {
      hide RL.RegionList.Valid, TQ.TimeQueue.Valid, TQ.TimeQueue.Contents, TQ.TimeQueue.InTable, SX.SignatureIndex.Map;
      hide FreeBlock.Books, FreeBlock.Room;
      hide SX.SignatureIndex.Valid;
      fb, rl, tq, sx, align := arena, r, t, s, alignment;
      isFull, smallestExtentSeen, disk, owner := false, SIZE_MAX, map[], map[];
    }

    /** An empty queue over the data section `datao .. ixo`. */
    static method FormatNew(n: nat, levels: nat, overflow: int, slack: int, rlChains: nat, sxChains: nat, datao: int,
                            ixo: int, alignment: Unit, ghost limit: int)
      returns (q: QueueIndexManager)
      requires 4 <= n && 2 <= levels < FB_MAX_LEVELS && 6 <= overflow && 0 <= slack < levels && 0 < rlChains
               && 0 < sxChains
      requires 0 <= limit ==> 8 <= limit && overflow >= limit * Pow2(levels - 1)
      requires 0 < datao < ixo < HUGE_OFF && (ixo - datao) % 2 == 0
      ensures fresh(q) && fresh(q.Parts()) && q.Valid() && q.State() == Ix(map[], {}, [], map[], map[])
      ensures q.rl.lo == datao && q.rl.hi == ixo && q.rl.nalloc == n && q.align == alignment
              && q.smallestExtentSeen == SIZE_MAX && !q.isFull
      ensures q.rl.untracked == 0 && forall o :: o in q.rl.m ==> q.rl.m[o].kind == Free
      ensures q.fb.cap == limit && q.fb.Room() >= if limit < 0 then overflow - 6 else limit - 8
    {
      hide RL.RegionList.Valid, TQ.TimeQueue.Valid, TQ.TimeQueue.Contents, TQ.TimeQueue.InTable, SX.SignatureIndex.Map;
      hide FreeBlock.Books, FreeBlock.Room;
      hide SX.SignatureIndex.Valid, FbOk, Frame;
      hide QueueIndexManager.Sound, QueueIndexManager.State, Agree;
      var arena, t := NewTimes(n, levels, overflow, slack, limit);
      var r := NewRegions(n, rlChains, t, datao, ixo);
      var s := new SX.SignatureIndex(n, sxChains);
      q := new QueueIndexManager(arena, r, t, s, alignment);
    }

    /** An arena, and an empty time queue over it. */
    static method NewTimes(n: nat, levels: nat, overflow: int, slack: int, ghost limit: int)
      returns (arena: FreeBlock, t: TQ.TimeQueue)
      requires 4 <= n && 2 <= levels < FB_MAX_LEVELS && 6 <= overflow && 0 <= slack < levels
      requires 0 <= limit ==> 8 <= limit && overflow >= limit * Pow2(levels - 1)
      ensures fresh(arena) && fresh(arena.nfree) && fresh(arena.free) && fresh(arena.fblks) && fresh(t) && fresh(t.tqep)
      ensures t.Valid() && t.fb == arena && t.nalloc == n && t.InTable() && t.Contents() == []
      ensures arena.out == t.list.blocks
      ensures arena.cap == limit && arena.Room() >= (if limit < 0 then overflow else limit - 2) && arena.Room() >= 6
    {
      hide TQ.TimeQueue.Valid, TQ.TimeQueue.Contents, TQ.TimeQueue.InTable, FbOk, Frame, Pow2;
      hide FreeBlock.Books, FreeBlock.Room, FreeBlock.Spare;
      arena := new FreeBlock(n, levels, overflow, slack, limit);
      t := new TQ.TimeQueue(n, arena);
    }

    /** A region list beside an empty time queue. */
    static method NewRegions(n: nat, rlChains: nat, t: TQ.TimeQueue, datao: int, ixo: int) returns (r: RL.RegionList)
      requires t.Valid() && t.fb.Room() >= 6 && t.fb.out == t.list.blocks
      requires 2 <= n && 0 < rlChains && 0 < datao < ixo < HUGE_OFF && (ixo - datao) % 2 == 0
      modifies t.fb, t.fb.nfree, t.fb.free, t.fb.fblks
      ensures t.Valid() && r.Valid() && r.fb == t.fb && t.list.blocks !! r.Blocks() && r.Separate()
      ensures t.fb.out == t.list.blocks + r.Blocks()
      ensures fresh(r) && fresh(r.rp) && fresh(r.chains) && r.nalloc == n && r.lo == datao && r.hi == ixo
      ensures r.where == map[] && r.held == {} && r.untracked == 0 && r.m.Keys == {datao} && r.m[datao].kind == Free
      ensures t.InTable() == old(t.InTable()) && (t.InTable() ==> t.Contents() == old(t.Contents()))
      ensures t.fb.Room() >= old(t.fb.Room()) - 6
    {
      hide RL.RegionList.Valid, RL.RegionList.Structure, RL.RegionList.Strung, RL.RegionList.Still;
      hide FreeBlock.Books, FreeBlock.Room;
      hide TQ.TimeQueue.Valid, TQ.TimeQueue.Threads, TQ.TimeQueue.Local, FbOk, ArenaOk, Frame;
      t.Pieces();
      ghost var a0 := t.fb.Mem();
      SizeBounds(t.fb.View(), t.fb.maxsize, t.fb.arenaSz);
      r := new RL.RegionList(n, rlChains, t.fb, datao, ixo);
      r.StructureArena();
      t.Survives(a0, {}, t.fb.Mem(), r.Blocks());
      ghost var a1, b1 := t.fb.Mem(), r.Blocks();
      var ok := r.Format(datao, ixo - datao);
      TimesAgain(t, r, a1, b1);
    }

    /** An operation on the region list leaves the time queue's blocks alone. */
    static lemma TimesAgain(t: TQ.TimeQueue, r: RL.RegionList, a: Arena, own: set<int>)
      requires r.Valid() && r.fb == t.fb && t.Local() && t.Threads(a) && ArenaOk(a)
      requires Kept(a, own, r.fb.Mem(), r.Blocks()) && t.list.blocks !! own && a.out == t.list.blocks + own
      ensures t.Valid() && t.list.blocks !! r.Blocks() && r.fb.out == t.list.blocks + r.Blocks()
    {
      hide RL.RegionList.Valid, RL.RegionList.Strung, RL.RegionList.Still, TQ.TimeQueue.Valid, TQ.TimeQueue.Threads;
      hide TQ.TimeQueue.Local, FbOk, ArenaOk, Frame, FreeBlock.Books, FreeBlock.Room;
      r.BlockCount();
      KeptAll(a, own, r.fb.Mem(), r.Blocks(), t.list.blocks);
      r.Pieces();
      SizeBounds(r.fb.View(), r.fb.maxsize, r.fb.arenaSz);
      t.Survives(a, own, r.fb.Mem(), r.Blocks());
      t.Pieces();
    }

    ghost function Parts(): set<object> {
      {rl, rl.rp, rl.chains, tq, tq.tqep, sx, sx.sxep, sx.chains, fb, fb.nfree, fb.free, fb.fblks}
    }

    ghost predicate Wired() {
      && rl.fb == fb && tq.fb == fb && rl.nalloc == tq.nalloc == sx.nalloc && 2 <= rl.nalloc
      && rl.Separate() && sx.chains != rl.chains && sx.chains != fb.nfree && sx.chains != fb.free
      && sx.chains != fb.fblks
    }

    /**
     Each structure is intact, and the skip lists of the region list and the time queue use different blocks of the
     arena, and between them all that are handed out.
     */
    ghost predicate Sound()
      reads Parts(), rl.fb, rl.fb.nfree, rl.fb.free, rl.fb.fblks, tq.fb, tq.fb.nfree, tq.fb.free, tq.fb.fblks
    {
      && Wired() && rl.Valid() && tq.Valid() && sx.Valid()
      && tq.list.blocks !! rl.Blocks() && fb.out == tq.list.blocks + rl.Blocks()
    }

    ghost function Times(): seq<TQ.Entry>
      reads tq, tq.tqep
    {
      if tq.InTable() then tq.Contents() else []
    }

    ghost function State(): Ix
      reads `owner, `disk, rl, tq, tq.tqep, sx, sx.sxep
    {
      Ix(sx.Map(), rl.where.Keys, Times(), owner, disk)
    }

    ghost function Room(): Space
      reads rl, fb, fb.nfree
    {
      Space(rl.m, rl.held, rl.untracked, rl.nempty, fb.Room())
    }

    method RemoveSignature(sig: SX.Signature) returns (b: bool)
      requires Sound()
      modifies sx, sx.sxep, sx.chains
      ensures Sound() && (b <==> sig in old(sx.Map())) && sx.Map() == old(sx.Map()) - {sig}
      ensures sx.nelems == (if b then old(sx.nelems) - 1 else old(sx.nelems)) && fb.Room() == old(fb.Room())
    {
      hide RL.RegionList.Valid, TQ.TimeQueue.Valid, SX.SignatureIndex.Valid, SX.SignatureIndex.Map;
      hide FreeBlock.Books, FreeBlock.Room;
      b := sx.Remove(sig);
    }

    method RemoveTime(x: int, ghost j: nat)
      requires Sound() && tq.InTable() && 0 < j < tq.list.Last() && x == tq.list.order[j]
      modifies tq, tq.tqep, fb, fb.nfree, fb.free, fb.fblks
      ensures Sound() && 0 < j <= |old(Times())| && Times() == RemoveAt(old(Times()), j - 1)
      ensures old(fb.Room()) <= fb.Room()
    {
      hide RL.RegionList.Valid, RL.RegionList.Strung, RL.RegionList.Still, TQ.TimeQueue.Valid, TQ.TimeQueue.Threads;
      hide FreeBlock.Books, FreeBlock.Room;
      hide TQ.TimeQueue.Local;
      hide SX.SignatureIndex.Valid, FbOk, ArenaOk, Frame;
      tq.Pieces();
      rl.Pieces();
      ghost var a0, b0 := fb.Mem(), tq.list.blocks;
      SizeBounds(fb.View(), fb.maxsize, fb.arenaSz);
      tq.Delete(x, j);
      RegionsAgain(a0, b0);
    }

    /** An operation on the time queue leaves the region list's blocks alone. */
    lemma RegionsAgain(a: Arena, own: set<int>)
      requires Wired() && tq.Valid() && sx.Valid() && rl.Still() && rl.Strung(a) && ArenaOk(a)
      requires Frame(a, fb.Mem(), own) && own !! rl.Blocks() && a.out == own + rl.Blocks()
      requires fb.out == tq.list.blocks + rl.Blocks() && tq.list.blocks !! rl.Blocks()
      ensures Sound()
    {
      hide RL.RegionList.Valid, RL.RegionList.Strung, RL.RegionList.Still, TQ.TimeQueue.Valid, TQ.TimeQueue.Threads;
      hide TQ.TimeQueue.Local, SX.SignatureIndex.Valid, FbOk, ArenaOk, Frame, FreeBlock.Books, FreeBlock.Room;
      tq.Pieces();
      SizeBounds(fb.View(), fb.maxsize, fb.arenaSz);
      rl.Survives(a, own, fb.Mem(), tq.list.blocks);
      rl.Pieces();
    }

    lemma SoundAgain(a: Arena, own: set<int>)
      requires Wired() && rl.Valid() && sx.Valid() && tq.Local() && tq.Threads(a) && ArenaOk(a)
      requires Kept(a, own, fb.Mem(), rl.Blocks()) && tq.list.blocks !! own && a.out == tq.list.blocks + own
      ensures Sound()
    {
      hide RL.RegionList.Valid, RL.RegionList.Strung, RL.RegionList.Still, TQ.TimeQueue.Valid, TQ.TimeQueue.Threads;
      hide TQ.TimeQueue.Local, SX.SignatureIndex.Valid, FbOk, ArenaOk, Frame, FreeBlock.Books, FreeBlock.Room;
      TimesAgain(tq, rl, a, own);
    }

    method FreeRegion(x: int, ghost o: int) returns (ok: bool)
      requires Sound() && RL.UsedAt(rl.m, o, x)
      modifies rl, rl.rp, rl.chains, fb, fb.nfree, fb.free, fb.fblks
      ensures ok ==>
                && Sound() && rl.where == old(rl.where) - {o} && Shrunk(old(Room()), {o}, 1, Room())
                && rl.nelems == old(rl.nelems) - 1 && rl.nbytes == old(rl.nbytes) - old(rl.m)[o].extent
      ensures old(fb.Room()) > 3 ==> ok
      ensures old(fb.Room()) - 4 <= fb.Room()
    {
      hide RL.RegionList.Valid, RL.RegionList.Strung, RL.RegionList.Still, TQ.TimeQueue.Valid, TQ.TimeQueue.Threads;
      hide FreeBlock.Books, FreeBlock.Room;
      hide TQ.TimeQueue.Local;
      hide SX.SignatureIndex.Valid, FbOk, ArenaOk, Frame;
      tq.Pieces();
      ghost var a0, b0 := fb.Mem(), rl.Blocks();
      SizeBounds(fb.View(), fb.maxsize, fb.arenaSz);
      ok := rl.Free(x, o);
      if ok {
        SoundAgain(a0, b0);
      }
    }

    method AddSignature(sig: SX.Signature, o: int) returns (b: bool)
      requires Sound() && sig !in sx.Map() && sx.nelems < sx.nalloc
      modifies sx, sx.sxep, sx.chains
      ensures Sound() && b && sx.Map() == old(sx.Map())[sig := o] && sx.nelems == old(sx.nelems) + 1
      ensures fb.Room() == old(fb.Room())
    {
      hide RL.RegionList.Valid, TQ.TimeQueue.Valid, SX.SignatureIndex.Valid, SX.SignatureIndex.Map;
      hide FreeBlock.Books, FreeBlock.Room;
      b := sx.Add(sig, o);
    }

    method AddTime(offset: int, now: Timestamp, ghost gap: Timestamp) returns (ok: bool, t: Timestamp, ghost k: nat)
      requires Sound() && tq.InTable() && tq.HasSpace() && 0 <= offset
      requires now.Normal() && !now.Less(ZERO) && TQ.Unused(Times(), now, gap)
      modifies tq, tq.tqep, fb, fb.nfree, fb.free, fb.fblks
      ensures TQ.LeastUnused(old(Times()), now, t)
      ensures ok ==> Sound() && k <= |old(Times())| && Times() == InsertAt(old(Times()), k, TQ.Entry(t, offset))
      ensures old(fb.Room()) > 0 ==> ok
      ensures old(fb.Room()) - 1 <= fb.Room()
    {
      hide RL.RegionList.Valid, RL.RegionList.Strung, RL.RegionList.Still, TQ.TimeQueue.Valid, TQ.TimeQueue.Threads;
      hide FreeBlock.Books, FreeBlock.Room;
      hide TQ.TimeQueue.Local;
      hide SX.SignatureIndex.Valid, FbOk, ArenaOk, Frame;
      tq.Pieces();
      rl.Pieces();
      ghost var a0, b0 := fb.Mem(), tq.list.blocks;
      SizeBounds(fb.View(), fb.maxsize, fb.arenaSz);
      ghost var w, nb;
      ok, t, w, nb := tq.Add(offset, now, gap);
      k := if ok then w - 1 else 0;
      if ok { RegionsAgain(a0, b0); }
    }

    method TakeRegion(extent: int) returns (x: int, ghost o: int)
      requires Sound() && 0 <= extent
      modifies rl, fb, fb.nfree, fb.free, fb.fblks
      ensures Sound() && rl.where == old(rl.where) && rl.nbytes == old(rl.nbytes)
      ensures x == RL_NONE <==> RL.NoneFits(old(rl.m), extent)
      ensures x == RL_NONE ==> Room() == old(Room()) && rl.nelems == old(rl.nelems)
      ensures x != RL_NONE ==>
                && RL.Chosen(old(rl.m), extent, o, x, rl.m) && rl.nelems == old(rl.nelems) + 1
                && Room() == old(Room()).(m := rl.m, held := old(rl.held) + {o}, room := fb.Room())
                && fb.Room() >= old(fb.Room())
    {
      hide RL.RegionList.Valid, RL.RegionList.Strung, RL.RegionList.Still, TQ.TimeQueue.Valid, TQ.TimeQueue.Threads;
      hide FreeBlock.Books, FreeBlock.Room;
      hide TQ.TimeQueue.Local;
      hide SX.SignatureIndex.Valid, FbOk, ArenaOk, Frame;
      tq.Pieces();
      ghost var a0, b0 := fb.Mem(), rl.Blocks();
      SizeBounds(fb.View(), fb.maxsize, fb.arenaSz);
      x, o := rl.Get(extent);
      SoundAgain(a0, b0);
    }

    method SplitRegion(x: int, extent: int, ghost o: int) returns (ok: bool, ghost y: int)
      requires Sound() && RL.HeldAt(rl.m, o, x) && 0 < extent < rl.m[o].extent && extent % 2 == 0 && rl.nempty > 0
      requires o + rl.m[o].extent in rl.m ==> rl.m[o + rl.m[o].extent].kind != Free
      modifies rl, rl.rp, fb, fb.nfree, fb.free, fb.fblks
      ensures ok ==>
                && Sound() && rl.where == old(rl.where) && rl.nelems == old(rl.nelems) && rl.nbytes == old(rl.nbytes)
                && 0 <= y && rl.m == Divided(old(rl.m), o, extent, y) && rl.held == old(rl.held)
                && rl.untracked == old(rl.untracked)
      ensures old(fb.Room()) > 1 ==> ok
      ensures old(fb.Room()) - 2 <= fb.Room()
    {
      hide RL.RegionList.Valid, RL.RegionList.Strung, RL.RegionList.Still, TQ.TimeQueue.Valid, TQ.TimeQueue.Threads;
      hide FreeBlock.Books, FreeBlock.Room;
      hide TQ.TimeQueue.Local;
      hide SX.SignatureIndex.Valid, FbOk, ArenaOk, Frame;
      tq.Pieces();
      ghost var a0, b0 := fb.Mem(), rl.Blocks();
      SizeBounds(fb.View(), fb.maxsize, fb.arenaSz);
      ok, y := rl.Split(x, extent, o);
      if ok {
        SoundAgain(a0, b0);
      }
    }

    method UseRegion(x: int, ghost o: int)
      requires Sound() && RL.HeldAt(rl.m, o, x)
      modifies rl, rl.rp, rl.chains
      ensures Sound() && rl.where == old(rl.where)[o := x] && rl.held == old(rl.held) - {o}
              && rl.nelems == old(rl.nelems)
      ensures InUse(rl.m, o, old(rl.m[o].extent)) && SameElse(old(rl.m), o, rl.m)
              && rl.untracked == old(rl.untracked) + old(rl.m[o].extent)
      ensures rl.nempty == old(rl.nempty) && fb.Room() == old(fb.Room()) && rl.nbytes == old(rl.nbytes)
      ensures 0 <= x < rl.rp.Length && rl.rp[x].offset == o && rl.rp[x].GetExtent() == rl.m[o].extent
    {
      hide RL.RegionList.Valid, RL.RegionList.Strung, RL.RegionList.Still, TQ.TimeQueue.Valid, TQ.TimeQueue.Threads;
      hide FreeBlock.Books, FreeBlock.Room;
      hide TQ.TimeQueue.Local;
      hide SX.SignatureIndex.Valid, FbOk, ArenaOk, Frame;
      tq.Pieces();
      rl.Pieces();
      rl.AddToHash(x, o);
      rl.Pieces();
      tq.Pieces();
    }

    /** The structures agree; between operations also nothing is held. */
    ghost predicate Steady()
      reads `owner, `disk, Parts(), rl.fb, rl.fb.nfree, rl.fb.free, rl.fb.fblks, tq.fb, tq.fb.nfree, tq.fb.free,
            tq.fb.fblks
    {
      Sound() && Agree(State()) && sx.nelems == |rl.where|
    }

    ghost predicate Valid()
      reads `owner, `disk, Parts(), rl.fb, rl.fb.nfree, rl.fb.free, rl.fb.fblks, tq.fb, tq.fb.nfree, tq.fb.free,
            tq.fb.fblks
    {
      Steady() && rl.held == {}
    }

    /**
     Read the header at a region.  A region in `busy` may be locked by someone else at any moment; a region that no
     header was written to is unreadable.
     */
    method Decode(o: int, busy: set<int>) returns (st: Status, info: Header)
      ensures st == Success || st == Denied || st == Corrupt
      ensures st == Denied ==> o in busy
      ensures st == Success ==> o in disk && info == disk[o]
      ensures o in disk ==> st != Corrupt
    {
      st, info := Corrupt, Header(seq(16, _ => 0), NONE);
      var locked: bool := *;
      if locked && o in busy { return Denied, info; }
      if o in disk { return Success, disk[o]; }
    }

    /** `x` is the element of the `j`th product, whose region is at `o`. */
    ghost predicate At(x: int, j: nat, o: int)
      reads tq, tq.tqep
    {
      tq.InTable() && 0 < j < tq.list.Last() && x == tq.list.order[j] && tq.tqep[x].offset == o
    }

    lemma AtFacts(x: int, j: nat, o: int)
      requires Steady() && At(x, j, o)
      ensures 0 < j <= |State().times| && State().times[j - 1].offset == o && 0 <= x < tq.tqep.Length
              && tq.tqep[x].offset == o && Spot(x, j)
      ensures o in owner && o in rl.where && o in disk && disk[o].signature == owner[o] && owner[o] in sx.Map()
    {
      hide RL.RegionList.Valid, TQ.TimeQueue.Valid, SX.SignatureIndex.Valid, SX.SignatureIndex.Map;
      hide FreeBlock.Books, FreeBlock.Room;
    }

    /** Delete one product from the three structures. */
    method DeleteAt(x: int, rlix: int, sig: SX.Signature, ghost j: nat, ghost o: int) returns (ok: bool)
      requires Steady() && At(x, j, o) && RL.UsedAt(rl.m, o, rlix) && o in owner && sig == owner[o]
      modifies Parts(), this`owner
      ensures ok ==>
                && Steady() && WasEvicted(old(State()), j - 1, State()) && Shrunk(old(Room()), {o}, 1, Room())
                && rl.nelems == old(rl.nelems) - 1
      ensures old(fb.Room()) > 3 ==> ok
    {
      hide SX.SignatureIndex.Map, Times, Agree, Shrunk, Sound, FreeBlock.Books, FreeBlock.Room;
      ghost var s0 := State();
      AtFacts(x, j, o);
      EvictedAgrees(s0, j - 1);
      Uncounted(rl.where, o);
      ok := Strike(x, rlix, sig, j, o);
      owner := owner - {o};
    }

    method Strike(x: int, rlix: int, sig: SX.Signature, ghost j: nat, ghost o: int) returns (ok: bool)
      requires Sound() && At(x, j, o) && RL.UsedAt(rl.m, o, rlix)
      modifies Parts()
      ensures ok ==>
                && Sound() && sx.Map() == old(sx.Map()) - {sig}
                && sx.nelems == old(sx.nelems) - (if sig in old(sx.Map()) then 1 else 0)
                && 0 < j <= |old(Times())| && Times() == RemoveAt(old(Times()), j - 1)
                && rl.where == old(rl.where) - {o}
                && Shrunk(old(Room()), {o}, 1, Room()) && rl.nelems == old(rl.nelems) - 1
      ensures old(fb.Room()) > 3 ==> ok
    {
      hide SX.SignatureIndex.Map, Sound, Shrunk, Times, FreeBlock.Books, FreeBlock.Room;
      ghost var r0 := Room();
      var found := RemoveSignature(sig);
      RemoveTime(x, j);
      ghost var r1 := Room();
      ok := FreeRegion(rlix, o);
      if ok { ShrunkFrom(r0, r1, {o}, 1, Room()); }
    }

    /** May this product be deleted?  Not if its region is locked; otherwise, read its signature. */
    method Inspect(x: int, rlix: int, busy: set<int>, ghost j: nat, ghost o: int)
      returns (st: Status, sig: SX.Signature)
      requires Steady() && At(x, j, o) && RL.UsedAt(rl.m, o, rlix)
      ensures st == Success || st == Denied
      ensures st == Denied ==> o in busy
      ensures st == Success ==> o in owner && sig == owner[o]
    {
      hide Steady, Shrunk, State, Times, WasEvicted, At, Spot, FreeBlock.Books, FreeBlock.Room;
      AtFacts(x, j, o);
      RecordAt(rlix, o);
      sig := seq(16, _ => 0);
      if rl.rp[rlix].offset != tq.tqep[x].offset { return Corrupt, sig; }
      var info;
      st, info := Decode(rl.rp[rlix].offset, busy);
      sig := info.signature;
    }

    lemma RecordAt(rlix: int, o: int)
      requires Steady() && RL.UsedAt(rl.m, o, rlix)
      ensures 0 <= rlix < rl.rp.Length && rl.rp[rlix].offset == o && rl.rp[rlix].GetExtent() == rl.m[o].extent
              && rl.rp[rlix].IsAlloc()
    {
      hide RL.RegionList.Valid, TQ.TimeQueue.Valid, SX.SignatureIndex.Valid, SX.SignatureIndex.Map, Agree;
      hide FreeBlock.Books, FreeBlock.Room;
      rl.InUse(o);
    }

    method FindRegion(o: int) returns (rlix: int)
      requires Steady()
      ensures rlix == RL_NONE <==> o !in rl.where
      ensures rlix == RL_NONE <==> o !in State().used
      ensures rlix != RL_NONE ==> RL.UsedAt(rl.m, o, rlix)
    {
      hide RL.RegionList.Valid, TQ.TimeQueue.Valid, SX.SignatureIndex.Valid, SX.SignatureIndex.Map, Agree;
      hide FreeBlock.Books, FreeBlock.Room;
      rlix := rl.Find(o);
    }

    /** `x` is the `j`th element of the time queue; the one after the last product is the tail. */
    ghost predicate Spot(x: int, j: int)
      reads tq, tq.tqep
    {
      tq.InTable() && 0 < j <= tq.list.Last() && x == tq.list.order[j]
    }

    method FirstTime() returns (x: int)
      requires Steady()
      ensures if State().times == [] then x == TQ.TQ_NONE else Spot(x, 1) && x != TQ.TQ_NONE
    {
      hide RL.RegionList.Valid, SX.SignatureIndex.Valid, SX.SignatureIndex.Map, Agree, FreeBlock.Books, FreeBlock.Room;
      x := tq.First();
    }

    method NextTime(x: int, ghost j: nat) returns (y: int)
      requires Steady() && Spot(x, j) && j <= |State().times|
      ensures Spot(y, j + 1) && y != TQ.TQ_NONE
    {
      hide RL.RegionList.Valid, TQ.TimeQueue.Valid, SX.SignatureIndex.Valid, SX.SignatureIndex.Map, Agree;
      hide FreeBlock.Books, FreeBlock.Room;
      y := tq.Next(x, j);
    }

    /** What the `j`th element of the time queue is: a product, or the tail, which stands for no region. */
    lemma ElementAt(x: int, j: nat)
      requires Steady() && Spot(x, j)
      ensures 0 <= x < tq.tqep.Length && x != TQ.TQ_NONE && 1 <= j <= |State().times| + 1
      ensures j <= |State().times| ==>
                At(x, j, tq.tqep[x].offset) && State().times[j - 1].offset == tq.tqep[x].offset
                    && tq.tqep[x].offset in rl.where
      ensures j == |State().times| + 1 ==> tq.tqep[x].offset == -1 && -1 !in rl.where
      ensures j <= |State().times| ==> tq.tqep[x].offset > 0
    {
      hide RL.RegionList.Valid, SX.SignatureIndex.Valid, SX.SignatureIndex.Map, FreeBlock.Books, FreeBlock.Room;
      if j < tq.list.Last() { AtFacts(x, j, tq.tqep[x].offset); }
      rl.InUse(tq.tqep[x].offset);
    }

    /** The entry behind an element of the time queue that is not the tail. */
    lemma EntryAt(x: int, j: nat)
      requires Steady() && Spot(x, j) && j <= |State().times|
      ensures 0 <= x < tq.tqep.Length && 0 < j && State().times[j - 1] == TQ.Entry(tq.tqep[x].tv, tq.tqep[x].offset)
      ensures At(x, j, tq.tqep[x].offset) && tq.tqep[x].offset in State().used && tq.tqep[x].offset in disk
      ensures tq.tqep[x].tv.Less(ENDT)
    {
      hide RL.RegionList.Valid, TQ.TimeQueue.Valid, SX.SignatureIndex.Valid, SX.SignatureIndex.Map;
      hide FreeBlock.Books, FreeBlock.Room;
      ElementAt(x, j);
      AtFacts(x, j, tq.tqep[x].offset);
      TimesBelowEnd();
    }

    /** Look at the `j`th element of the time queue; the tail has no region. */
    method Examine(x: int, busy: set<int>, ghost j: nat)
      returns (st: Status, rlix: int, sig: SX.Signature, ghost o: int)
      requires Steady() && Spot(x, j)
      ensures 1 <= j <= |State().times| + 1 && (rlix == RL_NONE <==> j == |State().times| + 1)
      ensures rlix == RL_NONE ==> st == Denied
      ensures rlix != RL_NONE ==>
                && At(x, j, o) && State().times[j - 1].offset == o && RL.UsedAt(rl.m, o, rlix)
                && (st == Success || st == Denied) && (st == Denied ==> o in busy)
                && (st == Success ==> o in owner && sig == owner[o])
    {
      hide Steady, State, Times, At, Spot, FreeBlock.Books, FreeBlock.Room;
      ghost var parts := Parts();
      st, sig := Denied, seq(16, _ => 0);
      ElementAt(x, j);
      o := tq.tqep[x].offset;
      rlix := FindRegion(tq.tqep[x].offset);
      if rlix != RL_NONE { st, sig := Inspect(x, rlix, busy, j, o); }
    }

    /** Look for the oldest product whose region is not locked. */
    method OldestUnlocked(busy: set<int>) returns (st: Status, x: int, rlix: int, sig: SX.Signature, ghost j: nat,
                                                   ghost o: int)
      requires Steady()
      ensures st == Success || st == Denied
      ensures st == Denied ==> AllBusy(State(), |State().times|, busy)
      ensures st == Success ==>
                && At(x, j, o) && RL.UsedAt(rl.m, o, rlix) && o in owner && sig == owner[o]
                && 0 < j && AllBusy(State(), j - 1, busy)
    {
      hide Steady, State, Times, AllBusy, At, Spot, FreeBlock.Books, FreeBlock.Room;
      ghost var parts := Parts();
      st, rlix, sig, j, o := Denied, RL_NONE, seq(16, _ => 0), 1, 0;
      NoneBusy(State(), busy);
      x := FirstTime();
      while x != TQ.TQ_NONE
        invariant Steady() && st == Denied && 1 <= j && AllBusy(State(), j - 1, busy)
        invariant x != TQ.TQ_NONE ==> Spot(x, j) && j <= |State().times| + 1
        invariant x == TQ.TQ_NONE ==> State().times == []
        decreases |State().times| + 1 - j
      {
        st, rlix, sig, o := Examine(x, busy, j);
        if rlix == RL_NONE { break; }
        if st != Denied { return; }
        MoreBusy(State(), busy, j - 1);
        x := NextTime(x, j);
        j := j + 1;
      }
    }

    /** Delete the oldest product whose region is not locked. */
    method DeleteOldest(busy: set<int>) returns (st: Status, ok: bool, ghost o: int)
      requires Steady()
      modifies Parts(), this`owner, this`isFull
      ensures st == Success || st == Denied
      ensures st == Denied ==> Idle(old(State()), old(Room())) && AllBusy(State(), |State().times|, busy) && ok
      ensures ok ==> (isFull <==> old(isFull) || st == Success)
      ensures st == Success && ok ==>
                Steady()
                && EvictionStep(old(Moment(State(), Room())), busy, o, Moment(State(), Room()))
      ensures old(fb.Room()) > 3 ==> ok
    {
      hide Steady, Shrunk, State, Times, WasEvicted, OldestEvicted, AllBusy, At, FreeBlock.Books, FreeBlock.Room;
      ghost var x0, j := State(), 1;
      ok := true;
      var x, rlix, sig;
      st, x, rlix, sig, j, o := OldestUnlocked(busy);
      if st != Success { return; }
      AtFacts(x, j, o);
      ok := DeleteAt(x, rlix, sig, j, o);
      if ok {
        FirstEvicted(x0, busy, j - 1, o, State());
        MarkFull();
      }
    }

    method MarkFull()
      requires Steady()
      modifies this`isFull
      ensures Idle(old(State()), old(Room())) && isFull
    {
      hide Sound, State, FreeBlock.Books, FreeBlock.Room;
      ghost var parts := Parts();
      isFull := true;
    }

    /** Nothing has changed. */
    ghost predicate Idle(x: Ix, s: Space)
      reads `owner, `disk, Parts(), rl.fb, rl.fb.nfree, rl.fb.free, rl.fb.fblks, tq.fb, tq.fb.nfree, tq.fb.free,
            tq.fb.fblks
    {
      Steady() && State() == x && Room() == s
    }

    ghost function Now(): Moment
      reads `owner, `disk, rl, tq, tq.tqep, sx, sx.sxep, fb, fb.nfree
    {
      Moment(State(), Room())
    }

    lemma SteadyFacts()
      requires Steady()
      ensures Agree(State()) && rl.nelems == |State().used| + |rl.held| && rl.nempty >= 0
      ensures rl.held == {} && State().used == {} ==> rl.nempty > 0
      ensures forall extent :: rl.held == {} && State().used == {} && extent <= rl.hi - rl.lo ==>
                !RL.NoneFits(rl.m, extent)
    {
      hide RL.RegionList.Valid, TQ.TimeQueue.Valid, SX.SignatureIndex.Valid, SX.SignatureIndex.Map, Agree, RL.Settled;
      hide FreeBlock.Books, FreeBlock.Room;
      rl.Counters();
      if rl.held == {} && State().used == {} {
        assert rl.where == map[];
        rl.NothingUsed();
      }
    }

    /** Delete products until there is an unused region record. */
    method MakeSlot(busy: set<int>) returns (st: Status, ok: bool, ghost trail: seq<Moment>, ghost gone: seq<int>)
      requires Valid() && rl.nempty == 0
      modifies Parts(), this`owner, this`isFull
      ensures ok ==>
                && Valid() && Story(trail, gone, busy, old(Now()), Now()) && Slotless(trail, |gone|)
                && Open(State()) == Open(old(State())) && rl.untracked == old(rl.untracked)
                && |trail| == |gone| + 1 && |State().used| + |gone| == |old(State()).used|
      ensures ok ==>
                (st == Success && rl.nempty > 0)
                || (st == Denied && rl.nempty == 0 && State().used != {} && AllBusy(State(), |State().times|, busy))
      ensures ok ==> (isFull <==> old(isFull) || gone != [])
      ensures ok && busy == {} && Open(old(State())) == {} ==> st == Success
      ensures old(fb.Room()) >= 4 * |old(State()).used| ==> ok
    {
      hide Steady, State, Story, EvictionStep, AllBusy, Parts, Open, FreeBlock.Books, FreeBlock.Room;
      ghost var m0 := Now();
      ok, trail, gone := true, [m0], [];
      StoryStarts(busy, m0);
      while true
        invariant Valid() && Story(trail, gone, busy, m0, Now()) && Slotless(trail, |gone| + 1)
        invariant rl.nempty == 0 && Open(State()) == Open(m0.x) && rl.untracked == m0.s.untracked && ok
                  && |trail| == |gone| + 1
        invariant |State().used| + |gone| == |m0.x.used| && fb.Room() >= m0.s.room - 4 * |gone|
        invariant isFull <==> old(isFull) || gone != []
        decreases |State().used|
      {
        SteadyFacts();
        if rl.nelems == 0 { return NoMemory, true, trail, gone; }
        ghost var m, o := Now(), 0;
        if Open(State()) == {} { SomeUnlocked(State()); }
        st, ok, o := DeleteOldest(busy);
        if !ok { return; }
        if st != Success { return; }
        StoryGoesOn(trail, gone, busy, m0, m, o, Now());
        trail, gone := trail + [Now()], gone + [o];
        if rl.nempty > 0 { return; }
      }
    }

    method Fetch(extent: int) returns (x: int, ghost o: int)
      requires Steady() && 0 <= extent
      modifies Parts()
      ensures Steady() && (x == RL_NONE <==> RL.NoneFits(old(rl.m), extent))
      ensures x == RL_NONE ==> Now() == old(Now())
      ensures x != RL_NONE ==> Fetched(old(Now()), extent, o, x, Now())
    {
      hide Sound, SX.SignatureIndex.Map, Agree, RL.Chosen, RL.NoneFits, RL.Settled, FreeBlock.Books, FreeBlock.Room;
      SoundApart();
      ghost var m0 := rl.m;
      x, o := TakeRegion(extent);
      if x != RL_NONE { TakenAlone(m0, rl.lo, rl.hi, old(rl.maxfextent), extent, o, x, rl.m); }
    }

    lemma SoundApart()
      requires Sound()
      ensures Wired() && RL.Settled(rl.m, rl.lo, rl.hi, rl.maxfextent)
    {
      hide RL.RegionList.Structure, RL.Settled, TQ.TimeQueue.Valid, SX.SignatureIndex.Valid;
      hide FreeBlock.Books, FreeBlock.Room;
    }

    /** Delete products until a free region can hold `extent`, and take it. */
    method MakeSpace(extent: int, busy: set<int>) returns (st: Status, ok: bool, x: int, ghost o: int,
                                                           ghost trail: seq<Moment>, ghost gone: seq<int>)
      requires Valid() && RL.NoneFits(rl.m, extent) && 0 <= extent
      modifies Parts(), this`owner, this`isFull
      ensures ok ==>
                Steady() && |trail| == |gone| + 1 && Fitless(trail, |gone|, extent)
                && |gone| <= |old(State()).used|
      ensures ok ==>
                Story(trail, gone, busy, old(Now()), trail[|gone|]) && Agree(trail[|gone|].x)
                && Open(trail[|gone|].x) == Open(old(State()))
      ensures ok ==>
                trail[|gone|].s.held == {} && trail[|gone|].s.nempty >= old(rl.nempty)
                && trail[|gone|].s.untracked == old(rl.untracked)
      ensures ok && st == Success ==> Fetched(trail[|gone|], extent, o, x, Now())
      ensures ok && st != Success ==> Now() == trail[|gone|]
      ensures ok && st != Success ==>
                (st == Denied && State().used != {} && AllBusy(State(), |State().times|, busy))
                    || (st == NoMemory && extent > rl.hi - rl.lo && State().used == {})
      ensures ok && busy == {} && Open(old(State())) == {} ==> st != Denied
      ensures ok ==> (isFull <==> old(isFull) || gone != [])
      ensures old(fb.Room()) >= 4 * |old(State()).used| ==> ok
    {
      hide Steady, State, Story, EvictionStep, AllBusy, Parts, Open, RL.NoneFits, Agree;
      hide FreeBlock.Books, FreeBlock.Room;
      ghost var m0 := Now();
      NotPart();
      ok, x, o, trail, gone := true, RL_NONE, 0, [m0], [];
      StoryStarts(busy, m0);
      while true
        invariant Valid() && Story(trail, gone, busy, m0, Now()) && Fitless(trail, |gone| + 1, extent)
        invariant Open(State()) == Open(m0.x) && rl.untracked == m0.s.untracked && rl.nempty >= m0.s.nempty && ok
        invariant |trail| == |gone| + 1 && trail[|gone|] == Now() && RL.NoneFits(rl.m, extent)
        invariant |State().used| + |gone| == |m0.x.used| && fb.Room() >= m0.s.room - 4 * |gone|
        invariant isFull <==> old(isFull) || gone != []
        decreases |State().used|
      {
        SteadyFacts();
        if rl.nelems == 0 { return NoMemory, true, RL_NONE, 0, trail, gone; }
        ghost var m := Now();
        if Open(State()) == {} { SomeUnlocked(State()); }
        st, ok, o := DeleteOldest(busy);
        if !ok { return; }
        if st != Success { return; }
        StoryGoesOn(trail, gone, busy, m0, m, o, Now());
        trail, gone := trail + [Now()], gone + [o];
        SteadyFacts();
        x, o := Fetch(extent);
        if x != RL_NONE { return; }
      }
    }

    /** Cut a fetched region to size, put it into use and enter its signature. */
    method Enter(x: int, extent: int, sig: SX.Signature, ghost o: int)
      returns (ok: bool, torn: bool, offset: int, granted: int)
      requires Steady() && rl.held == {o} && RL.HeldAt(rl.m, o, x) && NoFreeAfter(rl.m, o) && rl.nempty > 0
      requires 0 <= extent <= rl.m[o].extent && extent % 2 == 0 && smallestExtentSeen <= extent && sig !in State().sigs
      modifies Parts(), this`owner
      ensures torn <==> extent == 0 && 64 < old(rl.m[o].extent)
      ensures torn ==> !ok
      ensures ok ==>
                && Valid() && offset == o && o !in old(State()).used && State() == Reserved(old(State()), sig, o)
                && InUse(rl.m, o, granted) && extent <= granted <= 2 * extent + 64 && SameElse(old(rl.m), o, rl.m)
                && rl.untracked == old(rl.untracked) + granted && fb.Room() >= old(fb.Room()) - 2
      ensures ok ==>
                granted == if old(rl.m[o].extent) - extent > smallestExtentSeen + 64 then extent
                           else old(rl.m[o].extent)
      ensures old(fb.Room()) > 1 && !torn ==> ok
    {
      hide Steady, Sound, State, SX.SignatureIndex.Map, RL.HeldAt, SameElse, FreeBlock.Books, FreeBlock.Room;
      ghost var x0, m0 := State(), rl.m;
      SameElseSame(m0, o);
      EnterFacts(x, o);
      ok, torn, offset, granted := true, false, 0, 0;
      if extent + smallestExtentSeen + 64 < rl.rp[x].GetExtent() {
        if extent == 0 { return false, true, offset, granted; }
        ok := Trim(x, extent, o);
        if !ok { return; }
      }
      EnterFacts(x, o);
      ReservedAgrees(x0, sig, o);
      ghost var m1 := rl.m;
      offset, granted := Register(x, sig, o);
      SameElseTrans(m0, o, m1, rl.m);
    }

    lemma EnterFacts(x: int, o: int)
      requires Steady() && rl.held == {o} && RL.HeldAt(rl.m, o, x)
      ensures 0 <= x < rl.rp.Length && rl.rp[x].offset == o && rl.rp[x].GetExtent() == rl.m[o].extent
              && o !in State().used
      ensures sx.nelems < sx.nalloc && Agree(State())
    {
      hide RL.RegionList.Structure, RL.Settled, TQ.TimeQueue.Valid, SX.SignatureIndex.Valid, SX.SignatureIndex.Map;
      hide FreeBlock.Books, FreeBlock.Room;
      hide Agree;
      rl.StructureRecord(o);
      rl.InUse(o);
      rl.Counters();
    }

    method Trim(x: int, extent: int, ghost o: int) returns (ok: bool)
      requires Steady() && RL.HeldAt(rl.m, o, x) && NoFreeAfter(rl.m, o) && rl.nempty > 0
               && 0 < extent < rl.m[o].extent && extent % 2 == 0
      modifies Parts()
      ensures ok ==>
                && Steady() && State() == old(State()) && rl.held == old(rl.held) && rl.untracked == old(rl.untracked)
                && RL.HeldAt(rl.m, o, x) && rl.m[o].extent == extent && SameElse(old(rl.m), o, rl.m)
      ensures old(fb.Room()) > 1 ==> ok
      ensures old(fb.Room()) - 2 <= fb.Room()
    {
      hide Sound, SX.SignatureIndex.Map, Agree, FreeBlock.Books, FreeBlock.Room;
      SoundApart();
      ghost var y;
      ok, y := SplitRegion(x, extent, o);
    }

    method Register(x: int, sig: SX.Signature, ghost o: int) returns (offset: int, granted: int)
      requires Steady() && rl.held == {o} && RL.HeldAt(rl.m, o, x) && sig !in State().sigs && sx.nelems < sx.nalloc
      requires o !in State().used && Agree(Reserved(State(), sig, o))
      modifies Parts(), this`owner
      ensures Valid() && offset == o && State() == Reserved(old(State()), sig, o)
      ensures InUse(rl.m, o, granted) && granted == old(rl.m[o].extent) && SameElse(old(rl.m), o, rl.m)
              && rl.untracked == old(rl.untracked) + granted
      ensures fb.Room() == old(fb.Room())
    {
      hide Sound, SX.SignatureIndex.Map, Agree, Times, RL.HeldAt, InUse, SameElse, FreeBlock.Books, FreeBlock.Room;
      Recounted(rl.where, o, x);
      ghost var x0 := State();
      offset, granted := Book(x, sig, o);
      Own(o, sig, x0);
    }

    ghost method Own(o: int, sig: SX.Signature, x: Ix)
      requires Sound() && rl.held == {} && sx.nelems == |rl.where|
      requires Ix(sx.Map(), rl.where.Keys, Times(), owner, disk) == x.(sigs := x.sigs[sig := o], used := x.used + {o})
               && Agree(Reserved(x, sig, o))
      modifies this`owner
      ensures Valid() && State() == Reserved(x, sig, o)
    {
      hide Sound, SX.SignatureIndex.Map, Agree, Times, FreeBlock.Books, FreeBlock.Room;
      ghost var parts := Parts();
      owner := owner[o := sig];
    }

    method Book(x: int, sig: SX.Signature, ghost o: int) returns (offset: int, granted: int)
      requires Sound() && RL.HeldAt(rl.m, o, x) && sig !in sx.Map() && sx.nelems < sx.nalloc
      modifies Parts()
      ensures Sound() && offset == o && rl.where == old(rl.where)[o := x] && rl.held == old(rl.held) - {o}
      ensures sx.Map() == old(sx.Map())[sig := o] && sx.nelems == old(sx.nelems) + 1 && Times() == old(Times())
      ensures InUse(rl.m, o, granted) && granted == old(rl.m[o].extent) && SameElse(old(rl.m), o, rl.m)
              && rl.untracked == old(rl.untracked) + granted
      ensures fb.Room() == old(fb.Room())
    {
      hide Sound, SX.SignatureIndex.Map, Times, RL.HeldAt, SameElse, FreeBlock.Books, FreeBlock.Room;
      UseRegion(x, o);
      offset, granted := rl.rp[x].offset, rl.rp[x].GetExtent();
      var added := AddSignature(sig, rl.rp[x].offset);
    }

    method FindSignature(sig: SX.Signature) returns (slot: int)
      requires Steady()
      ensures slot != SX.SX_NONE <==> sig in State().sigs
      ensures slot != SX.SX_NONE ==> 0 <= slot < sx.sxep.Length && State().sigs[sig] == sx.sxep[slot].offset
    {
      hide RL.RegionList.Valid, TQ.TimeQueue.Valid, SX.SignatureIndex.Valid, SX.SignatureIndex.Map, Agree;
      hide FreeBlock.Books, FreeBlock.Room;
      slot := sx.Find(sig);
    }

    /** Take a region that can hold `extent`, deleting the oldest products if there is none. */
    method Obtain(extent: int, busy: set<int>) returns (st: Status, ok: bool, x: int, ghost o: int,
                                                        ghost trail: seq<Moment>, ghost gone: seq<int>)
      requires Valid() && 0 <= extent
      modifies Parts(), this`owner, this`isFull
      ensures ok ==>
                Steady() && |trail| == |gone| + 1 && Fitless(trail, |gone|, extent)
                && |gone| <= |old(State()).used|
      ensures ok ==>
                Story(trail, gone, busy, old(Now()), trail[|gone|]) && Agree(trail[|gone|].x)
                && Open(trail[|gone|].x) == Open(old(State()))
      ensures ok ==>
                trail[|gone|].s.held == {} && trail[|gone|].s.nempty >= old(rl.nempty)
                && trail[|gone|].s.untracked == old(rl.untracked)
      ensures ok && st == Success ==> Fetched(trail[|gone|], extent, o, x, Now())
      ensures ok && st != Success ==> Now() == trail[|gone|]
      ensures ok && st != Success ==>
                (st == Denied && State().used != {} && AllBusy(State(), |State().times|, busy))
                    || (st == NoMemory && extent > rl.hi - rl.lo && State().used == {})
      ensures ok && busy == {} && Open(old(State())) == {} ==> st != Denied
      ensures ok ==> (isFull <==> old(isFull) || gone != [])
      ensures !RL.NoneFits(old(rl.m), extent) ==> ok && st == Success && gone == []
      ensures old(fb.Room()) >= 4 * |old(State()).used| ==> ok
    {
      hide Steady, State, Story, AllBusy, Parts, Open, RL.NoneFits, Agree, Fetched, FreeBlock.Books, FreeBlock.Room;
      SteadyFacts();
      ghost var m0 := Now();
      NotPart();
      StoryStarts(busy, m0);
      st, ok, trail, gone := Success, true, [m0], [];
      x, o := Fetch(extent);
      if x == RL_NONE {
        st, ok, x, o, trail, gone := MakeSpace(extent, busy);
      }
    }

    /**
     Reserve a region for a new product.  A request for no bytes whose best fit is larger than 64 bytes is `torn`: the
     region is cut at 0, which puts a free region at the offset that is handed out.
     */
    method AllocateProductSpace(extent: int, sig: SX.Signature, busy: set<int>)
      returns (st: Status, ok: bool, torn: bool, offset: int, granted: int, ghost trail: seq<Moment>,
               ghost gone: seq<int>)
      requires Valid() && 0 <= extent
      modifies Parts(), this`owner, this`isFull, this`smallestExtentSeen
      ensures ok ==>
                && Valid()
                && Allocation(st, old(Now()), Now(),
                              Ask(sig, RoundUp(extent, align), old(smallestExtentSeen), rl.hi - rl.lo, busy),
                              trail, gone, offset, granted, smallestExtentSeen)
                && fb.Room() >= old(fb.Room()) - 4 * |gone| - 2
                && |State().used| + |gone| == |old(State()).used| + (if st == Success then 1 else 0)
                && State().sigs.Keys <= old(State()).sigs.Keys + {sig}
      ensures ok && busy == {} && Open(old(State())) == {} && sig !in old(State()).sigs ==>
                && (st == Success <==> RoundUp(extent, align) <= rl.hi - rl.lo)
                && (st != Success ==> st == NoMemory && State().used == {})
      ensures sig in old(State()).sigs ==> st == Dup && ok && gone == []
      ensures ok ==> (isFull <==> old(isFull) || gone != [])
      ensures torn ==> !ok && |trail| == |gone| + 1 && Story(trail, gone, busy, old(Now()), trail[|gone|])
      ensures (ok || torn) && sig !in old(State()).sigs ==>
                && |trail| == |gone| + 1
                && (torn <==> st == Success && extent == 0 && Tears(trail[|gone|].s.m))
      ensures extent == 0 && sig !in old(State()).sigs && old(rl.nempty) > 0 && !RL.NoneFits(old(rl.m), 0) ==>
                (torn <==> Tears(old(rl.m)))
      ensures old(fb.Room()) >= 4 * |old(State()).used| + 2 && !torn ==> ok
    {
      hide Steady, State, Story, Open, Agree, Outcome, Starved, Tears, RoundUp, Slotless, Fitless, RL.NoneFits;
      hide Allocation, FreeBlock.Books, FreeBlock.Room;
      offset, granted, ok, torn, trail, gone := 0, 0, true, false, [], [];
      NotPart();
      ghost var ask := Ask(sig, RoundUp(extent, align), smallestExtentSeen, rl.hi - rl.lo, busy);
      SteadyFacts();
      var slot := FindSignature(sig);
      if slot != SX.SX_NONE {
        AllocationRefused(Now(), ask, trail, gone, offset, granted);
        return Dup, ok, torn, offset, granted, trail, gone;
      }
      st, ok, trail, gone := FreeSlot(busy);
      ghost var last := Now();
      if !ok { return; }
      StorySigs(trail, gone, busy, old(Now()), last);
      if st != Success {
        SlotlessStarved(trail, |gone|, RoundUp(extent, align));
        OutcomeFailed(st, last, ask, offset, granted);
        AllocationStarved(st, old(Now()), last, ask, trail, gone, offset, granted);
        return;
      }
      ghost var trail', gone';
      st, ok, torn, offset, granted, trail', gone' := Place(extent, sig, busy);
      if torn {
        StoriesJoin(trail, gone, busy, old(Now()), last, trail', gone', trail'[|gone'|]);
        StoryEnds(trail + trail'[1..], gone + gone', busy, old(Now()), trail'[|gone'|]);
        return st, ok, torn, offset, granted, trail + trail'[1..], gone + gone';
      }
      if !ok { return; }
      AllocationJoined(st, old(Now()), last, Now(), ask, trail, gone, trail', gone', offset, granted,
                       smallestExtentSeen);
      trail, gone := trail + trail'[1..], gone + gone';
      AllocationCount(st, old(Now()), Now(), ask, trail, gone, offset, granted, smallestExtentSeen);
      if st == Success { Within(offset, granted); }
    }

    /** A region is no larger than the data section. */
    lemma Within(o: int, extent: int)
      requires Steady() && InUse(rl.m, o, extent)
      ensures extent <= rl.hi - rl.lo
    {
      hide RL.RegionList.Structure, TQ.TimeQueue.Valid, SX.SignatureIndex.Valid, SX.SignatureIndex.Map, Agree;
      hide FreeBlock.Books, FreeBlock.Room;
      SoundApart();
    }

    /** Make sure that there is an unused region record. */
    method FreeSlot(busy: set<int>) returns (st: Status, ok: bool, ghost trail: seq<Moment>, ghost gone: seq<int>)
      requires Valid()
      modifies Parts(), this`owner, this`isFull
      ensures ok ==>
                && Valid() && Story(trail, gone, busy, old(Now()), Now()) && Slotless(trail, |gone|)
                && Open(State()) == Open(old(State())) && rl.untracked == old(rl.untracked)
                && |trail| == |gone| + 1 && |State().used| + |gone| == |old(State()).used| && trail[|gone|] == Now()
      ensures ok ==>
                (st == Success && rl.nempty > 0)
                || (st == Denied && rl.nempty == 0 && State().used != {} && AllBusy(State(), |State().times|, busy))
      ensures ok ==> (isFull <==> old(isFull) || gone != [])
      ensures ok && busy == {} && Open(old(State())) == {} ==> st == Success
      ensures old(rl.nempty) > 0 ==> ok && st == Success && gone == [] && Now() == old(Now())
      ensures old(fb.Room()) >= 4 * |old(State()).used| ==> ok
      ensures ok ==> fb.Room() >= old(fb.Room()) - 4 * |gone|
    {
      hide Steady, State, Story, AllBusy, Parts, Open, Agree, FreeBlock.Books, FreeBlock.Room;
      SteadyFacts();
      ghost var m0 := Now();
      StoryStarts(busy, m0);
      st, ok, trail, gone := Success, true, [m0], [];
      if rl.nempty == 0 { st, ok, trail, gone := MakeSlot(busy); }
      if ok { StoryEnds(trail, gone, busy, m0, Now()); }
    }

    /** Find a region for a product that is not in the queue, and enter the product. */
    method Place(extent: int, sig: SX.Signature, busy: set<int>)
      returns (st: Status, ok: bool, torn: bool, offset: int, granted: int, ghost trail: seq<Moment>,
               ghost gone: seq<int>)
      requires Valid() && 0 <= extent && rl.nempty > 0 && sig !in State().sigs
      modifies Parts(), this`owner, this`isFull, this`smallestExtentSeen
      ensures ok ==>
                && Valid() && |trail| == |gone| + 1 && Story(trail, gone, busy, old(Now()), trail[|gone|])
                && Fitless(trail, |gone|, RoundUp(extent, align)) && trail[0] == old(Now())
                && Outcome(st, trail[|gone|], Now(),
                           Ask(sig, RoundUp(extent, align), old(smallestExtentSeen), rl.hi - rl.lo, busy),
                           offset, granted)
                && fb.Room() >= old(fb.Room()) - 4 * |gone| - 2
      ensures ok && busy == {} && Open(old(State())) == {} ==> st != Denied
      ensures smallestExtentSeen ==
              if RoundUp(extent, align) < old(smallestExtentSeen) then RoundUp(extent, align)
              else old(smallestExtentSeen)
      ensures ok ==> trail[|gone|].s.nempty > 0 && (isFull <==> old(isFull) || gone != [])
      ensures torn ==> !ok && |trail| == |gone| + 1 && Story(trail, gone, busy, old(Now()), trail[|gone|])
      ensures ok || torn ==> (torn <==> st == Success && extent == 0 && Tears(trail[|gone|].s.m))
      ensures extent == 0 && !RL.NoneFits(old(rl.m), 0) ==> (torn <==> Tears(old(rl.m)))
      ensures old(fb.Room()) >= 4 * |old(State()).used| + 2 && !torn ==> ok
    {
      hide Steady, State, Story, Parts, Open, Agree, Outcome, RoundUp, SameElse, Tears, RL.NoneFits, Fetched;
      hide RL.BestFit;
      hide FreeBlock.Books, FreeBlock.Room;
      torn, offset, granted := false, 0, 0;
      NotPart();
      ghost var ask := Ask(sig, RoundUp(extent, align), smallestExtentSeen, rl.hi - rl.lo, busy);
      var need := Need(extent);
      var x;
      ghost var o;
      st, ok, x, o, trail, gone := Obtain(need, busy);
      if !ok { return; }
      ghost var last := trail[|gone|];
      StorySigs(trail, gone, busy, old(Now()), last);
      if st != Success {
        OutcomeFailed(st, last, ask, offset, granted);
        return;
      }
      FetchedFacts(last, need, o, x, Now());
      ghost var m1 := rl.m;
      ok, torn, offset, granted := Enter(x, need, sig, o);
      if ok { SameElseTrans(last.s.m, o, m1, rl.m); }
      if ok { OutcomeEntered(last, Now(), ask, offset, granted); }
    }

    lemma NotPart()
      ensures this !in Parts()
    {
    }

    /** An empty queue is one free region, so a request for no bytes tears it exactly when it is above 64 bytes. */
    lemma EmptyTears()
      requires Steady() && rl.held == {} && State().used == {}
      ensures rl.nempty > 0 && !RL.NoneFits(rl.m, 0) && (Tears(rl.m) <==> 64 < rl.hi - rl.lo)
    {
      hide RL.RegionList.Valid, TQ.TimeQueue.Valid, SX.SignatureIndex.Valid, SX.SignatureIndex.Map, Agree;
      hide FreeBlock.Books, FreeBlock.Room;
      assert rl.where == map[];
      rl.NothingUsed();
      rl.Counters();
      assert rl.m[rl.lo].kind == Free && 0 < rl.m[rl.lo].extent;
      assert 64 < rl.hi - rl.lo ==> RL.BestFit(rl.m, 0, rl.lo);
    }

    /** The arena's blocks are those of the products' times and of the free regions, and of the lists' sentinels. */
    lemma BlockCount()
      requires Steady()
      ensures |fb.out| == |State().times| + 2 * rl.nfree + 6 && |State().times| <= |State().used|
      ensures |State().used| + rl.nfree <= rl.nalloc && 0 <= rl.nfree
    {
      hide RL.RegionList.Valid, TQ.TimeQueue.Valid, SX.SignatureIndex.Valid, SX.SignatureIndex.Map, RL.Settled;
      hide FreeBlock.Books, FreeBlock.Room;
      tq.BlockCount();
      rl.BlockCount();
      rl.Counters();
      FewerTimes(State().times, State().used);
    }

    /** Round the request up, and remember the smallest one. */
    method Need(extent: int) returns (need: int)
      requires Valid() && 0 <= extent
      modifies this`smallestExtentSeen
      ensures Valid() && Now() == old(Now()) && need == RoundUp(extent, align) && need % 2 == 0
              && smallestExtentSeen <= need
      ensures 0 <= need && (need == 0 <==> extent == 0)
      ensures smallestExtentSeen == if need < old(smallestExtentSeen) then need else old(smallestExtentSeen)
    {
      hide Steady, State, RoundUp, FreeBlock.Books, FreeBlock.Room;
      ghost var parts := Parts();
      RoundUpZero(extent, align);
      need := RoundUp(extent, align);
      if need < smallestExtentSeen { smallestExtentSeen := need; }
    }

    /**
     Give back a region.  Neither the offset nor the signature is checked against the other, so the indexes agree
     afterwards exactly when the region was reserved for that product and is not committed.
     */
    method FreeByOffset(offset: int, sig: SX.Signature) returns (st: Status, ok: bool)
      requires Valid()
      modifies Parts(), this`owner
      ensures st == if offset in old(State()).used && sig in old(State()).sigs then Success else Invalid
      ensures st == Invalid ==> ok && Valid() && Now() == old(Now())
      ensures st == Success && ok ==>
                && rl.held == {} && State() == Freed(old(State()), offset, sig)
                && (Valid() <==> Lease(old(State()), offset, sig)) && Shrunk(old(Room()), {offset}, 1, Room())
      ensures old(fb.Room()) > 3 ==> ok
    {
      hide Steady, State, Shrunk, Freed, Lease, FreeBlock.Books, FreeBlock.Room;
      ok := true;
      var rlix := FindRegion(offset);
      if rlix == RL_NONE { return Invalid, ok; }
      RecordAt(rlix, offset);
      if !rl.rp[rlix].IsAlloc() { return Invalid, ok; }
      var found;
      found, ok := Forget(rlix, sig, offset);
      st := if found then Success else Invalid;
    }

    method Forget(rlix: int, sig: SX.Signature, ghost o: int) returns (found: bool, ok: bool)
      requires Valid() && RL.UsedAt(rl.m, o, rlix) && o in State().used
      modifies Parts(), this`owner
      ensures found <==> sig in old(State()).sigs
      ensures !found ==> ok && Valid() && Now() == old(Now())
      ensures found && ok ==>
                && rl.held == {} && State() == Freed(old(State()), o, sig)
                && (Valid() <==> Lease(old(State()), o, sig)) && Shrunk(old(Room()), {o}, 1, Room())
      ensures old(fb.Room()) > 3 ==> ok
    {
      hide Sound, SX.SignatureIndex.Map, Times, Agree, Shrunk, Lease, FreeBlock.Books, FreeBlock.Room;
      ghost var x0 := State();
      FreedExactly(x0, o, sig);
      Uncounted(rl.where, o);
      found, ok := Drop(rlix, sig, o);
      if found && ok { Disown(o, sig, x0); }
    }

    method Drop(rlix: int, sig: SX.Signature, ghost o: int) returns (found: bool, ok: bool)
      requires Sound() && RL.UsedAt(rl.m, o, rlix)
      modifies Parts()
      ensures found <==> sig in old(sx.Map())
      ensures !found ==>
                && ok && Sound() && sx.Map() == old(sx.Map()) && sx.nelems == old(sx.nelems) && Times() == old(Times())
                && rl.where == old(rl.where) && Room() == old(Room())
      ensures found && ok ==>
                && Sound() && sx.Map() == old(sx.Map()) - {sig} && sx.nelems == old(sx.nelems) - 1
                && Times() == old(Times()) && rl.where == old(rl.where) - {o} && rl.held == old(rl.held)
                && Shrunk(old(Room()), {o}, 1, Room())
      ensures old(fb.Room()) > 3 ==> ok
    {
      hide SX.SignatureIndex.Map, Sound, Times, FreeBlock.Books, FreeBlock.Room;
      ghost var map0 := sx.Map();
      ok := true;
      found := RemoveSignature(sig);
      if !found {
        assert map0 - {sig} == map0;
        return;
      }
      ok := FreeRegion(rlix, o);
    }

    ghost method Disown(o: int, sig: SX.Signature, x: Ix)
      requires Sound() && rl.held == {} && sx.nelems == |rl.where|
      requires Ix(sx.Map(), rl.where.Keys, Times(), owner, disk) == x.(sigs := x.sigs - {sig}, used := x.used - {o})
      modifies this`owner
      ensures rl.held == {} && State() == Freed(x, o, sig) && (Valid() <==> Agree(State()))
      ensures Room() == old(Room())
    {
      hide Sound, SX.SignatureIndex.Map, Agree, Times, FreeBlock.Books, FreeBlock.Room;
      ghost var parts := Parts();
      owner := owner - {o};
    }

    /** The reserved region at `offset` gets the first unused time at or after `now` and joins the time queue. */
    method CommitTime(offset: int, now: Timestamp, ghost gap: Timestamp) returns (ok: bool, t: Timestamp, ghost k: nat)
      requires Valid() && offset in Open(State()) && offset in disk
      requires now.Normal() && !now.Less(ZERO) && TQ.Unused(State().times, now, gap)
      modifies Parts()
      ensures TQ.LeastUnused(old(State()).times, now, t)
      ensures ok ==> (Valid() <==> HeaderFits(old(State()), offset))
      ensures ok ==>
                && rl.held == {} && WasCommitted(old(State()), k, t, offset, State())
                && Open(State()) == Open(old(State())) - {offset}
                && Room() == old(Room()).(room := fb.Room()) && fb.Room() >= old(fb.Room()) - 1
      ensures old(fb.Room()) > 0 ==> ok
    {
      hide Sound, SX.SignatureIndex.Map, Agree, Open, FreeBlock.Books, FreeBlock.Room, TQ.LeastUnused, TQ.Unused;
      ghost var x0 := State();
      CommitFacts(offset);
      ok, t, k := AddTime(offset, now, gap);
      if ok { CommittedExactly(x0, k, t, offset); }
    }

    lemma CommitFacts(o: int)
      requires Valid() && o in Open(State())
      ensures tq.InTable() && tq.HasSpace() && 0 <= o
    {
      hide RL.RegionList.Valid, TQ.TimeQueue.Threads, SX.SignatureIndex.Valid, SX.SignatureIndex.Map, Agree;
      hide FreeBlock.Books, FreeBlock.Room;
      OpenRoom(State(), o);
      rl.Counters();
      rl.InUse(o);
      tq.ThreadsInTable(fb.Mem());
    }

    lemma StateDisk()
      ensures State().disk == disk && State().owner == owner
    {
    }

    /** Count the bytes of an allocation. */
    method CountBytes(extent: int)
      requires Valid()
      modifies Parts()
      ensures Valid() && State() == old(State()) && Room() == old(Room()).(untracked := old(rl.untracked) - extent)
      ensures rl.nelems == old(rl.nelems) && rl.nbytes == old(rl.nbytes) + extent
      ensures rl.maxbytes == if rl.nbytes > old(rl.maxbytes) then rl.nbytes else old(rl.maxbytes)
    {
      hide RL.RegionList.Valid, TQ.TimeQueue.Valid, SX.SignatureIndex.Valid, SX.SignatureIndex.Map, Agree;
      hide FreeBlock.Books, FreeBlock.Room;
      hide TQ.TimeQueue.Contents, TQ.TimeQueue.InTable;
      rl.CountBytes(extent);
    }

    /** Write the start of a reserved region. */
    method WriteHeader(o: int, b: Bytes)
      requires Valid() && o in Open(State())
      modifies this`disk
      ensures Valid() && State() == old(State()).(disk := Stored(old(disk), o, b)) && Room() == old(Room())
    {
      hide Sound, SX.SignatureIndex.Map, Times, Agree, Open, Stored, FreeBlock.Books, FreeBlock.Room;
      ghost var parts := Parts();
      WrittenAgrees(State(), o, b);
      disk := Stored(disk, o, b);
    }

    method FindTime(key: Timestamp, mt: TQ.Match) returns (x: int, ghost j: nat)
      requires Steady() && !ENDT.Less(key) && (mt == TQ.Equal && key == ENDT ==> State().times == [])
      ensures TQ.Found(State().times, key, mt, j) && (x == TQ.TQ_NONE <==> j == 0)
      ensures x != TQ.TQ_NONE ==> Spot(x, j)
    {
      hide RL.RegionList.Valid, SX.SignatureIndex.Valid, SX.SignatureIndex.Map, Agree, TQ.Found, FbOk, SkipOk;
      hide FreeBlock.Books, FreeBlock.Room;
      x, j := tq.Find(key, mt);
    }

    lemma TimesBelowEnd()
      requires Steady()
      ensures TQ.Increasing(State().times)
      ensures forall i :: 0 <= i < |State().times| ==> State().times[i].tv.Less(ENDT) && State().times[i].tv.Normal()
    {
      hide RL.RegionList.Valid, SX.SignatureIndex.Valid, SX.SignatureIndex.Map, Agree, FbOk, SkipOk;
      hide FreeBlock.Books, FreeBlock.Room;
      tq.ThreadsInTable(fb.Mem());
      tq.BelowEnd();
      tq.Normal();
    }

    /** No more products than slots. */
    lemma TimesBound()
      requires Valid()
      ensures |State().times| <= rl.nalloc
    {
      hide RL.RegionList.Valid, TQ.TimeQueue.Valid, SX.SignatureIndex.Valid, SX.SignatureIndex.Map;
      hide FreeBlock.Books, FreeBlock.Room;
      FewerTimes(State().times, State().used);
      rl.Counters();
    }

    /** Where the search for a product starts: at the last entry before `key`, or at the first entry. */
    method FindStart(key: Timestamp) returns (x: int, ghost j: nat)
      requires Steady() && !ENDT.Less(key)
      ensures x == TQ.TQ_NONE <==> State().times == []
      ensures x != TQ.TQ_NONE ==> Spot(x, j) && Start(State().times, key, j)
    {
      hide Steady, State, Spot, TQ.Found, Start, FreeBlock.Books, FreeBlock.Room;
      ghost var parts := Parts();
      TimesBelowEnd();
      ghost var times := State().times;
      x, j := FindTime(key, TQ.LessThan);
      StartBefore(times, key, j);
      if x == TQ.TQ_NONE {
        x, j := FindTime(key, TQ.Equal);
        if x == TQ.TQ_NONE {
          x, j := FindTime(key, TQ.GreaterThan);
          StartAfter(times, key, j);
        } else {
          StartAt(times, key, j);
        }
      }
    }

    /** Look for the entry with offset `o` from the `from`th element on. */
    method Scan(x0: int, o: int, ghost from: nat) returns (st: Status, x: int, ghost j: nat)
      requires Steady() && Spot(x0, from) && o in State().used
      ensures st == Success || st == NotFound
      ensures st == Success ==> At(x, j, o) && from <= j <= |State().times| && State().times[j - 1].offset == o
      ensures st == NotFound ==> Absent(State().times, from, o)
    {
      hide Steady, State, Spot, At, FreeBlock.Books, FreeBlock.Room;
      ghost var parts := Parts();
      x, j := x0, from;
      ElementAt(x, j);
      while true
        invariant Steady() && Spot(x, j) && from <= j && 1 <= from
        invariant forall i :: from <= i + 1 < j && 0 <= i < |State().times| ==> State().times[i].offset != o
        decreases |State().times| + 1 - j
      {
        ElementAt(x, j);
        if tq.tqep[x].offset == -1 { return NotFound, x, j; }
        if tq.tqep[x].offset == o { return Success, x, j; }
        x := NextTime(x, j);
        j := j + 1;
      }
    }

    /** The time-queue entry of a product, found by its signature. */
    method FindTimeEntryBySignature(sig: SX.Signature, interval: nat, busy: set<int>)
      returns (st: Status, x: int, ghost j: nat)
      requires Steady() && forall o :: o in disk ==> !ENDT.Less(disk[o].arrival)
      ensures LookUp(State(), sig, interval, busy, st)
      ensures st == Success ==> sig in State().sigs && At(x, j, State().sigs[sig])
    {
      hide Steady, State, Spot, At, LookUp, Start, Absent, FreeBlock.Books, FreeBlock.Room;
      ghost var parts := Parts();
      SteadyFacts();
      ghost var x0 := State();
      x, j := TQ.TQ_NONE, 0;
      var slot := FindSignature(sig);
      if slot == SX.SX_NONE {
        NoSuchProduct(x0, sig, interval, busy);
        return NotFound, x, j;
      }
      var o := sx.sxep[slot].offset;
      SignatureUsed(x0, sig);
      var info;
      st, info := ReadRegion(o, busy);
      if st != Success {
        Unreadable(x0, sig, interval, busy, st);
        return Corrupt, x, j;
      }
      EarlierBelowEnd(info.arrival, interval);
      ghost var from;
      x, from := FindStart(Earlier(info.arrival, interval));
      if x == TQ.TQ_NONE {
        NothingThere(x0, sig, interval, busy);
        return Corrupt, x, j;
      }
      st, x, j := Scan(x, o, from);
      Scanned(x0, sig, interval, busy, from, st, j);
    }

    method ReadRegion(o: int, busy: set<int>) returns (st: Status, info: Header)
      requires Steady() && o in State().used
      ensures st == Success || st == Denied || st == Corrupt
      ensures st == Denied ==> o in busy
      ensures st == Success ==> o in State().disk && info == State().disk[o] && o in disk && info == disk[o]
      ensures o in State().disk ==> st != Corrupt
    {
      hide Steady, FreeBlock.Books, FreeBlock.Room;
      ghost var parts := Parts();
      var rlix := FindRegion(o);
      RecordAt(rlix, o);
      st, info := Decode(rl.rp[rlix].offset, busy);
    }
  }

  /**
   What looking a committed product up by signature answers: the product is found if and only if no product
   inserted after it has an insertion time before its creation time less the interval.
   */
  ghost predicate LookUp(x: Ix, sig: SX.Signature, interval: nat, busy: set<int>, st: Status) {
    && (st == Success || st == NotFound || st == Corrupt)
    && (sig !in x.sigs ==> st == NotFound)
    && forall i :: 0 <= i < |x.times| && sig in x.sigs && x.times[i].offset == x.sigs[sig] ==>
         && (st == Corrupt ==> x.sigs[sig] in busy)
         && (st != Corrupt ==> (st == Success <==> NoneBetween(x, i, interval)))
  }

  lemma NoSuchProduct(x: Ix, sig: SX.Signature, interval: nat, busy: set<int>)
    requires sig !in x.sigs
    ensures LookUp(x, sig, interval, busy, NotFound)
  {
  }

  lemma SignatureUsed(x: Ix, sig: SX.Signature)
    requires Agree(x) && sig in x.sigs
    ensures x.sigs[sig] in x.used
  {
    var o := x.sigs[sig];
    assert o in x.owner && x.owner[o] == sig;
    assert o in x.owner <==> o in x.used;
  }

  lemma Unreadable(x: Ix, sig: SX.Signature, interval: nat, busy: set<int>, st: Status)
    requires Agree(x) && sig in x.sigs && (st == Denied ==> x.sigs[sig] in busy)
             && (x.sigs[sig] in x.disk ==> st == Denied)
    ensures LookUp(x, sig, interval, busy, Corrupt)
  {
    forall i | 0 <= i < |x.times| && x.times[i].offset == x.sigs[sig] ensures x.sigs[sig] in busy {
      assert x.times[i].offset in x.disk;
    }
  }

  lemma NothingThere(x: Ix, sig: SX.Signature, interval: nat, busy: set<int>)
    requires sig in x.sigs && x.times == []
    ensures LookUp(x, sig, interval, busy, Corrupt)
  {
  }

  lemma EarlierBelowEnd(t: Timestamp, interval: nat)
    requires !ENDT.Less(t)
    ensures !ENDT.Less(Earlier(t, interval))
  {
  }

  /** The product with its region at `o` is not among those from the `from`th on. */
  ghost predicate Absent(times: seq<TQ.Entry>, from: nat, o: int) {
    forall i :: from <= i + 1 && 0 <= i < |times| ==> times[i].offset != o
  }

  lemma Scanned(x: Ix, sig: SX.Signature, interval: nat, busy: set<int>, from: nat, st: Status, j: nat)
    requires Agree(x) && sig in x.sigs && x.sigs[sig] in x.disk
             && Start(x.times, Earlier(x.disk[x.sigs[sig]].arrival, interval), from)
    requires st == Success || st == NotFound
    requires st == Success ==> from <= j <= |x.times| && x.times[j - 1].offset == x.sigs[sig]
    requires st == NotFound ==> Absent(x.times, from, x.sigs[sig])
    ensures LookUp(x, sig, interval, busy, st)
  {
    hide Earlier, Before;
    var arrival := x.disk[x.sigs[sig]].arrival;
    var key := Earlier(arrival, interval);
    forall k | 0 <= k < |x.times| ensures x.times[k].tv.Less(key) <==> Before(x.times[k].tv, arrival, interval) {
      BeforeIsEarlier(x.times[k].tv, arrival, interval);
    }
    forall i | 0 <= i < |x.times| && x.times[i].offset == x.sigs[sig] ensures st == Success <==>
        NoneBetween(x, i, interval) {
      if st == Success {
        assert i == j - 1;
      } else {
        assert i + 1 < from;
        assert x.times[from - 1].tv.Less(key);
      }
    }
  }

  /**
   A committed product that is not locked is found if and only if no product inserted after it has an insertion time
   more than `interval` seconds before its creation time, in microseconds.
   */
  lemma FoundExactly(x: Ix, sig: SX.Signature, interval: nat, busy: set<int>, st: Status, i: nat)
    requires LookUp(x, sig, interval, busy, st) && Agree(x) && i < |x.times|
    requires sig in x.sigs && x.times[i].offset == x.sigs[sig] && x.sigs[sig] !in busy
    requires x.sigs[sig] in x.disk && x.disk[x.sigs[sig]].arrival.Normal()
    requires forall k :: 0 <= k < |x.times| ==> x.times[k].tv.Normal()
    ensures st == Success || st == NotFound
    ensures st == Success <==>
            forall k :: i < k < |x.times| ==>
              x.times[k].tv.Micros() >= x.disk[x.sigs[sig]].arrival.Micros() - interval * 1000000
  {
    hide Before;
    var arrival := x.disk[x.sigs[sig]].arrival;
    forall k | 0 <= k < |x.times|
      ensures Before(x.times[k].tv, arrival, interval) <==>
              x.times[k].tv.Micros() < arrival.Micros() - interval * 1000000
    {
      BeforeIsMicros(x.times[k].tv, arrival, interval);
    }
  }

  /** In particular, a product inserted no earlier than its creation time less the interval is found. */
  lemma LookUpRecent(x: Ix, sig: SX.Signature, interval: nat, busy: set<int>, st: Status, i: nat)
    requires LookUp(x, sig, interval, busy, st) && Agree(x) && TQ.Increasing(x.times) && i < |x.times|
    requires sig in x.sigs && x.times[i].offset == x.sigs[sig] && x.sigs[sig] !in busy
    requires x.disk[x.sigs[sig]].arrival.Normal() && x.times[i].tv.Normal()
    requires x.times[i].tv.Micros() >= x.disk[x.sigs[sig]].arrival.Micros() - interval * 1000000
    ensures st == Success
  {
    BeforeIsMicros(x.times[i].tv, x.disk[x.sigs[sig]].arrival, interval);
    forall k | i < k < |x.times| ensures !Before(x.times[k].tv, x.disk[x.sigs[sig]].arrival, interval) {
      assert x.times[i].tv.Less(x.times[k].tv);
    }
  }

  /**
   A product that the queue holds and does not find: it was inserted before another, long before its creation time.
   */
  lemma LookUpMisses() returns (x: Ix, sig: SX.Signature)
    ensures Agree(x) && TQ.Increasing(x.times) && sig in x.sigs && x.sigs[sig] in Offsets(x.times)
    ensures forall st :: LookUp(x, sig, 60, {}, st) <==> st == NotFound
  {
    var other: SX.Signature := seq(16, _ => 1);
    sig := seq(16, _ => 0);
    assert sig[0] != other[0];
    var first, second := TQ.Entry(Timestamp(100, 0), 8), TQ.Entry(Timestamp(200, 0), 16);
    x := Ix(map[sig := 8, other := 16], {8, 16}, [first, second], map[8 := sig, 16 := other],
            map[8 := Header(sig, Timestamp(1000, 0)), 16 := Header(other, Timestamp(190, 0))]);
    assert x.times[0].offset == x.sigs[sig] && Before(x.times[1].tv, x.disk[8].arrival, 60);
    assert !NoneBetween(x, 0, 60);
  }

  /** A product inserted a little before its creation time is found with an interval of a minute and not with none. */
  lemma IntervalMatters() returns (x: Ix, sig: SX.Signature)
    ensures Agree(x) && TQ.Increasing(x.times) && sig in x.sigs && x.sigs[sig] in Offsets(x.times)
    ensures forall st :: LookUp(x, sig, 60, {}, st) <==> st == Success
    ensures forall st :: LookUp(x, sig, 0, {}, st) <==> st == NotFound
  {
    var other: SX.Signature := seq(16, _ => 1);
    sig := seq(16, _ => 0);
    assert sig[0] != other[0];
    var first, second := TQ.Entry(Timestamp(995, 0), 8), TQ.Entry(Timestamp(997, 0), 16);
    x := Ix(map[sig := 8, other := 16], {8, 16}, [first, second], map[8 := sig, 16 := other],
            map[8 := Header(sig, Timestamp(1000, 0)), 16 := Header(other, Timestamp(990, 0))]);
    assert x.times[0].offset == x.sigs[sig] && Before(x.times[1].tv, x.disk[8].arrival, 0);
    assert NoneBetween(x, 0, 60) && !NoneBetween(x, 0, 0);
  }

  ghost predicate Start(times: seq<TQ.Entry>, key: Timestamp, j: nat) {
    && 1 <= j <= |times|
    && (1 < j ==> times[j - 1].tv.Less(key))
    && (forall i :: j <= i < |times| ==> !times[i].tv.Less(key))
  }

  lemma StartBefore(times: seq<TQ.Entry>, key: Timestamp, j: nat)
    requires TQ.Found(times, key, TQ.LessThan, j) && forall i :: 0 <= i < |times| ==> times[i].tv.Less(ENDT)
    ensures j > 0 ==> Start(times, key, j)
    ensures j == 0 && key == ENDT ==> times == []
  {
    assert |times| > 0 ==> times[0].tv.Less(ENDT);
  }

  lemma StartAt(times: seq<TQ.Entry>, key: Timestamp, j: nat)
    requires TQ.Increasing(times) && TQ.Found(times, key, TQ.LessThan, 0) && TQ.Found(times, key, TQ.Equal, j) && j > 0
    ensures Start(times, key, j)
  {
    var t, u := times[0].tv, times[j - 1].tv;
    assert 1 < j ==> t.Less(u);
  }

  lemma StartAfter(times: seq<TQ.Entry>, key: Timestamp, j: nat)
    requires TQ.Found(times, key, TQ.LessThan, 0) && TQ.Found(times, key, TQ.Equal, 0)
             && TQ.Found(times, key, TQ.GreaterThan, j)
    ensures if times == [] then j == 0 else j == 1 && Start(times, key, j)
  {
    if times != [] {
      assert !times[0].tv.Less(key) && times[0].tv != key;
      assert key.Less(times[0].tv);
    }
  }

  /**
   No product inserted after the `i`th has an insertion time before the `i`th product's creation time less `interval`
   seconds.
   */
  ghost predicate NoneBetween(x: Ix, i: nat, interval: nat) {
    i < |x.times| && x.times[i].offset in x.disk &&
    forall k :: i < k < |x.times| ==> !Before(x.times[k].tv, x.disk[x.times[i].offset].arrival, interval)
  }

  /** The time `t` is more than `interval` seconds before `a`, by seconds and then microseconds. */
  ghost predicate Before(t: Timestamp, a: Timestamp, interval: nat) {
    t.sec < a.sec - interval || (t.sec == a.sec - interval && t.usec < a.usec)
  }

  lemma BeforeIsEarlier(t: Timestamp, a: Timestamp, interval: nat)
    ensures t.Less(Earlier(a, interval)) <==> Before(t, a, interval)
  {
  }

  lemma BeforeIsMicros(t: Timestamp, a: Timestamp, interval: nat)
    requires t.Normal() && a.Normal()
    ensures Before(t, a, interval) <==> t.Micros() < a.Micros() - interval * 1000000
  {
  }

  function Earlier(t: Timestamp, interval: nat): Timestamp {
    t.(sec := t.sec - interval)
  }

  ghost predicate WasForgotten(x: Ix, o: int, x': Ix) {
    o in x.owner && x' == Forgotten(x, o)
  }

  ghost predicate WasCommitted(x: Ix, k: nat, t: Timestamp, o: int, x': Ix) {
    k <= |x.times| && x' == Committed(x, k, t, o)
  }

  lemma StoryEnds(trail: seq<Moment>, gone: seq<int>, busy: set<int>, a: Moment, b: Moment)
    requires Story(trail, gone, busy, a, b)
    ensures |trail| == |gone| + 1 && trail[0] == a && trail[|gone|] == b && b.s.room >= a.s.room - 4 * |gone|
  {
  }

  lemma StorySigs(trail: seq<Moment>, gone: seq<int>, busy: set<int>, a: Moment, b: Moment)
    requires Story(trail, gone, busy, a, b)
    ensures b.x.sigs.Keys <= a.x.sigs.Keys && |trail| == |gone| + 1 && trail[0] == a
            && b.s.room >= a.s.room - 4 * |gone|
  {
    EvictionsSigs(trail, gone, busy, |gone|);
  }

  lemma AllocationJoined(st: Status, a: Moment, b: Moment, c: Moment, ask: Ask, trail: seq<Moment>, gone: seq<int>,
                         trail': seq<Moment>, gone': seq<int>, offset: int, granted: int, noted: int)
    requires ask.sig !in a.x.sigs && |trail| == |gone| + 1 && |trail'| == |gone'| + 1
    requires Story(trail, gone, ask.busy, a, b) && Slotless(trail, |gone|)
    requires Story(trail', gone', ask.busy, b, trail'[|gone'|]) && Fitless(trail', |gone'|, ask.need)
    requires Outcome(st, trail'[|gone'|], c, ask, offset, granted)
    requires trail'[|gone'|].s.nempty > 0 && noted == if ask.need < ask.seen then ask.need else ask.seen
    ensures st != Dup
    ensures Allocation(st, a, c, ask, trail + trail'[1..], gone + gone', offset, granted, noted)
  {
    hide Outcome, Starved, FreeBlock.Books, FreeBlock.Room;
    StoriesJoin(trail, gone, ask.busy, a, b, trail', gone', trail'[|gone'|]);
    StarvedJoin(trail, |gone|, trail', |gone'|, ask.need);
    OutcomeNotDup(st, trail'[|gone'|], c, ask, offset, granted);
  }

  lemma AllocationRefused(a: Moment, ask: Ask, trail: seq<Moment>, gone: seq<int>, offset: int, granted: int)
    requires ask.sig in a.x.sigs
    ensures Allocation(Dup, a, a, ask, trail, gone, offset, granted, ask.seen)
  {
  }

  lemma AllocationStarved(st: Status, a: Moment, b: Moment, ask: Ask, trail: seq<Moment>, gone: seq<int>, offset: int,
                          granted: int)
    requires st != Dup && ask.sig !in a.x.sigs && Story(trail, gone, ask.busy, a, b)
             && Starved(trail, |gone|, ask.need)
    requires Outcome(st, b, b, ask, offset, granted) && b.s.nempty == 0
    ensures Allocation(st, a, b, ask, trail, gone, offset, granted, ask.seen)
  {
  }

  /** Each eviction takes one product out, and a success puts one in. */
  lemma AllocationCount(st: Status, a: Moment, b: Moment, ask: Ask, trail: seq<Moment>, gone: seq<int>, offset: int,
                        granted: int, noted: int)
    requires Allocation(st, a, b, ask, trail, gone, offset, granted, noted) && st != Dup && Agree(a.x)
    ensures |trail| == |gone| + 1 && |b.x.used| + |gone| == |a.x.used| + if st == Success then 1 else 0
    ensures b.x.sigs.Keys <= a.x.sigs.Keys + {ask.sig}
    ensures st == Denied ==> AllBusy(b.x, |b.x.times|, ask.busy)
    ensures st == NoMemory ==> ask.need > ask.size && b.x.used == {}
    ensures st == Success ==> ask.need <= granted && InUse(b.s.m, offset, granted)
    ensures st in {Success, Denied, NoMemory}
  {
    hide Agree, Open, Shrunk;
    EvictionsCount(trail, gone, ask.busy, |gone|);
    EvictionsSigs(trail, gone, ask.busy, |gone|);
  }

  lemma {:induction false} EvictionsCount(trail: seq<Moment>, gone: seq<int>, busy: set<int>, i: nat)
    requires Evictions(trail, gone, busy) && Agree(trail[0].x) && i < |trail|
    ensures Agree(trail[i].x) && |trail[i].x.used| + i == |trail[0].x.used|
    decreases i
  {
    hide Agree, EvictionStep;
    if i > 0 {
      EvictionsCount(trail, gone, busy, i - 1);
      StepCount(trail[i - 1], busy, gone[i - 1], trail[i - 1 + 1]);
    }
  }

  lemma StepCount(a: Moment, busy: set<int>, o: int, b: Moment)
    requires EvictionStep(a, busy, o, b) && Agree(a.x)
    ensures Agree(b.x) && |b.x.used| == |a.x.used| - 1
  {
    var k: nat :| FirstUnlocked(a.x, busy, k) && b.x == Evicted(a.x, k);
    EvictedAgrees(a.x, k);
  }

  lemma OutcomeNotDup(st: Status, a: Moment, b: Moment, ask: Ask, offset: int, granted: int)
    requires Outcome(st, a, b, ask, offset, granted)
    ensures st != Dup
  {
  }

  lemma SlotlessStarved(trail: seq<Moment>, n: nat, need: int)
    requires Slotless(trail, n)
    ensures Starved(trail, n, need)
  {
  }

  lemma OutcomeFailed(st: Status, a: Moment, ask: Ask, offset: int, granted: int)
    requires (st == Denied && a.x.used != {} && AllBusy(a.x, |a.x.times|, ask.busy))
             || (st == NoMemory && ask.need > ask.size && a.x.used == {})
    ensures Outcome(st, a, a, ask, offset, granted)
  {
  }

  lemma OutcomeEntered(a: Moment, b: Moment, ask: Ask, offset: int, granted: int)
    requires Agree(a.x) && ask.sig !in a.x.sigs && offset !in a.x.used && b.x == Reserved(a.x, ask.sig, offset)
    requires InUse(b.s.m, offset, granted) && ask.need <= granted <= 2 * ask.need + 64
             && SameElse(a.s.m, offset, b.s.m)
    requires b.s.untracked == a.s.untracked + granted && RL.BestFit(a.s.m, ask.need, offset)
    requires granted == if a.s.m[offset].extent - ask.need > (if ask.need < ask.seen then ask.need else ask.seen) + 64
                        then ask.need else a.s.m[offset].extent
    ensures Outcome(Success, a, b, ask, offset, granted)
  {
    ReservedAgrees(a.x, ask.sig, offset);
  }

  /** The smallest free region is larger than the slack that a request for no bytes is allowed. */
  ghost predicate Tears(m: Layout) {
    exists o :: RL.BestFit(m, 0, o) && 64 < m[o].extent
  }

  lemma FetchedFacts(a: Moment, need: int, o: int, x: int, b: Moment)
    requires Fetched(a, need, o, x, b) && a.s.held == {}
    ensures RL.HeldAt(b.s.m, o, x) && NoFreeAfter(b.s.m, o) && need <= b.s.m[o].extent && b.s.held == {o}
    ensures b.x == a.x && b.s.nempty == a.s.nempty && b.s.untracked == a.s.untracked && b.s.room >= a.s.room
            && SameElse(a.s.m, o, b.s.m)
    ensures RL.BestFit(a.s.m, need, o) && a.s.m[o].extent == b.s.m[o].extent
    ensures need == 0 ==> (64 < b.s.m[o].extent <==> Tears(a.s.m))
  {
  }

  /** Apart from the one at `o`, the same regions are taken. */
  ghost predicate SameElse(m: Layout, o: int, m': Layout) {
    && (forall p :: p in m && m[p].kind != Free && p != o ==> p in m' && m'[p] == m[p])
    && (forall p :: p in m' && m'[p].kind != Free && p != o ==> p in m && m[p] == m'[p])
  }

  lemma SameElseSame(m: Layout, o: int)
    ensures SameElse(m, o, m)
  {
  }

  lemma SameElseTrans(m: Layout, o: int, m1: Layout, m2: Layout)
    requires SameElse(m, o, m1) && SameElse(m1, o, m2)
    ensures SameElse(m, o, m2)
  {
  }

  ghost predicate InUse(m: Layout, o: int, extent: int) {
    o in m && m[o].kind == Used && m[o].extent == extent
  }

  lemma ShrunkFrom(s: Space, s1: Space, gone: set<int>, n: nat, s': Space)
    requires s1 == s.(room := s1.room) && s1.room >= s.room && Shrunk(s1, gone, n, s')
    ensures Shrunk(s, gone, n, s')
  {
  }

  ghost predicate WasEvicted(x: Ix, k: int, x': Ix) {
    0 <= k < |x.times| && x.times[k].offset in x.owner && x' == Evicted(x, k)
  }

  lemma Recounted(where: map<int, int>, o: int, x: int)
    requires o !in where
    ensures |where[o := x]| == |where| + 1 && where[o := x].Keys == where.Keys + {o}
  {
    assert where[o := x].Keys == where.Keys + {o};
  }

  lemma Uncounted(where: map<int, int>, o: int)
    requires o in where
    ensures |where - {o}| == |where| - 1 && (where - {o}).Keys == where.Keys - {o}
  {
    assert (where - {o}).Keys == where.Keys - {o};
  }
}
