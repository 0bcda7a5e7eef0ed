/**
 The product queue (storage/pq/ProductQueue.cpp, QueueEntry.cpp, QueueMetrics.h):
 products are reserved, written, committed or rolled back, and deleted.  The
 control lock makes each operation one step.
 */
module ProductQueues {
  import opened SkipTheory
  import opened FreeBlocks
  import opened Timestamps
  import opened Layouts
  import opened IndexStates
  import opened QueueIndexManagers
  import RT = RegionTables
  import RL = RegionLists
  import TQ = TimeQueues
  import SX = SignatureIndexes

  // ---------------------------------------------------------------------
  // Accounting
  // ---------------------------------------------------------------------

  /** No region in use ends above the high-water mark. */
  ghost predicate Tracked(m: Layout, lo: int, highwater: int) {
    forall o :: o in m && m[o].kind == Used ==> o + m[o].extent - lo <= highwater
  }

  /** All bytes in use are counted, the marks are not exceeded, and `open` counts the reserved regions. */
  ghost predicate Booked(a: Moment, lo: int, highwater: int, maxproducts: int, open: int) {
    && a.s.untracked == 0 && Tracked(a.s.m, lo, highwater)
    && |a.x.used| <= maxproducts && open == |Open(a.x)|
  }

  /** Creation times are not past the end of time. */
  ghost predicate Timely(disk: map<int, Header>) {
    forall o :: o in disk ==> !ENDT.Less(disk[o].arrival)
  }

  // ---------------------------------------------------------------------
  // What evictions keep
  // ---------------------------------------------------------------------

  lemma {:induction false} EvictionsKeep(trail: seq<Moment>, gone: seq<int>, busy: set<int>, i: nat)
    requires Evictions(trail, gone, busy) && i < |trail| && Agree(trail[0].x)
    ensures Agree(trail[i].x) && LeasesKept(trail[0].x, trail[i].x) && Open(trail[i].x) == Open(trail[0].x)
    ensures trail[i].x.used <= trail[0].x.used && trail[i].x.disk == trail[0].x.disk
    decreases i
  {
    if i > 0 {
      EvictionsKeep(trail, gone, busy, i - 1);
      var a, b := trail[i - 1], trail[i - 1 + 1];
      assert EvictionStep(a, busy, gone[i - 1], b);
      var k: nat :| FirstUnlocked(a.x, busy, k) && a.x.times[k].offset == gone[i - 1] && b.x == Evicted(a.x, k);
      EvictedAgrees(a.x, k);
      EvictedLeases(a.x, k);
    }
  }

  lemma ShrunkTracked(a: Space, gone: set<int>, n: nat, b: Space, lo: int, highwater: int)
    requires Shrunk(a, gone, n, b) && Tracked(a.m, lo, highwater)
    ensures Tracked(b.m, lo, highwater)
  {
  }

  lemma Smaller(a: set<int>, b: set<int>)
    requires a <= b
    ensures |a| <= |b|
  {
    assert a + (b - a) == b;
  }

  /** What an allocation leaves behind. */
  ghost predicate AllocationKeeps(st: Status, a: Moment, b: Moment, sig: SX.Signature, offset: int, lo: int,
                                  highwater: int) {
    && LeasesKept(a.x, b.x) && b.x.disk == a.x.disk
    && (if st == Success then
          && offset !in Open(a.x) && Lease(b.x, offset, sig) && Open(b.x) == Open(a.x) + {offset}
          && forall o :: o in b.s.m && b.s.m[o].kind == Used && o != offset ==> o + b.s.m[o].extent - lo <= highwater
        else
          && Open(b.x) == Open(a.x) && Tracked(b.s.m, lo, highwater) && b.s.untracked == a.s.untracked
          && |b.x.used| <= |a.x.used|)
  }

  lemma AllocationKept(st: Status, a: Moment, b: Moment, ask: Ask, trail: seq<Moment>, gone: seq<int>, offset: int,
                       granted: int, noted: int, lo: int, highwater: int)
    requires Allocation(st, a, b, ask, trail, gone, offset, granted, noted) && Agree(a.x)
             && Tracked(a.s.m, lo, highwater)
    ensures AllocationKeeps(st, a, b, ask.sig, offset, lo, highwater)
    ensures st == Success ==> b.s.untracked == a.s.untracked + granted && InUse(b.s.m, offset, granted)
  {
    hide Agree, LeasesKept, Open, Evicted, Shrunk;
    if st == Dup {
      KeptSelf(a.x);
    } else {
      StoryUnfolds(trail, gone, ask.busy, a, trail[|gone|]);
      EvictionsKeep(trail, gone, ask.busy, |gone|);
      EvictionsShrink(trail, gone, ask.busy);
      var c := trail[|gone|];
      ShrunkTracked(a.s, Elements(gone), |gone|, c.s, lo, highwater);
      if st == Success {
        AllocationEntered(c, b, a.x, ask, offset, granted, lo, highwater);
      } else {
        ShrunkHeld(a.s, Elements(gone), |gone|, c.s);
        Smaller(c.x.used, a.x.used);
      }
    }
  }

  lemma KeptSelf(x: Ix)
    ensures LeasesKept(x, x)
  {
  }

  lemma StoryUnfolds(trail: seq<Moment>, gone: seq<int>, busy: set<int>, a: Moment, b: Moment)
    requires Story(trail, gone, busy, a, b)
    ensures Evictions(trail, gone, busy) && |trail| == |gone| + 1 && trail[0] == a && trail[|gone|] == b
  {
  }

  lemma AllocationEntered(c: Moment, b: Moment, x0: Ix, ask: Ask, offset: int, granted: int, lo: int, highwater: int)
    requires Outcome(Success, c, b, ask, offset, granted) && Agree(c.x)
             && Tracked(c.s.m, lo, highwater)
    requires LeasesKept(x0, c.x) && Open(c.x) == Open(x0)
    ensures LeasesKept(x0, b.x) && b.x.disk == c.x.disk && offset !in Open(x0) && Lease(b.x, offset, ask.sig)
            && Open(b.x) == Open(x0) + {offset}
    ensures forall o :: o in b.s.m && b.s.m[o].kind == Used && o != offset ==> o + b.s.m[o].extent - lo <= highwater
  {
    ReservedLeases(c.x, ask.sig, offset);
    forall o, s | Lease(x0, o, s) ensures Lease(b.x, o, s) {
      assert Lease(c.x, o, s);
    }
  }

  // ---------------------------------------------------------------------
  // The queue
  // ---------------------------------------------------------------------

  class ProductQueue {
    const ix: QueueIndexManager
    const datao: int
    const dataSize: int
    var highwater: int
    var maxproducts: int
    var pqeCount: int

    ghost predicate Valid()
      reads this, ix, ix.Parts(), ix.rl.fb, ix.rl.fb.nfree, ix.rl.fb.free, ix.rl.fb.fblks, ix.tq.fb, ix.tq.fb.nfree,
            ix.tq.fb.free, ix.tq.fb.fblks
    {
      && ix.Valid() && datao == ix.rl.lo && dataSize == ix.rl.hi - ix.rl.lo
      && Booked(ix.Now(), ix.rl.lo, highwater, maxproducts, pqeCount) && Timely(ix.disk)
    }

    /** An empty queue. */
    constructor (n: nat, levels: nat, overflow: int, slack: int, rlChains: nat, sxChains: nat, start: int, end: int,
                 alignment: Unit, ghost limit: int)
      requires 4 <= n && 2 <= levels < FB_MAX_LEVELS && 6 <= overflow && 0 <= slack < levels && 0 < rlChains
               && 0 < sxChains
      requires 0 < start < end < RT.HUGE_OFF && (end - start) % 2 == 0
      requires 0 <= limit ==> 8 <= limit && overflow >= limit * Pow2(levels - 1)
      ensures Valid() && ix.State() == Ix(map[], {}, [], map[], map[]) && fresh(ix) && fresh(ix.Parts())
      ensures ix.rl.lo == start && ix.rl.hi == end && ix.rl.nalloc == n && ix.fb.cap == limit && ix.align == alignment
              && datao == start && dataSize == end - start && ix.smallestExtentSeen == SIZE_MAX && !ix.isFull
      ensures ix.fb.Room() >= if limit < 0 then overflow - 6 else limit - 8
    {
      hide QueueIndexManager.Sound, QueueIndexManager.Times, SX.SignatureIndex.Map, Agree;
      var mgr := QueueIndexManager.FormatNew(n, levels, overflow, slack, rlChains, sxChains, start, end, alignment,
                                             limit);
      EmptyBooked(mgr.Now(), start);
      ix, datao, dataSize, highwater, maxproducts, pqeCount := mgr, start, end - start, 0, 0, 0;
    }

    /** What the node arena can still give when four blocks are set aside for each product. */
    ghost function Slack(): int
      reads ix, ix.rl, ix.tq, ix.tq.tqep, ix.sx, ix.sx.sxep, ix.fb, ix.fb.nfree
    {
      ix.fb.Room() - 4 * |ix.State().used|
    }

    /** Reserve a region for a product, and keep the books. */
    method Reserve(extent: int, sig: SX.Signature, busy: set<int>)
      returns (st: Status, ok: bool, torn: bool, offset: int, granted: int,
               ghost mid: Moment, ghost trail: seq<Moment>, ghost gone: seq<int>)
      requires Valid() && 0 <= extent
      modifies this, ix, ix.Parts()
      ensures ok ==>
                && Valid() && ix.State() == mid.x && ix.rl.m == mid.s.m
                && Allocation(st, old(ix.Now()), mid,
                              Ask(sig, RoundUp(extent, ix.align), old(ix.smallestExtentSeen), dataSize, busy),
                              trail, gone, offset, granted, ix.smallestExtentSeen)
                && AllocationKeeps(st, old(ix.Now()), mid, sig, offset, ix.rl.lo, old(highwater))
                && ix.fb.Room() >= old(ix.fb.Room()) - 4 * |gone| - 2
                && |ix.State().used| + |gone| == |old(ix.State()).used| + (if st == Success then 1 else 0)
                && ix.State().sigs.Keys <= old(ix.State()).sigs.Keys + {sig}
      ensures ok && busy == {} && Open(old(ix.State())) == {} && sig !in old(ix.State()).sigs ==>
                && (st == Success <==> RoundUp(extent, ix.align) <= dataSize)
                && (st != Success ==> st == NoMemory && ix.State().used == {})
      ensures sig in old(ix.State()).sigs ==> st == Dup && ok
      ensures ok ==> (ix.isFull <==> old(ix.isFull) || gone != [])
      ensures torn ==> !ok && |trail| == |gone| + 1 && Story(trail, gone, busy, old(ix.Now()), trail[|gone|])
      ensures (ok || torn) && sig !in old(ix.State()).sigs ==>
                && |trail| == |gone| + 1
                && (torn <==> st == Success && extent == 0 && Tears(trail[|gone|].s.m))
      ensures extent == 0 && sig !in old(ix.State()).sigs && old(ix.rl.nempty) > 0 && !RL.NoneFits(old(ix.rl.m), 0) ==>
                (torn <==> Tears(old(ix.rl.m)))
      ensures old(ix.fb.Room()) >= 4 * |old(ix.State()).used| + 2 && !torn ==> ok
    {
      hide QueueIndexManager.State, QueueIndexManager.Parts, QueueIndexManager.Steady, Allocation, AllocationKeeps;
      hide RoundUp, Open, Tracked, Timely, Tears, Story, RL.NoneFits, FreeBlock.Books, FreeBlock.Room;
      Apart();
      ghost var a := ix.Now();
      ghost var ask := Ask(sig, RoundUp(extent, ix.align), ix.smallestExtentSeen, dataSize, busy);
      ix.SteadyFacts();
      ix.StateDisk();
      st, ok, torn, offset, granted, trail, gone := ix.AllocateProductSpace(extent, sig, busy);
      mid := ix.Now();
      if !ok { return; }
      ix.StateDisk();
      AllocationKept(st, a, mid, ask, trail, gone, offset, granted, ix.smallestExtentSeen, ix.rl.lo, highwater);
      if st == Success {
        TrackAllocation(offset, granted, a, mid, sig);
      } else {
        NotTracked(st, a, mid, sig, offset, ix.rl.lo, highwater, maxproducts, pqeCount);
      }
    }

    lemma Apart()
      ensures this !in ix.Parts() && ix !in ix.Parts()
    {
    }

    /** Count a new region: its bytes, the high-water mark, the largest number of products, and the open entry. */
    method TrackAllocation(offset: int, granted: int, ghost a: Moment, ghost b: Moment, ghost sig: SX.Signature)
      requires ix.Valid() && datao == ix.rl.lo && dataSize == ix.rl.hi - ix.rl.lo && Timely(ix.disk) && ix.Now() == b
      requires Booked(a, ix.rl.lo, highwater, maxproducts, pqeCount)
               && AllocationKeeps(Success, a, b, sig, offset, ix.rl.lo, highwater)
      requires b.s.untracked == granted && InUse(b.s.m, offset, granted)
      modifies this, ix.Parts()
      ensures Valid() && ix.State() == b.x && ix.rl.m == b.s.m && ix.fb.Room() == old(ix.fb.Room())
      ensures highwater == if offset + granted - datao > old(highwater) then offset + granted - datao
              else old(highwater)
      ensures maxproducts == if |b.x.used| > old(maxproducts) then |b.x.used| else old(maxproducts)
      ensures pqeCount == old(pqeCount) + 1 && ix.rl.nbytes == old(ix.rl.nbytes) + granted
      ensures ix.rl.maxbytes == if ix.rl.nbytes > old(ix.rl.maxbytes) then ix.rl.nbytes else old(ix.rl.maxbytes)
    {
      hide QueueIndexManager.State, QueueIndexManager.Parts, QueueIndexManager.Steady, Open;
      Apart();
      ix.SteadyFacts();
      BookedEntered(a, b, sig, offset, granted, ix.rl.lo, highwater, maxproducts, pqeCount);
      var end := offset + granted - datao;
      if end > highwater { highwater := end; }
      if ix.rl.nelems > maxproducts { maxproducts := ix.rl.nelems; }
      pqeCount := pqeCount + 1;
      ix.CountBytes(granted);
    }

    /**
     The product of a reserved region is complete: give it its time, or give the region back.  The signature in the
     header is not looked at, so the indexes agree afterwards only if it is the reserved one.
     */
    method CommitEntry(offset: int, sig: SX.Signature, now: Timestamp, fits: bool)
      returns (st: Status, ok: bool, t: Timestamp, ghost k: nat)
      requires Valid() && Lease(ix.State(), offset, sig)
      requires now.Normal() && !now.Less(ZERO) && now.Micros() + ix.rl.nalloc < ENDT.Micros()
      modifies this, ix`owner, ix.Parts()
      ensures st == if offset !in old(ix.disk) then Corrupt else if !fits then Big else Success
      ensures ok ==> (Valid() <==> st != Success || HeaderFits(old(ix.State()), offset))
      ensures ok ==>
                LeasesKeptBut(old(ix.State()), offset, ix.State())
                && Open(ix.State()) == Open(old(ix.State())) - {offset}
      ensures ok ==> ix.fb.Room() >= old(ix.fb.Room()) - 4
      ensures ok && st == Success ==>
                WasCommitted(old(ix.State()), k, t, offset, ix.State())
                && TQ.LeastUnused(old(ix.State()).times, now, t)
      ensures ok && st != Success ==> WasForgotten(old(ix.State()), offset, ix.State())
      ensures old(ix.fb.Room()) > 3 ==> ok
    {
      hide QueueIndexManager.State, QueueIndexManager.Steady, Open, LeasesKeptBut, WasCommitted, WasForgotten;
      hide TQ.LeastUnused;
      hide HeaderFits;
      t, k := NONE, 0;
      ix.StateDisk();
      if offset !in ix.disk {
        st := Corrupt;
      } else if !fits {
        st := Big;
      } else {
        st := Success;
        ok, t, k := Finish(offset, sig, now);
        return;
      }
      ok := RollbackEntry(offset, sig);
    }

    method Finish(offset: int, sig: SX.Signature, now: Timestamp) returns (ok: bool, t: Timestamp, ghost k: nat)
      requires Valid() && Lease(ix.State(), offset, sig) && offset in ix.disk
      requires now.Normal() && !now.Less(ZERO) && now.Micros() + ix.rl.nalloc < ENDT.Micros()
      modifies this, ix`owner, ix.Parts()
      ensures ok ==> (Valid() <==> HeaderFits(old(ix.State()), offset)) && ix.fb.Room() >= old(ix.fb.Room()) - 1
      ensures ok ==>
                && LeasesKeptBut(old(ix.State()), offset, ix.State())
                && Open(ix.State()) == Open(old(ix.State())) - {offset}
                && WasCommitted(old(ix.State()), k, t, offset, ix.State())
                && TQ.LeastUnused(old(ix.State()).times, now, t)
      ensures old(ix.fb.Room()) > 0 ==> ok
    {
      hide QueueIndexManager.State, QueueIndexManager.Parts, QueueIndexManager.Steady, Open, TQ.LeastUnused, HeaderFits;
      Apart();
      ix.StateDisk();
      ghost var a := ix.Now();
      ghost var gap := GapNow(now);
      ok, t, k := ix.CommitTime(offset, now, gap);
      if !ok { return; }
      ix.StateDisk();
      CommittedLeases(a.x, k, t, offset);
      BookedClosed(a, ix.Now(), offset, ix.rl.lo, highwater, maxproducts, pqeCount);
      pqeCount := pqeCount - 1;
    }

    lemma GapNow(now: Timestamp) returns (gap: Timestamp)
      requires ix.Valid() && now.Normal() && now.Micros() + ix.rl.nalloc < ENDT.Micros()
      ensures TQ.Unused(ix.State().times, now, gap)
    {
      hide QueueIndexManager.State, QueueIndexManager.Steady;
      ix.TimesBelowEnd();
      ix.TimesBound();
      gap := Gap(ix.State().times, now);
    }

    /** Give back a region whose product was not committed. */
    method RollbackEntry(offset: int, sig: SX.Signature) returns (ok: bool)
      requires Valid() && Lease(ix.State(), offset, sig)
      modifies this, ix`owner, ix.Parts()
      ensures ok ==>
                && Valid() && LeasesKeptBut(old(ix.State()), offset, ix.State())
                && Open(ix.State()) == Open(old(ix.State())) - {offset}
                && WasForgotten(old(ix.State()), offset, ix.State()) && ix.fb.Room() >= old(ix.fb.Room()) - 4
      ensures old(ix.fb.Room()) > 3 ==> ok
    {
      hide QueueIndexManager.State, QueueIndexManager.Parts, QueueIndexManager.Steady, Open, Shrunk;
      Apart();
      ix.StateDisk();
      ix.SteadyFacts();
      ghost var a := ix.Now();
      LeaseUsed(a.x, offset, sig);
      var st;
      st, ok := ix.FreeByOffset(offset, sig);
      if !ok { return; }
      FreedExactly(a.x, offset, sig);
      ForgottenAgrees(a.x, offset);
      ix.StateDisk();
      ForgottenLeases(a.x, offset);
      ShrunkTracked(a.s, {offset}, 1, ix.Room(), ix.rl.lo, highwater);
      ShrunkHeld(a.s, {offset}, 1, ix.Room());
      Smaller(ix.State().used, a.x.used);
      BookedClosed(a, ix.Now(), offset, ix.rl.lo, highwater, maxproducts, pqeCount);
      pqeCount := pqeCount - 1;
    }

    /** Write the header of a reserved region. */
    method WriteHeader(offset: int, b: Bytes)
      requires Valid() && offset in Open(ix.State()) && (b.Encoded? ==> !ENDT.Less(b.header.arrival))
      modifies ix`disk
      ensures Valid() && ix.State() == old(ix.State()).(disk := Stored(old(ix.State()).disk, offset, b))
              && ix.Room() == old(ix.Room())
      ensures LeasesKept(old(ix.State()), ix.State()) && Open(ix.State()) == Open(old(ix.State()))
    {
      hide QueueIndexManager.State, QueueIndexManager.Parts, QueueIndexManager.Steady, LeasesKept, Open;
      Apart();
      ix.StateDisk();
      ix.SteadyFacts();
      WrittenAgrees(ix.State(), offset, b);
      ix.WriteHeader(offset, b);
      ix.StateDisk();
    }

    /** Delete the product of a time-queue element, unless its region is locked. */
    method DeleteProduct(x: int, busy: set<int>, ghost j: nat, ghost o: int) returns (st: Status, ok: bool)
      requires Valid() && ix.At(x, j, o)
      modifies this, ix`owner, ix.Parts()
      ensures st == Success || (st == Denied && o in busy)
      ensures st == Denied ==> ok && Valid() && ix.Now() == old(ix.Now())
      ensures st == Success && ok ==>
                Valid() && WasEvicted(old(ix.State()), j - 1, ix.State())
                && LeasesKept(old(ix.State()), ix.State())
      ensures ok ==> ix.fb.Room() >= old(ix.fb.Room()) - 4
      ensures old(ix.fb.Room()) > 3 ==> ok
    {
      hide QueueIndexManager.State, QueueIndexManager.Steady, QueueIndexManager.At, Open, WasEvicted, LeasesKept;
      hide Booked;
      ok := true;
      ix.AtFacts(x, j, o);
      var rlix := ix.FindRegion(ix.tq.tqep[x].offset);
      var sig;
      st, sig := ix.Inspect(x, rlix, busy, j, o);
      if st != Success { return; }
      ok := Erase(x, rlix, sig, j, o);
    }

    method Erase(x: int, rlix: int, sig: SX.Signature, ghost j: nat, ghost o: int) returns (ok: bool)
      requires Valid() && ix.At(x, j, o) && RL.UsedAt(ix.rl.m, o, rlix) && o in ix.owner && sig == ix.owner[o]
      modifies this, ix`owner, ix.Parts()
      ensures ok ==>
                Valid() && WasEvicted(old(ix.State()), j - 1, ix.State())
                && LeasesKept(old(ix.State()), ix.State())
      ensures ok ==> ix.fb.Room() >= old(ix.fb.Room()) - 4
      ensures old(ix.fb.Room()) > 3 ==> ok
    {
      hide QueueIndexManager.State, QueueIndexManager.Steady, QueueIndexManager.Parts, QueueIndexManager.At, Open;
      hide Shrunk, LeasesKept;
      Apart();
      ix.StateDisk();
      ix.SteadyFacts();
      ghost var a := ix.Now();
      ok := ix.DeleteAt(x, rlix, sig, j, o);
      if !ok { return; }
      ix.StateDisk();
      EvictedAgrees(a.x, j - 1);
      EvictedLeases(a.x, j - 1);
      ShrunkHeld(a.s, {o}, 1, ix.Room());
      ShrunkTracked(a.s, {o}, 1, ix.Room(), ix.rl.lo, highwater);
      Smaller(ix.State().used, a.x.used);
    }

    /** Delete a product by its signature. */
    method DeleteBySignature(sig: SX.Signature, interval: nat, busy: set<int>)
      returns (st: Status, ok: bool, ghost k: int)
      requires Valid()
      modifies this, ix`owner, ix.Parts()
      ensures ok && st != Success ==> Valid() && ix.Now() == old(ix.Now())
      ensures ok && st == Success ==>
                && Valid() && LeasesKept(old(ix.State()), ix.State()) && WasEvicted(old(ix.State()), k, ix.State())
                && sig in old(ix.State()).sigs && old(ix.State()).times[k].offset == old(ix.State()).sigs[sig]
      ensures sig !in old(ix.State()).sigs ==> st == NotFound
      ensures sig in old(ix.State()).sigs && old(ix.State()).sigs[sig] !in busy ==>
                LookUp(old(ix.State()), sig, interval, busy, st)
      ensures ok ==> ix.fb.Room() >= old(ix.fb.Room()) - 4
      ensures old(ix.fb.Room()) > 3 ==> ok
    {
      hide QueueIndexManager.State, QueueIndexManager.Steady, QueueIndexManager.At, WasEvicted, LeasesKept, Booked;
      hide LookUp;
      ok, k := true, 0;
      ghost var j, x0 := 0, ix.State();
      var x;
      st, x, j := ix.FindTimeEntryBySignature(sig, interval, busy);
      LookUpStatus(x0, sig, interval, busy, st);
      if st != Success { return; }
      ghost var o := x0.sigs[sig];
      ix.AtFacts(x, j, o);
      k := j - 1;
      st, ok := DeleteProduct(x, busy, j, o);
    }
  }

  lemma LookUpStatus(x: Ix, sig: SX.Signature, interval: nat, busy: set<int>, st: Status)
    requires LookUp(x, sig, interval, busy, st)
    ensures sig !in x.sigs ==> st == NotFound
  {
  }

  lemma ShrunkHeld(a: Space, gone: set<int>, n: nat, b: Space)
    requires Shrunk(a, gone, n, b)
    ensures b.held == a.held && b.untracked == a.untracked && b.room >= a.room - 4 * n
  {
  }

  lemma LeaseUsed(x: Ix, o: int, sig: SX.Signature)
    requires Lease(x, o, sig)
    ensures o in x.used && o in Open(x) && (Agree(x) ==> sig in x.sigs)
  {
  }

  /** One region fewer is reserved, and no more are in use. */
  lemma BookedClosed(a: Moment, b: Moment, o: int, lo: int, highwater: int, maxproducts: int, open: int)
    requires Booked(a, lo, highwater, maxproducts, open) && o in Open(a.x) && Open(b.x) == Open(a.x) - {o}
    requires b.s.untracked == 0 && Tracked(b.s.m, lo, highwater) && |b.x.used| <= |a.x.used|
    ensures Booked(b, lo, highwater, maxproducts, open - 1)
  {
  }

  /** Among more consecutive times than there are entries, one is unused. */
  lemma {:induction false} Gap(times: seq<TQ.Entry>, now: Timestamp) returns (gap: Timestamp)
    requires now.Normal() && now.Micros() + |times| < ENDT.Micros() && forall i, j :: 0 <= i < j < |times| ==>
               times[i].tv != times[j].tv
    ensures TQ.Unused(times, now, gap)
    decreases |times|
  {
    if i :| 0 <= i < |times| && times[i].tv == now {
      StepIsOne(now);
      var rest := RemoveAt(times, i);
      gap := Gap(rest, now.Increment());
      LessIsMicros(gap, now.Increment());
      LessIsMicros(gap, now);
      forall j | 0 <= j < |times| ensures times[j].tv != gap {
        if j != i { assert rest[if j < i then j else j - 1] == times[j]; }
      }
    } else {
      gap := now;
      LessIsMicros(now, ENDT);
    }
  }

  lemma EmptyBooked(a: Moment, lo: int)
    requires a.x.used == {} && a.s.untracked == 0 && forall o :: o in a.s.m ==> a.s.m[o].kind == Free
    ensures Booked(a, lo, 0, 0, 0)
  {
    assert Open(a.x) == {};
  }

  lemma NotTracked(st: Status, a: Moment, b: Moment, sig: SX.Signature, offset: int, lo: int, highwater: int,
                   maxproducts: int, open: int)
    requires Booked(a, lo, highwater, maxproducts, open) && AllocationKeeps(st, a, b, sig, offset, lo, highwater)
             && st != Success
    ensures Booked(b, lo, highwater, maxproducts, open)
  {
  }

  lemma BookedEntered(a: Moment, b: Moment, sig: SX.Signature, offset: int, granted: int, lo: int, highwater: int,
                      maxproducts: int, open: int)
    requires Booked(a, lo, highwater, maxproducts, open) && AllocationKeeps(Success, a, b, sig, offset, lo, highwater)
    requires b.s.untracked == granted && InUse(b.s.m, offset, granted)
    ensures var end := offset + granted - lo;
            Booked(b.(s := b.s.(untracked := 0)), lo, if end > highwater then end else highwater,
                   if |b.x.used| > maxproducts then |b.x.used| else maxproducts, open + 1)
  {
    assert |Open(b.x)| == |Open(a.x)| + 1;
  }
}
