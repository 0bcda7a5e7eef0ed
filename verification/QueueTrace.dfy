/**
 What can be read off the trace of a run: where the products in the queue come from, and where they went.
 */
module QueueTraces {
  import opened FreeBlocks
  import opened Timestamps
  import opened IndexStates
  import opened QueueIndexManagers
  import opened ProductQueues
  import opened QueueEntries
  import opened QueueCursors
  import opened QueueRuns
  import RL = RegionLists
  import RT = RegionTables
  import TQ = TimeQueues

  // ---------------------------------------------------------------------
  // Evictions
  // ---------------------------------------------------------------------

  lemma EvictedKeeps(x: Ix, k: nat, t: TQ.Entry)
    requires k < |x.times| && x.times[k].offset in x.owner
    ensures t in Evicted(x, k).times ==> t in x.times
    ensures t in x.times && t.offset != x.times[k].offset ==> t in Evicted(x, k).times
  {
    var r := Evicted(x, k).times;
    if t in x.times && t.offset != x.times[k].offset {
      var i :| 0 <= i < |x.times| && x.times[i] == t;
      assert r[if i < k then i else i - 1] == t;
    }
  }

  lemma StepHolds(a: Moment, busy: set<int>, o: int, b: Moment, t: TQ.Entry)
    requires EvictionStep(a, busy, o, b)
    ensures t in b.x.times ==> t in a.x.times
    ensures t in a.x.times && t.offset != o ==> t in b.x.times
  {
    var k: nat :| FirstUnlocked(a.x, busy, k) && a.x.times[k].offset == o && b.x == Evicted(a.x, k);
    EvictedKeeps(a.x, k, t);
  }

  /** A product stays unless it is evicted, and evictions bring none in. */
  lemma {:induction false} EvictionsHold(trail: seq<Moment>, gone: seq<int>, busy: set<int>, i: nat, t: TQ.Entry)
    requires Evictions(trail, gone, busy) && i < |trail|
    ensures t in trail[i].x.times ==> t in trail[0].x.times
    ensures t in trail[0].x.times && t.offset !in gone ==> t in trail[i].x.times
    decreases i
  {
    hide EvictionStep;
    if i > 0 {
      EvictionsHold(trail, gone, busy, i - 1, t);
      assert EvictionStep(trail[i - 1], busy, gone[i - 1], trail[i - 1 + 1]);
      StepHolds(trail[i - 1], busy, gone[i - 1], trail[i], t);
    }
  }

  lemma BookingHolds(st: Status, a: Moment, ask: Ask, r: Receipt, noted: int, t: TQ.Entry)
    requires Booking(st, a, ask, r, noted)
    ensures t in r.mid.x.times ==> t in a.x.times
    ensures t in a.x.times && t !in r.mid.x.times ==> t.offset in r.gone
  {
    if st != Dup {
      StoryUnfolds(r.trail, r.gone, ask.busy, a, r.trail[|r.gone|]);
      EvictionsHold(r.trail, r.gone, ask.busy, |r.gone|, t);
    }
  }

  // ---------------------------------------------------------------------
  // One operation
  // ---------------------------------------------------------------------

  /** The operation commits the product that becomes `t`: its entry is live and its header can be read. */
  ghost predicate Enters(op: Op, w: World, e: Effect, t: TQ.Entry) {
    && op.Commit? && Live(w, op.i) && w.cards[op.i].offset in w.at.x.disk && op.fits
    && e.Timed? && t == TQ.Entry(e.t, w.cards[op.i].offset)
  }

  /** The operation takes `t` out: a reservation evicts it, or it is deleted by signature or by the reader. */
  ghost predicate Removes(op: Op, w: World, e: Effect, t: TQ.Entry) {
    match op
    case Reserve(_, _, _, _) => e.Booked? && t.offset in e.r.gone
    case ReserveDirect(_, _, _) => e.Booked? && t.offset in e.r.gone
    case Delete(sig, _, _) =>
      e.Dropped? && e.st == Success && sig in w.at.x.sigs && w.at.x.sigs[sig] == t.offset
    case DeleteNext(_, _, _) =>
      e.Sought? && e.reply == Satisfied && 0 < e.j <= |w.at.x.times| && w.at.x.times[e.j - 1].offset == t.offset
    case _ => false
  }

  /** A product is new after an operation if and only if it was committed; it goes only if it is removed. */
  lemma InOrOut(op: Op, w: World, e: Effect, w': World, align: Unit, size: int, t: TQ.Entry)
    requires Transition(op, w, e, w', align, size)
    ensures t in w'.at.x.times && t !in w.at.x.times <==> Enters(op, w, e, t)
    ensures t in w.at.x.times && t !in w'.at.x.times ==> Removes(op, w, e, t)
  {
    hide Booking, RoundUp, LookUp, TQ.LeastUnused;
    match op
    case Reserve(info, sz, headerSize, busy) =>
      if 0 < sz <= size {
        var ask := Ask(info.signature, RoundUp(headerSize + sz, align), w.seen, size, busy);
        BookingHolds(e.st, w.at, ask, e.r, w'.seen, t);
      }
    case ReserveDirect(sz, sig, busy) =>
      if sz <= size { BookingHolds(e.st, w.at, Ask(sig, RoundUp(sz, align), w.seen, size, busy), e.r, w'.seen, t); }
    case Commit(i, now, fits) =>
      if Live(w, i) && w.cards[i].offset in w.at.x.disk && fits {
        CommittedHolds(w.at.x, e.k, e.t, w.cards[i].offset, t);
        LeastIsNew(w.at.x.times, now, e.t, t);
      }
    case Delete(sig, interval, busy) =>
      if e.st == Success { EvictedKeeps(w.at.x, e.i, t); }
    case DeleteNext(mt, wants, busy) =>
      if !(mt == TQ.Equal && w.cursor == ENDT) && e.reply == Satisfied { EvictedKeeps(w.at.x, e.j - 1, t); }
    case _ =>
  }

  lemma LeastIsNew(times: seq<TQ.Entry>, now: Timestamp, at: Timestamp, t: TQ.Entry)
    requires TQ.LeastUnused(times, now, at)
    ensures t in times ==> t.tv != at
  {
  }

  lemma CommittedHolds(x: Ix, k: nat, at: Timestamp, o: int, t: TQ.Entry)
    requires k <= |x.times|
    ensures t in Committed(x, k, at, o).times <==> t in x.times || t == TQ.Entry(at, o)
  {
    var r := Committed(x, k, at, o).times;
    assert r[k] == TQ.Entry(at, o);
    if t in x.times {
      var i :| 0 <= i < |x.times| && x.times[i] == t;
      assert r[if i < k then i else i + 1] == t;
    }
    if t in r {
      var i :| 0 <= i < |r| && r[i] == t;
      assert i != k ==> x.times[if i < k then i else i - 1] == t;
    }
  }

  // ---------------------------------------------------------------------
  // Whole runs
  // ---------------------------------------------------------------------

  /** Every product in a queue that was new at the start was committed by some operation of the run. */
  lemma {:induction false} NothingFromNowhere(ops: seq<Op>, worlds: seq<World>, effects: seq<Effect>, align: Unit,
                                              size: int, n: nat, t: TQ.Entry)
    requires Trace(ops, worlds, effects, align, size) && Untouched(worlds[0]) && n < |worlds|
             && t in worlds[n].at.x.times
    ensures exists j :: 0 <= j < n && Enters(ops[j], worlds[j], effects[j], t)
    decreases n
  {
    hide Transition, Enters;
    assert n > 0;
    InOrOut(ops[n - 1], worlds[n - 1], effects[n - 1], worlds[n - 1 + 1], align, size, t);
    if t in worlds[n - 1].at.x.times {
      NothingFromNowhere(ops, worlds, effects, align, size, n - 1, t);
      var j :| 0 <= j < n - 1 && Enters(ops[j], worlds[j], effects[j], t);
      assert 0 <= j < n;
    }
  }

  /** A product that is not in the queue any more was evicted or deleted by some operation of the run. */
  lemma {:induction false} NothingLost(ops: seq<Op>, worlds: seq<World>, effects: seq<Effect>, align: Unit, size: int,
                                       m: nat, n: nat, t: TQ.Entry)
    requires Trace(ops, worlds, effects, align, size) && m <= n < |worlds|
    requires t in worlds[m].at.x.times && t !in worlds[n].at.x.times
    ensures exists j :: m <= j < n && Removes(ops[j], worlds[j], effects[j], t)
    decreases n
  {
    hide Transition, Removes;
    assert m < n;
    InOrOut(ops[n - 1], worlds[n - 1], effects[n - 1], worlds[n - 1 + 1], align, size, t);
    if t !in worlds[n - 1].at.x.times {
      NothingLost(ops, worlds, effects, align, size, m, n - 1, t);
      var j :| m <= j < n - 1 && Removes(ops[j], worlds[j], effects[j], t);
      assert m <= j < n;
    }
  }

  // ---------------------------------------------------------------------
  // A whole run, from nothing
  // ---------------------------------------------------------------------

  lemma NothingToEvict(trail: seq<Moment>, gone: seq<int>, busy: set<int>)
    requires Evictions(trail, gone, busy)
    ensures gone == [] || trail[0].x.times != []
  {
    if gone != [] { assert EvictionStep(trail[0], busy, gone[0], trail[0 + 1]); }
  }

  /** An empty queue has nothing to evict, so a request that fits succeeds at once. */
  lemma FirstBooking(st: Status, a: Moment, ask: Ask, r: Receipt, noted: int)
    requires Booking(st, a, ask, r, noted) && a.x == Ix(map[], {}, [], map[], map[]) && ask.need <= ask.size
    ensures st == Success && r.mid.x == Reserved(a.x, ask.sig, r.offset)
  {
    hide Open, SameElse, RL.BestFit;
    NothingToEvict(r.trail, r.gone, ask.busy);
  }

  lemma FirstUnused(r: seq<TQ.Entry>, now: Timestamp, t: Timestamp)
    requires r == [] && TQ.LeastUnused(r, now, t) && now.Normal()
    ensures t == now
  {
    assert !now.Less(now) && !now.Less(t);
  }

  lemma FirstRun(worlds: seq<World>, effects: seq<Effect>, align: Unit, size: int, info: Header, sz: nat,
                 headerSize: nat, now: Timestamp) returns (o: int)
    requires Trace([Reserve(info, sz, headerSize, {}), Commit(0, now, true)], worlds, effects, align, size)
    requires |effects| == 2 && Untouched(worlds[0]) && now.Normal()
    requires 0 < sz <= size && RoundUp(headerSize + sz, align) <= size
    ensures worlds[2].at.x == Ix(map[info.signature := o], {o}, [TQ.Entry(now, o)], map[o := info.signature],
                                 map[o := info])
    ensures worlds[2].settled == [0] && worlds[2].next == 1 && Agree(worlds[2].at.x)
  {
    hide RoundUp, Booking, TQ.LeastUnused;
    var ops := [Reserve(info, sz, headerSize, {}), Commit(0, now, true)];
    assert Transition(ops[0], worlds[0], effects[0], worlds[0 + 1], align, size);
    assert Transition(ops[1], worlds[1], effects[1], worlds[1 + 1], align, size);
    var ask := Ask(info.signature, RoundUp(headerSize + sz, align), worlds[0].seen, size, {});
    FirstBooking(effects[0].st, worlds[0].at, ask, effects[0].r, worlds[1].seen);
    o := effects[0].r.offset;
    FirstUnused(worlds[1].at.x.times, now, effects[1].t);
  }

  /** A new queue, one product reserved and committed: it is in the queue, at the time of the commit. */
  method FirstProduct(n: nat, levels: nat, overflow: int, slack: int, rlChains: nat, sxChains: nat, start: int,
                      end: int, alignment: Unit, info: Header, sz: nat, headerSize: nat, now: Timestamp)
    returns (s: Session, ok: bool, ghost o: int)
    requires 4 <= n && 2 <= levels < FB_MAX_LEVELS && 22 <= overflow && 0 <= slack < levels && 0 < rlChains
             && 0 < sxChains
    requires 0 < start < end < RT.HUGE_OFF && (end - start) % 2 == 0
    requires 0 < sz && 0 < headerSize && RoundUp(headerSize + sz, alignment) <= end - start
    requires !ENDT.Less(info.arrival) && now.Normal() && !now.Less(ZERO) && now.Micros() + n < ENDT.Micros()
    ensures ok && s.Valid() && s.View().at.x.times == [TQ.Entry(now, o)]
    ensures s.View().at.x.sigs == map[info.signature := o] && s.View().at.x.disk == map[o := info]
    ensures s.View().settled == [0] && s.View().next == 1
  {
    hide Session.Valid, Session.Crew, Session.View, Session.Enduring, ProductQueue.Slack, Agree, Pow2, RoundUp;
    var ops := [Reserve(info, sz, headerSize, {}), Commit(0, now, true)];
    var k;
    ghost var worlds, effects;
    s, ok, k, worlds, effects := NewQueueRun(n, levels, overflow, slack, rlChains, sxChains, start, end, alignment,
                                             ops);
    o := FirstRun(worlds, effects, alignment, end - start, info, sz, headerSize, now);
    s.Seen();
  }
}
