/**
 Readers of a product queue (storage/pq/QueueCursor.cpp): a cursor is a time, and
 each call looks up the next product after or before it.
 */
module QueueCursors {
  import opened Timestamps
  import opened IndexStates
  import opened QueueIndexManagers
  import opened ProductQueues
  import TQ = TimeQueues

  // ---------------------------------------------------------------------
  // Forward reading, interleaved with anything that happens to the queue
  // ---------------------------------------------------------------------

  /**
   What a call finds: the end of the queue, or a product.  The call passes the product unless the caller's function
   was given it and reported a failure.
   */
  datatype Visit = AtEnd | Product(entry: TQ.Entry, passed: bool)

  /** The first entry above `c`. */
  ghost predicate FirstAbove(times: seq<TQ.Entry>, c: Timestamp, i: nat) {
    i < |times| && c.Less(times[i].tv) && forall k :: 0 <= k < i ==> !c.Less(times[k].tv)
  }

  /** One forward call on a queue with these entries: a product that is not passed leaves the cursor just before it. */
  ghost predicate Forward(times: seq<TQ.Entry>, c: Timestamp, v: Visit, c': Timestamp) {
    match v
    case AtEnd => c' == c && forall i :: 0 <= i < |times| ==> !c.Less(times[i].tv)
    case Product(e, passed) =>
      && (exists i: nat :: FirstAbove(times, c, i) && times[i] == e)
      && c' == if passed then e.tv else e.tv.Decrement()
  }

  ghost predicate Normalised(times: seq<TQ.Entry>) {
    forall i :: 0 <= i < |times| ==> times[i].tv.Normal()
  }

  /** What a queue holds can be read: its times rise and are in normal form. */
  lemma QueueReadable(pq: ProductQueue)
    requires pq.Valid()
    ensures TQ.Increasing(pq.ix.State().times) && Normalised(pq.ix.State().times)
  {
    hide QueueIndexManager.Steady, QueueIndexManager.State;
    pq.ix.TimesBelowEnd();
  }

  /**
   A run of forward calls: `queues[k]` is what the queue holds at call `k`, whatever was inserted or deleted in
   between, `cursors[k]` the cursor before the call and `visits[k]` what the call finds.
   */
  ghost predicate Reading(queues: seq<seq<TQ.Entry>>, cursors: seq<Timestamp>, visits: seq<Visit>) {
    && |queues| == |visits| && |cursors| == |visits| + 1 && cursors[0].Normal()
    && forall k :: 0 <= k < |visits| ==>
         TQ.Increasing(queues[k]) && Normalised(queues[k]) && Forward(queues[k], cursors[k], visits[k], cursors[k + 1])
  }

  /** The cursor stays normalised and never moves back below where it was. */
  lemma ForwardMoves(times: seq<TQ.Entry>, c: Timestamp, v: Visit, c': Timestamp)
    requires Forward(times, c, v, c') && c.Normal() && Normalised(times)
    ensures c'.Normal() && !c'.Less(c)
    ensures v.Product? ==> v.entry.tv.Normal() && c.Less(v.entry.tv)
  {
    if v.Product? {
      var i: nat :| FirstAbove(times, c, i) && times[i] == v.entry;
      StepIsOne(v.entry.tv);
      LessIsMicros(c, v.entry.tv);
      LessIsMicros(v.entry.tv.Decrement(), c);
    }
  }

  lemma {:induction false} CursorsRise(queues: seq<seq<TQ.Entry>>, cursors: seq<Timestamp>, visits: seq<Visit>, a: nat,
                                       b: nat)
    requires Reading(queues, cursors, visits) && a <= b < |cursors|
    ensures cursors[a].Normal() && cursors[b].Normal() && !cursors[b].Less(cursors[a])
    decreases b
  {
    if b > 0 {
      CursorsRise(queues, cursors, visits, if a < b then a else b - 1, b - 1);
      ForwardMoves(queues[b - 1], cursors[b - 1], visits[b - 1], cursors[b]);
    }
  }

  /** Products are visited in strictly increasing insertion order, and a passed product is never visited again. */
  lemma ForwardOrder(queues: seq<seq<TQ.Entry>>, cursors: seq<Timestamp>, visits: seq<Visit>, a: nat, b: nat)
    requires Reading(queues, cursors, visits) && a < b < |visits| && visits[a].Product? && visits[b].Product?
    ensures !visits[b].entry.tv.Less(visits[a].entry.tv)
    ensures visits[a].passed ==> visits[a].entry.tv.Less(visits[b].entry.tv)
  {
    CursorsRise(queues, cursors, visits, a + 1, b);
    CursorsRise(queues, cursors, visits, a, a);
    ForwardMoves(queues[a], cursors[a], visits[a], cursors[a + 1]);
    ForwardMoves(queues[b], cursors[b], visits[b], cursors[b + 1]);
    StepIsOne(visits[a].entry.tv);
    LessIsMicros(cursors[b], cursors[a + 1]);
    LessIsMicros(cursors[b], visits[b].entry.tv);
    LessIsMicros(visits[a].entry.tv, visits[b].entry.tv);
    LessIsMicros(visits[b].entry.tv, visits[a].entry.tv);
  }

  /** A product that was not passed is the next one visited, if it is still there. */
  lemma Redelivery(queues: seq<seq<TQ.Entry>>, cursors: seq<Timestamp>, visits: seq<Visit>, a: nat)
    requires Reading(queues, cursors, visits) && a + 1 < |visits| && visits[a].Product? && !visits[a].passed
    requires visits[a].entry in queues[a + 1]
    ensures visits[a + 1].Product? && visits[a + 1].entry == visits[a].entry
  {
    var e, c, times := visits[a].entry, cursors[a + 1], queues[a + 1];
    CursorsRise(queues, cursors, visits, a, a);
    ForwardMoves(queues[a], cursors[a], visits[a], c);
    StepIsOne(e.tv);
    LessIsMicros(c, e.tv);
    var i :| 0 <= i < |times| && times[i] == e;
    assert Forward(times, c, visits[a + 1], cursors[a + 2]);
    if visits[a + 1].Product? {
      var k: nat :| FirstAbove(times, c, k) && times[k] == visits[a + 1].entry;
      var u := times[k].tv;
      LessIsMicros(c, u);
      LessIsMicros(u, e.tv);
      assert k < i ==> u.Less(e.tv);
      assert i < k ==> !c.Less(e.tv);
    }
  }

  /** A product that is above the cursor and stays in the queue has been passed by the time the end is reached. */
  lemma {:induction false} NothingMissed(queues: seq<seq<TQ.Entry>>, cursors: seq<Timestamp>, visits: seq<Visit>,
                                         e: TQ.Entry)
    requires Reading(queues, cursors, visits) && |visits| > 0 && visits[|visits| - 1] == AtEnd
    requires cursors[0].Less(e.tv) && forall k :: 0 <= k < |queues| ==> e in queues[k]
    ensures exists k :: 0 <= k < |visits| && visits[k] == Product(e, true)
  {
    var n := |visits| - 1;
    var i :| 0 <= i < |queues[n]| && queues[n][i] == e;
    assert Forward(queues[n], cursors[n], visits[n], cursors[n + 1]);
    Crossing(queues, cursors, visits, e, n);
  }

  /** The call in which the cursor passes `e` accepts `e`. */
  lemma {:induction false} Crossing(queues: seq<seq<TQ.Entry>>, cursors: seq<Timestamp>, visits: seq<Visit>,
                                    e: TQ.Entry, n: nat)
    requires Reading(queues, cursors, visits) && n < |cursors| && cursors[0].Less(e.tv) && !cursors[n].Less(e.tv)
    requires forall k :: 0 <= k < |queues| ==> e in queues[k]
    ensures exists k :: 0 <= k < n && visits[k] == Product(e, true)
    decreases n
  {
    if !cursors[n - 1].Less(e.tv) {
      Crossing(queues, cursors, visits, e, n - 1);
    } else {
      var k := n - 1;
      var times, c, v := queues[k], cursors[k], visits[k];
      CursorsRise(queues, cursors, visits, k, k);
      ForwardMoves(times, c, v, cursors[n]);
      var i :| 0 <= i < |times| && times[i] == e;
      assert v.Product?;
      var f: nat :| FirstAbove(times, c, f) && times[f] == v.entry;
      var t, u := times[f].tv, e.tv;
      assert i < f ==> !c.Less(u);
      assert f < i ==> t.Less(u);
      StepIsOne(t);
      LessIsMicros(t, u);
      LessIsMicros(cursors[n], u);
    }
  }

  // ---------------------------------------------------------------------
  // The cursor
  // ---------------------------------------------------------------------

  datatype Reply = End | Unavailable | Unwanted | Satisfied | Failed

  /** Where a cursor that was never set starts. */
  function Begin(cursor: Timestamp, mt: TQ.Match): Timestamp {
    if cursor != NONE then cursor else if mt == TQ.LessThan then ENDT else ZERO
  }

  /** A set cursor starts where it is; one that was never set at one of the ends. */
  lemma BeginSet(cursor: Timestamp, mt: TQ.Match)
    requires !ENDT.Less(cursor)
    ensures !ENDT.Less(Begin(cursor, mt)) && (cursor != NONE ==> Begin(cursor, mt) == cursor)
    ensures cursor == NONE ==> Begin(cursor, mt) == if mt == TQ.LessThan then ENDT else ZERO
  {
  }

  /**
   What a cursor that was never set finds: forward, the oldest product after time zero; backward, the newest product;
   and otherwise one at time zero itself.
   */
  ghost predicate FromScratch(times: seq<TQ.Entry>, mt: TQ.Match, j: nat) {
    j <= |times| &&
    match mt
    case GreaterThan =>
      if j == 0 then forall i :: 0 <= i < |times| ==> times[i].tv.Micros() <= 0
      else times[j - 1].tv.Micros() > 0 && forall i :: 0 <= i < j - 1 ==> times[i].tv.Micros() <= 0
    case LessThan => j == |times|
    case Equal =>
      if j == 0 then forall i :: 0 <= i < |times| ==> times[i].tv.Micros() != 0 else times[j - 1].tv.Micros() == 0
  }

  lemma UnsetFound(times: seq<TQ.Entry>, mt: TQ.Match, j: nat)
    requires TQ.Found(times, if mt == TQ.LessThan then ENDT else ZERO, mt, j)
    requires forall i :: 0 <= i < |times| ==> times[i].tv.Less(ENDT) && times[i].tv.Normal()
    ensures FromScratch(times, mt, j)
  {
    forall i | 0 <= i < |times|
      ensures ZERO.Less(times[i].tv) <==> times[i].tv.Micros() > 0
      ensures times[i].tv == ZERO <==> times[i].tv.Micros() == 0
    {
      LessIsMicros(ZERO, times[i].tv);
      LessIsMicros(times[i].tv, ZERO);
    }
    if mt == TQ.LessThan && times != [] {
      assert times[|times| - 1].tv.Less(ENDT);
      assert |times| - 1 < j;
    }
  }

  class QueueCursor {
    const pq: ProductQueue
    var cursor: Timestamp
    var cursorOffset: int

    constructor (q: ProductQueue)
      ensures pq == q && cursor == NONE
    {
      pq, cursor, cursorOffset := q, NONE, -1;
    }

    ghost predicate Valid()
      reads this, pq, pq.ix, pq.ix.Parts(), pq.ix.rl.fb, pq.ix.rl.fb.nfree, pq.ix.rl.fb.free, pq.ix.rl.fb.fblks
      reads pq.ix.tq.fb, pq.ix.tq.fb.nfree, pq.ix.tq.fb.free, pq.ix.tq.fb.fblks
    {
      pq.Valid() && !ENDT.Less(cursor)
    }

    /** Move the cursor. */
    method Set(t: Timestamp, offset: int)
      requires Valid() && !ENDT.Less(t)
      modifies this
      ensures Valid() && cursor == t && cursorOffset == offset && pq.ix.Now() == old(pq.ix.Now())
    {
      hide ProductQueue.Valid, QueueIndexManager.State;
      ghost var parts := pq.ix.Parts();
      cursor, cursorOffset := t, offset;
    }

    /** Find the next product in the direction `mt`, and give it to the caller's function if it is wanted. */
    method Sequence(mt: TQ.Match, wants: Header -> bool, satisfied: bool, busy: set<int>)
      returns (r: Reply, ghost j: nat)
      requires Valid() && (mt == TQ.Equal ==> cursor != NONE && cursor != ENDT)
      modifies this
      ensures Valid() && pq.ix.Now() == old(pq.ix.Now())
      ensures Sequenced(pq.ix.State(), Begin(old(cursor), mt), mt, wants, satisfied, busy, r, j, cursor)
      ensures old(cursor) != NONE ==>
                Sequenced(pq.ix.State(), old(cursor), mt, wants, satisfied, busy, r, j, cursor)
      ensures old(cursor) == NONE ==> FromScratch(pq.ix.State().times, mt, j)
      ensures old(cursor) == NONE && r == End ==> cursor == if mt == TQ.LessThan then ENDT else ZERO
      ensures cursorOffset == if j == 0 then old(cursorOffset)
                              else if r == Failed && mt == TQ.GreaterThan then -1
                              else if r == Failed && mt == TQ.LessThan then pq.ix.State().times[j - 1].offset + 1
                              else pq.ix.State().times[j - 1].offset
    {
      hide QueueIndexManager.Steady, QueueIndexManager.State, QueueIndexManager.Spot, QueueIndexManager.At, Booked;
      hide Timely, Sequenced, TQ.Found, FromScratch, Begin;
      pq.ix.StateDisk();
      BeginSet(cursor, mt);
      ghost var c0 := cursor;
      var c := Begin(cursor, mt);
      if cursor == NONE { Set(c, cursorOffset); }
      var x;
      x, j := Seek(c, mt);
      FoundRange(pq.ix.State().times, c, mt, j);
      if c0 == NONE { Unset(mt, j); }
      if x == TQ.TQ_NONE {
        NoneSequenced(pq.ix.State(), c, mt, wants, satisfied, busy);
        return End, j;
      }
      pq.ix.EntryAt(x, j);
      var tv, o := pq.ix.tq.tqep[x].tv, pq.ix.tq.tqep[x].offset;
      Set(tv, o);
      r := Offer(o, wants, satisfied, busy);
      if r == Failed {
        if mt == TQ.GreaterThan {
          BeforeEnd(tv);
          Set(tv.Decrement(), -1);
        } else if mt == TQ.LessThan {
          Set(tv, o + 1);
        }
      }
      OneSequenced(pq.ix.State(), c, mt, wants, satisfied, busy, r, j, cursor);
    }

    /**
     Find the next product in the direction `mt` and delete it if it is wanted; a locked one leaves the cursor alone.
     */
    method SequenceDelete(mt: TQ.Match, wants: Header -> bool, busy: set<int>)
      returns (r: Reply, ok: bool, ghost j: nat)
      requires Valid() && (mt == TQ.Equal ==> cursor != ENDT)
      modifies this, pq, pq.ix`owner, pq.ix.Parts()
      ensures ok ==>
                Valid() && Deleting(old(pq.ix.State()), old(cursor), mt, wants, busy, r, j, pq.ix.State(), cursor)
      ensures ok && (r == End || r == Unavailable) ==>
                cursorOffset == if old(cursor) != NONE then old(cursorOffset) else if mt == TQ.LessThan then -1 else 0
      ensures ok && r != End && r != Unavailable ==> cursorOffset == -1
      ensures ok && r != Satisfied ==> pq.ix.Now() == old(pq.ix.Now())
      ensures ok && r == Satisfied ==> LeasesKept(old(pq.ix.State()), pq.ix.State())
      ensures ok ==> pq.ix.fb.Room() >= old(pq.ix.fb.Room()) - 4
      ensures old(pq.ix.fb.Room()) > 3 ==> ok
    {
      hide QueueIndexManager.Steady, QueueIndexManager.State, QueueIndexManager.Spot, QueueIndexManager.At, Booked;
      hide Timely, TQ.Found, WasEvicted, LeasesKept, FromScratch, Begin;
      ok := true;
      pq.ix.StateDisk();
      BeginSet(cursor, mt);
      ghost var c0 := cursor;
      var c := Begin(cursor, mt);
      if cursor == NONE { Set(c, if mt == TQ.LessThan then -1 else 0); }
      var x;
      x, j := Seek(c, mt);
      FoundRange(pq.ix.State().times, c, mt, j);
      if c0 == NONE { Unset(mt, j); }
      if x == TQ.TQ_NONE { return End, ok, j; }
      pq.ix.EntryAt(x, j);
      var tv, o := pq.ix.tq.tqep[x].tv, pq.ix.tq.tqep[x].offset;
      r := Offer(o, wants, true, busy);
      if r == Unavailable { return; }
      Set(tv, -1);
      if r == Satisfied { ok := Drop(x, o, j); }
    }

    /** Delete the product that was found. */
    method Drop(x: int, o: int, ghost j: nat) returns (ok: bool)
      requires Valid() && pq.ix.At(x, j, o)
      modifies pq, pq.ix`owner, pq.ix.Parts()
      ensures ok ==> Valid() && cursor == old(cursor) && cursorOffset == old(cursorOffset)
      ensures ok ==>
                WasEvicted(old(pq.ix.State()), j - 1, pq.ix.State())
                && LeasesKept(old(pq.ix.State()), pq.ix.State())
      ensures ok ==> pq.ix.fb.Room() >= old(pq.ix.fb.Room()) - 4
      ensures old(pq.ix.fb.Room()) > 3 ==> ok
    {
      hide QueueIndexManager.Steady, QueueIndexManager.State, QueueIndexManager.At, Booked, Timely, WasEvicted;
      hide LeasesKept;
      pq.ix.AtFacts(x, j, o);
      var rlix := pq.ix.FindRegion(o);
      ok := pq.Erase(x, rlix, pq.ix.disk[o].signature, j, o);
    }

    lemma Unset(mt: TQ.Match, j: nat)
      requires Valid() && TQ.Found(pq.ix.State().times, if mt == TQ.LessThan then ENDT else ZERO, mt, j)
      ensures FromScratch(pq.ix.State().times, mt, j)
    {
      hide QueueIndexManager.Steady, QueueIndexManager.State, Booked, Timely, TQ.Found;
      pq.ix.TimesBelowEnd();
      UnsetFound(pq.ix.State().times, mt, j);
    }

    method Seek(c: Timestamp, mt: TQ.Match) returns (x: int, ghost j: nat)
      requires Valid() && !ENDT.Less(c) && !(mt == TQ.Equal && c == ENDT)
      ensures Valid() && pq.ix.Now() == old(pq.ix.Now())
      ensures TQ.Found(pq.ix.State().times, c, mt, j) && (x == TQ.TQ_NONE <==> j == 0)
      ensures x != TQ.TQ_NONE ==> pq.ix.Spot(x, j)
    {
      hide QueueIndexManager.Steady, QueueIndexManager.State, QueueIndexManager.Spot, Booked, Timely, TQ.Found;
      ghost var parts := pq.ix.Parts();
      x, j := pq.ix.FindTime(c, mt);
    }

    /** Lock and read the product, and give it to the caller's function. */
    method Offer(o: int, wants: Header -> bool, satisfied: bool, busy: set<int>) returns (r: Reply)
      requires Valid() && o in pq.ix.State().used && o in pq.ix.disk
      ensures Valid() && pq.ix.Now() == old(pq.ix.Now())
      ensures r == Unavailable ==> o in busy
      ensures r != Unavailable ==>
                o in pq.ix.State().disk && r == if !wants(pq.ix.State().disk[o]) then Unwanted else if satisfied
                    then Satisfied else Failed
    {
      hide QueueIndexManager.Steady, QueueIndexManager.State, Booked, Timely;
      ghost var parts := pq.ix.Parts();
      pq.ix.StateDisk();
      var st, info := pq.ix.ReadRegion(o, busy);
      if st != Success { return Unavailable; }
      r := if !wants(info) then Unwanted else if satisfied then Satisfied else Failed;
    }
  }

  /** What a call answers and where it leaves the cursor. */
  ghost predicate Sequenced(x: Ix, c: Timestamp, mt: TQ.Match, wants: Header -> bool, satisfied: bool, busy: set<int>,
                            r: Reply, j: nat, c': Timestamp) {
    && TQ.Found(x.times, c, mt, j) && (r == End <==> j == 0)
    && (j == 0 ==> c' == c)
    && (j > 0 ==>
          var e := x.times[j - 1];
          && e.offset in x.disk && (r == Unavailable ==> e.offset in busy)
          && (r != Unavailable ==> r == if !wants(x.disk[e.offset]) then Unwanted else if satisfied then Satisfied
              else Failed)
          && c' == if r == Failed && mt == TQ.GreaterThan then e.tv.Decrement() else e.tv)
  }

  /**
   What a call that deletes answers, does to the queue and leaves of the cursor: it finds the next product, in the
   given direction, and deletes it if it is wanted; a locked one leaves the cursor alone.
   */
  ghost predicate Deleting(x: Ix, c: Timestamp, mt: TQ.Match, wants: Header -> bool, busy: set<int>, r: Reply, j: nat,
                           x': Ix, c': Timestamp) {
    && j <= |x.times| && (if c == NONE then FromScratch(x.times, mt, j) else TQ.Found(x.times, c, mt, j))
    && (r == End <==> j == 0) && r != Failed && (r != Satisfied ==> x' == x)
    && (r == End || r == Unavailable ==> c' == if c != NONE then c else if mt == TQ.LessThan then ENDT else ZERO)
    && (r == Unavailable ==> x.times[j - 1].offset in busy)
    && (r == Unwanted || r == Satisfied ==>
          var e := x.times[j - 1];
          c' == e.tv && e.offset in x.disk && (r == Satisfied <==> wants(x.disk[e.offset])))
    && (r == Satisfied ==> WasEvicted(x, j - 1, x'))
  }

  lemma FoundRange(times: seq<TQ.Entry>, c: Timestamp, mt: TQ.Match, j: nat)
    requires TQ.Found(times, c, mt, j)
    ensures j <= |times|
  {
  }

  lemma NoneSequenced(x: Ix, c: Timestamp, mt: TQ.Match, wants: Header -> bool, satisfied: bool, busy: set<int>)
    requires TQ.Found(x.times, c, mt, 0)
    ensures Sequenced(x, c, mt, wants, satisfied, busy, End, 0, c)
  {
  }

  lemma OneSequenced(x: Ix, c: Timestamp, mt: TQ.Match, wants: Header -> bool, satisfied: bool, busy: set<int>,
                     r: Reply, j: nat, c': Timestamp)
    requires TQ.Found(x.times, c, mt, j) && 0 < j
    requires var e := x.times[j - 1];
             && e.offset in x.disk && (r == Unavailable ==> e.offset in busy)
             && (r != Unavailable ==> r == if !wants(x.disk[e.offset]) then Unwanted else if satisfied then Satisfied
                 else Failed)
             && c' == if r == Failed && mt == TQ.GreaterThan then e.tv.Decrement() else e.tv
    ensures Sequenced(x, c, mt, wants, satisfied, busy, r, j, c')
  {
  }

  lemma BeforeEnd(t: Timestamp)
    requires t.Less(ENDT)
    ensures !ENDT.Less(t.Decrement())
  {
  }

  /** A forward call is a forward step. */
  lemma SequencedForward(x: Ix, c: Timestamp, wants: Header -> bool, satisfied: bool, busy: set<int>, r: Reply, j: nat,
                         c': Timestamp)
    requires Sequenced(x, c, TQ.GreaterThan, wants, satisfied, busy, r, j, c')
    ensures Forward(x.times, c, if j == 0 then AtEnd else Product(x.times[j - 1], r != Failed), c')
  {
    if j > 0 { assert FirstAbove(x.times, c, j - 1); }
  }
}
