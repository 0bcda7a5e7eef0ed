/**
 Whole runs of a product queue: any sequence of reservations, writes, commits,
 roll-backs, moves of entries, deletions by signature and deletions by a cursor.
 */
module QueueRuns {
  import opened FreeBlocks
  import opened Timestamps
  import opened IndexStates
  import opened QueueIndexManagers
  import opened ProductQueues
  import opened QueueEntries
  import opened QueueCursors
  import LY = Layouts
  import RL = RegionLists
  import RT = RegionTables
  import TQ = TimeQueues
  import SX = SignatureIndexes

  /** An operation; `i` and `j` number the entries in the order in which they were reserved. */
  datatype Op =
    | Reserve(info: Header, sz: nat, headerSize: nat, busy: set<int>)
    | ReserveDirect(size: nat, sig: SX.Signature, busy: set<int>)
    | Write(i: nat, bytes: Bytes)
    | Commit(i: nat, now: Timestamp, fits: bool)
    | Rollback(i: nat)
    | Move(i: nat, j: nat)
    | Delete(sig: SX.Signature, interval: nat, busy: set<int>)
    | DeleteNext(mt: TQ.Match, wants: Header -> bool, busy: set<int>)

  /** What the callers must see to: encoded headers are not empty and times are in range. */
  ghost predicate Allowed(op: Op, nalloc: nat) {
    match op
    case Reserve(info, _, headerSize, _) => 0 < headerSize && !ENDT.Less(info.arrival)
    case Write(_, bytes) => bytes.Encoded? ==> !ENDT.Less(bytes.header.arrival)
    case Commit(_, now, _) => now.Normal() && !now.Less(ZERO) && now.Micros() + nalloc < ENDT.Micros()
    case _ => true
  }

  /** The one operation that may break the structure by itself: a request for no bytes at all. */
  predicate Sized(op: Op) {
    op.ReserveDirect? ==> 0 < op.size
  }

  // ---------------------------------------------------------------------
  // What each operation does
  // ---------------------------------------------------------------------

  /**
   What a run works on: the indexes and the regions, the entries, the leases given out and settled, the reader's
   cursor, the smallest request so far, and whether anything was ever evicted.
   */
  datatype World = World(at: Moment, cards: seq<Card>, next: nat, settled: seq<nat>, cursor: Timestamp, seen: int,
                         full: bool)

  /** What the caller is told by an operation, or could have seen of it. */
  datatype Effect =
    | Nothing
    | Booked(st: Status, r: Receipt)
    | Timed(k: nat, t: Timestamp)
    | Dropped(st: Status, i: int)
    | Sought(reply: Reply, j: nat)

  /** Nothing is stored, nothing was asked for, and the cursor was never set. */
  ghost predicate Untouched(w: World) {
    w == World(Moment(Ix(map[], {}, [], map[], map[]), w.at.s), [], 0, [], NONE, SIZE_MAX, false)
  }

  /** A reservation: a refused one may have evicted products; a new entry comes with its own lease. */
  ghost predicate Reserves(w: World, ask: Ask, st: Status, r: Receipt, disk: map<int, Header>, written: bool, w': World)
  {
    && Booking(st, w.at, ask, r, w'.seen) && w'.at.s.m == r.mid.s.m
    && (if st == Success then
          && w'.at.x == r.mid.x.(disk := disk)
          && w' == w.(at := w'.at, seen := w'.seen, full := w.full || r.gone != [], next := w.next + 1,
                      cards := w.cards + [Card(true, r.offset, ask.sig, written, w.next)])
        else w'.at.x == r.mid.x && w' == w.(at := w'.at, seen := w'.seen, full := w.full || r.gone != []))
  }

  ghost predicate Live(w: World, i: nat) {
    i < |w.cards| && w.cards[i].live
  }

  /** The entry `i` has given up its region, and its lease is settled. */
  ghost predicate Settles(w: World, i: nat, w': World) {
    i < |w.cards| &&
    w' == w.(at := w'.at, cards := w.cards[i := w.cards[i].(live := false)], settled := w.settled + [w.cards[i].lease])
  }

  /** With a readable header that fits, the product gets the least unused time from now on; else it is rolled back. */
  ghost predicate Commits(w: World, i: nat, now: Timestamp, fits: bool, e: Effect, w': World) {
    if Live(w, i) then
      && Settles(w, i, w')
      && (if w.cards[i].offset in w.at.x.disk && fits then
            && e.Timed? && TQ.LeastUnused(w.at.x.times, now, e.t)
            && WasCommitted(w.at.x, e.k, e.t, w.cards[i].offset, w'.at.x)
          else WasForgotten(w.at.x, w.cards[i].offset, w'.at.x))
    else w' == w
  }

  ghost predicate RollsBack(w: World, i: nat, w': World) {
    if Live(w, i) then Settles(w, i, w') && WasForgotten(w.at.x, w.cards[i].offset, w'.at.x) else w' == w
  }

  ghost predicate Writes(w: World, i: nat, b: Bytes, w': World) {
    if Live(w, i) then
      var c := w.cards[i];
      w' == w.(at := w.at.(x := w.at.x.(disk := Stored(w.at.x.disk, c.offset, b))),
               cards := w.cards[i := c.(written := b.Encoded? && b.header.signature == c.sig)])
    else w' == w
  }

  /** The entry `i` takes over what `j` holds; its own region is given back first. */
  ghost predicate Moves(w: World, i: nat, j: nat, w': World) {
    if i < |w.cards| && j < |w.cards| && i != j then
      var cards := w.cards[i := w.cards[j]][j := w.cards[j].(live := false)];
      if w.cards[i].live then
        && WasForgotten(w.at.x, w.cards[i].offset, w'.at.x)
        && w' == w.(at := w'.at, cards := cards, settled := w.settled + [w.cards[i].lease])
      else w' == w.(cards := cards)
    else w' == w
  }

  /** Exactly the product with that signature is deleted, or nothing changes; if it is not locked, as it is found. */
  ghost predicate Deletes(w: World, sig: SX.Signature, interval: nat, busy: set<int>, st: Status, k: int, w': World) {
    var x := w.at.x;
    && (sig !in x.sigs ==> st == NotFound)
    && (sig in x.sigs && x.sigs[sig] !in busy ==> LookUp(x, sig, interval, busy, st))
    && (if st == Success then
          && WasEvicted(x, k, w'.at.x) && sig in x.sigs && x.times[k].offset == x.sigs[sig] && w' == w.(at := w'.at)
        else w' == w)
  }

  ghost predicate DeletesNext(w: World, mt: TQ.Match, wants: Header -> bool, busy: set<int>, r: Reply, j: nat,
                              w': World)
  {
    && Deleting(w.at.x, w.cursor, mt, wants, busy, r, j, w'.at.x, w'.cursor)
    && w' == w.(at := w'.at, cursor := w'.cursor) && (r != Satisfied ==> w'.at == w.at)
  }

  /** What an operation does to all of that, over a queue with these parameters. */
  ghost predicate Transition(op: Op, w: World, e: Effect, w': World, align: Unit, size: int) {
    match op
    case Reserve(info, sz, headerSize, busy) =>
      if 0 < sz <= size then
        e.Booked? && Reserves(w, Ask(info.signature, RoundUp(headerSize + sz, align), w.seen, size, busy), e.st, e.r,
                              e.r.mid.x.disk[e.r.offset := info], true, w')
      else w' == w
    case ReserveDirect(sz, sig, busy) =>
      if sz <= size then
        e.Booked? && Reserves(w, Ask(sig, RoundUp(sz, align), w.seen, size, busy), e.st, e.r, e.r.mid.x.disk, false, w')
      else w' == w
    case Write(i, b) => Writes(w, i, b, w')
    case Commit(i, now, fits) => Commits(w, i, now, fits, e, w')
    case Rollback(i) => RollsBack(w, i, w')
    case Move(i, j) => Moves(w, i, j, w')
    case Delete(sig, interval, busy) => e.Dropped? && Deletes(w, sig, interval, busy, e.st, e.i, w')
    case DeleteNext(mt, wants, busy) =>
      // Looking for exactly the end of time is an assertion failure of the program.
      if mt == TQ.Equal && w.cursor == ENDT then w' == w
      else e.Sought? && DeletesNext(w, mt, wants, busy, e.reply, e.j, w')
  }

  /** The worlds of a run, one after the other. */
  ghost predicate Trace(ops: seq<Op>, worlds: seq<World>, effects: seq<Effect>, align: Unit, size: int) {
    && |effects| <= |ops| && |worlds| == |effects| + 1
    && forall k :: 0 <= k < |effects| ==> Transition(ops[k], worlds[k], effects[k], worlds[k + 1], align, size)
  }

  lemma TraceStarts(ops: seq<Op>, w: World, align: Unit, size: int)
    ensures Trace(ops, [w], [], align, size)
  {
  }

  lemma TraceGoesOn(ops: seq<Op>, worlds: seq<World>, effects: seq<Effect>, e: Effect, w: World, align: Unit, size: int)
    requires Trace(ops, worlds, effects, align, size) && |effects| < |ops|
    requires Transition(ops[|effects|], worlds[|effects|], e, w, align, size)
    ensures Trace(ops, worlds + [w], effects + [e], align, size)
  {
    hide Transition;
  }

  lemma TraceLonger(ops: seq<Op>, more: seq<Op>, worlds: seq<World>, effects: seq<Effect>, align: Unit, size: int)
    requires Trace(ops, worlds, effects, align, size)
    ensures Trace(ops + more, worlds, effects, align, size) && |worlds| == |effects| + 1
  {
    hide Transition;
  }

  /** The end of `m` entries, one after the other. */
  function Closing(m: nat): (r: seq<Op>)
    ensures |r| == m && forall i :: 0 <= i < m ==> r[i] == Rollback(i)
  {
    seq(m, i requires 0 <= i => Rollback(i))
  }

  lemma RollbackSteps(i: nat, w: World, w': World, align: Unit, size: int)
    requires RollsBack(w, i, w')
    ensures Transition(Rollback(i), w, Nothing, w', align, size)
  {
  }

  lemma NoRoster(x: Ix)
    requires Open(x) == {}
    ensures Roster(x, [], 0, [])
  {
  }

  /** Signatures and regions in use correspond one to one. */
  ghost predicate Matched(x: Ix) {
    && (forall s: SX.Signature :: s in x.sigs ==> x.sigs[s] in x.used)
    && (forall s, t :: s in x.sigs && t in x.sigs && x.sigs[s] == x.sigs[t] ==> s == t)
    && (forall o :: o in x.used ==> exists s :: s in x.sigs && x.sigs[s] == o)
  }

  lemma AgreeMatched(x: Ix)
    requires Agree(x)
    ensures Matched(x) && Housed(x.times, x.used)
  {
    forall s: SX.Signature | s in x.sigs ensures x.sigs[s] in x.used {
      var o := x.sigs[s];
      assert o in x.owner;
      assert o in x.used;
    }
    forall o | o in x.used ensures exists s :: s in x.sigs && x.sigs[s] == o {
      var s := x.owner[o];
      assert s in x.sigs && x.sigs[s] == o;
    }
    forall s, t | s in x.sigs && t in x.sigs && x.sigs[s] == x.sigs[t] ensures s == t {
      assert x.owner[x.sigs[s]] == s && x.owner[x.sigs[t]] == t;
    }
  }

  ghost function LiveOffsets(cards: seq<Card>): set<int> {
    set i | 0 <= i < |cards| && cards[i].live :: cards[i].offset
  }

  lemma LiveAreOpen(x: Ix, cards: seq<Card>, next: nat, settled: seq<nat>)
    requires Roster(x, cards, next, settled)
    ensures Open(x) == LiveOffsets(cards)
  {
    hide Open;
    forall o | o in Open(x) ensures o in LiveOffsets(cards) {
      var i: nat :| HoldsRegion(cards, i, o);
    }
    forall i | 0 <= i < |cards| && cards[i].live ensures cards[i].offset in Open(x) {
      assert GoodCard(x, cards[i], next, settled);
    }
  }

  lemma QueueAgrees(pq: ProductQueue)
    requires pq.Valid()
    ensures Agree(pq.ix.State())
  {
    hide QueueIndexManager.Steady, QueueIndexManager.State;
    pq.ix.SteadyFacts();
  }

  class Session {
    const pq: ProductQueue
    const ledger: Ledger
    const reader: QueueCursor
    var entries: seq<QueueEntry>

    constructor (q: ProductQueue, l: Ledger, r: QueueCursor)
      requires r.pq == q && r.Valid() && Open(q.ix.State()) == {} && l.next == 0 && l.settled == []
      ensures pq == q && ledger == l && reader == r && entries == [] && Valid()
    {
      hide ProductQueue.Valid, QueueIndexManager.State;
      NoRoster(q.ix.State());
      ghost var parts := q.ix.Parts();
      pq, ledger, reader, entries := q, l, r, [];
      new;
      assert Cards() == [];
    }

    ghost predicate Crew()
      reads this, entries
    {
      && reader.pq == pq
      && (forall i :: 0 <= i < |entries| ==> entries[i].pq == pq && entries[i].ledger == ledger && entries[i].Sane())
      && (forall i, j :: 0 <= i < j < |entries| ==> entries[i] != entries[j])
    }

    ghost function Cards(): seq<Card>
      reads this, entries
    {
      seq(|entries|, i requires 0 <= i < |entries| reads this, entries => entries[i].AsCard())
    }

    /**
     The indexes agree, the books are right, and the live entries are exactly the reserved regions that are not
     committed.
     */
    ghost predicate Valid()
      reads this, entries, ledger, reader, pq, pq.ix, pq.ix.Parts(), pq.ix.rl.fb, pq.ix.rl.fb.nfree, pq.ix.rl.fb.free,
            pq.ix.rl.fb.fblks
      reads pq.ix.tq.fb, pq.ix.tq.fb.nfree, pq.ix.tq.fb.free, pq.ix.tq.fb.fblks
    {
      Crew() && pq.Valid() && !ENDT.Less(reader.cursor) && Roster(pq.ix.State(), Cards(), ledger.next, ledger.settled)
    }

    ghost function View(): World
      reads this, entries, ledger, reader, pq.ix, pq.ix.rl, pq.ix.tq, pq.ix.tq.tqep, pq.ix.sx, pq.ix.sx.sxep, pq.ix.fb,
            pq.ix.fb.nfree
    {
      World(pq.ix.Now(), Cards(), ledger.next, ledger.settled, reader.cursor, pq.ix.smallestExtentSeen, pq.ix.isFull)
    }

    /**
     The node arena can never run out: it can always give a block while no more are handed out than five for each
     product and twelve.
     */
    ghost predicate Enduring()
      reads pq.ix.fb, pq.ix.fb.nfree
    {
      pq.ix.fb.Room() >= 0 && pq.ix.fb.cap >= 5 * pq.ix.rl.nalloc + 12
    }

    /** What a commit finds in the entry's region: no readable header, one that does not fit, or its own signature. */
    predicate MatchingCommit(i: nat, fits: bool)
      reads this, entries, pq.ix
    {
      i < |entries| && entries[i].region && fits && entries[i].offset in pq.ix.disk ==>
        pq.ix.disk[entries[i].offset].signature == entries[i].sig
    }

    predicate Matching(op: Op)
      reads this, entries, pq.ix
    {
      op.Commit? ==> MatchingCommit(op.i, op.fits)
    }

    /** Entries made by `newElement`, and those whose header was filled in with the right signature, match. */
    lemma WrittenMatches(i: nat, fits: bool)
      requires Valid() && i < |entries| && entries[i].written
      ensures MatchingCommit(i, fits)
    {
      hide ProductQueue.Valid, QueueIndexManager.State, Roster;
      pq.ix.StateDisk();
      CardGood(pq.ix.State(), Cards(), ledger.next, ledger.settled, i);
      assert Cards()[i] == entries[i].AsCard();
    }

    /** An arena that cannot run out has blocks to spare for any operation. */
    lemma Endures()
      requires pq.Valid() && Enduring()
      ensures pq.Slack() >= 6
    {
      hide RL.RegionList.Valid, TQ.TimeQueue.Valid, SX.SignatureIndex.Valid, SX.SignatureIndex.Map;
      hide FreeBlock.Books;
      pq.ix.BlockCount();
    }

    lemma Outside()
      ensures this !in pq.ix.Parts() && ledger !in pq.ix.Parts() && reader !in pq.ix.Parts() && pq !in pq.ix.Parts()
              && pq.ix !in pq.ix.Parts()
      ensures forall i :: 0 <= i < |entries| ==> entries[i] !in pq.ix.Parts()
    {
    }

    method DoDelete(sig: SX.Signature, interval: nat, busy: set<int>) returns (ok: bool, ghost k: int, st: Status)
      requires Valid()
      modifies pq, pq.ix`owner, pq.ix.Parts()
      ensures ok ==> Valid() && Deletes(old(View()), sig, interval, busy, st, k, View())
      ensures ok ==> pq.Slack() >= old(pq.Slack()) - 6
      ensures old(pq.Slack()) >= 4 ==> ok
    {
      hide ProductQueue.Valid, QueueIndexManager.State, QueueIndexManager.Parts, Roster, Turn, WasEvicted, LeasesKept;
      hide LookUp;
      Outside();
      QueueAgrees(pq);
      ghost var x := pq.ix.State();
      st, ok, k := pq.DeleteBySignature(sig, interval, busy);
      if !ok { return; }
      if st == Success {
        EvictedCount(x, k, pq.ix.State());
        TurnEvicted(x, k, pq.ix.State());
        RosterSame(x, Cards(), ledger.next, ledger.settled, pq.ix.State());
      }
    }

    method DoDeleteNext(mt: TQ.Match, wants: Header -> bool, busy: set<int>) returns (ok: bool, r: Reply, ghost j: nat)
      requires Valid() && (mt == TQ.Equal ==> reader.cursor != ENDT)
      modifies reader, pq, pq.ix`owner, pq.ix.Parts()
      ensures ok ==> Valid() && DeletesNext(old(View()), mt, wants, busy, r, j, View())
      ensures ok ==> pq.Slack() >= old(pq.Slack()) - 6
      ensures old(pq.Slack()) >= 4 ==> ok
    {
      hide ProductQueue.Valid, QueueIndexManager.State, QueueIndexManager.Parts, Roster, Turn, WasEvicted, LeasesKept;
      hide Deleting;
      Outside();
      QueueAgrees(pq);
      ghost var x, c := pq.ix.State(), reader.cursor;
      r, ok, j := reader.SequenceDelete(mt, wants, busy);
      if !ok { return; }
      if r == Satisfied {
        DeletingEvicts(x, c, mt, wants, busy, j, pq.ix.State(), reader.cursor);
        EvictedCount(x, j - 1, pq.ix.State());
        TurnEvicted(x, j - 1, pq.ix.State());
        RosterSame(x, Cards(), ledger.next, ledger.settled, pq.ix.State());
      }
    }

    method DoReserve(info: Header, sz: nat, headerSize: nat, busy: set<int>) returns (ok: bool, ghost e: Effect)
      requires Valid() && 0 < headerSize && !ENDT.Less(info.arrival)
      modifies this, ledger, pq, pq.ix, pq.ix.Parts()
      ensures ok ==> Valid() && Grown(old(entries)) && (|entries| > |old(entries)| ==> fresh(entries[|old(entries)|]))
      ensures ok ==>
                Transition(Reserve(info, sz, headerSize, busy), old(View()), e, View(), pq.ix.align, pq.dataSize)
      ensures ok ==> pq.Slack() >= old(pq.Slack()) - 6
      ensures old(pq.Slack()) >= 4 ==> ok
    {
      hide ProductQueue.Valid, QueueIndexManager.State, QueueIndexManager.Parts, Roster, Turn, NewEntry, Booking;
      hide RoundUp;
      Outside();
      ghost var x, cards := pq.ix.State(), Cards();
      var st, n;
      ghost var r;
      st, ok, n, r := NewElement(pq, ledger, info, sz, headerSize, busy);
      e := Booked(st, r);
      if !ok { return; }
      if st == Success {
        NewCard(x, pq.ix.State(), n.AsCard(), info.signature, true, ledger.next - 1);
        EntryAdded(x, cards, ledger.next - 1, ledger.settled, n.AsCard(), pq.ix.State(), info.signature, true);
        Append(n);
      } else {
        RosterSame(x, cards, ledger.next, ledger.settled, pq.ix.State());
      }
    }

    method DoReserveDirect(size: nat, sig: SX.Signature, busy: set<int>) returns (ok: bool, ghost e: Effect)
      requires Valid()
      modifies this, ledger, pq, pq.ix, pq.ix.Parts()
      ensures ok ==> Valid() && Grown(old(entries)) && (|entries| > |old(entries)| ==> fresh(entries[|old(entries)|]))
      ensures ok ==> Transition(ReserveDirect(size, sig, busy), old(View()), e, View(), pq.ix.align, pq.dataSize)
      ensures ok ==> pq.Slack() >= old(pq.Slack()) - 6
      ensures old(pq.Slack()) >= 4 && 0 < size ==> ok
    {
      hide ProductQueue.Valid, QueueIndexManager.State, QueueIndexManager.Parts, Roster, Turn, NewEntry, Booking;
      hide RoundUp;
      Outside();
      ghost var x, cards := pq.ix.State(), Cards();
      var st, torn, n;
      ghost var r;
      st, ok, torn, n, r := NewElementDirect(pq, ledger, size, sig, busy);
      e := Booked(st, r);
      if !ok { return; }
      if st == Success {
        NewCard(x, pq.ix.State(), n.AsCard(), sig, false, ledger.next - 1);
        EntryAdded(x, cards, ledger.next - 1, ledger.settled, n.AsCard(), pq.ix.State(), sig, false);
        Append(n);
      } else {
        RosterSame(x, cards, ledger.next, ledger.settled, pq.ix.State());
      }
    }

    /** New entries come last. */
    ghost predicate Grown(before: seq<QueueEntry>)
      reads this
    {
      before <= entries && |entries| <= |before| + 1
    }

    method Append(e: QueueEntry)
      requires Crew() && pq.Valid() && !ENDT.Less(reader.cursor)
               && Roster(pq.ix.State(), Cards() + [e.AsCard()], ledger.next, ledger.settled)
      requires e.pq == pq && e.ledger == ledger && e.Sane() && e !in entries
      modifies this
      ensures Valid() && entries == old(entries) + [e] && pq.Slack() == old(pq.Slack())
      ensures View() == old(View()).(cards := old(Cards()) + [old(e.AsCard())])
    {
      hide ProductQueue.Valid, QueueIndexManager.State, Roster;
      ghost var parts, cards := pq.ix.Parts(), Cards();
      entries := entries + [e];
      assert Cards() == cards + [e.AsCard()];
    }

    method DoCommit(i: nat, now: Timestamp, fits: bool) returns (ok: bool, ghost w: Effect)
      requires Valid() && now.Normal() && !now.Less(ZERO) && now.Micros() + pq.ix.rl.nalloc < ENDT.Micros()
      modifies entries, ledger, pq, pq.ix`owner, pq.ix.Parts()
      ensures ok ==> Commits(old(View()), i, now, fits, w, View())
      ensures ok && old(MatchingCommit(i, fits)) ==> Valid()
      ensures ok && !old(MatchingCommit(i, fits)) ==> !Agree(pq.ix.State())
      ensures ok ==> pq.Slack() >= old(pq.Slack()) - 6
      ensures old(pq.Slack()) >= 4 ==> ok
    {
      hide ProductQueue.Valid, QueueIndexManager.State, QueueIndexManager.Parts, Roster, Turn, WasCommitted;
      hide WasForgotten, Open, LeasesKeptBut;
      hide HeaderFits, Agree, TQ.LeastUnused;
      ok, w := true, Nothing;
      if i >= |entries| { return; }
      Outside();
      QueueAgrees(pq);
      pq.ix.StateDisk();
      var e := entries[i];
      ghost var x, cards := pq.ix.State(), Cards();
      CardGood(x, cards, ledger.next, ledger.settled, i);
      var st, t, matching := Success, NONE, MatchingCommit(i, fits);
      ghost var k;
      st, ok, t, k := e.Commit(now, fits);
      w := Timed(k, t);
      if !ok { return; }
      assert Cards() == cards[i := cards[i].(live := false)];
      if !cards[i].live { assert cards[i := cards[i].(live := false)] == cards; }
      if cards[i].live {
        LeaseFits(x, e.offset, e.sig);
        if st == Success {
          CommittedDisk(x, k, t, e.offset, pq.ix.State());
        } else {
          ForgottenDisk(x, e.offset, pq.ix.State());
        }
      }
      if !matching { return; }
      if cards[i].live {
        TurnClosed(x, e.offset, pq.ix.State());
        RosterClosed(x, cards, ledger.next, ledger.settled[..|ledger.settled| - 1], i, pq.ix.State());
      }
    }

    method DoRollback(i: nat) returns (ok: bool)
      requires Valid()
      modifies entries, ledger, pq, pq.ix`owner, pq.ix.Parts()
      ensures ok ==> Valid() && CardClosed(old(Cards()), i, Cards()) && RollsBack(old(View()), i, View())
      ensures ok ==> pq.Slack() >= old(pq.Slack())
      ensures old(pq.Slack()) >= 4 ==> ok
    {
      hide ProductQueue.Valid, QueueIndexManager.State, QueueIndexManager.Parts, Roster, Turn, WasForgotten, Open;
      hide LeasesKeptBut;
      ok := true;
      if i >= |entries| { return; }
      Outside();
      var e := entries[i];
      ghost var x, cards := pq.ix.State(), Cards();
      CardGood(x, cards, ledger.next, ledger.settled, i);
      ok := e.Destroy();
      if !ok { return; }
      assert Cards() == cards[i := cards[i].(live := false)];
      if cards[i].live {
        ForgottenDisk(x, e.offset, pq.ix.State());
        TurnClosed(x, e.offset, pq.ix.State());
        RosterClosed(x, cards, ledger.next, ledger.settled[..|ledger.settled| - 1], i, pq.ix.State());
      } else {
        assert cards[i := cards[i].(live := false)] == cards;
      }
    }

    method DoWrite(i: nat, b: Bytes)
      requires Valid() && (b.Encoded? ==> !ENDT.Less(b.header.arrival))
      modifies entries, pq.ix`disk
      ensures Valid() && pq.Slack() == old(pq.Slack()) && Writes(old(View()), i, b, View())
    {
      hide ProductQueue.Valid, QueueIndexManager.State, QueueIndexManager.Parts, Roster, Rewritten, Signed, Open;
      hide LeasesKept, Lease;
      if i >= |entries| || !entries[i].region { return; }
      Outside();
      QueueAgrees(pq);
      var e := entries[i];
      ghost var x, cards := pq.ix.State(), Cards();
      CardGood(x, cards, ledger.next, ledger.settled, i);
      e.Write(b);
      HeaderWritten(x, e.offset, b, pq.ix.State());
      RosterWritten(x, cards, ledger.next, ledger.settled, i, e.written, pq.ix.State());
      assert Cards() == cards[i := cards[i].(written := e.written)];
    }

    method DoMove(i: nat, j: nat) returns (ok: bool)
      requires Valid()
      modifies entries, ledger, pq, pq.ix`owner, pq.ix.Parts()
      ensures ok ==> Valid() && Moves(old(View()), i, j, View())
      ensures ok ==> pq.Slack() >= old(pq.Slack()) - 6
      ensures old(pq.Slack()) >= 4 ==> ok
    {
      hide ProductQueue.Valid, QueueIndexManager.State, QueueIndexManager.Parts, Roster, Turn, WasForgotten, Open;
      hide LeasesKeptBut;
      ok := true;
      if i >= |entries| || j >= |entries| || i == j { return; }
      Outside();
      var e, f := entries[i], entries[j];
      ghost var x, cards, settled := pq.ix.State(), Cards(), ledger.settled;
      CardGood(x, cards, ledger.next, settled, i);
      assert e != f;
      ok := e.MoveFrom(f);
      if !ok { return; }
      ghost var cards' := cards[i := cards[i].(live := false)];
      if cards[i].live {
        ForgottenDisk(x, cards[i].offset, pq.ix.State());
        TurnClosed(x, cards[i].offset, pq.ix.State());
        RosterClosed(x, cards, ledger.next, settled, i, pq.ix.State());
      } else {
        assert cards' == cards;
      }
      RosterMoved(pq.ix.State(), cards', ledger.next, ledger.settled, i, j);
      assert Cards() == cards'[i := cards'[j]][j := cards'[j].(live := false)];
    }

    /**
     What holds after every run: signatures and regions in use correspond one to one; the committed products are in
     strictly increasing order of time, each with a region of its own; the other regions in use are those of the live
     entries; and the regions account for every byte of the section and every record of the table.
     */
    lemma Consistent()
      requires Valid()
      ensures Matched(pq.ix.State()) && TQ.Increasing(pq.ix.State().times)
              && Housed(pq.ix.State().times, pq.ix.State().used)
      ensures Open(pq.ix.State()) == LiveOffsets(Cards())
      ensures forall o :: o in pq.ix.State().used <==> o in pq.ix.rl.m && pq.ix.rl.m[o].kind == LY.Used
      ensures forall o :: o in pq.ix.rl.m ==> pq.ix.rl.m[o].kind != LY.Held
      ensures RL.Settled(pq.ix.rl.m, pq.ix.rl.lo, pq.ix.rl.hi, pq.ix.rl.maxfextent)
      ensures pq.ix.rl.nelems == |pq.ix.State().used|
              && pq.ix.rl.nelems + pq.ix.rl.nfree + pq.ix.rl.nempty == pq.ix.rl.nalloc
      ensures pq.ix.rl.nbytes == LY.UsedBytes(pq.ix.rl.m) && pq.pqeCount == |LiveOffsets(Cards())|
    {
      hide RL.RegionList.Valid, TQ.TimeQueue.Valid, SX.SignatureIndex.Valid, SX.SignatureIndex.Map, RL.Settled, Roster;
      hide TQ.TimeQueue.Contents, Housed, Open;
      AgreeMatched(pq.ix.State());
      pq.ix.tq.ThreadsIncrease();
      LiveAreOpen(pq.ix.State(), Cards(), ledger.next, ledger.settled);
      pq.ix.rl.Counters();
      pq.ix.rl.Bytes();
      forall o ensures o in pq.ix.State().used <==> o in pq.ix.rl.m && pq.ix.rl.m[o].kind == LY.Used {
        pq.ix.rl.InUse(o);
      }
      forall o | o in pq.ix.rl.m ensures pq.ix.rl.m[o].kind != LY.Held {
        pq.ix.rl.InUse(o);
      }
    }

    /**
     One operation.  Everything is still in agreement exactly when it was not the commit of an entry with another
     product's header in its region; and with room in the node arena it goes through, unless it asks for no bytes.
     The slack falls by six at most, and an arena that cannot run out stays one that cannot.  What the operation does
     to the queue, the entries and the cursor is `Transition`.
     */
    method Step(op: Op) returns (ok: bool, ghost e: Effect)
      requires Valid() && Allowed(op, pq.ix.rl.nalloc)
      modifies this, entries, ledger, reader, pq, pq.ix, pq.ix.Parts()
      ensures ok && old(Matching(op)) ==> Valid()
      ensures ok && !old(Matching(op)) ==> !Agree(pq.ix.State())
      ensures ok ==> Transition(op, old(View()), e, View(), pq.ix.align, pq.dataSize)
      ensures ok ==> Grown(old(entries)) && (|entries| > |old(entries)| ==> fresh(entries[|old(entries)|]))
      ensures ok ==> pq.Slack() >= old(pq.Slack()) - 6
      ensures ok && old(Enduring()) ==> Enduring()
      ensures (old(pq.Slack()) >= 4 || old(Enduring())) && Sized(op) ==> ok
    {
      hide Valid, Crew, ProductQueue.Slack, Enduring, View, Transition;
      ghost var lasts := Enduring();
      Lasting();
      ok, e := Apply(op);
      if ok && lasts { StillEnduring(); }
    }

    method Apply(op: Op) returns (ok: bool, ghost e: Effect)
      requires Valid() && Allowed(op, pq.ix.rl.nalloc)
      modifies this, entries, ledger, reader, pq, pq.ix, pq.ix.Parts()
      ensures ok && old(Matching(op)) ==> Valid()
      ensures ok && !old(Matching(op)) ==> !Agree(pq.ix.State())
      ensures ok ==> Transition(op, old(View()), e, View(), pq.ix.align, pq.dataSize)
      ensures ok ==> Grown(old(entries)) && (|entries| > |old(entries)| ==> fresh(entries[|old(entries)|]))
      ensures ok ==> pq.Slack() >= old(pq.Slack()) - 6
      ensures old(pq.Slack()) >= 4 && Sized(op) ==> ok
    {
      hide Valid, Crew, View, ProductQueue.Slack, Reserves, Commits, RollsBack, Writes, Moves, Deletes, DeletesNext;
      hide RoundUp, QueueIndexManager.State, QueueIndexManager.Parts, Agree;
      Outside();
      Seen();
      ok, e := true, Nothing;
      match op
      case Reserve(info, sz, headerSize, busy) => ok, e := DoReserve(info, sz, headerSize, busy);
      case ReserveDirect(size, sig, busy) => ok, e := DoReserveDirect(size, sig, busy);
      case Write(i, b) => DoWrite(i, b);
      case Commit(i, now, fits) => ok, e := DoCommit(i, now, fits);
      case Rollback(i) => ok := DoRollback(i);
      case Move(i, j) => ok := DoMove(i, j);
      case Delete(sig, interval, busy) =>
        var st;
        ghost var k;
        ok, k, st := DoDelete(sig, interval, busy);
        e := Dropped(st, k);
      case DeleteNext(mt, wants, busy) =>
        // Looking for exactly the end of time is an assertion failure of the program.
        if mt == TQ.Equal && reader.cursor == ENDT { return; }
        var r;
        ghost var j;
        ok, r, j := DoDeleteNext(mt, wants, busy);
        e := Sought(r, j);
    }

    lemma Seen()
      ensures View().cursor == reader.cursor && View().at.x == pq.ix.State()
    {
    }

    lemma Lasting()
      requires Valid()
      ensures Enduring() ==> pq.Slack() >= 6
    {
      hide Crew, ProductQueue.Valid, ProductQueue.Slack, Enduring, Roster;
      if Enduring() { Endures(); }
    }

    twostate lemma StillEnduring()
      requires old(Enduring()) && pq.Slack() >= 0
      ensures Enduring()
    {
      hide QueueIndexManager.State, FreeBlock.Books, FreeBlock.Room;
    }

    /**
     Any run keeps everything in agreement, up to the first commit of an entry with another product's header in its
     region, if there is one: then the first `n` operations did and the next did not.  With no request for no bytes,
     every run goes through for which the arena has room for six blocks an operation and four more; and over an
     arena that cannot run out every run does, however long.  Each operation does what `Transition` says.
     */
    method Run(ops: seq<Op>) returns (ok: bool, n: nat, ghost worlds: seq<World>, ghost effects: seq<Effect>)
      requires Valid() && entries == [] && forall k :: 0 <= k < |ops| ==> Allowed(ops[k], pq.ix.rl.nalloc)
      modifies this, ledger, reader, pq, pq.ix, pq.ix.Parts()
      ensures n <= |ops| && (ok && n == |ops| ==> Valid())
      ensures ok && n < |ops| ==> ops[n].Commit? && !Agree(pq.ix.State())
      ensures ok ==>
                && Trace(ops, worlds, effects, pq.ix.align, pq.dataSize)
                && |effects| == (if n < |ops| then n + 1 else n)
                && worlds[0] == old(View()) && worlds[|effects|] == View()
      ensures ok ==> |entries| <= |ops| && (forall i :: 0 <= i < |entries| ==> fresh(entries[i]))
      ensures ok ==> pq.Slack() >= old(pq.Slack()) - 6 * |ops|
      ensures ok && old(Enduring()) ==> Enduring()
      ensures (old(pq.Slack()) >= 6 * |ops| + 4 || old(Enduring()))
              && (forall k :: 0 <= k < |ops| ==> Sized(ops[k])) ==>
                ok
    {
      hide Valid, Crew, QueueIndexManager.Parts, QueueIndexManager.State, MatchingCommit, Agree, ProductQueue.Slack;
      hide Enduring, View, Transition, Trace;
      ok, n, worlds, effects := true, 0, [View()], [];
      TraceStarts(ops, View(), pq.ix.align, pq.dataSize);
      while n < |ops|
        invariant n <= |ops| && Valid() && ok && |entries| <= n && forall i :: 0 <= i < |entries| ==> fresh(entries[i])
        invariant pq.Slack() >= old(pq.Slack()) - 6 * n && (old(Enduring()) ==> Enduring())
        invariant Trace(ops, worlds, effects, pq.ix.align, pq.dataSize) && |effects| == n && |worlds| == n + 1
        invariant worlds[0] == old(View()) && worlds[n] == View()
      {
        var fits := Matching(ops[n]);
        ghost var e;
        ok, e := Step(ops[n]);
        if !ok { return; }
        TraceGoesOn(ops, worlds, effects, e, View(), pq.ix.align, pq.dataSize);
        worlds, effects := worlds + [View()], effects + [e];
        if !fits { return; }
        n := n + 1;
      }
    }

    /**
     When every entry has come to its end, no region is reserved and every lease has taken effect exactly once.  The
     run is followed by the roll-back of each entry, in order.
     */
    method RunToEnd(ops: seq<Op>) returns (ok: bool, n: nat, ghost worlds: seq<World>, ghost effects: seq<Effect>)
      requires Valid() && entries == [] && forall k :: 0 <= k < |ops| ==> Allowed(ops[k], pq.ix.rl.nalloc)
      modifies this, ledger, reader, pq, pq.ix, pq.ix.Parts()
      ensures n <= |ops| && (ok && n < |ops| ==> ops[n].Commit? && !Agree(pq.ix.State()))
      ensures ok && n == |ops| ==>
                && Valid() && Open(pq.ix.State()) == {} && |ledger.settled| == ledger.next
                && (forall l: nat :: l < ledger.next <==> l in ledger.settled)
                && Trace(ops + Closing(|entries|), worlds, effects, pq.ix.align, pq.dataSize)
                && |effects| == |ops| + |entries| && worlds[0] == old(View()) && worlds[|effects|] == View()
      ensures (old(pq.Slack()) >= 6 * |ops| + 4 || old(Enduring()))
              && (forall k :: 0 <= k < |ops| ==> Sized(ops[k])) ==>
                ok
    {
      hide Crew, QueueIndexManager.Parts, QueueIndexManager.State, ProductQueue.Valid, Roster, ProductQueue.Slack;
      hide Agree, Enduring, View, Trace, Transition;
      ok, n, worlds, effects := Run(ops);
      if !ok || n < |ops| { return; }
      Lasting();
      var m := |entries|;
      ghost var all := ops + Closing(m);
      TraceLonger(ops, Closing(m), worlds, effects, pq.ix.align, pq.dataSize);
      ghost var slack := pq.Slack();
      for k := 0 to m
        invariant Valid() && ok && |entries| == m && (forall i :: 0 <= i < |entries| ==> fresh(entries[i]))
        invariant |Cards()| == m && forall i :: 0 <= i < k ==> !Cards()[i].live
        invariant pq.Slack() >= slack
        invariant Trace(all, worlds, effects, pq.ix.align, pq.dataSize) && |effects| == n + k == |worlds| - 1
        invariant worlds[0] == old(View()) && worlds[n + k] == View()
      {
        Outside();
        ok := DoRollback(k);
        if !ok { return; }
        RollbackSteps(k, worlds[n + k], View(), pq.ix.align, pq.dataSize);
        TraceGoesOn(all, worlds, effects, Nothing, View(), pq.ix.align, pq.dataSize);
        worlds, effects := worlds + [View()], effects + [Nothing];
      }
      RosterOver(pq.ix.State(), Cards(), ledger.next, ledger.settled);
    }
  }

  // ---------------------------------------------------------------------
  // New queues
  // ---------------------------------------------------------------------

  /**
   A new queue, and a run over it.  It goes through if the node arena was given six overflow blocks for each operation
   and ten more; or, however many operations there are, if it was given five for each product and twelve more, times
   two for each level above the first.
   */
  method NewQueueRun(n: nat, levels: nat, overflow: int, slack: int, rlChains: nat, sxChains: nat, start: int, end: int,
                     alignment: Unit, ops: seq<Op>)
    returns (s: Session, ok: bool, k: nat, ghost worlds: seq<World>, ghost effects: seq<Effect>)
    requires 4 <= n && 2 <= levels < FB_MAX_LEVELS && 6 <= overflow && 0 <= slack < levels && 0 < rlChains
             && 0 < sxChains
    requires 0 < start < end < RT.HUGE_OFF && (end - start) % 2 == 0 && forall i :: 0 <= i < |ops| ==>
               Allowed(ops[i], n)
    ensures k <= |ops| && (ok && k == |ops| ==> s.Valid())
            && (ok && k < |ops| ==> ops[k].Commit? && !Agree(s.pq.ix.State()))
    ensures ok ==>
              && Trace(ops, worlds, effects, alignment, end - start)
              && |effects| == (if k < |ops| then k + 1 else k) && worlds[|effects|] == s.View()
              && Untouched(worlds[0])
    ensures (overflow >= 6 * |ops| + 10 || overflow >= (5 * n + 12) * Pow2(levels - 1))
            && (forall i :: 0 <= i < |ops| ==> Sized(ops[i])) ==>
              ok
  {
    hide Session.Valid, Session.Crew, Session.View, ProductQueue.Valid, QueueIndexManager.State, Agree, Pow2, Trace;
    hide ProductQueue.Slack, FreeBlock.Books, FreeBlock.Room;
    ghost var endless := overflow >= (5 * n + 12) * Pow2(levels - 1) && overflow < 6 * |ops| + 10;
    ghost var limit := if endless then 5 * n + 12 else -1;
    var pq := new ProductQueue(n, levels, overflow, slack, rlChains, sxChains, start, end, alignment, limit);
    s := NewSession(pq);
    ok, k, worlds, effects := s.Run(ops);
  }

  method NewSession(pq: ProductQueue) returns (s: Session)
    requires pq.Valid() && pq.ix.State() == Ix(map[], {}, [], map[], map[])
    ensures fresh(s) && s.pq == pq && fresh(s.ledger) && fresh(s.reader) && s.entries == [] && s.Valid()
    ensures s.pq.Slack() == old(pq.ix.fb.Room()) && pq.ix.fb.Room() == old(pq.ix.fb.Room())
    ensures s.View() ==
            World(old(pq.ix.Now()), [], 0, [], NONE, old(pq.ix.smallestExtentSeen), old(pq.ix.isFull))
  {
    hide ProductQueue.Valid, QueueIndexManager.State, Roster, FreeBlock.Books, FreeBlock.Room;
    ghost var parts := pq.ix.Parts();
    var reader := new QueueCursor(pq);
    var ledger := new Ledger();
    s := new Session(pq, ledger, reader);
  }

  /**
   A new queue of more than 64 bytes, asked for no bytes at all: the region found is cut at 0, and the structure is
   torn.
   */
  method TornByNothing(n: nat, levels: nat, overflow: int, slack: int, rlChains: nat, sxChains: nat, start: int,
                       end: int, alignment: Unit, sig: SX.Signature)
    returns (ok: bool, torn: bool)
    requires 4 <= n && 2 <= levels < FB_MAX_LEVELS && 6 <= overflow && 0 <= slack < levels && 0 < rlChains
             && 0 < sxChains
    requires 0 < start < end < RT.HUGE_OFF && (end - start) % 2 == 0
    ensures torn <==> 64 < end - start
    ensures torn ==> !ok
  {
    hide QueueIndexManager.Sound, QueueIndexManager.State, Tears, RL.NoneFits, FreeBlock.Books, FreeBlock.Room;
    var pq := new ProductQueue(n, levels, overflow, slack, rlChains, sxChains, start, end, alignment, -1);
    pq.ix.EmptyTears();
    var ledger := new Ledger();
    var st, e;
    ghost var r;
    st, ok, torn, e, r := NewElementDirect(pq, ledger, 0, sig, {});
  }

  /**
   A new queue with one committed product, asked for a product as large as the data section: the size is allowed, but
   there is no place for the header beside it, so the product that was there is deleted and the request is refused.
   */
  method EmptiedForNothing(n: nat, levels: nat, overflow: int, slack: int, rlChains: nat, sxChains: nat, start: int,
                           end: int, alignment: Unit, first: Header, sz: nat, second: Header, headerSize: nat,
                           now: Timestamp)
    returns (pq: ProductQueue, st: Status, ghost before: Ix)
    requires 4 <= n && 2 <= levels < FB_MAX_LEVELS && 18 <= overflow && 0 <= slack < levels && 0 < rlChains
             && 0 < sxChains
    requires 0 < start < end < RT.HUGE_OFF && (end - start) % 2 == 0
    requires 0 < sz && 0 < headerSize && RoundUp(headerSize + sz, alignment) <= end - start
    requires first.signature != second.signature && !ENDT.Less(first.arrival) && !ENDT.Less(second.arrival)
    requires now.Normal() && !now.Less(ZERO) && now.Micros() + n < ENDT.Micros()
    ensures first.signature in before.sigs && before.sigs[first.signature] in Offsets(before.times)
    ensures st == NoMemory && pq.Valid() && pq.ix.State().used == {}
  {
    hide ProductQueue.Valid, QueueIndexManager.State, FreeBlock.Books, FreeBlock.Room, RoundUp, Agree, NewEntry;
    pq := new ProductQueue(n, levels, overflow, slack, rlChains, sxChains, start, end, alignment, -1);
    var ledger := new Ledger();
    FirstIn(pq, ledger, first, sz, headerSize, now);
    before := pq.ix.State();
    var ok, e;
    ghost var r;
    st, ok, e, r := NewElement(pq, ledger, second, pq.dataSize, headerSize, {});
  }

  /** Put a product into an empty queue. */
  method FirstIn(pq: ProductQueue, ledger: Ledger, info: Header, sz: nat, headerSize: nat, now: Timestamp)
    requires pq.Valid() && pq.ix.State() == Ix(map[], {}, [], map[], map[]) && pq.ix.fb.Room() >= 12
    requires 0 < sz && 0 < headerSize && RoundUp(headerSize + sz, pq.ix.align) <= pq.dataSize
    requires !ENDT.Less(info.arrival) && now.Normal() && !now.Less(ZERO)
             && now.Micros() + pq.ix.rl.nalloc < ENDT.Micros()
    modifies ledger, pq, pq.ix, pq.ix.Parts()
    ensures pq.Valid() && pq.ix.State().sigs.Keys == {info.signature} && Open(pq.ix.State()) == {}
    ensures pq.ix.State().sigs[info.signature] in Offsets(pq.ix.State().times)
    ensures pq.Slack() >= old(pq.ix.fb.Room()) - 10
  {
    hide ProductQueue.Valid, QueueIndexManager.State, FreeBlock.Books, FreeBlock.Room, RoundUp, Agree, NewEntry;
    hide WasCommitted, Turn, Open, QueueIndexManager.Parts, HeaderFits;
    ghost var x := pq.ix.State();
    NothingOpen(x);
    var st, ok, e, t;
    ghost var k, r;
    st, ok, e, r := NewElement(pq, ledger, info, sz, headerSize, {});
    ghost var x1 := pq.ix.State();
    QueueAgrees(pq);
    FirstEntry(x, x1, e.AsCard(), info.signature, ledger.next - 1);
    st, ok, t, k := e.Commit(now, true);
    FirstCommitted(x1, k, t, e.offset, info.signature, pq.ix.State());
  }

  lemma NothingOpen(x: Ix)
    requires x.used == {}
    ensures Open(x) == {}
  {
  }

  lemma FirstEntry(x: Ix, x': Ix, c: Card, sig: SX.Signature, lease: nat)
    requires NewEntry(x, x', c, sig, true, lease) && Open(x) == {} && Agree(x')
    ensures c.live && c.sig == sig && Lease(x', c.offset, sig) && Signed(x', c.offset, sig) && Open(x') == {c.offset}
    ensures HeaderFits(x', c.offset) && c.offset in x'.disk && sig in x'.sigs && x'.sigs[sig] == c.offset
  {
  }

  lemma FirstCommitted(x: Ix, k: nat, t: Timestamp, o: int, sig: SX.Signature, x': Ix)
    requires WasCommitted(x, k, t, o, x') && sig in x.sigs && x.sigs[sig] == o
    ensures x'.sigs == x.sigs && x'.used == x.used && o in Offsets(x'.times)
  {
    OffsetsInserted(x.times, k, TQ.Entry(t, o));
  }

  ghost predicate CardClosed(cards: seq<Card>, i: nat, cards': seq<Card>) {
    if i < |cards| then cards' == cards[i := cards[i].(live := false)] else cards' == cards
  }

  lemma NewCard(x: Ix, x': Ix, c: Card, sig: SX.Signature, written: bool, lease: nat)
    requires NewEntry(x, x', c, sig, written, lease)
    ensures c == Card(true, c.offset, sig, written, lease)
  {
  }

  lemma DeletingEvicts(x: Ix, c: Timestamp, mt: TQ.Match, wants: Header -> bool, busy: set<int>, j: nat, x': Ix,
                       c': Timestamp)
    requires Deleting(x, c, mt, wants, busy, Satisfied, j, x', c')
    ensures 0 < j && WasEvicted(x, j - 1, x')
  {
  }

  lemma EntryAdded(x: Ix, cards: seq<Card>, next: nat, settled: seq<nat>, c: Card, x': Ix, sig: SX.Signature,
                   written: bool)
    requires Roster(x, cards, next, settled) && NewEntry(x, x', c, sig, written, next)
    ensures Roster(x', cards + [c], next + 1, settled)
  {
    hide Turn;
    RosterNumbered(x, cards, next, settled);
    RosterAdded(x, cards, next, settled, c, x');
  }

  lemma RosterNumbered(x: Ix, cards: seq<Card>, next: nat, settled: seq<nat>)
    requires Roster(x, cards, next, settled)
    ensures next !in settled
  {
  }

  lemma CardGood(x: Ix, cards: seq<Card>, next: nat, settled: seq<nat>, i: nat)
    requires Roster(x, cards, next, settled) && i < |cards|
    ensures cards[i].live ==> Lease(x, cards[i].offset, cards[i].sig)
    ensures cards[i].live && cards[i].written ==> Signed(x, cards[i].offset, cards[i].sig)
  {
    assert GoodCard(x, cards[i], next, settled);
  }

  lemma LeaseFits(x: Ix, o: int, sig: SX.Signature)
    requires Lease(x, o, sig)
    ensures HeaderFits(x, o) <==> o in x.disk && x.disk[o].signature == sig
    ensures o in Open(x)
  {
  }

  lemma CommittedDisk(x: Ix, k: nat, t: Timestamp, o: int, x': Ix)
    requires WasCommitted(x, k, t, o, x') && Agree(x) && o in Open(x) && o in x.disk
    ensures x'.disk == x.disk && x'.used == x.used && (Agree(x') <==> HeaderFits(x, o))
  {
    CommittedExactly(x, k, t, o);
  }

  lemma ForgottenDisk(x: Ix, o: int, x': Ix)
    requires WasForgotten(x, o, x') && o in Open(x)
    ensures x'.disk == x.disk && |x'.used| == |x.used| - 1
  {
  }

  lemma EvictedCount(x: Ix, k: int, x': Ix)
    requires WasEvicted(x, k, x') && Agree(x)
    ensures |x'.used| == |x.used| - 1
  {
  }
}
