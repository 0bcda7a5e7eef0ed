/**
 The lease on a reserved region (storage/pq/QueueEntry.cpp) and the life of
 many of them: whatever is reserved is committed or rolled back once.
 */
module QueueEntries {
  import opened SkipTheory
  import opened FreeBlocks
  import opened Timestamps
  import opened IndexStates
  import opened QueueIndexManagers
  import opened ProductQueues
  import RL = RegionLists
  import TQ = TimeQueues
  import SX = SignatureIndexes

  /** What matters about an entry: whether it still holds its region, and for which product. */
  datatype Card = Card(live: bool, offset: int, sig: SX.Signature, written: bool, lease: nat)

  /** Every lease ever given out has a number; the ones that have taken effect are listed in that order. */
  class Ledger {
    ghost var next: nat
    ghost var settled: seq<nat>

    constructor ()
      ensures next == 0 && settled == []
    {
      next, settled := 0, [];
    }
  }

  class QueueEntry {
    const pq: ProductQueue
    const ledger: Ledger
    var offset: int
    var sig: SX.Signature
    /** The entry holds its mapped region. */
    var region: bool
    var written: bool
    var isCommitted: bool
    var callbacks: bool
    ghost var lease: nat

    ghost function AsCard(): Card
      reads this
    {
      Card(region, offset, sig, written, lease)
    }

    ghost predicate Sane()
      reads this
    {
      region ==> callbacks && !isCommitted
    }

    constructor (q: ProductQueue, l: Ledger, o: int, s: SX.Signature, headerWritten: bool)
      modifies l
      ensures pq == q && ledger == l && AsCard() == Card(true, o, s, headerWritten, old(l.next)) && Sane()
      ensures l.next == old(l.next) + 1 && l.settled == old(l.settled)
    {
      pq, ledger, offset, sig, written := q, l, o, s, headerWritten;
      region, isCommitted, callbacks, lease := true, false, true, l.next;
      new;
      l.next := l.next + 1;
    }

    /** Commit: the first call passes the region on, later ones do nothing. */
    method Commit(now: Timestamp, fits: bool) returns (st: Status, ok: bool, t: Timestamp, ghost k: nat)
      requires pq.Valid() && Sane() && (region ==> Lease(pq.ix.State(), offset, sig))
      requires now.Normal() && !now.Less(ZERO) && now.Micros() + pq.ix.rl.nalloc < ENDT.Micros()
      modifies this, ledger, pq, pq.ix`owner, pq.ix.Parts()
      ensures Sane() && AsCard() == old(AsCard()).(live := false)
      ensures !old(region) ==>
                && ok && st == (if old(isCommitted) then Success else Invalid) && isCommitted == old(isCommitted)
                && pq.Valid() && pq.ix.Now() == old(pq.ix.Now()) && ledger.settled == old(ledger.settled)
                && ledger.next == old(ledger.next)
      ensures old(region) && ok ==>
                && (pq.Valid() <==> st != Success || HeaderFits(old(pq.ix.State()), offset))
                && LeasesKeptBut(old(pq.ix.State()), offset, pq.ix.State())
                && Open(pq.ix.State()) == Open(old(pq.ix.State())) - {offset}
                && ledger.settled == old(ledger.settled) + [lease] && ledger.next == old(ledger.next)
                && st == (if offset !in old(pq.ix.State()).disk then Corrupt else if !fits then Big else Success)
                && isCommitted == (st == Success)
                && (if st == Success then
                      && WasCommitted(old(pq.ix.State()), k, t, offset, pq.ix.State())
                      && TQ.LeastUnused(old(pq.ix.State()).times, now, t)
                    else WasForgotten(old(pq.ix.State()), offset, pq.ix.State()))
      ensures ok ==> pq.ix.fb.Room() >= old(pq.ix.fb.Room()) - 4
      ensures old(pq.ix.fb.Room()) > 3 ==> ok
    {
      hide ProductQueue.Valid, QueueIndexManager.State, Open, LeasesKeptBut, WasCommitted, WasForgotten, HeaderFits;
      hide TQ.LeastUnused;
      Apart();
      ok, t, k := true, NONE, 0;
      if isCommitted { return Success, ok, t, k; }
      if !callbacks || !region { return Invalid, ok, t, k; }
      pq.ix.StateDisk();
      st, ok, t, k := pq.CommitEntry(offset, sig, now, fits);
      Settle(st == Success);
    }

    /** Roll back, if the entry still holds its region. */
    method Rollback() returns (ok: bool)
      requires pq.Valid() && Sane() && (region ==> Lease(pq.ix.State(), offset, sig))
      modifies this, ledger, pq, pq.ix`owner, pq.ix.Parts()
      ensures Sane() && AsCard() == old(AsCard()).(live := false)
      ensures !old(region) ==>
                && ok && isCommitted == old(isCommitted) && callbacks == old(callbacks)
                && pq.Valid() && pq.ix.Now() == old(pq.ix.Now()) && ledger.settled == old(ledger.settled)
                && ledger.next == old(ledger.next)
      ensures old(region) && ok ==>
                && pq.Valid() && LeasesKeptBut(old(pq.ix.State()), offset, pq.ix.State())
                && Open(pq.ix.State()) == Open(old(pq.ix.State())) - {offset}
                && ledger.settled == old(ledger.settled) + [lease] && ledger.next == old(ledger.next) && !isCommitted
                && WasForgotten(old(pq.ix.State()), offset, pq.ix.State())
      ensures ok ==> pq.ix.fb.Room() >= old(pq.ix.fb.Room()) - 4
      ensures old(pq.ix.fb.Room()) > 3 ==> ok
    {
      hide ProductQueue.Valid, QueueIndexManager.State, Open, LeasesKeptBut, WasForgotten;
      Apart();
      ok := true;
      if isCommitted || !callbacks || !region { return; }
      ok := pq.RollbackEntry(offset, sig);
      Settle(false);
      Unhook();
    }

    method Unhook()
      modifies this`callbacks
      ensures !callbacks && pq.ix.Now() == old(pq.ix.Now()) && (old(pq.Valid()) ==> pq.Valid())
    {
      hide ProductQueue.Valid, QueueIndexManager.State;
      ghost var parts := pq.ix.Parts();
      callbacks := false;
    }

    /** The end of the entry: an uncommitted region is given back. */
    method Destroy() returns (ok: bool)
      requires pq.Valid() && Sane() && (region ==> Lease(pq.ix.State(), offset, sig))
      modifies this, ledger, pq, pq.ix`owner, pq.ix.Parts()
      ensures Sane() && AsCard() == old(AsCard()).(live := false)
      ensures !old(region) ==>
                && ok && pq.Valid() && pq.ix.Now() == old(pq.ix.Now()) && ledger.settled == old(ledger.settled)
                && ledger.next == old(ledger.next)
      ensures old(region) && ok ==>
                && pq.Valid() && LeasesKeptBut(old(pq.ix.State()), offset, pq.ix.State())
                && Open(pq.ix.State()) == Open(old(pq.ix.State())) - {offset}
                && ledger.settled == old(ledger.settled) + [lease] && ledger.next == old(ledger.next)
                && WasForgotten(old(pq.ix.State()), offset, pq.ix.State())
      ensures ok ==> pq.ix.fb.Room() >= old(pq.ix.fb.Room()) - 4
      ensures old(pq.ix.fb.Room()) > 3 ==> ok
    {
      hide ProductQueue.Valid, QueueIndexManager.State, Open, LeasesKeptBut, WasForgotten;
      Apart();
      ok := true;
      if !isCommitted && region && callbacks { ok := Rollback(); }
    }

    /** Take over another entry's lease; the own one, if any, is rolled back first. */
    method MoveFrom(other: QueueEntry) returns (ok: bool)
      requires other != this && other.pq == pq && other.ledger == ledger
      requires pq.Valid() && Sane() && (region ==> Lease(pq.ix.State(), offset, sig)) && other.Sane()
      modifies this, other, ledger, pq, pq.ix`owner, pq.ix.Parts()
      ensures Sane() && other.Sane() && AsCard() == old(other.AsCard())
              && other.AsCard() == old(other.AsCard()).(live := false)
      ensures !old(region) ==>
                && ok && pq.Valid() && pq.ix.Now() == old(pq.ix.Now()) && ledger.settled == old(ledger.settled)
                && ledger.next == old(ledger.next)
      ensures old(region) && ok ==>
                && pq.Valid() && LeasesKeptBut(old(pq.ix.State()), old(offset), pq.ix.State())
                && Open(pq.ix.State()) == Open(old(pq.ix.State())) - {old(offset)}
                && ledger.settled == old(ledger.settled) + [old(lease)] && ledger.next == old(ledger.next)
                && WasForgotten(old(pq.ix.State()), old(offset), pq.ix.State())
      ensures ok ==> pq.ix.fb.Room() >= old(pq.ix.fb.Room()) - 4
      ensures old(pq.ix.fb.Room()) > 3 ==> ok
    {
      hide ProductQueue.Valid, QueueIndexManager.State, Open, LeasesKeptBut, WasForgotten;
      Apart();
      other.Apart();
      ok := Rollback();
      Take(other);
    }

    method Take(other: QueueEntry)
      requires other != this && other.pq == pq
      modifies this, other
      ensures AsCard() == old(other.AsCard()) && isCommitted == old(other.isCommitted)
              && callbacks == old(other.callbacks)
      ensures other.AsCard() == old(other.AsCard()).(live := false)
      ensures pq.ix.Now() == old(pq.ix.Now()) && (old(pq.Valid()) ==> pq.Valid())
    {
      hide ProductQueue.Valid, QueueIndexManager.State;
      ghost var parts := pq.ix.Parts();
      TakeFields(other);
    }

    method TakeFields(other: QueueEntry)
      requires other != this
      modifies this, other
      ensures AsCard() == old(other.AsCard()) && isCommitted == old(other.isCommitted)
              && callbacks == old(other.callbacks)
      ensures other.AsCard() == old(other.AsCard()).(live := false)
    {
      region, offset, sig, written, lease := other.region, other.offset, other.sig, other.written, other.lease;
      isCommitted, callbacks := other.isCommitted, other.callbacks;
      other.region, other.isCommitted, other.callbacks := false, false, false;
    }

    /** The writer fills in the region; `written` says whether with a header of the product it was reserved for. */
    method Write(b: Bytes)
      requires pq.Valid() && region && Lease(pq.ix.State(), offset, sig)
               && (b.Encoded? ==> !ENDT.Less(b.header.arrival))
      modifies this`written, pq.ix`disk
      ensures pq.Valid() && written == (b.Encoded? && b.header.signature == sig)
      ensures LeasesKept(old(pq.ix.State()), pq.ix.State()) && Open(pq.ix.State()) == Open(old(pq.ix.State()))
      ensures pq.ix.State() == old(pq.ix.State()).(disk := Stored(old(pq.ix.State()).disk, offset, b))
      ensures pq.ix.fb.Room() == old(pq.ix.fb.Room())
    {
      hide ProductQueue.Valid, QueueIndexManager.State, Open, LeasesKept;
      LeaseUsed(pq.ix.State(), offset, sig);
      pq.WriteHeader(offset, b);
      MarkWritten(b.Encoded? && b.header.signature == sig);
    }

    method MarkWritten(fits: bool)
      modifies this`written
      ensures written == fits && pq.ix.Now() == old(pq.ix.Now()) && (old(pq.Valid()) ==> pq.Valid())
    {
      hide ProductQueue.Valid, QueueIndexManager.State;
      ghost var parts := pq.ix.Parts();
      written := fits;
    }

    lemma Apart()
      ensures this !in pq.ix.Parts() && ledger !in pq.ix.Parts()
    {
    }

    /** The lease is over. */
    method Settle(success: bool)
      modifies this, ledger
      ensures AsCard() == old(AsCard()).(live := false) && isCommitted == success && callbacks == old(callbacks)
      ensures ledger.settled == old(ledger.settled) + [lease] && ledger.next == old(ledger.next)
      ensures pq.ix.Now() == old(pq.ix.Now()) && (old(pq.Valid()) <==> pq.Valid())
    {
      hide ProductQueue.Valid, QueueIndexManager.State;
      ghost var parts := pq.ix.Parts();
      region := false;
      isCommitted := success;
      ledger.settled := ledger.settled + [lease];
    }
  }

  /** The region at `o` holds a header with this signature. */
  ghost predicate Signed(x: Ix, o: int, sig: SX.Signature) {
    o in x.disk && x.disk[o].signature == sig
  }

  // ---------------------------------------------------------------------
  // What one operation does to the leases
  // ---------------------------------------------------------------------

  /** The leases on `closed` end, regions in `started` become reserved, and other leases and their headers stay. */
  ghost predicate Turn(x: Ix, closed: set<int>, started: set<int>, x': Ix) {
    && (forall o, sig :: Lease(x, o, sig) && o !in closed ==> Lease(x', o, sig))
    && (forall o, sig :: Lease(x, o, sig) && o !in closed && Signed(x, o, sig) ==> Signed(x', o, sig))
    && Open(x') == Open(x) - closed + started
  }

  lemma TurnSelf(x: Ix)
    ensures Turn(x, {}, {}, x)
  {
  }

  lemma TurnClosed(x: Ix, o: int, x': Ix)
    requires LeasesKeptBut(x, o, x') && x'.disk == x.disk && Open(x') == Open(x) - {o}
    ensures Turn(x, {o}, {}, x')
  {
  }

  /** All leases stay, and the headers of all regions but the one at `o`. */
  ghost predicate Rewritten(x: Ix, o: int, x': Ix) {
    && LeasesKept(x, x') && Open(x') == Open(x)
    && forall p, sig :: p != o && Signed(x, p, sig) ==> Signed(x', p, sig)
  }

  lemma HeaderWritten(x: Ix, o: int, b: Bytes, x': Ix)
    requires LeasesKept(x, x') && x'.disk == Stored(x.disk, o, b) && Open(x') == Open(x)
    ensures Rewritten(x, o, x') && (b.Encoded? ==> Signed(x', o, b.header.signature))
  {
  }

  /** A header was written into a region that `x` did not have reserved. */
  lemma TurnSigned(x: Ix, x1: Ix, o: int, h: Header, x': Ix)
    requires Turn(x, {}, {o}, x1) && o !in Open(x) && LeasesKept(x1, x') && Open(x') == Open(x1)
             && x'.disk == x1.disk[o := h]
    ensures Turn(x, {}, {o}, x')
  {
    forall p, sig | Lease(x, p, sig) ensures Lease(x', p, sig) && (Signed(x, p, sig) ==> Signed(x', p, sig)) {
      assert Lease(x1, p, sig) && p != o;
    }
  }

  lemma TurnEvicted(x: Ix, k: int, x': Ix)
    requires Agree(x) && WasEvicted(x, k, x')
    ensures Turn(x, {}, {}, x')
  {
    EvictedAgrees(x, k);
    EvictedLeases(x, k);
  }

  lemma TurnAllocated(st: Status, a: Moment, b: Moment, sig: SX.Signature, offset: int, lo: int, highwater: int)
    requires AllocationKeeps(st, a, b, sig, offset, lo, highwater)
    ensures Turn(a.x, {}, if st == Success then {offset} else {}, b.x)
    ensures st == Success ==> Lease(b.x, offset, sig) && offset !in Open(a.x) && offset in Open(b.x)
  {
  }

  // ---------------------------------------------------------------------
  // Reserving
  // ---------------------------------------------------------------------

  /** A new entry with the next lease number, on a region that was not reserved before. */
  ghost predicate NewEntry(x: Ix, x': Ix, c: Card, sig: SX.Signature, written: bool, lease: nat) {
    && c == Card(true, c.offset, sig, written, lease) && c.offset !in Open(x) && Turn(x, {}, {c.offset}, x')
    && Lease(x', c.offset, sig)
    && (written ==> Signed(x', c.offset, sig))
  }

  /** How a reservation went: what was evicted, what was left then, and which region was given out. */
  datatype Receipt = Receipt(mid: Moment, trail: seq<Moment>, gone: seq<int>, offset: int, granted: int)

  /** The reservation `ask` ended with `st` and this receipt, and `noted` is the smallest request from then on. */
  ghost predicate Booking(st: Status, a: Moment, ask: Ask, r: Receipt, noted: int) {
    Allocation(st, a, r.mid, ask, r.trail, r.gone, r.offset, r.granted, noted)
  }

  /** Reserve a region for a product that its owner will write. */
  method NewElementDirect(pq: ProductQueue, ledger: Ledger, size: nat, sig: SX.Signature, busy: set<int>)
    returns (st: Status, ok: bool, torn: bool, e: QueueEntry?, ghost r: Receipt)
    requires pq.Valid()
    modifies ledger, pq, pq.ix, pq.ix.Parts()
    ensures ok ==> pq.Valid() && ledger.settled == old(ledger.settled)
    ensures ok && st != Success ==>
              e == null && Turn(old(pq.ix.State()), {}, {}, pq.ix.State())
              && ledger.next == old(ledger.next)
    ensures ok && st == Success ==>
              && e != null && fresh(e) && e.pq == pq && e.ledger == ledger && e.Sane()
              && ledger.next == old(ledger.next) + 1
              && NewEntry(old(pq.ix.State()), pq.ix.State(), e.AsCard(), sig, false, old(ledger.next))
    ensures ok && size <= pq.dataSize ==>
              && Booking(st, old(pq.ix.Now()),
                         Ask(sig, RoundUp(size, pq.ix.align), old(pq.ix.smallestExtentSeen), pq.dataSize, busy), r,
                         pq.ix.smallestExtentSeen)
              && pq.ix.State() == r.mid.x && pq.ix.rl.m == r.mid.s.m && (e != null ==> e.offset == r.offset)
    ensures size > pq.dataSize ==>
              st == Big && ok && pq.ix.Now() == old(pq.ix.Now())
              && pq.ix.smallestExtentSeen == old(pq.ix.smallestExtentSeen) && r.gone == []
    ensures size <= pq.dataSize && sig in old(pq.ix.State()).sigs ==> st == Dup && ok
    ensures ok && busy == {} && Open(old(pq.ix.State())) == {} && sig !in old(pq.ix.State()).sigs
            && size <= pq.dataSize ==>
              && (st == Success <==> RoundUp(size, pq.ix.align) <= pq.dataSize)
              && (st != Success ==> st == NoMemory && pq.ix.State().used == {})
    ensures ok ==> pq.ix.State().sigs.Keys <= old(pq.ix.State()).sigs.Keys + {sig}
    ensures ok ==> pq.Slack() >= old(pq.Slack()) - 6 && (pq.ix.isFull <==> old(pq.ix.isFull) || r.gone != [])
    ensures torn ==>
              !ok && |r.trail| == |r.gone| + 1
              && Story(r.trail, r.gone, busy, old(pq.ix.Now()), r.trail[|r.gone|])
    ensures (ok || torn) && sig !in old(pq.ix.State()).sigs && size <= pq.dataSize ==>
              && |r.trail| == |r.gone| + 1
              && (torn <==> st == Success && size == 0 && Tears(r.trail[|r.gone|].s.m))
    ensures size == 0 <= pq.dataSize && sig !in old(pq.ix.State()).sigs && old(pq.ix.rl.nempty) > 0
            && !RL.NoneFits(old(pq.ix.rl.m), 0) ==>
              (torn <==> Tears(old(pq.ix.rl.m)))
    ensures old(pq.Slack()) >= 2 && !torn ==> ok
  {
    hide ProductQueue.Valid, QueueIndexManager.State, QueueIndexManager.Parts, Open, Allocation, AllocationKeeps, Turn;
    hide Lease, Tears, Story, RoundUp, RL.NoneFits, FreeBlock.Books, FreeBlock.Room;
    LedgerApart(pq, ledger);
    ghost var a, hw := pq.ix.Now(), pq.highwater;
    st, ok, torn, e, r := Big, true, false, null, Receipt(a, [], [], 0, 0);
    TurnSelf(pq.ix.State());
    if size > pq.dataSize { return; }
    var offset, granted;
    ghost var mid, trail, gone;
    st, ok, torn, offset, granted, mid, trail, gone := pq.Reserve(size, sig, busy);
    r := Receipt(mid, trail, gone, offset, granted);
    if !ok { return; }
    TurnAllocated(st, a, mid, sig, offset, pq.ix.rl.lo, hw);
    if st != Success { return; }
    e := MakeEntry(pq, ledger, offset, sig, false);
  }

  lemma LedgerApart(pq: ProductQueue, ledger: Ledger)
    ensures ledger !in pq.ix.Parts()
  {
  }

  /** Make the entry. */
  method MakeEntry(pq: ProductQueue, ledger: Ledger, offset: int, sig: SX.Signature, written: bool)
    returns (e: QueueEntry)
    requires pq.Valid()
    modifies ledger
    ensures fresh(e) && e.pq == pq && e.ledger == ledger && e.Sane()
            && e.AsCard() == Card(true, offset, sig, written, old(ledger.next))
    ensures ledger.next == old(ledger.next) + 1 && ledger.settled == old(ledger.settled)
    ensures pq.Valid() && pq.ix.Now() == old(pq.ix.Now())
  {
    hide ProductQueue.Valid, QueueIndexManager.State;
    ghost var parts := pq.ix.Parts();
    e := new QueueEntry(pq, ledger, offset, sig, written);
  }

  /** Reserve a region for a product of `sz` bytes and write its header. */
  method NewElement(pq: ProductQueue, ledger: Ledger, info: Header, sz: nat, headerSize: nat, busy: set<int>)
    returns (st: Status, ok: bool, e: QueueEntry?, ghost r: Receipt)
    requires pq.Valid() && 0 < headerSize && !ENDT.Less(info.arrival)
    modifies ledger, pq, pq.ix, pq.ix.Parts()
    ensures ok ==> pq.Valid() && ledger.settled == old(ledger.settled)
    ensures ok && st != Success ==>
              e == null && Turn(old(pq.ix.State()), {}, {}, pq.ix.State())
              && ledger.next == old(ledger.next)
    ensures ok && st == Success ==>
              && e != null && fresh(e) && e.pq == pq && e.ledger == ledger && e.Sane()
              && ledger.next == old(ledger.next) + 1
              && NewEntry(old(pq.ix.State()), pq.ix.State(), e.AsCard(), info.signature, true, old(ledger.next))
    ensures ok && 0 < sz <= pq.dataSize ==>
              && Booking(st, old(pq.ix.Now()),
                         Ask(info.signature, RoundUp(headerSize + sz, pq.ix.align), old(pq.ix.smallestExtentSeen),
                             pq.dataSize, busy), r, pq.ix.smallestExtentSeen)
              && pq.ix.rl.m == r.mid.s.m && (e != null ==> e.offset == r.offset)
              && pq.ix.State() ==
                 if st == Success then r.mid.x.(disk := r.mid.x.disk[r.offset := info]) else r.mid.x
    ensures sz == 0 ==> st == Invalid
    ensures sz > pq.dataSize && sz != 0 ==> st == Big
    ensures sz == 0 || sz > pq.dataSize ==>
              ok && pq.ix.Now() == old(pq.ix.Now()) && pq.ix.smallestExtentSeen == old(pq.ix.smallestExtentSeen)
              && r.gone == []
    ensures 0 < sz <= pq.dataSize && info.signature in old(pq.ix.State()).sigs ==> st == Dup && ok
    ensures ok && busy == {} && Open(old(pq.ix.State())) == {} && info.signature !in old(pq.ix.State()).sigs
            && 0 < sz <= pq.dataSize ==>
              && (st == Success <==> RoundUp(headerSize + sz, pq.ix.align) <= pq.dataSize)
              && (st != Success ==> st == NoMemory && pq.ix.State().used == {})
    ensures ok ==> pq.ix.State().sigs.Keys <= old(pq.ix.State()).sigs.Keys + {info.signature}
    ensures ok ==> pq.Slack() >= old(pq.Slack()) - 6 && (pq.ix.isFull <==> old(pq.ix.isFull) || r.gone != [])
    ensures old(pq.Slack()) >= 2 ==> ok
  {
    hide ProductQueue.Valid, QueueIndexManager.State, QueueIndexManager.Parts, Open, Allocation, AllocationKeeps, Turn;
    hide Lease, LeasesKept, Tears, Story, RoundUp, RL.NoneFits, FreeBlock.Books, FreeBlock.Room;
    LedgerApart(pq, ledger);
    ghost var a, hw := pq.ix.Now(), pq.highwater;
    st, ok, e, r := Invalid, true, null, Receipt(a, [], [], 0, 0);
    TurnSelf(pq.ix.State());
    if sz == 0 { return; }
    if sz > pq.dataSize { return Big, ok, e, r; }
    var offset, granted, torn;
    ghost var mid, trail, gone;
    st, ok, torn, offset, granted, mid, trail, gone := pq.Reserve(headerSize + sz, info.signature, busy);
    r := Receipt(mid, trail, gone, offset, granted);
    if !ok { return; }
    TurnAllocated(st, a, mid, info.signature, offset, pq.ix.rl.lo, hw);
    if st != Success { return; }
    pq.WriteHeader(offset, Encoded(info));
    LeaseKept(mid.x, pq.ix.State(), offset, info.signature);
    TurnSigned(a.x, mid.x, offset, info, pq.ix.State());
    e := MakeEntry(pq, ledger, offset, info.signature, true);
  }

  lemma LeaseKept(x: Ix, x': Ix, o: int, sig: SX.Signature)
    requires LeasesKept(x, x') && Lease(x, o, sig)
    ensures Lease(x', o, sig)
  {
  }

  // ---------------------------------------------------------------------
  // Many entries
  // ---------------------------------------------------------------------

  ghost predicate GoodCard(x: Ix, c: Card, next: nat, settled: seq<nat>) {
    c.live ==>
       Lease(x, c.offset, c.sig) && c.lease < next && c.lease !in settled
       && (c.written ==> Signed(x, c.offset, c.sig))
  }

  ghost predicate Apart(c: Card, d: Card) {
    c.live && d.live ==> c.offset != d.offset && c.lease != d.lease
  }

  ghost predicate HoldsRegion(cards: seq<Card>, i: nat, o: int) {
    i < |cards| && cards[i].live && cards[i].offset == o
  }

  ghost predicate HoldsLease(cards: seq<Card>, i: nat, l: nat) {
    i < |cards| && cards[i].live && cards[i].lease == l
  }

  ghost predicate AllGood(x: Ix, cards: seq<Card>, next: nat, settled: seq<nat>) {
    forall i :: 0 <= i < |cards| ==> GoodCard(x, cards[i], next, settled)
  }

  ghost predicate AllApart(cards: seq<Card>) {
    forall i, j :: 0 <= i < j < |cards| ==> Apart(cards[i], cards[j])
  }

  ghost predicate RegionsHeld(open: set<int>, cards: seq<Card>) {
    forall o :: o in open ==> exists i: nat :: HoldsRegion(cards, i, o)
  }

  ghost predicate LeasesHeld(cards: seq<Card>, next: nat, settled: seq<nat>) {
    forall l: nat :: l < next && l !in settled ==> exists i: nat :: HoldsLease(cards, i, l)
  }

  ghost predicate Numbered(next: nat, settled: seq<nat>) {
    && (forall i :: 0 <= i < |settled| ==> settled[i] < next)
    && (forall i, j :: 0 <= i < j < |settled| ==> settled[i] != settled[j])
  }

  /**
   The live entries hold the reserved regions, one each, and all of them; and every lease ever given out is held
   by one live entry or has taken effect, once.
   */
  ghost predicate Roster(x: Ix, cards: seq<Card>, next: nat, settled: seq<nat>) {
    && AllGood(x, cards, next, settled) && AllApart(cards)
    && RegionsHeld(Open(x), cards) && LeasesHeld(cards, next, settled) && Numbered(next, settled)
  }

  lemma RosterSame(x: Ix, cards: seq<Card>, next: nat, settled: seq<nat>, x': Ix)
    requires Roster(x, cards, next, settled) && Turn(x, {}, {}, x')
    ensures Roster(x', cards, next, settled)
  {
    hide AllApart, LeasesHeld, Numbered, RegionsHeld;
    forall i | 0 <= i < |cards| ensures GoodCard(x', cards[i], next, settled) {
      assert GoodCard(x, cards[i], next, settled);
    }
    assert Open(x') == Open(x);
  }

  /** The same entries hold the same regions and leases. */
  ghost predicate SameHolders(cards: seq<Card>, cards': seq<Card>) {
    && |cards'| == |cards|
    && forall i :: 0 <= i < |cards| ==>
         cards'[i].live == cards[i].live && cards'[i].offset == cards[i].offset && cards'[i].lease == cards[i].lease
  }

  lemma HoldersSame(open: set<int>, cards: seq<Card>, cards': seq<Card>, next: nat, settled: seq<nat>)
    requires SameHolders(cards, cards') && RegionsHeld(open, cards) && LeasesHeld(cards, next, settled)
    ensures RegionsHeld(open, cards') && LeasesHeld(cards', next, settled)
  {
    forall o | o in open ensures exists i: nat :: HoldsRegion(cards', i, o) {
      var i: nat :| HoldsRegion(cards, i, o);
      assert HoldsRegion(cards', i, o);
    }
    forall l: nat | l < next && l !in settled ensures exists i: nat :: HoldsLease(cards', i, l) {
      var i: nat :| HoldsLease(cards, i, l);
      assert HoldsLease(cards', i, l);
    }
  }

  lemma HoldersMore(open: set<int>, cards: seq<Card>, c: Card, next: nat, settled: seq<nat>)
    requires RegionsHeld(open, cards) && LeasesHeld(cards, next, settled) && c.live && c.lease == next
    ensures RegionsHeld(open + {c.offset}, cards + [c]) && LeasesHeld(cards + [c], next + 1, settled)
  {
    var all := cards + [c];
    assert HoldsRegion(all, |cards|, c.offset) && HoldsLease(all, |cards|, next);
    forall o | o in open ensures exists i: nat :: HoldsRegion(all, i, o) {
      var i: nat :| HoldsRegion(cards, i, o);
      assert HoldsRegion(all, i, o);
    }
    forall l: nat | l < next && l !in settled ensures exists i: nat :: HoldsLease(all, i, l) {
      var i: nat :| HoldsLease(cards, i, l);
      assert HoldsLease(all, i, l);
    }
  }

  lemma HoldersFewer(open: set<int>, cards: seq<Card>, k: nat, next: nat, settled: seq<nat>)
    requires RegionsHeld(open, cards) && LeasesHeld(cards, next, settled) && k < |cards|
    ensures RegionsHeld(open - {cards[k].offset}, cards[k := cards[k].(live := false)])
    ensures LeasesHeld(cards[k := cards[k].(live := false)], next, settled + [cards[k].lease])
  {
    var all, done := cards[k := cards[k].(live := false)], settled + [cards[k].lease];
    forall o | o in open && o != cards[k].offset ensures exists i: nat :: HoldsRegion(all, i, o) {
      var i: nat :| HoldsRegion(cards, i, o);
      assert HoldsRegion(all, i, o);
    }
    forall l: nat | l < next && l !in done ensures exists i: nat :: HoldsLease(all, i, l) {
      assert l !in settled && l != done[|settled|];
      var i: nat :| HoldsLease(cards, i, l);
      assert HoldsLease(all, i, l);
    }
  }

  lemma HoldersMoved(open: set<int>, cards: seq<Card>, k: nat, j: nat, next: nat, settled: seq<nat>)
    requires RegionsHeld(open, cards) && LeasesHeld(cards, next, settled) && k < |cards| && j < |cards| && j != k
             && !cards[k].live
    ensures RegionsHeld(open, cards[k := cards[j]][j := cards[j].(live := false)])
    ensures LeasesHeld(cards[k := cards[j]][j := cards[j].(live := false)], next, settled)
  {
    var all := cards[k := cards[j]][j := cards[j].(live := false)];
    forall o | o in open ensures exists i: nat :: HoldsRegion(all, i, o) {
      var i: nat :| HoldsRegion(cards, i, o);
      assert HoldsRegion(all, if i == j then k else i, o);
    }
    forall l: nat | l < next && l !in settled ensures exists i: nat :: HoldsLease(all, i, l) {
      var i: nat :| HoldsLease(cards, i, l);
      assert HoldsLease(all, if i == j then k else i, l);
    }
  }

  lemma RosterAdded(x: Ix, cards: seq<Card>, next: nat, settled: seq<nat>, c: Card, x': Ix)
    requires Roster(x, cards, next, settled) && Turn(x, {}, {c.offset}, x') && c.offset !in Open(x)
    requires c.live && c.lease == next && GoodCard(x', c, next + 1, settled)
    ensures Roster(x', cards + [c], next + 1, settled)
  {
    hide RegionsHeld, LeasesHeld;
    var all := cards + [c];
    HoldersMore(Open(x), cards, c, next, settled);
    assert Open(x') == Open(x) + {c.offset};
    forall i | 0 <= i < |cards| ensures GoodCard(x', cards[i], next + 1, settled) && Apart(cards[i], c) {
      assert GoodCard(x, cards[i], next, settled);
    }
  }

  lemma RosterClosed(x: Ix, cards: seq<Card>, next: nat, settled: seq<nat>, k: nat, x': Ix)
    requires Roster(x, cards, next, settled) && k < |cards| && cards[k].live && Turn(x, {cards[k].offset}, {}, x')
    ensures Roster(x', cards[k := cards[k].(live := false)], next, settled + [cards[k].lease])
  {
    hide RegionsHeld, LeasesHeld;
    var c := cards[k];
    HoldersFewer(Open(x), cards, k, next, settled);
    assert Open(x') == Open(x) - {c.offset};
    assert GoodCard(x, c, next, settled);
    forall i | 0 <= i < |cards| && i != k ensures GoodCard(x', cards[i], next, settled + [c.lease]) {
      assert GoodCard(x, cards[i], next, settled);
      assert Apart(cards[if i < k then i else k], cards[if i < k then k else i]);
    }
  }

  lemma RosterWritten(x: Ix, cards: seq<Card>, next: nat, settled: seq<nat>, k: nat, w: bool, x': Ix)
    requires Roster(x, cards, next, settled) && k < |cards| && cards[k].live && Rewritten(x, cards[k].offset, x')
    requires w ==> Signed(x', cards[k].offset, cards[k].sig)
    ensures Roster(x', cards[k := cards[k].(written := w)], next, settled)
  {
    hide RegionsHeld, LeasesHeld, Numbered;
    var all := cards[k := cards[k].(written := w)];
    HoldersSame(Open(x), cards, all, next, settled);
    assert Open(x') == Open(x);
    forall i | 0 <= i < |all| ensures GoodCard(x', all[i], next, settled) {
      assert GoodCard(x, cards[i], next, settled);
      if i < k { assert Apart(cards[i], cards[k]); }
      if k < i { assert Apart(cards[k], cards[i]); }
    }
    forall i, j | 0 <= i < j < |all| ensures Apart(all[i], all[j]) {
      assert Apart(cards[i], cards[j]);
    }
  }

  /** A lease moves from entry `j` to entry `k`, which holds none. */
  lemma RosterMoved(x: Ix, cards: seq<Card>, next: nat, settled: seq<nat>, k: nat, j: nat)
    requires Roster(x, cards, next, settled) && k < |cards| && j < |cards| && j != k && !cards[k].live
    ensures Roster(x, cards[k := cards[j]][j := cards[j].(live := false)], next, settled)
  {
    hide RegionsHeld, LeasesHeld, Numbered;
    var all := cards[k := cards[j]][j := cards[j].(live := false)];
    HoldersMoved(Open(x), cards, k, j, next, settled);
    forall a, b | 0 <= a < b < |all| ensures Apart(all[a], all[b]) {
      var a', b' := if a == k then j else a, if b == k then j else b;
      if a' < b' { assert Apart(cards[a'], cards[b']); }
      if b' < a' { assert Apart(cards[b'], cards[a']); }
    }
    assert GoodCard(x, cards[j], next, settled);
  }

  /** Once no entry is live, nothing is reserved, and every lease has taken effect exactly once. */
  lemma RosterOver(x: Ix, cards: seq<Card>, next: nat, settled: seq<nat>)
    requires Roster(x, cards, next, settled) && forall i :: 0 <= i < |cards| ==> !cards[i].live
    ensures Open(x) == {} && |settled| == next && (forall l: nat :: l < next <==> l in settled)
  {
    assert forall i: nat, o :: !HoldsRegion(cards, i, o);
    assert forall i: nat, l: nat :: !HoldsLease(cards, i, l);
    assert forall o :: o !in Open(x);
    CountLeases(settled, next);
  }

  lemma SomeElement(l: seq<nat>)
    ensures l != [] ==> exists k: nat :: k in l
  {
    if l != [] { assert l[0] in l; }
  }

  /** Distinct numbers below `n` that are all of them are `n` many. */
  lemma {:induction false} CountLeases(l: seq<nat>, n: nat)
    requires (forall i, j :: 0 <= i < j < |l| ==> l[i] != l[j]) && (forall k: nat :: k < n <==> k in l)
    ensures |l| == n
    decreases n
  {
    SomeElement(l);
    if n > 0 {
      var m := n - 1;
      assert m in l;
      var i :| 0 <= i < |l| && l[i] == m;
      var r := RemoveAt(l, i);
      forall k: nat ensures k < m <==> k in r {
        if k in r {
          var j :| 0 <= j < |r| && r[j] == k;
          var p := if j < i then j else j + 1;
          assert l[p] == k && p != i && k in l;
          assert l[if p < i then p else i] != l[if p < i then i else p];
        }
        if k < m {
          assert k in l;
          var j :| 0 <= j < |l| && l[j] == k;
          assert r[if j < i then j else j - 1] == k;
        }
      }
      CountLeases(r, m);
    }
  }
}
