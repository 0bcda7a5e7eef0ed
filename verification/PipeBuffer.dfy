/**
 The buffer in front of a decoder's pipe.  The kernel's answers are given: one event for each turn of the loop
 that writes to the pipe.
 */
module PipeBuffers {

  type Bytes = seq<nat>

  /** What `poll` says, asked only when a blocking flush has a time-out, and then what `write` says. */
  datatype Poll = Ready | Elapsed | Fails
  datatype Write = Wrote(n: nat) | Interrupted | WouldBlock | Broken
  datatype Event = Event(poll: Poll, write: Write)

  /** `Waiting`: the events are used up and the loop goes on. */
  datatype Status = Done | Again | TimedOut | Failed | Waiting

  function Min(a: nat, b: nat): nat {
    if a < b then a else b
  }

  /** All products handed over, one after the other. */
  function Joined(chunks: seq<Bytes>): Bytes {
    if chunks == [] then [] else Joined(chunks[..|chunks| - 1]) + chunks[|chunks| - 1]
  }

  // ---------------------------------------------------------------------
  // What the kernel's answers come to
  // ---------------------------------------------------------------------

  /** The loop gives up with an error at this event. */
  predicate Fatal(e: Event, block: bool, timed: bool) {
    e.write.Broken? || (block && timed && e.poll != Ready)
  }

  /** The loop ends at this event, whatever is left to send. */
  predicate Stops(e: Event, block: bool, timed: bool) {
    Fatal(e, block, timed) || (!block && e.write.WouldBlock?)
  }

  function StatusAt(e: Event, block: bool, timed: bool): Status {
    if block && timed && e.poll == Elapsed then TimedOut
    else if Fatal(e, block, timed) then Failed
    else Again
  }

  /** How many events come before the first one at which the loop ends. */
  function FirstStop(events: seq<Event>, block: bool, timed: bool): (n: nat)
    ensures n <= |events| && (forall j :: 0 <= j < n ==> !Stops(events[j], block, timed))
    ensures n < |events| ==> Stops(events[n], block, timed)
  {
    if events == [] || Stops(events[0], block, timed) then 0 else 1 + FirstStop(events[1..], block, timed)
  }

  function OfferedBy(e: Event): nat {
    if e.write.Wrote? then e.write.n else 0
  }

  /** The bytes that the pipe would take. */
  function Offered(events: seq<Event>): nat {
    if events == [] then 0 else Offered(events[..|events| - 1]) + OfferedBy(events[|events| - 1])
  }

  lemma OfferedMore(events: seq<Event>, i: nat)
    requires i < |events|
    ensures Offered(events[..i + 1]) == Offered(events[..i]) + OfferedBy(events[i])
  {
    assert events[..i + 1][..i] == events[..i];
  }

  lemma {:induction false} OfferedGrows(events: seq<Event>, i: nat, j: nat)
    requires i <= j <= |events|
    ensures Offered(events[..i]) <= Offered(events[..j])
    decreases j
  {
    if i < j {
      OfferedMore(events, j - 1);
      OfferedGrows(events, i, j - 1);
    }
  }

  /** How a flush of `left` bytes ends, and how many of them it sends. */
  function FlushStatus(left: nat, block: bool, timed: bool, events: seq<Event>): Status {
    var n := FirstStop(events, block, timed);
    if left <= Offered(events[..n]) then Done else if n == |events| then Waiting else StatusAt(events[n], block, timed)
  }

  function FlushSent(left: nat, block: bool, timed: bool, events: seq<Event>): nat {
    Min(left, Offered(events[..FirstStop(events, block, timed)]))
  }

  /**
   What each answer of the kernel comes to.  Only a blocking flush with a time-out asks `poll`, and then anything but
   `Ready` ends it.  Otherwise a write that was interrupted is tried again, and so is one that would block, by a flush
   that may block; a broken pipe is a failure.
   */
  lemma EventCases(e: Event, block: bool, timed: bool)
    ensures block && timed && e.poll == Elapsed ==> Stops(e, block, timed) && StatusAt(e, block, timed) == TimedOut
    ensures block && timed && e.poll == Fails ==> Stops(e, block, timed) && StatusAt(e, block, timed) == Failed
    ensures !(block && timed) || e.poll == Ready ==>
              match e.write
              case Wrote(_) => !Stops(e, block, timed)
              case Interrupted => !Stops(e, block, timed)
              case WouldBlock => (Stops(e, block, timed) <==> !block) && StatusAt(e, block, timed) == Again
              case Broken => Stops(e, block, timed) && StatusAt(e, block, timed) == Failed
  {
  }

  /** The write is tried again, with nothing sent. */
  predicate Harmless(e: Event, block: bool, timed: bool) {
    && (block && timed ==> e.poll == Ready)
    && (e.write.Interrupted? || (block && e.write.WouldBlock?))
  }

  /** However often a write is interrupted, or waits, the flush ends the same way, and sends the same bytes. */
  lemma Retried(left: nat, block: bool, timed: bool, events: seq<Event>, i: nat, e: Event)
    requires i <= |events| && Harmless(e, block, timed)
    ensures var more := events[..i] + [e] + events[i..];
            && FlushStatus(left, block, timed, more) == FlushStatus(left, block, timed, events)
            && FlushSent(left, block, timed, more) == FlushSent(left, block, timed, events)
  {
    hide FirstStop, Offered, StatusAt;
    var more := events[..i] + [e] + events[i..];
    var n, n' := FirstStop(events, block, timed), FirstStop(more, block, timed);
    StopMoves(block, timed, events, i, e);
    if n < i {
      assert more[..n] == events[..n];
    } else {
      assert more[..n + 1] == events[..i] + [e] + events[i..n];
      OfferedInserted(events[..n], i, e);
      assert events[..n][..i] == events[..i] && events[..n][i..] == events[i..n];
    }
  }

  lemma StopMoves(block: bool, timed: bool, events: seq<Event>, i: nat, e: Event)
    requires i <= |events| && Harmless(e, block, timed)
    ensures var n := FirstStop(events, block, timed);
            FirstStop(events[..i] + [e] + events[i..], block, timed) == if n < i then n else n + 1
  {
    hide FirstStop;
    var more := events[..i] + [e] + events[i..];
    var n, n' := FirstStop(events, block, timed), FirstStop(more, block, timed);
    var m := if n < i then n else n + 1;
    forall j | 0 <= j < m ensures !Stops(more[j], block, timed) {
      assert more[j] == if j < i then events[j] else if j == i then e else events[j - 1];
    }
    assert n < |events| ==> more[m] == events[n];
  }

  lemma {:induction false} OfferedInserted(events: seq<Event>, i: nat, e: Event)
    requires i <= |events| && !e.write.Wrote?
    ensures Offered(events[..i] + [e] + events[i..]) == Offered(events)
    decreases |events|
  {
    var more := events[..i] + [e] + events[i..];
    var n := |events|;
    if i == n {
      assert more[..n] == events;
    } else {
      OfferedInserted(events[..n - 1], i, e);
      assert events[..n - 1][..i] == events[..i];
      assert more[..n] == events[..n - 1][..i] + [e] + events[..n - 1][i..];
      assert more[n] == events[n - 1];
    }
  }

  /** An error ends the flush of `left` bytes when some of them, and not all, are sent. */
  predicate Interferes(left: nat, block: bool, timed: bool, events: seq<Event>) {
    var n := FirstStop(events, block, timed);
    n < |events| && Fatal(events[n], block, timed) && 0 < Offered(events[..n]) < left
  }

  /**
   What a flush does to the pipe and the buffer.  It sends the first `k` bytes held; when all of them, or when it would
   block and need not, what is left is held; after a failure everything is still held.
   */
  ghost predicate Flushed(st: Status, k: nat, held: Bytes, sent: Bytes, held': Bytes, sent': Bytes) {
    && k <= |held| && sent' == sent + held[..k]
    && held' == (if st == Done || st == Again then held[k..] else held)
  }

  /**
   A flush that returns loses no byte, sends none twice and none out of order, if and only if no error comes when some
   of the bytes, and not all, are sent.
   */
  lemma StreamKept(block: bool, timed: bool, events: seq<Event>, held: Bytes, sent: Bytes, held': Bytes, sent': Bytes)
    requires FlushStatus(|held|, block, timed, events) != Waiting
    requires Flushed(FlushStatus(|held|, block, timed, events), FlushSent(|held|, block, timed, events),
                     held, sent, held', sent')
    ensures sent' + held' == sent + held <==> !Interferes(|held|, block, timed, events)
  {
    hide Offered, FirstStop;
    var k, st := FlushSent(|held|, block, timed, events), FlushStatus(|held|, block, timed, events);
    if st == Done || st == Again || k == 0 {
      assert sent' + held' == sent + (held[..k] + held[k..]);
    } else {
      assert |sent' + held'| > |sent + held|;
    }
  }

  /** Events in which the pipe takes at least one byte. */
  function Progress(events: seq<Event>): nat {
    if events == [] then 0
    else Progress(events[..|events| - 1]) + if OfferedBy(events[|events| - 1]) > 0 then 1 else 0
  }

  lemma {:induction false} ProgressCounts(events: seq<Event>)
    ensures Progress(events) == |set j | 0 <= j < |events| && events[j].write.Wrote? && events[j].write.n > 0|
    decreases |events|
  {
    if events != [] {
      var n := |events| - 1;
      ProgressCounts(events[..n]);
      var before := set j | 0 <= j < n && events[..n][j].write.Wrote? && events[..n][j].write.n > 0;
      var all := set j | 0 <= j < |events| && events[j].write.Wrote? && events[j].write.n > 0;
      assert all == if OfferedBy(events[n]) > 0 then before + {n} else before;
    }
  }

  lemma ProgressMore(events: seq<Event>, i: nat)
    requires i < |events|
    ensures Progress(events[..i + 1]) == Progress(events[..i]) + if OfferedBy(events[i]) > 0 then 1 else 0
  {
    assert events[..i + 1][..i] == events[..i];
  }

  lemma {:induction false} ProgressOffered(events: seq<Event>)
    ensures Progress(events) <= Offered(events)
    decreases |events|
  {
    if events != [] { ProgressOffered(events[..|events| - 1]); }
  }

  lemma {:induction false} ProgressJoin(a: seq<Event>, b: seq<Event>)
    ensures Progress(a + b) == Progress(a) + Progress(b)
    decreases |b|
  {
    if b == [] {
      assert a + b == a;
    } else {
      var n := |b| - 1;
      ProgressJoin(a, b[..n]);
      assert (a + b)[..|a + b| - 1] == a + b[..n];
    }
  }

  /** The events that a complete flush of `left` bytes uses are at most that many in which the pipe takes something. */
  lemma ProgressUsed(events: seq<Event>, used: nat, left: nat)
    requires used <= |events| && (forall j :: 0 <= j < used ==> Offered(events[..j]) < left)
    ensures Progress(events[..used]) <= left
  {
    if used > 0 {
      ProgressMore(events, used - 1);
      ProgressOffered(events[..used - 1]);
    }
  }

  class PipeBuffer {
    const buffer: array<nat>
    var writePos: nat
    /** What went into the pipe. */
    var sent: Bytes

    constructor (size: nat)
      ensures Valid() && fresh(buffer) && buffer.Length == size && Held() == [] && sent == []
    {
      buffer := new nat[size];
      writePos, sent := 0, [];
    }

    ghost predicate Valid()
      reads this
    {
      writePos <= buffer.Length
    }

    ghost function Held(): Bytes
      requires Valid()
      reads this, buffer
    {
      buffer[..writePos]
    }

    /** Move the unsent bytes to the front. */
    method Shift(from: nat)
      requires Valid() && from <= writePos
      modifies this`writePos, buffer
      ensures Valid() && Held() == old(Held())[from..]
    {
      var left := writePos - from;
      for i := 0 to left
        invariant forall j :: 0 <= j < i ==> buffer[j] == old(buffer[from + j])
        invariant forall j :: i <= j < buffer.Length ==> buffer[j] == old(buffer[j])
      {
        buffer[i] := buffer[from + i];
      }
      writePos := left;
    }

    /** Send what is held.  A blocking flush gives up only at a time-out; one that does not block, when it would. */
    method Flush(block: bool, timed: bool, events: seq<Event>) returns (st: Status, used: nat, k: nat)
      requires Valid()
      modifies this`writePos, this`sent, buffer
      ensures Valid() && Flushed(st, k, old(Held()), old(sent), Held(), sent)
      ensures st == FlushStatus(old(writePos), block, timed, events)
              && k == FlushSent(old(writePos), block, timed, events)
      ensures used <= |events| && (forall j :: 0 <= j < used ==> Offered(events[..j]) < old(writePos))
      ensures st == Done ==> used <= FirstStop(events, block, timed)
      ensures st != Done ==> used == Min(|events|, FirstStop(events, block, timed) + 1)
      ensures st != Waiting ==>
                (sent + Held() == old(sent + Held()) <==> !Interferes(old(writePos), block, timed, events))
    {
      hide FirstStop, Offered, Flushed;
      st, used, k := Done, 0, 0;
      ghost var n, held, out := FirstStop(events, block, timed), Held(), sent;
      NothingOffered(events);
      while k < writePos
        invariant Valid() && k <= writePos == |held| && buffer[..] == old(buffer[..]) && used <= n
        invariant k == Min(|held|, Offered(events[..used])) && sent == out + held[..k]
        invariant forall j :: 0 <= j < used ==> Offered(events[..j]) < |held|
        decreases |events| - used
      {
        if used == |events| {
          Ended(Waiting, block, timed, events, used, held, out, held, sent, k);
          return Waiting, used, k;
        }
        var e := events[used];
        OfferedMore(events, used);
        used := used + 1;
        if block && timed && e.poll != Ready {
          st := if e.poll == Elapsed then TimedOut else Failed;
          Ended(st, block, timed, events, used - 1, held, out, held, sent, k);
          return;
        }
        match e.write
        case Wrote(count) =>
          var nwrote := Min(count, writePos - k);
          assert held[..k] + held[k..k + nwrote] == held[..k + nwrote];
          sent := sent + buffer[k..k + nwrote];
          k := k + nwrote;
        case Interrupted =>
        case WouldBlock =>
          if !block {
            Shift(k);
            Ended(Again, block, timed, events, used - 1, held, out, Held(), sent, k);
            return Again, used, k;
          }
        case Broken =>
          Ended(Failed, block, timed, events, used - 1, held, out, held, sent, k);
          return Failed, used, k;
      }
      OfferedGrows(events, used, n);
      writePos := 0;
      Ended(Done, block, timed, events, used, held, out, Held(), sent, k);
    }

    /** Copy `data[from..from + n]` behind what is held. */
    method Fill(data: Bytes, from: nat, n: nat)
      requires Valid() && from + n <= |data| && writePos + n <= buffer.Length
      modifies this`writePos, buffer
      ensures Valid() && writePos == old(writePos) + n && Held() == old(Held()) + data[from..from + n]
    {
      for i := 0 to n
        invariant writePos == old(writePos) && buffer[..writePos + i] == old(Held()) + data[from..from + i]
      {
        buffer[writePos + i] := data[from + i];
        assert buffer[..writePos + i + 1] == buffer[..writePos + i] + [data[from + i]];
      }
      writePos := writePos + n;
    }

    /** Flush within a write; `all` is the stream that the write makes, and `from` what was sent before it. */
    method Drain(block: bool, timed: bool, events: seq<Event>, used: nat, ghost all: Bytes, ghost from: nat)
      returns (st: Status, next: nat, ghost mark: nat)
      requires Valid() && used <= |events| && sent + Held() <= all && from + Progress(events[..used]) <= |sent|
      modifies this`writePos, this`sent, buffer
      ensures Valid() && used <= next <= |events| && Overlaps(all, sent, Held(), mark) && (block ==> st != Again)
      ensures st == Done ==> Held() == []
      ensures st == Done || st == Again ==>
                && sent + Held() == old(sent + Held()) && mark == |sent| && |Held()| <= |old(Held())|
                && Progress(events[..next]) + |Held()| <= Progress(events[..used]) + |old(Held())|
      ensures st == Waiting ==> Progress(events) < Progress(events[..used]) + |old(Held())|
      ensures st == TimedOut || st == Failed ==> 0 < next && Fatal(events[next - 1], block, timed)
      ensures from + Progress(Lived(events, st, next)) <= |sent|
    {
      hide Flushed, FlushStatus, FlushSent, FirstStop, Progress, Offered, Overlaps, Fatal;
      ghost var held, out := Held(), sent;
      var now, k;
      st, now, k := Flush(block, timed, events[used..]);
      FlushedParts(st, k, held, out, Held(), sent, block, timed, events[used..]);
      FlushEvents(st, now, |held|, block, timed, events, used);
      FlushOverlaps(all, st, k, held, out, Held(), sent);
      mark := if st == Done || st == Again then |sent| else |out|;
      next := used + now;
    }

    /**
     Hand over a product.  If this succeeds, the pipe and the buffer together have grown by the product's bytes, in
     order and once each.  It fails only at an event that is an error; what was sent is then a prefix of that stream,
     and what is held the stretch of it from `mark`, where the flush that failed began.  It waits for ever only if the
     pipe takes something too seldom.
     */
    method Write(data: Bytes, timed: bool, events: seq<Event>) returns (st: Status, used: nat, ghost mark: nat)
      requires Valid() && 0 < buffer.Length
      modifies this`writePos, this`sent, buffer
      ensures Valid() && st != Again && used <= |events|
      ensures st == Done ==> sent + Held() == old(sent + Held()) + data
      ensures Overlaps(old(sent + Held()) + data, sent, Held(), mark)
      ensures st == TimedOut || st == Failed ==> 0 < used && Fatal(events[used - 1], true, timed)
      ensures |old(sent)| + Progress(Lived(events, st, used)) <= |sent|
      ensures st == Waiting ==> Progress(events) < |old(Held())| + |data|
      ensures (forall j :: 0 <= j < |events| ==> !Fatal(events[j], true, timed)) &&
              Progress(events) >= |old(Held())| + |data| ==>
                st == Done
    {
      hide Progress, Overlaps, Lived, Fatal;
      used, mark := 0, |sent|;
      var pos: nat := 0;
      ghost var stream, total, from := sent + Held(), |Held()| + |data|, |sent|;
      st := Done;
      NoProgress(events);
      while pos < |data|
        invariant Valid() && pos <= |data| && used <= |events| && st == Done
        invariant sent + Held() == stream + data[..pos]
        invariant Progress(events[..used]) + |Held()| + (|data| - pos) <= total
        invariant from + Progress(events[..used]) <= |sent|
        decreases |data| - pos, writePos
      {
        var chunk := Min(|data| - pos, buffer.Length - writePos);
        ghost var held, out := Held(), sent;
        Fill(data, pos, chunk);
        Stretch(stream, data, pos, chunk, out, held);
        pos := pos + chunk;
        if writePos == buffer.Length {
          Ahead(stream, data, pos);
          st, used, mark := Drain(true, timed, events, used, stream + data, from);
          if st != Done { return; }
          AllLived(events, used);
        }
      }
      Ahead(stream, data, pos);
      st, used, mark := Drain(false, false, events, used, stream + data, from);
      FatalAnyway(events, used, timed);
      AgainLived(events, used);
      if st == Again { st := Done; }
    }

    /** Any number of products; each write needs no more events than there are bytes to send. */
    method WriteAll(products: seq<Bytes>, timed: bool, events: seq<seq<Event>>) returns (st: Status)
      requires Valid() && 0 < buffer.Length && |events| == |products|
      modifies this`writePos, this`sent, buffer
      ensures Valid() && st != Again
      ensures st == Done ==> sent + Held() == old(sent + Held()) + Joined(products)
      ensures (forall i, j :: 0 <= i < |events| && 0 <= j < |events[i]| ==> !Fatal(events[i][j], true, timed)) &&
              (forall i :: 0 <= i < |events| ==> Progress(events[i]) >= buffer.Length + |products[i]|) ==>
                st == Done
    {
      hide Progress, Fatal;
      st := Done;
      ghost var stream := sent + Held();
      for i := 0 to |products|
        invariant Valid() && sent + Held() == stream + Joined(products[..i]) && st == Done
      {
        var used;
        ghost var mark;
        st, used, mark := Write(products[i], timed, events[i]);
        if st != Done { return; }
        assert products[..i + 1][..i] == products[..i];
        assert stream + Joined(products[..i]) + products[i] == stream + Joined(products[..i + 1]);
      }
      assert products[..|products|] == products;
    }
  }

  /** Two bytes are held, the pipe takes one and breaks: the next flush sends the first byte again. */
  method SentTwice() returns (pipe: Bytes)
    ensures pipe == [1, 1, 2]
  {
    var b := new PipeBuffer(4);
    b.Fill([1, 2], 0, 2);
    assert b.Held() == [1, 2];
    var first, second := [Event(Ready, Wrote(1)), Event(Ready, Broken)], [Event(Ready, Wrote(2))];
    OneThenBroken(first);
    TakesTwo(second);
    var st, used, k := b.Flush(true, false, first);
    assert st == Failed && b.sent == [1] && b.Held() == [1, 2];
    st, used, k := b.Flush(true, false, second);
    assert [1, 2][..2] == [1, 2];
    pipe := b.sent;
  }

  lemma OneThenBroken(events: seq<Event>)
    requires events == [Event(Ready, Wrote(1)), Event(Ready, Broken)]
    ensures FlushStatus(2, true, false, events) == Failed && FlushSent(2, true, false, events) == 1
    ensures Interferes(2, true, false, events)
  {
    assert events[1..] == [Event(Ready, Broken)] && FirstStop(events[1..], true, false) == 0;
    assert FirstStop(events, true, false) == 1;
    OfferedMore(events, 0);
  }

  lemma TakesTwo(events: seq<Event>)
    requires events == [Event(Ready, Wrote(2))]
    ensures FlushStatus(2, true, false, events) == Done && FlushSent(2, true, false, events) == 2
  {
    assert events[1..] == [] && events[..1] == events && events[..0] == [];
  }

  lemma NothingOffered(events: seq<Event>)
    ensures Offered(events[..0]) == 0
  {
  }

  lemma NoProgress(events: seq<Event>)
    ensures Progress(events[..0]) == 0
  {
  }

  /** The loop has ended after `used` events that do not stop it. */
  lemma Ended(st: Status, block: bool, timed: bool, events: seq<Event>, used: nat, held: Bytes, sent: Bytes,
              held': Bytes, sent': Bytes, k: nat)
    requires used <= FirstStop(events, block, timed) && k == Min(|held|, Offered(events[..used]))
    requires sent' == sent + held[..k] && held' == (if st == Done || st == Again then held[k..] else held)
    requires if st == Done then k == |held| <= Offered(events[..FirstStop(events, block, timed)])
             else
               && k < |held| && used == FirstStop(events, block, timed)
               && st == if used == |events| then Waiting else StatusAt(events[used], block, timed)
    ensures st == FlushStatus(|held|, block, timed, events) && k == FlushSent(|held|, block, timed, events)
    ensures Flushed(st, k, held, sent, held', sent')
    ensures st != Waiting ==> (sent' + held' == sent + held <==> !Interferes(|held|, block, timed, events))
  {
    hide FirstStop, Offered;
    if st != Waiting { StreamKept(block, timed, events, held, sent, held', sent'); }
  }

  /** What was sent is the beginning of the stream, and what is held is the stretch of it from `mark` on. */
  ghost predicate Overlaps(stream: Bytes, sent: Bytes, held: Bytes, mark: nat) {
    sent <= stream && mark <= |sent| <= mark + |held| <= |stream| && held == stream[mark..mark + |held|]
  }

  lemma FlushOverlaps(all: Bytes, st: Status, k: nat, held: Bytes, sent: Bytes, held': Bytes, sent': Bytes)
    requires sent + held <= all && Flushed(st, k, held, sent, held', sent')
    requires st == Done ==> k == |held|
    ensures st == Done || st == Again ==> Overlaps(all, sent', held', |sent'|)
    ensures st != Done && st != Again ==> Overlaps(all, sent', held', |sent|)
  {
    assert all[..|sent + held|] == sent + held;
    assert all[|sent|..|sent| + |held|] == held;
    assert all[|sent| + k..|sent| + |held|] == held[k..];
    assert all[..|sent| + k] == sent + held[..k];
  }

  lemma Ahead(stream: Bytes, data: Bytes, pos: nat)
    requires pos <= |data|
    ensures stream + data[..pos] <= stream + data && data[..|data|] == data
  {
  }

  /** The events used before the one at which the write failed, if it did. */
  function Lived(events: seq<Event>, st: Status, used: nat): seq<Event>
    requires used <= |events|
  {
    if (st == TimedOut || st == Failed) && 0 < used then events[..used - 1] else events[..used]
  }

  lemma AllLived(events: seq<Event>, used: nat)
    requires used <= |events|
    ensures Lived(events, Done, used) == events[..used]
  {
  }

  lemma AgainLived(events: seq<Event>, used: nat)
    requires used <= |events|
    ensures Lived(events, Done, used) == Lived(events, Again, used)
  {
  }

  lemma FatalAnyway(events: seq<Event>, used: nat, timed: bool)
    requires used <= |events|
    ensures 0 < used && Fatal(events[used - 1], false, false) ==> Fatal(events[used - 1], true, timed)
  {
  }

  /** The events of a flush within those of a write. */
  lemma FlushEvents(st: Status, now: nat, left: nat, block: bool, timed: bool, events: seq<Event>, used: nat)
    requires used <= |events| && now <= |events| - used && st == FlushStatus(left, block, timed, events[used..])
    requires forall j :: 0 <= j < now ==> Offered(events[used..][..j]) < left
    requires var n := FirstStop(events[used..], block, timed);
             if st == Done then now <= n else now == Min(|events| - used, n + 1)
    ensures Progress(events[..used + now]) == Progress(events[..used]) + Progress(events[used..][..now])
    ensures st == Done || st == Again ==> Progress(events[used..][..now]) <= left
    ensures st == TimedOut || st == Failed ==> 0 < now && Fatal(events[used + now - 1], block, timed)
    ensures st == Waiting ==> now == |events| - used && Progress(events) < Progress(events[..used]) + left
    ensures Progress(Lived(events, st, used + now)) <=
            Progress(events[..used]) + FlushSent(left, block, timed, events[used..])
    ensures block ==> st != Again
  {
    hide FirstStop, Offered, Progress;
    FlushProgress(st, now, left, block, timed, events, used);
    var rest := events[used..];
    assert events[..used + now] == events[..used] + rest[..now];
    ProgressJoin(events[..used], rest[..now]);
    ProgressUsed(rest, now, left);
    if st == Waiting {
      assert rest[..now] == rest && events[..used + now] == events;
      ProgressOffered(rest);
    }
  }

  lemma Stretch(stream: Bytes, data: Bytes, pos: nat, n: nat, sent: Bytes, held: Bytes)
    requires pos + n <= |data| && sent + held == stream + data[..pos]
    ensures sent + (held + data[pos..pos + n]) == stream + data[..pos + n]
  {
    assert data[..pos + n] == data[..pos] + data[pos..pos + n];
    assert sent + (held + data[pos..pos + n]) == sent + held + data[pos..pos + n];
  }

  lemma FlushProgress(st: Status, now: nat, left: nat, block: bool, timed: bool, events: seq<Event>, used: nat)
    requires used <= |events| && now <= |events| - used && st == FlushStatus(left, block, timed, events[used..])
    requires forall j :: 0 <= j < now ==> Offered(events[used..][..j]) < left
    requires var n := FirstStop(events[used..], block, timed);
             if st == Done then now <= n else now == Min(|events| - used, n + 1)
    ensures var n := if st == TimedOut || st == Failed then now - 1 else now;
            && 0 <= n
            && Progress(events[..used + n]) <= Progress(events[..used]) + FlushSent(left, block, timed, events[used..])
  {
    hide FirstStop, Offered, Progress;
    var rest := events[used..];
    var n := if st == TimedOut || st == Failed then now - 1 else now;
    assert events[..used + n] == events[..used] + rest[..n];
    ProgressJoin(events[..used], rest[..n]);
    ProgressUsed(rest, n, left);
    ProgressOffered(rest[..n]);
    var m := FirstStop(rest, block, timed);
    if st == Again {
      ProgressMore(rest, m);
      ProgressOffered(rest[..m]);
    } else {
      OfferedGrows(rest, n, m);
    }
  }

  lemma FlushedParts(st: Status, k: nat, held: Bytes, sent: Bytes, held': Bytes, sent': Bytes, block: bool, timed: bool,
                     events: seq<Event>)
    requires Flushed(st, k, held, sent, held', sent')
    requires st == FlushStatus(|held|, block, timed, events) && k == FlushSent(|held|, block, timed, events)
    ensures st == Done || st == Again ==> sent' + held' == sent + held
    ensures st == Done ==> held' == [] && k == |held|
    ensures |sent'| == |sent| + k && |held'| <= |held| && sent' <= sent + held
  {
    hide FirstStop, Offered;
    assert held[..k] + held[k..] == held;
    if st == Done || st == Again { assert sent' + held' == sent + (held[..k] + held[k..]); }
  }
}
