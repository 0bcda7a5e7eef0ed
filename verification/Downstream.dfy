/**
 Receiving products (core/DownstreamClientHandler.h): HEREIS brings a whole one; COMINGSOON announces one and reserves
 a queue entry, each BLKDATA packet is copied straight into the entry's mapped region, and the last one commits it.
 */
module Downstreams {
  import opened SignatureIndexes

  /** The product: its signature and its size. */
  datatype Info = Info(sig: Signature, sz: nat)

  /** A message, with what the queue answers to the calls that it leads to.  `Close` is the end of the handler. */
  datatype Msg =
    | HereIs(sig: Signature, data: seq<Byte>, reserved: bool, committed: bool)
    | ComingSoon(info: Info, reserved: bool)
    | BlkData(sig: Signature, data: seq<Byte>, committed: bool)
    | Close

  /** What happens to queue entries, which are numbered in the order of their reservations. */
  datatype Event =
    | Reserved(e: nat, info: Info)
    | Committed(e: nat, info: Info, bytes: seq<Byte>)
    | RolledBack(e: nat, info: Info)

  /** The transfer in progress, if any, with the bytes received so far, and everything that happened to entries. */
  datatype Transfer = None | Open(e: nat, info: Info, got: seq<Byte>)
  datatype Receiver = Receiver(transfer: Transfer, next: nat, log: seq<Event>)

  ghost function Abandoned(s: Receiver): Receiver {
    if s.transfer.Open? then s.(transfer := None, log := s.log + [RolledBack(s.transfer.e, s.transfer.info)]) else s
  }

  ghost function Inserted(s: Receiver, info: Info, data: seq<Byte>, committed: bool): Receiver {
    s.(next := s.next + 1,
       log := s.log + [Reserved(s.next, info)] + [if committed then Committed(s.next, info, data)
                                                  else RolledBack(s.next, info)])
  }

  ghost function Started(s: Receiver, info: Info): Receiver {
    Receiver(Open(s.next, info, []), s.next + 1, s.log + [Reserved(s.next, info)])
  }

  ghost function Packet(s: Receiver, sig: Signature, data: seq<Byte>, committed: bool): Receiver {
    if s.transfer.None? then s
    else if sig != s.transfer.info.sig || |data| > s.transfer.info.sz - |s.transfer.got| then Abandoned(s)
    else
      var got := s.transfer.got + data;
      if |got| < s.transfer.info.sz then s.(transfer := s.transfer.(got := got))
      else if committed then s.(transfer := None, log := s.log + [Committed(s.transfer.e, s.transfer.info, got)])
      else Abandoned(s)
  }

  /** What a message does. */
  ghost function Receive(s: Receiver, m: Msg): Receiver {
    match m
    case HereIs(sig, data, reserved, committed) =>
      if data != [] && reserved then Inserted(s, Info(sig, |data|), data, committed) else s
    case ComingSoon(info, reserved) =>
      if info.sz > 0 && reserved then Started(Abandoned(s), info) else Abandoned(s)
    case BlkData(sig, data, committed) => Packet(s, sig, data, committed)
    case Close => Abandoned(s)
  }

  ghost function ReceiveAll(msgs: seq<Msg>): (s: Receiver) {
    if msgs == [] then Receiver(None, 0, []) else Receive(ReceiveAll(msgs[..|msgs| - 1]), msgs[|msgs| - 1])
  }

  lemma ReceiveMore(msgs: seq<Msg>, m: Msg)
    ensures ReceiveAll(msgs + [m]) == Receive(ReceiveAll(msgs), m)
  {
    hide Receive;
    assert (msgs + [m])[..|msgs|] == msgs;
  }

  // ---------------------------------------------------------------------
  // What is committed
  // ---------------------------------------------------------------------

  ghost function PacketOf(m: Msg): seq<Byte> {
    if m.BlkData? then m.data else []
  }

  /** The packets' data, in order. */
  ghost function Concat(msgs: seq<Msg>): (r: seq<Byte>) {
    if msgs == [] then [] else Concat(msgs[..|msgs| - 1]) + PacketOf(msgs[|msgs| - 1])
  }

  lemma ConcatMore(msgs: seq<Msg>, m: Msg)
    ensures Concat(msgs + [m]) == Concat(msgs) + PacketOf(m)
  {
    assert (msgs + [m])[..|msgs|] == msgs;
  }

  /** What has happened stays in the log. */
  lemma {:induction false} LogGrows(msgs: seq<Msg>, k: nat)
    requires k <= |msgs|
    ensures ReceiveAll(msgs[..k]).log <= ReceiveAll(msgs).log
    decreases |msgs|
  {
    if k == |msgs| {
      assert msgs[..k] == msgs;
    } else {
      var n := |msgs| - 1;
      LogGrows(msgs[..n], k);
      assert msgs[..n][..k] == msgs[..k];
      assert ReceiveAll(msgs[..n]).log <= ReceiveAll(msgs).log;
    }
  }

  /** A whole product that the queue reserves and commits is in the queue, with its own signature, size and bytes. */
  lemma HereIsEnters(msgs: seq<Msg>, k: nat) returns (i: nat)
    requires k < |msgs| && msgs[k].HereIs? && msgs[k].data != [] && msgs[k].reserved && msgs[k].committed
    ensures i < |ReceiveAll(msgs).log| && ReceiveAll(msgs).log[i].Committed?
    ensures ReceiveAll(msgs).log[i].info == Info(msgs[k].sig, |msgs[k].data|)
            && ReceiveAll(msgs).log[i].bytes == msgs[k].data
  {
    var log, s := ReceiveAll(msgs).log, ReceiveAll(msgs[..k]);
    assert msgs[..k + 1] == msgs[..k] + [msgs[k]];
    ReceiveMore(msgs[..k], msgs[k]);
    LogGrows(msgs, k + 1);
    i := |s.log| + 1;
    assert log[i] == ReceiveAll(msgs[..k + 1]).log[i];
  }

  /** One that is empty, or that the queue refuses, leaves no trace. */
  lemma HereIsRefused(msgs: seq<Msg>, m: Msg)
    requires m.HereIs? && (m.data == [] || !m.reserved)
    ensures ReceiveAll(msgs + [m]) == ReceiveAll(msgs)
  {
    ReceiveMore(msgs, m);
  }

  /** After an announcement: a packet of that product, or a whole product beside it. */
  ghost predicate Follows(m: Msg, info: Info) {
    m.HereIs? || (m.BlkData? && m.sig == info.sig)
  }

  /** `msgs[from .. to]` is one announcement followed by packets of that product and whole products only. */
  ghost predicate Stretch(msgs: seq<Msg>, from: int, to: nat, info: Info) {
    && 0 <= from < to <= |msgs| && msgs[from] == ComingSoon(info, true)
    && forall k :: from < k < to ==> Follows(msgs[k], info)
  }

  /** Where the last announcement is. */
  ghost function LastSoon(msgs: seq<Msg>): (i: int)
    ensures -1 <= i < |msgs|
  {
    if msgs == [] then -1
    else if msgs[|msgs| - 1].ComingSoon? then |msgs| - 1
    else LastSoon(msgs[..|msgs| - 1])
  }

  /** What is open after these messages is the data of the packets since the last announcement. */
  ghost predicate OpenOk(msgs: seq<Msg>, t: Transfer) {
    t.Open? ==>
      && |t.got| < t.info.sz && Stretch(msgs, LastSoon(msgs), |msgs|, t.info)
      && t.got == Concat(msgs[LastSoon(msgs)..])
  }

  lemma StretchStarts(before: seq<Msg>, info: Info)
    ensures var msgs := before + [ComingSoon(info, true)];
            LastSoon(msgs) == |before| && Stretch(msgs, |before|, |msgs|, info) && Concat(msgs[|before|..]) == []
  {
    hide Concat;
    var m := ComingSoon(info, true);
    assert (before + [m])[|before|..] == [m];
    ConcatOne(m);
  }

  lemma ConcatOne(m: Msg)
    ensures Concat([m]) == PacketOf(m)
  {
    assert [] + [m] == [m];
    ConcatMore([], m);
  }

  lemma StretchGrows(before: seq<Msg>, m: Msg, info: Info)
    requires Stretch(before, LastSoon(before), |before|, info) && Follows(m, info)
    ensures var msgs, from := before + [m], LastSoon(before);
            && LastSoon(msgs) == from && Stretch(msgs, from, |msgs|, info)
            && Concat(msgs[from..]) == Concat(before[from..]) + PacketOf(m)
  {
    var msgs, from := before + [m], LastSoon(before);
    assert msgs[..|before|] == before;
    assert msgs[from..] == before[from..] + [m];
    ConcatMore(before[from..], m);
  }

  /** A transfer that is open after a message was started by it or was open before it. */
  lemma OpenAfter(s: Receiver, m: Msg)
    requires Receive(s, m).transfer.Open?
    ensures var t := Receive(s, m).transfer;
            || (m == ComingSoon(t.info, true) && t.got == [] && 0 < t.info.sz)
            || (s.transfer.Open? && Follows(m, t.info) && t == s.transfer.(got := s.transfer.got + PacketOf(m))
                && (m.BlkData? ==> |t.got| < t.info.sz))
  {
    if m.HereIs? { assert s.transfer.Open? ==> s.transfer.got + [] == s.transfer.got; }
  }

  lemma OpenStep(before: seq<Msg>, s: Receiver, m: Msg)
    requires OpenOk(before, s.transfer)
    ensures OpenOk(before + [m], Receive(s, m).transfer)
  {
    hide Receive, Stretch, LastSoon, Concat;
    var t := Receive(s, m).transfer;
    if t.Open? {
      OpenAfter(s, m);
      if m == ComingSoon(t.info, true) {
        StretchStarts(before, t.info);
      } else {
        StretchGrows(before, m, t.info);
      }
    }
  }

  lemma {:induction false} OpenIsConcat(msgs: seq<Msg>)
    ensures OpenOk(msgs, ReceiveAll(msgs).transfer)
    decreases |msgs|
  {
    hide OpenOk, Receive;
    if msgs == [] {
      NothingOpen();
    } else {
      var n := |msgs| - 1;
      OpenIsConcat(msgs[..n]);
      OpenStep(msgs[..n], ReceiveAll(msgs[..n]), msgs[n]);
      assert msgs[..n] + [msgs[n]] == msgs;
    }
  }

  lemma NothingOpen()
    ensures OpenOk([], None)
  {
  }

  /** The commit that message `n` leads to. */
  ghost predicate CommitsAt(msgs: seq<Msg>, n: nat, e: nat, info: Info, bytes: seq<Byte>) {
    n < |msgs| &&
    var before, after := ReceiveAll(msgs[..n]).log, ReceiveAll(msgs[..n + 1]).log;
    |before| <= |after| && Committed(e, info, bytes) in after[|before|..]
  }

  /**
   For every message sequence: a product is committed only when its bytes came whole in one message, or are exactly the
   data, in order, of the packets since its announcement, all with its signature; and there are as many as announced.
   */
  lemma CommittedIsConcat(msgs: seq<Msg>, n: nat, e: nat, info: Info, bytes: seq<Byte>)
    requires CommitsAt(msgs, n, e, info, bytes)
    ensures |bytes| == info.sz
    ensures if msgs[n].HereIs? then bytes == msgs[n].data
            else
              var from := LastSoon(msgs[..n]);
              Stretch(msgs, from, n + 1, info) && bytes == Concat(msgs[from..n + 1])
  {
    hide Receive, Stretch, Concat, OpenOk, ReceiveAll, Follows;
    var before, m := msgs[..n], msgs[n];
    assert msgs[..n + 1] == before + [m];
    ReceiveMore(before, m);
    OpenIsConcat(before);
    CommitStep(ReceiveAll(before), m, e, info, bytes);
    if !m.HereIs? {
      OpenOkParts(before, ReceiveAll(before).transfer);
      StretchGrows(before, m, info);
      var from := LastSoon(before);
      StretchWithin(msgs, before + [m], from, info);
      assert (before + [m])[from..] == msgs[from..n + 1];
    }
  }

  lemma OpenOkParts(msgs: seq<Msg>, t: Transfer)
    requires OpenOk(msgs, t) && t.Open?
    ensures |t.got| < t.info.sz && Stretch(msgs, LastSoon(msgs), |msgs|, t.info)
            && t.got == Concat(msgs[LastSoon(msgs)..])
  {
  }

  lemma StretchWithin(msgs: seq<Msg>, upto: seq<Msg>, from: int, info: Info)
    requires upto <= msgs && Stretch(upto, from, |upto|, info)
    ensures Stretch(msgs, from, |upto|, info)
  {
  }

  lemma CommitStep(s: Receiver, m: Msg, e: nat, info: Info, bytes: seq<Byte>)
    requires |s.log| <= |Receive(s, m).log| && Committed(e, info, bytes) in Receive(s, m).log[|s.log|..]
    ensures m.HereIs? ==> bytes == m.data && |bytes| == info.sz
    ensures !m.HereIs? ==>
              && s.transfer.Open? && s.transfer.info == info && s.transfer.e == e && m.BlkData? && Follows(m, info)
              && bytes == s.transfer.got + m.data && (|s.transfer.got| < info.sz ==> |bytes| == info.sz)
  {
    var news := Receive(s, m).log[|s.log|..];
    var k :| 0 <= k < |news| && news[k] == Committed(e, info, bytes);
    assert news[k] == Receive(s, m).log[|s.log| + k];
  }

  /** While its packets add up to less than announced, the transfer stays open and holds their data. */
  lemma {:induction false} StaysOpen(msgs: seq<Msg>, from: nat, end: nat, info: Info)
    requires Stretch(msgs, from, end, info) && |Concat(msgs[from..end])| < info.sz
    ensures var t := ReceiveAll(msgs[..end]).transfer; t.Open? && t.info == info && t.got == Concat(msgs[from..end])
    decreases end
  {
    hide Receive, Concat, ReceiveAll;
    var n := end - 1;
    assert msgs[..end] == msgs[..n] + [msgs[n]];
    ReceiveMore(msgs[..n], msgs[n]);
    if from == n {
      assert msgs[from..end] == [] + [msgs[from]];
      ConcatMore([], msgs[from]);
      ConcatNothing();
      Opens(ReceiveAll(msgs[..n]), msgs[n], info);
    } else {
      assert msgs[from..end] == msgs[from..n] + [msgs[n]];
      ConcatMore(msgs[from..n], msgs[n]);
      StaysOpen(msgs, from, n, info);
      OpenStays(ReceiveAll(msgs[..n]), msgs[n]);
    }
  }

  lemma ConcatNothing()
    ensures Concat([]) == []
  {
  }

  lemma Opens(s: Receiver, m: Msg, info: Info)
    requires m == ComingSoon(info, true) && info.sz > 0
    ensures var t := Receive(s, m).transfer; t.Open? && t.info == info && t.got == []
  {
  }

  lemma OpenStays(s: Receiver, m: Msg)
    requires s.transfer.Open? && Follows(m, s.transfer.info) && |s.transfer.got + PacketOf(m)| < s.transfer.info.sz
    ensures Receive(s, m).transfer == s.transfer.(got := s.transfer.got + PacketOf(m))
  {
    if m.HereIs? { assert s.transfer.got + [] == s.transfer.got; }
  }

  /** And a transfer whose packets add up to exactly what was announced is committed with their data. */
  lemma CompleteTransfer(msgs: seq<Msg>, from: nat, n: nat, info: Info) returns (e: nat)
    requires from < n < |msgs| && Stretch(msgs, from, n + 1, info) && msgs[n].BlkData? && msgs[n].committed
    requires |Concat(msgs[from..n])| < info.sz == |Concat(msgs[from..n + 1])|
    ensures CommitsAt(msgs, n, e, info, Concat(msgs[from..n + 1]))
  {
    hide Receive, Concat, ReceiveAll;
    StretchShorter(msgs, from, n, info);
    StaysOpen(msgs, from, n, info);
    assert msgs[from..n + 1] == msgs[from..n] + [msgs[n]];
    ConcatMore(msgs[from..n], msgs[n]);
    var s := ReceiveAll(msgs[..n]);
    e := s.transfer.e;
    LastPacket(s, msgs[n]);
    assert msgs[..n + 1] == msgs[..n] + [msgs[n]];
    ReceiveMore(msgs[..n], msgs[n]);
    var log := ReceiveAll(msgs[..n + 1]).log;
    assert log[|s.log|..][0] == Committed(e, info, Concat(msgs[from..n + 1]));
  }

  lemma StretchShorter(msgs: seq<Msg>, from: nat, n: nat, info: Info)
    requires from < n < |msgs| && Stretch(msgs, from, n + 1, info)
    ensures Stretch(msgs, from, n, info) && Follows(msgs[n], info)
  {
  }

  lemma LastPacket(s: Receiver, m: Msg)
    requires s.transfer.Open? && m.BlkData? && m.sig == s.transfer.info.sig && m.committed
    requires |s.transfer.got| + |m.data| == s.transfer.info.sz
    ensures Receive(s, m).log == s.log + [Committed(s.transfer.e, s.transfer.info, s.transfer.got + m.data)]
  {
  }

  // ---------------------------------------------------------------------
  // One effect per entry
  // ---------------------------------------------------------------------

  /** How often entry `e` was reserved, and how often it was committed or rolled back. */
  ghost function Reservations(log: seq<Event>, e: nat): nat {
    if log == [] then 0
    else Reservations(log[..|log| - 1], e) + if log[|log| - 1].Reserved? && log[|log| - 1].e == e then 1 else 0
  }

  ghost function Effects(log: seq<Event>, e: nat): nat {
    if log == [] then 0
    else Effects(log[..|log| - 1], e) + if !log[|log| - 1].Reserved? && log[|log| - 1].e == e then 1 else 0
  }

  lemma CountMore(log: seq<Event>, v: Event, e: nat)
    ensures Reservations(log + [v], e) == Reservations(log, e) + if v.Reserved? && v.e == e then 1 else 0
    ensures Effects(log + [v], e) == Effects(log, e) + if !v.Reserved? && v.e == e then 1 else 0
  {
    assert (log + [v])[..|log|] == log;
  }

  ghost predicate IsOpen(t: Transfer, e: nat) {
    t.Open? && t.e == e
  }

  /** Entry `e`, if it was reserved, was reserved once and had its effect once, unless it is the open one. */
  ghost predicate OneEffect(s: Receiver, e: nat) {
    && Reservations(s.log, e) == (if e < s.next then 1 else 0)
    && Effects(s.log, e) == (if e < s.next && !IsOpen(s.transfer, e) then 1 else 0)
    && (s.transfer.Open? ==> s.transfer.e < s.next)
  }

  /** At most one transfer is open, and every other reserved entry was committed or rolled back exactly once. */
  lemma {:induction false} OneEffectEach(msgs: seq<Msg>, e: nat)
    ensures OneEffect(ReceiveAll(msgs), e)
    decreases |msgs|
  {
    hide Receive;
    if msgs != [] {
      var n := |msgs| - 1;
      OneEffectEach(msgs[..n], e);
      OneEffectOn(ReceiveAll(msgs[..n]), msgs[n], e);
    }
  }

  lemma OneEffectAbandoned(s: Receiver, e: nat)
    requires OneEffect(s, e)
    ensures OneEffect(Abandoned(s), e)
  {
    hide Reservations, Effects;
    if s.transfer.Open? { CountMore(s.log, RolledBack(s.transfer.e, s.transfer.info), e); }
  }

  lemma OneEffectInserted(s: Receiver, info: Info, data: seq<Byte>, committed: bool, e: nat)
    requires OneEffect(s, e)
    ensures OneEffect(Inserted(s, info, data, committed), e)
  {
    hide Reservations, Effects;
    var log := s.log + [Reserved(s.next, info)];
    CountMore(s.log, Reserved(s.next, info), e);
    CountMore(log, if committed then Committed(s.next, info, data) else RolledBack(s.next, info), e);
  }

  lemma OneEffectOn(s: Receiver, m: Msg, e: nat)
    requires OneEffect(s, e)
    ensures OneEffect(Receive(s, m), e)
  {
    hide Reservations, Effects, Abandoned, Inserted;
    OneEffectAbandoned(s, e);
    match m
    case HereIs(sig, data, _, committed) => OneEffectInserted(s, Info(sig, |data|), data, committed, e);
    case ComingSoon(info, _) =>
      NotOpen(s);
      CountMore(Abandoned(s).log, Reserved(Abandoned(s).next, info), e);
    case BlkData(_, data, _) =>
      if s.transfer.Open? { CountMore(s.log, Committed(s.transfer.e, s.transfer.info, s.transfer.got + data), e); }
    case Close =>
  }

  lemma NotOpen(s: Receiver)
    ensures Abandoned(s).transfer.None?
  {
  }

  /** An entry is committed or rolled back as the product that it was reserved for, after it was. */
  ghost predicate Backed(log: seq<Event>) {
    forall k :: 0 <= k < |log| && !log[k].Reserved? ==> Reserved(log[k].e, log[k].info) in log[..k]
  }

  ghost predicate BackedOpen(s: Receiver) {
    Backed(s.log) && (s.transfer.Open? ==> Reserved(s.transfer.e, s.transfer.info) in s.log)
  }

  lemma {:induction false} EffectAfterReservation(msgs: seq<Msg>)
    ensures BackedOpen(ReceiveAll(msgs))
    decreases |msgs|
  {
    hide Receive;
    if msgs != [] {
      var n := |msgs| - 1;
      EffectAfterReservation(msgs[..n]);
      BackedOn(ReceiveAll(msgs[..n]), msgs[n]);
    }
  }

  lemma BackedMore(log: seq<Event>, v: Event)
    requires Backed(log) && (v.Reserved? || Reserved(v.e, v.info) in log)
    ensures Backed(log + [v]) && v in log + [v]
  {
    var log' := log + [v];
    forall k | 0 <= k < |log'| && !log'[k].Reserved? ensures Reserved(log'[k].e, log'[k].info) in log'[..k] {
      assert log'[..k] == if k < |log| then log[..k] else log;
    }
  }

  lemma BackedAbandoned(s: Receiver)
    requires BackedOpen(s)
    ensures BackedOpen(Abandoned(s))
  {
    hide Backed;
    if s.transfer.Open? { BackedMore(s.log, RolledBack(s.transfer.e, s.transfer.info)); }
  }

  lemma BackedInserted(s: Receiver, info: Info, data: seq<Byte>, committed: bool)
    requires BackedOpen(s)
    ensures BackedOpen(Inserted(s, info, data, committed))
  {
    hide Backed;
    var v := if committed then Committed(s.next, info, data) else RolledBack(s.next, info);
    BackedMore(s.log, Reserved(s.next, info));
    BackedMore(s.log + [Reserved(s.next, info)], v);
  }

  lemma BackedPacket(s: Receiver, sig: Signature, data: seq<Byte>, committed: bool)
    requires BackedOpen(s)
    ensures BackedOpen(Packet(s, sig, data, committed))
  {
    hide Backed, Abandoned;
    BackedAbandoned(s);
    if s.transfer.Open? { BackedMore(s.log, Committed(s.transfer.e, s.transfer.info, s.transfer.got + data)); }
  }

  lemma BackedOn(s: Receiver, m: Msg)
    requires BackedOpen(s)
    ensures BackedOpen(Receive(s, m))
  {
    hide Backed, Abandoned, Inserted, Packet;
    BackedAbandoned(s);
    match m
    case HereIs(sig, data, _, committed) => BackedInserted(s, Info(sig, |data|), data, committed);
    case ComingSoon(info, _) => BackedMore(Abandoned(s).log, Reserved(Abandoned(s).next, info));
    case BlkData(sig, data, committed) => BackedPacket(s, sig, data, committed);
    case Close =>
  }

  /** Once the handler has ended, every entry ever reserved was committed or rolled back exactly once. */
  lemma AllOverAtClose(msgs: seq<Msg>, e: nat)
    requires msgs != [] && msgs[|msgs| - 1] == Close
    ensures var s := ReceiveAll(msgs); s.transfer.None? && (e < s.next ==> Effects(s.log, e) == 1)
  {
    OneEffectEach(msgs, e);
    NotOpen(ReceiveAll(msgs[..|msgs| - 1]));
  }

  // ---------------------------------------------------------------------
  // The handler
  // ---------------------------------------------------------------------

  class DownstreamClientHandler {
    var expectBlkdata: bool
    var pending: Info
    /** The active entry still holds its region. */
    var leased: bool
    /** The payload part of the entry's mapped region. */
    var region: array<Byte>
    var remaining: nat
    ghost var entry: nat
    ghost var next: nat
    ghost var log: seq<Event>

    ghost predicate Valid()
      reads this, region
    {
      && expectBlkdata == leased
      && (expectBlkdata ==> 0 < remaining <= pending.sz <= region.Length)
    }

    ghost function AsReceiver(): Receiver
      reads this, region
      requires Valid()
    {
      Receiver(if expectBlkdata then Open(entry, pending, region[..pending.sz - remaining]) else None, next, log)
    }

    constructor ()
      ensures Valid() && AsReceiver() == ReceiveAll([]) && fresh(region)
    {
      expectBlkdata, leased, remaining, pending := false, false, 0, Info(seq(16, _ => 0), 0);
      entry, next, log := 0, 0, [];
      region := new Byte[0];
    }

    /** Give the entry's region back, if it still has it. */
    method Rollback()
      modifies this`leased, this`log
      ensures !leased && log == if old(leased) then old(log) + [RolledBack(entry, pending)] else old(log)
    {
      if leased {
        leased := false;
        log := log + [RolledBack(entry, pending)];
      }
    }

    /** A whole product arrives and goes into the queue through an entry of its own. */
    method OnHereIs(sig: Signature, data: seq<Byte>, reserved: bool, committed: bool)
      requires Valid()
      modifies this`next, this`log
      ensures Valid() && AsReceiver() == Receive(old(AsReceiver()), HereIs(sig, data, reserved, committed))
    {
      if data != [] && reserved {
        ghost var info, e := Info(sig, |data|), next;
        log := log + [Reserved(e, info)];
        next := next + 1;
        log := log + [if committed then Committed(e, info, data) else RolledBack(e, info)];
      }
    }

    /** A product is announced.  The queue may refuse it; a region it grants has room for at least the payload. */
    method OnComingSoon(info: Info, reserved: bool, capacity: nat) returns (accepted: bool)
      requires Valid() && info.sz <= capacity
      modifies this
      ensures Valid() && AsReceiver() == Receive(old(AsReceiver()), ComingSoon(info, reserved))
      ensures accepted <==> info.sz > 0 && reserved
      ensures accepted ==> fresh(region)
      ensures !accepted ==> region == old(region)
    {
      if expectBlkdata {
        Rollback();
        expectBlkdata := false;
      }
      pending := info;
      accepted := info.sz > 0 && reserved;
      if accepted {
        log := log + [Reserved(next, info)];
        entry, next := next, next + 1;
        leased := true;
        region := new Byte[capacity];
        expectBlkdata := true;
        remaining := info.sz;
      }
    }

    /** A packet arrives: it is copied behind the ones before, or ends the transfer if it does not belong there. */
    method OnBlkData(sig: Signature, data: seq<Byte>, committed: bool)
      requires Valid()
      modifies this`expectBlkdata, this`leased, this`remaining, this`log, region
      ensures Valid() && AsReceiver() == Receive(old(AsReceiver()), BlkData(sig, data, committed))
    {
      if !expectBlkdata { return; }
      if pending.sig != sig || |data| > remaining {
        Rollback();
        expectBlkdata := false;
        return;
      }
      ghost var got := region[..pending.sz - remaining];
      var offset := pending.sz - remaining;
      Copy(offset, data);
      remaining := remaining - |data|;
      assert region[..pending.sz - remaining] == got + data;
      if remaining == 0 {
        expectBlkdata := false;
        leased := false;
        log := log + [if committed then Committed(entry, pending, region[..pending.sz])
                      else RolledBack(entry, pending)];
        if !committed { Rollback(); }
      }
    }

    method Copy(offset: nat, data: seq<Byte>)
      requires offset + |data| <= region.Length
      modifies region
      ensures region[..offset + |data|] == old(region[..offset]) + data
    {
      for i := 0 to |data|
        invariant region[..offset + i] == old(region[..offset]) + data[..i]
      {
        region[offset + i] := data[i];
        assert region[..offset + i + 1] == region[..offset + i] + [data[i]];
      }
    }

    /** The handler ends: an entry that is still open is rolled back. */
    method End()
      requires Valid()
      modifies this`expectBlkdata, this`leased, this`log
      ensures Valid() && AsReceiver() == Receive(old(AsReceiver()), Close)
    {
      Rollback();
      expectBlkdata := false;
    }
  }
}
