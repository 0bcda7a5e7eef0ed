/**
 How readers of a queue wait for writers (core/ProcessNotifier.cpp, core/QueueApp.h,
 the reader loops of apps/pqcat.cpp and core/UpstreamClientHandler.h): a version
 counter, bumped under a mutex after products were committed.

 Every step below is one atomic action of one process; any interleaving is a run.
 Products are numbered in the order of their commits.
 */
module Notifiers {

  /**
   Where a reader is in its loop: about to look for a product, about to note the version after it got one, at the
   end of the queue and about to compare versions, asleep on the condition variable, or about to note the version
   after waiting.
   */
  datatype Pc = Look | Refresh | AtEnd | Asleep | Resync

  /** `due`: the products above the cursor when they were committed, or when the reader started. */
  datatype Reader = Reader(pc: Pc, cursor: int, known: nat, due: set<nat>, offered: set<nat>)

  /**
   `queue` gives the product at each insertion time, `next` is the number of the next one, and `pending[w]` are the
   products that writer `w` committed since it last notified.
   */
  datatype State = State(queue: map<int, nat>, next: nat, pending: seq<set<nat>>,
                         version: nat, announced: map<nat, nat>, readers: seq<Reader>)

  datatype Action =
    | Commit(w: nat, t: int)
    | Notify(w: nat)
    | Evict(t: int)
    | Lookup(r: nat)
    | Note(r: nat)
    | Check(r: nat)
    | Wake(r: nat, giveUp: bool)
    | SkipWait(r: nat)

  ghost function Announce(a: map<nat, nat>, ps: set<nat>, v: nat): map<nat, nat> {
    map p | p in a.Keys + ps :: if p in ps then v else a[p]
  }

  /** A broadcast ends every sleep. */
  function Woken(r: Reader): Reader {
    if r.pc == Asleep then r.(pc := AtEnd) else r
  }

  /** A product came in at time `t`; a reader that has passed that time will not come to it. */
  function Expecting(r: Reader, t: int, p: nat): Reader {
    if r.cursor < t then r.(due := r.due + {p}) else r
  }

  ghost predicate FirstAfter(queue: map<int, nat>, c: int, t: int) {
    t in queue && c < t && forall u :: u in queue && c < u ==> t <= u
  }

  ghost predicate LookedUp(s: State, r: Reader, r': Reader) {
    if exists u :: u in s.queue && r.cursor < u
    then
      exists t :: FirstAfter(s.queue, r.cursor, t) &&
                  r' == r.(cursor := t, offered := r.offered + {s.queue[t]}, pc := Refresh)
    else r' == r.(pc := AtEnd)
  }

  ghost predicate ReaderMoved(s: State, s': State, i: nat) {
    i < |s.readers| && |s'.readers| == |s.readers| && s' == s.(readers := s.readers[i := s'.readers[i]])
  }

  /** What an action does.  An insertion time is any that is unused: the clock may have been set back. */
  ghost predicate Step(s: State, a: Action, s': State) {
    match a
    case Commit(w, t) =>
      && w < |s.pending| && t !in s.queue
      && s' == s.(queue := s.queue[t := s.next], next := s.next + 1,
                  pending := s.pending[w := s.pending[w] + {s.next}], readers := s'.readers)
      && |s'.readers| == |s.readers|
      && forall i :: 0 <= i < |s.readers| ==> s'.readers[i] == Expecting(s.readers[i], t, s.next)
    case Notify(w) =>
      && w < |s.pending|
      && s' == s.(version := s.version + 1, announced := Announce(s.announced, s.pending[w], s.version + 1),
                  pending := s.pending[w := {}], readers := s'.readers)
      && |s'.readers| == |s.readers| && forall i :: 0 <= i < |s.readers| ==> s'.readers[i] == Woken(s.readers[i])
    case Evict(t) => s' == s.(queue := s.queue - {t})
    case Lookup(i) => ReaderMoved(s, s', i) && s.readers[i].pc == Look && LookedUp(s, s.readers[i], s'.readers[i])
    case Note(i) =>
      && ReaderMoved(s, s', i) && s.readers[i].pc in {Refresh, Resync}
      && s'.readers[i] == s.readers[i].(pc := Look, known := s.version)
    case Check(i) =>
      && ReaderMoved(s, s', i) && s.readers[i].pc == AtEnd
      && s'.readers[i] == s.readers[i].(pc := if s.version == s.readers[i].known then Asleep else Resync)
    case Wake(i, giveUp) =>
      && ReaderMoved(s, s', i) && s.readers[i].pc == Asleep
      && s'.readers[i] == s.readers[i].(pc := if giveUp then Resync else AtEnd)
    case SkipWait(i) =>
      ReaderMoved(s, s', i) && s.readers[i].pc == AtEnd && s'.readers[i] == s.readers[i].(pc := Look)
  }

  ghost predicate QueueOk(s: State) {
    && (forall t :: t in s.queue ==> s.queue[t] < s.next)
    && (forall t, u :: t in s.queue && u in s.queue && s.queue[t] == s.queue[u] ==> t == u)
    && (forall w, p :: 0 <= w < |s.pending| && p in s.pending[w] ==> p < s.next)
    && (forall p :: p in s.announced ==> p < s.next && s.announced[p] <= s.version)
  }

  ghost predicate Starts(s: State, r: Reader) {
    && r.pc == Look && r.known <= s.version && r.offered == {}
    && (forall p :: p in r.due ==> p < s.next)
    && (forall t :: t in s.queue ==> (s.queue[t] in r.due <==> r.cursor < t))
  }

  /** Any queue; each reader has noted the version before its first look-up. */
  ghost predicate Init(s: State) {
    QueueOk(s) && forall i :: 0 <= i < |s.readers| ==> Starts(s, s.readers[i])
  }

  /** A product that this reader has not come to yet and whose notification it could already know of. */
  ghost predicate Overlooked(s: State, r: Reader, t: int) {
    t in s.queue && r.cursor < t && s.queue[t] in s.announced && s.announced[s.queue[t]] <= r.known
  }

  /** What is in the queue above the cursor is due and still to come; below it, what was due has been offered. */
  ghost predicate Split(s: State, r: Reader) {
    forall t :: t in s.queue ==>
      if r.cursor < t then s.queue[t] in r.due - r.offered else s.queue[t] in r.due ==> s.queue[t] in r.offered
  }

  ghost predicate ReaderOk(s: State, r: Reader) {
    && r.known <= s.version && r.offered <= r.due && (forall p :: p in r.due ==> p < s.next) && Split(s, r)
    && (r.pc == AtEnd || r.pc == Asleep ==> forall t :: !Overlooked(s, r, t))
    && (r.pc == Asleep ==> r.known == s.version)
  }

  ghost predicate Inv(s: State) {
    QueueOk(s) && forall i :: 0 <= i < |s.readers| ==> ReaderOk(s, s.readers[i])
  }

  lemma InitInv(s: State)
    requires Init(s)
    ensures Inv(s)
  {
    forall i | 0 <= i < |s.readers| ensures ReaderOk(s, s.readers[i]) {
      assert Starts(s, s.readers[i]);
    }
  }

  lemma OthersStay(s: State, s': State, i: nat)
    requires Inv(s) && ReaderMoved(s, s', i) && ReaderOk(s', s'.readers[i])
    ensures Inv(s')
  {
    forall k | 0 <= k < |s'.readers| ensures ReaderOk(s', s'.readers[k]) {
      if k != i {
        var r := s.readers[k];
        assert ReaderOk(s, r) && s'.readers[k] == r;
        forall t ensures Overlooked(s', r, t) ==> Overlooked(s, r, t) {
        }
      }
    }
  }

  lemma WriterStep(s: State, a: Action, s': State)
    requires Inv(s) && Step(s, a, s') && (a.Commit? || a.Notify? || a.Evict?)
    ensures Inv(s')
  {
    forall k | 0 <= k < |s'.readers| ensures ReaderOk(s', s'.readers[k]) {
      var r, r' := s.readers[k], s'.readers[k];
      assert ReaderOk(s, r);
      forall t ensures Overlooked(s', r', t) ==> Overlooked(s, r, t) {
      }
    }
  }

  lemma ReaderStep(s: State, a: Action, s': State)
    requires Inv(s) && Step(s, a, s') && !(a.Commit? || a.Notify? || a.Evict?)
    ensures Inv(s')
  {
    var i := a.r;
    var r, r' := s.readers[i], s'.readers[i];
    assert ReaderOk(s, r);
    forall t
      ensures Overlooked(s', r', t) ==> r'.known == s.version != r.known || r'.cursor != r.cursor || Overlooked(s, r, t)
    {
    }
    OthersStay(s, s', i);
  }

  /** A run: any finite interleaving. */
  ghost predicate Run(states: seq<State>, actions: seq<Action>) {
    && |states| == |actions| + 1 && Init(states[0])
    && forall k :: 0 <= k < |actions| ==> Step(states[k], actions[k], states[k + 1])
  }

  lemma {:induction false} RunInv(states: seq<State>, actions: seq<Action>, k: nat)
    requires Run(states, actions) && k < |states|
    ensures Inv(states[k])
    decreases k
  {
    if k == 0 {
      InitInv(states[0]);
    } else {
      RunInv(states, actions, k - 1);
      var a := actions[k - 1];
      assert Step(states[k - 1], a, states[k - 1 + 1]);
      if a.Commit? || a.Notify? || a.Evict? {
        WriterStep(states[k - 1], a, states[k]);
      } else {
        ReaderStep(states[k - 1], a, states[k]);
      }
    }
  }

  /** The reader sleeps, or compares versions and finds its own. */
  predicate Idle(s: State, r: Reader) {
    r.pc == Asleep || (r.pc == AtEnd && r.known == s.version)
  }

  /**
   No lost wake-up: in every run, of the products in the queue whose notification has completed, an idle reader has been
   offered exactly those that were above its cursor when they were committed.
   */
  lemma NoLostWakeup(states: seq<State>, actions: seq<Action>, k: nat, i: nat, t: int)
    requires Run(states, actions) && k < |states| && i < |states[k].readers| && Idle(states[k], states[k].readers[i])
    requires t in states[k].queue && states[k].queue[t] in states[k].announced
    ensures states[k].queue[t] in states[k].readers[i].offered <==> states[k].queue[t] in states[k].readers[i].due
  {
    RunInv(states, actions, k);
    assert ReaderOk(states[k], states[k].readers[i]);
    assert !Overlooked(states[k], states[k].readers[i], t);
  }

  /** So a reader that still has an announced product to come never goes to sleep: its version is out of date. */
  lemma CheckSeesNews(states: seq<State>, actions: seq<Action>, k: nat, i: nat, t: int)
    requires Run(states, actions) && k < |actions| && actions[k] == Check(i) && i < |states[k].readers|
    requires t in states[k].queue && states[k].queue[t] in states[k].announced
    requires states[k].queue[t] in states[k].readers[i].due - states[k].readers[i].offered
    ensures states[k + 1].readers[i].pc == Resync
  {
    assert Step(states[k], actions[k], states[k + 1]);
    if states[k].readers[i].known == states[k].version {
      NoLostWakeup(states, actions, k, i, t);
    }
  }

  /** What a writer has committed it announces, and what is announced stays so. */
  lemma {:induction false} Pending(states: seq<State>, actions: seq<Action>, j: nat, k: nat)
    requires Run(states, actions) && j < k <= |actions| && actions[j].Commit?
    ensures var w, p := actions[j].w, states[j].next;
            w < |states[k].pending| && (p in states[k].pending[w] || p in states[k].announced)
    decreases k
  {
    assert Step(states[k - 1], actions[k - 1], states[k - 1 + 1]);
    if k - 1 > j { Pending(states, actions, j, k - 1); }
  }

  /** Once its writer has notified, a committed product is announced for good. */
  lemma {:induction false} Announced(states: seq<State>, actions: seq<Action>, j: nat, k: nat, m: nat)
    requires Run(states, actions) && j < k < m <= |actions| && actions[j].Commit? && actions[k] == Notify(actions[j].w)
    ensures states[j].next in states[m].announced
    decreases m
  {
    assert Step(states[m - 1], actions[m - 1], states[m - 1 + 1]);
    if m - 1 > k {
      Announced(states, actions, j, k, m - 1);
    } else {
      Pending(states, actions, j, k);
    }
  }

  /** No writer has notified in the actions from the `j`th to before the `k`th. */
  ghost predicate Quiet(actions: seq<Action>, j: nat, k: nat) {
    forall i :: j <= i < k && i < |actions| ==> !actions[i].Notify?
  }

  /** A reader that has noted the version knows it until a writer notifies. */
  lemma {:induction false} NotedStays(states: seq<State>, actions: seq<Action>, j: nat, k: nat, i: nat)
    requires Run(states, actions) && j < k <= |actions| && actions[j] == Note(i) && Quiet(actions, j, k)
    ensures i < |states[k].readers| && states[k].readers[i].known == states[k].version
    decreases k
  {
    assert Step(states[k - 1], actions[k - 1], states[k - 1 + 1]);
    if k - 1 > j {
      NotedStays(states, actions, j, k - 1, i);
      assert !actions[k - 1].Notify?;
    }
  }

  /** So without news it goes to sleep the next time it compares versions: there is no busy waiting. */
  lemma SleepsWithoutNews(states: seq<State>, actions: seq<Action>, j: nat, k: nat, i: nat)
    requires Run(states, actions) && j < k < |actions| && actions[j] == Note(i) && actions[k] == Check(i)
    requires Quiet(actions, j, k)
    ensures states[k + 1].readers[i].pc == Asleep
  {
    NotedStays(states, actions, j, k, i);
    assert Step(states[k], actions[k], states[k + 1]);
  }

  /** What a reader has passed when it is committed, the reader is never offered. */
  lemma PassedIsNotOffered(states: seq<State>, actions: seq<Action>, k: nat, i: nat, p: nat)
    requires Run(states, actions) && k < |states| && i < |states[k].readers| && p !in states[k].readers[i].due
    ensures p !in states[k].readers[i].offered
  {
    RunInv(states, actions, k);
    assert ReaderOk(states[k], states[k].readers[i]);
  }

  /** Each moment of a run in which the clock was set back before a commit. */
  ghost function Late(k: nat): State {
    var r := Reader(Look, 10, 0, {}, {});
    match k
    case 0 => State(map[], 0, [{}], 0, map[], [r])
    case 1 => State(map[], 0, [{}], 0, map[], [r.(pc := AtEnd)])
    case 2 => State(map[5 := 0], 1, [{0}], 0, map[], [r.(pc := AtEnd)])
    case 3 => State(map[5 := 0], 1, [{}], 1, map[0 := 1], [r.(pc := AtEnd)])
    case 4 => State(map[5 := 0], 1, [{}], 1, map[0 := 1], [r.(pc := Resync)])
    case 5 => State(map[5 := 0], 1, [{}], 1, map[0 := 1], [r.(known := 1)])
    case 6 => State(map[5 := 0], 1, [{}], 1, map[0 := 1], [r.(pc := AtEnd, known := 1)])
    case _ => State(map[5 := 0], 1, [{}], 1, map[0 := 1], [r.(pc := Asleep, known := 1)])
  }

  ghost function LateAction(k: nat): Action {
    match k
    case 0 => Lookup(0)
    case 1 => Commit(0, 5)
    case 2 => Notify(0)
    case 4 => Note(0)
    case 5 => Lookup(0)
    case _ => Check(0)
  }

  lemma LateStep(k: nat)
    requires k < 7
    ensures Step(Late(k), LateAction(k), Late(k + 1))
  {
    if k == 1 {
      assert Late(1).pending[0] + {0} == {0} && Late(1).queue[5 := 0] == map[5 := 0];
    } else if k == 2 {
      assert Announce(map[], {0}, 1) == map[0 := 1];
    }
  }

  /** Such a run ends with the product announced and in the queue, and the reader asleep without it. */
  lemma ClockSetBack() returns (states: seq<State>, actions: seq<Action>)
    ensures Run(states, actions)
    ensures var s := states[|actions|];
            && |s.readers| == 1 && s.readers[0].pc == Asleep && 5 in s.queue && s.queue[5] in s.announced
            && s.queue[5] !in s.readers[0].offered
  {
    hide Step;
    states, actions := seq(8, k requires 0 <= k => Late(k)), seq(7, k requires 0 <= k => LateAction(k));
    forall k | 0 <= k < 7 ensures Step(states[k], actions[k], states[k + 1]) {
      LateStep(k);
    }
  }
}
