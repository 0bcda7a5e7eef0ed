/**
 What the indexes of a product queue say together: the signature index, the
 regions in use and the time queue, seen as a map, a set and a sequence.
 */
module IndexStates {
  import opened SkipTheory
  import opened SignatureIndexes
  import opened Timestamps
  import opened TimeQueues

  /** The part of an encoded product header that the indexes look at. */
  datatype Header = Header(signature: Signature, arrival: Timestamp)

  /** `owner` names the product of each region in use; `disk` holds the headers found in the data section. */
  datatype Ix = Ix(sigs: map<Signature, int>, used: set<int>, times: seq<Entry>, owner: map<int, Signature>,
                   disk: map<int, Header>)

  ghost function Offsets(times: seq<Entry>): set<int> {
    set i | 0 <= i < |times| :: times[i].offset
  }

  /** The regions in use that belong to no committed product. */
  ghost function Open(x: Ix): set<int> {
    x.used - Offsets(x.times)
  }

  /** Signatures and regions in use correspond one to one. */
  ghost predicate OneToOne(sigs: map<Signature, int>, used: set<int>, owner: map<int, Signature>) {
    && (forall o :: o in owner <==> o in used)
    && (forall s :: s in sigs ==> sigs[s] in owner && owner[sigs[s]] == s)
    && (forall o :: o in owner ==> owner[o] in sigs && sigs[owner[o]] == o)
  }

  /** Each committed product has a region of its own. */
  ghost predicate Housed(times: seq<Entry>, used: set<int>) {
    && (forall i :: 0 <= i < |times| ==> times[i].offset in used)
    && (forall i, j :: 0 <= i < j < |times| ==> times[i].offset != times[j].offset)
  }

  /** The header in a committed product's region is the one its signature was entered with. */
  ghost predicate Readable(times: seq<Entry>, owner: map<int, Signature>, disk: map<int, Header>) {
    forall i :: 0 <= i < |times| ==>
      times[i].offset in disk && times[i].offset in owner && disk[times[i].offset].signature == owner[times[i].offset]
  }

  ghost predicate Agree(x: Ix) {
    OneToOne(x.sigs, x.used, x.owner) && Housed(x.times, x.used) && Readable(x.times, x.owner, x.disk)
  }

  // ---------------------------------------------------------------------
  // The four ways the state changes
  // ---------------------------------------------------------------------

  /** A region of a new product goes into use, not yet committed. */
  ghost function Reserved(x: Ix, sig: Signature, o: int): Ix {
    x.(sigs := x.sigs[sig := o], used := x.used + {o}, owner := x.owner[o := sig])
  }

  /** The open region `o` enters the time queue at place `k`. */
  ghost function Committed(x: Ix, k: nat, t: Timestamp, o: int): Ix
    requires k <= |x.times|
  {
    x.(times := InsertAt(x.times, k, Entry(t, o)))
  }

  /** The region `o` goes out of use with its signature. */
  ghost function Forgotten(x: Ix, o: int): Ix
    requires o in x.owner
  {
    x.(sigs := x.sigs - {x.owner[o]}, used := x.used - {o}, owner := x.owner - {o})
  }

  /** The `k`th oldest product is deleted. */
  ghost function Evicted(x: Ix, k: nat): Ix
    requires k < |x.times| && x.times[k].offset in x.owner
  {
    Forgotten(x, x.times[k].offset).(times := RemoveAt(x.times, k))
  }

  /** A region that is already in use cannot be reserved for another product. */
  lemma ReservedExactly(x: Ix, sig: Signature, o: int)
    requires Agree(x) && sig !in x.sigs
    ensures Agree(Reserved(x, sig, o)) <==> o !in x.used
  {
    if o in x.used {
      var x' := Reserved(x, sig, o);
      var s := x.owner[o];
      assert s in x'.sigs && x'.sigs[s] == o && x'.owner[o] == sig;
    } else {
      ReservedAgrees(x, sig, o);
    }
  }

  lemma ReservedAgrees(x: Ix, sig: Signature, o: int)
    requires Agree(x) && sig !in x.sigs && o !in x.used
    ensures Agree(Reserved(x, sig, o)) && Open(Reserved(x, sig, o)) == Open(x) + {o} && o !in Offsets(x.times)
  {
  }

  lemma OffsetsInserted(times: seq<Entry>, k: nat, e: Entry)
    requires k <= |times|
    ensures Offsets(InsertAt(times, k, e)) == Offsets(times) + {e.offset}
  {
    var r := InsertAt(times, k, e);
    forall o | o in Offsets(times) + {e.offset} ensures o in Offsets(r) {
      if o in Offsets(times) {
        var i :| 0 <= i < |times| && times[i].offset == o;
        assert r[if i < k then i else i + 1].offset == o;
      } else {
        assert r[k].offset == o;
      }
    }
    forall o | o in Offsets(r) ensures o in Offsets(times) + {e.offset} {
      var i :| 0 <= i < |r| && r[i].offset == o;
      if i != k { assert times[if i < k then i else i - 1].offset == o; }
    }
  }

  /** The header in the region has the signature that the region is reserved for. */
  ghost predicate HeaderFits(x: Ix, o: int) {
    o in x.disk && o in x.owner && x.disk[o].signature == x.owner[o]
  }

  /** A product can be committed, and the indexes still agree, exactly when its header has its own signature. */
  lemma CommittedExactly(x: Ix, k: nat, t: Timestamp, o: int)
    requires Agree(x) && o in Open(x) && k <= |x.times| && o in x.disk
    ensures Open(Committed(x, k, t, o)) == Open(x) - {o}
    ensures Agree(Committed(x, k, t, o)) <==> HeaderFits(x, o)
  {
    OffsetsInserted(x.times, k, Entry(t, o));
    if HeaderFits(x, o) {
      CommittedAgrees(x, k, t, o);
    } else {
      assert Committed(x, k, t, o).times[k] == Entry(t, o);
    }
  }

  lemma CommittedAgrees(x: Ix, k: nat, t: Timestamp, o: int)
    requires Agree(x) && o in Open(x) && k <= |x.times| && HeaderFits(x, o)
    ensures Agree(Committed(x, k, t, o)) && Open(Committed(x, k, t, o)) == Open(x) - {o}
  {
    var x' := Committed(x, k, t, o);
    OffsetsInserted(x.times, k, Entry(t, o));
    forall i | 0 <= i < |x.times| ensures x.times[i].offset != o {
      assert x.times[i].offset in Offsets(x.times);
    }
  }

  lemma OpenOffset(x: Ix, o: int)
    requires o in Open(x)
    ensures forall i :: 0 <= i < |x.times| ==> x.times[i].offset != o
  {
    forall i | 0 <= i < |x.times| ensures x.times[i].offset != o {
      assert x.times[i].offset in Offsets(x.times);
    }
  }

  lemma ForgottenAgrees(x: Ix, o: int)
    requires Agree(x) && o in Open(x)
    ensures o in x.owner && Agree(Forgotten(x, o)) && Open(Forgotten(x, o)) == Open(x) - {o}
  {
    OpenOffset(x, o);
  }

  /** The region at `o` and the signature `sig` are taken out, each from its own index. */
  ghost function Freed(x: Ix, o: int, sig: Signature): Ix {
    x.(sigs := x.sigs - {sig}, used := x.used - {o}, owner := x.owner - {o})
  }

  /** That is a roll-back exactly when the region is reserved for that product. */
  lemma FreedExactly(x: Ix, o: int, sig: Signature)
    requires Agree(x) && o in x.used
    ensures Agree(Freed(x, o, sig)) <==> Lease(x, o, sig)
    ensures Lease(x, o, sig) ==> o in x.owner && Freed(x, o, sig) == Forgotten(x, o)
  {
    var x' := Freed(x, o, sig);
    if x.owner[o] != sig {
      var s := x.owner[o];
      assert s in x'.sigs && x'.sigs[s] == o && o !in x'.owner;
    } else if o !in Open(x) {
      var i :| 0 <= i < |x.times| && x.times[i].offset == o;
      assert x'.times[i].offset !in x'.used;
    } else {
      ForgottenAgrees(x, o);
    }
  }

  lemma OffsetsRemoved(times: seq<Entry>, k: nat)
    requires k < |times| && forall i, j :: 0 <= i < j < |times| ==> times[i].offset != times[j].offset
    ensures Offsets(RemoveAt(times, k)) == Offsets(times) - {times[k].offset}
  {
    var r := RemoveAt(times, k);
    forall o | o in Offsets(times) && o != times[k].offset ensures o in Offsets(r) {
      var i :| 0 <= i < |times| && times[i].offset == o;
      assert r[if i < k then i else i - 1].offset == o;
    }
    forall o | o in Offsets(r) ensures o in Offsets(times) && o != times[k].offset {
      var i :| 0 <= i < |r| && r[i].offset == o;
      assert times[if i < k then i else i + 1].offset == o;
    }
  }

  lemma EvictedAgrees(x: Ix, k: nat)
    requires Agree(x) && k < |x.times|
    ensures x.times[k].offset in x.owner && Agree(Evicted(x, k)) && Open(Evicted(x, k)) == Open(x)
  {
    OffsetsRemoved(x.times, k);
    var o, x' := x.times[k].offset, Evicted(x, k);
    forall i | 0 <= i < |x'.times|
      ensures x'.times[i] == x.times[if i < k then i else i + 1] && x'.times[i].offset != o
              && x'.times[i].offset in x.used
    {
    }
    assert Housed(x'.times, x'.used);
    assert o in Offsets(x.times);
  }

  /**
   What trying to delete the `k`th oldest product does to any state: the signature that goes is the one in its header,
   and if the index does not have that one, nothing changes.
   */
  ghost function Tried(x: Ix, k: nat): Ix
    requires k < |x.times| && x.times[k].offset in x.disk
  {
    var o := x.times[k].offset;
    var s := x.disk[o].signature;
    if s !in x.sigs then x
    else x.(sigs := x.sigs - {s}, used := x.used - {o}, owner := x.owner - {o}, times := RemoveAt(x.times, k))
  }

  lemma TriedEvicts(x: Ix, k: nat)
    requires Agree(x) && k < |x.times|
    ensures x.times[k].offset in x.owner && x.times[k].offset in x.disk && Tried(x, k) == Evicted(x, k) != x
  {
    EvictedAgrees(x, k);
    assert x.owner[x.times[k].offset] in x.sigs;
    assert |Evicted(x, k).times| < |x.times|;
  }

  /** A product committed with another signature in its header is never deleted cleanly. */
  lemma NeverDeleted(x: Ix, k: nat)
    requires OneToOne(x.sigs, x.used, x.owner) && Housed(x.times, x.used) && k < |x.times|
             && x.times[k].offset in x.disk
    requires !HeaderFits(x, x.times[k].offset)
    ensures Tried(x, k) == x || !Agree(Tried(x, k))
    ensures Tried(x, k) == x <==> x.disk[x.times[k].offset].signature !in x.sigs
  {
    var o, x' := x.times[k].offset, Tried(x, k);
    assert o in x.owner && x.owner[o] in x.sigs && x.sigs[x.owner[o]] == o;
    if x' != x {
      var s := x.owner[o];
      assert s in x'.sigs && x'.sigs[s] == o && o !in x'.owner;
    }
  }

  /** Such a state is one commit away from one in agreement. */
  lemma MismatchedCommit() returns (x: Ix)
    ensures Agree(x) && 100 in Open(x) && 100 in x.disk && !Agree(Committed(x, 0, ZERO, 100))
    ensures Committed(x, 0, ZERO, 100).times[0].offset == 100
            && Tried(Committed(x, 0, ZERO, 100), 0) == Committed(x, 0, ZERO, 100)
  {
    var s: Signature, t: Signature := seq(16, _ => 0), seq(16, _ => 1);
    assert s[0] != t[0];
    x := Ix(map[s := 100], {100}, [], map[100 := s], map[100 := Header(t, ZERO)]);
    CommittedExactly(x, 0, ZERO, 100);
  }

  /** No more products than regions in use. */
  lemma {:induction false} FewerTimes(times: seq<Entry>, used: set<int>)
    requires Housed(times, used)
    ensures |times| <= |used|
  {
    if times != [] {
      var n := |times| - 1;
      FewerTimes(times[..n], used - {times[n].offset});
    }
  }

  lemma OpenRoom(x: Ix, o: int)
    requires Agree(x) && o in Open(x)
    ensures |x.times| < |x.used|
  {
    OpenOffset(x, o);
    FewerTimes(x.times, x.used - {o});
  }

  /** With no open entry every region in use belongs to a committed product. */
  lemma AllCommitted(x: Ix)
    requires Agree(x) && Open(x) == {} && x.used != {}
    ensures x.times != []
  {
    assert x.times == [] ==> Open(x) == x.used;
  }

  // ---------------------------------------------------------------------
  // Leases
  // ---------------------------------------------------------------------

  /** The region at `o` is reserved for `sig` and not committed. */
  ghost predicate Lease(x: Ix, o: int, sig: Signature) {
    o in Open(x) && o in x.owner && x.owner[o] == sig
  }

  ghost predicate LeasesKept(x: Ix, x': Ix) {
    forall o, sig :: Lease(x, o, sig) ==> Lease(x', o, sig)
  }

  ghost predicate LeasesKeptBut(x: Ix, gone: int, x': Ix) {
    forall o, sig :: Lease(x, o, sig) && o != gone ==> Lease(x', o, sig)
  }

  lemma ReservedLeases(x: Ix, sig: Signature, o: int)
    requires Agree(x) && sig !in x.sigs && o !in x.used
    ensures LeasesKept(x, Reserved(x, sig, o)) && Lease(Reserved(x, sig, o), o, sig)
  {
    ReservedAgrees(x, sig, o);
  }

  lemma EvictedLeases(x: Ix, k: nat)
    requires Agree(x) && k < |x.times|
    ensures x.times[k].offset in x.owner && LeasesKept(x, Evicted(x, k))
  {
    EvictedAgrees(x, k);
    assert x.times[k].offset in Offsets(x.times);
  }

  lemma ForgottenLeases(x: Ix, o: int)
    requires Agree(x) && o in Open(x)
    ensures o in x.owner && LeasesKeptBut(x, o, Forgotten(x, o))
  {
    ForgottenAgrees(x, o);
  }

  lemma CommittedLeases(x: Ix, k: nat, t: Timestamp, o: int)
    requires k <= |x.times|
    ensures LeasesKeptBut(x, o, Committed(x, k, t, o))
  {
    OffsetsInserted(x.times, k, Entry(t, o));
  }

  /** What is written at the start of a region: an encoded header, or something that cannot be read as one. */
  datatype Bytes = Encoded(header: Header) | Other

  function Stored(disk: map<int, Header>, o: int, b: Bytes): (r: map<int, Header>)
    ensures o in r <==> b.Encoded?
    ensures b.Encoded? ==> r[o] == b.header
    ensures forall p :: p != o ==> (p in r <==> p in disk) && (p in r ==> r[p] == disk[p])
  {
    match b
    case Encoded(h) => disk[o := h]
    case Other => disk - {o}
  }

  /** Writing into a leased region concerns no committed product. */
  lemma WrittenAgrees(x: Ix, o: int, b: Bytes)
    requires Agree(x) && o in Open(x)
    ensures var x' := x.(disk := Stored(x.disk, o, b)); Agree(x') && Open(x') == Open(x) && LeasesKept(x, x')
  {
    OpenOffset(x, o);
  }
}
