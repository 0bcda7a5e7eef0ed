/**
 The mathematics shared by the three skip lists of the queue index: the free
 regions by offset, the free regions by (extent, offset), and the time queue.

 A skip list lives in two places.  Its nodes are slots of a table, and each
 node's forward pointers are a block of consecutive words in one shared arena.
 The ghost value `Skip` says which nodes are linked, in which order and with how
 many pointers; `SkipOk` says that the arena words spell out exactly that list.
 */
module SkipTheory {

  /** Sort keys: offsets, (extent, offset) pairs and (sec, usec) pairs all compare like this. */
  datatype Key = Key(hi: int, lo: int) {
    predicate Less(o: Key) {
      hi < o.hi || (hi == o.hi && lo < o.lo)
    }
  }

  /**
   The arena as its users see it: the words, the blocks (first word -> length)
   and which blocks are handed out.
   */
  datatype Arena = Arena(words: seq<int>, size: map<int, nat>, out: set<int>)

  /** Blocks lie inside the arena and no two of them share a word. */
  ghost predicate ArenaOk(a: Arena) {
    && a.out <= a.size.Keys
    && (forall b :: b in a.size ==> 0 <= b && 0 < a.size[b] && b + a.size[b] <= |a.words|)
    && (forall b, c :: b in a.size && c in a.size && b < c ==> b + a.size[b] <= c)
  }

  /** Every block handed out before, except those in `own`, is still handed out and holds the same words. */
  ghost predicate Frame(a: Arena, a': Arena, own: set<int>) {
    && |a'.words| == |a.words|
    && (forall b :: b in a.out && b !in own ==>
          b in a'.out && b in a.size && b in a'.size && a'.size[b] == a.size[b])
    && (forall b, j :: b in a.out && b !in own && b in a.size && 0 <= b <= j < b + a.size[b] && j < |a.words| ==>
          a'.words[j] == a.words[j])
  }

  lemma FrameTrans(a: Arena, b: Arena, c: Arena, own: set<int>, own': set<int>)
    requires ArenaOk(a) && ArenaOk(b) && ArenaOk(c)
    requires Frame(a, b, own) && Frame(b, c, own')
    requires own' <= own + (b.out - a.out)
    ensures Frame(a, c, own)
  {
  }

  /** The owner of the blocks `own` has changed them into `own'`; all other blocks handed out are as they were. */
  ghost predicate Kept(a: Arena, own: set<int>, a': Arena, own': set<int>) {
    Frame(a, a', own) && a'.out - own' == a.out - own
  }

  /** With the blocks of `other`, these are all that are handed out, before and after. */
  lemma KeptAll(a: Arena, own: set<int>, a': Arena, own': set<int>, other: set<int>)
    requires Kept(a, own, a', own') && own' <= a'.out && a.out == other + own && other !! own
    ensures a'.out == other + own'
  {
    assert a.out - own == other;
    assert a'.out == (a'.out - own') + own';
  }

  lemma KeptTrans(a: Arena, own: set<int>, b: Arena, own': set<int>, c: Arena, own'': set<int>)
    requires ArenaOk(a) && ArenaOk(b) && ArenaOk(c) && own' <= b.out
    requires Kept(a, own, b, own') && Kept(b, own', c, own'')
    ensures Kept(a, own, c, own'')
  {
    forall z | z in own' ensures z in own + (b.out - a.out) {
      assert z in a.out && z !in own ==> z in b.out - own';
    }
    FrameTrans(a, b, c, own, own');
  }

  lemma KeptSame(a: Arena, own: set<int>)
    requires ArenaOk(a)
    ensures Kept(a, own, a, own)
  {
  }

  lemma FrameWider(a: Arena, b: Arena, own: set<int>, own': set<int>)
    requires Frame(a, b, own) && own <= own'
    ensures Frame(a, b, own')
  {
  }

  lemma FrameGrows(a: Arena, a': Arena, own: set<int>)
    requires ArenaOk(a) && a'.words == a.words && a.out - own <= a'.out
    requires forall b :: b in a.out && b in a.size && b !in own ==> b in a'.size && a'.size[b] == a.size[b]
    ensures Frame(a, a', own)
  {
  }

  /**
   A skip list: `order` lists the nodes from the head sentinel to the tail
   sentinel, `ht[i]` is the number of forward pointers of `order[i]`, and
   `blocks` are the arena blocks that hold them.
   */
  datatype Skip = Skip(order: seq<nat>, ht: seq<nat>, blocks: set<int>) {
    function Last(): int { |order| - 1 }
  }

  /** The first position after `i` that is linked at level `k`. */
  function Next(ht: seq<nat>, i: nat, k: nat): (j: nat)
    requires i + 1 < |ht| && k < ht[|ht| - 1]
    ensures i < j < |ht| && k < ht[j]
    ensures forall m :: i < m < j ==> ht[m] <= k
    decreases |ht| - i
  {
    if k < ht[i + 1] then i + 1 else Next(ht, i + 1, k)
  }

  ghost predicate ShapeOk(s: Skip, nodes: nat, maxsize: nat, level: int, head: nat, tail: nat) {
    && 2 <= |s.order| == |s.ht|
    && 0 <= level < maxsize
    && s.order[0] == head && s.ht[0] == maxsize
    && s.order[s.Last()] == tail && s.ht[s.Last()] == maxsize
    && (forall i :: 0 <= i < |s.order| ==> s.order[i] < nodes)
    && (forall i :: 0 < i < s.Last() ==> 1 <= s.ht[i] <= level + 1)
    && (forall i, j :: 0 <= i < j < |s.order| ==> s.order[i] != s.order[j])
  }

  /** Each node has an arena block of its own with room for exactly its pointers. */
  ghost predicate BlocksOk(a: Arena, base: seq<int>, s: Skip)
    requires |s.order| == |s.ht| >= 2
    requires forall i :: 0 <= i < |s.order| ==> s.order[i] < |base|
  {
    && s.blocks <= a.out && |s.blocks| == |s.order|
    && (forall i :: 0 <= i < |s.order| ==> base[s.order[i]] in s.blocks && base[s.order[i]] in a.size)
    && (forall i :: 0 <= i < s.Last() ==> a.size[base[s.order[i]]] == s.ht[i])
    && (forall i, j :: 0 <= i < j < |s.order| ==> base[s.order[i]] != base[s.order[j]])
  }

  /** Word `k` of a node's block names the next node linked at level `k`. */
  ghost predicate Linked(w: seq<int>, base: seq<int>, s: Skip, maxsize: nat)
    requires |s.order| == |s.ht| >= 2 && s.ht[s.Last()] == maxsize
    requires forall i :: 0 <= i < |s.order| ==> s.order[i] < |base|
  {
    forall i, k :: 0 <= i < s.Last() && 0 <= k < s.ht[i] && k < maxsize ==>
      PointsTo(w, base[s.order[i]] + k, s.order[Next(s.ht, i, k)])
  }

  lemma LinkedAt(w: seq<int>, base: seq<int>, s: Skip, maxsize: nat, i: nat, k: nat)
    requires |s.order| == |s.ht| >= 2 && s.ht[s.Last()] == maxsize
    requires forall i :: 0 <= i < |s.order| ==> s.order[i] < |base|
    requires Linked(w, base, s, maxsize) && i < s.Last() && k < s.ht[i] && k < maxsize
    ensures PointsTo(w, base[s.order[i]] + k, s.order[Next(s.ht, i, k)])
  {
  }

  ghost predicate PointsTo(w: seq<int>, at: int, n: int) {
    0 <= at < |w| && w[at] == n
  }

  ghost predicate Sorted(keys: seq<Key>, s: Skip)
    requires forall i :: 0 <= i < |s.order| ==> s.order[i] < |keys|
  {
    forall i, j :: 0 <= i < j < |s.order| ==> keys[s.order[i]].Less(keys[s.order[j]])
  }

  ghost predicate SkipOk(a: Arena, base: seq<int>, keys: seq<Key>, s: Skip,
                         maxsize: nat, level: int, head: nat, tail: nat)
  {
    && |base| == |keys|
    && ShapeOk(s, |base|, maxsize, level, head, tail)
    && BlocksOk(a, base, s)
    && Linked(a.words, base, s, maxsize)
    && Sorted(keys, s)
  }

  /** `p` is where a node with key `t` belongs: the nodes before `p` (head aside) are the ones below `t`. */
  ghost predicate IsRank(keys: seq<Key>, s: Skip, t: Key, p: nat) {
    && 1 <= p < |s.order|
    && (forall i :: 0 <= i < |s.order| ==> s.order[i] < |keys|)
    && (forall i :: 1 <= i < p ==> keys[s.order[i]].Less(t))
    && (forall i :: p <= i < |s.order| ==> !keys[s.order[i]].Less(t))
  }

  /** `c` is the last position before `p` that is linked at level `k`. */
  ghost predicate IsUpdate(ht: seq<nat>, p: nat, k: nat, c: nat) {
    && c < p < |ht| && k < ht[c] && k < ht[|ht| - 1]
    && p <= Next(ht, c, k)
  }

  /** A node's place in the list is its position. */
  lemma RankOfNode(keys: seq<Key>, s: Skip, j: nat)
    requires 1 <= j < |s.order| && (forall i :: 0 <= i < |s.order| ==> s.order[i] < |keys|) && Sorted(keys, s)
    ensures IsRank(keys, s, keys[s.order[j]], j)
  {
    forall i | j <= i < |s.order| ensures !keys[s.order[i]].Less(keys[s.order[j]]) {
      assert j < i ==> keys[s.order[j]].Less(keys[s.order[i]]);
    }
  }

  lemma BlocksOut(a: Arena, base: seq<int>, keys: seq<Key>, s: Skip, maxsize: nat, level: int, head: nat, tail: nat)
    requires SkipOk(a, base, keys, s, maxsize, level, head, tail)
    ensures s.blocks <= a.out
  {
  }

  /** Two searches of the same list for the same key stop at the same place. */
  lemma RankUnique(keys: seq<Key>, s: Skip, t: Key, p: nat, q: nat)
    requires IsRank(keys, s, t, p) && IsRank(keys, s, t, q)
    ensures p == q
  {
    var x := keys[s.order[if p < q then p else q]];
    assert p != q ==> x.Less(t);
  }

  // ---------------------------------------------------------------------
  // Insertion
  // ---------------------------------------------------------------------

  function InsertAt<T>(s: seq<T>, p: nat, x: T): (r: seq<T>)
    requires p <= |s|
    ensures |r| == |s| + 1 && r[p] == x
    ensures forall i :: 0 <= i < p ==> r[i] == s[i]
    ensures forall i :: p < i < |r| ==> r[i] == s[i - 1]
  {
    s[..p] + [x] + s[p..]
  }

  function Inserted(s: Skip, p: nat, n: nat, h: nat, b: int): Skip
    requires |s.order| == |s.ht| && p <= |s.order|
  {
    Skip(InsertAt(s.order, p, n), InsertAt(s.ht, p, h), s.blocks + {b})
  }

  /**
   The pointer writes of an insertion, highest level first: the new node takes
   over its predecessor's pointer, and the predecessor points to the new node.
   The result is the arena after levels `h - 1` down to `k` are done.
   */
  function Splice(w: seq<int>, nb: int, ub: seq<int>, n: int, h: nat, k: nat): (r: seq<int>)
    requires k <= h <= |ub|
    requires 0 <= nb && nb + h <= |w|
    requires forall j :: 0 <= j < h ==> 0 <= ub[j] && ub[j] + j < |w|
    ensures |r| == |w|
    decreases h - k
  {
    if k == h then w else
      var v := Splice(w, nb, ub, n, h, k + 1);
      v[nb + k := v[ub[k] + k]][ub[k] + k := n]
  }

  /** The words an insertion writes do not overlap. */
  ghost predicate Apart(nb: int, ub: seq<int>, h: nat)
    requires h <= |ub|
  {
    && (forall j :: 0 <= j < h ==> ub[j] + j < nb || nb + h <= ub[j] + j)
    && (forall i, j :: 0 <= i < j < h ==> ub[i] + i != ub[j] + j)
  }

  lemma {:induction false} SpliceWords(w: seq<int>, nb: int, ub: seq<int>, n: int, h: nat, k: nat)
    requires k <= h <= |ub|
    requires 0 <= nb && nb + h <= |w|
    requires forall j :: 0 <= j < h ==> 0 <= ub[j] && ub[j] + j < |w|
    requires Apart(nb, ub, h)
    ensures var r := Splice(w, nb, ub, n, h, k);
            && (forall j :: k <= j < h ==> r[nb + j] == w[ub[j] + j] && r[ub[j] + j] == n)
            && (forall x ::
                  0 <= x < |w| && (x < nb + k || nb + h <= x) && (forall j :: k <= j < h ==> ub[j] + j != x) ==>
                  r[x] == w[x])
    decreases h - k
  {
    if k < h {
      SpliceWords(w, nb, ub, n, h, k + 1);
      var v := Splice(w, nb, ub, n, h, k + 1);
      assert v[ub[k] + k] == w[ub[k] + k];
    }
  }

  /** Word `j` of the new block is what the predecessor held, and the predecessor now names the new node. */
  lemma SplicedWord(w: seq<int>, nb: int, ub: seq<int>, n: int, h: nat, j: nat)
    requires j < h <= |ub| && 0 <= nb && nb + h <= |w|
    requires forall j :: 0 <= j < h ==> 0 <= ub[j] && ub[j] + j < |w|
    requires Apart(nb, ub, h)
    ensures var r := Splice(w, nb, ub, n, h, 0); r[nb + j] == w[ub[j] + j] && r[ub[j] + j] == n
  {
    hide Splice;
    SpliceWords(w, nb, ub, n, h, 0);
  }

  /** No other word changes. */
  lemma UnsplicedWord(w: seq<int>, nb: int, ub: seq<int>, n: int, h: nat, x: nat)
    requires h <= |ub| && 0 <= nb && nb + h <= |w|
    requires forall j :: 0 <= j < h ==> 0 <= ub[j] && ub[j] + j < |w|
    requires Apart(nb, ub, h)
    requires x < |w| && (x < nb || nb + h <= x)
    requires forall j :: 0 <= j < h ==> ub[j] + j != x
    ensures Splice(w, nb, ub, n, h, 0)[x] == w[x]
  {
    hide Splice;
    SpliceWords(w, nb, ub, n, h, 0);
  }

  lemma NextAfterInsert(ht: seq<nat>, p: nat, h: nat, i: nat, k: nat)
    requires 1 <= p < |ht| && i < p && k < ht[|ht| - 1]
    ensures var j := Next(ht, i, k);
            Next(InsertAt(ht, p, h), i, k) == if j < p then j else if k < h then p else j + 1
  {
    var g := InsertAt(ht, p, h);
    assert g[|g| - 1] == ht[|ht| - 1];
    var j := Next(ht, i, k);
    assert j < p ==> g[j] == ht[j];
    assert j >= p ==> g[j + 1] == ht[j];
    var r := Next(g, i, k);
    if r < p { assert g[r] == ht[r]; }
    if r > p { assert g[r] == ht[r - 1]; }
  }

  lemma NextBehindInsert(ht: seq<nat>, p: nat, h: nat, i: nat, k: nat)
    requires 1 <= p <= i && i + 1 < |ht| && k < ht[|ht| - 1]
    ensures Next(InsertAt(ht, p, h), i + 1, k) == Next(ht, i, k) + 1
  {
    var g := InsertAt(ht, p, h);
    var j := Next(ht, i, k);
    assert g[j + 1] == ht[j];
    var r := Next(g, i + 1, k);
    assert g[r] == ht[r - 1];
  }

  lemma NextOfInserted(ht: seq<nat>, p: nat, h: nat, c: nat, k: nat)
    requires IsUpdate(ht, p, k, c)
    ensures Next(InsertAt(ht, p, h), p, k) == Next(ht, c, k) + 1
  {
    var g := InsertAt(ht, p, h);
    var j := Next(ht, c, k);
    assert g[j + 1] == ht[j];
    var r := Next(g, p, k);
    assert g[r] == ht[r - 1];
  }

  /** Where an insertion writes: the new block and one word in each predecessor's block. */
  ghost predicate SpliceReady(a: Arena, base: seq<int>, s: Skip, p: nat, h: nat, nb: int, ub: seq<int>, at: seq<nat>) {
    && |s.order| == |s.ht| >= 2 && 1 <= p < |s.order|
    && (forall i :: 0 <= i < |s.order| ==> s.order[i] < |base|)
    && nb in a.out && nb in a.size && nb !in s.blocks && a.size[nb] == h
    && h <= |ub| && h <= |at|
    && forall k :: 0 <= k < h ==> IsUpdate(s.ht, p, k, at[k]) && ub[k] == base[s.order[at[k]]]
  }

  lemma SpliceApart(a: Arena, base: seq<int>, s: Skip, p: nat, h: nat, nb: int, ub: seq<int>, at: seq<nat>)
    requires ArenaOk(a) && SpliceReady(a, base, s, p, h, nb, ub, at) && BlocksOk(a, base, s)
    ensures 0 <= nb && nb + h <= |a.words|
    ensures forall j :: 0 <= j < h ==> 0 <= ub[j] && ub[j] + j < |a.words|
    ensures Apart(nb, ub, h)
  {
    forall j | 0 <= j < h
      ensures 0 <= ub[j] && ub[j] + j < |a.words| && (ub[j] + j < nb || nb + h <= ub[j] + j)
    {
      var b := base[s.order[at[j]]];
      assert j < s.ht[at[j]] == a.size[b];
      assert b != nb;
    }
    forall i, j | 0 <= i < j < h ensures ub[i] + i != ub[j] + j {
      var b, c := base[s.order[at[i]]], base[s.order[at[j]]];
      assert i < s.ht[at[i]] == a.size[b];
      assert j < s.ht[at[j]] == a.size[c];
      if at[i] == at[j] {
        assert b == c;
      } else {
        assert b != c;
      }
    }
  }

  /** After the writes, the arena spells out the list with the new node in it. */
  lemma InsertLinked(a: Arena, base: seq<int>, s: Skip, maxsize: nat,
                     p: nat, n: nat, h: nat, nb: int, ub: seq<int>, at: seq<nat>)
    requires ArenaOk(a) && SpliceReady(a, base, s, p, h, nb, ub, at) && BlocksOk(a, base, s)
    requires s.ht[s.Last()] == maxsize && Linked(a.words, base, s, maxsize)
    requires n < |base| && n !in s.order && h <= maxsize
    requires 0 <= nb && nb + h <= |a.words|
    requires forall j :: 0 <= j < h ==> 0 <= ub[j] && ub[j] + j < |a.words|
    ensures Linked(Splice(a.words, nb, ub, n, h, 0), base[n := nb], Inserted(s, p, n, h, nb), maxsize)
  {
    hide ArenaOk, BlocksOk, Splice, Next, PointsTo;
    var w := Splice(a.words, nb, ub, n, h, 0);
    var s' := Inserted(s, p, n, h, nb);
    var base' := base[n := nb];
    forall i, k | 0 <= i < s'.Last() && 0 <= k < s'.ht[i] && k < maxsize
      ensures PointsTo(w, base'[s'.order[i]] + k, s'.order[Next(s'.ht, i, k)])
    {
      if i == p {
        InsertNewWord(a, base, s, maxsize, p, n, h, nb, ub, at, k);
      } else {
        InsertOldWord(a, base, s, maxsize, p, n, h, nb, ub, at, if i < p then i else i - 1, k);
      }
    }
  }

  /** What the insertion leaves in word `k` of the new node. */
  lemma InsertNewWord(a: Arena, base: seq<int>, s: Skip, maxsize: nat,
                      p: nat, n: nat, h: nat, nb: int, ub: seq<int>, at: seq<nat>, k: nat)
    requires ArenaOk(a) && SpliceReady(a, base, s, p, h, nb, ub, at) && BlocksOk(a, base, s)
    requires s.ht[s.Last()] == maxsize && Linked(a.words, base, s, maxsize)
    requires k < h <= maxsize
    requires 0 <= nb && nb + h <= |a.words|
    requires forall j :: 0 <= j < h ==> 0 <= ub[j] && ub[j] + j < |a.words|
    ensures var s' := Inserted(s, p, n, h, nb);
            PointsTo(Splice(a.words, nb, ub, n, h, 0), nb + k, s'.order[Next(s'.ht, p, k)])
  {
    hide ArenaOk, BlocksOk, Splice, Apart, Next, Linked;
    SpliceApart(a, base, s, p, h, nb, ub, at);
    SplicedWord(a.words, nb, ub, n, h, k);
    var c := at[k];
    assert IsUpdate(s.ht, p, k, c);
    NextOfInserted(s.ht, p, h, c, k);
    LinkedAt(a.words, base, s, maxsize, c, k);
  }

  /** What the insertion leaves in word `k` of the node that was at position `i`. */
  lemma InsertOldWord(a: Arena, base: seq<int>, s: Skip, maxsize: nat,
                      p: nat, n: nat, h: nat, nb: int, ub: seq<int>, at: seq<nat>, i: nat, k: nat)
    requires ArenaOk(a) && SpliceReady(a, base, s, p, h, nb, ub, at) && BlocksOk(a, base, s)
    requires s.ht[s.Last()] == maxsize && Linked(a.words, base, s, maxsize)
    requires i < s.Last() && k < s.ht[i] && k < maxsize && h <= maxsize
    requires 0 <= nb && nb + h <= |a.words|
    requires forall j :: 0 <= j < h ==> 0 <= ub[j] && ub[j] + j < |a.words|
    ensures var s' := Inserted(s, p, n, h, nb);
            PointsTo(Splice(a.words, nb, ub, n, h, 0), base[s.order[i]] + k,
                     s'.order[Next(s'.ht, if i < p then i else i + 1, k)])
  {
    hide ArenaOk, BlocksOk, Splice, Next, Linked, IsUpdate, Inserted, PointsTo;
    InsertPointer(a, base, s, maxsize, p, n, h, nb, ub, at, i, k);
    InsertTarget(a, base, s, p, n, h, nb, ub, at, i, k);
  }

  /** The node that follows on level `k` once node `n` is in. */
  ghost function Newcomer(s: Skip, n: nat, h: nat, at: seq<nat>, i: nat, k: nat): nat
    requires |s.order| == |s.ht| >= 2 && i < s.Last() && k < s.ht[s.Last()] && h <= |at|
  {
    if k < h && i == at[k] then n else s.order[Next(s.ht, i, k)]
  }

  lemma InsertPointer(a: Arena, base: seq<int>, s: Skip, maxsize: nat,
                      p: nat, n: nat, h: nat, nb: int, ub: seq<int>, at: seq<nat>, i: nat, k: nat)
    requires ArenaOk(a) && SpliceReady(a, base, s, p, h, nb, ub, at) && BlocksOk(a, base, s)
    requires s.ht[s.Last()] == maxsize && Linked(a.words, base, s, maxsize)
    requires i < s.Last() && k < s.ht[i] && k < maxsize && h <= maxsize
    requires 0 <= nb && nb + h <= |a.words|
    requires forall j :: 0 <= j < h ==> 0 <= ub[j] && ub[j] + j < |a.words|
    ensures PointsTo(Splice(a.words, nb, ub, n, h, 0), base[s.order[i]] + k, Newcomer(s, n, h, at, i, k))
  {
    hide ArenaOk, BlocksOk, Splice, Apart, Next, Linked, IsUpdate;
    LinkedAt(a.words, base, s, maxsize, i, k);
    if k < h && i == at[k] {
      SpliceApart(a, base, s, p, h, nb, ub, at);
      SplicedWord(a.words, nb, ub, n, h, k);
    } else {
      InsertKeepsWord(a, base, s, p, n, h, nb, ub, at, i, k);
    }
  }

  lemma InsertTarget(a: Arena, base: seq<int>, s: Skip,
                     p: nat, n: nat, h: nat, nb: int, ub: seq<int>, at: seq<nat>, i: nat, k: nat)
    requires SpliceReady(a, base, s, p, h, nb, ub, at) && i < s.Last() && k < s.ht[i] && k < s.ht[s.Last()]
    ensures var s' := Inserted(s, p, n, h, nb);
            s'.order[Next(s'.ht, if i < p then i else i + 1, k)] == Newcomer(s, n, h, at, i, k)
  {
    hide Next, InsertAt;
    InsertedAt(s.order, p, n, Next(s.ht, i, k));
    if i < p {
      NextAfterInsert(s.ht, p, h, i, k);
      if k < h && i != at[k] { UpdateIsUnique(s.ht, p, k, at[k], i); }
    } else {
      NextBehindInsert(s.ht, p, h, i, k);
    }
  }

  lemma InsertedAt(l: seq<nat>, p: nat, n: nat, j: nat)
    requires p <= |l| && j < |l|
    ensures |InsertAt(l, p, n)| == |l| + 1 && InsertAt(l, p, n)[p] == n
    ensures InsertAt(l, p, n)[if j < p then j else j + 1] == l[j]
  {
  }

  lemma InsertKeepsWord(a: Arena, base: seq<int>, s: Skip,
                        p: nat, n: nat, h: nat, nb: int, ub: seq<int>, at: seq<nat>, i: nat, k: nat)
    requires ArenaOk(a) && SpliceReady(a, base, s, p, h, nb, ub, at) && BlocksOk(a, base, s)
    requires i < s.Last() && k < s.ht[i] && !(k < h && i == at[k])
    requires 0 <= nb && nb + h <= |a.words|
    requires forall j :: 0 <= j < h ==> 0 <= ub[j] && ub[j] + j < |a.words|
    requires 0 <= base[s.order[i]] + k < |a.words|
    ensures Splice(a.words, nb, ub, n, h, 0)[base[s.order[i]] + k] == a.words[base[s.order[i]] + k]
  {
    hide ArenaOk, BlocksOk, Splice, Apart, Next;
    SpliceApart(a, base, s, p, h, nb, ub, at);
    NewWordApart(a, base, s, p, h, nb, i, k);
    forall j | 0 <= j < h ensures ub[j] + j != base[s.order[i]] + k {
      OtherWord(a, base, s, i, k, at[j], j);
    }
    UnsplicedWord(a.words, nb, ub, n, h, base[s.order[i]] + k);
  }

  lemma NewWordApart(a: Arena, base: seq<int>, s: Skip, p: nat, h: nat, nb: int, i: nat, k: nat)
    requires ArenaOk(a) && |s.order| == |s.ht| >= 2
    requires forall i :: 0 <= i < |s.order| ==> s.order[i] < |base|
    requires BlocksOk(a, base, s) && nb in a.size && nb !in s.blocks && a.size[nb] == h
    requires i < s.Last() && k < s.ht[i]
    ensures base[s.order[i]] + k < nb || nb + h <= base[s.order[i]] + k
  {
    assert base[s.order[i]] in s.blocks;
  }

  /** Two pointers of one list occupy different words. */
  lemma OtherWord(a: Arena, base: seq<int>, s: Skip, i: nat, k: nat, j: nat, m: nat)
    requires ArenaOk(a) && |s.order| == |s.ht| >= 2
    requires forall i :: 0 <= i < |s.order| ==> s.order[i] < |base|
    requires BlocksOk(a, base, s)
    requires i < s.Last() && j < s.Last() && k < s.ht[i] && m < s.ht[j]
    ensures base[s.order[i]] + k == base[s.order[j]] + m ==> i == j && k == m
  {
    if i != j {
      assert base[s.order[i]] != base[s.order[j]];
    }
  }

  lemma UpdateIsUnique(ht: seq<nat>, p: nat, k: nat, c: nat, i: nat)
    requires IsUpdate(ht, p, k, c) && i < p && k < ht[i] && i != c
    ensures Next(ht, i, k) < p
  {
    assert i < c;
    assert Next(ht, i, k) <= c;
  }

  lemma InsertOk(a: Arena, base: seq<int>, keys: seq<Key>, s: Skip, maxsize: nat, level: int, head: nat, tail: nat,
                 p: nat, n: nat, h: nat, nb: int, ub: seq<int>, at: seq<nat>, level': int)
    requires ArenaOk(a) && SkipOk(a, base, keys, s, maxsize, level, head, tail)
    requires SpliceReady(a, base, s, p, h, nb, ub, at)
    requires n < |base| && n !in s.order && level <= level' < maxsize && 1 <= h <= level' + 1
    requires forall i :: 0 <= i < p ==> keys[s.order[i]].Less(keys[n])
    requires forall i :: p <= i < |s.order| ==> keys[n].Less(keys[s.order[i]])
    ensures 0 <= nb && nb + h <= |a.words|
    ensures forall j :: 0 <= j < h ==> 0 <= ub[j] && ub[j] + j < |a.words|
    ensures var a' := a.(words := Splice(a.words, nb, ub, n, h, 0));
            && ArenaOk(a') && Frame(a, a', s.blocks + {nb})
            && SkipOk(a', base[n := nb], keys, Inserted(s, p, n, h, nb), maxsize, level', head, tail)
  {
    hide Splice, Next, Apart;
    SpliceApart(a, base, s, p, h, nb, ub, at);
    InsertLinked(a, base, s, maxsize, p, n, h, nb, ub, at);
    var a' := a.(words := Splice(a.words, nb, ub, n, h, 0));
    InsertShape(base, keys, s, maxsize, level, head, tail, p, n, h, nb, level');
    InsertBlocks(a, a', base, s, p, n, h, nb);
    InsertFrame(a, base, s, p, n, h, nb, ub, at);
  }

  lemma InsertShape(base: seq<int>, keys: seq<Key>, s: Skip, maxsize: nat, level: int, head: nat, tail: nat,
                    p: nat, n: nat, h: nat, nb: int, level': int)
    requires ShapeOk(s, |base|, maxsize, level, head, tail) && |base| == |keys| && Sorted(keys, s)
    requires 1 <= p < |s.order| && n < |base| && n !in s.order
    requires level <= level' < maxsize && 1 <= h <= level' + 1
    requires forall i :: 0 <= i < p ==> keys[s.order[i]].Less(keys[n])
    requires forall i :: p <= i < |s.order| ==> keys[n].Less(keys[s.order[i]])
    ensures ShapeOk(Inserted(s, p, n, h, nb), |base|, maxsize, level', head, tail)
    ensures Sorted(keys, Inserted(s, p, n, h, nb))
  {
  }

  lemma InsertBlocks(a: Arena, a': Arena, base: seq<int>, s: Skip, p: nat, n: nat, h: nat, nb: int)
    requires |s.order| == |s.ht| >= 2 && 1 <= p < |s.order|
    requires forall i :: 0 <= i < |s.order| ==> s.order[i] < |base|
    requires BlocksOk(a, base, s) && n < |base| && n !in s.order
    requires nb in a.out && nb in a.size && nb !in s.blocks && a.size[nb] == h
    requires a'.size == a.size && a'.out == a.out
    ensures var s' := Inserted(s, p, n, h, nb);
            && (forall i :: 0 <= i < |s'.order| ==> s'.order[i] < |base|)
            && BlocksOk(a', base[n := nb], s')
  {
    var s' := Inserted(s, p, n, h, nb);
    var base' := base[n := nb];
    forall i | 0 <= i < |s'.order|
      ensures s'.order[i] < |base| && base'[s'.order[i]] in s'.blocks && base'[s'.order[i]] in a'.size
      ensures i < s'.Last() ==> a'.size[base'[s'.order[i]]] == s'.ht[i]
    {
      if i != p { var i0 := if i < p then i else i - 1; assert s'.order[i] == s.order[i0]; }
    }
    forall i, j | 0 <= i < j < |s'.order| ensures base'[s'.order[i]] != base'[s'.order[j]] {
      var i0 := if i < p then i else i - 1;
      var j0 := if j < p then j else j - 1;
      if i != p { assert s'.order[i] == s.order[i0]; }
      if j != p { assert s'.order[j] == s.order[j0]; }
    }
  }

  lemma OutHasSize(a: Arena)
    requires ArenaOk(a)
    ensures forall b :: b in a.out ==> b in a.size
  {
  }

  /** A word of one block is in no other. */
  lemma OutsideBlock(a: Arena, b: int, c: int, x: int)
    requires ArenaOk(a) && b in a.size && c in a.size && b != c && b <= x < b + a.size[b]
    ensures x < c || c + a.size[c] <= x
  {
  }

  /** A word of a block that is not the list's is no pointer of the list's. */
  lemma OutsideList(a: Arena, base: seq<int>, s: Skip, i: nat, k: nat, b: int, x: int)
    requires ArenaOk(a) && |s.order| == |s.ht| >= 2 && (forall i :: 0 <= i < |s.order| ==> s.order[i] < |base|)
    requires BlocksOk(a, base, s) && i < s.Last() && k < s.ht[i]
    requires b in a.size && b !in s.blocks && b <= x < b + a.size[b]
    ensures base[s.order[i]] + k != x
  {
    var c := base[s.order[i]];
    assert c in s.blocks && a.size[c] == s.ht[i];
    OutsideBlock(a, b, c, x);
  }

  lemma InsertFrame(a: Arena, base: seq<int>, s: Skip, p: nat, n: nat, h: nat, nb: int, ub: seq<int>, at: seq<nat>)
    requires ArenaOk(a) && SpliceReady(a, base, s, p, h, nb, ub, at) && BlocksOk(a, base, s)
    ensures 0 <= nb && nb + h <= |a.words|
    ensures forall j :: 0 <= j < h ==> 0 <= ub[j] && ub[j] + j < |a.words|
    ensures Frame(a, a.(words := Splice(a.words, nb, ub, n, h, 0)), s.blocks + {nb})
  {
    hide Splice, Apart, ArenaOk, BlocksOk, Next;
    SpliceApart(a, base, s, p, h, nb, ub, at);
    forall b, x | b in a.out && b !in s.blocks + {nb} && b in a.size && 0 <= b <= x < b + a.size[b] && x < |a.words|
      ensures Splice(a.words, nb, ub, n, h, 0)[x] == a.words[x]
    {
      OutsideBlock(a, b, nb, x);
      forall j | 0 <= j < h ensures ub[j] + j != x {
        OutsideList(a, base, s, at[j], j, b, x);
      }
      UnsplicedWord(a.words, nb, ub, n, h, x);
    }
    OutHasSize(a);
  }

  // ---------------------------------------------------------------------
  // Removal
  // ---------------------------------------------------------------------

  function RemoveAt<T>(s: seq<T>, p: nat): (r: seq<T>)
    requires p < |s|
    ensures |r| == |s| - 1
    ensures forall i :: 0 <= i < p ==> r[i] == s[i]
    ensures forall i :: p <= i < |r| ==> r[i] == s[i + 1]
  {
    s[..p] + s[p + 1..]
  }

  function Removed(s: Skip, p: nat, b: int): Skip
    requires |s.order| == |s.ht| && p < |s.order|
  {
    Skip(RemoveAt(s.order, p), RemoveAt(s.ht, p), s.blocks - {b})
  }

  /**
   The pointer writes of a removal, lowest level first: each predecessor takes
   over the removed node's pointer.  The result is the arena after levels
   `0` to `k - 1` are done.
   */
  function Unsplice(w: seq<int>, nb: int, ub: seq<int>, k: nat): (r: seq<int>)
    requires k <= |ub| && 0 <= nb && nb + k <= |w|
    requires forall j :: 0 <= j < k ==> 0 <= ub[j] && ub[j] + j < |w|
    ensures |r| == |w|
  {
    if k == 0 then w else
      var v := Unsplice(w, nb, ub, k - 1);
      v[ub[k - 1] + (k - 1) := v[nb + (k - 1)]]
  }

  lemma {:induction false} UnspliceWords(w: seq<int>, nb: int, ub: seq<int>, h: nat, k: nat)
    requires k <= h <= |ub| && 0 <= nb && nb + h <= |w|
    requires forall j :: 0 <= j < h ==> 0 <= ub[j] && ub[j] + j < |w|
    requires Apart(nb, ub, h)
    ensures var r := Unsplice(w, nb, ub, k);
            && (forall j :: 0 <= j < k ==> r[ub[j] + j] == w[nb + j])
            && (forall x :: 0 <= x < |w| && (forall j :: 0 <= j < k ==> ub[j] + j != x) ==> r[x] == w[x])
  {
    if k > 0 {
      UnspliceWords(w, nb, ub, h, k - 1);
      var v, r := Unsplice(w, nb, ub, k - 1), Unsplice(w, nb, ub, k);
      assert v[nb + (k - 1)] == w[nb + (k - 1)];
      forall j | 0 <= j < k ensures r[ub[j] + j] == w[nb + j] {
        if j < k - 1 && ub[j] + j != ub[k - 1] + (k - 1) { assert v[ub[j] + j] == w[nb + j]; }
      }
    }
  }

  lemma UnsplicedAt(w: seq<int>, nb: int, ub: seq<int>, h: nat, k: nat, j: nat)
    requires j < k <= h <= |ub| && 0 <= nb && nb + h <= |w|
    requires forall j :: 0 <= j < h ==> 0 <= ub[j] && ub[j] + j < |w|
    requires Apart(nb, ub, h)
    ensures Unsplice(w, nb, ub, k)[ub[j] + j] == w[nb + j]
  {
    hide Unsplice;
    UnspliceWords(w, nb, ub, h, k);
  }

  lemma UnspliceKeeps(w: seq<int>, nb: int, ub: seq<int>, h: nat, k: nat, x: nat)
    requires k <= h <= |ub| && 0 <= nb && nb + h <= |w|
    requires forall j :: 0 <= j < h ==> 0 <= ub[j] && ub[j] + j < |w|
    requires Apart(nb, ub, h) && x < |w|
    requires forall j :: 0 <= j < k ==> ub[j] + j != x
    ensures Unsplice(w, nb, ub, k)[x] == w[x]
  {
    hide Unsplice;
    UnspliceWords(w, nb, ub, h, k);
  }

  lemma NextBeforeRemoved(ht: seq<nat>, p: nat, i: nat, k: nat)
    requires i < p && p + 1 < |ht| && k < ht[|ht| - 1]
    ensures var j := Next(ht, i, k);
            Next(RemoveAt(ht, p), i, k) == if j < p then j else if j == p then Next(ht, p, k) - 1 else j - 1
  {
    var g := RemoveAt(ht, p);
    assert g[|g| - 1] == ht[|ht| - 1];
    var j := Next(ht, i, k);
    var j' := if j == p then Next(ht, p, k) else j;
    assert j' < p ==> g[j'] == ht[j'];
    assert j' > p ==> g[j' - 1] == ht[j'];
    var r := Next(g, i, k);
    if r < p { assert g[r] == ht[r]; } else { assert g[r] == ht[r + 1]; }
  }

  lemma NextBehindRemoved(ht: seq<nat>, p: nat, i: nat, k: nat)
    requires p < i && i + 1 < |ht| && k < ht[|ht| - 1]
    ensures Next(RemoveAt(ht, p), i - 1, k) == Next(ht, i, k) - 1
  {
    var g := RemoveAt(ht, p);
    assert g[|g| - 1] == ht[|ht| - 1];
    var j := Next(ht, i, k);
    assert g[j - 1] == ht[j];
    var r := Next(g, i - 1, k);
    assert g[r] == ht[r + 1];
  }

  /** What a removal reads and writes: the node at `p`, its block, and its predecessors' blocks. */
  ghost predicate UnspliceReady(a: Arena, base: seq<int>, s: Skip, p: nat, ub: seq<int>, at: seq<nat>) {
    && |s.order| == |s.ht| >= 2 && 1 <= p < s.Last()
    && (forall i :: 0 <= i < |s.order| ==> s.order[i] < |base|)
    && s.ht[p] <= |ub| && s.ht[p] <= |at|
    && forall k :: 0 <= k < s.ht[p] ==> IsUpdate(s.ht, p, k, at[k]) && ub[k] == base[s.order[at[k]]]
  }

  lemma UnspliceApart(a: Arena, base: seq<int>, s: Skip, p: nat, ub: seq<int>, at: seq<nat>)
    requires ArenaOk(a) && UnspliceReady(a, base, s, p, ub, at) && BlocksOk(a, base, s)
    ensures var nb, h := base[s.order[p]], s.ht[p];
            && 0 <= nb && nb + h <= |a.words|
            && (forall j :: 0 <= j < h ==> 0 <= ub[j] && ub[j] + j < |a.words|)
            && Apart(nb, ub, h)
  {
    var nb, h := base[s.order[p]], s.ht[p];
    assert a.size[nb] == h;
    forall j | 0 <= j < h
      ensures 0 <= ub[j] && ub[j] + j < |a.words| && (ub[j] + j < nb || nb + h <= ub[j] + j)
    {
      var b := base[s.order[at[j]]];
      assert j < s.ht[at[j]] == a.size[b];
      assert b != nb;
    }
    forall i, j | 0 <= i < j < h ensures ub[i] + i != ub[j] + j {
      OtherWord(a, base, s, at[i], i, at[j], j);
    }
  }

  /** The word of the node at position `i` that a removal up to level `m` has not rewritten. */
  lemma RemoveKeepsWord(a: Arena, base: seq<int>, s: Skip, p: nat, ub: seq<int>, at: seq<nat>, m: nat, i: nat, k: nat)
    requires ArenaOk(a) && UnspliceReady(a, base, s, p, ub, at) && BlocksOk(a, base, s)
    requires m <= s.ht[p] && i < s.Last() && k < s.ht[i] && !(k < m && i == at[k])
    requires 0 <= base[s.order[p]] && base[s.order[p]] + s.ht[p] <= |a.words|
    requires forall j :: 0 <= j < s.ht[p] ==> 0 <= ub[j] && ub[j] + j < |a.words|
    requires 0 <= base[s.order[i]] + k < |a.words|
    ensures Unsplice(a.words, base[s.order[p]], ub, m)[base[s.order[i]] + k] == a.words[base[s.order[i]] + k]
  {
    hide ArenaOk, BlocksOk, Unsplice, Apart, Next;
    UnspliceApart(a, base, s, p, ub, at);
    forall j | 0 <= j < m ensures ub[j] + j != base[s.order[i]] + k {
      OtherWord(a, base, s, i, k, at[j], j);
    }
    UnspliceKeeps(a.words, base[s.order[p]], ub, s.ht[p], m, base[s.order[i]] + k);
  }

  /** The node that follows on level `k` once the one at `p` is removed. */
  ghost function Follower(s: Skip, p: nat, at: seq<nat>, i: nat, k: nat): nat
    requires |s.order| == |s.ht| >= 2 && p < s.Last() && i < s.Last() && s.ht[p] <= |at| && k < s.ht[s.Last()]
    ensures Follower(s, p, at, i, k) < |s.order|
  {
    if k < s.ht[p] && i == at[k] then Next(s.ht, p, k) else Next(s.ht, i, k)
  }

  lemma RemovedAt(l: seq<nat>, p: nat, n: nat)
    requires p < |l| && n < |l| && n != p
    ensures RemoveAt(l, p)[if n < p then n else n - 1] == l[n]
  {
  }

  lemma NextAfterRemoval(s: Skip, p: nat, at: seq<nat>, i: nat, k: nat)
    requires |s.order| == |s.ht| >= 2 && p < s.Last() && i < s.Last() && i != p && s.ht[p] <= |at|
    requires k < s.ht[s.Last()] && k < s.ht[i] && (k < s.ht[p] ==> IsUpdate(s.ht, p, k, at[k]))
    ensures var n := Follower(s, p, at, i, k);
            n != p && Next(RemoveAt(s.ht, p), if i < p then i else i - 1, k) == if n < p then n else n - 1
  {
    hide Next, RemoveAt, IsUpdate;
    if i < p {
      NextBeforeRemoved(s.ht, p, i, k);
      if k < s.ht[p] {
        UpdateSplits(s.ht, p, k, at[k], i);
      } else {
        NextIsHigher(s.ht, p, i, k);
      }
    } else {
      NextBehindRemoved(s.ht, p, i, k);
      if k < s.ht[p] { UpdateBefore(s.ht, p, k, at[k]); }
    }
  }

  lemma UpdateBefore(ht: seq<nat>, p: nat, k: nat, c: nat)
    requires IsUpdate(ht, p, k, c)
    ensures c < p
  {
  }

  lemma NextIsHigher(ht: seq<nat>, p: nat, i: nat, k: nat)
    requires i + 1 < |ht| && k < ht[|ht| - 1] && p < |ht| && ht[p] <= k
    ensures Next(ht, i, k) != p
  {
  }

  /** Of the nodes before `p`, one reaches `p` on level `k`, and the others stop short of it. */
  lemma UpdateSplits(ht: seq<nat>, p: nat, k: nat, c: nat, i: nat)
    requires IsUpdate(ht, p, k, c) && p + 1 < |ht| && i < p && k < ht[i] && k < ht[p]
    ensures if i == c then Next(ht, i, k) == p else Next(ht, i, k) < p
  {
    hide Next;
    if i != c { UpdateIsUnique(ht, p, k, c, i); } else { UpdateReaches(ht, p, k, i); }
  }

  lemma UpdateReaches(ht: seq<nat>, p: nat, k: nat, c: nat)
    requires IsUpdate(ht, p, k, c) && p + 1 < |ht| && k < ht[p] && k < ht[|ht| - 1]
    ensures Next(ht, c, k) == p
  {
  }

  lemma RemoveTarget(a: Arena, base: seq<int>, s: Skip, maxsize: nat, p: nat, ub: seq<int>, at: seq<nat>, i: nat,
                     k: nat)
    requires UnspliceReady(a, base, s, p, ub, at) && s.ht[s.Last()] == maxsize
    requires i < s.Last() && i != p && k < s.ht[i] && k < maxsize
    ensures var s' := Removed(s, p, base[s.order[p]]);
            s'.order[Next(s'.ht, if i < p then i else i - 1, k)] == s.order[Follower(s, p, at, i, k)]
  {
    hide Next, RemoveAt, Follower, IsUpdate;
    NextAfterRemoval(s, p, at, i, k);
    RemovedAt(s.order, p, Follower(s, p, at, i, k));
  }

  lemma RemovePointer(a: Arena, base: seq<int>, s: Skip, maxsize: nat, p: nat, ub: seq<int>, at: seq<nat>, i: nat,
                      k: nat)
    requires ArenaOk(a) && UnspliceReady(a, base, s, p, ub, at) && BlocksOk(a, base, s)
    requires s.ht[s.Last()] == maxsize && Linked(a.words, base, s, maxsize)
    requires s.ht[p] <= maxsize
    requires i < s.Last() && i != p && k < s.ht[i] && k < maxsize
    requires 0 <= base[s.order[p]] && base[s.order[p]] + s.ht[p] <= |a.words|
    requires forall j :: 0 <= j < s.ht[p] ==> 0 <= ub[j] && ub[j] + j < |a.words|
    ensures PointsTo(Unsplice(a.words, base[s.order[p]], ub, s.ht[p]), base[s.order[i]] + k,
                     s.order[Follower(s, p, at, i, k)])
  {
    hide ArenaOk, BlocksOk, Unsplice, Apart, Next, Linked, IsUpdate;
    LinkedAt(a.words, base, s, maxsize, i, k);
    if k < s.ht[p] && i == at[k] {
      UnspliceApart(a, base, s, p, ub, at);
      LinkedAt(a.words, base, s, maxsize, p, k);
      UnsplicedAt(a.words, base[s.order[p]], ub, s.ht[p], s.ht[p], k);
    } else {
      RemoveKeepsWord(a, base, s, p, ub, at, s.ht[p], i, k);
    }
  }

  lemma RemoveWord(a: Arena, base: seq<int>, s: Skip, maxsize: nat, p: nat, ub: seq<int>, at: seq<nat>, i: nat, k: nat)
    requires ArenaOk(a) && UnspliceReady(a, base, s, p, ub, at) && BlocksOk(a, base, s)
    requires s.ht[s.Last()] == maxsize && Linked(a.words, base, s, maxsize)
    requires s.ht[p] <= maxsize
    requires i < s.Last() && i != p && k < s.ht[i] && k < maxsize
    requires 0 <= base[s.order[p]] && base[s.order[p]] + s.ht[p] <= |a.words|
    requires forall j :: 0 <= j < s.ht[p] ==> 0 <= ub[j] && ub[j] + j < |a.words|
    ensures var s' := Removed(s, p, base[s.order[p]]);
            PointsTo(Unsplice(a.words, base[s.order[p]], ub, s.ht[p]), base[s.order[i]] + k,
                     s'.order[Next(s'.ht, if i < p then i else i - 1, k)])
  {
    hide ArenaOk, BlocksOk, Unsplice, Next, Linked, IsUpdate, Removed, Follower, PointsTo;
    RemovePointer(a, base, s, maxsize, p, ub, at, i, k);
    RemoveTarget(a, base, s, maxsize, p, ub, at, i, k);
  }

  lemma RemoveLinked(a: Arena, base: seq<int>, s: Skip, maxsize: nat, p: nat, ub: seq<int>, at: seq<nat>)
    requires ArenaOk(a) && UnspliceReady(a, base, s, p, ub, at) && BlocksOk(a, base, s)
    requires s.ht[s.Last()] == maxsize && Linked(a.words, base, s, maxsize)
    requires s.ht[p] <= maxsize
    requires 0 <= base[s.order[p]] && base[s.order[p]] + s.ht[p] <= |a.words|
    requires forall j :: 0 <= j < s.ht[p] ==> 0 <= ub[j] && ub[j] + j < |a.words|
    ensures Linked(Unsplice(a.words, base[s.order[p]], ub, s.ht[p]), base, Removed(s, p, base[s.order[p]]), maxsize)
  {
    hide ArenaOk, BlocksOk, Unsplice, Next, PointsTo;
    var w := Unsplice(a.words, base[s.order[p]], ub, s.ht[p]);
    var s' := Removed(s, p, base[s.order[p]]);
    forall i, k | 0 <= i < s'.Last() && 0 <= k < s'.ht[i] && k < maxsize
      ensures PointsTo(w, base[s'.order[i]] + k, s'.order[Next(s'.ht, i, k)])
    {
      RemoveWord(a, base, s, maxsize, p, ub, at, if i < p then i else i + 1, k);
    }
  }

  lemma RemoveShape(base: seq<int>, keys: seq<Key>, s: Skip, maxsize: nat, level: int, head: nat, tail: nat, p: nat)
    requires |base| == |keys| && ShapeOk(s, |base|, maxsize, level, head, tail) && Sorted(keys, s) && 1 <= p < s.Last()
    ensures var s' := Removed(s, p, base[s.order[p]]);
            ShapeOk(s', |base|, maxsize, level, head, tail) && Sorted(keys, s')
  {
    var s' := Removed(s, p, base[s.order[p]]);
    assert forall i :: 0 <= i < p ==> s'.order[i] == s.order[i] && s'.ht[i] == s.ht[i];
    assert forall i :: p <= i < |s'.order| ==> s'.order[i] == s.order[i + 1] && s'.ht[i] == s.ht[i + 1];
  }

  lemma RemoveBlocks(a: Arena, base: seq<int>, s: Skip, p: nat)
    requires |s.order| == |s.ht| >= 2 && 1 <= p < s.Last()
    requires forall i :: 0 <= i < |s.order| ==> s.order[i] < |base|
    requires BlocksOk(a, base, s)
    ensures var s' := Removed(s, p, base[s.order[p]]);
            && (forall i :: 0 <= i < |s'.order| ==> s'.order[i] < |base|)
            && BlocksOk(a, base, s')
  {
    var s' := Removed(s, p, base[s.order[p]]);
    assert forall i :: 0 <= i < p ==> s'.order[i] == s.order[i] && s'.ht[i] == s.ht[i];
    assert forall i :: p <= i < |s'.order| ==> s'.order[i] == s.order[i + 1] && s'.ht[i] == s.ht[i + 1];
  }

  lemma RemoveFrame(a: Arena, base: seq<int>, s: Skip, p: nat, ub: seq<int>, at: seq<nat>, m: nat)
    requires ArenaOk(a) && UnspliceReady(a, base, s, p, ub, at) && BlocksOk(a, base, s) && m <= s.ht[p]
    requires 0 <= base[s.order[p]] && base[s.order[p]] + s.ht[p] <= |a.words|
    requires forall j :: 0 <= j < s.ht[p] ==> 0 <= ub[j] && ub[j] + j < |a.words|
    ensures var a' := a.(words := Unsplice(a.words, base[s.order[p]], ub, m)); ArenaOk(a') && Frame(a, a', s.blocks)
  {
    hide Unsplice, Next, Apart;
    UnspliceApart(a, base, s, p, ub, at);
    forall b, x | b in a.out && b !in s.blocks && b in a.size && 0 <= b <= x < b + a.size[b] && x < |a.words|
      ensures Unsplice(a.words, base[s.order[p]], ub, m)[x] == a.words[x]
    {
      forall j | 0 <= j < m ensures ub[j] + j != x {
        var c := base[s.order[at[j]]];
        assert j < s.ht[at[j]] == a.size[c];
        assert c != b;
      }
      UnspliceKeeps(a.words, base[s.order[p]], ub, s.ht[p], m, x);
    }
  }

  /** Unlinking the node at `p` from every level leaves the list without it. */
  lemma RemoveOk(a: Arena, base: seq<int>, keys: seq<Key>, s: Skip, maxsize: nat, level: int, head: nat, tail: nat,
                 p: nat, ub: seq<int>, at: seq<nat>)
    requires ArenaOk(a) && SkipOk(a, base, keys, s, maxsize, level, head, tail)
    requires UnspliceReady(a, base, s, p, ub, at)
    ensures 0 <= base[s.order[p]] && base[s.order[p]] + s.ht[p] <= |a.words|
    ensures forall j :: 0 <= j < s.ht[p] ==> 0 <= ub[j] && ub[j] + j < |a.words|
    ensures var a' := a.(words := Unsplice(a.words, base[s.order[p]], ub, s.ht[p]));
            && ArenaOk(a') && Frame(a, a', s.blocks)
            && SkipOk(a', base, keys, Removed(s, p, base[s.order[p]]), maxsize, level, head, tail)
  {
    hide Unsplice, Next, Apart, ArenaOk, Frame, PointsTo, Sorted;
    UnspliceApart(a, base, s, p, ub, at);
    RemoveLinked(a, base, s, maxsize, p, ub, at);
    RemoveShape(base, keys, s, maxsize, level, head, tail, p);
    RemoveBlocks(a, base, s, p);
    RemoveFrame(a, base, s, p, ub, at, s.ht[p]);
  }

  /** At its own level and above, nothing points to the node at `p`; below, its predecessors do. */
  lemma PointsToMe(a: Arena, base: seq<int>, s: Skip, maxsize: nat, p: nat, k: nat, c: nat)
    requires |s.order| == |s.ht| >= 2 && 1 <= p < s.Last() && s.ht[s.Last()] == maxsize
    requires forall i :: 0 <= i < |s.order| ==> s.order[i] < |base|
    requires forall i, j :: 0 <= i < j < |s.order| ==> s.order[i] != s.order[j]
    requires Linked(a.words, base, s, maxsize) && IsUpdate(s.ht, p, k, c)
    ensures 0 <= base[s.order[c]] + k < |a.words|
    ensures a.words[base[s.order[c]] + k] == s.order[p] <==> k < s.ht[p]
  {
    LinkedAt(a.words, base, s, maxsize, c, k);
    var j := Next(s.ht, c, k);
    if k < s.ht[p] {
      assert j == p;
    } else {
      assert j != p && s.order[j] != s.order[p];
    }
  }

  // ---------------------------------------------------------------------
  // Search
  // ---------------------------------------------------------------------

  function Rank(keys: seq<Key>, s: Skip, t: Key, i: nat): (p: nat)
    requires 1 <= i < |s.order| && (forall i :: 0 <= i < |s.order| ==> s.order[i] < |keys|)
    requires !keys[s.order[s.Last()]].Less(t)
    ensures i <= p < |s.order| && !keys[s.order[p]].Less(t)
    ensures forall m :: i <= m < p ==> keys[s.order[m]].Less(t)
    decreases |s.order| - i
  {
    if keys[s.order[i]].Less(t) then Rank(keys, s, t, i + 1) else i
  }

  /** A list with room before its tail for `t` has a place for `t`. */
  lemma RankExists(keys: seq<Key>, s: Skip, t: Key) returns (p: nat)
    requires |s.order| >= 2 && (forall i :: 0 <= i < |s.order| ==> s.order[i] < |keys|)
    requires Sorted(keys, s) && !keys[s.order[s.Last()]].Less(t)
    ensures IsRank(keys, s, t, p)
  {
    p := Rank(keys, s, t, 1);
    forall i | p <= i < |s.order| ensures !keys[s.order[i]].Less(t) {
      assert i > p ==> keys[s.order[p]].Less(keys[s.order[i]]);
    }
  }

  /** One comparison of a search: the pointer followed, and whether it stays left of the key. */
  lemma SearchStep(a: Arena, base: seq<int>, keys: seq<Key>, s: Skip, maxsize: nat, level: int, head: nat, tail: nat,
                   t: Key, p: nat, c: nat, k: nat)
    requires SkipOk(a, base, keys, s, maxsize, level, head, tail)
    requires IsRank(keys, s, t, p) && c < p && k < s.ht[c] && k < maxsize
    ensures var j := Next(s.ht, c, k);
            && s.order[c] < |base| && PointsTo(a.words, base[s.order[c]] + k, s.order[j])
            && s.order[j] < |base|
            && (keys[s.order[j]].Less(t) <==> j < p)
            && (j >= p ==> IsUpdate(s.ht, p, k, c))
  {
    hide BlocksOk, Sorted;
    LinkedAt(a.words, base, s, maxsize, c, k);
  }

  /**
   A search for `t` in progress: it stands at position `c`, left of the place `p` of `t`, on level `k`, and has
   recorded in `update` where it left the levels above `k`; `at` gives the positions of the recorded nodes.
   */
  ghost predicate Probe(keys: seq<Key>, s: Skip, level: int, t: Key, p: nat, k: int, c: nat, update: seq<int>,
                        at: seq<nat>) {
    && |s.order| == |s.ht| && IsRank(keys, s, t, p) && -1 <= k <= level
    && level < |update| == |at|
    && c < p && k < s.ht[c]
    && forall j :: k < j <= level ==> Passed(s, p, j, update[j], at[j])
  }

  ghost predicate Passed(s: Skip, p: nat, j: nat, node: int, c: nat) {
    IsUpdate(s.ht, p, j, c) && c < |s.order| && node == s.order[c]
  }

  lemma ProbeStart(base: seq<int>, keys: seq<Key>, s: Skip, maxsize: nat, level: int, head: nat, tail: nat,
                   t: Key, update: seq<int>, at: seq<nat>) returns (p: nat)
    requires |base| == |keys| && ShapeOk(s, |base|, maxsize, level, head, tail) && Sorted(keys, s)
    requires level < |update| == |at|
    requires !keys[tail].Less(t)
    ensures Probe(keys, s, level, t, p, level, 0, update, at)
  {
    p := RankExists(keys, s, t);
  }

  /**
   The search looks at position `n`, next after `c` on level `k`: if the node there is below `t` the search can
   move to it, and otherwise it can record `c` and go down a level.
   */
  ghost predicate Ahead(keys: seq<Key>, s: Skip, level: int, t: Key, p: nat, k: nat, c: nat, n: nat,
                        update: seq<int>, at: seq<nat>) {
    && Probe(keys, s, level, t, p, k, c, update, at)
    && c < n < |s.order| && (keys[s.order[n]].Less(t) <==> n < p)
    && (n < p ==> Probe(keys, s, level, t, p, k, n, update, at))
    && (n >= p ==> Probe(keys, s, level, t, p, k - 1, c, update[k := s.order[c]], at[k := c]))
    && (n >= p && k == 0 ==> n == p == c + 1)
  }

  lemma ProbeStep(a: Arena, base: seq<int>, keys: seq<Key>, s: Skip, maxsize: nat, level: int, head: nat, tail: nat,
                  t: Key, p: nat, k: nat, c: nat, update: seq<int>, at: seq<nat>) returns (j: nat)
    requires SkipOk(a, base, keys, s, maxsize, level, head, tail)
    requires Probe(keys, s, level, t, p, k, c, update, at)
    ensures s.order[c] < |base| && 0 <= base[s.order[c]] + k < |a.words|
    ensures Ahead(keys, s, level, t, p, k, c, j, update, at)
    ensures s.order[j] < |base| && a.words[base[s.order[c]] + k] == s.order[j]
  {
    hide BlocksOk, Sorted, Linked;
    SearchStep(a, base, keys, s, maxsize, level, head, tail, t, p, c, k);
    j := Next(s.ht, c, k);
    if j >= p && k == 0 {
      SearchEnd(s, |base|, maxsize, level, head, tail, p, c);
    }
  }

  /** At the lowest level the search ends right before the place of `t`. */
  lemma SearchEnd(s: Skip, nodes: nat, maxsize: nat, level: int, head: nat, tail: nat, p: nat, c: nat)
    requires ShapeOk(s, nodes, maxsize, level, head, tail) && IsUpdate(s.ht, p, 0, c)
    ensures p == c + 1 && Next(s.ht, c, 0) == p
  {
    assert 1 <= s.ht[c + 1];
  }

  /** The list's lowest level visits every node. */
  lemma NextAtBottom(s: Skip, nodes: nat, maxsize: nat, level: int, head: nat, tail: nat, i: nat)
    requires ShapeOk(s, nodes, maxsize, level, head, tail) && i < s.Last()
    ensures Next(s.ht, i, 0) == i + 1
  {
    assert 1 <= s.ht[i + 1];
  }

  /** If the head's pointer at the top level is the tail, no node is that high. */
  /** The head, whose block is at `hb`, has a node to point to on the top level. */
  ghost predicate Snug(words: seq<int>, hb: int, level: int, tail: nat) {
    level == 0 || (0 <= hb + level < |words| && words[hb + level] != tail)
  }

  lemma LevelDown(a: Arena, base: seq<int>, keys: seq<Key>, s: Skip, maxsize: nat, level: int, head: nat, tail: nat)
    requires SkipOk(a, base, keys, s, maxsize, level, head, tail) && 0 < level
    ensures head < |base| && 0 <= base[head] + level < |a.words|
    ensures a.words[base[head] + level] == tail ==> SkipOk(a, base, keys, s, maxsize, level - 1, head, tail)
  {
    hide BlocksOk, Sorted;
    LinkedAt(a.words, base, s, maxsize, 0, level);
    var j := Next(s.ht, 0, level);
    if s.order[j] == tail {
      assert j == s.Last();
    }
  }

  // ---------------------------------------------------------------------
  // What other lists' operations leave alone
  // ---------------------------------------------------------------------

  /** Table entries outside the list, and arena blocks outside the list, do not matter to it. */
  ghost predicate SameNodes(base: seq<int>, keys: seq<Key>, base': seq<int>, keys': seq<Key>, s: Skip) {
    && |base'| == |base| && |keys'| == |keys|
    && (forall i :: 0 <= i < |s.order| ==> s.order[i] < |base| && s.order[i] < |keys|)
    && forall i :: 0 <= i < |s.order| ==> base'[s.order[i]] == base[s.order[i]] && keys'[s.order[i]] == keys[s.order[i]]
  }

  lemma SkipSurvives(a: Arena, a': Arena, base: seq<int>, keys: seq<Key>, base': seq<int>, keys': seq<Key>, s: Skip,
                     maxsize: nat, level: int, head: nat, tail: nat, own: set<int>)
    requires ArenaOk(a) && SkipOk(a, base, keys, s, maxsize, level, head, tail)
    requires ArenaOk(a') && Frame(a, a', own) && own !! s.blocks
    requires SameNodes(base, keys, base', keys', s)
    ensures SkipOk(a', base', keys', s, maxsize, level, head, tail)
  {
    hide Next;
    SurvivingBlocks(a, a', base, base', s, own);
    SurvivingLinks(a, a', base, base', s, maxsize, own);
  }

  lemma SurvivingBlocks(a: Arena, a': Arena, base: seq<int>, base': seq<int>, s: Skip, own: set<int>)
    requires |s.order| == |s.ht| >= 2 && |base| == |base'|
    requires forall i :: 0 <= i < |s.order| ==> s.order[i] < |base| && base'[s.order[i]] == base[s.order[i]]
    requires Frame(a, a', own) && own !! s.blocks && BlocksOk(a, base, s)
    ensures BlocksOk(a', base', s)
  {
    forall b | b in s.blocks ensures b in a'.out {
      assert b !in own;
    }
  }

  lemma SurvivingLinks(a: Arena, a': Arena, base: seq<int>, base': seq<int>, s: Skip, maxsize: nat, own: set<int>)
    requires ArenaOk(a) && |s.order| == |s.ht| >= 2 && |base| == |base'| && s.ht[s.Last()] == maxsize
    requires forall i :: 0 <= i < |s.order| ==> s.order[i] < |base| && base'[s.order[i]] == base[s.order[i]]
    requires Frame(a, a', own) && own !! s.blocks && BlocksOk(a, base, s)
    requires Linked(a.words, base, s, maxsize)
    ensures Linked(a'.words, base', s, maxsize)
  {
    hide Next;
    forall i, k | 0 <= i < s.Last() && 0 <= k < s.ht[i] && k < maxsize
      ensures PointsTo(a'.words, base'[s.order[i]] + k, s.order[Next(s.ht, i, k)])
    {
      LinkedAt(a.words, base, s, maxsize, i, k);
      var b := base[s.order[i]];
      assert b in s.blocks && b in a.out && b !in own && a.size[b] == s.ht[i];
      assert a'.words[b + k] == a.words[b + k];
    }
  }

  /** A fresh list: every pointer of the head is the tail. */
  lemma EmptyListOk(a: Arena, base: seq<int>, keys: seq<Key>, maxsize: nat, head: nat, tail: nat)
    requires 0 < maxsize && |base| == |keys| && head < |base| && tail < |base| && head != tail
    requires base[head] in a.out && base[tail] in a.out && base[head] != base[tail]
    requires a.out <= a.size.Keys && a.size[base[head]] == maxsize
    requires 0 <= base[head] && base[head] + maxsize <= |a.words|
    requires forall x :: base[head] <= x < base[head] + maxsize ==> a.words[x] == tail
    requires keys[head].Less(keys[tail])
    ensures SkipOk(a, base, keys, Skip([head, tail], [maxsize, maxsize], {base[head], base[tail]}), maxsize, 0, head,
                   tail)
  {
  }

  // ---------------------------------------------------------------------
  // The set of nodes
  // ---------------------------------------------------------------------

  ghost function Nodes(s: Skip): set<nat> {
    set i | 0 < i < s.Last() && i < |s.order| :: s.order[i]
  }

  lemma NodesInserted(s: Skip, p: nat, n: nat, h: nat, b: int)
    requires |s.order| == |s.ht| && 1 <= p < |s.order|
    ensures Nodes(Inserted(s, p, n, h, b)) == Nodes(s) + {n}
  {
    var s' := Inserted(s, p, n, h, b);
    forall x | x in Nodes(s) + {n} ensures x in Nodes(s') {
      if x in Nodes(s) {
        var i :| 0 < i < s.Last() && s.order[i] == x;
        assert s'.order[if i < p then i else i + 1] == x;
      } else {
        assert s'.order[p] == x;
      }
    }
    forall x | x in Nodes(s') ensures x in Nodes(s) + {n} {
      var i :| 0 < i < s'.Last() && s'.order[i] == x;
      if i != p { assert s.order[if i < p then i else i - 1] == x; }
    }
  }

  lemma NodesRemoved(s: Skip, p: nat, b: int)
    requires |s.order| == |s.ht| && 1 <= p < s.Last()
    requires forall i, j :: 0 <= i < j < |s.order| ==> s.order[i] != s.order[j]
    ensures Nodes(Removed(s, p, b)) == Nodes(s) - {s.order[p]}
  {
    var s' := Removed(s, p, b);
    forall x | x in Nodes(s) - {s.order[p]} ensures x in Nodes(s') {
      var i :| 0 < i < s.Last() && s.order[i] == x;
      assert s'.order[if i < p then i else i - 1] == x;
    }
    forall x | x in Nodes(s') ensures x in Nodes(s) - {s.order[p]} {
      var i :| 0 < i < s'.Last() && s'.order[i] == x;
      assert s.order[if i < p then i else i + 1] == x;
    }
  }

  lemma BlockBounds(a: Arena, b: int)
    requires ArenaOk(a) && b in a.size
    ensures 0 <= b && 0 < a.size[b] && b + a.size[b] <= |a.words|
  {
  }

  lemma StillOut(a: Arena, a': Arena, b: int)
    requires ArenaOk(a) && Frame(a, a', {}) && b in a.out
    ensures b in a'.out && b in a'.size && b in a.size && a'.size[b] == a.size[b]
  {
  }
}
