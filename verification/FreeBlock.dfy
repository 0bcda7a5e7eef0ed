/**
 The arena that supplies the pointer blocks of all three skip lists
 (storage/pq/FreeBlock.cpp): a size-class allocator with one free list per block
 size, threaded through the first word of each free block, and an overflow list
 of full-sized blocks.
 */
module FreeBlocks {
  import opened SkipTheory

  const FB_MAX_LEVELS := 15
  const FBLK_NONE := -1

  /** The allocator's state as values; `size`, `out` and `lists` say what the words mean. */
  datatype Fb = Fb(words: seq<int>, nfree: seq<int>, free: seq<int>, avail: int, outstanding: int,
                   size: map<int, nat>, out: set<int>, lists: seq<seq<int>>)
  {
    function AsArena(): Arena { Arena(words, size, out) }
  }

  /** The length of the blocks kept at a level; the overflow level repeats the largest one. */
  function BlockLen(level: int, maxsize: int): int {
    if level < maxsize then level + 1 else maxsize
  }

  function After(l: seq<int>, i: nat): int {
    if i + 1 < |l| then l[i + 1] else FBLK_NONE
  }

  /** A free list starts at `hd` and is linked through the first word of each block. */
  ghost predicate Chain(words: seq<int>, hd: int, l: seq<int>) {
    && hd == (if l == [] then FBLK_NONE else l[0])
    && (forall i :: 0 <= i < |l| ==> 0 <= l[i] < |words|)
    && forall i {:trigger After(l, i)} :: 0 <= i < |l| ==> words[l[i]] == After(l, i)
  }

  lemma ChainPush(words: seq<int>, hd: int, l: seq<int>, b: int)
    requires Chain(words, hd, l) && 0 <= b < |words| && b !in l
    ensures Chain(words[b := hd], b, [b] + l)
  {
    var w, m := words[b := hd], [b] + l;
    forall i | 0 <= i < |m| ensures 0 <= m[i] < |w| && w[m[i]] == After(m, i) {
      if i > 0 { assert m[i] == l[i - 1] && m[i] in l && After(m, i) == After(l, i - 1); }
    }
  }

  lemma ChainPop(words: seq<int>, hd: int, l: seq<int>)
    requires Chain(words, hd, l) && |l| > 0
    ensures hd == l[0] && 0 <= hd < |words| && Chain(words, words[hd], l[1..])
  {
    var m := l[1..];
    assert words[l[0]] == After(l, 0);
    forall i | 0 <= i < |m| ensures 0 <= m[i] < |words| && words[m[i]] == After(m, i) {
      assert m[i] == l[i + 1] && After(m, i) == After(l, i + 1);
    }
  }

  lemma ChainKept(words: seq<int>, hd: int, l: seq<int>, b: int, x: int)
    requires Chain(words, hd, l) && 0 <= b < |words| && b !in l
    ensures Chain(words[b := x], hd, l)
  {
  }

  ghost predicate Shape(f: Fb, maxsize: int, arenaSz: int) {
    && 1 <= maxsize < FB_MAX_LEVELS && |f.nfree| == |f.free| == FB_MAX_LEVELS && |f.lists| == maxsize + 1
    && arenaSz <= |f.words| && (forall b :: b in f.size ==> b + f.size[b] <= arenaSz)
  }

  ghost predicate Chains(f: Fb) {
    |f.lists| <= |f.nfree| && |f.lists| <= |f.free| &&
    forall v :: 0 <= v < |f.lists| ==> f.nfree[v] == |f.lists[v]| && Chain(f.words, f.free[v], f.lists[v])
  }

  lemma CountAt(f: Fb, v: nat)
    requires Chains(f) && v < |f.lists|
    ensures f.nfree[v] == |f.lists[v]|
  {
  }

  /** Free-listed blocks are not handed out and have their level's length. */
  ghost predicate Listed(f: Fb, maxsize: int) {
    forall v, i :: 0 <= v < |f.lists| && 0 <= i < |f.lists[v]| ==>
      var b := f.lists[v][i]; b in f.size && b !in f.out && f.size[b] == BlockLen(v, maxsize)
  }

  /** No block is free-listed twice. */
  ghost predicate Once(lists: seq<seq<int>>) {
    forall v, i, u, j ::
      (0 <= v < |lists| && 0 <= i < |lists[v]| && 0 <= u < |lists| && 0 <= j < |lists[u]| && lists[v][i] == lists[u][j])
      ==> v == u && i == j
  }

  function Total(lists: seq<seq<int>>): nat {
    if lists == [] then 0 else Total(lists[..|lists| - 1]) + |lists[|lists| - 1]|
  }

  /** Everything but the number of outstanding blocks. */
  ghost predicate Core(f: Fb, maxsize: int, arenaSz: int) {
    && Shape(f, maxsize, arenaSz) && ArenaOk(f.AsArena())
    && Chains(f) && Listed(f, maxsize) && Once(f.lists)
    && f.avail == Total(f.lists)
  }

  ghost predicate FbOk(f: Fb, maxsize: int, arenaSz: int) {
    Core(f, maxsize, arenaSz) && f.outstanding == |f.out|
  }

  lemma SizeBounds(f: Fb, maxsize: int, arenaSz: int)
    requires FbOk(f, maxsize, arenaSz)
    ensures 1 <= maxsize < FB_MAX_LEVELS && ArenaOk(f.AsArena())
  {
    hide Once, Total, ArenaOk, Chains, Listed;
  }

  lemma CoreCount(f: Fb, maxsize: int, arenaSz: int, n: int)
    requires Core(f, maxsize, arenaSz)
    ensures Core(f.(outstanding := n), maxsize, arenaSz)
  {
    hide Once, Total, ArenaOk, Chain;
  }

  lemma {:induction false} EmptyTotal(lists: seq<seq<int>>)
    requires forall v :: 0 <= v < |lists| ==> lists[v] == []
    ensures Total(lists) == 0
  {
    if lists != [] { EmptyTotal(lists[..|lists| - 1]); }
  }

  lemma {:induction false} TotalUpdate(lists: seq<seq<int>>, v: nat, l: seq<int>)
    requires v < |lists|
    ensures Total(lists[v := l]) == Total(lists) - |lists[v]| + |l|
  {
    var n := |lists| - 1;
    if v == n {
      assert lists[v := l][..n] == lists[..n];
    } else {
      assert lists[v := l][..n] == lists[..n][v := l];
      TotalUpdate(lists[..n], v, l);
    }
  }

  // ---------------------------------------------------------------------
  // Writing into a block that is handed out
  // ---------------------------------------------------------------------

  lemma WriteOk(f: Fb, maxsize: int, arenaSz: int, b: int, i: int, x: int)
    requires Core(f, maxsize, arenaSz) && b in f.out && b in f.size && b <= i < b + f.size[b] && 0 <= i < |f.words|
    ensures Core(f.(words := f.words[i := x]), maxsize, arenaSz)
    ensures Frame(f.AsArena(), f.(words := f.words[i := x]).AsArena(), {b})
  {
    hide Once, Total;
    var f' := f.(words := f.words[i := x]);
    forall v | 0 <= v < |f.lists| ensures Chain(f'.words, f.free[v], f.lists[v]) {
      forall j | 0 <= j < |f.lists[v]| ensures f.lists[v][j] != i {
        assert f.lists[v][j] in f.size && f.lists[v][j] !in f.out;
      }
    }
  }

  // ---------------------------------------------------------------------
  // Release: push a block on the list of its size
  // ---------------------------------------------------------------------

  function Pushed(f: Fb, v: nat, b: int): Fb
    requires v < |f.lists| && v < |f.nfree| && v < |f.free| && 0 <= b < |f.words|
  {
    f.(words := f.words[b := f.free[v]], free := f.free[v := b], nfree := f.nfree[v := f.nfree[v] + 1],
       avail := f.avail + 1, outstanding := f.outstanding - 1,
       out := f.out - {b}, lists := f.lists[v := [b] + f.lists[v]])
  }

  lemma PushChains(f: Fb, maxsize: int, arenaSz: int, v: nat, b: int)
    requires Core(f, maxsize, arenaSz) && v < |f.lists| && b in f.out && 0 <= b < |f.words|
    ensures Chains(Pushed(f, v, b))
  {
    hide Once, Total, ArenaOk, Chain;
    var f' := Pushed(f, v, b);
    forall u | 0 <= u < |f.lists| ensures f'.nfree[u] == |f'.lists[u]| && Chain(f'.words, f'.free[u], f'.lists[u]) {
      assert Chain(f.words, f.free[u], f.lists[u]);
      forall j | 0 <= j < |f.lists[u]| ensures f.lists[u][j] != b {
        assert f.lists[u][j] !in f.out;
      }
      if u == v {
        ChainPush(f.words, f.free[u], f.lists[u], b);
      } else {
        ChainKept(f.words, f.free[u], f.lists[u], b, f.free[v]);
      }
    }
  }

  lemma PushListed(f: Fb, maxsize: int, arenaSz: int, v: nat, b: int)
    requires Core(f, maxsize, arenaSz) && v < |f.lists| && b in f.out && 0 <= b < |f.words|
    requires b in f.size && f.size[b] == BlockLen(v, maxsize)
    ensures Listed(Pushed(f, v, b), maxsize) && Once(Pushed(f, v, b).lists)
  {
    hide Total, ArenaOk, Chains;
    var f' := Pushed(f, v, b);
    forall u, i | 0 <= u < |f'.lists| && 0 <= i < |f'.lists[u]|
      ensures var c := f'.lists[u][i]; c in f'.size && c !in f'.out && f'.size[c] == BlockLen(u, maxsize)
    {
      if u == v && i > 0 { assert f'.lists[u][i] == f.lists[u][i - 1]; }
    }
    forall u, i, u', j | 0 <= u < |f'.lists| && 0 <= i < |f'.lists[u]| && 0 <= u' < |f'.lists|
        && 0 <= j < |f'.lists[u']| &&
        f'.lists[u][i] == f'.lists[u'][j]
      ensures u == u' && i == j
    {
      PushOnce(f.lists, f.out, v, b, u, i, u', j);
    }
  }

  lemma PushOnce(lists: seq<seq<int>>, out: set<int>, v: nat, b: int, u: nat, i: nat, u': nat, j: nat)
    requires Once(lists) && v < |lists| && b in out
    requires forall v, i :: 0 <= v < |lists| && 0 <= i < |lists[v]| ==> lists[v][i] !in out
    requires var l' := lists[v := [b] + lists[v]];
             u < |lists| && i < |l'[u]| && u' < |lists| && j < |l'[u']| && l'[u][i] == l'[u'][j]
    ensures u == u' && i == j
  {
    var l' := lists[v := [b] + lists[v]];
    var i0 := if u == v then i - 1 else i;
    var j0 := if u' == v then j - 1 else j;
    if i0 >= 0 { assert l'[u][i] == lists[u][i0]; }
    if j0 >= 0 { assert l'[u'][j] == lists[u'][j0]; }
  }

  lemma PushOk(f: Fb, maxsize: int, arenaSz: int, v: nat, b: int)
    requires Core(f, maxsize, arenaSz) && v < |f.lists| && b in f.out && b in f.size
             && f.size[b] == BlockLen(v, maxsize)
    ensures 0 <= b < |f.words|
    ensures Core(Pushed(f, v, b), maxsize, arenaSz)
    ensures Frame(f.AsArena(), Pushed(f, v, b).AsArena(), {b})
    ensures |Pushed(f, v, b).out| == |f.out| - 1
  {
    hide Once, Total, Chain, Listed;
    assert b in f.AsArena().size;
    PushChains(f, maxsize, arenaSz, v, b);
    PushListed(f, maxsize, arenaSz, v, b);
    TotalUpdate(f.lists, v, [b] + f.lists[v]);
  }

  // ---------------------------------------------------------------------
  // Get: pop a block, and cut off what is not needed
  // ---------------------------------------------------------------------

  function Popped(f: Fb, v: nat): Fb
    requires v < |f.lists| && v < |f.nfree| && v < |f.free| && |f.lists[v]| > 0
    requires 0 <= f.lists[v][0] < |f.words|
  {
    var b := f.lists[v][0];
    f.(free := f.free[v := f.words[b]], nfree := f.nfree[v := f.nfree[v] - 1],
       avail := f.avail - 1, outstanding := f.outstanding + 1,
       out := f.out + {b}, lists := f.lists[v := f.lists[v][1..]])
  }

  lemma PopOnce(lists: seq<seq<int>>, v: nat)
    requires Once(lists) && v < |lists| && |lists[v]| > 0
    ensures Once(lists[v := lists[v][1..]])
    ensures var l' := lists[v := lists[v][1..]];
            forall u, i :: 0 <= u < |l'| && 0 <= i < |l'[u]| ==> l'[u][i] != lists[v][0]
  {
    var l' := lists[v := lists[v][1..]];
    forall u, i, u', j | 0 <= u < |l'| && 0 <= i < |l'[u]| && 0 <= u' < |l'| && 0 <= j < |l'[u']|
        && l'[u][i] == l'[u'][j]
      ensures u == u' && i == j
    {
      assert l'[u][i] == lists[u][if u == v then i + 1 else i];
      assert l'[u'][j] == lists[u'][if u' == v then j + 1 else j];
    }
    forall u, i | 0 <= u < |l'| && 0 <= i < |l'[u]| ensures l'[u][i] != lists[v][0] {
      assert l'[u][i] == lists[u][if u == v then i + 1 else i];
    }
  }

  lemma PopListed(f: Fb, maxsize: int, arenaSz: int, v: nat)
    requires Core(f, maxsize, arenaSz) && v < |f.lists| && |f.lists[v]| > 0 && 0 <= f.lists[v][0] < |f.words|
    ensures Listed(Popped(f, v), maxsize) && Chains(Popped(f, v))
  {
    hide Total, ArenaOk, Once, Chain;
    PopOnce(f.lists, v);
    var f' := Popped(f, v);
    forall u, i | 0 <= u < |f'.lists| && 0 <= i < |f'.lists[u]|
      ensures var c := f'.lists[u][i]; c in f'.size && c !in f'.out && f'.size[c] == BlockLen(u, maxsize)
    {
      assert f'.lists[u][i] == f.lists[u][if u == v then i + 1 else i];
    }
    forall u | 0 <= u < |f.lists| ensures f'.nfree[u] == |f'.lists[u]| && Chain(f'.words, f'.free[u], f'.lists[u]) {
      if u == v { ChainPop(f.words, f.free[u], f.lists[u]); }
    }
  }

  lemma PopOk(f: Fb, maxsize: int, arenaSz: int, v: nat)
    requires Core(f, maxsize, arenaSz) && v < |f.lists| && |f.lists[v]| > 0
    ensures var b := f.lists[v][0];
            && 0 <= b < |f.words| && f.free[v] == b && f.words[b] == After(f.lists[v], 0)
            && b in f.size && b !in f.out && f.size[b] == BlockLen(v, maxsize)
            && Core(Popped(f, v), maxsize, arenaSz)
            && |Popped(f, v).out| == |f.out| + 1
            && f.avail > 0
  {
    hide Once, Total;
    ChainPop(f.words, f.free[v], f.lists[v]);
    PopListed(f, maxsize, arenaSz, v);
    PopOnce(f.lists, v);
    TotalUpdate(f.lists, v, f.lists[v][1..]);
  }

  /** Cutting a handed-out block of length `n` after `want` words: the tail is a block of its own. */
  function Cut(f: Fb, b: int, want: nat): Fb
    requires b in f.size && 0 < want <= f.size[b]
  {
    if want == f.size[b] then f
    else f.(size := f.size[b := want][b + want := f.size[b] - want], out := f.out + {b + want})
  }

  lemma CutOk(f: Fb, maxsize: int, arenaSz: int, b: int, want: nat)
    requires Core(f, maxsize, arenaSz) && b in f.out && b in f.size && 0 < want < f.size[b]
    ensures Core(Cut(f, b, want), maxsize, arenaSz)
    ensures b + want !in f.size && b + want !in f.out && |Cut(f, b, want).out| == |f.out| + 1
  {
    hide Once, Total, Chains;
    var f' := Cut(f, b, want);
    assert b + want !in f.size;
    CutArena(f.AsArena(), b, want);
    CutListed(f, maxsize, b, want);
    assert Chains(f') by { CutChains(f, f'); }
  }

  lemma CutChains(f: Fb, f': Fb)
    requires Chains(f) && f'.lists == f.lists && f'.nfree == f.nfree && f'.free == f.free && f'.words == f.words
    ensures Chains(f')
  {
  }

  lemma CutArena(a: Arena, b: int, want: nat)
    requires ArenaOk(a) && b in a.out && b in a.size && 0 < want < a.size[b] && b + want !in a.size
    ensures ArenaOk(a.(size := a.size[b := want][b + want := a.size[b] - want], out := a.out + {b + want}))
  {
  }

  lemma CutListed(f: Fb, maxsize: int, b: int, want: nat)
    requires Listed(f, maxsize) && b in f.out && b in f.size && 0 < want < f.size[b] && b + want !in f.size
    ensures Listed(Cut(f, b, want), maxsize)
  {
  }

  /** Giving up the end of an overflow block: its last words are never handed out again. */
  lemma ShrinkOk(f: Fb, maxsize: int, arenaSz: int, b: int, want: nat)
    requires Core(f, maxsize, arenaSz) && b in f.out && b in f.size && 0 < want <= f.size[b]
    ensures Core(f.(size := f.size[b := want]), maxsize, arenaSz)
  {
    hide Once, Total, Chains;
    var f' := f.(size := f.size[b := want]);
    assert Chains(f') by { CutChains(f, f'); }
  }

  // ---------------------------------------------------------------------
  // Formatting a level: a run of equal blocks, linked in address order
  // ---------------------------------------------------------------------

  /** `l` are the first words of blocks of length `n`, one after the other from `lo` up to `hi`. */
  ghost predicate Row(l: seq<int>, n: int, lo: int, hi: int) {
    && |l| > 0 && l[0] == lo && l[|l| - 1] + n == hi
    && (forall i, j :: 0 <= i < j < |l| ==> l[i] + n <= l[j])
    && (forall i :: 0 <= i < |l| ==> lo <= l[i] && l[i] + n <= hi)
  }

  /** All blocks so far end by `hi`. */
  ghost predicate Below(f: Fb, hi: int) {
    0 <= hi && forall b :: b in f.size ==> b + f.size[b] <= hi
  }

  lemma RowStart(l: seq<int>, n: int, lo: int, hi: int)
    requires Row(l, n, lo, hi)
    ensures |l| > 0 && l[0] == lo && lo + n <= hi
  {
  }

  /** A row whose blocks are linked, up to the last one. */
  ghost predicate Threaded(words: seq<int>, l: seq<int>, n: int, lo: int, hi: int) {
    && 0 <= lo && 0 < n && Row(l, n, lo, hi) && hi <= |words|
    && forall j {:trigger After(l, j)} :: 0 <= j < |l| - 1 ==> words[l[j]] == After(l, j)
  }

  lemma ThreadStart(words: seq<int>, n: int, lo: int)
    requires 0 <= lo && 0 < n && lo + n <= |words|
    ensures Threaded(words, [lo], n, lo, lo + n)
  {
  }

  lemma ThreadGrows(words: seq<int>, l: seq<int>, n: int, lo: int, off: int)
    requires Threaded(words, l, n, lo, off + n) && off + n + n <= |words|
    ensures lo <= off && Threaded(words[off := off + n], l + [off + n], n, lo, off + n + n)
  {
    var w, m := words[off := off + n], l + [off + n];
    forall j {:trigger After(m, j)} | 0 <= j < |m| - 1 ensures w[m[j]] == After(m, j) {
      if j < |l| - 1 { assert After(m, j) == After(l, j) && m[j] == l[j] && l[j] + n <= l[|l| - 1]; }
    }
  }

  lemma ThreadEnds(words: seq<int>, l: seq<int>, n: int, lo: int, off: int)
    requires Threaded(words, l, n, lo, off + n)
    ensures lo <= off < |words| && Chain(words[off := FBLK_NONE], lo, l) && Row(l, n, lo, off + n)
  {
    var w := words[off := FBLK_NONE];
    forall j {:trigger After(l, j)} | 0 <= j < |l| ensures w[l[j]] == After(l, j) {
      if j < |l| - 1 { assert l[j] + n <= l[|l| - 1]; }
    }
  }

  lemma MulPositive(n: int, k: int)
    requires 0 < n && 0 < k
    ensures n * k == n * (k - 1) + n && n <= n * k
  {
  }

  /** An arena before any level is formatted. */
  function Blank(words: seq<int>, levels: nat): Fb {
    Fb(words, seq(FB_MAX_LEVELS, _ => 0), seq(FB_MAX_LEVELS, _ => FBLK_NONE), 0, 0, map[], {}, seq(levels + 1, _ => []))
  }

  lemma BlankOk(words: seq<int>, levels: nat, arenaSz: int)
    requires 1 <= levels < FB_MAX_LEVELS && 0 <= arenaSz <= |words|
    ensures Core(Blank(words, levels), levels, arenaSz) && Below(Blank(words, levels), 0)
  {
    EmptyTotal(Blank(words, levels).lists);
  }

  function Formatted(f: Fb, words: seq<int>, v: nat, n: nat, l: seq<int>): Fb
    requires v < |f.lists| && v < |f.nfree| && v < |f.free| && |l| > 0
  {
    f.(words := words, free := f.free[v := l[0]], nfree := f.nfree[v := |l|], avail := f.avail + |l|,
       size := f.size + (map b | b in l :: n), lists := f.lists[v := l])
  }

  lemma FormatArena(f: Fb, words: seq<int>, v: nat, n: nat, l: seq<int>, lo: int, hi: int)
    requires ArenaOk(f.AsArena()) && v < |f.lists| && v < |f.nfree| && v < |f.free|
    requires Row(l, n, lo, hi) && 0 < n && Below(f, lo) && hi <= |words| == |f.words|
    ensures ArenaOk(Formatted(f, words, v, n, l).AsArena())
    ensures Below(Formatted(f, words, v, n, l), hi)
  {
    hide Row;
    RowStart(l, n, lo, hi);
    var size := Formatted(f, words, v, n, l).size;
    forall b | b in size ensures 0 <= b && 0 < size[b] && b + size[b] <= hi {
      if b in l { InRow(l, n, lo, hi, b); }
    }
    forall b, c | b in size && c in size && b < c ensures b + size[b] <= c {
      if c in l {
        if b in l { RowApart(l, n, lo, hi, b, c); } else { InRow(l, n, lo, hi, c); }
      } else if b in l {
        InRow(l, n, lo, hi, b);
      }
    }
  }

  lemma InRow(l: seq<int>, n: int, lo: int, hi: int, b: int)
    requires Row(l, n, lo, hi) && b in l
    ensures lo <= b && b + n <= hi
  {
  }

  lemma RowApart(l: seq<int>, n: int, lo: int, hi: int, b: int, c: int)
    requires Row(l, n, lo, hi) && 0 < n && b in l && c in l && b < c
    ensures b + n <= c
  {
    var i :| 0 <= i < |l| && l[i] == b;
    var j :| 0 <= j < |l| && l[j] == c;
    if j < i { assert l[j] + n <= l[i]; }
  }

  lemma FormatChains(f: Fb, words: seq<int>, maxsize: int, v: nat, n: nat, l: seq<int>, lo: int, hi: int)
    requires ArenaOk(f.AsArena()) && Chains(f) && Listed(f, maxsize) && v < |f.lists|
    requires Row(l, n, lo, hi) && 0 < n && Below(f, lo) && hi <= |words| == |f.words|
    requires Chain(words, lo, l)
    requires forall x :: 0 <= x < lo ==> words[x] == f.words[x]
    ensures Chains(Formatted(f, words, v, n, l))
  {
    var f' := Formatted(f, words, v, n, l);
    forall u | 0 <= u < |f.lists| ensures f'.nfree[u] == |f'.lists[u]| && Chain(f'.words, f'.free[u], f'.lists[u]) {
      if u != v {
        assert Chain(f.words, f.free[u], f.lists[u]);
        forall j | 0 <= j < |f.lists[u]| ensures words[f.lists[u][j]] == f.words[f.lists[u][j]] {
          assert f.lists[u][j] in f.size;
        }
      }
    }
  }

  lemma FormatListed(f: Fb, words: seq<int>, maxsize: int, v: nat, n: nat, l: seq<int>, lo: int, hi: int)
    requires ArenaOk(f.AsArena()) && Listed(f, maxsize) && Once(f.lists) && v < |f.lists| && v < |f.nfree|
             && v < |f.free|
    requires Row(l, n, lo, hi) && 0 < n == BlockLen(v, maxsize) && Below(f, lo) && f.lists[v] == []
    ensures Listed(Formatted(f, words, v, n, l), maxsize) && Once(Formatted(f, words, v, n, l).lists)
  {
    var f' := Formatted(f, words, v, n, l);
    forall u, i | 0 <= u < |f'.lists| && 0 <= i < |f'.lists[u]|
      ensures var b := f'.lists[u][i];
              b in f'.size && b !in f'.out && f'.size[b] == BlockLen(u, maxsize) && (u == v <==> lo <= b)
    {
      if u == v { assert f'.lists[u][i] in l; } else { assert f'.lists[u][i] == f.lists[u][i]; }
    }
    forall u, i, u', j | 0 <= u < |f'.lists| && 0 <= i < |f'.lists[u]| && 0 <= u' < |f'.lists|
        && 0 <= j < |f'.lists[u']| &&
        f'.lists[u][i] == f'.lists[u'][j]
      ensures u == u' && i == j
    {
      assert u == v <==> u' == v;
    }
  }

  lemma FormatOk(f: Fb, words: seq<int>, maxsize: int, arenaSz: int, v: nat, n: nat, l: seq<int>, lo: int, hi: int)
    requires Core(f, maxsize, arenaSz) && v < |f.lists| && f.lists[v] == []
    requires Row(l, n, lo, hi) && 0 < n == BlockLen(v, maxsize) && Below(f, lo) && hi <= arenaSz && |words| == |f.words|
    requires Chain(words, lo, l)
    requires forall x :: 0 <= x < lo ==> words[x] == f.words[x]
    ensures Core(Formatted(f, words, v, n, l), maxsize, arenaSz) && Below(Formatted(f, words, v, n, l), hi)
  {
    hide Once, Total, Chain, Listed, ArenaOk, Row, Chains;
    FormatArena(f, words, v, n, l, lo, hi);
    FormatChains(f, words, maxsize, v, n, l, lo, hi);
    FormatListed(f, words, maxsize, v, n, l, lo, hi);
    TotalUpdate(f.lists, v, l);
  }

  // ---------------------------------------------------------------------
  // The allocator
  // ---------------------------------------------------------------------

  /** Each level gets a quarter of the blocks of the level below. */
  function Quarter(numblks: int): int {
    if numblks >= 4 then numblks / 4 else 1
  }

  /** The words taken by the levels from `level` up, the first of which has `numblks` blocks. */
  function LevelWords(numblks: int, level: int, maxsize: int): (r: int)
    requires 0 < numblks && 0 <= level
    ensures r >= 0
    decreases maxsize - level
  {
    if level >= maxsize then 0 else ((level + 1) * numblks) + LevelWords(Quarter(numblks), level + 1, maxsize)
  }

  /** The first `n` sizes have their blocks, each a quarter of the size before, and `next` is due for the next one. */
  ghost predicate Graded(nf: seq<int>, n: nat, perLevel: int, next: int) {
    && n <= |nf| && next == (if n == 0 then perLevel else Quarter(nf[n - 1])) && (0 < n ==> nf[0] == perLevel)
    && (forall v :: 0 <= v < n ==> nf[v] > 0) && (forall v :: 0 < v < n ==> nf[v] == Quarter(nf[v - 1]))
  }

  lemma GradedStart(nf: seq<int>, perLevel: int)
    ensures Graded(nf, 0, perLevel, perLevel)
  {
  }

  lemma GradedMore(nf: seq<int>, n: nat, perLevel: int, next: int)
    requires Graded(nf, n, perLevel, next) && n < |nf| && 0 < next
    ensures Graded(nf[n := next], n + 1, perLevel, Quarter(next)) && 0 < Quarter(next)
  {
  }

  lemma GradedAll(nf: seq<int>, n: nat, perLevel: int, next: int, rest: int)
    requires Graded(nf, n, perLevel, next) && 0 < n < |nf|
    ensures var all := nf[n := rest];
            all[0] == perLevel && all[n - 1] > 0
            && forall v :: 0 <= v < n - 1 ==> all[v + 1] == if all[v] >= 4 then all[v] / 4 else 1
  {
    var all := nf[n := rest];
    forall v | 0 <= v < n - 1 ensures all[v + 1] == if all[v] >= 4 then all[v] / 4 else 1 {
      assert nf[v + 1] == Quarter(nf[v + 1 - 1]);
    }
  }

  lemma LevelWordsStep(numblks: int, level: int, maxsize: int)
    requires 0 < numblks && 0 <= level < maxsize
    ensures LevelWords(numblks, level, maxsize) ==
            (level + 1) * numblks + LevelWords(Quarter(numblks), level + 1, maxsize)
  {
  }

  lemma LevelWordsDone(numblks: int, maxsize: int)
    requires 0 < numblks && 0 <= maxsize
    ensures LevelWords(numblks, maxsize, maxsize) == 0
  {
  }

  // ---------------------------------------------------------------------
  // How many blocks are ever cut down
  // ---------------------------------------------------------------------

  function Pow2(n: nat): nat {
    if n == 0 then 1 else 2 * Pow2(n - 1)
  }

  function Sum(l: seq<nat>): nat {
    if l == [] then 0 else Sum(l[..|l| - 1]) + l[|l| - 1]
  }

  lemma SumMore(l: seq<nat>, i: nat)
    requires i < |l|
    ensures Sum(l[..i + 1]) == Sum(l[..i]) + l[i]
  {
    assert l[..i + 1][..i] == l[..i];
  }

  lemma {:induction false} SumUpdate(l: seq<nat>, z: nat, n: nat)
    requires z < |l| && n <= |l|
    ensures Sum(l[z := l[z] + 1][..n]) == Sum(l[..n]) + if z < n then 1 else 0
    decreases n
  {
    if n > 0 {
      SumMore(l, n - 1);
      SumMore(l[z := l[z] + 1], n - 1);
      SumUpdate(l, z, n - 1);
    }
  }

  /** The blocks handed out that have `z` words. */
  ghost function OutOf(size: map<int, nat>, out: set<int>, z: nat): set<int> {
    set b | b in out && b in size && size[b] == z
  }

  lemma OutOfBound(size: map<int, nat>, out: set<int>, z: nat)
    ensures |OutOf(size, out, z)| <= |out|
  {
    Subset(OutOf(size, out, z), out);
  }

  lemma Subset(a: set<int>, b: set<int>)
    requires a <= b
    ensures |a| <= |b|
  {
    assert a + (b - a) == b;
  }

  /** All blocks of `z` words, free or handed out; the full-sized ones are kept at two levels. */
  ghost function Existing(nfree: seq<int>, size: map<int, nat>, out: set<int>, maxsize: nat, z: nat): int
    requires 1 <= z <= maxsize < |nfree|
  {
    nfree[z - 1] + (if z == maxsize then nfree[maxsize] else 0) + |OutOf(size, out, z)|
  }

  /**
   `cuts[z]` counts the blocks that were cut down to `z` words.  Each made one more block of that size, and was made
   when all of them, at most `peak` many, were handed out; and a full-sized block is gone only if it was cut.
   */
  ghost predicate Balanced(nfree: seq<int>, size: map<int, nat>, out: set<int>, maxsize: nat, cuts: seq<nat>, peak: nat,
                           top: int)
  {
    && 1 <= maxsize < |nfree| && |cuts| == maxsize && cuts[0] == 0 && |out| <= peak
    && Existing(nfree, size, out, maxsize, maxsize) + Sum(cuts) >= top
    && (forall z :: 1 <= z < maxsize ==> Existing(nfree, size, out, maxsize, z) + Sum(cuts[..z]) >= cuts[z])
    && (forall z :: 1 <= z < maxsize ==> cuts[z] <= peak + Sum(cuts[..z]))
  }

  /** So, however long it goes on, no more than this many blocks are ever cut down. */
  lemma {:induction false} CutsBounded(cuts: seq<nat>, peak: nat, n: nat)
    requires 1 <= n <= |cuts| && cuts[0] == 0 && forall z :: 1 <= z < n ==> cuts[z] <= peak + Sum(cuts[..z])
    ensures Sum(cuts[..n]) + peak <= peak * Pow2(n - 1)
    decreases n
  {
    hide Sum, Pow2;
    SumMore(cuts, n - 1);
    if n > 1 {
      CutsBounded(cuts, peak, n - 1);
      Doubles(peak, n - 1);
    } else {
      FirstCut(cuts, peak);
    }
  }

  lemma Doubles(peak: nat, n: nat)
    requires n > 0
    ensures peak * Pow2(n) == 2 * (peak * Pow2(n - 1))
  {
  }

  lemma FirstCut(cuts: seq<nat>, peak: nat)
    ensures Sum(cuts[..0]) == 0 && peak * Pow2(0) == peak
  {
  }

  /** With at most `cap` blocks handed out at any time, full-sized blocks never run out. */
  lemma NeverEmpty(nfree: seq<int>, size: map<int, nat>, out: set<int>, maxsize: nat, cuts: seq<nat>, peak: nat,
                   top: int, cap: nat)
    requires Balanced(nfree, size, out, maxsize, cuts, peak, top) && peak <= cap && |out| < cap
    requires top >= cap * Pow2(maxsize - 1)
    ensures nfree[maxsize - 1] + nfree[maxsize] > 0
  {
    hide Sum, Pow2;
    CutsBounded(cuts, peak, maxsize);
    assert cuts[..maxsize] == cuts;
    OutOfBound(size, out, maxsize);
    PowPositive(maxsize - 1);
    Scaled(peak, cap, Pow2(maxsize - 1));
  }

  lemma {:induction false} PowPositive(n: nat)
    ensures Pow2(n) >= 1
  {
    if n > 0 { PowPositive(n - 1); }
  }

  lemma Scaled(a: nat, b: nat, k: nat)
    requires a <= b && k >= 1
    ensures a * k + (b - a) <= b * k
  {
    var d := b - a;
    assert b * k == a * k + d * k;
    assert d * k >= d;
  }

  /** A request for `want` words took a block from `level`. */
  ghost function CutsAfter(cuts: seq<nat>, level: nat, want: nat): seq<nat> {
    if want < |cuts| && want <= level then cuts[want := cuts[want] + 1] else cuts
  }

  /** What that does to the free counts: one fewer at that level, and one more for what was cut off, if it is kept. */
  ghost function CountsAfter(nfree: seq<int>, level: nat, want: nat, maxsize: nat): seq<int>
    requires level <= maxsize < |nfree| && 1 <= want <= level + 1
  {
    var n := nfree[level := nfree[level] - 1];
    if level < maxsize && want < level + 1 then n[level - want := n[level - want] + 1] else n
  }

  lemma OutOfMore(size: map<int, nat>, out: set<int>, size': map<int, nat>, r: int, want: nat, z: nat)
    requires r !in out && r in size' && size'[r] == want && forall b :: b in out ==>
               b in size && b in size' && size'[b] == size[b]
    ensures |OutOf(size', out + {r}, z)| == |OutOf(size, out, z)| + if z == want then 1 else 0
  {
    var o, o' := OutOf(size, out, z), OutOf(size', out + {r}, z);
    forall b ensures b in o' <==> b in o || (b == r && z == want) {
    }
    if z == want { assert o' == o + {r}; } else { assert o' == o; }
  }

  lemma BalancedGet(nfree: seq<int>, size: map<int, nat>, out: set<int>, maxsize: nat, cuts: seq<nat>, peak: nat,
                    top: int, level: nat, want: nat, size': map<int, nat>, r: int)
    requires Balanced(nfree, size, out, maxsize, cuts, peak, top) && level <= maxsize && 1 <= want <= maxsize
    requires want <= level + 1 && forall v :: want - 1 <= v < level ==> nfree[v] <= 0
    requires r !in out && r in size' && size'[r] == want && forall b :: b in out ==>
               b in size && b in size' && size'[b] == size[b]
    ensures var peak' := if peak < |out| + 1 then |out| + 1 else peak;
            Balanced(CountsAfter(nfree, level, want, maxsize), size', out + {r}, maxsize, CutsAfter(cuts, level, want),
                     peak', top)
  {
    hide Sum, Existing, CountsAfter, OutOf;
    var peak' := if peak < |out| + 1 then |out| + 1 else peak;
    var nfree', cuts', out' := CountsAfter(nfree, level, want, maxsize), CutsAfter(cuts, level, want), out + {r};
    var cut := want < maxsize && want <= level;
    assert cuts[..maxsize] == cuts && cuts'[..maxsize] == cuts';
    if cut { SumUpdate(cuts, want, maxsize); }
    ExistingAfter(nfree, size, out, maxsize, level, want, size', r, maxsize);
    forall z | 1 <= z < maxsize
      ensures Existing(nfree', size', out', maxsize, z) + Sum(cuts'[..z]) >= cuts'[z]
      ensures cuts'[z] <= peak' + Sum(cuts'[..z])
    {
      ExistingAfter(nfree, size, out, maxsize, level, want, size', r, z);
      if cut { SumUpdate(cuts, want, z); }
      if cut && z == want { AllOut(nfree, size, out, maxsize, z); }
    }
  }

  lemma AllOut(nfree: seq<int>, size: map<int, nat>, out: set<int>, maxsize: nat, z: nat)
    requires 1 <= z < maxsize < |nfree| && nfree[z - 1] <= 0
    ensures Existing(nfree, size, out, maxsize, z) <= |out|
  {
    OutOfBound(size, out, z);
  }

  lemma ExistingAfter(nfree: seq<int>, size: map<int, nat>, out: set<int>, maxsize: nat, level: nat, want: nat,
                      size': map<int, nat>, r: int, z: nat)
    requires 1 <= z <= maxsize < |nfree| && level <= maxsize && 1 <= want <= maxsize && want <= level + 1
    requires r !in out && r in size' && size'[r] == want && forall b :: b in out ==>
               b in size && b in size' && size'[b] == size[b]
    ensures |CountsAfter(nfree, level, want, maxsize)| == |nfree|
    ensures var cut := want < maxsize && want <= level;
            Existing(CountsAfter(nfree, level, want, maxsize), size', out + {r}, maxsize, z) >=
            Existing(nfree, size, out, maxsize, z) + (if cut && z == want then 1 else 0)
            - (if cut && z > want then 1 else 0)
  {
    hide OutOf;
    OutOfMore(size, out, size', r, want, z);
  }

  lemma BalancedPush(nfree: seq<int>, size: map<int, nat>, out: set<int>, maxsize: nat, cuts: seq<nat>, peak: nat,
                     top: int, b: int)
    requires Balanced(nfree, size, out, maxsize, cuts, peak, top) && b in out && b in size && 1 <= size[b] <= maxsize
    ensures Balanced(nfree[size[b] - 1 := nfree[size[b] - 1] + 1], size, out - {b}, maxsize, cuts, peak, top)
  {
    hide Sum;
    var nfree' := nfree[size[b] - 1 := nfree[size[b] - 1] + 1];
    forall z | 1 <= z <= maxsize
      ensures Existing(nfree', size, out - {b}, maxsize, z) == Existing(nfree, size, out, maxsize, z)
    {
      var o, o' := OutOf(size, out, z), OutOf(size, out - {b}, z);
      assert o' == if z == size[b] then o - {b} else o;
    }
  }

  lemma KeptSizes(a: Arena, a': Arena)
    requires ArenaOk(a) && Frame(a, a', {})
    ensures forall b :: b in a.out ==> b in a.size && b in a'.size && a'.size[b] == a.size[b]
  {
  }

  /** Nothing is cut yet. */
  lemma NothingCut(nfree: seq<int>, size: map<int, nat>, out: set<int>, maxsize: nat, cuts: seq<nat>, peak: nat,
                   top: int)
    requires 1 <= maxsize < |nfree| && cuts == seq(maxsize, _ => 0) && out == {} && top <= nfree[maxsize]
    requires forall v :: 0 <= v <= maxsize ==> nfree[v] >= 0
    ensures Balanced(nfree, size, out, maxsize, cuts, peak, top)
  {
    hide Sum;
  }

  lemma CountsPositive(f: Fb)
    requires Chains(f)
    ensures forall v :: 0 <= v < |f.lists| ==> f.nfree[v] >= 0
  {
  }

  class FreeBlock {
    const maxsize: nat
    const nfree: array<int>
    const free: array<int>
    const fblks: array<int>
    /**
     If not negative: no more than `cap` blocks will be handed out at a time, and `top` overflow blocks suffice for
     that.
     */
    ghost const cap: int
    ghost const top: int
    var arenaSz: int
    var avail: int
    var outstanding: int
    ghost var size: map<int, nat>
    ghost var out: set<int>
    ghost var lists: seq<seq<int>>
    ghost var cuts: seq<nat>
    ghost var peak: nat

    ghost predicate Separate() {
      nfree != free && nfree != fblks && free != fblks
    }

    ghost function View(): Fb
      reads this, nfree, free, fblks
    {
      Fb(fblks[..], nfree[..], free[..], avail, outstanding, size, out, lists)
    }

    ghost function Mem(): Arena
      reads this, fblks
    {
      Arena(fblks[..], size, out)
    }

    ghost predicate Valid()
      reads this, nfree, free, fblks
    {
      Separate() && FbOk(View(), maxsize, arenaSz) && Books()
    }

    ghost predicate Books()
      reads this, nfree
    {
      Balanced(nfree[..], size, out, maxsize, cuts, peak, top) && (0 <= cap ==> top >= cap * Pow2(maxsize - 1))
    }

    /** The full-sized blocks that are free. */
    ghost function FullSized(): int
      reads nfree
    {
      if 1 <= maxsize < nfree.Length then nfree[maxsize - 1] + nfree[maxsize] else 0
    }

    /**
     Requests that are sure to be met; each uses up at most one.  Without a cap these are as many as there are
     full-sized blocks, which are not put together again once they are cut; with one, as many as are left to the cap.
     */
    ghost function Room(): int
      reads this, nfree
    {
      if cap < 0 then FullSized() else if peak > cap then -1 else cap - |out|
    }

    /** A request for one pointer will not use up such a block. */
    ghost predicate Spare()
      reads nfree
    {
      cap < 0 && 2 <= maxsize < nfree.Length && nfree[0] > 0
    }

    /**
     Format an arena for `nalloc` products.  The number of levels, of overflow blocks and of words left over by
     rounding come from floating-point estimates and are parameters here.
     */
    constructor (nalloc: nat, levels: nat, overflow: int, slack: int, ghost limit: int)
      requires 2 <= nalloc && 1 <= levels < FB_MAX_LEVELS && 0 < overflow && 0 <= slack < levels
      requires 0 <= limit ==> overflow >= limit * Pow2(levels - 1)
      ensures Valid() && maxsize == levels && cap == limit && fresh(nfree) && fresh(free) && fresh(fblks)
      ensures out == {} && outstanding == 0
      ensures nfree[maxsize] == overflow && nfree[0] == 3 * nalloc / 4
      ensures forall v :: 0 <= v < levels - 1 ==> nfree[v + 1] == if nfree[v] >= 4 then nfree[v] / 4 else 1
      ensures limit < 0 ==> Room() > overflow && (2 <= levels ==> Spare())
      ensures 0 <= limit ==> Room() == limit
      ensures fblks.Length == arenaSz + slack
              && arenaSz == LevelWords(3 * nalloc / 4, 0, levels) + levels * overflow
    {
      hide FbOk, Balanced, Pow2, LevelWords;
      var numblks := 3 * nalloc / 4;
      maxsize := levels;
      nfree := new int[FB_MAX_LEVELS](_ => 0);
      free := new int[FB_MAX_LEVELS](_ => FBLK_NONE);
      fblks := new int[LevelWords(numblks, 0, levels) + levels * overflow + slack](_ => FBLK_NONE);
      avail := 0;
      outstanding := 0;
      size, out, lists := map[], {}, seq(levels + 1, _ => []);
      cap, top, cuts, peak := limit, overflow, seq(levels, _ => 0), 0;
      arenaSz := LevelWords(numblks, 0, levels) + levels * overflow;
      new;
      assert nfree[..] == seq(FB_MAX_LEVELS, _ => 0) && free[..] == seq(FB_MAX_LEVELS, _ => FBLK_NONE);
      Initialize(numblks, overflow);
    }

    /** Give each level its blocks, and the overflow level its own. */
    method Initialize(perLevel: int, overflow: int)
      requires Separate() && 1 <= maxsize < FB_MAX_LEVELS && 0 < perLevel && 0 < overflow
      requires View() == Blank(fblks[..], maxsize)
      requires LevelWords(perLevel, 0, maxsize) + maxsize * overflow == arenaSz <= fblks.Length
      requires top == overflow && cuts == seq(maxsize, _ => 0) && (0 <= cap ==> top >= cap * Pow2(maxsize - 1))
      modifies this`avail, this`size, this`lists, nfree, free, fblks
      ensures Valid()
      ensures nfree[maxsize] == overflow && FullSized() > overflow && nfree[0] == perLevel
      ensures forall v :: 0 <= v < maxsize - 1 ==> nfree[v + 1] == if nfree[v] >= 4 then nfree[v] / 4 else 1
    {
      hide Once, Total, Listed, Chains, ArenaOk, LevelWords, Frame, Balanced, Quarter, Graded;
      BlankOk(fblks[..], maxsize, arenaSz);
      var numblks := perLevel;
      var offset := 0;
      GradedStart(nfree[..], perLevel);
      for level := 0 to maxsize
        invariant Core(View(), maxsize, arenaSz) && Below(View(), offset)
        invariant 0 < numblks && offset + LevelWords(numblks, level, maxsize) + maxsize * overflow == arenaSz
        invariant forall v :: level <= v <= maxsize ==> lists[v] == []
        invariant Graded(nfree[..], level, perLevel, numblks)
      {
        LevelWordsStep(numblks, level, maxsize);
        GradedMore(nfree[..], level, perLevel, numblks);
        offset := InitLevel(offset, level, level + 1, numblks);
        numblks := Quarter(numblks);
      }
      LevelWordsDone(numblks, maxsize);
      GradedAll(nfree[..], maxsize, perLevel, numblks, overflow);
      offset := InitLevel(offset, maxsize, maxsize, overflow);
      CountsPositive(View());
      NothingCut(nfree[..], size, out, maxsize, cuts, peak, top);
    }

    method InitLevel(offset: int, level: int, blksize: int, numblks: int) returns (end: int)
      requires Separate() && Core(View(), maxsize, arenaSz) && Below(View(), offset)
      requires 0 <= level <= maxsize && blksize == BlockLen(level, maxsize) && 0 < numblks
      requires level < |lists| && lists[level] == [] && offset + blksize * numblks <= arenaSz
      modifies this`avail, this`size, this`lists, nfree, free, fblks
      ensures Core(View(), maxsize, arenaSz)
      ensures end == offset + blksize * numblks && Below(View(), end)
      ensures nfree[..] == old(nfree[..])[level := numblks]
      ensures |lists| == old(|lists|) && forall v :: 0 <= v < |lists| && v != level ==> lists[v] == old(lists)[v]
    {
      hide Once, Total, Listed, Chains, Chain, ArenaOk, Row;
      ghost var f := View();
      assert blksize * numblks >= blksize by { MulPositive(blksize, numblks); }
      free[level] := offset;
      ghost var l;
      end, l := LinkRow(offset, blksize, numblks);
      nfree[level] := numblks;
      avail := avail + numblks;
      ghost var w := fblks[..];
      RowStart(l, blksize, offset, end);
      FormatOk(f, w, maxsize, arenaSz, level, blksize, l, offset, end);
      size := size + (map b | b in l :: blksize);
      lists := lists[level := l];
      assert free[..] == f.free[level := offset] && nfree[..] == f.nfree[level := numblks];
      assert View() == Formatted(f, w, level, blksize, l);
    }

    /** Thread `numblks` blocks from `offset` on into a list, each linked to the next by its first word. */
    method LinkRow(offset: int, blksize: int, numblks: int) returns (end: int, ghost l: seq<int>)
      requires 0 <= offset && 0 < blksize && 0 < numblks && offset + blksize * numblks <= fblks.Length
      modifies fblks
      ensures end == offset + blksize * numblks && |l| == numblks && Row(l, blksize, offset, end)
      ensures Chain(fblks[..], offset, l)
      ensures forall x :: 0 <= x < offset ==> fblks[x] == old(fblks[x])
    {
      hide Row, Chain, Threaded;
      ghost var hi := offset + blksize * numblks;
      var off := offset;
      l := [off];
      MulPositive(blksize, numblks);
      ThreadStart(fblks[..], blksize, offset);
      for i := 0 to numblks - 1
        invariant |l| == i + 1 && offset <= off && Threaded(fblks[..], l, blksize, offset, off + blksize)
        invariant hi - off == blksize * (numblks - i) && off + blksize <= hi
        invariant forall x :: 0 <= x < offset ==> fblks[x] == old(fblks[x])
      {
        MulPositive(blksize, numblks - i);
        MulPositive(blksize, numblks - i - 1);
        ThreadGrows(fblks[..], l, blksize, offset, off);
        ghost var w := fblks[..];
        fblks[off] := off + blksize;
        assert fblks[..] == w[off := off + blksize];
        off := off + blksize;
        l := l + [off];
      }
      ThreadEnds(fblks[..], l, blksize, offset, off);
      ghost var w := fblks[..];
      fblks[off] := FBLK_NONE;
      assert fblks[..] == w[off := FBLK_NONE];
      end := off + blksize;
    }

    /** Store a pointer in a block that is handed out. */
    method Set(i: int, x: int, ghost b: int)
      requires Valid() && b in out && b in size && b <= i < b + size[b]
      modifies fblks
      ensures 0 <= i < fblks.Length && fblks[..] == old(fblks[..])[i := x]
      ensures Valid() && Frame(old(Mem()), Mem(), {b})
    {
      hide Once, Total, Listed, Chains, Frame;
      ghost var f := View();
      WriteOk(f, maxsize, arenaSz, b, i, x);
      fblks[i] := x;
      assert View() == f.(words := f.words[i := x]);
    }

    /** Push a block on the free list of its size. */
    method Push(sz: int, fblk: int)
      requires Separate() && Core(View(), maxsize, arenaSz)
      requires 0 < sz <= maxsize && fblk in out && fblk in size && size[fblk] == sz
      modifies this`avail, this`outstanding, this`out, this`lists, nfree, free, fblks
      ensures Core(View(), maxsize, arenaSz)
      ensures 0 <= fblk < |old(View()).words| && View() == Pushed(old(View()), sz - 1, fblk)
      ensures Frame(old(Mem()), Mem(), {fblk})
      ensures out == old(out) - {fblk} && size == old(size)
      ensures |out| == |old(out)| - 1
      ensures old(Room()) <= Room()
    {
      hide Once, Total, Listed, Chains, ArenaOk, Frame;
      ghost var f := View();
      var level := sz - 1;
      PushOk(f, maxsize, arenaSz, level, fblk);
      fblks[fblk] := free[level];
      free[level] := fblk;
      nfree[level] := nfree[level] + 1;
      avail := avail + 1;
      outstanding := outstanding - 1;
      out := out - {fblk};
      lists := lists[level := [fblk] + lists[level]];
      assert free[..] == f.free[level := fblk] && nfree[..] == f.nfree[level := f.nfree[level] + 1];
      assert View() == Pushed(f, level, fblk);
    }

    /** Take back a block of exactly the size it was handed out with. */
    method Release(sz: int, fblk: int)
      requires Valid() && 0 < sz <= maxsize && fblk in out && fblk in size && size[fblk] == sz
      modifies this`avail, this`outstanding, this`out, this`lists, nfree, free, fblks
      ensures Valid() && out == old(out) - {fblk} && Frame(old(Mem()), Mem(), {fblk})
      ensures old(Room()) <= Room()
    {
      hide Once, Total, Listed, Chains, ArenaOk, Frame, Balanced;
      BalancedPush(nfree[..], size, out, maxsize, cuts, peak, top, fblk);
      Push(sz, fblk);
    }

    /** Unlink the first free block of a level. */
    method Take(level: int) returns (fblk: int)
      requires Separate() && Core(View(), maxsize, arenaSz)
      requires 0 <= level <= maxsize && nfree[level] > 0
      modifies this`avail, this`outstanding, this`out, this`lists, nfree, free
      ensures Core(View(), maxsize, arenaSz)
      ensures var f := old(View());
              && level < |f.lists| && |f.lists[level]| > 0 && 0 <= fblk < |f.words| && fblk == f.lists[level][0]
              && View() == Popped(f, level)
              && fblk !in f.out && |out| == |f.out| + 1
              && fblk in size && size[fblk] == BlockLen(level, maxsize)
      ensures old(Room()) - 1 <= Room() && (level < maxsize - 1 ==> FullSized() == old(FullSized()))
    {
      hide Once, Total, Listed, Chains, ArenaOk, Frame, Chain, After;
      ghost var f := View();
      CountAt(f, level);
      PopOk(f, maxsize, arenaSz, level);
      fblk := free[level];
      free[level] := fblks[fblk];
      nfree[level] := nfree[level] - 1;
      avail := avail - 1;
      outstanding := outstanding + 1;
      out := out + {fblk};
      lists := lists[level := lists[level][1..]];
      assert free[..] == f.free[level := f.words[fblk]] && nfree[..] == f.nfree[level := f.nfree[level] - 1];
      assert View() == Popped(f, level);
    }

    /** A random node height: each further level with some chance, never above the highest. */
    method GetRandomLevel() returns (level: nat)
      requires 1 <= maxsize
      ensures level < maxsize
    {
      level := 0;
      while level < maxsize - 1
        invariant level < maxsize
      {
        var stop: bool :| true;
        if stop { break; }
        level := level + 1;
      }
    }

    /**
     A block with room for `level0 + 1` pointers: from the list of that size if it has one, else the front of
     the smallest larger block, whose rest goes back to a list.
     */
    method Get(level0: int) returns (r: int)
      requires Valid() && 0 <= level0 < maxsize
      modifies this`avail, this`outstanding, this`size, this`out, this`lists, this`cuts, this`peak, nfree, free, fblks
      ensures Valid()
      ensures r == FBLK_NONE <==> forall v :: level0 <= v <= maxsize ==> old(nfree[v]) <= 0
      ensures r == FBLK_NONE ==> View() == old(View())
      ensures r != FBLK_NONE ==>
                && r !in old(out) && out == old(out) + {r} && r in size && size[r] == level0 + 1
                && Frame(old(Mem()), Mem(), {})
      ensures old(Room()) > 0 ==> r != FBLK_NONE
      ensures old(Room()) - 1 <= Room() && (level0 == 0 && old(Spare()) ==> old(Room()) <= Room())
    {
      hide Once, Total, Listed, Chains, ArenaOk, Frame, Balanced;
      var want := level0 + 1;
      var level := level0;
      if Room() > 0 { RoomIsReal(); }
      SizeBounds(View(), maxsize, arenaSz);
      while level <= maxsize
        invariant level0 <= level <= maxsize + 1
        invariant View() == old(View()) && cuts == old(cuts) && peak == old(peak)
        invariant forall v :: level0 <= v < level ==> nfree[v] <= 0
      {
        if nfree[level] > 0 {
          r := TakeCut(level, want);
          Account(level, want, r, old(View()));
          return;
        }
        level := level + 1;
      }
      return FBLK_NONE;
    }

    /** Take a block from `level` and keep its first `want` words. */
    method TakeCut(level: int, want: int) returns (r: int)
      requires Separate() && FbOk(View(), maxsize, arenaSz) && 0 < want <= maxsize && want <= level + 1
               && level <= maxsize
      requires nfree[level] > 0
      modifies this`avail, this`outstanding, this`size, this`out, this`lists, nfree, free, fblks
      ensures FbOk(View(), maxsize, arenaSz) && maxsize < nfree.Length
      ensures r !in old(out) && out == old(out) + {r} && r in size && size[r] == want && Frame(old(Mem()), Mem(), {})
      ensures r != FBLK_NONE && nfree[..] == CountsAfter(old(nfree[..]), level, want, maxsize)
    {
      hide Once, Total, Listed, Chains, ArenaOk, Frame;
      r := Take(level);
      ghost var taken := Mem();
      FrameGrows(old(Mem()), taken, {});
      Trim(level, want, r);
      FrameTrans(old(Mem()), taken, Mem(), {}, {r});
      assert 0 <= r;
    }

    /** Keep the books of a request that was met. */
    ghost method Account(level: int, want: int, r: int, f: Fb)
      requires FbOk(f, maxsize, arenaSz) && FbOk(View(), maxsize, arenaSz) && Separate()
      requires Balanced(f.nfree, f.size, f.out, maxsize, cuts, peak, top)
               && (0 <= cap ==> top >= cap * Pow2(maxsize - 1))
      requires 0 < want <= maxsize && want <= level + 1 && level <= maxsize < |f.nfree|
      requires forall v :: want - 1 <= v < level ==> f.nfree[v] <= 0
      requires r !in f.out && out == f.out + {r} && r in size && size[r] == want && Frame(f.AsArena(), Mem(), {})
      requires nfree[..] == CountsAfter(f.nfree, level, want, maxsize)
      modifies this`cuts, this`peak
      ensures Valid() && peak == if old(peak) < |out| then |out| else old(peak)
    {
      hide FbOk, Balanced, Frame, ArenaOk, Pow2, CountsAfter, CutsAfter;
      SizeBounds(f, maxsize, arenaSz);
      KeptSizes(f.AsArena(), Mem());
      BalancedGet(f.nfree, f.size, f.out, maxsize, cuts, peak, top, level, want, size, r);
      cuts := CutsAfter(cuts, level, want);
      if peak < |out| { peak := |out|; }
    }

    lemma RoomIsReal()
      requires Valid() && Room() > 0
      ensures FullSized() > 0
    {
      hide FbOk, Sum, Pow2, OutOf;
      if 0 <= cap { NeverEmpty(nfree[..], size, out, maxsize, cuts, peak, top, cap); }
    }

    /** Keep the first `want` words of a block just taken from `level`. */
    method Trim(level: int, want: int, fblk: int)
      requires Separate() && Core(View(), maxsize, arenaSz) && outstanding == |out|
      requires 0 < want <= maxsize && want <= level + 1 && level <= maxsize
      requires fblk in out && fblk in size && size[fblk] == BlockLen(level, maxsize)
      modifies this`avail, this`outstanding, this`size, this`out, this`lists, nfree, free, fblks
      ensures FbOk(View(), maxsize, arenaSz)
      ensures out == old(out) && fblk in size && size[fblk] == want
      ensures Frame(old(Mem()), Mem(), {fblk})
      ensures nfree[..] == if level < maxsize && want < level + 1
                           then old(nfree[..])[level - want := old(nfree[level - want]) + 1] else old(nfree[..])
    {
      hide Once, Total, Listed, Chains, ArenaOk, Frame;
      var gotSize := level + 1;
      if level < maxsize && want < gotSize {
        CutOff(gotSize, want, fblk);
      } else {
        ghost var f := View();
        ShrinkOk(f, maxsize, arenaSz, fblk, want);
        size := size[fblk := want];
        FrameGrows(f.AsArena(), Mem(), {fblk});
      }
    }

    ghost method CutInTwo(fblk: int, want: int)
      requires Separate() && fblk in size && fblk in out && 0 < want < size[fblk]
      modifies this`size, this`out
      ensures View() == Cut(old(View()), fblk, want)
      ensures size == old(size)[fblk := want][fblk + want := old(size)[fblk] - want] && out == old(out) + {fblk + want}
    {
      size := size[fblk := want][fblk + want := size[fblk] - want];
      out := out + {fblk + want};
    }

    /** Give the end of a block of `gotSize` words back as a block of its own. */
    method CutOff(gotSize: int, want: int, fblk: int)
      requires Separate() && Core(View(), maxsize, arenaSz) && outstanding == |out| && 0 < want < gotSize <= maxsize
      requires fblk in out && fblk in size && size[fblk] == gotSize
      modifies this`avail, this`outstanding, this`size, this`out, this`lists, nfree, free, fblks
      ensures FbOk(View(), maxsize, arenaSz) && maxsize < nfree.Length
      ensures out == old(out) && fblk in size && size[fblk] == want && Frame(old(Mem()), Mem(), {fblk})
      ensures nfree[..] == old(nfree[..])[gotSize - want - 1 := old(nfree[gotSize - want - 1]) + 1]
    {
      hide Once, Total, Listed, Chains, ArenaOk, Frame, Cut;
      ghost var f := View();
      CutOk(f, maxsize, arenaSz, fblk, want);
      var fblk2 := fblk + want;
      CutInTwo(fblk, want);
      ghost var c := View();
      FrameGrows(f.AsArena(), c.AsArena(), {fblk});
      Push(gotSize - want, fblk2);
      CoreCount(View(), maxsize, arenaSz, outstanding + 1);
      outstanding := outstanding + 1;
      FrameTrans(f.AsArena(), c.AsArena(), Mem(), {fblk}, {fblk2});
    }
  }
}
