/**
 The external data representation of product headers (network/sunrpc/SunRpcXdr.cpp,
 SunRpcSerializer.cpp): sections 4.1, 4.2, 4.9 and 4.11 of RFC 4506 over a memory
 buffer.
 */
module Xdr {
  import opened SignatureIndexes

  const TWO32 := 0x1_0000_0000
  const ORIGIN_MAX := 64
  const IDENT_MAX := 255
  const XDR_UNIT := 4

  type Word = w: int | 0 <= w < 0x1_0000_0000

  datatype Option<T> = None | Some(value: T)

  /** Strings are the bytes of the program's strings; they may hold NUL bytes. */
  datatype ProdInfo = ProdInfo(sec: int, usec: int, signature: Signature, origin: seq<Byte>,
                               feedtype: Word, seqno: Word, ident: seq<Byte>, sz: Word)

  // ---------------------------------------------------------------------
  // Words
  // ---------------------------------------------------------------------

  /** Four bytes, the most significant first. */
  function Be(w: Word): (b: seq<Byte>)
    ensures |b| == 4
  {
    var h := w / 0x100;
    var g := h / 0x100;
    [g / 0x100, g % 0x100, h % 0x100, w % 0x100]
  }

  function Un(b: seq<Byte>): Word
    requires |b| == 4
  {
    (((b[0] as int) * 0x100 + b[1]) * 0x100 + b[2]) * 0x100 + b[3]
  }

  /** The word `w` stands at position `at`: sections 4.1 and 4.2 of RFC 4506, byte by byte. */
  ghost predicate WordStands(b: seq<Byte>, at: nat, w: int) {
    at + 4 <= |b|
    && w == (b[at] as int) * 0x1000000 + (b[at + 1] as int) * 0x10000 + (b[at + 2] as int) * 0x100 + b[at + 3]
  }

  lemma BeStands(w: Word)
    ensures WordStands(Be(w), 0, w)
  {
  }

  lemma UnStands(b: seq<Byte>)
    requires |b| == 4
    ensures WordStands(b, 0, Un(b))
  {
  }

  lemma UnBe(w: Word)
    ensures Un(Be(w)) == w
  {
    BeStands(w);
    UnStands(Be(w));
  }

  /** A long travels as its low 32 bits and comes back with the sign extended. */
  function Low32(x: int): Word {
    x % TWO32
  }

  function Signed32(w: Word): int {
    if w < 0x8000_0000 then w else w - TWO32
  }

  lemma LongKept(x: int)
    ensures Signed32(Low32(x)) == x <==> -0x8000_0000 <= x < 0x8000_0000
  {
  }

  // ---------------------------------------------------------------------
  // Strings
  // ---------------------------------------------------------------------

  /** `r` is what stands before the first NUL byte of `s`. */
  ghost predicate UpToNul(s: seq<Byte>, r: seq<Byte>) {
    r <= s && 0 !in r && (|r| == |s| || s[|r|] == 0)
  }

  /** A C string ends at its first NUL byte. */
  function UntilNul(s: seq<Byte>): (r: seq<Byte>)
    ensures UpToNul(s, r)
  {
    if s == [] || s[0] == 0 then [] else [s[0]] + UntilNul(s[1..])
  }

  /** What a copy into a zeroed buffer of `max + 1` characters leaves of a string. */
  function Clip(s: seq<Byte>, max: nat): (r: seq<Byte>)
    ensures r <= s && |r| <= max && 0 !in r && (|r| == |s| || |r| == max || s[|r|] == 0)
  {
    UntilNul(if |s| <= max then s else s[..max])
  }

  lemma {:induction false} UntilNulKept(s: seq<Byte>)
    ensures UntilNul(s) == s <==> 0 !in s
  {
    if s != [] && s[0] != 0 {
      UntilNulKept(s[1..]);
      assert s == [s[0]] + s[1..];
    }
  }

  lemma ClipKept(s: seq<Byte>, max: nat)
    ensures Clip(s, max) == s <==> |s| <= max && 0 !in s
  {
    UntilNulKept(s);
  }

  function RoundUp4(n: nat): (r: nat)
    ensures n <= r < n + 4 && r % 4 == 0
  {
    (n + XDR_UNIT - 1) / XDR_UNIT * XDR_UNIT
  }

  function Zeros(n: nat): (z: seq<Byte>)
    ensures |z| == n
  {
    seq(n, _ => 0)
  }

  /** A length, the bytes, and zeros up to a multiple of four. */
  function EncodeString(s: seq<Byte>): (b: seq<Byte>)
    requires |s| < TWO32
    ensures |b| == XDR_UNIT + RoundUp4(|s|)
  {
    Be(|s|) + s + Zeros(RoundUp4(|s|) - |s|)
  }

  // ---------------------------------------------------------------------
  // The header
  // ---------------------------------------------------------------------

  function EncodeInfo(i: ProdInfo): seq<Byte> {
    Be(Low32(i.sec)) + Be(Low32(i.usec)) + i.signature + EncodeString(Clip(i.origin, ORIGIN_MAX))
    + Be(i.feedtype) + Be(i.seqno) + EncodeString(Clip(i.ident, IDENT_MAX)) + Be(i.sz)
  }

  /** The size that is computed without encoding. */
  function GetEncodedInfoSize(i: ProdInfo): nat {
    8 + 16 + (XDR_UNIT + RoundUp4(|i.origin|)) + XDR_UNIT + XDR_UNIT + (XDR_UNIT + RoundUp4(|i.ident|)) + XDR_UNIT
  }

  /** The computed size is right if and only if clipping the strings does not make them a unit shorter. */
  lemma SizeRight(i: ProdInfo)
    ensures |EncodeInfo(i)| <= GetEncodedInfoSize(i)
    ensures GetEncodedInfoSize(i) - |EncodeInfo(i)| ==
            RoundUp4(|i.origin|) - RoundUp4(|Clip(i.origin, ORIGIN_MAX)|)
            + RoundUp4(|i.ident|) - RoundUp4(|Clip(i.ident, IDENT_MAX)|)
    ensures |EncodeInfo(i)| == GetEncodedInfoSize(i) <==>
            && RoundUp4(|Clip(i.origin, ORIGIN_MAX)|) == RoundUp4(|i.origin|)
            && RoundUp4(|Clip(i.ident, IDENT_MAX)|) == RoundUp4(|i.ident|)
    ensures Portable(i) ==> |EncodeInfo(i)| == GetEncodedInfoSize(i)
  {
    hide Be, EncodeString, RoundUp4, Clip;
    ClipKept(i.origin, ORIGIN_MAX);
    ClipKept(i.ident, IDENT_MAX);
    RoundsUp(|Clip(i.origin, ORIGIN_MAX)|, |i.origin|);
    RoundsUp(|Clip(i.ident, IDENT_MAX)|, |i.ident|);
  }

  lemma RoundsUp(m: nat, n: nat)
    requires m <= n
    ensures RoundUp4(m) <= RoundUp4(n)
  {
  }

  /** What the wire can carry: 32-bit times, and NUL-free strings of at most 64 and 255 bytes. */
  predicate Portable(i: ProdInfo) {
    && -0x8000_0000 <= i.sec < 0x8000_0000 && -0x8000_0000 <= i.usec < 0x8000_0000
    && |i.origin| <= ORIGIN_MAX && 0 !in i.origin && |i.ident| <= IDENT_MAX && 0 !in i.ident
  }

  /** What is left of a header after a journey. */
  function Carried(i: ProdInfo): ProdInfo {
    i.(sec := Signed32(Low32(i.sec)), usec := Signed32(Low32(i.usec)), origin := Clip(i.origin, ORIGIN_MAX),
       ident := Clip(i.ident, IDENT_MAX))
  }

  lemma CarriedWhole(i: ProdInfo)
    ensures Carried(i) == i <==> Portable(i)
  {
    LongKept(i.sec);
    LongKept(i.usec);
    ClipKept(i.origin, ORIGIN_MAX);
    ClipKept(i.ident, IDENT_MAX);
  }

  // ---------------------------------------------------------------------
  // Decoding, from a position in a buffer
  // ---------------------------------------------------------------------

  function GetWord(b: seq<Byte>, at: nat): Option<Word> {
    if at + 4 <= |b| then Some(Un(b[at..at + 4])) else None
  }

  function GetOpaque(b: seq<Byte>, at: nat, n: nat): Option<seq<Byte>> {
    if at + n <= |b| then Some(b[at..at + n]) else None
  }

  /** A string and the position behind it. */
  function GetString(b: seq<Byte>, at: nat, max: nat): Option<(seq<Byte>, nat)> {
    var len := GetWord(b, at);
    if len.None? || len.value > max then None
    else
      var s := GetOpaque(b, at + 4, len.value);
      if s.None? || GetOpaque(b, at + 4 + len.value, RoundUp4(len.value) - len.value).None? then None
      else Some((UntilNul(s.value), at + 4 + RoundUp4(len.value)))
  }

  function DecodeInfo(b: seq<Byte>): Option<(ProdInfo, nat)> {
    var sec, usec, sig := GetWord(b, 0), GetWord(b, 4), GetOpaque(b, 8, 16);
    if sec.None? || usec.None? || sig.None? then None
    else
      var origin := GetString(b, 24, ORIGIN_MAX);
      if origin.None? then None
      else
        var p := origin.value.1;
        var feedtype, seqno, ident := GetWord(b, p), GetWord(b, p + 4), GetString(b, p + 8, IDENT_MAX);
        if feedtype.None? || seqno.None? || ident.None? then None
        else
          var q := ident.value.1;
          var sz := GetWord(b, q);
          if sz.None? then None
          else Some((ProdInfo(Signed32(sec.value), Signed32(usec.value), sig.value, origin.value.0,
                              feedtype.value, seqno.value, ident.value.0, sz.value), q + 4))
  }

  /** `part` stands at position `at`. */
  ghost predicate Holds(b: seq<Byte>, at: nat, part: seq<Byte>) {
    at + |part| <= |b| && b[at..at + |part|] == part
  }

  lemma HoldsSplit(b: seq<Byte>, at: nat, s: seq<Byte>, t: seq<Byte>)
    requires Holds(b, at, s + t)
    ensures Holds(b, at, s) && Holds(b, at + |s|, t)
  {
    assert b[at..at + |s|] == (s + t)[..|s|];
    assert b[at + |s|..at + |s| + |t|] == (s + t)[|s|..];
  }

  lemma WordAt(b: seq<Byte>, at: nat, w: Word)
    requires Holds(b, at, Be(w))
    ensures GetWord(b, at) == Some(w)
  {
    UnBe(w);
  }

  lemma StringAt(b: seq<Byte>, at: nat, s: seq<Byte>, max: nat)
    requires |s| <= max < TWO32 && 0 !in s && Holds(b, at, EncodeString(s))
    ensures GetString(b, at, max) == Some((s, at + |EncodeString(s)|))
  {
    var pad := Zeros(RoundUp4(|s|) - |s|);
    HoldsSplit(b, at, Be(|s|) + s, pad);
    HoldsSplit(b, at, Be(|s|), s);
    WordAt(b, at, |s|);
    UntilNulKept(s);
  }

  /** The parts of an encoded header, each in its place. */
  lemma InfoHeld(i: ProdInfo, rest: seq<Byte>)
    ensures var b, o, d := EncodeInfo(i) + rest, Clip(i.origin, ORIGIN_MAX), Clip(i.ident, IDENT_MAX);
            var p := 28 + RoundUp4(|o|);
            var q := p + 12 + RoundUp4(|d|);
            && |EncodeInfo(i)| == q + 4 <= |b| && Holds(b, 0, Be(Low32(i.sec))) && Holds(b, 4, Be(Low32(i.usec)))
            && b[8..24] == i.signature && Holds(b, 24, EncodeString(o)) && Holds(b, p, Be(i.feedtype))
            && Holds(b, p + 4, Be(i.seqno)) && Holds(b, p + 8, EncodeString(d)) && Holds(b, q, Be(i.sz))
  {
    hide Be, EncodeString, Clip;
    var b := EncodeInfo(i) + rest;
    var o, d := EncodeString(Clip(i.origin, ORIGIN_MAX)), EncodeString(Clip(i.ident, IDENT_MAX));
    var h1 := Be(Low32(i.sec)) + Be(Low32(i.usec)) + i.signature;
    var h2 := h1 + o;
    var h3 := h2 + Be(i.feedtype) + Be(i.seqno);
    var h4 := h3 + d;
    assert b[0..|EncodeInfo(i)|] == EncodeInfo(i);
    assert Holds(b, 0, EncodeInfo(i));
    HoldsSplit(b, 0, h4, Be(i.sz));
    HoldsSplit(b, 0, h3, d);
    HoldsSplit(b, 0, h2 + Be(i.feedtype), Be(i.seqno));
    HoldsSplit(b, 0, h2, Be(i.feedtype));
    HoldsSplit(b, 0, h1, o);
    HoldsSplit(b, 0, Be(Low32(i.sec)) + Be(Low32(i.usec)), i.signature);
    HoldsSplit(b, 0, Be(Low32(i.sec)), Be(Low32(i.usec)));
  }

  /**
   Decoding what was encoded, whatever follows it, gives back what the wire carries, and the position right behind
   the header.
   */
  lemma RoundTrip(i: ProdInfo, rest: seq<Byte>)
    ensures DecodeInfo(EncodeInfo(i) + rest) == Some((Carried(i), |EncodeInfo(i)|))
  {
    hide Be, Un, EncodeString, EncodeInfo, GetWord, GetString, Clip, Holds, RoundUp4;
    var b := EncodeInfo(i) + rest;
    var o, d := Clip(i.origin, ORIGIN_MAX), Clip(i.ident, IDENT_MAX);
    InfoHeld(i, rest);
    WordAt(b, 0, Low32(i.sec));
    WordAt(b, 4, Low32(i.usec));
    StringAt(b, 24, o, ORIGIN_MAX);
    var p := 28 + RoundUp4(|o|);
    WordAt(b, p, i.feedtype);
    WordAt(b, p + 4, i.seqno);
    StringAt(b, p + 8, d, IDENT_MAX);
    WordAt(b, p + 12 + RoundUp4(|d|), i.sz);
  }

  /** A header survives the journey if and only if it is portable. */
  lemma RoundTripExact(i: ProdInfo, rest: seq<Byte>)
    ensures DecodeInfo(EncodeInfo(i) + rest) == Some((i, |EncodeInfo(i)|)) <==> Portable(i)
  {
    RoundTrip(i, rest);
    CarriedWhole(i);
  }

  // ---------------------------------------------------------------------
  // The bytes themselves
  // ---------------------------------------------------------------------

  /** The low 32 bits of `x`, in two's complement, stand at position `at`. */
  ghost predicate LongStands(b: seq<Byte>, at: nat, x: int) {
    exists w: Word :: WordStands(b, at, w) && (w - x) % TWO32 == 0
  }

  /** At position `at` stand the length of `s`, its bytes, and zeros up to a multiple of four. */
  ghost predicate TextStands(b: seq<Byte>, at: nat, s: seq<Byte>) {
    && WordStands(b, at, |s|) && at + 4 + RoundUp4(|s|) <= |b| && b[at + 4..at + 4 + |s|] == s
    && forall k :: at + 4 + |s| <= k < at + 4 + RoundUp4(|s|) ==> b[k] == 0
  }

  /** What stands where in an encoded header. */
  ghost predicate HeaderStands(b: seq<Byte>, i: ProdInfo, n: nat) {
    var o, d := Clip(i.origin, ORIGIN_MAX), Clip(i.ident, IDENT_MAX);
    var p := 28 + RoundUp4(|o|);
    var q := p + 12 + RoundUp4(|d|);
    && n == q + 4 <= |b| && LongStands(b, 0, i.sec) && LongStands(b, 4, i.usec) && b[8..24] == i.signature
    && TextStands(b, 24, o) && WordStands(b, p, i.feedtype) && WordStands(b, p + 4, i.seqno)
    && TextStands(b, p + 8, d) && WordStands(b, q, i.sz)
  }

  lemma LongIsHeld(b: seq<Byte>, at: nat, x: int)
    requires Holds(b, at, Be(Low32(x)))
    ensures LongStands(b, at, x)
  {
    WordIsHeld(b, at, Low32(x));
  }

  lemma WordIsHeld(b: seq<Byte>, at: nat, w: Word)
    requires Holds(b, at, Be(w))
    ensures WordStands(b, at, w)
  {
    hide Be;
    var c := b[at..at + 4];
    assert c == Be(w) && c[0] == b[at] && c[1] == b[at + 1] && c[2] == b[at + 2] && c[3] == b[at + 3];
    BeStands(w);
  }

  lemma TextIsHeld(b: seq<Byte>, at: nat, s: seq<Byte>)
    requires |s| < TWO32 && Holds(b, at, EncodeString(s))
    ensures TextStands(b, at, s)
  {
    hide Be;
    var pad := Zeros(RoundUp4(|s|) - |s|);
    HoldsSplit(b, at, Be(|s|) + s, pad);
    HoldsSplit(b, at, Be(|s|), s);
    WordIsHeld(b, at, |s|);
    var e := at + 4 + |s|;
    forall k | e <= k < at + 4 + RoundUp4(|s|) ensures b[k] == 0 {
      assert b[e..e + |pad|][k - e] == pad[k - e];
    }
  }

  /** Each field of a header stands at its place, and whatever follows is not looked at. */
  lemma EncodedBytes(i: ProdInfo, rest: seq<Byte>)
    ensures HeaderStands(EncodeInfo(i) + rest, i, |EncodeInfo(i)|)
  {
    hide Be, EncodeString, Clip, LongStands, TextStands, WordStands, Holds;
    var b := EncodeInfo(i) + rest;
    var o, d := Clip(i.origin, ORIGIN_MAX), Clip(i.ident, IDENT_MAX);
    InfoHeld(i, rest);
    LongIsHeld(b, 0, i.sec);
    LongIsHeld(b, 4, i.usec);
    TextIsHeld(b, 24, o);
    var p := 28 + RoundUp4(|o|);
    WordIsHeld(b, p, i.feedtype);
    WordIsHeld(b, p + 4, i.seqno);
    TextIsHeld(b, p + 8, d);
    WordIsHeld(b, p + 12 + RoundUp4(|d|), i.sz);
  }

  /** What stands in a received header, of whose strings `lo` and `ld` bytes were sent. */
  ghost predicate HeaderRead(b: seq<Byte>, i: ProdInfo, n: nat, lo: nat, ld: nat) {
    var p := 28 + RoundUp4(lo);
    var q := p + 12 + RoundUp4(ld);
    && lo <= ORIGIN_MAX && ld <= IDENT_MAX && n == q + 4 <= |b|
    && ShortRead(b, 0, i.sec) && ShortRead(b, 4, i.usec) && b[8..24] == i.signature
    && WordStands(b, 24, lo) && UpToNul(b[28..28 + lo], i.origin)
    && WordStands(b, p, i.feedtype) && WordStands(b, p + 4, i.seqno)
    && WordStands(b, p + 8, ld) && UpToNul(b[p + 12..p + 12 + ld], i.ident) && WordStands(b, q, i.sz)
  }

  /** The 32-bit number `x`, in two's complement, stands at position `at`. */
  ghost predicate ShortRead(b: seq<Byte>, at: nat, x: int) {
    -0x8000_0000 <= x < 0x8000_0000 && WordStands(b, at, if x < 0 then x + TWO32 else x)
  }

  lemma WordRead(b: seq<Byte>, at: nat, w: Word)
    ensures GetWord(b, at) == Some(w) <==> WordStands(b, at, w)
  {
    if at + 4 <= |b| {
      var c := b[at..at + 4];
      assert c[0] == b[at] && c[1] == b[at + 1] && c[2] == b[at + 2] && c[3] == b[at + 3];
    }
  }

  lemma OneUpToNul(s: seq<Byte>, r: seq<Byte>)
    ensures UpToNul(s, r) <==> r == UntilNul(s)
  {
    hide UntilNul;
    var u := UntilNul(s);
    if UpToNul(s, r) {
      assert forall k :: 0 <= k < |u| ==> s[k] == u[k] != 0;
      assert forall k :: 0 <= k < |r| ==> s[k] == r[k] != 0;
      assert r == s[..|r|] && u == s[..|u|];
    }
  }

  /** The `n` bytes of a string were sent at position `at`, and `r` is read of them. */
  ghost predicate StringStands(b: seq<Byte>, at: nat, max: nat, n: nat, r: seq<Byte>) {
    n <= max && WordStands(b, at, n) && at + 4 + RoundUp4(n) <= |b| && UpToNul(b[at + 4..at + 4 + n], r)
  }

  lemma StringRead(b: seq<Byte>, at: nat, max: nat, n: nat, r: seq<Byte>)
    requires max < TWO32 && StringStands(b, at, max, n, r)
    ensures GetString(b, at, max) == Some((r, at + 4 + RoundUp4(n)))
  {
    hide Un, UntilNul, RoundUp4;
    WordRead(b, at, n);
    OneUpToNul(b[at + 4..at + 4 + n], r);
  }

  lemma StringWasThere(b: seq<Byte>, at: nat, max: nat) returns (n: nat)
    requires GetString(b, at, max).Some?
    ensures StringStands(b, at, max, n, GetString(b, at, max).value.0)
            && GetString(b, at, max).value.1 == at + 4 + RoundUp4(n)
  {
    hide Un, UntilNul, RoundUp4;
    n := GetWord(b, at).value;
    WordRead(b, at, n);
    OneUpToNul(b[at + 4..at + 4 + n], UntilNul(b[at + 4..at + 4 + n]));
  }

  lemma LongRead(b: seq<Byte>, at: nat, x: int)
    ensures GetWord(b, at).Some? && Signed32(GetWord(b, at).value) == x <==> ShortRead(b, at, x)
  {
    hide Un;
    if GetWord(b, at).Some? { WordRead(b, at, GetWord(b, at).value); }
    if ShortRead(b, at, x) { WordRead(b, at, if x < 0 then x + TWO32 else x); }
  }

  /** Decoding gives a header if and only if its fields stand, byte by byte, in their places. */
  lemma DecodedBytes(b: seq<Byte>, i: ProdInfo, n: nat)
    ensures DecodeInfo(b) == Some((i, n)) <==> exists lo: nat, ld: nat :: HeaderRead(b, i, n, lo, ld)
  {
    hide HeaderRead, DecodeInfo;
    if DecodeInfo(b) == Some((i, n)) { var lo, ld := WasThere(b, i, n); }
    if exists lo: nat, ld: nat :: HeaderRead(b, i, n, lo, ld) {
      var lo: nat, ld: nat :| HeaderRead(b, i, n, lo, ld);
      ReadsIt(b, i, n, lo, ld);
    }
  }

  lemma WasThere(b: seq<Byte>, i: ProdInfo, n: nat) returns (lo: nat, ld: nat)
    requires DecodeInfo(b) == Some((i, n))
    ensures HeaderRead(b, i, n, lo, ld)
  {
    hide GetWord, GetString, Signed32, ShortRead, WordStands, UpToNul, RoundUp4;
    LongRead(b, 0, i.sec);
    LongRead(b, 4, i.usec);
    lo := StringWasThere(b, 24, ORIGIN_MAX);
    var p := 28 + RoundUp4(lo);
    WordRead(b, p, i.feedtype);
    WordRead(b, p + 4, i.seqno);
    ld := StringWasThere(b, p + 8, IDENT_MAX);
    WordRead(b, p + 12 + RoundUp4(ld), i.sz);
    WordFits(b, p + 12 + RoundUp4(ld), i.sz);
  }

  lemma WordFits(b: seq<Byte>, at: nat, w: int)
    requires WordStands(b, at, w)
    ensures at + 4 <= |b|
  {
  }

  lemma ReadsIt(b: seq<Byte>, i: ProdInfo, n: nat, lo: nat, ld: nat)
    requires HeaderRead(b, i, n, lo, ld)
    ensures DecodeInfo(b) == Some((i, n))
  {
    hide GetWord, GetString, Signed32, ShortRead, WordStands, UpToNul, RoundUp4;
    LongRead(b, 0, i.sec);
    LongRead(b, 4, i.usec);
    StringRead(b, 24, ORIGIN_MAX, lo, i.origin);
    var p := 28 + RoundUp4(lo);
    WordRead(b, p, i.feedtype);
    WordRead(b, p + 4, i.seqno);
    StringRead(b, p + 8, IDENT_MAX, ld, i.ident);
    WordRead(b, p + 12 + RoundUp4(ld), i.sz);
  }

  /** A whole header, as it stands in a buffer. */
  lemma HeaderExample()
    ensures EncodeInfo(ProdInfo(0x65432107, -2, [1, 2, 3, 4, 5, 6, 7, 8, 9, 10, 11, 12, 13, 14, 15, 16], [97, 98, 99],
                                0x8000, 258, [88, 89, 90, 65, 66], 1)) ==
            [0x65, 0x43, 0x21, 0x07] + [0xff, 0xff, 0xff, 0xfe]
            + [1, 2, 3, 4, 5, 6, 7, 8, 9, 10, 11, 12, 13, 14, 15, 16]
            + [0, 0, 0, 3, 97, 98, 99, 0]
            + [0, 0, 0x80, 0] + [0, 0, 1, 2]
            + [0, 0, 0, 5, 88, 89, 90, 65, 66, 0, 0, 0]
            + [0, 0, 0, 1]
  {
    hide Clip, Be, EncodeString;
    ClipKept([97, 98, 99], ORIGIN_MAX);
    ClipKept([88, 89, 90, 65, 66], IDENT_MAX);
    ExampleWords();
    ExampleTexts();
  }

  lemma ExampleWords()
    ensures Be(Low32(0x65432107)) == [0x65, 0x43, 0x21, 0x07] && Be(Low32(-2)) == [0xff, 0xff, 0xff, 0xfe]
    ensures Be(0x8000) == [0, 0, 0x80, 0] && Be(258) == [0, 0, 1, 2] && Be(1) == [0, 0, 0, 1]
  {
  }

  lemma ExampleTexts()
    ensures EncodeString([97, 98, 99]) == [0, 0, 0, 3, 97, 98, 99, 0]
    ensures EncodeString([88, 89, 90, 65, 66]) == [0, 0, 0, 5, 88, 89, 90, 65, 66, 0, 0, 0]
  {
  }

  /** Overwriting bytes 8 to 24 of an encoded header is the same as encoding it with the new signature. */
  lemma SignatureInPlace(i: ProdInfo, sig: Signature, rest: seq<Byte>)
    ensures var b := EncodeInfo(i) + rest; b[..8] + sig + b[24..] == EncodeInfo(i.(signature := sig)) + rest
  {
    hide Be, EncodeString, Clip;
    var t := Be(Low32(i.sec)) + Be(Low32(i.usec));
    var tail := EncodeString(Clip(i.origin, ORIGIN_MAX)) + Be(i.feedtype) + Be(i.seqno) + EncodeString(Clip(i.ident,
        IDENT_MAX)) + Be(i.sz);
    assert EncodeInfo(i) == t + i.signature + tail;
    assert EncodeInfo(i.(signature := sig)) == t + sig + tail;
    Replaced(t, i.signature, sig, tail, rest);
  }

  lemma Replaced(t: seq<Byte>, old1: seq<Byte>, new1: seq<Byte>, tail: seq<Byte>, rest: seq<Byte>)
    requires |t| == 8 && |old1| == 16
    ensures var b := t + old1 + tail + rest; b[..8] + new1 + b[24..] == t + new1 + tail + rest
  {
    var b := t + old1 + tail + rest;
    assert b[..8] == t && b[24..] == tail + rest;
  }

  // ---------------------------------------------------------------------
  // The stream over a memory buffer
  // ---------------------------------------------------------------------

  /** `part` was written at position `at`, and nothing else. */
  ghost predicate Wrote(b: seq<Byte>, at: nat, part: seq<Byte>, b': seq<Byte>) {
    at + |part| <= |b| && b' == b[..at] + part + b[at + |part|..]
  }

  lemma WroteOne(a: seq<Byte>, at: nat, s: seq<Byte>, i: nat, b: seq<Byte>)
    requires i < |s| && Wrote(a, at, s[..i], b) && at + |s| <= |a|
    ensures at + i < |b| == |a| && Wrote(a, at, s[..i + 1], b[at + i := s[i]])
  {
    assert s[..i + 1] == s[..i] + [s[i]];
  }

  lemma WroteMore(a: seq<Byte>, at: nat, s: seq<Byte>, b: seq<Byte>, t: seq<Byte>, c: seq<Byte>)
    requires Wrote(a, at, s, b) && Wrote(b, at + |s|, t, c)
    ensures Wrote(a, at, s + t, c)
  {
    assert b[..at + |s|] == a[..at] + s;
    assert b[at + |s| + |t|..] == a[at + |s + t|..];
  }

  class XdrMem {
    const buf: array<Byte>
    const size: nat
    var pos: nat

    constructor (buffer: array<Byte>, n: nat)
      requires n <= buffer.Length
      ensures buf == buffer && size == n && pos == 0 && Valid()
    {
      buf, size, pos := buffer, n, 0;
    }

    ghost predicate Valid()
      reads this
    {
      pos <= size <= buf.Length
    }

    method PutBytes(s: seq<Byte>) returns (ok: bool)
      requires Valid()
      modifies this`pos, buf
      ensures Valid() && (ok <==> old(pos) + |s| <= size)
      ensures ok ==> pos == old(pos) + |s| && Wrote(old(buf[..]), old(pos), s, buf[..])
      ensures !ok ==> pos == old(pos) && buf[..] == old(buf[..])
    {
      ok := |s| <= size - pos;
      if ok {
        assert s[..0] == [];
        for i := 0 to |s|
          invariant pos == old(pos) && Wrote(old(buf[..]), pos, s[..i], buf[..])
        {
          WroteOne(old(buf[..]), pos, s, i, buf[..]);
          buf[pos + i] := s[i];
        }
        assert s[..|s|] == s;
        pos := pos + |s|;
      }
    }

    method PutWord(w: Word) returns (ok: bool)
      requires Valid()
      modifies this`pos, buf
      ensures Valid() && (ok <==> old(pos) + 4 <= size)
      ensures ok ==> pos == old(pos) + 4 && Wrote(old(buf[..]), old(pos), Be(w), buf[..])
    {
      hide Be;
      ok := PutBytes(Be(w));
    }

    method PutString(s: seq<Byte>) returns (ok: bool)
      requires Valid() && |s| < TWO32
      modifies this`pos, buf
      ensures Valid() && (ok <==> old(pos) + |EncodeString(s)| <= size)
      ensures ok ==> pos == old(pos) + |EncodeString(s)| && Wrote(old(buf[..]), old(pos), EncodeString(s), buf[..])
    {
      hide Be, Wrote, RoundUp4;
      ghost var b0, p0 := buf[..], pos;
      ok := PutWord(|s|);
      if !ok { return; }
      ghost var b1 := buf[..];
      ok := PutBytes(s);
      if !ok { return; }
      ghost var b2 := buf[..];
      ok := PutBytes(Zeros(RoundUp4(|s|) - |s|));
      if !ok { return; }
      WroteMore(b0, p0, Be(|s|), b1, s, b2);
      WroteMore(b0, p0, Be(|s|) + s, b2, Zeros(RoundUp4(|s|) - |s|), buf[..]);
    }

    /** The times, the signature and the origin. */
    method PutFront(i: ProdInfo) returns (ok: bool)
      requires Valid()
      modifies this`pos, buf
      ensures Valid() && (ok <==> old(pos) + |EncodeFront(i)| <= size)
      ensures ok ==> pos == old(pos) + |EncodeFront(i)| && Wrote(old(buf[..]), old(pos), EncodeFront(i), buf[..])
    {
      hide Be, Wrote, EncodeString, Clip;
      ghost var b0, p0 := buf[..], pos;
      ok := PutWord(Low32(i.sec));
      if !ok { return; }
      ghost var b1 := buf[..];
      ok := PutWord(Low32(i.usec));
      if !ok { return; }
      WroteMore(b0, p0, Be(Low32(i.sec)), b1, Be(Low32(i.usec)), buf[..]);
      b1 := buf[..];
      ok := PutBytes(i.signature);
      if !ok { return; }
      WroteMore(b0, p0, Be(Low32(i.sec)) + Be(Low32(i.usec)), b1, i.signature, buf[..]);
      b1 := buf[..];
      ok := PutString(Clip(i.origin, ORIGIN_MAX));
      if !ok { return; }
      WroteMore(b0, p0, Be(Low32(i.sec)) + Be(Low32(i.usec)) + i.signature, b1,
                EncodeString(Clip(i.origin, ORIGIN_MAX)), buf[..]);
    }

    /** Encode a header (`xdr_net_prod_info`). */
    method PutInfo(i: ProdInfo) returns (ok: bool)
      requires Valid()
      modifies this`pos, buf
      ensures Valid() && (ok <==> old(pos) + |EncodeInfo(i)| <= size)
      ensures ok ==> pos == old(pos) + |EncodeInfo(i)| && Wrote(old(buf[..]), old(pos), EncodeInfo(i), buf[..])
    {
      hide Wrote, EncodeFront, EncodeBack, EncodeInfo;
      ghost var b0, p0 := buf[..], pos;
      InfoParts(i);
      ok := PutFront(i);
      if !ok { return; }
      ghost var b1 := buf[..];
      ok := PutBack(i);
      if !ok { return; }
      WroteMore(b0, p0, EncodeFront(i), b1, EncodeBack(i), buf[..]);
    }

    /** The feed type, the sequence number, the identifier and the size. */
    method PutBack(i: ProdInfo) returns (ok: bool)
      requires Valid()
      modifies this`pos, buf
      ensures Valid() && (ok <==> old(pos) + |EncodeBack(i)| <= size)
      ensures ok ==> pos == old(pos) + |EncodeBack(i)| && Wrote(old(buf[..]), old(pos), EncodeBack(i), buf[..])
    {
      hide Be, Wrote, EncodeString, Clip;
      ghost var b0, p0 := buf[..], pos;
      ok := PutWord(i.feedtype);
      if !ok { return; }
      ghost var b1 := buf[..];
      ok := PutWord(i.seqno);
      if !ok { return; }
      WroteMore(b0, p0, Be(i.feedtype), b1, Be(i.seqno), buf[..]);
      b1 := buf[..];
      ok := PutString(Clip(i.ident, IDENT_MAX));
      if !ok { return; }
      WroteMore(b0, p0, Be(i.feedtype) + Be(i.seqno), b1, EncodeString(Clip(i.ident, IDENT_MAX)), buf[..]);
      b1 := buf[..];
      ok := PutWord(i.sz);
      if !ok { return; }
      WroteMore(b0, p0, Be(i.feedtype) + Be(i.seqno) + EncodeString(Clip(i.ident, IDENT_MAX)), b1, Be(i.sz), buf[..]);
    }

    method GetBytes(n: nat) returns (r: Option<seq<Byte>>)
      requires Valid()
      modifies this`pos
      ensures Valid() && r == GetOpaque(buf[..size], old(pos), n) && pos == if r.Some? then old(pos) + n else old(pos)
    {
      if n > size - pos { return None; }
      assert buf[pos..pos + n] == buf[..size][pos..pos + n];
      r := Some(buf[pos..pos + n]);
      pos := pos + n;
    }

    method NextWord() returns (r: Option<Word>)
      requires Valid()
      modifies this`pos
      ensures Valid() && r == GetWord(buf[..size], old(pos)) && pos == if r.Some? then old(pos) + 4 else old(pos)
    {
      var b := GetBytes(4);
      r := if b.None? then None else Some(Un(b.value));
    }

    method NextString(max: nat) returns (r: Option<seq<Byte>>)
      requires Valid()
      modifies this`pos
      ensures Valid() && (r.Some? <==> GetString(buf[..size], old(pos), max).Some?)
      ensures r.Some? ==> GetString(buf[..size], old(pos), max) == Some((r.value, pos))
    {
      var len := NextWord();
      if len.None? || len.value > max { return None; }
      var s := GetBytes(len.value);
      if s.None? { return None; }
      var pad := GetBytes(RoundUp4(len.value) - len.value);
      if pad.None? { return None; }
      r := Some(UntilNul(s.value));
    }

    /** Decode a header. */
    method NextInfo() returns (r: Option<ProdInfo>)
      requires Valid() && pos == 0
      modifies this`pos
      ensures Valid() && (r.Some? <==> DecodeInfo(buf[..size]).Some?)
      ensures r.Some? ==> DecodeInfo(buf[..size]) == Some((r.value, pos))
    {
      hide GetWord, GetOpaque, GetString;
      var sec := NextWord();
      if sec.None? { return None; }
      var usec := NextWord();
      if usec.None? { return None; }
      var sig := GetBytes(16);
      if sig.None? { return None; }
      OpaqueLength(buf[..size], 8, 16);
      var origin := NextString(ORIGIN_MAX);
      if origin.None? { return None; }
      var feedtype := NextWord();
      if feedtype.None? { return None; }
      var seqno := NextWord();
      if seqno.None? { return None; }
      var ident := NextString(IDENT_MAX);
      if ident.None? { return None; }
      var sz := NextWord();
      if sz.None? { return None; }
      r := Some(ProdInfo(Signed32(sec.value), Signed32(usec.value), sig.value, origin.value, feedtype.value,
                         seqno.value, ident.value, sz.value));
    }
  }

  lemma OpaqueLength(b: seq<Byte>, at: nat, n: nat)
    ensures GetOpaque(b, at, n).Some? ==> |GetOpaque(b, at, n).value| == n
  {
  }

  function EncodeFront(i: ProdInfo): seq<Byte> {
    Be(Low32(i.sec)) + Be(Low32(i.usec)) + i.signature + EncodeString(Clip(i.origin, ORIGIN_MAX))
  }

  function EncodeBack(i: ProdInfo): seq<Byte> {
    Be(i.feedtype) + Be(i.seqno) + EncodeString(Clip(i.ident, IDENT_MAX)) + Be(i.sz)
  }

  lemma InfoParts(i: ProdInfo)
    ensures EncodeInfo(i) == EncodeFront(i) + EncodeBack(i)
  {
    hide Be, EncodeString, Clip;
  }

  // ---------------------------------------------------------------------
  // The serializer
  // ---------------------------------------------------------------------

  /** A header written at the start of a buffer stands there, whatever was written behind it. */
  lemma WroteStands(b: seq<Byte>, i: ProdInfo, more: seq<Byte>, b': seq<Byte>)
    requires Wrote(b, 0, EncodeInfo(i) + more, b')
    ensures HeaderStands(b', i, |EncodeInfo(i)|)
  {
    hide EncodeInfo, HeaderStands;
    var rest := more + b[|EncodeInfo(i) + more|..];
    assert b' == EncodeInfo(i) + rest;
    EncodedBytes(i, rest);
  }

  /** Encode a header into a buffer; the payload belongs at the position returned. */
  method EncodeProdInfo(buffer: array<Byte>, size: nat, i: ProdInfo) returns (data: Option<nat>)
    requires size <= buffer.Length
    modifies buffer
    ensures data.Some? <==> |EncodeInfo(i)| <= size
    ensures data.Some? ==> data.value == |EncodeInfo(i)| && Wrote(old(buffer[..]), 0, EncodeInfo(i), buffer[..])
    ensures data.Some? ==> HeaderStands(buffer[..], i, data.value)
  {
    hide EncodeInfo, Wrote, HeaderStands;
    ghost var b := buffer[..];
    var xdrs := new XdrMem(buffer, size);
    var ok := xdrs.PutInfo(i);
    data := if ok then Some(xdrs.pos) else None;
    if ok {
      assert EncodeInfo(i) + [] == EncodeInfo(i);
      WroteStands(b, i, [], buffer[..]);
    }
  }

  /** Encode a product: the header and, right behind it, the payload. */
  method EncodeProduct(buffer: array<Byte>, size: nat, i: ProdInfo, payload: seq<Byte>) returns (ok: bool)
    requires size <= buffer.Length && |payload| == i.sz && GetEncodedInfoSize(i) + |payload| <= buffer.Length
    modifies buffer
    ensures ok <==> |EncodeInfo(i)| <= size
    ensures ok ==> Wrote(old(buffer[..]), 0, EncodeInfo(i) + payload, buffer[..])
    ensures ok ==> HeaderStands(buffer[..], i, |EncodeInfo(i)|)
  {
    hide EncodeInfo, Wrote, GetEncodedInfoSize, HeaderStands;
    assert |EncodeInfo(i)| <= GetEncodedInfoSize(i) by { SizeRight(i); }
    ghost var b0 := buffer[..];
    var at := EncodeProdInfo(buffer, size, i);
    ok := at.Some?;
    if ok {
      ghost var b1 := buffer[..];
      var copy := new XdrMem(buffer, buffer.Length);
      copy.pos := at.value;
      var copied := copy.PutBytes(payload);
      WroteMore(b0, 0, EncodeInfo(i), b1, payload, buffer[..]);
      WroteStands(b0, i, payload, buffer[..]);
    }
  }

  /** Decode a header, and say where the payload starts. */
  method DecodeProdInfo(buffer: array<Byte>, size: nat) returns (r: Option<(ProdInfo, nat)>)
    requires size <= buffer.Length
    ensures r == DecodeInfo(buffer[..size])
    ensures r.Some? ==> exists lo: nat, ld: nat :: HeaderRead(buffer[..size], r.value.0, r.value.1, lo, ld)
    ensures r.None? ==> forall i: ProdInfo, n: nat, lo: nat, ld: nat :: !HeaderRead(buffer[..size], i, n, lo, ld)
  {
    hide DecodeInfo, HeaderRead;
    var xdrs := new XdrMem(buffer, size);
    var i := xdrs.NextInfo();
    r := if i.Some? then Some((i.value, xdrs.pos)) else None;
    ghost var b := buffer[..size];
    if r.Some? {
      DecodedBytes(b, r.value.0, r.value.1);
    } else {
      forall i: ProdInfo, n: nat, lo: nat, ld: nat ensures !HeaderRead(b, i, n, lo, ld) { DecodedBytes(b, i, n); }
    }
  }

  /** Put another signature into an encoded header. */
  method UpdateSignature(buffer: array<Byte>, size: nat, sig: Signature) returns (ok: bool)
    requires size <= buffer.Length
    modifies buffer
    ensures ok <==> size >= 24
    ensures !ok ==> buffer[..] == old(buffer[..])
    ensures forall i: ProdInfo, rest: seq<Byte> :: ok && old(buffer[..]) == EncodeInfo(i) + rest ==>
              buffer[..] == EncodeInfo(i.(signature := sig)) + rest
  {
    hide EncodeInfo;
    ghost var b := buffer[..];
    ok := size >= 8 + 16;
    if ok {
      assert sig[..0] == [];
      for k := 0 to 16
        invariant Wrote(b, 8, sig[..k], buffer[..])
      {
        WroteOne(b, 8, sig, k, buffer[..]);
        buffer[8 + k] := sig[k];
      }
      assert sig[..16] == sig;
      forall i: ProdInfo, rest: seq<Byte> | b == EncodeInfo(i) + rest ensures buffer[..] ==
          EncodeInfo(i.(signature := sig)) + rest {
        SignatureInPlace(i, sig, rest);
      }
    }
  }
}
