/**
 The feed-type parser and printer (core/FeedType.cpp).  `~` binds tightest, then
 `-` to the left, then `|` or `+`.
 */
module FeedTypes {
  import opened FeedNames

  // ---------------------------------------------------------------------
  // Masks
  // ---------------------------------------------------------------------

  const WIDTH := 32

  /** A 32-bit mask, as the set of its bits. */
  type Mask = s: set<nat> | forall k :: k in s ==> k < 32

  function Below(n: nat): (s: set<nat>)
    ensures forall k: nat :: k in s <==> k < n
  {
    if n == 0 then {} else Below(n - 1) + {n - 1}
  }

  function Whole(): Mask {
    Below(WIDTH)
  }

  /** The bits from `k` up of a number whose lowest bit counts as bit `k`. */
  function BitsFrom(n: nat, k: nat): (m: Mask)
    ensures forall b :: b in m ==> k <= b
    decreases WIDTH - k
  {
    if k >= WIDTH then {} else (if n % 2 == 1 then {k} else {}) + BitsFrom(n / 2, k + 1)
  }

  /** The number as an unsigned 32-bit value. */
  function Bits(n: nat): Mask {
    BitsFrom(n, 0)
  }

  function NumberFrom(m: Mask, k: nat): nat
    decreases WIDTH - k
  {
    if k >= WIDTH then 0 else (if k in m then 1 else 0) + 2 * NumberFrom(m, k + 1)
  }

  function Number(m: Mask): nat {
    NumberFrom(m, 0)
  }

  lemma {:induction false} BitsNumberFrom(m: Mask, k: nat)
    ensures BitsFrom(NumberFrom(m, k), k) == set b | b in m && k <= b
    decreases WIDTH - k
  {
    if k < WIDTH { BitsNumberFrom(m, k + 1); }
  }

  lemma BitsNumber(m: Mask)
    ensures Bits(Number(m)) == m
  {
    BitsNumberFrom(m, 0);
  }

  function Pow2(n: nat): (p: nat)
    ensures p >= 1
  {
    if n == 0 then 1 else 2 * Pow2(n - 1)
  }

  lemma {:induction false} NumberBound(m: Mask, k: nat)
    requires k <= WIDTH
    ensures NumberFrom(m, k) < Pow2(WIDTH - k)
    decreases WIDTH - k
  {
    if k < WIDTH { NumberBound(m, k + 1); }
  }

  lemma {:induction false} PowTimes(a: nat, b: nat)
    ensures Pow2(a + b) == Pow2(a) * Pow2(b)
    decreases b
  {
    if b > 0 { PowTimes(a, b - 1); }
  }

  lemma Pow32()
    ensures Pow2(32) == 0x1_0000_0000
  {
    assert Pow2(8) == 0x100;
    PowTimes(8, 8);
    PowTimes(16, 16);
  }

  // ---------------------------------------------------------------------
  // Characters and numbers
  // ---------------------------------------------------------------------

  predicate IsSpace(c: char) {
    c == ' ' || '\t' <= c <= '\r'
  }

  predicate IsAlnum(c: char) {
    'a' <= c <= 'z' || 'A' <= c <= 'Z' || '0' <= c <= '9'
  }

  function ToLower(c: char): char {
    if 'A' <= c <= 'Z' then c - 'A' + 'a' else c
  }

  function ToUpper(c: char): char {
    if 'a' <= c <= 'z' then c - 'a' + 'A' else c
  }

  function Lower(s: string): (r: string)
    ensures |r| == |s|
  {
    seq(|s|, i requires 0 <= i < |s| => ToLower(s[i]))
  }

  function Upper(s: string): (r: string)
    ensures |r| == |s|
  {
    seq(|s|, i requires 0 <= i < |s| => ToUpper(s[i]))
  }

  datatype Option<T> = None | Some(value: T)

  function Digit(c: char): int {
    if '0' <= c <= '9' then c as int - '0' as int
    else if 'a' <= c <= 'z' then c as int - 'a' as int + 10
    else 99
  }

  /** The value of a digit string, if all its characters are digits of that base. */
  function InBase(s: string, base: nat): Option<nat> {
    if s == [] then Some(0)
    else
      var front := InBase(s[..|s| - 1], base);
      var d := Digit(s[|s| - 1]);
      if front.None? || d >= base then None else Some(front.value * base + d)
  }

  /**
   A whole lower-case word as a number: hexadecimal after `0x`, octal after `0`, otherwise decimal, and at most 64
   bits.
   */
  function AsNumber(s: string): Option<nat> {
    var n :=
      if |s| > 2 && s[0] == '0' && s[1] == 'x' then InBase(s[2..], 16)
      else if |s| > 0 && s[0] == '0' then InBase(s, 8)
      else if |s| > 0 then InBase(s, 10)
      else None;
    if n.None? || n.value >= 0x1_0000_0000_0000_0000 then None else n
  }

  /** The last of the first `n` definitions with this name; a later definition replaces an earlier one. */
  function LastDef(s: string, n: nat): (i: int)
    ensures -1 <= i < n
  {
    if n == 0 then -1 else if DefAt(n - 1).name == s then n - 1 else LastDef(s, n - 1)
  }

  /** Names are unique, so looking one up gives its own definition. */
  lemma {:induction false} LastDefIs(i: nat, n: nat)
    requires i < n <= NDEFS
    ensures LastDef(DefAt(i).name, n) == i
  {
    hide DefAt, Mark, IndexOf;
    if i < n - 1 {
      Marked(i);
      Marked(n - 1);
      LastDefIs(i, n - 1);
    }
  }

  /** What a word means: a feed name in any case, or a number. */
  function Meaning(word: string): Option<Mask> {
    var s := Lower(word);
    var i := LastDef(s, NDEFS);
    if i >= 0 then Some(Bits(DefAt(i).value))
    else
      var n := AsNumber(s);
      if n.Some? then Some(Bits(n.value)) else None
  }

  /** Decimal, octal and hexadecimal numbers, and what is none of them. */
  lemma NumbersRead()
    ensures AsNumber("10") == Some(10) && AsNumber("010") == Some(8) && AsNumber("0x1f") == Some(31)
    ensures AsNumber("09").None? && AsNumber("1f").None? && AsNumber("").None?
  {
    assert "10"[..1] == "1" && "1"[..0] == "" && "010"[..2] == "01" && "01"[..1] == "0" && "0"[..0] == "";
    assert "0x1f"[2..] == "1f" && "1f"[..1] == "1" && "09"[..1] == "0";
  }

  /** A number is cut to 32 bits. */
  lemma {:induction false} NumberBitsFrom(n: nat, k: nat)
    requires k <= WIDTH
    ensures NumberFrom(BitsFrom(n, k), k) == n % Pow2(WIDTH - k)
    decreases WIDTH - k
  {
    if k < WIDTH {
      NumberBitsFrom(n / 2, k + 1);
      SameAbove(BitsFrom(n, k), BitsFrom(n / 2, k + 1), k + 1);
      HalfMod(n, Pow2(WIDTH - k - 1));
    }
  }

  lemma {:induction false} SameAbove(m: Mask, m': Mask, k: nat)
    requires forall b :: k <= b ==> (b in m <==> b in m')
    ensures NumberFrom(m, k) == NumberFrom(m', k)
    decreases WIDTH - k
  {
    if k < WIDTH { SameAbove(m, m', k + 1); }
  }

  lemma HalfMod(n: nat, p: nat)
    requires 0 < p
    ensures n % (2 * p) == n % 2 + 2 * ((n / 2) % p)
  {
    var q, r := (n / 2) / p, (n / 2) % p;
    var s := n % 2 + 2 * r;
    assert n / 2 == p * q + r;
    assert n == (2 * p) * q + s;
    Residue(n, 2 * p, q, s);
  }

  lemma Residue(n: nat, d: nat, q: nat, r: nat)
    requires 0 < d && n == d * q + r && r < d
    ensures n % d == r
  {
    var q', r' := n / d, n % d;
    assert n == d * q' + r';
    assert d * (q - q') == r' - r;
    Apart(q - q', d);
  }

  lemma Apart(k: int, d: int)
    requires 0 < d
    ensures k >= 1 ==> d * k >= d
    ensures k <= -1 ==> d * k <= -d
  {
  }

  lemma NumberBits(n: nat)
    ensures Number(Bits(n)) == n % 0x1_0000_0000
  {
    hide BitsFrom, NumberFrom;
    NumberBitsFrom(n, 0);
    Pow32();
  }

  // ---------------------------------------------------------------------
  // Tokens
  // ---------------------------------------------------------------------

  datatype Token = Name(s: string) | Union | Diff | Complement | LP | RP

  /** How many of the first characters are letters or digits. */
  function Run(s: string): (n: nat)
    ensures n <= |s| && (forall i :: 0 <= i < n ==> IsAlnum(s[i])) && (n < |s| ==> !IsAlnum(s[n]))
  {
    if s == [] || !IsAlnum(s[0]) then 0 else 1 + Run(s[1..])
  }

  function Punctuation(c: char): Option<Token> {
    match c
    case '|' => Some(Union)
    case '+' => Some(Union)
    case '-' => Some(Diff)
    case '(' => Some(LP)
    case ')' => Some(RP)
    case '~' => Some(Complement)
    case _ => None
  }

  /** The tokens of a text.  A character that starts no token gives an empty name, over and over. */
  function Lex(s: string): seq<Token>
    decreases |s|
  {
    if s == [] || s[0] == '\0' then []
    else if IsSpace(s[0]) then Lex(s[1..])
    else if Punctuation(s[0]).Some? then [Punctuation(s[0]).value] + Lex(s[1..])
    else
      var n := Run(s);
      if n == 0 then [Name("")] else [Name(s[..n])] + Lex(s[n..])
  }

  // ---------------------------------------------------------------------
  // The parser
  // ---------------------------------------------------------------------

  datatype Error = Ok | MissingParen | BadSyntax | Garbage | UnknownFeed

  /** The tokens ahead, whether an error was met, and whether the parser loops forever. */
  datatype State = State(t: seq<Token>, err: Error, stuck: bool)

  /** The next token; not after an error. */
  function Advance(p: State): State {
    if p.err != Ok || p.t == [] || p.t[0] == Name("") then p else p.(t := p.t[1..])
  }

  predicate Ahead(p: State, k: Token) {
    p.t != [] && p.t[0] == k
  }

  ghost function Primary(p: State): (r: (Mask, State))
    ensures |r.1.t| <= |p.t|
    decreases |p.t|, 0
  {
    if p.err != Ok then ({}, p)
    else if p.t == [] then ({}, p.(err := BadSyntax))
    else
      match p.t[0]
      case Name(s) =>
        var m := Meaning(s);
        if m.Some? then (m.value, Advance(p)) else ({}, Advance(p).(err := UnknownFeed))
      case Complement =>
        var r := Primary(Advance(p));
        (Whole() - r.0, r.1)
      case LP =>
        var r := Expr(Advance(p));
        if r.1.stuck then r
        else if !Ahead(r.1, RP) then ({}, r.1.(err := MissingParen))
        else (r.0, Advance(r.1))
      case _ => ({}, p.(err := BadSyntax))
  }

  ghost function Term(p: State): (r: (Mask, State))
    ensures |r.1.t| <= |p.t|
    decreases |p.t|, 2
  {
    var l := Primary(p);
    if l.1.stuck then l else if l.1.err != Ok then ({}, l.1) else TermLoop(l.0, l.1)
  }

  /** The operands of `-`.  The loop does not look at errors: with one set and `-` ahead it never ends. */
  ghost function TermLoop(left: Mask, p: State): (r: (Mask, State))
    ensures |r.1.t| <= |p.t|
    decreases |p.t|, 1
  {
    if !Ahead(p, Diff) then (left, p)
    else if p.err != Ok then ({}, p.(stuck := true))
    else
      var r := Primary(Advance(p));
      if r.1.stuck then r else TermLoop(left - r.0, r.1)
  }

  ghost function Expr(p: State): (r: (Mask, State))
    ensures |r.1.t| <= |p.t|
    decreases |p.t|, 4
  {
    var l := Term(p);
    if l.1.stuck then l else if l.1.err != Ok then ({}, l.1) else ExprLoop(l.0, l.1)
  }

  ghost function ExprLoop(left: Mask, p: State): (r: (Mask, State))
    ensures |r.1.t| <= |p.t|
    decreases |p.t|, 3
  {
    if !Ahead(p, Union) then (left, p)
    else if p.err != Ok then ({}, p)
    else
      var r := Term(Advance(p));
      if r.1.stuck then r else ExprLoop(left + r.0, r.1)
  }

  datatype Outcome = Value(m: Mask) | Fails(err: Error) | Diverges

  /** What parsing a text comes to. */
  ghost function Parsed(text: string): Outcome {
    if text == [] then Fails(BadSyntax)
    else
      var r := Expr(State(Lex(text), Ok, false));
      if r.1.stuck then Diverges
      else if r.1.err != Ok then Fails(r.1.err)
      else if r.1.t != [] then Fails(Garbage)
      else Value(r.0)
  }

  // ---------------------------------------------------------------------
  // Expressions
  // ---------------------------------------------------------------------

  datatype Ex = Word(s: string) | Not(e: Ex) | Minus(a: Ex, b: Ex) | Or(a: Ex, b: Ex)

  /** Every word has a meaning. */
  predicate Known(e: Ex) {
    match e
    case Word(s) => s != "" && (forall i :: 0 <= i < |s| ==> IsAlnum(s[i])) && Meaning(s).Some?
    case Not(e1) => Known(e1)
    case Minus(a, b) => Known(a) && Known(b)
    case Or(a, b) => Known(a) && Known(b)
  }

  /** The bitwise value of an expression. */
  function ValueOf(e: Ex): Mask
    requires Known(e)
  {
    match e
    case Word(s) => Meaning(s).value
    case Not(e1) => Whole() - ValueOf(e1)
    case Minus(a, b) => ValueOf(a) - ValueOf(b)
    case Or(a, b) => ValueOf(a) + ValueOf(b)
  }

  /** The tokens of an expression, with parentheses only where precedence needs them. */
  function Print(e: Ex): seq<Token>
    decreases e, 0
  {
    match e
    case Word(s) => [Name(s)]
    case Not(e1) => [Complement] + PrintPrimary(e1)
    case Minus(a, b) => PrintTerm(a) + [Diff] + PrintPrimary(b)
    case Or(a, b) => Print(a) + [Union] + PrintTerm(b)
  }

  function PrintTerm(e: Ex): seq<Token>
    decreases e, 1
  {
    if e.Or? then [LP] + Print(e) + [RP] else Print(e)
  }

  function PrintPrimary(e: Ex): seq<Token>
    decreases e, 1
  {
    if e.Or? || e.Minus? then [LP] + Print(e) + [RP] else Print(e)
  }

  ghost predicate NoDiff(t: seq<Token>) {
    t == [] || t[0] != Diff
  }

  ghost function Good(t: seq<Token>): State {
    State(t, Ok, false)
  }

  lemma TermStarts(t: seq<Token>, v: Mask, rest: seq<Token>)
    requires Primary(Good(t)) == (v, Good(rest))
    ensures Term(Good(t)) == TermLoop(v, Good(rest))
  {
  }

  lemma ExprStarts(t: seq<Token>, v: Mask, rest: seq<Token>)
    requires Term(Good(t)) == TermLoop(v, Good(rest)) && NoDiff(rest)
    ensures Expr(Good(t)) == ExprLoop(v, Good(rest))
  {
  }

  lemma Subtracts(left: Mask, t: seq<Token>, v: Mask, rest: seq<Token>)
    requires Primary(Good(t)) == (v, Good(rest))
    ensures TermLoop(left, Good([Diff] + t)) == TermLoop(left - v, Good(rest))
  {
    assert ([Diff] + t)[1..] == t;
  }

  lemma Unites(left: Mask, t: seq<Token>, v: Mask, rest: seq<Token>)
    requires Term(Good(t)) == TermLoop(v, Good(rest)) && NoDiff(rest)
    ensures ExprLoop(left, Good([Union] + t)) == ExprLoop(left + v, Good(rest))
  {
    assert ([Union] + t)[1..] == t;
  }

  lemma Encloses(t: seq<Token>, v: Mask, rest: seq<Token>)
    requires Expr(Good(t)) == ExprLoop(v, Good([RP] + rest))
    ensures Primary(Good([LP] + t)) == (v, Good(rest))
  {
    assert ([LP] + t)[1..] == t;
    assert ([RP] + rest)[1..] == rest;
    assert ExprLoop(v, Good([RP] + rest)) == (v, Good([RP] + rest));
  }

  lemma Complements(t: seq<Token>, v: Mask, rest: seq<Token>)
    requires Primary(Good(t)) == (v, Good(rest))
    ensures Primary(Good([Complement] + t)) == (Whole() - v, Good(rest))
  {
    assert ([Complement] + t)[1..] == t;
  }

  lemma Names(s: string, rest: seq<Token>)
    requires s != "" && Meaning(s).Some?
    ensures Primary(Good([Name(s)] + rest)) == (Meaning(s).value, Good(rest))
  {
    assert ([Name(s)] + rest)[1..] == rest;
  }

  // ---------------------------------------------------------------------
  // The grammar
  // ---------------------------------------------------------------------

  /** What may be written: parentheses anywhere around an expression. */
  datatype Syntax = Leaf(s: string) | Negated(e: Syntax) | Group(e: Syntax)
                  | Sub(a: Syntax, b: Syntax) | Alt(a: Syntax, b: Syntax)

  /** A known word, the complement of a primary, or an expression in parentheses. */
  predicate IsPrimary(e: Syntax)
    decreases e, 0
  {
    match e
    case Leaf(s) => s != "" && Meaning(s).Some?
    case Negated(e1) => IsPrimary(e1)
    case Group(e1) => IsExpr(e1)
    case _ => false
  }

  /** Primaries with `-` between them. */
  predicate IsTerm(e: Syntax)
    decreases e, 1
  {
    if e.Sub? then IsTerm(e.a) && IsPrimary(e.b) else IsPrimary(e)
  }

  /** Terms with `|` or `+` between them. */
  predicate IsExpr(e: Syntax)
    decreases e, 2
  {
    if e.Alt? then IsExpr(e.a) && IsTerm(e.b) else IsTerm(e)
  }

  function Written(e: Syntax): seq<Token> {
    match e
    case Leaf(s) => [Name(s)]
    case Negated(e1) => [Complement] + Written(e1)
    case Group(e1) => [LP] + Written(e1) + [RP]
    case Sub(a, b) => Written(a) + [Diff] + Written(b)
    case Alt(a, b) => Written(a) + [Union] + Written(b)
  }

  function Means(e: Syntax): Mask {
    match e
    case Leaf(s) => if Meaning(s).Some? then Meaning(s).value else {}
    case Negated(e1) => Whole() - Means(e1)
    case Group(e1) => Means(e1)
    case Sub(a, b) => Means(a) - Means(b)
    case Alt(a, b) => Means(a) + Means(b)
  }

  lemma {:induction false} ReadsPrimary(e: Syntax, rest: seq<Token>)
    requires IsPrimary(e)
    ensures Primary(Good(Written(e) + rest)) == (Means(e), Good(rest))
    decreases e, 0
  {
    hide Primary, Expr, ExprLoop, Meaning;
    match e
    case Leaf(s) => Names(s, rest);
    case Negated(e1) =>
      ReadsPrimary(e1, rest);
      Complements(Written(e1) + rest, Means(e1), rest);
      assert Written(e) + rest == [Complement] + (Written(e1) + rest);
    case Group(e1) =>
      ReadsExpr(e1, [RP] + rest);
      Encloses(Written(e1) + ([RP] + rest), Means(e1), rest);
      assert Written(e) + rest == [LP] + (Written(e1) + ([RP] + rest));
  }

  /** A term, and whatever comes behind it. */
  lemma {:induction false} ReadsTerm(e: Syntax, rest: seq<Token>)
    requires IsTerm(e)
    ensures Term(Good(Written(e) + rest)) == TermLoop(Means(e), Good(rest))
    decreases e, 1
  {
    hide Primary, Term, TermLoop, Expr, ExprLoop, Meaning;
    if e.Sub? {
      var t := Written(e.b) + rest;
      ReadsTerm(e.a, [Diff] + t);
      ReadsPrimary(e.b, rest);
      Subtracts(Means(e.a), t, Means(e.b), rest);
      assert Written(e) + rest == Written(e.a) + ([Diff] + t);
    } else {
      ReadsPrimary(e, rest);
      TermStarts(Written(e) + rest, Means(e), rest);
    }
  }

  /** An expression, and whatever comes behind it that does not continue its last term. */
  lemma {:induction false} ReadsExpr(e: Syntax, rest: seq<Token>)
    requires IsExpr(e) && NoDiff(rest)
    ensures Expr(Good(Written(e) + rest)) == ExprLoop(Means(e), Good(rest))
    decreases e, 2
  {
    hide Primary, Term, TermLoop, Expr, ExprLoop, Meaning;
    if e.Alt? {
      var t := Written(e.b) + rest;
      ReadsExpr(e.a, [Union] + t);
      ReadsTerm(e.b, rest);
      Unites(Means(e.a), t, Means(e.b), rest);
      assert Written(e) + rest == Written(e.a) + ([Union] + t);
    } else {
      ReadsTerm(e, rest);
      ExprStarts(Written(e) + rest, Means(e), rest);
    }
  }

  /** The parser has gone from `t` to `rest` without an error, and `e` is what it read. */
  ghost predicate WasRead(t: seq<Token>, r: (Mask, State), e: Syntax) {
    r.0 == Means(e) && r.1 == Good(r.1.t) && t == Written(e) + r.1.t
  }

  ghost predicate Fine(r: (Mask, State)) {
    r.1.err == Ok && !r.1.stuck
  }

  lemma {:induction false} PrimaryWas(t: seq<Token>) returns (e: Syntax)
    requires Fine(Primary(Good(t)))
    ensures IsPrimary(e) && WasRead(t, Primary(Good(t)), e)
    decreases |t|, 0
  {
    hide Meaning, Expr;
    EmptyUnknown();
    assert t == [t[0]] + t[1..];
    match t[0]
    case Name(s) => e := Leaf(s);
    case Complement =>
      var e1 := PrimaryWas(t[1..]);
      e := Negated(e1);
    case LP =>
      var e1 := ExprWas(t[1..]);
      var u := Expr(Good(t[1..])).1.t;
      assert u == [u[0]] + u[1..];
      e := Group(e1);
  }

  lemma {:induction false} TermWas(t: seq<Token>) returns (e: Syntax)
    requires Fine(Term(Good(t)))
    ensures IsTerm(e) && WasRead(t, Term(Good(t)), e)
    decreases |t|, 2
  {
    hide Primary, TermLoop;
    var l := PrimaryWas(t);
    e := TermLoopWas(l, Primary(Good(t)).1.t);
  }

  lemma {:induction false} TermLoopWas(l: Syntax, t: seq<Token>) returns (e: Syntax)
    requires IsTerm(l) && Fine(TermLoop(Means(l), Good(t)))
    ensures IsTerm(e) && WasRead(Written(l) + t, TermLoop(Means(l), Good(t)), e)
    decreases |t|, 1
  {
    hide Primary, TermLoop, IsPrimary, IsTerm, Written, Means;
    TermLoopGoesOn(Means(l), t);
    if !Ahead(Good(t), Diff) { return l; }
    var p := Primary(Good(t[1..]));
    var b := PrimaryWas(t[1..]);
    Operated(l, b);
    Regrouped(Written(l), Diff, Written(b), p.1.t, t);
    e := TermLoopWas(Sub(l, b), p.1.t);
  }

  /** The loop ends, or takes another operand; an error stays. */
  lemma TermLoopGoesOn(left: Mask, t: seq<Token>)
    requires Fine(TermLoop(left, Good(t)))
    ensures !Ahead(Good(t), Diff) ==> TermLoop(left, Good(t)) == (left, Good(t))
    ensures Ahead(Good(t), Diff) ==>
              var p := Primary(Good(t[1..]));
              Fine(p) && TermLoop(left, Good(t)) == TermLoop(left - p.0, p.1)
  {
    hide Primary;
    if Ahead(Good(t), Diff) {
      var p := Primary(Good(t[1..]));
      TermLoopFails(left - p.0, p.1);
    }
  }

  lemma TermLoopFails(left: Mask, p: State)
    ensures p.err != Ok ==> !Fine(TermLoop(left, p))
  {
  }

  lemma {:induction false} ExprWas(t: seq<Token>) returns (e: Syntax)
    requires Fine(Expr(Good(t)))
    ensures IsExpr(e) && WasRead(t, Expr(Good(t)), e)
    decreases |t|, 4
  {
    hide Term, ExprLoop;
    var l := TermWas(t);
    e := ExprLoopWas(l, Term(Good(t)).1.t);
  }

  lemma {:induction false} ExprLoopWas(l: Syntax, t: seq<Token>) returns (e: Syntax)
    requires IsExpr(l) && Fine(ExprLoop(Means(l), Good(t)))
    ensures IsExpr(e) && WasRead(Written(l) + t, ExprLoop(Means(l), Good(t)), e)
    decreases |t|, 3
  {
    hide Term, ExprLoop, IsTerm, IsExpr, Written, Means;
    ExprLoopGoesOn(Means(l), t);
    if !Ahead(Good(t), Union) { return l; }
    var p := Term(Good(t[1..]));
    var b := TermWas(t[1..]);
    Operated(l, b);
    Regrouped(Written(l), Union, Written(b), p.1.t, t);
    e := ExprLoopWas(Alt(l, b), p.1.t);
  }

  lemma ExprLoopGoesOn(left: Mask, t: seq<Token>)
    requires Fine(ExprLoop(left, Good(t)))
    ensures !Ahead(Good(t), Union) ==> ExprLoop(left, Good(t)) == (left, Good(t))
    ensures Ahead(Good(t), Union) ==>
              var p := Term(Good(t[1..]));
              Fine(p) && ExprLoop(left, Good(t)) == ExprLoop(left + p.0, p.1)
  {
    hide Term;
    if Ahead(Good(t), Union) {
      var p := Term(Good(t[1..]));
      ExprLoopFails(left + p.0, p.1);
    }
  }

  lemma ExprLoopFails(left: Mask, p: State)
    ensures p.err != Ok ==> !Fine(ExprLoop(left, p))
  {
  }

  lemma Operated(a: Syntax, b: Syntax)
    ensures Written(Sub(a, b)) == Written(a) + [Diff] + Written(b) && Means(Sub(a, b)) == Means(a) - Means(b)
    ensures Written(Alt(a, b)) == Written(a) + [Union] + Written(b) && Means(Alt(a, b)) == Means(a) + Means(b)
    ensures IsTerm(a) && IsPrimary(b) ==> IsTerm(Sub(a, b))
    ensures IsExpr(a) && IsTerm(b) ==> IsExpr(Alt(a, b))
  {
  }

  lemma Regrouped(a: seq<Token>, k: Token, b: seq<Token>, rest: seq<Token>, t: seq<Token>)
    requires t != [] && t[0] == k && t[1..] == b + rest
    ensures a + t == a + [k] + b + rest
  {
    assert t == [k] + t[1..];
  }

  /** The parser accepts a text, with this value, if and only if it is written by the grammar and means that. */
  lemma ParsedExactly(text: string, m: Mask)
    ensures Parsed(text) == Value(m) <==>
            exists e: Syntax :: IsExpr(e) && Written(e) == Lex(text) && Means(e) == m
  {
    hide Expr, Lex, IsExpr, Means;
    if Parsed(text) == Value(m) {
      var e := ExprWas(Lex(text));
      assert Written(e) + [] == Written(e);
    }
    if exists e: Syntax :: IsExpr(e) && Written(e) == Lex(text) && Means(e) == m {
      var e: Syntax :| IsExpr(e) && Written(e) == Lex(text) && Means(e) == m;
      ReadsExpr(e, []);
      assert Written(e) + [] == Written(e);
      SomethingWritten(e);
      LexNothing();
    }
  }

  lemma SomethingWritten(e: Syntax)
    ensures Written(e) != []
  {
  }

  lemma LexNothing()
    ensures Lex([]) == []
  {
  }

  /** Printing puts parentheses where the grammar needs them. */
  function AsSyntax(e: Ex): Syntax
    decreases e, 0
  {
    match e
    case Word(s) => Leaf(s)
    case Not(e1) => Negated(AsPrimary(e1))
    case Minus(a, b) => Sub(AsTerm(a), AsPrimary(b))
    case Or(a, b) => Alt(AsSyntax(a), AsTerm(b))
  }

  function AsTerm(e: Ex): Syntax
    decreases e, 1
  {
    if e.Or? then Group(AsSyntax(e)) else AsSyntax(e)
  }

  function AsPrimary(e: Ex): Syntax
    decreases e, 1
  {
    if e.Or? || e.Minus? then Group(AsSyntax(e)) else AsSyntax(e)
  }

  lemma Lifts(e: Syntax)
    ensures IsPrimary(e) ==> IsTerm(e) && IsExpr(e)
    ensures IsTerm(e) ==> IsExpr(e)
  {
  }

  lemma {:induction false} PrintedSyntax(e: Ex)
    requires Known(e)
    ensures IsExpr(AsSyntax(e)) && IsTerm(AsTerm(e)) && IsPrimary(AsPrimary(e))
    ensures Written(AsSyntax(e)) == Print(e) && Written(AsTerm(e)) == PrintTerm(e)
            && Written(AsPrimary(e)) == PrintPrimary(e)
    ensures Means(AsSyntax(e)) == Means(AsTerm(e)) == Means(AsPrimary(e)) == ValueOf(e)
  {
    hide Meaning;
    Lifts(AsSyntax(e));
    Lifts(AsTerm(e));
    match e
    case Word(s) =>
    case Not(e1) => PrintedSyntax(e1);
    case Minus(a, b) =>
      PrintedSyntax(a);
      PrintedSyntax(b);
    case Or(a, b) =>
      PrintedSyntax(a);
      PrintedSyntax(b);
  }

  // ---------------------------------------------------------------------
  // Text
  // ---------------------------------------------------------------------

  function Show(k: Token): string {
    match k
    case Name(s) => s
    case Union => "|"
    case Diff => "-"
    case Complement => "~"
    case LP => "("
    case RP => ")"
  }

  function Text(t: seq<Token>): string {
    if t == [] then "" else Show(t[0]) + Text(t[1..])
  }

  ghost predicate IsWord(s: string) {
    s != "" && forall i :: 0 <= i < |s| ==> IsAlnum(s[i])
  }

  /** Names are words and do not touch. */
  ghost predicate Clean(t: seq<Token>) {
    && (forall i :: 0 <= i < |t| && t[i].Name? ==> IsWord(t[i].s))
    && (forall i :: 0 <= i < |t| - 1 && t[i].Name? ==> !t[i + 1].Name?)
  }

  /** The word at the start of a text ends where the next token starts. */
  lemma RunWord(s: string, tail: string)
    requires IsWord(s) && (tail == "" || !IsAlnum(tail[0]))
    ensures Run(s + tail) == |s|
  {
    var text := s + tail;
    assert forall i :: 0 <= i < |s| ==> text[i] == s[i];
    assert tail != "" ==> text[|s|] == tail[0];
  }

  lemma LexName(w: string, tail: string)
    requires IsWord(w) && (tail == "" || !IsAlnum(tail[0]))
    ensures Lex(w + tail) == [Name(w)] + Lex(tail)
  {
    hide Run;
    RunWord(w, tail);
    var s := w + tail;
    assert s[..|w|] == w && s[|w|..] == tail && s[0] == w[0] && IsAlnum(s[0]);
  }

  lemma LexSign(k: Token, tail: string)
    requires !k.Name?
    ensures Lex(Show(k) + tail) == [k] + Lex(tail)
  {
    var s := Show(k) + tail;
    assert s[1..] == tail;
  }

  lemma LexStep(c: char, tail: string)
    requires !IsAlnum(c)
    ensures Lex([c] + tail) == if c == '\0' then []
                               else if IsSpace(c) then Lex(tail)
                               else if Punctuation(c).Some? then [Punctuation(c).value] + Lex(tail)
                               else [Name("")]
  {
    var s := [c] + tail;
    assert s[1..] == tail;
  }

  /** No word of `a` goes on in `b`. */
  ghost predicate WordsEnd(a: string, b: string) {
    a == "" || b == "" || !IsAlnum(a[|a| - 1]) || !IsAlnum(b[0])
  }

  /** What comes before a text adds the same tokens to it as to any other with the same tokens. */
  lemma {:induction false} LexFront(a: string, x: string, y: string)
    requires Lex(x) == Lex(y) && WordsEnd(a, x) && WordsEnd(a, y)
    ensures Lex(a + x) == Lex(a + y)
    decreases |a|
  {
    hide Run, Lex, IsAlnum;
    if a == "" {
      assert a + x == x && a + y == y;
    } else if IsAlnum(a[0]) {
      var n := Run(a);
      var w, rest := a[..n], a[n..];
      LexFront(rest, x, y);
      assert a + x == w + (rest + x) && a + y == w + (rest + y);
      LexName(w, rest + x);
      LexName(w, rest + y);
    } else {
      var rest := a[1..];
      LexFront(rest, x, y);
      assert a + x == [a[0]] + (rest + x) && a + y == [a[0]] + (rest + y);
      LexStep(a[0], rest + x);
      LexStep(a[0], rest + y);
    }
  }

  /** White space between tokens does not matter. */
  lemma LexSpace(a: string, c: char, b: string)
    requires c as int in {9, 10, 11, 12, 13, 32} && WordsEnd(a, b)
    ensures Lex(a + [c] + b) == Lex(a + b)
  {
    hide Lex;
    LexStep(c, b);
    LexFront(a, [c] + b, b);
    assert a + [c] + b == a + ([c] + b);
  }

  /** The two signs for a union are the same token. */
  lemma LexPlus(a: string, b: string)
    ensures Lex(a + "+" + b) == Lex(a + "|" + b)
  {
    hide Lex;
    LexStep('+', b);
    LexStep('|', b);
    LexFront(a, "+" + b, "|" + b);
    assert a + "+" + b == a + ("+" + b) && a + "|" + b == a + ("|" + b);
  }

  lemma {:induction false} LexText(t: seq<Token>)
    requires Clean(t)
    ensures Lex(Text(t)) == t
    decreases |t|
  {
    hide Lex;
    if t == [] {
      LexEnds("", 0);
    } else {
      CleanTail(t);
      LexText(t[1..]);
      if t[0].Name? {
        TailStarts(t);
        LexName(t[0].s, Text(t[1..]));
      } else {
        LexSign(t[0], Text(t[1..]));
      }
    }
  }

  lemma CleanTail(t: seq<Token>)
    requires Clean(t) && t != []
    ensures Clean(t[1..])
  {
  }

  lemma TailStarts(t: seq<Token>)
    requires Clean(t) && t != [] && t[0].Name?
    ensures Text(t[1..]) == "" || !IsAlnum(Text(t[1..])[0])
  {
    if |t| > 1 { assert !t[0 + 1].Name?; }
  }

  lemma {:induction false} PrintClean(e: Ex)
    requires Known(e)
    ensures Clean(Print(e)) && Clean(PrintTerm(e)) && Clean(PrintPrimary(e))
  {
    hide Meaning;
    match e
    case Word(s) => assert IsWord(s);
    case Not(e1) =>
      PrintClean(e1);
      CleanJoin([Complement], PrintPrimary(e1));
    case Minus(a, b) =>
      PrintClean(a);
      PrintClean(b);
      CleanJoin(PrintTerm(a), [Diff]);
      CleanJoin(PrintTerm(a) + [Diff], PrintPrimary(b));
      CleanParens(Print(e));
    case Or(a, b) =>
      PrintClean(a);
      PrintClean(b);
      CleanJoin(Print(a), [Union]);
      CleanJoin(Print(a) + [Union], PrintTerm(b));
      CleanParens(Print(e));
  }

  lemma CleanJoin(t: seq<Token>, u: seq<Token>)
    requires Clean(t) && Clean(u) && (t == [] || u == [] || !t[|t| - 1].Name? || !u[0].Name?)
    ensures Clean(t + u)
  {
  }

  lemma CleanParens(t: seq<Token>)
    requires Clean(t)
    ensures Clean([LP] + t + [RP])
  {
    CleanJoin([LP], t);
    CleanJoin([LP] + t, [RP]);
  }

  lemma TextFilled(t: seq<Token>)
    requires Clean(t) && t != []
    ensures Text(t) != ""
  {
    assert t[0].Name? ==> IsWord(t[0].s);
  }

  lemma PrintFilled(e: Ex)
    ensures Print(e) != []
  {
  }

  /** For every expression over known words, the parser returns its value from its printed form. */
  lemma ParsesPrinted(e: Ex)
    requires Known(e)
    ensures Parsed(Text(Print(e))) == Value(ValueOf(e))
  {
    hide Expr, Lex, Meaning, IsExpr, IsTerm, IsPrimary, Means;
    PrintClean(e);
    PrintFilled(e);
    TextFilled(Print(e));
    LexText(Print(e));
    PrintedSyntax(e);
    ReadsExpr(AsSyntax(e), []);
    assert Print(e) + [] == Print(e);
  }

  // ---------------------------------------------------------------------
  // The printer
  // ---------------------------------------------------------------------

  lemma {:induction false} TextJoin(t: seq<Token>, u: seq<Token>)
    ensures Text(t + u) == Text(t) + Text(u)
    decreases |t|
  {
    if t == [] {
      assert t + u == u;
    } else {
      TextJoin(t[1..], u);
      assert (t + u)[1..] == t[1..] + u;
    }
  }

  /** Another word behind a union. */
  lemma TextOr(e: Ex, word: string)
    ensures Text(Print(Or(e, Word(word)))) == Text(Print(e)) + "|" + word
  {
    TextJoin(Print(e) + [Union], [Name(word)]);
    TextJoin(Print(e), [Union]);
    assert PrintTerm(Word(word)) == [Name(word)];
    assert Print(Or(e, Word(word))) == Print(e) + [Union] + PrintTerm(Word(word));
    TextOne(Union);
    TextOne(Name(word));
  }

  lemma TextOne(k: Token)
    ensures Text([k]) == Show(k)
  {
    assert [k][1..] == [];
  }

  lemma {:induction false} WordIsLower(s: string, n: nat, i: nat)
    requires i < n <= |s| && WordTo(s, n)
    ensures IsLower(s[i])
    decreases n
  {
    if i < n - 1 { WordIsLower(s, n - 1, i); }
  }

  /** The upper-case form of a printed name is read back as that feed. */
  lemma NameRead(i: nat)
    requires i < 39
    ensures Known(Word(Upper(DefAt(i).name))) && Meaning(Upper(DefAt(i).name)) == Some(Bits(DefAt(i).value))
  {
    hide DefAt, LastDef, WordTo, BitsFrom;
    var s := DefAt(i).name;
    Worded(i);
    forall k | 0 <= k < |s| ensures Lower(Upper(s))[k] == s[k] && IsAlnum(Upper(s)[k]) {
      WordIsLower(s, |s|, k);
    }
    assert Lower(Upper(s)) == s;
    LastDefIs(i, NDEFS);
  }

  function HexDigit(d: nat): char
    requires d < 16
  {
    if d < 10 then '0' + d as char else 'a' + (d - 10) as char
  }

  /** The last `k` hexadecimal digits of a number. */
  function Hex(n: nat, k: nat): (s: string)
    ensures |s| == k
  {
    if k == 0 then "" else Hex(n / 16, k - 1) + [HexDigit(n % 16)]
  }

  lemma {:induction false} HexRead(n: nat, k: nat)
    requires n < Pow2(4 * k)
    ensures InBase(Hex(n, k), 16) == Some(n)
    ensures forall i :: 0 <= i < k ==> IsAlnum(Hex(n, k)[i]) && ToLower(Hex(n, k)[i]) == Hex(n, k)[i]
    decreases k
  {
    if k > 0 {
      PowTimes(4 * (k - 1), 4);
      assert Pow2(4) == 16;
      HexRead(n / 16, k - 1);
      var s := Hex(n, k);
      assert s[..k - 1] == Hex(n / 16, k - 1) && s[k - 1] == HexDigit(n % 16);
    }
  }

  lemma {:induction false} LastDefName(s: string, n: nat)
    ensures LastDef(s, n) >= 0 ==> DefAt(LastDef(s, n)).name == s
  {
    hide DefAt;
    if n > 0 { LastDefName(s, n - 1); }
  }

  /** No feed name is as long as a hexadecimal word. */
  lemma NotAName(s: string)
    requires |s| == 10 && s[0] == '0' && (forall i :: 0 <= i < 10 ==> IsAlnum(s[i]))
    ensures LastDef(s, NDEFS) == -1
  {
    hide DefAt, LastDef;
    var i := LastDef(s, NDEFS);
    LastDefName(s, NDEFS);
    LongMark(s);
    if i >= 0 { Marked(i); }
  }

  lemma LongMark(s: string)
    requires |s| == 10 && s[0] == '0'
    ensures IndexOf(Mark(s)) == -1
  {
  }

  function HexWord(m: Mask): string {
    "0x" + Hex(Number(m), 8)
  }

  lemma HexWordRead(m: Mask)
    ensures Known(Word(HexWord(m))) && Meaning(HexWord(m)) == Some(m)
    ensures |HexWord(m)| == 10 && HexWord(m)[..2] == "0x"
  {
    hide LastDef, InBase, Hex, BitsFrom, NumberFrom;
    var n := Number(m);
    NumberBound(m, 0);
    Pow32();
    HexRead(n, 8);
    var s := HexWord(m);
    assert forall i :: 0 <= i < 10 ==> IsAlnum(s[i]) && ToLower(s[i]) == s[i];
    assert Lower(s) == s;
    NotAName(s);
    assert s[2..] == Hex(n, 8);
    BitsNumber(m);
  }

  lemma NoneRead()
    ensures Known(Word("NONE")) && Meaning("NONE").value == {}
  {
    hide LastDef;
    assert Upper("none") == "NONE";
    NameRead(0);
    ZeroBits(0);
  }

  lemma {:induction false} ZeroBits(k: nat)
    ensures BitsFrom(0, k) == {}
    decreases WIDTH - k
  {
    if k < WIDTH { ZeroBits(k + 1); }
  }

  /** The printed form of what has been found so far. */
  ghost function Shown(acc: Option<Ex>): string {
    if acc.None? then "" else Text(Print(acc.value))
  }

  ghost function Found(acc: Option<Ex>): Mask
    requires acc.Some? ==> Known(acc.value)
  {
    if acc.None? then {} else ValueOf(acc.value)
  }

  ghost function Joined(acc: Option<Ex>, word: string): Option<Ex> {
    Some(if acc.None? then Word(word) else Or(acc.value, Word(word)))
  }

  lemma JoinedFound(acc: Option<Ex>, word: string)
    requires (acc.Some? ==> Known(acc.value)) && Known(Word(word))
    ensures Known(Joined(acc, word).value) && Found(Joined(acc, word)) == Found(acc) + Meaning(word).value
  {
    hide Meaning;
    assert ValueOf(Word(word)) == Meaning(word).value;
  }

  lemma JoinedShown(acc: Option<Ex>, word: string)
    requires (acc.Some? ==> Known(acc.value)) && Known(Word(word))
    ensures Known(Joined(acc, word).value) && Found(Joined(acc, word)) == Found(acc) + Meaning(word).value
    ensures Shown(Joined(acc, word)) == if acc.None? then word else Shown(acc) + "|" + word
    ensures Shown(acc) == "" <==> acc.None?
  {
    hide Meaning, Print;
    JoinedFound(acc, word);
    TextOne(Name(word));
    assert Print(Word(word)) == [Name(word)] by { PrintWord(word); }
    if acc.Some? {
      TextOr(acc.value, word);
      PrintClean(acc.value);
      PrintFilled(acc.value);
      TextFilled(Print(acc.value));
    }
  }

  lemma PrintWord(word: string)
    ensures Print(Word(word)) == [Name(word)]
  {
  }

  ghost function FeedBits(i: nat): Mask {
    Bits(DefAt(i).value)
  }

  /** The bits of the feeds in `named` that come after `i` in the table. */
  ghost function After(named: seq<nat>, i: nat): Mask {
    set j: nat, b: nat | j in named && i < j && b in FeedBits(j) :: b
  }

  /**
   Which feeds a mask is named by: going back through the table from all feeds, exactly those whose bits are all in the
   mask and none in a feed named before.
   */
  ghost predicate Greedy(v: Mask, named: seq<nat>, from: nat) {
    && (forall a, b :: 0 <= a < b < |named| ==> named[b] < named[a])
    && (forall i :: i in named ==> from < i < 39)
    && (forall i: nat :: from < i < 39 ==> (i in named <==> FeedBits(i) <= v - After(named, i)))
  }

  lemma NamedNone(v: Mask)
    ensures Greedy(v, [], 38) && After([], 38) == {} && Spelled([]) == ""
  {
  }

  lemma NameOne(v: Mask, named: seq<nat>, i: nat)
    requires Greedy(v, named, i) && 0 < i < 39 && FeedBits(i) <= v - After(named, i)
    ensures Greedy(v, named + [i], i - 1) && After(named + [i], i - 1) == After(named, i) + FeedBits(i)
  {
    hide FeedBits;
    var more := named + [i];
    assert forall j :: j in more <==> j in named || j == i;
    assert forall j: nat :: i <= j ==> After(more, j) == After(named, j);
    assert forall b :: b in FeedBits(i) ==> i in more && b in After(more, i - 1);
    assert After(more, i - 1) == After(named, i) + FeedBits(i);
    forall a, b | 0 <= a < b < |more| ensures more[b] < more[a] { assert named[a] in named; }
  }

  lemma NameNone(v: Mask, named: seq<nat>, i: nat)
    requires Greedy(v, named, i) && 0 < i < 39 && !(FeedBits(i) <= v - After(named, i))
    ensures Greedy(v, named, i - 1) && After(named, i - 1) == After(named, i)
  {
    hide FeedBits;
    assert i !in named;
  }

  /** Once every bit is named, no other feed is. */
  lemma {:induction false} NameNoMore(v: Mask, named: seq<nat>, i: nat)
    requires Greedy(v, named, i) && i < 39 && v <= After(named, i)
    ensures Greedy(v, named, 0) && After(named, 0) == After(named, i)
    decreases i
  {
    hide FeedBits, Greedy, After;
    if i > 0 {
      FeedHasBits(i);
      NameNone(v, named, i);
      NameNoMore(v, named, i - 1);
    }
  }

  lemma FeedHasBits(i: nat)
    requires 0 < i < 39
    ensures FeedBits(i) != {}
  {
    hide DefAt, BitsFrom;
    ValueRange(i);
    NumberBits(DefAt(i).value);
    if FeedBits(i) == {} { NumberOfNone(0); }
  }

  lemma {:induction false} NumberOfNone(k: nat)
    ensures NumberFrom({}, k) == 0
    decreases WIDTH - k
  {
    if k < WIDTH { NumberOfNone(k + 1); }
  }

  ghost function Spelled(named: seq<nat>): string {
    if named == [] then ""
    else
      var n := |named| - 1;
      (if n == 0 then "" else Spelled(named[..n]) + "|") + Upper(DefAt(named[n]).name)
  }

  /** The names of the feeds, and what is left of the mask as a hexadecimal word. */
  ghost function Naming(v: Mask, named: seq<nat>): string {
    var rest := v - After(named, 0);
    if v == {} then "NONE"
    else if rest == {} then Spelled(named)
    else if named == [] then HexWord(rest)
    else Spelled(named) + "|" + HexWord(rest)
  }

  /** Nothing that has a name is left for the hexadecimal word. */
  lemma NamedIfPossible(v: Mask, named: seq<nat>, i: nat)
    requires Greedy(v, named, 0) && 0 < i < 39
    ensures !(FeedBits(i) <= v - After(named, 0))
  {
    hide FeedBits;
    FeedHasBits(i);
    var b :| b in FeedBits(i);
    assert i in named ==> b in After(named, 0);
    assert After(named, i) <= After(named, 0);
  }

  lemma SpelledMore(named: seq<nat>, i: nat)
    ensures Spelled(named + [i]) == (if named == [] then "" else Spelled(named) + "|") + Upper(DefAt(i).name)
  {
    assert (named + [i])[..|named|] == named;
  }

  /** Name the feeds of a mask, largest groups first, and what has no name in hexadecimal. */
  method ToString(v: Mask) returns (s: string, ghost e: Ex, ghost named: seq<nat>)
    ensures Known(e) && ValueOf(e) == v && s == Text(Print(e)) && Parsed(s) == Value(v)
    ensures Greedy(v, named, 0) && s == Naming(v, named)
  {
    hide DefAt, Meaning, Text, Print, BitsFrom, Parsed, Greedy, After, Spelled, HexWord;
    NoneRead();
    PrintWord("NONE");
    TextOne(Name("NONE"));
    ParsesPrinted(Word("NONE"));
    named := [];
    NamedNone(v);
    AnyAt();
    if v == {} {
      NameNoMore(v, [], 38);
      return "NONE", Word("NONE"), [];
    }
    s := "";
    ghost var acc: Option<Ex> := None;
    var remaining := v;
    var idx: int := FindAny();
    while remaining != {} && idx >= 0 && DefAt(idx).value != 0
      invariant 0 <= idx < 39 && (acc.Some? ==> Known(acc.value)) && s == Shown(acc) && Found(acc) + remaining == v
      invariant Greedy(v, named, idx) && remaining == v - After(named, idx) && s == Spelled(named)
      invariant named == [] <==> s == ""
      decreases idx
    {
      var m := Bits(DefAt(idx).value);
      if m <= remaining {
        NameRead(idx);
        var name := Upper(DefAt(idx).name);
        JoinedShown(acc, name);
        if s != "" { s := s + "|"; }
        s := s + name;
        acc := Joined(acc, name);
        remaining := remaining - m;
        NameOne(v, named, idx);
        SpelledMore(named, idx);
        named := named + [idx];
      } else {
        NameNone(v, named, idx);
      }
      idx := idx - 1;
    }
    if remaining == {} { NameNoMore(v, named, idx); } else if idx > 0 { ValueRange(idx); }
    if remaining != {} {
      HexWordRead(remaining);
      JoinedShown(acc, HexWord(remaining));
      s := if s == "" then HexWord(remaining) else s + "|" + HexWord(remaining);
      acc := Joined(acc, HexWord(remaining));
    }
    e := acc.value;
    ParsesPrinted(e);
  }

  /** The place in the table where the search for names starts. */
  method FindAny() returns (idx: nat)
    ensures idx == 38
  {
    AnyAt();
    hide DefAt;
    idx := 0;
    while idx < NDEFS && DefAt(idx).value != ANY
      invariant idx <= 38
    {
      idx := idx + 1;
    }
    if 0 < idx { ValueRange(idx); }
  }

  lemma AnyAt()
    ensures DefAt(38).value == ANY && DefAt(0).value == 0
  {
  }

  /** Parsing what was printed gives the mask back, for every mask. */
  method PrintThenParse(v: Mask) returns (r: Outcome)
    ensures r == Value(v)
  {
    hide Parsed;
    ghost var e;
    var s;
    ghost var named;
    s, e, named := ToString(v);
    r := Parse(s);
  }

  // ---------------------------------------------------------------------
  // When the parser does not return
  // ---------------------------------------------------------------------

  /**
   One scan of the tokens, with an operand due next.  `under` says that an operand of `-` is being read, here or outside
   an open parenthesis; `base` says so of what is outside the innermost one, and `outer` of those around it.
   */
  predicate LoopsAtOperand(t: seq<Token>, under: bool, base: bool, outer: seq<bool>)
    decreases |t|, 0
  {
    if t == [] then false
    else
      match t[0]
      case Name(s) =>
        if s == "" then false
        else if Meaning(s).Some? then LoopsAtOperator(t[1..], base, outer)
        else under && |t| > 1 && t[1] == Diff
      case Complement => LoopsAtOperand(t[1..], under, base, outer)
      case LP => LoopsAtOperand(t[1..], under, under, [base] + outer)
      case Diff => under
      case _ => false
  }

  /** The same after an operand. */
  predicate LoopsAtOperator(t: seq<Token>, base: bool, outer: seq<bool>)
    decreases |t|, 0
  {
    if t == [] then false
    else
      match t[0]
      case Diff => LoopsAtOperand(t[1..], true, base, outer)
      case Union => LoopsAtOperand(t[1..], base, base, outer)
      case RP => outer != [] && LoopsAtOperator(t[1..], outer[0], outer[1..])
      case _ => false
  }

  /** How a parse that starts at an operand compares with the scan. */
  ghost predicate Tells(t: seq<Token>, r: State, under: bool, base: bool, outer: seq<bool>) {
    LoopsAtOperand(t, under, base, outer) ==
    if r.stuck then true else if r.err != Ok then under && Ahead(r, Diff) else LoopsAtOperator(r.t, base, outer)
  }

  /** The same for a loop over operators. */
  ghost predicate Told(t: seq<Token>, r: State, base: bool, outer: seq<bool>) {
    LoopsAtOperator(t, base, outer) ==
    if r.stuck then true else if r.err != Ok then base && Ahead(r, Diff) else LoopsAtOperator(r.t, base, outer)
  }

  lemma {:induction false} PrimaryTells(t: seq<Token>, under: bool, base: bool, outer: seq<bool>)
    ensures Tells(t, Primary(Good(t)).1, under, base, outer)
    decreases |t|, 0
  {
    hide Meaning, Expr;
    if t == [] { return; }
    match t[0]
    case Name(s) =>
      EmptyUnknown();
    case Complement =>
      PrimaryTells(t[1..], under, base, outer);
    case LP =>
      ExprTells(t[1..], under, [base] + outer);
      assert ([base] + outer)[1..] == outer;
    case _ =>
  }

  lemma {:induction false} TermTells(t: seq<Token>, under: bool, base: bool, outer: seq<bool>)
    ensures Tells(t, Term(Good(t)).1, under, base, outer)
    ensures var r := Term(Good(t)).1; !r.stuck && r.err == Ok ==> !Ahead(r, Diff)
    decreases |t|, 2
  {
    hide Primary, LoopsAtOperand, LoopsAtOperator;
    PrimaryTells(t, under, base, outer);
    var l := Primary(Good(t));
    if !l.1.stuck && l.1.err == Ok {
      assert l.1 == Good(l.1.t);
      TermLoopTells(l.0, l.1.t, base, outer);
    }
  }

  lemma {:induction false} TermLoopTells(left: Mask, t: seq<Token>, base: bool, outer: seq<bool>)
    ensures Told(t, TermLoop(left, Good(t)).1, base, outer)
    ensures var r := TermLoop(left, Good(t)).1; !r.stuck ==> !Ahead(r, Diff)
    decreases |t|, 1
  {
    hide Primary, LoopsAtOperand;
    if Ahead(Good(t), Diff) {
      PrimaryTells(t[1..], true, base, outer);
      var r := Primary(Good(t[1..]));
      if !r.1.stuck && r.1.err == Ok {
        assert r.1 == Good(r.1.t);
        TermLoopTells(left - r.0, r.1.t, base, outer);
      }
    }
  }

  lemma {:induction false} ExprTells(t: seq<Token>, base: bool, outer: seq<bool>)
    ensures Tells(t, Expr(Good(t)).1, base, base, outer)
    ensures var r := Expr(Good(t)).1; !r.stuck && r.err == Ok ==> !Ahead(r, Diff) && !Ahead(r, Union)
    decreases |t|, 4
  {
    hide Term, LoopsAtOperand, LoopsAtOperator;
    TermTells(t, base, base, outer);
    var l := Term(Good(t));
    if !l.1.stuck && l.1.err == Ok {
      assert l.1 == Good(l.1.t);
      ExprLoopTells(l.0, l.1.t, base, outer);
    }
  }

  lemma {:induction false} ExprLoopTells(left: Mask, t: seq<Token>, base: bool, outer: seq<bool>)
    requires !Ahead(Good(t), Diff)
    ensures Told(t, ExprLoop(left, Good(t)).1, base, outer)
    ensures var r := ExprLoop(left, Good(t)).1; !r.stuck && r.err == Ok ==> !Ahead(r, Diff) && !Ahead(r, Union)
    decreases |t|, 3
  {
    hide Term, LoopsAtOperand;
    if Ahead(Good(t), Union) {
      TermTells(t[1..], base, base, outer);
      var r := Term(Good(t[1..]));
      if !r.1.stuck && r.1.err == Ok {
        assert r.1 == Good(r.1.t);
        ExprLoopTells(left + r.0, r.1.t, base, outer);
      }
    }
  }

  /** The parser fails to return exactly when the scan finds an operand of `-` that fails with `-` ahead. */
  lemma DivergesExactly(text: string)
    ensures Parsed(text) == Diverges <==> LoopsAtOperand(Lex(text), false, false, [])
  {
    hide Expr, LoopsAtOperand, Meaning;
    ExprTells(Lex(text), false, []);
    if text == [] { NothingToScan(); }
  }

  lemma NothingToScan()
    ensures !LoopsAtOperand([], false, false, [])
  {
  }

  lemma EmptyUnknown()
    ensures Meaning("").None?
  {
    hide DefAt, LastDef;
    LastDefName("", NDEFS);
    assert Lower("") == "" && IndexOf(Mark("")) == -1;
    if LastDef("", NDEFS) >= 0 { Marked(LastDef("", NDEFS)); }
  }

  lemma LoopExample()
    ensures Parsed("ANY-FOO-EXP") == Diverges
  {
    hide Expr, Meaning, Lex;
    var t := [Name("ANY"), Diff, Name("FOO"), Diff] + [Name("EXP")];
    ExampleText(t);
    AnyIsKnown();
    FooIsUnknown();
    assert t[1..] == [Diff, Name("FOO"), Diff, Name("EXP")] && t[1..][1..] == [Name("FOO"), Diff, Name("EXP")];
    DivergesExactly("ANY-FOO-EXP");
  }

  lemma ExampleText(t: seq<Token>)
    requires t == [Name("ANY"), Diff, Name("FOO"), Diff, Name("EXP")]
    ensures Lex("ANY-FOO-EXP") == t
  {
    TextJoin([Name("ANY"), Diff, Name("FOO"), Diff], [Name("EXP")]);
    TextJoin([Name("ANY"), Diff, Name("FOO")], [Diff]);
    TextJoin([Name("ANY"), Diff], [Name("FOO")]);
    TextJoin([Name("ANY")], [Diff]);
    TextOne(Name("ANY"));
    TextOne(Diff);
    TextOne(Name("FOO"));
    TextOne(Name("EXP"));
    assert t == [Name("ANY"), Diff, Name("FOO"), Diff] + [Name("EXP")];
    assert [Name("ANY"), Diff, Name("FOO"), Diff] == [Name("ANY"), Diff, Name("FOO")] + [Diff];
    assert [Name("ANY"), Diff, Name("FOO")] == [Name("ANY"), Diff] + [Name("FOO")];
    assert [Name("ANY"), Diff] == [Name("ANY")] + [Diff];
    assert Text(t) == "ANY-FOO-EXP";
    LexText(t);
  }

  lemma AnyIsKnown()
    ensures Meaning("ANY").Some?
  {
    hide DefAt, Meaning;
    AnyIsLast();
    NameRead(38);
  }

  lemma AnyIsLast()
    ensures Upper(DefAt(38).name) == "ANY"
  {
    assert DefAt(38).name == "any";
  }

  lemma FooIsUnknown()
    ensures Meaning("FOO").None?
  {
    hide DefAt, LastDef;
    var s := "foo";
    assert Lower("FOO") == s;
    LastDefName(s, NDEFS);
    assert IndexOf(Mark(s)) == -1;
    if LastDef(s, NDEFS) >= 0 { Marked(LastDef(s, NDEFS)); }
    assert InBase(s, 10) == None;
  }

  // ---------------------------------------------------------------------
  // The parser's code
  // ---------------------------------------------------------------------

  lemma LexEnds(text: string, i: nat)
    requires i <= |text| && (i < |text| ==> text[i] == '\0')
    ensures Lex(text[i..]) == []
  {
    assert i < |text| ==> text[i..][0] == text[i];
  }

  lemma LexSkips(text: string, i: nat)
    requires i < |text| && IsSpace(text[i])
    ensures Lex(text[i..]) == Lex(text[i + 1..])
  {
    assert text[i..][1..] == text[i + 1..] && text[i..][0] == text[i];
  }

  lemma LexPunctuation(text: string, i: nat)
    requires i < |text| && Punctuation(text[i]).Some?
    ensures Lex(text[i..]) == [Punctuation(text[i]).value] + Lex(text[i + 1..])
  {
    assert text[i..][1..] == text[i + 1..] && text[i..][0] == text[i];
  }

  lemma LexWord(text: string, i: nat, j: nat)
    requires i <= j <= |text| && i < |text| && !IsSpace(text[i]) && text[i] != '\0' && Punctuation(text[i]).None?
    requires (forall k :: i <= k < j ==> IsAlnum(text[k])) && (j < |text| ==> !IsAlnum(text[j]))
    ensures Lex(text[i..]) == if i == j then [Name("")] else [Name(text[i..j])] + Lex(text[j..])
  {
    var s := text[i..];
    var n := Run(s);
    assert forall k :: 0 <= k < |s| ==> s[k] == text[i + k];
    assert j < |text| ==> s[j - i] == text[j];
    assert s[..n] == text[i..j] && s[n..] == text[j..] && s[0] == text[i];
  }

  class ParseState {
    const text: string
    var err: Error
    /** None at the end of the text. */
    var tok: Option<Token>
    var cp: nat
    /** Set where the program would not return. */
    var stuck: bool

    constructor (s: string)
      ensures text == s && err == Ok && tok == None && cp == 0 && !stuck
    {
      text, err, tok, cp, stuck := s, Ok, None, 0, false;
    }

    ghost predicate Valid()
      reads this
    {
      && cp <= |text|
      && (tok == None ==> Lex(text[cp..]) == [])
      && (tok == Some(Name("")) ==> Lex(text[cp..]) == [Name("")])
    }

    ghost function View(): State
      requires Valid()
      reads this
    {
      State(if tok == None then [] else if tok.value == Name("") then [Name("")]
            else [tok.value] + Lex(text[cp..]), err, stuck)
    }

    /** Read the next token. */
    method Scan()
      requires cp <= |text|
      modifies this`cp, this`tok
      ensures Valid() && View() == State(Lex(old(text[cp..])), err, stuck)
    {
      hide Lex;
      while cp < |text| && IsSpace(text[cp])
        invariant cp <= |text| && Lex(text[cp..]) == Lex(old(text[cp..]))
      {
        LexSkips(text, cp);
        cp := cp + 1;
      }
      if cp == |text| || text[cp] == '\0' {
        LexEnds(text, cp);
        tok := None;
        return;
      }
      var k := Punctuation(text[cp]);
      if k.Some? {
        LexPunctuation(text, cp);
        tok := k;
        cp := cp + 1;
      } else {
        ReadName();
      }
    }

    method ReadName()
      requires cp < |text| && !IsSpace(text[cp]) && text[cp] != '\0' && Punctuation(text[cp]).None?
      modifies this`cp, this`tok
      ensures Valid() && View() == State(Lex(old(text[cp..])), err, stuck)
    {
      hide Lex;
      ghost var from := cp;
      var name := "";
      while cp < |text| && IsAlnum(text[cp])
        invariant from <= cp <= |text| && name == text[from..cp] && forall k :: from <= k < cp ==> IsAlnum(text[k])
      {
        name := name + [text[cp]];
        cp := cp + 1;
      }
      LexWord(text, from, cp);
      tok := Some(Name(name));
    }

    method AdvanceToken()
      requires Valid() && tok != None
      modifies this`cp, this`tok
      ensures Valid() && View() == Advance(old(View()))
    {
      hide Lex;
      if err != Ok { return; }
      Scan();
    }

    method ParsePrimary() returns (v: Mask)
      requires Valid()
      modifies this
      ensures Valid() && (v, View()) == Primary(old(View()))
      decreases |View().t|, 0
    {
      hide Lex, Meaning;
      v := {};
      if err != Ok { return; }
      if tok == None {
        err := BadSyntax;
        return;
      }
      match tok.value
      case Name(s) =>
        AdvanceToken();
        var m := Meaning(s);
        if m.Some? { return m.value; }
        err := UnknownFeed;
      case Complement =>
        AdvanceToken();
        v := ParsePrimary();
        v := Whole() - v;
      case LP =>
        AdvanceToken();
        v := ParseExpr();
        if stuck { return; }
        if tok != Some(RP) {
          err := MissingParen;
          return {};
        }
        AdvanceToken();
      case _ =>
        err := BadSyntax;
    }

    method ParseTerm() returns (left: Mask)
      requires Valid()
      modifies this
      ensures Valid() && (left, View()) == Term(old(View()))
      decreases |View().t|, 1
    {
      hide Lex, Primary;
      left := ParsePrimary();
      if stuck { return; }
      if err != Ok { return {}; }
      while true
        invariant Valid() && !stuck && |View().t| <= |old(View()).t| && TermLoop(left, View()) == Term(old(View()))
        decreases |View().t|
      {
        if tok != Some(Diff) { return; }
        if err != Ok {
          stuck := true;
          return {};
        }
        AdvanceToken();
        var v := ParsePrimary();
        if stuck { return v; }
        left := left - v;
      }
    }

    method ParseExpr() returns (left: Mask)
      requires Valid()
      modifies this
      ensures Valid() && (left, View()) == Expr(old(View()))
      decreases |View().t|, 2
    {
      hide Lex, Term;
      left := ParseTerm();
      if stuck { return; }
      if err != Ok { return {}; }
      while true
        invariant Valid() && !stuck && |View().t| <= |old(View()).t| && ExprLoop(left, View()) == Expr(old(View()))
        decreases |View().t|
      {
        if tok != Some(Union) { return; }
        AdvanceToken();
        if err != Ok { return {}; }
        var v := ParseTerm();
        if stuck { return v; }
        left := left + v;
      }
    }
  }

  /** Parse a feed-type expression. */
  method Parse(s: string) returns (r: Outcome)
    ensures r == Parsed(s)
  {
    hide Lex, Expr;
    if s == "" { return Fails(BadSyntax); }
    var ps := new ParseState(s);
    assert s[0..] == s;
    ps.Scan();
    var v := ps.ParseExpr();
    if ps.stuck { return Diverges; }
    if ps.err == Ok && ps.tok != None { ps.err := Garbage; }
    r := if ps.err == Ok then Value(v) else Fails(ps.err);
  }
}
