/** The streaming UTF-8 validator of src/github.com/gorilla/websocket/examples/autobahn/server.go
    against the grammar of section 4 of RFC 3629. */
module Utf8 {
  import opened Bytes

  // ----- Reference: RFC 3629 -----

  predicate IsTail(b: byte) {
    0x80 <= b <= 0xBF
  }

  /** The number of bytes of the character that begins `s`, by the grammar of
      section 4 of RFC 3629; 0 if none does. */
  function CharLength(s: seq<byte>): (n: nat)
    ensures n <= 4 && n <= |s|
  {
    if |s| >= 1 && s[0] <= 0x7F then 1
    else if |s| >= 2 && 0xC2 <= s[0] <= 0xDF && IsTail(s[1]) then 2
    else if |s| >= 3 && IsTail(s[2])
            && (|| (s[0] == 0xE0 && 0xA0 <= s[1] <= 0xBF)
                || (0xE1 <= s[0] <= 0xEC && IsTail(s[1]))
                || (s[0] == 0xED && 0x80 <= s[1] <= 0x9F)
                || (0xEE <= s[0] <= 0xEF && IsTail(s[1]))) then 3
    else if |s| >= 4 && IsTail(s[2]) && IsTail(s[3])
            && (|| (s[0] == 0xF0 && 0x90 <= s[1] <= 0xBF)
                || (0xF1 <= s[0] <= 0xF3 && IsTail(s[1]))
                || (s[0] == 0xF4 && 0x80 <= s[1] <= 0x8F)) then 4
    else 0
  }

  predicate WellFormed(s: seq<byte>)
  {
    s == [] || (CharLength(s) > 0 && WellFormed(s[CharLength(s)..]))
  }

  /** A Unicode scalar value: a code point that is not a surrogate. */
  predicate IsScalar(c: int) {
    0 <= c < 0xD800 || 0xDFFF < c <= 0x10FFFF
  }

  /** The encoding of a scalar value, by the table of section 3 of RFC 3629. */
  function EncodeScalar(c: int): (s: seq<byte>)
    requires IsScalar(c)
  {
    if c < 0x80 then [c]
    else if c < 0x800 then [0xC0 + c / 64, 0x80 + c % 64]
    else if c < 0x10000 then [0xE0 + c / 4096, 0x80 + c / 64 % 64, 0x80 + c % 64]
    else [0xF0 + c / 262144, 0x80 + c / 4096 % 64, 0x80 + c / 64 % 64, 0x80 + c % 64]
  }

  function EncodeScalars(cs: seq<int>): seq<byte>
    requires forall c :: c in cs ==> IsScalar(c)
  {
    if cs == [] then [] else EncodeScalar(cs[0]) + EncodeScalars(cs[1..])
  }

  /** The value a character's bytes stand for. */
  function ScalarOf(s: seq<byte>): int
    requires CharLength(s) > 0
  {
    var n := CharLength(s);
    var c0: int := s[0];
    if n == 1 then c0
    else
      var c1: int := s[1] - 0x80;
      if n == 2 then (c0 - 0xC0) * 64 + c1
      else
        var c2: int := s[2] - 0x80;
        if n == 3 then (c0 - 0xE0) * 4096 + c1 * 64 + c2
        else (c0 - 0xF0) * 262144 + c1 * 4096 + c2 * 64 + (s[3] - 0x80)
  }

  lemma Digits(h: nat, k: nat, m: nat, l: nat, c: nat)
    requires k < 64 && m < 64 && l < 64
    requires c == h * 262144 + k * 4096 + m * 64 + l
    ensures c % 64 == l && c / 64 == h * 4096 + k * 64 + m
    ensures c / 64 % 64 == m && c / 4096 == h * 64 + k
    ensures c / 4096 % 64 == k && c / 262144 == h
  {
    var a := h * 4096 + k * 64 + m;
    var b := h * 64 + k;
    LowDigit(a, l, c);
    LowDigit(b, m, a);
    LowDigit(h, k, b);
    DivTwice(c, 64);
    DivTwice(c, 4096);
  }

  lemma LowDigit(high: nat, low: nat, x: nat)
    requires low < 64 && x == high * 64 + low
    ensures x % 64 == low && x / 64 == high
  {
  }

  lemma DivTwice(x: nat, d: nat)
    requires d == 64 || d == 4096
    ensures x / d / 64 == x / (d * 64)
  {
  }

  /** The grammar accepts exactly the encodings of scalar values, one character
      at a time: no overlong forms, no surrogates, nothing past U+10FFFF. */
  lemma CharIsEncoding(s: seq<byte>)
    requires CharLength(s) > 0
    ensures IsScalar(ScalarOf(s)) && EncodeScalar(ScalarOf(s)) == s[..CharLength(s)]
  {
    var n := CharLength(s);
    if n == 2 {
      EncodeTwo(s[0] - 0xC0, s[1] - 0x80);
      assert s[..2] == [s[0], s[1]];
    } else if n == 3 {
      EncodeThree(s[0] - 0xE0, s[1] - 0x80, s[2] - 0x80);
      assert s[..3] == [s[0], s[1], s[2]];
    } else if n == 4 {
      hide EncodeScalar;
      EncodeFour(s[0] - 0xF0, s[1] - 0x80, s[2] - 0x80, s[3] - 0x80);
      assert s[..4] == [s[0], s[1], s[2], s[3]];
    }
  }

  lemma EncodeTwo(m: nat, l: nat)
    requires 2 <= m < 32 && l < 64
    ensures IsScalar(m * 64 + l) && EncodeScalar(m * 64 + l) == [0xC0 + m, 0x80 + l]
  {
    Digits(0, 0, m, l, m * 64 + l);
  }

  lemma EncodeThree(k: nat, m: nat, l: nat)
    requires k < 16 && m < 64 && l < 64 && (k == 0 ==> m >= 32) && (k == 13 ==> m < 32)
    ensures var c := k * 4096 + m * 64 + l; IsScalar(c) && EncodeScalar(c) == [0xE0 + k, 0x80 + m, 0x80 + l]
  {
    Digits(0, k, m, l, k * 4096 + m * 64 + l);
  }

  lemma EncodeFour(h: nat, k: nat, m: nat, l: nat)
    requires h <= 4 && k < 64 && m < 64 && l < 64 && (h == 0 ==> k >= 16) && (h == 4 ==> k < 16)
    ensures var c := h * 262144 + k * 4096 + m * 64 + l;
      IsScalar(c) && EncodeScalar(c) == [0xF0 + h, 0x80 + k, 0x80 + m, 0x80 + l]
  {
    Digits(h, k, m, l, h * 262144 + k * 4096 + m * 64 + l);
  }

  lemma EncodingIsChar(c: int, rest: seq<byte>)
    requires IsScalar(c)
    ensures CharLength(EncodeScalar(c) + rest) == |EncodeScalar(c)|
    ensures ScalarOf(EncodeScalar(c) + rest) == c
  {
    var h, k, m, l := c / 262144, c / 4096 % 64, c / 64 % 64, c % 64;
    assert c / 4096 / 64 == h && c / 64 / 64 == c / 4096;
    assert c == h * 262144 + k * 4096 + m * 64 + l;
    var e := EncodeScalar(c);
    var s := e + rest;
    if c < 0x80 {
    } else if c < 0x800 {
      EncodedTwo(c / 64, l, rest);
    } else if c < 0x10000 {
      assert c / 4096 == k;
      EncodedThree(k, m, l, rest);
    } else {
      EncodedFour(h, k, m, l, rest);
    }
  }

  lemma EncodedTwo(m: nat, l: nat, rest: seq<byte>)
    requires 2 <= m < 32 && l < 64
    ensures CharLength([0xC0 + m, 0x80 + l] + rest) == 2
    ensures ScalarOf([0xC0 + m, 0x80 + l] + rest) == m * 64 + l
  {
  }

  lemma EncodedThree(k: nat, m: nat, l: nat, rest: seq<byte>)
    requires k < 16 && m < 64 && l < 64 && (k == 0 ==> m >= 32) && (k == 13 ==> m < 32)
    ensures CharLength([0xE0 + k, 0x80 + m, 0x80 + l] + rest) == 3
    ensures ScalarOf([0xE0 + k, 0x80 + m, 0x80 + l] + rest) == k * 4096 + m * 64 + l
  {
  }

  lemma EncodedFour(h: nat, k: nat, m: nat, l: nat, rest: seq<byte>)
    requires h <= 4 && k < 64 && m < 64 && l < 64 && (h == 0 ==> k >= 16) && (h == 4 ==> k < 16)
    ensures CharLength([0xF0 + h, 0x80 + k, 0x80 + m, 0x80 + l] + rest) == 4
    ensures ScalarOf([0xF0 + h, 0x80 + k, 0x80 + m, 0x80 + l] + rest) == h * 262144 + k * 4096 + m * 64 + l
  {
  }

  lemma {:induction false} EncodingsAreWellFormed(cs: seq<int>)
    requires forall c :: c in cs ==> IsScalar(c)
    ensures WellFormed(EncodeScalars(cs))
  {
    if cs != [] {
      EncodingIsChar(cs[0], EncodeScalars(cs[1..]));
      EncodingsAreWellFormed(cs[1..]);
      var s := EncodeScalars(cs);
      assert s[CharLength(s)..] == EncodeScalars(cs[1..]);
    }
  }

  lemma EncodeMore(c: int, tail: seq<int>)
    requires IsScalar(c) && forall d :: d in tail ==> IsScalar(d)
    ensures forall d :: d in [c] + tail ==> IsScalar(d)
    ensures EncodeScalars([c] + tail) == EncodeScalar(c) + EncodeScalars(tail)
  {
    hide IsScalar, EncodeScalar;
    assert ([c] + tail)[1..] == tail;
  }

  /** Well-formed strings are exactly the encodings of scalar sequences. */
  lemma {:induction false} WellFormedIsEncoding(s: seq<byte>) returns (cs: seq<int>)
    requires WellFormed(s)
    ensures (forall c :: c in cs ==> IsScalar(c)) && EncodeScalars(cs) == s
  {
    hide *;
    if s == [] {
      cs := [];
      EncodeNone();
    } else {
      FirstChar(s);
      var n := CharLength(s);
      var tail := WellFormedIsEncoding(s[n..]);
      CharIsEncoding(s);
      EncodeMore(ScalarOf(s), tail);
      cs := [ScalarOf(s)] + tail;
      assert s == s[..n] + s[n..];
    }
  }

  lemma EncodeNone()
    ensures EncodeScalars([]) == []
  {
  }

  lemma FirstChar(s: seq<byte>)
    requires WellFormed(s) && s != []
    ensures 0 < CharLength(s) <= |s| && WellFormed(s[CharLength(s)..])
  {
  }

  // ----- The table-driven automaton -----

  const ACCEPT := 0
  const REJECT := 1

  /** The rows of the source's `utf8d`, sixteen entries each: sixteen rows
      mapping bytes to character classes, then one row per state. */
  const UTF8D: seq<seq<nat>> := [
    [0, 0, 0, 0, 0, 0, 0, 0, 0, 0, 0, 0, 0, 0, 0, 0],
    [0, 0, 0, 0, 0, 0, 0, 0, 0, 0, 0, 0, 0, 0, 0, 0],
    [0, 0, 0, 0, 0, 0, 0, 0, 0, 0, 0, 0, 0, 0, 0, 0],
    [0, 0, 0, 0, 0, 0, 0, 0, 0, 0, 0, 0, 0, 0, 0, 0],
    [0, 0, 0, 0, 0, 0, 0, 0, 0, 0, 0, 0, 0, 0, 0, 0],
    [0, 0, 0, 0, 0, 0, 0, 0, 0, 0, 0, 0, 0, 0, 0, 0],
    [0, 0, 0, 0, 0, 0, 0, 0, 0, 0, 0, 0, 0, 0, 0, 0],
    [0, 0, 0, 0, 0, 0, 0, 0, 0, 0, 0, 0, 0, 0, 0, 0],
    [1, 1, 1, 1, 1, 1, 1, 1, 1, 1, 1, 1, 1, 1, 1, 1],
    [9, 9, 9, 9, 9, 9, 9, 9, 9, 9, 9, 9, 9, 9, 9, 9],
    [7, 7, 7, 7, 7, 7, 7, 7, 7, 7, 7, 7, 7, 7, 7, 7],
    [7, 7, 7, 7, 7, 7, 7, 7, 7, 7, 7, 7, 7, 7, 7, 7],
    [8, 8, 2, 2, 2, 2, 2, 2, 2, 2, 2, 2, 2, 2, 2, 2],
    [2, 2, 2, 2, 2, 2, 2, 2, 2, 2, 2, 2, 2, 2, 2, 2],
    [10, 3, 3, 3, 3, 3, 3, 3, 3, 3, 3, 3, 3, 4, 3, 3],
    [11, 6, 6, 6, 5, 8, 8, 8, 8, 8, 8, 8, 8, 8, 8, 8],
    [0, 1, 2, 3, 5, 8, 7, 1, 1, 1, 4, 6, 1, 1, 1, 1],
    [1, 1, 1, 1, 1, 1, 1, 1, 1, 1, 1, 1, 1, 1, 1, 1],
    [1, 0, 1, 1, 1, 1, 1, 0, 1, 0, 1, 1, 1, 1, 1, 1],
    [1, 2, 1, 1, 1, 1, 1, 2, 1, 2, 1, 1, 1, 1, 1, 1],
    [1, 1, 1, 1, 1, 1, 1, 2, 1, 1, 1, 1, 1, 1, 1, 1],
    [1, 2, 1, 1, 1, 1, 1, 1, 1, 2, 1, 1, 1, 1, 1, 1],
    [1, 1, 1, 1, 1, 1, 1, 3, 1, 3, 1, 1, 1, 1, 1, 1],
    [1, 3, 1, 1, 1, 1, 1, 3, 1, 3, 1, 1, 1, 1, 1, 1],
    [1, 3, 1, 1, 1, 1, 1, 1, 1, 1, 1, 1, 1, 1, 1, 1]
  ]

  function Utf8d(i: nat): nat
    requires i < 400
  {
    UTF8D[i / 16][i % 16]
  }

  /** A 32-bit two's complement value. */
  function Int32(x: int): (r: int)
    ensures -0x8000_0000 <= r < 0x8000_0000
    ensures -0x8000_0000 <= x < 0x8000_0000 ==> r == x
  {
    (x + 0x8000_0000) % 0x1_0000_0000 - 0x8000_0000
  }

  function ShiftedMask(t: nat): nat
    requires t < 12
  {
    [256, 128, 64, 32, 16, 8, 4, 2, 1, 1, 1, 1][t]
  }

  /** What the sixteen class rows say about each byte. */
  function ByteClass(b: byte): nat
  {
    if b < 0x80 then 0 else if b < 0x90 then 1 else if b < 0xA0 then 9 else if b < 0xC0 then 7
    else if b < 0xC2 then 8 else if b < 0xE0 then 2 else if b == 0xE0 then 10
    else if b < 0xED then 3 else if b == 0xED then 4 else if b < 0xF0 then 3
    else if b == 0xF0 then 11 else if b < 0xF4 then 6 else if b == 0xF4 then 5 else 8
  }

  lemma LowRows(b: byte)
    requires b < 0x80
    ensures |UTF8D[b / 16]| == 16 && Utf8d(b) == 0
  {
    match b / 16
    case 0 => case 1 => case 2 => case 3 => case 4 => case 5 => case 6 => case 7 =>
  }

  lemma HighRows(b: byte)
    requires b >= 0x80
    ensures |UTF8D[b / 16]| == 16 && Utf8d(b) == ByteClass(b)
  {
    match b / 16
    case 8 => case 9 => case 10 => case 11 => case 12 => case 13 => case 14 => case 15 =>
  }

  lemma TableClass(b: byte)
    ensures |UTF8D[b / 16]| == 16 && Utf8d(b) == ByteClass(b)
  {
    if b < 0x80 {
      LowRows(b);
    } else {
      HighRows(b);
    }
  }

  /** What the state rows say, as byte ranges. */
  function NextState(state: nat, b: byte): nat
  {
    match state
    case 0 =>
      if b < 0x80 then 0 else if b < 0xC2 then 1 else if b < 0xE0 then 2
      else if b == 0xE0 then 4 else if b == 0xED then 5 else if b < 0xF0 then 3
      else if b == 0xF0 then 6 else if b < 0xF4 then 7 else if b == 0xF4 then 8 else 1
    case 2 => if IsTail(b) then 0 else 1
    case 3 => if IsTail(b) then 2 else 1
    case 4 => if 0xA0 <= b <= 0xBF then 2 else 1
    case 5 => if 0x80 <= b <= 0x9F then 2 else 1
    case 6 => if 0x90 <= b <= 0xBF then 3 else 1
    case 7 => if IsTail(b) then 3 else 1
    case 8 => if 0x80 <= b <= 0x8F then 3 else 1
    case _ => 1
  }

  lemma TableRow(state: nat, b: byte)
    requires state <= 8
    ensures |UTF8D| == 25 && |UTF8D[16 + state]| == 16
    ensures Utf8d(b) < 12
    ensures Utf8d(256 + state * 16 + Utf8d(b)) == NextState(state, b)
  {
    TableClass(b);
    var t := ByteClass(b);
    assert (256 + state * 16 + t) / 16 == 16 + state && (256 + state * 16 + t) % 16 == t;
    match state
    case 0 => case 1 => case 2 => case 3 => case 4 => case 5 => case 6 => case 7 => case 8 =>
  }

  /** What one step of the table means: the next state by byte range, and the
      scalar so far with the payload bits of one more byte. */
  function Step(state: nat, x: int, b: byte): (r: (nat, int))
    requires state <= 8
    ensures r.0 <= 8
  {
    (NextState(state, b), if state != ACCEPT then Int32(x * 64) + b % 64 else b % ShiftedMask(ByteClass(b)))
  }

  /** One step of the automaton, read off the table: `b & (0xff >> t)` is `b`
      modulo a power of two, and the shifted rune has its six low bits clear. */
  function Decode(state: nat, x: int, b: byte): (r: (nat, int))
    requires state <= 8
    ensures r == Step(state, x, b)
  {
    TableClass(b);
    TableRow(state, b);
    var t := Utf8d(b);
    var x' := if state != ACCEPT then Int32(x * 64) + b % 64 else b % ShiftedMask(t);
    (Utf8d(256 + state * 16 + t), x')
  }

  /** The automaton folded over a byte string. */
  function Run(state: nat, x: int, s: seq<byte>): (r: (nat, int))
    requires state <= 8
    ensures r.0 <= 8
    decreases |s|
  {
    if s == [] then (state, x) else Run(Step(state, x, s[0]).0, Step(state, x, s[0]).1, s[1..])
  }

  // ----- The automaton accepts the grammar -----

  /** What must follow in state `state`: the rest of the character begun, then
      more characters. */
  predicate Completes(state: nat, s: seq<byte>)
    requires state <= 8
    decreases |s|
  {
    if state == ACCEPT then WellFormed(s)
    else s != [] && NextState(state, s[0]) != REJECT && Completes(NextState(state, s[0]), s[1..])
  }

  lemma OneTail(s: seq<byte>)
    ensures Completes(2, s) <==> |s| >= 1 && IsTail(s[0]) && WellFormed(s[1..])
  {
  }

  lemma TwoTails(s: seq<byte>)
    ensures Completes(3, s) <==> |s| >= 2 && IsTail(s[0]) && IsTail(s[1]) && WellFormed(s[2..])
    ensures Completes(4, s) <==> |s| >= 2 && 0xA0 <= s[0] <= 0xBF && IsTail(s[1]) && WellFormed(s[2..])
    ensures Completes(5, s) <==> |s| >= 2 && 0x80 <= s[0] <= 0x9F && IsTail(s[1]) && WellFormed(s[2..])
  {
    if s != [] {
      OneTail(s[1..]);
      if |s| >= 2 {
        assert s[1..][1..] == s[2..];
      }
    }
  }

  lemma ThreeTails(s: seq<byte>)
    ensures Completes(6, s) <==> |s| >= 3 && 0x90 <= s[0] <= 0xBF && IsTail(s[1]) && IsTail(s[2]) && WellFormed(s[3..])
    ensures Completes(7, s) <==> |s| >= 3 && IsTail(s[0]) && IsTail(s[1]) && IsTail(s[2]) && WellFormed(s[3..])
    ensures Completes(8, s) <==> |s| >= 3 && 0x80 <= s[0] <= 0x8F && IsTail(s[1]) && IsTail(s[2]) && WellFormed(s[3..])
  {
    if s != [] {
      TwoTails(s[1..]);
      if |s| >= 3 {
        assert s[1..][2..] == s[3..];
      }
    }
  }

  /** Reading the first byte of a character leaves exactly its tails to come. */
  lemma WellFormedHead(s: seq<byte>)
    requires s != []
    ensures NextState(0, s[0]) <= 8
    ensures WellFormed(s) <==> NextState(0, s[0]) != REJECT && Completes(NextState(0, s[0]), s[1..])
  {
    var t := s[1..];
    OneTail(t);
    TwoTails(t);
    ThreeTails(t);
    if |s| >= 2 {
      assert t[1..] == s[2..];
      if |s| >= 3 {
        assert t[2..] == s[3..];
        if |s| >= 4 {
          assert t[3..] == s[4..];
        }
      }
    }
  }

  /** Once rejected, always rejected. */
  lemma {:induction false} RejectAbsorbs(x: int, s: seq<byte>)
    ensures Run(REJECT, x, s).0 == REJECT
    decreases |s|
  {
    if s != [] {
      RejectAbsorbs(Step(REJECT, x, s[0]).1, s[1..]);
    }
  }

  lemma {:induction false} RunAccepts(state: nat, x: int, s: seq<byte>)
    requires state <= 8
    ensures Run(state, x, s).0 == ACCEPT <==> Completes(state, s)
    decreases |s|
  {
    if s != [] {
      var d := Step(state, x, s[0]);
      if state == ACCEPT {
        WellFormedHead(s);
      }
      if d.0 == REJECT {
        RejectAbsorbs(d.1, s[1..]);
      } else {
        RunAccepts(d.0, d.1, s[1..]);
      }
    }
  }

  /** From the start, the automaton ends in the accepting state on exactly the
      strings the grammar derives. */
  lemma AcceptsWellFormed(x: int, s: seq<byte>)
    ensures Run(ACCEPT, x, s).0 == ACCEPT <==> WellFormed(s)
  {
    RunAccepts(ACCEPT, x, s);
  }

  lemma {:induction false} RunConcat(state: nat, x: int, s: seq<byte>, t: seq<byte>)
    requires state <= 8
    ensures Run(state, x, s + t) == Run(Run(state, x, s).0, Run(state, x, s).1, t)
    decreases |s|
  {
    if s == [] {
      assert s + t == t;
    } else {
      assert (s + t)[1..] == s[1..] + t;
      RunConcat(Step(state, x, s[0]).0, Step(state, x, s[0]).1, s[1..], t);
    }
  }

  lemma DecodeFirst(x: int, b: byte)
    ensures Step(ACCEPT, x, b).0 == NextState(ACCEPT, b)
    ensures b < 0x80 ==> Step(ACCEPT, x, b).1 == b
    ensures 0xC2 <= b <= 0xDF ==> Step(ACCEPT, x, b).1 == b - 0xC0
    ensures 0xE0 <= b <= 0xEF ==> Step(ACCEPT, x, b).1 == b - 0xE0
    ensures 0xF0 <= b <= 0xF4 ==> Step(ACCEPT, x, b).1 == b - 0xF0
  {
  }

  /** A continuation byte extends the partial scalar by six bits. */
  lemma RunTail(state: nat, x: int, s: seq<byte>, b: byte)
    requires state <= 8 && IsTail(b)
    requires Run(state, x, s).0 != ACCEPT && 0 <= Run(state, x, s).1 < 0x8000
    ensures Run(state, x, s + [b]) == (NextState(Run(state, x, s).0, b), Run(state, x, s).1 * 64 + (b - 0x80))
  {
    var r := Run(state, x, s);
    RunConcat(state, x, s, [b]);
    assert Run(r.0, r.1, [b]) == Step(r.0, r.1, b);
    assert b % 64 == b - 0x80;
  }

  /** At the end of each character the partial scalar is the character's value,
      whatever it was before. */
  lemma AcceptedScalar(x: int, s: seq<byte>)
    requires CharLength(s) > 0
    ensures Run(ACCEPT, x, s[..CharLength(s)]) == (ACCEPT, ScalarOf(s))
  {
    var n := CharLength(s);
    DecodeFirst(x, s[0]);
    assert s[..1] == [s[0]];
    assert Run(ACCEPT, x, [s[0]]) == Step(ACCEPT, x, s[0]);
    if n >= 2 {
      RunTail(ACCEPT, x, s[..1], s[1]);
      assert s[..2] == s[..1] + [s[1]];
    }
    if n >= 3 {
      RunTail(ACCEPT, x, s[..2], s[2]);
      assert s[..3] == s[..2] + [s[2]];
    }
    if n >= 4 {
      RunTail(ACCEPT, x, s[..3], s[3]);
      assert s[..4] == s[..3] + [s[3]];
    }
  }

  /** Whenever the automaton accepts, which is after the encoding of a sequence of
      scalar values, its partial scalar is the last of them. */
  lemma {:induction false} LastScalar(x: int, cs: seq<int>)
    requires cs != [] && forall c :: c in cs ==> IsScalar(c)
    ensures Run(ACCEPT, x, EncodeScalars(cs)) == (ACCEPT, cs[|cs| - 1])
    decreases |cs|
  {
    var e, rest := EncodeScalar(cs[0]), cs[1..];
    FirstScalar(x, cs[0]);
    hide EncodeScalar, Step;
    RunConcat(ACCEPT, x, e, EncodeScalars(rest));
    if rest != [] {
      LastScalar(cs[0], rest);
    }
  }

  lemma FirstScalar(x: int, c: int)
    requires IsScalar(c)
    ensures Run(ACCEPT, x, EncodeScalar(c)) == (ACCEPT, c)
  {
    var e := EncodeScalar(c);
    hide *;
    EncodingIsChar(c, []);
    assert e + [] == e == e[..|e|];
    EncodedNotEmpty(c);
    AcceptedScalar(x, e);
  }

  lemma EncodedNotEmpty(c: int)
    requires IsScalar(c)
    ensures EncodeScalar(c) != []
  {
  }

  /** A byte string that some continuation makes well-formed. */
  ghost predicate Extendable(s: seq<byte>)
  {
    exists t :: WellFormed(s + t)
  }

  function Filler(state: nat): seq<byte>
    requires state <= 8
  {
    match state
    case 2 => [0x80]
    case 3 => [0x80, 0x80]
    case 4 => [0xA0, 0x80]
    case 5 => [0x80, 0x80]
    case 6 => [0x90, 0x80, 0x80]
    case 7 => [0x80, 0x80, 0x80]
    case 8 => [0x80, 0x80, 0x80]
    case _ => []
  }

  lemma FillerCompletes(state: nat)
    requires state <= 8 && state != REJECT
    ensures Completes(state, Filler(state))
  {
    OneTail(Filler(state));
    TwoTails(Filler(state));
    ThreeTails(Filler(state));
  }

  /** The automaton rejects as soon, and only when, no continuation could help. */
  lemma RejectsHopeless(x: int, s: seq<byte>)
    ensures Run(ACCEPT, x, s).0 == REJECT <==> !Extendable(s)
  {
    var r := Run(ACCEPT, x, s);
    if r.0 != REJECT {
      var t := Filler(r.0);
      FillerCompletes(r.0);
      RunConcat(ACCEPT, x, s, t);
      RunAccepts(r.0, r.1, t);
      AcceptsWellFormed(x, s + t);
      assert WellFormed(s + t);
    } else {
      forall t
        ensures !WellFormed(s + t)
      {
        RunConcat(ACCEPT, x, s, t);
        RejectAbsorbs(r.1, t);
        AcceptsWellFormed(x, s + t);
      }
    }
  }

  lemma RunNext(before: seq<byte>, chunk: seq<byte>, i: nat, y: int)
    requires i < |chunk|
    ensures var r := Run(ACCEPT, 0, before + chunk[..i]);
      && Run(ACCEPT, 0, before + chunk[..i + 1]) == Step(r.0, r.1, chunk[i])
      && Step(r.0, y, chunk[i]).0 == Step(r.0, r.1, chunk[i]).0
      && (r.0 == REJECT ==> Step(r.0, y, chunk[i]).0 == REJECT)
  {
    var done := before + chunk[..i];
    RunConcat(ACCEPT, 0, done, [chunk[i]]);
    assert before + chunk[..i + 1] == done + [chunk[i]];
  }

  lemma RunRejected(before: seq<byte>, chunk: seq<byte>, i: nat)
    requires i <= |chunk| && Run(ACCEPT, 0, before + chunk[..i]).0 == REJECT
    ensures Run(ACCEPT, 0, before + chunk).0 == REJECT
  {
    RunConcat(ACCEPT, 0, before + chunk[..i], chunk[i..]);
    RejectAbsorbs(Run(ACCEPT, 0, before + chunk[..i]).1, chunk[i..]);
    assert before + chunk[..i] + chunk[i..] == before + chunk;
  }

  /** The validating reader. `Read` is given what the wrapped reader returned:
      the bytes of this read, and whether it reported the end of the stream. */
  class Validator {
    var state: nat
    var x: int
    ghost var seen: seq<byte>

    ghost predicate Valid()
      reads this
    {
      && state <= 8
      && state == Run(ACCEPT, 0, seen).0
      && (state != REJECT ==> x == Run(ACCEPT, 0, seen).1)
    }

    constructor ()
      ensures Valid() && seen == []
    {
      state, x := ACCEPT, 0;
      seen := [];
    }

    /** The verdict depends on the bytes seen so far and on nothing else, so
        every way of cutting a stream into reads gives the same one. */
    method Read(chunk: seq<byte>, eof: bool) returns (invalid: bool)
      requires Valid()
      modifies this
      ensures Valid() && seen == old(seen) + chunk
      ensures invalid <==> !Extendable(seen) || (eof && !WellFormed(seen))
    {
      hide Run, Step, Decode, WellFormed, Extendable;
      var s, y := state, x;
      ghost var before := seen;
      var i := 0;
      assert before + chunk[..0] == before;
      while i < |chunk|
        modifies {}
        invariant 0 <= i <= |chunk| && s <= 8
        invariant s == Run(ACCEPT, 0, before + chunk[..i]).0
        invariant s != REJECT ==> y == Run(ACCEPT, 0, before + chunk[..i]).1
      {
        RunNext(before, chunk, i, y);
        var d := Decode(s, y, chunk[i]);
        s, y := d.0, d.1;
        i := i + 1;
        if s == REJECT {
          RunRejected(before, chunk, i);
          break;
        }
      }
      state, x := s, y;
      seen := seen + chunk;
      assert i == |chunk| ==> chunk[..i] == chunk;
      RejectsHopeless(0, seen);
      AcceptsWellFormed(0, seen);
      invalid := s == REJECT || (eof && s != ACCEPT);
    }
  }
}
