/** Bytes, Go slice bounds, exclusive-or on naturals, and unsigned integers
    laid out in memory. */
module Bytes {

  type byte = x: int | 0 <= x < 256

  /** Exclusive-or of two natural numbers, one binary digit at a time. */
  function Xor(a: nat, b: nat): (r: nat)
  {
    if a == 0 && b == 0 then 0
    else (if a % 2 == b % 2 then 0 else 1) + 2 * Xor(a / 2, b / 2)
  }

  lemma {:induction false} XorBelow(a: nat, b: nat, n: nat)
    requires a < Pow2(n) && b < Pow2(n)
    ensures Xor(a, b) < Pow2(n)
    decreases n
  {
    if !(a == 0 && b == 0) {
      XorBelow(a / 2, b / 2, n - 1);
    }
  }

  lemma {:induction false} XorTwice(a: nat, k: nat)
    ensures Xor(Xor(a, k), k) == a
    decreases a + k
  {
    if !(a == 0 && k == 0) {
      XorTwice(a / 2, k / 2);
      var x := Xor(a, k);
      assert x / 2 == Xor(a / 2, k / 2);
      if x == 0 && k == 0 {
        XorZero(a);
      }
    }
  }

  lemma {:induction false} XorZero(a: nat)
    ensures Xor(a, 0) == a
  {
    if a != 0 {
      XorZero(a / 2);
    }
  }

  function Pow2(n: nat): (r: nat)
    ensures r > 0
  {
    if n == 0 then 1 else 2 * Pow2(n - 1)
  }

  /** The exclusive-or of two bytes. */
  function XorByte(a: byte, b: byte): (r: byte)
  {
    assert Pow2(8) == 256;
    XorBelow(a, b, 8);
    Xor(a, b)
  }

  /** The number whose base-256 digits, least significant first, are `bs`. */
  function LittleEndian(bs: seq<byte>): nat
  {
    if bs == [] then 0 else bs[0] + 256 * LittleEndian(bs[1..])
  }

  function LittleEndianBytes(w: nat, n: nat): (r: seq<byte>)
    ensures |r| == n
  {
    if n == 0 then [] else [w % 256] + LittleEndianBytes(w / 256, n - 1)
  }

  function ShiftLeft(n: nat, x: nat): nat
  {
    if n == 0 then x else 2 * ShiftLeft(n - 1, x)
  }

  /** Exclusive-or works separately on the low digits and on the rest. */
  lemma {:induction false} XorSplit(a: nat, b: nat, x: nat, y: nat, n: nat)
    requires a < Pow2(n) && b < Pow2(n)
    ensures Xor(a + ShiftLeft(n, x), b + ShiftLeft(n, y)) == Xor(a, b) + ShiftLeft(n, Xor(x, y))
    decreases n
  {
    if n > 0 {
      XorSplit(a / 2, b / 2, x, y, n - 1);
      var u, v := a + ShiftLeft(n, x), b + ShiftLeft(n, y);
      assert u % 2 == a % 2 && u / 2 == a / 2 + ShiftLeft(n - 1, x);
      assert v % 2 == b % 2 && v / 2 == b / 2 + ShiftLeft(n - 1, y);
    }
  }

  lemma ShiftByte(x: nat)
    ensures ShiftLeft(8, x) == 256 * x && Pow2(8) == 256
  {
    assert ShiftLeft(1, x) == 2 * x && Pow2(1) == 2;
    assert ShiftLeft(2, x) == 4 * x && Pow2(2) == 4;
    assert ShiftLeft(3, x) == 8 * x && Pow2(3) == 8;
    assert ShiftLeft(4, x) == 16 * x && Pow2(4) == 16;
    assert ShiftLeft(5, x) == 32 * x && Pow2(5) == 32;
    assert ShiftLeft(6, x) == 64 * x && Pow2(6) == 64;
    assert ShiftLeft(7, x) == 128 * x && Pow2(7) == 128;
  }

  /** Exclusive-or byte by byte. */
  function XorSeq(s: seq<byte>, t: seq<byte>): (r: seq<byte>)
    requires |s| == |t|
    ensures |r| == |s| && forall i :: 0 <= i < |s| ==> r[i] == XorByte(s[i], t[i])
  {
    seq(|s|, i requires 0 <= i < |s| => XorByte(s[i], t[i]))
  }

  lemma XorSeqFirst(s: seq<byte>, t: seq<byte>)
    requires |s| == |t| > 0
    ensures XorSeq(s, t) == [XorByte(s[0], t[0])] + XorSeq(s[1..], t[1..])
  {
    hide XorByte;
    var r := [XorByte(s[0], t[0])] + XorSeq(s[1..], t[1..]);
    forall i | 0 <= i < |s| ensures XorSeq(s, t)[i] == r[i] {
      if i > 0 {
        assert s[1..][i - 1] == s[i] && t[1..][i - 1] == t[i];
      }
    }
  }

  lemma LowByte(low: byte, high: nat, n: nat)
    ensures LittleEndianBytes(low + 256 * high, n + 1) == [low] + LittleEndianBytes(high, n)
  {
    hide LittleEndianBytes;
    var w := low + 256 * high;
    assert w % 256 == low && w / 256 == high;
    MoreBytes(w, n);
  }

  lemma MoreBytes(w: nat, n: nat)
    ensures LittleEndianBytes(w, n + 1) == [w % 256] + LittleEndianBytes(w / 256, n)
  {
  }

  lemma XorFirst(a: byte, b: byte, x: nat, y: nat)
    ensures Xor(a + 256 * x, b + 256 * y) == XorByte(a, b) + 256 * Xor(x, y)
  {
    ShiftByte(x);
    ShiftByte(y);
    ShiftByte(Xor(x, y));
    hide Xor, Pow2, ShiftLeft;
    XorSplit(a, b, x, y, 8);
  }

  /** One exclusive-or of two machine words is the exclusive-or of their bytes. */
  lemma {:induction false} XorWord(s: seq<byte>, t: seq<byte>)
    requires |s| == |t|
    ensures LittleEndianBytes(Xor(LittleEndian(s), LittleEndian(t)), |s|) == XorSeq(s, t)
  {
    hide Xor, XorByte;
    if s != [] {
      var x, y := LittleEndian(s[1..]), LittleEndian(t[1..]);
      assert LittleEndian(s) == s[0] + 256 * x && LittleEndian(t) == t[0] + 256 * y;
      hide LittleEndian, LittleEndianBytes, XorSeq;
      XorWord(s[1..], t[1..]);
      XorFirst(s[0], t[0], x, y);
      LowByte(XorByte(s[0], t[0]), Xor(x, y), |s| - 1);
      XorSeqFirst(s, t);
    }
  }
}
