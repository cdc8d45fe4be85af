/** Payload masking: src/github.com/gorilla/websocket/mask.go (a machine word at
    a time) refines mask_safe.go (a byte at a time). */
module Mask {
  import opened Bytes

  type Key = k: seq<byte> | |k| == 4 witness [0, 0, 0, 0]

  /** The position in the key that a count of bytes comes to: `pos & 3`. */
  function KeyPos(pos: int): (r: int)
    ensures 0 <= r < 4
  {
    pos % 4
  }

  /** Section 5.3 of RFC 6455: successive bytes are combined with successive
      bytes of the key, round and round, starting at key byte `pos mod 4`. */
  function Masked(key: Key, pos: int, s: seq<byte>): (r: seq<byte>)
    ensures |r| == |s|
    decreases |s|
  {
    if s == [] then [] else [XorByte(s[0], key[KeyPos(pos)])] + Masked(key, pos + 1, s[1..])
  }

  /** Byte `i` of the data meets byte `(pos + i) mod 4` of the key. */
  lemma {:induction false} MaskedAt(key: Key, pos: int, s: seq<byte>, i: nat)
    requires i < |s|
    ensures Masked(key, pos, s)[i] == XorByte(s[i], key[KeyPos(pos + i)])
    decreases i
  {
    if i > 0 {
      MaskedAt(key, pos + 1, s[1..], i - 1);
    }
  }

  /** Masking with the same key and position a second time restores the data. */
  lemma {:induction false} MaskedTwice(key: Key, pos: int, s: seq<byte>)
    ensures Masked(key, pos, Masked(key, pos, s)) == s
    decreases |s|
  {
    if s != [] {
      XorTwice(s[0], key[KeyPos(pos)]);
      MaskedTwice(key, pos + 1, s[1..]);
    }
  }

  /** A distance over which the masking key comes round to where it was. */
  predicate WholeKeys(n: int) {
    n % 4 == 0
  }

  /** Only the position modulo 4 matters. */
  lemma {:induction false} MaskedShift(key: Key, pos: int, n: int, s: seq<byte>)
    requires WholeKeys(n)
    ensures Masked(key, pos + n, s) == Masked(key, pos, s)
    decreases |s|
  {
    if s != [] {
      MaskedShift(key, pos + 1, n, s[1..]);
      assert KeyPos(pos + n) == KeyPos(pos);
      assert pos + n + 1 == pos + 1 + n;
    }
  }

  lemma MaskedReduce(key: Key, pos: int, s: seq<byte>)
    ensures Masked(key, KeyPos(pos), s) == Masked(key, pos, s)
  {
    MaskedShift(key, KeyPos(pos), pos / 4 * 4, s);
  }

  /** Masking a concatenation masks the parts, the position carried through. */
  lemma {:induction false} MaskedConcat(key: Key, pos: int, s: seq<byte>, t: seq<byte>)
    ensures Masked(key, pos, s + t) == Masked(key, pos, s) + Masked(key, pos + |s|, t)
    decreases |s|
  {
    hide XorByte, KeyPos;
    if s == [] {
      assert s + t == t;
    } else {
      var head, rest := XorByte(s[0], key[KeyPos(pos)]), s[1..];
      assert (s + t)[1..] == rest + t;
      MaskedConcat(key, pos + 1, rest, t);
      assert Masked(key, pos, s + t) == [head] + Masked(key, pos + 1, rest + t);
      assert [head] + (Masked(key, pos + 1, rest) + Masked(key, pos + |s|, t))
          == ([head] + Masked(key, pos + 1, rest)) + Masked(key, pos + |s|, t);
    }
  }

  /** One step of a masking loop: the run masked so far grows by a byte. */
  lemma MaskedSnoc(key: Key, pos: int, s: seq<byte>, lo: nat, i: nat)
    requires lo <= i < |s|
    ensures Masked(key, pos, s[lo..i + 1]) == Masked(key, pos, s[lo..i]) + [XorByte(s[i], key[KeyPos(pos + i - lo)])]
  {
    assert s[lo..i + 1] == s[lo..i] + [s[i]];
    MaskedConcat(key, pos, s[lo..i], [s[i]]);
  }

  /** `s` with the stretch from `lo` to `hi` replaced by `t`. */
  function Spliced(s: seq<byte>, lo: nat, hi: nat, t: seq<byte>): seq<byte>
    requires lo <= hi <= |s|
  {
    s[..lo] + t + s[hi..]
  }

  lemma SpliceNothing(s: seq<byte>, lo: nat)
    requires lo <= |s|
    ensures Spliced(s, lo, lo, []) == s
  {
  }

  /** Replacing `was[lo..i]` and then `[i..j]` replaces `was[lo..j]`; the bytes
      after the first stretch are untouched in between. */
  lemma SpliceNext(was: seq<byte>, cur: seq<byte>, lo: nat, i: nat, j: nat, done: seq<byte>, next: seq<byte>)
    requires lo <= i <= j <= |was| && |done| == i - lo && |next| == j - i
    requires cur == Spliced(was, lo, i, done)
    ensures |cur| == |was| && cur[i..j] == was[i..j]
    ensures Spliced(cur, i, j, next) == Spliced(was, lo, j, done + next)
  {
    hide Spliced;
    SplicedParts(was, lo, i, done);
    Halves(was[i..], cur[i..], j - i);
    assert was[i..][..j - i] == was[i..j] && cur[i..][..j - i] == cur[i..j];
    assert was[i..][j - i..] == was[j..] && cur[i..][j - i..] == cur[j..];
    SplicedIs(cur, i, j, next);
    SplicedIs(was, lo, j, done + next);
    assert (was[..lo] + done) + next + was[j..] == was[..lo] + (done + next) + was[j..];
  }

  lemma SplicedIs(s: seq<byte>, lo: nat, hi: nat, t: seq<byte>)
    requires lo <= hi <= |s|
    ensures Spliced(s, lo, hi, t) == s[..lo] + t + s[hi..]
  {
  }

  /** What was replaced by as many bytes, and what comes after it. */
  lemma SplicedParts(s: seq<byte>, lo: nat, hi: nat, t: seq<byte>)
    requires lo <= hi <= |s| && |t| == hi - lo
    ensures |Spliced(s, lo, hi, t)| == |s|
    ensures Spliced(s, lo, hi, t)[..hi] == s[..lo] + t && Spliced(s, lo, hi, t)[hi..] == s[hi..]
  {
    var head := s[..lo] + t;
    assert |head| == hi;
    assert (head + s[hi..])[..hi] == head && (head + s[hi..])[hi..] == s[hi..];
  }

  lemma Halves(s: seq<byte>, t: seq<byte>, n: nat)
    requires s == t && n <= |s|
    ensures s[..n] == t[..n] && s[n..] == t[n..]
  {
  }

  /** One step of a masking loop: the run masked so far grows by a byte. */
  lemma MaskedNext(key: Key, pos: int, was: seq<byte>, cur: seq<byte>, lo: nat, i: nat)
    requires lo <= i < |was| && cur == Spliced(was, lo, i, Masked(key, pos, was[lo..i]))
    ensures |cur| == |was| && cur[i] == was[i]
    ensures cur[i := XorByte(was[i], key[KeyPos(pos + i - lo)])] == Spliced(was, lo, i + 1, Masked(key, pos, was[lo..i + 1]))
  {
    MaskedSnoc(key, pos, was, lo, i);
    var x := XorByte(was[i], key[KeyPos(pos + i - lo)]);
    SpliceNext(was, cur, lo, i, i + 1, Masked(key, pos, was[lo..i]), [x]);
    assert cur[i := x] == Spliced(cur, i, i + 1, [x]);
    assert cur[i..i + 1][0] == was[i..i + 1][0];
  }

  /** The byte-at-a-time form. The Go slice is `a[lo..hi]`. */
  method MaskBytesSafe(key: Key, pos: int, a: array<byte>, lo: nat, hi: nat) returns (next: int)
    requires lo <= hi <= a.Length
    modifies a
    ensures a[..] == Spliced(old(a[..]), lo, hi, Masked(key, pos, old(a[lo..hi])))
    ensures next == KeyPos(pos + (hi - lo))
  {
    ghost var was := a[..];
    SpliceNothing(was, lo);
    hide Spliced, XorByte, KeyPos;
    var p := pos;
    for i := lo to hi
      invariant p == pos + i - lo
      invariant a[..] == Spliced(was, lo, i, Masked(key, pos, was[lo..i]))
    {
      MaskedNext(key, pos, was, a[..], lo, i);
      a[i] := XorByte(a[i], key[KeyPos(p)]);
      p := p + 1;
    }
    next := KeyPos(p);
  }

  /** One pass over `a[lo..hi]` a byte at a time, returning the position not yet
      reduced: the loop that opens and closes the word form. */
  method MaskRun(key: Key, pos: int, a: array<byte>, lo: nat, hi: nat) returns (next: int)
    requires lo <= hi <= a.Length
    modifies a
    ensures a[..] == Spliced(old(a[..]), lo, hi, Masked(key, pos, old(a[lo..hi])))
    ensures next == pos + (hi - lo)
  {
    ghost var was := a[..];
    SpliceNothing(was, lo);
    hide Spliced, XorByte, KeyPos;
    next := pos;
    for i := lo to hi
      invariant next == pos + i - lo
      invariant a[..] == Spliced(was, lo, i, Masked(key, pos, was[lo..i]))
    {
      MaskedNext(key, pos, was, a[..], lo, i);
      a[i] := XorByte(a[i], key[KeyPos(next)]);
      next := next + 1;
    }
  }

  predicate IsWordSize(n: nat) {
    n == 4 || n == 8
  }

  /** The remainder of `n` modulo the word size. */
  function Beyond(n: nat, wordSize: nat): (r: nat)
    requires IsWordSize(wordSize)
    ensures r <= n && r < wordSize
  {
    if wordSize == 4 then n % 4 else n % 8
  }

  lemma WholeWords(n: nat, wordSize: nat)
    requires IsWordSize(wordSize)
    ensures Beyond(n - Beyond(n, wordSize), wordSize) == 0
    ensures WholeKeys(n - Beyond(n, wordSize))
  {
  }

  lemma NextWord(done: nat, left: nat, wordSize: nat)
    requires IsWordSize(wordSize)
    requires WholeKeys(done) && left > 0 && Beyond(left, wordSize) == 0
    ensures wordSize <= left && Beyond(left - wordSize, wordSize) == 0
    ensures WholeKeys(done + wordSize)
  {
    var k, m := done / 4, left / wordSize;
    assert done == 4 * k;
    if wordSize == 4 {
      assert left == 4 * m && done + 4 == 4 * (k + 1) && left - 4 == 4 * (m - 1);
    } else {
      assert left == 8 * m && done + 8 == 4 * (k + 2) && left - 8 == 8 * (m - 1);
    }
  }

  /** The machine word whose bytes in memory repeat the key from `pos` on. */
  function KeyBytes(key: Key, pos: int, n: nat): (r: seq<byte>)
    ensures |r| == n
  {
    seq(n, i => key[KeyPos(pos + i)])
  }

  /** What one word-sized exclusive-or leaves in memory. */
  function XorBytes(s: seq<byte>, kw: nat): (r: seq<byte>)
    ensures |r| == |s|
  {
    LittleEndianBytes(Xor(LittleEndian(s), kw), |s|)
  }

  method MaskWord(kw: nat, wordSize: nat, a: array<byte>, at: nat)
    requires at + wordSize <= a.Length
    modifies a
    ensures a[..] == Spliced(old(a[..]), at, at + wordSize, XorBytes(old(a[at..at + wordSize]), kw))
  {
    var w := XorBytes(a[at..at + wordSize], kw);
    forall j | 0 <= j < wordSize {
      a[at + j] := w[j];
    }
  }

  lemma MaskedWord(key: Key, pos: int, s: seq<byte>)
    ensures XorBytes(s, LittleEndian(KeyBytes(key, pos, |s|))) == Masked(key, pos, s)
  {
    hide XorByte, KeyPos, LittleEndian, LittleEndianBytes, Xor, Masked;
    XorWord(s, KeyBytes(key, pos, |s|));
    forall i | 0 <= i < |s|
      ensures Masked(key, pos, s)[i] == XorByte(s[i], KeyBytes(key, pos, |s|)[i])
    {
      MaskedAt(key, pos, s, i);
    }
  }

  /** One word more of a run: the key word, made at the start of the run, still
      lines up, as words are a multiple of the key's length. */
  lemma MaskedNextWord(key: Key, pos: int, was: seq<byte>, cur: seq<byte>, lo: nat, i: nat, wordSize: nat)
    requires lo <= i <= i + wordSize <= |was| && WholeKeys(i - lo)
    requires cur == Spliced(was, lo, i, Masked(key, pos, was[lo..i]))
    ensures |cur| == |was|
    ensures Spliced(cur, i, i + wordSize, XorBytes(cur[i..i + wordSize], LittleEndian(KeyBytes(key, pos, wordSize))))
         == Spliced(was, lo, i + wordSize, Masked(key, pos, was[lo..i + wordSize]))
  {
    var word := was[i..i + wordSize];
    MaskedWord(key, pos, word);
    MaskedShift(key, pos, i - lo, word);
    MaskedConcat(key, pos, was[lo..i], word);
    assert was[lo..i] + word == was[lo..i + wordSize];
    SpliceNext(was, cur, lo, i, i + wordSize, Masked(key, pos, was[lo..i]), Masked(key, pos, word));
  }

  method MaskOneWord(kw: nat, wordSize: nat, ghost key: Key, ghost pos: int, ghost was: seq<byte>, a: array<byte>, ghost lo: nat, i: nat)
    requires lo <= i <= i + wordSize <= |was| && WholeKeys(i - lo)
    requires kw == LittleEndian(KeyBytes(key, pos, wordSize))
    requires a[..] == Spliced(was, lo, i, Masked(key, pos, was[lo..i]))
    modifies a
    ensures a[..] == Spliced(was, lo, i + wordSize, Masked(key, pos, was[lo..i + wordSize]))
  {
    hide *;
    MaskedNextWord(key, pos, was, a[..], lo, i, wordSize);
    assert a[i..i + wordSize] == a[..][i..i + wordSize];
    MaskWord(kw, wordSize, a, i);
  }

  lemma StartWords(wordSize: nat, key: Key, pos: int, was: seq<byte>, lo: nat)
    requires IsWordSize(wordSize) && lo <= |was|
    ensures wordSize > 0 && WholeKeys(0) && was == Spliced(was, lo, lo, Masked(key, pos, was[lo..lo]))
  {
    SpliceNothing(was, lo);
    assert Masked(key, pos, was[lo..lo]) == [];
  }

  /** The word loop: one exclusive-or per machine word, all with the same key
      word. */
  method MaskWords(wordSize: nat, key: Key, pos: int, a: array<byte>, lo: nat, hi: nat)
    requires IsWordSize(wordSize)
    requires lo <= hi <= a.Length && Beyond(hi - lo, wordSize) == 0
    modifies a
    ensures a[..] == Spliced(old(a[..]), lo, hi, Masked(key, pos, old(a[lo..hi])))
  {
    hide *;
    ghost var was := a[..];
    StartWords(wordSize, key, pos, was, lo);
    // The key turned so that its first byte meets the byte at lo.
    var kw := LittleEndian(KeyBytes(key, pos, wordSize));
    ghost var done := 0;
    var i := lo;
    while i < hi
      invariant lo <= i <= hi && Beyond(hi - i, wordSize) == 0 && WholeKeys(done) && done == i - lo
      invariant a[..] == Spliced(was, lo, i, Masked(key, pos, was[lo..i]))
    {
      NextWord(done, hi - i, wordSize);
      MaskOneWord(kw, wordSize, key, pos, was, a, lo, i);
      i, done := i + wordSize, done + wordSize;
    }
  }

  /** Two runs in a row, the position carried through. */
  lemma MaskedTwoRuns(key: Key, pos: int, was: seq<byte>, cur: seq<byte>, lo: nat, b: nat, hi: nat)
    requires lo <= b <= hi <= |was| && cur == Spliced(was, lo, b, Masked(key, pos, was[lo..b]))
    ensures |cur| == |was|
    ensures Spliced(cur, b, hi, Masked(key, pos + (b - lo), cur[b..hi])) == Spliced(was, lo, hi, Masked(key, pos, was[lo..hi]))
  {
    hide *;
    MaskedConcat(key, pos, was[lo..b], was[b..hi]);
    assert was[lo..hi] == was[lo..b] + was[b..hi];
    SpliceNext(was, cur, lo, b, hi, Masked(key, pos, was[lo..b]), Masked(key, pos + (b - lo), was[b..hi]));
  }

  lemma KeyPosShift(p: int, q: int, skipped: int)
    requires WholeKeys(skipped) && q == p + skipped
    ensures KeyPos(p) == KeyPos(q)
  {
  }

  /** From a word boundary on: whole words, then the bytes left over, which
      continue with the position the words started from. */
  method MaskAligned(wordSize: nat, key: Key, pos: int, a: array<byte>, lo: nat, hi: nat) returns (next: int)
    requires IsWordSize(wordSize)
    requires lo <= hi <= a.Length
    modifies a
    ensures a[..] == Spliced(old(a[..]), lo, hi, Masked(key, pos, old(a[lo..hi])))
    ensures next == KeyPos(pos + (hi - lo))
  {
    hide *;
    ghost var was := a[..];
    var c := hi - Beyond(hi - lo, wordSize);
    WholeWords(hi - lo, wordSize);
    MaskWords(wordSize, key, pos, a, lo, c);
    MaskedTwoRuns(key, pos, was, a[..], lo, c, hi);
    MaskedShift(key, pos, c - lo, a[..][c..hi]);
    assert a[c..hi] == a[..][c..hi];
    var p := MaskRun(key, pos, a, c, hi);
    KeyPosShift(p, pos + (hi - lo), c - lo);
    next := KeyPos(p);
  }

  /** The word-at-a-time form. `wordSize` is the size of a Go uintptr and
      `address` the machine address of the first byte of the slice. Its contract
      is that of the byte-at-a-time form. */
  method MaskBytes(wordSize: nat, address: nat, key: Key, pos: int, a: array<byte>, lo: nat, hi: nat) returns (next: int)
    requires IsWordSize(wordSize)
    requires lo <= hi <= a.Length
    modifies a
    ensures a[..] == Spliced(old(a[..]), lo, hi, Masked(key, pos, old(a[lo..hi])))
    ensures next == KeyPos(pos + (hi - lo))
  {
    hide *;
    // Too short to hold a whole aligned word for certain.
    if hi - lo < 2 * wordSize {
      next := MaskRun(key, pos, a, lo, hi);
      return KeyPos(next);
    }
    // The bytes below the next word boundary keep the byte form's positions.
    ghost var was := a[..];
    var n := Beyond(address, wordSize);
    if n == 0 {
      next := MaskAligned(wordSize, key, pos, a, lo, hi);
    } else {
      var b := lo + (wordSize - n);
      var p := MaskRun(key, pos, a, lo, b);
      MaskedTwoRuns(key, pos, was, a[..], lo, b, hi);
      assert a[b..hi] == a[..][b..hi];
      next := MaskAligned(wordSize, key, p, a, b, hi);
      assert p + (hi - b) == pos + (hi - lo);
    }
  }
}
