/** The parts of Go's strings and strconv packages that the configuration and the
    tunnel registry rely on. A string is a sequence of Unicode characters. */
module Strings {
  import opened Options

  // ----- Trimming -----

  /** What a trim removes: unicode.IsSpace, the quotes, or the space character. */
  datatype Cutset = White | Quotes | Blanks

  predicate Cuts(cut: Cutset, c: char) {
    match cut
    case White =>
      || '\t' <= c <= '\r' || c == ' '
      || c == '\U{0085}' || c == '\U{00A0}' || c == '\U{1680}' || '\U{2000}' <= c <= '\U{200A}'
      || c == '\U{2028}' || c == '\U{2029}' || c == '\U{202F}' || c == '\U{205F}' || c == '\U{3000}'
    case Quotes => c == '"' || c == '\''
    case Blanks => c == ' '
  }

  function TrimLeft(cut: Cutset, s: string): (r: string)
    ensures |r| <= |s| && r == s[|s| - |r|..]
    ensures r != [] ==> !Cuts(cut, r[0])
  {
    if s != [] && Cuts(cut, s[0]) then TrimLeft(cut, s[1..]) else s
  }

  function TrimRight(cut: Cutset, s: string): (r: string)
    ensures |r| <= |s| && r == s[..|r|]
    ensures r != [] ==> !Cuts(cut, r[|r| - 1])
  {
    if s != [] && Cuts(cut, s[|s| - 1]) then TrimRight(cut, s[..|s| - 1]) else s
  }

  function Trim(cut: Cutset, s: string): string {
    TrimRight(cut, TrimLeft(cut, s))
  }

  function TrimSpace(s: string): string {
    Trim(White, s)
  }

  /** Nothing to trim at either end. */
  predicate Trimmed(cut: Cutset, s: string) {
    s == [] || (!Cuts(cut, s[0]) && !Cuts(cut, s[|s| - 1]))
  }

  lemma TrimFixed(cut: Cutset, s: string)
    ensures Trimmed(cut, Trim(cut, s))
    ensures Trim(cut, s) == s <==> Trimmed(cut, s)
  {
    var l := TrimLeft(cut, s);
    var r := TrimRight(cut, l);
    if r != [] {
      assert r[0] == l[0];
    }
  }

  predicate AllCut(cut: Cutset, s: string) {
    forall c :: c in s ==> Cuts(cut, c)
  }

  lemma {:induction false} TrimLeftPad(cut: Cutset, pad: string, s: string)
    requires AllCut(cut, pad)
    ensures TrimLeft(cut, pad + s) == TrimLeft(cut, s)
  {
    if pad == [] {
      assert pad + s == s;
    } else {
      assert (pad + s)[1..] == pad[1..] + s;
      TrimLeftPad(cut, pad[1..], s);
    }
  }

  lemma {:induction false} TrimRightPad(cut: Cutset, s: string, pad: string)
    requires AllCut(cut, pad)
    ensures TrimRight(cut, s + pad) == TrimRight(cut, s)
  {
    if pad == [] {
      assert s + pad == s;
    } else {
      assert (s + pad)[..|s + pad| - 1] == s + pad[..|pad| - 1];
      TrimRightPad(cut, s, pad[..|pad| - 1]);
    }
  }

  /** A right trim stops at the first character that stays. */
  lemma {:induction false} TrimRightKeeps(cut: Cutset, head: string, s: string)
    requires head != [] && !Cuts(cut, head[|head| - 1])
    ensures TrimRight(cut, head + s) == head + TrimRight(cut, s)
  {
    if s == [] {
      assert head + s == head;
    } else if Cuts(cut, s[|s| - 1]) {
      assert (head + s)[..|head + s| - 1] == head + s[..|s| - 1];
      TrimRightKeeps(cut, head, s[..|s| - 1]);
    }
  }

  lemma TrimLeftStep(cut: Cutset, s: string)
    requires s != []
    ensures TrimLeft(cut, s) == if Cuts(cut, s[0]) then TrimLeft(cut, s[1..]) else s
  {
  }

  lemma {:induction false} TrimPad(cut: Cutset, s: string, pad: string)
    requires AllCut(cut, pad)
    ensures Trim(cut, s + pad) == Trim(cut, s)
  {
    hide TrimLeft, TrimRight, Cuts, AllCut;
    if s == [] {
      TrimLeftPad(cut, pad, []);
      assert s + pad == pad + [] == pad;
    } else {
      TrimLeftStep(cut, s);
      TrimLeftStep(cut, s + pad);
      if Cuts(cut, s[0]) {
        assert (s + pad)[1..] == s[1..] + pad;
        TrimPad(cut, s[1..], pad);
      } else {
        TrimRightPad(cut, s, pad);
      }
    }
  }

  lemma {:induction false} RightPad(cut: Cutset, s: string)
    ensures AllCut(cut, s[|TrimRight(cut, s)|..])
  {
    if s != [] && Cuts(cut, s[|s| - 1]) {
      var t := s[..|s| - 1];
      RightPad(cut, t);
      assert s[|TrimRight(cut, s)|..] == t[|TrimRight(cut, t)|..] + [s[|s| - 1]];
    }
  }

  lemma TrimAfterRight(cut: Cutset, s: string)
    ensures Trim(cut, TrimRight(cut, s)) == Trim(cut, s)
  {
    var r := TrimRight(cut, s);
    RightPad(cut, s);
    assert s == r + s[|r|..];
    TrimPad(cut, r, s[|r|..]);
  }

  // ----- Searching and splitting -----

  /** The index of the first c, or the length. */
  function IndexOf(s: string, c: char): (i: nat)
    ensures i <= |s| && c !in s[..i]
    ensures i < |s| ==> s[i] == c
  {
    if s == [] || s[0] == c then 0 else 1 + IndexOf(s[1..], c)
  }

  lemma {:induction false} IndexAfter(head: string, c: char, s: string)
    requires c !in head
    ensures IndexOf(head + [c] + s, c) == |head|
  {
    if head == [] {
      assert head + [c] + s == [c] + s;
    } else {
      assert (head + [c] + s)[1..] == head[1..] + [c] + s;
      IndexAfter(head[1..], c, s);
    }
  }

  lemma {:induction false} IndexAbsent(s: string, c: char)
    ensures IndexOf(s, c) == |s| <==> c !in s
  {
    if s != [] {
      IndexAbsent(s[1..], c);
    }
  }

  function Split(s: string, c: char): (parts: seq<string>)
    ensures parts != []
    ensures forall p :: p in parts ==> c !in p
    decreases |s|
  {
    var i := IndexOf(s, c);
    if i == |s| then [s] else [s[..i]] + Split(s[i + 1..], c)
  }

  function Join(parts: seq<string>, c: char): string
    requires parts != []
  {
    if |parts| == 1 then parts[0] else parts[0] + [c] + Join(parts[1..], c)
  }

  lemma JoinFirst(part: string, parts: seq<string>, c: char)
    requires parts != []
    ensures Join([part] + parts, c) == part + [c] + Join(parts, c)
  {
    assert ([part] + parts)[1..] == parts;
  }

  lemma CutAt(s: string, i: nat)
    requires i < |s|
    ensures s == s[..i] + [s[i]] + s[i + 1..]
  {
  }

  lemma {:induction false} SplitJoins(s: string, c: char)
    ensures Join(Split(s, c), c) == s
    decreases |s|
  {
    hide Join, IndexOf;
    var i := IndexOf(s, c);
    if i < |s| {
      SplitJoins(s[i + 1..], c);
      JoinFirst(s[..i], Split(s[i + 1..], c), c);
      CutAt(s, i);
    } else {
      JoinOne(s, c);
    }
  }

  lemma JoinOne(part: string, c: char)
    ensures Join([part], c) == part
  {
  }

  lemma SplitMore(head: string, c: char, rest: string)
    requires c !in head
    ensures Split(head + [c] + rest, c) == [head] + Split(rest, c)
  {
    var s := head + [c] + rest;
    IndexAfter(head, c, rest);
    assert s[..|head|] == head && s[|head| + 1..] == rest;
  }

  lemma SplitOne(s: string, c: char)
    requires c !in s
    ensures Split(s, c) == [s]
  {
    IndexAbsent(s, c);
  }

  predicate HasPrefix(s: string, prefix: string): (r: bool)
    ensures r ==> |prefix| <= |s|
  {
    prefix <= s
  }

  predicate HasSuffix(s: string, suffix: string) {
    |suffix| <= |s| && s[|s| - |suffix|..] == suffix
  }

  // ----- Case -----

  /** Lower case; beyond ASCII only the two letters whose lower case is ASCII. */
  function Lower(c: char): char {
    if 'A' <= c <= 'Z' then c - 'A' + 'a'
    else if c == '\U{212A}' then 'k'
    else if c == '\U{0130}' then 'i'
    else c
  }

  function ToLower(s: string): (r: string)
    ensures |r| == |s| && forall i :: 0 <= i < |s| ==> r[i] == Lower(s[i])
  {
    seq(|s|, i requires 0 <= i < |s| => Lower(s[i]))
  }

  // ----- Numbers -----

  predicate Digit(c: char) {
    '0' <= c <= '9'
  }

  function DigitValue(c: char): nat
    requires Digit(c)
  {
    c as int - '0' as int
  }

  function Itoa(n: nat): (r: string)
    ensures r != [] && forall i :: 0 <= i < |r| ==> Digit(r[i])
  {
    var last := [('0' as int + n % 10) as char];
    if n < 10 then last else Itoa(n / 10) + last
  }

  /** The value of a run of digits. */
  function Decimal(s: string): nat
    requires forall i :: 0 <= i < |s| ==> Digit(s[i])
  {
    if s == [] then 0 else 10 * Decimal(s[..|s| - 1]) + DigitValue(s[|s| - 1])
  }

  /** strconv.ParseUint in base 10: digits only, at least one, below 2^bits. */
  function ParseUint(s: string, limit: nat): (r: Option<nat>)
    ensures r.Some? ==> r.value < limit
  {
    if s == [] || (exists i :: 0 <= i < |s| && !Digit(s[i])) then None
    else if Decimal(s) < limit then Some(Decimal(s))
    else None
  }

  lemma {:induction false} DecimalOfItoa(n: nat)
    ensures Decimal(Itoa(n)) == n
  {
    var last := [('0' as int + n % 10) as char];
    if n < 10 {
      assert last[..0] == [];
    } else {
      DecimalOfItoa(n / 10);
      assert Itoa(n)[..|Itoa(n)| - 1] == Itoa(n / 10);
    }
  }

  lemma ParseItoa(n: nat, limit: nat)
    ensures ParseUint(Itoa(n), limit) == if n < limit then Some(n) else None
  {
    DecimalOfItoa(n);
  }

  /** The %x format of a number. */
  function Hex(n: nat): (r: string)
    ensures r != [] && forall i :: 0 <= i < |r| ==> Digit(r[i]) || 'a' <= r[i] <= 'f'
  {
    var d := n % 16;
    var last := [if d < 10 then ('0' as int + d) as char else ('a' as int + d - 10) as char];
    if n < 16 then last else Hex(n / 16) + last
  }

  /** The index of the last c, or the length. */
  function LastIndexOf(s: string, c: char): (i: nat)
    ensures i <= |s| && (i < |s| ==> s[i] == c && c !in s[i + 1..]) && (i == |s| ==> c !in s)
  {
    if s == [] then 0
    else if s[|s| - 1] == c then |s| - 1
    else
      var i := LastIndexOf(s[..|s| - 1], c);
      if i == |s| - 1 then |s| else i
  }

  /** Bytes in UTF-8. */
  function ByteLength(s: string): (n: nat)
    ensures |s| <= n
  {
    if s == [] then 0
    else ByteLength(s[1..])
         + (if s[0] < '\U{0080}' then 1 else if s[0] < '\U{0800}' then 2 else if s[0] < '\U{10000}' then 3 else 4)
  }
}
