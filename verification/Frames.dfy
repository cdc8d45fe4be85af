/** The WebSocket wire format: sections 5.2 to 5.5 of RFC 6455, as
    src/github.com/gorilla/websocket/conn.go speaks it (no extensions). A frame
    encoder, a one-pass decoder of byte streams, and what a sequence of frames
    means, with the theorem that the three agree. */
module Frames {
  import opened Options
  import opened Bytes
  import opened Mask
  import Utf8

  const CONTINUATION := 0
  const TEXT := 1
  const BINARY := 2
  const CLOSE := 8
  const PING := 9
  const PONG := 10

  const FINAL_BIT := 128
  const MASK_BIT := 128
  const MAX_CONTROL_PAYLOAD := 125
  const TWO_63 := 0x8000_0000_0000_0000
  const NO_STATUS_RECEIVED := 1005

  predicate IsControl(opcode: int) {
    opcode == CLOSE || opcode == PING || opcode == PONG
  }

  predicate IsData(opcode: int) {
    opcode == TEXT || opcode == BINARY
  }

  // ----- Big-endian lengths -----

  function BigEndian(n: nat, k: nat): (s: seq<byte>)
    ensures |s| == k
  {
    if k == 0 then [] else BigEndian(n / 256, k - 1) + [n % 256]
  }

  function FromBigEndian(s: seq<byte>): nat
  {
    if s == [] then 0 else 256 * FromBigEndian(s[..|s| - 1]) + s[|s| - 1]
  }

  function Pow256(k: nat): nat
  {
    if k == 0 then 1 else 256 * Pow256(k - 1)
  }

  lemma {:induction false} BigEndianInverse(n: nat, k: nat)
    requires n < Pow256(k)
    ensures FromBigEndian(BigEndian(n, k)) == n
  {
    if k > 0 {
      BigEndianInverse(n / 256, k - 1);
      var s := BigEndian(n, k);
      assert s[..|s| - 1] == BigEndian(n / 256, k - 1);
    }
  }

  lemma Pow256Values()
    ensures Pow256(2) == 0x1_0000
    ensures Pow256(8) == 2 * TWO_63
  {
    assert Pow256(1) == 0x100;
    assert Pow256(2) == 0x1_0000;
    assert Pow256(3) == 0x100_0000;
    assert Pow256(4) == 0x1_0000_0000;
    assert Pow256(5) == 0x100_0000_0000;
    assert Pow256(6) == 0x1_0000_0000_0000;
    assert Pow256(7) == 0x100_0000_0000_0000;
  }

  // ----- Encoding -----

  /** One frame. `payload` is the application data, before any masking. */
  datatype Frame = Frame(fin: bool, opcode: nat, mask: Option<Key>, payload: seq<byte>)

  /** The first bytes of a frame, up to the masking key: the shortest form of
      the length. */
  function Head(fin: bool, opcode: nat, masked: bool, n: nat): (s: seq<byte>)
    requires opcode < 16
  {
    var b0: byte := opcode + if fin then FINAL_BIT else 0;
    var b1: byte := if masked then MASK_BIT else 0;
    if n >= 65536 then [b0, b1 + 127] + BigEndian(n, 8)
    else if n > 125 then [b0, b1 + 126] + BigEndian(n, 2)
    else [b0, b1 + n]
  }

  function Body(mask: Option<Key>, payload: seq<byte>): seq<byte>
  {
    match mask
    case None => payload
    case Some(key) => key + Masked(key, 0, payload)
  }

  function EncodeFrame(f: Frame): seq<byte>
    requires f.opcode < 16
  {
    Head(f.fin, f.opcode, f.mask.Some?, |f.payload|) + Body(f.mask, f.payload)
  }

  function EncodeFrames(fs: seq<Frame>): seq<byte>
    requires forall f :: f in fs ==> f.opcode < 16
  {
    if fs == [] then [] else EncodeFrame(fs[0]) + EncodeFrames(fs[1..])
  }

  lemma {:induction false} EncodeFramesConcat(fs: seq<Frame>, gs: seq<Frame>)
    requires forall f :: f in fs + gs ==> f.opcode < 16
    ensures forall f :: f in fs ==> f in fs + gs
    ensures forall f :: f in gs ==> f in fs + gs
    ensures EncodeFrames(fs + gs) == EncodeFrames(fs) + EncodeFrames(gs)
    decreases |fs|
  {
    if fs == [] {
      assert fs + gs == gs;
    } else {
      assert (fs + gs)[1..] == fs[1..] + gs;
      EncodeFramesConcat(fs[1..], gs);
    }
  }

  // ----- What a sequence of frames means -----

  /** A data message, whole or as much of it as has arrived. */
  datatype Message = Message(kind: nat, payload: seq<byte>, complete: bool)

  datatype Control = Control(kind: nat, payload: seq<byte>)

  /** What one side has sent: whole messages, the message in progress, control
      frames other than close, and the payload of the close frame, if sent. */
  datatype Sent = Sent(messages: seq<Message>, open: Option<Message>, controls: seq<Control>, closed: Option<seq<byte>>)

  const NOTHING_SENT := Sent([], None, [], None)

  /** One more frame, if sections 5.1 to 5.5 allow it there: masked exactly from
      the client, control frames single and short, a text or binary frame
      first, continuations after, and nothing after a close. */
  function Send(isServer: bool, st: Sent, f: Frame): Option<Sent>
  {
    if st.closed.Some? || f.mask.Some? == isServer || |f.payload| >= TWO_63 then None
    else if IsControl(f.opcode) then
      if !f.fin || |f.payload| > MAX_CONTROL_PAYLOAD then None
      else if f.opcode == CLOSE then Some(st.(closed := Some(f.payload)))
      else Some(st.(controls := st.controls + [Control(f.opcode, f.payload)]))
    else if IsData(f.opcode) && st.open.None? then
      Some(Extend(st, Message(f.opcode, f.payload, f.fin)))
    else if f.opcode == CONTINUATION && st.open.Some? then
      Some(Extend(st, Message(st.open.value.kind, st.open.value.payload + f.payload, f.fin)))
    else None
  }

  function Extend(st: Sent, m: Message): Sent
  {
    if m.complete then st.(messages := st.messages + [m], open := None)
    else st.(open := Some(m))
  }

  function SendAll(isServer: bool, st: Sent, fs: seq<Frame>): (r: Option<Sent>)
    ensures r.Some? ==> forall f :: f in fs ==> f.opcode < 16
    decreases |fs|
  {
    if fs == [] then Some(st)
    else
      match Send(isServer, st, fs[0])
      case None => None
      case Some(next) =>
        var r := SendAll(isServer, next, fs[1..]);
        assert r.Some? ==> forall f :: f in fs ==> f == fs[0] || f in fs[1..];
        r
  }

  /** A sequence of frames that one side may legally put on the wire. */
  predicate Legal(isServer: bool, fs: seq<Frame>)
  {
    SendAll(isServer, NOTHING_SENT, fs).Some?
  }

  lemma {:induction false} SendAllConcat(isServer: bool, st: Sent, fs: seq<Frame>, gs: seq<Frame>)
    ensures SendAll(isServer, st, fs + gs)
         == match SendAll(isServer, st, fs)
            case None => None
            case Some(mid) => SendAll(isServer, mid, gs)
    decreases |fs|
  {
    if fs == [] {
      assert fs + gs == gs;
    } else {
      assert (fs + gs)[1..] == fs[1..] + gs;
      match Send(isServer, st, fs[0])
      case None =>
      case Some(next) => SendAllConcat(isServer, next, fs[1..], gs);
    }
  }

  /** After a close frame nothing more is legal. */
  lemma NothingAfterClose(isServer: bool, st: Sent, fs: seq<Frame>)
    requires st.closed.Some? && SendAll(isServer, st, fs).Some?
    ensures fs == []
  {
  }

  // ----- Decoding a byte stream -----

  /** Why decoding stops: the stream ends, at a frame boundary or inside a
      frame; the peer breaks the protocol; a length does not fit 63 bits; or
      a close frame arrives. */
  datatype Ending = Cut | Violation | TooLong | Closed(code: int, text: seq<byte>)

  /** The head of one frame and the bytes that follow it. `open` says whether a
      message is in progress. */
  datatype Start = Stop(ending: Ending)
                 | Begin(fin: bool, opcode: nat, mask: Option<Key>, length: nat, rest: seq<byte>)

  function LengthBytes(b1: byte): nat
  {
    if b1 % 128 == 126 then 2 else if b1 % 128 == 127 then 8 else 0
  }

  predicate OpcodeAllowed(opcode: nat, fin: bool, length7: nat, open: bool)
  {
    if IsControl(opcode) then fin && length7 <= MAX_CONTROL_PAYLOAD
    else if IsData(opcode) then !open
    else opcode == CONTINUATION && open
  }

  function StartFrame(s: seq<byte>, isServer: bool, open: bool): (r: Start)
    ensures r.Begin? ==> |r.rest| < |s| && r.length < TWO_63
    ensures r.Begin? ==> (r.mask.Some? <==> isServer)
    ensures r.Begin? ==> r.rest == s[|s| - |r.rest|..]
    ensures r.Begin? ==> OpcodeAllowed(r.opcode, r.fin, 0, open)
    ensures r.Begin? && IsControl(r.opcode) ==> r.length <= MAX_CONTROL_PAYLOAD
  {
    if |s| < 2 then Stop(Cut)
    else
      var fin, opcode := s[0] >= FINAL_BIT, s[0] % 16;
      var ext := LengthBytes(s[1]);
      if s[0] / 16 % 8 != 0 || !OpcodeAllowed(opcode, fin, s[1] % 128, open) then Stop(Violation)
      else if |s| < 2 + ext then Stop(Cut)
      else
        var length := if ext == 0 then s[1] % 128 else FromBigEndian(s[2..2 + ext]);
        if length >= TWO_63 then Stop(TooLong)
        else if (s[1] >= MASK_BIT) != isServer then Stop(Violation)
        else if !isServer then Begin(fin, opcode, None, length, s[2 + ext..])
        else if |s| < 2 + ext + 4 then Stop(Cut)
        else Begin(fin, opcode, Some(s[2 + ext..2 + ext + 4]), length, s[2 + ext + 4..])
  }

  function Unmasked(mask: Option<Key>, s: seq<byte>): (r: seq<byte>)
    ensures |r| == |s|
  {
    if mask.Some? then Masked(mask.value, 0, s) else s
  }

  /** How a close frame ends the stream: section 5.5.1, with the codes that may
      be received. A one-byte payload counts as no status. */
  function CloseEnding(payload: seq<byte>): Ending
  {
    if |payload| < 2 then Closed(NO_STATUS_RECEIVED, [])
    else if !ValidReceivedCloseCode(FromBigEndian(payload[..2])) || !Utf8.WellFormed(payload[2..]) then Violation
    else Closed(FromBigEndian(payload[..2]), payload[2..])
  }

  predicate ValidReceivedCloseCode(code: int)
  {
    || code in {1000, 1001, 1002, 1003, 1007, 1008, 1009, 1010, 1011, 1012, 1013}
    || 3000 <= code <= 4999
  }

  /** Everything in a byte stream: the rest of the message in progress and
      whether that message is complete, the messages after it, the pings and
      pongs, and how the stream ends. With no message in progress `more` is
      empty and `done` holds. */
  datatype Script = Script(more: seq<byte>, done: bool, messages: seq<Message>, controls: seq<Control>, ending: Ending)

  /** The one-pass decoder. */
  function Play(s: seq<byte>, isServer: bool, open: bool): (p: Script)
    ensures !open ==> p.more == [] && p.done
    decreases |s|
  {
    match StartFrame(s, isServer, open)
    case Stop(e) => Script([], !open, [], [], e)
    case Begin(fin, opcode, mask, length, rest) =>
      if |rest| < length then
        if IsControl(opcode) then Script([], !open, [], [], Cut)
        else if opcode == CONTINUATION then Script(Unmasked(mask, rest), false, [], [], Cut)
        else Script([], true, [Message(opcode, Unmasked(mask, rest), false)], [], Cut)
      else
        var payload := Unmasked(mask, rest[..length]);
        if opcode == CLOSE then Script([], !open, [], [], CloseEnding(payload))
        else Prepend(opcode, payload, Play(rest[length..], isServer, StillOpen(opcode, fin, open)))
  }

  /** Whether a message is in progress after a frame. */
  predicate StillOpen(opcode: nat, fin: bool, open: bool) {
    if IsControl(opcode) then open else !fin
  }

  /** One whole frame before what a script holds. */
  function Prepend(opcode: nat, payload: seq<byte>, p: Script): Script
  {
    if IsControl(opcode) then p.(controls := [Control(opcode, payload)] + p.controls)
    else if opcode == CONTINUATION then p.(more := payload + p.more)
    else p.(more := [], done := true, messages := [Message(opcode, payload + p.more, p.done)] + p.messages)
  }

  // ----- The lengths that frames announce -----

  /** What data frames announce: those that go on with the open message; the first
      frame of each message after it; all frames of each of these. `torn` says that the
      stream ends inside a frame of the open message. */
  datatype Counts = Counts(more: nat, firsts: seq<nat>, messages: seq<nat>, torn: bool)

  const NO_COUNTS := Counts(0, [], [], false)
  const TORN := Counts(0, [], [], true)

  /** Up to the first frame of the next message, that one included. */
  function Next(n: Counts): nat {
    n.more + if n.firsts == [] then 0 else n.firsts[0]
  }

  /** A first frame announces at most what its message does. */
  predicate Sized(n: Counts) {
    |n.firsts| == |n.messages| && forall i :: 0 <= i < |n.firsts| ==> n.firsts[i] <= n.messages[i]
  }

  /** The decoder once more, for lengths alone. */
  function Count(s: seq<byte>, isServer: bool, open: bool): (n: Counts)
    ensures !open ==> n.more == 0
    decreases |s|
  {
    match StartFrame(s, isServer, open)
    case Stop(_) => NO_COUNTS
    case Begin(fin, opcode, _, length, rest) =>
      if IsControl(opcode) then
        if opcode == CLOSE || |rest| < length then NO_COUNTS else Count(rest[length..], isServer, open)
      else CountFrame(opcode, length, if |rest| < length then TORN else Count(rest[length..], isServer, !fin))
  }

  /** One data frame before what `n` counts. */
  function CountFrame(opcode: nat, length: nat, n: Counts): Counts {
    if opcode == CONTINUATION then Counts(length + n.more, n.firsts, n.messages, n.torn)
    else Counts(0, [length] + n.firsts, [length + n.more] + n.messages, false)
  }

  lemma {:induction false} CountIsSized(s: seq<byte>, isServer: bool, open: bool)
    ensures Sized(Count(s, isServer, open))
    decreases |s|
  {
    hide StartFrame, Sized, CountFrame;
    SizedNothing();
    match StartFrame(s, isServer, open)
    case Stop(_) =>
    case Begin(fin, opcode, _, length, rest) =>
      if length <= |rest| {
        var open' := StillOpen(opcode, fin, open);
        CountIsSized(rest[length..], isServer, open');
        SizedFrame(opcode, length, Count(rest[length..], isServer, open'));
      } else {
        SizedFrame(opcode, length, TORN);
      }
  }

  lemma SizedNothing()
    ensures Sized(NO_COUNTS) && Sized(TORN)
  {
  }

  lemma SizedFrame(opcode: nat, length: nat, n: Counts)
    requires Sized(n)
    ensures Sized(CountFrame(opcode, length, n))
  {
  }

  /** Of each message at most its length is decoded, and all of it if it is complete. */
  ghost predicate Counted(p: Script, n: Counts) {
    && |p.more| <= n.more && (p.done ==> |p.more| == n.more)
    && |p.messages| == |n.messages|
    && forall i :: 0 <= i < |p.messages| ==>
         |p.messages[i].payload| <= n.messages[i] && (p.messages[i].complete ==> |p.messages[i].payload| == n.messages[i])
  }

  lemma {:induction false} PlayIsCounted(s: seq<byte>, isServer: bool, open: bool)
    ensures Counted(Play(s, isServer, open), Count(s, isServer, open))
    decreases |s|
  {
    match StartFrame(s, isServer, open)
    case Stop(_) =>
    case Begin(fin, opcode, mask, length, rest) =>
      if length <= |rest| {
        PlayIsCounted(rest[length..], isServer, StillOpen(opcode, fin, open));
        hide StartFrame, Unmasked, Counted;
        if opcode != CLOSE {
          CountedFrame(opcode, Unmasked(mask, rest[..length]), Play(rest[length..], isServer, StillOpen(opcode, fin, open)),
                       Count(rest[length..], isServer, StillOpen(opcode, fin, open)));
        }
      }
  }

  lemma CountedFrame(opcode: nat, payload: seq<byte>, p: Script, n: Counts)
    requires Counted(p, n)
    ensures Counted(Prepend(opcode, payload, p), if IsControl(opcode) then n else CountFrame(opcode, |payload|, n))
  {
  }

  function Sum(ns: seq<nat>): nat {
    if ns == [] then 0 else Sum(ns[..|ns| - 1]) + ns[|ns| - 1]
  }

  lemma {:induction false} SumConcat(a: seq<nat>, b: seq<nat>)
    ensures Sum(a + b) == Sum(a) + Sum(b)
    decreases |b|
  {
    if b == [] {
      assert a + b == a;
    } else {
      assert (a + b)[..|a + b| - 1] == a + b[..|b| - 1];
      SumConcat(a, b[..|b| - 1]);
    }
  }

  lemma SumOne(n: nat)
    ensures Sum([n]) == n
  {
    assert [n][..0] == [];
  }

  lemma SumFirst(n: nat, ns: seq<nat>)
    ensures Sum([n] + ns) == n + Sum(ns)
  {
    SumConcat([n], ns);
    SumOne(n);
  }

  /** The first i + 1 of them, and all of them. */
  lemma SumUpTo(ns: seq<nat>, i: nat)
    requires i < |ns|
    ensures Sum(ns[..i + 1]) == Sum(ns[..i]) + ns[i] <= Sum(ns)
  {
    hide Sum;
    SumConcat(ns[..i], [ns[i]]);
    SumOne(ns[i]);
    SumConcat(ns[..i + 1], ns[i + 1..]);
    assert ns[..i] + [ns[i]] == ns[..i + 1] && ns[..i + 1] + ns[i + 1..] == ns;
  }

  // ----- Encoding and decoding agree -----

  predicate Sendable(f: Frame) {
    f.opcode < 16 && |f.payload| < TWO_63
  }

  /** The length a frame header carries, once its extension is all there. */
  function CarriedLength(s: seq<byte>): nat
    requires |s| >= 2 && |s| >= 2 + LengthBytes(s[1])
  {
    if LengthBytes(s[1]) == 0 then s[1] % 128 else FromBigEndian(s[2..2 + LengthBytes(s[1])])
  }

  lemma HeadFields(fin: bool, opcode: nat, masked: bool, n: nat)
    requires opcode < 16 && n < TWO_63
    ensures var s := Head(fin, opcode, masked, n);
      && |s| == 2 + LengthBytes(s[1])
      && (s[0] >= FINAL_BIT <==> fin) && s[0] % 16 == opcode && s[0] / 16 % 8 == 0
      && (s[1] >= MASK_BIT <==> masked)
      && CarriedLength(s) == n
      && (n <= MAX_CONTROL_PAYLOAD ==> s[1] % 128 == n)
  {
    var s, low := Head(fin, opcode, masked, n), Low(n);
    HeadShape(fin, opcode, masked, n);
    FirstByte(fin, opcode);
    SecondByte(masked, low);
    hide FromBigEndian, BigEndian, Pow256, Head;
    if low >= 126 {
      LengthBack(n, LengthBytes(s[1]));
    }
  }

  /** The seven length bits of a header. */
  function Low(n: nat): nat {
    if n >= 65536 then 127 else if n > 125 then 126 else n
  }

  lemma HeadShape(fin: bool, opcode: nat, masked: bool, n: nat)
    requires opcode < 16
    ensures var s, ext := Head(fin, opcode, masked, n), if n >= 65536 then 8 else if n > 125 then 2 else 0;
      && |s| == 2 + ext && (ext > 0 ==> s[2..2 + ext] == BigEndian(n, ext))
      && s[0] == opcode + (if fin then FINAL_BIT else 0)
      && s[1] == Low(n) + (if masked then MASK_BIT else 0)
  {
    hide BigEndian;
  }

  lemma LengthBack(n: nat, ext: nat)
    requires n < TWO_63 && (ext == 8 || (ext == 2 && n < 0x1_0000))
    ensures FromBigEndian(BigEndian(n, ext)) == n
  {
    hide FromBigEndian, BigEndian, Pow256;
    Pow256Values();
    BigEndianInverse(n, ext);
  }

  lemma FirstByte(fin: bool, opcode: nat)
    requires opcode < 16
    ensures var b := opcode + if fin then FINAL_BIT else 0;
      (b >= FINAL_BIT <==> fin) && b % 16 == opcode && b / 16 % 8 == 0
  {
    assert (opcode + 128) / 16 == 8;
  }

  lemma SecondByte(masked: bool, low: nat)
    requires low < 128
    ensures var b := low + if masked then MASK_BIT else 0; (b >= MASK_BIT <==> masked) && b % 128 == low
  {
  }

  lemma StartWithHead(head: seq<byte>, body: seq<byte>, isServer: bool, open: bool)
    requires |head| >= 2 && |head| == 2 + LengthBytes(head[1])
    requires head[0] / 16 % 8 == 0 && OpcodeAllowed(head[0] % 16, head[0] >= FINAL_BIT, head[1] % 128, open)
    requires CarriedLength(head) < TWO_63
    requires (head[1] >= MASK_BIT) == isServer && (isServer ==> |body| >= 4)
    ensures StartFrame(head + body, isServer, open)
         == Begin(head[0] >= FINAL_BIT, head[0] % 16, if isServer then Some(body[..4]) else None,
                  CarriedLength(head), if isServer then body[4..] else body)
  {
    var s := head + body;
    var n := |head|;
    assert s[0] == head[0] && s[1] == head[1];
    assert s[2..n] == head[2..n];
    assert s[n..] == body;
    if isServer {
      assert s[n..n + 4] == body[..4] && s[n + 4..] == body[4..];
    }
  }

  lemma BodySplit(key: Key, payload: seq<byte>, t: seq<byte>)
    ensures |Body(Some(key), payload) + t| >= 4
    ensures (Body(Some(key), payload) + t)[..4] == key
    ensures (Body(Some(key), payload) + t)[4..] == Masked(key, 0, payload) + t
  {
  }

  lemma EncodedHead(f: Frame, t: seq<byte>, open: bool)
    requires Sendable(f) && OpcodeAllowed(f.opcode, f.fin, |f.payload|, open)
    requires f.mask.Some? ==> |Body(f.mask, f.payload) + t| >= 4
    ensures var body := Body(f.mask, f.payload) + t;
      StartFrame(EncodeFrame(f) + t, f.mask.Some?, open)
      == Begin(f.fin, f.opcode, if f.mask.Some? then Some(body[..4]) else None, |f.payload|,
               if f.mask.Some? then body[4..] else body)
  {
    var head := Head(f.fin, f.opcode, f.mask.Some?, |f.payload|);
    HeadFields(f.fin, f.opcode, f.mask.Some?, |f.payload|);
    var body := Body(f.mask, f.payload) + t;
    assert EncodeFrame(f) + t == head + body;
    StartWithHead(head, body, f.mask.Some?, open);
  }

  /** The decoder finds in an encoded frame the head it was given. */
  lemma HeadStart(f: Frame, t: seq<byte>, open: bool)
    requires Sendable(f) && OpcodeAllowed(f.opcode, f.fin, |f.payload|, open)
    ensures StartFrame(EncodeFrame(f) + t, f.mask.Some?, open)
         == Begin(f.fin, f.opcode, f.mask, |f.payload|, Unmasked(f.mask, f.payload) + t)
  {
    if f.mask.Some? {
      BodySplit(f.mask.value, f.payload, t);
    }
    EncodedHead(f, t, open);
  }

  lemma MaskedBodyRestores(mask: Option<Key>, payload: seq<byte>, t: seq<byte>)
    ensures Unmasked(mask, (Unmasked(mask, payload) + t)[..|payload|]) == payload
    ensures (Unmasked(mask, payload) + t)[|payload|..] == t
  {
    var s := Unmasked(mask, payload);
    assert (s + t)[..|payload|] == s;
    if mask.Some? {
      MaskedTwice(mask.value, 0, payload);
    }
  }

  lemma LegalFrame(isServer: bool, st: Sent, f: Frame)
    requires Send(isServer, st, f).Some?
    ensures Sendable(f) && f.mask.Some? == !isServer
    ensures OpcodeAllowed(f.opcode, f.fin, |f.payload|, st.open.Some?)
  {
  }

  /** The decoder on a frame the peer may send next, and whatever follows. */
  lemma PlayOne(isServer: bool, st: Sent, f: Frame, t: seq<byte>)
    requires Send(isServer, st, f).Some?
    ensures f.opcode < 16
    ensures var open := st.open.Some?;
      Play(EncodeFrame(f) + t, !isServer, open) ==
        if f.opcode == CLOSE then Script([], !open, [], [], CloseEnding(f.payload))
        else Prepend(f.opcode, f.payload, Play(t, !isServer, StillOpen(f.opcode, f.fin, open)))
  {
    LegalFrame(isServer, st, f);
    HeadStart(f, t, st.open.Some?);
    MaskedBodyRestores(f.mask, f.payload, t);
  }

  /** The messages the peer has had, the last one perhaps incomplete, if it had
      heard what `st` says and decodes `p` next. */
  function Heard(st: Sent, p: Script): seq<Message>
  {
    st.messages + InProgress(st.open, p.more, p.done) + p.messages
  }

  function InProgress(open: Option<Message>, more: seq<byte>, done: bool): seq<Message>
  {
    match open
    case None => []
    case Some(m) => [Message(m.kind, m.payload + more, done)]
  }

  /** All of what was sent, the message in progress last. */
  function AllMessages(st: Sent): seq<Message>
  {
    st.messages + InProgress(st.open, [], false)
  }

  /** Decoding the bytes of any legal sequence of frames, from any point of the
      conversation and whatever bytes follow, gives back what was sent. */
  lemma {:induction false} PlayEncoded(isServer: bool, st: Sent, fs: seq<Frame>, final: Sent, t: seq<byte>)
    requires SendAll(isServer, st, fs) == Some(final)
    requires st.closed.None?
    ensures var p, q := Play(EncodeFrames(fs) + t, !isServer, st.open.Some?), Play(t, !isServer, final.open.Some?);
      if final.closed.Some? then
        Heard(st, p) == AllMessages(final) && st.controls + p.controls == final.controls
        && p.ending == CloseEnding(final.closed.value)
      else
        Heard(st, p) == Heard(final, q) && st.controls + p.controls == final.controls + q.controls
        && p.ending == q.ending
    decreases |fs|
  {
    hide Play;
    if fs == [] {
      assert EncodeFrames(fs) + t == t;
    } else {
      var f := fs[0];
      var next := Send(isServer, st, f).value;
      var rest := EncodeFrames(fs[1..]) + t;
      assert EncodeFrames(fs) + t == EncodeFrame(f) + rest;
      PlayOne(isServer, st, f, rest);
      if f.opcode == CLOSE {
        NothingAfterClose(isServer, next, fs[1..]);
      } else {
        PlayEncoded(isServer, next, fs[1..], final, t);
        HeardPrepend(isServer, st, f, next, Play(rest, !isServer, next.open.Some?));
      }
    }
  }

  /** Hearing a frame and then the rest is hearing both. */
  lemma HeardPrepend(isServer: bool, st: Sent, f: Frame, next: Sent, p: Script)
    requires Send(isServer, st, f) == Some(next) && f.opcode != CLOSE
    requires next.open.None? ==> p.more == [] && p.done
    ensures next.closed.None? && next.open.Some? == StillOpen(f.opcode, f.fin, st.open.Some?)
    ensures var q := Prepend(f.opcode, f.payload, p);
      Heard(st, q) == Heard(next, p) && st.controls + q.controls == next.controls + p.controls
  {
    var q := Prepend(f.opcode, f.payload, p);
    if IsControl(f.opcode) {
      assert st.controls + q.controls == next.controls + p.controls;
    } else {
      if f.fin {
        assert f.payload + p.more == f.payload;
      }
      if f.opcode == CONTINUATION {
        var m := st.open.value;
        assert m.payload + (f.payload + p.more) == (m.payload + f.payload) + p.more;
      }
      assert Heard(st, q) == Heard(next, p);
    }
  }

  /** The round trip on the wire: the peer of a fresh connection decodes exactly
      the messages, pings and pongs sent, in order, and the close. */
  lemma RoundTrip(isServer: bool, fs: seq<Frame>, final: Sent)
    requires SendAll(isServer, NOTHING_SENT, fs) == Some(final)
    ensures Play(EncodeFrames(fs), !isServer, false)
         == Script([], true, AllMessages(final), final.controls,
                   if final.closed.Some? then CloseEnding(final.closed.value) else Cut)
  {
    hide Play;
    PlayEncoded(isServer, NOTHING_SENT, fs, final, []);
    assert EncodeFrames(fs) + [] == EncodeFrames(fs);
    PlayNothing(!isServer, final.open.Some?);
    HeardFromStart(Play(EncodeFrames(fs), !isServer, false));
    assert final.controls + [] == final.controls;
    assert Heard(final, Play([], !isServer, final.open.Some?)) == AllMessages(final);
  }

  lemma HeardFromStart(p: Script)
    requires p.more == [] && p.done
    ensures Heard(NOTHING_SENT, p) == p.messages && NOTHING_SENT.controls + p.controls == p.controls
  {
  }

  lemma PlayNothing(isServer: bool, open: bool)
    ensures Play([], isServer, open) == Script([], !open, [], [], Cut)
  {
  }

  /** What a wire of whole frames announces is what it carries. */
  ghost predicate Carried(p: Script, n: Counts, size: nat) {
    && n.more == |p.more| && |n.messages| == |p.messages|
    && (forall i :: 0 <= i < |p.messages| ==> n.messages[i] == |p.messages[i].payload|)
    && n.more + Sum(n.messages) <= size
  }

  lemma CountOne(isServer: bool, st: Sent, f: Frame, t: seq<byte>)
    requires Send(isServer, st, f).Some?
    ensures f.opcode < 16
    ensures var open := st.open.Some?;
      Count(EncodeFrame(f) + t, !isServer, open) ==
        if f.opcode == CLOSE then NO_COUNTS
        else if IsControl(f.opcode) then Count(t, !isServer, StillOpen(f.opcode, f.fin, open))
        else CountFrame(f.opcode, |f.payload|, Count(t, !isServer, StillOpen(f.opcode, f.fin, open)))
  {
    LegalFrame(isServer, st, f);
    HeadStart(f, t, st.open.Some?);
    MaskedBodyRestores(f.mask, f.payload, t);
  }

  lemma CarriedFrame(opcode: nat, payload: seq<byte>, p: Script, n: Counts, size: nat)
    requires Carried(p, n, size)
    ensures Carried(Prepend(opcode, payload, p), if IsControl(opcode) then n else CountFrame(opcode, |payload|, n), |payload| + size)
  {
    SumFirst(|payload| + n.more, n.messages);
    hide Sum;
  }

  lemma CarriedMore(p: Script, n: Counts, size: nat, more: nat)
    requires Carried(p, n, size) && size <= more
    ensures Carried(p, n, more)
  {
  }

  lemma CarriedStep(isServer: bool, st: Sent, f: Frame, next: Sent, rest: seq<byte>)
    requires Send(isServer, st, f) == Some(next) && f.opcode < 16
    requires Carried(Play(rest, !isServer, next.open.Some?), Count(rest, !isServer, next.open.Some?), |rest|)
    ensures var s := EncodeFrame(f) + rest;
      Carried(Play(s, !isServer, st.open.Some?), Count(s, !isServer, st.open.Some?), |s|)
  {
    hide *;
    PlayOne(isServer, st, f, rest);
    CountOne(isServer, st, f, rest);
    EncodedLength(f);
    OpenAfter(isServer, st, f, next);
    var size := |EncodeFrame(f)| + |rest|;
    var p, n := Play(rest, !isServer, next.open.Some?), Count(rest, !isServer, next.open.Some?);
    if f.opcode == CLOSE {
      ClosedCarries(!st.open.Some?, CloseEnding(f.payload), size);
    } else {
      CarriedFrame(f.opcode, f.payload, p, n, |rest|);
      CarriedMore(Prepend(f.opcode, f.payload, p), if IsControl(f.opcode) then n else CountFrame(f.opcode, |f.payload|, n),
                  |f.payload| + |rest|, size);
    }
  }

  lemma {:induction false} EncodedIsCarried(isServer: bool, st: Sent, fs: seq<Frame>)
    requires SendAll(isServer, st, fs).Some?
    ensures var s := EncodeFrames(fs);
      Carried(Play(s, !isServer, st.open.Some?), Count(s, !isServer, st.open.Some?), |s|)
    decreases |fs|
  {
    hide Play, Carried, Count, EncodeFrame, Send;
    if fs == [] {
      NothingCarried(!isServer, st.open.Some?);
    } else {
      var f := fs[0];
      var next := Send(isServer, st, f).value;
      EncodedIsCarried(isServer, next, fs[1..]);
      CarriedStep(isServer, st, f, next, EncodeFrames(fs[1..]));
    }
  }

  lemma NothingCarried(isServer: bool, open: bool)
    ensures Carried(Play([], isServer, open), Count([], isServer, open), 0)
  {
    assert Sum([]) == 0;
  }

  lemma ClosedCarries(done: bool, ending: Ending, size: nat)
    ensures Carried(Script([], done, [], [], ending), NO_COUNTS, size)
  {
    assert Sum([]) == 0;
  }

  lemma EncodedLength(f: Frame)
    requires f.opcode < 16
    ensures |f.payload| <= |EncodeFrame(f)|
  {
  }

  lemma OpenAfter(isServer: bool, st: Sent, f: Frame, next: Sent)
    requires Send(isServer, st, f) == Some(next)
    ensures next.open.Some? == StillOpen(f.opcode, f.fin, st.open.Some?)
  {
  }

  // ----- A connection cut inside a frame -----

  lemma CutHead(head: seq<byte>, body: seq<byte>, isServer: bool, open: bool, k: nat)
    requires |head| >= 2 && |head| == 2 + LengthBytes(head[1])
    requires head[0] / 16 % 8 == 0 && OpcodeAllowed(head[0] % 16, head[0] >= FINAL_BIT, head[1] % 128, open)
    requires CarriedLength(head) < TWO_63
    requires (head[1] >= MASK_BIT) == isServer
    requires k < |head| + (if isServer then 4 else 0) <= |head| + |body|
    ensures StartFrame((head + body)[..k], isServer, open) == Stop(Cut)
  {
    HeadBytes(head, body, k);
    hide FromBigEndian, OpcodeAllowed;
    var s := (head + body)[..k];
    if |s| < 2 {
      assert StartFrame(s, isServer, open) == Stop(Cut);
    } else {
      assert s[0] == head[0] && s[1] == head[1];
    }
  }

  /** What the front of a cut frame still says. */
  lemma HeadBytes(head: seq<byte>, body: seq<byte>, k: nat)
    requires 2 <= |head| && k <= |head| + |body|
    ensures var s := (head + body)[..k];
      && (k >= 2 ==> s[0] == head[0] && s[1] == head[1])
      && (k >= |head| ==> s[2..|head|] == head[2..|head|])
  {
    if k >= |head| {
      TakeFirst(head, body, k - |head|);
      InFirst(head, body[..k - |head|]);
    }
  }

  lemma InFirst(head: seq<byte>, rest: seq<byte>)
    requires 2 <= |head|
    ensures (head + rest)[2..|head|] == head[2..|head|]
  {
  }

  /** What a frame cut short adds to what was heard: part of its payload at
      most, and never the end of a message. */
  ghost predicate OnlyPart(f: Frame, open: bool, p: Script)
  {
    && p.controls == [] && p.ending == Cut
    && (IsControl(f.opcode) || f.opcode == CONTINUATION ==> p.messages == [])
    && (f.opcode == CONTINUATION ==> p.more <= f.payload && !p.done)
    && (IsControl(f.opcode) ==> p.more == [] && p.done == !open)
    && (IsData(f.opcode) ==> p.more == [] && p.done == !open)
    && (IsData(f.opcode) && p.messages != [] ==>
          |p.messages| == 1 && p.messages[0].kind == f.opcode && p.messages[0].payload <= f.payload && !p.messages[0].complete)
  }

  lemma MaskedPrefix(key: Key, pos: int, s: seq<byte>, m: nat)
    requires m <= |s|
    ensures Masked(key, pos, s)[..m] == Masked(key, pos, s[..m])
  {
    MaskedConcat(key, pos, s[..m], s[m..]);
    assert s == s[..m] + s[m..];
  }

  lemma CutFrame(isServer: bool, st: Sent, f: Frame, k: nat)
    requires Send(isServer, st, f).Some? && f.opcode < 16 && k < |EncodeFrame(f)|
    ensures OnlyPart(f, st.open.Some?, Play(EncodeFrame(f)[..k], !isServer, st.open.Some?))
  {
    LegalFrame(isServer, st, f);
    var open := st.open.Some?;
    var n := |EncodeFrame(f)| - |f.payload|;
    if k < n {
      CutEarly(f, open, k);
    } else {
      CutBody(f, open, k - n);
      hide EncodeFrame, StartFrame, OpcodeAllowed, Play, OnlyPart;
      CutPayload(f, open, EncodeFrame(f)[..k], k - n);
    }
  }

  lemma CutEarly(f: Frame, open: bool, k: nat)
    requires Sendable(f) && OpcodeAllowed(f.opcode, f.fin, |f.payload|, open) && k + |f.payload| < |EncodeFrame(f)|
    ensures OnlyPart(f, open, Play(EncodeFrame(f)[..k], f.mask.Some?, open))
  {
    var head, body := Head(f.fin, f.opcode, f.mask.Some?, |f.payload|), Body(f.mask, f.payload);
    HeadFields(f.fin, f.opcode, f.mask.Some?, |f.payload|);
    var n := |head| + (if f.mask.Some? then 4 else 0);
    assert EncodeFrame(f) == head + body && |body| == n - |head| + |f.payload|;
    assert OpcodeAllowed(f.opcode, f.fin, head[1] % 128, open);
    hide Head, Body, EncodeFrame, StartFrame, OpcodeAllowed;
    CutHead(head, body, f.mask.Some?, open, k);
  }

  lemma CutPayload(f: Frame, open: bool, s: seq<byte>, m: nat)
    requires m < |f.payload| && OpcodeAllowed(f.opcode, f.fin, |f.payload|, open)
    requires StartFrame(s, f.mask.Some?, open) == Begin(f.fin, f.opcode, f.mask, |f.payload|, Unmasked(f.mask, f.payload)[..m])
    ensures OnlyPart(f, open, Play(s, f.mask.Some?, open))
  {
    hide StartFrame, Masked;
    if f.mask.Some? {
      MaskedPrefix(f.mask.value, 0, f.payload, m);
      MaskedTwice(f.mask.value, 0, f.payload[..m]);
    }
    assert Unmasked(f.mask, Unmasked(f.mask, f.payload)[..m]) == f.payload[..m];
  }

  lemma CutBody(f: Frame, open: bool, m: nat)
    requires Sendable(f) && OpcodeAllowed(f.opcode, f.fin, |f.payload|, open) && m <= |f.payload|
    ensures var n := |EncodeFrame(f)| - |f.payload|;
      && 0 <= n
      && StartFrame(EncodeFrame(f)[..n + m], f.mask.Some?, open)
         == Begin(f.fin, f.opcode, f.mask, |f.payload|, Unmasked(f.mask, f.payload)[..m])
  {
    hide Masked, StartFrame, Head, Body, EncodeFrame, OpcodeAllowed;
    var body := Body(f.mask, f.payload);
    BodyParts(f.mask, f.payload, m);
    CutStart(f, open, m + if f.mask.Some? then 4 else 0);
  }

  lemma BodyParts(mask: Option<Key>, payload: seq<byte>, m: nat)
    requires m <= |payload|
    ensures var body := Body(mask, payload);
      if mask.Some?
      then && |body| == 4 + |payload| && body[..m + 4][..4] == mask.value
           && body[..m + 4][4..] == Unmasked(mask, payload)[..m]
      else body == payload
  {
    if mask.Some? {
      TakeKey(mask.value, Masked(mask.value, 0, payload), m);
    }
  }

  /** A frame cut in or after its key. */
  lemma CutStart(f: Frame, open: bool, j: nat)
    requires Sendable(f) && OpcodeAllowed(f.opcode, f.fin, |f.payload|, open)
    requires j <= |Body(f.mask, f.payload)| && (f.mask.Some? ==> j >= 4)
    ensures var body := Body(f.mask, f.payload);
      var n := |EncodeFrame(f)| - |body|;
      && 0 <= n
      && StartFrame(EncodeFrame(f)[..n + j], f.mask.Some?, open)
         == Begin(f.fin, f.opcode, if f.mask.Some? then Some(body[..j][..4]) else None, |f.payload|,
                  if f.mask.Some? then body[..j][4..] else body[..j])
  {
    var head, body := Head(f.fin, f.opcode, f.mask.Some?, |f.payload|), Body(f.mask, f.payload);
    HeadFields(f.fin, f.opcode, f.mask.Some?, |f.payload|);
    assert EncodeFrame(f) == head + body;
    assert OpcodeAllowed(f.opcode, f.fin, head[1] % 128, open);
    hide Head, Body, EncodeFrame, StartFrame, OpcodeAllowed;
    TakeFirst(head, body, j);
    StartWithHead(head, body[..j], f.mask.Some?, open);
  }

  lemma TakeFirst(s: seq<byte>, t: seq<byte>, j: nat)
    requires j <= |t|
    ensures (s + t)[..|s| + j] == s + t[..j]
  {
  }

  lemma TakeKey(key: Key, t: seq<byte>, m: nat)
    requires m <= |t|
    ensures (key + t)[..m + 4][..4] == key && (key + t)[..m + 4][4..] == t[..m]
  {
  }

  /** A connection lost in the middle of a frame: the peer hears every message
      sent before it, and of the frame itself at most part of the payload. */
  lemma TornRoundTrip(isServer: bool, fs: seq<Frame>, st: Sent, f: Frame, part: seq<byte>)
    requires SendAll(isServer, NOTHING_SENT, fs) == Some(st)
    requires Send(isServer, st, f).Some? && f.opcode < 16 && part < EncodeFrame(f)
    ensures var p := Play(EncodeFrames(fs) + part, !isServer, false);
      && st.messages <= p.messages && p.controls == st.controls && p.ending == Cut
      && (p.messages == st.messages
          || (|p.messages| == |st.messages| + 1 && !p.messages[|st.messages|].complete
              && p.messages[|st.messages|].payload <= (if st.open.Some? then st.open.value.payload else []) + f.payload))
  {
    hide Play, EncodeFrame, OnlyPart;
    PlayEncoded(isServer, NOTHING_SENT, fs, st, part);
    assert part == EncodeFrame(f)[..|part|];
    CutFrame(isServer, st, f, |part|);
    PartHeard(isServer, st, f, Play(part, !isServer, st.open.Some?));
    HeardFromStart(Play(EncodeFrames(fs) + part, !isServer, false));
  }

  lemma PartHeard(isServer: bool, st: Sent, f: Frame, q: Script)
    requires Send(isServer, st, f).Some? && OnlyPart(f, st.open.Some?, q)
    ensures q.controls == [] && q.ending == Cut
    ensures var messages := Heard(st, q);
      && st.messages <= messages
      && (messages == st.messages
          || (|messages| == |st.messages| + 1 && !messages[|st.messages|].complete
              && messages[|st.messages|].payload <= (if st.open.Some? then st.open.value.payload else []) + f.payload))
  {
    if st.open.Some? {
      var m := st.open.value;
      assert Heard(st, q) == st.messages + [Message(m.kind, m.payload + q.more, false)];
      assert q.more <= f.payload;
    } else {
      assert Heard(st, q) == st.messages + q.messages;
      assert [] + f.payload == f.payload;
    }
  }
}
