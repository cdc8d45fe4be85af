/** The read side of a connection: src/github.com/gorilla/websocket/conn.go,
    lines 327 to 363 and 787 to 1054. A resumable machine that may stop between
    any two bytes of a message, against the one-pass decoder Frames.Play. */
module Reader {
  import opened Options
  import opened Bytes
  import opened Mask
  import opened Frames
  import Utf8

  datatype ReadError = EOF | UnexpectedEOF | SourceFailure | ProtocolError | ReadLimit
                     | CloseReceived(code: int, text: seq<byte>) | HandlerFailed | InternalError

  /** Two's complement addition of 64-bit integers. */
  function Add64(a: int, b: int): int
  {
    if a + b >= TWO_63 then a + b - 2 * TWO_63
    else if a + b < -TWO_63 then a + b + 2 * TWO_63
    else a + b
  }

  /** What is still to come when `remaining` bytes of the current frame have not
      been read: the rest of that frame, then the rest of the stream. */
  function Resume(s: seq<byte>, remaining: nat, mask: Option<Key>, pos: int, final: bool): (p: Script)
    ensures final && remaining == 0 ==> p.more == [] && p.done
  {
    if |s| < remaining then Script(UnmaskedFrom(mask, pos, s), false, [], [], Cut)
    else
      var p := Play(s[remaining..], mask.Some?, !final);
      p.(more := UnmaskedFrom(mask, pos, s[..remaining]) + p.more)
  }

  /** The lengths that what is still to come announces; those of the current frame's
      head are not among them. */
  function CountRest(s: seq<byte>, remaining: nat, isServer: bool, final: bool): (n: Counts)
    ensures final ==> n.more == 0
    ensures Sized(n)
  {
    if |s| < remaining then TORN
    else
      CountIsSized(s[remaining..], isServer, !final);
      Count(s[remaining..], isServer, !final)
  }

  function UnmaskedFrom(mask: Option<Key>, pos: int, s: seq<byte>): (r: seq<byte>)
    ensures |r| == |s|
  {
    if mask.Some? then Masked(mask.value, pos, s) else s
  }

  /** The error by which the reader reports how the stream ends. A cut met while
      the rest of an unread frame is skipped shows as the source's own EOF. */
  ghost predicate Reports(e: Ending, err: ReadError, source: ReadError)
  {
    match e
    case Cut => err == source || (source == EOF && err == UnexpectedEOF)
    case Violation => err == ProtocolError
    case TooLong => err == ReadLimit
    case Closed(code, text) => err == CloseReceived(code, text)
  }

  lemma ResumeAtStart(s: seq<byte>, mask: Option<Key>, pos: int, final: bool)
    ensures Resume(s, 0, mask, pos, final) == Play(s, mask.Some?, !final)
  {
    hide Play, UnmaskedFrom;
    var p := Play(s, mask.Some?, !final);
    assert s[0..] == s && UnmaskedFrom(mask, pos, s[..0]) == [];
    assert [] + p.more == p.more;
  }

  /** Without a mask the position in the key does not matter. */
  lemma NoMaskNoPosition(s: seq<byte>, remaining: nat, pos: int, pos': int, final: bool)
    ensures Resume(s, remaining, None, pos, final) == Resume(s, remaining, None, pos', final)
  {
    hide Play;
  }

  lemma CountAtStart(s: seq<byte>, isServer: bool, final: bool)
    ensures CountRest(s, 0, isServer, final) == Count(s, isServer, !final)
  {
    assert s[0..] == s;
  }

  /** Reading bytes of a frame announces nothing. */
  lemma CountLater(s: seq<byte>, remaining: nat, isServer: bool, final: bool, m: nat)
    requires m <= remaining && m <= |s|
    ensures CountRest(s[m..], remaining - m, isServer, final) == CountRest(s, remaining, isServer, final)
  {
    hide Count;
    if remaining <= |s| {
      CutTwice(s, m, remaining);
    }
  }

  /** Reading `m` more bytes of the frame takes them off the front of what is to
      come. */
  lemma ResumeLater(s: seq<byte>, remaining: nat, mask: Option<Key>, pos: int, final: bool, m: nat)
    requires m <= remaining && m <= |s|
    ensures var p, q := Resume(s, remaining, mask, pos, final), Resume(s[m..], remaining - m, mask, KeyPos(pos + m), final);
      p == q.(more := UnmaskedFrom(mask, pos, s[..m]) + q.more)
  {
    hide Play, UnmaskedFrom, KeyPos;
    if |s| < remaining {
      UnmaskedConcat(mask, pos, s[..m], s[m..]);
      assert s[..m] + s[m..] == s;
    } else {
      UnmaskedConcat(mask, pos, s[..m], s[m..remaining]);
      CutTwice(s, m, remaining);
    }
  }

  lemma CutTwice(s: seq<byte>, m: nat, n: nat)
    requires m <= n <= |s|
    ensures s[m..][..n - m] == s[m..n] && s[m..][n - m..] == s[n..] && s[..m] + s[m..n] == s[..n]
  {
  }

  lemma UnmaskedConcat(mask: Option<Key>, pos: int, s: seq<byte>, t: seq<byte>)
    ensures UnmaskedFrom(mask, pos, s + t) == UnmaskedFrom(mask, pos, s) + UnmaskedFrom(mask, KeyPos(pos + |s|), t)
  {
    hide Masked, KeyPos;
    if mask.Some? {
      MaskedConcat(mask.value, pos, s, t);
      MaskedReduce(mask.value, pos + |s|, t);
    }
  }

  /** A new message, holding what is next to come, before the rest. */
  function Announce(kind: nat, q: Script): Script
  {
    q.(more := [], done := true, messages := [Message(kind, q.more, q.done)] + q.messages)
  }

  /** The decoder, past the head of a data frame. */
  lemma PlayData(s: seq<byte>, isServer: bool, open: bool)
    requires var b := StartFrame(s, isServer, open); b.Begin? && !IsControl(b.opcode)
    ensures var b, p := StartFrame(s, isServer, open), Play(s, isServer, open);
      var q := Resume(b.rest, b.length, b.mask, 0, b.fin);
      p == if b.opcode == CONTINUATION then q else Announce(b.opcode, q)
    ensures var b := StartFrame(s, isServer, open);
      Count(s, isServer, open) == CountFrame(b.opcode, b.length, CountRest(b.rest, b.length, isServer, b.fin))
  {
  }

  lemma StartAllows(s: seq<byte>, isServer: bool, open: bool)
    requires StartFrame(s, isServer, open).Begin?
    ensures var b := StartFrame(s, isServer, open);
      && |b.rest| < |s| && b.length < TWO_63
      && (IsControl(b.opcode) ==> b.length <= MAX_CONTROL_PAYLOAD && b.fin)
      && (!IsControl(b.opcode) && b.opcode != CONTINUATION ==> IsData(b.opcode) && !open)
  {
  }

  /** The decoder, at a head it does not accept. */
  lemma PlayStop(s: seq<byte>, isServer: bool, open: bool)
    requires StartFrame(s, isServer, open).Stop?
    ensures Play(s, isServer, open) == Script([], !open, [], [], StartFrame(s, isServer, open).ending)
    ensures Count(s, isServer, open) == NO_COUNTS
  {
  }

  /** The decoder, at a control frame that ends the stream. */
  lemma PlayEnd(s: seq<byte>, isServer: bool, open: bool)
    requires var b := StartFrame(s, isServer, open); b.Begin? && IsControl(b.opcode) && (b.opcode == CLOSE || |b.rest| < b.length)
    ensures var b, p := StartFrame(s, isServer, open), Play(s, isServer, open);
      p == Script([], !open, [], [], if |b.rest| < b.length then Cut else CloseEnding(Unmasked(b.mask, b.rest[..b.length])))
    ensures Count(s, isServer, open) == NO_COUNTS
  {
  }

  /** The decoder, past a control frame other than close. */
  lemma PlayControl(s: seq<byte>, isServer: bool, open: bool)
    requires var b := StartFrame(s, isServer, open); b.Begin? && IsControl(b.opcode) && b.opcode != CLOSE && b.length <= |b.rest|
    ensures var b, p := StartFrame(s, isServer, open), Play(s, isServer, open);
      var q := Play(b.rest[b.length..], isServer, open);
      p == q.(controls := [Control(b.opcode, Unmasked(b.mask, b.rest[..b.length]))] + q.controls)
    ensures var b := StartFrame(s, isServer, open); Count(s, isServer, open) == Count(b.rest[b.length..], isServer, open)
  {
  }

  /** A handler can fail only on a control frame. */
  ghost predicate HandlersCalled(g: Script) {
    g.controls != [] || g.ending.Closed?
  }

  class MessageReader {
    const c: Conn
    /** Everything Read has delivered. */
    ghost var got: seq<byte>

    constructor (c: Conn)
      ensures this.c == c && got == []
    {
      this.c, got := c, [];
    }
  }

  class Conn {
    const isServer: bool
    /** No limit unless positive. */
    const readLimit: int

    /** The byte source: what it still holds, the error it ends with, and
        whether it may report that error together with its last bytes. */
    var input: seq<byte>
    const sourceError: ReadError
    const eager: bool
    /** Whether the handler of the k-th control frame, a close included, succeeds. */
    const accepts: nat -> bool

    var readErr: Option<ReadError>
    var readRemaining: int
    var readFinal: bool
    var readLength: int
    var readMaskPos: int
    var readMaskKey: Key
    var messageReader: MessageReader?
    /** The lengths announced by the data frames met since NextReader, summed
        without wrap. */
    ghost var announced: int
    /** The pings and pongs handed to the handlers. */
    var handled: seq<Control>

    ghost function MaskInUse(): Option<Key>
      reads this
    {
      if isServer then Some(readMaskKey) else None
    }

    /** All that is still to come. */
    ghost function Future(): Script
      reads this
      requires readRemaining >= 0
    {
      Resume(input, readRemaining, MaskInUse(), readMaskPos, readFinal)
    }

    /** The lengths still to be announced. */
    ghost function Ahead(): Counts
      reads this
      requires readRemaining >= 0
    {
      CountRest(input, readRemaining, isServer, readFinal)
    }

    /** All that counts for the current message, announced or still to come. */
    ghost function Whole(): int
      reads this
      requires readRemaining >= 0
    {
      announced + Ahead().more
    }

    ghost predicate Accepted()
      reads `handled
    {
      forall k :: 0 <= k < |handled| ==> accepts(k)
    }

    ghost predicate Refused()
      reads `handled
    {
      exists k :: 0 <= k <= |handled| && !accepts(k)
    }

    ghost predicate Valid()
      reads this, messageReader
    {
      && 0 <= readRemaining < TWO_63
      && (readErr.None? ==> 0 <= readLength == announced <= Cap())
      && (sourceError == EOF || sourceError == SourceFailure)
      && (messageReader != null ==> messageReader.c == this)
      && (messageReader != null && readErr.None? ==>
            && |messageReader.got| + readRemaining <= announced)
      && (messageReader != null && readLimit > 0 ==> |messageReader.got| <= readLimit)
      && (if readErr == Some(HandlerFailed) then Refused() else Accepted())
    }

    constructor (isServer: bool, readLimit: int, input: seq<byte>, sourceError: ReadError, eager: bool, accepts: nat -> bool)
      requires sourceError == EOF || sourceError == SourceFailure
      ensures Valid() && readErr.None? && messageReader == null && handled == []
      ensures this.isServer == isServer && this.readLimit == readLimit && this.eager == eager && this.sourceError == sourceError && this.accepts == accepts
      ensures Future() == Play(input, isServer, false) && Ahead() == Count(input, isServer, false)
    {
      this.isServer, this.readLimit := isServer, readLimit;
      this.input, this.sourceError, this.eager, this.accepts := input, sourceError, eager, accepts;
      readErr, readRemaining, readFinal, readLength, readMaskPos := None, 0, true, 0, 0;
      readMaskKey := [0, 0, 0, 0];
      messageReader := null;
      handled, announced := [], 0;
      new;
      ResumeAtStart(input, MaskInUse(), 0, true);
      CountAtStart(input, isServer, true);
    }

    /** Exactly `n` bytes of the source, or all there are and an error; an end of
        file there is unexpected. */
    method Take(n: nat) returns (p: seq<byte>, err: Option<ReadError>)
      modifies `input
      ensures |old(input)| >= n ==> err.None? && p == old(input)[..n] && input == old(input)[n..]
      ensures |old(input)| < n ==> err == Some(if sourceError == EOF then UnexpectedEOF else sourceError)
    {
      if |input| >= n {
        p, err := input[..n], None;
        input := input[n..];
      } else {
        p, err := input, Some(if sourceError == EOF then UnexpectedEOF else sourceError);
        input := [];
      }
    }

    method SetReadRemaining(n: int) returns (err: Option<ReadError>)
      modifies `readRemaining
      ensures n < 0 ==> err == Some(ReadLimit) && readRemaining == old(readRemaining)
      ensures n >= 0 ==> err.None? && readRemaining == n
    {
      if n < 0 {
        return Some(ReadLimit);
      }
      readRemaining := n;
      err := None;
    }

    /** Step 2 of advanceFrame: the first two bytes of the frame header. */
    method ReadFirstBytes() returns (frameType: nat, mask: bool, err: Option<ReadError>, ghost b1: byte)
      requires sourceError == EOF || sourceError == SourceFailure
      modifies `input, `readRemaining, `readFinal
      ensures frameType < 16
      ensures |old(input)| < 2 ==> err.Some? && Reports(Cut, err.value, sourceError)
      ensures |old(input)| >= 2 ==>
        var s := old(input);
        var bad := s[0] / 16 % 8 != 0 || !OpcodeAllowed(s[0] % 16, s[0] >= FINAL_BIT, s[1] % 128, !old(readFinal));
        && b1 == s[1] && input == s[2..]
        && (if bad then err == Some(ProtocolError)
            else && err.None? && frameType == s[0] % 16 && mask == (s[1] >= MASK_BIT) && readRemaining == s[1] % 128
                 && readFinal == if IsControl(frameType) then old(readFinal) else s[0] >= FINAL_BIT)
      ensures err != Some(EOF) && (0 <= old(readRemaining) < TWO_63 ==> 0 <= readRemaining < TWO_63)
    {
      var p;
      p, err := Take(2);
      if err.Some? {
        return 0, false, err, 0;
      }
      b1 := p[1];
      var final := p[0] >= FINAL_BIT;
      frameType := p[0] % 16;
      mask := p[1] >= MASK_BIT;
      var _ := SetReadRemaining(p[1] % 128);
      if p[0] / 16 % 8 != 0 {
        err := Some(ProtocolError);
      } else if IsControl(frameType) {
        if readRemaining > MAX_CONTROL_PAYLOAD {
          err := Some(ProtocolError);
        } else if !final {
          err := Some(ProtocolError);
        }
      } else if IsData(frameType) {
        if !readFinal {
          err := Some(ProtocolError);
        } else {
          readFinal := final;
        }
      } else if frameType == CONTINUATION {
        if readFinal {
          err := Some(ProtocolError);
        } else {
          readFinal := final;
        }
      } else {
        err := Some(ProtocolError);
      }
    }

    /** Step 3 of advanceFrame: the extended length, if the header has one. */
    method ReadLength(ghost b1: byte) returns (err: Option<ReadError>)
      requires sourceError == EOF || sourceError == SourceFailure
      requires readRemaining == b1 % 128
      modifies `input, `readRemaining
      ensures var s, ext := old(input), LengthBytes(b1);
        if |s| < ext then err.Some? && Reports(Cut, err.value, sourceError)
        else var n := if ext == 0 then b1 % 128 else FromBigEndian(s[..ext]);
             if n >= TWO_63 then err == Some(ReadLimit)
             else err.None? && readRemaining == n && input == s[ext..]
      ensures err != Some(EOF) && 0 <= readRemaining < TWO_63
    {
      err := None;
      if readRemaining == 126 || readRemaining == 127 {
        var p;
        p, err := Take(if readRemaining == 126 then 2 else 8);
        if err.None? {
          FromBigEndianRange(p);
          Pow256Values();
          err := SetReadRemaining(Int64(FromBigEndian(p)));
        }
      }
    }

    /** Step 4 of advanceFrame: the mask flag and the masking key. */
    method ReadMask(mask: bool) returns (err: Option<ReadError>)
      requires sourceError == EOF || sourceError == SourceFailure
      modifies `input, `readMaskPos, `readMaskKey
      ensures var s := old(input);
        if mask != isServer then err == Some(ProtocolError)
        else if !mask then err.None? && input == s
        else if |s| < 4 then err.Some? && Reports(Cut, err.value, sourceError)
        else err.None? && readMaskPos == 0 && readMaskKey == s[..4] && input == s[4..]
      ensures err != Some(EOF)
    {
      if mask != isServer {
        return Some(ProtocolError);
      }
      err := None;
      if mask {
        readMaskPos := 0;
        var p;
        p, err := Take(4);
        if err.None? {
          readMaskKey := p;
        }
      }
    }

    /** Steps 2 to 4: the frame header up to the masking key. */
    method ReadHeader() returns (frameType: nat, err: Option<ReadError>)
      requires sourceError == EOF || sourceError == SourceFailure
      modifies `input, `readRemaining, `readFinal, `readMaskPos, `readMaskKey
      ensures var b := StartFrame(old(input), isServer, !old(readFinal));
        if err.Some? then b.Stop? && Reports(b.ending, err.value, sourceError) && err != Some(EOF)
        else && b.Begin? && readRemaining >= 0
             && b == Begin(b.fin, frameType, MaskInUse(), readRemaining, input)
             && readFinal == (if IsControl(frameType) then old(readFinal) else b.fin)
             && (isServer ==> readMaskPos == 0)
      ensures 0 <= old(readRemaining) < TWO_63 ==> 0 <= readRemaining < TWO_63
    {
      hide FromBigEndian, OpcodeAllowed;
      ghost var s := input;
      var mask;
      ghost var b1;
      frameType, mask, err, b1 := ReadFirstBytes();
      if err.Some? {
        return;
      }
      err := ReadLength(b1);
      ghost var ext := LengthBytes(b1);
      if |s| >= 2 + ext {
        assert s[2..][..ext] == s[2..2 + ext] && s[2..][ext..] == s[2 + ext..];
      }
      if err.Some? {
        return;
      }
      err := ReadMask(mask);
      if |s| >= 2 + ext + 4 {
        assert s[2 + ext..][..4] == s[2 + ext..2 + ext + 4] && s[2 + ext..][4..] == s[2 + ext + 4..];
      }
    }

    /** The most one message may have been announced to hold. */
    ghost function Cap(): (r: int)
      ensures 0 < r < TWO_63 && (readLimit > 0 ==> r <= readLimit)
    {
      if 0 < readLimit < TWO_63 then readLimit else TWO_63 - 1
    }

    /** A user-supplied ping, pong or close handler. */
    method Handle(control: Control) returns (err: Option<ReadError>)
      modifies `handled
      ensures handled == old(handled) + [control] && err == if accepts(|old(handled)|) then None else Some(HandlerFailed)
    {
      err := if accepts(|handled|) then None else Some(HandlerFailed);
      handled := handled + [control];
    }

    /** Steps 6 and 7 of advanceFrame: a control frame's payload, handed to the
        handler of its type. */
    method ReadControl(frameType: nat) returns (err: Option<ReadError>)
      requires IsControl(frameType) && 0 <= readRemaining <= MAX_CONTROL_PAYLOAD
      requires sourceError == EOF || sourceError == SourceFailure
      modifies `input, `readRemaining, `handled
      ensures readRemaining == 0
      ensures var s, n := old(input), old(readRemaining);
        if |s| < n then err.Some? && Reports(Cut, err.value, sourceError) && handled == old(handled)
        else
          var payload := Unmasked(MaskInUse(), s[..n]);
          var end := CloseEnding(payload);
          && (frameType != CLOSE ==> && handled == old(handled) + [Control(frameType, payload)] && input == s[n..]
                                     && err == if accepts(|old(handled)|) then None else Some(HandlerFailed))
          && (frameType == CLOSE ==> && handled == old(handled)
                                     && (if end.Closed? && !accepts(|handled|) then err == Some(HandlerFailed)
                                         else err.Some? && Reports(end, err.value, sourceError)))
      ensures err != Some(EOF) && err != Some(ReadLimit)
    {
      var payload := [];
      if readRemaining > 0 {
        payload, err := Take(readRemaining);
        var _ := SetReadRemaining(0);
        if err.Some? {
          return;
        }
        if isServer {
          var pos;
          payload, pos := Unmask(readMaskKey, 0, payload);
        }
      }
      assert old(input)[..old(readRemaining)] == [] ==> old(readRemaining) == 0;
      if frameType != CLOSE {
        err := Handle(Control(frameType, payload));
        return;
      }
      var closeCode, closeText := NO_STATUS_RECEIVED, [];
      if |payload| >= 2 {
        closeCode := FromBigEndian(payload[..2]);
        if !ValidReceivedCloseCode(closeCode) {
          return Some(ProtocolError);
        }
        closeText := payload[2..];
        if !Utf8.WellFormed(closeText) {
          return Some(ProtocolError);
        }
      }
      err := Some(if accepts(|handled|) then CloseReceived(closeCode, closeText) else HandlerFailed);
    }

    /** Step 5 of advanceFrame: the length of the message so far, with wrap. */
    method CountLength() returns (err: Option<ReadError>)
      requires 0 <= readLength == announced < TWO_63 && 0 <= readRemaining < TWO_63
      modifies `readLength, `announced
      ensures announced == old(announced) + readRemaining
      ensures announced > Cap() <==> err == Some(ReadLimit)
      ensures announced <= Cap() <==> err.None?
      ensures err.None? ==> readLength == announced
    {
      announced := announced + readRemaining;
      readLength := Add64(readLength, readRemaining);
      // Two counts below 2^63 wrap to a negative sum, or not at all.
      if readLength < 0 {
        return Some(ReadLimit);
      }
      if readLimit > 0 && readLength > readLimit {
        return Some(ReadLimit);
      }
      err := None;
    }

    /** A frame was taken off the front of `g`, whose lengths were `counts`. */
    ghost predicate Took(frameType: nat, g: Script, counts: Counts, handled0: seq<Control>, announced0: int, final0: bool)
      reads this
      requires readRemaining >= 0
    {
      if IsControl(frameType) then
        && readRemaining == 0 && announced == announced0 && readFinal == final0 && counts == Ahead()
        && |handled| == |handled0| + 1 && handled == handled0 + [handled[|handled0|]]
        && g == Future().(controls := [handled[|handled0|]] + Future().controls)
      else
        && announced == announced0 + readRemaining <= Cap() && handled == handled0
        && (frameType == CONTINUATION || (IsData(frameType) && final0))
        && g == (if frameType == CONTINUATION then Future() else Announce(frameType, Future()))
        && counts == CountFrame(frameType, readRemaining, Ahead())
    }

    /** No frame was taken off `g`: a handler failed, the message is over the limit, or
        `g` holds nothing but its ending. */
    ghost predicate Stopped(e: ReadError, g: Script, counts: Counts, handled0: seq<Control>, announced0: int, final0: bool)
      reads this
    {
      if e == HandlerFailed then HandlersCalled(g) && Refused() && handled0 <= handled
      else
        && handled == handled0 && e != EOF
        && (OverLimit(e, counts, announced0, final0)
            || (&& g.more == [] && g.messages == [] && g.controls == [] && g.done == final0
                && Reports(g.ending, e, sourceError) && counts == NO_COUNTS))
    }

    /** The next frame's length takes the count over the limit. With a message open the
        frame is part of it. */
    ghost predicate OverLimit(e: ReadError, counts: Counts, announced0: int, final0: bool)
      reads this
    {
      e == ReadLimit && Cap() < announced <= announced0 + Next(counts) && (!final0 ==> announced <= announced0 + counts.more)
    }

    /** Steps 2 to 7 of advanceFrame: the next frame. `g` is all that was to
        come. */
    method NextFrame() returns (frameType: nat, err: Option<ReadError>, ghost g: Script)
      requires Valid() && readErr.None? && readRemaining == 0
      modifies `input, `readRemaining, `readFinal, `readLength, `announced, `readMaskPos, `readMaskKey, `handled
      ensures g == old(Future()) && 0 <= readRemaining < TWO_63
      ensures err.None? ==> |input| < |old(input)| && readLength == announced
      ensures err != Some(HandlerFailed) ==> Accepted()
      ensures match err
              case None => Took(frameType, g, old(Ahead()), old(handled), old(announced), old(readFinal))
              case Some(e) => Stopped(e, g, old(Ahead()), old(handled), old(announced), old(readFinal))
    {
      hide Play, Count, Resume, CountRest, StartFrame, CloseEnding, Unmasked, Add64;
      g := Future();
      ghost var s, open := input, !readFinal;
      ResumeAtStart(s, MaskInUse(), readMaskPos, readFinal);
      CountAtStart(s, isServer, readFinal);
      frameType, err := ReadHeader();
      if err.Some? {
        PlayStop(s, isServer, open);
        return;
      }
      StartAllows(s, isServer, open);
      if !IsControl(frameType) {
        PlayData(s, isServer, open);
        if !isServer {
          NoMaskNoPosition(input, readRemaining, 0, readMaskPos, readFinal);
        }
        err := CountLength();
        return;
      }
      err := ControlFrame(frameType, s, g);
    }

    /** A control frame, past its head. */
    method ControlFrame(frameType: nat, ghost s: seq<byte>, ghost g: Script) returns (err: Option<ReadError>)
      requires IsControl(frameType) && 0 <= readRemaining <= MAX_CONTROL_PAYLOAD && Accepted()
      requires sourceError == EOF || sourceError == SourceFailure
      requires StartFrame(s, isServer, !readFinal) == Begin(true, frameType, MaskInUse(), readRemaining, input)
      requires g == Play(s, isServer, !readFinal)
      modifies `input, `readRemaining, `handled
      ensures readRemaining == 0 && (err.None? ==> |input| < |s|) && (err != Some(HandlerFailed) ==> Accepted())
      ensures var counts := Count(s, isServer, !readFinal);
        match err
        case None => Took(frameType, g, counts, old(handled), announced, readFinal)
        case Some(e) => Stopped(e, g, counts, old(handled), announced, readFinal)
    {
      hide Play, Count, Resume, CountRest, StartFrame, CloseEnding, Unmasked;
      ghost var length, rest, open := readRemaining, input, !readFinal;
      StartAllows(s, isServer, open);
      err := ReadControl(frameType);
      if frameType == CLOSE || |rest| < length {
        PlayEnd(s, isServer, open);
      } else {
        PlayControl(s, isServer, open);
        ResumeAtStart(input, MaskInUse(), readMaskPos, readFinal);
        CountAtStart(input, isServer, readFinal);
      }
    }

    /** Advances past the rest of the current frame and the next frame, or fails; when
        the source ends in what is to be skipped, with the source's own error. */
    method AdvanceFrame() returns (frameType: nat, err: Option<ReadError>, ghost g: Script)
      requires Valid() && readErr.None?
      modifies `input, `readRemaining, `readFinal, `readLength, `announced, `readMaskPos, `readMaskKey, `handled
      ensures 0 <= readRemaining < TWO_63
      ensures g == old(Future()).(more := g.more) && (old(readRemaining) == 0 ==> g == old(Future()))
      ensures err.None? ==> |input| < |old(input)| && readLength == announced
      ensures err != Some(HandlerFailed) ==> Accepted()
      ensures if old(readRemaining) > |old(input)| then
                && err == Some(sourceError) && handled == old(handled) && old(Ahead()) == TORN
                && g.messages == [] && g.controls == [] && g.ending == Cut && !g.done
              else
                match err
                case None => Took(frameType, g, old(Ahead()), old(handled), old(announced), old(readFinal))
                case Some(e) => Stopped(e, g, old(Ahead()), old(handled), old(announced), old(readFinal))
    {
      hide Play, Count, Took, Stopped;
      if readRemaining > 0 {
        g := Future();
        if |input| < readRemaining {
          input := [];
          return 0, Some(sourceError), g;
        }
        CountAtStart(input[readRemaining..], isServer, readFinal);
        // What is skipped here is the part of g that Future() called more.
        input, readRemaining := input[readRemaining..], 0;
        ResumeAtStart(input, MaskInUse(), readMaskPos, readFinal);
      }
      frameType, err, g := NextFrame();
    }

    /** What is still to come agrees with `start`, except for the rest of the
        message in progress and the control frames handled since. */
    ghost predicate Continues(start: Script, since: nat)
      reads this
      requires readRemaining >= 0 && since <= |handled|
    {
      && start.messages == Future().messages && start.ending == Future().ending && start.done == Future().done
      && start.controls == handled[since..] + Future().controls
    }

    /** No message was left in `start`, and `e` says why. */
    ghost predicate NoneLeft(start: Script, counts: Counts, since: nat, e: ReadError)
      reads this
      requires since <= |handled|
    {
      && (e != HandlerFailed && e != ReadLimit ==>
            && start.messages == [] && start.controls == handled[since..] && Reports(start.ending, e, sourceError)
            && Next(counts) <= Cap())
      && (e == HandlerFailed ==> HandlersCalled(start))
      && (e == EOF ==> !start.done)
      && (e == ReadLimit ==>
            Next(counts) > Cap() || (start.messages == [] && start.controls == handled[since..] && start.ending == TooLong && !counts.torn))
      && (e != HandlerFailed && sourceError == EOF ==> (e == EOF <==> counts.torn && Next(counts) <= Cap()))
    }

    /** `counts` was to come when counting began, and nothing but frames of the open
        message and control frames since. */
    ghost predicate Counting(counts: Counts)
      reads this
      requires readRemaining >= 0
    {
      && announced + Ahead().more == counts.more && Ahead().firsts == counts.firsts
      && Ahead().messages == counts.messages && Ahead().torn == counts.torn
    }

    /** One turn of NextReader's loop. */
    method AdvanceBetween(ghost start: Script, ghost counts: Counts, ghost since: nat) returns (frameType: nat)
      requires Valid() && readErr.None? && messageReader == null
      requires since <= |handled| && Continues(start, since) && Counting(counts)
      modifies `readErr, `input, `readRemaining, `readFinal, `readLength, `announced, `readMaskPos, `readMaskKey, `handled
      ensures Valid() && old(handled) <= handled
      ensures readErr.Some? ==> NoneLeft(start, counts, since, readErr.value)
      ensures readErr.None? && !IsData(frameType) ==> |input| < |old(input)| && Continues(start, since) && Counting(counts)
      ensures readErr.None? && IsData(frameType) ==>
        && start.messages == [Message(frameType, Future().more, Future().done)] + Future().messages
        && start.controls == handled[since..] + Future().controls && start.ending == Future().ending
        && readRemaining <= announced
        && announced == Next(counts) && |counts.firsts| > 0 && Ahead().firsts == counts.firsts[1..]
        && counts.messages == [Whole() - counts.more] + Ahead().messages
    {
      hide Resume, CountRest, Play, Count;
      ghost var before := handled;
      ghost var g;
      frameType, readErr, g := AdvanceFrame();
      assert handled[since..] == before[since..] + handled[|before|..];
    }

    /** The next data message: its type, and a reader that will deliver exactly
        what is left of it, the rest of any message before it skipped. */
    method NextReader() returns (messageType: nat, r: MessageReader?, err: Option<ReadError>)
      requires Valid()
      modifies this
      ensures Valid() && err == readErr && (err.Some? <==> r == null)
      ensures messageReader == r && (r != null ==> fresh(r) && r.got == [] && r.c == this)
      ensures old(readErr).Some? ==> err == old(readErr) && input == old(input) && handled == old(handled) && announced == old(announced)
      ensures old(handled) <= handled
      ensures err.None? ==>
        && IsData(messageType)
        && old(Future()).messages == [Message(messageType, Future().more, Future().done)] + Future().messages
        && old(Future()).controls == handled[|old(handled)|..] + Future().controls
        && old(Future()).ending == Future().ending
        && announced == Next(old(Ahead())) && |old(Ahead()).firsts| > 0 && Ahead().firsts == old(Ahead()).firsts[1..]
        && old(Ahead()).messages == [Whole() - old(Ahead()).more] + Ahead().messages
      ensures old(readErr).None? && err.Some? ==> NoneLeft(old(Future()), old(Ahead()), |old(handled)|, err.value)
    {
      hide Resume, CountRest, Play, Count, Reports;
      messageReader := null;
      readLength := 0;
      announced := if readErr.None? then 0 else announced;
      ghost var start, counts := Future(), Ahead();
      while readErr.None?
        invariant Valid() && messageReader == null && (old(readErr).None? || (readErr == old(readErr) && input == old(input)))
        invariant old(handled) <= handled && (old(readErr).Some? ==> handled == old(handled) && announced == old(announced))
        invariant readErr.None? ==> Continues(start, |old(handled)|) && Counting(counts)
        invariant old(readErr).None? && readErr.Some? ==> NoneLeft(start, counts, |old(handled)|, readErr.value)
        decreases readErr.None?, |input|
      {
        var frameType := AdvanceBetween(start, counts, |old(handled)|);
        if readErr.None? && IsData(frameType) {
          r := new MessageReader(this);
          messageReader := r;
          return frameType, r, None;
        }
      }
      return 0, null, readErr;
    }

    /** What one read of the source yields: at most `avail` bytes, and its error
        only once it is empty. */
    method SourceRead(k: nat, avail: nat, withEnd: bool) returns (p: seq<byte>, err: Option<ReadError>)
      modifies `input
      ensures |p| == Min(k, Min(avail, |old(input)|)) && p == old(input)[..|p|] && input == old(input)[|p|..]
      ensures err == if input == [] && withEnd && (p == [] || eager) then Some(sourceError) else None
    {
      var m := Min(k, Min(avail, |input|));
      p := input[..m];
      input := input[m..];
      err := if input == [] && withEnd && (m == 0 || eager) then Some(sourceError) else None;
    }

    /** Up to `n` bytes of the current frame, unmasked. */
    method ReadFrameBytes(r: MessageReader, n: nat, avail: nat, withEnd: bool) returns (data: seq<byte>, err: Option<ReadError>)
      requires Valid() && readErr.None? && messageReader == r && readRemaining > 0
      modifies `input, `readMaskPos, `readErr, `readRemaining, r
      ensures Valid() && messageReader == r && err == readErr && handled == old(handled) && readFinal == old(readFinal)
      ensures r.got == old(r.got) + data
      ensures old(Future()) == Future().(more := data + Future().more)
      ensures Ahead() == old(Ahead()) && announced == old(announced)
      ensures |data| == Min(Min(n, old(readRemaining)), Min(avail, |old(input)|)) && readRemaining == old(readRemaining) - |data|
      ensures err.Some? <==> |data| == |old(input)| && withEnd && (data == [] || eager)
      ensures err.Some? ==> input == [] && err.value == if readRemaining > 0 && sourceError == EOF then UnexpectedEOF else sourceError
    {
      hide Resume, CountRest, Accepted, Refused;
      data, err := TakeBytes(Min(n, readRemaining), avail, withEnd);
      readErr := err;
      var _ := SetReadRemaining(readRemaining - |data|);
      if readRemaining > 0 && readErr == Some(EOF) {
        readErr := Some(UnexpectedEOF);
      }
      r.got := r.got + data;
      err := readErr;
    }

    /** At most k bytes of the current frame, unmasked, with readRemaining not yet
        brought up to date. */
    method TakeBytes(k: nat, avail: nat, withEnd: bool) returns (data: seq<byte>, err: Option<ReadError>)
      requires k <= readRemaining
      modifies `input, `readMaskPos
      ensures |data| == Min(k, Min(avail, |old(input)|)) && (err.Some? ==> input == [] && err == Some(sourceError))
      ensures err.Some? <==> |data| == |old(input)| && withEnd && (data == [] || eager)
      ensures var q := Resume(input, readRemaining - |data|, MaskInUse(), readMaskPos, readFinal);
        old(Future()) == q.(more := data + q.more)
      ensures CountRest(input, readRemaining - |data|, isServer, readFinal) == old(Ahead())
    {
      hide Resume, CountRest, KeyPos, UnmaskedFrom;
      ghost var s, mask, pos := input, MaskInUse(), readMaskPos;
      var p;
      p, err := SourceRead(k, avail, withEnd);
      if isServer {
        data, readMaskPos := Unmask(readMaskKey, readMaskPos, p);
      } else {
        data := p;
      }
      Taken(s, readRemaining, mask, pos, readFinal, data, readMaskPos);
      CountLater(s, readRemaining, isServer, readFinal, |data|);
    }

    /** The next frame of the message in progress, recorded if it fails. */
    method AdvanceWithin(ghost r: MessageReader, ghost start: Script, ghost whole: int, ghost lengths: seq<nat>, ghost since: nat)
      requires Valid() && readErr.None? && messageReader == r && readRemaining == 0 && !readFinal
      requires since <= |handled| && start == Future().(controls := handled[since..] + Future().controls)
      requires whole == Whole() && lengths == Ahead().messages
      modifies `readErr, `input, `readRemaining, `readFinal, `readLength, `announced, `readMaskPos, `readMaskKey, `handled
      ensures Valid() && old(handled) <= handled
      ensures readErr.None? ==> |input| < |old(input)| && start == Future().(controls := handled[since..] + Future().controls)
      ensures readErr.None? ==> whole == Whole() && lengths == Ahead().messages
      ensures readErr.Some? ==> readErr != Some(EOF) && Delivers(start, whole, lengths, [], handled[since..], r, readErr)
    {
      hide Resume, CountRest, Play, Count;
      ghost var before := handled;
      var frameType, e, g := AdvanceFrame();
      readErr := e;
      assert handled[since..] == before[since..] + handled[|before|..];
      // A message is open, so no data frame is legal and the reader's internal error is dead code.
      assert e.None? ==> !IsData(frameType);
    }

    /** Reads from the message. A reader that is no longer current sees the end
        of its message. For the current one, the bytes delivered are the next
        bytes of the message, and the end is its end; however a read ends, it has
        not delivered more than the limit, and one with room and a source that
        yields makes progress. */
    method Read(r: MessageReader, n: nat, avail: nat, withEnd: bool) returns (data: seq<byte>, err: Option<ReadError>)
      requires Valid() && r.c == this
      modifies this, r
      ensures Valid() && old(handled) <= handled && r.got == old(r.got) + data
      ensures old(messageReader) != r ==> data == [] && err == Some(EOF) && readErr == old(readErr) && input == old(input) && messageReader == old(messageReader)
      ensures old(readErr).Some? ==> data == [] && readErr == old(readErr) && input == old(input)
      ensures old(messageReader) == r && old(readErr).Some? ==> err == Some(if readErr.value == EOF then UnexpectedEOF else readErr.value)
      ensures old(messageReader) == r && readLimit > 0 ==> |r.got| <= readLimit
      ensures old(messageReader) == r && n > 0 && avail > 0 && withEnd && err.None? ==> data != []
      ensures old(messageReader) == r && old(readErr).None? ==> Delivers(old(Future()), old(Whole()), old(Ahead()).messages, data, handled[|old(handled)|..], r, err)
      ensures old(messageReader) == r && old(readErr).None? && err == Some(EOF) ==>
        (old(Future()).done <==> readFinal) && (!eager ==> readFinal)
      ensures old(messageReader) == r && old(readErr).None? && old(readRemaining) > 0 ==>
        && |data| == Min(Min(n, old(readRemaining)), Min(avail, |old(input)|)) && readFinal == old(readFinal)
        && (err.Some? <==> |data| == |old(input)| && withEnd && (data == [] || eager))
        && (err.Some? ==> err.value == if |data| < old(readRemaining) && sourceError == EOF then UnexpectedEOF else sourceError)
        && (err == Some(EOF) && !old(Future()).done <==>
              && eager && sourceError == EOF && withEnd && !old(readFinal)
              && old(readRemaining) == |old(input)| && n >= old(readRemaining) && avail >= old(readRemaining))
    {
      hide Resume, CountRest, Play, Count;
      if messageReader != r {
        return [], Some(EOF);
      }
      ghost var start, whole, lengths, fatal := Future(), Whole(), Ahead().messages, readErr.Some?;
      while readErr.None?
        invariant Valid() && messageReader == r && old(handled) <= handled && r.got == old(r.got)
        invariant fatal ==> readErr == old(readErr) && input == old(input) && handled == old(handled)
        invariant old(readRemaining) > 0 && !fatal ==> readErr.None? && readRemaining == old(readRemaining) && input == old(input) && readFinal == old(readFinal)
        invariant readErr.None? ==> start == Future().(controls := handled[|old(handled)|..] + Future().controls)
        invariant readErr.None? ==> whole == Whole() && lengths == Ahead().messages
        invariant !fatal && readErr.Some? ==> readErr != Some(EOF) && Delivers(start, whole, lengths, [], handled[|old(handled)|..], r, readErr)
        decreases readErr.None?, |input|
      {
        if readRemaining > 0 {
          ghost var f := Future();
          data, err := ReadFrameBytes(r, n, avail, withEnd);
          FrameBytesDelivered(input, readRemaining, MaskInUse(), readMaskPos, readFinal);
          NothingAhead(input, readRemaining, isServer, readFinal);
          return;
        }
        if readFinal {
          messageReader := null;
          MessageOver(input, MaskInUse(), readMaskPos);
          return [], Some(EOF);
        }
        AdvanceWithin(r, start, whole, lengths, |old(handled)|);
      }
      err := readErr;
      data := [];
      if err == Some(EOF) && messageReader == r {
        err := Some(UnexpectedEOF);
      }
    }

    /** What a read of the current message gives when `start` was to come: its
        next bytes; with an error, all of its remaining bytes; with the end of
        file, the whole message unless the source ended right then. The limit ends it
        exactly when the whole message is over it, or a length has no 63 bits. */
    ghost predicate Delivers(start: Script, whole: int, lengths: seq<nat>, data: seq<byte>, controls: seq<Control>, r: MessageReader, err: Option<ReadError>)
      reads this
      requires readRemaining >= 0
    {
      && (readErr.None? ==>
            && start == Future().(more := data + Future().more, controls := controls + Future().controls)
            && Whole() == whole && Ahead().messages == lengths
            && (if err.None? then messageReader == r
                else err == Some(EOF) && messageReader == null && data == start.more && start.done && Ahead().more == 0))
      && data <= start.more
      && (readErr == Some(HandlerFailed) ==> HandlersCalled(start))
      && (readErr.Some? ==> err == readErr)
      && (readErr == Some(ReadLimit) ==>
            whole > Cap() || (start.more == data && start.messages == [] && start.controls == controls && start.ending == TooLong))
      && (readErr.Some? && err.value != HandlerFailed && err.value != ReadLimit ==>
            && start.more == data && start.messages == [] && start.controls == controls
            && (!eager ==> !start.done) && whole <= Cap()
            && Reports(start.ending, err.value, sourceError))
    }
  }

  function Min(a: nat, b: nat): nat {
    if a <= b then a else b
  }

  /** Taking bytes off the front of the frame takes them off the front of what is
      to come. Without a mask the position does not matter. */
  lemma Taken(s: seq<byte>, remaining: nat, mask: Option<Key>, pos: int, final: bool, data: seq<byte>, pos': int)
    requires |data| <= remaining && |data| <= |s|
    requires if mask.Some? then data == UnmaskedFrom(mask, pos, s[..|data|]) && pos' == KeyPos(pos + |data|)
             else data == s[..|data|]
    ensures var q := Resume(s[|data|..], remaining - |data|, mask, pos', final);
      Resume(s, remaining, mask, pos, final) == q.(more := data + q.more)
  {
    hide Play, KeyPos, Masked;
    ResumeLater(s, remaining, mask, pos, final, |data|);
  }

  /** With the source empty nothing more can come. */
  lemma FrameBytesDelivered(s: seq<byte>, remaining: nat, mask: Option<Key>, pos: int, final: bool)
    ensures s == [] ==> Resume(s, remaining, mask, pos, final) == Script([], remaining == 0 && final, [], [], Cut)
  {
  }

  lemma NothingAhead(s: seq<byte>, remaining: nat, isServer: bool, final: bool)
    ensures s == [] ==> CountRest(s, remaining, isServer, final).more == 0
  {
  }

  lemma MessageOver(s: seq<byte>, mask: Option<Key>, pos: int)
    ensures Resume(s, 0, mask, pos, true).more == [] && Resume(s, 0, mask, pos, true).done
  {
  }

  method Unmask(key: Key, pos: int, s: seq<byte>) returns (t: seq<byte>, next: int)
    ensures t == UnmaskedFrom(Some(key), pos, s) && |t| == |s| && next == KeyPos(pos + |s|)
  {
    hide Masked, KeyPos;
    var a := new byte[|s|](i requires 0 <= i < |s| => s[i]);
    assert a[0..|s|] == s;
    var address: nat := *;
    next := MaskBytes(8, address, key, pos, a, 0, a.Length);
    t := a[..];
  }

  /** A 64-bit unsigned value reinterpreted as signed. */
  function Int64(n: nat): int
  {
    if n >= TWO_63 then n - 2 * TWO_63 else n
  }

  lemma {:induction false} FromBigEndianRange(s: seq<byte>)
    ensures FromBigEndian(s) < Pow256(|s|)
  {
    if s != [] {
      FromBigEndianRange(s[..|s| - 1]);
    }
  }
}
