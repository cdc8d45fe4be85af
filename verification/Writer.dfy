/** The write side of a connection: src/github.com/gorilla/websocket/conn.go,
    lines 335 to 774. Frames are built in place in a fixed buffer, messages are
    fragmented when it fills, and control frames from other goroutines may go
    out between any two frames. */
module Writer {
  import opened Options
  import opened Bytes
  import opened Mask
  import opened Frames

  const MAX_FRAME_HEADER_SIZE := 14

  datatype WriteError = CloseSent | BadWriteOpCode | WriteClosed | InvalidControlFrame
                      | WriteTimeout | Network | InternalError

  /** What other goroutines' control frames leave alone. */
  ghost predicate Quiet(before: Sent, after: Sent)
  {
    && after.messages == before.messages && after.open == before.open
    && before.controls <= after.controls
    && (before.closed.Some? ==> after == before)
  }

  /** Whether a frame is legal next depends only on whether a message is in
      progress and on the close frame. */
  ghost predicate Fits(isServer: bool, open: bool, f: Frame)
  {
    && f.mask.Some? == !isServer && |f.payload| < TWO_63
    && OpcodeAllowed(f.opcode, f.fin, |f.payload|, open)
  }

  lemma FitsIsLegal(isServer: bool, st: Sent, f: Frame)
    requires Fits(isServer, st.open.Some?, f)
    ensures f.opcode < 16
    ensures Send(isServer, st, f).Some? <==> st.closed.None?
    ensures IsControl(f.opcode) && st.closed.None? ==> Quiet(st, Send(isServer, st, f).value)
  {
  }

  lemma AppendFrame(isServer: bool, fs: seq<Frame>, f: Frame)
    requires Legal(isServer, fs) && f.opcode < 16
    ensures SendAll(isServer, NOTHING_SENT, fs + [f]) == Send(isServer, SendAll(isServer, NOTHING_SENT, fs).value, f)
    ensures forall g :: g in fs + [f] ==> g.opcode < 16
    ensures EncodeFrames(fs + [f]) == EncodeFrames(fs) + EncodeFrame(f)
  {
    var st := SendAll(isServer, NOTHING_SENT, fs).value;
    SendAllConcat(isServer, NOTHING_SENT, fs, [f]);
    assert SendAll(isServer, st, [f]) == Send(isServer, st, f);
    EncodeFramesConcat(fs, [f]);
    assert EncodeFrames([f]) == EncodeFrame(f) + EncodeFrames([]);
  }

  /** What is on the wire is a legal sequence of frames saying `st`, followed
      perhaps by part of a frame that would be legal next; nothing follows a
      close frame or a failed write. */
  ghost predicate WireOk(isServer: bool, fs: seq<Frame>, st: Sent, wire: seq<byte>,
                         torn: Option<Frame>, tornBytes: seq<byte>, writeErr: Option<WriteError>)
  {
    && SendAll(isServer, NOTHING_SENT, fs) == Some(st)
    && wire == EncodeFrames(fs) + tornBytes
    && (torn.None? ==> tornBytes == [])
    && (torn.Some? ==> && writeErr.Some? && torn.value.opcode < 16
                       && Send(isServer, st, torn.value).Some?
                       && tornBytes <= EncodeFrame(torn.value))
    && (st.closed.Some? ==> writeErr.Some?)
  }

  /** A frame that fits may follow an intact wire. */
  lemma WireGrows(isServer: bool, fs: seq<Frame>, st: Sent, wire: seq<byte>, f: Frame, part: seq<byte>, e: WriteError)
    requires WireOk(isServer, fs, st, wire, None, [], None)
    requires Fits(isServer, st.open.Some?, f) && f.opcode < 16
    ensures Send(isServer, st, f).Some?
    ensures WireOk(isServer, fs + [f], Send(isServer, st, f).value, wire + EncodeFrame(f), None, [], if f.opcode == CLOSE then Some(e) else None)
    ensures part <= EncodeFrame(f) ==> WireOk(isServer, fs, st, wire + part, Some(f), part, Some(e))
  {
    FitsIsLegal(isServer, st, f);
    AppendFrame(isServer, fs, f);
    assert wire == EncodeFrames(fs);
  }

  method NewMaskKey() returns (key: Key)
  {
    key := *;
  }

  /** Stores the low `k` bytes of `n`, most significant first. */
  method PutBigEndian(a: array<byte>, at: nat, n: nat, k: nat)
    requires at + k <= a.Length
    modifies a
    ensures a[..] == old(a[..at] + BigEndian(n, k) + a[at + k..])
  {
    var s := BigEndian(n, k);
    forall j | 0 <= j < k {
      a[at + j] := s[j];
    }
  }

  /** Stores the header of a frame so that it ends where the masking key, or
      without one the data, begins. */
  method PutHead(a: array<byte>, isServer: bool, final: bool, opcode: nat, length: nat) returns (framePos: nat)
    requires a.Length >= MAX_FRAME_HEADER_SIZE && opcode < 16
    modifies a
    ensures framePos <= if isServer then 14 else 10
    ensures a[framePos..if isServer then 14 else 10] == Head(final, opcode, !isServer, length)
    ensures a[14..] == old(a[14..])
  {
    var b0: byte := opcode + if final then FINAL_BIT else 0;
    var b1: byte := if isServer then 0 else MASK_BIT;
    // A server's header is four bytes shorter, so it begins four bytes later.
    framePos := if isServer then 4 else 0;
    if length >= 65536 {
      a[framePos] := b0;
      a[framePos + 1] := b1 + 127;
      PutBigEndian(a, framePos + 2, length, 8);
    } else if length > 125 {
      framePos := framePos + 6;
      a[framePos] := b0;
      a[framePos + 1] := b1 + 126;
      PutBigEndian(a, framePos + 2, length, 2);
    } else {
      framePos := framePos + 8;
      a[framePos] := b0;
      a[framePos + 1] := b1 + length;
    }
  }

  /** A message has gone out whole: a data message joins the messages sent, a
      control message is one control frame. */
  ghost predicate Finished(messages: seq<Message>, st: Sent, kind: nat, data: seq<byte>)
  {
    && st.open.None?
    && st.messages == messages + (if IsData(kind) then [Message(kind, data, true)] else [])
    && (kind == CLOSE ==> st.closed == Some(data))
    && (kind == PING || kind == PONG ==> st.controls != [] && st.controls[|st.controls| - 1] == Control(kind, data))
  }

  /** What the buffer holds is the rest of what was written. */
  ghost predicate Holds(open: Option<Message>, kind: nat, frameType: nat, data: seq<byte>, written: seq<byte>)
  {
    && (IsControl(kind) || IsData(kind))
    && (if frameType == CONTINUATION then
          && IsData(kind) && open.Some? && open.value.kind == kind && open.value.payload + data == written
        else
          && frameType == kind && open.None? && data == written)
  }

  lemma HoldsMore(open: Option<Message>, kind: nat, frameType: nat, data: seq<byte>, written: seq<byte>, p: seq<byte>)
    requires Holds(open, kind, frameType, data, written)
    ensures Holds(open, kind, frameType, data + p, written + p)
  {
    if frameType == CONTINUATION {
      var sofar := open.value.payload;
      assert sofar + (data + p) == (sofar + data) + p;
    }
  }

  lemma CopiedIn(was: seq<byte>, now: seq<byte>, pos: nat, p: seq<byte>)
    requires 14 <= pos && pos + |p| <= |was| == |now|
    requires forall j :: 0 <= j < pos ==> now[j] == was[j]
    requires forall j :: pos <= j < pos + |p| ==> now[j] == p[j - pos]
    ensures now[14..pos + |p|] == was[14..pos] + p
  {
  }

  lemma FrameSent(isServer: bool, was: Sent, mid: Sent, f: Frame, st: Sent, kind: nat, frameType: nat,
                  data: seq<byte>, extra: seq<byte>, written: seq<byte>)
    requires Quiet(was, mid) && Send(isServer, mid, f) == Some(st)
    requires Holds(was.open, kind, frameType, data, written)
    requires f.opcode == frameType && f.payload == data + extra
    ensures f.fin ==> Finished(was.messages, st, kind, written + extra)
    ensures !f.fin ==> st.messages == was.messages && Holds(st.open, kind, CONTINUATION, [], written + extra)
  {
    if frameType == CONTINUATION {
      var sofar := was.open.value.payload;
      assert sofar + (data + extra) == (sofar + data) + extra;
    }
    assert written + extra + [] == written + extra;
  }

  lemma TailSlice(buf: seq<byte>, data: seq<byte>, pos: nat)
    requires 14 <= pos <= |buf| && |data| == pos - 14 && data <= buf[14..]
    ensures buf[14..pos] == data
  {
  }

  lemma PlainFrameInPlace(buf: seq<byte>, framePos: nat, pos: nat, f: Frame, data: seq<byte>, extra: seq<byte>)
    requires f.opcode < 16 && f.mask.None? && f.payload == data + extra
    requires framePos <= 14 <= pos <= |buf| && buf[14..pos] == data
    requires buf[framePos..14] == Head(f.fin, f.opcode, false, |f.payload|)
    ensures buf[framePos..pos] + extra == EncodeFrame(f)
  {
    hide Head;
    assert buf[framePos..pos] == buf[framePos..14] + buf[14..pos];
  }

  lemma MaskedFrameInPlace(before: seq<byte>, after: seq<byte>, framePos: nat, pos: nat, f: Frame, key: Key)
    requires f.opcode < 16 && f.mask == Some(key)
    requires framePos <= 10 && 14 <= pos <= |before|
    requires before[framePos..10] == Head(f.fin, f.opcode, true, |f.payload|)
    requires before[10..14] == key && before[14..pos] == f.payload
    requires after == Spliced(before, 14, pos, Masked(key, 0, f.payload))
    ensures |after| == |before| && after[framePos..pos] == EncodeFrame(f)
  {
    hide Head, Masked;
    assert |f.payload| == pos - 14;
    assert after[framePos..10] == before[framePos..10];
    assert after[10..14] == before[10..14];
    assert after[14..pos] == Masked(key, 0, f.payload);
    assert after[framePos..pos] == after[framePos..10] + (after[10..14] + after[14..pos]);
  }

  class Conn {
    const isServer: bool
    const writeBuf: array<byte>
    var writer: MessageWriter?
    var writeErr: Option<WriteError>
    var isWriting: bool
    /** The bytes the network connection has taken. */
    var wire: seq<byte>

    /** The frames wholly on the wire, and the one a network error cut short. */
    ghost var frames: seq<Frame>
    ghost var state: Sent
    ghost var torn: Option<Frame>
    ghost var tornBytes: seq<byte>
    /** Every message writer ever made for this connection. */
    ghost var handles: set<MessageWriter>

    ghost predicate WireLegal()
      reads `wire, `writeErr, `frames, `state, `torn, `tornBytes
    {
      WireOk(isServer, frames, state, wire, torn, tornBytes, writeErr)
    }

    /** The invariant, with `w` the one message writer not yet ended. */
    ghost predicate Inv(w: MessageWriter?)
      reads this, handles, writeBuf
    {
      && WireLegal()
      && MAX_FRAME_HEADER_SIZE < writeBuf.Length < TWO_63 && !isWriting
      && (writer == null || writer == w)
      && (forall h :: h in handles ==> h.c == this && (h.err.Some? || h == w))
      && (if w == null then writeErr.None? ==> state.open.None?
          else w in handles && w.err.None? && w.Synced(state, writeBuf[..]))
    }

    ghost predicate Valid()
      reads this, handles, writeBuf
    {
      Inv(writer)
    }

    /** The message that closing the current writer would complete. */
    ghost function Pending(): seq<Message>
      reads this, handles
      requires writer != null ==> writer in handles
    {
      if writer != null && IsData(writer.kind) then [Message(writer.kind, writer.written, true)] else []
    }

    constructor (isServer: bool, writeBuf: array<byte>)
      requires MAX_FRAME_HEADER_SIZE < writeBuf.Length < TWO_63
      ensures Valid() && fresh(handles) && this.isServer == isServer && this.writeBuf == writeBuf
      ensures wire == [] && state == NOTHING_SENT && writer == null && writeErr.None?
    {
      this.isServer, this.writeBuf := isServer, writeBuf;
      writer, writeErr, isWriting, wire := null, None, false, [];
      frames, state, torn, tornBytes, handles := [], NOTHING_SENT, None, [], {};
    }

    /** The network connection takes all of the bytes, or some and fails. */
    method NetWrite(buf: seq<byte>) returns (ok: bool)
      modifies `wire
      ensures ok ==> wire == old(wire) + buf
      ensures !ok ==> old(wire) <= wire && wire[|old(wire)|..] <= buf
    {
      ok := *;
      if ok {
        wire := wire + buf;
      } else {
        var n: int := *;
        var k := if 0 <= n <= |buf| then n else |buf|;
        wire := wire + buf[..k];
      }
    }

    method WriteFatal(err: WriteError)
      modifies `writeErr
      ensures writeErr == if old(writeErr).None? then Some(err) else old(writeErr)
    {
      if writeErr.None? {
        writeErr := Some(err);
      }
    }

    /** The part of a write done holding the lock: nothing if an error is
        recorded, else one frame; a network error or a close frame is recorded. */
    method WriteLocked(frameType: nat, buf: seq<byte>, ghost f: Frame) returns (err: Option<WriteError>)
      requires WireLegal()
      requires frameType == f.opcode && Fits(isServer, state.open.Some?, f)
      requires f.opcode < 16 && buf == EncodeFrame(f)
      modifies `wire, `writeErr, `frames, `state, `torn, `tornBytes
      ensures WireLegal() && old(wire) <= wire
      ensures old(writeErr).Some? ==> err == old(writeErr) && wire == old(wire) && frames == old(frames) && writeErr == old(writeErr)
      ensures err.None? ==> frames == old(frames) + [f] && Some(state) == Send(isServer, old(state), f)
      ensures err.Some? ==> frames == old(frames) && writeErr.Some?
      ensures err.None? && frameType != CLOSE ==> writeErr.None?
    {
      if writeErr.Some? {
        return writeErr;
      }
      ghost var before := wire;
      var ok := NetWrite(buf);
      WireGrows(isServer, frames, state, before, f, wire[|before|..], if ok then CloseSent else Network);
      if !ok {
        WriteFatal(Network);
        torn, tornBytes := Some(f), wire[|before|..];
        return Some(Network);
      }
      frames, state := frames + [f], Send(isServer, state, f).value;
      if frameType == CLOSE {
        WriteFatal(CloseSent);
      }
      err := None;
    }

    /** The bytes of a control frame, built outside the shared buffer. */
    method ControlFrame(messageType: nat, data: seq<byte>) returns (buf: seq<byte>, ghost f: Frame)
      requires messageType < 16 && |data| <= MAX_CONTROL_PAYLOAD
      ensures f.fin && f.opcode == messageType && f.mask.Some? == !isServer && f.payload == data
      ensures buf == EncodeFrame(f)
    {
      hide Masked;
      var b0: byte := messageType + FINAL_BIT;
      var b1: byte := |data| + if isServer then 0 else MASK_BIT;
      if isServer {
        buf := [b0, b1] + data;
        f := Frame(true, messageType, None, data);
        assert Head(true, messageType, false, |data|) == [b0, b1];
      } else {
        var key := NewMaskKey();
        var bytes := [b0, b1] + key + data;
        var a := new byte[|bytes|](i requires 0 <= i < |bytes| => bytes[i]);
        assert a[..] == bytes;
        var address: nat := *;
        var _ := MaskBytes(8, address, key, 0, a, 6, a.Length);
        assert bytes[6..] == data && bytes[..6] == [b0, b1] + key;
        buf := a[..];
        f := Frame(true, messageType, Some(key), data);
        assert Head(true, messageType, true, |data|) == [b0, b1];
        assert bytes[6..|bytes|] == data && bytes[|bytes|..] == [];
        assert EncodeFrame(f) == [b0, b1] + (key + Masked(key, 0, data));
      }
    }

    /** A control frame, from any goroutine at any time. Deadlines are the
        nondeterministic timeouts. */
    method WriteControl(messageType: int, data: seq<byte>) returns (err: Option<WriteError>)
      requires WireLegal()
      modifies `wire, `writeErr, `frames, `state, `torn, `tornBytes
      ensures WireLegal() && old(wire) <= wire
      ensures Quiet(old(state), state)
      ensures err.None? ==>
        && IsControl(messageType) && |data| <= MAX_CONTROL_PAYLOAD && old(writeErr).None?
        && state == if messageType == CLOSE then old(state).(closed := Some(data))
                      else old(state).(controls := old(state).controls + [Control(messageType, data)])
      ensures err.Some? ==> state == old(state)
      ensures !IsControl(messageType) ==> err == Some(BadWriteOpCode)
      ensures IsControl(messageType) && |data| > MAX_CONTROL_PAYLOAD ==> err == Some(InvalidControlFrame)
      ensures old(writeErr).Some? ==> wire == old(wire) && writeErr == old(writeErr)
    {
      if !IsControl(messageType) {
        return Some(BadWriteOpCode);
      }
      if |data| > MAX_CONTROL_PAYLOAD {
        return Some(InvalidControlFrame);
      }
      var buf, f := ControlFrame(messageType, data);
      if * {
        return Some(WriteTimeout);
      }
      FitsIsLegal(isServer, state, f);
      err := WriteLocked(messageType, buf, f);
    }

    /** Any number of control frames from other goroutines. */
    method Interfere()
      requires WireLegal()
      modifies `wire, `writeErr, `frames, `state, `torn, `tornBytes
      ensures WireLegal() && old(wire) <= wire
      ensures Quiet(old(state), state)
      ensures old(writeErr).Some? ==> wire == old(wire) && writeErr == old(writeErr)
    {
      var n: nat := *;
      while n > 0
        invariant WireLegal() && old(wire) <= wire
        invariant Quiet(old(state), state)
        invariant old(writeErr).Some? ==> wire == old(wire) && writeErr == old(writeErr)
      {
        var messageType: int := *;
        var data: seq<byte> := *;
        var _ := WriteControl(messageType, data);
        n := n - 1;
      }
    }

    /** Closes the current writer if the application has not. */
    method ClosePrevious()
      requires Valid()
      modifies this, handles, writeBuf
      ensures Inv(null) && writer == null && old(wire) <= wire && handles == old(handles)
      ensures writeErr.None? ==> state.messages == old(state.messages) + old(Pending())
      ensures state.messages == old(state.messages) || state.messages == old(state.messages) + old(Pending())
    {
      if writer != null {
        var _ := writer.Close();
        writer := null;
      }
    }

    /** Prepares for a new message, and makes its writer. */
    method BeginMessage(messageType: int) returns (mw: MessageWriter?, err: Option<WriteError>)
      requires Valid()
      modifies this, handles, writeBuf
      ensures writer == null && old(wire) <= wire
      ensures err.Some? ==> mw == null && Inv(null) && handles == old(handles)
      ensures err.None? ==> && mw != null && fresh(mw) && Inv(mw) && handles == old(handles) + {mw}
                            && mw.c == this && mw.kind == messageType && mw.written == [] && mw.pos == MAX_FRAME_HEADER_SIZE
                            && state.messages == old(state.messages) + old(Pending())
      ensures err.Some? ==> state.messages == old(state.messages) || state.messages == old(state.messages) + old(Pending())
      ensures !IsControl(messageType) && !IsData(messageType) ==> err == Some(BadWriteOpCode)
      ensures err.Some? && (IsControl(messageType) || IsData(messageType)) ==> err == writeErr
    {
      ClosePrevious();
      if !IsControl(messageType) && !IsData(messageType) {
        return null, Some(BadWriteOpCode);
      }
      if writeErr.Some? {
        return null, writeErr;
      }
      mw := new MessageWriter(this, messageType);
      handles := handles + {mw};
      err := None;
    }

    /** A writer for the next message. */
    method NextWriter(messageType: int) returns (w: MessageWriter?, err: Option<WriteError>)
      requires Valid()
      modifies this, handles, writeBuf
      ensures Valid() && old(wire) <= wire && old(handles) <= handles && fresh(handles - old(handles))
      ensures err.Some? ==> w == null && writer == null
                            && (state.messages == old(state.messages) || state.messages == old(state.messages) + old(Pending()))
      ensures err.None? ==> && w != null && w == writer && fresh(w) && w in handles
                            && w.kind == messageType && w.written == [] && w.err.None?
                            && state.messages == old(state.messages) + old(Pending())
      ensures !IsControl(messageType) && !IsData(messageType) ==> err == Some(BadWriteOpCode)
      ensures err.Some? && (IsControl(messageType) || IsData(messageType)) ==> err == writeErr
    {
      w, err := BeginMessage(messageType);
      if err.None? {
        writer := w;
      }
    }

    /** A server sends the whole message as one frame, through a writer of its own. */
    method WriteSingle(messageType: int, data: seq<byte>) returns (err: Option<WriteError>)
      requires Valid() && isServer
      requires |data| + writeBuf.Length < TWO_63
      modifies this, handles, writeBuf
      ensures Valid() && old(wire) <= wire && old(handles) <= handles && fresh(handles - old(handles))
      ensures err.None? ==> writer == null
                            && (IsControl(messageType) || IsData(messageType))
                            && Finished(old(state.messages) + old(Pending()), state, messageType, data)
      ensures err.Some? ==> state.messages == old(state.messages) || state.messages == old(state.messages) + old(Pending())
      ensures err.Some? ==> || writeErr.Some? || (err.value == BadWriteOpCode && !IsControl(messageType) && !IsData(messageType))
                            || (err.value == InvalidControlFrame && IsControl(messageType))
    {
      hide WireOk;
      var mw;
      mw, err := BeginMessage(messageType);
      if err.None? {
        var room := writeBuf.Length - mw.pos;
        var n := if |data| < room then |data| else room;
        mw.CopyIn(data[..n]);
        assert [] + data[..n] + data[n..] == data;
        err := mw.FlushFrame(true, data[n..]);
      }
    }

    /** A whole message in one call: a single frame from a server, else through
        a message writer. */
    method WriteMessage(messageType: int, data: seq<byte>) returns (err: Option<WriteError>)
      requires Valid()
      requires |data| + writeBuf.Length < TWO_63
      modifies this, handles, writeBuf
      ensures Valid() && old(wire) <= wire && old(handles) <= handles && fresh(handles - old(handles))
      ensures err.None? ==> writer == null
                            && (IsControl(messageType) || IsData(messageType))
                            && Finished(old(state.messages) + old(Pending()), state, messageType, data)
      ensures err.Some? ==> state.messages == old(state.messages) || state.messages == old(state.messages) + old(Pending())
      ensures err.Some? ==> || writeErr.Some? || (err.value == BadWriteOpCode && !IsControl(messageType) && !IsData(messageType))
                            || (err.value == InvalidControlFrame && IsControl(messageType))
    {
      if isServer {
        err := WriteSingle(messageType, data);
        return;
      }
      var w;
      w, err := NextWriter(messageType);
      if err.Some? {
        return;
      }
      var _, e := w.Write(data);
      if e.Some? {
        return e;
      }
      assert [] + data == data;
      err := w.Close();
    }
  }

  class MessageWriter {
    const c: Conn
    var pos: nat
    var frameType: nat
    var err: Option<WriteError>
    /** The type given to NextWriter, and the data given to Write so far. */
    ghost const kind: nat
    ghost var written: seq<byte>

    /** An open writer and the wire agree: what was written is what went out in
        earlier frames of the message, followed by what the buffer holds. */
    ghost predicate Synced(st: Sent, buf: seq<byte>)
      reads this
    {
      && MAX_FRAME_HEADER_SIZE <= pos <= |buf|
      && Holds(st.open, kind, frameType, buf[MAX_FRAME_HEADER_SIZE..pos], written)
    }

    constructor (c: Conn, kind: nat)
      ensures this.c == c && pos == MAX_FRAME_HEADER_SIZE && frameType == kind && err.None?
      ensures this.kind == kind && written == []
    {
      this.c, pos, frameType, err := c, MAX_FRAME_HEADER_SIZE, kind, None;
      this.kind, written := kind, [];
    }

    method EndMessage(e: WriteError)
      requires err.None?
      modifies `err, c`writer
      ensures err == Some(e) && c.writer == null
    {
      err := Some(e);
      c.writer := null;
    }

    /** Builds header, key and masked data in place: `writeBuf[framePos..pos]`,
        followed by `extra`, is exactly one frame. */
    method BuildFrame(final: bool, extra: seq<byte>) returns (framePos: nat, ghost f: Frame)
      requires MAX_FRAME_HEADER_SIZE <= pos <= c.writeBuf.Length
      requires frameType < 16 && (extra == [] || c.isServer)
      modifies c.writeBuf
      ensures framePos <= pos
      ensures f.fin == final && f.opcode == frameType && f.mask.Some? == !c.isServer
      ensures f.payload == old(c.writeBuf[MAX_FRAME_HEADER_SIZE..pos]) + extra
      ensures c.writeBuf[framePos..pos] + extra == EncodeFrame(f)
    {
      hide Head, EncodeFrame, Masked;
      var buf := c.writeBuf;
      ghost var data := buf[MAX_FRAME_HEADER_SIZE..pos];
      var length := pos - MAX_FRAME_HEADER_SIZE + |extra|;
      framePos := PutHead(buf, c.isServer, final, frameType, length);
      TailSlice(buf[..], data, pos);
      if c.isServer {
        f := Frame(final, frameType, None, data + extra);
        PlainFrameInPlace(buf[..], framePos, pos, f, data, extra);
        assert buf[framePos..pos] == buf[..][framePos..pos];
      } else {
        f := MaskFrame(final, framePos, data);
        assert data + extra == data && buf[framePos..pos] + extra == buf[framePos..pos];
      }
    }

    /** The client's half: stores a fresh key and masks the data behind it. */
    method MaskFrame(final: bool, framePos: nat, ghost data: seq<byte>) returns (ghost f: Frame)
      requires MAX_FRAME_HEADER_SIZE <= pos <= c.writeBuf.Length && framePos <= 10 && frameType < 16
      requires c.writeBuf[MAX_FRAME_HEADER_SIZE..pos] == data
      requires c.writeBuf[framePos..10] == Head(final, frameType, true, |data|)
      modifies c.writeBuf
      ensures f.fin == final && f.opcode == frameType && f.mask.Some? && f.payload == data
      ensures c.writeBuf[framePos..pos] == EncodeFrame(f)
    {
      hide Head, EncodeFrame, Masked;
      var buf := c.writeBuf;
      var key := NewMaskKey();
      ghost var head := buf[framePos..10];
      forall j | 0 <= j < 4 {
        buf[MAX_FRAME_HEADER_SIZE - 4 + j] := key[j];
      }
      ghost var before := buf[..];
      assert before[framePos..10] == head && before[10..14] == key && before[14..pos] == data;
      assert buf[14..pos] == data;
      var address: nat := *;
      var _ := MaskBytes(8, address, key, 0, buf, MAX_FRAME_HEADER_SIZE, pos);
      f := Frame(final, frameType, Some(key), data);
      MaskedFrameInPlace(before, buf[..], framePos, pos, f, key);
      assert buf[framePos..pos] == buf[..][framePos..pos];
    }

    /** Puts one frame on the wire, after whatever control frames go first;
        `mid` is the conversation just before it. */
    method WriteFrame(final: bool, extra: seq<byte>) returns (e: Option<WriteError>, ghost f: Frame, ghost mid: Sent)
      requires c.Inv(this)
      requires |extra| + c.writeBuf.Length < TWO_63 && (extra == [] || c.isServer)
      requires IsControl(frameType) ==> final && pos - MAX_FRAME_HEADER_SIZE + |extra| <= MAX_CONTROL_PAYLOAD
      modifies c`isWriting, c`wire, c`writeErr, c`frames, c`state, c`torn, c`tornBytes, c.writeBuf
      ensures c.WireLegal() && !c.isWriting && old(c.wire) <= c.wire
      ensures f.fin == final && f.opcode == frameType && f.payload == old(c.writeBuf[MAX_FRAME_HEADER_SIZE..pos]) + extra
      ensures Quiet(old(c.state), mid)
      ensures e.None? ==> Some(c.state) == Send(c.isServer, mid, f) && (frameType != CLOSE ==> c.writeErr.None?)
      ensures e.Some? ==> c.state == mid && c.writeErr.Some?
    {
      var framePos: nat;
      framePos, f := BuildFrame(final, extra);
      // There is one data writer, so the source's panic cannot occur.
      assert !c.isWriting;
      c.isWriting := true;
      c.Interfere();
      mid := c.state;
      e := c.WriteLocked(frameType, c.writeBuf[framePos..pos] + extra, f);
      assert c.isWriting;
      c.isWriting := false;
    }

    /** Writes buffered data and `extra` as one frame; `final` marks the last of
        the message. Only a server passes `extra`. */
    method FlushFrame(final: bool, extra: seq<byte>) returns (e: Option<WriteError>)
      requires c.Inv(this)
      requires |extra| + c.writeBuf.Length < TWO_63 && (extra == [] || c.isServer)
      modifies c, this, c.writeBuf
      ensures c.handles == old(c.handles) && old(c.wire) <= c.wire
      ensures e.None? ==> written == old(written) + extra
      ensures e.None? && !final ==>
        && c.Inv(this) && pos == MAX_FRAME_HEADER_SIZE && c.writer == old(c.writer)
        && c.state.messages == old(c.state.messages)
      ensures e.None? && final ==>
        && c.Inv(null) && err == Some(WriteClosed) && c.writer == null
        && Finished(old(c.state.messages), c.state, kind, written)
      ensures e.Some? ==>
        && c.Inv(null) && err == e && c.writer == null
        && c.state.messages == old(c.state.messages)
        && (c.writeErr.Some? || (e.value == InvalidControlFrame && IsControl(kind)))
    {
      hide WireOk;
      var length := pos - MAX_FRAME_HEADER_SIZE + |extra|;
      // The only legal control message is one short final frame.
      if IsControl(frameType) && (!final || length > MAX_CONTROL_PAYLOAD) {
        EndMessage(InvalidControlFrame);
        return Some(InvalidControlFrame);
      }
      ghost var was := c.state;
      ghost var data := c.writeBuf[MAX_FRAME_HEADER_SIZE..pos];
      ghost var f, mid;
      e, f, mid := WriteFrame(final, extra);
      if e.Some? {
        EndMessage(e.value);
        return;
      }
      FrameSent(c.isServer, was, mid, f, c.state, kind, frameType, data, extra, written);
      written := written + extra;
      if final {
        EndMessage(WriteClosed);
        return None;
      }
      // The next frame goes on with the same message.
      pos := MAX_FRAME_HEADER_SIZE;
      frameType := CONTINUATION;
    }

    /** Room in the buffer for up to `max` more bytes, flushing it when full. */
    method NCopy(max: nat) returns (n: nat, e: Option<WriteError>)
      requires c.Inv(this) && max > 0
      modifies c, this, c.writeBuf
      ensures c.handles == old(c.handles) && old(c.wire) <= c.wire
      ensures c.state.messages == old(c.state.messages)
      ensures e.None? ==> c.Inv(this) && written == old(written) && c.writer == old(c.writer)
                          && 0 < n <= max && pos + n <= c.writeBuf.Length
      ensures e.Some? ==> c.Inv(null) && err == e && c.writer == null
      ensures e.Some? ==> c.writeErr.Some? || (e.value == InvalidControlFrame && IsControl(kind))
    {
      var room := c.writeBuf.Length - pos;
      e := None;
      if room <= 0 {
        e := FlushFrame(false, []);
        if e.Some? {
          return 0, e;
        }
        room := c.writeBuf.Length - pos;
      }
      n := if room > max then max else room;
    }

    method CopyIn(p: seq<byte>)
      requires c.Inv(this) && pos + |p| <= c.writeBuf.Length
      modifies this, c.writeBuf
      ensures c.Inv(this) && written == old(written) + p && err == old(err)
    {
      hide WireOk, Holds;
      ghost var was, before := c.writeBuf[..], c.writeBuf[MAX_FRAME_HEADER_SIZE..pos];
      forall j | 0 <= j < |p| {
        c.writeBuf[pos + j] := p[j];
      }
      CopiedIn(was, c.writeBuf[..], pos, p);
      HoldsMore(c.state.open, kind, frameType, before, written, p);
      pos := pos + |p|;
      written := written + p;
    }

    /** One turn of the copying loop: as much of `p` as fits. */
    method CopySome(p: seq<byte>) returns (n: nat, e: Option<WriteError>)
      requires c.Inv(this) && p != []
      modifies c, this, c.writeBuf
      ensures c.handles == old(c.handles) && old(c.wire) <= c.wire && c.state.messages == old(c.state.messages)
      ensures e.None? ==> c.Inv(this) && c.writer == old(c.writer) && 0 < n <= |p| && written == old(written) + p[..n]
      ensures e.Some? ==> c.Inv(null) && err == e && c.writer == null
      ensures e.Some? ==> c.writeErr.Some? || (e.value == InvalidControlFrame && IsControl(kind))
    {
      n, e := NCopy(|p|);
      if e.None? {
        CopyIn(p[..n]);
      }
    }

    /** Copies data through the buffer, a frame going out whenever it is full. */
    method Buffered(p: seq<byte>) returns (e: Option<WriteError>)
      requires c.Inv(this)
      modifies c, this, c.writeBuf
      ensures c.handles == old(c.handles) && old(c.wire) <= c.wire && c.state.messages == old(c.state.messages)
      ensures e.None? ==> c.Inv(this) && c.writer == old(c.writer) && written == old(written) + p
      ensures e.Some? ==> c.Inv(null) && err == e && c.writer == null
      ensures e.Some? ==> c.writeErr.Some? || (e.value == InvalidControlFrame && IsControl(kind))
    {
      hide *;
      ghost var all := written + p;
      var rest := p;
      while rest != []
        invariant c.Inv(this) && c.writer == old(c.writer)
        invariant c.handles == old(c.handles) && old(c.wire) <= c.wire && c.state.messages == old(c.state.messages)
        invariant written + rest == all
        decreases |rest|
      {
        ghost var before := written;
        var n;
        n, e := CopySome(rest);
        if e.Some? {
          return;
        }
        assert before + rest[..n] + rest[n..] == before + rest;
        rest := rest[n..];
      }
      e := None;
    }

    /** Appends to the message. A writer already ended returns its error and
        touches nothing. */
    method Write(p: seq<byte>) returns (n: nat, e: Option<WriteError>)
      requires c.Valid() && this in c.handles
      requires |p| + c.writeBuf.Length < TWO_63
      modifies c, this, c.writeBuf
      ensures c.Valid() && c.handles == old(c.handles) && old(c.wire) <= c.wire
      ensures c.state.messages == old(c.state.messages)
      ensures old(err).Some? ==> e == old(err) && n == 0 && c.wire == old(c.wire) && written == old(written)
      ensures e.None? ==> n == |p| && c.writer == this && err.None? && written == old(written) + p
      ensures old(err).None? && e.Some? ==> err == e && n == 0 && c.writer == null
      ensures old(err).None? && e.Some? ==> c.writeErr.Some? || (e.value == InvalidControlFrame && IsControl(kind))
    {
      if err.Some? {
        return 0, err;
      }
      if |p| > 2 * c.writeBuf.Length && c.isServer {
        // Buffer and data go out as one frame.
        e := FlushFrame(false, p);
      } else {
        e := Buffered(p);
      }
      n := if e.Some? then 0 else |p|;
    }

    /** Flushes the complete message. */
    method Close() returns (e: Option<WriteError>)
      requires c.Valid() && this in c.handles
      modifies c, this, c.writeBuf
      ensures c.Valid() && c.handles == old(c.handles) && old(c.wire) <= c.wire && err.Some?
      ensures old(err).Some? ==> e == old(err) && c.wire == old(c.wire) && c.writer == old(c.writer)
                                 && c.state == old(c.state)
      ensures old(err).None? ==> c.writer == null
      ensures e.None? ==> Finished(old(c.state.messages), c.state, kind, written) && written == old(written)
      ensures e.Some? ==> c.state.messages == old(c.state.messages)
      ensures old(err).None? && e.Some? ==> c.writeErr.Some? || (e.value == InvalidControlFrame && IsControl(kind))
    {
      if err.Some? {
        return err;
      }
      e := FlushFrame(true, []);
      assert old(written) + [] == old(written);
    }
  }
}
