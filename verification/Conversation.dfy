/** The two sides together: what one connection writes, the connection at the
    other end reads, however the bytes are written and however they are read. */
module Conversation {
  import opened Options
  import opened Bytes
  import opened Frames
  import opened Mask
  import Reader
  import Writer

  /** One call of Read: the size of the buffer, and what the byte source does. */
  datatype ReadCall = ReadCall(n: nat, avail: nat, withEnd: bool)

  /** Room in the buffer, and a source that yields a byte or its end. */
  predicate Nonempty(call: ReadCall) {
    call.n > 0 && call.avail > 0 && call.withEnd
  }

  /** Enough reads to see a message and its end. */
  predicate Ample(calls: seq<ReadCall>, payload: seq<byte>) {
    |calls| > |payload| && forall i :: 0 <= i < |calls| ==> Nonempty(calls[i])
  }

  /** Enough reads for each message, and one more to see the end of the stream. */
  predicate AmplePlan(plan: seq<seq<ReadCall>>, messages: seq<Message>) {
    |plan| > |messages| && forall i :: 0 <= i < |messages| ==> Ample(plan[i], messages[i].payload)
  }

  /** Calls Read again and again until it returns an error. Whatever the sizes
      of the reads, together they deliver what one read would, never more than the
      limit; enough of them come to the end or an error. */
  method Drain(c: Reader.Conn, r: Reader.MessageReader, calls: seq<ReadCall>)
    returns (data: seq<byte>, err: Option<Reader.ReadError>)
    requires c.Valid() && c.readErr.None? && c.messageReader == r && r.c == c
    modifies c, r
    ensures c.Valid() && old(c.handled) <= c.handled && r.got == old(r.got) + data
    ensures c.Delivers(old(c.Future()), old(c.Whole()), old(c.Ahead()).messages, data, c.handled[|old(c.handled)|..], r, err)
    ensures err == Some(Reader.EOF) && !c.eager ==> old(c.Future()).done
    ensures c.readLimit > 0 ==> |r.got| <= c.readLimit
    ensures Ample(calls, old(c.Future()).more) ==> err.Some?
  {
    hide Reader.Resume, Reader.CountRest, Play, Reader.Reports, Reader.HandlersCalled, Nonempty, Reader.Conn.Delivers;
    data, err := [], None;
    var i := 0;
    ghost var start, whole, lengths, first := c.Future(), c.Whole(), c.Ahead().messages, |c.handled|;
    NothingRead(c, r);
    assert c.handled[first..] == [];
    while i < |calls|
      invariant 0 <= i <= |calls| && c.Valid() && err.None? && c.readErr.None? && c.messageReader == r
      invariant old(c.handled) <= c.handled && r.got == old(r.got) + data
      invariant c.Delivers(start, whole, lengths, data, c.handled[first..], r, None)
      invariant c.readLimit > 0 ==> |r.got| <= c.readLimit
      invariant |data| <= |start.more| && (Ample(calls, start.more) ==> i <= |data|)
    {
      var d;
      d, err := ReadOn(c, r, calls[i], start, whole, lengths, data, first);
      data := data + d;
      i := i + 1;
      if err.Some? {
        return;
      }
    }
  }

  /** One more read of a message of which `data` was read. */
  method ReadOn(c: Reader.Conn, r: Reader.MessageReader, call: ReadCall, ghost start: Script, ghost whole: int, ghost lengths: seq<nat>,
                ghost data: seq<byte>, ghost first: nat)
    returns (d: seq<byte>, err: Option<Reader.ReadError>)
    requires c.Valid() && c.readErr.None? && c.messageReader == r && r.c == c
    requires first <= |c.handled| && c.Delivers(start, whole, lengths, data, c.handled[first..], r, None)
    modifies c, r
    ensures c.Valid() && old(c.handled) <= c.handled && r.got == old(r.got) + d
    ensures c.Delivers(start, whole, lengths, data + d, c.handled[first..], r, err)
    ensures err.None? ==> c.readErr.None? && c.messageReader == r
    ensures c.readLimit > 0 ==> |r.got| <= c.readLimit
    ensures Nonempty(call) && err.None? ==> d != []
    ensures |data + d| <= |start.more|
    ensures err == Some(Reader.EOF) && !c.eager ==> start.done
  {
    hide Reader.Resume, Reader.CountRest, Play, Reader.Reports, Reader.HandlersCalled;
    ghost var mid, handled := c.Future(), c.handled;
    d, err := c.Read(r, call.n, call.avail, call.withEnd);
    assert c.handled[first..] == handled[first..] + c.handled[|handled|..];
    Together(c, start, whole, lengths, mid, data, d, handled[first..], c.handled[|handled|..], r, err);
  }

  lemma NothingRead(c: Reader.Conn, r: Reader.MessageReader)
    requires c.readRemaining >= 0 && c.readErr.None? && c.messageReader == r
    ensures c.Delivers(c.Future(), c.Whole(), c.Ahead().messages, [], [], r, None)
  {
    hide Reader.Resume, Reader.CountRest;
  }

  lemma Together(c: Reader.Conn, start: Script, whole: int, lengths: seq<nat>, mid: Script, data: seq<byte>, d: seq<byte>,
                 earlier: seq<Control>, later: seq<Control>, r: Reader.MessageReader, err: Option<Reader.ReadError>)
    requires c.readRemaining >= 0
    requires start == mid.(more := data + mid.more, controls := earlier + mid.controls)
    requires c.Delivers(mid, whole, lengths, d, later, r, err)
    ensures c.Delivers(start, whole, lengths, data + d, earlier + later, r, err)
  {
    hide Reader.Resume, Reader.CountRest, Play;
    var more, controls := c.Future().more, c.Future().controls;
    assert data + (d + more) == (data + d) + more;
    assert earlier + (later + controls) == (earlier + later) + controls;
  }

  /** `log` is the beginning of `messages`: of each message a prefix, and all of
      it where the reader saw its end. */
  ghost predicate Follows(log: seq<Message>, messages: seq<Message>, eager: bool)
  {
    && |log| <= |messages|
    && forall i :: 0 <= i < |log| ==> FollowsOne(log[i], messages[i], eager)
  }

  ghost predicate FollowsOne(got: Message, sent: Message, eager: bool)
  {
    && got.kind == sent.kind && got.payload <= sent.payload
    && (got.complete ==> got.payload == sent.payload && (eager || sent.complete))
  }

  lemma FollowsNext(log: seq<Message>, messages: seq<Message>, rest: seq<Message>, got: Message, sent: Message, eager: bool)
    requires |log| <= |messages| && Follows(log, messages[..|log|], eager) && messages[|log|..] == [sent] + rest && FollowsOne(got, sent, eager)
    ensures |log| < |messages| && Follows(log + [got], messages[..|log| + 1], eager) && messages[|log| + 1..] == rest
  {
    assert messages[|log|] == messages[|log|..][0] == sent;
    assert messages[|log| + 1..] == messages[|log|..][1..];
  }

  /** The reader has gone through i of the messages of `p`, or stopped for good; `n` are
      the lengths announced in `p`. */
  ghost predicate Reached(c: Reader.Conn, p: Script, n: Counts, first: nat, i: nat)
    reads c
    requires c.readRemaining >= 0
  {
    && i <= |p.messages| == |n.messages| && first <= |c.handled|
    && (c.readErr.None? ==>
          && p.messages[i..] == c.Future().messages && n.messages[i..] == c.Ahead().messages
          && p.ending == c.Future().ending && p.controls == c.handled[first..] + c.Future().controls
          && c.Ahead().more <= n.more + Sum(n.messages[..i]))
    && (Clean(c.readErr) && c.readErr.Some? ==>
          i == |p.messages| && p.controls == c.handled[first..] && Reader.Reports(p.ending, c.readErr.value, c.sourceError))
    && (c.readErr == Some(Reader.HandlerFailed) ==> Reader.HandlersCalled(p))
    && (c.readErr == Some(Reader.ReadLimit) ==> n.more + Sum(n.messages) > c.Cap() || p.ending == TooLong)
  }

  /** Neither a handler nor the limit has stopped the reader. */
  predicate Clean(err: Option<Reader.ReadError>) {
    err != Some(Reader.HandlerFailed) && err != Some(Reader.ReadLimit)
  }

  /** Nothing is left of the message before. */
  ghost predicate Between(c: Reader.Conn)
    reads c
    requires c.readRemaining >= 0
  {
    c.readErr.None? ==> c.Ahead().more == 0
  }

  predicate Over(n: Counts, i: nat, cap: int) {
    i < |n.messages| && n.messages[i] > cap
  }

  /** The reader is in message i of `p`. */
  ghost predicate Inside(c: Reader.Conn, p: Script, n: Counts, first: nat, i: nat, kind: nat)
    reads c
    requires c.readRemaining >= 0
  {
    && i < |p.messages| == |n.messages| && first <= |c.handled|
    && p.messages[i] == Message(kind, c.Future().more, c.Future().done) && p.messages[i + 1..] == c.Future().messages
    && n.messages[i + 1..] == c.Ahead().messages && c.Whole() <= n.more + Sum(n.messages[..i + 1]) <= n.more + Sum(n.messages)
    && p.ending == c.Future().ending && p.controls == c.handled[first..] + c.Future().controls
  }

  method StartMessage(c: Reader.Conn, ghost p: Script, ghost n: Counts, ghost first: nat, ghost i: nat)
    returns (kind: nat, r: Reader.MessageReader?, err: Option<Reader.ReadError>)
    requires c.Valid() && Reached(c, p, n, first, i)
    modifies c
    ensures c.Valid() && old(c.handled) <= c.handled && err == c.readErr && (old(c.readErr).Some? ==> err == old(c.readErr))
    ensures err.Some? ==> Reached(c, p, n, first, i)
    ensures err.Some? && old(c.readErr).None? && old(Between(c)) && err == Some(Reader.ReadLimit) ==> Over(n, i, c.Cap()) || p.ending == TooLong
    ensures err.None? ==>
      && r != null && c.messageReader == r && fresh(r) && r.got == [] && r.c == c
      && Inside(c, p, n, first, i, kind) && (old(Between(c)) ==> c.Whole() == n.messages[i])
  {
    hide Reader.Resume, Reader.CountRest, Play, Reader.Reports, Sum;
    ghost var handled := c.handled;
    if i < |n.messages| {
      SumUpTo(n.messages, i);
      Split(p.messages, i);
      Split(n.messages, i);
    } else {
      assert n.messages[..i] == n.messages;
    }
    kind, r, err := c.NextReader();
    assert c.handled[first..] == handled[first..] + c.handled[|handled|..];
  }

  lemma Split<T>(s: seq<T>, i: nat)
    requires i < |s|
    ensures s[i..] == [s[i]] + s[i + 1..] && s[i..][1..] == s[i + 1..]
  {
  }

  method FinishMessage(c: Reader.Conn, r: Reader.MessageReader, calls: seq<ReadCall>, kind: nat,
                       ghost p: Script, ghost n: Counts, ghost first: nat, ghost i: nat)
    returns (got: Message)
    requires c.Valid() && c.readErr.None? && c.messageReader == r && r.c == c && r.got == []
    requires Inside(c, p, n, first, i, kind)
    modifies c, r
    ensures c.Valid() && old(c.handled) <= c.handled && Reached(c, p, n, first, i + 1) && FollowsOne(got, p.messages[i], c.eager)
    ensures c.readLimit > 0 ==> |got.payload| <= c.readLimit
    ensures Ample(calls, p.messages[i].payload) ==>
      && Between(c) && (!c.eager && Clean(c.readErr) ==> got == p.messages[i])
      && (Clean(c.readErr) ==> old(c.Whole()) <= c.Cap())
    ensures c.readErr == Some(Reader.ReadLimit) ==> old(c.Whole()) > c.Cap() || p.ending == TooLong
  {
    hide Reader.Resume, Reader.CountRest, Play, Reader.Reports, Ample, Sum;
    ghost var start, whole, handled := c.Future(), c.Whole(), c.handled;
    var data, e := Drain(c, r, calls);
    got := Message(kind, data, e == Some(Reader.EOF));
    assert c.handled[first..] == handled[first..] + c.handled[|handled|..];
    DrainedFollows(c, start, whole, data, r, e, kind);
  }

  /** One message, with its own reads. */
  method ReceiveOne(c: Reader.Conn, calls: seq<ReadCall>, ghost p: Script, ghost n: Counts, ghost first: nat, ghost i: nat)
    returns (got: Message, err: Option<Reader.ReadError>)
    requires c.Valid() && Reached(c, p, n, first, i)
    modifies c
    ensures c.Valid() && old(c.handled) <= c.handled
    ensures err.Some? ==> c.readErr == err && Reached(c, p, n, first, i)
    ensures err.None? ==>
      && i < |p.messages| && Reached(c, p, n, first, i + 1) && FollowsOne(got, p.messages[i], c.eager)
      && (c.readLimit > 0 ==> |got.payload| <= c.readLimit)
    ensures err.None? && Ample(calls, p.messages[i].payload) ==>
      && Between(c) && (!c.eager && Clean(c.readErr) ==> got == p.messages[i])
      && (old(Between(c)) && Clean(c.readErr) ==> !Over(n, i, c.Cap()))
    ensures if old(c.readErr).Some? then err == c.readErr == old(c.readErr)
            else old(Between(c)) && c.readErr == Some(Reader.ReadLimit) ==> Over(n, i, c.Cap()) || p.ending == TooLong
  {
    hide Reached, Inside, Between, FollowsOne, Ample, Reader.Conn.Whole;
    var kind, r;
    kind, r, err := StartMessage(c, p, n, first, i);
    got := Message(0, [], false);
    if err.None? {
      InsideIn(c, p, n, first, i, kind);
      got := FinishMessage(c, r, calls, kind, p, n, first, i);
    }
  }

  lemma InsideIn(c: Reader.Conn, p: Script, n: Counts, first: nat, i: nat, kind: nat)
    requires c.readRemaining >= 0 && Inside(c, p, n, first, i, kind)
    ensures i < |p.messages| == |n.messages|
  {
  }

  /** Reads message after message, each with its own reads, perhaps leaving some
      unfinished. With enough reads, and unless a handler or the limit stops it, every
      message arrives whole, marked complete exactly if it was; and the limit stops it
      exactly if some message announces more, or a length has no 63 bits. */
  method Receive(c: Reader.Conn, plan: seq<seq<ReadCall>>) returns (log: seq<Message>, err: Option<Reader.ReadError>)
    requires c.Valid() && c.readErr.None?
    modifies c
    ensures c.Valid() && old(c.handled) <= c.handled && Follows(log, old(c.Future()).messages, c.eager)
    ensures err.Some? && Clean(err) ==>
      && |log| == |old(c.Future()).messages| && Reader.Reports(old(c.Future()).ending, err.value, c.sourceError)
      && c.handled == old(c.handled) + old(c.Future()).controls
    ensures err == Some(Reader.HandlerFailed) ==> Reader.HandlersCalled(old(c.Future())) && c.Refused()
    ensures err == Some(Reader.ReadLimit) ==>
      old(c.Ahead().more + Sum(c.Ahead().messages)) > c.Cap() || old(c.Future()).ending == TooLong
    ensures err.None? ==> |log| == |plan|
    ensures c.readLimit > 0 ==> forall i :: 0 <= i < |log| ==> |log[i].payload| <= c.readLimit
    ensures AmplePlan(plan, old(c.Future()).messages) ==> err.Some? && (Clean(err) && !c.eager ==> log == old(c.Future()).messages)
    ensures AmplePlan(plan, old(c.Future()).messages) && old(c.Ahead()).more == 0 && err != Some(Reader.HandlerFailed) ==>
      (err == Some(Reader.ReadLimit) <==>
        (exists i: nat :: Over(old(c.Ahead()), i, c.Cap())) || old(c.Future()).ending == TooLong)
  {
    hide Reader.Resume, Reader.CountRest, Play, Reader.Reports, FollowsOne, Ample, Between, Reached, Sum;
    log, err := [], None;
    ghost var p, n, first := c.Future(), c.Ahead(), |c.handled|;
    RestIsCounted(c.input, c.readRemaining, c.MaskInUse(), c.readMaskPos, c.readFinal);
    NothingReached(c);
    assert p.messages[0..] == p.messages && n.messages[0..] == n.messages && c.handled[first..] == [];
    ghost var ample := AmplePlan(plan, p.messages);
    var i := 0;
    while i < |plan|
      invariant 0 <= i <= |plan| && |log| == i <= |p.messages| && Follows(log, p.messages[..i], c.eager)
      invariant c.Valid() && err.None? && Reached(c, p, n, first, i) && old(c.handled) <= c.handled
      invariant c.readLimit > 0 ==> forall j :: 0 <= j < |log| ==> |log[j].payload| <= c.readLimit
      invariant ample && !c.eager && Clean(c.readErr) ==> log == p.messages[..i]
      invariant ample && n.more == 0 ==> Between(c)
      invariant ample && n.more == 0 && Clean(c.readErr) ==> forall j: nat :: j < i ==> !Over(n, j, c.Cap())
      invariant ample && n.more == 0 && c.readErr == Some(Reader.ReadLimit) ==> (exists j: nat :: Over(n, j, c.Cap())) || p.ending == TooLong
    {
      var got;
      got, err := ReceiveOne(c, plan[i], p, n, first, i);
      if err.Some? {
        ReachedEnd(c, p, n, first, i);
        if Clean(err) {
          TooLongIsRefused(p.ending, err.value, c.sourceError);
          assert p.messages[..i] == p.messages;
        }
        return;
      }
      FollowsNext(log, p.messages, p.messages[i + 1..], got, p.messages[i], c.eager);
      log := log + [got];
      i := i + 1;
    }
  }

  lemma ReachedEnd(c: Reader.Conn, p: Script, n: Counts, first: nat, i: nat)
    requires c.readRemaining >= 0 && Reached(c, p, n, first, i) && c.readErr.Some?
    ensures |p.messages| == |n.messages| && first <= |c.handled|
    ensures Clean(c.readErr) ==>
      i == |p.messages| && p.controls == c.handled[first..] && Reader.Reports(p.ending, c.readErr.value, c.sourceError)
    ensures c.readErr == Some(Reader.HandlerFailed) ==> Reader.HandlersCalled(p)
    ensures c.readErr == Some(Reader.ReadLimit) ==> n.more + Sum(n.messages) > c.Cap() || p.ending == TooLong
  {
  }

  lemma TooLongIsRefused(ending: Ending, e: Reader.ReadError, source: Reader.ReadError)
    requires Reader.Reports(ending, e, source) && e != Reader.ReadLimit
    ensures ending != TooLong
  {
  }

  lemma NothingReached(c: Reader.Conn)
    requires c.readRemaining >= 0 && c.readErr.None? && |c.Future().messages| == |c.Ahead().messages|
    ensures Reached(c, c.Future(), c.Ahead(), |c.handled|, 0) && (c.Ahead().more == 0 ==> Between(c))
  {
    hide Reader.Resume, Reader.CountRest, Sum;
    var p, n := c.Future(), c.Ahead();
    assert p.messages[0..] == p.messages && n.messages[0..] == n.messages && c.handled[|c.handled|..] == [];
  }

  lemma RestIsCounted(s: seq<byte>, remaining: nat, mask: Option<Key>, pos: int, final: bool)
    ensures |Reader.Resume(s, remaining, mask, pos, final).messages| == |Reader.CountRest(s, remaining, mask.Some?, final).messages|
  {
    if remaining <= |s| {
      PlayIsCounted(s[remaining..], mask.Some?, !final);
      hide Play, Count;
    }
  }

  lemma DrainedFollows(c: Reader.Conn, start: Script, whole: int, data: seq<byte>, r: Reader.MessageReader, e: Option<Reader.ReadError>, kind: nat)
    requires c.readRemaining >= 0 && (c.readErr.None? ==> c.announced <= c.Cap())
    requires exists controls, lengths :: c.Delivers(start, whole, lengths, data, controls, r, e)
    requires e == Some(Reader.EOF) && !c.eager ==> start.done
    ensures FollowsOne(Message(kind, data, e == Some(Reader.EOF)), Message(kind, start.more, start.done), c.eager)
    ensures e.Some? && Clean(c.readErr) ==>
      whole <= c.Cap() && (!c.eager ==> data == start.more && (e == Some(Reader.EOF) <==> start.done))
  {
  }

  /** What the peer of `w` will hear, decoding all that is on the wire. */
  lemma WireDecodes(w: Writer.Conn)
    requires w.Valid() && w.torn.None?
    ensures var p := Play(w.wire, !w.isServer, false);
      && p.messages == AllMessages(w.state) && p.controls == w.state.controls
      && p.ending == if w.state.closed.Some? then CloseEnding(w.state.closed.value) else Cut
  {
    hide Play;
    RoundTrip(w.isServer, w.frames, w.state);
    assert w.wire == EncodeFrames(w.frames) + [] == EncodeFrames(w.frames);
  }

  /** The same when a network error cut the last frame short: every message sent
      before is heard, and nothing of the cut frame completes a message. */
  lemma TornWireDecodes(w: Writer.Conn)
    requires w.Valid() && w.torn.Some? && w.tornBytes < EncodeFrame(w.torn.value)
    ensures var p := Play(w.wire, !w.isServer, false);
      && w.state.messages <= p.messages && p.controls == w.state.controls && p.ending == Cut
      && forall i :: |w.state.messages| <= i < |p.messages| ==> !p.messages[i].complete
  {
    hide Play, EncodeFrame;
    TornRoundTrip(w.isServer, w.frames, w.state, w.torn.value, w.tornBytes);
  }

  /** The round trip: what any run of a writer has put on the wire, a connection
      of the opposite role reads back, whatever the sizes and number of the reads.
      `log` holds what the application read: of each message in turn the type and a
      prefix of the data, all of it where it read to the end; and when the reader
      stops on its own, nothing is missing. With enough reads, and handlers that
      accept, `log` is everything that was sent and the handlers had every ping and
      pong, unless some message is over the read limit; one that the whole wire fits
      never stops it. */
  method ReadBack(w: Writer.Conn, readLimit: int, accepts: nat -> bool, plan: seq<seq<ReadCall>>)
    returns (c: Reader.Conn, log: seq<Message>, err: Option<Reader.ReadError>)
    requires w.Valid() && w.torn.None?
    ensures c.readLimit == readLimit && c.accepts == accepts && Follows(log, AllMessages(w.state), false)
    ensures err.None? ==> |log| == |plan|
    ensures err.Some? && Clean(err) ==>
      && |log| == |AllMessages(w.state)| && c.handled == w.state.controls
      && Reader.Reports(if w.state.closed.Some? then CloseEnding(w.state.closed.value) else Cut, err.value, Reader.EOF)
    ensures err == Some(Reader.HandlerFailed) ==> (w.state.controls != [] || w.state.closed.Some?) && exists k :: !accepts(k)
    ensures |w.wire| <= c.Cap() ==> err != Some(Reader.ReadLimit)
    ensures AmplePlan(plan, AllMessages(w.state)) ==> err.Some? && (Clean(err) ==> log == AllMessages(w.state))
    ensures AmplePlan(plan, AllMessages(w.state)) && err != Some(Reader.HandlerFailed) ==>
      (err == Some(Reader.ReadLimit) <==> exists i :: 0 <= i < |AllMessages(w.state)| && |AllMessages(w.state)[i].payload| > c.Cap())
  {
    hide Play, Count, Reader.Reports, Sum;
    c := new Reader.Conn(!w.isServer, readLimit, w.wire, Reader.EOF, false, accepts);
    WireDecodes(w);
    WireCounts(w);
    CloseFits(w.state.closed);
    ghost var n := c.Ahead();
    OverIs(n, AllMessages(w.state), c.Cap());
    hide AllMessages, Follows, AmplePlan, Over;
    log, err := Receive(c, plan);
  }

  lemma OverIs(n: Counts, messages: seq<Message>, cap: int)
    requires |n.messages| == |messages| && forall i :: 0 <= i < |messages| ==> n.messages[i] == |messages[i].payload|
    ensures (exists i: nat :: Over(n, i, cap)) <==> exists i :: 0 <= i < |messages| && |messages[i].payload| > cap
  {
    if i: nat :| Over(n, i, cap) {
      assert |messages[i].payload| > cap;
    }
    if i :| 0 <= i < |messages| && |messages[i].payload| > cap {
      assert Over(n, i, cap);
    }
  }

  /** In short: nothing is lost, added or reordered on a wire of less than 2^63 bytes
      when every handler accepts, there is no limit, and there are enough reads. */
  method ReadEverything(w: Writer.Conn, plan: seq<seq<ReadCall>>)
    returns (c: Reader.Conn, log: seq<Message>, err: Option<Reader.ReadError>)
    requires w.Valid() && w.torn.None? && |w.wire| < TWO_63 && AmplePlan(plan, AllMessages(w.state))
    ensures log == AllMessages(w.state) && c.handled == w.state.controls
    ensures err.Some? && Reader.Reports(if w.state.closed.Some? then CloseEnding(w.state.closed.value) else Cut, err.value, Reader.EOF)
  {
    hide Reader.Reports, AmplePlan, AllMessages, Follows;
    c, log, err := ReadBack(w, 0, _ => true, plan);
  }

  /** A whole wire announces what it carries. */
  lemma WireCounts(w: Writer.Conn)
    requires w.Valid() && w.torn.None?
    ensures var n := Count(w.wire, !w.isServer, false);
      && n.more == 0 && |n.messages| == |AllMessages(w.state)| && Sum(n.messages) <= |w.wire|
      && forall i :: 0 <= i < |n.messages| ==> n.messages[i] == |AllMessages(w.state)[i].payload|
  {
    hide Play, Count, Sum;
    WireDecodes(w);
    EncodedIsCarried(w.isServer, NOTHING_SENT, w.frames);
    assert w.wire == EncodeFrames(w.frames) + [] == EncodeFrames(w.frames);
  }

  lemma CloseFits(closed: Option<seq<byte>>)
    ensures closed.Some? ==> CloseEnding(closed.value) != TooLong
  {
  }

  /** Where a clean end of file is wrong. If the byte source reports its end
      together with its last bytes, and these are the last bytes of a frame that
      is not the message's last, Read returns them with EOF although the message
      is incomplete. Reader.Conn.Read shows there is no other such case. */
  method FragmentCut(c: Reader.Conn, r: Reader.MessageReader) returns (data: seq<byte>, err: Option<Reader.ReadError>)
    requires c.Valid() && c.readErr.None? && c.messageReader == r && r.c == c
    requires c.eager && c.sourceError == Reader.EOF
    requires !c.readFinal && 0 < c.readRemaining == |c.input|
    modifies c, r
    ensures err == Some(Reader.EOF) && data == old(c.Future()).more && !old(c.Future()).done
  {
    data, err := c.Read(r, c.readRemaining, c.readRemaining, true);
  }

  /** A stream that ends in what NextReader skips shows as the source's own end of
      file, not as an unexpected one. NextReader says when this happens: when the stream
      is torn inside a frame of the unread message, unless the limit comes first. */
  method SkippedCut(c: Reader.Conn) returns (err: Option<Reader.ReadError>)
    requires c.Valid() && c.readErr.None? && c.sourceError == Reader.EOF && c.readRemaining > |c.input|
    modifies c
    ensures err == Some(Reader.EOF)
  {
    var kind, r;
    kind, r, err := c.NextReader();
  }

  /** A text of two fragments, of one byte each, and a text of two bytes. */
  const TWO_TEXTS: seq<byte> := [1, 1, 7, 128, 1, 8, 129, 2, 9, 9]

  lemma TwoTexts()
    ensures Play(TWO_TEXTS, false, false) == Script([], true, [Message(TEXT, [7, 8], true), Message(TEXT, [9, 9], true)], [], Cut)
    ensures Count(TWO_TEXTS, false, false) == Counts(0, [1, 2], [2, 2], false)
  {
    hide Play, Count, StartFrame;
    FromSecond();
    Unmasked1(TWO_TEXTS, [1, 1], [7], [128, 1, 8, 129, 2, 9, 9], false);
    assert [7] + [8] == [7, 8] && [2] + [2] == [2, 2] && [1] + [2] == [1, 2];
  }

  lemma FromSecond()
    ensures Play([128, 1, 8, 129, 2, 9, 9], false, true) == Script([8], true, [Message(TEXT, [9, 9], true)], [], Cut)
    ensures Count([128, 1, 8, 129, 2, 9, 9], false, true) == Counts(1, [2], [2], false)
  {
    hide Play, Count, StartFrame;
    FromThird();
    Unmasked1([128, 1, 8, 129, 2, 9, 9], [128, 1], [8], [129, 2, 9, 9], true);
    assert [8] + [] == [8];
  }

  lemma FromThird()
    ensures Play([129, 2, 9, 9], false, false) == Script([], true, [Message(TEXT, [9, 9], true)], [], Cut)
    ensures Count([129, 2, 9, 9], false, false) == Counts(0, [2], [2], false)
  {
    hide Play, Count, StartFrame;
    Unmasked1([129, 2, 9, 9], [129, 2], [9, 9], [], false);
    PlayNothing(false, false);
    CountNothing(false, false);
    assert [9, 9] + [] == [9, 9] && [2] + [] == [2];
  }

  lemma CountNothing(isServer: bool, open: bool)
    ensures Count([], isServer, open) == NO_COUNTS
  {
  }

  /** One unmasked data frame with a short head. */
  lemma Unmasked1(s: seq<byte>, head: seq<byte>, payload: seq<byte>, rest: seq<byte>, open: bool)
    requires s == head + (payload + rest) && |head| == 2 && |payload| == head[1] < 126
    requires head[0] / 16 % 8 == 0 && !IsControl(head[0] % 16) && OpcodeAllowed(head[0] % 16, head[0] >= FINAL_BIT, head[1], open)
    ensures var opcode, open' := head[0] % 16, !(head[0] >= FINAL_BIT);
      && Play(s, false, open) == Prepend(opcode, payload, Play(rest, false, open'))
      && Count(s, false, open) == CountFrame(opcode, |payload|, Count(rest, false, open'))
  {
    UnmaskedHead(s, head, payload + rest, open);
    assert (payload + rest)[..|payload|] == payload && (payload + rest)[|payload|..] == rest;
    hide StartFrame;
  }

  lemma UnmaskedHead(s: seq<byte>, head: seq<byte>, tail: seq<byte>, open: bool)
    requires s == head + tail && |head| == 2 && head[1] < 126
    requires head[0] / 16 % 8 == 0 && OpcodeAllowed(head[0] % 16, head[0] >= FINAL_BIT, head[1], open)
    ensures StartFrame(s, false, open) == Begin(head[0] >= FINAL_BIT, head[0] % 16, None, head[1], tail)
  {
    assert s[0] == head[0] && s[1] == head[1] && s[2..] == tail;
  }

  /** The rest of an unread message counts towards the limit of the next one: with a
      limit of two, and one byte of the first text still to be announced, the second is
      refused, though it has two bytes. NextReader says when a message is refused: when
      what is still to be announced of the message before, and the first frame of the
      next, are together over the limit. */
  method UnreadCounts() returns (c: Reader.Conn, err: Option<Reader.ReadError>)
    ensures c.readLimit == 2 && err == c.readErr == Some(Reader.ReadLimit)
  {
    hide Play, Count;
    TwoTexts();
    c := new Reader.Conn(false, 2, TWO_TEXTS, Reader.EOF, false, _ => true);
    var kind, r;
    kind, r, err := c.NextReader();
    kind, r, err := c.NextReader();
  }
}
