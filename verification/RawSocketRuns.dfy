/**
 What a run of the raw WebSocket client sends and reports, told from its events and the frames it read
 (apps/server/bench/raw-ws-socket.ts:126-278).
 */
module RawSocketRuns {
  import opened Common
  import opened Frames
  import opened RawSocket

  // ---------------------------------------------------------------- the first close

  /** The first close frame: its code and reason, or 1005 if it carries none. */
  function CloseIn(fs: seq<Frame>): Option<Notice>
    decreases |fs|
  {
    if fs == [] then None
    else if fs[0].opcode == 8 then
      var p := fs[0].payload;
      Some(Closed(if |p| < 2 then 1005 else p[0] as int * 256 + p[1] as int, if |p| <= 2 then [] else p[2..]))
    else CloseIn(fs[1..])
  }

  /** The frames that an event completed. */
  function NewFrames(before: Socket, after: Socket): seq<Frame>
  {
    if |before.handled| <= |after.handled| then after.handled[|before.handled|..] else []
  }

  /** The close in an event: a close frame, close() with a code that fits, or the end of the connection. */
  function CloseBy(before: Socket, e: Event, after: Socket): Option<Notice>
  {
    if e.Data? then CloseIn(NewFrames(before, after))
    else if !before.link.Open? then None
    else if e.TcpClosed? then Some(Closed(1006, TCP_CLOSED))
    else if e.Close? && e.code < 65536 then Some(Closed(e.code, e.reason))
    else None
  }

  /** The close that came first. */
  function FirstClose(c: Config, es: seq<Event>): Option<Notice>
    decreases |es|
  {
    if es == [] then None
    else
      var front := es[..|es| - 1];
      Or(FirstClose(c, front), CloseBy(Run(c, front), es[|es| - 1], Run(c, es)))
  }

  /** The close is on its way to the consumer, or there. */
  predicate CloseKnown(s: Socket, close: Option<Notice>)
  {
    && (s.closed <==> close.Some?)
    && (if s.attached then s.pendingClose == None else s.pendingClose == close && forall n | n in s.notices :: !n.Closed?)
    && (forall n | n in s.notices && n.Closed? :: close == Some(n))
  }

  function Or<T>(a: Option<T>, b: Option<T>): Option<T> { if a.Some? then a else b }

  lemma HandleCloseKnown(s: Socket, code: nat, reason: seq<byte>, close: Option<Notice>)
    requires CloseKnown(s, close)
    ensures CloseKnown(HandleClose(s, code, reason), Or(close, Some(Closed(code, reason))))
  {}

  lemma CloseOf(f: Frame)
    requires f.opcode == 8
    ensures CloseIn([f]) == Some(Closed(CloseCode(f.payload), CloseReason(f.payload)))
  {
    if |f.payload| >= 2 { ReadTwo(f.payload[..2]); }
  }

  lemma FrameCloseKnown(c: Config, s: Socket, f: Frame, close: Option<Notice>)
    requires CloseKnown(s, close)
    ensures CloseKnown(HandleFrame(c, s, f), Or(close, CloseIn([f])))
  {
    if f.opcode == 8 {
      CloseOf(f);
      HandleCloseKnown(s.(handled := s.handled + [f]), CloseCode(f.payload), CloseReason(f.payload), close);
    }
  }

  lemma {:induction false} FramesCloseKnown(c: Config, s: Socket, fs: seq<Frame>, close: Option<Notice>)
    requires CloseKnown(s, close)
    ensures CloseKnown(HandleAll(c, s, fs), Or(close, CloseIn(fs)))
    decreases |fs|
  {
    if fs != [] {
      FrameCloseKnown(c, s, fs[0], close);
      FramesCloseKnown(c, HandleFrame(c, s, fs[0]), fs[1..], Or(close, CloseIn([fs[0]])));
      assert CloseIn(fs) == Or(CloseIn([fs[0]]), CloseIn(fs[1..]));
    }
  }

  lemma ReceiveCloseKnown(c: Config, s: Socket, chunk: seq<byte>, close: Option<Notice>)
    requires CloseKnown(s, close)
    ensures var t := Receive(c, s, chunk);
            && |s.handled| <= |t.handled| && t.handled[..|s.handled|] == s.handled
            && CloseKnown(t, Or(close, CloseIn(t.handled[|s.handled|..])))
  {
    var parsed := Parse(s.recvBuffer + chunk);
    var start := s.(recvBuffer := parsed.rest);
    HandleAllHandles(c, start, parsed.frames);
    FramesCloseKnown(c, start, parsed.frames, close);
    assert (s.handled + parsed.frames)[|s.handled|..] == parsed.frames;
  }

  lemma DataCloseKnown(c: Config, s: Socket, chunk: seq<byte>, close: Option<Notice>)
    requires CloseKnown(s, close)
    ensures var t := Next(c, s, Data(chunk));
            |s.handled| <= |t.handled| && CloseKnown(t, Or(close, CloseIn(t.handled[|s.handled|..])))
  {
    match s.link
    case Refused => assert s.handled[|s.handled|..] == [];
    case Open => ReceiveCloseKnown(c, s, chunk, close);
    case Shaking(buffer) =>
      var whole := buffer + chunk;
      var end := HeaderEnd(whole, 0);
      if end < |whole| && c.accepts(whole[..end]) {
        ReceiveCloseKnown(c, s.(link := Open), whole[end + 4..], close);
      } else {
        assert s.handled[|s.handled|..] == [];
      }
  }

  lemma AttachCloseKnown(s: Socket, h: Handlers, close: Option<Notice>)
    requires CloseKnown(s, close) && (s.pendingError.Some? ==> s.pendingError.value.Failed?)
    ensures CloseKnown(Attach(s, h), close)
  {
    var t := FlushMessages(s.(handlers := Merged(s.handlers, h), attached := true));
    assert forall n | n in t.notices && n.Closed? :: n in s.notices;
    FlushKnown(t, close);
  }

  lemma FlushKnown(t: Socket, close: Option<Notice>)
    requires t.attached && (t.closed <==> close.Some?) && (t.pendingClose == None || t.pendingClose == close)
    requires forall n | n in t.notices && n.Closed? :: close == Some(n)
    ensures CloseKnown(FlushClose(t), close)
  {}

  lemma OpenCloseKnown(c: Config, s: Socket, e: Event, close: Option<Notice>)
    requires CloseKnown(s, close) && s.link.Open? && !e.Data? && (s.pendingError.Some? ==> s.pendingError.value.Failed?)
    ensures CloseKnown(NextOpen(c, s, e), Or(close, CloseBy(s, e, NextOpen(c, s, e))))
  {
    match e {
      case On(h) => AttachCloseKnown(s, h, close);
      case TcpClosed => HandleCloseKnown(s, 1006, TCP_CLOSED, close);
      case Close(code, reason) =>
        if !s.closed && code < 65536 {
          HandleCloseKnown(WriteFrame(c, s, Closing(code, reason)), code, reason, close);
        }
      case _ =>
    }
  }

  lemma NextCloseKnown(c: Config, s: Socket, e: Event, close: Option<Notice>)
    requires CloseKnown(s, close) && (s.pendingError.Some? ==> s.pendingError.value.Failed?)
    ensures CloseKnown(Next(c, s, e), Or(close, CloseBy(s, e, Next(c, s, e))))
  {
    if e.Data? { DataCloseKnown(c, s, e.chunk, close); } else if s.link.Open? { OpenCloseKnown(c, s, e, close); }
  }

  lemma {:induction false} RunCloseKnown(c: Config, es: seq<Event>)
    ensures CloseKnown(Run(c, es), FirstClose(c, es))
    decreases |es|
  {
    if es != [] {
      var front := es[..|es| - 1];
      RunCloseKnown(c, front);
      RunKeeps(c, front);
      NextCloseKnown(c, Run(c, front), es[|es| - 1], FirstClose(c, front));
    }
  }

  /**
   Of all the closes of a run the consumer can only hear of the first, with its code and reason: it waits for a
   consumer, and no later one replaces it.
   */
  lemma FirstCloseIsReported(c: Config, es: seq<Event>)
    ensures Run(c, es).closed <==> FirstClose(c, es).Some?
    ensures !Run(c, es).attached ==> Run(c, es).pendingClose == FirstClose(c, es)
    ensures forall n | n in Run(c, es).notices && n.Closed? :: FirstClose(c, es) == Some(n)
  {
    RunCloseKnown(c, es);
  }

  // ---------------------------------------------------------------- what is sent

  /** The pongs for these frames: one for each ping before the first close, with its payload. */
  function Pongs(fs: seq<Frame>): seq<Frame>
    decreases |fs|
  {
    if fs == [] || fs[0].opcode == 8 then []
    else (if fs[0].opcode == 9 then [Frame(10, fs[0].payload)] else []) + Pongs(fs[1..])
  }

  /** What an event gives an open socket to send. */
  function DueBy(before: Socket, e: Event, after: Socket): seq<Frame>
  {
    if e.Data? then Pongs(NewFrames(before, after))
    else if !before.link.Open? then []
    else if e.Send? && |e.data| < 0x1_0000_0000_0000_0000 then [Frame(2, e.data)]
    else if e.Close? && e.code < 65536 && |e.reason| + 2 < 0x1_0000_0000_0000_0000
    then [Frame(8, [(e.code / 256) as byte, (e.code % 256) as byte] + e.reason)]
    else []
  }

  /** What the client has to send, until the first close: pongs, the data it is given, and its close. */
  function Due(c: Config, es: seq<Event>): seq<Frame>
    decreases |es|
  {
    if es == [] then []
    else
      var front := es[..|es| - 1];
      Due(c, front) + if FirstClose(c, front).Some? then [] else DueBy(Run(c, front), es[|es| - 1], Run(c, es))
  }

  predicate Fits(fs: seq<Frame>) { forall f | f in fs :: |f.payload| < MOST }

  lemma {:induction false} ParsedFits(b: seq<byte>)
    ensures Fits(Parse(b).frames)
    decreases |b|
  {
    if FirstFrame(b).Ready? {
      ReadIsOnWire(b);
      ParseReady(b, FirstFrame(b).frame, FirstFrame(b).size);
      ParsedFits(b[FirstFrame(b).size..]);
    }
  }

  lemma FrameAnswered(c: Config, s: Socket, f: Frame)
    requires |f.payload| < MOST
    ensures HandleFrame(c, s, f).sent == s.sent + if s.closed then [] else Pongs([f])
    ensures HandleFrame(c, s, f).closed <==> s.closed || f.opcode == 8
  {}

  lemma {:induction false} FramesAnswered(c: Config, s: Socket, fs: seq<Frame>)
    requires Fits(fs)
    ensures HandleAll(c, s, fs).sent == s.sent + if s.closed then [] else Pongs(fs)
    decreases |fs|
  {
    if fs != [] {
      assert fs[0] in fs && forall f | f in fs[1..] :: f in fs;
      var t := HandleFrame(c, s, fs[0]);
      FrameAnswered(c, s, fs[0]);
      FramesAnswered(c, t, fs[1..]);
      PongsOfMore(s.sent, fs);
    }
  }

  lemma PongsOfMore(sent: seq<Frame>, fs: seq<Frame>)
    requires fs != []
    ensures sent + Pongs(fs) == sent + Pongs([fs[0]]) + if fs[0].opcode == 8 then [] else Pongs(fs[1..])
  {}

  lemma ReceiveAnswers(c: Config, s: Socket, chunk: seq<byte>)
    ensures var t := Receive(c, s, chunk);
            |s.handled| <= |t.handled| && t.sent == s.sent + if s.closed then [] else Pongs(t.handled[|s.handled|..])
  {
    var parsed := Parse(s.recvBuffer + chunk);
    var start := s.(recvBuffer := parsed.rest);
    ParsedFits(s.recvBuffer + chunk);
    HandleAllHandles(c, start, parsed.frames);
    FramesAnswered(c, start, parsed.frames);
    assert (s.handled + parsed.frames)[|s.handled|..] == parsed.frames;
  }

  lemma DataAnswers(c: Config, s: Socket, chunk: seq<byte>)
    ensures var t := Next(c, s, Data(chunk));
            |s.handled| <= |t.handled| && t.sent == s.sent + if s.closed then [] else Pongs(t.handled[|s.handled|..])
  {
    match s.link
    case Refused => NoneAnswered(s, s);
    case Open => ReceiveAnswers(c, s, chunk);
    case Shaking(buffer) =>
      var whole := buffer + chunk;
      var end := HeaderEnd(whole, 0);
      if end < |whole| && c.accepts(whole[..end]) {
        ReceiveAnswers(c, s.(link := Open), whole[end + 4..]);
      } else {
        NoneAnswered(s, Shake(c, s, whole));
      }
  }

  lemma NoneAnswered(s: Socket, t: Socket)
    requires t.handled == s.handled && t.sent == s.sent
    ensures t.sent == s.sent + if s.closed then [] else Pongs(t.handled[|s.handled|..])
  {
    assert t.handled[|s.handled|..] == [];
  }

  lemma ClosingBytes(code: nat, reason: seq<byte>)
    requires code < 65536
    ensures Closing(code, reason) == Frame(8, [(code / 256) as byte, (code % 256) as byte] + reason)
  {
    assert WriteBE(code / 256, 1) == [(code / 256) as byte];
    assert WriteBE(code, 2) == [(code / 256) as byte, (code % 256) as byte];
  }

  lemma CloseSends(c: Config, s: Socket, code: nat, reason: seq<byte>)
    requires s.link.Open?
    ensures NextOpen(c, s, Close(code, reason)).sent
         == s.sent + if s.closed then [] else DueBy(s, Close(code, reason), s)
  {
    if !s.closed && code < 65536 {
      ClosingBytes(code, reason);
      CloseKeepsWire(WriteFrame(c, s, Closing(code, reason)), code, reason);
    }
  }

  lemma OtherSends(c: Config, s: Socket, e: Event)
    requires !e.Data? && !e.Send? && !e.Close?
    ensures Next(c, s, e).sent == s.sent
  {}

  lemma NextSends(c: Config, s: Socket, e: Event)
    ensures Next(c, s, e).sent == s.sent + if s.closed then [] else DueBy(s, e, Next(c, s, e))
  {
    match e {
      case Data(chunk) => DataAnswers(c, s, chunk);
      case Close(code, reason) => if s.link.Open? { CloseSends(c, s, code, reason); }
      case Send(data) =>
      case _ => OtherSends(c, s, e);
    }
  }

  /** In every run the frames sent are exactly those due: each ping is answered, in order, and nothing else is added. */
  lemma {:induction false} SentExactly(c: Config, es: seq<Event>)
    ensures Run(c, es).sent == Due(c, es)
    decreases |es|
  {
    if es != [] {
      var front := es[..|es| - 1];
      SentExactly(c, front);
      FirstCloseIsReported(c, front);
      NextSends(c, Run(c, front), es[|es| - 1]);
    }
  }

  // ---------------------------------------------------------------- what a consumer hears

  predicate TakesCloses(h: Handlers) { h.close }

  predicate TakesErrors(h: Handlers) { h.error }

  /** Whenever the consumer attaches it has, or adds, this handler. */
  ghost predicate Hears(c: Config, es: seq<Event>, pick: Handlers -> bool)
  {
    forall i | 0 <= i < |es| && es[i].On? ::
      pick(es[i].handlers) || pick(Run(c, es[..i]).handlers) || !Run(c, es[..i]).link.Open?
  }

  lemma HearsBefore(c: Config, es: seq<Event>, pick: Handlers -> bool)
    requires es != [] && Hears(c, es, pick)
    ensures Hears(c, es[..|es| - 1], pick)
  {
    var front := es[..|es| - 1];
    forall i | 0 <= i < |front| && front[i].On?
      ensures pick(front[i].handlers) || pick(Run(c, front[..i]).handlers) || !Run(c, front[..i]).link.Open?
    {
      assert front[..i] == es[..i] && es[i].On?;
    }
  }

  /** Once it is attached the handler is there. */
  lemma {:induction false} HandlerIsThere(c: Config, es: seq<Event>, pick: Handlers -> bool)
    requires Hears(c, es, pick) && forall a, b :: pick(Merged(a, b)) <==> pick(a) || pick(b)
    ensures Run(c, es).attached ==> pick(Run(c, es).handlers)
    decreases |es|
  {
    if es != [] {
      var front, e := es[..|es| - 1], es[|es| - 1];
      HearsBefore(c, es, pick);
      HandlerIsThere(c, front, pick);
      if e.On? && Run(c, front).link.Open? { assert es[|es| - 1].On?; } else { AttachedStays(c, Run(c, front), e); }
    }
  }

  /** What the consumer has been told of the errors. */
  function Failures(ns: seq<Notice>): seq<nat>
    decreases |ns|
  {
    if ns == [] then []
    else Failures(ns[..|ns| - 1]) + (if ns[|ns| - 1].Failed? then [ns[|ns| - 1].error] else [])
  }

  lemma FailureAdds(ns: seq<Notice>, n: Notice)
    ensures Failures(ns + [n]) == Failures(ns) + (if n.Failed? then [n.error] else [])
  {
    assert (ns + [n])[..|ns|] == ns;
  }

  /** The errors to report: of those before on() the last, and each one since. */
  function Errors(c: Config, es: seq<Event>): seq<nat>
    decreases |es|
  {
    if es == [] then []
    else
      var front, e := es[..|es| - 1], es[|es| - 1];
      if !e.TcpError? || !Run(c, front).link.Open? then Errors(c, front)
      else if Run(c, front).attached then Errors(c, front) + [e.error]
      else [e.error]
  }

  /** A consumer that listens has been told of the close. */
  predicate CloseHeard(s: Socket, close: Option<Notice>)
  {
    s.attached && close.Some? ==> s.handlers.close && close.value in s.notices
  }

  lemma FrameCloseHeard(c: Config, s: Socket, f: Frame, close: Option<Notice>)
    requires CloseKnown(s, close) && CloseHeard(s, close) && (s.attached ==> s.handlers.close)
    ensures CloseHeard(HandleFrame(c, s, f), Or(close, CloseIn([f])))
  {
    FrameCloseKnown(c, s, f, close);
    if f.opcode == 8 { CloseOf(f); }
  }

  lemma {:induction false} FramesCloseHeard(c: Config, s: Socket, fs: seq<Frame>, close: Option<Notice>)
    requires CloseKnown(s, close) && CloseHeard(s, close) && (s.attached ==> s.handlers.close)
    ensures CloseHeard(HandleAll(c, s, fs), Or(close, CloseIn(fs)))
    decreases |fs|
  {
    if fs != [] {
      FrameCloseKnown(c, s, fs[0], close);
      FrameCloseHeard(c, s, fs[0], close);
      HandleAllHandles(c, s, [fs[0]]);
      FramesCloseHeard(c, HandleFrame(c, s, fs[0]), fs[1..], Or(close, CloseIn([fs[0]])));
      assert CloseIn(fs) == Or(CloseIn([fs[0]]), CloseIn(fs[1..]));
    }
  }

  lemma ReceiveCloseHeard(c: Config, s: Socket, chunk: seq<byte>, close: Option<Notice>)
    requires CloseKnown(s, close) && CloseHeard(s, close) && (s.attached ==> s.handlers.close)
    ensures var t := Receive(c, s, chunk); CloseHeard(t, Or(close, CloseIn(NewFrames(s, t))))
  {
    var parsed := Parse(s.recvBuffer + chunk);
    var start := s.(recvBuffer := parsed.rest);
    HandleAllHandles(c, start, parsed.frames);
    FramesCloseHeard(c, start, parsed.frames, close);
    assert (s.handled + parsed.frames)[|s.handled|..] == parsed.frames;
  }

  lemma DataCloseHeard(c: Config, s: Socket, chunk: seq<byte>, close: Option<Notice>)
    requires CloseKnown(s, close) && CloseHeard(s, close) && (s.attached ==> s.handlers.close)
    ensures var t := Next(c, s, Data(chunk)); CloseHeard(t, Or(close, CloseIn(NewFrames(s, t))))
  {
    match s.link
    case Refused => assert s.handled[|s.handled|..] == [];
    case Open => ReceiveCloseHeard(c, s, chunk, close);
    case Shaking(buffer) =>
      var whole := buffer + chunk;
      var end := HeaderEnd(whole, 0);
      if end < |whole| && c.accepts(whole[..end]) {
        ReceiveCloseHeard(c, s.(link := Open), whole[end + 4..], close);
      } else {
        assert s.handled[|s.handled|..] == [];
      }
  }

  /** What on() gives a consumer: the queued messages, then the close, then the error that waited. */
  lemma AttachTells(s: Socket, h: Handlers)
    ensures Attach(s, h).notices
         == s.notices + (if s.handlers.message || h.message then Messages(s.pendingMessages) else [])
            + (if s.pendingClose.Some? && (s.handlers.close || h.close) then [s.pendingClose.value] else [])
            + (if s.pendingError.Some? && (s.handlers.error || h.error) then [s.pendingError.value] else [])
  {}

  lemma NextCloseHeard(c: Config, s: Socket, e: Event, close: Option<Notice>)
    requires CloseKnown(s, close) && CloseHeard(s, close) && (s.attached ==> s.handlers.close)
    requires e.On? ==> s.handlers.close || e.handlers.close || !s.link.Open?
    ensures CloseHeard(Next(c, s, e), Or(close, CloseBy(s, e, Next(c, s, e))))
  {
    match e {
      case Data(chunk) => DataCloseHeard(c, s, chunk, close);
      case On(h) => AttachTells(s, h);
      case _ =>
    }
  }

  lemma {:induction false} RunCloseHeard(c: Config, es: seq<Event>)
    requires Hears(c, es, TakesCloses)
    ensures CloseHeard(Run(c, es), FirstClose(c, es))
    decreases |es|
  {
    if es != [] {
      var front := es[..|es| - 1];
      HearsBefore(c, es, TakesCloses);
      HandlerIsThere(c, front, TakesCloses);
      RunCloseHeard(c, front);
      RunCloseKnown(c, front);
      assert es[|es| - 1].On? ==> Run(c, front).handlers.close || es[|es| - 1].handlers.close || !Run(c, front).link.Open?;
      NextCloseHeard(c, Run(c, front), es[|es| - 1], FirstClose(c, front));
    }
  }

  /** A consumer that attaches with an onClose, however late, hears of the close that came first. */
  lemma CloseIsHeard(c: Config, es: seq<Event>)
    requires Hears(c, es, TakesCloses) && Run(c, es).attached
    ensures FirstClose(c, es).Some? ==> FirstClose(c, es).value in Run(c, es).notices
  {
    RunCloseHeard(c, es);
  }

  // ---------------------------------------------------------------- errors

  /** What the consumer has been told of the errors, and what waits. */
  predicate ErrorsHeard(s: Socket, errors: seq<nat>)
  {
    if s.attached then s.pendingError == None && Failures(s.notices) == errors
    else && |errors| <= 1 && s.pendingError == (if errors == [] then None else Some(Failed(errors[0])))
         && Failures(s.notices) == []
  }

  /** No error is added or lost. */
  predicate SameErrors(s: Socket, t: Socket)
  {
    t.attached == s.attached && t.pendingError == s.pendingError && Failures(t.notices) == Failures(s.notices)
  }

  lemma FrameKeepsErrors(c: Config, s: Socket, f: Frame)
    ensures SameErrors(s, HandleFrame(c, s, f))
  {
    FailureAdds(s.notices, Message(f.payload));
    FailureAdds(s.notices, Closed(CloseCode(f.payload), CloseReason(f.payload)));
  }

  lemma {:induction false} FramesKeepErrors(c: Config, s: Socket, fs: seq<Frame>)
    ensures SameErrors(s, HandleAll(c, s, fs))
    decreases |fs|
  {
    if fs != [] {
      FrameKeepsErrors(c, s, fs[0]);
      FramesKeepErrors(c, HandleFrame(c, s, fs[0]), fs[1..]);
    }
  }

  lemma DataKeepsErrors(c: Config, s: Socket, chunk: seq<byte>)
    ensures SameErrors(s, Next(c, s, Data(chunk)))
  {
    match s.link
    case Refused =>
    case Open =>
      var parsed := Parse(s.recvBuffer + chunk);
      FramesKeepErrors(c, s.(recvBuffer := parsed.rest), parsed.frames);
    case Shaking(buffer) =>
      var end := HeaderEnd(buffer + chunk, 0);
      if end < |buffer + chunk| {
        var parsed := Parse(s.recvBuffer + (buffer + chunk)[end + 4..]);
        FramesKeepErrors(c, s.(link := Open, recvBuffer := parsed.rest), parsed.frames);
      }
  }

  lemma {:induction false} MessagesAreNoFailures(ns: seq<Notice>, data: seq<seq<byte>>)
    ensures Failures(ns + Messages(data)) == Failures(ns)
    decreases |data|
  {
    if data == [] {
      assert ns + Messages(data) == ns;
    } else {
      var front, last := data[..|data| - 1], data[|data| - 1];
      MessagesAreNoFailures(ns, front);
      FailureAdds(ns + Messages(front), Message(last));
      assert ns + Messages(data) == (ns + Messages(front)) + [Message(last)];
    }
  }

  lemma MessagesKeepFailures(s: Socket)
    ensures Failures(FlushMessages(s).notices) == Failures(s.notices)
  {
    var ns := FlushMessages(s).notices;
    if s.handlers.message {
      assert ns == s.notices + Messages(s.pendingMessages);
      MessagesAreNoFailures(s.notices, s.pendingMessages);
    } else {
      assert ns == s.notices;
    }
  }

  lemma CloseKeepsFailures(s: Socket)
    requires s.pendingClose.Some? ==> s.pendingClose.value.Closed?
    ensures Failures(FlushClose(s).notices) == Failures(s.notices)
  {
    if s.pendingClose.Some? { FailureAdds(s.notices, s.pendingClose.value); }
  }

  lemma FlushErrorTells(s: Socket)
    requires s.handlers.error && (s.pendingError.Some? ==> s.pendingError.value.Failed?)
    ensures Failures(FlushError(s).notices)
         == Failures(s.notices) + if s.pendingError.Some? then [s.pendingError.value.error] else []
  {
    if s.pendingError.Some? { FailureAdds(s.notices, s.pendingError.value); }
  }

  lemma AttachErrorsHeard(s: Socket, h: Handlers, errors: seq<nat>)
    requires ErrorsHeard(s, errors) && (s.handlers.error || h.error) && (s.pendingClose.Some? ==> s.pendingClose.value.Closed?)
    ensures ErrorsHeard(Attach(s, h), errors)
  {
    var joined := s.(handlers := Merged(s.handlers, h), attached := true);
    MessagesKeepFailures(joined);
    CloseKeepsFailures(FlushMessages(joined));
    FlushErrorTells(FlushClose(FlushMessages(joined)));
  }

  lemma ClosingKeepsErrors(s: Socket, code: nat, reason: seq<byte>)
    ensures SameErrors(s, HandleClose(s, code, reason))
  {
    FailureAdds(s.notices, Closed(code, reason));
  }

  lemma ErrorIsHeard(s: Socket, error: nat, errors: seq<nat>)
    requires ErrorsHeard(s, errors) && (s.attached ==> s.handlers.error)
    ensures ErrorsHeard(EmitError(s, error), if s.attached then errors + [error] else [error])
  {
    FailureAdds(s.notices, Failed(error));
  }

  lemma OpenErrorsHeard(c: Config, s: Socket, e: Event, errors: seq<nat>)
    requires ErrorsHeard(s, errors) && ClosedOnce(s) && (s.attached ==> s.handlers.error)
    requires s.link.Open? && !e.Data? && (e.On? ==> s.handlers.error || e.handlers.error)
    ensures ErrorsHeard(NextOpen(c, s, e), if !e.TcpError? then errors else if s.attached then errors + [e.error] else [e.error])
  {
    match e {
      case On(h) => AttachErrorsHeard(s, h, errors);
      case TcpError(error) => ErrorIsHeard(s, error, errors);
      case TcpClosed => ClosingKeepsErrors(s, 1006, TCP_CLOSED);
      case Close(code, reason) => if code < 65536 { ClosingKeepsErrors(WriteFrame(c, s, Closing(code, reason)), code, reason); }
      case _ =>
    }
  }

  lemma NextErrorsHeard(c: Config, s: Socket, e: Event, errors: seq<nat>)
    requires ErrorsHeard(s, errors) && ClosedOnce(s) && (s.attached ==> s.handlers.error)
    requires e.On? ==> s.handlers.error || e.handlers.error || !s.link.Open?
    ensures ErrorsHeard(Next(c, s, e), if !e.TcpError? || !s.link.Open? then errors
                                       else if s.attached then errors + [e.error] else [e.error])
  {
    if e.Data? { DataKeepsErrors(c, s, e.chunk); } else if s.link.Open? { OpenErrorsHeard(c, s, e, errors); }
  }

  lemma {:induction false} RunErrorsHeard(c: Config, es: seq<Event>)
    requires Hears(c, es, TakesErrors)
    ensures ErrorsHeard(Run(c, es), Errors(c, es))
    decreases |es|
  {
    if es != [] {
      var front := es[..|es| - 1];
      HearsBefore(c, es, TakesErrors);
      HandlerIsThere(c, front, TakesErrors);
      RunErrorsHeard(c, front);
      RunKeeps(c, front);
      assert es[|es| - 1].On? ==> Run(c, front).handlers.error || es[|es| - 1].handlers.error || !Run(c, front).link.Open?;
      NextErrorsHeard(c, Run(c, front), es[|es| - 1], Errors(c, front));
    }
  }

  /** A consumer that attaches with an onError hears of the last error before that, and of each one since. */
  lemma ErrorsAreHeard(c: Config, es: seq<Event>)
    requires Hears(c, es, TakesErrors) && Run(c, es).attached
    ensures Failures(Run(c, es).notices) == Errors(c, es)
  {
    RunErrorsHeard(c, es);
  }
}
