/**
 The raw WebSocket client as runs of what happens to it: apps/server/bench/raw-ws-socket.ts:79-278.
 `accepts` is the check of the handshake response, `rand(n)` the mask key of the n-th frame written.
 */
module RawSocket {
  import opened Common
  import opened Frames

  const TEXT: byte := 0x1
  const BINARY: byte := 0x2
  const CLOSE: byte := 0x8
  const PING: byte := 0x9
  const PONG: byte := 0xa

  /** "TCP connection closed" */
  const TCP_CLOSED: seq<byte> := [84, 67, 80, 32, 99, 111, 110, 110, 101, 99, 116, 105, 111, 110, 32, 99, 108, 111, 115, 101, 100]

  type Key = k: seq<byte> | |k| == 4 witness [0, 0, 0, 0]

  datatype Config = Config(accepts: seq<byte> -> bool, rand: nat -> Key)

  datatype Notice = Message(data: seq<byte>) | Closed(code: nat, reason: seq<byte>) | Failed(error: nat)

  datatype Handlers = Handlers(message: bool, close: bool, error: bool)

  datatype Link = Shaking(buffer: seq<byte>) | Open | Refused

  datatype Socket = Socket(
    link: Link, recvBuffer: seq<byte>, closed: bool, attached: bool, handlers: Handlers,
    pendingMessages: seq<seq<byte>>, pendingClose: Option<Notice>, pendingError: Option<Notice>,
    notices: seq<Notice>,        // calls of the consumer's handlers, in order
    wire: seq<byte>,             // bytes written since the handshake
    handled: seq<Frame>, sent: seq<Frame>)   // history: frames handled, frames written

  datatype Event =
    | Data(chunk: seq<byte>)
    | TcpClosed | TcpError(error: nat) | GiveUp            // GiveUp: the connect() timeout
    | On(handlers: Handlers)
    | Send(data: seq<byte>)
    | Close(code: nat, reason: seq<byte>)

  // ---------------------------------------------------------------- the consumer's side

  function Notify(s: Socket, n: Notice): Socket { s.(notices := s.notices + [n]) }

  function EmitMessage(s: Socket, data: seq<byte>): Socket
  {
    if !s.attached then s.(pendingMessages := s.pendingMessages + [data])
    else if s.handlers.message then Notify(s, Message(data)) else s
  }

  function EmitClose(s: Socket, code: nat, reason: seq<byte>): Socket
  {
    if !s.attached then s.(pendingClose := Some(Closed(code, reason)))
    else if s.handlers.close then Notify(s, Closed(code, reason)) else s
  }

  function EmitError(s: Socket, error: nat): Socket
  {
    if !s.attached then s.(pendingError := Some(Failed(error)))
    else if s.handlers.error then Notify(s, Failed(error)) else s
  }

  function Messages(data: seq<seq<byte>>): seq<Notice> { seq(|data|, i requires 0 <= i < |data| => Message(data[i])) }

  function Merged(a: Handlers, b: Handlers): Handlers
  {
    Handlers(a.message || b.message, a.close || b.close, a.error || b.error)
  }

  function FlushMessages(s: Socket): Socket
  {
    s.(pendingMessages := [], notices := s.notices + if s.handlers.message then Messages(s.pendingMessages) else [])
  }

  function FlushClose(s: Socket): Socket
  {
    var flushed := s.(pendingClose := None);
    if s.pendingClose.Some? && s.handlers.close then Notify(flushed, s.pendingClose.value) else flushed
  }

  function FlushError(s: Socket): Socket
  {
    var flushed := s.(pendingError := None);
    if s.pendingError.Some? && s.handlers.error then Notify(flushed, s.pendingError.value) else flushed
  }

  /** on(): the handlers are added and what was queued is flushed: messages, then the close, then the error. */
  function Attach(s: Socket, h: Handlers): Socket
  {
    FlushError(FlushClose(FlushMessages(s.(handlers := Merged(s.handlers, h), attached := true))))
  }

  // ---------------------------------------------------------------- frames

  /** Nothing is written once closed; a payload too long for a length field cannot be written. */
  function WriteFrame(c: Config, s: Socket, f: Frame): Socket
  {
    if s.closed || |f.payload| >= MOST then s
    else s.(wire := s.wire + Encode(f, c.rand(|s.sent|)), sent := s.sent + [f])
  }

  function HandleClose(s: Socket, code: nat, reason: seq<byte>): Socket
  {
    if s.closed then s else EmitClose(s.(closed := true), code, reason)
  }

  function CloseCode(payload: seq<byte>): nat { if |payload| >= 2 then ReadBE(payload[..2]) else 1005 }

  function CloseReason(payload: seq<byte>): seq<byte> { if |payload| > 2 then payload[2..] else [] }

  function HandleFrame(c: Config, s: Socket, f: Frame): Socket
  {
    var t := s.(handled := s.handled + [f]);
    if f.opcode == BINARY || f.opcode == TEXT then EmitMessage(t, f.payload)
    else if f.opcode == CLOSE then HandleClose(t, CloseCode(f.payload), CloseReason(f.payload))
    else if f.opcode == PING then WriteFrame(c, t, Frame(PONG, f.payload))
    else t
  }

  function HandleAll(c: Config, s: Socket, fs: seq<Frame>): Socket
    decreases |fs|
  {
    if fs == [] then s else HandleAll(c, HandleFrame(c, s, fs[0]), fs[1..])
  }

  /** onData: add the chunk and handle every frame that is now complete. */
  function Receive(c: Config, s: Socket, chunk: seq<byte>): Socket
  {
    var parsed := Parse(s.recvBuffer + chunk);
    HandleAll(c, s.(recvBuffer := parsed.rest), parsed.frames)
  }

  // ---------------------------------------------------------------- the handshake

  const BLANK: seq<byte> := [13, 10, 13, 10]

  /** Where the first blank line from `from` on starts; the length of the buffer if there is none. */
  function HeaderEnd(b: seq<byte>, from: nat): (i: nat)
    requires from <= |b|
    ensures from <= i <= |b| && (i < |b| ==> i + 4 <= |b|)
    decreases |b| - from
  {
    if |b| < from + 4 then |b| else if b[from..from + 4] == BLANK then from else HeaderEnd(b, from + 1)
  }

  /** The header ends at the first CR LF CR LF. */
  lemma {:induction false} HeaderEndExactly(b: seq<byte>, from: nat)
    requires from <= |b|
    ensures var end := HeaderEnd(b, from);
            (if end < |b| then BlankAt(b, end) else end == |b|) && forall i | from <= i < end :: !BlankAt(b, i)
    decreases |b| - from
  {
    if |b| >= from + 4 && b[from..from + 4] != BLANK { HeaderEndExactly(b, from + 1); }
  }

  predicate BlankAt(b: seq<byte>, i: nat) { i + 4 <= |b| && b[i] == 13 && b[i + 1] == 10 && b[i + 2] == 13 && b[i + 3] == 10 }

  predicate HasHeader(b: seq<byte>) { HeaderEnd(b, 0) < |b| }

  function Shake(c: Config, s: Socket, buffer: seq<byte>): Socket
  {
    var end := HeaderEnd(buffer, 0);
    if end == |buffer| then s.(link := Shaking(buffer))
    else if c.accepts(buffer[..end]) then Receive(c, s.(link := Open), buffer[end + 4..])
    else s.(link := Refused)
  }

  // ---------------------------------------------------------------- runs

  function Closing(code: nat, reason: seq<byte>): Frame { Frame(CLOSE, WriteBE(code, 2) + reason) }

  /** What happens to a socket whose handshake is done. */
  function NextOpen(c: Config, s: Socket, e: Event): Socket
  {
    match e
    case Data(chunk) => Receive(c, s, chunk)
    case TcpClosed => HandleClose(s, 1006, TCP_CLOSED)
    case TcpError(error) => EmitError(s, error)
    case GiveUp => s
    case On(handlers) => Attach(s, handlers)
    case Send(data) => WriteFrame(c, s, Frame(BINARY, data))
    case Close(code, reason) =>
      if s.closed || code > 0xffff then s   // a larger code throws before anything is written
      else HandleClose(WriteFrame(c, s, Closing(code, reason)), code, reason)
  }

  function Next(c: Config, s: Socket, e: Event): Socket
  {
    match s.link
    case Open => NextOpen(c, s, e)
    case Refused => s
    case Shaking(buffer) =>
      match e
      case Data(chunk) => Shake(c, s, buffer + chunk)
      case TcpError(_) => s.(link := Refused)
      case GiveUp => s.(link := Refused)
      case _ => s
  }

  function Start(): Socket
  {
    Socket(Shaking([]), [], false, false, Handlers(false, false, false), [], None, None, [], [], [], [])
  }

  function Run(c: Config, es: seq<Event>): Socket
    decreases |es|
  {
    if es == [] then Start() else Next(c, Run(c, es[..|es| - 1]), es[|es| - 1])
  }

  /** The bytes that arrived, however they were cut into chunks. */
  function Stream(es: seq<Event>): seq<byte>
    decreases |es|
  {
    if es == [] then []
    else Stream(es[..|es| - 1]) + (if es[|es| - 1].Data? then es[|es| - 1].chunk else [])
  }

  /** The connect() promise was rejected by a timeout or a socket error. */
  predicate GaveUp(es: seq<Event>) { exists e | e in es :: e.GiveUp? || e.TcpError? }

  // ---------------------------------------------------------------- chunks do not matter

  /** How parsing has gone: a function of the bytes alone, unless the handshake was given up. */
  predicate AsIfAtOnce(c: Config, s: Socket, stream: seq<byte>, gaveUp: bool)
  {
    var end := HeaderEnd(stream, 0);
    match s.link
    case Shaking(buffer) => buffer == stream && end == |stream| && s.handled == [] && s.recvBuffer == []
    case Open =>
      && end < |stream| && c.accepts(stream[..end])
      && s.handled == Parse(stream[end + 4..]).frames && s.recvBuffer == Parse(stream[end + 4..]).rest
    case Refused =>
      && (gaveUp || (end < |stream| && !c.accepts(stream[..end])))
      && s.handled == [] && s.recvBuffer == []
  }

  lemma {:induction false} HandleAllHandles(c: Config, s: Socket, fs: seq<Frame>)
    ensures var t := HandleAll(c, s, fs);
            && t.handled == s.handled + fs && t.recvBuffer == s.recvBuffer && t.link == s.link
            && t.attached == s.attached && t.handlers == s.handlers
    decreases |fs|
  {
    if fs != [] {
      HandleAllHandles(c, HandleFrame(c, s, fs[0]), fs[1..]);
      assert (s.handled + [fs[0]]) + fs[1..] == s.handled + fs;
    }
  }

  lemma {:induction false} HeaderEndIsStable(b: seq<byte>, more: seq<byte>, from: nat)
    requires from <= |b| && HeaderEnd(b, from) < |b|
    ensures HeaderEnd(b + more, from) == HeaderEnd(b, from)
    decreases |b| - from
  {
    assert (b + more)[from..from + 4] == b[from..from + 4];
    if b[from..from + 4] != BLANK { HeaderEndIsStable(b, more, from + 1); }
  }

  lemma ReceiveAsIfAtOnce(c: Config, s: Socket, body: seq<byte>, chunk: seq<byte>)
    requires s.handled == Parse(body).frames && s.recvBuffer == Parse(body).rest
    ensures var t := Receive(c, s, chunk);
            t.link == s.link && t.handled == Parse(body + chunk).frames && t.recvBuffer == Parse(body + chunk).rest
  {
    var parsed := Parse(s.recvBuffer + chunk);
    ParseInParts(body, chunk);
    HandleAllHandles(c, s.(recvBuffer := parsed.rest), parsed.frames);
  }

  lemma HeaderIsStable(stream: seq<byte>, chunk: seq<byte>)
    requires HasHeader(stream)
    ensures var end := HeaderEnd(stream, 0);
            && HeaderEnd(stream + chunk, 0) == end && (stream + chunk)[..end] == stream[..end]
            && (stream + chunk)[end + 4..] == stream[end + 4..] + chunk
  {
    HeaderEndIsStable(stream, chunk, 0);
  }

  lemma ShakeAsIfAtOnce(c: Config, s: Socket, stream: seq<byte>, gaveUp: bool)
    requires s.handled == [] && s.recvBuffer == []
    ensures AsIfAtOnce(c, Shake(c, s, stream), stream, gaveUp)
  {
    var end := HeaderEnd(stream, 0);
    if end < |stream| && c.accepts(stream[..end]) {
      var rest := stream[end + 4..];
      assert Parse([]) == Parsed([], []) && [] + rest == rest;
      ReceiveAsIfAtOnce(c, s.(link := Open), [], rest);
    }
  }

  lemma DataAsIfAtOnce(c: Config, s: Socket, stream: seq<byte>, chunk: seq<byte>, gaveUp: bool)
    requires AsIfAtOnce(c, s, stream, gaveUp)
    ensures AsIfAtOnce(c, Next(c, s, Data(chunk)), stream + chunk, gaveUp)
  {
    if HasHeader(stream) { HeaderIsStable(stream, chunk); }
    match s.link
    case Shaking(buffer) => ShakeAsIfAtOnce(c, s, stream + chunk, gaveUp);
    case Open => ReceiveAsIfAtOnce(c, s, stream[HeaderEnd(stream, 0) + 4..], chunk);
    case Refused =>
  }

  /** Anything but data leaves parsing where it is. */
  lemma OthersDoNotParse(c: Config, s: Socket, e: Event)
    requires !e.Data?
    ensures var t := Next(c, s, e);
            && t.handled == s.handled && t.recvBuffer == s.recvBuffer
            && (t.link == s.link || (t.link == Refused && s.link.Shaking? && (e.GiveUp? || e.TcpError?)))
  {}

  /**
   However the bytes were cut into chunks, the handshake included, and whatever else happened in
   between: the frames handled and the bytes left over are those of parsing everything at once.
   */
  lemma {:induction false} ChunksDoNotMatter(c: Config, es: seq<Event>)
    ensures AsIfAtOnce(c, Run(c, es), Stream(es), GaveUp(es))
    decreases |es|
  {
    if es != [] {
      var front, e := es[..|es| - 1], es[|es| - 1];
      ChunksDoNotMatter(c, front);
      assert GaveUp(front) ==> GaveUp(es);
      if e.Data? {
        DataAsIfAtOnce(c, Run(c, front), Stream(front), e.chunk, GaveUp(es));
      } else {
        OthersDoNotParse(c, Run(c, front), e);
        assert Stream(es) == Stream(front) && e in es;
      }
    }
  }

  /** Two runs over the same bytes handle the same frames and hold the same leftover. */
  lemma SameBytesSameFrames(c: Config, es: seq<Event>, fs: seq<Event>)
    requires Stream(es) == Stream(fs) && !GaveUp(es) && !GaveUp(fs)
    ensures Run(c, es).link == Run(c, fs).link
    ensures Run(c, es).handled == Run(c, fs).handled && Run(c, es).recvBuffer == Run(c, fs).recvBuffer
  {
    ChunksDoNotMatter(c, es);
    ChunksDoNotMatter(c, fs);
  }

  // ---------------------------------------------------------------- what the consumer gets

  /** The payloads of the text and binary frames. */
  function Payloads(fs: seq<Frame>): seq<seq<byte>>
    decreases |fs|
  {
    if fs == [] then []
    else
      var f := fs[|fs| - 1];
      Payloads(fs[..|fs| - 1]) + (if f.opcode == 1 || f.opcode == 2 then [f.payload] else [])
  }

  /** The payloads the consumer's onMessage was called with. */
  function Delivered(ns: seq<Notice>): seq<seq<byte>>
    decreases |ns|
  {
    if ns == [] then []
    else Delivered(ns[..|ns| - 1]) + (if ns[|ns| - 1].Message? then [ns[|ns| - 1].data] else [])
  }

  function Closes(ns: seq<Notice>): nat
    decreases |ns|
  {
    if ns == [] then 0 else Closes(ns[..|ns| - 1]) + if ns[|ns| - 1].Closed? then 1 else 0
  }

  lemma {:induction false} NoticesAdd(a: seq<Notice>, b: seq<Notice>)
    ensures Delivered(a + b) == Delivered(a) + Delivered(b) && Closes(a + b) == Closes(a) + Closes(b)
    decreases |b|
  {
    if b == [] {
      assert a + b == a;
    } else {
      NoticesAdd(a, b[..|b| - 1]);
      assert (a + b)[..|a + b| - 1] == a + b[..|b| - 1];
    }
  }

  lemma {:induction false} MessagesDeliver(data: seq<seq<byte>>)
    ensures Delivered(Messages(data)) == data && Closes(Messages(data)) == 0
    decreases |data|
  {
    if data != [] {
      MessagesDeliver(data[..|data| - 1]);
      assert Messages(data)[..|data| - 1] == Messages(data[..|data| - 1]);
    }
  }

  /** Before on(): everything queued.  After: all but the first `lost` delivered, in order, if anyone takes them. */
  predicate InOrder(s: Socket, lost: nat)
  {
    && (!s.attached ==>
          s.pendingMessages == Payloads(s.handled) && s.notices == [] && !s.handlers.message && lost == 0)
    && (s.attached ==> s.pendingMessages == [])
    && (s.attached && !s.handlers.message ==> Delivered(s.notices) == [] && lost == 0)
    && (s.handlers.message ==>
          lost <= |Payloads(s.handled)| && Delivered(s.notices) == Payloads(s.handled)[lost..])
  }

  /** One close is reported at most, and none before the socket is closed; what waits is of its kind. */
  predicate ClosedOnce(s: Socket)
  {
    && Closes(s.notices) + (if s.pendingClose.Some? then 1 else 0) <= (if s.closed then 1 else 0)
    && (s.pendingClose.Some? ==> s.pendingClose.value.Closed?)
    && (s.pendingError.Some? ==> s.pendingError.value.Failed?)
  }

  lemma NoticeAdds(ns: seq<Notice>, n: Notice)
    ensures Delivered(ns + [n]) == Delivered(ns) + (if n.Message? then [n.data] else [])
    ensures Closes(ns + [n]) == Closes(ns) + (if n.Closed? then 1 else 0)
  {
    assert (ns + [n])[..|ns|] == ns;
  }

  lemma PayloadAdds(fs: seq<Frame>, f: Frame)
    ensures Payloads(fs + [f]) ==
            Payloads(fs) + (if f.opcode == BINARY || f.opcode == TEXT then [f.payload] else [])
  {
    assert (fs + [f])[..|fs|] == fs;
  }

  lemma CloseKeeps(s: Socket, code: nat, reason: seq<byte>, lost: nat)
    requires InOrder(s, lost) && ClosedOnce(s)
    ensures InOrder(HandleClose(s, code, reason), lost) && ClosedOnce(HandleClose(s, code, reason))
  {
    NoticeAdds(s.notices, Closed(code, reason));
  }

  lemma MessageKeeps(s: Socket, f: Frame, lost: nat)
    requires InOrder(s, lost) && ClosedOnce(s) && (f.opcode == BINARY || f.opcode == TEXT)
    ensures var t := EmitMessage(s.(handled := s.handled + [f]), f.payload); InOrder(t, lost) && ClosedOnce(t)
  {
    var before, after := Payloads(s.handled), Payloads(s.handled + [f]);
    PayloadAdds(s.handled, f);
    NoticeAdds(s.notices, Message(f.payload));
    if s.handlers.message { assert after[lost..] == before[lost..] + [f.payload]; }
  }

  lemma OtherKeeps(s: Socket, f: Frame, lost: nat)
    requires InOrder(s, lost) && ClosedOnce(s) && f.opcode != BINARY && f.opcode != TEXT
    ensures var t := s.(handled := s.handled + [f]); InOrder(t, lost) && ClosedOnce(t)
  {
    PayloadAdds(s.handled, f);
    assert Payloads(s.handled + [f]) == Payloads(s.handled);
  }

  lemma FrameKeeps(c: Config, s: Socket, f: Frame, lost: nat)
    requires InOrder(s, lost) && ClosedOnce(s)
    ensures InOrder(HandleFrame(c, s, f), lost) && ClosedOnce(HandleFrame(c, s, f))
  {
    if f.opcode == BINARY || f.opcode == TEXT {
      MessageKeeps(s, f, lost);
    } else {
      var t := s.(handled := s.handled + [f]);
      OtherKeeps(s, f, lost);
      CloseKeeps(t, CloseCode(f.payload), CloseReason(f.payload), lost);
      WriteKeeps(c, t, Frame(PONG, f.payload), lost);
    }
  }

  lemma {:induction false} FramesKeep(c: Config, s: Socket, fs: seq<Frame>, lost: nat)
    requires InOrder(s, lost) && ClosedOnce(s)
    ensures InOrder(HandleAll(c, s, fs), lost) && ClosedOnce(HandleAll(c, s, fs))
    decreases |fs|
  {
    if fs != [] {
      FrameKeeps(c, s, fs[0], lost);
      FramesKeep(c, HandleFrame(c, s, fs[0]), fs[1..], lost);
    }
  }

  /** A consumer that first attaches without onMessage loses whatever comes until it adds one. */
  function LostNow(s: Socket, e: Event, lost: nat): nat
  {
    if s.link.Open? && e.On? && s.attached && !s.handlers.message && e.handlers.message
    then |Payloads(s.handled)|
    else lost
  }

  lemma FlushMessagesKeeps(s: Socket, h: Handlers, lost: nat)
    requires InOrder(s, lost) && ClosedOnce(s) && s.link.Open?
    ensures var t := FlushMessages(s.(handlers := Merged(s.handlers, h), attached := true));
            InOrder(t, LostNow(s, On(h), lost)) && ClosedOnce(t)
  {
    MessagesDeliver(s.pendingMessages);
    NoticesAdd(s.notices, Messages(s.pendingMessages));
    assert s.notices + [] == s.notices && s.pendingMessages[0..] == s.pendingMessages;
    if s.attached { assert Messages(s.pendingMessages) == []; }
    else { assert s.notices + Messages(s.pendingMessages) == Messages(s.pendingMessages); }
  }

  lemma FlushCloseKeeps(s: Socket, lost: nat)
    requires InOrder(s, lost) && ClosedOnce(s) && s.attached
    ensures InOrder(FlushClose(s), lost) && ClosedOnce(FlushClose(s))
  {
    if s.pendingClose.Some? { NoticeAdds(s.notices, s.pendingClose.value); }
  }

  lemma FlushErrorKeeps(s: Socket, lost: nat)
    requires InOrder(s, lost) && ClosedOnce(s) && s.attached
    ensures InOrder(FlushError(s), lost) && ClosedOnce(FlushError(s))
  {
    if s.pendingError.Some? { NoticeAdds(s.notices, s.pendingError.value); }
  }

  lemma AttachKeeps(s: Socket, h: Handlers, lost: nat)
    requires InOrder(s, lost) && ClosedOnce(s) && s.link.Open?
    ensures InOrder(Attach(s, h), LostNow(s, On(h), lost)) && ClosedOnce(Attach(s, h))
  {
    var t := FlushMessages(s.(handlers := Merged(s.handlers, h), attached := true));
    var now := LostNow(s, On(h), lost);
    FlushMessagesKeeps(s, h, lost);
    FlushCloseKeeps(t, now);
    FlushErrorKeeps(FlushClose(t), now);
  }

  lemma ReceiveKeeps(c: Config, s: Socket, chunk: seq<byte>, lost: nat)
    requires InOrder(s, lost) && ClosedOnce(s)
    ensures InOrder(Receive(c, s, chunk), lost) && ClosedOnce(Receive(c, s, chunk))
  {
    var parsed := Parse(s.recvBuffer + chunk);
    FramesKeep(c, s.(recvBuffer := parsed.rest), parsed.frames, lost);
  }

  lemma ShakeKeeps(c: Config, s: Socket, buffer: seq<byte>, lost: nat)
    requires InOrder(s, lost) && ClosedOnce(s)
    ensures InOrder(Shake(c, s, buffer), lost) && ClosedOnce(Shake(c, s, buffer))
  {
    var end := HeaderEnd(buffer, 0);
    if end < |buffer| { ReceiveKeeps(c, s.(link := Open), buffer[end + 4..], lost); }
  }

  lemma ErrorKeeps(s: Socket, error: nat, lost: nat)
    requires InOrder(s, lost) && ClosedOnce(s)
    ensures InOrder(EmitError(s, error), lost) && ClosedOnce(EmitError(s, error))
  {
    NoticeAdds(s.notices, Failed(error));
  }

  lemma WriteKeeps(c: Config, s: Socket, f: Frame, lost: nat)
    requires InOrder(s, lost) && ClosedOnce(s)
    ensures InOrder(WriteFrame(c, s, f), lost) && ClosedOnce(WriteFrame(c, s, f))
  {}

  lemma OpenKeeps(c: Config, s: Socket, e: Event, lost: nat)
    requires InOrder(s, lost) && ClosedOnce(s) && s.link.Open?
    ensures InOrder(NextOpen(c, s, e), LostNow(s, e, lost)) && ClosedOnce(NextOpen(c, s, e))
  {
    match e
    case Data(chunk) => ReceiveKeeps(c, s, chunk, lost);
    case On(handlers) => AttachKeeps(s, handlers, lost);
    case TcpClosed => CloseKeeps(s, 1006, TCP_CLOSED, lost);
    case Close(code, reason) =>
      if !s.closed && code <= 0xffff {
        WriteKeeps(c, s, Closing(code, reason), lost);
        CloseKeeps(WriteFrame(c, s, Closing(code, reason)), code, reason, lost);
      }
    case TcpError(error) => ErrorKeeps(s, error, lost);
    case Send(data) => WriteKeeps(c, s, Frame(BINARY, data), lost);
    case GiveUp =>
  }

  lemma NextKeeps(c: Config, s: Socket, e: Event, lost: nat)
    requires InOrder(s, lost) && ClosedOnce(s)
    ensures InOrder(Next(c, s, e), LostNow(s, e, lost)) && ClosedOnce(Next(c, s, e))
  {
    match s.link
    case Shaking(buffer) => if e.Data? { ShakeKeeps(c, s, buffer + e.chunk, lost); }
    case Open => OpenKeeps(c, s, e, lost);
    case Refused =>
  }

  function Lost(c: Config, es: seq<Event>): nat
    decreases |es|
  {
    if es == [] then 0 else LostNow(Run(c, es[..|es| - 1]), es[|es| - 1], Lost(c, es[..|es| - 1]))
  }

  lemma {:induction false} RunKeeps(c: Config, es: seq<Event>)
    ensures InOrder(Run(c, es), Lost(c, es)) && ClosedOnce(Run(c, es))
    decreases |es|
  {
    if es != [] {
      RunKeeps(c, es[..|es| - 1]);
      NextKeeps(c, Run(c, es[..|es| - 1]), es[|es| - 1], Lost(c, es[..|es| - 1]));
    }
  }

  /**
   Once there is an onMessage, it has been called with the payloads of all data frames handled, in
   order, but the first Lost(es): all of them, whether on() came before or after parsing, unless the
   consumer first attached without one.
   */
  lemma PayloadsArriveInOrder(c: Config, es: seq<Event>)
    requires Run(c, es).handlers.message
    ensures Lost(c, es) <= |Payloads(Run(c, es).handled)|
    ensures Delivered(Run(c, es).notices) == Payloads(Run(c, es).handled)[Lost(c, es)..]
  {
    RunKeeps(c, es);
  }

  /** The consumer attaches with an onMessage from the start. */
  ghost predicate ListensFromTheStart(c: Config, es: seq<Event>)
  {
    forall i | 0 <= i < |es| && es[i].On? ::
      es[i].handlers.message || Run(c, es[..i]).handlers.message || !Run(c, es[..i]).link.Open?
  }

  lemma ReceiveKeepsHandlers(c: Config, s: Socket, chunk: seq<byte>)
    ensures Receive(c, s, chunk).attached == s.attached && Receive(c, s, chunk).handlers == s.handlers
  {
    var parsed := Parse(s.recvBuffer + chunk);
    HandleAllHandles(c, s.(recvBuffer := parsed.rest), parsed.frames);
  }

  lemma AttachedStays(c: Config, s: Socket, e: Event)
    requires !e.On? || !s.link.Open?
    ensures Next(c, s, e).attached == s.attached && Next(c, s, e).handlers == s.handlers
  {
    if e.Data? {
      match s.link
      case Open => ReceiveKeepsHandlers(c, s, e.chunk);
      case Refused =>
      case Shaking(buffer) =>
        var end := HeaderEnd(buffer + e.chunk, 0);
        if end < |buffer + e.chunk| { ReceiveKeepsHandlers(c, s.(link := Open), (buffer + e.chunk)[end + 4..]); }
    }
  }

  lemma {:induction false} NothingLost(c: Config, es: seq<Event>)
    requires ListensFromTheStart(c, es)
    ensures Lost(c, es) == 0 && (Run(c, es).attached ==> Run(c, es).handlers.message)
    decreases |es|
  {
    if es != [] {
      var front := es[..|es| - 1];
      forall i | 0 <= i < |front| && front[i].On?
        ensures front[i].handlers.message || Run(c, front[..i]).handlers.message || !Run(c, front[..i]).link.Open?
      {
        assert front[..i] == es[..i] && es[i].On?;
      }
      NothingLost(c, front);
      var s, e := Run(c, front), es[|es| - 1];
      if !e.On? || !s.link.Open? { AttachedStays(c, s, e); } else { assert es[|es| - 1].On?; }
    }
  }

  /** A consumer that attaches with an onMessage gets every payload, however late it attaches. */
  lemma EveryPayloadArrives(c: Config, es: seq<Event>)
    requires ListensFromTheStart(c, es) && Run(c, es).attached
    ensures Delivered(Run(c, es).notices) == Payloads(Run(c, es).handled)
  {
    NothingLost(c, es);
    PayloadsArriveInOrder(c, es);
  }

  /** However often the close frame, close() and the TCP close coincide, the consumer hears of one. */
  lemma CloseIsReportedOnce(c: Config, es: seq<Event>)
    ensures Closes(Run(c, es).notices) <= 1 && (!Run(c, es).closed ==> Closes(Run(c, es).notices) == 0)
  {
    RunKeeps(c, es);
  }

  // ---------------------------------------------------------------- what goes out

  /** A peer that parses what was written reads exactly the frames sent. */
  predicate WireOk(s: Socket) { Parse(s.wire) == Parsed(s.sent, []) }

  /** From s to t: the wire stays readable, and nothing is written once closed. */
  predicate Writes(s: Socket, t: Socket)
  {
    && (WireOk(s) ==> WireOk(t)) && (s.closed ==> t.closed && t.wire == s.wire && t.sent == s.sent) && s.sent <= t.sent
  }

  lemma WriteKeepsWire(c: Config, s: Socket, f: Frame)
    requires f.opcode < 16
    ensures Writes(s, WriteFrame(c, s, f))
  {
    if WireOk(s) && |f.payload| < MOST { StreamRoundTrip(s.wire, f, c.rand(|s.sent|)); }
  }

  lemma FrameKeepsWire(c: Config, s: Socket, f: Frame)
    ensures Writes(s, HandleFrame(c, s, f))
  {
    var t := s.(handled := s.handled + [f]);
    if f.opcode == PING { WriteKeepsWire(c, t, Frame(PONG, f.payload)); }
    if f.opcode == CLOSE { CloseKeepsWire(t, CloseCode(f.payload), CloseReason(f.payload)); }
  }

  lemma {:induction false} FramesKeepWire(c: Config, s: Socket, fs: seq<Frame>)
    ensures Writes(s, HandleAll(c, s, fs))
    decreases |fs|
  {
    if fs != [] {
      FrameKeepsWire(c, s, fs[0]);
      FramesKeepWire(c, HandleFrame(c, s, fs[0]), fs[1..]);
    }
  }

  lemma ReceiveKeepsWire(c: Config, s: Socket, chunk: seq<byte>)
    ensures Writes(s, Receive(c, s, chunk))
  {
    var parsed := Parse(s.recvBuffer + chunk);
    FramesKeepWire(c, s.(recvBuffer := parsed.rest), parsed.frames);
  }

  /** Nothing is written. */
  predicate WritesNothing(s: Socket, t: Socket) { t.wire == s.wire && t.sent == s.sent && (s.closed ==> t.closed) }

  lemma NothingIsFine(s: Socket, t: Socket)
    requires WritesNothing(s, t)
    ensures Writes(s, t)
  {}

  lemma CloseKeepsWire(s: Socket, code: nat, reason: seq<byte>)
    ensures WritesNothing(s, HandleClose(s, code, reason)) && HandleClose(s, code, reason).closed
  {}

  lemma AttachKeepsWire(s: Socket, h: Handlers)
    ensures WritesNothing(s, Attach(s, h))
  {}

  lemma ErrorKeepsWire(s: Socket, error: nat)
    ensures WritesNothing(s, EmitError(s, error))
  {}

  lemma OpenKeepsWire(c: Config, s: Socket, e: Event)
    ensures Writes(s, NextOpen(c, s, e))
  {
    match e
    case Data(chunk) => ReceiveKeepsWire(c, s, chunk);
    case Send(data) => WriteKeepsWire(c, s, Frame(BINARY, data));
    case Close(code, reason) => ClosingKeepsWire(c, s, code, reason);
    case _ => QuietEventsWriteNothing(c, s, e);
  }

  lemma QuietEventsWriteNothing(c: Config, s: Socket, e: Event)
    requires e.TcpClosed? || e.TcpError? || e.GiveUp? || e.On?
    ensures Writes(s, NextOpen(c, s, e))
  {
    match e {
      case TcpClosed => CloseKeepsWire(s, 1006, TCP_CLOSED);
      case TcpError(error) => ErrorKeepsWire(s, error);
      case On(handlers) => AttachKeepsWire(s, handlers);
      case _ =>
    }
    NothingIsFine(s, NextOpen(c, s, e));
  }

  lemma ClosingKeepsWire(c: Config, s: Socket, code: nat, reason: seq<byte>)
    ensures Writes(s, HandleClose(WriteFrame(c, s, Closing(code, reason)), code, reason))
  {
    var t := WriteFrame(c, s, Closing(code, reason));
    WriteKeepsWire(c, s, Closing(code, reason));
    CloseKeepsWire(t, code, reason);
    NothingIsFine(t, HandleClose(t, code, reason));
  }

  lemma NextKeepsWire(c: Config, s: Socket, e: Event)
    ensures Writes(s, Next(c, s, e))
  {
    match s.link
    case Refused =>
    case Shaking(buffer) =>
      if e.Data? {
        var end := HeaderEnd(buffer + e.chunk, 0);
        if end < |buffer + e.chunk| { ReceiveKeepsWire(c, s.(link := Open), (buffer + e.chunk)[end + 4..]); }
      }
    case Open => OpenKeepsWire(c, s, e);
  }

  /** What any run has written is, to a peer that parses as we do, exactly the frames sent. */
  lemma {:induction false} WireIsReadable(c: Config, es: seq<Event>)
    ensures WireOk(Run(c, es))
    decreases |es|
  {
    if es != [] {
      WireIsReadable(c, es[..|es| - 1]);
      NextKeepsWire(c, Run(c, es[..|es| - 1]), es[|es| - 1]);
    }
  }

  /** Whatever happens later, frames sent are not taken back, and a closed socket writes nothing. */
  lemma {:induction false} NothingAfterClose(c: Config, es: seq<Event>, more: seq<Event>)
    ensures Writes(Run(c, es), Run(c, es + more))
    decreases |more|
  {
    if more == [] {
      assert es + more == es;
    } else {
      NothingAfterClose(c, es, more[..|more| - 1]);
      assert (es + more)[..|es + more| - 1] == es + more[..|more| - 1];
      NextKeepsWire(c, Run(c, es + more[..|more| - 1]), more[|more| - 1]);
    }
  }

  /** A peer that handles the frame close(code, reason) writes is told that code and that reason. */
  lemma CloseFrameTells(code: nat, reason: seq<byte>)
    requires code <= 0xffff
    ensures CloseCode(Closing(code, reason).payload) == code && CloseReason(Closing(code, reason).payload) == reason
  {
    var payload := Closing(code, reason).payload;
    assert Pow256(2) == 65536;
    NumberRoundTrip(code, 2);
    assert payload[..2] == WriteBE(code, 2) && payload[2..] == reason;
  }
}
