/**
 RawWsSocket as an object, its parse loop and its masking loops proved to do what modules Frames and
 RawSocket say (apps/server/bench/raw-ws-socket.ts:33-278).
 */
module RawWsClient {
  import opened Common
  import opened Frames
  import opened RawSocket

  /** What processBuffer() makes of a socket: every complete frame handled, the rest kept. */
  ghost function Drained(c: Config, s: Socket): Socket
  {
    HandleAll(c, s.(recvBuffer := Parse(s.recvBuffer).rest), Parse(s.recvBuffer).frames)
  }

  lemma HandlingKeepsBuffer(c: Config, s: Socket, f: Frame, b: seq<byte>)
    ensures HandleFrame(c, s.(recvBuffer := b), f) == HandleFrame(c, s, f).(recvBuffer := b)
  {}

  /** Handling the first frame and then draining is draining. */
  lemma DrainStep(c: Config, s: Socket)
    requires FirstFrame(s.recvBuffer).Ready?
    ensures var head := FirstFrame(s.recvBuffer);
            Drained(c, s) == Drained(c, HandleFrame(c, s.(recvBuffer := s.recvBuffer[head.size..]), head.frame))
  {
    var head := FirstFrame(s.recvBuffer);
    var after := Parse(s.recvBuffer[head.size..]);
    assert Parse(s.recvBuffer) == Parsed([head.frame] + after.frames, after.rest);
    assert ([head.frame] + after.frames)[1..] == after.frames;
    HandlingKeepsBuffer(c, s, head.frame, after.rest);
    HandlingKeepsBuffer(c, s, head.frame, s.recvBuffer[head.size..]);
  }

  /** XOR with the key, byte by byte into a fresh buffer. */
  method Xor(payload: seq<byte>, key: seq<byte>) returns (out: seq<byte>)
    requires |key| == 4
    ensures out == Masked(payload, key)
  {
    var buffer := new byte[|payload|];
    var i := 0;
    while i < |payload|
      invariant 0 <= i <= |payload|
      invariant forall j | 0 <= j < i :: buffer[j] == payload[j] ^ key[j % 4]
    {
      buffer[i] := payload[i] ^ key[i % 4];
      i := i + 1;
    }
    out := buffer[..];
  }

  class RawWsSocket {
    ghost const config: Config
    const accepts: seq<byte> -> bool
    const randomBytes: nat -> Key
    var link: Link               // the connect() closure's handshakeBuffer, then how it ended
    var recvBuffer: seq<byte>
    var closed: bool
    var attached: bool
    var handlers: Handlers
    var pendingMessages: seq<seq<byte>>
    var pendingClose: Option<Notice>
    var pendingError: Option<Notice>
    var notices: seq<Notice>     // the consumer's handlers, as they were called
    var wire: seq<byte>          // what the TCP socket was given
    var writes: nat              // how often randomBytes was asked
    ghost var handled: seq<Frame>
    ghost var sent: seq<Frame>

    ghost predicate Valid()
      reads this
    {
      config == Config(accepts, randomBytes) && writes == |sent|
    }

    ghost function State(): Socket
      reads this
    {
      Socket(link, recvBuffer, closed, attached, handlers, pendingMessages, pendingClose, pendingError,
             notices, wire, handled, sent)
    }

    constructor (accepts: seq<byte> -> bool, randomBytes: nat -> Key)
      ensures Valid() && this.accepts == accepts && this.randomBytes == randomBytes && State() == Start()
    {
      this.accepts, this.randomBytes, config := accepts, randomBytes, Config(accepts, randomBytes);
      link, recvBuffer, closed, attached := Shaking([]), [], false, false;
      handlers, pendingMessages, pendingClose, pendingError := Handlers(false, false, false), [], None, None;
      notices, wire, writes, handled, sent := [], [], 0, [], [];
    }

    /** A chunk before the handshake is done. */
    method OnHandshakeData(chunk: seq<byte>)
      requires Valid() && link.Shaking?
      modifies this
      ensures Valid() && State() == Next(config, old(State()), Data(chunk))
    {
      var handshakeBuffer := link.buffer + chunk;
      var headerEnd := HeaderEnd(handshakeBuffer, 0);
      if headerEnd == |handshakeBuffer| {
        link := Shaking(handshakeBuffer);
      } else if !accepts(handshakeBuffer[..headerEnd]) {
        link := Refused;
      } else {
        link := Open;
        recvBuffer := recvBuffer + handshakeBuffer[headerEnd + 4..];
        ProcessBuffer();
      }
    }

    method OnData(chunk: seq<byte>)
      requires Valid() && link.Open?
      modifies this
      ensures Valid() && State() == Next(config, old(State()), Data(chunk))
    {
      recvBuffer := recvBuffer + chunk;
      ProcessBuffer();
    }

    /** Parses as many complete frames as are buffered. */
    method ProcessBuffer()
      requires Valid()
      modifies this
      ensures Valid() && State() == Drained(config, old(State()))
      ensures exists parts, fs :: Cut(old(recvBuffer), parts, fs, recvBuffer) && handled == old(handled) + fs
    {
      HandleAllHandles(config, State().(recvBuffer := Parse(recvBuffer).rest), Parse(recvBuffer).frames);
      ParseCuts(recvBuffer);
      while true
        invariant Valid() && Drained(config, State()) == Drained(config, old(State()))
        decreases |recvBuffer|
      {
        ghost var before := State();
        var head := TakeFrame();
        if head.Wait? {
          return;
        }
        DrainStep(config, before);
        HandleFrame(head.frame);
        HandlingKeepsBuffer(config, before, head.frame, before.recvBuffer[head.size..]);
      }
    }

    /** The header bytes, if they are all there. */
    method TakeHeader() returns (h: Header)
      ensures h == ReadHeader(recvBuffer)
    {
      if |recvBuffer| < 2 { return Partial; }
      var byte0, byte1 := recvBuffer[0], recvBuffer[1];
      var masked := byte1 & 0x80 != 0;
      var payloadLen := (byte1 & 0x7f) as int;
      var offset := 2;
      if payloadLen == 126 {
        if |recvBuffer| < offset + 2 { return Partial; }
        payloadLen := ReadBE(recvBuffer[offset..offset + 2]);
        offset := offset + 2;
      } else if payloadLen == 127 {
        if |recvBuffer| < offset + 8 { return Partial; }
        payloadLen := ReadBE(recvBuffer[offset..offset + 8]);
        offset := offset + 8;
      }
      var maskKey: seq<byte> := [];
      if masked {
        if |recvBuffer| < offset + 4 { return Partial; }
        maskKey := recvBuffer[offset..offset + 4];
        offset := offset + 4;
      }
      return Header(byte0 & 0x0f, maskKey, offset, payloadLen);
    }

    /** One turn of the loop up to handleFrame: the first frame leaves the buffer if all of it is there. */
    method TakeFrame() returns (head: Head)
      requires Valid()
      modifies this`recvBuffer
      ensures head == FirstFrame(old(recvBuffer))
      ensures forall f, size: nat :: head == Ready(f, size) <==> size <= |old(recvBuffer)| && Carries(old(recvBuffer)[..size], f)
      ensures recvBuffer == if head.Ready? then old(recvBuffer)[head.size..] else old(recvBuffer)
    {
      forall f, size: nat
        ensures FirstFrame(recvBuffer) == Ready(f, size) <==> size <= |recvBuffer| && Carries(recvBuffer[..size], f)
      {
        FirstFrameExactly(recvBuffer, f, size);
      }
      var h := TakeHeader();
      if h.Partial? || |recvBuffer| < h.offset + h.length { return Wait; }
      var payload := recvBuffer[h.offset..h.offset + h.length];
      if h.key != [] {
        payload := Xor(payload, h.key);
      }
      recvBuffer := recvBuffer[h.offset + h.length..];
      return Ready(Frame(h.opcode, payload), h.offset + h.length);
    }

    method HandleFrame(f: Frame)
      requires Valid()
      modifies this
      ensures Valid() && State() == RawSocket.HandleFrame(config, old(State()), f)
    {
      handled := handled + [f];
      if f.opcode == BINARY || f.opcode == TEXT {
        EmitMessage(f.payload);
      } else if f.opcode == CLOSE {
        var code := if |f.payload| >= 2 then ReadBE(f.payload[..2]) else 1005;
        var reason := if |f.payload| > 2 then f.payload[2..] else [];
        HandleClose(code, reason);
      } else if f.opcode == PING {
        WriteFrame(PONG, f.payload);
      }
    }

    method EmitMessage(data: seq<byte>)
      modifies this`notices, this`pendingMessages
      ensures State() == RawSocket.EmitMessage(old(State()), data)
    {
      if attached {
        if handlers.message { notices := notices + [Message(data)]; }
      } else {
        pendingMessages := pendingMessages + [data];
      }
    }

    method EmitClose(code: nat, reason: seq<byte>)
      modifies this`notices, this`pendingClose
      ensures State() == RawSocket.EmitClose(old(State()), code, reason)
    {
      if attached {
        if handlers.close { notices := notices + [Closed(code, reason)]; }
      } else {
        pendingClose := Some(Closed(code, reason));
      }
    }

    method OnTcpError(error: nat)
      requires Valid() && link.Open?
      modifies this`notices, this`pendingError
      ensures Valid() && State() == Next(config, old(State()), TcpError(error))
    {
      if attached {
        if handlers.error { notices := notices + [Failed(error)]; }
      } else {
        pendingError := Some(Failed(error));
      }
    }

    method HandleClose(code: nat, reason: seq<byte>)
      requires Valid()
      modifies this`closed, this`notices, this`pendingClose
      ensures Valid() && State() == RawSocket.HandleClose(old(State()), code, reason)
    {
      if closed { return; }
      closed := true;
      EmitClose(code, reason);
    }

    method OnTcpClosed()
      requires Valid() && link.Open?
      modifies this
      ensures Valid() && State() == Next(config, old(State()), TcpClosed)
    {
      HandleClose(1006, TCP_CLOSED);
    }

    /** The queued messages, one after the other. */
    method FlushQueued()
      modifies this`pendingMessages, this`notices
      ensures State() == FlushMessages(old(State()))
    {
      var queued := pendingMessages;
      pendingMessages := [];
      ghost var before := notices;
      var i := 0;
      while i < |queued|
        invariant 0 <= i <= |queued|
        invariant notices == before + (if handlers.message then Messages(queued[..i]) else [])
        modifies this`notices
      {
        if handlers.message {
          notices := notices + [Message(queued[i])];
          assert Messages(queued[..i + 1]) == Messages(queued[..i]) + [Message(queued[i])];
        }
        i := i + 1;
      }
      assert queued[..|queued|] == queued;
    }

    /** The close and the error that came before anyone listened. */
    method FlushPending()
      modifies this`pendingClose, this`pendingError, this`notices
      ensures State() == FlushError(FlushClose(old(State())))
    {
      if pendingClose.Some? {
        if handlers.close { notices := notices + [pendingClose.value]; }
        pendingClose := None;
      }
      assert State() == FlushClose(old(State()));
      if pendingError.Some? {
        if handlers.error { notices := notices + [pendingError.value]; }
        pendingError := None;
      }
    }

    method On(added: Handlers)
      requires Valid() && link.Open?
      modifies this
      ensures Valid() && State() == Next(config, old(State()), Event.On(added))
    {
      handlers := Merged(handlers, added);
      attached := true;
      FlushQueued();
      FlushPending();
    }

    /** Clients mask what they write; the three length encodings as in section 5.2 of RFC 6455. */
    method WriteFrame(opcode: byte, payload: seq<byte>)
      requires Valid()
      modifies this`wire, this`writes, this`sent
      ensures Valid() && State() == RawSocket.WriteFrame(config, old(State()), Frame(opcode, payload))
    {
      var len := |payload|;
      if closed || len >= MOST { return; }
      var maskKey := randomBytes(writes);
      LeadForms(opcode, len);
      var header;
      if len < 126 {
        header := [0x80 | opcode, 0x80 | (len as byte)];
      } else if len < 65536 {
        header := [0x80 | opcode, 0x80 | 126] + WriteBE(len, 2);
      } else {
        header := [0x80 | opcode, 0x80 | 127] + WriteBE(len, 8);
      }
      assert header == Lead(opcode, len);
      var masked := Xor(payload, maskKey);
      wire := wire + (header + maskKey + masked);
      writes := writes + 1;
      sent := sent + [Frame(opcode, payload)];
    }

    method Send(data: seq<byte>)
      requires Valid() && link.Open?
      modifies this`wire, this`writes, this`sent
      ensures Valid() && State() == Next(config, old(State()), Event.Send(data))
    {
      WriteFrame(BINARY, data);
    }

    /** A code that does not fit in two bytes throws before anything is written. */
    method Close(code: nat, reason: seq<byte>) returns (thrown: bool)
      requires Valid() && link.Open?
      modifies this
      ensures Valid() && State() == Next(config, old(State()), Event.Close(code, reason))
      ensures thrown <==> !old(closed) && code > 0xffff
    {
      if closed { return false; }
      if code > 0xffff { return true; }
      WriteFrame(CLOSE, WriteBE(code, 2) + reason);
      HandleClose(code, reason);
      return false;
    }
  }
}
