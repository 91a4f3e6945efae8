/**
 WebSocket frames as the raw client reads and writes them: apps/server/bench/raw-ws-socket.ts:170-264
 (sections 5.2 and 5.3 of RFC 6455).
 */
module Frames {
  import opened Common

  type byte = bv8

  datatype Frame = Frame(opcode: byte, payload: seq<byte>)

  // ---------------------------------------------------------------- big-endian numbers

  function ReadBE(s: seq<byte>): nat { if s == [] then 0 else ReadBE(s[..|s| - 1]) * 256 + s[|s| - 1] as int }

  function WriteBE(n: nat, width: nat): (s: seq<byte>)
    ensures |s| == width
  {
    if width == 0 then [] else WriteBE(n / 256, width - 1) + [(n % 256) as byte]
  }

  function Pow256(k: nat): nat { if k == 0 then 1 else 256 * Pow256(k - 1) }

  lemma ByteKept(n: nat)
    requires n < 256
    ensures (n as byte) as int == n
  {
    assert n < 32 || 32 <= n < 64 || 64 <= n < 96 || 96 <= n < 128 || 128 <= n < 160 || 160 <= n < 192
           || 192 <= n < 224 || 224 <= n;
  }

  lemma {:induction false} NumberRoundTrip(n: nat, width: nat)
    requires n < Pow256(width)
    ensures ReadBE(WriteBE(n, width)) == n
  {
    if width > 0 {
      NumberRoundTrip(n / 256, width - 1);
      ByteKept(n % 256);
      assert WriteBE(n, width)[..width - 1] == WriteBE(n / 256, width - 1);
    }
  }

  // ---------------------------------------------------------------- masking

  function Masked(payload: seq<byte>, key: seq<byte>): seq<byte>
    requires |key| == 4
  {
    seq(|payload|, i requires 0 <= i < |payload| => payload[i] ^ key[i % 4])
  }

  lemma MaskingIsAnInvolution(payload: seq<byte>, key: seq<byte>)
    requires |key| == 4
    ensures Masked(Masked(payload, key), key) == payload
  {
    forall i | 0 <= i < |payload| ensures (payload[i] ^ key[i % 4]) ^ key[i % 4] == payload[i] {}
  }

  // ---------------------------------------------------------------- reading

  datatype Head = Wait | Ready(frame: Frame, size: nat)

  /** How many bytes of extended length follow the second byte. */
  function Extended(byte1: byte): nat { if byte1 & 0x7f == 126 then 2 else if byte1 & 0x7f == 127 then 8 else 0 }

  function KeyBytes(byte1: byte): nat { if byte1 & 0x80 != 0 then 4 else 0 }

  function PayloadLength(b: seq<byte>): nat
    requires |b| >= 2 && |b| >= 2 + Extended(b[1])
  {
    if Extended(b[1]) == 0 then (b[1] & 0x7f) as int else ReadBE(b[2..2 + Extended(b[1])])
  }

  datatype Header = Partial | Header(opcode: byte, key: seq<byte>, offset: nat, length: nat)

  /** The bytes before the payload; the key is empty when the payload is not masked. */
  function ReadHeader(b: seq<byte>): (h: Header)
    ensures h.Header? ==> h.offset <= |b| && h.offset >= 2 && (|h.key| == 4 || h.key == [])
  {
    if |b| < 2 || |b| < 2 + Extended(b[1]) then Partial
    else
      var offset := 2 + Extended(b[1]);
      var k := KeyBytes(b[1]);
      if |b| < offset + k then Partial
      else Header(b[0] & 0x0f, b[offset..offset + k], offset + k, PayloadLength(b))
  }

  /** The frame the buffer begins with, once all of it has arrived. */
  function FirstFrame(b: seq<byte>): (r: Head)
    ensures r.Ready? ==> 0 < r.size <= |b|
  {
    var h := ReadHeader(b);
    if h.Partial? || |b| < h.offset + h.length then Wait
    else Ready(Frame(h.opcode, Unmasked(b[h.offset..h.offset + h.length], h.key)), h.offset + h.length)
  }

  function Unmasked(payload: seq<byte>, key: seq<byte>): seq<byte>
    requires |key| == 4 || key == []
  {
    if key == [] then payload else Masked(payload, key)
  }

  datatype Parsed = Parsed(frames: seq<Frame>, rest: seq<byte>)

  /** Every complete frame of the buffer, and what is left over. */
  function Parse(b: seq<byte>): Parsed
    decreases |b|
  {
    match FirstFrame(b)
    case Wait => Parsed([], b)
    case Ready(frame, size) =>
      var after := Parse(b[size..]);
      Parsed([frame] + after.frames, after.rest)
  }

  lemma SliceIsStable(b: seq<byte>, more: seq<byte>, i: nat, j: nat)
    requires i <= j <= |b|
    ensures (b + more)[i..j] == b[i..j]
  {}

  lemma HeaderIsStable(b: seq<byte>, more: seq<byte>)
    requires ReadHeader(b).Header?
    ensures ReadHeader(b + more) == ReadHeader(b)
  {
    var offset := 2 + Extended(b[1]);
    SliceIsStable(b, more, 2, offset);
    SliceIsStable(b, more, offset, offset + KeyBytes(b[1]));
  }

  /** More bytes never change a frame that is complete. */
  lemma FirstFrameIsStable(b: seq<byte>, more: seq<byte>)
    requires FirstFrame(b).Ready?
    ensures FirstFrame(b + more) == FirstFrame(b)
  {
    HeaderIsStable(b, more);
    var h := ReadHeader(b);
    SliceIsStable(b, more, h.offset, h.offset + h.length);
  }

  lemma ParseReady(b: seq<byte>, frame: Frame, size: nat)
    requires FirstFrame(b) == Ready(frame, size)
    ensures Parse(b) == Parsed([frame] + Parse(b[size..]).frames, Parse(b[size..]).rest)
  {}

  lemma ParseReadyAndMore(b: seq<byte>, more: seq<byte>, frame: Frame, size: nat)
    requires FirstFrame(b) == Ready(frame, size)
    ensures Parse(b + more) == Parsed([frame] + Parse(b[size..] + more).frames, Parse(b[size..] + more).rest)
  {
    FirstFrameIsStable(b, more);
    ParseReady(b + more, frame, size);
    assert (b + more)[size..] == b[size..] + more;
  }

  /** Parsing what has come so far and then the rest is parsing it all at once. */
  lemma {:induction false} ParseInParts(b: seq<byte>, more: seq<byte>)
    ensures var early := Parse(b);
            var late := Parse(early.rest + more);
            Parse(b + more) == Parsed(early.frames + late.frames, late.rest)
    decreases |b|
  {
    match FirstFrame(b)
    case Wait =>
      assert [] + Parse(b + more).frames == Parse(b + more).frames;
    case Ready(frame, size) =>
      ParseReady(b, frame, size);
      ParseReadyAndMore(b, more, frame, size);
      ParseInParts(b[size..], more);
      Associates([frame], Parse(b[size..]).frames, Parse(Parse(b[size..]).rest + more).frames);
  }

  /** What is left over holds no complete frame. */
  lemma {:induction false} RestWaits(b: seq<byte>)
    ensures FirstFrame(Parse(b).rest).Wait?
    decreases |b|
  {
    if FirstFrame(b).Ready? { RestWaits(b[FirstFrame(b).size..]); }
  }

  // ---------------------------------------------------------------- the wire format

  /** These bytes announce a payload of n bytes, big-endian where there is more than one of them. */
  ghost predicate Announces(l: seq<byte>, n: nat)
  {
    || (|l| == 1 && n < 126 && n == l[0] as int)
    || (|l| == 3 && l[0] == 126 && n == l[1] as int * 256 + l[2] as int)
    || (|l| == 9 && l[0] == 127
        && n == ((((((l[1] as int * 256 + l[2] as int) * 256 + l[3] as int) * 256 + l[4] as int) * 256
                  + l[5] as int) * 256 + l[6] as int) * 256 + l[7] as int) * 256 + l[8] as int)
  }

  /** A byte sequence that is one frame: masked with four key bytes, the length marked so, or not masked. */
  ghost predicate OnWire(bytes: seq<byte>, f: Frame, byte0: byte, l: seq<byte>, key: seq<byte>, body: seq<byte>)
  {
    && Announces(l, |body|) && byte0 & 0x0f == f.opcode && |f.payload| == |body|
    && (|key| == 4 || key == [])
    && bytes == [byte0, if key == [] then l[0] else 0x80 | l[0]] + l[1..] + key + body
    && forall i | 0 <= i < |body| :: f.payload[i] == if key == [] then body[i] else body[i] ^ key[i % 4]
  }

  ghost predicate Carries(bytes: seq<byte>, f: Frame) { exists byte0, l, key, body :: OnWire(bytes, f, byte0, l, key, body) }

  lemma ReadTwo(s: seq<byte>)
    requires |s| == 2
    ensures ReadBE(s) == s[0] as int * 256 + s[1] as int
  {
    ReadOneMore(s, 0);
    ReadOneMore(s, 1);
    assert s[..2] == s;
  }

  lemma ReadEight(s: seq<byte>)
    requires |s| == 8
    ensures ReadBE(s) == ((((((s[0] as int * 256 + s[1] as int) * 256 + s[2] as int) * 256 + s[3] as int) * 256
                  + s[4] as int) * 256 + s[5] as int) * 256 + s[6] as int) * 256 + s[7] as int
  {
    ReadTwo(s[..2]);
    ReadOneMore(s, 2);
    ReadOneMore(s, 3);
    ReadOneMore(s, 4);
    ReadOneMore(s, 5);
    ReadOneMore(s, 6);
    ReadOneMore(s, 7);
    assert s[..8] == s;
  }

  lemma ReadOneMore(s: seq<byte>, k: nat)
    requires k < |s|
    ensures ReadBE(s[..k + 1]) == ReadBE(s[..k]) * 256 + s[k] as int
  {
    assert s[..k + 1][..k] == s[..k];
  }

  /** The marks of the second byte. */
  lemma LengthMark(l: byte)
    requires l < 128
    ensures l & 0x7f == l && (0x80 | l) & 0x7f == l && l & 0x80 == 0 && (0x80 | l) & 0x80 != 0
  {}

  lemma UnmarkedLength(byte1: byte)
    ensures byte1 & 0x7f < 128
    ensures byte1 == if byte1 & 0x80 == 0 then byte1 & 0x7f else 0x80 | (byte1 & 0x7f)
  {}

  /** The length that the header reading finds is the announced one. */
  lemma LengthIsAnnounced(b: seq<byte>, l: seq<byte>, n: nat)
    requires |b| >= 1 + |l| && |l| >= 1 && b[1] & 0x7f == l[0] && b[2..1 + |l|] == l[1..]
    ensures Announces(l, n) <==> |l| == 1 + Extended(b[1]) && PayloadLength(b) == n
  {
    if |l| == 3 { ReadTwo(l[1..]); }
    if |l| == 9 { ReadEight(l[1..]); }
  }

  lemma HeaderIs(b: seq<byte>, l: seq<byte>, key: seq<byte>, n: nat)
    requires Announces(l, n) && (|key| == 4 || key == []) && |b| >= 1 + |l| + |key|
    requires b[1] & 0x7f == l[0] && (b[1] & 0x80 == 0 <==> key == [])
    requires b[2..1 + |l|] == l[1..] && b[1 + |l|..1 + |l| + |key|] == key
    ensures ReadHeader(b) == Header(b[0] & 0x0f, key, 1 + |l| + |key|, n)
  {
    LengthIsAnnounced(b, l, n);
  }

  lemma HeaderOnWire(byte0: byte, l: seq<byte>, key: seq<byte>, n: nat, rest: seq<byte>)
    requires Announces(l, n) && (|key| == 4 || key == [])
    ensures ReadHeader([byte0, if key == [] then l[0] else 0x80 | l[0]] + l[1..] + key + rest)
         == Header(byte0 & 0x0f, key, 1 + |l| + |key|, n)
  {
    var lead := [byte0, if key == [] then l[0] else 0x80 | l[0]] + l[1..];
    LengthMark(l[0]);
    assert lead[2..] == l[1..];
    HeaderIs(lead + key + rest, l, key, n);
  }

  /** Behind a header that announces it, the payload is read. */
  lemma BodyIsRead(b: seq<byte>, lead: seq<byte>, body: seq<byte>, rest: seq<byte>, opcode: byte, key: seq<byte>)
    requires b == lead + body + rest && (|key| == 4 || key == [])
    requires ReadHeader(b) == Header(opcode, key, |lead|, |body|)
    ensures FirstFrame(b) == Ready(Frame(opcode, Unmasked(body, key)), |lead| + |body|)
  {
    assert b[|lead|..|lead| + |body|] == body;
  }

  lemma WireIsRead(bytes: seq<byte>, rest: seq<byte>, f: Frame, byte0: byte, l: seq<byte>, key: seq<byte>, body: seq<byte>)
    requires OnWire(bytes, f, byte0, l, key, body)
    ensures FirstFrame(bytes + rest) == Ready(f, |bytes|)
  {
    var lead := [byte0, if key == [] then l[0] else 0x80 | l[0]] + l[1..] + key;
    HeaderOnWire(byte0, l, key, |body|, body + rest);
    Associates(lead, body, rest);
    BodyIsRead(bytes + rest, lead, body, rest, byte0 & 0x0f, key);
    assert f.payload == Unmasked(body, key);
  }

  lemma InPieces(b: seq<byte>, i: nat, j: nat, k: nat)
    requires 2 <= i <= j <= k <= |b|
    ensures b[..k] == [b[0], b[1]] + b[2..i] + b[i..j] + b[j..k]
  {}

  lemma ReadIsOnWire(b: seq<byte>)
    requires FirstFrame(b).Ready?
    ensures Carries(b[..FirstFrame(b).size], FirstFrame(b).frame)
  {
    var h, f, size := ReadHeader(b), FirstFrame(b).frame, FirstFrame(b).size;
    var ext := Extended(b[1]);
    var l := [b[1] & 0x7f] + b[2..2 + ext];
    var body := b[h.offset..size];
    UnmarkedLength(b[1]);
    LengthIsAnnounced(b, l, h.length);
    InPieces(b, 2 + ext, h.offset, size);
    assert OnWire(b[..size], f, b[0], l, h.key, body);
  }

  /** A complete frame is read off the front of the buffer if and only if one is there by the wire format. */
  lemma FirstFrameExactly(b: seq<byte>, f: Frame, size: nat)
    ensures FirstFrame(b) == Ready(f, size) <==> size <= |b| && Carries(b[..size], f)
  {
    if size <= |b| && Carries(b[..size], f) {
      assert b == b[..size] + b[size..];
      CarriedIsRead(b[..size], b[size..], f);
    }
    if FirstFrame(b) == Ready(f, size) { ReadIsOnWire(b); }
  }

  function Joined(parts: seq<seq<byte>>): seq<byte> { if parts == [] then [] else parts[0] + Joined(parts[1..]) }

  /** The buffer is these frames, one behind the other, and a rest with no complete frame at its front. */
  ghost predicate Cut(b: seq<byte>, parts: seq<seq<byte>>, fs: seq<Frame>, rest: seq<byte>)
  {
    && |parts| == |fs| && (forall i | 0 <= i < |fs| :: Carries(parts[i], fs[i]))
    && b == Joined(parts) + rest
    && forall f, size: nat | size <= |rest| :: !Carries(rest[..size], f)
  }

  lemma NoFrameLeft(b: seq<byte>)
    ensures FirstFrame(b).Wait? <==> forall f, size: nat | size <= |b| :: !Carries(b[..size], f)
  {
    if FirstFrame(b).Ready? {
      ReadIsOnWire(b);
    } else {
      forall f, size: nat | size <= |b| ensures !Carries(b[..size], f) { FirstFrameExactly(b, f, size); }
    }
  }

  /** Parsing is cutting the buffer by the wire format, and there is one way to cut it. */
  lemma ParseExactly(b: seq<byte>, fs: seq<Frame>, rest: seq<byte>)
    ensures Parse(b) == Parsed(fs, rest) <==> exists parts :: Cut(b, parts, fs, rest)
  {
    if Parse(b) == Parsed(fs, rest) { ParseCuts(b); }
    if exists parts :: Cut(b, parts, fs, rest) {
      var parts :| Cut(b, parts, fs, rest);
      CutParses(b, parts, fs, rest);
    }
  }

  lemma {:induction false} ParseCuts(b: seq<byte>)
    ensures exists parts :: Cut(b, parts, Parse(b).frames, Parse(b).rest)
    decreases |b|
  {
    match FirstFrame(b)
    case Wait =>
      NothingCut(b);
      assert Cut(b, [], Parse(b).frames, Parse(b).rest);
    case Ready(frame, size) =>
      ParseCuts(b[size..]);
      ReadIsOnWire(b);
      ParseReady(b, frame, size);
      CutMore(b, size, frame, Parse(b[size..]));
  }

  lemma NothingCut(b: seq<byte>)
    requires FirstFrame(b).Wait?
    ensures Cut(b, [], [], b)
  {
    NoFrameLeft(b);
    assert [] + b == b;
  }

  lemma CutMore(b: seq<byte>, size: nat, f: Frame, after: Parsed)
    requires size <= |b| && Carries(b[..size], f) && exists parts :: Cut(b[size..], parts, after.frames, after.rest)
    ensures exists parts :: Cut(b, parts, [f] + after.frames, after.rest)
  {
    var parts :| Cut(b[size..], parts, after.frames, after.rest);
    CutOneMore(b[..size], f, b[size..], parts, after.frames, after.rest);
    assert b[..size] + b[size..] == b;
    assert Cut(b, [b[..size]] + parts, [f] + after.frames, after.rest);
  }

  lemma CutOneMore(part: seq<byte>, f: Frame, b: seq<byte>, parts: seq<seq<byte>>, fs: seq<Frame>, rest: seq<byte>)
    requires Carries(part, f) && Cut(b, parts, fs, rest)
    ensures Cut(part + b, [part] + parts, [f] + fs, rest)
  {
    assert ([part] + parts)[1..] == parts;
    Associates(part, Joined(parts), rest);
  }

  lemma {:induction false} CutParses(b: seq<byte>, parts: seq<seq<byte>>, fs: seq<Frame>, rest: seq<byte>)
    requires Cut(b, parts, fs, rest)
    ensures Parse(b) == Parsed(fs, rest)
    decreases |fs|
  {
    if fs == [] {
      NoFrameLeft(rest);
      assert b == rest;
    } else {
      var more := Joined(parts[1..]) + rest;
      Associates(parts[0], Joined(parts[1..]), rest);
      CarriedIsRead(parts[0], more, fs[0]);
      CutParses(more, parts[1..], fs[1..], rest);
      assert b[|parts[0]|..] == more;
    }
  }

  lemma CarriedIsRead(bytes: seq<byte>, rest: seq<byte>, f: Frame)
    requires Carries(bytes, f)
    ensures FirstFrame(bytes + rest) == Ready(f, |bytes|)
  {
    var byte0, l, key, body :| OnWire(bytes, f, byte0, l, key, body);
    WireIsRead(bytes, rest, f, byte0, l, key, body);
  }

  /** A frame sent by any peer, masked or not, is parsed as that frame behind a stream of whole frames. */
  lemma AppendedIsParsed(before: seq<byte>, bytes: seq<byte>, f: Frame)
    requires Carries(bytes, f) && Parse(before).rest == []
    ensures Parse(before + bytes) == Parsed(Parse(before).frames + [f], [])
  {
    ParseInParts(before, bytes);
    OneIsParsed(bytes, f);
    assert Parse(before).rest + bytes == bytes;
  }

  lemma OneIsParsed(bytes: seq<byte>, f: Frame)
    requires Carries(bytes, f)
    ensures Parse(bytes) == Parsed([f], [])
  {
    CarriedIsRead(bytes, [], f);
    assert bytes + [] == bytes && bytes[|bytes|..] == [];
    ParseReady(bytes, f, |bytes|);
  }

  // ---------------------------------------------------------------- writing

  const MOST: nat := 0x1_0000_0000_0000_0000

  /** The shortest announcement of a length. */
  function Announcement(len: nat): seq<byte>
    requires len < MOST
  {
    if len < 126 then [len as byte] else if len < 65536 then [126] + WriteBE(len, 2) else [127] + WriteBE(len, 8)
  }

  /** The bytes before the key. */
  function Lead(opcode: byte, len: nat): seq<byte>
    requires len < MOST
  {
    [0x80 | opcode, 0x80 | Announcement(len)[0]] + Announcement(len)[1..]
  }

  /** Spelled out for each form. */
  lemma LeadForms(opcode: byte, len: nat)
    requires len < MOST
    ensures len < 126 ==> Lead(opcode, len) == [0x80 | opcode, 0x80 | (len as byte)]
    ensures 126 <= len < 65536 ==> Lead(opcode, len) == [0x80 | opcode, 0x80 | 126] + WriteBE(len, 2)
    ensures 65536 <= len ==> Lead(opcode, len) == [0x80 | opcode, 0x80 | 127] + WriteBE(len, 8)
  {
    if len < 126 {
      SameLead(0x80 | opcode, 0x80 | Announcement(len)[0], 0x80 | (len as byte), Announcement(len)[1..], []);
    } else if len < 65536 {
      SameLead(0x80 | opcode, 0x80 | Announcement(len)[0], 0x80 | 126, Announcement(len)[1..], WriteBE(len, 2));
    } else {
      SameLead(0x80 | opcode, 0x80 | Announcement(len)[0], 0x80 | 127, Announcement(len)[1..], WriteBE(len, 8));
    }
  }

  lemma SameLead(byte0: byte, a: byte, b: byte, s: seq<byte>, t: seq<byte>)
    requires a == b && s == t
    ensures [byte0, a] + s == [byte0, b] + t && [byte0, b] + [] == [byte0, b]
  {}

  function Encode(f: Frame, key: seq<byte>): seq<byte>
    requires |key| == 4 && |f.payload| < MOST
  {
    Lead(f.opcode, |f.payload|) + key + Masked(f.payload, key)
  }

  lemma AnnouncementAnnounces(len: nat)
    requires len < MOST
    ensures Announces(Announcement(len), len)
  {
    if len < 126 { ByteKept(len); } else if len < 65536 { TwoAnnounce(len); } else { EightAnnounce(len); }
  }

  lemma TwoAnnounce(n: nat)
    requires n < 65536
    ensures Announces([126] + WriteBE(n, 2), n)
  {
    assert Pow256(2) == 65536;
    NumberRoundTrip(n, 2);
    ReadTwo(WriteBE(n, 2));
  }

  lemma EightAnnounce(n: nat)
    requires n < MOST
    ensures Announces([127] + WriteBE(n, 8), n)
  {
    assert Pow256(8) == MOST;
    NumberRoundTrip(n, 8);
    ReadEight(WriteBE(n, 8));
  }

  lemma MaskedBody(payload: seq<byte>, key: seq<byte>, i: nat)
    requires |key| == 4 && i < |payload|
    ensures payload[i] == Masked(payload, key)[i] ^ key[i % 4]
  {
    var a, k := payload[i], key[i % 4];
    assert (a ^ k) ^ k == a;
  }

  /** By the wire format, as a final frame, masked, and announced with no more bytes than it needs. */
  ghost predicate WrittenAs(f: Frame, key: seq<byte>, l: seq<byte>, body: seq<byte>)
    requires |key| == 4 && |f.payload| < MOST
  {
    && OnWire(Encode(f, key), f, 0x80 | f.opcode, l, key, body)
    && |l| == if |f.payload| < 126 then 1 else if |f.payload| < 65536 then 3 else 9
  }

  lemma OpcodeKept(opcode: byte)
    requires opcode < 16
    ensures (0x80 | opcode) & 0x0f == opcode
  {}

  lemma WrittenExactly(f: Frame, key: seq<byte>)
    requires |key| == 4 && |f.payload| < MOST && f.opcode < 16
    ensures exists l, body :: WrittenAs(f, key, l, body)
  {
    var l, body := Announcement(|f.payload|), Masked(f.payload, key);
    AnnouncementAnnounces(|f.payload|);
    OpcodeKept(f.opcode);
    forall i | 0 <= i < |body| ensures f.payload[i] == body[i] ^ key[i % 4] { MaskedBody(f.payload, key, i); }
    assert WrittenAs(f, key, l, body);
  }

  /** Whatever was written comes back as that frame, and takes exactly its own bytes. */
  lemma FrameRoundTrip(f: Frame, key: seq<byte>, rest: seq<byte>)
    requires |key| == 4 && |f.payload| < MOST && f.opcode < 16
    ensures FirstFrame(Encode(f, key) + rest) == Ready(f, |Encode(f, key)|)
  {
    WrittenExactly(f, key);
    var l, body :| WrittenAs(f, key, l, body);
    WireIsRead(Encode(f, key), rest, f, 0x80 | f.opcode, l, key, body);
  }

  /** So a peer that parses the same way reads a stream of written frames as exactly those frames. */
  lemma StreamRoundTrip(before: seq<byte>, f: Frame, key: seq<byte>)
    requires |key| == 4 && |f.payload| < MOST && f.opcode < 16 && Parse(before).rest == []
    ensures Parse(before + Encode(f, key)) == Parsed(Parse(before).frames + [f], [])
  {
    WrittenExactly(f, key);
    var l, body :| WrittenAs(f, key, l, body);
    assert Carries(Encode(f, key), f);
    AppendedIsParsed(before, Encode(f, key), f);
  }
}
