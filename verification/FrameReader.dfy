/** The buffered WebSocket client of the gas scripts, against the framing of RFC 6455 (sections 5.2 and 5.3). */
module FrameReader {
  import opened Chain

  type byte = x: int | 0 <= x < 256
  type bytes = seq<byte>

  const TEXT: byte := 0x1
  const BINARY: byte := 0x2
  const CLOSE: byte := 0x8
  const PING: byte := 0x9
  const PONG: byte := 0xA

  // ----- Masking -----

  /** Exclusive or of the low `n` bits. */
  function XorBits(a: nat, b: nat, n: nat): (r: nat) {
    if n == 0 then 0 else (a + b) % 2 + 2 * XorBits(a / 2, b / 2, n - 1)
  }

  function Pow2(n: nat): nat { if n == 0 then 1 else 2 * Pow2(n - 1) }

  lemma {:induction false} XorBitsTwice(a: nat, m: nat, n: nat)
    requires a < Pow2(n)
    ensures XorBits(a, m, n) < Pow2(n)
    ensures XorBits(XorBits(a, m, n), m, n) == a
  {
    if n > 0 {
      XorBitsTwice(a / 2, m / 2, n - 1);
      var low, high := (a + m) % 2, XorBits(a / 2, m / 2, n - 1);
      LowBit(a, m, low, high);
    }
  }

  lemma LowBit(a: nat, m: nat, low: nat, high: nat)
    requires low == (a + m) % 2
    ensures (low + 2 * high) / 2 == high && (low + 2 * high + m) % 2 == a % 2
    ensures a == a % 2 + 2 * (a / 2)
  {}

  lemma {:induction false} XorBitsBounded(a: nat, b: nat, n: nat)
    ensures XorBits(a, b, n) < Pow2(n)
  {
    if n > 0 { XorBitsBounded(a / 2, b / 2, n - 1); }
  }

  function Xor(a: byte, b: byte): byte {
    XorBitsBounded(a, b, 8);
    assert Pow2(8) == 256;
    XorBits(a, b, 8)
  }

  /** The `j`-th bit. */
  function Bit(x: nat, j: nat): nat { if j == 0 then x % 2 else Bit(x / 2, j - 1) }

  lemma {:induction false} XorBitsBitwise(a: nat, b: nat, n: nat, j: nat)
    requires j < n
    ensures Bit(XorBits(a, b, n), j) == if Bit(a, j) == Bit(b, j) then 0 else 1
  {
    var low, high := (a + b) % 2, XorBits(a / 2, b / 2, n - 1);
    LowBit(a, b, low, high);
    if j > 0 { XorBitsBitwise(a / 2, b / 2, n - 1, j - 1); }
  }

  /** `Xor` is the exclusive or of two bytes, bit by bit. */
  lemma XorIsBitwise(a: byte, b: byte, j: nat)
    requires j < 8
    ensures Bit(Xor(a, b), j) == if Bit(a, j) == Bit(b, j) then 0 else 1
  {
    XorBitsBitwise(a, b, 8, j);
  }

  /** `bytes(b ^ mask[i % 4] ...)`, from position `i` of the payload on. */
  function MaskFrom(payload: bytes, mask: bytes, i: nat): (r: bytes)
    requires |mask| == 4
    ensures |r| == |payload|
  {
    if |payload| == 0 then [] else [Xor(payload[0], mask[i % 4])] + MaskFrom(payload[1..], mask, i + 1)
  }

  function Mask(payload: bytes, mask: bytes): (r: bytes)
    requires |mask| == 4
    ensures |r| == |payload|
  {
    MaskFrom(payload, mask, 0)
  }

  /** Each byte is masked with the key's byte at its place modulo four (section 5.3). */
  lemma {:induction false} MaskedAt(payload: bytes, mask: bytes, i: nat, k: nat)
    requires |mask| == 4 && k < |payload|
    ensures MaskFrom(payload, mask, i)[k] == Xor(payload[k], mask[(i + k) % 4])
  {
    if k > 0 { MaskedAt(payload[1..], mask, i + 1, k - 1); }
  }

  /** Masking with the same key twice restores the payload. */
  lemma {:induction false} UnmaskInvertsMask(payload: bytes, mask: bytes, i: nat)
    requires |mask| == 4
    ensures MaskFrom(MaskFrom(payload, mask, i), mask, i) == payload
  {
    if |payload| > 0 {
      assert Pow2(8) == 256;
      XorBitsTwice(payload[0], mask[i % 4], 8);
      UnmaskInvertsMask(payload[1..], mask, i + 1);
      var once := MaskFrom(payload, mask, i);
      assert once[1..] == MaskFrom(payload[1..], mask, i + 1);
    }
  }

  // ----- Frames -----

  /** Network byte order. */
  function BigEndian(s: bytes): nat {
    if |s| == 0 then 0 else 256 * BigEndian(s[..|s| - 1]) + s[|s| - 1]
  }

  /** A frame taken off a stream, or what is left after the stream ran out in the middle of one. */
  datatype Framed = Frame(opcode: nat, payload: bytes, rest: bytes) | Cut(rest: bytes)

  /** A frame header: the length field resolved, and where the header ends. */
  datatype Head = Head(opcode: nat, masked: bool, length: nat, end: nat) | NoHead(consumed: nat)

  function HeadOf(s: bytes): (h: Head)
    ensures h.Head? ==> 2 <= h.end <= |s|
    ensures h.NoHead? ==> h.consumed <= |s|
  {
    if |s| < 2 then NoHead(0)
    else
      var opcode, code, masked := s[0] % 16, s[1] % 128, s[1] >= 128;
      if code == 126 then if |s| < 4 then NoHead(2) else Head(opcode, masked, BigEndian(s[2..4]), 4)
      else if code == 127 then if |s| < 10 then NoHead(2) else Head(opcode, masked, BigEndian(s[2..10]), 10)
      else Head(opcode, masked, code, 2)
  }

  /** One frame as `recv_text` reads it: a masked frame's key is taken out of the payload's own length. */
  function ReadFrame(s: bytes): (f: Framed)
    ensures |f.rest| <= |s|
    ensures f.Frame? ==> |f.rest| <= |s| - 2
  {
    match HeadOf(s)
    case NoHead(consumed) => Cut(s[consumed..])
    case Head(opcode, masked, length, end) =>
      if |s| - end < length then Cut(s[end..])
      else Frame(opcode, Unmask(masked, s[end..end + length]), s[end + length..])
  }

  function Unmask(masked: bool, payload: bytes): bytes {
    if !masked then payload
    else if |payload| < 4 then []
    else Mask(payload[4..], payload[..4])
  }

  /** One frame as the RFC lays it out: a masking key, if any, precedes a payload of the stated length. */
  function RfcFrame(s: bytes): Framed {
    match HeadOf(s)
    case NoHead(consumed) => Cut(s[consumed..])
    case Head(opcode, masked, length, end) =>
      var key := if masked then 4 else 0;
      if |s| - end < key + length then Cut(s[end..])
      else
        var payload := s[end + key..end + key + length];
        Frame(opcode, if masked then Mask(payload, s[end..end + 4]) else payload, s[end + key + length..])
  }

  lemma {:induction false} MaskOfPrefix(payload: bytes, mask: bytes, i: nat, n: nat)
    requires |mask| == 4 && n <= |payload|
    ensures MaskFrom(payload[..n], mask, i) == MaskFrom(payload, mask, i)[..n]
  {
    if n > 0 {
      MaskOfPrefix(payload[1..], mask, i + 1, n - 1);
      assert payload[..n][1..] == payload[1..][..n - 1];
    }
  }

  lemma Slices(s: bytes, at: nat, n: nat)
    requires 4 <= n && at + 4 + n <= |s|
    ensures s[at..at + n][..4] == s[at..at + 4]
    ensures s[at..at + n][4..] == s[at + 4..at + n]
    ensures s[at + 4..at + 4 + n][..n - 4] == s[at + 4..at + n]
  {}

  /** The reader decodes a complete frame as the RFC does exactly when the frame is not masked, which servers are
      required to see to; on a masked one it loses the last four bytes of the payload and leaves as many behind. */
  lemma ReaderFollowsRfcIffUnmasked(s: bytes)
    requires RfcFrame(s).Frame?
    ensures ReadFrame(s) == RfcFrame(s) <==> !HeadOf(s).masked
    ensures HeadOf(s).masked ==>
      var n := |RfcFrame(s).payload|;
      && ReadFrame(s).Frame? && ReadFrame(s).opcode == RfcFrame(s).opcode
      && ReadFrame(s).payload == RfcFrame(s).payload[..if n < 4 then 0 else n - 4]
      && ReadFrame(s).rest == s[HeadOf(s).end + n..] && |ReadFrame(s).rest| == |RfcFrame(s).rest| + 4
  {
    var h := HeadOf(s);
    if h.masked && h.length >= 4 {
      var payload := s[h.end + 4..h.end + 4 + h.length];
      MaskOfPrefix(payload, s[h.end..h.end + 4], 0, h.length - 4);
      Slices(s, h.end, h.length);
    }
  }

  // ----- The reader's view of a whole stream -----

  /** What one `recv_text` returns: a message, a close, the end of the stream, or a ping too long to answer. */
  datatype Received = Message(payload: bytes) | Closed | Eof | PongTooLong

  /** A frame handed to `_send_frame`. */
  datatype Outgoing = Outgoing(opcode: nat, payload: bytes)

  /** `struct.pack("!BB", 0x80 | opcode, 0x80 | len(payload))` fits a byte only below 256; the length bits of longer
      payloads than 125 say something else. */
  function LengthByte(n: nat): byte
    requires n < 256
  {
    if n < 128 then 128 + n else n
  }

  /** `_send_frame`. */
  function ClientFrame(opcode: nat, payload: bytes, mask: bytes): bytes
    requires opcode < 16 && |mask| == 4 && |payload| < 256
  {
    [128 + opcode, LengthByte(|payload|)] + mask + Mask(payload, mask)
  }

  /** A whole stream cut into frames. `at` is the stream each frame was taken from. */
  datatype Frames = Next(at: bytes, opcode: nat, payload: bytes, tail: Frames) | End(at: bytes, rest: bytes)

  /** Each frame takes bytes off the stream. */
  predicate Descends(fs: Frames) {
    fs.Next? ==> |fs.tail.at| < |fs.at| && Descends(fs.tail)
  }

  /** The stream as the reader cuts it. */
  function Parse(s: bytes): (fs: Frames)
    ensures fs.at == s && Descends(fs)
    decreases |s|
  {
    match ReadFrame(s)
    case Cut(rest) => End(s, rest)
    case Frame(opcode, payload, rest) => Next(s, opcode, payload, Parse(rest))
  }

  /** The stream as the RFC cuts it. */
  function RfcParse(s: bytes): (fs: Frames)
    ensures fs.at == s && Descends(fs)
    decreases |s|
  {
    match RfcFrame(s)
    case Cut(rest) => End(s, rest)
    case Frame(opcode, payload, rest) => Next(s, opcode, payload, RfcParse(rest))
  }

  datatype Step = Step(received: Received, left: Frames, sent: seq<Outgoing>) {
    /** The bytes not consumed. */
    function Rest(): bytes {
      if received.Eof? && left.End? then left.rest else left.at
    }
  }

  /** One `recv_text` on the frames of a stream. */
  function Recv(fs: Frames): Step {
    match fs
    case End(_, _) => Step(Eof, fs, [])
    case Next(_, opcode, payload, tail) =>
      if opcode == CLOSE then Step(Closed, tail, [])
      else if opcode == PING then
        if |payload| >= 256 then Step(PongTooLong, tail, [])
        else
          var r := Recv(tail);
          r.(sent := [Outgoing(PONG, payload)] + r.sent)
      else if opcode == TEXT || opcode == BINARY then Step(Message(payload), tail, [])
      else Recv(tail)
  }

  lemma AppendAssoc<T>(a: seq<T>, x: T, b: seq<T>)
    ensures a + ([x] + b) == (a + [x]) + b
  {}

  /** A step that follows frames already answered. */
  function After(answered: seq<Outgoing>, r: Step): Step { Step(r.received, r.left, answered + r.sent) }

  lemma AfterNothing(answered: seq<Outgoing>, r: Step)
    requires r.sent == []
    ensures After(answered, r) == Step(r.received, r.left, answered)
  {}

  datatype Session = Session(messages: seq<bytes>, end: Step, sent: seq<Outgoing>)

  /** Decoding the whole stream at once: every data payload up to the end, every ping answered on the way. */
  function Messages(fs: Frames): Session {
    match fs
    case End(_, _) => Session([], Step(Eof, fs, []), [])
    case Next(_, opcode, payload, tail) =>
      if opcode == CLOSE then Session([], Step(Closed, tail, []), [])
      else if opcode == PING then
        if |payload| >= 256 then Session([], Step(PongTooLong, tail, []), [])
        else
          var m := Messages(tail);
          m.(sent := [Outgoing(PONG, payload)] + m.sent)
      else
        var m := Messages(tail);
        if opcode == TEXT || opcode == BINARY then m.(messages := [payload] + m.messages) else m
  }

  /** Successive `recv_text` calls make up that decoding, one message at a time. */
  lemma {:induction false} MessagesAreSuccessiveCalls(fs: Frames)
    ensures var r, m := Recv(fs), Messages(fs);
      if r.received.Message? then
        var n := Messages(r.left);
        m.messages == [r.received.payload] + n.messages && m.end == n.end && m.sent == r.sent + n.sent
      else
        m.messages == [] && m.end.received == r.received && m.end.Rest() == r.Rest() && m.sent == r.sent
  {
    if fs.Next? && fs.opcode != CLOSE {
      if fs.opcode == PING {
        MessagesAreSuccessiveCalls(fs.tail);
        var r := Recv(fs.tail);
        if r.received.Message? {
          var n := Messages(r.left);
          assert [Outgoing(PONG, fs.payload)] + (r.sent + n.sent)
              == ([Outgoing(PONG, fs.payload)] + r.sent) + n.sent;
        }
      } else if fs.opcode != TEXT && fs.opcode != BINARY {
        MessagesAreSuccessiveCalls(fs.tail);
      } else {
        assert [] + Messages(fs.tail).sent == Messages(fs.tail).sent;
      }
    }
  }

  /** A message takes bytes off the stream. */
  lemma {:induction false} RecvShrinks(fs: Frames)
    requires Descends(fs)
    ensures var r := Recv(fs);
      r.received.Message? ==> |r.left.at| < |fs.at|
  {
    if fs.Next? {
      RecvShrinks(fs.tail);
    }
  }

  /** No masked frame stands where the reader will look for one. */
  predicate Unmasked(s: bytes)
    decreases |s|
  {
    var h := HeadOf(s);
    h.Head? ==> !h.masked && (ReadFrame(s).Frame? ==> Unmasked(ReadFrame(s).rest))
  }

  /** On a stream without masked frames the reader sees the frames the RFC's framing gives. */
  lemma {:induction false} ParseFollowsRfc(s: bytes)
    requires Unmasked(s)
    ensures Parse(s) == RfcParse(s)
    decreases |s|
  {
    var f := ReadFrame(s);
    assert f == RfcFrame(s);
    if f.Frame? { ParseFollowsRfc(f.rest); }
  }

  function Flatten(chunks: seq<bytes>): bytes {
    if |chunks| == 0 then [] else chunks[0] + Flatten(chunks[1..])
  }

  // ----- Servers that follow the RFC -----

  datatype ServerFrame = ServerFrame(opcode: byte, payload: bytes)

  function ToBigEndian(n: nat, width: nat): (r: bytes)
    ensures |r| == width
  {
    if width == 0 then [] else ToBigEndian(n / 256, width - 1) + [n % 256]
  }

  function Pow256(n: nat): nat { if n == 0 then 1 else 256 * Pow256(n - 1) }

  lemma {:induction false} BigEndianRoundTrip(n: nat, width: nat)
    requires n < Pow256(width)
    ensures BigEndian(ToBigEndian(n, width)) == n
  {
    if width > 0 {
      BigEndianRoundTrip(n / 256, width - 1);
      assert ToBigEndian(n, width)[..width - 1] == ToBigEndian(n / 256, width - 1);
    }
  }

  /** Network order: what precedes counts 256 times as much for each byte that follows. */
  lemma {:induction false} NetworkOrder(a: bytes, b: bytes)
    ensures BigEndian(a + b) == BigEndian(a) * Pow256(|b|) + BigEndian(b)
    ensures |b| == 1 ==> BigEndian(b) == b[0]
  {
    if |b| == 0 {
      assert a + b == a;
    } else {
      var c := b[..|b| - 1];
      NetworkOrder(a, c);
      assert (a + b)[..|a + b| - 1] == a + c;
      OneByteMore(BigEndian(a), Pow256(|c|), BigEndian(c), b[|b| - 1]);
    }
  }

  lemma OneByteMore(a: nat, p: nat, c: nat, last: nat)
    ensures 256 * (a * p + c) + last == a * (256 * p) + (256 * c + last)
  {}

  ghost predicate Sendable(f: ServerFrame) {
    f.opcode < 16 && |f.payload| < Pow256(8)
  }

  /** An unmasked final frame, its length in the shortest of the three forms. */
  function Encode(f: ServerFrame): (r: bytes)
    requires Sendable(f)
    ensures |r| >= 2 + |f.payload|
  {
    var n := |f.payload|;
    if n < 126 then [128 + f.opcode, n] + f.payload
    else if n < 65536 then [128 + f.opcode, 126] + ToBigEndian(n, 2) + f.payload
    else [128 + f.opcode, 127] + ToBigEndian(n, 8) + f.payload
  }

  lemma FourParts(a: bytes, b: bytes, c: bytes, d: bytes)
    ensures var s := a + b + c + d;
      && s[..|a|] == a && s[|a|..|a| + |b|] == b
      && s[|a| + |b|..|a| + |b| + |c|] == c && s[|a| + |b| + |c|..] == d
  {}

  /** An unmasked header followed by as many bytes as it announces. */
  lemma ReadsAnnounced(head: bytes, opcode: nat, payload: bytes, rest: bytes)
    requires HeadOf(head + payload + rest) == Head(opcode, false, |payload|, |head|)
    ensures ReadFrame(head + payload + rest) == Frame(opcode, payload, rest)
  {
    FourParts(head, payload, rest, []);
    assert head + payload + rest + [] == head + payload + rest;
  }

  lemma ReadsShortForm(opcode: byte, payload: bytes, rest: bytes)
    requires opcode < 16 && |payload| < 126
    ensures ReadFrame([128 + opcode, |payload|] + payload + rest) == Frame(opcode, payload, rest)
  {
    ReadsAnnounced([128 + opcode, |payload|], opcode, payload, rest);
  }

  /** A length field of two bytes or eight. */
  lemma LongHead(opcode: byte, code: byte, field: bytes, tail: bytes)
    requires opcode < 16 && ((code == 126 && |field| == 2) || (code == 127 && |field| == 8))
    ensures HeadOf([128 + opcode, code] + field + tail) == Head(opcode, false, BigEndian(field), 2 + |field|)
  {
    FourParts([128 + opcode, code], field, tail, []);
    assert [128 + opcode, code] + field + tail + [] == [128 + opcode, code] + field + tail;
  }

  lemma ReadsLongForm(opcode: byte, code: byte, field: bytes, payload: bytes, rest: bytes)
    requires opcode < 16 && ((code == 126 && |field| == 2) || (code == 127 && |field| == 8))
    requires BigEndian(field) == |payload|
    ensures ReadFrame([128 + opcode, code] + field + payload + rest) == Frame(opcode, payload, rest)
  {
    var head: bytes := [128 + opcode, code];
    LongHead(opcode, code, field, payload + rest);
    Regroup(head + field, payload, rest);
    ReadsAnnounced(head + field, opcode, payload, rest);
  }

  lemma Regroup(a: bytes, b: bytes, c: bytes)
    ensures a + (b + c) == a + b + c
  {}

  /** Reading undoes encoding, whatever follows. */
  lemma ReadUndoesEncode(f: ServerFrame, rest: bytes)
    requires Sendable(f)
    ensures ReadFrame(Encode(f) + rest) == Frame(f.opcode, f.payload, rest)
  {
    if |f.payload| < 126 {
      ReadsShortForm(f.opcode, f.payload, rest);
    } else if |f.payload| < 65536 {
      assert Pow256(2) == 65536;
      BigEndianRoundTrip(|f.payload|, 2);
      ReadsLongForm(f.opcode, 126, ToBigEndian(|f.payload|, 2), f.payload, rest);
    } else {
      BigEndianRoundTrip(|f.payload|, 8);
      ReadsLongForm(f.opcode, 127, ToBigEndian(|f.payload|, 8), f.payload, rest);
    }
  }

  function EncodeAll(fs: seq<ServerFrame>): bytes
    requires forall i :: 0 <= i < |fs| ==> Sendable(fs[i])
  {
    if |fs| == 0 then [] else Encode(fs[0]) + EncodeAll(fs[1..])
  }

  /** The frames of a conforming server, as a parsed stream. */
  function AsFrames(fs: seq<ServerFrame>): Frames
    requires forall i :: 0 <= i < |fs| ==> Sendable(fs[i])
  {
    if |fs| == 0 then End([], [])
    else Next(EncodeAll(fs), fs[0].opcode, fs[0].payload, AsFrames(fs[1..]))
  }

  /** Reading a conforming server's stream recovers its frames. */
  lemma {:induction false} ParseUndoesEncodeAll(fs: seq<ServerFrame>)
    requires forall i :: 0 <= i < |fs| ==> Sendable(fs[i])
    ensures Parse(EncodeAll(fs)) == AsFrames(fs)
  {
    if |fs| > 0 {
      ReadUndoesEncode(fs[0], EncodeAll(fs[1..]));
      ParseUndoesEncodeAll(fs[1..]);
    }
  }

  predicate IsData(f: ServerFrame) { f.opcode == TEXT || f.opcode == BINARY }

  function DataPayloads(fs: seq<ServerFrame>): seq<bytes> {
    if |fs| == 0 then [] else (if IsData(fs[0]) then [fs[0].payload] else []) + DataPayloads(fs[1..])
  }

  /** A frame that ends the session: a close, or a ping too long to answer. */
  predicate Ends(f: ServerFrame) { f.opcode == CLOSE || (f.opcode == PING && |f.payload| >= 256) }

  /** The frames up to the first that ends the session. */
  function UntilEnd(fs: seq<ServerFrame>): seq<ServerFrame> {
    if |fs| == 0 || Ends(fs[0]) then [] else [fs[0]] + UntilEnd(fs[1..])
  }

  /** The frames past it. */
  function PastEnd(fs: seq<ServerFrame>): (r: seq<ServerFrame>)
    ensures |r| <= |fs| && r == fs[|fs| - |r|..]
  {
    if |fs| == 0 then [] else if Ends(fs[0]) then fs[1..] else PastEnd(fs[1..])
  }

  /** What it is. */
  function EndOf(fs: seq<ServerFrame>): Received {
    if |fs| == 0 then Eof
    else if fs[0].opcode == CLOSE then Closed
    else if Ends(fs[0]) then PongTooLong
    else EndOf(fs[1..])
  }

  /** The answers that pings call for. */
  function Pongs(fs: seq<ServerFrame>): seq<Outgoing> {
    if |fs| == 0 then [] else (if fs[0].opcode == PING then [Outgoing(PONG, fs[0].payload)] else []) + Pongs(fs[1..])
  }

  lemma OneMoreLive(f: ServerFrame, rest: seq<ServerFrame>)
    ensures DataPayloads([f] + rest) == if IsData(f) then [f.payload] + DataPayloads(rest) else DataPayloads(rest)
    ensures Pongs([f] + rest) == if f.opcode == PING then [Outgoing(PONG, f.payload)] + Pongs(rest) else Pongs(rest)
  {
    assert ([f] + rest)[1..] == rest;
    assert [] + DataPayloads(rest) == DataPayloads(rest) && [] + Pongs(rest) == Pongs(rest);
  }

  /** Whatever a conforming server sends: every data payload is delivered and every ping answered with its own payload,
      in order, up to the first frame that ends the session. */
  lemma {:induction false} SessionDelivers(fs: seq<ServerFrame>)
    requires forall i :: 0 <= i < |fs| ==> Sendable(fs[i])
    ensures Messages(AsFrames(fs)).messages == DataPayloads(UntilEnd(fs))
    ensures Messages(AsFrames(fs)).sent == Pongs(UntilEnd(fs))
  {
    if |fs| > 0 && !Ends(fs[0]) {
      SessionDelivers(fs[1..]);
      OneMoreLive(fs[0], UntilEnd(fs[1..]));
    }
  }

  /** The session ends as that frame says, or with the stream, and leaves what follows unread. */
  lemma {:induction false} SessionEnds(fs: seq<ServerFrame>)
    requires forall i :: 0 <= i < |fs| ==> Sendable(fs[i])
    ensures Messages(AsFrames(fs)).end.received == EndOf(fs)
    ensures Messages(AsFrames(fs)).end.Rest() == EncodeAll(PastEnd(fs))
  {
    if |fs| > 0 {
      assert AsFrames(fs[1..]).at == EncodeAll(fs[1..]);
      if !Ends(fs[0]) { SessionEnds(fs[1..]); }
    }
  }

  lemma PrefixPast(a: bytes, b: bytes, n: nat)
    requires |a| <= n <= |a + b|
    ensures (a + b)[..n] == a + b[..n - |a|]
  {}

  lemma TruncatedLongForm(opcode: byte, code: byte, field: bytes, payload: bytes, n: nat)
    requires opcode < 16 && ((code == 126 && |field| == 2) || (code == 127 && |field| == 8))
    requires BigEndian(field) == |payload| && n < 2 + |field| + |payload|
    ensures ReadFrame(([128 + opcode, code] + field + payload)[..n]).Cut?
  {
    var head: bytes := [128 + opcode, code];
    if n >= 2 + |field| {
      PrefixPast(head + field, payload, n);
      LongHead(opcode, code, field, payload[..n - 2 - |field|]);
    } else if n >= 2 {
      assert (head + field + payload)[..n][1] == code;
    }
  }

  /** No frame is taken for complete before its last byte has arrived. */
  lemma TruncatedFrameIsCut(f: ServerFrame, n: nat)
    requires Sendable(f) && n < |Encode(f)|
    ensures ReadFrame(Encode(f)[..n]).Cut?
  {
    var size := |f.payload|;
    if 126 <= size < 65536 {
      assert Pow256(2) == 65536;
      BigEndianRoundTrip(size, 2);
      TruncatedLongForm(f.opcode, 126, ToBigEndian(size, 2), f.payload, n);
    } else if 65536 <= size {
      BigEndianRoundTrip(size, 8);
      TruncatedLongForm(f.opcode, 127, ToBigEndian(size, 8), f.payload, n);
    }
  }

  // ----- What the client sends -----

  lemma ShortClientFrame(opcode: nat, payload: bytes, mask: bytes)
    requires opcode < 16 && |mask| == 4 && |payload| <= 125
    ensures RfcFrame(ClientFrame(opcode, payload, mask)) == Frame(opcode, payload, [])
  {
    var head: bytes := [128 + opcode, LengthByte(|payload|)];
    FourParts(head, mask, Mask(payload, mask), []);
    assert head + mask + Mask(payload, mask) + [] == ClientFrame(opcode, payload, mask);
    assert HeadOf(ClientFrame(opcode, payload, mask)) == Head(opcode, true, |payload|, 2);
    UnmaskInvertsMask(payload, mask, 0);
  }

  /** A complete masked frame that the reader misreads: it takes the payload for the key. */
  lemma MaskedFrameIsMisread()
    ensures var s := ClientFrame(TEXT, [7], [1, 2, 3, 4]);
      && RfcFrame(s) == Frame(TEXT, [7], [])
      && ReadFrame(s) == Frame(TEXT, [], s[3..]) && |s[3..]| == 4
  {
    ShortClientFrame(TEXT, [7], [1, 2, 3, 4]);
  }

  /** Whatever a long client frame is decoded to, its payload is shorter than the one meant. */
  lemma LongClientFrame(opcode: nat, payload: bytes, mask: bytes)
    requires opcode < 16 && |mask| == 4 && 125 < |payload| < 256
    ensures var f := RfcFrame(ClientFrame(opcode, payload, mask));
      f.Frame? ==> |f.payload| < |payload|
  {}

  /** What is sent is a single final frame, marked as masked, with its key before the masked payload. */
  lemma ClientFrameLayout(opcode: nat, payload: bytes, mask: bytes)
    requires opcode < 16 && |mask| == 4 && |payload| < 256
    ensures var s := ClientFrame(opcode, payload, mask);
      && |s| == 6 + |payload| && s[0] == 128 + opcode && s[1] >= 128 && s[2..6] == mask && s[6..] == Mask(payload, mask)
  {
    FourParts([128 + opcode, LengthByte(|payload|)], mask, Mask(payload, mask), []);
  }

  /** A client frame decodes, by the RFC, to the payload it was made from exactly when that is at most 125 bytes:
      a longer one does not fit the one length byte it is given. */
  lemma ClientFrameDecodesIffShort(opcode: nat, payload: bytes, mask: bytes)
    requires opcode < 16 && |mask| == 4 && |payload| < 256
    ensures RfcFrame(ClientFrame(opcode, payload, mask)) == Frame(opcode, payload, []) <==> |payload| <= 125
  {
    if |payload| <= 125 {
      ShortClientFrame(opcode, payload, mask);
    } else {
      LongClientFrame(opcode, payload, mask);
    }
  }

  // ----- The reader as an object -----

  class WebSocketReader {
    /** Bytes received and not yet taken. */
    var buffer: bytes
    /** The chunks the network will still deliver, then the peer closes. */
    var incoming: seq<bytes>
    /** The frames sent so far. */
    var sent: seq<Outgoing>

    ghost predicate Valid()
      reads `incoming
    {
      forall i :: 0 <= i < |incoming| ==> |incoming[i]| > 0
    }

    /** All that is left to read, however it is cut into chunks. */
    ghost function Stream(): bytes
      reads `buffer, `incoming
    {
      buffer + Flatten(incoming)
    }

    constructor (buffer: bytes, incoming: seq<bytes>)
      requires forall i :: 0 <= i < |incoming| ==> |incoming[i]| > 0
      ensures Valid() && Stream() == buffer + Flatten(incoming)
      ensures sent == []
    {
      this.buffer, this.incoming, sent := buffer, incoming, [];
    }

    /** `_recv_more`; false when the peer has closed. */
    method RecvMore() returns (ok: bool)
      requires Valid()
      modifies `buffer, `incoming
      ensures Valid() && Stream() == old(Stream())
      ensures ok <==> old(|incoming|) > 0
      ensures ok ==> |incoming| == old(|incoming|) - 1
      ensures !ok ==> buffer == old(buffer) && incoming == old(incoming)
    {
      if |incoming| == 0 { return false; }
      buffer, incoming := buffer + incoming[0], incoming[1..];
      return true;
    }

    /** `_take`: exactly the next `count` bytes of the stream, or nothing if it is shorter. */
    method Take(count: nat) returns (r: Option<bytes>)
      requires Valid()
      modifies `buffer, `incoming
      ensures Valid()
      ensures if count <= |old(Stream())|
              then r == Some(old(Stream())[..count]) && Stream() == old(Stream())[count..]
              else r == None && Stream() == old(Stream())
    {
      while |buffer| < count
        invariant Valid() && Stream() == old(Stream())
        decreases |incoming|
      {
        var more := RecvMore();
        if !more {
          assert Stream() == buffer;
          return None;
        }
      }
      assert Stream()[..count] == buffer[..count];
      r := Some(buffer[..count]);
      buffer := buffer[count..];
    }

    /** The header fields of `recv_text`'s loop body. */
    method TakeHead() returns (h: Head)
      requires Valid()
      modifies `buffer, `incoming
      ensures Valid() && h == HeadOf(old(Stream()))
      ensures Stream() == old(Stream())[if h.Head? then h.end else h.consumed..]
    {
      ghost var s := Stream();
      var first := Take(2);
      if first.None? { return NoHead(0); }
      var opcode, code, masked := first.value[0] % 16, first.value[1] % 128, first.value[1] >= 128;
      if code < 126 { return Head(opcode, masked, code, 2); }
      var width := if code == 126 then 2 else 8;
      var field := Take(width);
      if field.None? { return NoHead(2); }
      SliceOfRest(s, 2, width);
      return Head(opcode, masked, BigEndian(field.value), 2 + width);
    }

    /** The frame that `recv_text`'s loop body takes off the stream. */
    method TakeFrame() returns (f: Option<(nat, bytes)>)
      requires Valid()
      modifies `buffer, `incoming
      ensures Valid()
      ensures match ReadFrame(old(Stream()))
              case Cut(rest) => f == None && Stream() == rest
              case Frame(opcode, payload, rest) => f == Some((opcode, payload)) && Stream() == rest
    {
      ghost var s := Stream();
      var h := TakeHead();
      if h.NoHead? { return None; }
      var payload := Take(h.length);
      if payload.None? { return None; }
      SliceOfRest(s, h.end, h.length);
      return Some((h.opcode, Unmask(h.masked, payload.value)));
    }

    method NextFrame() returns (f: Option<(nat, bytes)>)
      requires Valid()
      modifies `buffer, `incoming
      ensures Valid()
      ensures match Parse(old(Stream()))
              case End(_, rest) => f == None && Stream() == rest
              case Next(_, opcode, payload, tail) =>
                f == Some((opcode, payload)) && tail == Parse(Stream())
    {
      f := TakeFrame();
    }

    /** `_send_frame`: the mask is random. */
    method SendFrame(opcode: nat, payload: bytes) returns (ok: bool, frame: bytes)
      requires opcode < 16
      modifies `sent
      ensures ok <==> |payload| < 256
      ensures ok ==> exists mask: bytes :: |mask| == 4 && frame == ClientFrame(opcode, payload, mask)
      ensures sent == if ok then old(sent) + [Outgoing(opcode, payload)] else old(sent)
    {
      var mask: bytes := RandomMask();
      if |payload| >= 256 { return false, []; }
      sent := sent + [Outgoing(opcode, payload)];
      return true, [128 + opcode, LengthByte(|payload|)] + mask + Mask(payload, mask);
    }

    /** `os.urandom(4)`: any four bytes. */
    method RandomMask() returns (mask: bytes)
      ensures |mask| == 4
    {
      var a: byte, b: byte, c: byte, d: byte := *, *, *, *;
      mask := [a, b, c, d];
    }

    /** One turn of `recv_text`'s loop; `None` when it goes round again. */
    method Turn(ghost fs: Frames) returns (r: Option<Received>)
      requires Valid() && fs == Parse(Stream())
      modifies this
      ensures Valid()
      ensures r.Some? ==> r.value == Recv(fs).received && Stream() == Recv(fs).Rest()
      ensures r.Some? ==> Recv(fs).sent == [] && sent == old(sent)
      ensures r.Some? && r.value.Message? ==> Recv(fs).left == Parse(Stream())
      ensures r.None? ==> fs.Next? && fs.tail == Parse(Stream())
      ensures r.None? ==> After(sent, Recv(fs.tail)) == After(old(sent), Recv(fs))
    {
      var frame := NextFrame();
      if frame.None? { return Some(Eof); }
      var (opcode, payload) := frame.value;
      if opcode == CLOSE { return Some(Closed); }
      if opcode == PING {
        AppendAssoc(sent, Outgoing(PONG, payload), Recv(fs.tail).sent);
        var ok, _ := SendFrame(PONG, payload);
        return if ok then None else Some(PongTooLong);
      }
      if opcode == TEXT || opcode == BINARY { return Some(Message(payload)); }
      return None;
    }

    /** `recv_text`: what it returns, sends and leaves depends on the stream alone, not on how it was chunked. */
    method RecvText(ghost fs: Frames) returns (r: Received)
      requires Valid() && fs == Parse(Stream())
      modifies this
      ensures Valid()
      ensures r == Recv(fs).received && Stream() == Recv(fs).Rest() && sent == old(sent) + Recv(fs).sent
      ensures r.Message? ==> Recv(fs).left == Parse(Stream())
    {
      ghost var now := fs;
      while true
        invariant Valid() && now == Parse(Stream())
        invariant After(sent, Recv(now)) == After(old(sent), Recv(fs))
        decreases now
      {
        var done := Turn(now);
        if done.Some? {
          AfterNothing(sent, Recv(now));
          return done.value;
        }
        now := now.tail;
      }
    }

    /** The loop of `fetch_snapshot_ws` around `recv_text`: successive calls yield what decoding the whole stream at
        once yields. */
    method ReadMessages(ghost fs: Frames) returns (messages: seq<bytes>, end: Received)
      requires Valid() && fs == Parse(Stream())
      modifies this
      ensures Valid()
      ensures messages == Messages(fs).messages && end == Messages(fs).end.received
      ensures Stream() == Messages(fs).end.Rest() && sent == old(sent) + Messages(fs).sent
    {
      messages := [];
      ghost var now := fs;
      while true
        invariant Valid() && now == Parse(Stream())
        invariant Extend(messages, sent, Messages(now)) == Extend([], old(sent), Messages(fs))
        decreases |now.at|
      {
        MessagesAreSuccessiveCalls(now);
        RecvShrinks(now);
        ExtendOnce(messages, sent, Recv(now), Messages(now), Messages(Recv(now).left));
        end := RecvText(now);
        if !end.Message? { return; }
        now, messages := Recv(now).left, messages + [end.payload];
      }
    }
  }

  lemma SliceOfRest(s: bytes, from: nat, n: nat)
    requires from + n <= |s|
    ensures s[from..][..n] == s[from..from + n] && s[from..][n..] == s[from + n..]
  {}

  /** A session preceded by messages already read and frames already sent. */
  function Extend(messages: seq<bytes>, sent: seq<Outgoing>, m: Session): Session {
    Session(messages + m.messages, m.end, sent + m.sent)
  }

  lemma ExtendOnce(messages: seq<bytes>, sent: seq<Outgoing>, r: Step, m: Session, n: Session)
    requires if r.received.Message?
             then m == Session([r.received.payload] + n.messages, n.end, r.sent + n.sent)
             else m.messages == [] && m.sent == r.sent
    ensures if r.received.Message?
            then Extend(messages, sent, m) == Extend(messages + [r.received.payload], sent + r.sent, n)
            else Extend(messages, sent, m) == Session(messages, m.end, sent + r.sent)
  {
    if r.received.Message? {
      AppendAssoc(messages, r.received.payload, n.messages);
      assert sent + (r.sent + n.sent) == (sent + r.sent) + n.sent;
    }
  }
}
