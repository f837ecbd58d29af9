/**
 The wire formats above ESB as byte sequences: transport frames and acknowledgements
 (src/transport.rs), schedule hints (src/mpsl_schedule.rs) and the counter packets that
 carry them (src/mpsl_common.rs). Encoders give the bytes they write, decoders take
 whatever arrives.
 */
module CodecModel {
  import opened Wrappers

  type Byte = n: nat | n < 256
  type U32 = n: nat | n < 0x1_0000_0000

  // ---- Little-endian numbers ----

  function Le32(n: U32): (s: seq<Byte>)
    ensures |s| == 4
  {
    [n % 256, n / 256 % 256, n / 65536 % 256, n / 16777216]
  }

  function FromLe32(s: seq<Byte>): U32
    requires |s| == 4
  {
    var a: int, b: int, c: int, d: int := s[0], s[1], s[2], s[3];
    a + 256 * b + 65536 * c + 16777216 * d
  }

  lemma Le32RoundTrip(n: U32)
    ensures FromLe32(Le32(n)) == n
  {
    assert n / 65536 == n / 256 / 256 && n / 16777216 == n / 65536 / 256;
  }

  lemma Le32Reencodes(s: seq<Byte>)
    requires |s| == 4
    ensures Le32(FromLe32(s)) == s
  {
    var n := FromLe32(s);
    var b: int, c: int, d: int := s[1], s[2], s[3];
    assert n / 256 == b + 256 * c + 65536 * d;
    assert n / 65536 == c + 256 * d;
  }

  /** Least significant byte first; four bytes determine the number. */
  lemma LittleEndian(n: U32)
    ensures var s := Le32(n);
            var a: int, b: int, c: int, d: int := s[0], s[1], s[2], s[3];
            a + 0x100 * b + 0x1_0000 * c + 0x100_0000 * d == n
  {
    Le32RoundTrip(n);
  }

  // ---- The packet header (src/header.rs) ----

  /** Bits 2:1 of the last header byte. */
  function HeaderPid(b: Byte): nat {
    b / 2 % 4
  }

  /** Bit 0. */
  predicate HeaderNoAck(b: Byte) {
    b % 2 == 1
  }

  function SetPid(b: Byte, pid: nat): Byte {
    b / 8 * 8 + pid % 4 * 2 + b % 2
  }

  function SetNoAck(b: Byte, noAck: bool): Byte {
    b / 2 * 2 + if noAck then 1 else 0
  }

  /** A byte from its upper five bits, its PID and its flag. */
  lemma Bits(q: nat, p: nat, r: nat)
    requires p < 4 && r < 2
    ensures var b := 8 * q + 2 * p + r; b / 8 == q && b / 2 % 4 == p && b % 2 == r
  {
    var b := 8 * q + 2 * p + r;
    assert b / 2 == 4 * q + p;
  }

  /** Setting the PID changes bits 2:1 and no other. */
  lemma SetPidBits(b: Byte, pid: nat)
    ensures var p := SetPid(b, pid);
            HeaderPid(p) == pid % 4 && (HeaderNoAck(p) <==> HeaderNoAck(b)) && p / 8 == b / 8
  {
    Bits(b / 8, pid % 4, b % 2);
  }

  /** Setting the flag changes bit 0 and no other. */
  lemma SetNoAckBits(b: Byte, noAck: bool)
    ensures var p := SetNoAck(b, noAck);
            HeaderPid(p) == HeaderPid(b) && (HeaderNoAck(p) <==> noAck) && p / 8 == b / 8
  {
    var q, p := b / 8, b / 2 % 4;
    assert b / 2 == 4 * q + p;
    Bits(q, p, if noAck then 1 else 0);
  }

  // ---- Transport frames ----

  const TRANSPORT_VERSION: Byte := 1
  const HEADER_LEN := 5
  const MAX_PAYLOAD := 252
  const MAX_TRANSPORT_PAYLOAD := MAX_PAYLOAD - HEADER_LEN

  /** FLAG_ACK and FLAG_RETRANSMIT are the two low bits; any higher bit is refused. */
  predicate KnownFlags(flags: Byte) {
    flags < 4
  }

  datatype Header = Header(deviceId: Byte, sequence: Byte, flags: Byte, payloadLen: Byte)

  datatype Message = Message(header: Header, payload: seq<Byte>)

  /** What `encode_frame` accepts, given the room it has. */
  predicate Encodable(flags: Byte, payload: seq<Byte>, room: nat) {
    |payload| <= MAX_TRANSPORT_PAYLOAD && KnownFlags(flags) && HEADER_LEN + |payload| <= room
  }

  function FrameBytes(deviceId: Byte, sequence: Byte, flags: Byte, payload: seq<Byte>): seq<Byte>
    requires |payload| < 256
  {
    [TRANSPORT_VERSION, deviceId, sequence, flags, |payload|] + payload
  }

  function DecodeFrame(frame: seq<Byte>): Result<Message> {
    if |frame| < HEADER_LEN then Err
    else if frame[0] != TRANSPORT_VERSION || !KnownFlags(frame[3]) then Err
    else if |frame| < HEADER_LEN + frame[4] then Err
    else Ok(Message(Header(frame[1], frame[2], frame[3], frame[4]), frame[HEADER_LEN..HEADER_LEN + frame[4]]))
  }

  /** Decoding inverts encoding, whatever follows the frame. */
  lemma FrameRoundTrip(deviceId: Byte, sequence: Byte, flags: Byte, payload: seq<Byte>, rest: seq<Byte>)
    requires |payload| < 256 && KnownFlags(flags)
    ensures DecodeFrame(FrameBytes(deviceId, sequence, flags, payload) + rest) ==
            Ok(Message(Header(deviceId, sequence, flags, |payload|), payload))
  {
    var f := FrameBytes(deviceId, sequence, flags, payload) + rest;
    assert f[HEADER_LEN..HEADER_LEN + |payload|] == payload;
  }

  /** An accepted frame that fits an ESB payload can be encoded again, to the very bytes it came from. */
  lemma FrameReencodes(frame: seq<Byte>)
    requires DecodeFrame(frame).Ok?
    ensures var m := DecodeFrame(frame).value;
            && |m.payload| == m.header.payloadLen && HEADER_LEN + |m.payload| <= |frame|
            && FrameBytes(m.header.deviceId, m.header.sequence, m.header.flags, m.payload) ==
               frame[..HEADER_LEN + |m.payload|]
            && (|frame| <= MAX_PAYLOAD ==> Encodable(m.header.flags, m.payload, |frame|))
  {
    var m := DecodeFrame(frame).value;
    assert frame[..HEADER_LEN + |m.payload|] == frame[..HEADER_LEN] + m.payload;
  }

  /** What `decode_frame` refuses. */
  lemma FrameRefusedExactly(frame: seq<Byte>)
    ensures DecodeFrame(frame).Err? <==>
            || |frame| < 5 || frame[0] != 1 || frame[3] > 3 || frame[4] > |frame| - 5
  {
  }

  // ---- Transport acknowledgements ----

  const ACK_LEN := 4
  const ACK_MAGIC: seq<Byte> := [0x54, 0x41]

  datatype TransportAck = TransportAck(deviceId: Byte, sequence: Byte)

  function AckBytes(ack: TransportAck): seq<Byte> {
    ACK_MAGIC + [ack.deviceId, ack.sequence]
  }

  function DecodeAck(buf: seq<Byte>): Result<TransportAck> {
    if |buf| < ACK_LEN || buf[..2] != ACK_MAGIC then Err else Ok(TransportAck(buf[2], buf[3]))
  }

  lemma AckRoundTrip(ack: TransportAck, rest: seq<Byte>)
    ensures DecodeAck(AckBytes(ack) + rest) == Ok(ack)
  {
    assert (AckBytes(ack) + rest)[..2] == ACK_MAGIC;
  }

  lemma AckReencodes(buf: seq<Byte>)
    requires DecodeAck(buf).Ok?
    ensures AckBytes(DecodeAck(buf).value) == buf[..ACK_LEN]
  {
    assert buf[..ACK_LEN] == buf[..2] + [buf[2], buf[3]];
  }

  /** What `decode_transport_ack` refuses. */
  lemma AckRefusedExactly(buf: seq<Byte>)
    ensures DecodeAck(buf).Err? <==> |buf| < 4 || buf[0] != 0x54 || buf[1] != 0x41
  {
    if |buf| >= 4 {
      assert buf[..2] == [buf[0], buf[1]];
    }
  }

  // ---- Schedule hints ----

  const HINT_VERSION: Byte := 1
  const HINT_LEN := 20
  const HINT_MAGIC: seq<Byte> := [0x53, 0x48]

  datatype HintError = BufferTooShort | BadMagic | UnsupportedVersion | InvalidTiming

  datatype Hint = Hint(version: Byte, flags: Byte, windowId: U32, nextDelayUs: U32, periodUs: U32, windowUs: U32)

  datatype HintResult = Good(hint: Hint) | Bad(error: HintError)

  function Validate(h: Hint): Option<HintError> {
    if h.version != HINT_VERSION then Some(UnsupportedVersion)
    else if h.periodUs == 0 || h.windowUs == 0 || h.windowUs > h.periodUs then Some(InvalidTiming)
    else None
  }

  function HintBytes(h: Hint): (s: seq<Byte>)
    ensures |s| == HINT_LEN
  {
    HINT_MAGIC + [h.version, h.flags] + Le32(h.windowId) + Le32(h.nextDelayUs) + Le32(h.periodUs) + Le32(h.windowUs)
  }

  function DecodeHint(buf: seq<Byte>): HintResult {
    if |buf| < HINT_LEN then Bad(BufferTooShort)
    else if buf[..2] != HINT_MAGIC then Bad(BadMagic)
    else
      var h := Hint(buf[2], buf[3], FromLe32(buf[4..8]), FromLe32(buf[8..12]), FromLe32(buf[12..16]),
                    FromLe32(buf[16..20]));
      match Validate(h)
      case Some(error) => Bad(error)
      case None => Good(h)
  }

  lemma HintFields(h: Hint, rest: seq<Byte>)
    ensures var buf := HintBytes(h) + rest;
            && buf[..2] == HINT_MAGIC && buf[2] == h.version && buf[3] == h.flags
            && buf[4..8] == Le32(h.windowId) && buf[8..12] == Le32(h.nextDelayUs)
            && buf[12..16] == Le32(h.periodUs) && buf[16..20] == Le32(h.windowUs)
  {
    hide Le32;
  }

  /** Exactly the valid hints survive the wire, and an invalid one is refused for its own reason. */
  lemma HintRoundTrip(h: Hint, rest: seq<Byte>)
    ensures DecodeHint(HintBytes(h) + rest) ==
            match Validate(h) case None => Good(h) case Some(error) => Bad(error)
  {
    HintFields(h, rest);
    Le32RoundTrip(h.windowId);
    Le32RoundTrip(h.nextDelayUs);
    Le32RoundTrip(h.periodUs);
    Le32RoundTrip(h.windowUs);
    hide Le32, FromLe32, HintBytes;
  }

  lemma HintReencodes(buf: seq<Byte>)
    requires DecodeHint(buf).Good?
    ensures HintBytes(DecodeHint(buf).hint) == buf[..HINT_LEN]
  {
    Le32Reencodes(buf[4..8]);
    Le32Reencodes(buf[8..12]);
    Le32Reencodes(buf[12..16]);
    Le32Reencodes(buf[16..20]);
    hide Le32, FromLe32;
    assert buf[..HINT_LEN] == buf[..2] + [buf[2], buf[3]] + buf[4..8] + buf[8..12] + buf[12..16] + buf[16..20];
  }

  /** Exactly the right version and a window that fits its period are valid; the version is looked at first. */
  lemma ValidExactly(h: Hint)
    ensures Validate(h) == None <==> h.version == 1 && 0 < h.windowUs <= h.periodUs
    ensures Validate(h) == Some(UnsupportedVersion) <==> h.version != 1
    ensures Validate(h) == Some(InvalidTiming) <==> h.version == 1 && !(0 < h.windowUs <= h.periodUs)
  {
  }

  /** What `decode_schedule_hint` refuses, and why. */
  lemma HintRefusedExactly(buf: seq<Byte>)
    ensures DecodeHint(buf) == Bad(BufferTooShort) <==> |buf| < 20
    ensures DecodeHint(buf) == Bad(BadMagic) <==> |buf| >= 20 && !(buf[0] == 0x53 && buf[1] == 0x48)
    ensures DecodeHint(buf) == Bad(UnsupportedVersion) <==>
            |buf| >= 20 && buf[0] == 0x53 && buf[1] == 0x48 && buf[2] != 1
    ensures DecodeHint(buf).Good? ==> var h := DecodeHint(buf).hint; 0 < h.windowUs <= h.periodUs
  {
    hide FromLe32;
    if |buf| >= 20 {
      assert buf[..2] == [buf[0], buf[1]];
    }
  }

  // ---- Counter packets ----

  const PACKET_LEN := 256
  const DMA_OFFSET := 2
  const PAYLOAD_OFFSET := 4
  const COUNTER_LEN := 4
  const COUNTER_HINT_LEN := COUNTER_LEN + HINT_LEN
  const MAX_EXTENSION := MAX_PAYLOAD - COUNTER_HINT_LEN

  /**
   The software bytes of a packet buffer, then the length and PID bytes, then the payload
   and whatever lies behind it.
   */
  function PacketBytes(software: seq<Byte>, pid: nat, payload: seq<Byte>, behind: seq<Byte>): seq<Byte>
    requires |payload| <= MAX_PAYLOAD
  {
    software + [|payload|, pid % 4 * 2] + payload + behind
  }

  /** Byte 2 is the length, byte 3 holds the PID and asks for an ACK. */
  lemma PacketHeader(software: seq<Byte>, pid: nat, payload: seq<Byte>, behind: seq<Byte>)
    requires |software| == DMA_OFFSET && |payload| <= MAX_PAYLOAD
    ensures var buf := PacketBytes(software, pid, payload, behind);
            && buf[DMA_OFFSET] == |payload| && buf[..DMA_OFFSET] == software
            && HeaderPid(buf[DMA_OFFSET + 1]) == pid % 4 && !HeaderNoAck(buf[DMA_OFFSET + 1])
            && buf[DMA_OFFSET + 1] == SetNoAck(SetPid(0, pid), false)
            && buf[PAYLOAD_OFFSET + |payload|..] == behind
  {
  }

  /** The payload of a received packet. */
  function Payload(buf: seq<Byte>): Option<seq<Byte>> {
    if |buf| < PAYLOAD_OFFSET || |buf| < PAYLOAD_OFFSET + buf[DMA_OFFSET] then None
    else Some(buf[PAYLOAD_OFFSET..PAYLOAD_OFFSET + buf[DMA_OFFSET]])
  }

  /** `read_counter_payload`. */
  function ReadCounter(buf: seq<Byte>): Option<U32> {
    if |buf| <= DMA_OFFSET || buf[DMA_OFFSET] < COUNTER_LEN || |buf| < PAYLOAD_OFFSET + COUNTER_LEN then None
    else Some(FromLe32(buf[PAYLOAD_OFFSET..PAYLOAD_OFFSET + COUNTER_LEN]))
  }

  /** `decode_counter_payload_schedule_hint`. */
  function DecodeCounterHint(payload: seq<Byte>): HintResult {
    if |payload| < COUNTER_HINT_LEN then Bad(BufferTooShort) else DecodeHint(payload[COUNTER_LEN..COUNTER_HINT_LEN])
  }

  /** What follows the counter and the hint in an ACK payload. */
  function Extension(payload: seq<Byte>): seq<Byte> {
    if |payload| <= COUNTER_HINT_LEN then [] else payload[COUNTER_HINT_LEN..]
  }

  /** The hint bytes of an ACK: an invalid hint is not encoded, and leaves the bytes that were there. */
  function HintField(h: Hint, was: seq<Byte>): (s: seq<Byte>)
    requires |was| == HINT_LEN
    ensures |s| == HINT_LEN
  {
    if Validate(h).None? then HintBytes(h) else was
  }

  /** A valid hint can be read back from its bytes; an invalid one has left the bytes that were there. */
  lemma HintFieldExactly(h: Hint, was: seq<Byte>)
    requires |was| == HINT_LEN
    ensures h.version == 1 && 0 < h.windowUs <= h.periodUs ==> DecodeHint(HintField(h, was)) == Good(h)
    ensures !(h.version == 1 && 0 < h.windowUs <= h.periodUs) ==> HintField(h, was) == was
  {
    HintRoundTrip(h, []);
    assert HintBytes(h) + [] == HintBytes(h);
    hide HintBytes, DecodeHint;
  }

  /** A counter is read exactly from a payload of at least four bytes that the buffer holds. */
  lemma ReadCounterExactly(buf: seq<Byte>)
    ensures ReadCounter(buf).None? <==> |buf| < 8 || buf[2] < 4
    ensures ReadCounter(buf).Some? ==> Le32(ReadCounter(buf).value) == buf[4..8]
  {
    if ReadCounter(buf).Some? {
      Le32Reencodes(buf[4..8]);
    }
    hide Le32, FromLe32;
  }

  /** The payload of an ACK: counter, hint, extension. An extension that does not fit is left out. */
  function AckPayload(counter: U32, hint: seq<Byte>, extension: seq<Byte>): (s: seq<Byte>)
    requires |hint| == HINT_LEN
    ensures |s| <= MAX_PAYLOAD
  {
    Le32(counter) + hint + (if |extension| <= MAX_EXTENSION then extension else [])
  }

  lemma PacketHasPayload(software: seq<Byte>, pid: nat, payload: seq<Byte>, behind: seq<Byte>)
    requires |software| == DMA_OFFSET && |payload| <= MAX_PAYLOAD
    ensures Payload(PacketBytes(software, pid, payload, behind)) == Some(payload)
  {
    var buf := PacketBytes(software, pid, payload, behind);
    assert buf[PAYLOAD_OFFSET..PAYLOAD_OFFSET + |payload|] == payload;
  }

  /**
   Counter and extension survive the trip through a packet buffer whatever the hint bytes
   are; the hint is read from them.
   */
  lemma AckFields(software: seq<Byte>, pid: nat, counter: U32, hint: seq<Byte>, extension: seq<Byte>, behind: seq<Byte>)
    requires |software| == DMA_OFFSET && |hint| == HINT_LEN && |extension| <= MAX_EXTENSION
    ensures var payload := AckPayload(counter, hint, extension);
            var buf := PacketBytes(software, pid, payload, behind);
            && Payload(buf) == Some(payload)
            && ReadCounter(buf) == Some(counter)
            && DecodeCounterHint(payload) == DecodeHint(hint)
            && Extension(payload) == extension
  {
    var payload := AckPayload(counter, hint, extension);
    var buf := PacketBytes(software, pid, payload, behind);
    PacketHasPayload(software, pid, payload, behind);
    Le32RoundTrip(counter);
    hide Le32, FromLe32, DecodeHint;
    assert payload[COUNTER_LEN..COUNTER_HINT_LEN] == hint;
    assert payload[COUNTER_HINT_LEN..] == extension;
    assert buf[PAYLOAD_OFFSET..PAYLOAD_OFFSET + COUNTER_LEN] == Le32(counter);
  }

  /** Counter, valid hint and extension all survive the trip through a packet buffer. */
  lemma AckPacketRoundTrip(software: seq<Byte>, pid: nat, counter: U32, h: Hint, extension: seq<Byte>,
                           behind: seq<Byte>)
    requires |software| == DMA_OFFSET && Validate(h).None? && |extension| <= MAX_EXTENSION
    ensures var payload := AckPayload(counter, HintBytes(h), extension);
            var buf := PacketBytes(software, pid, payload, behind);
            && Payload(buf) == Some(payload)
            && ReadCounter(buf) == Some(counter)
            && DecodeCounterHint(payload) == Good(h)
            && Extension(payload) == extension
  {
    AckFields(software, pid, counter, HintBytes(h), extension, behind);
    HintRoundTrip(h, []);
    hide HintBytes, DecodeHint;
    assert HintBytes(h) + [] == HintBytes(h);
  }

  /** A transport acknowledgement in the extension of an ACK packet comes out as it went in. */
  lemma NestedAckRoundTrip(software: seq<Byte>, pid: nat, counter: U32, hint: seq<Byte>, ack: TransportAck,
                           behind: seq<Byte>)
    requires |software| == DMA_OFFSET && |hint| == HINT_LEN
    ensures var payload := Payload(PacketBytes(software, pid, AckPayload(counter, hint, AckBytes(ack)), behind));
            payload.Some? && DecodeAck(Extension(payload.value)) == Ok(ack)
  {
    AckFields(software, pid, counter, hint, AckBytes(ack), behind);
    AckRoundTrip(ack, []);
    assert AckBytes(ack) + [] == AckBytes(ack);
  }

  /** A frame behind a counter, as the sending side queues it, comes out as it went in. */
  lemma CounterFrameRoundTrip(software: seq<Byte>, pid: nat, counter: U32, deviceId: Byte, sequence: Byte, flags: Byte,
                              payload: seq<Byte>, behind: seq<Byte>)
    requires |software| == DMA_OFFSET && KnownFlags(flags) && COUNTER_LEN + HEADER_LEN + |payload| <= MAX_PAYLOAD
    ensures var frame := FrameBytes(deviceId, sequence, flags, payload);
            var buf := PacketBytes(software, pid, Le32(counter) + frame, behind);
            && ReadCounter(buf) == Some(counter)
            && Payload(buf).Some? && |Payload(buf).value| >= COUNTER_LEN
            && DecodeFrame(Payload(buf).value[COUNTER_LEN..]) ==
               Ok(Message(Header(deviceId, sequence, flags, |payload|), payload))
  {
    var frame := FrameBytes(deviceId, sequence, flags, payload);
    var buf := PacketBytes(software, pid, Le32(counter) + frame, behind);
    PacketHasPayload(software, pid, Le32(counter) + frame, behind);
    Le32RoundTrip(counter);
    FrameRoundTrip(deviceId, sequence, flags, payload, []);
    hide Le32, FromLe32, FrameBytes, DecodeFrame;
    assert frame + [] == frame;
    assert (Le32(counter) + frame)[COUNTER_LEN..] == frame;
    assert buf[PAYLOAD_OFFSET..PAYLOAD_OFFSET + COUNTER_LEN] == Le32(counter);
  }

  /** Known bytes of each format. */
  lemma WireVectors()
    ensures FrameBytes(2, 7, 3, [1, 2, 3, 4]) == [1, 2, 7, 3, 4, 1, 2, 3, 4]
    ensures AckBytes(TransportAck(2, 8)) == [0x54, 0x41, 2, 8]
    ensures PacketBytes([0, 0], 3, [0xAA, 0xBB], []) == [0, 0, 2, 6, 0xAA, 0xBB]
  {
  }

  lemma HintVector()
    ensures HintBytes(Hint(1, 9, 0x0403_0201, 0x0807_0605, 0x0C0B_0A09, 0x100F_0E0D)) ==
            [0x53, 0x48, 1, 9, 1, 2, 3, 4, 5, 6, 7, 8, 9, 10, 11, 12, 13, 14, 15, 16]
  {
    ByteOrder();
    hide Le32;
  }

  lemma ByteOrder()
    ensures Le32(0x0403_0201) == [1, 2, 3, 4] && Le32(0x0807_0605) == [5, 6, 7, 8]
    ensures Le32(0x0C0B_0A09) == [9, 10, 11, 12] && Le32(0x100F_0E0D) == [13, 14, 15, 16]
  {
  }
}
