/** The transport helpers in place: encoders into buffers, and the two tables (src/transport.rs). */
module Transport {
  import opened Wrappers
  import opened CodecModel
  import opened DedupModel

  /** Writes `bytes` at `at`; everything else in the buffer stays. */
  method CopyInto(out: array<Byte>, at: nat, bytes: seq<Byte>)
    requires at + |bytes| <= out.Length
    modifies out
    ensures out[..] == old(out[..at]) + bytes + old(out[at + |bytes|..])
  {
    var i := 0;
    while i < |bytes|
      invariant 0 <= i <= |bytes|
      invariant out[..at] == old(out[..at])
      invariant out[at..at + i] == bytes[..i]
      invariant out[at + i..] == old(out[at + i..])
    {
      out[at + i] := bytes[i];
      assert out[at..at + i + 1] == bytes[..i + 1];
      i := i + 1;
    }
    assert out[..] == out[..at] + out[at..at + |bytes|] + out[at + |bytes|..];
  }

  /** On success the frame is at the start of `out` and nothing behind it changed; on failure nothing did. */
  method EncodeFrame(deviceId: Byte, sequence: Byte, flags: Byte, payload: seq<Byte>, out: array<Byte>)
    returns (r: Result<nat>)
    modifies out
    ensures r.Ok? <==> Encodable(flags, payload, out.Length)
    ensures r.Err? ==> out[..] == old(out[..])
    ensures r.Ok? ==> r.value == HEADER_LEN + |payload|
    ensures r.Ok? ==> out[..] == FrameBytes(deviceId, sequence, flags, payload) + old(out[HEADER_LEN + |payload|..])
  {
    if |payload| > MAX_TRANSPORT_PAYLOAD || !KnownFlags(flags) {
      return Err;
    }
    var total := HEADER_LEN + |payload|;
    if out.Length < total {
      return Err;
    }
    out[0] := TRANSPORT_VERSION;
    out[1] := deviceId;
    out[2] := sequence;
    out[3] := flags;
    out[4] := |payload|;
    CopyInto(out, HEADER_LEN, payload);
    assert out[..HEADER_LEN] == [TRANSPORT_VERSION, deviceId, sequence, flags, |payload|];
    r := Ok(total);
  }

  method EncodeAck(ack: TransportAck, out: array<Byte>) returns (r: Result<()>)
    modifies out
    ensures r.Ok? <==> ACK_LEN <= out.Length
    ensures out[..] == if r.Ok? then AckBytes(ack) + old(out[ACK_LEN..]) else old(out[..])
  {
    if out.Length < ACK_LEN {
      return Err;
    }
    CopyInto(out, 0, ACK_MAGIC);
    out[2] := ack.deviceId;
    out[3] := ack.sequence;
    r := Ok(());
  }

  /** `encode_schedule_hint` at an offset of a packet buffer. */
  method EncodeHint(out: array<Byte>, at: nat, h: Hint) returns (error: Option<HintError>)
    requires at <= out.Length
    modifies out
    ensures error == if out.Length - at < HINT_LEN then Some(BufferTooShort) else Validate(h)
    ensures error.Some? ==> out[..] == old(out[..])
    ensures error.None? ==> out[..] == old(out[..at]) + HintBytes(h) + old(out[at + HINT_LEN..])
  {
    if out.Length - at < HINT_LEN {
      return Some(BufferTooShort);
    }
    error := Validate(h);
    if error.None? {
      CopyInto(out, at, HintBytes(h));
    }
  }

  /** `write_counter_packet`: header, then the counter; the software bytes and the rest stay. */
  method WriteCounter(buf: array<Byte>, pid: nat, counter: U32)
    requires buf.Length == PACKET_LEN
    modifies buf
    ensures buf[..] == PacketBytes(old(buf[..DMA_OFFSET]), pid, Le32(counter), old(buf[PAYLOAD_OFFSET + COUNTER_LEN..]))
  {
    buf[2] := COUNTER_LEN;
    buf[3] := pid % 4 * 2;
    CopyInto(buf, PAYLOAD_OFFSET, Le32(counter));
    assert buf[..PAYLOAD_OFFSET] == old(buf[..DMA_OFFSET]) + [COUNTER_LEN, pid % 4 * 2];
  }

  /** `write_counter_payload_packet`: refused, with nothing written, when it does not fit an ESB payload. */
  method WriteCounterPayload(buf: array<Byte>, pid: nat, counter: U32, payload: seq<Byte>) returns (ok: bool)
    requires buf.Length == PACKET_LEN
    modifies buf
    ensures ok <==> COUNTER_LEN + |payload| <= MAX_PAYLOAD
    ensures !ok ==> buf[..] == old(buf[..])
    ensures ok ==> buf[..] == PacketBytes(old(buf[..DMA_OFFSET]), pid, Le32(counter) + payload,
                                          old(buf[PAYLOAD_OFFSET + COUNTER_LEN + |payload|..]))
  {
    var total := COUNTER_LEN + |payload|;
    if total > MAX_PAYLOAD || PAYLOAD_OFFSET + total > buf.Length {
      return false;
    }
    ghost var was := buf[..];
    WriteCounter(buf, pid, counter);
    CopyInto(buf, PAYLOAD_OFFSET + COUNTER_LEN, payload);
    buf[2] := total;
    assert buf[PAYLOAD_OFFSET + total..] == was[PAYLOAD_OFFSET + total..];
    assert buf[..PAYLOAD_OFFSET] == was[..DMA_OFFSET] + [total, pid % 4 * 2];
    assert buf[PAYLOAD_OFFSET..PAYLOAD_OFFSET + total] == Le32(counter) + payload;
    assert buf[..] == buf[..PAYLOAD_OFFSET] + buf[PAYLOAD_OFFSET..PAYLOAD_OFFSET + total] +
                      buf[PAYLOAD_OFFSET + total..];
    ok := true;
  }

  /** `write_counter_schedule_packet`: the outcome of encoding the hint is ignored. */
  method WriteSchedule(buf: array<Byte>, pid: nat, counter: U32, h: Hint)
    requires buf.Length == PACKET_LEN
    modifies buf
    ensures var hint := HintField(h, old(buf[PAYLOAD_OFFSET + COUNTER_LEN..PAYLOAD_OFFSET + COUNTER_HINT_LEN]));
            buf[..] == PacketBytes(old(buf[..DMA_OFFSET]), pid, Le32(counter) + hint,
                                   old(buf[PAYLOAD_OFFSET + COUNTER_HINT_LEN..]))
  {
    hide HintBytes, Le32, Validate;
    ghost var was := buf[..];
    buf[2] := COUNTER_HINT_LEN;
    buf[3] := pid % 4 * 2;
    CopyInto(buf, PAYLOAD_OFFSET, Le32(counter));
    assert buf[..PAYLOAD_OFFSET + COUNTER_LEN] == was[..DMA_OFFSET] + [COUNTER_HINT_LEN, pid % 4 * 2] + Le32(counter);
    assert buf[PAYLOAD_OFFSET + COUNTER_LEN..] == was[PAYLOAD_OFFSET + COUNTER_LEN..];
    ghost var mid := buf[..];
    assert mid == mid[..PAYLOAD_OFFSET + COUNTER_LEN]
                  + was[PAYLOAD_OFFSET + COUNTER_LEN..PAYLOAD_OFFSET + COUNTER_HINT_LEN]
                  + was[PAYLOAD_OFFSET + COUNTER_HINT_LEN..];
    var error := EncodeHint(buf, PAYLOAD_OFFSET + COUNTER_LEN, h);
    assert mid[PAYLOAD_OFFSET + COUNTER_HINT_LEN..] == was[PAYLOAD_OFFSET + COUNTER_HINT_LEN..];
  }

  /** Lengthens a packet whose payload is `fixed` by an extension that fits. */
  method AppendExtension(buf: array<Byte>, ghost software: seq<Byte>, ghost pid: nat, ghost fixed: seq<Byte>,
                         extension: seq<Byte>)
    requires buf.Length == PACKET_LEN && |software| == DMA_OFFSET && |fixed| == COUNTER_HINT_LEN
    requires |extension| <= MAX_EXTENSION
    requires buf[..] == PacketBytes(software, pid, fixed, buf[PAYLOAD_OFFSET + COUNTER_HINT_LEN..])
    modifies buf
    ensures buf[..] == PacketBytes(software, pid, fixed + extension,
                                   old(buf[PAYLOAD_OFFSET + COUNTER_HINT_LEN + |extension|..]))
  {
    var at := PAYLOAD_OFFSET + COUNTER_HINT_LEN;
    ghost var behind := buf[at + |extension|..];
    assert buf[..at] == software + [COUNTER_HINT_LEN, pid % 4 * 2] + fixed;
    CopyInto(buf, at, extension);
    assert buf[..] == software + [COUNTER_HINT_LEN, pid % 4 * 2] + fixed + extension + behind;
    buf[2] := COUNTER_HINT_LEN + |extension|;
    assert buf[..] == software + [COUNTER_HINT_LEN + |extension|, pid % 4 * 2] + fixed + extension + behind;
    assert fixed + extension + behind == fixed + (extension + behind);
  }

  /** `write_counter_schedule_extension_packet`: counter, hint, and the extension if it fits. */
  method WriteAck(buf: array<Byte>, pid: nat, counter: U32, h: Hint, extension: seq<Byte>)
    requires buf.Length == PACKET_LEN
    modifies buf
    ensures var hint := HintField(h, old(buf[PAYLOAD_OFFSET + COUNTER_LEN..PAYLOAD_OFFSET + COUNTER_HINT_LEN]));
            var payload := AckPayload(counter, hint, extension);
            buf[..] == PacketBytes(old(buf[..DMA_OFFSET]), pid, payload, old(buf[PAYLOAD_OFFSET + |payload|..]))
  {
    hide HintBytes, Le32, Validate;
    ghost var was := buf[..];
    ghost var hint := HintField(h, was[PAYLOAD_OFFSET + COUNTER_LEN..PAYLOAD_OFFSET + COUNTER_HINT_LEN]);
    ghost var fixed := Le32(counter) + hint;
    WriteSchedule(buf, pid, counter, h);
    var at := PAYLOAD_OFFSET + COUNTER_HINT_LEN;
    assert buf[at..] == was[at..];
    assert fixed + [] == fixed;
    hide HintField;
    if |extension| > 0 && at + |extension| <= buf.Length {
      assert buf[at + |extension|..] == was[at + |extension|..] by {
        assert buf[at..][|extension|..] == was[at..][|extension|..];
      }
      AppendExtension(buf, was[..DMA_OFFSET], pid, fixed, extension);
    }
  }

  class SequenceTracker {
    const valid: array<bool>
    const last: array<Byte>

    ghost predicate Valid()
      reads this
    {
      valid.Length == last.Length
    }

    ghost function View(): (t: Tracker)
      reads this, valid, last
      requires Valid()
      ensures |t| == valid.Length
    {
      seq(valid.Length, i requires 0 <= i < valid.Length reads this, valid, last =>
        if valid[i] then Some(last[i]) else None)
    }

    constructor (n: nat)
      ensures Valid() && fresh(valid) && fresh(last)
      ensures |View()| == n && forall i | 0 <= i < n :: View()[i].None?
    {
      valid := new bool[n](i => false);
      last := new Byte[n](i => 0);
    }

    method Accept(deviceId: Byte, sequence: Byte) returns (r: Result<bool>)
      requires Valid()
      modifies valid, last
      ensures Valid() && (View(), r) == DedupModel.Accept(old(View()), deviceId, sequence)
    {
      if deviceId >= valid.Length {
        return Err;
      }
      if valid[deviceId] && last[deviceId] == sequence {
        return Ok(false);
      }
      valid[deviceId] := true;
      last[deviceId] := sequence;
      assert View() == old(View())[deviceId := Some(sequence)];
      r := Ok(true);
    }

    method ResetDevice(deviceId: Byte) returns (r: Result<()>)
      requires Valid()
      modifies valid, last
      ensures Valid()
      ensures r.Ok? <==> deviceId < |old(View())|
      ensures View() == if r.Ok? then old(View())[deviceId := None] else old(View())
    {
      if deviceId >= valid.Length {
        return Err;
      }
      valid[deviceId] := false;
      last[deviceId] := 0;
      r := Ok(());
    }
  }

  class StaticBindingTable {
    const pipeToDevice: array<Option<Byte>>

    constructor (n: nat)
      ensures fresh(pipeToDevice) && pipeToDevice.Length == n
      ensures forall i | 0 <= i < n :: pipeToDevice[i].None?
    {
      pipeToDevice := new Option<Byte>[n](i => None);
    }

    method Bind(pipe: nat, deviceId: Byte) returns (r: Result<()>)
      modifies pipeToDevice
      ensures r.Ok? <==> pipe < pipeToDevice.Length
      ensures pipeToDevice[..] == if r.Ok? then old(pipeToDevice[..])[pipe := Some(deviceId)] else old(pipeToDevice[..])
    {
      if pipe >= pipeToDevice.Length {
        return Err;
      }
      pipeToDevice[pipe] := Some(deviceId);
      r := Ok(());
    }

    method Unbind(pipe: nat) returns (r: Result<()>)
      modifies pipeToDevice
      ensures r.Ok? <==> pipe < pipeToDevice.Length
      ensures pipeToDevice[..] == if r.Ok? then old(pipeToDevice[..])[pipe := None] else old(pipeToDevice[..])
    {
      if pipe >= pipeToDevice.Length {
        return Err;
      }
      pipeToDevice[pipe] := None;
      r := Ok(());
    }
  }

  method AcceptBoundFrame(bindings: StaticBindingTable, tracker: SequenceTracker, pipe: nat, frame: seq<Byte>)
    returns (r: Result<Option<Message>>)
    requires tracker.Valid()
    modifies tracker.valid, tracker.last
    ensures tracker.Valid()
    ensures (tracker.View(), r) ==
            DedupModel.AcceptBoundFrame(old(bindings.pipeToDevice[..]), old(tracker.View()), Arrival(pipe, frame))
  {
    var decoded := DecodeFrame(frame);
    if decoded.Err? {
      return Err;
    }
    var m := decoded.value;
    if pipe >= bindings.pipeToDevice.Length {
      return Err;
    }
    if bindings.pipeToDevice[pipe] != Some(m.header.deviceId) {
      return Err;
    }
    var accepted := tracker.Accept(m.header.deviceId, m.header.sequence);
    match accepted
    case Err => r := Err;
    case Ok(isNew) => r := Ok(if isNew then Some(m) else None);
  }
}
