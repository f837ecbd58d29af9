/**
 Accepting frames from bound devices (`accept_bound_frame` in src/transport.rs): decode,
 check the pipe's binding, drop a repeat of the device's last sequence number.
 */
module DedupModel {
  import opened Wrappers
  import opened CodecModel

  /** The last accepted sequence number of each device. */
  type Tracker = seq<Option<Byte>>

  type Bindings = seq<Option<Byte>>

  datatype Arrival = Arrival(pipe: nat, frame: seq<Byte>)

  /** `SequenceTracker::accept`. */
  function Accept(t: Tracker, deviceId: Byte, sequence: Byte): (Tracker, Result<bool>) {
    if deviceId >= |t| then (t, Err)
    else if t[deviceId] == Some(sequence) then (t, Ok(false))
    else (t[deviceId := Some(sequence)], Ok(true))
  }

  /** `StaticBindingTable::accepts`. */
  function Accepts(b: Bindings, pipe: nat, deviceId: Byte): Result<bool> {
    if pipe >= |b| then Err else Ok(b[pipe] == Some(deviceId))
  }

  function AcceptBoundFrame(b: Bindings, t: Tracker, a: Arrival): (Tracker, Result<Option<Message>>) {
    match DecodeFrame(a.frame)
    case Err => (t, Err)
    case Ok(m) =>
      if Accepts(b, a.pipe, m.header.deviceId) != Ok(true) then (t, Err)
      else
        match Accept(t, m.header.deviceId, m.header.sequence)
        case (_, Err) => (t, Err)
        case (_, Ok(false)) => (t, Ok(None))
        case (t', Ok(true)) => (t', Ok(Some(m)))
  }

  /** The messages accepted from a stream of arrivals, and the tracker left behind. */
  function AcceptAll(b: Bindings, t: Tracker, arrivals: seq<Arrival>): (Tracker, seq<Message>)
    decreases |arrivals|
  {
    if arrivals == [] then (t, [])
    else
      var (t1, r) := AcceptBoundFrame(b, t, arrivals[0]);
      var (t2, rest) := AcceptAll(b, t1, arrivals[1..]);
      (t2, (match r case Ok(Some(m)) => [m] case _ => []) + rest)
  }

  // ---- What that means, one device at a time ----

  /** The well-formed frames of device `d` that arrived on a pipe bound to it. */
  function FromDevice(b: Bindings, arrivals: seq<Arrival>, d: Byte): seq<Message> {
    if arrivals == [] then []
    else
      var a := arrivals[0];
      var rest := FromDevice(b, arrivals[1..], d);
      match DecodeFrame(a.frame)
      case Err => rest
      case Ok(m) => if m.header.deviceId == d && a.pipe < |b| && b[a.pipe] == Some(d) then [m] + rest else rest
  }

  /** Messages whose sequence number repeats the one before them are dropped. */
  function Destutter(last: Option<Byte>, messages: seq<Message>): seq<Message>
    decreases |messages|
  {
    if messages == [] then []
    else
      var m := messages[0];
      var rest := Destutter(Some(m.header.sequence), messages[1..]);
      if last == Some(m.header.sequence) then rest else [m] + rest
  }

  function OfDevice(messages: seq<Message>, d: Byte): seq<Message> {
    if messages == [] then []
    else if messages[0].header.deviceId == d then [messages[0]] + OfDevice(messages[1..], d)
    else OfDevice(messages[1..], d)
  }

  lemma {:induction false} OfDeviceAppend(a: seq<Message>, b: seq<Message>, d: Byte)
    ensures OfDevice(a + b, d) == OfDevice(a, d) + OfDevice(b, d)
  {
    if a == [] {
      assert a + b == b;
    } else {
      assert (a + b)[1..] == a[1..] + b;
      OfDeviceAppend(a[1..], b, d);
    }
  }

  /** Whatever is not accepted, a repeat as well as an error, leaves the tracker as it was. */
  lemma RejectedLeavesTracker(b: Bindings, t: Tracker, a: Arrival)
    ensures var (t', r) := AcceptBoundFrame(b, t, a);
            && |t'| == |t|
            && (t' != t ==> r.Ok? && r.value.Some?)
            && (r.Ok? && r.value.Some? ==>
                  var d := r.value.value.header.deviceId;
                  && d < |t| && a.pipe < |b| && b[a.pipe] == Some(d)
                  && t[d] != Some(r.value.value.header.sequence)
                  && t' == t[d := Some(r.value.value.header.sequence)])
  {
  }

  /** Each answer exactly under its condition: an error, a repeat, or the decoded message. */
  lemma AnswerExactly(b: Bindings, t: Tracker, a: Arrival)
    ensures var r := AcceptBoundFrame(b, t, a).1;
            var m := DecodeFrame(a.frame);
            var bound := m.Ok? && a.pipe < |b| && b[a.pipe] == Some(m.value.header.deviceId)
                         && m.value.header.deviceId < |t|;
            var repeat := bound && t[m.value.header.deviceId] == Some(m.value.header.sequence);
            && (r == Err <==> !bound)
            && (r == Ok(None) <==> repeat)
            && (bound && !repeat ==> r == Ok(Some(m.value)))
  {
    hide DecodeFrame;
  }

  /**
   For every device the tracker knows, the accepted messages are the bound, well-formed
   frames of that device with consecutive repeats of a sequence number removed. Other
   devices do not interfere, and a device beyond the tracker is never accepted.
   */
  lemma {:induction false} AcceptanceDestutters(b: Bindings, t: Tracker, arrivals: seq<Arrival>, d: Byte)
    ensures var out := OfDevice(AcceptAll(b, t, arrivals).1, d);
            out == if d < |t| then Destutter(t[d], FromDevice(b, arrivals, d)) else []
    decreases |arrivals|
  {
    if arrivals != [] {
      var (t1, r) := AcceptBoundFrame(b, t, arrivals[0]);
      AcceptanceDestutters(b, t1, arrivals[1..], d);
      var rest := AcceptAll(b, t1, arrivals[1..]).1;
      var first := match r case Ok(Some(m)) => [m] case _ => [];
      OfDeviceAppend(first, rest, d);
      FirstOfDevice(b, t, arrivals, d);
    }
  }

  /** One arrival, seen by device `d`. */
  lemma FirstOfDevice(b: Bindings, t: Tracker, arrivals: seq<Arrival>, d: Byte)
    requires arrivals != []
    ensures var (t1, r) := AcceptBoundFrame(b, t, arrivals[0]);
            var tail := FromDevice(b, arrivals[1..], d);
            var first := match r case Ok(Some(m)) => [m] case _ => [];
            && |t1| == |t|
            && (d >= |t| ==> OfDevice(first, d) == [])
            && (d < |t| ==> Destutter(t[d], FromDevice(b, arrivals, d)) == OfDevice(first, d) + Destutter(t1[d], tail))
  {
    var rest := FromDevice(b, arrivals[1..], d);
    var m := DecodeFrame(arrivals[0].frame);
    if m.Ok? {
      assert ([m.value] + rest)[1..] == rest;
      assert OfDevice([m.value], d) == if m.value.header.deviceId == d then [m.value] else [];
    }
    hide DecodeFrame;
  }

  /** Two neighbours have the same sequence number. */
  ghost predicate Stutters(messages: seq<Message>) {
    exists i :: 0 <= i < |messages| - 1 && messages[i].header.sequence == messages[i + 1].header.sequence
  }

  lemma {:induction false} DestutterLeavesNoRepeat(last: Option<Byte>, messages: seq<Message>)
    ensures var out := Destutter(last, messages);
            && !Stutters(out)
            && (out != [] ==> last != Some(out[0].header.sequence))
    decreases |messages|
  {
    if messages != [] {
      var m := messages[0];
      DestutterLeavesNoRepeat(Some(m.header.sequence), messages[1..]);
    }
  }
}
