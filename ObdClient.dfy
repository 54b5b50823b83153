/** The OBD-II client of vcuui/obd_client.py: service $01 (current data) of
    SAE J1979 over ISO 15765-4 CAN, with the functional request id 0x7DF and
    the first ECU's response id 0x7E8. A request is one SocketCAN frame
    (`struct` format `<IB3x8s`: CAN id little-endian, data length, three pad
    bytes, eight data bytes); the response is the first frame received that
    answers the requested PID. The socket is abstract: what `send` returned
    and the frames received before the deadline are parameters. */
module ObdClient {
  import opened Common

  const ReqId := 0x7DF
  const RespId := 0x7E8
  const ServiceCurrentData := 0x01
  /** `CAN_EFF_MASK` is 0x1FFFFFFF, so `id & CAN_EFF_MASK` keeps the low 29 bits. */
  const EffModulus := 0x2000_0000
  const FrameSize := 16

  // ---------------------------------------------------------------------
  // PIDs
  // ---------------------------------------------------------------------

  datatype PidKind = VehicleSpeed | EngineCoolantTemp | EngineSpeed

  /** The `PID` class attribute of each `OBD2_*` class. */
  function Code(k: PidKind): Byte {
    match k
    case VehicleSpeed => 0x0D
    case EngineCoolantTemp => 0x05
    case EngineSpeed => 0x0C
  }

  lemma CodeIsInjective(k1: PidKind, k2: PidKind)
    ensures Code(k1) == Code(k2) <==> k1 == k2
  {
  }

  /** `decode(data)` of each PID: the speed is A, the coolant temperature
      A - 40 and the engine speed (256 A + B) / 4, truncated. Reading a
      byte the answer does not hold raises IndexError. */
  function Decoded(k: PidKind, data: seq<Byte>): Raising<int> {
    match k
    case VehicleSpeed => if |data| < 1 then Raised("IndexError") else Returned(data[0])
    case EngineCoolantTemp => if |data| < 1 then Raised("IndexError") else Returned(data[0] as int - 40)
    case EngineSpeed =>
      if |data| < 2 then Raised("IndexError") else Returned((256 * (data[0] as int) + data[1] as int) / 4)
  }

  /** The decoded values stay in the ranges of SAE J1979: 0..255 km/h,
      -40..215 degrees and 0..16383 rpm; speed and temperature need one
      byte, the engine speed two. */
  lemma DecodedRanges(k: PidKind, data: seq<Byte>)
    ensures Decoded(k, data).Returned? <==> |data| >= (if k == EngineSpeed then 2 else 1)
    ensures k == VehicleSpeed && Decoded(k, data).Returned? ==> 0 <= Decoded(k, data).value <= 255
    ensures k == EngineCoolantTemp && Decoded(k, data).Returned? ==> -40 <= Decoded(k, data).value <= 215
    ensures k == EngineSpeed && Decoded(k, data).Returned? ==> 0 <= Decoded(k, data).value <= 16383
    ensures k == EngineSpeed && Decoded(k, data).Returned? ==>
      4 * Decoded(k, data).value <= 256 * (data[0] as int) + data[1] as int < 4 * Decoded(k, data).value + 4
  {
  }

  /** An `OBD2_*` object: its value is -1 until a response is decoded. */
  class Pid {
    const kind: PidKind
    var value: int

    constructor (kind: PidKind)
      ensures this.kind == kind && value == -1
    {
      this.kind := kind;
      value := -1;
    }

    /** `decode`: stores the decoded value; an IndexError leaves it. */
    method Decode(data: seq<Byte>) returns (err: Option<string>)
      modifies this
      ensures Decoded(kind, data).Returned? ==> value == Decoded(kind, data).value && err == None
      ensures Decoded(kind, data).Raised? ==> value == old(value) && err == Some(Decoded(kind, data).error)
    {
      match kind {
        case VehicleSpeed =>
          if |data| < 1 {
            return Some("IndexError");
          }
          value := data[0];
        case EngineCoolantTemp =>
          if |data| < 1 {
            return Some("IndexError");
          }
          value := data[0] as int - 40;
        case EngineSpeed =>
          if |data| < 2 {
            return Some("IndexError");
          }
          value := (256 * (data[0] as int) + data[1] as int) / 4;
      }
      err := None;
    }
  }

  // ---------------------------------------------------------------------
  // The request
  // ---------------------------------------------------------------------

  /** `n` filler bytes 0x55. */
  function Filler(n: nat): (r: seq<Byte>)
    ensures |r| == n && forall i :: 0 <= i < n ==> r[i] == 0x55
  {
    if n == 0 then [] else Filler(n - 1) + [0x55]
  }

  /** The request payload: two bytes follow, service $01, the PID, filler. */
  function Payload(pid: Byte): seq<Byte> {
    [2, ServiceCurrentData, pid] + Filler(5)
  }

  /** The payload fills a CAN frame: 8 bytes, the PID at index 2. */
  lemma PayloadLayout(pid: Byte)
    ensures |Payload(pid)| == 8
    ensures Payload(pid)[0] == 2 && Payload(pid)[1] == 0x01 && Payload(pid)[2] == pid
    ensures forall i :: 3 <= i < 8 ==> Payload(pid)[i] == 0x55
  {
  }

  /** The payload as `_request` builds it, one byte at a time. */
  method BuildPayload(pid: Byte) returns (payload: seq<Byte>)
    ensures payload == Payload(pid)
  {
    payload := [];
    payload := payload + [2];
    payload := payload + [ServiceCurrentData];
    payload := payload + [pid];
    for i := 0 to 8 - 3
      invariant payload == [2, ServiceCurrentData, pid] + Filler(i)
    {
      payload := payload + [0x55];
    }
  }

  /** A 32-bit unsigned integer, least significant byte first. */
  function Le32(x: nat): (r: seq<Byte>)
    requires x < 0x1_0000_0000
    ensures |r| == 4
  {
    [x % 256, x / 256 % 256, x / 0x1_0000 % 256, x / 0x100_0000]
  }

  function FromLe32(b: seq<Byte>): nat
    requires |b| == 4
  {
    b[0] as int + 256 * (b[1] as int) + 0x1_0000 * (b[2] as int) + 0x100_0000 * (b[3] as int)
  }

  lemma Le32RoundTrip(x: nat)
    requires x < 0x1_0000_0000
    ensures FromLe32(Le32(x)) == x
  {
  }

  /** `struct.pack('<IB3x8s', id, length, data)` for 8 data bytes. */
  function Pack(id: nat, length: Byte, data: seq<Byte>): seq<Byte>
    requires id < 0x1_0000_0000 && |data| == 8
  {
    Le32(id) + [length] + [0, 0, 0] + data
  }

  datatype CanFrame = CanFrame(id: nat, length: Byte, data: seq<Byte>)

  /** `struct.unpack('<IB3x8s', frame)`: a buffer of any other size than 16
      bytes raises struct.error. */
  function Unpack(frame: seq<Byte>): Raising<CanFrame> {
    if |frame| != FrameSize then Raised("struct.error")
    else Returned(CanFrame(FromLe32(frame[..4]), frame[4], frame[8..16]))
  }

  /** Unpacking a packed frame gives back its id, length and data. */
  lemma UnpackPack(id: nat, length: Byte, data: seq<Byte>)
    requires id < 0x1_0000_0000 && |data| == 8
    ensures |Pack(id, length, data)| == FrameSize
    ensures Unpack(Pack(id, length, data)) == Returned(CanFrame(id, length, data))
  {
    var f := Pack(id, length, data);
    assert f[..4] == Le32(id);
    assert f[8..16] == data;
    Le32RoundTrip(id);
  }

  /** The frame `_request` sends. */
  function TxFrame(pid: Byte): seq<Byte> {
    Pack(ReqId, 8, Payload(pid))
  }

  /** 16 bytes: id 0x7DF little-endian, length 8, three zero pad bytes and
      the payload. */
  lemma TxFrameLayout(pid: Byte)
    ensures |TxFrame(pid)| == 16
    ensures TxFrame(pid)[..8] == [0xDF, 0x07, 0, 0, 8, 0, 0, 0]
    ensures TxFrame(pid)[8..] == Payload(pid)
    ensures Unpack(TxFrame(pid)) == Returned(CanFrame(ReqId, 8, Payload(pid)))
  {
    PayloadLayout(pid);
    UnpackPack(ReqId, 8, Payload(pid));
  }

  /** What `sock.send` did: sent some number of bytes, or raised OSError. */
  datatype SendResult = SentBytes(n: int) | SendOSError

  /** `_request` succeeds only when all 16 bytes went out. */
  predicate RequestSent(s: SendResult) {
    s.SentBytes? && s.n == FrameSize
  }

  // ---------------------------------------------------------------------
  // The response
  // ---------------------------------------------------------------------

  /** The acceptance test of `_wait_for_response`. */
  predicate Accepts(f: CanFrame, pid: Byte) {
    && f.id % EffModulus == RespId && f.length == 8 && |f.data| == 8
    && 3 <= f.data[0] <= 6 && f.data[1] == ServiceCurrentData + 0x40 && f.data[2] == pid
  }

  /** The bytes passed to `decode`: indices 3 to `data[0]` inclusive. */
  function Answer(f: CanFrame): (a: seq<Byte>)
    requires |f.data| == 8 && 3 <= f.data[0] <= 6
    ensures |a| == f.data[0] - 2 && 1 <= |a| <= 4
    ensures forall i :: 0 <= i < |a| ==> a[i] == f.data[3 + i]
  {
    f.data[3..f.data[0] + 1]
  }

  /** What the socket delivered before the deadline: a frame, a receive
      timeout, or an OSError from `recv` (a bus error, the interface going
      down). */
  datatype RxEvent = Received(frame: seq<Byte>) | RecvTimeout | RecvOSError

  /** The answer of the first accepted frame, None when none arrives before
      the deadline. A frame that does not unpack raises, since only the
      socket timeout is caught; so does an OSError from `recv`. */
  function FirstAnswer(events: seq<RxEvent>, pid: Byte): Raising<Option<seq<Byte>>> {
    if events == [] then Returned(None)
    else match events[0]
      case RecvTimeout => FirstAnswer(events[1..], pid)
      case RecvOSError => Raised("OSError")
      case Received(fr) =>
        match Unpack(fr)
        case Raised(e) => Raised(e)
        case Returned(f) => if Accepts(f, pid) then Returned(Some(Answer(f))) else FirstAnswer(events[1..], pid)
  }

  /** The frames that `_wait_for_response` skips: timeouts and frames that
      unpack but are not the answer. */
  predicate Skipped(ev: RxEvent, pid: Byte) {
    ev.RecvTimeout? || (ev.Received? && Unpack(ev.frame).Returned? && !Accepts(Unpack(ev.frame).value, pid))
  }

  /** The answer comes from the first frame that is not skipped, and only
      from an accepted one. */
  lemma {:induction false} FirstAnswerIsFirstAccepted(events: seq<RxEvent>, pid: Byte)
    ensures FirstAnswer(events, pid) == Returned(None) <==> forall i :: 0 <= i < |events| ==> Skipped(events[i], pid)
    ensures FirstAnswer(events, pid).Returned? && FirstAnswer(events, pid).value.Some? ==>
      exists i :: 0 <= i < |events| && (forall j :: 0 <= j < i ==> Skipped(events[j], pid))
        && events[i].Received? && Unpack(events[i].frame).Returned?
        && Accepts(Unpack(events[i].frame).value, pid)
        && FirstAnswer(events, pid).value.value == Answer(Unpack(events[i].frame).value)
  {
    if events != [] {
      var tl := events[1..];
      FirstAnswerIsFirstAccepted(tl, pid);
      assert forall j :: 0 <= j < |tl| ==> tl[j] == events[j + 1];
      if Skipped(events[0], pid) {
        var r := FirstAnswer(tl, pid);
        if r.Returned? && r.value.Some? {
          var i :| 0 <= i < |tl| && (forall j :: 0 <= j < i ==> Skipped(tl[j], pid))
            && tl[i].Received? && Unpack(tl[i].frame).Returned?
            && Accepts(Unpack(tl[i].frame).value, pid) && r.value.value == Answer(Unpack(tl[i].frame).value);
          assert forall j :: 0 <= j < i + 1 ==> Skipped(events[j], pid);
        }
        if forall i :: 0 <= i < |tl| ==> Skipped(tl[i], pid) {
          assert forall i :: 0 <= i < |events| ==> Skipped(events[i], pid);
        }
      } else {
        assert !(forall i :: 0 <= i < |events| ==> Skipped(events[i], pid));
      }
    }
  }

  /** A frame with another CAN id is ignored, whatever it holds. */
  lemma OtherIdIgnored(f: CanFrame, pid: Byte, rest: seq<RxEvent>)
    requires f.id < 0x1_0000_0000 && |f.data| == 8 && f.id % EffModulus != RespId
    ensures FirstAnswer([Received(Pack(f.id, f.length, f.data))] + rest, pid) == FirstAnswer(rest, pid)
  {
    UnpackPack(f.id, f.length, f.data);
    assert ([Received(Pack(f.id, f.length, f.data))] + rest)[1..] == rest;
  }

  /** An OSError from `recv` after any run of skipped frames ends the wait
      with that OSError, whatever would have followed. */
  lemma {:induction false} RecvOSErrorEndsWait(skipped: seq<RxEvent>, rest: seq<RxEvent>, pid: Byte)
    requires forall i :: 0 <= i < |skipped| ==> Skipped(skipped[i], pid)
    ensures FirstAnswer(skipped + [RecvOSError] + rest, pid) == Raised("OSError")
  {
    if skipped != [] {
      RecvOSErrorEndsWait(skipped[1..], rest, pid);
      assert (skipped + [RecvOSError] + rest)[1..] == skipped[1..] + [RecvOSError] + rest;
    } else {
      assert skipped + [RecvOSError] + rest == [RecvOSError] + rest;
    }
  }

  /** The frame an ECU answers with: `n + 2` bytes follow, service $41, the
      PID, then the `n` data bytes, padded to 8. */
  function EcuResponse(pid: Byte, bytes: seq<Byte>): seq<Byte>
    requires 1 <= |bytes| <= 4
  {
    Pack(RespId, 8, [|bytes| + 2, 0x41, pid] + bytes + Filler(5 - |bytes|))
  }

  /** An ECU response is accepted and its data bytes are what `decode` gets. */
  lemma EcuResponseAnswered(pid: Byte, bytes: seq<Byte>, rest: seq<RxEvent>)
    requires 1 <= |bytes| <= 4
    ensures FirstAnswer([Received(EcuResponse(pid, bytes))] + rest, pid) == Returned(Some(bytes))
  {
    var data := [|bytes| + 2, 0x41, pid] + bytes + Filler(5 - |bytes|);
    UnpackPack(RespId, 8, data);
    var f := CanFrame(RespId, 8, data);
    assert Accepts(f, pid);
    assert Answer(f) == bytes;
  }

  /** The result of `_wait_for_response` and the PID's value afterwards:
      true once an accepted answer is decoded; false, with the value kept,
      when the deadline passes; an exception from unpacking or decoding. */
  function WaitOutcome(kind: PidKind, value: int, events: seq<RxEvent>): (Raising<bool>, int) {
    match FirstAnswer(events, Code(kind))
    case Raised(e) => (Raised(e), value)
    case Returned(None) => (Returned(false), value)
    case Returned(Some(d)) =>
      match Decoded(kind, d)
      case Returned(v) => (Returned(true), v)
      case Raised(e) => (Raised(e), value)
  }

  /** The OSError leaves `_wait_for_response`, and `_query`, with the PID's
      value unchanged. */
  lemma WaitEndsOnRecvOSError(kind: PidKind, value: int, skipped: seq<RxEvent>, rest: seq<RxEvent>)
    requires forall i :: 0 <= i < |skipped| ==> Skipped(skipped[i], Code(kind))
    ensures WaitOutcome(kind, value, skipped + [RecvOSError] + rest) == (Raised("OSError"), value)
  {
    RecvOSErrorEndsWait(skipped, rest, Code(kind));
  }

  /** `_wait_for_response`: reads frames until the deadline, skipping every
      frame that is not the answer. */
  method WaitForResponse(pid: Pid, events: seq<RxEvent>) returns (r: Raising<bool>)
    modifies pid
    ensures (r, pid.value) == WaitOutcome(pid.kind, old(pid.value), events)
  {
    var code := Code(pid.kind);
    var i := 0;
    while i < |events|
      invariant 0 <= i <= |events| && pid.value == old(pid.value)
      invariant FirstAnswer(events[i..], code) == FirstAnswer(events, code)
    {
      assert events[i..][0] == events[i] && events[i..][1..] == events[i + 1..];
      match events[i] {
        case RecvTimeout =>
        case RecvOSError =>
          return Raised("OSError");
        case Received(fr) =>
          var unpacked := Unpack(fr);
          match unpacked {
            case Raised(e) =>
              return Raised(e);
            case Returned(f) =>
              if f.id % EffModulus == RespId && f.length == 8 {
                var numBytes := f.data[0];
                if 3 <= numBytes <= 6 && f.data[1] == ServiceCurrentData + 0x40 && f.data[2] == code {
                  var err := pid.Decode(f.data[3..numBytes + 1]);
                  if err.Some? {
                    return Raised(err.value);
                  }
                  return Returned(true);
                }
              }
          }
      }
      i := i + 1;
    }
    r := Returned(false);
  }

  /** `_query`: the PID (here: true) only when the request went out and the
      response came in. The receive queue flush before it is left out. */
  method Query(pid: Pid, sent: SendResult, events: seq<RxEvent>) returns (r: Raising<bool>)
    modifies pid
    ensures !RequestSent(sent) ==> r == Returned(false) && pid.value == old(pid.value)
    ensures RequestSent(sent) ==> (r, pid.value) == WaitOutcome(pid.kind, old(pid.value), events)
  {
    if sent.SentBytes? && sent.n == FrameSize {
      r := WaitForResponse(pid, events);
    } else {
      r := Returned(false);
    }
  }

  /** An ECU's answers decode to the values of SAE J1979: speed A, coolant
      A - 40, engine speed (256 A + B) / 4; a new PID object still holds -1
      when nothing answered. */
  lemma AnswersDecode(a: Byte, b: Byte, rest: seq<RxEvent>)
    ensures WaitOutcome(VehicleSpeed, -1, [Received(EcuResponse(0x0D, [a]))] + rest) == (Returned(true), a)
    ensures WaitOutcome(EngineCoolantTemp, -1, [Received(EcuResponse(0x05, [a]))] + rest) == (Returned(true), a as int - 40)
    ensures WaitOutcome(EngineSpeed, -1, [Received(EcuResponse(0x0C, [a, b]))] + rest)
      == (Returned(true), (256 * (a as int) + b as int) / 4)
    ensures WaitOutcome(VehicleSpeed, -1, [RecvTimeout]) == (Returned(false), -1)
  {
    EcuResponseAnswered(0x0D, [a], rest);
    EcuResponseAnswered(0x05, [a], rest);
    EcuResponseAnswered(0x0C, [a, b], rest);
  }

  /** A three-byte answer to the engine-speed PID carries one data byte,
      and decoding it raises IndexError out of the query. */
  lemma ShortEngineSpeedRaises(a: Byte)
    ensures WaitOutcome(EngineSpeed, -1, [Received(EcuResponse(0x0C, [a]))]) == (Raised("IndexError"), -1)
  {
    EcuResponseAnswered(0x0C, [a], []);
    assert [Received(EcuResponse(0x0C, [a]))] + [] == [Received(EcuResponse(0x0C, [a]))];
  }
}
