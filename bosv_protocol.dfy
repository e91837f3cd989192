/*
 * The serial protocol spoken with the BOSV illumination/pump unit, as pure
 * functions: the pump state and its byte code, the brightness table, the
 * 2-byte outbound command frame, the classification of inbound answer codes,
 * the effect of each answer on the mirrored device state, and the lifecycle
 * of the serial link. The class in module ComControl mutates its fields by
 * exactly these functions.
 */
module BosvProtocol {

  datatype Option<T> = None | Some(value: T)

  /** Highest brightness level; levels run 0..MaxBrightness. */
  const MaxBrightness: int := 10

  /** From this brightness level on, byte 1 of the command carries the boost bit. */
  const BoostThreshold: int := 4

  /** The boost bit added to the pump byte of the command frame. */
  const BoostBit: bv8 := 0x08

  /** Byte 0 of the command frame for each brightness level 0..10. */
  const BrightnessTable: seq<bv8> := [0x80, 0xC2, 0xD7, 0xEC, 0x81, 0x96, 0xAB, 0xC0, 0xD5, 0xEA, 0xFF]

  /** The frame the controller holds before its first command is built. */
  const InitialCommand: seq<bv8> := [0x80, 0x00]

  // ---------------------------------------------------------------------------
  // Pump state: bit 0 of the code is on/off, bit 1 is normal/max.
  // ---------------------------------------------------------------------------

  datatype PumpState = OffNormal | OnNormal | OffMax | OnMax
  {
    /** The byte the pump state stands for on the wire. */
    function Code(): (c: bv8)
      ensures c <= 0x03
      ensures (c & 0x01 == 0x01) == IsOn()
      ensures (c & 0x02 == 0x02) == IsMax()
    {
      match this
      case OffNormal => 0x00
      case OnNormal => 0x01
      case OffMax => 0x02
      case OnMax => 0x03
    }

    predicate IsOn() {
      this == OnNormal || this == OnMax
    }

    predicate IsMax() {
      this == OnMax || this == OffMax
    }

    /** The state with the on/off axis set to `on` and the power axis kept (the IsPumpOn setter). */
    function WithOn(on: bool): (r: PumpState)
      ensures r.IsOn() == on
      ensures r.IsMax() == IsMax()
    {
      var isMax := IsMax();
      if on then (if isMax then OnMax else OnNormal)
      else (if isMax then OffMax else OffNormal)
    }

    /** The state with the power axis set to `max` and the on/off axis kept (the IsPumpMax setter). */
    function WithMax(max: bool): (r: PumpState)
      ensures r.IsMax() == max
      ensures r.IsOn() == IsOn()
    {
      var isOn := IsOn();
      if max then (if isOn then OnMax else OffMax)
      else (if isOn then OnNormal else OffNormal)
    }

    /** The answer to the pump on/off button: flip on/off, keep the power. */
    function ToggledOn(): (r: PumpState)
      ensures r.IsOn() == !IsOn()
      ensures r.IsMax() == IsMax()
    {
      match this
      case OffNormal => OnNormal
      case OnNormal => OffNormal
      case OffMax => OnMax
      case OnMax => OffMax
    }

    /** The answer to the pump power button: flip normal/max, keep on/off. */
    function ToggledMax(): (r: PumpState)
      ensures r.IsMax() == !IsMax()
      ensures r.IsOn() == IsOn()
    {
      match this
      case OffNormal => OffMax
      case OffMax => OffNormal
      case OnNormal => OnMax
      case OnMax => OnNormal
    }
  }

  /** The pump state whose code is the two low bits of `bits`. */
  function PumpFromBits(bits: bv8): (p: PumpState)
    ensures p.Code() == bits & 0x03
  {
    var on := bits & 0x01 == 0x01;
    var max := bits & 0x02 == 0x02;
    if max then (if on then OnMax else OffMax)
    else (if on then OnNormal else OffNormal)
  }

  /** A pump state is determined by its two projections. */
  lemma PumpDeterminedByAxes(p: PumpState, q: PumpState)
    requires p.IsOn() == q.IsOn() && p.IsMax() == q.IsMax()
    ensures p == q
  {
  }

  /** Reading a code back gives the pump state it came from. */
  lemma PumpCodeRoundTrip(p: PumpState)
    ensures PumpFromBits(p.Code()) == p
  {
    PumpDeterminedByAxes(PumpFromBits(p.Code()), p);
  }

  /** Each setter leaves the state alone when it already holds the asked-for value, and keeps only its last call. */
  lemma SettersIdempotent(p: PumpState, a: bool, b: bool)
    ensures p.WithOn(p.IsOn()) == p && p.WithMax(p.IsMax()) == p
    ensures p.WithOn(a).WithOn(b) == p.WithOn(b)
    ensures p.WithMax(a).WithMax(b) == p.WithMax(b)
  {
    PumpDeterminedByAxes(p.WithOn(p.IsOn()), p);
    PumpDeterminedByAxes(p.WithMax(p.IsMax()), p);
    PumpDeterminedByAxes(p.WithOn(a).WithOn(b), p.WithOn(b));
    PumpDeterminedByAxes(p.WithMax(a).WithMax(b), p.WithMax(b));
  }

  /** The two setters act on independent axes, so their order does not matter. */
  lemma SettersCommute(p: PumpState, on: bool, max: bool)
    ensures p.WithOn(on).WithMax(max) == p.WithMax(max).WithOn(on)
    ensures p.WithOn(on).WithMax(max).IsOn() == on
    ensures p.WithOn(on).WithMax(max).IsMax() == max
  {
    PumpDeterminedByAxes(p.WithOn(on).WithMax(max), p.WithMax(max).WithOn(on));
  }

  /** The device buttons and the UI setters agree: a toggle is the setter applied to the negated projection. */
  lemma TogglesAreSetters(p: PumpState)
    ensures p.ToggledOn() == p.WithOn(!p.IsOn())
    ensures p.ToggledMax() == p.WithMax(!p.IsMax())
  {
    PumpDeterminedByAxes(p.ToggledOn(), p.WithOn(!p.IsOn()));
    PumpDeterminedByAxes(p.ToggledMax(), p.WithMax(!p.IsMax()));
  }

  /** Each toggle undoes itself, and the two toggles commute. */
  lemma TogglesAreInvolutions(p: PumpState)
    ensures p.ToggledOn().ToggledOn() == p
    ensures p.ToggledMax().ToggledMax() == p
    ensures p.ToggledOn() != p && p.ToggledMax() != p
    ensures p.ToggledOn().ToggledMax() == p.ToggledMax().ToggledOn()
  {
    PumpDeterminedByAxes(p.ToggledOn().ToggledOn(), p);
    PumpDeterminedByAxes(p.ToggledMax().ToggledMax(), p);
    PumpDeterminedByAxes(p.ToggledOn().ToggledMax(), p.ToggledMax().ToggledOn());
  }

  // ---------------------------------------------------------------------------
  // Outbound command frame.
  // ---------------------------------------------------------------------------

  /** No two brightness levels share a table byte, so byte 0 identifies the level. */
  lemma BrightnessTableInjective(i: int, j: int)
    requires 0 <= i <= MaxBrightness && 0 <= j <= MaxBrightness
    requires BrightnessTable[i] == BrightnessTable[j]
    ensures i == j
  {
  }

  /**
   * The 2-byte command sent for a brightness level and a pump state: byte 0
   * from the brightness table, byte 1 the pump code plus the boost bit when the
   * level is at least 4.
   */
  function EncodeFrame(brightness: int, pump: PumpState): (frame: seq<bv8>)
    requires 0 <= brightness <= MaxBrightness
    ensures |frame| == 2
    ensures frame[0] == BrightnessTable[brightness]
    ensures frame[1] == pump.Code() | (if brightness >= BoostThreshold then BoostBit else 0x00)
    ensures frame[1] <= 0x0B
    ensures (frame[1] & BoostBit == BoostBit) == (brightness >= BoostThreshold)
    ensures frame[1] & 0x03 == pump.Code()
  {
    var pumpByte := pump.Code();
    [BrightnessTable[brightness], if brightness >= BoostThreshold then pumpByte + BoostBit else pumpByte]
  }

  /** The first position of `x` in `s`, if any. */
  function IndexOf(s: seq<bv8>, x: bv8): (r: Option<nat>)
    ensures r.Some? ==> r.value < |s| && s[r.value] == x && x !in s[..r.value]
    ensures r.None? ==> x !in s
    decreases |s|
  {
    if |s| == 0 then None
    else if s[0] == x then Some(0)
    else match IndexOf(s[1..], x)
      case None => None
      case Some(i) => Some(i + 1)
  }

  /**
   * The inverse of EncodeFrame: the brightness level and pump state a command
   * frame encodes, or None for a frame the encoder never produces.
   */
  function DecodeFrame(frame: seq<bv8>): (r: Option<(int, PumpState)>)
    ensures r.Some? ==> 0 <= r.value.0 <= MaxBrightness
  {
    if |frame| != 2 then None
    else match IndexOf(BrightnessTable, frame[0])
      case None => None
      case Some(level) =>
        if frame[1] & 0xF4 != 0x00 then None
        else if (frame[1] & BoostBit == BoostBit) != (level >= BoostThreshold) then None
        else Some((level as int, PumpFromBits(frame[1])))
  }

  /** Decoding an encoded frame gives back the level and pump state. */
  lemma EncodeThenDecode(brightness: int, pump: PumpState)
    requires 0 <= brightness <= MaxBrightness
    ensures DecodeFrame(EncodeFrame(brightness, pump)) == Some((brightness, pump))
  {
    var frame := EncodeFrame(brightness, pump);
    var level := IndexOf(BrightnessTable, frame[0]);
    BrightnessTableInjective(level.value, brightness);
    PumpCodeRoundTrip(pump);
  }

  /** Every frame that decodes is exactly the encoding of what it decodes to. */
  lemma DecodeThenEncode(frame: seq<bv8>)
    requires DecodeFrame(frame).Some?
    ensures EncodeFrame(DecodeFrame(frame).value.0, DecodeFrame(frame).value.1) == frame
  {
    var (level, pump) := DecodeFrame(frame).value;
    var bits := frame[1];
    assert bits & 0xF4 == 0x00;
    assert bits == (bits & 0x03) | (if level >= BoostThreshold then BoostBit else 0x00);
  }

  /** Two states whose frames coincide are the same state: the unit is never told something ambiguous. */
  lemma EncodeFrameInjective(b1: int, p1: PumpState, b2: int, p2: PumpState)
    requires 0 <= b1 <= MaxBrightness && 0 <= b2 <= MaxBrightness
    requires EncodeFrame(b1, p1) == EncodeFrame(b2, p2)
    ensures b1 == b2 && p1 == p2
  {
    EncodeThenDecode(b1, p1);
    EncodeThenDecode(b2, p2);
  }

  // ---------------------------------------------------------------------------
  // Inbound answers.
  // ---------------------------------------------------------------------------

  /** The answer codes the unit sends in byte 1 of its reply; any other code is Unlisted. */
  datatype Answer =
    | OkNoActions        // 0xFF
    | InError            // 0xBF
    | ButtonLightUp      // 0xFE
    | ButtonLightDown    // 0xFD
    | ButtonLightOnOff   // 0xFB
    | ButtonPumpOnOff    // 0xEF
    | ButtonPumpMinMax   // 0xF7
    | Unlisted(code: bv8)

  function AnswerCode(a: Answer): bv8 {
    match a
    case OkNoActions => 0xFF
    case InError => 0xBF
    case ButtonLightUp => 0xFE
    case ButtonLightDown => 0xFD
    case ButtonLightOnOff => 0xFB
    case ButtonPumpOnOff => 0xEF
    case ButtonPumpMinMax => 0xF7
    case Unlisted(c) => c
  }

  /** A well-formed answer: Unlisted only carries codes that no named answer has. */
  predicate WellFormed(a: Answer) {
    a.Unlisted? ==> a.code !in {0xFF, 0xBF, 0xFE, 0xFD, 0xFB, 0xEF, 0xF7}
  }

  /** The answer byte 1 of a reply stands for. */
  function Classify(code: bv8): (a: Answer)
    ensures AnswerCode(a) == code
    ensures WellFormed(a)
  {
    if code == 0xFF then OkNoActions
    else if code == 0xBF then InError
    else if code == 0xFE then ButtonLightUp
    else if code == 0xFD then ButtonLightDown
    else if code == 0xFB then ButtonLightOnOff
    else if code == 0xEF then ButtonPumpOnOff
    else if code == 0xF7 then ButtonPumpMinMax
    else Unlisted(code)
  }

  /** Classify inverts AnswerCode on every well-formed answer. */
  lemma ClassifyRoundTrip(a: Answer)
    requires WellFormed(a)
    ensures Classify(AnswerCode(a)) == a
  {
  }

  /** The answer carried by an inbound buffer; a buffer shorter than 2 bytes carries none. */
  function Decode(buffer: seq<bv8>): (r: Option<Answer>)
    ensures r.None? <==> |buffer| < 2
    ensures r.Some? ==> AnswerCode(r.value) == buffer[1] && WellFormed(r.value)
  {
    if |buffer| < 2 then None else Some(Classify(buffer[1]))
  }

  // ---------------------------------------------------------------------------
  // The mirrored device state and the effect of answers on it.
  // ---------------------------------------------------------------------------

  datatype DeviceState = DeviceState(brightness: int, lightOn: bool, pump: PumpState)
  {
    /** The brightness is a valid table index. */
    predicate InRange() {
      0 <= brightness <= MaxBrightness
    }

    /** The light flag agrees with the brightness; this is not kept by every answer. */
    predicate Coupled() {
      lightOn == (brightness > 0)
    }
  }

  /** The state a controller starts with. */
  const Initial: DeviceState := DeviceState(0, false, OffNormal)

  function Min(a: int, b: int): int { if a <= b then a else b }

  function Max(a: int, b: int): int { if a >= b then a else b }

  /** Saturate `value` into [lo, hi]. */
  function Clamp(value: int, lo: int, hi: int): (r: int)
    requires lo <= hi
    ensures lo <= r <= hi
    ensures lo <= value <= hi ==> r == value
    ensures value < lo ==> r == lo
    ensures value > hi ==> r == hi
  {
    if value < lo then lo else if value > hi then hi else value
  }

  /** The effect of one answer on the mirrored state. */
  function Apply(s: DeviceState, a: Answer): (r: DeviceState)
    ensures s.InRange() ==> r.InRange()
  {
    match a
    case OkNoActions => s
    case ButtonLightUp =>
      var b := Min(s.brightness + 1, MaxBrightness);
      s.(brightness := b, lightOn := b > 0)
    case ButtonLightDown =>
      var b := Max(s.brightness - 1, 0);
      s.(brightness := b, lightOn := b > 0)
    case ButtonLightOnOff => s.(lightOn := !s.lightOn)
    case ButtonPumpOnOff => s.(pump := s.pump.ToggledOn())
    case ButtonPumpMinMax => s.(pump := s.pump.ToggledMax())
    case InError => s       // declared, but handled like any unknown code
    case Unlisted(_) => s
  }

  /** The effect of one inbound buffer on the mirrored state. */
  function Receive(s: DeviceState, buffer: seq<bv8>): (r: DeviceState)
    ensures s.InRange() ==> r.InRange()
  {
    match Decode(buffer)
    case None => s
    case Some(a) => Apply(s, a)
  }

  /** The effect of a run of inbound buffers, in arrival order. */
  function ReceiveAll(s: DeviceState, buffers: seq<seq<bv8>>): DeviceState
    decreases |buffers|
  {
    if |buffers| == 0 then s else ReceiveAll(Receive(s, buffers[0]), buffers[1..])
  }

  /** No run of replies, however long, moves the brightness out of the table's range. */
  lemma {:induction false} ReceiveAllInRange(s: DeviceState, buffers: seq<seq<bv8>>)
    requires s.InRange()
    ensures ReceiveAll(s, buffers).InRange()
    decreases |buffers|
  {
    if |buffers| > 0 {
      ReceiveAllInRange(Receive(s, buffers[0]), buffers[1..]);
    }
  }

  /** Replies that change nothing: a short buffer, OkNoActions, InError and any unlisted code. */
  lemma InertReplies(s: DeviceState, buffer: seq<bv8>)
    requires |buffer| < 2 || buffer[1] in {0xFF, 0xBF} || buffer[1] !in {0xFE, 0xFD, 0xFB, 0xEF, 0xF7}
    ensures Receive(s, buffer) == s
  {
  }

  /** Every other reply changes some in-range state, so the inert replies are exactly those above. */
  lemma ActiveRepliesAct(buffer: seq<bv8>)
    requires |buffer| >= 2 && buffer[1] in {0xFE, 0xFD, 0xFB, 0xEF, 0xF7}
    ensures Receive(DeviceState(5, false, OffNormal), buffer) != DeviceState(5, false, OffNormal)
  {
  }

  /** LightUp saturates at 10, always leaves the light on, and keeps the pump. */
  lemma LightUpEffect(s: DeviceState)
    requires s.InRange()
    ensures Apply(s, ButtonLightUp).brightness == if s.brightness < MaxBrightness then s.brightness + 1 else MaxBrightness
    ensures Apply(s, ButtonLightUp).lightOn
    ensures Apply(s, ButtonLightUp).pump == s.pump
    ensures s.brightness == MaxBrightness ==> Apply(s, ButtonLightUp).brightness == MaxBrightness
  {
  }

  /** LightDown saturates at 0, leaves the light on exactly when at least 1 remains, and keeps the pump. */
  lemma LightDownEffect(s: DeviceState)
    requires s.InRange()
    ensures Apply(s, ButtonLightDown).brightness == if s.brightness > 0 then s.brightness - 1 else 0
    ensures Apply(s, ButtonLightDown).lightOn <==> s.brightness >= 2
    ensures Apply(s, ButtonLightDown).pump == s.pump
    ensures s.brightness == 0 ==> Apply(s, ButtonLightDown) == s.(lightOn := false)
  {
  }

  /** Away from the ends of the range, LightUp and LightDown undo each other. */
  lemma LightUpDownInverse(s: DeviceState)
    requires s.InRange() && s.Coupled()
    ensures s.brightness < MaxBrightness ==> Apply(Apply(s, ButtonLightUp), ButtonLightDown) == s
    ensures s.brightness > 0 ==> Apply(Apply(s, ButtonLightDown), ButtonLightUp) == s
  {
  }

  /** The light button flips the flag alone and undoes itself. */
  lemma LightOnOffEffect(s: DeviceState)
    ensures Apply(s, ButtonLightOnOff) == DeviceState(s.brightness, !s.lightOn, s.pump)
    ensures Apply(Apply(s, ButtonLightOnOff), ButtonLightOnOff) == s
  {
  }

  /** The pump buttons flip one axis each, undo themselves, and touch neither brightness nor light. */
  lemma PumpButtonsEffect(s: DeviceState)
    ensures Apply(s, ButtonPumpOnOff).brightness == s.brightness && Apply(s, ButtonPumpOnOff).lightOn == s.lightOn
    ensures Apply(s, ButtonPumpMinMax).brightness == s.brightness && Apply(s, ButtonPumpMinMax).lightOn == s.lightOn
    ensures Apply(s, ButtonPumpOnOff).pump.IsOn() == !s.pump.IsOn()
    ensures Apply(s, ButtonPumpOnOff).pump.IsMax() == s.pump.IsMax()
    ensures Apply(s, ButtonPumpMinMax).pump.IsMax() == !s.pump.IsMax()
    ensures Apply(s, ButtonPumpMinMax).pump.IsOn() == s.pump.IsOn()
    ensures Apply(Apply(s, ButtonPumpOnOff), ButtonPumpOnOff) == s
    ensures Apply(Apply(s, ButtonPumpMinMax), ButtonPumpMinMax) == s
  {
    TogglesAreInvolutions(s.pump);
  }

  /**
   * The light flag is not an invariant of the brightness: the light buttons
   * restore the coupling, the pump buttons and inert replies keep it, and the
   * light on/off button always breaks it.
   */
  lemma CouplingUnderAnswers(s: DeviceState, a: Answer)
    requires s.InRange()
    ensures a.ButtonLightUp? || a.ButtonLightDown? ==> Apply(s, a).Coupled()
    ensures !a.ButtonLightOnOff? && s.Coupled() ==> Apply(s, a).Coupled()
    ensures a.ButtonLightOnOff? ==> Apply(s, a).Coupled() == !s.Coupled()
  {
  }

  // ---------------------------------------------------------------------------
  // Lifecycle of the serial link.
  // ---------------------------------------------------------------------------

  /**
   * Which of the controller's link objects exist: the cancellation source
   * (and whether it was cancelled), the serial port (and whether it is open),
   * and the background send task. Once the send task has ended, its outcome is
   * fixed: `taskFaulted` is Some(true) when it ended cancelled (waiting for it
   * throws) and Some(false) when it ran to completion; None while no Stop has
   * waited for it yet.
   */
  datatype Link = Link(hasCts: bool, cancelRequested: bool, hasPort: bool, portOpen: bool,
                       hasSendTask: bool, taskFaulted: Option<bool>)
  {
    predicate Valid() {
      (cancelRequested ==> hasCts) && (portOpen ==> hasPort) &&
      (hasSendTask ==> hasCts && hasPort) &&
      (taskFaulted.Some? ==> hasSendTask && cancelRequested)
    }

    /** The send loop runs until its cancellation source is cancelled. */
    predicate SendLoopRunning() {
      hasSendTask && !cancelRequested
    }
  }

  const Unstarted: Link := Link(false, false, false, false, false, None)

  /**
   * Start: nothing once the send task exists; otherwise a fresh cancellation
   * source and port, then the port is opened; when opening fails the error
   * reaches the caller and no send task is created.
   */
  function StartLink(l: Link, portOpens: bool): (r: Link)
    requires l.Valid()
    ensures r.Valid()
    ensures l.hasSendTask ==> r == l
    ensures !l.hasSendTask ==> r.hasPort && (r.SendLoopRunning() <==> portOpens) && (r.portOpen <==> portOpens)
  {
    if l.hasSendTask then l
    else if !portOpens then Link(true, false, true, false, false, None)
    else Link(true, false, true, true, true, None)
  }

  /**
   * The outcome of waiting for the send task: the one already fixed, or, at
   * the first wait, `endsCancelled` (whether the cancelled loop ended inside
   * its delay, which is the usual case).
   */
  function WaitOutcome(l: Link, endsCancelled: bool): bool {
    if l.taskFaulted.Some? then l.taskFaulted.value else endsCancelled
  }

  /**
   * Stop as written: cancel, wait for the send task, close the port, all in
   * one try block whose exceptions are swallowed. Waiting for a send task that
   * ended cancelled throws, and then the port is not closed.
   */
  function StopLink(l: Link, endsCancelled: bool): (r: Link)
    requires l.Valid()
    ensures r.Valid()
    ensures !r.SendLoopRunning()
    ensures r.hasSendTask == l.hasSendTask && r.hasPort == l.hasPort
    ensures l.taskFaulted.Some? ==> r.taskFaulted == l.taskFaulted
    ensures r.taskFaulted.Some? <==> l.hasSendTask
    ensures r.portOpen <==> l.portOpen && r.taskFaulted == Some(true)
  {
    var cancelled := if l.hasCts then l.(cancelRequested := true) else l;
    if !l.hasSendTask then cancelled.(portOpen := false)
    else
      var faults := WaitOutcome(l, endsCancelled);
      var waited := cancelled.(taskFaulted := Some(faults));
      if faults then waited else waited.(portOpen := false)
  }

  /** Stop as evidently intended: the port is closed whatever waiting for the task did. */
  function StopIntended(l: Link, endsCancelled: bool): (r: Link)
    requires l.Valid()
    ensures r.Valid()
    ensures !r.SendLoopRunning() && !r.portOpen
    ensures r.hasSendTask == l.hasSendTask && r.hasPort == l.hasPort
  {
    var cancelled := if l.hasCts then l.(cancelRequested := true) else l;
    var waited := if l.hasSendTask then cancelled.(taskFaulted := Some(WaitOutcome(l, endsCancelled))) else cancelled;
    waited.(portOpen := false)
  }

  /** The intended Stop differs from the written one only in always closing the port. */
  lemma StopIntendedClosesWhatStopLinkLeaves(l: Link, endsCancelled: bool)
    requires l.Valid()
    ensures StopIntended(l, endsCancelled) == StopLink(l, endsCancelled).(portOpen := false)
  {
  }

  /** A second Start never creates a second send task or port: at most one send loop ever runs. */
  lemma StartIdempotent(l: Link, first: bool, second: bool)
    requires l.Valid()
    ensures StartLink(l, first).hasSendTask ==> StartLink(StartLink(l, first), second) == StartLink(l, first)
    ensures StartLink(StartLink(l, true), second) == StartLink(l, true)
  {
  }

  /** Stop leaves the send task in place, so a Start after a Stop does nothing: the link cannot be restarted. */
  lemma NoRestartAfterStop(l: Link, endsCancelled: bool, portOpens: bool)
    requires l.Valid() && l.hasSendTask
    ensures StartLink(StopLink(l, endsCancelled), portOpens) == StopLink(l, endsCancelled)
    ensures !StartLink(StopLink(l, endsCancelled), portOpens).SendLoopRunning()
  {
  }

  /** Once a send task exists, a second Stop changes nothing, whatever the timing at the second call. */
  lemma StopIdempotentWithTask(l: Link, first: bool, second: bool)
    requires l.Valid() && l.hasSendTask
    ensures StopLink(StopLink(l, first), second) == StopLink(l, first)
  {
  }

  /** A call on the link: Start (does the port open?) or Stop (does the loop end cancelled?). */
  datatype LinkCall = StartCall(portOpens: bool) | StopCall(endsCancelled: bool)

  /** The link after a run of Start and Stop calls, in order. */
  function RunLink(l: Link, calls: seq<LinkCall>): (r: Link)
    requires l.Valid()
    ensures r.Valid()
    decreases |calls|
  {
    if |calls| == 0 then l
    else
      var next := match calls[0]
        case StartCall(opens) => StartLink(l, opens)
        case StopCall(cancelled) => StopLink(l, cancelled);
      RunLink(next, calls[1..])
  }

  /** After a Stop that leaves the port open, no later run of Starts and Stops changes the link, so the port stays open. */
  lemma {:induction false} PortLeftOpenStaysOpen(l: Link, endsCancelled: bool, later: seq<LinkCall>)
    requires l.Valid()
    requires StopLink(l, endsCancelled).portOpen
    ensures RunLink(StopLink(l, endsCancelled), later) == StopLink(l, endsCancelled)
    ensures RunLink(StopLink(l, endsCancelled), later).portOpen
    decreases |later|
  {
    var s := StopLink(l, endsCancelled);
    if |later| > 0 {
      assert s.hasSendTask && s.taskFaulted == Some(true);
      match later[0] {
        case StartCall(opens) =>
          assert StartLink(s, opens) == s;
        case StopCall(cancelled) =>
          StopIdempotentWithTask(l, endsCancelled, cancelled);
      }
      assert RunLink(s, later) == RunLink(s, later[1..]);
      PortLeftOpenStaysOpen(l, endsCancelled, later[1..]);
    }
  }

  /** As written, Start followed by a Stop whose loop ends cancelled leaves the port open. */
  lemma StopCanLeavePortOpen()
    ensures StartLink(Unstarted, true).SendLoopRunning()
    ensures StopLink(StartLink(Unstarted, true), true).portOpen
  {
  }

  /** The intended Stop closes the port and is idempotent. */
  lemma StopIntendedIdempotent(l: Link, first: bool, second: bool)
    requires l.Valid()
    ensures StopIntended(StopIntended(l, first), second) == StopIntended(l, first)
    ensures !StopIntended(l, first).portOpen
  {
  }
}
