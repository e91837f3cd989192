/*
 * The controller object that mirrors the illumination/pump unit's state and
 * drives the serial link. Its fields are updated in place by the property
 * setters, by the handler of the unit's answers and by Start/Stop; each method
 * states its new state through the pure functions of module BosvProtocol,
 * whose properties are proved there.
 */
module ComControl {
  import opened BosvProtocol

  class ComController {
    /** Port name and baud rate the port is opened with. */
    const portName: string
    const baudRate: int

    // The mirrored device state.
    var brightness: int
    var lightOn: bool
    var pumpState: PumpState

    /** The outbound command buffer, rebuilt in place before every send. */
    var command: array<bv8>

    // Which link objects exist (the cancellation source, the port, the send task).
    var hasCts: bool
    var cancelRequested: bool
    var hasPort: bool
    var portOpen: bool
    var hasSendTask: bool
    /** Whether waiting for the ended send task throws; None until a Stop has waited for it. */
    var taskFaulted: Option<bool>

    /** How many background send loops this controller has spawned. */
    ghost var sendLoopsStarted: nat

    ghost predicate Valid()
      reads this
    {
      0 <= brightness <= MaxBrightness &&
      command.Length == 2 &&
      Lifecycle().Valid() &&
      sendLoopsStarted == (if hasSendTask then 1 else 0)
    }

    function State(): DeviceState
      reads this
    {
      DeviceState(brightness, lightOn, pumpState)
    }

    function Lifecycle(): Link
      reads this
    {
      Link(hasCts, cancelRequested, hasPort, portOpen, hasSendTask, taskFaulted)
    }

    constructor (portName: string := "COM3", baudRate: int := 9600)
      ensures Valid() && fresh(command)
      ensures State() == Initial && command[..] == InitialCommand
      ensures Lifecycle() == Unstarted && sendLoopsStarted == 0
      ensures this.portName == portName && this.baudRate == baudRate
    {
      this.portName := portName;
      this.baudRate := baudRate;
      brightness, lightOn, pumpState := 0, false, OffNormal;
      var c := new bv8[2];
      c[0], c[1] := 0x80, 0x00;
      command := c;
      hasCts, cancelRequested, hasPort, portOpen, hasSendTask := false, false, false, false, false;
      taskFaulted := None;
      sendLoopsStarted := 0;
    }

    // -------------------------------------------------------------------------
    // Properties.
    // -------------------------------------------------------------------------

    /** The brightness getter: always a valid index into the brightness table. */
    function CurrentBrightness(): (b: int)
      reads this
      requires Valid()
      ensures 0 <= b <= MaxBrightness && b < |BrightnessTable|
    {
      brightness
    }

    /** The brightness setter saturates out-of-range values instead of wrapping. */
    method SetCurrentBrightness(value: int)
      requires Valid()
      modifies this`brightness
      ensures Valid()
      ensures brightness == Clamp(value, 0, MaxBrightness)
    {
      brightness := Clamp(value, 0, MaxBrightness);
    }

    /** The light flag is set on its own; the brightness is not touched. */
    method SetLightOn(value: bool)
      requires Valid()
      modifies this`lightOn
      ensures Valid()
      ensures lightOn == value
    {
      lightOn := value;
    }

    /** The IsPumpOn getter: bit 0 of the pump code. */
    function IsPumpOn(): (on: bool)
      reads this
      ensures on == (pumpState.Code() & 0x01 == 0x01)
    {
      pumpState == OnNormal || pumpState == OnMax
    }

    /** The IsPumpMax getter: bit 1 of the pump code. */
    function IsPumpMax(): (max: bool)
      reads this
      ensures max == (pumpState.Code() & 0x02 == 0x02)
    {
      pumpState == OnMax || pumpState == OffMax
    }

    /** The IsPumpOn setter: sets the on/off axis and keeps the power axis. */
    method SetIsPumpOn(value: bool)
      requires Valid()
      modifies this`pumpState
      ensures Valid()
      ensures pumpState == old(pumpState).WithOn(value)
      ensures IsPumpOn() == value && IsPumpMax() == old(IsPumpMax())
    {
      var isMax := IsPumpMax();
      pumpState := if value then (if isMax then OnMax else OnNormal)
                   else (if isMax then OffMax else OffNormal);
    }

    /** The IsPumpMax setter: sets the power axis and keeps the on/off axis. */
    method SetIsPumpMax(value: bool)
      requires Valid()
      modifies this`pumpState
      ensures Valid()
      ensures pumpState == old(pumpState).WithMax(value)
      ensures IsPumpMax() == value && IsPumpOn() == old(IsPumpOn())
    {
      var isOn := IsPumpOn();
      pumpState := if value then (if isOn then OnMax else OffMax)
                   else (if isOn then OnNormal else OffNormal);
    }

    method SetPumpState(state: PumpState)
      requires Valid()
      modifies this`pumpState
      ensures Valid()
      ensures pumpState == state
    {
      pumpState := state;
    }

    /** Sets the brightness, saturated into 0..10; the light flag is not touched. */
    method SetBrightness(level: int)
      requires Valid()
      modifies this`brightness
      ensures Valid()
      ensures brightness == Clamp(level, 0, MaxBrightness)
    {
      brightness := Clamp(level, 0, MaxBrightness);
    }

    // -------------------------------------------------------------------------
    // Outbound command.
    // -------------------------------------------------------------------------

    /** Rebuilds the command buffer in place from the current state. */
    method CreateCommand()
      requires Valid()
      modifies command
      ensures Valid()
      ensures command[..] == EncodeFrame(brightness, pumpState)
    {
      command[0] := BrightnessTable[brightness];
      command[1] := pumpState.Code();
      if brightness >= BoostThreshold {
        command[1] := command[1] + BoostBit;
      }
    }

    /**
     * One pass of the background send loop: rebuild the command and hand it to
     * the port. A failing write is caught and changes nothing.
     */
    method SendTick() returns (written: seq<bv8>)
      requires Valid() && Lifecycle().SendLoopRunning()
      modifies command
      ensures Valid()
      ensures written == command[..] == EncodeFrame(brightness, pumpState)
    {
      CreateCommand();
      written := command[..];
    }

    // -------------------------------------------------------------------------
    // Inbound answers.
    // -------------------------------------------------------------------------

    /** Applies the answer in byte 1 of a reply to the mirrored state. */
    method AnalyzeReceivedData(buffer: seq<bv8>)
      requires Valid()
      modifies this`brightness, this`lightOn, this`pumpState
      ensures Valid()
      ensures State() == Receive(old(State()), buffer)
    {
      if |buffer| < 2 {
        return;
      }
      match Classify(buffer[1]) {
        case OkNoActions =>
        case ButtonLightUp =>
          brightness := Min(brightness + 1, MaxBrightness);
          lightOn := brightness > 0;
        case ButtonLightDown =>
          brightness := Max(brightness - 1, 0);
          lightOn := brightness > 0;
        case ButtonLightOnOff =>
          lightOn := !lightOn;
        case ButtonPumpOnOff =>
          match pumpState {
            case OffNormal => pumpState := OnNormal;
            case OnNormal => pumpState := OffNormal;
            case OffMax => pumpState := OnMax;
            case OnMax => pumpState := OffMax;
          }
        case ButtonPumpMinMax =>
          match pumpState {
            case OffNormal => pumpState := OffMax;
            case OffMax => pumpState := OffNormal;
            case OnNormal => pumpState := OnMax;
            case OnMax => pumpState := OnNormal;
          }
        case InError =>
        case Unlisted(_) =>
      }
    }

    /**
     * The port's data-received handler, given the bytes that were waiting:
     * when there are any, the reply is analysed and then the observers are
     * notified with it.
     */
    method OnDataReceived(available: seq<bv8>) returns (notified: Option<seq<bv8>>)
      requires Valid()
      modifies this`brightness, this`lightOn, this`pumpState
      ensures Valid()
      ensures notified == if |available| > 0 then Some(available) else None
      ensures State() == Receive(old(State()), available)
    {
      notified := None;
      if |available| > 0 {
        AnalyzeReceivedData(available);
        notified := Some(available);
      }
    }

    // -------------------------------------------------------------------------
    // Lifecycle.
    // -------------------------------------------------------------------------

    /**
     * Does nothing once the send task exists. Otherwise creates the
     * cancellation source and the port and opens it; `portOpens` says whether
     * opening succeeds, and `failed` whether its error reached the caller.
     */
    method Start(portOpens: bool) returns (failed: bool)
      requires Valid()
      modifies this`hasCts, this`cancelRequested, this`hasPort, this`portOpen, this`hasSendTask, this`sendLoopsStarted
      ensures Valid()
      ensures Lifecycle() == StartLink(old(Lifecycle()), portOpens)
      ensures failed <==> !old(hasSendTask) && !portOpens
      ensures old(hasSendTask) ==> sendLoopsStarted == old(sendLoopsStarted)
    {
      failed := false;
      if hasSendTask {
        return;
      }
      hasCts, cancelRequested := true, false;
      hasPort, portOpen := true, false;
      if !portOpens {
        failed := true;
        return;
      }
      portOpen := true;
      hasSendTask := true;
      sendLoopsStarted := sendLoopsStarted + 1;
    }

    /**
     * Cancels the send loop, waits for the send task and closes the port, in
     * one block whose exceptions are swallowed. At the first wait,
     * `endsCancelled` says whether the loop ended cancelled (inside its
     * delay), which fixes the task's outcome: waiting for it throws then and
     * at every later Stop, and the close is skipped.
     */
    method Stop(endsCancelled: bool)
      requires Valid()
      modifies this`cancelRequested, this`portOpen, this`taskFaulted
      ensures Valid()
      ensures Lifecycle() == StopLink(old(Lifecycle()), endsCancelled)
    {
      if hasCts {
        cancelRequested := true;
      }
      if hasSendTask {
        if taskFaulted.None? {
          taskFaulted := Some(endsCancelled);
        }
        if taskFaulted.value {
          return;
        }
      }
      portOpen := false;
    }

    /** Stop, then dispose of the port, which closes it whatever Stop did. */
    method Dispose(endsCancelled: bool)
      requires Valid()
      modifies this`cancelRequested, this`portOpen, this`taskFaulted
      ensures Valid()
      ensures Lifecycle() == StopIntended(old(Lifecycle()), endsCancelled)
    {
      Stop(endsCancelled);
      portOpen := false;
    }
  }

  /** A second Start spawns no second send loop, and a Stop ends the one that runs. */
  method ScenarioStartTwice()
  {
    var c := new ComController("COM3", 9600);
    var failed := c.Start(true);
    assert !failed && c.Lifecycle().SendLoopRunning();
    failed := c.Start(true);
    assert !failed && c.sendLoopsStarted == 1;
    c.Stop(false);
    assert !c.Lifecycle().SendLoopRunning() && !c.portOpen;
  }

  /**
   * A session with the unit: three LightUp presses, the UI sets the pump to
   * max, the unit's pump button switches it on; the next command then carries
   * level 3 and the OnMax code without the boost bit.
   */
  method ScenarioLightUpThenPump()
  {
    var c := new ComController("COM3", 9600);
    c.AnalyzeReceivedData([0x00, 0xFE]);
    assert c.State() == DeviceState(1, true, OffNormal);
    c.AnalyzeReceivedData([0x00, 0xFE]);
    assert c.State() == DeviceState(2, true, OffNormal);
    c.AnalyzeReceivedData([0x00, 0xFE]);
    assert c.State() == DeviceState(3, true, OffNormal);

    c.SetIsPumpMax(true);
    assert c.pumpState == OffMax;
    c.AnalyzeReceivedData([0x00, 0xEF]);
    assert c.pumpState == OnMax;

    c.CreateCommand();
    assert c.command[..] == [0xEC, 0x03];
  }
}
