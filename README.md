# BOSV device control: a Dafny model of `ComController`

The operator console talks to the BOSV illumination/pump unit over a serial
port. `ComController` keeps a mirror of the unit's state — a brightness level
0–10, a light on/off flag and a four-valued pump state — and:

- every 200 ms rebuilds a 2-byte command frame from that state and writes it
  to the port (byte 0 from an 11-entry brightness table, byte 1 the pump code
  plus the boost bit 0x08 from brightness level 4 on);
- when the unit answers, classifies byte 1 of the reply (button presses on the
  unit: light up/down, light on/off, pump on/off, pump normal/max; "ok", an
  error code, anything else) and changes the mirrored state accordingly;
- lets the settings window set brightness, light and the two pump axes.

The model has two modules:

- `BosvProtocol` (`bosv_protocol.dfy`): the pure part. `PumpState` with its
  byte code and the axis-preserving setters and toggles; the brightness table
  and `EncodeFrame`, with an inverse `DecodeFrame` that shows the frame
  determines the state; `Classify`/`Decode` for inbound replies; `Apply` and
  `Receive`, the effect of a reply on a `DeviceState`; and the lifecycle of the
  link (`Link`, `StartLink`, `StopLink`).
- `ComControl` (`com_controller.dfy`): the class `ComController` with the
  source's fields (brightness, light flag, pump state, the command buffer as an
  `array<bv8>`, and flags for the cancellation source, the port and the send
  task). Each method mirrors the C# mutator statement by statement and states
  its new state through the functions above; the properties of those functions
  are proved as lemmas. `ScenarioLightUpThenPump` is a client that walks a
  session end to end.

Bytes are `bv8`, so the `+= 0x08` on the pump byte is byte arithmetic as in
C#; `EncodeFrame` proves that it never wraps and equals a bitwise OR.

Three behaviours of the code that a reader may not expect, and that the model
keeps:

- The light flag is not kept equal to `brightness > 0`. The light setter,
  `SetBrightness` and the unit's light on/off button each change one of the
  two alone; only LightUp/LightDown recompute the flag
  (`CouplingUnderAnswers`).
- The error answer 0xBF is declared but has no `case`: it falls into the
  default branch and changes nothing, like any unknown code.
- There is no lock around the shared state; see "Left out".

## Model

| member | source | states |
|---|---|---|
| `BosvProtocol.PumpState.Code` | TryCameraEnguCV/ComController.cs:27-30 | the pump code is at most 0x03, bit 0 is the on/off axis and bit 1 the normal/max axis |
| `BosvProtocol.PumpState.WithOn` | TryCameraEnguCV/ComController.cs:64-70 | the IsPumpOn setter's new state has the asked-for on/off value and the old power value |
| `BosvProtocol.PumpState.WithMax` | TryCameraEnguCV/ComController.cs:76-82 | the IsPumpMax setter's new state has the asked-for power value and the old on/off value |
| `BosvProtocol.PumpState.ToggledOn` | TryCameraEnguCV/ComController.cs:208-222 | the pump on/off button flips on/off and keeps the power axis |
| `BosvProtocol.PumpState.ToggledMax` | TryCameraEnguCV/ComController.cs:228-242 | the pump power button flips normal/max and keeps on/off |
| `BosvProtocol.PumpFromBits` | TryCameraEnguCV/ComController.cs:27-30 | reading two code bits back gives the pump state with exactly that code |
| `BosvProtocol.PumpCodeRoundTrip` | TryCameraEnguCV/ComController.cs:27-30 | every pump state is recovered from its code |
| `BosvProtocol.PumpDeterminedByAxes` | TryCameraEnguCV/ComController.cs:61-83 | two pump states with the same on/off and power projections are equal |
| `BosvProtocol.SettersIdempotent` | TryCameraEnguCV/ComController.cs:61-83 | setting an axis to its current value changes nothing, and of two sets of one axis only the last counts |
| `BosvProtocol.SettersCommute` | TryCameraEnguCV/ComController.cs:61-83 | the IsPumpOn and IsPumpMax setters commute and together fix both projections |
| `BosvProtocol.TogglesAreSetters` | TryCameraEnguCV/ComController.cs:206-244 | each pump button has the same effect as the matching UI setter given the negated projection |
| `BosvProtocol.TogglesAreInvolutions` | TryCameraEnguCV/ComController.cs:206-244 | each pump toggle always changes the state, undoes itself, and the two toggles commute |
| `BosvProtocol.BrightnessTableInjective` | TryCameraEnguCV/ComController.cs:22-25 | the 11 table bytes are distinct, so byte 0 identifies the brightness level |
| `BosvProtocol.EncodeFrame` | TryCameraEnguCV/ComController.cs:126-131 | the frame has 2 bytes, byte 0 is the table entry of the level, byte 1 is the pump code OR 0x08 when the level is at least 4, byte 1 is at most 0x0B, its boost bit is set exactly from level 4 and its low bits are the pump code |
| `BosvProtocol.IndexOf` | TryCameraEnguCV/ComController.cs:128 | the position found holds the byte looked up and is its first occurrence, and no position is found only when the byte is absent |
| `BosvProtocol.DecodeFrame` | TryCameraEnguCV/ComController.cs:126-131 | a frame that reads back yields a brightness level within the table |
| `BosvProtocol.EncodeThenDecode` | TryCameraEnguCV/ComController.cs:126-131 | reading an encoded frame gives back its brightness level and pump state |
| `BosvProtocol.DecodeThenEncode` | TryCameraEnguCV/ComController.cs:126-131 | every frame that reads back is exactly the encoding of what it reads as |
| `BosvProtocol.EncodeFrameInjective` | TryCameraEnguCV/ComController.cs:126-131 | distinct states are sent as distinct frames |
| `BosvProtocol.Classify` | TryCameraEnguCV/ComController.cs:181 | the answer a reply byte is classified as has that byte as its code, and unknown codes are never named answers |
| `BosvProtocol.ClassifyRoundTrip` | TryCameraEnguCV/ComController.cs:32-41 | classifying the code of any well-formed answer gives that answer back |
| `BosvProtocol.Decode` | TryCameraEnguCV/ComController.cs:179-181 | a reply carries an answer exactly when it has at least 2 bytes, and the answer is byte 1 |
| `BosvProtocol.Clamp` | TryCameraEnguCV/ComController.cs:140 | the result lies in [lo, hi], equals the input inside the range and saturates to the nearest end outside it |
| `BosvProtocol.Apply` | TryCameraEnguCV/ComController.cs:177-250 | applying any answer to a state with brightness in 0..10 keeps it in 0..10 |
| `BosvProtocol.Receive` | TryCameraEnguCV/ComController.cs:177-250 | handling any reply keeps the brightness in 0..10 |
| `BosvProtocol.ReceiveAllInRange` | TryCameraEnguCV/ComController.cs:177-250 | after any run of replies the brightness is still a valid table index |
| `BosvProtocol.InertReplies` | TryCameraEnguCV/ComController.cs:179-185 | a reply shorter than 2 bytes, OkNoActions (0xFF), the error code 0xBF and every unlisted code leave the state unchanged |
| `BosvProtocol.ActiveRepliesAct` | TryCameraEnguCV/ComController.cs:187-244 | each of the five button codes changes some in-range state, so the inert replies are exactly those above |
| `BosvProtocol.LightUpEffect` | TryCameraEnguCV/ComController.cs:187-192 | LightUp raises the level by one up to 10, stays at 10 at the top, always leaves the light on and keeps the pump |
| `BosvProtocol.LightDownEffect` | TryCameraEnguCV/ComController.cs:194-199 | LightDown lowers the level by one down to 0, leaves the light on exactly when the old level was at least 2, turns the light off at 0 and keeps the pump |
| `BosvProtocol.LightUpDownInverse` | TryCameraEnguCV/ComController.cs:187-199 | from a coupled state away from the ends, LightUp and LightDown undo each other |
| `BosvProtocol.LightOnOffEffect` | TryCameraEnguCV/ComController.cs:201-204 | the light button negates the flag alone and undoes itself |
| `BosvProtocol.PumpButtonsEffect` | TryCameraEnguCV/ComController.cs:206-244 | each pump button flips its own axis, keeps the other, touches neither brightness nor light, and undoes itself |
| `BosvProtocol.CouplingUnderAnswers` | TryCameraEnguCV/ComController.cs:187-204 | LightUp and LightDown restore light == (level > 0), the other non-light answers keep it, and the light button always flips whether it holds |
| `BosvProtocol.StartLink` | TryCameraEnguCV/ComController.cs:85-121 | once the send task exists Start changes nothing; otherwise the port is created and the send loop runs exactly when opening succeeds |
| `BosvProtocol.StopLink` | TryCameraEnguCV/ComController.cs:252-262 | after Stop the send loop is not running, the task and port still exist, the task's outcome is fixed at the first wait and never changes afterwards, and the port stays open exactly when it was open and waiting for the task throws |
| `BosvProtocol.StopIntended` | TryCameraEnguCV/ComController.cs:252-262 | the corrected Stop leaves the loop stopped and the port closed |
| `BosvProtocol.StopIntendedClosesWhatStopLinkLeaves` | TryCameraEnguCV/ComController.cs:254-261 | the corrected Stop differs from the written one only in always closing the port |
| `BosvProtocol.StopIdempotentWithTask` | TryCameraEnguCV/ComController.cs:256-258 | once a send task exists, a second Stop changes nothing, whatever the timing at the second call, because the task's outcome is already fixed |
| `BosvProtocol.RunLink` | TryCameraEnguCV/ComController.cs:85-121 | any run of Start and Stop calls keeps the link objects consistent |
| `BosvProtocol.PortLeftOpenStaysOpen` | TryCameraEnguCV/ComController.cs:254-261 | after a Stop that leaves the port open, no later run of Starts and Stops changes the link, so the port stays open for good |
| `BosvProtocol.StartIdempotent` | TryCameraEnguCV/ComController.cs:87 | a second Start after one that created the send task changes nothing |
| `BosvProtocol.NoRestartAfterStop` | TryCameraEnguCV/ComController.cs:85-102 | because Stop keeps the send task, a Start after Stop changes nothing and no loop runs |
| `BosvProtocol.StopCanLeavePortOpen` | TryCameraEnguCV/ComController.cs:254-261 | after Start, a Stop whose send loop ends cancelled leaves the port open |
| `BosvProtocol.StopIntendedIdempotent` | TryCameraEnguCV/ComController.cs:252-262 | the corrected Stop closes the port and a second call changes nothing |
| `ComControl.ComController.constructor` | TryCameraEnguCV/ComController.cs:43-47 | a new controller has level 0, light off, pump OffNormal, command 0x80 0x00, no link objects, and keeps its port name and baud rate |
| `ComControl.ComController.CurrentBrightness` | TryCameraEnguCV/ComController.cs:51 | the brightness read is always a valid table index |
| `ComControl.ComController.SetCurrentBrightness` | TryCameraEnguCV/ComController.cs:52 | the new brightness is the value clamped to 0..10; nothing else changes |
| `ComControl.ComController.SetLightOn` | TryCameraEnguCV/ComController.cs:58 | sets the light flag alone |
| `ComControl.ComController.IsPumpOn` | TryCameraEnguCV/ComController.cs:63 | the getter is bit 0 of the pump code |
| `ComControl.ComController.IsPumpMax` | TryCameraEnguCV/ComController.cs:75 | the getter is bit 1 of the pump code |
| `ComControl.ComController.SetIsPumpOn` | TryCameraEnguCV/ComController.cs:64-70 | afterwards IsPumpOn is the value and IsPumpMax is unchanged |
| `ComControl.ComController.SetIsPumpMax` | TryCameraEnguCV/ComController.cs:76-82 | afterwards IsPumpMax is the value and IsPumpOn is unchanged |
| `ComControl.ComController.SetPumpState` | TryCameraEnguCV/ComController.cs:133-136 | sets the pump state alone |
| `ComControl.ComController.SetBrightness` | TryCameraEnguCV/ComController.cs:138-141 | the new brightness is the level clamped to 0..10; the light flag is untouched |
| `ComControl.ComController.CreateCommand` | TryCameraEnguCV/ComController.cs:126-131 | the command buffer, updated in place, holds EncodeFrame of the current level and pump state |
| `ComControl.ComController.SendTick` | TryCameraEnguCV/ComController.cs:104-118 | one pass of the send loop writes the encoding of the current state |
| `ComControl.ComController.AnalyzeReceivedData` | TryCameraEnguCV/ComController.cs:177-250 | the new mirrored state is Receive of the old one and the reply; the brightness stays in 0..10 |
| `ComControl.ComController.OnDataReceived` | TryCameraEnguCV/ComController.cs:148-172 | observers are notified with the reply exactly when bytes were waiting, after the state was updated from it |
| `ComControl.ComController.Start` | TryCameraEnguCV/ComController.cs:85-121 | the link moves as StartLink says, and the open error reaches the caller only on a first start; when the send task already exists the spawned-loop counter is unchanged, and since Stop cannot clear the task, at most one send loop is ever spawned |
| `ComControl.ComController.Stop` | TryCameraEnguCV/ComController.cs:252-262 | the link moves as StopLink says, recording the send task's outcome at the first wait |
| `ComControl.ComController.Dispose` | TryCameraEnguCV/ComController.cs:264-269 | Stop followed by disposing of the port has the effect of the corrected Stop |

## Findings

| source | as written | input that shows it | evidently intended | confidence | as-written member | corrected member |
|---|---|---|---|---|---|---|
| TryCameraEnguCV/ComController.cs:254-261 | `Cancel()`, `_sendTask.Wait()` and `Close()` share one try block with an empty catch | `Start()` with the port opening, then `Stop()`: the cancelled `Task.Delay` ends the send task as cancelled, `Wait()` throws, and `Close()` is skipped; the task's status is then fixed, so every later `Stop()` does the same | Stop closes the port whatever waiting for the task does | not executed; medium (rests on `Task.Wait` throwing for a cancelled task) | `BosvProtocol.StopLink`, shown by `BosvProtocol.StopCanLeavePortOpen` and `BosvProtocol.PortLeftOpenStaysOpen` | `BosvProtocol.StopIntended`, proved by `BosvProtocol.StopIntendedIdempotent` and used by `ComControl.ComController.Dispose` |

`ComControl.ComController.Stop` itself follows the code as written, with
`endsCancelled` standing for whether the send loop ends cancelled, which
decides at the first wait whether waiting throws then and ever after.

## Left out

- Serial-port I/O: creating and configuring the port (port name, baud rate,
  8N1, ASCII encoding, read timeout), `Open`, `Write`, `Read`, `BytesToRead`,
  `Close` and `Dispose`. These are library calls; the model keeps only whether
  the port exists and is open. Whether opening succeeds and whether the cancelled
  send loop ends inside its delay (so that waiting for it throws) are method
  parameters; the latter is read only at the first wait and then kept. Inbound data is a `seq<bv8>`
  parameter.
- The background send loop as a task: `Task.Run`, `Task.Delay(200)`, the
  cancellation token and its timing are concurrency. One pass of the loop is
  `SendTick`, and cancellation is a flag.
- Locking: the source uses no lock around the brightness, light and pump
  fields shared by the send task, the receive handler and the UI, so there is
  no mutual-exclusion discipline to model. Each method is modelled as running
  alone.
- Exceptions from `Write` and `Read` are caught and only logged; they change
  no state, so the model omits them.
- `Debug.WriteLine` logging, hex formatting of the reply and the
  `DataReceived` event's subscribers: side channels. `OnDataReceived` returns
  the payload the event is raised with.
- Disposal of the cancellation source, and the port object after `Dispose`:
  only the port's closing is modelled.
- `SetPumpState`: a C# enum variable can hold any byte; the model's
  `PumpState` has only the four named values, the only ones the code produces.
- `MainWindowUsersFunctions.cs` calls `StopAsync`, which `ComController` does
  not define; that caller is not part of this model, nor are the settings
  window, image processing, user selection, settings files and logging.
