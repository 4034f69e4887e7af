# Verified models of the robot's safety logic

This project models, in Dafny, the parts of the robot's software that decide what moves, what stops
and what is kept, and proves what they promise over whole runs. `dafny verify dfyconfig.toml` checks
everything. Nothing here drives hardware or is linked into the program.

## How it is built

Each stateful component is written twice. A *model* file has a record for its state and one pure
function per operation; everything the outside world decides (whether a write works, what comes back
over the line, what the clock reads) is a parameter. A *class* file follows the source statement by
statement on mutable fields and proves that each method has exactly the effect of the model's function.
The *laws* are lemmas about the model's functions over every sequence of calls, so they hold of the
classes too.

| component | files |
|---|---|
| DDT motor driver: frames, answer search, current loop, runaway guard, driver | `DdtProtocol`, `FeedbackReader`, `CurrentPi`, `PiLaws`, `RunawayGuard`, `GuardLaws`, `MotorModel`, `MotorCommands`, `MotorMemory`, `MotorTrace`, `MotorLaws`, `MotorLimits`, `MotorStops`, `MotorSetters`, `MotorBlind`, `MotorDriver` |
| Servo bus (Modbus RTU) | `ModbusProtocol`, `KnownFrames` (both buses) |
| LAB drive session | `DriveModel`, `DriveLaws`, `DriveEnds`, `DriveSession` |
| Drive records: automatic recorder, store, writer queue | `RecorderModel`, `RecorderMotion`, `AutoRecorder`, `RecordStore`, `BoundedWriter` |
| Blockly plan runner | `PlanRunner`, `PlanLaws`, `PlanActs`, `PlanCompletion`, `PlanBridge` |
| PWM channel ownership | `PwmModel`, `PwmLaws`, `PwmActs`, `PwmOutput` |

**The motor driver** keeps, for each motor, a trace of every frame handed to the serial line, every
transaction's end with its clock reading and the bytes taken from the line, every sample the guard was
shown, and every latch, reset, registration and stop time. `MotorTrace.Read` folds a trace into all that
the next event may depend on; `MotorTrace.Lawful` says of each event that what came before permits it,
and the laws about whole runs of the driver are read off lawful traces. A transaction is a number of write attempts
and an outcome: not written, written but not drained, or drained and followed by some bytes; whether it
was answered is decided by those bytes. The class keeps the clock readings of all traces in order.

`MotorCommands` says what a call hands over in terms of the frames alone: `Says` reads a frame's bytes,
`Commanded` is one transaction with such a frame, and each operation is characterised by the transactions
it makes. `PiLaws` and `GuardLaws` do the same for the current and for the guard's samples.

**PWM ownership** is a protocol against crashes. Every call is a straight list of file operations; a run
is any number of calls of which each is carried out up to some operation, which then fails or at which
the machine stops and a new process comes up. The two marker files are exact state; what the channel's
attributes read and whether writing them works is arbitrary.

**The plan runner** and **the drive session** are driven by calls with arbitrary arguments and clock
readings; **the writer queue** by arbitrary interleavings of submitters and workers.

### What turned out not to hold as one might expect

* `stopMotor` in velocity mode can skip its write although no stop was sent within the resend interval:
  a feedback refresh whose resend fails still renews the time of the last stop
  (`MotorStops.FailedRefreshHidesOldStop`). `MotorStops.SkippedStopIsBacked` says, with its times, that
  this is the only case.
* A driving frame that was written but whose transaction reports failure is not remembered, so a stop
  right after it can be skipped (`MotorStops.UnreportedDriveHidesFromStop`).
  `MotorStops.SkippedStopIsLastCommand` says that this is the only case.
* The three silences bound driving without answers only as far as transactions report success. One that
  is written but not drained is neither counted nor does it trip anything, so a run can hand any number
  of nonzero current frames over in a row (`MotorBlind.UndrainedDrivingIsUnbounded`).
  `MotorTrace.BlindHandingIsBounded` bounds them by such failures.
* Four saturations in alternating directions within half a second are not always reported, since a
  record may be in the list already that points the way the first of them does. Every report is founded
  on four (`RunawayGuard.OscillationIsFourSwings`), and five are always reported
  (`RunawayGuard.FiveSwingsOscillate`).
* The clamp on the PI integral is a bound only while its limit stays; a lowered limit is ignored while
  the output is saturated (`MotorSetters.LoweredLimitIsIgnoredWhileSaturated`;
  `CurrentPi.IntegralBoundNeedsFixedLimit` has the exact condition).
* The drive session stores a command without an owner exactly for a request made in nobody's name
  (`DriveLaws.OnlyNobodysRequestIsStored`). The bridge passes a page's number with every request
  (`questix_lab_bridge/questix_lab_bridge/bridge_node.py:437`), so from there it cannot happen
  (`DriveLaws.IdleMeansZero`).
* A PWM start that fails after its set-up, without a crash, leaves a process that may still send pulses
  although it will never own the channel (`PwmLaws.TrustedCanStillPulse`). The marker files stay as they
  are, and no start ever succeeds again (`PwmLaws.PendingIsNeverCommitted`).
* In the plan runner the remembered `controller_neutral` has no influence on anything that is published
  (`PlanLaws.NeutralIsNotNeeded`).
* The comment on `_find_read_frame` says an echoed request has the register count as its third byte; the
  third byte of a request is the high byte of the address. The model follows the code, which looks at
  the third byte.

## Model

| member | source | states |
|---|---|---|
| DdtProtocol.Crc8Maxim | motor_control_lib/src/ddt_protocol.cpp:10-23 | the byte and bit loops compute the CRC-8/MAXIM remainder defined recursively over the message |
| DdtProtocol.CrcLinear | motor_control_lib/src/ddt_protocol.cpp:10-23 | for messages of one length the CRC is linear: the CRC of the flipped bits is the XOR of the CRCs |
| DdtProtocol.UnnoticedErrors | motor_control_lib/src/ddt_protocol.cpp:10-23 | two messages of one length have the same CRC exactly if the CRC of their flipped bits is 0 |
| DdtProtocol.BurstNoticed | motor_control_lib/src/ddt_protocol.cpp:10-23 | no error within any 8 consecutive bits of a message of any length leaves the CRC unchanged |
| DdtProtocol.CrcKeepsParity | motor_control_lib/src/ddt_protocol.cpp:10-23 | the parity of the CRC is the parity of the message, whatever its length |
| DdtProtocol.OddFlipsNoticed | motor_control_lib/src/ddt_protocol.cpp:10-23 | no error that flips an odd number of bits leaves the CRC unchanged |
| DdtProtocol.CheckedIsZeroResidue | motor_control_lib/src/ddt_protocol.cpp:81-94 | a ten-byte frame carries its own CRC exactly if the CRC over all ten bytes is 0 |
| DdtProtocol.DamagedFrameRejected | motor_control_lib/src/ddt_protocol.cpp:81-94 | a good frame damaged within 8 consecutive bits, its CRC byte included, is never a good frame |
| DdtProtocol.CommandFrames | motor_control_lib/src/ddt_protocol.cpp:37-71 | both command frames check, and are stop frames exactly if their signed value is 0 |
| DdtProtocol.CommandCarriesValue | motor_control_lib/src/ddt_protocol.cpp:37-66 | the motor reads back from bytes 2 and 3 of either frame the signed value that was commanded |
| DdtProtocol.ModeFramesAreNotCommands | motor_control_lib/src/ddt_protocol.cpp:25-35 | no mode frame, old or new layout, is ever taken for a stop command |
| DdtProtocol.ParseInvertsAnswer | motor_control_lib/src/ddt_protocol.cpp:81-106 | a frame parses as an answer exactly if it is that motor's encoding of that answer |
| DdtProtocol.DamagedAnswerNeverParsed | motor_control_lib/src/ddt_protocol.cpp:81-106 | an answer damaged within 8 consecutive bits never parses, for any motor |
| KnownFrames.Crc8OfDigits | motor_control_lib/src/ddt_protocol.cpp:10-23 | the check value of the CRC-8 is that of CRC-8/MAXIM, 0xA1 |
| KnownFrames.HundredRpmFrame | motor_control_lib/src/ddt_protocol.cpp:37-52 | the frame for 100 rpm is this one, byte for byte, check byte included |
| MotorCommands.VelocityFrameSays | motor_control_lib/src/ddt_protocol.cpp:37-52 | a velocity frame is a checked frame for its motor, with the speed in bytes 2 and 3, the acceleration time in byte 6 and 0xFF in byte 7 exactly for a brake |
| MotorCommands.CurrentFrameSays | motor_control_lib/src/ddt_protocol.cpp:54-66 | a current frame is a checked frame for its motor, with the current in bytes 2 and 3 and nothing after it |
| FeedbackReader.ReadFeedbackFrame | motor_control_lib/src/ddt_motor_lib.cpp:871-930 | whatever the chunks, the in-place buffer yields exactly the leftmost valid ten-byte window of this motor, consumed through its last byte; on a timeout no window delivered was valid |
| FeedbackReader.TakeByte | motor_control_lib/src/ddt_motor_lib.cpp:891-922 | one byte appended, with the slide to the next id byte after a bad CRC, keeps the buffer the one window not ruled out yet |
| FeedbackReader.ChunkingIsInvisible | motor_control_lib/src/ddt_motor_lib.cpp:871-930 | two reads of one stream that both find a frame find the same one at the same place, however it was chunked |
| FeedbackReader.CompleteStreamDecides | motor_control_lib/src/ddt_motor_lib.cpp:871-930 | once the whole stream was read, a frame was returned exactly if the stream holds a valid window |
| FeedbackReader.FrameReadIsParsed | motor_control_lib/src/ddt_motor_lib.cpp:932-948 | the frame the reader returns always parses, so the second check never fails |
| FeedbackReader.OnlyDamagedAnswers | motor_control_lib/src/ddt_motor_lib.cpp:871-930 | if every window of the stream that starts with the id is an answer damaged within 8 bits, nothing is returned |
| CurrentPi.PiState.StepToRaw | motor_control_lib/src/ddt_current_pi.cpp:45-78 | the in-place update of the integral and the outputs are the step of the model |
| CurrentPi.RawIsNearest | motor_control_lib/src/ddt_current_pi.cpp:34-43 | up to 8 A the raw value is within half a step of the current; beyond that it is the end of the range |
| CurrentPi.RawRoundTrip | motor_control_lib/src/ddt_current_pi.cpp:34-43 | converting a raw value of the symmetric range to amperes and back gives it again |
| CurrentPi.RawMonotone | motor_control_lib/src/ddt_current_pi.cpp:34-43 | a larger current never gets a smaller raw value |
| CurrentPi.IntegralFollowsError | motor_control_lib/src/ddt_current_pi.cpp:45-71 | the integral moves only towards the error and stays put while the output is saturated that way |
| CurrentPi.IntegralBoundNeedsFixedLimit | motor_control_lib/src/ddt_current_pi.cpp:45-71 | after a step that was not frozen the integral is within the present limit; a frozen one keeps what it had |
| CurrentPi.RawWithinLimit | motor_control_lib/src/ddt_current_pi.cpp:45-78 | what a step sends is at most what the current limit converts to |
| PiLaws.FasterMotorGetsLess | motor_control_lib/src/ddt_current_pi.cpp:45-78 | for a `kp` that is not negative, and whatever the target and the integral, a motor that turns faster never gets more current; for a positive one it gets strictly less unless both commands stand at the same limit |
| PiLaws.HigherTargetGetsMore | motor_control_lib/src/ddt_current_pi.cpp:45-78 | under the same gains and friction terms that are not negative, a higher target never gets less current, and for a positive `kp` strictly more unless both commands stand at the same limit |
| PiLaws.StepIsOdd | motor_control_lib/src/ddt_current_pi.cpp:45-78 | with integral, target and measurement negated, command, raw value and new integral are negated |
| PiLaws.ProportionalAlone | motor_control_lib/src/ddt_current_pi.cpp:45-62 | without friction terms and integral the command is `kp` times what is missing in speed, up to the limit, and has its sign |
| PiLaws.CommandIsTheSum | motor_control_lib/src/ddt_current_pi.cpp:45-71 | within the limit the command is the friction term, `kp` times the error and the new integral; the integral moves by `ki` times error and time, up to its limit, and is held exactly while the command is cut off in the direction of the error |
| PiLaws.StandingErrorIsAnswered | motor_control_lib/src/ddt_current_pi.cpp:45-71 | a motor that stays too slow gets the full current in the end: after any number of steps the command stands at its limit, or the integral at its own, or it has grown by every step |
| PiLaws.FrictionTerm | motor_control_lib/src/ddt_current_pi.cpp:25-32 | the friction term is odd in the target, proportional up to 10 rpm, and has its whole static part from there on |
| MotorSetters.LoweredLimitIsIgnoredWhileSaturated | motor_control_lib/src/ddt_motor_lib.cpp:587-598 | a run of the driver, from initialisation over an answered drive and `setCurrentControlParams` to another drive, after which the integral exceeds the limit in force |
| CurrentPi.RunStaysBounded | motor_control_lib/src/ddt_current_pi.cpp:45-78 | over any run with fixed limits the integral and every command stay within their limits |
| CurrentPi.SaturatedRunFreezesIntegral | motor_control_lib/src/ddt_current_pi.cpp:45-71 | through any stretch saturated in the error's direction the integral does not change |
| RunawayGuard.GuardState.UpdateGuard | motor_control_lib/src/ddt_current_pi.cpp:102-172 | the fields and the fixed array change exactly as the model's unbounded list, and the verdict is the model's |
| RunawayGuard.GuardState.ForgetOld | motor_control_lib/src/ddt_current_pi.cpp:141-153 | the in-place shift drops exactly the expired records |
| RunawayGuard.GuardState.CheckOscillation | motor_control_lib/src/ddt_current_pi.cpp:154-170 | the record of a new saturation direction, the full array included |
| RunawayGuard.TripIsDecidedByHistory | motor_control_lib/src/ddt_current_pi.cpp:102-172 | each verdict is a property of the history of samples, each with the parameters in force at its time: sped up against the current, stayed too fast, or saturated in alternating directions often enough within the window |
| RunawayGuard.AgainstPart | motor_control_lib/src/ddt_current_pi.cpp:106-123 | the running growth is the largest net speed-up over any stretch of braking that ends now |
| RunawayGuard.OverspeedPart | motor_control_lib/src/ddt_current_pi.cpp:125-137 | the overspeed fields describe the one episode the history is in |
| RunawayGuard.OscillationPart | motor_control_lib/src/ddt_current_pi.cpp:139-172 | the array is the window of the log of saturation switches, and the report comes exactly when that window reaches the limit |
| RunawayGuard.RecordsAlternate | motor_control_lib/src/ddt_current_pi.cpp:154-170 | the records within the window have a sign, and each points the other way than the one before it |
| RunawayGuard.OscillationIsFourSwings | motor_control_lib/src/ddt_current_pi.cpp:139-172 | whenever oscillation is reported, the history holds four samples within the last half second at which the command was saturated, each the other way than the one before |
| RunawayGuard.FiveSwingsOscillate | motor_control_lib/src/ddt_current_pi.cpp:139-172 | five saturations in alternating directions within the last half second, whatever lies between them, are always an oscillation |
| RunawayGuard.WindowIsSuffix | motor_control_lib/src/ddt_current_pi.cpp:139-153 | for ordered times the records within the window are a suffix of the log, and exactly those in time |
| RunawayGuard.WatchFindsFirstReason | motor_control_lib/src/ddt_current_pi.cpp:102-172 | from a fresh guard on, the first trip of a run is at the first sample whose history gives a reason, and with that reason |
| RunawayGuard.ChainedGainTelescopes | motor_control_lib/src/ddt_current_pi.cpp:116-123 | for samples that chain, the net gain is the speed at the end less the speed at the start |
| GuardLaws.BrakingMeans | motor_control_lib/src/ddt_current_pi.cpp:106-116 | a sample counts as braking exactly if the motor turned one way at 5 rpm or more, still turns that way, and at least 0.05 A, or half the limit where that is less, flowed the other way |
| GuardLaws.ExceedsMeans | motor_control_lib/src/ddt_current_pi.cpp:125-126 | too fast is faster than the size of the target by more than the margin, either way round |
| GuardLaws.SaturatedMeans | motor_control_lib/src/ddt_current_pi.cpp:154-157 | saturated is a command of at least 95 percent of the limit, either way round |
| GuardLaws.ReasonsInNumbers | motor_control_lib/src/ddt_current_pi.cpp:116-172 | the three reasons in numbers: 30 rpm gained net, no more than 3 rpm lost over the time allowed, four swings within half a second |
| GuardLaws.GuardIsSymmetric | motor_control_lib/src/ddt_current_pi.cpp:102-172 | a history and its mirror image are judged alike, with mirrored records |
| MotorDriver.DdtMotorLib.SendFrameWithFeedback | motor_control_lib/src/ddt_motor_lib.cpp:754-816 | one transaction: at most three writes, remembered only when it reports success, and counted as answered exactly if the bytes then taken from the line end in a checked answer of this motor |
| MotorDriver.DdtMotorLib.AwaitAnswer | motor_control_lib/src/ddt_motor_lib.cpp:781-816 | what is stored and counted after the frame is out is decided by the bytes taken from the line |
| MotorDriver.DdtMotorLib.ReceiveAnswer | motor_control_lib/src/ddt_motor_lib.cpp:784-794 | the answer is the first one the bytes taken hold, with its id and checksum, and nothing behind it was taken |
| MotorDriver.DdtMotorLib.CountResponse | motor_control_lib/src/ddt_motor_lib.cpp:818-824 | the counter of silent transactions is reset by an answer and raised by a silence |
| MotorDriver.DdtMotorLib.SendCommand | motor_control_lib/src/ddt_motor_lib.cpp:986-1004 | up to three writes of a mode frame, ending with the first whole one; true exactly if there was one and it was drained |
| MotorDriver.DdtMotorLib.SendMotorVelocity | motor_control_lib/src/ddt_motor_lib.cpp:716-737 | the clamped velocity frame goes out as one transaction |
| MotorDriver.DdtMotorLib.SendMotorCurrentRaw | motor_control_lib/src/ddt_motor_lib.cpp:739-752 | the current frame goes out as one transaction |
| MotorCommands.VelocityIsSent | motor_control_lib/src/ddt_motor_lib.cpp:716-737 | a speed goes out within the limit, as often as it was written, and is remembered exactly if that succeeded; nothing else of the motor changes but what it answers |
| MotorCommands.CurrentIsSent | motor_control_lib/src/ddt_motor_lib.cpp:739-752 | the same for a raw current, which is kept for the guard exactly if it succeeded |
| MotorCommands.AnswerIsRecorded | motor_control_lib/src/ddt_motor_lib.cpp:932-976 | what a motor puts on the line about its mode, speed and fault is what the driver has on record after the transaction |
| MotorDriver.DdtMotorLib.ResetCurrentPiStateForStop | motor_control_lib/src/ddt_motor_lib.cpp:103-111 | clears the integral, the slew, the clock and the guard of this motor and nothing else |
| MotorDriver.DdtMotorLib.CommandCurrentMode | motor_control_lib/src/ddt_motor_lib.cpp:177-283 | one cycle of the current loop on the maps is the model's cycle, with its checks of latch, mode and silence |
| MotorCommands.CurrentIsWithheld | motor_control_lib/src/ddt_motor_lib.cpp:177-243 | while latched or unheard, for another reported loop, or at rest, current 0 goes out and the loop starts anew; another loop latches the motor |
| MotorCommands.CurrentIsCommanded | motor_control_lib/src/ddt_motor_lib.cpp:245-283 | otherwise the step of the loop towards the slewed target goes out; the guard is shown the speed before, the speed of the answer, the current last given and the one commanded now, and its verdict is carried out |
| MotorCommands.CurrentCorrectsSpeed | motor_control_lib/src/ddt_motor_lib.cpp:826-869 | so with `kp` alone the raw current pushes a slow motor on and brakes a fast one, by `kp` per rpm to half a raw step |
| MotorMemory.AppliedIsLastGiven | motor_control_lib/src/ddt_motor_lib.cpp:245-262 | over every run the current the guard takes to have flowed is the value of the last current frame that succeeded |
| MotorDriver.DdtMotorLib.LimitSlew | motor_control_lib/src/ddt_motor_lib.cpp:203-233 | the slew limit on the maps, its time step and its rounding are the model's |
| MotorCommands.SlewCoversTheWay | motor_control_lib/src/ddt_motor_lib.cpp:203-233 | the target covers the way to the request at the permitted rate in the time since the last step, or 10 ms where that cannot be, and stops there; at first it starts from the measured speed |
| MotorLimits.SlewIsLimited | motor_control_lib/src/ddt_motor_lib.cpp:203-233 | one call moves the target towards the request, never past it, by at most the permitted acceleration times the time it takes to have passed, and reaches it if that suffices |
| MotorLimits.TargetRateIsLimited | motor_control_lib/src/ddt_motor_lib.cpp:203-233 | over any run of calls that follow each other by 0.2 s at most, whatever is asked for, the target moves by at most the permitted acceleration times the time between the first and the last |
| MotorDriver.DdtMotorLib.RunCurrentLoopStep | motor_control_lib/src/ddt_motor_lib.cpp:826-869 | the PI step with its sanitised time step, stored for this motor only |
| MotorDriver.DdtMotorLib.TripCurrentGuard | motor_control_lib/src/ddt_motor_lib.cpp:285-320 | latches the trip, resets the loop and sends current 0 |
| MotorDriver.DdtMotorLib.InitializeMotor | motor_control_lib/src/ddt_motor_lib.cpp:362-430 | releases the latch, starts the records anew, sets the mode and falls back to the old frame as the model says |
| MotorCommands.InitialisationIsStill | motor_control_lib/src/ddt_motor_lib.cpp:362-430 | all that goes out while a motor is initialised is mode frames for this motor and mode, and frames of that mode that ask for 0 |
| MotorCommands.InitialisationIsConfirmed | motor_control_lib/src/ddt_motor_lib.cpp:362-430 | it succeeds exactly if the mode frame went out and, for current mode, the answer that counts reports the current loop; what the record is then, and after each failure |
| MotorDriver.DdtMotorLib.SetControlMode | motor_control_lib/src/ddt_motor_lib.cpp:566-585 | the mode frame is sent and the mode remembered as the model says |
| MotorDriver.DdtMotorLib.SetMotorVelocity | motor_control_lib/src/ddt_motor_lib.cpp:147-175 | a velocity request, with the first-use initialisation and both modes |
| MotorCommands.VelocityIsCommanded | motor_control_lib/src/ddt_motor_lib.cpp:147-175 | in velocity mode, or once initialised to it, every frame handed over carries the requested speed, sign and all, within the limit and without brake; the call returns whether that succeeded and then remembers it |
| MotorCommands.CurrentTakesTarget | motor_control_lib/src/ddt_motor_lib.cpp:166-172 | in current mode the request, within the speed limit, is the target of the loop |
| MotorMemory.DrivingNeedsMode | motor_control_lib/src/ddt_motor_lib.cpp:147-175 | over every run a frame that drives the motor is handed over only after a whole mode frame and after the last shutdown |
| MotorDriver.DdtMotorLib.StopMotor | motor_control_lib/src/ddt_motor_lib.cpp:432-466 | the stop of both modes, with the skip of a repeated stop, on a trace whose clock readings are in order |
| MotorCommands.StopIsCommanded | motor_control_lib/src/ddt_motor_lib.cpp:432-466 | it does nothing exactly in velocity mode after a successful stop frame within the resend interval; else one stop of the mode's own kind goes out, with brake as set, the loop starts anew, and the result is that of the transaction |
| MotorDriver.DdtMotorLib.StopMotorNow | motor_control_lib/src/ddt_motor_lib.cpp:468-484 | the stop that never skips |
| MotorCommands.StopNowIsCommanded | motor_control_lib/src/ddt_motor_lib.cpp:468-484 | that stop always goes out |
| MotorDriver.DdtMotorLib.EmergencyStop | motor_control_lib/src/ddt_motor_lib.cpp:130-145 | every motor with a velocity is stopped by one transaction, all others are left alone |
| MotorCommands.EmergencyIsCommanded | motor_control_lib/src/ddt_motor_lib.cpp:130-145 | what goes out to each such motor is a stop of its mode, and in current mode its loop starts anew |
| MotorDriver.DdtMotorLib.StopAllMotors | motor_control_lib/src/ddt_motor_lib.cpp:492-500 | every such motor is stopped, and the result is true exactly if all stops were |
| MotorDriver.DdtMotorLib.RefreshMotorFeedback | motor_control_lib/src/ddt_motor_lib.cpp:1117-1174 | writes only the cached stop frame, and only when the decision says so |
| MotorCommands.RefreshIsCommanded | motor_control_lib/src/ddt_motor_lib.cpp:1117-1174 | the line is touched exactly if the feedback is too old, the last frame was a stop and it is not within the resend interval, and then by that very frame; the result says whether the feedback is young enough in the end |
| MotorDriver.DdtMotorLib.SetCurrentControlParams | motor_control_lib/src/ddt_motor_lib.cpp:587-598 | clamps the parameters and releases all latches; no integral is touched |
| MotorDriver.DdtMotorLib.Shutdown | motor_control_lib/src/ddt_motor_lib.cpp:70-85 | stops, then forgets every motor |
| MotorCommands.ShutdownForgets | motor_control_lib/src/ddt_motor_lib.cpp:70-85 | after it a motor is as unknown as at the start, but for the time of the last stop |
| MotorDriver.DdtMotorLib.IsHealthy | motor_control_lib/src/ddt_motor_lib.cpp:87-101 | true exactly if initialised, with no fault reported and no latch held by any motor |
| MotorCommands.AnswerTellsHealth | motor_control_lib/src/ddt_motor_lib.cpp:87-101 | after an answer a motor counts as healthy exactly if it is not latched and the answer names no fault |
| MotorMemory.CountersAreRight | motor_control_lib/src/ddt_motor_lib.cpp:781-816 | over every run the counters are the numbers of answered and of silent transactions since the motor was last forgotten |
| MotorLaws.EveryRunIsLawful | motor_control_lib/src/ddt_motor_lib.cpp:147-500 | after any sequence of calls with any outcomes the motor's trace is lawful and its fields say what the trace says, the guard and the time of the last stop included |
| MotorTrace.TripSilencesTheMotor | motor_control_lib/src/ddt_motor_lib.cpp:177-182 | from a trip until the latch is released every command frame handed to the motor carries 0 |
| MotorLaws.LatchOutlastsCalls | motor_control_lib/src/ddt_motor_lib.cpp:87-182 | whatever is called after a trip with whatever outcomes, until a mode frame goes out to initialise the motor, a clearing setter or shutdown the latch holds, every command frame handed over carries 0 and the driver is not healthy |
| MotorLaws.TripIsUnhealthy | motor_control_lib/src/ddt_motor_lib.cpp:87-101 | for that long the driver is not healthy and the motor is in current mode |
| MotorTrace.DrivingNeedsFreshEvidence | motor_control_lib/src/ddt_motor_lib.cpp:177-201 | a nonzero current frame is handed over only while an answer stands that was found, checksum and all, in the bytes taken from the line and reported the current loop, with fewer than three silences since |
| MotorTrace.UnansweredCountsSilence | motor_control_lib/src/ddt_motor_lib.cpp:818-824 | the counter is the number of successful transactions without an answer since the answer that stands |
| MotorTrace.BlindDrivingIsBounded | motor_control_lib/src/ddt_motor_lib.cpp:192-201 | in any stretch without answers, re-initialisations and shutdowns included, at most three driving transactions report success |
| MotorTrace.BlindHandingIsBounded | motor_control_lib/src/ddt_motor_lib.cpp:754-779 | in any such stretch the nonzero current frames handed over are at most three for each of three successes and of the transactions that failed after handing one over |
| MotorBlind.UndrainedDrivingIsUnbounded | motor_control_lib/src/ddt_motor_lib.cpp:776-778 | for every n a run of the driver that, after one answer, hands n nonzero current frames over with no answer, no success and no trip among them |
| MotorTrace.TripHasReason | motor_control_lib/src/ddt_motor_lib.cpp:267-282 | after each sample the driver trips at once exactly if the samples since the last reset give a reason, each judged by the parameters in force at its time, and with that reason |
| MotorLaws.NoReasonBetweenCalls | motor_control_lib/src/ddt_motor_lib.cpp:267-282 | between calls the samples since the last reset never give a reason: every sample that did has been acted upon |
| MotorTrace.EveryTripIsFounded | motor_control_lib/src/ddt_motor_lib.cpp:197-201 | every trip follows such a sample, or an answer standing that did not report the current loop |
| MotorLimits.EveryCallIsWithin | motor_control_lib/src/ddt_motor_lib.cpp:716-752 | every current frame carries at most what the current limit in force converts to, every velocity frame at most the speed limit in force, and a resent frame is a stop |
| MotorTrace.LastCommandIsStop | motor_control_lib/src/ddt_motor_lib.cpp:754-784 | when the latest success was a stop, the last frame handed over is a stop exactly unless the last transaction that handed one over drove the motor and reported failure |
| MotorStops.SkippedStopIsLastCommand | motor_control_lib/src/ddt_motor_lib.cpp:440-452 | the same for a skipped stop: exactly then is the last frame handed to the motor a stop |
| MotorStops.SkippedStopIsBacked | motor_control_lib/src/ddt_motor_lib.cpp:432-466 | for a clock that never goes back: a skipped stop means the stop time was taken less than the resend interval ago, and a stop succeeded in or after the transaction it was taken for exactly unless that was a resend that failed, with no success since |
| MotorStops.FailedRefreshHidesOldStop | motor_control_lib/src/ddt_motor_lib.cpp:1155-1174 | a run in which a stop is skipped 10 s after the last one was sent |
| MotorStops.UnreportedDriveHidesFromStop | motor_control_lib/src/ddt_motor_lib.cpp:774-784 | a run in which a stop is skipped although the last frame handed over drives |
| MotorLaws.EveryRunKeepsRoom | motor_control_lib/src/ddt_current_pi.cpp:158-164 | in the driver the guard's array is never full when a sample arrives, so the branch that drops the oldest is never taken |
| ModbusProtocol.CalculateCrc16 | motor_control_lib/src/feetech_protocol.cpp:10-24 | the loops over a buffer compute the CRC-16 of its first bytes (section 6.2.2 of MODBUS over Serial Line V1.02) |
| ModbusProtocol.Crc16Linear | servo_checker.py:170-180 | for messages of one length the CRC-16 is linear in the flipped bits |
| ModbusProtocol.UnnoticedErrors16 | servo_checker.py:170-180 | two messages of one length have the same CRC-16 exactly if that of their flipped bits, from register 0, is 0 |
| ModbusProtocol.Burst16Noticed | motor_control_lib/src/feetech_protocol.cpp:10-24 | no error within any 16 consecutive bits of a message of any length, up to its last bit, goes unnoticed |
| ModbusProtocol.TwoBytesNoticed | motor_control_lib/src/feetech_protocol.cpp:10-24 | in particular no error confined to two neighbouring bytes does |
| ModbusProtocol.CreateModbusCommand | motor_control_lib/src/feetech_protocol.cpp:26-40 | fills the caller's buffer with exactly the command frame and leaves the rest of it alone |
| ModbusProtocol.VerifiedIsBuilt | motor_control_lib/src/feetech_protocol.cpp:42-54 | a message of three bytes or more verifies exactly if it is a payload followed by its own CRC, low byte first |
| ModbusProtocol.VerifiedIsZeroResidue | servo_checker.py:203-208 | it verifies exactly if the CRC over all of it is 0 |
| ModbusProtocol.DamagedMessageRejected | motor_control_lib/src/feetech_protocol.cpp:42-54 | a good message damaged within 16 consecutive bits, CRC included, never verifies |
| ModbusProtocol.BuildersAgree | servo_checker.py:183-200 | the Python and the C++ builder make the same frame |
| ModbusProtocol.WriteEchoIsBuiltFrame | servo_checker.py:269-283 | the search accepts a place exactly if the built write frame stands there, for ids of a byte and addresses of a word |
| ModbusProtocol.FindWriteFrame | servo_checker.py:269-283 | finds exactly the first such place, and returns those bytes; none means the frame occurs nowhere |
| ModbusProtocol.ReadAnswerIsSent | servo_checker.py:254-266 | the search accepts a place exactly if the answer some register value would give stands there |
| ModbusProtocol.FindReadFrame | servo_checker.py:254-266 | finds exactly the first such place; none means no answer occurs anywhere |
| KnownFrames.Crc16OfDigits | motor_control_lib/src/feetech_protocol.cpp:10-24 | the check value of the CRC-16 is that of CRC-16/MODBUS, 0x4B37 |
| KnownFrames.WriteRegisterFrame | motor_control_lib/src/feetech_protocol.cpp:26-40 | the frame that writes 2048 to register 128 is this one, byte for byte, the CRC low byte first |
| KnownFrames.ReadRegisterFrame | motor_control_lib/src/feetech_protocol.cpp:26-40 | and so is the frame that reads register 257 |
| DriveSession.DriveSession.SetBlocker | questix_lab_bridge/questix_lab_bridge/drive.py:159-168 | sets or clears a blocker, tells the change and ends a run it blocks |
| DriveSession.DriveSession.SetGraph | questix_lab_bridge/questix_lab_bridge/drive.py:110-121 | what the graph shows becomes blockers |
| DriveSession.DriveSession.SetArbiter | questix_lab_bridge/questix_lab_bridge/drive.py:135-157 | a status is stored, its permission becomes a blocker, and its refusals of this run end it |
| DriveSession.DriveSession.Request | questix_lab_bridge/questix_lab_bridge/drive.py:170-202 | every answer to a request, in the source's order, and the run it starts or continues |
| DriveSession.DriveSession.Stop | questix_lab_bridge/questix_lab_bridge/drive.py:204-216 | who can stop what, and what it answers |
| DriveSession.DriveSession.Disconnect | questix_lab_bridge/questix_lab_bridge/drive.py:222-225 | a leaving client ends its run and leaves no debt |
| DriveSession.DriveSession.Tick | questix_lab_bridge/questix_lab_bridge/drive.py:227-240 | the command of this moment: dead-man, time limit, neutral start and zeros after the end |
| DriveSession.DriveSession.EndRun | questix_lab_bridge/questix_lab_bridge/drive.py:242-252 | the end of a run, with the debt, the guard and the zeros it leaves |
| DriveLaws.EveryRunIsSafe | questix_lab_bridge/questix_lab_bridge/drive.py:110-202 | in every reachable state an active run has no blocker, owes no neutral, and has its topic, its arbiter and its permission |
| DriveLaws.OnlyAPermittedRunMoves | questix_lab_bridge/questix_lab_bridge/drive.py:227-240 | a nonzero command goes out only for such a run within dead-man, neutral start and time limit, and is its owner's |
| DriveLaws.IdleMeansZero | questix_lab_bridge/questix_lab_bridge/drive.py:242-252 | as long as requests come from pages, with no owner the stored command is zero |
| DriveLaws.NobodysRequestIsStored | questix_lab_bridge/questix_lab_bridge/drive.py:170-202 | a request in nobody's name is accepted and stored without an owner |
| DriveLaws.OnlyNobodysRequestIsStored | questix_lab_bridge/questix_lab_bridge/drive.py:170-202 | a step leaves a command that nobody owns exactly if it is a nonzero request in nobody's name, met without an owner, a blocker or a debt of nobody's |
| DriveLaws.SameVersionSameState | questix_lab_bridge/questix_lab_bridge/drive.py:254-272 | the version never falls, and at two points of a run with the same version the pages are shown the same |
| DriveLaws.RestartBeginsAtNeutral | questix_lab_bridge/questix_lab_bridge/drive.py:170-202 | a client that lost the robot, or asked while blocked, next becomes its owner by a request of exactly (0, 0), unless it disconnected in between |
| DriveLaws.OnlyForeignEndsGuard | questix_lab_bridge/questix_lab_bridge/drive.py:242-252 | the pause is set exactly when a run is ended by somebody other than its owner, and by nothing else changed |
| DriveLaws.EndedOwnerIsStale | questix_lab_bridge/questix_lab_bridge/drive.py:172-174 | requests of a client whose run was ended for it are dropped for the guard time, until another run is ended that way |
| DriveEnds.RunEndsExactlyWhen | questix_lab_bridge/questix_lab_bridge/drive.py:110-252 | in every permitted state, which calls end the run and which do not, with reason and author: each blocker, the arbiter's refusal or take-over, a bad value of the owner, anyone's stop (with `only_own` the owner's alone), the owner's leaving, a tick past the dead-man or the time limit |
| DriveEnds.StopAnswersTrue | questix_lab_bridge/questix_lab_bridge/drive.py:204-216 | a stop ends the run and returns true exactly if there is one and it is the caller's or `only_own` is off; else it changes nothing |
| DriveEnds.EndedRunIsSilent | questix_lab_bridge/questix_lab_bridge/drive.py:227-240 | after the end of a run, until the next accepted request, there is no owner, and every tick gives zero within the hold time and nothing after it |
| DriveEnds.RequestIsDecided | questix_lab_bridge/questix_lab_bridge/drive.py:170-202 | each answer to a request, from anyone in any state, has exactly this condition; an accepted one stores its values, its time and its owner |
| DriveEnds.AcceptedIsPublished | questix_lab_bridge/questix_lab_bridge/drive.py:170-240 | an accepted command is what every tick gives, or zero during the neutral start, until the run ends or another is accepted, within dead-man time and time limit |
| DriveEnds.EveryRunHasItsBeginning | questix_lab_bridge/questix_lab_bridge/drive.py:135-202 | every run goes back to an accepted request of its owner with no end since; its start time, the arbiter's count then, and whether the lab was seen since are those of the calls |
| DriveEnds.BlockersAreCurrent | questix_lab_bridge/questix_lab_bridge/drive.py:110-168 | in every session each blocker is there exactly while what was last reported about it says so, by name for another publisher |
| DriveEnds.ShownIsLastReported | questix_lab_bridge/questix_lab_bridge/drive.py:95-104 | the permission and the size of the caps shown are those the arbiter last reported |
| DriveEnds.LeaverOwesNothing | questix_lab_bridge/questix_lab_bridge/drive.py:222-225 | a client that leaves owes no neutral request any more, and nobody else's debt changes |
| AutoRecorder.AutoRecorder.Feed | questix_lab_bridge/questix_lab_bridge/records.py:595-621 | one payload, through every branch |
| AutoRecorder.AutoRecorder.Tick | questix_lab_bridge/questix_lab_bridge/records.py:623-625 | the time's passing without a payload |
| AutoRecorder.AutoRecorder.Flush | questix_lab_bridge/questix_lab_bridge/records.py:627-630 | what is being recorded is finished |
| AutoRecorder.AutoRecorder.Lab | questix_lab_bridge/questix_lab_bridge/records.py:632-642 | a lab run takes over: the recording ends and the buffer is dropped |
| AutoRecorder.AutoRecorder.Begin | questix_lab_bridge/questix_lab_bridge/records.py:644-649 | a recording begins, knowing whether motion was commanded in the buffer |
| AutoRecorder.AutoRecorder.Check | questix_lab_bridge/questix_lab_bridge/records.py:651-663 | ends, splits or trims by the clock; the optional times are set where they are used |
| AutoRecorder.AutoRecorder.Finish | questix_lab_bridge/questix_lab_bridge/records.py:665-683 | hands a long enough recording to the sink and clears the buffer |
| RecorderModel.RecentIsSuffix | questix_lab_bridge/questix_lab_bridge/records.py:661-663 | for times in order, keeping the recent payloads keeps a suffix of the buffer |
| RecorderModel.StepKeeps | questix_lab_bridge/questix_lab_bridge/records.py:595-683 | every call in time order keeps the partition and never reads a time that is not set |
| RecorderModel.StepAccepts | questix_lab_bridge/questix_lab_bridge/records.py:595-621 | a call accepts its own payload or nothing, and nothing during a lab run |
| RecorderModel.RecordingsPartitionTheDrive | questix_lab_bridge/questix_lab_bridge/records.py:595-683 | over every ordered run the recordings are disjoint contiguous stretches of what was accepted, none across a lab run, none lost between two parts of a split |
| RecorderModel.EachRecordingIsASegment | questix_lab_bridge/questix_lab_bridge/records.py:665-683 | the n-th recording the sink got is exactly one kept stretch |
| RecorderModel.LabelsAreExact | questix_lab_bridge/questix_lab_bridge/records.py:595-683 | over every ordered run a recording says that motion was commanded exactly if one of its own payloads is a command that moves |
| RecorderMotion.KeptMeansMoved | questix_lab_bridge/questix_lab_bridge/records.py:665-670 | over every ordered run a segment is kept exactly if it holds a payload and its motion time, summed from its own payloads' gaps of at most 0.25 s and the last motion before a split, reaches the minimum |
| RecorderMotion.MotionMeans | questix_lab_bridge/questix_lab_bridge/records.py:546-552 | a payload moves exactly by a speed beyond 0.02 m/s or 0.1 rad/s in the fields of its own stream |
| RecorderMotion.SegmentEndsExactlyWhen | questix_lab_bridge/questix_lab_bridge/records.py:627-663 | a recorded segment takes every payload and ends exactly by a flush, by a lab run, after the still time without motion, or after the split time; after a split the next begins at once |
| RecorderMotion.SegmentBeginsExactlyWhen | questix_lab_bridge/questix_lab_bridge/records.py:612-621 | while idle a recording begins exactly with an accepted payload that moves |
| RecorderMotion.AcceptsExactlyWhen | questix_lab_bridge/questix_lab_bridge/records.py:595-642 | after a lab run payloads are accepted again exactly from the first that rests for the pre-roll time, or the first command to move after the grace time; otherwise all outside lab runs |
| RecorderMotion.IdleKeepsPreRoll | questix_lab_bridge/questix_lab_bridge/records.py:661-663 | while idle the buffer holds exactly the payloads of the last pre-roll time |
| RecordStore.CandidatesAreRight | questix_lab_bridge/questix_lab_bridge/records.py:447-456 | the candidates are exactly the records this save may delete, caches first, each kind oldest first, and never a lab record or one without an index |
| RecordStore.ExactlyTheseMayGo | questix_lab_bridge/questix_lab_bridge/records.py:447-456 | file by file: exactly the indexed caches, and for an auto record the indexed auto records too, are candidates, caches first and the older before the newer |
| RecordStore.PruningSparesTheRest | questix_lab_bridge/questix_lab_bridge/records.py:447-462 | however many candidates go, every other file stays as it is |
| RecordStore.WithoutGivesBack | questix_lab_bridge/questix_lab_bridge/records.py:340-348 | deleting a record lowers the used bytes by exactly its own |
| RecordStore.PrunedEnough | questix_lab_bridge/questix_lab_bridge/records.py:398-400 | room was made exactly if the quota and the free reserve hold with the new record counted, and before each deletion one of them did not |
| RecordStore.RecordStore.MakeRoom | questix_lab_bridge/questix_lab_bridge/records.py:447-462 | deletes the shortest prefix of the candidates that makes room, or all of them and fails when none does |
| RecordStore.RecordStore.NewId | questix_lab_bridge/questix_lab_bridge/records.py:435-445 | the first free name of the series; the search ends |
| RecordStore.RecordStore.Save | questix_lab_bridge/questix_lab_bridge/records.py:402-433 | each error and what it leaves behind; a success puts exactly this record and keeps quota and reserve |
| RecordStore.RecordStore.Delete | questix_lab_bridge/questix_lab_bridge/records.py:464-475 | removes exactly that record, and says whether there was one |
| RecordStore.NameInjective | questix_lab_bridge/questix_lab_bridge/records.py:441-445 | different numbers give different names |
| RecordStore.NamesRunOut | questix_lab_bridge/questix_lab_bridge/records.py:441-445 | no more names of a series can be taken than there are records |
| RecordStore.FreshSaveOverwritesNothing | questix_lab_bridge/questix_lab_bridge/records.py:425-433 | storing a record under a name nobody has leaves every record as it was |
| RecordStore.FreshSaveKeepsOthers | questix_lab_bridge/questix_lab_bridge/records.py:402-433 | after a save under a new name with its pruning, exactly the deleted candidates are missing; every other file, each lab record and each without an index among them, is there as it was, and only the new one is added |
| BoundedWriter.EveryInterleaving | questix_lab_bridge/questix_lab_bridge/records.py:686-727 | under every interleaving the count is the number of items held, never over the limit, and each item that is over freed its place exactly once |
| BoundedWriter.OverIsOver | questix_lab_bridge/questix_lab_bridge/records.py:706-717 | a refused item is never run later, a finished one never freed again |
| BoundedWriter.DeniedOnlyWhenFull | questix_lab_bridge/questix_lab_bridge/records.py:706-712 | a submission is refused at the door exactly when as many items as the limit are held |
| BoundedWriter.ItemCanFinish | questix_lab_bridge/questix_lab_bridge/records.py:713-727 | whatever its stage, an item's own remaining steps free its place and disturb no other |
| BoundedWriter.BacklogCanDrain | questix_lab_bridge/questix_lab_bridge/records.py:700-727 | from every reachable state some interleaving frees every place |
| BoundedWriter.BoundedWriter.TryAdmit | questix_lab_bridge/questix_lab_bridge/records.py:708-711 | the locked section admits exactly while there is room |
| BoundedWriter.BoundedWriter.Submit | questix_lab_bridge/questix_lab_bridge/records.py:706-717 | true exactly if the executor took the item; otherwise no place is kept |
| BoundedWriter.BoundedWriter.RunItem | questix_lab_bridge/questix_lab_bridge/records.py:719-727 | the place is freed whether the work returns or raises |
| PlanRunner.ValidatePlan | questix_blockly/scripts/bridge.py:28-44 | accepts exactly the plans of 1 to 200 well-formed steps within the limits and 120 s in all, and returns them unchanged; a refusal names the first fault |
| PlanRunner.FaultFrom | questix_blockly/scripts/bridge.py:32-41 | a fault reported is that of the first step that is not good, and none means all are |
| PlanBridge.Bridge.TickAt | questix_blockly/scripts/bridge.py:113-144 | one timer tick: what is published and what becomes of the plan |
| PlanBridge.Bridge.OnController | questix_blockly/scripts/bridge.py:70-88 | one controller message: arming, disarming, and what is remembered |
| PlanBridge.Bridge.OnCommand | questix_blockly/scripts/bridge.py:152-194 | every request and every refusal, in the source's order; a refused one changes nothing |
| PlanBridge.Bridge.Stop | questix_blockly/scripts/bridge.py:101-106 | drops the plan and the arming and publishes the halt |
| PlanLaws.StepKeeps | questix_blockly/scripts/bridge.py:113-194 | every call keeps it that a plan in hand belongs to a run nobody stopped, within limits, in Blockly mode; stopped ids are never forgotten |
| PlanLaws.StoppedStaysStopped | questix_blockly/scripts/bridge.py:168-174 | once a stop of an id was accepted, no start of it is ever accepted and nothing moves on its behalf |
| PlanLaws.SwitchedStaysStopped | questix_blockly/scripts/bridge.py:154-164 | leaving the mode counts as a stop of the current run |
| PlanLaws.PlanHasOrigin | questix_blockly/scripts/bridge.py:178-191 | the plan in hand is the one its own accepted request brought, and its heartbeat was heard for this run |
| PlanLaws.OdometryIsLatest | questix_blockly/scripts/bridge.py:90-99 | the odometry time is that of the last message |
| PlanLaws.MotionIsFresh | questix_blockly/scripts/bridge.py:125-144 | a command that moves is published only by a tick in Blockly mode, within 1.2 s of a sign of life of this run, on odometry younger than 0.7 s, and within the speed limits |
| PlanLaws.MessageHasOrigin | questix_blockly/scripts/bridge.py:70-88 | the message in hand is the last one the controller sent, with the time of its arrival |
| PlanLaws.ForwardIsFresh | questix_blockly/scripts/bridge.py:116-124 | a controller message is passed on only as the last one heard, at most 0.5 s ago, in range, with the stop button up and fresh odometry |
| PlanLaws.ArmedExactlyWhen | questix_blockly/scripts/bridge.py:70-88 | armed exactly if this message arms (sticks centred, start down, stop up), or it was armed and nothing disarmed it |
| PlanLaws.NeutralIsNotNeeded | questix_blockly/scripts/bridge.py:80-87 | the remembered neutral makes no difference to anything published or answered |
| PlanActs.StartIsAcceptedExactlyWhen | questix_blockly/scripts/bridge.py:175-191 | a start is accepted exactly in Blockly mode, for a good id neither stopped nor just used, an acceptable plan, none in hand and odometry younger than 0.7 s; then that plan is in hand |
| PlanActs.BarredMeansStopped | questix_blockly/scripts/bridge.py:152-174 | an id is barred exactly if a stop of it was accepted, or it was the current one at a change of mode |
| PlanActs.RefusalTells | questix_blockly/scripts/bridge.py:152-194 | every refusal, with its reason, and the order in which reasons are looked for |
| PlanActs.StepsAreAsSent | questix_blockly/scripts/bridge.py:28-44 | the steps of an accepted plan are the numbers that were sent, and within the limits |
| PlanActs.StopHalts | questix_blockly/scripts/bridge.py:166-174 | a stop of the current run halts at once and drops the plan, one of another changes nothing but what is barred |
| PlanActs.SwitchHalts | questix_blockly/scripts/bridge.py:154-164 | a change of mode halts at once and drops plan, arming and message; an unknown mode changes nothing |
| PlanActs.HeartbeatIsLatest | questix_blockly/scripts/bridge.py:175-177 | the time last heard from is that of the latest heartbeat for the plan in hand, or of its start |
| PlanActs.TickForwardsExactlyWhen | questix_blockly/scripts/bridge.py:116-124 | in controller mode the last message is passed on exactly while armed, heard within 0.5 s and connected; else the robot is halted |
| PlanActs.TickPublishes | questix_blockly/scripts/bridge.py:125-144 | in Blockly mode exactly what each tick publishes: halt, the loss of contact, the end, zero, or the step whose time it is |
| PlanActs.AcceptedPlanCompletes | questix_blockly/scripts/bridge.py:125-194 | an accepted plan that is kept in touch with is carried out: regular ticks for the opening time, its seconds and one gap for each step and one more complete it |
| PlanCompletion.ExtendKeeps | questix_blockly/scripts/bridge.py:125-144 | every call keeps the published record in step with the plan: which step began where, and until when it must be held |
| PlanCompletion.CompletedMeansPerformed | questix_blockly/scripts/bridge.py:130-144 | a run that ends as completed published at least 0.4 s of zeros, then every step in order and none skipped, each at least its stated time and not repeated after it, then the halt |
| PwmLaws.CommittedMeansVerified | questix_pwm_guard/src/sysfs.cpp:89-146 | whatever crashed and restarted, an owner file means one unbroken run found none, exported the channel, set it up, read back 20 ms, normal, enabled and duty 0, and then linked its marker |
| PwmLaws.CommitsOnce | questix_pwm_guard/src/sysfs.cpp:136-146 | at most one commit ever happens |
| PwmLaws.OwnerIsPermanent | questix_pwm_guard/src/sysfs.cpp:136-146 | no call changes an owner file that is there |
| PwmLaws.StoppedStartLeavesPending | questix_pwm_guard/src/sysfs.cpp:92-141 | a failure or a crash anywhere between the pending file and the commit leaves a pending file and no owner file, and a process begun after it trusts nothing |
| PwmLaws.PendingIsNeverCommitted | questix_pwm_guard/src/sysfs.cpp:75-141 | from then on, in whatever process, no start ever succeeds, the marker files stay as they are and nothing is exported |
| PwmLaws.PendingIsNeverTrusted | questix_pwm_guard/src/sysfs.cpp:75-98 | in a process that does not trust the channel, and in all after it, no call succeeds, exports or writes anything, and the markers stay as they are |
| PwmLaws.TrustedCanStillPulse | questix_pwm_guard/src/sysfs.cpp:134-175 | whatever the marker files say, a process that trusts the channel may send every permitted pulse |
| PwmLaws.StartCanSucceed | questix_pwm_guard/src/sysfs.cpp:75-111 | a start can succeed exactly if the exported channel's owner file says this text, or nothing is exported and neither marker is there |
| PwmLaws.EveryWriteIsSafe | questix_pwm_guard/src/sysfs.cpp:112-197 | no attribute is written without a matched marker or an own export in this process; period, polarity and enabling only on an own export; a zero duty only with the polarity just read as normal or on an own export; a pulse only right after all three reads and from 500 to 2500 us |
| PwmLaws.SuccessIsConfirmed | questix_pwm_guard/src/sysfs.cpp:153-215 | a call that returns true has itself read back all four attributes for the pulse it leaves, after its last write |
| PwmActs.EmergencySuppresses | questix_pwm_guard/src/sysfs.cpp:104-197 | every emergency call of a trusting process, and every recovery start that matched its owner file, tries to write duty 0 as soon as the polarity read as normal, and to disable the channel otherwise, also when it then fails |
| PwmActs.PulseIsWritten | questix_pwm_guard/src/sysfs.cpp:153-175 | a permitted pulse on a channel that reads right is written, in nanoseconds, at once and once only, and what is read back is that number |
| PwmActs.SuccessHasWritten | questix_pwm_guard/src/sysfs.cpp:112-197 | every call that succeeds, but a check, has itself written the pulse it leaves as its last write, and that is what is expected from then on |
| PwmActs.OthersWriteNothing | questix_pwm_guard/src/sysfs.cpp:153-215 | a check, a refused call and a call without trust write nothing |
| PwmActs.FreshStartSetsUp | questix_pwm_guard/src/sysfs.cpp:112-133 | a start that exports writes 20 ms, duty 0, normal polarity and then enables, in this order, after reading the export as disabled and without duty |
| PwmActs.StartIsTrusted | questix_pwm_guard/src/sysfs.cpp:104-134 | a start that succeeds leaves a process that trusts the channel, a new process trusts nothing |
| PwmOutput.OwnerTextIsUnique | questix_pwm_guard/src/sysfs.cpp:73-74 | the owner text determines the device node and the boot id |
| PwmOutput.OnlyThisBootMatches | questix_pwm_guard/src/sysfs.cpp:73-87 | of the markers that fit into the 1024 bytes read, exactly the one of this node and this boot matches |
| PwmOutput.LongTextNeverMatches | questix_pwm_guard/src/sysfs.cpp:83-87 | a text longer than that is never matched again |
| PwmOutput.EndsWithMeans | questix_pwm_guard/src/sysfs.cpp:56-60 | a device node has the right place exactly if its path is something followed by the suffix |
| PwmOutput.SysfsOutput.FindChip | questix_pwm_guard/src/sysfs.cpp:51-67 | finds the one controller, and fails exactly for an unreadable candidate or one controller too many |
| PwmOutput.SysfsOutput.Initialize | questix_pwm_guard/src/sysfs.cpp:46-152 | every start is one of the model's calls carried out to its end; true exactly if all its operations worked, and `error` is 0 exactly then |
| PwmOutput.SysfsOutput.TakeOver | questix_pwm_guard/src/sysfs.cpp:75-121 | the start on an exported channel, full or recovery only |
| PwmOutput.SysfsOutput.StartFresh | questix_pwm_guard/src/sysfs.cpp:89-146 | the start that exports, with its marker files |
| PwmOutput.SysfsOutput.WritePulse | questix_pwm_guard/src/sysfs.cpp:153-175 | the reads, the write and the check of one pulse, with the error of each way to fail |
| PwmOutput.SysfsOutput.EmergencyLow | questix_pwm_guard/src/sysfs.cpp:176-197 | zero duty for a normal polarity, disabling for any other, which is never reported as confirmed |
| PwmOutput.SysfsOutput.Check | questix_pwm_guard/src/sysfs.cpp:198-215 | true exactly if all four attributes read as expected, with the error of each way to fail |
| PwmOutput.SysfsOutput.Pulse | questix_pwm_guard/src/sysfs.cpp:153-175 | a whole `write_pulse` is the model's call |
| PwmOutput.SysfsOutput.Low | questix_pwm_guard/src/sysfs.cpp:176-197 | a whole `emergency_low` is the model's call |
| PwmOutput.SysfsOutput.Verify | questix_pwm_guard/src/sysfs.cpp:198-215 | a whole `check` is the model's call, and keeps what is expected |

## Left out

- Floating point: amperes, speeds in the loop and times are reals, so rounding, NaN and infinities (and the `isfinite` branch of `ampToRaw`) are not modelled.
- Real clocks and waiting: every clock reading is an arbitrary number, in order only where a law says so; sleeps, `select` and termios are parameters.
- MotorDriver.DdtMotorLib.EmergencyStop: motors are walked in an arbitrary order, the source walks them by ascending id.
- MotorDriver.DdtMotorLib.SetCurrentControlParams: stands for all setters that release the latch; those that do not matter to the laws are one method, and a negative maximum speed, undefined in the source, is excluded.
- The wire id is the motor id modulo 256, so laws about one motor's frames on the line presuppose ids of one byte.
- In the driver the guard is a value updated by its specification; the array with its shifting is proved against that specification in `RunawayGuard`. The guard parameters, passed beside the sample in the source, are part of the sample here.
- Reported values that steer nothing: low-pass filtered speed, current, position, temperature, latency statistics, log text, exceptions inside `sendCommand`.
- ModbusProtocol.WriteEchoIsBuiltFrame: the equivalence is for ids below 256 and addresses below 65536; the search compares them unmasked, so for others it finds nothing although a frame is built.
- RecordStore.CandidatesAreRight: the order among records with the same time is not modelled, nor are record ids beyond their numbering, JSON and ISO details, and errors of `unlink` other than a missing file.
- RecorderModel.EachRecordingIsASegment: sorting by stamp and field cleaning when a recording is made are not modelled; the sink gets the payloads themselves.
- DriveSession.DriveSession.SetArbiter: a lab count that is not an integer reads as absent.
- BoundedWriter.EveryInterleaving: an executor either refuses an item or runs it; one that raises and still runs it later would free a place twice.
- PlanBridge.Bridge.TickAt: the layout of the published message (axis order, scales, buttons) is not modelled; a command is its speeds and whether it is active.
- PlanRunner.ValidatePlan: integers too large for a float, for which the source raises another error, are refused as out of range here as well.
- PwmOutput.SysfsOutput.Initialize: one process at a time; the runtime directory is changed by this program only, and the texts of attributes are compared without their line ends.
- PwmLaws.CommittedMeansVerified: one boot, begun with an empty runtime directory.
- ROS plumbing, HTTP, web and Tk front ends, rosbag conversion, launch files: no decisions of the kind proved here.
- The drive, shot, ESC and arbiter components, `GpioSafetyEvaluator`, domain ids and profile migration: they would add short case analyses only.
