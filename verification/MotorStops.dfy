/**
 * What it means that `stopMotor` writes nothing. It does so for a motor in velocity mode when the
 * latest success was a stop and the last stop time is less than the resend interval old.
 */
module MotorStops {
  import opened Common
  import opened DdtProtocol
  import Pi = CurrentPi
  import G = RunawayGuard
  import opened MotorModel
  import opened MotorTrace
  import opened MotorLaws

  /**
   * When a stop is skipped, the last frame handed to the motor is a stop, exactly unless the last
   * transaction that handed one over drove the motor and reported failure.
   */
  lemma SkippedStopIsLastCommand(id: int, m: Motor, cfg: Config, now: real)
    requires Inv(id, m) && SkipsStop(m, cfg, now)
    ensures LastHanded(m.trace).Some?
    ensures IsZeroCommandFrame(LastHanded(m.trace).value) <==> !UnreportedDrive(m.trace)
  {
    hide IsZeroCommandFrame, Read, Lawful;
    LastCommandIsStop(id, m.trace);
  }

  /**
   * When a stop is skipped, the last stop time was taken less than the resend interval ago; and, for
   * a clock that never goes back, a stop succeeded in time, after that stamp or in the transaction it
   * was taken for, exactly unless the stamp was taken for a resend that failed, with no success since.
   */
  lemma SkippedStopIsBacked(id: int, m: Motor, cfg: Config, now: real)
    requires Inv(id, m) && InOrder(m.trace, now) && SkipsStop(m, cfg, now)
    ensures exists k: nat :: IsLastStamp(m.trace, k) && Recent(cfg, m.trace[k].at, now)
    ensures (exists k: nat, j: nat :: SentInTime(m.trace, cfg, now, k, j)) <==> !StampedByFailedRefresh(m.trace)
  {
    hide IsZeroCommandFrame, Read, Lawful, InOrder, ElapsedMs;
    var k := LastStampIndex(m.trace);
    StampIsPast(m.trace, k, now);
    StampTellsStop(id, m.trace, cfg, now);
  }

  lemma StampIsPast(t: seq<Event>, k: nat, now: real)
    requires InOrder(t, now) && k < |t| && t[k].StopStamped?
    ensures t[k].at <= now
  {
    assert Timed(t[k]);
  }

  // ----- how the two exceptions come about -------------------------------------------------------

  const EXAMPLE_CONFIG := Config(100, Pi.Params(0.0015, 0.004, 1.0, 0.3, false, 0.0, 0.0), 5,
                                 G.GuardParams(50.0, 0.3), 0.0, true, 50, 200)

  /** One write that went out whole, was drained, and drew no answer. */
  function Unanswered(at: real): Transaction {
    Exchange(1, Waited([]), at)
  }

  /** The motor is initialised in velocity mode and stopped at time 0; it does not answer. */
  const STOPPED := [
    CallInitializeMotor(Velocity, NO_INIT.(modeFrame := Attempts(0, true, true), prime := Unanswered(0.0))),
    CallStop(StopInput(0.0, Unanswered(0.0), 0.0))]

  function StoppedMotor(id: int): Motor {
    Run(World(EXAMPLE_CONFIG, UNKNOWN_MOTOR), id, STOPPED).motor
  }

  /** The stop frame of the example. */
  function StopFrame(id: int): Bytes {
    PackVelocityFrame(WireId(id), ToBits(0), Byte(50), true)
  }

  lemma StoppedShape(id: int)
    ensures Run(World(EXAMPLE_CONFIG, UNKNOWN_MOTOR), id, STOPPED).cfg == EXAMPLE_CONFIG
    ensures var m := StoppedMotor(id);
            && m.mode == Some(Velocity) && m.lastSent == Some(StopFrame(id)) && m.lastStop == Some(0.0)
            && m.feedback.Some? && !m.feedback.value.hasFeedback && m.trip == None
            && IsZeroCommandFrame(StopFrame(id))
  {
    hide IsZeroCommandFrame, PackVelocityFrame, PackModeFrame, ToBits, Byte, WireId, ElapsedMs;
    CommandFrames(WireId(id), 0, Byte(50), true);
    assert STOPPED[..1][..0] == [] && STOPPED[..2] == STOPPED;
    var start := World(EXAMPLE_CONFIG, UNKNOWN_MOTOR);
    var known := Step(start, id, STOPPED[0]);
    assert Run(start, id, STOPPED[..1]) == known;
    assert known.motor.lastStop == None && known.motor.mode == Some(Velocity);
    assert Run(start, id, STOPPED) == Step(known, id, STOPPED[1]);
  }

  /** A refresh at 10 s that cannot write. */
  const BLOCKED_REFRESH := CallRefresh(0.05, RefreshInput(10.0, 10.0, Exchange(3, NotWritten, 10.0), 10.0, 10.0))

  /**
   * The resend interval does not bound the age of the last stop: after the stop at 0 s a refresh that
   * fails to write at 10 s stamps the stop time, and at 10.1 s a stop is skipped.
   */
  lemma FailedRefreshHidesOldStop(id: int)
    ensures var m := Run(World(EXAMPLE_CONFIG, UNKNOWN_MOTOR), id, STOPPED + [BLOCKED_REFRESH]).motor;
            SkipsStop(m, EXAMPLE_CONFIG, 10.1) && StampedByFailedRefresh(m.trace)
  {
    hide IsZeroCommandFrame, PackVelocityFrame, ToBits, Byte, WireId, STOPPED;
    var calls, w := STOPPED + [BLOCKED_REFRESH], World(EXAMPLE_CONFIG, StoppedMotor(id));
    StoppedShape(id);
    assert calls[..|calls| - 1] == STOPPED;
    assert ElapsedMs(0.0, 10.0) == 10000 && ElapsedMs(10.0, 10.1) == 100;
    assert RefreshSends(w.motor, EXAMPLE_CONFIG, 0.05, BLOCKED_REFRESH.refresh);
    var m := Step(w, id, BLOCKED_REFRESH).motor;
    assert Run(World(EXAMPLE_CONFIG, UNKNOWN_MOTOR), id, calls) == Step(w, id, BLOCKED_REFRESH);
    assert m.lastSent == Some(StopFrame(id)) && m.lastStop == Some(10.0) && m.mode == Some(Velocity);
    assert FailedStampAt(m.trace, |m.trace| - 1);
  }

  /** A target of 100 rpm that is written but not drained. */
  const UNDRAINED_DRIVE :=
    CallSetVelocity(100, NO_INIT, CurrentInput(0.0, 0.0, 0.0, Exchange(1, NotDrained, 0.05), NO_TRANSACTION))

  /**
   * A driving frame whose transaction reports failure is not remembered: after the stop at 0 s and
   * that target a stop at 0.1 s is skipped, although the last frame handed over drives the motor.
   */
  lemma UnreportedDriveHidesFromStop(id: int)
    ensures var m := Run(World(EXAMPLE_CONFIG, UNKNOWN_MOTOR), id, STOPPED + [UNDRAINED_DRIVE]).motor;
            && SkipsStop(m, EXAMPLE_CONFIG, 0.1) && UnreportedDrive(m.trace)
            && LastHanded(m.trace).Some? && !IsZeroCommandFrame(LastHanded(m.trace).value)
  {
    hide IsZeroCommandFrame, PackVelocityFrame, ToBits, Byte, WireId, STOPPED, Step, ElapsedMs, FailedDriveAt;
    var calls, w := STOPPED + [UNDRAINED_DRIVE], World(EXAMPLE_CONFIG, StoppedMotor(id));
    StoppedShape(id);
    assert calls[..|calls| - 1] == STOPPED;
    CommandFrames(WireId(id), 100, Byte(50), false);
    var frame := PackVelocityFrame(WireId(id), ToBits(100), Byte(50), false);
    UndrainedStep(w.motor, id);
    var m := Step(w, id, UNDRAINED_DRIVE).motor;
    FailureIsLast(w.motor.trace, VelocityCommand, frame);
    HundredMs();
  }

  lemma HundredMs()
    ensures ElapsedMs(0.0, 0.1) == 100
  {
  }

  lemma UndrainedStep(m: Motor, id: int)
    requires m.mode == Some(Velocity)
    ensures var frame := PackVelocityFrame(WireId(id), ToBits(100), Byte(50), false);
            Step(World(EXAMPLE_CONFIG, m), id, UNDRAINED_DRIVE).motor
              == Note(m, [Handed(VelocityCommand, frame), Failed(VelocityCommand, frame, 1)]).(velocity := Some(100))
  {
    hide PackVelocityFrame, ToBits, Byte, WireId, AnswerIn;
    var frame := PackVelocityFrame(WireId(id), ToBits(100), Byte(50), false);
    assert m.trace + Copies(Handed(VelocityCommand, frame), 1) + [Failed(VelocityCommand, frame, 1)]
        == m.trace + [Handed(VelocityCommand, frame), Failed(VelocityCommand, frame, 1)];
  }

  lemma FailureIsLast(t: seq<Event>, kind: Kind, frame: Bytes)
    requires !IsZeroCommandFrame(frame)
    ensures var t' := t + [Handed(kind, frame), Failed(kind, frame, 1)];
            UnreportedDrive(t') && LastHanded(t') == Some(frame)
  {
    hide IsZeroCommandFrame;
    var t' := t + [Handed(kind, frame), Failed(kind, frame, 1)];
    assert t'[..|t'| - 1][..|t|] == t;
    assert FailedDriveAt(t', |t'| - 1);
  }
}
