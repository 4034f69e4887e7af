/**
 * What one call of the driver hands to a motor: which value, in which kind of frame, how often, and
 * what the motor's record says afterwards. Everything is read off the frames themselves and off the
 * bytes that came back.
 */
module MotorCommands {
  import opened Common
  import opened DdtProtocol
  import Pi = CurrentPi
  import opened PiLaws
  import G = RunawayGuard
  import opened MotorModel

  // ----- one transaction -------------------------------------------------------------------------

  /** What a command frame asks of its motor; current frames ask for no acceleration time and no brake. */
  datatype Asked = Asked(value: int, accelTime: int, brake: bool)

  const STILL := Asked(0, 0, false)

  /** A checked command frame for motor `id` that asks for this. */
  ghost predicate Says(id: int, frame: Bytes, asked: Asked) {
    && Checked(frame)
    && Value(frame[0]) == id % 256 && frame[1] == 0x64
    && CommandedValue(frame) == asked.value
    && Value(frame[6]) == asked.accelTime && frame[7] == (if asked.brake then 0xFF else 0x00)
  }

  /** How a transaction ends in the trace. */
  function Ending(id: int, kind: Kind, frame: Bytes, t: Exchange): Event {
    match t.outcome
    case Waited(heard) => Done(kind, frame, heard, AnswerTo(id, t), t.at)
    case _ => Failed(kind, frame, t.writes)
  }

  /** The feedback after a transaction: what an answer says, or one silence more. */
  predicate Heard(id: int, before: Option<Feedback>, after: Option<Feedback>, t: Exchange) {
    match AnswerTo(id, t)
    case Some(a) => after == Some(Feedback(a.mode, FromBits(a.speed), a.faultCode, true, 0, t.at))
    case None =>
      if t.Sent() && before.Some?
      then after == Some(before.value.(consecutiveTimeouts := before.value.consecutiveTimeouts + 1))
      else after == before
  }

  /**
   * From `m` to `m'`: the events `notes`, then one transaction that asked for `asked`, the frame
   * handed over as often as it was written and remembered exactly if the transaction succeeded.
   */
  ghost predicate Commanded(id: int, m: Motor, notes: seq<Event>, m': Motor, kind: Kind, asked: Asked, t: Transaction) {
    exists frame: Bytes :: Says(id, frame, asked) && Transacted(id, m, notes, m', kind, frame, t)
  }

  predicate Transacted(id: int, m: Motor, notes: seq<Event>, m': Motor, kind: Kind, frame: Bytes, t: Transaction) {
    && m'.trace == m.trace + notes + Copies(Handed(kind, frame), t.writes) + [Ending(id, kind, frame, t)]
    && Heard(id, m.feedback, m'.feedback, t)
    && m'.lastSent == (if t.Sent() then Some(frame) else m.lastSent)
  }

  lemma VelocityFrameSays(id: int, v: int, accelTime: int, brake: bool)
    requires -32768 <= v < 32768 && 0 <= accelTime < 256
    ensures Says(id, PackVelocityFrame(WireId(id), ToBits(v), Byte(accelTime), brake), Asked(v, accelTime, brake))
  {
    hide Checked, CommandedValue, ToBits, IsZeroCommandFrame;
    CommandFrames(WireId(id), v, Byte(accelTime), brake);
    CommandCarriesValue(WireId(id), v, Byte(accelTime), brake);
  }

  lemma CurrentFrameSays(id: int, raw: int)
    requires -32768 <= raw < 32768
    ensures Says(id, PackCurrentFrame(WireId(id), ToBits(raw)), Asked(raw, 0, false))
  {
    hide Checked, CommandedValue, ToBits, IsZeroCommandFrame;
    CommandFrames(WireId(id), raw, 0, false);
    CommandCarriesValue(WireId(id), raw, 0, false);
  }

  lemma SendTransacts(id: int, m: Motor, kind: Kind, frame: Bytes, t: Transaction)
    ensures var sent := Send(m, id, kind, frame, t);
            Transacted(id, m, [], sent.(lastSent := if t.Sent() then Some(frame) else m.lastSent), kind, frame, t)
  {
    hide AnswerIn, FromBits, WireId;
    assert m.trace + [] == m.trace;
  }

  /** The value of a request, within the speed limit. */
  predicate IsLimited(v: int, rpm: int, maxRpm: int) {
    && -maxRpm <= v <= maxRpm
    && (-maxRpm <= rpm <= maxRpm ==> v == rpm)
    && (rpm > maxRpm ==> v == maxRpm)
    && (rpm < -maxRpm ==> v == -maxRpm)
  }

  lemma VelocityIsSent(id: int, cfg: Config, m: Motor, rpm: int, brake: bool, t: Transaction) returns (v: int)
    requires cfg.Valid()
    ensures IsLimited(v, rpm, cfg.maxRpm)
    ensures var sent := SendVelocity(m, id, cfg, rpm, brake, t);
            && Commanded(id, m, [], sent, VelocityCommand, Asked(v, cfg.accelTime, brake), t)
            && sent == m.(trace := sent.trace, feedback := sent.feedback, lastSent := sent.lastSent,
                          velocity := if t.Sent() then Some(v) else m.velocity, stats := sent.stats)
  {
    hide PackVelocityFrame, ToBits, WireId, Says, Byte, AnswerIn;
    v := Clamp(rpm, -cfg.maxRpm, cfg.maxRpm);
    var frame := PackVelocityFrame(WireId(id), ToBits(v), Byte(cfg.accelTime), brake);
    VelocityFrameSays(id, v, cfg.accelTime, brake);
    SendTransacts(id, m, VelocityCommand, frame, t);
    assert Transacted(id, m, [], SendVelocity(m, id, cfg, rpm, brake, t), VelocityCommand, frame, t);
  }

  lemma CurrentIsSent(id: int, m: Motor, raw: int, t: Transaction)
    requires -32768 <= raw < 32768
    ensures var sent := SendCurrent(m, id, raw, t);
            && Commanded(id, m, [], sent, CurrentCommand, Asked(raw, 0, false), t)
            && sent == m.(trace := sent.trace, feedback := sent.feedback, lastSent := sent.lastSent,
                          stats := sent.stats)
            && sent.stats.lastCurrentRaw == if t.Sent() then raw else m.stats.lastCurrentRaw
  {
    hide PackCurrentFrame, ToBits, WireId, Says, AnswerIn;
    var frame := PackCurrentFrame(WireId(id), ToBits(raw));
    CurrentFrameSays(id, raw);
    SendTransacts(id, m, CurrentCommand, frame, t);
    assert Transacted(id, m, [], SendCurrent(m, id, raw, t), CurrentCommand, frame, t);
  }

  /** Events noted before a transaction. */
  lemma NotedBefore(id: int, m: Motor, notes: seq<Event>, base: Motor, m': Motor, kind: Kind, asked: Asked,
                    t: Transaction)
    requires Commanded(id, base, [], m', kind, asked, t)
    requires base.trace == m.trace + notes && base.feedback == m.feedback && base.lastSent == m.lastSent
    ensures Commanded(id, m, notes, m', kind, asked, t)
  {
    hide Says, Heard;
    var frame: Bytes :| Says(id, frame, asked) && Transacted(id, base, [], m', kind, frame, t);
    assert base.trace + [] == m.trace + notes;
    assert Transacted(id, m, notes, m', kind, frame, t);
  }

  /** What the motor puts on the line about itself is what the driver then has on record. */
  lemma AnswerIsRecorded(id: int, before: Option<Feedback>, after: Option<Feedback>, t: Exchange, junk: Bytes,
                         mode: bv8, speed: int, fault: bv8, current: bv16, position: bv16)
    requires -32768 <= speed < 32768
    requires t.outcome == Waited(junk + AnswerFrame(WireId(id), Answer(mode, current, ToBits(speed), position, fault)))
    requires Heard(id, before, after, t)
    ensures after == Some(Feedback(mode, speed, fault, true, 0, t.at))
  {
    hide ToBits, FromBits, AnswerFrame, ParseFeedbackFrame, WireId;
    var a := Answer(mode, current, ToBits(speed), position, fault);
    var frame := AnswerFrame(WireId(id), a);
    ParseInvertsAnswer(WireId(id), frame, a);
    AnswerLength(WireId(id), a);
    assert (junk + frame)[|junk + frame| - 10..] == frame;
    BitsRoundTrip(speed);
  }

  lemma AnswerLength(id: bv8, a: Answer)
    ensures |AnswerFrame(id, a)| == 10
  {
  }

  // ----- requests ----------------------------------------------------------------------------------

  /** No frame that commands the motor is among the events from `m` to `m'`. */
  predicate HandsNothing(m: Motor, m': Motor) {
    m.trace <= m'.trace && forall k :: |m.trace| <= k < |m'.trace| ==> !m'.trace[k].Handed?
  }

  /**
   * `setMotorVelocity` for a motor in velocity mode, or not yet known: the initialisation that makes it
   * known may fail, and then nothing follows; otherwise the request itself goes out, within the speed
   * limit and without brake, and the call reports how that went.
   */
  lemma VelocityIsCommanded(m: Motor, id: int, cfg: Config, rpm: int, init: InitInput, io: CurrentInput)
    returns (v: int)
    requires cfg.Valid() && m.mode != Some(Current)
    ensures IsLimited(v, rpm, cfg.maxRpm)
    ensures var (m', ok) := SetVelocity(m, id, cfg, rpm, init, io);
            var (known, begun) := if m.mode.None? then InitializeMotor(m, id, cfg, Velocity, init) else (m, true);
            && (begun <==> m.mode == Some(Velocity) || init.modeFrame.Ok())
            && (!begun ==> m' == known && !ok)
            && (begun ==>
                  && Commanded(id, known, [], m', VelocityCommand, Asked(v, cfg.accelTime, false), io.first)
                  && (ok <==> io.first.Sent())
                  && m'.velocity == Some(v) && m'.mode == Some(Velocity) && m'.trip == known.trip && m'.pi == known.pi)
  {
    hide Commanded, IsLimited, SendVelocity, Prime, TryLegacy, Reported, StartOver;
    var known := if m.mode.None? then InitializeMotor(m, id, cfg, Velocity, init).0 else m;
    if m.mode.None? && init.modeFrame.Ok() {
      StartedInMode(m, id, cfg, Velocity, init);
    }
    var ref := Clamp(rpm, -cfg.maxRpm, cfg.maxRpm);
    v := VelocityIsSent(id, cfg, known.(velocity := Some(ref)), ref, false, io.first);
    assert v == ref && IsLimited(ref, rpm, cfg.maxRpm) by { LimitedTwice(rpm, cfg.maxRpm, v); }
    assert m.mode.Some? ==> m.mode.value == Velocity;
    if m.mode.Some? || init.modeFrame.Ok() {
      var m' := SetVelocity(m, id, cfg, rpm, init, io).0;
      SameRecord(id, known, known.(velocity := Some(ref)), m', VelocityCommand, Asked(v, cfg.accelTime, false),
                 io.first);
    }
  }

  lemma LimitedTwice(rpm: int, maxRpm: int, v: int)
    requires maxRpm >= 0 && IsLimited(v, Clamp(rpm, -maxRpm, maxRpm), maxRpm)
    ensures v == Clamp(rpm, -maxRpm, maxRpm) && IsLimited(v, rpm, maxRpm)
  {
  }

  lemma StartedInMode(m: Motor, id: int, cfg: Config, mode: ControlMode, io: InitInput)
    requires cfg.Valid() && io.modeFrame.Ok()
    ensures var settled := Settle(StartOver(SetControlMode(m, id, mode, io.modeFrame), mode), id, cfg, mode, io);
            settled.mode == Some(mode) && settled.trip == None && settled.velocity == Some(0) && settled.pi == PI_FRESH
  {
    hide Send, ModeWrites, PackModeFrame, PackModeFrameLegacy, PackVelocityFrame, PackCurrentFrame, ToBits;
    PrimeKeepsRest(StartOver(SetControlMode(m, id, mode, io.modeFrame), mode), id, cfg, mode, io.prime);
    var primed := Prime(StartOver(SetControlMode(m, id, mode, io.modeFrame), mode), id, cfg, mode, io.prime);
    var tried := Note(primed, ModeWrites(PackModeFrameLegacy(WireId(id), ModeValue(mode)), io.legacyFrame));
    PrimeKeepsRest(Note(tried, [Registered]).(feedback := Some(NO_FEEDBACK)), id, cfg, mode, io.reprime);
  }

  lemma PrimeKeepsRest(m: Motor, id: int, cfg: Config, mode: ControlMode, t: Transaction)
    requires cfg.Valid()
    ensures var m' := Prime(m, id, cfg, mode, t);
            && m'.mode == m.mode && m'.trip == m.trip && m'.pi == m.pi
            && (m.velocity == Some(0) ==> m'.velocity == Some(0))
  {
    hide PackVelocityFrame, PackCurrentFrame, ToBits, Byte, WireId, AnswerIn;
  }

  /** Fields outside a transaction play no part in it. */
  lemma SameRecord(id: int, a: Motor, b: Motor, m': Motor, kind: Kind, asked: Asked, t: Transaction)
    requires Commanded(id, b, [], m', kind, asked, t)
    requires a.trace == b.trace && a.feedback == b.feedback && a.lastSent == b.lastSent
    ensures Commanded(id, a, [], m', kind, asked, t)
  {
    hide Says, Heard;
    var frame: Bytes :| Says(id, frame, asked) && Transacted(id, b, [], m', kind, frame, t);
    assert Transacted(id, a, [], m', kind, frame, t);
  }

  // ----- stops -------------------------------------------------------------------------------------

  /** What a stop asks for: current 0, or speed 0 with the brake the driver is set to. */
  function StopKind(m: Motor): Kind {
    if m.mode == Some(Current) then CurrentCommand else VelocityCommand
  }

  function StopAsks(m: Motor, cfg: Config): Asked {
    if m.mode == Some(Current) then STILL else Asked(0, cfg.accelTime, cfg.brakeOnStop)
  }

  /** In current mode the loop starts anew before the stop goes out. */
  function StopNotes(m: Motor): seq<Event> {
    if m.mode == Some(Current) then [GuardReset] else []
  }

  lemma ZeroIsSent(id: int, cfg: Config, m: Motor, t: Transaction) returns (m': Motor)
    requires cfg.Valid()
    ensures m' == EmergencyStop(m, id, cfg, t)
    ensures Commanded(id, m, StopNotes(m), m', StopKind(m), StopAsks(m, cfg), t)
    ensures m'.mode == m.mode && m'.trip == m.trip && m'.lastStop == m.lastStop
    ensures m'.velocity == (if m.mode != Some(Current) && t.Sent() then Some(0) else m.velocity)
    ensures m'.pi == if m.mode == Some(Current) then PI_FRESH else m.pi
  {
    hide Commanded, SendVelocity, SendCurrent;
    m' := EmergencyStop(m, id, cfg, t);
    if m.mode == Some(Current) {
      CurrentIsSent(id, ResetLoop(m), 0, t);
      NotedBefore(id, m, [GuardReset], ResetLoop(m), m', CurrentCommand, STILL, t);
    } else {
      var v := VelocityIsSent(id, cfg, m, 0, cfg.brakeOnStop, t);
    }
  }

  /** A stop went out from `m`, and in velocity mode its time was taken exactly if it succeeded. */
  ghost predicate Stopped(id: int, cfg: Config, m: Motor, m': Motor, io: StopInput) {
    var stamped := m.mode != Some(Current) && io.transaction.Sent();
    var sent := if stamped && m'.trace != [] then m'.(trace := m'.trace[..|m'.trace| - 1]) else m';
    && Commanded(id, m, StopNotes(m), sent, StopKind(m), StopAsks(m, cfg), io.transaction)
    && (stamped ==> m'.trace != [] && m'.trace[|m'.trace| - 1] == StopStamped(true, io.after))
    && m'.lastStop == (if stamped then Some(io.after) else m.lastStop)
    && m'.velocity == Some(0) && m'.mode == m.mode && m'.trip == m.trip
    && m'.pi == if m.mode == Some(Current) then PI_FRESH else m.pi
  }

  lemma StopGoesOut(id: int, cfg: Config, m: Motor, io: StopInput)
    requires cfg.Valid()
    ensures Stopped(id, cfg, m, StopNow(m, id, cfg, io).0, io)
  {
    hide Commanded, SendVelocity, SendCurrent;
    var aimed := m.(velocity := Some(0));
    var sent := ZeroIsSent(id, cfg, aimed, io.transaction);
    var m' := StopNow(m, id, cfg, io).0;
    if m.mode != Some(Current) && io.transaction.Sent() {
      assert m'.trace == sent.trace + [StopStamped(true, io.after)];
      assert m'.trace[..|m'.trace| - 1] == sent.trace;
    }
    SameEnds(id, aimed, m, StopNotes(m), sent,
             if m.mode != Some(Current) && io.transaction.Sent() then m'.(trace := m'.trace[..|m'.trace| - 1]) else m',
             StopKind(m), StopAsks(m, cfg), io.transaction);
  }

  lemma SameEnds(id: int, a: Motor, b: Motor, notes: seq<Event>, a': Motor, b': Motor, kind: Kind, asked: Asked,
                 t: Transaction)
    requires Commanded(id, a, notes, a', kind, asked, t)
    requires a.trace == b.trace && a.feedback == b.feedback && a.lastSent == b.lastSent
    requires a'.trace == b'.trace && a'.feedback == b'.feedback && a'.lastSent == b'.lastSent
    ensures Commanded(id, b, notes, b', kind, asked, t)
  {
    hide Says, Heard;
    var frame: Bytes :| Says(id, frame, asked) && Transacted(id, a, notes, a', kind, frame, t);
    assert Transacted(id, b, notes, b', kind, frame, t);
  }

  /**
   * `stopMotor` sends a stop and reports how that went, except in velocity mode when the last frame
   * that succeeded was a stop and the last stop time is within the resend interval: then it does nothing.
   */
  lemma StopIsCommanded(id: int, cfg: Config, m: Motor, io: StopInput)
    requires cfg.Valid()
    ensures var (m', ok) := Stop(m, id, cfg, io);
            var skips := && m.mode != Some(Current) && m.lastSent.Some? && IsZeroCommandFrame(m.lastSent.value)
                         && cfg.stopResendIntervalMs > 0 && m.lastStop.Some?
                         && (io.now - m.lastStop.value) * 1000.0 < cfg.stopResendIntervalMs as real;
            && (skips ==> ok && m' == m.(velocity := Some(0)))
            && (!skips ==> Stopped(id, cfg, m, m', io) && (ok <==> io.transaction.Sent()))
  {
    hide Stopped, IsZeroCommandFrame, SendVelocity, SendCurrent;
    StopGoesOut(id, cfg, m, io);
    if m.lastStop.Some? {
      var ms := (io.now - m.lastStop.value) * 1000.0;
      assert ms.Floor < cfg.stopResendIntervalMs <==> ms < cfg.stopResendIntervalMs as real;
    }
  }

  /** `stopMotorNow` always does. */
  lemma StopNowIsCommanded(id: int, cfg: Config, m: Motor, io: StopInput)
    requires cfg.Valid()
    ensures Stopped(id, cfg, m, StopNow(m, id, cfg, io).0, io)
    ensures StopNow(m, id, cfg, io).1 <==> io.transaction.Sent()
  {
    hide Stopped, SendVelocity, SendCurrent;
    StopGoesOut(id, cfg, m, io);
  }

  /** `emergencyStop` sends every motor its stop, whatever went before. */
  lemma EmergencyIsCommanded(id: int, cfg: Config, m: Motor, t: Transaction)
    requires cfg.Valid()
    ensures var m' := EmergencyStop(m, id, cfg, t);
            && Commanded(id, m, StopNotes(m), m', StopKind(m), StopAsks(m, cfg), t)
            && (m.mode == Some(Current) ==> m'.pi == PI_FRESH) && m'.mode == m.mode && m'.trip == m.trip
  {
    hide Commanded;
    var m' := ZeroIsSent(id, cfg, m, t);
  }

  /**
   * `refreshMotorFeedback` is about the age of the feedback, and says whether it is young enough in the
   * end. It touches the line exactly if it is not at first, the last frame that succeeded was a stop and
   * the last stop time is not within the resend interval; and then that very frame goes out once more.
   */
  lemma RefreshIsCommanded(id: int, cfg: Config, m: Motor, maxAgeSec: real, io: RefreshInput)
    requires cfg.Valid()
    ensures var (m', ok) := Refresh(m, id, cfg, maxAgeSec, io);
            var young := && m.feedback.Some? && m.feedback.value.hasFeedback
                         && io.now - m.feedback.value.lastTime <= maxAgeSec;
            var recent := cfg.stopResendIntervalMs > 0 && m.lastStop.Some?
                          && (io.throttleAt - m.lastStop.value) * 1000.0 < cfg.stopResendIntervalMs as real;
            var sends := !young && m.lastSent.Some? && IsZeroCommandFrame(m.lastSent.value) && !recent;
            && (!sends ==> m' == m && (ok <==> young))
            && (sends ==>
                  && m'.trace != [] && m'.trace[|m'.trace| - 1] == StopStamped(io.transaction.Sent(), io.after)
                  && Transacted(id, m, [], m'.(trace := m'.trace[..|m'.trace| - 1]), ResentStop, m.lastSent.value,
                                io.transaction)
                  && m'.lastStop == Some(io.after)
                  && (ok <==> m'.feedback.Some? && m'.feedback.value.hasFeedback
                              && io.judgedAt - m'.feedback.value.lastTime <= maxAgeSec))
  {
    hide IsZeroCommandFrame, AnswerIn, FromBits;
    if m.lastStop.Some? {
      var ms := (io.throttleAt - m.lastStop.value) * 1000.0;
      assert ms.Floor < cfg.stopResendIntervalMs <==> ms < cfg.stopResendIntervalMs as real;
    }
    if RefreshSends(m, cfg, maxAgeSec, io) {
      var frame := m.lastSent.value;
      SendTransacts(id, m, ResentStop, frame, io.transaction);
      var sent := Send(m, id, ResentStop, frame, io.transaction);
      var m' := Refresh(m, id, cfg, maxAgeSec, io).0;
      assert m'.trace == sent.trace + [StopStamped(io.transaction.Sent(), io.after)];
      assert m'.trace[..|m'.trace| - 1] == sent.trace;
      assert sent.lastSent == m.lastSent;
      assert Transacted(id, m, [], m'.(trace := sent.trace), ResentStop, frame, io.transaction);
    }
  }

  // ----- the current loop --------------------------------------------------------------------------

  /** No answer to drive on: none at all, or three silences in a row. */
  predicate Unheard(m: Motor) {
    m.feedback.Some? ==> !m.feedback.value.hasFeedback || m.feedback.value.consecutiveTimeouts >= 3
  }

  /** The motor stands still and is asked to. */
  predicate AtRest(cfg: Config, speed: int, target: int) {
    target == 0 && -cfg.zeroDeadbandRpm <= speed <= cfg.zeroDeadbandRpm
  }

  /** The time a step of the loop counts with: what has passed since the last, 10 ms if that cannot be. */
  function TimeOfStep(pi: PiRecord, now: real): real {
    if pi.lastT.Some? && 0.0 < now - pi.lastT.value <= 0.2 then now - pi.lastT.value else 0.01
  }

  /** The step of the loop from the record `pi` towards `target`, by the speed the motor last reported. */
  function LoopOf(cfg: Config, pi: PiRecord, speed: int, target: int, now: real): Pi.PiStep
    requires cfg.Valid()
  {
    Pi.Step(cfg.pi, pi.integralAmp, target, speed, TimeOfStep(pi, now))
  }

  /** From `m` to `m'` the motor was silenced: the loop starts anew and current 0 goes out. */
  ghost predicate Silenced(id: int, m: Motor, notes: seq<Event>, m': Motor, t: Transaction) {
    && Commanded(id, m, notes + [GuardReset], m', CurrentCommand, STILL, t)
    && m'.pi == PI_FRESH && m'.mode == m.mode
  }

  lemma ResetSilences(id: int, m: Motor, t: Transaction)
    ensures var m' := SendCurrent(ResetLoop(m), id, 0, t);
            Silenced(id, m, [], m', t) && m'.trip == m.trip && m'.velocity == m.velocity
  {
    hide Commanded, SendCurrent;
    var m' := SendCurrent(ResetLoop(m), id, 0, t);
    CurrentIsSent(id, ResetLoop(m), 0, t);
    assert [] + [GuardReset] == [GuardReset];
    NotedBefore(id, m, [GuardReset], ResetLoop(m), m', CurrentCommand, STILL, t);
  }

  lemma LatchSilences(id: int, m: Motor, trip: G.GuardTrip, t: Transaction)
    ensures var m' := LatchAndSendZero(m, id, trip, t);
            Silenced(id, m, [Tripped(trip)], m', t) && m'.trip == Some(trip) && m'.velocity == m.velocity
  {
    hide Commanded, SendCurrent;
    var reset := ResetLoop(Note(m, [Tripped(trip)]).(trip := Some(trip)));
    CurrentIsSent(id, reset, 0, t);
    assert m.trace + ([Tripped(trip)] + [GuardReset]) == reset.trace;
    NotedBefore(id, m, [Tripped(trip)] + [GuardReset], reset, LatchAndSendZero(m, id, trip, t), CurrentCommand,
                STILL, t);
  }

  /**
   * A request in current mode that is not acted upon: while the latch holds or nothing was heard, current
   * 0 goes out; a motor that reports another loop is latched with it; one at rest gets current 0, and its
   * loop starts anew but for the target it has reached.
   */
  lemma CurrentIsWithheld(id: int, cfg: Config, m: Motor, rpmRef: int, io: CurrentInput)
    requires cfg.Valid()
    ensures var (m', ok) := CommandCurrent(m, id, cfg, rpmRef, io);
            && (m.trip.Some? || Unheard(m) ==> Silenced(id, m, [], m', io.first) && m'.trip == m.trip)
            && (m.trip.None? && !Unheard(m) && m.feedback.value.mode != 0x01 ==>
                  Silenced(id, m, [Tripped(G.ModeMismatch)], m', io.first) && m'.trip == Some(G.ModeMismatch))
            && (m.trip.None? && !Unheard(m) && m.feedback.value.mode == 0x01 ==>
                  var (pi, target) := Slew(m.pi, cfg, m.feedback.value.speed, rpmRef, io.slewAt);
                  AtRest(cfg, m.feedback.value.speed, target) ==>
                    && Commanded(id, m, [GuardReset], m', CurrentCommand, STILL, io.first)
                    && m'.pi == pi.(integralAmp := 0.0, lastT := None, guard := G.FRESH)
                    && m'.trip == None && (ok <==> io.first.Sent()))
            && (m.trip.Some? || Unheard(m) || m.feedback.value.mode != 0x01 ==> (ok <==> io.first.Sent()))
  {
    hide Silenced, Commanded, LatchAndSendZero, Drive, Slew, SendCurrent;
    ResetSilences(id, m, io.first);
    LatchSilences(id, m, G.ModeMismatch, io.first);
    if m.trip.None? && !Unheard(m) && m.feedback.value.mode == 0x01 {
      var speed := m.feedback.value.speed;
      var (pi, target) := Slew(m.pi, cfg, speed, rpmRef, io.slewAt);
      SlewKeepsRest(m.pi, cfg, speed, rpmRef, io.slewAt);
      if AtRest(cfg, speed, target) {
        var base := Note(m.(pi := pi), [GuardReset]).(pi := pi.(integralAmp := 0.0, lastT := None, guard := G.FRESH));
        CurrentIsSent(id, base, 0, io.first);
        NotedBefore(id, m, [GuardReset], base, CommandCurrent(m, id, cfg, rpmRef, io).0, CurrentCommand, STILL,
                    io.first);
      }
    }
  }

  /** The target's record alone is moved by the slew. */
  lemma SlewKeepsRest(pi: PiRecord, cfg: Config, speed: int, rpmRef: int, now: real)
    requires cfg.Valid()
    ensures var pi' := Slew(pi, cfg, speed, rpmRef, now).0;
            pi'.integralAmp == pi.integralAmp && pi'.lastT == pi.lastT && pi'.guard == pi.guard
    ensures cfg.maxAccelRpmPerSec <= 0.0 ==> Slew(pi, cfg, speed, rpmRef, now) == (pi, rpmRef)
  {
  }

  /**
   * Under a rate limit the target covers the way to the request at that rate in the time since the last
   * step, and stops there; the first time it starts from the speed the motor turns with, within limits.
   */
  lemma SlewCoversTheWay(pi: PiRecord, cfg: Config, speed: int, rpmRef: int, now: real)
    requires cfg.Valid() && cfg.maxAccelRpmPerSec > 0.0
    ensures var (pi', ref) := Slew(pi, cfg, speed, rpmRef, now);
            var to, rate := pi'.refRpmFiltered, cfg.maxAccelRpmPerSec;
            && (pi.lastRefT.Some? && 0.0 < now - pi.lastRefT.value <= 0.2 ==>
                  Covers(pi.refRpmFiltered, to, rpmRef as real, rate, now - pi.lastRefT.value))
            && (pi.lastRefT.Some? && !(0.0 < now - pi.lastRefT.value <= 0.2) ==>
                  Covers(pi.refRpmFiltered, to, rpmRef as real, rate, 0.01))
            && (pi.lastRefT.None? && -cfg.maxRpm <= Turning(cfg.pi, speed) <= cfg.maxRpm ==>
                  Covers(Turning(cfg.pi, speed) as real, to, rpmRef as real, rate, 0.01))
            && AbsReal(ref as real - to) <= 0.5
  {
    hide Approach, Covers, Pi.Lround, MaxStep;
    var dt := SlewTime(pi, now);
    ApproachCovers(SlewFrom(pi, cfg, speed), rpmRef as real, cfg, dt);
  }

  /** From `x` towards `goal` at this rate for this time, and no further. */
  predicate Covers(x: real, y: real, goal: real, rate: real, time: real) {
    && (AbsReal(goal - x) <= rate * time ==> y == goal)
    && (goal - x > rate * time ==> y == x + rate * time)
    && (x - goal > rate * time ==> y == x - rate * time)
  }

  lemma ApproachCovers(x: real, goal: real, cfg: Config, time: real)
    requires cfg.maxAccelRpmPerSec > 0.0 && time > 0.0
    ensures Covers(x, Approach(x, goal, MaxStep(cfg, time)), goal, cfg.maxAccelRpmPerSec, time)
  {
    SameSign(cfg.maxAccelRpmPerSec, time);
  }

  /** What the guard is shown of a step: the speeds of the answers before and after it, and both currents. */
  predicate Shows(sample: G.Sample, cfg: Config, target: int, before: int, after: int, appliedRaw: int,
                  commandAmp: real) {
    && sample.rpmRef == target
    && sample.measuredPrevRpm == Turning(cfg.pi, before) && sample.measuredNewRpm == Turning(cfg.pi, after)
    && sample.appliedAmp == Pi.RawToAmp(appliedRaw) && sample.commandedAmp == commandAmp
    && sample.maxCurrentAmp == cfg.pi.maxCurrentAmp && sample.params == cfg.guard
  }

  /** What follows the answer to a step: nothing without one, a trip for another loop, else the guard's say. */
  ghost predicate Followed(id: int, sent: Motor, sample: G.Sample, m': Motor, ok: bool, io: CurrentInput) {
    var answer, (guard, trip) := AnswerTo(id, io.first), G.Update(sent.pi.guard, sample);
    var judged := sent.(trace := sent.trace + [Judged(sample)], pi := sent.pi.(guard := guard));
    if answer.None? then m' == sent && (ok <==> io.first.Sent())
    else if answer.value.mode != 0x01 then
      Silenced(id, sent, [Tripped(G.ModeMismatch)], m', io.second) && m'.trip == Some(G.ModeMismatch)
      && (ok <==> io.second.Sent())
    else if trip == G.NoTrip then m' == judged && ok
    else Silenced(id, judged, [Tripped(trip)], m', io.second) && m'.trip == Some(trip) && (ok <==> io.second.Sent())
  }

  /**
   * A request in current mode that is acted upon: the loop's step towards the slewed target, by the speed
   * last reported and the time passed, goes out as its raw value. The guard is shown the speed before and
   * the speed of the answer, the current that flowed in between and the one commanded now, and what it
   * says is done.
   */
  lemma CurrentIsCommanded(id: int, cfg: Config, m: Motor, rpmRef: int, io: CurrentInput)
    returns (sent: Motor, sample: G.Sample)
    requires cfg.Valid() && m.trip.None? && !Unheard(m) && m.feedback.value.mode == 0x01
    requires !AtRest(cfg, m.feedback.value.speed, Slew(m.pi, cfg, m.feedback.value.speed, rpmRef, io.slewAt).1)
    ensures var (m', ok) := CommandCurrent(m, id, cfg, rpmRef, io);
            var speed := m.feedback.value.speed;
            var (pi, target) := Slew(m.pi, cfg, speed, rpmRef, io.slewAt);
            var step := LoopOf(cfg, pi, speed, target, io.stepAt);
            && Commanded(id, m, [], sent, CurrentCommand, Asked(step.raw, 0, false), io.first)
            && sent.pi == pi.(integralAmp := step.integralAmp, lastT := Some(io.stepAt))
            && sent.trip == None && sent.mode == m.mode
            && sent.stats.lastCurrentRaw == (if io.first.Sent() then step.raw else m.stats.lastCurrentRaw)
            && (AnswerTo(id, io.first).Some? ==>
                  && sample.nowSec == io.guardAt
                  && Shows(sample, cfg, target, speed, FromBits(AnswerTo(id, io.first).value.speed),
                           m.stats.lastCurrentRaw, step.commandAmp))
            && Followed(id, sent, sample, m', ok, io)
  {
    hide Silenced, LatchAndSendZero, Slew, SendCurrent, Pi.Step, AnswerTo, G.Update, Says, FromBits;
    var speed := m.feedback.value.speed;
    var (pi, target) := Slew(m.pi, cfg, speed, rpmRef, io.slewAt);
    SlewKeepsRest(m.pi, cfg, speed, rpmRef, io.slewAt);
    var step := LoopOf(cfg, pi, speed, target, io.stepAt);
    StepInRange(cfg, pi, speed, target, io.stepAt);
    var base := m.(pi := pi.(integralAmp := step.integralAmp, lastT := Some(io.stepAt)));
    assert LoopStep(pi, cfg, speed, target, io.stepAt) == (base.pi, step);
    sent := SendCurrent(base, id, step.raw, io.first);
    CurrentIsSent(id, base, step.raw, io.first);
    SameEnds(id, base, m, [], sent, sent, CurrentCommand, Asked(step.raw, 0, false), io.first);
    var after := if AnswerTo(id, io.first).Some? then FromBits(AnswerTo(id, io.first).value.speed) else 0;
    sample := G.Sample(io.guardAt, target, Turning(cfg.pi, speed), Turning(cfg.pi, after),
                       Pi.RawToAmp(m.stats.lastCurrentRaw), step.commandAmp, cfg.pi.maxCurrentAmp, cfg.guard);
    var (m', ok) := CommandCurrent(m, id, cfg, rpmRef, io);
    assert Followed(id, sent, sample, m', ok, io) by {
      AnswerIsFeedback(id, m, sent, Asked(step.raw, 0, false), io.first);
      hide Commanded;
      FollowsAnswer(id, cfg, sent, target, speed, Pi.RawToAmp(m.stats.lastCurrentRaw), step.commandAmp, sample, io);
    }
  }

  lemma StepInRange(cfg: Config, pi: PiRecord, speed: int, target: int, now: real)
    requires cfg.Valid()
    ensures -32768 <= LoopOf(cfg, pi, speed, target, now).raw < 32768
  {
  }

  lemma AnswerIsFeedback(id: int, m: Motor, sent: Motor, asked: Asked, t: Transaction)
    requires Commanded(id, m, [], sent, CurrentCommand, asked, t)
    ensures AnswerTo(id, t).Some? ==>
              && t.Sent() && sent.feedback.Some? && sent.feedback.value.mode == AnswerTo(id, t).value.mode
              && sent.feedback.value.speed == FromBits(AnswerTo(id, t).value.speed)
  {
    hide Says, AnswerIn, FromBits;
  }

  lemma FollowsAnswer(id: int, cfg: Config, sent: Motor, target: int, before: int, applied: real, command: real,
                      sample: G.Sample, io: CurrentInput)
    requires AnswerTo(id, io.first).Some? ==>
               && io.first.Sent() && sent.feedback.Some?
               && sent.feedback.value.mode == AnswerTo(id, io.first).value.mode
               && sample == G.Sample(io.guardAt, target, Turning(cfg.pi, before),
                                     Turning(cfg.pi, sent.feedback.value.speed), applied, command,
                                     cfg.pi.maxCurrentAmp, cfg.guard)
    ensures var (m', ok) :=
              JudgeAnswer(sent, id, cfg, target, before, applied, command, io.guardAt, io.first, io.second);
            Followed(id, sent, sample, m', ok, io)
  {
    hide Silenced, LatchAndSendZero, AnswerTo, G.Update;
    LatchSilences(id, sent, G.ModeMismatch, io.second);
    var (guard, trip) := G.Update(sent.pi.guard, sample);
    LatchSilences(id, Note(sent, [Judged(sample)]).(pi := sent.pi.(guard := guard)), trip, io.second);
  }

  /**
   * So, without friction terms, integral and slew limit, the current pushes a motor on that turns too
   * slowly and brakes one that turns too fast, by `kp` per rpm to the nearest raw value.
   */
  lemma CurrentCorrectsSpeed(cfg: Config, pi: PiRecord, speed: int, target: int, now: real)
    requires cfg.Valid() && 0.0 < cfg.pi.maxCurrentAmp <= 8.0
    requires cfg.pi.kp > 0.0 && cfg.pi.ki <= Pi.MIN_KI && cfg.pi.ffStaticAmp == 0.0 && cfg.pi.ffViscousAmpPerRpm == 0.0
    ensures var raw := LoopOf(cfg, pi, speed, target, now).raw;
            var missing := (target - Turning(cfg.pi, speed)) as real;
            && (missing >= 0.0 ==> raw >= 0) && (missing <= 0.0 ==> raw <= 0)
            && (AbsReal(cfg.pi.kp * missing) <= cfg.pi.maxCurrentAmp ==>
                  AbsReal(Pi.RawToAmp(raw) - cfg.pi.kp * missing) <= Pi.AMP_PER_RAW / 2.0)
  {
    hide Pi.Step, Pi.AmpToRaw;
    var step := LoopOf(cfg, pi, speed, target, now);
    ProportionalAlone(cfg.pi, pi.integralAmp, target, speed, TimeOfStep(pi, now));
    StepConverts(cfg.pi, pi.integralAmp, target, speed, TimeOfStep(pi, now));
    Pi.RawIsNearest(step.commandAmp);
    RawHasSign(step.commandAmp);
  }

  lemma StepConverts(p: Pi.Params, i: real, target: int, speed: int, dt: real)
    requires p.Valid()
    ensures var step := Pi.Step(p, i, target, speed, dt);
            step.raw == Pi.AmpToRaw(step.commandAmp) && AbsReal(step.commandAmp) <= p.maxCurrentAmp
  {
    hide Pi.AmpToRaw, Pi.Unclamped, Pi.PushingIntoLimit;
  }

  lemma RawHasSign(amp: real)
    ensures amp >= 0.0 ==> Pi.AmpToRaw(amp) >= 0
    ensures amp <= 0.0 ==> Pi.AmpToRaw(amp) <= 0
  {
    if amp >= 0.0 {
      Pi.RawMonotone(-amp, amp);
    } else {
      Pi.RawMonotone(amp, -amp);
    }
    Pi.RawMonotone(amp, amp);
  }

  /** In current mode a request is the target of the loop, within the speed limit. */
  lemma CurrentTakesTarget(m: Motor, id: int, cfg: Config, rpm: int, init: InitInput, io: CurrentInput) returns (v: int)
    requires cfg.Valid() && m.mode == Some(Current)
    ensures IsLimited(v, rpm, cfg.maxRpm)
    ensures SetVelocity(m, id, cfg, rpm, init, io) == CommandCurrent(m.(velocity := Some(v)), id, cfg, v, io)
  {
    hide CommandCurrent;
    v := Clamp(rpm, -cfg.maxRpm, cfg.maxRpm);
  }

  // ----- initialisation ----------------------------------------------------------------------------

  /** A mode frame for motor `id` that names this mode: in its last byte, or in the old layout before a CRC. */
  ghost predicate NamesMode(id: int, frame: Bytes, mode: ControlMode) {
    var name := if mode.Current? then 0x01 else 0x02;
    && |frame| == 10 && Value(frame[0]) == id % 256 && frame[1] == 0xA0
    && (frame[9] == name || (frame[8] == name && Checked(frame)))
  }

  /** What an initialisation may hand to the motor: mode frames for this mode, and zero in its kind of frame. */
  ghost predicate Initialises(id: int, cfg: Config, mode: ControlMode, e: Event) {
    && (e.ModeSwitch? ==> NamesMode(id, e.frame, mode))
    && (e.Handed? ==>
          && e.kind == (if mode.Current? then CurrentCommand else VelocityCommand)
          && Says(id, e.frame, if mode.Current? then STILL else Asked(0, cfg.accelTime, cfg.brakeOnStop)))
  }

  ghost predicate OnlyInitialises(id: int, cfg: Config, mode: ControlMode, m: Motor, m': Motor) {
    m.trace <= m'.trace && forall k :: |m.trace| <= k < |m'.trace| ==> Initialises(id, cfg, mode, m'.trace[k])
  }

  lemma InitialisesOn(id: int, cfg: Config, mode: ControlMode, a: Motor, b: Motor, c: Motor)
    requires OnlyInitialises(id, cfg, mode, a, b) && OnlyInitialises(id, cfg, mode, b, c)
    ensures OnlyInitialises(id, cfg, mode, a, c)
  {
    hide Initialises;
  }

  lemma NotesInitialise(id: int, cfg: Config, mode: ControlMode, m: Motor, es: seq<Event>)
    requires forall k :: 0 <= k < |es| ==> Initialises(id, cfg, mode, es[k])
    ensures OnlyInitialises(id, cfg, mode, m, Note(m, es))
  {
    hide Initialises;
  }

  lemma ModeFramesName(id: int, cfg: Config, mode: ControlMode, m: Motor, c: Command)
    ensures OnlyInitialises(id, cfg, mode, m, Note(m, ModeWrites(PackModeFrame(WireId(id), ModeValue(mode)), c)))
    ensures OnlyInitialises(id, cfg, mode, m, Note(m, ModeWrites(PackModeFrameLegacy(WireId(id), ModeValue(mode)), c)))
  {
    hide Crc8, Says;
    var name := ModeValue(mode);
    WithCrcChecks([WireId(id), MODE_SWITCH, 0, 0, 0, 0, 0, 0, name]);
    assert NamesMode(id, PackModeFrame(WireId(id), name), mode);
    assert NamesMode(id, PackModeFrameLegacy(WireId(id), name), mode);
    hide NamesMode, Checked, PackModeFrame, PackModeFrameLegacy;
    NotesInitialise(id, cfg, mode, m, ModeWrites(PackModeFrame(WireId(id), name), c));
    NotesInitialise(id, cfg, mode, m, ModeWrites(PackModeFrameLegacy(WireId(id), name), c));
  }

  /** The first stop of a mode is one transaction that asks for 0. */
  lemma PrimeIsSent(id: int, cfg: Config, m: Motor, mode: ControlMode, t: Transaction)
    requires cfg.Valid()
    ensures var m' := Prime(m, id, cfg, mode, t);
            && OnlyInitialises(id, cfg, mode, m, m') && Heard(id, m.feedback, m'.feedback, t)
            && m'.mode == m.mode
  {
    hide SendCurrent, SendVelocity, Says, Heard;
    var m' := Prime(m, id, cfg, mode, t);
    var kind := if mode.Current? then CurrentCommand else VelocityCommand;
    var asked := if mode.Current? then STILL else Asked(0, cfg.accelTime, cfg.brakeOnStop);
    if mode.Current? {
      CurrentIsSent(id, m, 0, t);
    } else {
      var v := VelocityIsSent(id, cfg, m, 0, cfg.brakeOnStop, t);
    }
    var frame: Bytes :| Says(id, frame, asked) && Transacted(id, m, [], m', kind, frame, t);
    var es := Copies(Handed(kind, frame), t.writes) + [Ending(id, kind, frame, t)];
    assert m'.trace == m.trace + es;
    NotesInitialise(id, cfg, mode, m, es);
    assert Note(m, es).trace == m'.trace;
  }

  /** All that goes to a motor while it is initialised names its mode or asks for 0. */
  lemma InitialisationIsStill(m: Motor, id: int, cfg: Config, mode: ControlMode, io: InitInput)
    requires cfg.Valid()
    ensures OnlyInitialises(id, cfg, mode, m, InitializeMotor(m, id, cfg, mode, io).0)
  {
    hide Prime, Initialises, OnlyInitialises, PackModeFrame, PackModeFrameLegacy;
    var asked := SetControlMode(m, id, mode, io.modeFrame);
    ModeFramesName(id, cfg, mode, m, io.modeFrame);
    if io.modeFrame.Ok() {
      var started := StartOver(asked, mode);
      StartIsQuiet(id, cfg, mode, asked);
      InitialisesOn(id, cfg, mode, m, asked, started);
      var primed := Prime(started, id, cfg, mode, io.prime);
      PrimeIsSent(id, cfg, started, mode, io.prime);
      InitialisesOn(id, cfg, mode, m, started, primed);
      ModeFramesName(id, cfg, mode, primed, io.legacyFrame);
      var tried := Note(primed, ModeWrites(PackModeFrameLegacy(WireId(id), ModeValue(mode)), io.legacyFrame));
      InitialisesOn(id, cfg, mode, m, primed, tried);
      var again := Note(tried, [Registered]).(feedback := Some(NO_FEEDBACK));
      StartIsQuiet(id, cfg, mode, tried);
      InitialisesOn(id, cfg, mode, m, tried, again);
      PrimeIsSent(id, cfg, again, mode, io.reprime);
      InitialisesOn(id, cfg, mode, m, again, Prime(again, id, cfg, mode, io.reprime));
      var settled := Settle(started, id, cfg, mode, io);
      assert OnlyInitialises(id, cfg, mode, m, settled);
      ModeIsNoEvent(id, cfg, mode, m, settled);
    }
  }

  lemma ModeIsNoEvent(id: int, cfg: Config, mode: ControlMode, m: Motor, m': Motor)
    requires OnlyInitialises(id, cfg, mode, m, m')
    ensures OnlyInitialises(id, cfg, mode, m, m'.(mode := None))
  {
  }

  lemma StartIsQuiet(id: int, cfg: Config, mode: ControlMode, m: Motor)
    ensures OnlyInitialises(id, cfg, mode, m, StartOver(m, mode))
    ensures OnlyInitialises(id, cfg, mode, m, Note(m, [Registered]).(feedback := Some(NO_FEEDBACK)))
  {
  }

  /** The answer that counts: to the first stop, or to the second if the first named another mode and the
   * old mode frame went out. */
  function LastWord(id: int, mode: ControlMode, io: InitInput): Option<Answer> {
    var first := AnswerTo(id, io.prime);
    if first.Some? && first.value.mode != (if mode.Current? then 0x01 else 0x02) && io.legacyFrame.Ok()
    then AnswerTo(id, io.reprime) else first
  }

  /**
   * An initialisation succeeds exactly if its mode frame went out whole and, for current mode, the
   * motor's last word reports the current loop. Then the motor starts in that mode from nothing; without
   * the mode frame its record stays as it was, and without the confirmation its mode is unknown.
   */
  lemma InitialisationIsConfirmed(m: Motor, id: int, cfg: Config, mode: ControlMode, io: InitInput)
    requires cfg.Valid()
    ensures var (m', ok) := InitializeMotor(m, id, cfg, mode, io);
            var word := LastWord(id, mode, io);
            && (ok <==> io.modeFrame.Ok() && (mode.Current? ==> word.Some? && word.value.mode == 0x01))
            && (!io.modeFrame.Ok() ==> m' == m.(trace := m'.trace) && HandsNothing(m, m'))
            && (io.modeFrame.Ok() ==>
                  && m'.mode == (if ok then Some(mode) else None)
                  && m'.velocity == Some(0) && m'.trip == None && m'.pi == PI_FRESH
                  && m'.feedback.Some? && (m'.feedback.value.hasFeedback <==> word.Some?)
                  && (word.Some? ==> m'.feedback.value.mode == word.value.mode
                                     && m'.feedback.value.speed == FromBits(word.value.speed)))
  {
    hide Prime, AnswerTo, FromBits, PackModeFrame, PackModeFrameLegacy, OnlyInitialises;
    if io.modeFrame.Ok() {
      StartedInMode(m, id, cfg, mode, io);
      var started := StartOver(SetControlMode(m, id, mode, io.modeFrame), mode);
      PrimeIsSent(id, cfg, started, mode, io.prime);
      var primed := Prime(started, id, cfg, mode, io.prime);
      AnswerNeedsSuccess(id, io.prime);
      var again := Note(Note(primed, ModeWrites(PackModeFrameLegacy(WireId(id), ModeValue(mode)), io.legacyFrame)),
                        [Registered]).(feedback := Some(NO_FEEDBACK));
      PrimeIsSent(id, cfg, again, mode, io.reprime);
    }
  }

  lemma AnswerNeedsSuccess(id: int, t: Exchange)
    ensures AnswerTo(id, t).Some? ==> t.Sent()
  {
  }

  // ----- the end of a record -----------------------------------------------------------------------

  /** After a shutdown the motor is as unknown as at the start, but for the time of the last stop. */
  lemma ShutdownForgets(m: Motor)
    ensures Forget(m) == UNKNOWN_MOTOR.(lastStop := m.lastStop, trace := Forget(m).trace)
    ensures HandsNothing(m, Forget(m))
  {
  }

  /** After an answer a motor counts as healthy exactly if it is not latched and names no fault. */
  lemma AnswerTellsHealth(id: int, m: Motor, notes: seq<Event>, m': Motor, kind: Kind, asked: Asked, t: Transaction)
    requires Commanded(id, m, notes, m', kind, asked, t) && AnswerTo(id, t).Some?
    ensures Healthy(m') <==> m'.trip.None? && AnswerTo(id, t).value.faultCode == 0
  {
    hide AnswerTo, Says, FromBits;
  }
}
