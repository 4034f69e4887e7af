/** What values the driver hands over: never more than the parameters in force allow. */
module MotorLimits {
  import opened Common
  import opened DdtProtocol
  import Pi = CurrentPi
  import G = RunawayGuard
  import opened MotorModel
  import opened MotorLaws

  /** A command frame stays within the parameters in force: the current limit, the speed limit, or a stop. */
  predicate Within(cfg: Config, e: Event)
    requires cfg.Valid()
  {
    e.Handed? ==>
      |e.frame| == 10 &&
      match e.kind
      case CurrentCommand => Abs(CommandedValue(e.frame)) <= Pi.AmpToRaw(cfg.pi.maxCurrentAmp)
      case VelocityCommand => Abs(CommandedValue(e.frame)) <= cfg.maxRpm
      case ResentStop => IsZeroCommandFrame(e.frame)
  }

  /** From `m` to `m'` only such frames were handed over. */
  predicate WithinBetween(cfg: Config, m: Motor, m': Motor)
    requires cfg.Valid()
  {
    m.trace <= m'.trace && forall k :: |m.trace| <= k < |m'.trace| ==> Within(cfg, m'.trace[k])
  }

  lemma WithinOn(cfg: Config, a: Motor, b: Motor, c: Motor)
    requires cfg.Valid() && WithinBetween(cfg, a, b) && WithinBetween(cfg, b, c)
    ensures WithinBetween(cfg, a, c)
  {
    hide Within;
  }

  lemma SendWithin(id: int, cfg: Config, m: Motor, kind: Kind, frame: Bytes, t: Transaction)
    requires cfg.Valid() && Within(cfg, Handed(kind, frame))
    ensures WithinBetween(cfg, m, Send(m, id, kind, frame, t))
  {
    hide AnswerIn, IsZeroCommandFrame, CommandedValue, Pi.AmpToRaw;
  }

  lemma CurrentWithin(id: int, cfg: Config, m: Motor, raw: int, t: Transaction)
    requires cfg.Valid() && Abs(raw) <= Pi.AmpToRaw(cfg.pi.maxCurrentAmp) && -32768 <= raw < 32768
    ensures WithinBetween(cfg, m, SendCurrent(m, id, raw, t))
  {
    hide Within, PackCurrentFrame, ToBits, Send, WireId;
    CommandCarriesValue(WireId(id), raw, 0, false);
    var frame := PackCurrentFrame(WireId(id), ToBits(raw));
    FrameWithin(cfg, CurrentCommand, frame);
    SendWithin(id, cfg, m, CurrentCommand, frame, t);
  }

  lemma FrameWithin(cfg: Config, kind: Kind, frame: Bytes)
    requires cfg.Valid() && |frame| == 10 && !kind.ResentStop?
    requires Abs(CommandedValue(frame)) <=
             if kind.CurrentCommand? then Pi.AmpToRaw(cfg.pi.maxCurrentAmp) else cfg.maxRpm
    ensures Within(cfg, Handed(kind, frame))
  {
  }

  lemma VelocityWithin(id: int, cfg: Config, m: Motor, rpm: int, brake: bool, t: Transaction)
    requires cfg.Valid()
    ensures WithinBetween(cfg, m, SendVelocity(m, id, cfg, rpm, brake, t))
  {
    hide Within, PackVelocityFrame, ToBits, Send, WireId, Byte, Pi.AmpToRaw;
    var v := Clamp(rpm, -cfg.maxRpm, cfg.maxRpm);
    CommandCarriesValue(WireId(id), v, Byte(cfg.accelTime), brake);
    var frame := PackVelocityFrame(WireId(id), ToBits(v), Byte(cfg.accelTime), brake);
    FrameWithin(cfg, VelocityCommand, frame);
    SendWithin(id, cfg, m, VelocityCommand, frame, t);
  }

  /** Events other than a hand-over do not matter. */
  lemma NoteWithin(cfg: Config, m: Motor, es: seq<Event>)
    requires cfg.Valid() && forall k :: 0 <= k < |es| ==> !es[k].Handed?
    ensures WithinBetween(cfg, m, Note(m, es))
  {
  }

  lemma ZeroWithin(id: int, cfg: Config, m: Motor, t: Transaction)
    requires cfg.Valid()
    ensures WithinBetween(cfg, m, SendCurrent(m, id, 0, t))
  {
    hide Pi.AmpToRaw, SendCurrent;
    Pi.RawMonotone(0.0, cfg.pi.maxCurrentAmp);
    CurrentWithin(id, cfg, m, 0, t);
  }

  lemma ResetWithin(id: int, cfg: Config, m: Motor, pi: PiRecord, t: Transaction)
    requires cfg.Valid()
    ensures var reset := Note(m, [GuardReset]).(pi := pi); WithinBetween(cfg, m, SendCurrent(reset, id, 0, t))
  {
    hide SendCurrent, Within;
    var reset := Note(m, [GuardReset]).(pi := pi);
    NoteWithin(cfg, m, [GuardReset]);
    ZeroWithin(id, cfg, reset, t);
    WithinOn(cfg, m, reset, SendCurrent(reset, id, 0, t));
  }

  lemma LatchWithin(id: int, cfg: Config, m: Motor, trip: G.GuardTrip, t: Transaction)
    requires cfg.Valid()
    ensures WithinBetween(cfg, m, LatchAndSendZero(m, id, trip, t))
  {
    hide SendCurrent, Within;
    var latched := Note(m, [Tripped(trip)]).(trip := Some(trip));
    NoteWithin(cfg, m, [Tripped(trip)]);
    ResetWithin(id, cfg, latched, PI_FRESH, t);
    WithinOn(cfg, m, latched, LatchAndSendZero(m, id, trip, t));
  }

  lemma CommandWithin(id: int, cfg: Config, m: Motor, rpmRef: int, io: CurrentInput)
    requires cfg.Valid()
    ensures WithinBetween(cfg, m, CommandCurrent(m, id, cfg, rpmRef, io).0)
  {
    hide SendCurrent, Within, Slew, Pi.Step, Pi.AmpToRaw, JudgeAnswer, LatchAndSendZero, WithinBetween;
    ResetWithin(id, cfg, m, PI_FRESH, io.first);
    if m.trip.None? && !Stale(m.feedback) {
      if m.feedback.value.mode != CURRENT_LOOP {
        LatchWithin(id, cfg, m, G.ModeMismatch, io.first);
      } else {
        var speed := m.feedback.value.speed;
        var (slewed, ref) := Slew(m.pi, cfg, speed, rpmRef, io.slewAt);
        ResetWithin(id, cfg, m, slewed.(integralAmp := 0.0, lastT := None, guard := G.FRESH), io.first);
        var (stepped, step) := LoopStep(slewed, cfg, speed, ref, io.stepAt);
        LoopWithin(slewed, cfg, speed, ref, io.stepAt);
        var begun := m.(pi := stepped);
        var sent := SendCurrent(begun, id, step.raw, io.first);
        CurrentWithin(id, cfg, begun, step.raw, io.first);
        SameTrace(cfg, m, begun, sent);
        JudgeWithin(id, sent, cfg, ref, speed, Pi.RawToAmp(m.stats.lastCurrentRaw), step.commandAmp,
                    io.guardAt, io.first, io.second);
        if !Pi.InZeroDeadband(ref, speed, cfg.zeroDeadbandRpm) {
          WithinOn(cfg, m, sent, CommandCurrent(m, id, cfg, rpmRef, io).0);
        }
      }
    }
  }

  lemma LoopWithin(pi: PiRecord, cfg: Config, speed: int, rpmRef: int, now: real)
    requires cfg.Valid()
    ensures Abs(LoopStep(pi, cfg, speed, rpmRef, now).1.raw) <= Pi.AmpToRaw(cfg.pi.maxCurrentAmp) <= 32767
  {
    hide Pi.AmpToRaw, Pi.Step;
    Pi.RawWithinLimit(cfg.pi, pi.integralAmp, rpmRef, speed,
                      Pi.SanitizeDt(if pi.lastT.Some? then now - pi.lastT.value else 0.01));
  }

  lemma SameTrace(cfg: Config, a: Motor, b: Motor, c: Motor)
    requires cfg.Valid() && a.trace == b.trace
    ensures WithinBetween(cfg, b, c) ==> WithinBetween(cfg, a, c)
  {
    hide Within;
  }

  lemma JudgeWithin(id: int, sent: Motor, cfg: Config, rpmRef: int, before: int, applied: real, command: real,
                    guardAt: real, first: Transaction, second: Transaction)
    requires cfg.Valid()
    ensures WithinBetween(cfg, sent,
                          JudgeAnswer(sent, id, cfg, rpmRef, before, applied, command, guardAt, first, second).0)
  {
    hide G.Update, LatchAndSendZero, AnswerTo, Within;
    LatchWithin(id, cfg, sent, G.ModeMismatch, second);
    if sent.feedback.Some? {
      var sample := G.Sample(guardAt, rpmRef, Oriented(cfg, before), Oriented(cfg, sent.feedback.value.speed),
                             applied, command, cfg.pi.maxCurrentAmp, cfg.guard);
      var (guard, trip) := G.Update(sent.pi.guard, sample);
      var judged := Note(sent, [Judged(sample)]).(pi := sent.pi.(guard := guard));
      NoteWithin(cfg, sent, [Judged(sample)]);
      LatchWithin(id, cfg, judged, trip, second);
      WithinOn(cfg, sent, judged, LatchAndSendZero(judged, id, trip, second));
    }
  }

  lemma PrimeWithin(id: int, cfg: Config, m: Motor, mode: ControlMode, t: Transaction)
    requires cfg.Valid()
    ensures WithinBetween(cfg, m, Prime(m, id, cfg, mode, t))
  {
    hide SendCurrent, SendVelocity, WithinBetween;
    ZeroWithin(id, cfg, m, t);
    VelocityWithin(id, cfg, m, 0, cfg.brakeOnStop, t);
  }

  lemma InitializeWithin(id: int, cfg: Config, m: Motor, mode: ControlMode, io: InitInput)
    requires cfg.Valid()
    ensures WithinBetween(cfg, m, InitializeMotor(m, id, cfg, mode, io).0)
  {
    hide Prime, Within, PackModeFrame, PackModeFrameLegacy, Reported;
    var frame, legacy := PackModeFrame(WireId(id), ModeValue(mode)), PackModeFrameLegacy(WireId(id), ModeValue(mode));
    var asked := SetControlMode(m, id, mode, io.modeFrame);
    NoteWithin(cfg, m, ModeWrites(frame, io.modeFrame));
    if io.modeFrame.Ok() {
      var started := StartOver(asked, mode);
      NoteWithin(cfg, asked, [GuardReset, Registered, Cleared]);
      WithinOn(cfg, m, asked, started);
      var primed := Prime(started, id, cfg, mode, io.prime);
      PrimeWithin(id, cfg, started, mode, io.prime);
      WithinOn(cfg, m, started, primed);
      var tried := Note(primed, ModeWrites(legacy, io.legacyFrame));
      NoteWithin(cfg, primed, ModeWrites(legacy, io.legacyFrame));
      WithinOn(cfg, m, primed, tried);
      var again := Note(tried, [Registered]).(feedback := Some(NO_FEEDBACK));
      NoteWithin(cfg, tried, [Registered]);
      WithinOn(cfg, m, tried, again);
      PrimeWithin(id, cfg, again, mode, io.reprime);
      WithinOn(cfg, m, again, Prime(again, id, cfg, mode, io.reprime));
    }
  }

  lemma SetVelocityWithin(id: int, cfg: Config, m: Motor, rpm: int, init: InitInput, io: CurrentInput)
    requires cfg.Valid()
    ensures WithinBetween(cfg, m, SetVelocity(m, id, cfg, rpm, init, io).0)
  {
    hide CommandCurrent, InitializeMotor, SendVelocity, Within;
    InitializeWithin(id, cfg, m, Velocity, init);
    var (known, ok) := if m.mode.None? then InitializeMotor(m, id, cfg, Velocity, init) else (m, true);
    var ref := Clamp(rpm, -cfg.maxRpm, cfg.maxRpm);
    var asked := known.(velocity := Some(ref));
    CommandWithin(id, cfg, asked, ref, io);
    VelocityWithin(id, cfg, asked, ref, false, io.first);
    WithinOn(cfg, m, asked, SetVelocity(m, id, cfg, rpm, init, io).0);
  }

  lemma StopsWithin(id: int, cfg: Config, m: Motor, io: StopInput)
    requires cfg.Valid()
    ensures WithinBetween(cfg, m, Stop(m, id, cfg, io).0)
    ensures WithinBetween(cfg, m, StopNow(m, id, cfg, io).0)
    ensures WithinBetween(cfg, m, EmergencyStop(m, id, cfg, io.transaction))
  {
    hide SendVelocity, SendCurrent, Within, SkipsStop;
    var aimed := m.(velocity := Some(0));
    ResetWithin(id, cfg, aimed, PI_FRESH, io.transaction);
    ResetWithin(id, cfg, m, PI_FRESH, io.transaction);
    VelocityWithin(id, cfg, m, 0, cfg.brakeOnStop, io.transaction);
    VelocityWithin(id, cfg, aimed, 0, cfg.brakeOnStop, io.transaction);
    var stopped := SendVelocity(aimed, id, cfg, 0, cfg.brakeOnStop, io.transaction);
    NoteWithin(cfg, stopped, [StopStamped(true, io.after)]);
    WithinOn(cfg, aimed, stopped, StampStop(stopped, true, io.after));
  }

  lemma RefreshWithin(id: int, cfg: Config, m: Motor, maxAgeSec: real, io: RefreshInput)
    requires cfg.Valid()
    ensures WithinBetween(cfg, m, Refresh(m, id, cfg, maxAgeSec, io).0)
  {
    hide Send, Within, IsZeroCommandFrame;
    if RefreshSends(m, cfg, maxAgeSec, io) {
      var sent := Send(m, id, ResentStop, m.lastSent.value, io.transaction);
      StopIsWithin(cfg, m.lastSent.value);
      SendWithin(id, cfg, m, ResentStop, m.lastSent.value, io.transaction);
      NoteWithin(cfg, sent, [StopStamped(io.transaction.Sent(), io.after)]);
      WithinOn(cfg, m, sent, StampStop(sent, io.transaction.Sent(), io.after));
    }
  }

  lemma StopIsWithin(cfg: Config, frame: Bytes)
    requires cfg.Valid() && IsZeroCommandFrame(frame)
    ensures Within(cfg, Handed(ResentStop, frame))
  {
  }

  /**
   * In every call every current frame handed over carries at most what the current limit in force
   * converts to, every velocity frame at most the speed limit in force, and a resent frame is a stop.
   */
  lemma EveryCallIsWithin(w: World, id: int, call: Call)
    requires w.cfg.Valid()
    ensures WithinBetween(w.cfg, w.motor, Step(w, id, call).motor)
  {
    hide SetVelocity, Stop, StopNow, EmergencyStop, Refresh, InitializeMotor, Within, PackModeFrame;
    match call
    case CallSetVelocity(rpm, init, io) => SetVelocityWithin(id, w.cfg, w.motor, rpm, init, io);
    case CallStop(io) => StopsWithin(id, w.cfg, w.motor, io);
    case CallStopNow(io) => StopsWithin(id, w.cfg, w.motor, io);
    case CallEmergencyStop(t) => StopsWithin(id, w.cfg, w.motor, StopInput(0.0, t, 0.0));
    case CallRefresh(age, io) => RefreshWithin(id, w.cfg, w.motor, age, io);
    case CallInitializeMotor(mode, io) => InitializeWithin(id, w.cfg, w.motor, mode, io);
    case CallSetControlMode(mode, c) =>
      NoteWithin(w.cfg, w.motor, ModeWrites(PackModeFrame(WireId(id), ModeValue(mode)), c));
    case CallConfigure(_) =>
    case CallConfigureCurrent(_) => NoteWithin(w.cfg, w.motor, [Cleared]);
    case CallShutdown(t) =>
      StopsWithin(id, w.cfg, w.motor, StopInput(0.0, t, 0.0));
      var stopped := if w.motor.velocity.Some? then EmergencyStop(w.motor, id, w.cfg, t) else w.motor;
      NoteWithin(w.cfg, stopped, [Cleared, Forgotten]);
      WithinOn(w.cfg, w.motor, stopped, Forget(stopped));
  }

  // ----- the slew of the target ----------------------------------------------------------------------

  /**
   * One step of the target goes towards the request, never past it, by at most the permitted rate
   * times the time of the step, and all the way when that is enough; what the loop gets is that value
   * to the nearest rpm.
   */
  lemma SlewIsLimited(pi: PiRecord, cfg: Config, speed: int, rpmRef: int, now: real)
    requires cfg.Valid() && cfg.maxAccelRpmPerSec > 0.0
    ensures var (pi', ref) := Slew(pi, cfg, speed, rpmRef, now);
            var from, to, dt := SlewFrom(pi, cfg, speed), pi'.refRpmFiltered, SlewTime(pi, now);
            && 0.0 < dt <= 0.2
            && AbsReal(to - from) <= cfg.maxAccelRpmPerSec * dt
            && (from <= rpmRef as real ==> from <= to <= rpmRef as real)
            && (from >= rpmRef as real ==> rpmRef as real <= to <= from)
            && (AbsReal(rpmRef as real - from) <= cfg.maxAccelRpmPerSec * dt ==> to == rpmRef as real)
            && AbsReal(ref as real - to) <= 0.5 && pi'.lastRefT == Some(now)
  {
    var dt := SlewTime(pi, now);
    assert cfg.maxAccelRpmPerSec * dt > 0.0;
  }

  /** What one current-mode command brings to the slew. */
  datatype Ask = Ask(speed: int, rpmRef: int, at: real)

  function SlewRun(pi: PiRecord, cfg: Config, asks: seq<Ask>): PiRecord
    requires cfg.Valid()
    decreases |asks|
  {
    if asks == [] then pi else
      var last := asks[|asks| - 1];
      Slew(SlewRun(pi, cfg, asks[..|asks| - 1]), cfg, last.speed, last.rpmRef, last.at).0
  }

  /** The command comes after the one before it, and at most 0.2 s later. */
  predicate InStep(since: real, asks: seq<Ask>, i: nat)
    requires i < |asks|
  {
    0.0 < asks[i].at - (if i == 0 then since else asks[i - 1].at) <= 0.2
  }

  predicate Steady(since: real, asks: seq<Ask>) {
    forall i: nat :: i < |asks| ==> InStep(since, asks, i)
  }

  /** From `x` to `y` in the time from `since` to `at`, at no more than this rate. */
  predicate Paced(rate: real, since: real, at: real, x: real, y: real) {
    AbsReal(y - x) <= rate * (at - since)
  }

  lemma PaceAdds(rate: real, a: real, b: real, c: real, x: real, y: real, z: real)
    requires Paced(rate, a, b, x, y) && Paced(rate, b, c, y, z)
    ensures Paced(rate, a, c, x, z)
  {
    assert rate * (c - a) == rate * (b - a) + rate * (c - b);
  }

  lemma StepIsPaced(pi: PiRecord, cfg: Config, ask: Ask)
    requires cfg.Valid() && cfg.maxAccelRpmPerSec > 0.0 && pi.lastRefT.Some?
    requires 0.0 < ask.at - pi.lastRefT.value <= 0.2
    ensures var pi' := Slew(pi, cfg, ask.speed, ask.rpmRef, ask.at).0;
            && pi'.lastRefT == Some(ask.at)
            && Paced(cfg.maxAccelRpmPerSec, pi.lastRefT.value, ask.at, pi.refRpmFiltered, pi'.refRpmFiltered)
  {
    hide Slew;
    SlewIsLimited(pi, cfg, ask.speed, ask.rpmRef, ask.at);
  }

  lemma StillSteady(since: real, asks: seq<Ask>)
    requires asks != [] && Steady(since, asks)
    ensures Steady(since, asks[..|asks| - 1])
  {
    var before := asks[..|asks| - 1];
    forall i: nat | i < |before| ensures InStep(since, before, i) {
      assert InStep(since, asks, i);
    }
  }

  /** Over a steady run, whatever is asked, the target moves by no more than the rate times the time passed. */
  lemma {:induction false} TargetRateIsLimited(pi: PiRecord, cfg: Config, since: real, asks: seq<Ask>)
    requires cfg.Valid() && cfg.maxAccelRpmPerSec > 0.0
    requires pi.lastRefT == Some(since) && Steady(since, asks)
    ensures var end := if asks == [] then since else asks[|asks| - 1].at;
            && SlewRun(pi, cfg, asks).lastRefT == Some(end)
            && Paced(cfg.maxAccelRpmPerSec, since, end, pi.refRpmFiltered, SlewRun(pi, cfg, asks).refRpmFiltered)
    decreases |asks|
  {
    hide Slew;
    if asks != [] {
      hide Paced;
      var before, last := asks[..|asks| - 1], asks[|asks| - 1];
      assert InStep(since, asks, |asks| - 1);
      StillSteady(since, asks);
      TargetRateIsLimited(pi, cfg, since, before);
      var middle := if before == [] then since else before[|before| - 1].at;
      var pi1 := SlewRun(pi, cfg, before);
      StepIsPaced(pi1, cfg, last);
      PaceAdds(cfg.maxAccelRpmPerSec, since, middle, last.at, pi.refRpmFiltered, pi1.refRpmFiltered,
               SlewRun(pi, cfg, asks).refRpmFiltered);
    }
  }
}
