/**
 * Every operation of the driver keeps a motor's trace lawful and its fields in step with the trace;
 * so both hold after any sequence of calls with any outcomes. From that follows what the driver
 * promises over runs: how long the latch holds, what values are handed over, and what a skipped stop
 * means.
 */
module MotorLaws {
  import opened Common
  import opened DdtProtocol
  import Pi = CurrentPi
  import G = RunawayGuard
  import opened MotorModel
  import opened MotorTrace

  // ----- the invariant ------------------------------------------------------------------------

  /** The driver's fields say exactly what the trace says. */
  predicate Fields(m: Motor, r: Reading) {
    && !Open(r) && r.writes == 0
    && (m.trip.Some? <==> r.latched)
    && (m.trip.Some? ==> m.mode == Some(Current))
    && m.lastSent == r.lastDone
    && m.lastStop == r.stamp
    && m.pi.guard == r.guard
    && (m.feedback.Some? ==> FeedbackMatches(m.feedback.value, r))
  }

  predicate FeedbackMatches(fb: Feedback, r: Reading) {
    && fb.consecutiveTimeouts == r.unanswered
    && (fb.hasFeedback <==> r.answer.Some?)
    && (fb.hasFeedback ==> fb.mode == r.answer.value.mode && fb.speed == FromBits(r.answer.value.speed))
  }

  ghost predicate Inv(id: int, m: Motor) {
    Lawful(id, m.trace) && Fields(m, Read(m.trace)) && Read(m.trace).verdict == G.NoTrip
  }

  predicate MayHand(m: Motor, kind: Kind, frame: Bytes) {
    && (m.trip.Some? ==> IsZeroCommandFrame(frame))
    && (kind.ResentStop? ==> IsZeroCommandFrame(frame) && m.lastSent == Some(frame))
    && (DrivingCurrent(kind, frame) ==>
          && m.trip.None? && !Stale(m.feedback)
          && m.feedback.value.mode == CURRENT_LOOP)
  }

  // ----- every operation keeps it ----------------------------------------------------------------

  /** Between transactions, and with no verdict to be acted on. */
  predicate Quiet(r: Reading) {
    !Open(r) && r.writes == 0 && r.verdict == G.NoTrip
  }

  lemma {:induction false} HandedCopies(id: int, t: seq<Event>, kind: Kind, frame: Bytes, n: nat)
    requires Lawful(id, t) && Quiet(Read(t)) && MayTransact(Read(t), kind, frame) && n <= 3
    ensures var t' := t + Copies(Handed(kind, frame), n);
            && Lawful(id, t')
            && Read(t') == Read(t).(last := if n == 0 then Read(t).last else Some(Handed(kind, frame)), writes := n)
    decreases n
  {
    hide IsZeroCommandFrame, Lawful, Read, AnswerIn, G.Update;
    var e := Handed(kind, frame);
    if n == 0 {
      assert t + Copies(e, 0) == t;
    } else {
      HandedCopies(id, t, kind, frame, n - 1);
      var before := t + Copies(e, n - 1);
      assert t + Copies(e, n) == before + [e];
      Snoc(id, before, e);
    }
  }

  /** The writes of a mode frame change nothing that is read off the trace. */
  lemma {:induction false} ModeCopies(id: int, t: seq<Event>, e: Event, n: nat)
    requires Lawful(id, t) && Quiet(Read(t)) && e.ModeSwitch?
    ensures var t' := t + Copies(e, n);
            && Lawful(id, t') && !Open(Read(t')) && Read(t') == Read(t).(last := Read(t').last)
    decreases n
  {
    hide IsZeroCommandFrame, Lawful, Read, AnswerIn, G.Update;
    if n == 0 {
      assert t + Copies(e, 0) == t;
    } else {
      ModeCopies(id, t, e, n - 1);
      var before := t + Copies(e, n - 1);
      assert t + Copies(e, n) == before + [e];
      Snoc(id, before, e);
    }
  }

  lemma ModeWritesKeep(id: int, m: Motor, frame: Bytes, c: Command)
    requires Inv(id, m)
    ensures Inv(id, Note(m, ModeWrites(frame, c)))
  {
    hide IsZeroCommandFrame, Lawful, Read, Absorb, FromBits;
    var shorts := m.trace + Copies(ModeSwitch(frame, false), c.short);
    ModeCopies(id, m.trace, ModeSwitch(frame, false), c.short);
    ModeCopies(id, shorts, ModeSwitch(frame, true), 1);
    assert Copies(ModeSwitch(frame, true), 1) == [ModeSwitch(frame, true)];
    assert m.trace + ModeWrites(frame, c) == if c.whole then shorts + [ModeSwitch(frame, true)] else shorts;
  }

  /** A transaction keeps everything, once the caller has recorded the frame it sent. */
  lemma SendKeeps(id: int, m: Motor, kind: Kind, frame: Bytes, t: Transaction)
    requires Inv(id, m) && MayHand(m, kind, frame)
    ensures var sent := Send(m, id, kind, frame, t);
            && Inv(id, sent.(lastSent := if t.Sent() then Some(frame) else m.lastSent))
            && sent.mode == m.mode && sent.trip == m.trip && sent.pi == m.pi
            && (AnswerTo(id, t).Some? ==> sent.feedback.Some? && sent.feedback.value.hasFeedback)
            && (t.Sent() ==> LastIs(sent.trace, kind, frame))
  {
    hide IsZeroCommandFrame, FromBits, Lawful, Read, AnswerIn, G.Update;
    var r, handed := Read(m.trace), m.trace + Copies(Handed(kind, frame), t.writes);
    assert MayTransact(r, kind, frame);
    HandedCopies(id, m.trace, kind, frame, t.writes);
    assert MayTransact(Read(handed), kind, frame);
    if t.Sent() {
      var heard := t.outcome.heard;
      Snoc(id, handed, Done(kind, frame, heard, AnswerIn(WireId(id), heard), t.at));
    } else {
      Snoc(id, handed, Failed(kind, frame, t.writes));
    }
  }

  /** The trace ends with the success of this frame. */
  predicate LastIs(t: seq<Event>, kind: Kind, frame: Bytes) {
    var last := Read(t).last;
    last.Some? && last.value.Done? && last.value.kind == kind && last.value.frame == frame
  }

  predicate EndsInStop(t: seq<Event>) {
    Read(t).last.Some? && StopSent(Read(t).last.value)
  }

  lemma SendCurrentKeeps(id: int, m: Motor, raw: int, t: Transaction)
    requires Inv(id, m) && -32768 <= raw < 32768
    requires raw != 0 ==> m.trip.None? && !Stale(m.feedback) && m.feedback.value.mode == CURRENT_LOOP
    ensures var sent := SendCurrent(m, id, raw, t);
            && Inv(id, sent) && sent.mode == m.mode && sent.trip == m.trip
            && (AnswerTo(id, t).Some? ==> sent.feedback.Some? && sent.feedback.value.hasFeedback)
  {
    hide Inv, IsZeroCommandFrame, PackCurrentFrame, PackVelocityFrame, ToBits, LastIs, AnswerTo;
    var frame := PackCurrentFrame(WireId(id), ToBits(raw));
    CommandFrames(WireId(id), raw, 0, false);
    assert raw == 0 ==> IsZeroCommandFrame(frame);
    SendKeeps(id, m, CurrentCommand, frame, t);
    var sent := Send(m, id, CurrentCommand, frame, t);
    StatsAreIrrelevant(id, sent.(lastSent := if t.Sent() then Some(frame) else m.lastSent), SendCurrent(m, id, raw, t));
  }

  lemma SendVelocityKeeps(id: int, m: Motor, cfg: Config, rpm: int, brake: bool, t: Transaction)
    requires Inv(id, m) && cfg.Valid() && (m.trip.Some? ==> rpm == 0)
    ensures var sent := SendVelocity(m, id, cfg, rpm, brake, t);
            && Inv(id, sent) && sent.mode == m.mode && sent.trip == m.trip
            && (rpm == 0 && t.Sent() ==> EndsInStop(sent.trace))
  {
    hide Inv, IsZeroCommandFrame, PackCurrentFrame, PackVelocityFrame, ToBits, Read;
    var v := Clamp(rpm, -cfg.maxRpm, cfg.maxRpm);
    var frame := PackVelocityFrame(WireId(id), ToBits(v), Byte(cfg.accelTime), brake);
    CommandFrames(WireId(id), v, Byte(cfg.accelTime), brake);
    SendKeeps(id, m, VelocityCommand, frame, t);
    var sent := Send(m, id, VelocityCommand, frame, t);
    StatsAreIrrelevant(id, sent.(lastSent := if t.Sent() then Some(frame) else m.lastSent),
                       SendVelocity(m, id, cfg, rpm, brake, t));
  }

  /** The target, the integral and the clocks of the loop and the statistics play no part in the invariant. */
  lemma StatsAreIrrelevant(id: int, a: Motor, b: Motor)
    requires Inv(id, a)
    requires b.trace == a.trace && b.trip == a.trip && b.mode == a.mode && b.pi.guard == a.pi.guard
    requires b.lastSent == a.lastSent && b.feedback == a.feedback && b.lastStop == a.lastStop
    ensures Inv(id, b)
  {
  }

  lemma ResetKeeps(id: int, m: Motor, pi: PiRecord)
    requires Inv(id, m) && pi.guard == G.FRESH
    ensures Inv(id, Note(m, [GuardReset]).(pi := pi))
  {
    hide IsZeroCommandFrame, Lawful, Read;
    Snoc(id, m.trace, GuardReset);
  }

  lemma LatchKeeps(id: int, m: Motor, trip: G.GuardTrip, t: Transaction)
    requires Lawful(id, m.trace) && Fields(m, Read(m.trace)) && MayTrip(Read(m.trace), trip)
    requires m.mode == Some(Current)
    ensures Inv(id, LatchAndSendZero(m, id, trip, t))
    ensures LatchAndSendZero(m, id, trip, t).trip == Some(trip)
    ensures LatchAndSendZero(m, id, trip, t).mode == m.mode
  {
    hide IsZeroCommandFrame, Lawful, Read, G.Update, SendCurrent, AnswerIn;
    var latched := Note(m, [Tripped(trip)]).(trip := Some(trip));
    Snoc(id, m.trace, Tripped(trip));
    Snoc(id, latched.trace, GuardReset);
    SendCurrentKeeps(id, ResetLoop(latched), 0, t);
  }

  lemma CommandCurrentKeeps(id: int, m: Motor, cfg: Config, rpmRef: int, io: CurrentInput)
    requires Inv(id, m) && cfg.Valid() && m.mode == Some(Current)
    ensures Inv(id, CommandCurrent(m, id, cfg, rpmRef, io).0)
  {
    hide Inv, Slew, LoopStep, SendCurrent, JudgeAnswer, LatchAndSendZero;
    if m.trip.Some? || Stale(m.feedback) {
      ResetKeeps(id, m, PI_FRESH);
      SendCurrentKeeps(id, ResetLoop(m), 0, io.first);
    } else if m.feedback.value.mode != CURRENT_LOOP {
      OtherModeMayTrip(id, m);
      LatchKeeps(id, m, G.ModeMismatch, io.first);
    } else {
      var speed := m.feedback.value.speed;
      var (slewed, ref) := Slew(m.pi, cfg, speed, rpmRef, io.slewAt);
      SlewKeepsGuard(m.pi, cfg, speed, rpmRef, io.slewAt);
      var still := slewed.(integralAmp := 0.0, lastT := None, guard := G.FRESH);
      ResetKeeps(id, m, still);
      SendCurrentKeeps(id, Note(m, [GuardReset]).(pi := still), 0, io.first);
      var (stepped, step) := LoopStep(slewed, cfg, speed, ref, io.stepAt);
      StatsAreIrrelevant(id, m, m.(pi := stepped));
      SendCurrentKeeps(id, m.(pi := stepped), step.raw, io.first);
      var sent := SendCurrent(m.(pi := stepped), id, step.raw, io.first);
      JudgeKeeps(id, sent, cfg, ref, speed, Pi.RawToAmp(m.stats.lastCurrentRaw), step.commandAmp,
                 io.guardAt, io.first, io.second);
    }
  }

  /** The slew and the loop step leave the guard alone and keep the raw value in range. */
  lemma SlewKeepsGuard(pi: PiRecord, cfg: Config, speed: int, rpmRef: int, now: real)
    requires cfg.Valid()
    ensures Slew(pi, cfg, speed, rpmRef, now).0.guard == pi.guard
    ensures forall st: PiRecord, ref: int, at: real :: LoopStep(st, cfg, speed, ref, at).0.guard == st.guard
                                                       && -32767 <= LoopStep(st, cfg, speed, ref, at).1.raw <= 32767
  {
    hide Approach, ClampReal, MaxStep, Oriented, Pi.Lround;
    forall st: PiRecord, ref: int, at: real
      ensures LoopStep(st, cfg, speed, ref, at).0.guard == st.guard
      ensures -32767 <= LoopStep(st, cfg, speed, ref, at).1.raw <= 32767
    {
      RawInRange(st, cfg, speed, ref, at);
    }
  }

  lemma RawInRange(pi: PiRecord, cfg: Config, speed: int, rpmRef: int, now: real)
    requires cfg.Valid()
    ensures -32767 <= LoopStep(pi, cfg, speed, rpmRef, now).1.raw <= 32767
  {
  }

  lemma OtherModeMayTrip(id: int, m: Motor)
    requires Inv(id, m) && m.feedback.Some? && m.feedback.value.hasFeedback && m.feedback.value.mode != CURRENT_LOOP
    ensures MayTrip(Read(m.trace), G.ModeMismatch) && Fields(m, Read(m.trace)) && Lawful(id, m.trace)
  {
  }

  lemma JudgeKeeps(id: int, sent: Motor, cfg: Config, rpmRef: int, before: int, applied: real, command: real,
                   guardAt: real, first: Transaction, second: Transaction)
    requires Inv(id, sent) && sent.mode == Some(Current)
    requires AnswerTo(id, first).Some? ==> sent.feedback.Some? && sent.feedback.value.hasFeedback
    ensures Inv(id, JudgeAnswer(sent, id, cfg, rpmRef, before, applied, command, guardAt, first, second).0)
  {
    hide G.Update, LatchAndSendZero, AnswerTo, Lawful, Read, IsZeroCommandFrame, FeedbackMatches;
    if AnswerTo(id, first).Some? {
      if sent.feedback.value.mode != CURRENT_LOOP {
        OtherModeMayTrip(id, sent);
        LatchKeeps(id, sent, G.ModeMismatch, second);
      } else {
        var sample := G.Sample(guardAt, rpmRef, Oriented(cfg, before), Oriented(cfg, sent.feedback.value.speed),
                               applied, command, cfg.pi.maxCurrentAmp, cfg.guard);
        var (guard, trip) := G.Update(sent.pi.guard, sample);
        var judged := Note(sent, [Judged(sample)]).(pi := sent.pi.(guard := guard));
        Snoc(id, sent.trace, Judged(sample));
        FeedbackStays(sent, Read(sent.trace), Read(judged.trace));
        if trip != G.NoTrip {
          LatchKeeps(id, judged, trip, second);
        }
      }
    }
  }

  lemma FeedbackStays(m: Motor, r: Reading, r': Reading)
    requires r'.unanswered == r.unanswered && r'.answer == r.answer
    ensures m.feedback.Some? && FeedbackMatches(m.feedback.value, r) ==> FeedbackMatches(m.feedback.value, r')
  {
  }

  lemma PrimeKeeps(id: int, m: Motor, cfg: Config, mode: ControlMode, t: Transaction)
    requires Inv(id, m) && cfg.Valid()
    ensures Inv(id, Prime(m, id, cfg, mode, t))
    ensures Prime(m, id, cfg, mode, t).mode == m.mode && Prime(m, id, cfg, mode, t).trip == m.trip
  {
    hide Inv, SendCurrent, SendVelocity;
    if mode.Current? {
      SendCurrentKeeps(id, m, 0, t);
    } else {
      SendVelocityKeeps(id, m, cfg, 0, cfg.brakeOnStop, t);
    }
  }

  lemma StartOverKeeps(id: int, m: Motor, mode: ControlMode)
    requires Inv(id, m)
    ensures Inv(id, StartOver(m, mode))
  {
    hide IsZeroCommandFrame, FromBits, Lawful, Read, G.Update;
    var reset := m.trace + [GuardReset];
    var registered := reset + [Registered];
    Snoc(id, m.trace, GuardReset);
    Snoc(id, reset, Registered);
    Snoc(id, registered, Cleared);
    assert StartOver(m, mode).trace == registered + [Cleared];
  }

  lemma InitializeMotorKeeps(id: int, m: Motor, cfg: Config, mode: ControlMode, io: InitInput)
    requires Inv(id, m) && cfg.Valid()
    ensures var (m', ok) := InitializeMotor(m, id, cfg, mode, io);
            && Inv(id, m')
            && (io.modeFrame.Ok() ==> m'.trip == None)
            && (ok ==> m'.mode == Some(mode))
  {
    hide Prime, Inv, TryLegacy, PackModeFrame;
    var asked := SetControlMode(m, id, mode, io.modeFrame);
    SetControlModeKeeps(id, m, mode, io.modeFrame);
    if io.modeFrame.Ok() {
      var started := StartOver(asked, mode);
      StartOverKeeps(id, asked, mode);
      PrimeKeeps(id, started, cfg, mode, io.prime);
      TryLegacyKeeps(id, Prime(started, id, cfg, mode, io.prime), cfg, mode, io);
      WithoutMode(id, Settle(started, id, cfg, mode, io));
    }
  }

  lemma WithoutMode(id: int, m: Motor)
    requires Inv(id, m) && m.trip.None?
    ensures Inv(id, m.(mode := None))
  {
  }

  lemma SetControlModeKeeps(id: int, m: Motor, mode: ControlMode, c: Command)
    requires Inv(id, m)
    ensures Inv(id, SetControlMode(m, id, mode, c))
  {
    ModeWritesKeep(id, m, PackModeFrame(WireId(id), ModeValue(mode)), c);
  }

  lemma TryLegacyKeeps(id: int, m: Motor, cfg: Config, mode: ControlMode, io: InitInput)
    requires Inv(id, m) && cfg.Valid() && m.trip.None?
    ensures Inv(id, TryLegacy(m, id, cfg, mode, io))
    ensures TryLegacy(m, id, cfg, mode, io).trip.None? && TryLegacy(m, id, cfg, mode, io).mode == m.mode
  {
    hide Prime, Lawful, Read, IsZeroCommandFrame, PackModeFrameLegacy;
    var frame := PackModeFrameLegacy(WireId(id), ModeValue(mode));
    ModeWritesKeep(id, m, frame, io.legacyFrame);
    if io.legacyFrame.Ok() {
      var tried := Note(m, ModeWrites(frame, io.legacyFrame));
      Snoc(id, tried.trace, Registered);
      PrimeKeeps(id, Note(tried, [Registered]).(feedback := Some(NO_FEEDBACK)), cfg, mode, io.reprime);
    }
  }

  lemma SetVelocityKeeps(id: int, m: Motor, cfg: Config, rpm: int, init: InitInput, io: CurrentInput)
    requires Inv(id, m) && cfg.Valid()
    ensures Inv(id, SetVelocity(m, id, cfg, rpm, init, io).0)
  {
    hide CommandCurrent, InitializeMotor, SendVelocity, Lawful, Read;
    if m.mode.None? {
      InitializeMotorKeeps(id, m, cfg, Velocity, init);
    }
    var (known, ok) := if m.mode.None? then InitializeMotor(m, id, cfg, Velocity, init) else (m, true);
    if ok {
      var ref := Clamp(rpm, -cfg.maxRpm, cfg.maxRpm);
      var asked := known.(velocity := Some(ref));
      if asked.mode == Some(Current) {
        CommandCurrentKeeps(id, asked, cfg, ref, io);
      } else {
        SendVelocityKeeps(id, asked, cfg, ref, false, io.first);
      }
    }
  }

  lemma StampKeeps(id: int, m: Motor, sent: bool, after: real)
    requires Inv(id, m) && (sent ==> EndsInStop(m.trace))
    ensures Inv(id, StampStop(m, sent, after))
  {
    hide IsZeroCommandFrame, Lawful, Read;
    Snoc(id, m.trace, StopStamped(sent, after));
  }

  lemma StopsKeep(id: int, m: Motor, cfg: Config, io: StopInput)
    requires Inv(id, m) && cfg.Valid()
    ensures Inv(id, Stop(m, id, cfg, io).0)
    ensures Inv(id, StopNow(m, id, cfg, io).0)
    ensures Inv(id, EmergencyStop(m, id, cfg, io.transaction))
  {
    hide Inv, SendVelocity, SendCurrent, StampStop, EndsInStop, LastSentIsZero, Throttled;
    var aimed := m.(velocity := Some(0));
    StatsAreIrrelevant(id, m, aimed);
    if m.mode == Some(Current) {
      ResetKeeps(id, aimed, PI_FRESH);
      ResetKeeps(id, m, PI_FRESH);
      SendCurrentKeeps(id, ResetLoop(aimed), 0, io.transaction);
      SendCurrentKeeps(id, ResetLoop(m), 0, io.transaction);
    } else {
      SendVelocityKeeps(id, aimed, cfg, 0, cfg.brakeOnStop, io.transaction);
      SendVelocityKeeps(id, m, cfg, 0, cfg.brakeOnStop, io.transaction);
      if io.transaction.Sent() {
        StampKeeps(id, SendVelocity(aimed, id, cfg, 0, cfg.brakeOnStop, io.transaction), true, io.after);
      }
    }
  }

  lemma RefreshKeeps(id: int, m: Motor, cfg: Config, maxAgeSec: real, io: RefreshInput)
    requires Inv(id, m)
    ensures Inv(id, Refresh(m, id, cfg, maxAgeSec, io).0)
  {
    hide Inv, IsZeroCommandFrame, Read, StampStop;
    if RefreshSends(m, cfg, maxAgeSec, io) {
      SendKeeps(id, m, ResentStop, m.lastSent.value, io.transaction);
      var sent := Send(m, id, ResentStop, m.lastSent.value, io.transaction);
      assert sent.lastSent == m.lastSent;
      assert sent.(lastSent := m.lastSent) == sent;
      StampKeeps(id, sent, io.transaction.Sent(), io.after);
    }
  }

  lemma ClearKeeps(id: int, m: Motor)
    requires Inv(id, m)
    ensures Inv(id, ClearTrip(m)) && Inv(id, Forget(m))
  {
    hide IsZeroCommandFrame, Lawful, Read;
    Snoc(id, m.trace, Cleared);
    Snoc(id, m.trace + [Cleared], Forgotten);
    assert Forget(m).trace == (m.trace + [Cleared]) + [Forgotten];
  }

  // ----- whole runs -----------------------------------------------------------------------------

  /** One call of the driver as it concerns one motor, with the outcomes it met. */
  datatype Call =
    | CallSetVelocity(rpm: int, init: InitInput, current: CurrentInput)
    | CallStop(stop: StopInput)
    | CallStopNow(stop: StopInput)
    | CallEmergencyStop(transaction: Transaction)
    | CallRefresh(maxAgeSec: real, refresh: RefreshInput)
    | CallInitializeMotor(mode: ControlMode, init: InitInput)
    | CallSetControlMode(mode: ControlMode, frame: Command)
    | CallConfigure(config: Config)                 // a setter that leaves the latch alone
    | CallConfigureCurrent(config: Config)          // a current-mode setter: releases the latch
    | CallShutdown(transaction: Transaction)

  datatype World = World(cfg: Config, motor: Motor)

  function Step(w: World, id: int, call: Call): (w': World)
    requires w.cfg.Valid()
    ensures w'.cfg.Valid()
  {
    match call
    case CallSetVelocity(rpm, init, io) => w.(motor := SetVelocity(w.motor, id, w.cfg, rpm, init, io).0)
    case CallStop(io) => w.(motor := Stop(w.motor, id, w.cfg, io).0)
    case CallStopNow(io) => w.(motor := StopNow(w.motor, id, w.cfg, io).0)
    case CallEmergencyStop(t) => w.(motor := EmergencyStop(w.motor, id, w.cfg, t))
    case CallRefresh(age, io) => w.(motor := Refresh(w.motor, id, w.cfg, age, io).0)
    case CallInitializeMotor(mode, io) => w.(motor := InitializeMotor(w.motor, id, w.cfg, mode, io).0)
    case CallSetControlMode(mode, c) => w.(motor := SetControlMode(w.motor, id, mode, c))
    case CallConfigure(cfg) => if cfg.Valid() then w.(cfg := cfg) else w
    case CallConfigureCurrent(cfg) => if cfg.Valid() then World(cfg, ClearTrip(w.motor)) else w
    case CallShutdown(t) =>
      w.(motor := Forget(if w.motor.velocity.Some? then EmergencyStop(w.motor, id, w.cfg, t) else w.motor))
  }

  function Run(w: World, id: int, calls: seq<Call>): (w': World)
    requires w.cfg.Valid()
    ensures w'.cfg.Valid()
    decreases |calls|
  {
    if calls == [] then w else Step(Run(w, id, calls[..|calls| - 1]), id, calls[|calls| - 1])
  }

  lemma StepKeeps(w: World, id: int, call: Call)
    requires w.cfg.Valid() && Inv(id, w.motor)
    ensures Inv(id, Step(w, id, call).motor)
  {
    hide Inv, SetVelocity, Stop, StopNow, EmergencyStop, Refresh, InitializeMotor, ClearTrip, Forget;
    match call
    case CallSetVelocity(rpm, init, io) => SetVelocityKeeps(id, w.motor, w.cfg, rpm, init, io);
    case CallStop(io) => StopsKeep(id, w.motor, w.cfg, io);
    case CallStopNow(io) => StopsKeep(id, w.motor, w.cfg, io);
    case CallEmergencyStop(t) => StopsKeep(id, w.motor, w.cfg, StopInput(0.0, t, 0.0));
    case CallRefresh(age, io) => RefreshKeeps(id, w.motor, w.cfg, age, io);
    case CallInitializeMotor(mode, io) => InitializeMotorKeeps(id, w.motor, w.cfg, mode, io);
    case CallSetControlMode(mode, c) => SetControlModeKeeps(id, w.motor, mode, c);
    case CallConfigure(cfg) =>
    case CallConfigureCurrent(cfg) => ClearKeeps(id, w.motor);
    case CallShutdown(t) =>
      StopsKeep(id, w.motor, w.cfg, StopInput(0.0, t, 0.0));
      ClearKeeps(id, if w.motor.velocity.Some? then EmergencyStop(w.motor, id, w.cfg, t) else w.motor);
  }

  /** After any sequence of calls, with any outcomes, the fields and the trace agree and are lawful. */
  lemma {:induction false} EveryRunIsLawful(cfg: Config, id: int, calls: seq<Call>)
    requires cfg.Valid()
    ensures Inv(id, Run(World(cfg, UNKNOWN_MOTOR), id, calls).motor)
    decreases |calls|
  {
    hide Step;
    if calls != [] {
      EveryRunIsLawful(cfg, id, calls[..|calls| - 1]);
      StepKeeps(Run(World(cfg, UNKNOWN_MOTOR), id, calls[..|calls| - 1]), id, calls[|calls| - 1]);
    }
  }

  /** The guard's records leave room for one more, so its "array full" branch is never taken. */
  predicate HasRoom(m: Motor) {
    |m.pi.guard.switches| < G.OSCILLATION_SWITCHES
  }

  lemma UpdateKeepsRoom(g: G.Guard, s: G.Sample)
    requires |g.switches| < G.OSCILLATION_SWITCHES
    ensures |G.DropExpired(g.switches, s.nowSec)| < G.OSCILLATION_SWITCHES
    ensures G.Update(g, s).1 == G.NoTrip ==> |G.Update(g, s).0.switches| < G.OSCILLATION_SWITCHES
  {
    G.DropShortens(g.switches, s.nowSec);
  }

  lemma CommandCurrentKeepsRoom(m: Motor, id: int, cfg: Config, rpmRef: int, io: CurrentInput)
    requires cfg.Valid() && HasRoom(m)
    ensures HasRoom(CommandCurrent(m, id, cfg, rpmRef, io).0)
  {
    hide G.Update;
    if m.feedback.Some? {
      var speed := m.feedback.value.speed;
      var (slewed, ref) := Slew(m.pi, cfg, speed, rpmRef, io.slewAt);
      assert slewed.guard == m.pi.guard;
      var (stepped, step) := LoopStep(slewed, cfg, speed, ref, io.stepAt);
      assert stepped.guard == m.pi.guard;
      var sent := SendCurrent(m.(pi := stepped), id, step.raw, io.first);
      assert sent.pi == stepped;
      JudgeKeepsRoom(sent, id, cfg, ref, speed, Pi.RawToAmp(m.stats.lastCurrentRaw), step.commandAmp,
                     io.guardAt, io.first, io.second);
    }
  }

  lemma JudgeKeepsRoom(sent: Motor, id: int, cfg: Config, rpmRef: int, before: int, applied: real, command: real,
                       guardAt: real, first: Transaction, second: Transaction)
    requires HasRoom(sent)
    ensures HasRoom(JudgeAnswer(sent, id, cfg, rpmRef, before, applied, command, guardAt, first, second).0)
  {
    hide G.Update;
    if sent.feedback.Some? {
      var sample := G.Sample(guardAt, rpmRef, Oriented(cfg, before), Oriented(cfg, sent.feedback.value.speed),
                             applied, command, cfg.pi.maxCurrentAmp, cfg.guard);
      UpdateKeepsRoom(sent.pi.guard, sample);
    }
  }

  lemma SendingKeepsPi(m: Motor, id: int, cfg: Config, brake: bool, t: Transaction)
    requires cfg.Valid()
    ensures forall raw :: -32768 <= raw < 32768 ==> SendCurrent(m, id, raw, t).pi == m.pi
    ensures forall rpm :: SendVelocity(m, id, cfg, rpm, brake, t).pi == m.pi
  {
  }

  lemma InitializeMotorKeepsRoom(m: Motor, id: int, cfg: Config, mode: ControlMode, io: InitInput)
    requires cfg.Valid() && HasRoom(m)
    ensures HasRoom(InitializeMotor(m, id, cfg, mode, io).0)
  {
    hide SendCurrent, SendVelocity;
    var started := StartOver(SetControlMode(m, id, mode, io.modeFrame), mode);
    SendingKeepsPi(started, id, cfg, cfg.brakeOnStop, io.prime);
    var primed := Prime(started, id, cfg, mode, io.prime);
    var tried := Note(primed, ModeWrites(PackModeFrameLegacy(WireId(id), ModeValue(mode)), io.legacyFrame));
    SendingKeepsPi(Note(tried, [Registered]).(feedback := Some(NO_FEEDBACK)), id, cfg, cfg.brakeOnStop, io.reprime);
  }

  lemma SetVelocityKeepsRoom(m: Motor, id: int, cfg: Config, rpm: int, init: InitInput, io: CurrentInput)
    requires cfg.Valid() && HasRoom(m)
    ensures HasRoom(SetVelocity(m, id, cfg, rpm, init, io).0)
  {
    hide CommandCurrent, InitializeMotor, SendVelocity;
    InitializeMotorKeepsRoom(m, id, cfg, Velocity, init);
    var known := if m.mode.None? then InitializeMotor(m, id, cfg, Velocity, init).0 else m;
    var ref := Clamp(rpm, -cfg.maxRpm, cfg.maxRpm);
    var asked := known.(velocity := Some(ref));
    CommandCurrentKeepsRoom(asked, id, cfg, ref, io);
    SendingKeepsPi(asked, id, cfg, false, io.first);
  }

  lemma StopsKeepRoom(m: Motor, id: int, cfg: Config, io: StopInput)
    requires cfg.Valid() && HasRoom(m)
    ensures HasRoom(Stop(m, id, cfg, io).0) && HasRoom(StopNow(m, id, cfg, io).0)
    ensures HasRoom(EmergencyStop(m, id, cfg, io.transaction))
  {
    hide SendCurrent, SendVelocity;
    var aimed := m.(velocity := Some(0));
    SendingKeepsPi(aimed, id, cfg, cfg.brakeOnStop, io.transaction);
    SendingKeepsPi(m, id, cfg, cfg.brakeOnStop, io.transaction);
    SendingKeepsPi(ResetLoop(aimed), id, cfg, cfg.brakeOnStop, io.transaction);
    SendingKeepsPi(ResetLoop(m), id, cfg, cfg.brakeOnStop, io.transaction);
  }

  lemma StepKeepsRoom(w: World, id: int, call: Call)
    requires w.cfg.Valid() && HasRoom(w.motor)
    ensures HasRoom(Step(w, id, call).motor)
  {
    hide SetVelocity, InitializeMotor, Stop, StopNow, EmergencyStop;
    match call
    case CallSetVelocity(rpm, init, io) => SetVelocityKeepsRoom(w.motor, id, w.cfg, rpm, init, io);
    case CallStop(io) => StopsKeepRoom(w.motor, id, w.cfg, io);
    case CallStopNow(io) => StopsKeepRoom(w.motor, id, w.cfg, io);
    case CallEmergencyStop(t) => StopsKeepRoom(w.motor, id, w.cfg, StopInput(0.0, t, 0.0));
    case CallInitializeMotor(mode, io) => InitializeMotorKeepsRoom(w.motor, id, w.cfg, mode, io);
    case _ =>
  }

  /** Because the driver resets the guard at every trip, its records are never full between calls. */
  lemma {:induction false} EveryRunKeepsRoom(cfg: Config, id: int, calls: seq<Call>)
    requires cfg.Valid()
    ensures HasRoom(Run(World(cfg, UNKNOWN_MOTOR), id, calls).motor)
    decreases |calls|
  {
    hide Step;
    if calls != [] {
      EveryRunKeepsRoom(cfg, id, calls[..|calls| - 1]);
      StepKeepsRoom(Run(World(cfg, UNKNOWN_MOTOR), id, calls[..|calls| - 1]), id, calls[|calls| - 1]);
    }
  }

  /** Between calls the samples since the last reset give no reason to trip. */
  lemma NoReasonBetweenCalls(id: int, m: Motor, now: real)
    requires Inv(id, m) && InOrder(m.trace, now)
    ensures G.Reason(Samples(m.trace)) == G.NoTrip && G.Tracks(m.pi.guard, Samples(m.trace))
  {
    hide Lawful, Read, InOrder, G.Tracks, G.Reason;
    GuardTracksSamples(id, m.trace, now);
  }

  // ----- the latch over calls -----------------------------------------------------------------

  /**
   * The calls that release the latch: an `initializeMotor` whose mode frame goes out, the four
   * current-mode setters, `shutdown`.
   */
  predicate Releases(call: Call) {
    (call.CallInitializeMotor? && call.init.modeFrame.Ok()) || call.CallConfigureCurrent? || call.CallShutdown?
  }

  /** From `m` to `m'` the latch was held, and every command frame handed over in between is a stop. */
  predicate HeldBetween(m: Motor, m': Motor) {
    && m'.trip == m.trip && m'.mode == Some(Current)
    && m.trace <= m'.trace
    && forall k :: |m.trace| <= k < |m'.trace| ==>
         m'.trace[k] != Cleared && (m'.trace[k].Handed? ==> IsZeroCommandFrame(m'.trace[k].frame))
  }

  lemma StopFrameHolds(id: int, m: Motor, kind: Kind, frame: Bytes, t: Transaction)
    requires m.mode == Some(Current) && IsZeroCommandFrame(frame)
    ensures HeldBetween(m, Send(m, id, kind, frame, t))
  {
    hide IsZeroCommandFrame;
  }

  lemma ZeroCurrentHolds(m: Motor, id: int, t: Transaction)
    requires m.mode == Some(Current)
    ensures HeldBetween(m, SendCurrent(m, id, 0, t))
  {
    hide IsZeroCommandFrame, PackCurrentFrame, ToBits, Send, WireId;
    CommandFrames(WireId(id), 0, 0, false);
    StopFrameHolds(id, m, CurrentCommand, PackCurrentFrame(WireId(id), ToBits(0)), t);
  }

  lemma CallHolds(w: World, id: int, call: Call)
    requires w.cfg.Valid() && Inv(id, w.motor) && w.motor.trip.Some? && !Releases(call)
    ensures HeldBetween(w.motor, Step(w, id, call).motor)
  {
    hide IsZeroCommandFrame, PackCurrentFrame, PackModeFrame, SendCurrent, Send, SendVelocity, InitializeMotor,
         HoldStill, Drive, Slew, Lawful, FeedbackMatches, Read;
    var m := w.motor;
    match call
    case CallSetVelocity(rpm, _, io) =>
      var ref := Clamp(rpm, -w.cfg.maxRpm, w.cfg.maxRpm);
      ZeroCurrentHolds(ResetLoop(m.(velocity := Some(ref))), id, io.first);
    case CallStop(io) => ZeroCurrentHolds(ResetLoop(m.(velocity := Some(0))), id, io.transaction);
    case CallStopNow(io) => ZeroCurrentHolds(ResetLoop(m.(velocity := Some(0))), id, io.transaction);
    case CallEmergencyStop(t) => ZeroCurrentHolds(ResetLoop(m), id, t);
    case CallRefresh(age, io) =>
      if !FeedbackYoungerThan(m, age, io.now) && RefreshSends(m, w.cfg, age, io) {
        StopFrameHolds(id, m, ResentStop, m.lastSent.value, io.transaction);
      }
    case CallInitializeMotor(mode, io) => RefusedStartHolds(m, id, w.cfg, mode, io);
    case CallSetControlMode(mode, c) =>
    case CallConfigure(_) =>
  }

  lemma RefusedStartHolds(m: Motor, id: int, cfg: Config, mode: ControlMode, io: InitInput)
    requires cfg.Valid() && m.mode == Some(Current) && !io.modeFrame.Ok()
    ensures HeldBetween(m, InitializeMotor(m, id, cfg, mode, io).0)
  {
    hide BroughtUp, PackModeFrame, IsZeroCommandFrame;
  }

  /**
   * Whatever is called after a trip, with whatever outcomes: until a mode frame goes out to initialise
   * the motor, one of the current-mode setters is called or the driver shuts down, the latch holds,
   * every command frame handed to the motor commands 0, and the driver is not healthy. By
   * `EveryRunIsLawful` this is so from every reachable state.
   */
  lemma {:induction false} LatchOutlastsCalls(w: World, id: int, calls: seq<Call>)
    requires w.cfg.Valid() && Inv(id, w.motor) && w.motor.trip.Some?
    requires forall k :: 0 <= k < |calls| ==> !Releases(calls[k])
    ensures Inv(id, Run(w, id, calls).motor)
    ensures HeldBetween(w.motor, Run(w, id, calls).motor) && !Healthy(Run(w, id, calls).motor)
    decreases |calls|
  {
    hide Step, Inv, IsZeroCommandFrame;
    if calls == [] {
      LatchedIsCurrent(id, w.motor);
    } else {
      var before, call := calls[..|calls| - 1], calls[|calls| - 1];
      LatchOutlastsCalls(w, id, before);
      CallHolds(Run(w, id, before), id, call);
      StepKeeps(Run(w, id, before), id, call);
      HeldOn(w.motor, Run(w, id, before).motor, Run(w, id, calls).motor);
    }
  }

  lemma LatchedIsCurrent(id: int, m: Motor)
    requires Inv(id, m) && m.trip.Some?
    ensures m.mode == Some(Current)
  {
  }

  lemma HeldOn(a: Motor, b: Motor, c: Motor)
    requires HeldBetween(a, b) && HeldBetween(b, c)
    ensures HeldBetween(a, c)
  {
  }

  /** While the latch holds the driver is not healthy. */
  lemma TripIsUnhealthy(id: int, m: Motor, i: nat)
    requires Inv(id, m) && i < |m.trace| && m.trace[i].Tripped?
    requires forall k :: i < k < |m.trace| ==> !m.trace[k].Cleared?
    ensures !Healthy(m) && m.mode == Some(Current)
  {
    LatchedUntilCleared(m.trace, i);
  }
}
