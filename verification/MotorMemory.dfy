/**
 * What the driver remembers of a motor over whole runs: that its mode was sent since it was last
 * forgotten, before anything drives it, and which current it was last given.
 */
module MotorMemory {
  import opened Common
  import opened DdtProtocol
  import Pi = CurrentPi
  import G = RunawayGuard
  import opened MotorModel
  import opened MotorLaws
  import opened MotorCommands

  /** What a trace tells of a motor's mode and current. */
  datatype Memory = Memory(
    ready: bool,     // a whole mode frame went out since the motor was last forgotten
    orderly: bool,    // nothing but stops was handed over before one did
    current: int,     // the value of the last current frame that succeeded since then
    answered: nat,    // the transactions since then that were answered
    silent: nat)      // and those that were not

  function Remember(d: Memory, e: Event): Memory {
    match e
    case ModeSwitch(_, whole) => d.(ready := d.ready || whole)
    case Forgotten => d.(ready := false, current := 0, answered := 0, silent := 0)
    case Handed(_, frame) => d.(orderly := d.orderly && (d.ready || IsZeroCommandFrame(frame)))
    case Done(kind, frame, _, answer, _) =>
      d.(current := if kind.CurrentCommand? then (if |frame| == 10 then CommandedValue(frame) else 0) else d.current,
         answered := if answer.Some? then d.answered + 1 else d.answered,
         silent := if answer.Some? then d.silent else d.silent + 1)
    case _ => d
  }

  function Recall(t: seq<Event>): Memory
    decreases |t|
  {
    if t == [] then Memory(false, true, 0, 0, 0) else Remember(Recall(t[..|t| - 1]), t[|t| - 1])
  }

  /** The record of a motor agrees with its trace. */
  predicate Remembers(m: Motor) {
    var d := Recall(m.trace);
    && d.orderly && d.current == m.stats.lastCurrentRaw && (m.mode.Some? ==> d.ready)
    && Counts(d, m.stats)
  }

  /** The counters of the statistics are those of the trace. */
  predicate Counts(d: Memory, stats: Stats) {
    && stats.transactions == d.answered + d.silent
    && stats.feedbackCount == d.answered && stats.responseTimeouts == d.silent
  }

  lemma OneMore(t: seq<Event>, e: Event)
    ensures Recall(t + [e]) == Remember(Recall(t), e)
  {
    assert (t + [e])[..|t|] == t;
  }

  /** Events that say nothing of mode or current. */
  predicate Plain(e: Event) {
    !e.ModeSwitch? && !e.Forgotten? && !e.Handed? && !e.Done?
  }

  lemma {:induction false} PlainIsForgotten(t: seq<Event>, es: seq<Event>)
    requires forall k :: 0 <= k < |es| ==> Plain(es[k])
    ensures Recall(t + es) == Recall(t)
    decreases |es|
  {
    hide Recall;
    if es == [] {
      assert t + es == t;
    } else {
      PlainIsForgotten(t, es[..|es| - 1]);
      assert t + es == (t + es[..|es| - 1]) + [es[|es| - 1]];
      OneMore(t + es[..|es| - 1], es[|es| - 1]);
    }
  }

  lemma {:induction false} Handings(t: seq<Event>, kind: Kind, frame: Bytes, n: nat)
    requires Recall(t).ready || IsZeroCommandFrame(frame)
    ensures Recall(t + Copies(Handed(kind, frame), n)) == Recall(t)
    decreases n
  {
    hide Recall, IsZeroCommandFrame;
    var e := Handed(kind, frame);
    if n == 0 {
      assert t + Copies(e, 0) == t;
    } else {
      Handings(t, kind, frame, n - 1);
      var before := t + Copies(e, n - 1);
      assert t + Copies(e, n) == before + [e];
      OneMore(before, e);
    }
  }

  /** A transaction keeps the agreement, once the raw value of a current frame is on record. */
  lemma SendRemembers(m: Motor, id: int, kind: Kind, frame: Bytes, t: Transaction)
    requires Remembers(m) && (m.mode.Some? || IsZeroCommandFrame(frame))
    ensures var sent := Send(m, id, kind, frame, t);
            && Recall(sent.trace).orderly && Recall(sent.trace).ready == Recall(m.trace).ready
            && sent.mode == m.mode && sent.stats.lastCurrentRaw == m.stats.lastCurrentRaw
            && Counts(Recall(sent.trace), sent.stats)
            && Recall(sent.trace).current ==
               if kind.CurrentCommand? && t.Sent() then (if |frame| == 10 then CommandedValue(frame) else 0)
               else m.stats.lastCurrentRaw
  {
    hide Recall, IsZeroCommandFrame, AnswerIn, CommandedValue;
    var handed := m.trace + Copies(Handed(kind, frame), t.writes);
    Handings(m.trace, kind, frame, t.writes);
    if t.Sent() {
      OneMore(handed, Done(kind, frame, t.outcome.heard, AnswerIn(WireId(id), t.outcome.heard), t.at));
    } else {
      OneMore(handed, Failed(kind, frame, t.writes));
    }
  }

  lemma CurrentRemembers(m: Motor, id: int, raw: int, t: Transaction)
    requires Remembers(m) && -32768 <= raw < 32768 && (m.mode.Some? || raw == 0)
    ensures Remembers(SendCurrent(m, id, raw, t))
  {
    hide Recall, IsZeroCommandFrame, CommandedValue, PackCurrentFrame, PackVelocityFrame, ToBits, WireId, Send;
    CommandFrames(WireId(id), raw, 0, false);
    CommandCarriesValue(WireId(id), raw, 0, false);
    SendRemembers(m, id, CurrentCommand, PackCurrentFrame(WireId(id), ToBits(raw)), t);
  }

  lemma VelocityRemembers(m: Motor, id: int, cfg: Config, rpm: int, brake: bool, t: Transaction)
    requires Remembers(m) && cfg.Valid() && (m.mode.Some? || rpm == 0)
    ensures Remembers(SendVelocity(m, id, cfg, rpm, brake, t))
  {
    hide Recall, IsZeroCommandFrame, CommandedValue, PackCurrentFrame, PackVelocityFrame, ToBits, WireId, Send, Byte;
    var v := Clamp(rpm, -cfg.maxRpm, cfg.maxRpm);
    CommandFrames(WireId(id), v, Byte(cfg.accelTime), brake);
    SendRemembers(m, id, VelocityCommand, PackVelocityFrame(WireId(id), ToBits(v), Byte(cfg.accelTime), brake), t);
  }

  /** Plain events and other fields change nothing. */
  lemma SameMemory(a: Motor, b: Motor, es: seq<Event>)
    requires Remembers(a) && b.trace == a.trace + es && forall k :: 0 <= k < |es| ==> Plain(es[k])
    requires b.stats == a.stats && (b.mode == a.mode || b.mode.None?)
    ensures Remembers(b)
  {
    hide Recall;
    PlainIsForgotten(a.trace, es);
  }

  lemma ModeRemembers(m: Motor, frame: Bytes, c: Command)
    requires Remembers(m)
    ensures var m' := Note(m, ModeWrites(frame, c)); Remembers(m') && (c.whole ==> Recall(m'.trace).ready)
  {
    hide Recall;
    var shorts := m.trace + Copies(ModeSwitch(frame, false), c.short);
    ShortWrites(m.trace, frame, c.short);
    OneMore(shorts, ModeSwitch(frame, true));
    assert m.trace + ModeWrites(frame, c) == if c.whole then shorts + [ModeSwitch(frame, true)] else shorts;
  }

  lemma {:induction false} ShortWrites(t: seq<Event>, frame: Bytes, n: nat)
    ensures Recall(t + Copies(ModeSwitch(frame, false), n)) == Recall(t)
    decreases n
  {
    hide Recall;
    var e := ModeSwitch(frame, false);
    if n == 0 {
      assert t + Copies(e, 0) == t;
    } else {
      ShortWrites(t, frame, n - 1);
      assert t + Copies(e, n) == (t + Copies(e, n - 1)) + [e];
      OneMore(t + Copies(e, n - 1), e);
    }
  }

  lemma LatchRemembers(m: Motor, id: int, trip: G.GuardTrip, t: Transaction)
    requires Remembers(m)
    ensures Remembers(LatchAndSendZero(m, id, trip, t))
  {
    hide Remembers, SendCurrent;
    var reset := ResetLoop(Note(m, [Tripped(trip)]).(trip := Some(trip)));
    assert reset.trace == m.trace + [Tripped(trip), GuardReset];
    SameMemory(m, reset, [Tripped(trip), GuardReset]);
    CurrentRemembers(reset, id, 0, t);
  }

  lemma CommandRemembers(m: Motor, id: int, cfg: Config, rpmRef: int, io: CurrentInput)
    requires Remembers(m) && cfg.Valid() && m.mode == Some(Current)
    ensures Remembers(CommandCurrent(m, id, cfg, rpmRef, io).0)
  {
    hide Remembers, SendCurrent, Slew, LoopStep, JudgeAnswer, LatchAndSendZero;
    if m.trip.Some? || Stale(m.feedback) {
      SameMemory(m, ResetLoop(m), [GuardReset]);
      CurrentRemembers(ResetLoop(m), id, 0, io.first);
    } else if m.feedback.value.mode != CURRENT_LOOP {
      LatchRemembers(m, id, G.ModeMismatch, io.first);
    } else {
      var speed := m.feedback.value.speed;
      var (slewed, ref) := Slew(m.pi, cfg, speed, rpmRef, io.slewAt);
      var still := Note(m, [GuardReset]).(pi := slewed.(integralAmp := 0.0, lastT := None, guard := G.FRESH));
      SameMemory(m, still, [GuardReset]);
      CurrentRemembers(still, id, 0, io.first);
      var (stepped, step) := LoopStep(slewed, cfg, speed, ref, io.stepAt);
      RawInRange(slewed, cfg, speed, ref, io.stepAt);
      var begun := m.(pi := stepped);
      assert begun.trace == m.trace + [];
      SameMemory(m, begun, []);
      CurrentRemembers(begun, id, step.raw, io.first);
      JudgeRemembers(SendCurrent(begun, id, step.raw, io.first), id, cfg, ref, speed,
                     Pi.RawToAmp(m.stats.lastCurrentRaw), step.commandAmp, io);
    }
  }

  lemma JudgeRemembers(sent: Motor, id: int, cfg: Config, rpmRef: int, before: int, applied: real, command: real,
                       io: CurrentInput)
    requires Remembers(sent)
    ensures Remembers(JudgeAnswer(sent, id, cfg, rpmRef, before, applied, command, io.guardAt, io.first, io.second).0)
  {
    hide Remembers, G.Update, LatchAndSendZero, AnswerTo;
    LatchRemembers(sent, id, G.ModeMismatch, io.second);
    if sent.feedback.Some? {
      var sample := G.Sample(io.guardAt, rpmRef, Oriented(cfg, before), Oriented(cfg, sent.feedback.value.speed),
                             applied, command, cfg.pi.maxCurrentAmp, cfg.guard);
      var (guard, trip) := G.Update(sent.pi.guard, sample);
      var judged := Note(sent, [Judged(sample)]).(pi := sent.pi.(guard := guard));
      SameMemory(sent, judged, [Judged(sample)]);
      LatchRemembers(judged, id, trip, io.second);
    }
  }

  lemma PrimeRemembers(m: Motor, id: int, cfg: Config, mode: ControlMode, t: Transaction)
    requires Remembers(m) && cfg.Valid()
    ensures Remembers(Prime(m, id, cfg, mode, t))
  {
    hide Remembers, SendCurrent, SendVelocity;
    CurrentRemembers(m, id, 0, t);
    VelocityRemembers(m, id, cfg, 0, cfg.brakeOnStop, t);
  }

  lemma InitializeRemembers(m: Motor, id: int, cfg: Config, mode: ControlMode, io: InitInput)
    requires Remembers(m) && cfg.Valid()
    ensures Remembers(InitializeMotor(m, id, cfg, mode, io).0)
  {
    hide Remembers, Prime, PackModeFrame, PackModeFrameLegacy, Reported;
    var frame, legacy := PackModeFrame(WireId(id), ModeValue(mode)), PackModeFrameLegacy(WireId(id), ModeValue(mode));
    ModeRemembers(m, frame, io.modeFrame);
    if io.modeFrame.Ok() {
      var started := StartOver(SetControlMode(m, id, mode, io.modeFrame), mode);
      StartRemembers(SetControlMode(m, id, mode, io.modeFrame), mode);
      PrimeRemembers(started, id, cfg, mode, io.prime);
      var primed := Prime(started, id, cfg, mode, io.prime);
      ModeRemembers(primed, legacy, io.legacyFrame);
      var tried := Note(primed, ModeWrites(legacy, io.legacyFrame));
      var again := Note(tried, [Registered]).(feedback := Some(NO_FEEDBACK));
      SameMemory(tried, again, [Registered]);
      PrimeRemembers(again, id, cfg, mode, io.reprime);
      var settled := Settle(started, id, cfg, mode, io);
      assert settled.(mode := None).trace == settled.trace + [];
      SameMemory(settled, settled.(mode := None), []);
    }
  }

  lemma StartRemembers(m: Motor, mode: ControlMode)
    requires Remembers(m) && Recall(m.trace).ready
    ensures Remembers(StartOver(m, mode))
  {
    hide Recall;
    PlainIsForgotten(m.trace, [GuardReset, Registered, Cleared]);
  }

  lemma VelocityRequestRemembers(m: Motor, id: int, cfg: Config, rpm: int, init: InitInput, io: CurrentInput)
    requires Remembers(m) && cfg.Valid()
    ensures Remembers(SetVelocity(m, id, cfg, rpm, init, io).0)
  {
    hide Remembers, CommandCurrent, InitializeMotor, SendVelocity;
    InitializeRemembers(m, id, cfg, Velocity, init);
    var (known, ok) := if m.mode.None? then InitializeMotor(m, id, cfg, Velocity, init) else (m, true);
    InitialisationIsConfirmed(m, id, cfg, Velocity, init);
    if ok {
      var ref := Clamp(rpm, -cfg.maxRpm, cfg.maxRpm);
      var asked := known.(velocity := Some(ref));
      assert asked.trace == known.trace + [];
      SameMemory(known, asked, []);
      if asked.mode == Some(Current) {
        CommandRemembers(asked, id, cfg, ref, io);
      } else {
        VelocityRemembers(asked, id, cfg, ref, false, io.first);
      }
    }
  }

  lemma StopsRemember(m: Motor, id: int, cfg: Config, io: StopInput)
    requires Remembers(m) && cfg.Valid()
    ensures Remembers(Stop(m, id, cfg, io).0) && Remembers(StopNow(m, id, cfg, io).0)
    ensures Remembers(EmergencyStop(m, id, cfg, io.transaction))
  {
    hide Remembers, SendVelocity, SendCurrent, SkipsStop;
    var aimed := m.(velocity := Some(0));
    assert aimed.trace == m.trace + [];
    SameMemory(m, aimed, []);
    SameMemory(aimed, ResetLoop(aimed), [GuardReset]);
    SameMemory(m, ResetLoop(m), [GuardReset]);
    CurrentRemembers(ResetLoop(aimed), id, 0, io.transaction);
    CurrentRemembers(ResetLoop(m), id, 0, io.transaction);
    VelocityRemembers(aimed, id, cfg, 0, cfg.brakeOnStop, io.transaction);
    VelocityRemembers(m, id, cfg, 0, cfg.brakeOnStop, io.transaction);
    var stopped := SendVelocity(aimed, id, cfg, 0, cfg.brakeOnStop, io.transaction);
    SameMemory(stopped, StampStop(stopped, true, io.after), [StopStamped(true, io.after)]);
  }

  lemma RefreshRemembers(m: Motor, id: int, cfg: Config, maxAgeSec: real, io: RefreshInput)
    requires Remembers(m)
    ensures Remembers(Refresh(m, id, cfg, maxAgeSec, io).0)
  {
    hide Recall, Send, IsZeroCommandFrame;
    if RefreshSends(m, cfg, maxAgeSec, io) {
      SendRemembers(m, id, ResentStop, m.lastSent.value, io.transaction);
      var sent := Send(m, id, ResentStop, m.lastSent.value, io.transaction);
      var stamped := StampStop(sent, io.transaction.Sent(), io.after);
      SameMemory(sent, stamped, [StopStamped(io.transaction.Sent(), io.after)]);
    }
  }

  lemma ForgetRemembers(m: Motor)
    requires Remembers(m)
    ensures Remembers(Forget(m)) && Remembers(ClearTrip(m))
  {
    hide Recall;
    OneMore(m.trace, Cleared);
    OneMore(m.trace + [Cleared], Forgotten);
    assert Forget(m).trace == m.trace + [Cleared] + [Forgotten];
  }

  lemma StepRemembers(w: World, id: int, call: Call)
    requires w.cfg.Valid() && Remembers(w.motor)
    ensures Remembers(Step(w, id, call).motor)
  {
    hide Remembers, SetVelocity, Stop, StopNow, EmergencyStop, Refresh, InitializeMotor, ClearTrip, Forget,
         PackModeFrame;
    match call
    case CallSetVelocity(rpm, init, io) => VelocityRequestRemembers(w.motor, id, w.cfg, rpm, init, io);
    case CallStop(io) => StopsRemember(w.motor, id, w.cfg, io);
    case CallStopNow(io) => StopsRemember(w.motor, id, w.cfg, io);
    case CallEmergencyStop(t) => StopsRemember(w.motor, id, w.cfg, StopInput(0.0, t, 0.0));
    case CallRefresh(age, io) => RefreshRemembers(w.motor, id, w.cfg, age, io);
    case CallInitializeMotor(mode, io) => InitializeRemembers(w.motor, id, w.cfg, mode, io);
    case CallSetControlMode(mode, c) => ModeRemembers(w.motor, PackModeFrame(WireId(id), ModeValue(mode)), c);
    case CallConfigure(cfg) =>
    case CallConfigureCurrent(cfg) => ForgetRemembers(w.motor);
    case CallShutdown(t) =>
      StopsRemember(w.motor, id, w.cfg, StopInput(0.0, t, 0.0));
      ForgetRemembers(if w.motor.velocity.Some? then EmergencyStop(w.motor, id, w.cfg, t) else w.motor);
  }

  /** In every run the record agrees with the trace. */
  lemma {:induction false} EveryRunRemembers(cfg: Config, id: int, calls: seq<Call>)
    requires cfg.Valid()
    ensures Remembers(Run(World(cfg, UNKNOWN_MOTOR), id, calls).motor)
    decreases |calls|
  {
    hide Step;
    if calls != [] {
      EveryRunRemembers(cfg, id, calls[..|calls| - 1]);
      StepRemembers(Run(World(cfg, UNKNOWN_MOTOR), id, calls[..|calls| - 1]), id, calls[|calls| - 1]);
    }
  }

  // ----- what that means ---------------------------------------------------------------------------

  /** A whole mode frame is in the trace, and the motor was not forgotten after it. */
  predicate ModeSent(t: seq<Event>, i: nat) {
    i < |t| && t[i].ModeSwitch? && t[i].whole && forall k :: i < k < |t| ==> !t[k].Forgotten?
  }

  lemma {:induction false} OpenedMeansSent(t: seq<Event>)
    ensures Recall(t).ready ==> exists i: nat :: ModeSent(t, i)
    decreases |t|
  {
    if t != [] && Recall(t).ready {
      var rest := t[..|t| - 1];
      if t[|t| - 1].ModeSwitch? && t[|t| - 1].whole {
        assert ModeSent(t, |t| - 1);
      } else {
        OpenedMeansSent(rest);
        var i: nat :| ModeSent(rest, i);
        assert ModeSent(t, i);
      }
    }
  }

  lemma {:induction false} OrderlyBefore(t: seq<Event>, j: nat)
    requires Recall(t).orderly && j < |t|
    ensures Recall(t[..j]).orderly
    ensures t[j].Handed? ==> Recall(t[..j]).ready || IsZeroCommandFrame(t[j].frame)
    decreases |t|
  {
    hide IsZeroCommandFrame;
    var rest := t[..|t| - 1];
    if j < |rest| {
      OrderlyBefore(rest, j);
      assert rest[..j] == t[..j];
    }
  }

  /**
   * Over every run: a frame that drives the motor is handed over only after a whole mode frame, and
   * after the last shutdown.
   */
  lemma DrivingNeedsMode(cfg: Config, id: int, calls: seq<Call>, j: nat)
    requires cfg.Valid()
    requires var t := Run(World(cfg, UNKNOWN_MOTOR), id, calls).motor.trace;
             j < |t| && t[j].Handed? && !IsZeroCommandFrame(t[j].frame)
    ensures exists i: nat :: ModeSent(Run(World(cfg, UNKNOWN_MOTOR), id, calls).motor.trace[..j], i)
  {
    hide IsZeroCommandFrame, Run, Recall;
    EveryRunRemembers(cfg, id, calls);
    var t := Run(World(cfg, UNKNOWN_MOTOR), id, calls).motor.trace;
    OrderlyBefore(t, j);
    OpenedMeansSent(t[..j]);
  }

  /** The end of the last transaction in which a current frame succeeded, since the motor was forgotten. */
  predicate LastGiven(t: seq<Event>, i: nat) {
    && i < |t| && t[i].Done? && t[i].kind.CurrentCommand?
    && forall k :: i < k < |t| ==> !t[k].Forgotten? && !(t[k].Done? && t[k].kind.CurrentCommand?)
  }

  lemma {:induction false} CurrentIsLastGiven(t: seq<Event>, i: nat)
    requires LastGiven(t, i) && |t[i].frame| == 10
    ensures Recall(t).current == CommandedValue(t[i].frame)
    decreases |t|
  {
    hide CommandedValue, IsZeroCommandFrame;
    if i < |t| - 1 {
      assert LastGiven(t[..|t| - 1], i);
      CurrentIsLastGiven(t[..|t| - 1], i);
    }
  }

  /** Over every run, the current the guard takes to have flowed is the one the motor was last given. */
  lemma AppliedIsLastGiven(cfg: Config, id: int, calls: seq<Call>, i: nat)
    requires cfg.Valid()
    requires var t := Run(World(cfg, UNKNOWN_MOTOR), id, calls).motor.trace;
             LastGiven(t, i) && |t[i].frame| == 10
    ensures var m := Run(World(cfg, UNKNOWN_MOTOR), id, calls).motor;
            m.stats.lastCurrentRaw == CommandedValue(m.trace[i].frame)
  {
    hide Run, Recall, CommandedValue;
    EveryRunRemembers(cfg, id, calls);
    CurrentIsLastGiven(Run(World(cfg, UNKNOWN_MOTOR), id, calls).motor.trace, i);
  }

  /** The transactions since the motor was last forgotten that were answered, or were not. */
  function Exchanges(t: seq<Event>, answered: bool): nat
    decreases |t|
  {
    if t == [] || t[|t| - 1].Forgotten? then 0
    else Exchanges(t[..|t| - 1], answered) + if t[|t| - 1].Done? && t[|t| - 1].answer.Some? == answered then 1 else 0
  }

  lemma {:induction false} ExchangesAreRecalled(t: seq<Event>)
    ensures Recall(t).answered == Exchanges(t, true) && Recall(t).silent == Exchanges(t, false)
    decreases |t|
  {
    hide CommandedValue, IsZeroCommandFrame;
    if t != [] {
      ExchangesAreRecalled(t[..|t| - 1]);
    }
  }

  /** Over every run the counters shown are those of the transactions with this motor. */
  lemma CountersAreRight(cfg: Config, id: int, calls: seq<Call>)
    requires cfg.Valid()
    ensures var m := Run(World(cfg, UNKNOWN_MOTOR), id, calls).motor;
            && m.stats.feedbackCount == Exchanges(m.trace, true)
            && m.stats.responseTimeouts == Exchanges(m.trace, false)
            && m.stats.transactions == m.stats.feedbackCount + m.stats.responseTimeouts
  {
    hide Run, Recall, Exchanges;
    EveryRunRemembers(cfg, id, calls);
    ExchangesAreRecalled(Run(World(cfg, UNKNOWN_MOTOR), id, calls).motor.trace);
  }
}
