/** What the setters of the current loop leave as it is: a run in which a lowered limit is exceeded. */
module MotorSetters {
  import opened Common
  import opened DdtProtocol
  import Pi = CurrentPi
  import G = RunawayGuard
  import opened MotorModel
  import opened MotorLaws

  /** The motor reports the current loop and stands still. */
  const STANDING := Answer(CURRENT_LOOP, 0, 0, 0, 0)

  function Answered(id: int, at: real): Transaction {
    Exchange(1, Waited(AnswerFrame(WireId(id), STANDING)), at)
  }

  lemma AnswerArrives(id: int, at: real)
    ensures AnswerTo(id, Answered(id, at)) == Some(STANDING)
  {
    hide Crc8, ParseFeedbackFrame;
    var frame := AnswerFrame(WireId(id), STANDING);
    assert |frame| == 10 && frame[0..] == frame;
    ParseInvertsAnswer(WireId(id), frame, STANDING);
  }

  const WIDE := Config(100, Pi.Params(0.0015, 10.0, 1.0, 0.3, false, 0.0, 0.0), 5, G.GuardParams(50.0, 0.3),
                       0.0, true, 50, 200)

  /** `setCurrentControlParams` with a lower current limit and a lower integral limit. */
  const NARROW := WIDE.(pi := WIDE.pi.(maxCurrentAmp := 0.2, integralLimitAmp := 0.1))

  function Starting(id: int): Call {
    CallInitializeMotor(Current, NO_INIT.(modeFrame := Attempts(0, true, true), prime := Answered(id, 0.0)))
  }

  function Driving(id: int, at: real): Call {
    CallSetVelocity(100, NO_INIT, CurrentInput(0.0, at, at, Answered(id, at), NO_TRANSACTION))
  }

  function Calls(id: int): seq<Call> {
    [Starting(id), Driving(id, 0.01), CallConfigureCurrent(NARROW), Driving(id, 0.02)]
  }

  /** Ready to be driven: the motor answers, in the current loop and standing, and the guard is content. */
  predicate Answering(m: Motor) {
    && m.mode == Some(Current) && m.trip.None? && m.feedback.Some?
    && m.feedback.value == TakeAnswer(STANDING, m.feedback.value.lastTime)
    && |m.pi.guard.switches| == 0 && !m.pi.guard.overspeedActive
  }

  lemma StartingAnswers(id: int)
    ensures var m := Step(World(WIDE, UNKNOWN_MOTOR), id, Starting(id)).motor; Answering(m) && m.pi == PI_FRESH
  {
    hide PackCurrentFrame, PackModeFrame, ToBits, AnswerFrame, AnswerIn, WireId, FromBits;
    AnswerArrives(id, 0.0);
  }

  /** Standing still, the guard has nothing to object to before the command has saturated several times. */
  lemma GuardIsContent(g: G.Guard, s: G.Sample)
    requires |g.switches| == 0 && s.measuredPrevRpm == 0 && s.measuredNewRpm == 0 && s.params.overspeedMarginRpm > 0.0
    ensures G.Update(g, s).1 == G.NoTrip && !G.Update(g, s).0.overspeedActive
    ensures !G.Saturated(s) ==> G.Update(g, s).0.switches == []
  {
  }

  lemma StandingSpeed()
    ensures FromBits(STANDING.speed) == 0
  {
    WordRoundTrip(0);
    BitsRoundTrip(0);
    assert ToBits(0) == 0 by { ZeroBits(0); }
  }

  lemma DrivingSteps(id: int, m: Motor, cfg: Config, at: real)
    requires Answering(m) && cfg.Valid() && cfg.maxAccelRpmPerSec == 0.0
    requires cfg.maxRpm == 100 && cfg.zeroDeadbandRpm == 5 && cfg.guard.overspeedMarginRpm > 0.0
    ensures var m' := Step(World(cfg, m), id, Driving(id, at)).motor;
            && m'.pi.integralAmp == LoopStep(m.pi, cfg, 0, 100, at).0.integralAmp
            && (AbsReal(LoopStep(m.pi, cfg, 0, 100, at).1.commandAmp) < 0.95 * cfg.pi.maxCurrentAmp ==> Answering(m'))
  {
    hide PackCurrentFrame, ToBits, AnswerFrame, AnswerIn, WireId, FromBits, G.Update, Pi.Step;
    AnswerArrives(id, at);
    StandingSpeed();
    var asked := m.(velocity := Some(100));
    assert Slew(asked.pi, cfg, 0, 100, 0.0) == (asked.pi, 100);
    var (stepped, step) := LoopStep(asked.pi, cfg, 0, 100, at);
    var applied := Pi.RawToAmp(m.stats.lastCurrentRaw);
    var sample := G.Sample(at, 100, 0, 0, applied, step.commandAmp, cfg.pi.maxCurrentAmp, cfg.guard);
    GuardIsContent(m.pi.guard, sample);
  }

  /**
   * Initialised, driven once with an integral limit of 0.3 A, then given a limit of 0.1 A and driven
   * again: the integral is 0.3 A still, because the output is saturated and the setter keeps it.
   */
  lemma LoweredLimitIsIgnoredWhileSaturated(id: int)
    ensures var w := Run(World(WIDE, UNKNOWN_MOTOR), id, Calls(id));
            w.cfg == NARROW && w.cfg.pi.integralLimitAmp == 0.1 && w.motor.pi.integralAmp == 0.3
  {
    hide Step, Answering, LoopStep, Run, Answered;
    var w0 := World(WIDE, UNKNOWN_MOTOR);
    var w1 := Step(w0, id, Starting(id));
    StartingAnswers(id);
    KeepsConfig(w0, id, Starting(id));
    var w2 := Step(w1, id, Driving(id, 0.01));
    FirstLoop();
    DrivingSteps(id, w1.motor, WIDE, 0.01);
    KeepsConfig(w1, id, Driving(id, 0.01));
    var w3 := Step(w2, id, CallConfigureCurrent(NARROW));
    Configures(w2, id);
    DrivingSteps(id, w3.motor, NARROW, 0.02);
    KeepsConfig(w3, id, Driving(id, 0.02));
    SecondLoop(w3.motor.pi);
    FourCalls(w0, id, Starting(id), Driving(id, 0.01), CallConfigureCurrent(NARROW), Driving(id, 0.02));
  }

  lemma FourCalls(w: World, id: int, a: Call, b: Call, c: Call, d: Call)
    requires w.cfg.Valid()
    ensures Run(w, id, [a, b, c, d]) == Step(Step(Step(Step(w, id, a), id, b), id, c), id, d)
  {
    hide Step;
    assert [a, b, c, d][..3] == [a, b, c] && [a, b, c][..2] == [a, b] && [a, b][..1] == [a] && [a][..0] == [];
    assert Run(w, id, [a]) == Step(w, id, a);
    assert Run(w, id, [a, b]) == Step(Run(w, id, [a]), id, b);
    assert Run(w, id, [a, b, c]) == Step(Run(w, id, [a, b]), id, c);
  }

  lemma KeepsConfig(w: World, id: int, call: Call)
    requires w.cfg.Valid() && !call.CallConfigure? && !call.CallConfigureCurrent?
    ensures Step(w, id, call).cfg == w.cfg
  {
    hide SetVelocity, InitializeMotor, Stop, StopNow, EmergencyStop, Refresh, SetControlMode;
  }

  lemma Configures(w: World, id: int)
    requires w.cfg.Valid()
    ensures var w' := Step(w, id, CallConfigureCurrent(NARROW));
            w'.cfg == NARROW && w'.motor.pi == w.motor.pi && (Answering(w.motor) ==> Answering(w'.motor))
  {
  }

  lemma FirstLoop()
    ensures var (pi, step) := LoopStep(PI_FRESH, WIDE, 0, 100, 0.01);
            pi.integralAmp == 0.3 && AbsReal(step.commandAmp) < 0.95 * WIDE.pi.maxCurrentAmp
  {
    hide Pi.AmpToRaw;
    assert Pi.SpeedError(WIDE.pi, 100, 0) == 100.0;
    assert Pi.IntegralCandidate(WIDE.pi, 0.0, 100.0, 0.01) == 0.3;
    assert Pi.Unclamped(WIDE.pi, 0.0, 100, 0, 0.01) == 0.15 + 0.3;
  }

  lemma SecondLoop(pi: PiRecord)
    requires pi.integralAmp == 0.3
    ensures LoopStep(pi, NARROW, 0, 100, 0.02).0.integralAmp == 0.3
  {
    hide Pi.AmpToRaw;
    var dt := Pi.SanitizeDt(if pi.lastT.Some? then 0.02 - pi.lastT.value else 0.01);
    assert Pi.SpeedError(NARROW.pi, 100, 0) == 100.0;
    assert Pi.IntegralCandidate(NARROW.pi, 0.3, 100.0, dt) == 0.1;
    assert Pi.Unclamped(NARROW.pi, 0.3, 100, 0, dt) == 0.15 + 0.1;
  }
}
