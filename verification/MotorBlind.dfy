/** How far driving can go on without an answer: a bound on successes is none on failures. */
module MotorBlind {
  import opened Common
  import opened DdtProtocol
  import Pi = CurrentPi
  import G = RunawayGuard
  import opened MotorModel
  import opened MotorTrace
  import opened MotorLaws
  import opened MotorSetters

  /** A target of 100 rpm that goes out but is not drained. */
  const UNDRAINED := CallSetVelocity(100, NO_INIT,
                                     CurrentInput(0.0, 0.01, 0.01, Exchange(1, NotDrained, 0.01), NO_TRANSACTION))

  function Repeated(n: nat): (calls: seq<Call>)
    ensures |calls| == n && forall i :: 0 <= i < n ==> calls[i] == UNDRAINED
  {
    seq(n, _ => UNDRAINED)
  }

  /** Answered once and never tripped, with an integral that pushes forward. */
  predicate Ready(m: Motor) {
    && m.mode == Some(Current) && m.trip.None? && m.feedback.Some?
    && m.feedback.value == TakeAnswer(STANDING, m.feedback.value.lastTime)
    && m.pi.integralAmp >= 0.0
  }

  /** A standing motor asked for 100 rpm is sent a positive current. */
  lemma LoopPushes(pi: PiRecord)
    requires pi.integralAmp >= 0.0
    ensures var (pi', step) := LoopStep(pi, WIDE, 0, 100, 0.01); pi'.integralAmp >= 0.0 && step.raw > 0
  {
    hide Pi.AmpToRaw;
    var dt := Pi.SanitizeDt(if pi.lastT.Some? then 0.01 - pi.lastT.value else 0.01);
    assert Pi.SpeedError(WIDE.pi, 100, 0) == 100.0;
    assert Pi.Increment(WIDE.pi, 100.0, dt) >= 0.0;
    assert Pi.IntegralCandidate(WIDE.pi, pi.integralAmp, 100.0, dt) >= 0.0;
    assert Pi.Unclamped(WIDE.pi, pi.integralAmp, 100, 0, dt) >= 0.15;
    TenthIsSomething();
    Pi.RawMonotone(0.1, LoopStep(pi, WIDE, 0, 100, 0.01).1.commandAmp);
  }

  lemma TenthIsSomething()
    ensures Pi.AmpToRaw(0.1) > 0
  {
  }

  /** Such a call leaves everything ready for the next, and one more driving frame handed over. */
  lemma UndrainedRepeats(id: int, m: Motor)
    requires Ready(m)
    ensures var m' := Step(World(WIDE, m), id, UNDRAINED).motor;
            && Ready(m')
            && exists frame: Bytes :: !IsZeroCommandFrame(frame) && m'.trace == m.trace + FailedDrive(frame)
  {
    hide PackCurrentFrame, ToBits, WireId, FromBits, AnswerIn, LoopStep, IsZeroCommandFrame;
    StandingSpeed();
    var asked := m.(velocity := Some(100));
    assert Slew(asked.pi, WIDE, 0, 100, 0.0) == (asked.pi, 100);
    var (stepped, step) := LoopStep(m.pi, WIDE, 0, 100, 0.01);
    LoopPushes(m.pi);
    RawInRange(m.pi, WIDE, 0, 100, 0.01);
    CommandFrames(WireId(id), step.raw, 0, false);
    var frame := PackCurrentFrame(WireId(id), ToBits(step.raw));
    var m' := Step(World(WIDE, m), id, UNDRAINED).motor;
    assert m'.trace == m.trace + Copies(Handed(CurrentCommand, frame), 1) + [Failed(CurrentCommand, frame, 1)];
    assert m'.trace == m.trace + FailedDrive(frame);
  }

  function FailedDrive(frame: Bytes): seq<Event> {
    [Handed(CurrentCommand, frame), Failed(CurrentCommand, frame, 1)]
  }

  lemma OneMoreBlind(t: seq<Event>, i: nat, frame: Bytes)
    requires i <= |t| && !IsZeroCommandFrame(frame)
    ensures HandedBlind(t + FailedDrive(frame), i) == HandedBlind(t, i) + 1
  {
    hide IsZeroCommandFrame;
    var t' := t + FailedDrive(frame);
    assert t'[..|t'| - 1] == t + [Handed(CurrentCommand, frame)] && t'[..|t'| - 1][..|t|] == t;
  }

  /** What `n` such calls leave: `n` driving frames more, no success, and the motor ready as before. */
  ghost predicate DrivenOn(m: Motor, m': Motor, n: nat) {
    && Ready(m') && m.trace <= m'.trace
    && HandedBlind(m'.trace, |m.trace|) == n
    && forall k :: |m.trace| <= k < |m'.trace| ==> !m'.trace[k].Done? && !m'.trace[k].Tripped?
  }

  lemma {:induction false} RepeatedDrivesOn(id: int, m: Motor, n: nat)
    requires Ready(m)
    ensures var w := Run(World(WIDE, m), id, Repeated(n)); w.cfg == WIDE && DrivenOn(m, w.motor, n)
    decreases n
  {
    hide Step, IsZeroCommandFrame, Ready;
    if n > 0 {
      var calls := Repeated(n);
      assert calls[..n - 1] == Repeated(n - 1);
      RepeatedDrivesOn(id, m, n - 1);
      var w := Run(World(WIDE, m), id, Repeated(n - 1));
      UndrainedRepeats(id, w.motor);
      KeepsConfig(w, id, UNDRAINED);
      var w' := Step(w, id, UNDRAINED);
      var frame: Bytes :| !IsZeroCommandFrame(frame) && w'.motor.trace == w.motor.trace + FailedDrive(frame);
      OneMoreBlind(w.motor.trace, |m.trace|, frame);
      assert Run(World(WIDE, m), id, calls) == w';
    }
  }

  lemma {:induction false} RunOn(w: World, id: int, a: seq<Call>, b: seq<Call>)
    requires w.cfg.Valid()
    ensures Run(w, id, a + b) == Run(Run(w, id, a), id, b)
    decreases |b|
  {
    hide Step;
    if b == [] {
      assert a + b == a;
    } else {
      assert (a + b)[..|a + b| - 1] == a + b[..|b| - 1];
      RunOn(w, id, a, b[..|b| - 1]);
    }
  }

  /**
   * The three silences bound the successes alone. A transaction that is not drained is neither counted
   * nor does it trip anything: for every `n` there is a run that hands `n` nonzero current frames over
   * in a row, after one answer and without any other.
   */
  lemma UndrainedDrivingIsUnbounded(id: int, n: nat)
    ensures var start := Run(World(WIDE, UNKNOWN_MOTOR), id, [Starting(id)]);
            DrivenOn(start.motor, Run(World(WIDE, UNKNOWN_MOTOR), id, [Starting(id)] + Repeated(n)).motor, n)
  {
    hide Step, DrivenOn, Repeated, Answering, TakeAnswer;
    var w := World(WIDE, UNKNOWN_MOTOR);
    StartingAnswers(id);
    KeepsConfig(w, id, Starting(id));
    assert [Starting(id)][..0] == [];
    assert Run(w, id, [Starting(id)]) == Step(w, id, Starting(id));
    AnsweringIsReady(Step(w, id, Starting(id)).motor);
    RunOn(w, id, [Starting(id)], Repeated(n));
    RepeatedDrivesOn(id, Step(w, id, Starting(id)).motor, n);
  }

  lemma AnsweringIsReady(m: Motor)
    requires Answering(m) && m.pi == PI_FRESH
    ensures Ready(m)
  {
  }
}
