/**
 * The software PI loop of current mode: target and measured speed in, current command out.
 * `double` is modelled by `real`; the non-finite branch of `ampToRaw` has no counterpart.
 */
module CurrentPi {
  import opened Common

  const AMP_PER_RAW: real := 8.0 / 32767.0
  const FRICTION_FULL_RPM: real := 10.0
  const MIN_KI: real := 0.000000001

  datatype Params = Params(
    kp: real,
    ki: real,
    maxCurrentAmp: real,
    integralLimitAmp: real,
    invertMeasured: bool,
    ffStaticAmp: real,
    ffViscousAmpPerRpm: real)
  {
    /** What the setters of the driver establish, and `std::clamp` demands of its bounds. */
    predicate Valid() {
      maxCurrentAmp >= 0.0 && integralLimitAmp >= 0.0
    }
  }

  function SanitizeDt(dt: real): (r: real)
    ensures 0.0 < r <= 0.2
    ensures 0.0 < dt <= 0.2 ==> r == dt
  {
    if !(dt > 0.0 && dt <= 0.2) then 0.01 else dt
  }

  predicate InZeroDeadband(rpmRef: int, measuredRpm: int, deadbandRpm: int) {
    rpmRef == 0 && Abs(measuredRpm) <= deadbandRpm
  }

  function FrictionFeedforwardAmp(rpmRef: int, p: Params): real {
    if rpmRef == 0 then 0.0 else
      var ref := rpmRef as real;
      p.ffStaticAmp * ClampReal(ref / FRICTION_FULL_RPM, -1.0, 1.0) + p.ffViscousAmpPerRpm * ref
  }

  /** `lround`: to the nearest integer, halves away from 0. */
  function Lround(x: real): (n: int)
    ensures n as real - 0.5 <= x <= n as real + 0.5
  {
    if x >= 0.0 then (x + 0.5).Floor else -((-x + 0.5).Floor)
  }

  function AmpToRaw(amp: real): (raw: int)
    ensures -32767 <= raw <= 32767
  {
    Lround(ClampReal(amp / AMP_PER_RAW, -32767.0, 32767.0))
  }

  function RawToAmp(raw: int): real {
    raw as real * AMP_PER_RAW
  }

  /** One step of the loop: the new integral term, the clamped command and the value to send. */
  datatype PiStep = PiStep(integralAmp: real, commandAmp: real, saturated: bool, raw: int)

  function SpeedError(p: Params, rpmRef: int, measuredRpm: int): real {
    (rpmRef - (if p.invertMeasured then -measuredRpm else measuredRpm)) as real
  }

  function Proportional(p: Params, error: real): real {
    p.kp * error
  }

  function Increment(p: Params, error: real, dt: real): real {
    p.ki * error * dt
  }

  function IntegralCandidate(p: Params, integralAmp: real, error: real, dt: real): real
    requires p.Valid()
  {
    if p.ki > MIN_KI
    then ClampReal(integralAmp + Increment(p, error, dt), -p.integralLimitAmp, p.integralLimitAmp)
    else 0.0
  }

  function Unclamped(p: Params, integralAmp: real, rpmRef: int, measuredRpm: int, dt: real): real
    requires p.Valid()
  {
    var error := SpeedError(p, rpmRef, measuredRpm);
    FrictionFeedforwardAmp(rpmRef, p) + Proportional(p, error) + IntegralCandidate(p, integralAmp, error, dt)
  }

  /** The output is beyond the current limit and the error would drive it further beyond. */
  predicate PushingIntoLimit(p: Params, integralAmp: real, rpmRef: int, measuredRpm: int, dt: real)
    requires p.Valid()
  {
    var error := SpeedError(p, rpmRef, measuredRpm);
    var u := Unclamped(p, integralAmp, rpmRef, measuredRpm, dt);
    (u > p.maxCurrentAmp && error > 0.0) || (u < -p.maxCurrentAmp && error < 0.0)
  }

  function Step(p: Params, integralAmp: real, rpmRef: int, measuredRpm: int, dt: real): PiStep
    requires p.Valid()
  {
    var error := SpeedError(p, rpmRef, measuredRpm);
    var u := Unclamped(p, integralAmp, rpmRef, measuredRpm, dt);
    var cmd := ClampReal(u, -p.maxCurrentAmp, p.maxCurrentAmp);
    var next := if p.ki <= MIN_KI then 0.0
                else if PushingIntoLimit(p, integralAmp, rpmRef, measuredRpm, dt) then integralAmp
                else IntegralCandidate(p, integralAmp, error, dt);
    PiStep(next, cmd, cmd != u, AmpToRaw(cmd))
  }

  class PiState {
    var integralAmp: real

    constructor ()
      ensures integralAmp == 0.0
    {
      integralAmp := 0.0;
    }

    method StepToRaw(p: Params, rpmRef: int, measuredRpm: int, dt: real)
      returns (raw: int, commandAmp: real, saturated: bool)
      requires p.Valid()
      modifies this
      ensures PiStep(integralAmp, commandAmp, saturated, raw) == Step(p, old(integralAmp), rpmRef, measuredRpm, dt)
    {
      hide AmpToRaw, FrictionFeedforwardAmp, ClampReal, Proportional, Increment;
      var measured := if p.invertMeasured then -measuredRpm else measuredRpm;
      var error := (rpmRef - measured) as real;
      assert error == SpeedError(p, rpmRef, measuredRpm);
      var candidate := 0.0;
      if p.ki > MIN_KI {
        candidate := ClampReal(integralAmp + Increment(p, error, dt), -p.integralLimitAmp, p.integralLimitAmp);
      }
      assert candidate == IntegralCandidate(p, integralAmp, error, dt);
      var unclamped := FrictionFeedforwardAmp(rpmRef, p) + Proportional(p, error) + candidate;
      assert unclamped == Unclamped(p, integralAmp, rpmRef, measuredRpm, dt);
      commandAmp := ClampReal(unclamped, -p.maxCurrentAmp, p.maxCurrentAmp);
      saturated := commandAmp != unclamped;
      var pushing := (unclamped > p.maxCurrentAmp && error > 0.0) || (unclamped < -p.maxCurrentAmp && error < 0.0);
      if p.ki <= MIN_KI {
        integralAmp := 0.0;
      } else if !pushing {
        integralAmp := candidate;
      }
      raw := AmpToRaw(commandAmp);
    }
  }

  // ----- one step ------------------------------------------------------------------------------

  /** The value sent is within half a step of the commanded current, up to the 8 A the wire can say. */
  lemma RawIsNearest(amp: real)
    ensures -8.0 <= amp <= 8.0 ==> AbsReal(RawToAmp(AmpToRaw(amp)) - amp) <= AMP_PER_RAW / 2.0
    ensures amp >= 8.0 ==> AmpToRaw(amp) == 32767
    ensures amp <= -8.0 ==> AmpToRaw(amp) == -32767
  {
    var x := amp / AMP_PER_RAW;
    assert x * AMP_PER_RAW == amp;
    assert -8.0 <= amp <= 8.0 ==> -32767.0 <= x <= 32767.0;
    assert amp >= 8.0 ==> x >= 32767.0;
    assert amp <= -8.0 ==> x <= -32767.0;
  }

  /** Every representable value survives the trip through amperes. */
  lemma RawRoundTrip(raw: int)
    requires -32767 <= raw <= 32767
    ensures AmpToRaw(RawToAmp(raw)) == raw
  {
    assert RawToAmp(raw) / AMP_PER_RAW == raw as real;
  }

  /** A larger current is never sent as a smaller value, and the sign is kept. */
  lemma RawMonotone(a: real, b: real)
    requires a <= b
    ensures AmpToRaw(a) <= AmpToRaw(b)
    ensures AmpToRaw(-a) == -AmpToRaw(a)
  {
    assert a / AMP_PER_RAW <= b / AMP_PER_RAW;
    assert (-a) / AMP_PER_RAW == -(a / AMP_PER_RAW);
  }

  /** What a step sends is within what the current limit converts to. */
  lemma RawWithinLimit(p: Params, i: real, rpmRef: int, measuredRpm: int, dt: real)
    requires p.Valid()
    ensures Abs(Step(p, i, rpmRef, measuredRpm, dt).raw) <= AmpToRaw(p.maxCurrentAmp)
  {
    hide Unclamped, PushingIntoLimit, IntegralCandidate, AmpToRaw;
    var amp := Step(p, i, rpmRef, measuredRpm, dt).commandAmp;
    RawMonotone(amp, p.maxCurrentAmp);
    RawMonotone(-p.maxCurrentAmp, amp);
    RawMonotone(p.maxCurrentAmp, p.maxCurrentAmp);
  }

  lemma IncrementSign(p: Params, error: real, dt: real)
    requires p.ki > 0.0 && dt > 0.0
    ensures error > 0.0 ==> Increment(p, error, dt) > 0.0
    ensures error < 0.0 ==> Increment(p, error, dt) < 0.0
    ensures error == 0.0 ==> Increment(p, error, dt) == 0.0
  {
    var ki := p.ki;
    if error > 0.0 {
      assert ki * error > 0.0;
    } else if error < 0.0 {
      assert ki * (-error) > 0.0;
      assert ki * error == -(ki * (-error));
      assert ki * (-error) * dt > 0.0;
    }
  }

  /** The integral term moves only the way the error points, and stays inside its limit. */
  lemma IntegralFollowsError(p: Params, i: real, rpmRef: int, measuredRpm: int, dt: real)
    requires p.Valid() && dt > 0.0 && p.ki > MIN_KI
    requires -p.integralLimitAmp <= i <= p.integralLimitAmp
    ensures var next := Step(p, i, rpmRef, measuredRpm, dt).integralAmp;
            var error := SpeedError(p, rpmRef, measuredRpm);
            && -p.integralLimitAmp <= next <= p.integralLimitAmp
            && (error >= 0.0 ==> next >= i)
            && (error <= 0.0 ==> next <= i)
            && (PushingIntoLimit(p, i, rpmRef, measuredRpm, dt) ==> next == i)
            && (!PushingIntoLimit(p, i, rpmRef, measuredRpm, dt) && error > 0.0 ==>
                  next > i || next == p.integralLimitAmp)
            && (!PushingIntoLimit(p, i, rpmRef, measuredRpm, dt) && error < 0.0 ==>
                  next < i || next == -p.integralLimitAmp)
  {
    hide Increment, Proportional, FrictionFeedforwardAmp;
    IncrementSign(p, SpeedError(p, rpmRef, measuredRpm), dt);
  }

  /**
   * The limit bounds the integral only while it is not lowered: starting from any value, one step
   * leaves the integral inside the limit exactly when it was inside or the step was free to move it.
   */
  lemma IntegralBoundNeedsFixedLimit(p: Params, i: real, rpmRef: int, measuredRpm: int, dt: real)
    requires p.Valid() && dt > 0.0
    ensures var next := Step(p, i, rpmRef, measuredRpm, dt).integralAmp;
            (-p.integralLimitAmp <= next <= p.integralLimitAmp)
            <==> (|| p.ki <= MIN_KI
                  || -p.integralLimitAmp <= i <= p.integralLimitAmp
                  || !PushingIntoLimit(p, i, rpmRef, measuredRpm, dt))
  {
  }

  // ----- whole runs ----------------------------------------------------------------------------

  datatype Sample = Sample(rpmRef: int, measuredRpm: int, dtSeconds: real)

  /** The step taken last in a run, from a cleared integrator. */
  function RunFrom(p: Params, i: real, run: seq<Sample>): PiStep
    requires p.Valid() && run != []
    decreases run
  {
    var first := Step(p, i, run[0].rpmRef, run[0].measuredRpm, SanitizeDt(run[0].dtSeconds));
    if |run| == 1 then first else RunFrom(p, first.integralAmp, run[1..])
  }

  /**
   * With fixed limits, whatever the targets, the measurements and the clock do, every step of every
   * run keeps the integral, the command and the sent value within their bounds.
   */
  lemma {:induction false} RunStaysBounded(p: Params, i: real, run: seq<Sample>)
    requires p.Valid() && run != []
    requires -p.integralLimitAmp <= i <= p.integralLimitAmp
    ensures var last := RunFrom(p, i, run);
            && -p.integralLimitAmp <= last.integralAmp <= p.integralLimitAmp
            && -p.maxCurrentAmp <= last.commandAmp <= p.maxCurrentAmp
            && last.raw == AmpToRaw(last.commandAmp)
            && (p.maxCurrentAmp <= 8.0 ==> AbsReal(RawToAmp(last.raw) - last.commandAmp) <= AMP_PER_RAW / 2.0)
    decreases run
  {
    var s := run[0];
    var dt := SanitizeDt(s.dtSeconds);
    var first := Step(p, i, s.rpmRef, s.measuredRpm, dt);
    IntegralBoundNeedsFixedLimit(p, i, s.rpmRef, s.measuredRpm, dt);
    if |run| > 1 {
      RunStaysBounded(p, first.integralAmp, run[1..]);
    } else if p.maxCurrentAmp <= 8.0 {
      RawIsNearest(first.commandAmp);
    }
  }

  /** No windup: while every step pushes into the limit, the integral does not move at all. */
  lemma {:induction false} SaturatedRunFreezesIntegral(p: Params, i: real, run: seq<Sample>)
    requires p.Valid() && run != [] && p.ki > MIN_KI
    requires forall s :: s in run ==> PushingIntoLimit(p, i, s.rpmRef, s.measuredRpm, SanitizeDt(s.dtSeconds))
    ensures RunFrom(p, i, run).integralAmp == i
    ensures RunFrom(p, i, run).commandAmp == p.maxCurrentAmp || RunFrom(p, i, run).commandAmp == -p.maxCurrentAmp
    decreases run
  {
    assert run[0] in run;
    if |run| > 1 {
      SaturatedRunFreezesIntegral(p, i, run[1..]);
    }
  }
}
