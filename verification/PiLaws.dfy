/**
 * What the current loop's command means: which way it pushes and how hard, and that it answers every
 * error that stays. All is said about the measured speed, the target and the command of a step.
 */
module PiLaws {
  import opened Common
  import opened CurrentPi

  /** The measured speed, counted the way the target is. */
  function Turning(p: Params, measuredRpm: int): int {
    if p.invertMeasured then -measuredRpm else measuredRpm
  }

  lemma ProductsOrdered(k: real, a: real, b: real)
    requires k >= 0.0 && a <= b
    ensures k * a <= k * b
    ensures k > 0.0 && a < b ==> k * a < k * b
  {
    assert k * b - k * a == k * (b - a);
  }

  lemma ClampOrdered(a: real, b: real, limit: real)
    requires a <= b && limit >= 0.0
    ensures var x, y := ClampReal(a, -limit, limit), ClampReal(b, -limit, limit);
            && x <= y && (a < b && x == y ==> AbsReal(x) == limit)
            && ClampReal(-a, -limit, limit) == -x
            && (x != a <==> a < -limit || a > limit)
  {
  }

  /** A larger error asks for more, by the proportional and the integral term alike. */
  lemma ErrorOrdersTerms(p: Params, i: real, a: real, b: real, dt: real)
    requires p.Valid() && p.kp >= 0.0 && dt > 0.0 && a <= b
    ensures Proportional(p, a) <= Proportional(p, b)
    ensures p.kp > 0.0 && a < b ==> Proportional(p, a) < Proportional(p, b)
    ensures IntegralCandidate(p, i, a, dt) <= IntegralCandidate(p, i, b, dt)
  {
    ProductsOrdered(p.kp, a, b);
    if p.ki > MIN_KI {
      ProductsOrdered(p.ki, a, b);
      ProductsOrdered(dt, p.ki * a, p.ki * b);
      ClampOrdered(i + Increment(p, a, dt), i + Increment(p, b, dt), p.integralLimitAmp);
    }
  }

  /** One step's command is at least the other's, and more unless both stand at the same limit. */
  predicate Pushes(p: Params, more: PiStep, less: PiStep) {
    && more.commandAmp >= less.commandAmp && more.raw >= less.raw
    && (p.kp > 0.0 && more.commandAmp == less.commandAmp ==> AbsReal(more.commandAmp) == p.maxCurrentAmp)
  }

  lemma OutputsOrdered(p: Params, i: real, refA: int, measuredA: int, refB: int, measuredB: int, dt: real)
    requires p.Valid()
    requires var a, b := Unclamped(p, i, refA, measuredA, dt), Unclamped(p, i, refB, measuredB, dt);
             a <= b && (p.kp > 0.0 ==> a < b)
    ensures Pushes(p, Step(p, i, refB, measuredB, dt), Step(p, i, refA, measuredA, dt))
  {
    hide Unclamped, PushingIntoLimit, IntegralCandidate, AmpToRaw, ClampReal;
    var a, b := Step(p, i, refA, measuredA, dt), Step(p, i, refB, measuredB, dt);
    ClampOrdered(Unclamped(p, i, refA, measuredA, dt), Unclamped(p, i, refB, measuredB, dt), p.maxCurrentAmp);
    RawMonotone(a.commandAmp, b.commandAmp);
  }

  /** Braking: a motor that turns faster gets less current, unless both speeds are beyond the limit. */
  lemma FasterMotorGetsLess(p: Params, i: real, rpmRef: int, slow: int, fast: int, dt: real)
    requires p.Valid() && p.kp >= 0.0 && dt > 0.0 && Turning(p, slow) < Turning(p, fast)
    ensures Pushes(p, Step(p, i, rpmRef, slow, dt), Step(p, i, rpmRef, fast, dt))
  {
    hide Proportional, IntegralCandidate, Step, Pushes, FrictionFeedforwardAmp;
    assert SpeedError(p, rpmRef, fast) < SpeedError(p, rpmRef, slow);
    ErrorOrdersTerms(p, i, SpeedError(p, rpmRef, fast), SpeedError(p, rpmRef, slow), dt);
    OutputsOrdered(p, i, rpmRef, fast, rpmRef, slow, dt);
  }

  /** A higher target gets more current, if the friction terms do not work against it. */
  lemma HigherTargetGetsMore(p: Params, i: real, low: int, high: int, measuredRpm: int, dt: real)
    requires p.Valid() && p.kp >= 0.0 && dt > 0.0 && low < high
    requires p.ffStaticAmp >= 0.0 && p.ffViscousAmpPerRpm >= 0.0
    ensures Pushes(p, Step(p, i, high, measuredRpm, dt), Step(p, i, low, measuredRpm, dt))
  {
    hide Proportional, IntegralCandidate, Step, Pushes, FrictionFeedforwardAmp;
    assert SpeedError(p, low, measuredRpm) < SpeedError(p, high, measuredRpm);
    ErrorOrdersTerms(p, i, SpeedError(p, low, measuredRpm), SpeedError(p, high, measuredRpm), dt);
    FrictionOrdered(p, low, high);
    OutputsOrdered(p, i, low, measuredRpm, high, measuredRpm, dt);
  }

  // ----- friction ------------------------------------------------------------------------------

  /**
   * The friction term is odd in the target, grows in proportion up to 10 rpm and has its whole static
   * part from there on.
   */
  lemma FrictionTerm(p: Params, rpmRef: int)
    ensures FrictionFeedforwardAmp(-rpmRef, p) == -FrictionFeedforwardAmp(rpmRef, p)
    ensures 0 <= rpmRef <= 10 ==>
              FrictionFeedforwardAmp(rpmRef, p) == (p.ffStaticAmp / 10.0 + p.ffViscousAmpPerRpm) * rpmRef as real
    ensures rpmRef >= 10 ==>
              FrictionFeedforwardAmp(rpmRef, p) == p.ffStaticAmp + p.ffViscousAmpPerRpm * rpmRef as real
  {
    var ref := rpmRef as real;
    assert (-rpmRef) as real == -ref && (-ref) / FRICTION_FULL_RPM == -(ref / FRICTION_FULL_RPM);
    ClampOrdered(ref / FRICTION_FULL_RPM, ref / FRICTION_FULL_RPM, 1.0);
    var share := ClampReal(ref / FRICTION_FULL_RPM, -1.0, 1.0);
    assert p.ffStaticAmp * -share == -(p.ffStaticAmp * share);
    assert p.ffViscousAmpPerRpm * -ref == -(p.ffViscousAmpPerRpm * ref);
    if 0 <= rpmRef <= 10 {
      assert share == ref / 10.0;
      assert p.ffStaticAmp * (ref / 10.0) == (p.ffStaticAmp / 10.0) * ref;
      assert (p.ffStaticAmp / 10.0 + p.ffViscousAmpPerRpm) * ref
          == (p.ffStaticAmp / 10.0) * ref + p.ffViscousAmpPerRpm * ref;
    }
    if rpmRef >= 10 {
      assert ref / FRICTION_FULL_RPM >= 1.0;
      assert share == 1.0 && p.ffStaticAmp * 1.0 == p.ffStaticAmp;
    }
  }

  function FrictionAt(p: Params, share: real, ref: real): real {
    p.ffStaticAmp * share + p.ffViscousAmpPerRpm * ref
  }

  lemma FrictionIs(p: Params, rpmRef: int)
    ensures FrictionFeedforwardAmp(rpmRef, p)
         == FrictionAt(p, ClampReal(rpmRef as real / FRICTION_FULL_RPM, -1.0, 1.0), rpmRef as real)
  {
    assert 0.0 / FRICTION_FULL_RPM == 0.0 && ClampReal(0.0, -1.0, 1.0) == 0.0;
    assert p.ffStaticAmp * 0.0 == 0.0 && p.ffViscousAmpPerRpm * 0.0 == 0.0;
  }

  lemma FrictionAtOrdered(p: Params, a: real, b: real, x: real, y: real)
    requires p.ffStaticAmp >= 0.0 && p.ffViscousAmpPerRpm >= 0.0 && a <= b && x <= y
    ensures FrictionAt(p, a, x) <= FrictionAt(p, b, y)
  {
    ProductsOrdered(p.ffStaticAmp, a, b);
    ProductsOrdered(p.ffViscousAmpPerRpm, x, y);
  }

  lemma FrictionOrdered(p: Params, low: int, high: int)
    requires p.ffStaticAmp >= 0.0 && p.ffViscousAmpPerRpm >= 0.0 && low <= high
    ensures FrictionFeedforwardAmp(low, p) <= FrictionFeedforwardAmp(high, p)
  {
    hide FrictionFeedforwardAmp, FrictionAt;
    FrictionIs(p, low);
    FrictionIs(p, high);
    var x, y := low as real / FRICTION_FULL_RPM, high as real / FRICTION_FULL_RPM;
    assert x <= y;
    ClampOrdered(x, y, 1.0);
    FrictionAtOrdered(p, ClampReal(x, -1.0, 1.0), ClampReal(y, -1.0, 1.0), low as real, high as real);
  }

  // ----- symmetry ------------------------------------------------------------------------------

  lemma TermsAreOdd(p: Params, i: real, e: real, dt: real)
    requires p.Valid()
    ensures Proportional(p, -e) == -Proportional(p, e)
    ensures IntegralCandidate(p, -i, -e, dt) == -IntegralCandidate(p, i, e, dt)
  {
    assert p.ki * -e == -(p.ki * e);
    assert -(p.ki * e) * dt == -(p.ki * e * dt);
    var sum := i + Increment(p, e, dt);
    ClampOrdered(sum, sum, p.integralLimitAmp);
  }

  lemma OutputIsOdd(p: Params, i: real, rpmRef: int, measuredRpm: int, dt: real)
    requires p.Valid()
    ensures SpeedError(p, -rpmRef, -measuredRpm) == -SpeedError(p, rpmRef, measuredRpm)
    ensures Unclamped(p, -i, -rpmRef, -measuredRpm, dt) == -Unclamped(p, i, rpmRef, measuredRpm, dt)
  {
    hide FrictionFeedforwardAmp, Proportional, IntegralCandidate;
    FrictionTerm(p, rpmRef);
    TermsAreOdd(p, i, SpeedError(p, rpmRef, measuredRpm), dt);
  }

  /** Everything mirrored, the loop does the same the other way round. */
  lemma StepIsOdd(p: Params, i: real, rpmRef: int, measuredRpm: int, dt: real)
    requires p.Valid()
    ensures var step, mirrored := Step(p, i, rpmRef, measuredRpm, dt), Step(p, -i, -rpmRef, -measuredRpm, dt);
            && mirrored.commandAmp == -step.commandAmp && mirrored.raw == -step.raw
            && mirrored.integralAmp == -step.integralAmp && mirrored.saturated == step.saturated
  {
    OutputIsOdd(p, i, rpmRef, measuredRpm, dt);
    TermsAreOdd(p, i, SpeedError(p, rpmRef, measuredRpm), dt);
    hide AmpToRaw, ClampReal, Unclamped, SpeedError, IntegralCandidate;
    var u := Unclamped(p, i, rpmRef, measuredRpm, dt);
    ClampOrdered(u, u, p.maxCurrentAmp);
    var cmd := ClampReal(u, -p.maxCurrentAmp, p.maxCurrentAmp);
    RawMonotone(cmd, cmd);
  }

  // ----- how much ------------------------------------------------------------------------------

  /**
   * Without friction terms and with the integral off, the command is `kp` times what the motor turns
   * too slowly, up to the limit; so it pushes a slow motor on and brakes a fast one.
   */
  lemma ProportionalAlone(p: Params, i: real, rpmRef: int, measuredRpm: int, dt: real)
    requires p.Valid() && p.kp > 0.0 && p.ki <= MIN_KI && p.ffStaticAmp == 0.0 && p.ffViscousAmpPerRpm == 0.0
    ensures var step := Step(p, i, rpmRef, measuredRpm, dt);
            var missing := (rpmRef - Turning(p, measuredRpm)) as real;
            && (AbsReal(p.kp * missing) <= p.maxCurrentAmp ==> step.commandAmp == p.kp * missing && !step.saturated)
            && (AbsReal(p.kp * missing) > p.maxCurrentAmp ==>
                  step.saturated && step.commandAmp == if missing > 0.0 then p.maxCurrentAmp else -p.maxCurrentAmp)
            && (p.maxCurrentAmp > 0.0 ==> (step.commandAmp > 0.0 <==> missing > 0.0)
                                          && (step.commandAmp < 0.0 <==> missing < 0.0))
            && step.integralAmp == 0.0
  {
    hide AmpToRaw, Proportional;
    var e := SpeedError(p, rpmRef, measuredRpm);
    assert e == (rpmRef - Turning(p, measuredRpm)) as real;
    assert Proportional(p, e) == p.kp * e by { ProportionalIs(p, e); }
    NoFriction(p, rpmRef);
    hide FrictionFeedforwardAmp, SpeedError;
    var u := Unclamped(p, i, rpmRef, measuredRpm, dt);
    assert u == p.kp * e;
    SameSign(p.kp, e);
    ClampOrdered(u, u, p.maxCurrentAmp);
  }

  lemma ProportionalIs(p: Params, e: real)
    ensures Proportional(p, e) == p.kp * e
  {
  }

  lemma NoFriction(p: Params, rpmRef: int)
    requires p.ffStaticAmp == 0.0 && p.ffViscousAmpPerRpm == 0.0
    ensures FrictionFeedforwardAmp(rpmRef, p) == 0.0
  {
  }

  lemma SameSign(k: real, x: real)
    requires k > 0.0
    ensures k * x > 0.0 <==> x > 0.0
    ensures k * x < 0.0 <==> x < 0.0
  {
    if x >= 0.0 {
      ProductsOrdered(k, 0.0, x);
    } else {
      ProductsOrdered(k, x, 0.0);
    }
  }

  /**
   * With the integral on: within the limit the command is the sum of the friction term, `kp` times the
   * error and the new integral. The integral moves by `ki` times the error and the time passed, up to
   * its limit, and stands still exactly while the command is cut off in the direction of the error.
   */
  lemma CommandIsTheSum(p: Params, i: real, rpmRef: int, measuredRpm: int, dt: real)
    requires p.Valid() && p.ki > MIN_KI && p.maxCurrentAmp > 0.0
    ensures var step := Step(p, i, rpmRef, measuredRpm, dt);
            var missing := (rpmRef - Turning(p, measuredRpm)) as real;
            var sum := i + p.ki * missing * dt;
            var held := step.saturated && (step.commandAmp > 0.0 <==> missing > 0.0) && missing != 0.0;
            && (!step.saturated ==>
                  step.commandAmp == FrictionFeedforwardAmp(rpmRef, p) + p.kp * missing + step.integralAmp)
            && (step.saturated ==> AbsReal(step.commandAmp) == p.maxCurrentAmp)
            && (held ==> step.integralAmp == i)
            && (!held && AbsReal(sum) <= p.integralLimitAmp ==> step.integralAmp == sum)
            && (!held && sum > p.integralLimitAmp ==> step.integralAmp == p.integralLimitAmp)
            && (!held && sum < -p.integralLimitAmp ==> step.integralAmp == -p.integralLimitAmp)
  {
    hide AmpToRaw, FrictionFeedforwardAmp;
    var e := SpeedError(p, rpmRef, measuredRpm);
    assert e == (rpmRef - Turning(p, measuredRpm)) as real;
    assert Proportional(p, e) == p.kp * e && Increment(p, e, dt) == p.ki * e * dt;
    hide Proportional, Increment, SpeedError;
    var u := Unclamped(p, i, rpmRef, measuredRpm, dt);
    assert u == FrictionFeedforwardAmp(rpmRef, p) + p.kp * e + IntegralCandidate(p, i, e, dt);
    ClampOrdered(u, u, p.maxCurrentAmp);
  }

  // ----- an error that stays -------------------------------------------------------------------

  /** The same measurement and the same target, `n` times. */
  function Standing(s: Sample, n: nat): (run: seq<Sample>)
    ensures |run| == n
  {
    seq(n, _ => s)
  }

  /** What the integral gains in one step. */
  function Gain(p: Params, s: Sample): real {
    p.ki * (s.rpmRef - Turning(p, s.measuredRpm)) as real * SanitizeDt(s.dtSeconds)
  }

  predicate HeldAtMost(step: PiStep) {
    step.saturated && step.commandAmp > 0.0
  }

  lemma TooSlowStep(p: Params, i: real, s: Sample)
    requires p.Valid() && p.ki > MIN_KI && p.maxCurrentAmp > 0.0
    requires AbsReal(i) <= p.integralLimitAmp && Turning(p, s.measuredRpm) < s.rpmRef
    ensures var step := Step(p, i, s.rpmRef, s.measuredRpm, SanitizeDt(s.dtSeconds));
            && Gain(p, s) > 0.0
            && (HeldAtMost(step) ==> step.integralAmp == i && step.commandAmp == p.maxCurrentAmp)
            && (!HeldAtMost(step) ==>
                  step.integralAmp == if i + Gain(p, s) <= p.integralLimitAmp then i + Gain(p, s)
                                      else p.integralLimitAmp)
  {
    hide Step, FrictionFeedforwardAmp;
    var missing, dt := (s.rpmRef - Turning(p, s.measuredRpm)) as real, SanitizeDt(s.dtSeconds);
    SameSign(p.ki, missing);
    SameSign(dt, p.ki * missing);
    CommandIsTheSum(p, i, s.rpmRef, s.measuredRpm, dt);
  }

  /**
   * A motor that stays too slow is pushed harder and harder: after `n` steps the command stands at the
   * current limit, or the integral at its own, or the integral has grown by all of `n` steps.
   */
  lemma {:induction false} StandingErrorIsAnswered(p: Params, i: real, s: Sample, n: nat)
    requires p.Valid() && p.ki > MIN_KI && p.maxCurrentAmp > 0.0 && n > 0
    requires AbsReal(i) <= p.integralLimitAmp && Turning(p, s.measuredRpm) < s.rpmRef
    ensures var last := RunFrom(p, i, Standing(s, n));
            || last.commandAmp == p.maxCurrentAmp
            || last.integralAmp == p.integralLimitAmp
            || last.integralAmp == i + n as real * Gain(p, s)
    decreases n
  {
    hide Step, Gain, SanitizeDt, Turning;
    var run, first := Standing(s, n), Step(p, i, s.rpmRef, s.measuredRpm, SanitizeDt(s.dtSeconds));
    TooSlowStep(p, i, s);
    if HeldAtMost(first) {
      StaysHeld(p, i, s, n);
    } else if n > 1 {
      assert run[1..] == Standing(s, n - 1);
      StandingErrorIsAnswered(p, first.integralAmp, s, n - 1);
      RunStaysBounded(p, first.integralAmp, run[1..]);
      MoreSteps(Gain(p, s), n);
    }
  }

  lemma MoreSteps(gain: real, n: nat)
    requires gain > 0.0 && n > 1
    ensures n as real * gain == gain + (n - 1) as real * gain && (n - 1) as real * gain > 0.0
  {
    SameSign(gain, (n - 1) as real);
  }

  /** A command cut off in the direction of an error that stays is cut off for as long. */
  lemma {:induction false} StaysHeld(p: Params, i: real, s: Sample, n: nat)
    requires p.Valid() && p.ki > MIN_KI && p.maxCurrentAmp > 0.0 && n > 0
    requires AbsReal(i) <= p.integralLimitAmp && Turning(p, s.measuredRpm) < s.rpmRef
    requires HeldAtMost(Step(p, i, s.rpmRef, s.measuredRpm, SanitizeDt(s.dtSeconds)))
    ensures RunFrom(p, i, Standing(s, n)).commandAmp == p.maxCurrentAmp
    decreases n
  {
    hide Step, Gain, SanitizeDt, Turning;
    TooSlowStep(p, i, s);
    if n > 1 {
      assert Standing(s, n)[1..] == Standing(s, n - 1);
      StaysHeld(p, i, s, n - 1);
    }
  }
}
