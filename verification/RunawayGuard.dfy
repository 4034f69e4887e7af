/**
 * The runaway guard of current mode. `Update` is the specification of one evaluation, `GuardState`
 * the implementation with its fixed arrays, and the lemmas say what a trip means over the whole
 * history of samples since the guard was last reset.
 */
module RunawayGuard {
  import opened Common

  const AGAINST_MIN_CURRENT_AMP: real := 0.05
  const AGAINST_MIN_SPEED_RPM: int := 5
  const AGAINST_GROWTH_RPM: real := 30.0
  const OVERSPEED_SLOWDOWN_TOL_RPM: real := 3.0
  const SATURATION_FRACTION: real := 0.95
  const OSCILLATION_WINDOW_SEC: real := 0.5
  const OSCILLATION_SWITCHES: nat := 4

  datatype GuardTrip = NoTrip | AccelAgainstCurrent | Overspeed | Oscillation | ModeMismatch

  datatype GuardParams = GuardParams(overspeedMarginRpm: real, overspeedTimeSec: real)

  /** What one evaluation is given, the parameters in force at that moment included. */
  datatype Sample = Sample(
    nowSec: real,
    rpmRef: int,
    measuredPrevRpm: int,
    measuredNewRpm: int,
    appliedAmp: real,
    commandedAmp: real,
    maxCurrentAmp: real,
    params: GuardParams)

  /** The moment the saturated command was seen to point the other way. */
  datatype Switch = Switch(time: real, sign: int)

  datatype Guard = Guard(
    overspeedActive: bool,
    overspeedSinceSec: real,
    overspeedStartAbsRpm: real,
    againstGrowthRpm: real,
    switches: seq<Switch>)

  const FRESH := Guard(false, 0.0, 0.0, 0.0, [])

  function SignOf(v: real): int {
    if v > 0.0 then 1 else if v < 0.0 then -1 else 0
  }

  function SignOfInt(v: int): int {
    if v > 0 then 1 else if v < 0 then -1 else 0
  }

  function LeastReal(a: real, b: real): real {
    if b < a then b else a
  }

  function GreatestReal(a: real, b: real): real {
    if a < b then b else a
  }

  // ----- what a single sample says ----------------------------------------------------------

  /** Current flowed against the rotation between the two measurements. */
  predicate Braking(s: Sample) {
    var least := LeastReal(AGAINST_MIN_CURRENT_AMP, 0.5 * GreatestReal(0.0, s.maxCurrentAmp));
    && least > 0.0
    && AbsReal(s.appliedAmp) >= least
    && Abs(s.measuredPrevRpm) >= AGAINST_MIN_SPEED_RPM
    && SignOfInt(s.measuredNewRpm) == SignOfInt(s.measuredPrevRpm)
    && SignOf(s.appliedAmp) == -SignOfInt(s.measuredPrevRpm)
  }

  function SpeedUp(s: Sample): real {
    Abs(s.measuredNewRpm) as real - Abs(s.measuredPrevRpm) as real
  }

  predicate Exceeds(s: Sample) {
    Abs(s.measuredNewRpm) as real > Abs(s.rpmRef) as real + s.params.overspeedMarginRpm
  }

  predicate Saturated(s: Sample) {
    s.maxCurrentAmp > 0.0 && AbsReal(s.commandedAmp) >= SATURATION_FRACTION * s.maxCurrentAmp
  }

  // ----- one evaluation -----------------------------------------------------------------------

  predicate Expired(sw: Switch, now: real) {
    now - sw.time > OSCILLATION_WINDOW_SEC
  }

  function DropExpired(sw: seq<Switch>, now: real): seq<Switch>
    decreases sw
  {
    if sw != [] && Expired(sw[0], now) then DropExpired(sw[1..], now) else sw
  }

  /** Whether a saturated command opens a new record. */
  predicate Turned(sw: seq<Switch>, s: Sample) {
    Saturated(s) && (sw == [] || sw[|sw| - 1].sign != SignOf(s.commandedAmp))
  }

  function Record(sw: seq<Switch>, s: Sample): seq<Switch> {
    (if |sw| == OSCILLATION_SWITCHES then sw[1..] else sw) + [Switch(s.nowSec, SignOf(s.commandedAmp))]
  }

  /** The records after one sample, and whether there are now too many of them. */
  function NoteTurn(sw: seq<Switch>, s: Sample): (seq<Switch>, GuardTrip) {
    var recent := DropExpired(sw, s.nowSec);
    if Turned(recent, s) then
      var records := Record(recent, s);
      (records, if |records| >= OSCILLATION_SWITCHES then Oscillation else NoTrip)
    else (recent, NoTrip)
  }

  function Update(g: Guard, s: Sample): (Guard, GuardTrip) {
    var growth := if Braking(s) then GreatestReal(0.0, g.againstGrowthRpm + SpeedUp(s)) else 0.0;
    var g1 := g.(againstGrowthRpm := growth);
    if Braking(s) && growth >= AGAINST_GROWTH_RPM then (g1, AccelAgainstCurrent)
    else if Exceeds(s) && g.overspeedActive && s.nowSec - g.overspeedSinceSec >= s.params.overspeedTimeSec
            && Abs(s.measuredNewRpm) as real >= g.overspeedStartAbsRpm - OVERSPEED_SLOWDOWN_TOL_RPM
    then (g1, Overspeed)
    else
      var g2 := if !Exceeds(s) then g1.(overspeedActive := false)
                else if g.overspeedActive then g1
                else g1.(overspeedActive := true, overspeedSinceSec := s.nowSec,
                         overspeedStartAbsRpm := Abs(s.measuredNewRpm) as real);
      var (records, trip) := NoteTurn(g.switches, s);
      (g2.(switches := records), trip)
  }

  // ----- the implementation with its two fixed arrays -------------------------------------------

  class GuardState {
    var overspeedActive: bool
    var overspeedSinceSec: real
    var overspeedStartAbsRpm: real
    var againstGrowthRpm: real
    const saturationTimes: array<real>
    const saturationSigns: array<int>
    var saturationCount: int

    ghost predicate Valid()
      reads this
    {
      && saturationTimes.Length == OSCILLATION_SWITCHES
      && saturationSigns.Length == OSCILLATION_SWITCHES
      && 0 <= saturationCount <= OSCILLATION_SWITCHES
    }

    ghost function Records(): (sw: seq<Switch>)
      requires Valid()
      reads this, saturationTimes, saturationSigns
      ensures |sw| == saturationCount
    {
      seq(saturationCount, i requires 0 <= i < saturationCount && Valid()
                             reads this, saturationTimes, saturationSigns
        => Switch(saturationTimes[i], saturationSigns[i]))
    }

    ghost function View(): Guard
      requires Valid()
      reads this, saturationTimes, saturationSigns
    {
      Guard(overspeedActive, overspeedSinceSec, overspeedStartAbsRpm, againstGrowthRpm, Records())
    }

    constructor ()
      ensures Valid() && View() == FRESH
      ensures fresh(saturationTimes) && fresh(saturationSigns)
    {
      overspeedActive, overspeedSinceSec, overspeedStartAbsRpm, againstGrowthRpm := false, 0.0, 0.0, 0.0;
      saturationTimes := new real[OSCILLATION_SWITCHES](_ => 0.0);
      saturationSigns := new int[OSCILLATION_SWITCHES](_ => 0);
      saturationCount := 0;
    }

    method UpdateGuard(s: Sample) returns (trip: GuardTrip)
      requires Valid()
      modifies this, saturationTimes, saturationSigns
      ensures Valid()
      ensures (View(), trip) == Update(old(View()), s)
    {
      hide Braking, SpeedUp, Exceeds, NoteTurn;
      ghost var before := View();
      var newAbs := Abs(s.measuredNewRpm) as real;
      if Braking(s) {
        againstGrowthRpm := GreatestReal(0.0, againstGrowthRpm + SpeedUp(s));
        assert Records() == before.switches;
        if againstGrowthRpm >= AGAINST_GROWTH_RPM {
          return AccelAgainstCurrent;
        }
      } else {
        againstGrowthRpm := 0.0;
      }
      if Exceeds(s) {
        if !overspeedActive {
          overspeedActive := true;
          overspeedSinceSec := s.nowSec;
          overspeedStartAbsRpm := newAbs;
        } else if s.nowSec - overspeedSinceSec >= s.params.overspeedTimeSec
                  && newAbs >= overspeedStartAbsRpm - OVERSPEED_SLOWDOWN_TOL_RPM {
          assert Records() == before.switches;
          return Overspeed;
        }
      } else {
        overspeedActive := false;
      }
      assert Records() == before.switches;
      trip := CheckOscillation(s);
    }

    method CheckOscillation(s: Sample) returns (trip: GuardTrip)
      requires Valid()
      modifies this`saturationCount, saturationTimes, saturationSigns
      ensures Valid()
      ensures (Records(), trip) == NoteTurn(old(Records()), s)
    {
      hide Saturated, DropExpired;
      ForgetOld(s.nowSec);
      if Saturated(s) {
        var sign := SignOf(s.commandedAmp);
        if saturationCount == 0 || saturationSigns[saturationCount - 1] != sign {
          ghost var recent := Records();
          if saturationCount == OSCILLATION_SWITCHES {
            ShiftDown(1);
          }
          saturationTimes[saturationCount] := s.nowSec;
          saturationSigns[saturationCount] := sign;
          saturationCount := saturationCount + 1;
          assert Records() == Record(recent, s);
          if saturationCount >= OSCILLATION_SWITCHES {
            return Oscillation;
          }
        }
      }
      trip := NoTrip;
    }

    /** Drops the records older than the window; the rest move down in place. */
    method ForgetOld(now: real)
      requires Valid()
      modifies this`saturationCount, saturationTimes, saturationSigns
      ensures Valid()
      ensures Records() == DropExpired(old(Records()), now)
    {
      ghost var all := Records();
      var keepFrom := 0;
      while keepFrom < saturationCount && now - saturationTimes[keepFrom] > OSCILLATION_WINDOW_SEC
        invariant 0 <= keepFrom <= saturationCount
        invariant DropExpired(all[keepFrom..], now) == DropExpired(all, now)
      {
        keepFrom := keepFrom + 1;
      }
      if keepFrom > 0 {
        ShiftDown(keepFrom);
      }
    }

    /** Removes the oldest `k` records by moving the others towards the front, one by one. */
    method ShiftDown(k: int)
      requires Valid() && 0 < k <= saturationCount
      modifies this`saturationCount, saturationTimes, saturationSigns
      ensures Valid()
      ensures Records() == old(Records())[k..]
    {
      ghost var times, signs := saturationTimes[..], saturationSigns[..];
      var n := saturationCount;
      for i := k to n
        modifies saturationTimes, saturationSigns
        invariant forall j :: 0 <= j < i - k ==>
                                saturationTimes[j] == times[j + k] && saturationSigns[j] == signs[j + k]
        invariant forall j :: i <= j < n ==> saturationTimes[j] == times[j] && saturationSigns[j] == signs[j]
      {
        saturationTimes[i - k] := saturationTimes[i];
        saturationSigns[i - k] := saturationSigns[i];
      }
      saturationCount := n - k;
      assert Records() == old(Records())[k..];
    }
  }

  // ----- what a trip means: the history since the last reset ----------------------------------

  predicate InTimeOrder(h: seq<Sample>) {
    forall i, j :: 0 <= i < j < |h| ==> h[i].nowSec <= h[j].nowSec
  }

  /** Every sample from `i` on was braking. */
  ghost predicate BrakingSince(h: seq<Sample>, i: nat)
    requires i <= |h|
  {
    forall k :: i <= k < |h| ==> Braking(h[k])
  }

  /** Net gain in speed from sample `i` on. */
  function NetSpeedUp(h: seq<Sample>, i: nat): real
    decreases |h|
  {
    if |h| <= i then 0.0 else NetSpeedUp(h[..|h| - 1], i) + SpeedUp(h[|h| - 1])
  }

  /** Every sample from `j` on exceeded the target's margin, and the one before `j` did not. */
  ghost predicate EpisodeFrom(h: seq<Sample>, j: nat)
    requires j <= |h|
  {
    && (forall k :: j <= k < |h| ==> Exceeds(h[k]))
    && (j > 0 ==> !Exceeds(h[j - 1]))
  }

  /** The unbounded log of saturations that point another way, kept by looking at the previous entry only. */
  function Log(h: seq<Sample>): seq<Switch>
    decreases |h|
  {
    if h == [] then [] else
      var log, s := Log(h[..|h| - 1]), h[|h| - 1];
      var news := && Saturated(s)
                  && (|| log == []
                      || Expired(log[|log| - 1], s.nowSec)
                      || log[|log| - 1].sign != SignOf(s.commandedAmp));
      if news then log + [Switch(s.nowSec, SignOf(s.commandedAmp))] else log
  }

  /** The entries of a log that lie in the window ending now. */
  function Window(log: seq<Switch>, now: real): seq<Switch>
    decreases log
  {
    if log == [] then [] else
      (if Expired(log[0], now) then [] else [log[0]]) + Window(log[1..], now)
  }

  /** What the guard's fields mean after a history that has not tripped it. */
  ghost predicate Tracks(g: Guard, h: seq<Sample>) {
    && (exists i: nat :: i <= |h| && BrakingSince(h, i) && g.againstGrowthRpm == NetSpeedUp(h, i))
    && (forall i: nat :: i <= |h| && BrakingSince(h, i) ==> NetSpeedUp(h, i) <= g.againstGrowthRpm)
    && (g.overspeedActive <==> h != [] && Exceeds(h[|h| - 1]))
    && (g.overspeedActive ==> exists j: nat :: OpenEpisode(g, h, j))
    && (if h == [] then g.switches == [] else g.switches == Window(Log(h), h[|h| - 1].nowSec))
    && |g.switches| < OSCILLATION_SWITCHES
  }

  ghost predicate OpenEpisode(g: Guard, h: seq<Sample>, j: nat) {
    && j < |h| && EpisodeFrom(h, j)
    && g.overspeedSinceSec == h[j].nowSec
    && g.overspeedStartAbsRpm == Abs(h[j].measuredNewRpm) as real
  }

  // The three reasons, told from the history alone.

  /** The wheel gained 30 rpm net, under current that was braking it all the while. */
  ghost predicate SpedUpAgainstCurrent(h: seq<Sample>) {
    exists i: nat :: i < |h| && BrakingSince(h, i) && NetSpeedUp(h, i) >= AGAINST_GROWTH_RPM
  }

  /** The wheel has been too fast for the whole time allowed and has not slowed down. */
  ghost predicate StayedTooFast(h: seq<Sample>) {
    exists j: nat :: j < |h| - 1 && EpisodeFrom(h, j) && TooFastFrom(h, j)
  }

  predicate TooFastFrom(h: seq<Sample>, j: nat)
    requires j < |h| - 1
  {
    && h[|h| - 1].nowSec - h[j].nowSec >= h[|h| - 1].params.overspeedTimeSec
    && Abs(h[|h| - 1].measuredNewRpm) as real >= Abs(h[j].measuredNewRpm) as real - OVERSPEED_SLOWDOWN_TOL_RPM
  }

  /**
   * In the last half second lie four records of a saturated command. By `OscillationIsFourSwings`
   * these are four saturations in alternating directions; by `FiveSwingsOscillate` five of them are
   * always enough.
   */
  predicate Oscillated(h: seq<Sample>) {
    h != [] && |Window(Log(h), h[|h| - 1].nowSec)| >= OSCILLATION_SWITCHES
  }

  lemma FreshTracksNothing()
    ensures Tracks(FRESH, [])
  {
    assert BrakingSince([], 0) && NetSpeedUp([], 0) == 0.0;
  }

  /**
   * One evaluation decides exactly as the history does, in the order of the three tests, and when it
   * does not trip the fields go on meaning the same.
   */
  lemma TripIsDecidedByHistory(g: Guard, h: seq<Sample>, s: Sample)
    requires Tracks(g, h) && InTimeOrder(h + [s])
    ensures var h' := h + [s];
            var (g', trip) := Update(g, s);
            && (trip == AccelAgainstCurrent <==> SpedUpAgainstCurrent(h'))
            && (trip == Overspeed <==> !SpedUpAgainstCurrent(h') && StayedTooFast(h'))
            && (trip == Oscillation <==> !SpedUpAgainstCurrent(h') && !StayedTooFast(h') && Oscillated(h'))
            && (trip == NoTrip ==> Tracks(g', h'))
            && trip != ModeMismatch
  {
    hide Braking, Exceeds, Turned, Record, DropExpired, Log, Window, NetSpeedUp, SpeedUp, InTimeOrder;
    hide BrakingSince, SpedUpAgainstCurrent, StayedTooFast;
    AgainstPart(g, h, s);
    OverspeedPart(g, h, s);
    OscillationPart(g, h, s);
    var h' := h + [s];
    assert h'[|h'| - 1] == s;
    var (g', trip) := Update(g, s);
    if trip == NoTrip && Exceeds(s) {
      if g.overspeedActive {
        var j: nat :| OpenEpisode(g, h', j);
        assert OpenEpisode(g', h', j);
      } else {
        assert OpenEpisode(g', h', |h|);
      }
    }
  }

  function Growth(g: Guard, s: Sample): real {
    if Braking(s) then GreatestReal(0.0, g.againstGrowthRpm + SpeedUp(s)) else 0.0
  }

  lemma NetSpeedUpSnoc(h: seq<Sample>, s: Sample, i: nat)
    requires i <= |h|
    ensures NetSpeedUp(h + [s], i) == NetSpeedUp(h, i) + SpeedUp(s)
  {
    assert (h + [s])[..|h|] == h;
  }

  /** The running maximum over all starting points, as in the maximum-subarray recurrence. */
  lemma AgainstPart(g: Guard, h: seq<Sample>, s: Sample)
    requires Tracks(g, h)
    ensures var h' := h + [s];
            && (exists i: nat :: i <= |h'| && BrakingSince(h', i) && Growth(g, s) == NetSpeedUp(h', i))
            && (forall i: nat :: i <= |h'| && BrakingSince(h', i) ==> NetSpeedUp(h', i) <= Growth(g, s))
            && (Braking(s) && Growth(g, s) >= AGAINST_GROWTH_RPM <==> SpedUpAgainstCurrent(h'))
  {
    hide Braking, SpeedUp;
    var h' := h + [s];
    assert BrakingSince(h', |h'|) && NetSpeedUp(h', |h'|) == 0.0;
    forall i: nat | i <= |h|
      ensures BrakingSince(h', i) <==> BrakingSince(h, i) && Braking(s)
      ensures NetSpeedUp(h', i) == NetSpeedUp(h, i) + SpeedUp(s)
    {
      assert forall k :: 0 <= k < |h| ==> h'[k] == h[k];
      assert h'[|h|] == s;
      NetSpeedUpSnoc(h, s, i);
    }
    var best: nat :| best <= |h| && BrakingSince(h, best) && g.againstGrowthRpm == NetSpeedUp(h, best);
    if Braking(s) {
      assert BrakingSince(h', best) && NetSpeedUp(h', best) == g.againstGrowthRpm + SpeedUp(s);
    }
  }

  lemma OverspeedPart(g: Guard, h: seq<Sample>, s: Sample)
    requires Tracks(g, h)
    ensures var h' := h + [s];
            var trips := && Exceeds(s) && g.overspeedActive
                         && s.nowSec - g.overspeedSinceSec >= s.params.overspeedTimeSec
                         && Abs(s.measuredNewRpm) as real >= g.overspeedStartAbsRpm - OVERSPEED_SLOWDOWN_TOL_RPM;
            && (trips <==> StayedTooFast(h'))
            && (Exceeds(s) && g.overspeedActive ==> exists j: nat :: OpenEpisode(g, h', j))
            && (Exceeds(s) && !g.overspeedActive ==> EpisodeFrom(h', |h|))
  {
    hide Exceeds;
    var h' := h + [s];
    assert h'[|h|] == s && forall k :: 0 <= k < |h| ==> h'[k] == h[k];
    if g.overspeedActive {
      var j: nat :| OpenEpisode(g, h, j);
      if Exceeds(s) {
        assert OpenEpisode(g, h', j);
      }
      forall i: nat | i < |h| && EpisodeFrom(h', i)
        ensures i == j
      {
        assert EpisodeFrom(h, i);
        OneEpisode(h, i, j);
      }
    } else if h != [] {
      assert !Exceeds(h'[|h| - 1]);
    }
  }

  lemma OneEpisode(h: seq<Sample>, i: nat, j: nat)
    requires i < |h| && EpisodeFrom(h, i)
    requires j < |h| && EpisodeFrom(h, j)
    ensures i == j
  {
  }

  predicate Ordered(log: seq<Switch>, now: real) {
    && (forall i, j :: 0 <= i < j < |log| ==> log[i].time <= log[j].time)
    && (forall i :: 0 <= i < |log| ==> log[i].time <= now)
  }

  lemma {:induction false} LogIsOrdered(h: seq<Sample>, now: real)
    requires InTimeOrder(h) && (h != [] ==> h[|h| - 1].nowSec <= now)
    ensures Ordered(Log(h), now)
    decreases |h|
  {
    hide Saturated, Expired;
    if h != [] {
      var last := h[|h| - 1].nowSec;
      var rest := h[..|h| - 1];
      assert rest != [] ==> rest[|rest| - 1].nowSec <= last;
      LogIsOrdered(rest, last);
    }
  }

  /** In an ordered log the window is what is left after dropping the expired front. */
  lemma {:induction false} WindowIsSuffix(log: seq<Switch>, now: real)
    requires Ordered(log, now)
    ensures Window(log, now) == DropExpired(log, now)
    decreases log
  {
    if log != [] {
      assert Ordered(log[1..], now);
      WindowIsSuffix(log[1..], now);
      if !Expired(log[0], now) {
        if log[1..] != [] {
          assert log[0].time <= log[1].time;
          assert !Expired(log[1..][0], now);
        }
        assert log == [log[0]] + log[1..];
      }
    }
  }

  /** Looking again later only drops more. */
  lemma {:induction false} DropTwice(log: seq<Switch>, now: real, later: real)
    requires now <= later
    ensures DropExpired(DropExpired(log, now), later) == DropExpired(log, later)
    decreases log
  {
    if log != [] && Expired(log[0], now) {
      DropTwice(log[1..], now, later);
    }
  }

  lemma {:induction false} DropExpiredLast(log: seq<Switch>, now: real)
    requires log != []
    ensures var kept := DropExpired(log, now);
            && |kept| <= |log|
            && (kept != [] ==> kept[|kept| - 1] == log[|log| - 1])
            && (Ordered(log, now) ==> (kept == [] <==> Expired(log[|log| - 1], now)))
    decreases log
  {
    if Expired(log[0], now) && |log| > 1 {
      assert Ordered(log, now) ==> Ordered(log[1..], now);
      DropExpiredLast(log[1..], now);
    } else if Ordered(log, now) && |log| > 1 {
      assert log[0].time <= log[|log| - 1].time;
    }
  }

  lemma {:induction false} DropExpiredSnoc(log: seq<Switch>, e: Switch, now: real)
    requires e.time == now
    ensures DropExpired(log + [e], now) == DropExpired(log, now) + [e]
    decreases log
  {
    if log == [] {
      assert log + [e] == [e];
    } else {
      assert (log + [e])[1..] == log[1..] + [e];
      DropExpiredSnoc(log[1..], e, now);
    }
  }

  lemma OscillationPart(g: Guard, h: seq<Sample>, s: Sample)
    requires Tracks(g, h) && InTimeOrder(h + [s])
    ensures var h' := h + [s];
            var recent := DropExpired(g.switches, s.nowSec);
            var records := if Turned(recent, s) then Record(recent, s) else recent;
            && records == Window(Log(h'), s.nowSec)
            && (Turned(recent, s) && |records| >= OSCILLATION_SWITCHES <==> Oscillated(h'))
            && (!Oscillated(h') ==> |records| < OSCILLATION_SWITCHES)
  {
    hide Saturated, Expired;
    var h', log := h + [s], Log(h);
    assert h'[..|h|] == h && h'[|h|] == s;
    forall i, j | 0 <= i < j < |h| ensures h[i].nowSec <= h[j].nowSec {
      assert h'[i].nowSec <= h'[j].nowSec;
    }
    var last := if h == [] then s.nowSec else h[|h| - 1].nowSec;
    assert last <= s.nowSec by { if h != [] { assert h'[|h| - 1].nowSec <= h'[|h|].nowSec; } }
    LogIsOrdered(h, last);
    LogIsOrdered(h', s.nowSec);
    WindowIsSuffix(log, last);
    WindowIsSuffix(Log(h'), s.nowSec);
    DropTwice(log, last, s.nowSec);
    var recent := DropExpired(g.switches, s.nowSec);
    assert recent == DropExpired(log, s.nowSec);
    DropShortens(g.switches, s.nowSec);
    if log != [] {
      OrderedLater(log, last, s.nowSec);
      DropExpiredLast(log, s.nowSec);
    }
    DropExpiredSnoc(log, Switch(s.nowSec, SignOf(s.commandedAmp)), s.nowSec);
  }

  /** Adjoining entries of the log point opposite ways, unless the window lies between them. */
  lemma {:induction false} LogAlternates(h: seq<Sample>, i: nat)
    requires i < |Log(h)| - 1
    ensures Log(h)[i].sign != Log(h)[i + 1].sign || Expired(Log(h)[i], Log(h)[i + 1].time)
    decreases |h|
  {
    hide Saturated;
    var rest := h[..|h| - 1];
    if i < |Log(rest)| - 1 {
      LogAlternates(rest, i);
    }
  }

  /** This entry of the log was made at sample `k`, which is saturated. */
  predicate MadeAt(e: Switch, h: seq<Sample>, k: nat) {
    k < |h| && Saturated(h[k]) && e == Switch(h[k].nowSec, SignOf(h[k].commandedAmp))
  }

  /** A sample adds the entry it makes, if it adds any. */
  lemma LastEntry(h: seq<Sample>)
    requires h != []
    ensures var rest := Log(h[..|h| - 1]);
            Log(h) == rest || (|Log(h)| == |rest| + 1 && rest <= Log(h) && MadeAt(Log(h)[|rest|], h, |h| - 1))
  {
    hide Saturated, Expired, SignOf;
  }

  /** The samples that made the entries of the log, in their order. */
  lemma {:induction false} LogOrigins(h: seq<Sample>) returns (at: seq<nat>)
    ensures |at| == |Log(h)|
    ensures forall i, j :: 0 <= i < j < |at| ==> at[i] < at[j]
    ensures forall i :: 0 <= i < |at| ==> MadeAt(Log(h)[i], h, at[i])
    decreases |h|
  {
    hide Saturated, SignOf;
    if h == [] {
      at := [];
    } else {
      var rest := h[..|h| - 1];
      at := LogOrigins(rest);
      LastEntry(h);
      hide Log;
      if |Log(h)| > |Log(rest)| {
        at := at + [|h| - 1];
      }
    }
  }

  lemma {:induction false} DropIsSuffix(log: seq<Switch>, now: real) returns (n: nat)
    ensures n <= |log| && DropExpired(log, now) == log[n..]
    decreases log
  {
    if log != [] && Expired(log[0], now) {
      n := DropIsSuffix(log[1..], now);
      assert log[1..][n..] == log[n + 1..];
      n := n + 1;
    } else {
      n := 0;
    }
  }

  /** In an ordered log nothing that is left has expired. */
  lemma {:induction false} NoneExpired(log: seq<Switch>, now: real, i: nat)
    requires Ordered(log, now) && i < |DropExpired(log, now)|
    ensures !Expired(DropExpired(log, now)[i], now)
    decreases log
  {
    if Expired(log[0], now) {
      assert Ordered(log[1..], now);
      NoneExpired(log[1..], now, i);
    } else {
      assert log[0].time <= log[i].time;
    }
  }

  /** The records of the last half second. */
  function Recent(h: seq<Sample>): seq<Switch>
    requires h != []
  {
    Window(Log(h), h[|h| - 1].nowSec)
  }

  /** A saturated command always points somewhere. */
  lemma SaturationHasSign(s: Sample)
    requires Saturated(s)
    ensures SignOf(s.commandedAmp) == 1 || SignOf(s.commandedAmp) == -1
  {
  }

  /** The records the guard counts have alternating signs, none of them 0. */
  lemma RecordsAlternate(h: seq<Sample>)
    requires h != [] && InTimeOrder(h)
    ensures forall i :: 0 <= i < |Recent(h)| - 1 ==> Recent(h)[i].sign != Recent(h)[i + 1].sign
    ensures forall i :: 0 <= i < |Recent(h)| ==> Recent(h)[i].sign == 1 || Recent(h)[i].sign == -1
  {
    hide Saturated, Log, Window, DropExpired;
    var log, now := Log(h), h[|h| - 1].nowSec;
    LogIsOrdered(h, now);
    WindowIsSuffix(log, now);
    var n := DropIsSuffix(log, now);
    forall i | 0 <= i < |Recent(h)| - 1 ensures Recent(h)[i].sign != Recent(h)[i + 1].sign {
      LogAlternates(h, n + i);
      NoneExpired(log, now, i);
      assert Recent(h)[i] == log[n + i] && Recent(h)[i + 1] == log[n + i + 1];
    }
    var at := LogOrigins(h);
    forall i | 0 <= i < |Recent(h)| ensures Recent(h)[i].sign == 1 || Recent(h)[i].sign == -1 {
      assert Recent(h)[i] == log[n + i];
      SaturationHasSign(h[at[n + i]]);
    }
  }

  /** The command saturated at these samples, each time the other way than the time before. */
  predicate Swings(h: seq<Sample>, at: seq<nat>) {
    && (forall i :: 0 <= i < |at| ==> at[i] < |h| && Saturated(h[at[i]]))
    && (forall i, j :: 0 <= i < j < |at| ==> at[i] < at[j])
    && (forall i :: 0 <= i < |at| - 1 ==> SignOf(h[at[i]].commandedAmp) == -SignOf(h[at[i + 1]].commandedAmp))
  }

  /** All within half a second of the last sample. */
  predicate WithinWindow(h: seq<Sample>, at: seq<nat>) {
    forall i :: 0 <= i < |at| ==> at[i] < |h| && h[|h| - 1].nowSec - h[at[i]].nowSec <= OSCILLATION_WINDOW_SEC
  }

  /** What an oscillation is: four saturations in alternating directions within the last half second. */
  lemma OscillationIsFourSwings(h: seq<Sample>) returns (at: seq<nat>)
    requires InTimeOrder(h) && Oscillated(h)
    ensures |at| == OSCILLATION_SWITCHES && Swings(h, at) && WithinWindow(h, at)
  {
    hide Saturated, Log, Window, DropExpired;
    var log, now := Log(h), h[|h| - 1].nowSec;
    LogIsOrdered(h, now);
    WindowIsSuffix(log, now);
    RecordsAlternate(h);
    var n := DropIsSuffix(log, now);
    var all := LogOrigins(h);
    at := all[n..n + OSCILLATION_SWITCHES];
    forall i | 0 <= i < OSCILLATION_SWITCHES
      ensures at[i] < |h| && Saturated(h[at[i]]) && !Expired(log[n + i], now)
      ensures Recent(h)[i] == Switch(h[at[i]].nowSec, SignOf(h[at[i]].commandedAmp))
    {
      NoneExpired(log, now, i);
      assert Recent(h)[i] == log[n + i] && at[i] == all[n + i];
    }
    forall i | 0 <= i < OSCILLATION_SWITCHES - 1
      ensures SignOf(h[at[i]].commandedAmp) == -SignOf(h[at[i + 1]].commandedAmp)
    {
      assert Recent(h)[i].sign != Recent(h)[i + 1].sign;
    }
  }

  /** A shorter history has a shorter log, and what comes later is later. */
  lemma {:induction false} LogGrows(h: seq<Sample>, n: nat)
    requires 0 < n <= |h| && InTimeOrder(h)
    ensures |Log(h[..n])| <= |Log(h)| && Log(h[..n]) == Log(h)[..|Log(h[..n])|]
    ensures forall j :: |Log(h[..n])| <= j < |Log(h)| ==> Log(h)[j].time >= h[n - 1].nowSec
    decreases |h|
  {
    hide Saturated, Expired;
    if n < |h| {
      var rest := h[..|h| - 1];
      assert rest[..n] == h[..n];
      assert forall i, j :: 0 <= i < j < |rest| ==> h[i].nowSec <= h[j].nowSec;
      LogGrows(rest, n);
    } else {
      assert h[..n] == h;
    }
  }

  /** After a saturated sample the last entry points its way. */
  lemma SaturatedIsLogged(h: seq<Sample>)
    requires h != [] && Saturated(h[|h| - 1])
    ensures Log(h) != [] && Log(h)[|Log(h)| - 1].sign == SignOf(h[|h| - 1].commandedAmp)
  {
  }

  /** Each swing adds an entry. */
  lemma SwingIsLogged(h: seq<Sample>, i: nat, j: nat)
    requires i < j < |h| && InTimeOrder(h) && Saturated(h[i]) && Saturated(h[j])
    requires SignOf(h[i].commandedAmp) == -SignOf(h[j].commandedAmp)
    ensures |Log(h[..i + 1])| < |Log(h[..j + 1])|
  {
    hide Saturated, Log;
    var first, second := h[..i + 1], h[..j + 1];
    assert second[..i + 1] == first;
    assert forall a, b :: 0 <= a < b < |second| ==> h[a].nowSec <= h[b].nowSec;
    LogGrows(second, i + 1);
    SaturatedIsLogged(first);
    SaturatedIsLogged(second);
    SaturationHasSign(h[i]);
  }

  lemma {:induction false} NotDropped(log: seq<Switch>, now: real, j: nat)
    requires j < |log| && !Expired(log[j], now)
    ensures |DropExpired(log, now)| >= |log| - j
    decreases log
  {
    if Expired(log[0], now) {
      NotDropped(log[1..], now, j - 1);
    }
  }

  /** Five such saturations are always reported. */
  lemma FiveSwingsOscillate(h: seq<Sample>, at: seq<nat>)
    requires InTimeOrder(h) && |at| == OSCILLATION_SWITCHES + 1 && Swings(h, at) && WithinWindow(h, at)
    ensures Oscillated(h)
  {
    hide Saturated, Log, Window, DropExpired;
    var log, now := Log(h), h[|h| - 1].nowSec;
    SwingIsLogged(h, at[0], at[1]);
    SwingIsLogged(h, at[1], at[2]);
    SwingIsLogged(h, at[2], at[3]);
    SwingIsLogged(h, at[3], at[4]);
    LogGrows(h, at[4] + 1);
    LogGrows(h, at[0] + 1);
    var first := |Log(h[..at[0] + 1])|;
    assert log[first].time >= h[at[0]].nowSec;
    NotDropped(log, now, first);
    LogIsOrdered(h, now);
    WindowIsSuffix(log, now);
  }

  lemma OrderedLater(log: seq<Switch>, now: real, later: real)
    requires Ordered(log, now) && now <= later
    ensures Ordered(log, later)
  {
  }

  lemma {:induction false} DropShortens(sw: seq<Switch>, now: real)
    ensures |DropExpired(sw, now)| <= |sw|
    decreases sw
  {
    if sw != [] {
      DropShortens(sw[1..], now);
    }
  }

  // ----- whole runs -----------------------------------------------------------------------------

  /** The guard after a history, or the reason it tripped on the way. */
  datatype Verdict = Watching(guard: Guard) | Tripped(at: nat, trip: GuardTrip)

  function Watch(h: seq<Sample>): Verdict
    decreases |h|
  {
    if h == [] then Watching(FRESH) else
      match Watch(h[..|h| - 1])
      case Tripped(at, trip) => Tripped(at, trip)
      case Watching(g) =>
        var (g', trip) := Update(g, h[|h| - 1]);
        if trip == NoTrip then Watching(g') else Tripped(|h| - 1, trip)
  }

  /**
   * From a fresh guard, over any history in time order: as long as it watches, none of the three
   * reasons holds of any prefix, and the record arrays are never full; when it has tripped, the
   * prefix it tripped at is the first for which one of the reasons holds, and the reason is right.
   */
  lemma {:induction false} WatchFindsFirstReason(h: seq<Sample>)
    requires InTimeOrder(h)
    ensures match Watch(h)
            case Watching(g) =>
              && Tracks(g, h)
              && |g.switches| < OSCILLATION_SWITCHES
              && forall n :: 0 < n <= |h| ==> NoReason(h[..n])
            case Tripped(at, trip) =>
              && at < |h|
              && (forall n :: 0 < n <= at ==> NoReason(h[..n]))
              && Reason(h[..at + 1]) == trip != NoTrip
    decreases |h|
  {
    hide Reason, Tracks, Update, InTimeOrder;
    if h == [] {
      FreshTracksNothing();
    } else {
      var rest, s := h[..|h| - 1], h[|h| - 1];
      assert h == rest + [s] && h[..|h|] == h;
      PrefixInTimeOrder(rest, s);
      WatchFindsFirstReason(rest);
      assert forall n :: 0 <= n <= |rest| ==> rest[..n] == h[..n];
      match Watch(rest) {
        case Tripped(at, trip) =>
          assert rest[..at + 1] == h[..at + 1];
        case Watching(g) =>
          OneMoreSample(g, rest, s);
          forall n | 0 < n <= |rest| ensures NoReason(h[..n]) {
            assert NoReason(rest[..n]);
          }
      }
    }
  }

  lemma PrefixInTimeOrder(h: seq<Sample>, s: Sample)
    requires InTimeOrder(h + [s])
    ensures InTimeOrder(h)
  {
    forall i, j | 0 <= i < j < |h| ensures h[i].nowSec <= h[j].nowSec {
      assert (h + [s])[i].nowSec <= (h + [s])[j].nowSec;
    }
  }

  lemma OneMoreSample(g: Guard, h: seq<Sample>, s: Sample)
    requires Tracks(g, h) && InTimeOrder(h + [s])
    ensures var (g', trip) := Update(g, s);
            && Reason(h + [s]) == trip
            && (trip == NoTrip ==> Tracks(g', h + [s]) && |g'.switches| < OSCILLATION_SWITCHES)
  {
    hide Update;
    TripIsDecidedByHistory(g, h, s);
  }

  ghost function Reason(h: seq<Sample>): GuardTrip {
    if SpedUpAgainstCurrent(h) then AccelAgainstCurrent
    else if StayedTooFast(h) then Overspeed
    else if Oscillated(h) then Oscillation
    else NoTrip
  }

  ghost predicate NoReason(h: seq<Sample>) {
    Reason(h) == NoTrip
  }

  /** When each measurement is the next one's predecessor, the net gain is the end minus the start. */
  lemma {:induction false} ChainedGainTelescopes(h: seq<Sample>, i: nat)
    requires i < |h|
    requires forall k :: 0 < k < |h| ==> h[k].measuredPrevRpm == h[k - 1].measuredNewRpm
    ensures NetSpeedUp(h, i) == Abs(h[|h| - 1].measuredNewRpm) as real - Abs(h[i].measuredPrevRpm) as real
    decreases |h|
  {
    var rest := h[..|h| - 1];
    if i < |rest| {
      ChainedGainTelescopes(rest, i);
    } else {
      assert NetSpeedUp(rest, i) == 0.0;
    }
  }
}
