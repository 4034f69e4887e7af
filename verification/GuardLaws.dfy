/** What one sample means to the runaway guard, in speeds and currents, and that both ways of turning are alike. */
module GuardLaws {
  import opened Common
  import opened RunawayGuard

  /** A current of at least 0.05 A, or of half the limit where that is less. */
  predicate Noticeable(s: Sample, amp: real) {
    s.maxCurrentAmp > 0.0 && (amp >= 0.05 || amp >= s.maxCurrentAmp / 2.0)
  }

  /** The wheel turned one way at 5 rpm or more, turned on that way, and a noticeable current flowed the other way. */
  lemma BrakingMeans(s: Sample)
    ensures Braking(s) <==>
              || (s.measuredPrevRpm >= 5 && s.measuredNewRpm > 0 && Noticeable(s, -s.appliedAmp))
              || (s.measuredPrevRpm <= -5 && s.measuredNewRpm < 0 && Noticeable(s, s.appliedAmp))
    ensures Braking(s) ==> SpeedUp(s) == (if s.measuredNewRpm > 0 then s.measuredNewRpm - s.measuredPrevRpm
                                          else s.measuredPrevRpm - s.measuredNewRpm) as real
  {
  }

  /** Faster than the target by more than the margin, whichever way it turns. */
  lemma ExceedsMeans(s: Sample)
    ensures Exceeds(s) <==>
              var limit := (if s.rpmRef >= 0 then s.rpmRef else -s.rpmRef) as real + s.params.overspeedMarginRpm;
              s.measuredNewRpm as real > limit || -(s.measuredNewRpm as real) > limit
  {
  }

  /** The command is at 95 percent of the limit or more, one way or the other. */
  lemma SaturatedMeans(s: Sample)
    ensures Saturated(s) <==>
              && s.maxCurrentAmp > 0.0
              && (s.commandedAmp >= 0.95 * s.maxCurrentAmp || s.commandedAmp <= -0.95 * s.maxCurrentAmp)
    ensures Saturated(s) ==> SignOf(s.commandedAmp) == if s.commandedAmp > 0.0 then 1 else -1
  {
    var part := 0.95 * s.maxCurrentAmp;
    assert -0.95 * s.maxCurrentAmp == -part;
  }

  /**
   * The reasons in numbers: 30 rpm gained net while braking all the while; too fast for the time allowed
   * without slowing down by more than 3 rpm; four swings of the command within half a second.
   */
  lemma ReasonsInNumbers(h: seq<Sample>)
    ensures SpedUpAgainstCurrent(h) <==> exists i: nat :: i < |h| && BrakingSince(h, i) && NetSpeedUp(h, i) >= 30.0
    ensures forall j: nat :: j < |h| - 1 ==>
              (TooFastFrom(h, j) <==>
                 && h[|h| - 1].nowSec - h[j].nowSec >= h[|h| - 1].params.overspeedTimeSec
                 && Abs(h[|h| - 1].measuredNewRpm) as real >= Abs(h[j].measuredNewRpm) as real - 3.0)
    ensures forall at: seq<nat> :: WithinWindow(h, at) <==>
              forall i :: 0 <= i < |at| ==> at[i] < |h| && h[|h| - 1].nowSec - h[at[i]].nowSec <= 0.5
    ensures OSCILLATION_SWITCHES == 4
  {
  }

  // ----- both ways alike ---------------------------------------------------------------------------

  function MirroredSample(s: Sample): Sample {
    s.(rpmRef := -s.rpmRef, measuredPrevRpm := -s.measuredPrevRpm, measuredNewRpm := -s.measuredNewRpm,
       appliedAmp := -s.appliedAmp, commandedAmp := -s.commandedAmp)
  }

  function MirroredSwitches(sw: seq<Switch>): (m: seq<Switch>)
    ensures |m| == |sw|
    ensures forall i :: 0 <= i < |sw| ==> m[i] == Switch(sw[i].time, -sw[i].sign)
  {
    seq(|sw|, i requires 0 <= i < |sw| => Switch(sw[i].time, -sw[i].sign))
  }

  function Mirrored(g: Guard): Guard {
    g.(switches := MirroredSwitches(g.switches))
  }

  lemma SampleIsSymmetric(s: Sample)
    ensures var m := MirroredSample(s);
            && (Braking(m) <==> Braking(s)) && SpeedUp(m) == SpeedUp(s) && (Exceeds(m) <==> Exceeds(s))
            && (Saturated(m) <==> Saturated(s)) && SignOf(m.commandedAmp) == -SignOf(s.commandedAmp)
            && Abs(m.measuredNewRpm) == Abs(s.measuredNewRpm)
  {
    BrakingMeans(s);
    BrakingMeans(MirroredSample(s));
    hide Braking;
  }

  lemma {:induction false} DropIsSymmetric(sw: seq<Switch>, now: real)
    ensures DropExpired(MirroredSwitches(sw), now) == MirroredSwitches(DropExpired(sw, now))
    decreases sw
  {
    if sw != [] && Expired(sw[0], now) {
      assert MirroredSwitches(sw)[1..] == MirroredSwitches(sw[1..]);
      DropIsSymmetric(sw[1..], now);
    }
  }

  lemma TurnIsSymmetric(sw: seq<Switch>, s: Sample)
    ensures var (records, trip) := NoteTurn(sw, s);
            NoteTurn(MirroredSwitches(sw), MirroredSample(s)) == (MirroredSwitches(records), trip)
  {
    SampleIsSymmetric(s);
    DropIsSymmetric(sw, s.nowSec);
    hide DropExpired, Saturated;
    var recent := DropExpired(sw, s.nowSec);
    if Turned(recent, s) {
      assert Record(MirroredSwitches(recent), MirroredSample(s)) == MirroredSwitches(Record(recent, s));
    }
  }

  lemma UpdateIsSymmetric(g: Guard, s: Sample)
    ensures var (g', trip) := Update(g, s); Update(Mirrored(g), MirroredSample(s)) == (Mirrored(g'), trip)
  {
    SampleIsSymmetric(s);
    TurnIsSymmetric(g.switches, s);
    hide Braking, SpeedUp, Exceeds, NoteTurn;
  }

  function MirroredHistory(h: seq<Sample>): (m: seq<Sample>)
    ensures |m| == |h|
    ensures forall i :: 0 <= i < |h| ==> m[i] == MirroredSample(h[i])
  {
    seq(|h|, i requires 0 <= i < |h| => MirroredSample(h[i]))
  }

  /** The guard after a history, and its last word. */
  function Judge(h: seq<Sample>): (Guard, GuardTrip)
    decreases |h|
  {
    if h == [] then (FRESH, NoTrip) else Update(Judge(h[..|h| - 1]).0, h[|h| - 1])
  }

  /** A history and its mirror image are judged alike, to the last sample and the last record. */
  lemma {:induction false} GuardIsSymmetric(h: seq<Sample>)
    ensures Judge(MirroredHistory(h)) == (Mirrored(Judge(h).0), Judge(h).1)
    decreases |h|
  {
    hide Update;
    if h == [] {
      assert MirroredSwitches([]) == [];
    } else {
      var rest := h[..|h| - 1];
      assert MirroredHistory(h)[..|h| - 1] == MirroredHistory(rest);
      GuardIsSymmetric(rest);
      UpdateIsSymmetric(Judge(rest).0, h[|h| - 1]);
    }
  }
}
