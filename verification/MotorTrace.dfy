/**
 * How the trace of one motor is read, what each event must be permitted by, and what a lawful trace
 * then means: for the latch, for driving on fresh evidence, for the runaway guard and for the stops.
 * `MotorLaws` proves that every run of the driver leaves a lawful trace.
 */
module MotorTrace {
  import opened Common
  import opened DdtProtocol
  import opened FeedbackReader
  import G = RunawayGuard
  import opened MotorModel

  // ----- reading a trace -----------------------------------------------------------------------

  /** All that what may happen next depends on. */
  datatype Reading = Reading(
    last: Option<Event>,
    writes: nat,                 // hand-overs of the transaction that has not ended
    latched: bool,               // the guard has tripped since the latch was last released
    answer: Option<Answer>,      // the last valid answer since the motor was registered
    unanswered: nat,             // successful transactions without an answer since then
    lastDone: Option<Bytes>,     // the frame of the latest transaction that reported success
    stamp: Option<real>,         // the latest stop time taken
    guard: G.Guard,              // the guard shown every sample since it was reset
    verdict: G.GuardTrip)        // what it said to the last of them

  const NOTHING := Reading(None, 0, false, None, 0, None, None, G.FRESH, G.NoTrip)

  function Absorb(r: Reading, e: Event): Reading {
    var r1 := r.(last := Some(e), writes := if e.Handed? then r.writes + 1 else 0);
    match e
    case Tripped(_) => r1.(latched := true)
    case Cleared => r1.(latched := false)
    case Registered => r1.(answer := None, unanswered := 0)
    case Forgotten => r1.(answer := None, unanswered := 0, lastDone := None, guard := G.FRESH, verdict := G.NoTrip)
    case Done(_, frame, _, Some(a), _) => r1.(lastDone := Some(frame), answer := Some(a), unanswered := 0)
    case Done(_, frame, _, None, _) => r1.(lastDone := Some(frame), unanswered := r.unanswered + 1)
    case StopStamped(_, at) => r1.(stamp := Some(at))
    case Judged(s) => r1.(guard := G.Update(r.guard, s).0, verdict := G.Update(r.guard, s).1)
    case GuardReset => r1.(guard := G.FRESH, verdict := G.NoTrip)
    case _ => r1
  }

  function Read(t: seq<Event>): Reading
    decreases |t|
  {
    if t == [] then NOTHING else Absorb(Read(t[..|t| - 1]), t[|t| - 1])
  }

  // ----- what is permitted ---------------------------------------------------------------------

  predicate DrivingCurrent(kind: Kind, frame: Bytes) {
    kind.CurrentCommand? && !IsZeroCommandFrame(frame)
  }

  /** A frame has been handed over and its transaction has not ended. */
  predicate Open(r: Reading) {
    r.last.Some? && r.last.value.Handed?
  }

  /** A stop frame went out in a transaction that reported success. */
  predicate StopSent(e: Event) {
    e.Done? && IsZeroCommandFrame(e.frame)
  }

  predicate MayTransact(r: Reading, kind: Kind, frame: Bytes) {
    && (r.latched ==> IsZeroCommandFrame(frame))
    && (kind.ResentStop? ==> IsZeroCommandFrame(frame) && r.lastDone == Some(frame))
    && (DrivingCurrent(kind, frame) ==>
          && !r.latched
          && r.answer.Some? && r.answer.value.mode == CURRENT_LOOP
          && r.unanswered < MAX_CONSECUTIVE_TIMEOUTS)
  }

  /** A trip is the guard's verdict on the sample just shown, or the motor does not report the current loop. */
  predicate MayTrip(r: Reading, trip: G.GuardTrip) {
    if r.verdict != G.NoTrip then trip == r.verdict && r.last.Some? && r.last.value.Judged?
    else trip == G.ModeMismatch && r.answer.Some? && r.answer.value.mode != CURRENT_LOOP
  }

  /** What the driver may do next, judged by the trace alone. */
  predicate Permitted(id: int, r: Reading, e: Event) {
    && (Open(r) ==> e == r.last.value || e.Done? || e.Failed?)
    && (r.verdict != G.NoTrip ==> e.Tripped? || (e.GuardReset? && r.last.Some? && r.last.value.Tripped?))
    && match e
       case Handed(kind, frame) => MayTransact(r, kind, frame) && r.writes < 3
       case Done(kind, frame, heard, answer, _) =>
         && MayTransact(r, kind, frame) && r.last == Some(Handed(kind, frame))
         && answer == AnswerIn(WireId(id), heard)
       case Failed(kind, frame, writes) => writes == r.writes && (writes > 0 ==> r.last == Some(Handed(kind, frame)))
       case Tripped(trip) => MayTrip(r, trip)
       case StopStamped(sent, _) => sent ==> r.last.Some? && StopSent(r.last.value)
       case _ => true
  }

  /** Every event of the trace was permitted by what came before it. */
  ghost predicate Lawful(id: int, t: seq<Event>)
    decreases |t|
  {
    t != [] ==> Lawful(id, t[..|t| - 1]) && Permitted(id, Read(t[..|t| - 1]), t[|t| - 1])
  }

  lemma Snoc(id: int, t: seq<Event>, e: Event)
    ensures Read(t + [e]) == Absorb(Read(t), e)
    ensures Lawful(id, t) && Permitted(id, Read(t), e) ==> Lawful(id, t + [e])
  {
    hide Absorb, Permitted;
    assert (t + [e])[..|t|] == t && (t + [e])[|t|] == e;
  }

  lemma {:induction false} LawfulPrefix(id: int, t: seq<Event>, n: nat)
    requires Lawful(id, t) && n <= |t|
    ensures Lawful(id, t[..n])
    ensures n < |t| ==> Permitted(id, Read(t[..n]), t[n])
    decreases |t|
  {
    hide Absorb, Permitted;
    if n < |t| {
      var rest := t[..|t| - 1];
      assert rest[..n] == t[..n];
      if n < |rest| {
        LawfulPrefix(id, rest, n);
      } else {
        assert rest == t[..n];
      }
    } else {
      assert t[..n] == t;
    }
  }

  // ----- clock readings ------------------------------------------------------------------------

  predicate Timed(e: Event) {
    e.Done? || e.StopStamped? || e.Judged?
  }

  function TimeOf(e: Event): real
    requires Timed(e)
  {
    match e
    case Done(_, _, _, _, at) => at
    case StopStamped(_, at) => at
    case Judged(s) => s.nowSec
  }

  /** The clock readings of the trace never go back, and the last is not after `now`. */
  predicate InOrder(t: seq<Event>, now: real) {
    && (forall i, j :: 0 <= i < j < |t| && Timed(t[i]) && Timed(t[j]) ==> TimeOf(t[i]) <= TimeOf(t[j]))
    && (forall i :: 0 <= i < |t| && Timed(t[i]) ==> TimeOf(t[i]) <= now)
  }

  // ----- the latch -----------------------------------------------------------------------------

  lemma {:induction false} LatchedUntilCleared(t: seq<Event>, i: nat)
    requires i < |t| && t[i].Tripped?
    requires forall k :: i < k < |t| ==> !t[k].Cleared?
    ensures Read(t).latched
    decreases |t|
  {
    if i < |t| - 1 {
      LatchedUntilCleared(t[..|t| - 1], i);
    }
  }

  /**
   * The latch: between a trip and its release every frame handed to the motor commands 0, whatever
   * calls are interleaved and however they turn out.
   */
  lemma TripSilencesTheMotor(id: int, t: seq<Event>, i: nat, j: nat)
    requires Lawful(id, t) && i < j < |t|
    requires t[i].Tripped? && t[j].Handed?
    requires forall k :: i < k < j ==> !t[k].Cleared?
    ensures IsZeroCommandFrame(t[j].frame)
  {
    hide IsZeroCommandFrame, Absorb;
    LawfulPrefix(id, t, j);
    LatchedUntilCleared(t[..j], i);
  }

  // ----- fresh evidence ------------------------------------------------------------------------

  /** The answer that stands at the end of a trace was received, and nothing has replaced it. */
  lemma {:induction false} AnswerStands(t: seq<Event>)
    requires Read(t).answer.Some?
    ensures exists i: nat :: i < |t| && StandsFrom(t, i, Read(t).answer.value)
    decreases |t|
  {
    hide G.Update;
    var rest, last := t[..|t| - 1], t[|t| - 1];
    if last.Done? && last.answer.Some? {
      assert StandsFrom(t, |t| - 1, last.answer.value);
    } else {
      AnswerStands(rest);
      var i: nat :| i < |rest| && StandsFrom(rest, i, Read(rest).answer.value);
      assert StandsFrom(t, i, Read(t).answer.value);
    }
  }

  predicate StandsFrom(t: seq<Event>, i: nat, a: Answer)
    requires i < |t|
  {
    && t[i].Done? && t[i].answer == Some(a)
    && forall k :: i < k < |t| ==> !t[k].Registered? && !t[k].Forgotten? && (t[k].Done? ==> t[k].answer.None?)
  }

  /** Unanswered transactions after the answer that stands. */
  function SilentDone(t: seq<Event>, i: nat): nat
    decreases |t|
  {
    if |t| <= i then 0
    else SilentDone(t[..|t| - 1], i) + (if t[|t| - 1].Done? && t[|t| - 1].answer.None? then 1 else 0)
  }

  lemma {:induction false} UnansweredCountsSilence(t: seq<Event>, i: nat, a: Answer)
    requires i < |t| && StandsFrom(t, i, a)
    ensures Read(t).unanswered == SilentDone(t, i + 1)
    decreases |t|
  {
    hide G.Update;
    if i < |t| - 1 {
      assert StandsFrom(t[..|t| - 1], i, a);
      UnansweredCountsSilence(t[..|t| - 1], i, a);
    }
  }

  /**
   * Fresh evidence: whenever a nonzero current frame is handed to the motor, an earlier answer of this
   * very motor, found with its checksum in the bytes then taken from the line, reported the current
   * loop; that answer still stands, and fewer than three successful transactions have gone unanswered
   * since.
   */
  lemma DrivingNeedsFreshEvidence(id: int, t: seq<Event>, j: nat)
    requires Lawful(id, t) && j < |t|
    requires t[j].Handed? && DrivingCurrent(t[j].kind, t[j].frame)
    ensures exists i: nat :: Evidence(id, t, i, j)
  {
    hide IsZeroCommandFrame, Absorb, AnswerIn, AnswerAt;
    LawfulPrefix(id, t, j);
    AnswerStands(t[..j]);
    var i: nat :| i < j && StandsFrom(t[..j], i, Read(t[..j]).answer.value);
    UnansweredCountsSilence(t[..j], i, Read(t[..j]).answer.value);
    LawfulPrefix(id, t, i);
    AnswerIsHeard(WireId(id), t[i].heard);
    assert Evidence(id, t, i, j);
  }

  ghost predicate Evidence(id: int, t: seq<Event>, i: nat, j: nat) {
    && i < j <= |t|
    && t[i].Done? && t[i].answer.Some? && t[i].answer.value.mode == CURRENT_LOOP
    && HeardAt(WireId(id), t[i].heard, |t[i].heard| - 10, t[i].answer.value)
    && StandsFrom(t[..j], i, t[i].answer.value)
    && SilentDone(t[..j], i + 1) < MAX_CONSECUTIVE_TIMEOUTS
  }

  /** The bytes hold this answer of motor `id` from `q` on. */
  ghost predicate HeardAt(id: bv8, heard: Bytes, q: int, a: Answer) {
    0 <= q && AnswerAt(heard, id, q) && heard[q..q + 10] == AnswerFrame(id, a)
  }

  lemma AnswerIsHeard(id: bv8, heard: Bytes)
    ensures AnswerIn(id, heard).Some? ==> HeardAt(id, heard, |heard| - 10, AnswerIn(id, heard).value)
  {
    hide Crc8, AnswerFrame, Checked;
    if AnswerIn(id, heard).Some? {
      var frame := heard[|heard| - 10..];
      assert frame == heard[|heard| - 10..|heard| - 10 + 10];
      ParseInvertsAnswer(id, frame, AnswerIn(id, heard).value);
      ParsedIsChecked(id, frame);
    }
  }

  lemma ParsedIsChecked(id: bv8, frame: Bytes)
    requires ParseFeedbackFrame(id, frame).Parsed?
    ensures |frame| == 10 && frame[0] == id && Checked(frame)
  {
  }

  /** Successful nonzero current transactions from `i` on. */
  function DrivenBlind(t: seq<Event>, i: nat): nat
    decreases |t|
  {
    if |t| <= i then 0
    else DrivenBlind(t[..|t| - 1], i)
         + (if t[|t| - 1].Done? && DrivingCurrent(t[|t| - 1].kind, t[|t| - 1].frame) then 1 else 0)
  }

  /**
   * Over any stretch of a run in which nothing was answered, at most three transactions that drove
   * the motor reported success, however long the stretch is and however often the motor is
   * initialised again in it.
   */
  lemma {:induction false} BlindDrivingIsBounded(id: int, t: seq<Event>, i: nat)
    requires Lawful(id, t) && i <= |t|
    requires forall k :: i <= k < |t| ==> t[k].Done? ==> t[k].answer.None?
    ensures DrivenBlind(t, i) <= MAX_CONSECUTIVE_TIMEOUTS
    ensures Read(t).answer.Some? ==> DrivenBlind(t, i) <= Read(t).unanswered
    decreases |t|
  {
    hide G.Update, IsZeroCommandFrame;
    if i < |t| {
      BlindDrivingIsBounded(id, t[..|t| - 1], i);
    }
  }

  /** Nonzero current frames handed over from `i` on. */
  function HandedBlind(t: seq<Event>, i: nat): nat
    decreases |t|
  {
    if |t| <= i then 0
    else HandedBlind(t[..|t| - 1], i)
         + (if t[|t| - 1].Handed? && DrivingCurrent(t[|t| - 1].kind, t[|t| - 1].frame) then 1 else 0)
  }

  /** Transactions from `i` on that handed such a frame over and reported failure. */
  function FailedBlind(t: seq<Event>, i: nat): nat
    decreases |t|
  {
    if |t| <= i then 0
    else FailedBlind(t[..|t| - 1], i)
         + (var e := t[|t| - 1];
            if e.Failed? && e.writes > 0 && DrivingCurrent(e.kind, e.frame) then 1 else 0)
  }

  /** Hand-overs of the driving transaction that has not ended. */
  function OpenDriving(r: Reading): nat {
    if Open(r) && DrivingCurrent(r.last.value.kind, r.last.value.frame) then r.writes else 0
  }

  lemma {:induction false} HandedInTransactions(id: int, t: seq<Event>, i: nat)
    requires Lawful(id, t)
    ensures Read(t).writes <= 3 && (Open(Read(t)) <==> Read(t).writes > 0)
    ensures HandedBlind(t, i) <= 3 * (DrivenBlind(t, i) + FailedBlind(t, i)) + OpenDriving(Read(t))
    decreases |t|
  {
    hide G.Update, DrivingCurrent, MayTransact, MayTrip, AnswerIn, StopSent;
    if t != [] {
      HandedInTransactions(id, t[..|t| - 1], i);
    }
  }

  /**
   * Between calls, the nonzero current frames handed over in a stretch without answers are at most
   * three for each of three transactions, and three more for each that reported failure.
   */
  lemma BlindHandingIsBounded(id: int, t: seq<Event>, i: nat)
    requires Lawful(id, t) && i <= |t| && !Open(Read(t))
    requires forall k :: i <= k < |t| ==> t[k].Done? ==> t[k].answer.None?
    ensures HandedBlind(t, i) <= 3 * (MAX_CONSECUTIVE_TIMEOUTS + FailedBlind(t, i))
  {
    hide Read, Lawful, DrivingCurrent;
    BlindDrivingIsBounded(id, t, i);
    HandedInTransactions(id, t, i);
  }

  // ----- the guard -----------------------------------------------------------------------------

  /** The samples the guard was shown since it was last reset. */
  function Samples(t: seq<Event>): seq<G.Sample>
    decreases |t|
  {
    if t == [] then [] else
      match t[|t| - 1]
      case Judged(s) => Samples(t[..|t| - 1]) + [s]
      case GuardReset => []
      case Forgotten => []
      case _ => Samples(t[..|t| - 1])
  }

  lemma {:induction false} SamplesInOrder(t: seq<Event>, now: real)
    requires InOrder(t, now)
    ensures G.InTimeOrder(Samples(t)) && forall i :: 0 <= i < |Samples(t)| ==> Samples(t)[i].nowSec <= now
    decreases |t|
  {
    if t != [] {
      var rest, e := t[..|t| - 1], t[|t| - 1];
      assert InOrder(rest, if Timed(e) then TimeOf(e) else now);
      SamplesInOrder(rest, if Timed(e) then TimeOf(e) else now);
    }
  }

  /** The verdict is always the reason the samples give, and with none the guard's fields track them. */
  lemma {:induction false} GuardTracksSamples(id: int, t: seq<Event>, now: real)
    requires Lawful(id, t) && InOrder(t, now)
    ensures Read(t).verdict == G.NoTrip ==> G.Tracks(Read(t).guard, Samples(t))
    ensures Read(t).verdict == G.Reason(Samples(t))
    decreases |t|
  {
    hide G.Update, G.Tracks, G.Reason, IsZeroCommandFrame, InOrder;
    G.FreshTracksNothing();
    NoSamplesNoReason();
    if t != [] {
      var rest, e := t[..|t| - 1], t[|t| - 1];
      PrefixInOrder(t, now);
      GuardTracksSamples(id, rest, now);
      if e.Judged? {
        SamplesInOrder(t, now);
        G.OneMoreSample(Read(rest).guard, Samples(rest), e.sample);
      }
    }
  }

  lemma NoSamplesNoReason()
    ensures G.Reason([]) == G.NoTrip
  {
  }

  lemma PrefixInOrder(t: seq<Event>, now: real)
    requires t != [] && InOrder(t, now)
    ensures InOrder(t[..|t| - 1], now)
  {
  }

  /**
   * After each sample the motor is tripped at once exactly if the samples since the last reset give a
   * reason, each judged by the parameters in force at its time, and then with that reason.
   */
  lemma TripHasReason(id: int, t: seq<Event>, i: nat, now: real)
    requires Lawful(id, t) && InOrder(t, now) && i + 1 < |t| && t[i].Judged?
    ensures var why := G.Reason(Samples(t[..i + 1]));
            if why != G.NoTrip then t[i + 1] == Tripped(why)
            else t[i + 1].Tripped? ==> t[i + 1].trip == G.ModeMismatch
  {
    hide G.Update, G.Tracks, G.Reason, IsZeroCommandFrame, Lawful, InOrder;
    LawfulPrefix(id, t, i + 1);
    LongerPrefixInOrder(t, i + 1, now);
    GuardTracksSamples(id, t[..i + 1], now);
    assert t[..i + 1][i] == t[i];
  }

  lemma LongerPrefixInOrder(t: seq<Event>, n: nat, now: real)
    requires n <= |t| && InOrder(t, now)
    ensures InOrder(t[..n], now)
  {
  }

  /** Every trip is founded: on the sample just judged, or on an answer that did not report the current loop. */
  lemma EveryTripIsFounded(id: int, t: seq<Event>, i: nat, now: real)
    requires Lawful(id, t) && InOrder(t, now) && i < |t| && t[i].Tripped?
    ensures t[i].trip == G.ModeMismatch ==> exists k: nat :: OtherModeStands(t[..i], k)
    ensures t[i].trip != G.ModeMismatch ==>
              i > 0 && t[i - 1].Judged? && t[i].trip == G.Reason(Samples(t[..i])) && t[i].trip != G.NoTrip
  {
    hide G.Update, G.Tracks, G.Reason, IsZeroCommandFrame, Lawful, InOrder, Absorb;
    LawfulPrefix(id, t, i);
    LongerPrefixInOrder(t, i, now);
    GuardTracksSamples(id, t[..i], now);
    LastIsLast(t[..i]);
    if Read(t[..i]).verdict == G.NoTrip {
      AnswerStands(t[..i]);
      var k: nat :| k < i && StandsFrom(t[..i], k, Read(t[..i]).answer.value);
      assert OtherModeStands(t[..i], k);
    }
    VerdictIsNoMode(t[..i]);
  }

  ghost predicate OtherModeStands(t: seq<Event>, k: nat) {
    && k < |t| && t[k].Done? && t[k].answer.Some? && t[k].answer.value.mode != CURRENT_LOOP
    && StandsFrom(t, k, t[k].answer.value)
  }

  lemma LastIsLast(t: seq<Event>)
    ensures Read(t).last == if t == [] then None else Some(t[|t| - 1])
  {
    hide G.Update;
  }

  lemma {:induction false} VerdictIsNoMode(t: seq<Event>)
    ensures Read(t).verdict != G.ModeMismatch
    decreases |t|
  {
    if t != [] {
      VerdictIsNoMode(t[..|t| - 1]);
    }
  }

  // ----- stopping ------------------------------------------------------------------------------

  /** The last frame handed to the motor. */
  function LastHanded(t: seq<Event>): Option<Bytes>
    decreases |t|
  {
    if t == [] then None else
      match t[|t| - 1]
      case Handed(_, frame) => Some(frame)
      case _ => LastHanded(t[..|t| - 1])
  }

  /** A transaction that handed its frame over has ended here, in success or not. */
  predicate Ended(e: Event) {
    e.Done? || (e.Failed? && e.writes > 0)
  }

  /** The last transaction in which a frame was handed over drove the motor and reported failure. */
  ghost predicate UnreportedDrive(t: seq<Event>) {
    exists k: nat :: k < |t| && FailedDriveAt(t, k)
  }

  predicate FailedDriveAt(t: seq<Event>, k: nat)
    requires k < |t|
  {
    && t[k].Failed? && t[k].writes > 0 && !IsZeroCommandFrame(t[k].frame)
    && forall i :: k < i < |t| ==> !Ended(t[i])
  }

  /** Between transactions, the last frame handed over is that of the transaction that ended last. */
  lemma {:induction false} LastEnd(id: int, t: seq<Event>) returns (c: nat)
    requires Lawful(id, t) && !Open(Read(t)) && LastHanded(t).Some?
    ensures c < |t| && Ended(t[c]) && LastHanded(t) == Some(t[c].frame)
    ensures forall i :: c < i < |t| ==> !Ended(t[i])
    decreases |t|
  {
    hide IsZeroCommandFrame, MayTransact, MayTrip, AnswerIn, G.Update;
    var rest, e := t[..|t| - 1], t[|t| - 1];
    LastIsLast(t);
    LastIsLast(rest);
    if Ended(e) {
      c := |t| - 1;
    } else {
      c := LastEnd(id, rest);
    }
  }

  /** The latest success; nothing was forgotten since. */
  lemma {:induction false} LastDoneIndex(t: seq<Event>) returns (d: nat)
    requires Read(t).lastDone.Some?
    ensures d < |t| && t[d].Done? && t[d].frame == Read(t).lastDone.value
    ensures forall i :: d < i < |t| ==> !t[i].Done?
    decreases |t|
  {
    hide G.Update;
    if t[|t| - 1].Done? {
      d := |t| - 1;
    } else {
      d := LastDoneIndex(t[..|t| - 1]);
    }
  }

  /** A success was handed over right before. */
  lemma DoneWasHanded(id: int, t: seq<Event>, d: nat)
    requires Lawful(id, t) && d < |t| && t[d].Done?
    ensures d > 0 && t[d - 1] == Handed(t[d].kind, t[d].frame)
  {
    hide IsZeroCommandFrame, MayTransact, MayTrip, AnswerIn, Absorb;
    LawfulPrefix(id, t, d);
    LastIsLast(t[..d]);
  }

  lemma {:induction false} SomethingHanded(t: seq<Event>, i: nat)
    requires i < |t| && t[i].Handed?
    ensures LastHanded(t).Some?
    decreases |t|
  {
    if i < |t| - 1 {
      SomethingHanded(t[..|t| - 1], i);
    }
  }

  /**
   * When the latest success was a stop, the last frame handed over is a stop too, exactly unless the
   * last transaction since that handed one over drove the motor and reported failure.
   */
  lemma LastCommandIsStop(id: int, t: seq<Event>)
    requires Lawful(id, t) && !Open(Read(t))
    requires Read(t).lastDone.Some? && IsZeroCommandFrame(Read(t).lastDone.value)
    ensures LastHanded(t).Some?
    ensures IsZeroCommandFrame(LastHanded(t).value) <==> !UnreportedDrive(t)
  {
    hide IsZeroCommandFrame, Absorb, Lawful;
    var d := LastDoneIndex(t);
    DoneWasHanded(id, t, d);
    SomethingHanded(t, d - 1);
    var c := LastEnd(id, t);
    assert c >= d;
    if !IsZeroCommandFrame(LastHanded(t).value) {
      assert FailedDriveAt(t, c);
    }
    assert forall k: nat :: k < |t| && FailedDriveAt(t, k) ==> k == c;
  }

  // ----- the time of the last stop ---------------------------------------------------------------

  predicate IsLastStamp(t: seq<Event>, k: nat) {
    && k < |t| && t[k].StopStamped?
    && forall i :: k < i < |t| ==> !t[i].StopStamped?
  }

  lemma {:induction false} LastStampIndex(t: seq<Event>) returns (k: nat)
    requires Read(t).stamp.Some?
    ensures IsLastStamp(t, k) && Read(t).stamp == Some(t[k].at)
    decreases |t|
  {
    hide G.Update;
    if t[|t| - 1].StopStamped? {
      k := |t| - 1;
    } else {
      k := LastStampIndex(t[..|t| - 1]);
    }
  }

  /** The moment lies less than the resend interval back. */
  predicate Recent(cfg: Config, at: real, now: real) {
    at <= now && ElapsedMs(at, now) < cfg.stopResendIntervalMs
  }

  /**
   * A stop succeeded in time: after the last stop stamp, at a moment less than the interval ago, or in
   * the very transaction for whose success that stamp was taken less than the interval ago.
   */
  predicate SentInTime(t: seq<Event>, cfg: Config, now: real, k: nat, j: nat) {
    && IsLastStamp(t, k) && Recent(cfg, t[k].at, now)
    && j < |t| && StopSent(t[j])
    && if j > k then Recent(cfg, t[j].at, now) else j + 1 == k && t[k].sent
  }

  /** The stop time was last stamped for a resend that failed, and no command has succeeded since. */
  ghost predicate StampedByFailedRefresh(t: seq<Event>) {
    exists k: nat :: k < |t| && FailedStampAt(t, k)
  }

  predicate FailedStampAt(t: seq<Event>, k: nat)
    requires k < |t|
  {
    t[k].StopStamped? && !t[k].sent && forall i :: k < i < |t| ==> !t[i].Done?
  }

  lemma StampedForSuccess(id: int, t: seq<Event>, k: nat)
    requires Lawful(id, t) && k < |t| && t[k].StopStamped? && t[k].sent
    ensures k > 0 && StopSent(t[k - 1])
  {
    hide IsZeroCommandFrame, MayTransact, MayTrip, AnswerIn, Absorb;
    LawfulPrefix(id, t, k);
    LastIsLast(t[..k]);
  }

  lemma LaterIsMoreRecent(cfg: Config, at: real, later: real, now: real)
    requires Recent(cfg, at, now) && at <= later <= now
    ensures Recent(cfg, later, now)
  {
    assert (now - later) * 1000.0 <= (now - at) * 1000.0;
  }

  /** A failed stamp with no success after it is followed only by such stamps. */
  lemma FailedStampHidesAll(id: int, t: seq<Event>, k: nat, j: nat, cfg: Config, now: real, f: nat)
    requires Lawful(id, t) && f < |t| && FailedStampAt(t, f)
    ensures !SentInTime(t, cfg, now, k, j)
  {
    hide IsZeroCommandFrame, Recent;
    if IsLastStamp(t, k) && t[k].sent {
      StampedForSuccess(id, t, k);
    }
  }

  /**
   * Where the latest success was a stop and the last stop stamp is less than the interval old: a stop
   * succeeded in time exactly unless that stamp was taken for a resend that failed, with no success
   * since.
   */
  lemma StampTellsStop(id: int, t: seq<Event>, cfg: Config, now: real)
    requires Lawful(id, t) && InOrder(t, now)
    requires Read(t).lastDone.Some? && IsZeroCommandFrame(Read(t).lastDone.value)
    requires Read(t).stamp.Some? && Recent(cfg, Read(t).stamp.value, now)
    ensures (exists k: nat, j: nat :: SentInTime(t, cfg, now, k, j)) <==> !StampedByFailedRefresh(t)
  {
    hide IsZeroCommandFrame, Absorb, Lawful, Recent;
    var d := LastDoneIndex(t);
    var k := LastStampIndex(t);
    assert StopSent(t[d]);
    if k < d {
      LaterIsMoreRecent(cfg, t[k].at, t[d].at, now);
      assert SentInTime(t, cfg, now, k, d);
    } else if t[k].sent {
      StampedForSuccess(id, t, k);
      assert SentInTime(t, cfg, now, k, k - 1);
    } else {
      assert FailedStampAt(t, k);
    }
    if StampedByFailedRefresh(t) {
      var f: nat :| f < |t| && FailedStampAt(t, f);
      forall i: nat, j: nat ensures !SentInTime(t, cfg, now, i, j) {
        FailedStampHidesAll(id, t, i, j, cfg, now, f);
      }
    }
  }
}
