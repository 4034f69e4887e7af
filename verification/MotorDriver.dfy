/**
 * The DDT motor driver as a class. Each method follows the source statement by statement over the
 * per-motor maps, meets a serial line that may fail at any write, drain or read, and is proved to
 * do to its motor what `MotorModel` says and nothing to any other motor. `Valid` carries the laws
 * of `MotorLaws` through every call.
 */
module MotorDriver {
  import opened Common
  import opened DdtProtocol
  import opened FeedbackReader
  import opened MotorModel
  import opened MotorTrace
  import opened MotorLaws
  import Pi = CurrentPi
  import G = RunawayGuard

  function Look<V>(m: map<int, V>, id: int): Option<V> {
    if id in m then Some(m[id]) else None
  }

  function LookOr<V>(m: map<int, V>, id: int, default: V): V {
    if id in m then m[id] else default
  }

  /** The maps are walked in no particular order; the source walks them by ascending id. */
  method AnyOf(ids: set<int>) returns (id: int)
    requires ids != {}
    ensures id in ids
  {
    SomeMember(ids);
    id :| id in ids;
  }

  /** The counter of answers moves exactly when the transaction was answered. */
  lemma CounterTellsAnswer(m: Motor, id: int, raw: int, t: Transaction)
    requires -32768 <= raw < 32768
    ensures SendCurrent(m, id, raw, t).stats.feedbackCount != m.stats.feedbackCount <==> AnswerTo(id, t).Some?
    ensures AnswerTo(id, t).Some? ==> SendCurrent(m, id, raw, t).feedback.Some?
  {
  }

  /** Bytes the reader may have taken: an answer ends them, or they hold none. */
  ghost predicate TakenFromLine(id: bv8, heard: Bytes) {
    forall q: nat :: q + 10 < |heard| ==> !AnswerAt(heard, id, q)
  }

  lemma BytesTaken(id: bv8, stream: Bytes, frame: Option<Bytes>, consumed: nat)
    requires ReadsLeftmost(stream, id, frame, consumed)
    ensures TakenFromLine(id, stream[..consumed])
    ensures match frame
            case Some(f) => ParseFeedbackFrame(id, f).Parsed?
                            && AnswerIn(id, stream[..consumed]) == Some(ParseFeedbackFrame(id, f).answer)
            case None => AnswerIn(id, stream[..consumed]) == None
  {
    hide Crc8, Checked;
    var heard := stream[..consumed];
    forall q: nat | q + 10 <= consumed ensures AnswerAt(heard, id, q) <==> AnswerAt(stream, id, q) {
      assert heard[q..q + 10] == stream[q..q + 10];
    }
    if frame.Some? {
      FrameReadIsParsed(stream, id, frame.value, consumed);
      assert heard[consumed - 10..] == stream[consumed - 10..consumed];
    } else {
      AnswerIsHeard(id, heard);
    }
  }

  lemma EventsNow(t: seq<Event>, es: seq<Event>, now: real)
    requires InOrder(t, now) && forall i :: 0 <= i < |es| && Timed(es[i]) ==> TimeOf(es[i]) == now
    ensures InOrder(t + es, now)
  {
    var t' := t + es;
    forall i | 0 <= i < |t'| && Timed(t'[i]) ensures TimeOf(t'[i]) <= now && (i >= |t| ==> TimeOf(t'[i]) == now) {
      assert t'[i] == if i < |t| then t[i] else es[i - |t|];
    }
  }

  lemma StillInOrder(t: seq<Event>, now: real, later: real)
    requires InOrder(t, now) && now <= later
    ensures InOrder(t, later)
  {
  }

  class DdtMotorLib {
    var initialized: bool
    var portOpen: bool
    var config: Config
    var motorVelocities: map<int, int>
    var motorFeedbacks: map<int, Feedback>
    var motorModes: map<int, ControlMode>
    var piStates: map<int, PiRecord>
    var currentGuardTrips: map<int, G.GuardTrip>
    var transactionStats: map<int, Stats>
    var lastSentFrames: map<int, Bytes>
    var lastStopSendTime: map<int, real>
    var clock: real
    ghost var traces: int -> seq<Event>

    /** Everything the driver knows and has done about one motor. */
    ghost function M(id: int): Motor
      reads this
    {
      Motor(Look(motorVelocities, id), Look(motorModes, id), Look(motorFeedbacks, id),
            LookOr(piStates, id, PI_FRESH), Look(currentGuardTrips, id), LookOr(transactionStats, id, NO_STATS),
            Look(lastSentFrames, id), Look(lastStopSendTime, id), traces(id))
    }

    ghost predicate Valid()
      reads this
    {
      config.Valid() && InTime() && forall id :: Inv(id, M(id))
    }

    /** The clock readings in the traces never go back, and none lies ahead of the clock. */
    ghost predicate InTime()
      reads `traces, `clock
    {
      forall k :: InOrder(traces(k), clock)
    }

    /** Nothing but motor `id` and the clock has changed. */
    twostate predicate OnlyMotor(id: int)
      reads this
    {
      && config == old(config) && initialized == old(initialized) && portOpen == old(portOpen)
      && (forall k :: k != id ==> M(k) == old(M(k)))
      && (old(InTime()) ==> InTime())
    }

    /** Only the clock has moved. */
    twostate predicate NoMotor()
      reads this
    {
      && config == old(config) && initialized == old(initialized) && portOpen == old(portOpen)
      && (forall k :: M(k) == old(M(k)))
      && (old(InTime()) ==> InTime())
    }

    /** A call that keeps its own motor lawful keeps the driver valid. */
    twostate lemma StillValid(id: int)
      requires old(Valid()) && OnlyMotor(id) && Inv(id, M(id))
      ensures Valid()
    {
    }

    constructor (cfg: Config)
      requires cfg.Valid()
      ensures Valid() && config == cfg && !initialized && !portOpen
      ensures forall id :: M(id) == UNKNOWN_MOTOR
    {
      initialized, portOpen, config, clock := false, false, cfg, 0.0;
      motorVelocities, motorFeedbacks, motorModes, piStates := map[], map[], map[], map[];
      currentGuardTrips, transactionStats, lastSentFrames, lastStopSendTime := map[], map[], map[], map[];
      traces := _ => [];
    }

    // ----- the line and the clock ------------------------------------------------------------

    method Now() returns (t: real)
      modifies this`clock
      ensures old(clock) <= t == clock && NoMotor()
    {
      var passed: real := *;
      if passed > 0.0 {
        forall k ensures InOrder(traces(k), clock) ==> InOrder(traces(k), clock + passed) {
          if InOrder(traces(k), clock) {
            StillInOrder(traces(k), clock, clock + passed);
          }
        }
        clock := clock + passed;
      }
      t := clock;
    }

    ghost method Trace(id: int, es: seq<Event>)
      requires forall i :: 0 <= i < |es| && Timed(es[i]) ==> TimeOf(es[i]) == clock
      modifies this`traces
      ensures M(id) == Note(old(M(id)), es)
      ensures OnlyMotor(id)
    {
      var before := traces;
      if InTime() {
        forall k ensures InOrder(if k == id then before(k) + es else before(k), clock) {
          assert InOrder(before(k), clock);
          EventsNow(before(k), es, clock);
        }
      }
      traces := k => if k == id then before(k) + es else before(k);
    }

    ghost method TraceAll(es: seq<Event>)
      requires forall i :: 0 <= i < |es| ==> !Timed(es[i])
      modifies this`traces
      ensures forall k :: M(k) == Note(old(M(k)), es)
      ensures old(InTime()) ==> InTime()
    {
      var before := traces;
      if InTime() {
        forall k ensures InOrder(before(k) + es, clock) {
          EventsNow(before(k), es, clock);
        }
      }
      traces := k => before(k) + es;
    }

    /** Any number of bytes may be taken, or none. */
    method WriteSerial(frame: Bytes) returns (written: int) {
      written := *;
    }

    method DrainSerialOutput() returns (ok: bool) {
      ok := *;
    }

    // ----- transactions -----------------------------------------------------------------------

    method SendFrameWithFeedback(id: int, ghost kind: Kind, frame: Bytes) returns (ok: bool, ghost t: Transaction)
      modifies this
      ensures OnlyMotor(id) && ok == t.Sent()
      ensures M(id) == Send(old(M(id)), id, kind, frame, t)
      ensures ok ==> TakenFromLine(WireId(id), t.outcome.heard)
    {
      hide Received, InTime, TakenFromLine, M;
      if !portOpen {
        t := NO_TRANSACTION;
        Trace(id, [Failed(kind, frame, 0)]);
        assert old(M(id)).trace == old(M(id)).trace + Copies(Handed(kind, frame), 0);
        return false, t;
      }
      var attempt := 0;
      ghost var e := Handed(kind, frame);
      while attempt < 3
        invariant 0 <= attempt <= 3
        invariant OnlyMotor(id)
        invariant M(id) == Note(old(M(id)), Copies(e, attempt))
      {
        assert Copies(e, attempt) + [e] == Copies(e, attempt + 1);
        var written := WriteSerial(frame);
        Trace(id, [e]);
        attempt := attempt + 1;
        if written == |frame| {
          var drained := DrainSerialOutput();
          assert M(id) == Note(old(M(id)), Copies(e, attempt));
          if !drained {
            Trace(id, [Failed(kind, frame, attempt)]);
            t := Exchange(attempt, NotDrained, clock);
            return false, t;
          }
          t := AwaitAnswer(id, kind, frame, attempt);
          return true, t;
        }
      }
      Trace(id, [Failed(kind, frame, 3)]);
      t := Exchange(3, NotWritten, clock);
      ok := false;
    }

    /** The part of a transaction after a successful write: one answer is waited for. */
    method AwaitAnswer(id: int, ghost kind: Kind, frame: Bytes, ghost writes: nat) returns (ghost t: Transaction)
      requires 1 <= writes <= 3
      modifies this
      ensures OnlyMotor(id) && t.Sent() && t.writes == writes
      ensures M(id) == Received(old(M(id)), id, kind, frame, t.outcome.heard, t.at)
      ensures TakenFromLine(WireId(id), t.outcome.heard)
    {
      hide AnswerIn, TakeAnswer, Counted, InTime, TakenFromLine, M;
      var answer, heard := ReceiveAnswer(id);
      var received := Now();
      if answer.Some? {
        StoreFeedback(id, answer.value, received);
        CountTransaction(id, true);
        CountResponse(id, true);
      } else {
        CountTransaction(id, false);
        CountResponse(id, false);
      }
      t := Exchange(writes, Waited(heard), received);
      Trace(id, [Done(kind, frame, heard, answer, received)]);
    }

    /**
     * The bytes that arrive, and how they are cut up, are arbitrary. The answer is the first one they
     * hold, found with its checksum, and nothing behind it was taken.
     */
    method ReceiveAnswer(id: int) returns (answer: Option<Answer>, ghost heard: Bytes)
      ensures answer == AnswerIn(WireId(id), heard) && TakenFromLine(WireId(id), heard)
      ensures answer.Some? ==> HeardAt(WireId(id), heard, |heard| - 10, answer.value)
    {
      hide Crc8, Checked;
      var stream: Bytes := *;
      var events: seq<ReadEvent> := *;
      var frame, consumed := ReadFeedbackFrame(WireId(id), stream, events);
      heard := stream[..consumed];
      BytesTaken(WireId(id), stream, frame, consumed);
      if frame.None? {
        return None, heard;
      }
      var result := ParseFeedbackFrame(WireId(id), frame.value);
      answer := Some(result.answer);
      AnswerIsHeard(WireId(id), heard);
    }

    method CountTransaction(id: int, answered: bool)
      modifies this`transactionStats
      ensures OnlyMotor(id)
      ensures M(id) == old(M(id)).(stats := M(id).stats)
      ensures M(id).stats == Counted(old(M(id)).stats, answered)
    {
      hide InTime;
      var tx := LookOr(transactionStats, id, NO_STATS);
      tx := tx.(transactions := tx.transactions + 1);
      if answered {
        tx := tx.(feedbackCount := tx.feedbackCount + 1, lastResponseTimeout := false);
      } else {
        tx := tx.(responseTimeouts := tx.responseTimeouts + 1, lastResponseTimeout := true);
      }
      transactionStats := transactionStats[id := tx];
    }

    method StoreFeedback(id: int, a: Answer, received: real)
      modifies this`motorFeedbacks
      ensures OnlyMotor(id)
      ensures M(id).feedback.Some?
      ensures M(id) == old(M(id)).(feedback := M(id).feedback)
      ensures M(id).feedback.value.(consecutiveTimeouts := 0) == TakeAnswer(a, received)
    {
      hide InTime;
      var fb := LookOr(motorFeedbacks, id, NO_FEEDBACK);
      fb := fb.(mode := a.mode, speed := FromBits(a.speed), faultCode := a.faultCode,
                hasFeedback := true, lastTime := received);
      motorFeedbacks := motorFeedbacks[id := fb];
    }

    method CountResponse(id: int, valid: bool)
      modifies this`motorFeedbacks
      ensures OnlyMotor(id)
      ensures M(id) == old(M(id)).(feedback :=
                if old(M(id)).feedback.None? then None
                else Some(old(M(id)).feedback.value.(consecutiveTimeouts :=
                            if valid then 0 else old(M(id)).feedback.value.consecutiveTimeouts + 1)))
    {
      hide InTime;
      if id !in motorFeedbacks {
        return;
      }
      var fb := motorFeedbacks[id];
      motorFeedbacks :=
        motorFeedbacks[id := fb.(consecutiveTimeouts := if valid then 0 else fb.consecutiveTimeouts + 1)];
    }

    /** Mode frames: up to three writes, no answer; true only for a whole write that was drained. */
    method SendCommand(ghost id: int, frame: Bytes) returns (ok: bool, ghost c: Command)
      modifies this`traces
      ensures OnlyMotor(id) && ok == c.Ok()
      ensures M(id) == Note(old(M(id)), ModeWrites(frame, c))
    {
      hide InTime;
      ghost var short := ModeSwitch(frame, false);
      if !portOpen {
        c := NO_COMMAND;
        assert M(id).trace == old(M(id)).trace + ModeWrites(frame, c);
        return false, c;
      }
      var attempt := 0;
      while attempt < 3
        invariant 0 <= attempt <= 3
        invariant OnlyMotor(id)
        invariant M(id) == Note(old(M(id)), Copies(short, attempt))
      {
        assert Copies(short, attempt) + [short] == Copies(short, attempt + 1);
        var written := WriteSerial(frame);
        ghost var e := ModeSwitch(frame, written == |frame|);
        Trace(id, [e]);
        if written == |frame| {
          var drained := DrainSerialOutput();
          c := Attempts(attempt, true, drained);
          return drained, c;
        }
        attempt := attempt + 1;
      }
      c := Attempts(3, false, false);
      ok := false;
    }

    method SendMotorVelocity(id: int, rpm: int, brake: bool) returns (ok: bool, ghost t: Transaction)
      requires config.Valid()
      modifies this
      ensures OnlyMotor(id) && ok == t.Sent()
      ensures M(id) == SendVelocity(old(M(id)), id, config, rpm, brake, t)
    {
      hide InTime, Send, PackVelocityFrame, ToBits, Byte, WireId;
      var v := Clamp(rpm, -config.maxRpm, config.maxRpm);
      var frame := PackVelocityFrame(WireId(id), ToBits(v), Byte(config.accelTime), brake);
      ok, t := SendFrameWithFeedback(id, VelocityCommand, frame);
      if ok {
        motorVelocities := motorVelocities[id := v];
        lastSentFrames := lastSentFrames[id := frame];
      }
    }

    method SendMotorCurrentRaw(id: int, raw: int) returns (ok: bool, ghost t: Transaction)
      requires -32768 <= raw < 32768
      modifies this
      ensures OnlyMotor(id) && ok == t.Sent()
      ensures M(id) == SendCurrent(old(M(id)), id, raw, t)
    {
      hide InTime, Send, PackCurrentFrame, ToBits, WireId;
      var frame := PackCurrentFrame(WireId(id), ToBits(raw));
      ok, t := SendFrameWithFeedback(id, CurrentCommand, frame);
      if ok {
        lastSentFrames := lastSentFrames[id := frame];
        transactionStats := transactionStats[id := LookOr(transactionStats, id, NO_STATS).(lastCurrentRaw := raw)];
      }
    }

    method ResetCurrentPiStateForStop(id: int)
      modifies this`piStates, this`traces
      ensures OnlyMotor(id) && M(id) == ResetLoop(old(M(id)))
    {
      hide InTime;
      piStates := piStates[id := PI_FRESH];
      Trace(id, [GuardReset]);
    }

    // ----- current mode ----------------------------------------------------------------------

    method TripCurrentGuard(id: int, trip: G.GuardTrip) returns (ok: bool, ghost t: Transaction)
      modifies this
      ensures OnlyMotor(id) && ok == t.Sent()
      ensures M(id) == LatchAndSendZero(old(M(id)), id, trip, t)
    {
      hide InTime;
      currentGuardTrips := currentGuardTrips[id := trip];
      Trace(id, [Tripped(trip)]);
      ResetCurrentPiStateForStop(id);
      ok, t := SendMotorCurrentRaw(id, 0);
    }

    method LimitSlew(id: int, rpmRefRaw: int, speed: int) returns (rpmRef: int, ghost at: real)
      requires config.Valid()
      modifies this`piStates, this`clock
      ensures OnlyMotor(id)
      ensures (M(id).pi, rpmRef) == Slew(old(M(id)).pi, config, speed, rpmRefRaw, at)
      ensures M(id) == old(M(id)).(pi := M(id).pi)
    {
      hide InTime, MaxStep, Pi.Lround, ClampReal, Oriented;
      rpmRef, at := rpmRefRaw, 0.0;
      if config.maxAccelRpmPerSec > 0.0 {
        var st := LookOr(piStates, id, PI_FRESH);
        var now := Now();
        at := now;
        var dt := 0.01;
        if st.lastRefT.Some? {
          dt := now - st.lastRefT.value;
          if dt <= 0.0 || dt > 0.2 {
            dt := 0.01;
          }
        } else {
          var initial := Oriented(config, speed) as real;
          initial := ClampReal(initial, -(config.maxRpm as real), config.maxRpm as real);
          st := st.(refRpmFiltered := initial);
        }
        ghost var from := st.refRpmFiltered;
        st := st.(lastRefT := Some(now));
        var maxStep := MaxStep(config, dt);
        var delta := rpmRefRaw as real - st.refRpmFiltered;
        if delta > maxStep {
          delta := maxStep;
        }
        if delta < -maxStep {
          delta := -maxStep;
        }
        st := st.(refRpmFiltered := st.refRpmFiltered + delta);
        assert st.refRpmFiltered == Approach(from, rpmRefRaw as real, maxStep);
        rpmRef := Pi.Lround(st.refRpmFiltered);
        piStates := piStates[id := st];
      }
    }

    method RunCurrentLoopStep(id: int, rpmRef: int, speed: int) returns (raw: int, commandAmp: real, ghost at: real)
      requires config.Valid()
      modifies this`piStates, this`clock
      ensures OnlyMotor(id) && -32767 <= raw <= 32767
      ensures M(id) == old(M(id)).(pi := LoopStep(old(M(id)).pi, config, speed, rpmRef, at).0)
      ensures raw == LoopStep(old(M(id)).pi, config, speed, rpmRef, at).1.raw
      ensures commandAmp == LoopStep(old(M(id)).pi, config, speed, rpmRef, at).1.commandAmp
    {
      hide InTime, Pi.Step;
      var st := LookOr(piStates, id, PI_FRESH);
      var now := Now();
      at := now;
      var dt := 0.01;
      if st.lastT.Some? {
        dt := now - st.lastT.value;
      }
      dt := Pi.SanitizeDt(dt);
      var step := Pi.Step(config.pi, st.integralAmp, rpmRef, speed, dt);
      RawInRange(st, config, speed, rpmRef, now);
      piStates := piStates[id := st.(integralAmp := step.integralAmp, lastT := Some(now))];
      raw, commandAmp := step.raw, step.commandAmp;
    }

    method CommandCurrentMode(id: int, rpmRefRaw: int) returns (ok: bool, ghost io: CurrentInput)
      requires config.Valid()
      modifies this
      ensures OnlyMotor(id)
      ensures (M(id), ok) == CommandCurrent(old(M(id)), id, config, rpmRefRaw, io)
    {
      hide InTime, Slew, SendCurrent, LatchAndSendZero, MotorModel.HoldStill, MotorModel.Drive;
      ghost var t: Transaction;
      if id in currentGuardTrips
         || id !in motorFeedbacks || !motorFeedbacks[id].hasFeedback
         || motorFeedbacks[id].consecutiveTimeouts >= MAX_CONSECUTIVE_TIMEOUTS {
        ResetCurrentPiStateForStop(id);
        ok, t := SendMotorCurrentRaw(id, 0);
        io := CurrentInput(0.0, 0.0, 0.0, t, NO_TRANSACTION);
        return;
      }
      var speed := motorFeedbacks[id].speed;
      if motorFeedbacks[id].mode != CURRENT_LOOP {
        ok, t := TripCurrentGuard(id, G.ModeMismatch);
        io := CurrentInput(0.0, 0.0, 0.0, t, NO_TRANSACTION);
        return;
      }
      ghost var slewAt: real;
      var rpmRef: int;
      rpmRef, slewAt := LimitSlew(id, rpmRefRaw, speed);
      if Pi.InZeroDeadband(rpmRef, speed, config.zeroDeadbandRpm) {
        ok, t := HoldStill(id);
        io := CurrentInput(slewAt, 0.0, 0.0, t, NO_TRANSACTION);
        return;
      }
      ghost var rest: CurrentInput;
      ok, rest := Drive(id, rpmRef, speed, slewAt);
      io := rest;
    }

    method HoldStill(id: int) returns (ok: bool, ghost t: Transaction)
      modifies this
      ensures OnlyMotor(id) && ok == t.Sent()
      ensures M(id) == MotorModel.HoldStill(old(M(id)), id, t)
    {
      hide InTime, SendCurrent;
      var st := LookOr(piStates, id, PI_FRESH);
      piStates := piStates[id := st.(integralAmp := 0.0, lastT := None, guard := G.FRESH)];
      Trace(id, [GuardReset]);
      ok, t := SendMotorCurrentRaw(id, 0);
    }

    /** One step of the loop goes out, and its answer is put before the guard. */
    method Drive(id: int, rpmRef: int, speed: int, ghost slewAt: real) returns (ok: bool, ghost io: CurrentInput)
      requires config.Valid()
      modifies this
      ensures OnlyMotor(id) && io.slewAt == slewAt
      ensures (M(id), ok) == MotorModel.Drive(old(M(id)), id, config, rpmRef, speed, io)
    {
      hide InTime, LoopStep, SendCurrent, JudgeAnswer, Pi.RawToAmp;
      ghost var t: Transaction, stepAt: real;
      var appliedAmp := Pi.RawToAmp(LookOr(transactionStats, id, NO_STATS).lastCurrentRaw);
      var raw, commandAmp;
      raw, commandAmp, stepAt := RunCurrentLoopStep(id, rpmRef, speed);
      var feedbackCountBefore := LookOr(transactionStats, id, NO_STATS).feedbackCount;
      ghost var stepped := M(id);
      ok, t := SendMotorCurrentRaw(id, raw);
      CounterTellsAnswer(stepped, id, raw, t);
      ghost var second: Transaction, guardAt: real;
      ok, guardAt, second := JudgeNewAnswer(id, rpmRef, speed, appliedAmp, commandAmp, ok, feedbackCountBefore, t);
      io := CurrentInput(slewAt, stepAt, guardAt, t, second);
    }

    /** One sample for the guard of this motor. */
    method ShowGuard(id: int, rpmRef: int, speed: int, newSpeed: int, appliedAmp: real, commandAmp: real)
      returns (trip: G.GuardTrip, ghost at: real)
      modifies this`clock, this`piStates, this`traces
      ensures OnlyMotor(id)
      ensures var sample := G.Sample(at, rpmRef, Oriented(config, speed), Oriented(config, newSpeed), appliedAmp,
                                     commandAmp, config.pi.maxCurrentAmp, config.guard);
              var m := old(M(id));
              && trip == G.Update(m.pi.guard, sample).1
              && M(id) == Note(m, [Judged(sample)]).(pi := m.pi.(guard := G.Update(m.pi.guard, sample).0))
    {
      hide InTime, G.Update, Oriented;
      var now := Now();
      at := now;
      var sample := G.Sample(now, rpmRef, Oriented(config, speed), Oriented(config, newSpeed),
                             appliedAmp, commandAmp, config.pi.maxCurrentAmp, config.guard);
      var st := LookOr(piStates, id, PI_FRESH);
      var (guard, verdict) := G.Update(st.guard, sample);
      trip := verdict;
      piStates := piStates[id := st.(guard := guard)];
      Trace(id, [Judged(sample)]);
    }

    method JudgeNewAnswer(id: int, rpmRef: int, speed: int, appliedAmp: real, commandAmp: real, sent: bool,
                          countBefore: nat, ghost first: Transaction)
      returns (ok: bool, ghost guardAt: real, ghost second: Transaction)
      requires sent == first.Sent()
      requires sent ==>
                 (LookOr(transactionStats, id, NO_STATS).feedbackCount != countBefore <==> AnswerTo(id, first).Some?)
      requires AnswerTo(id, first).Some? ==> id in motorFeedbacks
      modifies this
      ensures OnlyMotor(id)
      ensures (M(id), ok) == JudgeAnswer(old(M(id)), id, config, rpmRef, speed, appliedAmp, commandAmp,
                                         guardAt, first, second)
    {
      hide InTime, G.Update, LatchAndSendZero;
      guardAt, second := 0.0, NO_TRANSACTION;
      if !sent {
        return false, guardAt, second;
      }
      if LookOr(transactionStats, id, NO_STATS).feedbackCount == countBefore {
        return true, guardAt, second;
      }
      var fbNew := motorFeedbacks[id];
      if fbNew.mode != CURRENT_LOOP {
        ok, second := TripCurrentGuard(id, G.ModeMismatch);
        return;
      }
      var trip;
      trip, guardAt := ShowGuard(id, rpmRef, speed, fbNew.speed, appliedAmp, commandAmp);
      if trip == G.NoTrip {
        return true, guardAt, second;
      }
      ok, second := TripCurrentGuard(id, trip);
    }

    // ----- modes ------------------------------------------------------------------------------

    method SetControlMode(id: int, mode: ControlMode) returns (ok: bool, ghost c: Command)
      requires Valid()
      modifies this
      ensures Valid() && OnlyMotor(id) && ok == c.Ok()
      ensures M(id) == MotorModel.SetControlMode(old(M(id)), id, mode, c)
    {
      hide InTime;
      var modeValue := VELOCITY_LOOP;
      if mode == Current {
        modeValue := CURRENT_LOOP;
      }
      ok, c := SendCommand(id, PackModeFrame(WireId(id), modeValue));
      SetControlModeKeeps(id, old(M(id)), mode, c);
      StillValid(id);
    }

    method PrimeFeedback(id: int, mode: ControlMode) returns (ok: bool, ghost t: Transaction)
      requires config.Valid()
      modifies this
      ensures OnlyMotor(id) && ok == t.Sent()
      ensures M(id) == Prime(old(M(id)), id, config, mode, t)
    {
      hide InTime, SendCurrent, SendVelocity;
      if mode == Current {
        ok, t := SendMotorCurrentRaw(id, 0);
      } else {
        ok, t := SendMotorVelocity(id, 0, config.brakeOnStop);
      }
    }

    method ReportedMode(id: int) returns (reported: Option<bv8>)
      ensures reported == Reported(M(id))
    {
      reported := if id in motorFeedbacks && motorFeedbacks[id].hasFeedback
                  then Some(motorFeedbacks[id].mode) else None;
    }

    method StartOver(id: int, mode: ControlMode)
      modifies this
      ensures OnlyMotor(id)
      ensures M(id) == MotorModel.StartOver(old(M(id)), mode)
    {
      hide InTime, M;
      Register(id, mode);
      ResetCurrentPiStateForStop(id);
      ReleaseLatch(id);
    }

    method Register(id: int, mode: ControlMode)
      modifies this`motorModes, this`motorVelocities, this`motorFeedbacks
      ensures OnlyMotor(id)
      ensures M(id) == old(M(id)).(mode := Some(mode), velocity := Some(0), feedback := Some(NO_FEEDBACK))
    {
      hide InTime;
      motorModes := motorModes[id := mode];
      motorVelocities := motorVelocities[id := 0];
      motorFeedbacks := motorFeedbacks[id := NO_FEEDBACK];
    }

    method ReleaseLatch(id: int)
      modifies this`currentGuardTrips, this`traces
      ensures OnlyMotor(id)
      ensures M(id) == Note(old(M(id)), [Registered, Cleared]).(trip := None)
    {
      hide InTime;
      currentGuardTrips := currentGuardTrips - {id};
      Trace(id, [Registered, Cleared]);
    }

    method InitializeMotor(id: int, mode: ControlMode) returns (ok: bool, ghost io: InitInput)
      requires Valid()
      modifies this
      ensures Valid() && OnlyMotor(id)
      ensures (M(id), ok) == MotorModel.InitializeMotor(old(M(id)), id, config, mode, io)
    {
      hide InTime, Inv, BroughtUp, MotorModel.SetControlMode;
      ghost var c: Command;
      ok, c := SetControlMode(id, mode);
      if ok {
        ok, io := BringUp(id, mode, c);
      } else {
        io := NO_INIT.(modeFrame := c);
      }
      InitializeMotorKeeps(id, old(M(id)), config, mode, io);
      StillValid(id);
    }

    /** The part of the initialisation after the mode frame went out. */
    method BringUp(id: int, mode: ControlMode, ghost c: Command) returns (ok: bool, ghost io: InitInput)
      requires config.Valid()
      modifies this
      ensures OnlyMotor(id) && io.modeFrame == c
      ensures (M(id), ok) == BroughtUp(old(M(id)), id, config, mode, io)
    {
      hide InTime, MotorModel.StartOver, Settle, Reported;
      StartOver(id, mode);
      io := SettleMotor(id, mode);
      io := io.(modeFrame := c);
      var reported := ReportedMode(id);
      ok := mode == Velocity || reported == Some(CURRENT_LOOP);
      if !ok {
        motorModes := motorModes - {id};
      }
    }

    method SettleMotor(id: int, mode: ControlMode) returns (ghost io: InitInput)
      requires config.Valid()
      modifies this
      ensures OnlyMotor(id)
      ensures forall c: Command :: M(id) == Settle(old(M(id)), id, config, mode, io.(modeFrame := c))
    {
      hide InTime, Prime, TryLegacy;
      ghost var first: Transaction, legacy: Command, second: Transaction;
      legacy, second := NO_COMMAND, NO_TRANSACTION;
      var wanted := if mode == Current then CURRENT_LOOP else VELOCITY_LOOP;
      var primed;
      primed, first := PrimeFeedback(id, mode);
      var reported := ReportedMode(id);
      if primed && reported.Some? && reported.value != wanted {
        legacy, second := RetryLegacy(id, mode, wanted);
      }
      io := InitInput(NO_COMMAND, first, legacy, second);
    }

    method RetryLegacy(id: int, mode: ControlMode, wanted: bv8) returns (ghost c: Command, ghost t: Transaction)
      requires config.Valid() && wanted == ModeValue(mode)
      modifies this
      ensures OnlyMotor(id)
      ensures forall first: Command, prime: Transaction ::
                M(id) == TryLegacy(old(M(id)), id, config, mode, InitInput(first, prime, c, t))
    {
      hide InTime, Prime;
      t := NO_TRANSACTION;
      var sent;
      sent, c := SendCommand(id, PackModeFrameLegacy(WireId(id), wanted));
      if sent {
        motorFeedbacks := motorFeedbacks[id := NO_FEEDBACK];
        Trace(id, [Registered]);
        var primed;
        primed, t := PrimeFeedback(id, mode);
      }
    }

    // ----- commands ---------------------------------------------------------------------------

    method SetMotorVelocity(id: int, velocityRpm: int)
      returns (ok: bool, ghost init: InitInput, ghost io: CurrentInput)
      requires Valid()
      modifies this
      ensures Valid() && OnlyMotor(id)
      ensures !initialized ==> !ok && M(id) == old(M(id))
      ensures initialized ==> (M(id), ok) == SetVelocity(old(M(id)), id, config, velocityRpm, init, io)
    {
      hide InTime, CommandCurrent, MotorModel.InitializeMotor, SendVelocity, Inv;
      init := NO_INIT;
      io := CurrentInput(0.0, 0.0, 0.0, NO_TRANSACTION, NO_TRANSACTION);
      if !initialized {
        return false, init, io;
      }
      if id !in motorModes {
        ok, init := InitializeMotor(id, Velocity);
        InitializeMotorKeeps(id, old(M(id)), config, Velocity, init);
        StillValid(id);
        if !ok {
          return;
        }
      }
      assert M(id).mode == Some(motorModes[id]);
      var mode := motorModes[id];
      var rpmRefRaw := Clamp(velocityRpm, -config.maxRpm, config.maxRpm);
      motorVelocities := motorVelocities[id := rpmRefRaw];
      if mode == Current {
        ok, io := CommandCurrentMode(id, rpmRefRaw);
      } else {
        ghost var t;
        ok, t := SendMotorVelocity(id, rpmRefRaw, false);
        io := io.(first := t);
      }
      SetVelocityKeeps(id, old(M(id)), config, velocityRpm, init, io);
      StillValid(id);
    }

    method LastSentFrameIsZero(id: int) returns (zero: bool)
      ensures zero == LastSentIsZero(M(id))
    {
      zero := id in lastSentFrames && IsZeroCommandFrame(lastSentFrames[id]);
    }

    method StampStopTime(id: int, ghost sent: bool) returns (ghost after: real)
      modifies this`clock, this`lastStopSendTime, this`traces
      ensures OnlyMotor(id)
      ensures M(id) == StampStop(old(M(id)), sent, after)
    {
      hide InTime;
      var now := Now();
      lastStopSendTime := lastStopSendTime[id := now];
      Trace(id, [StopStamped(sent, now)]);
      after := now;
    }

    /** Whether the last stop went out so recently that another one is left out. */
    method RecentlyStopped(id: int) returns (recent: bool, ghost at: real)
      modifies this`clock
      ensures recent == Throttled(M(id).lastStop, config, at) && NoMotor() && old(clock) <= at
    {
      hide InTime, ElapsedMs;
      recent := false;
      at := clock;
      if config.stopResendIntervalMs > 0 {
        var now := Now();
        at := now;
        if id in lastStopSendTime {
          var elapsedMs := ElapsedMs(lastStopSendTime[id], now);
          recent := elapsedMs < config.stopResendIntervalMs;
        }
      }
    }

    lemma TraceInOrder(id: int)
      requires Valid()
      ensures InOrder(M(id).trace, clock)
    {
    }

    method StopMotor(id: int) returns (ok: bool, ghost io: StopInput)
      requires Valid()
      modifies this
      ensures Valid() && OnlyMotor(id)
      ensures (M(id), ok) == Stop(old(M(id)), id, config, io)
      ensures InOrder(old(M(id)).trace, io.now)
    {
      hide InTime, InOrder, SendCurrent, SendVelocity, IsZeroCommandFrame, StampStop, Inv, Throttled;
      TraceInOrder(id);
      ghost var t: Transaction, checkedAt: real, after: real := NO_TRANSACTION, clock, 0.0;
      if id in motorModes && motorModes[id] == Current {
        ResetCurrentPiStateForStop(id);
        motorVelocities := motorVelocities[id := 0];
        ok, t := SendMotorCurrentRaw(id, 0);
      } else {
        motorVelocities := motorVelocities[id := 0];
        var alreadyStopped := LastSentFrameIsZero(id);
        var recent := false;
        if alreadyStopped {
          recent, checkedAt := RecentlyStopped(id);
        }
        if recent {
          ok := true;
        } else {
          ok, after, t := BrakeAndStamp(id);
        }
      }
      StillInOrder(old(M(id)).trace, old(clock), checkedAt);
      io := StopInput(checkedAt, t, after);
      StopsKeep(id, old(M(id)), config, io);
      StillValid(id);
    }

    method BrakeAndStamp(id: int) returns (ok: bool, ghost after: real, ghost t: Transaction)
      requires config.Valid()
      modifies this
      ensures OnlyMotor(id) && ok == t.Sent()
      ensures forall now: real :: M(id) == BrakeNow(old(M(id)), id, config, StopInput(now, t, after))
    {
      hide InTime, SendVelocity, StampStop;
      after := 0.0;
      ok, t := SendMotorVelocity(id, 0, config.brakeOnStop);
      if ok {
        after := StampStopTime(id, true);
      }
    }

    method StopMotorNow(id: int) returns (ok: bool, ghost io: StopInput)
      requires Valid()
      modifies this
      ensures Valid() && OnlyMotor(id)
      ensures !initialized ==> !ok && M(id) == old(M(id))
      ensures initialized ==> (M(id), ok) == StopNow(old(M(id)), id, config, io)
    {
      hide InTime, SendCurrent, SendVelocity, StampStop, Inv;
      ghost var t: Transaction, after: real := NO_TRANSACTION, 0.0;
      io := StopInput(0.0, t, after);
      if !initialized {
        return false, io;
      }
      motorVelocities := motorVelocities[id := 0];
      if id in motorModes && motorModes[id] == Current {
        ResetCurrentPiStateForStop(id);
        ok, t := SendMotorCurrentRaw(id, 0);
      } else {
        ok, after, t := BrakeAndStamp(id);
      }
      io := StopInput(0.0, t, after);
      StopsKeep(id, old(M(id)), config, io);
      StillValid(id);
    }

    method EmergencyStopOne(id: int) returns (ghost t: Transaction)
      requires Valid()
      modifies this
      ensures Valid() && OnlyMotor(id)
      ensures M(id) == MotorModel.EmergencyStop(old(M(id)), id, config, t)
      ensures old(M(id)).velocity.Some? ==> M(id).velocity.Some?
    {
      hide InTime, SendCurrent, Inv;
      var ok;
      if id in motorModes && motorModes[id] == Current {
        ResetCurrentPiStateForStop(id);
        ok, t := SendMotorCurrentRaw(id, 0);
        SendingKeepsTarget(ResetLoop(old(M(id))), id, t);
      } else {
        ok, t := SendMotorVelocity(id, 0, config.brakeOnStop);
      }
      StopsKeep(id, old(M(id)), config, StopInput(0.0, t, 0.0));
      StillValid(id);
    }

    lemma TargetsAreKeys()
      ensures forall k :: k in motorVelocities <==> M(k).velocity.Some?
    {
    }

    /** Every motor that has a target is stopped, each once, in any order. */
    method EmergencyStop() returns (ghost ts: map<int, Transaction>)
      requires Valid()
      modifies this
      ensures Valid() && config == old(config) && initialized == old(initialized) && portOpen == old(portOpen)
      ensures forall k :: k in ts <==> old(M(k)).velocity.Some?
      ensures forall k :: k in ts ==> M(k) == MotorModel.EmergencyStop(old(M(k)), k, config, ts[k])
      ensures forall k :: k !in ts ==> M(k) == old(M(k))
    {
      TargetsAreKeys();
      hide InTime, Inv, MotorModel.EmergencyStop, M;
      ts := map[];
      var todo := motorVelocities.Keys;
      while todo != {}
        invariant Valid() && config == old(config) && initialized == old(initialized) && portOpen == old(portOpen)
        invariant forall k :: k in ts || k in todo <==> old(M(k)).velocity.Some?
        invariant forall k :: k in ts ==> k !in todo && M(k) == MotorModel.EmergencyStop(old(M(k)), k, config, ts[k])
        invariant forall k :: k !in ts ==> M(k) == old(M(k))
        decreases |todo|
      {
        var id := AnyOf(todo);
        ghost var t := EmergencyStopOne(id);
        ts := ts[id := t];
        todo := todo - {id};
      }
    }

    method StopAllMotors() returns (success: bool, ghost ios: map<int, StopInput>, ghost oks: map<int, bool>)
      requires Valid()
      modifies this
      ensures Valid() && config == old(config) && initialized == old(initialized) && portOpen == old(portOpen)
      ensures ios.Keys == oks.Keys && forall k :: k in ios <==> old(M(k)).velocity.Some?
      ensures forall k :: k in ios ==> (M(k), oks[k]) == Stop(old(M(k)), k, config, ios[k])
      ensures forall k :: k !in ios ==> M(k) == old(M(k))
      ensures success <==> forall k :: k in oks ==> oks[k]
    {
      TargetsAreKeys();
      hide InTime, Inv, Stop, M;
      success, ios, oks := true, map[], map[];
      var todo := motorVelocities.Keys;
      while todo != {}
        invariant Valid() && config == old(config) && initialized == old(initialized) && portOpen == old(portOpen)
        invariant ios.Keys == oks.Keys && forall k :: k in ios || k in todo <==> old(M(k)).velocity.Some?
        invariant forall k :: k in ios ==> k !in todo && (M(k), oks[k]) == Stop(old(M(k)), k, config, ios[k])
        invariant forall k :: k !in ios ==> M(k) == old(M(k))
        invariant success <==> forall k :: k in oks ==> oks[k]
        decreases |todo|
      {
        var id := AnyOf(todo);
        assert M(id) == old(M(id));
        var ok;
        ghost var io;
        ok, io := StopMotor(id);
        ios, oks := ios[id := io], oks[id := ok];
        success := success && ok;
        todo := todo - {id};
      }
    }

    method FeedbackIsYounger(id: int, maxAgeSec: real) returns (young: bool, ghost at: real)
      modifies this`clock
      ensures young == FeedbackYoungerThan(M(id), maxAgeSec, at) && NoMotor()
    {
      hide InTime;
      young := false;
      var now := Now();
      at := now;
      if id in motorFeedbacks && motorFeedbacks[id].hasFeedback {
        young := now - motorFeedbacks[id].lastTime <= maxAgeSec;
      }
    }

    method RefreshMotorFeedback(id: int, maxAgeSec: real) returns (ok: bool, ghost io: RefreshInput)
      requires Valid()
      modifies this
      ensures Valid() && OnlyMotor(id)
      ensures !initialized ==> !ok && M(id) == old(M(id))
      ensures initialized ==> (M(id), ok) == Refresh(old(M(id)), id, config, maxAgeSec, io)
    {
      hide InTime, Send, IsZeroCommandFrame, Throttled, FeedbackYoungerThan, StampStop, Inv;
      io := RefreshInput(0.0, 0.0, NO_TRANSACTION, 0.0, 0.0);
      if !initialized {
        return false, io;
      }
      var young;
      ghost var firstAt: real, throttleAt: real, t: Transaction, after: real, judgedAt: real;
      throttleAt, t, after, judgedAt := 0.0, NO_TRANSACTION, 0.0, 0.0;
      young, firstAt := FeedbackIsYounger(id, maxAgeSec);
      if young {
        ok := true;
      } else {
        var hasFrame := id in lastSentFrames;
        var zeroFrame := LastSentFrameIsZero(id);
        var throttled := false;
        if zeroFrame {
          throttled, throttleAt := RecentlyStopped(id);
        }
        if DecideIdleRefresh(false, hasFrame, zeroFrame, throttled) != ResendZero {
          ok := false;
        } else {
          var zero := lastSentFrames[id];
          var sent;
          sent, t := SendFrameWithFeedback(id, ResentStop, zero);
          after := StampStopTime(id, sent);
          ok, judgedAt := FeedbackIsYounger(id, maxAgeSec);
        }
      }
      io := RefreshInput(firstAt, throttleAt, t, after, judgedAt);
      RefreshKeeps(id, old(M(id)), config, maxAgeSec, io);
      StillValid(id);
    }

    // ----- configuration, start and end ---------------------------------------------------------

    method ClearCurrentGuardTrips()
      requires forall k :: Inv(k, M(k))
      modifies this`currentGuardTrips, this`traces
      ensures forall k :: M(k) == ClearTrip(old(M(k))) && Inv(k, M(k))
      ensures old(InTime()) ==> InTime()
    {
      hide Lawful, Read, InTime, Fields;
      forall k ensures Inv(k, ClearTrip(M(k))) { ClearKeeps(k, M(k)); }
      currentGuardTrips := map[];
      assert forall k :: M(k) == old(M(k)).(trip := None);
      TraceAll([Cleared]);
    }

    method SetCurrentControlParams(kp: real, ki: real, maxCurrentAmp: real, integralLimitAmp: real)
      requires Valid()
      modifies this
      ensures Valid() && initialized == old(initialized)
      ensures config == old(config).(pi := old(config).pi.(kp := kp, ki := ki,
                maxCurrentAmp := G.GreatestReal(0.0, maxCurrentAmp),
                integralLimitAmp := G.GreatestReal(0.0, integralLimitAmp)))
      ensures forall k :: M(k) == ClearTrip(old(M(k)))
    {
      hide InTime, Inv;
      config := config.(pi := config.pi.(kp := kp, ki := ki, maxCurrentAmp := G.GreatestReal(0.0, maxCurrentAmp),
                                         integralLimitAmp := G.GreatestReal(0.0, integralLimitAmp)));
      assert forall k :: M(k) == old(M(k));
      ClearCurrentGuardTrips();
    }

    method SetCurrentFeedforward(staticAmp: real, viscousAmpPerRpm: real)
      requires Valid()
      modifies this
      ensures Valid() && initialized == old(initialized)
      ensures config == old(config).(pi := old(config).pi.(ffStaticAmp := G.GreatestReal(0.0, staticAmp),
                                                           ffViscousAmpPerRpm := G.GreatestReal(0.0, viscousAmpPerRpm)))
      ensures forall k :: M(k) == ClearTrip(old(M(k)))
    {
      hide InTime, Inv;
      config := config.(pi := config.pi.(ffStaticAmp := G.GreatestReal(0.0, staticAmp),
                                         ffViscousAmpPerRpm := G.GreatestReal(0.0, viscousAmpPerRpm)));
      assert forall k :: M(k) == old(M(k));
      ClearCurrentGuardTrips();
    }

    method SetCurrentGuardParams(overspeedMarginRpm: real, overspeedTimeSec: real)
      requires Valid()
      modifies this
      ensures Valid() && initialized == old(initialized)
      ensures config == old(config).(guard := G.GuardParams(
                if overspeedMarginRpm > 0.0 then overspeedMarginRpm else 50.0,
                if overspeedTimeSec > 0.0 then overspeedTimeSec else 0.3))
      ensures forall k :: M(k) == ClearTrip(old(M(k)))
    {
      hide InTime, Inv;
      config := config.(guard := G.GuardParams(if overspeedMarginRpm > 0.0 then overspeedMarginRpm else 50.0,
                                               if overspeedTimeSec > 0.0 then overspeedTimeSec else 0.3));
      assert forall k :: M(k) == old(M(k));
      ClearCurrentGuardTrips();
    }

    method SetCurrentInvertMeasured(invert: bool)
      requires Valid()
      modifies this
      ensures Valid() && initialized == old(initialized)
      ensures config == old(config).(pi := old(config).pi.(invertMeasured := invert))
      ensures forall k :: M(k) == ClearTrip(old(M(k)))
    {
      hide InTime, Inv;
      config := config.(pi := config.pi.(invertMeasured := invert));
      assert forall k :: M(k) == old(M(k));
      ClearCurrentGuardTrips();
    }

    /** The other setters change one shared parameter and touch neither the motors nor the latch. */
    method SetPlainParams(maxRpm: int, deadbandRpm: int, maxAccelRpmPerSec: real, brakeOnStop: bool, accelTime: int,
                          stopResendIntervalMs: int)
      requires Valid() && 0 <= maxRpm
      modifies this`config
      ensures Valid()
      ensures forall k :: M(k) == old(M(k))
      ensures config == old(config).(
                maxRpm := if maxRpm > SPEC_VELOCITY_MAX_RPM then SPEC_VELOCITY_MAX_RPM else maxRpm,
                zeroDeadbandRpm := if deadbandRpm > 0 then deadbandRpm else 0,
                maxAccelRpmPerSec := maxAccelRpmPerSec, brakeOnStop := brakeOnStop,
                accelTime := Clamp(accelTime, 1, 255),
                stopResendIntervalMs := if stopResendIntervalMs > 0 then stopResendIntervalMs else 0)
    {
      hide InTime, Inv;
      config := config.(maxRpm := if maxRpm > SPEC_VELOCITY_MAX_RPM then SPEC_VELOCITY_MAX_RPM else maxRpm);
      config := config.(zeroDeadbandRpm := if deadbandRpm > 0 then deadbandRpm else 0);
      config := config.(maxAccelRpmPerSec := maxAccelRpmPerSec, brakeOnStop := brakeOnStop);
      config := config.(accelTime := Clamp(accelTime, 1, 255));
      config := config.(stopResendIntervalMs := if stopResendIntervalMs > 0 then stopResendIntervalMs else 0);
      assert forall k :: M(k) == old(M(k));
    }

    method Initialize() returns (ok: bool)
      requires Valid()
      modifies this`initialized, this`portOpen
      ensures Valid() && initialized == (old(initialized) || ok) && (old(initialized) ==> ok)
      ensures forall k :: M(k) == old(M(k))
    {
      hide InTime, Inv;
      if initialized {
        return true;
      }
      ok := *;
      if ok {
        portOpen := true;
        initialized := true;
      }
      assert forall k :: M(k) == old(M(k));
    }

    method Shutdown() returns (ghost ts: map<int, Transaction>)
      requires Valid()
      modifies this
      ensures Valid() && !initialized && config == old(config)
      ensures !old(initialized) ==> forall k :: M(k) == old(M(k))
      ensures old(initialized) ==> forall k :: k in ts <==> old(M(k)).velocity.Some?
      ensures old(initialized) ==>
                forall k :: M(k) == Forget(if k in ts then MotorModel.EmergencyStop(old(M(k)), k, config, ts[k])
                                           else old(M(k)))
    {
      hide InTime, Inv, MotorModel.EmergencyStop, Forget;
      ts := map[];
      if initialized {
        ts := EmergencyStop();
        forall k ensures Inv(k, Forget(M(k))) { ClearKeeps(k, M(k)); }
        label stopped:
        portOpen, initialized := false, false;
        assert forall k :: M(k) == old@stopped(M(k));
        ForgetMotors();
      }
    }

    method ForgetMotors()
      modifies this`motorVelocities, this`motorFeedbacks, this`motorModes, this`piStates, this`currentGuardTrips,
               this`lastSentFrames, this`transactionStats, this`traces
      ensures forall k :: M(k) == Forget(old(M(k)))
      ensures old(InTime()) ==> InTime()
    {
      hide InTime, M;
      EmptyMaps();
      TraceAll([Cleared, Forgotten]);
    }

    method EmptyMaps()
      modifies this`motorVelocities, this`motorFeedbacks, this`motorModes, this`piStates, this`currentGuardTrips,
               this`lastSentFrames, this`transactionStats
      ensures forall k :: M(k) == old(M(k)).(velocity := None, mode := None, feedback := None, pi := PI_FRESH,
                                             trip := None, stats := NO_STATS, lastSent := None)
    {
      motorVelocities, motorFeedbacks, motorModes := map[], map[], map[];
      piStates, currentGuardTrips, lastSentFrames, transactionStats := map[], map[], map[], map[];
    }

    /** Healthy only while initialized, with no reported fault and no latched guard on any motor. */
    method IsHealthy() returns (healthy: bool)
      ensures healthy <==> initialized && forall k :: Healthy(M(k))
    {
      if !initialized {
        return false;
      }
      var todo := motorFeedbacks.Keys;
      while todo != {}
        invariant todo <= motorFeedbacks.Keys
        invariant forall k :: k in motorFeedbacks && k !in todo ==> motorFeedbacks[k].faultCode == 0
        decreases |todo|
      {
        var id := AnyOf(todo);
        if motorFeedbacks[id].faultCode != 0 {
          assert !Healthy(M(id));
          return false;
        }
        todo := todo - {id};
      }
      if currentGuardTrips.Keys != {} {
        var id := AnyOf(currentGuardTrips.Keys);
        assert !Healthy(M(id));
        return false;
      }
      healthy := true;
    }
  }

  lemma SendingKeepsTarget(m: Motor, id: int, t: Transaction)
    ensures SendCurrent(m, id, 0, t).velocity == m.velocity
  {
  }
}
