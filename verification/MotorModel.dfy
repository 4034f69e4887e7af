/**
 * One DDT motor as the driver sees it, as a function of what the serial line and the clocks do.
 * Every operation of the driver is a function from the motor's record and the outcomes of its
 * transactions to the next record; `MotorDriver` proves the class against these functions and
 * `MotorLaws` proves what they guarantee over whole runs. The record carries a trace of what was
 * handed to the line.
 */
module MotorModel {
  import opened Common
  import opened DdtProtocol
  import Pi = CurrentPi
  import G = RunawayGuard

  const MAX_CONSECUTIVE_TIMEOUTS: nat := 3
  const SPEC_VELOCITY_MAX_RPM: int := 475

  datatype ControlMode = Velocity | Current

  /** Parameters shared by all motors. */
  datatype Config = Config(
    maxRpm: int,
    pi: Pi.Params,
    zeroDeadbandRpm: int,
    guard: G.GuardParams,
    maxAccelRpmPerSec: real,
    brakeOnStop: bool,
    accelTime: int,
    stopResendIntervalMs: int)
  {
    predicate Valid() {
      && 0 <= maxRpm <= SPEC_VELOCITY_MAX_RPM
      && pi.Valid()
      && 1 <= accelTime <= 255
    }
  }

  datatype Feedback = Feedback(
    mode: bv8,
    speed: int,
    faultCode: bv8,
    hasFeedback: bool,
    consecutiveTimeouts: nat,
    lastTime: real)

  const NO_FEEDBACK := Feedback(0, 0, 0, false, 0, 0.0)

  datatype PiRecord = PiRecord(
    integralAmp: real,
    guard: G.Guard,
    lastT: Option<real>,
    refRpmFiltered: real,
    lastRefT: Option<real>)

  const PI_FRESH := PiRecord(0.0, G.FRESH, None, 0.0, None)

  datatype Stats = Stats(
    transactions: nat,
    feedbackCount: nat,
    responseTimeouts: nat,
    lastResponseTimeout: bool,
    lastCurrentRaw: int)

  const NO_STATS := Stats(0, 0, 0, false, 0)

  datatype Kind = VelocityCommand | CurrentCommand | ResentStop

  /** What happened to one motor, as seen on the line, in the latch and in the guard. */
  datatype Event =
    | Handed(kind: Kind, frame: Bytes)                  // one call of writeSerial
    | Done(kind: Kind, frame: Bytes, heard: Bytes, answer: Option<Answer>, at: real)
                                                        // a transaction that reported success
    | Failed(kind: Kind, frame: Bytes, writes: nat)     // a transaction that reported failure
    | ModeSwitch(frame: Bytes, whole: bool)             // one call of writeSerial for a mode frame
    | Judged(sample: G.Sample)                          // the guard was shown a sample
    | GuardReset                                        // the guard and the loop were started anew
    | Tripped(trip: G.GuardTrip)
    | Cleared                                           // the latch was released
    | Registered                                        // the feedback record was started anew
    | Forgotten                                         // shutdown dropped the motor
    | StopStamped(sent: bool, at: real)                 // the time of the last stop was taken

  /** What came of a frame; `Waited` has the bytes taken from the line while waiting for the answer. */
  datatype Outcome = NotWritten | NotDrained | Waited(heard: Bytes)

  /** How one transaction went: how often the frame was written, and what came of it. */
  datatype Exchange = Exchange(writes: nat, outcome: Outcome, at: real)
  {
    predicate Sent() {
      outcome.Waited?
    }

    /**
     * A write is tried at most three times; without an open port it is not tried at all, and only a
     * frame that was written can be drained and answered.
     */
    predicate Possible() {
      if outcome.NotWritten? then writes == 0 || writes == 3 else 1 <= writes <= 3
    }
  }

  type Transaction = t: Exchange | t.Possible() witness Exchange(0, NotWritten, 0.0)

  /** How a mode frame went: some short writes, then perhaps a whole one, which perhaps was drained. */
  datatype Attempts = Attempts(short: nat, whole: bool, drained: bool)
  {
    predicate Ok() {
      whole && drained
    }

    predicate Possible() {
      (if whole then short <= 2 else short == 0 || short == 3) && (drained ==> whole)
    }
  }

  type Command = c: Attempts | c.Possible() witness Attempts(0, false, false)

  const NO_TRANSACTION: Transaction := Exchange(0, NotWritten, 0.0)
  const NO_COMMAND: Command := Attempts(0, false, false)

  function ModeWrites(frame: Bytes, c: Attempts): seq<Event> {
    Copies(ModeSwitch(frame, false), c.short) + (if c.whole then [ModeSwitch(frame, true)] else [])
  }

  datatype Motor = Motor(
    velocity: Option<int>,
    mode: Option<ControlMode>,
    feedback: Option<Feedback>,
    pi: PiRecord,
    trip: Option<G.GuardTrip>,
    stats: Stats,
    lastSent: Option<Bytes>,
    lastStop: Option<real>,
    trace: seq<Event>)

  const UNKNOWN_MOTOR := Motor(None, None, None, PI_FRESH, None, NO_STATS, None, None, [])

  function WireId(id: int): bv8 {
    Byte(id % 256)
  }

  function Copies(e: Event, n: nat): (es: seq<Event>)
    ensures |es| == n && forall i :: 0 <= i < n ==> es[i] == e
  {
    seq(n, _ => e)
  }

  function Note(m: Motor, es: seq<Event>): Motor {
    m.(trace := m.trace + es)
  }

  // ----- transactions --------------------------------------------------------------------------

  function CountSilent(fb: Option<Feedback>): Option<Feedback> {
    if fb.None? then None
    else Some(fb.value.(consecutiveTimeouts := fb.value.consecutiveTimeouts + 1))
  }

  function Counted(tx: Stats, answered: bool): Stats {
    if answered
    then tx.(transactions := tx.transactions + 1, feedbackCount := tx.feedbackCount + 1, lastResponseTimeout := false)
    else tx.(transactions := tx.transactions + 1, responseTimeouts := tx.responseTimeouts + 1,
             lastResponseTimeout := true)
  }

  function TakeAnswer(a: Answer, at: real): Feedback {
    Feedback(a.mode, FromBits(a.speed), a.faultCode, true, 0, at)
  }

  /**
   * The answer the bytes taken from the line hold: the reader stops right behind the first one, so it
   * is in the last ten bytes or there is none.
   */
  function AnswerIn(id: bv8, heard: Bytes): Option<Answer> {
    if |heard| < 10 then None else
      match ParseFeedbackFrame(id, heard[|heard| - 10..])
      case Parsed(a) => Some(a)
      case _ => None
  }

  /** The answer of motor `id` to a transaction, if it got one. */
  function AnswerTo(id: int, t: Exchange): Option<Answer> {
    if t.Sent() then AnswerIn(WireId(id), t.outcome.heard) else None
  }

  /** The end of a transaction that reports success: one answer was waited for. */
  function Received(m: Motor, id: int, kind: Kind, frame: Bytes, heard: Bytes, at: real): Motor {
    var answer := AnswerIn(WireId(id), heard);
    Note(m, [Done(kind, frame, heard, answer, at)]).(
      feedback := if answer.Some? then Some(TakeAnswer(answer.value, at)) else CountSilent(m.feedback),
      stats := Counted(m.stats, answer.Some?))
  }

  /** `sendFrameWithFeedback` */
  function Send(m: Motor, id: int, kind: Kind, frame: Bytes, t: Transaction): Motor {
    var handed := Note(m, Copies(Handed(kind, frame), t.writes));
    if t.Sent() then Received(handed, id, kind, frame, t.outcome.heard, t.at)
    else Note(handed, [Failed(kind, frame, t.writes)])
  }

  function SendVelocity(m: Motor, id: int, cfg: Config, rpm: int, brake: bool, t: Transaction): Motor
    requires cfg.Valid()
  {
    var v := Clamp(rpm, -cfg.maxRpm, cfg.maxRpm);
    var frame := PackVelocityFrame(WireId(id), ToBits(v), Byte(cfg.accelTime), brake);
    var sent := Send(m, id, VelocityCommand, frame, t);
    if t.Sent() then sent.(velocity := Some(v), lastSent := Some(frame)) else sent
  }

  function SendCurrent(m: Motor, id: int, raw: int, t: Transaction): Motor
    requires -32768 <= raw < 32768
  {
    var frame := PackCurrentFrame(WireId(id), ToBits(raw));
    var sent := Send(m, id, CurrentCommand, frame, t);
    if t.Sent() then sent.(lastSent := Some(frame), stats := sent.stats.(lastCurrentRaw := raw)) else sent
  }

  // ----- current mode --------------------------------------------------------------------------

  predicate Stale(fb: Option<Feedback>) {
    fb.None? || !fb.value.hasFeedback || fb.value.consecutiveTimeouts >= MAX_CONSECUTIVE_TIMEOUTS
  }

  function Oriented(cfg: Config, speed: int): int {
    if cfg.pi.invertMeasured then -speed else speed
  }

  /** `resetCurrentPiStateForStop` */
  function ResetLoop(m: Motor): Motor {
    Note(m, [GuardReset]).(pi := PI_FRESH)
  }

  /** `tripCurrentGuard` */
  function LatchAndSendZero(m: Motor, id: int, trip: G.GuardTrip, t: Transaction): Motor {
    SendCurrent(ResetLoop(Note(m, [Tripped(trip)]).(trip := Some(trip))), id, 0, t)
  }

  /** At most `maxStep` towards the target. */
  function Approach(from: real, target: real, maxStep: real): real {
    var delta := target - from;
    var capped := if delta > maxStep then maxStep else delta;
    from + (if capped < -maxStep then -maxStep else capped)
  }

  function MaxStep(cfg: Config, dt: real): real {
    cfg.maxAccelRpmPerSec * dt
  }

  /** The time a step of the target may use; gaps that cannot be right count as 10 ms. */
  function SlewTime(pi: PiRecord, now: real): real {
    match pi.lastRefT
    case Some(last) => if now - last <= 0.0 || now - last > 0.2 then 0.01 else now - last
    case None => 0.01
  }

  /** Where the target starts from: the last one, or at first the measured speed. */
  function SlewFrom(pi: PiRecord, cfg: Config, speed: int): real
    requires cfg.Valid()
  {
    if pi.lastRefT.Some? then pi.refRpmFiltered
    else ClampReal(Oriented(cfg, speed) as real, -(cfg.maxRpm as real), cfg.maxRpm as real)
  }

  /** The slew-rate limit of the target; the limit is off unless its rate is positive. */
  function Slew(pi: PiRecord, cfg: Config, speed: int, rpmRef: int, now: real): (PiRecord, int)
    requires cfg.Valid()
  {
    if cfg.maxAccelRpmPerSec <= 0.0 then (pi, rpmRef) else
      var ref := Approach(SlewFrom(pi, cfg, speed), rpmRef as real, MaxStep(cfg, SlewTime(pi, now)));
      (pi.(refRpmFiltered := ref, lastRefT := Some(now)), Pi.Lround(ref))
  }

  /** `runCurrentLoopStep` */
  function LoopStep(pi: PiRecord, cfg: Config, speed: int, rpmRef: int, now: real): (PiRecord, Pi.PiStep)
    requires cfg.Valid()
  {
    var dt := Pi.SanitizeDt(if pi.lastT.Some? then now - pi.lastT.value else 0.01);
    var step := Pi.Step(cfg.pi, pi.integralAmp, rpmRef, speed, dt);
    (pi.(integralAmp := step.integralAmp, lastT := Some(now)), step)
  }

  /** The clock readings and transactions one current-mode command may use. */
  datatype CurrentInput = CurrentInput(
    slewAt: real, stepAt: real, guardAt: real, first: Transaction, second: Transaction)

  /** `commandCurrentMode` */
  function CommandCurrent(m: Motor, id: int, cfg: Config, rpmRef: int, io: CurrentInput): (Motor, bool)
    requires cfg.Valid()
  {
    if m.trip.Some? || Stale(m.feedback) then
      (SendCurrent(ResetLoop(m), id, 0, io.first), io.first.Sent())
    else if m.feedback.value.mode != CURRENT_LOOP then
      (LatchAndSendZero(m, id, G.ModeMismatch, io.first), io.first.Sent())
    else
      var speed := m.feedback.value.speed;
      var (slewed, ref) := Slew(m.pi, cfg, speed, rpmRef, io.slewAt);
      if Pi.InZeroDeadband(ref, speed, cfg.zeroDeadbandRpm)
      then (HoldStill(m.(pi := slewed), id, io.first), io.first.Sent())
      else Drive(m.(pi := slewed), id, cfg, ref, speed, io)
  }

  /** At rest the loop is not run: current 0, and everything but the slew starts anew. */
  function HoldStill(m: Motor, id: int, t: Transaction): Motor {
    SendCurrent(Note(m, [GuardReset]).(pi := m.pi.(integralAmp := 0.0, lastT := None, guard := G.FRESH)), id, 0, t)
  }

  /** One step of the loop is sent and its answer judged. */
  function Drive(m: Motor, id: int, cfg: Config, rpmRef: int, speed: int, io: CurrentInput): (Motor, bool)
    requires cfg.Valid()
  {
    var applied := Pi.RawToAmp(m.stats.lastCurrentRaw);
    var (stepped, step) := LoopStep(m.pi, cfg, speed, rpmRef, io.stepAt);
    var sent := SendCurrent(m.(pi := stepped), id, step.raw, io.first);
    JudgeAnswer(sent, id, cfg, rpmRef, speed, applied, step.commandAmp, io.guardAt, io.first, io.second)
  }

  /** The rest of the command, after the PI output went out: the new answer is put before the guard. */
  function JudgeAnswer(sent: Motor, id: int, cfg: Config, rpmRef: int, speedBefore: int, appliedAmp: real,
                       commandAmp: real, guardAt: real, first: Transaction, second: Transaction): (Motor, bool)
  {
    if !first.Sent() then (sent, false)
    else if AnswerTo(id, first).None? || sent.feedback.None? then (sent, true)
    else if sent.feedback.value.mode != CURRENT_LOOP then
      (LatchAndSendZero(sent, id, G.ModeMismatch, second), second.Sent())
    else
      var sample := G.Sample(guardAt, rpmRef, Oriented(cfg, speedBefore), Oriented(cfg, sent.feedback.value.speed),
                             appliedAmp, commandAmp, cfg.pi.maxCurrentAmp, cfg.guard);
      var (guard, trip) := G.Update(sent.pi.guard, sample);
      var judged := Note(sent, [Judged(sample)]).(pi := sent.pi.(guard := guard));
      if trip == G.NoTrip then (judged, true)
      else (LatchAndSendZero(judged, id, trip, second), second.Sent())
  }

  // ----- the public operations -----------------------------------------------------------------

  function ModeValue(mode: ControlMode): bv8 {
    if mode.Current? then CURRENT_LOOP else VELOCITY_LOOP
  }

  /** The mode the motor reports, if it has answered since it was registered. */
  function Reported(m: Motor): Option<bv8> {
    if m.feedback.Some? && m.feedback.value.hasFeedback then Some(m.feedback.value.mode) else None
  }

  function Prime(m: Motor, id: int, cfg: Config, mode: ControlMode, t: Transaction): Motor
    requires cfg.Valid()
  {
    if mode.Current? then SendCurrent(m, id, 0, t) else SendVelocity(m, id, cfg, 0, cfg.brakeOnStop, t)
  }

  datatype InitInput = InitInput(modeFrame: Command, prime: Transaction, legacyFrame: Command, reprime: Transaction)

  const NO_INIT := InitInput(NO_COMMAND, NO_TRANSACTION, NO_COMMAND, NO_TRANSACTION)

  function SetControlMode(m: Motor, id: int, mode: ControlMode, c: Command): Motor {
    Note(m, ModeWrites(PackModeFrame(WireId(id), ModeValue(mode)), c))
  }

  function TryLegacy(m: Motor, id: int, cfg: Config, mode: ControlMode, io: InitInput): Motor
    requires cfg.Valid()
  {
    var tried := Note(m, ModeWrites(PackModeFrameLegacy(WireId(id), ModeValue(mode)), io.legacyFrame));
    if !io.legacyFrame.Ok() then tried
    else Prime(Note(tried, [Registered]).(feedback := Some(NO_FEEDBACK)), id, cfg, mode, io.reprime)
  }

  /** Registering a motor anew: a blank record, and the latch released. */
  function StartOver(m: Motor, mode: ControlMode): Motor {
    Note(m, [GuardReset, Registered, Cleared]).(
      mode := Some(mode), velocity := Some(0), feedback := Some(NO_FEEDBACK), pi := PI_FRESH, trip := None)
  }

  /** A stop frame draws the first answer; if it reports another mode the old mode frame is tried. */
  function Settle(started: Motor, id: int, cfg: Config, mode: ControlMode, io: InitInput): Motor
    requires cfg.Valid()
  {
    var primed := Prime(started, id, cfg, mode, io.prime);
    var retry := io.prime.Sent() && Reported(primed).Some? && Reported(primed).value != ModeValue(mode);
    if retry then TryLegacy(primed, id, cfg, mode, io) else primed
  }

  function InitializeMotor(m: Motor, id: int, cfg: Config, mode: ControlMode, io: InitInput): (Motor, bool)
    requires cfg.Valid()
  {
    var asked := SetControlMode(m, id, mode, io.modeFrame);
    if io.modeFrame.Ok() then BroughtUp(asked, id, cfg, mode, io) else (asked, false)
  }

  /** After the mode frame went out: a fresh start, and in current mode an answer that confirms it. */
  function BroughtUp(asked: Motor, id: int, cfg: Config, mode: ControlMode, io: InitInput): (Motor, bool)
    requires cfg.Valid()
  {
    var settled := Settle(StartOver(asked, mode), id, cfg, mode, io);
    if mode.Current? && Reported(settled) != Some(CURRENT_LOOP)
    then (settled.(mode := None), false)
    else (settled, true)
  }

  /** `setMotorVelocity`, for a driver that is initialized. */
  function SetVelocity(m: Motor, id: int, cfg: Config, rpm: int, init: InitInput, io: CurrentInput): (Motor, bool)
    requires cfg.Valid()
  {
    var (known, ok) := if m.mode.None? then InitializeMotor(m, id, cfg, Velocity, init) else (m, true);
    if !ok then (known, false) else
      var ref := Clamp(rpm, -cfg.maxRpm, cfg.maxRpm);
      var asked := known.(velocity := Some(ref));
      if asked.mode == Some(Current) then CommandCurrent(asked, id, cfg, ref, io)
      else (SendVelocity(asked, id, cfg, ref, false, io.first), io.first.Sent())
  }

  function ElapsedMs(since: real, now: real): int {
    ((now - since) * 1000.0).Floor
  }

  predicate Throttled(lastStop: Option<real>, cfg: Config, now: real) {
    cfg.stopResendIntervalMs > 0 && lastStop.Some? && ElapsedMs(lastStop.value, now) < cfg.stopResendIntervalMs
  }

  predicate LastSentIsZero(m: Motor) {
    m.lastSent.Some? && IsZeroCommandFrame(m.lastSent.value)
  }

  /** Whether `stopMotor` returns without touching the line. */
  predicate SkipsStop(m: Motor, cfg: Config, now: real) {
    m.mode != Some(Current) && LastSentIsZero(m) && Throttled(m.lastStop, cfg, now)
  }

  datatype StopInput = StopInput(now: real, transaction: Transaction, after: real)

  function StampStop(m: Motor, sent: bool, after: real): Motor {
    Note(m, [StopStamped(sent, after)]).(lastStop := Some(after))
  }

  function BrakeNow(m: Motor, id: int, cfg: Config, io: StopInput): Motor
    requires cfg.Valid()
  {
    var stopped := SendVelocity(m, id, cfg, 0, cfg.brakeOnStop, io.transaction);
    if io.transaction.Sent() then StampStop(stopped, true, io.after) else stopped
  }

  /** `stopMotor` */
  function Stop(m: Motor, id: int, cfg: Config, io: StopInput): (Motor, bool)
    requires cfg.Valid()
  {
    var aimed := m.(velocity := Some(0));
    if m.mode == Some(Current) then
      (SendCurrent(ResetLoop(aimed), id, 0, io.transaction), io.transaction.Sent())
    else if SkipsStop(m, cfg, io.now) then (aimed, true)
    else (BrakeNow(aimed, id, cfg, io), io.transaction.Sent())
  }

  /** `stopMotorNow`, for a driver that is initialized. */
  function StopNow(m: Motor, id: int, cfg: Config, io: StopInput): (Motor, bool)
    requires cfg.Valid()
  {
    var aimed := m.(velocity := Some(0));
    if m.mode == Some(Current)
    then (SendCurrent(ResetLoop(aimed), id, 0, io.transaction), io.transaction.Sent())
    else (BrakeNow(aimed, id, cfg, io), io.transaction.Sent())
  }

  /** What `emergencyStop` does to one motor that has a target. */
  function EmergencyStop(m: Motor, id: int, cfg: Config, t: Transaction): Motor
    requires cfg.Valid()
  {
    if m.mode == Some(Current) then SendCurrent(ResetLoop(m), id, 0, t)
    else SendVelocity(m, id, cfg, 0, cfg.brakeOnStop, t)
  }

  predicate FeedbackYoungerThan(m: Motor, maxAgeSec: real, now: real) {
    m.feedback.Some? && m.feedback.value.hasFeedback && now - m.feedback.value.lastTime <= maxAgeSec
  }

  datatype RefreshInput =
    RefreshInput(now: real, throttleAt: real, transaction: Transaction, after: real, judgedAt: real)

  predicate RefreshSends(m: Motor, cfg: Config, maxAgeSec: real, io: RefreshInput) {
    && !FeedbackYoungerThan(m, maxAgeSec, io.now)
    && DecideIdleRefresh(false, m.lastSent.Some?, LastSentIsZero(m),
                         LastSentIsZero(m) && Throttled(m.lastStop, cfg, io.throttleAt)) == ResendZero
  }

  /** `refreshMotorFeedback`, for a driver that is initialized. */
  function Refresh(m: Motor, id: int, cfg: Config, maxAgeSec: real, io: RefreshInput): (Motor, bool) {
    if FeedbackYoungerThan(m, maxAgeSec, io.now) then (m, true)
    else if !RefreshSends(m, cfg, maxAgeSec, io) then (m, false)
    else
      var resent := Send(m, id, ResentStop, m.lastSent.value, io.transaction);
      var asked := StampStop(resent, io.transaction.Sent(), io.after);
      (asked, FeedbackYoungerThan(asked, maxAgeSec, io.judgedAt))
  }

  function ClearTrip(m: Motor): Motor {
    Note(m, [Cleared]).(trip := None)
  }

  /** What is left of a motor after `shutdown`; the time of the last stop is kept, as in the source. */
  function Forget(m: Motor): Motor {
    Note(m, [Cleared, Forgotten]).(velocity := None, mode := None, feedback := None, pi := PI_FRESH, trip := None,
                                   stats := NO_STATS, lastSent := None)
  }

  predicate Healthy(m: Motor) {
    m.trip.None? && (m.feedback.Some? ==> m.feedback.value.faultCode == 0)
  }
}
