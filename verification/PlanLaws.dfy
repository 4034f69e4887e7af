/**
 * What holds over every run of the plan runner: which motion is published and on whose behalf, that
 * a stopped run never moves again, and that a completed run did all of its plan.
 */
module PlanLaws {
  import opened Common
  import opened PlanRunner

  datatype Call =
    | HearJoy(msg: Joy, at: real)
    | HearOdometry(at: real)
    | Clock(at: real, at2: real)
    | Ask(q: Request, at: real, at2: real)

  function Apply(r: Runner, c: Call): Effect
    requires Placed(r)
  {
    match c
    case HearJoy(m, now) => Effect(HearController(r, m, now), [], None)
    case HearOdometry(now) => Effect(r.(lastOdom := now), [], None)
    case Clock(now, now2) => Tick(r, now, now2)
    case Ask(q, now, now2) => Command(r, q, now, now2)
  }

  // ----- every reachable state -------------------------------------------------------------------

  predicate Bounded(s: Step) {
    AbsReal(s.v) <= 0.8 && AbsReal(s.w) <= 1.5 && 0.1 <= s.seconds <= 10.0
  }

  predicate MayForward(m: Option<Joy>) {
    m.Some? && WellFormed(m.value) && m.value.buttons[1] == 0
  }

  /** A plan in hand belongs to a run nobody stopped; a controller in charge was armed and is unharmed. */
  predicate Inv(r: Runner) {
    && Placed(r)
    && (r.plan != [] ==> r.mode == Blockly && r.reason == Running && r.runId !in r.cancelled)
    && (forall i :: 0 <= i < |r.plan| ==> Bounded(r.plan[i]))
    && (r.armed ==> r.mode == Controller && MayForward(r.msg))
  }

  lemma AcceptedStepsAreBounded(value: Json)
    ensures CheckPlan(value).Plan? ==>
              forall i :: 0 <= i < |CheckPlan(value).steps| ==> Bounded(CheckPlan(value).steps[i])
    ensures CheckPlan(value).Plan? ==> CheckPlan(value).steps != []
  {
  }

  lemma StepKeeps(r: Runner, c: Call)
    requires Inv(r)
    ensures Inv(Apply(r, c).after)
    ensures r.cancelled <= Apply(r, c).after.cancelled
  {
    hide CheckPlan, Acceptable, Bounded, WellFormed, Centred;
    if c.Ask? {
      AcceptedStepsAreBounded(c.q.plan);
    }
  }

  function Run(calls: seq<Call>): (r: Runner)
    ensures Inv(r)
    decreases |calls|
  {
    if calls == [] then START else
      var before := Run(calls[..|calls| - 1]);
      StepKeeps(before, calls[|calls| - 1]);
      Apply(before, calls[|calls| - 1]).after
  }

  // ----- a stopped run stays stopped -------------------------------------------------------------

  predicate Moves(out: Out) {
    out.Drive? && out.active
  }

  /** An accepted stop: it is accepted whenever at most 10000 ids are remembered. */
  predicate StopsRun(r: Runner, c: Call, id: string) {
    c.Ask? && c.q.path == StopPlan && c.q.id == Text(id) && GoodId(c.q.id) && |r.cancelled| <= 10000
  }

  predicate StartsRun(r: Runner, c: Call, id: string)
    requires Placed(r)
  {
    c.Ask? && c.q.path == RunPlan && c.q.id == Text(id) && Apply(r, c).refusal == None
  }

  lemma {:induction false} CancelledGrows(calls: seq<Call>, more: seq<Call>)
    ensures Run(calls).cancelled <= Run(calls + more).cancelled
    decreases |more|
  {
    hide Apply, Inv;
    if more == [] {
      assert calls + more == calls;
    } else {
      var all := calls + more;
      assert all[..|all| - 1] == calls + more[..|more| - 1];
      CancelledGrows(calls, more[..|more| - 1]);
      StepKeeps(Run(all[..|all| - 1]), all[|all| - 1]);
    }
  }

  /**
   * Once a stop for `id` was accepted, whatever came before and whatever comes after, no start of
   * `id` is accepted, and nothing that moves is published while `id` is the current run.
   */
  lemma StoppedStaysStopped(calls: seq<Call>, stop: Call, more: seq<Call>, next: Call, id: string)
    requires StopsRun(Run(calls), stop, id)
    ensures var r := Run(calls + [stop] + more);
            && !StartsRun(r, next, id)
            && (r.runId == id ==> forall out :: out in Apply(r, next).outs ==> !Moves(out))
  {
    hide CheckPlan, Acceptable, Bounded, WellFormed, Centred;
    var upTo := calls + [stop];
    assert upTo[..|upTo| - 1] == calls;
    assert id in Run(upTo).cancelled;
    CancelledGrows(upTo, more);
  }

  /** Leaving the run's mode counts as a stop of it. */
  lemma SwitchedStaysStopped(calls: seq<Call>, switch: Call, more: seq<Call>, next: Call)
    requires switch.Ask? && switch.q.path == SetMode && Apply(Run(calls), switch).refusal == None
    requires Run(calls).runId != ""
    ensures !StartsRun(Run(calls + [switch] + more), next, Run(calls).runId)
  {
    hide CheckPlan, Acceptable, Bounded, WellFormed, Centred;
    var upTo := calls + [switch];
    assert upTo[..|upTo| - 1] == calls;
    assert Run(calls).runId in Run(upTo).cancelled;
    CancelledGrows(upTo, more);
  }

  // ----- motion needs fresh evidence ---------------------------------------------------------------

  /** The time of the last odometry message, 0 before the first. */
  function LastOdometry(calls: seq<Call>): real
    decreases |calls|
  {
    if calls == [] then 0.0
    else if calls[|calls| - 1].HearOdometry? then calls[|calls| - 1].at
    else LastOdometry(calls[..|calls| - 1])
  }

  /** In state `r` the call is taken as a sign of life of run `id`: a heartbeat, or its accepted start. */
  predicate Heard(r: Runner, c: Call, id: string, time: real) {
    && c.Ask? && c.q.id == Text(id)
    && ((c.q.path == Heartbeat && r.runId == id && r.plan != [] && c.at == time)
        || (c.q.path == RunPlan && Command(r, c.q, c.at, c.at2).refusal == None && c.at2 == time))
  }

  /** In state `r` the call is the accepted start of run `id` with this plan. */
  predicate Submitted(r: Runner, c: Call, id: string, plan: seq<Step>) {
    && c.Ask? && c.q.path == RunPlan && c.q.id == Text(id)
    && Command(r, c.q, c.at, c.at2).refusal == None && CheckPlan(c.q.plan) == Plan(plan)
  }

  lemma {:induction false} OdometryIsLatest(calls: seq<Call>)
    ensures Run(calls).lastOdom == LastOdometry(calls)
    decreases |calls|
  {
    hide CheckPlan, Acceptable, WellFormed, Centred, Inv;
    if calls != [] {
      OdometryIsLatest(calls[..|calls| - 1]);
    }
  }

  /** A call brings a plan only by starting a run, and renews the heartbeat only by being heard. */
  lemma PlanStep(r: Runner, c: Call)
    requires Inv(r) && Apply(r, c).after.plan != []
    ensures var r' := Apply(r, c).after;
            if r.plan == [] then Submitted(r, c, r'.runId, r'.plan) && Heard(r, c, r'.runId, r'.heartbeat)
            else && r'.plan == r.plan && r'.runId == r.runId
                 && (r'.heartbeat == r.heartbeat || Heard(r, c, r'.runId, r'.heartbeat))
  {
    hide CheckPlan, Acceptable, WellFormed, Centred, Bounded;
  }

  ghost predicate HasOrigin(calls: seq<Call>, id: string, plan: seq<Step>, heartbeat: real) {
    && (exists k :: 0 <= k < |calls| && Submitted(Run(calls[..k]), calls[k], id, plan))
    && (exists k :: 0 <= k < |calls| && Heard(Run(calls[..k]), calls[k], id, heartbeat))
  }

  /** The plan in hand is the one its own start request brought, and its heartbeat was really heard. */
  lemma {:induction false} PlanHasOrigin(calls: seq<Call>)
    ensures Run(calls).plan != [] ==> HasOrigin(calls, Run(calls).runId, Run(calls).plan, Run(calls).heartbeat)
    decreases |calls|
  {
    hide Apply, Inv, Submitted, Heard;
    if calls != [] {
      var last, before := |calls| - 1, calls[..|calls| - 1];
      var c, r0, r := calls[last], Run(before), Run(calls);
      PlanHasOrigin(before);
      if r.plan != [] {
        PlanStep(r0, c);
        if r0.plan != [] {
          var k :| 0 <= k < |before| && Submitted(Run(before[..k]), before[k], r0.runId, r0.plan);
          assert calls[k] == before[k] && calls[..k] == before[..k];
          var j :| 0 <= j < |before| && Heard(Run(before[..j]), before[j], r0.runId, r0.heartbeat);
          assert calls[j] == before[j] && calls[..j] == before[..j];
        }
      }
    }
  }

  lemma MotionStep(r: Runner, c: Call, out: Out)
    requires Inv(r) && out in Apply(r, c).outs && Moves(out)
    ensures c.Clock? && r.mode == Blockly && r.plan != [] && InTouch(r, c.at, c.at2)
    ensures AbsReal(out.v) <= 0.8 && AbsReal(out.w) <= 1.5
  {
    hide CheckPlan, Acceptable, WellFormed, Centred;
  }

  /**
   * A command that moves is published only by a tick in Blockly mode, within 1.2 s of a heartbeat
   * or start request heard for this very run, with an odometry message less than 0.7 s old when
   * that is looked at (or none at all in the clock's first 0.7 s), and stays within the limits.
   */
  lemma MotionIsFresh(calls: seq<Call>, c: Call, out: Out)
    requires out in Apply(Run(calls), c).outs && Moves(out)
    ensures c.Clock? && Run(calls).mode == Blockly
    ensures c.at2 - LastOdometry(calls) < 0.7
    ensures exists k, t :: 0 <= k < |calls| && Heard(Run(calls[..k]), calls[k], Run(calls).runId, t) && c.at - t <= 1.2
    ensures AbsReal(out.v) <= 0.8 && AbsReal(out.w) <= 1.5
  {
    hide Apply, Inv, Run, Heard, Submitted;
    MotionStep(Run(calls), c, out);
    OdometryIsLatest(calls);
    PlanHasOrigin(calls);
  }

  /** The last message of the controller was heard at `time`. */
  predicate LastJoyAt(calls: seq<Call>, k: nat, m: Joy, time: real) {
    k < |calls| && calls[k] == HearJoy(m, time) && forall i :: k < i < |calls| ==> !calls[i].HearJoy?
  }

  lemma JoyStep(r: Runner, c: Call)
    requires Inv(r) && (r.msg.Some? ==> r.mode == Controller)
    ensures var r' := Apply(r, c).after;
            r'.msg.Some? ==>
              && r'.mode == Controller
              && if c.HearJoy? then r'.msg == Some(c.msg) && r'.lastController == c.at
                 else r'.msg == r.msg && r'.lastController == r.lastController
  {
    hide CheckPlan, Acceptable, WellFormed, Centred, Bounded;
  }

  /** The message in hand is the last one the controller sent, and the time is that of its arrival. */
  lemma {:induction false} MessageHasOrigin(calls: seq<Call>)
    ensures Run(calls).msg.Some? ==>
              && Run(calls).mode == Controller
              && exists k: nat :: LastJoyAt(calls, k, Run(calls).msg.value, Run(calls).lastController)
    decreases |calls|
  {
    hide Apply, Inv;
    if calls != [] {
      var before, c := calls[..|calls| - 1], calls[|calls| - 1];
      MessageHasOrigin(before);
      JoyStep(Run(before), c);
      if Run(calls).msg.Some? {
        if c.HearJoy? {
          assert LastJoyAt(calls, |calls| - 1, c.msg, c.at);
        } else {
          var k: nat :| LastJoyAt(before, k, Run(before).msg.value, Run(before).lastController);
          assert LastJoyAt(calls, k, Run(calls).msg.value, Run(calls).lastController);
        }
      }
    }
  }

  /**
   * A controller's message is passed on only while armed: it is the last one heard, at most 0.5 s ago,
   * in range and with the stop button up, on odometry younger than 0.7 s.
   */
  lemma ForwardIsFresh(calls: seq<Call>, c: Call, m: Joy)
    requires Forward(m) in Apply(Run(calls), c).outs
    ensures c.Clock? && Run(calls).mode == Controller && Run(calls).armed
    ensures exists k: nat, t: real :: LastJoyAt(calls, k, m, t) && c.at - t <= 0.5
    ensures c.at2 - LastOdometry(calls) < 0.7
    ensures InRangeAxes(m) && |m.buttons| >= 2 && m.buttons[1] == 0
  {
    hide CheckPlan, Acceptable, WellFormed, Centred, Run;
    OdometryIsLatest(calls);
    MessageHasOrigin(calls);
    var k: nat :| LastJoyAt(calls, k, m, Run(calls).lastController);
    WellFormedMeans(m);
  }

  lemma WellFormedMeans(m: Joy)
    ensures WellFormed(m) <==> InRangeAxes(m) && |m.buttons| >= 2
  {
  }

  // ----- arming ------------------------------------------------------------------------------------

  /** Three axes or more, every one of them a number from -1 to 1. */
  predicate InRangeAxes(m: Joy) {
    |m.axes| >= 3 && forall i :: 0 <= i < |m.axes| ==> m.axes[i].Finite? && -1.0 <= m.axes[i].x <= 1.0
  }

  /** The message that arms: sticks centred, start button down, stop button up. */
  predicate Arms(m: Joy) {
    && InRangeAxes(m) && |m.buttons| >= 2 && m.buttons[0] != 0 && m.buttons[1] == 0
    && AbsReal(m.axes[0].x) < 0.05 && AbsReal(m.axes[1].x) < 0.05 && AbsReal(m.axes[2].x) < 0.05
  }

  /** What takes the arming away, besides a stop. */
  predicate Disarms(r: Runner, c: Call) {
    || (c.HearJoy? && !(InRangeAxes(c.msg) && |c.msg.buttons| >= 2 && c.msg.buttons[1] == 0))
    || (c.Clock? && (c.at - r.lastController > 0.5 || !Ready(r, c.at2)))
    || (c.Ask? && c.q.path == SetMode && (c.q.mode == Text("blockly") || c.q.mode == Text("controller")))
    || (c.Ask? && c.q.path == StopPlan && GoodId(c.q.id) && c.q.id.text == r.runId && |r.cancelled| <= 10000)
  }

  /**
   * Armed after a call exactly if the call armed, or it was armed and the call did not disarm: the
   * remembered `controller_neutral` never decides it.
   */
  lemma ArmedExactlyWhen(r: Runner, c: Call)
    requires Inv(r) && r.mode == Controller
    ensures Apply(r, c).after.armed <==> (c.HearJoy? && Arms(c.msg)) || (r.armed && !Disarms(r, c))
  {
    hide CheckPlan, Acceptable;
  }

  /**
   * So the flag can be left out: with the other value of it the same is published and answered, and
   * afterwards the runners again differ in it at most.
   */
  lemma NeutralIsNotNeeded(r: Runner, flag: bool, c: Call)
    requires Inv(r)
    ensures var e, e' := Apply(r, c), Apply(r.(neutral := flag), c);
            && e.outs == e'.outs && e.refusal == e'.refusal
            && e'.after == e.after.(neutral := e'.after.neutral)
  {
    hide CheckPlan, Acceptable, Bounded;
    match c
    case HearJoy(m, now) =>
    case HearOdometry(now) =>
    case Clock(now, now2) =>
    case Ask(q, now, now2) =>
      NeutralInRequests(r, flag, q, now, now2);
  }

  lemma NeutralInRequests(r: Runner, flag: bool, q: Request, now: real, now2: real)
    ensures var e, e' := Command(r, q, now, now2), Command(r.(neutral := flag), q, now, now2);
            && e.outs == e'.outs && e.refusal == e'.refusal
            && e'.after == e.after.(neutral := e'.after.neutral)
  {
    hide CheckPlan, Acceptable;
  }
}
