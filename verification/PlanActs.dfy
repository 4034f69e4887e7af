/**
 * What the plan runner does for those who use it right: which requests it accepts, what each tick
 * publishes, and that a plan it is kept in touch with is carried out to its end.
 */
module PlanActs {
  import opened Common
  import opened PlanRunner
  import opened PlanLaws

  // ----- requests ----------------------------------------------------------------------------------

  /**
   * A start is accepted exactly in Blockly mode, with an id of 1 to 80 characters that was neither
   * stopped nor just used, with an acceptable plan, no plan in hand, and odometry younger than 0.7 s.
   * Then the plan is in hand as it was sent, and counts as heard from.
   */
  lemma StartIsAcceptedExactlyWhen(calls: seq<Call>, q: Request, at: real, at2: real)
    requires q.path == RunPlan
    ensures var r, e := Run(calls), Apply(Run(calls), Ask(q, at, at2));
            && (e.refusal == None <==>
                  && r.mode == Blockly && q.id.Text? && 1 <= |q.id.text| <= 80
                  && q.id.text !in r.cancelled && q.id.text != r.runId
                  && Acceptable(q.plan) && r.plan == [] && at - LastOdometry(calls) < 0.7)
            && (e.refusal == None ==>
                  && e.after.runId == q.id.text && e.after.plan == StepsOf(q.plan.items) && e.after.index == -1
                  && e.after.heartbeat == at2 && e.after.deadline == at2 + 0.4 && e.after.reason == Running)
            && (e.refusal.Some? ==> e.after == r)
            && e.outs == []
  {
    hide Acceptable, Inv;
    OdometryIsLatest(calls);
  }

  /** In this state the call is an accepted stop of `id`, or a change of mode that counts as one. */
  predicate Cancels(r: Runner, c: Call, id: string) {
    || StopsRun(r, c, id)
    || (c.Ask? && c.q.path == SetMode && (c.q.mode == Text("blockly") || c.q.mode == Text("controller"))
        && r.runId == id && id != "")
  }

  lemma CancelledStep(r: Runner, c: Call, id: string)
    requires Inv(r)
    ensures id in Apply(r, c).after.cancelled <==> id in r.cancelled || Cancels(r, c, id)
  {
    hide CheckPlan, Acceptable, WellFormed, Centred, Bounded;
    match c
    case HearJoy(m, now) =>
    case HearOdometry(now) =>
    case Clock(now, now2) => hide Cancels, Inv; TickCancelsNothing(r, now, now2); NoCancel(r, c, id);
    case Ask(q, now, now2) => AskCancels(r, q, now, now2, id);
  }

  lemma NoCancel(r: Runner, c: Call, id: string)
    requires !c.Ask?
    ensures !Cancels(r, c, id)
  {
  }

  lemma TickCancelsNothing(r: Runner, now: real, now2: real)
    requires Placed(r)
    ensures Tick(r, now, now2).after.cancelled == r.cancelled
  {
  }

  lemma AskCancels(r: Runner, q: Request, now: real, now2: real, id: string)
    ensures id in Command(r, q, now, now2).after.cancelled <==> id in r.cancelled || Cancels(r, Ask(q, now, now2), id)
  {
    hide CheckPlan, Acceptable;
  }

  /** Some call before this point cancelled the id. */
  predicate WasCancelled(calls: seq<Call>, id: string) {
    exists k :: 0 <= k < |calls| && Cancels(Run(calls[..k]), calls[k], id)
  }

  lemma OneMoreCancel(before: seq<Call>, c: Call, id: string)
    ensures WasCancelled(before + [c], id) <==> WasCancelled(before, id) || Cancels(Run(before), c, id)
  {
    hide Run, Cancels;
    var calls := before + [c];
    assert calls[..|before|] == before;
    forall k | 0 <= k < |before| ensures calls[..k] == before[..k] && calls[k] == before[k] {
    }
    if WasCancelled(before, id) {
      var k :| 0 <= k < |before| && Cancels(Run(before[..k]), before[k], id);
      assert Cancels(Run(calls[..k]), calls[k], id);
    }
    if Cancels(Run(before), c, id) {
      assert Cancels(Run(calls[..|before|]), calls[|before|], id);
    }
  }

  /** An id is barred exactly if it was stopped, or was the current one when the mode was changed. */
  lemma {:induction false} BarredMeansStopped(calls: seq<Call>, id: string)
    ensures id in Run(calls).cancelled <==> WasCancelled(calls, id)
    decreases |calls|
  {
    hide Apply, Inv, Cancels, WasCancelled;
    if calls == [] {
      NobodyCancelled(id);
    } else {
      var before, c := calls[..|calls| - 1], calls[|calls| - 1];
      BarredMeansStopped(before, id);
      CancelledStep(Run(before), c, id);
      assert before + [c] == calls;
      OneMoreCancel(before, c, id);
    }
  }

  lemma NobodyCancelled(id: string)
    ensures !WasCancelled([], id)
  {
  }

  /** An accepted stop of the current run drops the plan and halts the robot at once; one of another changes nothing. */
  lemma StopHalts(r: Runner, q: Request, at: real, at2: real)
    requires Inv(r) && q.path == StopPlan && GoodId(q.id) && |r.cancelled| <= 10000
    ensures var e := Apply(r, Ask(q, at, at2));
            && e.refusal == None && q.id.text in e.after.cancelled
            && (q.id.text == r.runId ==> e.outs == [HALT] && e.after.plan == [] && !e.after.armed
                                         && e.after.reason == StoppedByPage)
            && (q.id.text != r.runId ==> e.outs == [] && e.after == r.(cancelled := e.after.cancelled))
  {
  }

  /** A change of mode is made for the two modes there are; it halts the robot and drops plan, arming and message. */
  lemma SwitchHalts(r: Runner, q: Request, at: real, at2: real)
    requires Inv(r) && q.path == SetMode
    ensures var e := Apply(r, Ask(q, at, at2));
            if q.mode == Text("blockly") || q.mode == Text("controller") then
              && e.refusal == None && e.outs == [HALT]
              && e.after.mode == (if q.mode == Text("blockly") then Blockly else Controller)
              && e.after.plan == [] && !e.after.armed && e.after.msg == None && e.after.reason == Switched
            else e.refusal.Some? && e.outs == [] && e.after == r
  {
    hide Inv;
  }

  // ----- ticks -------------------------------------------------------------------------------------

  /** In controller mode a tick passes the last message on exactly while armed, heard and connected. */
  lemma TickForwardsExactlyWhen(r: Runner, at: real, at2: real)
    requires Inv(r) && r.mode == Controller
    ensures var e := Apply(r, Clock(at, at2));
            var passes := r.armed && at - r.lastController <= 0.5 && at2 - r.lastOdom < 0.7;
            && (passes ==> r.msg.Some? && e.outs == [Forward(r.msg.value)] && e.after == r)
            && (!passes ==> e.outs == [HALT] && !e.after.armed)
            && e.after.plan == r.plan && e.after.mode == Controller
  {
    hide WellFormed;
  }

  /** The step whose time it is when a tick comes: the present one until its time is over, then the next. */
  function Due(r: Runner, at: real): int {
    if at < r.deadline then r.index else r.index + 1
  }

  /**
   * In Blockly mode a tick halts the robot without a plan; drops the plan exactly if the last sign of life
   * is older than 1.2 s or the odometry not younger than 0.7 s; ends it exactly when the time of its last
   * step is over; and otherwise publishes zero during the opening time and the step whose time it is after it.
   */
  lemma TickPublishes(r: Runner, at: real, at2: real)
    requires Inv(r) && r.mode == Blockly
    ensures var e := Apply(r, Clock(at, at2));
            if r.plan == [] then e.outs == [HALT] && e.after == r
            else if at - r.heartbeat > 1.2 || at2 - r.lastOdom >= 0.7 then
              e.outs == [HALT, HALT] && e.after.plan == [] && e.after.reason == Lost
            else if Due(r, at) == |r.plan| then
              e.outs == [HALT] && e.after.plan == [] && e.after.reason == Completed
            else
              && 0 <= Due(r, at) + 1 <= |r.plan|
              && e.outs == [if Due(r, at) == -1 then Drive(0.0, 0.0, true)
                            else Drive(r.plan[Due(r, at)].v, r.plan[Due(r, at)].w, true)]
              && e.after == r.(index := Due(r, at),
                               deadline := if at < r.deadline then r.deadline else at + r.plan[Due(r, at)].seconds)
  {
    hide Bounded;
  }

  // ----- a plan is carried out ---------------------------------------------------------------------

  /** The runner after these calls. */
  function From(r: Runner, calls: seq<Call>): (r': Runner)
    requires Inv(r)
    ensures Inv(r')
    decreases |calls|
  {
    if calls == [] then r else
      StepKeeps(r, calls[0]);
      From(Apply(r, calls[0]).after, calls[1..])
  }

  /** Calls that keep in touch with a plan: ticks in touch, odometry, heartbeats, and whatever the controller says. */
  predicate KeepsInTouch(r: Runner, c: Call) {
    match c
    case Clock(at, at2) => r.plan != [] ==> InTouch(r, at, at2)
    case Ask(q, _, _) => q.path == Heartbeat
    case _ => true
  }

  ghost predicate InTouchAll(r: Runner, calls: seq<Call>)
    requires Inv(r)
    decreases |calls|
  {
    calls != [] ==>
      && KeepsInTouch(r, calls[0])
      && (StepKeeps(r, calls[0]); InTouchAll(Apply(r, calls[0]).after, calls[1..]))
  }

  /** The ticks among these calls follow `since` and each other by `gap` at most. */
  predicate Regular(calls: seq<Call>, since: real, gap: real)
    decreases |calls|
  {
    calls != [] ==>
      if calls[0].Clock? then since <= calls[0].at <= since + gap && Regular(calls[1..], calls[0].at, gap)
      else Regular(calls[1..], since, gap)
  }

  function LastTick(calls: seq<Call>, since: real): real
    decreases |calls|
  {
    if calls == [] then since else LastTick(calls[1..], if calls[0].Clock? then calls[0].at else since)
  }

  /** The seconds of the steps behind step `i`, each with one gap for being late. */
  function Rest(plan: seq<Step>, i: int, gap: real): real
    requires -1 <= i < |plan|
    decreases |plan| - i
  {
    if i == |plan| - 1 then gap else gap + plan[i + 1].seconds + Rest(plan, i + 1, gap)
  }

  /** While in touch a plan goes on or is completed. */
  lemma TouchedStep(r: Runner, c: Call)
    requires Inv(r) && r.mode == Blockly && r.plan != [] && KeepsInTouch(r, c)
    ensures var r' := Apply(r, c).after;
            && r'.mode == Blockly
            && (!c.Clock? ==> r'.plan == r.plan && r'.index == r.index && r'.deadline == r.deadline)
            && (c.Clock? && c.at < r.deadline ==> r' == r)
            && (c.Clock? && c.at >= r.deadline && r.index + 1 == |r.plan| ==> r'.plan == [] && r'.reason == Completed)
            && (c.Clock? && c.at >= r.deadline && r.index + 1 < |r.plan| ==>
                  r'.plan == r.plan && r'.index == r.index + 1 && r'.deadline == c.at + r.plan[r.index + 1].seconds)
  {
    hide Bounded, WellFormed, Centred;
  }

  /** Afterwards nothing more happens. */
  lemma {:induction false} DoneStaysDone(r: Runner, calls: seq<Call>)
    requires Inv(r) && r.mode == Blockly && r.plan == [] && InTouchAll(r, calls)
    ensures From(r, calls).plan == [] && From(r, calls).reason == r.reason
    decreases |calls|
  {
    hide Bounded, WellFormed, Centred, Inv;
    if calls != [] {
      StepKeeps(r, calls[0]);
      DoneStaysDone(Apply(r, calls[0]).after, calls[1..]);
    }
  }

  lemma {:induction false} TouchedPlanCompletes(r: Runner, calls: seq<Call>, since: real, gap: real)
    requires Inv(r) && r.mode == Blockly && r.plan != [] && gap >= 0.0
    requires since <= r.deadline && InTouchAll(r, calls) && Regular(calls, since, gap)
    requires LastTick(calls, since) > r.deadline + Rest(r.plan, r.index, gap)
    ensures From(r, calls).plan == [] && From(r, calls).reason == Completed
    decreases |calls|
  {
    hide Apply, KeepsInTouch, Inv, Bounded;
    PlacedInv(r);
    RestIsPositive(r, r.index, gap);
    assert calls != [];
    var c, rest := calls[0], calls[1..];
    StepKeeps(r, c);
    TouchedStep(r, c);
    var r' := Apply(r, c).after;
    PlacedInv(r');
    if r'.plan == [] {
      DoneStaysDone(r', rest);
    } else {
      TouchedPlanCompletes(r', rest, if c.Clock? then c.at else since, gap);
    }
  }

  lemma PlacedInv(r: Runner)
    requires Inv(r)
    ensures r.plan != [] ==> -1 <= r.index < |r.plan|
    ensures forall i :: 0 <= i < |r.plan| ==> r.plan[i].seconds >= 0.1
  {
  }

  lemma {:induction false} RestIsPositive(r: Runner, i: int, gap: real)
    requires Inv(r) && r.plan != [] && -1 <= i < |r.plan| && gap >= 0.0
    ensures Rest(r.plan, i, gap) >= 0.0
    decreases |r.plan| - i
  {
    hide Inv;
    PlacedInv(r);
    if i < |r.plan| - 1 {
      RestIsPositive(r, i + 1, gap);
    }
  }

  lemma {:induction false} RunFrom(calls: seq<Call>, more: seq<Call>)
    ensures Run(calls + more) == From(Run(calls), more)
    decreases |more|
  {
    hide Apply, Inv;
    if more == [] {
      assert calls + more == calls;
    } else {
      var longer := calls + [more[0]];
      assert longer[..|longer| - 1] == calls;
      assert calls + more == longer + more[1..];
      RunFrom(longer, more[1..]);
    }
  }

  /** The time of a plan's steps, each with one gap. */
  lemma {:induction false} RestIsTotal(plan: seq<Step>, gap: real)
    requires plan != []
    ensures Rest(plan, -1, gap) == TotalSeconds(plan) + (|plan| + 1) as real * gap
  {
    RestAdds(plan, -1, gap);
    assert plan[..0] == [] && plan[..|plan|] == plan;
  }

  lemma {:induction false} RestAdds(plan: seq<Step>, i: int, gap: real)
    requires -1 <= i < |plan|
    ensures Rest(plan, i, gap) == TotalSeconds(plan) - TotalSeconds(plan[..i + 1]) + (|plan| - i) as real * gap
    decreases |plan| - i
  {
    if i == |plan| - 1 {
      assert plan[..i + 1] == plan;
    } else {
      RestAdds(plan, i + 1, gap);
      assert plan[..i + 2][..i + 1] == plan[..i + 1];
      assert (|plan| - i) as real * gap == gap + (|plan| - (i + 1)) as real * gap;
    }
  }

  /**
   * A plan that was accepted and is kept in touch with is carried out: once ticks that follow each other
   * by `gap` at most have gone on for the opening time, the seconds of all steps, and one gap for each step
   * and one more, it is completed.
   */
  lemma AcceptedPlanCompletes(calls: seq<Call>, q: Request, at: real, at2: real, more: seq<Call>, gap: real)
    requires q.path == RunPlan && Apply(Run(calls), Ask(q, at, at2)).refusal == None && gap >= 0.0
    requires InTouchAll(Run(calls + [Ask(q, at, at2)]), more) && Regular(more, at2, gap)
    requires var plan := Run(calls + [Ask(q, at, at2)]).plan;
             LastTick(more, at2) > at2 + 0.4 + TotalSeconds(plan) + (|plan| + 1) as real * gap
    ensures var r := Run(calls + [Ask(q, at, at2)] + more); r.plan == [] && r.reason == Completed
  {
    hide Apply, Inv, InTouchAll, Regular, LastTick, Rest, Acceptable;
    var start := calls + [Ask(q, at, at2)];
    assert start[..|start| - 1] == calls;
    StartIsAcceptedExactlyWhen(calls, q, at, at2);
    var r := Run(start);
    AcceptableIsNotEmpty(q.plan);
    BlocklyPlan(r);
    RestIsTotal(r.plan, gap);
    TouchedPlanCompletes(r, more, at2, gap);
    RunFrom(start, more);
  }

  lemma AcceptableIsNotEmpty(value: Json)
    requires Acceptable(value)
    ensures StepsOf(value.items) != []
  {
  }

  lemma BlocklyPlan(r: Runner)
    requires Inv(r) && r.plan != []
    ensures r.mode == Blockly
  {
  }

  // ----- signs of life -----------------------------------------------------------------------------

  /** The time the plan in hand was last heard from: its latest heartbeat, or its start. */
  function LastSign(calls: seq<Call>): real
    decreases |calls|
  {
    if calls == [] then 0.0 else
      var before, c := calls[..|calls| - 1], calls[|calls| - 1];
      var r := Run(before);
      if c.Ask? && c.q.path == Heartbeat && r.plan != [] && c.q.id == Text(r.runId) && GoodId(c.q.id) then c.at
      else if c.Ask? && c.q.path == RunPlan && Apply(r, c).refusal == None then c.at2
      else LastSign(before)
  }

  lemma SignStep(r: Runner, c: Call)
    requires Inv(r)
    ensures Apply(r, c).after.heartbeat ==
            if c.Ask? && c.q.path == Heartbeat && r.plan != [] && c.q.id == Text(r.runId) && GoodId(c.q.id) then c.at
            else if c.Ask? && c.q.path == RunPlan && Apply(r, c).refusal == None then c.at2
            else r.heartbeat
  {
    hide CheckPlan, Acceptable, WellFormed, Centred, Bounded;
  }

  /** Every heartbeat for the run in hand counts from its own time, and nothing else does but the start. */
  lemma {:induction false} HeartbeatIsLatest(calls: seq<Call>)
    ensures Run(calls).heartbeat == LastSign(calls)
    decreases |calls|
  {
    hide Apply, Inv;
    if calls != [] {
      HeartbeatIsLatest(calls[..|calls| - 1]);
      SignStep(Run(calls[..|calls| - 1]), calls[|calls| - 1]);
    }
  }

  // ----- what is refused, and what is taken as it was sent -----------------------------------------

  /** Every refusal has its one reason, and the first of them in this order is given. */
  lemma RefusalTells(r: Runner, q: Request, at: real, at2: real)
    requires Inv(r)
    ensures var why := Apply(r, Ask(q, at, at2)).refusal;
            var modes := q.mode == Text("blockly") || q.mode == Text("controller");
            var named := q.id.Text? && 1 <= |q.id.text| <= 80;
            match q.path
            case SetMode => why == if modes then None else Some(UnknownMode)
            case StopPlan =>
              why == if !named then Some(BadId) else if |r.cancelled| > 10000 then Some(Restart) else None
            case Heartbeat => why == if named then None else Some(BadId)
            case Elsewhere => why == Some(if named then UnknownPath else BadId)
            case RunPlan =>
              if !named then why == Some(BadId)
              else if r.mode != Blockly then why == Some(WrongMode)
              else if !Acceptable(q.plan) then why.Some? && why.value.BadPlan?
              else if q.id.text in r.cancelled || q.id.text == r.runId then why == Some(AlreadyUsed)
              else if r.plan != [] then why == Some(Busy)
              else if at - r.lastOdom >= 0.7 then why == Some(NotConnected)
              else why == None
  {
    hide Acceptable, Inv;
  }

  /** A field of a step holds this number, whole or not. */
  predicate Holds(j: Json, x: real) {
    j == Float(x) || (j.Integer? && j.n as real == x)
  }

  /** The steps of an accepted plan are those that were sent, field by field. */
  lemma StepsAreAsSent(value: Json, i: nat)
    requires CheckPlan(value).Plan? && i < |value.items|
    ensures var steps, sent := CheckPlan(value).steps, value.items[i];
            && |steps| == |value.items| && sent.Object? && sent.fields.Keys == {"v", "w", "seconds"}
            && Holds(sent.fields["v"], steps[i].v) && Holds(sent.fields["w"], steps[i].w)
            && Holds(sent.fields["seconds"], steps[i].seconds)
            && -0.8 <= steps[i].v <= 0.8 && -1.5 <= steps[i].w <= 1.5 && 0.1 <= steps[i].seconds <= 10.0
  {
    assert GoodStep(value.items[i]);
  }
}
