/**
 * The Blockly plan runner: what a plan must be, what each call does to the runner, and what it
 * publishes. Times are the readings of the monotonic clock the call makes.
 */
module PlanRunner {
  import opened Common

  // ----- plans ---------------------------------------------------------------------------------

  datatype Json =
    | Null
    | Bool(on: bool)
    | Integer(n: int)
    | Float(x: real)
    | NotFinite
    | Text(text: string)
    | List(items: seq<Json>)
    | Object(fields: map<string, Json>)

  datatype Step = Step(v: real, w: real, seconds: real)

  datatype Fault = BadCount | BadShape(at: nat) | OutOfRange(at: nat, field: string) | TooShort(at: nat) | TooLong

  datatype Checked = Plan(steps: seq<Step>) | Refused(fault: Fault)

  const FIELDS := [("v", 0.8), ("w", 1.5), ("seconds", 10.0)]

  /** Booleans are not numbers here. */
  function NumberOf(j: Json): Option<real> {
    match j
    case Integer(n) => Some(n as real)
    case Float(x) => Some(x)
    case _ => None
  }

  predicate InRange(j: Json, limit: real) {
    NumberOf(j).Some? && AbsReal(NumberOf(j).value) <= limit
  }

  predicate HasShape(j: Json) {
    j.Object? && j.fields.Keys == {"v", "w", "seconds"}
  }

  predicate GoodStep(j: Json) {
    && HasShape(j)
    && InRange(j.fields["v"], 0.8)
    && InRange(j.fields["w"], 1.5)
    && InRange(j.fields["seconds"], 10.0)
    && NumberOf(j.fields["seconds"]).value >= 0.1
  }

  function StepOf(j: Json): Step
    requires GoodStep(j)
  {
    Step(NumberOf(j.fields["v"]).value, NumberOf(j.fields["w"]).value, NumberOf(j.fields["seconds"]).value)
  }

  predicate GoodSteps(items: seq<Json>) {
    forall i :: 0 <= i < |items| ==> GoodStep(items[i])
  }

  function StepsOf(items: seq<Json>): (steps: seq<Step>)
    requires GoodSteps(items)
    ensures |steps| == |items|
    ensures forall i :: 0 <= i < |items| ==> steps[i] == StepOf(items[i])
  {
    seq(|items|, i requires 0 <= i < |items| => StepOf(items[i]))
  }

  function TotalSeconds(steps: seq<Step>): real {
    if steps == [] then 0.0 else TotalSeconds(steps[..|steps| - 1]) + steps[|steps| - 1].seconds
  }

  predicate Acceptable(value: Json) {
    && value.List? && 1 <= |value.items| <= 200
    && GoodSteps(value.items)
    && TotalSeconds(StepsOf(value.items)) <= 120.0
  }

  /** The first thing wrong with step `i`, in the order it is looked for. */
  function FirstFault(j: Json, i: nat): Option<Fault> {
    if !HasShape(j) then Some(BadShape(i))
    else if !InRange(j.fields["v"], 0.8) then Some(OutOfRange(i, "v"))
    else if !InRange(j.fields["w"], 1.5) then Some(OutOfRange(i, "w"))
    else if !InRange(j.fields["seconds"], 10.0) then Some(OutOfRange(i, "seconds"))
    else if NumberOf(j.fields["seconds"]).value < 0.1 then Some(TooShort(i))
    else None
  }

  /** The fault of the first faulty step from `i` on. */
  function FaultFrom(items: seq<Json>, i: nat): (fault: Option<Fault>)
    requires i <= |items|
    ensures fault.None? <==> forall k :: i <= k < |items| ==> GoodStep(items[k])
    ensures fault.Some? ==> fault.value != BadCount && fault.value != TooLong
    ensures fault.Some? ==> i <= fault.value.at < |items| && FirstFault(items[fault.value.at], fault.value.at) == fault
    ensures fault.Some? ==> forall k :: i <= k < fault.value.at ==> GoodStep(items[k])
    decreases |items| - i
  {
    if i == |items| then None
    else if FirstFault(items[i], i).Some? then FirstFault(items[i], i)
    else FaultFrom(items, i + 1)
  }

  function CheckPlan(value: Json): (c: Checked)
    ensures c.Plan? <==> Acceptable(value)
    ensures c.Plan? ==> c.steps == StepsOf(value.items)
  {
    if !value.List? || !(1 <= |value.items| <= 200) then Refused(BadCount)
    else if FaultFrom(value.items, 0).Some? then Refused(FaultFrom(value.items, 0).value)
    else if TotalSeconds(StepsOf(value.items)) > 120.0 then Refused(TooLong)
    else Plan(StepsOf(value.items))
  }

  /** The checks on one step: its fields in turn, then the shortest time. */
  method CheckStep(step: Json, at: nat) returns (fault: Option<Fault>)
    ensures fault == FirstFault(step, at)
    ensures fault.None? <==> GoodStep(step)
  {
    if !HasShape(step) {
      return Some(BadShape(at));
    }
    for f := 0 to |FIELDS|
      invariant forall g :: 0 <= g < f ==> InRange(step.fields[FIELDS[g].0], FIELDS[g].1)
    {
      assert f > 0 ==> InRange(step.fields[FIELDS[0].0], FIELDS[0].1);
      assert f > 1 ==> InRange(step.fields[FIELDS[1].0], FIELDS[1].1);
      var x := NumberOf(step.fields[FIELDS[f].0]);
      if x.None? || AbsReal(x.value) > FIELDS[f].1 {
        return Some(OutOfRange(at, FIELDS[f].0));
      }
    }
    assert InRange(step.fields[FIELDS[0].0], FIELDS[0].1) && InRange(step.fields[FIELDS[1].0], FIELDS[1].1)
        && InRange(step.fields[FIELDS[2].0], FIELDS[2].1);
    if NumberOf(step.fields["seconds"]).value < 0.1 {
      return Some(TooShort(at));
    }
    fault := None;
  }

  method Sum(steps: seq<Step>) returns (total: real)
    ensures total == TotalSeconds(steps)
  {
    total := 0.0;
    for i := 0 to |steps|
      invariant total == TotalSeconds(steps[..i])
    {
      assert steps[..i + 1][..i] == steps[..i];
      total := total + steps[i].seconds;
    }
    assert steps[..|steps|] == steps;
  }

  /** Accepts exactly the acceptable plans, unchanged; a refusal names the first fault there is. */
  method ValidatePlan(value: Json) returns (r: Checked)
    ensures r == CheckPlan(value)
    ensures r.Plan? <==> Acceptable(value)
    ensures r.Plan? ==> r.steps == StepsOf(value.items)
  {
    if !value.List? || !(1 <= |value.items| <= 200) {
      return Refused(BadCount);
    }
    hide GoodStep, FirstFault, StepOf, TotalSeconds;
    var items, result := value.items, [];
    for i := 0 to |items|
      invariant GoodSteps(items[..i]) && result == StepsOf(items[..i])
      invariant FaultFrom(items, 0) == FaultFrom(items, i)
    {
      var fault := CheckStep(items[i], i);
      if fault.Some? {
        return Refused(fault.value);
      }
      assert GoodStep(items[i]) && items[..i + 1] == items[..i] + [items[i]];
      result := result + [StepOf(items[i])];
    }
    assert items[..|items|] == items;
    var total := Sum(result);
    if total > 120.0 {
      return Refused(TooLong);
    }
    return Plan(result);
  }

  // ----- the runner ----------------------------------------------------------------------------

  datatype Mode = Blockly | Controller

  datatype Axis = Finite(x: real) | Unusable

  datatype Joy = Joy(axes: seq<Axis>, buttons: seq<int>)

  datatype Reason = Waiting | Lost | Switched | StoppedByPage | Completed | Running

  /** `index` is -1 while the stop gates are given time to open. */
  datatype Runner = Runner(
    mode: Mode,
    armed: bool,
    neutral: bool,
    lastController: real,
    msg: Option<Joy>,
    lastOdom: real,
    plan: seq<Step>,
    runId: string,
    cancelled: set<string>,
    index: int,
    deadline: real,
    heartbeat: real,
    reason: Reason)

  const START := Runner(Blockly, false, false, 0.0, None, 0.0, [], "", {}, 0, 0.0, 0.0, Waiting)

  /** What is published: a command of the runner's own, or the controller's message as it came. */
  datatype Out = Drive(v: real, w: real, active: bool) | Forward(msg: Joy)

  const HALT := Drive(0.0, 0.0, false)

  datatype Path = SetMode | StopPlan | Heartbeat | RunPlan | Elsewhere

  /** A request to the local web interface; a field that is absent reads as null. */
  datatype Request = Request(path: Path, mode: Json, id: Json, plan: Json)

  datatype Refusal =
    UnknownMode | BadId | Restart | WrongMode | BadPlan(fault: Fault) | AlreadyUsed | Busy | NotConnected | UnknownPath

  datatype Effect = Effect(after: Runner, outs: seq<Out>, refusal: Option<Refusal>)

  predicate Placed(r: Runner) {
    r.plan != [] ==> -1 <= r.index < |r.plan|
  }

  predicate Ready(r: Runner, now: real) {
    now - r.lastOdom < 0.7
  }

  function Stopped(r: Runner, reason: Reason): Runner {
    r.(plan := [], armed := false, neutral := false, reason := reason)
  }

  predicate WellFormed(m: Joy) {
    && |m.axes| >= 3 && |m.buttons| >= 2
    && forall i :: 0 <= i < |m.axes| ==> m.axes[i].Finite? && AbsReal(m.axes[i].x) <= 1.0
  }

  predicate Centred(m: Joy)
    requires WellFormed(m)
  {
    forall i :: 0 <= i < 3 ==> AbsReal(m.axes[i].x) < 0.05
  }

  function HearController(r: Runner, m: Joy, now: real): Runner {
    if r.mode != Controller then r
    else if !WellFormed(m) then r.(lastController := now, armed := false, msg := None)
    else
      var off := m.buttons[1] != 0;
      var neutral := Centred(m) || (r.neutral && !off);
      var arm := neutral && Centred(m) && m.buttons[0] != 0 && !off;
      r.(lastController := now, neutral := neutral, armed := arm || (r.armed && !off), msg := Some(m))
  }

  predicate InTouch(r: Runner, now: real, now2: real) {
    now - r.heartbeat <= 1.2 && Ready(r, now2)
  }

  function Advance(r: Runner, now: real): Effect
    requires Placed(r) && r.plan != []
  {
    if r.index == -1 && now < r.deadline then Effect(r, [Drive(0.0, 0.0, true)], None)
    else if now < r.deadline then Effect(r, [Drive(r.plan[r.index].v, r.plan[r.index].w, true)], None)
    else
      var k := r.index + 1;
      if k >= |r.plan| then Effect(Stopped(r.(index := k), Completed), [HALT], None)
      else Effect(r.(index := k, deadline := now + r.plan[k].seconds), [Drive(r.plan[k].v, r.plan[k].w, true)], None)
  }

  function Tick(r: Runner, now: real, now2: real): Effect
    requires Placed(r)
  {
    if r.mode == Controller then
      var r1 := if now - r.lastController > 0.5 || !Ready(r, now2) then r.(armed := false, neutral := false) else r;
      Effect(r1, [if r1.armed && r1.msg.Some? then Forward(r1.msg.value) else HALT], None)
    else if r.plan == [] then Effect(r, [HALT], None)
    else if !InTouch(r, now, now2) then Effect(Stopped(r, Lost), [HALT, HALT], None)
    else Advance(r, now)
  }

  predicate GoodId(j: Json) {
    j.Text? && 1 <= |j.text| <= 80
  }

  function Refuse(r: Runner, why: Refusal): Effect {
    Effect(r, [], Some(why))
  }

  function SwitchMode(r: Runner, asked: Json): Effect {
    if asked != Text("blockly") && asked != Text("controller") then Refuse(r, UnknownMode) else
      var r1 := Stopped(r.(cancelled := if r.runId != "" then r.cancelled + {r.runId} else r.cancelled), Switched);
      Effect(r1.(mode := if asked == Text("blockly") then Blockly else Controller, lastController := 0.0, msg := None),
             [HALT], None)
  }

  function StopRun(r: Runner, id: string): Effect {
    if |r.cancelled| > 10000 then Refuse(r, Restart) else
      var r1 := r.(cancelled := r.cancelled + {id});
      if id == r.runId then Effect(Stopped(r1, StoppedByPage), [HALT], None) else Effect(r1, [], None)
  }

  function StartRun(r: Runner, id: string, value: Json, now: real, now2: real): Effect {
    if r.mode != Blockly then Refuse(r, WrongMode)
    else if CheckPlan(value).Refused? then Refuse(r, BadPlan(CheckPlan(value).fault))
    else if id in r.cancelled || id == r.runId then Refuse(r, AlreadyUsed)
    else if r.plan != [] then Refuse(r, Busy)
    else if !Ready(r, now) then Refuse(r, NotConnected)
    else
      Effect(r.(runId := id, plan := CheckPlan(value).steps, index := -1, heartbeat := now2, deadline := now2 + 0.4,
                reason := Running), [], None)
  }

  /** One request; a refused one changes nothing. */
  function Command(r: Runner, q: Request, now: real, now2: real): Effect {
    if q.path == SetMode then SwitchMode(r, q.mode)
    else if !GoodId(q.id) then Refuse(r, BadId)
    else match q.path
      case StopPlan => StopRun(r, q.id.text)
      case Heartbeat =>
        Effect(if q.id.text == r.runId && r.plan != [] then r.(heartbeat := now) else r, [], None)
      case RunPlan => StartRun(r, q.id.text, q.plan, now, now2)
      case _ => Refuse(r, UnknownPath)
  }
}
