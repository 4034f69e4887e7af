/** The plan runner as the object the bridge node is; every method is proved against `PlanRunner`. */
module PlanBridge {
  import opened Common
  import opened PlanRunner
  import Laws = PlanLaws

  class Bridge {
    var mode: Mode
    var controllerArmed: bool
    var controllerNeutral: bool
    var lastController: real
    var controllerMsg: Option<Joy>
    var lastOdom: real
    var plan: seq<Step>
    var runId: string
    var cancelled: set<string>
    var index: int
    var deadline: real
    var heartbeat: real
    var reason: Reason
    ghost var published: seq<Out>

    ghost function View(): Runner
      reads this
    {
      Runner(mode, controllerArmed, controllerNeutral, lastController, controllerMsg, lastOdom, plan, runId, cancelled,
             index, deadline, heartbeat, reason)
    }

    /** The runner is in a state that `PlanLaws` proves of every run. */
    ghost predicate Valid()
      reads this
    {
      Laws.Inv(View())
    }

    constructor ()
      ensures Valid() && View() == START && published == []
    {
      mode, controllerArmed, controllerNeutral, lastController, controllerMsg := Blockly, false, false, 0.0, None;
      lastOdom, plan, runId, cancelled, index := 0.0, [], "", {}, 0;
      deadline, heartbeat, reason, published := 0.0, 0.0, Waiting, [];
    }

    method OnController(m: Joy, now: real)
      requires Valid()
      modifies this
      ensures Valid() && View() == HearController(old(View()), m, now) && published == old(published)
    {
      Laws.StepKeeps(View(), Laws.HearJoy(m, now));
      hide Laws.Inv;
      if mode != Controller {
        return;
      }
      lastController := now;
      if !WellFormed(m) {
        controllerArmed := false;
        controllerMsg := None;
        return;
      }
      if m.buttons[1] != 0 {
        controllerArmed := false;
        controllerNeutral := false;
      }
      var neutral := Centred(m);
      if neutral {
        controllerNeutral := true;
      }
      if controllerNeutral && neutral && m.buttons[0] != 0 && m.buttons[1] == 0 {
        controllerArmed := true;
      }
      controllerMsg := Some(m);
    }

    method OnOdom(now: real)
      requires Valid()
      modifies this
      ensures Valid() && View() == old(View()).(lastOdom := now) && published == old(published)
    {
      Laws.StepKeeps(View(), Laws.HearOdometry(now));
      hide Laws.Inv;
      lastOdom := now;
    }

    method Publish(out: Out)
      modifies this`published
      ensures published == old(published) + [out]
    {
      published := published + [out];
    }

    method Stop(why: Reason)
      modifies this
      ensures View() == Stopped(old(View()), why) && published == old(published) + [HALT]
    {
      plan, controllerArmed, controllerNeutral, reason := [], false, false, why;
      Publish(HALT);
    }

    method TickAt(now: real, now2: real)
      requires Valid()
      modifies this
      ensures Valid()
      ensures View() == Tick(old(View()), now, now2).after
      ensures published == old(published) + Tick(old(View()), now, now2).outs
    {
      Laws.StepKeeps(View(), Laws.Clock(now, now2));
      assert Placed(View());
      hide Laws.Inv;
      if mode == Controller {
        if now - lastController > 0.5 || !(now2 - lastOdom < 0.7) {
          controllerArmed := false;
          controllerNeutral := false;
        }
        if controllerArmed && controllerMsg.Some? {
          Publish(Forward(controllerMsg.value));
        } else {
          Publish(HALT);
        }
        return;
      }
      if plan != [] && (now - heartbeat > 1.2 || !(now2 - lastOdom < 0.7)) {
        Stop(Lost);
      }
      if plan == [] {
        Publish(HALT);
        return;
      }
      AdvancePlan(now);
    }

    /** The rest of a tick with a plan in hand: the opening time, then step after step. */
    method AdvancePlan(now: real)
      requires plan != [] && Placed(View())
      modifies this
      ensures View() == Advance(old(View()), now).after
      ensures published == old(published) + Advance(old(View()), now).outs
    {
      if index == -1 {
        if now < deadline {
          Publish(Drive(0.0, 0.0, true));
          return;
        }
        index := 0;
        deadline := now + plan[0].seconds;
      } else if now >= deadline {
        index := index + 1;
        if index >= |plan| {
          Stop(Completed);
          return;
        }
        deadline := now + plan[index].seconds;
      }
      Publish(Drive(plan[index].v, plan[index].w, true));
    }

    method OnCommand(q: Request, now: real, now2: real) returns (refusal: Option<Refusal>)
      requires Valid()
      modifies this
      ensures Valid()
      ensures var e := Command(old(View()), q, now, now2);
              View() == e.after && published == old(published) + e.outs && refusal == e.refusal
    {
      Laws.StepKeeps(View(), Laws.Ask(q, now, now2));
      hide SwitchMode, StopRun, StartRun, Laws.Inv;
      if q.path == SetMode {
        refusal := ChangeMode(q.mode);
        return;
      }
      if !q.id.Text? || !(1 <= |q.id.text| <= 80) {
        return Some(BadId);
      }
      var id := q.id.text;
      if q.path == StopPlan {
        refusal := CancelRun(id);
      } else if q.path == Heartbeat {
        if id == runId && plan != [] {
          heartbeat := now;
        }
        refusal := None;
      } else if q.path == RunPlan {
        refusal := BeginRun(id, q.plan, now, now2);
      } else {
        refusal := Some(UnknownPath);
      }
    }

    method ChangeMode(asked: Json) returns (refusal: Option<Refusal>)
      modifies this
      ensures var e := SwitchMode(old(View()), asked);
              View() == e.after && published == old(published) + e.outs && refusal == e.refusal
    {
      if asked != Text("blockly") && asked != Text("controller") {
        return Some(UnknownMode);
      }
      if runId != "" {
        cancelled := cancelled + {runId};
      }
      Stop(Switched);
      mode := if asked == Text("blockly") then Blockly else Controller;
      lastController, controllerMsg := 0.0, None;
      refusal := None;
    }

    method CancelRun(id: string) returns (refusal: Option<Refusal>)
      modifies this
      ensures var e := StopRun(old(View()), id);
              View() == e.after && published == old(published) + e.outs && refusal == e.refusal
    {
      if |cancelled| > 10000 {
        return Some(Restart);
      }
      cancelled := cancelled + {id};
      if id == runId {
        Stop(StoppedByPage);
      }
      refusal := None;
    }

    method BeginRun(id: string, value: Json, now: real, now2: real) returns (refusal: Option<Refusal>)
      modifies this
      ensures var e := StartRun(old(View()), id, value, now, now2);
              View() == e.after && published == old(published) + e.outs && refusal == e.refusal
    {
      hide CheckPlan, Acceptable;
      if mode != Blockly {
        return Some(WrongMode);
      }
      var checked := ValidatePlan(value);
      if checked.Refused? {
        return Some(BadPlan(checked.fault));
      }
      if id in cancelled || id == runId {
        return Some(AlreadyUsed);
      }
      if plan != [] {
        return Some(Busy);
      }
      if !(now - lastOdom < 0.7) {
        return Some(NotConnected);
      }
      runId, plan, index := id, checked.steps, -1;
      heartbeat := now2;
      deadline := heartbeat + 0.4;
      reason := Running;
      refusal := None;
    }
  }
}
