/** The driving session as the object the bridge holds; every method is proved against `DriveModel`. */
module DriveSession {
  import opened Common
  import opened DriveModel
  import Laws = DriveLaws

  class DriveSession {
    const timing: Timing
    var blockers: map<Blocker, Detail>
    var arbiter: Option<Arbiter>
    var driveSubscribed: bool
    var countAtStart: int
    var seenLab: bool
    var owner: Client
    var linear: real
    var angular: real
    var heardAt: real
    var startedAt: real
    var holdUntil: Option<real>
    var guard: (Client, real)
    var needsNeutral: set<Client>
    var lastStop: Option<LastStop>
    var version: nat

    function View(): Session
      reads this
    {
      Session(blockers, arbiter, driveSubscribed, countAtStart, seenLab, owner, linear, angular, heardAt, startedAt,
              holdUntil, guard.0, guard.1, needsNeutral, lastStop, version)
    }

    /** The state is safe: what `DriveLaws` proves of every reachable session. */
    ghost predicate Valid()
      reads this
    {
      Laws.Safe(View())
    }

    constructor (timing: Timing)
      ensures View() == START && this.timing == timing && Valid()
    {
      this.timing := timing;
      blockers := map[NoDriveNode := Flag, EstopUnknown := Flag];
      arbiter, driveSubscribed, countAtStart, seenLab := None, false, 0, false;
      owner, linear, angular, heardAt, startedAt := None, 0.0, 0.0, 0.0, 0.0;
      holdUntil, guard, needsNeutral, lastStop, version := None, (None, 0.0), {}, None, 0;
    }

    method SetBlocker(code: Blocker, detail: Option<Detail>, now: real)
      modifies this
      ensures View() == DriveModel.SetBlocker(old(View()), timing, code, detail, now)
    {
      var before := if code in blockers then Some(blockers[code]) else None;
      match detail {
        case None => blockers := blockers - {code};
        case Some(d) => blockers := blockers[code := d];
      }
      if before != detail {
        version := version + 1;
        if detail.Some? && owner.Some? {
          EndRun(Blocked(code), None, now);
        }
      }
    }

    /** A run that ends leaves its owner a neutral command to send, and a guard if another ended it. */
    method RecordDebt(byWhom: Client, now: real)
      modifies this`needsNeutral, this`guard
      ensures needsNeutral == if owner.Some? then old(needsNeutral) + {owner} else old(needsNeutral)
      ensures guard == if owner.Some? && byWhom != owner then (owner, now + RESTART_GUARD_SEC) else old(guard)
    {
      if owner.Some? {
        needsNeutral := needsNeutral + {owner};
      }
      if owner.Some? && byWhom != owner {
        guard := (owner, now + RESTART_GUARD_SEC);
      }
    }

    method EndRun(reason: EndReason, byWhom: Client, now: real)
      modifies this
      ensures View() == End(old(View()), timing, reason, byWhom, now)
    {
      RecordDebt(byWhom, now);
      owner := None;
      linear, angular := 0.0, 0.0;
      holdUntil := Some(now + timing.stopHoldSec);
      lastStop := Some(LastStop(reason, byWhom));
      version := version + 1;
      ghost var wanted := End(old(View()), timing, reason, byWhom, now);
      assert View().needsNeutral == wanted.needsNeutral && View().guardClient == wanted.guardClient;
      assert View().guardUntil == wanted.guardUntil && View().holdUntil == wanted.holdUntil;
      assert View().lastStop == wanted.lastStop && View().version == wanted.version;
    }

    method SetDriveNode(now: real)
      modifies this
      ensures View() == DriveModel.SetDriveNode(old(View()), timing, now)
    {
      var present := driveSubscribed && arbiter.Some?;
      SetBlocker(NoDriveNode, if present then None else Some(Flag), now);
    }

    method SetGraph(others: set<string>, subscribed: bool, now: real)
      requires Valid()
      modifies this
      ensures Valid() && View() == DriveModel.SetGraph(old(View()), timing, others, subscribed, now)
    {
      hide DriveModel.SetBlocker;
      Laws.StepIsSafe(View(), timing, CallGraph(others, subscribed, now));
      SetBlocker(OtherPublisher, if others != {} then Some(Nodes(others)) else None, now);
      driveSubscribed := subscribed;
      SetDriveNode(now);
    }

    method SetEmergencyStop(active: bool, now: real)
      requires Valid()
      modifies this
      ensures Valid() && View() == Step(old(View()), timing, CallEmergencyStop(active, now))
    {
      hide DriveModel.SetBlocker;
      Laws.StepIsSafe(View(), timing, CallEmergencyStop(active, now));
      SetBlocker(EmergencyStop, if active then Some(Flag) else None, now);
    }

    method SetEstopKnown(known: bool, now: real)
      requires Valid()
      modifies this
      ensures Valid() && View() == Step(old(View()), timing, CallEstopKnown(known, now))
    {
      hide DriveModel.SetBlocker;
      Laws.StepIsSafe(View(), timing, CallEstopKnown(known, now));
      SetBlocker(EstopUnknown, if known then None else Some(Flag), now);
    }

    method SetMotionPermission(allowed: bool, now: real)
      requires Valid()
      modifies this
      ensures Valid() && View() == Step(old(View()), timing, CallMotionPermission(allowed, now))
    {
      hide DriveModel.SetBlocker;
      Laws.StepIsSafe(View(), timing, CallMotionPermission(allowed, now));
      SetBlocker(NoMotionPermission, if allowed then None else Some(Flag), now);
    }

    method SetArbiter(status: Option<Arbiter>, now: real)
      requires Valid()
      modifies this
      ensures Valid() && View() == DriveModel.SetArbiter(old(View()), timing, status, now)
    {
      hide DriveModel.SetBlocker, DriveModel.SetDriveNode, DriveModel.FollowArbiter, Laws.Safe;
      Laws.StepIsSafe(View(), timing, CallArbiter(status, now));
      var beforeAllowed, beforeLimits := Allowed(arbiter), Limits(arbiter);
      arbiter := status;
      if Allowed(arbiter) != beforeAllowed || Limits(arbiter) != beforeLimits {
        version := version + 1;
      }
      SetBlocker(NotAllowed, if arbiter.Some? && !Allowed(arbiter) then Some(Flag) else None, now);
      SetDriveNode(now);
      if owner.None? || status.None? {
        return;
      }
      FollowArbiter(status.value, now);
    }

    method FollowArbiter(a: Arbiter, now: real)
      modifies this
      ensures View() == DriveModel.FollowArbiter(old(View()), timing, a, now)
    {
      if a.labCount.None? || a.labCount.value <= countAtStart {
        return;
      }
      if a.activeSource == "lab" {
        seenLab := true;
      }
      var tookOver := seenLab && a.activeSource != "lab" && a.switchReason == "controller";
      if a.labRefusal == "controller" || a.labRefusal == "locked" || tookOver {
        EndRun(Controller, None, now);
      }
    }

    /** The first blocker in display order. */
    method FirstOf() returns (first: Option<Blocker>)
      ensures first == FirstBlocker(blockers, BLOCKER_ORDER)
    {
      for i := 0 to |BLOCKER_ORDER|
        invariant FirstBlocker(blockers, BLOCKER_ORDER[i..]) == FirstBlocker(blockers, BLOCKER_ORDER)
      {
        if BLOCKER_ORDER[i] in blockers {
          return Some(BLOCKER_ORDER[i]);
        }
      }
      first := None;
    }

    method Request(client: Client, linearAsked: Number, angularAsked: Number, now: real) returns (reply: Reply)
      requires Valid()
      modifies this
      ensures Valid()
      ensures (View(), reply) == DriveModel.Request(old(View()), timing, client, linearAsked, angularAsked, now)
    {
      hide Laws.Safe, Accept, FirstBlocker;
      Laws.StepIsSafe(View(), timing, CallRequest(client, linearAsked, angularAsked, now));
      if client.Some? && client == guard.0 && now < guard.1 {
        return Stale;
      }
      var first := FirstOf();
      if first.Some? {
        needsNeutral := needsNeutral + {client};
        return BlockedBy(first.value);
      }
      if owner.Some? && owner != client {
        return Busy;
      }
      if linearAsked.NotNumber? || angularAsked.NotNumber? {
        if owner == client {
          EndRun(BadValue, client, now);
        }
        return Invalid;
      }
      var l, a := linearAsked.value, angularAsked.value;
      if client in needsNeutral {
        if l != 0.0 || a != 0.0 {
          return NeedsNeutral;
        }
      }
      AcceptCommand(client, l, a, now);
      reply := Accepted;
    }

    method AcceptCommand(client: Client, l: real, a: real, now: real)
      modifies this
      ensures View() == Accept(old(View()), client, l, a, now)
    {
      hide DriveModel.BeginRun;
      needsNeutral := needsNeutral - {client};
      if owner.None? {
        BeginRun(client, now);
      }
      if l != linear || a != angular {
        version := version + 1;
      }
      linear, angular := l, a;
      heardAt := now;
    }

    method BeginRun(client: Client, now: real)
      modifies this
      ensures View() == DriveModel.BeginRun(old(View()), client, now)
    {
      owner := client;
      startedAt := now;
      countAtStart := if arbiter.Some? && arbiter.value.labCount.Some? then arbiter.value.labCount.value else 0;
      seenLab := false;
      lastStop := None;
      version := version + 1;
    }

    method Stop(client: Client, now: real, onlyOwn: bool) returns (ended: bool)
      requires Valid()
      modifies this
      ensures Valid()
      ensures (View(), ended) == DriveModel.Stop(old(View()), timing, client, now, onlyOwn)
    {
      Laws.StepIsSafe(View(), timing, CallStop(client, now, onlyOwn));
      if onlyOwn && owner != client {
        return false;
      }
      if owner.Some? {
        EndRun(Stopped, client, now);
        return true;
      }
      ended := false;
    }

    method Disconnect(client: Client, now: real)
      requires Valid()
      modifies this
      ensures Valid() && View() == DriveModel.Disconnect(old(View()), timing, client, now)
    {
      Laws.StepIsSafe(View(), timing, CallDisconnect(client, now));
      if owner == client {
        EndRun(Disconnected, client, now);
      }
      needsNeutral := needsNeutral - {client};
    }

    method Tick(now: real) returns (command: Option<(real, real)>)
      requires Valid()
      modifies this
      ensures Valid()
      ensures (View(), command) == DriveModel.Tick(old(View()), timing, now)
    {
      Laws.StepIsSafe(View(), timing, CallTick(now));
      if owner.Some? {
        if now - heardAt > timing.deadmanSec {
          EndRun(Timeout, None, now);
        } else if now - startedAt > timing.maxRunSec {
          EndRun(TimeLimit, None, now);
        } else {
          if now - startedAt < STARTUP_NEUTRAL_SEC {
            return Some((0.0, 0.0));
          }
          return Some((linear, angular));
        }
      }
      if holdUntil.Some? && now < holdUntil.value {
        return Some((0.0, 0.0));
      }
      command := None;
    }
  }
}
