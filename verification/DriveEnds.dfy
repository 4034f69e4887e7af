/**
 * When a run ends and when it goes on: the exact end of every run, the silence after it, what the
 * owner's command comes to, and how the session's record of all this follows from the calls so far.
 */
module DriveEnds {
  import opened Common
  import opened DriveModel
  import opened DriveLaws

  // ----- what blocks -------------------------------------------------------------------------------

  /** What was last heard of the arbiter and of the drive topic. */
  function LastArbiter(calls: seq<Call>): Option<Arbiter>
    decreases |calls|
  {
    if calls == [] then None
    else if calls[|calls| - 1].CallArbiter? then calls[|calls| - 1].status
    else LastArbiter(calls[..|calls| - 1])
  }

  function LastSubscribed(calls: seq<Call>): bool
    decreases |calls|
  {
    if calls == [] then false
    else if calls[|calls| - 1].CallGraph? then calls[|calls| - 1].subscribed
    else LastSubscribed(calls[..|calls| - 1])
  }

  function LastOthers(calls: seq<Call>): set<string>
    decreases |calls|
  {
    if calls == [] then {}
    else if calls[|calls| - 1].CallGraph? then calls[|calls| - 1].others
    else LastOthers(calls[..|calls| - 1])
  }

  /** Pressed only once that was said; unknown and not permitted until the opposite was said. */
  function LastPressed(calls: seq<Call>): bool
    decreases |calls|
  {
    if calls == [] then false
    else if calls[|calls| - 1].CallEmergencyStop? then calls[|calls| - 1].active
    else LastPressed(calls[..|calls| - 1])
  }

  function LastUnknown(calls: seq<Call>): bool
    decreases |calls|
  {
    if calls == [] then true
    else if calls[|calls| - 1].CallEstopKnown? then !calls[|calls| - 1].known
    else LastUnknown(calls[..|calls| - 1])
  }

  function LastForbidden(calls: seq<Call>): bool
    decreases |calls|
  {
    if calls == [] then false
    else if calls[|calls| - 1].CallMotionPermission? then !calls[|calls| - 1].allowed
    else LastForbidden(calls[..|calls| - 1])
  }

  /** Why driving is not possible, from what was last said about it. */
  function Reported(calls: seq<Call>, code: Blocker): Option<Detail> {
    match code
    case EmergencyStop => FlagIf(LastPressed(calls))
    case EstopUnknown => FlagIf(LastUnknown(calls))
    case NoMotionPermission => FlagIf(LastForbidden(calls))
    case OtherPublisher => if LastOthers(calls) == {} then None else Some(Nodes(LastOthers(calls)))
    case NoDriveNode => FlagIf(!LastSubscribed(calls) || LastArbiter(calls).None?)
    case NotAllowed => FlagIf(LastArbiter(calls).Some? && !LastArbiter(calls).value.labPermitted)
  }

  lemma BlockerSets(s: Session, t: Timing, code: Blocker, detail: Option<Detail>, now: real, c: Blocker)
    ensures var s' := SetBlocker(s, t, code, detail, now);
            && Detailed(s', c) == (if c == code then detail else Detailed(s, c))
            && s'.arbiter == s.arbiter && s'.driveSubscribed == s.driveSubscribed
  {
  }

  /** The session shows as blockers exactly what was last reported. */
  predicate Current(s: Session, calls: seq<Call>, c: Blocker) {
    && Detailed(s, c) == Reported(calls, c)
    && s.arbiter == LastArbiter(calls) && s.driveSubscribed == LastSubscribed(calls)
  }

  lemma RequestLeavesBlockers(s: Session, t: Timing, client: Client, linear: Number, angular: Number, now: real)
    ensures var s' := Request(s, t, client, linear, angular, now).0;
            s'.blockers == s.blockers && s'.arbiter == s.arbiter && s'.driveSubscribed == s.driveSubscribed
  {
    hide FirstBlocker;
  }

  lemma ArbiterSets(s: Session, t: Timing, status: Option<Arbiter>, now: real, c: Blocker)
    ensures var s' := SetArbiter(s, t, status, now);
            && Detailed(s', c) == (match c
                                   case NotAllowed => FlagIf(status.Some? && !status.value.labPermitted)
                                   case NoDriveNode => FlagIf(!s.driveSubscribed || status.None?)
                                   case _ => Detailed(s, c))
            && s'.arbiter == status && s'.driveSubscribed == s.driveSubscribed
  {
    hide SetBlocker, Detailed, Limits;
    var s1 := s.(arbiter := status,
                 version := if Allowed(status) != Allowed(s.arbiter) || Limits(status) != Limits(s.arbiter)
                            then s.version + 1 else s.version);
    assert Detailed(s1, c) == Detailed(s, c) by { SameBlockers(s, s1, c); }
    var flag := FlagIf(status.Some? && !Allowed(status));
    BlockerSets(s1, t, NotAllowed, flag, now, c);
    var s2 := SetBlocker(s1, t, NotAllowed, flag, now);
    BlockerSets(s2, t, NoDriveNode, FlagIf(!(s2.driveSubscribed && s2.arbiter.Some?)), now, c);
    var s3 := SetDriveNode(s2, t, now);
    if s3.owner.Some? && status.Some? {
      FollowLeavesBlockers(s3, t, status.value, now);
      SameBlockers(s3, FollowArbiter(s3, t, status.value, now), c);
    }
  }

  lemma SameBlockers(a: Session, b: Session, c: Blocker)
    requires a.blockers == b.blockers
    ensures Detailed(a, c) == Detailed(b, c)
  {
  }

  lemma FollowLeavesBlockers(s: Session, t: Timing, a: Arbiter, now: real)
    ensures var s' := FollowArbiter(s, t, a, now);
            s'.blockers == s.blockers && s'.arbiter == s.arbiter && s'.driveSubscribed == s.driveSubscribed
  {
  }

  lemma StepIsCurrent(s: Session, t: Timing, calls: seq<Call>, call: Call, c: Blocker)
    requires Current(s, calls, c)
    ensures Current(Step(s, t, call), calls + [call], c)
  {
    hide SetBlocker, SetArbiter, Request, Detailed, SetGraph;
    var longer := calls + [call];
    assert longer[..|longer| - 1] == calls;
    match call
    case CallGraph(others, subscribed, now) => GraphSets(s, t, others, subscribed, now, c);
    case CallEmergencyStop(active, now) => BlockerSets(s, t, EmergencyStop, FlagIf(active), now, c);
    case CallEstopKnown(known, now) => BlockerSets(s, t, EstopUnknown, FlagIf(!known), now, c);
    case CallMotionPermission(allowed, now) => BlockerSets(s, t, NoMotionPermission, FlagIf(!allowed), now, c);
    case CallArbiter(status, now) => ArbiterSets(s, t, status, now, c);
    case CallRequest(client, linear, angular, now) =>
      RequestLeavesBlockers(s, t, client, linear, angular, now);
      SameBlockers(s, Step(s, t, call), c);
    case _ => SameBlockers(s, Step(s, t, call), c);
  }

  lemma GraphSets(s: Session, t: Timing, others: set<string>, subscribed: bool, now: real, c: Blocker)
    ensures var s' := SetGraph(s, t, others, subscribed, now);
            && Detailed(s', c) == (match c
                                   case OtherPublisher => if others == {} then None else Some(Nodes(others))
                                   case NoDriveNode => FlagIf(!subscribed || s.arbiter.None?)
                                   case _ => Detailed(s, c))
            && s'.arbiter == s.arbiter && s'.driveSubscribed == subscribed
  {
    hide SetBlocker, Detailed;
    var nodes := if others == {} then None else Some(Nodes(others));
    BlockerSets(s, t, OtherPublisher, nodes, now, c);
    var s1 := SetBlocker(s, t, OtherPublisher, nodes, now);
    var s2 := s1.(driveSubscribed := subscribed);
    SameBlockers(s1, s2, c);
    BlockerSets(s2, t, NoDriveNode, FlagIf(!(s2.driveSubscribed && s2.arbiter.Some?)), now, c);
  }

  /**
   * In every session each blocker is there exactly while what was last said about it says so: pressed,
   * never seen, not permitted, another publisher by its name, nobody to drive, not allowed by the arbiter.
   */
  lemma {:induction false} BlockersAreCurrent(t: Timing, calls: seq<Call>, c: Blocker)
    ensures Current(Run(t, calls), calls, c)
    decreases |calls|
  {
    hide Step;
    if calls != [] {
      var rest, call := calls[..|calls| - 1], calls[|calls| - 1];
      BlockersAreCurrent(t, rest, c);
      StepIsCurrent(Run(t, rest), t, rest, call, c);
      assert rest + [call] == calls;
    }
  }

  // ----- the end of a run --------------------------------------------------------------------------

  /** The arbiter has heard a command of this run, and refuses it or has given the robot to the controller. */
  predicate GivenAway(s: Session, a: Arbiter) {
    && a.labCount.Some? && a.labCount.value > s.countAtStart
    && (|| a.labRefusal == "controller" || a.labRefusal == "locked"
        || (s.seenLab && a.activeSource != "lab" && a.switchReason == "controller"))
  }

  /** How a call ends the run that is on, if it does. */
  function EndOf(s: Session, t: Timing, call: Call): Option<LastStop> {
    match call
    case CallGraph(others, subscribed, _) =>
      if others != {} then Some(LastStop(Blocked(OtherPublisher), None))
      else if !subscribed then Some(LastStop(Blocked(NoDriveNode), None))
      else None
    case CallEmergencyStop(active, _) => if active then Some(LastStop(Blocked(EmergencyStop), None)) else None
    case CallEstopKnown(known, _) => if !known then Some(LastStop(Blocked(EstopUnknown), None)) else None
    case CallMotionPermission(allowed, _) =>
      if !allowed then Some(LastStop(Blocked(NoMotionPermission), None)) else None
    case CallArbiter(None, _) => Some(LastStop(Blocked(NoDriveNode), None))
    case CallArbiter(Some(a), _) =>
      if !a.labPermitted then Some(LastStop(Blocked(NotAllowed), None))
      else if GivenAway(s, a) then Some(LastStop(Controller, None))
      else None
    case CallRequest(client, linear, angular, now) =>
      if && client == s.owner && !(s.guardClient == client && now < s.guardUntil)
         && (linear.NotNumber? || angular.NotNumber?)
      then Some(LastStop(BadValue, client)) else None
    case CallStop(client, _, onlyOwn) => if onlyOwn ==> client == s.owner then Some(LastStop(Stopped, client)) else None
    case CallDisconnect(client, _) => if client == s.owner then Some(LastStop(Disconnected, client)) else None
    case CallTick(now) =>
      if now - s.heardAt > t.deadmanSec then Some(LastStop(Timeout, None))
      else if now - s.startedAt > t.maxRunSec then Some(LastStop(TimeLimit, None))
      else None
  }

  /** A run went on, or ended with the stop held for its time. */
  predicate EndsAs(s: Session, s': Session, t: Timing, now: real, end: Option<LastStop>) {
    match end
    case None => s'.owner == s.owner && s'.lastStop == s.lastStop && s'.holdUntil == s.holdUntil
    case Some(_) => s'.owner.None? && s'.lastStop == end && s'.holdUntil == Some(now + t.stopHoldSec)
  }

  lemma BlockerEnds(s: Session, t: Timing, code: Blocker, detail: Option<Detail>, now: real)
    requires s.owner.Some? && s.blockers == map[]
    ensures EndsAs(s, SetBlocker(s, t, code, detail, now), t, now,
                   if detail.Some? then Some(LastStop(Blocked(code), None)) else None)
    ensures detail.None? ==> SetBlocker(s, t, code, detail, now) == s
  {
    assert s.blockers - {code} == s.blockers;
  }

  lemma EndedStaysEnded(s: Session, t: Timing, code: Blocker, detail: Option<Detail>, now: real)
    requires s.owner.None?
    ensures EndsAs(s, SetBlocker(s, t, code, detail, now), t, now, None)
  {
  }

  /**
   * A run ends exactly by one of these: another publisher, nobody to drive, an emergency stop pressed or
   * not known, no motion permission, an arbiter that is gone, does not permit it or gave the robot to the
   * controller, a value of its owner that is no number, anyone's stop, its owner's leaving, or a tick past
   * the dead-man time or the time limit. Its end says why and by whom, and the stop is held from then on.
   */
  lemma RunEndsExactlyWhen(s: Session, t: Timing, call: Call)
    requires Safe(s) && s.owner.Some?
    ensures EndsAs(s, Step(s, t, call), t, call.now, EndOf(s, t, call))
  {
    hide SetBlocker, SetArbiter;
    match call
    case CallGraph(others, subscribed, now) =>
      var nodes := if others == {} then None else Some(Nodes(others));
      BlockerEnds(s, t, OtherPublisher, nodes, now);
      var s1 := SetBlocker(s, t, OtherPublisher, nodes, now).(driveSubscribed := subscribed);
      var present := FlagIf(!(s1.driveSubscribed && s1.arbiter.Some?));
      if others == {} {
        BlockerEnds(s1, t, NoDriveNode, present, now);
      } else {
        EndedStaysEnded(s1, t, NoDriveNode, present, now);
      }
    case CallEmergencyStop(active, now) => BlockerEnds(s, t, EmergencyStop, FlagIf(active), now);
    case CallEstopKnown(known, now) => BlockerEnds(s, t, EstopUnknown, FlagIf(!known), now);
    case CallMotionPermission(allowed, now) => BlockerEnds(s, t, NoMotionPermission, FlagIf(!allowed), now);
    case CallArbiter(status, now) => ArbiterEnds(s, t, status, now);
    case CallRequest(client, linear, angular, now) => NoBlockerAtAll(s.blockers);
    case _ =>
  }

  lemma ArbiterEnds(s: Session, t: Timing, status: Option<Arbiter>, now: real)
    requires Safe(s) && s.owner.Some?
    ensures EndsAs(s, SetArbiter(s, t, status, now), t, now, EndOf(s, t, CallArbiter(status, now)))
  {
    hide SetBlocker, Limits;
    var s1 := s.(arbiter := status,
                 version := if Allowed(status) != Allowed(s.arbiter) || Limits(status) != Limits(s.arbiter)
                            then s.version + 1 else s.version);
    var flag := FlagIf(status.Some? && !Allowed(status));
    BlockerEnds(s1, t, NotAllowed, flag, now);
    var s2 := SetBlocker(s1, t, NotAllowed, flag, now);
    BlockerSets(s1, t, NotAllowed, flag, now, NotAllowed);
    var missing := FlagIf(!(s2.driveSubscribed && s2.arbiter.Some?));
    if s2.owner.Some? {
      BlockerEnds(s2, t, NoDriveNode, missing, now);
    } else {
      EndedStaysEnded(s2, t, NoDriveNode, missing, now);
    }
  }

  /** A stop ends the run if there is one, unless it was meant for the caller's own and is another's; and says so. */
  lemma StopAnswersTrue(s: Session, t: Timing, client: Client, now: real, onlyOwn: bool)
    ensures var (s', answer) := Stop(s, t, client, now, onlyOwn);
            && (answer <==> s.owner.Some? && (onlyOwn ==> client == s.owner))
            && (answer ==> s'.owner.None? && s'.linear == 0.0 && s'.angular == 0.0
                           && s'.lastStop == Some(LastStop(Stopped, client)))
            && (!answer ==> s' == s)
  {
  }

  // ----- after the end -----------------------------------------------------------------------------

  predicate Accepts(s: Session, t: Timing, call: Call) {
    call.CallRequest? && Request(s, t, call.client, call.linear, call.angular, call.now).1 == Accepted
  }

  /** Requests and departures are those of pages, as the bridge's are. */
  predicate OfPage(call: Call) {
    (call.CallRequest? ==> call.client.Some?) && (call.CallDisconnect? ==> call.client.Some?)
  }

  /** Without an owner nothing but an accepted request changes who drives or how long the stop is held. */
  lemma IdleStays(s: Session, t: Timing, call: Call)
    requires s.owner.None? && OfPage(call) && !Accepts(s, t, call)
    ensures Step(s, t, call).owner.None? && Step(s, t, call).holdUntil == s.holdUntil
  {
    hide SetBlocker, SetArbiter, FirstBlocker;
    match call
    case CallGraph(others, subscribed, now) =>
      var nodes := if others == {} then None else Some(Nodes(others));
      EndedStaysEnded(s, t, OtherPublisher, nodes, now);
      var s1 := SetBlocker(s, t, OtherPublisher, nodes, now).(driveSubscribed := subscribed);
      EndedStaysEnded(s1, t, NoDriveNode, FlagIf(!(s1.driveSubscribed && s1.arbiter.Some?)), now);
    case CallEmergencyStop(active, now) => EndedStaysEnded(s, t, EmergencyStop, FlagIf(active), now);
    case CallEstopKnown(known, now) => EndedStaysEnded(s, t, EstopUnknown, FlagIf(!known), now);
    case CallMotionPermission(allowed, now) => EndedStaysEnded(s, t, NoMotionPermission, FlagIf(!allowed), now);
    case CallArbiter(status, now) => IdleArbiter(s, t, status, now);
    case _ =>
  }

  lemma IdleArbiter(s: Session, t: Timing, status: Option<Arbiter>, now: real)
    requires s.owner.None?
    ensures SetArbiter(s, t, status, now).owner.None? && SetArbiter(s, t, status, now).holdUntil == s.holdUntil
  {
    hide SetBlocker, Limits;
    var s1 := s.(arbiter := status,
                 version := if Allowed(status) != Allowed(s.arbiter) || Limits(status) != Limits(s.arbiter)
                            then s.version + 1 else s.version);
    var flag := FlagIf(status.Some? && !Allowed(status));
    EndedStaysEnded(s1, t, NotAllowed, flag, now);
    var s2 := SetBlocker(s1, t, NotAllowed, flag, now);
    EndedStaysEnded(s2, t, NoDriveNode, FlagIf(!(s2.driveSubscribed && s2.arbiter.Some?)), now);
  }

  lemma {:induction false} IdleLasts(t: Timing, calls: seq<Call>, n: nat, j: nat)
    requires n <= j <= |calls| && Run(t, calls[..n]).owner.None?
    requires forall k :: n <= k < j ==> OfPage(calls[k]) && !Accepts(Run(t, calls[..k]), t, calls[k])
    ensures Run(t, calls[..j]).owner.None? && Run(t, calls[..j]).holdUntil == Run(t, calls[..n]).holdUntil
    decreases j - n
  {
    hide Step, Accepts;
    if n < j {
      OneMore(t, calls, n);
      IdleStays(Run(t, calls[..n]), t, calls[n]);
      IdleLasts(t, calls, n + 1, j);
    }
  }

  /**
   * After the end of a run, and until the next request is accepted, there is no owner; a tick gives zero
   * within the hold time of that end, and nothing after it.
   */
  lemma EndedRunIsSilent(t: Timing, calls: seq<Call>, i: nat, j: nat, now: real)
    requires i < j <= |calls|
    requires Run(t, calls[..i]).owner.Some? && EndOf(Run(t, calls[..i]), t, calls[i]).Some?
    requires forall k :: i < k < j ==> OfPage(calls[k]) && !Accepts(Run(t, calls[..k]), t, calls[k])
    ensures var s := Run(t, calls[..j]);
            && s.owner.None?
            && Tick(s, t, now) == (s, if now < calls[i].now + t.stopHoldSec then Some((0.0, 0.0)) else None)
  {
    hide Step, EndOf, Accepts;
    EveryRunIsSafe(t, calls[..i]);
    OneMore(t, calls, i);
    RunEndsExactlyWhen(Run(t, calls[..i]), t, calls[i]);
    IdleLasts(t, calls, i + 1, j);
  }

  // ----- while it goes on --------------------------------------------------------------------------

  /** What a request comes to, for any client and from any state. */
  lemma RequestIsDecided(s: Session, t: Timing, client: Client, linear: Number, angular: Number, now: real)
    ensures var (s', reply) := Request(s, t, client, linear, angular, now);
            var late := client.Some? && client == s.guardClient && now < s.guardUntil;
            && (reply == Accepted <==>
                  && !late && s.blockers == map[] && (s.owner.None? || s.owner == client)
                  && linear.Num? && angular.Num?
                  && (client in s.needsNeutral ==> linear.value == 0.0 && angular.value == 0.0))
            && (reply == Stale <==> late)
            && (reply.BlockedBy? <==> !late && s.blockers != map[])
            && (reply.BlockedBy? ==> reply.code in s.blockers && client in s'.needsNeutral)
            && (reply == Busy <==> !late && s.blockers == map[] && s.owner.Some? && s.owner != client)
            && (reply == Accepted ==>
                  && s'.owner == client && s'.linear == linear.value && s'.angular == angular.value && s'.heardAt == now
                  && s'.startedAt == (if s.owner.None? then now else s.startedAt))
  {
    NoBlockerAtAll(s.blockers);
    NoFirstBlocker(s.blockers, BLOCKER_ORDER);
    hide FirstBlocker, End;
  }

  /** What the run is after a request of its owner was accepted. */
  predicate Drives(s: Session, client: Client, linear: real, angular: real, heardAt: real, startedAt: real) {
    && s.owner == client && s.linear == linear && s.angular == angular
    && s.heardAt == heardAt && s.startedAt == startedAt
  }

  lemma BlockerDrives(s: Session, t: Timing, code: Blocker, detail: Option<Detail>, now: real)
    requires s.owner.Some?
    ensures var s' := SetBlocker(s, t, code, detail, now);
            s'.owner.Some? ==> Drives(s', s.owner, s.linear, s.angular, s.heardAt, s.startedAt)
  {
  }

  lemma ArbiterDrives(s: Session, t: Timing, status: Option<Arbiter>, now: real)
    requires s.owner.Some?
    ensures var s' := SetArbiter(s, t, status, now);
            s'.owner.Some? ==> Drives(s', s.owner, s.linear, s.angular, s.heardAt, s.startedAt)
  {
    hide SetBlocker, Limits;
    var s1 := s.(arbiter := status,
                 version := if Allowed(status) != Allowed(s.arbiter) || Limits(status) != Limits(s.arbiter)
                            then s.version + 1 else s.version);
    var flag := FlagIf(status.Some? && !Allowed(status));
    BlockerDrives(s1, t, NotAllowed, flag, now);
    var s2 := SetBlocker(s1, t, NotAllowed, flag, now);
    var missing := FlagIf(!(s2.driveSubscribed && s2.arbiter.Some?));
    if s2.owner.Some? {
      BlockerDrives(s2, t, NoDriveNode, missing, now);
    } else {
      EndedStaysEnded(s2, t, NoDriveNode, missing, now);
    }
  }

  /** A run that goes on goes on unchanged, but for requests that are accepted. */
  lemma RunGoesOn(s: Session, t: Timing, call: Call)
    requires Safe(s) && s.owner.Some? && EndOf(s, t, call).None? && !Accepts(s, t, call)
    ensures Drives(Step(s, t, call), s.owner, s.linear, s.angular, s.heardAt, s.startedAt)
  {
    RunEndsExactlyWhen(s, t, call);
    hide SetBlocker, SetArbiter, EndOf, Safe, FirstBlocker;
    match call
    case CallGraph(others, subscribed, now) =>
      var nodes := if others == {} then None else Some(Nodes(others));
      BlockerDrives(s, t, OtherPublisher, nodes, now);
      var s1 := SetBlocker(s, t, OtherPublisher, nodes, now).(driveSubscribed := subscribed);
      var missing := FlagIf(!(s1.driveSubscribed && s1.arbiter.Some?));
      if s1.owner.Some? {
        BlockerDrives(s1, t, NoDriveNode, missing, now);
      } else {
        EndedStaysEnded(s1, t, NoDriveNode, missing, now);
      }
    case CallEmergencyStop(active, now) => BlockerDrives(s, t, EmergencyStop, FlagIf(active), now);
    case CallEstopKnown(known, now) => BlockerDrives(s, t, EstopUnknown, FlagIf(!known), now);
    case CallMotionPermission(allowed, now) => BlockerDrives(s, t, NoMotionPermission, FlagIf(!allowed), now);
    case CallArbiter(status, now) => ArbiterDrives(s, t, status, now);
    case _ =>
  }

  lemma {:induction false} RunLasts(t: Timing, calls: seq<Call>, n: nat, j: nat)
    requires n <= j <= |calls| && Run(t, calls[..n]).owner.Some?
    requires forall k :: n <= k < j ==>
               EndOf(Run(t, calls[..k]), t, calls[k]).None? && !Accepts(Run(t, calls[..k]), t, calls[k])
    ensures var s := Run(t, calls[..n]);
            Drives(Run(t, calls[..j]), s.owner, s.linear, s.angular, s.heardAt, s.startedAt)
    decreases j - n
  {
    hide Step, EndOf, Accepts, Safe;
    if n < j {
      OneMore(t, calls, n);
      EveryRunIsSafe(t, calls[..n]);
      RunGoesOn(Run(t, calls[..n]), t, calls[n]);
      RunLasts(t, calls, n + 1, j);
    }
  }

  /**
   * An accepted command is what goes out: until the run ends or another request of its owner is accepted,
   * every tick within the dead-man time and the time limit gives exactly its values, or zero during the
   * neutral start.
   */
  lemma AcceptedIsPublished(t: Timing, calls: seq<Call>, i: nat, j: nat, now: real)
    requires i < j <= |calls| && calls[i].CallRequest? && calls[i].client.Some?
    requires Accepts(Run(t, calls[..i]), t, calls[i])
    requires forall k :: i < k < j ==>
               EndOf(Run(t, calls[..k]), t, calls[k]).None? && !Accepts(Run(t, calls[..k]), t, calls[k])
    requires now - calls[i].now <= t.deadmanSec && now - Run(t, calls[..j]).startedAt <= t.maxRunSec
    ensures var s := Run(t, calls[..j]);
            && s.owner == calls[i].client && calls[i].linear.Num? && calls[i].angular.Num?
            && Tick(s, t, now) == (s, Some(if now - s.startedAt < 0.3 then (0.0, 0.0)
                                           else (calls[i].linear.value, calls[i].angular.value)))
  {
    hide Step, EndOf;
    var call, s := calls[i], Run(t, calls[..i]);
    OneMore(t, calls, i);
    RequestIsDecided(s, t, call.client, call.linear, call.angular, call.now);
    assert Step(s, t, call) == Request(s, t, call.client, call.linear, call.angular, call.now).0 by {
      RequestStep(s, t, call);
    }
    hide Accepts;
    RunLasts(t, calls, i + 1, j);
  }

  lemma RequestStep(s: Session, t: Timing, call: Call)
    requires call.CallRequest?
    ensures Step(s, t, call) == Request(s, t, call.client, call.linear, call.angular, call.now).0
  {
    hide Request;
  }

  // ----- where a run comes from --------------------------------------------------------------------

  /** The arbiter reports that a lab command after the first `count` ones drives the robot. */
  predicate HearsLab(call: Call, count: int) {
    && call.CallArbiter? && call.status.Some? && call.status.value.labCount.Some?
    && call.status.value.labCount.value > count && call.status.value.activeSource == "lab"
  }

  function CountOf(a: Option<Arbiter>): int {
    if a.Some? && a.value.labCount.Some? then a.value.labCount.value else 0
  }

  /** The run that is on began with request `i`, none of the calls since ended it, and its record says so. */
  ghost predicate BeganAt(t: Timing, calls: seq<Call>, i: nat) {
    var s := Run(t, calls);
    && i < |calls| && Accepts(Run(t, calls[..i]), t, calls[i]) && calls[i].client == s.owner
    && Run(t, calls[..i]).owner.None?
    && (forall k :: i < k < |calls| ==> EndOf(Run(t, calls[..k]), t, calls[k]).None?)
    && s.startedAt == calls[i].now
    && s.countAtStart == CountOf(LastArbiter(calls[..i]))
    && (s.seenLab <==> exists k :: i < k < |calls| && HearsLab(calls[k], s.countAtStart))
  }

  lemma BlockerKeepsRun(s: Session, t: Timing, code: Blocker, detail: Option<Detail>, now: real)
    ensures var s' := SetBlocker(s, t, code, detail, now);
            s'.startedAt == s.startedAt && s'.countAtStart == s.countAtStart && s'.seenLab == s.seenLab
  {
  }

  /** While a run goes on its start stays, and the lab counts as seen once it was. */
  lemma RecordStays(s: Session, t: Timing, call: Call)
    requires Safe(s) && s.owner.Some? && EndOf(s, t, call).None?
    ensures var s' := Step(s, t, call);
            && s'.owner == s.owner && s'.startedAt == s.startedAt && s'.countAtStart == s.countAtStart
            && (s'.seenLab <==> s.seenLab || HearsLab(call, s.countAtStart))
  {
    RunEndsExactlyWhen(s, t, call);
    hide SetBlocker, SetArbiter, Safe, FirstBlocker, EndOf;
    match call
    case CallGraph(others, subscribed, now) =>
      var nodes := if others == {} then None else Some(Nodes(others));
      BlockerKeepsRun(s, t, OtherPublisher, nodes, now);
      var s1 := SetBlocker(s, t, OtherPublisher, nodes, now).(driveSubscribed := subscribed);
      BlockerKeepsRun(s1, t, NoDriveNode, FlagIf(!(s1.driveSubscribed && s1.arbiter.Some?)), now);
    case CallEmergencyStop(active, now) => BlockerKeepsRun(s, t, EmergencyStop, FlagIf(active), now);
    case CallEstopKnown(known, now) => BlockerKeepsRun(s, t, EstopUnknown, FlagIf(!known), now);
    case CallMotionPermission(allowed, now) => BlockerKeepsRun(s, t, NoMotionPermission, FlagIf(!allowed), now);
    case CallArbiter(status, now) => ArbiterKeepsRun(s, t, status, now);
    case _ =>
  }

  lemma ArbiterKeepsRun(s: Session, t: Timing, status: Option<Arbiter>, now: real)
    requires SetArbiter(s, t, status, now).owner.Some?
    ensures var s' := SetArbiter(s, t, status, now);
            && s'.startedAt == s.startedAt && s'.countAtStart == s.countAtStart
            && (s'.seenLab <==> s.seenLab || HearsLab(CallArbiter(status, now), s.countAtStart))
  {
    hide SetBlocker, Limits;
    var s1 := s.(arbiter := status,
                 version := if Allowed(status) != Allowed(s.arbiter) || Limits(status) != Limits(s.arbiter)
                            then s.version + 1 else s.version);
    var flag := FlagIf(status.Some? && !Allowed(status));
    BlockerKeepsRun(s1, t, NotAllowed, flag, now);
    var s2 := SetBlocker(s1, t, NotAllowed, flag, now);
    BlockerKeepsRun(s2, t, NoDriveNode, FlagIf(!(s2.driveSubscribed && s2.arbiter.Some?)), now);
  }

  lemma RunBegins(s: Session, t: Timing, call: Call)
    requires Safe(s) && s.owner.None? && Step(s, t, call).owner.Some?
    ensures Accepts(s, t, call) && call.client == Step(s, t, call).owner
    ensures var s' := Step(s, t, call);
            s'.startedAt == call.now && s'.countAtStart == CountOf(s.arbiter) && !s'.seenLab
  {
    OwnerBecomesByRequest(s, t, call, Step(s, t, call).owner);
    RequestStep(s, t, call);
    hide Step, FirstBlocker, Safe;
  }

  /**
   * Every run that is on has its beginning in the calls: an accepted request of the owner, with no end
   * since. Its time and the arbiter's count are those of that moment, and the lab counts as seen exactly
   * if the arbiter reported a later lab command since.
   */
  lemma {:induction false} EveryRunHasItsBeginning(t: Timing, calls: seq<Call>)
    requires Run(t, calls).owner.Some?
    ensures exists i: nat :: BeganAt(t, calls, i)
    decreases |calls|
  {
    hide Step, EndOf, Accepts, Safe, HearsLab;
    var rest, call := calls[..|calls| - 1], calls[|calls| - 1];
    var before := Run(t, rest);
    EveryRunIsSafe(t, rest);
    BlockersAreCurrent(t, rest, EmergencyStop);
    if before.owner.None? {
      RunBegins(before, t, call);
      assert BeganAt(t, calls, |rest|);
    } else {
      RunEndsExactlyWhen(before, t, call);
      EveryRunHasItsBeginning(t, rest);
      var i: nat :| BeganAt(t, rest, i);
      RecordStays(before, t, call);
      StillBegan(t, calls, i);
    }
  }

  lemma StillBegan(t: Timing, calls: seq<Call>, i: nat)
    requires calls != [] && BeganAt(t, calls[..|calls| - 1], i)
    requires var rest, call := calls[..|calls| - 1], calls[|calls| - 1];
             var s, s' := Run(t, rest), Run(t, calls);
             && EndOf(s, t, call).None?
             && s'.owner == s.owner && s'.startedAt == s.startedAt && s'.countAtStart == s.countAtStart
             && (s'.seenLab <==> s.seenLab || HearsLab(call, s.countAtStart))
    ensures BeganAt(t, calls, i)
  {
    hide Step, EndOf, Accepts, HearsLab, Run;
    var rest, s' := calls[..|calls| - 1], Run(t, calls);
    assert rest[..i] == calls[..i];
    forall k | i < k < |calls| ensures EndOf(Run(t, calls[..k]), t, calls[k]).None? {
      if k < |rest| {
        assert rest[..k] == calls[..k] && rest[k] == calls[k];
      } else {
        assert calls[..k] == rest;
      }
    }
    if s'.seenLab && !HearsLab(calls[|calls| - 1], s'.countAtStart) {
      var k :| i < k < |rest| && HearsLab(rest[k], s'.countAtStart);
      assert HearsLab(calls[k], s'.countAtStart);
    }
    if exists k :: i < k < |calls| && HearsLab(calls[k], s'.countAtStart) {
      var k :| i < k < |calls| && HearsLab(calls[k], s'.countAtStart);
      assert k < |rest| ==> HearsLab(rest[k], s'.countAtStart);
    }
  }

  // ----- what the pages are shown, and what a page leaves behind -----------------------------------

  /** A cap is shown by its size, whatever its sign. */
  predicate Caps(shown: real, cap: real) {
    shown >= 0.0 && (shown == cap || shown == -cap)
  }

  /** The pages are shown the permission and the caps the arbiter last reported, both caps or none. */
  lemma ShownIsLastReported(t: Timing, calls: seq<Call>)
    ensures var shown, a := State(Run(t, calls)), LastArbiter(calls);
            && (shown.allowed <==> a.Some? && a.value.labPermitted)
            && (shown.limits.Some? <==> a.Some? && a.value.maxLinear.Some? && a.value.maxAngular.Some?)
            && (shown.limits.Some? ==> Caps(shown.limits.value.0, a.value.maxLinear.value)
                                       && Caps(shown.limits.value.1, a.value.maxAngular.value))
  {
    hide Run;
    BlockersAreCurrent(t, calls, EmergencyStop);
  }

  /** A page that leaves owes nothing any more; nobody else's debt changes. */
  lemma LeaverOwesNothing(s: Session, t: Timing, client: Client, now: real)
    ensures var s' := Step(s, t, CallDisconnect(client, now));
            client !in s'.needsNeutral && forall c :: c != client ==> (c in s'.needsNeutral <==> c in s.needsNeutral)
  {
  }
}
