/** What a driving session guarantees after every sequence of calls. */
module DriveLaws {
  import opened Common
  import opened DriveModel

  // ----- the shape of a step ---------------------------------------------------------------------

  /** The run, its end and what clients owe are as before. */
  predicate SameRun(s: Session, s': Session) {
    && s'.owner == s.owner && s'.linear == s.linear && s'.angular == s.angular
    && s'.needsNeutral == s.needsNeutral && s'.lastStop == s.lastStop
    && s'.guardClient == s.guardClient && s'.guardUntil == s.guardUntil
  }

  /** A run was ended at `now`, by a client or (`None`) by the bridge itself. */
  predicate EndedBy(s: Session, s': Session, byWhom: Client, now: real) {
    && s.owner.Some? && s'.owner.None? && s'.linear == 0.0 && s'.angular == 0.0
    && s'.needsNeutral == s.needsNeutral + {s.owner}
    && s'.lastStop.Some? && s'.lastStop.value.byWhom == byWhom
    && s'.guardClient == (if byWhom == s.owner then s.guardClient else s.owner)
    && s'.guardUntil == (if byWhom == s.owner then s.guardUntil else now + RESTART_GUARD_SEC)
  }

  lemma BlockerShape(s: Session, t: Timing, code: Blocker, detail: Option<Detail>, now: real)
    ensures || SameRun(s, SetBlocker(s, t, code, detail, now))
            || EndedBy(s, SetBlocker(s, t, code, detail, now), None, now)
  {
  }

  function EndedByWhom(call: Call): Client {
    if call.CallStop? then call.client else None
  }

  lemma StepShape(s: Session, t: Timing, call: Call)
    requires !call.CallRequest? && !call.CallDisconnect?
    ensures SameRun(s, Step(s, t, call)) || EndedBy(s, Step(s, t, call), EndedByWhom(call), call.now)
  {
    hide SetBlocker, Request, Disconnect, SetArbiter;
    match call
    case CallGraph(others, subscribed, now) =>
      var nodes := if others == {} then None else Some(Nodes(others));
      BlockerShape(s, t, OtherPublisher, nodes, now);
      var s1 := SetBlocker(s, t, OtherPublisher, nodes, now).(driveSubscribed := subscribed);
      BlockerShape(s1, t, NoDriveNode, FlagIf(!(s1.driveSubscribed && s1.arbiter.Some?)), now);
    case CallEmergencyStop(active, now) => BlockerShape(s, t, EmergencyStop, FlagIf(active), now);
    case CallEstopKnown(known, now) => BlockerShape(s, t, EstopUnknown, FlagIf(!known), now);
    case CallMotionPermission(allowed, now) => BlockerShape(s, t, NoMotionPermission, FlagIf(!allowed), now);
    case CallArbiter(status, now) => ArbiterShape(s, t, status, now);
    case _ =>
  }

  lemma ArbiterShape(s: Session, t: Timing, status: Option<Arbiter>, now: real)
    ensures SameRun(s, SetArbiter(s, t, status, now)) || EndedBy(s, SetArbiter(s, t, status, now), None, now)
  {
    hide SetBlocker, FollowArbiter;
    var s1 := s.(arbiter := status,
                 version := if Allowed(status) != Allowed(s.arbiter) || Limits(status) != Limits(s.arbiter)
                            then s.version + 1 else s.version);
    var flag := FlagIf(status.Some? && !Allowed(status));
    BlockerShape(s1, t, NotAllowed, flag, now);
    var s2 := SetBlocker(s1, t, NotAllowed, flag, now);
    BlockerShape(s2, t, NoDriveNode, FlagIf(!(s2.driveSubscribed && s2.arbiter.Some?)), now);
    if status.Some? {
      var s3 := SetDriveNode(s2, t, now);
      if s3.owner.Some? {
        FollowShape(s3, t, status.value, now);
      }
    }
  }

  lemma FollowShape(s: Session, t: Timing, a: Arbiter, now: real)
    requires s.owner.Some?
    ensures SameRun(s, FollowArbiter(s, t, a, now)) || EndedBy(s, FollowArbiter(s, t, a, now), None, now)
  {
  }

  /** What a request does to the run. */
  ghost predicate RequestEffect(s: Session, t: Timing, client: Client, linear: Number, angular: Number, now: real) {
    var (s', reply) := Request(s, t, client, linear, angular, now);
    && (reply == Stale || reply == Busy || reply == NeedsNeutral ==> s' == s)
    && (reply.BlockedBy? ==> s' == s.(needsNeutral := s.needsNeutral + {client}))
    && (reply == Invalid ==> s' == s || (s.owner == client && s' == End(s, t, BadValue, client, now)))
    && (reply == Accepted ==>
          && linear.Num? && angular.Num? && (s.owner.None? || s.owner == client)
          && (client in s.needsNeutral ==> linear == Num(0.0) && angular == Num(0.0))
          && s'.owner == client && s'.linear == linear.value && s'.angular == angular.value
          && s'.needsNeutral == s.needsNeutral - {client}
          && s'.guardClient == s.guardClient && s'.guardUntil == s.guardUntil
          && s'.lastStop == (if s.owner.None? then None else s.lastStop))
  }

  lemma RequestShape(s: Session, t: Timing, client: Client, linear: Number, angular: Number, now: real)
    ensures RequestEffect(s, t, client, linear, angular, now)
  {
    hide FirstBlocker, End;
  }

  // ----- safety in every reachable state --------------------------------------------------------

  /** A run is only ever active when nothing forbids it. */
  ghost predicate RunIsPermitted(s: Session) {
    s.owner.Some? ==>
      && s.blockers == map[]
      && s.owner !in s.needsNeutral
      && s.driveSubscribed
      && s.arbiter.Some? && s.arbiter.value.labPermitted
  }

  ghost predicate Safe(s: Session) {
    && RunIsPermitted(s)
    && (NoDriveNode !in s.blockers ==> s.driveSubscribed && s.arbiter.Some?)
    && (NotAllowed !in s.blockers ==> s.arbiter.None? || s.arbiter.value.labPermitted)
  }

  lemma SetBlockerIsSafe(s: Session, t: Timing, code: Blocker, detail: Option<Detail>, now: real)
    requires RunIsPermitted(s)
    ensures RunIsPermitted(SetBlocker(s, t, code, detail, now))
    ensures detail.Some? ==> SetBlocker(s, t, code, detail, now).owner.None?
    ensures forall b :: b != code ==> (b in SetBlocker(s, t, code, detail, now).blockers <==> b in s.blockers)
    ensures code in SetBlocker(s, t, code, detail, now).blockers <==> detail.Some?
  {
    if s.owner.Some? {
      assert s.blockers - {code} == map[];
    }
  }

  lemma {:induction false} NoFirstBlocker(blockers: map<Blocker, Detail>, order: seq<Blocker>)
    ensures FirstBlocker(blockers, order).None? <==> forall b :: b in order ==> b !in blockers
    ensures FirstBlocker(blockers, order).Some? ==> FirstBlocker(blockers, order).value in blockers
    decreases order
  {
    if order != [] {
      NoFirstBlocker(blockers, order[1..]);
    }
  }

  /** Every blocker is in the display order, so a session without a first one has none at all. */
  lemma NoBlockerAtAll(blockers: map<Blocker, Detail>)
    ensures FirstBlocker(blockers, BLOCKER_ORDER).None? <==> blockers == map[]
  {
    NoFirstBlocker(blockers, BLOCKER_ORDER);
    forall b: Blocker ensures b in BLOCKER_ORDER {
      match b
      case NotAllowed => assert BLOCKER_ORDER[0] == b;
      case EstopUnknown => assert BLOCKER_ORDER[1] == b;
      case EmergencyStop => assert BLOCKER_ORDER[2] == b;
      case NoDriveNode => assert BLOCKER_ORDER[3] == b;
      case OtherPublisher => assert BLOCKER_ORDER[4] == b;
      case NoMotionPermission => assert BLOCKER_ORDER[5] == b;
    }
  }

  lemma EndIsSafe(s: Session, t: Timing, reason: EndReason, byWhom: Client, now: real)
    requires Safe(s)
    ensures Safe(End(s, t, reason, byWhom, now))
  {
  }

  lemma RequestIsSafe(s: Session, t: Timing, client: Client, linear: Number, angular: Number, now: real)
    requires Safe(s)
    ensures Safe(Request(s, t, client, linear, angular, now).0)
  {
    hide End;
    EndIsSafe(s, t, BadValue, client, now);
    NoBlockerAtAll(s.blockers);
  }

  lemma FlagIsSafe(s: Session, t: Timing, code: Blocker, detail: Option<Detail>, now: real)
    requires Safe(s) && code != NoDriveNode && code != NotAllowed
    ensures Safe(SetBlocker(s, t, code, detail, now))
  {
    SetBlockerIsSafe(s, t, code, detail, now);
  }

  lemma StepIsSafe(s: Session, t: Timing, call: Call)
    requires Safe(s)
    ensures Safe(Step(s, t, call))
  {
    hide SetBlocker, SetArbiter, Request, End, Safe;
    match call
    case CallGraph(others, subscribed, now) => GraphIsSafe(s, t, others, subscribed, now);
    case CallEmergencyStop(active, now) => FlagIsSafe(s, t, EmergencyStop, FlagIf(active), now);
    case CallEstopKnown(known, now) => FlagIsSafe(s, t, EstopUnknown, FlagIf(!known), now);
    case CallMotionPermission(allowed, now) => FlagIsSafe(s, t, NoMotionPermission, FlagIf(!allowed), now);
    case CallArbiter(status, now) => SetArbiterIsSafe(s, t, status, now);
    case CallRequest(client, linear, angular, now) => RequestIsSafe(s, t, client, linear, angular, now);
    case CallStop(client, now, onlyOwn) => EndIsSafe(s, t, Stopped, client, now);
    case CallDisconnect(client, now) =>
      EndIsSafe(s, t, Disconnected, client, now);
      LeavingIsSafe(s, client);
      LeavingIsSafe(End(s, t, Disconnected, client, now), client);
    case CallTick(now) =>
      EndIsSafe(s, t, Timeout, None, now);
      EndIsSafe(s, t, TimeLimit, None, now);
  }

  lemma LeavingIsSafe(s: Session, client: Client)
    requires Safe(s)
    ensures Safe(s.(needsNeutral := s.needsNeutral - {client}))
  {
  }

  lemma GraphIsSafe(s: Session, t: Timing, others: set<string>, subscribed: bool, now: real)
    requires Safe(s)
    ensures Safe(SetGraph(s, t, others, subscribed, now))
  {
    hide SetDriveNode;
    var nodes := if others == {} then None else Some(Nodes(others));
    SetBlockerIsSafe(s, t, OtherPublisher, nodes, now);
    DriveNodeIsSafe(SetBlocker(s, t, OtherPublisher, nodes, now), t, subscribed, s.arbiter, now);
  }

  /** Whatever the graph and the arbiter were before, a run that survives has both. */
  lemma DriveNodeIsSafe(s: Session, t: Timing, subscribed: bool, arbiter: Option<Arbiter>, now: real)
    requires s.arbiter == arbiter
    requires s.owner.Some? ==> s.blockers == map[] && s.owner !in s.needsNeutral
    requires s.owner.Some? ==> arbiter.Some? ==> arbiter.value.labPermitted
    ensures var s' := SetDriveNode(s.(driveSubscribed := subscribed), t, now);
            && RunIsPermitted(s')
            && (NoDriveNode !in s'.blockers <==> s'.driveSubscribed && s'.arbiter.Some?)
            && (NotAllowed in s'.blockers <==> NotAllowed in s.blockers)
            && s'.arbiter == s.arbiter
  {
    if s.owner.Some? {
      assert s.blockers - {NoDriveNode} == map[];
    }
  }

  lemma SetArbiterIsSafe(s: Session, t: Timing, status: Option<Arbiter>, now: real)
    requires Safe(s)
    ensures Safe(SetArbiter(s, t, status, now))
  {
    hide SetBlocker, SetDriveNode, FollowArbiter;
    var changed := Allowed(status) != Allowed(s.arbiter) || Limits(status) != Limits(s.arbiter);
    var s1 := s.(arbiter := status, version := if changed then s.version + 1 else s.version);
    var s2 := SetBlocker(s1, t, NotAllowed, FlagIf(status.Some? && !Allowed(status)), now);
    NotAllowedPart(s, s1, t, now);
    var s3 := SetDriveNode(s2, t, now);
    assert s2 == s2.(driveSubscribed := s2.driveSubscribed);
    DriveNodeIsSafe(s2, t, s2.driveSubscribed, status, now);
    if s3.owner.Some? && status.Some? {
      FollowIsSafe(s3, t, status.value, now);
    }
  }

  lemma NotAllowedPart(s: Session, s1: Session, t: Timing, now: real)
    requires Safe(s) && s1 == s.(arbiter := s1.arbiter, version := s1.version)
    ensures var s2 := SetBlocker(s1, t, NotAllowed, FlagIf(s1.arbiter.Some? && !Allowed(s1.arbiter)), now);
            && s2.arbiter == s1.arbiter
            && (s2.owner.Some? ==> s2.blockers == map[] && s2.owner !in s2.needsNeutral)
            && (s2.owner.Some? ==> s1.arbiter.Some? ==> s1.arbiter.value.labPermitted)
            && (NotAllowed in s2.blockers <==> s1.arbiter.Some? && !Allowed(s1.arbiter))
  {
    if s.owner.Some? {
      assert s.blockers - {NotAllowed} == map[];
    }
  }

  lemma FollowIsSafe(s: Session, t: Timing, a: Arbiter, now: real)
    requires Safe(s)
    ensures Safe(FollowArbiter(s, t, a, now))
  {
  }

  /** In every reachable state an active run is permitted. */
  lemma {:induction false} EveryRunIsSafe(t: Timing, calls: seq<Call>)
    ensures Safe(Run(t, calls))
    decreases |calls|
  {
    hide Step;
    if calls != [] {
      EveryRunIsSafe(t, calls[..|calls| - 1]);
      StepIsSafe(Run(t, calls[..|calls| - 1]), t, calls[|calls| - 1]);
    }
  }

  /**
   * What goes out on the drive topic: a nonzero command only for an active, permitted run, repeated
   * within the dead-man time, past the neutral start and within the run's time limit, and then it
   * is the owner's own command.
   */
  lemma OnlyAPermittedRunMoves(t: Timing, calls: seq<Call>, now: real)
    ensures var s := Run(t, calls);
            var (s', command) := Tick(s, t, now);
            command.Some? && command.value != (0.0, 0.0) ==>
              && s.owner.Some? && s.blockers == map[] && s.owner !in s.needsNeutral
              && s.driveSubscribed && s.arbiter.Some? && s.arbiter.value.labPermitted
              && now - s.heardAt <= t.deadmanSec
              && 0.3 <= now - s.startedAt <= t.maxRunSec
              && command.value == (s.linear, s.angular) && s' == s
  {
    EveryRunIsSafe(t, calls);
  }

  /** Requests that come from a page, as the bridge's do. */
  predicate FromPages(calls: seq<Call>) {
    forall call :: call in calls && call.CallRequest? ==> call.client.Some?
  }

  /** With no owner the stored command is zero, as long as requests come from pages. */
  lemma {:induction false} IdleMeansZero(t: Timing, calls: seq<Call>)
    requires FromPages(calls)
    ensures Run(t, calls).owner.None? ==> Run(t, calls).linear == 0.0 && Run(t, calls).angular == 0.0
    decreases |calls|
  {
    if calls != [] {
      var rest := calls[..|calls| - 1];
      assert forall call :: call in rest ==> call in calls;
      assert calls[|calls| - 1] in calls;
      IdleMeansZero(t, rest);
      IdleStep(Run(t, rest), t, calls[|calls| - 1]);
    }
  }

  lemma IdleStep(s: Session, t: Timing, call: Call)
    requires s.owner.None? ==> s.linear == 0.0 && s.angular == 0.0
    requires call.CallRequest? ==> call.client.Some?
    ensures Step(s, t, call).owner.None? ==> Step(s, t, call).linear == 0.0 && Step(s, t, call).angular == 0.0
  {
    ShapeOf(s, t, call);
    hide Request, SetBlocker, SetGraph, SetArbiter, Stop, Tick;
  }

  /** Both shapes at once. */
  lemma ShapeOf(s: Session, t: Timing, call: Call)
    ensures !call.CallRequest? && !call.CallDisconnect? ==>
              SameRun(s, Step(s, t, call)) || EndedBy(s, Step(s, t, call), EndedByWhom(call), call.now)
    ensures call.CallRequest? ==>
              && Step(s, t, call) == Request(s, t, call.client, call.linear, call.angular, call.now).0
              && RequestEffect(s, t, call.client, call.linear, call.angular, call.now)
    ensures call.CallDisconnect? ==> Step(s, t, call) == Disconnect(s, t, call.client, call.now)
  {
    if call.CallRequest? {
      RequestShape(s, t, call.client, call.linear, call.angular, call.now);
    } else if !call.CallDisconnect? {
      StepShape(s, t, call);
    }
  }

  /** A request without a page is the one way to store a command that nobody owns. */
  lemma NobodysRequestIsStored(s: Session, t: Timing, linear: real, angular: real, now: real)
    requires s.owner.None? && s.blockers == map[] && None !in s.needsNeutral
    ensures Request(s, t, None, Num(linear), Num(angular), now).1 == Accepted
    ensures Request(s, t, None, Num(linear), Num(angular), now).0.owner == None
    ensures Request(s, t, None, Num(linear), Num(angular), now).0.linear == linear
  {
    NoBlockerAtAll(s.blockers);
  }

  /**
   * The only step after which a command that nobody owns is stored is a request without a page, with
   * numbers that are not both 0, while nothing blocks and the bridge itself owes no neutral.
   */
  lemma OnlyNobodysRequestIsStored(s: Session, t: Timing, call: Call)
    requires s.owner.None? ==> s.linear == 0.0 && s.angular == 0.0
    ensures var s' := Step(s, t, call);
            s'.owner.None? && (s'.linear != 0.0 || s'.angular != 0.0)
            <==> (&& call.CallRequest? && call.client.None? && s.owner.None?
                  && s.blockers == map[] && None !in s.needsNeutral
                  && call.linear.Num? && call.angular.Num?
                  && (call.linear.value != 0.0 || call.angular.value != 0.0))
  {
    ShapeOf(s, t, call);
    if call.CallRequest? && call.client.None? && s.owner.None? {
      AcceptedExactlyWhen(s, t, call.linear, call.angular, call.now);
    }
    hide Request, SetBlocker, SetGraph, SetArbiter, Stop, Tick;
  }

  lemma AcceptedExactlyWhen(s: Session, t: Timing, linear: Number, angular: Number, now: real)
    requires s.owner.None?
    ensures Request(s, t, None, linear, angular, now).1 == Accepted
       <==> (&& s.blockers == map[] && linear.Num? && angular.Num?
             && (None in s.needsNeutral ==> linear == Num(0.0) && angular == Num(0.0)))
  {
    hide End, Accept;
    NoBlockerAtAll(s.blockers);
  }

  // ----- version coherence ----------------------------------------------------------------------

  lemma StepTellsEveryChange(s: Session, t: Timing, call: Call)
    ensures Step(s, t, call).version >= s.version
    ensures Step(s, t, call).version == s.version ==> State(Step(s, t, call)) == State(s)
  {
    hide SetBlocker, SetArbiter, Request;
    match call
    case CallGraph(others, subscribed, now) =>
      var nodes := if others == {} then None else Some(Nodes(others));
      BlockerTells(s, t, OtherPublisher, nodes, now);
      var s1 := SetBlocker(s, t, OtherPublisher, nodes, now).(driveSubscribed := subscribed);
      BlockerTells(s1, t, NoDriveNode, FlagIf(!(s1.driveSubscribed && s1.arbiter.Some?)), now);
    case CallEmergencyStop(active, now) => BlockerTells(s, t, EmergencyStop, FlagIf(active), now);
    case CallEstopKnown(known, now) => BlockerTells(s, t, EstopUnknown, FlagIf(!known), now);
    case CallMotionPermission(allowed, now) => BlockerTells(s, t, NoMotionPermission, FlagIf(!allowed), now);
    case CallArbiter(status, now) => ArbiterTells(s, t, status, now);
    case CallRequest(client, linear, angular, now) => RequestTells(s, t, client, linear, angular, now);
    case _ =>
  }

  lemma RequestTells(s: Session, t: Timing, client: Client, linear: Number, angular: Number, now: real)
    ensures Request(s, t, client, linear, angular, now).0.version >= s.version
    ensures Request(s, t, client, linear, angular, now).0.version == s.version ==>
              State(Request(s, t, client, linear, angular, now).0) == State(s)
  {
    hide FirstBlocker;
  }

  lemma BlockerTells(s: Session, t: Timing, code: Blocker, detail: Option<Detail>, now: real)
    ensures SetBlocker(s, t, code, detail, now).version >= s.version
    ensures SetBlocker(s, t, code, detail, now).version == s.version ==>
              SetBlocker(s, t, code, detail, now) == s
  {
    if Detailed(s, code) == detail {
      if detail.None? {
        assert s.blockers - {code} == s.blockers;
      } else {
        assert s.blockers[code := detail.value] == s.blockers;
      }
    }
  }

  lemma ArbiterTells(s: Session, t: Timing, status: Option<Arbiter>, now: real)
    ensures SetArbiter(s, t, status, now).version >= s.version
    ensures SetArbiter(s, t, status, now).version == s.version ==> State(SetArbiter(s, t, status, now)) == State(s)
  {
    hide SetBlocker;
    var changed := Allowed(status) != Allowed(s.arbiter) || Limits(status) != Limits(s.arbiter);
    var s1 := s.(arbiter := status, version := if changed then s.version + 1 else s.version);
    var flag := FlagIf(status.Some? && !Allowed(status));
    BlockerTells(s1, t, NotAllowed, flag, now);
    var s2 := SetBlocker(s1, t, NotAllowed, flag, now);
    BlockerTells(s2, t, NoDriveNode, FlagIf(!(s2.driveSubscribed && s2.arbiter.Some?)), now);
  }

  /**
   * The version never falls, and whenever it is the same at two points of a run the pages are shown
   * the same: sending only on a change of version loses nothing.
   */
  lemma {:induction false} SameVersionSameState(t: Timing, calls: seq<Call>, n: nat)
    requires n <= |calls|
    ensures Run(t, calls[..n]).version <= Run(t, calls).version
    ensures Run(t, calls[..n]).version == Run(t, calls).version ==>
              State(Run(t, calls[..n])) == State(Run(t, calls))
    decreases |calls|
  {
    hide Step;
    if n < |calls| {
      var rest := calls[..|calls| - 1];
      assert rest[..n] == calls[..n];
      SameVersionSameState(t, rest, n);
      StepTellsEveryChange(Run(t, rest), t, calls[|calls| - 1]);
    } else {
      assert calls[..n] == calls;
    }
  }

  // ----- no restart without neutral ---------------------------------------------------------------

  /** In this step the client's run ends or it asks in vain while something blocks, and it stays. */
  predicate LosesTheRobot(s: Session, t: Timing, call: Call, client: Client) {
    && client.Some?
    && !(call.CallDisconnect? && call.client == client)
    && (|| (s.owner == client && Step(s, t, call).owner != client)
        || (call.CallRequest? && call.client == client
            && Request(s, t, client, call.linear, call.angular, call.now).1.BlockedBy?))
  }

  predicate IsNeutralRequest(call: Call, client: Client) {
    call.CallRequest? && call.client == client && call.linear == Num(0.0) && call.angular == Num(0.0)
  }

  lemma LosingOwesNeutral(s: Session, t: Timing, call: Call, client: Client)
    requires LosesTheRobot(s, t, call, client)
    ensures client in Step(s, t, call).needsNeutral
  {
    ShapeOf(s, t, call);
    hide Step, Request;
  }

  /** The debt is only paid by a neutral request that makes the client the owner, or by leaving. */
  lemma DebtStays(s: Session, t: Timing, call: Call, client: Client)
    requires client.Some? && client in s.needsNeutral && s.owner != client
    requires !(call.CallDisconnect? && call.client == client)
    ensures client in Step(s, t, call).needsNeutral || IsNeutralRequest(call, client)
    ensures Step(s, t, call).owner == client ==> IsNeutralRequest(call, client)
    ensures IsNeutralRequest(call, client) && client !in Step(s, t, call).needsNeutral ==>
              Step(s, t, call).owner == client
  {
    ShapeOf(s, t, call);
    hide Step, Request;
  }

  /**
   * After a client lost the robot at step `i`, the request by which it next becomes the owner, at
   * step `j`, is exactly (0, 0), unless it disconnected in between.
   */
  lemma RestartBeginsAtNeutral(t: Timing, calls: seq<Call>, i: nat, j: nat, client: Client)
    requires i < j < |calls|
    requires LosesTheRobot(Run(t, calls[..i]), t, calls[i], client)
    requires forall n :: i < n <= j ==> Run(t, calls[..n]).owner != client
    requires forall n :: i < n < j ==> !(calls[n].CallDisconnect? && calls[n].client == client)
    requires Run(t, calls[..j + 1]).owner == client
    ensures IsNeutralRequest(calls[j], client)
  {
    hide Step;
    OneMore(t, calls, i);
    LosingOwesNeutral(Run(t, calls[..i]), t, calls[i], client);
    DebtLasts(t, calls, i + 1, j, client);
    OneMore(t, calls, j);
    OwnerBecomesByRequest(Run(t, calls[..j]), t, calls[j], client);
    DebtStays(Run(t, calls[..j]), t, calls[j], client);
  }

  lemma OneMore(t: Timing, calls: seq<Call>, n: nat)
    requires n < |calls|
    ensures Run(t, calls[..n + 1]) == Step(Run(t, calls[..n]), t, calls[n])
  {
    assert calls[..n + 1][..n] == calls[..n];
  }

  lemma OwnerBecomesByRequest(s: Session, t: Timing, call: Call, client: Client)
    requires client.Some? && s.owner != client
    ensures Step(s, t, call).owner == client ==> call.CallRequest? && call.client == client
  {
    ShapeOf(s, t, call);
    hide Step, Request;
  }

  lemma {:induction false} DebtLasts(t: Timing, calls: seq<Call>, n: nat, j: nat, client: Client)
    requires client.Some? && n <= j < |calls|
    requires client in Run(t, calls[..n]).needsNeutral
    requires forall k :: n <= k <= j ==> Run(t, calls[..k]).owner != client
    requires forall k :: n <= k < j ==> !(calls[k].CallDisconnect? && calls[k].client == client)
    ensures client in Run(t, calls[..j]).needsNeutral
    decreases j - n
  {
    hide Step;
    if n < j {
      OneMore(t, calls, n);
      DebtStays(Run(t, calls[..n]), t, calls[n], client);
      assert Run(t, calls[..n + 1]).owner != client;
      DebtLasts(t, calls, n + 1, j, client);
    }
  }

  // ----- stale requests ---------------------------------------------------------------------------

  /** In this step a run ends by somebody or something other than its owner. */
  predicate EndsForeign(s: Session, t: Timing, call: Call) {
    var s' := Step(s, t, call);
    && s.owner.Some? && s'.owner.None?
    && s'.lastStop.Some? && s'.lastStop.value.byWhom != s.owner
  }

  lemma OnlyForeignEndsGuard(s: Session, t: Timing, call: Call)
    ensures var s' := Step(s, t, call);
            if EndsForeign(s, t, call)
            then s'.guardClient == s.owner && s'.guardUntil == call.now + RESTART_GUARD_SEC
            else s'.guardClient == s.guardClient && s'.guardUntil == s.guardUntil
  {
    ShapeOf(s, t, call);
    hide Step, Request;
  }

  lemma {:induction false} GuardLasts(t: Timing, calls: seq<Call>, n: nat, j: nat)
    requires n <= j <= |calls|
    requires forall k :: n <= k < j ==> !EndsForeign(Run(t, calls[..k]), t, calls[k])
    ensures Run(t, calls[..j]).guardClient == Run(t, calls[..n]).guardClient
    ensures Run(t, calls[..j]).guardUntil == Run(t, calls[..n]).guardUntil
    decreases j - n
  {
    hide Step, EndsForeign;
    if n < j {
      OneMore(t, calls, n);
      OnlyForeignEndsGuard(Run(t, calls[..n]), t, calls[n]);
      GuardLasts(t, calls, n + 1, j);
    }
  }

  /**
   * When something other than its owner ended a run at step `i`, every request of that owner within
   * the guard time is dropped without effect, until another run is ended that way.
   */
  lemma EndedOwnerIsStale(t: Timing, calls: seq<Call>, i: nat, j: nat, linear: Number, angular: Number, now: real)
    requires i < j <= |calls|
    requires EndsForeign(Run(t, calls[..i]), t, calls[i])
    requires forall k :: i < k < j ==> !EndsForeign(Run(t, calls[..k]), t, calls[k])
    requires now < calls[i].now + 1.0
    ensures var s := Run(t, calls[..j]);
            Request(s, t, Run(t, calls[..i]).owner, linear, angular, now) == (s, Stale)
  {
    hide Step;
    OneMore(t, calls, i);
    OnlyForeignEndsGuard(Run(t, calls[..i]), t, calls[i]);
    assert Run(t, calls[..i]).owner.Some?;
    GuardLasts(t, calls, i + 1, j);
  }
}
