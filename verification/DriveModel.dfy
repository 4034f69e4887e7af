/**
 * A page's driving run: who drives, what stops it, and when it may start again. The functions give
 * the effect of each call on the session; `DriveSession` proves the class against them.
 */
module DriveModel {
  import opened Common

  const RESTART_GUARD_SEC: real := 1.0
  const STARTUP_NEUTRAL_SEC: real := 0.3

  /** Why driving is not possible right now, in the order the pages show them. */
  datatype Blocker = NotAllowed | EstopUnknown | EmergencyStop | NoDriveNode | OtherPublisher | NoMotionPermission

  const BLOCKER_ORDER := [NotAllowed, EstopUnknown, EmergencyStop, NoDriveNode, OtherPublisher, NoMotionPermission]

  /** A blocker is a plain flag, or names the nodes that publish besides the bridge. */
  datatype Detail = Flag | Nodes(names: set<string>)

  /** A page; `None` is the bridge itself or nobody. */
  type Client = Option<int>

  /** What `_number` makes of a value: finite numbers only. */
  datatype Number = NotNumber | Num(value: real)

  datatype Arbiter = Arbiter(
    labPermitted: bool,
    maxLinear: Option<real>,
    maxAngular: Option<real>,
    labCount: Option<int>,
    activeSource: string,
    switchReason: string,
    labRefusal: string)

  datatype EndReason = Blocked(code: Blocker) | Stopped | Timeout | TimeLimit | Disconnected | Controller | BadValue

  datatype LastStop = LastStop(reason: EndReason, byWhom: Client)

  datatype Timing = Timing(deadmanSec: real, maxRunSec: real, stopHoldSec: real)

  datatype Session = Session(
    blockers: map<Blocker, Detail>,
    arbiter: Option<Arbiter>,
    driveSubscribed: bool,
    countAtStart: int,
    seenLab: bool,
    owner: Client,
    linear: real,
    angular: real,
    heardAt: real,
    startedAt: real,
    holdUntil: Option<real>,
    guardClient: Client,
    guardUntil: real,
    needsNeutral: set<Client>,
    lastStop: Option<LastStop>,
    version: nat)

  const START := Session(map[NoDriveNode := Flag, EstopUnknown := Flag], None, false, 0, false, None, 0.0, 0.0,
                         0.0, 0.0, None, None, 0.0, {}, None, 0)

  /** Why a request is refused. */
  datatype Reply = Accepted | Stale | BlockedBy(code: Blocker) | Busy | Invalid | NeedsNeutral

  // ----- views ---------------------------------------------------------------------------------

  predicate Allowed(a: Option<Arbiter>) {
    a.Some? && a.value.labPermitted
  }

  function Limits(a: Option<Arbiter>): Option<(real, real)> {
    if a.None? || a.value.maxLinear.None? || a.value.maxAngular.None? then None
    else Some((AbsReal(a.value.maxLinear.value), AbsReal(a.value.maxAngular.value)))
  }

  /** The first blocker in display order. */
  function FirstBlocker(blockers: map<Blocker, Detail>, order: seq<Blocker>): Option<Blocker>
    decreases order
  {
    if order == [] then None
    else if order[0] in blockers then Some(order[0])
    else FirstBlocker(blockers, order[1..])
  }

  /** The payload the pages are shown. */
  datatype Shown = Shown(
    allowed: bool,
    blockers: map<Blocker, Detail>,
    owner: Client,
    linear: real,
    angular: real,
    limits: Option<(real, real)>,
    lastStop: Option<LastStop>)

  function State(s: Session): Shown {
    Shown(Allowed(s.arbiter), s.blockers, s.owner, s.linear, s.angular, Limits(s.arbiter), s.lastStop)
  }

  // ----- calls ---------------------------------------------------------------------------------

  function End(s: Session, t: Timing, reason: EndReason, byWhom: Client, now: real): Session {
    var foreign := s.owner.Some? && byWhom != s.owner;
    s.(needsNeutral := if s.owner.Some? then s.needsNeutral + {s.owner} else s.needsNeutral,
       guardClient := if foreign then s.owner else s.guardClient,
       guardUntil := if foreign then now + RESTART_GUARD_SEC else s.guardUntil,
       owner := None, linear := 0.0, angular := 0.0,
       holdUntil := Some(now + t.stopHoldSec),
       lastStop := Some(LastStop(reason, byWhom)),
       version := s.version + 1)
  }

  function Detailed(s: Session, code: Blocker): Option<Detail> {
    if code in s.blockers then Some(s.blockers[code]) else None
  }

  function SetBlocker(s: Session, t: Timing, code: Blocker, detail: Option<Detail>, now: real): Session {
    var blockers := if detail.None? then s.blockers - {code} else s.blockers[code := detail.value];
    var set1 := s.(blockers := blockers);
    if Detailed(s, code) == detail then set1 else
      var told := set1.(version := s.version + 1);
      if detail.Some? && s.owner.Some? then End(told, t, Blocked(code), None, now) else told
  }

  function FlagIf(on: bool): Option<Detail> {
    if on then Some(Flag) else None
  }

  function SetDriveNode(s: Session, t: Timing, now: real): Session {
    SetBlocker(s, t, NoDriveNode, FlagIf(!(s.driveSubscribed && s.arbiter.Some?)), now)
  }

  function SetGraph(s: Session, t: Timing, others: set<string>, subscribed: bool, now: real): Session {
    var s1 := SetBlocker(s, t, OtherPublisher, if others == {} then None else Some(Nodes(others)), now);
    SetDriveNode(s1.(driveSubscribed := subscribed), t, now)
  }

  function SetArbiter(s: Session, t: Timing, status: Option<Arbiter>, now: real): Session {
    var changed := Allowed(status) != Allowed(s.arbiter) || Limits(status) != Limits(s.arbiter);
    var s1 := s.(arbiter := status, version := if changed then s.version + 1 else s.version);
    var s2 := SetBlocker(s1, t, NotAllowed, FlagIf(status.Some? && !Allowed(status)), now);
    var s3 := SetDriveNode(s2, t, now);
    if s3.owner.None? || status.None? then s3 else FollowArbiter(s3, t, status.value, now)
  }

  /** A status that counts a lab command of this run can end the run. */
  function FollowArbiter(s: Session, t: Timing, a: Arbiter, now: real): Session {
    if a.labCount.None? || a.labCount.value <= s.countAtStart then s else
      var s1 := if a.activeSource == "lab" then s.(seenLab := true) else s;
      var tookOver := s1.seenLab && a.activeSource != "lab" && a.switchReason == "controller";
      if a.labRefusal == "controller" || a.labRefusal == "locked" || tookOver
      then End(s1, t, Controller, None, now) else s1
  }

  function Request(s: Session, t: Timing, client: Client, linear: Number, angular: Number, now: real)
    : (Session, Reply)
  {
    if client.Some? && client == s.guardClient && now < s.guardUntil then (s, Stale) else
      var blocker := FirstBlocker(s.blockers, BLOCKER_ORDER);
      if blocker.Some? then (s.(needsNeutral := s.needsNeutral + {client}), BlockedBy(blocker.value))
      else if s.owner.Some? && s.owner != client then (s, Busy)
      else if linear.NotNumber? || angular.NotNumber? then
        (if s.owner == client then End(s, t, BadValue, client, now) else s, Invalid)
      else if client in s.needsNeutral && (linear.value != 0.0 || angular.value != 0.0) then (s, NeedsNeutral)
      else (Accept(s, client, linear.value, angular.value, now), Accepted)
  }

  function BeginRun(s: Session, client: Client, now: real): Session {
    s.(owner := client, startedAt := now,
       countAtStart := if s.arbiter.Some? && s.arbiter.value.labCount.Some? then s.arbiter.value.labCount.value else 0,
       seenLab := false, lastStop := None, version := s.version + 1)
  }

  function Accept(s: Session, client: Client, linear: real, angular: real, now: real): Session {
    var s1 := s.(needsNeutral := s.needsNeutral - {client});
    var s2 := if s1.owner.Some? then s1 else BeginRun(s1, client, now);
    var moved := linear != s2.linear || angular != s2.angular;
    s2.(linear := linear, angular := angular, heardAt := now,
        version := if moved then s2.version + 1 else s2.version)
  }

  function Stop(s: Session, t: Timing, client: Client, now: real, onlyOwn: bool): (Session, bool) {
    if onlyOwn && s.owner != client then (s, false)
    else if s.owner.Some? then (End(s, t, Stopped, client, now), true)
    else (s, false)
  }

  function Disconnect(s: Session, t: Timing, client: Client, now: real): Session {
    var s1 := if s.owner == client then End(s, t, Disconnected, client, now) else s;
    s1.(needsNeutral := s1.needsNeutral - {client})
  }

  function Tick(s: Session, t: Timing, now: real): (Session, Option<(real, real)>) {
    if s.owner.Some? && now - s.heardAt <= t.deadmanSec && now - s.startedAt <= t.maxRunSec then
      (s, Some(if now - s.startedAt < STARTUP_NEUTRAL_SEC then (0.0, 0.0) else (s.linear, s.angular)))
    else
      var s1 := if s.owner.None? then s
                else if now - s.heardAt > t.deadmanSec then End(s, t, Timeout, None, now)
                else End(s, t, TimeLimit, None, now);
      (s1, if s1.holdUntil.Some? && now < s1.holdUntil.value then Some((0.0, 0.0)) else None)
  }

  // ----- runs ----------------------------------------------------------------------------------

  datatype Call =
    | CallGraph(others: set<string>, subscribed: bool, now: real)
    | CallEmergencyStop(active: bool, now: real)
    | CallEstopKnown(known: bool, now: real)
    | CallMotionPermission(allowed: bool, now: real)
    | CallArbiter(status: Option<Arbiter>, now: real)
    | CallRequest(client: Client, linear: Number, angular: Number, now: real)
    | CallStop(client: Client, now: real, onlyOwn: bool)
    | CallDisconnect(client: Client, now: real)
    | CallTick(now: real)

  function Step(s: Session, t: Timing, call: Call): Session {
    match call
    case CallGraph(others, subscribed, now) => SetGraph(s, t, others, subscribed, now)
    case CallEmergencyStop(active, now) => SetBlocker(s, t, EmergencyStop, FlagIf(active), now)
    case CallEstopKnown(known, now) => SetBlocker(s, t, EstopUnknown, FlagIf(!known), now)
    case CallMotionPermission(allowed, now) => SetBlocker(s, t, NoMotionPermission, FlagIf(!allowed), now)
    case CallArbiter(status, now) => SetArbiter(s, t, status, now)
    case CallRequest(client, linear, angular, now) => Request(s, t, client, linear, angular, now).0
    case CallStop(client, now, onlyOwn) => Stop(s, t, client, now, onlyOwn).0
    case CallDisconnect(client, now) => Disconnect(s, t, client, now)
    case CallTick(now) => Tick(s, t, now).0
  }

  function Run(t: Timing, calls: seq<Call>): Session
    decreases |calls|
  {
    if calls == [] then START else Step(Run(t, calls[..|calls| - 1]), t, calls[|calls| - 1])
  }
}
