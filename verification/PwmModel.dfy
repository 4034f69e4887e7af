/**
 * Ownership of the exported PWM channel. Every call of `SysfsOutput` is a straight list of file
 * operations, carried out in order until one fails; the machine can stop between any two of them.
 * The two marker files are exact state. What the channel's attributes read, and whether writing
 * them works, is up to the outside world.
 */
module PwmModel {
  import opened Common

  const PERIOD_NS := 20000000
  const SUFFIX := "/rp1/pwm@98000"

  datatype Attr = Period | DutyCycle | Polarity | Enable

  /** The text of an attribute without its line end; `Decimal` is the canonical decimal text. */
  datatype Reading = Decimal(n: nat) | Word(text: string)

  const NORMAL := Word("normal")

  /** What a marker holds: nothing to rely on until it was written and synced as a whole. */
  datatype Mark = Unsaved | Saved(text: string)

  datatype Op =
    | Begin                             // a new process
    | MatchOwner(text: string)          // the owner file is ours and says this
    | NoOwner                           // there is no owner file
    | MarkPending                       // create the pending file, which must not exist
    | SavePending(text: string)
    | Export
    | Appear                            // the exported channel shows its attributes
    | Expect(attr: Attr, value: Reading)
    | Differ(attr: Attr, value: Reading) // the attribute is unreadable or something else
    | Put(attr: Attr, value: Reading)
    | Trust                             // initialized_ becomes true
    | Aim(us: nat)                      // expected_us_ becomes us
    | Link
    | Unlink
    | Refuse                            // return false

  datatype Event = Did(op: Op) | Failed(op: Op)

  /** The marker files, the process's two fields, and all that was ever done. */
  datatype World = World(owner: Option<Mark>, pending: Option<Mark>, trusted: bool, aim: nat, trace: seq<Event>)

  const BOOT := World(None, None, false, 0, [])

  // ----- one operation ---------------------------------------------------------------------------

  /** The first 1024 bytes, all that is read of the owner file. */
  function Head(text: string): string {
    if |text| <= 1024 then text else text[..1024]
  }

  /** Whether the operation can work at all, as far as the marker files decide it. */
  predicate Possible(w: World, op: Op) {
    match op
    case MatchOwner(text) => w.owner.Some? && w.owner.value.Saved? && Head(w.owner.value.text) == text
    case NoOwner => w.owner.None?
    case MarkPending => w.pending.None?
    case SavePending(_) => w.pending.Some?
    case Link => w.owner.None? && w.pending.Some?
    case Unlink => w.pending.Some?
    case Refuse => false
    case _ => true
  }

  /** The operation works. */
  function After(w: World, op: Op): World {
    var w1 := w.(trace := w.trace + [Did(op)]);
    match op
    case Begin => w1.(trusted := false, aim := 0)
    case MarkPending => w1.(pending := Some(Unsaved))
    case SavePending(text) => w1.(pending := Some(Saved(text)))
    case Trust => w1.(trusted := true)
    case Aim(us) => w1.(aim := us)
    case Link => w1.(owner := w.pending)
    case Unlink => w1.(pending := None)
    case _ => w1
  }

  /** The operation reports failure; a failed save leaves a marker with unknown contents. */
  function Fails(w: World, op: Op): World {
    var w1 := w.(trace := w.trace + [Failed(op)]);
    if op.SavePending? then w1.(pending := Some(Unsaved)) else w1
  }

  // ----- the calls ---------------------------------------------------------------------------------

  const READS := [Expect(Period, Decimal(PERIOD_NS)), Expect(Polarity, NORMAL), Expect(Enable, Decimal(1))]

  function CheckOps(us: nat): seq<Op> {
    READS + [Expect(DutyCycle, Decimal(us * 1000))]
  }

  function PulseOps(us: nat): seq<Op> {
    READS + [Put(DutyCycle, Decimal(us * 1000)), Aim(us)] + CheckOps(us)
  }

  /** `normal` is what the polarity turns out to be. */
  function EmergencyOps(normal: bool): seq<Op> {
    if normal then [Expect(Polarity, NORMAL), Put(DutyCycle, Decimal(0)), Aim(0)] + CheckOps(0)
    else [Differ(Polarity, NORMAL), Put(Enable, Decimal(0)), Refuse]
  }

  function FreshOps(text: string): seq<Op> {
    [NoOwner, MarkPending, SavePending(text), Export, Appear,
     Expect(Enable, Decimal(0)), Expect(DutyCycle, Decimal(0)),
     Put(Period, Decimal(PERIOD_NS)), Put(DutyCycle, Decimal(0)), Put(Polarity, NORMAL), Put(Enable, Decimal(1)), Trust]
    + PulseOps(0) + [Link, Unlink]
  }

  function ExistingOps(text: string): seq<Op> {
    [MatchOwner(text), Expect(Polarity, NORMAL), Expect(Period, Decimal(PERIOD_NS)), Expect(Enable, Decimal(1)),
     Put(DutyCycle, Decimal(0)), Trust]
    + PulseOps(0)
  }

  datatype Call =
    | Restart
    | Initialize(text: string, existing: bool, recoveryOnly: bool, normal: bool)
    | NoChip                             // initialize without a usable controller
    | WritePulse(us: int)
    | EmergencyLow(normal: bool)
    | Check

  predicate Allowed(us: int) {
    us == 0 || 500 <= us <= 2500
  }

  /** The operations of a call made in state `w`. */
  function Program(w: World, call: Call): seq<Op> {
    match call
    case Restart => [Begin]
    case Initialize(text, existing, recoveryOnly, normal) =>
      if existing then (if recoveryOnly then [MatchOwner(text), Trust] + EmergencyOps(normal) else ExistingOps(text))
      else (if recoveryOnly then [NoOwner, Refuse] else FreshOps(text))
    case NoChip => [Refuse]
    case WritePulse(us) => if w.trusted && Allowed(us) then PulseOps(us) else [Refuse]
    case EmergencyLow(normal) => if w.trusted then EmergencyOps(normal) else [Refuse]
    case Check => if w.trusted then CheckOps(w.aim) else [Refuse]
  }

  /** After the first `k` operations worked. */
  function Steps(w: World, ops: seq<Op>, k: nat): World
    requires k <= |ops|
  {
    if k == 0 then w else After(Steps(w, ops, k - 1), ops[k - 1])
  }

  ghost predicate AllPossible(w: World, ops: seq<Op>, k: nat)
    requires k <= |ops|
  {
    forall j :: 0 <= j < k ==> Possible(Steps(w, ops, j), ops[j])
  }

  /**
   * A call of which the first `worked` operations worked. Then the next one failed, or the machine
   * stopped and a new process comes up; with all of them done, the call returned true.
   */
  datatype Try = Try(call: Call, worked: nat, failed: bool)

  ghost predicate CanBe(w: World, t: Try) {
    t.worked <= |Program(w, t.call)| && AllPossible(w, Program(w, t.call), t.worked)
  }

  ghost predicate Succeeds(w: World, t: Try) {
    t.worked == |Program(w, t.call)|
  }

  ghost function Result(w: World, t: Try): World
    requires CanBe(w, t)
  {
    var ops := Program(w, t.call);
    var done := Steps(w, ops, t.worked);
    if t.worked == |ops| then done else if t.failed then Fails(done, ops[t.worked]) else After(done, Begin)
  }

  ghost function Apply(w: World, t: Try): World {
    if CanBe(w, t) then Result(w, t) else w
  }

  /** Any number of calls, failures, crashes and restarts. */
  ghost function History(w: World, tries: seq<Try>): World
    decreases |tries|
  {
    if tries == [] then w else Apply(History(w, tries[..|tries| - 1]), tries[|tries| - 1])
  }
}
