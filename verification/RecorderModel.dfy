/**
 * The recorder of drives nobody recorded from a page: it cuts the payloads the bridge sends into
 * segments. `Step` gives the effect of each call, with the history of what was accepted and how it
 * was cut; the class is proved against it.
 */
module RecorderModel {
  import opened Common

  const MOVING_LINEAR: real := 0.02
  const MOVING_ANGULAR: real := 0.1
  const MAX_MOTION_STEP: real := 0.25

  /** The recorded streams, and any other. */
  datatype Stream = Drive | Twist | Scan | Odom | Roller | Shot | Estop | Unrecorded

  /** The numbers of a payload that tell motion, where it has them, and the rest of it. */
  datatype Payload = Payload(linear: Option<real>, angular: Option<real>, v: Option<real>, w: Option<real>, body: int)

  predicate Beyond(x: Option<real>, limit: real) {
    x.Some? && AbsReal(x.value) > limit
  }

  predicate Moving(stream: Stream, p: Payload) {
    match stream
    case Twist => Beyond(p.linear, MOVING_LINEAR) || Beyond(p.angular, MOVING_ANGULAR)
    case Drive => Beyond(p.v, MOVING_LINEAR) || Beyond(p.w, MOVING_ANGULAR)
    case Odom => Beyond(p.v, MOVING_LINEAR) || Beyond(p.w, MOVING_ANGULAR)
    case _ => false
  }

  datatype Params = Params(preRoll: real, stillSec: real, splitSec: real, minMotionSec: real, labGrace: real)

  /** A payload with the time it was fed at. */
  datatype Item = Item(now: real, stream: Stream, payload: Payload)

  datatype Why = Done | Split | LabStarted

  /** A segment: the accepted payloads from `lo` to before `hi`, and whether it was long enough to keep. */
  datatype Segment = Segment(lo: nat, hi: nat, why: Why, kept: bool)

  /** What the sink is given. */
  datatype Recording = Recording(items: seq<Item>, commanded: bool, why: Why)

  datatype Recorder = Recorder(
    buffer: seq<Item>,
    recording: bool,
    blocked: bool,
    labEndedAt: Option<real>,
    start: real,
    lastMotion: Option<real>,
    motionSeconds: real,
    commanded: bool,
    sunk: seq<Recording>,
    // the history
    calls: nat,
    accepted: seq<Item>,
    sources: seq<nat>,   // the number of the call that brought each accepted payload
    segments: seq<Segment>,
    labCuts: seq<nat>)

  const START := Recorder([], false, false, None, 0.0, None, 0.0, false, [], 0, [], [], [], [])

  /** The optional times are set wherever the code subtracts them. */
  predicate TimesSet(r: Recorder) {
    && (r.recording ==> r.lastMotion.Some? && !r.blocked)
    && (r.blocked && r.labEndedAt.Some? ==> r.lastMotion.Some?)
  }

  // ----- the operations ------------------------------------------------------------------------

  /** The accepted payloads end with the buffer; this is where it begins among them. */
  function BufferStart(r: Recorder): int {
    |r.accepted| - |r.buffer|
  }

  function Finish(r: Recorder, p: Params, why: Why): Recorder
    requires BufferStart(r) >= 0
  {
    var kept := !(r.motionSeconds < p.minMotionSec || r.buffer == []);
    r.(buffer := [], recording := false,
       sunk := if kept then r.sunk + [Recording(r.buffer, r.commanded, why)] else r.sunk,
       segments := r.segments + [Segment(BufferStart(r), |r.accepted|, why, kept)])
  }

  function Lab(r: Recorder, p: Params, now: real, active: bool): Recorder
    requires BufferStart(r) >= 0
  {
    if active then
      (if r.recording then Finish(r, p, LabStarted) else r).(
        buffer := [], blocked := true, labEndedAt := None, labCuts := r.labCuts + [|r.accepted|])
    else if r.blocked && r.labEndedAt.None? then r.(labEndedAt := Some(now), lastMotion := Some(now))
    else r
  }

  /** While the robot comes to rest after a lab run, or the controller takes over. */
  function Unblock(r: Recorder, p: Params, stream: Stream, moving: bool, now: real): Recorder
    requires TimesSet(r) && (r.blocked ==> r.labEndedAt.Some?)
  {
    if !r.blocked then r
    else if moving && stream == Twist && now - r.labEndedAt.value >= p.labGrace then r.(blocked := false)
    else if moving then r.(lastMotion := Some(now))
    else if now - r.lastMotion.value >= p.preRoll then r.(blocked := false, lastMotion := None)
    else r
  }

  predicate CommandsMotion(item: Item) {
    item.stream == Twist && Moving(item.stream, item.payload)
  }

  function Begin(r: Recorder): Recorder
    requires r.buffer != []
  {
    r.(recording := true, start := r.buffer[0].now, motionSeconds := 0.0,
       commanded := exists item :: item in r.buffer && CommandsMotion(item))
  }

  function Take(r: Recorder, item: Item): Recorder {
    r.(buffer := r.buffer + [item], accepted := r.accepted + [item], sources := r.sources + [r.calls])
  }

  function NoteMotion(r: Recorder, stream: Stream, now: real): Recorder
    requires r.buffer != []
  {
    var gap := if r.recording && r.lastMotion.Some?
               then (if now - r.lastMotion.value < MAX_MOTION_STEP then now - r.lastMotion.value else MAX_MOTION_STEP)
               else 0.0;
    var r1 := r.(motionSeconds := r.motionSeconds + gap, lastMotion := Some(now),
                 commanded := r.commanded || stream == Twist);
    if r1.recording then r1 else Begin(r1)
  }

  /** Idle, only the last `preRoll` seconds are kept. */
  function Recent(buffer: seq<Item>, now: real, preRoll: real): seq<Item>
    decreases |buffer|
  {
    if buffer == [] then [] else
      Recent(buffer[..|buffer| - 1], now, preRoll)
      + (if now - buffer[|buffer| - 1].now <= preRoll then [buffer[|buffer| - 1]] else [])
  }

  /** After a split the next segment starts at once. */
  function GoOn(r: Recorder, now: real): Recorder {
    r.(recording := true, start := now, motionSeconds := 0.0, commanded := false)
  }

  function Check(r: Recorder, p: Params, now: real): Recorder
    requires TimesSet(r) && BufferStart(r) >= 0
  {
    if r.recording then
      if now - r.lastMotion.value >= p.stillSec then Finish(r, p, Done).(lastMotion := None)
      else if now - r.start >= p.splitSec then
        GoOn(Finish(r, p, Split), now)
      else r
    else if !r.blocked then r.(buffer := Recent(r.buffer, now, p.preRoll))
    else r
  }

  function Feed(r: Recorder, p: Params, stream: Stream, payload: Payload, now: real, labActive: bool): Recorder
    requires TimesSet(r) && BufferStart(r) >= 0
  {
    if stream == Unrecorded then r else
      var r1 := Lab(r, p, now, labActive);
      if labActive then r1 else
        var moving := Moving(stream, payload);
        var r2 := Unblock(r1, p, stream, moving, now);
        if r2.blocked then r2 else
          var r3 := Take(r2, Item(now, stream, payload));
          var r4 := if moving then NoteMotion(r3, stream, now) else r3;
          Check(r4, p, now)
  }

  datatype Call =
    | CallFeed(stream: Stream, payload: Payload, now: real, labActive: bool)
    | CallTick(now: real, labActive: bool)
    | CallFlush(now: real)

  function Step(r: Recorder, p: Params, call: Call): Recorder
    requires TimesSet(r) && BufferStart(r) >= 0
  {
    (match call
     case CallFeed(stream, payload, now, labActive) => Feed(r, p, stream, payload, now, labActive)
     case CallTick(now, labActive) => Check(Lab(r, p, now, labActive), p, now)
     case CallFlush(now) => if r.recording then Finish(r, p, Done) else r).(calls := r.calls + 1)
  }

  // ----- what is true of every history -----------------------------------------------------------

  predicate InTimeOrder(items: seq<Item>, clock: real) {
    && (forall i, j :: 0 <= i < j < |items| ==> items[i].now <= items[j].now)
    && (forall i :: 0 <= i < |items| ==> items[i].now <= clock)
  }

  /** The buffer is the end of what was accepted, and the segments before it do not overlap. */
  ghost predicate Partition(r: Recorder) {
    && BufferStart(r) >= 0
    && r.buffer == r.accepted[BufferStart(r)..]
    && (forall i :: 0 <= i < |r.segments| ==> r.segments[i].lo <= r.segments[i].hi <= BufferStart(r))
    && (forall i, j :: 0 <= i < j < |r.segments| ==> r.segments[i].hi <= r.segments[j].lo)
  }

  /** No segment, and not the buffer, reaches across the start of a lab run. */
  ghost predicate LabSeparates(r: Recorder) {
    forall c :: c in r.labCuts ==>
      && c <= BufferStart(r)
      && forall s :: s in r.segments ==> s.hi <= c || c <= s.lo
  }

  /** A segment begun by a split starts exactly where the one before it ended. */
  ghost predicate SplitsAdjoin(r: Recorder) {
    && (forall i :: 0 <= i < |r.segments| - 1 && r.segments[i].why == Split ==>
          r.segments[i + 1].lo == r.segments[i].hi)
    && (r.segments != [] && r.segments[|r.segments| - 1].why == Split ==>
          r.recording && BufferStart(r) == r.segments[|r.segments| - 1].hi)
  }

  /** The sink got the kept segments, in order, each with exactly its accepted payloads. */
  ghost predicate SunkMatches(r: Recorder) {
    SunkIs(r.sunk, r.segments, r.accepted)
  }

  ghost predicate SunkIs(sunk: seq<Recording>, segments: seq<Segment>, accepted: seq<Item>)
    decreases |segments|
  {
    if segments == [] then sunk == [] else
      var s, before := segments[|segments| - 1], segments[..|segments| - 1];
      if !s.kept then SunkIs(sunk, before, accepted) else
        && sunk != [] && s.lo < s.hi <= |accepted|
        && sunk[|sunk| - 1].items == accepted[s.lo..s.hi]
        && sunk[|sunk| - 1].why == s.why
        && SunkIs(sunk[..|sunk| - 1], before, accepted)
  }

  /** Each accepted payload came with its own call, in order. */
  predicate CallsIncrease(sources: seq<nat>, calls: nat) {
    && (forall i, j :: 0 <= i < j < |sources| ==> sources[i] < sources[j])
    && (forall i :: 0 <= i < |sources| ==> sources[i] < calls)
  }

  ghost predicate Inv(r: Recorder, clock: real) {
    && TimesSet(r)
    && InTimeOrder(r.accepted, clock)
    && Partition(r)
    && LabSeparates(r)
    && SplitsAdjoin(r)
    && SunkMatches(r)
    && |r.sources| == |r.accepted| && CallsIncrease(r.sources, r.calls)
  }

  lemma StartHolds(clock: real)
    ensures Inv(START, clock)
  {
  }

  /** In time order, forgetting the old payloads drops exactly a front part of the buffer. */
  lemma {:induction false} RecentIsSuffix(buffer: seq<Item>, now: real, preRoll: real) returns (n: nat)
    requires forall i, j :: 0 <= i < j < |buffer| ==> buffer[i].now <= buffer[j].now
    ensures n <= |buffer| && Recent(buffer, now, preRoll) == buffer[n..]
    ensures n > 0 ==> now - buffer[n - 1].now > preRoll
    ensures forall i :: n <= i < |buffer| ==> now - buffer[i].now <= preRoll
    decreases |buffer|
  {
    if buffer == [] {
      n := 0;
    } else if now - buffer[|buffer| - 1].now > preRoll {
      AllOld(buffer, now, preRoll, buffer[|buffer| - 1].now);
      n := |buffer|;
    } else {
      var rest, last := buffer[..|buffer| - 1], buffer[|buffer| - 1];
      n := RecentIsSuffix(rest, now, preRoll);
      assert buffer[n..] == rest[n..] + [last];
    }
  }

  lemma {:induction false} AllOld(buffer: seq<Item>, now: real, preRoll: real, t: real)
    requires forall i :: 0 <= i < |buffer| ==> buffer[i].now <= t
    requires now - t > preRoll
    ensures Recent(buffer, now, preRoll) == []
    decreases |buffer|
  {
    if buffer != [] {
      AllOld(buffer[..|buffer| - 1], now, preRoll, t);
    }
  }

  lemma {:induction false} MoreAccepted(sunk: seq<Recording>, segments: seq<Segment>, accepted: seq<Item>,
                                        more: seq<Item>)
    requires SunkIs(sunk, segments, accepted)
    ensures SunkIs(sunk, segments, accepted + more)
    decreases |segments|
  {
    if segments != [] {
      var s, before := segments[|segments| - 1], segments[..|segments| - 1];
      if s.kept {
        assert (accepted + more)[s.lo..s.hi] == accepted[s.lo..s.hi];
        MoreAccepted(sunk[..|sunk| - 1], before, accepted, more);
      } else {
        MoreAccepted(sunk, before, accepted, more);
      }
    }
  }

  /** A new segment takes the whole buffer. */
  lemma FinishKeeps(r: Recorder, p: Params, why: Why, clock: real)
    requires Inv(r, clock) && r.recording && why != Split
    ensures Inv(Finish(r, p, why), clock)
    ensures Finish(r, p, why).lastMotion.Some? && !Finish(r, p, why).blocked
  {
    hide InTimeOrder, CallsIncrease, LabSeparates, SunkIs;
    FinishSinks(r, p, why);
    SeparatedSegment(r, p, why);
  }

  lemma FinishSinks(r: Recorder, p: Params, why: Why)
    requires Partition(r) && SunkMatches(r)
    ensures SunkMatches(Finish(r, p, why))
  {
    var r' := Finish(r, p, why);
    var s := r'.segments[|r'.segments| - 1];
    assert r'.segments[..|r'.segments| - 1] == r.segments;
    if s.kept {
      assert r'.sunk[..|r'.sunk| - 1] == r.sunk;
      assert r.accepted[s.lo..s.hi] == r.buffer;
    }
  }

  /** A split ends one segment and starts the next at once. */
  lemma SplitKeeps(r: Recorder, p: Params, now: real, clock: real)
    requires Inv(r, clock) && r.recording
    ensures Inv(GoOn(Finish(r, p, Split), now), clock)
  {
    hide InTimeOrder, CallsIncrease, LabSeparates, SunkIs;
    FinishSinks(r, p, Split);
    SeparatedSegment(r, p, Split);
    var r' := Finish(r, p, Split);
    assert LabSeparates(GoOn(r', now)) by { SeparationIgnores(r', GoOn(r', now)); }
  }

  lemma SeparationIgnores(a: Recorder, b: Recorder)
    requires LabSeparates(a) && b.labCuts == a.labCuts && b.segments == a.segments
    requires BufferStart(b) >= BufferStart(a)
    ensures LabSeparates(b)
  {
  }

  /** Idle, dropping the front of the buffer breaks nothing. */
  lemma DropFrontKeeps(r: Recorder, n: nat, clock: real)
    requires Inv(r, clock) && !r.recording && n <= |r.buffer|
    ensures Inv(r.(buffer := r.buffer[n..]), clock)
  {
    hide InTimeOrder, CallsIncrease, LabSeparates, SunkIs;
    var from, r' := BufferStart(r), r.(buffer := r.buffer[n..]);
    assert r.accepted[from..][n..] == r.accepted[from + n..];
    SeparationIgnores(r, r');
  }

  lemma SeparatedSegment(r: Recorder, p: Params, why: Why)
    requires Partition(r) && LabSeparates(r)
    ensures LabSeparates(Finish(r, p, why))
  {
  }

  lemma LabKeeps(r: Recorder, p: Params, now: real, active: bool, clock: real)
    requires Inv(r, clock)
    ensures var r' := Lab(r, p, now, active);
            && Inv(r', clock)
            && (!active && r'.blocked ==> r'.labEndedAt.Some?)
            && r'.accepted == r.accepted && r'.calls == r.calls
  {
    hide InTimeOrder, CallsIncrease, SunkIs, Finish;
    var r1 := if r.recording then Finish(r, p, LabStarted) else r;
    FinishHistory(r, p, LabStarted);
    if active && r.recording {
      FinishKeeps(r, p, LabStarted, clock);
      FinishKeepsCuts(r, p, LabStarted);
    }
    if active {
      LabCutKeeps(r1, clock);
    }
  }

  lemma FinishKeepsCuts(r: Recorder, p: Params, why: Why)
    requires BufferStart(r) >= 0
    ensures Finish(r, p, why).labCuts == r.labCuts && !Finish(r, p, why).recording
  {
  }

  /** A lab run starts: what came before it is cut off from what comes after. */
  lemma LabCutKeeps(r: Recorder, clock: real)
    requires Inv(r, clock) && !r.recording
    ensures Inv(r.(buffer := [], blocked := true, labEndedAt := None, labCuts := r.labCuts + [|r.accepted|]), clock)
  {
    hide InTimeOrder, CallsIncrease, SunkIs;
  }

  lemma TakeKeeps(r: Recorder, item: Item, clock: real)
    requires Inv(r, clock) && clock <= item.now
    ensures var r' := Take(r, item).(calls := r.calls + 1);
            Inv(r', item.now)
  {
    MoreAccepted(r.sunk, r.segments, r.accepted, [item]);
  }

  lemma CheckKeeps(r: Recorder, p: Params, now: real)
    requires Inv(r, now)
    ensures Inv(Check(r, p, now), now)
    ensures Check(r, p, now).accepted == r.accepted && Check(r, p, now).calls == r.calls
  {
    hide Partition, LabSeparates, SplitsAdjoin, SunkMatches, CallsIncrease, InTimeOrder;
    TimesAreSet(r, now);
    if r.recording {
      FinishKeeps(r, p, Done, now);
      WithoutMotion(Finish(r, p, Done), now);
      SplitKeeps(r, p, now, now);
    } else if !r.blocked {
      BufferInOrder(r, now);
      var n := RecentIsSuffix(r.buffer, now, p.preRoll);
      DropFrontKeeps(r, n, now);
    }
  }

  lemma WithoutMotion(r: Recorder, now: real)
    requires Inv(r, now) && !r.recording && !r.blocked
    ensures Inv(r.(lastMotion := None), now)
  {
    hide InTimeOrder, CallsIncrease, SunkIs;
  }

  lemma BufferInOrder(r: Recorder, now: real)
    requires Inv(r, now)
    ensures forall i, j :: 0 <= i < j < |r.buffer| ==> r.buffer[i].now <= r.buffer[j].now
  {
    var from := BufferStart(r);
    forall i, j | 0 <= i < j < |r.buffer| ensures r.buffer[i].now <= r.buffer[j].now {
      assert r.accepted[from + i].now <= r.accepted[from + j].now;
    }
  }

  lemma StepKeeps(r: Recorder, p: Params, call: Call, clock: real)
    requires Inv(r, clock) && clock <= call.now
    ensures Inv(Step(r, p, call), call.now)
  {
    hide Lab, Check, Finish, Inv, Feed;
    Later(r, clock, call.now);
    TimesAreSet(r, call.now);
    match call {
      case CallFeed(stream, payload, now, labActive) =>
        FeedKeeps(r, p, stream, payload, now, labActive);
      case CallTick(now, labActive) =>
        LabKeeps(r, p, now, labActive, now);
        TimesAreSet(Lab(r, p, now, labActive), now);
        CheckKeeps(Lab(r, p, now, labActive), p, now);
        OneMoreCall(Check(Lab(r, p, now, labActive), p, now), r.calls, now);
      case CallFlush(now) =>
        FinishAccepts(r, p);
        if r.recording {
          FinishKeeps(r, p, Done, now);
          OneMoreCall(Finish(r, p, Done), r.calls, now);
        } else {
          OneMoreCall(r, r.calls, now);
        }
    }
  }

  lemma FinishAccepts(r: Recorder, p: Params)
    requires BufferStart(r) >= 0
    ensures Finish(r, p, Done).accepted == r.accepted && Finish(r, p, Done).calls == r.calls
  {
  }

  lemma Later(r: Recorder, clock: real, now: real)
    requires Inv(r, clock) && clock <= now
    ensures Inv(r, now)
  {
  }

  lemma OneMoreCall(r: Recorder, calls: nat, now: real)
    requires Inv(r, now) && r.calls == calls
    ensures Inv(r.(calls := calls + 1), now)
  {
  }

  lemma FeedKeeps(r: Recorder, p: Params, stream: Stream, payload: Payload, now: real, labActive: bool)
    requires Inv(r, now)
    ensures Inv(Feed(r, p, stream, payload, now, labActive).(calls := r.calls + 1), now)
  {
    hide Lab, Check, NoteMotion, Inv;
    if stream == Unrecorded {
      OneMoreCall(r, r.calls, now);
    } else {
      LabKeeps(r, p, now, labActive, now);
      TimesAreSet(r, now);
      var r1 := Lab(r, p, now, labActive);
      TimesAreSet(r1, now);
      if labActive {
        OneMoreCall(r1, r.calls, now);
      } else {
        var moving := Moving(stream, payload);
        var r2 := Unblock(r1, p, stream, moving, now);
        UnblockKeeps(r1, p, stream, moving, now);
        if r2.blocked {
          OneMoreCall(r2, r.calls, now);
        } else {
          var item := Item(now, stream, payload);
          TakeKeeps(r2, item, now);
          var r3 := Take(r2, item);
          var taken := r3.(calls := r.calls + 1);
          MotionKeeps(taken, stream, now);
          var r4 := if moving then NoteMotion(taken, stream, now) else taken;
          CheckKeeps(r4, p, now);
          CallsAreApart(r3, p, stream, now, r.calls + 1, moving);
        }
      }
    }
  }

  lemma TimesAreSet(r: Recorder, now: real)
    requires Inv(r, now)
    ensures TimesSet(r) && BufferStart(r) >= 0
  {
  }

  lemma UnblockKeeps(r: Recorder, p: Params, stream: Stream, moving: bool, now: real)
    requires Inv(r, now) && (r.blocked ==> r.labEndedAt.Some?)
    ensures Inv(Unblock(r, p, stream, moving, now), now)
    ensures Unblock(r, p, stream, moving, now).calls == r.calls
  {
  }

  lemma MotionKeeps(r: Recorder, stream: Stream, now: real)
    requires Inv(r, now) && !r.blocked && r.buffer != []
    ensures Inv(NoteMotion(r, stream, now), now)
  {
  }

  /** The number of calls plays no part in what the other fields become. */
  lemma CallsAreApart(r: Recorder, p: Params, stream: Stream, now: real, calls: nat, moving: bool)
    requires r.buffer != [] && TimesSet(r) && BufferStart(r) >= 0 && !r.blocked
    ensures var a := if moving then NoteMotion(r, stream, now) else r;
            var b := if moving then NoteMotion(r.(calls := calls), stream, now) else r.(calls := calls);
            && TimesSet(a) && TimesSet(b) && BufferStart(a) >= 0 && BufferStart(b) >= 0
            && Check(a, p, now).(calls := calls) == Check(b, p, now)
  {
  }

  // ----- whole runs ------------------------------------------------------------------------------

  predicate Ordered(calls: seq<Call>) {
    forall i, j :: 0 <= i < j < |calls| ==> calls[i].now <= calls[j].now
  }

  function Clock(calls: seq<Call>): real {
    if calls == [] then 0.0 else calls[|calls| - 1].now
  }

  /** The recorder after a run, together with the invariant that makes every step defined. */
  function Run(p: Params, calls: seq<Call>): (r: Recorder)
    requires Ordered(calls)
    ensures TimesSet(r) && BufferStart(r) >= 0
    ensures calls != [] ==> Inv(r, Clock(calls))
    ensures r.calls == |calls|
    decreases |calls|
  {
    if calls == [] then START else
      var before := Run(p, calls[..|calls| - 1]);
      var call := calls[|calls| - 1];
      StartHolds(call.now);
      StepKeeps(before, p, call, if |calls| == 1 then call.now else Clock(calls[..|calls| - 1]));
      Step(before, p, call)
  }

  /** An accepted payload is what its call fed, and that call was not part of a lab run. */
  predicate CameFrom(item: Item, source: nat, calls: seq<Call>) {
    source < |calls| && calls[source] == CallFeed(item.stream, item.payload, item.now, false)
  }

  lemma StepAccepts(r: Recorder, p: Params, call: Call)
    requires TimesSet(r) && BufferStart(r) >= 0
    ensures var r' := Step(r, p, call);
            || (r'.accepted == r.accepted && r'.sources == r.sources)
            || (&& call.CallFeed? && !call.labActive && call.stream != Unrecorded
                && r'.accepted == r.accepted + [Item(call.now, call.stream, call.payload)]
                && r'.sources == r.sources + [r.calls])
  {
    hide Lab, Check, Finish, NoteMotion, Moving;
    match call {
      case CallFeed(stream, payload, now, labActive) =>
        if stream != Unrecorded {
          LabHistory(r, p, now, labActive);
          var r1 := Lab(r, p, now, labActive);
          if !labActive {
            var moving := Moving(stream, payload);
            var r2 := Unblock(r1, p, stream, moving, now);
            var r3 := Take(r2, Item(now, stream, payload));
            if !r2.blocked {
              MotionHistory(r3, stream, now);
              CheckHistory(if moving then NoteMotion(r3, stream, now) else r3, p, now);
            }
          }
        }
      case CallTick(now, labActive) =>
        LabHistory(r, p, now, labActive);
        CheckHistory(Lab(r, p, now, labActive), p, now);
      case CallFlush(now) => FinishHistory(r, p, Done);
    }
  }

  predicate SameHistory(a: Recorder, b: Recorder) {
    a.accepted == b.accepted && a.sources == b.sources && a.calls == b.calls
  }

  lemma FinishHistory(r: Recorder, p: Params, why: Why)
    requires BufferStart(r) >= 0
    ensures SameHistory(r, Finish(r, p, why)) && BufferStart(Finish(r, p, why)) >= 0
  {
  }

  lemma LabHistory(r: Recorder, p: Params, now: real, active: bool)
    requires TimesSet(r) && BufferStart(r) >= 0
    ensures var r' := Lab(r, p, now, active);
            && SameHistory(r, r') && TimesSet(r') && BufferStart(r') >= 0
            && (!active && r'.blocked ==> r'.labEndedAt.Some?)
  {
  }

  lemma MotionHistory(r: Recorder, stream: Stream, now: real)
    requires TimesSet(r) && BufferStart(r) >= 0 && r.buffer != [] && !r.blocked
    ensures var r' := NoteMotion(r, stream, now);
            SameHistory(r, r') && TimesSet(r') && BufferStart(r') >= 0
  {
  }

  lemma CheckHistory(r: Recorder, p: Params, now: real)
    requires TimesSet(r) && BufferStart(r) >= 0
    ensures SameHistory(r, Check(r, p, now))
  {
  }

  /**
   * For every sequence of calls in time order: every accepted payload was fed outside a lab run by a
   * call of its own; the kept segments are disjoint contiguous runs of accepted payloads, in order,
   * and are exactly what the sink got; none reaches across a lab run; and a segment that follows a
   * split starts where the split ended, so nothing is lost between them.
   */
  lemma {:induction false} RecordingsPartitionTheDrive(p: Params, calls: seq<Call>)
    requires Ordered(calls)
    ensures var r := Run(p, calls);
            && |r.sources| == |r.accepted|
            && (forall k :: 0 <= k < |r.accepted| ==> CameFrom(r.accepted[k], r.sources[k], calls))
            && CallsIncrease(r.sources, r.calls) && Partition(r) && SunkMatches(r) && LabSeparates(r) && SplitsAdjoin(r)
    decreases |calls|
  {
    hide Step;
    StartHolds(0.0);
    if calls != [] {
      var rest := calls[..|calls| - 1];
      RecordingsPartitionTheDrive(p, rest);
      StepAccepts(Run(p, rest), p, calls[|calls| - 1]);
      var r, before := Run(p, calls), Run(p, rest);
      forall k | 0 <= k < |r.accepted| ensures CameFrom(r.accepted[k], r.sources[k], calls) {
        if k < |before.accepted| {
          assert CameFrom(before.accepted[k], before.sources[k], rest);
        }
      }
    }
  }

  /** The n-th recording the sink got is the stretch of the history that one kept segment marks. */
  lemma {:induction false} EachRecordingIsASegment(sunk: seq<Recording>, segments: seq<Segment>, accepted: seq<Item>,
                                                   n: nat)
    returns (i: nat)
    requires SunkIs(sunk, segments, accepted) && n < |sunk|
    ensures i < |segments| && segments[i].kept && segments[i].lo < segments[i].hi <= |accepted|
    ensures sunk[n].items == accepted[segments[i].lo..segments[i].hi] && sunk[n].why == segments[i].why
    decreases |segments|
  {
    var s, before := segments[|segments| - 1], segments[..|segments| - 1];
    if s.kept && n == |sunk| - 1 {
      i := |segments| - 1;
    } else {
      i := EachRecordingIsASegment(if s.kept then sunk[..|sunk| - 1] else sunk, before, accepted, n);
    }
  }

  // ----- the label of a recording ------------------------------------------------------------------

  predicate Commanded(items: seq<Item>) {
    exists item :: item in items && CommandsMotion(item)
  }

  /** Whether motion was commanded in a segment is known exactly, while it is recorded and in what was sunk. */
  predicate Labelled(r: Recorder) {
    && (r.recording ==> (r.commanded <==> Commanded(r.buffer)))
    && forall i :: 0 <= i < |r.sunk| ==> (r.sunk[i].commanded <==> Commanded(r.sunk[i].items))
  }

  lemma FinishLabels(r: Recorder, p: Params, why: Why)
    requires BufferStart(r) >= 0 && r.recording && Labelled(r)
    ensures Labelled(Finish(r, p, why))
  {
    hide Commanded;
  }

  lemma TakeLabels(r: Recorder, item: Item)
    requires Labelled(r)
    ensures Labelled(Take(r, item).(commanded := r.commanded || CommandsMotion(item)))
  {
    hide CommandsMotion;
    assert item in r.buffer + [item];
    assert forall x :: x in r.buffer ==> x in r.buffer + [item];
  }

  lemma FeedLabels(r: Recorder, p: Params, stream: Stream, payload: Payload, now: real)
    requires TimesSet(r) && BufferStart(r) >= 0 && Labelled(r) && !r.blocked
    ensures var item := Item(now, stream, payload);
            var taken := Take(r, item);
            Labelled(if Moving(stream, payload) then NoteMotion(taken, stream, now) else taken)
  {
    hide Commanded, Moving;
    var item := Item(now, stream, payload);
    TakeLabels(r, item);
    if Moving(stream, payload) && !r.recording {
      BeginLabels(Take(r, item));
    }
  }

  lemma BeginLabels(r: Recorder)
    requires r.buffer != []
    ensures Begin(r).commanded <==> Commanded(r.buffer)
  {
  }

  lemma CheckLabels(r: Recorder, p: Params, now: real)
    requires TimesSet(r) && BufferStart(r) >= 0 && Labelled(r)
    ensures Labelled(Check(r, p, now))
  {
    hide Finish, Recent;
    if r.recording {
      FinishLabels(r, p, Done);
      FinishLabels(r, p, Split);
      FinishEmpties(r, p, Split);
    }
  }

  lemma FinishEmpties(r: Recorder, p: Params, why: Why)
    requires BufferStart(r) >= 0
    ensures Finish(r, p, why).buffer == [] && !Finish(r, p, why).recording
  {
  }

  lemma LabLabels(r: Recorder, p: Params, now: real, active: bool)
    requires BufferStart(r) >= 0 && Labelled(r)
    ensures Labelled(Lab(r, p, now, active))
  {
    hide Commanded, Finish;
    if active && r.recording {
      FinishLabels(r, p, LabStarted);
      FinishEmpties(r, p, LabStarted);
    }
  }

  lemma StepLabels(r: Recorder, p: Params, call: Call)
    requires TimesSet(r) && BufferStart(r) >= 0 && Labelled(r)
    ensures Labelled(Step(r, p, call))
  {
    hide Labelled, Lab, Check, Finish, NoteMotion, Take, Moving;
    match call {
      case CallFeed(stream, payload, now, labActive) =>
        if stream != Unrecorded {
          LabLabels(r, p, now, labActive);
          LabHistory(r, p, now, labActive);
          var r1 := Lab(r, p, now, labActive);
          if !labActive {
            var moving := Moving(stream, payload);
            var r2 := Unblock(r1, p, stream, moving, now);
            UnblockLabels(r1, p, stream, moving, now);
            if !r2.blocked {
              FeedLabels(r2, p, stream, payload, now);
              var r3 := Take(r2, Item(now, stream, payload));
              TakenIsLast(r2, Item(now, stream, payload));
              MotionHistory(r3, stream, now);
              CheckLabels(if moving then NoteMotion(r3, stream, now) else r3, p, now);
              CountsAreNoLabel(Check(if moving then NoteMotion(r3, stream, now) else r3, p, now), r.calls + 1);
            }
            CountsAreNoLabel(r2, r.calls + 1);
          }
          CountsAreNoLabel(r1, r.calls + 1);
        }
      case CallTick(now, labActive) =>
        LabLabels(r, p, now, labActive);
        LabHistory(r, p, now, labActive);
        CheckLabels(Lab(r, p, now, labActive), p, now);
        CountsAreNoLabel(Check(Lab(r, p, now, labActive), p, now), r.calls + 1);
      case CallFlush(now) =>
        if r.recording {
          FlushLabels(r, p);
        }
    }
    CountsAreNoLabel(r, r.calls + 1);
  }

  lemma FlushLabels(r: Recorder, p: Params)
    requires BufferStart(r) >= 0 && r.recording && Labelled(r)
    ensures Labelled(Finish(r, p, Done).(calls := r.calls + 1))
  {
    hide Commanded;
    FinishLabels(r, p, Done);
  }

  lemma TakenIsLast(r: Recorder, item: Item)
    requires BufferStart(r) >= 0 && TimesSet(r)
    ensures Take(r, item).buffer != [] && BufferStart(Take(r, item)) >= 0 && TimesSet(Take(r, item))
    ensures Take(r, item).blocked == r.blocked
  {
  }

  /** The number of the call plays no part in a label. */
  lemma CountsAreNoLabel(r: Recorder, calls: nat)
    ensures Labelled(r.(calls := calls)) == Labelled(r)
  {
  }

  lemma UnblockLabels(r: Recorder, p: Params, stream: Stream, moving: bool, now: real)
    requires TimesSet(r) && (r.blocked ==> r.labEndedAt.Some?) && BufferStart(r) >= 0 && Labelled(r)
    ensures var r' := Unblock(r, p, stream, moving, now);
            Labelled(r') && TimesSet(r') && BufferStart(r') >= 0
  {
    hide Commanded;
  }

  /**
   * Over every ordered run, a recording says that motion was commanded exactly if one of its own
   * payloads is a command that moves.
   */
  lemma {:induction false} LabelsAreExact(p: Params, calls: seq<Call>)
    requires Ordered(calls)
    ensures Labelled(Run(p, calls))
    decreases |calls|
  {
    hide Step;
    if calls != [] {
      LabelsAreExact(p, calls[..|calls| - 1]);
      StepLabels(Run(p, calls[..|calls| - 1]), p, calls[|calls| - 1]);
    }
  }
}
