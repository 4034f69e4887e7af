/**
 * What the recorder counts as motion, read off the accepted payloads alone, and what it does with it:
 * which segments it keeps, when a segment begins and when it ends.
 */
module RecorderMotion {
  import opened Common
  import opened RecorderModel

  // ----- the motion of a stretch -------------------------------------------------------------------

  predicate Moves(item: Item) {
    Moving(item.stream, item.payload)
  }

  /** The time of the last payload that moves. */
  function LastMoving(items: seq<Item>): Option<real>
    decreases |items|
  {
    if items == [] then None
    else if Moves(items[|items| - 1]) then Some(items[|items| - 1].now)
    else LastMoving(items[..|items| - 1])
  }

  /** The same, for a stretch before which the robot last moved at `before`. */
  function LastOr(items: seq<Item>, before: Option<real>): Option<real> {
    if LastMoving(items).Some? then LastMoving(items) else before
  }

  /** From one payload that moves to the next counts what lies between them, at most a quarter second. */
  function Gap(from: Option<real>, to: real): real {
    if from.None? then 0.0
    else if to - from.value < 0.25 then to - from.value
    else 0.25
  }

  /** The motion time of a stretch: the gaps between each payload that moves and the one before it. */
  function MotionTime(items: seq<Item>, before: Option<real>): real
    decreases |items|
  {
    if items == [] then 0.0 else
      var rest, last := items[..|items| - 1], items[|items| - 1];
      MotionTime(rest, before) + if Moves(last) then Gap(LastOr(rest, before), last.now) else 0.0
  }

  /** A segment that goes on after a split counts from the last motion before it, any other from its own first. */
  function Before(segments: seq<Segment>, accepted: seq<Item>, i: nat): Option<real>
    requires i <= |segments| && (i > 0 && segments[i - 1].why == Split ==> segments[i - 1].hi <= |accepted|)
  {
    if i > 0 && segments[i - 1].why == Split then LastMoving(accepted[..segments[i - 1].hi]) else None
  }

  function MotionOf(segments: seq<Segment>, accepted: seq<Item>, i: nat): real
    requires i < |segments| && segments[i].lo <= segments[i].hi <= |accepted|
    requires i > 0 ==> segments[i - 1].hi <= |accepted|
  {
    MotionTime(accepted[segments[i].lo..segments[i].hi], Before(segments, accepted, i))
  }

  lemma Snoc(items: seq<Item>, item: Item, before: Option<real>)
    ensures LastMoving(items + [item]) == if Moves(item) then Some(item.now) else LastMoving(items)
    ensures MotionTime(items + [item], before)
         == MotionTime(items, before) + if Moves(item) then Gap(LastOr(items, before), item.now) else 0.0
  {
    hide Moves, Gap;
    assert (items + [item])[..|items|] == items;
  }

  lemma {:induction false} LastOfBoth(a: seq<Item>, b: seq<Item>)
    ensures LastMoving(a + b) == LastOr(b, LastMoving(a))
    decreases |b|
  {
    hide Moves;
    if b == [] {
      assert a + b == a;
    } else {
      assert (a + b)[..|a + b| - 1] == a + b[..|b| - 1];
      LastOfBoth(a, b[..|b| - 1]);
    }
  }

  lemma {:induction false} NoMotion(items: seq<Item>)
    requires LastMoving(items).None?
    ensures MotionTime(items, None) == 0.0
    decreases |items|
  {
    hide Moves;
    if items != [] {
      NoMotion(items[..|items| - 1]);
    }
  }

  lemma {:induction false} NoneMoves(items: seq<Item>)
    ensures LastMoving(items).None? <==> forall i :: 0 <= i < |items| ==> !Moves(items[i])
    decreases |items|
  {
    hide Moves;
    if items != [] {
      NoneMoves(items[..|items| - 1]);
    }
  }

  // ----- the recorder's count ----------------------------------------------------------------------

  predicate InOrder(buffer: seq<Item>, clock: real) {
    && (forall i, j :: 0 <= i < j < |buffer| ==> buffer[i].now <= buffer[j].now)
    && (forall i :: 0 <= i < |buffer| ==> buffer[i].now <= clock)
  }

  /** The buffer is the end of what was accepted, in order of time, behind all segments. */
  predicate Shape(r: Recorder, clock: real) {
    && TimesSet(r) && BufferStart(r) >= 0 && r.buffer == r.accepted[BufferStart(r)..]
    && (forall i :: 0 <= i < |r.segments| ==> r.segments[i].lo <= r.segments[i].hi <= BufferStart(r))
    && (AfterSplit(r) ==> r.recording && r.segments[|r.segments| - 1].hi == BufferStart(r))
    && InOrder(r.buffer, clock)
  }

  predicate AfterSplit(r: Recorder) {
    r.segments != [] && r.segments[|r.segments| - 1].why == Split
  }

  predicate KeptRight(segments: seq<Segment>, accepted: seq<Item>, p: Params) {
    forall i :: 0 <= i < |segments| ==> KeptRightAt(segments, accepted, p, i)
  }

  predicate KeptRightAt(segments: seq<Segment>, accepted: seq<Item>, p: Params, i: nat)
    requires i < |segments|
  {
    && segments[i].lo <= segments[i].hi <= |accepted| && (i > 0 ==> segments[i - 1].hi <= |accepted|)
    && (segments[i].kept <==> segments[i].lo < segments[i].hi && MotionOf(segments, accepted, i) >= p.minMotionSec)
  }

  /** The time the count starts from in the present segment. */
  function Base(r: Recorder): Option<real>
    requires AfterSplit(r) ==> r.segments[|r.segments| - 1].hi <= |r.accepted|
  {
    Before(r.segments, r.accepted, |r.segments|)
  }

  /** While a segment is recorded its motion is counted right; before it there is none. */
  predicate Counted(r: Recorder)
    requires AfterSplit(r) ==> r.segments[|r.segments| - 1].hi <= |r.accepted|
  {
    if r.recording then
      && r.lastMotion.Some? && r.lastMotion == LastOr(r.buffer, Base(r))
      && r.motionSeconds == MotionTime(r.buffer, Base(r))
      && (!AfterSplit(r) ==> r.buffer != [] && r.start == r.buffer[0].now)
    else LastMoving(r.buffer).None?
  }

  predicate Measured(r: Recorder, p: Params, clock: real) {
    Shape(r, clock) && Counted(r) && KeptRight(r.segments, r.accepted, p)
  }

  /** While recording, the last motion is that of all that was accepted. */
  lemma LastIsLast(r: Recorder, clock: real)
    requires Shape(r, clock) && Counted(r) && r.recording
    ensures r.lastMotion == LastMoving(r.accepted)
  {
    hide LastMoving;
    var from := BufferStart(r);
    assert r.accepted == r.accepted[..from] + r.buffer;
    LastOfBoth(r.accepted[..from], r.buffer);
  }

  lemma FinishMeasures(r: Recorder, p: Params, why: Why, clock: real)
    requires Measured(r, p, clock) && r.recording
    ensures var r' := Finish(r, p, why);
            && KeptRight(r'.segments, r'.accepted, p)
            && (why != Split ==> Measured(r', p, clock))
            && (why == Split ==> Measured(GoOn(r', clock), p, clock))
  {
    hide MotionTime, LastMoving;
    var r' := Finish(r, p, why);
    var n := |r.segments|;
    assert r'.segments[n].lo == BufferStart(r) && r'.segments[n].hi == |r.accepted|;
    forall i | 0 <= i <= n ensures KeptRightAt(r'.segments, r'.accepted, p, i) {
      if i < n {
        assert KeptRightAt(r.segments, r.accepted, p, i);
        assert Before(r'.segments, r'.accepted, i) == Before(r.segments, r.accepted, i);
      } else {
        assert Before(r'.segments, r'.accepted, n) == Base(r);
        assert r.accepted[BufferStart(r)..|r.accepted|] == r.buffer;
      }
    }
    NothingMoves();
    if why == Split {
      LastIsLast(r, clock);
      assert r.accepted[..|r.accepted|] == r.accepted;
    }
  }

  lemma NothingMoves()
    ensures LastMoving([]) == None && forall b :: MotionTime([], b) == 0.0
  {
  }

  lemma MoreIsKeptRight(segments: seq<Segment>, accepted: seq<Item>, item: Item, p: Params)
    requires KeptRight(segments, accepted, p)
    ensures KeptRight(segments, accepted + [item], p)
  {
    hide MotionTime, LastMoving;
    forall i | 0 <= i < |segments| ensures KeptRightAt(segments, accepted + [item], p, i) {
      assert KeptRightAt(segments, accepted, p, i);
      assert (accepted + [item])[segments[i].lo..segments[i].hi] == accepted[segments[i].lo..segments[i].hi];
      if i > 0 {
        assert (accepted + [item])[..segments[i - 1].hi] == accepted[..segments[i - 1].hi];
      }
    }
  }

  /** A payload is taken, and counted if it moves. */
  function Taken(r: Recorder, item: Item): Recorder {
    if Moves(item) then NoteMotion(Take(r, item), item.stream, item.now) else Take(r, item)
  }

  lemma TakeShapes(r: Recorder, item: Item, clock: real)
    requires Shape(r, clock) && clock <= item.now && !r.blocked
    ensures Shape(Take(r, item), item.now) && Shape(Taken(r, item), item.now)
  {
    hide Moves;
  }

  lemma TakeMeasures(r: Recorder, p: Params, item: Item, clock: real)
    requires Measured(r, p, clock) && clock <= item.now && !r.blocked
    ensures Measured(Taken(r, item), p, item.now)
  {
    hide MotionTime, LastMoving, Moves, KeptRight;
    TakeShapes(r, item, clock);
    MoreIsKeptRight(r.segments, r.accepted, item, p);
    var r' := Taken(r, item);
    Snoc(r.buffer, item, Base(r));
    Snoc(r.buffer, item, None);
    assert r'.buffer == r.buffer + [item] && r'.segments == r.segments;
    if AfterSplit(r) {
      var hi := r.segments[|r.segments| - 1].hi;
      assert r'.accepted[..hi] == r.accepted[..hi];
    }
    assert Base(r') == Base(r);
    if !r.recording {
      NoMotion(r.buffer);
      assert !AfterSplit(r);
    }
  }

  lemma TrimMeasures(r: Recorder, p: Params, clock: real)
    requires Measured(r, p, clock) && !r.recording
    ensures Measured(r.(buffer := Recent(r.buffer, clock, p.preRoll)), p, clock)
  {
    hide KeptRight, Moves, MotionTime, Recent, LastMoving;
    var n := RecentIsSuffix(r.buffer, clock, p.preRoll);
    SuffixMeasures(r, p, clock, n);
  }

  lemma SuffixMeasures(r: Recorder, p: Params, clock: real, n: nat)
    requires Measured(r, p, clock) && !r.recording && n <= |r.buffer|
    ensures Measured(r.(buffer := r.buffer[n..]), p, clock)
  {
    hide KeptRight, Moves, MotionTime, LastMoving;
    SuffixIsStill(r.buffer, n);
    var from := BufferStart(r);
    assert r.accepted[from..][n..] == r.accepted[from + n..];
  }

  lemma SuffixIsStill(items: seq<Item>, n: nat)
    requires n <= |items| && LastMoving(items).None?
    ensures LastMoving(items[n..]).None?
  {
    hide Moves;
    NoneMoves(items);
    NoneMoves(items[n..]);
  }

  lemma MeasuredShape(r: Recorder, p: Params, clock: real)
    requires Measured(r, p, clock)
    ensures Shape(r, clock) && TimesSet(r) && BufferStart(r) >= 0
  {
  }

  /** Idle, the time of the last motion counts for nothing. */
  lemma IdleMotion(r: Recorder, p: Params, clock: real)
    requires Measured(r, p, clock) && !r.recording && !r.blocked
    ensures Measured(r.(lastMotion := None), p, clock)
  {
  }

  lemma CheckMeasures(r: Recorder, p: Params, now: real)
    requires Measured(r, p, now)
    ensures TimesSet(r) && BufferStart(r) >= 0
    ensures Measured(Check(r, p, now), p, now)
  {
    hide Measured, Finish, Recent, GoOn, Shape;
    MeasuredShape(r, p, now);
    if r.recording {
      FinishMeasures(r, p, Done, now);
      FinishMeasures(r, p, Split, now);
      FinishIdles(r, p, Done);
      IdleMotion(Finish(r, p, Done), p, now);
    } else if !r.blocked {
      TrimMeasures(r, p, now);
    }
  }

  lemma FinishIdles(r: Recorder, p: Params, why: Why)
    requires BufferStart(r) >= 0
    ensures !Finish(r, p, why).recording && Finish(r, p, why).blocked == r.blocked
    ensures Finish(r, p, why).buffer == [] && Finish(r, p, why).accepted == r.accepted
    ensures Finish(r, p, why).labCuts == r.labCuts
  {
  }

  /** A lab run takes over: the buffer is dropped. */
  lemma DropMeasures(r: Recorder, p: Params, clock: real)
    requires Measured(r, p, clock) && !r.recording
    ensures Measured(r.(buffer := [], blocked := true, labEndedAt := None, labCuts := r.labCuts + [|r.accepted|]), p,
                     clock)
  {
    hide KeptRight;
  }

  lemma LabEndMeasures(r: Recorder, p: Params, now: real)
    requires Measured(r, p, now) && !r.recording
    ensures Measured(r.(labEndedAt := Some(now), lastMotion := Some(now)), p, now)
  {
    hide KeptRight;
  }

  lemma LabMeasures(r: Recorder, p: Params, now: real, active: bool)
    requires Measured(r, p, now)
    ensures TimesSet(r) && BufferStart(r) >= 0
    ensures var r' := Lab(r, p, now, active);
            Measured(r', p, now) && (!active && r'.blocked ==> r'.labEndedAt.Some?)
  {
    hide Measured, Finish, Shape;
    MeasuredShape(r, p, now);
    if active {
      if r.recording {
        FinishMeasures(r, p, LabStarted, now);
        FinishIdles(r, p, LabStarted);
        DropMeasures(Finish(r, p, LabStarted), p, now);
      } else {
        DropMeasures(r, p, now);
      }
    } else if r.blocked && r.labEndedAt.None? {
      LabEndMeasures(r, p, now);
    }
  }

  lemma UnblockMeasures(r: Recorder, p: Params, stream: Stream, moving: bool, now: real)
    requires Measured(r, p, now) && (r.blocked ==> r.labEndedAt.Some?)
    ensures TimesSet(r) && Measured(Unblock(r, p, stream, moving, now), p, now)
  {
    hide KeptRight;
  }

  lemma LaterMeasures(r: Recorder, p: Params, clock: real, now: real)
    requires Measured(r, p, clock) && clock <= now
    ensures Measured(r, p, now)
  {
    hide KeptRight, Counted;
  }

  lemma CountsDoNotMatter(r: Recorder, p: Params, now: real, calls: nat)
    requires Measured(r, p, now)
    ensures Measured(r.(calls := calls), p, now)
  {
    hide KeptRight;
  }

  lemma FeedMeasures(r: Recorder, p: Params, stream: Stream, payload: Payload, now: real, labActive: bool)
    requires Measured(r, p, now)
    ensures TimesSet(r) && BufferStart(r) >= 0 && Measured(Feed(r, p, stream, payload, now, labActive), p, now)
  {
    hide Measured, Lab, Check, NoteMotion, Moving, Unblock, Take, Shape;
    MeasuredShape(r, p, now);
    if stream != Unrecorded {
      LabMeasures(r, p, now, labActive);
      var r1 := Lab(r, p, now, labActive);
      if !labActive {
        MeasuredShape(r1, p, now);
        var moving := Moving(stream, payload);
        UnblockMeasures(r1, p, stream, moving, now);
        var r2 := Unblock(r1, p, stream, moving, now);
        if !r2.blocked {
          var item := Item(now, stream, payload);
          TakeMeasures(r2, p, item, now);
          CheckMeasures(Taken(r2, item), p, now);
        }
      }
    }
  }

  lemma StepMeasures(r: Recorder, p: Params, call: Call)
    requires Measured(r, p, call.now)
    ensures TimesSet(r) && BufferStart(r) >= 0 && Measured(Step(r, p, call), p, call.now)
  {
    hide Measured, Lab, Check, Finish, Feed, Shape;
    MeasuredShape(r, p, call.now);
    match call {
      case CallFeed(stream, payload, now, labActive) =>
        FeedMeasures(r, p, stream, payload, now, labActive);
        CountsDoNotMatter(Feed(r, p, stream, payload, now, labActive), p, now, Step(r, p, call).calls);
      case CallTick(now, labActive) =>
        LabMeasures(r, p, now, labActive);
        CheckMeasures(Lab(r, p, now, labActive), p, now);
        CountsDoNotMatter(Check(Lab(r, p, now, labActive), p, now), p, now, Step(r, p, call).calls);
      case CallFlush(now) =>
        if r.recording {
          FinishMeasures(r, p, Done, now);
          CountsDoNotMatter(Finish(r, p, Done), p, now, Step(r, p, call).calls);
        } else {
          CountsDoNotMatter(r, p, now, Step(r, p, call).calls);
        }
    }
  }

  /** Over every ordered run the recorder's count is that of the payloads. */
  lemma {:induction false} EveryRunMeasures(p: Params, calls: seq<Call>)
    requires Ordered(calls)
    ensures calls != [] ==> Measured(Run(p, calls), p, Clock(calls))
    decreases |calls|
  {
    hide Step, Measured;
    if calls != [] {
      var rest, call := calls[..|calls| - 1], calls[|calls| - 1];
      EveryRunMeasures(p, rest);
      if rest == [] {
        StartMeasures(p, call.now);
      } else {
        LaterMeasures(Run(p, rest), p, Clock(rest), call.now);
      }
      StepMeasures(Run(p, rest), p, call);
    }
  }

  lemma StartMeasures(p: Params, clock: real)
    ensures Measured(START, p, clock)
  {
  }

  /**
   * Over every ordered run a segment is kept exactly if it holds a payload and its motion time, counted
   * from its own payloads and the last motion before a split, reaches the minimum.
   */
  lemma KeptMeansMoved(p: Params, calls: seq<Call>, i: nat)
    requires Ordered(calls) && i < |Run(p, calls).segments|
    ensures var r := Run(p, calls);
            && r.segments[i].lo <= r.segments[i].hi <= |r.accepted| && (i > 0 ==> r.segments[i - 1].hi <= |r.accepted|)
            && (r.segments[i].kept <==>
                  r.segments[i].lo < r.segments[i].hi && MotionOf(r.segments, r.accepted, i) >= p.minMotionSec)
  {
    hide Shape, Counted, MotionOf, Step;
    EveryRunMeasures(p, calls);
    assert KeptRightAt(Run(p, calls).segments, Run(p, calls).accepted, p, i);
  }

  // ----- the beginning and the end of a segment ----------------------------------------------------

  /** A call that shows the recorder whether a lab run is on. */
  predicate Observes(call: Call) {
    call.CallTick? || (call.CallFeed? && call.stream != Unrecorded)
  }

  /** A payload that counts as motion, outside a lab run. */
  predicate BringsMotion(call: Call) {
    call.CallFeed? && call.stream != Unrecorded && !call.labActive && Moving(call.stream, call.payload)
  }

  /** How a call ends the segment that is recorded, if it does. */
  function EndOf(r: Recorder, p: Params, call: Call): Option<Why>
    requires LastMoving(r.accepted).Some?
  {
    var last := if BringsMotion(call) then call.now else LastMoving(r.accepted).value;
    if call.CallFlush? then Some(Done)
    else if !Observes(call) then None
    else if call.labActive then Some(LabStarted)
    else if call.now - last >= p.stillSec then Some(Done)
    else if call.now - r.start >= p.splitSec then Some(Split)
    else None
  }

  /** The payloads a call adds, when it is accepted. */
  function Brought(call: Call): seq<Item> {
    if call.CallFeed? && call.stream != Unrecorded && !call.labActive
    then [Item(call.now, call.stream, call.payload)] else []
  }

  /** From `r` to `r'` a segment ended for this reason, or none did and the recording goes on. */
  predicate Ends(r: Recorder, r': Recorder, now: real, end: Option<Why>) {
    if end.None? then r'.recording && r'.segments == r.segments && r'.start == r.start else
      && |r'.segments| == |r.segments| + 1 && r'.segments[..|r.segments|] == r.segments
      && r'.segments[|r.segments|].lo == BufferStart(r) && r'.segments[|r.segments|].hi == |r'.accepted|
      && r'.segments[|r.segments|].why == end.value
      && (r'.recording <==> end == Some(Split)) && (r'.recording ==> r'.start == now)
  }

  lemma FinishEnds(r: Recorder, p: Params, why: Why, now: real)
    requires BufferStart(r) >= 0 && r.recording
    ensures why != Split ==> Ends(r, Finish(r, p, why), now, Some(why))
    ensures Ends(r, GoOn(Finish(r, p, Split), now), now, Some(Split))
    ensures Finish(r, p, why).accepted == r.accepted
  {
  }

  lemma CheckEnds(r: Recorder, p: Params, now: real)
    requires TimesSet(r) && BufferStart(r) >= 0 && r.recording
    ensures var r' := Check(r, p, now);
            && r'.accepted == r.accepted
            && Ends(r, r', now, if now - r.lastMotion.value >= p.stillSec then Some(Done)
                                else if now - r.start >= p.splitSec then Some(Split) else None)
  {
    FinishEnds(r, p, Done, now);
    FinishEnds(r, p, Split, now);
    OtherFields(r, Finish(r, p, Done), now);
    hide Finish, Ends;
  }

  lemma OtherFields(r: Recorder, r': Recorder, now: real)
    requires Ends(r, r', now, Some(Done))
    ensures Ends(r, r'.(lastMotion := None), now, Some(Done))
  {
  }

  /** While recording, a payload is taken and then the clock is looked at. */
  lemma RecordingFeeds(r: Recorder, p: Params, item: Item)
    requires TimesSet(r) && BufferStart(r) >= 0 && r.recording && item.stream != Unrecorded
    ensures var taken := Taken(r, item);
            && TimesSet(taken) && BufferStart(taken) >= 0
            && Feed(r, p, item.stream, item.payload, item.now, false) == Check(taken, p, item.now)
            && taken.recording && taken.segments == r.segments && taken.start == r.start
            && taken.accepted == r.accepted + [item] && BufferStart(taken) == BufferStart(r)
            && taken.lastMotion == if Moves(item) then Some(item.now) else r.lastMotion
  {
    hide Moving, Check;
  }

  /**
   * A segment that is recorded takes every payload outside lab runs, and it ends exactly by a flush, by a
   * lab run, once the robot has not moved for the still time, or once it has lasted for the split time; it
   * then reaches to the last payload. After a split the next one is recorded from this moment on.
   */
  lemma SegmentEndsExactlyWhen(r: Recorder, p: Params, call: Call)
    requires Shape(r, call.now) && Counted(r) && r.recording
    ensures LastMoving(r.accepted).Some? && LastMoving(r.accepted) == r.lastMotion
    ensures var r' := Step(r, p, call);
            r'.accepted == r.accepted + Brought(call) && Ends(r, r', call.now, EndOf(r, p, call))
  {
    LastIsLast(r, call.now);
    assert TimesSet(r) && BufferStart(r) >= 0 by { ShapeTimes(r, call.now); }
    hide Shape, Counted, Step, Ends, EndOf, LastMoving;
    assert r.accepted + [] == r.accepted;
    if call.CallFlush? {
      FlushEnds(r, p, call);
    } else if !Observes(call) {
      UnrecordedFeed(r, p, call);
    } else if call.labActive {
      LabEnds(r, p, call);
    } else if call.CallTick? {
      TickEnds(r, p, call);
    } else {
      FeedEnds(r, p, call);
    }
  }

  lemma FlushEnds(r: Recorder, p: Params, call: Call)
    requires TimesSet(r) && BufferStart(r) >= 0 && r.recording && LastMoving(r.accepted).Some? && call.CallFlush?
    ensures var r' := Step(r, p, call);
            r'.accepted == r.accepted && Ends(r, r', call.now, EndOf(r, p, call))
  {
    hide LastMoving;
  }

  lemma UnrecordedFeed(r: Recorder, p: Params, call: Call)
    requires TimesSet(r) && BufferStart(r) >= 0 && r.recording && LastMoving(r.accepted).Some?
    requires call.CallFeed? && call.stream == Unrecorded
    ensures var r' := Step(r, p, call);
            r'.accepted == r.accepted && Ends(r, r', call.now, EndOf(r, p, call))
  {
    hide LastMoving;
  }

  lemma LabEnds(r: Recorder, p: Params, call: Call)
    requires TimesSet(r) && BufferStart(r) >= 0 && r.recording && LastMoving(r.accepted).Some?
    requires Observes(call) && call.labActive
    ensures var r' := Step(r, p, call);
            r'.accepted == r.accepted && Ends(r, r', call.now, EndOf(r, p, call))
  {
    hide LastMoving, Moving;
  }

  lemma TickEnds(r: Recorder, p: Params, call: Call)
    requires TimesSet(r) && BufferStart(r) >= 0 && r.recording && LastMoving(r.accepted).Some?
    requires call.CallTick? && !call.labActive && r.lastMotion == LastMoving(r.accepted)
    ensures var r' := Step(r, p, call);
            r'.accepted == r.accepted && Ends(r, r', call.now, EndOf(r, p, call))
  {
    hide LastMoving, Check;
    CheckEnds(r, p, call.now);
    SameEnd(r, Check(r, p, call.now), call.now, EndOf(r, p, call), r, Step(r, p, call));
  }

  lemma FeedEnds(r: Recorder, p: Params, call: Call)
    requires TimesSet(r) && BufferStart(r) >= 0 && r.recording && LastMoving(r.accepted).Some?
    requires call.CallFeed? && call.stream != Unrecorded && !call.labActive && r.lastMotion == LastMoving(r.accepted)
    ensures var r' := Step(r, p, call);
            r'.accepted == r.accepted + Brought(call) && Ends(r, r', call.now, EndOf(r, p, call))
  {
    hide LastMoving, Moving, Check, Feed, Taken, Ends;
    var item := Item(call.now, call.stream, call.payload);
    RecordingFeeds(r, p, item);
    CheckEnds(Taken(r, item), p, call.now);
    SameEnd(Taken(r, item), Check(Taken(r, item), p, call.now), call.now, EndOf(r, p, call), r, Step(r, p, call));
  }

  /** Only the segments, the recording and its beginning matter to how a segment ends. */
  lemma SameEnd(a: Recorder, a': Recorder, now: real, end: Option<Why>, b: Recorder, b': Recorder)
    requires Ends(a, a', now, end)
    requires b.segments == a.segments && b.start == a.start && BufferStart(b) == BufferStart(a)
    requires b'.recording == a'.recording && b'.segments == a'.segments && b'.start == a'.start
    requires b'.accepted == a'.accepted
    ensures Ends(b, b', now, end)
  {
  }

  /** While nothing is recorded, a recording begins exactly with an accepted payload that moves. */
  lemma SegmentBeginsExactlyWhen(r: Recorder, p: Params, call: Call)
    requires Shape(r, call.now) && Counted(r) && !r.recording && 0.0 < p.stillSec && 0.0 < p.splitSec
    ensures var r' := Step(r, p, call);
            var begins := |r'.accepted| > |r.accepted| && BringsMotion(call);
            && (begins ==> r'.recording || |r'.segments| > |r.segments|)
            && (!begins ==> !r'.recording && r'.segments == r.segments)
  {
    hide LastMoving, MotionTime, Moving, Recent, Shape, Counted;
    assert TimesSet(r) && BufferStart(r) >= 0 by { ShapeTimes(r, call.now); }
    match call {
      case CallFeed(stream, payload, now, labActive) =>
        if stream != Unrecorded && !labActive {
          var moving := Moving(stream, payload);
          var r2 := Unblock(Lab(r, p, now, false), p, stream, moving, now);
          assert !r2.recording && r2.segments == r.segments && r2.accepted == r.accepted;
          if !r2.blocked {
            IdleTakes(r2, p, Item(now, stream, payload));
          }
        }
      case _ =>
    }
  }

  lemma ShapeTimes(r: Recorder, clock: real)
    requires Shape(r, clock)
    ensures TimesSet(r) && BufferStart(r) >= 0
  {
  }

  lemma IdleTakes(r: Recorder, p: Params, item: Item)
    requires TimesSet(r) && BufferStart(r) >= 0 && !r.recording && !r.blocked
    ensures var taken := Taken(r, item);
            && TimesSet(taken) && BufferStart(taken) >= 0
            && var r' := Check(taken, p, item.now);
               && r'.accepted == r.accepted + [item]
               && (Moves(item) ==> r'.recording || |r'.segments| > |r.segments|)
               && (!Moves(item) ==> !r'.recording && r'.segments == r.segments)
  {
    hide Moving, Recent;
  }

  /**
   * Which payloads are accepted: outside lab runs every recorded one, except while the robot still comes
   * to rest after a lab run. That is over with the first payload that does not move once it has not moved
   * for the pre-roll time, or with a command to move once the grace time has passed.
   */
  lemma AcceptsExactlyWhen(r: Recorder, p: Params, call: Call)
    requires TimesSet(r) && BufferStart(r) >= 0
    ensures var r' := Step(r, p, call);
            var recordable := call.CallFeed? && call.stream != Unrecorded && !call.labActive;
            var endedAt := if r.labEndedAt.Some? then r.labEndedAt.value else call.now;
            var movedAt := if r.labEndedAt.Some? && r.lastMotion.Some? then r.lastMotion.value else call.now;
            var accepts := recordable && (|| !r.blocked
                                          || (BringsMotion(call) && call.stream == Twist
                                              && call.now - endedAt >= p.labGrace)
                                          || (!BringsMotion(call) && call.now - movedAt >= p.preRoll));
            && r'.accepted == r.accepted + (if accepts then Brought(call) else [])
            && (accepts ==> !r'.blocked)
            && (Observes(call) && call.labActive ==> r'.blocked && r'.labEndedAt == None && r'.buffer == [])
            && (r.blocked && Observes(call) && !call.labActive && !accepts ==>
                  && r'.blocked && r'.labEndedAt == Some(endedAt)
                  && r'.lastMotion == Some(if BringsMotion(call) then call.now else movedAt))
  {
    hide Moving, Check, NoteMotion, Finish;
    assert r.accepted + [] == r.accepted;
    match call {
      case CallFeed(stream, payload, now, labActive) =>
        FinishLeaves(r, p, LabStarted);
        if stream != Unrecorded && !labActive {
          var r2 := Unblock(Lab(r, p, now, false), p, stream, Moving(stream, payload), now);
          if !r2.blocked {
            TakenLeaves(r2, Item(now, stream, payload));
            CheckLeaves(Taken(r2, Item(now, stream, payload)), p, now);
          }
        }
      case CallTick(now, labActive) =>
        FinishLeaves(r, p, LabStarted);
        CheckLeaves(Lab(r, p, now, labActive), p, now);
      case CallFlush(now) => FinishLeaves(r, p, Done);
    }
  }

  lemma FinishLeaves(r: Recorder, p: Params, why: Why)
    requires BufferStart(r) >= 0
    ensures var r' := Finish(r, p, why);
            r'.accepted == r.accepted && r'.buffer == [] && !r'.recording && BufferStart(r') >= 0
  {
  }

  lemma TakenLeaves(r: Recorder, item: Item)
    requires TimesSet(r) && BufferStart(r) >= 0 && !r.blocked
    ensures var taken := Taken(r, item);
            TimesSet(taken) && BufferStart(taken) >= 0 && taken.accepted == r.accepted + [item] && !taken.blocked
  {
    hide Moves;
  }

  /** The clock ends, splits and trims; it accepts nothing, and while blocked it does nothing. */
  lemma CheckLeaves(r: Recorder, p: Params, now: real)
    requires TimesSet(r) && BufferStart(r) >= 0
    ensures var r' := Check(r, p, now); r'.accepted == r.accepted && r'.blocked == r.blocked && (r.blocked ==> r' == r)
  {
    hide Recent;
  }

  /** Before a recording begins the buffer holds exactly the payloads of the last pre-roll time. */
  lemma IdleKeepsPreRoll(r: Recorder, p: Params, now: real)
    requires Shape(r, now) && !r.recording && !r.blocked
    ensures var r' := Check(r, p, now);
            && |r'.buffer| <= |r.buffer| && r'.buffer == r.buffer[|r.buffer| - |r'.buffer|..]
            && (forall i :: 0 <= i < |r'.buffer| ==> now - r'.buffer[i].now <= p.preRoll)
            && (forall i :: 0 <= i < |r.buffer| - |r'.buffer| ==> now - r.buffer[i].now > p.preRoll)
            && r'.accepted == r.accepted && r'.segments == r.segments && !r'.recording
  {
    hide Recent;
    var n := RecentIsSuffix(r.buffer, now, p.preRoll);
    assert forall i :: 0 <= i < n ==> r.buffer[i].now <= r.buffer[n - 1].now;
  }

  /** A magnitude that is there and exceeds this. */
  predicate Exceeds(x: Option<real>, limit: real) {
    x.Some? && (x.value > limit || x.value < -limit)
  }

  /**
   * What counts as motion: a commanded or measured speed beyond 0.02 m/s or 0.1 rad/s, in the fields of
   * its own stream; nothing else ever does.
   */
  lemma MotionMeans(item: Item)
    ensures item.stream == Twist ==>
              (Moves(item) <==> Exceeds(item.payload.linear, 0.02) || Exceeds(item.payload.angular, 0.1))
    ensures item.stream == Drive || item.stream == Odom ==>
              (Moves(item) <==> Exceeds(item.payload.v, 0.02) || Exceeds(item.payload.w, 0.1))
    ensures item.stream != Twist && item.stream != Drive && item.stream != Odom ==> !Moves(item)
  {
  }
}
