/** The recorder as the object the bridge feeds; every method is proved against `RecorderModel`. */
module AutoRecorder {
  import opened Common
  import opened RecorderModel

  class AutoRecorder {
    const params: Params
    var buffer: seq<Item>
    var recording: bool
    var blocked: bool
    var labEndedAt: Option<real>
    var start: real
    var lastMotion: Option<real>
    var motionSeconds: real
    var commanded: bool
    var sink: seq<Recording>
    ghost var calls: nat
    ghost var accepted: seq<Item>
    ghost var sources: seq<nat>
    ghost var segments: seq<Segment>
    ghost var labCuts: seq<nat>
    ghost var clock: real

    ghost function View(): Recorder
      reads this
    {
      Recorder(buffer, recording, blocked, labEndedAt, start, lastMotion, motionSeconds, commanded, sink,
               calls, accepted, sources, segments, labCuts)
    }

    /** The laws of every history hold of this one. */
    ghost predicate Valid()
      reads this
    {
      Inv(View(), clock)
    }

    /** What makes the next statement defined, also in the middle of a call. */
    ghost predicate Ready()
      reads this
    {
      TimesSet(View()) && BufferStart(View()) >= 0
    }

    constructor (params: Params, ghost now: real)
      ensures Valid() && View() == START && this.params == params && clock == now
    {
      this.params := params;
      buffer, recording, blocked, labEndedAt, start := [], false, false, None, 0.0;
      lastMotion, motionSeconds, commanded, sink := None, 0.0, false, [];
      calls, accepted, sources, segments, labCuts, clock := 0, [], [], [], [], now;
    }

    method Feed(stream: Stream, payload: Payload, now: real, labActive: bool)
      requires Valid() && clock <= now
      modifies this
      ensures Valid() && clock == now
      ensures View() == Step(old(View()), params, CallFeed(stream, payload, now, labActive))
    {
      hide Inv, RecorderModel.Lab, RecorderModel.Check, NoteMotion, Unblock;
      Later(View(), clock, now);
      TimesAreSet(View(), now);
      LabKeeps(View(), params, now, labActive, now);
      StepKeeps(View(), params, CallFeed(stream, payload, now, labActive), clock);
      ghost var number := calls;
      clock := now;
      if stream != Unrecorded {
        Lab(now, labActive);
        TimesAreSet(View(), now);
        if !labActive {
          var moving := Moving(stream, payload);
          UnblockKeeps(View(), params, stream, moving, now);
          TryUnblock(stream, moving, now);
          if !blocked {
            TimesAreSet(View(), now);
            TakePayload(stream, payload, moving, now);
          }
        }
      }
      calls := number + 1;
    }

    method TryUnblock(stream: Stream, moving: bool, now: real)
      requires TimesSet(View()) && (blocked ==> labEndedAt.Some?)
      modifies this`blocked, this`lastMotion
      ensures View() == Unblock(old(View()), params, stream, moving, now)
    {
      if blocked {
        if moving && stream == Twist && now - labEndedAt.value >= params.labGrace {
          blocked := false;
        } else if moving {
          lastMotion := Some(now);
        } else if now - lastMotion.value >= params.preRoll {
          blocked := false;
          lastMotion := None;
        }
      }
    }

    method TakePayload(stream: Stream, payload: Payload, moving: bool, now: real)
      requires Ready() && !blocked
      modifies this
      ensures clock == old(clock)
      ensures var taken := Take(old(View()), Item(now, stream, payload));
              var r := if moving then NoteMotion(taken, stream, now) else taken;
              && TimesSet(r) && BufferStart(r) >= 0
              && View() == RecorderModel.Check(r, params, now)
    {
      hide RecorderModel.Check, NoteMotion, Moving;
      buffer := buffer + [Item(now, stream, payload)];
      accepted := accepted + [Item(now, stream, payload)];
      sources := sources + [calls];
      if moving {
        MotionIsReady(View(), stream, now);
        NoteMotionNow(stream, now);
      }
      Check(now);
    }

    lemma MotionIsReady(r: Recorder, stream: Stream, now: real)
      requires TimesSet(r) && BufferStart(r) >= 0 && !r.blocked && r.buffer != []
      ensures TimesSet(NoteMotion(r, stream, now)) && BufferStart(NoteMotion(r, stream, now)) >= 0
    {
    }

    method NoteMotionNow(stream: Stream, now: real)
      requires buffer != []
      modifies this`motionSeconds, this`lastMotion, this`commanded, this`recording, this`start
      ensures View() == NoteMotion(old(View()), stream, now)
    {
      if recording && lastMotion.Some? {
        var gap := now - lastMotion.value;
        motionSeconds := motionSeconds + (if gap < MAX_MOTION_STEP then gap else MAX_MOTION_STEP);
      }
      lastMotion := Some(now);
      if stream == Twist {
        commanded := true;
      }
      if !recording {
        Begin();
      }
    }

    method Tick(now: real, labActive: bool)
      requires Valid() && clock <= now
      modifies this
      ensures Valid() && clock == now
      ensures View() == Step(old(View()), params, CallTick(now, labActive))
    {
      hide Inv, RecorderModel.Lab, RecorderModel.Check;
      Later(View(), clock, now);
      TimesAreSet(View(), now);
      LabKeeps(View(), params, now, labActive, now);
      StepKeeps(View(), params, CallTick(now, labActive), clock);
      ghost var number := calls;
      clock := now;
      Lab(now, labActive);
      TimesAreSet(View(), now);
      Check(now);
      calls := number + 1;
    }

    method Flush(now: real)
      requires Valid() && clock <= now
      modifies this
      ensures Valid() && clock == now
      ensures View() == Step(old(View()), params, CallFlush(now))
    {
      hide Inv, RecorderModel.Finish;
      Later(View(), clock, now);
      TimesAreSet(View(), now);
      StepKeeps(View(), params, CallFlush(now), clock);
      FinishAccepts(View(), params);
      ghost var number := calls;
      clock := now;
      if recording {
        Finish(Done);
      }
      calls := number + 1;
    }

    method Lab(now: real, labActive: bool)
      requires Ready()
      modifies this
      ensures View() == RecorderModel.Lab(old(View()), params, now, labActive) && clock == old(clock)
    {
      if labActive {
        if recording {
          Finish(LabStarted);
        }
        buffer := [];
        blocked := true;
        labEndedAt := None;
        labCuts := labCuts + [|accepted|];
      } else if blocked && labEndedAt.None? {
        labEndedAt := Some(now);
        lastMotion := Some(now);
      }
    }

    method Begin()
      requires buffer != []
      modifies this`recording, this`start, this`motionSeconds, this`commanded
      ensures View() == RecorderModel.Begin(old(View()))
    {
      recording := true;
      start := buffer[0].now;
      motionSeconds := 0.0;
      commanded := false;
      for i := 0 to |buffer|
        modifies this`commanded
        invariant commanded <==> exists item :: item in buffer[..i] && CommandsMotion(item)
      {
        assert buffer[..i + 1] == buffer[..i] + [buffer[i]];
        if CommandsMotion(buffer[i]) {
          commanded := true;
        }
      }
      assert buffer[..|buffer|] == buffer;
    }

    method Check(now: real)
      requires Ready()
      modifies this
      ensures View() == RecorderModel.Check(old(View()), params, now) && clock == old(clock)
    {
      if recording {
        if now - lastMotion.value >= params.stillSec {
          Finish(Done);
          lastMotion := None;
        } else if now - start >= params.splitSec {
          Finish(Split);
          recording := true;
          start := now;
          motionSeconds := 0.0;
          commanded := false;
        }
      } else if !blocked {
        KeepRecent(now);
      }
    }

    method KeepRecent(now: real)
      modifies this`buffer
      ensures View() == old(View()).(buffer := Recent(old(buffer), now, params.preRoll))
    {
      var kept := [];
      for i := 0 to |buffer|
        invariant kept == Recent(buffer[..i], now, params.preRoll)
      {
        assert buffer[..i + 1][..i] == buffer[..i];
        if now - buffer[i].now <= params.preRoll {
          kept := kept + [buffer[i]];
        }
      }
      assert buffer[..|buffer|] == buffer;
      buffer := kept;
    }

    method Finish(why: Why)
      requires BufferStart(View()) >= 0
      modifies this
      ensures View() == RecorderModel.Finish(old(View()), params, why) && clock == old(clock)
    {
      var items := buffer;
      ghost var lo := BufferStart(View());
      buffer := [];
      recording := false;
      var kept := !(motionSeconds < params.minMotionSec || items == []);
      segments := segments + [Segment(lo, |accepted|, why, kept)];
      if !kept {
        return;
      }
      sink := sink + [Recording(items, commanded, why)];
    }
  }
}
