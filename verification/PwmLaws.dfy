/** Crash safety of the PWM ownership protocol, over every history of calls, failures and restarts. */
module PwmLaws {
  import opened Common
  import opened PwmModel

  function Events(ops: seq<Op>, k: nat): seq<Event>
    requires k <= |ops|
  {
    seq(k, j requires 0 <= j < k => Did(ops[j]))
  }

  lemma {:induction false} StepsTrace(w: World, ops: seq<Op>, k: nat)
    requires k <= |ops|
    ensures Steps(w, ops, k).trace == w.trace + Events(ops, k)
  {
    if k > 0 {
      StepsTrace(w, ops, k - 1);
    }
  }

  /** What a call adds to the trace: the operations that worked, then a failure or a restart. */
  function Tail(ops: seq<Op>, t: Try): seq<Event>
    requires t.worked <= |ops|
  {
    if t.worked == |ops| then [] else if t.failed then [Failed(ops[t.worked])] else [Did(Begin)]
  }

  lemma ResultTrace(w: World, t: Try)
    requires CanBe(w, t)
    ensures var ops := Program(w, t.call);
            Result(w, t).trace == w.trace + Events(ops, t.worked) + Tail(ops, t)
  {
    hide Program;
    StepsTrace(w, Program(w, t.call), t.worked);
  }

  // ----- the committed marker ----------------------------------------------------------------------

  /** Where the fresh program commits. */
  const COMMIT: nat := 21

  /** At `i` the trace holds a whole fresh run up to its commit. */
  ghost predicate FreshRunAt(trace: seq<Event>, i: nat, text: string) {
    i + COMMIT < |trace| && forall j :: 0 <= j <= COMMIT ==> trace[i + j] == Did(FreshOps(text)[j])
  }

  ghost predicate Earned(w: World) {
    w.owner.Some? ==> exists i, text :: FreshRunAt(w.trace, i, text) && w.owner == Some(Saved(text))
  }

  lemma FreshShape(text: string)
    ensures |FreshOps(text)| == COMMIT + 2
    ensures FreshOps(text)[COMMIT] == Link
    ensures forall j :: 0 <= j < |FreshOps(text)| && j != COMMIT ==> FreshOps(text)[j] != Link
    ensures FreshOps(text)[2] == SavePending(text)
    ensures forall j :: 2 < j <= COMMIT ==>
              !FreshOps(text)[j].SavePending? && !FreshOps(text)[j].MarkPending? && !FreshOps(text)[j].Unlink?
  {
  }

  /** Only a link changes the owner file. */
  lemma {:induction false} OwnerStays(w: World, ops: seq<Op>, k: nat)
    requires k <= |ops| && forall j :: 0 <= j < k ==> ops[j] != Link
    ensures Steps(w, ops, k).owner == w.owner
  {
    if k > 0 {
      OwnerStays(w, ops, k - 1);
    }
  }

  lemma {:induction false} PendingStays(w: World, ops: seq<Op>, from: nat, k: nat)
    requires from <= k <= |ops|
    requires forall j :: from <= j < k ==> !ops[j].SavePending? && !ops[j].MarkPending? && !ops[j].Unlink?
    ensures Steps(w, ops, k).pending == Steps(w, ops, from).pending
    decreases k
  {
    if k > from {
      PendingStays(w, ops, from, k - 1);
    }
  }

  lemma OthersDoNotLink(w: World, call: Call)
    requires !(call.Initialize? && !call.existing && !call.recoveryOnly)
    ensures forall j :: 0 <= j < |Program(w, call)| ==> Program(w, call)[j] != Link
  {
  }

  lemma CommitStep(w: World, text: string, k: nat)
    requires COMMIT < k <= |FreshOps(text)| && AllPossible(w, FreshOps(text), k)
    ensures w.owner.None? && Steps(w, FreshOps(text), k).owner == Some(Saved(text))
  {
    hide FreshOps, Possible, Steps;
    var ops := FreshOps(text);
    FreshShape(text);
    assert w.owner.None? && Steps(w, ops, COMMIT).pending == Some(Saved(text)) by {
      assert Possible(Steps(w, ops, COMMIT), Link);
      LinkNeeds(Steps(w, ops, COMMIT));
      OwnerStays(w, ops, COMMIT);
      PendingStays(w, ops, 3, COMMIT);
      OneStep(w, ops, 2);
    }
    OneStep(w, ops, COMMIT);
    if k == COMMIT + 2 {
      OneStep(w, ops, COMMIT + 1);
    }
  }

  lemma LinkNeeds(w: World)
    ensures Possible(w, Link) ==> w.owner.None? && w.pending.Some?
  {
  }

  lemma OneStep(w: World, ops: seq<Op>, k: nat)
    requires k < |ops|
    ensures Steps(w, ops, k + 1) == After(Steps(w, ops, k), ops[k])
  {
  }

  lemma FreshCommit(w: World, t: Try)
    requires CanBe(w, t) && t.call.Initialize? && !t.call.existing && !t.call.recoveryOnly && t.worked > COMMIT
    ensures w.owner.None? && Result(w, t).owner == Some(Saved(t.call.text))
    ensures FreshRunAt(Result(w, t).trace, |w.trace|, t.call.text)
  {
    hide FreshOps, Possible, Steps;
    FreshShape(t.call.text);
    ResultTrace(w, t);
    CommitStep(w, t.call.text, t.worked);
  }

  predicate CommitsIn(t: Try) {
    t.call.Initialize? && !t.call.existing && !t.call.recoveryOnly && t.worked > COMMIT
  }

  /** Every other try leaves the owner file alone and links nothing. */
  lemma OtherTries(w: World, t: Try)
    requires CanBe(w, t) && !CommitsIn(t)
    ensures Result(w, t).owner == w.owner
    ensures var trace := Result(w, t).trace;
            |w.trace| <= |trace| && forall i :: |w.trace| <= i < |trace| ==> trace[i] != Did(Link)
  {
    hide FreshOps, Possible;
    var ops := Program(w, t.call);
    if t.call.Initialize? && !t.call.existing && !t.call.recoveryOnly {
      FreshShape(t.call.text);
    } else {
      OthersDoNotLink(w, t.call);
    }
    hide Program;
    OwnerStays(w, ops, t.worked);
    ResultTrace(w, t);
  }

  /** The owner file, once there, stays as it is. */
  lemma OwnerIsPermanent(w: World, t: Try)
    requires w.owner.Some?
    ensures Apply(w, t).owner == w.owner
  {
    if CanBe(w, t) {
      if CommitsIn(t) {
        FreshCommit(w, t);
      } else {
        OtherTries(w, t);
      }
    }
  }

  /** The trace of a try begins with the trace before it. */
  lemma TraceGrows(w: World, t: Try)
    ensures w.trace <= Apply(w, t).trace
  {
    hide Program, Possible;
    if CanBe(w, t) {
      ResultTrace(w, t);
    }
  }

  lemma StillEarned(w: World, t: Try)
    requires Earned(w)
    ensures Earned(Apply(w, t))
  {
    hide FreshOps;
    var w' := Apply(w, t);
    TraceGrows(w, t);
    if w.owner.Some? {
      OwnerIsPermanent(w, t);
      var i, text :| FreshRunAt(w.trace, i, text) && w.owner == Some(Saved(text));
      assert FreshRunAt(w'.trace, i, text);
    } else if CanBe(w, t) {
      if CommitsIn(t) {
        FreshCommit(w, t);
      } else {
        OtherTries(w, t);
      }
    }
  }

  lemma {:induction false} AlwaysEarned(tries: seq<Try>)
    ensures Earned(History(BOOT, tries))
    decreases |tries|
  {
    if tries != [] {
      AlwaysEarned(tries[..|tries| - 1]);
      StillEarned(History(BOOT, tries[..|tries| - 1]), tries[|tries| - 1]);
    }
  }

  /**
   * With crashes anywhere and any number of restarts after boot: if there is an owner file, then in
   * one uninterrupted stretch a run that found none exported the channel, set it up, then read back
   * 20 ms, normal polarity, enabled, duty 0, and linked its own marker right after that.
   */
  lemma CommittedMeansVerified(tries: seq<Try>)
    ensures var w := History(BOOT, tries);
            w.owner.Some? ==>
              exists i, text :: FreshRunAt(w.trace, i, text) && VerifiedAt(w.trace, i) && w.owner == Some(Saved(text))
  {
    hide History, FreshOps, FreshRunAt, VerifiedAt;
    AlwaysEarned(tries);
    var w := History(BOOT, tries);
    if w.owner.Some? {
      var i, text :| FreshRunAt(w.trace, i, text) && w.owner == Some(Saved(text));
      FreshEnd(w.trace, i, text);
    }
  }

  /** What that stretch says in so many words. */
  predicate VerifiedAt(trace: seq<Event>, i: nat) {
    && i + 21 < |trace|
    && trace[i] == Did(NoOwner)
    && trace[i + 3] == Did(Export)
    && trace[i + 17] == Did(Expect(Period, Decimal(20000000)))
    && trace[i + 18] == Did(Expect(Polarity, Word("normal")))
    && trace[i + 19] == Did(Expect(Enable, Decimal(1)))
    && trace[i + 20] == Did(Expect(DutyCycle, Decimal(0)))
    && trace[i + 21] == Did(Link)
  }

  lemma FreshEnd(trace: seq<Event>, i: nat, text: string)
    requires FreshRunAt(trace, i, text)
    ensures VerifiedAt(trace, i)
  {
    assert trace[i + 0] == Did(FreshOps(text)[0]) && trace[i + 3] == Did(FreshOps(text)[3]);
    assert trace[i + 17] == Did(FreshOps(text)[17]) && trace[i + 18] == Did(FreshOps(text)[18]);
    assert trace[i + 19] == Did(FreshOps(text)[19]) && trace[i + 20] == Did(FreshOps(text)[20]);
    assert trace[i + 21] == Did(FreshOps(text)[21]);
  }

  /** At most one commit ever happens. */
  ghost predicate LinkedOnce(w: World) {
    && (forall i :: 0 <= i < |w.trace| && w.trace[i] == Did(Link) ==> w.owner.Some?)
    && (forall i, j :: 0 <= i < j < |w.trace| ==> !(w.trace[i] == Did(Link) && w.trace[j] == Did(Link)))
  }

  lemma FreshLinks(w: World, t: Try)
    requires CanBe(w, t) && CommitsIn(t)
    ensures var trace := Result(w, t).trace;
            && |w.trace| <= |trace|
            && forall i :: |w.trace| <= i < |trace| && i != |w.trace| + COMMIT ==> trace[i] != Did(Link)
  {
    hide FreshOps, Possible, Steps, Result;
    var ops, base := FreshOps(t.call.text), |w.trace|;
    FreshShape(t.call.text);
    ResultTrace(w, t);
    var trace := Result(w, t).trace;
    forall i | base <= i < |trace| && i != base + COMMIT ensures trace[i] != Did(Link) {
      if i < base + t.worked {
        assert trace[i] == Did(ops[i - base]);
      }
    }
  }

  lemma {:induction false} CommitsOnce(tries: seq<Try>)
    ensures LinkedOnce(History(BOOT, tries))
    decreases |tries|
  {
    hide FreshOps, FreshRunAt, CanBe, Result;
    if tries != [] {
      var w, t := History(BOOT, tries[..|tries| - 1]), tries[|tries| - 1];
      CommitsOnce(tries[..|tries| - 1]);
      TraceGrows(w, t);
      if CanBe(w, t) {
        if CommitsIn(t) {
          FreshCommit(w, t);
          FreshLinks(w, t);
        } else {
          OtherTries(w, t);
        }
      }
    }
  }

  // ----- a run that did not commit -----------------------------------------------------------------

  /** A pending file and no owner file: a run that has not committed. */
  predicate LeftPending(w: World) {
    w.pending.Some? && w.owner.None?
  }

  /** The same, and the process does not trust the channel, as none does that begins now. */
  predicate PendingOnly(w: World) {
    LeftPending(w) && !w.trusted
  }

  predicate Touches(e: Event) {
    e.op.Put? || e.op.Export?
  }

  lemma FirstTwo(w: World, ops: seq<Op>, k: nat)
    requires k <= |ops| && AllPossible(w, ops, k)
    ensures k > 0 ==> Possible(w, ops[0])
    ensures k > 1 ==> Possible(After(w, ops[0]), ops[1])
  {
    if k > 0 {
      assert Possible(Steps(w, ops, 0), ops[0]);
    }
    if k > 1 {
      assert Possible(Steps(w, ops, 1), ops[1]);
    }
  }

  /** The most any call gets done then: nothing, or the look for an owner file. */
  lemma RefusedEarly(w: World, t: Try)
    requires PendingOnly(w) && CanBe(w, t)
    ensures t.call == Restart || !Succeeds(w, t)
    ensures t.call != Restart ==> (t.worked == 0 || (t.worked == 1 && Program(w, t.call)[0] == NoOwner))
    ensures t.call != Restart ==> t.worked < |Program(w, t.call)| && !Touches(Did(Program(w, t.call)[t.worked]))
    ensures t.call != Restart ==> !Program(w, t.call)[t.worked].SavePending?
  {
    FirstTwo(w, Program(w, t.call), t.worked);
  }

  lemma PendingOnlyStays(w: World, t: Try)
    requires PendingOnly(w)
    ensures PendingOnly(Apply(w, t)) && Apply(w, t).pending == w.pending
    ensures var trace := Apply(w, t).trace;
            |w.trace| <= |trace| && forall i :: |w.trace| <= i < |trace| ==> !Touches(trace[i])
  {
    if CanBe(w, t) {
      RefusedEarly(w, t);
      var ops := Program(w, t.call);
      hide Program;
      ResultTrace(w, t);
      if t.worked == 1 {
        OneStep(w, ops, 0);
      }
    }
  }

  /**
   * After a run that left only its pending file, whoever calls what: no later call succeeds, nothing
   * is exported, no attribute is written, and the markers stay as they are, crashes included.
   */
  lemma {:induction false} PendingIsNeverTrusted(w: World, tries: seq<Try>, next: Try)
    requires PendingOnly(w)
    ensures var w' := History(w, tries);
            && PendingOnly(w') && w'.pending == w.pending
            && (CanBe(w', next) && next.call != Restart ==> !Succeeds(w', next))
            && |w.trace| <= |w'.trace| && forall i :: |w.trace| <= i < |w'.trace| ==> !Touches(w'.trace[i])
    decreases |tries|
  {
    hide Program;
    if tries != [] {
      var before, t := tries[..|tries| - 1], tries[|tries| - 1];
      PendingIsNeverTrusted(w, before, t);
      PendingOnlyStays(History(w, before), t);
      TraceGrows(History(w, before), t);
    }
    if CanBe(History(w, tries), next) {
      RefusedEarly(History(w, tries), next);
    }
  }

  /** Whoever trusts the channel or not: no start gets further than the look for an owner file. */
  lemma StartIsRefused(w: World, t: Try)
    requires LeftPending(w) && CanBe(w, t) && t.call.Initialize?
    ensures !Succeeds(w, t) && t.worked <= 1 && (t.worked == 1 ==> Program(w, t.call)[0] == NoOwner)
    ensures t.worked < |Program(w, t.call)|
    ensures var op := Program(w, t.call)[t.worked]; !op.SavePending? && !op.Export? && !op.Put?
  {
    FirstTwo(w, Program(w, t.call), t.worked);
  }

  /** The other calls leave the markers alone. */
  lemma OthersLeaveMarkers(w: World, call: Call, j: nat)
    requires !call.Initialize? && j < |Program(w, call)|
    ensures var op := Program(w, call)[j];
            !op.MarkPending? && !op.SavePending? && !op.Link? && !op.Unlink? && !op.Export?
  {
  }

  lemma {:induction false} MarkersStay(w: World, ops: seq<Op>, k: nat)
    requires k <= |ops|
    requires forall j :: 0 <= j < k ==> !ops[j].MarkPending? && !ops[j].SavePending? && !ops[j].Link? && !ops[j].Unlink?
    ensures Steps(w, ops, k).pending == w.pending && Steps(w, ops, k).owner == w.owner
  {
    if k > 0 {
      MarkersStay(w, ops, k - 1);
    }
  }

  lemma LeftPendingStays(w: World, t: Try)
    requires LeftPending(w)
    ensures LeftPending(Apply(w, t)) && Apply(w, t).pending == w.pending
    ensures var trace := Apply(w, t).trace;
            |w.trace| <= |trace| && forall i :: |w.trace| <= i < |trace| ==> !trace[i].op.Export?
  {
    if CanBe(w, t) {
      var ops := Program(w, t.call);
      if t.call.Initialize? {
        StartIsRefused(w, t);
      } else {
        forall j | 0 <= j < |ops|
          ensures !ops[j].MarkPending? && !ops[j].SavePending? && !ops[j].Link? && !ops[j].Unlink? && !ops[j].Export?
        {
          OthersLeaveMarkers(w, t.call, j);
        }
      }
      hide Program, Possible, Steps;
      MarkersStay(w, ops, t.worked);
      ResultTrace(w, t);
    }
  }

  /**
   * Once a run left its pending file without an owner file, even in a process that trusts the channel:
   * no later start ever succeeds, the channel is never exported again, and the markers stay.
   */
  lemma {:induction false} PendingIsNeverCommitted(w: World, tries: seq<Try>, next: Try)
    requires LeftPending(w)
    ensures var w' := History(w, tries);
            && LeftPending(w') && w'.pending == w.pending
            && (CanBe(w', next) && next.call.Initialize? ==> !Succeeds(w', next))
            && w.trace <= w'.trace && forall i :: |w.trace| <= i < |w'.trace| ==> !w'.trace[i].op.Export?
    decreases |tries|
  {
    hide Program;
    if tries != [] {
      var before, t := tries[..|tries| - 1], tries[|tries| - 1];
      PendingIsNeverCommitted(w, before, t);
      LeftPendingStays(History(w, before), t);
      TraceGrows(History(w, before), t);
    }
    if CanBe(History(w, tries), next) && next.call.Initialize? {
      StartIsRefused(History(w, tries), next);
    }
  }

  /** A process whose start failed after it came to trust the channel can still drive it until it ends. */
  lemma TrustedCanStillPulse(w: World, us: int)
    requires w.trusted && (us == 0 || 500 <= us <= 2500)
    ensures CanSucceed(w, WritePulse(us))
  {
    forall j | 0 <= j < |PulseOps(us)| ensures Possible(Steps(w, PulseOps(us), j), PulseOps(us)[j]) {
      FreeIsPossible(Steps(w, PulseOps(us), j), PulseOps(us)[j]);
    }
  }

  /**
   * A fresh start that stops anywhere between the pending file and the commit leaves just that file,
   * by a failure as well as by a crash; and a process that begins after it trusts nothing.
   */
  lemma StoppedStartLeavesPending(w: World, t: Try)
    requires CanBe(w, t) && t.call.Initialize? && !t.call.existing && !t.call.recoveryOnly
    requires 2 <= t.worked <= COMMIT
    ensures LeftPending(Result(w, t))
    ensures !t.failed ==> PendingOnly(Result(w, t))
    ensures PendingOnly(Apply(Result(w, t), Try(Restart, 1, false)))
  {
    hide FreshOps, Steps;
    var ops := FreshOps(t.call.text);
    FreshShape(t.call.text);
    FreshIsFree(t.call.text);
    FirstTwo(w, ops, t.worked);
    OwnerStays(w, ops, t.worked);
    OneStep(w, ops, 1);
    if t.worked >= 3 {
      OneStep(w, ops, 2);
      PendingStays(w, ops, 3, t.worked);
    }
    RestartForgets(Result(w, t));
  }

  lemma RestartForgets(w: World)
    ensures LeftPending(w) ==> PendingOnly(Apply(w, Try(Restart, 1, false)))
  {
    assert CanBe(w, Try(Restart, 1, false));
  }

  /** The call returns true if nothing outside the marker files goes wrong. */
  ghost predicate CanSucceed(w: World, call: Call) {
    CanBe(w, Try(call, |Program(w, call)|, false))
  }

  /**
   * Exactly when a start can succeed at all: an exported channel needs our owner file with this
   * very text; a channel not exported yet needs neither marker to be there.
   */
  lemma StartCanSucceed(w: World, call: Call)
    requires call.Initialize? && (call.existing && call.recoveryOnly ==> call.normal)
    ensures CanSucceed(w, call) <==>
            (if call.existing then Possible(w, MatchOwner(call.text))
             else !call.recoveryOnly && w.owner.None? && w.pending.None?)
  {
    var ops := Program(w, call);
    if call.existing && Possible(w, MatchOwner(call.text)) {
      ExistingIsFree(call);
      forall j | 0 <= j < |ops| ensures Possible(Steps(w, ops, j), ops[j]) {
        FreeIsPossible(Steps(w, ops, j), ops[j]);
      }
    } else if !call.existing && !call.recoveryOnly && w.owner.None? && w.pending.None? {
      FreshPossible(w, call.text);
    } else if CanSucceed(w, call) {
      FirstTwo(w, ops, |ops|);
    }
  }

  /** Nothing in the marker files can stand in the way of the operation. */
  predicate Free(op: Op) {
    op.Begin? || op.Export? || op.Appear? || op.Expect? || op.Differ? || op.Put? || op.Trust? || op.Aim?
  }

  lemma FreeIsPossible(w: World, op: Op)
    ensures Free(op) ==> Possible(w, op)
  {
  }

  lemma ExistingIsFree(call: Call)
    requires call.Initialize? && call.existing && (call.recoveryOnly ==> call.normal)
    ensures Program(BOOT, call)[0] == MatchOwner(call.text)
    ensures forall j :: 0 < j < |Program(BOOT, call)| ==> Free(Program(BOOT, call)[j])
  {
  }

  lemma FreshIsFree(text: string)
    ensures FreshOps(text)[0] == NoOwner && FreshOps(text)[1] == MarkPending && FreshOps(text)[22] == Unlink
    ensures forall j :: 3 <= j < COMMIT ==> Free(FreshOps(text)[j])
  {
  }

  lemma FreshPossible(w: World, text: string)
    requires w.owner.None? && w.pending.None?
    ensures AllPossible(w, FreshOps(text), |FreshOps(text)|)
  {
    hide FreshOps, Possible, Steps;
    var ops := FreshOps(text);
    FreshShape(text);
    FreshIsFree(text);
    forall j | 0 <= j < |ops| ensures Possible(Steps(w, ops, j), ops[j]) {
      if j < 3 {
        FreshBegin(w, text, j);
      } else if j < COMMIT {
        FreeIsPossible(Steps(w, ops, j), ops[j]);
      } else {
        FreshFinish(w, text, j);
      }
    }
  }

  lemma FreshBegin(w: World, text: string, j: nat)
    requires w.owner.None? && w.pending.None? && j < 3
    ensures Possible(Steps(w, FreshOps(text), j), FreshOps(text)[j])
  {
    hide FreshOps;
    FreshShape(text);
    FreshIsFree(text);
  }

  lemma FreshFinish(w: World, text: string, j: nat)
    requires w.owner.None? && COMMIT <= j < |FreshOps(text)|
    ensures Possible(Steps(w, FreshOps(text), j), FreshOps(text)[j])
  {
    hide FreshOps, Steps;
    var ops := FreshOps(text);
    FreshShape(text);
    FreshIsFree(text);
    OwnerStays(w, ops, COMMIT);
    OneStep(w, ops, 2);
    PendingStays(w, ops, 3, COMMIT);
    OneStep(w, ops, COMMIT);
  }

  // ----- every write -------------------------------------------------------------------------------

  predicate Claims(e: Event) {
    e.Did? && (e.op.MatchOwner? || e.op.Export?)
  }

  /** In the process at the end of `s` our own marker was matched, or the channel exported. */
  ghost predicate Claimed(s: seq<Event>) {
    exists m :: 0 <= m < |s| && Claims(s[m]) && NoBeginAfter(s, m)
  }

  predicate NoBeginAfter(s: seq<Event>, m: int) {
    forall x :: m < x < |s| && 0 <= x ==> s[x] != Did(Begin)
  }

  ghost predicate SelfExported(s: seq<Event>) {
    exists m :: 0 <= m < |s| && s[m] == Did(Export) && NoBeginAfter(s, m)
  }

  /** The polarity was read as normal and nothing was written since. */
  ghost predicate ReadNormal(s: seq<Event>) {
    exists m :: 0 <= m < |s| && s[m] == Did(Expect(Polarity, NORMAL)) && NoBeginAfter(s, m)
                && forall x :: m < x < |s| ==> !s[x].op.Put?
  }

  predicate EndsWithReads(s: seq<Event>) {
    && |s| >= 3 && s[|s| - 3] == Did(Expect(Period, Decimal(PERIOD_NS)))
    && s[|s| - 2] == Did(Expect(Polarity, NORMAL)) && s[|s| - 1] == Did(Expect(Enable, Decimal(1)))
  }

  /** The value is one the design lets be written after `s`. */
  ghost predicate LevelIsSafe(s: seq<Event>, attr: Attr, value: Reading) {
    match attr
    case DutyCycle =>
      if value == Decimal(0) then ReadNormal(s) || SelfExported(s)
      else EndsWithReads(s) && exists us: nat :: 500 <= us <= 2500 && value == Decimal(us * 1000)
    case Enable =>
      if value == Decimal(0) then |s| > 0 && s[|s| - 1] == Did(Differ(Polarity, NORMAL)) else SelfExported(s)
    case _ => SelfExported(s)
  }

  ghost predicate WriteIsSafe(s: seq<Event>, attr: Attr, value: Reading) {
    Claimed(s) && LevelIsSafe(s, attr, value)
  }

  ghost predicate WritesAreSafe(trace: seq<Event>) {
    forall i :: 0 <= i < |trace| && trace[i].op.Put? ==> WriteIsSafe(trace[..i], trace[i].op.attr, trace[i].op.value)
  }

  /** Trust in the channel always has a claim behind it. */
  ghost predicate Sound(w: World) {
    WritesAreSafe(w.trace) && (w.trusted ==> Claimed(w.trace))
  }

  lemma ClaimPrepends(pre: seq<Event>, s: seq<Event>)
    ensures Claimed(s) ==> Claimed(pre + s)
    ensures SelfExported(s) ==> SelfExported(pre + s)
    ensures ReadNormal(s) ==> ReadNormal(pre + s)
    ensures EndsWithReads(s) ==> EndsWithReads(pre + s)
  {
    if Claimed(s) {
      var m :| 0 <= m < |s| && Claims(s[m]) && NoBeginAfter(s, m);
      assert Claims((pre + s)[|pre| + m]) && NoBeginAfter(pre + s, |pre| + m);
    }
    if SelfExported(s) {
      var m :| 0 <= m < |s| && s[m] == Did(Export) && NoBeginAfter(s, m);
      assert (pre + s)[|pre| + m] == Did(Export) && NoBeginAfter(pre + s, |pre| + m);
    }
    if ReadNormal(s) {
      var m :| 0 <= m < |s| && s[m] == Did(Expect(Polarity, NORMAL)) && NoBeginAfter(s, m)
               && forall x :: m < x < |s| ==> !s[x].op.Put?;
      assert (pre + s)[|pre| + m] == Did(Expect(Polarity, NORMAL)) && NoBeginAfter(pre + s, |pre| + m);
    }
  }

  lemma ClaimAppends(pre: seq<Event>, s: seq<Event>)
    requires Claimed(pre) && NoBeginAfter(s, -1)
    ensures Claimed(pre + s)
  {
    var m :| 0 <= m < |pre| && Claims(pre[m]) && NoBeginAfter(pre, m);
    assert Claims((pre + s)[m]) && NoBeginAfter(pre + s, m);
  }

  lemma LevelPrepends(pre: seq<Event>, s: seq<Event>, attr: Attr, value: Reading)
    requires LevelIsSafe(s, attr, value)
    ensures LevelIsSafe(pre + s, attr, value)
  {
    hide ReadNormal, SelfExported, EndsWithReads, Claimed;
    ClaimPrepends(pre, s);
  }

  /** What write or trust `j` of a call needs is in the call's own operations before it, or was there already. */
  ghost predicate Guarded(ops: seq<Op>, j: nat, trusted: bool)
    requires j < |ops|
  {
    var s := Events(ops, j);
    && NoBeginAfter(s, -1) && ops[j] != Begin
    && (ops[j].Put? || ops[j].Trust? ==> trusted || Claimed(s))
    && (ops[j].Put? ==> LevelIsSafe(s, ops[j].attr, ops[j].value))
  }

  lemma FreshIsGuarded(text: string, j: nat, trusted: bool)
    requires j < |FreshOps(text)|
    ensures Guarded(FreshOps(text), j, trusted)
  {
    hide LevelIsSafe;
    var ops := FreshOps(text);
    var s := Events(ops, j);
    assert NoBeginAfter(s, -1);
    if j > 3 {
      assert s[3] == Did(Export) && Claims(s[3]) && NoBeginAfter(s, 3);
      assert ops[j].Put? ==> ops[j].attr != DutyCycle || ops[j].value == Decimal(0);
      assert ops[j].Put? ==> ops[j].attr != Enable || ops[j].value != Decimal(0);
      if ops[j].Put? {
        OwnExportIsSafe(s, ops[j].attr, ops[j].value);
      }
    }
  }

  lemma OwnExportIsSafe(s: seq<Event>, attr: Attr, value: Reading)
    requires SelfExported(s) && (attr == DutyCycle ==> value == Decimal(0)) && (attr == Enable ==> value != Decimal(0))
    ensures LevelIsSafe(s, attr, value)
  {
  }

  lemma PulseIsGuarded(us: nat, j: nat)
    requires Allowed(us) && j < |PulseOps(us)|
    ensures Guarded(PulseOps(us), j, true)
  {
    var s := Events(PulseOps(us), j);
    if j == 3 {
      assert s[1] == Did(Expect(Polarity, NORMAL)) && NoBeginAfter(s, 1) && EndsWithReads(s);
    }
  }

  lemma EmergencyIsGuarded(normal: bool, j: nat)
    requires j < |EmergencyOps(normal)|
    ensures Guarded(EmergencyOps(normal), j, true)
  {
    var s := Events(EmergencyOps(normal), j);
    if j == 1 && normal {
      assert s[0] == Did(Expect(Polarity, NORMAL)) && NoBeginAfter(s, 0);
    }
  }

  lemma ExistingIsGuarded(text: string, j: nat, trusted: bool)
    requires j < |ExistingOps(text)|
    ensures Guarded(ExistingOps(text), j, trusted)
  {
    var ops := ExistingOps(text);
    var s := Events(ops, j);
    if j > 0 {
      assert Claims(s[0]) && NoBeginAfter(s, 0);
    }
    if j == 4 {
      assert s[1] == Did(Expect(Polarity, NORMAL)) && NoBeginAfter(s, 1);
    }
    if j == 9 {
      assert s[7] == Did(Expect(Polarity, NORMAL)) && NoBeginAfter(s, 7);
    }
  }

  lemma RecoveryIsGuarded(text: string, normal: bool, j: nat, trusted: bool)
    requires j < 2 + |EmergencyOps(normal)|
    ensures Guarded([MatchOwner(text), Trust] + EmergencyOps(normal), j, trusted)
  {
    var ops := [MatchOwner(text), Trust] + EmergencyOps(normal);
    var s := Events(ops, j);
    if j > 0 {
      assert Claims(s[0]) && NoBeginAfter(s, 0);
    }
    if j == 3 && normal {
      assert s[2] == Did(Expect(Polarity, NORMAL)) && NoBeginAfter(s, 2);
    }
  }

  lemma CallIsGuarded(w: World, call: Call, j: nat)
    requires call != Restart && j < |Program(w, call)|
    ensures Guarded(Program(w, call), j, w.trusted)
  {
    hide Guarded, FreshOps, ExistingOps, PulseOps, EmergencyOps, CheckOps;
    match call
    case Initialize(text, existing, recoveryOnly, normal) =>
      if existing && recoveryOnly {
        RecoveryIsGuarded(text, normal, j, w.trusted);
      } else if existing {
        ExistingIsGuarded(text, j, w.trusted);
      } else if !recoveryOnly {
        FreshIsGuarded(text, j, w.trusted);
      } else {
        RefusalIsGuarded([NoOwner, Refuse], j, w.trusted);
      }
    case NoChip => RefusalIsGuarded([Refuse], j, w.trusted);
    case WritePulse(us) =>
      if w.trusted && Allowed(us) {
        PulseIsGuarded(us, j);
      } else {
        RefusalIsGuarded([Refuse], j, w.trusted);
      }
    case EmergencyLow(normal) =>
      if w.trusted {
        EmergencyIsGuarded(normal, j);
      } else {
        RefusalIsGuarded([Refuse], j, w.trusted);
      }
    case Check =>
      if w.trusted {
        CheckIsGuarded(w.aim, j);
      } else {
        RefusalIsGuarded([Refuse], j, w.trusted);
      }
  }

  lemma RefusalIsGuarded(ops: seq<Op>, j: nat, trusted: bool)
    requires j < |ops| && forall k :: 0 <= k < |ops| ==> ops[k].Refuse? || ops[k].NoOwner?
    ensures Guarded(ops, j, trusted)
  {
  }

  lemma CheckIsGuarded(us: nat, j: nat)
    requires j < |CheckOps(us)|
    ensures Guarded(CheckOps(us), j, true)
  {
  }

  lemma AddEvent(trace: seq<Event>, e: Event)
    requires WritesAreSafe(trace) && (e.op.Put? ==> WriteIsSafe(trace, e.op.attr, e.op.value))
    ensures WritesAreSafe(trace + [e])
  {
    hide WriteIsSafe;
    var longer := trace + [e];
    forall i | 0 <= i < |longer| && longer[i].op.Put?
      ensures WriteIsSafe(longer[..i], longer[i].op.attr, longer[i].op.value)
    {
      if i < |trace| {
        assert longer[..i] == trace[..i];
      } else {
        assert longer[..i] == trace;
      }
    }
  }

  lemma GuardHolds(w: World, ops: seq<Op>, k: nat)
    requires Sound(w) && k < |ops| && Guarded(ops, k, w.trusted)
    ensures var trace := w.trace + Events(ops, k);
            && (w.trusted || ops[k].Trust? ==> Claimed(trace))
            && (ops[k].Put? ==> WriteIsSafe(trace, ops[k].attr, ops[k].value))
  {
    hide Claimed, LevelIsSafe, NoBeginAfter;
    var s := Events(ops, k);
    if w.trusted {
      ClaimAppends(w.trace, s);
    }
    ClaimPrepends(w.trace, s);
    if ops[k].Put? {
      LevelPrepends(w.trace, s, ops[k].attr, ops[k].value);
    }
  }

  lemma {:induction false} StepsSound(w: World, ops: seq<Op>, k: nat)
    requires Sound(w) && k <= |ops|
    requires forall j :: 0 <= j < |ops| ==> Guarded(ops, j, w.trusted)
    ensures Sound(Steps(w, ops, k))
  {
    hide Guarded, Claimed, WriteIsSafe, WritesAreSafe;
    if k > 0 {
      StepsSound(w, ops, k - 1);
      StepsTrace(w, ops, k - 1);
      GuardHolds(w, ops, k - 1);
      NotBegin(ops, k - 1, w.trusted);
      var v, e := Steps(w, ops, k - 1), Did(ops[k - 1]);
      AddEvent(v.trace, e);
      if Steps(w, ops, k).trusted {
        ClaimAppends(v.trace, [e]);
      }
    }
  }

  lemma NotBegin(ops: seq<Op>, j: nat, trusted: bool)
    requires j < |ops| && Guarded(ops, j, trusted)
    ensures NoBeginAfter([Did(ops[j])], -1)
  {
  }

  lemma TrySound(w: World, t: Try)
    requires Sound(w)
    ensures Sound(Apply(w, t))
  {
    hide Guarded, Claimed, WriteIsSafe, WritesAreSafe, Program, AllPossible;
    if CanBe(w, t) {
      var ops := Program(w, t.call);
      if t.call == Restart {
        RestartSound(w, t);
      } else {
        forall j | 0 <= j < |ops| ensures Guarded(ops, j, w.trusted) {
          CallIsGuarded(w, t.call, j);
        }
        StepsSound(w, ops, t.worked);
        var done := Steps(w, ops, t.worked);
        if t.worked < |ops| {
          StepsTrace(w, ops, t.worked);
          GuardHolds(w, ops, t.worked);
          AddEvent(done.trace, Did(Begin));
          AddEvent(done.trace, Failed(ops[t.worked]));
          if done.trusted {
            ClaimAppends(done.trace, [Failed(ops[t.worked])]);
          }
        }
      }
    }
  }

  lemma RestartSound(w: World, t: Try)
    requires Sound(w) && t.call == Restart && CanBe(w, t)
    ensures Sound(Result(w, t))
  {
    hide Claimed, WriteIsSafe, WritesAreSafe;
    AddEvent(w.trace, Did(Begin));
    AddEvent(w.trace, Failed(Begin));
    if w.trusted {
      ClaimAppends(w.trace, [Failed(Begin)]);
    }
  }

  /**
   * Whatever was called and wherever it crashed: no attribute is ever written, not even tried, in a
   * process that has not matched our own marker or exported the channel itself. Period, polarity and
   * enabling are written only on a channel exported by this process. A duty of zero needs the polarity
   * just read as normal, or that own export; a pulse needs all three reads right before it and is
   * 500 to 2500 us; disabling is left for a polarity that is not normal.
   */
  lemma {:induction false} EveryWriteIsSafe(tries: seq<Try>)
    ensures Sound(History(BOOT, tries))
    decreases |tries|
  {
    if tries != [] {
      EveryWriteIsSafe(tries[..|tries| - 1]);
      TrySound(History(BOOT, tries[..|tries| - 1]), tries[|tries| - 1]);
    }
  }

  // ----- what success means ------------------------------------------------------------------------

  /** From `from` on, all four attributes were read back right, and nothing was written after that. */
  ghost predicate Confirmed(trace: seq<Event>, from: nat, us: nat) {
    exists p :: && from <= p && p + 4 <= |trace| && ReadBackAt(trace, p, us)
                && forall x :: p <= x < |trace| ==> !trace[x].op.Put?
  }

  predicate ReadBackAt(trace: seq<Event>, p: nat, us: nat) {
    && p + 4 <= |trace|
    && trace[p] == Did(Expect(Period, Decimal(20000000))) && trace[p + 1] == Did(Expect(Polarity, Word("normal")))
    && trace[p + 2] == Did(Expect(Enable, Decimal(1))) && trace[p + 3] == Did(Expect(DutyCycle, Decimal(us * 1000)))
  }

  /** The pulse a successful call leaves behind. */
  function Leaves(w: World, call: Call): nat {
    match call
    case WritePulse(us) => if us > 0 then us else 0
    case Check => w.aim
    case _ => 0
  }

  lemma TailConfirms(pre: seq<Op>, us: nat, post: seq<Op>)
    requires forall k :: 0 <= k < |post| ==> !post[k].Put?
    ensures var ops := pre + CheckOps(us) + post; Confirmed(Events(ops, |ops|), 0, us)
  {
    var ops := pre + CheckOps(us) + post;
    assert ReadBackAt(Events(ops, |ops|), |pre|, us);
  }

  lemma PulseConfirms(pre: seq<Op>, us: nat, post: seq<Op>)
    requires forall k :: 0 <= k < |post| ==> !post[k].Put?
    ensures var ops := pre + PulseOps(us) + post; Confirmed(Events(ops, |ops|), 0, us)
  {
    var own := READS + [Put(DutyCycle, Decimal(us * 1000)), Aim(us)];
    TailConfirms(pre + own, us, post);
    assert pre + PulseOps(us) + post == (pre + own) + CheckOps(us) + post;
  }

  lemma PulseLength(us: nat)
    ensures |PulseOps(us)| == 9 && |CheckOps(us)| == 4
  {
  }

  lemma ProgramConfirms(w: World, call: Call)
    requires call != Restart
    ensures var ops := Program(w, call);
            |ops| > 0 && (ops[|ops| - 1] != Refuse ==> Confirmed(Events(ops, |ops|), 0, Leaves(w, call)))
  {
    hide Confirmed, PulseOps, CheckOps, Events;
    var ops := Program(w, call);
    match call
    case Initialize(text, existing, recoveryOnly, normal) =>
      if !existing && !recoveryOnly {
        PulseConfirms(ops[..12], 0, [Link, Unlink]);
        assert ops == ops[..12] + PulseOps(0) + [Link, Unlink];
      } else if existing && !recoveryOnly {
        PulseConfirms(ops[..6], 0, []);
        assert ops == ops[..6] + PulseOps(0) + [];
      } else if existing && normal {
        TailConfirms(ops[..5], 0, []);
        assert ops == ops[..5] + CheckOps(0) + [];
      }
    case NoChip =>
    case WritePulse(us) =>
      if w.trusted && Allowed(us) {
        PulseLength(us);
        PulseConfirms([], us, []);
        assert ops == [] + PulseOps(us) + [];
      }
    case EmergencyLow(normal) =>
      if w.trusted && normal {
        TailConfirms(ops[..3], 0, []);
        assert ops == ops[..3] + CheckOps(0) + [];
      }
    case Check =>
      if w.trusted {
        PulseLength(w.aim);
        TailConfirms([], w.aim, []);
        assert ops == [] + CheckOps(w.aim) + [];
      }
  }

  /** A call that returns true has itself read back the pulse it leaves behind, after its last write. */
  lemma SuccessIsConfirmed(w: World, t: Try)
    requires CanBe(w, t) && Succeeds(w, t) && t.call != Restart
    ensures Confirmed(Result(w, t).trace, |w.trace|, Leaves(w, t.call))
  {
    hide Program, Confirmed;
    var ops := Program(w, t.call);
    ResultTrace(w, t);
    ProgramConfirms(w, t.call);
    NoRefusal(w, t);
    ConfirmedPrepends(w.trace, Events(ops, |ops|), Leaves(w, t.call));
    assert Result(w, t).trace == w.trace + Events(ops, |ops|);
  }

  lemma NoRefusal(w: World, t: Try)
    requires CanBe(w, t) && Succeeds(w, t) && t.call != Restart
    ensures |Program(w, t.call)| > 0 && Program(w, t.call)[|Program(w, t.call)| - 1] != Refuse
  {
    ProgramConfirms(w, t.call);
    hide Program;
    var ops := Program(w, t.call);
    assert Possible(Steps(w, ops, |ops| - 1), ops[|ops| - 1]);
  }

  lemma ConfirmedPrepends(pre: seq<Event>, s: seq<Event>, us: nat)
    requires Confirmed(s, 0, us)
    ensures Confirmed(pre + s, |pre|, us)
  {
    var p :| 0 <= p && p + 4 <= |s| && ReadBackAt(s, p, us) && forall x :: p <= x < |s| ==> !s[x].op.Put?;
    assert ReadBackAt(pre + s, |pre| + p, us);
  }
}
