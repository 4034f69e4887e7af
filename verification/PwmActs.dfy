/** What the calls of the PWM output do to the channel: which writes are made, and that no others are. */
module PwmActs {
  import opened PwmModel
  import opened PwmLaws

  /** What a call itself adds to the trace. */
  ghost function Own(w: World, t: Try): (own: seq<Event>)
    requires CanBe(w, t)
    ensures own == Events(Program(w, t.call), t.worked) + Tail(Program(w, t.call), t)
    ensures Result(w, t).trace == w.trace + own
  {
    hide Program;
    ResultTrace(w, t);
    Events(Program(w, t.call), t.worked) + Tail(Program(w, t.call), t)
  }

  /** The call came to its own end; the machine did not stop in the midst of it. */
  ghost predicate Ended(w: World, t: Try) {
    t.failed || Succeeds(w, t)
  }

  /** The write was made, whether it worked or not. */
  predicate Made(e: Event, attr: Attr, value: Reading) {
    e == Did(Put(attr, value)) || e == Failed(Put(attr, value))
  }

  /** At `k` the polarity was found normal, or found not to be. */
  predicate LookedAt(own: seq<Event>, k: nat, normal: bool) {
    k < |own| && own[k] == Did(if normal then Expect(Polarity, Word("normal")) else Differ(Polarity, Word("normal")))
  }

  /** What an emergency stop has to do once the polarity is known: duty 0 if it is normal, else switch off. */
  predicate Suppresses(own: seq<Event>, k: nat, normal: bool) {
    && LookedAt(own, k, normal) && k + 1 < |own|
    && if normal then Made(own[k + 1], DutyCycle, Decimal(0)) else Made(own[k + 1], Enable, Decimal(0))
  }

  /**
   * The emergency stop: every `emergency_low` of a process that trusts the channel, and every recovery
   * start that matched the owner file, tries at once to suppress the pulse when it has looked at the
   * polarity, by a duty of 0 if that is normal and by switching off if it is not or cannot be read, also
   * when the call then returns false.
   */
  lemma EmergencySuppresses(w: World, t: Try) returns (k: nat, normal: bool)
    requires CanBe(w, t) && Ended(w, t)
    requires || (t.call.EmergencyLow? && w.trusted && t.worked >= 1)
             || (t.call.Initialize? && t.call.existing && t.call.recoveryOnly && t.worked >= 3)
    ensures normal == t.call.normal && Suppresses(Own(w, t), k, normal)
  {
    normal := t.call.normal;
    k := if t.call.EmergencyLow? then 0 else 2;
    var ops, own := Program(w, t.call), Own(w, t);
    assert |ops| > k + 1 && (ops[k + 1] == if normal then Put(DutyCycle, Decimal(0)) else Put(Enable, Decimal(0)));
    assert own[k] == Did(ops[k]);
    assert own[k + 1] == if t.worked > k + 1 then Did(ops[k + 1]) else Failed(ops[k + 1]);
  }

  /** The channel read as it should, in this call, at its very beginning. */
  predicate ReadsRight(own: seq<Event>) {
    && |own| >= 3
    && own[0] == Did(Expect(Period, Decimal(20000000))) && own[1] == Did(Expect(Polarity, Word("normal")))
    && own[2] == Did(Expect(Enable, Decimal(1)))
  }

  /**
   * A permitted pulse on a channel that reads right is written as its own number of nanoseconds, at once
   * and once only; what is read back after it is that number.
   */
  lemma PulseIsWritten(w: World, t: Try)
    requires CanBe(w, t) && Ended(w, t) && t.call.WritePulse? && w.trusted && t.worked >= 3
    requires t.call.us == 0 || 500 <= t.call.us <= 2500
    ensures var own, ns := Own(w, t), Decimal(t.call.us * 1000);
            && ReadsRight(own) && |own| > 3 && Made(own[3], DutyCycle, ns)
            && (forall x :: 0 <= x < |own| && x != 3 ==> !own[x].op.Put?)
            && (forall x :: 3 < x < |own| && own[x].op.Expect? && own[x].op.attr == DutyCycle ==> own[x].op.value == ns)
            && (Succeeds(w, t) ==> own[|own| - 1] == Did(Expect(DutyCycle, ns)))
  {
    OwnIsProgram(w, t);
    assert Program(w, t.call) == PulseOps(t.call.us);
    PulseEvents(t.call.us, Own(w, t), t.worked);
  }

  lemma PulseEvents(us: nat, own: seq<Event>, worked: nat)
    requires 3 <= worked <= |own| <= 9 && (|own| == worked ==> worked == 9)
    requires forall x :: 0 <= x < worked ==> own[x] == Did(PulseOps(us)[x])
    requires worked < |own| ==> |own| == worked + 1 && own[worked] == Failed(PulseOps(us)[worked])
    ensures var ns := Decimal(us * 1000);
            && ReadsRight(own) && |own| > 3 && Made(own[3], DutyCycle, ns)
            && (forall x :: 0 <= x < |own| && x != 3 ==> !own[x].op.Put?)
            && (forall x :: 3 < x < |own| && own[x].op.Expect? && own[x].op.attr == DutyCycle ==> own[x].op.value == ns)
            && (worked == 9 ==> own[|own| - 1] == Did(Expect(DutyCycle, ns)))
  {
    PulseShape(us);
    hide PulseOps;
    var ops := PulseOps(us);
    assert forall x :: 0 <= x < |own| ==> own[x].op == ops[x];
  }

  lemma PulseShape(us: nat)
    ensures var ops := PulseOps(us);
            && |ops| == 9 && ops[0] == Expect(Period, Decimal(20000000)) && ops[1] == Expect(Polarity, Word("normal"))
            && ops[2] == Expect(Enable, Decimal(1)) && ops[3] == Put(DutyCycle, Decimal(us * 1000)) && ops[4] == Aim(us)
            && ops[8] == Expect(DutyCycle, Decimal(us * 1000))
            && forall x :: 5 <= x < 8 ==> ops[x].Expect? && ops[x].attr != DutyCycle
  {
  }

  /** The call's own events are its operations, all of them done but perhaps the last. */
  lemma OwnIsProgram(w: World, t: Try)
    requires CanBe(w, t) && Ended(w, t)
    ensures var ops, own := Program(w, t.call), Own(w, t);
            && |own| == (if Succeeds(w, t) then t.worked else t.worked + 1) <= |ops|
            && (forall x :: 0 <= x < t.worked ==> own[x] == Did(ops[x]))
            && (t.worked < |own| ==> own[t.worked] == Failed(ops[t.worked]))
  {
    hide Program;
  }

  /** A check, a refused call and a call of a process that does not trust the channel write nothing. */
  lemma OthersWriteNothing(w: World, t: Try)
    requires CanBe(w, t)
    requires || t.call == Check || t.call == Restart || t.call == NoChip
             || (t.call.WritePulse? && (!w.trusted || !(t.call.us == 0 || 500 <= t.call.us <= 2500)))
             || (t.call.EmergencyLow? && !w.trusted)
    ensures forall x :: 0 <= x < |Own(w, t)| ==> !Own(w, t)[x].op.Put? && !Own(w, t)[x].op.Export?
    ensures t.call != Check && t.call != Restart ==> !Succeeds(w, t)
  {
    var ops := Program(w, t.call);
    assert forall x :: 0 <= x < |ops| ==> !ops[x].Put? && !ops[x].Export?;
    if t.call != Check && t.call != Restart {
      assert ops == [Refuse] && !Possible(Steps(w, ops, 0), ops[0]);
    }
  }

  /** The last write of a sequence sets the duty to this pulse. */
  predicate LastDutyIs(own: seq<Event>, k: nat, us: nat) {
    && k < |own| && own[k] == Did(Put(DutyCycle, Decimal(us * 1000)))
    && forall x :: k < x < |own| ==> !own[x].op.Put?
  }

  /**
   * Every call that succeeds, but for a mere check, has itself written the pulse it leaves behind, as its
   * last write, and expects that pulse from then on; a check expects what was expected before.
   */
  lemma SuccessHasWritten(w: World, t: Try) returns (k: nat)
    requires CanBe(w, t) && Succeeds(w, t) && t.call != Restart
    ensures t.call != Call.Check ==> LastDutyIs(Own(w, t), k, Leaves(w, t.call))
    ensures Result(w, t).aim == Leaves(w, t.call)
  {
    NoRefusal(w, t);
    var j;
    k, j := ProgramWrites(w, t.call);
    hide Program, Own, Writes, LastDutyIs;
    var ops := Program(w, t.call);
    if t.call == Call.Check {
      NeverAims(w, ops);
      CheckLeaves(w);
    } else {
      WrittenLast(w, t, k, j);
    }
  }

  lemma CheckLeaves(w: World)
    ensures Leaves(w, Call.Check) == w.aim
  {
  }

  lemma WrittenLast(w: World, t: Try, k: nat, j: nat)
    requires CanBe(w, t) && Succeeds(w, t) && Writes(Program(w, t.call), k, j, Leaves(w, t.call))
    ensures LastDutyIs(Own(w, t), k, Leaves(w, t.call)) && Result(w, t).aim == Leaves(w, t.call)
  {
    hide Program, Leaves;
    OwnIsProgram(w, t);
    AimStays(w, Program(w, t.call), j);
  }

  /** The last write of these operations sets the duty to this pulse, and the last aim is at it. */
  predicate Writes(ops: seq<Op>, k: nat, j: nat, us: nat) {
    && k < |ops| && ops[k] == Put(DutyCycle, Decimal(us * 1000)) && (forall x :: k < x < |ops| ==> !ops[x].Put?)
    && 0 < j <= |ops| && ops[j - 1] == Aim(us) && forall x :: j <= x < |ops| ==> !ops[x].Aim? && !ops[x].Begin?
  }

  lemma ProgramWrites(w: World, call: Call) returns (k: nat, j: nat)
    requires call != Restart && Program(w, call)[|Program(w, call)| - 1] != Refuse
    ensures call != Check ==> Writes(Program(w, call), k, j, Leaves(w, call))
    ensures call == Check ==> forall x :: 0 <= x < |Program(w, call)| ==>
                                !Program(w, call)[x].Aim? && !Program(w, call)[x].Begin?
  {
    hide FreshOps, ExistingOps, PulseOps, EmergencyOps;
    k, j := 0, 1;
    match call
    case Initialize(text, existing, recoveryOnly, normal) =>
      if existing && recoveryOnly {
        EmergencyWrites(normal);
        k, j := 3, 5;
      } else if existing {
        ExistingWrites(text);
        k, j := 9, 11;
      } else if !recoveryOnly {
        FreshWrites(text);
        k, j := 15, 17;
      }
    case WritePulse(us) =>
      if w.trusted && Allowed(us) {
        PulseShape(us);
        k, j := 3, 5;
      }
    case EmergencyLow(normal) =>
      EmergencyWrites(normal);
      k, j := 1, 3;
    case _ =>
  }

  lemma FreshWrites(text: string)
    ensures Writes(FreshOps(text), 15, 17, 0)
  {
  }

  lemma ExistingWrites(text: string)
    ensures Writes(ExistingOps(text), 9, 11, 0)
  {
  }

  lemma EmergencyWrites(normal: bool)
    ensures |EmergencyOps(normal)| > 0
    ensures if normal then Writes(EmergencyOps(normal), 1, 3, 0)
            else EmergencyOps(normal)[|EmergencyOps(normal)| - 1] == Refuse
  {
  }

  /** What is expected is what was aimed at last. */
  lemma {:induction false} AimStays(w: World, ops: seq<Op>, from: nat)
    requires 0 < from <= |ops| && ops[from - 1].Aim?
    requires forall x :: from <= x < |ops| ==> !ops[x].Aim? && !ops[x].Begin?
    ensures Steps(w, ops, |ops|).aim == ops[from - 1].us
  {
    AimAfter(w, ops, from, |ops|);
  }

  lemma {:induction false} AimAfter(w: World, ops: seq<Op>, from: nat, k: nat)
    requires 0 < from <= k <= |ops| && ops[from - 1].Aim?
    requires forall x :: from <= x < k ==> !ops[x].Aim? && !ops[x].Begin?
    ensures Steps(w, ops, k).aim == ops[from - 1].us
    decreases k
  {
    if k > from {
      AimAfter(w, ops, from, k - 1);
    }
  }

  lemma NeverAims(w: World, ops: seq<Op>)
    requires forall x :: 0 <= x < |ops| ==> !ops[x].Aim? && !ops[x].Begin?
    ensures Steps(w, ops, |ops|).aim == w.aim
  {
    NoAim(w, ops, |ops|);
  }

  lemma {:induction false} NoAim(w: World, ops: seq<Op>, k: nat)
    requires k <= |ops| && forall x :: 0 <= x < k ==> !ops[x].Aim? && !ops[x].Begin?
    ensures Steps(w, ops, k).aim == w.aim
    decreases k
  {
    if k > 0 {
      NoAim(w, ops, k - 1);
    }
  }

  /** A start that succeeds is what makes a process trust the channel; a new process trusts nothing. */
  lemma StartIsTrusted(w: World, t: Try)
    requires CanBe(w, t)
    ensures t.call.Initialize? && Succeeds(w, t) ==> Result(w, t).trusted
    ensures t.call == Restart && Succeeds(w, t) ==> !Result(w, t).trusted && Result(w, t).aim == 0
  {
    hide CheckOps, PulseOps;
    if t.call.Initialize? && Succeeds(w, t) {
      var ops := Program(w, t.call);
      NoRefusal(w, t);
      var k := TrustIsThere(w, t.call);
      TrustStays(w, ops, k, |ops|);
    }
  }

  lemma TrustIsThere(w: World, call: Call) returns (k: nat)
    requires call.Initialize? && Program(w, call)[|Program(w, call)| - 1] != Refuse
    ensures k < |Program(w, call)| && Program(w, call)[k] == Trust
    ensures forall x :: 0 <= x < |Program(w, call)| ==> !Program(w, call)[x].Begin?
  {
    k := if !call.existing then 11 else if call.recoveryOnly then 1 else 5;
  }

  lemma {:induction false} TrustStays(w: World, ops: seq<Op>, k: nat, n: nat)
    requires k < n <= |ops| && ops[k] == Trust && forall x :: 0 <= x < n ==> !ops[x].Begin?
    ensures Steps(w, ops, n).trusted
    decreases n
  {
    if n > k + 1 {
      TrustStays(w, ops, k, n - 1);
    }
  }

  /**
   * A start that exports sets the channel up in this order, on an export read as disabled and without
   * duty: 20 ms, duty 0, normal polarity, and only then enabled; it trusts it only after that.
   */
  lemma FreshStartSetsUp(w: World, t: Try)
    requires CanBe(w, t) && Ended(w, t) && t.call.Initialize? && !t.call.existing && !t.call.recoveryOnly
    ensures var own := Own(w, t);
            && (t.worked >= 5 ==> own[3] == Did(Export))
            && (t.worked >= 7 ==> own[5] == Did(Expect(Enable, Decimal(0)))
                                  && own[6] == Did(Expect(DutyCycle, Decimal(0)))
                                  && |own| > 7 && Made(own[7], Period, Decimal(20000000)))
            && (t.worked >= 8 ==> |own| > 8 && Made(own[8], DutyCycle, Decimal(0)))
            && (t.worked >= 9 ==> |own| > 9 && Made(own[9], Polarity, Word("normal")))
            && (t.worked >= 10 ==> |own| > 10 && Made(own[10], Enable, Decimal(1)))
  {
    FreshSetUp(t.call.text);
    OwnIsProgram(w, t);
    assert Program(w, t.call) == FreshOps(t.call.text);
    hide FreshOps, Own, Program;
  }

  lemma FreshSetUp(text: string)
    ensures var ops := FreshOps(text);
            && |ops| == 23 && ops[3] == Export && ops[5] == Expect(Enable, Decimal(0))
            && ops[6] == Expect(DutyCycle, Decimal(0)) && ops[7] == Put(Period, Decimal(20000000))
            && ops[8] == Put(DutyCycle, Decimal(0)) && ops[9] == Put(Polarity, Word("normal"))
            && ops[10] == Put(Enable, Decimal(1)) && ops[11] == Trust
  {
  }
}
