/** `SysfsOutput` itself, carried out file operation by file operation. */
module PwmOutput {
  import opened Common
  import opened PwmModel
  import Acts = PwmActs

  const EIO := 5
  const ENODEV := 19
  const EINVAL := 22
  const ESTALE := 116

  datatype Config = Config(channel: int, periodNs: int, ofNodeSuffix: string)

  /** A directory entry below the PWM root; `node` is where its device node leads, if it has one. */
  datatype Entry = Entry(name: string, node: Option<string>, compatible: Option<seq<string>>)

  predicate EndsWith(s: string, suffix: string) {
    |s| >= |suffix| && s[|s| - |suffix|..] == suffix
  }

  lemma EndsWithMeans(s: string, suffix: string)
    ensures EndsWith(s, suffix) <==> exists front :: s == front + suffix
  {
    if EndsWith(s, suffix) {
      assert s == s[..|s| - |suffix|] + suffix;
    }
  }

  /** Entries whose device node has the right place, and must say what they are. */
  predicate Candidate(e: Entry, suffix: string) {
    "pwmchip" <= e.name && e.node.Some? && EndsWith(e.node.value, suffix)
  }

  predicate Rp1(e: Entry, suffix: string) {
    Candidate(e, suffix) && e.compatible.Some? && "raspberrypi,rp1-pwm" in e.compatible.value
  }

  /** Entry `i` cannot be read, or is one controller too many. */
  predicate Spoils(entries: seq<Entry>, i: nat, suffix: string, hadChip: bool)
    requires i < |entries|
  {
    && Candidate(entries[i], suffix)
    && (entries[i].compatible.None?
        || (Rp1(entries[i], suffix) && (hadChip || exists k :: 0 <= k < i && Rp1(entries[k], suffix))))
  }

  /** What the owner file has to say, this boot's id included. */
  function OwnerText(node: string, bootId: string): string {
    "COMMITTED\n" + node + "\n1\n20000000\n" + bootId
  }

  /** The text determines the device node and the boot, as no path of a device node has a line end. */
  lemma OwnerTextIsUnique(node: string, bootId: string, node': string, bootId': string)
    requires '\n' !in node && '\n' !in node'
    ensures OwnerText(node, bootId) == OwnerText(node', bootId') ==> node == node' && bootId == bootId'
  {
    var text, text' := OwnerText(node, bootId), OwnerText(node', bootId');
    if text == text' {
      assert |"COMMITTED\n"| == 10 && |"\n1\n20000000\n"| == 12;
      assert forall i :: 0 <= i < |node| ==> text[10 + i] == node[i];
      assert forall i :: 0 <= i < |node'| ==> text'[10 + i] == node'[i];
      assert text[10 + |node|] == '\n' && text'[10 + |node'|] == '\n';
      assert |node| == |node'|;
      assert node == text[10..10 + |node|] && node' == text'[10..10 + |node|];
      assert bootId == text[22 + |node|..] && bootId' == text'[22 + |node|..];
    }
  }

  /**
   * A marker left by another boot, or for another controller, is never matched by the first 1024 bytes
   * read of it; one of this boot is, as long as it fits in them. Boot ids all have one length.
   */
  lemma OnlyThisBootMatches(w: World, node: string, bootId: string, node': string, bootId': string)
    requires '\n' !in node && '\n' !in node' && |bootId| == |bootId'|
    requires |node'| + |bootId'| <= 1002
    requires w.owner == Some(Saved(OwnerText(node', bootId')))
    ensures Possible(w, MatchOwner(OwnerText(node, bootId))) <==> node == node' && bootId == bootId'
  {
    OwnerTextIsUnique(node, bootId, node', bootId');
  }

  /** A text that does not fit is never matched again. */
  lemma LongTextNeverMatches(w: World, node: string, bootId: string)
    requires |OwnerText(node, bootId)| > 1024
    ensures !Possible(w, MatchOwner(OwnerText(node, bootId)))
  {
  }

  lemma StepWorks(w0: World, ops: seq<Op>, k: nat)
    requires k < |ops| && AllPossible(w0, ops, k) && Possible(Steps(w0, ops, k), ops[k])
    ensures AllPossible(w0, ops, k + 1) && Steps(w0, ops, k + 1) == After(Steps(w0, ops, k), ops[k])
  {
  }

  lemma {:induction false} StepsAgree(w0: World, ops: seq<Op>, longer: seq<Op>, k: nat)
    requires k <= |ops| && k <= |longer| && ops[..k] == longer[..k]
    ensures Steps(w0, ops, k) == Steps(w0, longer, k)
    ensures AllPossible(w0, ops, k) ==> AllPossible(w0, longer, k)
  {
    if k > 0 {
      assert ops[..k - 1] == ops[..k][..k - 1] && longer[..k - 1] == longer[..k][..k - 1];
      assert ops[k - 1] == ops[..k][k - 1] && longer[k - 1] == longer[..k][k - 1];
      StepsAgree(w0, ops, longer, k - 1);
      if AllPossible(w0, ops, k) {
        assert AllPossible(w0, ops, k - 1) && Possible(Steps(w0, ops, k - 1), ops[k - 1]);
      }
    }
  }

  datatype Answer = Same | Other | Unreadable

  /** The runtime directory of one boot, and everything done to it and to the channel. */
  class Runtime {
    var owner: Option<Mark>
    var pending: Option<Mark>
    ghost var trace: seq<Event>

    constructor ()
      ensures owner == None && pending == None && trace == []
    {
      owner, pending, trace := None, None, [];
    }
  }

  class SysfsOutput {
    const files: Runtime
    var chip: Option<Entry>
    var error: int
    var initialized: bool
    var expectedUs: nat

    ghost function View(): World
      reads `initialized, `expectedUs, files
    {
      World(files.owner, files.pending, initialized, expectedUs, files.trace)
    }

    /** Only saved markers are ever linked. */
    ghost predicate Valid()
      reads files
    {
      files.owner.Some? ==> files.owner.value.Saved?
    }

    /** The first `k` operations of `ops`, begun in `w0`, have worked. */
    ghost predicate At(w0: World, ops: seq<Op>, k: nat)
      reads `initialized, `expectedUs, files
    {
      k <= |ops| && AllPossible(w0, ops, k) && View() == Steps(w0, ops, k)
    }

    /** The first `k` have worked and the next has failed. */
    ghost predicate Stuck(w0: World, ops: seq<Op>, k: nat)
      reads `initialized, `expectedUs, files
    {
      k < |ops| && AllPossible(w0, ops, k) && View() == Fails(Steps(w0, ops, k), ops[k])
    }

    constructor (files: Runtime)
      requires files.owner.Some? ==> files.owner.value.Saved?
      modifies files`trace
      ensures this.files == files && Valid() && chip == None && error == 0
      ensures View() == After(World(files.owner, files.pending, false, 0, old(files.trace)), Begin)
    {
      this.files := files;
      chip, error, initialized, expectedUs := None, 0, false, 0;
      new;
      files.trace := files.trace + [Did(Begin)];
    }

    // ----- single file operations ----------------------------------------------------------------

    /** An operation on the channel that worked, or did not. */
    ghost method Note(ok: bool, w0: World, ops: seq<Op>, k: nat)
      requires At(w0, ops, k) && k < |ops|
      requires ops[k].Export? || ops[k].Appear? || ops[k].Expect? || ops[k].Differ? || ops[k].Put?
      modifies files`trace
      ensures if ok then At(w0, ops, k + 1) else Stuck(w0, ops, k)
    {
      hide Steps, AllPossible;
      StepWorks(w0, ops, k);
      files.trace := files.trace + [if ok then Did(ops[k]) else Failed(ops[k])];
    }

    method Reads(attr: Attr, value: Reading, ghost w0: World, ghost ops: seq<Op>, ghost k: nat) returns (answer: Answer)
      requires At(w0, ops, k) && k < |ops| && ops[k] == Expect(attr, value)
      modifies files`trace
      ensures if answer == Same then At(w0, ops, k + 1) else Stuck(w0, ops, k)
    {
      var got: Option<Reading> := *;
      answer := match got case None => Unreadable case Some(reading) => if reading == value then Same else Other;
      Note(answer == Same, w0, ops, k);
    }

    method Puts(attr: Attr, value: Reading, ghost w0: World, ghost ops: seq<Op>, ghost k: nat) returns (ok: bool)
      requires At(w0, ops, k) && k < |ops| && ops[k] == Put(attr, value)
      modifies `error, files`trace
      ensures if ok then At(w0, ops, k + 1) && error == 0 else Stuck(w0, ops, k) && error < 0
    {
      var errno: int :| errno >= 0;
      error := -errno;
      ok := error == 0;
      Note(ok, w0, ops, k);
    }

    /** `return false` where nothing was tried. */
    method Refused(code: int, ghost w0: World, ghost ops: seq<Op>, ghost k: nat)
      requires At(w0, ops, k) && k < |ops| && ops[k] == Refuse && code > 0
      modifies `error, files`trace
      ensures Stuck(w0, ops, k) && error == -code
    {
      hide Steps, AllPossible;
      error := -code;
      files.trace := files.trace + [Failed(Refuse)];
    }

    // ----- the three calls on a running channel ----------------------------------------------------

    /** Reads the period, the polarity and whether it is enabled, up to the first that is not right. */
    method ReadsThree(ghost w0: World, ghost ops: seq<Op>, ghost k: nat) returns (answer: Answer, ghost j: nat)
      requires At(w0, ops, k) && k + 3 <= |ops| && ops[k..k + 3] == READS
      modifies files`trace
      ensures if answer == Same then At(w0, ops, k + 3) else Stuck(w0, ops, j)
      ensures answer != Same ==> j >= k
    {
      hide At, Stuck;
      assert ops[k] == READS[0] && ops[k + 1] == READS[1] && ops[k + 2] == READS[2];
      j := k;
      answer := Reads(Period, Decimal(PERIOD_NS), w0, ops, k);
      if answer == Same {
        j := k + 1;
        answer := Reads(Polarity, NORMAL, w0, ops, k + 1);
        if answer == Same {
          j := k + 2;
          answer := Reads(Enable, Decimal(1), w0, ops, k + 2);
        }
      }
    }

    method Check(ghost w0: World, ghost ops: seq<Op>, ghost k: nat) returns (ok: bool, ghost j: nat)
      requires At(w0, ops, k)
      requires if initialized then k + 4 <= |ops| && ops[k..k + 4] == CheckOps(expectedUs)
               else k < |ops| && ops[k] == Refuse
      modifies `error, files`trace
      ensures if ok then At(w0, ops, k + 4) && error == 0 else Stuck(w0, ops, j) && error < 0
      ensures !initialized ==> !ok && error == -ENODEV
      ensures !ok ==> j >= k
    {
      hide At, Stuck;
      if !initialized {
        Refused(ENODEV, w0, ops, k);
        return false, k;
      }
      CheckParts(ops, k, expectedUs);
      var answer;
      answer, j := ReadsThree(w0, ops, k);
      if answer == Same {
        j := k + 3;
        answer := Reads(DutyCycle, Decimal(expectedUs * 1000), w0, ops, k + 3);
      }
      error := match answer case Same => 0 case Other => -ESTALE case Unreadable => -EIO;
      ok := answer == Same;
    }

    lemma CheckParts(ops: seq<Op>, k: nat, us: nat)
      requires k + 4 <= |ops| && ops[k..k + 4] == CheckOps(us)
      ensures ops[k..k + 3] == READS && ops[k + 3] == Expect(DutyCycle, Decimal(us * 1000))
    {
      var part := CheckOps(us);
      forall i | 0 <= i < 4 ensures ops[k + i] == part[i] {
        assert ops[k..k + 4][i] == ops[k + i];
      }
      assert part[0] == READS[0] && part[1] == READS[1] && part[2] == READS[2];
      assert ops[k + 0] == part[0] && ops[k + 1] == part[1] && ops[k + 2] == part[2] && ops[k + 3] == part[3];
    }

    method WritePulse(us: int, ghost w0: World, ghost ops: seq<Op>, ghost k: nat) returns (ok: bool, ghost j: nat)
      requires At(w0, ops, k)
      requires if initialized && Allowed(us) then k + 9 <= |ops| && ops[k..k + 9] == PulseOps(us)
               else k < |ops| && ops[k] == Refuse
      modifies `error, `expectedUs, files`trace
      ensures if ok then At(w0, ops, k + 9) && error == 0 && expectedUs == us else Stuck(w0, ops, j) && error < 0
      ensures !initialized ==> !ok && error == -ENODEV
      ensures initialized && !Allowed(us) ==> !ok && error == -EINVAL
    {
      hide At, Stuck;
      if !initialized {
        Refused(ENODEV, w0, ops, k);
        return false, k;
      }
      if us != 0 && (us < 500 || us > 2500) {
        Refused(EINVAL, w0, ops, k);
        return false, k;
      }
      PulseParts(ops, k, us);
      var answer;
      answer, j := ReadsThree(w0, ops, k);
      if answer != Same {
        error := if answer == Other then -ESTALE else -EIO;
        return false, j;
      }
      ok := Puts(DutyCycle, Decimal(us * 1000), w0, ops, k + 3);
      if !ok {
        return false, k + 3;
      }
      Aims(us, w0, ops, k + 4);
      ok, j := Check(w0, ops, k + 5);
    }

    lemma PulseParts(ops: seq<Op>, k: nat, us: nat)
      requires k + 9 <= |ops| && ops[k..k + 9] == PulseOps(us)
      ensures ops[k..k + 3] == READS && ops[k + 3] == Put(DutyCycle, Decimal(us * 1000)) && ops[k + 4] == Aim(us)
      ensures ops[k + 5..k + 9] == CheckOps(us)
    {
      var pulse := PulseOps(us);
      assert ops[k..k + 3] == pulse[..3] && ops[k + 3] == pulse[3] && ops[k + 4] == pulse[4];
      assert ops[k + 5..k + 9] == pulse[5..];
    }

    method Aims(us: nat, ghost w0: World, ghost ops: seq<Op>, ghost k: nat)
      requires At(w0, ops, k) && k < |ops| && ops[k] == Aim(us)
      modifies `expectedUs, files`trace
      ensures At(w0, ops, k + 1) && expectedUs == us
    {
      hide Steps, AllPossible;
      StepWorks(w0, ops, k);
      expectedUs := us;
      files.trace := files.trace + [Did(Aim(us))];
    }

    method Trusts(ghost w0: World, ghost ops: seq<Op>, ghost k: nat)
      requires At(w0, ops, k) && k < |ops| && ops[k] == Trust
      modifies `initialized, files`trace
      ensures At(w0, ops, k + 1) && initialized
    {
      hide Steps, AllPossible;
      StepWorks(w0, ops, k);
      initialized := true;
      files.trace := files.trace + [Did(Trust)];
    }

    /** Suppresses the waveform whatever the channel's state; `normal` is what the polarity turned out to be. */
    method EmergencyLow(ghost w0: World, ghost pre: seq<Op>) returns (ok: bool, ghost normal: bool, ghost j: nat)
      requires initialized && At(w0, pre, |pre|)
      modifies `error, `expectedUs, files`trace
      ensures var ops := pre + EmergencyOps(normal);
              if ok then At(w0, ops, |ops|) && error == 0 && expectedUs == 0 else Stuck(w0, ops, j) && error < 0
      ensures !ok ==> j > |pre|
    {
      hide Stuck, At;
      var polarity: Option<Reading> := *;
      normal := match polarity case None => false case Some(reading) => reading == NORMAL;
      ghost var ops, k := pre + EmergencyOps(normal), |pre|;
      SameBeginning(w0, pre, ops, k);
      if polarity == Some(NORMAL) {
        assert ops[k] == Expect(Polarity, NORMAL) && ops[k + 1] == Put(DutyCycle, Decimal(0)) && ops[k + 2] == Aim(0);
        assert ops[k + 3..k + 7] == CheckOps(0);
        Note(true, w0, ops, k);
        ok := Puts(DutyCycle, Decimal(0), w0, ops, k + 1);
        if !ok {
          return false, normal, k + 1;
        }
        Aims(0, w0, ops, k + 2);
        ok, j := Check(w0, ops, k + 3);
      } else {
        assert ops[k] == Differ(Polarity, NORMAL) && ops[k + 1] == Put(Enable, Decimal(0)) && ops[k + 2] == Refuse;
        Note(true, w0, ops, k);
        ok := Puts(Enable, Decimal(0), w0, ops, k + 1);
        j := k + 1;
        if ok {
          j := k + 2;
          Refused(ESTALE, w0, ops, k + 2);
          ok := false;
        }
      }
    }

    /** What has worked so far is the same for any way the operations go on. */
    lemma SameBeginning(w0: World, ops: seq<Op>, longer: seq<Op>, k: nat)
      requires k <= |ops| && k <= |longer| && ops[..k] == longer[..k]
      ensures At(w0, ops, k) ==> At(w0, longer, k)
    {
      StepsAgree(w0, ops, longer, k);
    }

    // ----- initialize ------------------------------------------------------------------------------

    /**
     * Looks for the one controller; false stands for the exception. A chip found earlier makes a second find
     * ambiguous.
     */
    method FindChip(entries: seq<Entry>, suffix: string) returns (ok: bool)
      modifies `chip
      ensures ok ==> forall i :: 0 <= i < |entries| && Candidate(entries[i], suffix) ==> entries[i].compatible.Some?
      ensures ok && old(chip).Some? ==> chip == old(chip) && forall i :: 0 <= i < |entries| ==> !Rp1(entries[i], suffix)
      ensures ok && old(chip).None? ==>
                forall i, j :: 0 <= i < j < |entries| ==> !(Rp1(entries[i], suffix) && Rp1(entries[j], suffix))
      ensures ok && old(chip).None? && chip.None? ==> forall i :: 0 <= i < |entries| ==> !Rp1(entries[i], suffix)
      ensures ok && old(chip).None? && chip.Some? ==> chip.value in entries && Rp1(chip.value, suffix)
      ensures !ok ==> exists i :: 0 <= i < |entries| && Spoils(entries, i, suffix, old(chip).Some?)
    {
      for i := 0 to |entries|
        invariant forall k :: 0 <= k < i && Candidate(entries[k], suffix) ==> entries[k].compatible.Some?
        invariant old(chip).Some? ==> chip == old(chip) && forall k :: 0 <= k < i ==> !Rp1(entries[k], suffix)
        invariant old(chip).None? ==>
                    forall k, l :: 0 <= k < l < i ==> !(Rp1(entries[k], suffix) && Rp1(entries[l], suffix))
        invariant old(chip).None? && chip.None? ==> forall k :: 0 <= k < i ==> !Rp1(entries[k], suffix)
        invariant old(chip).None? && chip.Some? ==> chip.value in entries[..i] && Rp1(chip.value, suffix)
      {
        var e := entries[i];
        if !("pwmchip" <= e.name) || e.node.None? || !EndsWith(e.node.value, suffix) {
          continue;
        }
        if e.compatible.None? {
          assert Spoils(entries, i, suffix, old(chip).Some?);
          return false;
        }
        if "raspberrypi,rp1-pwm" !in e.compatible.value {
          continue;
        }
        if chip.Some? {
          assert Spoils(entries, i, suffix, old(chip).Some?);
          return false;
        }
        chip := Some(e);
      }
      ok := true;
    }

    /** The owner file is a regular file of ours with mode 0600 and says exactly `text`. */
    method MatchesOwner(text: string, ghost w0: World, ghost ops: seq<Op>, ghost k: nat) returns (ok: bool)
      requires Valid() && At(w0, ops, k) && k < |ops| && ops[k] == MatchOwner(text)
      modifies files`trace
      ensures if ok then At(w0, ops, k + 1) else Stuck(w0, ops, k)
    {
      hide Steps, AllPossible;
      var isOurs: bool := *;
      ok := isOurs && files.owner.Some? && Head(files.owner.value.text) == text;
      if ok {
        StepWorks(w0, ops, k);
      }
      files.trace := files.trace + [if ok then Did(ops[k]) else Failed(ops[k])];
    }

    method CreatesPending(ghost w0: World, ghost ops: seq<Op>, ghost k: nat) returns (ok: bool)
      requires At(w0, ops, k) && k < |ops| && ops[k] == MarkPending
      modifies `error, files`pending, files`trace
      ensures if ok then At(w0, ops, k + 1) && files.pending == Some(Unsaved) && error == old(error)
              else Stuck(w0, ops, k) && error < 0
    {
      hide Steps, AllPossible;
      var errno: int :| errno > 0;
      var works: bool := *;
      ok := works && files.pending.None?;
      if ok {
        StepWorks(w0, ops, k);
        files.pending, files.trace := Some(Unsaved), files.trace + [Did(MarkPending)];
      } else {
        error := -errno;
        files.trace := files.trace + [Failed(MarkPending)];
      }
    }

    /** Writes and syncs the marker; a short write or a failed sync is an error. */
    method SavesPending(text: string, ghost w0: World, ghost ops: seq<Op>, ghost k: nat) returns (ok: bool)
      requires At(w0, ops, k) && k < |ops| && ops[k] == SavePending(text) && files.pending.Some?
      modifies `error, files`pending, files`trace
      ensures if ok then At(w0, ops, k + 1) && files.pending == Some(Saved(text)) && error == old(error)
              else Stuck(w0, ops, k) && error == -EIO
    {
      hide Steps, AllPossible;
      ok := *;
      if ok {
        StepWorks(w0, ops, k);
        files.pending, files.trace := Some(Saved(text)), files.trace + [Did(SavePending(text))];
      } else {
        error := -EIO;
        files.pending, files.trace := Some(Unsaved), files.trace + [Failed(SavePending(text))];
      }
    }

    method Exports(ghost w0: World, ghost ops: seq<Op>, ghost k: nat) returns (ok: bool)
      requires At(w0, ops, k) && k < |ops| && ops[k] == Export
      modifies `error, files`trace
      ensures if ok then At(w0, ops, k + 1) && error == 0 else Stuck(w0, ops, k) && error < 0
    {
      var errno: int :| errno >= 0;
      error := -errno;
      ok := error == 0;
      Note(ok, w0, ops, k);
    }

    /** Waits for the exported channel's attributes, up to fifty looks and a last one. */
    method Appears(ghost w0: World, ghost ops: seq<Op>, ghost k: nat) returns (ok: bool)
      requires At(w0, ops, k) && k < |ops| && ops[k] == Appear
      modifies files`trace
      ensures if ok then At(w0, ops, k + 1) else Stuck(w0, ops, k)
    {
      var n := 0;
      var there: bool := *;
      while n < 50 && !there {
        there := *;
        n := n + 1;
      }
      if !there {
        there := *;
      }
      ok := there;
      Note(ok, w0, ops, k);
    }

    /** Gives the pending file its final name, which must not be taken, then drops the old one. */
    method Commits(ghost w0: World, ghost ops: seq<Op>, ghost k: nat) returns (ok: bool, ghost j: nat)
      requires At(w0, ops, k) && k + 1 < |ops| && ops[k] == Link && ops[k + 1] == Unlink
      requires Valid() && files.pending.Some? && files.pending.value.Saved? && error == 0
      modifies `error, files
      ensures Valid()
      ensures if ok then At(w0, ops, k + 2) && error == 0 else Stuck(w0, ops, j) && error < 0
    {
      hide Steps, AllPossible;
      j := k;
      var errno: int :| errno > 0;
      var links: bool := *;
      if !links || files.owner.Some? {
        error := -errno;
        files.trace := files.trace + [Failed(Link)];
        return false, k;
      }
      StepWorks(w0, ops, k);
      files.owner, files.trace := files.pending, files.trace + [Did(Link)];
      var drops: bool := *;
      if !drops {
        error := -errno;
        files.trace := files.trace + [Failed(Unlink)];
        return false, k + 1;
      }
      StepWorks(w0, ops, k + 1);
      files.pending, files.trace := None, files.trace + [Did(Unlink)];
      ok := true;
    }

    // ----- what a whole call amounts to --------------------------------------------------------------

    /** The call `t`, made in `w0`, is over and returned `ok`. */
    ghost predicate Over(w0: World, t: Try, ok: bool)
      reads `initialized, `expectedUs, files
    {
      CanBe(w0, t) && View() == Result(w0, t) && (ok <==> Succeeds(w0, t)) && (ok || t.failed)
    }

    lemma Ends(w0: World, call: Call, ok: bool, j: nat)
      requires if ok then At(w0, Program(w0, call), |Program(w0, call)|) else Stuck(w0, Program(w0, call), j)
      ensures Over(w0, if ok then Try(call, |Program(w0, call)|, false) else Try(call, j, true), ok)
    {
    }

    method Pulse(us: int) returns (ok: bool, ghost t: Try)
      modifies `error, `expectedUs, files`trace
      ensures t.call == Call.WritePulse(us) && Over(old(View()), t, ok)
      ensures ok ==> error == 0 && expectedUs == us
      ensures !ok ==> error < 0
      ensures old(initialized) && Allowed(us) && t.worked >= 3 ==>
                |Added(old(files.trace))| > 3 && Acts.Made(Added(old(files.trace))[3], DutyCycle, Decimal(us * 1000))
    {
      hide At, Stuck, Over;
      ghost var w0, call := View(), Call.WritePulse(us);
      ghost var ops := Program(w0, call);
      ghost var j;
      Starts(w0, ops);
      ok, j := WritePulse(us, w0, ops, 0);
      assert if ok then At(w0, ops, |ops|) else Stuck(w0, ops, j);
      Ends(w0, call, ok, j);
      t := if ok then Try(call, |ops|, false) else Try(call, j, true);
      if old(initialized) && Allowed(us) && t.worked >= 3 {
        Written(w0, t, ok);
      }
    }

    lemma Written(w0: World, t: Try, ok: bool)
      requires Over(w0, t, ok) && t.call.WritePulse? && w0.trusted && Allowed(t.call.us) && t.worked >= 3
      ensures |Added(w0.trace)| > 3 && Acts.Made(Added(w0.trace)[3], DutyCycle, Decimal(t.call.us * 1000))
    {
      hide Program;
      Acts.PulseIsWritten(w0, t);
      assert Added(w0.trace) == Acts.Own(w0, t);
    }

    lemma Starts(w0: World, ops: seq<Op>)
      requires w0 == View()
      ensures At(w0, ops, 0)
    {
    }

    method Low() returns (ok: bool, ghost t: Try)
      modifies `error, `expectedUs, files`trace
      ensures t.call.EmergencyLow? && Over(old(View()), t, ok)
      ensures ok ==> error == 0 && expectedUs == 0
      ensures !ok ==> error < 0
      ensures !old(initialized) ==> error == -ENODEV && t.worked == 0
      ensures old(initialized) ==> exists k, normal :: Acts.Suppresses(Added(old(files.trace)), k, normal)
    {
      hide At, Stuck, Over;
      ghost var w0 := View();
      ghost var normal, j := true, 0;
      if !initialized {
        Starts(w0, [Refuse]);
        Refused(ENODEV, w0, [Refuse], 0);
        ok := false;
      } else {
        Starts(w0, []);
        ok, normal, j := EmergencyLow(w0, []);
        assert [] + EmergencyOps(normal) == EmergencyOps(normal);
      }
      ghost var call := Call.EmergencyLow(normal);
      Ends(w0, call, ok, j);
      t := if ok then Try(call, |Program(w0, call)|, false) else Try(call, j, true);
      if old(initialized) {
        Suppressed(w0, t, ok);
      }
    }

    /** What was done since the trace was `before`. */
    ghost function Added(before: seq<Event>): seq<Event>
      reads files
    {
      if |before| <= |files.trace| then files.trace[|before|..] else []
    }

    lemma Suppressed(w0: World, t: Try, ok: bool)
      requires Over(w0, t, ok)
      requires || (t.call.EmergencyLow? && w0.trusted && t.worked >= 1)
               || (t.call.Initialize? && t.call.existing && t.call.recoveryOnly && t.worked >= 3)
      ensures exists k, normal :: Acts.Suppresses(Added(w0.trace), k, normal)
    {
      hide Program, Acts.Suppresses;
      var k, normal := Acts.EmergencySuppresses(w0, t);
      assert Added(w0.trace) == Acts.Own(w0, t);
    }

    method Verify() returns (ok: bool, ghost t: Try)
      modifies `error, `expectedUs, files`trace
      ensures t.call == Call.Check && Over(old(View()), t, ok)
      ensures expectedUs == old(expectedUs)
      ensures ok ==> error == 0
      ensures !ok ==> error < 0
    {
      hide At, Stuck, Over;
      ghost var w0 := View();
      ghost var ops := Program(w0, Call.Check);
      ghost var j;
      Starts(w0, ops);
      ok, j := Check(w0, ops, 0);
      Ends(w0, Call.Check, ok, j);
      t := if ok then Try(Call.Check, |ops|, false) else Try(Call.Check, j, true);
    }

    /** The channel is exported already: only our own marker makes it ours. */
    method TakeOver(text: string, recoveryOnly: bool) returns (ok: bool, ghost t: Try)
      requires Valid()
      modifies `error, `initialized, `expectedUs, files`trace
      ensures t.call.Initialize? && t.call.text == text && t.call.existing && t.call.recoveryOnly == recoveryOnly
      ensures Over(old(View()), t, ok)
      ensures if ok then error == 0 && initialized && expectedUs == 0 else error < 0
      ensures recoveryOnly && t.worked > 0 ==> exists k, normal :: Acts.Suppresses(Added(old(files.trace)), k, normal)
    {
      hide At, Stuck, Over;
      ghost var w0 := View();
      ghost var normal, j := true, 0;
      if recoveryOnly {
        ghost var pre := [MatchOwner(text), Trust];
        Starts(w0, pre);
        ok := MatchesOwner(text, w0, pre, 0);
        if ok {
          Trusts(w0, pre, 1);
          ok, normal, j := EmergencyLow(w0, pre);
        } else {
          error := -EINVAL;
          StuckAlike(w0, pre, pre + EmergencyOps(normal), 0);
        }
      } else {
        ok, j := TakeOverFully(text, w0);
      }
      ghost var call := Call.Initialize(text, true, recoveryOnly, normal);
      Ends(w0, call, ok, j);
      t := if ok then Try(call, |Program(w0, call)|, false) else Try(call, j, true);
      if recoveryOnly && t.worked > 0 {
        Suppressed(w0, t, ok);
      }
    }

    lemma StuckAlike(w0: World, ops: seq<Op>, longer: seq<Op>, k: nat)
      requires k < |ops| && k < |longer| && ops[..k + 1] == longer[..k + 1]
      ensures Stuck(w0, ops, k) ==> Stuck(w0, longer, k)
    {
      assert ops[..k] == ops[..k + 1][..k] && longer[..k] == longer[..k + 1][..k];
      assert ops[k] == ops[..k + 1][k] && longer[k] == longer[..k + 1][k];
      StepsAgree(w0, ops, longer, k);
    }

    method TakeOverFully(text: string, ghost w0: World) returns (ok: bool, ghost j: nat)
      requires Valid() && w0 == View()
      modifies `error, `initialized, `expectedUs, files`trace
      ensures var ops := ExistingOps(text);
              if ok then At(w0, ops, |ops|) && error == 0 && initialized && expectedUs == 0
              else Stuck(w0, ops, j) && error < 0
    {
      hide At, Stuck, ExistingOps, PulseOps;
      ghost var ops := ExistingOps(text);
      ExistingParts(text);
      Starts(w0, ops);
      j := 0;
      ok := MatchesOwner(text, w0, ops, 0);
      if ok {
        j := 1;
        var answer := Reads(Polarity, NORMAL, w0, ops, 1);
        if answer == Same {
          j := 2;
          answer := Reads(Period, Decimal(PERIOD_NS), w0, ops, 2);
        }
        if answer == Same {
          j := 3;
          answer := Reads(Enable, Decimal(1), w0, ops, 3);
        }
        ok := answer == Same;
      }
      if !ok {
        error := -EINVAL;
        return;
      }
      j := 4;
      ok := Puts(DutyCycle, Decimal(0), w0, ops, 4);
      if !ok {
        return;
      }
      Trusts(w0, ops, 5);
      ok, j := WritePulse(0, w0, ops, 6);
    }

    /** Nothing is exported yet: export it, prove it low, and only then commit. */
    method StartFresh(text: string, recoveryOnly: bool) returns (ok: bool, ghost t: Try)
      requires Valid()
      modifies `error, `initialized, `expectedUs, files
      ensures Valid()
      ensures t.call.Initialize? && t.call.text == text && !t.call.existing && t.call.recoveryOnly == recoveryOnly
      ensures Over(old(View()), t, ok)
      ensures if ok then error == 0 && initialized && expectedUs == 0 else error < 0
    {
      hide At, Stuck, Over, FreshOps;
      ghost var w0 := View();
      ghost var call := Call.Initialize(text, false, recoveryOnly, true);
      ghost var ops, j := Program(w0, call), 0;
      FreshParts(text);
      Starts(w0, ops);
      ok := NoOwnerThere(w0, ops, 0);
      if !ok {
        error := -EINVAL;
      } else if recoveryOnly {
        j := 1;
        Refused(EINVAL, w0, ops, 1);
        ok := false;
      } else {
        ok, j := MarkAndExport(text, w0);
        if ok {
          ok, j := SetUp(text, w0);
        }
        if ok {
          ok, j := Commits(w0, ops, 21);
        }
      }
      Ends(w0, call, ok, j);
      t := if ok then Try(call, |ops|, false) else Try(call, j, true);
    }

    method NoOwnerThere(ghost w0: World, ghost ops: seq<Op>, ghost k: nat) returns (ok: bool)
      requires At(w0, ops, k) && k < |ops| && ops[k] == NoOwner
      modifies files`trace
      ensures if ok then At(w0, ops, k + 1) else Stuck(w0, ops, k)
    {
      hide Steps, AllPossible;
      var looked: bool := *;
      ok := looked && files.owner.None?;
      if ok {
        StepWorks(w0, ops, k);
      }
      files.trace := files.trace + [if ok then Did(NoOwner) else Failed(NoOwner)];
    }

    method MarkAndExport(text: string, ghost w0: World) returns (ok: bool, ghost j: nat)
      requires At(w0, FreshOps(text), 1)
      modifies `error, files`pending, files`trace
      ensures if ok then At(w0, FreshOps(text), 5) && files.pending == Some(Saved(text))
              else Stuck(w0, FreshOps(text), j) && error < 0
    {
      hide At, Stuck, FreshOps;
      ghost var ops := FreshOps(text);
      FreshParts(text);
      j := 1;
      ok := CreatesPending(w0, ops, 1);
      if ok {
        j := 2;
        ok := SavesPending(text, w0, ops, 2);
      }
      if ok {
        j := 3;
        ok := Exports(w0, ops, 3);
      }
      if ok {
        j := 4;
        ok := Appears(w0, ops, 4);
        if !ok {
          error := -EINVAL;
        }
      }
    }

    /** A fresh export is disabled with zero duty; anything else is refused before it is touched. */
    method SetUp(text: string, ghost w0: World) returns (ok: bool, ghost j: nat)
      requires At(w0, FreshOps(text), 5)
      modifies `error, `initialized, `expectedUs, files`trace
      ensures if ok then At(w0, FreshOps(text), 21) && error == 0 && initialized && expectedUs == 0
              else Stuck(w0, FreshOps(text), j) && error < 0
    {
      hide At, Stuck, FreshOps, PulseOps;
      ghost var ops := FreshOps(text);
      FreshParts(text);
      j := 5;
      var answer := Reads(Enable, Decimal(0), w0, ops, 5);
      if answer == Same {
        j := 6;
        answer := Reads(DutyCycle, Decimal(0), w0, ops, 6);
      }
      ok := answer == Same;
      if !ok {
        error := -EINVAL;
        return;
      }
      j := 7;
      ok := Puts(Period, Decimal(PERIOD_NS), w0, ops, 7);
      if ok {
        j := 8;
        ok := Puts(DutyCycle, Decimal(0), w0, ops, 8);
      }
      if ok {
        j := 9;
        ok := Puts(Polarity, NORMAL, w0, ops, 9);
      }
      if ok {
        j := 10;
        ok := Puts(Enable, Decimal(1), w0, ops, 10);
      }
      if !ok {
        return;
      }
      Trusts(w0, ops, 11);
      ok, j := WritePulse(0, w0, ops, 12);
    }

    /** The settings other than the supported ones, no usable controller, or no boot id. */
    method NotUsable() returns (ok: bool, ghost t: Try)
      modifies `error, files`trace
      ensures !ok && t.call == NoChip && Over(old(View()), t, ok) && error == -EINVAL
    {
      hide At, Stuck, Over;
      ghost var w0 := View();
      Starts(w0, [Refuse]);
      Refused(EINVAL, w0, [Refuse], 0);
      ok := false;
      Ends(w0, NoChip, ok, 0);
      t := Try(NoChip, 0, true);
    }

    /**
     * Every start is one of the model's calls, carried out to its end: it returns true exactly if all
     * of its operations worked, `error` is zero exactly then, and an unusable configuration touches nothing.
     */
    method Initialize(recoveryOnly: bool, config: Config, entries: seq<Entry>, npwm: Option<int>,
                      bootId: Option<string>)
      returns (ok: bool, ghost t: Try)
      requires Valid()
      modifies this, files
      ensures Valid()
      ensures Over(old(View()), t, ok)
      ensures if ok then error == 0 && initialized && expectedUs == 0 else error < 0
      ensures t.call == NoChip || t.call.Initialize?
      ensures t.call.Initialize? ==>
                && config == Config(1, PERIOD_NS, SUFFIX) && bootId.Some?
                && chip.Some? && chip.value.node.Some?
                && t.call.text == OwnerText(chip.value.node.value, bootId.value) && t.call.recoveryOnly == recoveryOnly
      ensures t.call.Initialize? && t.call.existing && recoveryOnly && t.worked > 0 ==>
                exists k, normal :: Acts.Suppresses(Added(old(files.trace)), k, normal)
      ensures t.call == NoChip ==> files.owner == old(files.owner) && files.pending == old(files.pending)
    {
      hide At, Stuck, Over, Program;
      if config.channel != 1 || config.periodNs != PERIOD_NS || config.ofNodeSuffix != SUFFIX {
        ok, t := NotUsable();
        return;
      }
      var found := FindChip(entries, config.ofNodeSuffix);
      if !found || chip.None? || npwm.None? || npwm.value <= config.channel || chip.value.node.None? || bootId.None? {
        ok, t := NotUsable();
        return;
      }
      var existing: bool := *;
      var text := OwnerText(chip.value.node.value, bootId.value);
      if existing {
        ok, t := TakeOver(text, recoveryOnly);
      } else {
        ok, t := StartFresh(text, recoveryOnly);
      }
    }
  }

  lemma ExistingParts(text: string)
    ensures var ops := ExistingOps(text);
            && |ops| == 15 && ops[0] == MatchOwner(text) && ops[1] == Expect(Polarity, NORMAL)
            && ops[2] == Expect(Period, Decimal(PERIOD_NS)) && ops[3] == Expect(Enable, Decimal(1))
            && ops[4] == Put(DutyCycle, Decimal(0)) && ops[5] == Trust && ops[6..15] == PulseOps(0)
  {
  }

  lemma FreshParts(text: string)
    ensures var ops := FreshOps(text);
            && |ops| == 23
            && ops[0] == NoOwner && ops[1] == MarkPending && ops[2] == SavePending(text) && ops[3] == Export
            && ops[4] == Appear && ops[5] == Expect(Enable, Decimal(0)) && ops[6] == Expect(DutyCycle, Decimal(0))
            && ops[7] == Put(Period, Decimal(PERIOD_NS)) && ops[8] == Put(DutyCycle, Decimal(0))
            && ops[9] == Put(Polarity, NORMAL) && ops[10] == Put(Enable, Decimal(1)) && ops[11] == Trust
            && ops[12..21] == PulseOps(0) && ops[21] == Link && ops[22] == Unlink
  {
  }
}
