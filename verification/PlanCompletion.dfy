/** A run that ends as completed has done its whole plan, in order and for the stated times. */
module PlanCompletion {
  import opened PlanRunner
  import opened PlanLaws

  /** Something published, and the clock reading of the call that published it. */
  datatype Pub = Pub(at: real, out: Out)

  /**
   * A run's record: all that was published, and for the plan in hand where in it the run began, where
   * each step was first published, and when the run started.
   */
  datatype Record = Record(r: Runner, log: seq<Pub>, mark: nat, cuts: seq<nat>, startedAt: real)

  const EMPTY := Record(START, [], 0, [], 0.0)

  function Stamped(outs: seq<Out>, at: real): seq<Pub> {
    seq(|outs|, i requires 0 <= i < |outs| => Pub(at, outs[i]))
  }

  function Extend(h: Record, c: Call): Record
    requires Placed(h.r)
  {
    var e := Apply(h.r, c);
    var log := h.log + Stamped(e.outs, c.at);
    if h.r.plan == [] && e.after.plan != [] then Record(e.after, log, |log|, [], if c.Ask? then c.at2 else c.at)
    else if h.r.plan != [] && e.after.index > h.r.index
    then Record(e.after, log, h.mark, h.cuts + [|h.log|], h.startedAt)
    else h.(r := e.after, log := log)
  }

  function Recorded(calls: seq<Call>): (h: Record)
    ensures h.r == Run(calls)
    decreases |calls|
  {
    if calls == [] then EMPTY else Extend(Recorded(calls[..|calls| - 1]), calls[|calls| - 1])
  }

  /** Only zero commands with the gates held open. */
  ghost predicate Arming(log: seq<Pub>, from: nat, to: nat) {
    from <= to <= |log| && forall i :: from <= i < to ==> log[i].out == Drive(0.0, 0.0, true)
  }

  /** The step's own command and nothing else, repeated only until its time is up. */
  ghost predicate Held(log: seq<Pub>, from: nat, to: nat, s: Step) {
    && from < to <= |log|
    && (forall i :: from <= i < to ==> log[i].out == Drive(s.v, s.w, true))
    && (forall i :: from < i < to ==> log[i].at < log[from].at + s.seconds)
  }

  /** Step `k` began, was held, and gave way to whatever came at the next cut only when its time was up. */
  ghost predicate Done(log: seq<Pub>, cuts: seq<nat>, k: nat, s: Step) {
    && k + 1 < |cuts| && cuts[k + 1] < |log|
    && Held(log, cuts[k], cuts[k + 1], s)
    && log[cuts[k + 1]].at >= log[cuts[k]].at + s.seconds
  }

  /** The first `m` steps of the plan are done. */
  ghost predicate AllDone(log: seq<Pub>, cuts: seq<nat>, m: int, plan: seq<Step>) {
    m <= |plan| && forall k :: 0 <= k < m ==> Done(log, cuts, k, plan[k])
  }

  /** The run opened with at least 0.4 s of zero commands. */
  ghost predicate Opened(log: seq<Pub>, mark: nat, first: nat, startedAt: real) {
    Arming(log, mark, first) && first < |log| && log[first].at >= startedAt + 0.4
  }

  /** What has been published for the plan in hand. */
  ghost predicate OnPlan(h: Record)
    requires Placed(h.r) && h.r.plan != []
  {
    var n := h.r.index;
    && |h.cuts| == n + 1
    && if n == -1 then Arming(h.log, h.mark, |h.log|) && h.r.deadline == h.startedAt + 0.4
       else && Opened(h.log, h.mark, h.cuts[0], h.startedAt)
            && AllDone(h.log, h.cuts, n, h.r.plan)
            && Held(h.log, h.cuts[n], |h.log|, h.r.plan[n])
            && h.r.deadline == h.log[h.cuts[n]].at + h.r.plan[n].seconds
  }

  /** The whole plan: every step in order and none skipped, then the stop. */
  ghost predicate Performed(log: seq<Pub>, mark: nat, cuts: seq<nat>, startedAt: real, plan: seq<Step>) {
    && |cuts| == |plan| + 1
    && Opened(log, mark, cuts[0], startedAt)
    && AllDone(log, cuts, |plan|, plan)
    && cuts[|plan|] == |log| - 1 && log[|log| - 1].out == HALT
  }

  // ----- one call ----------------------------------------------------------------------------------

  lemma AllDoneGrows(log: seq<Pub>, more: seq<Pub>, cuts: seq<nat>, cut: nat, m: int, plan: seq<Step>)
    requires AllDone(log, cuts, m, plan)
    ensures AllDone(log + more, cuts, m, plan) && AllDone(log + more, cuts + [cut], m, plan)
  {
    var log', cuts' := log + more, cuts + [cut];
    forall k | 0 <= k < m ensures Done(log', cuts, k, plan[k]) && Done(log', cuts', k, plan[k]) {
      assert Done(log, cuts, k, plan[k]);
    }
  }

  lemma OpenedGrows(log: seq<Pub>, more: seq<Pub>, mark: nat, first: nat, startedAt: real)
    requires Opened(log, mark, first, startedAt)
    ensures Opened(log + more, mark, first, startedAt)
  {
  }

  /** The step in progress goes on, or gives way at its time. */
  lemma HeldGrows(log: seq<Pub>, from: nat, s: Step, next: Pub)
    requires Held(log, from, |log|, s)
    ensures Held(log + [next], from, |log|, s)
    ensures next.out == Drive(s.v, s.w, true) && next.at < log[from].at + s.seconds ==>
              Held(log + [next], from, |log| + 1, s)
  {
  }

  /** What a call does while a plan is in hand and stays in hand, or is completed. */
  lemma CallOnPlan(r: Runner, c: Call)
    requires Inv(r) && r.plan != []
    ensures var e := Apply(r, c);
            e.after.plan != [] ==>
              && e.after.plan == r.plan
              && (e.after.index == r.index || e.after.index == r.index + 1 < |r.plan|)
              && (e.after.index == r.index ==>
                    && e.after.deadline == r.deadline
                    && (e.outs == [] || (c.at < r.deadline && e.outs == [Showing(r)])))
              && (e.after.index > r.index ==>
                    && c.at >= r.deadline && e.outs == [Showing(e.after)]
                    && e.after.deadline == c.at + r.plan[e.after.index].seconds)
    ensures var e := Apply(r, c);
            e.after.reason == Completed ==>
              e.after.plan == [] && r.index == |r.plan| - 1 && e.after.index == |r.plan|
              && c.at >= r.deadline && e.outs == [HALT]
  {
    hide CheckPlan, Acceptable, Bounded, WellFormed, Centred;
  }

  function Showing(r: Runner): Out
    requires Placed(r) && r.plan != []
  {
    if r.index == -1 then Drive(0.0, 0.0, true) else Drive(r.plan[r.index].v, r.plan[r.index].w, true)
  }

  lemma NewPlan(r: Runner, c: Call)
    requires Inv(r) && r.plan == [] && Apply(r, c).after.plan != []
    ensures Apply(r, c).after.index == -1 && Apply(r, c).outs == []
    ensures c.Ask? && Apply(r, c).after.deadline == c.at2 + 0.4
  {
    hide CheckPlan, Acceptable, Bounded, WellFormed, Centred;
  }

  lemma ExtendKeeps(h: Record, c: Call)
    requires Inv(h.r) && (h.r.plan != [] ==> OnPlan(h))
    ensures Placed(Extend(h, c).r)
    ensures Extend(h, c).r.plan != [] ==> OnPlan(Extend(h, c))
  {
    hide Apply, Bounded;
    StepKeeps(h.r, c);
    if Extend(h, c).r.plan != [] {
      if h.r.plan == [] {
        NewPlan(h.r, c);
      } else {
        GoesOn(h, c);
      }
    }
  }

  lemma GoesOn(h: Record, c: Call)
    requires Inv(h.r) && h.r.plan != [] && OnPlan(h)
    requires Placed(Apply(h.r, c).after) && Apply(h.r, c).after.plan != []
    ensures OnPlan(Extend(h, c))
  {
    hide Apply, Inv, AllDone, Held, Opened, Bounded;
    CallOnPlan(h.r, c);
    var h', e, n := Extend(h, c), Apply(h.r, c), h.r.index;
    var plan := h.r.plan;
    if e.outs == [] {
      assert h'.log == h.log;
    } else {
      var next := Pub(c.at, e.outs[0]);
      assert h'.log == h.log + [next];
      if n >= 0 {
        OpenedGrows(h.log, [next], h.mark, h.cuts[0], h.startedAt);
        AllDoneGrows(h.log, [next], h.cuts, |h.log|, n, plan);
        HeldGrows(h.log, h.cuts[n], plan[n], next);
      }
      if e.after.index > n {
        NextBegins(h, next);
      }
    }
  }

  /** The step in progress is done when its time is up, and the next publication opens the next cut. */
  lemma NextBegins(h: Record, next: Pub)
    requires Placed(h.r) && h.r.plan != [] && OnPlan(h) && next.at >= h.r.deadline
    ensures var log', cuts' := h.log + [next], h.cuts + [|h.log|];
            && Opened(log', h.mark, cuts'[0], h.startedAt)
            && AllDone(log', cuts', h.r.index + 1, h.r.plan)
            && forall s: Step :: next.out == Drive(s.v, s.w, true) ==> Held(log', |h.log|, |log'|, s)
  {
    var log', cuts', n := h.log + [next], h.cuts + [|h.log|], h.r.index;
    if n >= 0 {
      AllDoneGrows(h.log, [next], h.cuts, |h.log|, n, h.r.plan);
      assert Done(log', cuts', n, h.r.plan[n]);
    }
  }

  lemma {:induction false} RecordIsOnPlan(calls: seq<Call>)
    ensures Recorded(calls).r.plan != [] ==> OnPlan(Recorded(calls))
    decreases |calls|
  {
    if calls != [] {
      RecordIsOnPlan(calls[..|calls| - 1]);
      ExtendKeeps(Recorded(calls[..|calls| - 1]), calls[|calls| - 1]);
    }
  }

  /**
   * Whatever calls came before: if this call ends the plan in hand as completed, then since the run
   * started nothing was published but at least 0.4 s of zero commands, then every step of the plan in
   * order, each for at least its stated time and never again after it, then the stop.
   */
  lemma CompletedMeansPerformed(calls: seq<Call>, c: Call)
    requires Run(calls).plan != [] && Apply(Run(calls), c).after.reason == Completed
    ensures var h := Extend(Recorded(calls), c);
            Performed(h.log, h.mark, h.cuts, h.startedAt, Run(calls).plan)
  {
    hide Apply, Inv, AllDone, Opened, Held, Bounded;
    var h := Recorded(calls);
    RecordIsOnPlan(calls);
    CallOnPlan(h.r, c);
    NextBegins(h, Pub(c.at, HALT));
    assert Extend(h, c).log == h.log + [Pub(c.at, HALT)];
  }
}
