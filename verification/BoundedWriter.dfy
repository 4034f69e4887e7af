/**
 * Admission to the writer's executor: at most `limit` items are held at once. Submitters and
 * workers run concurrently; only the two short sections under the lock touch the count. A run is
 * any interleaving of the atomic steps below.
 */
module BoundedWriter {
  import opened Common

  /** How far an item has come. */
  datatype Phase =
    | Denied                   // there was no room
    | Admitted                 // counted, not yet handed to the executor
    | Waiting                  // in the executor's queue
    | Running
    | Finished(raised: bool)   // the work is over, the place not yet freed
    | Refusing                 // the executor refused it, the place not yet freed
    | Freed(refused: bool)

  predicate Holds(p: Phase) {
    p.Admitted? || p.Waiting? || p.Running? || p.Finished? || p.Refusing?
  }

  datatype Writer = Writer(limit: int, admitted: int, items: map<int, Phase>, releases: map<int, nat>)

  datatype Step =
    | Submit(item: int)                     // the locked section of submit
    | Hand(item: int, accepted: bool)       // executor.submit returns or raises
    | Start(item: int)
    | Finish(item: int, raised: bool)
    | Release(item: int)                    // the locked section of _release

  predicate In(w: Writer, item: int, phase: Phase) {
    item in w.items && w.items[item] == phase
  }

  /** A step that is not possible now changes nothing. */
  function Take(w: Writer, s: Step): Writer {
    match s
    case Submit(i) =>
      if i in w.items then w
      else if w.admitted >= w.limit then w.(items := w.items[i := Denied])
      else w.(admitted := w.admitted + 1, items := w.items[i := Admitted])
    case Hand(i, accepted) =>
      if In(w, i, Admitted) then w.(items := w.items[i := if accepted then Waiting else Refusing]) else w
    case Start(i) =>
      if In(w, i, Waiting) then w.(items := w.items[i := Running]) else w
    case Finish(i, raised) =>
      if In(w, i, Running) then w.(items := w.items[i := Finished(raised)]) else w
    case Release(i) =>
      if i in w.items && (w.items[i].Finished? || w.items[i].Refusing?)
      then w.(admitted := w.admitted - 1, items := w.items[i := Freed(w.items[i].Refusing?)],
              releases := w.releases[i := Releases(w, i) + 1])
      else w
  }

  function Releases(w: Writer, item: int): nat {
    if item in w.releases then w.releases[item] else 0
  }

  function Run(w: Writer, steps: seq<Step>): Writer
    decreases |steps|
  {
    if steps == [] then w else Take(Run(w, steps[..|steps| - 1]), steps[|steps| - 1])
  }

  function New(limit: int): Writer {
    Writer(limit, 0, map[], map[])
  }

  ghost function Holding(w: Writer): set<int> {
    set i | i in w.items && Holds(w.items[i])
  }

  predicate HoldsItem(w: Writer, item: int) {
    item in w.items && Holds(w.items[item])
  }

  /** Each freed item gave its place back once, no other item did. */
  ghost predicate FreedOnce(w: Writer) {
    forall i :: Releases(w, i) == (if i in w.items && w.items[i].Freed? then 1 else 0)
  }

  /** The count is the number of items held, never more than the limit. */
  ghost predicate Inv(w: Writer) {
    && w.admitted == |Holding(w)|
    && (w.admitted <= w.limit || w.admitted == 0)
    && FreedOnce(w)
  }

  /** A step concerns one item, and moves the count exactly as it moves that item. */
  lemma OneItem(w: Writer, s: Step)
    ensures forall k :: k != s.item ==> HoldsItem(Take(w, s), k) == HoldsItem(w, k)
    ensures Take(w, s).admitted == w.admitted
            + (if HoldsItem(Take(w, s), s.item) then 1 else 0) - (if HoldsItem(w, s.item) then 1 else 0)
    ensures Take(w, s).limit == w.limit
    ensures Take(w, s).admitted <= w.admitted || Take(w, s).admitted <= w.limit
  {
  }

  lemma WithoutOne(s: set<int>, i: int)
    ensures |s| == |s - {i}| + (if i in s then 1 else 0)
  {
    if i in s {
      assert s == (s - {i}) + {i};
    } else {
      assert s == s - {i};
    }
  }

  lemma CountMoves(w: Writer, w': Writer, i: int)
    requires forall k :: k != i ==> HoldsItem(w', k) == HoldsItem(w, k)
    ensures |Holding(w')| == |Holding(w)| + (if HoldsItem(w', i) then 1 else 0) - (if HoldsItem(w, i) then 1 else 0)
  {
    assert forall k :: k in Holding(w) <==> HoldsItem(w, k);
    assert forall k :: k in Holding(w') <==> HoldsItem(w', k);
    var others := Holding(w) - {i};
    forall k ensures k in Holding(w') - {i} <==> k in others {
      assert k != i ==> HoldsItem(w', k) == HoldsItem(w, k);
    }
    assert Holding(w') - {i} == others;
    WithoutOne(Holding(w), i);
    WithoutOne(Holding(w'), i);
  }

  lemma FreeingKeeps(w: Writer, s: Step)
    requires FreedOnce(w)
    ensures FreedOnce(Take(w, s))
  {
    var w' := Take(w, s);
    forall i ensures Releases(w', i) == (if i in w'.items && w'.items[i].Freed? then 1 else 0) {
      assert Releases(w, i) == (if i in w.items && w.items[i].Freed? then 1 else 0);
    }
  }

  lemma StepKeeps(w: Writer, s: Step)
    requires Inv(w)
    ensures Inv(Take(w, s)) && Take(w, s).limit == w.limit
  {
    hide Take, FreedOnce, HoldsItem, Holding;
    OneItem(w, s);
    CountMoves(w, Take(w, s), s.item);
    FreeingKeeps(w, s);
  }

  /**
   * Under every interleaving the count equals the items admitted and not yet freed, never exceeds
   * the limit, and every item that was admitted and is over, whether it returned, raised or was
   * refused by the executor, freed its place exactly once.
   */
  lemma {:induction false} EveryInterleaving(limit: int, steps: seq<Step>)
    ensures Inv(Run(New(limit), steps)) && Run(New(limit), steps).limit == limit
    decreases |steps|
  {
    if steps == [] {
      assert Holding(New(limit)) == {};
    } else {
      EveryInterleaving(limit, steps[..|steps| - 1]);
      StepKeeps(Run(New(limit), steps[..|steps| - 1]), steps[|steps| - 1]);
    }
  }

  /** A decision on an item is never taken back: denied stays denied, freed stays freed. */
  lemma OverIsOver(w: Writer, s: Step, i: int)
    requires i in w.items && !Holds(w.items[i])
    ensures i in Take(w, s).items && Take(w, s).items[i] == w.items[i]
  {
  }

  /** There is room again whenever nothing is held, and a submission is denied only when it is full. */
  lemma DeniedOnlyWhenFull(w: Writer, i: int)
    requires Inv(w) && i !in w.items && w.limit > 0
    ensures In(Take(w, Submit(i)), i, Denied) <==> |Holding(w)| == w.limit
    ensures !In(Take(w, Submit(i)), i, Denied) ==> In(Take(w, Submit(i)), i, Admitted)
  {
  }

  // ----- no place is lost ------------------------------------------------------------------------

  function StepsLeft(p: Phase): nat {
    match p
    case Admitted => 4
    case Waiting => 3
    case Running => 2
    case Finished(_) => 1
    case Refusing => 1
    case _ => 0
  }

  function NextOf(i: int, p: Phase): Step {
    match p
    case Admitted => Hand(i, true)
    case Waiting => Start(i)
    case Running => Finish(i, true)
    case _ => Release(i)
  }

  /** A held item always has a step that brings it nearer to freeing its place. */
  lemma HeldItemsMove(w: Writer, i: int)
    requires i in w.items && Holds(w.items[i])
    ensures var w' := Take(w, NextOf(i, w.items[i]));
            && w'.items.Keys == w.items.Keys
            && StepsLeft(w'.items[i]) == StepsLeft(w.items[i]) - 1
            && forall k :: k in w.items && k != i ==> w'.items[k] == w.items[k]
  {
  }

  lemma {:induction false} RunAppend(w: Writer, a: seq<Step>, b: seq<Step>)
    ensures Run(w, a + b) == Run(Run(w, a), b)
    decreases |b|
  {
    if b == [] {
      assert a + b == a;
    } else {
      assert (a + b)[..|a + b| - 1] == a + b[..|b| - 1];
      RunAppend(w, a, b[..|b| - 1]);
    }
  }

  /** Once an item is held, its remaining steps free its place and leave every other item alone. */
  lemma {:induction false} ItemCanFinish(w: Writer, i: int) returns (steps: seq<Step>)
    requires i in w.items && Holds(w.items[i])
    ensures var w' := Run(w, steps);
            && w'.items.Keys == w.items.Keys && w'.items[i].Freed?
            && forall k :: k in w.items && k != i ==> w'.items[k] == w.items[k]
    decreases StepsLeft(w.items[i])
  {
    var s := NextOf(i, w.items[i]);
    var w1 := Take(w, s);
    HeldItemsMove(w, i);
    assert Run(w, [s]) == w1 by { assert [s][..0] == []; }
    if Holds(w1.items[i]) {
      var rest := ItemCanFinish(w1, i);
      RunAppend(w, [s], rest);
      steps := [s] + rest;
    } else {
      steps := [s];
    }
  }

  /** From every reachable state some interleaving frees every place. */
  lemma {:induction false} BacklogCanDrain(w: Writer) returns (steps: seq<Step>)
    requires Inv(w)
    ensures Run(w, steps).admitted == 0 && Inv(Run(w, steps))
    decreases |Holding(w)|
  {
    if Holding(w) == {} {
      steps := [];
    } else {
      SomeMember(Holding(w));
      var i :| i in Holding(w);
      var first := ItemCanFinish(w, i);
      var w1 := Run(w, first);
      RunKeeps(w, first);
      forall k ensures k in Holding(w1) <==> k in Holding(w) - {i} {
        assert k in w.items && k != i ==> w1.items[k] == w.items[k];
      }
      assert Holding(w1) == Holding(w) - {i};
      var rest := BacklogCanDrain(w1);
      RunAppend(w, first, rest);
      steps := first + rest;
    }
  }

  lemma {:induction false} RunKeeps(w: Writer, steps: seq<Step>)
    requires Inv(w)
    ensures Inv(Run(w, steps)) && Run(w, steps).limit == w.limit
    decreases |steps|
  {
    if steps != [] {
      RunKeeps(w, steps[..|steps| - 1]);
      StepKeeps(Run(w, steps[..|steps| - 1]), steps[|steps| - 1]);
    }
  }

  // ----- the two locked sections -------------------------------------------------------------------

  class BoundedWriter {
    const limit: int
    var admitted: int
    ghost var writer: Writer

    ghost predicate Valid()
      reads this
    {
      writer.limit == limit && writer.admitted == admitted && Inv(writer)
    }

    constructor (limit: int)
      ensures Valid() && this.limit == limit && writer == New(limit)
    {
      this.limit := limit;
      admitted := 0;
      writer := New(limit);
      assert Holding(New(limit)) == {};
    }

    /** The first locked section of `submit`. */
    method TryAdmit(ghost item: int) returns (room: bool)
      requires Valid() && item !in writer.items
      modifies this
      ensures Valid() && writer == Take(old(writer), Step.Submit(item))
      ensures room == In(writer, item, Admitted)
    {
      StepKeeps(writer, Step.Submit(item));
      writer := Take(writer, Step.Submit(item));
      if admitted >= limit {
        return false;
      }
      admitted := admitted + 1;
      room := true;
    }

    /** `_release`, called once the work is over or the executor has refused the item. */
    method Free(ghost item: int)
      requires Valid() && item in writer.items && (writer.items[item].Finished? || writer.items[item].Refusing?)
      modifies this
      ensures Valid() && writer == Take(old(writer), Release(item))
    {
      StepKeeps(writer, Release(item));
      writer := Take(writer, Release(item));
      admitted := admitted - 1;
    }

    /** Any step of the others between the two sections; it never touches the count. */
    ghost method Elsewhere(s: Step)
      requires Valid() && !s.Submit? && !s.Release?
      modifies this
      ensures Valid() && writer == Take(old(writer), s) && admitted == old(admitted)
    {
      StepKeeps(writer, s);
      writer := Take(writer, s);
    }

    /** `submit` with nobody in between: what it returns is whether the executor took the item. */
    method Submit(ghost item: int) returns (ok: bool)
      requires Valid() && item !in writer.items
      modifies this
      ensures Valid()
      ensures ok ==> In(writer, item, Waiting) && admitted == old(admitted) + 1
      ensures !ok ==> (In(writer, item, Denied) || In(writer, item, Freed(true))) && admitted == old(admitted)
    {
      var room := TryAdmit(item);
      if !room {
        return false;
      }
      var accepted := *;
      Elsewhere(Hand(item, accepted));
      if !accepted {
        Free(item);
        return false;
      }
      ok := true;
    }

    /** `_run` on a worker: the work returns or raises, and the place is freed either way. */
    method RunItem(ghost item: int)
      requires Valid() && In(writer, item, Waiting)
      modifies this
      ensures Valid() && In(writer, item, Freed(false)) && admitted == old(admitted) - 1
    {
      Elsewhere(Start(item));
      var raised := *;
      Elsewhere(Finish(item, raised));
      Free(item);
    }
  }
}
