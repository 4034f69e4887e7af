/**
 * The record files on the robot: how a save finds a name and makes room within the quota and the
 * free space to be left on the disk.
 */
module RecordStore {
  import opened Common

  const MAX_SAVE_BYTES: nat := 8 * 1024 * 1024
  const META_RESERVE: nat := 2048

  datatype Source = Lab | Auto | RosbagCache

  /** What the index file says of a record; times are ordered as their ISO texts are. */
  datatype Index = Index(source: Source, recordedAt: int)

  /** A record file: its size, its index file if there is one, and what reading the record itself gives. */
  datatype File = File(id: string, size: nat, metaSize: nat, index: Option<Index>, body: Option<int>)

  type Directory = seq<File>

  /** What the listing says of a record. */
  datatype Entry = Entry(id: string, source: Source, recordedAt: int)

  datatype SaveError = NoStore | BadRecording | TooBig | Full | WriteFailed

  // ----- the directory --------------------------------------------------------------------------

  predicate Has(dir: Directory, id: string) {
    exists f :: f in dir && f.id == id
  }

  predicate UniqueIds(dir: Directory) {
    forall i, j :: 0 <= i < j < |dir| ==> dir[i].id != dir[j].id
  }

  function Bytes(f: File): nat {
    f.size + f.metaSize
  }

  function UsedBytes(dir: Directory): nat
    decreases |dir|
  {
    if dir == [] then 0 else UsedBytes(dir[..|dir| - 1]) + Bytes(dir[|dir| - 1])
  }

  /** A record without a usable index is read once and counts as a lab record, or is not listed. */
  function EntryOf(f: File): Option<Entry> {
    if f.index.Some? then Some(Entry(f.id, f.index.value.source, f.index.value.recordedAt))
    else if f.body.Some? then Some(Entry(f.id, Lab, f.body.value))
    else None
  }

  function Without(dir: Directory, id: string): Directory
    decreases |dir|
  {
    if dir == [] then [] else
      var f := dir[|dir| - 1];
      Without(dir[..|dir| - 1], id) + (if f.id == id then [] else [f])
  }

  function WithoutAll(dir: Directory, gone: seq<Entry>): Directory
    decreases |gone|
  {
    if gone == [] then dir else Without(WithoutAll(dir, gone[..|gone| - 1]), gone[|gone| - 1].id)
  }

  // ----- which records may go, and in which order ----------------------------------------------

  /** A cache makes room by caches only, an auto record by caches and auto records, a lab record by none. */
  predicate Prunable(e: Entry, source: Source) {
    match source
    case Lab => false
    case Auto => e.source != Lab
    case RosbagCache => e.source == RosbagCache
  }

  function Eligible(dir: Directory, source: Source, keep: string): seq<Entry>
    decreases |dir|
  {
    if dir == [] then [] else
      var e := EntryOf(dir[|dir| - 1]);
      Eligible(dir[..|dir| - 1], source, keep)
      + (if e.Some? && Prunable(e.value, source) && e.value.id != keep then [e.value] else [])
  }

  /** Caches before auto records, the older before the newer. */
  predicate NotAfter(a: Entry, b: Entry) {
    if (a.source == RosbagCache) != (b.source == RosbagCache) then a.source == RosbagCache
    else a.recordedAt <= b.recordedAt
  }

  predicate OldestFirst(es: seq<Entry>) {
    forall i, j :: 0 <= i < j < |es| ==> NotAfter(es[i], es[j])
  }

  function Insert(es: seq<Entry>, e: Entry): seq<Entry>
    decreases |es|
  {
    if es == [] || NotAfter(es[|es| - 1], e) then es + [e]
    else Insert(es[..|es| - 1], e) + [es[|es| - 1]]
  }

  /** A stable sort: equal keys stay in the order of the listing. */
  function Sorted(es: seq<Entry>): seq<Entry>
    decreases |es|
  {
    if es == [] then [] else Insert(Sorted(es[..|es| - 1]), es[|es| - 1])
  }

  function Candidates(dir: Directory, source: Source, keep: string): seq<Entry> {
    Sorted(Eligible(dir, source, keep))
  }

  lemma {:induction false} InsertSorts(es: seq<Entry>, e: Entry)
    requires OldestFirst(es)
    ensures OldestFirst(Insert(es, e))
    ensures multiset(Insert(es, e)) == multiset(es) + multiset{e}
    decreases |es|
  {
    if es != [] {
      var rest, last := es[..|es| - 1], es[|es| - 1];
      assert es == rest + [last];
      if !NotAfter(last, e) {
        InsertSorts(rest, e);
        var r := Insert(rest, e);
        forall x | x in r ensures NotAfter(x, last) {
          assert x in multiset(r);
          assert x in rest || x == e;
        }
      } else {
        forall x | x in es ensures NotAfter(x, e) {
          if x in rest {
            assert NotAfter(x, last);
          }
        }
      }
    }
  }

  lemma {:induction false} SortedSorts(es: seq<Entry>)
    ensures OldestFirst(Sorted(es))
    ensures multiset(Sorted(es)) == multiset(es)
    decreases |es|
  {
    if es != [] {
      var rest, last := es[..|es| - 1], es[|es| - 1];
      assert es == rest + [last];
      SortedSorts(rest);
      InsertSorts(Sorted(rest), last);
    }
  }

  /** The eligible entries are exactly those of listed files that may be pruned for this save. */
  lemma {:induction false} EligibleIsExact(dir: Directory, source: Source, keep: string, e: Entry)
    ensures e in Eligible(dir, source, keep)
       <==> Prunable(e, source) && e.id != keep && exists f :: f in dir && EntryOf(f) == Some(e)
    decreases |dir|
  {
    if dir != [] {
      var rest, last := dir[..|dir| - 1], dir[|dir| - 1];
      assert dir == rest + [last];
      EligibleIsExact(rest, source, keep, e);
      if exists f :: f in dir && EntryOf(f) == Some(e) {
        var f :| f in dir && EntryOf(f) == Some(e);
        assert f in rest || f == last;
      }
    }
  }

  /**
   * The candidates are exactly the records this save may delete, in the order caches first, then
   * auto records, each oldest first. None is a lab record, one without an index, or the record to keep.
   */
  lemma CandidatesAreRight(dir: Directory, source: Source, keep: string)
    ensures OldestFirst(Candidates(dir, source, keep))
    ensures forall e :: e in Candidates(dir, source, keep) <==>
              Prunable(e, source) && e.id != keep && exists f :: f in dir && EntryOf(f) == Some(e)
    ensures forall e :: e in Candidates(dir, source, keep) ==> e.source != Lab
    ensures source == RosbagCache ==> forall e :: e in Candidates(dir, source, keep) ==> e.source == RosbagCache
    ensures source == Lab ==> Candidates(dir, source, keep) == []
  {
    var eligible := Eligible(dir, source, keep);
    SortedSorts(eligible);
    forall e ensures e in Sorted(eligible) <==>
              Prunable(e, source) && e.id != keep && exists f :: f in dir && EntryOf(f) == Some(e) {
      EligibleIsExact(dir, source, keep, e);
      assert e in Sorted(eligible) <==> e in multiset(Sorted(eligible));
      assert e in eligible <==> e in multiset(eligible);
    }
    if source == Lab {
      LabPrunesNothing(dir, keep);
    }
  }

  lemma {:induction false} LabPrunesNothing(dir: Directory, keep: string)
    ensures Eligible(dir, Lab, keep) == []
    decreases |dir|
  {
    if dir != [] {
      LabPrunesNothing(dir[..|dir| - 1], keep);
    }
  }

  /** An indexed record that this save may delete: a cache, or for an auto record any but a lab record. */
  predicate MayGo(f: File, source: Source, keep: string) {
    && f.index.Some? && f.id != keep
    && (|| (source == Auto && f.index.value.source != Lab)
        || (source == RosbagCache && f.index.value.source == RosbagCache))
  }

  /**
   * File by file: exactly these records are candidates, each once under its own id, all caches before
   * all auto records, and of one kind the older before the newer.
   */
  lemma ExactlyTheseMayGo(dir: Directory, source: Source, keep: string)
    requires UniqueIds(dir)
    ensures var all := Candidates(dir, source, keep);
            && (forall f :: f in dir ==> (Named(all, f.id) <==> MayGo(f, source, keep)))
            && (forall i, j :: 0 <= i < j < |all| ==>
                  && (all[j].source == RosbagCache ==> all[i].source == RosbagCache)
                  && (all[i].source == all[j].source ==> all[i].recordedAt <= all[j].recordedAt))
  {
    CandidatesAreRight(dir, source, keep);
    hide Candidates, Named;
    var all := Candidates(dir, source, keep);
    forall f | f in dir ensures Named(all, f.id) <==> MayGo(f, source, keep) {
      NamedMayGo(dir, source, keep, f);
    }
  }

  lemma NamedMayGo(dir: Directory, source: Source, keep: string, f: File)
    requires UniqueIds(dir) && f in dir
    ensures Named(Candidates(dir, source, keep), f.id) <==> MayGo(f, source, keep)
  {
    CandidatesAreRight(dir, source, keep);
    hide Candidates;
    var all := Candidates(dir, source, keep);
    if Named(all, f.id) {
      var e :| e in all && e.id == f.id;
      var g :| g in dir && EntryOf(g) == Some(e);
      SameIdSameFile(dir, f, g);
    }
    if MayGo(f, source, keep) {
      var e := EntryOf(f).value;
      assert e in all;
    }
  }

  // ----- what deleting does ---------------------------------------------------------------------

  lemma {:induction false} WithoutMembers(dir: Directory, id: string)
    ensures forall f :: f in Without(dir, id) <==> f in dir && f.id != id
    decreases |dir|
  {
    if dir != [] {
      var rest, last := dir[..|dir| - 1], dir[|dir| - 1];
      assert dir == rest + [last];
      WithoutMembers(rest, id);
    }
  }

  lemma {:induction false} WithoutKeepsUnique(dir: Directory, id: string)
    requires UniqueIds(dir)
    ensures UniqueIds(Without(dir, id))
    decreases |dir|
  {
    if dir != [] {
      var rest, last := dir[..|dir| - 1], dir[|dir| - 1];
      WithoutKeepsUnique(rest, id);
      WithoutMembers(rest, id);
      forall f | f in Without(rest, id) ensures f.id != last.id {
        LastIsApart(dir, f);
      }
    }
  }

  lemma LastIsApart(dir: Directory, f: File)
    requires UniqueIds(dir) && dir != [] && f in dir[..|dir| - 1]
    ensures f.id != dir[|dir| - 1].id
  {
    var i :| 0 <= i < |dir| - 1 && dir[..|dir| - 1][i] == f;
    assert dir[i] == f;
  }

  lemma {:induction false} WithoutFrees(dir: Directory, id: string)
    ensures UsedBytes(Without(dir, id)) <= UsedBytes(dir)
    decreases |dir|
  {
    if dir != [] {
      var kept, last := Without(dir[..|dir| - 1], id), dir[|dir| - 1];
      WithoutFrees(dir[..|dir| - 1], id);
      assert (kept + [last])[..|kept|] == kept && kept + [] == kept;
    }
  }

  lemma WithoutIsExact(dir: Directory, id: string)
    ensures forall f :: f in Without(dir, id) <==> f in dir && f.id != id
    ensures UniqueIds(dir) ==> UniqueIds(Without(dir, id))
    ensures UsedBytes(Without(dir, id)) <= UsedBytes(dir)
  {
    WithoutMembers(dir, id);
    if UniqueIds(dir) {
      WithoutKeepsUnique(dir, id);
    }
    WithoutFrees(dir, id);
  }

  lemma OneMoreFile(dir: Directory, f: File, id: string)
    ensures UsedBytes(dir + [f]) == UsedBytes(dir) + Bytes(f)
    ensures Without(dir + [f], id) == Without(dir, id) + (if f.id == id then [] else [f])
  {
    assert (dir + [f])[..|dir|] == dir;
  }

  /** A deleted record gives back all its bytes. */
  lemma {:induction false} WithoutGivesBack(dir: Directory, f: File)
    requires UniqueIds(dir) && f in dir
    ensures UsedBytes(Without(dir, f.id)) == UsedBytes(dir) - (f.size + f.metaSize)
    decreases |dir|
  {
    hide UsedBytes, Without;
    var rest, last := dir[..|dir| - 1], dir[|dir| - 1];
    assert dir == rest + [last];
    OneMoreFile(rest, last, f.id);
    if last == f {
      forall g | g in rest ensures g.id != f.id {
        LastIsApart(dir, g);
      }
      NothingToDelete(rest, f.id);
      assert Without(rest, f.id) + [] == rest;
    } else {
      assert f in rest;
      LastIsApart(dir, f);
      WithoutGivesBack(rest, f);
      OneMoreFile(Without(rest, f.id), last, f.id);
    }
  }

  lemma {:induction false} NothingToDelete(dir: Directory, id: string)
    requires forall f :: f in dir ==> f.id != id
    ensures Without(dir, id) == dir
    decreases |dir|
  {
    if dir != [] {
      NothingToDelete(dir[..|dir| - 1], id);
      assert dir == dir[..|dir| - 1] + [dir[|dir| - 1]];
    }
  }

  lemma {:induction false} WithoutAllIsExact(dir: Directory, gone: seq<Entry>)
    ensures forall f :: f in WithoutAll(dir, gone) <==> f in dir && !Named(gone, f.id)
    ensures UniqueIds(dir) ==> UniqueIds(WithoutAll(dir, gone))
    decreases |gone|
  {
    if gone != [] {
      var rest, last := gone[..|gone| - 1], gone[|gone| - 1];
      assert gone == rest + [last];
      WithoutAllIsExact(dir, rest);
      WithoutIsExact(WithoutAll(dir, rest), last.id);
      forall id: string ensures Named(gone, id) <==> Named(rest, id) || last.id == id {
        if Named(gone, id) {
          var e :| e in gone && e.id == id;
          assert e in rest || e == last;
        }
        if Named(rest, id) {
          var e :| e in rest && e.id == id;
          assert e in gone;
        }
      }
    }
  }

  predicate Named(es: seq<Entry>, id: string) {
    exists e :: e in es && e.id == id
  }

  /** With unique ids, whatever prefix of the candidates goes, every other file stays as it is. */
  lemma PruningSparesTheRest(dir: Directory, source: Source, keep: string, k: nat, f: File)
    requires UniqueIds(dir) && f in dir && k <= |Candidates(dir, source, keep)|
    requires f.index.None? || f.index.value.source == Lab || f.id == keep || source == Lab
          || (source == RosbagCache && f.index.value.source == Auto)
    ensures f in WithoutAll(dir, Candidates(dir, source, keep)[..k])
  {
    hide WithoutAll, Eligible, Sorted;
    var all := Candidates(dir, source, keep);
    CandidatesAreRight(dir, source, keep);
    hide Candidates, OldestFirst;
    WithoutAllIsExact(dir, all[..k]);
    forall e | e in all[..k] ensures e.id != f.id {
      assert e in all;
      var g :| g in dir && EntryOf(g) == Some(e);
      if e.id == f.id {
        SameIdSameFile(dir, f, g);
      }
    }
  }

  lemma SameIdSameFile(dir: Directory, f: File, g: File)
    requires UniqueIds(dir) && f in dir && g in dir && f.id == g.id
    ensures f == g
  {
  }

  // ----- room ------------------------------------------------------------------------------------

  function Room(quota: int, minFree: int, used: nat, diskFree: int): int {
    var left, free := quota - used, diskFree - minFree;
    if left <= free then left else free
  }

  /** The room seen after `k` deletions, when the disk then reported `free[k]`. */
  function RoomAfter(dir: Directory, gone: seq<Entry>, k: nat, quota: int, minFree: int, free: seq<int>): int
    requires k <= |gone| && k < |free|
  {
    Room(quota, minFree, UsedBytes(WithoutAll(dir, gone[..k])), free[k])
  }

  /**
   * What making room does: it deletes a prefix of the candidates, which is the shortest that makes
   * enough room, or, when none does, all of them, and then it fails.
   */
  ghost predicate PrunesShortestPrefix(before: Directory, after: Directory, gone: seq<Entry>, needed: nat, quota: int,
                                       minFree: int, free: seq<int>, ok: bool) {
    && 1 <= |free| <= |gone| + 1
    && after == WithoutAll(before, gone[..|free| - 1])
    && (forall k :: 0 <= k < |free| - 1 ==> RoomAfter(before, gone, k, quota, minFree, free) < needed)
    && (ok <==> RoomAfter(before, gone, |free| - 1, quota, minFree, free) >= needed)
    && (!ok ==> |free| == |gone| + 1)
  }

  lemma NothingGone(dir: Directory, gone: seq<Entry>)
    ensures WithoutAll(dir, gone[..0]) == dir
  {
    assert gone[..0] == [];
  }

  lemma OneMoreGone(dir: Directory, gone: seq<Entry>, i: nat)
    requires i < |gone|
    ensures WithoutAll(dir, gone[..i + 1]) == Without(WithoutAll(dir, gone[..i]), gone[i].id)
  {
    assert gone[..i + 1][..i] == gone[..i];
  }

  lemma PrunedEnough(before: Directory, after: Directory, gone: seq<Entry>, needed: nat, quota: int,
                     minFree: int, free: seq<int>, ok: bool)
    requires PrunesShortestPrefix(before, after, gone, needed, quota, minFree, free, ok)
    ensures 1 <= |free| <= |gone| + 1 && after == WithoutAll(before, gone[..|free| - 1])
    ensures ok <==> UsedBytes(after) + needed <= quota && free[|free| - 1] - needed >= minFree
    ensures forall k :: 0 <= k < |free| - 1 ==>
              UsedBytes(WithoutAll(before, gone[..k])) + needed > quota || free[k] - needed < minFree
  {
    hide UsedBytes, WithoutAll;
    forall k | 0 <= k < |free| - 1
      ensures UsedBytes(WithoutAll(before, gone[..k])) + needed > quota || free[k] - needed < minFree
    {
      assert RoomAfter(before, gone, k, quota, minFree, free) < needed;
    }
  }

  // ----- names ------------------------------------------------------------------------------------

  function Decimal(n: nat): string
    decreases n
  {
    if n < 10 then [Digit(n)] else Decimal(n / 10) + [Digit(n % 10)]
  }

  function Digit(d: nat): char
    requires d < 10
  {
    "0123456789"[d]
  }

  function Name(base: string, number: nat): string
    requires number >= 1
  {
    if number == 1 then base else base + "-" + Decimal(number)
  }

  lemma DigitInjective(a: nat, b: nat)
    requires a < 10 && b < 10 && Digit(a) == Digit(b)
    ensures a == b
  {
  }

  lemma {:induction false} DecimalInjective(a: nat, b: nat)
    requires Decimal(a) == Decimal(b)
    ensures a == b
    decreases a
  {
    DecimalNonempty(a / 10);
    DecimalNonempty(b / 10);
    var s, t := Decimal(a), Decimal(b);
    assert s[|s| - 1] == t[|t| - 1];
    DigitInjective(a % 10, b % 10);
    if a >= 10 && b >= 10 {
      assert s[..|s| - 1] == Decimal(a / 10) && t[..|t| - 1] == Decimal(b / 10);
      DecimalInjective(a / 10, b / 10);
    }
  }

  lemma DecimalNonempty(n: nat)
    ensures |Decimal(n)| >= 1
  {
  }

  /** Two numbers never give the same name. */
  lemma NameInjective(base: string, a: nat, b: nat)
    requires a >= 1 && b >= 1 && Name(base, a) == Name(base, b)
    ensures a == b
  {
    DecimalNonempty(a);
    DecimalNonempty(b);
    if a > 1 && b > 1 {
      var n := |base| + 1;
      assert Name(base, a)[n..] == Decimal(a) && Name(base, b)[n..] == Decimal(b);
      DecimalInjective(a, b);
    }
  }

  function Ids(dir: Directory): set<string> {
    set f | f in dir :: f.id
  }

  /** The first `n` names of a series. */
  function Names(base: string, n: nat): set<string>
    decreases n
  {
    if n == 0 then {} else Names(base, n - 1) + {Name(base, n)}
  }

  lemma {:induction false} NamesAreMany(base: string, n: nat)
    ensures |Names(base, n)| == n
    ensures forall x :: x in Names(base, n) ==> exists k :: 1 <= k <= n && x == Name(base, k)
    decreases n
  {
    if n > 0 {
      NamesAreMany(base, n - 1);
      if Name(base, n) in Names(base, n - 1) {
        var k :| 1 <= k <= n - 1 && Name(base, n) == Name(base, k);
        NameInjective(base, n, k);
      }
    }
  }

  /** A directory of this many records cannot have taken more names of one series. */
  lemma NamesRunOut(dir: Directory, base: string, n: nat)
    requires forall k :: 1 <= k <= n ==> Has(dir, Name(base, k))
    ensures n <= |Ids(dir)|
  {
    NamesAreMany(base, n);
    forall x | x in Names(base, n) ensures x in Ids(dir) {
      var k :| 1 <= k <= n && x == Name(base, k);
      assert Has(dir, Name(base, k));
      var f :| f in dir && f.id == x;
    }
    SubsetSize(Names(base, n), Ids(dir));
  }

  // ----- the store --------------------------------------------------------------------------------

  /** Puts a file in place of the one with its id, or adds it. */
  function Put(dir: Directory, f: File): Directory {
    Without(dir, f.id) + [f]
  }

  lemma PutIsExact(dir: Directory, f: File)
    requires UniqueIds(dir)
    ensures UniqueIds(Put(dir, f))
    ensures forall g :: g in Put(dir, f) <==> g == f || (g in dir && g.id != f.id)
    ensures UsedBytes(Put(dir, f)) <= UsedBytes(dir) + Bytes(f)
  {
    WithoutIsExact(dir, f.id);
    assert Put(dir, f)[..|Without(dir, f.id)|] == Without(dir, f.id);
  }

  /** A fresh save leaves every record that pruning spared exactly as it was. */
  lemma FreshSaveOverwritesNothing(pruned: Directory, f: File, g: File)
    requires UniqueIds(pruned) && !Has(pruned, f.id) && g in pruned
    ensures g in Put(pruned, f) && UsedBytes(Put(pruned, f)) == UsedBytes(pruned) + Bytes(f)
  {
    NothingToDelete(pruned, f.id);
    assert Put(pruned, f)[..|pruned|] == pruned;
  }

  /**
   * The directory after a save under a fresh name: the new record, and every old one, unchanged, that
   * is not among the deleted candidates; so every lab record and every one without an index.
   */
  lemma FreshSaveKeepsOthers(before: Directory, source: Source, k: nat, f: File)
    requires UniqueIds(before) && !Has(before, f.id) && k <= |Candidates(before, source, f.id)|
    ensures var gone := Candidates(before, source, f.id)[..k];
            var after := Put(WithoutAll(before, gone), f);
            && f in after
            && (forall g :: g in before ==> (g in after <==> !Named(gone, g.id)))
            && (forall g :: g in after ==> g == f || g in before)
            && (forall g :: g in before && (g.index.None? || g.index.value.source == Lab) ==> g in after)
  {
    hide WithoutAll, Eligible, Sorted, Put, Candidates, Has, UniqueIds;
    var gone := Candidates(before, source, f.id)[..k];
    var pruned := WithoutAll(before, gone);
    WithoutAllIsExact(before, gone);
    PutIsExact(pruned, f);
    NobodyHas(before, f.id);
    forall g | g in before && (g.index.None? || g.index.value.source == Lab) ensures g in Put(pruned, f) {
      PruningSparesTheRest(before, source, f.id, k, g);
    }
  }

  lemma NobodyHas(dir: Directory, id: string)
    requires !Has(dir, id)
    ensures forall g :: g in dir ==> g.id != id
  {
  }

  class RecordStore {
    const quotaBytes: int
    const minFreeBytes: int
    var dir: Directory

    ghost predicate Valid()
      reads this
    {
      UniqueIds(dir)
    }

    constructor (quotaBytes: int, minFreeBytes: int, dir: Directory)
      requires UniqueIds(dir)
      ensures Valid() && this.dir == dir && this.quotaBytes == quotaBytes && this.minFreeBytes == minFreeBytes
    {
      this.quotaBytes, this.minFreeBytes, this.dir := quotaBytes, minFreeBytes, dir;
    }

    /** What the disk reports may change by itself between two looks. */
    method DiskFree() returns (free: int) {
      free := *;
    }

    method Delete(id: string) returns (deleted: bool)
      requires Valid()
      modifies this
      ensures Valid() && dir == Without(old(dir), id)
      ensures deleted <==> Has(old(dir), id)
    {
      WithoutIsExact(dir, id);
      if !Has(dir, id) {
        NothingToDelete(dir, id);
        return false;
      }
      dir := Without(dir, id);
      deleted := true;
    }

    /** The first name of the series base, base-2, base-3, ... that no record has. */
    method NewId(base: string) returns (id: string, ghost number: nat)
      ensures number >= 1 && id == Name(base, number) && !Has(dir, id)
      ensures forall k :: 1 <= k < number ==> Has(dir, Name(base, k))
    {
      hide Decimal, Has, Ids;
      id := base;
      var n: nat := 1;
      while Has(dir, id)
        invariant n >= 1 && id == Name(base, n)
        invariant forall k :: 1 <= k < n ==> Has(dir, Name(base, k))
        decreases |Ids(dir)| - n
      {
        NamesRunOut(dir, base, n);
        n := n + 1;
        id := base + "-" + Decimal(n);
      }
      number := n;
    }

    method MakeRoom(needed: nat, source: Source, keep: string) returns (ok: bool, ghost free: seq<int>)
      requires Valid()
      modifies this
      ensures Valid()
      ensures PrunesShortestPrefix(old(dir), dir, Candidates(old(dir), source, keep), needed, quotaBytes, minFreeBytes,
                                   free, ok)
    {
      hide Candidates, WithoutAll, Without, UsedBytes, UniqueIds, Has, Room;
      var seen := DiskFree();
      free := [seen];
      ghost var before := dir;
      var candidates := Candidates(dir, source, keep);
      NothingGone(before, candidates);
      if Room(quotaBytes, minFreeBytes, UsedBytes(dir), seen) >= needed {
        return true, free;
      }
      for i := 0 to |candidates|
        invariant Valid() && |free| == i + 1
        invariant dir == WithoutAll(before, candidates[..i])
        invariant forall k :: 0 <= k <= i ==> RoomAfter(before, candidates, k, quotaBytes, minFreeBytes, free) < needed
      {
        var deleted := Delete(candidates[i].id);
        OneMoreGone(before, candidates, i);
        seen := DiskFree();
        ghost var earlier := free;
        free := free + [seen];
        forall k | 0 <= k <= i
          ensures RoomAfter(before, candidates, k, quotaBytes, minFreeBytes, free) < needed
        {
          assert free[k] == earlier[k];
          assert RoomAfter(before, candidates, k, quotaBytes, minFreeBytes, earlier) < needed;
        }
        assert RoomAfter(before, candidates, i + 1, quotaBytes, minFreeBytes, free)
            == Room(quotaBytes, minFreeBytes, UsedBytes(dir), seen);
        if Room(quotaBytes, minFreeBytes, UsedBytes(dir), seen) >= needed {
          return true, free;
        }
      }
      ok := false;
    }

    /**
     * A save. `writable`, `wellFormed`, `bodyWritten` and `metaWritten` are what the file system and
     * the check of the recording say; `metaSize` is the size of the index file to be written.
     */
    method Save(size: nat, recordedAt: int, source: Source, wanted: Option<string>, base: string, metaSize: nat,
                writable: bool, wellFormed: bool, bodyWritten: bool, metaWritten: bool)
      returns (id: string, error: Option<SaveError>, ghost free: seq<int>)
      requires Valid()
      modifies this
      ensures Valid()
      ensures error == Some(NoStore) <==> !writable
      ensures error == Some(BadRecording) <==> writable && !wellFormed
      ensures error == Some(TooBig) <==> writable && wellFormed && size > MAX_SAVE_BYTES
      ensures !writable || !wellFormed || size > MAX_SAVE_BYTES ==> dir == old(dir)
      ensures writable && wellFormed && size <= MAX_SAVE_BYTES ==>
                var candidates := Candidates(old(dir), source, id);
                && (wanted.Some? ==> id == wanted.value)
                && (wanted.None? ==> !Has(old(dir), id))
                && 1 <= |free| <= |candidates| + 1
                && var pruned := WithoutAll(old(dir), candidates[..|free| - 1]);
                   && PrunesShortestPrefix(old(dir), pruned, candidates, size + META_RESERVE, quotaBytes, minFreeBytes,
                                           free, error != Some(Full))
                   && (error == Some(Full) ==> dir == pruned)
                   && (error.None? ==>
                         && dir == Put(pruned, File(id, size, metaSize, Some(Index(source, recordedAt)),
                                                    Some(recordedAt)))
                         && (metaSize <= META_RESERVE ==>
                               && UsedBytes(dir) <= quotaBytes
                               && free[|free| - 1] - (size + metaSize) >= minFreeBytes))
                   && (error.None? && wanted.None? ==>
                         forall g :: g in old(dir) ==> (g in dir <==> !Named(candidates[..|free| - 1], g.id)))
                   && (error == Some(WriteFailed) ==> !bodyWritten || !metaWritten)
                   && (error == Some(WriteFailed) ==>
                         dir == if !bodyWritten then pruned
                                else BodyOnly(pruned, File(id, size, metaSize, Some(Index(source, recordedAt)),
                                                           Some(recordedAt))))
    {
      hide PrunesShortestPrefix, Candidates, WithoutAll, Put, UsedBytes, UniqueIds, Has, Named;
      free, id := [0], "";
      if !writable {
        return id, Some(NoStore), free;
      }
      if !wellFormed {
        return id, Some(BadRecording), free;
      }
      if size > MAX_SAVE_BYTES {
        return id, Some(TooBig), free;
      }
      match wanted {
        case None =>
          ghost var number;
          id, number := NewId(base);
        case Some(w) => id := w;
      }
      var ok;
      ok, free := MakeRoom(size + META_RESERVE, source, id);
      PrunedEnough(old(dir), dir, Candidates(old(dir), source, id), size + META_RESERVE, quotaBytes, minFreeBytes,
                   free, ok);
      if !ok {
        return id, Some(Full), free;
      }
      var file := File(id, size, metaSize, Some(Index(source, recordedAt)), Some(recordedAt));
      PutIsExact(dir, file);
      if !bodyWritten {
        return id, Some(WriteFailed), free;
      }
      if !metaWritten {
        dir := BodyOnly(dir, file);
        return id, Some(WriteFailed), free;
      }
      dir := Put(dir, file);
      if wanted.None? {
        FreshSaveKeepsOthers(old(dir), source, |free| - 1, file);
      }
      error := None;
    }

    static lemma HalfIsPut(dir: Directory, half: File)
      ensures UniqueIds(dir) ==>
                && UniqueIds(Put(dir, half)) && half in Put(dir, half)
                && forall g :: g in Put(dir, half) && g.id != half.id <==> g in dir && g.id != half.id
    {
      hide Put;
      if UniqueIds(dir) {
        PutIsExact(dir, half);
      }
    }

    /** The record was replaced or added, but its index file is the old one, or missing. */
    static function BodyOnly(dir: Directory, f: File): (after: Directory)
      ensures UniqueIds(dir) ==> UniqueIds(after)
      ensures UniqueIds(dir) ==> forall g :: g in after && g.id != f.id <==> g in dir && g.id != f.id
      ensures UniqueIds(dir) ==> exists g :: g in after && g.id == f.id && g.size == f.size && g.body == f.body
                                   && (if Has(dir, f.id) then g.index == Find(dir, f.id).index else g.index == None)
    {
      var old' := if Has(dir, f.id) then Some(Find(dir, f.id)) else None;
      var half := File(f.id, f.size, if old'.Some? then old'.value.metaSize else 0,
                       if old'.Some? then old'.value.index else None, f.body);
      HalfIsPut(dir, half);
      Put(dir, half)
    }

    static function Find(dir: Directory, id: string): (f: File)
      requires Has(dir, id)
      ensures f in dir && f.id == id
      decreases |dir|
    {
      var last := dir[|dir| - 1];
      if last.id == id then last else
        assert Has(dir[..|dir| - 1], id) by {
          var f :| f in dir && f.id == id;
          assert f in dir[..|dir| - 1];
        }
        Find(dir[..|dir| - 1], id)
    }
  }

  lemma {:induction false} SubsetSize(a: set<string>, b: set<string>)
    requires a <= b
    ensures |a| <= |b|
    decreases a
  {
    if a == {} {
      assert |a| == 0;
    } else {
      HasName(a);
      var x :| x in a;
      SubsetSize(a - {x}, b - {x});
    }
  }

  lemma HasName(a: set<string>)
    ensures a != {} ==> exists x :: x in a
  {
    if !exists x :: x in a {
      assert a == {};
    }
  }
}
