// The arithmetic of admission control (src/common/JobSchedulerStaticWorkloads.cpp:70-99): what the
// load loop adds up, and how that relates to what the live jobs really take at an instant.
module Admission {
  import opened Jobs
  import opened ScheduleState

  // ---------- sums over one OST list ----------

  /** The throughput of all entries that overlap [from, to], without wrap-around. */
  function Overlap(l: seq<Reservation>, from: int, to: int): (sum: nat) {
    if l == [] then 0 else (if l[0].Overlaps(from, to) then l[0].mbs else 0) + Overlap(l[1..], from, to)
  }

  /** The throughput of all entries that are running at instant `t`. */
  function LoadAt(l: seq<Reservation>, t: int): (sum: nat) {
    if l == [] then 0 else (if l[0].Covers(t) then l[0].mbs else 0) + LoadAt(l[1..], t)
  }

  /** The accumulator of the load loop: 32 bits, updated front to back. */
  function LoadWord(l: seq<Reservation>, from: int, to: int): (sum: uint32) {
    if l == [] then 0
    else
      var last := l[|l| - 1];
      (LoadWord(l[..|l| - 1], from, to) + if last.Overlaps(from, to) then last.mbs else 0) % TWO_TO_THE_32
  }

  /** Two intervals overlap exactly if they share an instant. */
  lemma OverlapsIffShared(r: Reservation, from: int, to: int)
    requires r.start <= r.end && from <= to
    ensures r.Overlaps(from, to) <==> exists t :: from <= t <= to && r.Covers(t)
  {
    var first := if from < r.start then r.start else from;
    if r.Overlaps(from, to) {
      assert from <= first <= to && r.Covers(first);
    }
  }

  lemma {:induction false} OverlapAppend(l: seq<Reservation>, r: Reservation, from: int, to: int)
    ensures Overlap(l + [r], from, to) == Overlap(l, from, to) + if r.Overlaps(from, to) then r.mbs else 0
  {
    if l == [] {
      assert (l + [r])[1..] == [];
    } else {
      assert (l + [r])[1..] == l[1..] + [r];
      OverlapAppend(l[1..], r, from, to);
    }
  }

  lemma {:induction false} LoadWordIsOverlapMod(l: seq<Reservation>, from: int, to: int)
    ensures LoadWord(l, from, to) == Overlap(l, from, to) % TWO_TO_THE_32
  {
    if l != [] {
      var front, last := l[..|l| - 1], l[|l| - 1];
      LoadWordIsOverlapMod(front, from, to);
      assert l == front + [last];
      OverlapAppend(front, last, from, to);
      AddMod(Overlap(front, from, to), if last.Overlaps(from, to) then last.mbs else 0);
    }
  }

  lemma {:induction false} PrefixOverlap(l: seq<Reservation>, k: nat, from: int, to: int)
    requires k <= |l|
    ensures Overlap(l[..k], from, to) <= Overlap(l, from, to)
    decreases |l| - k
  {
    if k == |l| {
      assert l[..k] == l;
    } else {
      assert l[..k + 1] == l[..k] + [l[k]];
      OverlapAppend(l[..k], l[k], from, to);
      PrefixOverlap(l, k + 1, from, to);
    }
  }

  lemma {:induction false} LoadWithinOverlap(l: seq<Reservation>, t: int, from: int, to: int)
    requires from <= t <= to
    ensures LoadAt(l, t) <= Overlap(l, from, to)
  {
    if l != [] {
      LoadWithinOverlap(l[1..], t, from, to);
    }
  }

  ghost predicate StartedBy(l: seq<Reservation>, now: int) {
    forall i :: 0 <= i < |l| ==> l[i].start <= now
  }

  /** If everything listed has started, then what overlaps [now, to] is what runs now, and no
      later instant carries more. */
  lemma {:induction false} OverlapIsLoadNow(l: seq<Reservation>, now: int, to: int, t: int)
    requires StartedBy(l, now) && now <= to && now <= t
    ensures Overlap(l, now, to) == LoadAt(l, now)
    ensures LoadAt(l, t) <= LoadAt(l, now)
  {
    if l != [] {
      OverlapIsLoadNow(l[1..], now, to, t);
    }
  }

  lemma {:induction false} InsertedSums(l: seq<Reservation>, r: Reservation, t: int)
    ensures LoadAt(Inserted(l, r), t) == LoadAt(l, t) + if r.Covers(t) then r.mbs else 0
  {
    if l == [] {
    } else if l[0].start > r.start {
      assert ([r] + l)[1..] == l;
    } else {
      InsertedSums(l[1..], r, t);
      assert ([l[0]] + Inserted(l[1..], r))[1..] == Inserted(l[1..], r);
    }
  }

  lemma {:induction false} ErasedSums(l: seq<Reservation>, id: string, from: int, to: int, t: int)
    ensures Overlap(Erased(l, id), from, to) <= Overlap(l, from, to)
    ensures LoadAt(Erased(l, id), t) <= LoadAt(l, t)
  {
    if l != [] && l[0].jobid != id {
      ErasedSums(l[1..], id, from, to, t);
      assert ([l[0]] + Erased(l[1..], id))[1..] == Erased(l[1..], id);
    }
  }

  // ---------- the two decisions the scheduler takes per OST ----------

  /** What GetMaxLoadInTimeInterval leaves in the caller's variable. As shipped (`stored` false)
      the sum is never written back, so the caller keeps whatever was there. */
  function ReportedLoad(stored: bool, lists: map<string, seq<Reservation>>, o: string, from: int, to: int,
                        leftover: uint32): (load: uint32)
  {
    if o !in lists then 0 else if stored then LoadWord(lists[o], from, to) else leftover
  }

  predicate EnoughResources(limits: map<string, uint32>, o: string, load: uint32, mbs: uint32) {
    o in limits && (load + mbs) % TWO_TO_THE_32 <= limits[o]
  }

  /** The real sum exceeds the limit, but wrapped to 32 bits it does not. */
  predicate Fooled(limits: map<string, uint32>, o: string, load: nat, mbs: uint32) {
    o in limits && load + mbs >= TWO_TO_THE_32 && load + mbs - TWO_TO_THE_32 <= limits[o]
  }

  /** The request is small enough that limit plus request fits the machine word. */
  ghost predicate FitsWord(limits: map<string, uint32>, r: Reservation) {
    forall o :: o in r.osts && o in limits ==> limits[o] + r.mbs < TWO_TO_THE_32
  }

  lemma FittingIsNotFooled(limits: map<string, uint32>, r: Reservation, o: string, load: nat)
    requires FitsWord(limits, r) && o in r.osts && (o in limits ==> load <= limits[o])
    ensures !Fooled(limits, o, load, r.mbs)
  {
  }

  /** The 32-bit comparison says what the real sum says, except when the sum wraps to something small. */
  lemma WordCheckAgreesIff(limits: map<string, uint32>, o: string, load: uint32, mbs: uint32)
    requires o in limits && load <= limits[o]
    ensures (EnoughResources(limits, o, load, mbs) <==> load + mbs <= limits[o]) <==> !Fooled(limits, o, load, mbs)
  {
    if load + mbs >= TWO_TO_THE_32 {
      assert (load + mbs) % TWO_TO_THE_32 == load + mbs - TWO_TO_THE_32;
    }
  }

  /** While a list stays within its limit now, no partial sum of the loop wraps, and unless the final
      sum is fooled by wrap-around the check is the comparison of real sums. */
  lemma NoWrapWhenStarted(limits: map<string, uint32>, l: seq<Reservation>, o: string, now: int, to: int, mbs: uint32)
    requires o in limits && StartedBy(l, now) && now <= to && LoadAt(l, now) <= limits[o]
    ensures forall k :: 0 <= k <= |l| ==>
              LoadWord(l[..k], now, to) == Overlap(l[..k], now, to) && Overlap(l[..k], now, to) <= limits[o]
    ensures LoadWord(l, now, to) == LoadAt(l, now)
    ensures !Fooled(limits, o, LoadAt(l, now), mbs) ==>
              (EnoughResources(limits, o, LoadWord(l, now, to), mbs) <==> LoadAt(l, now) + mbs <= limits[o])
  {
    OverlapIsLoadNow(l, now, to, now);
    forall k | 0 <= k <= |l|
      ensures LoadWord(l[..k], now, to) == Overlap(l[..k], now, to) && Overlap(l[..k], now, to) <= limits[o]
    {
      PrefixOverlap(l, k, now, to);
      LoadWordIsOverlapMod(l[..k], now, to);
    }
    assert l[..|l|] == l;
    WordCheckAgreesIff(limits, o, LoadWord(l, now, to), mbs);
  }

  // ---------- the sum over the live jobs ----------

  /** What the live jobs together take from OST `o` at instant `t`. */
  ghost function LiveLoad(jobs: map<string, Entry>, o: string, t: int): (sum: nat)
    decreases |jobs|
  {
    if jobs == map[] then 0
    else
      var id :| id in jobs;
      jobs[id].res.Share(o, t) + LiveLoad(jobs - {id}, o, t)
  }

  lemma {:induction false} LiveLoadSplit(jobs: map<string, Entry>, id: string, o: string, t: int)
    requires id in jobs
    ensures LiveLoad(jobs, o, t) == jobs[id].res.Share(o, t) + LiveLoad(jobs - {id}, o, t)
    decreases |jobs|
  {
    var k :| k in jobs && LiveLoad(jobs, o, t) == jobs[k].res.Share(o, t) + LiveLoad(jobs - {k}, o, t);
    if k != id {
      LiveLoadSplit(jobs - {k}, id, o, t);
      LiveLoadSplit(jobs - {id}, k, o, t);
      assert jobs - {k} - {id} == jobs - {id} - {k};
    }
  }

  lemma LoadWithoutSlot(l: seq<Reservation>, i: nat, t: int)
    requires i < |l|
    ensures LoadAt(l, t) == LoadAt(l[..i] + l[i + 1..], t) + if l[i].Covers(t) then l[i].mbs else 0
  {
    if i == 0 {
      assert l[..0] + l[1..] == l[1..];
    } else {
      LoadWithoutSlot(l[1..], i - 1, t);
      assert (l[..i] + l[i + 1..])[1..] == l[1..][..i - 1] + l[1..][i..];
    }
  }

  /** A list that misses no live job carries at least the live load. */
  lemma {:induction false} LiveLoadAtMostList(jobs: map<string, Entry>, l: seq<Reservation>, o: string, t: int)
    requires forall id :: id in jobs ==> jobs[id].res.jobid == id
    requires forall id :: id in jobs && o in jobs[id].res.osts ==> jobs[id].res in l
    ensures LiveLoad(jobs, o, t) <= LoadAt(l, t)
    decreases |jobs|
  {
    if jobs != map[] {
      var id :| id in jobs;
      LiveLoadSplit(jobs, id, o, t);
      var rest := jobs - {id};
      if o in jobs[id].res.osts {
        var i :| 0 <= i < |l| && l[i] == jobs[id].res;
        var l' := l[..i] + l[i + 1..];
        forall k | k in rest && o in rest[k].res.osts ensures rest[k].res in l' {
          var j :| 0 <= j < |l| && l[j] == rest[k].res;
          assert j != i;
          assert if j < i then l'[j] == l[j] else l'[j - 1] == l[j];
        }
        LoadWithoutSlot(l, i, t);
        LiveLoadAtMostList(rest, l', o, t);
      } else {
        LiveLoadAtMostList(rest, l, o, t);
      }
    }
  }

  lemma {:induction false} NoShareNoLoad(jobs: map<string, Entry>, o: string, t: int)
    requires forall id :: id in jobs ==> o !in jobs[id].res.osts
    ensures LiveLoad(jobs, o, t) == 0
    decreases |jobs|
  {
    if jobs != map[] {
      var id :| id in jobs;
      LiveLoadSplit(jobs, id, o, t);
      NoShareNoLoad(jobs - {id}, o, t);
    }
  }

  /** A list with exactly the live jobs of `o` carries exactly the live load. */
  lemma {:induction false} LiveLoadIsList(jobs: map<string, Entry>, l: seq<Reservation>, o: string, t: int)
    requires forall id :: id in jobs ==> jobs[id].res.jobid == id
    requires DistinctIds(l)
    requires forall r :: r in l <==> r.jobid in jobs && jobs[r.jobid].res == r && o in r.osts
    ensures LiveLoad(jobs, o, t) == LoadAt(l, t)
    decreases |l|
  {
    if l == [] {
      forall id | id in jobs ensures o !in jobs[id].res.osts {
        assert jobs[id].res !in l;
      }
      NoShareNoLoad(jobs, o, t);
    } else {
      var r := l[0];
      assert r in l;
      assert l == [r] + l[1..];
      LiveLoadSplit(jobs, r.jobid, o, t);
      forall x | x in l[1..] ensures x.jobid != r.jobid {
        var i :| 1 <= i < |l| && l[i] == x;
      }
      LiveLoadIsList(jobs - {r.jobid}, l[1..], o, t);
    }
  }

  // ---------- the capacity promise of a schedule ----------

  /** At every instant each list stays within its OST's limit, and only OSTs with a limit are used. */
  ghost predicate ListsWithinLimits(limits: map<string, uint32>, lists: map<string, seq<Reservation>>) {
    && (forall o :: ListOf(lists, o) != [] ==> o in limits)
    && (forall o, t :: o in limits ==> LoadAt(ListOf(lists, o), t) <= limits[o])
  }

  ghost predicate LiveWithinLimits(limits: map<string, uint32>, jobs: map<string, Entry>) {
    forall o, t :: o in limits ==> LiveLoad(jobs, o, t) <= limits[o]
  }

  lemma ListsBoundLive(limits: map<string, uint32>, s: Schedule)
    requires Covered(s) && ListsWithinLimits(limits, s.lists)
    ensures LiveWithinLimits(limits, s.jobs)
    ensures forall id, o :: id in s.jobs && o in s.jobs[id].res.osts ==> o in limits
  {
    forall o, t | o in limits ensures LiveLoad(s.jobs, o, t) <= limits[o] {
      LiveLoadAtMostList(s.jobs, ListOf(s.lists, o), o, t);
    }
  }

  /** There is room on `o` for `r` next to what list `o` carries. */
  ghost predicate RoomOn(limits: map<string, uint32>, lists: map<string, seq<Reservation>>, r: Reservation, o: string) {
    o in limits && Overlap(ListOf(lists, o), r.start, r.end) + r.mbs <= limits[o]
  }

  /** A job that found room on every one of its OSTs can be added. */
  lemma AddKeepsLimits(limits: map<string, uint32>, lists: map<string, seq<Reservation>>, r: Reservation)
    requires ListsWithinLimits(limits, lists) && Distinct(r.osts)
    requires forall i :: 0 <= i < |r.osts| ==> RoomOn(limits, lists, r, r.osts[i])
    ensures ListsWithinLimits(limits, AddedToLists(lists, r, r.osts))
  {
    var lists' := AddedToLists(lists, r, r.osts);
    forall o ensures ListOf(lists', o) != [] ==> o in limits {
      AddedList(lists, r, r.osts, o);
      if o in r.osts {
        var i :| 0 <= i < |r.osts| && r.osts[i] == o;
        assert RoomOn(limits, lists, r, r.osts[i]);
      }
    }
    forall o, t | o in limits ensures LoadAt(ListOf(lists', o), t) <= limits[o] {
      AddedList(lists, r, r.osts, o);
      InsertedSums(ListOf(lists, o), r, t);
      if o in r.osts && r.Covers(t) {
        var i :| 0 <= i < |r.osts| && r.osts[i] == o;
        assert RoomOn(limits, lists, r, r.osts[i]);
        LoadWithinOverlap(ListOf(lists, o), t, r.start, r.end);
      }
    }
  }

  /** Removing a job never makes room disappear, whether or not its list entries go. */
  lemma RemoveKeepsRoom(limits: map<string, uint32>, erases: bool, s: Schedule, id: string, r: Reservation, o: string)
    requires Covered(s) && RoomOn(limits, s.lists, r, o)
    ensures RoomOn(limits, JobRemoved(erases, s, id).lists, r, o)
  {
    if id in s.jobs {
      RemovedList(erases, s.lists, id, s.jobs[id].res.osts, o);
      ErasedSums(ListOf(s.lists, o), id, r.start, r.end, 0);
    }
  }

  lemma RemoveKeepsLimits(limits: map<string, uint32>, erases: bool, s: Schedule, id: string)
    requires Covered(s) && ListsWithinLimits(limits, s.lists)
    ensures ListsWithinLimits(limits, JobRemoved(erases, s, id).lists)
  {
    if id in s.jobs {
      var s' := JobRemoved(erases, s, id);
      forall o ensures ListOf(s'.lists, o) != [] ==> o in limits {
        RemovedList(erases, s.lists, id, s.jobs[id].res.osts, o);
        ErasedKeeps(ListOf(s.lists, o), id);
      }
      forall o, t | o in limits ensures LoadAt(ListOf(s'.lists, o), t) <= limits[o] {
        RemovedList(erases, s.lists, id, s.jobs[id].res.osts, o);
        ErasedSums(ListOf(s.lists, o), id, 0, 0, t);
      }
    }
  }

  ghost predicate AllStartedBy(lists: map<string, seq<Reservation>>, now: int) {
    forall o :: StartedBy(ListOf(lists, o), now)
  }

  lemma AddKeepsStarted(lists: map<string, seq<Reservation>>, r: Reservation, now: int)
    requires AllStartedBy(lists, now) && Distinct(r.osts) && r.start <= now
    ensures AllStartedBy(AddedToLists(lists, r, r.osts), now)
  {
    var lists' := AddedToLists(lists, r, r.osts);
    forall o ensures StartedBy(ListOf(lists', o), now) {
      AddedList(lists, r, r.osts, o);
      InsertedContents(ListOf(lists, o), r);
      var l' := ListOf(lists', o);
      forall i | 0 <= i < |l'| ensures l'[i].start <= now {
        assert l'[i] in multiset(l');
        assert l'[i] == r || l'[i] in multiset(ListOf(lists, o));
      }
    }
  }

  lemma RemoveKeepsStarted(erases: bool, s: Schedule, id: string, now: int)
    requires Covered(s) && AllStartedBy(s.lists, now)
    ensures AllStartedBy(JobRemoved(erases, s, id).lists, now)
  {
    if id in s.jobs {
      var s' := JobRemoved(erases, s, id);
      forall o ensures StartedBy(ListOf(s'.lists, o), now) {
        RemovedList(erases, s.lists, id, s.jobs[id].res.osts, o);
        ErasedKeeps(ListOf(s.lists, o), id);
        var l, l' := ListOf(s.lists, o), ListOf(s'.lists, o);
        forall i | 0 <= i < |l'| ensures l'[i].start <= now {
          assert l'[i] in l;
        }
      }
    }
  }

  /** Some instant of the requested interval would see more than the limit of `o`. */
  ghost predicate WouldOverload(limits: map<string, uint32>, jobs: map<string, Entry>, r: Reservation, o: string) {
    exists t :: r.start <= t <= r.end && o in limits && LiveLoad(jobs, o, t) + r.mbs > limits[o]
  }

  /** Once every job on `o` has started, no later instant carries more. */
  lemma {:induction false} LiveLoadPeaksNow(jobs: map<string, Entry>, o: string, now: int, t: int)
    requires now <= t && forall id :: id in jobs && o in jobs[id].res.osts ==> jobs[id].res.start <= now
    ensures LiveLoad(jobs, o, t) <= LiveLoad(jobs, o, now)
    decreases |jobs|
  {
    if jobs != map[] {
      var id :| id in jobs;
      LiveLoadSplit(jobs, id, o, t);
      LiveLoadSplit(jobs, id, o, now);
      LiveLoadPeaksNow(jobs - {id}, o, now, t);
    }
  }

  /** What the check on `o` compares, and what would be overloaded, for a request that starts when
      everything listed has started: the listed load against the live load, at its start. */
  lemma CheckAndOverload(limits: map<string, uint32>, s: Schedule, r: Reservation, o: string)
    requires Covered(s) && ListsWithinLimits(limits, s.lists) && AllStartedBy(s.lists, r.start)
    requires r.start <= r.end && o in limits && !Fooled(limits, o, LoadAt(ListOf(s.lists, o), r.start), r.mbs)
    ensures EnoughResources(limits, o, ReportedLoad(true, s.lists, o, r.start, r.end, 0), r.mbs)
       <==> LoadAt(ListOf(s.lists, o), r.start) + r.mbs <= limits[o]
    ensures WouldOverload(limits, s.jobs, r, o) <==> LiveLoad(s.jobs, o, r.start) + r.mbs > limits[o]
    ensures LiveLoad(s.jobs, o, r.start) <= LoadAt(ListOf(s.lists, o), r.start)
  {
    var l := ListOf(s.lists, o);
    NoWrapWhenStarted(limits, l, o, r.start, r.end, r.mbs);
    assert ReportedLoad(true, s.lists, o, r.start, r.end, 0) == LoadWord(l, r.start, r.end);
    LiveLoadAtMostList(s.jobs, l, o, r.start);
    forall id | id in s.jobs && o in s.jobs[id].res.osts ensures s.jobs[id].res.start <= r.start {
      assert s.jobs[id].res in l;
    }
    forall t | r.start <= t <= r.end ensures LiveLoad(s.jobs, o, t) <= LiveLoad(s.jobs, o, r.start) {
      LiveLoadPeaksNow(s.jobs, o, r.start, t);
    }
    if LiveLoad(s.jobs, o, r.start) + r.mbs > limits[o] {
      assert r.start <= r.start <= r.end && LiveLoad(s.jobs, o, r.start) + r.mbs > limits[o];
    }
  }

  /** Exact admission: against exact lists, a request that starts now passes the check on `o`
      if and only if no instant of its interval would exceed the limit. */
  lemma CheckIsExact(limits: map<string, uint32>, s: Schedule, h: seq<Reservation>, r: Reservation, o: string)
    requires Represents(s, h) && ListsWithinLimits(limits, s.lists) && AllStartedBy(s.lists, r.start)
    requires r.start <= r.end && o in limits && !Fooled(limits, o, LoadAt(ListOf(s.lists, o), r.start), r.mbs)
    ensures EnoughResources(limits, o, ReportedLoad(true, s.lists, o, r.start, r.end, 0), r.mbs)
       <==> !WouldOverload(limits, s.jobs, r, o)
    ensures EnoughResources(limits, o, ReportedLoad(true, s.lists, o, r.start, r.end, 0), r.mbs)
       <==> RoomOn(limits, s.lists, r, o)
  {
    var l := ListOf(s.lists, o);
    NoWrapWhenStarted(limits, l, o, r.start, r.end, r.mbs);
    OverlapIsLoadNow(l, r.start, r.end, r.start);
    assert ReportedLoad(true, s.lists, o, r.start, r.end, 0) == LoadWord(l, r.start, r.end);
    IndexAgreement(s, h, o);
    forall t | r.start <= t <= r.end
      ensures LiveLoad(s.jobs, o, t) == LoadAt(l, t) && LoadAt(l, t) <= LoadAt(l, r.start)
    {
      LiveLoadIsList(s.jobs, l, o, t);
      OverlapIsLoadNow(l, r.start, r.end, t);
    }
    if LoadAt(l, r.start) + r.mbs > limits[o] {
      assert r.start <= r.start <= r.end && LiveLoad(s.jobs, o, r.start) + r.mbs > limits[o];
    }
  }

  /** The same check against lists that only cover the live jobs is still safe. */
  lemma CheckIsSafe(limits: map<string, uint32>, s: Schedule, r: Reservation, o: string)
    requires ListsWithinLimits(limits, s.lists) && AllStartedBy(s.lists, r.start)
    requires r.start <= r.end && o in limits && !Fooled(limits, o, LoadAt(ListOf(s.lists, o), r.start), r.mbs)
    ensures EnoughResources(limits, o, ReportedLoad(true, s.lists, o, r.start, r.end, 0), r.mbs)
       <==> RoomOn(limits, s.lists, r, o)
  {
    var l := ListOf(s.lists, o);
    NoWrapWhenStarted(limits, l, o, r.start, r.end, r.mbs);
    OverlapIsLoadNow(l, r.start, r.end, r.start);
  }

  /** On none of its OSTs is the sum for `r` fooled by wrap-around. */
  ghost predicate Unwrapped(limits: map<string, uint32>, lists: map<string, seq<Reservation>>, r: Reservation) {
    forall o :: o in r.osts ==> !Fooled(limits, o, LoadAt(ListOf(lists, o), r.start), r.mbs)
  }

  lemma FittingIsUnwrapped(limits: map<string, uint32>, lists: map<string, seq<Reservation>>, r: Reservation)
    requires FitsWord(limits, r) && ListsWithinLimits(limits, lists)
    ensures Unwrapped(limits, lists, r)
  {
    forall o | o in r.osts ensures !Fooled(limits, o, LoadAt(ListOf(lists, o), r.start), r.mbs) {
      FittingIsNotFooled(limits, r, o, LoadAt(ListOf(lists, o), r.start));
    }
  }
}
