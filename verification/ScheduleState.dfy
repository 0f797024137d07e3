// The schedule (src/common/MemoryScheduleState.cpp): all live jobs by id, and for each OST a
// list of reservations ordered by start time.
//
// `erases` selects what RemoveJob does to the lists: false, as shipped, erases from a copy of
// each list; true erases from the stored list.
module ScheduleState {
  import opened Jobs

  datatype Entry = Entry(res: Reservation, state: JobState)

  datatype Schedule = Schedule(jobs: map<string, Entry>, lists: map<string, seq<Reservation>>)

  const EMPTY := Schedule(map[], map[])

  // ---------- the operations on values ----------

  function ListOf(lists: map<string, seq<Reservation>>, o: string): (l: seq<Reservation>) {
    if o in lists then lists[o] else []
  }

  /** In front of the first reservation that starts later. */
  function Inserted(l: seq<Reservation>, r: Reservation): (l': seq<Reservation>) {
    if l == [] || l[0].start > r.start then [r] + l else [l[0]] + Inserted(l[1..], r)
  }

  function Erased(l: seq<Reservation>, id: string): (l': seq<Reservation>) {
    if l == [] then [] else if l[0].jobid == id then l[1..] else [l[0]] + Erased(l[1..], id)
  }

  function AddedToLists(lists: map<string, seq<Reservation>>, r: Reservation, osts: seq<string>)
    : (m: map<string, seq<Reservation>>)
    decreases |osts|
  {
    if osts == [] then lists
    else AddedToLists(lists[osts[0] := Inserted(ListOf(lists, osts[0]), r)], r, osts[1..])
  }

  /** Naming a list that is not there creates it, even when nothing is erased. */
  function RemovedFromLists(erases: bool, lists: map<string, seq<Reservation>>, id: string, osts: seq<string>)
    : (m: map<string, seq<Reservation>>)
    decreases |osts|
  {
    if osts == [] then lists
    else
      var l := ListOf(lists, osts[0]);
      RemovedFromLists(erases, lists[osts[0] := if erases then Erased(l, id) else l], id, osts[1..])
  }

  function JobAdded(s: Schedule, id: string, e: Entry, osts: seq<string>): (s': Schedule) {
    if id in s.jobs then s else Schedule(s.jobs[id := e], AddedToLists(s.lists, e.res, osts))
  }

  function JobRemoved(erases: bool, s: Schedule, id: string): (s': Schedule) {
    if id !in s.jobs then s
    else Schedule(s.jobs - {id}, RemovedFromLists(erases, s.lists, id, s.jobs[id].res.osts))
  }

  function JobUpdated(s: Schedule, id: string, state: JobState): (s': Schedule) {
    if id !in s.jobs then s else s.(jobs := s.jobs[id := s.jobs[id].(state := state)])
  }

  /** What each operation does to the entry of job `k`, and when it changes nothing at all: AddJob for a known
      id, RemoveJob and UpdateJob for an unknown one. */
  lemma EntriesAfter(s: Schedule, id: string, e: Entry, osts: seq<string>, erases: bool, state: JobState, k: string)
    ensures var a := JobAdded(s, id, e, osts);
            && (id in s.jobs ==> a == s)
            && (k in a.jobs <==> k in s.jobs || k == id)
            && (k in a.jobs ==> a.jobs[k] == if k in s.jobs then s.jobs[k] else e)
    ensures var r := JobRemoved(erases, s, id);
            && (id !in s.jobs ==> r == s)
            && (k in r.jobs <==> k in s.jobs && k != id)
            && (k in r.jobs ==> r.jobs[k] == s.jobs[k])
    ensures var u := JobUpdated(s, id, state);
            && (id !in s.jobs ==> u == s)
            && u.lists == s.lists && (k in u.jobs <==> k in s.jobs)
            && (k in u.jobs ==> u.jobs[k].res == s.jobs[k].res)
            && (k in u.jobs ==> u.jobs[k].state == if k == id then state else s.jobs[k].state)
  {
  }

  // ---------- what happens to one list ----------

  lemma DistinctRest(osts: seq<string>)
    requires Distinct(osts) && osts != []
    ensures Distinct(osts[1..]) && osts[0] !in osts[1..]
    ensures forall o :: o in osts <==> o == osts[0] || o in osts[1..]
  {
    assert osts == [osts[0]] + osts[1..];
  }

  lemma {:induction false} AddedKeys(lists: map<string, seq<Reservation>>, r: Reservation, osts: seq<string>)
    ensures AddedToLists(lists, r, osts).Keys == lists.Keys + set x | x in osts
    decreases |osts|
  {
    if osts != [] {
      assert osts == [osts[0]] + osts[1..];
      AddedKeys(lists[osts[0] := Inserted(ListOf(lists, osts[0]), r)], r, osts[1..]);
    }
  }

  lemma {:induction false} AddedEntry(lists: map<string, seq<Reservation>>, r: Reservation, osts: seq<string>,
                                      o: string)
    requires Distinct(osts)
    ensures ListOf(AddedToLists(lists, r, osts), o)
         == if o in osts then Inserted(ListOf(lists, o), r) else ListOf(lists, o)
    decreases |osts|
  {
    if osts != [] {
      DistinctRest(osts);
      AddedEntry(lists[osts[0] := Inserted(ListOf(lists, osts[0]), r)], r, osts[1..], o);
    }
  }

  lemma AddedList(lists: map<string, seq<Reservation>>, r: Reservation, osts: seq<string>, o: string)
    requires Distinct(osts)
    ensures ListOf(AddedToLists(lists, r, osts), o)
         == if o in osts then Inserted(ListOf(lists, o), r) else ListOf(lists, o)
    ensures AddedToLists(lists, r, osts).Keys == lists.Keys + set x | x in osts
  {
    AddedEntry(lists, r, osts, o);
    AddedKeys(lists, r, osts);
  }

  /** The list that RemoveJob leaves for one OST. */
  function ListAfter(erases: bool, lists: map<string, seq<Reservation>>, id: string, o: string): (l: seq<Reservation>) {
    if erases then Erased(ListOf(lists, o), id) else ListOf(lists, o)
  }

  lemma {:induction false} RemovedKeys(erases: bool, lists: map<string, seq<Reservation>>, id: string,
                                       osts: seq<string>)
    ensures RemovedFromLists(erases, lists, id, osts).Keys == lists.Keys + set x | x in osts
    decreases |osts|
  {
    if osts != [] {
      assert osts == [osts[0]] + osts[1..];
      RemovedKeys(erases, lists[osts[0] := ListAfter(erases, lists, id, osts[0])], id, osts[1..]);
    }
  }

  lemma {:induction false} RemovedEntry(erases: bool, lists: map<string, seq<Reservation>>, id: string,
                                        osts: seq<string>, o: string)
    requires Distinct(osts)
    ensures ListOf(RemovedFromLists(erases, lists, id, osts), o)
         == if o in osts then ListAfter(erases, lists, id, o) else ListOf(lists, o)
    decreases |osts|
  {
    if osts != [] {
      DistinctRest(osts);
      RemovedEntry(erases, lists[osts[0] := ListAfter(erases, lists, id, osts[0])], id, osts[1..], o);
    }
  }

  lemma RemovedList(erases: bool, lists: map<string, seq<Reservation>>, id: string, osts: seq<string>, o: string)
    requires Distinct(osts)
    ensures ListOf(RemovedFromLists(erases, lists, id, osts), o)
         == if erases && o in osts then Erased(ListOf(lists, o), id) else ListOf(lists, o)
    ensures RemovedFromLists(erases, lists, id, osts).Keys == lists.Keys + set x | x in osts
  {
    RemovedEntry(erases, lists, id, osts, o);
    RemovedKeys(erases, lists, id, osts);
  }

  // ---------- the reference: a stable sort by start time ----------

  ghost predicate Sorted(l: seq<Reservation>) {
    forall i, j :: 0 <= i < j < |l| ==> l[i].start <= l[j].start
  }

  /** The reservations of `h` in order of start, earlier insertions first among equals. */
  function SortByStart(h: seq<Reservation>): (l: seq<Reservation>) {
    if h == [] then [] else Inserted(SortByStart(h[..|h| - 1]), h[|h| - 1])
  }

  /** Those of `h` that ask for OST `o`, in the same order. */
  function On(h: seq<Reservation>, o: string): (l: seq<Reservation>) {
    if h == [] then []
    else
      var last := h[|h| - 1];
      On(h[..|h| - 1], o) + if o in last.osts then [last] else []
  }

  /** Those of `h` that start at `t`, in the same order. */
  function StartingAt(h: seq<Reservation>, t: int): (l: seq<Reservation>) {
    if h == [] then [] else (if h[0].start == t then [h[0]] else []) + StartingAt(h[1..], t)
  }

  lemma SortedCons(x: Reservation, l: seq<Reservation>)
    requires Sorted(l) && forall y :: y in multiset(l) ==> x.start <= y.start
    ensures Sorted([x] + l)
  {
    forall k | 0 <= k < |l| ensures x.start <= l[k].start {
      assert l[k] in multiset(l);
    }
  }

  lemma {:induction false} InsertedContents(l: seq<Reservation>, r: Reservation)
    ensures multiset(Inserted(l, r)) == multiset(l) + multiset{r}
  {
    if l != [] {
      assert l == [l[0]] + l[1..];
      if l[0].start <= r.start {
        InsertedContents(l[1..], r);
      }
    }
  }

  lemma {:induction false} InsertedIsSorted(l: seq<Reservation>, r: Reservation)
    requires Sorted(l)
    ensures Sorted(Inserted(l, r))
  {
    if l == [] {
    } else if l[0].start > r.start {
      SortedCons(r, l);
    } else {
      InsertedIsSorted(l[1..], r);
      InsertedContents(l[1..], r);
      SortedCons(l[0], Inserted(l[1..], r));
    }
  }

  lemma StartingAtCons(x: Reservation, l: seq<Reservation>, t: int)
    ensures StartingAt([x] + l, t) == (if x.start == t then [x] else []) + StartingAt(l, t)
  {
    assert ([x] + l)[1..] == l;
  }

  lemma {:induction false} StartingAtAppend(l: seq<Reservation>, r: Reservation, t: int)
    ensures StartingAt(l + [r], t) == StartingAt(l, t) + if r.start == t then [r] else []
  {
    if l != [] {
      assert (l + [r])[1..] == l[1..] + [r];
      StartingAtAppend(l[1..], r, t);
    }
  }

  lemma {:induction false} NoneStartsAt(l: seq<Reservation>, t: int)
    requires forall i :: 0 <= i < |l| ==> l[i].start != t
    ensures StartingAt(l, t) == []
  {
    if l != [] {
      NoneStartsAt(l[1..], t);
    }
  }

  lemma {:induction false} InsertedKeepsTies(l: seq<Reservation>, r: Reservation, t: int)
    requires Sorted(l)
    ensures StartingAt(Inserted(l, r), t) == StartingAt(l, t) + if r.start == t then [r] else []
  {
    if l != [] {
      if l[0].start > r.start {
        if r.start == t {
          NoneStartsAt(l, t);
        }
        StartingAtCons(r, l, t);
      } else {
        InsertedKeepsTies(l[1..], r, t);
        StartingAtCons(l[0], Inserted(l[1..], r), t);
      }
    }
  }

  /** SortByStart is a stable sort: ordered, the same reservations, ties left as they came. */
  lemma {:induction false} SortByStartIsStable(h: seq<Reservation>)
    ensures Sorted(SortByStart(h)) && multiset(SortByStart(h)) == multiset(h)
    ensures forall t :: StartingAt(SortByStart(h), t) == StartingAt(h, t)
    decreases |h|
  {
    if h != [] {
      var front, last := h[..|h| - 1], h[|h| - 1];
      assert h == front + [last];
      SortByStartIsStable(front);
      InsertedIsSorted(SortByStart(front), last);
      InsertedContents(SortByStart(front), last);
      forall t ensures StartingAt(SortByStart(h), t) == StartingAt(h, t) {
        InsertedKeepsTies(SortByStart(front), last, t);
        StartingAtAppend(front, last, t);
      }
    }
  }

  // ---------- erasing commutes with sorting ----------

  ghost predicate HasId(l: seq<Reservation>, id: string) {
    exists i :: 0 <= i < |l| && l[i].jobid == id
  }

  ghost predicate DistinctIds(h: seq<Reservation>) {
    forall i, j :: 0 <= i < j < |h| ==> h[i].jobid != h[j].jobid
  }

  lemma {:induction false} ErasedAbsent(l: seq<Reservation>, id: string)
    requires !HasId(l, id)
    ensures Erased(l, id) == l
  {
    if l != [] {
      ErasedAbsent(l[1..], id);
    }
  }

  /** Insert then erase is the identity: the list side of undoing an AddJob. */
  lemma {:induction false} ErasedInserted(l: seq<Reservation>, r: Reservation)
    requires !HasId(l, r.jobid)
    ensures Erased(Inserted(l, r), r.jobid) == l
  {
    if l != [] {
      if l[0].start > r.start {
        assert ([r] + l)[1..] == l;
      } else {
        ErasedInserted(l[1..], r);
        assert ([l[0]] + Inserted(l[1..], r))[1..] == Inserted(l[1..], r);
      }
    }
  }

  lemma ErasedCons(x: Reservation, l: seq<Reservation>, id: string)
    ensures Erased([x] + l, id) == if x.jobid == id then l else [x] + Erased(l, id)
  {
    assert ([x] + l)[1..] == l;
  }

  lemma {:induction false} InsertedBefore(l: seq<Reservation>, r: Reservation)
    requires forall i :: 0 <= i < |l| ==> r.start < l[i].start
    ensures Inserted(l, r) == [r] + l
  {
  }

  lemma {:induction false} InsertErasedCommute(l: seq<Reservation>, r: Reservation, id: string)
    requires Sorted(l) && r.jobid != id
    ensures Erased(Inserted(l, r), id) == Inserted(Erased(l, id), r)
  {
    if l == [] {
      ErasedCons(r, [], id);
    } else if l[0].start > r.start {
      ErasedCons(r, l, id);
      if l[0].jobid == id {
        InsertedBefore(l[1..], r);
      }
    } else {
      ErasedCons(l[0], Inserted(l[1..], r), id);
      if l[0].jobid != id {
        InsertErasedCommute(l[1..], r, id);
        var tail := Erased(l[1..], id);
        assert ([l[0]] + tail)[1..] == tail;
      }
    }
  }

  /** The history of live jobs without `id`. */
  function Without(h: seq<Reservation>, id: string): (h': seq<Reservation>) {
    if h == [] then []
    else if h[|h| - 1].jobid == id then h[..|h| - 1]
    else Without(h[..|h| - 1], id) + [h[|h| - 1]]
  }

  lemma {:induction false} WithoutContents(h: seq<Reservation>, id: string)
    requires DistinctIds(h)
    ensures forall x :: x in Without(h, id) <==> x in h && x.jobid != id
    ensures DistinctIds(Without(h, id))
  {
    if h != [] {
      var front, last := h[..|h| - 1], h[|h| - 1];
      assert h == front + [last];
      if last.jobid != id {
        WithoutContents(front, id);
        var w := Without(front, id);
        forall i | 0 <= i < |w| ensures w[i].jobid != last.jobid {
          assert w[i] in w;
          assert w[i] in front;
        }
      }
    }
  }

  lemma {:induction false} OnContents(h: seq<Reservation>, o: string)
    ensures forall x :: x in On(h, o) <==> x in h && o in x.osts
  {
    if h != [] {
      assert h == h[..|h| - 1] + [h[|h| - 1]];
      OnContents(h[..|h| - 1], o);
    }
  }

  lemma {:induction false} OnDistinctIds(h: seq<Reservation>, o: string)
    requires DistinctIds(h)
    ensures DistinctIds(On(h, o))
  {
    if h != [] {
      var front, last := h[..|h| - 1], h[|h| - 1];
      OnDistinctIds(front, o);
      OnContents(front, o);
      var w := On(front, o);
      forall i | 0 <= i < |w| ensures w[i].jobid != last.jobid {
        assert w[i] in w;
        assert w[i] in front;
      }
    }
  }

  lemma OnAppend(h: seq<Reservation>, r: Reservation, o: string)
    ensures On(h + [r], o) == On(h, o) + if o in r.osts then [r] else []
  {
    assert (h + [r])[..|h|] == h;
  }

  lemma SortAppend(h: seq<Reservation>, r: Reservation)
    ensures SortByStart(h + [r]) == Inserted(SortByStart(h), r)
  {
    assert (h + [r])[..|h|] == h;
  }

  lemma SortHasId(h: seq<Reservation>, id: string)
    ensures HasId(SortByStart(h), id) <==> HasId(h, id)
  {
    SortByStartIsStable(h);
    var l := SortByStart(h);
    if HasId(h, id) {
      var i :| 0 <= i < |h| && h[i].jobid == id;
      assert h[i] in multiset(h);
      assert h[i] in multiset(l);
    }
    if HasId(l, id) {
      var i :| 0 <= i < |l| && l[i].jobid == id;
      assert l[i] in multiset(l);
      assert l[i] in multiset(h);
    }
  }

  lemma {:induction false} EraseFromSorted(h: seq<Reservation>, id: string)
    requires DistinctIds(h)
    ensures Erased(SortByStart(h), id) == SortByStart(Without(h, id))
    decreases |h|
  {
    if h != [] {
      var front, last := h[..|h| - 1], h[|h| - 1];
      SortByStartIsStable(front);
      if last.jobid == id {
        assert !HasId(front, id);
        SortHasId(front, id);
        ErasedInserted(SortByStart(front), last);
      } else {
        EraseFromSorted(front, id);
        InsertErasedCommute(SortByStart(front), last, id);
        SortAppend(Without(front, id), last);
      }
    }
  }

  lemma {:induction false} WithoutAbsent(h: seq<Reservation>, id: string)
    requires forall x :: x in h ==> x.jobid != id
    ensures Without(h, id) == h
    decreases |h|
  {
    if h != [] {
      assert h[|h| - 1] in h;
      WithoutAbsent(h[..|h| - 1], id);
    }
  }

  lemma {:induction false} OnWithout(h: seq<Reservation>, id: string, o: string)
    requires DistinctIds(h)
    ensures On(Without(h, id), o) == Without(On(h, o), id)
    decreases |h|
  {
    if h != [] {
      var front, last := h[..|h| - 1], h[|h| - 1];
      OnAppend(front, last, o);
      assert h == front + [last];
      if last.jobid == id {
        OnContents(front, o);
        var w := On(front, o);
        if o in last.osts {
          assert (w + [last])[..|w|] == w;
        } else {
          assert On(h, o) == w;
          WithoutAbsent(w, id);
        }
      } else {
        OnWithout(front, id, o);
        OnAppend(Without(front, id), last, o);
        var w := On(front, o);
        if o in last.osts {
          assert (w + [last])[..|w|] == w;
        } else {
          assert On(h, o) == w;
        }
      }
    }
  }

  // ---------- the schedule against its history of live insertions ----------

  /** `h` names exactly the live jobs. */
  ghost predicate Roster(jobs: map<string, Entry>, h: seq<Reservation>) {
    && DistinctIds(h)
    && (forall r :: r in h ==> r.jobid in jobs && jobs[r.jobid].res == r && Distinct(r.osts))
    && (forall id :: id in jobs ==> jobs[id].res in h && jobs[id].res.jobid == id)
  }

  /** `h` lists the live jobs in the order they were added; the lists are its stable sorts. */
  ghost predicate Represents(s: Schedule, h: seq<Reservation>) {
    Roster(s.jobs, h) && forall o :: ListOf(s.lists, o) == SortByStart(On(h, o))
  }

  lemma EmptyRepresents()
    ensures Represents(EMPTY, [])
  {
  }

  lemma RosterGrows(jobs: map<string, Entry>, h: seq<Reservation>, e: Entry)
    requires Roster(jobs, h) && Distinct(e.res.osts) && e.res.jobid !in jobs
    ensures Roster(jobs[e.res.jobid := e], h + [e.res])
  {
    forall i | 0 <= i < |h| ensures h[i].jobid != e.res.jobid {
      assert h[i] in h;
    }
    forall id | id in jobs ensures jobs[id].res in h + [e.res] {
      assert jobs[id].res in h;
    }
  }

  lemma AddRepresents(s: Schedule, h: seq<Reservation>, e: Entry)
    requires Represents(s, h) && Distinct(e.res.osts) && e.res.jobid !in s.jobs
    ensures Represents(JobAdded(s, e.res.jobid, e, e.res.osts), h + [e.res])
  {
    var s' := JobAdded(s, e.res.jobid, e, e.res.osts);
    RosterGrows(s.jobs, h, e);
    forall o ensures ListOf(s'.lists, o) == SortByStart(On(h + [e.res], o)) {
      AddedList(s.lists, e.res, e.res.osts, o);
      OnAppend(h, e.res, o);
      SortAppend(On(h, o), e.res);
      assert On(h, o) + [] == On(h, o);
    }
  }

  lemma RemoveKeepsList(s: Schedule, h: seq<Reservation>, id: string, o: string)
    requires Represents(s, h) && id in s.jobs
    ensures ListOf(JobRemoved(true, s, id).lists, o) == Erased(SortByStart(On(h, o)), id)
  {
    var osts := s.jobs[id].res.osts;
    assert ListOf(s.lists, o) == SortByStart(On(h, o));
    RemovedEntry(true, s.lists, id, osts, o);
    if o !in osts {
      OnContents(h, o);
      assert !HasId(On(h, o), id);
      SortHasId(On(h, o), id);
      ErasedAbsent(SortByStart(On(h, o)), id);
    }
  }

  lemma RosterShrinks(jobs: map<string, Entry>, h: seq<Reservation>, id: string)
    requires Roster(jobs, h) && id in jobs
    ensures Roster(jobs - {id}, Without(h, id))
  {
    WithoutContents(h, id);
  }

  lemma ListOfShrunk(h: seq<Reservation>, id: string, o: string)
    requires DistinctIds(h)
    ensures Erased(SortByStart(On(h, o)), id) == SortByStart(On(Without(h, id), o))
  {
    OnWithout(h, id, o);
    OnDistinctIds(h, o);
    EraseFromSorted(On(h, o), id);
  }

  lemma RemoveRepresents(s: Schedule, h: seq<Reservation>, id: string)
    requires Represents(s, h) && id in s.jobs
    ensures Represents(JobRemoved(true, s, id), Without(h, id))
  {
    RosterShrinks(s.jobs, h, id);
    forall o ensures ListOf(JobRemoved(true, s, id).lists, o) == SortByStart(On(Without(h, id), o)) {
      RemoveKeepsList(s, h, id, o);
      ListOfShrunk(h, id, o);
    }
  }

  lemma UpdateRepresents(s: Schedule, h: seq<Reservation>, id: string, state: JobState)
    requires Represents(s, h)
    ensures Represents(JobUpdated(s, id, state), h)
  {
    var s' := JobUpdated(s, id, state);
    assert s'.lists == s.lists;
  }

  lemma OnceOnly(a: seq<Reservation>, k: nat)
    requires DistinctIds(a) && k < |a|
    ensures multiset(a)[a[k]] == 1
  {
    assert a == a[..k] + [a[k]] + a[k + 1..];
    assert a[k] !in a[..k] && a[k] !in a[k + 1..];
  }

  lemma TwiceIn(b: seq<Reservation>, i: nat, j: nat)
    requires i < j < |b| && b[i] == b[j]
    ensures multiset(b)[b[i]] >= 2
  {
    assert b == b[..i] + [b[i]] + b[i + 1..j] + [b[j]] + b[j + 1..];
  }

  lemma {:induction false} PermutedIdsDistinct(a: seq<Reservation>, b: seq<Reservation>)
    requires DistinctIds(a) && multiset(a) == multiset(b)
    ensures DistinctIds(b)
  {
    forall i, j | 0 <= i < j < |b| ensures b[i].jobid != b[j].jobid {
      assert b[i] in multiset(a) && b[j] in multiset(a);
      if b[i].jobid == b[j].jobid {
        var k :| 0 <= k < |a| && a[k] == b[i];
        assert a[k] == b[j];
        OnceOnly(a, k);
        TwiceIn(b, i, j);
      }
    }
  }

  lemma OnIsRoster(jobs: map<string, Entry>, h: seq<Reservation>, o: string)
    requires Roster(jobs, h)
    ensures forall r :: r in On(h, o) <==> r.jobid in jobs && jobs[r.jobid].res == r && o in r.osts
  {
    OnContents(h, o);
  }

  lemma SameMembers(a: seq<Reservation>, b: seq<Reservation>)
    requires multiset(a) == multiset(b)
    ensures forall r :: r in a <==> r in b
  {
    assert forall r :: r in a <==> r in multiset(a);
    assert forall r :: r in b <==> r in multiset(b);
  }

  /** What the reference says of one list: ordered, and the live jobs of that OST once each. */
  lemma IndexAgreement(s: Schedule, h: seq<Reservation>, o: string)
    requires Represents(s, h)
    ensures Sorted(ListOf(s.lists, o)) && DistinctIds(ListOf(s.lists, o))
    ensures forall r :: r in ListOf(s.lists, o) <==> r.jobid in s.jobs && s.jobs[r.jobid].res == r && o in r.osts
    ensures forall t :: StartingAt(ListOf(s.lists, o), t) == StartingAt(On(h, o), t)
  {
    var w, l := On(h, o), ListOf(s.lists, o);
    SortByStartIsStable(w);
    OnDistinctIds(h, o);
    PermutedIdsDistinct(w, l);
    OnIsRoster(s.jobs, h, o);
    SameMembers(w, l);
  }

  // ---------- the weaker fact that holds with and without the erase ----------

  /** Lists stay ordered and miss no live job; they may hold jobs that are gone. */
  ghost predicate Covered(s: Schedule) {
    && (forall o :: Sorted(ListOf(s.lists, o)))
    && (forall id :: id in s.jobs ==> s.jobs[id].res.jobid == id && Distinct(s.jobs[id].res.osts))
    && (forall id, o :: id in s.jobs && o in s.jobs[id].res.osts ==> s.jobs[id].res in ListOf(s.lists, o))
  }

  lemma {:induction false} ErasedKeeps(l: seq<Reservation>, id: string)
    requires Sorted(l)
    ensures Sorted(Erased(l, id))
    ensures forall x :: x in Erased(l, id) ==> x in l
    ensures forall x :: x in l && x.jobid != id ==> x in Erased(l, id)
  {
    if l != [] && l[0].jobid != id {
      ErasedKeeps(l[1..], id);
      var tail := Erased(l[1..], id);
      forall y: Reservation | y in multiset(tail) ensures l[0].start <= y.start {
        assert y in tail;
        assert y in l[1..];
      }
      SortedCons(l[0], tail);
      assert l == [l[0]] + l[1..];
    } else if l != [] {
      assert l == [l[0]] + l[1..];
    }
  }

  lemma AddCovered(s: Schedule, e: Entry)
    requires Covered(s) && Distinct(e.res.osts)
    ensures Covered(JobAdded(s, e.res.jobid, e, e.res.osts))
  {
    if e.res.jobid !in s.jobs {
      var s' := JobAdded(s, e.res.jobid, e, e.res.osts);
      forall o ensures Sorted(ListOf(s'.lists, o)) {
        AddedList(s.lists, e.res, e.res.osts, o);
        InsertedIsSorted(ListOf(s.lists, o), e.res);
      }
      forall id, o | id in s'.jobs && o in s'.jobs[id].res.osts ensures s'.jobs[id].res in ListOf(s'.lists, o) {
        AddedList(s.lists, e.res, e.res.osts, o);
        InsertedContents(ListOf(s.lists, o), e.res);
        assert s'.jobs[id].res in multiset(ListOf(s'.lists, o));
      }
    }
  }

  lemma RemoveCovered(erases: bool, s: Schedule, id: string)
    requires Covered(s)
    ensures Covered(JobRemoved(erases, s, id))
    ensures !erases ==> forall o :: ListOf(JobRemoved(erases, s, id).lists, o) == ListOf(s.lists, o)
  {
    if id in s.jobs {
      var s' := JobRemoved(erases, s, id);
      forall o ensures Sorted(ListOf(s'.lists, o)) && (!erases ==> ListOf(s'.lists, o) == ListOf(s.lists, o)) {
        RemovedList(erases, s.lists, id, s.jobs[id].res.osts, o);
        ErasedKeeps(ListOf(s.lists, o), id);
      }
      forall k, o | k in s'.jobs && o in s'.jobs[k].res.osts ensures s'.jobs[k].res in ListOf(s'.lists, o) {
        RemovedList(erases, s.lists, id, s.jobs[id].res.osts, o);
        ErasedKeeps(ListOf(s.lists, o), id);
      }
    }
  }

  // ---------- undoing an AddJob ----------

  lemma RollbackOneList(erases: bool, s: Schedule, e: Entry, o: string)
    requires e.res.jobid !in s.jobs && Distinct(e.res.osts) && !HasId(ListOf(s.lists, o), e.res.jobid)
    ensures var undone := JobRemoved(erases, JobAdded(s, e.res.jobid, e, e.res.osts), e.res.jobid);
            && ListOf(undone.lists, o)
               == (if erases || o !in e.res.osts then ListOf(s.lists, o) else Inserted(ListOf(s.lists, o), e.res))
            && undone.lists.Keys == s.lists.Keys + set x | x in e.res.osts
  {
    var added := JobAdded(s, e.res.jobid, e, e.res.osts);
    AddedList(s.lists, e.res, e.res.osts, o);
    RemovedList(erases, added.lists, e.res.jobid, e.res.osts, o);
    ErasedInserted(ListOf(s.lists, o), e.res);
  }

  lemma InsertedDiffers(l: seq<Reservation>, r: Reservation)
    ensures Inserted(l, r) != l
  {
    InsertedContents(l, r);
    assert |multiset(Inserted(l, r))| == |l| + 1;
  }

  /** RemoveJob undoes AddJob, list by list, up to empty lists it leaves behind; as shipped this
      is so only for a job without OSTs. */
  lemma RollbackRestores(erases: bool, s: Schedule, e: Entry)
    requires e.res.jobid !in s.jobs && Distinct(e.res.osts)
    requires forall o :: !HasId(ListOf(s.lists, o), e.res.jobid)
    ensures var undone := JobRemoved(erases, JobAdded(s, e.res.jobid, e, e.res.osts), e.res.jobid);
            && undone.jobs == s.jobs
            && undone.lists.Keys == s.lists.Keys + set o | o in e.res.osts
            && ((forall o :: ListOf(undone.lists, o) == ListOf(s.lists, o)) <==> (erases || e.res.osts == []))
  {
    var undone := JobRemoved(erases, JobAdded(s, e.res.jobid, e, e.res.osts), e.res.jobid);
    forall o
      ensures ListOf(undone.lists, o)
           == if erases || o !in e.res.osts then ListOf(s.lists, o) else Inserted(ListOf(s.lists, o), e.res)
    {
      RollbackOneList(erases, s, e, o);
    }
    RollbackOneList(erases, s, e, "");
    if !erases && e.res.osts != [] {
      InsertedDiffers(ListOf(s.lists, e.res.osts[0]), e.res);
      assert ListOf(undone.lists, e.res.osts[0]) != ListOf(s.lists, e.res.osts[0]);
    }
  }
}
