// Admission while the monitor is at work: the scheduler checks one OST after another and then adds
// the job, and the monitor may change the schedule between any two of these steps
// (src/common/JobSchedulerStaticWorkloads.cpp:40-68).
module Capacity {
  import opened Jobs
  import opened ScheduleState
  import opened Admission
  import opened Engine

  lemma UpdateKeepsCovered(s: Schedule, id: string, state: JobState)
    requires Covered(s)
    ensures Covered(JobUpdated(s, id, state)) && JobUpdated(s, id, state).lists == s.lists
  {
    var s' := JobUpdated(s, id, state);
    assert s'.lists == s.lists;
    forall k | k in s'.jobs ensures s'.jobs[k].res == s.jobs[k].res {
    }
  }

  /** The part of a schedule that admission relies on. */
  ghost predicate WithinCapacity(c: Config, sched: Schedule, now: int) {
    Covered(sched) && ListsWithinLimits(c.limits, sched.lists) && AllStartedBy(sched.lists, now)
  }

  /** An admission in progress: every OST checked so far still has room. */
  ghost predicate ChecksHold(c: Config, sched: Schedule, r: Reservation, next: nat) {
    && next <= |r.osts| && Distinct(r.osts) && r.start <= r.end
    && AllStartedBy(sched.lists, r.start)
    && forall i :: 0 <= i < next ==> RoomOn(c.limits, sched.lists, r, r.osts[i])
  }

  ghost predicate CapacityInv(c: Config, s: State) {
    && WithinCapacity(c, s.sched, s.clock)
    && (s.srv.SCheck? ==> s.srv.r.start <= s.clock && ChecksHold(c, s.sched, s.srv.r, s.srv.next))
  }

  /** What the two threads do to the schedule, other than adding a job. */
  ghost predicate Shrinks(c: Config, before: Schedule, after: Schedule) {
    || after == before
    || (exists id :: after == JobRemoved(c.listErased, before, id))
    || (exists id, state :: after == JobUpdated(before, id, state))
  }

  /** Such a change leaves the capacity promise and every check already passed intact. */
  lemma ShrinkKeepsCapacity(c: Config, before: Schedule, after: Schedule, now: int)
    requires Shrinks(c, before, after) && WithinCapacity(c, before, now)
    ensures WithinCapacity(c, after, now)
  {
    if after == before {
    } else if id :| after == JobRemoved(c.listErased, before, id) {
      RemoveCovered(c.listErased, before, id);
      RemoveKeepsLimits(c.limits, c.listErased, before, id);
      RemoveKeepsStarted(c.listErased, before, id, now);
    } else {
      var id, state :| after == JobUpdated(before, id, state);
      UpdateKeepsCovered(before, id, state);
    }
  }

  lemma ShrinkKeepsChecks(c: Config, before: Schedule, after: Schedule, r: Reservation, next: nat)
    requires Shrinks(c, before, after) && Covered(before) && ChecksHold(c, before, r, next)
    ensures ChecksHold(c, after, r, next)
  {
    if after == before {
    } else if id :| after == JobRemoved(c.listErased, before, id) {
      RemoveKeepsStarted(c.listErased, before, id, r.start);
      forall i | 0 <= i < next ensures RoomOn(c.limits, after.lists, r, r.osts[i]) {
        RemoveKeepsRoom(c.limits, c.listErased, before, id, r, r.osts[i]);
      }
    } else {
      var id, state :| after == JobUpdated(before, id, state);
      UpdateKeepsCovered(before, id, state);
    }
  }

  lemma MonShrinks(c: Config, s: State, x: Oracle)
    requires MonEnabled(s)
    ensures Shrinks(c, s.sched, MonStep(c, s, x).sched) && MonStep(c, s, x).srv == s.srv
    ensures MonStep(c, s, x).clock == s.clock
  {
  }

  lemma SrvShrinks(c: Config, s: State, x: Oracle)
    requires SrvEnabled(s) && !s.srv.SCheck?
    ensures Shrinks(c, s.sched, SrvStep(c, s, x).sched) && !SrvStep(c, s, x).srv.SCheck?
    ensures SrvStep(c, s, x).clock == s.clock
  {
  }

  /** The check taken in this step, if any, is not fooled by wrap-around. */
  predicate Unfooled(c: Config, s: State, st: Step) {
    st.Srv? && s.srv.SCheck? && s.srv.next < |s.srv.r.osts| ==>
      var r, o := s.srv.r, s.srv.r.osts[s.srv.next];
      !Fooled(c.limits, o, LoadWord(ListOf(s.sched.lists, o), r.start, r.end), r.mbs)
  }

  function UnfooledIn(c: Config): (ok: (State, Step) -> bool) {
    (s: State, st: Step) => Unfooled(c, s, st)
  }

  lemma CheckedLoad(c: Config, s: State, o: string)
    requires CapacityInv(c, s) && s.srv.SCheck? && o in c.limits
    ensures var l, r := ListOf(s.sched.lists, o), s.srv.r;
            LoadWord(l, r.start, r.end) == LoadAt(l, r.start) <= c.limits[o]
  {
    NoWrapWhenStarted(c.limits, ListOf(s.sched.lists, o), o, s.srv.r.start, s.srv.r.end, 0);
  }

  lemma CheckKeepsCapacity(c: Config, s: State, x: Oracle)
    requires c.loadStored && CapacityInv(c, s) && s.srv.SCheck? && Unfooled(c, s, Srv(x))
    ensures CapacityInv(c, SrvStep(c, s, x))
  {
    var r, next := s.srv.r, s.srv.next;
    var s' := SrvStep(c, s, x);
    if next < |r.osts| {
      var o := r.osts[next];
      if o in c.limits {
        CheckedLoad(c, s, o);
        CheckIsSafe(c.limits, s.sched, r, o);
      }
    } else if r.jobid !in s.sched.jobs {
      AddCovered(s.sched, Entry(r, Scheduled));
      AddKeepsLimits(c.limits, s.sched.lists, r);
      AddKeepsStarted(s.sched.lists, r, s.clock);
    }
  }

  lemma StepKeepsCapacity(c: Config, s: State, st: Step)
    requires c.loadStored && CapacityInv(c, s) && Enabled(s, st) && Unfooled(c, s, st)
    ensures CapacityInv(c, Next(c, s, st))
  {
    var s' := Next(c, s, st);
    if st.Mon? {
      MonShrinks(c, s, st.x);
      ShrinkKeepsCapacity(c, s.sched, s'.sched, s.clock);
      if s.srv.SCheck? {
        ShrinkKeepsChecks(c, s.sched, s'.sched, s.srv.r, s.srv.next);
      }
    } else if st.Srv? && s.srv.SCheck? {
      CheckKeepsCapacity(c, s, st.x);
    } else if st.Srv? {
      SrvShrinks(c, s, st.x);
      ShrinkKeepsCapacity(c, s.sched, s'.sched, s.clock);
    } else {
      assert s'.sched == s.sched && s.clock <= s'.clock;
      assert AllStartedBy(s'.sched.lists, s'.clock);
    }
  }

  lemma {:induction false} CapacityRuns(c: Config, s: State, steps: seq<Step>)
    requires c.loadStored && CapacityInv(c, s) && Run(c, s, steps).Some? && Along(c, s, steps, UnfooledIn(c))
    ensures CapacityInv(c, Run(c, s, steps).value)
    decreases |steps|
  {
    if steps != [] {
      var front := steps[..|steps| - 1];
      CapacityRuns(c, s, front);
      StepKeepsCapacity(c, Run(c, s, front).value, steps[|steps| - 1]);
    }
  }

  lemma StartWithinCapacity(c: Config, now: int)
    ensures CapacityInv(c, Start(now))
  {
    forall o, t ensures LoadAt(ListOf(EMPTY.lists, o), t) == 0 {
    }
  }

  /** Capacity: in every run, at every OST and every instant, the live reservations stay within the
      limit, however the monitor's steps fall between the checks and the insertion. RemoveJob may be
      as shipped or corrected; the load must be stored, and no check may be fooled by wrap-around. */
  lemma NeverOverCapacity(c: Config, now: int, steps: seq<Step>, o: string, t: int)
    requires c.loadStored && Run(c, Start(now), steps).Some? && o in c.limits
    requires Along(c, Start(now), steps, UnfooledIn(c))
    ensures LiveLoad(Run(c, Start(now), steps).value.sched.jobs, o, t) <= c.limits[o]
  {
    StartWithinCapacity(c, now);
    CapacityRuns(c, Start(now), steps);
    ListsBoundLive(c.limits, Run(c, Start(now), steps).value.sched);
  }

  lemma FittingCheckIsUnfooled(c: Config, s: State, st: Step)
    requires CapacityInv(c, s) && (s.srv.SCheck? ==> FitsWord(c.limits, s.srv.r))
    ensures Unfooled(c, s, st)
  {
    if s.srv.SCheck? && s.srv.next < |s.srv.r.osts| {
      var o := s.srv.r.osts[s.srv.next];
      if o in c.limits {
        CheckedLoad(c, s, o);
        FittingIsNotFooled(c.limits, s.srv.r, o, LoadWord(ListOf(s.sched.lists, o), s.srv.r.start, s.srv.r.end));
      }
    }
  }

  lemma RequestStays(c: Config, s: State, st: Step)
    requires Enabled(s, st)
    ensures Next(c, s, st).srv.SCheck? ==>
              if st.Submit? then Next(c, s, st).srv.r == st.r else s.srv.SCheck? && Next(c, s, st).srv.r == s.srv.r
  {
  }

  /** The request being checked is one that was submitted. */
  lemma {:induction false} CheckedWasSubmitted(c: Config, now: int, steps: seq<Step>)
    requires Run(c, Start(now), steps).Some?
    requires forall st :: st in steps && st.Submit? ==> FitsWord(c.limits, st.r)
    ensures var srv := Run(c, Start(now), steps).value.srv; srv.SCheck? ==> FitsWord(c.limits, srv.r)
    decreases |steps|
  {
    if steps != [] {
      var front, last := steps[..|steps| - 1], steps[|steps| - 1];
      assert last in steps && forall st :: st in front ==> st in steps;
      CheckedWasSubmitted(c, now, front);
      RequestStays(c, Run(c, Start(now), front).value, last);
    }
  }

  /** Requests that fit the machine word next to the limits never fool a check. */
  lemma {:induction false} FittingRequestsNeverFool(c: Config, now: int, steps: seq<Step>)
    requires c.loadStored && Run(c, Start(now), steps).Some?
    requires forall st :: st in steps && st.Submit? ==> FitsWord(c.limits, st.r)
    ensures Along(c, Start(now), steps, UnfooledIn(c))
    decreases |steps|
  {
    if steps != [] {
      var front, last := steps[..|steps| - 1], steps[|steps| - 1];
      assert forall st :: st in front ==> st in steps;
      FittingRequestsNeverFool(c, now, front);
      CheckedWasSubmitted(c, now, front);
      StartWithinCapacity(c, now);
      CapacityRuns(c, Start(now), front);
      FittingCheckIsUnfooled(c, Run(c, Start(now), front).value, last);
    }
  }

  /** In those runs the load loop never wraps: whenever the server checks a request, every partial sum
      over the list of an OST with a limit is the real sum and stays within that limit, and the 32-bit
      comparison decides as the real one if and only if it is not fooled. */
  lemma LoadNeverWraps(c: Config, now: int, steps: seq<Step>, o: string)
    requires c.loadStored && Run(c, Start(now), steps).Some? && Along(c, Start(now), steps, UnfooledIn(c))
    requires Run(c, Start(now), steps).value.srv.SCheck? && o in c.limits
    ensures var s := Run(c, Start(now), steps).value;
            var r, l := s.srv.r, ListOf(s.sched.lists, o);
            && (forall k :: 0 <= k <= |l| ==>
                  LoadWord(l[..k], r.start, r.end) == Overlap(l[..k], r.start, r.end) <= c.limits[o])
            && ((EnoughResources(c.limits, o, LoadWord(l, r.start, r.end), r.mbs)
                 <==> Overlap(l, r.start, r.end) + r.mbs <= c.limits[o])
                <==> !Fooled(c.limits, o, Overlap(l, r.start, r.end), r.mbs))
  {
    StartWithinCapacity(c, now);
    CapacityRuns(c, Start(now), steps);
    var s := Run(c, Start(now), steps).value;
    var r, l := s.srv.r, ListOf(s.sched.lists, o);
    NoWrapWhenStarted(c.limits, l, o, r.start, r.end, r.mbs);
    OverlapIsLoadNow(l, r.start, r.end, r.start);
    WordCheckAgreesIff(c.limits, o, LoadWord(l, r.start, r.end), r.mbs);
  }

  // ---------- exact lists, exact admission ----------

  ghost predicate Indexed(sched: Schedule) {
    exists h :: Represents(sched, h)
  }

  lemma ShrinkKeepsIndexed(c: Config, before: Schedule, after: Schedule, h: seq<Reservation>)
    requires c.listErased && Shrinks(c, before, after) && Represents(before, h)
    ensures Indexed(after)
  {
    if after == before {
    } else if id :| after == JobRemoved(c.listErased, before, id) {
      RemoveRepresents(before, h, id);
    } else {
      var id, state :| after == JobUpdated(before, id, state);
      UpdateRepresents(before, h, id, state);
    }
  }

  lemma StepKeepsIndexed(c: Config, s: State, st: Step)
    requires c.listErased && Indexed(s.sched) && Enabled(s, st)
    requires s.srv.SCheck? ==> Distinct(s.srv.r.osts)
    ensures Indexed(Next(c, s, st).sched)
  {
    var s' := Next(c, s, st);
    var h :| Represents(s.sched, h);
    if st.Srv? && s.srv.SCheck? {
      var r := s.srv.r;
      if s'.sched != s.sched {
        AddRepresents(s.sched, h, Entry(r, Scheduled));
      }
    } else {
      if st.Mon? {
        MonShrinks(c, s, st.x);
      } else if st.Srv? {
        SrvShrinks(c, s, st.x);
      }
      ShrinkKeepsIndexed(c, s.sched, s'.sched, h);
    }
  }

  /** The lists are exact, and a request being checked names each OST once. */
  ghost predicate IndexedState(s: State) {
    Indexed(s.sched) && (s.srv.SCheck? ==> Distinct(s.srv.r.osts))
  }

  lemma StepKeepsIndexedState(c: Config, s: State, st: Step)
    requires c.listErased && IndexedState(s) && Enabled(s, st)
    ensures IndexedState(Next(c, s, st))
  {
    StepKeepsIndexed(c, s, st);
    RequestStays(c, s, st);
  }

  lemma StartIsIndexed(now: int)
    ensures IndexedState(Start(now))
  {
    EmptyRepresents();
  }

  lemma {:induction false} IndexedRuns(c: Config, s: State, steps: seq<Step>)
    requires c.listErased && IndexedState(s) && Run(c, s, steps).Some?
    ensures IndexedState(Run(c, s, steps).value)
    decreases |steps|
  {
    if steps != [] {
      var front := steps[..|steps| - 1];
      IndexedRuns(c, s, front);
      StepKeepsIndexedState(c, Run(c, s, front).value, steps[|steps| - 1]);
    }
  }

  /** Index agreement over runs: every OST list is ordered and holds the live jobs of that OST,
      each once, and nothing else. */
  lemma ListsAlwaysExact(c: Config, now: int, steps: seq<Step>, o: string)
    requires c.listErased && Run(c, Start(now), steps).Some?
    ensures var sched := Run(c, Start(now), steps).value.sched;
            var l := ListOf(sched.lists, o);
            && Sorted(l) && DistinctIds(l)
            && forall r :: r in l <==> r.jobid in sched.jobs && sched.jobs[r.jobid].res == r && o in r.osts
  {
    StartIsIndexed(now);
    IndexedRuns(c, Start(now), steps);
    var sched := Run(c, Start(now), steps).value.sched;
    var h :| Represents(sched, h);
    IndexAgreement(sched, h, o);
  }

  lemma StoredLoad(lists: map<string, seq<Reservation>>, o: string, r: Reservation, leftover: uint32)
    ensures ReportedLoad(true, lists, o, r.start, r.end, leftover) == ReportedLoad(true, lists, o, r.start, r.end, 0)
  {
  }

  /** The request goes on from its next OST, rather than being refused there. */
  predicate Passed(c: Config, s: State, x: Oracle)
    requires s.srv.SCheck? && s.srv.next < |s.srv.r.osts|
  {
    SrvStep(c, s, x).srv == SCheck(s.srv.r, s.srv.next + 1)
  }

  /** The next OST has no limit, or some instant of the interval would exceed it. */
  ghost predicate Overloads(c: Config, s: State)
    requires s.srv.SCheck? && s.srv.next < |s.srv.r.osts|
  {
    var r, o := s.srv.r, s.srv.r.osts[s.srv.next];
    o !in c.limits || WouldOverload(c.limits, s.sched.jobs, r, o)
  }

  lemma CheckDecides(c: Config, s: State, h: seq<Reservation>, x: Oracle)
    requires c.loadStored && CapacityInv(c, s) && Represents(s.sched, h) && Unfooled(c, s, Srv(x))
    requires s.srv.SCheck? && s.srv.next < |s.srv.r.osts|
    ensures Passed(c, s, x) <==> !Overloads(c, s)
  {
    var r, o := s.srv.r, s.srv.r.osts[s.srv.next];
    if o in c.limits {
      CheckedLoad(c, s, o);
      CheckIsExact(c.limits, s.sched, h, r, o);
      StoredLoad(s.sched.lists, o, r, x.leftover);
    }
  }

  lemma ReachedByChecks(c: Config, now: int, steps: seq<Step>) returns (s: State)
    requires c.loadStored && Run(c, Start(now), steps).Some? && Along(c, Start(now), steps, UnfooledIn(c))
    ensures Run(c, Start(now), steps) == Some(s) && CapacityInv(c, s)
    ensures c.listErased ==> Indexed(s.sched)
  {
    s := Run(c, Start(now), steps).value;
    StartWithinCapacity(c, now);
    CapacityRuns(c, Start(now), steps);
    if c.listErased {
      StartIsIndexed(now);
      IndexedRuns(c, Start(now), steps);
    }
  }

  /** Exact admission: at each check that wrap-around does not fool, the request goes on to its next
      OST if and only if that OST has a limit and no instant of the interval would exceed it. */
  lemma AdmissionIsExact(c: Config, now: int, steps: seq<Step>, x: Oracle)
    requires c.loadStored && c.listErased && Run(c, Start(now), steps).Some?
    requires Along(c, Start(now), steps, UnfooledIn(c))
    requires var s := Run(c, Start(now), steps).value;
             s.srv.SCheck? && s.srv.next < |s.srv.r.osts| && Unfooled(c, s, Srv(x))
    ensures var s := Run(c, Start(now), steps).value;
            Passed(c, s, x) <==> !Overloads(c, s)
  {
    var s := ReachedByChecks(c, now, steps);
    var h :| Represents(s.sched, h);
    CheckDecides(c, s, h, x);
  }

  // ---------- admission with the erase as shipped ----------

  lemma CheckAgrees(c: Config, s: State, x: Oracle)
    requires c.loadStored && CapacityInv(c, s) && s.srv.SCheck? && s.srv.next < |s.srv.r.osts|
    requires s.srv.r.osts[s.srv.next] in c.limits && Unfooled(c, s, Srv(x))
    ensures var r, o := s.srv.r, s.srv.r.osts[s.srv.next];
            && ((Passed(c, s, x) <==> !Overloads(c, s))
                <==> (LoadAt(ListOf(s.sched.lists, o), r.start) + r.mbs <= c.limits[o]
                      || LiveLoad(s.sched.jobs, o, r.start) + r.mbs > c.limits[o]))
            && (Passed(c, s, x) ==> !Overloads(c, s))
  {
    var r, o := s.srv.r, s.srv.r.osts[s.srv.next];
    CheckedLoad(c, s, o);
    CheckAndOverload(c.limits, s.sched, r, o);
    StoredLoad(s.sched.lists, o, r, x.leftover);
  }

  /** With the erase as shipped or put right: a check never lets an overload pass, and it is right
      exactly when what the list carries leaves room, or what the live jobs carry does not. */
  lemma AdmissionAgreesIff(c: Config, now: int, steps: seq<Step>, x: Oracle)
    requires c.loadStored && Run(c, Start(now), steps).Some? && Along(c, Start(now), steps, UnfooledIn(c))
    requires var s := Run(c, Start(now), steps).value;
             && s.srv.SCheck? && s.srv.next < |s.srv.r.osts| && s.srv.r.osts[s.srv.next] in c.limits
             && Unfooled(c, s, Srv(x))
    ensures var s := Run(c, Start(now), steps).value;
            var r, o := s.srv.r, s.srv.r.osts[s.srv.next];
            && ((Passed(c, s, x) <==> !Overloads(c, s))
                <==> (LoadAt(ListOf(s.sched.lists, o), r.start) + r.mbs <= c.limits[o]
                      || LiveLoad(s.sched.jobs, o, r.start) + r.mbs > c.limits[o]))
            && (Passed(c, s, x) ==> !Overloads(c, s))
  {
    var s := ReachedByChecks(c, now, steps);
    CheckAgrees(c, s, x);
  }

  /** Slot `i` of a list belongs to no job that is live on `o`, or repeats one that is already there. */
  predicate Stale(jobs: map<string, Entry>, l: seq<Reservation>, o: string, i: nat)
    requires i < |l|
  {
    !(l[i].jobid in jobs && jobs[l[i].jobid].res == l[i] && o in l[i].osts) || l[i] in l[..i]
  }

  /** What the stale slots add at instant `t`. */
  function StaleLoad(jobs: map<string, Entry>, l: seq<Reservation>, o: string, t: int): (sum: nat) {
    if l == [] then 0
    else
      var n := |l| - 1;
      StaleLoad(jobs, l[..n], o, t) + if Stale(jobs, l, o, n) && l[n].Covers(t) then l[n].mbs else 0
  }

  lemma LoadAtSnoc(l: seq<Reservation>, t: int)
    requires l != []
    ensures LoadAt(l, t) == LoadAt(l[..|l| - 1], t) + if l[|l| - 1].Covers(t) then l[|l| - 1].mbs else 0
  {
    LoadWithoutSlot(l, |l| - 1, t);
    assert l[..|l| - 1] + l[|l| - 1 + 1..] == l[..|l| - 1];
  }

  lemma {:induction false} StaleLoadWithout(jobs: map<string, Entry>, id: string, l: seq<Reservation>, o: string,
                                            t: int)
    requires id in jobs && jobs[id].res !in l
    ensures StaleLoad(jobs - {id}, l, o, t) == StaleLoad(jobs, l, o, t)
  {
    if l != [] {
      StaleLoadWithout(jobs, id, l[..|l| - 1], o, t);
    }
  }

  /** The listed load is the live load and the stale load together. */
  lemma {:induction false} ListedIsLiveAndStale(jobs: map<string, Entry>, l: seq<Reservation>, o: string, t: int)
    requires forall id :: id in jobs ==> jobs[id].res.jobid == id
    requires forall id :: id in jobs && o in jobs[id].res.osts ==> jobs[id].res in l
    ensures LoadAt(l, t) == LiveLoad(jobs, o, t) + StaleLoad(jobs, l, o, t)
    decreases |l|
  {
    if l == [] {
      NoShareNoLoad(jobs, o, t);
    } else {
      var front, last := l[..|l| - 1], l[|l| - 1];
      assert l == front + [last];
      LoadAtSnoc(l, t);
      if Stale(jobs, l, o, |l| - 1) {
        ListedIsLiveAndStale(jobs, front, o, t);
      } else {
        var id := last.jobid;
        LiveLoadSplit(jobs, id, o, t);
        ListedIsLiveAndStale(jobs - {id}, front, o, t);
        StaleLoadWithout(jobs, id, front, o, t);
      }
    }
  }

  /** No stale slot with a positive throughput covers `t`. */
  ghost predicate NothingStale(jobs: map<string, Entry>, l: seq<Reservation>, o: string, t: int) {
    forall i :: 0 <= i < |l| && Stale(jobs, l, o, i) ==> !(l[i].Covers(t) && l[i].mbs > 0)
  }

  lemma {:induction false} NoStaleLoadIff(jobs: map<string, Entry>, l: seq<Reservation>, o: string, t: int)
    ensures StaleLoad(jobs, l, o, t) == 0 <==> NothingStale(jobs, l, o, t)
  {
    if l != [] {
      var front := l[..|l| - 1];
      NoStaleLoadIff(jobs, front, o, t);
      forall i | 0 <= i < |front| ensures Stale(jobs, front, o, i) <==> Stale(jobs, l, o, i) {
        assert front[..i] == l[..i];
      }
    }
  }

  /** A request that could be submitted now and whose sum with the listed load fits the word. */
  predicate AskedNow(s: State, r: Reservation, o: string) {
    r.start == s.clock <= r.end && LoadAt(ListOf(s.sched.lists, o), s.clock) + r.mbs < TWO_TO_THE_32
  }

  /** What the check on `o` would say to `r`. */
  predicate WouldPass(c: Config, s: State, r: Reservation, o: string) {
    EnoughResources(c.limits, o, ReportedLoad(true, s.sched.lists, o, r.start, r.end, 0), r.mbs)
  }

  /** In every reachable state: the check on `o` would be right for every request submitted now if and
      only if no stale slot with a positive throughput covers the clock. */
  lemma ExactForAllIffNothingStale(c: Config, now: int, steps: seq<Step>, o: string)
    requires c.loadStored && Run(c, Start(now), steps).Some? && Along(c, Start(now), steps, UnfooledIn(c))
    requires o in c.limits && c.limits[o] + 1 < TWO_TO_THE_32
    ensures var s := Run(c, Start(now), steps).value;
            (forall r :: AskedNow(s, r, o) ==>
               (WouldPass(c, s, r, o) <==> !WouldOverload(c.limits, s.sched.jobs, r, o)))
            <==> NothingStale(s.sched.jobs, ListOf(s.sched.lists, o), o, s.clock)
  {
    var s := ReachedByChecks(c, now, steps);
    var l, jobs := ListOf(s.sched.lists, o), s.sched.jobs;
    ListedIsLiveAndStale(jobs, l, o, s.clock);
    NoStaleLoadIff(jobs, l, o, s.clock);
    forall r | AskedNow(s, r, o)
      ensures WouldPass(c, s, r, o) <==> LoadAt(l, s.clock) + r.mbs <= c.limits[o]
      ensures WouldOverload(c.limits, jobs, r, o) <==> LiveLoad(jobs, o, s.clock) + r.mbs > c.limits[o]
    {
      CheckAndOverload(c.limits, s.sched, r, o);
    }
    if StaleLoad(jobs, l, o, s.clock) > 0 {
      var tooMuch := Reservation("", s.clock, s.clock, c.limits[o] - LoadAt(l, s.clock) + 1, [o]);
      assert AskedNow(s, tooMuch, o);
    }
  }

  // ---------- what the lists keep as shipped ----------

  lemma ShrinkKeepsCovered(c: Config, before: Schedule, after: Schedule)
    requires Shrinks(c, before, after) && Covered(before)
    ensures Covered(after)
  {
    if after == before {
    } else if id :| after == JobRemoved(c.listErased, before, id) {
      RemoveCovered(c.listErased, before, id);
    } else {
      var id, state :| after == JobUpdated(before, id, state);
      UpdateKeepsCovered(before, id, state);
    }
  }

  lemma StepKeepsCovered(c: Config, s: State, st: Step)
    requires Covered(s.sched) && Enabled(s, st) && (s.srv.SCheck? ==> Distinct(s.srv.r.osts))
    ensures Covered(Next(c, s, st).sched)
  {
    var s' := Next(c, s, st);
    if st.Srv? && s.srv.SCheck? {
      if s'.sched != s.sched {
        AddCovered(s.sched, Entry(s.srv.r, Scheduled));
      }
    } else {
      if st.Mon? {
        MonShrinks(c, s, st.x);
      } else if st.Srv? {
        SrvShrinks(c, s, st.x);
      }
      ShrinkKeepsCovered(c, s.sched, s'.sched);
    }
  }

  /** Whatever is put right or not: over every run each OST list stays ordered by start and misses no
      live job of that OST. */
  lemma {:induction false} ListsAlwaysCover(c: Config, now: int, steps: seq<Step>)
    requires Run(c, Start(now), steps).Some?
    ensures var s := Run(c, Start(now), steps).value;
            Covered(s.sched) && (s.srv.SCheck? ==> Distinct(s.srv.r.osts))
    decreases |steps|
  {
    if steps != [] {
      var front := steps[..|steps| - 1];
      ListsAlwaysCover(c, now, front);
      StepKeepsCovered(c, Run(c, Start(now), front).value, steps[|steps| - 1]);
    }
  }

  // ---------- admission with the load not stored ----------

  lemma {:induction false} AskedForInterval(c: Config, now: int, steps: seq<Step>)
    requires Run(c, Start(now), steps).Some?
    ensures var srv := Run(c, Start(now), steps).value.srv; srv.SCheck? ==> srv.r.start <= srv.r.end
    decreases |steps|
  {
    if steps != [] {
      var front := steps[..|steps| - 1];
      AskedForInterval(c, now, front);
      RequestStays(c, Run(c, Start(now), front).value, steps[|steps| - 1]);
    }
  }

  lemma NoListNoLoad(s: Schedule, o: string)
    requires Covered(s) && o !in s.lists
    ensures forall t :: LiveLoad(s.jobs, o, t) == 0
  {
    forall id | id in s.jobs ensures o !in s.jobs[id].res.osts {
      assert o in s.jobs[id].res.osts ==> s.jobs[id].res in ListOf(s.lists, o);
    }
    forall t ensures LiveLoad(s.jobs, o, t) == 0 {
      NoShareNoLoad(s.jobs, o, t);
    }
  }

  /** The value in the variable with which the 32-bit sum comes to `sum`. */
  function LeftoverFor(sum: uint32, mbs: uint32): (w: uint32)
    ensures (w + mbs) % TWO_TO_THE_32 == sum
  {
    if sum >= mbs then sum - mbs else sum + TWO_TO_THE_32 - mbs
  }

  /** The check on an OST that has a list and a limit goes as the variable says. */
  lemma LeftoverDecides(c: Config, s: State, sum: uint32)
    requires !c.loadStored && s.srv.SCheck? && s.srv.next < |s.srv.r.osts|
    requires s.srv.r.osts[s.srv.next] in s.sched.lists && s.srv.r.osts[s.srv.next] in c.limits
    ensures Passed(c, s, Oracle({}, {}, LeftoverFor(sum, s.srv.r.mbs)))
       <==> sum <= c.limits[s.srv.r.osts[s.srv.next]]
  {
  }

  /** The check on an OST without a list is right: nothing is reserved there. */
  lemma UnlistedCheckIsRight(c: Config, s: State, x: Oracle)
    requires Covered(s.sched) && s.srv.SCheck? && s.srv.next < |s.srv.r.osts| && s.srv.r.start <= s.srv.r.end
    requires s.srv.r.osts[s.srv.next] !in s.sched.lists
    ensures Passed(c, s, x) <==> !Overloads(c, s)
  {
    var r, o := s.srv.r, s.srv.r.osts[s.srv.next];
    NoListNoLoad(s.sched, o);
    if o in c.limits && r.mbs > c.limits[o] {
      assert LiveLoad(s.sched.jobs, o, r.start) + r.mbs > c.limits[o];
    }
  }

  /** Exactly when not storing the load does no harm: a check of a run lets no overload pass, whatever the
      variable holds, if and only if the OST has no list yet, or no limit, or really bears the request. */
  lemma UnstoredCheckSafeIff(c: Config, now: int, steps: seq<Step>)
    requires !c.loadStored && Run(c, Start(now), steps).Some?
    requires var s := Run(c, Start(now), steps).value; s.srv.SCheck? && s.srv.next < |s.srv.r.osts|
    ensures var s := Run(c, Start(now), steps).value;
            var o := s.srv.r.osts[s.srv.next];
            (forall x :: Passed(c, s, x) ==> !Overloads(c, s))
            <==> o !in s.sched.lists || o !in c.limits || !WouldOverload(c.limits, s.sched.jobs, s.srv.r, o)
  {
    var s := Run(c, Start(now), steps).value;
    var o := s.srv.r.osts[s.srv.next];
    ListsAlwaysCover(c, now, steps);
    AskedForInterval(c, now, steps);
    if o !in s.sched.lists {
      forall x ensures Passed(c, s, x) <==> !Overloads(c, s) {
        UnlistedCheckIsRight(c, s, x);
      }
    } else if o in c.limits {
      LeftoverDecides(c, s, 0);
    }
  }

  /** And exactly when it is right, whatever the variable holds: when the OST has no list yet, or no limit,
      or a limit that no 32-bit sum exceeds and that really bears the request. */
  lemma UnstoredCheckRightIff(c: Config, now: int, steps: seq<Step>)
    requires !c.loadStored && Run(c, Start(now), steps).Some?
    requires var s := Run(c, Start(now), steps).value; s.srv.SCheck? && s.srv.next < |s.srv.r.osts|
    ensures var s := Run(c, Start(now), steps).value;
            var o := s.srv.r.osts[s.srv.next];
            (forall x :: Passed(c, s, x) <==> !Overloads(c, s))
            <==> o !in s.sched.lists || o !in c.limits
                 || (c.limits[o] == TWO_TO_THE_32 - 1 && !WouldOverload(c.limits, s.sched.jobs, s.srv.r, o))
  {
    var s := Run(c, Start(now), steps).value;
    var o := s.srv.r.osts[s.srv.next];
    ListsAlwaysCover(c, now, steps);
    AskedForInterval(c, now, steps);
    if o !in s.sched.lists {
      forall x ensures Passed(c, s, x) <==> !Overloads(c, s) {
        UnlistedCheckIsRight(c, s, x);
      }
    } else if o in c.limits {
      LeftoverDecides(c, s, 0);
      LeftoverDecides(c, s, TWO_TO_THE_32 - 1);
    }
  }
}
