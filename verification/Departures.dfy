// What the shipped statements do where they depart from their meaning: runs for every request of a
// described kind, exact conditions, and what a leak leaves behind.
module Departures {
  import opened Jobs
  import opened ScheduleState
  import opened Admission
  import opened Rules
  import opened Engine
  import opened Safety
  import opened Stretches
  import EQ = EventQueue

  // ---------- the queue ----------

  lemma FirstPush(fixed: bool, item: WaitingItem)
    ensures EQ.Pushed(fixed, [], item) == [item]
  {
    assert [] + [item] == [item];
  }

  lemma SecondPush(fixed: bool, first: WaitingItem, item: WaitingItem)
    ensures EQ.Pushed(fixed, [first], item)
         == if (if fixed then item.time < first.time else first.time < item.time) then [item, first] else [first, item]
  {
    assert [first] + [item] == [first, item];
    assert EQ.Swap([first, item], 0, 1) == [item, first];
  }

  /** Up: whenever a later event is pushed after an earlier one, the drain loop's guard misses the
      earlier one at every instant between the two. */
  lemma ShippedPushHidesDueEvent(early: WaitingItem, late: WaitingItem, now: int)
    requires early.time < now <= late.time
    ensures !EQ.Ready(EQ.Pushed(false, EQ.Pushed(false, [], early), late), now)
    ensures EQ.Ready(EQ.Pushed(true, EQ.Pushed(true, [], early), late), now)
  {
    FirstPush(false, early);
    FirstPush(true, early);
    SecondPush(false, early, late);
    SecondPush(true, early, late);
  }

  /** Down: a lone left child that is due first is left below its parent. */
  lemma ShippedDownSkipsLoneChild(early: WaitingItem, late: WaitingItem)
    requires early.time <= late.time
    ensures EQ.Sunk(false, [late, early], 0) == [late, early] && EQ.Sunk(true, [late, early], 0) == [early, late]
  {
    assert EQ.Swap([late, early], 1, 0) == [early, late];
  }

  function Stop(time: int): WaitingItem {
    WaitingItem("x", time, JobStop)
  }

  const SIX := [Stop(1), Stop(10), Stop(2), Stop(11), Stop(12), Stop(3)]

  /** Remove: taking an item out of a heap can leave the last item under a later parent. */
  lemma ShippedRemoveNeverRises()
    ensures EQ.MinHeap(SIX)
    ensures EQ.RemovedAt(false, SIX, 3) == [Stop(1), Stop(10), Stop(2), Stop(3), Stop(12)]
    ensures !EQ.MinHeap(EQ.RemovedAt(false, SIX, 3))
  {
    var body := [Stop(1), Stop(10), Stop(2), Stop(3), Stop(12)];
    assert EQ.FillHole(SIX, 3) == body;
    assert EQ.ChildToCheck(false, body, 3) == None;
    assert !EQ.EdgeOk(body, 3);
  }

  // ---------- the load that is not stored ----------

  /** The shipped check sees the real load exactly when the OST has no list yet. */
  lemma ShippedLoadRightIff(lists: map<string, seq<Reservation>>, o: string, from: int, to: int)
    ensures (forall leftover ::
               ReportedLoad(false, lists, o, from, to, leftover) == ReportedLoad(true, lists, o, from, to, leftover))
       <==> o !in lists
  {
    if o in lists {
      var wrong: uint32 := if LoadWord(lists[o], from, to) == 0 then 1 else 0;
      assert ReportedLoad(false, lists, o, from, to, wrong) != ReportedLoad(true, lists, o, from, to, wrong);
    }
  }

  lemma TwoOnOneOst(jobs: map<string, Entry>, r1: Reservation, r2: Reservation, o: string, t: int)
    requires r1.jobid != r2.jobid
    requires jobs == map[r1.jobid := Entry(r1, Scheduled), r2.jobid := Entry(r2, Scheduled)]
    ensures LiveLoad(jobs, o, t) == r1.Share(o, t) + r2.Share(o, t)
  {
    LiveLoadSplit(jobs, r1.jobid, o, t);
    LiveLoadSplit(jobs - {r1.jobid}, r2.jobid, o, t);
    assert jobs - {r1.jobid} - {r2.jobid} == map[];
  }

  /** Unstored, the load is whatever the variable held before: with zero there, any request that fits
      an empty OST is admitted. */
  lemma ShippedLoadAdmits(c: Config, s: State, r: Reservation, o: string, x: Oracle) returns (steps: seq<Step>)
    requires !c.loadStored && x.leftover == 0 && o in c.limits && r.mbs <= c.limits[o]
    requires s.srv.SIdle? && r.start == s.clock <= r.end && r.osts == [o] && r.jobid !in s.sched.jobs
    ensures Run(c, s, steps).Some? && forall st :: st in steps && st.Srv? ==> st.x.leftover == 0
    ensures var m := Run(c, s, steps).value;
            m.srv.SIdle? && m.clock == s.clock && m.sched.jobs == s.sched.jobs[r.jobid := Entry(r, Scheduled)]
  {
    Admits(c, s, r, o, x);
    steps := [Submit(r)] + [Srv(x)] + [Srv(x)] + [Srv(x)];
  }

  /** Load not stored: two requests that fit alone but not together are both admitted, whatever else
      is put right, as soon as the uninitialised variable happens to hold zero. */
  lemma ShippedLoadOvercommits(c: Config, r1: Reservation, r2: Reservation, now: int, o: string)
    returns (steps: seq<Step>)
    requires !c.loadStored && r1.jobid != r2.jobid && r1.osts == r2.osts == [o]
    requires r1.start == r2.start == now && now <= r1.end && now <= r2.end
    requires o in c.limits && r1.mbs <= c.limits[o] && r2.mbs <= c.limits[o] < r1.mbs + r2.mbs
    ensures Run(c, Start(now), steps).Some? && forall st :: st in steps && st.Srv? ==> st.x.leftover == 0
    ensures LiveLoad(Run(c, Start(now), steps).value.sched.jobs, o, now) > c.limits[o]
  {
    var x := Oracle({}, {}, 0);
    var first := ShippedLoadAdmits(c, Start(now), r1, o, x);
    var s := Run(c, Start(now), first).value;
    var second := ShippedLoadAdmits(c, s, r2, o, x);
    RunAppend(c, Start(now), first, second);
    steps := first + second;
    TwoOnOneOst(Run(c, s, second).value.sched.jobs, r1, r2, o, now);
  }

  // ---------- the erase that works on a copy ----------

  lemma EmptyScheduleTakesAll(limits: map<string, uint32>, r: Reservation, o: string)
    requires o in limits && r.mbs <= limits[o]
    ensures !WouldOverload(limits, map[], r, o)
  {
  }

  lemma OneEntryLoad(r: Reservation, from: int, to: int)
    ensures LoadWord([r], from, to) == if r.Overlaps(from, to) then r.mbs else 0
  {
    assert [r][..0] == [];
  }

  lemma {:induction false} NoOverlap(l: seq<Reservation>, from: int, to: int)
    requires forall i :: 0 <= i < |l| ==> l[i].end < from
    ensures LoadWord(l, from, to) == 0
  {
    if l != [] {
      NoOverlap(l[..|l| - 1], from, to);
    }
  }

  lemma NothingOverlaps(lists: map<string, seq<Reservation>>, o: string, from: int, to: int)
    requires forall i :: 0 <= i < |ListOf(lists, o)| ==> ListOf(lists, o)[i].end < from
    ensures ReportedLoad(true, lists, o, from, to, 0) == 0 == ReportedLoad(false, lists, o, from, to, 0)
  {
    NoOverlap(ListOf(lists, o), from, to);
  }

  lemma OnlyEntry(r: Reservation, o: string)
    requires r.osts == [o]
    ensures JobAdded(EMPTY, r.jobid, Entry(r, Scheduled), [o])
         == Schedule(map[r.jobid := Entry(r, Scheduled)], map[o := [r]])
  {
    var lists: map<string, seq<Reservation>> := map[];
    assert [o][1..] == [];
    assert Inserted(ListOf(lists, o), r) == [r];
    assert lists[o := [r]] == map[o := [r]];
    assert AddedToLists(lists, r, [o]) == AddedToLists(map[o := [r]], r, []);
  }

  lemma StaleEntryStays(a: Reservation, o: string)
    requires a.osts == [o]
    ensures JobRemoved(false, JobAdded(EMPTY, a.jobid, Entry(a, Scheduled), [o]), a.jobid)
         == Schedule(map[], map[o := [a]])
  {
    OnlyEntry(a, o);
    assert [o][1..] == [];
    assert RemovedFromLists(false, map[o := [a]], a.jobid, [o]) == map[o := [a]];
    assert map[a.jobid := Entry(a, Scheduled)] - {a.jobid} == map[];
  }

  /** The first request for `o`, admitted. */
  lemma FirstAdmitted(c: Config, now: int, r: Reservation, o: string, x: Oracle) returns (rest: seq<Step>)
    requires r.start == now <= r.end && r.osts == [o] && o in c.limits && r.mbs <= c.limits[o]
    ensures Run(c, Start(now), [Submit(r)] + rest)
         == Some(Start(now).(sched := JobAdded(EMPTY, r.jobid, Entry(r, Scheduled), [o]),
                             queue := [WaitingItem(r.jobid, now, JobStart)]))
    ensures SubmitsNothing(rest)
  {
    Admits(c, Start(now), r, o, x);
    FirstPush(c.queueFixed, WaitingItem(r.jobid, now, JobStart));
    rest := [Srv(x)] + [Srv(x)] + [Srv(x)];
    assert [Submit(r)] + rest == [Submit(r)] + [Srv(x)] + [Srv(x)] + [Srv(x)];
  }

  lemma OnlyEventRemoved(fixed: bool, item: WaitingItem)
    ensures EQ.Removed(fixed, [item], item.jobid) == []
  {
  }

  /** Admitted and removed again: nothing is left but an entry in the list of `o`. */
  lemma StaleAfterRemoval(c: Config, now: int, r: Reservation, o: string, x: Oracle) returns (steps: seq<Step>)
    requires !c.listErased && r.start == now <= r.end && r.osts == [o] && o in c.limits && r.mbs <= c.limits[o]
    ensures Run(c, Start(now), steps) == Some(Start(now).(sched := Schedule(map[], map[o := [r]])))
  {
    var first := FirstAdmitted(c, now, r, o, x);
    var s := Run(c, Start(now), [Submit(r)] + first).value;
    var second := ScheduledJobIsRemoved(c, s, r.jobid, x);
    RunAppend(c, Start(now), [Submit(r)] + first, second);
    StaleEntryStays(r, o);
    OnlyEventRemoved(c.queueFixed, WaitingItem(r.jobid, now, JobStart));
    steps := [Submit(r)] + first + second;
  }

  lemma RefusedByStale(c: Config, s: State, r1: Reservation, r2: Reservation, o: string, x: Oracle)
    requires c.loadStored && s.srv == SCheck(r2, 0) && s.sched.lists == map[o := [r1]] && r2.osts == [o]
    requires r1.Overlaps(r2.start, r2.end) && o in c.limits && c.limits[o] < r1.mbs + r2.mbs < TWO_TO_THE_32
    ensures SrvStep(c, s, x).srv == SIdle && SrvStep(c, s, x).sched == s.sched
  {
    OneEntryLoad(r1, r2.start, r2.end);
  }

  /** Erase from a copy: after a job has been admitted and removed again, a second request that does
      not fit next to it is refused although the schedule holds no job at all. */
  lemma ShippedEraseRefuses(c: Config, r1: Reservation, r2: Reservation, now: int, o: string, x: Oracle)
    returns (steps: seq<Step>)
    requires c.loadStored && !c.listErased && r1.osts == r2.osts == [o]
    requires r1.start == r2.start == now && now <= r1.end && now <= r2.end
    requires o in c.limits && r1.mbs <= c.limits[o] && r2.mbs <= c.limits[o] < r1.mbs + r2.mbs < TWO_TO_THE_32
    ensures Run(c, Start(now), steps).Some?
    ensures var s := Run(c, Start(now), steps).value;
            && s.sched.jobs == map[] && s.srv == SCheck(r2, 0)
            && !WouldOverload(c.limits, s.sched.jobs, r2, o)
            && SrvStep(c, s, x).srv == SIdle && SrvStep(c, s, x).sched == s.sched
  {
    var first := StaleAfterRemoval(c, now, r1, o, x);
    Then(c, Start(now), first, Submit(r2));
    steps := first + [Submit(r2)];
    RefusedByStale(c, Run(c, Start(now), steps).value, r1, r2, o, x);
    EmptyScheduleTakesAll(c.limits, r2, o);
  }

  // ---------- the sum that wraps ----------

  /** A request whose sum with the listed load wraps to something within the limit is admitted next to
      it, with the load stored and whatever else put right: the check is fooled, and the OST carries
      more than its limit. */
  lemma WrappedSumOvercommits(c: Config, r1: Reservation, r2: Reservation, now: int, o: string, x: Oracle)
    returns (steps: seq<Step>)
    requires c.loadStored && r1.jobid != r2.jobid && r1.osts == r2.osts == [o]
    requires r1.start == r2.start == now && now <= r1.end && now <= r2.end
    requires o in c.limits && r1.mbs <= c.limits[o] && Fooled(c.limits, o, r1.mbs, r2.mbs)
    ensures Run(c, Start(now), steps).Some?
    ensures LiveLoad(Run(c, Start(now), steps).value.sched.jobs, o, now) > c.limits[o]
  {
    Admits(c, Start(now), r1, o, x);
    var first := [Submit(r1)] + [Srv(x)] + [Srv(x)] + [Srv(x)];
    var s := Run(c, Start(now), first).value;
    OnlyEntry(r1, o);
    OneEntryLoad(r1, now, r2.end);
    WordCheckAgreesIff(c.limits, o, r1.mbs, r2.mbs);
    Admits(c, s, r2, o, x);
    var second := [Submit(r2)] + [Srv(x)] + [Srv(x)] + [Srv(x)];
    RunAppend(c, Start(now), first, second);
    steps := first + second;
    TwoOnOneOst(Run(c, s, second).value.sched.jobs, r1, r2, o, now);
  }

  // ---------- the removal that is not one step ----------

  /** Rules are remembered for `id`, and nobody who could remove them ever will. */
  ghost predicate Leaked(s: State, id: string) {
    && id in s.rules.active
    && !HasState(s, id, Active)
    && s.mon != MStartUpdate(id) && s.mon != MStopRules(id)
    && !(s.srv.SStopRules? && s.srv.id == id)
  }

  lemma MonKeepsRate(c: Config, s: State, x: Oracle, id: string, ip: string)
    requires Leaked(s, id) && NamesOk(s) && MonEnabled(s)
    ensures At(MonStep(c, s, x).rules.remote, ip, RuleName(id)) == At(s.rules.remote, ip, RuleName(id))
  {
    if s.mon.MStartRules? && s.mon.id != id {
      OtherJobsUntouched(c.cleanupFixed, c.ipOf, s.rules, s.mon.osts, s.mon.id, s.mon.mbs, x.ok, x.gone, id, ip);
    } else if s.mon.MStopRules? {
      RemoveRulesTouchesOwn(s.rules, s.mon.id, x.gone, id);
    }
  }

  lemma MonKeepsLeaked(c: Config, s: State, x: Oracle, id: string)
    requires Leaked(s, id) && MonEnabled(s)
    ensures Leaked(MonStep(c, s, x), id)
  {
  }

  lemma MonKeepsLeak(c: Config, s: State, x: Oracle, id: string, ip: string)
    requires Leaked(s, id) && NamesOk(s) && MonEnabled(s)
    ensures Leaked(MonStep(c, s, x), id) && NamesOk(MonStep(c, s, x))
    ensures At(MonStep(c, s, x).rules.remote, ip, RuleName(id)) == At(s.rules.remote, ip, RuleName(id))
  {
    MonKeepsRate(c, s, x, id, ip);
    MonKeepsNamesOk(c, s, x);
    MonKeepsLeaked(c, s, x, id);
  }

  lemma SrvKeepsLeak(c: Config, s: State, x: Oracle, id: string, ip: string)
    requires Leaked(s, id) && NamesOk(s) && SrvEnabled(s)
    ensures Leaked(SrvStep(c, s, x), id) && NamesOk(SrvStep(c, s, x))
    ensures At(SrvStep(c, s, x).rules.remote, ip, RuleName(id)) == At(s.rules.remote, ip, RuleName(id))
  {
    if s.srv.SStopRules? {
      RemoveRulesTouchesOwn(s.rules, s.srv.id, x.gone, id);
    }
  }

  lemma StepKeepsLeak(c: Config, s: State, st: Step, id: string, ip: string)
    requires Leaked(s, id) && NamesOk(s) && Enabled(s, st)
    ensures Leaked(Next(c, s, st), id) && NamesOk(Next(c, s, st))
    ensures At(Next(c, s, st).rules.remote, ip, RuleName(id)) == At(s.rules.remote, ip, RuleName(id))
  {
    match st
    case Mon(x) => MonKeepsLeak(c, s, x, id, ip);
    case Srv(x) => SrvKeepsLeak(c, s, x, id, ip);
    case _ =>
  }

  /** A leak is for ever: no run, not even one that reserves or removes the id again, takes the
      rules off the OSSs or brings the id to ACTIVE. */
  lemma {:induction false} LeakIsForEver(c: Config, s: State, steps: seq<Step>, id: string, ip: string)
    requires Leaked(s, id) && NamesOk(s) && Run(c, s, steps).Some?
    ensures Leaked(Run(c, s, steps).value, id) && NamesOk(Run(c, s, steps).value)
    ensures At(Run(c, s, steps).value.rules.remote, ip, RuleName(id)) == At(s.rules.remote, ip, RuleName(id))
    decreases |steps|
  {
    if steps != [] {
      var front := steps[..|steps| - 1];
      LeakIsForEver(c, s, front, id, ip);
      StepKeepsLeak(c, Run(c, s, front).value, steps[|steps| - 1], id, ip);
    }
  }

  /** `r` is the only job, and its start event is in the monitor's hands. */
  function StartHeld(now: int, r: Reservation, o: string): (s: State) {
    State(now + 1, JobAdded(EMPTY, r.jobid, Entry(r, Scheduled), [o]), [], {}, RuleState(map[], map[]),
          MPopped(WaitingItem(r.jobid, now, JobStart)), SIdle)
  }

  /** The request of the race, its start event already popped by the monitor. */
  lemma StartInHand(c: Config, now: int, r: Reservation, o: string, x: Oracle) returns (rest: seq<Step>)
    requires r.start == now <= r.end && r.osts == [o] && o in c.limits && r.mbs <= c.limits[o]
    ensures Run(c, Start(now), [Submit(r)] + rest) == Some(StartHeld(now, r, o))
    ensures SubmitsNothing(rest)
  {
    var first := FirstAdmitted(c, now, r, o, x);
    var start := WaitingItem(r.jobid, now, JobStart);
    var s := Start(now).(sched := JobAdded(EMPTY, r.jobid, Entry(r, Scheduled), [o]), queue := [start]);
    var second := OnlyEventIsPopped(c, s, start, now + 1, x);
    RunAppend(c, Start(now), [Submit(r)] + first, second);
    SubmitsNothingAppend(first, second);
    rest := first + second;
    assert [Submit(r)] + rest == [Submit(r)] + first + second;
  }

  /** Removal as shipped: the id is unblocked while the job is still in the schedule. */
  lemma UnblockedButScheduled(c: Config, s: State, id: string, x: Oracle) returns (steps: seq<Step>)
    requires !c.removalSerialised && s.srv.SIdle? && s.inFlight == {} && s.queue == [] && HasState(s, id, Scheduled)
    ensures Run(c, s, steps) == Some(s.(srv := SErase(id, [])))
  {
    assert [id][1..] == [] && {} + {id} - {id} == {};
    OneStep(c, s, Delete([id]));
    var first := UnregisterLooks(c, s.(srv := SBlock(id, [])), id, [], x);
    RunAppend(c, s, [Delete([id])], first);
    Then(c, s, [Delete([id])] + first, Srv(x));
    steps := [Delete([id])] + first + [Srv(x)];
  }

  /** The job disappears between SetRules and UpdateJob: the monitor gives up, the rules stay. */
  lemma ErasedBehindTheMonitor(c: Config, s: State, id: string, x: Oracle) returns (steps: seq<Step>)
    requires !c.removalSerialised && s.srv == SErase(id, []) && s.mon == MStartUpdate(id) && s.queue == []
    ensures Run(c, s, steps)
         == Some(s.(sched := JobRemoved(c.listErased, s.sched, id), inFlight := s.inFlight - {id},
                    mon := MWait, srv := SIdle))
  {
    OneStep(c, s, Srv(x));
    Then(c, s, [Srv(x)], Mon(x));
    Then(c, s, [Srv(x)] + [Mon(x)], Mon(x));
    Then(c, s, [Srv(x)] + [Mon(x)] + [Mon(x)], Mon(x));
    steps := [Srv(x)] + [Mon(x)] + [Mon(x)] + [Mon(x)];
  }

  lemma OneOst(ipOf: map<string, string>, o: string, mbs: uint32)
    requires o in ipOf && ipOf[o] != ""
    ensures IpsOf(ipOf, [o]) == Some([ipOf[o]]) && Rate(mbs, [ipOf[o]], ipOf[o]) == mbs
  {
    assert [o][..0] == [];
    assert IpsOf(ipOf, []) == Some([]);
    CountAppend([], ipOf[o], ipOf[o]);
    assert [] + [ipOf[o]] == [ipOf[o]];
  }

  /** The manager remembers the one rule of `r`, and it is in place. */
  ghost predicate HasRule(s: RuleState, r: Reservation, ip: string) {
    && r.jobid in s.active && s.active[r.jobid].name == RuleName(r.jobid) && ip in s.active[r.jobid].ips
    && At(s.remote, ip, RuleName(r.jobid)) == Some(r.mbs)
  }

  lemma OwnRule(c: Config, s: RuleState, r: Reservation, o: string, x: Oracle)
    requires r.jobid !in s.active && r.osts == [o] && o in c.ipOf && c.ipOf[o] != "" && c.ipOf[o] in x.ok
    ensures var t := RulesSet(c.cleanupFixed, c.ipOf, s, r.osts, r.jobid, r.mbs, x.ok, x.gone);
            t.1 && t.0.active.Keys == s.active.Keys + {r.jobid} && HasRule(t.0, r, c.ipOf[o])
  {
    OneOst(c.ipOf, o, r.mbs);
    SetRulesSucceedsIff(c.cleanupFixed, c.ipOf, s, r.osts, r.jobid, r.mbs, x.ok, x.gone);
    SetRulesInstalls(c.cleanupFixed, c.ipOf, s, r.osts, r.jobid, r.mbs, x.ok, x.gone, c.ipOf[o]);
  }

  /** Both threads idle, no job, no event, and yet the rules of `r` remembered and in place. */
  ghost predicate OnlyTheRulesAreLeft(c: Config, s: State, r: Reservation, o: string)
    requires o in c.ipOf
  {
    && Leaked(s, r.jobid) && NamesOk(s) && At(s.rules.remote, c.ipOf[o], RuleName(r.jobid)) == Some(r.mbs)
    && s.mon.MWait? && s.srv.SIdle? && s.queue == [] && s.inFlight == {} && s.sched.jobs == map[]
  }

  /** The monitor sets the rules of a job that is already unregistered but not yet erased; then the
      job is erased. */
  lemma RulesSetTooLate(c: Config, s: State, r: Reservation, o: string, x: Oracle) returns (steps: seq<Step>)
    requires !c.removalSerialised && s.srv == SErase(r.jobid, []) && s.queue == []
    requires s.mon == MPopped(WaitingItem(r.jobid, r.start, JobStart)) && s.inFlight == {}
    requires s.sched.jobs == map[r.jobid := Entry(r, Scheduled)] && s.rules.active == map[]
    requires r.osts == [o] && o in c.ipOf && c.ipOf[o] != "" && c.ipOf[o] in x.ok
    ensures Run(c, s, steps).Some? && OnlyTheRulesAreLeft(c, Run(c, s, steps).value, r, o)
  {
    OwnRule(c, s.rules, r, o, x);
    var first := StartSetsRules(c, s, r.jobid, r.start, x);
    var m := Run(c, s, first).value;
    var second := ErasedBehindTheMonitor(c, m, r.jobid, x);
    RunAppend(c, s, first, second);
    steps := first + second;
    assert {} + {r.jobid} - {r.jobid} == {};
    assert map[r.jobid := Entry(r, Scheduled)] - {r.jobid} == map[];
  }

  /** Removal not serialised, everything else as shipped or put right: the removal of a job whose
      start event the monitor has just popped leaks the job's rules. */
  lemma ShippedRemovalLeaks(c: Config, now: int, r: Reservation, o: string, x: Oracle) returns (steps: seq<Step>)
    requires !c.removalSerialised
    requires r.start == now <= r.end && r.osts == [o] && o in c.limits && r.mbs <= c.limits[o]
    requires o in c.ipOf && c.ipOf[o] != "" && c.ipOf[o] in x.ok
    ensures Run(c, Start(now), steps).Some? && OnlyTheRulesAreLeft(c, Run(c, Start(now), steps).value, r, o)
  {
    var rest := StartInHand(c, now, r, o, x);
    var first := [Submit(r)] + rest;
    var s := Run(c, Start(now), first).value;
    var second := UnblockedButScheduled(c, s, r.jobid, x);
    RunAppend(c, Start(now), first, second);
    var third := RulesSetTooLate(c, s.(srv := SErase(r.jobid, [])), r, o, x);
    RunAppend(c, Start(now), first + second, third);
    steps := first + second + third;
  }
}
