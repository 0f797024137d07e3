// The clean-up that goes to the wrong OSSs (src/common/RuleManager.cpp:107-119), over a whole run: a rule
// is left in place that the manager does not know, and a later job pushes its OSS above the limits.
module Orphans {
  import opened Jobs
  import opened ScheduleState
  import opened Admission
  import opened Rules
  import opened Engine
  import opened EndToEnd
  import opened Drain
  import opened Stretches
  import opened Monitor
  import opened Scheduler
  import opened Departures
  import opened Overdue

  /** A request for two OSTs behind two OSSs, of which the second refuses its rule. */
  ghost predicate HalfRefused(c: Config, r: Reservation, now: int, o1: string, o2: string, x: Oracle) {
    && !c.cleanupFixed && r.osts == [o1, o2] && o1 != o2 && r.start == now <= r.end && x.leftover == 0
    && o1 in c.limits && o2 in c.limits && r.mbs <= c.limits[o1] && r.mbs <= c.limits[o2]
    && o1 in c.ipOf && c.ipOf[o1] != "" && c.ipOf[o1] in x.ok
    && o2 in c.ipOf && c.ipOf[o2] != "" && c.ipOf[o2] !in x.ok
  }

  lemma TwoOsts(c: Config, r: Reservation, now: int, o1: string, o2: string, x: Oracle)
    requires HalfRefused(c, r, now, o1, o2, x)
    ensures IpsOf(c.ipOf, r.osts) == Some([c.ipOf[o1], c.ipOf[o2]])
    ensures Rate(r.mbs, [c.ipOf[o1], c.ipOf[o2]], c.ipOf[o1]) == r.mbs
  {
    var ip1, ip2 := c.ipOf[o1], c.ipOf[o2];
    OneOst(c.ipOf, o1, r.mbs);
    assert [o1, o2][..1] == [o1];
    assert [ip1] + [ip2] == [ip1, ip2];
    CountAppend([ip1], ip2, ip1);
  }

  /** The rule that was accepted stays, unknown to the manager; no other rule is touched. */
  lemma OrphanIsLeft(c: Config, s: RuleState, r: Reservation, now: int, o1: string, o2: string, x: Oracle)
    requires HalfRefused(c, r, now, o1, o2, x) && r.jobid !in s.active
    ensures var t := RulesSet(c.cleanupFixed, c.ipOf, s, r.osts, r.jobid, r.mbs, x.ok, x.gone);
            !t.1 && t.0.active == s.active && At(t.0.remote, c.ipOf[o1], RuleName(r.jobid)) == Some(r.mbs)
  {
    TwoOsts(c, r, now, o1, o2, x);
    var ips, name := [c.ipOf[o1], c.ipOf[o2]], RuleName(r.jobid);
    var rates := RateMap(r.mbs, ips);
    assert c.ipOf[o1] in rates && c.ipOf[o2] in rates;
    InstalledAt(s.remote, name, rates, x.ok, c.ipOf[o1], name);
    var targets := CleanupTargets(false, rates, x.ok);
    DroppedAt(Installed(s.remote, name, rates, x.ok), name, targets * x.gone, c.ipOf[o1], name);
  }

  /** Both threads idle, nothing queued, no job's rules remembered, and yet a rule of `r` in place. */
  ghost predicate OrphanInPlace(c: Config, s: State, r: Reservation, o: string)
    requires o in c.ipOf
  {
    && s.mon == MWait && s.srv == SIdle && s.queue == [] && s.inFlight == {} && s.rules.active == map[]
    && At(s.rules.remote, c.ipOf[o], RuleName(r.jobid)) == Some(r.mbs) && !NoOrphans(s.rules)
  }

  lemma OrphanIsNone(s: RuleState, ip: string, name: string)
    requires s.active == map[] && At(s.remote, ip, name) != None
    ensures !NoOrphans(s)
  {
    assert !Remembered(s, ip, name);
  }

  lemma EmptyLists(o: string, from: int, to: int, stored: bool)
    ensures ReportedLoad(stored, EMPTY.lists, o, from, to, 0) == 0
  {
  }

  /** Nothing reserved yet: the request is admitted. */
  lemma AdmittedOnEmpty(c: Config, r: Reservation, now: int, x: Oracle)
    requires x.leftover == 0 && forall o :: o in r.osts ==> o in c.limits && r.mbs <= c.limits[o]
    ensures Admitted(c, BooksOf(Start(now)), r, Same<uint32>(|r.osts|, x.leftover))
         == (Reserved(c, BooksOf(Start(now)), r), true)
  {
    var leftovers := Same<uint32>(|r.osts|, x.leftover);
    forall k | 0 <= k < |r.osts| ensures Passes(c, EMPTY.lists, r, k, leftovers[k]) {
      EmptyLists(r.osts[k], r.start, r.end, c.loadStored);
    }
  }

  /** The monitor gives up on the start event and goes back to waiting. */
  lemma RefusedThenIdle(c: Config, s: State, r: Reservation, now: int, o1: string, o2: string, x: Oracle)
    returns (steps: seq<Step>, t: State)
    requires HalfRefused(c, r, now, o1, o2, x) && s.mon == MPopped(WaitingItem(r.jobid, now, JobStart))
    requires s.inFlight == {} && s.queue == [] && s.srv == SIdle && s.rules.active == map[]
    requires r.jobid in s.sched.jobs && s.sched.jobs[r.jobid] == Entry(r, Scheduled)
    ensures Run(c, s, steps) == Some(t)
    ensures OrphanInPlace(c, t, r, o1) && t.clock == s.clock && t.sched == s.sched
  {
    OrphanIsLeft(c, s.rules, r, now, o1, o2, x);
    steps := StartFails(c, s, r.jobid, now, x);
    var m := Run(c, s, steps).value;
    Then(c, s, steps, Mon(x));
    steps := steps + [Mon(x)];
    t := m.(mon := MWait);
    OrphanIsNone(m.rules, c.ipOf[o1], RuleName(r.jobid));
  }

  function OnlyJobPopped(r: Reservation, now: int): (s: State) {
    State(now + 1, JobAdded(EMPTY, r.jobid, Entry(r, Scheduled), r.osts), [], {}, RuleState(map[], map[]),
          MPopped(WaitingItem(r.jobid, now, JobStart)), SIdle)
  }

  lemma OnlyJobAdmitted(c: Config, r: Reservation, now: int, x: Oracle) returns (rest: seq<Step>)
    requires r.start == now <= r.end && Distinct(r.osts) && x.leftover == 0
    requires forall o :: o in r.osts ==> o in c.limits && r.mbs <= c.limits[o]
    ensures Run(c, Start(now), [Submit(r)] + rest)
         == Some(Start(now).(sched := JobAdded(EMPTY, r.jobid, Entry(r, Scheduled), r.osts),
                             queue := [WaitingItem(r.jobid, now, JobStart)]))
  {
    rest := ScheduleStepByStep(c, Start(now), r, Same<uint32>(|r.osts|, x.leftover));
    AdmittedOnEmpty(c, r, now, x);
    FirstPush(c.queueFixed, WaitingItem(r.jobid, now, JobStart));
  }

  /** The only job is admitted, and its start event popped. */
  lemma AdmittedAndPopped(c: Config, r: Reservation, now: int, x: Oracle) returns (rest: seq<Step>)
    requires r.start == now <= r.end && Distinct(r.osts) && x.leftover == 0
    requires forall o :: o in r.osts ==> o in c.limits && r.mbs <= c.limits[o]
    ensures Run(c, Start(now), [Submit(r)] + rest) == Some(OnlyJobPopped(r, now))
  {
    var first := OnlyJobAdmitted(c, r, now, x);
    var s := Run(c, Start(now), [Submit(r)] + first).value;
    var second := OnlyEventIsPopped(c, s, WaitingItem(r.jobid, now, JobStart), now + 1, x);
    RunAppend(c, Start(now), [Submit(r)] + first, second);
    rest := first + second;
    assert [Submit(r)] + rest == [Submit(r)] + first + second;
  }

  /** Admitted, popped, refused by one OSS: the run that leaves the orphan. */
  lemma ShippedCleanupLeavesOrphan(c: Config, r: Reservation, now: int, o1: string, o2: string, x: Oracle)
    returns (rest: seq<Step>, s: State)
    requires HalfRefused(c, r, now, o1, o2, x)
    ensures Run(c, Start(now), [Submit(r)] + rest) == Some(s)
    ensures OrphanInPlace(c, s, r, o1) && s.clock == now + 1
    ensures s.sched == JobAdded(EMPTY, r.jobid, Entry(r, Scheduled), r.osts)
  {
    var first := AdmittedAndPopped(c, r, now, x);
    var second;
    second, s := RefusedThenIdle(c, OnlyJobPopped(r, now), r, now, o1, o2, x);
    RunAppend(c, Start(now), [Submit(r)] + first, second);
    rest := first + second;
    assert [Submit(r)] + rest == [Submit(r)] + first + second;
  }

  // ---------- what the orphan does to the promise ----------

  lemma SumOfAtLeastTwo(s: set<string>, a: string, b: string, f: string -> nat)
    requires a in s && b in s && a != b
    ensures SumOf(s, f) >= f(a) + f(b)
  {
    SumOfSplit(s, a, f);
    SumOfSplit(s - {a}, b, f);
  }

  /** Two rules at one OSS whose rates together exceed the one OST behind it. */
  lemma TwoRulesTooMuch(c: Config, remote: Remote, r1: Reservation, r2: Reservation, o: string)
    requires r1.jobid != r2.jobid && o in c.ipOf && o in c.limits && Behind(c, c.ipOf[o]) == {o}
    requires At(remote, c.ipOf[o], RuleName(r1.jobid)) == Some(r1.mbs)
    requires At(remote, c.ipOf[o], RuleName(r2.jobid)) == Some(r2.mbs)
    requires c.limits[o] < r1.mbs + r2.mbs
    ensures SumOf(NamesAt(remote, c.ipOf[o]), RateInPlace(remote, c.ipOf[o])) > SumOf(Behind(c, c.ipOf[o]), LimitOf(c))
  {
    var ip, a, b := c.ipOf[o], RuleName(r1.jobid), RuleName(r2.jobid);
    assert RuleKey(ip, a) in remote && RuleKey(ip, b) in remote;
    if a == b {
      RuleNameInjective(r1.jobid, r2.jobid);
    }
    SumOfAtLeastTwo(NamesAt(remote, ip), a, b, RateInPlace(remote, ip));
    SumOfOne(o, LimitOf(c));
  }

  lemma LaterStart(c: Config, s: State, r1: Reservation, r2: Reservation, o: string, x: Oracle)
    returns (steps: seq<Step>)
    requires o in c.ipOf && c.ipOf[o] != "" && c.ipOf[o] in x.ok && r1.jobid != r2.jobid && r2.osts == [o]
    requires s.mon == MPopped(WaitingItem(r2.jobid, r2.start, JobStart)) && s.queue == [] && s.inFlight == {}
    requires r2.jobid in s.sched.jobs && s.sched.jobs[r2.jobid] == Entry(r2, Scheduled) && s.clock <= r2.end
    requires s.rules.active == map[] && At(s.rules.remote, c.ipOf[o], RuleName(r1.jobid)) == Some(r1.mbs)
    ensures Run(c, s, steps).Some? && DrainEnds(Run(c, s, steps).value)
    ensures var remote := Run(c, s, steps).value.rules.remote;
            && At(remote, c.ipOf[o], RuleName(r1.jobid)) == Some(r1.mbs)
            && At(remote, c.ipOf[o], RuleName(r2.jobid)) == Some(r2.mbs)
  {
    OwnRule(c, s.rules, r2, o, x);
    OtherJobsUntouched(c.cleanupFixed, c.ipOf, s.rules, r2.osts, r2.jobid, r2.mbs, x.ok, x.gone, r1.jobid, c.ipOf[o]);
    steps := DueReservationIsServed(c, s, r2.jobid, r2.start, x);
    FirstPush(c.queueFixed, WaitingItem(r2.jobid, r2.end, JobStop));
  }

  /** A later job on the OST, admitted next to the orphan. */
  lemma LaterJobIsAdmitted(c: Config, s: State, r2: Reservation, o: string, x: Oracle) returns (steps: seq<Step>)
    requires x.leftover == 0 && o in c.limits && r2.osts == [o] && r2.mbs <= c.limits[o]
    requires s.srv == SIdle && s.queue == [] && s.clock <= r2.start <= r2.end && r2.jobid !in s.sched.jobs
    requires forall i :: 0 <= i < |ListOf(s.sched.lists, o)| ==> ListOf(s.sched.lists, o)[i].end < r2.start
    ensures Run(c, s, steps)
         == Some(s.(clock := r2.start, sched := JobAdded(s.sched, r2.jobid, Entry(r2, Scheduled), r2.osts),
                    queue := [WaitingItem(r2.jobid, r2.start, JobStart)]))
  {
    OneStep(c, s, Tick(r2.start));
    NothingOverlaps(s.sched.lists, o, r2.start, r2.end);
    Admits(c, s.(clock := r2.start), r2, o, x);
    FirstPush(c.queueFixed, WaitingItem(r2.jobid, r2.start, JobStart));
    var admission := [Submit(r2)] + [Srv(x)] + [Srv(x)] + [Srv(x)];
    RunAppend(c, s, [Tick(r2.start)], admission);
    steps := [Tick(r2.start)] + admission;
  }

  lemma LaterJobIsPopped(c: Config, s: State, r2: Reservation, o: string, x: Oracle)
    returns (steps: seq<Step>, m: State)
    requires x.leftover == 0 && o in c.limits && r2.osts == [o] && r2.mbs <= c.limits[o] && r2.start <= r2.end
    requires s.mon == MWait && s.srv == SIdle && s.queue == [] && s.clock <= r2.start && r2.jobid !in s.sched.jobs
    requires forall i :: 0 <= i < |ListOf(s.sched.lists, o)| ==> ListOf(s.sched.lists, o)[i].end < r2.start
    ensures Run(c, s, steps) == Some(m)
    ensures m == s.(clock := r2.start + 1, sched := JobAdded(s.sched, r2.jobid, Entry(r2, Scheduled), r2.osts),
                    mon := MPopped(WaitingItem(r2.jobid, r2.start, JobStart)))
  {
    var item := WaitingItem(r2.jobid, r2.start, JobStart);
    var admitted := s.(clock := r2.start, sched := JobAdded(s.sched, r2.jobid, Entry(r2, Scheduled), r2.osts),
                       queue := [item]);
    var first := LaterJobIsAdmitted(c, s, r2, o, x);
    var second := OnlyEventIsPopped(c, admitted, item, r2.start + 1, x);
    RunAppend(c, s, first, second);
    steps := first + second;
    m := admitted.(clock := r2.start + 1, queue := [], mon := MPopped(item));
  }

  lemma LaterJobIsServed(c: Config, s: State, r1: Reservation, r2: Reservation, o: string, x: Oracle)
    returns (steps: seq<Step>)
    requires o in c.ipOf && c.ipOf[o] != "" && c.ipOf[o] in x.ok && x.leftover == 0 && o in c.limits
    requires OrphanInPlace(c, s, r1, o) && s.sched.jobs.Keys == {r1.jobid} && ListOf(s.sched.lists, o) == [r1]
    requires r1.jobid != r2.jobid && r2.osts == [o] && s.clock <= r2.start && r1.end < r2.start < r2.end
    requires r2.mbs <= c.limits[o]
    ensures Run(c, s, steps).Some? && DrainEnds(Run(c, s, steps).value)
    ensures var remote := Run(c, s, steps).value.rules.remote;
            && At(remote, c.ipOf[o], RuleName(r1.jobid)) == Some(r1.mbs)
            && At(remote, c.ipOf[o], RuleName(r2.jobid)) == Some(r2.mbs)
  {
    var first, m := LaterJobIsPopped(c, s, r2, o, x);
    var second := LaterStart(c, m, r1, r2, o, x);
    RunAppend(c, s, first, second);
    steps := first + second;
  }

  lemma ListOfFirst(r: Reservation, o1: string, o2: string)
    requires r.osts == [o1, o2] && o1 != o2
    ensures ListOf(JobAdded(EMPTY, r.jobid, Entry(r, Scheduled), r.osts).lists, o1) == [r]
  {
    AddedList(EMPTY.lists, r, r.osts, o1);
    assert o1 in r.osts;
  }

  /** Clean-up as shipped, everything else as shipped or put right: a job that is refused by one of its
      OSSs, and a later job on the other, end a drain with more in place at that OSS than its OST has. */
  lemma OrphanExceedsLimits(c: Config, r1: Reservation, r2: Reservation, now: int, o1: string, o2: string, x: Oracle)
    returns (steps: seq<Step>)
    requires HalfRefused(c, r1, now, o1, o2, x) && Behind(c, c.ipOf[o1]) == {o1}
    requires r1.jobid != r2.jobid && r2.osts == [o1] && now < r2.start && r1.end < r2.start < r2.end
    requires r2.mbs <= c.limits[o1] < r1.mbs + r2.mbs
    ensures Run(c, Start(now), steps).Some? && DrainEnds(Run(c, Start(now), steps).value)
    ensures var remote, ip := Run(c, Start(now), steps).value.rules.remote, c.ipOf[o1];
            SumOf(NamesAt(remote, ip), RateInPlace(remote, ip)) > SumOf(Behind(c, ip), LimitOf(c))
  {
    var first, s := ShippedCleanupLeavesOrphan(c, r1, now, o1, o2, x);
    ListOfFirst(r1, o1, o2);
    var second := LaterJobIsServed(c, s, r1, r2, o1, x);
    RunAppend(c, Start(now), [Submit(r1)] + first, second);
    steps := [Submit(r1)] + first + second;
    TwoRulesTooMuch(c, Run(c, s, second).value.rules.remote, r1, r2, o1);
  }
}
