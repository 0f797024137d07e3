// Why the planner's promise leaves out one job: with every departure put right, a job that is
// removed by request after its end can still hold its rules when a drain ends, next to the rules of
// a job admitted in its place.
module Overdue {
  import opened Jobs
  import opened ScheduleState
  import opened Rules
  import opened Engine
  import opened Drain
  import opened EndToEnd
  import opened Stretches
  import opened Departures
  import EQ = EventQueue

  /** Two requests for `o`, the second one starting after the first has ended; `o` cannot carry both,
      and it is the only OST behind its OSS. */
  ghost predicate Rivals(c: Config, r1: Reservation, r2: Reservation, now: int, o: string, x: Oracle) {
    && c.queueFixed && c.loadStored && c.listErased && c.cleanupFixed && c.removalSerialised
    && r1.jobid != r2.jobid && r1.osts == [o] && r2.osts == [o]
    && r1.start == now && r1.end == now + 2 && r2.start == now + 4 && now + 5 <= r2.end
    && o in c.limits && r1.mbs <= c.limits[o] && r2.mbs <= c.limits[o] < r1.mbs + r2.mbs
    && o in c.ipOf && c.ipOf[o] != "" && c.ipOf[o] in x.ok && Behind(c, c.ipOf[o]) == {o}
  }

  /** The first job is ACTIVE, its rules are set, its stop event is queued, the monitor waits. */
  function FirstRuns(c: Config, r1: Reservation, now: int, o: string, x: Oracle): (s: State) {
    State(now + 1, JobUpdated(JobAdded(EMPTY, r1.jobid, Entry(r1, Scheduled), [o]), r1.jobid, Active),
          [WaitingItem(r1.jobid, r1.end, JobStop)], {},
          RulesSet(c.cleanupFixed, c.ipOf, RuleState(map[], map[]), r1.osts, r1.jobid, r1.mbs, x.ok, x.gone).0,
          MWait, SIdle)
  }

  /** Handling a start event when nothing else is queued: the monitor goes back to waiting. */
  lemma ServedThenIdle(c: Config, s: State, id: string, t: int, x: Oracle) returns (steps: seq<Step>)
    requires s.mon == MPopped(WaitingItem(id, t, JobStart)) && id !in s.inFlight && HasState(s, id, Scheduled)
    requires s.queue == [] && s.clock <= s.sched.jobs[id].res.end
    requires var res := s.sched.jobs[id].res;
             RulesSet(c.cleanupFixed, c.ipOf, s.rules, res.osts, id, res.mbs, x.ok, x.gone).1
    ensures Served(c, s, id, x).queue == [WaitingItem(id, s.sched.jobs[id].res.end, JobStop)]
    ensures MonOnly(steps, x) && Run(c, s, steps) == Some(Served(c, s, id, x).(mon := MWait))
  {
    var served := DueReservationIsServed(c, s, id, t, x);
    FirstPush(c.queueFixed, WaitingItem(id, s.sched.jobs[id].res.end, JobStop));
    Then(c, s, served, Mon(x));
    steps := served + [Mon(x)];
  }

  lemma ScheduledFirst(r1: Reservation, o: string)
    ensures JobAdded(EMPTY, r1.jobid, Entry(r1, Scheduled), [o]).jobs == map[r1.jobid := Entry(r1, Scheduled)]
  {
  }

  lemma FirstRunsIsServed(c: Config, r1: Reservation, now: int, o: string, x: Oracle)
    requires JobAdded(EMPTY, r1.jobid, Entry(r1, Scheduled), [o]).jobs == map[r1.jobid := Entry(r1, Scheduled)]
    ensures Served(c, StartHeld(now, r1, o), r1.jobid, x).(mon := MWait) == FirstRuns(c, r1, now, o, x)
  {
    FirstPush(c.queueFixed, WaitingItem(r1.jobid, r1.end, JobStop));
  }

  lemma FirstIsServed(c: Config, r1: Reservation, now: int, o: string, x: Oracle) returns (steps: seq<Step>)
    requires r1.start == now < r1.end && r1.osts == [o]
    requires o in c.ipOf && c.ipOf[o] != "" && c.ipOf[o] in x.ok
    ensures Run(c, StartHeld(now, r1, o), steps) == Some(FirstRuns(c, r1, now, o, x)) && MonOnly(steps, x)
  {
    var s := StartHeld(now, r1, o);
    OwnRule(c, s.rules, r1, o, x);
    ScheduledFirst(r1, o);
    FirstRunsIsServed(c, r1, now, o, x);
    steps := ServedThenIdle(c, s, r1.jobid, now, x);
  }

  lemma ReachFirstRuns(c: Config, r1: Reservation, now: int, o: string, x: Oracle) returns (rest: seq<Step>)
    requires r1.start == now < r1.end && r1.osts == [o] && o in c.limits && r1.mbs <= c.limits[o]
    requires o in c.ipOf && c.ipOf[o] != "" && c.ipOf[o] in x.ok
    ensures Run(c, Start(now), [Submit(r1)] + rest) == Some(FirstRuns(c, r1, now, o, x)) && SubmitsNothing(rest)
  {
    var first := StartInHand(c, now, r1, o, x);
    var second := FirstIsServed(c, r1, now, o, x);
    RunAppend(c, Start(now), [Submit(r1)] + first, second);
    MonOnlySubmitsNothing(second, x);
    SubmitsNothingAppend(first, second);
    rest := first + second;
    assert [Submit(r1)] + rest == [Submit(r1)] + first + second;
  }

  lemma ListsAfterFirst(r1: Reservation, o: string)
    requires r1.osts == [o]
    ensures var s := JobUpdated(JobAdded(EMPTY, r1.jobid, Entry(r1, Scheduled), [o]), r1.jobid, Active);
            s.jobs == map[r1.jobid := Entry(r1, Active)] && s.lists == map[o := [r1]]
  {
    OnlyEntry(r1, o);
  }

  /** The second job is admitted once the first has ended, whose stop event is still queued. */
  lemma SecondIsAdmitted(c: Config, r1: Reservation, r2: Reservation, now: int, o: string, x: Oracle)
    returns (steps: seq<Step>, m: State)
    requires Rivals(c, r1, r2, now, o, x)
    ensures Run(c, FirstRuns(c, r1, now, o, x), steps) == Some(m)
    ensures var s := FirstRuns(c, r1, now, o, x);
            m == s.(clock := now + 4, sched := m.sched,
                    queue := [WaitingItem(r1.jobid, r1.end, JobStop), WaitingItem(r2.jobid, r2.start, JobStart)])
    ensures m.sched.jobs == map[r1.jobid := Entry(r1, Active), r2.jobid := Entry(r2, Scheduled)]
  {
    var s := FirstRuns(c, r1, now, o, x);
    ListsAfterFirst(r1, o);
    OneStep(c, s, Tick(now + 4));
    var s1 := s.(clock := now + 4);
    OneEntryLoad(r1, r2.start, r2.end);
    Admits(c, s1, r2, o, x);
    var second := [Submit(r2)] + [Srv(x)] + [Srv(x)] + [Srv(x)];
    RunAppend(c, s, [Tick(now + 4)], second);
    SecondPush(true, WaitingItem(r1.jobid, r1.end, JobStop), WaitingItem(r2.jobid, r2.start, JobStart));
    steps := [Tick(now + 4)] + second;
    m := Run(c, s, steps).value;
  }

  lemma FrontIsRemoved(a: WaitingItem, b: WaitingItem)
    requires a.jobid != b.jobid
    ensures EQ.Removed(true, [a, b], a.jobid) == [b]
  {
    assert EQ.IndexOf([a, b], a.jobid) == 0;
    assert EQ.FillHole([a, b], 0) == [b];
  }

  /** The server starts to remove the first job and takes its stop event; then the monitor pops the
      start event of the second. */
  lemma RemovalOvertakesStop(c: Config, s: State, stop: WaitingItem, start: WaitingItem, x: Oracle)
    returns (steps: seq<Step>)
    requires c.queueFixed && s.srv.SIdle? && s.mon.MWait? && s.inFlight == {}
    requires s.queue == [stop, start] && stop.jobid != start.jobid && start.time == s.clock
    ensures Run(c, s, steps)
         == Some(s.(clock := s.clock + 1, queue := [], inFlight := {stop.jobid}, mon := MPopped(start),
                    srv := SStatus(stop.jobid, [])))
  {
    var id := stop.jobid;
    assert [id][1..] == [] && {} + {id} == {id};
    FrontIsRemoved(stop, start);
    OneStep(c, s, Delete([id]));
    Then(c, s, [Delete([id])], Srv(x));
    Then(c, s, [Delete([id])] + [Srv(x)], Srv(x));
    var first := [Delete([id])] + [Srv(x)] + [Srv(x)];
    var s1 := Run(c, s, first).value;
    EventIsPopped(c, s1, s.clock + 1, x);
    assert EQ.Popped(true, [start]) == [];
    RunAppend(c, s, first, [Tick(s.clock + 1)] + [Wake] + [Mon(x)]);
    steps := first + ([Tick(s.clock + 1)] + [Wake] + [Mon(x)]);
  }

  lemma OtherRule(c: Config, s: RuleState, r: Reservation, other: Reservation, ip: string, x: Oracle)
    requires r.jobid != other.jobid && r.jobid !in s.active && HasRule(s, other, ip)
    ensures HasRule(RulesSet(c.cleanupFixed, c.ipOf, s, r.osts, r.jobid, r.mbs, x.ok, x.gone).0, other, ip)
  {
    OtherJobsUntouched(c.cleanupFixed, c.ipOf, s, r.osts, r.jobid, r.mbs, x.ok, x.gone, other.jobid, ip);
  }

  lemma BothRates(c: Config, s: RuleState, r1: Reservation, r2: Reservation, o: string, x: Oracle)
    requires r1.jobid != r2.jobid && r2.osts == [o] && s.active.Keys == {r1.jobid}
    requires o in c.ipOf && c.ipOf[o] != "" && c.ipOf[o] in x.ok && HasRule(s, r1, c.ipOf[o])
    ensures var t := RulesSet(c.cleanupFixed, c.ipOf, s, r2.osts, r2.jobid, r2.mbs, x.ok, x.gone);
            t.1 && t.0.active.Keys == {r1.jobid, r2.jobid} && HasRule(t.0, r1, c.ipOf[o]) && HasRule(t.0, r2, c.ipOf[o])
  {
    OwnRule(c, s, r2, o, x);
    OtherRule(c, s, r2, r1, c.ipOf[o], x);
  }

  lemma SumOfTwo(a: string, b: string, f: string -> nat)
    requires a != b
    ensures SumOf({a, b}, f) == f(a) + f(b)
  {
    SumOfSplit({a, b}, a, f);
    assert {a, b} - {a} == {b};
    SumOfSplit({b}, b, f);
    assert {b} - {b} == {};
  }

  lemma SumOfOne(a: string, f: string -> nat)
    ensures SumOf({a}, f) == f(a)
  {
    SumOfSplit({a}, a, f);
    assert {a} - {a} == {};
  }

  lemma TogetherTooMuch(c: Config, t: RuleState, r1: Reservation, r2: Reservation, o: string)
    requires r1.jobid != r2.jobid && t.active.Keys == {r1.jobid, r2.jobid}
    requires o in c.ipOf && o in c.limits && Behind(c, c.ipOf[o]) == {o} && c.limits[o] < r1.mbs + r2.mbs
    requires HasRule(t, r1, c.ipOf[o]) && HasRule(t, r2, c.ipOf[o])
    ensures SumOf(t.active.Keys, HeldRate(t, c.ipOf[o])) > SumOf(Behind(c, c.ipOf[o]), LimitOf(c))
  {
    SumOfTwo(r1.jobid, r2.jobid, HeldRate(t, c.ipOf[o]));
    SumOfOne(o, LimitOf(c));
  }

  /** The bound fails for all remembered rules together: a drain ends, and the rules at the OSS add up
      to more than the OST behind it has. The first job is in flight and past its end. */
  lemma OverdueRemovalExceeds(c: Config, r1: Reservation, r2: Reservation, now: int, o: string, x: Oracle)
    returns (steps: seq<Step>)
    requires Rivals(c, r1, r2, now, o, x)
    ensures Run(c, Start(now), steps).Some? && DrainEnds(Run(c, Start(now), steps).value)
    ensures var s, ip := Run(c, Start(now), steps).value, c.ipOf[o];
            && SumOf(s.rules.active.Keys, HeldRate(s.rules, ip)) > SumOf(Behind(c, ip), LimitOf(c))
            && s.inFlight == {r1.jobid} && r1.end < s.clock
  {
    var rest := ReachFirstRuns(c, r1, now, o, x);
    var first := [Submit(r1)] + rest;
    var second, s2 := SecondIsAdmitted(c, r1, r2, now, o, x);
    RunAppend(c, Start(now), first, second);
    var stop, start := WaitingItem(r1.jobid, r1.end, JobStop), WaitingItem(r2.jobid, r2.start, JobStart);
    var third := RemovalOvertakesStop(c, s2, stop, start, x);
    RunAppend(c, Start(now), first + second, third);
    var s3 := Run(c, s2, third).value;
    OwnRule(c, RuleState(map[], map[]), r1, o, x);
    BothRates(c, s3.rules, r1, r2, o, x);
    var fourth := DueReservationIsServed(c, s3, r2.jobid, r2.start, x);
    RunAppend(c, Start(now), first + second + third, fourth);
    FirstPush(true, WaitingItem(r2.jobid, r2.end, JobStop));
    steps := first + second + third + fourth;
    TogetherTooMuch(c, Served(c, s3, r2.jobid, x).rules, r1, r2, o);
  }
}
