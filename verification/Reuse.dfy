// Reusing a job id: what goes wrong when it is submitted again while an event for it is pending, or while
// a stop event for it is being handled.
module Reuse {
  import opened Jobs
  import opened ScheduleState
  import opened Engine
  import opened Events
  import opened Stretches
  import opened Monitor
  import opened Scheduler
  import opened Planner
  import opened Departures
  import opened Overdue
  import EQ = EventQueue

  // ---------- counting early submissions ----------

  lemma {:induction false} EarlyReusesAppend(c: Config, s: State, a: seq<Step>, b: seq<Step>, id: string)
    requires Run(c, s, a).Some?
    ensures EarlyReuses(c, s, a + b, id) == EarlyReuses(c, s, a, id) + EarlyReuses(c, Run(c, s, a).value, b, id)
    decreases |b|
  {
    if b == [] {
      assert a + b == a;
    } else {
      assert (a + b)[..|a + b| - 1] == a + b[..|b| - 1];
      EarlyReusesAppend(c, s, a, b[..|b| - 1], id);
      RunAppend(c, s, a, b[..|b| - 1]);
    }
  }

  lemma {:induction false} NoSubmissionNoReuse(c: Config, s: State, steps: seq<Step>, id: string)
    requires SubmitsNothing(steps)
    ensures EarlyReuses(c, s, steps, id) == 0
    decreases |steps|
  {
    if steps != [] {
      NoSubmissionNoReuse(c, s, steps[..|steps| - 1], id);
    }
  }

  /** One submission, and steps that submit nothing. */
  lemma OneSubmission(c: Config, s: State, r: Reservation, rest: seq<Step>)
    requires Run(c, s, [Submit(r)] + rest).Some? && Enabled(s, Submit(r)) && SubmitsNothing(rest)
    ensures EarlyReuses(c, s, [Submit(r)] + rest, r.jobid) == if Outstanding(s, r.jobid) == 0 then 0 else 1
  {
    OneStep(c, s, Submit(r));
    assert [Submit(r)][..0] == [];
    assert EarlyReuses(c, s, [], r.jobid) == 0;
    NoSubmissionNoReuse(c, Next(c, s, Submit(r)), rest, r.jobid);
    EarlyReusesAppend(c, s, [Submit(r)], rest, r.jobid);
  }

  lemma TwoSubmissions(c: Config, s: State, r1: Reservation, a: seq<Step>, m: State, r2: Reservation, b: seq<Step>)
    requires r1.jobid == r2.jobid && Enabled(s, Submit(r1)) && Enabled(m, Submit(r2))
    requires SubmitsNothing(a) && SubmitsNothing(b)
    requires Run(c, s, [Submit(r1)] + a) == Some(m) && Run(c, m, [Submit(r2)] + b).Some?
    ensures EarlyReuses(c, s, [Submit(r1)] + a + ([Submit(r2)] + b), r1.jobid)
         == (if Outstanding(s, r1.jobid) == 0 then 0 else 1) + (if Outstanding(m, r1.jobid) == 0 then 0 else 1)
  {
    OneSubmission(c, s, r1, a);
    OneSubmission(c, m, r2, b);
    EarlyReusesAppend(c, s, [Submit(r1)] + a, [Submit(r2)] + b, r1.jobid);
  }

  // ---------- a stop event that is being handled ----------

  /** The stop event of `r`, which has run and ended, is in the monitor's hands. */
  ghost predicate StopInHand(s: State, r: Reservation, o: string, t: int) {
    && s.clock == t && s.queue == [] && s.inFlight == {} && s.srv == SIdle
    && s.mon == MPopped(WaitingItem(r.jobid, r.end, JobStop))
    && s.sched == Schedule(map[r.jobid := Entry(r, Active)], map[o := [r]])
  }

  lemma ReachStopInHand(c: Config, r: Reservation, now: int, t: int, o: string, x: Oracle)
    returns (rest: seq<Step>, m: State)
    requires r.start == now < r.end < t && r.osts == [o] && o in c.limits && r.mbs <= c.limits[o]
    requires o in c.ipOf && c.ipOf[o] != "" && c.ipOf[o] in x.ok
    ensures Run(c, Start(now), [Submit(r)] + rest) == Some(m) && StopInHand(m, r, o, t)
    ensures SubmitsNothing(rest)
  {
    var first := ReachFirstRuns(c, r, now, o, x);
    ListsAfterFirst(r, o);
    var s := FirstRuns(c, r, now, o, x);
    var stop := WaitingItem(r.jobid, r.end, JobStop);
    var second := OnlyEventIsPopped(c, s, stop, t, x);
    RunAppend(c, Start(now), [Submit(r)] + first, second);
    m := s.(clock := t, queue := [], mon := MPopped(stop));
    SubmitsNothingAppend(first, second);
    rest := first + second;
    assert [Submit(r)] + rest == [Submit(r)] + first + second;
  }

  lemma ListAfterRemoval(erases: bool, r: Reservation, o: string)
    ensures RemovedFromLists(erases, map[o := [r]], r.jobid, [o]) == map[o := if erases then [] else [r]]
  {
    assert [o][1..] == [];
    assert Erased([r], r.jobid) == [];
    assert RemovedFromLists(erases, map[o := [r]], r.jobid, [o])
        == RemovedFromLists(erases, map[o := [r]][o := if erases then [] else [r]], r.jobid, []);
  }

  /** The job is gone by request, and the monitor has blocked its id for the stop event it holds. */
  ghost predicate StopWithoutJob(c: Config, s: State, id: string, o: string, t: int) {
    && s.clock == t && s.queue == [] && s.inFlight == {id} && s.srv == SIdle && s.mon == MStopCheck(id)
    && s.sched.jobs == map[]
    && forall i :: 0 <= i < |ListOf(s.sched.lists, o)| ==> ListOf(s.sched.lists, o)[i].end < t
  }

  /** The books once the job has been removed by request. */
  lemma BooksAfterRemoval(c: Config, s: State, r: Reservation, o: string, t: int, gone: set<string>)
    requires StopInHand(s, r, o, t) && r.osts == [o] && r.end < t
    ensures var b := Scheduler.Removed(c, BooksOf(s), r.jobid, gone);
            && b.sched.jobs == map[] && b.queue == []
            && forall i :: 0 <= i < |ListOf(b.sched.lists, o)| ==> ListOf(b.sched.lists, o)[i].end < t
  {
    ListAfterRemoval(c.listErased, r, o);
    assert JobUpdated(s.sched, r.jobid, Done).jobs - {r.jobid} == map[];
  }

  lemma RemovedByRequest(c: Config, s: State, id: string, x: Oracle) returns (steps: seq<Step>)
    requires s.srv == SIdle && id !in s.inFlight
    ensures Run(c, s, steps) == Some(WithBooks(s, Scheduler.Removed(c, BooksOf(s), id, x.gone), SIdle))
    ensures SubmitsNothing(steps)
  {
    assert [id][1..] == [];
    OneStep(c, s, Delete([id]));
    var first := OneRemovalAlone(c, s.(srv := SBlock(id, [])), id, [], x);
    RunAppend(c, s, [Delete([id])], first);
    SrvOnlySubmitsNothing(first, x);
    SubmitsNothingAppend([Delete([id])], first);
    steps := [Delete([id])] + first;
  }

  lemma RemovedBeforeStop(c: Config, s: State, r: Reservation, o: string, t: int, x: Oracle)
    returns (steps: seq<Step>, m: State)
    requires StopInHand(s, r, o, t) && r.osts == [o] && r.end < t
    ensures Run(c, s, steps) == Some(m) && StopWithoutJob(c, m, r.jobid, o, t)
    ensures SubmitsNothing(steps)
  {
    var id := r.jobid;
    var first := RemovedByRequest(c, s, id, x);
    BooksAfterRemoval(c, s, r, o, t, x.gone);
    var removed := WithBooks(s, Scheduler.Removed(c, BooksOf(s), id, x.gone), SIdle);
    assert {} + {id} == {id};
    Then(c, s, first, Mon(x));
    SubmitsNothingAppend(first, [Mon(x)]);
    steps := first + [Mon(x)];
    m := removed.(inFlight := {id}, mon := MStopCheck(id));
  }

  /** A reservation granted under the id of a job whose stop event is just being handled. */
  lemma SuccessorIsDropped(c: Config, s: State, r: Reservation, o: string, x: Oracle) returns (rest: seq<Step>)
    requires StopWithoutJob(c, s, r.jobid, o, s.clock) && x.leftover == 0
    requires r.start == s.clock <= r.end && r.osts == [o] && o in c.limits && r.mbs <= c.limits[o]
    ensures Run(c, s, [Submit(r)] + rest).Some?
    ensures var t := Run(c, s, [Submit(r)] + rest).value;
            r.jobid !in t.sched.jobs && t.srv.SIdle? && t.clock == s.clock
            && t.queue == [WaitingItem(r.jobid, r.start, JobStart)]
    ensures SubmitsNothing(rest)
  {
    NothingOverlaps(s.sched.lists, o, r.start, r.end);
    Admits(c, s, r, o, x);
    FirstPush(c.queueFixed, WaitingItem(r.jobid, r.start, JobStart));
    var first := [Submit(r)] + [Srv(x)] + [Srv(x)] + [Srv(x)];
    Then(c, s, first, Mon(x));
    Then(c, s, first + [Mon(x)], Mon(x));
    rest := [Srv(x)] + [Srv(x)] + [Srv(x)] + [Mon(x)] + [Mon(x)];
    assert [Submit(r)] + rest == first + [Mon(x)] + [Mon(x)];
  }

  lemma ReachStopWithoutJob(c: Config, r: Reservation, now: int, t: int, o: string, x: Oracle)
    returns (rest: seq<Step>, m: State)
    requires r.start == now < r.end < t && r.osts == [o] && o in c.limits && r.mbs <= c.limits[o]
    requires o in c.ipOf && c.ipOf[o] != "" && c.ipOf[o] in x.ok
    ensures Run(c, Start(now), [Submit(r)] + rest) == Some(m) && StopWithoutJob(c, m, r.jobid, o, t)
    ensures SubmitsNothing(rest)
  {
    var first, s := ReachStopInHand(c, r, now, t, o, x);
    var second;
    second, m := RemovedBeforeStop(c, s, r, o, t, x);
    RunAppend(c, Start(now), [Submit(r)] + first, second);
    SubmitsNothingAppend(first, second);
    rest := first + second;
    assert [Submit(r)] + rest == [Submit(r)] + first + second;
  }

  /** Even when no event for the id is pending as it is submitted again, a stop event that is just
      being handled takes the new reservation with it: granted, not ended, not asked to be removed, and
      gone. */
  lemma StopDropsSuccessor(c: Config, r1: Reservation, r2: Reservation, now: int, o: string, x: Oracle)
    returns (steps: seq<Step>)
    requires r1.jobid == r2.jobid && r1.osts == r2.osts == [o] && x.leftover == 0
    requires r1.start == now < r1.end < r2.start <= r2.end
    requires o in c.limits && r1.mbs <= c.limits[o] && r2.mbs <= c.limits[o]
    requires o in c.ipOf && c.ipOf[o] != "" && c.ipOf[o] in x.ok
    ensures Run(c, Start(now), steps).Some? && Along(c, Start(now), steps, CarefulFor(r2.jobid))
    ensures var t := Run(c, Start(now), steps).value;
            && r2.jobid !in t.sched.jobs && t.clock <= r2.end && t.srv.SIdle?
            && t.queue == [WaitingItem(r2.jobid, r2.start, JobStart)]
  {
    var first, m := ReachStopWithoutJob(c, r1, now, r2.start, o, x);
    var second := SuccessorIsDropped(c, m, r2, o, x);
    RunAppend(c, Start(now), [Submit(r1)] + first, [Submit(r2)] + second);
    steps := [Submit(r1)] + first + ([Submit(r2)] + second);
    TwoSubmissions(c, Start(now), r1, first, m, r2, second);
    CarefulIffNoEarlyReuse(c, Start(now), steps, r2.jobid);
  }

  // ---------- a start event that is being handled ----------

  /** The start event of `id` is in the monitor's hands, and its job is gone by request. */
  ghost predicate StartWithoutJob(c: Config, s: State, id: string, o: string) {
    && s.queue == [] && s.inFlight == {} && s.srv == SIdle && s.rules.active == map[]
    && s.mon.MPopped? && s.mon.item.jobid == id && s.mon.item.event == JobStart && s.sched.jobs == map[]
    && (c.listErased ==> ListOf(s.sched.lists, o) == [])
    && forall i :: 0 <= i < |ListOf(s.sched.lists, o)| ==> ListOf(s.sched.lists, o)[i].end < s.clock
  }

  lemma ListsAfterErase(c: Config, r: Reservation, o: string)
    requires r.osts == [o]
    ensures var s := JobRemoved(c.listErased, JobAdded(EMPTY, r.jobid, Entry(r, Scheduled), [o]), r.jobid);
            s.jobs == map[] && s.lists == map[o := if c.listErased then [] else [r]]
  {
    OnlyEntry(r, o);
    ListAfterRemoval(c.listErased, r, o);
    assert map[r.jobid := Entry(r, Scheduled)] - {r.jobid} == map[];
  }

  lemma NothingToRemove(fixed: bool, id: string)
    ensures EQ.Removed(fixed, [], id) == []
  {
  }

  /** The job is removed while its start event is in the monitor's hands. */
  lemma RemovedBeforeStart(c: Config, r: Reservation, now: int, o: string, x: Oracle)
    returns (steps: seq<Step>, m: State)
    requires r.start == now && r.osts == [o]
    ensures Run(c, StartHeld(now, r, o), steps) == Some(m) && SubmitsNothing(steps)
    ensures m == StartHeld(now, r, o).(sched := m.sched)
    ensures m.sched.jobs == map[] && m.sched.lists == map[o := if c.listErased then [] else [r]]
  {
    var s := StartHeld(now, r, o);
    steps := ScheduledJobIsRemoved(c, s, r.jobid, x);
    NothingToRemove(c.queueFixed, r.jobid);
    ListsAfterErase(c, r, o);
    m := s.(sched := JobRemoved(c.listErased, s.sched, r.jobid));
  }

  lemma ReachStartWithoutJob(c: Config, r: Reservation, now: int, t: int, o: string, x: Oracle)
    returns (rest: seq<Step>, m: State)
    requires r.start == now <= r.end < t && r.osts == [o] && o in c.limits && r.mbs <= c.limits[o]
    ensures Run(c, Start(now), [Submit(r)] + rest) == Some(m) && SubmitsNothing(rest)
    ensures StartWithoutJob(c, m, r.jobid, o) && m.clock == t
  {
    var first := StartInHand(c, now, r, o, x);
    var second, removed := RemovedBeforeStart(c, r, now, o, x);
    RunAppend(c, Start(now), [Submit(r)] + first, second);
    Then(c, Start(now), [Submit(r)] + first + second, Tick(t));
    m := removed.(clock := t);
    SubmitsNothingAppend(first, second);
    SubmitsNothingAppend(first + second, [Tick(t)]);
    rest := first + second + [Tick(t)];
    assert [Submit(r)] + rest == [Submit(r)] + first + second + [Tick(t)];
  }

  /** `r` is the only job, ACTIVE, and has both a start and a stop event in the queue. */
  ghost predicate TwoEvents(c: Config, s: State, r: Reservation, o: string) {
    && s.clock == r.start && s.inFlight == {} && s.srv == SIdle && s.mon == MDrain
    && s.sched.jobs == map[r.jobid := Entry(r, Active)]
    && s.queue == EQ.Pushed(c.queueFixed, [WaitingItem(r.jobid, r.start, JobStart)],
                            WaitingItem(r.jobid, r.end, JobStop))
    && (c.listErased ==> ListOf(s.sched.lists, o) == [r])
  }

  /** Four steps of client and server: `r` is granted. */
  lemma GrantedAgain(c: Config, s: State, r: Reservation, o: string, x: Oracle) returns (rest: seq<Step>, m: State)
    requires s.queue == [] && s.srv == SIdle && s.sched.jobs == map[] && x.leftover == 0
    requires forall i :: 0 <= i < |ListOf(s.sched.lists, o)| ==> ListOf(s.sched.lists, o)[i].end < s.clock
    requires r.start == s.clock <= r.end && r.osts == [o] && o in c.limits && r.mbs <= c.limits[o]
    ensures Run(c, s, [Submit(r)] + rest) == Some(m) && SubmitsNothing(rest)
    ensures m == s.(sched := m.sched, queue := [WaitingItem(r.jobid, r.start, JobStart)])
    ensures m.sched.jobs == map[r.jobid := Entry(r, Scheduled)]
    ensures ListOf(m.sched.lists, o) == Inserted(ListOf(s.sched.lists, o), r)
  {
    NothingOverlaps(s.sched.lists, o, r.start, r.end);
    Admits(c, s, r, o, x);
    FirstPush(c.queueFixed, WaitingItem(r.jobid, r.start, JobStart));
    AddedList(s.sched.lists, r, r.osts, o);
    rest := [Srv(x)] + [Srv(x)] + [Srv(x)];
    assert [Submit(r)] + rest == [Submit(r)] + [Srv(x)] + [Srv(x)] + [Srv(x)];
    m := Run(c, s, [Submit(r)] + rest).value;
  }

  lemma ServedOnly(c: Config, s: State, r: Reservation, x: Oracle)
    requires s.sched.jobs == map[r.jobid := Entry(r, Scheduled)]
    ensures Served(c, s, r.jobid, x).sched == Schedule(map[r.jobid := Entry(r, Active)], s.sched.lists)
    ensures Served(c, s, r.jobid, x).queue == EQ.Pushed(c.queueFixed, s.queue, WaitingItem(r.jobid, r.end, JobStop))
  {
  }

  /** A start event of the id, its own or an old one, makes it ACTIVE. */
  lemma StartedByAny(c: Config, s: State, r: Reservation, t: int, o: string, x: Oracle)
    returns (steps: seq<Step>, m: State)
    requires s.mon == MPopped(WaitingItem(r.jobid, t, JobStart)) && s.inFlight == {}
    requires s.sched.jobs == map[r.jobid := Entry(r, Scheduled)] && r.jobid !in s.rules.active && r.osts == [o]
    requires o in c.ipOf && c.ipOf[o] != "" && c.ipOf[o] in x.ok
    ensures Run(c, s, steps) == Some(m) && SubmitsNothing(steps)
    ensures m == s.(sched := Schedule(map[r.jobid := Entry(r, Active)], s.sched.lists), rules := m.rules, mon := MDrain,
                    queue := EQ.Pushed(c.queueFixed, s.queue, WaitingItem(r.jobid, r.end, JobStop)))
  {
    OwnRule(c, s.rules, r, o, x);
    ServedOnly(c, s, r, x);
    steps := DueReservationIsServed(c, s, r.jobid, t, x);
    MonOnlySubmitsNothing(steps, x);
    m := Served(c, s, r.jobid, x);
  }

  lemma StartedTwice(c: Config, s: State, r: Reservation, o: string, x: Oracle) returns (rest: seq<Step>, m: State)
    requires StartWithoutJob(c, s, r.jobid, o) && x.leftover == 0
    requires r.start == s.clock <= r.end && r.osts == [o] && o in c.limits && r.mbs <= c.limits[o]
    requires o in c.ipOf && c.ipOf[o] != "" && c.ipOf[o] in x.ok
    ensures Run(c, s, [Submit(r)] + rest) == Some(m) && SubmitsNothing(rest) && TwoEvents(c, m, r, o)
  {
    var first, granted := GrantedAgain(c, s, r, o, x);
    var second;
    second, m := StartedByAny(c, granted, r, s.mon.item.time, o, x);
    RunAppend(c, s, [Submit(r)] + first, second);
    SubmitsNothingAppend(first, second);
    rest := first + second;
    assert [Submit(r)] + rest == [Submit(r)] + first + second;
  }

  lemma TwoEventsCount(c: Config, s: State, r: Reservation, o: string)
    requires TwoEvents(c, s, r, o)
    ensures EQ.CountFor(s.queue, r.jobid) == 2
  {
    var start := WaitingItem(r.jobid, r.start, JobStart);
    EQ.SumPushed(c.queueFixed, [start], WaitingItem(r.jobid, r.end, JobStop), EQ.IsFor(r.jobid));
    EQ.SumPushed(c.queueFixed, [], start, EQ.IsFor(r.jobid));
    FirstPush(c.queueFixed, start);
  }

  lemma StaleStartIsEvent(c: Config, s: State, id: string, o: string)
    requires StartWithoutJob(c, s, id, o)
    ensures Outstanding(s, id) == 1
  {
  }

  /** One early submission, and the job is ACTIVE with two events: the bound of EarlyReuseAddsOne is met,
      whatever is put right. */
  lemma EarlyReuseLeavesTwoEvents(c: Config, r1: Reservation, r2: Reservation, now: int, o: string, x: Oracle)
    returns (steps: seq<Step>, m: State)
    requires r1.jobid == r2.jobid && r1.osts == r2.osts == [o] && x.leftover == 0
    requires r1.start == now <= r1.end < r2.start <= r2.end
    requires o in c.limits && r1.mbs <= c.limits[o] && r2.mbs <= c.limits[o]
    requires o in c.ipOf && c.ipOf[o] != "" && c.ipOf[o] in x.ok
    ensures Run(c, Start(now), steps) == Some(m) && EarlyReuses(c, Start(now), steps, r2.jobid) == 1
    ensures TwoEvents(c, m, r2, o) && EQ.CountFor(m.queue, r2.jobid) == 2
  {
    var first, s := ReachStartWithoutJob(c, r1, now, r2.start, o, x);
    var second;
    second, m := StartedTwice(c, s, r2, o, x);
    RunAppend(c, Start(now), [Submit(r1)] + first, [Submit(r2)] + second);
    StaleStartIsEvent(c, s, r2.jobid, o);
    TwoSubmissions(c, Start(now), r1, first, s, r2, second);
    TwoEventsCount(c, m, r2, o);
    steps := [Submit(r1)] + first + ([Submit(r2)] + second);
  }

  // ---------- two stop events ----------

  lemma TwoInQueue(first: WaitingItem, second: WaitingItem)
    ensures EQ.Popped(true, [first, second]) == [second]
    ensures first.jobid == second.jobid ==> EQ.Removed(true, [first, second], first.jobid) == [second]
  {
    assert EQ.FillHole([first, second], 0) == [second];
  }

  lemma BooksAfterDequeue(c: Config, s: State, r: Reservation, o: string, gone: set<string>)
    requires c.queueFixed && c.listErased && TwoEvents(c, s, r, o) && r.osts == [o] && r.start < r.end
    ensures var b := Scheduler.Removed(c, BooksOf(s), r.jobid, gone);
            && b.queue == [WaitingItem(r.jobid, r.end, JobStop)] && r.jobid !in b.rules.active
            && b.sched.jobs == map[] && ListOf(b.sched.lists, o) == []
  {
    var start, stop := WaitingItem(r.jobid, r.start, JobStart), WaitingItem(r.jobid, r.end, JobStop);
    SecondPush(true, start, stop);
    TwoInQueue(start, stop);
    assert JobUpdated(s.sched, r.jobid, Done).jobs - {r.jobid} == map[];
    RemovedList(true, s.sched.lists, r.jobid, r.osts, o);
    assert Erased([r], r.jobid) == [];
  }

  /** A removal takes one event of the id out of the queue: the start event, as it is the earlier one. */
  lemma StopOutlivesJob(c: Config, s: State, r: Reservation, o: string, x: Oracle)
    returns (steps: seq<Step>, m: State)
    requires c.queueFixed && c.listErased && TwoEvents(c, s, r, o) && r.osts == [o] && r.start < r.end
    ensures Run(c, s, steps) == Some(m) && SubmitsNothing(steps)
    ensures m == s.(sched := m.sched, rules := m.rules, queue := [WaitingItem(r.jobid, r.end, JobStop)])
    ensures r.jobid !in m.rules.active && m.sched.jobs == map[] && ListOf(m.sched.lists, o) == []
  {
    steps := RemovedByRequest(c, s, r.jobid, x);
    BooksAfterDequeue(c, s, r, o, x.gone);
    m := WithBooks(s, Scheduler.Removed(c, BooksOf(s), r.jobid, x.gone), SIdle);
  }

  /** The monitor is about to look at the queue, and holds nothing. */
  ghost predicate OnlyQueued(s: State, item: WaitingItem, jobs: map<string, Entry>) {
    s.inFlight == {} && s.srv == SIdle && s.mon == MDrain && s.sched.jobs == jobs && s.queue == [item]
  }

  /** Granted next to a later event. */
  lemma GrantedNextTo(c: Config, s: State, r: Reservation, item: WaitingItem, o: string, x: Oracle)
    requires c.queueFixed && OnlyQueued(s, item, map[]) && ListOf(s.sched.lists, o) == [] && x.leftover == 0
    requires r.start == s.clock <= r.end && r.start < item.time && r.osts == [o]
    requires o in c.limits && r.mbs <= c.limits[o]
    ensures Run(c, s, [Submit(r)] + [Srv(x)] + [Srv(x)] + [Srv(x)])
         == Some(s.(sched := JobAdded(s.sched, r.jobid, Entry(r, Scheduled), r.osts),
                    queue := [WaitingItem(r.jobid, r.start, JobStart), item]))
  {
    NothingOverlaps(s.sched.lists, o, r.start, r.end);
    Admits(c, s, r, o, x);
    SecondPush(true, item, WaitingItem(r.jobid, r.start, JobStart));
  }

  /** One tick later its start event is popped. */
  lemma GrantedAndPopped(c: Config, s: State, r: Reservation, item: WaitingItem, o: string, x: Oracle)
    returns (rest: seq<Step>, m: State)
    requires c.queueFixed && OnlyQueued(s, item, map[]) && ListOf(s.sched.lists, o) == [] && x.leftover == 0
    requires r.start == s.clock <= r.end && r.start < item.time && r.osts == [o]
    requires o in c.limits && r.mbs <= c.limits[o]
    ensures Run(c, s, [Submit(r)] + rest) == Some(m) && SubmitsNothing(rest)
    ensures m == s.(clock := r.start + 1, sched := m.sched, mon := MPopped(WaitingItem(r.jobid, r.start, JobStart)))
    ensures m.sched.jobs == map[r.jobid := Entry(r, Scheduled)]
  {
    var start := WaitingItem(r.jobid, r.start, JobStart);
    var first := [Submit(r)] + [Srv(x)] + [Srv(x)] + [Srv(x)];
    var sched := JobAdded(s.sched, r.jobid, Entry(r, Scheduled), r.osts);
    GrantedNextTo(c, s, r, item, o, x);
    TwoInQueue(start, item);
    Then(c, s, first, Tick(r.start + 1));
    Then(c, s, first + [Tick(r.start + 1)], Mon(x));
    rest := [Srv(x)] + [Srv(x)] + [Srv(x)] + [Tick(r.start + 1)] + [Mon(x)];
    assert [Submit(r)] + rest == first + [Tick(r.start + 1)] + [Mon(x)];
    m := s.(clock := r.start + 1, sched := sched, mon := MPopped(start));
  }

  /** `r` is the only job, ACTIVE, and two stop events for it are queued: its own, and that of `prev`. */
  ghost predicate TwoStops(c: Config, s: State, prev: Reservation, r: Reservation) {
    && s.clock == r.start + 1 && s.inFlight == {} && s.srv == SIdle && s.mon == MDrain
    && s.sched.jobs == map[r.jobid := Entry(r, Active)]
    && s.queue == EQ.Pushed(c.queueFixed, [WaitingItem(prev.jobid, prev.end, JobStop)],
                            WaitingItem(r.jobid, r.end, JobStop))
  }

  lemma StartedNextToStop(c: Config, s: State, prev: Reservation, r: Reservation, o: string, x: Oracle)
    returns (rest: seq<Step>, m: State)
    requires c.queueFixed && OnlyQueued(s, WaitingItem(prev.jobid, prev.end, JobStop), map[])
    requires ListOf(s.sched.lists, o) == [] && x.leftover == 0 && r.jobid !in s.rules.active
    requires r.start == s.clock <= r.end && r.start < prev.end && r.osts == [o]
    requires o in c.limits && r.mbs <= c.limits[o] && o in c.ipOf && c.ipOf[o] != "" && c.ipOf[o] in x.ok
    ensures Run(c, s, [Submit(r)] + rest) == Some(m) && SubmitsNothing(rest) && TwoStops(c, m, prev, r)
  {
    var first, popped := GrantedAndPopped(c, s, r, WaitingItem(prev.jobid, prev.end, JobStop), o, x);
    var second;
    second, m := StartedByAny(c, popped, r, r.start, o, x);
    RunAppend(c, s, [Submit(r)] + first, second);
    SubmitsNothingAppend(first, second);
    rest := first + second;
    assert [Submit(r)] + rest == [Submit(r)] + first + second;
  }

  lemma OneQueued(item: WaitingItem)
    ensures EQ.CountFor([item], item.jobid) == 1
  {
    FirstPush(true, item);
    EQ.SumPushed(true, [], item, EQ.IsFor(item.jobid));
  }

  /** Two early submissions, the queue and the erase put right: a job that is ACTIVE with two stop events,
      of which the other one is due first if its predecessor would have ended before it. */
  lemma EarlyReuseLeavesTwoStops(c: Config, r1: Reservation, r2: Reservation, r3: Reservation, now: int, o: string,
                                 x: Oracle) returns (steps: seq<Step>, m: State)
    requires c.queueFixed && c.listErased && x.leftover == 0
    requires r1.jobid == r2.jobid == r3.jobid && r1.osts == r2.osts == r3.osts == [o]
    requires r1.start == now <= r1.end < r2.start == r3.start < r2.end && r3.start <= r3.end
    requires o in c.limits && r1.mbs <= c.limits[o] && r2.mbs <= c.limits[o] && r3.mbs <= c.limits[o]
    requires o in c.ipOf && c.ipOf[o] != "" && c.ipOf[o] in x.ok
    ensures Run(c, Start(now), steps) == Some(m) && EarlyReuses(c, Start(now), steps, r3.jobid) == 2
    ensures TwoStops(c, m, r2, r3)
  {
    var first, s := EarlyReuseLeavesTwoEvents(c, r1, r2, now, o, x);
    var second, s1 := StopOutlivesJob(c, s, r2, o, x);
    RunAppend(c, Start(now), first, second);
    var third;
    third, m := StartedNextToStop(c, s1, r2, r3, o, x);
    RunAppend(c, Start(now), first + second, [Submit(r3)] + third);
    OneQueued(WaitingItem(r2.jobid, r2.end, JobStop));
    OneSubmission(c, s1, r3, third);
    NoSubmissionNoReuse(c, s, second, r3.jobid);
    EarlyReusesAppend(c, Start(now), first, second, r3.jobid);
    EarlyReusesAppend(c, Start(now), first + second, [Submit(r3)] + third, r3.jobid);
    steps := first + second + ([Submit(r3)] + third);
  }

  /** The earlier of the two stop events is popped at the first look after it is due. */
  lemma EarlierStopPopped(c: Config, s: State, prev: Reservation, r: Reservation, x: Oracle) returns (m: State)
    requires c.queueFixed && TwoStops(c, s, prev, r) && r.start < prev.end < r.end
    ensures Run(c, s, [Tick(prev.end + 1)] + [Mon(x)]) == Some(m)
    ensures m == s.(clock := prev.end + 1, queue := [WaitingItem(r.jobid, r.end, JobStop)],
                    mon := MPopped(WaitingItem(prev.jobid, prev.end, JobStop)))
  {
    var first, second := WaitingItem(prev.jobid, prev.end, JobStop), WaitingItem(r.jobid, r.end, JobStop);
    SecondPush(true, first, second);
    TwoInQueue(first, second);
    OneStep(c, s, Tick(prev.end + 1));
    Then(c, s, [Tick(prev.end + 1)], Mon(x));
    m := s.(clock := prev.end + 1, queue := [second], mon := MPopped(first));
  }

  /** So the granted reservation is gone before its end, nobody having asked for it. */
  lemma EarlierStopTakesJob(c: Config, s: State, prev: Reservation, r: Reservation, x: Oracle)
    returns (steps: seq<Step>, m: State)
    requires c.queueFixed && TwoStops(c, s, prev, r) && prev.jobid == r.jobid && r.start < prev.end < r.end
    ensures Run(c, s, steps) == Some(m) && r.jobid !in m.sched.jobs && m.clock <= r.end
    ensures forall st :: st in steps ==> !st.Delete?
  {
    var popped := EarlierStopPopped(c, s, prev, r, x);
    var first := [Tick(prev.end + 1)] + [Mon(x)];
    var second := DueStopIsHandled(c, popped, r.jobid, prev.end, x);
    RunAppend(c, s, first, second);
    steps := first + second;
    m := Run(c, s, steps).value;
  }
}
