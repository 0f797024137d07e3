// Stretches of a run whose outcome is known: a request being admitted, a due event being handled.
module Stretches {
  import opened Jobs
  import opened ScheduleState
  import opened Admission
  import opened Rules
  import opened Engine
  import EQ = EventQueue

  lemma {:induction false} RunAppend(c: Config, s: State, a: seq<Step>, b: seq<Step>)
    requires Run(c, s, a).Some?
    ensures Run(c, s, a + b) == Run(c, Run(c, s, a).value, b)
    decreases |b|
  {
    if b == [] {
      assert a + b == a;
    } else {
      assert (a + b)[..|a + b| - 1] == a + b[..|b| - 1];
      RunAppend(c, s, a, b[..|b| - 1]);
    }
  }

  lemma OneStep(c: Config, s: State, st: Step)
    requires Enabled(s, st)
    ensures Run(c, s, [st]) == Some(Next(c, s, st))
  {
    assert [st][..0] == [];
  }

  /** `steps`, and then `st`. */
  lemma Then(c: Config, s: State, steps: seq<Step>, st: Step)
    requires Run(c, s, steps).Some? && Enabled(Run(c, s, steps).value, st)
    ensures Run(c, s, steps + [st]) == Some(Next(c, Run(c, s, steps).value, st))
  {
    OneStep(c, Run(c, s, steps).value, st);
    RunAppend(c, s, steps, [st]);
  }

  /** The monitor is left alone. */
  ghost predicate MonOnly(steps: seq<Step>, x: Oracle) {
    forall i :: 0 <= i < |steps| ==> steps[i] == Mon(x)
  }

  ghost predicate SubmitsNothing(steps: seq<Step>) {
    forall i :: 0 <= i < |steps| ==> !steps[i].Submit?
  }

  lemma SubmitsNothingAppend(a: seq<Step>, b: seq<Step>)
    requires SubmitsNothing(a) && SubmitsNothing(b)
    ensures SubmitsNothing(a + b)
  {
  }

  lemma MonOnlySubmitsNothing(steps: seq<Step>, x: Oracle)
    requires MonOnly(steps, x)
    ensures SubmitsNothing(steps)
  {
  }

  /** One more step of the monitor, from where `steps` has led. */
  lemma MonTurn(c: Config, s: State, steps: seq<Step>, m: State, x: Oracle) returns (longer: seq<Step>)
    requires Run(c, s, steps) == Some(m) && MonOnly(steps, x) && MonEnabled(m)
    ensures Run(c, s, longer) == Some(MonStep(c, m, x)) && MonOnly(longer, x) && |longer| == |steps| + 1
  {
    Then(c, s, steps, Mon(x));
    longer := steps + [Mon(x)];
  }

  /** An idle server admits a fresh request for one OST that passes the check. */
  lemma Admits(c: Config, s: State, r: Reservation, o: string, x: Oracle)
    requires s.srv.SIdle? && r.start == s.clock <= r.end && r.osts == [o] && r.jobid !in s.sched.jobs
    requires var load := ReportedLoad(c.loadStored, s.sched.lists, o, r.start, r.end, x.leftover);
             EnoughResources(c.limits, o, load, r.mbs)
    ensures Run(c, s, [Submit(r)] + [Srv(x)] + [Srv(x)] + [Srv(x)])
         == Some(s.(sched := JobAdded(s.sched, r.jobid, Entry(r, Scheduled), r.osts),
                    queue := EQ.Pushed(c.queueFixed, s.queue, WaitingItem(r.jobid, r.start, JobStart))))
  {
    OneStep(c, s, Submit(r));
    Then(c, s, [Submit(r)], Srv(x));
    Then(c, s, [Submit(r)] + [Srv(x)], Srv(x));
    Then(c, s, [Submit(r)] + [Srv(x)] + [Srv(x)], Srv(x));
  }

  /** What handling the start event of `id` comes to when every install succeeds. */
  function Served(c: Config, s: State, id: string, x: Oracle): (s': State)
    requires id in s.sched.jobs
  {
    var res := s.sched.jobs[id].res;
    s.(sched := JobUpdated(s.sched, id, Active),
       queue := EQ.Pushed(c.queueFixed, s.queue, WaitingItem(id, res.end, JobStop)),
       rules := RulesSet(c.cleanupFixed, c.ipOf, s.rules, res.osts, id, res.mbs, x.ok, x.gone).0,
       mon := MDrain)
  }

  /** Block the id, look at the job, fetch its throughput and its OSTs. */
  lemma StartLooksUp(c: Config, s: State, id: string, t: int, x: Oracle) returns (steps: seq<Step>)
    requires s.mon == MPopped(WaitingItem(id, t, JobStart)) && id !in s.inFlight && HasState(s, id, Scheduled)
    ensures |steps| == 4 && MonOnly(steps, x)
    ensures var res := s.sched.jobs[id].res;
            Run(c, s, steps) == Some(s.(inFlight := s.inFlight + {id}, mon := MStartRules(id, res.mbs, res.osts)))
  {
    var res := s.sched.jobs[id].res;
    var held := s.(inFlight := s.inFlight + {id});
    steps := MonTurn(c, s, [], s, x);
    steps := MonTurn(c, s, steps, held.(mon := MStartCheck(id)), x);
    steps := MonTurn(c, s, steps, held.(mon := MStartMbs(id)), x);
    steps := MonTurn(c, s, steps, held.(mon := MStartOsts(id, res.mbs)), x);
  }

  /** Mark the job ACTIVE, queue its stop event, unblock the id. */
  lemma StartFinishes(c: Config, s: State, id: string, x: Oracle) returns (steps: seq<Step>)
    requires s.mon == MStartUpdate(id) && id in s.sched.jobs
    ensures |steps| == 4 && MonOnly(steps, x)
    ensures Run(c, s, steps)
         == Some(s.(sched := JobUpdated(s.sched, id, Active), inFlight := s.inFlight - {id}, mon := MDrain,
                    queue := EQ.Pushed(c.queueFixed, s.queue, WaitingItem(id, s.sched.jobs[id].res.end, JobStop))))
  {
    var active := s.(sched := JobUpdated(s.sched, id, Active));
    var tend := s.sched.jobs[id].res.end;
    steps := MonTurn(c, s, [], s, x);
    steps := MonTurn(c, s, steps, active.(mon := MStartEnd(id)), x);
    steps := MonTurn(c, s, steps, active.(mon := MStartPush(id, tend)), x);
    var queued := EQ.Pushed(c.queueFixed, s.queue, WaitingItem(id, tend, JobStop));
    steps := MonTurn(c, s, steps, active.(queue := queued, mon := MRelease(id)), x);
  }

  lemma MonOnlyAppend(a: seq<Step>, b: seq<Step>, x: Oracle)
    requires MonOnly(a, x) && MonOnly(b, x)
    ensures MonOnly(a + b, x)
  {
  }

  /** The event handled up to and including SetRules. */
  lemma StartSetsRules(c: Config, s: State, id: string, t: int, x: Oracle) returns (steps: seq<Step>)
    requires s.mon == MPopped(WaitingItem(id, t, JobStart)) && id !in s.inFlight && HasState(s, id, Scheduled)
    requires var res := s.sched.jobs[id].res;
             RulesSet(c.cleanupFixed, c.ipOf, s.rules, res.osts, id, res.mbs, x.ok, x.gone).1
    ensures |steps| == 5 && MonOnly(steps, x)
    ensures Run(c, s, steps)
         == Some(s.(inFlight := s.inFlight + {id}, rules := Served(c, s, id, x).rules, mon := MStartUpdate(id)))
  {
    var res := s.sched.jobs[id].res;
    steps := StartLooksUp(c, s, id, t, x);
    steps := MonTurn(c, s, steps, s.(inFlight := s.inFlight + {id}, mon := MStartRules(id, res.mbs, res.osts)), x);
  }

  /** A reservation whose start event is popped is served: if its id is not in flight and the OSSs
      accept their rules, nine steps of the monitor make it ACTIVE, put its rules in place and queue
      its stop event. */
  lemma DueReservationIsServed(c: Config, s: State, id: string, t: int, x: Oracle) returns (steps: seq<Step>)
    requires s.mon == MPopped(WaitingItem(id, t, JobStart)) && id !in s.inFlight && HasState(s, id, Scheduled)
    requires var res := s.sched.jobs[id].res;
             RulesSet(c.cleanupFixed, c.ipOf, s.rules, res.osts, id, res.mbs, x.ok, x.gone).1
    ensures |steps| == 9 && MonOnly(steps, x) && Run(c, s, steps) == Some(Served(c, s, id, x))
  {
    var first := StartSetsRules(c, s, id, t, x);
    var second := StartFinishes(c, Run(c, s, first).value, id, x);
    RunAppend(c, s, first, second);
    MonOnlyAppend(first, second, x);
    steps := first + second;
    assert s.inFlight + {id} - {id} == s.inFlight;
  }

  /** Mark the job DONE, take it off the schedule, unblock the id. */
  lemma StopFinishes(c: Config, s: State, id: string, x: Oracle) returns (steps: seq<Step>)
    requires s.mon == MStopUpdate(id) && id in s.sched.jobs
    ensures |steps| == 3 && MonOnly(steps, x)
    ensures Run(c, s, steps)
         == Some(s.(sched := JobRemoved(c.listErased, s.sched, id), inFlight := s.inFlight - {id}, mon := MDrain))
  {
    var done := JobUpdated(s.sched, id, Done);
    assert done.jobs - {id} == s.sched.jobs - {id};
    steps := MonTurn(c, s, [], s, x);
    steps := MonTurn(c, s, steps, s.(sched := done, mon := MStopRemove(id)), x);
    steps := MonTurn(c, s, steps, s.(sched := JobRemoved(c.listErased, s.sched, id), mon := MRelease(id)), x);
  }

  /** Block the id, look at the job, remove its rules. */
  lemma StopRemovesRules(c: Config, s: State, id: string, t: int, x: Oracle) returns (steps: seq<Step>)
    requires s.mon == MPopped(WaitingItem(id, t, JobStop)) && id !in s.inFlight && HasState(s, id, Active)
    ensures |steps| == 3 && MonOnly(steps, x)
    ensures Run(c, s, steps)
         == Some(s.(inFlight := s.inFlight + {id}, rules := RulesRemoved(s.rules, id, x.gone).0,
                    mon := MStopUpdate(id)))
  {
    var held := s.(inFlight := s.inFlight + {id});
    steps := MonTurn(c, s, [], s, x);
    steps := MonTurn(c, s, steps, held.(mon := MStopCheck(id)), x);
    steps := MonTurn(c, s, steps, held.(mon := MStopRules(id)), x);
  }

  /** A due stop event of an ACTIVE job is handled in six steps: rules and job are gone. */
  lemma DueStopIsHandled(c: Config, s: State, id: string, t: int, x: Oracle) returns (steps: seq<Step>)
    requires s.mon == MPopped(WaitingItem(id, t, JobStop)) && id !in s.inFlight && HasState(s, id, Active)
    ensures |steps| == 6 && MonOnly(steps, x)
    ensures Run(c, s, steps)
         == Some(s.(sched := JobRemoved(c.listErased, s.sched, id), rules := RulesRemoved(s.rules, id, x.gone).0,
                    mon := MDrain))
  {
    var first := StopRemovesRules(c, s, id, t, x);
    var second := StopFinishes(c, Run(c, s, first).value, id, x);
    RunAppend(c, s, first, second);
    MonOnlyAppend(first, second, x);
    steps := first + second;
    assert s.inFlight + {id} - {id} == s.inFlight;
  }

  /** The monitor wakes up and takes the event at the front. */
  lemma EventIsPopped(c: Config, s: State, now: int, x: Oracle)
    requires s.mon.MWait? && s.clock <= now && EQ.Ready(s.queue, now)
    ensures Run(c, s, [Tick(now)] + [Wake] + [Mon(x)])
         == Some(s.(clock := now, queue := EQ.Popped(c.queueFixed, s.queue), mon := MPopped(s.queue[0])))
  {
    OneStep(c, s, Tick(now));
    Then(c, s, [Tick(now)], Wake);
    Then(c, s, [Tick(now)] + [Wake], Mon(x));
  }

  /** The only event in the queue is popped. */
  lemma OnlyEventIsPopped(c: Config, s: State, item: WaitingItem, now: int, x: Oracle) returns (steps: seq<Step>)
    requires s.mon == MWait && s.queue == [item] && s.clock <= now && item.time < now
    ensures Run(c, s, steps) == Some(s.(clock := now, queue := [], mon := MPopped(item))) && SubmitsNothing(steps)
  {
    EventIsPopped(c, s, now, x);
    assert EQ.Popped(c.queueFixed, [item]) == [];
    steps := [Tick(now)] + [Wake] + [Mon(x)];
  }

  /** Only the server moves. */
  ghost predicate SrvOnly(steps: seq<Step>, x: Oracle) {
    forall i :: 0 <= i < |steps| ==> steps[i] == Srv(x)
  }

  /** The same, whatever the outside decides at each step. */
  ghost predicate SrvSteps(steps: seq<Step>) {
    forall i :: 0 <= i < |steps| ==> steps[i].Srv?
  }

  lemma SrvOnlySubmitsNothing(steps: seq<Step>, x: Oracle)
    requires SrvOnly(steps, x)
    ensures SubmitsNothing(steps)
  {
  }

  /** Erase and unblock, in either order. */
  lemma StopDoneAlone(c: Config, s: State, id: string, rest: seq<string>, x: Oracle) returns (steps: seq<Step>)
    requires s.srv == StopDone(c, id, rest)
    ensures SrvOnly(steps, x)
    ensures Run(c, s, steps)
         == Some(s.(sched := JobRemoved(c.listErased, s.sched, id), inFlight := s.inFlight - {id},
                    srv := NextRemoval(rest)))
  {
    OneStep(c, s, Srv(x));
    Then(c, s, [Srv(x)], Srv(x));
    steps := [Srv(x)] + [Srv(x)];
  }

  /** Block, dequeue, and look at the state. */
  lemma UnregisterLooks(c: Config, s: State, id: string, rest: seq<string>, x: Oracle) returns (steps: seq<Step>)
    requires s.srv == SBlock(id, rest) && id !in s.inFlight
    ensures SrvOnly(steps, x)
    ensures Run(c, s, steps)
         == Some(s.(inFlight := s.inFlight + {id}, queue := EQ.Removed(c.queueFixed, s.queue, id),
                    srv := if HasState(s, id, Active) then SStopCheck(id, rest) else StopDone(c, id, rest)))
  {
    OneStep(c, s, Srv(x));
    Then(c, s, [Srv(x)], Srv(x));
    Then(c, s, [Srv(x)] + [Srv(x)], Srv(x));
    steps := [Srv(x)] + [Srv(x)] + [Srv(x)];
  }

  lemma StopJobAlone(c: Config, s: State, id: string, rest: seq<string>, x: Oracle) returns (steps: seq<Step>)
    requires s.srv == SStopCheck(id, rest) && HasState(s, id, Active)
    ensures SrvOnly(steps, x)
    ensures Run(c, s, steps)
         == Some(s.(sched := JobUpdated(s.sched, id, Done), rules := RulesRemoved(s.rules, id, x.gone).0,
                    srv := StopDone(c, id, rest)))
  {
    OneStep(c, s, Srv(x));
    Then(c, s, [Srv(x)], Srv(x));
    Then(c, s, [Srv(x)] + [Srv(x)], Srv(x));
    steps := [Srv(x)] + [Srv(x)] + [Srv(x)];
  }

  /** A removal of a job that has not started takes it out of the queue and the schedule, in either
      order of unblocking and erasing. */
  lemma ScheduledJobIsRemoved(c: Config, s: State, id: string, x: Oracle) returns (steps: seq<Step>)
    requires s.srv.SIdle? && id !in s.inFlight && !HasState(s, id, Active)
    ensures Run(c, s, steps)
         == Some(s.(sched := JobRemoved(c.listErased, s.sched, id), queue := EQ.Removed(c.queueFixed, s.queue, id)))
    ensures SubmitsNothing(steps)
  {
    assert [id][1..] == [];
    OneStep(c, s, Delete([id]));
    var first := UnregisterLooks(c, s.(srv := SBlock(id, [])), id, [], x);
    RunAppend(c, s, [Delete([id])], first);
    var m := Run(c, s, [Delete([id])] + first).value;
    var second := StopDoneAlone(c, m, id, [], x);
    RunAppend(c, s, [Delete([id])] + first, second);
    SrvOnlySubmitsNothing(first, x);
    SrvOnlySubmitsNothing(second, x);
    steps := [Delete([id])] + first + second;
    assert s.inFlight + {id} - {id} == s.inFlight;
  }
}
