// How many events a job has outstanding, and what is left of a job after its removal.
module Events {
  import opened Jobs
  import opened Engine
  import opened Safety
  import EQ = EventQueue

  // ---------- one event at a time ----------

  /** The monitor carries the event of `id`: popped, or being turned into its stop event. */
  predicate MonCarries(s: State, id: string) {
    || (s.mon.MPopped? && s.mon.item.jobid == id)
    || (MonStarting(s.mon) && s.mon.id == id)
  }

  /** The server is about to queue the start event of `id`. */
  predicate SrvCarries(s: State, id: string) {
    (s.srv.SCheck? || s.srv.SRegister?) && s.srv.r.jobid == id
  }

  /** The events of `id`: queued, with the monitor, or with the server. */
  function Outstanding(s: State, id: string): (n: nat) {
    EQ.CountFor(s.queue, id) + (if MonCarries(s, id) then 1 else 0) + (if SrvCarries(s, id) then 1 else 0)
  }

  /** `id` is submitted only while no event for it is pending. */
  predicate Careful(s: State, st: Step, id: string) {
    st.Submit? && st.r.jobid == id ==> Outstanding(s, id) == 0
  }

  function CarefulFor(id: string): (ok: (State, Step) -> bool) {
    (s: State, st: Step) => Careful(s, st, id)
  }

  lemma MonQueueEvents(c: Config, s: State, x: Oracle, id: string)
    requires MonEnabled(s)
    ensures var q, q' := s.queue, MonStep(c, s, x).queue;
            if s.mon.MDrain? && EQ.Ready(q, s.clock)
            then EQ.CountFor(q, id) == EQ.CountFor(q', id) + if q[0].jobid == id then 1 else 0
            else EQ.CountFor(q', id) == EQ.CountFor(q, id) + if s.mon.MStartPush? && s.mon.id == id then 1 else 0
  {
    if s.mon.MDrain? && EQ.Ready(s.queue, s.clock) {
      EQ.SumPopped(c.queueFixed, s.queue, EQ.IsFor(id));
    } else if s.mon.MStartPush? {
      EQ.SumPushed(c.queueFixed, s.queue, WaitingItem(s.mon.id, s.mon.tend, JobStop), EQ.IsFor(id));
    }
  }

  lemma MonCarriesOn(c: Config, s: State, x: Oracle, id: string)
    requires MonEnabled(s)
    ensures MonCarries(MonStep(c, s, x), id) ==>
              || (s.mon.MDrain? && EQ.Ready(s.queue, s.clock) && s.queue[0].jobid == id)
              || (MonCarries(s, id) && !s.mon.MStartPush?)
    ensures MonStep(c, s, x).srv == s.srv
  {
  }

  lemma MonNeverAddsEvents(c: Config, s: State, x: Oracle, id: string)
    requires MonEnabled(s)
    ensures Outstanding(MonStep(c, s, x), id) <= Outstanding(s, id)
  {
    MonQueueEvents(c, s, x, id);
    MonCarriesOn(c, s, x, id);
  }

  lemma SrvQueueEvents(c: Config, s: State, x: Oracle, id: string)
    requires SrvEnabled(s)
    ensures EQ.CountFor(SrvStep(c, s, x).queue, id)
         <= EQ.CountFor(s.queue, id) + if s.srv.SRegister? && s.srv.r.jobid == id then 1 else 0
    ensures s.srv.SDequeue? && s.srv.id == id ==>
              || EQ.CountFor(SrvStep(c, s, x).queue, id) == 0
              || EQ.CountFor(SrvStep(c, s, x).queue, id) < EQ.CountFor(s.queue, id)
  {
    if s.srv.SRegister? {
      EQ.SumPushed(c.queueFixed, s.queue, WaitingItem(s.srv.r.jobid, s.srv.r.start, JobStart), EQ.IsFor(id));
    } else if s.srv.SDequeue? {
      EQ.SumRemoved(c.queueFixed, s.queue, s.srv.id, EQ.IsFor(id));
      EQ.CountForNone(s.queue, s.srv.id);
    }
  }

  lemma SrvNeverAddsEvents(c: Config, s: State, x: Oracle, id: string)
    requires SrvEnabled(s)
    ensures Outstanding(SrvStep(c, s, x), id) <= Outstanding(s, id)
  {
    SrvQueueEvents(c, s, x, id);
  }

  /** Only a submission makes an event; everything else passes it on or drops it. */
  lemma StepNeverAddsEvents(c: Config, s: State, st: Step, id: string)
    requires Enabled(s, st)
    ensures Outstanding(Next(c, s, st), id)
         <= Outstanding(s, id) + if st.Submit? && st.r.jobid == id then 1 else 0
  {
    match st
    case Mon(x) => MonNeverAddsEvents(c, s, x, id);
    case Srv(x) => SrvNeverAddsEvents(c, s, x, id);
    case _ =>
  }

  lemma {:induction false} CarefulRuns(c: Config, s: State, steps: seq<Step>, id: string)
    requires Outstanding(s, id) <= 1 && Run(c, s, steps).Some? && Along(c, s, steps, CarefulFor(id))
    ensures Outstanding(Run(c, s, steps).value, id) <= 1
    decreases |steps|
  {
    if steps != [] {
      var front := steps[..|steps| - 1];
      CarefulRuns(c, s, front, id);
      StepNeverAddsEvents(c, Run(c, s, front).value, steps[|steps| - 1], id);
    }
  }

  /** Exactly one stop event, at the end time, and no other event, for every ACTIVE job outside
      in-flight handling; the departures may be as shipped. */
  lemma ExactlyOneStop(c: Config, now: int, steps: seq<Step>, id: string)
    requires Run(c, Start(now), steps).Some? && Along(c, Start(now), steps, CarefulFor(id))
    ensures var s := Run(c, Start(now), steps).value;
            HasState(s, id, Active) && id !in s.inFlight ==>
              var stop := WaitingItem(id, s.sched.jobs[id].res.end, JobStop);
              && EQ.CountFor(s.queue, id) + (if s.mon.MPopped? && s.mon.item.jobid == id then 1 else 0) == 1
              && (forall x :: x in s.queue && x.jobid == id ==> x == stop)
              && (s.mon.MPopped? && s.mon.item.jobid == id ==> s.mon.item == stop)
  {
    ActiveJobsAreGuarded(c, now, steps, id);
    CarefulRuns(c, Start(now), steps, id);
    var s := Run(c, Start(now), steps).value;
    if HasState(s, id, Active) && id !in s.inFlight {
      var stop := WaitingItem(id, s.sched.jobs[id].res.end, JobStop);
      assert StopPending(s, id);
      EQ.CountForNone(s.queue, id);
      forall x | x in s.queue && x.jobid == id ensures x == stop && stop in s.queue {
        var i :| 0 <= i < |s.queue| && s.queue[i] == x;
        if stop in s.queue {
          var j :| 0 <= j < |s.queue| && s.queue[j] == stop;
          EQ.CountForOne(s.queue, i, j, id);
        }
      }
    }
  }

  /** How often in this run `id` was submitted while an event for it was pending. */
  function EarlyReuses(c: Config, s: State, steps: seq<Step>, id: string): (n: nat) {
    if steps == [] then 0
    else
      var front, last := steps[..|steps| - 1], steps[|steps| - 1];
      EarlyReuses(c, s, front, id)
      + if Run(c, s, front).Some? && !Careful(Run(c, s, front).value, last, id) then 1 else 0
  }

  lemma {:induction false} CarefulIffNoEarlyReuse(c: Config, s: State, steps: seq<Step>, id: string)
    requires Run(c, s, steps).Some?
    ensures Along(c, s, steps, CarefulFor(id)) <==> EarlyReuses(c, s, steps, id) == 0
    decreases |steps|
  {
    if steps != [] {
      CarefulIffNoEarlyReuse(c, s, steps[..|steps| - 1], id);
    }
  }

  /** What early reuse can do: every such submission leaves at most one event more than there should be. */
  lemma {:induction false} EarlyReuseAddsOne(c: Config, now: int, steps: seq<Step>, id: string)
    requires Run(c, Start(now), steps).Some?
    ensures Outstanding(Run(c, Start(now), steps).value, id) <= 1 + EarlyReuses(c, Start(now), steps, id)
    decreases |steps|
  {
    if steps != [] {
      var front := steps[..|steps| - 1];
      EarlyReuseAddsOne(c, now, front, id);
      StepNeverAddsEvents(c, Run(c, Start(now), front).value, steps[|steps| - 1], id);
    }
  }

  // ---------- after a removal ----------

  /** The monitor holds `id` only where it can do nothing for a job that is gone. */
  predicate MonAway(s: State, id: string) {
    MonHolds(s.mon) == {id} ==> s.mon.MStartCheck? || s.mon.MStopCheck? || s.mon.MStopRemove? || s.mon.MRelease?
  }

  /** Nothing of `id` is left, and no thread is on its way to bring any of it back. */
  ghost predicate Vanished(s: State, id: string) {
    && id !in s.sched.jobs
    && id !in s.rules.active
    && EQ.CountFor(s.queue, id) == 0
    && !SrvCarries(s, id)
    && MonAway(s, id)
  }

  lemma MonBringsNothing(c: Config, s: State, x: Oracle, id: string)
    requires Vanished(s, id) && MonEnabled(s)
    ensures id !in MonStep(c, s, x).sched.jobs && id !in MonStep(c, s, x).rules.active
    ensures MonStep(c, s, x).srv == s.srv
  {
    if MonHolds(s.mon) != {} && s.mon.id != id {
      assert MonHolds(s.mon) != {id};
    }
  }

  lemma MonStaysAway(c: Config, s: State, x: Oracle, id: string)
    requires Vanished(s, id) && MonEnabled(s)
    ensures MonAway(MonStep(c, s, x), id)
  {
    assert MonHolds(s.mon) != {} ==> (MonHolds(s.mon) == {id} <==> s.mon.id == id);
  }

  lemma VanishedStaysMon(c: Config, s: State, x: Oracle, id: string)
    requires Vanished(s, id) && MonEnabled(s)
    ensures Vanished(MonStep(c, s, x), id)
  {
    MonQueueEvents(c, s, x, id);
    MonBringsNothing(c, s, x, id);
    MonStaysAway(c, s, x, id);
  }

  lemma SrvBringsBack(c: Config, s: State, x: Oracle, id: string)
    requires SrvEnabled(s) && !SrvCarries(s, id)
    ensures id !in s.sched.jobs ==> id !in SrvStep(c, s, x).sched.jobs
    ensures id !in s.rules.active ==> id !in SrvStep(c, s, x).rules.active
    ensures !SrvCarries(SrvStep(c, s, x), id) && SrvStep(c, s, x).mon == s.mon
  {
  }

  lemma VanishedStaysSrv(c: Config, s: State, x: Oracle, id: string)
    requires Vanished(s, id) && SrvEnabled(s)
    ensures Vanished(SrvStep(c, s, x), id)
  {
    SrvQueueEvents(c, s, x, id);
    SrvBringsBack(c, s, x, id);
  }

  /** Only a new submission of the id changes that. */
  lemma VanishedStays(c: Config, s: State, st: Step, id: string)
    requires Vanished(s, id) && Enabled(s, st) && !(st.Submit? && st.r.jobid == id)
    ensures Vanished(Next(c, s, st), id)
  {
    match st
    case Mon(x) => VanishedStaysMon(c, s, x, id);
    case Srv(x) => VanishedStaysSrv(c, s, x, id);
    case _ =>
  }

  /** Past the dequeue, the queue holds nothing of `id` while the server is removing it. */
  ghost predicate Dequeued(c: Config, s: State, id: string) {
    SrvHolds(c, s.srv) == {id} && !s.srv.SDequeue? ==> EQ.CountFor(s.queue, id) == 0
  }

  lemma MonKeepsDequeued(c: Config, s: State, x: Oracle, id: string)
    requires Locked(c, s) && Dequeued(c, s, id) && MonEnabled(s)
    ensures Dequeued(c, MonStep(c, s, x), id)
  {
    if SrvHolds(c, s.srv) == {id} && !s.srv.SDequeue? {
      assert id in SrvHolds(c, s.srv);
      MonNeverAddsEvents(c, s, x, id);
    }
  }

  lemma SrvKeepsDequeued(c: Config, s: State, x: Oracle, id: string)
    requires Dequeued(c, s, id) && SrvEnabled(s) && Outstanding(s, id) <= 1
    ensures Dequeued(c, SrvStep(c, s, x), id)
  {
    if SrvRemoving(s.srv) {
      SrvQueueEvents(c, s, x, id);
    }
  }

  lemma StepKeepsDequeued(c: Config, s: State, st: Step, id: string)
    requires Locked(c, s) && Dequeued(c, s, id) && Enabled(s, st) && Outstanding(s, id) <= 1
    ensures Dequeued(c, Next(c, s, st), id)
  {
    match st
    case Mon(x) => MonKeepsDequeued(c, s, x, id);
    case Srv(x) => SrvKeepsDequeued(c, s, x, id);
    case _ =>
  }

  /** What a run with the removal serialised keeps when `id` is submitted with care. */
  ghost predicate Tidy(c: Config, s: State, id: string) {
    c.removalSerialised && Locked(c, s) && CleanInv(c, s) && Dequeued(c, s, id) && Outstanding(s, id) <= 1
  }

  lemma StepKeepsTidy(c: Config, s: State, st: Step, id: string)
    requires Tidy(c, s, id) && Enabled(s, st) && Careful(s, st, id)
    ensures Tidy(c, Next(c, s, st), id)
  {
    StepKeepsLocked(c, s, st);
    StepKeepsClean(c, s, st);
    StepKeepsDequeued(c, s, st, id);
    StepNeverAddsEvents(c, s, st, id);
  }

  lemma {:induction false} TidyRuns(c: Config, s: State, steps: seq<Step>, id: string)
    requires Tidy(c, s, id) && Run(c, s, steps).Some? && Along(c, s, steps, CarefulFor(id))
    ensures Tidy(c, Run(c, s, steps).value, id)
    decreases |steps|
  {
    if steps != [] {
      var front := steps[..|steps| - 1];
      TidyRuns(c, s, front, id);
      StepKeepsTidy(c, Run(c, s, front).value, steps[|steps| - 1], id);
    }
  }

  /** How far a removal request for `ids` has come: it is past the first `k`, and if `id` was among
      them nothing of it is left. */
  ghost predicate RemovedUpTo(s: State, ids: seq<string>, k: nat, id: string) {
    && k <= |ids|
    && (id in ids[..k] ==> Vanished(s, id))
    && (if k == |ids| then s.srv.SIdle?
        else SrvRemoving(s.srv) && s.srv.id == ids[k] && s.srv.rest == ids[k + 1..])
  }

  /** The server is done with one id and turns to the next. */
  lemma NextId(ids: seq<string>, k: nat)
    requires k < |ids|
    ensures ids[..k + 1] == ids[..k] + [ids[k]]
    ensures NextRemoval(ids[k + 1..]) == if k + 1 == |ids| then SIdle else SBlock(ids[k + 1], ids[k + 2..])
  {
    if k + 1 < |ids| {
      assert ids[k + 1..][0] == ids[k + 1] && ids[k + 1..][1..] == ids[k + 2..];
    }
  }

  lemma LastStepVanishes(c: Config, s: State, x: Oracle)
    requires s.srv.SRelease? && Tidy(c, s, s.srv.id)
    ensures Vanished(SrvStep(c, s, x), s.srv.id)
  {
    assert SrvHolds(c, s.srv) == {s.srv.id} && s.srv.id in SrvHolds(c, s.srv);
  }

  lemma RemovalAdvances(c: Config, s: State, st: Step, ids: seq<string>, k: nat, id: string) returns (k': nat)
    requires Tidy(c, s, id) && Enabled(s, st) && RemovedUpTo(s, ids, k, id) && k < |ids|
    ensures RemovedUpTo(Next(c, s, st), ids, k', id)
  {
    k' := k;
    if id in ids[..k] {
      VanishedStays(c, s, st, id);
    }
    if st.Srv? && s.srv.SRelease? {
      NextId(ids, k);
      k' := k + 1;
      if ids[k] == id {
        LastStepVanishes(c, s, st.x);
      }
    }
  }

  /** The server has been busy at every step. */
  ghost predicate Busy(c: Config, s: State, steps: seq<Step>) {
    forall i :: 0 <= i < |steps| && Run(c, s, steps[..i]).Some? ==> !Run(c, s, steps[..i]).value.srv.SIdle?
  }

  lemma BusyBefore(c: Config, s: State, steps: seq<Step>)
    requires Busy(c, s, steps) && steps != [] && Run(c, s, steps).Some?
    ensures Busy(c, s, steps[..|steps| - 1]) && !Run(c, s, steps[..|steps| - 1]).value.srv.SIdle?
  {
    var front := steps[..|steps| - 1];
    forall i | 0 <= i < |front| ensures front[..i] == steps[..i] {
    }
  }

  lemma {:induction false} RemovalRuns(c: Config, s: State, steps: seq<Step>, ids: seq<string>, k: nat, id: string)
    returns (k': nat)
    requires Tidy(c, s, id) && RemovedUpTo(s, ids, k, id)
    requires Run(c, s, steps).Some? && Busy(c, s, steps) && Along(c, s, steps, CarefulFor(id))
    ensures RemovedUpTo(Run(c, s, steps).value, ids, k', id)
    decreases |steps|
  {
    k' := k;
    if steps != [] {
      var front := steps[..|steps| - 1];
      BusyBefore(c, s, steps);
      k' := RemovalRuns(c, s, front, ids, k, id);
      TidyRuns(c, s, front, id);
      k' := RemovalAdvances(c, Run(c, s, front).value, steps[|steps| - 1], ids, k', id);
    }
  }

  /** ServeJobRemove, with unregistering and schedule removal one step under the block: when the
      server is idle again, every requested id is out of the schedule, the queue and the rules, if it
      was submitted only while no event for it was pending. */
  lemma RemovalLeavesNothing(c: Config, now: int, steps: seq<Step>, ids: seq<string>, more: seq<Step>, id: string)
    requires c.removalSerialised && id in ids
    requires Run(c, Start(now), steps).Some? && Along(c, Start(now), steps, CarefulFor(id))
    requires var s := Run(c, Start(now), steps).value;
             && s.srv.SIdle?
             && var s1 := Next(c, s, Delete(ids));
                && Run(c, s1, more).Some? && Run(c, s1, more).value.srv.SIdle? && Busy(c, s1, more)
                && Along(c, s1, more, CarefulFor(id))
    ensures var s1 := Next(c, Run(c, Start(now), steps).value, Delete(ids));
            Vanished(Run(c, s1, more).value, id)
  {
    TidyRuns(c, Start(now), steps, id);
    var s := Run(c, Start(now), steps).value;
    StepKeepsTidy(c, s, Delete(ids), id);
    var k := RemovalRuns(c, Next(c, s, Delete(ids)), more, ids, 0, id);
    assert ids[..k] == ids;
  }
}
