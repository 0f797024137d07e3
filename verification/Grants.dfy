// A granted reservation is kept: it leaves the schedule by request, or by its own stop event after its
// end, and otherwise not, exactly if no stop event was being handled for its id as it was stored.
module Grants {
  import opened Jobs
  import opened Engine
  import opened Safety
  import opened Events
  import opened Drain
  import opened Stretches
  import EQ = EventQueue

  // ---------- stop events reach their own job only ----------

  /** No queued stop event of `id` is due before the end of its reservation. */
  ghost predicate QueuedNotBefore(q: seq<WaitingItem>, id: string, end: int) {
    forall x :: x in q && x.jobid == id && x.event == JobStop ==> end <= x.time
  }

  /** The stop event that the monitor has taken for `id` was due after that end. */
  predicate TakenNotBefore(s: State, id: string, end: int) {
    && (s.mon.MPopped? && s.mon.item.jobid == id && s.mon.item.event == JobStop ==> end < s.clock)
    && (MonStopping(s.mon) && s.mon.id == id ==> end < s.clock)
    && (s.mon.MStartPush? && s.mon.id == id ==> end <= s.mon.tend)
  }

  /** No stop event can take a job of `id` away before `end` is over. */
  ghost predicate SafeUntil(s: State, id: string, end: int) {
    QueuedNotBefore(s.queue, id, end) && TakenNotBefore(s, id, end)
  }

  ghost predicate NoEarlyStop(s: State, id: string) {
    id in s.sched.jobs ==> SafeUntil(s, id, s.sched.jobs[id].res.end)
  }

  lemma MonKeepsQueued(c: Config, s: State, x: Oracle, id: string)
    requires MonEnabled(s) && id in s.sched.jobs && NoEarlyStop(s, id)
    ensures QueuedNotBefore(MonStep(c, s, x).queue, id, s.sched.jobs[id].res.end)
  {
    if s.mon.MDrain? && EQ.Ready(s.queue, s.clock) {
      EQ.PoppedMembers(c.queueFixed, s.queue);
    } else if s.mon.MStartPush? {
      EQ.PushedMembers(c.queueFixed, s.queue, WaitingItem(s.mon.id, s.mon.tend, JobStop));
    }
  }

  /** Where the monitor's event comes from. */
  lemma PoppedWasDue(c: Config, s: State, x: Oracle)
    requires MonEnabled(s) && MonStep(c, s, x).mon.MPopped?
    ensures EQ.Ready(s.queue, s.clock) && MonStep(c, s, x).mon.item == s.queue[0]
  {
  }

  lemma StoppingGoesOn(c: Config, s: State, x: Oracle)
    requires MonEnabled(s) && MonStopping(MonStep(c, s, x).mon)
    ensures || (MonStopping(s.mon) && s.mon.id == MonStep(c, s, x).mon.id)
            || (s.mon.MPopped? && s.mon.item.event == JobStop && s.mon.item.jobid == MonStep(c, s, x).mon.id)
  {
    match s.mon
    case MPopped(_) =>
    case MStopCheck(_) =>
    case MStopRules(_) =>
    case MStopUpdate(_) =>
    case _ =>
  }

  lemma PushWasRead(c: Config, s: State, x: Oracle)
    requires MonEnabled(s) && MonStep(c, s, x).mon.MStartPush?
    ensures var m := MonStep(c, s, x).mon;
            s.mon == MStartEnd(m.id) && m.id in s.sched.jobs && m.tend == s.sched.jobs[m.id].res.end
  {
  }

  lemma MonKeepsTaken(c: Config, s: State, x: Oracle, id: string)
    requires MonEnabled(s) && id in s.sched.jobs && NoEarlyStop(s, id)
    ensures TakenNotBefore(MonStep(c, s, x), id, s.sched.jobs[id].res.end)
  {
    var s' := MonStep(c, s, x);
    assert s'.clock == s.clock;
    if s'.mon.MPopped? {
      PoppedWasDue(c, s, x);
      assert s.queue[0] in s.queue;
    } else if MonStopping(s'.mon) {
      StoppingGoesOn(c, s, x);
    } else if s'.mon.MStartPush? {
      PushWasRead(c, s, x);
    }
  }

  lemma MonKeepsNoEarlyStop(c: Config, s: State, x: Oracle, id: string)
    requires MonEnabled(s) && NoEarlyStop(s, id)
    ensures NoEarlyStop(MonStep(c, s, x), id)
  {
    if id in MonStep(c, s, x).sched.jobs {
      MonKeepsEntry(c, s, x, id);
      MonKeepsQueued(c, s, x, id);
      MonKeepsTaken(c, s, x, id);
    }
  }

  lemma SrvKeepsQueued(c: Config, s: State, x: Oracle, id: string, end: int)
    requires SrvEnabled(s) && QueuedNotBefore(s.queue, id, end)
    ensures QueuedNotBefore(SrvStep(c, s, x).queue, id, end)
  {
    if s.srv.SRegister? {
      EQ.PushedMembers(c.queueFixed, s.queue, WaitingItem(s.srv.r.jobid, s.srv.r.start, JobStart));
    } else if s.srv.SDequeue? {
      EQ.RemovedMembers(c.queueFixed, s.queue, s.srv.id);
    }
  }

  /** The server is about to add the job of `id` to the schedule. */
  predicate Stores(s: State, id: string) {
    s.srv.SCheck? && s.srv.next >= |s.srv.r.osts| && s.srv.r.jobid == id && id !in s.sched.jobs
  }

  /** The monitor has blocked `id` for a stop event. */
  predicate StopInProgress(s: State, id: string) {
    MonStopping(s.mon) && s.mon.id == id
  }

  /** A job submitted with care finds no stop event of its id, but for one that is being handled. */
  lemma AddedJobIsSafe(s: State, id: string, end: int)
    requires Stores(s, id) && Outstanding(s, id) <= 1 && !StopInProgress(s, id)
    ensures SafeUntil(s, id, end)
  {
    EQ.CountForNone(s.queue, id);
  }

  lemma SrvKeepsNoEarlyStop(c: Config, s: State, x: Oracle, id: string)
    requires SrvEnabled(s) && NoEarlyStop(s, id)
    requires Stores(s, id) ==> SafeUntil(s, id, s.srv.r.end)
    ensures NoEarlyStop(SrvStep(c, s, x), id)
  {
    var s' := SrvStep(c, s, x);
    assert s'.mon == s.mon && s'.clock == s.clock;
    if id in s'.sched.jobs {
      SrvKeepsEntry(c, s, x, id);
      SrvKeepsQueued(c, s, x, id, s'.sched.jobs[id].res.end);
    }
  }

  lemma StepKeepsNoEarlyStop(c: Config, s: State, st: Step, id: string)
    requires Enabled(s, st) && NoEarlyStop(s, id)
    requires st.Srv? && Stores(s, id) ==> SafeUntil(s, id, s.srv.r.end)
    ensures NoEarlyStop(Next(c, s, st), id)
  {
    match st
    case Mon(x) => MonKeepsNoEarlyStop(c, s, x, id);
    case Srv(x) => SrvKeepsNoEarlyStop(c, s, x, id);
    case _ =>
  }

  /** `id` is not stored while a stop event for it is being handled, or can be before the new end. */
  ghost predicate Clear(s: State, st: Step, id: string) {
    st.Srv? && Stores(s, id) ==> SafeUntil(s, id, s.srv.r.end)
  }

  ghost function ClearFor(id: string): (ok: (State, Step) -> bool) {
    (s: State, st: Step) => Clear(s, st, id)
  }

  lemma {:induction false} ClearRuns(c: Config, now: int, steps: seq<Step>, id: string)
    requires Run(c, Start(now), steps).Some? && Along(c, Start(now), steps, ClearFor(id))
    ensures NoEarlyStop(Run(c, Start(now), steps).value, id)
    decreases |steps|
  {
    if steps != [] {
      var front := steps[..|steps| - 1];
      ClearRuns(c, now, front, id);
      StepKeepsNoEarlyStop(c, Run(c, Start(now), front).value, steps[|steps| - 1], id);
    }
  }

  /** `id` is submitted only while no event for it is pending or being handled. */
  predicate Rested(s: State, st: Step, id: string) {
    Careful(s, st, id) && (st.Submit? && st.r.jobid == id ==> id !in MonHolds(s.mon))
  }

  function RestedFor(id: string): (ok: (State, Step) -> bool) {
    (s: State, st: Step) => Rested(s, st, id)
  }

  /** The monitor has not blocked an id that is just being checked. */
  predicate CheckedAtRest(s: State, id: string) {
    Outstanding(s, id) <= 1 && (s.srv.SCheck? && s.srv.r.jobid == id ==> id !in MonHolds(s.mon))
  }

  lemma StepKeepsRest(c: Config, s: State, st: Step, id: string)
    requires Enabled(s, st) && CheckedAtRest(s, id) && Rested(s, st, id)
    ensures CheckedAtRest(Next(c, s, st), id)
  {
    StepNeverAddsEvents(c, s, st, id);
  }

  /** Something a client can see to: an id that is submitted only at rest is always stored clear of stop
      events. */
  lemma {:induction false} RestIsClear(c: Config, now: int, steps: seq<Step>, id: string)
    requires Run(c, Start(now), steps).Some? && Along(c, Start(now), steps, RestedFor(id))
    ensures Along(c, Start(now), steps, ClearFor(id)) && CheckedAtRest(Run(c, Start(now), steps).value, id)
    decreases |steps|
  {
    if steps != [] {
      var front, last := steps[..|steps| - 1], steps[|steps| - 1];
      var m := Run(c, Start(now), front).value;
      RestIsClear(c, now, front, id);
      if last.Srv? && Stores(m, id) {
        AddedJobIsSafe(m, id, m.srv.r.end);
      }
      StepKeepsRest(c, m, last, id);
    }
  }

  // ---------- how a reservation can leave ----------

  lemma MonRemovesOnlyAtStop(c: Config, s: State, x: Oracle, id: string)
    requires MonEnabled(s) && id in s.sched.jobs && id !in MonStep(c, s, x).sched.jobs
    ensures s.mon == MStopRemove(id)
  {
  }

  lemma SrvRemovesOnlyOnRequest(c: Config, s: State, x: Oracle, id: string)
    requires SrvEnabled(s) && id in s.sched.jobs && id !in SrvStep(c, s, x).sched.jobs
    ensures s.srv.SErase? && s.srv.id == id
  {
  }

  /** A stored reservation leaves the schedule in a step of the server that was asked to remove it, or
      in the last step of its own stop event, its end having passed; in any other step it stays. */
  lemma LeavesByRequestOrAfterEnd(c: Config, now: int, steps: seq<Step>, st: Step, id: string)
    requires Run(c, Start(now), steps).Some? && Along(c, Start(now), steps, ClearFor(id))
    requires var s := Run(c, Start(now), steps).value;
             Enabled(s, st) && id in s.sched.jobs && id !in Next(c, s, st).sched.jobs
    ensures var s := Run(c, Start(now), steps).value;
            || (st.Srv? && s.srv.SErase? && s.srv.id == id)
            || (st.Mon? && s.mon == MStopRemove(id) && s.sched.jobs[id].res.end < s.clock)
  {
    ClearRuns(c, now, steps, id);
    var s := Run(c, Start(now), steps).value;
    if st.Mon? {
      MonRemovesOnlyAtStop(c, s, st.x, id);
    } else if st.Srv? {
      SrvRemovesOnlyOnRequest(c, s, st.x, id);
    }
  }

  /** The server is not removing `id`, now or next. */
  predicate NotRemoving(s: State, id: string) {
    SrvRemoving(s.srv) ==> s.srv.id != id && id !in s.srv.rest
  }

  lemma StepKeepsNotRemoving(c: Config, s: State, st: Step, id: string)
    requires Enabled(s, st) && NotRemoving(s, id) && (st.Delete? ==> id !in st.ids)
    ensures NotRemoving(Next(c, s, st), id)
  {
  }

  /** The stored reservation of `r` itself. */
  predicate Holds(s: State, r: Reservation) {
    r.jobid in s.sched.jobs && s.sched.jobs[r.jobid].res == r
  }

  lemma StepKeepsReservation(c: Config, s: State, st: Step, r: Reservation)
    requires Holds(s, r) && Enabled(s, st) && r.jobid in Next(c, s, st).sched.jobs
    ensures Holds(Next(c, s, st), r)
  {
    if st.Mon? {
      MonKeepsEntry(c, s, st.x, r.jobid);
    } else if st.Srv? {
      SrvKeepsEntry(c, s, st.x, r.jobid);
    }
  }

  /** What a grant keeps from one state to the next. */
  ghost predicate Kept(s: State, r: Reservation) {
    NoEarlyStop(s, r.jobid) && NotRemoving(s, r.jobid) && Holds(s, r)
  }

  lemma StepKeepsGrant(c: Config, s: State, st: Step, r: Reservation)
    requires Kept(s, r) && Enabled(s, st) && s.clock <= r.end && (st.Delete? ==> r.jobid !in st.ids)
    ensures Kept(Next(c, s, st), r)
  {
    StepKeepsNoEarlyStop(c, s, st, r.jobid);
    StepKeepsNotRemoving(c, s, st, r.jobid);
    if r.jobid !in Next(c, s, st).sched.jobs {
      if st.Mon? {
        MonRemovesOnlyAtStop(c, s, st.x, r.jobid);
      } else if st.Srv? {
        SrvRemovesOnlyOnRequest(c, s, st.x, r.jobid);
      }
    }
    StepKeepsReservation(c, s, st, r);
  }

  lemma ClockStep(c: Config, s: State, st: Step)
    requires Enabled(s, st)
    ensures s.clock <= Next(c, s, st).clock
  {
  }

  lemma {:induction false} ClockOnlyAdvances(c: Config, s: State, steps: seq<Step>)
    requires Run(c, s, steps).Some?
    ensures s.clock <= Run(c, s, steps).value.clock
    decreases |steps|
  {
    if steps != [] {
      var front, last := steps[..|steps| - 1], steps[|steps| - 1];
      ClockOnlyAdvances(c, s, front);
      ClockStep(c, Run(c, s, front).value, last);
    }
  }

  /** Nobody asks for the removal of `id`. */
  ghost predicate Unasked(steps: seq<Step>, id: string) {
    forall st :: st in steps && st.Delete? ==> id !in st.ids
  }

  lemma UnaskedBefore(steps: seq<Step>, id: string)
    requires Unasked(steps, id) && steps != []
    ensures Unasked(steps[..|steps| - 1], id)
    ensures var last := steps[|steps| - 1]; last.Delete? ==> id !in last.ids
  {
    assert steps[|steps| - 1] in steps;
  }

  lemma {:induction false} GrantRuns(c: Config, s: State, more: seq<Step>, r: Reservation)
    requires Kept(s, r) && Run(c, s, more).Some? && Unasked(more, r.jobid)
    requires Run(c, s, more).value.clock <= r.end
    ensures Kept(Run(c, s, more).value, r)
    decreases |more|
  {
    if more != [] {
      var front, last := more[..|more| - 1], more[|more| - 1];
      var m := Run(c, s, front).value;
      UnaskedBefore(more, r.jobid);
      ClockStep(c, m, last);
      GrantRuns(c, s, front, r);
      StepKeepsGrant(c, m, last, r);
    }
  }

  // ---------- exactly when a grant is kept ----------

  /** Whatever else happens, `r` is neither over nor asked to be removed. */
  ghost predicate WithinGrant(c: Config, s: State, more: seq<Step>, r: Reservation) {
    Run(c, s, more).Some? && Unasked(more, r.jobid) && Run(c, s, more).value.clock <= r.end
  }

  lemma StoredIsKept(c: Config, s: State, x: Oracle, id: string)
    requires Stores(s, id) && SafeUntil(s, id, s.srv.r.end)
    ensures Kept(SrvStep(c, s, x), s.srv.r)
  {
    SrvKeepsNoEarlyStop(c, s, x, id);
  }

  lemma StoringLeavesMon(c: Config, s: State, x: Oracle, id: string)
    requires Stores(s, id)
    ensures SrvStep(c, s, x).mon == s.mon && SrvStep(c, s, x).clock == s.clock
  {
  }

  /** Stored safely, a reservation is kept: in every state, with the queue as shipped or put right. */
  lemma SafeIsKept(c: Config, s: State, x: Oracle, id: string, more: seq<Step>)
    requires Stores(s, id) && (s.clock <= s.srv.r.end ==> SafeUntil(s, id, s.srv.r.end))
    requires WithinGrant(c, SrvStep(c, s, x), more, s.srv.r)
    ensures Holds(Run(c, SrvStep(c, s, x), more).value, s.srv.r)
  {
    StoringLeavesMon(c, s, x, id);
    ClockOnlyAdvances(c, SrvStep(c, s, x), more);
    StoredIsKept(c, s, x, id);
    GrantRuns(c, SrvStep(c, s, x), more, s.srv.r);
  }

  /** How many steps of the monitor are left before the stop event removes the job. */
  function StopSteps(m: MonPc): (n: nat)
    requires MonStopping(m)
  {
    match m
    case MStopCheck(_) => 3
    case MStopRules(_) => 2
    case MStopUpdate(_) => 1
    case MStopRemove(_) => 0
  }

  lemma StopMovesOn(c: Config, s: State, x: Oracle, id: string)
    requires StopInProgress(s, id) && !s.mon.MStopRemove?
    ensures StopInProgress(MonStep(c, s, x), id) && StopSteps(MonStep(c, s, x).mon) < StopSteps(s.mon)
    ensures MonStep(c, s, x).clock == s.clock
  {
  }

  /** A stop event in progress removes whatever job its id then stands for. */
  lemma {:induction false} StopDrops(c: Config, s: State, x: Oracle, id: string) returns (more: seq<Step>)
    requires StopInProgress(s, id)
    ensures Run(c, s, more).Some? && MonOnly(more, x)
    ensures id !in Run(c, s, more).value.sched.jobs && Run(c, s, more).value.clock == s.clock
    decreases StopSteps(s.mon)
  {
    OneStep(c, s, Mon(x));
    more := [Mon(x)];
    if !s.mon.MStopRemove? {
      StopMovesOn(c, s, x, id);
      var rest := StopDrops(c, MonStep(c, s, x), x, id);
      RunAppend(c, s, [Mon(x)], rest);
      more := more + rest;
    }
  }

  /** The exact condition. When a request that was submitted with care is about to be stored: however the
      run goes on, the reservation stays stored and unchanged until its end unless its removal is asked
      for, if and only if no stop event for the id is being handled at this moment. */
  lemma GrantIsKeptIff(c: Config, now: int, steps: seq<Step>, id: string, x: Oracle)
    requires Run(c, Start(now), steps).Some? && Along(c, Start(now), steps, CarefulFor(id))
    requires Stores(Run(c, Start(now), steps).value, id)
    ensures var s := Run(c, Start(now), steps).value;
            var r, s1 := s.srv.r, SrvStep(c, s, x);
            (forall more :: WithinGrant(c, s1, more, r) ==> Holds(Run(c, s1, more).value, r))
            <==> !(StopInProgress(s, id) && s.clock <= r.end)
  {
    CarefulRuns(c, Start(now), steps, id);
    var s := Run(c, Start(now), steps).value;
    var r, s1 := s.srv.r, SrvStep(c, s, x);
    StoringLeavesMon(c, s, x, id);
    if StopInProgress(s, id) && s.clock <= r.end {
      var more := StopDrops(c, s1, x, id);
      assert WithinGrant(c, s1, more, r) && !Holds(Run(c, s1, more).value, r);
    } else {
      forall more | WithinGrant(c, s1, more, r) ensures Holds(Run(c, s1, more).value, r) {
        if s.clock <= r.end {
          AddedJobIsSafe(s, id, r.end);
        }
        SafeIsKept(c, s, x, id, more);
      }
    }
  }

  /** A grant is kept: a reservation that was stored clear of its predecessor stays stored and unchanged
      through any run until its end, as long as nobody asks for its removal. */
  lemma GrantIsKept(c: Config, now: int, steps: seq<Step>, more: seq<Step>, r: Reservation)
    requires Run(c, Start(now), steps).Some? && Along(c, Start(now), steps, ClearFor(r.jobid))
    requires var s := Run(c, Start(now), steps).value;
             Holds(s, r) && NotRemoving(s, r.jobid) && WithinGrant(c, s, more, r)
    ensures Holds(Run(c, Run(c, Start(now), steps).value, more).value, r)
  {
    ClearRuns(c, now, steps, r.jobid);
    GrantRuns(c, Run(c, Start(now), steps).value, more, r);
  }

  // ---------- and without any care ----------

  /** The monitor is in the middle of a drain, alone, with a stop event for `id` that is due. */
  ghost predicate StopOnItsWay(c: Config, s: State, id: string, end: int) {
    && c.queueFixed && EQ.MinHeap(s.queue) && Locked(c, s) && s.srv.SIdle? && !s.mon.MWait? && s.clock == end
    && !SafeUntil(s, id, end)
  }

  lemma QueuedStopIsDue(c: Config, s: State, id: string, end: int)
    requires StopOnItsWay(c, s, id, end) && !QueuedNotBefore(s.queue, id, end)
    ensures EQ.Ready(s.queue, s.clock)
  {
    EQ.ReadyIffSomethingDue(s.queue, s.clock);
  }

  /** A queued stop event stays queued, or is popped. */
  lemma QueuedStopStays(c: Config, s: State, x: Oracle, id: string, end: int)
    requires StopOnItsWay(c, s, id, end) && !QueuedNotBefore(s.queue, id, end) && MonEnabled(s)
    ensures !SafeUntil(MonStep(c, s, x), id, end)
  {
    var item :| item in s.queue && item.jobid == id && item.event == JobStop && item.time < end;
    QueuedStopIsDue(c, s, id, end);
    if s.mon.MDrain? {
      EQ.PoppedMembers(c.queueFixed, s.queue);
    } else if s.mon.MStartPush? {
      EQ.PushedMembers(c.queueFixed, s.queue, WaitingItem(s.mon.id, s.mon.tend, JobStop));
    }
  }

  /** One that has been taken is handled, one that is about to be queued is queued. */
  lemma TakenStopStays(c: Config, s: State, x: Oracle, id: string, end: int)
    requires StopOnItsWay(c, s, id, end) && QueuedNotBefore(s.queue, id, end) && MonEnabled(s)
    requires s.mon != MStopRemove(id)
    ensures !SafeUntil(MonStep(c, s, x), id, end)
  {
    if s.mon.MStartPush? {
      EQ.PushedMembers(c.queueFixed, s.queue, WaitingItem(s.mon.id, s.mon.tend, JobStop));
    }
  }

  lemma DrainGoesOn(c: Config, s: State, x: Oracle, id: string, end: int)
    requires StopOnItsWay(c, s, id, end)
    ensures MonEnabled(s) && !MonStep(c, s, x).mon.MWait?
  {
    if s.mon.MDrain? {
      QueuedStopIsDue(c, s, id, end);
    }
  }

  lemma StopMovesCloser(c: Config, s: State, x: Oracle, id: string, end: int)
    requires StopOnItsWay(c, s, id, end) && s.mon != MStopRemove(id)
    ensures MonEnabled(s) && StopOnItsWay(c, MonStep(c, s, x), id, end)
  {
    DrainGoesOn(c, s, x, id, end);
    StepKeepsHeap(c, s, Mon(x));
    StepKeepsLocked(c, s, Mon(x));
    if QueuedNotBefore(s.queue, id, end) {
      TakenStopStays(c, s, x, id, end);
    } else {
      QueuedStopStays(c, s, x, id, end);
    }
  }

  /** The drain comes to it, and the job of that id is gone. */
  lemma {:induction false} StopArrives(c: Config, s: State, x: Oracle, id: string, end: int)
    returns (more: seq<Step>)
    requires StopOnItsWay(c, s, id, end)
    ensures Run(c, s, more).Some? && MonOnly(more, x)
    ensures id !in Run(c, s, more).value.sched.jobs && Run(c, s, more).value.clock == end
    decreases Work(s)
  {
    DrainGoesOn(c, s, x, id, end);
    OneStep(c, s, Mon(x));
    more := [Mon(x)];
    if s.mon != MStopRemove(id) {
      StopMovesCloser(c, s, x, id, end);
      MonStepWorks(c, s, x);
      var rest := StopArrives(c, MonStep(c, s, x), x, id, end);
      RunAppend(c, s, [Mon(x)], rest);
      more := more + rest;
    }
  }

  /** The request is registered, the clock runs up to its end, and the monitor wakes up. */
  lemma StopGetsOnItsWay(c: Config, s: State, x: Oracle, id: string) returns (more: seq<Step>, m: State)
    requires c.queueFixed && EQ.MinHeap(s.queue) && Locked(c, s) && Stores(s, id) && s.clock <= s.srv.r.end
    requires !SafeUntil(s, id, s.srv.r.end)
    ensures Run(c, SrvStep(c, s, x), more) == Some(m) && Unasked(more, id)
    ensures StopOnItsWay(c, m, id, s.srv.r.end)
  {
    var r, s1 := s.srv.r, SrvStep(c, s, x);
    var s2 := SrvStep(c, s1, x);
    EQ.PushKeepsHeap(s.queue, WaitingItem(id, r.start, JobStart));
    EQ.PushedMembers(c.queueFixed, s.queue, WaitingItem(id, r.start, JobStart));
    OneStep(c, s1, Srv(x));
    Then(c, s1, [Srv(x)], Tick(r.end));
    more, m := [Srv(x)] + [Tick(r.end)], s2.(clock := r.end);
    if m.mon.MWait? {
      Then(c, s1, more, Wake);
      more, m := more + [Wake], m.(mon := MDrain);
    }
  }

  lemma StopBringsDown(c: Config, s: State, x: Oracle, id: string) returns (more: seq<Step>)
    requires c.queueFixed && EQ.MinHeap(s.queue) && Locked(c, s) && Stores(s, id) && s.clock <= s.srv.r.end
    requires !SafeUntil(s, id, s.srv.r.end)
    ensures WithinGrant(c, SrvStep(c, s, x), more, s.srv.r) && !Holds(Run(c, SrvStep(c, s, x), more).value, s.srv.r)
  {
    var first, m := StopGetsOnItsWay(c, s, x, id);
    var second := StopArrives(c, m, x, id, s.srv.r.end);
    RunAppend(c, SrvStep(c, s, x), first, second);
    more := first + second;
  }

  /** The exact condition for every run, however its clients have used ids, with the queue put right: the
      reservation about to be stored is kept, however the run goes on, until its end unless its removal
      is asked for, if and only if no stop event for the id is being handled, or can be before that end. */
  lemma GrantIsKeptIffSafe(c: Config, now: int, steps: seq<Step>, id: string, x: Oracle)
    requires c.queueFixed && Run(c, Start(now), steps).Some? && Stores(Run(c, Start(now), steps).value, id)
    ensures var s := Run(c, Start(now), steps).value;
            var r, s1 := s.srv.r, SrvStep(c, s, x);
            (forall more :: WithinGrant(c, s1, more, r) ==> Holds(Run(c, s1, more).value, r))
            <==> (s.clock <= r.end ==> SafeUntil(s, id, r.end))
  {
    SafeRuns(c, Start(now), steps);
    HeapRuns(c, Start(now), steps);
    var s := Run(c, Start(now), steps).value;
    var r, s1 := s.srv.r, SrvStep(c, s, x);
    if s.clock <= r.end && !SafeUntil(s, id, r.end) {
      var more := StopBringsDown(c, s, x, id);
      assert WithinGrant(c, s1, more, r);
    } else {
      forall more | WithinGrant(c, s1, more, r) ensures Holds(Run(c, s1, more).value, r) {
        SafeIsKept(c, s, x, id, more);
      }
    }
  }
}
