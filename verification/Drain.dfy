// The monitor's drain loop (src/common/JobMonitor.cpp:149-181): what it has achieved when it stops,
// and that it stops.
module Drain {
  import opened Jobs
  import opened Engine
  import opened Safety
  import EQ = EventQueue

  // ---------- completeness, with the queue put right ----------

  lemma StepKeepsHeap(c: Config, s: State, st: Step)
    requires c.queueFixed && EQ.MinHeap(s.queue) && Enabled(s, st)
    ensures EQ.MinHeap(Next(c, s, st).queue)
  {
    match st
    case Mon(x) =>
      if s.mon.MDrain? && EQ.Ready(s.queue, s.clock) {
        EQ.PopKeepsHeap(s.queue);
      } else if s.mon.MStartPush? {
        EQ.PushKeepsHeap(s.queue, WaitingItem(s.mon.id, s.mon.tend, JobStop));
      }
    case Srv(x) =>
      if s.srv.SRegister? {
        EQ.PushKeepsHeap(s.queue, WaitingItem(s.srv.r.jobid, s.srv.r.start, JobStart));
      } else if s.srv.SDequeue? {
        EQ.RemoveKeepsHeap(s.queue, s.srv.id);
      }
    case _ =>
  }

  /** Every stored or requested reservation has started: submissions start at the clock. */
  ghost predicate HasStarted(s: State) {
    && (forall id :: id in s.sched.jobs ==> s.sched.jobs[id].res.start <= s.clock)
    && (s.srv.SCheck? ==> s.srv.r.start <= s.clock)
  }

  lemma StepKeepsClockAndRequest(c: Config, s: State, st: Step)
    requires Enabled(s, st) && (s.srv.SCheck? ==> s.srv.r.start <= s.clock)
    ensures s.clock <= Next(c, s, st).clock
    ensures Next(c, s, st).srv.SCheck? ==> Next(c, s, st).srv.r.start <= Next(c, s, st).clock
  {
  }

  lemma StepKeepsStarted(c: Config, s: State, st: Step)
    requires HasStarted(s) && Enabled(s, st)
    ensures HasStarted(Next(c, s, st))
  {
    var s' := Next(c, s, st);
    StepKeepsClockAndRequest(c, s, st);
    forall id | id in s'.sched.jobs ensures s'.sched.jobs[id].res.start <= s'.clock {
      if st.Mon? {
        MonKeepsEntry(c, s, st.x, id);
      } else if st.Srv? {
        SrvKeepsEntry(c, s, st.x, id);
      }
    }
  }

  lemma {:induction false} HeapRuns(c: Config, s: State, steps: seq<Step>)
    requires c.queueFixed && EQ.MinHeap(s.queue) && HasStarted(s) && Run(c, s, steps).Some?
    ensures EQ.MinHeap(Run(c, s, steps).value.queue) && HasStarted(Run(c, s, steps).value)
    decreases |steps|
  {
    if steps != [] {
      var front := steps[..|steps| - 1];
      HeapRuns(c, s, front);
      StepKeepsHeap(c, Run(c, s, front).value, steps[|steps| - 1]);
      StepKeepsStarted(c, Run(c, s, front).value, steps[|steps| - 1]);
    }
  }

  /** The drain loop's guard has just read the clock and found nothing to do. */
  predicate DrainEnds(s: State) {
    s.mon.MDrain? && !EQ.Ready(s.queue, s.clock)
  }

  /** When a drain ends, no queued event is earlier than the clock value read, and every ACTIVE job
      outside in-flight handling is running at that instant: started, and not past its end. */
  lemma DrainIsComplete(c: Config, now: int, steps: seq<Step>)
    requires c.queueFixed && Run(c, Start(now), steps).Some? && DrainEnds(Run(c, Start(now), steps).value)
    ensures var s := Run(c, Start(now), steps).value;
            && (forall x :: x in s.queue ==> s.clock <= x.time)
            && (forall id :: HasState(s, id, Active) && id !in s.inFlight ==> s.sched.jobs[id].res.Covers(s.clock))
  {
    var s := Run(c, Start(now), steps).value;
    HeapRuns(c, Start(now), steps);
    EQ.ReadyIffSomethingDue(s.queue, s.clock);
    forall id | HasState(s, id, Active) && id !in s.inFlight ensures s.sched.jobs[id].res.Covers(s.clock) {
      ActiveJobsAreGuarded(c, now, steps, id);
      assert WaitingItem(id, s.sched.jobs[id].res.end, JobStop) in s.queue;
    }
  }

  // ---------- termination, whatever the clock, the oracle and the removals ----------

  /** Steps the monitor has yet to take for the event in its hands, the end of the drain included. */
  function MonWork(m: MonPc): (n: nat) {
    match m
    case MWait => 0
    case MDrain => 1
    case MRelease(_) => 2
    case MStopRemove(_) => 3
    case MStopUpdate(_) => 4
    case MStopRules(_) => 5
    case MStopCheck(_) => 6
    case MPopped(item) => if item.event == JobStart then 17 else 7
    case MStartPush(_, _) => 10
    case MStartEnd(_) => 11
    case MStartUpdate(_) => 12
    case MStartRules(_, _, _) => 13
    case MStartOsts(_, _) => 14
    case MStartMbs(_) => 15
    case MStartCheck(_) => 16
  }

  /** A bound on the steps that the queued events will take: a start turns into at most one stop. */
  function Weight(q: seq<WaitingItem>): (n: nat) {
    EQ.SumOver(q, EQ.Weighing(17, 7))
  }

  lemma WeightPushed(fixed: bool, q: seq<WaitingItem>, id: string, t: int)
    ensures Weight(EQ.Pushed(fixed, q, WaitingItem(id, t, JobStop))) == Weight(q) + 7
  {
    EQ.SumPushed(fixed, q, WaitingItem(id, t, JobStop), EQ.Weighing(17, 7));
  }

  lemma WeightPopped(fixed: bool, q: seq<WaitingItem>)
    requires q != []
    ensures Weight(q) == Weight(EQ.Popped(fixed, q)) + if q[0].event == JobStart then 17 else 7
  {
    EQ.SumPopped(fixed, q, EQ.Weighing(17, 7));
  }

  lemma WeightRemoved(fixed: bool, q: seq<WaitingItem>, id: string)
    ensures Weight(EQ.Removed(fixed, q, id)) <= Weight(q)
  {
    EQ.SumRemoved(fixed, q, id, EQ.Weighing(17, 7));
  }

  function Work(s: State): (n: nat) {
    Weight(s.queue) + MonWork(s.mon)
  }

  /** The monitor takes an event out of the queue in this step. */
  predicate Pops(s: State) {
    s.mon.MDrain? && EQ.Ready(s.queue, s.clock)
  }

  lemma QuietStepKeepsQueue(c: Config, s: State, x: Oracle)
    requires MonEnabled(s) && !Pops(s) && !s.mon.MStartPush?
    ensures MonStep(c, s, x).queue == s.queue
  {
  }

  lemma QuietStepWorks(c: Config, s: State, x: Oracle)
    requires MonEnabled(s) && !Pops(s) && !s.mon.MStartPush?
    ensures MonWork(MonStep(c, s, x).mon) < MonWork(s.mon)
  {
  }

  lemma PopWorks(c: Config, s: State, x: Oracle)
    requires Pops(s)
    ensures Work(MonStep(c, s, x)) < Work(s)
  {
    WeightPopped(c.queueFixed, s.queue);
  }

  lemma PushWorks(c: Config, s: State, x: Oracle)
    requires s.mon.MStartPush?
    ensures Work(MonStep(c, s, x)) < Work(s)
  {
    WeightPushed(c.queueFixed, s.queue, s.mon.id, s.mon.tend);
  }

  lemma SameQueueWorks(s: State, s': State)
    requires s'.queue == s.queue && MonWork(s'.mon) < MonWork(s.mon)
    ensures Work(s') < Work(s)
  {
  }

  lemma MonStepWorks(c: Config, s: State, x: Oracle)
    requires MonEnabled(s)
    ensures Work(MonStep(c, s, x)) < Work(s)
  {
    if Pops(s) {
      PopWorks(c, s, x);
    } else if s.mon.MStartPush? {
      PushWorks(c, s, x);
    } else {
      QuietStepKeepsQueue(c, s, x);
      QuietStepWorks(c, s, x);
      SameQueueWorks(s, MonStep(c, s, x));
    }
  }

  /** Neither the next wake-up of the monitor nor an admission. */
  predicate SameDrain(st: Step) {
    !st.Wake? && !st.Submit?
  }

  lemma OtherStepsAddNoWork(c: Config, s: State, st: Step)
    requires Enabled(s, st) && SameDrain(st) && !st.Mon? && !s.srv.SCheck? && !s.srv.SRegister?
    ensures Work(Next(c, s, st)) <= Work(s)
    ensures !Next(c, s, st).srv.SCheck? && !Next(c, s, st).srv.SRegister?
  {
    if st.Srv? && s.srv.SDequeue? {
      WeightRemoved(c.queueFixed, s.queue, s.srv.id);
    }
  }

  function MonSteps(steps: seq<Step>): (n: nat) {
    if steps == [] then 0 else MonSteps(steps[..|steps| - 1]) + if steps[|steps| - 1].Mon? then 1 else 0
  }

  /** Drain termination: between two wake-ups, with no admission but any removals, clock readings
      and rule outcomes in between, the monitor takes at most Work(s) steps. */
  lemma {:induction false} DrainTerminates(c: Config, s: State, steps: seq<Step>)
    requires Run(c, s, steps).Some? && !s.srv.SCheck? && !s.srv.SRegister?
    requires forall st :: st in steps ==> SameDrain(st)
    ensures MonSteps(steps) + Work(Run(c, s, steps).value) <= Work(s)
    ensures var t := Run(c, s, steps).value; !t.srv.SCheck? && !t.srv.SRegister?
    decreases |steps|
  {
    if steps != [] {
      var front, last := steps[..|steps| - 1], steps[|steps| - 1];
      assert forall st :: st in front ==> st in steps;
      DrainTerminates(c, s, front);
      var m := Run(c, s, front).value;
      assert last in steps;
      if last.Mon? {
        MonStepWorks(c, m, last.x);
      } else {
        OtherStepsAddNoWork(c, m, last);
      }
    }
  }

  /** The drain never gets stuck on its own: while it is unfinished, either the monitor can step or
      the server holds the id of the popped event and can itself step on. */
  lemma DrainNeverStuck(c: Config, s: State)
    requires Locked(c, s) && !s.mon.MWait?
    ensures MonEnabled(s) || (s.srv != SIdle && SrvEnabled(s) && s.mon.item.jobid in SrvHolds(c, s.srv))
  {
  }
}
