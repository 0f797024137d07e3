// The other half of the promise (README.md:3): a granted reservation whose time has come really has
// its rules in place.
module Delivery {
  import opened Jobs
  import opened ScheduleState
  import opened Rules
  import opened Engine
  import opened Safety
  import opened Capacity
  import opened Drain
  import opened EndToEnd
  import EQ = EventQueue

  // ---------- what the outside has to do for it ----------

  predicate Settable(c: Config, r: Reservation) {
    r.osts != [] && IpsOf(c.ipOf, r.osts).Some?
  }

  /** If the monitor sets the rules of `id` in this step, SetRules succeeds. */
  predicate Accepted(c: Config, s: State, st: Step, id: string) {
    st.Mon? && s.mon.MStartRules? && s.mon.id == id ==> MonStep(c, s, st.x).mon == MStartUpdate(id)
  }

  function AcceptedFor(c: Config, id: string): (ok: (State, Step) -> bool) {
    (s: State, st: Step) => Accepted(c, s, st, id)
  }

  /** The OSSs behind these OSTs accept what they are told to install. */
  predicate OwnOssAccept(c: Config, osts: seq<string>, ok: set<string>) {
    forall o :: o in osts && o in c.ipOf ==> c.ipOf[o] in ok
  }

  /** Requests for `id` name OSTs whose IPs are known, and when its rules are set its own OSSs accept. */
  predicate Cooperates(c: Config, s: State, st: Step, id: string) {
    && (st.Submit? && st.r.jobid == id ==> Settable(c, st.r))
    && (st.Mon? && s.mon.MStartRules? && s.mon.id == id ==> OwnOssAccept(c, s.mon.osts, st.x.ok))
  }

  function CooperatesFor(c: Config, id: string): (ok: (State, Step) -> bool) {
    (s: State, st: Step) => Cooperates(c, s, st, id)
  }

  lemma SettableSucceeds(c: Config, rules: RuleState, id: string, r: Reservation, x: Oracle)
    requires Settable(c, r) && id !in rules.active && OwnOssAccept(c, r.osts, x.ok)
    ensures RulesSet(c.cleanupFixed, c.ipOf, rules, r.osts, id, r.mbs, x.ok, x.gone).1
  {
    SetRulesSucceedsIff(c.cleanupFixed, c.ipOf, rules, r.osts, id, r.mbs, x.ok, x.gone);
    forall o | o in r.osts ensures o in c.ipOf && c.ipOf[o] != "" && c.ipOf[o] in x.ok {
      var k :| 0 <= k < |r.osts| && r.osts[k] == o;
    }
  }

  /** Only OSTs with known IPs are named, by the stored job and by the request being checked. */
  predicate OwnSettable(c: Config, s: State, id: string) {
    && (id in s.sched.jobs ==> Settable(c, s.sched.jobs[id].res))
    && (s.srv.SCheck? && s.srv.r.jobid == id ==> Settable(c, s.srv.r))
  }

  lemma StepKeepsSettable(c: Config, s: State, st: Step, id: string)
    requires OwnSettable(c, s, id) && Enabled(s, st) && (st.Submit? && st.r.jobid == id ==> Settable(c, st.r))
    ensures OwnSettable(c, Next(c, s, st), id)
  {
    RequestStays(c, s, st);
    if id in Next(c, s, st).sched.jobs {
      if st.Mon? {
        MonKeepsEntry(c, s, st.x, id);
      } else if st.Srv? {
        SrvKeepsEntry(c, s, st.x, id);
      }
    }
  }

  lemma CooperationIsAcceptance(c: Config, s: State, st: Step, id: string)
    requires CleanInv(c, s) && OwnSettable(c, s, id) && Cooperates(c, s, st, id)
    ensures Accepted(c, s, st, id)
  {
    if st.Mon? && s.mon.MStartRules? && s.mon.id == id {
      SettableSucceeds(c, s.rules, id, s.sched.jobs[id].res, st.x);
    }
  }

  /** Known OSTs and accepting OSSs, of this one job, are enough for its rules to be accepted. */
  lemma {:induction false} CooperatingOssAccept(c: Config, now: int, steps: seq<Step>, id: string)
    requires c.removalSerialised && Run(c, Start(now), steps).Some?
    requires Along(c, Start(now), steps, CooperatesFor(c, id))
    ensures Along(c, Start(now), steps, AcceptedFor(c, id))
    ensures OwnSettable(c, Run(c, Start(now), steps).value, id)
    decreases |steps|
  {
    if steps != [] {
      var front, last := steps[..|steps| - 1], steps[|steps| - 1];
      CooperatingOssAccept(c, now, front, id);
      CleanRuns(c, Start(now), front);
      CooperationIsAcceptance(c, Run(c, Start(now), front).value, last, id);
      StepKeepsSettable(c, Run(c, Start(now), front).value, last, id);
    }
  }

  // ---------- the start of a SCHEDULED job is on its way ----------

  /** The start event of `id` is queued, popped and not yet handled, or about to be registered. */
  predicate StartPending(s: State, id: string)
    requires id in s.sched.jobs
  {
    var start := WaitingItem(id, s.sched.jobs[id].res.start, JobStart);
    start in s.queue || s.mon == MPopped(start) || s.srv == SRegister(s.sched.jobs[id].res)
  }

  predicate Awaited(s: State, id: string) {
    HasState(s, id, Scheduled) ==> StartPending(s, id)
  }

  predicate GoodEntry(s: State, id: string) {
    id in s.sched.jobs ==> !s.sched.jobs[id].state.Initialized? && s.sched.jobs[id].res.jobid == id
  }

  predicate DeliveryInv(s: State, id: string) {
    GoodEntry(s, id) && (id !in s.inFlight || s.mon == MRelease(id) ==> Awaited(s, id))
  }

  lemma MonKeepsGoodEntry(c: Config, s: State, x: Oracle, id: string)
    requires GoodEntry(s, id) && MonEnabled(s)
    ensures GoodEntry(MonStep(c, s, x), id)
  {
    if id in MonStep(c, s, x).sched.jobs {
      MonKeepsEntry(c, s, x, id);
    }
  }

  lemma SrvKeepsGoodEntry(c: Config, s: State, x: Oracle, id: string)
    requires GoodEntry(s, id) && SrvEnabled(s)
    ensures GoodEntry(SrvStep(c, s, x), id)
  {
    if id in SrvStep(c, s, x).sched.jobs {
      SrvKeepsEntry(c, s, x, id);
    }
  }

  lemma DrainKeepsAwaited(c: Config, s: State, x: Oracle, id: string)
    requires s.mon.MDrain? && Awaited(s, id)
    ensures Awaited(MonStep(c, s, x), id)
  {
    if EQ.Ready(s.queue, s.clock) {
      EQ.PoppedMembers(c.queueFixed, s.queue);
    }
  }

  /** A start in progress goes on until the job is ACTIVE, if its rules are accepted. */
  lemma StartGoesOn(c: Config, s: State, x: Oracle)
    requires CleanInv(c, s) && MonStarting(s.mon) && !s.mon.MStartCheck? && Accepted(c, s, Mon(x), s.mon.id)
    ensures !MonStep(c, s, x).mon.MRelease? || HasState(MonStep(c, s, x), s.mon.id, Active)
  {
  }

  lemma MonKeepsAwaited(c: Config, s: State, x: Oracle, id: string)
    requires MonEnabled(s) && !s.mon.MDrain? && Awaited(s, id) && id !in MonStep(c, s, x).inFlight
    ensures Awaited(MonStep(c, s, x), id)
  {
    if s.mon.MStartPush? {
      EQ.PushedMembers(c.queueFixed, s.queue, WaitingItem(s.mon.id, s.mon.tend, JobStop));
    }
  }

  /** What the monitor comes to release is ACTIVE, gone, or never was to be started. */
  lemma ReleasedIsNotScheduled(c: Config, s: State, x: Oracle, id: string)
    requires CleanInv(c, s) && MonEnabled(s) && Accepted(c, s, Mon(x), id) && MonStep(c, s, x).mon == MRelease(id)
    ensures !HasState(MonStep(c, s, x), id, Scheduled)
  {
    if MonStarting(s.mon) && !s.mon.MStartCheck? {
      StartGoesOn(c, s, x);
    }
  }

  lemma MonKeepsDelivery(c: Config, s: State, x: Oracle, id: string)
    requires Locked(c, s) && CleanInv(c, s) && DeliveryInv(s, id) && MonEnabled(s) && Accepted(c, s, Mon(x), id)
    ensures DeliveryInv(MonStep(c, s, x), id)
  {
    var s' := MonStep(c, s, x);
    MonKeepsGoodEntry(c, s, x, id);
    if s'.mon == MRelease(id) {
      ReleasedIsNotScheduled(c, s, x, id);
    } else if id !in s'.inFlight {
      assert id in s.inFlight ==> s.mon == MRelease(id);
      if s.mon.MDrain? {
        DrainKeepsAwaited(c, s, x, id);
      } else {
        MonKeepsAwaited(c, s, x, id);
      }
    }
  }

  lemma SrvKeepsAwaited(c: Config, s: State, x: Oracle, id: string)
    requires SrvEnabled(s) && Awaited(s, id) && (s.srv.SDequeue? ==> s.srv.id != id)
    requires id in s.sched.jobs ==> s.sched.jobs[id].res.jobid == id
    ensures Awaited(SrvStep(c, s, x), id)
  {
    if s.srv.SRegister? {
      EQ.PushedMembers(c.queueFixed, s.queue, WaitingItem(s.srv.r.jobid, s.srv.r.start, JobStart));
    } else if s.srv.SDequeue? {
      EQ.RemovedMembers(c.queueFixed, s.queue, s.srv.id);
    }
  }

  lemma SrvKeepsDelivery(c: Config, s: State, x: Oracle, id: string)
    requires c.removalSerialised && Locked(c, s) && CleanInv(c, s) && DeliveryInv(s, id) && SrvEnabled(s)
    ensures DeliveryInv(SrvStep(c, s, x), id)
  {
    var s' := SrvStep(c, s, x);
    SrvKeepsGoodEntry(c, s, x, id);
    if id !in s.inFlight || s.mon == MRelease(id) {
      assert s.mon == MRelease(id) ==> id in MonHolds(s.mon);
      SrvKeepsAwaited(c, s, x, id);
    }
  }

  lemma StepKeepsDelivery(c: Config, s: State, st: Step, id: string)
    requires c.removalSerialised && Locked(c, s) && CleanInv(c, s) && DeliveryInv(s, id)
    requires Enabled(s, st) && Accepted(c, s, st, id)
    ensures DeliveryInv(Next(c, s, st), id)
  {
    match st
    case Mon(x) => MonKeepsDelivery(c, s, x, id);
    case Srv(x) => SrvKeepsDelivery(c, s, x, id);
    case _ =>
  }

  lemma {:induction false} DeliveryRuns(c: Config, s: State, steps: seq<Step>, id: string)
    requires c.removalSerialised && Locked(c, s) && CleanInv(c, s) && DeliveryInv(s, id)
    requires Run(c, s, steps).Some? && Along(c, s, steps, AcceptedFor(c, id))
    ensures DeliveryInv(Run(c, s, steps).value, id)
    decreases |steps|
  {
    if steps != [] {
      var front := steps[..|steps| - 1];
      DeliveryRuns(c, s, front, id);
      CleanRuns(c, s, front);
      StepKeepsDelivery(c, Run(c, s, front).value, steps[|steps| - 1], id);
    }
  }

  /** `id` is stored and has started, is not DONE, not being removed, and not only just being registered. */
  predicate Due(s: State, id: string) {
    && id in s.sched.jobs && !s.sched.jobs[id].state.Done? && s.sched.jobs[id].res.start < s.clock
    && id !in s.inFlight && !(s.srv.SRegister? && s.srv.r.jobid == id)
  }

  /** `id` is ACTIVE, runs at this instant, and each OSS holds the rate that its OSTs there need. */
  ghost predicate InService(c: Config, s: State, id: string) {
    HasState(s, id, Active) && s.sched.jobs[id].res.Covers(s.clock) && RulesMatch(c, s, id)
  }

  /** Whenever a drain ends, an ACTIVE job outside in-flight handling is really served. */
  lemma ActiveIsServed(c: Config, now: int, steps: seq<Step>, id: string)
    requires c.queueFixed && c.removalSerialised
    requires Run(c, Start(now), steps).Some? && DrainEnds(Run(c, Start(now), steps).value)
    requires var s := Run(c, Start(now), steps).value;
             HasState(s, id, Active) && id !in s.inFlight
    ensures InService(c, Run(c, Start(now), steps).value, id)
  {
    DrainIsComplete(c, now, steps);
    NoLeakedRules(c, now, steps, id);
  }

  /** Whenever a drain ends, every reservation that is due and whose rules were accepted is served. Asked
      for are the queue and the removal put right, and nothing about any other job. */
  lemma DueReservationsHaveTheirRules(c: Config, now: int, steps: seq<Step>, id: string)
    requires c.queueFixed && c.removalSerialised
    requires Run(c, Start(now), steps).Some? && DrainEnds(Run(c, Start(now), steps).value)
    requires Along(c, Start(now), steps, AcceptedFor(c, id)) && Due(Run(c, Start(now), steps).value, id)
    ensures InService(c, Run(c, Start(now), steps).value, id)
  {
    DeliveryRuns(c, Start(now), steps, id);
    DrainIsComplete(c, now, steps);
    ActiveIsServed(c, now, steps, id);
  }

  /** The promise in full: whenever a drain ends, every due reservation whose rules were accepted has
      them in place at exactly the rates it asked for, and at every OSS the rules remembered in time
      stay within the limits of its OSTs, so that what is promised can be given. */
  lemma PromiseInFull(c: Config, now: int, steps: seq<Step>, ip: string)
    requires c.queueFixed && c.loadStored && c.removalSerialised
    requires Run(c, Start(now), steps).Some? && DrainEnds(Run(c, Start(now), steps).value)
    requires Along(c, Start(now), steps, UnfooledIn(c))
    ensures var s := Run(c, Start(now), steps).value;
            && (forall id :: Due(s, id) && Along(c, Start(now), steps, AcceptedFor(c, id)) ==>
                  id in InTime(s) && InService(c, s, id))
            && SumOf(InTime(s), HeldRate(s.rules, ip)) <= SumOf(Behind(c, ip), LimitOf(c))
  {
    var s := Run(c, Start(now), steps).value;
    PromiseKept(c, now, steps, ip);
    forall id | Due(s, id) && Along(c, Start(now), steps, AcceptedFor(c, id))
      ensures id in InTime(s) && InService(c, s, id)
    {
      DueReservationsHaveTheirRules(c, now, steps, id);
    }
  }
}
