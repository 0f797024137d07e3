// Exactly when the shipped order of ServeJobRemove is right (src/common/Planner.cpp:150-152): the id is
// unblocked first, and the job taken off the schedule afterwards.
module Removal {
  import opened Jobs
  import opened Rules
  import opened Engine
  import opened Safety
  import opened Events
  import opened Stretches
  import opened Delivery
  import EQ = EventQueue

  // ---------- the race ----------

  /** A start event of `id`, handled now, would set rules. */
  predicate CanStart(c: Config, s: State, id: string) {
    HasState(s, id, Scheduled) && Settable(c, s.sched.jobs[id].res)
  }

  /** The monitor holds such an event and has not yet blocked the id. */
  predicate Racing(c: Config, s: State, id: string) {
    s.mon.MPopped? && s.mon.item.jobid == id && s.mon.item.event == JobStart && CanStart(c, s, id)
  }

  predicate NothingLeft(s: State, id: string) {
    id !in s.sched.jobs && id !in s.rules.active && EQ.CountFor(s.queue, id) == 0
  }

  // ---------- what keeps a removal harmless ----------

  /** The monitor is not on its way to set rules for `id`. */
  predicate MonHarmless(c: Config, s: State, id: string) {
    match s.mon
    case MPopped(item) => item.jobid == id && item.event == JobStart ==> !CanStart(c, s, id)
    case MStartCheck(k) => k == id ==> !CanStart(c, s, id)
    case MStartMbs(k) => k == id && id in s.sched.jobs ==> !Settable(c, s.sched.jobs[id].res)
    case MStartOsts(k, _) => k == id && id in s.sched.jobs ==> !Settable(c, s.sched.jobs[id].res)
    case MStartRules(k, _, osts) => k == id ==> osts == [] || IpsOf(c.ipOf, osts).None?
    case MStartUpdate(k) => k != id
    case MStartEnd(k) => k != id
    case MStartPush(k, _) => k != id
    case _ => true
  }

  /** Of `id` at most the job is left, and that only until the server's next step, with no event of
      it queued; and no thread is on its way to bring anything back. */
  predicate Harmless(c: Config, s: State, id: string) {
    && id !in s.rules.active && !HasState(s, id, Active) && !SrvCarries(s, id)
    && (id in s.sched.jobs ==> s.srv.SErase? && s.srv.id == id && EQ.CountFor(s.queue, id) == 0)
    && MonHarmless(c, s, id)
  }

  lemma MonQueuesNothing(c: Config, s: State, x: Oracle, id: string)
    requires MonEnabled(s) && EQ.CountFor(s.queue, id) == 0 && !(s.mon.MStartPush? && s.mon.id == id)
    ensures EQ.CountFor(MonStep(c, s, x).queue, id) == 0
    ensures MonStep(c, s, x).mon.MPopped? ==> MonStep(c, s, x).mon.item.jobid != id
  {
    if s.mon.MDrain? && EQ.Ready(s.queue, s.clock) {
      EQ.SumPopped(c.queueFixed, s.queue, EQ.IsFor(id));
    } else if s.mon.MStartPush? {
      EQ.SumPushed(c.queueFixed, s.queue, WaitingItem(s.mon.id, s.mon.tend, JobStop), EQ.IsFor(id));
    }
  }

  lemma HarmlessStartFails(c: Config, s: State, x: Oracle, id: string)
    requires Harmless(c, s, id) && MonEnabled(s) && MonStarting(s.mon) && s.mon.id == id
    ensures MonHarmless(c, MonStep(c, s, x), id) && MonStep(c, s, x).rules == s.rules
  {
  }

  lemma MonStaysHarmless(c: Config, s: State, x: Oracle, id: string)
    requires Harmless(c, s, id) && MonEnabled(s)
    ensures MonHarmless(c, MonStep(c, s, x), id) && id !in MonStep(c, s, x).rules.active
  {
    if MonStarting(s.mon) && s.mon.id == id {
      HarmlessStartFails(c, s, x, id);
    } else if id in s.sched.jobs {
      MonQueuesNothing(c, s, x, id);
    }
  }

  lemma MonKeepsHarmless(c: Config, s: State, x: Oracle, id: string)
    requires Harmless(c, s, id) && MonEnabled(s)
    ensures Harmless(c, MonStep(c, s, x), id)
    ensures EQ.CountFor(s.queue, id) == 0 ==> EQ.CountFor(MonStep(c, s, x).queue, id) == 0
    ensures id !in s.sched.jobs ==> id !in MonStep(c, s, x).sched.jobs
  {
    MonStaysHarmless(c, s, x, id);
    if EQ.CountFor(s.queue, id) == 0 {
      MonQueuesNothing(c, s, x, id);
    }
    var s' := MonStep(c, s, x);
    assert s'.srv == s.srv;
    if id in s'.sched.jobs {
      MonKeepsEntry(c, s, x, id);
      assert s'.sched.jobs[id].state.Active? ==> s.mon == MStartUpdate(id);
    }
  }

  lemma SrvErases(c: Config, s: State, x: Oracle, id: string)
    requires Harmless(c, s, id) && SrvEnabled(s)
    ensures id !in SrvStep(c, s, x).sched.jobs
  {
    if id in SrvStep(c, s, x).sched.jobs {
      SrvKeepsEntry(c, s, x, id);
    }
  }

  lemma SrvBringsNothing(c: Config, s: State, x: Oracle, id: string)
    requires Harmless(c, s, id) && SrvEnabled(s)
    ensures id !in SrvStep(c, s, x).rules.active && !SrvCarries(SrvStep(c, s, x), id) && SrvStep(c, s, x).mon == s.mon
    ensures EQ.CountFor(s.queue, id) == 0 ==> EQ.CountFor(SrvStep(c, s, x).queue, id) == 0
  {
    SrvQueueEvents(c, s, x, id);
  }

  lemma SrvKeepsHarmless(c: Config, s: State, x: Oracle, id: string)
    requires Harmless(c, s, id) && SrvEnabled(s)
    ensures Harmless(c, SrvStep(c, s, x), id) && id !in SrvStep(c, s, x).sched.jobs
    ensures EQ.CountFor(s.queue, id) == 0 ==> EQ.CountFor(SrvStep(c, s, x).queue, id) == 0
  {
    SrvErases(c, s, x, id);
    SrvBringsNothing(c, s, x, id);
  }

  lemma StepKeepsHarmless(c: Config, s: State, st: Step, id: string)
    requires Harmless(c, s, id) && Enabled(s, st) && !(st.Submit? && st.r.jobid == id)
    ensures Harmless(c, Next(c, s, st), id)
    ensures st.Srv? || id !in s.sched.jobs ==> id !in Next(c, s, st).sched.jobs
    ensures EQ.CountFor(s.queue, id) == 0 ==> EQ.CountFor(Next(c, s, st).queue, id) == 0
  {
    match st
    case Mon(x) => MonKeepsHarmless(c, s, x, id);
    case Srv(x) => SrvKeepsHarmless(c, s, x, id);
    case _ =>
  }

  // ---------- every continuation of an unblocked removal ----------

  /** The moment after the shipped removal has unblocked `id`. */
  predicate JustUnblocked(c: Config, s: State, id: string) {
    && !c.removalSerialised && s.srv.SErase? && s.srv.id == id
    && id !in s.inFlight && id !in s.rules.active && !HasState(s, id, Active) && EQ.CountFor(s.queue, id) == 0
  }

  /** The server has taken the job off the schedule, and nobody has asked for the id again. */
  ghost predicate Completes(c: Config, s: State, id: string, steps: seq<Step>) {
    && Run(c, s, steps).Some?
    && (exists st :: st in steps && st.Srv?)
    && (forall st :: st in steps && st.Submit? ==> st.r.jobid != id)
  }

  lemma {:induction false} HarmlessRuns(c: Config, s: State, steps: seq<Step>, id: string)
    requires Harmless(c, s, id) && Run(c, s, steps).Some?
    requires forall st :: st in steps && st.Submit? ==> st.r.jobid != id
    ensures Harmless(c, Run(c, s, steps).value, id)
    ensures EQ.CountFor(s.queue, id) == 0 ==> EQ.CountFor(Run(c, s, steps).value.queue, id) == 0
    ensures (exists st :: st in steps && st.Srv?) || id !in s.sched.jobs ==> id !in Run(c, s, steps).value.sched.jobs
    decreases |steps|
  {
    if steps != [] {
      var front, last := steps[..|steps| - 1], steps[|steps| - 1];
      assert steps == front + [last];
      assert last in steps && forall st :: st in front ==> st in steps;
      HarmlessRuns(c, s, front, id);
      StepKeepsHarmless(c, Run(c, s, front).value, last, id);
    }
  }

  /** When every OSS accepts, the racing start event ends in rules being set. */
  lemma RacingSetsRules(c: Config, s: State, id: string, x: Oracle) returns (steps: seq<Step>, m: State)
    requires Racing(c, s, id) && id !in s.inFlight && id !in s.rules.active && x.ok == c.ipOf.Values
    ensures MonOnly(steps, x) && Run(c, s, steps) == Some(m)
    ensures m.srv == s.srv && m.mon == MStartUpdate(id) && id in m.rules.active
  {
    var res := s.sched.jobs[id].res;
    SettableSucceeds(c, s.rules, id, res, x);
    SetRulesSucceedsIff(c.cleanupFixed, c.ipOf, s.rules, res.osts, id, res.mbs, x.ok, x.gone);
    steps := StartSetsRules(c, s, id, s.mon.item.time, x);
    m := Run(c, s, steps).value;
  }

  lemma EraseLeavesRules(c: Config, s: State, x: Oracle)
    requires s.srv.SErase?
    ensures SrvStep(c, s, x).rules == s.rules
  {
  }

  /** The race lost: the monitor sets the rules, the server erases the job, and the rules stay. */
  lemma RaceLeaks(c: Config, s: State, id: string) returns (steps: seq<Step>)
    requires JustUnblocked(c, s, id) && Racing(c, s, id)
    ensures Completes(c, s, id, steps) && id in Run(c, s, steps).value.rules.active
  {
    var x := Oracle(c.ipOf.Values, {}, 0);
    var first, m := RacingSetsRules(c, s, id, x);
    Then(c, s, first, Srv(x));
    EraseLeavesRules(c, m, x);
    steps := first + [Srv(x)];
    assert steps[|first|] == Srv(x) && Srv(x) in steps;
  }

  /** The shipped order is right exactly when there is no race at the moment of unblocking: then, and
      only then, nothing of the job is left however the run goes on. */
  lemma UnblockedRemovalIsSafeIff(c: Config, s: State, id: string)
    requires JustUnblocked(c, s, id) && Locked(c, s)
    ensures (forall steps :: Completes(c, s, id, steps) ==> NothingLeft(Run(c, s, steps).value, id))
       <==> !Racing(c, s, id)
  {
    if Racing(c, s, id) {
      var steps := RaceLeaks(c, s, id);
      assert Completes(c, s, id, steps) && !NothingLeft(Run(c, s, steps).value, id);
    } else {
      assert Harmless(c, s, id);
      forall steps | Completes(c, s, id, steps) ensures NothingLeft(Run(c, s, steps).value, id) {
        HarmlessRuns(c, s, steps, id);
      }
    }
  }

  // ---------- whole runs without a race ----------

  /** In this step `id` is not unblocked while its start event races the removal. */
  predicate Unraced(c: Config, s: State, st: Step, id: string) {
    st.Srv? && s.srv.SRelease? && s.srv.id == id && !c.removalSerialised ==> !Racing(c, s, id)
  }

  function UnracedFor(c: Config, id: string): (ok: (State, Step) -> bool) {
    (s: State, st: Step) => Unraced(c, s, st, id)
  }

  /** Rules are remembered for `id` only while it is ACTIVE. */
  predicate Held(s: State, id: string) {
    id in s.rules.active ==> HasState(s, id, Active)
  }

  /** What holds of the id the monitor has blocked. */
  predicate MonLeakFree(c: Config, s: State) {
    match s.mon
    case MStartCheck(id) => Held(s, id)
    case MStartMbs(id) => id !in s.rules.active
    case MStartOsts(id, _) => id !in s.rules.active
    case MStartRules(id, _, osts) =>
      id !in s.rules.active && (id in s.sched.jobs || osts == [] || IpsOf(c.ipOf, osts).None?)
    case MStartUpdate(id) => id in s.sched.jobs
    case MStartEnd(id) => HasState(s, id, Active)
    case MStartPush(id, _) => HasState(s, id, Active)
    case MStopCheck(id) => Held(s, id)
    case MStopUpdate(id) => id !in s.rules.active
    case MStopRemove(id) => id !in s.rules.active
    case MRelease(id) => Held(s, id)
    case _ => true
  }

  /** What holds of the id the server is removing. */
  predicate SrvLeakFree(c: Config, s: State) {
    match s.srv
    case SDequeue(id, _) => Held(s, id)
    case SStatus(id, _) => Held(s, id)
    case SStopCheck(id, _) => Held(s, id)
    case SStopUpdate(id, _) => id !in s.rules.active
    case SErase(id, _) =>
      if c.removalSerialised then id !in s.rules.active else Harmless(c, s, id) && EQ.CountFor(s.queue, id) == 0
    case SRelease(id, _) =>
      id !in s.rules.active && !HasState(s, id, Active) && (c.removalSerialised ==> id !in s.sched.jobs)
    case _ => true
  }

  ghost predicate LeakFree(c: Config, s: State, id: string) {
    && (MonHolds(s.mon) == {id} ==> MonLeakFree(c, s))
    && (SrvRemoving(s.srv) && s.srv.id == id ==> SrvLeakFree(c, s))
    && (id !in s.inFlight ==> Held(s, id))
  }

  /** `id` looks the same in both states. */
  predicate Alike(s: State, s': State, id: string) {
    && (id in s'.rules.active <==> id in s.rules.active)
    && (id in s'.sched.jobs <==> id in s.sched.jobs)
    && (id in s.sched.jobs ==> s'.sched.jobs[id] == s.sched.jobs[id])
  }

  /** A step of the monitor leaves every id alone but the one it holds. */
  lemma MonLeavesOthers(c: Config, s: State, x: Oracle, id: string)
    requires MonEnabled(s) && id !in MonHolds(s.mon)
    ensures Alike(s, MonStep(c, s, x), id)
  {
  }

  lemma StartKeepsHeld(c: Config, s: State, x: Oracle)
    requires MonLeakFree(c, s) && MonEnabled(s) && MonStarting(s.mon)
    ensures MonLeakFree(c, MonStep(c, s, x))
  {
  }

  lemma StopKeepsHeld(c: Config, s: State, x: Oracle)
    requires MonLeakFree(c, s) && MonEnabled(s) && MonStopping(s.mon)
    ensures MonLeakFree(c, MonStep(c, s, x))
  {
  }

  lemma MonHoldsOn(c: Config, s: State, x: Oracle, id: string)
    requires MonEnabled(s) && MonHolds(MonStep(c, s, x).mon) == {id}
    ensures if s.mon.MPopped? then s.mon.item.jobid == id
            else (MonStarting(s.mon) || MonStopping(s.mon)) && s.mon.id == id
  {
    assert MonStep(c, s, x).mon.id in MonHolds(MonStep(c, s, x).mon);
  }

  lemma MonKeepsOwnHeld(c: Config, s: State, x: Oracle, id: string)
    requires LeakFree(c, s, id) && MonEnabled(s) && MonHolds(MonStep(c, s, x).mon) == {id}
    ensures MonLeakFree(c, MonStep(c, s, x))
  {
    MonHoldsOn(c, s, x, id);
    if MonStarting(s.mon) {
      StartKeepsHeld(c, s, x);
    } else if MonStopping(s.mon) {
      StopKeepsHeld(c, s, x);
    }
  }

  lemma MonKeepsSrvHeld(c: Config, s: State, x: Oracle)
    requires Locked(c, s) && SrvRemoving(s.srv) && SrvLeakFree(c, s) && MonEnabled(s)
    ensures SrvLeakFree(c, MonStep(c, s, x))
  {
    assert MonStep(c, s, x).srv == s.srv;
    if s.srv.SErase? && !c.removalSerialised {
      MonKeepsHarmless(c, s, x, s.srv.id);
    } else if !s.srv.SBlock? {
      assert s.srv.id in SrvHolds(c, s.srv);
      MonLeavesOthers(c, s, x, s.srv.id);
    }
  }

  lemma MonKeepsFreeHeld(c: Config, s: State, x: Oracle, id: string)
    requires Locked(c, s) && LeakFree(c, s, id) && MonEnabled(s) && id !in MonStep(c, s, x).inFlight
    ensures Held(MonStep(c, s, x), id)
  {
    if id in s.inFlight {
      assert s.mon == MRelease(id);
    } else {
      assert id !in MonHolds(s.mon);
      MonLeavesOthers(c, s, x, id);
    }
  }

  lemma MonKeepsLeakFree(c: Config, s: State, x: Oracle, id: string)
    requires Locked(c, s) && LeakFree(c, s, id) && MonEnabled(s)
    ensures LeakFree(c, MonStep(c, s, x), id)
  {
    var s' := MonStep(c, s, x);
    assert s'.srv == s.srv;
    if MonHolds(s'.mon) == {id} {
      MonKeepsOwnHeld(c, s, x, id);
    }
    if SrvRemoving(s.srv) && s.srv.id == id {
      MonKeepsSrvHeld(c, s, x);
    }
    if id !in s'.inFlight {
      MonKeepsFreeHeld(c, s, x, id);
    }
  }

  /** The id that the server may change in this step. */
  lemma SrvLeavesOthers(c: Config, s: State, x: Oracle, id: string)
    requires SrvEnabled(s) && id !in Touched(s, Srv(x))
    ensures Alike(s, SrvStep(c, s, x), id)
  {
  }

  /** Unblocking outside a race leaves the removal harmless. */
  lemma ReleaseIsHarmless(c: Config, s: State, x: Oracle)
    requires !c.removalSerialised && Locked(c, s) && s.srv.SRelease? && LeakFree(c, s, s.srv.id)
    requires EQ.CountFor(s.queue, s.srv.id) == 0 && !Racing(c, s, s.srv.id)
    ensures Harmless(c, SrvStep(c, s, x), s.srv.id)
  {
    assert s.srv.id in SrvHolds(c, s.srv);
  }

  lemma SrvHoldsOn(c: Config, s: State, x: Oracle, id: string)
    requires SrvEnabled(s) && SrvRemoving(SrvStep(c, s, x).srv) && SrvStep(c, s, x).srv.id == id
    ensures SrvStep(c, s, x).srv.SBlock? || (SrvRemoving(s.srv) && s.srv.id == id)
  {
  }

  lemma RemovalKeepsHeld(c: Config, s: State, x: Oracle)
    requires SrvLeakFree(c, s) && SrvEnabled(s) && SrvRemoving(s.srv)
    requires s.srv.SBlock? ==> Held(s, s.srv.id)
    requires s.srv.SRelease? ==> c.removalSerialised
    ensures SrvLeakFree(c, SrvStep(c, s, x))
  {
  }

  lemma SrvKeepsOwnHeld(c: Config, s: State, x: Oracle, id: string)
    requires Locked(c, s) && LeakFree(c, s, id) && SrvEnabled(s) && Unraced(c, s, Srv(x), id)
    requires s.srv.SRelease? && s.srv.id == id && !c.removalSerialised ==> EQ.CountFor(s.queue, id) == 0
    requires SrvRemoving(SrvStep(c, s, x).srv) && SrvStep(c, s, x).srv.id == id
    ensures SrvLeakFree(c, SrvStep(c, s, x))
  {
    SrvHoldsOn(c, s, x, id);
    if !SrvStep(c, s, x).srv.SBlock? {
      if s.srv.SRelease? && !c.removalSerialised {
        ReleaseIsHarmless(c, s, x);
      } else {
        RemovalKeepsHeld(c, s, x);
      }
    }
  }

  lemma AlikeKeepsMonHeld(c: Config, s: State, s': State, id: string)
    requires MonLeakFree(c, s) && s'.mon == s.mon && MonHolds(s.mon) == {id} && Alike(s, s', id)
    ensures MonLeakFree(c, s')
  {
    assert s.mon.id in MonHolds(s.mon);
  }

  lemma AdmissionKeepsMonHeld(c: Config, s: State, x: Oracle)
    requires MonLeakFree(c, s) && SrvEnabled(s) && !SrvRemoving(s.srv)
    ensures MonLeakFree(c, SrvStep(c, s, x))
  {
  }

  lemma EraseKeepsMonHeld(c: Config, s: State, x: Oracle)
    requires MonLeakFree(c, s) && s.srv.SErase? && Harmless(c, s, s.srv.id)
    ensures MonLeakFree(c, SrvStep(c, s, x))
  {
  }

  lemma SrvLeavesMon(c: Config, s: State, x: Oracle)
    requires SrvEnabled(s)
    ensures SrvStep(c, s, x).mon == s.mon
  {
  }

  /** A blocked removal changes nothing for an id that the monitor holds. */
  lemma SrvActsOnOwn(c: Config, s: State, x: Oracle, id: string)
    requires Locked(c, s) && SrvEnabled(s) && SrvRemoving(s.srv) && id in MonHolds(s.mon)
    requires s.srv.SErase? && s.srv.id == id ==> c.removalSerialised
    ensures Alike(s, SrvStep(c, s, x), id)
  {
    if s.srv.id != id {
      SrvLeavesOthers(c, s, x, id);
    }
  }

  lemma SrvKeepsMonHeld(c: Config, s: State, x: Oracle, id: string)
    requires Locked(c, s) && LeakFree(c, s, id) && SrvEnabled(s) && MonHolds(s.mon) == {id}
    ensures MonLeakFree(c, SrvStep(c, s, x))
  {
    if !SrvRemoving(s.srv) {
      AdmissionKeepsMonHeld(c, s, x);
    } else if s.srv.SErase? && s.srv.id == id && !c.removalSerialised {
      EraseKeepsMonHeld(c, s, x);
    } else {
      SrvActsOnOwn(c, s, x, id);
      SrvLeavesMon(c, s, x);
      AlikeKeepsMonHeld(c, s, SrvStep(c, s, x), id);
    }
  }

  lemma SrvKeepsFreeHeld(c: Config, s: State, x: Oracle, id: string)
    requires LeakFree(c, s, id) && SrvEnabled(s) && id !in SrvStep(c, s, x).inFlight
    ensures Held(SrvStep(c, s, x), id)
  {
    if id !in Touched(s, Srv(x)) {
      SrvLeavesOthers(c, s, x, id);
    }
  }

  lemma SrvKeepsLeakFree(c: Config, s: State, x: Oracle, id: string)
    requires Locked(c, s) && LeakFree(c, s, id) && SrvEnabled(s) && Unraced(c, s, Srv(x), id)
    requires s.srv.SRelease? && s.srv.id == id && !c.removalSerialised ==> EQ.CountFor(s.queue, id) == 0
    ensures LeakFree(c, SrvStep(c, s, x), id)
  {
    var s' := SrvStep(c, s, x);
    SrvLeavesMon(c, s, x);
    if MonHolds(s.mon) == {id} {
      SrvKeepsMonHeld(c, s, x, id);
    }
    if SrvRemoving(s'.srv) && s'.srv.id == id {
      SrvKeepsOwnHeld(c, s, x, id);
    }
    if id !in s'.inFlight {
      SrvKeepsFreeHeld(c, s, x, id);
    }
  }

  /** What holds of `id` in a run from the start: no leaks, and if it was submitted with care, one event
      at most. */
  ghost predicate Quiet(c: Config, s: State, id: string, careful: bool) {
    Locked(c, s) && LeakFree(c, s, id) && (careful ==> Dequeued(c, s, id) && Outstanding(s, id) <= 1)
  }

  lemma OtherStepKeepsLeakFree(c: Config, s: State, st: Step, id: string)
    requires Locked(c, s) && LeakFree(c, s, id) && Enabled(s, st) && !st.Mon? && !st.Srv?
    ensures LeakFree(c, Next(c, s, st), id)
  {
  }

  lemma StepKeepsLeakFree(c: Config, s: State, st: Step, id: string, careful: bool)
    requires Quiet(c, s, id, careful) && Enabled(s, st) && Unraced(c, s, st, id) && (c.removalSerialised || careful)
    ensures LeakFree(c, Next(c, s, st), id)
  {
    if st.Mon? {
      MonKeepsLeakFree(c, s, st.x, id);
    } else if st.Srv? {
      SrvKeepsLeakFree(c, s, st.x, id);
    } else {
      OtherStepKeepsLeakFree(c, s, st, id);
    }
  }

  lemma StepKeepsQuiet(c: Config, s: State, st: Step, id: string, careful: bool)
    requires Quiet(c, s, id, careful) && Enabled(s, st) && Unraced(c, s, st, id) && (c.removalSerialised || careful)
    requires careful ==> Careful(s, st, id)
    ensures Quiet(c, Next(c, s, st), id, careful)
  {
    StepKeepsLocked(c, s, st);
    StepKeepsLeakFree(c, s, st, id, careful);
    if careful {
      StepKeepsDequeued(c, s, st, id);
      StepNeverAddsEvents(c, s, st, id);
    }
  }

  lemma {:induction false} QuietRuns(c: Config, s: State, steps: seq<Step>, id: string, careful: bool)
    requires Quiet(c, s, id, careful) && Run(c, s, steps).Some? && Along(c, s, steps, UnracedFor(c, id))
    requires (c.removalSerialised || careful) && (careful ==> Along(c, s, steps, CarefulFor(id)))
    ensures Quiet(c, Run(c, s, steps).value, id, careful)
    decreases |steps|
  {
    if steps != [] {
      var front := steps[..|steps| - 1];
      QuietRuns(c, s, front, id, careful);
      StepKeepsQuiet(c, Run(c, s, front).value, steps[|steps| - 1], id, careful);
    }
  }

  /** No leaked rules with the shipped order either, if the id was submitted with care and never raced:
      outside in-flight handling, rules are remembered for it exactly while its job is ACTIVE. */
  lemma NoLeaksWithoutRace(c: Config, now: int, steps: seq<Step>, id: string)
    requires Run(c, Start(now), steps).Some? && Along(c, Start(now), steps, UnracedFor(c, id))
    requires c.removalSerialised || Along(c, Start(now), steps, CarefulFor(id))
    ensures var s := Run(c, Start(now), steps).value;
            id !in s.inFlight ==> (id in s.rules.active <==> HasState(s, id, Active))
  {
    QuietRuns(c, Start(now), steps, id, !c.removalSerialised);
    ActiveJobsAreGuarded(c, now, steps, id);
  }

  /** The exact condition over runs: when an id that was submitted with care and has not raced before is
      about to be unblocked the shipped way, nothing of the job will be left, however the run goes on,
      if and only if its start event is not racing. */
  lemma ShippedRemovalIsSafeIff(c: Config, now: int, steps: seq<Step>, id: string, x: Oracle)
    requires !c.removalSerialised && Run(c, Start(now), steps).Some?
    requires Run(c, Start(now), steps).value.srv.SRelease? && Run(c, Start(now), steps).value.srv.id == id
    requires Along(c, Start(now), steps, UnracedFor(c, id)) && Along(c, Start(now), steps, CarefulFor(id))
    ensures var s := Run(c, Start(now), steps).value;
            var s1 := SrvStep(c, s, x);
            (forall more :: Completes(c, s1, id, more) ==> NothingLeft(Run(c, s1, more).value, id))
            <==> !Racing(c, s, id)
  {
    QuietRuns(c, Start(now), steps, id, true);
    var s := Run(c, Start(now), steps).value;
    assert id in SrvHolds(c, s.srv);
    StepKeepsLocked(c, s, Srv(x));
    UnblockedRemovalIsSafeIff(c, SrvStep(c, s, x), id);
  }

  // ---------- whole removal requests ----------

  ghost predicate GoneFor(c: Config, s: State, id: string, careful: bool) {
    Harmless(c, s, id) && id !in s.sched.jobs && (careful ==> EQ.CountFor(s.queue, id) == 0)
  }

  /** How far a removal request for `ids` has come: it is past the first `k`, and if `id` was among
      them it is gone. */
  ghost predicate RemovedSoFar(c: Config, s: State, ids: seq<string>, k: nat, id: string, careful: bool) {
    && k <= |ids|
    && (id in ids[..k] ==> GoneFor(c, s, id, careful))
    && (if k == |ids| then s.srv.SIdle?
        else SrvRemoving(s.srv) && s.srv.id == ids[k] && s.srv.rest == ids[k + 1..])
  }

  /** The last step of a removal, in either order. */
  lemma LastStepIsGone(c: Config, s: State, x: Oracle, id: string, careful: bool)
    requires Quiet(c, s, id, careful) && (c.removalSerialised || careful)
    requires (if c.removalSerialised then s.srv.SRelease? else s.srv.SErase?) && s.srv.id == id
    ensures GoneFor(c, SrvStep(c, s, x), id, careful)
  {
    if c.removalSerialised {
      assert id in SrvHolds(c, s.srv);
    } else {
      SrvKeepsHarmless(c, s, x, id);
    }
  }

  lemma StepKeepsGone(c: Config, s: State, st: Step, id: string, careful: bool)
    requires GoneFor(c, s, id, careful) && Enabled(s, st) && !st.Submit?
    ensures GoneFor(c, Next(c, s, st), id, careful)
  {
    StepKeepsHarmless(c, s, st, id);
  }

  lemma RemovalMovesOn(c: Config, s: State, st: Step, ids: seq<string>, k: nat, id: string, careful: bool)
    returns (k': nat)
    requires Quiet(c, s, id, careful) && (c.removalSerialised || careful) && Enabled(s, st)
    requires RemovedSoFar(c, s, ids, k, id, careful) && k < |ids|
    ensures RemovedSoFar(c, Next(c, s, st), ids, k', id, careful)
  {
    k' := k;
    if id in ids[..k] {
      StepKeepsGone(c, s, st, id, careful);
    }
    if st.Srv? && (if c.removalSerialised then s.srv.SRelease? else s.srv.SErase?) {
      NextId(ids, k);
      k' := k + 1;
      if ids[k] == id {
        LastStepIsGone(c, s, st.x, id, careful);
      }
    }
  }

  lemma {:induction false} BusyRemoval(c: Config, s: State, steps: seq<Step>, ids: seq<string>, k: nat, id: string,
                                       careful: bool) returns (k': nat)
    requires Quiet(c, s, id, careful) && RemovedSoFar(c, s, ids, k, id, careful) && (c.removalSerialised || careful)
    requires Run(c, s, steps).Some? && Busy(c, s, steps) && Along(c, s, steps, UnracedFor(c, id))
    requires careful ==> Along(c, s, steps, CarefulFor(id))
    ensures RemovedSoFar(c, Run(c, s, steps).value, ids, k', id, careful)
    decreases |steps|
  {
    k' := k;
    if steps != [] {
      var front := steps[..|steps| - 1];
      BusyBefore(c, s, steps);
      k' := BusyRemoval(c, s, front, ids, k, id, careful);
      QuietRuns(c, s, front, id, careful);
      k' := RemovalMovesOn(c, Run(c, s, front).value, steps[|steps| - 1], ids, k', id, careful);
    }
  }

  /** ServeJobRemove in either order: when the server is idle again, a requested id that did not race is
      neither in the schedule nor in the rules, and not in the queue either if it was submitted only
      while no event for it was pending. The shipped order needs that care for the first part, too. */
  lemma RemovalWithoutRace(c: Config, now: int, steps: seq<Step>, ids: seq<string>, more: seq<Step>, id: string,
                           careful: bool)
    requires (c.removalSerialised || careful) && id in ids
    requires Run(c, Start(now), steps).Some? && Along(c, Start(now), steps, UnracedFor(c, id))
    requires careful ==> Along(c, Start(now), steps, CarefulFor(id))
    requires var s := Run(c, Start(now), steps).value;
             && s.srv.SIdle?
             && var s1 := Next(c, s, Delete(ids));
                && Run(c, s1, more).Some? && Run(c, s1, more).value.srv.SIdle? && Busy(c, s1, more)
                && Along(c, s1, more, UnracedFor(c, id)) && (careful ==> Along(c, s1, more, CarefulFor(id)))
    ensures var s1 := Next(c, Run(c, Start(now), steps).value, Delete(ids));
            GoneFor(c, Run(c, s1, more).value, id, careful)
  {
    QuietRuns(c, Start(now), steps, id, careful);
    var s := Run(c, Start(now), steps).value;
    StepKeepsQuiet(c, s, Delete(ids), id, careful);
    var k := BusyRemoval(c, Next(c, s, Delete(ids)), more, ids, 0, id, careful);
    assert ids[..k] == ids;
  }
}
