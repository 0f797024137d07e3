// A start event whose rules are refused is used up (src/common/JobMonitor.cpp:199-202): exactly when a due
// reservation is served, and what becomes of one that is not.
module Stranded {
  import opened Jobs
  import opened Rules
  import opened Engine
  import opened Safety
  import opened Events
  import opened Drain
  import opened Stretches
  import opened Delivery
  import opened Grants
  import opened Monitor
  import opened Orphans
  import EQ = EventQueue

  /** `id` is SCHEDULED, and no event for it is queued, carried, or about to be registered. */
  predicate Stranded(s: State, id: string) {
    && HasState(s, id, Scheduled) && EQ.CountFor(s.queue, id) == 0 && !MonCarries(s, id) && !StopInProgress(s, id)
    && !(s.srv.SRegister? && s.srv.r.jobid == id)
  }

  lemma MonKeepsScheduled(c: Config, s: State, x: Oracle, id: string)
    requires Stranded(s, id) && MonEnabled(s)
    ensures HasState(MonStep(c, s, x), id, Scheduled)
  {
  }

  lemma MonKeepsIdle(c: Config, s: State, x: Oracle, id: string)
    requires MonEnabled(s) && EQ.CountFor(s.queue, id) == 0 && !MonCarries(s, id) && !StopInProgress(s, id)
    ensures EQ.CountFor(MonStep(c, s, x).queue, id) == 0
    ensures !MonCarries(MonStep(c, s, x), id) && !StopInProgress(MonStep(c, s, x), id)
  {
    MonQueueEvents(c, s, x, id);
    MonCarriesOn(c, s, x, id);
    if MonStopping(MonStep(c, s, x).mon) {
      StoppingGoesOn(c, s, x);
    }
  }

  lemma SrvKeepsStranded(c: Config, s: State, x: Oracle, id: string)
    requires Stranded(s, id) && NotRemoving(s, id) && SrvEnabled(s)
    ensures HasState(SrvStep(c, s, x), id, Scheduled)
    ensures SrvStep(c, s, x).srv.SRegister? ==> SrvStep(c, s, x).srv.r.jobid != id
  {
  }

  lemma StepKeepsStranded(c: Config, s: State, st: Step, id: string)
    requires Stranded(s, id) && NotRemoving(s, id) && Enabled(s, st)
    ensures Stranded(Next(c, s, st), id)
  {
    match st
    case Mon(x) =>
      MonKeepsScheduled(c, s, x, id);
      MonKeepsIdle(c, s, x, id);
      assert MonStep(c, s, x).srv == s.srv;
    case Srv(x) =>
      SrvKeepsStranded(c, s, x, id);
      SrvQueueEvents(c, s, x, id);
      assert SrvStep(c, s, x).mon == s.mon;
    case _ =>
  }

  /** A stranded job is never served: whatever happens, resubmissions included, it stays SCHEDULED and
      without an event until somebody asks for its removal. */
  lemma {:induction false} StrandedForEver(c: Config, s: State, steps: seq<Step>, id: string)
    requires Stranded(s, id) && NotRemoving(s, id) && Run(c, s, steps).Some? && Unasked(steps, id)
    ensures Stranded(Run(c, s, steps).value, id) && NotRemoving(Run(c, s, steps).value, id)
    decreases |steps|
  {
    if steps != [] {
      var front, last := steps[..|steps| - 1], steps[|steps| - 1];
      UnaskedBefore(steps, id);
      StrandedForEver(c, s, front, id);
      StepKeepsStranded(c, Run(c, s, front).value, last, id);
      StepKeepsNotRemoving(c, Run(c, s, front).value, last, id);
    }
  }

  lemma RefusedIsStranded(c: Config, s: State, x: Oracle, id: string)
    requires s.mon.MStartRules? && s.mon.id == id && HasState(s, id, Scheduled) && Outstanding(s, id) <= 1
    requires !Accepted(c, s, Mon(x), id)
    ensures Stranded(MonStep(c, s, x), id)
  {
  }

  /** In some undisturbed continuation the job becomes ACTIVE. */
  ghost predicate CanBeServed(c: Config, s: State, id: string) {
    exists more :: Run(c, s, more).Some? && Unasked(more, id) && HasState(Run(c, s, more).value, id, Active)
  }

  lemma AcceptedCanBeServed(c: Config, s: State, id: string, x: Oracle)
    requires s.mon == MStartUpdate(id) && HasState(s, id, Scheduled)
    ensures CanBeServed(c, s, id)
  {
    OneStep(c, s, Mon(x));
    assert Unasked([Mon(x)], id) && HasState(Run(c, s, [Mon(x)]).value, id, Active);
  }

  lemma StrandedIsNeverServed(c: Config, s: State, id: string)
    requires Stranded(s, id) && NotRemoving(s, id)
    ensures !CanBeServed(c, s, id)
  {
    forall more | Run(c, s, more).Some? && Unasked(more, id) ensures !HasState(Run(c, s, more).value, id, Active) {
      StrandedForEver(c, s, more, id);
    }
  }

  /** At the one call of SetRules for a job that was submitted with care: unless its removal is asked for,
      the job can still be served in some continuation if and only if its rules are accepted now. */
  lemma EverServedIffAccepted(c: Config, now: int, steps: seq<Step>, id: string, x: Oracle)
    requires Run(c, Start(now), steps).Some? && Along(c, Start(now), steps, CarefulFor(id))
    requires var s := Run(c, Start(now), steps).value;
             s.mon.MStartRules? && s.mon.id == id && HasState(s, id, Scheduled) && NotRemoving(s, id)
    ensures var s := Run(c, Start(now), steps).value;
            CanBeServed(c, MonStep(c, s, x), id) <==> Accepted(c, s, Mon(x), id)
  {
    CarefulRuns(c, Start(now), steps, id);
    var s := Run(c, Start(now), steps).value;
    if Accepted(c, s, Mon(x), id) {
      AcceptedCanBeServed(c, MonStep(c, s, x), id, x);
    } else {
      RefusedIsStranded(c, s, x, id);
      StrandedIsNeverServed(c, MonStep(c, s, x), id);
    }
  }

  // ---------- due reservations ----------

  /** Nobody is removing `id` while it is stored. */
  predicate Undisturbed(s: State, id: string) {
    id in s.sched.jobs ==> NotRemoving(s, id)
  }

  lemma StepKeepsUndisturbed(c: Config, s: State, st: Step, id: string)
    requires Undisturbed(s, id) && Enabled(s, st) && (st.Delete? ==> id !in st.ids)
    ensures Undisturbed(Next(c, s, st), id)
  {
    if id in s.sched.jobs {
      StepKeepsNotRemoving(c, s, st, id);
    } else if id in Next(c, s, st).sched.jobs {
      if st.Mon? {
        MonKeepsEntry(c, s, st.x, id);
      } else if st.Srv? {
        SrvKeepsEntry(c, s, st.x, id);
      }
    }
  }

  /** Some SetRules for `id` was refused, and the job has been stranded since. */
  lemma {:induction false} RefusedRuns(c: Config, s: State, steps: seq<Step>, id: string)
    requires Tidy(c, s, id) && Undisturbed(s, id) && Unasked(steps, id)
    requires Run(c, s, steps).Some? && Along(c, s, steps, CarefulFor(id))
    ensures Undisturbed(Run(c, s, steps).value, id)
    ensures !Along(c, s, steps, AcceptedFor(c, id)) ==> Stranded(Run(c, s, steps).value, id)
    decreases |steps|
  {
    if steps != [] {
      var front, last := steps[..|steps| - 1], steps[|steps| - 1];
      var m := Run(c, s, front).value;
      UnaskedBefore(steps, id);
      RefusedRuns(c, s, front, id);
      TidyRuns(c, s, front, id);
      StepKeepsUndisturbed(c, m, last, id);
      if !Along(c, s, front, AcceptedFor(c, id)) {
        StepKeepsStranded(c, m, last, id);
      } else if !Accepted(c, m, last, id) {
        RefusedIsStranded(c, m, last.x, id);
      }
    }
  }

  /** An accepted job that is not stored yet has nothing to wait for. */
  lemma DueAndAccepted(c: Config, now: int, steps: seq<Step>, more: seq<Step>, id: string)
    requires c.queueFixed && c.removalSerialised && Run(c, Start(now), steps).Some?
    requires var s := Run(c, Start(now), steps).value;
             && id !in s.sched.jobs && Run(c, s, more).Some? && Along(c, s, more, AcceptedFor(c, id))
             && DrainEnds(Run(c, s, more).value) && Due(Run(c, s, more).value, id)
    ensures InService(c, Run(c, Run(c, Start(now), steps).value, more).value, id)
  {
    var s := Run(c, Start(now), steps).value;
    CleanRuns(c, Start(now), steps);
    DeliveryRuns(c, s, more, id);
    RunAppend(c, Start(now), steps, more);
    DrainIsComplete(c, now, steps + more);
    ActiveIsServed(c, now, steps + more, id);
  }

  /** Exactly the reservations whose rules were accepted are served. From a moment when `id` is not stored,
      in a run that submits it with care and asks nowhere for its removal: if it is due when a drain ends,
      it is in service if and only if each SetRules for it was accepted; otherwise it is stranded. */
  lemma DueServedIffAccepted(c: Config, now: int, steps: seq<Step>, more: seq<Step>, id: string)
    requires c.queueFixed && c.removalSerialised
    requires Run(c, Start(now), steps).Some? && Along(c, Start(now), steps, CarefulFor(id))
    requires var s := Run(c, Start(now), steps).value;
             && id !in s.sched.jobs && Unasked(more, id)
             && Run(c, s, more).Some? && Along(c, s, more, CarefulFor(id))
             && DrainEnds(Run(c, s, more).value) && Due(Run(c, s, more).value, id)
    ensures var s := Run(c, Start(now), steps).value;
            var t, accepted := Run(c, s, more).value, Along(c, s, more, AcceptedFor(c, id));
            (InService(c, t, id) <==> accepted) && (Stranded(t, id) <==> !accepted)
  {
    var s := Run(c, Start(now), steps).value;
    TidyRuns(c, Start(now), steps, id);
    RefusedRuns(c, s, more, id);
    if Along(c, s, more, AcceptedFor(c, id)) {
      DueAndAccepted(c, now, steps, more, id);
    }
  }

  // ---------- a run that strands a job ----------

  /** Some OST of `r` is unknown, or its OSS refuses. */
  predicate Refused(c: Config, r: Reservation, ok: set<string>) {
    r.osts == [] || exists o :: o in r.osts && !(o in c.ipOf && c.ipOf[o] != "" && c.ipOf[o] in ok)
  }

  lemma RefusedStartEnds(c: Config, r: Reservation, now: int, x: Oracle) returns (steps: seq<Step>, m: State)
    requires Refused(c, r, x.ok)
    ensures Run(c, OnlyJobPopped(r, now), steps) == Some(m)
    ensures m == OnlyJobPopped(r, now).(rules := m.rules, mon := MDrain)
  {
    var s := OnlyJobPopped(r, now);
    SetRulesSucceedsIff(c.cleanupFixed, c.ipOf, s.rules, r.osts, r.jobid, r.mbs, x.ok, x.gone);
    steps := StartFails(c, s, r.jobid, now, x);
    m := Run(c, s, steps).value;
  }

  /** Whatever is put right: a job that is admitted, and one of whose OSSs refuses just once, is due when
      the drain ends, and stranded. */
  lemma RefusalStrands(c: Config, r: Reservation, now: int, x: Oracle) returns (rest: seq<Step>, m: State)
    requires r.start == now <= r.end && Distinct(r.osts) && x.leftover == 0 && Refused(c, r, x.ok)
    requires forall o :: o in r.osts ==> o in c.limits && r.mbs <= c.limits[o]
    ensures Run(c, Start(now), [Submit(r)] + rest) == Some(m)
    ensures DrainEnds(m) && Due(m, r.jobid) && Stranded(m, r.jobid) && NotRemoving(m, r.jobid)
  {
    var first := AdmittedAndPopped(c, r, now, x);
    var second;
    second, m := RefusedStartEnds(c, r, now, x);
    RunAppend(c, Start(now), [Submit(r)] + first, second);
    rest := first + second;
    assert [Submit(r)] + rest == [Submit(r)] + first + second;
  }
}
