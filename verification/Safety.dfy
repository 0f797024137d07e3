// What every step of the two threads keeps about a single job: mutual exclusion, the life cycle,
// the ACTIVE invariant, and the absence of leaked rules.
module Safety {
  import opened Jobs
  import opened ScheduleState
  import opened Rules
  import opened Engine
  import EQ = EventQueue

  // ---------- mutual exclusion ----------

  function MonHolds(m: MonPc): (ids: set<string>) {
    match m
    case MWait => {}
    case MDrain => {}
    case MPopped(_) => {}
    case _ => {m.id}
  }

  function SrvHolds(c: Config, p: SrvPc): (ids: set<string>) {
    match p
    case SIdle => {}
    case SCheck(_, _) => {}
    case SRegister(_) => {}
    case SBlock(_, _) => {}
    case SErase(id, _) => if c.removalSerialised then {id} else {}
    case _ => {p.id}
  }

  /** The in-flight set is what the two threads hold, and they never hold the same id. */
  ghost predicate Locked(c: Config, s: State) {
    s.inFlight == MonHolds(s.mon) + SrvHolds(c, s.srv) && MonHolds(s.mon) !! SrvHolds(c, s.srv)
  }

  lemma StepKeepsLocked(c: Config, s: State, st: Step)
    requires Locked(c, s) && Enabled(s, st)
    ensures Locked(c, Next(c, s, st))
  {
    match st
    case Mon(x) =>
      var s' := MonStep(c, s, x);
      assert SrvHolds(c, s'.srv) == SrvHolds(c, s.srv);
    case Srv(x) =>
      var s' := SrvStep(c, s, x);
      assert MonHolds(s'.mon) == MonHolds(s.mon);
    case _ =>
  }

  // ---------- the ACTIVE invariant, with every departure as shipped or put right ----------

  /** A stop event for `id` at exactly its end time is queued, or popped and not yet handled. */
  predicate StopPending(s: State, id: string)
    requires id in s.sched.jobs
  {
    var stop := WaitingItem(id, s.sched.jobs[id].res.end, JobStop);
    stop in s.queue || s.mon == MPopped(stop)
  }

  predicate Settled(s: State, id: string) {
    HasState(s, id, Active) ==> id in s.rules.active && StopPending(s, id)
  }

  /** What holds of the id the monitor has blocked. */
  predicate MonActiveOk(s: State) {
    match s.mon
    case MStartCheck(id) => Settled(s, id)
    case MStartMbs(id) => id in s.sched.jobs ==> HasState(s, id, Scheduled)
    case MStartOsts(id, _) => id in s.sched.jobs ==> HasState(s, id, Scheduled)
    case MStartRules(id, _, _) => id in s.sched.jobs ==> HasState(s, id, Scheduled)
    case MStartUpdate(id) => id in s.rules.active && (id in s.sched.jobs ==> HasState(s, id, Scheduled))
    case MStartEnd(id) => id in s.rules.active
    case MStartPush(id, tend) =>
      id in s.rules.active && (HasState(s, id, Active) ==> s.sched.jobs[id].res.end == tend)
    case MRelease(id) => Settled(s, id)
    case _ => true
  }

  /** What holds of the id the server has blocked. */
  predicate SrvActiveOk(c: Config, s: State) {
    match s.srv
    case SErase(id, _) => c.removalSerialised ==> !HasState(s, id, Active)
    case SRelease(id, _) => !HasState(s, id, Active)
    case _ => true
  }

  ghost predicate ActiveInv(c: Config, s: State) {
    && MonActiveOk(s)
    && SrvActiveOk(c, s)
    && forall id :: id !in s.inFlight ==> Settled(s, id)
  }

  predicate MonStarting(m: MonPc) {
    || m.MStartCheck? || m.MStartMbs? || m.MStartOsts? || m.MStartRules?
    || m.MStartUpdate? || m.MStartEnd? || m.MStartPush?
  }

  predicate MonStopping(m: MonPc) {
    m.MStopCheck? || m.MStopRules? || m.MStopUpdate? || m.MStopRemove?
  }

  lemma MonDrainKeepsActive(c: Config, s: State, x: Oracle)
    requires Locked(c, s) && ActiveInv(c, s) && MonEnabled(s)
    requires !MonStarting(s.mon) && !MonStopping(s.mon)
    ensures ActiveInv(c, MonStep(c, s, x))
  {
    if s.mon.MDrain? && EQ.Ready(s.queue, s.clock) {
      EQ.PoppedMembers(c.queueFixed, s.queue);
    }
  }

  lemma MonStartKeepsActive(c: Config, s: State, x: Oracle)
    requires Locked(c, s) && ActiveInv(c, s) && MonEnabled(s) && MonStarting(s.mon)
    ensures ActiveInv(c, MonStep(c, s, x))
  {
    var s' := MonStep(c, s, x);
    if s.mon.MStartPush? {
      EQ.PushedMembers(c.queueFixed, s.queue, WaitingItem(s.mon.id, s.mon.tend, JobStop));
    }
    if s.mon.MStartRules? {
      assert forall id :: id in s.rules.active ==> id in s'.rules.active;
    }
    forall id | id !in s'.inFlight ensures Settled(s', id) {
      assert Settled(s, id);
    }
  }

  lemma MonStopKeepsActive(c: Config, s: State, x: Oracle)
    requires Locked(c, s) && ActiveInv(c, s) && MonEnabled(s) && MonStopping(s.mon)
    ensures ActiveInv(c, MonStep(c, s, x))
  {
    var s' := MonStep(c, s, x);
    forall id | id !in s'.inFlight ensures Settled(s', id) {
      assert Settled(s, id);
    }
  }

  predicate SrvRemoving(p: SrvPc) {
    !p.SIdle? && !p.SCheck? && !p.SRegister?
  }

  lemma SrvAdmitKeepsActive(c: Config, s: State, x: Oracle)
    requires Locked(c, s) && ActiveInv(c, s) && SrvEnabled(s) && !SrvRemoving(s.srv)
    ensures ActiveInv(c, SrvStep(c, s, x))
  {
    if s.srv.SRegister? {
      EQ.PushedMembers(c.queueFixed, s.queue, WaitingItem(s.srv.r.jobid, s.srv.r.start, JobStart));
    }
  }

  lemma SrvRemoveKeepsSettled(c: Config, s: State, x: Oracle, id: string)
    requires SrvEnabled(s) && SrvRemoving(s.srv) && SrvActiveOk(c, s) && Settled(s, id)
    requires s.srv.SDequeue? || s.srv.SStopRules? ==> s.srv.id != id
    ensures Settled(SrvStep(c, s, x), id)
  {
    match s.srv
    case SDequeue(k, _) => EQ.RemovedMembers(c.queueFixed, s.queue, k);
    case SStopRules(_, _) =>
    case SStopUpdate(_, _) =>
    case SErase(_, _) =>
    case _ =>
  }

  /** Nothing the server does to its own id touches what holds of the monitor's. */
  lemma SrvRemoveKeepsHeld(c: Config, s: State, x: Oracle)
    requires Locked(c, s) && ActiveInv(c, s) && SrvEnabled(s) && SrvRemoving(s.srv)
    ensures MonActiveOk(SrvStep(c, s, x)) && SrvActiveOk(c, SrvStep(c, s, x))
  {
    if s.srv.SDequeue? {
      EQ.RemovedMembers(c.queueFixed, s.queue, s.srv.id);
    }
  }

  lemma SrvRemoveKeepsActive(c: Config, s: State, x: Oracle)
    requires Locked(c, s) && ActiveInv(c, s) && SrvEnabled(s) && SrvRemoving(s.srv)
    ensures ActiveInv(c, SrvStep(c, s, x))
  {
    var s' := SrvStep(c, s, x);
    SrvRemoveKeepsHeld(c, s, x);
    forall id | id !in s'.inFlight ensures Settled(s', id) {
      assert id in s.inFlight || Settled(s, id);
      SrvRemoveKeepsSettled(c, s, x, id);
    }
  }

  lemma MonKeepsActive(c: Config, s: State, x: Oracle)
    requires Locked(c, s) && ActiveInv(c, s) && MonEnabled(s)
    ensures ActiveInv(c, MonStep(c, s, x))
  {
    if MonStarting(s.mon) {
      MonStartKeepsActive(c, s, x);
    } else if MonStopping(s.mon) {
      MonStopKeepsActive(c, s, x);
    } else {
      MonDrainKeepsActive(c, s, x);
    }
  }

  lemma SrvKeepsActive(c: Config, s: State, x: Oracle)
    requires Locked(c, s) && ActiveInv(c, s) && SrvEnabled(s)
    ensures ActiveInv(c, SrvStep(c, s, x))
  {
    if SrvRemoving(s.srv) {
      SrvRemoveKeepsActive(c, s, x);
    } else {
      SrvAdmitKeepsActive(c, s, x);
    }
  }

  lemma StepKeepsActive(c: Config, s: State, st: Step)
    requires Locked(c, s) && ActiveInv(c, s) && Enabled(s, st)
    ensures ActiveInv(c, Next(c, s, st))
  {
    match st
    case Mon(x) => MonKeepsActive(c, s, x);
    case Srv(x) => SrvKeepsActive(c, s, x);
    case _ =>
  }

  // ---------- stored reservations ----------

  /** No step changes a stored reservation; states become ACTIVE or DONE. */
  lemma MonKeepsEntry(c: Config, s: State, x: Oracle, id: string)
    requires MonEnabled(s) && id in MonStep(c, s, x).sched.jobs
    ensures id in s.sched.jobs
    ensures var e, e' := s.sched.jobs[id], MonStep(c, s, x).sched.jobs[id];
            e'.res == e.res && (e'.state == e.state || e'.state.Active? || e'.state.Done?)
  {
  }

  lemma SrvKeepsEntry(c: Config, s: State, x: Oracle, id: string)
    requires SrvEnabled(s) && id in SrvStep(c, s, x).sched.jobs
    ensures id in s.sched.jobs ==>
              var e, e' := s.sched.jobs[id], SrvStep(c, s, x).sched.jobs[id];
              e'.res == e.res && (e'.state == e.state || e'.state.Done?)
    ensures id !in s.sched.jobs ==>
              s.srv.SCheck? && s.srv.r.jobid == id && SrvStep(c, s, x).sched.jobs[id] == Entry(s.srv.r, Scheduled)
  {
  }

  // ---------- the life cycle ----------

  /** A stored job's state never moves backwards, although it is read and written in separate steps. */
  lemma StepMovesForward(c: Config, s: State, st: Step, id: string)
    requires Locked(c, s) && ActiveInv(c, s) && Enabled(s, st)
    requires id in s.sched.jobs && id in Next(c, s, st).sched.jobs
    ensures s.sched.jobs[id].state.Rank() <= Next(c, s, st).sched.jobs[id].state.Rank()
  {
  }

  lemma {:induction false} SafeRuns(c: Config, s: State, steps: seq<Step>)
    requires Locked(c, s) && ActiveInv(c, s) && Run(c, s, steps).Some?
    ensures Locked(c, Run(c, s, steps).value) && ActiveInv(c, Run(c, s, steps).value)
    decreases |steps|
  {
    if steps != [] {
      var front := steps[..|steps| - 1];
      SafeRuns(c, s, front);
      StepKeepsLocked(c, Run(c, s, front).value, steps[|steps| - 1]);
      StepKeepsActive(c, Run(c, s, front).value, steps[|steps| - 1]);
    }
  }

  /** Over a whole run: as long as a job stays stored, its state only moves along
      SCHEDULED, ACTIVE, DONE. */
  lemma {:induction false} LifeCycleOverRuns(c: Config, s: State, steps: seq<Step>, id: string)
    requires Locked(c, s) && ActiveInv(c, s) && Run(c, s, steps).Some?
    requires forall k :: 0 <= k <= |steps| && Run(c, s, steps[..k]).Some? ==>
                id in Run(c, s, steps[..k]).value.sched.jobs
    ensures id in s.sched.jobs && id in Run(c, s, steps).value.sched.jobs
    ensures s.sched.jobs[id].state.Rank() <= Run(c, s, steps).value.sched.jobs[id].state.Rank()
    decreases |steps|
  {
    assert steps[..0] == [] && steps[..|steps|] == steps;
    assert Run(c, s, steps[..0]).value == s;
    assert id in Run(c, s, steps[..|steps|]).value.sched.jobs;
    if steps != [] {
      var front := steps[..|steps| - 1];
      forall k | 0 <= k <= |front| ensures front[..k] == steps[..k] {
      }
      SafeRuns(c, s, front);
      LifeCycleOverRuns(c, s, front, id);
      StepMovesForward(c, Run(c, s, front).value, steps[|steps| - 1], id);
    }
  }

  /** From an empty schedule, whichever departures are put right: one actor per id, and an ACTIVE
      job outside in-flight handling has its rules remembered and its stop event coming. */
  lemma ActiveJobsAreGuarded(c: Config, now: int, steps: seq<Step>, id: string)
    requires Run(c, Start(now), steps).Some?
    ensures var s := Run(c, Start(now), steps).value;
            && s.inFlight == MonHolds(s.mon) + SrvHolds(c, s.srv) && MonHolds(s.mon) !! SrvHolds(c, s.srv)
            && (HasState(s, id, Active) && id !in s.inFlight ==> id in s.rules.active && StopPending(s, id))
  {
    SafeRuns(c, Start(now), steps);
    assert id !in Run(c, Start(now), steps).value.inFlight ==> Settled(Run(c, Start(now), steps).value, id);
  }

  // ---------- no leaked rules, with the removal serialised ----------

  /** The rules in place for `id` are exactly the aggregated rates of its reservation. */
  ghost predicate RulesMatch(c: Config, s: State, id: string) {
    && id in s.sched.jobs
    && id in s.rules.active
    && var res := s.sched.jobs[id].res;
       var ips := IpsOf(c.ipOf, res.osts);
       && ips.Some?
       && (forall ip :: ip in s.rules.active[id].ips <==> ip in ips.value)
       && (forall ip :: ip in ips.value ==> At(s.rules.remote, ip, RuleName(id)) == Some(Rate(res.mbs, ips.value, ip)))
  }

  /** Rules are remembered only for a job that is ACTIVE, and they are that job's rules. */
  ghost predicate Clean(c: Config, s: State, id: string) {
    id in s.rules.active ==> HasState(s, id, Active) && RulesMatch(c, s, id)
  }

  ghost predicate MonCleanOk(c: Config, s: State) {
    match s.mon
    case MStartCheck(id) => Clean(c, s, id)
    case MStartMbs(id) => HasState(s, id, Scheduled) && id !in s.rules.active
    case MStartOsts(id, mbs) =>
      HasState(s, id, Scheduled) && id !in s.rules.active && mbs == s.sched.jobs[id].res.mbs
    case MStartRules(id, mbs, osts) =>
      HasState(s, id, Scheduled) && id !in s.rules.active
      && mbs == s.sched.jobs[id].res.mbs && osts == s.sched.jobs[id].res.osts
    case MStartUpdate(id) => HasState(s, id, Scheduled) && RulesMatch(c, s, id)
    case MStartEnd(id) => HasState(s, id, Active) && RulesMatch(c, s, id)
    case MStartPush(id, _) => HasState(s, id, Active) && RulesMatch(c, s, id)
    case MStopCheck(id) => Clean(c, s, id)
    case MStopRules(id) => HasState(s, id, Active)
    case MStopUpdate(id) => HasState(s, id, Active) && id !in s.rules.active
    case MStopRemove(id) => id !in s.rules.active
    case MRelease(id) => Clean(c, s, id)
    case _ => true
  }

  ghost predicate SrvCleanOk(c: Config, s: State) {
    match s.srv
    case SDequeue(id, _) => Clean(c, s, id)
    case SStatus(id, _) => Clean(c, s, id)
    case SStopCheck(id, _) => Clean(c, s, id)
    case SStopRules(id, _) => HasState(s, id, Active) && Clean(c, s, id)
    case SStopUpdate(id, _) => HasState(s, id, Active) && id !in s.rules.active
    case SErase(id, _) => id !in s.rules.active
    case SRelease(id, _) => id !in s.rules.active && id !in s.sched.jobs
    case _ => true
  }

  ghost predicate NamesOk(s: State) {
    forall id :: id in s.rules.active ==> s.rules.active[id].name == RuleName(id)
  }

  ghost predicate CleanInv(c: Config, s: State) {
    && NamesOk(s)
    && MonCleanOk(c, s)
    && SrvCleanOk(c, s)
    && forall id :: id !in s.inFlight ==> Clean(c, s, id)
  }

  /** `id` sees no difference between the two states. */
  ghost predicate SameFor(s: State, s': State, id: string) {
    && (id in s.sched.jobs <==> id in s'.sched.jobs)
    && (id in s.sched.jobs ==> s.sched.jobs[id] == s'.sched.jobs[id])
    && (id in s.rules.active <==> id in s'.rules.active)
    && (id in s.rules.active ==> s.rules.active[id] == s'.rules.active[id])
    && (forall ip :: At(s.rules.remote, ip, RuleName(id)) == At(s'.rules.remote, ip, RuleName(id)))
  }

  /** The id a thread is working on; nothing changes for any other id but the one being added. */
  function Touched(s: State, st: Step): (ids: set<string>) {
    match st
    case Mon(_) => MonHolds(s.mon)
    case Srv(_) =>
      if s.srv.SIdle? then {}
      else if s.srv.SCheck? || s.srv.SRegister? then {s.srv.r.jobid}
      else {s.srv.id}
    case _ => {}
  }

  lemma SetRulesTouchesOwn(c: Config, s: State, x: Oracle, id: string)
    requires s.mon.MStartRules? && NamesOk(s) && id != s.mon.id
    ensures SameFor(s, MonStep(c, s, x), id)
  {
    forall ip {
      OtherJobsUntouched(c.cleanupFixed, c.ipOf, s.rules, s.mon.osts, s.mon.id, s.mon.mbs, x.ok, x.gone, id, ip);
    }
  }

  lemma RemoveRulesTouchesOwn(s: RuleState, k: string, gone: set<string>, id: string)
    requires k in s.active ==> s.active[k].name == RuleName(k)
    requires id != k
    ensures var r := RulesRemoved(s, k, gone).0;
            && (id in r.active <==> id in s.active)
            && (id in r.active ==> r.active[id] == s.active[id])
            && forall ip :: At(s.remote, ip, RuleName(id)) == At(r.remote, ip, RuleName(id))
  {
    forall ip {
      OtherJobsUntouched(false, map[], s, [], k, 0, {}, gone, id, ip);
    }
  }

  lemma MonTouchesOwn(c: Config, s: State, x: Oracle, id: string)
    requires MonEnabled(s) && NamesOk(s) && id !in MonHolds(s.mon)
    ensures SameFor(s, MonStep(c, s, x), id)
  {
    if s.mon.MStartRules? {
      SetRulesTouchesOwn(c, s, x, id);
    } else if s.mon.MStopRules? {
      RemoveRulesTouchesOwn(s.rules, s.mon.id, x.gone, id);
    }
  }

  lemma SrvTouchesOwn(c: Config, s: State, x: Oracle, id: string)
    requires SrvEnabled(s) && NamesOk(s) && id !in Touched(s, Srv(x))
    ensures SameFor(s, SrvStep(c, s, x), id)
  {
    if s.srv.SStopRules? {
      RemoveRulesTouchesOwn(s.rules, s.srv.id, x.gone, id);
    }
  }

  lemma SameKeepsClean(c: Config, s: State, s': State, id: string)
    requires SameFor(s, s', id)
    ensures Clean(c, s, id) <==> Clean(c, s', id)
    ensures RulesMatch(c, s, id) <==> RulesMatch(c, s', id)
  {
  }

  lemma SameKeepsMonClean(c: Config, s: State, s': State)
    requires MonCleanOk(c, s) && s'.mon == s.mon
    requires forall id :: id in MonHolds(s.mon) ==> SameFor(s, s', id)
    ensures MonCleanOk(c, s')
  {
    if MonHolds(s.mon) != {} {
      assert s.mon.id in MonHolds(s.mon);
      SameKeepsClean(c, s, s', s.mon.id);
    }
  }

  lemma SameKeepsSrvClean(c: Config, s: State, s': State)
    requires c.removalSerialised && SrvCleanOk(c, s) && s'.srv == s.srv
    requires forall id :: id in SrvHolds(c, s.srv) ==> SameFor(s, s', id)
    ensures SrvCleanOk(c, s')
  {
    if SrvHolds(c, s.srv) != {} {
      assert s.srv.id in SrvHolds(c, s.srv);
      SameKeepsClean(c, s, s', s.srv.id);
    }
  }

  lemma SetRulesMatches(c: Config, s: State, x: Oracle)
    requires CleanInv(c, s) && s.mon.MStartRules?
    ensures MonCleanOk(c, MonStep(c, s, x)) && NamesOk(MonStep(c, s, x))
  {
    var id, mbs, osts := s.mon.id, s.mon.mbs, s.mon.osts;
    var s' := MonStep(c, s, x);
    if s'.mon.MStartUpdate? {
      forall ip {
        SetRulesInstalls(c.cleanupFixed, c.ipOf, s.rules, osts, id, mbs, x.ok, x.gone, ip);
      }
    }
  }

  lemma MonKeepsNamesOk(c: Config, s: State, x: Oracle)
    requires NamesOk(s) && MonEnabled(s)
    ensures NamesOk(MonStep(c, s, x))
  {
  }

  lemma StartKeepsOwnClean(c: Config, s: State, x: Oracle)
    requires CleanInv(c, s) && MonEnabled(s) && MonStarting(s.mon) && !s.mon.MStartRules?
    ensures MonCleanOk(c, MonStep(c, s, x))
  {
  }

  lemma StopKeepsOwnClean(c: Config, s: State, x: Oracle)
    requires CleanInv(c, s) && MonEnabled(s) && MonStopping(s.mon)
    ensures MonCleanOk(c, MonStep(c, s, x))
  {
  }

  lemma MonKeepsOwnClean(c: Config, s: State, x: Oracle)
    requires CleanInv(c, s) && MonEnabled(s)
    ensures MonCleanOk(c, MonStep(c, s, x)) && NamesOk(MonStep(c, s, x))
    ensures s.mon.MRelease? ==> Clean(c, MonStep(c, s, x), s.mon.id)
  {
    MonKeepsNamesOk(c, s, x);
    if s.mon.MStartRules? {
      SetRulesMatches(c, s, x);
    } else if MonStarting(s.mon) {
      StartKeepsOwnClean(c, s, x);
    } else if MonStopping(s.mon) {
      StopKeepsOwnClean(c, s, x);
    } else if s.mon.MPopped? {
      assert Clean(c, s, s.mon.item.jobid);
    }
  }

  lemma MonKeepsClean(c: Config, s: State, x: Oracle)
    requires c.removalSerialised && Locked(c, s) && CleanInv(c, s) && MonEnabled(s)
    ensures CleanInv(c, MonStep(c, s, x))
  {
    var s' := MonStep(c, s, x);
    MonKeepsOwnClean(c, s, x);
    forall id | id !in MonHolds(s.mon) ensures SameFor(s, s', id) {
      MonTouchesOwn(c, s, x, id);
    }
    SameKeepsSrvClean(c, s, s');
    forall id | id !in s'.inFlight ensures Clean(c, s', id) {
      if id !in MonHolds(s.mon) {
        SameKeepsClean(c, s, s', id);
      }
    }
  }

  lemma SrvKeepsNamesOk(c: Config, s: State, x: Oracle)
    requires NamesOk(s) && SrvEnabled(s)
    ensures NamesOk(SrvStep(c, s, x))
  {
  }

  lemma RemovalKeepsOwnClean(c: Config, s: State, x: Oracle)
    requires c.removalSerialised && SrvCleanOk(c, s) && SrvEnabled(s) && SrvRemoving(s.srv) && !s.srv.SBlock?
    ensures SrvCleanOk(c, SrvStep(c, s, x))
    ensures s.srv.SRelease? ==> Clean(c, SrvStep(c, s, x), s.srv.id)
  {
  }

  lemma SrvKeepsOwnClean(c: Config, s: State, x: Oracle)
    requires c.removalSerialised && Locked(c, s) && CleanInv(c, s) && SrvEnabled(s)
    ensures SrvCleanOk(c, SrvStep(c, s, x)) && NamesOk(SrvStep(c, s, x))
    ensures s.srv.SRelease? ==> Clean(c, SrvStep(c, s, x), s.srv.id)
  {
    SrvKeepsNamesOk(c, s, x);
    if s.srv.SBlock? {
      assert Clean(c, s, s.srv.id);
    } else if SrvRemoving(s.srv) {
      RemovalKeepsOwnClean(c, s, x);
    }
  }

  /** The one id an admission changes had neither a job nor rules. */
  lemma AdmitKeepsClean(c: Config, s: State, x: Oracle)
    requires CleanInv(c, s) && (s.srv.SCheck? || s.srv.SRegister?)
    ensures MonCleanOk(c, SrvStep(c, s, x))
    ensures forall id :: id !in s.inFlight ==> Clean(c, SrvStep(c, s, x), id)
  {
    var s' := SrvStep(c, s, x);
    if s'.sched == s.sched {
      forall id ensures SameFor(s, s', id) {
      }
      SameKeepsMonClean(c, s, s');
      forall id | id !in s.inFlight ensures Clean(c, s', id) {
        SameKeepsClean(c, s, s', id);
      }
    } else {
      var added := s.srv.r.jobid;
      forall id | id != added ensures SameFor(s, s', id) {
      }
      if added !in MonHolds(s.mon) {
        SameKeepsMonClean(c, s, s');
      }
      forall id | id !in s.inFlight ensures Clean(c, s', id) {
        if id != added {
          SameKeepsClean(c, s, s', id);
        } else {
          assert Clean(c, s, id);
        }
      }
    }
  }

  lemma RemovalKeepsClean(c: Config, s: State, x: Oracle)
    requires c.removalSerialised && Locked(c, s) && CleanInv(c, s) && SrvRemoving(s.srv) && SrvEnabled(s)
    ensures MonCleanOk(c, SrvStep(c, s, x))
    ensures forall id :: id !in SrvStep(c, s, x).inFlight ==> Clean(c, SrvStep(c, s, x), id)
  {
    var s' := SrvStep(c, s, x);
    SrvKeepsOwnClean(c, s, x);
    forall id | id != s.srv.id ensures SameFor(s, s', id) {
      SrvTouchesOwn(c, s, x, id);
    }
    if s.srv.SBlock? {
      forall id ensures SameFor(s, s', id) {
      }
    }
    SameKeepsMonClean(c, s, s');
    forall id | id !in s'.inFlight ensures Clean(c, s', id) {
      if id != s.srv.id {
        SameKeepsClean(c, s, s', id);
      }
    }
  }

  lemma SrvKeepsClean(c: Config, s: State, x: Oracle)
    requires c.removalSerialised && Locked(c, s) && CleanInv(c, s) && SrvEnabled(s)
    ensures CleanInv(c, SrvStep(c, s, x))
  {
    SrvKeepsOwnClean(c, s, x);
    if SrvRemoving(s.srv) {
      RemovalKeepsClean(c, s, x);
    } else {
      AdmitKeepsClean(c, s, x);
    }
  }

  lemma StepKeepsClean(c: Config, s: State, st: Step)
    requires c.removalSerialised && Locked(c, s) && CleanInv(c, s) && Enabled(s, st)
    ensures CleanInv(c, Next(c, s, st))
  {
    match st
    case Mon(x) => MonKeepsClean(c, s, x);
    case Srv(x) => SrvKeepsClean(c, s, x);
    case _ =>
      var s' := Next(c, s, st);
      forall id ensures SameFor(s, s', id) {
      }
      if !st.Wake? {
        SameKeepsMonClean(c, s, s');
      }
      if !st.Delete? && !st.Submit? {
        SameKeepsSrvClean(c, s, s');
      }
      forall id | id !in s'.inFlight ensures Clean(c, s', id) {
        SameKeepsClean(c, s, s', id);
      }
  }

  lemma {:induction false} CleanRuns(c: Config, s: State, steps: seq<Step>)
    requires c.removalSerialised && Locked(c, s) && CleanInv(c, s) && Run(c, s, steps).Some?
    ensures Locked(c, Run(c, s, steps).value) && CleanInv(c, Run(c, s, steps).value)
    decreases |steps|
  {
    if steps != [] {
      var front := steps[..|steps| - 1];
      CleanRuns(c, s, front);
      StepKeepsLocked(c, Run(c, s, front).value, steps[|steps| - 1]);
      StepKeepsClean(c, Run(c, s, front).value, steps[|steps| - 1]);
    }
  }

  /** No leaked rules: outside in-flight handling, rules are remembered for ACTIVE jobs and no
      others, and what the OSSs hold for the job is what its reservation asks for. */
  lemma NoLeakedRules(c: Config, now: int, steps: seq<Step>, id: string)
    requires c.removalSerialised && Run(c, Start(now), steps).Some?
    ensures var s := Run(c, Start(now), steps).value;
            id !in s.inFlight ==> (id in s.rules.active <==> HasState(s, id, Active))
                                  && (id in s.rules.active ==> RulesMatch(c, s, id))
  {
    CleanRuns(c, Start(now), steps);
    SafeRuns(c, Start(now), steps);
    var s := Run(c, Start(now), steps).value;
    if id !in s.inFlight {
      assert Clean(c, s, id) && Settled(s, id);
    }
  }

  /** With the removal serialised the life cycle skips nothing: each change is one step forward. */
  lemma StepAdvancesByOne(c: Config, s: State, st: Step, id: string)
    requires c.removalSerialised && Locked(c, s) && ActiveInv(c, s) && CleanInv(c, s) && Enabled(s, st)
    requires id in s.sched.jobs && id in Next(c, s, st).sched.jobs
    ensures var before, after := s.sched.jobs[id].state.Rank(), Next(c, s, st).sched.jobs[id].state.Rank();
            before <= after <= before + 1
  {
    StepMovesForward(c, s, st, id);
  }
}
