// The static scheduler as an object (src/common/JobSchedulerStaticWorkloads.cpp), called with nobody
// else inside; the interleaved machine, left alone, admits and refuses the same requests.
module Scheduler {
  import opened Jobs
  import opened ScheduleState
  import opened ScheduleStore
  import opened Admission
  import opened Engine
  import opened Stretches
  import opened Monitor
  import EQ = EventQueue

  // ---------- what ScheduleJob and RemoveJob do to the books ----------

  /** The check on the k-th OST of `r`; `leftover` is what the caller's variable held before. */
  predicate Passes(c: Config, lists: map<string, seq<Reservation>>, r: Reservation, k: nat, leftover: uint32)
    requires k < |r.osts|
  {
    EnoughResources(c.limits, r.osts[k], ReportedLoad(c.loadStored, lists, r.osts[k], r.start, r.end, leftover), r.mbs)
  }

  predicate AllPass(c: Config, lists: map<string, seq<Reservation>>, r: Reservation, from: nat, leftovers: seq<uint32>)
    requires |leftovers| == |r.osts|
  {
    forall k :: from <= k < |r.osts| ==> Passes(c, lists, r, k, leftovers[k])
  }

  /** The same outside answer `n` times: the leftover in front of every check, or the removals that
      take effect. */
  function Same<T>(n: nat, x: T): (s: seq<T>)
    ensures |s| == n && forall k :: 0 <= k < n ==> s[k] == x
  {
    seq(n, _ => x)
  }

  lemma StoredIgnoresLeftovers(c: Config, lists: map<string, seq<Reservation>>, r: Reservation, leftovers: seq<uint32>)
    requires |leftovers| == |r.osts|
    ensures c.loadStored ==> AllPass(c, lists, r, 0, leftovers) == AllPass(c, lists, r, 0, Same<uint32>(|r.osts|, 0))
  {
    var zeros := Same<uint32>(|r.osts|, 0);
    if c.loadStored {
      forall k | 0 <= k < |r.osts|
        ensures Passes(c, lists, r, k, leftovers[k]) <==> Passes(c, lists, r, k, zeros[k])
      {
      }
      if AllPass(c, lists, r, 0, leftovers) {
        assert forall k :: 0 <= k < |r.osts| ==> Passes(c, lists, r, k, leftovers[k]);
      }
      if AllPass(c, lists, r, 0, zeros) {
        assert forall k :: 0 <= k < |r.osts| ==> Passes(c, lists, r, k, zeros[k]);
      }
    }
  }

  function Reserved(c: Config, b: Books, r: Reservation): (b': Books) {
    b.(sched := JobAdded(b.sched, r.jobid, Entry(r, Scheduled), r.osts),
       queue := EQ.Pushed(c.queueFixed, b.queue, WaitingItem(r.jobid, r.start, JobStart)))
  }

  function Admitted(c: Config, b: Books, r: Reservation, leftovers: seq<uint32>): (result: (Books, bool))
    requires |leftovers| == |r.osts|
  {
    if AllPass(c, b.sched.lists, r, 0, leftovers) && r.jobid !in b.sched.jobs then (Reserved(c, b, r), true)
    else (b, false)
  }

  /** The answer is true to what has been done, with the load stored or not and whatever the variables held: a
      known id is refused, a fresh one is stored exactly if the answer is yes; a no changes nothing, and a
      yes adds the SCHEDULED job, its entry in the list of each of its OSTs, and its start event, each once. */
  lemma AdmittedAnswersTruly(c: Config, b: Books, r: Reservation, leftovers: seq<uint32>)
    requires |leftovers| == |r.osts|
    ensures var (after, yes) := Admitted(c, b, r, leftovers);
            && (r.jobid in b.sched.jobs ==> !yes)
            && (r.jobid !in b.sched.jobs ==> (yes <==> r.jobid in after.sched.jobs))
            && (!yes ==> after == b)
            && (yes ==>
                  && after.sched.jobs == b.sched.jobs[r.jobid := Entry(r, Scheduled)] && after.rules == b.rules
                  && multiset(after.queue) == multiset(b.queue) + multiset{WaitingItem(r.jobid, r.start, JobStart)})
            && (yes && Distinct(r.osts) ==>
                  forall o :: multiset(ListOf(after.sched.lists, o))
                              == multiset(ListOf(b.sched.lists, o)) + if o in r.osts then multiset{r} else multiset{})
  {
    EQ.PushConserves(c.queueFixed, b.queue, WaitingItem(r.jobid, r.start, JobStart));
    if Admitted(c, b, r, leftovers).1 && Distinct(r.osts) {
      var lists := Admitted(c, b, r, leftovers).0.sched.lists;
      forall o
        ensures multiset(ListOf(lists, o))
             == multiset(ListOf(b.sched.lists, o)) + if o in r.osts then multiset{r} else multiset{}
      {
        AddedList(b.sched.lists, r, r.osts, o);
        InsertedContents(ListOf(b.sched.lists, o), r);
      }
    }
  }

  function Removed(c: Config, b: Books, id: string, gone: set<string>): (b': Books) {
    var u := Unregistered(c, b, id, gone);
    u.(sched := JobRemoved(c.listErased, u.sched, id))
  }

  /** With the load stored and exact lists, a request starting now is admitted if and only if its id
      is fresh and every one of its OSTs has a limit that no instant of its interval would exceed. */
  lemma AdmittedIff(c: Config, b: Books, h: seq<Reservation>, r: Reservation, leftovers: seq<uint32>)
    requires |leftovers| == |r.osts| && c.loadStored && Represents(b.sched, h)
    requires ListsWithinLimits(c.limits, b.sched.lists) && AllStartedBy(b.sched.lists, r.start)
    requires r.start <= r.end && Unwrapped(c.limits, b.sched.lists, r)
    ensures Admitted(c, b, r, leftovers).1
       <==> r.jobid !in b.sched.jobs
            && forall o :: o in r.osts ==> o in c.limits && !WouldOverload(c.limits, b.sched.jobs, r, o)
  {
    forall k | 0 <= k < |r.osts|
      ensures Passes(c, b.sched.lists, r, k, leftovers[k])
         <==> r.osts[k] in c.limits && !WouldOverload(c.limits, b.sched.jobs, r, r.osts[k])
    {
      if r.osts[k] in c.limits {
        CheckIsExact(c.limits, b.sched, h, r, r.osts[k]);
      }
    }
  }

  /** An admission with the load stored keeps the live jobs within the limits at every instant, with
      the lists exact or only covering. */
  lemma AdmittedKeepsLimits(c: Config, b: Books, r: Reservation, leftovers: seq<uint32>)
    requires |leftovers| == |r.osts| && c.loadStored && Covered(b.sched) && Distinct(r.osts)
    requires ListsWithinLimits(c.limits, b.sched.lists) && AllStartedBy(b.sched.lists, r.start)
    requires r.start <= r.end && Unwrapped(c.limits, b.sched.lists, r)
    ensures var after := Admitted(c, b, r, leftovers).0.sched;
            Covered(after) && ListsWithinLimits(c.limits, after.lists) && LiveWithinLimits(c.limits, after.jobs)
  {
    if Admitted(c, b, r, leftovers).1 {
      forall k | 0 <= k < |r.osts| ensures RoomOn(c.limits, b.sched.lists, r, r.osts[k]) {
        assert Passes(c, b.sched.lists, r, k, leftovers[k]);
        CheckIsSafe(c.limits, b.sched, r, r.osts[k]);
      }
      AddCovered(b.sched, Entry(r, Scheduled));
      AddKeepsLimits(c.limits, b.sched.lists, r);
    }
    ListsBoundLive(c.limits, Admitted(c, b, r, leftovers).0.sched);
  }

  // ---------- the same, step by step ----------

  lemma AllPassSplit(c: Config, lists: map<string, seq<Reservation>>, r: Reservation, from: nat,
                     leftovers: seq<uint32>)
    requires from < |r.osts| == |leftovers|
    ensures AllPass(c, lists, r, from, leftovers)
       <==> Passes(c, lists, r, from, leftovers[from]) && AllPass(c, lists, r, from + 1, leftovers)
  {
  }

  lemma CheckOnce(c: Config, s: State, r: Reservation, next: nat, x: Oracle)
    requires s.srv == SCheck(r, next) && next < |r.osts|
    ensures Run(c, s, [Srv(x)])
         == Some(s.(srv := if Passes(c, s.sched.lists, r, next, x.leftover) then SCheck(r, next + 1) else SIdle))
  {
    OneStep(c, s, Srv(x));
  }

  lemma AddAlone(c: Config, s: State, r: Reservation) returns (steps: seq<Step>)
    requires s.srv == SCheck(r, |r.osts|)
    ensures SrvSteps(steps)
    ensures var b := if r.jobid !in s.sched.jobs then Reserved(c, BooksOf(s), r) else BooksOf(s);
            Run(c, s, steps) == Some(s.(sched := b.sched, queue := b.queue, srv := SIdle))
  {
    var x := Oracle({}, {}, 0);
    OneStep(c, s, Srv(x));
    steps := [Srv(x)];
    if r.jobid !in s.sched.jobs {
      Then(c, s, [Srv(x)], Srv(x));
      steps := [Srv(x)] + [Srv(x)];
    }
  }

  lemma {:induction false} ChecksAlone(c: Config, s: State, r: Reservation, next: nat, leftovers: seq<uint32>)
    returns (steps: seq<Step>)
    requires s.srv == SCheck(r, next) && next <= |r.osts| == |leftovers|
    ensures SrvSteps(steps)
    ensures var b := if AllPass(c, s.sched.lists, r, next, leftovers) && r.jobid !in s.sched.jobs
                     then Reserved(c, BooksOf(s), r) else BooksOf(s);
            Run(c, s, steps) == Some(s.(sched := b.sched, queue := b.queue, srv := SIdle))
    decreases |r.osts| - next
  {
    if next == |r.osts| {
      steps := AddAlone(c, s, r);
    } else {
      var x := Oracle({}, {}, leftovers[next]);
      CheckOnce(c, s, r, next, x);
      AllPassSplit(c, s.sched.lists, r, next, leftovers);
      steps := [Srv(x)];
      if Passes(c, s.sched.lists, r, next, leftovers[next]) {
        var rest := ChecksAlone(c, s.(srv := SCheck(r, next + 1)), r, next + 1, leftovers);
        RunAppend(c, s, [Srv(x)], rest);
        steps := [Srv(x)] + rest;
      }
    }
  }

  /** Left alone after a submission, the stepping server does exactly what ScheduleJob does, whatever the
      variables held before each check. */
  lemma ScheduleStepByStep(c: Config, s: State, r: Reservation, leftovers: seq<uint32>) returns (steps: seq<Step>)
    requires s.srv.SIdle? && r.start == s.clock <= r.end && Distinct(r.osts) && |leftovers| == |r.osts|
    ensures SrvSteps(steps)
    ensures var b := Admitted(c, BooksOf(s), r, leftovers).0;
            Run(c, s, [Submit(r)] + steps) == Some(s.(sched := b.sched, queue := b.queue))
  {
    OneStep(c, s, Submit(r));
    steps := ChecksAlone(c, s.(srv := SCheck(r, 0)), r, 0, leftovers);
    RunAppend(c, s, [Submit(r)], steps);
  }

  // ---------- the scheduler object ----------

  class JobSchedulerStaticWorkloads {
    const config: Config
    const schedule: MemoryScheduleState
    const jobMonitor: JobMonitor
    var ostsMaxMbsLimits: map<string, uint32>

    ghost predicate Valid()
      reads jobMonitor, jobMonitor.scheduleState, jobMonitor.scheduleState.jobs.Values
    {
      jobMonitor.Valid() && jobMonitor.config == config && jobMonitor.scheduleState == schedule
    }

    ghost function View(): (b: Books)
      reads schedule, jobMonitor, jobMonitor.scheduleState, jobMonitor.jobPriorityQueue, jobMonitor.ruleManager,
            jobMonitor.ruleManager.ruleSetter
    {
      jobMonitor.View()
    }

    /** The configuration with the limits as they are now. */
    ghost function Now(): (c: Config)
      reads this
    {
      config.(limits := ostsMaxMbsLimits)
    }

    constructor (config: Config, schedule: MemoryScheduleState, jobMonitor: JobMonitor)
      requires jobMonitor.Valid() && jobMonitor.config == config && jobMonitor.scheduleState == schedule
      ensures Valid() && this.config == config && this.schedule == schedule && this.jobMonitor == jobMonitor
      ensures ostsMaxMbsLimits == map[]
    {
      this.config, this.schedule, this.jobMonitor := config, schedule, jobMonitor;
      ostsMaxMbsLimits := map[];
    }

    method UpdateLimits(newLimits: map<string, uint32>)
      modifies this
      ensures ostsMaxMbsLimits == newLimits
    {
      ostsMaxMbsLimits := map[];
      var todo := newLimits.Keys;
      while todo != {}
        invariant todo <= newLimits.Keys && ostsMaxMbsLimits.Keys == newLimits.Keys - todo
        invariant forall o :: o in ostsMaxMbsLimits ==> ostsMaxMbsLimits[o] == newLimits[o]
        decreases |todo|
      {
        var o :| o in todo;
        ostsMaxMbsLimits := ostsMaxMbsLimits[o := newLimits[o]];
        todo := todo - {o};
      }
      assert ostsMaxMbsLimits.Keys == newLimits.Keys;
    }

    /** `before` is what the caller's variable holds, `load` what it holds afterwards. */
    method GetMaxLoadInTimeInterval(ost: string, start: int, end: int, before: uint32) returns (ok: bool, load: uint32)
      requires Valid()
      ensures ok && load == ReportedLoad(config.loadStored, View().sched.lists, ost, start, end, before)
    {
      load := before;
      var jobList := schedule.GetOSTState(ost);
      if jobList.None? {
        return true, 0;
      }
      var list := jobList.value;
      ghost var rs := Reservations(list);
      var maxLoadMbSec: uint32 := 0;
      for i := 0 to |list|
        invariant maxLoadMbSec == LoadWord(rs[..i], start, end)
      {
        assert rs[..i + 1] == rs[..i] + [rs[i]];
        assert rs[..i + 1][..i] == rs[..i];
        if !(list[i].tstart > end || list[i].tend < start) {
          maxLoadMbSec := (maxLoadMbSec + list[i].minReadThroughputMB) % TWO_TO_THE_32;
        }
      }
      assert rs[..|list|] == rs;
      if config.loadStored {
        load := maxLoadMbSec;
      }
      return true, load;
    }

    method AreEnoughResAvail(job: Job, ost: string, maxOstMbSec: uint32) returns (enough: bool)
      ensures enough == EnoughResources(ostsMaxMbsLimits, ost, maxOstMbSec, job.minReadThroughputMB)
    {
      if ost !in ostsMaxMbsLimits {
        return false;
      }
      return (maxOstMbSec + job.minReadThroughputMB) % TWO_TO_THE_32 <= ostsMaxMbsLimits[ost];
    }

    /** The loop over the job's OSTs; `garbage(i)` is what the uninitialised variable holds in turn `i`. */
    method CheckOsts(job: Job, garbage: nat -> uint32) returns (ok: bool)
      requires Valid()
      ensures ok == AllPass(Now(), View().sched.lists, job.Res(), 0, FirstOf<uint32>(|job.osts|, garbage))
      ensures config.loadStored ==> ok == AllPass(Now(), View().sched.lists, job.Res(), 0, Same<uint32>(|job.osts|, 0))
    {
      ghost var lists, leftovers := View().sched.lists, FirstOf<uint32>(|job.osts|, garbage);
      StoredIgnoresLeftovers(Now(), lists, job.Res(), leftovers);
      for i := 0 to |job.osts|
        invariant forall k :: 0 <= k < i ==> Passes(Now(), lists, job.Res(), k, leftovers[k])
      {
        var found, maxOstMbSec := GetMaxLoadInTimeInterval(job.osts[i], job.tstart, job.tend, garbage(i));
        var enough := AreEnoughResAvail(job, job.osts[i], maxOstMbSec);
        if !enough {
          assert !Passes(Now(), lists, job.Res(), i, leftovers[i]);
          return false;
        }
      }
      return true;
    }

    /** The tail of ScheduleJob, once every check has passed. RegisterJob cannot fail. */
    method AddAndRegister(job: Job) returns (ok: bool)
      requires Valid() && job !in schedule.jobs.Values && job.state == Scheduled
      modifies schedule, jobMonitor.jobPriorityQueue
      ensures Valid() && ok == (job.jobid !in old(View()).sched.jobs)
      ensures View() == if ok then Reserved(Now(), old(View()), job.Res()) else old(View())
    {
      ok := schedule.AddJob(job.jobid, job, job.osts);
      if ok {
        ok := jobMonitor.RegisterJob(job);
      }
    }

    method ScheduleJob(job: Job, garbage: nat -> uint32) returns (ok: bool)
      requires Valid() && job !in schedule.jobs.Values
      modifies job, schedule, jobMonitor.jobPriorityQueue
      ensures Valid() && (View(), ok) == Admitted(Now(), old(View()), job.Res(), FirstOf<uint32>(|job.osts|, garbage))
      ensures ok ==> job.state == Scheduled
      ensures ok ==> job.jobid !in old(View()).sched.jobs && InState(View(), job.jobid, Scheduled)
      ensures !ok ==> View() == old(View())
    {
      ok := CheckOsts(job, garbage);
      if ok {
        job.SetState(Scheduled);
        ok := AddAndRegister(job);
      }
    }

    /** No answer while UnregisterJob waits for the id. */
    method RemoveJob(jobid: string) returns (ok: Option<bool>)
      requires Valid()
      modifies schedule, schedule.jobs.Values, jobMonitor, jobMonitor.jobPriorityQueue, jobMonitor.ruleManager,
               jobMonitor.ruleManager.ruleSetter`remote
      ensures Valid() && jobMonitor.inFlightJobs == old(jobMonitor.inFlightJobs)
      ensures ok == if jobid !in old(View()).sched.jobs then Some(false)
                    else if jobid in jobMonitor.inFlightJobs then None else Some(true)
      ensures View()
           == if ok == Some(true) then Removed(config, old(View()), jobid, jobMonitor.Outside().gone) else old(View())
    {
      var state := schedule.GetJobStatus(jobid);
      if state.None? {
        return Some(false);
      }
      var unregistered := jobMonitor.UnregisterJob(jobid);
      if unregistered.None? {
        return None;
      }
      var removed := schedule.RemoveJob(jobid);
      return Some(removed);
    }
  }
}
