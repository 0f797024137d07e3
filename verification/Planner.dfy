// The planner's request handlers (src/common/Planner.cpp:93-160). Lustre's answers, the clock and the
// decoded message are parameters.
module Planner {
  import opened Jobs
  import opened ScheduleState
  import opened ScheduleStore
  import opened Admission
  import opened Rules
  import opened RuleStore
  import opened Engine
  import opened Stretches
  import opened Monitor
  import opened Scheduler
  import opened Departures
  import EQ = EventQueue

  type int32 = x: int | -0x8000_0000 <= x < 0x8000_0000

  /** The clock's last instant and its ticks per second. */
  const END_OF_TIME: int := 0x7FFF_FFFF_FFFF_FFFF
  const TICKS: int := 1_000_000_000

  datatype ResourceRequest = ResourceRequest(id: string, throughputMB: int32, durationSec: int, files: seq<string>)

  /** How a message field of type int32 arrives in a uint32. */
  function ToUint32(x: int32): (u: uint32) {
    if x < 0 then x + TWO_TO_THE_32 else x
  }

  /** The files' OSTs, `ostsOf` being what Lustre knows. */
  function OstSet(ostsOf: map<string, seq<string>>, files: seq<string>): (osts: set<string>)
    requires forall f :: f in files ==> f in ostsOf
  {
    if files == [] then {}
    else
      var front, last := files[..|files| - 1], files[|files| - 1];
      assert forall f :: f in front ==> f in files;
      OstSet(ostsOf, front) + set o | o in ostsOf[last]
  }

  lemma {:induction false} OstSetMembers(ostsOf: map<string, seq<string>>, files: seq<string>, o: string)
    requires forall f :: f in files ==> f in ostsOf
    ensures o in OstSet(ostsOf, files) <==> exists f :: f in files && o in ostsOf[f]
    decreases |files|
  {
    if files != [] {
      var front, last := files[..|files| - 1], files[|files| - 1];
      assert files == front + [last];
      OstSetMembers(ostsOf, front, o);
    }
  }

  /** Without a positive duration a reservation never ends. */
  function EndOf(now: int, durationSec: int): (end: int)
  {
    if durationSec > 0 then now + durationSec * TICKS else END_OF_TIME
  }

  lemma EndsAfterStart(now: int, durationSec: int)
    requires now <= END_OF_TIME
    ensures now <= EndOf(now, durationSec)
  {
  }

  /** `r` is the reservation asked for: it starts now, and lists each OST of the files once. */
  ghost predicate Asks(ostsOf: map<string, seq<string>>, request: ResourceRequest, now: int, r: Reservation) {
    && (forall f :: f in request.files ==> f in ostsOf)
    && r.jobid == request.id && r.start == now && r.end == EndOf(now, request.durationSec)
    && r.mbs == ToUint32(request.throughputMB)
    && Distinct(r.osts) && forall o :: o in r.osts <==> o in OstSet(ostsOf, request.files)
  }

  /** A non-negative throughput and limits up to 2^31 rule wrap-around out. */
  lemma OrdinaryRequestsFit(limits: map<string, uint32>, ostsOf: map<string, seq<string>>, request: ResourceRequest,
                            now: int, r: Reservation)
    requires Asks(ostsOf, request, now, r) && 0 <= request.throughputMB
    requires forall o :: o in limits ==> limits[o] <= 0x8000_0000
    ensures FitsWord(limits, r)
  {
  }

  /** A negative throughput passes the check of any OST that already carries at least its amount,
      although as a reservation it counts for more than 2^31. */
  lemma NegativeThroughputWraps(limits: map<string, uint32>, o: string, load: uint32, x: int32)
    requires o in limits && x < 0 <= load + x && load <= limits[o]
    ensures EnoughResources(limits, o, load, ToUint32(x)) && Fooled(limits, o, load, ToUint32(x))
    ensures ToUint32(x) >= 0x8000_0000
  {
    assert load + ToUint32(x) == load + x + TWO_TO_THE_32;
    assert (load + ToUint32(x)) % TWO_TO_THE_32 == load + x;
  }

  /** Instant by instant, in ticks of a nanosecond: a positive duration is covered to its last second and not
      beyond; without one the reservation runs to the last instant of the clock. */
  lemma AskedInterval(ostsOf: map<string, seq<string>>, request: ResourceRequest, now: int, r: Reservation, t: int)
    requires Asks(ostsOf, request, now, r)
    ensures request.durationSec > 0 ==>
              (r.Covers(now + t) <==> 0 <= t <= request.durationSec * 1_000_000_000)
    ensures request.durationSec <= 0 ==> (r.Covers(t) <==> now <= t <= 0x7FFF_FFFF_FFFF_FFFF)
  {
  }

  /** In whole seconds: second `k` is covered iff it is not past the duration, and the instant after the last
      one is not. */
  lemma AskedSeconds(ostsOf: map<string, seq<string>>, request: ResourceRequest, now: int, r: Reservation, k: nat)
    requires Asks(ostsOf, request, now, r) && request.durationSec > 0
    ensures r.Covers(now + k * 1_000_000_000) <==> k <= request.durationSec
    ensures !r.Covers(now + request.durationSec * 1_000_000_000 + 1)
  {
    AskedInterval(ostsOf, request, now, r, k * 1_000_000_000);
    AskedInterval(ostsOf, request, now, r, request.durationSec * 1_000_000_000 + 1);
  }

  /** The throughput reserved is the one asked for modulo 2^32: the same if that is not negative, and otherwise
      greater by 2^32. */
  lemma AskedThroughput(ostsOf: map<string, seq<string>>, request: ResourceRequest, now: int, r: Reservation)
    requires Asks(ostsOf, request, now, r)
    ensures (r.mbs - request.throughputMB) % 0x1_0000_0000 == 0
    ensures 0 <= request.throughputMB ==> r.mbs == request.throughputMB
    ensures request.throughputMB < 0 ==> r.mbs == request.throughputMB + 0x1_0000_0000
  {
  }

  /** OST `o` has a limit, and `r` would not exceed it at any instant. */
  ghost predicate Bears(c: Config, b: Books, r: Reservation, o: string) {
    o in c.limits && !WouldOverload(c.limits, b.sched.jobs, r, o)
  }

  /** So in some run a negative throughput, asked for next to a reservation of at least its amount, is
      granted, and the OST carries more than its limit; everything else may be put right. */
  lemma NegativeRequestOvercommits(c: Config, r1: Reservation, r2: Reservation, now: int, o: string, x: Oracle,
                                   throughput: int32) returns (steps: seq<Step>)
    requires c.loadStored && r1.jobid != r2.jobid && r1.osts == r2.osts == [o]
    requires r1.start == r2.start == now && now <= r1.end && now <= r2.end
    requires o in c.limits && r1.mbs <= c.limits[o]
    requires r2.mbs == ToUint32(throughput) && throughput < 0 <= r1.mbs + throughput
    ensures Run(c, Start(now), steps).Some?
    ensures LiveLoad(Run(c, Start(now), steps).value.sched.jobs, o, now) > c.limits[o]
  {
    NegativeThroughputWraps(c.limits, o, r1.mbs, throughput);
    steps := WrappedSumOvercommits(c, r1, r2, now, o, x);
  }

  lemma GrantedIfAllBear(c: Config, b: Books, h: seq<Reservation>, r: Reservation, leftovers: seq<uint32>)
    requires |leftovers| == |r.osts| && c.loadStored && Represents(b.sched, h)
    requires ListsWithinLimits(c.limits, b.sched.lists) && AllStartedBy(b.sched.lists, r.start)
    requires r.start <= r.end && Unwrapped(c.limits, b.sched.lists, r)
    ensures Admitted(c, b, r, leftovers).1
       <==> r.jobid !in b.sched.jobs && forall o :: o in r.osts ==> Bears(c, b, r, o)
  {
    AdmittedIff(c, b, h, r, leftovers);
  }

  /** Each OST of each file is named, and named once. */
  lemma AskedOsts(ostsOf: map<string, seq<string>>, request: ResourceRequest, now: int, r: Reservation)
    requires Asks(ostsOf, request, now, r)
    ensures Distinct(r.osts) && forall o :: o in r.osts <==> exists f :: f in request.files && o in ostsOf[f]
  {
    forall o ensures o in r.osts <==> exists f :: f in request.files && o in ostsOf[f] {
      OstSetMembers(ostsOf, request.files, o);
    }
  }

  /** The planner's first promise, for a request with known files: it is granted if and only if the id
      is new and no OST of any of its files would at any instant carry more than its limit. */
  lemma SubmissionGrantedIff(c: Config, b: Books, h: seq<Reservation>, ostsOf: map<string, seq<string>>,
                             request: ResourceRequest, now: int, r: Reservation, leftovers: seq<uint32>)
    requires Asks(ostsOf, request, now, r) && now <= END_OF_TIME && |leftovers| == |r.osts|
    requires c.loadStored && Represents(b.sched, h) && Unwrapped(c.limits, b.sched.lists, r)
    requires ListsWithinLimits(c.limits, b.sched.lists) && AllStartedBy(b.sched.lists, now)
    ensures Admitted(c, b, r, leftovers).1
       <==> request.id !in b.sched.jobs
            && forall f, o :: f in request.files && o in ostsOf[f] ==> Bears(c, b, r, o)
  {
    EndsAfterStart(now, request.durationSec);
    GrantedIfAllBear(c, b, h, r, leftovers);
    AskedOsts(ostsOf, request, now, r);
    if forall o :: o in r.osts ==> Bears(c, b, r, o) {
      forall f, o | f in request.files && o in ostsOf[f] ensures Bears(c, b, r, o) {
        assert o in r.osts;
      }
    }
  }

  /** So it is for an ordinary request: a throughput that is not negative, next to limits up to 2^31. */
  lemma OrdinarySubmissionGrantedIff(c: Config, b: Books, h: seq<Reservation>, ostsOf: map<string, seq<string>>,
                                     request: ResourceRequest, now: int, r: Reservation, leftovers: seq<uint32>)
    requires Asks(ostsOf, request, now, r) && now <= END_OF_TIME && |leftovers| == |r.osts|
    requires 0 <= request.throughputMB && forall o :: o in c.limits ==> c.limits[o] <= 0x8000_0000
    requires c.loadStored && Represents(b.sched, h)
    requires ListsWithinLimits(c.limits, b.sched.lists) && AllStartedBy(b.sched.lists, now)
    ensures Admitted(c, b, r, leftovers).1
       <==> request.id !in b.sched.jobs
            && forall f, o :: f in request.files && o in ostsOf[f] ==> Bears(c, b, r, o)
  {
    OrdinaryRequestsFit(c.limits, ostsOf, request, now, r);
    FittingIsUnwrapped(c.limits, b.sched.lists, r);
    SubmissionGrantedIff(c, b, h, ostsOf, request, now, r, leftovers);
  }

  // ---------- removal ----------

  function RemovedAll(c: Config, b: Books, ids: seq<string>, gone: seq<set<string>>): (b': Books)
    requires |gone| == |ids|
  {
    if ids == [] then b
    else
      var n := |ids| - 1;
      Removed(c, RemovedAll(c, b, ids[..n], gone[..n]), ids[n], gone[n])
  }

  lemma RemovedAllSnoc(c: Config, b: Books, ids: seq<string>, gone: seq<set<string>>, id: string, g: set<string>)
    requires |gone| == |ids|
    ensures RemovedAll(c, b, ids + [id], gone + [g]) == Removed(c, RemovedAll(c, b, ids, gone), id, g)
  {
    assert (ids + [id])[..|ids|] == ids && (gone + [g])[..|gone|] == gone;
  }

  /** What the OSSs take of the removals in the `n` rounds after `round`. */
  function RemovalsOf(n: nat, takesRemoval: nat -> set<string>, round: nat): (gone: seq<set<string>>)
    ensures |gone| == n && forall i :: 0 <= i < n ==> gone[i] == takesRemoval(round + 1 + i)
  {
    seq(n, i requires 0 <= i => takesRemoval(round + 1 + i))
  }

  lemma RemovedAllNext(c: Config, b: Books, ids: seq<string>, i: nat, takesRemoval: nat -> set<string>, round: nat)
    requires i < |ids|
    ensures RemovedAll(c, b, ids[..i + 1], RemovalsOf(i + 1, takesRemoval, round))
         == Removed(c, RemovedAll(c, b, ids[..i], RemovalsOf(i, takesRemoval, round)), ids[i],
                    takesRemoval(round + 1 + i))
  {
    var gone, g := RemovalsOf(i, takesRemoval, round), takesRemoval(round + 1 + i);
    assert ids[..i + 1] == ids[..i] + [ids[i]];
    assert RemovalsOf(i + 1, takesRemoval, round) == gone + [g];
    RemovedAllSnoc(c, b, ids[..i], gone, ids[i], g);
  }

  /** At most one event per id, and rules for ACTIVE jobs only. */
  ghost predicate Tidy(b: Books) {
    && (forall id :: EQ.CountFor(b.queue, id) <= 1)
    && (forall id :: id in b.rules.active ==> InState(b, id, Active))
  }

  ghost predicate Forgotten(b: Books, id: string) {
    id !in b.sched.jobs && id !in b.rules.active && EQ.CountFor(b.queue, id) == 0
  }

  lemma RemovedForgets(c: Config, b: Books, id: string, gone: set<string>)
    requires Tidy(b)
    ensures Tidy(Removed(c, b, id, gone)) && Forgotten(Removed(c, b, id, gone), id)
    ensures forall k :: Forgotten(b, k) ==> Forgotten(Removed(c, b, id, gone), k)
  {
    var r := Removed(c, b, id, gone);
    assert r.queue == EQ.Removed(c.queueFixed, b.queue, id);
    forall k ensures EQ.CountFor(r.queue, k) <= EQ.CountFor(b.queue, k) {
      EQ.SumRemoved(c.queueFixed, b.queue, id, EQ.IsFor(k));
    }
    EQ.SumRemoved(c.queueFixed, b.queue, id, EQ.IsFor(id));
    EQ.CountForNone(b.queue, id);
    forall k | k in r.rules.active ensures k != id && InState(r, k, Active) {
      assert k in b.rules.active && InState(b, k, Active);
    }
  }

  /** A served removal request leaves nothing of any requested job. */
  lemma {:induction false} RemovedAllForgets(c: Config, b: Books, ids: seq<string>, gone: seq<set<string>>)
    requires Tidy(b) && |gone| == |ids|
    ensures Tidy(RemovedAll(c, b, ids, gone)) && forall id :: id in ids ==> Forgotten(RemovedAll(c, b, ids, gone), id)
    decreases |ids|
  {
    if ids != [] {
      var n := |ids| - 1;
      assert ids == ids[..n] + [ids[n]];
      RemovedAllForgets(c, b, ids[..n], gone[..n]);
      RemovedForgets(c, RemovedAll(c, b, ids[..n], gone[..n]), ids[n], gone[n]);
    }
  }

  // ---------- the same, step by step ----------

  /** `s` with these books, the server being at `p`. */
  function WithBooks(s: State, b: Books, p: SrvPc): (s': State) {
    s.(sched := b.sched, queue := b.queue, rules := b.rules, srv := p)
  }

  lemma Glue(c: Config, s: State, first: seq<Step>, m: State, rest: seq<Step>, t: State) returns (steps: seq<Step>)
    requires Run(c, s, first) == Some(m) && Run(c, m, rest) == Some(t)
    ensures Run(c, s, steps) == Some(t) && steps == first + rest
  {
    RunAppend(c, s, first, rest);
    steps := first + rest;
  }

  lemma OneRemovalAlone(c: Config, s: State, id: string, rest: seq<string>, x: Oracle) returns (steps: seq<Step>)
    requires s.srv == SBlock(id, rest) && id !in s.inFlight
    ensures SrvOnly(steps, x)
    ensures Run(c, s, steps) == Some(WithBooks(s, Removed(c, BooksOf(s), id, x.gone), NextRemoval(rest)))
  {
    steps := UnregisterLooks(c, s, id, rest, x);
    var m := Run(c, s, steps).value;
    if HasState(s, id, Active) {
      var stop := StopJobAlone(c, m, id, rest, x);
      var stopped := Run(c, m, stop).value;
      steps := Glue(c, s, steps, m, stop, stopped);
      m := stopped;
    }
    var done := StopDoneAlone(c, m, id, rest, x);
    steps := Glue(c, s, steps, m, done, Run(c, m, done).value);
    assert s.inFlight + {id} - {id} == s.inFlight;
  }

  /** RemovedAll from the front. */
  lemma {:induction false} RemovedAllCons(c: Config, b: Books, id: string, g: set<string>, ids: seq<string>,
                                          gone: seq<set<string>>)
    requires |gone| == |ids|
    ensures RemovedAll(c, b, [id] + ids, [g] + gone) == RemovedAll(c, Removed(c, b, id, g), ids, gone)
    decreases |ids|
  {
    if ids == [] {
      assert [id] + ids == [id] && [g] + gone == [g] && [id][..0] == [] && [g][..0] == [];
    } else {
      var n := |ids| - 1;
      RemovedAllCons(c, b, id, g, ids[..n], gone[..n]);
      assert ([id] + ids)[..n + 1] == [id] + ids[..n] && ([g] + gone)[..n + 1] == [g] + gone[..n];
    }
  }

  lemma RemovedAllFront(c: Config, b: Books, ids: seq<string>, gone: seq<set<string>>)
    requires ids != [] && |gone| == |ids|
    ensures RemovedAll(c, b, ids, gone) == RemovedAll(c, Removed(c, b, ids[0], gone[0]), ids[1..], gone[1..])
  {
    assert [ids[0]] + ids[1..] == ids && [gone[0]] + gone[1..] == gone;
    RemovedAllCons(c, b, ids[0], gone[0], ids[1..], gone[1..]);
  }

  /** Left alone after a removal request, the stepping server does exactly what ServeJobRemove does,
      whichever removals of rules take effect, and whether or not the removal is serialised: the order of
      unblocking and erasing shows only when the monitor runs in between. */
  lemma {:induction false} RemoveStepByStep(c: Config, s: State, ids: seq<string>, gone: seq<set<string>>)
    returns (steps: seq<Step>)
    requires s.srv == NextRemoval(ids) && |gone| == |ids| && forall id :: id in ids ==> id !in s.inFlight
    ensures SrvSteps(steps)
    ensures Run(c, s, steps) == Some(WithBooks(s, RemovedAll(c, BooksOf(s), ids, gone), SIdle))
    decreases |ids|
  {
    if ids == [] {
      steps := [];
    } else {
      var x := Oracle({}, gone[0], 0);
      var first := OneRemovalAlone(c, s, ids[0], ids[1..], x);
      var m := WithBooks(s, Removed(c, BooksOf(s), ids[0], gone[0]), NextRemoval(ids[1..]));
      var rest := RemoveStepByStep(c, m, ids[1..], gone[1..]);
      RemovedAllFront(c, BooksOf(s), ids, gone);
      steps := Glue(c, s, first, m, rest, WithBooks(s, RemovedAll(c, BooksOf(s), ids, gone), SIdle));
    }
  }

  // ---------- the planner object ----------

  predicate NoneHeld(ids: seq<string>, held: set<string>, k: nat) {
    k <= |ids| && forall j :: 0 <= j < k ==> ids[j] !in held
  }

  /** Slot `k` is the first one with an id in `held`, or the end. */
  predicate FirstHeld(ids: seq<string>, held: set<string>, k: nat) {
    NoneHeld(ids, held, k) && (k < |ids| ==> ids[k] in held)
  }

  class Planner {
    const ostsOf: map<string, seq<string>>
    const schedule: MemoryScheduleState
    const jobMonitor: JobMonitor
    const scheduler: JobSchedulerStaticWorkloads

    ghost predicate Valid()
      reads jobMonitor, jobMonitor.scheduleState, jobMonitor.scheduleState.jobs.Values,
            scheduler.jobMonitor, scheduler.jobMonitor.scheduleState, scheduler.jobMonitor.scheduleState.jobs.Values
    {
      scheduler.Valid() && scheduler.jobMonitor == jobMonitor && scheduler.schedule == schedule
    }

    constructor (config: Config, ostsOf: map<string, seq<string>>, ruleSetter: RuleSetter)
      ensures Valid() && fresh(schedule) && fresh(jobMonitor) && fresh(scheduler) && fresh(jobMonitor.jobPriorityQueue)
      ensures this.ostsOf == ostsOf && jobMonitor.inFlightJobs == {} && scheduler.ostsMaxMbsLimits == map[]
      ensures scheduler.View() == Books(EMPTY, [], RuleState(map[], ruleSetter.remote))
      ensures scheduler.config == config && jobMonitor.ruleManager.ruleSetter == ruleSetter
    {
      this.ostsOf := ostsOf;
      var sched := new MemoryScheduleState(config.listErased);
      var ruleManager := new RuleManager(config.cleanupFixed, config.ipOf, ruleSetter);
      var monitor := new JobMonitor(config, sched, ruleManager);
      schedule, jobMonitor := sched, monitor;
      scheduler := new JobSchedulerStaticWorkloads(config, sched, monitor);
    }

    method TryComputeOstSetOfRequest(files: seq<string>) returns (ok: bool, ostsSet: set<string>)
      ensures ok <==> forall f :: f in files ==> f in ostsOf
      ensures ok ==> ostsSet == OstSet(ostsOf, files)
    {
      ostsSet := {};
      for i := 0 to |files|
        invariant forall f :: f in files[..i] ==> f in ostsOf
        invariant ostsSet == OstSet(ostsOf, files[..i])
      {
        if files[i] !in ostsOf {
          return false, ostsSet;
        }
        assert files[..i + 1][..i] == files[..i];
        var osts := ostsOf[files[i]];
        ghost var before := ostsSet;
        for j := 0 to |osts|
          invariant ostsSet == before + set o | o in osts[..j]
        {
          assert osts[..j + 1] == osts[..j] + [osts[j]];
          ostsSet := ostsSet + {osts[j]};
        }
        assert osts[..|osts|] == osts;
      }
      assert files[..|files|] == files;
      return true, ostsSet;
    }

    /** The set's elements in some order. */
    method Listed(ostsSet: set<string>) returns (osts: seq<string>)
      ensures Distinct(osts) && forall o :: o in osts <==> o in ostsSet
    {
      osts := [];
      var todo := ostsSet;
      while todo != {}
        invariant todo <= ostsSet && Distinct(osts) && forall o :: o in osts <==> o in ostsSet - todo
        decreases |todo|
      {
        var o :| o in todo;
        assert o !in osts;
        osts := osts + [o];
        todo := todo - {o};
      }
    }

    method BuildJob(request: ResourceRequest, tstart: int, tend: int, ostsSet: set<string>) returns (job: Job)
      ensures fresh(job) && job.state == Initialized
      ensures var r := job.Res();
              && r.jobid == request.id && r.start == tstart && r.end == tend && r.mbs == ToUint32(request.throughputMB)
              && Distinct(r.osts) && forall o :: o in r.osts <==> o in ostsSet
    {
      var osts := Listed(ostsSet);
      job := new Job(Reservation(request.id, tstart, tend, ToUint32(request.throughputMB), osts), Initialized);
    }

    /** `rc` is what the reply is given, if anything; `garbage` is what the scheduler's uninitialised variable
        holds. */
    method ServeJobSubmission(request: ResourceRequest, now: int, garbage: nat -> uint32)
      returns (success: bool, rc: Option<int>, ghost r: Reservation)
      requires Valid()
      modifies schedule, jobMonitor.jobPriorityQueue
      ensures Valid()
      ensures request.files == [] ==> success && rc == None && scheduler.View() == old(scheduler.View())
      ensures request.files != [] && (exists f :: f in request.files && f !in ostsOf) ==>
                !success && rc == None && scheduler.View() == old(scheduler.View())
      ensures request.files != [] && (forall f :: f in request.files ==> f in ostsOf) ==>
                && Asks(ostsOf, request, now, r)
                && (scheduler.View(), success)
                   == Admitted(scheduler.Now(), old(scheduler.View()), r, FirstOf<uint32>(|r.osts|, garbage))
                && rc == Some(if success then 0 else -1)
      ensures rc == Some(0) ==>
                request.id !in old(scheduler.View()).sched.jobs && InState(scheduler.View(), request.id, Scheduled)
                && scheduler.View().sched.jobs[request.id].res == r
      ensures rc != Some(0) ==> scheduler.View() == old(scheduler.View())
    {
      r, rc := Reservation(request.id, now, now, 0, []), None;
      if |request.files| == 0 {
        return true, rc, r;
      }
      var found, ostsSet := TryComputeOstSetOfRequest(request.files);
      if !found {
        return false, rc, r;
      }
      var tend := END_OF_TIME;
      if request.durationSec > 0 {
        tend := now + request.durationSec * TICKS;
      }
      var job := BuildJob(request, now, tend, ostsSet);
      r := job.Res();
      success := scheduler.ScheduleJob(job, garbage);
      rc := Some(if success then 0 else -1);
    }

    /** The body of the loop in ServeJobRemove; not done while UnregisterJob waits for the id. What the OSSs
        answer may have changed since the last turn. */
    method RemoveOne(id: string) returns (done: bool)
      requires Valid()
      modifies schedule, schedule.jobs.Values, jobMonitor, jobMonitor.jobPriorityQueue, jobMonitor.ruleManager,
               jobMonitor.ruleManager.ruleSetter
      ensures Valid() && jobMonitor.inFlightJobs == old(jobMonitor.inFlightJobs)
      ensures jobMonitor.ruleManager.ruleSetter.round == old(jobMonitor.ruleManager.ruleSetter.round) + 1
      ensures done == (id !in jobMonitor.inFlightJobs)
      ensures scheduler.View()
           == if done then Removed(scheduler.config, old(scheduler.View()), id, jobMonitor.Outside().gone)
              else old(scheduler.View())
      ensures schedule.jobs.Values <= old(schedule.jobs.Values)
    {
      jobMonitor.ruleManager.ruleSetter.NextRound();
      var ok := jobMonitor.UnregisterJob(id);
      if ok.None? {
        return false;
      }
      var removed := schedule.RemoveJob(id);
      return true;
    }

    /** What the OSSs take of the removals in the first `n` turns of the loop. */
    ghost function Gone(n: nat, round: nat): (gone: seq<set<string>>)
      ensures |gone| == n
    {
      RemovalsOf(n, jobMonitor.ruleManager.ruleSetter.takesRemoval, round)
    }

    /** The loop in ServeJobRemove: the ids up to the first one that somebody else holds. */
    method RemoveInTurn(ids: seq<string>) returns (done: nat)
      requires Valid()
      modifies schedule, schedule.jobs.Values, jobMonitor, jobMonitor.jobPriorityQueue, jobMonitor.ruleManager,
               jobMonitor.ruleManager.ruleSetter
      ensures Valid() && jobMonitor.inFlightJobs == old(jobMonitor.inFlightJobs)
      ensures FirstHeld(ids, jobMonitor.inFlightJobs, done)
      ensures scheduler.View() == RemovedAll(scheduler.config, old(scheduler.View()), ids[..done],
                                             Gone(done, old(jobMonitor.ruleManager.ruleSetter.round)))
    {
      done := 0;
      ghost var start, held := scheduler.View(), jobMonitor.inFlightJobs;
      ghost var takes, round := jobMonitor.ruleManager.ruleSetter.takesRemoval, jobMonitor.ruleManager.ruleSetter.round;
      while done < |ids|
        invariant Valid() && jobMonitor.inFlightJobs == held && NoneHeld(ids, held, done)
        invariant jobMonitor.ruleManager.ruleSetter.round == round + done
        invariant schedule.jobs.Values <= old(schedule.jobs.Values)
        invariant scheduler.View() == RemovedAll(scheduler.config, start, ids[..done], RemovalsOf(done, takes, round))
      {
        var removed := RemoveOne(ids[done]);
        if !removed {
          return;
        }
        RemovedAllNext(scheduler.config, start, ids, done, takes, round);
        done := done + 1;
      }
    }

    /** When all ids are done it replies; at an id that somebody else holds it waits, and has not replied. */
    method ServeJobRemove(ids: seq<string>) returns (done: nat, success: bool, rc: Option<int>)
      requires Valid()
      modifies schedule, schedule.jobs.Values, jobMonitor, jobMonitor.jobPriorityQueue, jobMonitor.ruleManager,
               jobMonitor.ruleManager.ruleSetter
      ensures Valid() && jobMonitor.inFlightJobs == old(jobMonitor.inFlightJobs)
      ensures FirstHeld(ids, jobMonitor.inFlightJobs, done)
      ensures if done == |ids| then success && rc == Some(0) else !success && rc == None
      ensures scheduler.View() == RemovedAll(scheduler.config, old(scheduler.View()), ids[..done],
                                             Gone(done, old(jobMonitor.ruleManager.ruleSetter.round)))
    {
      done := RemoveInTurn(ids);
      success := done == |ids|;
      rc := if success then Some(0) else None;
    }
  }
}
