// The schedule as the object the planner's threads share: jobs are mutable objects reached both
// through jobs_ and through the lists (src/common/MemoryScheduleState.cpp, src/common/Job.h).
module ScheduleStore {
  import opened Jobs
  import opened ScheduleState

  class Job {
    const jobid: string
    const tstart: int
    const tend: int
    const minReadThroughputMB: uint32
    const osts: seq<string>
    var state: JobState

    constructor (res: Reservation, state: JobState)
      ensures Res() == res && this.state == state
    {
      jobid, tstart, tend := res.jobid, res.start, res.end;
      minReadThroughputMB, osts := res.mbs, res.osts;
      this.state := state;
    }

    function Res(): Reservation {
      Reservation(jobid, tstart, tend, minReadThroughputMB, osts)
    }

    method SetState(newState: JobState)
      modifies this
      ensures state == newState
    {
      state := newState;
    }
  }

  function Reservations(l: seq<Job>): (rs: seq<Reservation>)
    ensures |rs| == |l| && forall i :: 0 <= i < |l| ==> rs[i] == l[i].Res()
  {
    seq(|l|, i requires 0 <= i < |l| => l[i].Res())
  }

  function Lists(m: map<string, seq<Job>>): (lists: map<string, seq<Reservation>>) {
    map o | o in m :: Reservations(m[o])
  }

  lemma ListsUpdate(m: map<string, seq<Job>>, o: string, l: seq<Job>)
    ensures Lists(m[o := l]) == Lists(m)[o := Reservations(l)]
  {
  }

  ghost function Entries(jobs: map<string, Job>): (m: map<string, Entry>)
    reads jobs.Values
  {
    map id | id in jobs :: Entry(jobs[id].Res(), jobs[id].state)
  }

  ghost predicate Alike(a: Job, b: Job)
    reads a, b
  {
    a.Res() == b.Res() && a.state == b.state
  }

  lemma SameEntries(a: map<string, Job>, b: map<string, Job>)
    requires a.Keys == b.Keys && forall id :: id in a ==> Alike(a[id], b[id])
    ensures Entries(a) == Entries(b)
  {
  }

  lemma {:induction false} InsertedAtFirstLater(l: seq<Reservation>, r: Reservation, k: nat)
    requires k <= |l| && forall i :: 0 <= i < k ==> l[i].start <= r.start
    requires k < |l| ==> l[k].start > r.start
    ensures Inserted(l, r) == l[..k] + [r] + l[k..]
  {
    if k > 0 {
      InsertedAtFirstLater(l[1..], r, k - 1);
      assert l[..k] == [l[0]] + l[1..][..k - 1];
    }
  }

  lemma {:induction false} ErasedAtFirst(l: seq<Reservation>, id: string, k: nat)
    requires k < |l| && l[k].jobid == id && forall i :: 0 <= i < k ==> l[i].jobid != id
    ensures Erased(l, id) == l[..k] + l[k + 1..]
  {
    if k > 0 {
      ErasedAtFirst(l[1..], id, k - 1);
      assert l[..k] == [l[0]] + l[1..][..k - 1];
    }
  }

  /** A deep copy: the caller may change or drop what it gets. */
  method DeepCopy(jobs: map<string, Job>) returns (copy: map<string, Job>)
    ensures forall id :: id in copy ==> fresh(copy[id])
    ensures Entries(copy) == Entries(jobs)
  {
    copy := map[];
    var todo := jobs.Keys;
    while todo != {}
      invariant todo <= jobs.Keys && copy.Keys == jobs.Keys - todo
      invariant forall id :: id in copy ==> fresh(copy[id]) && Alike(copy[id], jobs[id])
      decreases |todo|
    {
      var id :| id in todo;
      var dup := new Job(jobs[id].Res(), jobs[id].state);
      copy := copy[id := dup];
      todo := todo - {id};
    }
    SameEntries(copy, jobs);
  }

  class MemoryScheduleState {
    const erases: bool
    var schedule: map<string, seq<Job>>
    var jobs: map<string, Job>

    ghost var view: Schedule

    /** No two ids share a job object, and `view` is what is stored. */
    ghost predicate Valid()
      reads this, jobs.Values
    {
      && (forall a, b :: a in jobs && b in jobs && a != b ==> jobs[a] != jobs[b])
      && view == Schedule(Entries(jobs), Lists(schedule))
    }

    constructor (erases: bool)
      ensures Valid() && this.erases == erases && view == EMPTY
      ensures jobs == map[] && schedule == map[]
    {
      this.erases := erases;
      schedule, jobs := map[], map[];
      view := EMPTY;
    }

    method Reset()
      modifies this
      ensures Valid() && view == EMPTY
    {
      schedule, jobs := map[], map[];
      view := EMPTY;
    }

    method GetOSTState(ost: string) returns (list: Option<seq<Job>>)
      requires Valid()
      ensures list == if ost in schedule then Some(schedule[ost]) else None
      ensures list.Some? ==> Reservations(list.value) == ListOf(view.lists, ost)
    {
      if ost !in schedule {
        return None;
      }
      return Some(schedule[ost]);
    }

    /** The scan for the first later start, and the insertion in front of it. */
    method InsertIntoList(ost: string, job: Job)
      modifies this`schedule
      ensures Lists(schedule)
           == Lists(old(schedule))[ost := Inserted(ListOf(Lists(old(schedule)), ost), job.Res())]
    {
      ghost var lists := Lists(schedule);
      if ost !in schedule {
        ListsUpdate(schedule, ost, []);
        schedule := schedule[ost := []];
      }
      var ostSched := schedule[ost];
      var it := 0;
      while it < |ostSched|
        invariant it <= |ostSched|
        invariant forall k :: 0 <= k < it ==> ostSched[k].tstart <= job.tstart
      {
        if ostSched[it].tstart > job.tstart {
          break;
        }
        it := it + 1;
      }
      ghost var before := Reservations(ostSched);
      InsertedAtFirstLater(before, job.Res(), it);
      var longer := ostSched[..it] + [job] + ostSched[it..];
      assert Reservations(longer) == before[..it] + [job.Res()] + before[it..];
      ListsUpdate(schedule, ost, longer);
      schedule := schedule[ost := longer];
      assert Lists(schedule) == lists[ost := Inserted(ListOf(lists, ost), job.Res())];
    }

    method InsertIntoLists(osts: seq<string>, job: Job)
      modifies this`schedule
      ensures Lists(schedule) == AddedToLists(Lists(old(schedule)), job.Res(), osts)
    {
      var i := 0;
      while i < |osts|
        invariant 0 <= i <= |osts|
        invariant AddedToLists(Lists(schedule), job.Res(), osts[i..])
               == AddedToLists(Lists(old(schedule)), job.Res(), osts)
      {
        assert osts[i..][0] == osts[i] && osts[i..][1..] == osts[i + 1..];
        InsertIntoList(osts[i], job);
        i := i + 1;
      }
      assert osts[|osts|..] == [];
    }

    method AddJob(jobid: string, job: Job, osts: seq<string>) returns (ok: bool)
      requires Valid()
      modifies this
      ensures Valid() && ok == (jobid !in old(view.jobs))
      ensures view == JobAdded(old(view), jobid, Entry(job.Res(), old(job.state)), osts)
      ensures forall id :: id in old(jobs) ==> id in jobs && jobs[id] == old(jobs[id])
      ensures ok ==> jobs.Keys == old(jobs.Keys) + {jobid} && fresh(jobs[jobid])
    {
      if jobid in jobs {
        return false;
      }
      var toInsertJob := new Job(job.Res(), job.state);
      InsertIntoLists(osts, toInsertJob);
      jobs := jobs[jobid := toInsertJob];
      view := JobAdded(view, jobid, Entry(job.Res(), job.state), osts);
      assert Entries(jobs) == old(Entries(jobs))[jobid := Entry(job.Res(), old(job.state))];
      return true;
    }

    /** The scan of one OST list for the first entry of `jobid`. */
    method CopyWithout(ostJobList: seq<Job>, jobid: string) returns (copy: seq<Job>)
      ensures Reservations(copy) == Erased(Reservations(ostJobList), jobid)
    {
      ghost var before := Reservations(ostJobList);
      var it := 0;
      while it < |ostJobList|
        invariant it <= |ostJobList|
        invariant forall k :: 0 <= k < it ==> ostJobList[k].jobid != jobid
      {
        if ostJobList[it].jobid == jobid {
          ErasedAtFirst(before, jobid, it);
          copy := ostJobList[..it] + ostJobList[it + 1..];
          assert Reservations(copy) == before[..it] + before[it + 1..];
          return;
        }
        it := it + 1;
      }
      ErasedAbsent(before, jobid);
      copy := ostJobList;
    }

    /** `erases` decides whether the stored list or only a copy of it gets shorter. */
    method EraseFromList(ost: string, jobid: string)
      modifies this`schedule
      ensures var l := ListOf(Lists(old(schedule)), ost);
              Lists(schedule) == Lists(old(schedule))[ost := if erases then Erased(l, jobid) else l]
    {
      ghost var lists := Lists(schedule);
      if ost !in schedule {
        ListsUpdate(schedule, ost, []);
        schedule := schedule[ost := []];
      }
      assert Lists(schedule) == lists[ost := ListOf(lists, ost)];
      var ostJobList := CopyWithout(schedule[ost], jobid);
      if erases {
        ListsUpdate(schedule, ost, ostJobList);
        schedule := schedule[ost := ostJobList];
      }
    }

    method EraseFromLists(osts: seq<string>, jobid: string)
      modifies this`schedule
      ensures Lists(schedule) == RemovedFromLists(erases, Lists(old(schedule)), jobid, osts)
    {
      var i := 0;
      while i < |osts|
        invariant 0 <= i <= |osts|
        invariant RemovedFromLists(erases, Lists(schedule), jobid, osts[i..])
               == RemovedFromLists(erases, Lists(old(schedule)), jobid, osts)
      {
        assert osts[i..][0] == osts[i] && osts[i..][1..] == osts[i + 1..];
        EraseFromList(osts[i], jobid);
        i := i + 1;
      }
      assert osts[|osts|..] == [];
    }

    method RemoveJob(jobid: string) returns (ok: bool)
      requires Valid()
      modifies this
      ensures Valid() && ok == (jobid in old(view.jobs))
      ensures jobs == old(jobs) - {jobid}
      ensures view == JobRemoved(erases, old(view), jobid)
    {
      if jobid !in jobs {
        return false;
      }
      var job := jobs[jobid];
      jobs := jobs - {jobid};
      EraseFromLists(job.osts, jobid);
      view := JobRemoved(erases, view, jobid);
      assert Entries(jobs) == old(Entries(jobs)) - {jobid};
      return true;
    }

    method UpdateJob(jobid: string, newState: JobState) returns (ok: bool)
      requires Valid()
      modifies this`view, jobs.Values
      ensures Valid() && ok == (jobid in old(view.jobs)) && jobs == old(jobs)
      ensures view == JobUpdated(old(view), jobid, newState)
    {
      if jobid !in jobs {
        return false;
      }
      jobs[jobid].SetState(newState);
      view := JobUpdated(view, jobid, newState);
      assert Entries(jobs) == old(Entries(jobs))[jobid := Entry(jobs[jobid].Res(), newState)];
      return true;
    }

    method GetAllJobs() returns (copy: map<string, Job>)
      requires Valid()
      ensures forall id :: id in copy ==> fresh(copy[id])
      ensures Entries(copy) == view.jobs
    {
      copy := DeepCopy(jobs);
    }

    method GetJobThroughput(jobid: string) returns (throughput: Option<uint32>)
      requires Valid()
      ensures throughput == if jobid in view.jobs then Some(view.jobs[jobid].res.mbs) else None
    {
      if jobid !in jobs {
        return None;
      }
      return Some(jobs[jobid].minReadThroughputMB);
    }

    method GetJobStatus(jobid: string) returns (state: Option<JobState>)
      requires Valid()
      ensures state == if jobid in view.jobs then Some(view.jobs[jobid].state) else None
    {
      if jobid !in jobs {
        return None;
      }
      return Some(jobs[jobid].state);
    }

    method GetJobEnd(jobid: string) returns (tend: Option<int>)
      requires Valid()
      ensures tend == if jobid in view.jobs then Some(view.jobs[jobid].res.end) else None
    {
      if jobid !in jobs {
        return None;
      }
      return Some(jobs[jobid].tend);
    }

    method GetJobOstIds(jobid: string) returns (osts: Option<seq<string>>)
      requires Valid()
      ensures osts == if jobid in view.jobs then Some(view.jobs[jobid].res.osts) else None
    {
      if jobid !in jobs {
        return None;
      }
      return Some(jobs[jobid].osts);
    }
  }
}
