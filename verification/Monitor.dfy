// The job monitor as an object (src/common/JobMonitor.cpp). Each method is called with nobody else
// inside; what it does then is a function on the books it drives, and the interleaved machine,
// left alone, does the same.
module Monitor {
  import opened Jobs
  import opened ScheduleState
  import opened ScheduleStore
  import opened Rules
  import opened RuleStore
  import opened Engine
  import opened Stretches
  import EQ = EventQueue

  /** All that the monitor keeps or drives: schedule, events, rules. */
  datatype Books = Books(sched: Schedule, queue: seq<WaitingItem>, rules: RuleState)

  predicate InState(b: Books, id: string, state: JobState) {
    id in b.sched.jobs && b.sched.jobs[id].state == state
  }

  // ---------- what the methods do to the books ----------

  function Started(c: Config, b: Books, id: string, x: Oracle): (r: (Books, bool)) {
    if !InState(b, id, Scheduled) then (b, false)
    else
      var res := b.sched.jobs[id].res;
      var (rules, ok) := RulesSet(c.cleanupFixed, c.ipOf, b.rules, res.osts, id, res.mbs, x.ok, x.gone);
      if !ok then (b.(rules := rules), false)
      else (Books(JobUpdated(b.sched, id, Active),
                  EQ.Pushed(c.queueFixed, b.queue, WaitingItem(id, res.end, JobStop)), rules), true)
  }

  function Stopped(b: Books, id: string, gone: set<string>): (r: (Books, bool)) {
    if !InState(b, id, Active) then (b, false)
    else (b.(sched := JobUpdated(b.sched, id, Done), rules := RulesRemoved(b.rules, id, gone).0), true)
  }

  function Handled(c: Config, b: Books, id: string, event: JobEvent, x: Oracle): (r: Books) {
    if event == JobStart then Started(c, b, id, x).0
    else
      var stopped := Stopped(b, id, x.gone).0;
      stopped.(sched := JobRemoved(c.listErased, stopped.sched, id))
  }

  function Unregistered(c: Config, b: Books, id: string, gone: set<string>): (r: Books) {
    Stopped(b.(queue := EQ.Removed(c.queueFixed, b.queue, id)), id, gone).0
  }

  /** One turn of the drain loop: the clock value read by its guard, and what the OSSs answer. */
  datatype Turn = Turn(now: int, x: Oracle)

  function TurnTaken(c: Config, b: Books, turn: Turn): (r: Books)
    requires EQ.Ready(b.queue, turn.now)
  {
    Handled(c, b.(queue := EQ.Popped(c.queueFixed, b.queue)), b.queue[0].jobid, b.queue[0].event, turn.x)
  }

  /** A drain, turn by turn, as far as its guard allows. */
  function Drained(c: Config, b: Books, turns: seq<Turn>): (r: Option<Books>) {
    if turns == [] then Some(b)
    else
      match Drained(c, b, turns[..|turns| - 1])
      case None => None
      case Some(m) =>
        if EQ.Ready(m.queue, turns[|turns| - 1].now) then Some(TurnTaken(c, m, turns[|turns| - 1])) else None
  }

  /** All OSTs of `r` are known, and their OSSs accept. */
  predicate OwnOstsAccept(c: Config, r: Reservation, x: Oracle) {
    r.osts != [] && forall o :: o in r.osts ==> o in c.ipOf && c.ipOf[o] != "" && c.ipOf[o] in x.ok
  }

  /** The rules of `id` are remembered, and each OSS of the job holds the rate for its OSTs there. */
  ghost predicate HasRates(c: Config, b: Books, id: string) {
    && id in b.sched.jobs && id in b.rules.active
    && var res := b.sched.jobs[id].res;
       var ips := IpsOf(c.ipOf, res.osts);
       && ips.Some?
       && forall ip :: ip in ips.value ==> At(b.rules.remote, ip, RuleName(id)) == Some(Rate(res.mbs, ips.value, ip))
  }

  // ---------- what starting, stopping and a turn come to ----------

  /** StartJob says yes exactly for a SCHEDULED job that has no rules yet and whose OSTs are all known and
      accepted. Then the job is ACTIVE and its stop event queued at its end, once; else schedule, queue
      and remembered rules are as they were. */
  lemma StartOutcome(c: Config, b: Books, id: string, x: Oracle)
    ensures var (r, yes) := Started(c, b, id, x);
            && (yes <==> InState(b, id, Scheduled) && id !in b.rules.active
                         && OwnOstsAccept(c, b.sched.jobs[id].res, x))
            && (yes ==>
                  && r.sched == b.sched.(jobs := b.sched.jobs[id := Entry(b.sched.jobs[id].res, Active)])
                  && multiset(r.queue)
                     == multiset(b.queue) + multiset{WaitingItem(id, b.sched.jobs[id].res.end, JobStop)})
            && (!yes ==> r.sched == b.sched && r.queue == b.queue && r.rules.active == b.rules.active)
  {
    if InState(b, id, Scheduled) {
      var res := b.sched.jobs[id].res;
      SetRulesSucceedsIff(c.cleanupFixed, c.ipOf, b.rules, res.osts, id, res.mbs, x.ok, x.gone);
      EQ.PushConserves(c.queueFixed, b.queue, WaitingItem(id, res.end, JobStop));
      if !Started(c, b, id, x).1 {
        FailedSetRulesLeaves(c.cleanupFixed, c.ipOf, b.rules, res.osts, id, res.mbs, x.ok, x.gone, "", "");
      }
    }
  }

  lemma StartSetsRates(c: Config, b: Books, id: string, x: Oracle)
    requires Started(c, b, id, x).1
    ensures HasRates(c, Started(c, b, id, x).0, id)
  {
    var res := b.sched.jobs[id].res;
    forall ip {
      SetRulesInstalls(c.cleanupFixed, c.ipOf, b.rules, res.osts, id, res.mbs, x.ok, x.gone, ip);
    }
  }

  /** StopJob says yes exactly for an ACTIVE job. Then the job is DONE and its rules are forgotten, and gone
      where the removals take effect; else nothing changes. */
  lemma StopOutcome(b: Books, id: string, gone: set<string>, ip: string)
    ensures var (r, yes) := Stopped(b, id, gone);
            && (yes <==> InState(b, id, Active))
            && (!yes ==> r == b)
            && (yes ==>
                  && r.sched == b.sched.(jobs := b.sched.jobs[id := Entry(b.sched.jobs[id].res, Done)])
                  && r.queue == b.queue && id !in r.rules.active)
            && (yes && id in b.rules.active && ip in b.rules.active[id].ips && ip in gone ==>
                  At(r.rules.remote, ip, b.rules.active[id].name) == None)
  {
    if InState(b, id, Active) && id in b.rules.active {
      RemovedRulesAre(b.rules, id, gone, ip, b.rules.active[id].name);
    }
  }

  /** A due start of a SCHEDULED job whose rules are accepted: the job is ACTIVE, the OSSs hold its rates,
      and its stop is queued. */
  lemma TurnServesDueStart(c: Config, b: Books, turn: Turn, id: string)
    requires EQ.Ready(b.queue, turn.now) && b.queue[0].jobid == id && b.queue[0].event == JobStart
    requires InState(b, id, Scheduled) && id !in b.rules.active && OwnOstsAccept(c, b.sched.jobs[id].res, turn.x)
    ensures var r := TurnTaken(c, b, turn);
            && InState(r, id, Active) && r.sched.jobs[id].res == b.sched.jobs[id].res && HasRates(c, r, id)
            && WaitingItem(id, b.sched.jobs[id].res.end, JobStop) in r.queue
  {
    var popped := b.(queue := EQ.Popped(c.queueFixed, b.queue));
    var stop := WaitingItem(id, b.sched.jobs[id].res.end, JobStop);
    StartOutcome(c, popped, id, turn.x);
    StartSetsRates(c, popped, id, turn.x);
    EQ.PushedMembers(c.queueFixed, popped.queue, stop);
  }

  /** A due stop: the job is off the schedule, no other job has changed, and if it was ACTIVE its rules are
      forgotten. */
  lemma TurnFinishesDueStop(c: Config, b: Books, turn: Turn, id: string)
    requires EQ.Ready(b.queue, turn.now) && b.queue[0].jobid == id && b.queue[0].event == JobStop
    ensures var r := TurnTaken(c, b, turn);
            && r.sched.jobs == b.sched.jobs - {id} && multiset(r.queue) == multiset(b.queue) - multiset{b.queue[0]}
            && (InState(b, id, Active) ==> id !in r.rules.active)
            && (!InState(b, id, Active) ==> r.rules == b.rules)
  {
    var popped := b.(queue := EQ.Popped(c.queueFixed, b.queue));
    EQ.PopConserves(c.queueFixed, b.queue);
    StopOutcome(popped, id, turn.x.gone, "");
  }

  // ---------- what the books keep over a drain ----------

  predicate HasStop(b: Books, id: string)
    requires id in b.sched.jobs
  {
    id in b.rules.active && WaitingItem(id, b.sched.jobs[id].res.end, JobStop) in b.queue
  }

  /** Every ACTIVE job has its rules remembered and its stop event queued. */
  ghost predicate AllSettled(b: Books) {
    forall id :: InState(b, id, Active) ==> HasStop(b, id)
  }

  ghost predicate SettledBut(b: Books, other: string) {
    forall id :: id != other && InState(b, id, Active) ==> HasStop(b, id)
  }

  lemma StartKeepsSettled(c: Config, b: Books, id: string, x: Oracle)
    requires AllSettled(b)
    ensures AllSettled(Started(c, b, id, x).0)
  {
    var r := Started(c, b, id, x).0;
    if InState(b, id, Scheduled) {
      var res := b.sched.jobs[id].res;
      SetRulesSucceedsIff(c.cleanupFixed, c.ipOf, b.rules, res.osts, id, res.mbs, x.ok, x.gone);
    }
    assert b.rules.active.Keys <= r.rules.active.Keys;
    if Started(c, b, id, x).1 {
      EQ.PushedMembers(c.queueFixed, b.queue, WaitingItem(id, b.sched.jobs[id].res.end, JobStop));
    }
    forall k | InState(r, k, Active) ensures HasStop(r, k) {
      assert InState(b, k, Active) ==> HasStop(b, k);
    }
  }

  lemma StopKeepsSettled(b: Books, id: string, gone: set<string>)
    requires SettledBut(b, id)
    ensures SettledBut(Stopped(b, id, gone).0, id) && !InState(Stopped(b, id, gone).0, id, Active)
  {
    var r := Stopped(b, id, gone).0;
    forall k | k != id && InState(r, k, Active) ensures HasStop(r, k) {
      assert InState(b, k, Active) && HasStop(b, k);
    }
  }

  lemma TurnKeepsSettled(c: Config, b: Books, turn: Turn)
    requires AllSettled(b) && EQ.Ready(b.queue, turn.now)
    ensures AllSettled(TurnTaken(c, b, turn))
  {
    EQ.PoppedMembers(c.queueFixed, b.queue);
    var item, popped := b.queue[0], b.(queue := EQ.Popped(c.queueFixed, b.queue));
    forall id | InState(popped, id, Active) && WaitingItem(id, b.sched.jobs[id].res.end, JobStop) != item
      ensures HasStop(popped, id)
    {
      assert InState(b, id, Active) && HasStop(b, id);
    }
    if item.event == JobStart {
      StartKeepsSettled(c, popped, item.jobid, turn.x);
    } else {
      StopKeepsSettled(popped, item.jobid, turn.x.gone);
      var stopped, r := Stopped(popped, item.jobid, turn.x.gone).0, TurnTaken(c, b, turn);
      forall id | InState(r, id, Active) ensures HasStop(r, id) {
        assert InState(stopped, id, Active) && id != item.jobid;
      }
    }
  }

  /** 2 for every queued start, 1 for every queued stop. */
  function Pending(b: Books): (n: nat) {
    EQ.SumOver(b.queue, EQ.Weighing(2, 1))
  }

  lemma PendingPopped(fixed: bool, q: seq<WaitingItem>)
    requires q != []
    ensures EQ.SumOver(q, EQ.Weighing(2, 1))
         == EQ.SumOver(EQ.Popped(fixed, q), EQ.Weighing(2, 1)) + if q[0].event == JobStart then 2 else 1
  {
    EQ.SumPopped(fixed, q, EQ.Weighing(2, 1));
  }

  lemma PendingPushed(fixed: bool, q: seq<WaitingItem>, id: string, t: int)
    ensures EQ.SumOver(EQ.Pushed(fixed, q, WaitingItem(id, t, JobStop)), EQ.Weighing(2, 1))
         == EQ.SumOver(q, EQ.Weighing(2, 1)) + 1
  {
    EQ.SumPushed(fixed, q, WaitingItem(id, t, JobStop), EQ.Weighing(2, 1));
  }

  /** Handling a start queues at most one stop, handling a stop queues nothing. */
  lemma TurnLowersPending(c: Config, b: Books, turn: Turn)
    requires EQ.Ready(b.queue, turn.now)
    ensures Pending(TurnTaken(c, b, turn)) < Pending(b)
  {
    PendingPopped(c.queueFixed, b.queue);
    var item, popped := b.queue[0], b.(queue := EQ.Popped(c.queueFixed, b.queue));
    if item.event == JobStart && Started(c, popped, item.jobid, turn.x).1 {
      PendingPushed(c.queueFixed, popped.queue, item.jobid, b.sched.jobs[item.jobid].res.end);
    }
  }

  lemma TurnKeepsHeap(c: Config, b: Books, turn: Turn)
    requires c.queueFixed && EQ.MinHeap(b.queue) && EQ.Ready(b.queue, turn.now)
    ensures EQ.MinHeap(TurnTaken(c, b, turn).queue)
  {
    EQ.PopKeepsHeap(b.queue);
    var item, popped := b.queue[0], b.(queue := EQ.Popped(c.queueFixed, b.queue));
    if item.event == JobStart && Started(c, popped, item.jobid, turn.x).1 {
      EQ.PushKeepsHeap(popped.queue, WaitingItem(item.jobid, b.sched.jobs[item.jobid].res.end, JobStop));
    }
  }

  lemma {:induction false} DrainKeepsHeap(c: Config, b: Books, turns: seq<Turn>)
    requires c.queueFixed && EQ.MinHeap(b.queue) && Drained(c, b, turns).Some?
    ensures EQ.MinHeap(Drained(c, b, turns).value.queue)
    decreases |turns|
  {
    if turns != [] {
      var front := turns[..|turns| - 1];
      DrainKeepsHeap(c, b, front);
      TurnKeepsHeap(c, Drained(c, b, front).value, turns[|turns| - 1]);
    }
  }

  /** A drain takes at most as many turns as twice the queued starts plus the queued stops, and loses
      no ACTIVE job's stop event or rules. */
  lemma {:induction false} DrainKeepsBooks(c: Config, b: Books, turns: seq<Turn>)
    requires Drained(c, b, turns).Some?
    ensures |turns| + Pending(Drained(c, b, turns).value) <= Pending(b)
    ensures AllSettled(b) ==> AllSettled(Drained(c, b, turns).value)
    decreases |turns|
  {
    if turns != [] {
      var front, last := turns[..|turns| - 1], turns[|turns| - 1];
      DrainKeepsBooks(c, b, front);
      var m := Drained(c, b, front).value;
      TurnLowersPending(c, m, last);
      if AllSettled(m) {
        TurnKeepsSettled(c, m, last);
      }
    }
  }

  /** When a drain ends at `now` with the queue put right, nothing queued is earlier, and every
      ACTIVE job has its rules remembered and has not passed its end. */
  lemma DrainLeavesNothingDue(c: Config, b: Books, turns: seq<Turn>, now: int)
    requires c.queueFixed && EQ.MinHeap(b.queue) && AllSettled(b)
    requires Drained(c, b, turns).Some? && !EQ.Ready(Drained(c, b, turns).value.queue, now)
    ensures var r := Drained(c, b, turns).value;
            && (forall item :: item in r.queue ==> now <= item.time)
            && (forall id :: InState(r, id, Active) ==> id in r.rules.active && now <= r.sched.jobs[id].res.end)
  {
    DrainKeepsBooks(c, b, turns);
    DrainKeepsHeap(c, b, turns);
    var r := Drained(c, b, turns).value;
    EQ.ReadyIffSomethingDue(r.queue, now);
    forall id | InState(r, id, Active) ensures id in r.rules.active && now <= r.sched.jobs[id].res.end {
      assert HasStop(r, id);
    }
  }

  // ---------- a drain serves what is due ----------

  ghost predicate Named(rules: RuleState) {
    forall k :: k in rules.active ==> rules.active[k].name == RuleName(k)
  }

  /** While SCHEDULED, `id` has its start queued and no rules; while ACTIVE, its stop queued and its rates in
      place. */
  ghost predicate OnTrack(c: Config, b: Books, id: string) {
    && Named(b.rules)
    && (id in b.rules.active ==> InState(b, id, Active))
    && (InState(b, id, Scheduled) ==> WaitingItem(id, b.sched.jobs[id].res.start, JobStart) in b.queue)
    && (InState(b, id, Active) ==>
          HasRates(c, b, id) && WaitingItem(id, b.sched.jobs[id].res.end, JobStop) in b.queue)
  }

  /** If this turn is to start `id`, the OSSs of its OSTs accept. */
  predicate AcceptedTurn(c: Config, b: Books, turn: Turn, id: string) {
    b.queue != [] && b.queue[0].jobid == id && b.queue[0].event == JobStart && InState(b, id, Scheduled) ==>
      OwnOstsAccept(c, b.sched.jobs[id].res, turn.x)
  }

  ghost predicate AcceptedDrain(c: Config, b: Books, turns: seq<Turn>, id: string) {
    forall i :: 0 <= i < |turns| && Drained(c, b, turns[..i]).Some? ==>
      AcceptedTurn(c, Drained(c, b, turns[..i]).value, turns[i], id)
  }

  lemma StartedKeepsNamed(c: Config, b: Books, id: string, x: Oracle)
    requires Named(b.rules)
    ensures Named(Started(c, b, id, x).0.rules)
  {
  }

  lemma TurnKeepsNamed(c: Config, b: Books, turn: Turn)
    requires Named(b.rules) && EQ.Ready(b.queue, turn.now)
    ensures Named(TurnTaken(c, b, turn).rules)
  {
    StartedKeepsNamed(c, b.(queue := EQ.Popped(c.queueFixed, b.queue)), b.queue[0].jobid, turn.x);
  }

  /** `id` looks the same in both books. */
  ghost predicate SameJob(b: Books, r: Books, id: string) {
    && (id in r.sched.jobs <==> id in b.sched.jobs)
    && (id in b.sched.jobs ==> r.sched.jobs[id] == b.sched.jobs[id])
    && (id in r.rules.active <==> id in b.rules.active)
    && (forall ip :: At(r.rules.remote, ip, RuleName(id)) == At(b.rules.remote, ip, RuleName(id)))
  }

  lemma StartedLeavesOthers(c: Config, b: Books, k: string, x: Oracle, id: string)
    requires Named(b.rules) && k != id
    ensures SameJob(b, Started(c, b, k, x).0, id)
  {
    var r := Started(c, b, k, x).0;
    if InState(b, k, Scheduled) {
      var res := b.sched.jobs[k].res;
      forall ip ensures At(r.rules.remote, ip, RuleName(id)) == At(b.rules.remote, ip, RuleName(id)) {
        OtherJobsUntouched(c.cleanupFixed, c.ipOf, b.rules, res.osts, k, res.mbs, x.ok, x.gone, id, ip);
      }
    }
  }

  lemma StoppedLeavesOthers(c: Config, b: Books, k: string, gone: set<string>, id: string)
    requires Named(b.rules) && k != id
    ensures SameJob(b, Stopped(b, k, gone).0, id)
  {
    var r := Stopped(b, k, gone).0;
    forall ip ensures At(r.rules.remote, ip, RuleName(id)) == At(b.rules.remote, ip, RuleName(id)) {
      OtherJobsUntouched(c.cleanupFixed, c.ipOf, b.rules, [], k, 0, {}, gone, id, ip);
    }
  }

  /** Handling another job's event leaves the state, the rules and the rates of `id` as they were. */
  lemma HandledLeavesOthers(c: Config, b: Books, k: string, event: JobEvent, x: Oracle, id: string)
    requires Named(b.rules) && k != id
    ensures SameJob(b, Handled(c, b, k, event, x), id)
  {
    if event == JobStart {
      StartedLeavesOthers(c, b, k, x, id);
    } else {
      StoppedLeavesOthers(c, b, k, x.gone, id);
    }
  }

  lemma HandledKeepsQueued(c: Config, b: Books, k: string, event: JobEvent, x: Oracle, item: WaitingItem)
    requires item in b.queue
    ensures item in Handled(c, b, k, event, x).queue
  {
    if event == JobStart && Started(c, b, k, x).1 {
      EQ.PushedMembers(c.queueFixed, b.queue, WaitingItem(k, b.sched.jobs[k].res.end, JobStop));
    }
  }

  lemma OtherTurnKeepsTrack(c: Config, b: Books, turn: Turn, id: string)
    requires EQ.Ready(b.queue, turn.now) && OnTrack(c, b, id) && b.queue[0].jobid != id
    ensures OnTrack(c, TurnTaken(c, b, turn), id)
  {
    var popped := b.(queue := EQ.Popped(c.queueFixed, b.queue));
    var k, event := b.queue[0].jobid, b.queue[0].event;
    EQ.PoppedMembers(c.queueFixed, b.queue);
    TurnKeepsNamed(c, b, turn);
    HandledLeavesOthers(c, popped, k, event, turn.x, id);
    if InState(b, id, Scheduled) {
      HandledKeepsQueued(c, popped, k, event, turn.x, WaitingItem(id, b.sched.jobs[id].res.start, JobStart));
    } else if InState(b, id, Active) {
      HandledKeepsQueued(c, popped, k, event, turn.x, WaitingItem(id, b.sched.jobs[id].res.end, JobStop));
    }
  }

  lemma OwnTurnKeepsTrack(c: Config, b: Books, turn: Turn, id: string)
    requires EQ.Ready(b.queue, turn.now) && OnTrack(c, b, id) && b.queue[0].jobid == id
    requires AcceptedTurn(c, b, turn, id)
    ensures OnTrack(c, TurnTaken(c, b, turn), id)
  {
    EQ.PoppedMembers(c.queueFixed, b.queue);
    TurnKeepsNamed(c, b, turn);
    if b.queue[0].event == JobStop {
      TurnFinishesDueStop(c, b, turn, id);
    } else if InState(b, id, Scheduled) {
      TurnServesDueStart(c, b, turn, id);
    }
  }

  lemma {:induction false} DrainKeepsTrack(c: Config, b: Books, turns: seq<Turn>, id: string)
    requires Drained(c, b, turns).Some? && OnTrack(c, b, id) && AcceptedDrain(c, b, turns, id)
    ensures OnTrack(c, Drained(c, b, turns).value, id)
    decreases |turns|
  {
    if turns != [] {
      var front, last := turns[..|turns| - 1], turns[|turns| - 1];
      forall i | 0 <= i < |front| ensures front[..i] == turns[..i] {
      }
      DrainKeepsTrack(c, b, front, id);
      var m := Drained(c, b, front).value;
      if m.queue[0].jobid == id {
        OwnTurnKeepsTrack(c, m, last, id);
      } else {
        OtherTurnKeepsTrack(c, m, last, id);
      }
    }
  }

  /** When a drain ends at `now` with the queue put right: a job that was on track, and whose OSSs accepted
      when it was started, is not waiting for a start that is due; and if it is ACTIVE it is within its
      time and its rates are in place. */
  lemma DrainServesWhatIsDue(c: Config, b: Books, turns: seq<Turn>, now: int, id: string)
    requires c.queueFixed && EQ.MinHeap(b.queue) && OnTrack(c, b, id) && AcceptedDrain(c, b, turns, id)
    requires Drained(c, b, turns).Some? && !EQ.Ready(Drained(c, b, turns).value.queue, now)
    ensures var r := Drained(c, b, turns).value;
            && (InState(r, id, Scheduled) ==> now <= r.sched.jobs[id].res.start)
            && (InState(r, id, Active) ==> HasRates(c, r, id) && now <= r.sched.jobs[id].res.end)
  {
    DrainKeepsTrack(c, b, turns, id);
    DrainKeepsHeap(c, b, turns);
    EQ.ReadyIffSomethingDue(Drained(c, b, turns).value.queue, now);
  }

  // ---------- the events a stored job asks for ----------

  /** Every job is stored under its own id. */
  ghost predicate Keyed(jobs: map<string, Entry>) {
    forall id :: id in jobs ==> jobs[id].res.jobid == id
  }

  predicate WantsEvent(e: Entry) {
    e.state.Scheduled? || e.state.Active?
  }

  function EventFor(e: Entry): (item: WaitingItem) {
    if e.state.Scheduled? then WaitingItem(e.res.jobid, e.res.start, JobStart)
    else WaitingItem(e.res.jobid, e.res.end, JobStop)
  }

  /** `item` is the event of one of the jobs in `ids`: the start of a SCHEDULED job, the stop of an
      ACTIVE one. */
  predicate IsEventOf(item: WaitingItem, jobs: map<string, Entry>, ids: set<string>) {
    item.jobid in ids && item.jobid in jobs && WantsEvent(jobs[item.jobid]) && item == EventFor(jobs[item.jobid])
  }

  /** `after` is `before` with each of those events once more. */
  ghost predicate EventsAdded(before: multiset<WaitingItem>, after: multiset<WaitingItem>, jobs: map<string, Entry>,
                              ids: set<string>)
  {
    forall item :: after[item] == before[item] + if IsEventOf(item, jobs, ids) then 1 else 0
  }

  lemma EventsAddedOneMore(before: multiset<WaitingItem>, after: multiset<WaitingItem>, jobs: map<string, Entry>,
                           ids: set<string>, id: string)
    requires Keyed(jobs) && id in jobs && id !in ids && EventsAdded(before, after, jobs, ids)
    ensures EventsAdded(before, after + (if WantsEvent(jobs[id]) then multiset{EventFor(jobs[id])} else multiset{}),
                        jobs, ids + {id})
  {
  }

  /** What a fill of an empty queue holds: for each SCHEDULED job its start, at the start of its interval, for
      each ACTIVE job its stop, at the end, each once, and nothing for any other job. */
  lemma RestoredEvents(after: multiset<WaitingItem>, jobs: map<string, Entry>)
    requires Keyed(jobs) && EventsAdded(multiset{}, after, jobs, jobs.Keys)
    ensures forall id :: id in jobs && jobs[id].state.Scheduled? ==>
              after[WaitingItem(id, jobs[id].res.start, JobStart)] == 1
    ensures forall id :: id in jobs && jobs[id].state.Active? ==> after[WaitingItem(id, jobs[id].res.end, JobStop)] == 1
    ensures forall item :: item in after ==>
              && item.jobid in jobs
              && var e := jobs[item.jobid];
                 || (e.state.Scheduled? && item == WaitingItem(item.jobid, e.res.start, JobStart))
                 || (e.state.Active? && item == WaitingItem(item.jobid, e.res.end, JobStop))
  {
    forall item | item in after ensures IsEventOf(item, jobs, jobs.Keys) {
      assert after[item] > 0;
    }
    forall id | id in jobs && WantsEvent(jobs[id]) ensures after[EventFor(jobs[id])] == 1 {
      assert IsEventOf(EventFor(jobs[id]), jobs, jobs.Keys);
    }
  }

  /** So after Init every SCHEDULED job awaits its start, and every ACTIVE job whose rules are remembered
      awaits its stop: the drains begin with what they rely on. */
  lemma RestoredBooksAreSettled(b: Books)
    requires Keyed(b.sched.jobs) && EventsAdded(multiset{}, multiset(b.queue), b.sched.jobs, b.sched.jobs.Keys)
    requires forall id :: InState(b, id, Active) ==> id in b.rules.active
    ensures AllSettled(b)
    ensures forall id :: InState(b, id, Scheduled) ==> WaitingItem(id, b.sched.jobs[id].res.start, JobStart) in b.queue
  {
    RestoredEvents(multiset(b.queue), b.sched.jobs);
    forall item ensures item in b.queue <==> item in multiset(b.queue) {
    }
    forall id | InState(b, id, Active) ensures HasStop(b, id) {
      assert WaitingItem(id, b.sched.jobs[id].res.end, JobStop) in multiset(b.queue);
    }
    forall id | InState(b, id, Scheduled) ensures WaitingItem(id, b.sched.jobs[id].res.start, JobStart) in b.queue {
      assert WaitingItem(id, b.sched.jobs[id].res.start, JobStart) in multiset(b.queue);
    }
  }

  // ---------- the same, step by step ----------

  function BooksOf(s: State): (b: Books) {
    Books(s.sched, s.queue, s.rules)
  }

  lemma StartRefused(c: Config, s: State, id: string, t: int, x: Oracle) returns (steps: seq<Step>)
    requires s.mon == MPopped(WaitingItem(id, t, JobStart)) && id !in s.inFlight && !HasState(s, id, Scheduled)
    ensures MonOnly(steps, x) && Run(c, s, steps) == Some(s.(mon := MDrain))
  {
    var held := s.(inFlight := s.inFlight + {id});
    steps := MonTurn(c, s, [], s, x);
    steps := MonTurn(c, s, steps, held.(mon := MStartCheck(id)), x);
    steps := MonTurn(c, s, steps, held.(mon := MRelease(id)), x);
    assert s.inFlight + {id} - {id} == s.inFlight;
  }

  lemma StartFails(c: Config, s: State, id: string, t: int, x: Oracle) returns (steps: seq<Step>)
    requires s.mon == MPopped(WaitingItem(id, t, JobStart)) && id !in s.inFlight && HasState(s, id, Scheduled)
    requires !Started(c, BooksOf(s), id, x).1
    ensures MonOnly(steps, x)
    ensures Run(c, s, steps) == Some(s.(rules := Started(c, BooksOf(s), id, x).0.rules, mon := MDrain))
  {
    var res := s.sched.jobs[id].res;
    var held := s.(inFlight := s.inFlight + {id});
    steps := StartLooksUp(c, s, id, t, x);
    steps := MonTurn(c, s, steps, held.(mon := MStartRules(id, res.mbs, res.osts)), x);
    var failed := held.(rules := Started(c, BooksOf(s), id, x).0.rules, mon := MRelease(id));
    assert Run(c, s, steps).value == failed;
    steps := MonTurn(c, s, steps, failed, x);
    assert s.inFlight + {id} - {id} == s.inFlight;
  }

  lemma StopRefused(c: Config, s: State, id: string, t: int, x: Oracle) returns (steps: seq<Step>)
    requires s.mon == MPopped(WaitingItem(id, t, JobStop)) && id !in s.inFlight && !HasState(s, id, Active)
    ensures MonOnly(steps, x)
    ensures Run(c, s, steps) == Some(s.(sched := JobRemoved(c.listErased, s.sched, id), mon := MDrain))
  {
    var held := s.(inFlight := s.inFlight + {id});
    var removed := JobRemoved(c.listErased, s.sched, id);
    steps := MonTurn(c, s, [], s, x);
    steps := MonTurn(c, s, steps, held.(mon := MStopCheck(id)), x);
    steps := MonTurn(c, s, steps, held.(mon := MStopRemove(id)), x);
    steps := MonTurn(c, s, steps, held.(sched := removed, mon := MRelease(id)), x);
    assert s.inFlight + {id} - {id} == s.inFlight;
  }

  lemma RemovedAfterDone(erases: bool, s: Schedule, id: string)
    requires id in s.jobs
    ensures JobRemoved(erases, JobUpdated(s, id, Done), id) == JobRemoved(erases, s, id)
  {
    assert JobUpdated(s, id, Done).jobs - {id} == s.jobs - {id};
  }

  lemma StopAlone(c: Config, s: State, id: string, t: int, x: Oracle) returns (steps: seq<Step>)
    requires s.mon == MPopped(WaitingItem(id, t, JobStop)) && id !in s.inFlight
    ensures MonOnly(steps, x)
    ensures var b := Handled(c, BooksOf(s), s.mon.item.jobid, s.mon.item.event, x);
            Run(c, s, steps) == Some(s.(sched := b.sched, queue := b.queue, rules := b.rules, mon := MDrain))
  {
    if HasState(s, id, Active) {
      RemovedAfterDone(c.listErased, s.sched, id);
      steps := DueStopIsHandled(c, s, id, t, x);
    } else {
      steps := StopRefused(c, s, id, t, x);
    }
  }

  /** Left alone after a pop, the stepping monitor does exactly what Handle does, and is back at the
      drain guard with the id unblocked. */
  lemma HandleStepByStep(c: Config, s: State, x: Oracle) returns (steps: seq<Step>)
    requires s.mon.MPopped? && s.mon.item.jobid !in s.inFlight
    ensures MonOnly(steps, x)
    ensures var b := Handled(c, BooksOf(s), s.mon.item.jobid, s.mon.item.event, x);
            Run(c, s, steps) == Some(s.(sched := b.sched, queue := b.queue, rules := b.rules, mon := MDrain))
  {
    var item := s.mon.item;
    if item.event == JobStop {
      steps := StopAlone(c, s, item.jobid, item.time, x);
    } else if !HasState(s, item.jobid, Scheduled) {
      steps := StartRefused(c, s, item.jobid, item.time, x);
    } else if Started(c, BooksOf(s), item.jobid, x).1 {
      steps := DueReservationIsServed(c, s, item.jobid, item.time, x);
    } else {
      steps := StartFails(c, s, item.jobid, item.time, x);
    }
  }

  /** One turn of the drain loop, when the event at the front is due and nobody holds its id: pop and
      handle, and back to the guard. */
  lemma TurnStepByStep(c: Config, s: State, x: Oracle) returns (steps: seq<Step>)
    requires s.mon.MDrain? && EQ.Ready(s.queue, s.clock) && s.queue[0].jobid !in s.inFlight
    ensures MonOnly(steps, x)
    ensures var b := TurnTaken(c, BooksOf(s), Turn(s.clock, x));
            Run(c, s, steps) == Some(s.(sched := b.sched, queue := b.queue, rules := b.rules))
  {
    OneStep(c, s, Mon(x));
    var popped := s.(queue := EQ.Popped(c.queueFixed, s.queue), mon := MPopped(s.queue[0]));
    var rest := HandleStepByStep(c, popped, x);
    RunAppend(c, s, [Mon(x)], rest);
    steps := [Mon(x)] + rest;
  }

  /** The guard's clock readings, in order, none earlier than `clock`. */
  predicate ReadInOrder(turns: seq<Turn>, clock: int) {
    && (forall i :: 0 <= i < |turns| ==> clock <= turns[i].now)
    && forall i, j :: 0 <= i < j < |turns| ==> turns[i].now <= turns[j].now
  }

  /** No event of the drain is for an id in `held`. */
  ghost predicate Unheld(c: Config, b: Books, turns: seq<Turn>, held: set<string>) {
    forall i :: 0 <= i < |turns| && Drained(c, b, turns[..i]).Some? ==>
      var q := Drained(c, b, turns[..i]).value.queue;
      q != [] && q[0].jobid !in held
  }

  function LastRead(turns: seq<Turn>, clock: int): (now: int) {
    if turns == [] then clock else turns[|turns| - 1].now
  }

  lemma FrontOfDrain(c: Config, b: Books, turns: seq<Turn>, clock: int, held: set<string>)
    requires turns != [] && ReadInOrder(turns, clock) && Unheld(c, b, turns, held) && Drained(c, b, turns).Some?
    ensures var front := turns[..|turns| - 1];
            && ReadInOrder(front, clock) && Unheld(c, b, front, held) && Drained(c, b, front).Some?
            && Drained(c, b, front).value.queue[0].jobid !in held
            && LastRead(front, clock) <= LastRead(turns, clock)
  {
    var front := turns[..|turns| - 1];
    forall i | 0 <= i < |front| ensures front[..i] == turns[..i] {
    }
  }

  /** A whole drain, the clock moving on between its turns: the stepping monitor does exactly what the drain
      loop does to the books, and is back at its guard. */
  lemma {:induction false} DrainStepByStep(c: Config, s: State, turns: seq<Turn>) returns (steps: seq<Step>)
    requires s.mon.MDrain? && ReadInOrder(turns, s.clock)
    requires Drained(c, BooksOf(s), turns).Some? && Unheld(c, BooksOf(s), turns, s.inFlight)
    ensures var b := Drained(c, BooksOf(s), turns).value;
            Run(c, s, steps)
            == Some(s.(clock := LastRead(turns, s.clock), sched := b.sched, queue := b.queue, rules := b.rules))
    ensures forall st :: st in steps ==> st.Tick? || st.Mon?
    decreases |turns|
  {
    steps := [];
    if turns != [] {
      var front, last := turns[..|turns| - 1], turns[|turns| - 1];
      FrontOfDrain(c, BooksOf(s), turns, s.clock, s.inFlight);
      steps := DrainStepByStep(c, s, front);
      var b := Drained(c, BooksOf(s), front).value;
      Then(c, s, steps, Tick(last.now));
      steps := steps + [Tick(last.now)];
      var m := s.(clock := last.now, sched := b.sched, queue := b.queue, rules := b.rules);
      var turn := TurnStepByStep(c, m, last.x);
      RunAppend(c, s, steps, turn);
      steps := steps + turn;
    }
  }

  /** The job object holds what the entry says. */
  ghost predicate Copies(job: Job, e: Entry)
    reads job
  {
    job.Res() == e.res && job.state == e.state
  }

  // ---------- the monitor object ----------

  /** The first `n` turns of a drain: at its i-th guard the loop reads `clock(i)`, and what the OSSs answer is
      that of the rounds after `round`. */
  function TurnsOf(n: nat, clock: nat -> int, installs: nat -> set<string>, removals: nat -> set<string>, round: nat)
    : (turns: seq<Turn>)
    ensures |turns| == n
    ensures forall i :: 0 <= i < n ==>
              turns[i] == Turn(clock(i), Oracle(installs(round + 1 + i), removals(round + 1 + i), 0))
  {
    seq(n, i requires 0 <= i => Turn(clock(i), Oracle(installs(round + 1 + i), removals(round + 1 + i), 0)))
  }

  /** So far as this: `b` are the books after `n` turns, none of them for an id in `held`. */
  ghost predicate DrainedSoFar(c: Config, start: Books, n: nat, clock: nat -> int, installs: nat -> set<string>,
                               removals: nat -> set<string>, round: nat, held: set<string>, b: Books)
  {
    var turns := TurnsOf(n, clock, installs, removals, round);
    Drained(c, start, turns) == Some(b) && Unheld(c, start, turns, held)
  }

  /** The loop has stopped after `turns`, its guard having read `now`: nothing at the front is due, or what was
      has been popped and is for an id in `held`. */
  ghost predicate DrainStopped(c: Config, start: Books, turns: seq<Turn>, now: int, held: set<string>,
                               waitsFor: Option<WaitingItem>, after: Books)
  {
    && Unheld(c, start, turns, held) && Drained(c, start, turns).Some?
    && var b := Drained(c, start, turns).value;
       if waitsFor.None? then after == b && !EQ.Ready(b.queue, now)
       else EQ.Ready(b.queue, now) && waitsFor == Some(b.queue[0]) && b.queue[0].jobid in held
            && after == b.(queue := EQ.Popped(c.queueFixed, b.queue))
  }

  lemma OneMoreTurn(c: Config, b: Books, turns: seq<Turn>, turn: Turn, held: set<string>)
    requires Drained(c, b, turns).Some? && EQ.Ready(Drained(c, b, turns).value.queue, turn.now)
    requires Unheld(c, b, turns, held) && Drained(c, b, turns).value.queue[0].jobid !in held
    ensures Drained(c, b, turns + [turn]) == Some(TurnTaken(c, Drained(c, b, turns).value, turn))
    ensures Unheld(c, b, turns + [turn], held)
  {
    var longer := turns + [turn];
    assert longer[..|turns|] == turns;
    forall i | 0 <= i < |longer| && Drained(c, b, longer[..i]).Some?
      ensures var q := Drained(c, b, longer[..i]).value.queue; q != [] && q[0].jobid !in held
    {
      assert i < |turns| ==> longer[..i] == turns[..i];
    }
  }

  lemma NextTurn(c: Config, start: Books, n: nat, clock: nat -> int, installs: nat -> set<string>,
                 removals: nat -> set<string>, round: nat, held: set<string>, b: Books, turn: Turn)
    requires DrainedSoFar(c, start, n, clock, installs, removals, round, held, b)
    requires turn == Turn(clock(n), Oracle(installs(round + 1 + n), removals(round + 1 + n), 0))
    requires EQ.Ready(b.queue, turn.now) && b.queue[0].jobid !in held
    ensures DrainedSoFar(c, start, n + 1, clock, installs, removals, round, held, TurnTaken(c, b, turn))
  {
    var turns := TurnsOf(n, clock, installs, removals, round);
    assert TurnsOf(n + 1, clock, installs, removals, round) == turns + [turn];
    OneMoreTurn(c, start, turns, turn, held);
  }

  class JobMonitor {
    const config: Config
    const scheduleState: MemoryScheduleState
    const ruleManager: RuleManager
    const jobPriorityQueue: EQ.JobPriorityQueue
    var inFlightJobs: set<string>

    ghost predicate Valid()
      reads scheduleState, scheduleState.jobs.Values
    {
      && scheduleState.Valid()
      && scheduleState.erases == config.listErased
      && ruleManager.cleansInstalled == config.cleanupFixed && ruleManager.ipOf == config.ipOf
      && jobPriorityQueue.fixed == config.queueFixed
    }

    ghost function View(): (b: Books)
      reads scheduleState, jobPriorityQueue, ruleManager, ruleManager.ruleSetter
    {
      Books(scheduleState.view, jobPriorityQueue.heap,
            RuleState(ruleManager.activeRules, ruleManager.ruleSetter.remote))
    }

    /** What the OSSs answer now. */
    ghost function Outside(): (x: Oracle)
      reads ruleManager.ruleSetter
    {
      Oracle(ruleManager.ruleSetter.Accepts(), ruleManager.ruleSetter.Removes(), 0)
    }

    constructor (config: Config, scheduleState: MemoryScheduleState, ruleManager: RuleManager)
      requires scheduleState.Valid() && scheduleState.erases == config.listErased
      requires ruleManager.cleansInstalled == config.cleanupFixed && ruleManager.ipOf == config.ipOf
      ensures Valid() && this.config == config && this.scheduleState == scheduleState && this.ruleManager == ruleManager
      ensures fresh(jobPriorityQueue) && jobPriorityQueue.heap == [] && inFlightJobs == {}
    {
      this.config, this.scheduleState, this.ruleManager := config, scheduleState, ruleManager;
      jobPriorityQueue := new EQ.JobPriorityQueue(config.queueFixed);
      inFlightJobs := {};
    }

    method RegisterJob(job: Job) returns (ok: bool)
      requires Valid()
      modifies jobPriorityQueue
      ensures Valid() && ok
      ensures View() == old(View()).(queue := EQ.Pushed(config.queueFixed, old(View()).queue,
                                                        WaitingItem(job.jobid, job.tstart, JobStart)))
    {
      jobPriorityQueue.Push(WaitingItem(job.jobid, job.tstart, JobStart));
      return true;
    }

    /** The body of the loop in FillWithExistingJobs. */
    method QueueEventOf(job: Job, ghost e: Entry)
      requires Copies(job, e)
      modifies jobPriorityQueue
      ensures multiset(jobPriorityQueue.heap)
           == multiset(old(jobPriorityQueue.heap)) + if WantsEvent(e) then multiset{EventFor(e)} else multiset{}
      ensures jobPriorityQueue.fixed && old(EQ.MinHeap(jobPriorityQueue.heap)) ==> EQ.MinHeap(jobPriorityQueue.heap)
    {
      match job.state {
        case Scheduled => jobPriorityQueue.Push(WaitingItem(job.jobid, job.tstart, JobStart));
        case Active => jobPriorityQueue.Push(WaitingItem(job.jobid, job.tend, JobStop));
        case Initialized =>
        case Done =>
      }
    }

    /** The loop in FillWithExistingJobs, over copies of the jobs. */
    method QueueEventsOf(existingJobs: map<string, Job>, ghost jobs: map<string, Entry>)
      requires existingJobs.Keys == jobs.Keys && Keyed(jobs)
      requires forall id :: id in existingJobs ==> Copies(existingJobs[id], jobs[id])
      modifies jobPriorityQueue
      ensures EventsAdded(multiset(old(jobPriorityQueue.heap)), multiset(jobPriorityQueue.heap), jobs, jobs.Keys)
      ensures jobPriorityQueue.fixed && old(EQ.MinHeap(jobPriorityQueue.heap)) ==> EQ.MinHeap(jobPriorityQueue.heap)
    {
      ghost var before := multiset(jobPriorityQueue.heap);
      var todo := existingJobs.Keys;
      while todo != {}
        invariant todo <= jobs.Keys
        invariant EventsAdded(before, multiset(jobPriorityQueue.heap), jobs, jobs.Keys - todo)
        invariant jobPriorityQueue.fixed && old(EQ.MinHeap(jobPriorityQueue.heap)) ==> EQ.MinHeap(jobPriorityQueue.heap)
        decreases |todo|
      {
        var id :| id in todo;
        EventsAddedOneMore(before, multiset(jobPriorityQueue.heap), jobs, jobs.Keys - todo, id);
        QueueEventOf(existingJobs[id], jobs[id]);
        assert jobs.Keys - (todo - {id}) == jobs.Keys - todo + {id};
        todo := todo - {id};
      }
      assert jobs.Keys - {} == jobs.Keys;
    }

    /** At Init: the events of all stored jobs are queued, each once. */
    method FillWithExistingJobs()
      requires Valid() && Keyed(View().sched.jobs)
      modifies jobPriorityQueue
      ensures Valid() && View() == old(View()).(queue := View().queue)
      ensures EventsAdded(multiset(old(View()).queue), multiset(View().queue), View().sched.jobs,
                          View().sched.jobs.Keys)
      ensures config.queueFixed && old(EQ.MinHeap(View().queue)) ==> EQ.MinHeap(View().queue)
    {
      var existingJobs := scheduleState.GetAllJobs();
      assert existingJobs.Keys == Entries(existingJobs).Keys;
      QueueEventsOf(existingJobs, View().sched.jobs);
    }

    method SetNrsRules(jobid: string) returns (ok: bool)
      requires Valid()
      modifies ruleManager, ruleManager.ruleSetter`remote
      ensures Valid()
      ensures jobid !in View().sched.jobs ==> !ok && View() == old(View())
      ensures jobid in View().sched.jobs ==>
                var res := View().sched.jobs[jobid].res;
                && View() == old(View()).(rules := View().rules)
                && (View().rules, ok) == RulesSet(config.cleanupFixed, config.ipOf, old(View()).rules, res.osts, jobid,
                                                  res.mbs, Outside().ok, Outside().gone)
    {
      var requestedThroughput := scheduleState.GetJobThroughput(jobid);
      if requestedThroughput.None? {
        return false;
      }
      var ostsIds := scheduleState.GetJobOstIds(jobid);
      ok := ruleManager.SetRules(ostsIds.value, jobid, requestedThroughput.value);
    }

    method StartJob(jobid: string) returns (started: bool)
      requires Valid()
      modifies jobPriorityQueue, ruleManager, ruleManager.ruleSetter`remote, scheduleState`view,
               scheduleState.jobs.Values
      ensures Valid() && (View(), started) == Started(config, old(View()), jobid, Outside())
    {
      var jobState := scheduleState.GetJobStatus(jobid);
      if jobState.None? {
        return false;
      } else if jobState.value != Scheduled {
        return false;
      }
      var set1 := SetNrsRules(jobid);
      if !set1 {
        return false;
      }
      started := ActivateAndWait(jobid);
    }

    /** The tail of StartJob, once the rules are in place. */
    method ActivateAndWait(jobid: string) returns (ok: bool)
      requires Valid()
      modifies jobPriorityQueue, scheduleState`view, scheduleState.jobs.Values
      ensures Valid() && ok == (jobid in old(View()).sched.jobs)
      ensures ok ==>
                var stop := WaitingItem(jobid, old(View()).sched.jobs[jobid].res.end, JobStop);
                View() == old(View()).(sched := JobUpdated(old(View()).sched, jobid, Active),
                                       queue := EQ.Pushed(config.queueFixed, old(View()).queue, stop))
      ensures !ok ==> View() == old(View())
    {
      var updated := scheduleState.UpdateJob(jobid, Active);
      if !updated {
        return false;
      }
      var tend := scheduleState.GetJobEnd(jobid);
      if tend.None? {
        return false;
      }
      jobPriorityQueue.Push(WaitingItem(jobid, tend.value, JobStop));
      return true;
    }

    method StopJob(jobid: string) returns (stopped: bool)
      requires Valid()
      modifies ruleManager, ruleManager.ruleSetter`remote, scheduleState`view, scheduleState.jobs.Values
      ensures Valid() && (View(), stopped) == Stopped(old(View()), jobid, Outside().gone)
    {
      var jobState := scheduleState.GetJobStatus(jobid);
      if jobState.None? {
        return false;
      } else if jobState.value != Active {
        return false;
      }
      var removed := ruleManager.RemoveRules(jobid);
      stopped := scheduleState.UpdateJob(jobid, Done);
    }

    /** False while somebody else holds the id: then the caller waits here, and has changed nothing. */
    method BlockJob(jobid: string) returns (blocked: bool)
      modifies this
      ensures blocked == (jobid !in old(inFlightJobs))
      ensures inFlightJobs == if blocked then old(inFlightJobs) + {jobid} else old(inFlightJobs)
    {
      if jobid in inFlightJobs {
        return false;
      }
      inFlightJobs := inFlightJobs + {jobid};
      return true;
    }

    method UnblockJob(jobid: string)
      modifies this
      ensures inFlightJobs == old(inFlightJobs) - {jobid}
    {
      inFlightJobs := inFlightJobs - {jobid};
    }

    /** Not done while it waits for the id. */
    method Handle(jobid: string, event: JobEvent) returns (done: bool)
      requires Valid()
      modifies this, jobPriorityQueue, ruleManager, ruleManager.ruleSetter`remote, scheduleState,
               scheduleState.jobs.Values
      ensures Valid() && inFlightJobs == old(inFlightJobs) && done == (jobid !in inFlightJobs)
      ensures View() == if done then Handled(config, old(View()), jobid, event, Outside()) else old(View())
      ensures scheduleState.jobs.Values <= old(scheduleState.jobs.Values)
    {
      done := BlockJob(jobid);
      if !done {
        return;
      }
      match event {
        case JobStart =>
          var started := StartJob(jobid);
        case JobStop =>
          var stopped := StopJob(jobid);
          var removed := scheduleState.RemoveJob(jobid);
      }
      UnblockJob(jobid);
    }

    method RemoveJobFromPrioQueue(jobid: string)
      requires Valid()
      modifies jobPriorityQueue
      ensures Valid()
      ensures View() == old(View()).(queue := EQ.Removed(config.queueFixed, old(View()).queue, jobid))
    {
      ghost var before := View();
      var found := jobPriorityQueue.Remove(jobid);
      assert View() == before.(queue := jobPriorityQueue.heap);
    }

    /** The part of UnregisterJob that runs under the block. */
    method DequeueAndStop(jobid: string) returns (ok: bool)
      requires Valid()
      modifies jobPriorityQueue, ruleManager, ruleManager.ruleSetter`remote, scheduleState`view,
               scheduleState.jobs.Values
      ensures Valid() && ok
      ensures View() == Unregistered(config, old(View()), jobid, Outside().gone)
    {
      RemoveJobFromPrioQueue(jobid);
      var jobState := scheduleState.GetJobStatus(jobid);
      ok := true;
      if jobState.Some? && jobState.value == Active {
        ok := StopJob(jobid);
      }
    }

    /** No answer while it waits for the id. */
    method UnregisterJob(jobid: string) returns (ok: Option<bool>)
      requires Valid()
      modifies this, jobPriorityQueue, ruleManager, ruleManager.ruleSetter`remote, scheduleState`view,
               scheduleState.jobs.Values
      ensures Valid() && inFlightJobs == old(inFlightJobs)
      ensures ok == if jobid in inFlightJobs then None else Some(true)
      ensures View() == if ok.Some? then Unregistered(config, old(View()), jobid, Outside().gone) else old(View())
    {
      var blocked := BlockJob(jobid);
      if !blocked {
        return None;
      }
      var stopped := DequeueAndStop(jobid);
      UnblockJob(jobid);
      return Some(stopped);
    }

    method IsThereAReadyJob(now: int) returns (ready: bool)
      requires Valid()
      ensures ready == EQ.Ready(jobPriorityQueue.heap, now)
    {
      var first := jobPriorityQueue.Peek();
      return first.Some? && first.value.time < now;
    }

    /** What the OSSs will answer in the round after next rounds have passed. */
    ghost function Turns(n: nat, clock: nat -> int, round: nat): (turns: seq<Turn>) {
      TurnsOf(n, clock, ruleManager.ruleSetter.takesInstall, ruleManager.ruleSetter.takesRemoval, round)
    }

    /** The next turn, should its guard read `now`: the OSSs answer as they do in the next round. */
    ghost function NextTurnAt(now: int): (turn: Turn)
      reads ruleManager.ruleSetter`round
    {
      var setter := ruleManager.ruleSetter;
      Turn(now, Oracle(setter.takesInstall(setter.round + 1), setter.takesRemoval(setter.round + 1), 0))
    }

    lemma NextTurnIs(now: int, round: nat, n: nat)
      requires ruleManager.ruleSetter.round == round + n
      ensures NextTurnAt(now) == Turn(now, Oracle(ruleManager.ruleSetter.takesInstall(round + 1 + n),
                                                  ruleManager.ruleSetter.takesRemoval(round + 1 + n), 0))
    {
    }

    /** The body of the drain loop: the event at the front, unless its id is held by somebody else. */
    method TakeTurn(ghost turn: Turn) returns (waitsFor: Option<WaitingItem>)
      requires Valid() && turn == NextTurnAt(turn.now) && EQ.Ready(View().queue, turn.now)
      modifies this, jobPriorityQueue, ruleManager, ruleManager.ruleSetter, scheduleState, scheduleState.jobs.Values
      ensures Valid() && inFlightJobs == old(inFlightJobs)
      ensures ruleManager.ruleSetter.round == old(ruleManager.ruleSetter.round) + 1
      ensures var item := old(View()).queue[0];
              waitsFor == if item.jobid in inFlightJobs then Some(item) else None
      ensures View() == if waitsFor.None? then TurnTaken(config, old(View()), turn)
                        else old(View()).(queue := EQ.Popped(config.queueFixed, old(View()).queue))
      ensures scheduleState.jobs.Values <= old(scheduleState.jobs.Values)
    {
      ruleManager.ruleSetter.NextRound();
      var item := jobPriorityQueue.Pop();
      assert Outside() == turn.x;
      var done := Handle(item.value.jobid, item.value.event);
      waitsFor := if done then None else item;
    }

    /** The inner loop of Monitor, `n` turns of it. The clock is read anew for every guard. When the event
        just popped is for an id that somebody else holds, the loop waits for it. */
    method Drain(clock: nat -> int) returns (n: nat, waitsFor: Option<WaitingItem>)
      requires Valid()
      modifies this, jobPriorityQueue, ruleManager, ruleManager.ruleSetter, scheduleState, scheduleState.jobs.Values
      ensures Valid() && inFlightJobs == old(inFlightJobs)
      ensures DrainStopped(config, old(View()), Turns(n, clock, old(ruleManager.ruleSetter.round)), clock(n),
                           inFlightJobs, waitsFor, View())
    {
      n, waitsFor := 0, None;
      ghost var start, held, round := View(), inFlightJobs, ruleManager.ruleSetter.round;
      ghost var installs, removals := ruleManager.ruleSetter.takesInstall, ruleManager.ruleSetter.takesRemoval;
      assert Drained(config, start, TurnsOf(0, clock, installs, removals, round)) == Some(start);
      while true
        invariant Valid() && inFlightJobs == held && waitsFor.None? && ruleManager.ruleSetter.round == round + n
        invariant scheduleState.jobs.Values <= old(scheduleState.jobs.Values)
        invariant DrainedSoFar(config, start, n, clock, installs, removals, round, held, View())
        decreases Pending(View())
      {
        var ready := IsThereAReadyJob(clock(n));
        if !ready {
          return;
        }
        ghost var before, turn := View(), NextTurnAt(clock(n));
        NextTurnIs(clock(n), round, n);
        waitsFor := TakeTurn(turn);
        if waitsFor.Some? {
          return;
        }
        TurnLowersPending(config, before, turn);
        NextTurn(config, start, n, clock, installs, removals, round, held, before, turn);
        n := n + 1;
      }
    }
  }
}
