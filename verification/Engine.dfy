// The running planner as a state machine: the monitor thread and the server thread, interleaved at
// the granularity of their mutex-protected sections (src/common/JobMonitor.cpp,
// src/common/JobSchedulerStaticWorkloads.cpp, src/common/Planner.cpp, src/server/Server.cpp:61-89).
module Engine {
  import opened Jobs
  import opened ScheduleState
  import opened Admission
  import opened Rules
  import EQ = EventQueue

  /** The cluster, and for each of the five places where the shipped code departs from its meaning
      whether that place is put right (all false: the planner as shipped). */
  datatype Config = Config(
    limits: map<string, uint32>,
    ipOf: map<string, string>,
    queueFixed: bool,         // EventQueue: Up, Down and Remove agree on earliest-first
    loadStored: bool,         // GetMaxLoadInTimeInterval stores its sum
    listErased: bool,         // RemoveJob erases from the list, not from a copy
    cleanupFixed: bool,       // SetRulesAsync cleans up where the install succeeded
    removalSerialised: bool)  // ServeJobRemove removes from the schedule before it unblocks the id

  /** Where the monitor thread is; from MStartCheck and MStopCheck on it has blocked `id`. */
  datatype MonPc =
    | MWait                                           // between drains
    | MDrain                                          // about to evaluate the drain guard
    | MPopped(item: WaitingItem)                      // holds a popped event, not yet blocked
    | MStartCheck(id: string)
    | MStartMbs(id: string)
    | MStartOsts(id: string, mbs: uint32)
    | MStartRules(id: string, mbs: uint32, osts: seq<string>)
    | MStartUpdate(id: string)
    | MStartEnd(id: string)
    | MStartPush(id: string, tend: int)
    | MStopCheck(id: string)
    | MStopRules(id: string)
    | MStopUpdate(id: string)
    | MStopRemove(id: string)
    | MRelease(id: string)

  /** Where the server thread is: idle, admitting `r` (`next` OSTs checked), or removing `id` with
      the ids in `rest` still to come. */
  datatype SrvPc =
    | SIdle
    | SCheck(r: Reservation, next: nat)
    | SRegister(r: Reservation)
    | SBlock(id: string, rest: seq<string>)
    | SDequeue(id: string, rest: seq<string>)
    | SStatus(id: string, rest: seq<string>)
    | SStopCheck(id: string, rest: seq<string>)
    | SStopRules(id: string, rest: seq<string>)
    | SStopUpdate(id: string, rest: seq<string>)
    | SErase(id: string, rest: seq<string>)
    | SRelease(id: string, rest: seq<string>)

  datatype State = State(
    clock: int,
    sched: Schedule,
    queue: seq<WaitingItem>,
    inFlight: set<string>,
    rules: RuleState,
    mon: MonPc,
    srv: SrvPc)

  /** What the outside decides in one step: the OSSs that accept an install, those where a removal
      takes effect, and the value left in an uninitialised variable. */
  datatype Oracle = Oracle(ok: set<string>, gone: set<string>, leftover: uint32)

  datatype Step =
    | Tick(now: int)
    | Wake
    | Mon(x: Oracle)
    | Submit(r: Reservation)
    | Delete(ids: seq<string>)
    | Srv(x: Oracle)

  function Start(now: int): (s: State) {
    State(now, EMPTY, [], {}, RuleState(map[], map[]), MWait, SIdle)
  }

  predicate HasState(s: State, id: string, state: JobState) {
    id in s.sched.jobs && s.sched.jobs[id].state == state
  }

  // ---------- the monitor: Monitor, Handle, StartJob, StopJob ----------

  predicate MonEnabled(s: State) {
    && !s.mon.MWait?
    && (s.mon.MPopped? ==> s.mon.item.jobid !in s.inFlight)
  }

  function MonStep(c: Config, s: State, x: Oracle): (s': State)
    requires MonEnabled(s)
  {
    match s.mon
    case MDrain =>
      if EQ.Ready(s.queue, s.clock)
      then s.(queue := EQ.Popped(c.queueFixed, s.queue), mon := MPopped(s.queue[0]))
      else s.(mon := MWait)
    case MPopped(item) =>
      s.(inFlight := s.inFlight + {item.jobid},
         mon := if item.event == JobStart then MStartCheck(item.jobid) else MStopCheck(item.jobid))
    case MStartCheck(id) =>
      s.(mon := if HasState(s, id, Scheduled) then MStartMbs(id) else MRelease(id))
    case MStartMbs(id) =>
      s.(mon := if id in s.sched.jobs then MStartOsts(id, s.sched.jobs[id].res.mbs) else MRelease(id))
    case MStartOsts(id, mbs) =>
      s.(mon := MStartRules(id, mbs, if id in s.sched.jobs then s.sched.jobs[id].res.osts else []))
    case MStartRules(id, mbs, osts) =>
      var r := RulesSet(c.cleanupFixed, c.ipOf, s.rules, osts, id, mbs, x.ok, x.gone);
      s.(rules := r.0, mon := if r.1 then MStartUpdate(id) else MRelease(id))
    case MStartUpdate(id) =>
      s.(sched := JobUpdated(s.sched, id, Active), mon := if id in s.sched.jobs then MStartEnd(id) else MRelease(id))
    case MStartEnd(id) =>
      s.(mon := if id in s.sched.jobs then MStartPush(id, s.sched.jobs[id].res.end) else MRelease(id))
    case MStartPush(id, tend) =>
      s.(queue := EQ.Pushed(c.queueFixed, s.queue, WaitingItem(id, tend, JobStop)), mon := MRelease(id))
    case MStopCheck(id) =>
      s.(mon := if HasState(s, id, Active) then MStopRules(id) else MStopRemove(id))
    case MStopRules(id) =>
      s.(rules := RulesRemoved(s.rules, id, x.gone).0, mon := MStopUpdate(id))
    case MStopUpdate(id) =>
      s.(sched := JobUpdated(s.sched, id, Done), mon := MStopRemove(id))
    case MStopRemove(id) =>
      s.(sched := JobRemoved(c.listErased, s.sched, id), mon := MRelease(id))
    case MRelease(id) =>
      s.(inFlight := s.inFlight - {id}, mon := MDrain)
  }

  // ---------- the server: ScheduleJob, RegisterJob, UnregisterJob, ServeJobRemove ----------

  function NextRemoval(ids: seq<string>): (pc: SrvPc) {
    if ids == [] then SIdle else SBlock(ids[0], ids[1..])
  }

  /** UnregisterJob is done with the job itself: unblock it, or first take it off the schedule. */
  function StopDone(c: Config, id: string, rest: seq<string>): (pc: SrvPc) {
    if c.removalSerialised then SErase(id, rest) else SRelease(id, rest)
  }

  predicate SrvEnabled(s: State) {
    && !s.srv.SIdle?
    && (s.srv.SBlock? ==> s.srv.id !in s.inFlight)
  }

  function CheckStep(c: Config, s: State, r: Reservation, next: nat, x: Oracle): (s': State) {
    if next < |r.osts| then
      var o := r.osts[next];
      var load := ReportedLoad(c.loadStored, s.sched.lists, o, r.start, r.end, x.leftover);
      s.(srv := if EnoughResources(c.limits, o, load, r.mbs) then SCheck(r, next + 1) else SIdle)
    else if r.jobid in s.sched.jobs then s.(srv := SIdle)
    else s.(sched := JobAdded(s.sched, r.jobid, Entry(r, Scheduled), r.osts), srv := SRegister(r))
  }

  function SrvStep(c: Config, s: State, x: Oracle): (s': State)
    requires SrvEnabled(s)
  {
    match s.srv
    case SCheck(r, next) => CheckStep(c, s, r, next, x)
    case SRegister(r) =>
      s.(queue := EQ.Pushed(c.queueFixed, s.queue, WaitingItem(r.jobid, r.start, JobStart)), srv := SIdle)
    case SBlock(id, rest) =>
      s.(inFlight := s.inFlight + {id}, srv := SDequeue(id, rest))
    case SDequeue(id, rest) =>
      s.(queue := EQ.Removed(c.queueFixed, s.queue, id), srv := SStatus(id, rest))
    case SStatus(id, rest) =>
      s.(srv := if HasState(s, id, Active) then SStopCheck(id, rest) else StopDone(c, id, rest))
    case SStopCheck(id, rest) =>
      s.(srv := if HasState(s, id, Active) then SStopRules(id, rest) else StopDone(c, id, rest))
    case SStopRules(id, rest) =>
      s.(rules := RulesRemoved(s.rules, id, x.gone).0, srv := SStopUpdate(id, rest))
    case SStopUpdate(id, rest) =>
      s.(sched := JobUpdated(s.sched, id, Done), srv := StopDone(c, id, rest))
    case SErase(id, rest) =>
      s.(sched := JobRemoved(c.listErased, s.sched, id),
         srv := if c.removalSerialised then SRelease(id, rest) else NextRemoval(rest))
    case SRelease(id, rest) =>
      s.(inFlight := s.inFlight - {id}, srv := if c.removalSerialised then NextRemoval(rest) else SErase(id, rest))
  }

  // ---------- steps and runs ----------

  /** A submission reads the clock for its start and collects its OSTs in a set
      (src/common/Planner.cpp:99-112). */
  predicate Enabled(s: State, st: Step) {
    match st
    case Tick(now) => s.clock <= now
    case Wake => s.mon.MWait?
    case Mon(_) => MonEnabled(s)
    case Submit(r) => s.srv.SIdle? && r.start == s.clock <= r.end && Distinct(r.osts)
    case Delete(_) => s.srv.SIdle?
    case Srv(_) => SrvEnabled(s)
  }

  function Next(c: Config, s: State, st: Step): (s': State)
    requires Enabled(s, st)
  {
    match st
    case Tick(now) => s.(clock := now)
    case Wake => s.(mon := MDrain)
    case Mon(x) => MonStep(c, s, x)
    case Submit(r) => s.(srv := SCheck(r, 0))
    case Delete(ids) => s.(srv := NextRemoval(ids))
    case Srv(x) => SrvStep(c, s, x)
  }

  /** The state after these steps, if each of them was enabled. */
  function Run(c: Config, s: State, steps: seq<Step>): (r: Option<State>) {
    if steps == [] then Some(s)
    else
      match Run(c, s, steps[..|steps| - 1])
      case None => None
      case Some(m) => if Enabled(m, steps[|steps| - 1]) then Some(Next(c, m, steps[|steps| - 1])) else None
  }

  /** Every step of the run was taken in a state where `ok` allowed it. */
  ghost predicate Along(c: Config, s: State, steps: seq<Step>, ok: (State, Step) -> bool) {
    if steps == [] then true
    else
      var front := steps[..|steps| - 1];
      Along(c, s, front, ok) && (Run(c, s, front).Some? ==> ok(Run(c, s, front).value, steps[|steps| - 1]))
  }
}
