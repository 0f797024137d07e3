// The planner's promise (README.md:3): what it has told the OSSs to give never exceeds what the
// OSTs behind them have. Summing over jobs and summing over OSTs are exchanged to get there.
module EndToEnd {
  import opened Jobs
  import opened ScheduleState
  import opened Admission
  import opened Rules
  import opened Engine
  import opened Safety
  import opened Capacity
  import opened Drain

  // ---------- sums over finite sets ----------

  ghost function SumOf(s: set<string>, f: string -> nat): (sum: nat) {
    if s == {} then 0
    else
      var x :| x in s;
      f(x) + SumOf(s - {x}, f)
  }

  lemma {:induction false} SumOfSplit(s: set<string>, x: string, f: string -> nat)
    requires x in s
    ensures SumOf(s, f) == f(x) + SumOf(s - {x}, f)
    decreases |s|
  {
    var y :| y in s && SumOf(s, f) == f(y) + SumOf(s - {y}, f);
    if y != x {
      SumOfSplit(s - {y}, x, f);
      SumOfSplit(s - {x}, y, f);
      assert s - {y} - {x} == s - {x} - {y};
    }
  }

  lemma {:induction false} SumOfAtMost(s: set<string>, f: string -> nat, g: string -> nat)
    requires forall x :: x in s ==> f(x) <= g(x)
    ensures SumOf(s, f) <= SumOf(s, g)
    decreases |s|
  {
    if s != {} {
      var x :| x in s;
      SumOfSplit(s, x, f);
      SumOfSplit(s, x, g);
      SumOfAtMost(s - {x}, f, g);
    }
  }

  lemma {:induction false} SumOfSum(s: set<string>, f: string -> nat, g: string -> nat, h: string -> nat)
    requires forall x :: x in s ==> h(x) == f(x) + g(x)
    ensures SumOf(s, h) == SumOf(s, f) + SumOf(s, g)
    decreases |s|
  {
    if s != {} {
      var x :| x in s;
      SumOfSplit(s, x, f);
      SumOfSplit(s, x, g);
      SumOfSplit(s, x, h);
      SumOfSum(s - {x}, f, g, h);
    }
  }

  // ---------- the quantities ----------

  /** The OSTs with a limit that the OSS at `ip` serves. */
  function Behind(c: Config, ip: string): (osts: set<string>) {
    set o | o in c.limits && o in c.ipOf && c.ipOf[o] == ip
  }

  function LimitOf(c: Config): (f: string -> nat) {
    (o: string) => if o in c.limits then c.limits[o] else 0
  }

  /** The rate of the rule that the manager remembers for `id` at the OSS `ip`. */
  function HeldRate(rules: RuleState, ip: string): (f: string -> nat) {
    (id: string) =>
      if id in rules.active && ip in rules.active[id].ips
      then match At(rules.remote, ip, rules.active[id].name)
           case Some(rate) => rate
           case None => 0
      else 0
  }

  function ShareOf(r: Reservation, t: int): (f: string -> nat) {
    (o: string) => r.Share(o, t)
  }

  ghost function LoadOf(jobs: map<string, Entry>, t: int): (f: string -> nat) {
    (o: string) => LiveLoad(jobs, o, t)
  }

  function Only(osts: seq<string>, mbs: uint32): (f: string -> nat) {
    (o: string) => if o in osts then mbs else 0
  }

  // ---------- one job ----------

  lemma SameSum(s: set<string>, f: string -> nat, g: string -> nat)
    requires forall x :: x in s ==> f(x) == g(x)
    ensures SumOf(s, f) == SumOf(s, g)
  {
    SumOfAtMost(s, f, g);
    SumOfAtMost(s, g, f);
  }

  lemma {:induction false} AllZero(s: set<string>, f: string -> nat)
    requires forall x :: x in s ==> f(x) == 0
    ensures SumOf(s, f) == 0
    decreases |s|
  {
    if s != {} {
      var x :| x in s;
      SumOfSplit(s, x, f);
      AllZero(s - {x}, f);
    }
  }

  lemma OneMoreOst(s: set<string>, front: seq<string>, last: string)
    requires last !in front
    ensures SumOf(s, Only(front + [last], 1)) == SumOf(s, Only(front, 1)) + if last in s then 1 else 0
  {
    var f, g := Only(front + [last], 1), Only(front, 1);
    if last in s {
      SumOfSplit(s, last, f);
      SumOfSplit(s, last, g);
      SameSum(s - {last}, f, g);
    } else {
      SameSum(s, f, g);
    }
  }

  lemma {:induction false} SumScaled(s: set<string>, osts: seq<string>, mbs: uint32)
    ensures SumOf(s, Only(osts, mbs)) == mbs * SumOf(s, Only(osts, 1))
    decreases |s|
  {
    if s != {} {
      var x :| x in s;
      SumOfSplit(s, x, Only(osts, mbs));
      SumOfSplit(s, x, Only(osts, 1));
      SumScaled(s - {x}, osts, mbs);
      Distribute(mbs, Only(osts, 1)(x), SumOf(s - {x}, Only(osts, 1)));
    }
  }

  /** The job's OSTs behind `ip`, counted OST by OST. */
  lemma {:induction false} CountedByOst(c: Config, osts: seq<string>, ip: string)
    requires Distinct(osts) && IpsOf(c.ipOf, osts).Some? && forall o :: o in osts ==> o in c.limits
    ensures Count(IpsOf(c.ipOf, osts).value, ip) == SumOf(Behind(c, ip), Only(osts, 1))
    decreases |osts|
  {
    if osts == [] {
      AllZero(Behind(c, ip), Only(osts, 1));
    } else {
      var front, last := osts[..|osts| - 1], osts[|osts| - 1];
      assert osts == front + [last] && last !in front && last in osts;
      CountedByOst(c, front, ip);
      CountAppend(IpsOf(c.ipOf, front).value, c.ipOf[last], ip);
      OneMoreOst(Behind(c, ip), front, last);
    }
  }

  lemma ModAtMost(a: nat)
    ensures a % TWO_TO_THE_32 <= a
  {
  }

  /** The rule a running job holds at an OSS is at most what it takes from the OSTs behind it. */
  lemma HeldWithinShares(c: Config, s: State, id: string, ip: string, t: int)
    requires NamesOk(s) && RulesMatch(c, s, id) && s.sched.jobs[id].res.Covers(t)
    requires Distinct(s.sched.jobs[id].res.osts) && forall o :: o in s.sched.jobs[id].res.osts ==> o in c.limits
    ensures HeldRate(s.rules, ip)(id) <= SumOf(Behind(c, ip), ShareOf(s.sched.jobs[id].res, t))
  {
    var res := s.sched.jobs[id].res;
    var ips := IpsOf(c.ipOf, res.osts).value;
    if ip in s.rules.active[id].ips {
      assert ip in ips;
      assert At(s.rules.remote, ip, RuleName(id)) == Some(Rate(res.mbs, ips, ip));
      CountedByOst(c, res.osts, ip);
      SumScaled(Behind(c, ip), res.osts, res.mbs);
      ModAtMost(res.mbs * Count(ips, ip));
      SameSum(Behind(c, ip), Only(res.osts, res.mbs), ShareOf(res, t));
    }
  }

  // ---------- all jobs: the exchange of sums ----------

  lemma LoadsSplit(jobs: map<string, Entry>, id: string, osts: set<string>, t: int)
    requires id in jobs
    ensures SumOf(osts, LoadOf(jobs, t)) == SumOf(osts, ShareOf(jobs[id].res, t)) + SumOf(osts, LoadOf(jobs - {id}, t))
  {
    forall o | o in osts ensures LoadOf(jobs, t)(o) == ShareOf(jobs[id].res, t)(o) + LoadOf(jobs - {id}, t)(o) {
      LiveLoadSplit(jobs, id, o, t);
    }
    SumOfSum(osts, ShareOf(jobs[id].res, t), LoadOf(jobs - {id}, t), LoadOf(jobs, t));
  }

  /** Rates summed over jobs are bounded by loads summed over OSTs. */
  lemma {:induction false} ExchangeSums(jobs: map<string, Entry>, ids: set<string>, osts: set<string>,
                                        held: string -> nat, t: int)
    requires ids <= jobs.Keys
    requires forall id :: id in ids ==> held(id) <= SumOf(osts, ShareOf(jobs[id].res, t))
    ensures SumOf(ids, held) <= SumOf(osts, LoadOf(jobs, t))
    decreases |ids|
  {
    if ids != {} {
      var id :| id in ids;
      SumOfSplit(ids, id, held);
      LoadsSplit(jobs, id, osts, t);
      ExchangeSums(jobs - {id}, ids - {id}, osts, held, t);
    }
  }

  /** At any instant at which every listed job runs, the rules they hold at an OSS stay within the
      limits of the OSTs behind it. */
  lemma HeldWithinLimits(c: Config, s: State, ids: set<string>, ip: string, t: int)
    requires NamesOk(s) && WithinCapacity(c, s.sched, s.clock)
    requires forall id :: id in ids ==> RulesMatch(c, s, id) && s.sched.jobs[id].res.Covers(t)
    ensures SumOf(ids, HeldRate(s.rules, ip)) <= SumOf(Behind(c, ip), LimitOf(c))
  {
    ListsBoundLive(c.limits, s.sched);
    forall id | id in ids
      ensures id in s.sched.jobs
      ensures HeldRate(s.rules, ip)(id) <= SumOf(Behind(c, ip), ShareOf(s.sched.jobs[id].res, t))
    {
      assert RulesMatch(c, s, id);
      HeldWithinShares(c, s, id, ip, t);
    }
    ExchangeSums(s.sched.jobs, ids, Behind(c, ip), HeldRate(s.rules, ip), t);
    SumOfAtMost(Behind(c, ip), LoadOf(s.sched.jobs, t), LimitOf(c));
  }

  /** The ids whose rules count: all that are remembered, but for a job that the server is just
      removing although its end has already passed. */
  ghost function InTime(s: State): (ids: set<string>) {
    set id | id in s.rules.active && (id in s.inFlight && id in s.sched.jobs ==> s.clock <= s.sched.jobs[id].res.end)
  }

  lemma RemovingStillMatches(c: Config, s: State, id: string)
    requires c.removalSerialised && Locked(c, s) && CleanInv(c, s) && s.mon.MDrain?
    requires id in s.inFlight && id in s.rules.active
    ensures RulesMatch(c, s, id)
  {
    assert id in SrvHolds(c, s.srv);
    assert Clean(c, s, id);
  }

  /** End to end: whenever a drain ends, at every OSS the rules remembered by the manager add up to at
      most the limits of the OSTs the OSS serves. The monitor itself has nothing in flight then; the
      one thing to leave out is a job that the server is just removing after its end. */
  lemma PromiseKept(c: Config, now: int, steps: seq<Step>, ip: string)
    requires c.queueFixed && c.loadStored && c.removalSerialised
    requires Run(c, Start(now), steps).Some? && DrainEnds(Run(c, Start(now), steps).value)
    requires Along(c, Start(now), steps, UnfooledIn(c))
    ensures var s := Run(c, Start(now), steps).value;
            && SumOf(InTime(s), HeldRate(s.rules, ip)) <= SumOf(Behind(c, ip), LimitOf(c))
            && s.inFlight == SrvHolds(c, s.srv)
            && (s.inFlight == {} ==> InTime(s) == s.rules.active.Keys)
  {
    var s := Run(c, Start(now), steps).value;
    StartWithinCapacity(c, now);
    CapacityRuns(c, Start(now), steps);
    CleanRuns(c, Start(now), steps);
    DrainIsComplete(c, now, steps);
    HeapRuns(c, Start(now), steps);
    forall id | id in InTime(s) ensures RulesMatch(c, s, id) && s.sched.jobs[id].res.Covers(s.clock) {
      if id in s.inFlight {
        RemovingStillMatches(c, s, id);
      } else {
        assert Clean(c, s, id);
      }
    }
    HeldWithinLimits(c, s, InTime(s), ip, s.clock);
  }

  // ---------- nothing else is in place ----------

  /** In this step every RemoveRule that is sent takes effect. */
  predicate RemovalsTakeEffect(c: Config, st: Step) {
    st.Mon? || st.Srv? ==> c.ipOf.Values <= st.x.gone
  }

  ghost predicate RulesOwned(c: Config, s: State) {
    NoOrphans(s.rules) && forall id, ip :: id in s.rules.active && ip in s.rules.active[id].ips ==> ip in c.ipOf.Values
  }

  lemma IpsAreKnown(c: Config, osts: seq<string>)
    requires IpsOf(c.ipOf, osts).Some?
    ensures forall ip :: ip in IpsOf(c.ipOf, osts).value ==> ip in c.ipOf.Values
  {
    var ips := IpsOf(c.ipOf, osts).value;
    forall k | 0 <= k < |ips| ensures ips[k] in c.ipOf.Values {
      assert c.ipOf[osts[k]] == ips[k];
    }
  }

  lemma StepKeepsOwned(c: Config, s: State, st: Step)
    requires c.cleanupFixed && RulesOwned(c, s) && Enabled(s, st) && RemovalsTakeEffect(c, st)
    ensures RulesOwned(c, Next(c, s, st))
  {
    if st.Mon? && s.mon.MStartRules? {
      var ips := IpsOf(c.ipOf, s.mon.osts);
      if ips.Some? {
        IpsAreKnown(c, s.mon.osts);
        UniqueIsExact(ips.value);
      }
      SetRulesLeavesNoOrphans(c.ipOf, s.rules, s.mon.osts, s.mon.id, s.mon.mbs, st.x.ok, st.x.gone);
    } else if st.Mon? && s.mon.MStopRules? {
      RemoveRulesLeavesNoOrphans(s.rules, s.mon.id, st.x.gone);
    } else if st.Srv? && s.srv.SStopRules? {
      RemoveRulesLeavesNoOrphans(s.rules, s.srv.id, st.x.gone);
    } else {
      assert Next(c, s, st).rules == s.rules;
    }
  }

  /** With the clean-up put right and removals that take effect, no OSS ever holds a rule that the
      manager does not remember: the bound above is a bound on all rules in place. */
  lemma {:induction false} OnlyRememberedRules(c: Config, now: int, steps: seq<Step>)
    requires c.cleanupFixed && Run(c, Start(now), steps).Some?
    requires forall st :: st in steps ==> RemovalsTakeEffect(c, st)
    ensures RulesOwned(c, Run(c, Start(now), steps).value)
    decreases |steps|
  {
    if steps != [] {
      var front, last := steps[..|steps| - 1], steps[|steps| - 1];
      assert forall st :: st in front ==> st in steps;
      OnlyRememberedRules(c, now, front);
      assert last in steps;
      StepKeepsOwned(c, Run(c, Start(now), front).value, last);
    }
  }

  // ---------- the promise about everything an OSS holds ----------

  /** The names of the rules in place at `ip`, and their rates. */
  function NamesAt(remote: Remote, ip: string): (names: set<string>) {
    set k | k in remote && k.ip == ip :: k.name
  }

  function RateInPlace(remote: Remote, ip: string): (f: string -> nat) {
    (name: string) => match At(remote, ip, name) case Some(rate) => rate case None => 0
  }

  ghost predicate Owns(rules: RuleState, ip: string, id: string, name: string) {
    && id in rules.active && rules.active[id].name == name && RuleName(id) == name
    && ip in rules.active[id].ips
  }

  /** Every name has an owner among `ids`. */
  ghost predicate AllOwned(rules: RuleState, ip: string, names: set<string>, ids: set<string>) {
    forall n :: n in names ==> exists id :: id in ids && Owns(rules, ip, id, n)
  }

  lemma AnOwner(rules: RuleState, ip: string, names: set<string>, ids: set<string>, n: string) returns (id: string)
    requires AllOwned(rules, ip, names, ids) && n in names
    ensures id in ids && Owns(rules, ip, id, n)
    ensures AllOwned(rules, ip, names - {n}, ids - {id})
    ensures HeldRate(rules, ip)(id) == RateInPlace(rules.remote, ip)(n)
  {
    id :| id in ids && Owns(rules, ip, id, n);
    forall m | m in names - {n} ensures exists k :: k in ids - {id} && Owns(rules, ip, k, m) {
      var k :| k in ids && Owns(rules, ip, k, m);
      assert k in ids - {id};
    }
  }

  lemma {:induction false} NamesToIds(rules: RuleState, ip: string, names: set<string>, ids: set<string>)
    requires AllOwned(rules, ip, names, ids)
    ensures SumOf(names, RateInPlace(rules.remote, ip)) <= SumOf(ids, HeldRate(rules, ip))
    decreases |names|
  {
    if names != {} {
      var n :| n in names;
      var id := AnOwner(rules, ip, names, ids, n);
      SumOfSplit(names, n, RateInPlace(rules.remote, ip));
      SumOfSplit(ids, id, HeldRate(rules, ip));
      NamesToIds(rules, ip, names - {n}, ids - {id});
    }
  }

  /** With every departure that matters put right and removals that take effect: when a drain ends
      and no overdue job is just being removed, all the rules an OSS holds, whoever set them, add up to at most
      the limits of the OSTs it serves. */
  lemma AllRulesWithinLimits(c: Config, now: int, steps: seq<Step>, ip: string)
    requires c.queueFixed && c.loadStored && c.removalSerialised && c.cleanupFixed
    requires Run(c, Start(now), steps).Some? && DrainEnds(Run(c, Start(now), steps).value)
    requires Along(c, Start(now), steps, UnfooledIn(c))
    requires forall st :: st in steps ==> RemovalsTakeEffect(c, st)
    requires var s := Run(c, Start(now), steps).value; InTime(s) == s.rules.active.Keys
    ensures var remote := Run(c, Start(now), steps).value.rules.remote;
            SumOf(NamesAt(remote, ip), RateInPlace(remote, ip)) <= SumOf(Behind(c, ip), LimitOf(c))
  {
    PromiseKept(c, now, steps, ip);
    OnlyRememberedRules(c, now, steps);
    var s := Run(c, Start(now), steps).value;
    forall n | n in NamesAt(s.rules.remote, ip)
      ensures exists id :: id in s.rules.active.Keys && Owns(s.rules, ip, id, n)
    {
      assert At(s.rules.remote, ip, n) != None;
      assert Remembered(s.rules, ip, n);
      var id :| id in s.rules.active && RuleName(id) == n && ip in s.rules.active[id].ips;
      assert id in s.rules.active.Keys && Owns(s.rules, ip, id, n);
    }
    NamesToIds(s.rules, ip, NamesAt(s.rules.remote, ip), s.rules.active.Keys);
  }
}
