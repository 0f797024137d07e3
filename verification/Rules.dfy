// Rule installation (src/common/RuleManager.cpp): per-OST throughput becomes one rate per OSS, set
// and removed by asynchronous calls. The rules the OSSs really hold are the ghost map `remote`.
module Rules {
  import opened Jobs

  /** A rule is known by the OSS that holds it and by its name. */
  datatype RuleKey = RuleKey(ip: string, name: string)

  type Remote = map<RuleKey, uint32>

  /** The rate of rule `name` at `ip`, if there is such a rule. */
  function At(remote: Remote, ip: string, name: string): (rate: Option<uint32>) {
    if RuleKey(ip, name) in remote then Some(remote[RuleKey(ip, name)]) else None
  }

  lemma SameRules(a: Remote, b: Remote)
    requires forall ip, n :: At(a, ip, n) == At(b, ip, n)
    ensures a == b
  {
    forall k: RuleKey ensures (k in a <==> k in b) && (k in a ==> a[k] == b[k]) {
      assert k == RuleKey(k.ip, k.name);
      assert At(a, k.ip, k.name) == At(b, k.ip, k.name);
    }
  }

  /** What the manager remembers in order to undo a job's rules. */
  datatype RuleDefinition = RuleDefinition(name: string, ips: seq<string>)

  datatype RuleState = RuleState(active: map<string, RuleDefinition>, remote: Remote)

  function RuleName(jobid: string): (name: string) {
    "_qosp" + jobid
  }

  lemma RuleIsNamedAfterJob(jobid: string)
    ensures |RuleName(jobid)| == |jobid| + 5
    ensures RuleName(jobid)[..5] == ['_', 'q', 'o', 's', 'p'] && RuleName(jobid)[5..] == jobid
  {
  }

  lemma RuleNameInjective(a: string, b: string)
    requires RuleName(a) == RuleName(b)
    ensures a == b
  {
    assert RuleName(a)[5..] == a && RuleName(b)[5..] == b;
  }

  // ---------- from OSTs to OSS rates ----------

  function Count(ips: seq<string>, ip: string): (n: nat) {
    if ips == [] then 0 else Count(ips[..|ips| - 1], ip) + if ips[|ips| - 1] == ip then 1 else 0
  }

  /** First occurrences, in order. */
  function Unique(ips: seq<string>): (u: seq<string>) {
    if ips == [] then []
    else
      var front, last := ips[..|ips| - 1], ips[|ips| - 1];
      if last in front then Unique(front) else Unique(front) + [last]
  }

  /** The throughput once per OST behind `ip`, in 32-bit arithmetic. */
  function Rate(mbs: uint32, ips: seq<string>, ip: string): (rate: uint32) {
    (mbs * Count(ips, ip)) % TWO_TO_THE_32
  }

  function RateMap(mbs: uint32, ips: seq<string>): (m: map<string, uint32>) {
    map ip | ip in ips :: Rate(mbs, ips, ip)
  }

  lemma {:induction false} UniqueIsExact(ips: seq<string>)
    ensures Distinct(Unique(ips)) && forall ip :: ip in Unique(ips) <==> ip in ips
  {
    if ips != [] {
      assert ips == ips[..|ips| - 1] + [ips[|ips| - 1]];
      UniqueIsExact(ips[..|ips| - 1]);
    }
  }

  lemma {:induction false} CountAbsent(ips: seq<string>, ip: string)
    requires ip !in ips
    ensures Count(ips, ip) == 0
  {
    if ips != [] {
      CountAbsent(ips[..|ips| - 1], ip);
    }
  }

  lemma CountAppend(ips: seq<string>, last: string, ip: string)
    ensures Count(ips + [last], ip) == Count(ips, ip) + if last == ip then 1 else 0
  {
    assert (ips + [last])[..|ips|] == ips;
  }

  lemma Distribute(a: nat, b: nat, c: nat)
    ensures a * (b + c) == a * b + a * c
  {
  }

  lemma AddOnce(mbs: uint32, n: nat)
    ensures ((mbs * n) % TWO_TO_THE_32 + mbs) % TWO_TO_THE_32 == (mbs * (n + 1)) % TWO_TO_THE_32
  {
    Distribute(mbs, n, 1);
    AddMod(mbs * n, mbs);
  }

  /** The total rate handed out to the IPs in `u`. */
  function Total(u: seq<string>, m: map<string, uint32>): (sum: nat)
    requires forall ip :: ip in u ==> ip in m
  {
    if u == [] then 0 else Total(u[..|u| - 1], m) + m[u[|u| - 1]]
  }

  function TotalCount(u: seq<string>, ips: seq<string>): (n: nat) {
    if u == [] then 0 else TotalCount(u[..|u| - 1], ips) + Count(ips, u[|u| - 1])
  }

  lemma {:induction false} TotalCountAppend(u: seq<string>, ips: seq<string>, last: string)
    requires Distinct(u)
    ensures TotalCount(u, ips + [last]) == TotalCount(u, ips) + if last in u then 1 else 0
  {
    if u != [] {
      var w, x := u[..|u| - 1], u[|u| - 1];
      assert u == w + [x] && x !in w;
      TotalCountAppend(w, ips, last);
      CountAppend(ips, last, x);
    }
  }

  lemma {:induction false} CountsAddUp(ips: seq<string>)
    ensures TotalCount(Unique(ips), ips) == |ips|
  {
    if ips != [] {
      var front, last := ips[..|ips| - 1], ips[|ips| - 1];
      assert ips == front + [last];
      CountsAddUp(front);
      UniqueIsExact(front);
      TotalCountAppend(Unique(front), front, last);
      if last !in front {
        var u := Unique(front);
        assert (u + [last])[..|u|] == u;
        CountAppend(front, last, last);
        CountAbsent(front, last);
      }
    }
  }

  lemma {:induction false} CountBound(ips: seq<string>, ip: string)
    ensures Count(ips, ip) <= |ips|
  {
    if ips != [] {
      CountBound(ips[..|ips| - 1], ip);
    }
  }

  lemma MulMono(a: nat, b: nat, c: nat)
    requires b <= c
    ensures a * b <= a * c
  {
  }

  /** An OSS gets the real product exactly when that product fits the word. */
  lemma RateExact(mbs: uint32, ips: seq<string>, ip: string)
    ensures Rate(mbs, ips, ip) == mbs * Count(ips, ip) <==> mbs * Count(ips, ip) < TWO_TO_THE_32
    ensures mbs * |ips| < TWO_TO_THE_32 ==> Rate(mbs, ips, ip) == mbs * Count(ips, ip)
  {
    CountBound(ips, ip);
    MulMono(mbs, Count(ips, ip), |ips|);
    var p := mbs * Count(ips, ip);
    assert p % TWO_TO_THE_32 == p <==> p < TWO_TO_THE_32;
  }

  lemma ModSum(a: nat, x: nat, y: nat)
    requires a % TWO_TO_THE_32 == x % TWO_TO_THE_32
    ensures (a + y % TWO_TO_THE_32) % TWO_TO_THE_32 == (x + y) % TWO_TO_THE_32
  {
    AddMod(a, y % TWO_TO_THE_32);
    AddMod(y, x % TWO_TO_THE_32);
    AddMod(x, y);
  }

  lemma TotalSnoc(w: seq<string>, x: string, mbs: uint32, ips: seq<string>)
    requires forall ip :: ip in w + [x] ==> ip in ips
    ensures forall ip :: ip in w ==> ip in ips
    ensures Total(w + [x], RateMap(mbs, ips)) == Total(w, RateMap(mbs, ips)) + Rate(mbs, ips, x)
    ensures TotalCount(w + [x], ips) == TotalCount(w, ips) + Count(ips, x)
  {
    assert forall ip :: ip in w ==> ip in w + [x];
    assert x in w + [x];
    assert (w + [x])[..|w|] == w;
  }

  /** One more OSS: the wrapped total follows the real product. */
  lemma ScaledSnoc(total: nat, mbs: uint32, before: nat, count: nat)
    requires total % TWO_TO_THE_32 == (mbs * before) % TWO_TO_THE_32
    ensures (total + (mbs * count) % TWO_TO_THE_32) % TWO_TO_THE_32 == (mbs * (before + count)) % TWO_TO_THE_32
  {
    Distribute(mbs, before, count);
    ModSum(total, mbs * before, mbs * count);
  }

  lemma {:induction false} TotalIsScaledMod(u: seq<string>, mbs: uint32, ips: seq<string>)
    requires forall ip :: ip in u ==> ip in ips
    ensures Total(u, RateMap(mbs, ips)) % TWO_TO_THE_32 == (mbs * TotalCount(u, ips)) % TWO_TO_THE_32
  {
    if u != [] {
      var w, x := u[..|u| - 1], u[|u| - 1];
      assert u == w + [x];
      TotalSnoc(w, x, mbs, ips);
      TotalIsScaledMod(w, mbs, ips);
      ScaledSnoc(Total(w, RateMap(mbs, ips)), mbs, TotalCount(w, ips), Count(ips, x));
    }
  }

  lemma {:induction false} TotalIsScaled(u: seq<string>, mbs: uint32, ips: seq<string>)
    requires forall ip :: ip in u ==> ip in ips
    requires mbs * |ips| < TWO_TO_THE_32
    ensures Total(u, RateMap(mbs, ips)) == mbs * TotalCount(u, ips)
  {
    if u != [] {
      var w, x := u[..|u| - 1], u[|u| - 1];
      TotalIsScaled(w, mbs, ips);
      RateExact(mbs, ips, x);
      Distribute(mbs, TotalCount(w, ips), Count(ips, x));
    }
  }

  /** Nothing is lost in the folding: modulo 2^32 the OSS rates add up to the throughput times the
      number of OSTs, and without wrap-around exactly. */
  lemma AggregationConserves(mbs: uint32, ips: seq<string>)
    ensures forall ip :: ip in Unique(ips) ==> ip in RateMap(mbs, ips)
    ensures Total(Unique(ips), RateMap(mbs, ips)) % TWO_TO_THE_32 == (mbs * |ips|) % TWO_TO_THE_32
    ensures mbs * |ips| < TWO_TO_THE_32 ==> Total(Unique(ips), RateMap(mbs, ips)) == mbs * |ips|
  {
    UniqueIsExact(ips);
    CountsAddUp(ips);
    TotalIsScaledMod(Unique(ips), mbs, ips);
    if mbs * |ips| < TWO_TO_THE_32 {
      TotalIsScaled(Unique(ips), mbs, ips);
    }
  }

  /** An OST's IP is known, or its lookup yields the empty string. */
  function IpsOf(ipOf: map<string, string>, osts: seq<string>): (ips: Option<seq<string>>)
    ensures ips.Some? ==> |ips.value| == |osts|
    ensures ips.Some? ==> forall k :: 0 <= k < |osts| ==> osts[k] in ipOf && ipOf[osts[k]] == ips.value[k] != ""
    ensures ips.None? ==> exists k :: 0 <= k < |osts| && (osts[k] !in ipOf || ipOf[osts[k]] == "")
  {
    if osts == [] then Some([])
    else
      var front, last := IpsOf(ipOf, osts[..|osts| - 1]), osts[|osts| - 1];
      if front.None? || last !in ipOf || ipOf[last] == "" then None else Some(front.value + [ipOf[last]])
  }

  // ---------- fan-out ----------

  /** One asynchronous call as it completes: a rule set, or a rule removed, with its effect. */
  datatype Call = SetCall(ip: string, rate: uint32, took: bool) | DelCall(ip: string, took: bool)

  function Effect(remote: Remote, name: string, c: Call): (r: Remote) {
    if !c.took then remote
    else if c.SetCall? then remote[RuleKey(c.ip, name) := c.rate]
    else remote - {RuleKey(c.ip, name)}
  }

  /** The remote rules once the calls have completed in this order. */
  function Completed(remote: Remote, name: string, calls: seq<Call>): (r: Remote) {
    if calls == [] then remote else Effect(Completed(remote, name, calls[..|calls| - 1]), name, calls[|calls| - 1])
  }

  /** The calls to one OSS, in order. */
  function To(calls: seq<Call>, ip: string): (c: seq<Call>) {
    if calls == [] then []
    else
      var last := calls[|calls| - 1];
      To(calls[..|calls| - 1], ip) + if last.ip == ip then [last] else []
  }

  lemma EffectAt(remote: Remote, name: string, c: Call, ip: string, n: string)
    ensures At(Effect(remote, name, c), ip, n)
         == if c.took && ip == c.ip && n == name then (if c.SetCall? then Some(c.rate) else None)
            else At(remote, ip, n)
  {
  }

  lemma CompletedSnoc(remote: Remote, name: string, calls: seq<Call>, last: Call)
    ensures Completed(remote, name, calls + [last]) == Effect(Completed(remote, name, calls), name, last)
  {
    assert (calls + [last])[..|calls|] == calls;
  }

  /** The rule `name` on one OSS depends only on the calls to that OSS; no other rule changes. */
  lemma {:induction false} CompletedPerOss(remote: Remote, name: string, calls: seq<Call>, ip: string, n: string)
    ensures At(Completed(remote, name, calls), ip, n) == At(Completed(remote, name, To(calls, ip)), ip, n)
    ensures n != name ==> At(Completed(remote, name, calls), ip, n) == At(remote, ip, n)
  {
    if calls != [] {
      var front, last := calls[..|calls| - 1], calls[|calls| - 1];
      CompletedPerOss(remote, name, front, ip, n);
      EffectAt(Completed(remote, name, front), name, last, ip, n);
      if last.ip == ip {
        CompletedSnoc(remote, name, To(front, ip), last);
        EffectAt(Completed(remote, name, To(front, ip)), name, last, ip, n);
      } else {
        assert To(calls, ip) == To(front, ip);
      }
    }
  }

  /** Completion order does not matter: two orders that agree on each OSS end in the same rules. */
  lemma FanOutOrderIrrelevant(remote: Remote, name: string, a: seq<Call>, b: seq<Call>)
    requires forall ip :: To(a, ip) == To(b, ip)
    ensures Completed(remote, name, a) == Completed(remote, name, b)
  {
    forall ip, n ensures At(Completed(remote, name, a), ip, n) == At(Completed(remote, name, b), ip, n) {
      CompletedPerOss(remote, name, a, ip, n);
      CompletedPerOss(remote, name, b, ip, n);
    }
    SameRules(Completed(remote, name, a), Completed(remote, name, b));
  }

  // ---------- SetRules and RemoveRules as state changes ----------

  /** All installs attempted, those at `ok` having taken effect. */
  function Installed(remote: Remote, name: string, rates: map<string, uint32>, ok: set<string>): (r: Remote) {
    remote + map ip | ip in rates && ip in ok :: RuleKey(ip, name) := rates[ip]
  }

  function Dropped(remote: Remote, name: string, ips: set<string>): (r: Remote) {
    remote - set ip | ip in ips :: RuleKey(ip, name)
  }

  lemma InstalledAt(remote: Remote, name: string, rates: map<string, uint32>, ok: set<string>, ip: string, n: string)
    ensures At(Installed(remote, name, rates, ok), ip, n)
         == if n == name && ip in rates && ip in ok then Some(rates[ip]) else At(remote, ip, n)
  {
  }

  lemma DroppedAt(remote: Remote, name: string, ips: set<string>, ip: string, n: string)
    ensures At(Dropped(remote, name, ips), ip, n) == if n == name && ip in ips then None else At(remote, ip, n)
  {
  }

  /** The OSSs sent a RemoveRule after a partial failure: shipped, those whose install failed. */
  function CleanupTargets(cleansInstalled: bool, rates: map<string, uint32>, ok: set<string>): (t: set<string>) {
    if rates.Keys <= ok then {}
    else if cleansInstalled then rates.Keys * ok
    else rates.Keys - ok
  }

  /** What one OSS sees of a SetRules: the install, then the clean-up if it is a target. */
  function ExpectedCalls(rates: map<string, uint32>, ok: set<string>, targets: set<string>, gone: set<string>,
                         ip: string): (c: seq<Call>)
  {
    if ip !in rates then []
    else [SetCall(ip, rates[ip], ip in ok)] + if ip in targets then [DelCall(ip, ip in gone)] else []
  }

  /** Whatever the order in which the asynchronous calls complete, SetRulesAsync ends in the same
      remote rules: the installs that were accepted, minus those cleaned up. */
  lemma FanOutIsClosedForm(remote: Remote, name: string, rates: map<string, uint32>, ok: set<string>,
                           targets: set<string>, gone: set<string>, calls: seq<Call>)
    requires targets <= rates.Keys
    requires forall ip :: To(calls, ip) == ExpectedCalls(rates, ok, targets, gone, ip)
    ensures Completed(remote, name, calls) == Dropped(Installed(remote, name, rates, ok), name, targets * gone)
  {
    var want := Dropped(Installed(remote, name, rates, ok), name, targets * gone);
    forall ip, n ensures At(Completed(remote, name, calls), ip, n) == At(want, ip, n) {
      CompletedPerOss(remote, name, calls, ip, n);
      InstalledAt(remote, name, rates, ok, ip, n);
      DroppedAt(Installed(remote, name, rates, ok), name, targets * gone, ip, n);
      if ip in rates {
        var set1 := SetCall(ip, rates[ip], ip in ok);
        CompletedSnoc(remote, name, [], set1);
        EffectAt(remote, name, set1, ip, n);
        assert [] + [set1] == [set1];
        if ip in targets {
          CompletedSnoc(remote, name, [set1], DelCall(ip, ip in gone));
          EffectAt(Completed(remote, name, [set1]), name, DelCall(ip, ip in gone), ip, n);
        }
      }
    }
    SameRules(Completed(remote, name, calls), want);
  }

  /** `ok` are the OSSs that accept a SetRule, `gone` those where a RemoveRule takes effect. */
  function RulesSet(cleansInstalled: bool, ipOf: map<string, string>, s: RuleState, osts: seq<string>, id: string,
                    mbs: uint32, ok: set<string>, gone: set<string>): (r: (RuleState, bool))
  {
    if osts == [] || id in s.active then (s, false)
    else
      var ips := IpsOf(ipOf, osts);
      if ips.None? then (s, false)
      else
        var rates := RateMap(mbs, ips.value);
        var installed := Installed(s.remote, RuleName(id), rates, ok);
        if rates.Keys <= ok then
          (RuleState(s.active[id := RuleDefinition(RuleName(id), Unique(ips.value))], installed), true)
        else
          (s.(remote := Dropped(installed, RuleName(id), CleanupTargets(cleansInstalled, rates, ok) * gone)), false)
  }

  function RulesRemoved(s: RuleState, id: string, gone: set<string>): (r: (RuleState, bool)) {
    if id !in s.active then (s, false)
    else
      var d := s.active[id];
      (RuleState(s.active - {id}, Dropped(s.remote, d.name, (set ip | ip in d.ips) * gone)), true)
  }

  /** Neither operation for `id` touches a rule of another job. */
  lemma OtherJobsUntouched(cleansInstalled: bool, ipOf: map<string, string>, s: RuleState, osts: seq<string>,
                           id: string, mbs: uint32, ok: set<string>, gone: set<string>, other: string, ip: string)
    requires other != id
    requires id in s.active ==> s.active[id].name == RuleName(id)
    ensures var r := RulesSet(cleansInstalled, ipOf, s, osts, id, mbs, ok, gone).0;
            At(r.remote, ip, RuleName(other)) == At(s.remote, ip, RuleName(other))
    ensures var r := RulesRemoved(s, id, gone).0;
            At(r.remote, ip, RuleName(other)) == At(s.remote, ip, RuleName(other))
  {
    if RuleName(other) == RuleName(id) {
      RuleNameInjective(other, id);
    }
    var ips := IpsOf(ipOf, osts);
    if ips.Some? {
      var rates := RateMap(mbs, ips.value);
      InstalledAt(s.remote, RuleName(id), rates, ok, ip, RuleName(other));
      DroppedAt(Installed(s.remote, RuleName(id), rates, ok), RuleName(id),
                CleanupTargets(cleansInstalled, rates, ok) * gone, ip, RuleName(other));
    }
    if id in s.active {
      DroppedAt(s.remote, RuleName(id), (set x | x in s.active[id].ips) * gone, ip, RuleName(other));
    }
  }

  /** The IPs looked up are those of the OSTs. */
  lemma IpsCover(ipOf: map<string, string>, osts: seq<string>, ok: set<string>)
    ensures (IpsOf(ipOf, osts).Some? && forall ip :: ip in IpsOf(ipOf, osts).value ==> ip in ok)
       <==> forall o :: o in osts ==> o in ipOf && ipOf[o] != "" && ipOf[o] in ok
  {
    var ips := IpsOf(ipOf, osts);
    if ips.Some? {
      forall k | 0 <= k < |osts| ensures ips.value[k] == ipOf[osts[k]] && ips.value[k] in ips.value && osts[k] in osts {
      }
    }
  }

  /** SetRules succeeds, and remembers the job, iff the job is new, has OSTs with known IPs, and
      every install succeeds. */
  lemma SetRulesSucceedsIff(cleansInstalled: bool, ipOf: map<string, string>, s: RuleState, osts: seq<string>,
                            id: string, mbs: uint32, ok: set<string>, gone: set<string>)
    ensures var (r, success) := RulesSet(cleansInstalled, ipOf, s, osts, id, mbs, ok, gone);
            && (success <==> id !in s.active && id in r.active)
            && r.active.Keys == s.active.Keys + (if success then {id} else {})
            && (success <==> osts != [] && id !in s.active
                             && forall o :: o in osts ==> o in ipOf && ipOf[o] != "" && ipOf[o] in ok)
  {
    IpsCover(ipOf, osts, ok);
  }

  /** After a success exactly the aggregated rates are in place, on exactly the OSSs remembered. */
  lemma SetRulesInstalls(cleansInstalled: bool, ipOf: map<string, string>, s: RuleState, osts: seq<string>,
                         id: string, mbs: uint32, ok: set<string>, gone: set<string>, ip: string)
    requires RulesSet(cleansInstalled, ipOf, s, osts, id, mbs, ok, gone).1
    ensures var r, ips := RulesSet(cleansInstalled, ipOf, s, osts, id, mbs, ok, gone).0, IpsOf(ipOf, osts).value;
            && id in r.active && r.active[id].name == RuleName(id)
            && (ip in r.active[id].ips <==> ip in ips)
            && (ip in ips ==> At(r.remote, ip, RuleName(id)) == Some(Rate(mbs, ips, ip)))
            && (ip !in ips ==> At(r.remote, ip, RuleName(id)) == At(s.remote, ip, RuleName(id)))
  {
    var ips := IpsOf(ipOf, osts).value;
    UniqueIsExact(ips);
    InstalledAt(s.remote, RuleName(id), RateMap(mbs, ips), ok, ip, RuleName(id));
  }

  /** No rule of `id` is in place anywhere. */
  ghost predicate NoRuleOf(remote: Remote, id: string) {
    forall ip :: At(remote, ip, RuleName(id)) == None
  }

  /** What a failed SetRules leaves, rule by rule, whatever was in place before and whichever removals take
      effect. Without OSTs, for a job that has rules, or with an OST that is not known: everything as it
      was. Otherwise, at an OSS of the job: where the install was accepted the job's rate, unless the
      corrected clean-up took it away; where it was refused what was there, unless the shipped clean-up
      took that away. */
  lemma FailedSetRulesLeaves(cleansInstalled: bool, ipOf: map<string, string>, s: RuleState, osts: seq<string>,
                             id: string, mbs: uint32, ok: set<string>, gone: set<string>, ip: string, n: string)
    requires !RulesSet(cleansInstalled, ipOf, s, osts, id, mbs, ok, gone).1
    ensures var r := RulesSet(cleansInstalled, ipOf, s, osts, id, mbs, ok, gone).0;
            && r.active == s.active
            && if osts == [] || id in s.active || IpsOf(ipOf, osts).None? then r == s
               else
                 var ips := IpsOf(ipOf, osts).value;
                 At(r.remote, ip, n)
                 == if n != RuleName(id) || ip !in ips then At(s.remote, ip, n)
                    else if ip in ok then (if cleansInstalled && ip in gone then None else Some(Rate(mbs, ips, ip)))
                    else if !cleansInstalled && ip in gone then None
                    else At(s.remote, ip, n)
  {
    if osts != [] && id !in s.active && IpsOf(ipOf, osts).Some? {
      var rates := RateMap(mbs, IpsOf(ipOf, osts).value);
      InstalledAt(s.remote, RuleName(id), rates, ok, ip, n);
      DroppedAt(Installed(s.remote, RuleName(id), rates, ok), RuleName(id),
                CleanupTargets(cleansInstalled, rates, ok) * gone, ip, n);
    }
  }

  /** RemoveRules answers whether the job had rules; then it forgets them, and takes them away where the
      removals take effect. Otherwise nothing changes. */
  lemma RemovedRulesAre(s: RuleState, id: string, gone: set<string>, ip: string, n: string)
    ensures var (r, found) := RulesRemoved(s, id, gone);
            && (found <==> id in s.active)
            && (!found ==> r == s)
            && (found ==> r.active == s.active - {id})
            && (found ==> At(r.remote, ip, n)
                          == if n == s.active[id].name && ip in s.active[id].ips && ip in gone then None
                             else At(s.remote, ip, n))
  {
    if id in s.active {
      DroppedAt(s.remote, s.active[id].name, (set x | x in s.active[id].ips) * gone, ip, n);
    }
  }

  /** With removals that take effect, a failed SetRules leaves every rule as it was iff the clean-up
      goes to the OSSs that accepted their install, or no OSS accepted. */
  lemma FailedSetRulesRestores(cleansInstalled: bool, ipOf: map<string, string>, s: RuleState, osts: seq<string>,
                               id: string, mbs: uint32, ok: set<string>, gone: set<string>)
    requires NoRuleOf(s.remote, id) && IpsOf(ipOf, osts).Some? && osts != [] && id !in s.active
    requires !RulesSet(cleansInstalled, ipOf, s, osts, id, mbs, ok, gone).1
    requires forall x :: x in IpsOf(ipOf, osts).value ==> x in gone
    ensures RulesSet(cleansInstalled, ipOf, s, osts, id, mbs, ok, gone).0 == s
       <==> (cleansInstalled || forall ip :: ip in IpsOf(ipOf, osts).value ==> ip !in ok)
  {
    var r := RulesSet(cleansInstalled, ipOf, s, osts, id, mbs, ok, gone).0;
    forall ip, n {
      FailedSetRulesLeaves(cleansInstalled, ipOf, s, osts, id, mbs, ok, gone, ip, n);
    }
    FailedSetRulesLeaves(cleansInstalled, ipOf, s, osts, id, mbs, ok, gone, "", "");
    if cleansInstalled || forall ip :: ip in IpsOf(ipOf, osts).value ==> ip !in ok {
      SameRules(r.remote, s.remote);
    } else {
      var ip :| ip in IpsOf(ipOf, osts).value && ip in ok;
      assert At(r.remote, ip, RuleName(id)) != At(s.remote, ip, RuleName(id));
    }
  }

  /** Setting and then removing a job's rules is invisible, if removals take effect. */
  lemma SetThenRemoveRestores(cleansInstalled: bool, ipOf: map<string, string>, s: RuleState, osts: seq<string>,
                              id: string, mbs: uint32, ok: set<string>, gone: set<string>)
    requires NoRuleOf(s.remote, id)
    requires RulesSet(cleansInstalled, ipOf, s, osts, id, mbs, ok, gone).1
    requires forall x :: x in IpsOf(ipOf, osts).value ==> x in gone
    ensures RulesRemoved(RulesSet(cleansInstalled, ipOf, s, osts, id, mbs, ok, gone).0, id, gone) == (s, true)
  {
    var ips := IpsOf(ipOf, osts).value;
    UniqueIsExact(ips);
    var mid := RulesSet(cleansInstalled, ipOf, s, osts, id, mbs, ok, gone).0;
    var r := RulesRemoved(mid, id, gone).0;
    forall ip, n ensures At(r.remote, ip, n) == At(s.remote, ip, n) {
      InstalledAt(s.remote, RuleName(id), RateMap(mbs, ips), ok, ip, n);
      DroppedAt(mid.remote, RuleName(id), (set x | x in Unique(ips)) * gone, ip, n);
    }
    SameRules(r.remote, s.remote);
    assert r.active == s.active;
  }

  /** Every rule in place anywhere is one the manager remembers. */
  ghost predicate Remembered(s: RuleState, ip: string, name: string) {
    exists id :: id in s.active && RuleName(id) == name && ip in s.active[id].ips
  }

  ghost predicate NoOrphans(s: RuleState) {
    && (forall id :: id in s.active ==> s.active[id].name == RuleName(id))
    && (forall ip, name :: At(s.remote, ip, name) != None ==> Remembered(s, ip, name))
  }

  lemma SetRulesLeavesNoOrphans(ipOf: map<string, string>, s: RuleState, osts: seq<string>, id: string, mbs: uint32,
                                ok: set<string>, gone: set<string>)
    requires NoOrphans(s)
    requires IpsOf(ipOf, osts).Some? ==> forall ip :: ip in IpsOf(ipOf, osts).value ==> ip in gone
    ensures NoOrphans(RulesSet(true, ipOf, s, osts, id, mbs, ok, gone).0)
  {
    var (r, success) := RulesSet(true, ipOf, s, osts, id, mbs, ok, gone);
    if success {
      forall ip, name | At(r.remote, ip, name) != None ensures Remembered(r, ip, name) {
        SetRulesInstalls(true, ipOf, s, osts, id, mbs, ok, gone, ip);
        InstalledAt(s.remote, RuleName(id), RateMap(mbs, IpsOf(ipOf, osts).value), ok, ip, name);
        if At(s.remote, ip, name) != None {
          var k :| k in s.active && RuleName(k) == name && ip in s.active[k].ips;
          assert k in r.active && r.active[k] == s.active[k];
        } else {
          assert id in r.active && RuleName(id) == name && ip in r.active[id].ips;
        }
      }
    } else if osts != [] && id !in s.active && IpsOf(ipOf, osts).Some? {
      forall ip ensures At(s.remote, ip, RuleName(id)) == None {
        if At(s.remote, ip, RuleName(id)) != None {
          var k :| k in s.active && RuleName(k) == RuleName(id) && ip in s.active[k].ips;
          RuleNameInjective(k, id);
        }
      }
      FailedSetRulesRestores(true, ipOf, s, osts, id, mbs, ok, gone);
    }
  }

  lemma RemoveRulesLeavesNoOrphans(s: RuleState, id: string, gone: set<string>)
    requires NoOrphans(s) && (id in s.active ==> forall ip :: ip in s.active[id].ips ==> ip in gone)
    ensures NoOrphans(RulesRemoved(s, id, gone).0)
  {
    var r := RulesRemoved(s, id, gone).0;
    if id in s.active {
      forall ip, name | At(r.remote, ip, name) != None ensures Remembered(r, ip, name) {
        DroppedAt(s.remote, RuleName(id), (set x | x in s.active[id].ips) * gone, ip, name);
        var k :| k in s.active && RuleName(k) == name && ip in s.active[k].ips;
        assert k != id;
        assert k in r.active && r.active[k] == s.active[k];
      }
    }
  }
}
