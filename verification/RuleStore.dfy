// The rule manager as an object (src/common/RuleManager.cpp). What the OSSs answer is decided outside, and may
// be different in every round of calls; only what they take changes the remote rules.
module RuleStore {
  import opened Jobs
  import opened Rules

  class RuleSetter {
    const takesInstall: nat -> set<string>    // by round, the OSSs that take an install
    const takesRemoval: nat -> set<string>    // ... and those that take a removal
    var round: nat
    ghost var remote: Remote

    constructor (takesInstall: nat -> set<string>, takesRemoval: nat -> set<string>)
      ensures this.takesInstall == takesInstall && this.takesRemoval == takesRemoval
      ensures round == 0 && remote == map[]
    {
      this.takesInstall, this.takesRemoval := takesInstall, takesRemoval;
      round, remote := 0, map[];
    }

    function Accepts(): (ips: set<string>)
      reads this`round
    {
      takesInstall(round)
    }

    function Removes(): (ips: set<string>)
      reads this`round
    {
      takesRemoval(round)
    }

    /** From now on the OSSs may answer differently. */
    method NextRound()
      modifies this`round
      ensures round == old(round) + 1
    {
      round := round + 1;
    }

    method SetRule(ip: string, jobid: string, ruleName: string, rate: uint32) returns (ok: bool)
      modifies this`remote
      ensures ok == (ip in Accepts())
      ensures remote == if ok then old(remote)[RuleKey(ip, ruleName) := rate] else old(remote)
    {
      ok := ip in Accepts();
      if ok {
        remote := remote[RuleKey(ip, ruleName) := rate];
      }
    }

    method RemoveRule(ip: string, ruleName: string, jobid: string) returns (ok: bool)
      modifies this`remote
      ensures ok == (ip in Removes())
      ensures remote == if ok then old(remote) - {RuleKey(ip, ruleName)} else old(remote)
    {
      ok := ip in Removes();
      if ok {
        remote := remote - {RuleKey(ip, ruleName)};
      }
    }
  }

  lemma InstalledStep(remote: Remote, name: string, rates: map<string, uint32>, ok: set<string>, ip: string)
    requires ip in rates
    ensures Installed(remote, name, rates, ok + {ip})
         == Installed(remote, name, rates, ok)[RuleKey(ip, name) := rates[ip]]
  {
    var a := Installed(remote, name, rates, ok + {ip});
    var b := Installed(remote, name, rates, ok)[RuleKey(ip, name) := rates[ip]];
    forall x, n ensures At(a, x, n) == At(b, x, n) {
      InstalledAt(remote, name, rates, ok + {ip}, x, n);
      InstalledAt(remote, name, rates, ok, x, n);
    }
    SameRules(a, b);
  }

  /** Only the OSSs that are asked matter. */
  lemma InstalledWhere(remote: Remote, name: string, rates: map<string, uint32>, ok: set<string>)
    ensures Installed(remote, name, rates, rates.Keys * ok) == Installed(remote, name, rates, ok)
  {
    var a, b := Installed(remote, name, rates, rates.Keys * ok), Installed(remote, name, rates, ok);
    forall x, n ensures At(a, x, n) == At(b, x, n) {
      InstalledAt(remote, name, rates, rates.Keys * ok, x, n);
      InstalledAt(remote, name, rates, ok, x, n);
    }
    SameRules(a, b);
  }

  lemma DroppedStep(remote: Remote, name: string, ips: set<string>, ip: string)
    ensures Dropped(remote, name, ips + {ip}) == Dropped(remote, name, ips) - {RuleKey(ip, name)}
  {
    var a, b := Dropped(remote, name, ips + {ip}), Dropped(remote, name, ips) - {RuleKey(ip, name)};
    forall x, n ensures At(a, x, n) == At(b, x, n) {
      DroppedAt(remote, name, ips + {ip}, x, n);
      DroppedAt(remote, name, ips, x, n);
    }
    SameRules(a, b);
  }

  lemma DropNothing(r: Remote, installed: Remote, name: string, gone: set<string>)
    requires r == Dropped(installed, name, {} * gone)
    ensures r == installed
  {
    assert (set ip | ip in {} * gone :: RuleKey(ip, name)) == {};
  }

  lemma {:induction false} UnknownOst(ipOf: map<string, string>, osts: seq<string>, k: nat)
    requires k < |osts| && (osts[k] !in ipOf || ipOf[osts[k]] == "")
    ensures IpsOf(ipOf, osts) == None
  {
    if k < |osts| - 1 {
      UnknownOst(ipOf, osts[..|osts| - 1], k);
    }
  }

  lemma RateSnoc(mbs: uint32, ips: seq<string>, ip: string, x: string)
    requires x == ip || x in ips
    ensures Rate(mbs, ips + [ip], x)
         == if x != ip then Rate(mbs, ips, x)
            else if ip in ips then (Rate(mbs, ips, x) + mbs) % TWO_TO_THE_32
            else mbs
  {
    CountAppend(ips, ip, x);
    if x == ip {
      AddOnce(mbs, Count(ips, ip));
      if ip !in ips {
        CountAbsent(ips, ip);
        assert mbs * 1 == mbs;
      }
    }
  }

  lemma RateMapSnoc(mbs: uint32, ips: seq<string>, ip: string)
    ensures RateMap(mbs, ips + [ip])
         == RateMap(mbs, ips)[ip := if ip in ips then (RateMap(mbs, ips)[ip] + mbs) % TWO_TO_THE_32 else mbs]
    ensures Unique(ips + [ip]) == if ip in ips then Unique(ips) else Unique(ips) + [ip]
  {
    assert (ips + [ip])[..|ips|] == ips;
    forall x | x == ip || x in ips {
      RateSnoc(mbs, ips, ip, x);
    }
    var a := RateMap(mbs, ips + [ip]);
    var b := RateMap(mbs, ips)[ip := if ip in ips then (RateMap(mbs, ips)[ip] + mbs) % TWO_TO_THE_32 else mbs];
    assert a.Keys == b.Keys;
    forall x | x in a ensures a[x] == b[x] {
      RateSnoc(mbs, ips, ip, x);
    }
  }

  /** One turn of the folding loop. */
  lemma RateMapNext(mbs: uint32, ips: seq<string>, i: nat)
    requires i < |ips|
    ensures var ip, m := ips[i], RateMap(mbs, ips[..i]);
            && (ip in m <==> ip in ips[..i])
            && RateMap(mbs, ips[..i + 1]) == m[ip := if ip in m then (m[ip] + mbs) % TWO_TO_THE_32 else mbs]
            && Unique(ips[..i + 1]) == if ip in m then Unique(ips[..i]) else Unique(ips[..i]) + [ip]
  {
    assert ips[..i + 1] == ips[..i] + [ips[i]];
    RateMapSnoc(mbs, ips[..i], ips[i]);
  }

  /** Of `all` everything but `todo` has been asked, and `took` is what was taken. */
  ghost predicate Asked(all: set<string>, todo: set<string>, taking: set<string>, took: set<string>) {
    todo <= all && took == (all - todo) * taking
  }

  lemma AskedNext(all: set<string>, todo: set<string>, taking: set<string>, took: set<string>, ip: string)
    requires Asked(all, todo, taking, took) && ip in todo
    ensures Asked(all, todo - {ip}, taking, if ip in taking then took + {ip} else took)
  {
  }

  lemma AllAsked(all: set<string>, taking: set<string>, took: set<string>)
    requires Asked(all, {}, taking, took)
    ensures took == all * taking
  {
  }

  class RuleManager {
    const cleansInstalled: bool
    const ipOf: map<string, string>
    const ruleSetter: RuleSetter
    var activeRules: map<string, RuleDefinition>

    constructor (cleansInstalled: bool, ipOf: map<string, string>, ruleSetter: RuleSetter)
      ensures this.cleansInstalled == cleansInstalled && this.ipOf == ipOf && this.ruleSetter == ruleSetter
      ensures activeRules == map[]
    {
      this.cleansInstalled, this.ipOf, this.ruleSetter := cleansInstalled, ipOf, ruleSetter;
      activeRules := map[];
    }

    ghost function View(): RuleState
      reads this, ruleSetter
    {
      RuleState(activeRules, ruleSetter.remote)
    }

    method ComputeOssToMBsAndCountUnique(mbs: uint32, ostIps: seq<string>)
      returns (ossToMbs: map<string, uint32>, uniqueOstIps: seq<string>)
      ensures ossToMbs == RateMap(mbs, ostIps) && uniqueOstIps == Unique(ostIps)
      ensures Distinct(uniqueOstIps) && ossToMbs.Keys == set ip | ip in uniqueOstIps
    {
      ossToMbs, uniqueOstIps := map[], [];
      for i := 0 to |ostIps|
        invariant ossToMbs == RateMap(mbs, ostIps[..i]) && uniqueOstIps == Unique(ostIps[..i])
      {
        var ip := ostIps[i];
        RateMapNext(mbs, ostIps, i);
        if ip in ossToMbs {
          ossToMbs := ossToMbs[ip := (ossToMbs[ip] + mbs) % TWO_TO_THE_32];
        } else {
          ossToMbs := ossToMbs[ip := mbs];
          uniqueOstIps := uniqueOstIps + [ip];
        }
      }
      assert ostIps[..|ostIps|] == ostIps;
      UniqueIsExact(ostIps);
      assert ossToMbs.Keys == set ip | ip in ostIps;
    }

    method DetermineOstIps(ostIds: seq<string>) returns (ostIps: Option<seq<string>>)
      ensures ostIps == IpsOf(ipOf, ostIds)
    {
      var ips: seq<string> := [];
      for i := 0 to |ostIds|
        invariant IpsOf(ipOf, ostIds[..i]) == Some(ips)
      {
        var id := ostIds[i];
        assert ostIds[..i + 1] == ostIds[..i] + [id];
        if id !in ipOf || ipOf[id] == "" {
          UnknownOst(ipOf, ostIds, i);
          return None;
        }
        ips := ips + [ipOf[id]];
      }
      assert ostIds[..|ostIds|] == ostIds;
      return Some(ips);
    }

    /** One install per OSS, then one removal per clean-up target. */
    method SetRulesAsync(rates: map<string, uint32>, jobid: string, ruleName: string) returns (success: bool)
      modifies ruleSetter`remote
      ensures success == (rates.Keys <= ruleSetter.Accepts())
      ensures ruleSetter.remote
           == Dropped(Installed(old(ruleSetter.remote), ruleName, rates, ruleSetter.Accepts()), ruleName,
                      CleanupTargets(cleansInstalled, rates, ruleSetter.Accepts()) * ruleSetter.Removes())
    {
      var accepted := InstallAll(rates, jobid, ruleName);
      var targets := if cleansInstalled then (if rates.Keys <= accepted then {} else accepted)
                     else rates.Keys - accepted;
      assert targets == CleanupTargets(cleansInstalled, rates, ruleSetter.Accepts());
      RemoveAll(targets, jobid, ruleName);
      success := rates.Keys <= accepted;
    }

    method InstallAll(rates: map<string, uint32>, jobid: string, ruleName: string) returns (accepted: set<string>)
      modifies ruleSetter`remote
      ensures accepted == rates.Keys * ruleSetter.Accepts()
      ensures ruleSetter.remote == Installed(old(ruleSetter.remote), ruleName, rates, ruleSetter.Accepts())
    {
      accepted := {};
      ghost var before, taking := ruleSetter.remote, ruleSetter.Accepts();
      assert Installed(before, ruleName, rates, accepted) == before;
      var todo := rates.Keys;
      while todo != {}
        invariant forall ip :: ip in todo ==> ip in rates
        invariant Asked(rates.Keys, todo, taking, accepted)
        invariant ruleSetter.remote == Installed(before, ruleName, rates, accepted)
        decreases |todo|
      {
        var ip :| ip in todo;
        AskedNext(rates.Keys, todo, taking, accepted, ip);
        InstalledStep(before, ruleName, rates, accepted, ip);
        var took := ruleSetter.SetRule(ip, jobid, ruleName, rates[ip]);
        if took {
          accepted := accepted + {ip};
        }
        todo := todo - {ip};
      }
      AllAsked(rates.Keys, taking, accepted);
      InstalledWhere(before, ruleName, rates, taking);
    }

    method RemoveAll(ips: set<string>, jobid: string, ruleName: string)
      modifies ruleSetter`remote
      ensures ruleSetter.remote == Dropped(old(ruleSetter.remote), ruleName, ips * ruleSetter.Removes())
    {
      ghost var before, taking, gone := ruleSetter.remote, ruleSetter.Removes(), {};
      assert Dropped(before, ruleName, gone) == before;
      var todo := ips;
      while todo != {}
        invariant Asked(ips, todo, taking, gone)
        invariant ruleSetter.remote == Dropped(before, ruleName, gone)
        decreases |todo|
      {
        var ip :| ip in todo;
        AskedNext(ips, todo, taking, gone, ip);
        DroppedStep(before, ruleName, gone, ip);
        var took := ruleSetter.RemoveRule(ip, ruleName, jobid);
        if took {
          gone := gone + {ip};
        }
        todo := todo - {ip};
      }
      AllAsked(ips, taking, gone);
    }

    method SetRules(ostIds: seq<string>, jobid: string, mbs: uint32) returns (success: bool)
      modifies this, ruleSetter`remote
      ensures (View(), success)
           == RulesSet(cleansInstalled, ipOf, old(View()), ostIds, jobid, mbs, ruleSetter.Accepts(),
                       ruleSetter.Removes())
    {
      if ostIds == [] || jobid in activeRules {
        return false;
      }
      var ostIps := DetermineOstIps(ostIds);
      if ostIps.None? {
        return false;
      }
      var ossToMbs, uniqueOstIps := ComputeOssToMBsAndCountUnique(mbs, ostIps.value);
      var ruleName := "_qosp" + jobid;
      success := SetRulesAsync(ossToMbs, jobid, ruleName);
      if !success {
        return;
      }
      DropNothing(ruleSetter.remote, Installed(old(ruleSetter.remote), ruleName, ossToMbs, ruleSetter.Accepts()),
                  ruleName, ruleSetter.Removes());
      activeRules := activeRules[jobid := RuleDefinition(ruleName, uniqueOstIps)];
    }

    method RemoveRules(jobid: string) returns (found: bool)
      modifies this, ruleSetter`remote
      ensures (View(), found) == RulesRemoved(old(View()), jobid, ruleSetter.Removes())
    {
      if jobid !in activeRules {
        return false;
      }
      var d := activeRules[jobid];
      var ips := set ip | ip in d.ips;
      RemoveAll(ips, jobid, d.name);
      activeRules := activeRules - {jobid};
      return true;
    }
  }
}
