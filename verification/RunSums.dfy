// Sums over the results of a run: what the bandit's values and the tenants' latencies add up to.
module RunSums {
  import opened Numbers
  import opened Dicts
  import opened Requests
  import opened Selection
  import opened PolicyState
  import opened ControlModel
  import opened ControlRun
  import opened RunTheorems
  import opened Routing
  import opened RoutedRuns
  import CacheModel

  function SumWhere(results: seq<Result>, p: Result -> bool, f: Result -> real): real {
    if |results| == 0 then 0.0
    else SumWhere(results[..|results| - 1], p, f) + (if p(results[|results| - 1]) then f(results[|results| - 1]) else 0.0)
  }

  lemma SumWhereAppend(results: seq<Result>, x: Result, p: Result -> bool, f: Result -> real)
    ensures SumWhere(results + [x], p, f) == SumWhere(results, p, f) + (if p(x) then f(x) else 0.0)
  {
    assert (results + [x])[..|results|] == results;
  }

  // ----- rewards

  // Meeting the limit earns 120 and missing it costs 108; on top of that a full hit earns 60,
  // and a millisecond costs 0.08 and a dollar 9.
  function Earned(results: seq<Result>, k: CacheModel.Site): real {
    120.0 * Tally(results, (x: Result) => x.site == k && x.admitted && x.slaMet) as real
    - 108.0 * Tally(results, (x: Result) => x.site == k && x.admitted && !x.slaMet) as real
    + 60.0 * SumWhere(results, AdmittedAt(k), (x: Result) => x.hitRatio)
    - 0.08 * SumWhere(results, AdmittedAt(k), (x: Result) => x.totalMs)
    - 9.0 * SumWhere(results, AdmittedAt(k), (x: Result) => x.costUsd)
  }

  lemma {:induction false} RewardsAreEarned(results: seq<Result>, k: CacheModel.Site)
    ensures Sum(RewardsAt(History(results), k)) == Earned(results, k)
  {
    if |results| > 0 {
      var init, x := results[..|results| - 1], results[|results| - 1];
      RewardsAreEarned(init, k);
      var h := History(init);
      if x.admitted {
        assert History(results)[..|h|] == h;
        var before := RewardsAt(h, k);
        if x.site == k {
          SumAppend(before, RewardOf(x));
        } else {
          assert before + [] == before;
        }
      } else {
        assert History(results) == h;
      }
    }
  }

  // In every run the bandit's value of a pool, times the requests admitted there, is what they
  // earned.
  lemma BanditValuesAreEarned(cfg: Config, bonus: real, calls: Calls, k: CacheModel.Site)
    requires GoodConfig(cfg) && ValidCalls(calls)
    ensures var rr := RoutedRun(cfg, BanditName(bonus), calls);
            var results := rr.st.metrics.results;
            && rr.policy.Learner?
            && Times(Tally(results, AdmittedAt(k)), Get(rr.policy.bandit.value, k, 0.0)) == Earned(results, k)
  {
    BanditKeepsMeanRewards(cfg, bonus, calls, k);
    RewardsAreEarned(RoutedRun(cfg, BanditName(bonus), calls).st.metrics.results, k);
  }

  // ----- latencies

  ghost predicate LatenciesKept(tenants: Dict<string, TenantStats>, results: seq<Result>, t: string) {
    Get(tenants, t, NO_STATS).totalLatencyMs == SumWhere(results, CompletedOf(t), (x: Result) => x.totalMs)
  }

  lemma StepKeepsLatencies(cfg: Config, st: RunState, r: Request, choice: nat, t: string)
    requires GoodConfig(cfg) && choice < |cfg.pools| == |st.sys.pools| && Slotted(st.sys)
    requires LatenciesKept(st.sys.tenants, st.metrics.results, t)
    ensures var after := Step(cfg, st, r, choice); LatenciesKept(after.sys.tenants, after.metrics.results, t)
  {
    var prepared := Prepared(cfg, st.sys, r);
    var o := Execute(cfg, prepared, r, r.arrival, choice);
    PutGet(st.sys.tenants, r.tenantId, Noted(Get(st.sys.tenants, r.tenantId, NO_STATS)), t, NO_STATS);
    if o.Done? {
      ExecuteAccounts(cfg, prepared, r, r.arrival, choice);
      ServedLatency(prepared.tenants, st.metrics.results, o.result, t);
    } else {
      ExecuteRaises(cfg, prepared, r, r.arrival, choice);
    }
  }

  lemma ServedLatency(tenants: Dict<string, TenantStats>, results: seq<Result>, x: Result, t: string)
    requires LatenciesKept(tenants, results, t)
    ensures LatenciesKept(TenantsAfter(tenants, x), results + [x], t)
  {
    var who := x.request.tenantId;
    PutGet(tenants, who, Served(Get(tenants, who, NO_STATS), x), t, NO_STATS);
    SumWhereAppend(results, x, CompletedOf(t), (x: Result) => x.totalMs);
  }

  // In every run a tenant's total latency is that of its completed requests.
  lemma {:induction false} RunKeepsLatencies(cfg: Config, trace: Trace, t: string)
    requires GoodConfig(cfg) && ValidTrace(cfg, trace)
    ensures LatenciesKept(Run(cfg, trace).sys.tenants, Run(cfg, trace).metrics.results, t)
  {
    if |trace| > 0 {
      var init, last := trace[..|trace| - 1], trace[|trace| - 1];
      RunKeepsLatencies(cfg, init, t);
      if !Run(cfg, init).raised {
        StepKeepsLatencies(cfg, Run(cfg, init), last.0, last.1, t);
      }
    }
  }
}
