// The metrics collector and the request loop of the simulation.
module Engine {
  import opened Numbers
  import opened Dicts
  import opened Requests
  import opened ControlModel
  import opened ControlRun
  import opened RunTheorems
  import opened Routing
  import opened RoutedRuns
  import opened Runtime
  import Statistics

  class MetricsCollector {
    var results: seq<Result>
    var tenantSubmitted: Dict<string, nat>
    var tenantCompleted: Dict<string, nat>

    constructor ()
      ensures View() == Metrics([], [], [])
    {
      results, tenantSubmitted, tenantCompleted := [], [], [];
    }

    function View(): Metrics
      reads this
    {
      Metrics(results, tenantSubmitted, tenantCompleted)
    }

    method NoteSubmission(tenantId: string)
      modifies this`tenantSubmitted
      ensures View() == Submitted(old(View()), tenantId)
    {
      tenantSubmitted := Put(tenantSubmitted, tenantId, Get(tenantSubmitted, tenantId, 0) + 1);
    }

    method Record(x: Result)
      modifies this`results, this`tenantCompleted
      ensures View() == Recorded(old(View()), x)
    {
      var t := x.request.tenantId;
      results := results + [x];
      tenantCompleted := Put(tenantCompleted, t, Get(tenantCompleted, t, 0) + (if x.admitted then 1 else 0));
    }
  }

  // Everything before the choice.
  method Prepare(cp: ControlPlane, metrics: MetricsCollector, r: Request, ghost start: System, ghost policy: ActivePolicy,
                 ghost book: Metrics)
    requires cp.Valid() && cp.View() == start && cp.router.View() == policy && metrics.View() == book
    modifies cp`tenantStats, cp.pools, cp.cache, metrics
    ensures cp.Valid() && cp.View() == Prepared(cp.cfg, start, r) && cp.router.View() == policy
    ensures metrics.View() == Submitted(book, r.tenantId)
  {
    cp.Refresh(r.arrival);
    cp.NoteSubmission(r);
    metrics.NoteSubmission(r.tenantId);
  }

  // The record of an execution, once it is over.
  method Conclude(cp: ControlPlane, metrics: MetricsCollector, e: Execution, ghost sys: System, ghost policy: ActivePolicy,
                  ghost book: Metrics)
    returns (ok: bool)
    requires cp.Valid() && cp.View() == sys && cp.router.View() == policy && metrics.View() == book
    modifies metrics
    ensures cp.Valid() && cp.View() == sys && cp.router.View() == policy
    ensures RunState(sys, metrics.View(), !ok) == Concluded(OutcomeOf(e, sys), book)
  {
    ok := e.Finished?;
    if ok {
      metrics.Record(e.result);
    }
  }

  // The choice of pool k for a request, its execution with this outcome, and the record of it.
  ghost predicate Taken(cfg: Config, sys: System, policy: ActivePolicy, book: Metrics, r: Request, n: Natives, k: nat,
                        o: Outcome, st': RunState, policy': ActivePolicy)
    requires GoodConfig(cfg) && |sys.pools| == |cfg.pools| && Slotted(sys)
  {
    && k == Chosen(cfg, sys, policy, r, n).0 && o == ControlModel.Execute(cfg, sys, r, r.arrival, k)
    && policy' == AfterOutcome(Chosen(cfg, sys, policy, r, n).1, o) && st' == Concluded(o, book)
  }

  method ExecuteAndRecord(cp: ControlPlane, metrics: MetricsCollector, r: Request, n: Natives,
                          ghost start: System, ghost policy: ActivePolicy, ghost book: Metrics)
    returns (ok: bool, ghost k: nat, ghost o: Outcome)
    requires cp.Valid() && cp.View() == start && cp.router.View() == policy && metrics.View() == book
    modifies cp`tenantStats, cp.pools, cp.cache, cp.router.roundRobin, cp.router.spread, cp.router.bandit, metrics
    ensures cp.Valid() && |start.pools| == |cp.cfg.pools| && Slotted(start)
    ensures Taken(cp.cfg, start, policy, book, r, n, k, o, RunState(cp.View(), metrics.View(), !ok), cp.router.View())
  {
    var e;
    e, k := cp.Execute(r, r.arrival, n, start, policy);
    o := OutcomeOf(e, cp.View());
    ok := Conclude(cp, metrics, e, cp.View(), cp.router.View(), book);
  }

  // The whole simulation as one step of a routed run sees it.
  ghost function Now(cp: ControlPlane, metrics: MetricsCollector, ok: bool, trace: Trace): Routed
    reads cp, cp.pools, cp.cache, cp.router.roundRobin, cp.router.spread, cp.router.bandit, metrics
  {
    Routed(RunState(cp.View(), metrics.View(), !ok), cp.router.View(), trace)
  }

  lemma TakenIsStep(cfg: Config, before: Routed, sys: System, r: Request, n: Natives, k: nat, o: Outcome, after: Routed)
    requires GoodConfig(cfg) && |before.st.sys.pools| == |sys.pools| == |cfg.pools| && Slotted(before.st.sys) && Slotted(sys)
    requires sys == Prepared(cfg, before.st.sys, r) && after.trace == before.trace + [(r, k)]
    requires Taken(cfg, sys, before.policy, Submitted(before.st.metrics, r.tenantId), r, n, k, o, after.st, after.policy)
    ensures after == RoutedStep(cfg, before, r, n)
  {
    var k', policy, o', after' := StepParts(cfg, before, r, n);
  }

  /** One turn of the loop. */
  method Turn(cp: ControlPlane, metrics: MetricsCollector, r: Request, n: Natives, ghost before: Routed)
    returns (ok: bool, ghost after: Routed)
    requires cp.Valid() && before == Now(cp, metrics, true, before.trace)
    modifies cp`tenantStats, cp.pools, cp.cache, cp.router.roundRobin, cp.router.spread, cp.router.bandit, metrics
    ensures cp.Valid() && after == Now(cp, metrics, ok, after.trace) && after == RoutedStep(cp.cfg, before, r, n)
  {
    Prepare(cp, metrics, r, before.st.sys, before.policy, before.st.metrics);
    ghost var sys, book := cp.View(), metrics.View();
    ghost var k, o;
    ok, k, o := ExecuteAndRecord(cp, metrics, r, n, sys, before.policy, book);
    after := Now(cp, metrics, ok, before.trace + [(r, k)]);
    TakenIsStep(cp.cfg, before, sys, r, n, k, o, after);
  }

  lemma {:induction false} RaisedStays(cfg: Config, name: PolicyName, calls: Calls, i: nat)
    requires GoodConfig(cfg) && ValidCalls(calls) && i <= |calls| && RoutedRun(cfg, name, calls[..i]).st.raised
    ensures RoutedRun(cfg, name, calls) == RoutedRun(cfg, name, calls[..i])
  {
    if i < |calls| {
      var init := calls[..|calls| - 1];
      assert init[..i] == calls[..i];
      RaisedStays(cfg, name, init, i);
    } else {
      assert calls[..i] == calls;
    }
  }

  lemma PrefixGrows(calls: Calls, i: nat)
    requires i < |calls|
    ensures calls[..i + 1] == calls[..i] + [(calls[i].0, calls[i].1)]
  {
  }

  lemma NextCall(cfg: Config, name: PolicyName, calls: Calls, i: nat) returns (before: Routed, after: Routed)
    requires GoodConfig(cfg) && ValidCalls(calls) && i < |calls| && !RoutedRun(cfg, name, calls[..i]).st.raised
    ensures before == RoutedRun(cfg, name, calls[..i]) && after == RoutedRun(cfg, name, calls[..i + 1])
    ensures after == RoutedStep(cfg, before, calls[i].0, calls[i].1)
  {
    PrefixGrows(calls, i);
    before, after := OneMoreCall(cfg, name, calls[..i], calls[..i + 1], calls[i].0, calls[i].1);
  }

  // The run has ended, of itself or by an exception.
  lemma RunOver(cfg: Config, name: PolicyName, calls: Calls, i: nat)
    requires GoodConfig(cfg) && ValidCalls(calls) && i <= |calls|
    requires i == |calls| || RoutedRun(cfg, name, calls[..i]).st.raised
    ensures var after := RoutedRun(cfg, name, calls);
            after == RoutedRun(cfg, name, calls[..i]) && after.st == Run(cfg, after.trace)
  {
    RoutedRunIsRun(cfg, name, calls);
    if i == |calls| {
      assert calls[..i] == calls;
    } else {
      RaisedStays(cfg, name, calls, i);
    }
  }

  /** Runs the requests, in the order they come, through a new control plane with the given
      policy; each request comes with the native selectors that answer it.  A false `ok` is the
      exception that ended the run early. */
  method Simulate(cfg: Config, policy: PolicyName, calls: Calls)
    returns (cp: ControlPlane, metrics: MetricsCollector, ok: bool, ghost trace: Trace)
    requires GoodConfig(cfg) && ValidCalls(calls)
    ensures cp.Valid() && cp.cfg == cfg
    ensures Now(cp, metrics, ok, trace) == RoutedRun(cfg, policy, calls)
    ensures ValidTrace(cfg, trace) && Run(cfg, trace) == RunState(cp.View(), metrics.View(), !ok)
  {
    cp := new ControlPlane(cfg, policy);
    metrics := new MetricsCollector();
    ok, trace := true, [];
    ghost var now := Now(cp, metrics, ok, trace);
    var i := 0;
    while ok && i < |calls|
      invariant 0 <= i <= |calls| && cp.Valid() && cp.cfg == cfg
      invariant fresh(cp) && fresh(metrics) && fresh(cp.cache)
      invariant fresh(cp.router.roundRobin) && fresh(cp.router.spread) && fresh(cp.router.bandit)
      invariant forall j :: 0 <= j < |cp.pools| ==> fresh(cp.pools[j])
      invariant now == Now(cp, metrics, ok, trace) && now == RoutedRun(cfg, policy, calls[..i])
    {
      ghost var before, after := NextCall(cfg, policy, calls, i);
      ok, now := Turn(cp, metrics, calls[i].0, calls[i].1, now);
      trace := now.trace;
      i := i + 1;
    }
    RunOver(cfg, policy, calls, i);
  }

  // ----- the report

  function ShareOf(completed: nat, submitted: nat): (x: real)
    ensures x >= 0.0
  {
    completed as real / (if submitted < 1 then 1 else submitted) as real
  }

  // The share of its submitted requests each tenant had completed, as the report computes it.
  function CompletionShares(m: Metrics, tenants: Dict<string, nat>): (r: seq<real>)
    ensures |r| == |tenants|
  {
    if |tenants| == 0 then []
    else
      var (t, submitted) := tenants[|tenants| - 1];
      CompletionShares(m, tenants[..|tenants| - 1])
      + [ShareOf(Get(m.completed, t, 0), submitted)]
  }

  function FairnessIndex(m: Metrics): real {
    Statistics.JainsIndex(CompletionShares(m, m.submitted))
  }

  lemma {:induction false} SharesNonNegative(m: Metrics, tenants: Dict<string, nat>)
    ensures forall i :: 0 <= i < |tenants| ==> CompletionShares(m, tenants)[i] >= 0.0
  {
    if |tenants| > 0 {
      SharesNonNegative(m, tenants[..|tenants| - 1]);
    }
  }

  // The latencies of admitted requests, from which the percentiles are taken.
  function Latencies(results: seq<Result>): seq<real> {
    if |results| == 0 then []
    else
      var x := results[|results| - 1];
      Latencies(results[..|results| - 1]) + (if x.admitted then [x.totalMs] else [])
  }

  function Percentile(m: Metrics, q: real): real
    requires 0.0 <= q <= 1.0
  {
    Round2(Statistics.Quantile(Latencies(m.results), q))
  }

  lemma PercentilesOrdered(m: Metrics, q: real, r: real)
    requires 0.0 <= q <= r <= 1.0
    ensures Percentile(m, q) <= Percentile(m, r)
  {
    Statistics.QuantileMonotone(Latencies(m.results), q, r);
    Round2Monotone(Statistics.Quantile(Latencies(m.results), q), Statistics.Quantile(Latencies(m.results), r));
  }

  // The percentiles never cross, as reported, with two decimals.  Before it is rounded to four,
  // the fairness index of n tenants lies in [1/n, 1] and is 1 exactly when every tenant got the
  // same share completed; as reported it is at least 1/n rounded likewise and at most 1, which
  // it also is for shares so nearly the same that the index is within half a step of 1.
  lemma ReportSound(m: Metrics)
    ensures Percentile(m, 0.5) <= Percentile(m, 0.95) <= Percentile(m, 0.99)
    ensures |m.submitted| == 0 ==> FairnessIndex(m) == 1.0
    ensures |m.submitted| > 0 ==>
              var n, index := |m.submitted| as real, FairnessIndex(m);
              && 1.0 / n <= index <= 1.0
              && (index == 1.0 <==> Statistics.AllEqual(CompletionShares(m, m.submitted)))
              && Round4(1.0 / n) <= Round4(index) <= 1.0
              && (Round4(index) == 1.0 <==> index >= 1.0 - HALF_STEP)
  {
    PercentilesOrdered(m, 0.5, 0.95);
    PercentilesOrdered(m, 0.95, 0.99);
    if |m.submitted| > 0 {
      SharesNonNegative(m, m.submitted);
      Statistics.JainsIndexBounds(CompletionShares(m, m.submitted));
      Round4Monotone(1.0 / |m.submitted| as real, FairnessIndex(m));
      Round4IsOne(FairnessIndex(m));
    }
  }

  // ----- what the report is of

  lemma {:induction false} CountAppend(xs: seq<real>, x: real, p: real -> bool)
    ensures Statistics.CountIn(xs + [x], p) == Statistics.CountIn(xs, p) + (if p(x) then 1 else 0)
  {
    if |xs| > 0 {
      CountAppend(xs[1..], x, p);
      assert (xs + [x])[1..] == xs[1..] + [x];
    }
  }

  function AdmittedWith(p: real -> bool): Result -> bool {
    (x: Result) => x.admitted && p(x.totalMs)
  }

  lemma {:induction false} LatenciesCounted(results: seq<Result>, p: real -> bool)
    ensures Statistics.CountIn(Latencies(results), p) == Tally(results, AdmittedWith(p))
    ensures |Latencies(results)| == Tally(results, Admitted())
  {
    if |results| > 0 {
      var init, x := results[..|results| - 1], results[|results| - 1];
      LatenciesCounted(init, p);
      CountAppend(Latencies(init), x.totalMs, p);
      assert Latencies(init) + [] == Latencies(init);
    }
  }

  // The latency of an admitted request that k others come before.
  ghost predicate RanksAmong(results: seq<Result>, k: nat, a: real) {
    Tally(results, AdmittedWith(Statistics.Below(a))) <= k < Tally(results, AdmittedWith(Statistics.UpTo(a)))
  }

  lemma RankedLatency(results: seq<Result>, k: nat, a: real)
    requires Statistics.Ranks(Latencies(results), k, a)
    ensures RanksAmong(results, k, a)
  {
    LatenciesCounted(results, Statistics.Below(a));
    LatenciesCounted(results, Statistics.UpTo(a));
  }

  // A percentile of n admitted requests is, up to the rounding, the total latency of the one
  // that q * (n - 1) others come before, or that share of the way to the next.
  lemma PercentileRanks(m: Metrics, q: real, k: nat, t: real) returns (a: real, b: real)
    requires Tally(m.results, Admitted()) > 0 && 0.0 <= q <= 1.0 && 0.0 <= t < 1.0
    requires (Tally(m.results, Admitted()) - 1) as real * q == k as real + t
    ensures RanksAmong(m.results, k, a) && (t > 0.0 ==> RanksAmong(m.results, k + 1, b))
    ensures t == 0.0 ==> -0.005 <= Percentile(m, q) - a <= 0.005
    ensures t > 0.0 ==> -0.005 <= Percentile(m, q) - (a + (b - a) * t) <= 0.005
  {
    LatenciesCounted(m.results, Statistics.UpTo(0.0));
    a, b := Statistics.QuantileInterpolates(Latencies(m.results), q, k, t);
    RankedLatency(m.results, k, a);
    if t > 0.0 {
      RankedLatency(m.results, k + 1, b);
    }
    Round2Near(Statistics.Quantile(Latencies(m.results), q));
  }

  lemma Round2Near(x: real)
    ensures -0.005 <= Round2(x) - x <= 0.005
  {
  }

  // The share of the i-th tenant is what it had completed, of what it submitted.
  lemma {:induction false} SharesAre(m: Metrics, tenants: Dict<string, nat>, i: nat) returns (share: real)
    requires i < |tenants|
    ensures share == CompletionShares(m, tenants)[i]
    ensures var (t, submitted) := tenants[i];
            share * (if submitted == 0 then 1 else submitted) as real == Get(m.completed, t, 0) as real
  {
    var n := |tenants| - 1;
    if i < n {
      share := SharesAre(m, tenants[..n], i);
      assert CompletionShares(m, tenants)[i] == CompletionShares(m, tenants[..n])[i] && tenants[..n][i] == tenants[i];
    } else {
      share := Divided(Get(m.completed, tenants[n].0, 0), tenants[n].1);
    }
  }

  lemma Divided(completed: nat, submitted: nat) returns (x: real)
    ensures x == ShareOf(completed, submitted)
    ensures x * (if submitted == 0 then 1 else submitted) as real == completed as real
  {
    x := ShareOf(completed, submitted);
  }
}
