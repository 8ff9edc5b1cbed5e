// What the results of a run say, in terms of arrivals, completions, tokens and prices.
module ResultFacts {
  import opened Numbers
  import opened Dicts
  import opened Requests
  import opened Selection
  import opened ControlModel
  import opened ControlRun
  import Slots = PoolModel
  import CacheModel

  // Equal up to a rounding.
  ghost predicate Near(x: real, y: real, off: real) {
    -off <= x - y <= off
  }

  function Tokens(r: Request): real {
    (r.promptTokens + r.generationTokens) as real
  }

  // The request started no earlier than it came; its latency is the time from there to its
  // completion, and it met its limit exactly if that is no longer.
  ghost predicate OnTime(x: Result) {
    && x.request.arrival <= x.start
    && (x.slaMet <==> 1000.0 * (x.completion - x.request.arrival) <= x.request.maxLatencyMs)
    && Near(x.totalMs, 1000.0 * (x.completion - x.request.arrival), HALF_STEP)
    && Near(x.queueDelayMs, 1000.0 * (x.start - x.request.arrival), HALF_STEP)
    && Near(x.prefillMs + x.decodeMs, 1000.0 * (x.completion - x.start), 2.0 * HALF_STEP)
  }

  // Its tokens are charged at the pool's price and energy.
  ghost predicate Charged(s: PoolSpec, x: Result) {
    && Near(1000000.0 * x.costUsd, s.costPer1M * Tokens(x.request), 0.5)
    && Near(1000.0 * x.energy, s.energy * Tokens(x.request), 0.05)
  }

  // An admitted request.
  ghost predicate ServedOn(s: PoolSpec, x: Result) {
    && x.admitted && x.status.Available? && x.site == CacheModel.Site(s.cluster.id, s.poolId)
    && OnTime(x)
    && Charged(s, x) && Near(x.memoryGb, RequestMemoryGb(x.request, x.savedTokens), HALF_STEP)
  }

  // One that was turned away took no time, memory or money.
  ghost predicate NotServed(s: PoolSpec, x: Result) {
    && !x.admitted && x.status.Rejected? && x.site == CacheModel.Site(s.cluster.id, s.poolId)
    && x.start == x.completion == x.request.arrival && !x.slaMet
    && x.totalMs == x.queueDelayMs == x.prefillMs == x.decodeMs == x.hitRatio == x.memoryGb == x.costUsd == x.energy == 0.0
    && x.savedTokens == 0
  }

  lemma CostNear(price: real, tokens: real)
    ensures Near(1000000.0 * Round6(Product(price, tokens / 1000000.0)), price * tokens, 0.5)
  {
    var share := tokens / 1000000.0;
    var y := Product(price, share);
    assert 1000000.0 * y == price * (1000000.0 * share);
    Round6Near(y);
  }

  lemma Round6Near(y: real)
    ensures Near(Round6(y), y, 0.0000005)
  {
  }

  lemma EnergyNear(energy: real, tokens: real)
    ensures Near(1000.0 * Round4(Product(energy, tokens / 1000.0)), energy * tokens, 0.05)
  {
    var share := tokens / 1000.0;
    var y := Product(energy, share);
    assert 1000.0 * y == energy * (1000.0 * share);
    Round4Near(y);
  }

  lemma Round4Near(y: real)
    ensures Near(Round4(y), y, HALF_STEP)
  {
  }

  lemma PlacementServes(s: PoolSpec, p: Slots.Pool, r: Request, c: Candidate, now: real)
    requires |p.slots| > 0 && now == r.arrival
    ensures ServedOn(s, Placement(s, p, r, c, now))
    ensures Placement(s, p, r, c, now).request == r
  {
    var ms, memory := ActualLatency(s, r, c), RequestMemoryGb(r, c.savedTokens);
    var job := Slots.NextJob(p, now, ServiceTime(s, r, c), memory);
    ReportServes(s, r, c, now, job.start, job.finish, ms, memory);
  }

  lemma ReportTimes(s: PoolSpec, r: Request, c: Candidate, now: real, start: real, completion: real, ms: (real, real), memory: real)
    requires now == r.arrival <= start && completion == start + (ms.0 + ms.1) / 1000.0
    ensures OnTime(ResultOf(s, r, c, now, start, completion, ms, memory))
  {
    assert 1000.0 * (completion - now) == (start - now) * 1000.0 + ms.0 + ms.1;
  }

  lemma ReportCosts(s: PoolSpec, r: Request, c: Candidate, now: real, start: real, completion: real, ms: (real, real), memory: real)
    ensures Charged(s, ResultOf(s, r, c, now, start, completion, ms, memory))
  {
    var x := ResultOf(s, r, c, now, start, completion, ms, memory);
    ChargedBy(s, x, x.costUsd, x.energy, Tokens(r));
  }

  lemma ChargedBy(s: PoolSpec, x: Result, cost: real, energy: real, tokens: real)
    requires cost == x.costUsd == Round6(Product(s.costPer1M, tokens / 1000000.0)) && tokens == Tokens(x.request)
    requires energy == x.energy == Round4(Product(s.energy, tokens / 1000.0))
    ensures Charged(s, x)
  {
    CostNear(s.costPer1M, tokens);
    EnergyNear(s.energy, tokens);
  }

  lemma ReportServes(s: PoolSpec, r: Request, c: Candidate, now: real, start: real, completion: real, ms: (real, real), memory: real)
    requires now == r.arrival <= start && completion == start + (ms.0 + ms.1) / 1000.0
    requires memory == RequestMemoryGb(r, c.savedTokens)
    ensures ServedOn(s, ResultOf(s, r, c, now, start, completion, ms, memory))
  {
    ReportTimes(s, r, c, now, start, completion, ms, memory);
    ReportCosts(s, r, c, now, start, completion, ms, memory);
  }

  // A result, of the request and on the pool of a turn.
  ghost predicate ReportOn(cfg: Config, turn: (Request, nat), x: Result) {
    && turn.1 < |cfg.pools| && x.request == turn.0
    && (if x.admitted then ServedOn(cfg.pools[turn.1], x) else NotServed(cfg.pools[turn.1], x))
    && GoodSpec(cfg.pools[turn.1]) && Near(x.networkCost, NetworkCost(cfg.pools[turn.1]), 2.0 * HALF_STEP)
  }

  // It repeats what the candidate promised.
  lemma ExecuteReports(cfg: Config, sys: System, r: Request, i: nat)
    requires GoodConfig(cfg) && i < |cfg.pools| == |sys.pools| && |sys.pools[i].slots| > 0
    requires Execute(cfg, sys, r, r.arrival, i).Done?
    ensures var x := Execute(cfg, sys, r, r.arrival, i).result;
            var c := CandidateFor(cfg, sys, r, r.arrival, i);
            && ReportOn(cfg, (r, i), x) && x.status == c.status
            && (x.admitted ==> x.hitRatio == c.hitRatio && x.savedTokens == c.savedTokens)
            && x.estimatedMs == Round4(c.queueDelayMs + c.prefillMs + c.decodeMs)
  {
    var evicted := sys.(cache := CacheModel.Evict(sys.cache, r.arrival, cfg.ttl));
    PlacementServes(cfg.pools[i], evicted.pools[i], r, CandidateFor(cfg, sys, r, r.arrival, i), r.arrival);
  }

  // The j-th result is that of the j-th request, on the pool chosen for it.
  ghost predicate Reported(cfg: Config, trace: Trace, results: seq<Result>, raised: bool) {
    && (if raised then |results| < |trace| else |results| == |trace|)
    && forall j :: 0 <= j < |results| ==> ReportOn(cfg, trace[j], results[j])
  }

  lemma OneMoreReport(cfg: Config, init: Trace, results: seq<Result>, turn: (Request, nat), x: Result)
    requires Reported(cfg, init, results, false) && ReportOn(cfg, turn, x)
    ensures Reported(cfg, init + [turn], results + [x], false)
  {
  }

  lemma LastReport(cfg: Config, init: Trace, results: seq<Result>, turn: (Request, nat), raised: bool)
    requires Reported(cfg, init, results, raised)
    ensures Reported(cfg, init + [turn], results, true)
  {
  }

  lemma StepReports(cfg: Config, init: Trace, st: RunState, r: Request, k: nat)
    requires GoodConfig(cfg) && k < |cfg.pools| == |st.sys.pools| && Slotted(st.sys)
    requires Reported(cfg, init, st.metrics.results, false)
    ensures var after := Step(cfg, st, r, k); Reported(cfg, init + [(r, k)], after.metrics.results, after.raised)
  {
    var prepared := Prepared(cfg, st.sys, r);
    var o := Execute(cfg, prepared, r, r.arrival, k);
    if o.Done? {
      ExecuteReports(cfg, prepared, r, k);
      OneMoreReport(cfg, init, st.metrics.results, (r, k), o.result);
    } else {
      LastReport(cfg, init, st.metrics.results, (r, k), false);
    }
  }

  // In every run.
  lemma {:induction false} ResultsReport(cfg: Config, trace: Trace)
    requires GoodConfig(cfg) && ValidTrace(cfg, trace)
    ensures Reported(cfg, trace, Run(cfg, trace).metrics.results, Run(cfg, trace).raised)
  {
    if |trace| > 0 {
      var init, last := trace[..|trace| - 1], trace[|trace| - 1];
      var before := Run(cfg, init);
      ResultsReport(cfg, init);
      assert trace == init + [last];
      if before.raised {
        LastReport(cfg, init, before.metrics.results, last, true);
      } else {
        StepReports(cfg, init, before, last.0, last.1);
      }
    }
  }
}
