// Runs in which the control plane itself chooses: admission is complete whoever answers, and
// what a policy remembers is what the results say.
module RoutedRuns {
  import opened Numbers
  import opened Dicts
  import opened Requests
  import opened Backends
  import opened Selection
  import opened PolicyState
  import opened ControlModel
  import opened ControlRun
  import opened RunTheorems
  import opened Routing
  import Slots = PoolModel
  import CacheModel
  import TopologyBuild

  // ----- admission

  // What admission asks of a pool: no failure window of its cluster covers the time, both ends
  // included; it serves the model; fewer slots than its limit are booked past now; and the memory
  // that neither jobs nor cached prefixes take is enough.
  ghost predicate Open(cfg: Config, sys: System, r: Request, now: real, i: nat)
    requires GoodConfig(cfg) && i < |cfg.pools| == |sys.pools|
  {
    var s, p := cfg.pools[i], sys.pools[i];
    && (forall i :: 0 <= i < |s.cluster.failures| ==> !(s.cluster.failures[i].0 <= now <= s.cluster.failures[i].1))
    && (|s.models| == 0 || r.model in s.models)
    && Slots.InflightCount(p.slots, now) < s.queueLimit
    && RequestMemoryGb(r, CacheModel.ScoreOf(sys.cache, r.cacheKey, SiteOf(s), r.promptTokens, now, cfg.ttl).1)
       <= s.memoryGb - p.active - p.reserved
  }

  lemma AvailableIsOpen(cfg: Config, sys: System, r: Request, now: real, i: nat)
    requires GoodConfig(cfg) && i < |cfg.pools| == |sys.pools| && |sys.pools[i].slots| > 0
    ensures CandidateFor(cfg, sys, r, now, i).status.Available? <==> Open(cfg, sys, r, now, i)
  {
  }

  ghost predicate AnyOpen(cfg: Config, sys: System, r: Request, now: real)
    requires GoodConfig(cfg) && |cfg.pools| == |sys.pools|
  {
    exists i :: 0 <= i < |cfg.pools| && Open(cfg, sys, r, now, i)
  }

  lemma AnyAvailableIsAnyOpen(cfg: Config, sys: System, r: Request, now: real)
    requires GoodConfig(cfg) && |cfg.pools| == |sys.pools| && Slotted(sys)
    ensures AnyAvailable(Candidates(cfg, sys, r, now)) <==> AnyOpen(cfg, sys, r, now)
  {
    var cs := Candidates(cfg, sys, r, now);
    forall i | 0 <= i < |cfg.pools| ensures cs[i].status.Available? <==> Open(cfg, sys, r, now, i) {
      AvailableIsOpen(cfg, sys, r, now, i);
    }
  }

  lemma AdmittedIffAvailable(cfg: Config, sys: System, r: Request, now: real, k: nat)
    requires GoodConfig(cfg) && k < |cfg.pools| == |sys.pools| && Slotted(sys)
    ensures match Execute(cfg, sys, r, now, k)
            case Done(_, x) => x.admitted <==> Candidates(cfg, sys, r, now)[k].status.Available?
            case Raised(_) => Candidates(cfg, sys, r, now)[k].status.Available?
  {
    assert Candidates(cfg, sys, r, now)[k] == CandidateFor(cfg, sys, r, now, k);
  }

  lemma RoutedIffAnyOpen(cfg: Config, sys: System, n: Natives, policy: ActivePolicy, r: Request, now: real)
    requires GoodConfig(cfg) && |cfg.pools| == |sys.pools| && Slotted(sys)
    ensures match Execute(cfg, sys, r, now, Route(n, policy, r.sla, Candidates(cfg, sys, r, now)).0)
            case Done(_, x) => x.admitted <==> AnyOpen(cfg, sys, r, now)
            case Raised(_) => AnyOpen(cfg, sys, r, now)
  {
    AdmittedIffAvailable(cfg, sys, r, now, Route(n, policy, r.sla, Candidates(cfg, sys, r, now)).0);
    AnyAvailableIsAnyOpen(cfg, sys, r, now);
  }

  // In every reachable state, whatever policy is in force, whatever it remembers, and whichever
  // native selectors answer: a request is rejected if and only if every pool is closed to it.
  lemma RejectedIffAllClosed(cfg: Config, trace: Trace, n: Natives, policy: ActivePolicy, r: Request)
    requires GoodConfig(cfg) && ValidTrace(cfg, trace)
    ensures var before := Prepared(cfg, Run(cfg, trace).sys, r);
            match Execute(cfg, before, r, r.arrival, Route(n, policy, r.sla, Candidates(cfg, before, r, r.arrival)).0)
            case Done(_, x) => x.admitted <==> AnyOpen(cfg, before, r, r.arrival)
            case Raised(_) => AnyOpen(cfg, before, r, r.arrival)
  {
    RoutedIffAnyOpen(cfg, Prepared(cfg, Run(cfg, trace).sys, r), n, policy, r, r.arrival);
  }

  // ----- routed runs

  // A request, and the native selectors that answer it.
  type Calls = seq<(Request, Natives)>

  ghost predicate ValidCalls(calls: Calls) {
    forall i :: 0 <= i < |calls| ==> ValidRequest(calls[i].0)
  }

  datatype Routed = Routed(st: RunState, policy: ActivePolicy, trace: Trace)

  // The choice made for a request in a refreshed system, and the policy after it.
  ghost function Chosen(cfg: Config, sys: System, policy: ActivePolicy, r: Request, n: Natives): (route: (nat, ActivePolicy))
    requires GoodConfig(cfg) && |sys.pools| == |cfg.pools| && Slotted(sys)
    ensures route.0 < |cfg.pools|
  {
    Route(n, policy, r.sla, Candidates(cfg, sys, r, r.arrival))
  }

  lemma LongerTrace(cfg: Config, trace: Trace, r: Request, k: nat)
    requires k < |cfg.pools|
    ensures ValidTrace(cfg, trace) && ValidRequest(r) ==> ValidTrace(cfg, trace + [(r, k)])
  {
  }

  // The step that puts a request on pool k and leaves the policy to hear of it.
  ghost function RoutedTo(cfg: Config, before: Routed, r: Request, k: nat, policy: ActivePolicy): (after: Routed)
    requires GoodConfig(cfg) && k < |cfg.pools| == |before.st.sys.pools| && Slotted(before.st.sys)
    ensures |after.st.sys.pools| == |cfg.pools| && Slotted(after.st.sys)
    ensures ValidTrace(cfg, before.trace) && ValidRequest(r) ==> ValidTrace(cfg, after.trace)
  {
    var o := Execute(cfg, Prepared(cfg, before.st.sys, r), r, r.arrival, k);
    LongerTrace(cfg, before.trace, r, k);
    Routed(Step(cfg, before.st, r, k), AfterOutcome(policy, o), before.trace + [(r, k)])
  }

  ghost function RoutedStep(cfg: Config, before: Routed, r: Request, n: Natives): (after: Routed)
    requires GoodConfig(cfg) && |before.st.sys.pools| == |cfg.pools| && Slotted(before.st.sys)
    ensures |after.st.sys.pools| == |cfg.pools| && Slotted(after.st.sys)
    ensures ValidTrace(cfg, before.trace) && ValidRequest(r) ==> ValidTrace(cfg, after.trace)
  {
    var route := Chosen(cfg, Prepared(cfg, before.st.sys, r), before.policy, r, n);
    RoutedTo(cfg, before, r, route.0, route.1)
  }

  // A step in its parts: the choice, the policy that made it, and the outcome.
  lemma StepParts(cfg: Config, before: Routed, r: Request, n: Natives)
    returns (k: nat, policy: ActivePolicy, o: Outcome, after: Routed)
    requires GoodConfig(cfg) && |before.st.sys.pools| == |cfg.pools| && Slotted(before.st.sys)
    ensures var prepared := Prepared(cfg, before.st.sys, r);
            && (k, policy) == Route(n, before.policy, r.sla, Candidates(cfg, prepared, r, r.arrival)) && k < |cfg.pools|
            && o == Execute(cfg, prepared, r, r.arrival, k)
    ensures after == RoutedStep(cfg, before, r, n)
    ensures after.st == Concluded(o, Submitted(before.st.metrics, r.tenantId)) && after.policy == AfterOutcome(policy, o)
    ensures after.st == Step(cfg, before.st, r, k) && after.trace == before.trace + [(r, k)]
  {
    var prepared := Prepared(cfg, before.st.sys, r);
    var route := Route(n, before.policy, r.sla, Candidates(cfg, prepared, r, r.arrival));
    k, policy := route.0, route.1;
    o := Execute(cfg, prepared, r, r.arrival, k);
    after := RoutedStep(cfg, before, r, n);
  }

  // The state, the policy and the choices after a list of calls, from a fresh policy.
  ghost function RoutedRun(cfg: Config, name: PolicyName, calls: Calls): (after: Routed)
    requires GoodConfig(cfg) && ValidCalls(calls)
    ensures |after.st.sys.pools| == |cfg.pools| && Slotted(after.st.sys) && ValidTrace(cfg, after.trace)
  {
    if |calls| == 0 then Routed(RunState(Start(cfg), Metrics([], [], []), false), Initially(name), [])
    else
      var before := RoutedRun(cfg, name, calls[..|calls| - 1]);
      if before.st.raised then before else RoutedStep(cfg, before, calls[|calls| - 1].0, calls[|calls| - 1].1)
  }

  lemma LastCall(calls: Calls)
    requires |calls| > 0
    ensures calls == calls[..|calls| - 1] + [(calls[|calls| - 1].0, calls[|calls| - 1].1)]
  {
  }

  lemma OneMoreCall(cfg: Config, name: PolicyName, calls: Calls, longer: Calls, r: Request, n: Natives)
    returns (before: Routed, after: Routed)
    requires GoodConfig(cfg) && ValidCalls(longer) && ValidCalls(calls)
    requires longer == calls + [(r, n)] && !RoutedRun(cfg, name, calls).st.raised
    ensures before == RoutedRun(cfg, name, calls) && after == RoutedRun(cfg, name, longer)
    ensures after == RoutedStep(cfg, before, r, n)
  {
    assert longer[..|longer| - 1] == calls;
    before, after := RoutedRun(cfg, name, calls), RoutedRun(cfg, name, longer);
  }

  // A routed run is the run of its own choices, so whatever holds of all runs holds of it.
  lemma {:induction false} RoutedRunIsRun(cfg: Config, name: PolicyName, calls: Calls)
    requires GoodConfig(cfg) && ValidCalls(calls)
    ensures RoutedRun(cfg, name, calls).st == Run(cfg, RoutedRun(cfg, name, calls).trace)
  {
    if |calls| > 0 {
      var init := calls[..|calls| - 1];
      RoutedRunIsRun(cfg, name, init);
      if !RoutedRun(cfg, name, init).st.raised {
        var k, policy, o, after := StepParts(cfg, RoutedRun(cfg, name, init), calls[|calls| - 1].0, calls[|calls| - 1].1);
        RunStep(cfg, RoutedRun(cfg, name, init).trace, RoutedRun(cfg, name, calls).trace);
      }
    }
  }

  // ----- what the policies remember

  function RejectedAt(k: CacheModel.Site): Result -> bool {
    (x: Result) => x.site == k && !x.admitted
  }

  function AdmittedAt(k: CacheModel.Site): Result -> bool {
    (x: Result) => x.site == k && x.admitted
  }

  lemma ExecutedSite(cfg: Config, sys: System, r: Request, now: real, i: nat)
    requires GoodConfig(cfg) && i < |cfg.pools| == |sys.pools| && |sys.pools[i].slots| > 0
    ensures CandidateSite(CandidateFor(cfg, sys, r, now, i)) == SiteOf(cfg.pools[i])
    ensures var o := Execute(cfg, sys, r, now, i); o.Done? ==>
              && o.result.site == SiteOf(cfg.pools[i])
              && (o.result.admitted <==> CandidateFor(cfg, sys, r, now, i).status.Available?)
  {
  }

  // ----- spread

  // The policy itself chooses throughout.
  ghost predicate PolicyChooses(calls: Calls) {
    forall i :: 0 <= i < |calls| ==> calls[i].1 == NO_NATIVES
  }

  // The request whose placement raised, if one did, has raised its pool's counter for good.
  function Unsettled(cfg: Config, rr: Routed, k: CacheModel.Site): nat
    requires ValidTrace(cfg, rr.trace)
  {
    if rr.st.raised && |rr.trace| > 0 && SiteOf(cfg.pools[rr.trace[|rr.trace| - 1].1]) == k then 1 else 0
  }

  ghost predicate CountsRejections(cfg: Config, rr: Routed) {
    && rr.policy.Spread? && ValidTrace(cfg, rr.trace)
    && forall k :: Get(rr.policy.counts, k, 0) == Tally(rr.st.metrics.results, RejectedAt(k)) + Unsettled(cfg, rr, k)
  }

  // What a step does to the counters, for the pool it chose.
  ghost predicate SpreadMoves(counts: Counts, results: seq<Result>, counts': Counts, results': seq<Result>,
                              raised: bool, s: CacheModel.Site)
  {
    var up := CountedUp(counts, s);
    if raised then results' == results && counts' == up
    else
      && |results'| == |results| + 1 && results' == results + [results'[|results|]]
      && results'[|results|].site == s
      && counts' == if results'[|results|].admitted then CountedDown(up, s) else up
  }

  lemma SettledMoves(counts: Counts, s: CacheModel.Site, o: Outcome, m: Metrics)
    requires o.Done? ==> o.result.site == s
    ensures var p, st := AfterOutcome(Spread(CountedUp(counts, s)), o), Concluded(o, m);
            p.Spread? && SpreadMoves(counts, m.results, p.counts, st.metrics.results, st.raised, s)
  {
  }

  lemma SpreadRoute(cfg: Config, sys: System, counts: Counts, r: Request, now: real)
    requires GoodConfig(cfg) && |sys.pools| == |cfg.pools| && Slotted(sys)
    ensures var (k, p) := Route(NO_NATIVES, Spread(counts), r.sla, Candidates(cfg, sys, r, now));
            p == Spread(CountedUp(counts, SiteOf(cfg.pools[k])))
  {
    var cs := Candidates(cfg, sys, r, now);
    var k := Find(cs, Pick(Spread(counts), r.sla, cs));
    assert cs[k] == CandidateFor(cfg, sys, r, now, k);
    ExecutedSite(cfg, sys, r, now, k);
  }

  lemma SpreadStepMoves(cfg: Config, before: Routed, r: Request)
    requires GoodConfig(cfg) && |before.st.sys.pools| == |cfg.pools| && Slotted(before.st.sys) && before.policy.Spread?
    ensures var after := RoutedStep(cfg, before, r, NO_NATIVES);
            && after.policy.Spread? && |after.trace| == |before.trace| + 1 && after.trace[|before.trace|].1 < |cfg.pools|
            && SpreadMoves(before.policy.counts, before.st.metrics.results, after.policy.counts, after.st.metrics.results,
                           after.st.raised, SiteOf(cfg.pools[after.trace[|before.trace|].1]))
  {
    var prepared := Prepared(cfg, before.st.sys, r);
    var k, policy, o, after := StepParts(cfg, before, r, NO_NATIVES);
    SpreadRoute(cfg, prepared, before.policy.counts, r, r.arrival);
    ExecutedSite(cfg, prepared, r, r.arrival, k);
    SettledMoves(before.policy.counts, SiteOf(cfg.pools[k]), o, Submitted(before.st.metrics, r.tenantId));
  }

  lemma SpreadMovesCount(counts: Counts, results: seq<Result>, counts': Counts, results': seq<Result>,
                         raised: bool, s: CacheModel.Site, k: CacheModel.Site)
    requires forall j :: Get(counts, j, 0) == Tally(results, RejectedAt(j))
    requires SpreadMoves(counts, results, counts', results', raised, s)
    ensures Get(counts', k, 0) == Tally(results', RejectedAt(k)) + (if raised && s == k then 1 else 0)
  {
    assert Get(counts, s, 0) == Tally(results, RejectedAt(s));
    CountUpThenDown(counts, s, k);
    if !raised {
      TallyAppend(results, results'[|results|], RejectedAt(k));
    }
  }

  lemma MovedCounts(cfg: Config, before: Routed, after: Routed, s: CacheModel.Site)
    requires CountsRejections(cfg, before) && !before.st.raised && after.policy.Spread?
    requires ValidTrace(cfg, after.trace) && |after.trace| > 0 && SiteOf(cfg.pools[after.trace[|after.trace| - 1].1]) == s
    requires SpreadMoves(before.policy.counts, before.st.metrics.results, after.policy.counts, after.st.metrics.results,
                         after.st.raised, s)
    ensures CountsRejections(cfg, after)
  {
    forall k ensures Get(after.policy.counts, k, 0)
                     == Tally(after.st.metrics.results, RejectedAt(k)) + Unsettled(cfg, after, k)
    {
      SpreadMovesCount(before.policy.counts, before.st.metrics.results, after.policy.counts, after.st.metrics.results,
                       after.st.raised, s, k);
    }
  }

  lemma SpreadStepCounts(cfg: Config, before: Routed, r: Request) returns (after: Routed)
    requires GoodConfig(cfg) && |before.st.sys.pools| == |cfg.pools| && Slotted(before.st.sys) && ValidRequest(r)
    requires CountsRejections(cfg, before) && !before.st.raised
    ensures after == RoutedStep(cfg, before, r, NO_NATIVES) && CountsRejections(cfg, after)
  {
    after := RoutedStep(cfg, before, r, NO_NATIVES);
    SpreadStepMoves(cfg, before, r);
    MovedCounts(cfg, before, after, SiteOf(cfg.pools[after.trace[|before.trace|].1]));
  }

  // In every run in which the policy itself chooses, the counter of a pool is the number of
  // requests rejected there.
  lemma {:induction false} SpreadCountsRejections(cfg: Config, calls: Calls)
    requires GoodConfig(cfg) && ValidCalls(calls) && PolicyChooses(calls)
    ensures CountsRejections(cfg, RoutedRun(cfg, SpreadName, calls))
  {
    if |calls| > 0 {
      var init, last := calls[..|calls| - 1], calls[|calls| - 1];
      SpreadCountsRejections(cfg, init);
      if !RoutedRun(cfg, SpreadName, init).st.raised {
        LastCall(calls);
        var before, after := OneMoreCall(cfg, SpreadName, init, calls, last.0, NO_NATIVES);
        var step := SpreadStepCounts(cfg, before, last.0);
      }
    }
  }

  // One pool, whose queue limit turns every request away.
  ghost predicate ClosedConfig(cfg: Config) {
    GoodConfig(cfg) && |cfg.pools| == 1 && cfg.pools[0].queueLimit <= 0
  }

  // How often the policy itself was asked.
  function Asked(calls: Calls): (n: nat)
    ensures n <= |calls|
  {
    if |calls| == 0 then 0
    else Asked(calls[..|calls| - 1]) + (if calls[|calls| - 1].1 == NO_NATIVES then 1 else 0)
  }

  lemma {:induction false} NotAlwaysAsked(calls: Calls, i: nat)
    requires i < |calls| && calls[i].1 != NO_NATIVES
    ensures Asked(calls) < |calls|
  {
    if i < |calls| - 1 {
      NotAlwaysAsked(calls[..|calls| - 1], i);
    }
  }

  lemma ClosedTurnsAway(cfg: Config, sys: System, r: Request, now: real)
    requires ClosedConfig(cfg) && |sys.pools| == 1 && Slotted(sys)
    ensures Execute(cfg, sys, r, now, 0).Done? && !Execute(cfg, sys, r, now, 0).result.admitted
    ensures Execute(cfg, sys, r, now, 0).result.site == SiteOf(cfg.pools[0])
  {
    AvailableIsOpen(cfg, sys, r, now, 0);
    ExecutedSite(cfg, sys, r, now, 0);
  }

  lemma SingleRoute(n: Natives, counts: Counts, sla: SlaClass, cs: seq<Candidate>)
    requires |cs| == 1
    ensures Route(n, Spread(counts), sla, cs)
         == (0, Spread(if n == NO_NATIVES then CountedUp(counts, CandidateSite(cs[0])) else counts))
  {
    var c := Pick(Spread(counts), sla, cs);
    assert c == cs[0];
  }

  lemma ClosedRoute(cfg: Config, sys: System, counts: Counts, r: Request, n: Natives, now: real)
    requires ClosedConfig(cfg) && |sys.pools| == 1 && Slotted(sys)
    ensures Route(n, Spread(counts), r.sla, Candidates(cfg, sys, r, now))
         == (0, Spread(if n == NO_NATIVES then CountedUp(counts, SiteOf(cfg.pools[0])) else counts))
  {
    ExecutedSite(cfg, sys, r, now, 0);
    SingleRoute(n, counts, r.sla, Candidates(cfg, sys, r, now));
  }

  // So many requests turned away, and the counter raised by so many of them.
  ghost predicate TurnedAway(cfg: Config, rr: Routed, asked: nat, n: nat)
    requires |cfg.pools| == 1
  {
    var s := SiteOf(cfg.pools[0]);
    && !rr.st.raised && rr.policy.Spread? && Get(rr.policy.counts, s, 0) == asked
    && Tally(rr.st.metrics.results, RejectedAt(s)) == n
  }

  lemma RejectionSettles(p: ActivePolicy, s: CacheModel.Site, o: Outcome, m: Metrics)
    requires o.Done? && RejectedAt(s)(o.result)
    ensures AfterOutcome(p, o) == p && !Concluded(o, m).raised
    ensures Tally(Concluded(o, m).metrics.results, RejectedAt(s)) == Tally(m.results, RejectedAt(s)) + 1
  {
    TallyAppend(m.results, o.result, RejectedAt(s));
  }

  lemma ClosedStep(cfg: Config, before: Routed, r: Request, n: Natives, asked: nat, count: nat)
    requires ClosedConfig(cfg) && |before.st.sys.pools| == 1 && Slotted(before.st.sys)
    requires TurnedAway(cfg, before, asked, count)
    ensures TurnedAway(cfg, RoutedStep(cfg, before, r, n), if n == NO_NATIVES then asked + 1 else asked, count + 1)
  {
    var prepared, s := Prepared(cfg, before.st.sys, r), SiteOf(cfg.pools[0]);
    var k, policy, o, after := StepParts(cfg, before, r, n);
    ClosedTurnsAway(cfg, prepared, r, r.arrival);
    ClosedRoute(cfg, prepared, before.policy.counts, r, n, r.arrival);
    CountedUpGet(before.policy.counts, s);
    RejectionSettles(policy, s, o, Submitted(before.st.metrics, r.tenantId));
  }

  lemma {:induction false} ClosedRun(cfg: Config, calls: Calls)
    requires ClosedConfig(cfg) && ValidCalls(calls)
    ensures TurnedAway(cfg, RoutedRun(cfg, SpreadName, calls), Asked(calls), |calls|)
  {
    if |calls| > 0 {
      var init, last := calls[..|calls| - 1], calls[|calls| - 1];
      ClosedRun(cfg, init);
      ClosedStep(cfg, RoutedRun(cfg, SpreadName, init), last.0, last.1, Asked(init), |init|);
    }
  }

  lemma ClosedMiscounts(cfg: Config, calls: Calls, i: nat)
    requires ClosedConfig(cfg) && ValidCalls(calls) && i < |calls| && calls[i].1 != NO_NATIVES
    ensures !CountsRejections(cfg, RoutedRun(cfg, SpreadName, calls))
  {
    ClosedRun(cfg, calls);
    NotAlwaysAsked(calls, i);
    assert Unsettled(cfg, RoutedRun(cfg, SpreadName, calls), SiteOf(cfg.pools[0])) == 0;
  }

  ghost predicate Answered(calls: Calls, natives: seq<Natives>) {
    |calls| == |natives| && forall i :: 0 <= i < |calls| ==> calls[i].1 == natives[i]
  }

  lemma ClosedExample(natives: seq<Natives>) returns (cfg: Config, calls: Calls)
    ensures ClosedConfig(cfg) && ValidCalls(calls) && Answered(calls, natives)
  {
    cfg := Config([PoolSpec(Cluster("c", 0.0, 0.0, [], []), "p", Mock, {}, Rates(1.0, 1.0), 1.0, 1, 0.0, 0.0, false, 0,
                            TopologyBuild.Ethernet, TopologyBuild.NoProbe)], [], 0.0, 180.0, 20000);
    var r := Request("r", "t", OtherModel("m"), 1, 1, 0.0, Interactive, 0, 1800.0);
    calls := seq(|natives|, i requires 0 <= i < |natives| => (r, natives[i]));
  }

  // Given which native selectors answer which request, the counters count rejections in every
  // run if and only if none ever answers: one that does leaves the counters alone.
  lemma CountsRejectionsIffAlwaysAsked(natives: seq<Natives>)
    ensures (forall cfg, calls :: GoodConfig(cfg) && ValidCalls(calls) && Answered(calls, natives) ==>
               CountsRejections(cfg, RoutedRun(cfg, SpreadName, calls)))
       <==> forall i :: 0 <= i < |natives| ==> natives[i] == NO_NATIVES
  {
    if forall i :: 0 <= i < |natives| ==> natives[i] == NO_NATIVES {
      forall cfg, calls | GoodConfig(cfg) && ValidCalls(calls) && Answered(calls, natives)
        ensures CountsRejections(cfg, RoutedRun(cfg, SpreadName, calls))
      {
        SpreadCountsRejections(cfg, calls);
      }
    } else {
      var i :| 0 <= i < |natives| && natives[i] != NO_NATIVES;
      var cfg, calls := ClosedExample(natives);
      ClosedMiscounts(cfg, calls, i);
    }
  }

  // So no result ever finds its counter at zero: the lower bound of the counter is never met.
  lemma SpreadNeverClamps(cfg: Config, calls: Calls, s: CacheModel.Site)
    requires GoodConfig(cfg) && ValidCalls(calls) && PolicyChooses(calls)
    ensures var rr := RoutedRun(cfg, SpreadName, calls);
            && rr.policy.Spread?
            && Get(CountedUp(rr.policy.counts, s), s, 0) >= 1
  {
    SpreadCountsRejections(cfg, calls);
    CountedUpGet(RoutedRun(cfg, SpreadName, calls).policy.counts, s);
  }

  lemma {:induction false} NoneTallied(results: seq<Result>, k: CacheModel.Site)
    requires forall i :: 0 <= i < |results| ==> results[i].admitted
    ensures Tally(results, RejectedAt(k)) == 0
  {
    if |results| > 0 {
      NoneTallied(results[..|results| - 1], k);
    }
  }

  // Until a request has been rejected, spread chooses by queue delay and network cost alone.
  lemma SpreadIgnoresCountsUntilRejection(cfg: Config, calls: Calls, sla: SlaClass, cs: seq<Candidate>)
    requires GoodConfig(cfg) && ValidCalls(calls) && PolicyChooses(calls) && |cs| > 0
    requires var st := RoutedRun(cfg, SpreadName, calls).st;
             !st.raised && forall i :: 0 <= i < |st.metrics.results| ==> st.metrics.results[i].admitted
    ensures Pick(RoutedRun(cfg, SpreadName, calls).policy, sla, cs) == PickLeast(cs, DelayKey(), 2)
  {
    var rr := RoutedRun(cfg, SpreadName, calls);
    SpreadCountsRejections(cfg, calls);
    forall k ensures Get(rr.policy.counts, k, 0) == 0 {
      NoneTallied(rr.st.metrics.results, k);
    }
    SameLeastAt(Usable(cs), rr.policy.counts);
  }

  // ----- bandit

  // What the bandit is shown: the site and reward of every admitted request, in order.
  function History(results: seq<Result>): seq<(CacheModel.Site, real)> {
    if |results| == 0 then []
    else
      var x := results[|results| - 1];
      History(results[..|results| - 1]) + (if x.admitted then [(x.site, RewardOf(x))] else [])
  }

  ghost predicate Learned(rr: Routed, bonus: real) {
    rr.policy == Learner(bonus, BanditRun(History(rr.st.metrics.results)))
  }

  lemma HistoryLearns(results: seq<Result>, x: Result)
    ensures BanditRun(History(results + [x]))
         == if x.admitted then Learn(BanditRun(History(results)), x.site, RewardOf(x)) else BanditRun(History(results))
  {
    assert (results + [x])[..|results|] == results;
    var h := History(results);
    if x.admitted {
      assert (h + [(x.site, RewardOf(x))])[..|h|] == h;
    } else {
      assert h + [] == h;
    }
  }

  lemma SettledLearns(p: ActivePolicy, bonus: real, o: Outcome, m: Metrics)
    requires p == Learner(bonus, BanditRun(History(m.results)))
    ensures AfterOutcome(p, o) == Learner(bonus, BanditRun(History(Concluded(o, m).metrics.results)))
  {
    if o.Done? {
      HistoryLearns(m.results, o.result);
    }
  }

  lemma RouteKeepsLearner(n: Natives, p: ActivePolicy, sla: SlaClass, cs: seq<Candidate>)
    requires |cs| > 0 && p.Learner?
    ensures Route(n, p, sla, cs).1 == p
  {
  }

  lemma BanditStepLearns(cfg: Config, before: Routed, r: Request, n: Natives, bonus: real)
    requires GoodConfig(cfg) && |before.st.sys.pools| == |cfg.pools| && Slotted(before.st.sys) && Learned(before, bonus)
    ensures Learned(RoutedStep(cfg, before, r, n), bonus)
  {
    var k, policy, o, after := StepParts(cfg, before, r, n);
    RouteKeepsLearner(n, before.policy, r.sla, Candidates(cfg, Prepared(cfg, before.st.sys, r), r, r.arrival));
    SettledLearns(policy, bonus, o, Submitted(before.st.metrics, r.tenantId));
  }

  lemma {:induction false} RunLearned(cfg: Config, bonus: real, calls: Calls)
    requires GoodConfig(cfg) && ValidCalls(calls)
    ensures Learned(RoutedRun(cfg, BanditName(bonus), calls), bonus)
  {
    if |calls| > 0 {
      var init, last := calls[..|calls| - 1], calls[|calls| - 1];
      RunLearned(cfg, bonus, init);
      var before := RoutedRun(cfg, BanditName(bonus), init);
      if !before.st.raised {
        BanditStepLearns(cfg, before, last.0, last.1, bonus);
      }
    }
  }

  lemma {:induction false} HistoryCounts(results: seq<Result>, k: CacheModel.Site)
    ensures |RewardsAt(History(results), k)| == Tally(results, AdmittedAt(k))
  {
    if |results| > 0 {
      var init, x := results[..|results| - 1], results[|results| - 1];
      HistoryCounts(init, k);
      var h := History(init);
      if x.admitted {
        assert History(results)[..|h|] == h;
      } else {
        assert History(results) == h;
      }
    }
  }

  // In every run, whoever chooses, the bandit's count and value of a pool are the number of
  // requests admitted there and the exact mean of their rewards.
  lemma BanditKeepsMeanRewards(cfg: Config, bonus: real, calls: Calls, k: CacheModel.Site)
    requires GoodConfig(cfg) && ValidCalls(calls)
    ensures var rr := RoutedRun(cfg, BanditName(bonus), calls);
            var n := Tally(rr.st.metrics.results, AdmittedAt(k));
            && rr.policy.Learner? && rr.policy.explorationBonus == bonus
            && Get(rr.policy.bandit.counts, k, 0) == n == |RewardsAt(History(rr.st.metrics.results), k)|
            && Times(n, Get(rr.policy.bandit.value, k, 0.0)) == Sum(RewardsAt(History(rr.st.metrics.results), k))
  {
    RunLearned(cfg, bonus, calls);
    var results := RoutedRun(cfg, BanditName(bonus), calls).st.metrics.results;
    HistoryCounts(results, k);
    BanditKeepsMeans(History(results), k);
  }
}
