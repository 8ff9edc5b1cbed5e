// The directory along a run: what it has been told, and so what its entries stand for.
module RunHistory {
  import opened Numbers
  import opened Requests
  import opened Selection
  import opened ControlModel
  import opened ControlRun
  import opened CacheModel
  import opened CacheUpdate
  import opened CacheDirectory
  import opened CacheLimits
  import opened CacheHistory

  function Observations(accesses: seq<Access>): seq<Observation> {
    if |accesses| == 0 then []
    else
      var last := accesses[|accesses| - 1];
      Observations(accesses[..|accesses| - 1]) + (if last.Observe? then [last.o] else [])
  }

  function AdmittedOnes(results: seq<Result>): seq<Result> {
    if |results| == 0 then []
    else
      var last := results[|results| - 1];
      AdmittedOnes(results[..|results| - 1]) + (if last.admitted then [last] else [])
  }

  // The directory holds 55% of the memory of a request, until its completion and beyond.
  ghost predicate Tells(o: Observation, x: Result) {
    && o.key == x.request.cacheKey && o.site == x.site && o.promptTokens == x.request.promptTokens
    && 100.0 * o.sizeGb == 55.0 * x.memoryGb && o.completion == x.completion && (o.hit <==> x.hitRatio > 0.0)
  }

  // Of every admitted request, in order, and of one more if its observation ended the run.
  ghost predicate Told(accesses: seq<Access>, results: seq<Result>, raised: bool) {
    var seen, admitted := Observations(accesses), AdmittedOnes(results);
    && |seen| == |admitted| + (if raised then 1 else 0)
    && forall i :: 0 <= i < |admitted| ==> Tells(seen[i], admitted[i])
  }

  ghost predicate Matches(cfg: Config, accesses: seq<Access>, st: RunState) {
    && Sized(accesses) && AfterAll(accesses, cfg.maxEntries, cfg.ttl) == st.sys.cache
    && Told(accesses, st.metrics.results, st.raised)
  }

  lemma QueriedLater(accesses: seq<Access>, at: real, maxEntries: nat, ttl: real) returns (more: seq<Access>)
    requires Sized(accesses)
    ensures more == accesses + [Query(at)] && Sized(more) && Observations(more) == Observations(accesses)
    ensures AfterAll(more, maxEntries, ttl) == Evict(AfterAll(accesses, maxEntries, ttl), at, ttl)
  {
    more := accesses + [Query(at)];
    assert more[..|accesses|] == accesses;
    assert Observations(accesses) + [] == Observations(accesses);
  }

  lemma ObservedLater(accesses: seq<Access>, o: Observation, maxEntries: nat, ttl: real) returns (more: seq<Access>)
    requires Sized(accesses) && o.sizeGb >= 0.0
    ensures more == accesses + [Observe(o)] && Sized(more) && Observations(more) == Observations(accesses) + [o]
    ensures AfterAll(more, maxEntries, ttl) == Update(AfterAll(accesses, maxEntries, ttl), o, maxEntries)
  {
    more := accesses + [Observe(o)];
    assert more[..|accesses|] == accesses;
  }

  lemma AdmittedLater(results: seq<Result>, x: Result)
    ensures AdmittedOnes(results + [x]) == AdmittedOnes(results) + (if x.admitted then [x] else [])
  {
    assert (results + [x])[..|results|] == results;
  }

  // What an execution does to the directory.
  lemma ExecuteTells(cfg: Config, sys: System, r: Request, now: real, i: nat) returns (o: Observation)
    requires GoodConfig(cfg) && i < |cfg.pools| == |sys.pools| && |sys.pools[i].slots| > 0
    ensures var out, evicted := Execute(cfg, sys, r, now, i), Evict(sys.cache, now, cfg.ttl);
            if out.Done? && !out.result.admitted then out.sys.cache == evicted
            else out.sys.cache == Update(evicted, o, cfg.maxEntries) && o.sizeGb >= 0.0
                 && (out.Done? ==> Tells(o, out.result))
  {
    var c := CandidateFor(cfg, sys, r, now, i);
    o := ObservationOf(Placement(cfg.pools[i], sys.pools[i], r, c, now));
  }

  // Told so much more, by one execution.
  lemma ToldMore(accesses: seq<Access>, more: seq<Access>, results: seq<Result>, x: Result, o: Observation)
    requires Told(accesses, results, false)
    requires if x.admitted then Observations(more) == Observations(accesses) + [o] && Tells(o, x)
             else Observations(more) == Observations(accesses)
    ensures Told(more, results + [x], false)
  {
    AdmittedLater(results, x);
  }

  lemma AccessesOf(cfg: Config, accesses: seq<Access>, sys: System, r: Request, k: nat) returns (more: seq<Access>, o: Observation)
    requires GoodConfig(cfg) && k < |cfg.pools| == |sys.pools| && Slotted(sys)
    requires Sized(accesses) && AfterAll(accesses, cfg.maxEntries, cfg.ttl) == sys.cache
    ensures var out := Execute(cfg, Prepared(cfg, sys, r), r, r.arrival, k);
            && Sized(more) && AfterAll(more, cfg.maxEntries, cfg.ttl) == out.sys.cache
            && (if out.Done? && !out.result.admitted then Observations(more) == Observations(accesses)
                else Observations(more) == Observations(accesses) + [o])
            && (out.Done? && out.result.admitted ==> Tells(o, out.result))
  {
    var prepared := Prepared(cfg, sys, r);
    var out := Execute(cfg, prepared, r, r.arrival, k);
    o := ExecuteTells(cfg, prepared, r, r.arrival, k);
    more := QueriedLater(accesses, r.arrival, cfg.maxEntries, cfg.ttl);
    more := QueriedLater(more, r.arrival, cfg.maxEntries, cfg.ttl);
    if out.Raised? || out.result.admitted {
      more := ObservedLater(more, o, cfg.maxEntries, cfg.ttl);
    }
  }

  lemma StepFollows(cfg: Config, accesses: seq<Access>, st: RunState, r: Request, k: nat) returns (more: seq<Access>)
    requires GoodConfig(cfg) && k < |cfg.pools| == |st.sys.pools| && Slotted(st.sys) && !st.raised
    requires Matches(cfg, accesses, st)
    ensures Matches(cfg, more, Step(cfg, st, r, k))
  {
    var o;
    more, o := AccessesOf(cfg, accesses, st.sys, r, k);
    var out := Execute(cfg, Prepared(cfg, st.sys, r), r, r.arrival, k);
    if out.Done? {
      ToldMore(accesses, more, st.metrics.results, out.result, o);
    }
  }

  // In every run the directory is what these observations, and queries between them, leave.
  lemma {:induction false} RunFollows(cfg: Config, trace: Trace) returns (accesses: seq<Access>)
    requires GoodConfig(cfg) && ValidTrace(cfg, trace)
    ensures Matches(cfg, accesses, Run(cfg, trace))
  {
    accesses := [];
    if |trace| > 0 {
      var init, last := trace[..|trace| - 1], trace[|trace| - 1];
      accesses := RunFollows(cfg, init);
      if !Run(cfg, init).raised {
        accesses := StepFollows(cfg, accesses, Run(cfg, init), last.0, last.1);
      }
    }
  }

  // So every entry stands for the requests admitted with its key, at its site, since it was
  // added: it counts those that found something cached.
  lemma RunEntriesStandForPast(cfg: Config, trace: Trace, k: Key, e: Entry) returns (accesses: seq<Access>)
    requires GoodConfig(cfg) && ValidTrace(cfg, trace) && e in Bucket(Run(cfg, trace).sys.cache, k)
    ensures Matches(cfg, accesses, Run(cfg, trace))
    ensures StandsFor(e, Since(accesses, cfg.maxEntries, cfg.ttl, k, e.site))
  {
    accesses := RunFollows(cfg, trace);
    EntryStandsForPast(accesses, cfg.maxEntries, cfg.ttl, k, e);
  }
}
