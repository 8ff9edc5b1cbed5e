// Whole runs of the control plane: what holds in every reachable state, whoever chooses, and
// what holds besides when requests come in order of arrival.
module ControlRun {
  import opened Numbers
  import opened Dicts
  import opened Requests
  import opened Selection
  import opened ControlModel
  import Slots = PoolModel
  import LoadBounds
  import QueueLimit
  import CacheModel
  import CacheDirectory

  // ----- one pool

  ghost predicate MemorySafe(s: PoolSpec, p: Slots.Pool) {
    && p.active <= s.memoryGb && p.reserved >= 0.0 && p.congestion >= 0.0
    && NoneNegative(p.inflight)
  }

  predicate Tight(s: PoolSpec) {
    s.queueLimit <= s.parallelSlots
  }

  // Under a limit no larger than its slot count a pool lets no job wait and few be unfinished.
  ghost predicate NeverCrowded(s: PoolSpec, jobs: seq<Slots.Job>) {
    Tight(s) ==> QueueLimit.NoWait(jobs) && QueueLimit.FewFromPeak(jobs, s.queueLimit)
  }

  // Whatever the order of requests: a sound and even slot book, memory within capacity, and no
  // crowd under a tight limit.
  ghost predicate PoolSafe(s: PoolSpec, p: Slots.Pool) {
    && |p.slots| == s.parallelSlots && p.decisions == |p.jobs|
    && Slots.Sound(p) && LoadBounds.Even(p) && LoadBounds.Replays(p) && MemorySafe(s, p) && NeverCrowded(s, p.jobs)
  }

  // No request and no refresh so far came after `latest`.
  ghost predicate PoolUpTo(p: Slots.Pool, latest: real) {
    Slots.BooksMatch(p, latest) && Slots.Arrived(p.jobs, latest)
  }

  lemma InitOk(s: PoolSpec)
    requires GoodSpec(s)
    ensures var p := Slots.Init(s.parallelSlots); PoolSafe(s, p) && PoolUpTo(p, 0.0) && Slots.InStep(p, 0.0)
  {
    Slots.InitConsistent(s.parallelSlots);
    LoadBounds.RunEven(s.parallelSlots, []);
  }

  ghost predicate NoneNegative(entries: seq<(real, real)>) {
    forall i :: 0 <= i < |entries| ==> entries[i].1 >= 0.0
  }

  lemma {:induction false} UnfinishedMemory(entries: seq<(real, real)>, now: real)
    requires NoneNegative(entries)
    ensures Slots.Memory(Slots.Unfinished(entries, now)) <= Slots.Memory(entries)
    ensures NoneNegative(Slots.Unfinished(entries, now))
  {
    if |entries| > 0 {
      UnfinishedMemory(entries[..|entries| - 1], now);
      Slots.MemoryAppend(Slots.Unfinished(entries[..|entries| - 1], now), entries[|entries| - 1]);
    }
  }

  lemma SameBooks(p: Slots.Pool, q: Slots.Pool)
    requires q.slots == p.slots && q.jobs == p.jobs && q.inflight == p.inflight && q.active == p.active
    ensures Slots.Sound(p) ==> Slots.Sound(q)
    ensures forall t :: Slots.BooksMatch(p, t) ==> Slots.BooksMatch(q, t)
  {
  }

  lemma RefreshKeepsSafe(s: PoolSpec, p: Slots.Pool, cache: CacheModel.Cache, now: real)
    requires PoolSafe(s, p) && GoodSpec(s) && CacheModel.Shape(cache)
    ensures PoolSafe(s, RefreshPool(s, p, cache, now))
  {
    Slots.RefreshKeepsSound(p, now);
    SameBooks(Slots.Refresh(p, now), RefreshPool(s, p, cache, now));
    UnfinishedMemory(p.inflight, now);
    CacheModel.ReservedNonNegative(cache, SiteOf(s));
  }

  lemma RefreshKeepsUpTo(s: PoolSpec, p: Slots.Pool, cache: CacheModel.Cache, latest: real, now: real)
    requires PoolUpTo(p, latest)
    ensures PoolUpTo(RefreshPool(s, p, cache, now), Max(latest, now))
  {
    Slots.RefreshKeepsBooks(p, latest, now);
    SameBooks(Slots.Refresh(p, now), RefreshPool(s, p, cache, now));
  }

  lemma PlaceKeepsMemory(s: PoolSpec, p: Slots.Pool, now: real, duration: real, memory: real)
    requires |p.slots| > 0 && MemorySafe(s, p) && memory > 0.0
    requires Slots.Headroom(s.memoryGb, p.active, p.reserved) >= memory
    ensures var q := Slots.Place(p, now, duration, memory); MemorySafe(s, q) && q.active + q.reserved <= s.memoryGb
  {
  }

  lemma PlaceKeepsUncrowded(s: PoolSpec, p: Slots.Pool, now: real, duration: real, memory: real)
    requires Slots.Sound(p) && |p.slots| == s.parallelSlots && NeverCrowded(s, p.jobs)
    requires duration >= 0.0 && Slots.InflightCount(p.slots, now) < s.queueLimit
    ensures NeverCrowded(s, Slots.Place(p, now, duration, memory).jobs)
  {
    if Tight(s) {
      QueueLimit.PlacedNoWait(p, now, duration, memory, s.queueLimit);
      QueueLimit.PlacedKeepsFew(p, now, duration, memory, s.queueLimit);
    }
  }

  lemma PlaceKeepsSafe(s: PoolSpec, p: Slots.Pool, now: real, duration: real, memory: real, done: nat)
    requires PoolSafe(s, p) && duration >= 0.0 && memory > 0.0
    requires Slots.InflightCount(p.slots, now) < s.queueLimit && Slots.Headroom(s.memoryGb, p.active, p.reserved) >= memory
    ensures PoolSafe(s, Slots.Place(p, now, duration, memory).(completed := done))
    ensures var q := Slots.Place(p, now, duration, memory); q.active + q.reserved <= s.memoryGb
  {
    var q := Slots.Place(p, now, duration, memory);
    Slots.PlaceKeepsSound(p, now, duration, memory);
    SameBooks(q, q.(completed := done));
    LoadBounds.PlaceKeepsEven(p, now, duration, memory);
    LoadBounds.PlaceKeepsReplay(p, now, duration, memory);
    PlaceKeepsMemory(s, p, now, duration, memory);
    PlaceKeepsUncrowded(s, p, now, duration, memory);
  }

  lemma PlaceKeepsInStep(p: Slots.Pool, now: real, duration: real, memory: real, done: nat)
    requires |p.slots| > 0 && Slots.InStep(p, now) && duration >= 0.0
    ensures Slots.InStep(Slots.Place(p, now, duration, memory).(completed := done), now)
  {
    var q := Slots.Place(p, now, duration, memory);
    Slots.PlaceKeepsOrder(p, now, now, duration, memory);
    Slots.PlaceKeepsBookedSolid(p, now, now, duration, memory);
    Slots.PlaceKeepsNoIdling(p, now, now, duration, memory);
    Slots.TimeKeepsInStep(q, q.(completed := done), now, now);
  }

  // ----- the system

  ghost predicate SystemSafe(cfg: Config, sys: System) {
    && |sys.pools| == |cfg.pools|
    && (forall i :: 0 <= i < |cfg.pools| ==> PoolSafe(cfg.pools[i], sys.pools[i]))
    && CacheModel.Shape(sys.cache)
  }

  ghost predicate SystemUpTo(cfg: Config, sys: System, latest: real) {
    |sys.pools| == |cfg.pools| && forall i :: 0 <= i < |cfg.pools| ==> PoolUpTo(sys.pools[i], latest)
  }

  // With requests in order, besides: first come first started, and no idling.
  ghost predicate SystemInStep(cfg: Config, sys: System, now: real) {
    |sys.pools| == |cfg.pools| && forall i :: 0 <= i < |cfg.pools| ==> Slots.InStep(sys.pools[i], now)
  }

  function Start(cfg: Config): System {
    System(seq(|cfg.pools|, i requires 0 <= i < |cfg.pools| => Slots.Init(cfg.pools[i].parallelSlots)), [], [])
  }

  lemma StartOk(cfg: Config)
    requires GoodConfig(cfg)
    ensures SystemSafe(cfg, Start(cfg)) && SystemUpTo(cfg, Start(cfg), 0.0) && SystemInStep(cfg, Start(cfg), 0.0)
  {
    forall i | 0 <= i < |cfg.pools|
      ensures PoolSafe(cfg.pools[i], Start(cfg).pools[i]) && PoolUpTo(Start(cfg).pools[i], 0.0)
      ensures Slots.InStep(Start(cfg).pools[i], 0.0)
    {
      InitOk(cfg.pools[i]);
    }
  }

  lemma PreparedSafe(cfg: Config, sys: System, r: Request)
    requires GoodConfig(cfg) && SystemSafe(cfg, sys)
    ensures SystemSafe(cfg, Prepared(cfg, sys, r)) && Slotted(Prepared(cfg, sys, r))
  {
    var cache := CacheModel.Evict(sys.cache, r.arrival, cfg.ttl);
    CacheModel.KeepShape(sys.cache, CacheModel.Fresh(r.arrival, cfg.ttl));
    forall i | 0 <= i < |cfg.pools| ensures PoolSafe(cfg.pools[i], Prepared(cfg, sys, r).pools[i]) {
      RefreshKeepsSafe(cfg.pools[i], sys.pools[i], cache, r.arrival);
    }
  }

  lemma PreparedUpTo(cfg: Config, sys: System, r: Request, latest: real)
    requires SystemUpTo(cfg, sys, latest)
    ensures SystemUpTo(cfg, Prepared(cfg, sys, r), Max(latest, r.arrival))
  {
    var cache := CacheModel.Evict(sys.cache, r.arrival, cfg.ttl);
    forall i | 0 <= i < |cfg.pools| ensures PoolUpTo(Prepared(cfg, sys, r).pools[i], Max(latest, r.arrival)) {
      RefreshKeepsUpTo(cfg.pools[i], sys.pools[i], cache, latest, r.arrival);
    }
  }

  lemma PreparedInStep(cfg: Config, sys: System, r: Request, earlier: real)
    requires SystemInStep(cfg, sys, earlier) && earlier <= r.arrival
    ensures SystemInStep(cfg, Prepared(cfg, sys, r), r.arrival)
  {
    forall i | 0 <= i < |cfg.pools| ensures Slots.InStep(Prepared(cfg, sys, r).pools[i], r.arrival) {
      Slots.TimeKeepsInStep(sys.pools[i], Prepared(cfg, sys, r).pools[i], earlier, r.arrival);
    }
  }

  lemma DurationNonNegative(cfg: Config, sys: System, r: Request, now: real, i: nat)
    requires GoodConfig(cfg) && i < |cfg.pools| == |sys.pools| && |sys.pools[i].slots| > 0
    requires sys.pools[i].congestion >= 0.0
    ensures ServiceTime(cfg.pools[i], r, CandidateFor(cfg, sys, r, now, i)) >= 0.0
  {
    var c := CandidateFor(cfg, sys, r, now, i);
    assert c.networkCost >= 0.0 && c.congestion >= 0.0;
  }

  lemma AdmissionChecked(s: PoolSpec, slots: seq<real>, headroom: real, r: Request, saved: nat, now: real)
    requires Admission(s, slots, headroom, r, saved, now).Available?
    ensures Slots.InflightCount(slots, now) < s.queueLimit && headroom >= RequestMemoryGb(r, saved)
  {
  }

  // Admission checks the very estimate that placement adds, so the placed pool stays safe.
  lemma AdmittedPoolSafe(cfg: Config, sys: System, r: Request, now: real, i: nat, done: nat)
    requires GoodConfig(cfg) && i < |cfg.pools| == |sys.pools| && PoolSafe(cfg.pools[i], sys.pools[i])
    requires CandidateFor(cfg, sys, r, now, i).status.Available?
    ensures PoolSafe(cfg.pools[i], PlaceOn(cfg, sys, r, now, i).(completed := done))
    ensures var q := PlaceOn(cfg, sys, r, now, i); q.active + q.reserved <= cfg.pools[i].memoryGb
  {
    var c, s, p := CandidateFor(cfg, sys, r, now, i), cfg.pools[i], sys.pools[i];
    DurationNonNegative(cfg, sys, r, now, i);
    AdmissionChecked(s, p.slots, Slots.Headroom(s.memoryGb, p.active, p.reserved), r, c.savedTokens, now);
    PlaceKeepsSafe(s, p, now, ServiceTime(s, r, c), RequestMemoryGb(r, c.savedTokens), done);
  }

  lemma AdmittedPoolInStep(cfg: Config, sys: System, r: Request, now: real, i: nat, done: nat)
    requires GoodConfig(cfg) && i < |cfg.pools| == |sys.pools| && |sys.pools[i].slots| > 0
    requires sys.pools[i].congestion >= 0.0 && Slots.InStep(sys.pools[i], now)
    ensures Slots.InStep(PlaceOn(cfg, sys, r, now, i).(completed := done), now)
  {
    var c, s, p := CandidateFor(cfg, sys, r, now, i), cfg.pools[i], sys.pools[i];
    DurationNonNegative(cfg, sys, r, now, i);
    PlaceKeepsInStep(p, now, ServiceTime(s, r, c), RequestMemoryGb(r, c.savedTokens), done);
  }

  lemma AdmittedPoolUpTo(cfg: Config, sys: System, r: Request, now: real, i: nat, done: nat, latest: real)
    requires GoodConfig(cfg) && i < |cfg.pools| == |sys.pools| && |sys.pools[i].slots| > 0
    requires PoolUpTo(sys.pools[i], latest) && 0.0 <= now <= latest
    ensures PoolUpTo(PlaceOn(cfg, sys, r, now, i).(completed := done), latest)
  {
    var c, s, p := CandidateFor(cfg, sys, r, now, i), cfg.pools[i], sys.pools[i];
    Slots.PlaceKeepsBooks(p, latest, now, ServiceTime(s, r, c), RequestMemoryGb(r, c.savedTokens));
    SameBooks(PlaceOn(cfg, sys, r, now, i), PlaceOn(cfg, sys, r, now, i).(completed := done));
  }

  lemma ObservedCacheOk(cfg: Config, cache: CacheModel.Cache, x: Result)
    requires CacheModel.Shape(cache) && x.memoryGb >= 0.0
    ensures CacheModel.Shape(CacheDirectory.Update(cache, ObservationOf(x), cfg.maxEntries))
  {
    CacheDirectory.UpdateShape(cache, ObservationOf(x), cfg.maxEntries);
  }

  // What placing a request does to the pools and the directory.
  lemma PlacedPools(cfg: Config, sys: System, r: Request, c: Candidate, now: real, i: nat)
    requires i < |cfg.pools| == |sys.pools| && |sys.pools[i].slots| > 0
    ensures var after := Placed(cfg, sys, r, c, now, i);
            var x := Placement(cfg.pools[i], sys.pools[i], r, c, now);
            var q := Slots.Place(sys.pools[i], now, ServiceTime(cfg.pools[i], r, c), RequestMemoryGb(r, c.savedTokens));
            && after.sys.pools == sys.pools[i := q.(completed := q.completed + (if after.Done? then 1 else 0))]
            && after.sys.cache == CacheDirectory.Update(sys.cache, ObservationOf(x), cfg.maxEntries)
            && x.memoryGb >= 0.0
  {
  }

  // The same, for the execution of an admitted request.
  lemma ExecutePlaces(cfg: Config, sys: System, r: Request, now: real, i: nat)
    requires GoodConfig(cfg) && i < |cfg.pools| == |sys.pools| && |sys.pools[i].slots| > 0
    requires CandidateFor(cfg, sys, r, now, i).status.Available?
    ensures var after, q := Execute(cfg, sys, r, now, i), PlaceOn(cfg, sys, r, now, i);
            var x := Placement(cfg.pools[i], sys.pools[i], r, CandidateFor(cfg, sys, r, now, i), now);
            && after.sys.pools == sys.pools[i := q.(completed := q.completed + (if after.Done? then 1 else 0))]
            && after.sys.cache
               == CacheDirectory.Update(CacheModel.Evict(sys.cache, now, cfg.ttl), ObservationOf(x), cfg.maxEntries)
            && x.memoryGb >= 0.0
  {
    PlacedPools(cfg, sys.(cache := CacheModel.Evict(sys.cache, now, cfg.ttl)), r, CandidateFor(cfg, sys, r, now, i), now, i);
  }

  lemma ExecuteSafe(cfg: Config, sys: System, r: Request, now: real, i: nat)
    requires GoodConfig(cfg) && SystemSafe(cfg, sys) && i < |cfg.pools|
    ensures SystemSafe(cfg, Execute(cfg, sys, r, now, i).sys)
  {
    var c, after := CandidateFor(cfg, sys, r, now, i), Execute(cfg, sys, r, now, i);
    var cache := CacheModel.Evict(sys.cache, now, cfg.ttl);
    CacheModel.KeepShape(sys.cache, CacheModel.Fresh(now, cfg.ttl));
    if c.status.Available? {
      ExecutePlaces(cfg, sys, r, now, i);
      AdmittedPoolSafe(cfg, sys, r, now, i, after.sys.pools[i].completed);
      ObservedCacheOk(cfg, cache, Placement(cfg.pools[i], sys.pools[i], r, c, now));
    }
  }

  lemma ExecuteUpTo(cfg: Config, sys: System, r: Request, now: real, i: nat, latest: real)
    requires GoodConfig(cfg) && SystemUpTo(cfg, sys, latest) && i < |cfg.pools| && |sys.pools[i].slots| > 0
    requires 0.0 <= now <= latest
    ensures SystemUpTo(cfg, Execute(cfg, sys, r, now, i).sys, latest)
  {
    if CandidateFor(cfg, sys, r, now, i).status.Available? {
      ExecutePlaces(cfg, sys, r, now, i);
      AdmittedPoolUpTo(cfg, sys, r, now, i, Execute(cfg, sys, r, now, i).sys.pools[i].completed, latest);
    }
  }

  lemma ExecuteInStep(cfg: Config, sys: System, r: Request, now: real, i: nat)
    requires GoodConfig(cfg) && SystemSafe(cfg, sys) && SystemInStep(cfg, sys, now) && i < |cfg.pools|
    ensures SystemInStep(cfg, Execute(cfg, sys, r, now, i).sys, now)
  {
    if CandidateFor(cfg, sys, r, now, i).status.Available? {
      assert PoolSafe(cfg.pools[i], sys.pools[i]);
      ExecutePlaces(cfg, sys, r, now, i);
      AdmittedPoolInStep(cfg, sys, r, now, i, Execute(cfg, sys, r, now, i).sys.pools[i].completed);
    }
  }

  // ----- runs

  datatype Metrics = Metrics(results: seq<Result>, submitted: Dict<string, nat>, completed: Dict<string, nat>)

  // `raised` stands for the exception that would have ended the run.
  datatype RunState = RunState(sys: System, metrics: Metrics, raised: bool)

  function Submitted(m: Metrics, tenantId: string): Metrics {
    m.(submitted := Put(m.submitted, tenantId, Get(m.submitted, tenantId, 0) + 1))
  }

  function Recorded(m: Metrics, x: Result): Metrics {
    var t := x.request.tenantId;
    m.(results := m.results + [x], completed := Put(m.completed, t, Get(m.completed, t, 0) + (if x.admitted then 1 else 0)))
  }

  function Concluded(o: Outcome, metrics: Metrics): RunState {
    match o
    case Done(sys, x) => RunState(sys, Recorded(metrics, x), false)
    case Raised(sys) => RunState(sys, metrics, true)
  }

  // One request, placed wherever `choice` says.
  ghost function Step(cfg: Config, st: RunState, r: Request, choice: nat): (st': RunState)
    requires GoodConfig(cfg) && choice < |cfg.pools| == |st.sys.pools| && Slotted(st.sys)
    ensures |st'.sys.pools| == |cfg.pools| && Slotted(st'.sys)
  {
    Concluded(Execute(cfg, Prepared(cfg, st.sys, r), r, r.arrival, choice), Submitted(st.metrics, r.tenantId))
  }

  type Trace = seq<(Request, nat)>

  // Valid requests in any order, each with any choice of pool.
  ghost predicate ValidTrace(cfg: Config, trace: Trace) {
    forall i :: 0 <= i < |trace| ==> ValidRequest(trace[i].0) && trace[i].1 < |cfg.pools|
  }

  ghost predicate InOrder(trace: Trace) {
    forall i, k :: 0 <= i < k < |trace| ==> trace[i].0.arrival <= trace[k].0.arrival
  }

  function LastArrival(trace: Trace): real {
    if |trace| == 0 then 0.0 else trace[|trace| - 1].0.arrival
  }

  function LatestArrival(trace: Trace): (t: real)
    ensures t >= 0.0 && forall i :: 0 <= i < |trace| ==> trace[i].0.arrival <= t
  {
    if |trace| == 0 then 0.0 else Max(LatestArrival(trace[..|trace| - 1]), trace[|trace| - 1].0.arrival)
  }

  // The state after a trace.  A run stops at the first exception.
  ghost function Run(cfg: Config, trace: Trace): (st: RunState)
    requires GoodConfig(cfg) && ValidTrace(cfg, trace)
    ensures |st.sys.pools| == |cfg.pools| && Slotted(st.sys)
  {
    if |trace| == 0 then RunState(Start(cfg), Metrics([], [], []), false)
    else
      var before := Run(cfg, trace[..|trace| - 1]);
      if before.raised then before else Step(cfg, before, trace[|trace| - 1].0, trace[|trace| - 1].1)
  }

  lemma RunStep(cfg: Config, trace: Trace, trace': Trace)
    requires GoodConfig(cfg) && ValidTrace(cfg, trace) && ValidTrace(cfg, trace')
    requires |trace'| == |trace| + 1 && trace'[..|trace|] == trace && !Run(cfg, trace).raised
    ensures Run(cfg, trace') == Step(cfg, Run(cfg, trace), trace'[|trace|].0, trace'[|trace|].1)
  {
  }

  // In every reachable state, in whatever order requests come and whoever chooses, every pool
  // is safe and the directory is in shape; and no request and no refresh came after the latest.
  lemma {:induction false} RunSafe(cfg: Config, trace: Trace)
    requires GoodConfig(cfg) && ValidTrace(cfg, trace)
    ensures SystemSafe(cfg, Run(cfg, trace).sys)
    ensures SystemUpTo(cfg, Run(cfg, trace).sys, LatestArrival(trace))
  {
    if |trace| == 0 {
      StartOk(cfg);
    } else {
      var init, r, choice := trace[..|trace| - 1], trace[|trace| - 1].0, trace[|trace| - 1].1;
      var before := Run(cfg, init);
      RunSafe(cfg, init);
      if !before.raised {
        PreparedSafe(cfg, before.sys, r);
        PreparedUpTo(cfg, before.sys, r, LatestArrival(init));
        ExecuteSafe(cfg, Prepared(cfg, before.sys, r), r, r.arrival, choice);
        ExecuteUpTo(cfg, Prepared(cfg, before.sys, r), r, r.arrival, choice, LatestArrival(trace));
      }
    }
  }

  lemma InStepLater(cfg: Config, sys: System, earlier: real, now: real)
    requires SystemInStep(cfg, sys, earlier) && earlier <= now
    ensures SystemInStep(cfg, sys, now)
  {
    forall i | 0 <= i < |cfg.pools| ensures Slots.InStep(sys.pools[i], now) {
      Slots.TimeKeepsInStep(sys.pools[i], sys.pools[i], earlier, now);
    }
  }

  // With requests in order of arrival, every pool also starts jobs first come first served and
  // lets no slot idle while a job waits.
  lemma {:induction false} RunInStep(cfg: Config, trace: Trace)
    requires GoodConfig(cfg) && ValidTrace(cfg, trace) && InOrder(trace)
    ensures SystemInStep(cfg, Run(cfg, trace).sys, LastArrival(trace))
  {
    if |trace| == 0 {
      StartOk(cfg);
    } else {
      var init, r := trace[..|trace| - 1], trace[|trace| - 1].0;
      var before := Run(cfg, init);
      RunInStep(cfg, init);
      if before.raised {
        InStepLater(cfg, before.sys, LastArrival(init), r.arrival);
      } else {
        RunSafe(cfg, init);
        PreparedSafe(cfg, before.sys, r);
        PreparedInStep(cfg, before.sys, r, LastArrival(init));
        ExecuteInStep(cfg, Prepared(cfg, before.sys, r), r, r.arrival, trace[|trace| - 1].1);
      }
    }
  }
}
