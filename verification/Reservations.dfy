// Memory in use and memory held for cached prefixes: what the two come to after the next
// refresh, and exactly when they still fit a pool.
module Reservations {
  import opened Numbers
  import opened Dicts
  import opened Requests
  import opened Backends
  import opened Selection
  import opened ControlModel
  import opened ControlRun
  import Slots = PoolModel
  import CacheModel
  import CacheUpdate
  import CacheDirectory
  import CacheLimits
  import TopologyBuild

  // ----- the directory's side

  lemma {:induction false} ReservedInFront(b: seq<CacheModel.Entry>, site: CacheModel.Site)
    requires |b| > 0
    ensures CacheModel.ReservedIn(b, site)
         == (if b[0].site == site then b[0].sizeGb else 0.0) + CacheModel.ReservedIn(b[1..], site)
  {
    var n := |b| - 1;
    if n > 0 {
      ReservedInFront(b[..n], site);
      assert b[1..][..n - 1] == b[..n][1..] && b[1..][n - 1] == b[n];
    }
  }

  lemma {:induction false} ReservedFront(c: CacheModel.Cache, site: CacheModel.Site)
    requires |c| > 0
    ensures CacheModel.Reserved(c, site) == CacheModel.ReservedIn(c[0].1, site) + CacheModel.Reserved(c[1..], site)
  {
    var n := |c| - 1;
    if n > 0 {
      ReservedFront(c[..n], site);
      assert c[1..][..n - 1] == c[..n][1..] && c[1..][n - 1] == c[n];
    }
  }

  // Replacing a bucket changes what is held for a site by the change of that bucket.
  lemma {:induction false} ReservedPut(c: CacheModel.Cache, k: CacheModel.Key, b: seq<CacheModel.Entry>, site: CacheModel.Site)
    ensures CacheModel.Reserved(Put(c, k, b), site) + CacheModel.ReservedIn(CacheModel.Bucket(c, k), site)
         == CacheModel.Reserved(c, site) + CacheModel.ReservedIn(b, site)
  {
    var after := Put(c, k, b);
    ReservedFront(after, site);
    if |c| > 0 {
      ReservedFront(c, site);
      if c[0].0 == k {
        assert after[1..] == c[1..];
      } else {
        ReservedPut(c[1..], k, b, site);
        assert after[1..] == Put(c[1..], k, b);
      }
    }
  }

  lemma {:induction false} ReservedElsewhere(b: seq<CacheModel.Entry>, site: CacheModel.Site)
    requires forall i :: 0 <= i < |b| ==> b[i].site != site
    ensures CacheModel.ReservedIn(b, site) == 0.0
  {
    if |b| > 0 {
      ReservedElsewhere(b[..|b| - 1], site);
    }
  }

  // A site holds one entry of a key at most, the larger of what it held and what it observes.
  lemma {:induction false} ReservedTouched(b: seq<CacheModel.Entry>, o: CacheUpdate.Observation)
    requires CacheModel.DistinctSites(b) && o.sizeGb >= 0.0
    ensures CacheModel.ReservedIn(CacheUpdate.TouchOrAdd(b, o), o.site) == Max(CacheModel.ReservedIn(b, o.site), o.sizeGb)
  {
    var r := CacheUpdate.TouchOrAdd(b, o);
    ReservedInFront(r, o.site);
    if |b| == 0 {
      assert r[1..] == [];
    } else {
      ReservedInFront(b, o.site);
      if b[0].site == o.site {
        forall i | 0 <= i < |b[1..]| ensures b[1..][i].site != o.site {
          assert b[i + 1].site != b[0].site;
        }
        ReservedElsewhere(b[1..], o.site);
        assert r[1..] == b[1..];
      } else {
        ReservedTouched(b[1..], o);
        assert r[1..] == CacheUpdate.TouchOrAdd(b[1..], o);
      }
    }
  }

  predicate HoldsSite(b: seq<CacheModel.Entry>, site: CacheModel.Site) {
    exists i :: 0 <= i < |b| && b[i].site == site
  }

  // Touching an entry of this key and site needs no room; a new one needs a place in its bucket
  // and in the directory.
  predicate Roomy(c: CacheModel.Cache, k: CacheModel.Key, site: CacheModel.Site, maxEntries: nat) {
    if HoldsSite(CacheModel.Bucket(c, k), site) then CacheLimits.TotalEntries(c) <= maxEntries
    else |CacheModel.Bucket(c, k)| < 4 && CacheLimits.TotalEntries(c) < maxEntries
  }

  lemma {:induction false} TouchLength(b: seq<CacheModel.Entry>, o: CacheUpdate.Observation)
    ensures |CacheUpdate.TouchOrAdd(b, o)| == if HoldsSite(b, o.site) then |b| else |b| + 1
  {
    if |b| > 0 && b[0].site != o.site {
      TouchLength(b[1..], o);
      if i :| 0 <= i < |b| && b[i].site == o.site {
        assert b[1..][i - 1].site == o.site;
      }
    }
  }

  lemma RoomyUpdate(c: CacheModel.Cache, o: CacheUpdate.Observation, maxEntries: nat)
    requires CacheModel.Shape(c) && Roomy(c, o.key, o.site, maxEntries)
    ensures var touched := Put(c, o.key, CacheUpdate.TouchOrAdd(CacheModel.Bucket(c, o.key), o));
            && CacheUpdate.Observed(c, o) == touched && CacheDirectory.Update(c, o, maxEntries) == touched
            && !CacheDirectory.TrimRaises(touched, maxEntries)
  {
    var b := CacheModel.Bucket(c, o.key);
    CacheModel.BucketGood(c, o.key);
    TouchLength(b, o);
    CacheLimits.TotalPut(c, o.key, CacheUpdate.TouchOrAdd(b, o));
    CacheLimits.TotalIsItems(CacheUpdate.Observed(c, o));
    CacheLimits.NothingToTrim(CacheUpdate.Observed(c, o), maxEntries);
  }

  // Every entry is still within its time to live.
  ghost predicate AllFresh(c: CacheModel.Cache, now: real, ttl: real) {
    forall i, j :: 0 <= i < |c| && 0 <= j < |c[i].1| ==> now - c[i].1[j].touched <= ttl
  }

  lemma {:induction false} FreshStays(c: CacheModel.Cache, now: real, ttl: real)
    requires AllFresh(c, now, ttl) && forall i :: 0 <= i < |c| ==> |c[i].1| > 0
    ensures CacheModel.Evict(c, now, ttl) == c
  {
    if |c| > 0 {
      CacheUpdate.KeepInAll(c[0].1, c[0].0, CacheModel.Fresh(now, ttl));
      forall i, j | 0 <= i < |c[1..]| && 0 <= j < |c[1..][i].1| ensures now - c[1..][i].1[j].touched <= ttl {
        assert c[1..][i] == c[i + 1];
      }
      FreshStays(c[1..], now, ttl);
    }
  }

  lemma TouchedFresh(b: seq<CacheModel.Entry>, o: CacheUpdate.Observation, now: real, ttl: real)
    requires CacheModel.DistinctSites(b) && o.sizeGb >= 0.0 && forall i :: 0 <= i < |b| ==> CacheModel.WellDated(b[i])
    requires now < o.completion && ttl > 0.0 && forall i :: 0 <= i < |b| ==> now - b[i].touched <= ttl
    ensures var r := CacheUpdate.TouchOrAdd(b, o); forall i :: 0 <= i < |r| ==> now - r[i].touched <= ttl
  {
    CacheUpdate.TouchKeeps(b, o);
  }

  lemma {:induction false} BucketFresh(c: CacheModel.Cache, k: CacheModel.Key, now: real, ttl: real)
    requires AllFresh(c, now, ttl)
    ensures forall j :: 0 <= j < |CacheModel.Bucket(c, k)| ==> now - CacheModel.Bucket(c, k)[j].touched <= ttl
  {
    if |c| > 0 && c[0].0 != k {
      forall i, j | 0 <= i < |c[1..]| && 0 <= j < |c[1..][i].1| ensures now - c[1..][i].1[j].touched <= ttl {
        assert c[1..][i] == c[i + 1];
      }
      BucketFresh(c[1..], k, now, ttl);
      assert CacheModel.Bucket(c, k) == CacheModel.Bucket(c[1..], k);
    } else if |c| > 0 {
      forall j | 0 <= j < |c[0].1| ensures now - c[0].1[j].touched <= ttl {
      }
      assert CacheModel.Bucket(c, k) == c[0].1;
    } else {
      assert CacheModel.Bucket(c, k) == [];
    }
  }

  lemma PutFresh(c: CacheModel.Cache, k: CacheModel.Key, b: seq<CacheModel.Entry>, now: real, ttl: real)
    requires UniqueKeys(c) && AllFresh(c, now, ttl) && forall j :: 0 <= j < |b| ==> now - b[j].touched <= ttl
    ensures AllFresh(Put(c, k, b), now, ttl)
  {
    PutUnique(c, k, b);
    var r := Put(c, k, b);
    forall i, j | 0 <= i < |r| && 0 <= j < |r[i].1| ensures now - r[i].1[j].touched <= ttl {
      if r[i] != (k, b) {
        var at :| 0 <= at < |c| && c[at] == r[i];
      }
    }
  }

  lemma UpdatedStays(c: CacheModel.Cache, o: CacheUpdate.Observation, maxEntries: nat, now: real, ttl: real)
    requires CacheModel.Shape(c) && o.sizeGb >= 0.0 && Roomy(c, o.key, o.site, maxEntries)
    requires AllFresh(c, now, ttl) && now < o.completion && ttl > 0.0
    ensures CacheModel.Evict(CacheDirectory.Update(c, o, maxEntries), now, ttl)
         == Put(c, o.key, CacheUpdate.TouchOrAdd(CacheModel.Bucket(c, o.key), o))
  {
    var b := CacheModel.Bucket(c, o.key);
    var touched := CacheUpdate.TouchOrAdd(b, o);
    CacheModel.BucketGood(c, o.key);
    RoomyUpdate(c, o, maxEntries);
    CacheDirectory.UpdateShape(c, o, maxEntries);
    BucketFresh(c, o.key, now, ttl);
    TouchedFresh(b, o, now, ttl);
    PutFresh(c, o.key, touched, now, ttl);
    FreshStays(Put(c, o.key, touched), now, ttl);
  }

  // What an observation adds to its site.
  function Added(cache: CacheModel.Cache, o: CacheUpdate.Observation): real {
    Max(0.0, o.sizeGb - CacheModel.ReservedIn(CacheModel.Bucket(cache, o.key), o.site))
  }

  lemma HeldInTouched(c: CacheModel.Cache, o: CacheUpdate.Observation)
    requires CacheModel.Shape(c) && o.sizeGb >= 0.0
    ensures CacheModel.Reserved(Put(c, o.key, CacheUpdate.TouchOrAdd(CacheModel.Bucket(c, o.key), o)), o.site)
         == CacheModel.Reserved(c, o.site) + Added(c, o)
  {
    var b := CacheModel.Bucket(c, o.key);
    CacheModel.BucketGood(c, o.key);
    ReservedTouched(b, o);
    ReservedPut(c, o.key, CacheUpdate.TouchOrAdd(b, o), o.site);
  }

  // What a site holds after an observation that displaces nothing, once the directory has been
  // evicted at a time when everything is still fresh.
  lemma HeldAfterwards(c: CacheModel.Cache, o: CacheUpdate.Observation, maxEntries: nat, now: real, ttl: real)
    requires CacheModel.Shape(c) && o.sizeGb >= 0.0 && Roomy(c, o.key, o.site, maxEntries)
    requires AllFresh(c, now, ttl) && now < o.completion && ttl > 0.0
    ensures CacheModel.Reserved(CacheModel.Evict(CacheDirectory.Update(c, o, maxEntries), now, ttl), o.site)
         == CacheModel.Reserved(c, o.site) + Added(c, o)
  {
    UpdatedStays(c, o, maxEntries, now, ttl);
    HeldInTouched(c, o);
  }

  // ----- the pool's side

  lemma {:induction false} AllUnfinished(entries: seq<(real, real)>, now: real)
    requires forall i :: 0 <= i < |entries| ==> entries[i].0 > now
    ensures Slots.Unfinished(entries, now) == entries
  {
    if |entries| > 0 {
      AllUnfinished(entries[..|entries| - 1], now);
    }
  }

  lemma GrownPool(s: PoolSpec, p: Slots.Pool, q: Slots.Pool, e: (real, real), cache: CacheModel.Cache, now: real)
    requires p.active == Slots.Memory(p.inflight) && q.inflight == p.inflight + [e]
    requires e.0 > now && forall j :: 0 <= j < |p.inflight| ==> p.inflight[j].0 > now
    ensures RefreshPool(s, q, cache, now).active == p.active + e.1
    ensures RefreshPool(s, q, cache, now).reserved == CacheModel.Reserved(cache, SiteOf(s))
  {
    AllUnfinished(q.inflight, now);
    Slots.MemoryAppend(p.inflight, e);
  }

  // ----- both

  // 55% of the reported memory, less what the site holds for the request's prefix already.
  function Growth(cache: CacheModel.Cache, r: Request, site: CacheModel.Site, need: real): real {
    Max(0.0, Round4(need) * 0.55 - CacheModel.ReservedIn(CacheModel.Bucket(cache, r.cacheKey), site))
  }

  // No job of the pool, the new one included, ends and no entry expires by the time `later`.
  ghost predicate Quiet(cfg: Config, sys: System, r: Request, c: Candidate, i: nat, later: real)
    requires i < |cfg.pools| == |sys.pools| && |sys.pools[i].slots| > 0
  {
    && (forall j :: 0 <= j < |sys.pools[i].inflight| ==> sys.pools[i].inflight[j].0 > later)
    && Placement(cfg.pools[i], sys.pools[i], r, c, r.arrival).completion > later
    && AllFresh(sys.cache, later, cfg.ttl)
  }

  lemma PlacedEntry(cfg: Config, sys: System, r: Request, c: Candidate, now: real, i: nat)
    returns (e: (real, real), o: CacheUpdate.Observation, after: System)
    requires i < |cfg.pools| == |sys.pools| && |sys.pools[i].slots| > 0
    ensures e == (Placement(cfg.pools[i], sys.pools[i], r, c, now).completion, RequestMemoryGb(r, c.savedTokens))
    ensures o.key == r.cacheKey && o.site == SiteOf(cfg.pools[i]) && o.sizeGb == Round4(e.1) * 0.55 >= 0.0
    ensures o.completion == e.0
    ensures after == Placed(cfg, sys, r, c, now, i).sys
    ensures |after.pools| == |sys.pools| && after.pools[i].inflight == sys.pools[i].inflight + [e]
    ensures after.cache == CacheDirectory.Update(sys.cache, o, cfg.maxEntries)
  {
    after := Placed(cfg, sys, r, c, now, i).sys;
    var x := Placement(cfg.pools[i], sys.pools[i], r, c, now);
    e := (x.completion, RequestMemoryGb(r, c.savedTokens));
    o := ObservationOf(x);
    PlacedPools(cfg, sys, r, c, now, i);
  }

  lemma PreparedPool(cfg: Config, sys: System, r: Request, i: nat)
    requires i < |cfg.pools| == |sys.pools|
    ensures Prepared(cfg, sys, r).pools[i]
         == RefreshPool(cfg.pools[i], sys.pools[i], CacheModel.Evict(sys.cache, r.arrival, cfg.ttl), r.arrival)
  {
  }

  // A new entry of the pool, and the observation of it, where nothing ends by the time `later`.
  ghost predicate Coming(cfg: Config, sys: System, e: (real, real), o: CacheUpdate.Observation, i: nat, later: real)
    requires i < |cfg.pools| == |sys.pools|
  {
    && CacheModel.Shape(sys.cache) && sys.pools[i].active == Slots.Memory(sys.pools[i].inflight)
    && o.site == SiteOf(cfg.pools[i]) && o.sizeGb >= 0.0 && o.completion == e.0 > later
    && Roomy(sys.cache, o.key, o.site, cfg.maxEntries) && AllFresh(sys.cache, later, cfg.ttl)
    && forall j :: 0 <= j < |sys.pools[i].inflight| ==> sys.pools[i].inflight[j].0 > later
  }

  lemma EntrySeen(cfg: Config, sys: System, after: System, e: (real, real), o: CacheUpdate.Observation, i: nat, later: Request)
    requires GoodConfig(cfg) && i < |cfg.pools| == |sys.pools| == |after.pools|
    requires Coming(cfg, sys, e, o, i, later.arrival)
    requires after.pools[i].inflight == sys.pools[i].inflight + [e]
    requires after.cache == CacheDirectory.Update(sys.cache, o, cfg.maxEntries)
    ensures var q := Prepared(cfg, after, later).pools[i];
            && q.active == sys.pools[i].active + e.1
            && q.reserved == CacheModel.Reserved(sys.cache, o.site) + Added(sys.cache, o)
  {
    PreparedPool(cfg, after, later, i);
    var evicted := CacheModel.Evict(after.cache, later.arrival, cfg.ttl);
    GrownPool(cfg.pools[i], sys.pools[i], after.pools[i], e, evicted, later.arrival);
    ComingHeld(cfg, sys, e, o, i, later.arrival);
  }

  lemma ComingHeld(cfg: Config, sys: System, e: (real, real), o: CacheUpdate.Observation, i: nat, later: real)
    requires GoodConfig(cfg) && i < |cfg.pools| == |sys.pools| && Coming(cfg, sys, e, o, i, later)
    ensures CacheModel.Reserved(CacheModel.Evict(CacheDirectory.Update(sys.cache, o, cfg.maxEntries), later, cfg.ttl), o.site)
         == CacheModel.Reserved(sys.cache, o.site) + Added(sys.cache, o)
  {
    HeldAfterwards(sys.cache, o, cfg.maxEntries, later, cfg.ttl);
  }

  lemma ObservedGrowth(cache: CacheModel.Cache, r: Request, site: CacheModel.Site, need: real, o: CacheUpdate.Observation)
    requires o.key == r.cacheKey && o.site == site && o.sizeGb == Round4(need) * 0.55
    ensures Added(cache, o) == Growth(cache, r, site, need)
  {
  }

  lemma PlacedComing(cfg: Config, sys: System, r: Request, c: Candidate, i: nat, later: real, e: (real, real),
                     o: CacheUpdate.Observation)
    requires i < |cfg.pools| == |sys.pools| && |sys.pools[i].slots| > 0
    requires CacheModel.Shape(sys.cache) && sys.pools[i].active == Slots.Memory(sys.pools[i].inflight)
    requires Roomy(sys.cache, r.cacheKey, SiteOf(cfg.pools[i]), cfg.maxEntries) && Quiet(cfg, sys, r, c, i, later)
    requires e.0 == Placement(cfg.pools[i], sys.pools[i], r, c, r.arrival).completion
    requires o.key == r.cacheKey && o.site == SiteOf(cfg.pools[i]) && o.sizeGb >= 0.0 && o.completion == e.0
    ensures Coming(cfg, sys, e, o, i, later)
  {
  }

  // One placement, seen by the refresh after it.
  lemma PlacementSeen(cfg: Config, sys: System, r: Request, c: Candidate, i: nat, later: Request) returns (after: System)
    requires GoodConfig(cfg) && i < |cfg.pools| == |sys.pools| && |sys.pools[i].slots| > 0
    requires CacheModel.Shape(sys.cache) && sys.pools[i].active == Slots.Memory(sys.pools[i].inflight)
    requires Roomy(sys.cache, r.cacheKey, SiteOf(cfg.pools[i]), cfg.maxEntries)
    requires Quiet(cfg, sys, r, c, i, later.arrival)
    ensures after == Placed(cfg, sys, r, c, r.arrival, i).sys
    ensures var q := Prepared(cfg, after, later).pools[i];
            var need := RequestMemoryGb(r, c.savedTokens);
            && q.active == sys.pools[i].active + need
            && q.reserved == CacheModel.Reserved(sys.cache, SiteOf(cfg.pools[i]))
                             + Growth(sys.cache, r, SiteOf(cfg.pools[i]), need)
  {
    var e, o;
    e, o, after := PlacedEntry(cfg, sys, r, c, r.arrival, i);
    PlacedComing(cfg, sys, r, c, i, later.arrival, e, o);
    ObservedGrowth(sys.cache, r, SiteOf(cfg.pools[i]), e.1, o);
    EntrySeen(cfg, sys, after, e, o, i, later);
  }

  // The pool would admit the request, whose entry would displace no other; and by the time
  // `later` none of its jobs would have ended and no entry expired.
  ghost predicate Undisturbed(cfg: Config, sys: System, r: Request, i: nat, later: real)
    requires GoodConfig(cfg) && i < |cfg.pools| == |sys.pools| && Slotted(sys)
  {
    var before := Prepared(cfg, sys, r);
    var c := CandidateFor(cfg, before, r, r.arrival, i);
    c.status.Available? && Quiet(cfg, before, r, c, i, later)
    && Roomy(before.cache, r.cacheKey, SiteOf(cfg.pools[i]), cfg.maxEntries)
  }

  function NeedAt(cfg: Config, sys: System, r: Request, i: nat): (gb: real)
    requires GoodConfig(cfg) && i < |cfg.pools| == |sys.pools| && Slotted(sys)
    ensures gb > 0.0
  {
    RequestMemoryGb(r, CandidateFor(cfg, Prepared(cfg, sys, r), r, r.arrival, i).savedTokens)
  }

  function GrowthAt(cfg: Config, sys: System, r: Request, i: nat): (gb: real)
    requires GoodConfig(cfg) && i < |cfg.pools| == |sys.pools| && Slotted(sys)
    ensures gb >= 0.0
  {
    Growth(Prepared(cfg, sys, r).cache, r, SiteOf(cfg.pools[i]), NeedAt(cfg, sys, r, i))
  }

  // After one placement, memory in use and memory held come to what they were, plus the need
  // of the request and the growth of the directory.
  lemma NextRefreshAdds(cfg: Config, sys: System, r: Request, i: nat, later: Request)
    requires GoodConfig(cfg) && SystemSafe(cfg, sys) && i < |cfg.pools| && Undisturbed(cfg, sys, r, i, later.arrival)
    ensures var before := Prepared(cfg, sys, r);
            var q := Prepared(cfg, Execute(cfg, before, r, r.arrival, i).sys, later).pools[i];
            && q.active == before.pools[i].active + NeedAt(cfg, sys, r, i)
            && q.reserved == before.pools[i].reserved + GrowthAt(cfg, sys, r, i)
  {
    var before := Prepared(cfg, sys, r);
    var c := CandidateFor(cfg, before, r, r.arrival, i);
    PreparedSafe(cfg, sys, r);
    assert PoolSafe(cfg.pools[i], before.pools[i]);
    CacheModel.EvictTwice(sys.cache, r.arrival, r.arrival, cfg.ttl);
    assert Execute(cfg, before, r, r.arrival, i) == Placed(cfg, before, r, c, r.arrival, i);
    var after := PlacementSeen(cfg, before, r, c, i, later);
  }

  function HeadroomAt(cfg: Config, sys: System, r: Request, i: nat): real
    requires i < |cfg.pools| == |sys.pools|
  {
    var p := Prepared(cfg, sys, r).pools[i];
    Slots.Headroom(cfg.pools[i].memoryGb, p.active, p.reserved)
  }

  lemma AdmittedHasHeadroom(cfg: Config, sys: System, r: Request, i: nat)
    requires GoodConfig(cfg) && i < |cfg.pools| == |sys.pools| && Slotted(sys)
    requires CandidateFor(cfg, Prepared(cfg, sys, r), r, r.arrival, i).status.Available?
    ensures HeadroomAt(cfg, sys, r, i) >= NeedAt(cfg, sys, r, i)
  {
    var before := Prepared(cfg, sys, r);
    AdmissionChecked(cfg.pools[i], before.pools[i].slots, HeadroomAt(cfg, sys, r, i), r,
                     CandidateFor(cfg, before, r, r.arrival, i).savedTokens, r.arrival);
  }

  lemma SumFitsIff(memoryGb: real, active: real, reserved: real, need: real, growth: real)
    requires need > 0.0 && growth >= 0.0 && Slots.Headroom(memoryGb, active, reserved) >= need
    ensures (active + need) + (reserved + growth) <= memoryGb
       <==> Slots.Headroom(memoryGb, active, reserved) >= need + growth
  {
  }

  // Admission leaves room for the request but not for what the directory will hold for its
  // prefix.  In any run, after a request whose entry displaces no other, and until a job ends
  // or an entry expires, memory in use and memory held still fit the pool if and only if its
  // headroom covered both.
  lemma StillFitsIff(cfg: Config, trace: Trace, r: Request, i: nat, later: Request)
    requires GoodConfig(cfg) && ValidTrace(cfg, trace) && ValidRequest(r) && i < |cfg.pools|
    requires !Run(cfg, trace).raised && Undisturbed(cfg, Run(cfg, trace).sys, r, i, later.arrival)
    ensures ValidTrace(cfg, trace + [(r, i)])
    ensures var sys := Run(cfg, trace).sys;
            var q := Prepared(cfg, Run(cfg, trace + [(r, i)]).sys, later).pools[i];
            q.active + q.reserved <= cfg.pools[i].memoryGb
            <==> HeadroomAt(cfg, sys, r, i) >= NeedAt(cfg, sys, r, i) + GrowthAt(cfg, sys, r, i)
  {
    var sys := Run(cfg, trace).sys;
    RunSafe(cfg, trace);
    RunLonger(cfg, trace, r, i);
    NextRefreshAdds(cfg, sys, r, i, later);
    AdmittedHasHeadroom(cfg, sys, r, i);
    var p := Prepared(cfg, sys, r).pools[i];
    SumFitsIff(cfg.pools[i].memoryGb, p.active, p.reserved, NeedAt(cfg, sys, r, i), GrowthAt(cfg, sys, r, i));
  }

  lemma RunLonger(cfg: Config, trace: Trace, r: Request, i: nat)
    requires GoodConfig(cfg) && ValidTrace(cfg, trace) && ValidRequest(r) && i < |cfg.pools|
    requires !Run(cfg, trace).raised
    ensures ValidTrace(cfg, trace + [(r, i)])
    ensures Run(cfg, trace + [(r, i)]).sys == Execute(cfg, Prepared(cfg, Run(cfg, trace).sys, r), r, r.arrival, i).sys
  {
    assert (trace + [(r, i)])[..|trace|] == trace;
  }

  // ----- a run of one request

  // A first request that its only pool will admit at time zero.
  ghost predicate Lone(cfg: Config, r: Request) {
    && GoodConfig(cfg) && ValidRequest(r) && r.arrival == 0.0 && |cfg.pools| == 1 && cfg.maxEntries > 0
    && var s := cfg.pools[0];
       && s.parallelSlots == 1 && s.queueLimit > 0 && !ClusterDown(s.cluster, 0.0) && |s.models| == 0
       && s.memoryGb >= RequestMemoryGb(r, 0)
  }

  lemma LoneBefore(cfg: Config, r: Request)
    requires Lone(cfg, r)
    ensures Run(cfg, []).sys == Start(cfg) && !Run(cfg, []).raised
    ensures var before := Prepared(cfg, Start(cfg), r);
            && before.cache == [] && before.pools[0].slots == [0.0] && before.pools[0].inflight == []
            && before.pools[0].active == 0.0 && before.pools[0].reserved == 0.0 && before.pools[0].congestion >= 0.0
  {
  }

  lemma LoneAdmitted(s: PoolSpec, slots: seq<real>, headroom: real, r: Request)
    requires slots == [0.0] && s.queueLimit > 0 && !ClusterDown(s.cluster, 0.0) && |s.models| == 0
    requires headroom >= RequestMemoryGb(r, 0)
    ensures Admission(s, slots, headroom, r, 0, 0.0).Available?
  {
    assert slots[..0] == [] && Slots.InflightCount(slots, 0.0) == 0;
  }

  lemma NothingCached(key: CacheModel.Key, site: CacheModel.Site, promptTokens: nat, ttl: real)
    requires ttl > 0.0
    ensures CacheModel.ScoreOf([], key, site, promptTokens, 0.0, ttl) == (0.0, 0) && Round4(0.0) == 0.0
  {
  }

  lemma LoneCandidate(cfg: Config, r: Request)
    requires Lone(cfg, r)
    ensures var c := CandidateFor(cfg, Prepared(cfg, Start(cfg), r), r, 0.0, 0);
            c.status.Available? && c.savedTokens == 0 && c.hitRatio == 0.0 && c.networkCost >= 0.0 && c.congestion >= 0.0
  {
    LoneBefore(cfg, r);
    NothingCached(r.cacheKey, SiteOf(cfg.pools[0]), r.promptTokens, cfg.ttl);
    LoneAdmitted(cfg.pools[0], [0.0], Slots.Headroom(cfg.pools[0].memoryGb, 0.0, 0.0), r);
  }

  lemma LoneUndisturbed(cfg: Config, r: Request)
    requires Lone(cfg, r)
    requires ServiceTime(cfg.pools[0], r, CandidateFor(cfg, Prepared(cfg, Start(cfg), r), r, 0.0, 0)) > 0.0
    ensures Undisturbed(cfg, Start(cfg), r, 0, 0.0)
    ensures HeadroomAt(cfg, Start(cfg), r, 0) == cfg.pools[0].memoryGb
    ensures NeedAt(cfg, Start(cfg), r, 0) == RequestMemoryGb(r, 0)
  {
    LoneBefore(cfg, r);
    LoneCandidate(cfg, r);
  }

  lemma LoneGrowth(cfg: Config, r: Request)
    requires Lone(cfg, r) && NeedAt(cfg, Start(cfg), r, 0) == RequestMemoryGb(r, 0)
    ensures GrowthAt(cfg, Start(cfg), r, 0) == Round4(RequestMemoryGb(r, 0)) * 0.55
  {
    LoneBefore(cfg, r);
    assert CacheModel.Bucket([], r.cacheKey) == [];
  }

  // One pool of 1.5 GB with one slot, and a request that needs 1.15 GB.
  function SmallConfig(): Config {
    Config([PoolSpec(Cluster("c", 0.0, 0.0, [], []), "p", Mock, {}, Rates(1.0, 1.0), 1.5, 1, 0.0, 0.0, false, 2,
                     TopologyBuild.Ethernet, TopologyBuild.NoProbe)], [], 0.0, 180.0, 20000)
  }

  function Filling(): Request {
    Request("r", "t", OtherModel("m"), 1024, 1024, 0.0, Interactive, 0, 1800.0)
  }

  lemma SmallIsLone()
    ensures Lone(SmallConfig(), Filling()) && RequestMemoryGb(Filling(), 0) == 1.15
  {
  }

  // Its prefill takes at least as long as its tokens do at one a second.
  lemma FillingLasts(c: Candidate)
    requires c.hitRatio == 0.0 && c.networkCost >= 0.0 && c.congestion >= 0.0
    ensures ServiceTime(SmallConfig().pools[0], Filling(), c) > 0.0
  {
    var s, r := SmallConfig().pools[0], Filling();
    assert UnloadedPrefill(Mock, s.rates, r, 0.0, c.affinity) >= 1024.0 * 1000.0 * 0.72;
    ProductSign(CongestionGain(Mock), UnloadedPrefill(Mock, s.rates, r, 0.0, c.affinity));
    ProductSign(CongestionGain(Mock) * UnloadedPrefill(Mock, s.rates, r, 0.0, c.affinity), c.congestion);
    ProductSign(NetworkWeight(Mock, r.promptTokens), c.networkCost);
  }

  // A first request whose need and growth exceed its pool overcommits it.
  lemma LoneOvercommits(cfg: Config, r: Request)
    requires Lone(cfg, r)
    requires ServiceTime(cfg.pools[0], r, CandidateFor(cfg, Prepared(cfg, Start(cfg), r), r, 0.0, 0)) > 0.0
    requires RequestMemoryGb(r, 0) + Round4(RequestMemoryGb(r, 0)) * 0.55 > cfg.pools[0].memoryGb
    ensures ValidTrace(cfg, [(r, 0)])
    ensures var q := Prepared(cfg, Run(cfg, [(r, 0)]).sys, r).pools[0]; q.active + q.reserved > cfg.pools[0].memoryGb
  {
    LoneBefore(cfg, r);
    LoneUndisturbed(cfg, r);
    LoneGrowth(cfg, r);
    assert [] + [(r, 0)] == [(r, 0)];
    StillFitsIff(cfg, [], r, 0, r);
  }

  // The sum of memory in use and memory held is therefore no invariant: one request is enough
  // to exceed the pool, as the very next refresh finds.
  lemma ReservationOvercommits()
    ensures GoodConfig(SmallConfig()) && ValidTrace(SmallConfig(), [(Filling(), 0)])
    ensures var q := Prepared(SmallConfig(), Run(SmallConfig(), [(Filling(), 0)]).sys, Filling()).pools[0];
            q.active + q.reserved > SmallConfig().pools[0].memoryGb
  {
    SmallIsLone();
    LoneCandidate(SmallConfig(), Filling());
    FillingLasts(CandidateFor(SmallConfig(), Prepared(SmallConfig(), Start(SmallConfig()), Filling()), Filling(), 0.0, 0));
    LoneOvercommits(SmallConfig(), Filling());
  }
}
