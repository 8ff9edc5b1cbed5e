// What the queue limit of a pool can and cannot do, over every run of the slot scheduler.
module QueueLimit {
  import opened PoolModel

  // A job is placed only when fewer slots than the limit are in use at that moment.
  ghost predicate Gated(parallelSlots: nat, limit: int, events: seq<Event>)
    requires parallelSlots > 0
  {
    |events| > 0 ==>
      && Gated(parallelSlots, limit, events[..|events| - 1])
      && (events[|events| - 1].Placing? ==>
            InflightCount(Run(parallelSlots, events[..|events| - 1]).slots, Clock(events)) < limit)
  }

  ghost predicate NoWait(jobs: seq<Job>) {
    forall k :: 0 <= k < |jobs| ==> jobs[k].start == jobs[k].arrival
  }

  ghost predicate FewUnfinished(jobs: seq<Job>, limit: int, now: real) {
    Count(jobs, EndsAfter(now)) == 0 || Count(jobs, EndsAfter(now)) <= limit
  }

  // A pool under a limit no larger than its slot count has a free slot whenever it admits.
  lemma PlacedUnderLimit(p: Pool, now: real, duration: real, memory: real, limit: int)
    requires Sound(p) && duration >= 0.0
    requires limit <= |p.slots| && InflightCount(p.slots, now) < limit
    ensures NextJob(p, now, duration, memory).start == now
    ensures Count(Place(p, now, duration, memory).jobs, EndsAfter(now)) <= limit
  {
    AllBusy(p.slots, now);
    var free :| 0 <= free < |p.slots| && p.slots[free] <= now;
    SlotsCountJobs(p, now);
    var jobs := Place(p, now, duration, memory).jobs;
    assert jobs[..|p.jobs|] == p.jobs;
  }

  lemma PlacedNoWait(p: Pool, now: real, duration: real, memory: real, limit: int)
    requires Sound(p) && duration >= 0.0 && NoWait(p.jobs)
    requires limit <= |p.slots| && InflightCount(p.slots, now) < limit
    ensures var jobs := Place(p, now, duration, memory).jobs; NoWait(jobs) && FewUnfinished(jobs, limit, now)
  {
    PlacedUnderLimit(p, now, duration, memory, limit);
  }

  lemma {:induction false} FewerEndLater(jobs: seq<Job>, earlier: real, later: real)
    requires earlier <= later
    ensures Count(jobs, EndsAfter(later)) <= Count(jobs, EndsAfter(earlier))
  {
    if |jobs| > 0 {
      FewerEndLater(jobs[..|jobs| - 1], earlier, later);
    }
  }

  lemma LaterFewUnfinished(jobs: seq<Job>, limit: int, earlier: real, now: real)
    requires FewUnfinished(jobs, limit, earlier) && earlier <= now
    ensures FewUnfinished(jobs, limit, now)
  {
    FewerEndLater(jobs, earlier, now);
  }

  // The unfinished jobs are few at every time from when the latest one came.
  ghost predicate FewFromPeak(jobs: seq<Job>, limit: int) {
    FewUnfinished(jobs, limit, PeakArrival(jobs))
  }

  lemma PlacedKeepsFew(p: Pool, now: real, duration: real, memory: real, limit: int)
    requires Sound(p) && duration >= 0.0
    requires limit <= |p.slots| && InflightCount(p.slots, now) < limit
    ensures FewFromPeak(Place(p, now, duration, memory).jobs, limit)
  {
    PlacedUnderLimit(p, now, duration, memory, limit);
    PlacePeak(p, now, duration, memory);
    var jobs := Place(p, now, duration, memory).jobs;
    LaterFewUnfinished(jobs, limit, now, PeakArrival(jobs));
  }

  // limit <= parallelSlots, in whatever order the times come: no job ever waits; and no more
  // than `limit` are unfinished when one has been placed, nor at any time from when the latest
  // one came.
  lemma {:induction false} TightLimitNeverWaits(parallelSlots: nat, limit: int, events: seq<Event>)
    requires parallelSlots > 0 && Lasting(events) && Gated(parallelSlots, limit, events)
    requires limit <= parallelSlots
    ensures var jobs := Run(parallelSlots, events).jobs;
            && NoWait(jobs)
            && (forall now :: PeakArrival(jobs) <= now ==> FewUnfinished(jobs, limit, now))
            && (|events| > 0 && events[|events| - 1].Placing? ==> FewUnfinished(jobs, limit, Clock(events)))
  {
    var jobs := Run(parallelSlots, events).jobs;
    if |events| > 0 {
      var init, e := events[..|events| - 1], events[|events| - 1];
      TightLimitNeverWaits(parallelSlots, limit, init);
      var before := Run(parallelSlots, init);
      if e.Placing? {
        RunSound(parallelSlots, init);
        PlacedNoWait(before, Clock(events), e.duration, e.memory, limit);
        PlacedKeepsFew(before, Clock(events), e.duration, e.memory, limit);
        forall now | PeakArrival(jobs) <= now ensures FewUnfinished(jobs, limit, now) {
          LaterFewUnfinished(jobs, limit, PeakArrival(jobs), now);
        }
      }
    }
  }

  // `size` jobs of one second, all submitted at time zero.
  function Burst(size: nat): seq<Event> {
    seq(size, i => Placing(0.0, 1.0, 1.0))
  }

  lemma BurstInit(size: nat)
    requires size > 0
    ensures Burst(size)[..size - 1] == Burst(size - 1)
  {
  }

  lemma BurstTimed(size: nat)
    ensures Timed(Burst(size)) && Clock(Burst(size)) == 0.0
  {
  }

  lemma {:induction false} BurstUnfinished(parallelSlots: nat, size: nat)
    requires parallelSlots > 0
    ensures Count(Run(parallelSlots, Burst(size)).jobs, EndsAfter(0.0)) == size
  {
    if size > 0 {
      BurstUnfinished(parallelSlots, size - 1);
      BurstInit(size);
      var before := Run(parallelSlots, Burst(size - 1));
      var after := Place(before, 0.0, 1.0, 1.0);
      assert Run(parallelSlots, Burst(size)) == after;
      assert after.jobs[..|before.jobs|] == before.jobs;
    }
  }

  lemma BurstInUse(parallelSlots: nat, size: nat)
    requires parallelSlots > 0 && size <= parallelSlots
    ensures InflightCount(Run(parallelSlots, Burst(size)).slots, 0.0) == size
  {
    RunSound(parallelSlots, Burst(size));
    BurstUnfinished(parallelSlots, size);
    SlotsCountJobs(Run(parallelSlots, Burst(size)), 0.0);
  }

  lemma {:induction false} BurstGated(parallelSlots: nat, limit: int, size: nat)
    requires parallelSlots > 0 && size <= parallelSlots && size <= limit
    ensures Gated(parallelSlots, limit, Burst(size))
  {
    if size > 0 {
      BurstGated(parallelSlots, limit, size - 1);
      BurstInit(size);
      BurstTimed(size);
      BurstInUse(parallelSlots, size - 1);
    }
  }

  // The limit can turn a job away in some run exactly when it does not exceed the slot count;
  // otherwise no run at all reaches it, at any time.
  lemma RejectionReachable(parallelSlots: nat, limit: int)
    requires parallelSlots > 0
    ensures (exists events :: Timed(events) && Gated(parallelSlots, limit, events)
                && InflightCount(Run(parallelSlots, events).slots, Clock(events)) >= limit)
       <==> limit <= parallelSlots
    ensures limit > parallelSlots ==>
              forall events, now :: InflightCount(Run(parallelSlots, events).slots, now) < limit
  {
    var none: seq<Event> := [];
    assert Timed(none) && Gated(parallelSlots, limit, none);
    if limit <= parallelSlots {
      if limit > 0 {
        BurstTimed(limit);
        BurstGated(parallelSlots, limit, limit);
        BurstInUse(parallelSlots, limit);
      } else {
        assert Run(parallelSlots, []) == Init(parallelSlots);
      }
    }
  }
}
