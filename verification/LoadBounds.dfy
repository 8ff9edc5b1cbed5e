// How well the greedy slot choice balances a pool, and how it compares with every other
// schedule of the same jobs.
module LoadBounds {
  import opened Numbers
  import opened PoolModel

  function Residual(slot: real, now: real): real {
    Max(0.0, slot - now)
  }

  function TotalResidual(slots: seq<real>, now: real): real {
    if |slots| == 0 then 0.0
    else TotalResidual(slots[..|slots| - 1], now) + Residual(slots[|slots| - 1], now)
  }

  function Duration(j: Job): real {
    j.finish - j.start
  }

  function Work(jobs: seq<Job>): real {
    if |jobs| == 0 then 0.0 else Work(jobs[..|jobs| - 1]) + Duration(jobs[|jobs| - 1])
  }

  function Longest(jobs: seq<Job>): (d: real)
    ensures d >= 0.0
  {
    if |jobs| == 0 then 0.0 else Max(Longest(jobs[..|jobs| - 1]), Duration(jobs[|jobs| - 1]))
  }

  ghost predicate Balanced(slots: seq<real>, now: real, spread: real) {
    forall a, b :: 0 <= a < |slots| && 0 <= b < |slots| ==>
      Residual(slots[a], now) - Residual(slots[b], now) <= spread
  }

  // A job waits no longer than an even share of the work placed before it.
  predicate FairWait(jobs: seq<Job>, slots: nat, k: nat)
    requires k < |jobs|
  {
    Times(slots, jobs[k].start - jobs[k].arrival) <= Work(jobs[..k])
  }

  ghost predicate FairWaits(jobs: seq<Job>, slots: nat) {
    forall k :: 0 <= k < |jobs| ==> FairWait(jobs, slots, k)
  }

  // The same, for jobs that came in any order: a wait counts from when the latest of the jobs
  // so far came.
  predicate LateWait(jobs: seq<Job>, slots: nat, k: nat)
    requires k < |jobs|
  {
    Times(slots, jobs[k].start - PeakArrival(jobs[..k + 1])) <= Work(jobs[..k])
  }

  ghost predicate LateWaits(jobs: seq<Job>, slots: nat) {
    forall k :: 0 <= k < |jobs| ==> LateWait(jobs, slots, k)
  }

  // Slots within one longest job of each other, and no more outstanding than was placed.
  ghost predicate EvenAt(p: Pool, now: real) {
    Balanced(p.slots, now, Longest(p.jobs)) && TotalResidual(p.slots, now) <= Work(p.jobs)
  }

  ghost predicate Even(p: Pool) {
    EvenAt(p, PeakArrival(p.jobs)) && LateWaits(p.jobs, |p.slots|)
  }

  lemma {:induction false} ResidualUpdate(slots: seq<real>, k: nat, f: real, now: real)
    requires k < |slots|
    ensures TotalResidual(slots[k := f], now)
         == TotalResidual(slots, now) - Residual(slots[k], now) + Residual(f, now)
  {
    var n := |slots| - 1;
    if k == n {
      assert slots[k := f][..n] == slots[..n];
    } else {
      ResidualUpdate(slots[..n], k, f, now);
      assert slots[k := f][..n] == slots[..n][k := f];
    }
  }

  lemma {:induction false} ResidualShrinks(slots: seq<real>, earlier: real, later: real)
    requires earlier <= later
    ensures TotalResidual(slots, later) <= TotalResidual(slots, earlier)
  {
    if |slots| > 0 {
      ResidualShrinks(slots[..|slots| - 1], earlier, later);
    }
  }

  lemma {:induction false} ResidualAtLeast(slots: seq<real>, now: real, low: real)
    requires forall s :: 0 <= s < |slots| ==> low <= Residual(slots[s], now)
    ensures Times(|slots|, low) <= TotalResidual(slots, now)
  {
    if |slots| > 0 {
      ResidualAtLeast(slots[..|slots| - 1], now, low);
    }
  }

  lemma {:induction false} ResidualAtLeastBut(slots: seq<real>, now: real, low: real, a: nat)
    requires a < |slots| && forall s :: 0 <= s < |slots| ==> low <= Residual(slots[s], now)
    ensures Times(|slots| - 1, low) + Residual(slots[a], now) <= TotalResidual(slots, now)
  {
    var n := |slots| - 1;
    if a == n {
      ResidualAtLeast(slots[..n], now, low);
    } else {
      ResidualAtLeastBut(slots[..n], now, low, a);
    }
  }

  // Each placement adds exactly its own duration to the outstanding work.
  lemma PlaceAddsDuration(p: Pool, now: real, duration: real, memory: real)
    requires |p.slots| > 0 && duration >= 0.0
    ensures TotalResidual(Place(p, now, duration, memory).slots, now)
         == TotalResidual(p.slots, now) + duration
  {
    var j := NextJob(p, now, duration, memory);
    ResidualUpdate(p.slots, j.slot, j.finish, now);
  }

  lemma TimeKeepsEven(p: Pool, earlier: real, now: real)
    requires EvenAt(p, earlier) && earlier <= now
    ensures EvenAt(p, now)
  {
    ResidualShrinks(p.slots, earlier, now);
    forall a, b | 0 <= a < |p.slots| && 0 <= b < |p.slots|
      ensures Residual(p.slots[a], now) - Residual(p.slots[b], now) <= Longest(p.jobs)
    {
      assert Residual(p.slots[a], earlier) - Residual(p.slots[b], earlier) <= Longest(p.jobs);
    }
  }

  // Seen from any time at or after it, a placement adds at most its duration to one slot.
  lemma PlaceAddsAtMost(p: Pool, at: real, duration: real, memory: real, now: real)
    requires |p.slots| > 0 && duration >= 0.0 && at <= now
    ensures var j := NextJob(p, at, duration, memory);
            && Residual(p.slots[j.slot], now) <= Residual(j.finish, now) <= Residual(p.slots[j.slot], now) + duration
            && TotalResidual(Place(p, at, duration, memory).slots, now) <= TotalResidual(p.slots, now) + duration
  {
    var j := NextJob(p, at, duration, memory);
    ResidualUpdate(p.slots, j.slot, j.finish, now);
  }

  lemma PlaceKeepsBalance(p: Pool, at: real, duration: real, memory: real, now: real)
    requires |p.slots| > 0 && Balanced(p.slots, now, Longest(p.jobs)) && duration >= 0.0 && at <= now
    ensures var q := Place(p, at, duration, memory); Balanced(q.slots, now, Longest(q.jobs))
  {
    var q, j := Place(p, at, duration, memory), NextJob(p, at, duration, memory);
    assert q.jobs[..|p.jobs|] == p.jobs;
    PlaceAddsAtMost(p, at, duration, memory, now);
    forall a, b | 0 <= a < |q.slots| && 0 <= b < |q.slots|
      ensures Residual(q.slots[a], now) - Residual(q.slots[b], now) <= Longest(q.jobs)
    {
      assert Residual(p.slots[a], now) - Residual(p.slots[b], now) <= Longest(p.jobs);
      assert p.slots[j.slot] <= p.slots[a] && p.slots[j.slot] <= p.slots[b];
    }
  }

  lemma PlaceKeepsLateWaits(p: Pool, at: real, duration: real, memory: real, now: real)
    requires |p.slots| > 0 && LateWaits(p.jobs, |p.slots|) && TotalResidual(p.slots, now) <= Work(p.jobs)
    requires now == Max(PeakArrival(p.jobs), at)
    ensures LateWaits(Place(p, at, duration, memory).jobs, |p.slots|)
  {
    var jobs, j := Place(p, at, duration, memory).jobs, NextJob(p, at, duration, memory);
    PlacePeak(p, at, duration, memory);
    NewJobWaits(p, at, duration, memory, now);
    forall k | 0 <= k < |jobs| ensures LateWait(jobs, |p.slots|, k) {
      assert jobs[..k] == p.jobs[..k];
      if k < |p.jobs| {
        assert LateWait(p.jobs, |p.slots|, k) && jobs[..k + 1] == p.jobs[..k + 1];
      } else {
        assert jobs[k] == j && p.jobs[..k] == p.jobs && jobs[..k + 1] == jobs;
      }
    }
  }

  lemma NewJobWaits(p: Pool, at: real, duration: real, memory: real, now: real)
    requires |p.slots| > 0 && TotalResidual(p.slots, now) <= Work(p.jobs) && at <= now
    ensures Times(|p.slots|, NextJob(p, at, duration, memory).start - now) <= Work(p.jobs)
  {
    var j := NextJob(p, at, duration, memory);
    ResidualAtLeast(p.slots, now, Residual(p.slots[j.slot], now));
    TimesMonotone(|p.slots|, j.start - now, Residual(p.slots[j.slot], now));
  }

  lemma PlaceKeepsEven(p: Pool, at: real, duration: real, memory: real)
    requires |p.slots| > 0 && Even(p) && duration >= 0.0
    ensures Even(Place(p, at, duration, memory))
  {
    var now := Max(PeakArrival(p.jobs), at);
    TimeKeepsEven(p, PeakArrival(p.jobs), now);
    PlacePeak(p, at, duration, memory);
    PlaceKeepsBalance(p, at, duration, memory, now);
    PlaceAddsAtMost(p, at, duration, memory, now);
    PlaceKeepsLateWaits(p, at, duration, memory, now);
    var jobs := Place(p, at, duration, memory).jobs;
    assert jobs[..|p.jobs|] == p.jobs;
  }

  // In every run, whatever its order: seen from when the latest job came, or later, the slots
  // are within one longest job of each other and hold no more than was placed; and no job
  // waits, from when the latest so far came, longer than an even share of the earlier work.
  lemma {:induction false} RunEven(parallelSlots: nat, events: seq<Event>)
    requires parallelSlots > 0 && Lasting(events)
    ensures Even(Run(parallelSlots, events))
    ensures forall now :: PeakArrival(Run(parallelSlots, events).jobs) <= now ==> EvenAt(Run(parallelSlots, events), now)
  {
    if |events| == 0 {
      NothingOutstanding(parallelSlots);
    } else {
      var init := events[..|events| - 1];
      RunEven(parallelSlots, init);
      match events[|events| - 1]
      case Refreshing(_) =>
      case Placing(at, duration, memory) => PlaceKeepsEven(Run(parallelSlots, init), at, duration, memory);
    }
    var p := Run(parallelSlots, events);
    forall now | PeakArrival(p.jobs) <= now ensures EvenAt(p, now) {
      TimeKeepsEven(p, PeakArrival(p.jobs), now);
    }
  }

  // Where arrivals are in order, the latest job so far is the job itself.
  lemma OrderedIsFair(jobs: seq<Job>, slots: nat, now: real)
    requires LateWaits(jobs, slots) && Fifo(jobs) && Arrived(jobs, now)
    ensures FairWaits(jobs, slots)
  {
    forall k | 0 <= k < |jobs| ensures FairWait(jobs, slots, k) {
      var upTo := jobs[..k + 1];
      forall i | 0 <= i < |upTo| ensures 0.0 <= upTo[i].arrival <= jobs[k].arrival {
        assert upTo[i] == jobs[i];
      }
      PeakAtMost(upTo, jobs[k].arrival);
      assert upTo[k] == jobs[k] && LateWait(jobs, slots, k);
    }
  }

  // With times that do not go back, no job waits longer than an even share of the earlier work.
  lemma RunFair(parallelSlots: nat, events: seq<Event>)
    requires parallelSlots > 0 && Timed(events)
    ensures FairWaits(Run(parallelSlots, events).jobs, parallelSlots)
  {
    RunEven(parallelSlots, events);
    RunConsistent(parallelSlots, events);
    OrderedIsFair(Run(parallelSlots, events).jobs, parallelSlots, Clock(events));
  }

  // ----- the history replayed

  // Placing the jobs of a history once more.
  function Again(jobs: seq<Job>): (events: seq<Event>)
    ensures |events| == |jobs|
  {
    seq(|jobs|, i requires 0 <= i < |jobs| => Placing(jobs[i].arrival, Duration(jobs[i]), jobs[i].memory))
  }

  // Nothing but its placements has moved the slots of the pool.
  ghost predicate Replays(p: Pool) {
    |p.slots| > 0 && Run(|p.slots|, Again(p.jobs)).slots == p.slots && Run(|p.slots|, Again(p.jobs)).jobs == p.jobs
  }

  lemma PlaceKeepsReplay(p: Pool, now: real, duration: real, memory: real)
    requires Replays(p)
    ensures Replays(Place(p, now, duration, memory))
  {
    var jobs := Place(p, now, duration, memory).jobs;
    var j := NextJob(p, now, duration, memory);
    assert Again(jobs)[..|p.jobs|] == Again(p.jobs) && Again(jobs)[|p.jobs|] == Placing(now, duration, memory);
    assert Run(|p.slots|, Again(jobs)) == Place(Run(|p.slots|, Again(p.jobs)), now, duration, memory);
  }

  lemma AgainTimed(p: Pool, now: real)
    requires WellPlaced(p) && Fifo(p.jobs) && Arrived(p.jobs, now)
    ensures Timed(Again(p.jobs))
  {
  }

  lemma {:induction false} NothingOutstanding(n: nat)
    ensures TotalResidual(seq(n, i => 0.0), 0.0) == 0.0
  {
    if n > 0 {
      NothingOutstanding(n - 1);
      assert seq(n, i => 0.0)[..n - 1] == seq(n - 1, i => 0.0);
    }
  }

  // Graham's bounds for one slot: any other is within one longest job of it, the queue delay is
  // at most the mean outstanding work, and the slot exceeds that mean by less than one job.
  ghost predicate Graham(p: Pool, now: real, a: nat)
    requires a < |p.slots|
  {
    var m, total := |p.slots|, TotalResidual(p.slots, now);
    && (forall b :: 0 <= b < m ==> Residual(p.slots[a], now) <= Residual(p.slots[b], now) + Longest(p.jobs))
    && Times(m, QueueDelayMs(p.slots, now) / 1000.0) <= total
    && Times(m, Residual(p.slots[a], now)) <= total + Times(m - 1, Longest(p.jobs))
  }

  lemma GreedyLoadBounds(p: Pool, now: real, a: nat)
    requires Balanced(p.slots, now, Longest(p.jobs)) && a < |p.slots|
    ensures Graham(p, now, a)
  {
    var high, d := Residual(p.slots[a], now), Longest(p.jobs);
    ResidualAtLeast(p.slots, now, Residual(p.slots[Earliest(p.slots)], now));
    forall s | 0 <= s < |p.slots| ensures high - d <= Residual(p.slots[s], now) {
      assert Residual(p.slots[a], now) - Residual(p.slots[s], now) <= d;
    }
    ResidualAtLeastBut(p.slots, now, high - d, a);
    TimesSum(|p.slots| - 1, high, d);
  }

  // ----- against every other schedule

  // One interval of a slot's timetable.
  datatype Booking = Booking(slot: nat, from: real, until: real)

  predicate Overlap(a: Booking, b: Booking) {
    a.slot == b.slot && !(a.until <= b.from || b.until <= a.from)
  }

  // A timetable no slot of which is double-booked, all inside [0, end].
  ghost predicate Feasible(plan: seq<Booking>, end: real) {
    && (forall i :: 0 <= i < |plan| ==> 0.0 <= plan[i].from <= plan[i].until <= end)
    && (forall i, k {:trigger Overlap(plan[i], plan[k])} :: 0 <= i < k < |plan| ==> !Overlap(plan[i], plan[k]))
  }

  // `plan` runs the same jobs, no earlier than they arrive, on `slots` slots.
  ghost predicate Schedules(plan: seq<Booking>, jobs: seq<Job>, slots: nat) {
    && |plan| == |jobs|
    && forall i :: 0 <= i < |plan| ==>
         plan[i].slot < slots && plan[i].until - plan[i].from == Duration(jobs[i]) && jobs[i].arrival <= plan[i].from
  }

  function Booked(plan: seq<Booking>): real {
    if |plan| == 0 then 0.0 else Booked(plan[..|plan| - 1]) + (plan[|plan| - 1].until - plan[|plan| - 1].from)
  }

  function Without(plan: seq<Booking>, k: nat): seq<Booking>
    requires k < |plan|
  {
    plan[..k] + plan[k + 1..]
  }

  lemma {:induction false} BookedWithout(plan: seq<Booking>, k: nat)
    requires k < |plan|
    ensures Booked(plan) == Booked(Without(plan, k)) + (plan[k].until - plan[k].from)
  {
    var n := |plan| - 1;
    if k == n {
      assert Without(plan, k) == plan[..n];
    } else {
      BookedWithout(plan[..n], k);
      assert Without(plan, k)[..n - 1] == Without(plan[..n], k);
    }
  }

  lemma {:induction false} Latest(plan: seq<Booking>) returns (k: nat)
    requires |plan| > 0
    ensures k < |plan| && forall i :: 0 <= i < |plan| ==> plan[i].until <= plan[k].until
  {
    if |plan| == 1 {
      k := 0;
    } else {
      k := Latest(plan[..|plan| - 1]);
      if plan[k].until < plan[|plan| - 1].until {
        k := |plan| - 1;
      }
    }
  }

  // One slot cannot be booked for longer than the timetable lasts.
  lemma {:induction false} OneSlotFits(plan: seq<Booking>, s: nat, end: real)
    requires Feasible(plan, end) && end >= 0.0 && forall i :: 0 <= i < |plan| ==> plan[i].slot == s
    ensures Booked(plan) <= end
    decreases |plan|
  {
    if k :| 0 <= k < |plan| && plan[k].from == plan[k].until {
      BookedWithout(plan, k);
      OneSlotFits(Without(plan, k), s, end);
    } else if |plan| > 0 {
      var k := Latest(plan);
      var rest := Without(plan, k);
      forall i | 0 <= i < |rest| ensures rest[i].until <= plan[k].from {
        var at := if i < k then i else i + 1;
        assert rest[i] == plan[at];
        assert !Overlap(plan[at], plan[k]) || !Overlap(plan[k], plan[at]);
      }
      BookedWithout(plan, k);
      OneSlotFits(rest, s, plan[k].from);
    }
  }

  function SlotOnly(plan: seq<Booking>, n: nat): (r: seq<Booking>)
    ensures |r| <= |plan| && forall i :: 0 <= i < |r| ==> r[i].slot == n
  {
    if |plan| == 0 then []
    else
      var rest := SlotOnly(plan[..|plan| - 1], n);
      if plan[|plan| - 1].slot == n then rest + [plan[|plan| - 1]] else rest
  }

  function BookedBelow(plan: seq<Booking>, n: nat): real {
    if n == 0 then 0.0 else BookedBelow(plan, n - 1) + Booked(SlotOnly(plan, n - 1))
  }

  lemma BookedAppend(plan: seq<Booking>, b: Booking)
    ensures Booked(plan + [b]) == Booked(plan) + (b.until - b.from)
  {
    assert (plan + [b])[..|plan|] == plan;
  }

  lemma {:induction false} BookedBelowStep(plan: seq<Booking>, n: nat)
    requires |plan| > 0
    ensures var b := plan[|plan| - 1];
            BookedBelow(plan, n)
            == BookedBelow(plan[..|plan| - 1], n) + (if b.slot < n then b.until - b.from else 0.0)
  {
    if n > 0 {
      BookedBelowStep(plan, n - 1);
      BookedAppend(SlotOnly(plan[..|plan| - 1], n - 1), plan[|plan| - 1]);
    }
  }

  lemma {:induction false} BookedBelowNone(n: nat)
    ensures BookedBelow([], n) == 0.0
  {
    if n > 0 {
      BookedBelowNone(n - 1);
    }
  }

  // Adding up slot by slot misses no booking and counts none twice.
  lemma {:induction false} BookedBySlot(plan: seq<Booking>, n: nat)
    requires forall i :: 0 <= i < |plan| ==> plan[i].slot < n
    ensures BookedBelow(plan, n) == Booked(plan)
  {
    if |plan| == 0 {
      BookedBelowNone(n);
    } else {
      BookedBySlot(plan[..|plan| - 1], n);
      BookedBelowStep(plan, n);
    }
  }

  lemma {:induction false} SlotOnlyFrom(plan: seq<Booking>, n: nat, i: nat) returns (at: nat)
    requires i < |SlotOnly(plan, n)|
    ensures at < |plan| && plan[at] == SlotOnly(plan, n)[i]
  {
    var init := plan[..|plan| - 1];
    if i < |SlotOnly(init, n)| {
      at := SlotOnlyFrom(init, n, i);
    } else {
      at := |plan| - 1;
    }
  }

  lemma {:induction false} SlotOnlyFeasible(plan: seq<Booking>, n: nat, end: real)
    requires Feasible(plan, end)
    ensures Feasible(SlotOnly(plan, n), end)
  {
    if |plan| > 0 {
      var init, b := plan[..|plan| - 1], plan[|plan| - 1];
      SlotOnlyFeasible(init, n, end);
      var rest := SlotOnly(init, n);
      forall i | 0 <= i < |rest| ensures !Overlap(rest[i], b) {
        var at := SlotOnlyFrom(init, n, i);
        assert !Overlap(plan[at], plan[|plan| - 1]);
      }
    }
  }

  lemma OnlyFits(plan: seq<Booking>, n: nat, end: real)
    requires Feasible(plan, end) && end >= 0.0
    ensures Booked(SlotOnly(plan, n)) <= end
  {
    SlotOnlyFeasible(plan, n, end);
    OneSlotFits(SlotOnly(plan, n), n, end);
  }

  lemma {:induction false} BelowFits(plan: seq<Booking>, n: nat, end: real)
    requires Feasible(plan, end) && end >= 0.0
    ensures BookedBelow(plan, n) <= Times(n, end)
  {
    if n > 0 {
      BelowFits(plan, n - 1, end);
      OnlyFits(plan, n - 1, end);
    }
  }

  lemma {:induction false} SameWork(plan: seq<Booking>, jobs: seq<Job>, slots: nat)
    requires Schedules(plan, jobs, slots)
    ensures Booked(plan) == Work(jobs)
  {
    if |plan| > 0 {
      SameWork(plan[..|plan| - 1], jobs[..|jobs| - 1], slots);
    }
  }

  lemma {:induction false} WorkGrows(jobs: seq<Job>, k: nat)
    requires k < |jobs| && forall i :: 0 <= i < |jobs| ==> jobs[i].start <= jobs[i].finish
    ensures Work(jobs[..k]) + Duration(jobs[k]) <= Work(jobs)
  {
    var n := |jobs| - 1;
    if k < n {
      WorkGrows(jobs[..n], k);
      assert jobs[..n][..k] == jobs[..k];
    }
  }

  lemma ScheduleHoldsWork(plan: seq<Booking>, jobs: seq<Job>, slots: nat, end: real)
    requires Schedules(plan, jobs, slots) && Feasible(plan, end) && end >= 0.0
    ensures Work(jobs) <= Times(slots, end)
  {
    BelowFits(plan, slots, end);
    BookedBySlot(plan, slots);
    SameWork(plan, jobs, slots);
  }

  // start: when the job starts; late: when the latest job so far came; before: the earlier work.
  lemma FinishBound(m: nat, start: real, late: real, d: real, before: real, end: real)
    requires m > 0 && d >= 0.0 && late <= end
    requires Times(m, start - late) <= before && before + d <= Times(m, end)
    ensures Times(m, start + d) + d <= 2.0 * Times(m, end) + Times(m, d)
    ensures late + d <= end ==> Times(m, start + d) + d <= 2.0 * Times(m, end)
    ensures late == 0.0 && d <= end ==> Times(m, start + d) <= 2.0 * Times(m, end) - end
  {
    TimesSum(m, start - late, late + d);
    assert start + d == (start - late) + (late + d);
    TimesSum(m, late, d);
    TimesMonotone(m, late, end);
    if late + d <= end {
      TimesMonotone(m, late + d, end);
      TimesMonotone(m - 1, late + d, end);
    }
  }

  // Any schedule of the jobs is over no earlier than the latest of them came.
  lemma {:induction false} EndsAfterPeak(plan: seq<Booking>, jobs: seq<Job>, slots: nat, end: real)
    requires Schedules(plan, jobs, slots) && Feasible(plan, end) && 0.0 <= end
    ensures PeakArrival(jobs) <= end
  {
    if |jobs| > 0 {
      var n := |jobs| - 1;
      assert plan[n].from <= end;
      EndsAfterPeak(plan[..n], jobs[..n], slots, end);
    }
  }

  lemma {:induction false} PeakGrows(jobs: seq<Job>, k: nat)
    requires k <= |jobs|
    ensures PeakArrival(jobs[..k]) <= PeakArrival(jobs)
  {
    if k < |jobs| {
      PeakGrows(jobs[..|jobs| - 1], k);
      assert jobs[..|jobs| - 1][..k] == jobs[..k];
    } else {
      assert jobs[..k] == jobs;
    }
  }

  lemma ScheduledJob(plan: seq<Booking>, jobs: seq<Job>, slots: nat, end: real, k: nat)
    requires slots > 0 && k < |jobs| && forall i :: 0 <= i < |jobs| ==> jobs[i].start <= jobs[i].finish
    requires Schedules(plan, jobs, slots) && Feasible(plan, end)
    ensures 0.0 <= Duration(jobs[k]) <= end && jobs[k].arrival + Duration(jobs[k]) <= end
    ensures Work(jobs[..k]) + Duration(jobs[k]) <= Times(slots, end)
  {
    assert plan[k].until - plan[k].from == Duration(jobs[k]);
    ScheduleHoldsWork(plan, jobs, slots, end);
    WorkGrows(jobs, k);
  }

  lemma LateSoFar(plan: seq<Booking>, jobs: seq<Job>, slots: nat, end: real, k: nat)
    requires Schedules(plan, jobs, slots) && Feasible(plan, end) && 0.0 <= end && k < |jobs|
    ensures PeakArrival(jobs[..k + 1]) <= end
  {
    EndsAfterPeak(plan, jobs, slots, end);
    PeakGrows(jobs, k + 1);
  }

  // Whatever other schedule of the placed jobs is over by `end`: in any order of arrival, the
  // greedy one finishes each of them by twice that time and one job more, so by three times it.
  lemma WithinThriceOptimal(p: Pool, plan: seq<Booking>, end: real, k: nat)
    requires |p.slots| > 0 && WellPlaced(p) && LateWaits(p.jobs, |p.slots|) && k < |p.jobs|
    requires Schedules(plan, p.jobs, |p.slots|) && Feasible(plan, end)
    ensures var m, d := |p.slots|, Duration(p.jobs[k]);
            && Times(m, p.jobs[k].finish) + d <= 2.0 * Times(m, end) + Times(m, d)
            && 0.0 <= d <= end
  {
    var m := |p.slots|;
    ScheduledJob(plan, p.jobs, m, end, k);
    LateSoFar(plan, p.jobs, m, end, k);
    assert LateWait(p.jobs, m, k);
    FinishBound(m, p.jobs[k].start, PeakArrival(p.jobs[..k + 1]), Duration(p.jobs[k]), Work(p.jobs[..k]), end);
  }

  // Where waits are fair, it finishes each by twice that time, and by (2 - 1/m) times it when
  // they all arrive at time zero.
  lemma WithinTwiceOptimal(p: Pool, plan: seq<Booking>, end: real, k: nat)
    requires |p.slots| > 0 && WellPlaced(p) && FairWaits(p.jobs, |p.slots|) && k < |p.jobs|
    requires Schedules(plan, p.jobs, |p.slots|) && Feasible(plan, end)
    ensures var m := |p.slots|;
            && Times(m, p.jobs[k].finish) + Duration(p.jobs[k]) <= 2.0 * Times(m, end)
            && (p.jobs[k].arrival == 0.0 ==> Times(m, p.jobs[k].finish) <= 2.0 * Times(m, end) - end)
  {
    var m := |p.slots|;
    ScheduledJob(plan, p.jobs, m, end, k);
    assert FairWait(p.jobs, m, k);
    FinishBound(m, p.jobs[k].start, p.jobs[k].arrival, Duration(p.jobs[k]), Work(p.jobs[..k]), end);
  }
}
