// How long a job of a run in order can wait: only within its busy period, for what came in that
// period and for what the period took over.  Any other schedule has done of that, by the start
// of the period, at most as much as m - 1 slots can.
module BusyPeriods {
  import opened Numbers
  import opened PoolModel
  import opened LoadBounds

  // When the period began, the first job that came in it, and the slots it found.
  datatype Period = Period(from: real, first: nat, slots: seq<real>)

  // What the period took over on slot s is left of one job that had begun.
  ghost predicate TakenOver(jobs: seq<Job>, b: Period, s: nat)
    requires s < |b.slots|
  {
    b.slots[s] > b.from ==>
      exists g :: 0 <= g < b.first && g < |jobs| && jobs[g].slot == s && b.slots[s] - b.from <= Duration(jobs[g])
  }

  // A period on m slots, one of them free at its start, in which all jobs from the first on came.
  ghost predicate Began(jobs: seq<Job>, m: nat, b: Period) {
    && 0.0 <= b.from && b.first <= |jobs| && |b.slots| == m
    && (exists e :: 0 <= e < m && b.slots[e] <= b.from)
    && (forall s :: 0 <= s < m ==> TakenOver(jobs, b, s))
    && (forall i :: b.first <= i < |jobs| ==> b.from <= jobs[i].arrival)
  }

  // The job has to wait at most for its share of what came before it in its busy period and of
  // what the period took over.
  ghost predicate WaitsIn(jobs: seq<Job>, m: nat, k: nat, b: Period)
    requires k < |jobs|
  {
    && Began(jobs[..k], m, b) && b.from <= jobs[k].arrival
    && Times(m, jobs[k].start - b.from) <= Work(jobs[b.first..k]) + TotalResidual(b.slots, b.from)
  }

  ghost predicate BusyWait(jobs: seq<Job>, m: nat, k: nat)
    requires k < |jobs|
  {
    exists b :: WaitsIn(jobs, m, k, b)
  }

  ghost predicate BusyWaits(jobs: seq<Job>, m: nat) {
    forall k :: 0 <= k < |jobs| ==> BusyWait(jobs, m, k)
  }

  // ----- a pool's current period

  ghost predicate InPeriod(p: Pool, b: Period) {
    && Began(p.jobs, |p.slots|, b)
    && TotalResidual(p.slots, b.from) <= Work(p.jobs[b.first..]) + TotalResidual(b.slots, b.from)
  }

  // A job that finds a free slot starts a period of its own.
  lemma NewPeriod(p: Pool, now: real) returns (b: Period)
    requires Sound(p) && StartsPassed(p, now) && 0.0 <= now && p.slots[Earliest(p.slots)] <= now
    ensures b == Period(now, |p.jobs|, p.slots) && InPeriod(p, b)
  {
    b := Period(now, |p.jobs|, p.slots);
    var e := Earliest(p.slots);
    forall s | 0 <= s < |p.slots| ensures TakenOver(p.jobs, b, s) {
      if p.slots[s] > now {
        var g :| 0 <= g < |p.jobs| && EndsOn(p.jobs[g], s, p.slots[s]);
        assert p.jobs[g].start <= Max(now, p.slots[e]);
      }
    }
    assert b.slots[e] <= b.from;
    assert p.jobs[|p.jobs|..] == [];
  }

  // The period of the job that comes next.
  lemma NextPeriod(p: Pool, b: Period, now: real) returns (c: Period)
    requires Sound(p) && StartsPassed(p, now) && 0.0 <= now && InPeriod(p, b) && b.from <= now
    ensures InPeriod(p, c) && c.from <= now
    ensures c.from == now || now < p.slots[Earliest(p.slots)]
  {
    c := b;
    if p.slots[Earliest(p.slots)] <= now {
      c := NewPeriod(p, now);
    }
  }

  lemma PlacedWaits(p: Pool, b: Period, now: real, duration: real, memory: real)
    requires |p.slots| > 0 && InPeriod(p, b) && b.from <= now
    requires b.from == now || now < p.slots[Earliest(p.slots)]
    ensures Times(|p.slots|, NextJob(p, now, duration, memory).start - b.from)
         <= Work(p.jobs[b.first..]) + TotalResidual(b.slots, b.from)
  {
    var e := Earliest(p.slots);
    var wait := NextJob(p, now, duration, memory).start - b.from;
    ResidualAtLeast(p.slots, b.from, Residual(p.slots[e], b.from));
    TimesMonotone(|p.slots|, wait, Residual(p.slots[e], b.from));
  }

  lemma PlacedTotal(p: Pool, from: real, now: real, duration: real, memory: real)
    requires |p.slots| > 0 && duration >= 0.0 && from <= now
    requires from == now || now < p.slots[Earliest(p.slots)]
    ensures TotalResidual(Place(p, now, duration, memory).slots, from) <= TotalResidual(p.slots, from) + duration
  {
    var j := NextJob(p, now, duration, memory);
    ResidualUpdate(p.slots, j.slot, j.finish, from);
  }

  lemma WorkAppend(jobs: seq<Job>, j: Job, first: nat)
    requires first <= |jobs|
    ensures Work((jobs + [j])[first..]) == Work(jobs[first..]) + Duration(j)
  {
    assert (jobs + [j])[first..] == jobs[first..] + [j];
    assert (jobs[first..] + [j])[..|jobs[first..]|] == jobs[first..];
  }

  lemma MoreBegan(jobs: seq<Job>, m: nat, b: Period, j: Job)
    requires Began(jobs, m, b) && b.from <= j.arrival
    ensures Began(jobs + [j], m, b)
  {
    forall s | 0 <= s < m ensures TakenOver(jobs + [j], b, s) {
      assert TakenOver(jobs, b, s);
      if b.slots[s] > b.from {
        var g :| 0 <= g < b.first && g < |jobs| && jobs[g].slot == s && b.slots[s] - b.from <= Duration(jobs[g]);
        assert (jobs + [j])[g] == jobs[g];
      }
    }
  }

  lemma PlaceKeepsPeriod(p: Pool, b: Period, now: real, duration: real, memory: real)
    requires |p.slots| > 0 && InPeriod(p, b) && b.from <= now && duration >= 0.0
    requires b.from == now || now < p.slots[Earliest(p.slots)]
    ensures InPeriod(Place(p, now, duration, memory), b)
  {
    var j := NextJob(p, now, duration, memory);
    MoreBegan(p.jobs, |p.slots|, b, j);
    PlacedTotal(p, b.from, now, duration, memory);
    WorkAppend(p.jobs, j, b.first);
  }

  lemma PlaceKeepsBusyWaits(p: Pool, b: Period, now: real, duration: real, memory: real)
    requires |p.slots| > 0 && InPeriod(p, b) && b.from <= now && BusyWaits(p.jobs, |p.slots|)
    requires b.from == now || now < p.slots[Earliest(p.slots)]
    ensures BusyWaits(Place(p, now, duration, memory).jobs, |p.slots|)
  {
    var m, jobs := |p.slots|, Place(p, now, duration, memory).jobs;
    PlacedWaits(p, b, now, duration, memory);
    forall k | 0 <= k < |jobs| ensures BusyWait(jobs, m, k) {
      assert jobs[..k] == p.jobs[..k];
      if k < |p.jobs| {
        assert BusyWait(p.jobs, m, k);
        var c :| WaitsIn(p.jobs, m, k, c);
        assert jobs[c.first..k] == p.jobs[c.first..k];
        assert WaitsIn(jobs, m, k, c);
      } else {
        assert p.jobs[..k] == p.jobs && jobs[b.first..k] == p.jobs[b.first..];
        assert WaitsIn(jobs, m, k, b);
      }
    }
  }

  // In every run whose times do not go back.
  lemma {:induction false} RunBusy(m: nat, events: seq<Event>) returns (b: Period)
    requires m > 0 && Timed(events)
    ensures InPeriod(Run(m, events), b) && b.from <= Clock(events) && BusyWaits(Run(m, events).jobs, m)
  {
    if |events| == 0 {
      b := NewPeriod(Init(m), 0.0);
    } else {
      var init, e := events[..|events| - 1], events[|events| - 1];
      var p := Run(m, init);
      RunConsistent(m, init);
      b := RunBusy(m, init);
      match e
      case Refreshing(_) =>
      case Placing(at, duration, memory) =>
        b := NextPeriod(p, b, at);
        PlaceKeepsBusyWaits(p, b, at, duration, memory);
        PlaceKeepsPeriod(p, b, at, duration, memory);
    }
  }

  // The history of a pool can be replayed, so this holds of every pool that kept its order.
  lemma ReplayBusy(p: Pool, now: real)
    requires Replays(p) && WellPlaced(p) && Fifo(p.jobs) && Arrived(p.jobs, now)
    ensures BusyWaits(p.jobs, |p.slots|)
  {
    AgainTimed(p, now);
    var b := RunBusy(|p.slots|, Again(p.jobs));
  }

  // ----- against every other schedule

  // The part of a timetable after `from`, seen from there.
  function Clipped(plan: seq<Booking>, from: real): (r: seq<Booking>)
    ensures |r| == |plan|
    ensures forall i :: 0 <= i < |plan| ==>
              r[i] == Booking(plan[i].slot, Max(plan[i].from, from) - from, Max(plan[i].until, from) - from)
  {
    seq(|plan|, i requires 0 <= i < |plan| =>
      Booking(plan[i].slot, Max(plan[i].from, from) - from, Max(plan[i].until, from) - from))
  }

  lemma ClippedFits(plan: seq<Booking>, slots: nat, end: real, from: real)
    requires Feasible(plan, end) && 0.0 <= from <= end && forall i :: 0 <= i < |plan| ==> plan[i].slot < slots
    ensures Booked(Clipped(plan, from)) <= Times(slots, end - from)
  {
    var c := Clipped(plan, from);
    forall i, k | 0 <= i < k < |c| ensures !Overlap(c[i], c[k]) {
      assert !Overlap(plan[i], plan[k]);
    }
    BelowFits(c, slots, end - from);
    BookedBySlot(c, slots);
  }

  lemma {:induction false} BookedSplit(plan: seq<Booking>, n: nat)
    requires n <= |plan|
    ensures Booked(plan) == Booked(plan[..n]) + Booked(plan[n..])
  {
    if n < |plan| {
      var init := plan[..|plan| - 1];
      BookedSplit(init, n);
      assert plan[..n] == init[..n] && plan[n..][..|plan| - n - 1] == init[n..];
    } else {
      assert plan[..n] == plan;
    }
  }

  ghost predicate Forward(plan: seq<Booking>) {
    forall i :: 0 <= i < |plan| ==> plan[i].from <= plan[i].until
  }

  lemma {:induction false} BookedForward(plan: seq<Booking>)
    requires Forward(plan)
    ensures 0.0 <= Booked(plan)
  {
    if |plan| > 0 {
      BookedForward(plan[..|plan| - 1]);
    }
  }

  lemma {:induction false} SlotOnlyHolds(plan: seq<Booking>, s: nat, g: nat)
    requires Forward(plan) && g < |plan| && plan[g].slot == s
    ensures plan[g].until - plan[g].from <= Booked(SlotOnly(plan, s))
  {
    var init, last := plan[..|plan| - 1], plan[|plan| - 1];
    BookedAppend(SlotOnly(init, s), last);
    if g < |init| {
      SlotOnlyHolds(init, s, g);
    } else {
      SlotOnlyForward(init, s);
    }
  }

  lemma {:induction false} SlotOnlyForward(plan: seq<Booking>, s: nat)
    requires Forward(plan)
    ensures 0.0 <= Booked(SlotOnly(plan, s))
  {
    if |plan| > 0 {
      SlotOnlyForward(plan[..|plan| - 1], s);
      BookedAppend(SlotOnly(plan[..|plan| - 1], s), plan[|plan| - 1]);
    }
  }

  // What a timetable runs after `from` of the first n jobs, each on the slot the pool gave it.
  function Moved(plan: seq<Booking>, jobs: seq<Job>, from: real, n: nat): (r: seq<Booking>)
    requires n <= |plan| == |jobs|
    ensures |r| == n && forall i :: 0 <= i < n ==>
              r[i] == Booking(jobs[i].slot, Max(plan[i].from, from), Max(plan[i].until, from))
  {
    seq(n, i requires 0 <= i < n => Booking(jobs[i].slot, Max(plan[i].from, from), Max(plan[i].until, from)))
  }

  lemma {:induction false} MovedBooked(plan: seq<Booking>, jobs: seq<Job>, from: real, n: nat)
    requires n <= |plan| == |jobs|
    ensures Booked(Moved(plan, jobs, from, n)) == Booked(Clipped(plan, from)[..n])
  {
    if n > 0 {
      MovedBooked(plan, jobs, from, n - 1);
      assert Moved(plan, jobs, from, n)[..n - 1] == Moved(plan, jobs, from, n - 1);
      assert Clipped(plan, from)[..n][..n - 1] == Clipped(plan, from)[..n - 1];
    }
  }

  // Any schedule has as much left, at the start of the period, of what a slot was taken over
  // with, but for what it can have done of one job by then.
  lemma SlotLeft(plan: seq<Booking>, jobs: seq<Job>, m: nat, end: real, b: Period, k: nat, s: nat)
    requires k < |jobs| && Schedules(plan, jobs, m) && Feasible(plan, end)
    requires Began(jobs[..k], m, b) && s < m
    ensures Residual(b.slots[s], b.from) <= Booked(SlotOnly(Moved(plan, jobs, b.from, b.first), s)) + b.from
  {
    var moved := Moved(plan, jobs, b.from, b.first);
    SlotOnlyForward(moved, s);
    assert TakenOver(jobs[..k], b, s);
    if b.slots[s] > b.from {
      var g :| 0 <= g < b.first && g < k && jobs[..k][g].slot == s && b.slots[s] - b.from <= Duration(jobs[..k][g]);
      assert plan[g].until - plan[g].from == Duration(jobs[g]);
      SlotOnlyHolds(moved, s, g);
    }
  }

  // Each slot was taken over with at most so much more than the timetable has left for it.
  ghost predicate Covered(slots: seq<real>, left: seq<Booking>, from: real) {
    0.0 <= from && Forward(left) && forall s :: 0 <= s < |slots| ==> Residual(slots[s], from) <= Booked(SlotOnly(left, s)) + from
  }

  lemma {:induction false} SlotsLeft(slots: seq<real>, left: seq<Booking>, from: real)
    requires Covered(slots, left, from)
    ensures TotalResidual(slots, from) <= BookedBelow(left, |slots|) + Times(|slots|, from)
  {
    if |slots| > 0 {
      SlotsLeft(slots[..|slots| - 1], left, from);
    }
  }

  // One of the slots was free.
  lemma {:induction false} OthersLeft(slots: seq<real>, left: seq<Booking>, from: real, e: nat)
    requires Covered(slots, left, from) && e < |slots| && slots[e] <= from
    ensures TotalResidual(slots, from) <= BookedBelow(left, |slots|) + Times(|slots| - 1, from)
  {
    var n := |slots| - 1;
    if e == n {
      SlotsLeft(slots[..n], left, from);
      SlotOnlyForward(left, n);
    } else {
      OthersLeft(slots[..n], left, from, e);
    }
  }

  lemma LeftCovers(plan: seq<Booking>, jobs: seq<Job>, m: nat, end: real, b: Period, k: nat)
    requires k < |jobs| && Schedules(plan, jobs, m) && Feasible(plan, end) && Began(jobs[..k], m, b)
    ensures Covered(b.slots, Moved(plan, jobs, b.from, b.first), b.from)
  {
    forall s | 0 <= s < m
      ensures Residual(b.slots[s], b.from) <= Booked(SlotOnly(Moved(plan, jobs, b.from, b.first), s)) + b.from
    {
      SlotLeft(plan, jobs, m, end, b, k, s);
    }
  }

  lemma LeftInAll(plan: seq<Booking>, jobs: seq<Job>, m: nat, end: real, b: Period, k: nat)
    requires k < |jobs| && Schedules(plan, jobs, m) && Feasible(plan, end) && Began(jobs[..k], m, b)
    requires forall i :: 0 <= i < |jobs| ==> jobs[i].slot < m
    ensures TotalResidual(b.slots, b.from) <= Booked(Clipped(plan, b.from)[..b.first]) + Times(m - 1, b.from)
  {
    var e :| 0 <= e < m && b.slots[e] <= b.from;
    LeftCovers(plan, jobs, m, end, b, k);
    OthersLeft(b.slots, Moved(plan, jobs, b.from, b.first), b.from, e);
    BookedBySlot(Moved(plan, jobs, b.from, b.first), m);
    MovedBooked(plan, jobs, b.from, b.first);
  }

  lemma {:induction false} SameLengths(plan: seq<Booking>, jobs: seq<Job>)
    requires |plan| == |jobs| && forall i :: 0 <= i < |plan| ==> plan[i].until - plan[i].from == Duration(jobs[i])
    ensures Booked(plan) == Work(jobs)
  {
    if |plan| > 0 {
      SameLengths(plan[..|plan| - 1], jobs[..|jobs| - 1]);
    }
  }

  // The jobs that came in the period are not cut.
  lemma WholeJobs(plan: seq<Booking>, jobs: seq<Job>, m: nat, end: real, from: real, first: nat, k: nat)
    requires first <= k <= |jobs| && Schedules(plan, jobs, m) && Feasible(plan, end)
    requires forall i :: first <= i < k ==> from <= jobs[i].arrival
    ensures Booked(Clipped(plan, from)[first..k]) == Work(jobs[first..k])
  {
    var row, own := Clipped(plan, from)[first..k], jobs[first..k];
    forall i | 0 <= i < |row| ensures row[i].until - row[i].from == Duration(own[i]) {
      assert own[i] == jobs[first + i] && from <= jobs[first + i].arrival <= plan[first + i].from;
    }
    SameLengths(row, own);
  }

  lemma BookedParts(plan: seq<Booking>, first: nat, k: nat)
    requires Forward(plan) && first <= k < |plan|
    ensures Booked(plan[..first]) + Booked(plan[first..k]) + (plan[k].until - plan[k].from) <= Booked(plan)
  {
    BookedSplit(plan[..k], first);
    assert plan[..k][..first] == plan[..first] && plan[..k][first..] == plan[first..k];
    assert plan[..k + 1][..k] == plan[..k];
    BookedSplit(plan, k + 1);
    BookedForward(plan[k + 1..]);
  }

  // Any schedule has to do, after the start of the period, all that came in it and most of what
  // it took over.
  lemma PeriodHolds(plan: seq<Booking>, jobs: seq<Job>, m: nat, end: real, b: Period, k: nat)
    requires k < |jobs| && Schedules(plan, jobs, m) && Feasible(plan, end) && WaitsIn(jobs, m, k, b)
    requires forall i :: 0 <= i < |jobs| ==> jobs[i].slot < m
    ensures b.from + Duration(jobs[k]) <= end
    ensures Work(jobs[b.first..k]) + Duration(jobs[k]) + TotalResidual(b.slots, b.from)
         <= Times(m, end - b.from) + Times(m - 1, b.from)
  {
    assert plan[k].until - plan[k].from == Duration(jobs[k]);
    ClippedFits(plan, m, end, b.from);
    LeftInAll(plan, jobs, m, end, b, k);
    forall i | b.first <= i < k ensures b.from <= jobs[i].arrival {
      assert jobs[..k][i] == jobs[i];
    }
    WholeJobs(plan, jobs, m, end, b.from, b.first, k);
    BookedParts(Clipped(plan, b.from), b.first, k);
  }

  lemma PeriodSums(m: nat, start: real, from: real, d: real, end: real, before: real, left: real)
    requires m > 0 && from + d <= end
    requires Times(m, start - from) <= before + left
    requires before + d + left <= Times(m, end - from) + Times(m - 1, from)
    ensures Times(m, start + d) <= 2.0 * Times(m, end) - end
  {
    TimesSum(m, start - from, from + d);
    assert start + d == (start - from) + (from + d);
    TimesSum(m, from, d);
    TimesSum(m, end, from);
    TimesSum(m - 1, from, d);
    TimesMonotone(m - 1, from + d, end);
  }

  // In a run in order each job is done by 2 - 1/m times the end of any schedule of the jobs.
  lemma BusyWaitBound(p: Pool, plan: seq<Booking>, end: real, k: nat)
    requires |p.slots| > 0 && WellPlaced(p) && BusyWaits(p.jobs, |p.slots|) && k < |p.jobs|
    requires Schedules(plan, p.jobs, |p.slots|) && Feasible(plan, end)
    ensures Times(|p.slots|, p.jobs[k].finish) <= 2.0 * Times(|p.slots|, end) - end
  {
    assert BusyWait(p.jobs, |p.slots|, k);
    var b :| WaitsIn(p.jobs, |p.slots|, k, b);
    PeriodHolds(plan, p.jobs, |p.slots|, end, b, k);
    PeriodSums(|p.slots|, p.jobs[k].start, b.from, Duration(p.jobs[k]), end, Work(p.jobs[b.first..k]),
               TotalResidual(b.slots, b.from));
  }
}
