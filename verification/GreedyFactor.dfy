// The exact factor by which the greedy slot choice can miss the best schedule: with jobs in any
// order of arrival, and with jobs in order.
module GreedyFactor {
  import opened Numbers
  import opened PoolModel
  import opened LoadBounds
  import opened BusyPeriods

  predicate EndsBy(finish: real, c: real, end: real) {
    finish <= c * end
  }

  // No job ends later than c times the end of any schedule of the same jobs.
  ghost predicate WithinFactor(jobs: seq<Job>, slots: nat, c: real) {
    forall plan: seq<Booking>, end: real, k: int :: 0 <= k < |jobs| && Schedules(plan, jobs, slots) && Feasible(plan, end) ==>
      EndsBy(jobs[k].finish, c, end)
  }

  ghost predicate AtOnce(events: seq<Event>) {
    forall i :: 0 <= i < |events| && events[i].Placing? ==> events[i].at == 0.0
  }

  // ----- n jobs alike, one after the other

  function Same(n: nat, at: real, duration: real): (r: seq<Event>)
    ensures |r| == n && forall i :: 0 <= i < n ==> r[i] == Placing(at, duration, 1.0)
  {
    seq(n, i => Placing(at, duration, 1.0))
  }

  function Fill(p: Pool, n: nat, at: real, duration: real): (q: Pool)
    requires |p.slots| > 0
    ensures |q.slots| == |p.slots|
  {
    if n == 0 then p else Place(Fill(p, n - 1, at, duration), at, duration, 1.0)
  }

  lemma RunAppend(m: nat, before: seq<Event>, e: Event)
    requires m > 0
    ensures Run(m, before + [e]) == Apply(Run(m, before), e)
  {
    assert (before + [e])[..|before|] == before;
  }

  lemma OneMoreSame(events: seq<Event>, n: nat, at: real, duration: real)
    ensures events + Same(n + 1, at, duration) == events + Same(n, at, duration) + [Placing(at, duration, 1.0)]
  {
  }

  lemma {:induction false} FillIsRun(parallelSlots: nat, events: seq<Event>, n: nat, at: real, duration: real)
    requires parallelSlots > 0
    ensures Run(parallelSlots, events + Same(n, at, duration)) == Fill(Run(parallelSlots, events), n, at, duration)
  {
    if n == 0 {
      assert events + Same(n, at, duration) == events;
    } else {
      FillIsRun(parallelSlots, events, n - 1, at, duration);
      OneMoreSame(events, n - 1, at, duration);
      RunAppend(parallelSlots, events + Same(n - 1, at, duration), Placing(at, duration, 1.0));
    }
  }

  // The jobs of `jobs` from the k-th on came at the same time and take as long.
  ghost predicate Uniform(jobs: seq<Job>, k: nat, at: real, duration: real) {
    k <= |jobs| && forall i :: k <= i < |jobs| ==> jobs[i].arrival == at && Duration(jobs[i]) == duration
  }

  lemma {:induction false} FillJobs(p: Pool, n: nat, at: real, duration: real)
    requires |p.slots| > 0
    ensures var jobs := Fill(p, n, at, duration).jobs;
            && |jobs| == |p.jobs| + n && jobs[..|p.jobs|] == p.jobs && Uniform(jobs, |p.jobs|, at, duration)
  {
    if n > 0 {
      FillJobs(p, n - 1, at, duration);
    }
  }

  // The first n slots at one level, the others at another.
  ghost predicate Levels(slots: seq<real>, n: nat, low: real, high: real) {
    forall i :: 0 <= i < |slots| ==> slots[i] == if i < n then high else low
  }

  lemma PlaceOnNext(p: Pool, n: nat, at: real, duration: real, low: real, high: real)
    requires n < |p.slots| && Levels(p.slots, n, low, high) && low <= high == Max(at, low) + duration
    ensures Levels(Place(p, at, duration, 1.0).slots, n + 1, low, high)
  {
    assert p.slots[n] == low;
    assert p.slots[Earliest(p.slots)] == low;
  }

  // Jobs alike fill slots on one level from the first to the last.
  lemma {:induction false} FillLevels(p: Pool, n: nat, at: real, duration: real, low: real, high: real)
    requires n <= |p.slots| && |p.slots| > 0 && Levels(p.slots, 0, low, high)
    requires low <= high == Max(at, low) + duration
    ensures Levels(Fill(p, n, at, duration).slots, n, low, high)
  {
    if n > 0 {
      FillLevels(p, n - 1, at, duration, low, high);
      PlaceOnNext(Fill(p, n - 1, at, duration), n - 1, at, duration, low, high);
    }
  }

  ghost predicate Flat(slots: seq<real>, level: real) {
    forall i :: 0 <= i < |slots| ==> slots[i] == level
  }

  lemma FillAll(p: Pool, at: real, duration: real, low: real, high: real) returns (q: Pool)
    requires |p.slots| > 0 && Flat(p.slots, low) && low <= high == Max(at, low) + duration
    ensures q == Fill(p, |p.slots|, at, duration) && Flat(q.slots, high)
  {
    FillLevels(p, |p.slots|, at, duration, low, high);
    q := Fill(p, |p.slots|, at, duration);
  }

  // ----- the worst case

  // One job on every slot that takes no time but starts at `from`; then r rounds of unit jobs,
  // which have been there from the start.
  function Rounds(m: nat, from: real, r: nat): seq<Event> {
    if r == 0 then Same(m, from, 0.0) else Rounds(m, from, r - 1) + Same(m, 0.0, 1.0)
  }

  lemma FirstRound(m: nat, from: real) returns (p: Pool)
    requires m > 0 && from >= 0.0
    ensures p == Run(m, Rounds(m, from, 0)) == Fill(Init(m), m, from, 0.0) && Flat(p.slots, from)
  {
    assert [] + Rounds(m, from, 0) == Same(m, from, 0.0);
    FillIsRun(m, [], m, from, 0.0);
    p := FillAll(Init(m), from, 0.0, 0.0, from);
  }

  lemma NextRound(m: nat, from: real, r: nat, low: real) returns (p: Pool)
    requires m > 0 && r > 0 && low >= 0.0 && Flat(Run(m, Rounds(m, from, r - 1)).slots, low)
    ensures p == Run(m, Rounds(m, from, r)) == Fill(Run(m, Rounds(m, from, r - 1)), m, 0.0, 1.0) && Flat(p.slots, low + 1.0)
  {
    FillIsRun(m, Rounds(m, from, r - 1), m, 0.0, 1.0);
    p := FillAll(Run(m, Rounds(m, from, r - 1)), 0.0, 1.0, low, low + 1.0);
  }

  lemma {:induction false} RoundsLevel(m: nat, from: real, r: nat) returns (p: Pool)
    requires m > 0 && from >= 0.0
    ensures p == Run(m, Rounds(m, from, r)) && Flat(p.slots, from + r as real)
  {
    if r == 0 {
      p := FirstRound(m, from);
    } else {
      p := RoundsLevel(m, from, r - 1);
      p := NextRound(m, from, r, from + (r - 1) as real);
    }
  }

  // A better timetable: round r has slot r to itself.
  function Table(m: nat, from: real, r: nat): seq<Booking> {
    if r == 0 then seq(m, i requires 0 <= i => Booking(i, from, from))
    else Table(m, from, r - 1) + UnitRow(m, r)
  }

  function UnitRow(m: nat, r: nat): (row: seq<Booking>)
    ensures |row| == m && forall i :: 0 <= i < m ==> row[i] == Booking(r, i as real, (i + 1) as real)
  {
    seq(m, i requires 0 <= i => Booking(r, i as real, (i + 1) as real))
  }

  // One row more, of bookings as long as the jobs they are for.
  lemma LongerSchedules(plan: seq<Booking>, row: seq<Booking>, jobs: seq<Job>, more: seq<Job>, m: nat, at: real, duration: real)
    requires Schedules(plan, jobs, m) && |more| == |jobs| + |row| && more[..|jobs|] == jobs
    requires Uniform(more, |jobs|, at, duration)
    requires forall i :: 0 <= i < |row| ==> row[i].slot < m && row[i].until - row[i].from == duration && at <= row[i].from
    ensures Schedules(plan + row, more, m)
  {
    forall i | 0 <= i < |plan| ensures more[i] == jobs[i] {
      assert more[..|jobs|][i] == jobs[i];
    }
  }

  lemma FirstSchedules(m: nat, from: real)
    requires m > 0 && from >= 0.0
    ensures Schedules(Table(m, from, 0), Run(m, Rounds(m, from, 0)).jobs, m)
  {
    var p := FirstRound(m, from);
    FillJobs(Init(m), m, from, 0.0);
    LongerSchedules([], Table(m, from, 0), [], p.jobs, m, from, 0.0);
    assert [] + Table(m, from, 0) == Table(m, from, 0);
  }

  lemma NextSchedules(m: nat, from: real, r: nat, before: Pool)
    requires 0 < r < m && before == Run(m, Rounds(m, from, r - 1))
    requires Schedules(Table(m, from, r - 1), before.jobs, m)
    ensures Schedules(Table(m, from, r), Run(m, Rounds(m, from, r)).jobs, m)
  {
    FillIsRun(m, Rounds(m, from, r - 1), m, 0.0, 1.0);
    FillJobs(before, m, 0.0, 1.0);
    LongerSchedules(Table(m, from, r - 1), UnitRow(m, r), before.jobs, Fill(before, m, 0.0, 1.0).jobs, m, 0.0, 1.0);
  }

  lemma {:induction false} TableSchedules(m: nat, from: real, r: nat)
    requires 0 <= r < m && from >= 0.0
    ensures Schedules(Table(m, from, r), Run(m, Rounds(m, from, r)).jobs, m)
  {
    if r == 0 {
      FirstSchedules(m, from);
    } else {
      TableSchedules(m, from, r - 1);
      NextSchedules(m, from, r, Run(m, Rounds(m, from, r - 1)));
    }
  }

  // The jobs without length lie at one end of the table, and nothing else is on slot 0.
  ghost predicate Spared(plan: seq<Booking>, from: real, r: nat) {
    forall i :: 0 <= i < |plan| ==> plan[i].from == plan[i].until == from || 1 <= plan[i].slot <= r
  }

  lemma {:induction false} TableFits(m: nat, from: real, r: nat)
    requires 0 <= r < m && (from == 0.0 || from == m as real)
    ensures Feasible(Table(m, from, r), m as real) && Spared(Table(m, from, r), from, r)
  {
    if r > 0 {
      TableFits(m, from, r - 1);
    }
  }

  // After m - 1 rounds one long job comes, which a better timetable puts on slot 0.
  function WorstEvents(m: nat, from: real): seq<Event>
    requires m > 0
  {
    Rounds(m, from, m - 1) + [Placing(0.0, m as real, 1.0)]
  }

  function WorstTable(m: nat, from: real): seq<Booking>
    requires m > 0
  {
    Table(m, from, m - 1) + [Booking(0, 0.0, m as real)]
  }

  lemma WorstFits(m: nat, from: real)
    requires m > 0 && (from == 0.0 || from == m as real)
    ensures Feasible(WorstTable(m, from), m as real)
  {
    TableFits(m, from, m - 1);
    OneMoreBooking(Table(m, from, m - 1), m, from, m - 1);
  }

  lemma WorstSchedules(m: nat, from: real) returns (more: seq<Job>)
    requires m > 0 && from >= 0.0
    ensures more == Run(m, WorstEvents(m, from)).jobs && Schedules(WorstTable(m, from), more, m)
    ensures |more| > 0 && more[|more| - 1].finish == from + (m - 1) as real + m as real
  {
    TableSchedules(m, from, m - 1);
    var jobs;
    jobs, more := LastEnds(m, from);
    LongerSchedules(Table(m, from, m - 1), [Booking(0, 0.0, m as real)], jobs, more, m, 0.0, m as real);
  }

  // Placements only, all of them at time zero.
  ghost predicate FromStart(events: seq<Event>) {
    forall i :: 0 <= i < |events| ==> events[i].Placing? && events[i].at == 0.0 && events[i].duration >= 0.0
  }

  lemma {:induction false} RoundsFromStart(m: nat, from: real, r: nat)
    ensures Lasting(Rounds(m, from, r)) && (from == 0.0 ==> FromStart(Rounds(m, from, r)))
  {
    if r > 0 {
      RoundsFromStart(m, from, r - 1);
    }
  }

  lemma OneMoreBooking(plan: seq<Booking>, m: nat, from: real, r: nat)
    requires Feasible(plan, m as real) && Spared(plan, from, r) && (from == 0.0 || from == m as real)
    ensures Feasible(plan + [Booking(0, 0.0, m as real)], m as real)
  {
  }

  lemma PlaceOnLevel(p: Pool, level: real, d: real)
    requires |p.slots| > 0 && level >= 0.0 && Flat(p.slots, level)
    ensures var jobs := Place(p, 0.0, d, 1.0).jobs;
            && |jobs| == |p.jobs| + 1 && jobs[..|p.jobs|] == p.jobs
            && Uniform(jobs, |p.jobs|, 0.0, d) && jobs[|p.jobs|].finish == level + d
  {
  }

  lemma LastEnds(m: nat, from: real) returns (jobs: seq<Job>, more: seq<Job>)
    requires m > 0 && from >= 0.0
    ensures jobs == Run(m, Rounds(m, from, m - 1)).jobs && more == Run(m, WorstEvents(m, from)).jobs
    ensures |more| == |jobs| + 1 && more[..|jobs|] == jobs
    ensures Uniform(more, |jobs|, 0.0, m as real) && more[|jobs|].finish == from + (m - 1) as real + m as real
  {
    var p := RoundsLevel(m, from, m - 1);
    RunAppend(m, Rounds(m, from, m - 1), Placing(0.0, m as real, 1.0));
    PlaceOnLevel(p, from + (m - 1) as real, m as real);
    jobs, more := p.jobs, Run(m, WorstEvents(m, from)).jobs;
  }

  // ----- the factors

  function AnyOrderFactor(m: nat): real
    requires m > 0
  {
    3.0 - 1.0 / m as real
  }

  function InOrderFactor(m: nat): real
    requires m > 0
  {
    2.0 - 1.0 / m as real
  }

  lemma Reciprocal(n: real) returns (q: real)
    requires n >= 1.0
    ensures q == 1.0 / n && n * q == 1.0
  {
    q := 1.0 / n;
  }

  lemma FactorOut(n: real, q: real, top: real, end: real) returns (x: real)
    requires n * q == 1.0
    ensures x == (top - q) * end && n * x == top * (n * end) - end
  {
    x := top * end - q * end;
    var whole := n * end;
    assert n * (top * end) == top * whole;
    assert n * (q * end) == (n * q) * end;
  }

  lemma DivideOut(n: real, a: real, b: real)
    requires n > 0.0 && n * a <= n * b
    ensures a <= b
  {
    ProductSign(n, a - b);
  }

  lemma AtMostFactor(x: real, share: real, c: real, end: real)
    requires end >= 0.0 && share <= c && x == share * end
    ensures x <= c * end
  {
    ProductMonotone(end, share, c);
  }

  lemma FactorBound(n: real, c: real, top: real, finish: real, end: real, most: real)
    requires n >= 1.0 && end >= 0.0 && c >= top - 1.0 / n
    requires most == top * (n * end) - end && n * finish <= most
    ensures EndsBy(finish, c, end)
  {
    var q := Reciprocal(n);
    var x := FactorOut(n, q, top, end);
    DivideOut(n, finish, x);
    AtMostFactor(x, top - q, c, end);
  }

  // A bound on a finish counted once a slot is a bound on the finish.
  lemma FactorScales(m: nat, c: real, top: real, finish: real, end: real)
    requires m > 0 && end >= 0.0 && c >= top - 1.0 / m as real && Times(m, finish) <= top * Times(m, end) - end
    ensures EndsBy(finish, c, end)
  {
    TimesIsProduct(m, finish);
    TimesIsProduct(m, end);
    FactorBound(m as real, c, top, finish, end, top * Times(m, end) - end);
  }

  lemma FactorMissed(n: real, c: real, top: real, finish: real)
    requires n >= 1.0 && c < top - 1.0 / n && finish == top * n - 1.0
    ensures !EndsBy(finish, c, n)
  {
    var q := Reciprocal(n);
    var less := top - q - c;
    ProductSign(n, less);
    assert n * less == n * top - n * q - n * c;
  }

  lemma ThriceScales(m: nat, finish: real, d: real, end: real)
    requires m > 0 && 0.0 <= d <= end && Times(m, finish) + d <= 2.0 * Times(m, end) + Times(m, d)
    ensures Times(m, finish) <= 3.0 * Times(m, end) - end
  {
    TimesMonotone(m - 1, d, end);
  }

  // Any order of arrival will do.
  lemma LateWaitsHold(p: Pool, c: real)
    requires |p.slots| > 0 && WellPlaced(p) && LateWaits(p.jobs, |p.slots|) && c >= AnyOrderFactor(|p.slots|)
    ensures WithinFactor(p.jobs, |p.slots|, c)
  {
    var m := |p.slots|;
    forall plan: seq<Booking>, end: real, k: int | 0 <= k < |p.jobs| && Schedules(plan, p.jobs, m) && Feasible(plan, end)
      ensures EndsBy(p.jobs[k].finish, c, end)
    {
      WithinThriceOptimal(p, plan, end, k);
      ThriceScales(m, p.jobs[k].finish, Duration(p.jobs[k]), end);
      FactorScales(m, c, 3.0, p.jobs[k].finish, end);
    }
  }

  // So will order, for less.
  lemma BusyWaitsHold(p: Pool, c: real)
    requires |p.slots| > 0 && WellPlaced(p) && BusyWaits(p.jobs, |p.slots|) && c >= InOrderFactor(|p.slots|)
    ensures WithinFactor(p.jobs, |p.slots|, c)
  {
    var m := |p.slots|;
    forall plan: seq<Booking>, end: real, k: int | 0 <= k < |p.jobs| && Schedules(plan, p.jobs, m) && Feasible(plan, end)
      ensures EndsBy(p.jobs[k].finish, c, end)
    {
      BusyWaitBound(p, plan, end, k);
      assert plan[k].until <= end;
      FactorScales(m, c, 2.0, p.jobs[k].finish, end);
    }
  }

  lemma AnyOrderHolds(m: nat, c: real, events: seq<Event>)
    requires m > 0 && c >= 3.0 - 1.0 / m as real && Lasting(events)
    ensures WithinFactor(Run(m, events).jobs, m, c)
  {
    RunSound(m, events);
    RunEven(m, events);
    LateWaitsHold(Run(m, events), c);
  }

  lemma InOrderHolds(m: nat, c: real, events: seq<Event>)
    requires m > 0 && c >= 2.0 - 1.0 / m as real && Timed(events)
    ensures WithinFactor(Run(m, events).jobs, m, c)
  {
    RunSound(m, events);
    var b := RunBusy(m, events);
    BusyWaitsHold(Run(m, events), c);
  }

  lemma {:induction false} AtOnceArrive(m: nat, events: seq<Event>)
    requires m > 0 && AtOnce(events)
    ensures forall k :: 0 <= k < |Run(m, events).jobs| ==> Run(m, events).jobs[k].arrival == 0.0
  {
    if |events| > 0 {
      AtOnceArrive(m, events[..|events| - 1]);
    }
  }

  lemma {:induction false} NoPeak(jobs: seq<Job>)
    requires forall k :: 0 <= k < |jobs| ==> jobs[k].arrival == 0.0
    ensures PeakArrival(jobs) == 0.0
  {
    if |jobs| > 0 {
      NoPeak(jobs[..|jobs| - 1]);
    }
  }

  lemma AtOnceFair(jobs: seq<Job>, slots: nat)
    requires LateWaits(jobs, slots) && forall k :: 0 <= k < |jobs| ==> jobs[k].arrival == 0.0
    ensures FairWaits(jobs, slots)
  {
    forall k | 0 <= k < |jobs| ensures FairWait(jobs, slots, k) {
      NoPeak(jobs[..k + 1]);
      assert LateWait(jobs, slots, k);
    }
  }

  lemma AtOnceHolds(m: nat, c: real, events: seq<Event>)
    requires m > 0 && c >= 2.0 - 1.0 / m as real && Lasting(events) && AtOnce(events)
    ensures WithinFactor(Run(m, events).jobs, m, c)
  {
    var p := Run(m, events);
    RunSound(m, events);
    RunEven(m, events);
    AtOnceArrive(m, events);
    AtOnceFair(p.jobs, m);
    forall plan: seq<Booking>, end: real, k: int | 0 <= k < |p.jobs| && Schedules(plan, p.jobs, m) && Feasible(plan, end)
      ensures EndsBy(p.jobs[k].finish, c, end)
    {
      WithinTwiceOptimal(p, plan, end, k);
      assert plan[k].until <= end;
      FactorScales(m, c, 2.0, p.jobs[k].finish, end);
    }
  }

  lemma OneMisses(jobs: seq<Job>, m: nat, c: real, plan: seq<Booking>, end: real, k: nat)
    requires k < |jobs| && Schedules(plan, jobs, m) && Feasible(plan, end) && !EndsBy(jobs[k].finish, c, end)
    ensures !WithinFactor(jobs, m, c)
  {
  }

  lemma WorstCaseMisses(m: nat, from: real, c: real) returns (events: seq<Event>)
    requires m > 0 && (from == 0.0 || from == m as real)
    requires !EndsBy(from + (m - 1) as real + m as real, c, m as real)
    ensures Lasting(events) && (from == 0.0 ==> FromStart(events)) && !WithinFactor(Run(m, events).jobs, m, c)
  {
    events := WorstEvents(m, from);
    RoundsFromStart(m, from, m - 1);
    WorstFits(m, from);
    var jobs := WorstSchedules(m, from);
    OneMisses(jobs, m, c, WorstTable(m, from), m as real, |jobs| - 1);
  }

  // In whatever order jobs come, each ends by c times the end of the best schedule, in every
  // run, if and only if c is at least 3 - 1/m.
  lemma FactorInAnyOrder(m: nat, c: real)
    requires m > 0
    ensures (forall events :: Lasting(events) ==> WithinFactor(Run(m, events).jobs, m, c))
       <==> c >= 3.0 - 1.0 / m as real
  {
    if c >= 3.0 - 1.0 / m as real {
      forall events | Lasting(events) ensures WithinFactor(Run(m, events).jobs, m, c) {
        AnyOrderHolds(m, c, events);
      }
    } else {
      var n := m as real;
      FactorMissed(n, c, 3.0, n + (m - 1) as real + n);
      var events := WorstCaseMisses(m, n, c);
    }
  }

  // In order, and even when all are there from the start, if and only if c is at least 2 - 1/m.
  lemma FactorInOrder(m: nat, c: real)
    requires m > 0
    ensures (forall events :: Timed(events) ==> WithinFactor(Run(m, events).jobs, m, c))
       <==> c >= 2.0 - 1.0 / m as real
    ensures (forall events :: Lasting(events) && AtOnce(events) ==> WithinFactor(Run(m, events).jobs, m, c))
       <==> c >= 2.0 - 1.0 / m as real
  {
    if c >= 2.0 - 1.0 / m as real {
      forall events | Timed(events) ensures WithinFactor(Run(m, events).jobs, m, c) {
        InOrderHolds(m, c, events);
      }
      forall events | Lasting(events) && AtOnce(events) ensures WithinFactor(Run(m, events).jobs, m, c) {
        AtOnceHolds(m, c, events);
      }
    } else {
      var n := m as real;
      FactorMissed(n, c, 2.0, 0.0 + (m - 1) as real + n);
      var events := WorstCaseMisses(m, 0.0, c);
    }
  }
}
