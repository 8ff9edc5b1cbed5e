// The slot scheduler of one pool as a state machine on values.
//
// A pool keeps two books that nothing in its code links: the time each slot becomes free,
// and the list of (finish, memory) entries of jobs not yet seen to finish.  `jobs` is a
// history of every placement; no operation reads it.
module PoolModel {
  import opened Numbers

  datatype Job = Job(slot: nat, arrival: real, start: real, finish: real, memory: real)

  datatype Pool = Pool(
    slots: seq<real>,
    inflight: seq<(real, real)>,
    active: real,
    reserved: real,
    congestion: real,
    decisions: nat,
    completed: nat,
    jobs: seq<Job>)

  // ----- operations

  function Init(parallelSlots: nat): Pool {
    Pool(seq(parallelSlots, i => 0.0), [], 0.0, 0.0, 0.0, 0, 0, [])
  }

  function Unfinished(entries: seq<(real, real)>, now: real): (r: seq<(real, real)>)
    ensures |r| <= |entries|
  {
    if |entries| == 0 then []
    else
      var rest := Unfinished(entries[..|entries| - 1], now);
      if entries[|entries| - 1].0 > now then rest + [entries[|entries| - 1]] else rest
  }

  function Memory(entries: seq<(real, real)>): real {
    if |entries| == 0 then 0.0
    else Memory(entries[..|entries| - 1]) + entries[|entries| - 1].1
  }

  function Refresh(p: Pool, now: real): Pool {
    var left := Unfinished(p.inflight, now);
    p.(inflight := left, active := Memory(left))
  }

  function InflightCount(slots: seq<real>, now: real): (n: nat)
    ensures n <= |slots|
  {
    if |slots| == 0 then 0
    else InflightCount(slots[..|slots| - 1], now) + (if slots[|slots| - 1] > now then 1 else 0)
  }

  // The lowest-numbered slot among those that become free first.
  function Earliest(slots: seq<real>): (k: nat)
    requires |slots| > 0
    ensures k < |slots|
    ensures forall s :: 0 <= s < |slots| ==> slots[k] <= slots[s]
    ensures forall s :: 0 <= s < k ==> slots[k] < slots[s]
  {
    if |slots| == 1 then 0
    else
      var k := Earliest(slots[..|slots| - 1]);
      if slots[|slots| - 1] < slots[k] then |slots| - 1 else k
  }

  function QueueDelayMs(slots: seq<real>, now: real): real
    requires |slots| > 0
  {
    Max(0.0, slots[Earliest(slots)] - now) * 1000.0
  }

  function Headroom(memoryGb: real, active: real, reserved: real): real {
    Max(0.0, memoryGb - active - reserved)
  }

  function NextJob(p: Pool, now: real, duration: real, memory: real): Job
    requires |p.slots| > 0
  {
    var k := Earliest(p.slots);
    var start := Max(now, p.slots[k]);
    Job(k, now, start, start + duration, memory)
  }

  function Place(p: Pool, now: real, duration: real, memory: real): Pool
    requires |p.slots| > 0
  {
    var job := NextJob(p, now, duration, memory);
    p.(slots := p.slots[job.slot := job.finish],
       inflight := p.inflight + [(job.finish, memory)],
       active := p.active + memory,
       decisions := p.decisions + 1,
       jobs := p.jobs + [job])
  }

  // ----- what holds between operations

  function Log(jobs: seq<Job>): (r: seq<(real, real)>)
    ensures |r| == |jobs|
  {
    if |jobs| == 0 then []
    else Log(jobs[..|jobs| - 1]) + [(jobs[|jobs| - 1].finish, jobs[|jobs| - 1].memory)]
  }

  predicate Runs(j: Job, s: nat, t: real) {
    j.slot == s && j.start <= t < j.finish
  }

  ghost predicate BusyAt(jobs: seq<Job>, s: nat, t: real) {
    exists i :: 0 <= i < |jobs| && Runs(jobs[i], s, t)
  }

  // Every job sits on a real slot, in a well-formed interval its slot has accounted for.
  ghost predicate WellPlaced(p: Pool) {
    forall i :: 0 <= i < |p.jobs| ==>
      && p.jobs[i].slot < |p.slots|
      && p.jobs[i].arrival <= p.jobs[i].start <= p.jobs[i].finish <= p.slots[p.jobs[i].slot]
  }

  ghost predicate Arrived(jobs: seq<Job>, now: real) {
    forall i :: 0 <= i < |jobs| ==> 0.0 <= jobs[i].arrival <= now
  }

  // When the latest job came, in whatever order they came.
  function PeakArrival(jobs: seq<Job>): (t: real)
    ensures t >= 0.0 && forall i :: 0 <= i < |jobs| ==> jobs[i].arrival <= t
  {
    if |jobs| == 0 then 0.0 else Max(PeakArrival(jobs[..|jobs| - 1]), jobs[|jobs| - 1].arrival)
  }

  predicate EndsOn(j: Job, s: nat, t: real) {
    j.slot == s && j.finish == t
  }

  // A slot is booked to the end of one of its jobs, or was never used.
  ghost predicate BookedToAJob(p: Pool) {
    forall s :: 0 <= s < |p.slots| ==>
      && p.slots[s] >= 0.0
      && (p.slots[s] == 0.0 || exists i :: 0 <= i < |p.jobs| && EndsOn(p.jobs[i], s, p.slots[s]))
  }

  // First come, first started.
  ghost predicate Fifo(jobs: seq<Job>) {
    forall i, k :: 0 <= i < k < |jobs| ==>
      jobs[i].arrival <= jobs[k].arrival && jobs[i].start <= jobs[k].start
  }

  // Two jobs on one slot occupy disjoint intervals, in placement order.
  ghost predicate Disjoint(jobs: seq<Job>) {
    forall i, k :: 0 <= i < k < |jobs| && jobs[i].slot == jobs[k].slot ==>
      jobs[i].finish <= jobs[k].start
  }

  // A slot takes a second job only once no slot becomes free before the first one ends.
  ghost predicate StackedLast(p: Pool) {
    forall i, k, s :: 0 <= i < k < |p.jobs| && p.jobs[i].slot == p.jobs[k].slot && 0 <= s < |p.slots| ==>
      p.jobs[i].finish <= p.slots[s]
  }

  ghost predicate StartsPassed(p: Pool, now: real) {
    forall i, s :: 0 <= i < |p.jobs| && 0 <= s < |p.slots| ==> p.jobs[i].start <= Max(now, p.slots[s])
  }

  // A slot is busy, without a gap, from the present until the time it is booked to.
  ghost predicate BookedSolid(p: Pool, now: real) {
    forall s, t :: 0 <= s < |p.slots| && now <= t < p.slots[s] ==> BusyAt(p.jobs, s, t)
  }

  // No slot idles while a placed job waits.
  ghost predicate NoIdling(jobs: seq<Job>, slots: nat) {
    forall k, s, t :: 0 <= k < |jobs| && 0 <= s < slots && jobs[k].arrival <= t < jobs[k].start ==>
      BusyAt(jobs, s, t)
  }

  // From now on, the incremental in-flight list filters to what the whole history filters to.
  ghost predicate BooksMatch(p: Pool, now: real) {
    forall t :: now <= t ==> Unfinished(p.inflight, t) == Unfinished(Log(p.jobs), t)
  }

  // What every run keeps, in whatever order its times come.
  ghost predicate Sound(p: Pool) {
    && |p.slots| > 0 && p.active == Memory(p.inflight)
    && WellPlaced(p) && Disjoint(p.jobs) && StackedLast(p) && BookedToAJob(p)
  }

  // What the slots and the history say of each other when no time lies before an earlier one.
  ghost predicate InStep(p: Pool, now: real) {
    && 0.0 <= now && Arrived(p.jobs, now) && Fifo(p.jobs) && StartsPassed(p, now)
    && BookedSolid(p, now) && NoIdling(p.jobs, |p.slots|)
  }

  ghost predicate Consistent(p: Pool, now: real) {
    Sound(p) && BooksMatch(p, now) && InStep(p, now)
  }

  // ----- filtering

  lemma UnfinishedAppend(entries: seq<(real, real)>, e: (real, real), now: real)
    ensures Unfinished(entries + [e], now) == Unfinished(entries, now) + (if e.0 > now then [e] else [])
  {
    assert (entries + [e])[..|entries|] == entries;
  }

  lemma {:induction false} UnfinishedTwice(entries: seq<(real, real)>, earlier: real, later: real)
    requires earlier <= later
    ensures Unfinished(Unfinished(entries, earlier), later) == Unfinished(entries, later)
  {
    if |entries| > 0 {
      var init, e := entries[..|entries| - 1], entries[|entries| - 1];
      UnfinishedTwice(init, earlier, later);
      UnfinishedAppend(Unfinished(init, earlier), e, later);
    }
  }

  lemma LogAppend(jobs: seq<Job>, j: Job)
    ensures Log(jobs + [j]) == Log(jobs) + [(j.finish, j.memory)]
  {
    assert (jobs + [j])[..|jobs|] == jobs;
  }

  lemma MemoryAppend(entries: seq<(real, real)>, e: (real, real))
    ensures Memory(entries + [e]) == Memory(entries) + e.1
  {
    assert (entries + [e])[..|entries|] == entries;
  }

  lemma {:induction false} PeakAtMost(jobs: seq<Job>, now: real)
    requires 0.0 <= now && Arrived(jobs, now)
    ensures PeakArrival(jobs) <= now
  {
    if |jobs| > 0 {
      PeakAtMost(jobs[..|jobs| - 1], now);
    }
  }

  lemma PlacePeak(p: Pool, now: real, duration: real, memory: real)
    requires |p.slots| > 0
    ensures PeakArrival(Place(p, now, duration, memory).jobs) == Max(PeakArrival(p.jobs), now)
  {
    assert Place(p, now, duration, memory).jobs[..|p.jobs|] == p.jobs;
  }

  // ----- every operation keeps the invariant

  lemma InitConsistent(parallelSlots: nat)
    requires parallelSlots > 0
    ensures Consistent(Init(parallelSlots), 0.0)
  {
  }

  lemma RefreshKeepsSound(p: Pool, now: real)
    requires Sound(p)
    ensures Sound(Refresh(p, now))
  {
  }

  lemma TimeKeepsInStep(p: Pool, q: Pool, earlier: real, now: real)
    requires InStep(p, earlier) && earlier <= now && q.slots == p.slots && q.jobs == p.jobs
    ensures InStep(q, now)
  {
    TimeKeepsStarts(p, q, earlier, now);
    TimeKeepsBookedSolid(p, q, earlier, now);
  }

  lemma TimeKeepsStarts(p: Pool, q: Pool, earlier: real, now: real)
    requires StartsPassed(p, earlier)
    requires earlier <= now && q.slots == p.slots && q.jobs == p.jobs
    ensures StartsPassed(q, now)
  {
    forall i, s | 0 <= i < |q.jobs| && 0 <= s < |q.slots| ensures q.jobs[i].start <= Max(now, q.slots[s]) {
      assert p.jobs[i].start <= Max(earlier, p.slots[s]);
    }
  }

  lemma TimeKeepsBookedSolid(p: Pool, q: Pool, earlier: real, now: real)
    requires BookedSolid(p, earlier) && earlier <= now && q.slots == p.slots && q.jobs == p.jobs
    ensures BookedSolid(q, now)
  {
    forall s, t | 0 <= s < |q.slots| && now <= t < q.slots[s] ensures BusyAt(q.jobs, s, t) {
      assert BusyAt(p.jobs, s, t);
    }
  }

  // A refresh at any time keeps the books matched from the later of that time and the last one.
  lemma RefreshKeepsBooks(p: Pool, latest: real, now: real)
    requires BooksMatch(p, latest)
    ensures BooksMatch(Refresh(p, now), Max(latest, now))
    ensures latest <= now ==> Refresh(p, now).inflight == Unfinished(Log(p.jobs), now)
  {
    var q := Refresh(p, now);
    forall t | Max(latest, now) <= t ensures Unfinished(q.inflight, t) == Unfinished(Log(q.jobs), t) {
      UnfinishedTwice(p.inflight, now, t);
    }
  }

  lemma RefreshKeeps(p: Pool, earlier: real, now: real)
    requires Consistent(p, earlier) && earlier <= now
    ensures Consistent(Refresh(p, now), now)
    ensures Refresh(p, now).inflight == Unfinished(Log(p.jobs), now)
  {
    RefreshKeepsSound(p, now);
    TimeKeepsInStep(p, Refresh(p, now), earlier, now);
    RefreshKeepsBooks(p, earlier, now);
  }

  lemma BusyExtends(jobs: seq<Job>, j: Job, s: nat, t: real)
    requires BusyAt(jobs, s, t) || Runs(j, s, t)
    ensures BusyAt(jobs + [j], s, t)
  {
    var all := jobs + [j];
    if BusyAt(jobs, s, t) {
      var i :| 0 <= i < |jobs| && Runs(jobs[i], s, t);
      assert Runs(all[i], s, t);
    } else {
      assert Runs(all[|jobs|], s, t);
    }
  }

  lemma PlaceKeepsBookedSolid(p: Pool, earlier: real, now: real, duration: real, memory: real)
    requires |p.slots| > 0 && BookedSolid(p, earlier) && duration >= 0.0
    ensures BookedSolid(Place(p, now, duration, memory), Max(earlier, now))
  {
    var q := Place(p, now, duration, memory);
    var j := NextJob(p, now, duration, memory);
    forall s, t | 0 <= s < |q.slots| && Max(earlier, now) <= t < q.slots[s] ensures BusyAt(q.jobs, s, t) {
      assert t < p.slots[s] ==> BusyAt(p.jobs, s, t);
      assert BusyAt(p.jobs, s, t) || Runs(j, s, t);
      BusyExtends(p.jobs, j, s, t);
    }
  }

  lemma PlaceKeepsNoIdling(p: Pool, earlier: real, now: real, duration: real, memory: real)
    requires |p.slots| > 0 && BookedSolid(p, earlier) && earlier <= now
    requires NoIdling(p.jobs, |p.slots|)
    ensures NoIdling(Place(p, now, duration, memory).jobs, |p.slots|)
  {
    var jobs := Place(p, now, duration, memory).jobs;
    var j := NextJob(p, now, duration, memory);
    forall k, s, t | 0 <= k < |jobs| && 0 <= s < |p.slots| && jobs[k].arrival <= t < jobs[k].start
      ensures BusyAt(jobs, s, t)
    {
      if k < |p.jobs| {
        assert jobs[k] == p.jobs[k];
      } else {
        assert t < p.slots[s];
      }
      assert BusyAt(p.jobs, s, t);
      BusyExtends(p.jobs, j, s, t);
    }
  }

  // A placement, at any time, keeps the books matched from the last refresh on.
  lemma PlaceKeepsBooks(p: Pool, latest: real, now: real, duration: real, memory: real)
    requires |p.slots| > 0 && BooksMatch(p, latest)
    ensures BooksMatch(Place(p, now, duration, memory), latest)
  {
    var q := Place(p, now, duration, memory);
    var j := NextJob(p, now, duration, memory);
    LogAppend(p.jobs, j);
    forall t | latest <= t ensures Unfinished(q.inflight, t) == Unfinished(Log(q.jobs), t) {
      UnfinishedAppend(p.inflight, (j.finish, memory), t);
      UnfinishedAppend(Log(p.jobs), (j.finish, memory), t);
    }
  }

  lemma PlaceKeepsPlacement(p: Pool, now: real, duration: real, memory: real)
    requires |p.slots| > 0 && WellPlaced(p) && Disjoint(p.jobs) && duration >= 0.0
    ensures WellPlaced(Place(p, now, duration, memory)) && Disjoint(Place(p, now, duration, memory).jobs)
  {
    var q := Place(p, now, duration, memory);
    forall i | 0 <= i < |q.jobs|
      ensures q.jobs[i].slot < |q.slots|
      ensures q.jobs[i].arrival <= q.jobs[i].start <= q.jobs[i].finish <= q.slots[q.jobs[i].slot]
    {
      if i < |p.jobs| {
        assert q.jobs[i] == p.jobs[i];
      }
    }
    forall i, k | 0 <= i < k < |q.jobs| && q.jobs[i].slot == q.jobs[k].slot
      ensures q.jobs[i].finish <= q.jobs[k].start
    {
      assert q.jobs[i] == p.jobs[i];
      if k < |p.jobs| {
        assert q.jobs[k] == p.jobs[k];
      }
    }
  }

  lemma PlaceKeepsBookedToAJob(p: Pool, now: real, duration: real, memory: real)
    requires |p.slots| > 0 && BookedToAJob(p) && duration >= 0.0
    ensures BookedToAJob(Place(p, now, duration, memory))
  {
    var q := Place(p, now, duration, memory);
    forall s | 0 <= s < |q.slots|
      ensures q.slots[s] >= 0.0
      ensures q.slots[s] == 0.0 || exists i :: 0 <= i < |q.jobs| && EndsOn(q.jobs[i], s, q.slots[s])
    {
      if s == NextJob(p, now, duration, memory).slot {
        assert EndsOn(q.jobs[|p.jobs|], s, q.slots[s]);
      } else if p.slots[s] != 0.0 {
        var i :| 0 <= i < |p.jobs| && EndsOn(p.jobs[i], s, p.slots[s]);
        assert EndsOn(q.jobs[i], s, q.slots[s]);
      }
    }
  }

  lemma PlaceKeepsStacking(p: Pool, now: real, duration: real, memory: real)
    requires |p.slots| > 0 && WellPlaced(p) && StackedLast(p) && duration >= 0.0
    ensures StackedLast(Place(p, now, duration, memory))
  {
    var q := Place(p, now, duration, memory);
    forall i, k, s | 0 <= i < k < |q.jobs| && q.jobs[i].slot == q.jobs[k].slot && 0 <= s < |q.slots|
      ensures q.jobs[i].finish <= q.slots[s]
    {
      assert q.jobs[i] == p.jobs[i] && p.slots[s] <= q.slots[s];
      if k < |p.jobs| {
        assert q.jobs[k] == p.jobs[k];
        assert p.jobs[i].finish <= p.slots[s];
      }
    }
  }

  lemma PlaceKeepsSound(p: Pool, now: real, duration: real, memory: real)
    requires Sound(p) && duration >= 0.0
    ensures Sound(Place(p, now, duration, memory))
  {
    PlaceKeepsPlacement(p, now, duration, memory);
    PlaceKeepsStacking(p, now, duration, memory);
    PlaceKeepsBookedToAJob(p, now, duration, memory);
    MemoryAppend(p.inflight, (NextJob(p, now, duration, memory).finish, memory));
  }

  lemma PlaceKeepsOrder(p: Pool, earlier: real, now: real, duration: real, memory: real)
    requires |p.slots| > 0 && Arrived(p.jobs, earlier) && StartsPassed(p, earlier) && Fifo(p.jobs)
    requires 0.0 <= earlier <= now && duration >= 0.0
    ensures var q := Place(p, now, duration, memory); Arrived(q.jobs, now) && StartsPassed(q, now) && Fifo(q.jobs)
  {
    var q := Place(p, now, duration, memory);
    var k := Earliest(p.slots);
    forall i | 0 <= i < |p.jobs|
      ensures q.jobs[i] == p.jobs[i] && q.jobs[i].start <= Max(now, p.slots[k])
    {
      assert p.jobs[i].start <= Max(earlier, p.slots[k]);
    }
    forall i, s | 0 <= i < |q.jobs| && 0 <= s < |q.slots| ensures q.jobs[i].start <= Max(now, q.slots[s]) {
      if i < |p.jobs| {
        assert p.jobs[i].start <= Max(earlier, p.slots[s]);
      }
    }
  }

  lemma PlaceKeeps(p: Pool, earlier: real, now: real, duration: real, memory: real)
    requires Consistent(p, earlier) && earlier <= now && duration >= 0.0
    ensures Consistent(Place(p, now, duration, memory), now)
  {
    PlaceKeepsSound(p, now, duration, memory);
    PlaceKeepsOrder(p, earlier, now, duration, memory);
    PlaceKeepsBookedSolid(p, earlier, now, duration, memory);
    PlaceKeepsNoIdling(p, earlier, now, duration, memory);
    PlaceKeepsBooks(p, earlier, now, duration, memory);
  }

  // ----- runs

  datatype Event = Refreshing(at: real) | Placing(at: real, duration: real, memory: real)

  function Apply(p: Pool, e: Event): (q: Pool)
    requires |p.slots| > 0
    ensures |q.slots| == |p.slots|
  {
    match e
    case Refreshing(at) => Refresh(p, at)
    case Placing(at, duration, memory) => Place(p, at, duration, memory)
  }

  function Run(parallelSlots: nat, events: seq<Event>): (p: Pool)
    requires parallelSlots > 0
    ensures |p.slots| == parallelSlots
  {
    if |events| == 0 then Init(parallelSlots)
    else Apply(Run(parallelSlots, events[..|events| - 1]), events[|events| - 1])
  }

  // No job ends before it starts.
  ghost predicate Lasting(events: seq<Event>) {
    forall i :: 0 <= i < |events| && events[i].Placing? ==> events[i].duration >= 0.0
  }

  function LatestRefresh(events: seq<Event>): real {
    if |events| == 0 then 0.0
    else
      var before := LatestRefresh(events[..|events| - 1]);
      if events[|events| - 1].Refreshing? then Max(before, events[|events| - 1].at) else before
  }

  // A run whose times come in any order: jobs of a slot never overlap, memory in use is that of
  // the jobs counted as in flight, and the books match from the latest refresh on.
  lemma {:induction false} RunSound(parallelSlots: nat, events: seq<Event>)
    requires parallelSlots > 0 && Lasting(events)
    ensures Sound(Run(parallelSlots, events))
    ensures BooksMatch(Run(parallelSlots, events), LatestRefresh(events))
  {
    if |events| == 0 {
      InitConsistent(parallelSlots);
    } else {
      var init := events[..|events| - 1];
      RunSound(parallelSlots, init);
      var before := Run(parallelSlots, init);
      match events[|events| - 1] {
        case Refreshing(at) =>
          RefreshKeepsSound(before, at);
          RefreshKeepsBooks(before, LatestRefresh(init), at);
        case Placing(at, duration, memory) =>
          PlaceKeepsSound(before, at, duration, memory);
          PlaceKeepsBooks(before, LatestRefresh(init), at, duration, memory);
      }
    }
  }

  // ----- runs with a clock that never goes back

  function Clock(events: seq<Event>): real {
    if |events| == 0 then 0.0 else events[|events| - 1].at
  }

  ghost predicate Timed(events: seq<Event>) {
    && Lasting(events)
    && (forall i :: 0 <= i < |events| ==> events[i].at >= 0.0)
    && (forall i, k :: 0 <= i < k < |events| ==> events[i].at <= events[k].at)
  }

  lemma {:induction false} RunConsistent(parallelSlots: nat, events: seq<Event>)
    requires parallelSlots > 0 && Timed(events)
    ensures Consistent(Run(parallelSlots, events), Clock(events))
  {
    if |events| == 0 {
      InitConsistent(parallelSlots);
    } else {
      var init := events[..|events| - 1];
      RunConsistent(parallelSlots, init);
      var before := Run(parallelSlots, init);
      match events[|events| - 1]
      case Refreshing(at) => RefreshKeeps(before, Clock(init), at);
      case Placing(at, duration, memory) => PlaceKeeps(before, Clock(init), at, duration, memory);
    }
  }

  // ----- counting jobs slot by slot

  function Count(jobs: seq<Job>, p: Job -> bool): (n: nat)
    ensures n <= |jobs|
  {
    if |jobs| == 0 then 0
    else Count(jobs[..|jobs| - 1], p) + (if p(jobs[|jobs| - 1]) then 1 else 0)
  }

  function OnSlot(s: nat, p: Job -> bool): Job -> bool {
    (j: Job) => j.slot == s && p(j)
  }

  function CountOn(jobs: seq<Job>, s: nat, p: Job -> bool): nat {
    Count(jobs, OnSlot(s, p))
  }

  function CountBelow(jobs: seq<Job>, slots: nat, p: Job -> bool): nat {
    if slots == 0 then 0 else CountBelow(jobs, slots - 1, p) + CountOn(jobs, slots - 1, p)
  }

  lemma {:induction false} CountBelowStep(jobs: seq<Job>, slots: nat, p: Job -> bool)
    requires |jobs| > 0
    ensures var j := jobs[|jobs| - 1];
            CountBelow(jobs, slots, p)
            == CountBelow(jobs[..|jobs| - 1], slots, p) + (if j.slot < slots && p(j) then 1 else 0)
  {
    if slots > 0 {
      CountBelowStep(jobs, slots - 1, p);
    }
  }

  // Counting slot by slot misses no job and counts none twice.
  lemma {:induction false} CountBySlot(jobs: seq<Job>, slots: nat, p: Job -> bool)
    requires forall i :: 0 <= i < |jobs| ==> jobs[i].slot < slots
    ensures CountBelow(jobs, slots, p) == Count(jobs, p)
  {
    if |jobs| == 0 {
      CountNone(slots, p);
    } else {
      CountBySlot(jobs[..|jobs| - 1], slots, p);
      CountBelowStep(jobs, slots, p);
    }
  }

  lemma {:induction false} CountNone(slots: nat, p: Job -> bool)
    ensures CountBelow([], slots, p) == 0
  {
    if slots > 0 {
      CountNone(slots - 1, p);
    }
  }

  lemma {:induction false} CountPositive(jobs: seq<Job>, i: nat, p: Job -> bool)
    requires i < |jobs| && p(jobs[i])
    ensures Count(jobs, p) > 0
  {
    if i < |jobs| - 1 {
      CountPositive(jobs[..|jobs| - 1], i, p);
    }
  }

  lemma {:induction false} CountWitness(jobs: seq<Job>, p: Job -> bool) returns (i: nat)
    requires Count(jobs, p) > 0
    ensures i < |jobs| && p(jobs[i])
  {
    if p(jobs[|jobs| - 1]) {
      i := |jobs| - 1;
    } else {
      i := CountWitness(jobs[..|jobs| - 1], p);
    }
  }

  lemma {:induction false} CountTwoWitnesses(jobs: seq<Job>, p: Job -> bool) returns (i: nat, k: nat)
    requires Count(jobs, p) > 1
    ensures i < k < |jobs| && p(jobs[i]) && p(jobs[k])
  {
    var init := jobs[..|jobs| - 1];
    if p(jobs[|jobs| - 1]) {
      i := CountWitness(init, p);
      k := |jobs| - 1;
    } else {
      i, k := CountTwoWitnesses(init, p);
    }
  }

  // ----- the two books agree

  function EndsAfter(now: real): Job -> bool {
    (j: Job) => j.finish > now
  }

  lemma {:induction false} UnfinishedCount(jobs: seq<Job>, now: real)
    ensures |Unfinished(Log(jobs), now)| == Count(jobs, EndsAfter(now))
  {
    if |jobs| > 0 {
      var init, j := jobs[..|jobs| - 1], jobs[|jobs| - 1];
      UnfinishedCount(init, now);
      UnfinishedAppend(Log(init), (j.finish, j.memory), now);
    }
  }

  lemma BusySlotHasJob(p: Pool, now: real, s: nat)
    requires BookedToAJob(p) && now >= 0.0 && s < |p.slots| && p.slots[s] > now
    ensures CountOn(p.jobs, s, EndsAfter(now)) > 0
  {
    var i :| 0 <= i < |p.jobs| && EndsOn(p.jobs[i], s, p.slots[s]);
    assert OnSlot(s, EndsAfter(now))(p.jobs[i]);
    CountPositive(p.jobs, i, OnSlot(s, EndsAfter(now)));
  }

  lemma JobKeepsSlotBusy(p: Pool, now: real, s: nat)
    requires WellPlaced(p) && s < |p.slots| && CountOn(p.jobs, s, EndsAfter(now)) > 0
    ensures p.slots[s] > now
  {
    var i := CountWitness(p.jobs, OnSlot(s, EndsAfter(now)));
  }

  lemma StackedJobsFillPool(p: Pool, now: real, s: nat, r: nat)
    requires StackedLast(p) && s < |p.slots| && r < |p.slots| && CountOn(p.jobs, s, EndsAfter(now)) > 1
    ensures p.slots[r] > now
  {
    var i, k := CountTwoWitnesses(p.jobs, OnSlot(s, EndsAfter(now)));
  }

  lemma UnfinishedOnSlot(p: Pool, now: real, s: nat)
    requires Sound(p) && now >= 0.0 && s < |p.slots|
    ensures CountOn(p.jobs, s, EndsAfter(now)) > 0 <==> p.slots[s] > now
    ensures CountOn(p.jobs, s, EndsAfter(now)) > 1 ==> forall r :: 0 <= r < |p.slots| ==> p.slots[r] > now
  {
    if p.slots[s] > now {
      BusySlotHasJob(p, now, s);
    } else if CountOn(p.jobs, s, EndsAfter(now)) > 0 {
      JobKeepsSlotBusy(p, now, s);
    }
    if CountOn(p.jobs, s, EndsAfter(now)) > 1 {
      forall r | 0 <= r < |p.slots| ensures p.slots[r] > now {
        StackedJobsFillPool(p, now, s, r);
      }
    }
  }

  lemma {:induction false} CountPrefix(p: Pool, now: real, n: nat)
    requires Sound(p) && now >= 0.0 && n <= |p.slots|
    ensures InflightCount(p.slots[..n], now) <= CountBelow(p.jobs, n, EndsAfter(now))
    ensures (exists r :: 0 <= r < |p.slots| && p.slots[r] <= now) ==>
              InflightCount(p.slots[..n], now) == CountBelow(p.jobs, n, EndsAfter(now))
  {
    if n > 0 {
      CountPrefix(p, now, n - 1);
      assert p.slots[..n][..n - 1] == p.slots[..n - 1];
      UnfinishedOnSlot(p, now, n - 1);
    }
  }

  lemma {:induction false} AllBusy(slots: seq<real>, now: real)
    ensures InflightCount(slots, now) == |slots| <==> forall r :: 0 <= r < |slots| ==> slots[r] > now
  {
    if |slots| > 0 {
      AllBusy(slots[..|slots| - 1], now);
      assert slots == slots[..|slots| - 1] + [slots[|slots| - 1]];
    }
  }

  // The slots in use are as many as the jobs of the whole history that are unfinished, up to
  // the number of slots: at any time, and in whatever order the jobs came.
  lemma SlotsCountJobs(p: Pool, now: real)
    requires Sound(p) && now >= 0.0
    ensures InflightCount(p.slots, now) == MinNat(|p.slots|, Count(p.jobs, EndsAfter(now)))
  {
    var m := |p.slots|;
    assert p.slots[..m] == p.slots;
    CountPrefix(p, now, m);
    CountBySlot(p.jobs, m, EndsAfter(now));
    AllBusy(p.slots, now);
  }

  // So they are as many as the entries a refresh leaves, where the two books match.
  lemma BooksAgree(p: Pool, now: real)
    requires Sound(p) && BooksMatch(p, now) && now >= 0.0
    ensures InflightCount(p.slots, now) == MinNat(|p.slots|, |Refresh(p, now).inflight|)
  {
    SlotsCountJobs(p, now);
    UnfinishedCount(p.jobs, now);
  }

  function RunningAt(t: real): Job -> bool {
    (j: Job) => j.start <= t < j.finish
  }

  lemma {:induction false} RunningBelow(jobs: seq<Job>, n: nat, t: real)
    requires Disjoint(jobs)
    ensures CountBelow(jobs, n, RunningAt(t)) <= n
  {
    if n > 0 {
      RunningBelow(jobs, n - 1, t);
      var here := OnSlot(n - 1, RunningAt(t));
      if Count(jobs, here) > 1 {
        var i, k := CountTwoWitnesses(jobs, here);
        assert false;
      }
    }
  }

  // At no instant, past or to come, do more jobs run than there are slots.
  lemma NeverMoreThanSlots(p: Pool, t: real)
    requires Sound(p)
    ensures Count(p.jobs, RunningAt(t)) <= |p.slots|
  {
    RunningBelow(p.jobs, |p.slots|, t);
    CountBySlot(p.jobs, |p.slots|, RunningAt(t));
  }
}
