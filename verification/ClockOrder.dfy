// What the order of times decides: from when the two books of every run agree, from when its
// slots are balanced, and which orders of arrival leave no slot idle while a job waits.
module ClockOrder {
  import opened Numbers
  import opened PoolModel
  import opened LoadBounds

  // ----- the books

  // The slots in use are as many as the entries that a refresh at this time would leave.
  predicate BooksAgreeAt(p: Pool, now: real) {
    InflightCount(p.slots, now) == MinNat(|p.slots|, |Refresh(p, now).inflight|)
  }

  // A job that runs until h, and a refresh at h that forgets it.
  function Forgotten(h: real): seq<Event> {
    [Placing(0.0, h, 1.0), Refreshing(h)]
  }

  lemma {:induction false} SomeInUse(slots: seq<real>, s: nat, now: real)
    requires s < |slots| && slots[s] > now
    ensures InflightCount(slots, now) > 0
  {
    if s < |slots| - 1 {
      SomeInUse(slots[..|slots| - 1], s, now);
    }
  }

  lemma ForgottenSplits(parallelSlots: nat, h: real, now: real)
    requires parallelSlots > 0 && 0.0 <= now < h
    ensures Lasting(Forgotten(h)) && LatestRefresh(Forgotten(h)) == h
    ensures !BooksAgreeAt(Run(parallelSlots, Forgotten(h)), now)
  {
    var one := [Placing(0.0, h, 1.0)];
    assert one[..0] == [] && Forgotten(h)[..1] == one;
    assert LatestRefresh(one) == LatestRefresh([]) == 0.0;
    var placed := Place(Init(parallelSlots), 0.0, h, 1.0);
    var p := Run(parallelSlots, Forgotten(h));
    assert Run(parallelSlots, one) == placed && p == Apply(Run(parallelSlots, Forgotten(h)[..1]), Refreshing(h));
    var e := (h, 1.0);
    assert placed.inflight == [] + [e];
    UnfinishedAppend([], e, h);
    SomeInUse(p.slots, NextJob(Init(parallelSlots), 0.0, h, 1.0).slot, now);
  }

  // In whatever order jobs are placed, the books agree at every time that no refresh has gone
  // past; and at an earlier time some run has them disagree.
  lemma BooksAgreeFromLatestRefresh(parallelSlots: nat, h: real, now: real)
    requires parallelSlots > 0 && h >= 0.0 && now >= 0.0
    ensures (forall events :: Lasting(events) && LatestRefresh(events) == h ==>
               BooksAgreeAt(Run(parallelSlots, events), now))
       <==> h <= now
  {
    if h <= now {
      forall events | Lasting(events) && LatestRefresh(events) == h
        ensures BooksAgreeAt(Run(parallelSlots, events), now)
      {
        RunSound(parallelSlots, events);
        BooksAgree(Run(parallelSlots, events), now);
      }
    } else {
      ForgottenSplits(parallelSlots, h, now);
    }
  }

  // ----- balance

  // One job that takes no time, at h, leaves one slot booked until then.
  lemma LateJobTilts(parallelSlots: nat, h: real, now: real)
    requires parallelSlots > 0 && 0.0 <= now < h
    ensures var events := [Placing(h, 0.0, 1.0)];
            var p := Run(parallelSlots, events);
            && Lasting(events) && PeakArrival(p.jobs) == h && !EvenAt(p, now)
            && (parallelSlots > 1 ==> !Balanced(p.slots, now, Longest(p.jobs)))
  {
    var events := [Placing(h, 0.0, 1.0)];
    assert events[..0] == [];
    var start := Init(parallelSlots);
    var p := Place(start, h, 0.0, 1.0);
    assert start.slots[0] == 0.0 && start.slots[Earliest(start.slots)] == 0.0;
    assert Run(parallelSlots, events) == p && p.jobs[..0] == [] && Earliest(start.slots) == 0;
    assert Longest(p.jobs) == 0.0 == Work(p.jobs);
    ResidualAtLeastBut(p.slots, now, 0.0, 0);
    NoTimes(parallelSlots - 1);
    if parallelSlots > 1 {
      assert Residual(p.slots[0], now) - Residual(p.slots[1], now) == h - now;
    }
  }

  lemma {:induction false} NoTimes(n: nat)
    ensures Times(n, 0.0) == 0.0
  {
    if n > 0 {
      NoTimes(n - 1);
    }
  }

  // In whatever order jobs are placed, every run whose latest job came at h has balanced slots
  // and no more outstanding than was placed, at every time from h on; and at an earlier time
  // some such run has not.  A single slot is always balanced with itself.
  lemma EvenFromLatestArrival(parallelSlots: nat, h: real, now: real)
    requires parallelSlots > 0 && h >= 0.0 && now >= 0.0
    ensures (forall events :: Lasting(events) && PeakArrival(Run(parallelSlots, events).jobs) == h ==>
               EvenAt(Run(parallelSlots, events), now))
       <==> h <= now
    ensures (forall events :: Lasting(events) && PeakArrival(Run(parallelSlots, events).jobs) == h ==>
               Balanced(Run(parallelSlots, events).slots, now, Longest(Run(parallelSlots, events).jobs)))
       <==> parallelSlots == 1 || h <= now
  {
    if h <= now {
      forall events | Lasting(events) && PeakArrival(Run(parallelSlots, events).jobs) == h
        ensures EvenAt(Run(parallelSlots, events), now)
      {
        RunEven(parallelSlots, events);
      }
    } else {
      LateJobTilts(parallelSlots, h, now);
    }
  }

  // ----- idling

  function Placements(arrivals: seq<real>, durations: seq<real>): (r: seq<Event>)
    requires |arrivals| == |durations|
    ensures |r| == |arrivals|
  {
    seq(|arrivals|, i requires 0 <= i < |arrivals| => Placing(arrivals[i], durations[i], 1.0))
  }

  // The pool after its first n placements.
  function After(parallelSlots: nat, arrivals: seq<real>, durations: seq<real>, n: nat): (p: Pool)
    requires parallelSlots > 0 && n <= |arrivals| == |durations|
    ensures |p.slots| == parallelSlots && |p.jobs| == n
  {
    if n == 0 then Init(parallelSlots)
    else Place(After(parallelSlots, arrivals, durations, n - 1), arrivals[n - 1], durations[n - 1], 1.0)
  }

  lemma RunOneMore(parallelSlots: nat, events: seq<Event>, n: nat)
    requires parallelSlots > 0 && 0 < n <= |events|
    ensures Run(parallelSlots, events[..n]) == Apply(Run(parallelSlots, events[..n - 1]), events[n - 1])
  {
    assert events[..n][..n - 1] == events[..n - 1];
  }

  lemma {:induction false} AfterIsRun(parallelSlots: nat, arrivals: seq<real>, durations: seq<real>, n: nat)
    requires parallelSlots > 0 && n <= |arrivals| == |durations|
    ensures After(parallelSlots, arrivals, durations, n) == Run(parallelSlots, Placements(arrivals, durations)[..n])
  {
    var all := Placements(arrivals, durations);
    if n > 0 {
      AfterIsRun(parallelSlots, arrivals, durations, n - 1);
      RunOneMore(parallelSlots, all, n);
    }
  }

  ghost predicate AllNonNegative(xs: seq<real>) {
    forall i :: 0 <= i < |xs| ==> xs[i] >= 0.0
  }

  // Once every slot has had its turn, no arrival lies before an earlier one.
  ghost predicate OrderedOnceFull(arrivals: seq<real>, parallelSlots: nat) {
    forall i, k :: 0 <= i < k < |arrivals| && k >= parallelSlots ==> arrivals[i] <= arrivals[k]
  }

  function Peak(xs: seq<real>): (r: real)
    ensures r >= 0.0 && forall i :: 0 <= i < |xs| ==> xs[i] <= r
  {
    if |xs| == 0 then 0.0 else Max(Peak(xs[..|xs| - 1]), xs[|xs| - 1])
  }

  lemma PeakNext(xs: seq<real>, n: nat)
    requires n < |xs|
    ensures Peak(xs[..n + 1]) == Max(Peak(xs[..n]), xs[n])
  {
    assert xs[..n + 1][..n] == xs[..n];
  }

  lemma {:induction false} AfterSound(parallelSlots: nat, arrivals: seq<real>, durations: seq<real>, n: nat)
    requires parallelSlots > 0 && n <= |arrivals| == |durations| && AllNonNegative(durations)
    ensures Sound(After(parallelSlots, arrivals, durations, n))
  {
    if n > 0 {
      AfterSound(parallelSlots, arrivals, durations, n - 1);
      PlaceKeepsSound(After(parallelSlots, arrivals, durations, n - 1), arrivals[n - 1], durations[n - 1], 1.0);
    }
  }

  lemma {:induction false} AfterBooked(parallelSlots: nat, arrivals: seq<real>, durations: seq<real>, n: nat)
    requires parallelSlots > 0 && n <= |arrivals| == |durations| && AllNonNegative(durations)
    ensures BookedSolid(After(parallelSlots, arrivals, durations, n), Peak(arrivals[..n]))
  {
    if n > 0 {
      AfterBooked(parallelSlots, arrivals, durations, n - 1);
      var p := After(parallelSlots, arrivals, durations, n - 1);
      PlaceKeepsBookedSolid(p, Peak(arrivals[..n - 1]), arrivals[n - 1], durations[n - 1], 1.0);
      PeakNext(arrivals, n - 1);
    }
  }

  // A job that comes while there have been fewer jobs than slots does not wait.
  lemma SpareSlotNoWait(p: Pool, now: real, duration: real)
    requires Sound(p) && |p.jobs| < |p.slots| && now >= 0.0
    ensures NextJob(p, now, duration, 1.0).start == now
  {
    SlotsCountJobs(p, now);
    AllBusy(p.slots, now);
    var free :| 0 <= free < |p.slots| && p.slots[free] <= now;
  }

  lemma PromptJobKeepsNoIdling(p: Pool, now: real, duration: real)
    requires |p.slots| > 0 && NoIdling(p.jobs, |p.slots|) && NextJob(p, now, duration, 1.0).start == now
    ensures NoIdling(Place(p, now, duration, 1.0).jobs, |p.slots|)
  {
    var jobs := Place(p, now, duration, 1.0).jobs;
    forall k, s, t | 0 <= k < |jobs| && 0 <= s < |p.slots| && jobs[k].arrival <= t < jobs[k].start
      ensures BusyAt(jobs, s, t)
    {
      assert jobs[k] == p.jobs[k];
      BusyExtends(p.jobs, NextJob(p, now, duration, 1.0), s, t);
    }
  }

  lemma {:induction false} OrderedNoIdling(parallelSlots: nat, arrivals: seq<real>, durations: seq<real>, n: nat)
    requires parallelSlots > 0 && n <= |arrivals| == |durations|
    requires AllNonNegative(arrivals) && AllNonNegative(durations) && OrderedOnceFull(arrivals, parallelSlots)
    ensures NoIdling(After(parallelSlots, arrivals, durations, n).jobs, parallelSlots)
  {
    if n > 0 {
      OrderedNoIdling(parallelSlots, arrivals, durations, n - 1);
      AfterSound(parallelSlots, arrivals, durations, n - 1);
      var p, now := After(parallelSlots, arrivals, durations, n - 1), arrivals[n - 1];
      if n - 1 < parallelSlots {
        SpareSlotNoWait(p, now, durations[n - 1]);
        PromptJobKeepsNoIdling(p, now, durations[n - 1]);
      } else {
        OrderedJobKeepsNoIdling(parallelSlots, arrivals, durations, n - 1);
      }
    }
  }

  lemma OrderedJobKeepsNoIdling(parallelSlots: nat, arrivals: seq<real>, durations: seq<real>, n: nat)
    requires 0 < parallelSlots <= n < |arrivals| == |durations|
    requires AllNonNegative(arrivals) && AllNonNegative(durations) && OrderedOnceFull(arrivals, parallelSlots)
    requires NoIdling(After(parallelSlots, arrivals, durations, n).jobs, parallelSlots)
    ensures NoIdling(After(parallelSlots, arrivals, durations, n + 1).jobs, parallelSlots)
  {
    PeakBelow(arrivals[..n], arrivals[n]);
    AfterBooked(parallelSlots, arrivals, durations, n);
    var p := After(parallelSlots, arrivals, durations, n);
    PlaceKeepsNoIdling(p, Peak(arrivals[..n]), arrivals[n], durations[n], 1.0);
  }

  lemma {:induction false} PeakBelow(xs: seq<real>, top: real)
    requires top >= 0.0 && forall i :: 0 <= i < |xs| ==> xs[i] <= top
    ensures Peak(xs) <= top
  {
    if |xs| > 0 {
      PeakBelow(xs[..|xs| - 1], top);
    }
  }

  // ----- a run that idles

  // One long job on every slot but one; every other job takes no time.
  function Blocking(arrivals: seq<real>, parallelSlots: nat, spared: nat): (d: seq<real>)
    ensures |d| == |arrivals|
    ensures forall k :: 0 <= k < |d| && (k >= parallelSlots || k == spared) ==> d[k] == 0.0
    ensures forall k :: 0 <= k < |d| && k < parallelSlots && k != spared ==> d[k] > Peak(arrivals)
  {
    seq(|arrivals|, k => if k < parallelSlots && k != spared then Peak(arrivals) + 1.0 else 0.0)
  }

  lemma BlockingEndsLate(arrivals: seq<real>, parallelSlots: nat, spared: nat, k: nat)
    requires k < |arrivals| && k < parallelSlots && arrivals[k] >= 0.0 && (k == spared ==> arrivals[k] > 0.0)
    ensures arrivals[k] + Blocking(arrivals, parallelSlots, spared)[k] > 0.0
  {
  }

  // The first n jobs have taken the first n slots, each at its arrival; no other is in use.
  ghost predicate OneEach(p: Pool, arrivals: seq<real>, durations: seq<real>, n: nat)
    requires n <= |p.slots| && n == |p.jobs| && n <= |arrivals| == |durations|
  {
    && (forall k :: 0 <= k < n ==> p.jobs[k] == Job(k, arrivals[k], arrivals[k], arrivals[k] + durations[k], 1.0))
    && (forall k :: 0 <= k < n ==> p.slots[k] == arrivals[k] + durations[k])
    && (forall s :: n <= s < |p.slots| ==> p.slots[s] == 0.0)
  }

  lemma OneMore(p: Pool, arrivals: seq<real>, durations: seq<real>, n: nat)
    requires n < |p.slots| && n == |p.jobs| && n < |arrivals| == |durations| && OneEach(p, arrivals, durations, n)
    requires arrivals[n] >= 0.0 && forall k :: 0 <= k < n ==> arrivals[k] + durations[k] > 0.0
    ensures OneEach(Place(p, arrivals[n], durations[n], 1.0), arrivals, durations, n + 1)
  {
    assert p.slots[n] == 0.0;
    assert Earliest(p.slots) == n;
  }

  lemma {:induction false} FirstJobs(parallelSlots: nat, arrivals: seq<real>, durations: seq<real>, n: nat)
    requires parallelSlots > 0 && n <= parallelSlots && n <= |arrivals| == |durations| && AllNonNegative(arrivals)
    requires forall k :: 0 <= k < n - 1 ==> arrivals[k] + durations[k] > 0.0
    ensures OneEach(After(parallelSlots, arrivals, durations, n), arrivals, durations, n)
  {
    if n > 0 {
      FirstJobs(parallelSlots, arrivals, durations, n - 1);
      var p := After(parallelSlots, arrivals, durations, n - 1);
      OneMore(p, arrivals, durations, n - 1);
      assert After(parallelSlots, arrivals, durations, n) == Place(p, arrivals[n - 1], durations[n - 1], 1.0);
    }
  }

  // The spared slot has had every later job, so it is booked past the arrivals of all of them,
  // and it is still the first to become free.
  ghost predicate SparedFirst(p: Pool, arrivals: seq<real>, parallelSlots: nat, spared: nat, n: nat)
    requires spared < parallelSlots == |p.slots| && parallelSlots <= n <= |arrivals|
  {
    && (forall s :: 0 <= s < parallelSlots && s != spared ==> p.slots[s] > Peak(arrivals))
    && arrivals[spared] <= p.slots[spared] <= Peak(arrivals)
    && (forall i :: parallelSlots <= i < n ==> arrivals[i] <= p.slots[spared])
  }

  // No job on the spared slot takes any time, and no later one starts before the arrivals that
  // were already there.
  ghost predicate Queued(jobs: seq<Job>, arrivals: seq<real>, parallelSlots: nat, spared: nat)
    requires spared < parallelSlots <= |jobs| <= |arrivals|
  {
    && (forall k :: 0 <= k < |jobs| && jobs[k].slot == spared ==> jobs[k].start == jobs[k].finish)
    && (forall k :: parallelSlots <= k < |jobs| ==> jobs[k].start >= arrivals[spared] && jobs[k].arrival == arrivals[k])
    && (forall i, k :: parallelSlots <= i < k < |jobs| ==> jobs[k].start >= arrivals[i])
  }

  lemma SparedStep(p: Pool, arrivals: seq<real>, parallelSlots: nat, spared: nat, n: nat)
    requires spared < parallelSlots == |p.slots| && parallelSlots <= n == |p.jobs| < |arrivals|
    requires SparedFirst(p, arrivals, parallelSlots, spared, n) && Queued(p.jobs, arrivals, parallelSlots, spared)
    ensures var q := Place(p, arrivals[n], 0.0, 1.0);
            SparedFirst(q, arrivals, parallelSlots, spared, n + 1) && Queued(q.jobs, arrivals, parallelSlots, spared)
  {
    assert Earliest(p.slots) == spared;
    var j := NextJob(p, arrivals[n], 0.0, 1.0);
    assert j.start == j.finish == Max(arrivals[n], p.slots[spared]);
  }

  lemma OneEachSpares(p: Pool, arrivals: seq<real>, parallelSlots: nat, spared: nat)
    requires spared < parallelSlots == |p.slots| && parallelSlots == |p.jobs| <= |arrivals| && AllNonNegative(arrivals)
    requires OneEach(p, arrivals, Blocking(arrivals, parallelSlots, spared), parallelSlots)
    ensures SparedFirst(p, arrivals, parallelSlots, spared, parallelSlots) && Queued(p.jobs, arrivals, parallelSlots, spared)
  {
  }

  lemma FullHouse(parallelSlots: nat, arrivals: seq<real>, spared: nat)
    requires spared < parallelSlots <= |arrivals| && AllNonNegative(arrivals)
    requires spared < parallelSlots - 1 ==> arrivals[spared] > 0.0
    ensures var p := After(parallelSlots, arrivals, Blocking(arrivals, parallelSlots, spared), parallelSlots);
            SparedFirst(p, arrivals, parallelSlots, spared, parallelSlots) && Queued(p.jobs, arrivals, parallelSlots, spared)
  {
    var d := Blocking(arrivals, parallelSlots, spared);
    forall k | 0 <= k < parallelSlots - 1 ensures arrivals[k] + d[k] > 0.0 {
      BlockingEndsLate(arrivals, parallelSlots, spared, k);
    }
    FirstJobs(parallelSlots, arrivals, d, parallelSlots);
    OneEachSpares(After(parallelSlots, arrivals, d, parallelSlots), arrivals, parallelSlots, spared);
  }

  lemma {:induction false} LaterJobsQueue(parallelSlots: nat, arrivals: seq<real>, spared: nat, n: nat)
    requires spared < parallelSlots <= n <= |arrivals| && AllNonNegative(arrivals)
    requires spared < parallelSlots - 1 ==> arrivals[spared] > 0.0
    ensures var p := After(parallelSlots, arrivals, Blocking(arrivals, parallelSlots, spared), n);
            SparedFirst(p, arrivals, parallelSlots, spared, n) && Queued(p.jobs, arrivals, parallelSlots, spared)
  {
    if n == parallelSlots {
      FullHouse(parallelSlots, arrivals, spared);
    } else {
      LaterJobsQueue(parallelSlots, arrivals, spared, n - 1);
      SparedStep(After(parallelSlots, arrivals, Blocking(arrivals, parallelSlots, spared), n - 1),
                 arrivals, parallelSlots, spared, n - 1);
    }
  }

  lemma DisorderIdles(parallelSlots: nat, arrivals: seq<real>, i: nat, k: nat)
    requires parallelSlots > 0 && AllNonNegative(arrivals)
    requires i < k < |arrivals| && k >= parallelSlots && arrivals[i] > arrivals[k]
    ensures var d := Blocking(arrivals, parallelSlots, if i < parallelSlots then i else parallelSlots - 1);
            AllNonNegative(d) && !NoIdling(After(parallelSlots, arrivals, d, |arrivals|).jobs, parallelSlots)
  {
    var spared := if i < parallelSlots then i else parallelSlots - 1;
    var jobs := After(parallelSlots, arrivals, Blocking(arrivals, parallelSlots, spared), |arrivals|).jobs;
    LaterJobsQueue(parallelSlots, arrivals, spared, |arrivals|);
    assert jobs[k].arrival == arrivals[k] < arrivals[i] <= jobs[k].start;
    assert !BusyAt(jobs, spared, arrivals[k]);
  }

  // Whatever the jobs' durations, no slot idles while a job waits, if and only if the arrivals
  // are in order from the first one that can find every slot taken.  Refreshes, which touch
  // neither slots nor history, do not matter here.
  lemma NoIdlingIffOrdered(parallelSlots: nat, arrivals: seq<real>)
    requires parallelSlots > 0 && AllNonNegative(arrivals)
    ensures (forall d: seq<real> :: |d| == |arrivals| && AllNonNegative(d) ==>
               NoIdling(Run(parallelSlots, Placements(arrivals, d)).jobs, parallelSlots))
       <==> OrderedOnceFull(arrivals, parallelSlots)
  {
    var n := |arrivals|;
    forall d: seq<real> | |d| == n
      ensures Run(parallelSlots, Placements(arrivals, d)) == After(parallelSlots, arrivals, d, n)
    {
      AfterIsRun(parallelSlots, arrivals, d, n);
      assert Placements(arrivals, d)[..n] == Placements(arrivals, d);
    }
    if OrderedOnceFull(arrivals, parallelSlots) {
      forall d: seq<real> | |d| == n && AllNonNegative(d)
        ensures NoIdling(Run(parallelSlots, Placements(arrivals, d)).jobs, parallelSlots)
      {
        OrderedNoIdling(parallelSlots, arrivals, d, n);
      }
    } else {
      var i, k :| 0 <= i < k < n && k >= parallelSlots && arrivals[i] > arrivals[k];
      DisorderIdles(parallelSlots, arrivals, i, k);
    }
  }
}
