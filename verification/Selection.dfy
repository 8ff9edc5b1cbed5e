// Choosing among candidate placements: the heuristic policies and the two native selectors.
module Selection {
  import opened Numbers
  import opened Requests
  import opened Backends

  datatype Reason = ClusterUnavailable | UnsupportedModel | QueueLimit | MemoryPressure

  datatype Availability = Available | Rejected(reason: Reason)

  datatype Candidate = Candidate(
    clusterId: string, poolId: string, backend: Backend,
    queueDelayMs: real, prefillMs: real, decodeMs: real,
    hitRatio: real, savedTokens: nat, affinity: real, networkCost: real, congestion: real,
    headroomGb: real, costPer1M: real, fairness: real, premium: bool, status: Availability,
    cacheBonus: real, topologyPenalty: real, loadPenalty: real)

  function TotalLatencyMs(c: Candidate): real {
    c.queueDelayMs + c.prefillMs + c.decodeMs
  }

  ghost predicate AnyAvailable(cs: seq<Candidate>) {
    exists i :: 0 <= i < |cs| && cs[i].status.Available?
  }

  // ----- the heuristic policies: filter, then least key

  function OnlyAvailable(cs: seq<Candidate>): seq<Candidate> {
    if |cs| == 0 then []
    else
      var c := cs[|cs| - 1];
      OnlyAvailable(cs[..|cs| - 1]) + (if c.status.Available? then [c] else [])
  }

  function Usable(cs: seq<Candidate>): (r: seq<Candidate>)
    ensures |cs| > 0 ==> |r| > 0
  {
    var usable := OnlyAvailable(cs);
    if |usable| > 0 then usable else cs
  }

  lemma {:induction false} OnlyAvailableIs(cs: seq<Candidate>)
    ensures forall c :: c in OnlyAvailable(cs) <==> c in cs && c.status.Available?
    ensures |OnlyAvailable(cs)| > 0 ==> AnyAvailable(cs)
  {
    if |cs| > 0 {
      OnlyAvailableIs(cs[..|cs| - 1]);
      assert cs == cs[..|cs| - 1] + [cs[|cs| - 1]];
    }
  }

  // Python compares key tuples left to right.
  predicate KeyLt(a: seq<real>, b: seq<real>)
    requires |a| == |b|
  {
    |a| > 0 && (a[0] < b[0] || (a[0] == b[0] && KeyLt(a[1..], b[1..])))
  }

  lemma {:induction false} KeyLtTransitive(a: seq<real>, b: seq<real>, c: seq<real>)
    requires |a| == |b| == |c| && !KeyLt(b, a) && KeyLt(c, a)
    ensures KeyLt(c, b)
  {
    if |a| > 0 && a[0] == b[0] == c[0] {
      KeyLtTransitive(a[1..], b[1..], c[1..]);
    }
  }

  // min(usable, key=...): the first candidate with the least key.
  function LeastAt(cs: seq<Candidate>, key: Candidate -> seq<real>, width: nat): (k: nat)
    requires |cs| > 0 && forall c :: |key(c)| == width
    ensures k < |cs|
  {
    if |cs| == 1 then 0
    else
      var k := LeastAt(cs[..|cs| - 1], key, width);
      if KeyLt(key(cs[|cs| - 1]), key(cs[k])) then |cs| - 1 else k
  }

  ghost predicate FirstLeast(cs: seq<Candidate>, key: Candidate -> seq<real>, width: nat, k: nat)
    requires forall c :: |key(c)| == width
  {
    && k < |cs|
    && (forall j :: 0 <= j < |cs| ==> !KeyLt(key(cs[j]), key(cs[k])))
    && (forall j :: 0 <= j < k ==> KeyLt(key(cs[k]), key(cs[j])))
  }

  lemma {:induction false} KeyLtIrreflexive(a: seq<real>)
    ensures !KeyLt(a, a)
  {
    if |a| > 0 {
      KeyLtIrreflexive(a[1..]);
    }
  }

  lemma {:induction false} LeastAtIsFirst(cs: seq<Candidate>, key: Candidate -> seq<real>, width: nat)
    requires |cs| > 0 && forall c :: |key(c)| == width
    ensures FirstLeast(cs, key, width, LeastAt(cs, key, width))
  {
    var n := |cs| - 1;
    KeyLtIrreflexive(key(cs[n]));
    if n > 0 {
      LeastAtIsFirst(cs[..n], key, width);
      var k := LeastAt(cs[..n], key, width);
      if KeyLt(key(cs[n]), key(cs[k])) {
        forall j | 0 <= j < n ensures KeyLt(key(cs[n]), key(cs[j])) && !KeyLt(key(cs[j]), key(cs[n])) {
          assert cs[..n][j] == cs[j];
          KeyLtTransitive(key(cs[k]), key(cs[j]), key(cs[n]));
          KeyLtAsymmetric(key(cs[n]), key(cs[j]));
        }
      } else {
        forall j | 0 <= j < n ensures cs[..n][j] == cs[j] {
        }
      }
    }
  }

  lemma {:induction false} KeyLtAsymmetric(a: seq<real>, b: seq<real>)
    requires |a| == |b| && KeyLt(a, b)
    ensures !KeyLt(b, a)
  {
    if a[0] == b[0] {
      KeyLtAsymmetric(a[1..], b[1..]);
    }
  }

  datatype Policy = LeastQueue | TopologyGreedy | CacheAware | MultiObjective

  function Width(p: Policy): nat {
    match p case LeastQueue => 3 case TopologyGreedy => 1 case CacheAware => 4 case MultiObjective => 1
  }

  function PremiumPenalty(sla: SlaClass, premium: bool): real {
    if sla.BestEffort? && premium then 70.0 else if sla.Realtime? && !premium then 25.0 else 0.0
  }

  function Objective(sla: SlaClass, c: Candidate): real {
    var latencyWeight := match sla case Realtime => 1.4 case Interactive => 1.1 case BestEffort => 0.75;
    var costWeight := if sla.Realtime? then 0.25 else 0.55;
    TotalLatencyMs(c) * latencyWeight + c.networkCost * 18.0 + c.costPer1M * costWeight + c.congestion * 90.0
    - c.hitRatio * 450.0 - c.affinity * 85.0 + c.fairness * 110.0
    - c.cacheBonus * 70.0 + c.topologyPenalty * 65.0 + c.loadPenalty * 55.0 + PremiumPenalty(sla, c.premium)
  }

  function PolicyKey(p: Policy, sla: SlaClass, c: Candidate): (k: seq<real>)
    ensures |k| == Width(p)
  {
    match p
    case LeastQueue => [c.queueDelayMs, c.networkCost, c.costPer1M]
    case TopologyGreedy => [c.queueDelayMs + c.networkCost * 14.0 - c.affinity * 110.0 + c.congestion * 80.0]
    case CacheAware => [-(c.hitRatio * 1000.0), c.queueDelayMs, c.networkCost, c.costPer1M]
    case MultiObjective => [Objective(sla, c)]
  }

  function Choose(p: Policy, sla: SlaClass, cs: seq<Candidate>): Candidate
    requires |cs| > 0
  {
    Usable(cs)[LeastAt(Usable(cs), (c: Candidate) => PolicyKey(p, sla, c), Width(p))]
  }

  // Anything picked from the usable candidates is available if and only if some candidate is.
  lemma UsableAdmits(cs: seq<Candidate>, k: nat)
    requires k < |Usable(cs)|
    ensures Usable(cs)[k] in cs
    ensures Usable(cs)[k].status.Available? <==> AnyAvailable(cs)
  {
    OnlyAvailableIs(cs);
    var c := Usable(cs)[k];
    if i :| 0 <= i < |cs| && cs[i].status.Available? {
      assert cs[i] in OnlyAvailable(cs);
    }
  }

  // Each stateless policy picks the first candidate of least key among the usable ones.
  lemma ChooseIsLeast(p: Policy, sla: SlaClass, cs: seq<Candidate>)
    requires |cs| > 0
    ensures var c := Choose(p, sla, cs);
            && c in cs && (c.status.Available? <==> AnyAvailable(cs))
            && forall d :: d in cs && (d.status.Available? || !AnyAvailable(cs)) ==> !KeyLt(PolicyKey(p, sla, d), PolicyKey(p, sla, c))
  {
    var key := (c: Candidate) => PolicyKey(p, sla, c);
    var k := LeastAt(Usable(cs), key, Width(p));
    UsableAdmits(cs, k);
    LeastAtIsFirst(Usable(cs), key, Width(p));
    OnlyAvailableIs(cs);
    forall d | d in cs && (d.status.Available? || !AnyAvailable(cs))
      ensures !KeyLt(PolicyKey(p, sla, d), PolicyKey(p, sla, Usable(cs)[k]))
    {
      if d.status.Available? {
        assert d in OnlyAvailable(cs);
      } else {
        UsableAdmits(cs, 0);
        assert Usable(cs) == cs;
      }
      var j :| 0 <= j < |Usable(cs)| && Usable(cs)[j] == d;
      assert !KeyLt(key(Usable(cs)[j]), key(Usable(cs)[k]));
    }
  }

  // ----- the native selectors

  // The C++ score and the gRPC score differ in two weights.
  datatype Weights = Weights(fairness: real, affinity: real)

  const CPP_WEIGHTS := Weights(120.0, 90.0)
  const GRPC_WEIGHTS := Weights(110.0, 85.0)

  function LatencyWeight(sla: SlaClass): (w: real)
    ensures w > 0.0
  {
    match sla case Realtime => 1.5 case Interactive => 1.1 case BestEffort => 0.8
  }

  function NativeScore(w: Weights, sla: SlaClass, c: Candidate): real {
    var costWeight := if sla.Realtime? then 0.2 else 0.6;
    TotalLatencyMs(c) * LatencyWeight(sla) + c.queueDelayMs * 0.1 + c.networkCost * 18.0 + c.costPer1M * costWeight
    + c.fairness * w.fairness - c.hitRatio * 450.0 - c.affinity * w.affinity
  }

  // The lowest index of the least value among the shown positions before n, or -1.
  function LeastShown(value: seq<real>, shown: seq<bool>, n: nat): (r: int)
    requires n <= |value| == |shown|
    ensures -1 <= r < n
  {
    if n == 0 then -1
    else
      var r := LeastShown(value, shown, n - 1);
      if shown[n - 1] && (r < 0 || value[n - 1] < value[r]) then n - 1 else r
  }

  // What that means, without a loop.
  ghost predicate LowestLeast(value: seq<real>, shown: seq<bool>, n: nat, r: int)
    requires n <= |value| == |shown|
  {
    && 0 <= r < n && shown[r]
    && (forall j :: 0 <= j < n && shown[j] ==> value[r] <= value[j])
    && (forall j :: 0 <= j < r && shown[j] ==> value[r] < value[j])
  }

  lemma {:induction false} LeastShownIsLowest(value: seq<real>, shown: seq<bool>, n: nat)
    requires n <= |value| == |shown|
    ensures var r := LeastShown(value, shown, n);
            if r < 0 then forall j :: 0 <= j < n ==> !shown[j] else LowestLeast(value, shown, n, r)
  {
    if n > 0 {
      LeastShownIsLowest(value, shown, n - 1);
    }
  }

  function Scores(w: Weights, sla: SlaClass, cs: seq<Candidate>): seq<real> {
    seq(|cs|, i requires 0 <= i < |cs| => NativeScore(w, sla, cs[i]))
  }

  function TotalLatencies(cs: seq<Candidate>): seq<real> {
    seq(|cs|, i requires 0 <= i < |cs| => TotalLatencyMs(cs[i]))
  }

  function Shown(cs: seq<Candidate>): seq<bool> {
    seq(|cs|, i requires 0 <= i < |cs| => cs[i].status.Available?)
  }

  function AllOf(cs: seq<Candidate>): seq<bool> {
    seq(|cs|, i => true)
  }

  function BestScored(w: Weights, sla: SlaClass, cs: seq<Candidate>): (r: int)
    ensures -1 <= r < |cs|
  {
    LeastShown(Scores(w, sla, cs), Shown(cs), |cs|)
  }

  // The two selectors fall back differently when no candidate is available.
  function CppIndex(sla: SlaClass, cs: seq<Candidate>): int {
    var r := BestScored(CPP_WEIGHTS, sla, cs);
    if r >= 0 then r else LeastShown(TotalLatencies(cs), AllOf(cs), |cs|)
  }

  function GrpcIndex(sla: SlaClass, cs: seq<Candidate>): int {
    var r := BestScored(GRPC_WEIGHTS, sla, cs);
    if r >= 0 then r else if |cs| > 0 then 0 else -1
  }

  lemma BestScoredIs(w: Weights, sla: SlaClass, cs: seq<Candidate>)
    ensures AnyAvailable(cs) <==> BestScored(w, sla, cs) >= 0
    ensures AnyAvailable(cs) ==> LowestLeast(Scores(w, sla, cs), Shown(cs), |cs|, BestScored(w, sla, cs))
  {
    LeastShownIsLowest(Scores(w, sla, cs), Shown(cs), |cs|);
    if i :| 0 <= i < |cs| && cs[i].status.Available? {
      assert Shown(cs)[i];
    }
  }

  /** The C++ selector: least score among the available, else least latency among all. */
  method ChooseCpp(sla: SlaClass, cs: seq<Candidate>) returns (r: int)
    ensures r == CppIndex(sla, cs)
    ensures |cs| == 0 ==> r == -1
    ensures AnyAvailable(cs) ==> LowestLeast(Scores(CPP_WEIGHTS, sla, cs), Shown(cs), |cs|, r)
    ensures |cs| > 0 && !AnyAvailable(cs) ==> LowestLeast(TotalLatencies(cs), AllOf(cs), |cs|, r)
  {
    if |cs| == 0 {
      return -1;
    }
    BestScoredIs(CPP_WEIGHTS, sla, cs);
    var best := -1;
    var bestScore := 0.0;  // read only once best is set: the program starts from infinity
    for i := 0 to |cs|
      invariant best == LeastShown(Scores(CPP_WEIGHTS, sla, cs), Shown(cs), i)
      invariant best >= 0 ==> bestScore == Scores(CPP_WEIGHTS, sla, cs)[best]
    {
      if !cs[i].status.Available? {
        continue;
      }
      var score := NativeScore(CPP_WEIGHTS, sla, cs[i]);
      if best < 0 || score < bestScore {
        best, bestScore := i, score;
      }
    }
    if best >= 0 {
      return best;
    }
    LeastShownIsLowest(TotalLatencies(cs), AllOf(cs), |cs|);
    assert AllOf(cs)[0];
    best := 0;
    bestScore := TotalLatencyMs(cs[0]);
    for i := 1 to |cs|
      invariant best == LeastShown(TotalLatencies(cs), AllOf(cs), i) && 0 <= best
      invariant bestScore == TotalLatencies(cs)[best]
    {
      if TotalLatencyMs(cs[i]) < bestScore {
        best, bestScore := i, TotalLatencyMs(cs[i]);
      }
    }
    return best;
  }

  /** The gRPC selector: least score among the available, else the first candidate. */
  method ChooseGrpc(sla: SlaClass, cs: seq<Candidate>) returns (r: int)
    ensures r == GrpcIndex(sla, cs)
    ensures |cs| == 0 ==> r == -1
    ensures AnyAvailable(cs) ==> LowestLeast(Scores(GRPC_WEIGHTS, sla, cs), Shown(cs), |cs|, r)
    ensures |cs| > 0 && !AnyAvailable(cs) ==> r == 0
  {
    if |cs| == 0 {
      return -1;
    }
    BestScoredIs(GRPC_WEIGHTS, sla, cs);
    var best := 0;
    var bestScore := 0.0;
    var found := false;  // the program starts from an infinite score instead
    for i := 0 to |cs|
      invariant !found ==> best == 0 && LeastShown(Scores(GRPC_WEIGHTS, sla, cs), Shown(cs), i) < 0
      invariant found ==> 0 <= best == LeastShown(Scores(GRPC_WEIGHTS, sla, cs), Shown(cs), i)
      invariant found ==> bestScore == Scores(GRPC_WEIGHTS, sla, cs)[best]
    {
      if !cs[i].status.Available? {
        continue;
      }
      var score := NativeScore(GRPC_WEIGHTS, sla, cs[i]);
      if !found || score < bestScore {
        best, bestScore, found := i, score, true;
      }
    }
    return best;
  }

  // A chooser admits whenever anyone could: its pick is available if any candidate is.
  ghost predicate Admitting(cs: seq<Candidate>, k: int) {
    0 <= k < |cs| && (cs[k].status.Available? <==> AnyAvailable(cs))
  }

  // Both selectors do, on every list that is not empty.
  lemma NativesAdmit(sla: SlaClass, cs: seq<Candidate>)
    requires |cs| > 0
    ensures Admitting(cs, CppIndex(sla, cs)) && Admitting(cs, GrpcIndex(sla, cs))
  {
    BestScoredIs(CPP_WEIGHTS, sla, cs);
    BestScoredIs(GRPC_WEIGHTS, sla, cs);
    LeastShownIsLowest(TotalLatencies(cs), AllOf(cs), |cs|);
    assert AllOf(cs)[0];
    if AnyAvailable(cs) {
      assert Shown(cs)[CppIndex(sla, cs)] && Shown(cs)[GrpcIndex(sla, cs)];
    }
  }

  // ----- when the two selectors agree

  ghost predicate EqualFairness(cs: seq<Candidate>) {
    forall i, j :: 0 <= i < |cs| && 0 <= j < |cs| ==> cs[i].fairness == cs[j].fairness
  }

  ghost predicate OneAffinity(cs: seq<Candidate>) {
    forall i, j :: 0 <= i < |cs| && 0 <= j < |cs| && cs[i].status.Available? && cs[j].status.Available? ==>
      cs[i].affinity == cs[j].affinity
  }

  // The same candidates are available, with the same affinities; all else may differ.
  ghost predicate SameOutlook(cs: seq<Candidate>, ds: seq<Candidate>) {
    |cs| == |ds| && forall i :: 0 <= i < |cs| ==> ds[i].status == cs[i].status && ds[i].affinity == cs[i].affinity
  }

  // Adding one number to every shown value changes no choice.
  lemma {:induction false} ShiftedLeast(a: seq<real>, b: seq<real>, shown: seq<bool>, n: nat, shift: real)
    requires n <= |a| == |b| == |shown|
    requires forall i :: 0 <= i < n && shown[i] ==> b[i] == a[i] + shift
    ensures LeastShown(a, shown, n) == LeastShown(b, shown, n)
    ensures var r := LeastShown(a, shown, n); r >= 0 ==> shown[r]
  {
    if n > 0 {
      ShiftedLeast(a, b, shown, n - 1, shift);
    }
  }

  lemma WeightsShift(sla: SlaClass, c: Candidate)
    ensures NativeScore(CPP_WEIGHTS, sla, c) == NativeScore(GRPC_WEIGHTS, sla, c) + (10.0 * c.fairness - 5.0 * c.affinity)
  {
  }

  lemma OneAffinityAgrees(sla: SlaClass, cs: seq<Candidate>)
    requires EqualFairness(cs) && AnyAvailable(cs) && OneAffinity(cs)
    ensures GrpcIndex(sla, cs) == CppIndex(sla, cs)
  {
    var k :| 0 <= k < |cs| && cs[k].status.Available?;
    forall i | 0 <= i < |cs| && Shown(cs)[i]
      ensures Scores(CPP_WEIGHTS, sla, cs)[i]
           == Scores(GRPC_WEIGHTS, sla, cs)[i] + (10.0 * cs[k].fairness - 5.0 * cs[k].affinity)
    {
      WeightsShift(sla, cs[i]);
      assert cs[i].affinity == cs[k].affinity && cs[i].fairness == cs[k].fairness;
    }
    ShiftedLeast(Scores(GRPC_WEIGHTS, sla, cs), Scores(CPP_WEIGHTS, sla, cs), Shown(cs), |cs|,
                 10.0 * cs[k].fairness - 5.0 * cs[k].affinity);
    BestScoredIs(CPP_WEIGHTS, sla, cs);
  }

  lemma StrictWinner(value: seq<real>, shown: seq<bool>, k: nat)
    requires k < |value| == |shown| && shown[k]
    requires forall i :: 0 <= i < |value| && shown[i] && i != k ==> value[k] < value[i]
    ensures LeastShown(value, shown, |value|) == k
  {
    LeastShownIsLowest(value, shown, |value|);
  }

  function Magnitude(x: real): real {
    if x < 0.0 then -x else x
  }

  // A candidate that differs from the next only in status, affinity and prefill time.
  function Bare(status: Availability, affinity: real, prefillMs: real): Candidate {
    Candidate("c", "p", Mock, 0.0, prefillMs, 0.0, 0.0, 0, affinity, 0.0, 0.0, 0.0, 0.0, 0.0, false, status, 0.0, 0.0, 0.0)
  }

  lemma BareScore(sla: SlaClass, status: Availability, affinity: real, x: real)
    ensures var c := Bare(status, affinity, x / LatencyWeight(sla));
            && NativeScore(CPP_WEIGHTS, sla, c) == x - 90.0 * affinity
            && NativeScore(GRPC_WEIGHTS, sla, c) == x - 85.0 * affinity
  {
  }

  // Latencies that set the two selectors at odds over candidates `low` and `high`: the greater
  // affinity of `high` is worth its extra latency to one selector and not to the other.
  function Handicap(cs: seq<Candidate>, low: nat, high: nat, k: nat): real
    requires low < |cs| && high < |cs| && k < |cs|
  {
    if k == low then 0.0
    else if k == high then 87.5 * (cs[high].affinity - cs[low].affinity)
    else 200.0 * (Magnitude(cs[k].affinity) + Magnitude(cs[low].affinity) + Magnitude(cs[high].affinity)) + 1.0
  }

  function AtOdds(sla: SlaClass, cs: seq<Candidate>, low: nat, high: nat): seq<Candidate>
    requires low < |cs| && high < |cs|
  {
    seq(|cs|, k requires 0 <= k < |cs| =>
      Bare(cs[k].status, cs[k].affinity, Handicap(cs, low, high, k) / LatencyWeight(sla)))
  }

  lemma HandicapDecides(cs: seq<Candidate>, low: nat, high: nat, k: nat)
    requires low < |cs| && high < |cs| && k < |cs| && cs[low].affinity < cs[high].affinity
    ensures k != high ==>
              Handicap(cs, low, high, high) - 90.0 * cs[high].affinity < Handicap(cs, low, high, k) - 90.0 * cs[k].affinity
    ensures k != low ==>
              Handicap(cs, low, high, low) - 85.0 * cs[low].affinity < Handicap(cs, low, high, k) - 85.0 * cs[k].affinity
  {
  }

  lemma AtOddsScores(sla: SlaClass, cs: seq<Candidate>, low: nat, high: nat, k: nat)
    requires low < |cs| && high < |cs| && k < |cs|
    ensures var ds := AtOdds(sla, cs, low, high);
            && Scores(CPP_WEIGHTS, sla, ds)[k] == Handicap(cs, low, high, k) - 90.0 * cs[k].affinity
            && Scores(GRPC_WEIGHTS, sla, ds)[k] == Handicap(cs, low, high, k) - 85.0 * cs[k].affinity
  {
    BareScore(sla, cs[k].status, cs[k].affinity, Handicap(cs, low, high, k));
  }

  lemma AtOddsOrder(sla: SlaClass, cs: seq<Candidate>, low: nat, high: nat, k: nat)
    requires low < |cs| && high < |cs| && k < |cs| && cs[low].affinity < cs[high].affinity
    ensures var cpp, grpc := Scores(CPP_WEIGHTS, sla, AtOdds(sla, cs, low, high)),
                             Scores(GRPC_WEIGHTS, sla, AtOdds(sla, cs, low, high));
            (k != high ==> cpp[high] < cpp[k]) && (k != low ==> grpc[low] < grpc[k])
  {
    AtOddsScores(sla, cs, low, high, k);
    AtOddsScores(sla, cs, low, high, low);
    AtOddsScores(sla, cs, low, high, high);
    HandicapDecides(cs, low, high, k);
  }

  lemma AtOddsOutlook(sla: SlaClass, cs: seq<Candidate>, low: nat, high: nat)
    requires low < |cs| && high < |cs|
    ensures SameOutlook(cs, AtOdds(sla, cs, low, high)) && EqualFairness(AtOdds(sla, cs, low, high))
  {
  }

  lemma TwoAffinitiesDisagree(sla: SlaClass, cs: seq<Candidate>, low: nat, high: nat)
    requires low < |cs| && high < |cs| && cs[low].status.Available? && cs[high].status.Available?
    requires cs[low].affinity < cs[high].affinity
    ensures var ds := AtOdds(sla, cs, low, high); CppIndex(sla, ds) == high && GrpcIndex(sla, ds) == low
  {
    var ds := AtOdds(sla, cs, low, high);
    AtOddsOutlook(sla, cs, low, high);
    var cpp, grpc := Scores(CPP_WEIGHTS, sla, ds), Scores(GRPC_WEIGHTS, sla, ds);
    forall k | 0 <= k < |cs|
      ensures (k != high ==> cpp[high] < cpp[k]) && (k != low ==> grpc[low] < grpc[k])
    {
      AtOddsOrder(sla, cs, low, high, k);
    }
    StrictWinner(cpp, Shown(ds), high);
    StrictWinner(grpc, Shown(ds), low);
  }

  function NoneFit(cs: seq<Candidate>): seq<Candidate> {
    seq(|cs|, k requires 0 <= k < |cs| => Bare(cs[k].status, cs[k].affinity, if k == 1 then 0.0 else 1.0))
  }

  lemma NoneFitDisagree(sla: SlaClass, cs: seq<Candidate>)
    requires |cs| > 1 && !AnyAvailable(cs)
    ensures var ds := NoneFit(cs);
            SameOutlook(cs, ds) && EqualFairness(ds) && CppIndex(sla, ds) == 1 && GrpcIndex(sla, ds) == 0
  {
    var ds := NoneFit(cs);
    BestScoredIs(CPP_WEIGHTS, sla, ds);
    BestScoredIs(GRPC_WEIGHTS, sla, ds);
    assert !AnyAvailable(ds);
    StrictWinner(TotalLatencies(ds), AllOf(ds), 1);
  }

  // Fairness is one number for all candidates of a request.  Given who is available and with
  // which affinity, the two selectors pick the same candidate whatever the other figures are,
  // if and only if there is no choice, or some candidate is available and all that are share
  // one affinity.
  lemma NativeSelectorsAgreeIff(sla: SlaClass, cs: seq<Candidate>)
    ensures (forall ds :: SameOutlook(cs, ds) && EqualFairness(ds) ==> GrpcIndex(sla, ds) == CppIndex(sla, ds))
       <==> |cs| <= 1 || (AnyAvailable(cs) && OneAffinity(cs))
  {
    if |cs| <= 1 || (AnyAvailable(cs) && OneAffinity(cs)) {
      forall ds | SameOutlook(cs, ds) && EqualFairness(ds) ensures GrpcIndex(sla, ds) == CppIndex(sla, ds) {
        OutlookKept(cs, ds);
        if AnyAvailable(ds) && OneAffinity(ds) {
          OneAffinityAgrees(sla, ds);
        } else if |ds| == 1 {
          NativesAdmit(sla, ds);
        }
      }
    } else if !AnyAvailable(cs) {
      NoneFitDisagree(sla, cs);
    } else {
      var i, j :| 0 <= i < |cs| && 0 <= j < |cs| && cs[i].status.Available? && cs[j].status.Available?
                  && cs[i].affinity != cs[j].affinity;
      var low, high := if cs[i].affinity < cs[j].affinity then i else j, if cs[i].affinity < cs[j].affinity then j else i;
      AtOddsOutlook(sla, cs, low, high);
      TwoAffinitiesDisagree(sla, cs, low, high);
    }
  }

  lemma OutlookKept(cs: seq<Candidate>, ds: seq<Candidate>)
    requires SameOutlook(cs, ds)
    ensures AnyAvailable(cs) ==> AnyAvailable(ds)
    ensures OneAffinity(cs) ==> OneAffinity(ds)
  {
    if i :| 0 <= i < |cs| && cs[i].status.Available? {
      assert ds[i].status.Available?;
    }
  }
}
