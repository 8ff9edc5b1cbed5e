// The policies that learn or count, and what their state says about the past.
module PolicyState {
  import opened Numbers
  import opened Dicts
  import opened CacheModel
  import opened Selection

  function CandidateSite(c: Candidate): Site {
    Site(c.clusterId, c.poolId)
  }

  function PickLeast(cs: seq<Candidate>, key: Candidate -> seq<real>, width: nat): (c: Candidate)
    requires |cs| > 0 && forall c :: |key(c)| == width
  {
    Usable(cs)[LeastAt(Usable(cs), key, width)]
  }

  // ----- round robin

  class RoundRobinPolicy {
    var cursor: nat

    constructor ()
      ensures cursor == 0
    {
      cursor := 0;
    }

    method Choose(cs: seq<Candidate>) returns (c: Candidate)
      requires |cs| > 0
      modifies this
      ensures cursor == old(cursor) + 1 && c == Usable(cs)[old(cursor) % |Usable(cs)|]
      ensures c in cs && (c.status.Available? <==> AnyAvailable(cs))
    {
      var usable := Usable(cs);
      UsableAdmits(cs, cursor % |usable|);
      c := usable[cursor % |usable|];
      cursor := cursor + 1;
    }
  }

  // ----- failure-aware spread

  type Counts = Dict<Site, int>

  function SpreadKey(counts: Counts): Candidate -> seq<real> {
    (c: Candidate) => [Get(counts, CandidateSite(c), 0) as real, c.queueDelayMs, c.networkCost]
  }

  function SpreadChoice(counts: Counts, cs: seq<Candidate>): Candidate
    requires |cs| > 0
  {
    PickLeast(cs, SpreadKey(counts), 3)
  }

  function CountedUp(counts: Counts, k: Site): Counts {
    Put(counts, k, Get(counts, k, 0) + 1)
  }

  function CountedDown(counts: Counts, k: Site): Counts {
    var n := Get(counts, k, 0) - 1;
    Put(counts, k, if n < 0 then 0 else n)
  }

  class FailureAwareSpreadPolicy {
    var poolCounts: Counts

    constructor ()
      ensures poolCounts == []
    {
      poolCounts := [];
    }

    method Choose(cs: seq<Candidate>) returns (c: Candidate)
      requires |cs| > 0
      modifies this
      ensures c == SpreadChoice(old(poolCounts), cs)
      ensures poolCounts == CountedUp(old(poolCounts), CandidateSite(c))
      ensures c in cs && (c.status.Available? <==> AnyAvailable(cs))
    {
      var usable := Usable(cs);
      var k := LeastAt(usable, SpreadKey(poolCounts), 3);
      UsableAdmits(cs, k);
      c := usable[k];
      poolCounts := Put(poolCounts, CandidateSite(c), Get(poolCounts, CandidateSite(c), 0) + 1);
    }

    // Takes one off the counter of the result's pool, unless it is at zero or below, and leaves
    // every other counter alone.
    method ObserveResult(site: Site)
      modifies this
      ensures Get(poolCounts, site, 0) >= 0 && Get(poolCounts, site, 0) >= old(Get(poolCounts, site, 0)) - 1
      ensures Get(poolCounts, site, 0) == 0 || Get(poolCounts, site, 0) == old(Get(poolCounts, site, 0)) - 1
      ensures forall k :: k != site ==> Get(poolCounts, k, 0) == old(Get(poolCounts, k, 0))
      ensures poolCounts == CountedDown(old(poolCounts), site)
    {
      ghost var before := poolCounts;
      var n := Get(poolCounts, site, 0) - 1;
      poolCounts := Put(poolCounts, site, if n < 0 then 0 else n);
      forall k ensures Get(poolCounts, k, 0) == if k == site then (if n < 0 then 0 else n) else Get(before, k, 0) {
        PutGet(before, site, if n < 0 then 0 else n, k, 0);
      }
    }
  }

  // Raising a counter and lowering it again cancel out, as long as it was not negative.
  lemma CountUpThenDown(counts: Counts, s: Site, k: Site)
    requires Get(counts, s, 0) >= 0
    ensures Get(CountedUp(counts, s), k, 0) == Get(counts, k, 0) + (if k == s then 1 else 0)
    ensures Get(CountedDown(CountedUp(counts, s), s), k, 0) == Get(counts, k, 0)
  {
    PutGet(counts, s, Get(counts, s, 0) + 1, k, 0);
    PutGet(counts, s, Get(counts, s, 0) + 1, s, 0);
    PutGet(CountedUp(counts, s), s, Get(counts, s, 0), k, 0);
  }

  lemma CountedUpGet(counts: Counts, s: Site)
    ensures Get(CountedUp(counts, s), s, 0) == Get(counts, s, 0) + 1
  {
    PutGet(counts, s, Get(counts, s, 0) + 1, s, 0);
  }

  function DelayKey(): Candidate -> seq<real> {
    (c: Candidate) => [c.queueDelayMs, c.networkCost]
  }

  lemma {:induction false} SameLeastAt(cs: seq<Candidate>, counts: Counts)
    requires |cs| > 0 && forall k :: Get(counts, k, 0) == 0
    ensures LeastAt(cs, SpreadKey(counts), 3) == LeastAt(cs, DelayKey(), 2)
  {
    if |cs| > 1 {
      var init := cs[..|cs| - 1];
      SameLeastAt(init, counts);
      var a, b := cs[|cs| - 1], cs[LeastAt(init, DelayKey(), 2)];
      assert SpreadKey(counts)(a)[1..] == DelayKey()(a) && SpreadKey(counts)(b)[1..] == DelayKey()(b);
      assert Get(counts, CandidateSite(a), 0) == 0 && Get(counts, CandidateSite(b), 0) == 0;
    }
  }

  // ----- contextual bandit

  datatype Bandit = Bandit(counts: Dict<Site, nat>, value: Dict<Site, real>)

  function BanditScore(b: Bandit, explorationBonus: real, c: Candidate): real {
    var k := CandidateSite(c);
    var hint := c.hitRatio * 120.0 + c.affinity * 60.0 - c.queueDelayMs * 0.08 - c.costPer1M * 0.08;
    Get(b.value, k, 0.0) + hint + explorationBonus / (1 + Get(b.counts, k, 0)) as real
  }

  // max(usable, key=...) is the first of least negated score.
  function BanditKey(b: Bandit, explorationBonus: real): Candidate -> seq<real> {
    (c: Candidate) => [-BanditScore(b, explorationBonus, c)]
  }

  function Reward(slaMet: bool, hitRatio: real, totalLatencyMs: real, costUsd: real): real {
    (if slaMet then 1.0 else -0.9) * 120.0 + hitRatio * 60.0 - totalLatencyMs * 0.08 - costUsd * 9.0
  }

  // One step of the incremental mean, with the count already raised.
  function Blend(count: real, value: real, reward: real): real
    requires count > 0.0
  {
    var alpha := 1.0 / count;
    (1.0 - alpha) * value + alpha * reward
  }

  function Learn(b: Bandit, k: Site, reward: real): Bandit {
    var n := Get(b.counts, k, 0) + 1;
    Bandit(Put(b.counts, k, n), Put(b.value, k, Blend(n as real, Get(b.value, k, 0.0), reward)))
  }

  class ContextualBanditPolicy {
    const explorationBonus: real
    var counts: Dict<Site, nat>
    var value: Dict<Site, real>

    constructor (explorationBonus: real)
      ensures this.explorationBonus == explorationBonus && View() == Bandit([], [])
    {
      this.explorationBonus, counts, value := explorationBonus, [], [];
    }

    function View(): Bandit
      reads this
    {
      Bandit(counts, value)
    }

    method Choose(cs: seq<Candidate>) returns (c: Candidate)
      requires |cs| > 0
      ensures c == PickLeast(cs, BanditKey(View(), explorationBonus), 1)
      ensures c in cs && (c.status.Available? <==> AnyAvailable(cs))
    {
      var usable := Usable(cs);
      var k := LeastAt(usable, BanditKey(View(), explorationBonus), 1);
      UsableAdmits(cs, k);
      c := usable[k];
    }

    method ObserveResult(site: Site, slaMet: bool, hitRatio: real, totalLatencyMs: real, costUsd: real)
      modifies this
      ensures View() == Learn(old(View()), site, Reward(slaMet, hitRatio, totalLatencyMs, costUsd))
    {
      var reward := Reward(slaMet, hitRatio, totalLatencyMs, costUsd);
      PutGet(counts, site, Get(counts, site, 0) + 1, site, 0);
      counts := Put(counts, site, Get(counts, site, 0) + 1);
      value := Put(value, site, Blend(Get(counts, site, 0) as real, Get(value, site, 0.0), reward));
    }
  }

  function BanditRun(history: seq<(Site, real)>): Bandit {
    if |history| == 0 then Bandit([], [])
    else
      var (k, reward) := history[|history| - 1];
      Learn(BanditRun(history[..|history| - 1]), k, reward)
  }

  // The rewards observed at one pool, in order.
  function RewardsAt(history: seq<(Site, real)>, k: Site): seq<real> {
    if |history| == 0 then []
    else
      var last := history[|history| - 1];
      RewardsAt(history[..|history| - 1], k) + (if last.0 == k then [last.1] else [])
  }

  lemma BlendTimesCount(count: real, less: real, value: real, reward: real)
    requires count > 0.0 && less == count - 1.0
    ensures count * Blend(count, value, reward) == less * value + reward
  {
    var a := 1.0 / count;
    assert count * a == 1.0;
    assert count * ((1.0 - a) * value + a * reward) == (count - count * a) * value + count * a * reward;
  }

  lemma MeanStep(n: nat, value: real, reward: real, total: real)
    requires n > 0 && Times(n - 1, value) == total
    ensures Times(n, Blend(n as real, value, reward)) == total + reward
  {
    TimesIsProduct(n - 1, value);
    TimesIsProduct(n, Blend(n as real, value, reward));
    BlendTimesCount(n as real, (n - 1) as real, value, reward);
  }

  // The incremental update keeps, at every pool, the exact mean of all rewards observed there.
  lemma {:induction false} BanditKeepsMeans(history: seq<(Site, real)>, k: Site)
    ensures var b, rewards := BanditRun(history), RewardsAt(history, k);
            && Get(b.counts, k, 0) == |rewards|
            && Times(|rewards|, Get(b.value, k, 0.0)) == Sum(rewards)
  {
    if |history| > 0 {
      var init, last := history[..|history| - 1], history[|history| - 1];
      BanditKeepsMeans(init, k);
      var b, rewards := BanditRun(init), RewardsAt(init, k);
      var n := Get(b.counts, last.0, 0) + 1;
      PutGet(b.counts, last.0, n, k, 0);
      PutGet(b.value, last.0, Blend(n as real, Get(b.value, last.0, 0.0), last.1), k, 0.0);
      if last.0 == k {
        SumAppend(rewards, last.1);
        MeanStep(n, Get(b.value, k, 0.0), last.1, Sum(rewards));
      } else {
        assert rewards + [] == rewards;
      }
    }
  }
}
