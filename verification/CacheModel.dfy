// The KV-cache directory as a value: eviction by age, scoring, and what reading leaves alone.
module CacheModel {
  import opened Numbers
  import opened Dicts

  // Cache keys are opaque; they are numbered in the order their strings sort.
  type Key = nat

  datatype Site = Site(clusterId: string, poolId: string)

  datatype Entry = Entry(
    site: Site, sizeTokens: nat, sizeGb: real, available: real, touched: real, hits: nat)

  datatype Item = Item(key: Key, entry: Entry)

  type Cache = Dict<Key, seq<Entry>>

  function Bucket(c: Cache, k: Key): seq<Entry> {
    Get(c, k, [])
  }

  // ----- shape

  predicate DistinctSites(b: seq<Entry>) {
    forall i, j :: 0 <= i < j < |b| ==> b[i].site != b[j].site
  }

  // An entry becomes visible at the completion that last touched it.
  predicate WellDated(e: Entry) {
    e.available == e.touched && e.sizeGb >= 0.0
  }

  predicate GoodBucket(b: seq<Entry>) {
    0 < |b| <= 4 && DistinctSites(b) && forall i :: 0 <= i < |b| ==> WellDated(b[i])
  }

  ghost predicate Shape(c: Cache) {
    UniqueKeys(c) && forall i :: 0 <= i < |c| ==> GoodBucket(c[i].1)
  }

  // ----- keeping some entries

  function KeepIn(b: seq<Entry>, k: Key, p: Item -> bool): seq<Entry> {
    if |b| == 0 then []
    else
      var e := b[|b| - 1];
      KeepIn(b[..|b| - 1], k, p) + (if p(Item(k, e)) then [e] else [])
  }

  // Drops the entries that fail p, and every bucket left empty.
  function Keep(c: Cache, p: Item -> bool): Cache {
    if |c| == 0 then []
    else
      var left := KeepIn(c[0].1, c[0].0, p);
      (if |left| > 0 then [(c[0].0, left)] else []) + Keep(c[1..], p)
  }

  function Fresh(now: real, ttl: real): Item -> bool {
    (x: Item) => now - x.entry.touched <= ttl
  }

  function Evict(c: Cache, now: real, ttl: real): Cache {
    Keep(c, Fresh(now, ttl))
  }

  lemma {:induction false} KeepInSub(b: seq<Entry>, k: Key, p: Item -> bool)
    ensures |KeepIn(b, k, p)| <= |b|
    ensures forall e :: e in KeepIn(b, k, p) <==> e in b && p(Item(k, e))
    ensures DistinctSites(b) ==> DistinctSites(KeepIn(b, k, p))
  {
    if |b| > 0 {
      var init, e := b[..|b| - 1], b[|b| - 1];
      KeepInSub(init, k, p);
      assert b == init + [e];
      var rest := KeepIn(init, k, p);
      if DistinctSites(b) {
        forall j | 0 <= j < |rest| ensures rest[j].site != e.site {
          assert rest[j] in init;
        }
      }
    }
  }

  lemma {:induction false} KeepKeys(c: Cache, p: Item -> bool, i: nat) returns (at: nat)
    requires i < |Keep(c, p)|
    ensures at < |c| && Keep(c, p)[i].0 == c[at].0 && Keep(c, p)[i].1 == KeepIn(c[at].1, c[at].0, p)
    ensures |Keep(c, p)[i].1| > 0
  {
    var left := KeepIn(c[0].1, c[0].0, p);
    if |left| > 0 && i == 0 {
      at := 0;
    } else {
      at := KeepKeys(c[1..], p, if |left| > 0 then i - 1 else i);
      at := at + 1;
    }
  }

  lemma {:induction false} KeepUnique(c: Cache, p: Item -> bool)
    requires UniqueKeys(c)
    ensures UniqueKeys(Keep(c, p))
  {
    if |c| > 0 {
      KeepUnique(c[1..], p);
      var rest := Keep(c[1..], p);
      forall i | 0 <= i < |rest| ensures rest[i].0 != c[0].0 {
        var at := KeepKeys(c[1..], p, i);
        assert c[at + 1].0 != c[0].0;
      }
    }
  }

  lemma KeepShape(c: Cache, p: Item -> bool)
    requires Shape(c)
    ensures Shape(Keep(c, p))
  {
    KeepUnique(c, p);
    forall i | 0 <= i < |Keep(c, p)| ensures GoodBucket(Keep(c, p)[i].1) {
      var at := KeepKeys(c, p, i);
      KeepInSub(c[at].1, c[at].0, p);
      var left := Keep(c, p)[i].1;
      forall j | 0 <= j < |left| ensures WellDated(left[j]) {
        assert left[j] in c[at].1;
      }
    }
  }

  lemma {:induction false} KeepInTwice(b: seq<Entry>, k: Key, p: Item -> bool, q: Item -> bool, r: Item -> bool)
    requires forall x :: r(x) <==> p(x) && q(x)
    ensures KeepIn(KeepIn(b, k, p), k, q) == KeepIn(b, k, r)
  {
    if |b| > 0 {
      var init, e := b[..|b| - 1], b[|b| - 1];
      KeepInTwice(init, k, p, q, r);
      if p(Item(k, e)) {
        assert KeepIn(b, k, p)[..|KeepIn(init, k, p)|] == KeepIn(init, k, p);
      } else {
        assert KeepIn(b, k, p) == KeepIn(init, k, p);
      }
    }
  }

  lemma {:induction false} KeepTwice(c: Cache, p: Item -> bool, q: Item -> bool, r: Item -> bool)
    requires forall x :: r(x) <==> p(x) && q(x)
    ensures Keep(Keep(c, p), q) == Keep(c, r)
  {
    if |c| > 0 {
      KeepTwice(c[1..], p, q, r);
      KeepInTwice(c[0].1, c[0].0, p, q, r);
      var left := KeepIn(c[0].1, c[0].0, p);
      if |left| > 0 {
        assert Keep(c, p)[1..] == Keep(c[1..], p);
      } else {
        assert Keep(c, p) == Keep(c[1..], p);
      }
    }
  }

  lemma {:induction false} KeepBucket(c: Cache, p: Item -> bool, k: Key)
    requires UniqueKeys(c)
    ensures Bucket(Keep(c, p), k) == KeepIn(Bucket(c, k), k, p)
  {
    if |c| > 0 {
      KeepBucket(c[1..], p, k);
      var left := KeepIn(c[0].1, c[0].0, p);
      if |left| > 0 {
        assert Keep(c, p)[1..] == Keep(c[1..], p);
      } else {
        assert Keep(c, p) == Keep(c[1..], p);
      }
      if c[0].0 == k {
        BucketAbsent(c[1..], k);
      }
    }
  }

  lemma {:induction false} BucketAbsent(c: Cache, k: Key)
    requires forall i :: 0 <= i < |c| ==> c[i].0 != k
    ensures Bucket(c, k) == []
  {
    if |c| > 0 {
      assert c[0].0 != k;
      BucketAbsent(c[1..], k);
    }
  }

  lemma {:induction false} BucketGood(c: Cache, k: Key)
    requires Shape(c)
    ensures Bucket(c, k) == [] || GoodBucket(Bucket(c, k))
  {
    if |c| > 0 && c[0].0 != k {
      BucketGood(c[1..], k);
    }
  }

  // ----- lazy eviction cannot be observed

  lemma EvictTwice(c: Cache, earlier: real, now: real, ttl: real)
    requires earlier <= now
    ensures Evict(Evict(c, earlier, ttl), now, ttl) == Evict(c, now, ttl)
  {
    KeepTwice(c, Fresh(earlier, ttl), Fresh(now, ttl), Fresh(now, ttl));
  }

  // The directory after queries at the given times, each of which evicts first.
  function AfterQueries(c: Cache, times: seq<real>, ttl: real): Cache {
    if |times| == 0 then c else Evict(AfterQueries(c, times[..|times| - 1], ttl), times[|times| - 1], ttl)
  }

  lemma {:induction false} QueriesUnobservable(c: Cache, times: seq<real>, now: real, ttl: real)
    requires forall i :: 0 <= i < |times| ==> times[i] <= now
    ensures Evict(AfterQueries(c, times, ttl), now, ttl) == Evict(c, now, ttl)
  {
    if |times| > 0 {
      var before := AfterQueries(c, times[..|times| - 1], ttl);
      QueriesUnobservable(c, times[..|times| - 1], now, ttl);
      EvictTwice(before, times[|times| - 1], now, ttl);
    }
  }

  // ----- memory held for cached prefixes

  function ReservedIn(b: seq<Entry>, site: Site): real {
    if |b| == 0 then 0.0
    else ReservedIn(b[..|b| - 1], site) + (if b[|b| - 1].site == site then b[|b| - 1].sizeGb else 0.0)
  }

  function Reserved(c: Cache, site: Site): real {
    if |c| == 0 then 0.0 else Reserved(c[..|c| - 1], site) + ReservedIn(c[|c| - 1].1, site)
  }

  lemma {:induction false} ReservedInNonNegative(b: seq<Entry>, site: Site)
    requires forall i :: 0 <= i < |b| ==> WellDated(b[i])
    ensures ReservedIn(b, site) >= 0.0
  {
    if |b| > 0 {
      ReservedInNonNegative(b[..|b| - 1], site);
    }
  }

  lemma {:induction false} ReservedNonNegative(c: Cache, site: Site)
    requires Shape(c)
    ensures Reserved(c, site) >= 0.0
  {
    if |c| > 0 {
      ReservedNonNegative(c[..|c| - 1], site);
      ReservedInNonNegative(c[|c| - 1].1, site);
    }
  }

  // ----- scoring

  function Freshness(e: Entry, now: real, ttl: real): real
    requires ttl > 0.0
  {
    Max(0.1, 1.0 - (now - e.touched) / ttl)
  }

  function LocationBonus(e: Entry, site: Site): real {
    if e.site == site then 1.0 else if e.site.clusterId == site.clusterId then 0.7 else 0.35
  }

  function HitRatio(e: Entry, site: Site, now: real, ttl: real): (r: real)
    requires ttl > 0.0
    ensures 0.035 <= r <= 0.95
  {
    var product := Freshness(e, now, ttl) * LocationBonus(e, site);
    assert product >= 0.1 * LocationBonus(e, site);
    Min(0.95, product)
  }

  // int() of a share of the tokens.
  function Share(tokens: nat, ratio: real): (n: nat)
    requires 0.0 <= ratio <= 0.95
    ensures n as real <= tokens as real * 0.95
  {
    var x := tokens as real;
    assert 0.0 <= x * ratio <= x * 0.95;
    Truncate(x * ratio)
  }

  function SavedTokens(e: Entry, promptTokens: nat, ratio: real): (n: nat)
    requires 0.0 <= ratio <= 0.95
    ensures n as real <= promptTokens as real * 0.95
  {
    Share(MinNat(e.sizeTokens, promptTokens), ratio)
  }

  function ByRatio(site: Site, now: real, ttl: real): Entry -> real
    requires ttl > 0.0
  {
    (e: Entry) => HitRatio(e, site, now, ttl)
  }

  function Visible(now: real): Entry -> bool {
    (e: Entry) => e.available <= now
  }

  // The latest completion observed for the entry lies within the time to live.
  function InWindow(now: real, ttl: real): Entry -> bool {
    (e: Entry) => now - ttl <= e.touched <= now
  }

  // Position of the first entry that attains the greatest ratio among those shown, or -1.
  function BestAt(b: seq<Entry>, shown: Entry -> bool, ratio: Entry -> real): (i: int)
    ensures -1 <= i < |b|
  {
    if |b| == 0 then -1
    else
      var i, n := BestAt(b[..|b| - 1], shown, ratio), |b| - 1;
      if shown(b[n]) && (i < 0 || ratio(b[n]) > ratio(b[i])) then n else i
  }

  // What that means, without a loop.
  ghost predicate FirstBest(b: seq<Entry>, shown: Entry -> bool, ratio: Entry -> real, i: int) {
    if i < 0 then forall j :: 0 <= j < |b| ==> !shown(b[j])
    else
      && i < |b| && shown(b[i])
      && (forall j :: 0 <= j < |b| && shown(b[j]) ==> ratio(b[j]) <= ratio(b[i]))
      && (forall j :: 0 <= j < i && shown(b[j]) ==> ratio(b[j]) < ratio(b[i]))
  }

  lemma {:induction false} BestAtIsFirstBest(b: seq<Entry>, shown: Entry -> bool, ratio: Entry -> real)
    ensures FirstBest(b, shown, ratio, BestAt(b, shown, ratio))
  {
    if |b| > 0 {
      BestAtIsFirstBest(b[..|b| - 1], shown, ratio);
      assert b == b[..|b| - 1] + [b[|b| - 1]];
    }
  }

  function ScoreAt(b: seq<Entry>, i: int, site: Site, promptTokens: nat, now: real, ttl: real): (real, nat)
    requires ttl > 0.0 && i < |b|
  {
    if i < 0 then (0.0, 0)
    else
      var ratio := HitRatio(b[i], site, now, ttl);
      (ratio, SavedTokens(b[i], promptTokens, ratio))
  }

  // What a query answers before rounding: evict, then the first best visible entry.  A hit is
  // never below 0.035, and reuse never saves more than 95% of a prompt.
  function ScoreOf(c: Cache, k: Key, site: Site, promptTokens: nat, now: real, ttl: real): (r: (real, nat))
    requires ttl > 0.0
    ensures r == (0.0, 0) || 0.035 <= r.0 <= 0.95
    ensures r.1 as real <= promptTokens as real * 0.95
  {
    var b := Bucket(Evict(c, now, ttl), k);
    ScoreAt(b, BestAt(b, Visible(now), ByRatio(site, now, ttl)), site, promptTokens, now, ttl)
  }

  // Searching what is kept finds what searching everything would.
  lemma {:induction false} KeptBest(b: seq<Entry>, k: Key, p: Item -> bool, shown: Entry -> bool,
                                    window: Entry -> bool, ratio: Entry -> real)
    requires forall i :: 0 <= i < |b| ==> (window(b[i]) <==> p(Item(k, b[i])) && shown(b[i]))
    ensures var kept := KeepIn(b, k, p);
            var i, i' := BestAt(b, window, ratio), BestAt(kept, shown, ratio);
            (i < 0 <==> i' < 0) && (i >= 0 ==> kept[i'] == b[i])
  {
    if |b| > 0 {
      var init, e := b[..|b| - 1], b[|b| - 1];
      KeptBest(init, k, p, shown, window, ratio);
      var was, kept := KeepIn(init, k, p), KeepIn(b, k, p);
      if p(Item(k, e)) {
        assert kept[..|was|] == was && kept[|was|] == e;
      } else {
        assert kept == was;
      }
    }
  }

  // The answer, on the directory as it stands, in terms of the entries whose last completion
  // lies within the time to live: nothing if there is none, else the first best of them.
  lemma ScoreIsFirstBest(c: Cache, k: Key, site: Site, promptTokens: nat, now: real, ttl: real)
    requires Shape(c) && ttl > 0.0
    ensures exists i :: -1 <= i < |Bucket(c, k)|
              && FirstBest(Bucket(c, k), InWindow(now, ttl), ByRatio(site, now, ttl), i)
              && ScoreOf(c, k, site, promptTokens, now, ttl)
                 == ScoreAt(Bucket(c, k), i, site, promptTokens, now, ttl)
  {
    var b := Bucket(c, k);
    BucketGood(c, k);
    KeepBucket(c, Fresh(now, ttl), k);
    KeptBest(b, k, Fresh(now, ttl), Visible(now), InWindow(now, ttl), ByRatio(site, now, ttl));
    BestAtIsFirstBest(b, InWindow(now, ttl), ByRatio(site, now, ttl));
    var i := BestAt(b, InWindow(now, ttl), ByRatio(site, now, ttl));
    assert ScoreOf(c, k, site, promptTokens, now, ttl) == ScoreAt(b, i, site, promptTokens, now, ttl);
  }

  lemma LocationMatters(e: Entry, near: Site, far: Site, now: real, ttl: real)
    requires ttl > 0.0
    ensures HitRatio(e, near, now, ttl) * 0.35 <= HitRatio(e, far, now, ttl)
  {
    var f := Freshness(e, now, ttl);
    var x, y := LocationBonus(e, near), LocationBonus(e, far);
    assert f * x <= f;
    assert f * 0.35 <= f * y;
  }

  // Moving a request elsewhere never costs more than 65% of its best hit ratio.
  lemma AnywhereAtLeastAThird(c: Cache, k: Key, near: Site, far: Site, promptTokens: nat, now: real, ttl: real)
    requires ttl > 0.0
    ensures ScoreOf(c, k, near, promptTokens, now, ttl).0 * 0.35 <= ScoreOf(c, k, far, promptTokens, now, ttl).0
  {
    var b := Bucket(Evict(c, now, ttl), k);
    var i := BestAt(b, Visible(now), ByRatio(near, now, ttl));
    var j := BestAt(b, Visible(now), ByRatio(far, now, ttl));
    BestAtIsFirstBest(b, Visible(now), ByRatio(near, now, ttl));
    BestAtIsFirstBest(b, Visible(now), ByRatio(far, now, ttl));
    if i >= 0 {
      LocationMatters(b[i], near, far, now, ttl);
      assert ByRatio(far, now, ttl)(b[i]) <= ByRatio(far, now, ttl)(b[j]);
    }
  }
}
