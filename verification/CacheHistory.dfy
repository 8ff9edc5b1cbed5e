// What an entry of the directory says of the past: the observations it stands for.
module CacheHistory {
  import opened Numbers
  import opened Dicts
  import opened CacheModel
  import opened CacheUpdate
  import opened CacheDirectory
  import opened CacheLimits

  // ----- one observation

  ghost predicate Holds(b: seq<Entry>, site: Site) {
    exists i :: 0 <= i < |b| && b[i].site == site
  }

  // The larger of two figures.
  ghost predicate Larger(x: nat, a: nat, b: nat) {
    x >= a && x >= b && (x == a || x == b)
  }

  ghost predicate LargerGb(x: real, a: real, b: real) {
    x >= a && x >= b && (x == a || x == b)
  }

  // The entry after an observation of its site: one hit more if it was one, the larger of the
  // sizes, and the new completion.
  ghost predicate Follows(e: Entry, before: Entry, o: Observation) {
    && e.site == before.site == o.site && e.touched == e.available == o.completion
    && e.hits == before.hits + (if o.hit then 1 else 0)
    && Larger(e.sizeTokens, before.sizeTokens, o.promptTokens) && LargerGb(e.sizeGb, before.sizeGb, o.sizeGb)
  }

  ghost predicate Starts(e: Entry, o: Observation) {
    && e.site == o.site && e.touched == e.available == o.completion
    && e.hits == (if o.hit then 1 else 0) && e.sizeTokens == o.promptTokens && e.sizeGb == o.sizeGb
  }

  // An observation is followed by one entry of its site, which goes on from the one that was
  // there or starts afresh; the entries of other sites are the ones that were there.
  lemma {:induction false} TouchedEntry(b: seq<Entry>, o: Observation, i: nat)
    requires DistinctSites(b) && i < |TouchOrAdd(b, o)|
    ensures var e := TouchOrAdd(b, o)[i];
            if e.site != o.site then e in b
            else if Holds(b, o.site) then exists j :: 0 <= j < |b| && Follows(e, b[j], o)
            else Starts(e, o)
  {
    var e := TouchOrAdd(b, o)[i];
    if |b| == 0 {
    } else if b[0].site == o.site {
      if i == 0 {
        assert Follows(e, b[0], o);
      } else {
        assert e == b[i] && b[0].site != b[i].site;
      }
    } else if i > 0 {
      TouchedEntry(b[1..], o, i - 1);
      HoldsRest(b, o.site);
      if e.site == o.site && Holds(b[1..], o.site) {
        var j :| 0 <= j < |b[1..]| && Follows(e, b[1..][j], o);
        assert b[j + 1] == b[1..][j];
      }
    }
  }

  lemma HoldsRest(b: seq<Entry>, site: Site)
    requires |b| > 0 && b[0].site != site
    ensures Holds(b, site) <==> Holds(b[1..], site)
  {
    if i :| 0 <= i < |b| && b[i].site == site {
      assert b[1..][i - 1] == b[i];
    }
  }

  // What a step leaves under a key is what it makes of the bucket, or less.
  lemma UpdateLeaves(c: Cache, o: Observation, maxEntries: nat, k: Key, e: Entry)
    requires Shape(c) && o.sizeGb >= 0.0 && e in Bucket(Update(c, o, maxEntries), k)
    ensures if k == o.key then e in TouchOrAdd(Bucket(c, k), o) else e in Bucket(c, k)
  {
    var seen, cut := Observed(c, o), CutToFour(TouchOrAdd(Bucket(c, o.key), o));
    ObservedShape(c, o);
    TrimKeepsBest(seen, maxEntries);
    KeepBucket(seen, Except(Victims(seen, maxEntries)), k);
    KeepInSub(Bucket(seen, k), k, Except(Victims(seen, maxEntries)));
    PutGet(c, o.key, cut, k, []);
    BucketGood(c, o.key);
    TouchKeeps(Bucket(c, o.key), o);
    CutKeepsBest(TouchOrAdd(Bucket(c, o.key), o));
  }

  lemma EvictLeaves(c: Cache, at: real, ttl: real, k: Key, e: Entry)
    requires Shape(c) && e in Bucket(Evict(c, at, ttl), k)
    ensures e in Bucket(c, k)
  {
    KeepBucket(c, Fresh(at, ttl), k);
    KeepInSub(Bucket(c, k), k, Fresh(at, ttl));
  }

  // ----- since an entry was added

  // The observations of a key at a site since the directory last held nothing there.
  ghost function Since(accesses: seq<Access>, maxEntries: nat, ttl: real, k: Key, site: Site): seq<Observation> {
    if |accesses| == 0 || !Holds(Bucket(AfterAll(accesses, maxEntries, ttl), k), site) then []
    else
      var before := Since(accesses[..|accesses| - 1], maxEntries, ttl, k, site);
      var last := accesses[|accesses| - 1];
      if last.Observe? && last.o.key == k && last.o.site == site then before + [last.o] else before
  }

  function Hits(seen: seq<Observation>): nat {
    if |seen| == 0 then 0 else Hits(seen[..|seen| - 1]) + (if seen[|seen| - 1].hit then 1 else 0)
  }

  // The entry stands for these observations: it counts their hits, has the largest of their
  // sizes, and dates from the last of them.
  ghost predicate StandsFor(e: Entry, seen: seq<Observation>) {
    && |seen| > 0 && e.hits == Hits(seen) && e.touched == e.available == seen[|seen| - 1].completion
    && (forall i :: 0 <= i < |seen| ==> seen[i].promptTokens <= e.sizeTokens && seen[i].sizeGb <= e.sizeGb)
    && (exists i :: 0 <= i < |seen| && seen[i].promptTokens == e.sizeTokens)
    && (exists i :: 0 <= i < |seen| && seen[i].sizeGb == e.sizeGb)
  }

  lemma StartsStand(e: Entry, o: Observation)
    requires Starts(e, o)
    ensures StandsFor(e, [o])
  {
    assert [o][..0] == [] && [o][0] == o;
  }

  lemma FollowsStand(e: Entry, before: Entry, o: Observation, seen: seq<Observation>)
    requires Follows(e, before, o) && StandsFor(before, seen)
    ensures StandsFor(e, seen + [o])
  {
    var all := seen + [o];
    assert all[..|seen|] == seen && all[|seen|] == o;
    var i :| 0 <= i < |seen| && seen[i].promptTokens == before.sizeTokens;
    var j :| 0 <= j < |seen| && seen[j].sizeGb == before.sizeGb;
    assert all[i] == seen[i] && all[j] == seen[j];
  }

  // After any accesses, every entry stands for the observations made since it was added.
  lemma {:induction false} EntryStandsForPast(accesses: seq<Access>, maxEntries: nat, ttl: real, k: Key, e: Entry)
    requires Sized(accesses) && e in Bucket(AfterAll(accesses, maxEntries, ttl), k)
    ensures StandsFor(e, Since(accesses, maxEntries, ttl, k, e.site))
    decreases |accesses|, 1
  {
    var init, last := accesses[..|accesses| - 1], accesses[|accesses| - 1];
    var before := AfterAll(init, maxEntries, ttl);
    AlwaysInShape(init, maxEntries, ttl);
    BucketGood(before, k);
    assert Holds(Bucket(AfterAll(accesses, maxEntries, ttl), k), e.site);
    match last
    case Query(at) =>
      EvictLeaves(before, at, ttl, k, e);
      EntryStandsForPast(init, maxEntries, ttl, k, e);
    case Observe(o) =>
      UpdateLeaves(before, o, maxEntries, k, e);
      if k == o.key && e.site == o.site {
        ObservedStands(init, maxEntries, ttl, o, e);
      } else if k == o.key {
        var i :| 0 <= i < |TouchOrAdd(Bucket(before, k), o)| && TouchOrAdd(Bucket(before, k), o)[i] == e;
        TouchedEntry(Bucket(before, k), o, i);
        EntryStandsForPast(init, maxEntries, ttl, k, e);
      } else {
        EntryStandsForPast(init, maxEntries, ttl, k, e);
      }
  }

  lemma {:induction false} ObservedStands(init: seq<Access>, maxEntries: nat, ttl: real, o: Observation, e: Entry)
    requires Sized(init) && e.site == o.site
    requires e in TouchOrAdd(Bucket(AfterAll(init, maxEntries, ttl), o.key), o)
    ensures StandsFor(e, Since(init, maxEntries, ttl, o.key, o.site) + [o])
    decreases |init|, 2
  {
    var b := Bucket(AfterAll(init, maxEntries, ttl), o.key);
    AlwaysInShape(init, maxEntries, ttl);
    BucketGood(AfterAll(init, maxEntries, ttl), o.key);
    var i :| 0 <= i < |TouchOrAdd(b, o)| && TouchOrAdd(b, o)[i] == e;
    TouchedEntry(b, o, i);
    if Holds(b, o.site) {
      var j :| 0 <= j < |b| && Follows(e, b[j], o);
      EntryStandsForPast(init, maxEntries, ttl, o.key, b[j]);
      FollowsStand(e, b[j], o, Since(init, maxEntries, ttl, o.key, o.site));
    } else {
      StartsStand(e, o);
      assert Since(init, maxEntries, ttl, o.key, o.site) + [o] == [o];
    }
  }
}
