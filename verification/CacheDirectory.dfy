// The KV-cache directory object, with its Redis mirror disabled.
module CacheDirectory {
  import opened Numbers
  import opened Dicts
  import opened Sequences
  import opened CacheModel
  import opened CacheUpdate

  // What an observation leaves.  Trimming raises, with the observation already recorded, when
  // it has to sort two entries of one key that tie on rank.
  function Update(c: Cache, o: Observation, maxEntries: nat): Cache {
    var seen := Observed(c, o);
    if TrimRaises(seen, maxEntries) then seen else Trimmed(seen, maxEntries)
  }

  predicate TrimRaises(c: Cache, maxEntries: nat) {
    |Items(c)| > maxEntries && !Sortable(Items(c))
  }

  // After every observation: no empty bucket, at most four entries a key, no two of a key on
  // one site, visibility tied to the last completion; and the size limit unless trimming raised.
  lemma UpdateShape(c: Cache, o: Observation, maxEntries: nat)
    requires Shape(c) && o.sizeGb >= 0.0
    ensures Shape(Update(c, o, maxEntries))
    ensures |Items(Update(c, o, maxEntries))| <= maxEntries <==> !TrimRaises(Observed(c, o), maxEntries)
  {
    ObservedShape(c, o);
    TrimKeepsBest(Observed(c, o), maxEntries);
  }

  datatype Access = Observe(o: Observation) | Query(at: real)

  // The directory after any mix of observations and queries.
  function AfterAll(accesses: seq<Access>, maxEntries: nat, ttl: real): Cache {
    if |accesses| == 0 then []
    else
      var before := AfterAll(accesses[..|accesses| - 1], maxEntries, ttl);
      match accesses[|accesses| - 1]
      case Observe(o) => Update(before, o, maxEntries)
      case Query(at) => Evict(before, at, ttl)
  }

  lemma {:induction false} AlwaysInShape(accesses: seq<Access>, maxEntries: nat, ttl: real)
    requires forall i :: 0 <= i < |accesses| && accesses[i].Observe? ==> accesses[i].o.sizeGb >= 0.0
    ensures Shape(AfterAll(accesses, maxEntries, ttl))
  {
    if |accesses| > 0 {
      var before := AfterAll(accesses[..|accesses| - 1], maxEntries, ttl);
      AlwaysInShape(accesses[..|accesses| - 1], maxEntries, ttl);
      match accesses[|accesses| - 1]
      case Observe(o) => UpdateShape(before, o, maxEntries);
      case Query(at) => KeepShape(before, Fresh(at, ttl));
    }
  }

  // ----- the loops, step by step

  function KeptBucket(c: Cache, i: nat, p: Item -> bool): Cache
    requires i < |c|
  {
    var left := KeepIn(c[i].1, c[i].0, p);
    if |left| > 0 then [(c[i].0, left)] else []
  }

  lemma {:induction false} KeepJoin(a: Cache, b: Cache, p: Item -> bool)
    ensures Keep(a + b, p) == Keep(a, p) + Keep(b, p)
  {
    if |a| == 0 {
      assert a + b == b;
    } else {
      var first, rest := KeptBucket(a, 0, p), a[1..];
      KeepJoin(rest, b, p);
      assert (a + b)[1..] == rest + b && (a + b)[0] == a[0];
      assert Keep(a + b, p) == first + Keep(rest + b, p);
      Regroup(first, Keep(rest, p), Keep(b, p));
    }
  }

  lemma KeepNext(c: Cache, i: nat, p: Item -> bool)
    requires i < |c|
    ensures Keep(c[..i + 1], p) == Keep(c[..i], p) + KeptBucket(c, i, p)
  {
    var one: Cache := [c[i]];
    KeepJoin(c[..i], one, p);
    assert c[..i + 1] == c[..i] + one;
    assert Keep(one[1..], p) == [] && Keep(one, p) == KeptBucket(c, i, p);
  }

  lemma NotYetKept(c: Cache, i: nat, p: Item -> bool)
    requires UniqueKeys(c) && i < |c|
    ensures !Has(Keep(c[..i], p), c[i].0)
  {
    var kept := Keep(c[..i], p);
    HasAt(kept, c[i].0);
    if j :| 0 <= j < |kept| && kept[j].0 == c[i].0 {
      var at := KeepKeys(c[..i], p, j);
    }
  }

  // Rewriting or deleting the i-th bucket of a half-evicted directory.
  lemma EvictStep(c: Cache, i: nat, p: Item -> bool)
    requires UniqueKeys(c) && i < |c|
    ensures var now := Keep(c[..i], p) + c[i..];
            var left := KeepIn(c[i].1, c[i].0, p);
            (if |left| > 0 then Put(now, c[i].0, left) else Delete(now, c[i].0)) == Keep(c[..i + 1], p) + c[i + 1..]
  {
    var k, left := c[i].0, KeepIn(c[i].1, c[i].0, p);
    var before, after := Keep(c[..i], p), c[i..];
    NotYetKept(c, i, p);
    PutBeyond(before, after, k, left);
    DeleteBeyond(before, after, k);
    KeepNext(c, i, p);
    HeadStep(after, k, left);
    assert after[1..] == c[i + 1..];
    Regroup(before, KeptBucket(c, i, p), c[i + 1..]);
  }

  lemma HeadStep(c: Cache, k: Key, left: seq<Entry>)
    requires |c| > 0 && c[0].0 == k
    ensures Put(c, k, left) == [(k, left)] + c[1..] && Delete(c, k) == c[1..]
  {
  }

  lemma {:induction false} TouchOrAddAt(b: seq<Entry>, o: Observation, i: nat)
    requires i <= |b| && forall j :: 0 <= j < i ==> b[j].site != o.site
    requires i < |b| ==> b[i].site == o.site
    ensures TouchOrAdd(b, o) == if i < |b| then b[i := Touched(b[i], o)] else b + [NewEntry(o)]
  {
    if i > 0 {
      TouchOrAddAt(b[1..], o, i - 1);
    }
  }

  class KVCacheDirectory {
    const ttl: real
    const maxEntries: nat
    var entries: Cache

    ghost predicate Valid()
      reads this
    {
      ttl > 0.0 && Shape(entries)
    }

    constructor (ttl: real, maxEntries: nat)
      requires ttl > 0.0
      ensures Valid() && entries == [] && this.ttl == ttl && this.maxEntries == maxEntries
    {
      this.ttl, this.maxEntries, entries := ttl, maxEntries, [];
    }

    method EvictStale(now: real)
      requires Valid()
      modifies this
      ensures Valid() && entries == Evict(old(entries), now, ttl)
    {
      var snapshot := entries;
      ghost var p := Fresh(now, ttl);
      for i := 0 to |snapshot|
        invariant entries == Keep(snapshot[..i], p) + snapshot[i..]
      {
        var (key, bucket) := snapshot[i];
        var survivors := KeepIn(bucket, key, Fresh(now, ttl));
        EvictStep(snapshot, i, p);
        if |survivors| > 0 {
          entries := Put(entries, key, survivors);
        } else {
          entries := Delete(entries, key);
        }
      }
      assert snapshot[..|snapshot|] == snapshot;
      KeepShape(snapshot, p);
    }

    // The hit ratio, rounded, and the tokens a request would reuse at a site.
    method Score(key: Key, site: Site, promptTokens: nat, now: real) returns (ratio: real, saved: nat)
      requires Valid()
      modifies this
      ensures Valid() && entries == Evict(old(entries), now, ttl)
      ensures ratio == Round4(ScoreOf(old(entries), key, site, promptTokens, now, ttl).0)
      ensures saved == ScoreOf(old(entries), key, site, promptTokens, now, ttl).1
    {
      EvictStale(now);
      var b := Bucket(entries, key);
      var best := 0.0;
      saved := 0;
      ghost var shown, ratioOf := Visible(now), ByRatio(site, now, ttl);
      for i := 0 to |b|
        invariant (best, saved) == ScoreAt(b[..i], BestAt(b[..i], shown, ratioOf), site, promptTokens, now, ttl)
      {
        assert b[..i + 1][..i] == b[..i];
        if b[i].available > now {
          continue;
        }
        var hitRatio := HitRatio(b[i], site, now, ttl);
        if hitRatio > best {
          best, saved := hitRatio, SavedTokens(b[i], promptTokens, hitRatio);
        }
      }
      assert b[..|b|] == b;
      ratio := Round4(best);
    }

    method ReservedGb(site: Site, now: real) returns (total: real)
      requires Valid()
      modifies this
      ensures Valid() && entries == Evict(old(entries), now, ttl)
      ensures total == Reserved(entries, site) && total >= 0.0
    {
      EvictStale(now);
      total := 0.0;
      for i := 0 to |entries|
        invariant Valid() && entries == Evict(old(entries), now, ttl)
        invariant total == Reserved(entries[..i], site)
      {
        var bucket := entries[i].1;
        ghost var before := total;
        for j := 0 to |bucket|
          invariant total == before + ReservedIn(bucket[..j], site)
        {
          assert bucket[..j + 1][..j] == bucket[..j];
          if bucket[j].site == site {
            total := total + bucket[j].sizeGb;
          }
        }
        assert bucket[..|bucket|] == bucket;
        assert entries[..i + 1][..i] == entries[..i];
      }
      assert entries[..|entries|] == entries;
      ReservedNonNegative(entries, site);
    }

    // Takes items off the front of the sorted list until the limit is met.
    method PopLowest(items: seq<Item>)
      requires Valid() && items == SortItems(Items(entries)) && |items| > maxEntries
      modifies this
      ensures entries == RemoveAll(old(entries), items[..|items| - maxEntries])
    {
      ghost var start := entries;
      var total, i := |items|, 0;
      while total > maxEntries && i < |items|
        invariant 0 <= i <= |items| && total == |items| - i && total >= maxEntries
        invariant entries == RemoveAll(start, items[..i])
      {
        var x := items[i];
        PrefixRemovable(start, i);
        var bucket := Bucket(entries, x.key);
        if x.entry in bucket {
          bucket := RemoveFirst(bucket, x.entry);
          total := total - 1;
        }
        if |bucket| == 0 {
          entries := Delete(entries, x.key);
        } else {
          entries := Put(entries, x.key, bucket);
        }
        RemoveNext(start, items, i);
        i := i + 1;
      }
    }

    // Removes the lowest-ranked entries beyond the limit; false stands for the raised TypeError.
    method Trim() returns (ok: bool)
      requires Valid()
      modifies this
      ensures ok <==> !TrimRaises(old(entries), maxEntries)
      ensures entries == if ok then Trimmed(old(entries), maxEntries) else old(entries)
      ensures Valid()
    {
      var items := Items(entries);
      TrimKeepsBest(entries, maxEntries);
      if |items| <= maxEntries {
        assert Victims(entries, maxEntries) == [];
        return true;
      }
      if !Sortable(items) {
        return false;
      }
      PopLowest(SortItems(items));
      return true;
    }

    // The bucket of an observation: the site's entry touched or added, then cut to four.
    method Touch(bucket: seq<Entry>, o: Observation) returns (r: seq<Entry>)
      ensures r == CutToFour(TouchOrAdd(bucket, o))
    {
      var i := 0;
      while i < |bucket| && bucket[i].site != o.site
        invariant 0 <= i <= |bucket| && forall j :: 0 <= j < i ==> bucket[j].site != o.site
      {
        i := i + 1;
      }
      TouchOrAddAt(bucket, o, i);
      var hits := if o.hit then 1 else 0;
      if i < |bucket| {
        var e := bucket[i];
        var tokens := if o.promptTokens > e.sizeTokens then o.promptTokens else e.sizeTokens;
        var touched := Entry(e.site, tokens, Max(e.sizeGb, o.sizeGb), o.completion, o.completion, e.hits + hits);
        assert touched == Touched(e, o);
        r := bucket[i := touched];
      } else {
        var added := Entry(o.site, o.promptTokens, o.sizeGb, o.completion, o.completion, hits);
        assert added == NewEntry(o);
        r := bucket + [added];
      }
      assert r == TouchOrAdd(bucket, o);
      if |r| > 4 {
        r := SortByRank(r)[..4];
      }
    }

    method ObserveResult(o: Observation) returns (ok: bool)
      requires Valid() && o.sizeGb >= 0.0
      modifies this
      ensures Valid() && entries == Update(old(entries), o, maxEntries)
      ensures ok <==> |Items(entries)| <= maxEntries
    {
      ObservedShape(entries, o);
      UpdateShape(entries, o, maxEntries);
      var bucket := Touch(Bucket(entries, o.key), o);
      entries := Put(entries, o.key, bucket);
      ok := Trim();
    }
  }

  lemma RemoveNext(c: Cache, victims: seq<Item>, i: nat)
    requires i < |victims|
    ensures RemoveAll(c, victims[..i + 1]) == RemoveItem(RemoveAll(c, victims[..i]), victims[i])
  {
    assert victims[..i + 1][..i] == victims[..i];
  }

  // Every item of the sorted list is still in its bucket when its turn to be removed comes.
  lemma PrefixRemovable(c: Cache, i: nat)
    requires Shape(c) && i < |SortItems(Items(c))|
    ensures var x := SortItems(Items(c))[i];
            x.entry in Bucket(RemoveAll(c, SortItems(Items(c))[..i]), x.key)
  {
    var s := SortItems(Items(c));
    NextInBag(s, i);
    RemoveAllItems(c, s[..i]);
    var left := RemoveAll(c, s[..i]);
    assert s[i] in multiset(Items(left));
    ItemInBucket(left, s[i]);
  }

  lemma NextInBag(s: seq<Item>, i: nat)
    requires i < |s|
    ensures multiset(s[..i]) <= multiset(s) && s[i] in multiset(s) - multiset(s[..i])
  {
    assert s == s[..i] + s[i..];
  }

  lemma {:induction false} ItemInBucket(c: Cache, x: Item)
    requires UniqueKeys(c) && x in Items(c)
    ensures x.entry in Bucket(c, x.key)
  {
    HeadItem(c, x);
    if c[0].0 != x.key {
      ItemInBucket(c[1..], x);
    }
  }
}
