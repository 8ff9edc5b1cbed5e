// When the directory can outgrow its size limit: how fast it grows, and how few observations
// are enough to make trimming raise.
module CacheLimits {
  import opened Dicts
  import opened CacheModel
  import opened CacheUpdate
  import opened CacheDirectory

  // ----- growth

  // How many entries there are, counted bucket by bucket.
  function TotalEntries(c: Cache): nat {
    if |c| == 0 then 0 else |c[0].1| + TotalEntries(c[1..])
  }

  lemma {:induction false} TotalIsItems(c: Cache)
    ensures TotalEntries(c) == |Items(c)|
  {
    if |c| > 0 {
      BucketItemsAll(c[0].0, c[0].1);
      TotalIsItems(c[1..]);
    }
  }

  lemma {:induction false} TotalPut(c: Cache, k: Key, b: seq<Entry>)
    ensures TotalEntries(Put(c, k, b)) + |Bucket(c, k)| == TotalEntries(c) + |b|
  {
    if |c| > 0 {
      if c[0].0 == k {
        assert Put(c, k, b)[1..] == c[1..];
      } else {
        TotalPut(c[1..], k, b);
        assert Put(c, k, b)[1..] == Put(c[1..], k, b);
      }
    }
  }

  lemma {:induction false} KeepShrinks(c: Cache, p: Item -> bool)
    ensures TotalEntries(Keep(c, p)) <= TotalEntries(c)
  {
    if |c| > 0 {
      KeepShrinks(c[1..], p);
      KeepInSub(c[0].1, c[0].0, p);
      if |KeepIn(c[0].1, c[0].0, p)| > 0 {
        assert Keep(c, p)[1..] == Keep(c[1..], p);
      } else {
        assert Keep(c, p) == Keep(c[1..], p);
      }
    }
  }

  // At most n entries, and no more than the limit.
  predicate Fits(c: Cache, n: nat, maxEntries: nat) {
    TotalEntries(c) <= n && TotalEntries(c) <= maxEntries
  }

  // With room for one more entry, or with a limit of zero, no observation makes trimming raise.
  lemma UpdateFits(c: Cache, o: Observation, n: nat, maxEntries: nat)
    requires Shape(c) && o.sizeGb >= 0.0 && Fits(c, n, maxEntries) && (n < maxEntries || maxEntries == 0)
    ensures !TrimRaises(Observed(c, o), maxEntries)
    ensures Fits(Update(c, o, maxEntries), n + 1, maxEntries)
  {
    TotalPut(c, o.key, CutToFour(TouchOrAdd(Bucket(c, o.key), o)));
    TotalIsItems(Observed(c, o));
    ObservedShape(c, o);
    TrimKeepsBest(Observed(c, o), maxEntries);
    TotalIsItems(Update(c, o, maxEntries));
  }

  // ----- runs of observations and queries

  ghost predicate Sized(accesses: seq<Access>) {
    forall i :: 0 <= i < |accesses| && accesses[i].Observe? ==> accesses[i].o.sizeGb >= 0.0
  }

  // None of the observations makes trimming raise.
  ghost predicate Smooth(accesses: seq<Access>, maxEntries: nat, ttl: real) {
    |accesses| > 0 ==>
      var init, last := accesses[..|accesses| - 1], accesses[|accesses| - 1];
      && Smooth(init, maxEntries, ttl)
      && (last.Observe? ==> !TrimRaises(Observed(AfterAll(init, maxEntries, ttl), last.o), maxEntries))
  }

  lemma {:induction false} FewAreSmooth(accesses: seq<Access>, maxEntries: nat, ttl: real)
    requires Sized(accesses) && (|accesses| <= maxEntries || maxEntries == 0)
    ensures Smooth(accesses, maxEntries, ttl)
    ensures Fits(AfterAll(accesses, maxEntries, ttl), |accesses|, maxEntries)
  {
    if |accesses| > 0 {
      var init, last := accesses[..|accesses| - 1], accesses[|accesses| - 1];
      var before := AfterAll(init, maxEntries, ttl);
      FewAreSmooth(init, maxEntries, ttl);
      AlwaysInShape(init, maxEntries, ttl);
      match last
      case Observe(o) => UpdateFits(before, o, |init|, maxEntries);
      case Query(at) => KeepShrinks(before, Fresh(at, ttl));
    }
  }

  // ----- one observation too many

  // The directory after one first observation of each of the keys below n.
  function Row(o: nat -> Observation, n: nat): Cache {
    seq(n, k requires 0 <= k < n => (k, [NewEntry(o(k))]))
  }

  ghost predicate OnePerKey(o: nat -> Observation) {
    forall k :: o(k).key == k
  }

  lemma RowLacks(o: nat -> Observation, n: nat)
    ensures !Has(Row(o, n), n) && Bucket(Row(o, n), n) == []
  {
    HasAt(Row(o, n), n);
    BucketAbsent(Row(o, n), n);
  }

  lemma NothingToTrim(c: Cache, maxEntries: nat)
    requires |Items(c)| <= maxEntries
    ensures Trimmed(c, maxEntries) == c
  {
  }

  lemma NextKey(o: nat -> Observation, n: nat)
    requires OnePerKey(o)
    ensures Observed(Row(o, n), o(n)) == Row(o, n + 1) == Put(Row(o, n), n, [NewEntry(o(n))])
  {
    var b := [NewEntry(o(n))];
    RowLacks(o, n);
    PutBeyond(Row(o, n), [], n, b);
    assert Row(o, n) + [] == Row(o, n);
    assert Row(o, n + 1) == Row(o, n) + [(n, b)];
  }

  lemma {:induction false} RowTotal(o: nat -> Observation, n: nat)
    requires OnePerKey(o)
    ensures TotalEntries(Row(o, n)) == n
  {
    if n > 0 {
      RowTotal(o, n - 1);
      NextKey(o, n - 1);
      RowLacks(o, n - 1);
      TotalPut(Row(o, n - 1), n - 1, [NewEntry(o(n - 1))]);
    }
  }

  lemma NextKeyFits(o: nat -> Observation, n: nat, maxEntries: nat)
    requires OnePerKey(o) && n < maxEntries
    ensures Update(Row(o, n), o(n), maxEntries) == Row(o, n + 1)
    ensures !TrimRaises(Observed(Row(o, n), o(n)), maxEntries)
  {
    NextKey(o, n);
    RowTotal(o, n + 1);
    TotalIsItems(Row(o, n + 1));
    NothingToTrim(Row(o, n + 1), maxEntries);
  }

  // With as many keys as the limit allows, a second entry of the first key that ties with its
  // first one makes trimming sort two entries it cannot order.
  lemma TieRaises(o: nat -> Observation, last: Observation, n: nat)
    requires OnePerKey(o) && n > 0 && last.key == 0 && last.site != o(0).site
    requires last.completion == o(0).completion && last.hit == o(0).hit
    ensures TrimRaises(Observed(Row(o, n), last), n)
  {
    var first, second := NewEntry(o(0)), NewEntry(last);
    var seen := Observed(Row(o, n), last);
    assert Bucket(Row(o, n), 0) == [first];
    assert TouchOrAdd([first], last) == [first, second];
    assert seen == [(0, [first, second])] + Row(o, n)[1..];
    RowTotal(o, n);
    TotalPut(Row(o, n), 0, [first, second]);
    TotalIsItems(seen);
    BucketItemsAll(0, [first, second]);
    assert Items(seen)[0] == Item(0, first) && Items(seen)[1] == Item(0, second);
    assert Tie(Items(seen)[0], Items(seen)[1]);
  }

  function PlainObservation(poolId: string): nat -> Observation {
    (k: nat) => Observation(k, Site("c", poolId), 1, 0.0, 0.0, false)
  }

  function FirstKeys(n: nat): seq<Access> {
    seq(n, k requires 0 <= k < n => Observe(PlainObservation("p")(k)))
  }

  lemma {:induction false} FirstKeysGiveRow(n: nat, maxEntries: nat, ttl: real)
    requires n <= maxEntries
    ensures AfterAll(FirstKeys(n), maxEntries, ttl) == Row(PlainObservation("p"), n)
  {
    if n > 0 {
      FirstKeysGiveRow(n - 1, maxEntries, ttl);
      assert FirstKeys(n)[..n - 1] == FirstKeys(n - 1);
      NextKeyFits(PlainObservation("p"), n - 1, maxEntries);
    }
  }

  // Runs of n accesses never make trimming raise if and only if n does not exceed the size
  // limit; a limit of zero keeps the directory empty and never raises either.
  lemma NeverRaisesIffFew(n: nat, maxEntries: nat, ttl: real)
    ensures (forall accesses :: Sized(accesses) && |accesses| <= n ==> Smooth(accesses, maxEntries, ttl))
       <==> n <= maxEntries || maxEntries == 0
  {
    if n <= maxEntries || maxEntries == 0 {
      forall accesses | Sized(accesses) && |accesses| <= n ensures Smooth(accesses, maxEntries, ttl) {
        FewAreSmooth(accesses, maxEntries, ttl);
      }
    } else {
      var accesses := FirstKeys(maxEntries) + [Observe(PlainObservation("q")(0))];
      assert accesses[..maxEntries] == FirstKeys(maxEntries);
      FirstKeysGiveRow(maxEntries, maxEntries, ttl);
      TieRaises(PlainObservation("p"), PlainObservation("q")(0), maxEntries);
      assert Sized(accesses) && !Smooth(accesses, maxEntries, ttl);
    }
  }
}
