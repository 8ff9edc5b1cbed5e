// What an observation does to the directory: touch or add an entry, cut the bucket to four,
// then trim the whole directory to its size limit.
module CacheUpdate {
  import opened Numbers
  import opened Dicts
  import opened CacheModel

  // ----- rank: hits first, then the time of the last completion

  predicate RankLe(a: Entry, b: Entry) {
    a.hits < b.hits || (a.hits == b.hits && a.touched <= b.touched)
  }

  // Stable sort, highest rank first.
  function InsertByRank(e: Entry, sorted: seq<Entry>): (r: seq<Entry>)
    ensures multiset(r) == multiset{e} + multiset(sorted)
  {
    if |sorted| == 0 then [e]
    else if RankLe(sorted[0], e) then [e] + sorted
    else
      assert sorted == [sorted[0]] + sorted[1..];
      [sorted[0]] + InsertByRank(e, sorted[1..])
  }

  function SortByRank(b: seq<Entry>): (r: seq<Entry>)
    ensures multiset(r) == multiset(b)
    ensures |r| == |b|
  {
    if |b| == 0 then []
    else
      assert b == [b[0]] + b[1..];
      var r := InsertByRank(b[0], SortByRank(b[1..]));
      assert |r| == |multiset(r)| == |multiset(b)|;
      r
  }

  ghost predicate Descending(b: seq<Entry>) {
    forall i, j :: 0 <= i < j < |b| ==> RankLe(b[j], b[i])
  }

  lemma {:induction false} InsertKeepsDescending(e: Entry, sorted: seq<Entry>)
    requires Descending(sorted)
    ensures Descending(InsertByRank(e, sorted))
  {
    if |sorted| > 0 && !RankLe(sorted[0], e) {
      InsertKeepsDescending(e, sorted[1..]);
      var r := InsertByRank(e, sorted[1..]);
      forall j | 0 <= j < |r| ensures RankLe(r[j], sorted[0]) {
        assert r[j] in multiset(r);
        assert r[j] == e || r[j] in sorted[1..];
      }
    }
  }

  lemma {:induction false} SortDescends(b: seq<Entry>)
    ensures Descending(SortByRank(b))
  {
    if |b| > 0 {
      SortDescends(b[1..]);
      InsertKeepsDescending(b[0], SortByRank(b[1..]));
    }
  }

  // ----- one bucket

  datatype Observation = Observation(
    key: Key, site: Site, promptTokens: nat, sizeGb: real, completion: real, hit: bool)

  function Bump(hit: bool): nat {
    if hit then 1 else 0
  }

  function NewEntry(o: Observation): Entry {
    Entry(o.site, o.promptTokens, o.sizeGb, o.completion, o.completion, Bump(o.hit))
  }

  function Touched(e: Entry, o: Observation): Entry {
    Entry(e.site, if e.sizeTokens < o.promptTokens then o.promptTokens else e.sizeTokens,
          Max(e.sizeGb, o.sizeGb), o.completion, o.completion, e.hits + Bump(o.hit))
  }

  // The first entry of the site is touched in place; without one, a new entry goes to the end.
  function TouchOrAdd(b: seq<Entry>, o: Observation): (r: seq<Entry>)
    ensures |r| <= |b| + 1
  {
    if |b| == 0 then [NewEntry(o)]
    else if b[0].site == o.site then [Touched(b[0], o)] + b[1..]
    else [b[0]] + TouchOrAdd(b[1..], o)
  }

  function CutToFour(b: seq<Entry>): (r: seq<Entry>)
    ensures |r| <= 4
  {
    if |b| > 4 then SortByRank(b)[..4] else b
  }

  function Observed(c: Cache, o: Observation): Cache {
    Put(c, o.key, CutToFour(TouchOrAdd(Bucket(c, o.key), o)))
  }

  lemma {:induction false} TouchKeeps(b: seq<Entry>, o: Observation)
    requires DistinctSites(b) && o.sizeGb >= 0.0 && forall i :: 0 <= i < |b| ==> WellDated(b[i])
    ensures var r := TouchOrAdd(b, o);
            && |r| > 0 && DistinctSites(r)
            && (forall i :: 0 <= i < |r| ==> WellDated(r[i]))
            && (forall i :: 0 <= i < |r| ==> r[i].site == o.site || r[i] in b)
            && (forall i :: 0 <= i < |b| && b[i].site != o.site ==> b[i] in r)
            && exists i :: 0 <= i < |r| && r[i].site == o.site && r[i].touched == o.completion
  {
    var r := TouchOrAdd(b, o);
    if |b| == 0 {
      assert r[0].site == o.site && r[0].touched == o.completion;
    } else if b[0].site == o.site {
      assert r[0].site == o.site && r[0].touched == o.completion;
    } else {
      TouchKeeps(b[1..], o);
      var rest := TouchOrAdd(b[1..], o);
      assert r == [b[0]] + rest;
      var i :| 0 <= i < |rest| && rest[i].site == o.site && rest[i].touched == o.completion;
      assert r[i + 1] == rest[i];
      forall j | 0 <= j < |rest| ensures rest[j].site != b[0].site {
        if rest[j].site != o.site {
          assert rest[j] in b[1..];
        }
      }
    }
  }

  // Sites that are distinct stay distinct in any order.
  lemma DistinctPermuted(a: seq<Entry>, b: seq<Entry>)
    requires DistinctSites(a) && multiset(a) == multiset(b)
    ensures DistinctSites(b)
  {
    forall i, j | 0 <= i < j < |b| ensures b[i].site != b[j].site {
      if b[i] == b[j] {
        DistinctOnce(a, b[i]);
        TwiceInMultiset(b, i, j);
      } else {
        assert b[i] in multiset(a) && b[j] in multiset(a);
        var x :| 0 <= x < |a| && a[x] == b[i];
        var y :| 0 <= y < |a| && a[y] == b[j];
      }
    }
  }

  lemma {:induction false} DistinctOnce(a: seq<Entry>, e: Entry)
    requires DistinctSites(a)
    ensures multiset(a)[e] <= 1
  {
    if |a| > 0 {
      assert a == [a[0]] + a[1..];
      DistinctOnce(a[1..], e);
      if a[0] == e {
        assert e !in a[1..];
      }
    }
  }

  lemma TwiceInMultiset(b: seq<Entry>, i: nat, j: nat)
    requires i < j < |b| && b[i] == b[j]
    ensures multiset(b)[b[i]] >= 2
  {
    assert b == b[..j] + [b[j]] + b[j + 1..];
    assert b[i] in b[..j];
  }

  // Cutting removes only entries that rank no higher than every entry it keeps.
  lemma CutKeepsBest(b: seq<Entry>)
    requires 0 < |b| <= 5 && DistinctSites(b) && forall i :: 0 <= i < |b| ==> WellDated(b[i])
    ensures GoodBucket(CutToFour(b))
    ensures forall e :: e in CutToFour(b) ==> e in b
    ensures forall e, f :: e in b && e !in CutToFour(b) && f in CutToFour(b) ==> RankLe(e, f)
  {
    if |b| > 4 {
      var s := SortByRank(b);
      SortDescends(b);
      DistinctPermuted(b, s);
      forall i | 0 <= i < |s| ensures s[i] in b {
        assert s[i] in multiset(s);
      }
      forall e, f | e in b && e !in s[..4] && f in s[..4] ensures RankLe(e, f) {
        assert e in multiset(s) && s == s[..4] + s[4..];
        var x :| 0 <= x < |s[4..]| && s[4..][x] == e;
        var y :| 0 <= y < |s[..4]| && s[..4][y] == f;
      }
    }
  }

  lemma ObservedShape(c: Cache, o: Observation)
    requires Shape(c) && o.sizeGb >= 0.0
    ensures Shape(Observed(c, o))
  {
    BucketGood(c, o.key);
    TouchKeeps(Bucket(c, o.key), o);
    var b := CutToFour(TouchOrAdd(Bucket(c, o.key), o));
    CutKeepsBest(TouchOrAdd(Bucket(c, o.key), o));
    PutUnique(c, o.key, b);
    var r := Put(c, o.key, b);
    forall i | 0 <= i < |r| ensures GoodBucket(r[i].1) {
      if r[i] != (o.key, b) {
        var j :| 0 <= j < |c| && c[j] == r[i];
      }
    }
  }

  // ----- the whole directory

  function BucketItems(k: Key, b: seq<Entry>): seq<Item> {
    if |b| == 0 then [] else BucketItems(k, b[..|b| - 1]) + [Item(k, b[|b| - 1])]
  }

  function Items(c: Cache): seq<Item> {
    if |c| == 0 then [] else BucketItems(c[0].0, c[0].1) + Items(c[1..])
  }

  // Trimming order: rank, then key.  Two entries of one key that tie on rank are not ordered.
  predicate ItemLt(a: Item, b: Item) {
    || a.entry.hits < b.entry.hits
    || (a.entry.hits == b.entry.hits && a.entry.touched < b.entry.touched)
    || (a.entry.hits == b.entry.hits && a.entry.touched == b.entry.touched && a.key < b.key)
  }

  predicate Tie(a: Item, b: Item) {
    a.entry.hits == b.entry.hits && a.entry.touched == b.entry.touched && a.key == b.key
  }

  // Python's sort of these tuples raises exactly when it meets such a tie.
  predicate Sortable(items: seq<Item>) {
    forall i, j :: 0 <= i < j < |items| ==> !Tie(items[i], items[j])
  }

  function InsertItem(x: Item, sorted: seq<Item>): (r: seq<Item>)
    ensures multiset(r) == multiset{x} + multiset(sorted)
  {
    if |sorted| == 0 then [x]
    else if ItemLt(sorted[0], x) then
      assert sorted == [sorted[0]] + sorted[1..];
      [sorted[0]] + InsertItem(x, sorted[1..])
    else [x] + sorted
  }

  function SortItems(items: seq<Item>): (r: seq<Item>)
    ensures multiset(r) == multiset(items)
    ensures |r| == |items|
  {
    if |items| == 0 then []
    else
      assert items == [items[0]] + items[1..];
      var r := InsertItem(items[0], SortItems(items[1..]));
      assert |r| == |multiset(r)| == |multiset(items)|;
      r
  }

  ghost predicate Ascending(items: seq<Item>) {
    forall i, j :: 0 <= i < j < |items| ==> !ItemLt(items[j], items[i])
  }

  lemma {:induction false} InsertKeepsAscending(x: Item, sorted: seq<Item>)
    requires Ascending(sorted)
    ensures Ascending(InsertItem(x, sorted))
  {
    if |sorted| > 0 {
      if ItemLt(sorted[0], x) {
        InsertKeepsAscending(x, sorted[1..]);
        var r := InsertItem(x, sorted[1..]);
        forall j | 0 <= j < |r| ensures !ItemLt(r[j], sorted[0]) {
          assert r[j] in multiset(r);
          assert r[j] == x || r[j] in sorted[1..];
        }
      } else {
        forall j | 0 <= j < |sorted| ensures !ItemLt(sorted[j], x) {
          assert !ItemLt(sorted[j], sorted[0]) || j == 0;
        }
      }
    }
  }

  lemma {:induction false} SortAscends(items: seq<Item>)
    ensures Ascending(SortItems(items))
  {
    if |items| > 0 {
      SortAscends(items[1..]);
      InsertKeepsAscending(items[0], SortItems(items[1..]));
    }
  }

  // bucket.remove(victim)
  function RemoveFirst(b: seq<Entry>, e: Entry): seq<Entry> {
    if |b| == 0 then [] else if b[0] == e then b[1..] else [b[0]] + RemoveFirst(b[1..], e)
  }

  // Takes one victim out of its bucket, and the bucket out of the directory if it is then empty.
  function RemoveItem(c: Cache, x: Item): Cache {
    var left := RemoveFirst(Bucket(c, x.key), x.entry);
    if |left| == 0 then Delete(c, x.key) else Put(c, x.key, left)
  }

  function RemoveAll(c: Cache, victims: seq<Item>): Cache {
    if |victims| == 0 then c else RemoveItem(RemoveAll(c, victims[..|victims| - 1]), victims[|victims| - 1])
  }

  // The lowest-ranked items beyond the size limit.
  function Victims(c: Cache, maxEntries: nat): (r: seq<Item>)
    ensures |r| == if |Items(c)| <= maxEntries then 0 else |Items(c)| - maxEntries
  {
    SortItems(Items(c))[..if |Items(c)| <= maxEntries then 0 else |Items(c)| - maxEntries]
  }

  function Trimmed(c: Cache, maxEntries: nat): Cache {
    RemoveAll(c, Victims(c, maxEntries))
  }

  function Except(victims: seq<Item>): Item -> bool {
    (x: Item) => x !in victims
  }

  lemma {:induction false} RemoveFirstIsKeep(b: seq<Entry>, k: Key, e: Entry)
    requires DistinctSites(b)
    ensures RemoveFirst(b, e) == KeepIn(b, k, Except([Item(k, e)]))
  {
    if |b| > 0 {
      KeepInFront(b, k, Except([Item(k, e)]));
      if b[0] == e {
        forall i | 0 <= i < |b[1..]| ensures b[1..][i] != e {
          assert b[i + 1].site != b[0].site;
        }
        KeepInAll(b[1..], k, Except([Item(k, e)]));
      } else {
        RemoveFirstIsKeep(b[1..], k, e);
      }
    }
  }

  lemma {:induction false} KeepInFront(b: seq<Entry>, k: Key, p: Item -> bool)
    requires |b| > 0
    ensures KeepIn(b, k, p) == (if p(Item(k, b[0])) then [b[0]] else []) + KeepIn(b[1..], k, p)
  {
    var n := |b| - 1;
    if n > 0 {
      KeepInFront(b[..n], k, p);
      assert b[1..][..n - 1] == b[..n][1..] && b[1..][n - 1] == b[n];
    }
  }

  lemma {:induction false} KeepInAll(b: seq<Entry>, k: Key, p: Item -> bool)
    requires forall i :: 0 <= i < |b| ==> p(Item(k, b[i]))
    ensures KeepIn(b, k, p) == b
  {
    if |b| > 0 {
      KeepInAll(b[..|b| - 1], k, p);
    }
  }

  // A predicate that holds of every other key leaves their buckets alone.
  lemma {:induction false} KeepOthers(c: Cache, k: Key, p: Item -> bool)
    requires forall i :: 0 <= i < |c| ==> c[i].0 != k && |c[i].1| > 0
    requires forall x: Item :: x.key != k ==> p(x)
    ensures Keep(c, p) == c
  {
    if |c| > 0 {
      KeepInAll(c[0].1, c[0].0, p);
      KeepOthers(c[1..], k, p);
    }
  }

  lemma {:induction false} RemoveItemIsKeep(c: Cache, x: Item)
    requires Shape(c) && Has(c, x.key)
    ensures RemoveItem(c, x) == Keep(c, Except([x]))
  {
    var p := Except([x]);
    if c[0].0 == x.key {
      RemoveFirstIsKeep(c[0].1, x.key, x.entry);
      KeepOthers(c[1..], x.key, p);
    } else {
      KeepInAll(c[0].1, c[0].0, p);
      RemoveItemIsKeep(c[1..], x);
    }
  }

  lemma {:induction false} BucketItemsAll(k: Key, b: seq<Entry>)
    ensures |BucketItems(k, b)| == |b|
    ensures forall i :: 0 <= i < |b| ==> BucketItems(k, b)[i] == Item(k, b[i])
  {
    if |b| > 0 {
      BucketItemsAll(k, b[..|b| - 1]);
    }
  }

  lemma {:induction false} ItemsKeys(c: Cache, x: Item)
    requires x in Items(c)
    ensures Has(c, x.key)
  {
    var here := BucketItems(c[0].0, c[0].1);
    BucketItemsAll(c[0].0, c[0].1);
    if x !in here {
      ItemsKeys(c[1..], x);
    }
  }

  lemma {:induction false} RemoveFirstItems(k: Key, b: seq<Entry>, e: Entry)
    requires e in b
    ensures multiset(RemoveFirst(b, e)) == multiset(b) - multiset{e}
  {
    assert b == [b[0]] + b[1..];
    if b[0] != e {
      RemoveFirstItems(k, b[1..], e);
    }
  }

  lemma {:induction false} BucketItemsBag(k: Key, b: seq<Entry>, x: Item)
    ensures multiset(BucketItems(k, b))[x] == if x.key == k then multiset(b)[x.entry] else 0
  {
    if |b| > 0 {
      BucketItemsBag(k, b[..|b| - 1], x);
      assert b == b[..|b| - 1] + [b[|b| - 1]];
    }
  }

  lemma BucketLosesOne(k: Key, b: seq<Entry>, e: Entry)
    requires e in b
    ensures multiset(BucketItems(k, RemoveFirst(b, e))) == multiset(BucketItems(k, b)) - multiset{Item(k, e)}
  {
    var left := multiset(BucketItems(k, RemoveFirst(b, e)));
    var want := multiset(BucketItems(k, b)) - multiset{Item(k, e)};
    forall x ensures left[x] == want[x] {
      OneItemLost(k, b, e, x);
    }
  }

  lemma OneItemLost(k: Key, b: seq<Entry>, e: Entry, x: Item)
    requires e in b
    ensures multiset(BucketItems(k, RemoveFirst(b, e)))[x] + (if x == Item(k, e) then 1 else 0)
         == multiset(BucketItems(k, b))[x]
  {
    RemoveFirstItems(k, b, e);
    BucketItemsBag(k, b, x);
    BucketItemsBag(k, RemoveFirst(b, e), x);
  }

  lemma RemoveFromHead(c: Cache, x: Item)
    requires |c| > 0 && c[0].0 == x.key
    ensures Items(RemoveItem(c, x)) == BucketItems(x.key, RemoveFirst(c[0].1, x.entry)) + Items(c[1..])
  {
    var left := RemoveFirst(c[0].1, x.entry);
    if |left| > 0 {
      assert RemoveItem(c, x) == [(x.key, left)] + c[1..];
    } else {
      assert RemoveItem(c, x) == c[1..];
    }
  }

  lemma RemoveFromTail(c: Cache, x: Item)
    requires |c| > 0 && c[0].0 != x.key
    ensures Items(RemoveItem(c, x)) == BucketItems(c[0].0, c[0].1) + Items(RemoveItem(c[1..], x))
  {
    assert RemoveItem(c, x) == [c[0]] + RemoveItem(c[1..], x);
  }

  lemma HeadItem(c: Cache, x: Item)
    requires UniqueKeys(c) && x in Items(c)
    ensures if c[0].0 == x.key then x.entry in c[0].1 else x in Items(c[1..])
  {
    BucketItemsAll(c[0].0, c[0].1);
    if x in Items(c[1..]) {
      ItemsKeys(c[1..], x);
      HasAt(c[1..], x.key);
    }
  }

  lemma BagMinus(a: seq<Item>, a': seq<Item>, b: seq<Item>, x: Item)
    requires x in a && multiset(a') == multiset(a) - multiset{x}
    ensures multiset(a' + b) == multiset(a + b) - multiset{x}
    ensures multiset(b + a') == multiset(b + a) - multiset{x}
  {
  }

  // Removing an item removes exactly that item.
  lemma {:induction false} RemoveItemItems(c: Cache, x: Item)
    requires UniqueKeys(c) && x in Items(c)
    ensures multiset(Items(RemoveItem(c, x))) == multiset(Items(c)) - multiset{x}
  {
    HeadItem(c, x);
    if c[0].0 == x.key {
      var b := c[0].1;
      RemoveFromHead(c, x);
      BucketLosesOne(x.key, b, x.entry);
      BucketItemsBag(x.key, b, x);
      BagMinus(BucketItems(x.key, b), BucketItems(x.key, RemoveFirst(b, x.entry)), Items(c[1..]), x);
    } else {
      RemoveFromTail(c, x);
      RemoveItemItems(c[1..], x);
      BagMinus(Items(c[1..]), Items(RemoveItem(c[1..], x)), BucketItems(c[0].0, c[0].1), x);
    }
  }

  lemma LastInBag(victims: seq<Item>, bag: multiset<Item>)
    requires |victims| > 0 && multiset(victims) <= bag
    ensures var init, v := victims[..|victims| - 1], victims[|victims| - 1];
            && multiset(victims) == multiset(init) + multiset{v} && multiset(init) <= bag
            && v in bag - multiset(init) && bag - multiset(init) - multiset{v} == bag - multiset(victims)
  {
    assert victims == victims[..|victims| - 1] + [victims[|victims| - 1]];
  }

  lemma {:induction false} RemoveAllItems(c: Cache, victims: seq<Item>)
    requires Shape(c) && multiset(victims) <= multiset(Items(c))
    ensures Shape(RemoveAll(c, victims)) && RemoveAll(c, victims) == Keep(c, Except(victims))
    ensures multiset(Items(RemoveAll(c, victims))) == multiset(Items(c)) - multiset(victims)
  {
    if |victims| == 0 {
      KeepEverything(c, Except(victims));
    } else {
      var init, v := victims[..|victims| - 1], victims[|victims| - 1];
      LastInBag(victims, multiset(Items(c)));
      RemoveAllItems(c, init);
      var before := RemoveAll(c, init);
      assert v in multiset(Items(before));
      ItemsKeys(before, v);
      RemoveItemItems(before, v);
      RemoveItemIsKeep(before, v);
      KeepTwice(c, Except(init), Except([v]), Except(victims));
      KeepShape(c, Except(victims));
    }
  }

  lemma {:induction false} KeepEverything(c: Cache, p: Item -> bool)
    requires (forall i :: 0 <= i < |c| ==> |c[i].1| > 0) && forall x :: p(x)
    ensures Keep(c, p) == c
  {
    if |c| > 0 {
      KeepInAll(c[0].1, c[0].0, p);
      KeepEverything(c[1..], p);
    }
  }

  lemma TrimmedItems(c: Cache, maxEntries: nat)
    requires Shape(c)
    ensures var n := |Victims(c, maxEntries)|;
            multiset(Items(Trimmed(c, maxEntries))) == multiset(SortItems(Items(c))[n..])
    ensures multiset(Items(Trimmed(c, maxEntries))) == multiset(Items(c)) - multiset(Victims(c, maxEntries))
    ensures Shape(Trimmed(c, maxEntries))
    ensures Trimmed(c, maxEntries) == Keep(c, Except(Victims(c, maxEntries)))
  {
    var s, v := SortItems(Items(c)), Victims(c, maxEntries);
    assert s == v + s[|v|..];
    RemoveAllItems(c, v);
  }

  lemma SameSize(a: seq<Item>, b: seq<Item>)
    requires multiset(a) == multiset(b)
    ensures |a| == |b|
  {
    assert |a| == |multiset(a)| == |multiset(b)| == |b|;
  }

  lemma SplitRanks(s: seq<Item>, n: nat, x: Item, y: Item)
    requires Ascending(s) && n <= |s| && x in s[..n] && y in s[n..]
    ensures RankLe(x.entry, y.entry)
  {
    var i :| 0 <= i < n && s[i] == x;
    var j :| 0 <= j < |s[n..]| && s[n..][j] == y;
    assert !ItemLt(s[n + j], s[i]);
  }

  // Trimming leaves at most the limit, in place, and drops only items that rank no higher than
  // every item left.
  lemma TrimKeepsBest(c: Cache, maxEntries: nat)
    requires Shape(c)
    ensures Shape(Trimmed(c, maxEntries))
    ensures Trimmed(c, maxEntries) == Keep(c, Except(Victims(c, maxEntries)))
    ensures |Items(Trimmed(c, maxEntries))| == MinNat(|Items(c)|, maxEntries)
    ensures multiset(Items(Trimmed(c, maxEntries))) == multiset(Items(c)) - multiset(Victims(c, maxEntries))
    ensures forall x, y :: x in Victims(c, maxEntries) && y in Items(Trimmed(c, maxEntries)) ==>
              RankLe(x.entry, y.entry)
  {
    var s, v, left := SortItems(Items(c)), Victims(c, maxEntries), Items(Trimmed(c, maxEntries));
    TrimmedItems(c, maxEntries);
    SameSize(left, s[|v|..]);
    SortAscends(Items(c));
    forall x, y | x in v && y in left ensures RankLe(x.entry, y.entry) {
      assert y in multiset(left);
      SplitRanks(s, |v|, x, y);
    }
  }
}
