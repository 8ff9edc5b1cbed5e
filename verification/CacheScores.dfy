// What a query of the directory answers, in terms of the fields of the entries alone.
module CacheScores {
  import opened Numbers
  import opened CacheModel

  // An entry fades from 1 at its last completion, in proportion to its age, to a tenth.
  ghost predicate Faded(e: Entry, now: real, ttl: real, f: real) {
    && f >= 0.1 && f * ttl >= ttl - (now - e.touched)
    && (f == 0.1 || f * ttl == ttl - (now - e.touched))
  }

  // All of that counts on the pool that holds it, 70% in its cluster, 35% anywhere else.
  ghost predicate Located(e: Entry, site: Site, f: real, x: real) {
    && (site == e.site ==> x == f)
    && (site != e.site && site.clusterId == e.site.clusterId ==> x == 0.7 * f)
    && (site.clusterId != e.site.clusterId ==> x == 0.35 * f)
  }

  // No ratio exceeds 95%.
  ghost predicate Offers(e: Entry, site: Site, now: real, ttl: real, ratio: real) {
    exists f, x :: Faded(e, now, ttl, f) && Located(e, site, f, x) && ratio <= 0.95 && ratio <= x && (ratio == 0.95 || ratio == x)
  }

  // The tokens saved are that share of what entry and prompt have in common, cut to a whole number.
  ghost predicate Saves(e: Entry, promptTokens: nat, ratio: real, saved: nat) {
    var shared := if e.sizeTokens < promptTokens then e.sizeTokens else promptTokens;
    saved as real <= shared as real * ratio < saved as real + 1.0
  }

  lemma Offered(e: Entry, site: Site, now: real, ttl: real)
    requires ttl > 0.0
    ensures Offers(e, site, now, ttl, HitRatio(e, site, now, ttl))
  {
    var f := Freshness(e, now, ttl);
    var age := now - e.touched;
    FadesBy(age, ttl, f);
    var x := f * LocationBonus(e, site);
    assert Faded(e, now, ttl, f) && Located(e, site, f, x);
  }

  lemma FadesBy(age: real, ttl: real, f: real)
    requires ttl > 0.0 && f == Max(0.1, 1.0 - age / ttl)
    ensures f * ttl >= ttl - age && (f == 0.1 || f * ttl == ttl - age)
  {
    var y := 1.0 - age / ttl;
    assert y * ttl == ttl - age;
    ProductMonotone(ttl, y, f);
  }

  lemma SavedOf(e: Entry, promptTokens: nat, ratio: real)
    requires 0.0 <= ratio <= 0.95
    ensures Saves(e, promptTokens, ratio, SavedTokens(e, promptTokens, ratio))
  {
    var shared := MinNat(e.sizeTokens, promptTokens);
    assert SavedTokens(e, promptTokens, ratio) == Share(shared, ratio);
    ShareIs(shared, ratio);
  }

  lemma ShareIs(tokens: nat, ratio: real)
    requires 0.0 <= ratio <= 0.95
    ensures Share(tokens, ratio) as real <= tokens as real * ratio < Share(tokens, ratio) as real + 1.0
  {
    ProductSign(tokens as real, ratio);
  }

  // One entry offers one ratio.
  lemma OfferUnique(e: Entry, site: Site, now: real, ttl: real, a: real, b: real)
    requires ttl > 0.0 && Offers(e, site, now, ttl, a) && Offers(e, site, now, ttl, b)
    ensures a == b
  {
    var f, x :| Faded(e, now, ttl, f) && Located(e, site, f, x) && a <= 0.95 && a <= x && (a == 0.95 || a == x);
    var g, y :| Faded(e, now, ttl, g) && Located(e, site, g, y) && b <= 0.95 && b <= y && (b == 0.95 || b == y);
    FadedUnique(e, now, ttl, f, g);
  }

  lemma FadedUnique(e: Entry, now: real, ttl: real, f: real, g: real)
    requires ttl > 0.0 && Faded(e, now, ttl, f) && Faded(e, now, ttl, g)
    ensures f == g
  {
    if f < g {
      LessFaded(ttl, f, g);
    } else if g < f {
      LessFaded(ttl, g, f);
    }
  }

  lemma LessFaded(ttl: real, f: real, g: real)
    requires ttl > 0.0 && f < g
    ensures f * ttl < g * ttl
  {
    ProductSign(ttl, g - f);
    assert ttl * (g - f) == g * ttl - f * ttl;
  }

  // The answer of a query: nothing, if no entry of the key has its last completion within the
  // time to live; otherwise the best offer of those that have, and what its entry saves.
  ghost predicate Answers(b: seq<Entry>, site: Site, promptTokens: nat, now: real, ttl: real, score: (real, nat)) {
    if forall i :: 0 <= i < |b| ==> !(now - ttl <= b[i].touched <= now) then score == (0.0, 0)
    else
      && (exists i :: 0 <= i < |b| && now - ttl <= b[i].touched <= now
            && Offers(b[i], site, now, ttl, score.0) && Saves(b[i], promptTokens, score.0, score.1))
      && (forall i, ratio :: 0 <= i < |b| && now - ttl <= b[i].touched <= now && Offers(b[i], site, now, ttl, ratio) ==>
            ratio <= score.0)
  }

  lemma ScoreAnswers(c: Cache, k: Key, site: Site, promptTokens: nat, now: real, ttl: real)
    requires Shape(c) && ttl > 0.0
    ensures Answers(Bucket(c, k), site, promptTokens, now, ttl, ScoreOf(c, k, site, promptTokens, now, ttl))
  {
    ScoreIsFirstBest(c, k, site, promptTokens, now, ttl);
    var b, score := Bucket(c, k), ScoreOf(c, k, site, promptTokens, now, ttl);
    var i :| -1 <= i < |b| && FirstBest(b, InWindow(now, ttl), ByRatio(site, now, ttl), i)
             && score == ScoreAt(b, i, site, promptTokens, now, ttl);
    if i < 0 {
      assert forall j :: 0 <= j < |b| ==> !InWindow(now, ttl)(b[j]);
    } else {
      assert InWindow(now, ttl)(b[i]);
      Offered(b[i], site, now, ttl);
      SavedOf(b[i], promptTokens, score.0);
      forall j, ratio | 0 <= j < |b| && now - ttl <= b[j].touched <= now && Offers(b[j], site, now, ttl, ratio)
        ensures ratio <= score.0
      {
        assert InWindow(now, ttl)(b[j]);
        Offered(b[j], site, now, ttl);
        OfferUnique(b[j], site, now, ttl, ratio, HitRatio(b[j], site, now, ttl));
        assert ByRatio(site, now, ttl)(b[j]) <= ByRatio(site, now, ttl)(b[i]);
      }
    }
  }

  // ----- what follows

  // As an entry ages, its offer never rises.
  lemma OlderOffersNoMore(e: Entry, site: Site, earlier: real, now: real, ttl: real)
    requires ttl > 0.0 && earlier <= now
    ensures HitRatio(e, site, now, ttl) <= HitRatio(e, site, earlier, ttl)
  {
    var f, g := Freshness(e, now, ttl), Freshness(e, earlier, ttl);
    FadesBy(now - e.touched, ttl, f);
    FadesBy(earlier - e.touched, ttl, g);
    if f > g {
      ProductSign(ttl, f - g);
    }
    ProductMonotone(LocationBonus(e, site), f, g);
  }

  // Nor does an answer, as long as nothing new becomes visible.
  lemma ScoreFades(c: Cache, k: Key, site: Site, promptTokens: nat, earlier: real, now: real, ttl: real)
    requires Shape(c) && ttl > 0.0 && earlier <= now
    requires forall i :: 0 <= i < |Bucket(c, k)| ==> Bucket(c, k)[i].touched <= earlier || Bucket(c, k)[i].touched > now
    ensures ScoreOf(c, k, site, promptTokens, now, ttl).0 <= ScoreOf(c, k, site, promptTokens, earlier, ttl).0
  {
    var b := Bucket(c, k);
    var before, after := ScoreOf(c, k, site, promptTokens, earlier, ttl), ScoreOf(c, k, site, promptTokens, now, ttl);
    ScoreAnswers(c, k, site, promptTokens, earlier, ttl);
    ScoreAnswers(c, k, site, promptTokens, now, ttl);
    if i :| 0 <= i < |b| && now - ttl <= b[i].touched <= now && Offers(b[i], site, now, ttl, after.0) {
      assert earlier - ttl <= b[i].touched <= earlier;
      Offered(b[i], site, now, ttl);
      Offered(b[i], site, earlier, ttl);
      OfferUnique(b[i], site, now, ttl, after.0, HitRatio(b[i], site, now, ttl));
      OlderOffersNoMore(b[i], site, earlier, now, ttl);
    }
  }
}
