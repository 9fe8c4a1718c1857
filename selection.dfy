/** The hero / trending / regular selection that `HomePage.get_context`,
    `SectionPage.get_context` and `SupportSectionPage.get_context` each carry
    a copy of, stated once over a candidate sequence (the live articles of
    the page's scope, in the order the database returns them). */
module Selection {
  import opened Wrappers
  import opened Seqs
  import opened Articles

  /** What a listing page shows: the featured highlight, the trending list
      and the regular list. */
  datatype Listing = Listing(featured: Option<Article>, trending: seq<Article>, regular: seq<Article>)

  /** No two rows share a primary key (every queryset has this). */
  predicate DistinctIds(s: seq<Article>) {
    forall i, j :: 0 <= i < j < |s| ==> s[i].id != s[j].id
  }

  /** Newest first. */
  predicate SortedByDateDesc(s: seq<Article>) {
    forall i, j :: 0 <= i < j < |s| ==> s[i].publicationDate >= s[j].publicationDate
  }

  /** The primary keys of `s`, in order. */
  function Ids(s: seq<Article>): (r: seq<nat>)
    ensures |r| == |s| && forall i :: 0 <= i < |s| ==> r[i] == s[i].id
  {
    seq(|s|, i requires 0 <= i < |s| => s[i].id)
  }

  /** `a` placed in front of the first element of `s` that is not newer. */
  function InsertByDate(a: Article, s: seq<Article>): (r: seq<Article>)
    ensures multiset(r) == multiset(s) + multiset{a}
    ensures r[0] == a || (s != [] && r[0] == s[0])
  {
    if s == [] || a.publicationDate >= s[0].publicationDate then [a] + s
    else
      assert s == [s[0]] + s[1..];
      [s[0]] + InsertByDate(a, s[1..])
  }

  /** Inserting into a newest-first sequence keeps it newest first. */
  lemma {:induction false} InsertByDateSorted(a: Article, s: seq<Article>)
    requires SortedByDateDesc(s)
    ensures SortedByDateDesc(InsertByDate(a, s))
  {
    if s != [] && a.publicationDate < s[0].publicationDate {
      var t := InsertByDate(a, s[1..]);
      InsertByDateSorted(a, s[1..]);
      assert s[0].publicationDate >= t[0].publicationDate;
      var r := [s[0]] + t;
      forall i, j | 0 <= i < j < |r|
        ensures r[i].publicationDate >= r[j].publicationDate
      {
        if i > 0 {
          assert r[i] == t[i - 1] && r[j] == t[j - 1];
        } else {
          assert r[j] == t[j - 1];
          assert t[j - 1].publicationDate <= t[0].publicationDate;
        }
      }
    }
  }

  /** `sorted(s, key=publication_date, reverse=True)`, and the database's
      `order_by('-publication_date')`: a permutation of `s`, newest first.
      Equal dates keep their order in `s`. */
  function SortByDateDesc(s: seq<Article>): (r: seq<Article>)
    ensures multiset(r) == multiset(s)
    ensures SortedByDateDesc(r)
  {
    if s == [] then [] else
      assert s == [s[0]] + s[1..];
      InsertByDateSorted(s[0], SortByDateDesc(s[1..]));
      InsertByDate(s[0], SortByDateDesc(s[1..]))
  }

  /** `filter(is_featured_highlight=True).order_by('-publication_date').first()`:
      none exactly when no candidate is featured, and otherwise a featured
      candidate of latest publication date (among equals, the first the
      database returns). */
  function LatestFeatured(c: seq<Article>): (r: Option<Article>)
    ensures r.None? <==> forall a :: a in c ==> !a.isFeaturedHighlight
    ensures r.Some? ==> r.value in c && r.value.isFeaturedHighlight
    ensures r.Some? ==> forall a :: a in c && a.isFeaturedHighlight ==> a.publicationDate <= r.value.publicationDate
  {
    if c == [] then None
    else
      var rest := LatestFeatured(c[1..]);
      assert forall a :: a in c ==> a == c[0] || a in c[1..];
      if !c[0].isFeaturedHighlight then rest
      else if rest.Some? && rest.value.publicationDate > c[0].publicationDate then rest
      else Some(c[0])
  }

  function HasId(id: nat): Article -> bool { (a: Article) => a.id == id }
  function HasNotId(id: nat): Article -> bool { (a: Article) => a.id != id }
  function TrendingAt(now: int): Article -> bool { (a: Article) => IsCurrentlyTrending(a, now) }
  function NotShown(ids: seq<nat>): Article -> bool { (a: Article) => a.id !in ids }

  /** `all_articles.exclude(id=featured.id) if featured else all_articles`. */
  function Remaining(c: seq<Article>, hero: Option<Article>): seq<Article> {
    if hero.Some? then Filter(HasNotId(hero.value.id), c) else c
  }

  /** `shown_ids`: the hero's key, then the keys of the trending list. */
  function ShownIds(hero: Option<Article>, trending: seq<Article>): seq<nat> {
    (if hero.Some? then [hero.value.id] else []) + Ids(trending)
  }

  /** The listing computed from candidates `c` at clock reading `now`. */
  function Select(c: seq<Article>, now: int): Listing {
    var hero := LatestFeatured(c);
    var remaining := Remaining(c, hero);
    var trending := SortByDateDesc(Filter(TrendingAt(now), remaining));
    var regular := SortByDateDesc(Filter(NotShown(ShownIds(hero, trending)), remaining));
    Listing(hero, trending, regular)
  }

  /** The selection as the pages run it: a loop over the remaining articles
      collects the currently trending ones, which are then sorted; everything
      whose key was not shown is listed as regular. */
  method SelectListing(candidates: seq<Article>, now: int) returns (listing: Listing)
    ensures listing == Select(candidates, now)
  {
    var featured := LatestFeatured(candidates);
    var remaining := Remaining(candidates, featured);
    var trending: seq<Article> := [];
    var i := 0;
    while i < |remaining|
      invariant 0 <= i <= |remaining|
      invariant trending == Filter(TrendingAt(now), remaining[..i])
    {
      FilterPrefixStep(TrendingAt(now), remaining, i);
      if IsCurrentlyTrending(remaining[i], now) {
        trending := trending + [remaining[i]];
      }
      i := i + 1;
    }
    assert remaining[..i] == remaining;
    trending := SortByDateDesc(trending);
    var shownIds := if featured.Some? then [featured.value.id] else [];
    shownIds := shownIds + Ids(trending);
    var regular := SortByDateDesc(Filter(NotShown(shownIds), remaining));
    listing := Listing(featured, trending, regular);
  }

  /** The hero as a zero- or one-element sequence. */
  function HeroSeq(hero: Option<Article>): seq<Article> {
    if hero.Some? then [hero.value] else []
  }

  /** `a` is not the hero. */
  predicate NotHero(hero: Option<Article>, a: Article) {
    hero.None? || a.id != hero.value.id
  }

  lemma DistinctIdsTail(s: seq<Article>)
    requires s != [] && DistinctIds(s)
    ensures DistinctIds(s[1..])
    ensures forall x :: x in s[1..] ==> x.id != s[0].id
  {
    forall i, j | 0 <= i < j < |s| - 1 ensures s[1..][i].id != s[1..][j].id {
      assert s[1..][i] == s[i + 1] && s[1..][j] == s[j + 1];
    }
    forall x | x in s[1..] ensures x.id != s[0].id {
      var m :| 0 <= m < |s| - 1 && s[1..][m] == x;
      assert s[m + 1] == x;
    }
  }

  /** Equal keys mean the same row. */
  lemma DistinctIdsUnique(s: seq<Article>, x: Article, y: Article)
    requires DistinctIds(s) && x in s && y in s && x.id == y.id
    ensures x == y
  {
    var i :| 0 <= i < |s| && s[i] == x;
    var j :| 0 <= j < |s| && s[j] == y;
  }

  /** Putting an article with a fresh key in front keeps keys distinct. */
  lemma DistinctIdsCons(x: Article, t: seq<Article>)
    requires DistinctIds(t) && forall y :: y in t ==> y.id != x.id
    ensures DistinctIds([x] + t)
  {
    var r := [x] + t;
    forall i, j | 0 <= i < j < |r| ensures r[i].id != r[j].id {
      assert r[j] == t[j - 1];
      if i > 0 {
        assert r[i] == t[i - 1];
      }
    }
  }

  lemma {:induction false} DistinctIdsFilter(f: Article -> bool, s: seq<Article>)
    requires DistinctIds(s)
    ensures DistinctIds(Filter(f, s))
  {
    if s != [] {
      DistinctIdsTail(s);
      DistinctIdsFilter(f, s[1..]);
      if f(s[0]) {
        DistinctIdsCons(s[0], Filter(f, s[1..]));
      }
    }
  }

  /** Only the hero carries the hero's key. */
  lemma {:induction false} FilterHeroId(c: seq<Article>, h: Article)
    requires DistinctIds(c) && h in c
    ensures Filter(HasId(h.id), c) == [h]
  {
    assert c == [c[0]] + c[1..];
    DistinctIdsTail(c);
    if c[0].id == h.id {
      DistinctIdsUnique(c, c[0], h);
      FilterNone(HasId(h.id), c[1..]);
    } else {
      FilterHeroId(c[1..], h);
    }
  }

  /** Removing the hero from the candidates leaves every other candidate,
      still with distinct keys, and loses nothing else. */
  lemma RemainingSplit(c: seq<Article>)
    requires DistinctIds(c)
    ensures var hero := LatestFeatured(c);
      var remaining := Remaining(c, hero);
      && (forall a :: a in remaining <==> a in c && NotHero(hero, a))
      && DistinctIds(remaining)
      && multiset(HeroSeq(hero)) + multiset(remaining) == multiset(c)
  {
    var hero := LatestFeatured(c);
    if hero.Some? {
      DistinctIdsFilter(HasNotId(hero.value.id), c);
      FilterHeroId(c, hero.value);
      FilterSplit(HasNotId(hero.value.id), HasId(hero.value.id), c);
    }
  }

  /** The keys in `shown_ids` after the hero's are those of the trending list. */
  lemma ShownIdsAt(hero: Option<Article>, trending: seq<Article>, k: nat)
    requires k < |trending|
    ensures |ShownIds(hero, trending)| == |HeroSeq(hero)| + |trending|
    ensures ShownIds(hero, trending)[|HeroSeq(hero)| + k] == trending[k].id
    ensures hero.Some? ==> ShownIds(hero, trending)[0] == hero.value.id
  {
  }

  /** A key in `shown_ids` that is not the hero's belongs to the trending list. */
  lemma ShownIdsFrom(hero: Option<Article>, trending: seq<Article>, id: nat)
    requires id in ShownIds(hero, trending) && (hero.None? || id != hero.value.id)
    ensures exists t :: t in trending && t.id == id
  {
    var shown := ShownIds(hero, trending);
    var d := |HeroSeq(hero)|;
    var k :| 0 <= k < |shown| && shown[k] == id;
    assert shown == Ids(HeroSeq(hero)) + Ids(trending);
    if k >= d {
      assert trending[k - d].id == id;
    }
  }

  /** Among the remaining articles, a key is in `shown_ids` exactly when the
      article is currently trending: excluding by key is excluding the
      trending list. */
  lemma ShownIsTrending(remaining: seq<Article>, hero: Option<Article>, now: int)
    requires DistinctIds(remaining)
    requires forall a :: a in remaining ==> NotHero(hero, a)
    ensures var trending := SortByDateDesc(Filter(TrendingAt(now), remaining));
      forall a :: a in remaining ==> (NotShown(ShownIds(hero, trending))(a) == !IsCurrentlyTrending(a, now))
  {
    var picked := Filter(TrendingAt(now), remaining);
    var trending := SortByDateDesc(picked);
    var shown := ShownIds(hero, trending);
    forall a | a in remaining && a.id in shown ensures IsCurrentlyTrending(a, now) {
      ShownIdsFrom(hero, trending, a.id);
      var t :| t in trending && t.id == a.id;
      assert t in multiset(picked);
      DistinctIdsUnique(remaining, a, t);
    }
    forall a | a in remaining && IsCurrentlyTrending(a, now) ensures a.id in shown {
      assert a in multiset(trending);
      var k :| 0 <= k < |trending| && trending[k] == a;
      ShownIdsAt(hero, trending, k);
    }
  }

  /** Sorting neither adds nor drops an article. */
  lemma SortMembers(s: seq<Article>)
    ensures forall a :: a in SortByDateDesc(s) <==> a in s
  {
    forall a ensures a in SortByDateDesc(s) <==> a in s {
      assert a in SortByDateDesc(s) <==> a in multiset(SortByDateDesc(s));
    }
  }

  /** Which tier each candidate lands in. */
  lemma SelectTiers(c: seq<Article>, now: int)
    requires DistinctIds(c)
    ensures var l := Select(c, now);
      && (forall a :: a in l.trending <==> a in c && NotHero(l.featured, a) && IsCurrentlyTrending(a, now))
      && (forall a :: a in l.regular <==> a in c && NotHero(l.featured, a) && !IsCurrentlyTrending(a, now))
  {
    var hero := LatestFeatured(c);
    var remaining := Remaining(c, hero);
    RemainingSplit(c);
    var picked := Filter(TrendingAt(now), remaining);
    var trending := SortByDateDesc(picked);
    var rest := Filter(NotShown(ShownIds(hero, trending)), remaining);
    ShownIsTrending(remaining, hero, now);
    SortMembers(picked);
    SortMembers(rest);
  }

  /** Hero, trending and regular together are the candidates, each once. */
  lemma SelectCoverage(c: seq<Article>, now: int)
    requires DistinctIds(c)
    ensures var l := Select(c, now);
      multiset(HeroSeq(l.featured)) + multiset(l.trending) + multiset(l.regular) == multiset(c)
  {
    var hero := LatestFeatured(c);
    var remaining := Remaining(c, hero);
    RemainingSplit(c);
    var picked := Filter(TrendingAt(now), remaining);
    var trending := SortByDateDesc(picked);
    var shown := NotShown(ShownIds(hero, trending));
    ShownIsTrending(remaining, hero, now);
    FilterSplit(TrendingAt(now), shown, remaining);
  }

  /** The partition every listing page relies on, for a candidate set with
      distinct keys: the trending list holds exactly the non-hero candidates
      that are currently trending, the regular list exactly the other
      non-hero candidates, both newest first, and hero, trending and
      regular together are the candidates, each exactly once. `isPremium`
      appears nowhere in these conditions: premium articles are listed like
      any other. */
  lemma SelectPartition(c: seq<Article>, now: int)
    requires DistinctIds(c)
    ensures var l := Select(c, now);
      && (forall a :: a in l.trending <==> a in c && NotHero(l.featured, a) && IsCurrentlyTrending(a, now))
      && (forall a :: a in l.regular <==> a in c && NotHero(l.featured, a) && !IsCurrentlyTrending(a, now))
      && SortedByDateDesc(l.trending) && SortedByDateDesc(l.regular)
      && multiset(HeroSeq(l.featured)) + multiset(l.trending) + multiset(l.regular) == multiset(c)
  {
    SelectTiers(c, now);
    SelectCoverage(c, now);
  }

  /** No key is shown twice: the hero is in neither list and the two lists
      share no article. */
  lemma SelectDisjoint(c: seq<Article>, now: int)
    requires DistinctIds(c)
    ensures var l := Select(c, now);
      && (l.featured.Some? ==> l.featured.value.id !in Ids(l.trending) + Ids(l.regular))
      && (forall a, b :: a in l.trending && b in l.regular ==> a.id != b.id)
  {
    SelectPartition(c, now);
    var l := Select(c, now);
    if l.featured.Some? {
      forall k | 0 <= k < |l.trending| + |l.regular|
        ensures (Ids(l.trending) + Ids(l.regular))[k] != l.featured.value.id
      {
        var a := if k < |l.trending| then l.trending[k] else l.regular[k - |l.trending|];
        assert (Ids(l.trending) + Ids(l.regular))[k] == a.id;
        assert a in c && NotHero(l.featured, a);
      }
    }
    forall a, b | a in l.trending && b in l.regular ensures a.id != b.id {
      if a.id == b.id {
        DistinctIdsUnique(c, a, b);
      }
    }
  }
}
