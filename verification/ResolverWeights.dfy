/** What each piece of evidence is worth, on the scored candidate and in figures. */
module ResolverWeights {
  import opened Wrappers
  import opened StableSort
  import opened OrderedMap
  import opened Domains
  import opened Evidence
  import opened Resolver
  import opened ResolverTheorems
  import opened ResolverPipeline

  function Worth(b: bool, points: real): real { if b then points else 0.0 }

  // The evidence for a site in ten-thousandths, before rounding and the cap.
  function Points(q: Request, site: Site): real {
    var g, m, country := site.value, q.mentions(site.value.hits), q.tld(site.key);
    4500.0 * SiteName(q, site)
    + Worth(m.city, 1500.0) + Worth(m.postalCode, 1000.0) + Worth(m.phone, 1500.0) + Worth(m.registryId, 1000.0)
    + Worth(|g.engines| >= 2, 500.0) + Worth(|g.queries| >= 2, 500.0) + Worth(|g.hits| >= 3, 400.0)
    + Worth(country == Match, 600.0) - Worth(country == Foreign, 3500.0)
  }

  // The score is these points to the nearest unit, at most ten thousand.
  lemma ScoreIsPoints(q: Request, site: Site)
    ensures var points, score := Points(q, site), Scored(q, site).score;
            && (points >= 10000.0 ==> score == 10000)
            && (points < 10000.0 ==> points - 0.5 <= score as real <= points + 0.5)
  {
    var s := SignalsOf(q, site);
    assert Points(q, site) == (OtherEvidence(s) + TldEvidence(s.tld)) * 10000.0;
  }

  // Halves are rounded up when positive, and down when negative.
  lemma TiesGoOutward(q: Request, site: Site, n: int)
    requires Points(q, site) == n as real + 0.5 && -10000 <= n < 10000
    ensures Scored(q, site).score == if n >= 0 then n + 1 else n
  {
    var s := SignalsOf(q, site);
    var evidence := OtherEvidence(s) + TldEvidence(s.tld);
    assert Points(q, site) == evidence * 10000.0;
    RoundTie(evidence, n);
  }

  lemma RoundTie(x: real, n: int)
    requires x * 10000.0 == n as real + 0.5
    ensures Round(x) == if n >= 0 then n + 1 else n
  {
    if n < 0 {
      assert -x * 10000.0 + 0.5 == (-n) as real;
    }
  }

  // One signal more, with all others equal, while the scores stay inside the scale.
  lemma OneMoreSignal(s: Signals)
    ensures Rises(s.(city := false), s.(city := true), 1500)
    ensures Rises(s.(postalCode := false), s.(postalCode := true), 1000)
    ensures Rises(s.(phone := false), s.(phone := true), 1500)
    ensures Rises(s.(registryId := false), s.(registryId := true), 1000)
  {
    ScoreShift(s.(city := false), s.(city := true), 1500);
    ScoreShift(s.(postalCode := false), s.(postalCode := true), 1000);
    ScoreShift(s.(phone := false), s.(phone := true), 1500);
    ScoreShift(s.(registryId := false), s.(registryId := true), 1000);
  }

  // And one engine, query or page more where it counts, and a better country.
  lemma OneMoreSource(s: Signals)
    ensures Rises(s.(engines := 1), s.(engines := 2), 500)
    ensures Rises(s.(queries := 1), s.(queries := 2), 500)
    ensures Rises(s.(pages := 2), s.(pages := 3), 400)
    ensures Rises(s.(tld := Generic), s.(tld := Match), 600)
    ensures Rises(s.(tld := Foreign), s.(tld := Generic), 3500)
  {
    ScoreShift(s.(engines := 1), s.(engines := 2), 500);
    ScoreShift(s.(queries := 1), s.(queries := 2), 500);
    ScoreShift(s.(pages := 2), s.(pages := 3), 400);
    ScoreShift(s.(tld := Generic), s.(tld := Match), 600);
    ScoreShift(s.(tld := Foreign), s.(tld := Generic), 3500);
  }

  lemma ScoreShift(a: Signals, b: Signals, points: nat)
    requires OtherEvidence(b) + TldEvidence(b.tld)
          == OtherEvidence(a) + TldEvidence(a.tld) + points as real / 10000.0
    ensures Rises(a, b, points)
  {
    var x, y := OtherEvidence(a) + TldEvidence(a.tld), OtherEvidence(b) + TldEvidence(b.tld);
    assert SearchScore(a) == Clip(Round(x)) && SearchScore(b) == Clip(Round(y));
    if Round(x) > 0 {
      RoundShift(x, points);
    }
  }

  lemma RoundShift(x: real, points: nat)
    requires Round(x) > 0
    ensures Round(x + points as real / 10000.0) == Round(x) + points
  {
    var y := x + points as real / 10000.0;
    assert y * 10000.0 + 0.5 == (x * 10000.0 + 0.5) + points as real;
  }

  predicate Rises(without: Signals, with: Signals, points: nat) {
    0 < SearchScore(without) && SearchScore(with) < 10000 ==> SearchScore(with) == SearchScore(without) + points
  }

  // Which sites are scored at all, and what the candidate says of its site.
  lemma ScoredSites(q: Request, site: Site)
    ensures ScoreWebsite(q, site).None? <==>
              Listed(site.key, q.platforms) || Listed(site.key, q.directories) || SiteName(q, site) < 0.25
    ensures ScoreWebsite(q, site).Some? ==>
              var c := ScoreWebsite(q, site).value;
              && c.url == site.value.url && c.domain == site.key && c.verification == None
              && c.score == Scored(q, site).score
  {
  }

  // The title kept is the first of the closest.
  lemma TitleIsFirstOfClosest(q: Request, site: Site) returns (i: nat)
    requires site.value.hits != []
    ensures i < |site.value.hits| && Scored(q, site).title == site.value.hits[i].title
    ensures forall j | 0 <= j < |site.value.hits| ::
              Similar(q)(site.value.hits[j].title) <= Similar(q)(site.value.hits[i].title)
    ensures forall j | 0 <= j < i :: Similar(q)(site.value.hits[j].title) < Similar(q)(site.value.hits[i].title)
  {
    var titles := TitlesOf(site.value.hits);
    i := SortHead(Closer(Similar(q)), titles);
    forall j | 0 <= j < |titles|
      ensures Similar(q)(titles[j]) <= Similar(q)(titles[i])
      ensures j < i ==> Similar(q)(titles[j]) < Similar(q)(titles[i])
    {
      assert !Closer(Similar(q))(titles[j], titles[i]);
    }
  }

  // The name score is that of the domain or of the closest title.
  lemma SiteNameIsLargest(q: Request, site: Site)
    ensures var n := SiteName(q, site);
            && Similar(q)(q.core(site.key)) <= n && (forall h | h in site.value.hits :: Similar(q)(h.title) <= n)
            && (n == Similar(q)(q.core(site.key)) || exists h :: h in site.value.hits && Similar(q)(h.title) == n)
  {
    var titles := TitlesOf(site.value.hits);
    NameScoreIsLargest(Similar(q), q.core(site.key), titles);
    forall h | h in site.value.hits ensures Similar(q)(h.title) <= SiteName(q, site) {
      assert h.title in titles by {
        var k :| 0 <= k < |site.value.hits| && site.value.hits[k] == h;
        assert titles[k] == h.title;
      }
    }
    if t :| t in titles && Similar(q)(t) == SiteName(q, site) {
      var k :| 0 <= k < |titles| && titles[k] == t;
      assert site.value.hits[k].title == t;
    }
  }

  // ---- Reading pages ---------------------------------------------------------------------

  // What a page adds, up to ten thousand; a page that is not read adds nothing.
  lemma PageAdds(c: Candidate, answer: PageAnswer)
    ensures var v := Verified(c, answer);
            && v.url == c.url && v.domain == c.domain && v.title == c.title
            && match answer
               case Page(found) =>
                 var sum := c.score as real + Worth(found.name, 2000.0) + Worth(found.city, 800.0)
                            + Worth(found.phone, 1200.0) + Worth(found.registryId, 1000.0);
                 && v.verification == Some(Verification(true, found))
                 && v.score as real == if sum <= 10000.0 then sum else 10000.0
               case _ =>
                 && v.verification == Some(Verification(false, Checks(false, false, false, false)))
                 && v.score == c.score
  {
  }

  // The leader is read from 4500 points on, and the second when it is less than 600 points behind.
  lemma WhoIsRead(first: seq<Candidate>, wanted: bool, pages: string -> PageAnswer, k: nat)
    requires DistinctUrls(first) && k < |first|
    ensures VerifyAll(first, ToVerify(first, wanted), pages)[k]
         == if wanted && first[0].score >= 4500 && (k == 0 || (k == 1 && first[0].score - first[1].score < 600))
            then Verified(first[k], pages(first[k].url)) else first[k]
  {
  }

  // The candidates are ranked, some of them read, and ranked again.
  lemma TwoRankings(cs: seq<Candidate>, wanted: bool, pages: string -> PageAnswer, name: Candidate -> real)
    returns (first: seq<Candidate>, after: seq<Candidate>)
    requires DistinctUrls(cs) && Unverified(cs)
    ensures DistinctUrls(first) && Descending(first) && multiset(first) == multiset(cs)
    ensures after == VerifyAll(first, ToVerify(first, wanted), pages)
    ensures var ranked := Resolve(cs, wanted, pages, name).ranked;
            Descending(ranked) && multiset(ranked) == multiset(after)
  {
    first := Sort(Stronger(), cs);
    after := VerifyAll(first, ToVerify(first, wanted), pages);
    FirstRanking(cs);
    StrongerIsOrder();
    SortSpec(Stronger(), cs);
    SortSpec(Stronger(), after);
    SortDescends(after);
  }
}
