/** From search answers to a confirmed website: evidence, scoring, filtering and ranking in one piece. */
module ResolverPipeline {
  import opened Wrappers
  import Names
  import opened Domains
  import opened StableSort
  import opened OrderedMap
  import opened Evidence
  import opened Resolver
  import opened ResolverTheorems
  import opened ResolverRanking
  import opened ResolverConfirm
  import opened NoiseFilter
  import opened ResolverNoise

  // Whether the text of the hits mentions what was asked for.
  datatype Mentions = Mentions(city: bool, postalCode: bool, phone: bool, registryId: bool)

  // What a request brings: its name, what it gives to find on a page, what hits mention of it; and how
  // text is folded, a domain is read, its country judged, and the domains that are nobody's own.
  datatype Request = Request(
    name: string, askable: Checks, mentions: seq<Hit> -> Mentions,
    fold: string -> string, core: string -> string, tld: string -> Tld,
    platforms: set<string>, directories: set<string>)

  // The similarity to the request's name.
  function Similar(q: Request): string -> real {
    (text: string) => Names.NameScore(q.fold, Names.LEGAL_TOKENS, q.name, text)
  }

  type Site = Entry<DomainGroup>

  // ---- Scoring a domain group ------------------------------------------------------------

  function TitlesOf(hits: seq<Hit>): (titles: seq<string>)
    ensures |titles| == |hits| && forall i | 0 <= i < |hits| :: titles[i] == hits[i].title
  {
    seq(|hits|, i requires 0 <= i < |hits| => hits[i].title)
  }

  function SiteName(q: Request, site: Site): real {
    NameScore(Similar(q), q.core(site.key), TitlesOf(site.value.hits))
  }

  function SignalsOf(q: Request, site: Site): Signals {
    var g, m := site.value, q.mentions(site.value.hits);
    Signals(SiteName(q, site), m.city, m.postalCode, m.phone, m.registryId,
            |g.engines|, |g.queries|, q.tld(site.key), |g.hits|)
  }

  function Scored(q: Request, site: Site): Candidate {
    var title := BestTitle(Similar(q), TitlesOf(site.value.hits));
    Candidate(site.value.url, site.key, title, SearchScore(SignalsOf(q, site)), None)
  }

  ghost predicate IsListed(q: Request, site: Site) {
    Listed(site.key, q.platforms) || Listed(site.key, q.directories)
  }

  // None for a listed domain, or one whose name is noise.
  ghost function ScoreWebsite(q: Request, site: Site): Option<Candidate> {
    if IsListed(q, site) || SiteName(q, site) < NOISE_FLOOR then None else Some(Scored(q, site))
  }

  method ScoreWebsiteCandidate(q: Request, site: Site) returns (candidate: Option<Candidate>)
    ensures candidate == ScoreWebsite(q, site)
  {
    var platform := InSet(site.key, q.platforms);
    if platform { return None; }
    var directory := InSet(site.key, q.directories);
    if directory { return None; }
    var nameScore := SiteName(q, site);
    if nameScore < NOISE_FLOOR { return None; }
    candidate := Some(Scored(q, site));
  }

  // The candidates of those sites that have one, in order.
  ghost function Collect(score: Site -> Option<Candidate>, sites: seq<Site>): seq<Candidate> {
    if sites == [] then []
    else
      var n := |sites| - 1;
      Collect(score, sites[..n]) + match score(sites[n]) case None => [] case Some(c) => [c]
  }

  ghost function Scorer(q: Request): Site -> Option<Candidate> { (site: Site) => ScoreWebsite(q, site) }

  // The same without the noise floor.
  ghost function Unfloored(q: Request): Site -> Option<Candidate> {
    (site: Site) => if IsListed(q, site) then None else Some(Scored(q, site))
  }

  ghost function Candidates(q: Request, sites: seq<Site>): seq<Candidate> { Collect(Scorer(q), sites) }

  ghost function AllScored(q: Request, sites: seq<Site>): seq<Candidate> { Collect(Unfloored(q), sites) }

  // The name score of a ranked candidate, as recomputed before the decision.
  function Recomputed(q: Request): Candidate -> real {
    (c: Candidate) => Larger(Similar(q)(q.core(c.domain)), Similar(q)(c.title))
  }

  // ---- The groups of a search ------------------------------------------------------------

  function EntriesOf(answers: seq<Answer>): seq<Accumulated> { Values(Group(ByUrl(), Flatten(answers))) }

  function SitesOf(p: UrlParser, answers: seq<Answer>): seq<Site> {
    Group(ByDomain(), PlaceAll(p, EntriesOf(answers)))
  }

  method ScoreSites(q: Request, sites: seq<Site>) returns (candidates: seq<Candidate>)
    ensures candidates == Candidates(q, sites)
  {
    candidates := [];
    for i := 0 to |sites|
      invariant candidates == Candidates(q, sites[..i])
    {
      assert sites[..i + 1][..i] == sites[..i];
      var candidate := ScoreWebsiteCandidate(q, sites[i]);
      if candidate.Some? {
        candidates := candidates + [candidate.value];
      }
    }
    assert sites[..|sites|] == sites;
  }

  method FindWebsite(q: Request, p: UrlParser, answers: seq<Answer>, wanted: bool, pages: string -> PageAnswer)
    returns (outcome: Outcome)
    ensures outcome == Resolve(Candidates(q, SitesOf(p, answers)), wanted, pages, Recomputed(q))
  {
    var entries := Accumulate(answers);
    var sites := GroupByDomain(p, entries);
    var candidates := ScoreSites(q, sites);
    outcome := ResolveBusiness(candidates, wanted, pages, Recomputed(q));
  }

  // The origins of the URLs that were hit determine their domains, as those of web pages do.
  ghost predicate OriginsHaveDomains(p: UrlParser, answers: seq<Answer>) {
    forall f, g | f in Flatten(answers) && g in Flatten(answers) :: SameSite(p, f.hit.url, g.hit.url)
  }

  ghost predicate Sound(sites: seq<Site>) {
    && (forall i, j | 0 <= i < j < |sites| :: sites[i].value.url != sites[j].value.url)
    && (forall s | s in sites :: s.value.hits != [])
  }

  lemma SitesAreSound(p: UrlParser, answers: seq<Answer>)
    requires OriginsHaveDomains(p, answers)
    ensures Sound(SitesOf(p, answers))
  {
    var entries, sites := EntriesOf(answers), SitesOf(p, answers);
    forall a, b | a in entries && b in entries ensures SameSite(p, a.hit.url, b.hit.url) {
      var f := EntryWasFound(answers, a);
      var g := EntryWasFound(answers, b);
    }
    forall i, j | 0 <= i < j < |sites| ensures sites[i].value.url != sites[j].value.url {
      RootsAreDistinct(p, entries, i, j);
    }
    forall s | s in sites ensures s.value.hits != [] {
      var i :| 0 <= i < |sites| && sites[i] == s;
      EntryValue(ByDomain(), PlaceAll(p, entries), i);
      ReduceGathers(RowsOf(ByDomain(), PlaceAll(p, entries), s.key));
    }
  }

  // A site's root and domain are those of a hit of the search.
  lemma SiteWasHit(p: UrlParser, answers: seq<Answer>, site: Site) returns (f: Found)
    requires site in SitesOf(p, answers)
    ensures f in Flatten(answers)
    ensures p.domain(f.hit.url) == Some(site.key) && p.origin(f.hit.url) == Some(site.value.url)
  {
    var a := SiteHasEntry(p, EntriesOf(answers), site);
    f := EntryWasFound(answers, a);
  }

  lemma SiteHasEntry(p: UrlParser, entries: seq<Accumulated>, site: Site) returns (a: Accumulated)
    requires site in Group(ByDomain(), PlaceAll(p, entries))
    ensures a in entries && p.domain(a.hit.url) == Some(site.key) && p.origin(a.hit.url) == Some(site.value.url)
  {
    var sites := Group(ByDomain(), PlaceAll(p, entries));
    var i :| 0 <= i < |sites| && sites[i] == site;
    var x := RootOf(p, entries, i);
    a := x.entry;
    PlaceSays(p, a, x);
  }

  lemma PlaceSays(p: UrlParser, a: Accumulated, x: Placed)
    requires Place(p, a) == Some(x)
    ensures p.domain(a.hit.url) == Some(x.domain) && p.origin(a.hit.url) == Some(x.origin)
  {
  }

  lemma EntryWasFound(answers: seq<Answer>, a: Accumulated) returns (f: Found)
    requires a in EntriesOf(answers)
    ensures f in Flatten(answers) && f.hit.url == a.hit.url
  {
    var m := Group(ByUrl(), Flatten(answers));
    var k :| 0 <= k < |m| && m[k].value == a;
    EntryValue(ByUrl(), Flatten(answers), k);
    var mine := RowsOf(ByUrl(), Flatten(answers), m[k].key);
    ReduceCombines(mine);
    f := mine[0];
    RowsOfMembers(ByUrl(), Flatten(answers), m[k].key, f);
  }

  // ---- Candidates and their sites --------------------------------------------------------

  lemma {:induction false} CollectMembers(score: Site -> Option<Candidate>, sites: seq<Site>, c: Candidate)
    ensures c in Collect(score, sites) <==> exists s :: s in sites && score(s) == Some(c)
    decreases |sites|
  {
    if sites != [] {
      var n := |sites| - 1;
      CollectMembers(score, sites[..n], c);
      assert sites == sites[..n] + [sites[n]];
      assert sites[n] in sites;
      if c in Collect(score, sites[..n]) {
        var s :| s in sites[..n] && score(s) == Some(c);
        assert s in sites;
      }
    }
  }

  // A candidate stands for the root of its site, and is fresh.
  ghost predicate KeepsRoots(score: Site -> Option<Candidate>) {
    forall s :: score(s).Some? ==>
      var c := score(s).value; c.url == s.value.url && c.score <= FULL && c.verification == None
  }

  lemma {:induction false} CollectIsFresh(score: Site -> Option<Candidate>, sites: seq<Site>)
    requires Sound(sites) && KeepsRoots(score)
    ensures DistinctUrls(Collect(score, sites)) && Unverified(Collect(score, sites))
    decreases |sites|
  {
    if sites != [] {
      var n := |sites| - 1;
      CollectIsFresh(score, sites[..n]);
      var before := Collect(score, sites[..n]);
      forall i | 0 <= i < |before| ensures before[i].url != sites[n].value.url {
        CollectMembers(score, sites[..n], before[i]);
        var s :| s in sites[..n] && score(s) == Some(before[i]);
      }
    }
  }

  lemma CandidateSite(q: Request, sites: seq<Site>, c: Candidate)
    ensures c in AllScored(q, sites) <==> exists s :: s in sites && !IsListed(q, s) && Scored(q, s) == c
  {
    CollectMembers(Unfloored(q), sites, c);
    forall s ensures Unfloored(q)(s) == Some(c) <==> !IsListed(q, s) && Scored(q, s) == c {
    }
  }

  lemma ScoredAreFresh(q: Request, sites: seq<Site>)
    requires Sound(sites)
    ensures DistinctUrls(AllScored(q, sites)) && Unverified(AllScored(q, sites))
  {
    CollectIsFresh(Unfloored(q), sites);
  }

  lemma SiteNameIsRecomputed(q: Request, site: Site)
    requires site.value.hits != []
    ensures Recomputed(q)(Scored(q, site)) == SiteName(q, site)
  {
    NameScoreIsRecomputed(Similar(q), q.core(site.key), TitlesOf(site.value.hits));
  }

  lemma RecomputedIsSteady(q: Request)
    ensures Steady(Recomputed(q))
  {
  }

  // One scoring keeps what another finds, except for noise.
  ghost predicate Floors(score: Site -> Option<Candidate>, all: Site -> Option<Candidate>, sites: seq<Site>,
                         noise: set<string>) {
    forall s | s in sites ::
      score(s) == if all(s).None? || all(s).value.url in noise then None else all(s)
  }

  lemma {:induction false} FloorRemovesNoise(score: Site -> Option<Candidate>, all: Site -> Option<Candidate>,
                                             sites: seq<Site>, noise: set<string>)
    requires Floors(score, all, sites, noise)
    ensures Collect(score, sites) == Keep(Collect(all, sites), noise)
    decreases |sites|
  {
    if sites != [] {
      var n := |sites| - 1;
      assert sites == sites[..n] + [sites[n]];
      FloorRemovesNoise(score, all, sites[..n], noise);
      var before := Collect(all, sites[..n]);
      match all(sites[n])
      case None => assert Collect(all, sites) == before;
      case Some(c) =>
        KeepAppend(before, [c], noise);
        KeepOne(c, noise);
    }
  }

  // The floor in the scoring removes exactly the candidates that are noise by their own name scores.
  lemma FloorKeepsTheRest(q: Request, sites: seq<Site>)
    requires Sound(sites)
    ensures Candidates(q, sites) == Keep(AllScored(q, sites), NoiseAmong(AllScored(q, sites), Recomputed(q)))
  {
    var all, name := AllScored(q, sites), Recomputed(q);
    var noise := NoiseAmong(all, name);
    ScoredAreFresh(q, sites);
    RecomputedIsSteady(q);
    NoiseIsFloored(all, name);
    forall s | s in sites
      ensures Scorer(q)(s)
              == if Unfloored(q)(s).None? || Unfloored(q)(s).value.url in noise then None else Unfloored(q)(s)
    {
      if !IsListed(q, s) {
        CandidateSite(q, sites, Scored(q, s));
        SiteNameIsRecomputed(q, s);
      }
    }
    FloorRemovesNoise(Scorer(q), Unfloored(q), sites, noise);
  }

  // ---- What holds of a whole resolution --------------------------------------------------

  // The noise floor can change the website proposed for these answers exactly when the first ranking of
  // all their unlisted sites is risky.
  lemma NoiseFloorIff(q: Request, p: UrlParser, answers: seq<Answer>)
    requires OriginsHaveDomains(p, answers)
    ensures var all, name := AllScored(q, SitesOf(p, answers)), Recomputed(q);
            && Candidates(q, SitesOf(p, answers)) == Keep(all, NoiseAmong(all, name))
            && (FilterMatters(all, name, q.askable)
                <==> Risky(Sort(Stronger(), all), name, NoiseAmong(all, name), q.askable))
  {
    var sites := SitesOf(p, answers);
    SitesAreSound(p, answers);
    FloorKeepsTheRest(q, sites);
    ScoredAreFresh(q, sites);
    RecomputedIsSteady(q);
    FilterMattersIff(AllScored(q, sites), Recomputed(q), q.askable);
  }

  lemma CandidatesAreFresh(q: Request, sites: seq<Site>)
    requires Sound(sites)
    ensures DistinctUrls(Candidates(q, sites)) && Unverified(Candidates(q, sites))
    ensures forall c | c in Candidates(q, sites) :: c in AllScored(q, sites) && Recomputed(q)(c) >= NOISE_FLOOR
  {
    var all, name := AllScored(q, sites), Recomputed(q);
    ScoredAreFresh(q, sites);
    FloorKeepsTheRest(q, sites);
    RecomputedIsSteady(q);
    NoiseIsFloored(all, name);
    KeepDistinct(all, NoiseAmong(all, name));
    forall c | c in Candidates(q, sites) ensures c in all && name(c) >= NOISE_FLOOR {
      KeepMembers(all, NoiseAmong(all, name), c);
    }
  }

  lemma {:induction false} KeepDistinct(cs: seq<Candidate>, noise: set<string>)
    requires DistinctUrls(cs)
    ensures DistinctUrls(Keep(cs, noise))
  {
    if cs != [] {
      KeepDistinct(cs[1..], noise);
      var rest := Keep(cs[1..], noise);
      forall j | 0 <= j < |rest| ensures rest[j].url != cs[0].url {
        KeepMembers(cs[1..], noise, rest[j]);
        var k :| 0 <= k < |cs[1..]| && cs[1..][k] == rest[j];
        assert cs[k + 1] == rest[j];
      }
    }
  }

  // A confirmed website is the root of a hit of the search, on a domain that is not listed. Its name
  // scored at least one half in the search stage, it had more than 0.39 before any page was read, and
  // its own page corroborates it.
  lemma ConfirmedSite(q: Request, p: UrlParser, answers: seq<Answer>, wanted: bool, pages: string -> PageAnswer)
    returns (site: Site, f: Found)
    requires OriginsHaveDomains(p, answers)
    requires Resolve(Candidates(q, SitesOf(p, answers)), wanted, pages, Recomputed(q)).status == Confirmed
    ensures var winner := Resolve(Candidates(q, SitesOf(p, answers)), wanted, pages, Recomputed(q)).ranked;
            && site in SitesOf(p, answers) && winner != []
            && winner[0].url == site.value.url && winner[0].domain == site.key
            && f in Flatten(answers)
            && p.domain(f.hit.url) == Some(site.key) && p.origin(f.hit.url) == Some(site.value.url)
            && !IsListed(q, site) && SiteName(q, site) >= MIN_NAME_SIMILARITY && SearchScore(SignalsOf(q, site)) > 3900
            && pages(site.value.url).Page? && Corroborated(Some(Verification(true, pages(site.value.url).checks)))
  {
    var sites := SitesOf(p, answers);
    SitesAreSound(p, answers);
    CandidatesAreFresh(q, sites);
    var c := ConfirmedMeans(Candidates(q, sites), wanted, pages, Recomputed(q));
    CandidateSite(q, sites, c);
    site :| site in sites && !IsListed(q, site) && Scored(q, site) == c;
    SiteNameIsRecomputed(q, site);
    f := SiteWasHit(p, answers, site);
  }

  // ---- Foreign sites ---------------------------------------------------------------------

  lemma SiteNameRange(q: Request, site: Site)
    ensures 0.0 <= SiteName(q, site) <= 1.0
  {
    var titles := TitlesOf(site.value.hits);
    NameScoreIsLargest(Similar(q), q.core(site.key), titles);
    Names.NameScoreLaws(q.fold, Names.LEGAL_TOKENS, q.name, q.core(site.key));
    forall t | t in titles ensures Similar(q)(t) <= 1.0 {
      Names.NameScoreLaws(q.fold, Names.LEGAL_TOKENS, q.name, t);
    }
  }

  // A site of the search that is a candidate.
  ghost predicate IsCandidate(q: Request, p: UrlParser, answers: seq<Answer>, site: Site) {
    site in SitesOf(p, answers) && ScoreWebsite(q, site).Some?
  }

  lemma CandidateIsListed(q: Request, p: UrlParser, answers: seq<Answer>, site: Site)
    requires OriginsHaveDomains(p, answers) && IsCandidate(q, p, answers, site)
    ensures Scored(q, site) in Candidates(q, SitesOf(p, answers))
    ensures Recomputed(q)(Scored(q, site)) == SiteName(q, site)
  {
    var sites := SitesOf(p, answers);
    SitesAreSound(p, answers);
    SiteNameIsRecomputed(q, site);
    CollectMembers(Scorer(q), sites, Scored(q, site));
    assert Scorer(q)(site) == Some(Scored(q, site));
  }

  // Among the answers of a search, the pages of a request can confirm a site on a foreign domain
  // exactly when it stands high enough, is unrivalled, and its name and its evidence suffice.
  lemma ForeignSiteIff(q: Request, p: UrlParser, answers: seq<Answer>, site: Site)
    requires OriginsHaveDomains(p, answers) && IsCandidate(q, p, answers, site) && q.tld(site.key) == Foreign
    ensures var cs, c, s := Candidates(q, SitesOf(p, answers)), Scored(q, site), SignalsOf(q, site);
            CanConfirm(cs, Recomputed(q), q.askable, c)
            <==> SiteName(q, site) >= MIN_NAME_SIMILARITY && ForeignIsRead(Sort(Stronger(), cs), c, s)
                 && Unrivalled(cs, c) && CanCorroborate(q.askable) && Domestic(s) + Boost(q.askable) >= 11500
  {
    var sites := SitesOf(p, answers);
    SitesAreSound(p, answers);
    CandidatesAreFresh(q, sites);
    CandidateIsListed(q, p, answers, site);
    SiteNameRange(q, site);
    RecomputedIsSteady(q);
    ForeignConfirmedIff(Candidates(q, sites), Recomputed(q), q.askable, Scored(q, site), SignalsOf(q, site));
  }

  // A request with neither a phone number nor a registry id finds none in the hits, nor on a page.
  predicate Numberless(q: Request, site: Site) {
    var m := q.mentions(site.value.hits);
    !q.askable.phone && !q.askable.registryId && !m.phone && !m.registryId
  }

  // For such a request no site on a foreign domain is ever confirmed.
  lemma NumberlessIsDomestic(q: Request, p: UrlParser, answers: seq<Answer>, site: Site)
    requires OriginsHaveDomains(p, answers) && IsCandidate(q, p, answers, site) && q.tld(site.key) == Foreign
    requires Numberless(q, site)
    ensures !CanConfirm(Candidates(q, SitesOf(p, answers)), Recomputed(q), q.askable, Scored(q, site))
  {
    var sites := SitesOf(p, answers);
    SitesAreSound(p, answers);
    CandidatesAreFresh(q, sites);
    CandidateIsListed(q, p, answers, site);
    SiteNameRange(q, site);
    RecomputedIsSteady(q);
    ForeignNeedsNumber(Candidates(q, sites), Recomputed(q), q.askable, Scored(q, site), SignalsOf(q, site));
  }
}
