/** What a resolution guarantees about its winner. */
module ResolverTheorems {
  import opened Wrappers
  import opened StableSort
  import opened RankedMap
  import opened Resolver

  predicate DistinctUrls(cs: seq<Candidate>) {
    forall i, j | 0 <= i < j < |cs| :: cs[i].url != cs[j].url
  }

  // Fresh from the search stage.
  predicate Unverified(cs: seq<Candidate>) {
    forall c | c in cs :: c.score <= FULL && c.verification == None
  }

  lemma StrongerIsOrder()
    ensures StrictWeak(Stronger())
  {
  }

  // ---- Ranking before verification -------------------------------------------------------

  lemma CountUrl(cs: seq<Candidate>, c: Candidate)
    requires DistinctUrls(cs) && c in cs
    ensures multiset(cs)[c] == 1
  {
    var i :| 0 <= i < |cs| && cs[i] == c;
    assert cs == cs[..i] + [c] + cs[i + 1..];
    assert c !in cs[..i] && c !in cs[i + 1..];
  }

  lemma RankedUrlsDiffer(cs: seq<Candidate>, i: nat, j: nat)
    requires DistinctUrls(cs) && i < j < |Sort(Stronger(), cs)|
    ensures Sort(Stronger(), cs)[i].url != Sort(Stronger(), cs)[j].url
  {
    var r := Sort(Stronger(), cs);
    StrongerIsOrder();
    SortSpec(Stronger(), cs);
    SortMembers(Stronger(), cs, r[i]);
    SortMembers(Stronger(), cs, r[j]);
    CountUrl(cs, r[i]);
    if r[i] == r[j] {
      TwiceInSequence(r, i, j);
    }
    var p :| 0 <= p < |cs| && cs[p] == r[i];
    var q :| 0 <= q < |cs| && cs[q] == r[j];
  }

  predicate Descending(cs: seq<Candidate>) {
    forall i, j | 0 <= i <= j < |cs| :: cs[i].score >= cs[j].score
  }

  lemma SortDescends(cs: seq<Candidate>)
    ensures Descending(Sort(Stronger(), cs)) && |Sort(Stronger(), cs)| == |cs|
  {
    var r := Sort(Stronger(), cs);
    StrongerIsOrder();
    SortOrders(Stronger(), cs);
    OrderedDescends(r);
  }

  lemma OrderedDescends(r: seq<Candidate>)
    requires Ordered(Stronger(), r)
    ensures Descending(r)
  {
    forall i, j | 0 <= i <= j < |r| ensures r[i].score >= r[j].score {
      assert i < j ==> !Stronger()(r[j], r[i]);
    }
  }

  // The first ranking: strongest first, the same candidates.
  lemma FirstRanking(cs: seq<Candidate>)
    requires DistinctUrls(cs) && Unverified(cs)
    ensures var r := Sort(Stronger(), cs);
            |r| == |cs| && DistinctUrls(r) && Unverified(r) && Descending(r) && forall c :: c in r <==> c in cs
  {
    var r := Sort(Stronger(), cs);
    StrongerIsOrder();
    SortDescends(cs);
    forall c ensures c in r <==> c in cs {
      SortMembers(Stronger(), cs, c);
    }
    forall i, j | 0 <= i < j < |r| ensures r[i].url != r[j].url {
      RankedUrlsDiffer(cs, i, j);
    }
  }

  // ---- Verification ----------------------------------------------------------------------

  lemma VerifiedScore(c: Candidate, answer: PageAnswer)
    requires c.score <= FULL
    ensures c.score <= Verified(c, answer).score <= FULL && Verified(c, answer).url == c.url
  {
  }

  // After verification only the first two can have moved, and the second only if it was close.
  lemma VerificationMoves(first: seq<Candidate>, wanted: bool, pages: string -> PageAnswer, i: nat)
    requires DistinctUrls(first) && Unverified(first) && Descending(first) && i < |first|
    ensures var v := VerifyAll(first, ToVerify(first, wanted), pages);
            && v[i].url == first[i].url && v[i].score >= first[i].score
            && (v[i] != first[i] ==>
                  && wanted && first[0].score >= UNCERTAIN && i <= 1 && v[i] == Verified(first[i], pages(first[i].url))
                  && (i == 1 ==> first[0].score - first[1].score < AMBIGUITY_MARGIN))
  {
    assert first[i] in first;
    VerifiedScore(first[i], pages(first[i].url));
  }

  // The position of the winner in the first ranking.
  lemma WinnerPosition(first: seq<Candidate>, wanted: bool, pages: string -> PageAnswer) returns (w: nat)
    requires first != [] && DistinctUrls(first) && Unverified(first) && Descending(first)
    ensures var v := VerifyAll(first, ToVerify(first, wanted), pages);
            w < |first| && Sort(Stronger(), v) != [] && Sort(Stronger(), v)[0] == v[w] && w <= 1
            && (w == 1 ==> first[0].score - first[1].score < AMBIGUITY_MARGIN && v[1] != first[1])
  {
    var v := VerifyAll(first, ToVerify(first, wanted), pages);
    StrongerIsOrder();
    w := SortHead(Stronger(), v);
    VerificationMoves(first, wanted, pages, w);
    if w > 0 {
      assert Stronger()(v[w], v[0]);
      VerificationMoves(first, wanted, pages, 0);
    }
  }

  // The winner is the leader of the first ranking, or the second if it stood within the margin.
  lemma WinnerIsLeaderOrCloseSecond(cs: seq<Candidate>, wanted: bool, pages: string -> PageAnswer,
                                    name: Candidate -> real)
    requires cs != [] && DistinctUrls(cs) && Unverified(cs)
    ensures var first, out := Sort(Stronger(), cs), Resolve(cs, wanted, pages, name);
            && out.ranked != [] && first != []
            && (out.ranked[0].url == first[0].url
                || (|first| > 1 && out.ranked[0].url == first[1].url
                    && first[0].score - first[1].score < AMBIGUITY_MARGIN))
  {
    FirstRanking(cs);
    var first := Sort(Stronger(), cs);
    var w := WinnerPosition(first, wanted, pages);
    VerificationMoves(first, wanted, pages, w);
  }

  // ---- What a confirmation means ---------------------------------------------------------

  // A confirmed winner was read, and its page bears the name and the city, the phone or the registry
  // id; it already scored above 0.39 from the search alone; its name score is at least one half; and
  // no other candidate is both plausible and close.
  lemma ConfirmedMeans(cs: seq<Candidate>, wanted: bool, pages: string -> PageAnswer, name: Candidate -> real)
    returns (c: Candidate)
    requires DistinctUrls(cs) && Unverified(cs)
    requires Resolve(cs, wanted, pages, name).status == Confirmed
    ensures var ranked := Resolve(cs, wanted, pages, name).ranked;
            && wanted && c in cs && ranked != [] && ranked[0] == Verified(c, pages(c.url))
            && pages(c.url).Page? && pages(c.url).checks.name
            && (pages(c.url).checks.city || pages(c.url).checks.phone || pages(c.url).checks.registryId)
            && c.score > 3900 && ranked[0].score >= CONFIRMED
            && name(ranked[0]) >= MIN_NAME_SIMILARITY
            && (|ranked| > 1 ==> ranked[1].score < PROBABLE || ranked[0].score - ranked[1].score >= AMBIGUITY_MARGIN)
  {
    FirstRanking(cs);
    var first := Sort(Stronger(), cs);
    SortOfNone(cs, wanted, pages, name);
    var w := WinnerPosition(first, wanted, pages);
    VerificationMoves(first, wanted, pages, w);
    c := first[w];
    assert c in first;
  }

  lemma SortOfNone(cs: seq<Candidate>, wanted: bool, pages: string -> PageAnswer, name: Candidate -> real)
    ensures cs == [] ==> Resolve(cs, wanted, pages, name).status == NotFound
  {
  }

  // The runner-up rule protects against every other candidate, not just the second in the ranking.
  lemma NoCloseRival(cs: seq<Candidate>, wanted: bool, pages: string -> PageAnswer, name: Candidate -> real, i: nat)
    requires Resolve(cs, wanted, pages, name).status == Confirmed
    requires 1 <= i < |Resolve(cs, wanted, pages, name).ranked|
    ensures var r := Resolve(cs, wanted, pages, name).ranked;
            r[i].score < PROBABLE || r[0].score - r[i].score >= AMBIGUITY_MARGIN
  {
    var r := Resolve(cs, wanted, pages, name).ranked;
    var first := Sort(Stronger(), cs);
    StrongerIsOrder();
    SortSpec(Stronger(), VerifyAll(first, ToVerify(first, wanted), pages));
    assert i > 1 ==> !Stronger()(r[i], r[1]);
  }

  // ---- The other verdicts ----------------------------------------------------------------

  // Two candidates that score alike and well.
  predicate Homonym(ranked: seq<Candidate>) {
    |ranked| > 1 && ranked[0].score - ranked[1].score < AMBIGUITY_MARGIN && ranked[1].score >= PROBABLE
  }

  lemma ResolutionDescends(cs: seq<Candidate>, wanted: bool, pages: string -> PageAnswer, name: Candidate -> real)
    ensures Descending(Resolve(cs, wanted, pages, name).ranked)
    ensures var out := Resolve(cs, wanted, pages, name);
            out.status == DecideStatus(out.ranked, if out.ranked == [] then 0.0 else name(out.ranked[0]))
  {
    var first := Sort(Stronger(), cs);
    SortDescends(VerifyAll(first, ToVerify(first, wanted), pages));
  }

  // The page was read and bears the name, and the city, the phone or the registry id.
  predicate PageAgrees(v: Option<Verification>) {
    match v
    case Some(Verification(true, Checks(true, city, phone, registryId))) => city || phone || registryId
    case _ => false
  }

  // Nothing is found iff no candidate is left, its name is weak, or its score is; and a website is
  // proposed iff its name and score are strong and it has no homonym.
  lemma VerdictByCases(cs: seq<Candidate>, wanted: bool, pages: string -> PageAnswer, name: Candidate -> real)
    ensures var out := Resolve(cs, wanted, pages, name); var r := out.ranked;
            && (out.status == NotFound <==> r == [] || name(r[0]) < 0.5 || r[0].score < 4500)
            && (out.status in {Confirmed, Probable} <==>
                  && r != [] && name(r[0]) >= 0.5 && r[0].score >= 6500
                  && (|r| > 1 ==> r[1].score < 6500 || r[0].score - r[1].score >= 600))
            && (out.status in {Confirmed, Probable} ==>
                  (out.status == Confirmed <==> r[0].score >= 8000 && PageAgrees(r[0].verification)))
  {
    ResolutionDescends(cs, wanted, pages, name);
    var r := Resolve(cs, wanted, pages, name).ranked;
    assert |r| > 1 ==> r[0].score >= r[1].score;
  }

  // ---- The country -----------------------------------------------------------------------

  // The score that everything but the country would earn, unclipped.
  function Domestic(s: Signals): int { Round(OtherEvidence(s)) }

  lemma ForeignPenalty(s: Signals)
    requires s.tld == Foreign && OtherEvidence(s) >= 0.35
    ensures SearchScore(s) == Clip(Domestic(s) - 3500)
  {
  }

  lemma SortOne(c: Candidate)
    ensures Sort(Stronger(), [c]) == [c]
  {
    SortSingle(Stronger(), c);
  }
}
