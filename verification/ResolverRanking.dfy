/** The final ranking of a resolution, candidate by candidate. */
module ResolverRanking {
  import opened Wrappers
  import opened StableSort
  import opened RankedMap
  import opened Resolver
  import opened ResolverTheorems

  function Final(first: seq<Candidate>, wanted: bool, pages: string -> PageAnswer): seq<Candidate> {
    Sort(Stronger(), VerifyAll(first, ToVerify(first, wanted), pages))
  }

  // A plausible candidate close behind the winner.
  predicate Rival(ranked: seq<Candidate>, c: Candidate) {
    && ranked != [] && c in ranked && c.url != ranked[0].url
    && c.score >= PROBABLE && ranked[0].score - c.score < AMBIGUITY_MARGIN
  }

  lemma HomonymIffRival(ranked: seq<Candidate>)
    requires Descending(ranked) && DistinctUrls(ranked)
    ensures Homonym(ranked) <==> exists c :: Rival(ranked, c)
  {
    if Homonym(ranked) {
      assert Rival(ranked, ranked[1]);
    }
    if c :| Rival(ranked, c) {
      var i :| 0 <= i < |ranked| && ranked[i] == c;
      assert ranked[1].score >= ranked[i].score;
    }
  }

  predicate Ready(first: seq<Candidate>) {
    Descending(first) && DistinctUrls(first) && Unverified(first)
  }

  lemma VerifiedUrlsDiffer(first: seq<Candidate>, chosen: set<string>, pages: string -> PageAnswer)
    requires DistinctUrls(first)
    ensures DistinctUrls(VerifyAll(first, chosen, pages))
  {
  }

  // The final ranking has the verified candidates, strongest first.
  lemma FinalSpec(first: seq<Candidate>, wanted: bool, pages: string -> PageAnswer)
    requires Ready(first)
    ensures var f, v := Final(first, wanted, pages), VerifyAll(first, ToVerify(first, wanted), pages);
            && Descending(f) && DistinctUrls(f) && |f| == |first|
            && (forall c :: c in f <==> c in v)
  {
    var f, v := Final(first, wanted, pages), VerifyAll(first, ToVerify(first, wanted), pages);
    SortDescends(v);
    VerifiedUrlsDiffer(first, ToVerify(first, wanted), pages);
    forall i, j | 0 <= i < j < |f| ensures f[i].url != f[j].url {
      RankedUrlsDiffer(v, i, j);
    }
    StrongerIsOrder();
    forall c ensures c in f <==> c in v {
      SortMembers(Stronger(), v, c);
    }
  }

  // Where a candidate of the final ranking stood in the first.
  lemma Origin(first: seq<Candidate>, wanted: bool, pages: string -> PageAnswer, c: Candidate) returns (i: nat)
    requires Ready(first) && c in Final(first, wanted, pages)
    ensures i < |first| && c == VerifyAll(first, ToVerify(first, wanted), pages)[i]
    ensures c.url == first[i].url && first[i].score <= c.score <= FULL
    ensures c != first[i] ==>
              wanted && first[0].score >= UNCERTAIN && i <= 1 && c == Verified(first[i], pages(c.url))
              && (i == 1 ==> first[0].score - first[1].score < AMBIGUITY_MARGIN)
  {
    FinalSpec(first, wanted, pages);
    var v := VerifyAll(first, ToVerify(first, wanted), pages);
    i :| 0 <= i < |v| && v[i] == c;
    assert first[i] in first;
    VerificationMoves(first, wanted, pages, i);
    VerifiedScore(first[i], pages(first[i].url));
  }

  // And where one of the first ranking stands in the final one.
  lemma Survives(first: seq<Candidate>, wanted: bool, pages: string -> PageAnswer, i: nat) returns (c: Candidate)
    requires Ready(first) && i < |first|
    ensures c in Final(first, wanted, pages) && c == VerifyAll(first, ToVerify(first, wanted), pages)[i]
    ensures c.url == first[i].url && first[i].score <= c.score <= FULL
  {
    FinalSpec(first, wanted, pages);
    c := VerifyAll(first, ToVerify(first, wanted), pages)[i];
    var k := Origin(first, wanted, pages, c);
  }

  // ---- What a request can find on a page -------------------------------------------------

  // What is found on a page is at most what the request asks for: without a phone number in the
  // request, say, none is recognised.
  predicate AtMost(found: Checks, askable: Checks) {
    && (found.name ==> askable.name) && (found.city ==> askable.city)
    && (found.phone ==> askable.phone) && (found.registryId ==> askable.registryId)
  }

  ghost predicate Within(pages: string -> PageAnswer, askable: Checks) {
    forall u :: pages(u).Page? ==> AtMost(pages(u).checks, askable)
  }

  predicate CanCorroborate(askable: Checks) { Corroborated(Some(Verification(true, askable))) }

  // A score with everything found.
  function Raised(score: int, askable: Checks): int { Clip(score + Boost(askable)) }

  lemma MoreIsBetter(found: Checks, askable: Checks)
    requires AtMost(found, askable)
    ensures Boost(found) <= Boost(askable) && (CanCorroborate(found) ==> CanCorroborate(askable))
  {
  }

  // A page can raise a score no further.
  lemma RaisedBound(first: seq<Candidate>, wanted: bool, pages: string -> PageAnswer, askable: Checks, c: Candidate)
    returns (i: nat)
    requires Ready(first) && Within(pages, askable) && c in Final(first, wanted, pages)
    ensures i < |first| && c.url == first[i].url && first[i].score <= c.score <= Raised(first[i].score, askable)
  {
    i := Origin(first, wanted, pages, c);
    assert first[i] in first;
    if c != first[i] && pages(c.url).Page? {
      MoreIsBetter(pages(c.url).checks, askable);
    }
  }

  // The pages of two candidates bear everything asked for, and no other can be read.
  function TwoPages(u: string, v: string, askable: Checks): string -> PageAnswer {
    (url: string) => if url == u || url == v then Page(askable) else Unreadable
  }

  lemma TwoPagesWithin(u: string, v: string, askable: Checks)
    ensures Within(TwoPages(u, v, askable), askable)
  {
  }

  // The name score of a candidate does not depend on its verification.
  ghost predicate Steady(name: Candidate -> real) {
    forall c, answer :: name(Verified(c, answer)) == name(c)
  }

  // Whoever stands in the final ranking has the name score it came with.
  lemma NameStays(first: seq<Candidate>, wanted: bool, pages: string -> PageAnswer, name: Candidate -> real,
                  c: Candidate)
    returns (i: nat)
    requires Ready(first) && Steady(name) && c in Final(first, wanted, pages)
    ensures i < |first| && c.url == first[i].url && name(c) == name(first[i])
  {
    i := Origin(first, wanted, pages, c);
  }

  // A candidate whose page is asked for: the leader, or the second close behind it.
  predicate IsRead(first: seq<Candidate>, c: Candidate) {
    && first != [] && first[0].score >= UNCERTAIN
    && (first[0] == c || (|first| > 1 && first[1] == c && first[0].score - c.score < AMBIGUITY_MARGIN))
  }

  // No other candidate is so near the top of the scale that nothing can leave it behind.
  predicate Unrivalled(cs: seq<Candidate>, c: Candidate) {
    forall d | d in cs && d.url != c.url :: d.score <= FULL - AMBIGUITY_MARGIN
  }

  lemma ReadIsVerified(first: seq<Candidate>, c: Candidate, pages: string -> PageAnswer) returns (a: Candidate)
    requires Ready(first) && IsRead(first, c)
    ensures a == Verified(c, pages(c.url)) && a in Final(first, true, pages) && 3900 < c.score <= FULL
  {
    a := Survives(first, true, pages, if first[0] == c then 0 else 1);
    assert c in first;
  }

  lemma Unread(first: seq<Candidate>, c: Candidate, v: string, askable: Checks, d: Candidate)
    requires Ready(first) && IsRead(first, c) && forall e | e in first && e.url == v :: e == c
    requires d in Final(first, true, TwoPages(c.url, v, askable)) && d.url != c.url
    ensures exists e :: e in first && e.url == d.url && e.score == d.score
  {
    var i := Origin(first, true, TwoPages(c.url, v, askable), d);
    assert first[i] in first;
  }

  // A score that leaves another one behind, or that one is not plausible.
  predicate Clears(score: int, other: int) {
    other < PROBABLE || score - other >= AMBIGUITY_MARGIN
  }

  predicate ClearsAll(first: seq<Candidate>, c: Candidate, askable: Checks) {
    && Raised(c.score, askable) >= PROBABLE
    && forall d | d in first && d.url != c.url :: Clears(Raised(c.score, askable), d.score)
  }

  // If its page, and no other, bears everything asked for, a candidate that can clear all others wins.
  lemma ReadAloneWins(first: seq<Candidate>, c: Candidate, v: string, askable: Checks)
    requires Ready(first) && IsRead(first, c) && ClearsAll(first, c, askable)
    requires forall e | e in first && e.url == v :: e == c
    ensures var ranked := Final(first, true, TwoPages(c.url, v, askable));
            && ranked != [] && ranked[0] == Verified(c, Page(askable)) && !Homonym(ranked)
            && ranked[0].score == Raised(c.score, askable)
  {
    var pages := TwoPages(c.url, v, askable);
    var ranked := Final(first, true, pages);
    FinalSpec(first, true, pages);
    var a := ReadIsVerified(first, c, pages);
    forall d | d in ranked && d.url != c.url ensures d.score < a.score && Clears(a.score, d.score) {
      Unread(first, c, v, askable, d);
    }
    TopOf(ranked, a);
    HomonymIffRival(ranked);
  }

  lemma TopOf(ranked: seq<Candidate>, a: Candidate)
    requires Descending(ranked) && DistinctUrls(ranked) && a in ranked
    requires forall d | d in ranked && d.url != a.url :: d.score < a.score
    ensures ranked[0] == a
  {
    var k :| 0 <= k < |ranked| && ranked[k] == a;
    assert ranked[0] in ranked && ranked[0].score >= ranked[k].score;
  }
}
