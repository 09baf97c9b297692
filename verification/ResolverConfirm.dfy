/** Which candidate of a list its pages can confirm, and what that means for a foreign domain. */
module ResolverConfirm {
  import opened Wrappers
  import opened StableSort
  import opened Resolver
  import opened ResolverTheorems
  import opened ResolverRanking

  // Some answers of the pages, with what the request asks for, make the candidate the confirmed winner.
  ghost predicate CanConfirm(cs: seq<Candidate>, name: Candidate -> real, askable: Checks, c: Candidate) {
    exists pages: string -> PageAnswer :: Within(pages, askable) && Confirms(cs, name, c, pages)
  }

  // What the decision needs for a confirmation.
  predicate WinsOutright(ranked: seq<Candidate>, name: Candidate -> real) {
    && ranked != [] && name(ranked[0]) >= MIN_NAME_SIMILARITY && !Homonym(ranked)
    && ranked[0].score >= CONFIRMED && Corroborated(ranked[0].verification)
  }

  lemma ConfirmedIffOutright(cs: seq<Candidate>, name: Candidate -> real, c: Candidate, pages: string -> PageAnswer)
    ensures var ranked := Final(Sort(Stronger(), cs), true, pages);
            Confirms(cs, name, c, pages) <==> WinsOutright(ranked, name) && ranked[0].url == c.url
  {
    VerdictByCases(cs, true, pages, name);
  }

  predicate Confirms(cs: seq<Candidate>, name: Candidate -> real, c: Candidate, pages: string -> PageAnswer) {
    var out := Resolve(cs, true, pages, name);
    out.status == Confirmed && out.ranked != [] && out.ranked[0].url == c.url
  }

  // It was read, and nobody blocks it.
  lemma ConfirmedWasRead(cs: seq<Candidate>, name: Candidate -> real, c: Candidate, pages: string -> PageAnswer)
    requires DistinctUrls(cs) && Unverified(cs) && c in cs && Steady(name) && Confirms(cs, name, c, pages)
    ensures name(c) >= MIN_NAME_SIMILARITY && IsRead(Sort(Stronger(), cs), c) && Unrivalled(cs, c)
  {
    var r := Sort(Stronger(), cs);
    FirstRanking(cs);
    ConfirmedIffOutright(cs, name, c, pages);
    WinnerWasRead(r, name, c, pages);
    forall d | d in cs && d.url != c.url ensures d.score <= FULL - AMBIGUITY_MARGIN {
      NobodyRivals(r, name, pages, d);
    }
  }

  lemma WinnerWasRead(r: seq<Candidate>, name: Candidate -> real, c: Candidate, pages: string -> PageAnswer)
    requires Ready(r) && c in r && Steady(name)
    requires WinsOutright(Final(r, true, pages), name) && Final(r, true, pages)[0].url == c.url
    ensures name(c) >= MIN_NAME_SIMILARITY && IsRead(r, c)
  {
    var i := Origin(r, true, pages, Final(r, true, pages)[0]);
    assert r[i] in r && r[i] == c;
  }

  lemma NobodyRivals(r: seq<Candidate>, name: Candidate -> real, pages: string -> PageAnswer, d: Candidate)
    requires Ready(r) && d in r && WinsOutright(Final(r, true, pages), name) && Final(r, true, pages)[0].url != d.url
    ensures d.score <= FULL - AMBIGUITY_MARGIN
  {
    var ranked := Final(r, true, pages);
    var k :| 0 <= k < |r| && r[k] == d;
    var e := Survives(r, true, pages, k);
    FinalSpec(r, true, pages);
    HomonymIffRival(ranked);
    assert !Rival(ranked, e);
    var t := Origin(r, true, pages, ranked[0]);
  }

  // What was found suffices, so all that could be found does.
  lemma WinnerWasCorroborated(r: seq<Candidate>, name: Candidate -> real, askable: Checks, c: Candidate,
                              pages: string -> PageAnswer)
    requires Ready(r) && c in r && Within(pages, askable)
    requires WinsOutright(Final(r, true, pages), name) && Final(r, true, pages)[0].url == c.url
    ensures CanCorroborate(askable) && c.score + Boost(askable) >= CONFIRMED
  {
    var i := Origin(r, true, pages, Final(r, true, pages)[0]);
    assert r[i] in r && r[i] == c;
    assert pages(c.url).Page?;
    MoreIsBetter(pages(c.url).checks, askable);
  }

  // With what can be found, the candidate can reach the confirmation threshold and be corroborated.
  predicate CanReach(c: Candidate, askable: Checks) {
    CanCorroborate(askable) && c.score + Boost(askable) >= CONFIRMED
  }

  lemma ReachClears(r: seq<Candidate>, askable: Checks, c: Candidate)
    requires Ready(r) && IsRead(r, c) && Unrivalled(r, c) && CanReach(c, askable)
    ensures ClearsAll(r, c, askable)
  {
    assert Boost(askable) >= 2800;
    forall d | d in r && d.url != c.url ensures Clears(Raised(c.score, askable), d.score) {
      assert d.score <= r[0].score;
    }
  }

  lemma ReadWinsOutright(r: seq<Candidate>, name: Candidate -> real, askable: Checks, c: Candidate)
    requires Ready(r) && Steady(name) && name(c) >= MIN_NAME_SIMILARITY
    requires IsRead(r, c) && Unrivalled(r, c) && CanReach(c, askable)
    ensures var ranked := Final(r, true, TwoPages(c.url, c.url, askable));
            WinsOutright(ranked, name) && ranked[0].url == c.url
  {
    ReachClears(r, askable, c);
    ReadAloneWins(r, c, c.url, askable);
    assert name(Verified(c, Page(askable))) == name(c);
  }

  lemma ReadIsConfirmed(cs: seq<Candidate>, name: Candidate -> real, askable: Checks, c: Candidate)
    requires DistinctUrls(cs) && Unverified(cs) && c in cs && Steady(name)
    requires name(c) >= MIN_NAME_SIMILARITY && IsRead(Sort(Stronger(), cs), c) && Unrivalled(cs, c)
    requires CanReach(c, askable)
    ensures CanConfirm(cs, name, askable, c)
  {
    var pages, r := TwoPages(c.url, c.url, askable), Sort(Stronger(), cs);
    FirstRanking(cs);
    ReadWinsOutright(r, name, askable, c);
    ConfirmedIffOutright(cs, name, c, pages);
    assert Within(pages, askable) && Confirms(cs, name, c, pages);
  }

  // For a request with given things to find, pages can confirm a candidate iff its name scores at
  // least 0.5, it leads the first ranking with at least 0.45 or is second, close behind such a leader,
  // no other candidate is above 0.94, and what can be found corroborates it and lifts it to 0.80.
  lemma ConfirmableIff(cs: seq<Candidate>, name: Candidate -> real, askable: Checks, c: Candidate)
    requires DistinctUrls(cs) && Unverified(cs) && c in cs && Steady(name)
    ensures CanConfirm(cs, name, askable, c)
       <==> name(c) >= MIN_NAME_SIMILARITY && IsRead(Sort(Stronger(), cs), c) && Unrivalled(cs, c)
            && CanReach(c, askable)
  {
    var r := Sort(Stronger(), cs);
    FirstRanking(cs);
    if pages: string -> PageAnswer :| Within(pages, askable) && Confirms(cs, name, c, pages) {
      ConfirmedWasRead(cs, name, c, pages);
      ConfirmedIffOutright(cs, name, c, pages);
      WinnerWasCorroborated(r, name, askable, c, pages);
    }
    if name(c) >= MIN_NAME_SIMILARITY && IsRead(r, c) && Unrivalled(cs, c) && CanReach(c, askable) {
      ReadIsConfirmed(cs, name, askable, c);
    }
  }

  // ---- Foreign domains -------------------------------------------------------------------

  lemma ForeignScoreIs(s: Signals)
    requires s.tld == Foreign && 0.0 <= s.nameScore <= 1.0
    ensures SearchScore(s) == Domestic(s) - 3500 || (SearchScore(s) <= 0 && Domestic(s) <= 3500)
  {
    if OtherEvidence(s) < 0.35 {
      assert Domestic(s) <= 3500;
      assert Round(OtherEvidence(s) - 0.35) <= 0;
    } else {
      ForeignPenalty(s);
      assert OtherEvidence(s) <= 1.09;
    }
  }

  // Where a foreign candidate must stand to be read, in terms of its evidence without the country.
  predicate ForeignIsRead(first: seq<Candidate>, c: Candidate, s: Signals) {
    || (first != [] && first[0] == c && Domestic(s) >= 8000)
    || (|first| > 1 && first[1] == c && first[0].score >= UNCERTAIN
        && first[0].score - (Domestic(s) - 3500) < AMBIGUITY_MARGIN)
  }

  // A foreign top-level domain does not rule a candidate out. Among any others its page can confirm it
  // iff its name scores at least 0.5, none of them is above 0.94, it leads with other evidence of at
  // least 0.80 or is second, close behind a leader that is read, and what can be found on its page
  // corroborates it and, with its other evidence, comes to 1.15.
  lemma ForeignConfirmedIff(cs: seq<Candidate>, name: Candidate -> real, askable: Checks, c: Candidate, s: Signals)
    requires DistinctUrls(cs) && Unverified(cs) && c in cs && Steady(name)
    requires s.tld == Foreign && 0.0 <= s.nameScore <= 1.0 && c.score == SearchScore(s)
    ensures CanConfirm(cs, name, askable, c)
       <==> name(c) >= MIN_NAME_SIMILARITY && ForeignIsRead(Sort(Stronger(), cs), c, s) && Unrivalled(cs, c)
            && CanCorroborate(askable) && Domestic(s) + Boost(askable) >= 11500
  {
    ConfirmableIff(cs, name, askable, c);
    ForeignScoreIs(s);
    FirstRanking(cs);
  }

  // For a request without phone number and registry id the documented rule holds: no foreign domain is
  // confirmed, whatever its page says.
  lemma ForeignNeedsNumber(cs: seq<Candidate>, name: Candidate -> real, askable: Checks, c: Candidate, s: Signals)
    requires DistinctUrls(cs) && Unverified(cs) && c in cs && Steady(name)
    requires s.tld == Foreign && 0.0 <= s.nameScore <= 1.0 && c.score == SearchScore(s)
    requires !s.phone && !s.registryId && !askable.phone && !askable.registryId
    ensures !CanConfirm(cs, name, askable, c)
  {
    ForeignConfirmedIff(cs, name, askable, c, s);
    assert OtherEvidence(s) <= 0.84;
    assert Domestic(s) <= 8400;
  }

  // A search in which a foreign candidate with these signals stands among others.
  ghost predicate Hosts(cs: seq<Candidate>, name: Candidate -> real, c: Candidate, s: Signals) {
    DistinctUrls(cs) && Unverified(cs) && c in cs && Steady(name) && c.score == SearchScore(s) && name(c) == s.nameScore
  }

  ghost predicate CanWin(s: Signals) {
    exists cs, name: Candidate -> real, askable, c :: Hosts(cs, name, c, s) && CanConfirm(cs, name, askable, c)
  }

  const EVERYTHING := Checks(true, true, true, true)

  lemma CloseSecond(leader: Candidate, c: Candidate)
    requires leader.score == UNCERTAIN > c.score && leader.score - c.score < AMBIGUITY_MARGIN
    ensures IsRead(Sort(Stronger(), [leader, c]), c)
  {
    assert [leader, c][..1] == [leader];
    SortOne(leader);
    assert Sort(Stronger(), [leader, c]) == Insert(Stronger(), [leader], c) == [leader, c];
  }

  // So for some search it can win iff its other evidence is above 0.74 and its name at least 0.5.
  lemma ForeignCanWinIff(s: Signals)
    requires s.tld == Foreign && 0.0 <= s.nameScore <= 1.0
    ensures CanWin(s) <==> Domestic(s) > 7400 && s.nameScore >= MIN_NAME_SIMILARITY
  {
    ForeignScoreIs(s);
    if cs, name: Candidate -> real, askable, c :| Hosts(cs, name, c, s) && CanConfirm(cs, name, askable, c) {
      ConfirmableIff(cs, name, askable, c);
      FirstRanking(cs);
    }
    if Domestic(s) > 7400 && s.nameScore >= MIN_NAME_SIMILARITY {
      ForeignWins(s);
    }
  }

  lemma ForeignWins(s: Signals)
    requires s.tld == Foreign && 0.0 <= s.nameScore <= 1.0
    requires Domestic(s) > 7400 && s.nameScore >= MIN_NAME_SIMILARITY
    ensures CanWin(s)
  {
    ForeignScoreIs(s);
    var c := Candidate("u", "d", "t", SearchScore(s), None);
    if c.score >= UNCERTAIN {
      SortOne(c);
      WinsAmong([c], c, s);
    } else {
      var leader := Candidate("l", "d", "t", UNCERTAIN, None);
      CloseSecond(leader, c);
      WinsAmong([leader, c], c, s);
    }
  }

  lemma WinsAmong(cs: seq<Candidate>, c: Candidate, s: Signals)
    requires DistinctUrls(cs) && Unverified(cs) && c in cs && c.score == SearchScore(s)
    requires s.nameScore >= MIN_NAME_SIMILARITY && IsRead(Sort(Stronger(), cs), c) && Unrivalled(cs, c)
    ensures CanWin(s)
  {
    var name := (x: Candidate) => s.nameScore;
    ReadIsConfirmed(cs, name, EVERYTHING, c);
    assert Hosts(cs, name, c, s);
  }

  // ---- A foreign candidate by itself -----------------------------------------------------

  function Lone(s: Signals): Candidate { Candidate("u", "d", "t", SearchScore(s), None) }

  predicate ConfirmedBy(s: Signals, answer: PageAnswer) {
    Resolve([Lone(s)], true, (u: string) => answer, (c: Candidate) => s.nameScore).status == Confirmed
  }

  // Some answer to the request for its page leads to a confirmation.
  ghost predicate CanBeConfirmed(s: Signals, askable: Checks) {
    exists answer: PageAnswer :: (answer.Page? ==> AtMost(answer.checks, askable)) && ConfirmedBy(s, answer)
  }

  lemma LoneResolution(s: Signals, answer: PageAnswer)
    ensures var out := Resolve([Lone(s)], true, (u: string) => answer, (c: Candidate) => s.nameScore);
            var c := if SearchScore(s) >= UNCERTAIN then Verified(Lone(s), answer) else Lone(s);
            out == Outcome(DecideStatus([c], s.nameScore), [c])
  {
    var one := [Lone(s)];
    var pages := (u: string) => answer;
    SortOne(Lone(s));
    var chosen := ToVerify(one, true);
    var c := if SearchScore(s) >= UNCERTAIN then Verified(Lone(s), answer) else Lone(s);
    assert VerifyAll(one, chosen, pages) == [c];
    SortOne(c);
  }

  lemma LoneVerdict(c: Candidate, nameScore: real)
    ensures DecideStatus([c], nameScore) == Confirmed
       <==> nameScore >= MIN_NAME_SIMILARITY && c.score >= CONFIRMED && Corroborated(c.verification)
  {
  }

  lemma LoneConfirmation(s: Signals, answer: PageAnswer)
    ensures ConfirmedBy(s, answer) <==>
              && SearchScore(s) >= UNCERTAIN && s.nameScore >= MIN_NAME_SIMILARITY
              && answer.Page? && Corroborated(Some(Verification(true, answer.checks)))
              && SearchScore(s) + Boost(answer.checks) >= CONFIRMED
  {
    LoneResolution(s, answer);
    LoneVerdict(if SearchScore(s) >= UNCERTAIN then Verified(Lone(s), answer) else Lone(s), s.nameScore);
  }

  // As the only candidate it can be confirmed exactly when its other evidence scores at least 0.80, its
  // name at least 0.5, and what can be found on its page corroborates it and, with that evidence, comes
  // to 1.15.
  lemma ForeignAloneIff(s: Signals, askable: Checks)
    requires s.tld == Foreign && 0.0 <= s.nameScore <= 1.0
    ensures CanBeConfirmed(s, askable)
       <==> Domestic(s) >= 8000 && s.nameScore >= MIN_NAME_SIMILARITY
            && CanCorroborate(askable) && Domestic(s) + Boost(askable) >= 11500
  {
    ForeignScoreIs(s);
    if answer: PageAnswer :| (answer.Page? ==> AtMost(answer.checks, askable)) && ConfirmedBy(s, answer) {
      LoneConfirmation(s, answer);
      MoreIsBetter(answer.checks, askable);
    }
    LoneConfirmation(s, Page(askable));
  }

  // Such evidence exists: a perfect name with every search signal present.
  lemma ForeignCanBeConfirmed()
    ensures CanBeConfirmed(Signals(1.0, true, true, true, true, 2, 2, Foreign, 3), EVERYTHING)
  {
    var s := Signals(1.0, true, true, true, true, 2, 2, Foreign, 3);
    assert OtherEvidence(s) == 1.09;
    assert Domestic(s) == 10900;
    ForeignAloneIff(s, EVERYTHING);
  }
}
