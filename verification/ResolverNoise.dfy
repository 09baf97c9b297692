/** When dropping the candidates whose names are noise changes which website is proposed. */
module ResolverNoise {
  import opened Wrappers
  import opened StableSort
  import opened Resolver
  import opened ResolverTheorems
  import opened ResolverRanking
  import opened NoiseFilter

  // The website a resolution proposes.
  function Website(cs: seq<Candidate>, wanted: bool, pages: string -> PageAnswer,
                   name: Candidate -> real): Option<string> {
    var out := Resolve(cs, wanted, pages, name);
    if out.ranked != [] && out.status in {Confirmed, Probable} then Some(out.ranked[0].url) else None
  }

  function NoiseAmong(cs: seq<Candidate>, name: Candidate -> real): set<string> {
    set c | c in cs && name(c) < NOISE_FLOOR :: c.url
  }

  // Some answers of the pages, with what the request asks for, make the noise filter change the outcome.
  ghost predicate FilterMatters(cs: seq<Candidate>, name: Candidate -> real, askable: Checks) {
    exists wanted: bool, pages: string -> PageAnswer ::
      Within(pages, askable) &&
      Website(Keep(cs, NoiseAmong(cs, name)), wanted, pages, name) != Website(cs, wanted, pages, name)
  }

  // ---- The outcome of a final ranking ----------------------------------------------------

  predicate Fits(c: Candidate, name: Candidate -> real) { name(c) >= MIN_NAME_SIMILARITY }

  function Proposed(ranked: seq<Candidate>, name: Candidate -> real): Option<string> {
    if ranked != [] && Fits(ranked[0], name) && ranked[0].score >= PROBABLE && !Homonym(ranked)
    then Some(ranked[0].url) else None
  }

  lemma WebsiteIsProposed(cs: seq<Candidate>, wanted: bool, pages: string -> PageAnswer, name: Candidate -> real)
    ensures Website(cs, wanted, pages, name) == Proposed(Final(Sort(Stronger(), cs), wanted, pages), name)
  {
    VerdictByCases(cs, wanted, pages, name);
  }

  lemma NotAloneAtTop(first: seq<Candidate>, wanted: bool, pages: string -> PageAnswer, name: Candidate -> real,
                      c: Candidate)
    requires Ready(first) && Rival(Final(first, wanted, pages), c)
    ensures Proposed(Final(first, wanted, pages), name) == None
  {
    FinalSpec(first, wanted, pages);
    HomonymIffRival(Final(first, wanted, pages));
  }

  // ---- When the filter changes nothing ---------------------------------------------------

  ghost predicate Floored(first: seq<Candidate>, name: Candidate -> real, noise: set<string>) {
    Steady(name) && forall c | c in first :: c.url in noise <==> name(c) < NOISE_FLOOR
  }

  lemma {:induction false} KeepReady(first: seq<Candidate>, noise: set<string>)
    requires Ready(first)
    ensures Ready(Keep(first, noise))
    ensures Keep(first, noise) != [] ==> forall c | c in first && c.url !in noise ::
          c.score <= Keep(first, noise)[0].score
  {
    if first != [] {
      KeepReady(first[1..], noise);
      forall c ensures c in Keep(first[1..], noise) <==> c in first[1..] && c.url !in noise {
        KeepMembers(first[1..], noise, c);
      }
      assert first == [first[0]] + first[1..];
    }
  }

  // Without a candidate worth verifying nothing is proposed.
  lemma WeakLeader(first: seq<Candidate>, wanted: bool, pages: string -> PageAnswer, name: Candidate -> real)
    requires Ready(first) && (first == [] || first[0].score < UNCERTAIN)
    ensures Proposed(Final(first, wanted, pages), name) == None
  {
    var ranked := Final(first, wanted, pages);
    FinalSpec(first, wanted, pages);
    if ranked != [] {
      var i := Origin(first, wanted, pages, ranked[0]);
    }
  }

  // Noise in front of the best of the others brought about that its page is read.
  predicate NoiseLifts(r: seq<Candidate>, noise: set<string>) {
    && |r| > 1 && r[0].url in noise && r[0].score >= UNCERTAIN
    && r[1].url !in noise && r[0].score - r[1].score < AMBIGUITY_MARGIN
  }

  // The winner was the first or a close second, was fit before its page was read, and can clear all
  // others with what its page can bear.
  lemma WinnerIsClear(g: seq<Candidate>, wanted: bool, pages: string -> PageAnswer, name: Candidate -> real,
                      askable: Checks)
    returns (i: nat)
    requires Ready(g) && Steady(name) && Within(pages, askable) && Proposed(Final(g, wanted, pages), name) != None
    ensures i < |g| && i <= 1 && Proposed(Final(g, wanted, pages), name) == Some(g[i].url)
    ensures Fits(g[i], name) && ClearsAll(g, g[i], askable)
    ensures g[0].score >= UNCERTAIN && (i == 1 ==> g[0].score - g[1].score < AMBIGUITY_MARGIN)
  {
    var ranked := Final(g, wanted, pages);
    FinalSpec(g, wanted, pages);
    if g[0].score < UNCERTAIN {
      WeakLeader(g, wanted, pages, name);
    }
    i := WinnerPosition(g, wanted, pages);
    var k := NameStays(g, wanted, pages, name, ranked[0]);
    var top := RaisedBound(g, wanted, pages, askable, ranked[0]);
    assert k == i && top == i;
    forall d | d in g && d.url != g[i].url ensures Clears(Raised(g[i].score, askable), d.score) {
      OthersAreCleared(g, wanted, pages, name, d);
    }
  }

  lemma OthersAreCleared(g: seq<Candidate>, wanted: bool, pages: string -> PageAnswer, name: Candidate -> real,
                         d: Candidate)
    requires Ready(g) && d in g && Proposed(Final(g, wanted, pages), name) != None
    requires d.url != Final(g, wanted, pages)[0].url
    ensures Clears(Final(g, wanted, pages)[0].score, d.score)
  {
    var k :| 0 <= k < |g| && g[k] == d;
    var e := Survives(g, wanted, pages, k);
    if Rival(Final(g, wanted, pages), e) {
      NotAloneAtTop(g, wanted, pages, name, e);
    }
  }

  lemma WeakIsLifted(r: seq<Candidate>, wanted: bool, pages: string -> PageAnswer, name: Candidate -> real,
                     noise: set<string>, askable: Checks)
    requires Ready(r) && Floored(r, name, noise) && Within(pages, askable)
    requires Keep(r, noise) == [] || Keep(r, noise)[0].score < UNCERTAIN
    requires Proposed(Final(r, wanted, pages), name) != None
    ensures NoiseLifts(r, noise) && Fits(r[1], name) && Raised(r[1].score, askable) >= PROBABLE
  {
    KeepReady(r, noise);
    var i := WinnerIsClear(r, wanted, pages, name, askable);
    assert r[0] in r && r[i] in r;
    KeepMembers(r, noise, r[0]);
  }

  lemma WeakStaysWeak(r: seq<Candidate>, wanted: bool, pages: string -> PageAnswer, name: Candidate -> real,
                      noise: set<string>, askable: Checks)
    requires Ready(r) && Floored(r, name, noise) && Within(pages, askable)
    requires !(NoiseLifts(r, noise) && Fits(r[1], name) && Raised(r[1].score, askable) >= PROBABLE)
    requires Keep(r, noise) == [] || Keep(r, noise)[0].score < UNCERTAIN
    ensures Proposed(Final(r, wanted, pages), name) == None
  {
    if Proposed(Final(r, wanted, pages), name) != None {
      WeakIsLifted(r, wanted, pages, name, noise, askable);
    }
  }

  // Noise that is not the leader, and not close behind it.
  predicate TopIsClear(r: seq<Candidate>, noise: set<string>) {
    && r != [] && r[0].url !in noise
    && (|r| > 1 && r[1].url in noise ==> r[0].score - r[1].score >= AMBIGUITY_MARGIN)
  }

  lemma KeepFirst(cs: seq<Candidate>, noise: set<string>)
    requires cs != []
    ensures Keep(cs, noise) == (if cs[0].url in noise then [] else [cs[0]]) + Keep(cs[1..], noise)
  {
  }

  lemma KeepTop(r: seq<Candidate>, noise: set<string>)
    requires r != [] && r[0].url !in noise
    ensures Keep(r, noise) == [r[0]] + Keep(r[1..], noise)
    ensures |r| > 1 && r[1].url !in noise ==> |Keep(r, noise)| > 1 && Keep(r, noise)[1] == r[1]
    ensures |r| > 1 && r[1].url in noise ==> Keep(r, noise) == [r[0]] + Keep(r[2..], noise)
  {
    if |r| > 1 {
      KeepFirst(r[1..], noise);
      assert r[1..][1..] == r[2..];
    }
  }

  lemma SameChoice(r: seq<Candidate>, wanted: bool, noise: set<string>)
    requires Ready(r) && TopIsClear(r, noise)
    ensures ToVerify(Keep(r, noise), wanted) == ToVerify(r, wanted)
  {
    KeepTop(r, noise);
    var f := Keep(r, noise);
    if |r| > 1 && r[1].url in noise && |f| > 1 {
      KeepMembers(r[2..], noise, f[1]);
      var i :| 0 <= i < |r[2..]| && r[2..][i] == f[1];
      assert r[i + 2].score <= r[1].score;
    }
  }

  lemma {:induction false} KeepVerified(r: seq<Candidate>, chosen: set<string>, pages: string -> PageAnswer,
                                        noise: set<string>)
    ensures VerifyAll(Keep(r, noise), chosen, pages) == Keep(VerifyAll(r, chosen, pages), noise)
  {
    if r != [] {
      KeepVerified(r[1..], chosen, pages, noise);
      var v := VerifyAll(r, chosen, pages);
      assert v[1..] == VerifyAll(r[1..], chosen, pages);
      assert v[0].url == r[0].url;
      if r[0].url !in noise {
        assert VerifyAll([r[0]] + Keep(r[1..], noise), chosen, pages)
            == [v[0]] + VerifyAll(Keep(r[1..], noise), chosen, pages);
      }
    }
  }

  lemma SameRanking(r: seq<Candidate>, wanted: bool, pages: string -> PageAnswer, noise: set<string>)
    requires Ready(r) && TopIsClear(r, noise)
    ensures Final(Keep(r, noise), wanted, pages) == Keep(Final(r, wanted, pages), noise)
  {
    var chosen := ToVerify(r, wanted);
    SameChoice(r, wanted, noise);
    KeepVerified(r, chosen, pages, noise);
    SortKeeps(VerifyAll(r, chosen, pages), noise);
  }

  // The winner is kept, and any noise that rivals it has a kept candidate before it that does.
  lemma ClearTopWins(r: seq<Candidate>, wanted: bool, pages: string -> PageAnswer, noise: set<string>)
    requires Ready(r) && TopIsClear(r, noise)
    ensures Final(r, wanted, pages) != [] && Final(r, wanted, pages)[0].url !in noise
  {
    var w := WinnerPosition(r, wanted, pages);
    VerificationMoves(r, wanted, pages, w);
  }

  lemma KeptRival(r: seq<Candidate>, wanted: bool, pages: string -> PageAnswer, noise: set<string>, c: Candidate)
    returns (d: Candidate)
    requires Ready(r) && TopIsClear(r, noise) && Rival(Final(r, wanted, pages), c)
    ensures Rival(Final(r, wanted, pages), d) && d.url !in noise
  {
    if c.url !in noise {
      d := c;
    } else {
      FinalSpec(r, wanted, pages);
      var ranked := Final(r, wanted, pages);
      var i := Origin(r, wanted, pages, c);
      var t := Origin(r, wanted, pages, ranked[0]);
      var a := Survives(r, wanted, pages, 0);
      assert ranked[0].score >= a.score;
      var b := Survives(r, wanted, pages, 1);
      d := if t == 0 then b else a;
    }
  }

  lemma SameProposal(ranked: seq<Candidate>, name: Candidate -> real, noise: set<string>)
    requires Descending(ranked) && DistinctUrls(ranked) && ranked != [] && ranked[0].url !in noise
    requires (exists c :: Rival(ranked, c)) ==> exists d :: Rival(ranked, d) && d.url !in noise
    requires Descending(Keep(ranked, noise)) && DistinctUrls(Keep(ranked, noise))
    ensures Proposed(Keep(ranked, noise), name) == Proposed(ranked, name)
  {
    KeepTop(ranked, noise);
    HomonymIffRival(ranked);
    HomonymIffRival(Keep(ranked, noise));
    forall c ensures Rival(Keep(ranked, noise), c) <==> Rival(ranked, c) && c.url !in noise {
      KeepMembers(ranked, noise, c);
    }
  }

  lemma ClearTopIsSafe(r: seq<Candidate>, wanted: bool, pages: string -> PageAnswer, name: Candidate -> real,
                       noise: set<string>)
    requires Ready(r) && TopIsClear(r, noise)
    ensures Proposed(Final(Keep(r, noise), wanted, pages), name) == Proposed(Final(r, wanted, pages), name)
  {
    var ranked := Final(r, wanted, pages);
    SameRanking(r, wanted, pages, noise);
    ClearTopWins(r, wanted, pages, noise);
    FinalSpec(r, wanted, pages);
    KeepReady(r, noise);
    FinalSpec(Keep(r, noise), wanted, pages);
    if c :| Rival(ranked, c) {
      var d := KeptRival(r, wanted, pages, noise, c);
    }
    SameProposal(ranked, name, noise);
  }

  // ---- When it does ----------------------------------------------------------------------

  // Noise ranks first or second, in front of the best of the others or close behind.
  predicate NoiseIsNear(r: seq<Candidate>, noise: set<string>) {
    && Keep(r, noise) != [] && Keep(r, noise)[0].score >= UNCERTAIN
    && exists i :: 0 <= i < 2 && i < |r| && r[i].url in noise && Keep(r, noise)[0].score - r[i].score < AMBIGUITY_MARGIN
  }

  // The best of the others is fit to win, and can clear the next of them.
  predicate LeaderCouldWin(f: seq<Candidate>, name: Candidate -> real, askable: Checks) {
    && f != [] && Fits(f[0], name) && Raised(f[0].score, askable) >= PROBABLE
    && (|f| > 1 ==> Clears(Raised(f[0].score, askable), f[1].score))
  }

  // Or the next is fit, is read, and can clear the best.
  predicate SecondCouldWin(f: seq<Candidate>, name: Candidate -> real, askable: Checks) {
    && |f| > 1 && Fits(f[1], name) && f[0].score - f[1].score < AMBIGUITY_MARGIN
    && Raised(f[1].score, askable) >= PROBABLE && Clears(Raised(f[1].score, askable), f[0].score)
  }

  // Noise stands in front, or its page can make it plausible.
  predicate NoiseCanBlock(r: seq<Candidate>, noise: set<string>, askable: Checks) {
    r != [] && (r[0].url in noise || (|r| > 1 && Raised(r[1].score, askable) >= PROBABLE))
  }

  predicate Risky(r: seq<Candidate>, name: Candidate -> real, noise: set<string>, askable: Checks) {
    var f := Keep(r, noise);
    || (NoiseIsNear(r, noise)
        && ((LeaderCouldWin(f, name, askable) && NoiseCanBlock(r, noise, askable)) || SecondCouldWin(f, name, askable)))
    || (f != [] && f[0].score < UNCERTAIN && NoiseLifts(r, noise)
        && Fits(r[1], name) && Raised(r[1].score, askable) >= PROBABLE)
  }

  // When noise is near, no kept candidate but the best is among the first two.
  lemma TopKept(r: seq<Candidate>, noise: set<string>, w: nat)
    requires NoiseIsNear(r, noise) && w < 2 && w < |r| && r[w].url !in noise
    ensures Keep(r, noise)[0] == r[w]
  {
    KeepFirst(r, noise);
    if w == 1 {
      KeepFirst(r[1..], noise);
    }
  }

  lemma OneCouldWin(f: seq<Candidate>, wanted: bool, pages: string -> PageAnswer, name: Candidate -> real,
                    askable: Checks)
    requires Ready(f) && Steady(name) && Within(pages, askable) && Proposed(Final(f, wanted, pages), name) != None
    ensures LeaderCouldWin(f, name, askable) || SecondCouldWin(f, name, askable)
  {
    var i := WinnerIsClear(f, wanted, pages, name, askable);
    assert |f| > 1 ==> f[0] in f && f[1] in f && f[0].url != f[1].url;
  }

  // With noise near and no other able to win, nothing is proposed either way.
  lemma NobodyCouldWin(r: seq<Candidate>, wanted: bool, pages: string -> PageAnswer, name: Candidate -> real,
                       noise: set<string>, askable: Checks)
    requires Ready(r) && Floored(r, name, noise) && Within(pages, askable) && NoiseIsNear(r, noise)
    requires !LeaderCouldWin(Keep(r, noise), name, askable) && !SecondCouldWin(Keep(r, noise), name, askable)
    ensures Proposed(Final(Keep(r, noise), wanted, pages), name) == None
    ensures Proposed(Final(r, wanted, pages), name) == None
  {
    var f := Keep(r, noise);
    KeepReady(r, noise);
    if Proposed(Final(f, wanted, pages), name) != None {
      OneCouldWin(f, wanted, pages, name, askable);
    }
    if Proposed(Final(r, wanted, pages), name) != None {
      var i := WinnerIsClear(r, wanted, pages, name, askable);
      LeaderClears(r, name, noise, askable, i);
    }
  }

  lemma LeaderClears(r: seq<Candidate>, name: Candidate -> real, noise: set<string>, askable: Checks, i: nat)
    requires Ready(r) && Floored(r, name, noise) && NoiseIsNear(r, noise)
    requires i <= 1 && i < |r| && Fits(r[i], name) && ClearsAll(r, r[i], askable)
    ensures LeaderCouldWin(Keep(r, noise), name, askable)
  {
    assert r[i] in r;
    TopKept(r, noise, i);
    KeepReady(r, noise);
    var f := Keep(r, noise);
    if |f| > 1 {
      KeepMembers(r, noise, f[1]);
      assert f[0].url != f[1].url;
    }
  }

  // If no one else can become plausible, the first is proposed iff it is fit and its page lifts it.
  lemma OnlyFirst(g: seq<Candidate>, wanted: bool, pages: string -> PageAnswer, name: Candidate -> real,
                  askable: Checks)
    requires Ready(g) && Steady(name) && Within(pages, askable) && g != []
    requires forall j | 1 <= j < |g| :: Raised(g[j].score, askable) < PROBABLE
    ensures var a := VerifyAll(g, ToVerify(g, wanted), pages)[0];
            Proposed(Final(g, wanted, pages), name)
            == if Fits(g[0], name) && a.score >= PROBABLE then Some(g[0].url) else None
  {
    var ranked := Final(g, wanted, pages);
    FinalSpec(g, wanted, pages);
    var a := Survives(g, wanted, pages, 0);
    forall d | d in ranked && d.url != a.url ensures d.score < PROBABLE {
      var i := RaisedBound(g, wanted, pages, askable, d);
    }
    if a.score >= PROBABLE {
      TopOf(ranked, a);
      var i := NameStays(g, wanted, pages, name, a);
      HomonymIffRival(ranked);
    } else {
      assert ranked[0] in ranked;
    }
  }

  lemma KeptTail(r: seq<Candidate>, noise: set<string>, j: nat)
    requires Ready(r) && |r| > 1 && r[0].url !in noise && 1 <= j < |Keep(r, noise)|
    ensures Keep(r, noise)[j].score <= r[1].score
  {
    var c := Keep(r, noise)[j];
    KeepTop(r, noise);
    assert c == Keep(r[1..], noise)[j - 1];
    KeepMembers(r[1..], noise, c);
    var k :| 0 <= k < |r[1..]| && r[1..][k] == c;
    assert r[k + 1] == c;
  }

  lemma LeaderUnblocked(r: seq<Candidate>, wanted: bool, pages: string -> PageAnswer, name: Candidate -> real,
                        noise: set<string>, askable: Checks)
    requires Ready(r) && Floored(r, name, noise) && Within(pages, askable) && NoiseIsNear(r, noise)
    requires !NoiseCanBlock(r, noise, askable)
    ensures Proposed(Final(Keep(r, noise), wanted, pages), name) == Proposed(Final(r, wanted, pages), name)
  {
    var f := Keep(r, noise);
    KeepReady(r, noise);
    KeepTop(r, noise);
    forall j | 1 <= j < |f| ensures Raised(f[j].score, askable) < PROBABLE {
      KeptTail(r, noise, j);
    }
    OnlyFirst(r, wanted, pages, name, askable);
    OnlyFirst(f, wanted, pages, name, askable);
  }

  lemma OtherwiseSafe(r: seq<Candidate>, wanted: bool, pages: string -> PageAnswer, name: Candidate -> real,
                      noise: set<string>, askable: Checks)
    requires Ready(r) && Floored(r, name, noise) && Within(pages, askable) && !Risky(r, name, noise, askable)
    ensures Proposed(Final(Keep(r, noise), wanted, pages), name) == Proposed(Final(r, wanted, pages), name)
  {
    var f := Keep(r, noise);
    KeepReady(r, noise);
    if f == [] || f[0].score < UNCERTAIN {
      WeakLeader(f, wanted, pages, name);
      WeakStaysWeak(r, wanted, pages, name, noise, askable);
    } else if !NoiseIsNear(r, noise) {
      KeepMembers(r, noise, f[0]);
      assert r != [] && f[0].score <= r[0].score;
      if r[0].url !in noise {
        KeepTop(r, noise);
      }
      ClearTopIsSafe(r, wanted, pages, name, noise);
    } else if LeaderCouldWin(f, name, askable) {
      assert r != [];
      LeaderUnblocked(r, wanted, pages, name, noise, askable);
    } else {
      NobodyCouldWin(r, wanted, pages, name, noise, askable);
    }
  }

  // The best of the others does not win when noise near it is read too.
  lemma ReadNoiseBlocks(r: seq<Candidate>, leader: Candidate, n: nat, name: Candidate -> real, askable: Checks)
    requires Ready(r) && leader in r && leader.score >= UNCERTAIN
    requires n < 2 && n < |r| && r[n] != leader && leader.score - r[n].score < AMBIGUITY_MARGIN
    requires n == 1 ==> r[0] == leader
    requires Raised(r[n].score, askable) >= PROBABLE
    ensures Proposed(Final(r, true, TwoPages(leader.url, r[n].url, askable)), name) != Some(leader.url)
  {
    var pages := TwoPages(leader.url, r[n].url, askable);
    var ranked := Final(r, true, pages);
    FinalSpec(r, true, pages);
    var b := Survives(r, true, pages, n);
    assert b == Verified(r[n], Page(askable));
    if ranked[0].url == leader.url {
      var k := RaisedBound(r, true, pages, askable, ranked[0]);
      assert r[k] == leader;
      assert Rival(ranked, b);
      NotAloneAtTop(r, true, pages, name, b);
    }
  }

  lemma WinsAlone(f: seq<Candidate>, c: Candidate, v: string, name: Candidate -> real, askable: Checks)
    requires Ready(f) && Steady(name) && IsRead(f, c) && ClearsAll(f, c, askable) && Fits(c, name)
    requires forall e | e in f && e.url == v :: e == c
    ensures Proposed(Final(f, true, TwoPages(c.url, v, askable)), name) == Some(c.url)
  {
    ReadAloneWins(f, c, v, askable);
    assert name(Verified(c, Page(askable))) == name(c);
  }

  lemma LeaderClearsKept(f: seq<Candidate>, name: Candidate -> real, askable: Checks)
    requires Ready(f) && LeaderCouldWin(f, name, askable)
    ensures ClearsAll(f, f[0], askable)
  {
    forall c | c in f && c.url != f[0].url ensures Clears(Raised(f[0].score, askable), c.score) {
      var k :| 0 <= k < |f| && f[k] == c;
      assert c.score <= f[1].score;
    }
  }

  lemma LeaderWinsKept(f: seq<Candidate>, v: string, name: Candidate -> real, askable: Checks)
    requires Ready(f) && Steady(name) && LeaderCouldWin(f, name, askable) && f[0].score >= UNCERTAIN
    requires forall c | c in f :: c.url != v
    ensures Proposed(Final(f, true, TwoPages(f[0].url, v, askable)), name) == Some(f[0].url)
  {
    LeaderClearsKept(f, name, askable);
    WinsAlone(f, f[0], v, name, askable);
  }

  lemma NearNoiseBlocks(r: seq<Candidate>, name: Candidate -> real, noise: set<string>, askable: Checks, n: nat)
    requires Ready(r) && Floored(r, name, noise) && NoiseIsNear(r, noise) && NoiseCanBlock(r, noise, askable)
    requires LeaderCouldWin(Keep(r, noise), name, askable)
    requires StandsNear(r, noise, n)
    ensures Proposed(Final(r, true, TwoPages(Keep(r, noise)[0].url, r[n].url, askable)), name)
            != Some(Keep(r, noise)[0].url)
  {
    ReadNoiseBlocks(r, Keep(r, noise)[0], n, name, askable);
  }

  lemma LeaderIsBlocked(r: seq<Candidate>, name: Candidate -> real, noise: set<string>, askable: Checks)
    returns (pages: string -> PageAnswer)
    requires Ready(r) && Floored(r, name, noise) && NoiseIsNear(r, noise) && NoiseCanBlock(r, noise, askable)
    requires LeaderCouldWin(Keep(r, noise), name, askable)
    ensures Within(pages, askable)
    ensures Proposed(Final(Keep(r, noise), true, pages), name) != Proposed(Final(r, true, pages), name)
  {
    var f := Keep(r, noise);
    var n := NearNoise(r, noise);
    pages := TwoPages(f[0].url, r[n].url, askable);
    TwoPagesWithin(f[0].url, r[n].url, askable);
    KeepReady(r, noise);
    LeaderWinsKept(f, r[n].url, name, askable);
    NearNoiseBlocks(r, name, noise, askable, n);
  }

  // Where the noise stands: in front, or right behind the best of the others.
  predicate StandsNear(r: seq<Candidate>, noise: set<string>, n: nat) {
    var f := Keep(r, noise);
    && f != [] && n < 2 && n < |r| && r[n].url in noise && f[0].score - r[n].score < AMBIGUITY_MARGIN
    && f[0] in r && r[n] != f[0] && (if n == 0 then f[0].score <= r[0].score else r[0] == f[0])
  }

  lemma NearNoise(r: seq<Candidate>, noise: set<string>) returns (n: nat)
    requires Ready(r) && NoiseIsNear(r, noise)
    ensures StandsNear(r, noise, n) && forall c | c in Keep(r, noise) :: c.url != r[n].url
  {
    var f := Keep(r, noise);
    n := if r[0].url in noise then 0 else 1;
    if n == 1 {
      KeepTop(r, noise);
    }
    forall c | c in f ensures c in r && c.url != r[n].url {
      KeepMembers(r, noise, c);
    }
    assert f[0] in f;
  }

  lemma SecondClearsKept(f: seq<Candidate>, name: Candidate -> real, askable: Checks)
    requires Ready(f) && SecondCouldWin(f, name, askable)
    ensures ClearsAll(f, f[1], askable)
  {
    forall c | c in f && c.url != f[1].url ensures Clears(Raised(f[1].score, askable), c.score) {
      var k :| 0 <= k < |f| && f[k] == c;
      assert c.score <= f[0].score;
    }
  }

  // The second is not read when noise stands in front of it.
  lemma SecondIsBlocked(r: seq<Candidate>, name: Candidate -> real, noise: set<string>, askable: Checks)
    returns (pages: string -> PageAnswer)
    requires Ready(r) && Floored(r, name, noise) && NoiseIsNear(r, noise)
    requires SecondCouldWin(Keep(r, noise), name, askable)
    ensures Within(pages, askable)
    ensures Proposed(Final(Keep(r, noise), true, pages), name) != Proposed(Final(r, true, pages), name)
  {
    var f := Keep(r, noise);
    KeepReady(r, noise);
    pages := TwoPages(f[1].url, f[1].url, askable);
    TwoPagesWithin(f[1].url, f[1].url, askable);
    SecondClearsKept(f, name, askable);
    assert f[1] in f;
    WinsAlone(f, f[1], f[1].url, name, askable);
    SecondNeverWins(r, noise, pages);
  }

  lemma SecondNeverWins(r: seq<Candidate>, noise: set<string>, pages: string -> PageAnswer)
    requires Ready(r) && NoiseIsNear(r, noise) && |Keep(r, noise)| > 1
    ensures Final(r, true, pages) != [] && Final(r, true, pages)[0].url != Keep(r, noise)[1].url
  {
    var f := Keep(r, noise);
    KeepReady(r, noise);
    KeepMembers(r, noise, f[1]);
    var w := WinnerPosition(r, true, pages);
    VerificationMoves(r, true, pages, w);
    if r[w].url !in noise {
      TopKept(r, noise, w);
    }
  }

  // A second place close behind noise is read, and can win; without the noise it is not even read.
  lemma LiftedByNoise(r: seq<Candidate>, name: Candidate -> real, noise: set<string>, askable: Checks)
    returns (pages: string -> PageAnswer)
    requires Ready(r) && Floored(r, name, noise) && NoiseLifts(r, noise) && Fits(r[1], name)
    requires Raised(r[1].score, askable) >= PROBABLE
    requires Keep(r, noise) != [] && Keep(r, noise)[0].score < UNCERTAIN
    ensures Within(pages, askable)
    ensures Proposed(Final(Keep(r, noise), true, pages), name) == None
    ensures Proposed(Final(r, true, pages), name) == Some(r[1].url)
  {
    KeepReady(r, noise);
    pages := TwoPages(r[1].url, r[1].url, askable);
    TwoPagesWithin(r[1].url, r[1].url, askable);
    WeakLeader(Keep(r, noise), true, pages, name);
    KeepMembers(r, noise, r[1]);
    assert r[1] in r;
    forall c | c in r ensures c.score <= r[0].score {
      var k :| 0 <= k < |r| && r[k] == c;
    }
    WinsAlone(r, r[1], r[1].url, name, askable);
  }

  lemma NoiseIsFloored(cs: seq<Candidate>, name: Candidate -> real)
    requires DistinctUrls(cs) && Steady(name)
    ensures Floored(cs, name, NoiseAmong(cs, name))
  {
    forall c | c in cs ensures c.url in NoiseAmong(cs, name) <==> name(c) < NOISE_FLOOR {
      if c.url in NoiseAmong(cs, name) {
        var d :| d in cs && name(d) < NOISE_FLOOR && d.url == c.url;
        assert d == c;
      }
    }
  }

  lemma RiskyMatters(cs: seq<Candidate>, name: Candidate -> real, askable: Checks)
    requires DistinctUrls(cs) && Unverified(cs) && Steady(name)
    requires Risky(Sort(Stronger(), cs), name, NoiseAmong(cs, name), askable)
    ensures FilterMatters(cs, name, askable)
  {
    var r, noise := Sort(Stronger(), cs), NoiseAmong(cs, name);
    FirstRanking(cs);
    SortKeeps(cs, noise);
    NoiseIsFloored(cs, name);
    var pages: string -> PageAnswer;
    if !NoiseIsNear(r, noise) {
      pages := LiftedByNoise(r, name, noise, askable);
    } else if SecondCouldWin(Keep(r, noise), name, askable) {
      pages := SecondIsBlocked(r, name, noise, askable);
    } else {
      pages := LeaderIsBlocked(r, name, noise, askable);
    }
    WebsiteIsProposed(cs, true, pages, name);
    WebsiteIsProposed(Keep(cs, noise), true, pages, name);
  }

  // For a request with given things to find, leaving out the candidates with noisy names can change the
  // proposed website exactly when, in the first ranking, noise ranks first or second and near others
  // that could win: the best of them, which noise can block, or the next, which is then not read; or
  // when noise brings about that a weaker one, close behind it, is read and can become plausible.
  lemma FilterMattersIff(cs: seq<Candidate>, name: Candidate -> real, askable: Checks)
    requires DistinctUrls(cs) && Unverified(cs) && Steady(name)
    ensures FilterMatters(cs, name, askable)
       <==> Risky(Sort(Stronger(), cs), name, NoiseAmong(cs, name), askable)
  {
    var r, noise := Sort(Stronger(), cs), NoiseAmong(cs, name);
    if Risky(r, name, noise, askable) {
      RiskyMatters(cs, name, askable);
    } else {
      FirstRanking(cs);
      SortKeeps(cs, noise);
      NoiseIsFloored(cs, name);
      forall wanted: bool, pages: string -> PageAnswer | Within(pages, askable)
        ensures Website(Keep(cs, noise), wanted, pages, name) == Website(cs, wanted, pages, name)
      {
        WebsiteIsProposed(cs, wanted, pages, name);
        WebsiteIsProposed(Keep(cs, noise), wanted, pages, name);
        OtherwiseSafe(r, wanted, pages, name, noise, askable);
      }
    }
  }

  lemma NoiseInFront(n: Candidate, g: Candidate, name: Candidate -> real, askable: Checks)
    requires n.url != g.url && FULL >= n.score > g.score >= PROBABLE && Fits(g, name)
    ensures Risky(Sort(Stronger(), [n, g]), name, {n.url}, askable)
  {
    var cs, noise := [n, g], {n.url};
    assert cs[..1] == [n];
    SortOne(n);
    assert Sort(Stronger(), cs) == Insert(Stronger(), [n], g) == cs;
    KeepFirst(cs, noise);
    KeepOne(g, noise);
    assert cs[1..] == [g];
    assert Keep(cs, noise) == [g];
    assert cs[0].url in noise;
  }

  lemma NoiseOfTwo(n: Candidate, g: Candidate, name: Candidate -> real)
    requires name(n) < NOISE_FLOOR <= name(g)
    ensures NoiseAmong([n, g], name) == {n.url}
  {
    assert [n, g][0] == n;
  }

  // A site whose name is noise but which is on every other count the right one, and a good site: the
  // filter matters whatever can be found on their pages.
  lemma NoiseCanDecide(askable: Checks)
    ensures var noisy := Signals(0.2, true, true, true, true, 2, 2, Match, 3);
            var good := Signals(1.0, true, true, false, false, 1, 1, Generic, 1);
            var cs := [Candidate("n", "n", "", SearchScore(noisy), None),
                       Candidate("g", "g", "", SearchScore(good), None)];
            SearchScore(noisy) == 7900 && SearchScore(good) == 7000
            && FilterMatters(cs, (c: Candidate) => if c.url == "n" then 0.2 else 1.0, askable)
  {
    assert OtherEvidence(Signals(0.2, true, true, true, true, 2, 2, Match, 3)) == 0.73;
    assert OtherEvidence(Signals(1.0, true, true, false, false, 1, 1, Generic, 1)) == 0.7;
    var n, g := Candidate("n", "n", "", 7900, None), Candidate("g", "g", "", 7000, None);
    var name := (c: Candidate) => if c.url == "n" then 0.2 else 1.0;
    NoiseInFront(n, g, name, askable);
    NoiseOfTwo(n, g, name);
    FilterMattersIff([n, g], name, askable);
  }
}
