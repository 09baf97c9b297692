/** Ranking, selective verification and the homonym guard of business resolution. */
module Resolver {
  import opened Wrappers
  import opened StableSort

  // Scores are in ten-thousandths.
  const MIN_NAME_SIMILARITY := 0.5
  const NOISE_FLOOR := 0.25
  const CONFIRMED := 8000
  const PROBABLE := 6500
  const UNCERTAIN := 4500
  const AMBIGUITY_MARGIN := 600
  const FULL := 10000

  // ---- Scoring a domain ------------------------------------------------------------------

  datatype Tld = Match | Generic | Foreign

  // What the search results say of a domain.
  datatype Signals = Signals(
    nameScore: real, city: bool, postalCode: bool, phone: bool, registryId: bool,
    engines: nat, queries: nat, tld: Tld, pages: nat)

  function When(b: bool, x: real): real { if b then x else 0.0 }

  // Everything but the country.
  function OtherEvidence(s: Signals): real {
    0.45 * s.nameScore + When(s.city, 0.15) + When(s.postalCode, 0.1) + When(s.phone, 0.15) + When(s.registryId, 0.1)
    + When(s.engines >= 2, 0.05) + When(s.queries >= 2, 0.05) + When(s.pages >= 3, 0.04)
  }

  function TldEvidence(t: Tld): real {
    match t case Match => 0.06 case Generic => 0.0 case Foreign => -0.35
  }

  // To the nearest ten-thousandth, ties away from zero.
  function Round(x: real): int {
    if x >= 0.0 then (x * 10000.0 + 0.5).Floor else -(-x * 10000.0 + 0.5).Floor
  }

  function Clip(score: int): int { if score > FULL then FULL else score }

  function SearchScore(s: Signals): int { Clip(Round(OtherEvidence(s) + TldEvidence(s.tld))) }

  // ---- Titles and the name score ---------------------------------------------------------

  function Larger(x: real, y: real): real { if x >= y then x else y }

  // The similarity of the request's name to the domain or to the best of the titles.
  function NameScore(sim: string -> real, core: string, titles: seq<string>): real {
    if titles == [] then sim(core) else Larger(NameScore(sim, core, titles[..|titles| - 1]), sim(titles[|titles| - 1]))
  }

  function Closer(sim: string -> real): (string, string) -> bool {
    (a: string, b: string) => sim(a) > sim(b)
  }

  function BestTitle(sim: string -> real, titles: seq<string>): string {
    var sorted := Sort(Closer(sim), titles);
    if sorted == [] then "" else sorted[0]
  }

  lemma {:induction false} NameScoreIsLargest(sim: string -> real, core: string, titles: seq<string>)
    ensures var n := NameScore(sim, core, titles);
            && sim(core) <= n && (forall t | t in titles :: sim(t) <= n)
            && (n == sim(core) || exists t :: t in titles && sim(t) == n)
    decreases |titles|
  {
    if titles != [] {
      var k := |titles| - 1;
      NameScoreIsLargest(sim, core, titles[..k]);
      assert titles == titles[..k] + [titles[k]];
      assert titles[k] in titles;
    }
  }

  // The name score of the search stage is the one recomputed from the domain and the kept title.
  lemma NameScoreIsRecomputed(sim: string -> real, core: string, titles: seq<string>)
    requires titles != []
    ensures Larger(sim(core), sim(BestTitle(sim, titles))) == NameScore(sim, core, titles)
    ensures BestTitle(sim, titles) in titles
  {
    NameScoreIsLargest(sim, core, titles);
    var i := SortHead(Closer(sim), titles);
    forall t | t in titles ensures sim(t) <= sim(titles[i]) {
      var k :| 0 <= k < |titles| && titles[k] == t;
      assert !Closer(sim)(titles[k], titles[i]);
    }
  }

  // ---- Candidates and their verification -------------------------------------------------

  datatype Checks = Checks(name: bool, city: bool, phone: bool, registryId: bool)

  const NO_CHECKS := Checks(false, false, false, false)

  datatype Verification = Verification(fetched: bool, checks: Checks)

  datatype Candidate = Candidate(url: string, domain: string, title: string, score: int,
                                 verification: Option<Verification>)

  // What asking for a page yields.
  datatype PageAnswer = Forbidden | Unreadable | Page(checks: Checks)

  function Boost(c: Checks): int {
    (if c.name then 2000 else 0) + (if c.city then 800 else 0) + (if c.phone then 1200 else 0)
    + if c.registryId then 1000 else 0
  }

  function Verified(c: Candidate, answer: PageAnswer): Candidate {
    match answer
    case Page(checks) => c.(verification := Some(Verification(true, checks)), score := Clip(c.score + Boost(checks)))
    case _ => c.(verification := Some(Verification(false, NO_CHECKS)))
  }

  function Stronger(): (Candidate, Candidate) -> bool {
    (a: Candidate, b: Candidate) => a.score > b.score
  }

  // The leader, and the second when it is close.
  function ToVerify(ranked: seq<Candidate>, wanted: bool): set<string> {
    if !wanted || ranked == [] || ranked[0].score < UNCERTAIN then {}
    else if |ranked| > 1 && ranked[0].score - ranked[1].score < AMBIGUITY_MARGIN then {ranked[0].url, ranked[1].url}
    else {ranked[0].url}
  }

  function VerifyAll(ranked: seq<Candidate>, chosen: set<string>, pages: string -> PageAnswer): (after: seq<Candidate>)
    ensures |after| == |ranked|
    ensures forall i | 0 <= i < |ranked| ::
              after[i] == if ranked[i].url in chosen then Verified(ranked[i], pages(ranked[i].url)) else ranked[i]
  {
    seq(|ranked|, i requires 0 <= i < |ranked| =>
      if ranked[i].url in chosen then Verified(ranked[i], pages(ranked[i].url)) else ranked[i])
  }

  // ---- The decision ----------------------------------------------------------------------

  datatype Status = Confirmed | Probable | Uncertain | NotFound

  predicate Corroborated(v: Option<Verification>) {
    v.Some? && v.value.fetched && v.value.checks.name
    && (v.value.checks.city || v.value.checks.phone || v.value.checks.registryId)
  }

  function DecideStatus(ranked: seq<Candidate>, bestNameScore: real): Status {
    if ranked == [] then NotFound
    else if bestNameScore < MIN_NAME_SIMILARITY then NotFound
    else if |ranked| > 1 && ranked[0].score - ranked[1].score < AMBIGUITY_MARGIN
        && ranked[1].score >= PROBABLE then Uncertain
    else if ranked[0].score >= CONFIRMED && Corroborated(ranked[0].verification) then Confirmed
    else if ranked[0].score >= CONFIRMED then Probable
    else if ranked[0].score >= PROBABLE then Probable
    else if ranked[0].score >= UNCERTAIN then Uncertain
    else NotFound
  }

  datatype Outcome = Outcome(status: Status, ranked: seq<Candidate>)

  // The ranking part of a resolution; name gives the name score of a candidate.
  function Resolve(candidates: seq<Candidate>, wanted: bool, pages: string -> PageAnswer,
                   name: Candidate -> real): Outcome {
    var first := Sort(Stronger(), candidates);
    var ranked := Sort(Stronger(), VerifyAll(first, ToVerify(first, wanted), pages));
    Outcome(DecideStatus(ranked, if ranked == [] then 0.0 else name(ranked[0])), ranked)
  }

  method Verify(first: seq<Candidate>, chosen: set<string>, pages: string -> PageAnswer) returns (after: seq<Candidate>)
    ensures after == VerifyAll(first, chosen, pages)
  {
    after := first;
    for i := 0 to |first|
      invariant |after| == |first|
      invariant forall j | 0 <= j < i :: after[j] == VerifyAll(first, chosen, pages)[j]
      invariant forall j | i <= j < |first| :: after[j] == first[j]
    {
      var candidate := first[i];
      if candidate.url !in chosen { continue; }
      var answer := pages(candidate.url);
      if answer.Page? {
        candidate := candidate.(verification := Some(Verification(true, answer.checks)));
        candidate := candidate.(score := Clip(candidate.score + Boost(answer.checks)));
      } else {
        candidate := candidate.(verification := Some(Verification(false, NO_CHECKS)));
      }
      after := after[i := candidate];
    }
  }

  method ResolveBusiness(candidates: seq<Candidate>, wanted: bool, pages: string -> PageAnswer, name: Candidate -> real)
    returns (outcome: Outcome)
    ensures outcome == Resolve(candidates, wanted, pages, name)
  {
    var ranked := Sort(Stronger(), candidates);
    var toVerify: set<string> := {};
    if wanted && |ranked| > 0 && ranked[0].score >= UNCERTAIN {
      toVerify := {ranked[0].url};
      if |ranked| > 1 && ranked[0].score - ranked[1].score < AMBIGUITY_MARGIN {
        toVerify := toVerify + {ranked[1].url};
        assert toVerify == {ranked[0].url, ranked[1].url};
      }
    }
    ranked := Verify(ranked, toVerify, pages);
    ranked := Sort(Stronger(), ranked);
    var bestNameScore := if |ranked| > 0 then name(ranked[0]) else 0.0;
    var status := DecideStatus(ranked, bestNameScore);
    outcome := Outcome(status, ranked);
  }
}
