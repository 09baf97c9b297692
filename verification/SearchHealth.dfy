/** Engine health: how searches feed the breakers, and when an engine is skipped. */
module SearchHealth {
  import opened Wrappers
  import opened Breaker

  // What a search does to the registry, as atomic steps between awaits; searches may interleave.
  datatype Act =
    | Sifted(engines: seq<string>, times: seq<int>)
    | AskedSearxng(at: int)
    | Answered(asked: seq<string>, down: map<string, string>, times: seq<int>)
    | Lost(at: int, reason: string)
    | Cleared

  predicate WellTimed(act: Act) {
    && (act.Sifted? ==> |act.engines| == |act.times|)
    && (act.Answered? ==> |act.asked| == |act.times|)
  }

  predicate AllTimed(acts: seq<Act>) {
    forall i | 0 <= i < |acts| :: WellTimed(acts[i])
  }

  const SEARXNG := "searxng"

  function KeyFor(engine: string): string { "engine:" + engine }

  function KeysFor(engines: seq<string>): (keys: seq<string>)
    ensures |keys| == |engines| && forall i | 0 <= i < |engines| :: keys[i] == KeyFor(engines[i])
  {
    seq(|engines|, i requires 0 <= i < |engines| => KeyFor(engines[i]))
  }

  function Strip(key: string): string {
    if "engine:" <= key then key[7..] else key
  }

  function StripAll(keys: seq<string>): (engines: seq<string>)
    ensures |engines| == |keys| && forall i | 0 <= i < |keys| :: engines[i] == Strip(keys[i])
  {
    seq(|keys|, i requires 0 <= i < |keys| => Strip(keys[i]))
  }

  lemma KeysAreApart(a: string, b: string)
    ensures KeyFor(a) == KeyFor(b) <==> a == b
    ensures KeyFor(a) != SEARXNG && Strip(KeyFor(a)) == a
  {
    assert KeyFor(a)[7..] == a && KeyFor(b)[7..] == b;
    assert KeyFor(a)[0] == 'e' && SEARXNG[0] == 's';
  }

  // Feeding one live answer, engine by engine.
  function FeedOne(engine: string, down: map<string, string>, at: int): Event {
    if engine in down then FailedAt(KeyFor(engine), at, down[engine]) else Succeeded(KeyFor(engine))
  }

  function Feed(asked: seq<string>, down: map<string, string>, times: seq<int>): (events: seq<Event>)
    requires |asked| == |times|
    ensures |events| == |asked| && forall i | 0 <= i < |asked| :: events[i] == FeedOne(asked[i], down, times[i])
  {
    seq(|asked|, i requires 0 <= i < |asked| => FeedOne(asked[i], down, times[i]))
  }

  function EventsOf(act: Act): seq<Event>
    requires WellTimed(act)
  {
    match act
    case Sifted(engines, times) => AskAll(KeysFor(engines), times)
    case AskedSearxng(at) => [Asked(SEARXNG, at)]
    case Answered(asked, down, times) => [Succeeded(SEARXNG)] + Feed(asked, down, times)
    case Lost(at, reason) => [FailedAt(SEARXNG, at, reason)]
    case Cleared => [ResetAll]
  }

  function LogOf(acts: seq<Act>): seq<Event>
    requires AllTimed(acts)
  {
    if acts == [] then [] else LogOf(acts[..|acts| - 1]) + EventsOf(acts[|acts| - 1])
  }

  lemma LogOfNext(acts: seq<Act>, act: Act)
    requires AllTimed(acts) && WellTimed(act)
    ensures AllTimed(acts + [act]) && LogOf(acts + [act]) == LogOf(acts) + EventsOf(act)
  {
    assert (acts + [act])[..|acts|] == acts;
  }

  lemma Regroup(x: seq<Event>, y: seq<Event>, z: seq<Event>)
    ensures x + y + z == x + (y + z)
  {
  }

  lemma AnsweredLog(log: seq<Event>, acts: seq<Act>, asked: seq<string>, down: map<string, string>, times: seq<int>)
    requires AllTimed(acts) && |asked| == |times|
    requires log == LogOf(acts) + [Succeeded(SEARXNG)] + Feed(asked, down, times)
    ensures AllTimed(acts + [Answered(asked, down, times)]) && log == LogOf(acts + [Answered(asked, down, times)])
  {
    Regroup(LogOf(acts), [Succeeded(SEARXNG)], Feed(asked, down, times));
    LogOfNext(acts, Answered(asked, down, times));
  }

  // ---- The reading of an engine's health off the searches --------------------------------

  // Times an engine is named in a list, and the clock at the last of them.
  function Mentions(engines: seq<string>, e: string): nat {
    if engines == [] then 0 else Mentions(engines[..|engines| - 1], e) + if engines[|engines| - 1] == e then 1 else 0
  }

  function LastMention(engines: seq<string>, times: seq<int>, e: string): Option<int>
    requires |engines| == |times|
  {
    if engines == [] then None
    else
      var n := |engines| - 1;
      if engines[n] == e then Some(times[n]) else LastMention(engines[..n], times[..n], e)
  }

  // Reports of the engine as unresponsive, by live searches that asked it, since the last that did not.
  function Reports(acts: seq<Act>, e: string): nat {
    if acts == [] then 0
    else
      var n := |acts| - 1;
      match acts[n]
      case Answered(asked, down, _) =>
        if Mentions(asked, e) == 0 then Reports(acts[..n], e)
        else if e in down then Reports(acts[..n], e) + Mentions(asked, e)
        else 0
      case Cleared => 0
      case _ => Reports(acts[..n], e)
  }

  function LastReport(acts: seq<Act>, e: string): Option<int>
    requires AllTimed(acts)
  {
    if acts == [] then None
    else
      var n := |acts| - 1;
      match acts[n]
      case Answered(asked, down, times) =>
        if Mentions(asked, e) == 0 then LastReport(acts[..n], e)
        else if e in down then LastMention(asked, times, e)
        else None
      case Cleared => None
      case _ => LastReport(acts[..n], e)
  }

  // What one verdict does to the readings of an engine.
  lemma VerdictReading(log: seq<Event>, asked: string, down: map<string, string>, at: int, e: string)
    ensures var longer, k := log + [FeedOne(asked, down, at)], KeyFor(e);
            if asked != e then Strikes(longer, k) == Strikes(log, k) && LastStrike(longer, k) == LastStrike(log, k)
            else if e in down then Strikes(longer, k) == Strikes(log, k) + 1 && LastStrike(longer, k) == Some(at)
            else Strikes(longer, k) == 0 && LastStrike(longer, k) == None
  {
    KeysAreApart(asked, e);
    var longer := log + [FeedOne(asked, down, at)];
    assert longer[..|longer| - 1] == log;
  }

  lemma {:induction false} FeedReading(log: seq<Event>, asked: seq<string>, down: map<string, string>, times: seq<int>,
                                       e: string)
    requires |asked| == |times|
    ensures var longer, k := log + Feed(asked, down, times), KeyFor(e);
            if Mentions(asked, e) == 0 then Strikes(longer, k) == Strikes(log, k)
                && LastStrike(longer, k) == LastStrike(log, k)
            else if e in down then
              Strikes(longer, k) == Strikes(log, k) + Mentions(asked, e)
                  && LastStrike(longer, k) == LastMention(asked, times, e)
            else Strikes(longer, k) == 0 && LastStrike(longer, k) == None
    decreases |asked|
  {
    if asked == [] {
      assert log + Feed(asked, down, times) == log;
    } else {
      var n := |asked| - 1;
      FeedReading(log, asked[..n], down, times[..n], e);
      var before := log + Feed(asked[..n], down, times[..n]);
      VerdictReading(before, asked[n], down, times[n], e);
      assert log + Feed(asked, down, times) == before + [FeedOne(asked[n], down, times[n])];
    }
  }

  lemma AskingIsNeutral(log: seq<Event>, keys: seq<string>, times: seq<int>, key: string)
    requires |keys| == |times|
    ensures Strikes(log + AskAll(keys, times), key) == Strikes(log, key)
    ensures LastStrike(log + AskAll(keys, times), key) == LastStrike(log, key)
    decreases |keys|
  {
    if keys == [] {
      assert log + AskAll(keys, times) == log;
    } else {
      var n := |keys| - 1;
      AskingIsNeutral(log, keys[..n], times[..n], key);
      var longer := log + AskAll(keys, times);
      assert longer[..|longer| - 1] == log + AskAll(keys[..n], times[..n]);
    }
  }

  lemma AnswerReading(log: seq<Event>, asked: seq<string>, down: map<string, string>, times: seq<int>, e: string)
    requires |asked| == |times|
    ensures var longer, k := log + EventsOf(Answered(asked, down, times)), KeyFor(e);
            if Mentions(asked, e) == 0 then Strikes(longer, k) == Strikes(log, k)
                && LastStrike(longer, k) == LastStrike(log, k)
            else if e in down then
              Strikes(longer, k) == Strikes(log, k) + Mentions(asked, e)
                  && LastStrike(longer, k) == LastMention(asked, times, e)
            else Strikes(longer, k) == 0 && LastStrike(longer, k) == None
  {
    var fed := log + [Succeeded(SEARXNG)];
    assert fed[..|log|] == log;
    KeysAreApart(e, e);
    FeedReading(fed, asked, down, times, e);
    assert log + ([Succeeded(SEARXNG)] + Feed(asked, down, times)) == fed + Feed(asked, down, times);
  }

  lemma QuietReading(log: seq<Event>, act: Act, e: string)
    requires WellTimed(act) && !act.Answered?
    ensures var longer, k := log + EventsOf(act), KeyFor(e);
            if act.Cleared? then Strikes(longer, k) == 0 && LastStrike(longer, k) == None
            else Strikes(longer, k) == Strikes(log, k) && LastStrike(longer, k) == LastStrike(log, k)
  {
    KeysAreApart(e, e);
    if act.Sifted? {
      AskingIsNeutral(log, KeysFor(act.engines), act.times, KeyFor(e));
    } else {
      var longer := log + EventsOf(act);
      assert longer[..|longer| - 1] == log;
    }
  }

  lemma ActReading(acts: seq<Act>, act: Act, e: string)
    requires AllTimed(acts) && WellTimed(act)
    requires Strikes(LogOf(acts), KeyFor(e)) == Reports(acts, e)
          && LastStrike(LogOf(acts), KeyFor(e)) == LastReport(acts, e)
    ensures AllTimed(acts + [act])
    ensures Strikes(LogOf(acts + [act]), KeyFor(e)) == Reports(acts + [act], e)
    ensures LastStrike(LogOf(acts + [act]), KeyFor(e)) == LastReport(acts + [act], e)
  {
    LogOfNext(acts, act);
    assert (acts + [act])[..|acts|] == acts;
    if act.Answered? {
      AnswerReading(LogOf(acts), act.asked, act.down, act.times, e);
    } else {
      QuietReading(LogOf(acts), act, e);
    }
  }

  // An engine's breaker counts exactly the reports of live searches that asked it. Cached, refused
  // and failed searches add nothing to it.
  lemma {:induction false} HealthIsReports(acts: seq<Act>, e: string)
    requires AllTimed(acts)
    ensures Strikes(LogOf(acts), KeyFor(e)) == Reports(acts, e)
    ensures LastStrike(LogOf(acts), KeyFor(e)) == LastReport(acts, e)
    decreases |acts|
  {
    if acts != [] {
      var n := |acts| - 1;
      assert acts[..n] + [acts[n]] == acts;
      HealthIsReports(acts[..n], e);
      ActReading(acts[..n], acts[n], e);
    }
  }

  // ---- The phase of an engine ------------------------------------------------------------

  // Asking after a key never closes it, and probes it iff the cooldown is over.
  lemma {:induction false} AskingProbes(s: Settings, log: seq<Event>, keys: seq<string>, times: seq<int>, key: string)
    requires |keys| == |times|
    ensures Probed(s, log + AskAll(keys, times), key)
       <==> Probed(s, log, key)
            || (Strikes(log, key) >= s.threshold
                && exists i :: 0 <= i < |keys| && keys[i] == key
                    && times[i] - LastStrike(log, key).GetOr(0) >= s.cooldown)
    decreases |keys|
  {
    if keys == [] {
      assert log + AskAll(keys, times) == log;
    } else {
      var n := |keys| - 1;
      AskingProbes(s, log, keys[..n], times[..n], key);
      AskingIsNeutral(log, keys[..n], times[..n], key);
      var longer := log + AskAll(keys, times);
      assert longer[..|longer| - 1] == log + AskAll(keys[..n], times[..n]);
      assert longer[|longer| - 1] == Asked(keys[n], times[n]);
      assert forall i | 0 <= i < n :: keys[i] == keys[..n][i] && times[i] == times[..n][i];
    }
  }

  // The engine was asked for when its latest report was no longer recent.
  predicate AskedLate(s: Settings, acts: seq<Act>, act: Act, e: string)
    requires AllTimed(acts) && WellTimed(act)
  {
    act.Sifted? && exists i :: 0 <= i < |act.engines| && act.engines[i] == e
                               && act.times[i] - LastReport(acts, e).GetOr(0) >= s.cooldown
  }

  // Cached, refused and failed searches leave an engine's phase as it was, except that an open breaker
  // whose cooldown is over becomes half-open when the engine is asked for.
  lemma QuietPhase(s: Settings, acts: seq<Act>, act: Act, e: string)
    requires AllTimed(acts) && WellTimed(act) && !act.Answered? && !act.Cleared?
    ensures AllTimed(acts + [act])
    ensures var before := PhaseOf(s, LogOf(acts), KeyFor(e));
            PhaseOf(s, LogOf(acts + [act]), KeyFor(e))
            == if before == Open && AskedLate(s, acts, act, e) then HalfOpen else before
  {
    LogOfNext(acts, act);
    HealthIsReports(acts, e);
    QuietReading(LogOf(acts), act, e);
    QuietProbes(s, LogOf(acts), act, e);
  }

  lemma QuietProbes(s: Settings, log: seq<Event>, act: Act, e: string)
    requires WellTimed(act) && !act.Answered? && !act.Cleared?
    ensures Probed(s, log + EventsOf(act), KeyFor(e))
       <==> Probed(s, log, KeyFor(e))
            || (Strikes(log, KeyFor(e)) >= s.threshold && act.Sifted?
                && exists i :: 0 <= i < |act.engines| && act.engines[i] == e
                               && act.times[i] - LastStrike(log, KeyFor(e)).GetOr(0) >= s.cooldown)
  {
    KeysAreApart(e, e);
    if act.Sifted? {
      SiftingProbes(s, log, act.engines, act.times, e);
    } else {
      OthersDoNotMatter(s, log, EventsOf(act), KeyFor(e));
    }
  }

  lemma SiftingProbes(s: Settings, log: seq<Event>, engines: seq<string>, times: seq<int>, e: string)
    requires |engines| == |times|
    ensures Probed(s, log + AskAll(KeysFor(engines), times), KeyFor(e))
       <==> Probed(s, log, KeyFor(e))
            || (Strikes(log, KeyFor(e)) >= s.threshold
                && exists i :: 0 <= i < |engines| && engines[i] == e
                               && times[i] - LastStrike(log, KeyFor(e)).GetOr(0) >= s.cooldown)
  {
    AskingProbes(s, log, KeysFor(engines), times, KeyFor(e));
    SameKeys(engines, e);
  }

  lemma SameKeys(engines: seq<string>, e: string)
    ensures forall i | 0 <= i < |engines| :: KeysFor(engines)[i] == KeyFor(e) <==> engines[i] == e
  {
    forall i | 0 <= i < |engines| ensures KeysFor(engines)[i] == KeyFor(e) <==> engines[i] == e {
      KeysAreApart(engines[i], e);
    }
  }

  // ---- When an engine is skipped ---------------------------------------------------------

  predicate Skips(s: Settings, acts: seq<Act>, e: string, at: int)
    requires AllTimed(acts)
  {
    Reports(acts, e) >= s.threshold && at - LastReport(acts, e).GetOr(0) < s.cooldown
  }

  // The clock has not run backwards by the time an engine is asked for.
  ghost predicate NotBefore(log: seq<Event>, at: int) {
    ClockRuns(log) && forall i | 0 <= i < |log| && Timed(log[i]) :: log[i].at <= at
  }

  lemma SkippedIffReported(s: Settings, acts: seq<Act>, e: string, at: int)
    requires s.threshold >= 1 && AllTimed(acts) && NotBefore(LogOf(acts), at)
    ensures Blocked(s, LogOf(acts), KeyFor(e), at) <==> Skips(s, acts, e, at)
  {
    var log, k := LogOf(acts), KeyFor(e);
    HealthIsReports(acts, e);
    assert ClockRuns(log + [Asked(k, at)]) by {
      var longer := log + [Asked(k, at)];
      forall i, j | 0 <= i < j < |longer| && Timed(longer[i]) && Timed(longer[j]) ensures longer[i].at <= longer[j].at {
        assert longer[i] == log[i];
      }
    }
    BreakerLaw(s, log, k, at);
    RefusedIffBlocked(s, log, k, at);
  }

  // The engines of a request with a given verdict, in the order of the request.
  function Pick(s: Settings, acts: seq<Act>, engines: seq<string>, times: seq<int>, through: bool): seq<string>
    requires AllTimed(acts) && |engines| == |times|
  {
    if engines == [] then []
    else
      var n := |engines| - 1;
      Pick(s, acts, engines[..n], times[..n], through) + if Skips(s, acts, engines[n], times[n]) != through
          then [engines[n]] else []
  }

  lemma {:induction false} SelectionIsPick(s: Settings, acts: seq<Act>, engines: seq<string>, times: seq<int>,
                                           through: bool)
    requires s.threshold >= 1 && AllTimed(acts) && |engines| == |times|
    requires forall i | 0 <= i < |times| :: NotBefore(LogOf(acts), times[i])
    ensures StripAll(Select(s, LogOf(acts), KeysFor(engines), times, through)) == Pick(s, acts, engines, times, through)
    decreases |engines|
  {
    if engines != [] {
      var n := |engines| - 1;
      SelectionIsPick(s, acts, engines[..n], times[..n], through);
      SkippedIffReported(s, acts, engines[n], times[n]);
      KeysAreApart(engines[n], engines[n]);
      assert KeysFor(engines)[..n] == KeysFor(engines[..n]);
    }
  }

  lemma DistinctKeys(engines: seq<string>)
    requires NoRepeats(engines)
    ensures NoRepeats(KeysFor(engines))
  {
    forall i, j | 0 <= i < j < |engines| ensures KeysFor(engines)[i] != KeysFor(engines)[j] {
      KeysAreApart(engines[i], engines[j]);
    }
  }

  // A request without repeats is split in order into the engines that are queried and those that are
  // skipped: skipped exactly when reported at least threshold times since the last good answer, the
  // latest report being younger than the cooldown.
  lemma RequestIsSplit(s: Settings, acts: seq<Act>, engines: seq<string>, times: seq<int>, through: bool)
    requires s.threshold >= 1 && AllTimed(acts) && |engines| == |times| && NoRepeats(engines)
    requires forall i | 0 <= i < |times| :: NotBefore(LogOf(acts), times[i])
    ensures StripAll(Sieve(s, LogOf(acts), KeysFor(engines), times, through)) == Pick(s, acts, engines, times, through)
  {
    DistinctKeys(engines);
    SieveIsSelection(s, LogOf(acts), KeysFor(engines), times, through);
    SelectionIsPick(s, acts, engines, times, through);
  }

  lemma {:induction false} PickMember(s: Settings, acts: seq<Act>, engines: seq<string>, times: seq<int>,
                                      through: bool, i: nat)
    requires AllTimed(acts) && |engines| == |times| && NoRepeats(engines) && i < |engines|
    ensures engines[i] in Pick(s, acts, engines, times, through) <==> (Skips(s, acts, engines[i], times[i]) != through)
    ensures forall e | e in Pick(s, acts, engines, times, through) :: e in engines
    decreases |engines|
  {
    var n := |engines| - 1;
    if n > 0 {
      PickMember(s, acts, engines[..n], times[..n], through, if i < n then i else 0);
    } else {
      assert Pick(s, acts, engines[..0], times[..0], through) == [];
    }
    if i == n {
      assert engines[n] !in engines[..n];
    }
  }

  // ---- The client ------------------------------------------------------------------------

  class SearchClient {
    const breakers: BreakerRegistry
    ghost var acts: seq<Act>

    ghost predicate Valid()
      reads this, breakers
    {
      breakers.Valid() && AllTimed(acts) && breakers.log == LogOf(acts)
    }

    constructor (registry: BreakerRegistry)
      requires registry.Valid() && registry.log == []
      ensures Valid() && breakers == registry && acts == []
    {
      breakers := registry;
      acts := [];
    }

    // A search begins: split the requested engines. The cache is looked up after it.
    method Sift(requested: seq<string>, times: seq<int>) returns (queried: seq<string>, skipped: seq<string>)
      requires Valid() && |requested| == |times|
      modifies this, breakers
      ensures Valid() && acts == old(acts) + [Sifted(requested, times)]
      ensures queried == StripAll(Sieve(breakers.settings, LogOf(old(acts)), KeysFor(requested), times, true))
      ensures skipped == StripAll(Sieve(breakers.settings, LogOf(old(acts)), KeysFor(requested), times, false))
    {
      var a, b := breakers.FilterAllowed(KeysFor(requested), times);
      queried, skipped := StripAll(a), StripAll(b);
      LogOfNext(acts, Sifted(requested, times));
      acts := acts + [Sifted(requested, times)];
    }

    // After the cache: a request is sent only with engines, without a cached answer, and when the
    // breaker of the instance allows it at that moment.
    method Proceed(queried: seq<string>, cached: bool, at: int) returns (live: bool)
      requires Valid()
      modifies this, breakers
      ensures Valid() && acts == old(acts) + if queried == [] || cached then [] else [AskedSearxng(at)]
      ensures live <==> queried != [] && !cached && !Blocked(breakers.settings, LogOf(old(acts)), SEARXNG, at)
    {
      if |queried| == 0 || cached { return false; }
      live := breakers.Allows(SEARXNG, at);
      LogOfNext(acts, AskedSearxng(at));
      acts := acts + [AskedSearxng(at)];
    }

    // Each queried engine is judged by the answer.
    method FeedAnswer(queried: seq<string>, down: map<string, string>, times: seq<int>)
      requires breakers.Valid() && |queried| == |times|
      modifies breakers
      ensures breakers.Valid() && breakers.log == old(breakers.log) + Feed(queried, down, times)
    {
      for i := 0 to |queried|
        invariant breakers.Valid() && breakers.log == old(breakers.log) + Feed(queried[..i], down, times[..i])
      {
        assert Feed(queried[..i + 1], down, times[..i + 1])
            == Feed(queried[..i], down, times[..i]) + [FeedOne(queried[i], down, times[i])];
        if queried[i] in down {
          var state := breakers.Failure(KeyFor(queried[i]), down[queried[i]], times[i]);
        } else {
          breakers.Success(KeyFor(queried[i]));
        }
      }
      assert queried[..|queried|] == queried && times[..|queried|] == times;
    }

    // The answer arrived: the instance is healthy, and its engines are fed.
    method Finish(queried: seq<string>, down: map<string, string>, times: seq<int>)
      requires Valid() && |queried| == |times|
      modifies this, breakers
      ensures Valid() && acts == old(acts) + [Answered(queried, down, times)]
    {
      breakers.Success(SEARXNG);
      FeedAnswer(queried, down, times);
      AnsweredLog(breakers.log, acts, queried, down, times);
      acts := acts + [Answered(queried, down, times)];
    }

    // The request failed: only the instance's own breaker hears of it.
    method Fail(reason: string, at: int)
      requires Valid()
      modifies this, breakers
      ensures Valid() && acts == old(acts) + [Lost(at, reason)]
    {
      var state := breakers.Failure(SEARXNG, reason, at);
      LogOfNext(acts, Lost(at, reason));
      acts := acts + [Lost(at, reason)];
    }

    // The diagnostics reset forgets everything.
    method Clear()
      requires Valid()
      modifies this, breakers
      ensures Valid() && acts == old(acts) + [Cleared]
    {
      breakers.ResetEverything();
      LogOfNext(acts, Cleared);
      acts := acts + [Cleared];
    }
  }
}
