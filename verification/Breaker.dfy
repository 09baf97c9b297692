/** The circuit-breaker registry, and the stateless reading of its event log that it refines. */
module Breaker {
  import opened Wrappers

  datatype Phase = Closed | Open | HalfOpen

  datatype Entry = Entry(state: Phase, failures: nat, openedAtMs: Option<int>, lastReason: Option<string>, refused: nat)

  const NEW_ENTRY := Entry(Closed, 0, None, None, 0)

  // The calls made on the registry; the clock is read by two of them.
  datatype Event =
    | Asked(key: string, at: int)
    | Succeeded(key: string)
    | FailedAt(key: string, at: int, reason: string)
    | Reset(key: string)
    | ResetAll

  datatype Settings = Settings(threshold: nat, cooldown: nat)

  // ---- One key, call by call -------------------------------------------------------------

  predicate Concerns(e: Event, key: string) {
    e.ResetAll? || e.key == key
  }

  // Whether a call may proceed, given the entry.
  predicate Admits(s: Settings, entry: Entry, at: int) {
    entry.state != Open || at - entry.openedAtMs.GetOr(0) >= s.cooldown
  }

  function Truncate(reason: string): string {
    if |reason| <= 200 then reason else reason[..200]
  }

  function Next(s: Settings, before: Option<Entry>, e: Event): Option<Entry> {
    var entry := if before.Some? then before.value else NEW_ENTRY;
    match e
    case Asked(_, at) =>
      if entry.state != Open then Some(entry)
      else if Admits(s, entry, at) then Some(entry.(state := HalfOpen))
      else Some(entry.(refused := entry.refused + 1))
    case Succeeded(_) => Some(Entry(Closed, 0, None, None, entry.refused))
    case FailedAt(_, at, reason) =>
      var why := Some(Truncate(reason));
      if entry.state == HalfOpen then Some(Entry(Open, s.threshold, Some(at), why, entry.refused))
      else if entry.failures + 1 >= s.threshold then Some(Entry(Open, entry.failures + 1, Some(at), why, entry.refused))
      else Some(entry.(failures := entry.failures + 1, lastReason := why))
    case Reset(_) => None
    case ResetAll => None
  }

  function Replay(s: Settings, log: seq<Event>, key: string): Option<Entry> {
    if log == [] then None
    else
      var n := |log| - 1;
      var before := Replay(s, log[..n], key);
      if Concerns(log[n], key) then Next(s, before, log[n]) else before
  }

  function EntryOf(s: Settings, log: seq<Event>, key: string): Entry {
    Replay(s, log, key).GetOr(NEW_ENTRY)
  }

  lemma ReplayNext(s: Settings, log: seq<Event>, e: Event, key: string)
    ensures Replay(s, log + [e], key)
         == if Concerns(e, key) then Next(s, Replay(s, log, key), e) else Replay(s, log, key)
  {
    assert (log + [e])[..|log|] == log;
  }

  // ---- The stateless reading -------------------------------------------------------------

  // Failures since the last success or reset.
  function Strikes(log: seq<Event>, key: string): nat {
    if log == [] then 0
    else
      var n := |log| - 1;
      if !Concerns(log[n], key) || log[n].Asked? then Strikes(log[..n], key)
      else if log[n].FailedAt? then Strikes(log[..n], key) + 1
      else 0
  }

  // When the last of them happened.
  function LastStrike(log: seq<Event>, key: string): Option<int> {
    if log == [] then None
    else
      var n := |log| - 1;
      if !Concerns(log[n], key) || log[n].Asked? then LastStrike(log[..n], key)
      else if log[n].FailedAt? then Some(log[n].at)
      else None
  }

  // And why, to the first 200 characters.
  function LastWhy(log: seq<Event>, key: string): Option<string> {
    if log == [] then None
    else
      var n := |log| - 1;
      if !Concerns(log[n], key) || log[n].Asked? then LastWhy(log[..n], key)
      else if log[n].FailedAt? then Some(Truncate(log[n].reason))
      else None
  }

  // The key has been asked for after a full cooldown since its last strike.
  predicate Probed(s: Settings, log: seq<Event>, key: string) {
    if log == [] then false
    else
      var n := |log| - 1;
      if !Concerns(log[n], key) then Probed(s, log[..n], key)
      else if log[n].Asked? then
        || Probed(s, log[..n], key)
        || (Strikes(log[..n], key) >= s.threshold && log[n].at - LastStrike(log[..n], key).GetOr(0) >= s.cooldown)
      else false
  }

  // Calls turned away since the last reset.
  function Refusals(s: Settings, log: seq<Event>, key: string): nat {
    if log == [] then 0
    else
      var n := |log| - 1;
      if !Concerns(log[n], key) || log[n].Succeeded? || log[n].FailedAt? then Refusals(s, log[..n], key)
      else if log[n].Asked? then Refusals(s, log[..n], key) + if Blocked(s, log[..n], key, log[n].at) then 1 else 0
      else 0
  }

  // Enough strikes, the last one too recent, and no probe since.
  predicate Blocked(s: Settings, log: seq<Event>, key: string, at: int) {
    && Strikes(log, key) >= s.threshold
    && !Probed(s, log, key)
    && at - LastStrike(log, key).GetOr(0) < s.cooldown
  }

  function PhaseOf(s: Settings, log: seq<Event>, key: string): Phase {
    if Strikes(log, key) < s.threshold then Closed else if Probed(s, log, key) then HalfOpen else Open
  }

  ghost predicate Agrees(s: Settings, log: seq<Event>, key: string) {
    var entry := EntryOf(s, log, key);
    && entry.state == PhaseOf(s, log, key)
    && (entry.state == Closed ==> entry.failures == Strikes(log, key) && entry.openedAtMs == None)
    && (entry.state != Closed ==> entry.openedAtMs == LastStrike(log, key) && entry.failures >= s.threshold)
    && entry.refused == Refusals(s, log, key) && entry.lastReason == LastWhy(log, key)
    && (Strikes(log, key) > 0 <==> LastStrike(log, key).Some?)
  }

  lemma AgreesNext(s: Settings, log: seq<Event>, e: Event, key: string)
    requires s.threshold >= 1 && Agrees(s, log, key)
    ensures Agrees(s, log + [e], key)
  {
    ReplayNext(s, log, e, key);
    assert (log + [e])[..|log|] == log;
    if Concerns(e, key) {
      match e
      case Asked(_, at) =>
      case Succeeded(_) =>
      case FailedAt(_, at, reason) =>
      case Reset(_) =>
      case ResetAll =>
    }
  }

  // The registry's state of a key is a function of the log: how many failures since the last success
  // or reset, when the last was, and whether it was probed since.
  lemma {:induction false} StateIsReading(s: Settings, log: seq<Event>, key: string)
    requires s.threshold >= 1
    ensures Agrees(s, log, key)
    decreases |log|
  {
    if log != [] {
      var n := |log| - 1;
      StateIsReading(s, log[..n], key);
      AgreesNext(s, log[..n], log[n], key);
      assert log[..n] + [log[n]] == log;
    }
  }

  // What the next event does to the figures shown for a key: a failed probe puts the count at the
  // threshold, any other failure adds one, a success clears it, and a question leaves it alone. The
  // reason shown is the last one, to its first 200 characters.
  lemma ShownNext(s: Settings, log: seq<Event>, key: string, at: int, why: string)
    requires s.threshold >= 1
    ensures var was, failed := EntryOf(s, log, key), EntryOf(s, log + [FailedAt(key, at, why)], key);
            && failed.failures == (if PhaseOf(s, log, key) == HalfOpen then s.threshold else was.failures + 1)
            && failed.lastReason.Some? && failed.lastReason.value <= why
            && |failed.lastReason.value| == (if |why| <= 200 then |why| else 200)
    ensures EntryOf(s, log + [Succeeded(key)], key).failures == 0
    ensures EntryOf(s, log + [Succeeded(key)], key).lastReason == None
    ensures EntryOf(s, log + [Asked(key, at)], key).failures == EntryOf(s, log, key).failures
    ensures EntryOf(s, log + [Asked(key, at)], key).lastReason == EntryOf(s, log, key).lastReason
  {
    StateIsReading(s, log, key);
    ReplayNext(s, log, FailedAt(key, at, why), key);
    ReplayNext(s, log, Succeeded(key), key);
    ReplayNext(s, log, Asked(key, at), key);
  }

  // A call is refused exactly when the key is blocked; this holds whatever the clock does.
  lemma RefusedIffBlocked(s: Settings, log: seq<Event>, key: string, at: int)
    requires s.threshold >= 1
    ensures Admits(s, EntryOf(s, log, key), at) <==> !Blocked(s, log, key, at)
  {
    StateIsReading(s, log, key);
  }

  // A half-open key lets through not just the next call but every call until one of them reports,
  // whenever it is made.
  lemma {:induction false} EveryCallIsAProbe(s: Settings, log: seq<Event>, asks: seq<Event>, key: string, at: int)
    requires s.threshold >= 1 && PhaseOf(s, log, key) == HalfOpen && forall i | 0 <= i < |asks| :: asks[i].Asked?
    ensures PhaseOf(s, log + asks, key) == HalfOpen && Admits(s, EntryOf(s, log + asks, key), at)
    decreases |asks|
  {
    if asks == [] {
      assert log + asks == log;
    } else {
      var n := |asks| - 1;
      EveryCallIsAProbe(s, log, asks[..n], key, at);
      var longer := log + asks;
      assert longer[..|longer| - 1] == log + asks[..n] && longer[|longer| - 1] == asks[n];
    }
    RefusedIffBlocked(s, log + asks, key, at);
  }

  // ---- With a clock that does not run backwards ------------------------------------------

  predicate Timed(e: Event) { e.Asked? || e.FailedAt? }

  predicate ClockRuns(log: seq<Event>) {
    forall i, j | 0 <= i < j < |log| && Timed(log[i]) && Timed(log[j]) :: log[i].at <= log[j].at
  }

  // A probe proves that the cooldown is over by now.
  lemma {:induction false} ProbeIsLate(s: Settings, log: seq<Event>, key: string, at: int)
    requires Probed(s, log, key) && forall i | 0 <= i < |log| && Timed(log[i]) :: log[i].at <= at
    ensures at - LastStrike(log, key).GetOr(0) >= s.cooldown
    decreases |log|
  {
    var n := |log| - 1;
    if !Concerns(log[n], key) || Probed(s, log[..n], key) {
      ProbeIsLate(s, log[..n], key, at);
    }
  }

  // Over every run with a non-decreasing clock: closed iff fewer than threshold failures since the
  // last success or reset, and refused iff the count is reached and the last failure is recent.
  lemma BreakerLaw(s: Settings, log: seq<Event>, key: string, at: int)
    requires s.threshold >= 1 && ClockRuns(log + [Asked(key, at)])
    ensures EntryOf(s, log, key).state == Closed <==> Strikes(log, key) < s.threshold
    ensures Admits(s, EntryOf(s, log, key), at)
       <==> !(Strikes(log, key) >= s.threshold && at - LastStrike(log, key).GetOr(0) < s.cooldown)
  {
    StateIsReading(s, log, key);
    var longer := log + [Asked(key, at)];
    assert longer[|log|] == Asked(key, at);
    forall i | 0 <= i < |log| && Timed(log[i]) ensures log[i].at <= at {
      assert longer[i] == log[i];
    }
    if Probed(s, log, key) {
      ProbeIsLate(s, log, key, at);
    }
  }

  // A clock that runs backwards breaks the second half: this key was probed after its cooldown, and
  // is then let through at a time that still lies inside it.
  lemma BackwardClockAdmits()
    ensures var s, log := Settings(1, 10), [FailedAt("k", 0, ""), Asked("k", 10)];
            && Admits(s, EntryOf(s, log, "k"), 5)
            && Strikes(log, "k") >= s.threshold && 5 - LastStrike(log, "k").GetOr(0) < s.cooldown
  {
    var s, a, b := Settings(1, 10), FailedAt("k", 0, ""), Asked("k", 10);
    assert [a, b][..1] == [a] && [a][..0] == [];
    assert Replay(s, [a], "k") == Next(s, None, a);
    StateIsReading(s, [a, b], "k");
  }

  // ---- Filtering a list of keys ----------------------------------------------------------

  // Asking for each key in turn; the clock may move between two of them.
  function AskAll(keys: seq<string>, ticks: seq<int>): (events: seq<Event>)
    requires |keys| == |ticks|
    ensures |events| == |keys| && forall i | 0 <= i < |keys| :: events[i] == Asked(keys[i], ticks[i])
  {
    seq(|keys|, i requires 0 <= i < |keys| => Asked(keys[i], ticks[i]))
  }

  // The keys let through (or, with let false, turned away), in order.
  function Sieve(s: Settings, log: seq<Event>, keys: seq<string>, ticks: seq<int>, through: bool): seq<string>
    requires |keys| == |ticks|
  {
    if keys == [] then []
    else
      var n := |keys| - 1;
      var blocked := Blocked(s, log + AskAll(keys[..n], ticks[..n]), keys[n], ticks[n]);
      Sieve(s, log, keys[..n], ticks[..n], through) + if blocked != through then [keys[n]] else []
  }

  // One more key, and what it adds.
  lemma SieveNext(s: Settings, log: seq<Event>, keys: seq<string>, ticks: seq<int>, i: nat)
    requires i < |keys| == |ticks|
    ensures AskAll(keys[..i + 1], ticks[..i + 1]) == AskAll(keys[..i], ticks[..i]) + [Asked(keys[i], ticks[i])]
    ensures forall through :: Sieve(s, log, keys[..i + 1], ticks[..i + 1], through)
              == Sieve(s, log, keys[..i], ticks[..i], through)
                 + if Blocked(s, log + AskAll(keys[..i], ticks[..i]), keys[i], ticks[i]) != through
                   then [keys[i]] else []
  {
    assert keys[..i + 1][..i] == keys[..i] && ticks[..i + 1][..i] == ticks[..i];
  }

  // The last key goes to one of the two lists.
  predicate OneGrows(x: seq<string>, y: seq<string>, x': seq<string>, y': seq<string>, k: string) {
    (x' == x + [k] && y' == y) || (x' == x && y' == y + [k])
  }

  lemma SieveLast(s: Settings, log: seq<Event>, keys: seq<string>, ticks: seq<int>)
    requires keys != [] && |keys| == |ticks|
    ensures var n := |keys| - 1;
            OneGrows(Sieve(s, log, keys[..n], ticks[..n], true), Sieve(s, log, keys[..n], ticks[..n], false),
                     Sieve(s, log, keys, ticks, true), Sieve(s, log, keys, ticks, false), keys[n])
  {
  }

  lemma SplitGrows(x: seq<string>, y: seq<string>, x': seq<string>, y': seq<string>, all: seq<string>)
    requires all != [] && OneGrows(x, y, x', y', all[|all| - 1])
    requires multiset(x) + multiset(y) == multiset(all[..|all| - 1])
    ensures multiset(x') + multiset(y') == multiset(all)
  {
    assert all == all[..|all| - 1] + [all[|all| - 1]];
  }

  lemma {:induction false} SieveConserves(s: Settings, log: seq<Event>, keys: seq<string>, ticks: seq<int>)
    requires |keys| == |ticks|
    ensures multiset(Sieve(s, log, keys, ticks, true)) + multiset(Sieve(s, log, keys, ticks, false)) == multiset(keys)
    decreases |keys|
  {
    if keys != [] {
      var n := |keys| - 1;
      SieveConserves(s, log, keys[..n], ticks[..n]);
      SieveLast(s, log, keys, ticks);
      SplitGrows(Sieve(s, log, keys[..n], ticks[..n], true), Sieve(s, log, keys[..n], ticks[..n], false),
                 Sieve(s, log, keys, ticks, true), Sieve(s, log, keys, ticks, false), keys);
    }
  }

  // Events about other keys do not matter.
  lemma {:induction false} OthersDoNotMatter(s: Settings, log: seq<Event>, more: seq<Event>, key: string)
    requires forall i | 0 <= i < |more| :: !Concerns(more[i], key)
    ensures Strikes(log + more, key) == Strikes(log, key) && LastStrike(log + more, key) == LastStrike(log, key)
    ensures Probed(s, log + more, key) == Probed(s, log, key)
    ensures Replay(s, log + more, key) == Replay(s, log, key)
    decreases |more|
  {
    if more == [] {
      assert log + more == log;
    } else {
      var n := |more| - 1;
      OthersDoNotMatter(s, log, more[..n], key);
      assert (log + more)[..|log + more| - 1] == log + more[..n];
    }
  }

  // Without repeated keys, each is judged by the log as it was before the call.
  lemma SieveJudges(s: Settings, log: seq<Event>, keys: seq<string>, ticks: seq<int>, i: nat)
    requires |keys| == |ticks| && NoRepeats(keys) && i < |keys|
    ensures Blocked(s, log + AskAll(keys[..i], ticks[..i]), keys[i], ticks[i]) <==> Blocked(s, log, keys[i], ticks[i])
  {
    OthersDoNotMatter(s, log, AskAll(keys[..i], ticks[..i]), keys[i]);
  }

  // The keys with a given verdict, in the order of the request.
  function Select(s: Settings, log: seq<Event>, keys: seq<string>, ticks: seq<int>, through: bool): seq<string>
    requires |keys| == |ticks|
  {
    if keys == [] then []
    else
      var n := |keys| - 1;
      var chosen := Blocked(s, log, keys[n], ticks[n]) != through;
      Select(s, log, keys[..n], ticks[..n], through) + if chosen then [keys[n]] else []
  }

  lemma {:induction false} SieveIsSelection(s: Settings, log: seq<Event>, keys: seq<string>, ticks: seq<int>,
                                            through: bool)
    requires |keys| == |ticks| && NoRepeats(keys)
    ensures Sieve(s, log, keys, ticks, through) == Select(s, log, keys, ticks, through)
    decreases |keys|
  {
    if keys != [] {
      var n := |keys| - 1;
      SieveIsSelection(s, log, keys[..n], ticks[..n], through);
      SieveJudges(s, log, keys, ticks, n);
    }
  }

  // ---- The registry ----------------------------------------------------------------------

  class BreakerRegistry {
    const settings: Settings
    var entries: map<string, Entry>
    ghost var log: seq<Event>

    ghost predicate Valid()
      reads this
    {
      && settings.threshold >= 1
      && forall k :: Lookup(k) == Replay(settings, log, k)
    }

    function Lookup(key: string): Option<Entry>
      reads this
    {
      if key in entries then Some(entries[key]) else None
    }

    constructor (failureThreshold: int, cooldownMs: int)
      ensures Valid() && log == [] && entries == map[]
      ensures settings.threshold == (if failureThreshold > 1 then failureThreshold else 1)
      ensures settings.cooldown == if cooldownMs > 0 then cooldownMs else 0
    {
      settings := Settings(if failureThreshold > 1 then failureThreshold else 1,
                           if cooldownMs > 0 then cooldownMs else 0);
      entries := map[];
      log := [];
    }

    // The entry of a key, created when missing.
    method Fetch(key: string) returns (entry: Entry)
      modifies this`entries
      ensures key in entries && entries == old(entries)[key := entry]
      ensures entry == old(Lookup(key)).GetOr(NEW_ENTRY)
    {
      if key !in entries {
        entries := entries[key := NEW_ENTRY];
      }
      entry := entries[key];
      assert entries == old(entries)[key := entry];
    }

    ghost method Note(e: Event)
      requires settings.threshold >= 1
      requires forall k :: Lookup(k)
                        == if Concerns(e, k) then Next(settings, Replay(settings, log, k), e)
                            else Replay(settings, log, k)
      modifies this`log
      ensures Valid() && log == old(log) + [e]
    {
      forall k ensures Lookup(k) == Replay(settings, log + [e], k) {
        ReplayNext(settings, log, e, k);
      }
      log := log + [e];
    }

    method Allows(key: string, now: int) returns (allowed: bool)
      requires Valid()
      modifies this
      ensures Valid() && log == old(log) + [Asked(key, now)]
      ensures allowed <==> !Blocked(settings, old(log), key, now)
    {
      RefusedIffBlocked(settings, log, key, now);
      var entry := Fetch(key);
      if entry.state == Closed || entry.state == HalfOpen {
        Note(Asked(key, now));
        return true;
      }
      var openedAt := entry.openedAtMs.GetOr(0);
      if now - openedAt >= settings.cooldown {
        entries := entries[key := entry.(state := HalfOpen)];
        Note(Asked(key, now));
        return true;
      }
      entries := entries[key := entry.(refused := entry.refused + 1)];
      Note(Asked(key, now));
      allowed := false;
    }

    method Success(key: string)
      requires Valid()
      modifies this
      ensures Valid() && log == old(log) + [Succeeded(key)]
    {
      var entry := Fetch(key);
      entries := entries[key := entry.(state := Closed, failures := 0, openedAtMs := None, lastReason := None)];
      Note(Succeeded(key));
    }

    method Failure(key: string, reason: string, now: int) returns (state: Phase)
      requires Valid()
      modifies this
      ensures Valid() && log == old(log) + [FailedAt(key, now, reason)]
      ensures state == PhaseOf(settings, log, key)
    {
      StateIsReading(settings, log + [FailedAt(key, now, reason)], key);
      var entry := Fetch(key);
      entry := entry.(lastReason := Some(Truncate(reason)));
      if entry.state == HalfOpen {
        entry := entry.(state := Open, openedAtMs := Some(now), failures := settings.threshold);
      } else {
        entry := entry.(failures := entry.failures + 1);
        if entry.failures >= settings.threshold {
          entry := entry.(state := Open, openedAtMs := Some(now));
        }
      }
      entries := entries[key := entry];
      Note(FailedAt(key, now, reason));
      state := entry.state;
    }

    method FilterAllowed(candidates: seq<string>, ticks: seq<int>) returns (allowed: seq<string>, skipped: seq<string>)
      requires Valid() && |ticks| == |candidates|
      modifies this
      ensures Valid() && log == old(log) + AskAll(candidates, ticks)
      ensures allowed == Sieve(settings, old(log), candidates, ticks, true)
      ensures skipped == Sieve(settings, old(log), candidates, ticks, false)
    {
      allowed, skipped := [], [];
      for i := 0 to |candidates|
        invariant Valid() && log == old(log) + AskAll(candidates[..i], ticks[..i])
        invariant allowed == Sieve(settings, old(log), candidates[..i], ticks[..i], true)
        invariant skipped == Sieve(settings, old(log), candidates[..i], ticks[..i], false)
      {
        SieveNext(settings, old(log), candidates, ticks, i);
        var ok := Allows(candidates[i], ticks[i]);
        if ok {
          allowed := allowed + [candidates[i]];
        } else {
          skipped := skipped + [candidates[i]];
        }
      }
      assert candidates[..|candidates|] == candidates && ticks[..|candidates|] == ticks;
    }

    method ResetKey(key: string)
      requires Valid()
      modifies this
      ensures Valid() && log == old(log) + [Reset(key)]
    {
      entries := entries - {key};
      Note(Reset(key));
    }

    method ResetEverything()
      requires Valid()
      modifies this
      ensures Valid() && log == old(log) + [ResetAll]
    {
      entries := map[];
      Note(ResetAll);
    }

    method AnyOpen() returns (any: bool)
      requires Valid()
      ensures any <==> exists k :: PhaseOf(settings, log, k) == Open
    {
      forall k ensures PhaseOf(settings, log, k) == Open <==> k in entries && entries[k].state == Open {
        StateIsReading(settings, log, k);
      }
      any := false;
      var rest := entries.Keys;
      while rest != {}
        invariant rest <= entries.Keys
        invariant forall k | k in entries && k !in rest :: entries[k].state != Open
        decreases |rest|
      {
        var k :| k in rest;
        if entries[k].state == Open { return true; }
        rest := rest - {k};
      }
    }
  }
}
