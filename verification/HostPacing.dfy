/** Per-host pacing of requests, as atomic steps between awaits under any scheduler. */
module HostPacing {
  import opened Wrappers

  // Where a caller of the rate limiter is: waiting for the gates before it, asleep until a moment,
  // past its stamp, or done, with its own gate open.
  datatype Phase = Waiting | Sleeping(until: int) | Stamped(at: int) | Released(at: int)

  datatype Caller = Caller(interval: int, phase: Phase)

  // The callers of one host in order of arrival, and the stamp of its last call.
  datatype Lane = Lane(callers: seq<Caller>, last: Option<int>)

  const EMPTY := Lane([], None)

  datatype Step =
    | Arrive(interval: int)
    | Wake(i: nat, now: int, at: int)      // gates open: decide to sleep, or stamp at once
    | TimerFires(i: nat, at: int)          // a sleep has ended
    | OpenGate(i: nat)                     // the zero-delay timer after the stamp

  // The gates before caller i are open.
  predicate GatesOpen(l: Lane, i: nat)
    requires i <= |l.callers|
  {
    forall j | 0 <= j < i :: l.callers[j].phase.Released?
  }

  predicate Enabled(l: Lane, s: Step) {
    match s
    case Arrive(_) => true
    case Wake(i, now, at) => i < |l.callers| && l.callers[i].phase == Waiting && GatesOpen(l, i) && now <= at
    case TimerFires(i, at) => i < |l.callers| && l.callers[i].phase.Sleeping? && l.callers[i].phase.until <= at
    case OpenGate(i) => i < |l.callers| && l.callers[i].phase.Stamped?
  }

  function SetPhase(l: Lane, i: nat, p: Phase): seq<Caller>
    requires i < |l.callers|
  {
    l.callers[i := l.callers[i].(phase := p)]
  }

  function Take(l: Lane, s: Step): Lane
    requires Enabled(l, s)
  {
    match s
    case Arrive(interval) => l.(callers := l.callers + [Caller(interval, Waiting)])
    case Wake(i, now, at) =>
      var wait := l.last.GetOr(0) + l.callers[i].interval - now;
      if wait > 0 then l.(callers := SetPhase(l, i, Sleeping(now + wait)))
      else Lane(SetPhase(l, i, Stamped(at)), Some(at))
    case TimerFires(i, at) => Lane(SetPhase(l, i, Stamped(at)), Some(at))
    case OpenGate(i) => l.(callers := SetPhase(l, i, Released(l.callers[i].phase.at)))
  }

  // Every step that reads the clock reads it no earlier than the steps before.
  predicate OnTime(s: Step, clock: int) {
    match s
    case Wake(_, now, _) => clock <= now
    case TimerFires(_, at) => clock <= at
    case _ => true
  }

  function Clock(s: Step, clock: int): int {
    match s
    case Wake(_, _, at) => at
    case TimerFires(_, at) => at
    case _ => clock
  }

  // ---- What every run keeps --------------------------------------------------------------

  predicate HasStamp(c: Caller) { c.phase.Stamped? || c.phase.Released? }

  // All before k are done; all after k are waiting.
  predicate OneActive(l: Lane, k: nat) {
    && k <= |l.callers|
    && (forall j | 0 <= j < k :: l.callers[j].phase.Released?)
    && (forall j | k < j < |l.callers| :: l.callers[j].phase == Waiting)
    && (k < |l.callers| ==> !l.callers[k].phase.Released?)
  }

  // The stamps taken so far are a prefix of the arrivals, each later than the previous one by at
  // least the later caller's interval; the first is measured from 0.
  ghost predicate SpacedAt(callers: seq<Caller>, i: nat)
    requires i < |callers|
  {
    HasStamp(callers[i]) ==>
      if i == 0 then callers[0].phase.at >= callers[0].interval
      else HasStamp(callers[i - 1]) && callers[i].phase.at >= callers[i - 1].phase.at + callers[i].interval
  }

  ghost predicate Spaced(l: Lane) {
    forall i: nat | i < |l.callers| :: SpacedAt(l.callers, i)
  }

  // No stamp lies in the future.
  ghost predicate Past(l: Lane, clock: int) {
    forall i: nat | i < |l.callers| && HasStamp(l.callers[i]) :: l.callers[i].phase.at <= clock
  }

  ghost predicate Inv(l: Lane, k: nat, clock: int) {
    && OneActive(l, k) && Spaced(l)
    && l.last == (if k < |l.callers| && l.callers[k].phase.Stamped? then Some(l.callers[k].phase.at)
                  else if k > 0 then Some(l.callers[k - 1].phase.at) else None)
    && (k < |l.callers| && l.callers[k].phase.Sleeping? ==>
          l.callers[k].phase.until == l.last.GetOr(0) + l.callers[k].interval)
    && Past(l, clock)
  }

  lemma ArriveInv(l: Lane, k: nat, clock: int, interval: int)
    requires Inv(l, k, clock)
    ensures Inv(Take(l, Arrive(interval)), k, clock)
  {
    var l' := Take(l, Arrive(interval));
    forall i: nat | i < |l'.callers| ensures SpacedAt(l'.callers, i) {
      assert i < |l.callers| ==> SpacedAt(l.callers, i);
    }
  }

  // Changing the phase of the active caller.
  lemma PhaseSpacing(l: Lane, k: nat, p: Phase)
    requires OneActive(l, k) && Spaced(l) && k < |l.callers| && SpacedAt(SetPhase(l, k, p), k)
    ensures Spaced(l.(callers := SetPhase(l, k, p)))
  {
    var callers := SetPhase(l, k, p);
    forall i: nat | i < |callers| ensures SpacedAt(callers, i) {
      assert SpacedAt(l.callers, i);
    }
  }

  lemma StampInv(l: Lane, k: nat, clock: int, at: int)
    requires Inv(l, k, clock) && k < |l.callers| && !HasStamp(l.callers[k]) && clock <= at
    requires at >= l.last.GetOr(0) + l.callers[k].interval
    ensures Inv(Lane(SetPhase(l, k, Stamped(at)), Some(at)), k, at)
  {
    PhaseSpacing(l, k, Stamped(at));
  }

  lemma SleepInv(l: Lane, k: nat, clock: int)
    requires Inv(l, k, clock) && k < |l.callers| && l.callers[k].phase == Waiting
    ensures Inv(l.(callers := SetPhase(l, k, Sleeping(l.last.GetOr(0) + l.callers[k].interval))), k, clock)
  {
    PhaseSpacing(l, k, Sleeping(l.last.GetOr(0) + l.callers[k].interval));
  }

  lemma OpenInv(l: Lane, k: nat, clock: int)
    requires Inv(l, k, clock) && k < |l.callers| && l.callers[k].phase.Stamped?
    ensures Inv(Take(l, OpenGate(k)), k + 1, clock)
  {
    assert SpacedAt(l.callers, k);
    PhaseSpacing(l, k, Released(l.callers[k].phase.at));
  }

  lemma ClockMoves(l: Lane, k: nat, clock: int, later: int)
    requires Inv(l, k, clock) && clock <= later
    ensures Inv(l, k, later)
  {
  }

  lemma StepInv(l: Lane, s: Step, k: nat, clock: int) returns (k': nat)
    requires Inv(l, k, clock) && Enabled(l, s) && OnTime(s, clock)
    ensures Inv(Take(l, s), k', Clock(s, clock)) && k <= k'
  {
    k' := if s.OpenGate? then k + 1 else k;
    match s
    case Arrive(interval) => ArriveInv(l, k, clock, interval);
    case Wake(i, now, at) =>
      assert i == k;
      if l.last.GetOr(0) + l.callers[i].interval - now > 0 {
        SleepInv(l, k, clock);
        ClockMoves(Take(l, s), k, clock, at);
      } else {
        StampInv(l, k, clock, at);
      }
    case TimerFires(i, at) => StampInv(l, k, clock, at);
    case OpenGate(i) => OpenInv(l, k, clock);
  }

  // A run of steps from the empty lane, on a clock that does not run backwards.
  ghost predicate Runs(steps: seq<Step>, l: Lane, clock: int) {
    if steps == [] then l == EMPTY
    else
      var n := |steps| - 1;
      exists l0, c0 :: Runs(steps[..n], l0, c0) && Enabled(l0, steps[n]) && OnTime(steps[n], c0)
                       && l == Take(l0, steps[n]) && clock == Clock(steps[n], c0)
  }

  lemma {:induction false} RunInv(steps: seq<Step>, l: Lane, clock: int) returns (k: nat)
    requires Runs(steps, l, clock)
    ensures Inv(l, k, clock)
    decreases |steps|
  {
    if steps == [] {
      k := 0;
    } else {
      var n := |steps| - 1;
      var l0, c0 :| Runs(steps[..n], l0, c0) && Enabled(l0, steps[n]) && OnTime(steps[n], c0)
                    && l == Take(l0, steps[n]) && clock == Clock(steps[n], c0);
      var k0 := RunInv(steps[..n], l0, c0);
      k := StepInv(l0, steps[n], k0, c0);
    }
  }

  // ---- The pacing theorems ---------------------------------------------------------------

  // Callers leave in order of arrival, and no two are past the gates at once.
  lemma OneAtATimeInOrder(steps: seq<Step>, l: Lane, clock: int, i: nat, j: nat)
    requires Runs(steps, l, clock) && i < j < |l.callers|
    ensures l.callers[j].phase != Waiting ==> l.callers[i].phase.Released?
  {
    var k := RunInv(steps, l, clock);
  }

  // Consecutive stamps on a host are at least the later caller's interval apart.
  lemma StampsAreSpaced(steps: seq<Step>, l: Lane, clock: int, i: nat)
    requires Runs(steps, l, clock) && i + 1 < |l.callers| && HasStamp(l.callers[i + 1])
    ensures HasStamp(l.callers[i])
    ensures l.callers[i + 1].phase.at >= l.callers[i].phase.at + l.callers[i + 1].interval
  {
    var k := RunInv(steps, l, clock);
    assert SpacedAt(l.callers, i + 1);
  }

  lemma {:induction false} SpacedApart(l: Lane, floor: int, i: nat, j: nat)
    requires Spaced(l) && i <= j < |l.callers| && HasStamp(l.callers[j])
    requires forall c | c in l.callers :: c.interval >= floor
    ensures HasStamp(l.callers[i]) && l.callers[j].phase.at - l.callers[i].phase.at >= (j - i) * floor
    decreases j - i
  {
    if i < j {
      assert SpacedAt(l.callers, j);
      SpacedApart(l, floor, i, j - 1);
      assert l.callers[j] in l.callers;
      assert (j - i) * floor == (j - 1 - i) * floor + floor;
    }
  }

  // ---- The interval asked for ------------------------------------------------------------

  const MAX_INTERVAL := 10000

  function Smaller(x: int, y: int): int { if x <= y then x else y }

  // The delay robots.txt declares, if robots are respected and it declares one, but never more than
  // ten seconds.
  function HostInterval(respectRobots: bool, declared: Option<int>, minimum: int): int {
    if !respectRobots || declared.None? then minimum
    else Smaller(if declared.value >= minimum then declared.value else minimum, MAX_INTERVAL)
  }

  // All callers of a lane were admitted with intervals of one configuration.
  ghost predicate Configured(l: Lane, respectRobots: bool, minimum: int) {
    forall c | c in l.callers :: exists d :: c.interval == HostInterval(respectRobots, d, minimum)
  }

  // Any two requests to a host are at least min(minimum, 10000) apart for each place between them,
  // whatever robots.txt says and however callers interleave.
  lemma HostIsPaced(steps: seq<Step>, l: Lane, clock: int, respectRobots: bool, minimum: int, i: nat, j: nat)
    requires Runs(steps, l, clock) && Configured(l, respectRobots, minimum)
    requires i <= j < |l.callers| && HasStamp(l.callers[j])
    ensures HasStamp(l.callers[i])
    ensures l.callers[j].phase.at - l.callers[i].phase.at >= (j - i) * Smaller(minimum, MAX_INTERVAL)
  {
    var k := RunInv(steps, l, clock);
    forall c | c in l.callers ensures c.interval >= Smaller(minimum, MAX_INTERVAL) {
      var d :| c.interval == HostInterval(respectRobots, d, minimum);
    }
    SpacedApart(l, Smaller(minimum, MAX_INTERVAL), i, j);
  }

  // And a delay that robots.txt asks for is granted up to ten seconds.
  lemma DeclaredDelayIsKept(declared: int, minimum: int)
    ensures HostInterval(true, Some(declared), minimum) >= Smaller(declared, MAX_INTERVAL)
    ensures HostInterval(true, Some(declared), minimum) <= MAX_INTERVAL
  {
  }

  // The interval is the larger of the two, between the configured one and ten seconds; without a
  // declared delay it is the configured one, however long.
  lemma IntervalIsLarger(respectRobots: bool, declared: int, minimum: int)
    ensures HostInterval(respectRobots, None, minimum) == HostInterval(false, Some(declared), minimum) == minimum
    ensures var interval := HostInterval(true, Some(declared), minimum);
            && (declared <= minimum <= 10000 ==> interval == minimum)
            && (minimum <= declared <= 10000 ==> interval == declared)
            && (declared > 10000 || minimum > 10000 ==> interval == 10000)
  {
  }

  // ---- Nobody is stuck -------------------------------------------------------------------

  function Weight(p: Phase): nat {
    match p
    case Waiting => 3
    case Sleeping(_) => 2
    case Stamped(_) => 1
    case Released(_) => 0
  }

  // Steps that the callers up to and including i can still take.
  function Pending(callers: seq<Caller>, i: nat): nat
    requires i < |callers|
  {
    Weight(callers[i].phase) + if i == 0 then 0 else Pending(callers, i - 1)
  }

  // Until caller i is done, some step at or before it can be taken as soon as the clock allows.
  lemma SomeoneCanMove(steps: seq<Step>, l: Lane, clock: int, i: nat, later: int) returns (s: Step)
    requires Runs(steps, l, clock) && i < |l.callers| && !l.callers[i].phase.Released?
    requires clock <= later && forall c | c in l.callers && c.phase.Sleeping? :: c.phase.until <= later
    ensures Enabled(l, s) && OnTime(s, clock) && Clock(s, clock) <= later && !s.Arrive? && s.i <= i
  {
    var k := RunInv(steps, l, clock);
    var c := l.callers[k];
    assert c in l.callers;
    match c.phase
    case Waiting => s := Wake(k, later, later);
    case Sleeping(_) => s := TimerFires(k, later);
    case Stamped(_) => s := OpenGate(k);
  }

  lemma {:induction false} PendingUnaffected(a: seq<Caller>, b: seq<Caller>, i: nat)
    requires i < |a| && i < |b| && a[..i + 1] == b[..i + 1]
    ensures Pending(a, i) == Pending(b, i)
  {
    assert a[..i + 1][i] == b[..i + 1][i];
    if i > 0 {
      assert a[..i] == a[..i + 1][..i] && b[..i] == b[..i + 1][..i];
      PendingUnaffected(a, b, i - 1);
    }
  }

  lemma {:induction false} PendingDrops(callers: seq<Caller>, m: nat, c: Caller, i: nat)
    requires m <= i < |callers| && Weight(c.phase) < Weight(callers[m].phase)
    ensures Pending(callers[m := c], i) < Pending(callers, i)
    decreases i
  {
    var b := callers[m := c];
    if i == m {
      if i > 0 {
        PendingUnaffected(callers, b, i - 1);
      }
    } else {
      PendingDrops(callers, m, c, i - 1);
    }
  }

  // Each such step brings caller i nearer to its release, and arrivals do not push it back; so it is
  // released after at most 3 (i + 1) steps of its lane, as long as every sleep ends.
  lemma StepsRunOut(l: Lane, s: Step, i: nat)
    requires Enabled(l, s) && i < |l.callers|
    ensures i < |Take(l, s).callers|
    ensures !s.Arrive? && s.i <= i ==> Pending(Take(l, s).callers, i) < Pending(l.callers, i)
    ensures s.Arrive? || s.i > i ==> Pending(Take(l, s).callers, i) == Pending(l.callers, i)
  {
    var l' := Take(l, s);
    if s.Arrive? || s.i > i {
      assert l'.callers[..i + 1] == l.callers[..i + 1];
      PendingUnaffected(l'.callers, l.callers, i);
    } else {
      PendingDrops(l.callers, s.i, l'.callers[s.i], i);
    }
  }

  lemma {:induction false} PendingBound(callers: seq<Caller>, i: nat)
    requires i < |callers|
    ensures Pending(callers, i) <= 3 * (i + 1)
    ensures Pending(callers, i) == 0 ==> callers[i].phase.Released?
  {
    if i > 0 {
      PendingBound(callers, i - 1);
    }
  }

  // The lane after more steps; None when some step was not possible.
  function Continue(l: Lane, steps: seq<Step>): Option<Lane> {
    if steps == [] then Some(l)
    else
      var n := |steps| - 1;
      var before := Continue(l, steps[..n]);
      if before.Some? && Enabled(before.value, steps[n]) then Some(Take(before.value, steps[n])) else None
  }

  // How many of the steps are taken by callers up to and including i.
  function Moves(steps: seq<Step>, i: nat): nat {
    if steps == [] then 0
    else
      var n := |steps| - 1;
      Moves(steps[..n], i) + if !steps[n].Arrive? && steps[n].i <= i then 1 else 0
  }

  lemma {:induction false} MovesUsePending(l: Lane, steps: seq<Step>, i: nat)
    requires i < |l.callers| && Continue(l, steps).Some?
    ensures i < |Continue(l, steps).value.callers|
    ensures Pending(Continue(l, steps).value.callers, i) + Moves(steps, i) <= Pending(l.callers, i)
    decreases |steps|
  {
    if steps != [] {
      var n := |steps| - 1;
      MovesUsePending(l, steps[..n], i);
      StepsRunOut(Continue(l, steps[..n]).value, steps[n], i);
    }
  }

  // A run that goes on passes through one lane and continues from there.
  lemma {:induction false} RunsAreDetermined(steps: seq<Step>, a: Lane, x: int, b: Lane, y: int)
    requires Runs(steps, a, x) && Runs(steps, b, y)
    ensures a == b
    decreases |steps|
  {
    if steps != [] {
      var n := |steps| - 1;
      var a0, x0 :| Runs(steps[..n], a0, x0) && Enabled(a0, steps[n]) && OnTime(steps[n], x0)
                    && a == Take(a0, steps[n]) && x == Clock(steps[n], x0);
      var b0, y0 :| Runs(steps[..n], b0, y0) && Enabled(b0, steps[n]) && OnTime(steps[n], y0)
                    && b == Take(b0, steps[n]) && y == Clock(steps[n], y0);
      RunsAreDetermined(steps[..n], a0, x0, b0, y0);
    }
  }

  lemma {:induction false} RunContinues(before: seq<Step>, more: seq<Step>, l: Lane, clock: int, l': Lane, clock': int)
    requires Runs(before, l, clock) && Runs(before + more, l', clock')
    ensures Continue(l, more) == Some(l')
    decreases |more|
  {
    var steps := before + more;
    if more == [] {
      assert steps == before;
      RunsAreDetermined(before, l, clock, l', clock');
    } else {
      var n := |steps| - 1;
      assert steps[..n] == before + more[..|more| - 1] && steps[n] == more[|more| - 1];
      var l0, c0 :| Runs(steps[..n], l0, c0) && Enabled(l0, steps[n]) && OnTime(steps[n], c0)
                    && l' == Take(l0, steps[n]) && clock' == Clock(steps[n], c0);
      RunContinues(before, more[..|more| - 1], l, clock, l0, c0);
    }
  }

  // Some step of a caller up to and including i can be taken, by a given time.
  ghost predicate CanProceed(l: Lane, clock: int, i: nat, later: int) {
    exists s :: Enabled(l, s) && OnTime(s, clock) && Clock(s, clock) <= later && !s.Arrive? && s.i <= i
  }

  // Nobody is stuck: from any moment of a run, however it goes on, the callers up to and including i
  // move at most 3 (i + 1) times, and as long as caller i is not released, one of them can move as soon
  // as all sleeps have ended.
  lemma EveryoneIsReleased(before: seq<Step>, l: Lane, clock: int, more: seq<Step>, l': Lane, clock': int,
                           i: nat, later: int)
    requires Runs(before, l, clock) && i < |l.callers| && Runs(before + more, l', clock')
    requires clock' <= later && forall c | c in l'.callers && c.phase.Sleeping? :: c.phase.until <= later
    ensures i < |l'.callers| && Moves(more, i) <= 3 * (i + 1)
    ensures l'.callers[i].phase.Released? || CanProceed(l', clock', i, later)
  {
    RunContinues(before, more, l, clock, l', clock');
    MovesUsePending(l, more, i);
    PendingBound(l.callers, i);
    if !l'.callers[i].phase.Released? {
      var s := SomeoneCanMove(before + more, l', clock', i, later);
    }
  }

  // ---- The limiter of all hosts ----------------------------------------------------------

  class RateLimiter {
    var hostQueues: map<string, seq<Caller>>
    var lastCallAt: map<string, int>

    constructor ()
      ensures forall host :: LaneOf(host) == EMPTY
    {
      hostQueues, lastCallAt := map[], map[];
    }

    function LaneOf(host: string): Lane
      reads this
    {
      Lane(if host in hostQueues then hostQueues[host] else [],
           if host in lastCallAt then Some(lastCallAt[host]) else None)
    }

    // The call, up to its first await: it queues behind whoever came before.
    method Call(host: string, interval: int) returns (ticket: nat)
      modifies this
      ensures LaneOf(host) == Take(old(LaneOf(host)), Arrive(interval)) && ticket == |old(LaneOf(host)).callers|
      ensures forall h | h != host :: LaneOf(h) == old(LaneOf(h))
    {
      var previous := if host in hostQueues then hostQueues[host] else [];
      ticket := |previous|;
      hostQueues := hostQueues[host := previous + [Caller(interval, Waiting)]];
    }

    // Its turn has come: sleep if the last call is too recent, else stamp.
    method Turn(host: string, ticket: nat, now: int, at: int)
      requires Enabled(LaneOf(host), Wake(ticket, now, at))
      modifies this
      ensures LaneOf(host) == Take(old(LaneOf(host)), Wake(ticket, now, at))
      ensures forall h | h != host :: LaneOf(h) == old(LaneOf(h))
    {
      var callers := hostQueues[host];
      var last := if host in lastCallAt then lastCallAt[host] else 0;
      var wait := last + callers[ticket].interval - now;
      if wait > 0 {
        hostQueues := hostQueues[host := callers[ticket := callers[ticket].(phase := Sleeping(now + wait))]];
      } else {
        lastCallAt := lastCallAt[host := at];
        hostQueues := hostQueues[host := callers[ticket := callers[ticket].(phase := Stamped(at))]];
      }
    }

    // Its sleep has ended.
    method Awake(host: string, ticket: nat, at: int)
      requires Enabled(LaneOf(host), TimerFires(ticket, at))
      modifies this
      ensures LaneOf(host) == Take(old(LaneOf(host)), TimerFires(ticket, at))
      ensures forall h | h != host :: LaneOf(h) == old(LaneOf(h))
    {
      var callers := hostQueues[host];
      lastCallAt := lastCallAt[host := at];
      hostQueues := hostQueues[host := callers[ticket := callers[ticket].(phase := Stamped(at))]];
    }

    // The zero-delay timer opens the gate for the next caller.
    method Release(host: string, ticket: nat)
      requires Enabled(LaneOf(host), OpenGate(ticket))
      modifies this
      ensures LaneOf(host) == Take(old(LaneOf(host)), OpenGate(ticket))
      ensures forall h | h != host :: LaneOf(h) == old(LaneOf(h))
    {
      var callers := hostQueues[host];
      var released := callers[ticket].(phase := Released(callers[ticket].phase.at));
      hostQueues := hostQueues[host := callers[ticket := released]];
    }
  }
}
