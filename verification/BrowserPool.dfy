/** The browser pool's slots, as atomic steps under any interleaving of renders, without shutdown. */
module BrowserPool {
  import opened Wrappers

  // The pool's counter and queue, and a record of who asked, who was let in (both in order), and who
  // holds a slot. A render is named by the order in which it asked.
  datatype Slots = Slots(
    max: int, active: int, queue: seq<nat>, asked: nat, admitted: seq<nat>, holders: set<nat>)

  datatype Step = Ask | GiveBack(who: nat)

  predicate Enabled(p: Slots, s: Step) {
    s.GiveBack? ==> s.who in p.holders
  }

  function Take(p: Slots, s: Step): Slots
    requires Enabled(p, s)
  {
    match s
    case Ask =>
      var me := p.asked;
      if p.active < p.max then
        p.(active := p.active + 1, asked := me + 1, admitted := p.admitted + [me], holders := p.holders + {me})
      else p.(queue := p.queue + [me], asked := me + 1)
    case GiveBack(who) =>
      if p.queue == [] then p.(active := p.active - 1, holders := p.holders - {who})
      else
        var next := p.queue[0];
        p.(queue := p.queue[1..], admitted := p.admitted + [next], holders := p.holders - {who} + {next})
  }

  function Start(max: int): Slots { Slots(max, 0, [], 0, [], {}) }

  // The state after a run; None when some step was not possible.
  function Run(max: int, steps: seq<Step>): Option<Slots> {
    if steps == [] then Some(Start(max))
    else
      var n := |steps| - 1;
      var before := Run(max, steps[..n]);
      if before.Some? && Enabled(before.value, steps[n]) then Some(Take(before.value, steps[n])) else None
  }

  ghost predicate Inv(p: Slots) {
    && p.active == |p.holders|
    && p.active <= (if p.max > 0 then p.max else 0)
    && (p.queue != [] ==> p.active >= p.max)
    && |p.admitted| + |p.queue| == p.asked
    && (forall i | 0 <= i < |p.admitted| :: p.admitted[i] == i)
    && (forall i | 0 <= i < |p.queue| :: p.queue[i] == |p.admitted| + i)
    && (forall t | t in p.holders :: t < |p.admitted|)
  }

  lemma TakeInv(p: Slots, s: Step)
    requires Inv(p) && Enabled(p, s)
    ensures Inv(Take(p, s))
  {
    match s
    case Ask => AskInv(p);
    case GiveBack(who) => GiveBackInv(p, who);
  }

  lemma AskInv(p: Slots)
    requires Inv(p)
    ensures Inv(Take(p, Ask))
  {
    if p.active < p.max {
      assert p.queue == [];
      assert p.asked !in p.holders;
    }
  }

  lemma GiveBackInv(p: Slots, who: nat)
    requires Inv(p) && Enabled(p, GiveBack(who))
    ensures Inv(Take(p, GiveBack(who)))
  {
    var p' := Take(p, GiveBack(who));
    assert |p.holders - {who}| == |p.holders| - 1;
    if p.queue != [] {
      assert p.queue[0] !in p.holders - {who};
      assert forall i | 0 <= i < |p'.queue| :: p'.queue[i] == p.queue[i + 1];
    }
  }

  lemma {:induction false} RunInv(max: int, steps: seq<Step>)
    requires Run(max, steps).Some?
    ensures Inv(Run(max, steps).value) && Run(max, steps).value.max == max
    decreases |steps|
  {
    if steps != [] {
      RunInv(max, steps[..|steps| - 1]);
      TakeInv(Run(max, steps[..|steps| - 1]).value, steps[|steps| - 1]);
    }
  }

  // In every run: the counter is the number of slots held, never above the limit; somebody waits
  // only when all slots are held; and renders are let in in the order in which they asked, so a
  // render waits exactly while fewer have been let in than asked before it.
  lemma PoolLaw(max: int, steps: seq<Step>, k: nat)
    requires Run(max, steps).Some? && max >= 0
    ensures var p := Run(max, steps).value;
            && p.active == |p.holders| <= max
            && (p.queue != [] ==> p.active == max)
            && (k < p.asked ==> (k in p.queue <==> k >= |p.admitted|) && (k in p.admitted <==> k < |p.admitted|))
  {
    RunInv(max, steps);
    var p := Run(max, steps).value;
    if k < p.asked {
      if k < |p.admitted| {
        assert p.admitted[k] == k;
      } else {
        assert p.queue[k - |p.admitted|] == k;
      }
    }
  }

  // Giving a slot back lets in the render that has waited longest.
  lemma GivingBackServesTheFirst(p: Slots, who: nat)
    requires Inv(p) && who in p.holders && p.queue != []
    ensures var p' := Take(p, GiveBack(who));
            p'.admitted == p.admitted + [|p.admitted|] && |p.admitted| in p'.holders && p'.active == p.active
  {
    assert p.queue[0] == |p.admitted|;
  }

  // ---- The pool --------------------------------------------------------------------------

  class Pool {
    const maxContexts: int
    var active: int
    var queue: seq<nat>
    var asked: nat
    ghost var admitted: seq<nat>
    ghost var holders: set<nat>

    ghost function Now(): Slots
      reads this
    {
      Slots(maxContexts, active, queue, asked, admitted, holders)
    }

    constructor (maxContexts: int)
      ensures Now() == Start(maxContexts)
    {
      this.maxContexts := maxContexts;
      active, queue, asked, admitted, holders := 0, [], 0, [], {};
    }

    // A render asks for a slot: it gets one at once, or waits at the back of the queue.
    method Acquire() returns (granted: bool)
      modifies this
      ensures Now() == Take(old(Now()), Ask) && (granted <==> old(active) < maxContexts)
    {
      if active < maxContexts {
        active := active + 1;
        admitted, holders := admitted + [asked], holders + {asked};
        granted := true;
      } else {
        queue := queue + [asked];
        granted := false;
      }
      asked := asked + 1;
    }

    // A render gives its slot back; it passes to the first in the queue, if there is one.
    method Release(ghost who: nat)
      requires who in holders
      modifies this
      ensures Now() == Take(old(Now()), GiveBack(who))
    {
      active := active - 1;
      holders := holders - {who};
      if |queue| > 0 {
        var next := queue[0];
        queue := queue[1..];
        active := active + 1;
        admitted, holders := admitted + [next], holders + {next};
      }
    }
  }
}
