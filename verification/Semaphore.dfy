/** The crawl limiter: no wake-up is lost, and exactly when the limit can be exceeded. */
module Semaphore {
  import opened Wrappers

  // The counter and the waiting list, and which tasks were woken but have not resumed, or run.
  datatype Sem = Sem(limit: int, active: int, waiting: seq<nat>, arrived: nat, woken: set<nat>, running: set<nat>)

  datatype Step = Enter | Resume(who: nat) | Leave(who: nat)

  predicate Enabled(m: Sem, s: Step) {
    match s
    case Enter => true
    case Resume(who) => who in m.woken
    case Leave(who) => who in m.running
  }

  function Take(m: Sem, s: Step): Sem
    requires Enabled(m, s)
  {
    match s
    case Enter =>
      var me := m.arrived;
      if m.active >= m.limit then m.(waiting := m.waiting + [me], arrived := me + 1)
      else m.(active := m.active + 1, running := m.running + {me}, arrived := me + 1)
    case Resume(who) => m.(active := m.active + 1, woken := m.woken - {who}, running := m.running + {who})
    case Leave(who) =>
      var left := m.(active := m.active - 1, running := m.running - {who});
      if m.waiting == [] then left
      else left.(waiting := m.waiting[1..], woken := m.woken + {m.waiting[0]})
  }

  function Start(limit: int): Sem { Sem(limit, 0, [], 0, {}, {}) }

  // The state after a run; None when some step was not possible.
  function Run(limit: int, steps: seq<Step>): Option<Sem> {
    if steps == [] then Some(Start(limit))
    else
      var n := |steps| - 1;
      var before := Run(limit, steps[..n]);
      if before.Some? && Enabled(before.value, steps[n]) then Some(Take(before.value, steps[n])) else None
  }

  ghost predicate Inv(m: Sem) {
    && m.active == |m.running|
    && (m.waiting != [] ==> m.active + |m.woken| >= m.limit)
    && m.woken !! m.running
    && (forall t | t in m.woken || t in m.running :: t < m.arrived)
    && (forall i | 0 <= i < |m.waiting| ::
          m.waiting[i] < m.arrived && m.waiting[i] !in m.woken && m.waiting[i] !in m.running)
    && (forall i, j | 0 <= i < j < |m.waiting| :: m.waiting[i] < m.waiting[j])
  }

  lemma EnterInv(m: Sem)
    requires Inv(m)
    ensures Inv(Take(m, Enter))
  {
    assert m.arrived !in m.running;
  }

  lemma ResumeInv(m: Sem, who: nat)
    requires Inv(m) && who in m.woken
    ensures Inv(Take(m, Resume(who)))
  {
    assert |m.woken - {who}| == |m.woken| - 1;
    assert who !in m.running;
  }

  lemma LeaveInv(m: Sem, who: nat)
    requires Inv(m) && who in m.running
    ensures Inv(Take(m, Leave(who)))
  {
    var m' := Take(m, Leave(who));
    assert |m.running - {who}| == |m.running| - 1;
    if m.waiting != [] {
      assert m.waiting[0] !in m.woken;
      assert |m.woken + {m.waiting[0]}| == |m.woken| + 1;
      assert forall i | 0 <= i < |m'.waiting| :: m'.waiting[i] == m.waiting[i + 1];
    }
  }

  lemma TakeInv(m: Sem, s: Step)
    requires Inv(m) && Enabled(m, s)
    ensures Inv(Take(m, s))
  {
    match s
    case Enter => EnterInv(m);
    case Resume(who) => ResumeInv(m, who);
    case Leave(who) => LeaveInv(m, who);
  }

  lemma {:induction false} RunInv(limit: int, steps: seq<Step>)
    requires Run(limit, steps).Some?
    ensures Inv(Run(limit, steps).value) && Run(limit, steps).value.limit == limit
    decreases |steps|
  {
    if steps != [] {
      RunInv(limit, steps[..|steps| - 1]);
      TakeInv(Run(limit, steps[..|steps| - 1]).value, steps[|steps| - 1]);
    }
  }

  // No wake-up is lost: while a task waits, running and woken tasks fill the limit, so with a
  // positive limit one of them can still move and, on leaving, wake the longest waiting task.
  lemma NoLostWakeUp(limit: int, steps: seq<Step>)
    requires Run(limit, steps).Some? && Run(limit, steps).value.waiting != []
    ensures var m := Run(limit, steps).value;
            && m.active + |m.woken| >= limit
            && (limit > 0 ==> exists who :: who in m.woken || who in m.running)
            && (forall i | 0 < i < |m.waiting| :: m.waiting[0] < m.waiting[i])
  {
    RunInv(limit, steps);
    var m := Run(limit, steps).value;
    if limit > 0 {
      if m.woken == {} {
        assert |m.running| > 0;
        var who :| who in m.running;
      } else {
        var who :| who in m.woken;
      }
    }
  }

  // A task that ends wakes the waiting task that arrived first, and no other; the rest keep waiting.
  lemma FirstWaitingIsWoken(limit: int, steps: seq<Step>, who: nat)
    requires Run(limit, steps).Some? && who in Run(limit, steps).value.running
    ensures var m, m' := Run(limit, steps).value, Take(Run(limit, steps).value, Leave(who));
            && m'.running == m.running - {who} && m'.active == m.active - 1
            && (m.waiting == [] ==> m'.woken == m.woken && m'.waiting == [])
            && (m.waiting != [] ==>
                  exists first :: first in m.waiting && (forall t | t in m.waiting :: first <= t)
                    && m'.woken == m.woken + {first}
                    && forall t :: t in m'.waiting <==> t in m.waiting && t != first)
  {
    RunInv(limit, steps);
    var m, m' := Run(limit, steps).value, Take(Run(limit, steps).value, Leave(who));
    if m.waiting != [] {
      var first := m.waiting[0];
      assert m.waiting == [first] + m'.waiting;
      forall t ensures t in m'.waiting <==> t in m.waiting && t != first {
        if t in m'.waiting {
          var i :| 0 <= i < |m'.waiting| && m'.waiting[i] == t;
          assert m.waiting[i + 1] == t;
        }
      }
    }
  }

  // ---- The upper limit -------------------------------------------------------------------

  // A task enters straight away into a place already promised to a woken one.
  predicate Overtakes(m: Sem, s: Step) {
    s.Enter? && m.active < m.limit && m.active + |m.woken| >= m.limit
  }

  // Running and promised places stay within the limit.
  predicate WithinLimit(m: Sem) {
    m.active + |m.woken| <= m.limit
  }

  lemma StepWithinLimit(m: Sem, s: Step)
    requires Inv(m) && Enabled(m, s) && WithinLimit(m)
    ensures WithinLimit(Take(m, s)) <==> !Overtakes(m, s)
  {
    TakeInv(m, s);
    match s
    case Enter =>
    case Resume(who) => assert |m.woken - {who}| == |m.woken| - 1;
    case Leave(who) =>
      if m.waiting != [] {
        assert |m.woken + {m.waiting[0]}| == |m.woken| + 1;
      }
  }

  predicate Orderly(limit: int, steps: seq<Step>)
    requires Run(limit, steps).Some?
    decreases |steps|
  {
    steps != [] ==>
      var n := |steps| - 1;
      Orderly(limit, steps[..n]) && !Overtakes(Run(limit, steps[..n]).value, steps[n])
  }

  predicate OnlyResumes(steps: seq<Step>) {
    forall i | 0 <= i < |steps| :: steps[i].Resume?
  }

  // However the woken tasks resume, at most limit tasks run.
  ghost predicate Sustainable(limit: int, steps: seq<Step>) {
    forall more | OnlyResumes(more) && Run(limit, steps + more).Some? :: Run(limit, steps + more).value.active <= limit
  }

  lemma RunNext(limit: int, steps: seq<Step>, s: Step)
    requires Run(limit, steps).Some? && Enabled(Run(limit, steps).value, s)
    ensures Run(limit, steps + [s]) == Some(Take(Run(limit, steps).value, s))
  {
    assert (steps + [s])[..|steps|] == steps;
  }

  lemma {:induction false} ResumesKeepTotal(limit: int, steps: seq<Step>, more: seq<Step>)
    requires OnlyResumes(more) && Run(limit, steps + more).Some?
    ensures Run(limit, steps).Some?
    ensures var m, m' := Run(limit, steps).value, Run(limit, steps + more).value;
            m'.active + |m'.woken| == m.active + |m.woken|
    decreases |more|
  {
    if more == [] {
      assert steps + more == steps;
    } else {
      var n := |more| - 1;
      assert (steps + more)[..|steps| + n] == steps + more[..n];
      ResumesKeepTotal(limit, steps, more[..n]);
      var m, who := Run(limit, steps + more[..n]).value, more[n].who;
      assert |m.woken - {who}| == |m.woken| - 1;
    }
  }

  lemma {:induction false} ResumeAll(limit: int, steps: seq<Step>) returns (more: seq<Step>)
    requires Run(limit, steps).Some?
    ensures OnlyResumes(more) && Run(limit, steps + more).Some? && Run(limit, steps + more).value.woken == {}
    decreases |Run(limit, steps).value.woken|
  {
    var m := Run(limit, steps).value;
    if who :| who in m.woken {
      RunNext(limit, steps, Resume(who));
      var rest := ResumeAll(limit, steps + [Resume(who)]);
      more := [Resume(who)] + rest;
      assert steps + [Resume(who)] + rest == steps + more;
    } else {
      more := [];
      assert steps + more == steps;
    }
  }

  lemma SustainableIffWithin(limit: int, steps: seq<Step>)
    requires Run(limit, steps).Some? && Run(limit, steps).value.limit == limit
    ensures Sustainable(limit, steps) <==> WithinLimit(Run(limit, steps).value)
  {
    var all := ResumeAll(limit, steps);
    ResumesKeepTotal(limit, steps, all);
    forall more | OnlyResumes(more) && Run(limit, steps + more).Some? && WithinLimit(Run(limit, steps).value)
      ensures Run(limit, steps + more).value.active <= limit
    {
      ResumesKeepTotal(limit, steps, more);
    }
  }

  // At no moment of the run do more tasks run, or can more come to run by resuming, than the limit.
  ghost predicate AlwaysSustainable(limit: int, steps: seq<Step>)
    decreases |steps|
  {
    Sustainable(limit, steps) && (steps != [] ==> AlwaysSustainable(limit, steps[..|steps| - 1]))
  }

  // That holds of a run iff no task ever enters ahead of one that was woken before it.
  lemma {:induction false} LimitHoldsIffOrderly(limit: int, steps: seq<Step>)
    requires limit >= 0 && Run(limit, steps).Some?
    ensures AlwaysSustainable(limit, steps) <==> Orderly(limit, steps)
    ensures Orderly(limit, steps) ==> WithinLimit(Run(limit, steps).value)
    decreases |steps|
  {
    RunInv(limit, steps);
    SustainableIffWithin(limit, steps);
    if steps != [] {
      var n := |steps| - 1;
      LimitHoldsIffOrderly(limit, steps[..n]);
      RunInv(limit, steps[..n]);
      if Orderly(limit, steps[..n]) {
        StepWithinLimit(Run(limit, steps[..n]).value, steps[n]);
      }
    }
  }

  // In an orderly run at most limit tasks run at once.
  lemma OrderlyIsBounded(limit: int, steps: seq<Step>)
    requires limit >= 0 && Run(limit, steps).Some? && Orderly(limit, steps)
    ensures Run(limit, steps).value.active <= limit
  {
    LimitHoldsIffOrderly(limit, steps);
    RunInv(limit, steps);
  }

  // Not every disorderly run exceeds the limit by itself: one does iff a woken task resumes when all
  // places are taken.
  predicate FindsRoom(limit: int, steps: seq<Step>)
    requires Run(limit, steps).Some?
    decreases |steps|
  {
    steps != [] ==>
      var n := |steps| - 1;
      FindsRoom(limit, steps[..n]) && (steps[n].Resume? ==> Run(limit, steps[..n]).value.active < limit)
  }

  predicate AlwaysBounded(limit: int, steps: seq<Step>)
    requires Run(limit, steps).Some?
    decreases |steps|
  {
    Run(limit, steps).value.active <= limit && (steps != [] ==> AlwaysBounded(limit, steps[..|steps| - 1]))
  }

  lemma {:induction false} BoundedIffRoom(limit: int, steps: seq<Step>)
    requires limit >= 0 && Run(limit, steps).Some?
    ensures AlwaysBounded(limit, steps) <==> FindsRoom(limit, steps)
    decreases |steps|
  {
    if steps != [] {
      BoundedIffRoom(limit, steps[..|steps| - 1]);
      RunInv(limit, steps[..|steps| - 1]);
    }
  }

  // Five steps that let two tasks run under a limit of one: the first leaves, which wakes the
  // second, but a third enters before the second resumes.
  lemma LimitCanBeExceeded()
    ensures var steps := [Enter, Enter, Leave(0), Enter, Resume(1)];
            Run(1, steps).Some? && Run(1, steps).value.active == 2
  {
    var s0: seq<Step> := [];
    var s1, s2, s3, s4 := [Enter], [Enter, Enter], [Enter, Enter, Leave(0)], [Enter, Enter, Leave(0), Enter];
    var s5 := [Enter, Enter, Leave(0), Enter, Resume(1)];
    assert s1[..0] == s0 && s2[..1] == s1 && s3[..2] == s2 && s4[..3] == s3 && s5[..4] == s4;
    assert Run(1, s0) == Some(Start(1));
    assert {} + {0} == {0} && [] + [1] == [1];
    assert Run(1, s1) == Some(Sem(1, 1, [], 1, {}, {0}));
    assert Run(1, s2) == Some(Sem(1, 1, [1], 2, {}, {0}));
    assert Run(1, s3).value.active == 0 && Run(1, s3).value.woken == {1} && Run(1, s3).value.limit == 1;
    assert Run(1, s4).value.active == 1 && 1 in Run(1, s4).value.woken;
  }

  // ---- The limiter -----------------------------------------------------------------------

  class Limiter {
    const limit: int
    var active: int
    var waiting: seq<nat>
    var arrived: nat
    ghost var woken: set<nat>
    ghost var running: set<nat>

    ghost function Now(): Sem
      reads this
    {
      Sem(limit, active, waiting, arrived, woken, running)
    }

    constructor (limit: int)
      ensures Now() == Start(limit)
    {
      this.limit := limit;
      active, waiting, arrived, woken, running := 0, [], 0, {}, {};
    }

    // A task calls run: it waits, or starts at once.
    method Begin() returns (started: bool)
      modifies this
      ensures Now() == Take(old(Now()), Enter) && (started <==> old(active) < limit)
    {
      if active >= limit {
        waiting := waiting + [arrived];
        started := false;
      } else {
        active := active + 1;
        running := running + {arrived};
        started := true;
      }
      arrived := arrived + 1;
    }

    // A woken task resumes after its await.
    method Continue(ghost who: nat)
      requires who in woken
      modifies this
      ensures Now() == Take(old(Now()), Resume(who))
    {
      active := active + 1;
      woken, running := woken - {who}, running + {who};
    }

    // A task ends, and wakes the longest waiting one if there is any.
    method End(ghost who: nat)
      requires who in running
      modifies this
      ensures Now() == Take(old(Now()), Leave(who))
    {
      active := active - 1;
      running := running - {who};
      if |waiting| > 0 {
        var next := waiting[0];
        waiting := waiting[1..];
        woken := woken + {next};
      }
    }
  }
}
