/** The allow/disallow decision: group choice and the longest-match rule of section 2.2.2 of RFC 9309. */
module RobotsDecision {
  import opened Text
  import opened Wrappers
  import opened RobotsParser
  import opened RobotsMatch

  function Find(groups: seq<Group>, agent: string): Option<Group> {
    if groups == [] then None
    else if agent in groups[0].agents then Some(groups[0])
    else Find(groups[1..], agent)
  }

  // The first group that names the agent, or failing that the first that names "*".
  function Chosen(groups: seq<Group>, agent: string): Option<Group> {
    var specific := Find(groups, agent);
    if specific.Some? then specific else Find(groups, "*")
  }

  predicate Applies(rule: Rule, path: string) {
    rule.pattern != "" && MatchesPattern(rule.pattern, path)
  }

  // Pattern length with the wildcards left out.
  function Weight(pattern: string): nat {
    if pattern == "" then 0 else (if pattern[0] == '*' then 0 else 1) + Weight(pattern[1..])
  }

  ghost predicate IsLongest(rule: Rule, rules: seq<Rule>, path: string) {
    && rule in rules && Applies(rule, path)
    && forall r | r in rules && Applies(r, path) :: Weight(r.pattern) <= Weight(rule.pattern)
  }

  // No rule applies, or an Allow is among the longest that do.
  ghost predicate Permits(rules: seq<Rule>, path: string) {
    || (forall r | r in rules :: !Applies(r, path))
    || (exists r: Rule :: r.allow && IsLongest(r, rules, path))
  }

  ghost predicate Allowed(text: string, path: string, agent: string) {
    var group := Chosen(Groups(text), agent);
    group.None? || Permits(group.value.rules, path)
  }

  // What the loop remembers of the rules seen so far.
  datatype Best = Best(allow: bool, length: nat)

  ghost predicate Summarises(best: Option<Best>, rules: seq<Rule>, path: string) {
    match best
    case None => forall r | r in rules :: !Applies(r, path)
    case Some(b) =>
      && (exists r: Rule :: r.allow == b.allow && Weight(r.pattern) == b.length && IsLongest(r, rules, path))
      && (b.allow || forall r | r in rules && r.allow && Applies(r, path) :: Weight(r.pattern) < b.length)
  }

  lemma SummaryDecides(best: Option<Best>, rules: seq<Rule>, path: string)
    requires Summarises(best, rules, path)
    ensures Permits(rules, path) <==> best.None? || best.value.allow
  {
  }

  lemma SummaryExtends(best: Option<Best>, rules: seq<Rule>, rule: Rule, path: string)
    requires Summarises(best, rules, path)
    ensures !Applies(rule, path) ==> Summarises(best, rules + [rule], path)
    ensures Applies(rule, path) ==>
              var w := Weight(rule.pattern);
              var wins := best.None? || w > best.value.length || (w == best.value.length && rule.allow);
              Summarises(if wins then Some(Best(rule.allow, w)) else best, rules + [rule], path)
  {
    var all := rules + [rule];
    assert forall r :: r in all <==> r in rules || r == rule;
    if best.Some? {
      var r: Rule :| r.allow == best.value.allow && Weight(r.pattern) == best.value.length && IsLongest(r, rules, path);
      var w := Weight(rule.pattern);
      if !Applies(rule, path) || w <= best.value.length {
        assert IsLongest(r, all, path);
      }
      if Applies(rule, path) && w >= best.value.length {
        assert IsLongest(rule, all, path);
      }
    } else if Applies(rule, path) {
      assert IsLongest(rule, all, path);
    }
  }

  method DecideByRules(rules: seq<Rule>, path: string) returns (allowed: bool)
    ensures allowed <==> Permits(rules, path)
  {
    var best: Option<Best> := None;
    for i := 0 to |rules|
      invariant Summarises(best, rules[..i], path)
    {
      var rule := rules[i];
      SummaryExtends(best, rules[..i], rule, path);
      assert rules[..i + 1] == rules[..i] + [rule];
      if rule.pattern == "" { continue; }
      if !MatchesPattern(rule.pattern, path) { continue; }
      var length := Weight(rule.pattern);
      if best.None? || length > best.value.length || (length == best.value.length && rule.allow) {
        best := Some(Best(rule.allow, length));
      }
    }
    assert rules[..|rules|] == rules;
    SummaryDecides(best, rules, path);
    allowed := if best.Some? then best.value.allow else true;
  }

  method IsPathAllowed(text: string, path: string, agent: string) returns (allowed: bool)
    ensures allowed <==> Allowed(text, path, agent)
  {
    var groups := ParseRobots(text);
    var group := Chosen(groups, agent);
    if group.None? { return true; }
    allowed := DecideByRules(group.value.rules, path);
  }

  // ---- Laws of the decision --------------------------------------------------------------

  lemma LongestExists(rules: seq<Rule>, path: string) returns (best: Option<Best>)
    ensures Summarises(best, rules, path)
    decreases |rules|
  {
    if rules == [] {
      best := None;
    } else {
      var n := |rules| - 1;
      best := LongestExists(rules[..n], path);
      var rule := rules[n];
      SummaryExtends(best, rules[..n], rule, path);
      assert rules == rules[..n] + [rule];
      var w := Weight(rule.pattern);
      if Applies(rule, path)
        && (best.None? || w > best.value.length || (w == best.value.length && rule.allow)) {
        best := Some(Best(rule.allow, w));
      }
    }
  }

  // The order of the rules within a group is irrelevant.
  lemma RuleOrderIsIrrelevant(rules: seq<Rule>, shuffled: seq<Rule>, path: string)
    requires multiset(rules) == multiset(shuffled)
    ensures Permits(rules, path) <==> Permits(shuffled, path)
  {
    forall r ensures r in rules <==> r in shuffled {
      assert r in rules <==> r in multiset(rules);
      assert r in shuffled <==> r in multiset(shuffled);
    }
    assert forall r :: IsLongest(r, rules, path) <==> IsLongest(r, shuffled, path);
  }

  // One more Allow never closes a path, and one more Disallow never opens one.
  lemma AddingRulesIsMonotone(before: seq<Rule>, rule: Rule, after: seq<Rule>, path: string)
    ensures rule.allow && Permits(before + after, path) ==> Permits(before + [rule] + after, path)
    ensures !rule.allow && Permits(before + [rule] + after, path) ==> Permits(before + after, path)
  {
    var base, grown := before + after, before + [rule] + after;
    var shuffled := base + [rule];
    assert multiset(grown) == multiset(shuffled);
    RuleOrderIsIrrelevant(grown, shuffled, path);
    var best := LongestExists(base, path);
    SummaryDecides(best, base, path);
    SummaryExtends(best, base, rule, path);
    var w := Weight(rule.pattern);
    if Applies(rule, path)
      && (best.None? || w > best.value.length || (w == best.value.length && rule.allow)) {
      SummaryDecides(Some(Best(rule.allow, w)), shuffled, path);
    } else {
      SummaryDecides(best, shuffled, path);
    }
  }

  // At equal length Allow beats Disallow, and a strictly longer rule beats both.
  lemma LongestWins(rules: seq<Rule>, rule: Rule, path: string)
    requires rule in rules && Applies(rule, path)
    requires forall r | r in rules && Applies(r, path) && r != rule ::
               Weight(r.pattern) < Weight(rule.pattern) || (rule.allow && Weight(r.pattern) == Weight(rule.pattern))
    ensures Permits(rules, path) <==> rule.allow
  {
    assert IsLongest(rule, rules, path);
  }

  predicate FirstNaming(groups: seq<Group>, i: nat, agent: string) {
    && i < |groups| && agent in groups[i].agents
    && forall j | 0 <= j < i :: agent !in groups[j].agents
  }

  predicate NoneNames(groups: seq<Group>, agent: string) {
    forall g | g in groups :: agent !in g.agents
  }

  lemma {:induction false} FindIsFirst(groups: seq<Group>, agent: string, i: nat)
    ensures NoneNames(groups, agent) ==> Find(groups, agent) == None
    ensures FirstNaming(groups, i, agent) ==> Find(groups, agent) == Some(groups[i])
    decreases |groups|
  {
    if groups != [] && agent !in groups[0].agents {
      if i > 0 {
        FindIsFirst(groups[1..], agent, i - 1);
      } else {
        FindIsFirst(groups[1..], agent, 0);
      }
    }
  }

  // A group for the agent itself shadows every "*" group; later groups for the same name are not merged.
  lemma ChosenGroup(groups: seq<Group>, agent: string, i: nat)
    ensures FirstNaming(groups, i, agent) ==> Chosen(groups, agent) == Some(groups[i])
    ensures NoneNames(groups, agent) && FirstNaming(groups, i, "*") ==> Chosen(groups, agent) == Some(groups[i])
    ensures NoneNames(groups, agent) && NoneNames(groups, "*") ==> Chosen(groups, agent) == None
  {
    FindIsFirst(groups, agent, i);
    FindIsFirst(groups, "*", i);
  }

  function TotalLength(parts: seq<string>): nat {
    if parts == [] then 0 else |parts[0]| + TotalLength(parts[1..])
  }

  // The weight of a rule is the total length of its parts between stars; a final "$" counts too.
  lemma {:induction false} WeightIsLiteralLength(pattern: string)
    ensures Weight(pattern) == TotalLength(Split(pattern, '*'))
  {
    if pattern != "" {
      WeightIsLiteralLength(pattern[1..]);
      var rest := Split(pattern[1..], '*');
      if pattern[0] == '*' {
        assert ([""] + rest)[1..] == rest;
      } else {
        assert ([[pattern[0]] + rest[0]] + rest[1..])[1..] == rest[1..];
      }
    }
  }
}
