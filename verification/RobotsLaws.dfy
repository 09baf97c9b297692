/** What single lines of a robots.txt file mean, however they are written, and what whole files then say. */
module RobotsLaws {
  import opened Text
  import opened Wrappers
  import opened RobotsParser
  import opened RobotsMatch
  import opened RobotsDecision

  // ---- One line --------------------------------------------------------------------------

  // Nothing, or a comment.
  predicate IsTail(tail: string) { tail == "" || tail[0] == '#' }

  // A line with a field in any letter case and padding, a value, and perhaps a comment.
  predicate IsFieldLine(raw: string, head: string, value: string, tail: string) {
    raw == head + ":" + value + tail && Free(head, ':') && Free(head, '#') && Free(value, '#') && IsTail(tail)
  }

  lemma SameText(head: string, value: string, left: string, line: string, right: string)
    requires head + [':'] + value == left + line + right && |left| <= |head| < |left| + |line|
    ensures var i := |head| - |left|;
            head == left + line[..i] && line == line[..i] + [':'] + line[i + 1..] && value == line[i + 1..] + right
  {
    var i := |head| - |left|;
    var text := head + [':'] + value;
    assert head == text[..|head|] && value == text[|head| + 1..] && text[|head|] == ':';
    assert text == left + line + right;
    assert text[..|head|] == left + line[..i];
    assert text[|head| + 1..] == line[i + 1..] + right;
    assert text[|head|] == line[i];
  }

  // Where the trimmed line lies in the written one.
  lemma FieldParts(head: string, value: string) returns (left: string, bare: string, rest: string, right: string)
    requires Free(head, ':')
    ensures head == left + bare && value == rest + right && Blank(left) && Blank(right)
    ensures Trim(head + ":" + value) == bare + [':'] + rest
  {
    var line := Trim(head + ":" + value);
    left, right := TrimSpec(head + ":" + value);
    assert (left + line + right)[|head|] == ':';
    PaddingIsBlank(left, line, right, |head|);
    SameText(head, value, left, line, right);
    bare, rest := line[..|head| - |left|], line[|head| - |left| + 1..];
  }

  lemma ValueIsRest(head: string, value: string)
    requires Free(head, ':')
    ensures var line := Trim(head + ":" + value);
            var idx := FirstIndex(line, ':');
            idx < |line| && Trim(line[idx + 1..]) == Trim(value)
  {
    var left, bare, rest, right := FieldParts(head, value);
    FirstIndexAppend(bare, ':', rest);
    assert (bare + [':'] + rest)[|bare| + 1..] == rest;
    TrimOfPadded(rest, right);
  }

  lemma TrimOfPadded(s: string, right: string)
    requires Blank(right)
    ensures Trim(s + right) == Trim(s)
  {
    var l, r := TrimSpec(s);
    TrimPadded(l, Trim(s), r + right);
    assert l + Trim(s) + (r + right) == s + right;
  }

  lemma CutFieldLine(raw: string, head: string, value: string, tail: string)
    requires IsFieldLine(raw, head, value, tail)
    ensures Cut(raw) == Some((Trim(head), Trim(value)))
  {
    var bare := head + ":" + value;
    if tail == "" {
      assert raw == bare;
      SplitWithoutSeparator(bare, '#');
    } else {
      assert raw == bare + ['#'] + tail[1..];
      SplitAppend(bare, '#', tail[1..]);
      SplitWithoutSeparator(bare, '#');
    }
    FieldIsHead(head, value);
    ValueIsRest(head, value);
  }

  // Such a line means what its field says, with the value trimmed and agents in small letters.
  lemma FieldLineMeans(raw: string, head: string, value: string, tail: string)
    requires IsFieldLine(raw, head, value, tail)
    ensures Lower(Trim(head)) == "user-agent" ==> ReadLine(raw) == Agent(Lower(Trim(value)))
    ensures Lower(Trim(head)) == "allow" ==> ReadLine(raw) == Directive(Rule(true, Trim(value)))
    ensures Lower(Trim(head)) == "disallow" ==> ReadLine(raw) == Directive(Rule(false, Trim(value)))
  {
    CutFieldLine(raw, head, value, tail);
  }

  // ---- Whole files -----------------------------------------------------------------------

  // One way to write what a line says.
  ghost predicate Writes(raw: string, line: Line) {
    exists head, value, tail ::
      IsFieldLine(raw, head, value, tail) && Free(raw, '\n') &&
      match line
      case Agent(name) => Lower(Trim(head)) == "user-agent" && Lower(Trim(value)) == name
      case Directive(rule) =>
        Lower(Trim(head)) == (if rule.allow then "allow" else "disallow") && Trim(value) == rule.pattern
      case Other => false
  }

  lemma WrittenIsRead(raw: string, line: Line)
    requires Writes(raw, line)
    ensures ReadLine(raw) == line && Free(raw, '\n')
  {
    var head, value, tail :|
      IsFieldLine(raw, head, value, tail) && Free(raw, '\n') &&
      match line
      case Agent(name) => Lower(Trim(head)) == "user-agent" && Lower(Trim(value)) == name
      case Directive(rule) =>
        Lower(Trim(head)) == (if rule.allow then "allow" else "disallow") && Trim(value) == rule.pattern
      case Other => false;
    FieldLineMeans(raw, head, value, tail);
  }

  // However each line of a list of groups is written, the file parses to these groups.
  lemma ParseWritten(groups: seq<Group>, raws: seq<string>)
    requires Printable(groups) && raws != [] && |raws| == |AllLines(groups)|
    requires forall i | 0 <= i < |raws| :: Writes(raws[i], AllLines(groups)[i])
    ensures Groups(Join(raws, '\n')) == groups
  {
    forall i | 0 <= i < |raws| ensures ReadLine(raws[i]) == AllLines(groups)[i] && Free(raws[i], '\n') {
      WrittenIsRead(raws[i], AllLines(groups)[i]);
    }
    SplitJoin(raws, '\n');
    assert ReadLines(raws) == AllLines(groups);
    MeaningIsFold(AllLines(groups));
    FoldGroups([], groups);
    assert [] + groups == groups;
  }

  // A rule ahead of every agent line belongs to no group.
  lemma LeadingRuleIsVoid(raw: string, rule: Rule, rest: seq<string>)
    requires Writes(raw, Directive(rule)) && rest != [] && AllFree(rest, '\n')
    ensures Groups(Join([raw] + rest, '\n')) == Groups(Join(rest, '\n'))
  {
    WrittenIsRead(raw, Directive(rule));
    LeadingLine(raw, rule, rest);
  }

  lemma LeadingLine(raw: string, rule: Rule, rest: seq<string>)
    requires ReadLine(raw) == Directive(rule) && Free(raw, '\n') && rest != [] && AllFree(rest, '\n')
    ensures Groups(Join([raw] + rest, '\n')) == Groups(Join(rest, '\n'))
  {
    OneMoreFree(raw, rest);
    GroupsOfLines([raw] + rest);
    GroupsOfLines(rest);
    ReadAfterFirst(raw, rest);
    LeadingDirective(rule, ReadLines(rest));
  }

  lemma ReadAfterFirst(raw: string, rest: seq<string>)
    ensures ReadLines([raw] + rest) == [ReadLine(raw)] + ReadLines(rest)
  {
  }

  lemma OneMoreFree(raw: string, rest: seq<string>)
    requires Free(raw, '\n') && AllFree(rest, '\n')
    ensures AllFree([raw] + rest, '\n')
  {
  }

  lemma GroupsOfLines(raws: seq<string>)
    requires raws != [] && AllFree(raws, '\n')
    ensures Groups(Join(raws, '\n')) == Meaning(ReadLines(raws)).groups
  {
    SplitJoin(raws, '\n');
  }

  lemma LeadingDirective(rule: Rule, lines: seq<Line>)
    ensures Meaning([Directive(rule)] + lines) == Meaning(lines)
  {
    MeaningIsFold([Directive(rule)] + lines);
    MeaningIsFold(lines);
    assert ([Directive(rule)] + lines)[1..] == lines;
    assert Step(START, Directive(rule)) == START;
  }

  // ---- Decisions -------------------------------------------------------------------------

  // A file without a group for the agent or for all permits everything; otherwise the first group for
  // the agent, or failing that for all, decides.
  lemma GroupDecides(text: string, path: string, agent: string, i: nat)
    ensures NoneNames(Groups(text), agent) && NoneNames(Groups(text), "*") ==> Allowed(text, path, agent)
    ensures FirstNaming(Groups(text), i, agent) ==>
              (Allowed(text, path, agent) <==> Permits(Groups(text)[i].rules, path))
    ensures NoneNames(Groups(text), agent) && FirstNaming(Groups(text), i, "*") ==>
              (Allowed(text, path, agent) <==> Permits(Groups(text)[i].rules, path))
  {
    ChosenGroup(Groups(text), agent, i);
  }

  // A rule without a pattern says nothing, and without rules everything is permitted.
  lemma EmptyRuleIsVoid(before: seq<Rule>, allow: bool, after: seq<Rule>, path: string)
    ensures Permits(before + [Rule(allow, "")] + after, path) <==> Permits(before + after, path)
    ensures Permits([], path)
  {
    var with, without := before + [Rule(allow, "")] + after, before + after;
    assert forall r: Rule | r.pattern != "" :: r in with <==> r in without;
    assert forall r: Rule :: Applies(r, path) ==> r.pattern != "";
    forall r: Rule ensures IsLongest(r, with, path) <==> IsLongest(r, without, path) {
    }
  }

  // One rule alone: what it covers is closed by a Disallow and open with an Allow, the rest is open.
  lemma OneRule(rule: Rule, path: string)
    ensures Permits([rule], path) <==> rule.allow || rule.pattern == "" || !MatchesPattern(rule.pattern, path)
  {
    assert rule in [rule];
    if Applies(rule, path) {
      assert IsLongest(rule, [rule], path);
      assert forall r | r in [rule] :: r == rule;
    }
  }

  // A star runs over any character but the four line ends.
  lemma StarRunsOver(c: char)
    ensures MatchesPattern("a*b", ['a', c, 'b']) <==> c !in "\n\r\U{2028}\U{2029}"
  {
    assert MatchesPattern("a*b", ['a', c, 'b']) <==> Accepts([Lit('a'), AnyRun, Lit('b')], false, ['a', c, 'b']) by {
      CompileStarred();
    }
    StarredRun(c);
  }

  lemma CompileStarred()
    ensures Compile(Split("a*b", '*')) == [Lit('a'), AnyRun, Lit('b')]
  {
    SplitAppend("a", '*', "b");
    SplitWithoutSeparator("a", '*');
    SplitWithoutSeparator("b", '*');
    assert "a" + ['*'] + "b" == "a*b" && ["a"] + ["b"] == ["a", "b"];
    CompileAppend(["a"], ["b"]);
    assert Compile(["a"]) == [Lit('a')] && Compile(["b"]) == [Lit('b')];
  }

  lemma StarredRun(c: char)
    ensures Accepts([Lit('a'), AnyRun, Lit('b')], false, ['a', c, 'b']) <==> !IsTerminator(c)
  {
    var ts, s := [Lit('a'), AnyRun, Lit('b')], ['a', c, 'b'];
    assert ts[1..] == [AnyRun, Lit('b')] && [AnyRun, Lit('b')][1..] == [Lit('b')] && [Lit('b')][1..] == [];
    assert s[1..] == [c, 'b'] && [c, 'b'][1..] == ['b'] && ['b'][1..] == [];
    assert Accepts([Lit('b')], false, ['b']);
    assert Accepts([AnyRun, Lit('b')], false, ['b']);
    assert Accepts([Lit('b')], false, [c, 'b']) <==> c == 'b';
  }

  // Two lines, one opening a group for all and one closing a pattern, bind every agent.
  lemma TwoLineFile(opening: string, closing: string, rule: Rule, path: string, agent: string)
    requires Writes(opening, Agent("*")) && Writes(closing, Directive(rule))
    ensures Allowed(opening + "\n" + closing, path, agent) <==>
              rule.allow || rule.pattern == "" || !MatchesPattern(rule.pattern, path)
  {
    TwoLinesParse(opening, closing, rule);
    GroupForAll([rule], opening + "\n" + closing, path, agent);
    OneRule(rule, path);
  }

  lemma TwoLinesParse(opening: string, closing: string, rule: Rule)
    requires Writes(opening, Agent("*")) && Writes(closing, Directive(rule))
    ensures Groups(opening + "\n" + closing) == [Group(["*"], [rule])]
  {
    WrittenIsRead(closing, Directive(rule));
    ReadLineOk(closing);
    TwoLines(rule);
    ParseWritten([Group(["*"], [rule])], [opening, closing]);
    JoinTwo(opening, closing);
  }

  lemma GroupForAll(rules: seq<Rule>, text: string, path: string, agent: string)
    requires Groups(text) == [Group(["*"], rules)]
    ensures Allowed(text, path, agent) <==> Permits(rules, path)
  {
    GroupDecides(text, path, agent, 0);
    assert "*" in Groups(text)[0].agents;
  }

  lemma JoinTwo(a: string, b: string)
    ensures Join([a, b], '\n') == a + "\n" + b
  {
    assert [a, b][1..] == [b];
  }

  lemma TwoLines(rule: Rule)
    requires ValueOk(rule.pattern)
    ensures Printable([Group(["*"], [rule])])
    ensures AllLines([Group(["*"], [rule])]) == [Agent("*"), Directive(rule)]
  {
    var g := Group(["*"], [rule]);
    assert Lower("*") == "*";
    assert AllLines([]) == [] && [g][1..] == [];
  }
}
