/** The robots.txt line parser: a fold over lines, its printer, and the round trips between them. */
module RobotsParser {
  import opened Text
  import opened Wrappers

  datatype Rule = Rule(allow: bool, pattern: string)
  datatype Group = Group(agents: seq<string>, rules: seq<Rule>)

  // What one line means to the parser; every line it ignores is Other.
  datatype Line = Agent(name: string) | Directive(rule: Rule) | Other

  // The field and value of a line, comment removed; None when there is no colon.
  function Cut(raw: string): Option<(string, string)> {
    var line := Trim(Split(raw, '#')[0]);
    var idx := FirstIndex(line, ':');
    if idx == |line| then None else Some((Trim(line[..idx]), Trim(line[idx + 1..])))
  }

  datatype Field = UserAgent | Allow | Disallow | Unknown

  function FieldOf(name: string): Field {
    if name == "user-agent" then UserAgent
    else if name == "allow" then Allow
    else if name == "disallow" then Disallow
    else Unknown
  }

  function Interpret(field: Field, value: string): Line {
    match field
    case UserAgent => Agent(Lower(value))
    case Allow => Directive(Rule(true, value))
    case Disallow => Directive(Rule(false, value))
    case Unknown => Other
  }

  function ReadLine(raw: string): Line {
    match Cut(raw)
    case None => Other
    case Some((name, value)) => Interpret(FieldOf(Lower(name)), value)
  }

  // Parser state: the open group is the last one.
  datatype State = State(groups: seq<Group>, lastWasAgent: bool)

  const START := State([], false)

  function Step(st: State, line: Line): State {
    match line
    case Agent(name) =>
      if st.groups == [] || !st.lastWasAgent then State(st.groups + [Group([name], [])], true)
      else
        var g := st.groups[|st.groups| - 1];
        State(st.groups[|st.groups| - 1 := g.(agents := g.agents + [name])], true)
    case Directive(rule) =>
      if st.groups == [] then State([], false)
      else
        var g := st.groups[|st.groups| - 1];
        State(st.groups[|st.groups| - 1 := g.(rules := g.rules + [rule])], false)
    case Other => st
  }

  function Fold(st: State, lines: seq<Line>): State
    decreases |lines|
  {
    if lines == [] then st else Fold(Step(st, lines[0]), lines[1..])
  }

  function ReadLines(raws: seq<string>): (lines: seq<Line>)
    ensures |lines| == |raws| && forall i | 0 <= i < |raws| :: lines[i] == ReadLine(raws[i])
  {
    seq(|raws|, i requires 0 <= i < |raws| => ReadLine(raws[i]))
  }

  // The state after the first n lines.
  function After(lines: seq<Line>, n: nat): State
    requires n <= |lines|
  {
    if n == 0 then START else Step(After(lines, n - 1), lines[n - 1])
  }

  function Meaning(lines: seq<Line>): State { After(lines, |lines|) }

  function Groups(text: string): seq<Group> {
    Meaning(ReadLines(Split(text, '\n'))).groups
  }

  lemma {:induction false} FoldAppend(st: State, xs: seq<Line>, ys: seq<Line>)
    ensures Fold(st, xs + ys) == Fold(Fold(st, xs), ys)
    decreases |xs|
  {
    if xs == [] {
      assert xs + ys == ys;
    } else {
      assert (xs + ys)[1..] == xs[1..] + ys;
      FoldAppend(Step(st, xs[0]), xs[1..], ys);
    }
  }

  lemma {:induction false} AfterIsFold(lines: seq<Line>, n: nat)
    requires n <= |lines|
    ensures After(lines, n) == Fold(START, lines[..n])
  {
    if n > 0 {
      AfterIsFold(lines, n - 1);
      var l := lines[n - 1];
      FoldAppend(START, lines[..n - 1], [l]);
      assert [l][1..] == [];
      assert lines[..n - 1] + [l] == lines[..n];
    }
  }

  lemma MeaningIsFold(lines: seq<Line>)
    ensures Meaning(lines) == Fold(START, lines)
  {
    AfterIsFold(lines, |lines|);
    assert lines[..|lines|] == lines;
  }

  // One line of the loop, down to its field and value.
  method ReadField(raw: string) returns (field: Field, value: string)
    ensures Interpret(field, value) == ReadLine(raw)
  {
    field, value := Unknown, "";
    var line := Trim(Split(raw, '#')[0]);
    if line == "" { return; }
    var idx := FirstIndex(line, ':');
    if idx == |line| { return; }
    field := FieldOf(Lower(Trim(line[..idx])));
    value := Trim(line[idx + 1..]);
  }

  // The effect of one line on the loop's variables; the open group is the last one.
  method Apply(field: Field, value: string, groups: seq<Group>, lastWasAgent: bool)
    returns (groups': seq<Group>, lastWasAgent': bool)
    ensures State(groups', lastWasAgent') == Step(State(groups, lastWasAgent), Interpret(field, value))
  {
    groups', lastWasAgent' := groups, lastWasAgent;
    var current := |groups| - 1;
    if field == UserAgent {
      if current < 0 || !lastWasAgent {
        groups' := groups + [Group([Lower(value)], [])];
      } else {
        var agents := groups[current].agents + [Lower(value)];
        groups' := groups[current := groups[current].(agents := agents)];
      }
      lastWasAgent' := true;
    } else if field == Allow || field == Disallow {
      lastWasAgent' := false;
      if current >= 0 {
        var rules := groups[current].rules + [Rule(field == Allow, value)];
        groups' := groups[current := groups[current].(rules := rules)];
      }
    }
  }

  method ParseLines(raws: seq<string>) returns (groups: seq<Group>)
    ensures groups == Meaning(ReadLines(raws)).groups
  {
    ghost var lines := ReadLines(raws);
    groups := [];
    var lastWasAgent := false;
    for i := 0 to |raws|
      invariant State(groups, lastWasAgent) == After(lines, i)
    {
      var field, value := ReadField(raws[i]);
      groups, lastWasAgent := Apply(field, value, groups, lastWasAgent);
    }
  }

  method ParseRobots(text: string) returns (groups: seq<Group>)
    ensures groups == Groups(text)
  {
    groups := ParseLines(Split(text, '\n'));
  }

  // ---- Printing --------------------------------------------------------------------------

  function PrintAgent(name: string): string { "user-agent: " + name }

  function PrintRule(rule: Rule): string {
    (if rule.allow then "allow: " else "disallow: ") + rule.pattern
  }

  function PrintAgents(names: seq<string>): seq<string> {
    seq(|names|, i requires 0 <= i < |names| => PrintAgent(names[i]))
  }

  function PrintRules(rules: seq<Rule>): seq<string> {
    seq(|rules|, i requires 0 <= i < |rules| => PrintRule(rules[i]))
  }

  function PrintLines(groups: seq<Group>): seq<string> {
    if groups == [] then []
    else PrintAgents(groups[0].agents) + PrintRules(groups[0].rules) + PrintLines(groups[1..])
  }

  function Print(groups: seq<Group>): string { Join(PrintLines(groups), '\n') }

  predicate ValueOk(v: string) {
    Trimmed(v) && Free(v, '#') && Free(v, '\n')
  }

  predicate GroupOk(g: Group) {
    && g.agents != []
    && (forall a | a in g.agents :: ValueOk(a) && Lower(a) == a)
    && (forall r | r in g.rules :: ValueOk(r.pattern))
  }

  // The lists of groups that a robots.txt file can express.
  predicate Printable(groups: seq<Group>) {
    && (forall g | g in groups :: GroupOk(g))
    && (forall i | 0 <= i < |groups| - 1 :: groups[i].rules != [])
  }

  // ---- Reading back one printed line -----------------------------------------------------

  lemma CutColon(name: string)
    requires name != "" && Trimmed(name) && Free(name, ':')
    ensures var line := name + ":";
            FirstIndex(line, ':') == |name| < |line| && Trim(line[..|name|]) == name && Trim(line[|name| + 1..]) == ""
  {
    var line := name + ":";
    TrimTrimmed(name);
    FirstIndexAppend(name, ':', "");
    assert name + [':'] + "" == line;
    assert line[..|name|] == name && line[|name| + 1..] == "";
  }

  lemma CutEmpty(name: string)
    requires name != "" && Trimmed(name) && Free(name, ':') && Free(name, '#')
    ensures Cut(name + ": ") == Some((name, ""))
  {
    var raw, line := name + ": ", name + ":";
    SplitWithoutSeparator(raw, '#');
    TrimPadded("", line, " ");
    assert "" + line + " " == raw;
    CutColon(name);
  }

  lemma CutPrinted(name: string, v: string)
    requires name != "" && Trimmed(name) && Free(name, ':') && Free(name, '#') && ValueOk(v)
    ensures Cut(name + ": " + v) == Some((name, v))
  {
    if v == "" {
      CutEmpty(name);
      assert name + ": " + v == name + ": ";
    } else {
      var raw := name + ": " + v;
      SplitWithoutSeparator(raw, '#');
      TrimTrimmed(name);
      TrimTrimmed(raw);
      FirstIndexAppend(name, ':', " " + v);
      assert name + [':'] + (" " + v) == raw;
      assert raw[..|name|] == name;
      assert raw[|name| + 1..] == " " + v + "";
      TrimPadded(" ", v, "");
    }
  }

  lemma FieldNames()
    ensures Lower("user-agent") == "user-agent" && Lower("allow") == "allow" && Lower("disallow") == "disallow"
    ensures |"user-agent"| == 10 && |"allow"| == 5 && |"disallow"| == 8
  {
  }

  lemma ReadNamed(name: string, v: string)
    requires name != "" && Trimmed(name) && Free(name, ':') && Free(name, '#') && Lower(name) == name && ValueOk(v)
    ensures ReadLine(name + ": " + v) == Interpret(FieldOf(name), v)
  {
    CutPrinted(name, v);
  }

  lemma ReadAgent(name: string)
    requires ValueOk(name) && Lower(name) == name
    ensures ReadLine(PrintAgent(name)) == Agent(name)
  {
    FieldNames();
    ReadNamed("user-agent", name);
    assert "user-agent" + ": " + name == PrintAgent(name);
  }

  lemma ReadRule(rule: Rule)
    requires ValueOk(rule.pattern)
    ensures ReadLine(PrintRule(rule)) == Directive(rule)
  {
    FieldNames();
    if rule.allow {
      ReadNamed("allow", rule.pattern);
      assert "allow" + ": " + rule.pattern == PrintRule(rule);
    } else {
      ReadNamed("disallow", rule.pattern);
      assert "disallow" + ": " + rule.pattern == PrintRule(rule);
    }
  }

  // ---- Round trip ------------------------------------------------------------------------

  // The lines a group is printed as, as the parser reads them.
  function AgentLines(names: seq<string>): seq<Line> {
    seq(|names|, i requires 0 <= i < |names| => Agent(names[i]))
  }

  function RuleLines(rules: seq<Rule>): seq<Line> {
    seq(|rules|, i requires 0 <= i < |rules| => Directive(rules[i]))
  }

  function GroupLines(g: Group): seq<Line> { AgentLines(g.agents) + RuleLines(g.rules) }

  function AllLines(groups: seq<Group>): seq<Line> {
    if groups == [] then [] else GroupLines(groups[0]) + AllLines(groups[1..])
  }

  lemma ReadLinesAppend(a: seq<string>, b: seq<string>)
    ensures ReadLines(a + b) == ReadLines(a) + ReadLines(b)
  {
  }

  lemma ReadPrintedGroup(g: Group)
    requires GroupOk(g)
    ensures ReadLines(PrintAgents(g.agents)) == AgentLines(g.agents)
    ensures ReadLines(PrintRules(g.rules)) == RuleLines(g.rules)
  {
    forall a | a in g.agents ensures ReadLine(PrintAgent(a)) == Agent(a) {
      ReadAgent(a);
    }
    forall r | r in g.rules ensures ReadLine(PrintRule(r)) == Directive(r) {
      ReadRule(r);
    }
  }

  lemma {:induction false} ReadPrinted(groups: seq<Group>)
    requires forall g | g in groups :: GroupOk(g)
    ensures ReadLines(PrintLines(groups)) == AllLines(groups)
  {
    if groups != [] {
      var g := groups[0];
      assert g in groups;
      ReadPrintedGroup(g);
      ReadPrinted(groups[1..]);
      ReadLinesAppend(PrintAgents(g.agents), PrintRules(g.rules));
      ReadLinesAppend(PrintAgents(g.agents) + PrintRules(g.rules), PrintLines(groups[1..]));
    }
  }

  // More agent lines extend the open group.
  lemma {:induction false} FoldAgents(done: seq<Group>, names: seq<string>, more: seq<string>)
    ensures Fold(State(done + [Group(names, [])], true), AgentLines(more))
            == State(done + [Group(names + more, [])], true)
    decreases |more|
  {
    if more == [] {
      assert names + more == names;
    } else {
      var next := names + [more[0]];
      FoldAgents(done, next, more[1..]);
      assert next + more[1..] == names + more;
      assert AgentLines(more)[1..] == AgentLines(more[1..]);
      assert (done + [Group(names, [])])[|done| := Group(next, [])] == done + [Group(next, [])];
    }
  }

  lemma {:induction false} FoldRules(done: seq<Group>, g: Group, last: bool, more: seq<Rule>)
    ensures Fold(State(done + [g], last), RuleLines(more))
            == State(done + [g.(rules := g.rules + more)], last && more == [])
    decreases |more|
  {
    if more == [] {
      assert g.rules + more == g.rules;
    } else {
      var next := g.(rules := g.rules + [more[0]]);
      FoldRules(done, next, false, more[1..]);
      assert next.rules + more[1..] == g.rules + more;
      assert RuleLines(more)[1..] == RuleLines(more[1..]);
      assert (done + [g])[|done| := next] == done + [next];
    }
  }

  lemma FoldGroup(done: seq<Group>, g: Group)
    requires g.agents != []
    ensures Fold(State(done, false), GroupLines(g)) == State(done + [g], g.rules == [])
  {
    FoldAppend(State(done, false), AgentLines(g.agents), RuleLines(g.rules));
    assert AgentLines(g.agents)[1..] == AgentLines(g.agents[1..]);
    FoldAgents(done, [g.agents[0]], g.agents[1..]);
    assert [g.agents[0]] + g.agents[1..] == g.agents;
    FoldRules(done, Group(g.agents, []), true, g.rules);
    assert [] + g.rules == g.rules;
  }

  lemma {:induction false} FoldGroups(done: seq<Group>, groups: seq<Group>)
    requires Printable(groups)
    ensures Fold(State(done, false), AllLines(groups)).groups == done + groups
    decreases |groups|
  {
    if groups == [] {
      assert done + groups == done;
    } else {
      var g := groups[0];
      assert g in groups;
      FoldGroup(done, g);
      FoldAppend(State(done, false), GroupLines(g), AllLines(groups[1..]));
      assert done + [g] + groups[1..] == done + groups;
      if |groups| > 1 {
        assert forall i | 0 <= i < |groups[1..]| - 1 :: groups[1..][i] == groups[i + 1];
        FoldGroups(done + [g], groups[1..]);
      } else {
        assert groups[1..] == [];
      }
    }
  }

  lemma PrintedGroupHasNoNewline(g: Group)
    requires GroupOk(g)
    ensures AllFree(PrintAgents(g.agents), '\n') && AllFree(PrintRules(g.rules), '\n')
  {
    forall a | a in g.agents ensures Free(PrintAgent(a), '\n') {
      assert Free(a, '\n');
    }
    forall r | r in g.rules ensures Free(PrintRule(r), '\n') {
      assert Free(r.pattern, '\n');
    }
  }

  lemma {:induction false} PrintedLinesHaveNoNewline(groups: seq<Group>)
    requires forall g | g in groups :: GroupOk(g)
    ensures AllFree(PrintLines(groups), '\n')
    ensures groups != [] ==> PrintLines(groups) != []
  {
    if groups != [] {
      assert groups[0] in groups;
      PrintedGroupHasNoNewline(groups[0]);
      PrintedLinesHaveNoNewline(groups[1..]);
    }
  }

  // Parsing undoes printing, for every list of groups a file can express.
  lemma ParsePrint(groups: seq<Group>)
    requires Printable(groups)
    ensures Groups(Print(groups)) == groups
  {
    if groups == [] {
      assert Split("", '\n') == [""];
      assert ReadLines([""]) == [Other];
    } else {
      PrintedLinesHaveNoNewline(groups);
      ReadPrinted(groups);
      SplitJoin(PrintLines(groups), '\n');
      MeaningIsFold(AllLines(groups));
      FoldGroups([], groups);
      assert [] + groups == groups;
    }
  }

  // ---- What the parser can produce -------------------------------------------------------

  lemma LowerValueOk(v: string)
    requires ValueOk(v)
    ensures ValueOk(Lower(v)) && Lower(Lower(v)) == Lower(v)
  {
  }

  lemma CutOk(raw: string)
    requires Free(raw, '\n')
    ensures var c := Cut(raw); c.Some? ==> ValueOk(c.value.1)
  {
    JoinSplit(raw, '#');
    var head := Split(raw, '#')[0];
    assert head in Split(raw, '#');
    JoinMember(Split(raw, '#'), '#', '\n');
    var line := Trim(head);
    TrimMember(head, '#');
    TrimMember(head, '\n');
    var idx := FirstIndex(line, ':');
    if idx < |line| {
      var value := line[idx + 1..];
      var _, _ := TrimSpec(value);
      TrimMember(value, '#');
      TrimMember(value, '\n');
    }
  }

  predicate LineOk(line: Line) {
    && (line.Agent? ==> ValueOk(line.name) && Lower(line.name) == line.name)
    && (line.Directive? ==> ValueOk(line.rule.pattern))
  }

  lemma ReadLineOk(raw: string)
    requires Free(raw, '\n')
    ensures LineOk(ReadLine(raw))
  {
    CutOk(raw);
    var c := Cut(raw);
    if c.Some? {
      LowerValueOk(c.value.1);
    }
  }

  predicate StateOk(st: State) {
    && Printable(st.groups)
    && (st.lastWasAgent ==> st.groups != [])
    && (st.groups != [] && !st.lastWasAgent ==> st.groups[|st.groups| - 1].rules != [])
  }

  lemma StepOk(st: State, line: Line)
    requires StateOk(st) && LineOk(line)
    ensures StateOk(Step(st, line))
  {
    var n := |st.groups|;
    var next := Step(st, line).groups;
    if line.Agent? && (n == 0 || !st.lastWasAgent) {
      assert GroupOk(Group([line.name], []));
    } else if line != Other && n > 0 {
      assert st.groups[n - 1] in st.groups;
      assert GroupOk(next[n - 1]);
      assert forall i | 0 <= i < n - 1 :: next[i] == st.groups[i];
    }
  }

  lemma {:induction false} FoldOk(st: State, raws: seq<string>)
    requires StateOk(st) && AllFree(raws, '\n')
    ensures StateOk(Fold(st, ReadLines(raws)))
    decreases |raws|
  {
    if raws != [] {
      assert raws[0] in raws;
      ReadLineOk(raws[0]);
      StepOk(st, ReadLine(raws[0]));
      assert ReadLines(raws)[1..] == ReadLines(raws[1..]);
      FoldOk(Step(st, ReadLine(raws[0])), raws[1..]);
    }
  }

  // Whatever the text, the result is one the printer can express: every group has an agent, and
  // every group but the last has a rule.
  lemma ParseIsPrintable(text: string)
    ensures Printable(Groups(text))
  {
    JoinSplit(text, '\n');
    FoldOk(START, Split(text, '\n'));
    MeaningIsFold(ReadLines(Split(text, '\n')));
  }

  // So printing what was parsed gives a normal form with the same meaning.
  lemma PrintIsNormalForm(text: string)
    ensures Groups(Print(Groups(text))) == Groups(text)
  {
    ParseIsPrintable(text);
    ParsePrint(Groups(text));
  }

  // The hypothesis of ParsePrint is exact: a list survives the round trip iff it is printable.
  lemma RoundTripIffPrintable(groups: seq<Group>)
    ensures Groups(Print(groups)) == groups <==> Printable(groups)
  {
    if Printable(groups) {
      ParsePrint(groups);
    } else {
      ParseIsPrintable(Print(groups));
    }
  }

  // ---- Lines that change nothing ---------------------------------------------------------

  lemma MeaningSkipsOther(xs: seq<Line>, ys: seq<Line>)
    ensures Meaning(xs + ([Other] + ys)) == Meaning(xs + ys)
  {
    MeaningIsFold(xs + ([Other] + ys));
    MeaningIsFold(xs + ys);
    FoldAppend(START, xs, [Other] + ys);
    assert ([Other] + ys)[1..] == ys;
    FoldAppend(START, xs, ys);
  }

  lemma ReadAroundNoise(before: seq<string>, noise: string, after: seq<string>)
    requires ReadLine(noise) == Other
    ensures ReadLines(before + [noise] + after) == ReadLines(before) + ([Other] + ReadLines(after))
  {
  }

  // Inserting a line the parser does not act on, anywhere in a file, changes nothing.
  lemma NoiseIsIgnored(before: seq<string>, noise: string, after: seq<string>)
    requires before + after != []
    requires AllFree(before + [noise] + after, '\n') && ReadLine(noise) == Other
    ensures Groups(Join(before + [noise] + after, '\n')) == Groups(Join(before + after, '\n'))
  {
    SplitJoin(before + [noise] + after, '\n');
    assert AllFree(before + after, '\n');
    SplitJoin(before + after, '\n');
    ReadAroundNoise(before, noise, after);
    ReadLinesAppend(before, after);
    MeaningSkipsOther(ReadLines(before), ReadLines(after));
  }

  // A line without a colon before its comment: blank, a comment, or text.
  lemma ColonlessIsNoise(text: string, comment: string)
    requires Free(text, ':') && Free(text, '#')
    ensures ReadLine(text) == Other && ReadLine(text + "#" + comment) == Other
  {
    SplitWithoutSeparator(text, '#');
    SplitAppend(text, '#', comment);
    assert text + "#" + comment == text + ['#'] + comment;
    TrimMember(text, ':');
  }

  // A line with any other field, whatever follows the colon.
  lemma UnknownFieldIsNoise(head: string, rest: string)
    requires Free(head, ':') && Free(head, '#') && Lower(Trim(head)) !in {"user-agent", "allow", "disallow"}
    ensures ReadLine(head + ":" + rest) == Other
  {
    var value := Split(rest, '#')[0];
    SplitKeepsHead(head + ":", rest);
    assert Split(head + ":" + rest, '#')[0] == head + ":" + value;
    FieldIsHead(head, value);
  }

  lemma {:induction false} SplitKeepsHead(head: string, rest: string)
    requires Free(head, '#')
    ensures Split(head + rest, '#')[0] == head + Split(rest, '#')[0]
  {
    if head == "" {
      assert head + rest == rest;
    } else {
      assert (head + rest)[1..] == head[1..] + rest;
      SplitKeepsHead(head[1..], rest);
    }
  }

  lemma PaddingIsBlank(left: string, line: string, right: string, i: nat)
    requires Blank(left) && Blank(right) && i < |left + line + right|
    ensures i < |left| || i >= |left| + |line| ==> IsSpace((left + line + right)[i])
  {
    var c := (left + line + right)[i];
    if i < |left| {
      assert c == left[i] && c in left;
    } else if i >= |left| + |line| {
      assert c == right[i - |left| - |line|] && c in right;
    }
  }

  // The field of a trimmed line is what stands before the colon, trimmed.
  lemma FieldIsHead(head: string, value: string)
    requires Free(head, ':')
    ensures var line := Trim(head + ":" + value);
            var idx := FirstIndex(line, ':');
            idx < |line| && Trim(line[..idx]) == Trim(head)
  {
    var text := head + ":" + value;
    var line := Trim(text);
    var left, right := TrimSpec(text);
    assert text[|head|] == ':';
    PaddingIsBlank(left, line, right, |head|);
    var bare := head[|left|..];
    assert left == text[..|left|] && head == text[..|head|];
    assert head == left + bare;
    assert forall i | 0 <= i < |line| :: line[i] == text[|left| + i];
    assert line == bare + [':'] + line[|bare| + 1..];
    FirstIndexAppend(bare, ':', line[|bare| + 1..]);
    assert line[..|bare|] == bare;
    TrimLeftPad(left, bare);
  }
}
