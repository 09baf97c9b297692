/** Wildcard rules: the regular expression the worker builds, and what it accepts. */
module RobotsMatch {
  import opened Text

  // The two kinds of item in the expression built from a pattern: an escaped character, or ".*".
  datatype Token = Lit(c: char) | AnyRun

  function Literal(s: string): (ts: seq<Token>)
    ensures |ts| == |s| && forall i | 0 <= i < |s| :: ts[i] == Lit(s[i])
  {
    seq(|s|, i requires 0 <= i < |s| => Lit(s[i]))
  }

  function Compile(parts: seq<string>): seq<Token>
    requires parts != []
  {
    if |parts| == 1 then Literal(parts[0])
    else Literal(parts[0]) + [AnyRun] + Compile(parts[1..])
  }

  // The characters that "." does not match.
  predicate IsTerminator(c: char) {
    c == '\n' || c == '\r' || c as int == 0x2028 || c as int == 0x2029
  }

  predicate OneLine(s: string) {
    forall c | c in s :: !IsTerminator(c)
  }

  // Backtracking semantics of a start-anchored expression, with or without a final "$".
  predicate Accepts(ts: seq<Token>, anchored: bool, s: string)
    decreases |ts|, |s|
  {
    if ts == [] then !anchored || s == []
    else match ts[0]
      case Lit(c) => s != [] && s[0] == c && Accepts(ts[1..], anchored, s[1..])
      case AnyRun =>
        Accepts(ts[1..], anchored, s)
        || (s != [] && !IsTerminator(s[0]) && Accepts(ts, anchored, s[1..]))
  }

  predicate Anchored(pattern: string) {
    pattern != "" && pattern[|pattern| - 1] == '$'
  }

  function Body(pattern: string): string {
    if Anchored(pattern) then pattern[..|pattern| - 1] else pattern
  }

  predicate MatchesPattern(pattern: string, path: string) {
    Accepts(Compile(Split(Body(pattern), '*')), Anchored(pattern), path)
  }

  // ---- The declarative reading: segments and gaps ----------------------------------------

  function Weave(parts: seq<string>, gaps: seq<string>): string
    requires |parts| == |gaps| + 1
  {
    if gaps == [] then parts[0] else parts[0] + gaps[0] + Weave(parts[1..], gaps[1..])
  }

  ghost predicate Splits(parts: seq<string>, anchored: bool, s: string, gaps: seq<string>, tail: string) {
    && |parts| == |gaps| + 1
    && (forall g | g in gaps :: OneLine(g))
    && s == Weave(parts, gaps) + tail
    && (anchored ==> tail == "")
  }

  lemma {:induction false} AcceptsLiteral(p: string, ts: seq<Token>, anchored: bool, s: string)
    ensures Accepts(Literal(p) + ts, anchored, s) <==> p <= s && Accepts(ts, anchored, s[|p|..])
  {
    if p == [] {
      assert Literal(p) + ts == ts && s[0..] == s;
    } else {
      assert (Literal(p) + ts)[1..] == Literal(p[1..]) + ts;
      if s != [] {
        AcceptsLiteral(p[1..], ts, anchored, s[1..]);
        assert p == [p[0]] + p[1..] && s == [s[0]] + s[1..];
        if |p| <= |s| {
          assert s[1..][|p[1..]|..] == s[|p|..];
        }
      }
    }
  }

  lemma {:induction false} AcceptsAfterRun(ts: seq<Token>, anchored: bool, s: string, k: nat)
    requires k <= |s| && OneLine(s[..k]) && Accepts(ts, anchored, s[k..])
    ensures Accepts([AnyRun] + ts, anchored, s)
  {
    assert ([AnyRun] + ts)[1..] == ts;
    if k == 0 {
      assert s[0..] == s;
    } else {
      assert s[..k] == [s[0]] + s[1..][..k - 1];
      assert s[1..][k - 1..] == s[k..];
      assert s[..k][0] == s[0];
      AcceptsAfterRun(ts, anchored, s[1..], k - 1);
    }
  }

  lemma {:induction false} RunLength(ts: seq<Token>, anchored: bool, s: string) returns (k: nat)
    requires Accepts([AnyRun] + ts, anchored, s)
    ensures k <= |s| && OneLine(s[..k]) && Accepts(ts, anchored, s[k..])
    decreases |s|
  {
    assert ([AnyRun] + ts)[1..] == ts;
    if Accepts(ts, anchored, s) {
      k := 0;
      assert s[0..] == s;
    } else {
      var j := RunLength(ts, anchored, s[1..]);
      k := j + 1;
      assert s[..k] == [s[0]] + s[1..][..j];
      assert s[1..][j..] == s[k..];
    }
  }

  lemma GapInFront(parts: seq<string>, anchored: bool, s: string, k: nat, gaps: seq<string>, tail: string)
    requires |parts| > 1 && parts[0] <= s && |parts[0]| + k <= |s| && OneLine(s[|parts[0]|..][..k])
    requires Splits(parts[1..], anchored, s[|parts[0]|..][k..], gaps, tail)
    ensures Splits(parts, anchored, s, [s[|parts[0]|..][..k]] + gaps, tail)
  {
    var p := parts[0];
    var r := s[|p|..];
    var all := [r[..k]] + gaps;
    assert s == p + r && r == r[..k] + r[k..];
    assert all[1..] == gaps;
    assert Weave(parts, all) == p + r[..k] + Weave(parts[1..], gaps);
  }

  lemma {:induction false} AcceptedSplits(parts: seq<string>, anchored: bool, s: string)
    returns (gaps: seq<string>, tail: string)
    requires parts != [] && Accepts(Compile(parts), anchored, s)
    ensures Splits(parts, anchored, s, gaps, tail)
  {
    var p := parts[0];
    if |parts| == 1 {
      AcceptsLiteral(p, [], anchored, s);
      assert Literal(p) + [] == Literal(p);
      gaps, tail := [], s[|p|..];
    } else {
      var ts := Compile(parts[1..]);
      AcceptsLiteral(p, [AnyRun] + ts, anchored, s);
      assert Literal(p) + ([AnyRun] + ts) == Compile(parts);
      var r := s[|p|..];
      var k := RunLength(ts, anchored, r);
      var gaps1, tail1 := AcceptedSplits(parts[1..], anchored, r[k..]);
      gaps, tail := [r[..k]] + gaps1, tail1;
      GapInFront(parts, anchored, s, k, gaps1, tail1);
    }
  }

  lemma {:induction false} SplitsAccepted(
    parts: seq<string>, anchored: bool, s: string, gaps: seq<string>, tail: string)
    requires Splits(parts, anchored, s, gaps, tail)
    ensures Accepts(Compile(parts), anchored, s)
    decreases |parts|
  {
    var p := parts[0];
    if gaps == [] {
      assert s[|p|..] == tail;
      AcceptsLiteral(p, [], anchored, s);
      assert Literal(p) + [] == Literal(p);
    } else {
      var ts := Compile(parts[1..]);
      var rest := Weave(parts[1..], gaps[1..]) + tail;
      assert s == p + (gaps[0] + rest);
      SplitsAccepted(parts[1..], anchored, rest, gaps[1..], tail);
      var r := gaps[0] + rest;
      assert s[|p|..] == r && r[|gaps[0]|..] == rest && r[..|gaps[0]|] == gaps[0];
      AcceptsAfterRun(ts, anchored, r, |gaps[0]|);
      AcceptsLiteral(p, [AnyRun] + ts, anchored, s);
      assert Literal(p) + ([AnyRun] + ts) == Compile(parts);
    }
  }

  ghost predicate Splittable(parts: seq<string>, anchored: bool, s: string) {
    exists gaps, tail :: Splits(parts, anchored, s, gaps, tail)
  }

  // A pattern matches iff the path is its literal segments in order, separated by arbitrary
  // one-line gaps and, unless the pattern ends in "$", followed by anything.
  lemma MatchIsSegmentsAndGaps(pattern: string, path: string)
    ensures MatchesPattern(pattern, path)
       <==> Splittable(Split(Body(pattern), '*'), Anchored(pattern), path)
  {
    var parts, anchored := Split(Body(pattern), '*'), Anchored(pattern);
    if MatchesPattern(pattern, path) {
      var gaps, tail := AcceptedSplits(parts, anchored, path);
    }
    if Splittable(parts, anchored, path) {
      var gaps, tail :| Splits(parts, anchored, path, gaps, tail);
      SplitsAccepted(parts, anchored, path, gaps, tail);
    }
  }

  // A final "$", and nothing else, ties the end of the path to the end of the pattern.
  lemma DollarTiesTheEnd(pattern: string, path: string)
    ensures MatchesPattern(pattern + "$", path) <==> Splittable(Split(pattern, '*'), true, path)
    ensures pattern == "" || pattern[|pattern| - 1] != '$' ==>
              (MatchesPattern(pattern, path) <==> Splittable(Split(pattern, '*'), false, path))
  {
    MatchIsSegmentsAndGaps(pattern + "$", path);
    assert Body(pattern + "$") == pattern;
    MatchIsSegmentsAndGaps(pattern, path);
  }

  // ---- A matcher without backtracking ----------------------------------------------------

  // Position of the leftmost occurrence of p in s, or -1.
  function Leftmost(p: string, s: string): int {
    if p <= s then 0
    else if s == [] then -1
    else var k := Leftmost(p, s[1..]); if k < 0 then -1 else k + 1
  }

  lemma {:induction false} LeftmostIsFirst(p: string, s: string, j: nat)
    requires j <= |s| && p <= s[j..]
    ensures 0 <= Leftmost(p, s) <= j
  {
    assert s[0..] == s;
    if !(p <= s) {
      assert s[1..][j - 1..] == s[j..];
      LeftmostIsFirst(p, s[1..], j - 1);
    }
  }

  lemma {:induction false} LeftmostOccurs(p: string, s: string)
    requires Leftmost(p, s) >= 0
    ensures Leftmost(p, s) <= |s| && p <= s[Leftmost(p, s)..]
  {
    assert s[0..] == s;
    if !(p <= s) {
      LeftmostOccurs(p, s[1..]);
      assert s[1..][Leftmost(p, s[1..])..] == s[Leftmost(p, s)..];
    }
  }

  // Segments that may each be preceded by a gap: take the leftmost place for all but a final
  // anchored one, which must be a suffix.
  predicate GreedyRest(parts: seq<string>, anchored: bool, s: string)
    requires parts != []
    decreases |parts|
  {
    var p := parts[0];
    if |parts| == 1 && anchored then |p| <= |s| && s[|s| - |p|..] == p
    else
      var k := Leftmost(p, s);
      0 <= k && k + |p| <= |s| && (|parts| == 1 || GreedyRest(parts[1..], anchored, s[k + |p|..]))
  }

  predicate Greedy(parts: seq<string>, anchored: bool, s: string)
    requires parts != []
  {
    var p := parts[0];
    if |parts| == 1 then if anchored then p == s else p <= s
    else p <= s && GreedyRest(parts[1..], anchored, s[|p|..])
  }

  lemma {:induction false} GreedyRestSound(parts: seq<string>, anchored: bool, s: string)
    requires parts != [] && OneLine(s) && GreedyRest(parts, anchored, s)
    ensures Accepts([AnyRun] + Compile(parts), anchored, s)
    decreases |parts|
  {
    var p := parts[0];
    var k := if |parts| == 1 && anchored then |s| - |p| else Leftmost(p, s);
    if !(|parts| == 1 && anchored) {
      LeftmostOccurs(p, s);
    }
    var r := s[k..];
    assert r[|p|..] == s[k + |p|..];
    if |parts| == 1 {
      AcceptsLiteral(p, [], anchored, r);
      assert Literal(p) + [] == Compile(parts);
    } else {
      GreedyRestSound(parts[1..], anchored, r[|p|..]);
      AcceptsLiteral(p, [AnyRun] + Compile(parts[1..]), anchored, r);
      assert Literal(p) + ([AnyRun] + Compile(parts[1..])) == Compile(parts);
    }
    AcceptsAfterRun(Compile(parts), anchored, s, k);
  }

  // Starting earlier never hurts: whatever a run accepts from a suffix it accepts from the whole.
  lemma RunFromSuffix(ts: seq<Token>, anchored: bool, s: string, j: nat)
    requires j <= |s| && OneLine(s) && Accepts([AnyRun] + ts, anchored, s[j..])
    ensures Accepts([AnyRun] + ts, anchored, s)
  {
    var k := RunLength(ts, anchored, s[j..]);
    assert s[j..][k..] == s[j + k..];
    AcceptsAfterRun(ts, anchored, s, j + k);
  }

  lemma LastSegmentFound(p: string, anchored: bool, s: string, k: nat)
    requires k <= |s| && Accepts(Literal(p), anchored, s[k..])
    ensures GreedyRest([p], anchored, s)
  {
    var r := s[k..];
    AcceptsLiteral(p, [], anchored, r);
    assert Literal(p) + [] == Literal(p);
    if anchored {
      assert r == p + r[|p|..];
      assert s[|s| - |p|..] == p;
    } else {
      LeftmostIsFirst(p, s, k);
    }
  }

  // What follows one occurrence of a segment also follows the leftmost.
  lemma EarlierSegment(p: string, ts: seq<Token>, anchored: bool, s: string, k: nat) returns (m: nat)
    requires OneLine(s) && k <= |s| && p <= s[k..] && Accepts([AnyRun] + ts, anchored, s[k..][|p|..])
    ensures m == Leftmost(p, s) && m + |p| <= |s| && Accepts([AnyRun] + ts, anchored, s[m + |p|..])
  {
    LeftmostIsFirst(p, s, k);
    m := Leftmost(p, s);
    var rest := s[m + |p|..];
    assert s[k..][|p|..] == rest[k - m..];
    RunFromSuffix(ts, anchored, rest, k - m);
  }

  lemma {:induction false} GreedyRestComplete(parts: seq<string>, anchored: bool, s: string)
    requires parts != [] && OneLine(s) && Accepts([AnyRun] + Compile(parts), anchored, s)
    ensures GreedyRest(parts, anchored, s)
    decreases |parts|
  {
    var p := parts[0];
    var k := RunLength(Compile(parts), anchored, s);
    var r := s[k..];
    if |parts| == 1 {
      LastSegmentFound(p, anchored, s, k);
      assert parts == [p];
    } else {
      var ts := [AnyRun] + Compile(parts[1..]);
      AcceptsLiteral(p, ts, anchored, r);
      assert Literal(p) + ts == Compile(parts);
      var m := EarlierSegment(p, Compile(parts[1..]), anchored, s, k);
      GreedyRestComplete(parts[1..], anchored, s[m + |p|..]);
    }
  }

  // On a path without line terminators the leftmost-greedy matcher decides the pattern.
  lemma GreedyDecides(pattern: string, path: string)
    requires OneLine(path)
    ensures MatchesPattern(pattern, path) <==> Greedy(Split(Body(pattern), '*'), Anchored(pattern), path)
  {
    var parts, anchored := Split(Body(pattern), '*'), Anchored(pattern);
    var p := parts[0];
    if |parts| == 1 {
      AcceptsLiteral(p, [], anchored, path);
      assert Literal(p) + [] == Compile(parts);
      assert p <= path ==> path == p + path[|p|..];
    } else {
      AcceptsLiteral(p, [AnyRun] + Compile(parts[1..]), anchored, path);
      assert Literal(p) + ([AnyRun] + Compile(parts[1..])) == Compile(parts);
      if p <= path {
        var r := path[|p|..];
        if GreedyRest(parts[1..], anchored, r) {
          GreedyRestSound(parts[1..], anchored, r);
        }
        if Accepts([AnyRun] + Compile(parts[1..]), anchored, r) {
          GreedyRestComplete(parts[1..], anchored, r);
        }
      }
    }
  }

  // ---- Laws of patterns ------------------------------------------------------------------

  // Without wildcards a rule is a prefix test, and with a final "$" an equality test.
  lemma PlainPattern(p: string, path: string)
    requires Free(p, '*')
    ensures !Anchored(p) ==> (MatchesPattern(p, path) <==> p <= path)
    ensures MatchesPattern(p + "$", path) <==> path == p
  {
    SplitWithoutSeparator(p, '*');
    OneLiteral(p, path);
    assert Body(p + "$") == p;
  }

  lemma OneLiteral(p: string, path: string)
    ensures Accepts(Compile([p]), false, path) <==> p <= path
    ensures Accepts(Compile([p]), true, path) <==> path == p
  {
    assert Literal(p) + [] == Compile([p]);
    AcceptsLiteral(p, [], false, path);
    AcceptsLiteral(p, [], true, path);
    assert p <= path ==> path == p + path[|p|..];
  }

  lemma {:induction false} CompileAppend(a: seq<string>, b: seq<string>)
    requires a != [] && b != []
    ensures Compile(a + b) == Compile(a) + [AnyRun] + Compile(b)
    decreases |a|
  {
    assert (a + b)[1..] == a[1..] + b;
    if |a| > 1 {
      CompileAppend(a[1..], b);
    } else {
      assert a[1..] + b == b;
    }
  }

  lemma {:induction false} DoubleRun(ts: seq<Token>, anchored: bool, s: string)
    ensures Accepts([AnyRun] + ([AnyRun] + ts), anchored, s) <==> Accepts([AnyRun] + ts, anchored, s)
    decreases |s|
  {
    assert ([AnyRun] + ([AnyRun] + ts))[1..] == [AnyRun] + ts;
    assert ([AnyRun] + ts)[1..] == ts;
    if s != [] {
      DoubleRun(ts, anchored, s[1..]);
    }
  }

  lemma {:induction false} SamePrefix(pre: seq<Token>, xs: seq<Token>, ys: seq<Token>, anchored: bool, s: string)
    requires forall t :: Accepts(xs, anchored, t) <==> Accepts(ys, anchored, t)
    ensures Accepts(pre + xs, anchored, s) <==> Accepts(pre + ys, anchored, s)
    decreases |pre|, |s|
  {
    if pre == [] {
      assert pre + xs == xs && pre + ys == ys;
    } else {
      assert (pre + xs)[1..] == pre[1..] + xs && (pre + ys)[1..] == pre[1..] + ys;
      if s != [] {
        SamePrefix(pre[1..], xs, ys, anchored, s[1..]);
        SamePrefix(pre, xs, ys, anchored, s[1..]);
      }
      SamePrefix(pre[1..], xs, ys, anchored, s);
    }
  }

  lemma CompileStar(u: string, v: string)
    ensures Compile(Split(u + "*" + v, '*')) == Compile(Split(u, '*')) + ([AnyRun] + Compile(Split(v, '*')))
  {
    SplitAppend(u, '*', v);
    CompileAppend(Split(u, '*'), Split(v, '*'));
  }

  lemma CompileLeadingStar(v: string)
    ensures Compile(Split("*" + v, '*')) == [AnyRun] + Compile(Split(v, '*'))
  {
    CompileStar("", v);
    assert "" + "*" + v == "*" + v;
    assert Compile(Split("", '*')) == [];
  }

  lemma CompileTwoStars(u: string, v: string)
    ensures Compile(Split(u + "**" + v, '*'))
         == Compile(Split(u, '*')) + ([AnyRun] + ([AnyRun] + Compile(Split(v, '*'))))
  {
    CompileStar(u, "*" + v);
    assert u + "*" + ("*" + v) == u + "**" + v;
    CompileLeadingStar(v);
  }

  lemma StarsCollapse(u: string, v: string, path: string)
    ensures MatchesPattern(u + "**" + v, path) <==> MatchesPattern(u + "*" + v, path)
  {
    var p1, p2 := u + "*" + v, u + "**" + v;
    var anchored := Anchored(v);
    assert Anchored(p1) == anchored && Anchored(p2) == anchored;
    assert Body(p1) == u + "*" + Body(v) && Body(p2) == u + "**" + Body(v);
    var ts := Compile(Split(Body(v), '*'));
    CompileStar(u, Body(v));
    CompileTwoStars(u, Body(v));
    forall t ensures Accepts([AnyRun] + ([AnyRun] + ts), anchored, t) <==> Accepts([AnyRun] + ts, anchored, t) {
      DoubleRun(ts, anchored, t);
    }
    SamePrefix(Compile(Split(u, '*')), [AnyRun] + ([AnyRun] + ts), [AnyRun] + ts, anchored, path);
  }

  lemma {:induction false} RunToEnd(ts: seq<Token>, s: string)
    requires OneLine(s)
    ensures Accepts(ts, false, s) <==> Accepts(ts + [AnyRun], true, s)
    decreases |ts|, |s|
  {
    if ts == [] {
      assert ts + [AnyRun] == [AnyRun] + [];
      assert s[|s|..] == [] && s[..|s|] == s;
      AcceptsAfterRun([], true, s, |s|);
    } else {
      assert (ts + [AnyRun])[1..] == ts[1..] + [AnyRun];
      RunToEnd(ts[1..], s);
      if s != [] {
        RunToEnd(ts[1..], s[1..]);
        RunToEnd(ts, s[1..]);
      }
    }
  }

  // An unanchored pattern is the same as one ending in "*$".
  lemma UnanchoredIsStarDollar(p: string, path: string)
    requires !Anchored(p) && OneLine(path)
    ensures MatchesPattern(p, path) <==> MatchesPattern(p + "*$", path)
  {
    assert Body(p + "*$") == p + "*" + "";
    CompileStar(p, "");
    assert Compile(Split("", '*')) == [];
    assert [AnyRun] + [] == [AnyRun];
    RunToEnd(Compile(Split(p, '*')), path);
  }

  lemma {:induction false} AcceptsExtension(ts: seq<Token>, s: string, more: string)
    requires Accepts(ts, false, s)
    ensures Accepts(ts, false, s + more)
    decreases |ts|, |s|
  {
    if ts != [] {
      if s != [] {
        assert (s + more)[1..] == s[1..] + more;
      }
      if ts[0].Lit? || !Accepts(ts[1..], false, s) {
        AcceptsExtension(if ts[0].Lit? then ts[1..] else ts, s[1..], more);
      } else {
        AcceptsExtension(ts[1..], s, more);
      }
    }
  }

  // A rule without "$" that covers a path covers everything below it.
  lemma UnanchoredCoversExtensions(p: string, path: string, more: string)
    requires !Anchored(p) && MatchesPattern(p, path)
    ensures MatchesPattern(p, path + more)
  {
    AcceptsExtension(Compile(Split(p, '*')), path, more);
  }
}
