/** What normalisation does to a written name, and what the parts of the name score weigh. */
module NameLaws {
  import opened Text
  import opened EditDistance
  import opened Names

  // ---- Words and what lies between them --------------------------------------------------

  // Text without letters, digits or apostrophes.
  predicate IsGap(s: string) {
    forall c | c in s :: !('a' <= c <= 'z') && !('0' <= c <= '9') && c !in "'`\U{2019}"
  }

  // Small letters and digits.
  predicate IsPlainWord(s: string) {
    s != "" && forall c | c in s :: 'a' <= c <= 'z' || '0' <= c <= '9'
  }

  lemma PlainWordIsWord(s: string)
    ensures IsPlainWord(s) <==> IsWord(s)
  {
    if IsPlainWord(s) {
      forall i | 0 <= i < |s| ensures IsAlnum(s[i]) {
        assert s[i] in s;
      }
    }
  }

  // Words with a gap before, between and after them.
  function Lay(words: seq<string>, gaps: seq<string>): string
    requires |gaps| == |words| + 1
  {
    if words == [] then gaps[0] else gaps[0] + (words[0] + Lay(words[1..], gaps[1..]))
  }

  predicate Laid(words: seq<string>, gaps: seq<string>) {
    && |gaps| == |words| + 1
    && (forall i | 0 <= i < |words| :: IsWord(words[i]))
    && (forall i | 0 <= i < |gaps| :: IsGap(gaps[i]))
    && (forall i | 0 < i < |gaps| - 1 :: gaps[i] != "")
  }

  lemma {:induction false} SquashGap(gap: string, rest: string, open: bool)
    requires IsGap(gap)
    ensures Squash(gap + rest, open) == (if gap == "" || open then "" else " ") + Squash(rest, open || gap != "")
    decreases |gap|
  {
    if gap == "" {
      assert gap + rest == rest;
    } else {
      assert gap[0] in gap && (gap + rest)[1..] == gap[1..] + rest;
      SquashGap(gap[1..], rest, true);
    }
  }

  // The space that a gap leaves at an end.
  function Edge(gap: string, open: bool): string { if gap == "" || open then "" else " " }

  lemma SquashFirst(gap: string, word: string, rest: string, open: bool)
    requires IsGap(gap) && IsWord(word)
    ensures Squash(gap + (word + rest), open) == Edge(gap, open) + (word + Squash(rest, false))
  {
    SquashGap(gap, word + rest, open);
    SquashWord(word, rest, open || gap != "");
  }

  lemma {:induction false} SquashLaid(words: seq<string>, gaps: seq<string>, open: bool)
    requires Laid(words, gaps)
    ensures Squash(Lay(words, gaps), open)
         == Edge(gaps[0], open) + Join(words, ' ') + if words == [] then "" else Edge(gaps[|words|], false)
    decreases |words|
  {
    if words == [] {
      SquashGap(gaps[0], "", open);
      assert gaps[0] + "" == gaps[0];
    } else {
      var rest := Lay(words[1..], gaps[1..]);
      SquashFirst(gaps[0], words[0], rest, open);
      assert Laid(words[1..], gaps[1..]);
      SquashLaid(words[1..], gaps[1..], false);
      JoinedStep(words, gaps);
      Ahead(Edge(gaps[0], open), words[0] + Squash(rest, false), Join(words, ' '), Edge(gaps[|words|], false));
    }
  }

  lemma Ahead(e: string, s: string, x: string, y: string)
    requires s == x + y
    ensures e + s == e + x + y
  {
  }

  lemma JoinedStep(words: seq<string>, gaps: seq<string>)
    requires Laid(words, gaps) && words != []
    ensures var tail := if |words| == 1 then "" else Edge(gaps[|words|], false);
            words[0] + (Edge(gaps[1], false) + Join(words[1..], ' ') + tail)
            == Join(words, ' ') + Edge(gaps[|words|], false)
  {
    if |words| == 1 {
      LoneWord(words[0], Edge(gaps[1], false));
    } else {
      assert Edge(gaps[1], false) == " ";
      Regroup(words[0], Join(words[1..], ' '), Edge(gaps[|words|], false));
    }
  }

  lemma LoneWord(w: string, tail: string)
    ensures w + (tail + "" + "") == w + tail
  {
  }

  lemma Regroup(w: string, rest: string, tail: string)
    ensures w + (" " + rest + tail) == w + [' '] + rest + tail
  {
  }

  // However the words of a name are set apart, normalisation keeps those that are no legal form, one
  // space apart.
  lemma SpreadName(fold: string -> string, legal: set<string>, input: string, words: seq<string>, gaps: seq<string>)
    requires |gaps| == |words| + 1 && (forall w | w in words :: IsPlainWord(w)) && (forall g | g in gaps :: IsGap(g))
    requires (forall i | 0 < i < |gaps| - 1 :: gaps[i] != "")
    requires input != "" && DropApostrophes(fold(input)) == Lay(words, gaps)
    ensures Normalise(fold, legal, input) == Join(KeepTokens(words, legal), ' ')
  {
    forall i | 0 <= i < |words| ensures IsWord(words[i]) {
      PlainWordIsWord(words[i]);
    }
    assert Laid(words, gaps);
    SquashLaid(words, gaps, false);
    var before, after := Edge(gaps[0], false), if words == [] then "" else Edge(gaps[|words|], false);
    assert forall w | w in words :: IsWord(w);
    JoinedWords(words);
    TrimPadded(before, Join(words, ' '), after);
    assert NameTokens(fold, legal, input) == KeepTokens(Split(Join(words, ' '), ' '), legal);
    PiecesAreWords(words, legal);
    TokensAreNormal(fold, legal, input);
    JoinedWords(NameTokens(fold, legal, input));
    TrimTrimmed(Join(NameTokens(fold, legal, input), ' '));
  }

  lemma PiecesAreWords(words: seq<string>, legal: set<string>)
    requires forall w | w in words :: IsWord(w)
    ensures KeepTokens(Split(Join(words, ' '), ' '), legal) == KeepTokens(words, legal)
  {
    if words == [] {
      assert Split("", ' ') == [""];
      assert KeepTokens([""], legal) == KeepTokens([], legal);
    } else {
      forall w | w in words ensures Free(w, ' ') { WordFacts(w); }
      SplitJoin(words, ' ');
    }
  }

  // Words are kept or dropped one by one, in order.
  lemma {:induction false} KeptOneByOne(before: seq<string>, word: string, after: seq<string>, legal: set<string>)
    requires word != ""
    ensures KeepTokens(before + [word] + after, legal)
         == KeepTokens(before, legal) + (if word in legal then [] else [word]) + KeepTokens(after, legal)
    decreases |before|
  {
    var all := before + [word] + after;
    if before == [] {
      assert all[1..] == after;
    } else {
      assert all[1..] == before[1..] + [word] + after;
      KeptOneByOne(before[1..], word, after, legal);
    }
  }

  // The tokens compared are the words.
  lemma TokensAreWords(words: seq<string>)
    requires forall w | w in words :: IsPlainWord(w)
    ensures Tokens(Join(words, ' ')) == set w | w in words
  {
    if words == [] {
      assert Split("", ' ') == [""];
    } else {
      forall w | w in words ensures Free(w, ' ') && w != "" {
        PlainWordIsWord(w);
      }
      SplitJoin(words, ' ');
    }
  }

  // An apostrophe vanishes without a trace, wherever it stands, and nothing else does.
  lemma ApostropheVanishes(before: string, c: char, after: string)
    ensures DropApostrophes(before + [c] + after)
         == DropApostrophes(before) + (if c in "'`\U{2019}" then "" else [c]) + DropApostrophes(after)
  {
    DropAppend(before + [c], after);
    DropAppend(before, [c]);
    DropOne(c);
  }

  lemma {:induction false} DropAppend(a: string, b: string)
    ensures DropApostrophes(a + b) == DropApostrophes(a) + DropApostrophes(b)
    decreases |a|
  {
    if a == "" {
      assert a + b == b;
    } else {
      assert (a + b)[1..] == a[1..] + b;
      DropAppend(a[1..], b);
    }
  }

  lemma DropOne(c: char)
    ensures DropApostrophes([c]) == if c in "'`\U{2019}" then "" else [c]
  {
    assert [c][1..] == "" && DropApostrophes("") == "";
  }

  function Concat(words: seq<string>): string {
    if words == [] then "" else words[0] + Concat(words[1..])
  }

  lemma {:induction false} CompactAppend(a: string, b: string)
    ensures Compact(a + b) == Compact(a) + Compact(b)
    decreases |a|
  {
    if a == "" {
      assert a + b == b;
    } else {
      assert (a + b)[1..] == a[1..] + b;
      CompactAppend(a[1..], b);
    }
  }

  lemma {:induction false} CompactWord(w: string)
    requires Free(w, ' ')
    ensures Compact(w) == w
    decreases |w|
  {
    if w != "" {
      CompactWord(w[1..]);
      assert w == [w[0]] + w[1..];
    }
  }

  lemma CompactSpaced(w: string, rest: string)
    requires Free(w, ' ')
    ensures Compact(w + [' '] + rest) == w + Compact(rest)
  {
    CompactWord(w);
    assert Compact(w + [' ']) == w by {
      CompactAppend(w, [' ']);
      CompactSpace();
    }
    CompactAppend(w + [' '], rest);
  }

  lemma CompactSpace()
    ensures Compact([' ']) == ""
  {
    assert [' '][1..] == "";
  }

  // The second view compares the words run together.
  lemma {:induction false} CompactRunsTogether(words: seq<string>)
    requires forall w | w in words :: IsWord(w)
    ensures Compact(Join(words, ' ')) == Concat(words)
    decreases |words|
  {
    if words != [] {
      assert words[0] in words;
      WordFacts(words[0]);
      CompactWord(words[0]);
      if |words| == 1 {
        assert words[0] + "" == words[0];
      } else {
        CompactRunsTogether(words[1..]);
        CompactSpaced(words[0], Join(words[1..], ' '));
      }
    }
  }

  // ---- Weights ---------------------------------------------------------------------------

  function Longer(a: string, b: string): nat { if |a| >= |b| then |a| else |b| }

  // Of m characters all but d are s times m.
  predicate LeavesShare(s: real, m: nat, d: nat) {
    s * m as real == (m - d) as real
  }

  // s is the share of the longer string that a shortest edit script leaves alone.
  ghost predicate IsShare(a: string, b: string, s: real) {
    if a == b then s == 1.0
    else exists script :: IsShortest(script, a, b) && LeavesShare(s, Longer(a, b), Cost(script))
  }

  lemma ShareIsSimilarity(a: string, b: string, s: real)
    requires IsShare(a, b, s)
    ensures s == Similarity(a, b)
  {
    if a != b {
      var script :| IsShortest(script, a, b) && LeavesShare(s, Longer(a, b), Cost(script));
      ShortestCost(script, a, b);
      ShareSolved(s, Distance(a, b), Longer(a, b));
      assert Longer(a, b) == Max(|a|, |b|);
    }
  }

  lemma ShareSolved(s: real, d: nat, m: nat)
    requires m > 0 && LeavesShare(s, m, d)
    ensures s == 1.0 - d as real / m as real
  {
    Solved(s, d as real, m as real);
  }

  lemma Solved(s: real, d: real, m: real)
    requires m > 0.0 && s * m == m - d
    ensures s == 1.0 - d / m
  {
    SameQuotient(1.0 - s, d / m, m, d);
  }

  lemma SameQuotient(x: real, y: real, z: real, n: real)
    requires z != 0.0 && x * z == n && y * z == n
    ensures x == y
  {
    assert (x - y) * z == 0.0;
  }

  // q is n over d.
  predicate IsRatio(q: real, n: nat, d: nat) {
    d > 0 && q * d as real == n as real
  }

  lemma RatioIsQuotient(q: real, n: nat, d: nat)
    requires IsRatio(q, n, d)
    ensures q == n as real / d as real
  {
    var p := n as real / d as real;
    SameQuotient(q, p, d as real, n as real);
  }

  // Of two names with words, shared words over all words weigh 0.45, shared words over those of the
  // shorter name 0.35, and the strings 0.2; or the strings without spaces 0.95, if that is more.
  lemma ScoreIsWeighted(left: string, right: string, j: real, c: real, s: real, k: real)
    requires Tokens(left) != {} && Tokens(right) != {}
    requires var l, r := Tokens(left), Tokens(right);
             IsRatio(j, |l * r|, |l + r|) && IsRatio(c, |l * r|, if |l| <= |r| then |l| else |r|)
    requires IsShare(left, right, s) && IsShare(Compact(left), Compact(right), k)
    ensures var view := 0.45 * j + 0.35 * c + 0.2 * s;
            Blend(left, right) == if view >= 0.95 * k then view else 0.95 * k
  {
    var l, r := Tokens(left), Tokens(right);
    assert Tokens("") == {};
    RatioIsQuotient(j, |l * r|, |l + r|);
    RatioIsQuotient(c, |l * r|, Min(|l|, |r|));
    ShareIsSimilarity(left, right, s);
    ShareIsSimilarity(Compact(left), Compact(right), k);
    WeightsAre(left, right, j, c, s, k);
  }

  lemma WeightsAre(left: string, right: string, j: real, c: real, s: real, k: real)
    requires left != "" && right != "" && s == Similarity(left, right) && k == Similarity(Compact(left), Compact(right))
    requires j == Jaccard(Tokens(left), Tokens(right)) && c == Containment(Tokens(left), Tokens(right))
    ensures var view := 0.45 * j + 0.35 * c + 0.2 * s;
            Blend(left, right) == if view >= 0.95 * k then view else 0.95 * k
  {
  }

  // A name without words scores nothing.
  lemma EmptyScoresNothing(other: string)
    ensures Blend("", other) == 0.0 && Blend(other, "") == 0.0
  {
  }
}
