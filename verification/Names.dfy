/** Business-name normalisation and the blended name similarity. */
module Names {
  import opened Wrappers
  import opened Text
  import opened EditDistance

  predicate IsAlnum(c: char) { 'a' <= c <= 'z' || '0' <= c <= '9' }

  predicate IsWord(s: string) {
    s != "" && forall i | 0 <= i < |s| :: IsAlnum(s[i])
  }

  // Letters, digits and spaces only.
  predicate IsPlain(s: string) {
    forall i | 0 <= i < |s| :: IsAlnum(s[i]) || s[i] == ' '
  }

  // Accent stripping and lower-casing, taken as a parameter; it leaves plain text alone.
  ghost predicate Folds(fold: string -> string) {
    forall s :: IsPlain(s) ==> fold(s) == s
  }

  predicate IsApostrophe(c: char) { c == '\'' || c == '`' || c as int == 0x2019 }

  function DropApostrophes(s: string): string {
    if s == "" then ""
    else (if IsApostrophe(s[0]) then "" else [s[0]]) + DropApostrophes(s[1..])
  }

  // Every maximal run of other characters becomes one space; gap says a run is open.
  function Squash(s: string, gap: bool): string {
    if s == "" then ""
    else if IsAlnum(s[0]) then [s[0]] + Squash(s[1..], false)
    else (if gap then "" else " ") + Squash(s[1..], true)
  }

  const LEGAL_TOKENS: set<string> := {
    "sarl", "sas", "sasu", "eurl", "sci", "snc", "sa", "ei", "eirl", "scop", "sarlu",
    "entreprise", "ste", "societe", "st\U{e9}", "monsieur", "madame", "mr", "mme",
    "auto-entrepreneur", "autoentrepreneur", "micro-entreprise"
  }

  function KeepTokens(parts: seq<string>, legal: set<string>): seq<string> {
    if parts == [] then []
    else (if parts[0] != "" && parts[0] !in legal then [parts[0]] else []) + KeepTokens(parts[1..], legal)
  }

  // The words of a name that survive normalisation.
  function NameTokens(fold: string -> string, legal: set<string>, input: string): seq<string> {
    KeepTokens(Split(Trim(Squash(DropApostrophes(fold(input)), false)), ' '), legal)
  }

  function Normalise(fold: string -> string, legal: set<string>, input: string): string {
    if input == "" then "" else Trim(Join(NameTokens(fold, legal, input), ' '))
  }

  // ---- Normal forms ----------------------------------------------------------------------

  predicate IsNormalTokens(tokens: seq<string>, legal: set<string>) {
    forall t | t in tokens :: IsWord(t) && t !in legal
  }

  lemma {:induction false} SquashIsPlain(s: string, gap: bool)
    ensures IsPlain(Squash(s, gap))
  {
    if s != "" {
      SquashIsPlain(s[1..], !IsAlnum(s[0]));
    }
  }

  lemma {:induction false} PlainPieces(s: string)
    requires IsPlain(s)
    ensures forall p | p in Split(s, ' ') :: p == "" || IsWord(p)
  {
    if s != "" {
      PlainPieces(s[1..]);
      var rest := Split(s[1..], ' ');
      if s[0] != ' ' {
        assert rest[0] in rest;
        assert IsWord([s[0]] + rest[0]);
      }
    }
  }

  lemma {:induction false} KeptTokens(parts: seq<string>, legal: set<string>)
    requires forall p | p in parts :: p == "" || IsWord(p)
    ensures IsNormalTokens(KeepTokens(parts, legal), legal)
    decreases |parts|
  {
    if parts != [] {
      assert parts[0] in parts;
      assert forall p | p in parts[1..] :: p in parts;
      KeptTokens(parts[1..], legal);
    }
  }

  lemma PlainTrim(s: string)
    requires IsPlain(s)
    ensures IsPlain(Trim(s))
  {
    var left, right := TrimSpec(s);
    assert forall i | 0 <= i < |Trim(s)| :: Trim(s)[i] == s[|left| + i];
  }

  lemma TokensAreNormal(fold: string -> string, legal: set<string>, input: string)
    ensures IsNormalTokens(NameTokens(fold, legal, input), legal)
  {
    var s := Squash(DropApostrophes(fold(input)), false);
    SquashIsPlain(DropApostrophes(fold(input)), false);
    PlainTrim(s);
    PlainPieces(Trim(s));
    KeptTokens(Split(Trim(s), ' '), legal);
  }

  lemma WordFacts(w: string)
    requires IsWord(w)
    ensures Free(w, ' ') && !IsSpace(w[0]) && !IsSpace(w[|w| - 1])
  {
  }

  lemma {:induction false} JoinedWords(tokens: seq<string>)
    requires forall t | t in tokens :: IsWord(t)
    ensures var s := Join(tokens, ' ');
            IsPlain(s) && Trimmed(s) && (s == "" <==> tokens == [])
  {
    if tokens != [] {
      assert tokens[0] in tokens;
      WordFacts(tokens[0]);
      if |tokens| > 1 {
        assert forall t | t in tokens[1..] :: t in tokens;
        JoinedWords(tokens[1..]);
      }
    }
  }

  lemma {:induction false} SquashWord(w: string, rest: string, gap: bool)
    requires IsWord(w)
    ensures Squash(w + rest, gap) == w + Squash(rest, false)
    decreases |w|
  {
    assert (w + rest)[1..] == w[1..] + rest;
    if |w| == 1 {
      assert w[1..] + rest == rest;
      assert w == [w[0]];
    } else {
      assert w == [w[0]] + w[1..];
      SquashWord(w[1..], rest, false);
    }
  }

  lemma {:induction false} SquashJoined(tokens: seq<string>, gap: bool)
    requires forall t | t in tokens :: IsWord(t)
    ensures Squash(Join(tokens, ' '), gap) == Join(tokens, ' ')
    decreases |tokens|
  {
    if tokens != [] {
      assert tokens[0] in tokens;
      if |tokens| == 1 {
        SquashWord(tokens[0], "", gap);
        assert tokens[0] + "" == tokens[0];
      } else {
        var rest := Join(tokens[1..], ' ');
        assert forall t | t in tokens[1..] :: t in tokens;
        SquashJoined(tokens[1..], true);
        SquashWord(tokens[0], " " + rest, gap);
        assert Join(tokens, ' ') == tokens[0] + (" " + rest);
        assert (" " + rest)[1..] == rest;
      }
    }
  }

  lemma {:induction false} NoApostrophes(s: string)
    requires IsPlain(s)
    ensures DropApostrophes(s) == s
  {
    if s != "" {
      NoApostrophes(s[1..]);
    }
  }

  lemma {:induction false} KeepAll(tokens: seq<string>, legal: set<string>)
    requires IsNormalTokens(tokens, legal)
    ensures KeepTokens(tokens, legal) == tokens
    decreases |tokens|
  {
    if tokens != [] {
      assert tokens[0] in tokens;
      assert forall t | t in tokens[1..] :: t in tokens;
      KeepAll(tokens[1..], legal);
    }
  }

  lemma NormalisedIsJoined(fold: string -> string, legal: set<string>, input: string) returns (tokens: seq<string>)
    ensures IsNormalTokens(tokens, legal) && Normalise(fold, legal, input) == Join(tokens, ' ')
  {
    if input == "" {
      tokens := [];
    } else {
      tokens := NameTokens(fold, legal, input);
      TokensAreNormal(fold, legal, input);
      JoinedWords(tokens);
      TrimTrimmed(Join(tokens, ' '));
    }
  }

  lemma NormaliseJoined(fold: string -> string, legal: set<string>, tokens: seq<string>)
    requires Folds(fold) && IsNormalTokens(tokens, legal)
    ensures Normalise(fold, legal, Join(tokens, ' ')) == Join(tokens, ' ')
  {
    var s := Join(tokens, ' ');
    JoinedWords(tokens);
    if tokens != [] {
      NoApostrophes(s);
      SquashJoined(tokens, false);
      TrimTrimmed(s);
      forall t | t in tokens ensures Free(t, ' ') { WordFacts(t); }
      SplitJoin(tokens, ' ');
      KeepAll(tokens, legal);
    }
  }

  // Normalising twice is normalising once, and the result is the surviving words one space apart.
  lemma NormaliseIsIdempotent(fold: string -> string, legal: set<string>, input: string)
    requires Folds(fold)
    ensures Normalise(fold, legal, Normalise(fold, legal, input)) == Normalise(fold, legal, input)
  {
    var tokens := NormalisedIsJoined(fold, legal, input);
    NormaliseJoined(fold, legal, tokens);
  }

  // ---- Token similarities ----------------------------------------------------------------

  function Tokens(s: string): set<string> {
    set t | t in Split(s, ' ') && t != ""
  }

  function Jaccard(l: set<string>, r: set<string>): real {
    if l == {} || r == {} then 0.0 else |l * r| as real / |l + r| as real
  }

  function Containment(l: set<string>, r: set<string>): real {
    if l == {} || r == {} then 0.0 else |l * r| as real / Min(|l|, |r|) as real
  }

  lemma Sizes(l: set<string>, r: set<string>)
    ensures |l + r| == |l| + |r| - |l * r|
    ensures |l * r| <= |l| <= |l + r| && |l * r| <= |r| <= |l + r|
    ensures |l * r| == |l + r| <==> l == r
  {
    SubsetSize(l * r, l);
    SubsetSize(l * r, r);
    SubsetSize(l, l + r);
    SubsetSize(r, l + r);
    if |l * r| == |l + r| {
      SubsetSize(l * r, l + r);
      assert l * r == l + r;
      assert l == r;
    }
    if l == r {
      assert l * r == l && l + r == l;
    }
  }

  // The shared-token count both similarities start from.
  method CountShared(left: set<string>, right: set<string>) returns (shared: nat)
    ensures shared == |left * right|
  {
    shared := 0;
    var rest := left;
    while rest != {}
      invariant rest <= left && shared == |(left - rest) * right|
      decreases |rest|
    {
      var token :| token in rest;
      var next := rest - {token};
      if token in right {
        assert (left - next) * right == (left - rest) * right + {token};
        shared := shared + 1;
      } else {
        assert (left - next) * right == (left - rest) * right;
      }
      rest := next;
    }
    assert (left - {}) * right == left * right;
  }

  method TokenSimilarity(a: string, b: string) returns (similarity: real)
    ensures similarity == Jaccard(Tokens(a), Tokens(b))
  {
    var left, right := Tokens(a), Tokens(b);
    if |left| == 0 || |right| == 0 { return 0.0; }
    var shared := CountShared(left, right);
    Sizes(left, right);
    similarity := shared as real / (|left| + |right| - shared) as real;
  }

  method ContainmentSimilarity(a: string, b: string) returns (similarity: real)
    ensures similarity == Containment(Tokens(a), Tokens(b))
  {
    var left, right := Tokens(a), Tokens(b);
    if |left| == 0 || |right| == 0 { return 0.0; }
    var shared := CountShared(left, right);
    similarity := shared as real / Min(|left|, |right|) as real;
  }

  lemma Fractions(n: nat, d: nat, e: nat)
    requires n <= d <= e && d > 0
    ensures 0.0 <= n as real / e as real <= n as real / d as real <= 1.0
    ensures n == d <==> n as real / d as real == 1.0
    ensures n == 0 <==> n as real / d as real == 0.0
  {
    var x, y, z := n as real, d as real, e as real;
    Quotient(x, y, 1.0);
    Quotient(x, y, 0.0);
    Quotient(x, z, 0.0);
    Quotient(x, z, x / y);
    assert x / y * y == x;
    assert x / y * (z - y) >= 0.0;
    assert x / y * z >= x;
  }

  // Jaccard similarity never exceeds containment, both are symmetric and in [0,1], and Jaccard is
  // 1 exactly for equal non-empty token sets.
  lemma TokenLaws(l: set<string>, r: set<string>)
    ensures 0.0 <= Jaccard(l, r) <= Containment(l, r) <= 1.0
    ensures Jaccard(l, r) == Jaccard(r, l) && Containment(l, r) == Containment(r, l)
    ensures Jaccard(l, r) == 1.0 <==> l == r != {}
    ensures (Jaccard(l, r) == 0.0 <==> l * r == {}) && (Containment(l, r) == 0.0 <==> l * r == {})
  {
    assert l * r == r * l && l + r == r + l;
    Sizes(l, r);
    if l != {} && r != {} {
      assert |l| > 0 && |r| > 0;
      Fractions(|l * r|, Min(|l|, |r|), |l + r|);
      Fractions(|l * r|, |l + r|, |l + r|);
    }
  }

  // ---- The blend -------------------------------------------------------------------------

  function Compact(s: string): string {
    if s == "" then "" else (if s[0] == ' ' then "" else [s[0]]) + Compact(s[1..])
  }

  function TokenView(left: string, right: string): real {
    0.45 * Jaccard(Tokens(left), Tokens(right))
    + 0.35 * Containment(Tokens(left), Tokens(right))
    + 0.2 * Similarity(left, right)
  }

  function CompactView(left: string, right: string): real {
    0.95 * Similarity(Compact(left), Compact(right))
  }

  function Blend(left: string, right: string): real {
    if left == "" || right == "" then 0.0
    else if TokenView(left, right) >= CompactView(left, right) then TokenView(left, right)
    else CompactView(left, right)
  }

  function NameScore(fold: string -> string, legal: set<string>, a: string, b: string): real {
    Blend(Normalise(fold, legal, a), Normalise(fold, legal, b))
  }

  method NameSimilarity(fold: string -> string, a: string, b: string) returns (score: real)
    ensures score == NameScore(fold, LEGAL_TOKENS, a, b)
  {
    var left, right := Normalise(fold, LEGAL_TOKENS, a), Normalise(fold, LEGAL_TOKENS, b);
    if left == "" || right == "" { return 0.0; }
    var j := TokenSimilarity(left, right);
    var c := ContainmentSimilarity(left, right);
    var s := StringSimilarity(left, right);
    var k := StringSimilarity(Compact(left), Compact(right));
    var tokenView := 0.45 * j + 0.35 * c + 0.2 * s;
    var compactView := 0.95 * k;
    score := if tokenView >= compactView then tokenView else compactView;
  }

  lemma BlendRange(left: string, right: string)
    ensures 0.0 <= Blend(left, right) <= 1.0
    ensures Blend(left, right) == Blend(right, left)
    ensures Blend(left, right) == 1.0 ==> left == right != ""
    ensures left == right && Tokens(left) != {} ==> Blend(left, right) == 1.0
  {
    var l, r := Tokens(left), Tokens(right);
    TokenLaws(l, r);
    SimilarityLaws(left, right);
    SimilarityLaws(Compact(left), Compact(right));
    if left == right && l != {} {
      assert left != "" by { assert Tokens("") == {}; }
      assert Containment(l, r) == 1.0;
    }
  }

  lemma JoinedHasToken(tokens: seq<string>)
    requires tokens != [] && forall t | t in tokens :: IsWord(t)
    ensures Tokens(Join(tokens, ' ')) != {}
  {
    forall t | t in tokens ensures Free(t, ' ') { WordFacts(t); }
    SplitJoin(tokens, ' ');
    assert tokens[0] in tokens;
    assert tokens[0] in Tokens(Join(tokens, ' '));
  }

  lemma NormalisedHasToken(fold: string -> string, legal: set<string>, a: string)
    requires Normalise(fold, legal, a) != ""
    ensures Tokens(Normalise(fold, legal, a)) != {}
  {
    var tokens := NormalisedIsJoined(fold, legal, a);
    assert tokens != [];
    JoinedHasToken(tokens);
  }

  // The name score is symmetric, lies in [0,1], and is 1 exactly when both names normalise to the
  // same non-empty name.
  lemma NameScoreLaws(fold: string -> string, legal: set<string>, a: string, b: string)
    ensures 0.0 <= NameScore(fold, legal, a, b) <= 1.0
    ensures NameScore(fold, legal, a, b) == NameScore(fold, legal, b, a)
    ensures NameScore(fold, legal, a, b) == 1.0
       <==> Normalise(fold, legal, a) == Normalise(fold, legal, b) != ""
  {
    var left, right := Normalise(fold, legal, a), Normalise(fold, legal, b);
    BlendRange(left, right);
    if left == right && left != "" {
      NormalisedHasToken(fold, legal, a);
    }
  }
}
