/** The two-row dynamic program for string similarity, edit scripts, and the metric it computes. */
module EditDistance {

  // ---- Edit scripts ----------------------------------------------------------------------

  // One step of a script read from the front of the source string.
  datatype Edit = Keep | Replace(c: char) | Insert(c: char) | Delete

  function Cost(script: seq<Edit>): nat {
    if script == [] then 0 else (if script[0] == Keep then 0 else 1) + Cost(script[1..])
  }

  // The script turns a into b.
  predicate Rewrites(script: seq<Edit>, a: string, b: string)
    decreases |script|
  {
    if script == [] then a == [] && b == []
    else match script[0]
      case Keep => a != [] && b != [] && a[0] == b[0] && Rewrites(script[1..], a[1..], b[1..])
      case Replace(c) => a != [] && b != [] && b[0] == c && Rewrites(script[1..], a[1..], b[1..])
      case Insert(c) => b != [] && b[0] == c && Rewrites(script[1..], a, b[1..])
      case Delete => a != [] && Rewrites(script[1..], a[1..], b)
  }

  lemma {:induction false} CostAppend(s: seq<Edit>, t: seq<Edit>)
    ensures Cost(s + t) == Cost(s) + Cost(t)
    decreases |s|
  {
    if s == [] {
      assert s + t == t;
    } else {
      assert (s + t)[1..] == s[1..] + t;
      CostAppend(s[1..], t);
    }
  }

  lemma {:induction false} RewritesAppend(s: seq<Edit>, t: seq<Edit>, a1: string, a2: string, b1: string, b2: string)
    requires Rewrites(s, a1, b1) && Rewrites(t, a2, b2)
    ensures Rewrites(s + t, a1 + a2, b1 + b2)
    decreases |s|
  {
    if s == [] {
      assert s + t == t && a1 + a2 == a2 && b1 + b2 == b2;
    } else {
      assert (s + t)[1..] == s[1..] + t;
      var a, b := if s[0].Insert? then a1 else a1[1..], if s[0] == Delete then b1 else b1[1..];
      RewritesAppend(s[1..], t, a, a2, b, b2);
      assert !s[0].Insert? ==> (a1 + a2)[1..] == a + a2;
      assert s[0] != Delete ==> (b1 + b2)[1..] == b + b2;
    }
  }

  // ---- The recurrence --------------------------------------------------------------------

  function Min(x: nat, y: nat): nat { if x <= y then x else y }

  function Max(x: nat, y: nat): nat { if x >= y then x else y }

  function Step(a: char, b: char): nat { if a == b then 0 else 1 }

  // Distance between the first i characters of a and the first j of b.
  function Lev(a: string, b: string, i: nat, j: nat): nat
    requires i <= |a| && j <= |b|
  {
    if i == 0 then j
    else if j == 0 then i
    else Min(Min(Lev(a, b, i, j - 1) + 1, Lev(a, b, i - 1, j) + 1), Lev(a, b, i - 1, j - 1) + Step(a[i - 1], b[j - 1]))
  }

  function Distance(a: string, b: string): nat { Lev(a, b, |a|, |b|) }

  lemma Extend(script: seq<Edit>, edit: Edit, a: string, b: string, x: string, y: string) returns (longer: seq<Edit>)
    requires Rewrites(script, a, b) && |x| <= 1 && |y| <= 1 && Rewrites([edit], x, y)
    ensures Rewrites(longer, a + x, b + y) && Cost(longer) == Cost(script) + if edit == Keep then 0 else 1
  {
    longer := script + [edit];
    RewritesAppend(script, [edit], a, x, b, y);
    CostAppend(script, [edit]);
  }

  // The last character of both strings is kept or replaced.
  lemma ExtendBoth(script: seq<Edit>, a: string, b: string, i: nat, j: nat) returns (longer: seq<Edit>)
    requires 0 < i <= |a| && 0 < j <= |b| && Rewrites(script, a[..i - 1], b[..j - 1])
    ensures Rewrites(longer, a[..i], b[..j]) && Cost(longer) == Cost(script) + Step(a[i - 1], b[j - 1])
  {
    var edit := if a[i - 1] == b[j - 1] then Keep else Replace(b[j - 1]);
    longer := Extend(script, edit, a[..i - 1], b[..j - 1], [a[i - 1]], [b[j - 1]]);
    assert a[..i - 1] + [a[i - 1]] == a[..i] && b[..j - 1] + [b[j - 1]] == b[..j];
  }

  // Some script achieves the value of the recurrence.
  lemma {:induction false} Achieved(a: string, b: string, i: nat, j: nat) returns (script: seq<Edit>)
    requires i <= |a| && j <= |b|
    ensures Rewrites(script, a[..i], b[..j]) && Cost(script) == Lev(a, b, i, j)
    decreases i + j
  {
    if i == 0 && j == 0 {
      script := [];
    } else if i == 0 || (j > 0 && Lev(a, b, i, j) == Lev(a, b, i, j - 1) + 1) {
      script := Achieved(a, b, i, j - 1);
      script := Extend(script, Insert(b[j - 1]), a[..i], b[..j - 1], "", [b[j - 1]]);
      assert a[..i] + "" == a[..i] && b[..j - 1] + [b[j - 1]] == b[..j];
    } else if j == 0 || Lev(a, b, i, j) == Lev(a, b, i - 1, j) + 1 {
      script := Achieved(a, b, i - 1, j);
      script := Extend(script, Delete, a[..i - 1], b[..j], [a[i - 1]], "");
      assert b[..j] + "" == b[..j] && a[..i - 1] + [a[i - 1]] == a[..i];
    } else {
      script := Achieved(a, b, i - 1, j - 1);
      script := ExtendBoth(script, a, b, i, j);
    }
  }

  // Growing either string by one character changes the distance by at most one.
  lemma Neighbours(a: string, b: string, i: nat, j: nat)
    requires i <= |a| && j <= |b|
    ensures i > 0 ==> Lev(a, b, i, j) <= Lev(a, b, i - 1, j) + 1
    ensures j > 0 ==> Lev(a, b, i, j) <= Lev(a, b, i, j - 1) + 1
    ensures i > 0 && j > 0 ==> Lev(a, b, i, j) <= Lev(a, b, i - 1, j - 1) + Step(a[i - 1], b[j - 1])
  {
  }

  // No script is cheaper: a script from i, j to the ends pays for what it adds to the distance.
  lemma {:induction false} LowerBound(script: seq<Edit>, a: string, b: string, i: nat, j: nat)
    requires i <= |a| && j <= |b| && Rewrites(script, a[i..], b[j..])
    ensures Distance(a, b) <= Lev(a, b, i, j) + Cost(script)
    decreases |script|
  {
    if script != [] {
      var i', j' := AfterEdit(script, a, b, i, j);
      LowerBound(script[1..], a, b, i', j');
    }
  }

  // Where the first edit of a script leads, and what it pays for.
  lemma AfterEdit(script: seq<Edit>, a: string, b: string, i: nat, j: nat) returns (i': nat, j': nat)
    requires i <= |a| && j <= |b| && script != [] && Rewrites(script, a[i..], b[j..])
    ensures i <= i' <= |a| && j <= j' <= |b| && Rewrites(script[1..], a[i'..], b[j'..])
    ensures Lev(a, b, i', j') + Cost(script[1..]) <= Lev(a, b, i, j) + Cost(script)
  {
    i', j' := if script[0].Insert? then i else i + 1, if script[0] == Delete then j else j + 1;
    assert !script[0].Insert? ==> a[i..][1..] == a[i'..] && a[i..][0] == a[i];
    assert script[0] != Delete ==> b[j..][1..] == b[j'..] && b[j..][0] == b[j];
    Neighbours(a, b, i', j');
  }

  // The recurrence is the length of a shortest edit script.
  lemma DistanceIsShortestScript(a: string, b: string)
    ensures exists script :: Rewrites(script, a, b) && Cost(script) == Distance(a, b)
    ensures forall script :: Rewrites(script, a, b) ==> Distance(a, b) <= Cost(script)
  {
    var best := BestScript(a, b);
    forall script | Rewrites(script, a, b) ensures Distance(a, b) <= Cost(script) {
      AtMostCost(script, a, b);
    }
  }

  // ---- The distance is a metric ----------------------------------------------------------

  lemma Bounds(a: string, b: string, i: nat, j: nat)
    requires i <= |a| && j <= |b|
    ensures Lev(a, b, i, j) <= Max(i, j)
    ensures i <= j + Lev(a, b, i, j) && j <= i + Lev(a, b, i, j)
  {
    AtMostLonger(a, b, i, j);
    AtLeastLeft(a, b, i, j);
    AtLeastRight(a, b, i, j);
  }

  lemma {:induction false} AtMostLonger(a: string, b: string, i: nat, j: nat)
    requires i <= |a| && j <= |b|
    ensures Lev(a, b, i, j) <= Max(i, j)
  {
    if i > 0 && j > 0 {
      AtMostLonger(a, b, i - 1, j - 1);
    }
  }

  lemma {:induction false} AtLeastLeft(a: string, b: string, i: nat, j: nat)
    requires i <= |a| && j <= |b|
    ensures i <= j + Lev(a, b, i, j)
    decreases i + j
  {
    if i > 0 && j > 0 {
      AtLeastLeft(a, b, i, j - 1);
      AtLeastLeft(a, b, i - 1, j);
      AtLeastLeft(a, b, i - 1, j - 1);
    }
  }

  lemma {:induction false} AtLeastRight(a: string, b: string, i: nat, j: nat)
    requires i <= |a| && j <= |b|
    ensures j <= i + Lev(a, b, i, j)
    decreases i + j
  {
    if i > 0 && j > 0 {
      AtLeastRight(a, b, i, j - 1);
      AtLeastRight(a, b, i - 1, j);
      AtLeastRight(a, b, i - 1, j - 1);
    }
  }

  // Reading a script backwards in direction gives one of the same cost.
  lemma {:induction false} Inverse(script: seq<Edit>, a: string, b: string) returns (back: seq<Edit>)
    requires Rewrites(script, a, b)
    ensures Rewrites(back, b, a) && Cost(back) == Cost(script)
    decreases |script|
  {
    if script == [] {
      back := [];
    } else {
      var rest, edit: Edit;
      match script[0] {
        case Keep => rest := Inverse(script[1..], a[1..], b[1..]); edit := Keep;
        case Replace(_) => rest := Inverse(script[1..], a[1..], b[1..]); edit := Replace(a[0]);
        case Insert(_) => rest := Inverse(script[1..], a, b[1..]); edit := Delete;
        case Delete => rest := Inverse(script[1..], a[1..], b); edit := Insert(a[0]);
      }
      back := [edit] + rest;
      assert back[1..] == rest;
    }
  }

  lemma Prepend(edit: Edit, rest: seq<Edit>)
    ensures ([edit] + rest)[1..] == rest && Cost([edit] + rest) == Cost(rest) + if edit == Keep then 0 else 1
  {
    assert ([edit] + rest)[1..] == rest;
  }

  // Two scripts in a row can be done by one that costs no more than both.
  lemma {:induction false} Compose(s: seq<Edit>, t: seq<Edit>, a: string, b: string, c: string) returns (u: seq<Edit>)
    requires Rewrites(s, a, b) && Rewrites(t, b, c)
    ensures Rewrites(u, a, c) && Cost(u) <= Cost(s) + Cost(t)
    decreases |s| + |t|
  {
    if s == [] {
      u := t;
    } else if s[0] == Delete {
      var rest := Compose(s[1..], t, a[1..], b, c);
      Prepend(Delete, rest);
      u := [Delete] + rest;
    } else if t[0].Insert? {
      var rest := Compose(s, t[1..], a, b, c[1..]);
      Prepend(t[0], rest);
      u := [t[0]] + rest;
    } else if s[0].Insert? {
      if t[0] == Delete {
        u := Compose(s[1..], t[1..], a, b[1..], c);
      } else {
        var rest := Compose(s[1..], t[1..], a, b[1..], c[1..]);
        Prepend(Insert(c[0]), rest);
        u := [Insert(c[0])] + rest;
      }
    } else if t[0] == Delete {
      var rest := Compose(s[1..], t[1..], a[1..], b[1..], c);
      Prepend(Delete, rest);
      u := [Delete] + rest;
    } else {
      var rest := Compose(s[1..], t[1..], a[1..], b[1..], c[1..]);
      var edit := if a[0] == c[0] then Keep else Replace(c[0]);
      Prepend(edit, rest);
      u := [edit] + rest;
    }
  }

  lemma {:induction false} ZeroIffEqual(a: string, b: string, i: nat, j: nat)
    requires i <= |a| && j <= |b|
    ensures Lev(a, b, i, j) == 0 <==> a[..i] == b[..j]
    decreases i + j
  {
    if i > 0 && j > 0 {
      ZeroIffEqual(a, b, i - 1, j - 1);
      assert a[..i] == a[..i - 1] + [a[i - 1]] && b[..j] == b[..j - 1] + [b[j - 1]];
    } else {
      assert |a[..i]| == i && |b[..j]| == j;
    }
  }

  lemma BestScript(a: string, b: string) returns (script: seq<Edit>)
    ensures Rewrites(script, a, b) && Cost(script) == Distance(a, b)
  {
    script := Achieved(a, b, |a|, |b|);
    assert a[..|a|] == a && b[..|b|] == b;
  }

  lemma AtMostCost(script: seq<Edit>, a: string, b: string)
    requires Rewrites(script, a, b)
    ensures Distance(a, b) <= Cost(script)
  {
    assert a[0..] == a && b[0..] == b;
    LowerBound(script, a, b, 0, 0);
  }

  lemma DistanceIsMetric(a: string, b: string, c: string)
    ensures Distance(a, b) == 0 <==> a == b
    ensures Distance(a, b) == Distance(b, a)
    ensures Distance(a, c) <= Distance(a, b) + Distance(b, c)
    ensures |a| - |b| <= Distance(a, b) && |b| - |a| <= Distance(a, b) <= Max(|a|, |b|)
  {
    ZeroIffEqual(a, b, |a|, |b|);
    assert a[..|a|] == a && b[..|b|] == b;
    Bounds(a, b, |a|, |b|);
    var ab := BestScript(a, b);
    var ba := BestScript(b, a);
    var bc := BestScript(b, c);
    var backAb := Inverse(ab, a, b);
    var backBa := Inverse(ba, b, a);
    var ac := Compose(ab, bc, a, b, c);
    AtMostCost(backAb, b, a);
    AtMostCost(backBa, a, b);
    AtMostCost(ac, a, c);
  }

  // ---- The two-row loop ------------------------------------------------------------------

  function Similarity(a: string, b: string): real {
    if a == b then 1.0 else 1.0 - Distance(a, b) as real / Max(|a|, |b|) as real
  }

  lemma LevCell(a: string, b: string, i: nat, j: nat)
    requires 1 <= i <= |a| && 1 <= j <= |b|
    ensures var cost := if a[i - 1] == b[j - 1] then 0 else 1;
            Lev(a, b, i, j)
            == Min(Min(Lev(a, b, i, j - 1) + 1, Lev(a, b, i - 1, j) + 1), Lev(a, b, i - 1, j - 1) + cost)
  {
  }

  // One row of the table from the row before it.
  method FillRow(a: string, b: string, i: nat, previous: array<nat>, current: array<nat>)
    requires 1 <= i <= |a| && previous.Length == current.Length == |b| + 1 && previous != current
    requires forall j | 0 <= j <= |b| :: previous[j] == Lev(a, b, i - 1, j)
    modifies current
    ensures forall j | 0 <= j <= |b| :: current[j] == Lev(a, b, i, j)
  {
    current[0] := i;
    for j := 1 to |b| + 1
      invariant forall k | 0 <= k < j :: current[k] == Lev(a, b, i, k)
    {
      var cost := if a[i - 1] == b[j - 1] then 0 else 1;
      LevCell(a, b, i, j);
      current[j] := Min(Min(current[j - 1] + 1, previous[j] + 1), previous[j - 1] + cost);
    }
  }

  lemma EmptyIsFar(a: string, b: string)
    requires a != b && (a == "" || b == "")
    ensures Similarity(a, b) == 0.0
  {
    var m := Max(|a|, |b|);
    Bounds(a, b, |a|, |b|);
    assert Distance(a, b) == m && m > 0;
    Share(m, m);
  }

  lemma Quotient(x: real, y: real, q: real)
    requires y > 0.0
    ensures x / y <= q <==> x <= q * y
    ensures x / y >= q <==> x >= q * y
  {
    var p := x / y;
    assert p * y == x;
    if p < q {
      assert (q - p) * y > 0.0;
    } else if p > q {
      assert (p - q) * y > 0.0;
    }
  }

  // A part over a whole.
  lemma Share(d: nat, m: nat)
    requires d <= m && m > 0
    ensures var q := d as real / m as real;
            0.0 <= q <= 1.0 && (q == 0.0 <==> d == 0) && (q == 1.0 <==> d == m)
  {
    Quotient(d as real, m as real, 0.0);
    Quotient(d as real, m as real, 1.0);
  }

  method StringSimilarity(a: string, b: string) returns (similarity: real)
    ensures similarity == Similarity(a, b)
  {
    if a == b { return 1.0; }
    if a == "" || b == "" {
      EmptyIsFar(a, b);
      return 0.0;
    }
    var previous, current := new nat[|b| + 1], new nat[|b| + 1];
    for j := 0 to |b| + 1
      invariant forall k | 0 <= k < j :: previous[k] == k
    {
      previous[j] := j;
    }
    for i := 1 to |a| + 1
      invariant previous != current && previous.Length == current.Length == |b| + 1
      invariant fresh(previous) && fresh(current)
      invariant forall j | 0 <= j <= |b| :: previous[j] == Lev(a, b, i - 1, j)
    {
      FillRow(a, b, i, previous, current);
      previous, current := current, previous;
    }
    var distance := previous[|b|];
    similarity := 1.0 - distance as real / Max(|a|, |b|) as real;
  }

  lemma SimilarityLaws(a: string, b: string)
    ensures 0.0 <= Similarity(a, b) <= 1.0
    ensures Similarity(a, b) == 1.0 <==> a == b
    ensures Similarity(a, b) == Similarity(b, a)
  {
    DistanceIsMetric(a, b, a);
    if a != b {
      Share(Distance(a, b), Max(|a|, |b|));
    }
  }

  ghost predicate IsShortest(script: seq<Edit>, a: string, b: string) {
    Rewrites(script, a, b) && forall other | Rewrites(other, a, b) :: Cost(script) <= Cost(other)
  }

  lemma ShortestCost(script: seq<Edit>, a: string, b: string)
    requires IsShortest(script, a, b)
    ensures Cost(script) == Distance(a, b)
  {
    var best := BestScript(a, b);
    AtMostCost(script, a, b);
  }

  lemma Undivided(d: real, m: real)
    requires m > 0.0
    ensures (1.0 - d / m) * m == m - d
  {
  }

  // Similarity is the share of the longer string that a shortest script leaves alone.
  lemma SimilarityIsShare(a: string, b: string, script: seq<Edit>)
    requires a != b && IsShortest(script, a, b)
    ensures var longer := if |a| >= |b| then |a| else |b|;
            Similarity(a, b) * longer as real == (longer - Cost(script)) as real
  {
    ShortestCost(script, a, b);
    assert Max(|a|, |b|) > 0;
    Undivided(Distance(a, b) as real, Max(|a|, |b|) as real);
  }
}
