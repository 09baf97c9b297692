/** Leaving out candidates, and that it makes no difference whether this is done before or after sorting. */
module NoiseFilter {
  import opened StableSort
  import opened Resolver
  import opened ResolverTheorems

  // The candidates that are not noise, in order.
  function Keep(cs: seq<Candidate>, noise: set<string>): seq<Candidate> {
    if cs == [] then [] else (if cs[0].url in noise then [] else [cs[0]]) + Keep(cs[1..], noise)
  }

  lemma {:induction false} KeepAppend(a: seq<Candidate>, b: seq<Candidate>, noise: set<string>)
    ensures Keep(a + b, noise) == Keep(a, noise) + Keep(b, noise)
  {
    if a == [] {
      assert a + b == b;
    } else {
      assert (a + b)[1..] == a[1..] + b;
      KeepAppend(a[1..], b, noise);
    }
  }

  lemma KeepLast(cs: seq<Candidate>, noise: set<string>)
    requires cs != []
    ensures var n := |cs| - 1;
            Keep(cs, noise) == Keep(cs[..n], noise) + if cs[n].url in noise then [] else [cs[n]]
  {
    var n := |cs| - 1;
    assert cs == cs[..n] + [cs[n]];
    KeepAppend(cs[..n], [cs[n]], noise);
    assert [cs[n]][1..] == [];
  }

  lemma {:induction false} KeepMembers(cs: seq<Candidate>, noise: set<string>, c: Candidate)
    ensures c in Keep(cs, noise) <==> c in cs && c.url !in noise
  {
    if cs != [] {
      KeepMembers(cs[1..], noise, c);
      assert cs == [cs[0]] + cs[1..];
    }
  }

  lemma KeepOne(c: Candidate, noise: set<string>)
    ensures Keep([c], noise) == if c.url in noise then [] else [c]
  {
    assert [c][1..] == [];
  }

  lemma AppendWeakest(s: seq<Candidate>, x: Candidate)
    requires forall c | c in s :: c.score >= x.score
    ensures Insert(Stronger(), s, x) == s + [x]
  {
    if s != [] {
      assert s[|s| - 1] in s;
    }
  }

  lemma InsertLast(s: seq<Candidate>, x: Candidate, noise: set<string>)
    requires Descending(s) && (s != [] ==> s[|s| - 1].score >= x.score)
    ensures Keep(Insert(Stronger(), s, x), noise)
         == if x.url in noise then Keep(s, noise) else Insert(Stronger(), Keep(s, noise), x)
  {
    KeepAppend(s, [x], noise);
    KeepOne(x, noise);
    forall c | c in Keep(s, noise) ensures c.score >= x.score {
      KeepMembers(s, noise, c);
    }
    AppendWeakest(Keep(s, noise), x);
  }

  lemma {:induction false} InsertKeeps(s: seq<Candidate>, x: Candidate, noise: set<string>)
    requires Descending(s)
    ensures Keep(Insert(Stronger(), s, x), noise)
         == if x.url in noise then Keep(s, noise) else Insert(Stronger(), Keep(s, noise), x)
  {
    var n := |s| - 1;
    if s == [] || s[n].score >= x.score {
      InsertLast(s, x, noise);
    } else {
      InsertKeeps(s[..n], x, noise);
      var inner, k := Insert(Stronger(), s[..n], x), Keep(s[..n], noise);
      KeepLast(s, noise);
      KeepAppend(inner, [s[n]], noise);
      KeepOne(s[n], noise);
      assert Keep(Insert(Stronger(), s, x), noise) == Keep(inner, noise) + Keep([s[n]], noise);
      if x.url in noise {
        assert Keep(inner, noise) == k;
      } else if s[n].url in noise {
        assert k == Keep(s, noise);
      } else {
        InsertBeforeLast(k, s[n], x);
        assert Keep(s, noise) == k + [s[n]];
      }
    }
  }

  lemma InsertBeforeLast(s: seq<Candidate>, last: Candidate, x: Candidate)
    requires x.score > last.score
    ensures Insert(Stronger(), s + [last], x) == Insert(Stronger(), s, x) + [last]
  {
    assert (s + [last])[..|s|] == s;
  }

  lemma {:induction false} SortKeeps(cs: seq<Candidate>, noise: set<string>)
    ensures Sort(Stronger(), Keep(cs, noise)) == Keep(Sort(Stronger(), cs), noise)
    decreases |cs|
  {
    if cs != [] {
      var n := |cs| - 1;
      SortKeeps(cs[..n], noise);
      var sorted, k := Sort(Stronger(), cs[..n]), Keep(cs[..n], noise);
      SortDescends(cs[..n]);
      InsertKeeps(sorted, cs[n], noise);
      KeepLast(cs, noise);
      assert Sort(Stronger(), cs) == Insert(Stronger(), sorted, cs[n]);
      if cs[n].url in noise {
        assert Keep(cs, noise) == k;
      } else {
        SortAppend(k, cs[n]);
        assert Keep(cs, noise) == k + [cs[n]];
      }
    }
  }

  lemma SortAppend(cs: seq<Candidate>, c: Candidate)
    ensures Sort(Stronger(), cs + [c]) == Insert(Stronger(), Sort(Stronger(), cs), c)
  {
    assert (cs + [c])[..|cs|] == cs;
  }
}
