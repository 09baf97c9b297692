/** Platform and directory domains: a domain is listed by itself or by a parent with at least two labels. */
module Domains {
  import opened Text

  // The domain is in the set, or lies below a member that is itself not a bare top-level name.
  ghost predicate Listed(domain: string, names: set<string>) {
    || domain in names
    || exists sub, parent :: parent in names && '.' in parent && domain == sub + "." + parent
  }

  lemma JoinCut(parts: seq<string>, i: nat)
    requires 0 < i < |parts|
    ensures Join(parts, '.') == Join(parts[..i], '.') + "." + Join(parts[i..], '.')
  {
    JoinAppend(parts[..i], parts[i..], '.');
    assert parts[..i] + parts[i..] == parts;
  }

  lemma DotInJoin(parts: seq<string>)
    requires |parts| >= 2
    ensures '.' in Join(parts, '.')
  {
    assert Join(parts, '.') == parts[0] + ['.'] + Join(parts[1..], '.');
  }

  // A parent of a domain is the join of its last labels.
  lemma ParentIsSuffix(domain: string, sub: string, parent: string) returns (i: nat)
    requires domain == sub + "." + parent && '.' in parent
    ensures var parts := Split(domain, '.'); 1 <= i < |parts| - 1 && parent == Join(parts[i..], '.')
  {
    SplitAppend(sub, '.', parent);
    assert domain == sub + ['.'] + parent;
    var parts := Split(domain, '.');
    i := |Split(sub, '.')|;
    assert parts[i..] == Split(parent, '.');
    JoinSplit(parent, '.');
    DottedHasTwoLabels(parent);
  }

  lemma {:induction false} DottedHasTwoLabels(s: string)
    requires '.' in s
    ensures |Split(s, '.')| >= 2
  {
    if s[0] != '.' {
      assert s == [s[0]] + s[1..];
      DottedHasTwoLabels(s[1..]);
    }
  }

  method InSet(domain: string, names: set<string>) returns (found: bool)
    ensures found <==> Listed(domain, names)
  {
    if domain in names { return true; }
    var parts := Split(domain, '.');
    JoinSplit(domain, '.');
    var i := 1;
    while i < |parts| - 1
      invariant 1 <= i
      invariant forall k | 1 <= k < i && k < |parts| - 1 :: Join(parts[k..], '.') !in names
    {
      if Join(parts[i..], '.') in names {
        JoinCut(parts, i);
        DotInJoin(parts[i..]);
        return true;
      }
      i := i + 1;
    }
    found := false;
    if sub, parent :| parent in names && '.' in parent && domain == sub + "." + parent {
      var k := ParentIsSuffix(domain, sub, parent);
    }
  }
}
