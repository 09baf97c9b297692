/** Sorting the entries of an insertion-ordered map and keeping the first few. */
module RankedMap {
  import opened OrderedMap
  import opened StableSort

  lemma TwiceInSequence<T>(s: seq<T>, i: nat, j: nat)
    requires i < j < |s| && s[i] == s[j]
    ensures multiset(s)[s[i]] >= 2
  {
    assert s == s[..j] + [s[j]] + s[j + 1..];
    assert s[i] in s[..j];
  }

  lemma OnceInSequence<T>(s: seq<T>, i: nat)
    requires i < |s| && forall k | 0 <= k < |s| && k != i :: s[k] != s[i]
    ensures multiset(s)[s[i]] == 1
  {
    assert s == s[..i] + [s[i]] + s[i + 1..];
    assert s[i] !in multiset(s[..i]) && s[i] !in multiset(s[i + 1..]);
  }

  lemma SortedKeysDiffer<V(!new)>(before: (Entry<V>, Entry<V>) -> bool, m: seq<Entry<V>>, i: nat, j: nat)
    requires StrictWeak(before) && Distinct(m) && i < j < |Sort(before, m)|
    ensures Sort(before, m)[i].key != Sort(before, m)[j].key
  {
    var r := Sort(before, m);
    SortSpec(before, m);
    SortMembers(before, m, r[i]);
    SortMembers(before, m, r[j]);
    var p :| 0 <= p < |m| && m[p] == r[i];
    var q :| 0 <= q < |m| && m[q] == r[j];
    OnceInSequence(m, p);
    if r[i] == r[j] {
      TwiceInSequence(r, i, j);
    }
  }

  // Sorting a map rearranges its entries and keeps its keys distinct.
  lemma SortedMap<V(!new)>(before: (Entry<V>, Entry<V>) -> bool, m: seq<Entry<V>>)
    requires StrictWeak(before) && Distinct(m)
    ensures Distinct(Sort(before, m)) && Ordered(before, Sort(before, m)) && |Sort(before, m)| == |m|
    ensures forall e :: e in Sort(before, m) <==> e in m
  {
    SortSpec(before, m);
    forall i, j | 0 <= i < j < |Sort(before, m)| ensures Sort(before, m)[i].key != Sort(before, m)[j].key {
      SortedKeysDiffer(before, m, i, j);
    }
    forall e ensures e in Sort(before, m) <==> e in m {
      SortMembers(before, m, e);
    }
  }

  lemma EarlyIsKept<T>(s: seq<T>, n: nat, j: nat)
    requires j < |s|
    ensures j < n ==> s[j] in Take(s, n)
  {
    if j < n {
      assert Take(s, n)[j] == s[j];
    }
  }

  // No entry left out precedes one that was kept, and either everything or exactly n are kept.
  lemma TakenFirst<V(!new)>(before: (Entry<V>, Entry<V>) -> bool, m: seq<Entry<V>>, n: nat, x: Entry<V>, y: Entry<V>)
    requires StrictWeak(before) && Distinct(m)
    requires x in Take(Sort(before, m), n) && y in m && y !in Take(Sort(before, m), n)
    ensures !before(y, x) && |Take(Sort(before, m), n)| == n && x in m
  {
    var r := Sort(before, m);
    SortedMap(before, m);
    var kept := Take(r, n);
    var i :| 0 <= i < |kept| && kept[i] == x;
    assert r[i] == x;
    var j :| 0 <= j < |r| && r[j] == y;
    EarlyIsKept(r, n, j);
  }
}
