/** The stable sort of ECMAScript arrays, specified for any strict weak order. */
module StableSort {

  ghost predicate StrictWeak<T(!new)>(before: (T, T) -> bool) {
    && (forall x, y :: before(x, y) ==> !before(y, x))
    && (forall x, y, z :: before(x, z) ==> before(x, y) || before(y, z))
  }

  predicate Tied<T>(before: (T, T) -> bool, x: T, y: T) {
    !before(x, y) && !before(y, x)
  }

  ghost predicate Ordered<T>(before: (T, T) -> bool, s: seq<T>) {
    forall i, j | 0 <= i < j < |s| :: !before(s[j], s[i])
  }

  // x goes behind everything it need not precede.
  function Insert<T>(before: (T, T) -> bool, s: seq<T>, x: T): seq<T> {
    if s == [] || !before(x, s[|s| - 1]) then s + [x]
    else Insert(before, s[..|s| - 1], x) + [s[|s| - 1]]
  }

  function Sort<T>(before: (T, T) -> bool, s: seq<T>): seq<T> {
    if s == [] then [] else Insert(before, Sort(before, s[..|s| - 1]), s[|s| - 1])
  }

  // The members of s tied with a pivot, in order.
  function TiedWith<T>(before: (T, T) -> bool, s: seq<T>, pivot: T): seq<T> {
    if s == [] then []
    else TiedWith(before, s[..|s| - 1], pivot) + if Tied(before, s[|s| - 1], pivot) then [s[|s| - 1]] else []
  }

  lemma {:induction false} InsertPermutes<T>(before: (T, T) -> bool, s: seq<T>, x: T)
    ensures var r := Insert(before, s, x); |r| == |s| + 1 && multiset(r) == multiset(s) + multiset{x}
  {
    if s != [] && before(x, s[|s| - 1]) {
      var n := |s| - 1;
      assert s == s[..n] + [s[n]];
      InsertPermutes(before, s[..n], x);
    }
  }

  lemma InsertMember<T>(before: (T, T) -> bool, s: seq<T>, x: T, i: nat)
    requires i < |Insert(before, s, x)|
    ensures Insert(before, s, x)[i] in s || Insert(before, s, x)[i] == x
  {
    InsertPermutes(before, s, x);
    assert Insert(before, s, x)[i] in multiset(s) + multiset{x};
  }

  lemma OrderedAppend<T(!new)>(before: (T, T) -> bool, s: seq<T>, x: T)
    requires Ordered(before, s) && forall i | 0 <= i < |s| :: !before(x, s[i])
    ensures Ordered(before, s + [x])
  {
  }

  lemma {:induction false} InsertSpec<T(!new)>(before: (T, T) -> bool, s: seq<T>, x: T)
    requires StrictWeak(before) && Ordered(before, s)
    ensures var r := Insert(before, s, x);
            |r| == |s| + 1 && multiset(r) == multiset(s) + multiset{x} && Ordered(before, r)
  {
    InsertPermutes(before, s, x);
    if s != [] && before(x, s[|s| - 1]) {
      var n := |s| - 1;
      InsertSpec(before, s[..n], x);
      var r := Insert(before, s[..n], x);
      forall i | 0 <= i < |r| ensures !before(s[n], r[i]) {
        InsertMember(before, s[..n], x, i);
      }
      OrderedAppend(before, r, s[n]);
    } else {
      forall i | 0 <= i < |s| ensures !before(x, s[i]) {
        assert i < |s| - 1 ==> !before(s[|s| - 1], s[i]);
      }
      OrderedAppend(before, s, x);
    }
  }

  lemma {:induction false} InsertKeepsTies<T(!new)>(before: (T, T) -> bool, s: seq<T>, x: T, pivot: T)
    requires StrictWeak(before)
    ensures TiedWith(before, Insert(before, s, x), pivot) == TiedWith(before, s + [x], pivot)
  {
    assert (s + [x])[..|s|] == s;
    if s != [] && before(x, s[|s| - 1]) {
      var n := |s| - 1;
      InsertKeepsTies(before, s[..n], x, pivot);
      assert (s[..n] + [x])[..n] == s[..n];
      var r := Insert(before, s[..n], x);
      assert (r + [s[n]])[..|r|] == r;
    }
  }

  lemma {:induction false} SortPermutes<T(!new)>(before: (T, T) -> bool, s: seq<T>)
    requires StrictWeak(before)
    ensures var r := Sort(before, s);
            |r| == |s| && multiset(r) == multiset(s) && Ordered(before, r)
  {
    if s != [] {
      var n := |s| - 1;
      SortPermutes(before, s[..n]);
      assert s == s[..n] + [s[n]];
      InsertSpec(before, Sort(before, s[..n]), s[n]);
    }
  }

  lemma {:induction false} SortKeepsTies<T(!new)>(before: (T, T) -> bool, s: seq<T>, pivot: T)
    requires StrictWeak(before)
    ensures TiedWith(before, Sort(before, s), pivot) == TiedWith(before, s, pivot)
  {
    if s != [] {
      var n := |s| - 1;
      SortKeepsTies(before, s[..n], pivot);
      var r := Sort(before, s[..n]);
      InsertKeepsTies(before, r, s[n], pivot);
      assert (r + [s[n]])[..|r|] == r;
    }
  }

  // A permutation, in order, with ties left in their original order.
  lemma SortSpec<T(!new)>(before: (T, T) -> bool, s: seq<T>)
    requires StrictWeak(before)
    ensures var r := Sort(before, s);
            |r| == |s| && multiset(r) == multiset(s) && Ordered(before, r)
    ensures forall pivot :: TiedWith(before, Sort(before, s), pivot) == TiedWith(before, s, pivot)
  {
    SortPermutes(before, s);
    forall pivot ensures TiedWith(before, Sort(before, s), pivot) == TiedWith(before, s, pivot) {
      SortKeepsTies(before, s, pivot);
    }
  }

  lemma {:induction false} InsertHead<T(!new)>(before: (T, T) -> bool, s: seq<T>, x: T)
    requires StrictWeak(before) && Ordered(before, s)
    ensures Insert(before, s, x)[0] == if s != [] && !before(x, s[0]) then s[0] else x
  {
    if s != [] && before(x, s[|s| - 1]) {
      var n := |s| - 1;
      InsertHead(before, s[..n], x);
      assert n > 0 ==> s[..n][0] == s[0];
      InsertSpec(before, s[..n], x);
    } else if s != [] {
      assert !before(s[|s| - 1], s[0]);
    }
  }

  lemma SortOrders<T(!new)>(before: (T, T) -> bool, s: seq<T>)
    requires StrictWeak(before)
    ensures |Sort(before, s)| == |s| && Ordered(before, Sort(before, s))
  {
    SortSpec(before, s);
  }

  // Nothing precedes s[i], and s[i] precedes everything before it.
  ghost predicate IsFirst<T>(before: (T, T) -> bool, s: seq<T>, i: nat) {
    && i < |s|
    && (forall k | 0 <= k < |s| :: !before(s[k], s[i]))
    && (forall k | 0 <= k < i :: before(s[i], s[k]))
  }

  lemma FirstExtends<T(!new)>(before: (T, T) -> bool, s: seq<T>, x: T, j: nat)
    requires StrictWeak(before) && IsFirst(before, s, j)
    ensures IsFirst(before, s + [x], if before(x, s[j]) then |s| else j)
  {
    var t := s + [x];
    if before(x, s[j]) {
      forall k | 0 <= k < |s| ensures before(x, t[k]) {
        assert !before(s[k], s[j]);
      }
    }
  }

  // The head of a sorted sequence is the first of the members that nothing precedes.
  lemma {:induction false} SortHead<T(!new)>(before: (T, T) -> bool, s: seq<T>) returns (i: nat)
    requires StrictWeak(before) && s != []
    ensures IsFirst(before, s, i) && Sort(before, s) != [] && Sort(before, s)[0] == s[i]
    decreases |s|
  {
    var n := |s| - 1;
    var sorted := Sort(before, s[..n]);
    SortOrders(before, s[..n]);
    InsertHead(before, sorted, s[n]);
    if n == 0 {
      i := 0;
    } else {
      var j := SortHead(before, s[..n]);
      FirstExtends(before, s[..n], s[n], j);
      assert s[..n] + [s[n]] == s;
      i := if before(s[n], s[j]) then n else j;
    }
  }

  lemma SortMembers<T(!new)>(before: (T, T) -> bool, s: seq<T>, x: T)
    requires StrictWeak(before)
    ensures x in Sort(before, s) <==> x in s
  {
    SortSpec(before, s);
    assert x in multiset(Sort(before, s)) <==> x in multiset(s);
  }

  // Two members tied with a pivot, and where they stand among all that are.
  lemma {:induction false} TiedPlaces<T(!new)>(before: (T, T) -> bool, s: seq<T>, pivot: T, i: nat, j: nat)
    returns (p: nat, q: nat)
    requires i < j < |s| && Tied(before, s[i], pivot) && Tied(before, s[j], pivot)
    ensures var t := TiedWith(before, s, pivot); p < q < |t| && t[p] == s[i] && t[q] == s[j]
    decreases |s|
  {
    var n := |s| - 1;
    if j < n {
      p, q := TiedPlaces(before, s[..n], pivot, i, j);
    } else {
      p := TiedPlace(before, s[..n], pivot, i);
      q := |TiedWith(before, s[..n], pivot)|;
    }
  }

  lemma {:induction false} TiedPlace<T(!new)>(before: (T, T) -> bool, s: seq<T>, pivot: T, i: nat) returns (p: nat)
    requires i < |s| && Tied(before, s[i], pivot)
    ensures var t := TiedWith(before, s, pivot); p < |t| && t[p] == s[i]
    decreases |s|
  {
    var n := |s| - 1;
    if i < n {
      p := TiedPlace(before, s[..n], pivot, i);
    } else {
      p := |TiedWith(before, s[..n], pivot)|;
    }
  }

  lemma {:induction false} TiedSources<T(!new)>(before: (T, T) -> bool, s: seq<T>, pivot: T, p: nat, q: nat)
    returns (i: nat, j: nat)
    requires p < q < |TiedWith(before, s, pivot)|
    ensures var t := TiedWith(before, s, pivot); i < j < |s| && s[i] == t[p] && s[j] == t[q]
    decreases |s|
  {
    var n := |s| - 1;
    if q < |TiedWith(before, s[..n], pivot)| {
      i, j := TiedSources(before, s[..n], pivot, p, q);
    } else {
      i := TiedSource(before, s[..n], pivot, p);
      j := n;
    }
  }

  lemma {:induction false} TiedSource<T(!new)>(before: (T, T) -> bool, s: seq<T>, pivot: T, p: nat) returns (i: nat)
    requires p < |TiedWith(before, s, pivot)|
    ensures i < |s| && s[i] == TiedWith(before, s, pivot)[p]
    decreases |s|
  {
    var n := |s| - 1;
    if p < |TiedWith(before, s[..n], pivot)| {
      i := TiedSource(before, s[..n], pivot, p);
    } else {
      i := n;
    }
  }

  // Tied members leave the sort in the order in which they went in.
  lemma TiesKeepOrder<T(!new)>(before: (T, T) -> bool, s: seq<T>, i: nat, j: nat) returns (a: nat, b: nat)
    requires StrictWeak(before) && i < j < |Sort(before, s)|
    requires Tied(before, Sort(before, s)[i], Sort(before, s)[j])
    ensures a < b < |s| && s[a] == Sort(before, s)[i] && s[b] == Sort(before, s)[j]
  {
    var pivot := Sort(before, s)[j];
    SortKeepsTies(before, s, pivot);
    var p, q := TiedPlaces(before, Sort(before, s), pivot, i, j);
    a, b := TiedSources(before, s, pivot, p, q);
  }

  function Take<T>(s: seq<T>, n: nat): seq<T> {
    if |s| <= n then s else s[..n]
  }

  lemma SortSingle<T>(before: (T, T) -> bool, x: T)
    ensures Sort(before, [x]) == [x]
  {
    assert [x][..0] == [];
    assert Sort(before, []) == [] && Insert(before, [], x) == [] + [x];
  }

  lemma SortPair<T>(before: (T, T) -> bool, x: T, y: T)
    ensures Sort(before, [x, y]) == if before(y, x) then [y, x] else [x, y]
  {
    assert [x, y][..1] == [x] && [x][..0] == [];
    SortSingle(before, x);
    assert Insert(before, [], y) == [] + [y];
  }
}
