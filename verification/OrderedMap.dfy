/** Grouping rows by key in an insertion-ordered map, as the worker does with ECMAScript maps. */
module OrderedMap {
  datatype Entry<+V> = Entry(key: string, value: V)

  // How rows are grouped: their key, the first value of a key, and how a later row changes it.
  datatype Scheme<!R, !V> = Scheme(key: R -> string, first: R -> V, merge: (V, R) -> V)

  // Index of a key, or |m|.
  function Position<V>(m: seq<Entry<V>>, k: string): (p: nat)
    ensures p <= |m| && (p < |m| ==> m[p].key == k)
    ensures forall i | 0 <= i < p :: m[i].key != k
  {
    PositionFrom(m, k, 0)
  }

  function PositionFrom<V>(m: seq<Entry<V>>, k: string, i: nat): (p: nat)
    requires i <= |m|
    ensures i <= p <= |m| && (p < |m| ==> m[p].key == k)
    ensures forall j | i <= j < p :: m[j].key != k
    decreases |m| - i
  {
    if i == |m| || m[i].key == k then i else PositionFrom(m, k, i + 1)
  }

  predicate Distinct<V>(m: seq<Entry<V>>) {
    forall i, j | 0 <= i < j < |m| :: m[i].key != m[j].key
  }

  function Absorb<R, V>(s: Scheme<R, V>, m: seq<Entry<V>>, row: R): seq<Entry<V>> {
    var k := s.key(row);
    var p := Position(m, k);
    if p == |m| then m + [Entry(k, s.first(row))]
    else m[p := Entry(k, s.merge(m[p].value, row))]
  }

  function Group<R, V>(s: Scheme<R, V>, rows: seq<R>): seq<Entry<V>> {
    if rows == [] then [] else Absorb(s, Group(s, rows[..|rows| - 1]), rows[|rows| - 1])
  }

  // The rows of one key, and their combined value.
  function RowsOf<R, V>(s: Scheme<R, V>, rows: seq<R>, k: string): seq<R> {
    if rows == [] then []
    else RowsOf(s, rows[..|rows| - 1], k) + if s.key(rows[|rows| - 1]) == k then [rows[|rows| - 1]] else []
  }

  function Reduce<R, V>(s: Scheme<R, V>, rows: seq<R>): V
    requires rows != []
  {
    if |rows| == 1 then s.first(rows[0])
    else s.merge(Reduce(s, rows[..|rows| - 1]), rows[|rows| - 1])
  }

  // Keys in the order in which they first occur.
  function FirstSeen<R, V>(s: Scheme<R, V>, rows: seq<R>): seq<string> {
    if rows == [] then []
    else
      var before := FirstSeen(s, rows[..|rows| - 1]);
      var k := s.key(rows[|rows| - 1]);
      if k in before then before else before + [k]
  }

  function Keys<V>(m: seq<Entry<V>>): (ks: seq<string>)
    ensures |ks| == |m| && forall i | 0 <= i < |m| :: ks[i] == m[i].key
  {
    seq(|m|, i requires 0 <= i < |m| => m[i].key)
  }

  // Key k holds exactly what its rows combine to.
  ghost predicate Holds<R, V>(s: Scheme<R, V>, rows: seq<R>, m: seq<Entry<V>>, k: string) {
    var mine, p := RowsOf(s, rows, k), Position(m, k);
    (p < |m| <==> mine != []) && (p < |m| ==> m[p].value == Reduce(s, mine))
  }

  lemma PositionUnique<V>(m: seq<Entry<V>>, i: nat)
    requires Distinct(m) && i < |m|
    ensures Position(m, m[i].key) == i
  {
  }

  lemma AbsorbPosition<R, V>(s: Scheme<R, V>, m: seq<Entry<V>>, row: R, k: string)
    requires Distinct(m)
    ensures var m', p := Absorb(s, m, row), Position(m, k);
            && Distinct(m')
            && Position(m', k) == (if p < |m| || s.key(row) == k then p else |m'|)
  {
    var m' := Absorb(s, m, row);
    var p, p' := Position(m, k), Position(m', k);
    assert forall i | 0 <= i < |m| :: m'[i].key == m[i].key;
    if p < |m| {
      assert m'[p].key == k;
    } else if s.key(row) == k {
      assert m'[|m|].key == k;
    }
  }

  lemma AbsorbHolds<R, V>(s: Scheme<R, V>, rows: seq<R>, m: seq<Entry<V>>, row: R, k: string)
    requires Distinct(m) && Holds(s, rows, m, k)
    ensures Holds(s, rows + [row], Absorb(s, m, row), k)
  {
    AbsorbPosition(s, m, row, k);
    assert (rows + [row])[..|rows|] == rows;
    var mine := RowsOf(s, rows, k);
    if s.key(row) != k {
      assert mine + [] == mine;
    } else if mine == [] {
      assert mine + [row] == [row];
    } else {
      ReduceSnoc(s, mine, row);
    }
  }

  // Grouping conserves the rows: every key of a row appears exactly once, holding the combination of
  // all rows of that key, and no other key appears.
  lemma {:induction false} GroupHolds<R, V>(s: Scheme<R, V>, rows: seq<R>, k: string)
    ensures Distinct(Group(s, rows)) && Holds(s, rows, Group(s, rows), k)
    decreases |rows|
  {
    if rows != [] {
      var n := |rows| - 1;
      GroupHolds(s, rows[..n], k);
      AbsorbHolds(s, rows[..n], Group(s, rows[..n]), rows[n], k);
      AbsorbPosition(s, Group(s, rows[..n]), rows[n], k);
      assert rows[..n] + [rows[n]] == rows;
    }
  }

  // And keeps the keys in first-seen order.
  lemma {:induction false} GroupOrder<R, V>(s: Scheme<R, V>, rows: seq<R>)
    ensures Keys(Group(s, rows)) == FirstSeen(s, rows)
    decreases |rows|
  {
    if rows != [] {
      var n := |rows| - 1;
      GroupOrder(s, rows[..n]);
      var m, k := Group(s, rows[..n]), s.key(rows[n]);
      var p := Position(m, k);
      if p < |m| {
        assert Keys(m)[p] == k;
      } else {
        assert k !in Keys(m);
      }
    }
  }

  lemma {:induction false} SeenKeys<R, V>(s: Scheme<R, V>, rows: seq<R>, i: nat)
    requires i < |rows|
    ensures s.key(rows[i]) in FirstSeen(s, rows)
    decreases |rows|
  {
    if i < |rows| - 1 {
      SeenKeys(s, rows[..|rows| - 1], i);
    }
  }

  // Row i is the first with key k.
  predicate FirstAt<R, V>(s: Scheme<R, V>, rows: seq<R>, i: nat, k: string) {
    i < |rows| && s.key(rows[i]) == k && forall j | 0 <= j < i :: s.key(rows[j]) != k
  }

  // Where each key is first seen.
  lemma {:induction false} FirstPlaces<R, V>(s: Scheme<R, V>, rows: seq<R>) returns (ns: seq<nat>)
    ensures |ns| == |FirstSeen(s, rows)| && forall i, j | 0 <= i < j < |ns| :: ns[i] < ns[j]
    ensures forall i | 0 <= i < |ns| :: FirstAt(s, rows, ns[i], FirstSeen(s, rows)[i])
    decreases |rows|
  {
    ns := [];
    if rows != [] {
      var n := |rows| - 1;
      ns := FirstPlaces(s, rows[..n]);
      forall i | 0 <= i < |ns| ensures FirstAt(s, rows, ns[i], FirstSeen(s, rows)[i]) {
        assert FirstAt(s, rows[..n], ns[i], FirstSeen(s, rows[..n])[i]);
      }
      if s.key(rows[n]) !in FirstSeen(s, rows[..n]) {
        forall j | 0 <= j < n ensures s.key(rows[j]) != s.key(rows[n]) {
          SeenKeys(s, rows[..n], j);
        }
        ns := ns + [n];
      }
    }
  }

  lemma {:induction false} RowsOfMembers<R, V>(s: Scheme<R, V>, rows: seq<R>, k: string, row: R)
    ensures row in RowsOf(s, rows, k) <==> row in rows && s.key(row) == k
    decreases |rows|
  {
    if rows != [] {
      var n := |rows| - 1;
      RowsOfMembers(s, rows[..n], k, row);
      assert rows == rows[..n] + [rows[n]];
    }
  }

  // The value of each entry, by index.
  lemma EntryValue<R, V>(s: Scheme<R, V>, rows: seq<R>, i: nat)
    requires i < |Group(s, rows)|
    ensures var m := Group(s, rows);
            RowsOf(s, rows, m[i].key) != [] && m[i].value == Reduce(s, RowsOf(s, rows, m[i].key))
  {
    var m := Group(s, rows);
    GroupHolds(s, rows, m[i].key);
    PositionUnique(m, i);
  }

  lemma GroupExtend<R, V>(s: Scheme<R, V>, rows: seq<R>, i: nat)
    requires i < |rows|
    ensures Group(s, rows[..i + 1]) == Absorb(s, Group(s, rows[..i]), rows[i])
  {
    assert rows[..i + 1][..i] == rows[..i];
  }

  // A fold over rows from the left, seen from its last row.
  lemma ReduceSnoc<R, V>(s: Scheme<R, V>, rows: seq<R>, row: R)
    requires rows != []
    ensures Reduce(s, rows + [row]) == s.merge(Reduce(s, rows), row)
  {
    assert (rows + [row])[..|rows|] == rows;
  }

  lemma GroupSingle<R, V>(s: Scheme<R, V>, row: R)
    ensures Group(s, [row]) == [Entry(s.key(row), s.first(row))]
  {
    assert [row][..0] == [];
    assert Group(s, []) == [];
    assert Absorb(s, [], row) == [] + [Entry(s.key(row), s.first(row))];
  }

  lemma GroupPair<R, V>(s: Scheme<R, V>, x: R, y: R)
    requires s.key(x) != s.key(y)
    ensures Group(s, [x, y]) == [Entry(s.key(x), s.first(x)), Entry(s.key(y), s.first(y))]
  {
    assert [x, y][..1] == [x];
    GroupSingle(s, x);
    var m := Group(s, [x]);
    assert Absorb(s, m, y) == m + [Entry(s.key(y), s.first(y))];
  }
}
