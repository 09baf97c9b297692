/** Choice of the links worth following on a page: best weight per URL, heaviest first, at most twenty. */
module LinkExtraction {
  import opened OrderedMap
  import opened StableSort
  import opened RankedMap

  // An internal link that survived the filters, with its weight.
  datatype Anchor = Anchor(url: string, weight: int)

  const MAX_LINKS := 20

  function Larger(x: int, y: int): int { if x >= y then x else y }

  function ByUrl(): Scheme<Anchor, int> {
    Scheme((a: Anchor) => a.url, (a: Anchor) => a.weight, (w: int, a: Anchor) => Larger(w, a.weight))
  }

  function Heavier(): (Entry<int>, Entry<int>) -> bool {
    (x: Entry<int>, y: Entry<int>) => x.value > y.value
  }

  function Ranked(anchors: seq<Anchor>): seq<Entry<int>> {
    Sort(Heavier(), Group(ByUrl(), anchors))
  }

  function TopLinks(anchors: seq<Anchor>): (links: seq<string>)
    ensures |links| <= 20
  {
    Keys(Take(Ranked(anchors), MAX_LINKS))
  }

  method ExtractInternalLinks(anchors: seq<Anchor>) returns (links: seq<string>)
    ensures links == TopLinks(anchors)
  {
    var scored: seq<Entry<int>> := [];
    for i := 0 to |anchors|
      invariant scored == Group(ByUrl(), anchors[..i])
    {
      GroupExtend(ByUrl(), anchors, i);
      var a := anchors[i];
      var p := Position(scored, a.url);
      if p == |scored| {
        scored := scored + [Entry(a.url, a.weight)];
      } else {
        scored := scored[p := Entry(a.url, Larger(scored[p].value, a.weight))];
      }
    }
    assert anchors[..|anchors|] == anchors;
    links := Keys(Take(Sort(Heavier(), scored), MAX_LINKS));
  }

  // The weight a URL competes with: the largest among its anchors.
  ghost predicate IsBestWeight(anchors: seq<Anchor>, url: string, w: int) {
    && (exists a :: a in anchors && a.url == url && a.weight == w)
    && (forall a | a in anchors && a.url == url :: a.weight <= w)
  }

  lemma {:induction false} ReduceIsLargest(rows: seq<Anchor>)
    requires rows != []
    ensures var w := Reduce(ByUrl(), rows);
            (exists a :: a in rows && a.weight == w) && forall a | a in rows :: a.weight <= w
    decreases |rows|
  {
    var n := |rows| - 1;
    assert rows[n] in rows;
    if n > 0 {
      ReduceIsLargest(rows[..n]);
      assert rows == rows[..n] + [rows[n]];
      var a: Anchor :| a in rows[..n] && a.weight == Reduce(ByUrl(), rows[..n]);
      assert a in rows;
    }
  }

  lemma EntryIsBest(anchors: seq<Anchor>, i: nat)
    requires i < |Group(ByUrl(), anchors)|
    ensures var e := Group(ByUrl(), anchors)[i]; IsBestWeight(anchors, e.key, e.value)
  {
    var e := Group(ByUrl(), anchors)[i];
    var mine := RowsOf(ByUrl(), anchors, e.key);
    EntryValue(ByUrl(), anchors, i);
    ReduceIsLargest(mine);
    forall a ensures a in mine <==> a in anchors && a.url == e.key {
      RowsOfMembers(ByUrl(), anchors, e.key, a);
    }
  }

  lemma HeavierIsOrder()
    ensures StrictWeak(Heavier())
  {
  }

  // The ranking lists each URL of the page once, with its best weight.
  lemma RankedSpec(anchors: seq<Anchor>)
    ensures Distinct(Ranked(anchors))
    ensures forall e | e in Ranked(anchors) :: IsBestWeight(anchors, e.key, e.value)
    ensures forall a | a in anchors :: exists e :: e in Ranked(anchors) && e.key == a.url
  {
    var m := Group(ByUrl(), anchors);
    HeavierIsOrder();
    GroupHolds(ByUrl(), anchors, "");
    SortedMap(Heavier(), m);
    forall e | e in Ranked(anchors) ensures IsBestWeight(anchors, e.key, e.value) {
      var i :| 0 <= i < |m| && m[i] == e;
      EntryIsBest(anchors, i);
    }
    forall a | a in anchors ensures exists e :: e in Ranked(anchors) && e.key == a.url {
      var i := RankOf(anchors, a);
      assert Ranked(anchors)[i] in Ranked(anchors);
    }
  }

  lemma BestWeightIsUnique(anchors: seq<Anchor>, url: string, w: int, v: int)
    requires IsBestWeight(anchors, url, w) && IsBestWeight(anchors, url, v)
    ensures w == v
  {
    var a: Anchor :| a in anchors && a.url == url && a.weight == w;
    var b: Anchor :| b in anchors && b.url == url && b.weight == v;
  }

  // The ranking's entry for a URL.
  lemma RankedEntry(anchors: seq<Anchor>, url: string, w: int)
    requires IsBestWeight(anchors, url, w)
    ensures Entry(url, w) in Ranked(anchors) && Entry(url, w) in Group(ByUrl(), anchors)
  {
    RankedSpec(anchors);
    var a: Anchor :| a in anchors && a.url == url && a.weight == w;
    var e: Entry<int> :| e in Ranked(anchors) && e.key == url;
    BestWeightIsUnique(anchors, url, w, e.value);
    HeavierIsOrder();
    SortMembers(Heavier(), Group(ByUrl(), anchors), e);
  }

  lemma FollowedEntry(anchors: seq<Anchor>, kept: string, w: int)
    requires IsBestWeight(anchors, kept, w)
    ensures kept in TopLinks(anchors) <==> Entry(kept, w) in Take(Ranked(anchors), MAX_LINKS)
  {
    var r := Ranked(anchors);
    var t := Take(r, MAX_LINKS);
    RankedSpec(anchors);
    if kept in TopLinks(anchors) {
      var i :| 0 <= i < |TopLinks(anchors)| && TopLinks(anchors)[i] == kept;
      assert t[i] in r;
      BestWeightIsUnique(anchors, kept, w, t[i].value);
    }
    if Entry(kept, w) in t {
      var i :| 0 <= i < |t| && t[i] == Entry(kept, w);
      assert TopLinks(anchors)[i] == kept;
    }
  }

  // No link left behind outweighs one that is followed, and one is left behind only when twenty are
  // followed.
  lemma TopLinksAreHeaviest(anchors: seq<Anchor>, kept: string, dropped: string, w: int, v: int)
    requires kept in TopLinks(anchors) && dropped !in TopLinks(anchors)
    requires IsBestWeight(anchors, kept, w) && IsBestWeight(anchors, dropped, v)
    ensures w >= v && |TopLinks(anchors)| == MAX_LINKS
  {
    FollowedEntry(anchors, kept, w);
    FollowedEntry(anchors, dropped, v);
    RankedEntry(anchors, dropped, v);
    HeavierIsOrder();
    GroupHolds(ByUrl(), anchors, "");
    TakenFirst(Heavier(), Group(ByUrl(), anchors), MAX_LINKS, Entry(kept, w), Entry(dropped, v));
  }

  // Below twenty nothing is left behind.
  lemma FewLinksAreAll(anchors: seq<Anchor>, a: Anchor)
    requires a in anchors && |TopLinks(anchors)| < MAX_LINKS
    ensures a.url in TopLinks(anchors)
  {
    var i := RankOf(anchors, a);
    UncutKeys(Ranked(anchors), MAX_LINKS, i);
  }

  lemma RankOf(anchors: seq<Anchor>, a: Anchor) returns (i: nat)
    requires a in anchors
    ensures i < |Ranked(anchors)| && Ranked(anchors)[i].key == a.url
  {
    var m := Group(ByUrl(), anchors);
    HeavierIsOrder();
    GroupHolds(ByUrl(), anchors, a.url);
    RowsOfMembers(ByUrl(), anchors, a.url, a);
    var e := m[Position(m, a.url)];
    SortMembers(Heavier(), m, e);
    i :| 0 <= i < |Ranked(anchors)| && Ranked(anchors)[i] == e;
  }

  lemma UncutKeys(m: seq<Entry<int>>, n: nat, i: nat)
    requires i < |m| && |Keys(Take(m, n))| < n
    ensures m[i].key in Keys(Take(m, n))
  {
    assert Keys(Take(m, n))[i] == m[i].key;
  }

  lemma KeysDiffer(m: seq<Entry<int>>, n: nat)
    requires Distinct(m)
    ensures forall i, j | 0 <= i < j < |Keys(Take(m, n))| :: Keys(Take(m, n))[i] != Keys(Take(m, n))[j]
  {
  }

  lemma TopLinksAreDistinct(anchors: seq<Anchor>)
    ensures forall i, j | 0 <= i < j < |TopLinks(anchors)| :: TopLinks(anchors)[i] != TopLinks(anchors)[j]
  {
    RankedSpec(anchors);
    KeysDiffer(Ranked(anchors), MAX_LINKS);
  }

  // Followed links are links of the page, each once.
  lemma TopLinksAreLinks(anchors: seq<Anchor>)
    ensures forall l | l in TopLinks(anchors) :: exists a :: a in anchors && a.url == l
    ensures forall i, j | 0 <= i < j < |TopLinks(anchors)| :: TopLinks(anchors)[i] != TopLinks(anchors)[j]
  {
    TopLinksAreDistinct(anchors);
    RankedSpec(anchors);
    forall l | l in TopLinks(anchors) ensures exists a :: a in anchors && a.url == l {
      var i :| 0 <= i < |TopLinks(anchors)| && TopLinks(anchors)[i] == l;
      assert Ranked(anchors)[i] in Ranked(anchors);
    }
  }

  // Anchor a is the first with this URL.
  predicate FirstAnchor(anchors: seq<Anchor>, a: nat, url: string) {
    a < |anchors| && anchors[a].url == url && forall b | 0 <= b < a :: anchors[b].url != url
  }

  // The followed links come in falling weight, and those of equal weight in the order of the page.
  lemma LinksInOrder(anchors: seq<Anchor>, i: nat, j: nat) returns (w: int, v: int, a: nat, b: nat)
    requires i < j < |TopLinks(anchors)|
    ensures IsBestWeight(anchors, TopLinks(anchors)[i], w) && IsBestWeight(anchors, TopLinks(anchors)[j], v)
    ensures FirstAnchor(anchors, a, TopLinks(anchors)[i]) && FirstAnchor(anchors, b, TopLinks(anchors)[j])
    ensures w > v || (w == v && a < b)
  {
    var r := Ranked(anchors);
    assert TopLinks(anchors)[i] == r[i].key && TopLinks(anchors)[j] == r[j].key;
    w, v := WeightsFall(anchors, i, j);
    a, b := PageOrder(anchors, i, j);
  }

  lemma WeightsFall(anchors: seq<Anchor>, i: nat, j: nat) returns (w: int, v: int)
    requires i < j < |Ranked(anchors)|
    ensures w == Ranked(anchors)[i].value && v == Ranked(anchors)[j].value && w >= v
    ensures IsBestWeight(anchors, Ranked(anchors)[i].key, w) && IsBestWeight(anchors, Ranked(anchors)[j].key, v)
  {
    var r := Ranked(anchors);
    RankedSpec(anchors);
    HeavierIsOrder();
    SortSpec(Heavier(), Group(ByUrl(), anchors));
    assert r[i] in r && r[j] in r && !Heavier()(r[j], r[i]);
    w, v := r[i].value, r[j].value;
  }

  lemma PageOrder(anchors: seq<Anchor>, i: nat, j: nat) returns (a: nat, b: nat)
    requires i < j < |Ranked(anchors)|
    ensures var r := Ranked(anchors);
            && FirstAnchor(anchors, a, r[i].key) && FirstAnchor(anchors, b, r[j].key)
            && (r[i].value == r[j].value ==> a < b)
  {
    var p, q := EntryPlaces(anchors, i, j);
    GroupOrder(ByUrl(), anchors);
    var ns := FirstPlaces(ByUrl(), anchors);
    a, b := ns[p], ns[q];
    FirstAtIsFirst(anchors, a, Ranked(anchors)[i].key);
    FirstAtIsFirst(anchors, b, Ranked(anchors)[j].key);
  }

  lemma FirstAtIsFirst(anchors: seq<Anchor>, a: nat, url: string)
    ensures FirstAt(ByUrl(), anchors, a, url) <==> FirstAnchor(anchors, a, url)
  {
  }

  lemma EntryPlaces(anchors: seq<Anchor>, i: nat, j: nat) returns (p: nat, q: nat)
    requires i < j < |Ranked(anchors)|
    ensures var m, r := Group(ByUrl(), anchors), Ranked(anchors);
            && p < |m| && q < |m| && m[p] == r[i] && m[q] == r[j]
            && (r[i].value == r[j].value ==> p < q)
  {
    var m, r := Group(ByUrl(), anchors), Ranked(anchors);
    HeavierIsOrder();
    if r[i].value == r[j].value {
      p, q := TiesKeepOrder(Heavier(), m, i, j);
    } else {
      SortMembers(Heavier(), m, r[i]);
      SortMembers(Heavier(), m, r[j]);
      p :| p < |m| && m[p] == r[i];
      q :| q < |m| && m[q] == r[j];
    }
  }
}
