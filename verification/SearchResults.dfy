/** Normalisation of raw search rows: one hit per URL, most agreed-on first, cut to a limit. */
module SearchResults {
  import opened Wrappers
  import opened Text
  import opened OrderedMap
  import opened StableSort
  import opened RankedMap

  // A raw row; absent fields read as empty.
  datatype Row = Row(url: string, title: string, content: string, engine: string, engines: seq<string>)

  // A row that survived the URL test, with its rank among those.
  datatype Ranked = Ranked(url: string, title: string, content: string, names: seq<string>, rank: nat)

  datatype Hit = Hit(title: string, snippet: string, rank: nat, engines: seq<string>)

  datatype SearchHit = SearchHit(url: string, title: string, snippet: string, engine: string, rank: nat)

  predicate IsHttp(url: string) {
    var low := Lower(url);
    "http://" <= low || "https://" <= low
  }

  function NonBlank(names: seq<string>): seq<string> {
    if names == [] then []
    else NonBlank(names[..|names| - 1]) + if names[|names| - 1] != "" then [names[|names| - 1]] else []
  }

  // A row as it is used: its texts trimmed, and the engines it names.
  datatype Usable = Usable(url: string, title: string, content: string, names: seq<string>)

  // None for a row without an http or https URL.
  function ReadRow(row: Row): Option<Usable> {
    var url := Trim(row.url);
    if url == "" || !IsHttp(url) then None
    else Some(Usable(url, Trim(row.title), Trim(row.content), NonBlank([row.engine] + row.engines)))
  }

  function ReadRows(rows: seq<Row>): (found: seq<Option<Usable>>)
    ensures |found| == |rows| && forall i | 0 <= i < |rows| :: found[i] == ReadRow(rows[i])
  {
    seq(|rows|, i requires 0 <= i < |rows| => ReadRow(rows[i]))
  }

  function Number(found: seq<Option<Usable>>): seq<Ranked> {
    if found == [] then []
    else
      var n := |found| - 1;
      var before := Number(found[..n]);
      match found[n]
      case None => before
      case Some(u) => before + [Ranked(u.url, u.title, u.content, u.names, |before| + 1)]
  }

  // Insertion into an ordered set.
  function AddAll(known: seq<string>, names: seq<string>): seq<string> {
    if names == [] then known
    else
      var n := |names| - 1;
      var before := AddAll(known, names[..n]);
      if names[n] in before then before else before + [names[n]]
  }

  function FirstHit(r: Ranked): Hit {
    Hit(r.title, r.content, r.rank, AddAll([], r.names))
  }

  function MergeHit(h: Hit, r: Ranked): Hit {
    var snippet := if h.snippet == "" && r.content != "" then r.content else h.snippet;
    Hit(h.title, snippet, h.rank, AddAll(h.engines, r.names))
  }

  function ByUrl(): Scheme<Ranked, Hit> {
    Scheme((r: Ranked) => r.url, (r: Ranked) => FirstHit(r), (h: Hit, r: Ranked) => MergeHit(h, r))
  }

  function Before(): (Entry<Hit>, Entry<Hit>) -> bool {
    (x: Entry<Hit>, y: Entry<Hit>) =>
      |x.value.engines| > |y.value.engines| || (|x.value.engines| == |y.value.engines| && x.value.rank < y.value.rank)
  }

  function Render(kept: seq<Entry<Hit>>): (hits: seq<SearchHit>)
    ensures |hits| == |kept|
    ensures forall i | 0 <= i < |kept| ::
              hits[i] == SearchHit(kept[i].key, kept[i].value.title, kept[i].value.snippet,
                  Join(kept[i].value.engines, '+'), i + 1)
  {
    seq(|kept|, i requires 0 <= i < |kept| =>
      SearchHit(kept[i].key, kept[i].value.title, kept[i].value.snippet, Join(kept[i].value.engines, '+'), i + 1))
  }

  function Best(found: seq<Option<Usable>>, limit: nat): seq<Entry<Hit>> {
    Take(Sort(Before(), Group(ByUrl(), Number(found))), limit)
  }

  method ReadOne(row: Row) returns (read: Option<Usable>)
    ensures read == ReadRow(row)
  {
    var url := Trim(row.url);
    if url == "" { return None; }
    if !IsHttp(url) { return None; }
    read := Some(Usable(url, Trim(row.title), Trim(row.content), NonBlank([row.engine] + row.engines)));
  }

  lemma GroupNext(rows: seq<Ranked>, row: Ranked)
    ensures var m := Group(ByUrl(), rows);
            var p := Position(m, row.url);
            Group(ByUrl(), rows + [row])
            == if p < |m| then m[p := Entry(row.url, MergeHit(m[p].value, row))]
                else m + [Entry(row.url, FirstHit(row))]
  {
    assert (rows + [row])[..|rows|] == rows;
  }

  lemma NumberNext(found: seq<Option<Usable>>, i: nat)
    requires i < |found|
    ensures var before := Number(found[..i]);
            Number(found[..i + 1]) == match found[i]
              case None => before
              case Some(u) => before + [Ranked(u.url, u.title, u.content, u.names, |before| + 1)]
  {
    assert found[..i + 1][..i] == found[..i];
  }

  // One usable row, added to the map.
  method AddRow(byUrl: seq<Entry<Hit>>, row: Ranked, ghost before: seq<Ranked>) returns (more: seq<Entry<Hit>>)
    requires byUrl == Group(ByUrl(), before)
    ensures more == Group(ByUrl(), before + [row])
  {
    GroupNext(before, row);
    var p := Position(byUrl, row.url);
    if p < |byUrl| {
      more := byUrl[p := Entry(row.url, MergeHit(byUrl[p].value, row))];
    } else {
      more := byUrl + [Entry(row.url, FirstHit(row))];
    }
  }

  method NormaliseResults(rows: seq<Row>, limit: nat) returns (hits: seq<SearchHit>)
    ensures hits == Render(Best(ReadRows(rows), limit))
  {
    var byUrl: seq<Entry<Hit>> := [];
    var rank := 0;
    ghost var found, numbered := ReadRows(rows), [];
    for i := 0 to |rows|
      invariant numbered == Number(found[..i])
      invariant byUrl == Group(ByUrl(), numbered) && rank == |numbered|
    {
      NumberNext(found, i);
      var read := ReadOne(rows[i]);
      if read.None? { continue; }
      rank := rank + 1;
      var row := Ranked(read.value.url, read.value.title, read.value.content, read.value.names, rank);
      byUrl := AddRow(byUrl, row, numbered);
      numbered := numbered + [row];
    }
    assert found[..|rows|] == found;
    hits := Render(Take(Sort(Before(), byUrl), limit));
  }

  // ---- What the rows say of a URL --------------------------------------------------------

  function EnginesOf(rows: seq<Ranked>, url: string): set<string> {
    set r, e | r in rows && r.url == url && e in r.names :: e
  }

  // The rank of its first row.
  function FirstRank(rows: seq<Ranked>, url: string): nat
    decreases |rows|
  {
    if rows == [] then 0
    else if rows[0].url == url then rows[0].rank
    else FirstRank(rows[1..], url)
  }

  function Members(names: seq<string>): set<string> { set e | e in names }

  lemma {:induction false} AddAllSpec(known: seq<string>, names: seq<string>)
    requires NoRepeats(known)
    ensures NoRepeats(AddAll(known, names)) && Members(AddAll(known, names)) == Members(known) + Members(names)
    decreases |names|
  {
    if names != [] {
      var n := |names| - 1;
      AddAllSpec(known, names[..n]);
      var before := AddAll(known, names[..n]);
      assert names == names[..n] + [names[n]];
      assert Members(names) == Members(names[..n]) + {names[n]};
      assert Members(before + [names[n]]) == Members(before) + {names[n]};
      assert names[n] in before <==> names[n] in Members(before);
    }
  }

  lemma {:induction false} CountMembers(names: seq<string>)
    requires NoRepeats(names)
    ensures |Members(names)| == |names|
    decreases |names|
  {
    if names != [] {
      var n := |names| - 1;
      CountMembers(names[..n]);
      assert Members(names) == Members(names[..n]) + {names[n]};
      assert names[n] !in Members(names[..n]);
    }
  }

  function Named(rows: seq<Ranked>): set<string> {
    set r, e | r in rows && e in r.names :: e
  }

  lemma {:induction false} ReduceSpec(rows: seq<Ranked>)
    requires rows != []
    ensures var h := Reduce(ByUrl(), rows);
            h.rank == rows[0].rank && NoRepeats(h.engines) && Members(h.engines) == Named(rows)
    decreases |rows|
  {
    var n := |rows| - 1;
    if n == 0 {
      AddAllSpec([], rows[0].names);
      assert Named(rows) == Members(rows[0].names);
    } else {
      ReduceSpec(rows[..n]);
      AddAllSpec(Reduce(ByUrl(), rows[..n]).engines, rows[n].names);
      assert rows == rows[..n] + [rows[n]];
      assert Named(rows) == Named(rows[..n]) + Members(rows[n].names);
    }
  }

  // A hit has the title of its first row, and the first text its rows offer.
  lemma {:induction false} ReduceText(rows: seq<Ranked>)
    requires rows != []
    ensures var h := Reduce(ByUrl(), rows);
            && h.title == rows[0].title
            && (h.snippet == "" ==> forall i | 0 <= i < |rows| :: rows[i].content == "")
            && (h.snippet != "" ==> exists i :: 0 <= i < |rows| && h.snippet == rows[i].content
                                      && forall j | 0 <= j < i :: rows[j].content == "")
    decreases |rows|
  {
    var n := |rows| - 1;
    if n > 0 {
      ReduceText(rows[..n]);
      var h := Reduce(ByUrl(), rows[..n]);
      if h.snippet != "" {
        var i :| 0 <= i < n && h.snippet == rows[..n][i].content && forall j | 0 <= j < i :: rows[..n][j].content == "";
        assert forall j | 0 <= j <= i :: rows[..n][j] == rows[j];
      } else {
        assert forall j | 0 <= j < n :: rows[..n][j] == rows[j];
      }
    }
  }

  lemma {:induction false} FirstRowOf(rows: seq<Ranked>, url: string)
    requires RowsOf(ByUrl(), rows, url) != []
    ensures RowsOf(ByUrl(), rows, url)[0].rank == FirstRank(rows, url)
    ensures exists r :: r in rows && r.url == url && r.rank == FirstRank(rows, url)
    decreases |rows|
  {
    RowsOfCons(rows, url);
    if rows[0].url == url {
      assert rows[0] in rows;
    } else {
      FirstRowOf(rows[1..], url);
    }
  }

  lemma {:induction false} RowsOfCons(rows: seq<Ranked>, url: string)
    requires rows != []
    ensures RowsOf(ByUrl(), rows, url)
         == (if rows[0].url == url then [rows[0]] else []) + RowsOf(ByUrl(), rows[1..], url)
    decreases |rows|
  {
    var n := |rows| - 1;
    if n > 0 {
      RowsOfCons(rows[..n], url);
      assert rows[..n][1..] == rows[1..][..n - 1];
    } else {
      assert rows[..0] == [] && rows[1..] == [];
    }
  }

  // What an entry of the map says of its URL.
  lemma EntrySpec(rows: seq<Ranked>, e: Entry<Hit>)
    requires e in Group(ByUrl(), rows)
    ensures NoRepeats(e.value.engines) && Members(e.value.engines) == EnginesOf(rows, e.key)
    ensures |e.value.engines| == |EnginesOf(rows, e.key)|
    ensures e.value.rank == FirstRank(rows, e.key)
    ensures exists r :: r in rows && r.url == e.key && r.rank == e.value.rank
  {
    var m := Group(ByUrl(), rows);
    var i :| 0 <= i < |m| && m[i] == e;
    var mine := RowsOf(ByUrl(), rows, e.key);
    EntryValue(ByUrl(), rows, i);
    ReduceSpec(mine);
    FirstRowOf(rows, e.key);
    forall r ensures r in mine <==> r in rows && r.url == e.key {
      RowsOfMembers(ByUrl(), rows, e.key, r);
    }
    assert Named(mine) == EnginesOf(rows, e.key);
    CountMembers(e.value.engines);
  }

  lemma {:induction false} NumberRanks(found: seq<Option<Usable>>)
    ensures forall i | 0 <= i < |Number(found)| :: Number(found)[i].rank == i + 1
    decreases |found|
  {
    if found != [] {
      NumberRanks(found[..|found| - 1]);
    }
  }

  predicate SameRow(u: Option<Usable>, r: Ranked) {
    u.Some? && u.value.url == r.url && u.value.names == r.names
  }

  lemma {:induction false} NumberedIsRead(found: seq<Option<Usable>>, r: Ranked)
    requires r in Number(found)
    ensures exists u :: u in found && SameRow(u, r)
    decreases |found|
  {
    var n := |found| - 1;
    if r in Number(found[..n]) {
      NumberedIsRead(found[..n], r);
      var u :| u in found[..n] && SameRow(u, r);
      assert u in found;
    } else {
      assert found[n] in found && SameRow(found[n], r);
    }
  }

  lemma {:induction false} ReadIsNumbered(found: seq<Option<Usable>>, u: Option<Usable>)
    requires u in found && u.Some?
    ensures exists r :: r in Number(found) && SameRow(u, r)
    decreases |found|
  {
    var n := |found| - 1;
    assert found == found[..n] + [found[n]];
    if u in found[..n] {
      ReadIsNumbered(found[..n], u);
      var r :| r in Number(found[..n]) && SameRow(u, r);
      assert r in Number(found);
    } else {
      var r := Number(found)[|Number(found)| - 1];
      assert r in Number(found) && SameRow(u, r);
    }
  }

  // ---- The hits --------------------------------------------------------------------------

  // u has more engines behind it than v, or as many and an earlier first row.
  predicate Precedes(found: seq<Option<Usable>>, u: string, v: string) {
    var ranked := Number(found);
    || |EnginesOf(ranked, u)| > |EnginesOf(ranked, v)|
    || (|EnginesOf(ranked, u)| == |EnginesOf(ranked, v)| && FirstRank(ranked, u) < FirstRank(ranked, v))
  }

  lemma BeforeIsOrder()
    ensures StrictWeak(Before())
  {
  }

  lemma DifferentRanks(found: seq<Option<Usable>>, r: Ranked, s: Ranked)
    requires r in Number(found) && s in Number(found) && r.url != s.url
    ensures r.rank != s.rank
  {
    NumberRanks(found);
    var i :| 0 <= i < |Number(found)| && Number(found)[i] == r;
    var j :| 0 <= j < |Number(found)| && Number(found)[j] == s;
  }

  lemma BeforeIsPrecedes(found: seq<Option<Usable>>, x: Entry<Hit>, y: Entry<Hit>)
    requires x in Group(ByUrl(), Number(found)) && y in Group(ByUrl(), Number(found)) && x.key != y.key
    ensures Before()(x, y) <==> Precedes(found, x.key, y.key)
    ensures Before()(x, y) || Before()(y, x)
  {
    var ranked := Number(found);
    EntrySpec(ranked, x);
    EntrySpec(ranked, y);
    var r: Ranked :| r in ranked && r.url == x.key && r.rank == x.value.rank;
    var s: Ranked :| s in ranked && s.url == y.key && s.rank == y.value.rank;
    DifferentRanks(found, r, s);
  }

  lemma BestMembers(found: seq<Option<Usable>>, limit: nat, i: nat)
    requires i < |Best(found, limit)|
    ensures Best(found, limit)[i] in Group(ByUrl(), Number(found))
    ensures Best(found, limit)[i] == Sort(Before(), Group(ByUrl(), Number(found)))[i]
  {
    BeforeIsOrder();
    GroupHolds(ByUrl(), Number(found), "");
    SortedMap(Before(), Group(ByUrl(), Number(found)));
    assert Sort(Before(), Group(ByUrl(), Number(found)))[i] in Sort(Before(), Group(ByUrl(), Number(found)));
  }

  // Output URLs are distinct and in strict order of agreement, ranked from 1, within the limit.
  lemma HitsAreRanked(found: seq<Option<Usable>>, limit: nat)
    ensures var hits := Render(Best(found, limit));
            && |hits| <= limit
            && (forall i | 0 <= i < |hits| :: hits[i].rank == i + 1)
            && (forall i, j | 0 <= i < j < |hits| ::
                  hits[i].url != hits[j].url && Precedes(found, hits[i].url, hits[j].url))
  {
    var hits := Render(Best(found, limit));
    forall i, j | 0 <= i < j < |hits| ensures hits[i].url != hits[j].url && Precedes(found, hits[i].url, hits[j].url) {
      HitsInOrder(found, limit, i, j);
    }
  }

  lemma HitsInOrder(found: seq<Option<Usable>>, limit: nat, i: nat, j: nat)
    requires i < j < |Render(Best(found, limit))|
    ensures var hits := Render(Best(found, limit));
            hits[i].url != hits[j].url && Precedes(found, hits[i].url, hits[j].url)
  {
    var m := Group(ByUrl(), Number(found));
    BeforeIsOrder();
    GroupHolds(ByUrl(), Number(found), "");
    SortedMap(Before(), m);
    BestMembers(found, limit, i);
    BestMembers(found, limit, j);
    var x, y := Best(found, limit)[i], Best(found, limit)[j];
    assert !Before()(y, x);
    BeforeIsPrecedes(found, x, y);
  }

  // The engines named by the usable rows with a URL.
  function ReportedBy(found: seq<Option<Usable>>, url: string): set<string> {
    set u, e | u in found && u.Some? && u.value.url == url && e in u.value.names :: e
  }

  lemma UnionOfRows(found: seq<Option<Usable>>, url: string)
    ensures EnginesOf(Number(found), url) == ReportedBy(found, url)
  {
    var a, b := EnginesOf(Number(found), url), ReportedBy(found, url);
    forall e | e in a ensures e in b {
      var r: Ranked :| r in Number(found) && r.url == url && e in r.names;
      NumberedIsRead(found, r);
    }
    forall e | e in b ensures e in a {
      var u: Option<Usable> :| u in found && u.Some? && u.value.url == url && e in u.value.names;
      ReadIsNumbered(found, u);
    }
  }

  // Each hit carries, once each, exactly the engines of all usable rows with its URL.
  lemma HitCarriesAllEngines(found: seq<Option<Usable>>, limit: nat, i: nat) returns (engines: seq<string>)
    requires i < |Render(Best(found, limit))|
    ensures var hit := Render(Best(found, limit))[i];
            && hit.engine == Join(engines, '+') && NoRepeats(engines) && Members(engines) == ReportedBy(found, hit.url)
            && exists u :: u in found && u.Some? && u.value.url == hit.url
  {
    BestMembers(found, limit, i);
    var x, ranked := Best(found, limit)[i], Number(found);
    EntrySpec(ranked, x);
    UnionOfRows(found, x.key);
    engines := x.value.engines;
    var r: Ranked :| r in ranked && r.url == x.key && r.rank == x.value.rank;
    NumberedIsRead(found, r);
  }

  lemma EntryOfRead(found: seq<Option<Usable>>, u: Option<Usable>) returns (y: Entry<Hit>)
    requires u in found && u.Some?
    ensures y in Group(ByUrl(), Number(found)) && y.key == u.value.url
  {
    var m, ranked := Group(ByUrl(), Number(found)), Number(found);
    ReadIsNumbered(found, u);
    var r :| r in ranked && SameRow(u, r);
    GroupHolds(ByUrl(), ranked, r.url);
    RowsOfMembers(ByUrl(), ranked, r.url, r);
    y := m[Position(m, r.url)];
  }

  // A usable URL that is left out is preceded by every one that was kept, and is left out only when
  // the limit is reached.
  lemma DroppedComeAfter(found: seq<Option<Usable>>, limit: nat, i: nat, u: Option<Usable>)
    requires u in found && u.Some? && i < |Best(found, limit)|
    requires forall k | 0 <= k < |Best(found, limit)| :: Best(found, limit)[k].key != u.value.url
    ensures Precedes(found, Render(Best(found, limit))[i].url, u.value.url) && |Best(found, limit)| == limit
  {
    var m := Group(ByUrl(), Number(found));
    var y := EntryOfRead(found, u);
    BestMembers(found, limit, i);
    var x := Best(found, limit)[i];
    BeforeIsOrder();
    GroupHolds(ByUrl(), Number(found), "");
    TakenFirst(Before(), m, limit, x, y);
    BeforeIsPrecedes(found, x, y);
  }
}
