/** What the raw search rows contribute to the hits: texts, engines and order, row by row. */
module SearchRows {
  import opened Text
  import opened Wrappers
  import opened OrderedMap
  import opened StableSort
  import opened RankedMap
  import opened SearchResults

  // Starts with http:// or https://, in any letter case.
  predicate WebUrl(url: string) {
    var low := Lower(url);
    "http://" <= low || "https://" <= low
  }

  // Row j counts, and is about url.
  predicate Of(rows: seq<Row>, j: nat, url: string) {
    j < |rows| && Trim(rows[j].url) == url && WebUrl(url)
  }

  predicate FirstOf(rows: seq<Row>, j: nat, url: string) {
    Of(rows, j, url) && forall k: nat | k < j :: !Of(rows, k, url)
  }

  // Row j names an engine.
  predicate Lists(row: Row, engine: string) {
    engine != "" && (engine == row.engine || engine in row.engines)
  }

  // The engines that the rows about url name.
  function Backers(rows: seq<Row>, url: string): set<string> {
    set j: nat, e | j < |rows| && Of(rows, j, url) && e in NonBlank([rows[j].engine] + rows[j].engines) :: e
  }

  lemma {:induction false} NonBlankMembers(names: seq<string>, e: string)
    ensures e in NonBlank(names) <==> e != "" && e in names
    decreases |names|
  {
    if names != [] {
      var n := |names| - 1;
      NonBlankMembers(names[..n], e);
      assert names == names[..n] + [names[n]];
    }
  }

  lemma RowLists(row: Row, e: string)
    ensures e in NonBlank([row.engine] + row.engines) <==> Lists(row, e)
  {
    NonBlankMembers([row.engine] + row.engines, e);
  }

  lemma BackersAreListed(rows: seq<Row>, url: string, e: string)
    ensures e in Backers(rows, url) <==> exists j: nat :: Of(rows, j, url) && Lists(rows[j], e)
  {
    forall j: nat | j < |rows| ensures e in NonBlank([rows[j].engine] + rows[j].engines) <==> Lists(rows[j], e) {
      RowLists(rows[j], e);
    }
  }

  // ---- Where the rows of a URL stand -----------------------------------------------------

  function Places(rows: seq<Row>, url: string): seq<nat> {
    if rows == [] then []
    else
      var n := |rows| - 1;
      Places(rows[..n], url) + if Of(rows, n, url) then [n] else []
  }

  predicate Increasing(ns: seq<nat>) {
    forall i, j | 0 <= i < j < |ns| :: ns[i] < ns[j]
  }

  lemma OfPrefix(rows: seq<Row>, n: nat, j: nat, url: string)
    requires n <= |rows|
    ensures Of(rows[..n], j, url) <==> j < n && Of(rows, j, url)
  {
  }

  lemma {:induction false} PlacesSpec(rows: seq<Row>, url: string, j: nat)
    ensures j in Places(rows, url) <==> Of(rows, j, url)
    decreases |rows|
  {
    if rows != [] {
      var n := |rows| - 1;
      PlacesSpec(rows[..n], url, j);
      OfPrefix(rows, n, j, url);
      assert j in Places(rows, url) <==> j in Places(rows[..n], url) || (j == n && Of(rows, n, url));
    }
  }

  lemma {:induction false} PlacesIncrease(rows: seq<Row>, url: string)
    ensures Increasing(Places(rows, url))
    decreases |rows|
  {
    if rows != [] {
      var n := |rows| - 1;
      var ns := Places(rows[..n], url);
      PlacesIncrease(rows[..n], url);
      forall i | 0 <= i < |ns| ensures ns[i] < n {
        PlacesSpec(rows[..n], url, ns[i]);
        OfPrefix(rows, n, ns[i], url);
      }
    }
  }

  lemma PlaceOf(rows: seq<Row>, url: string, j: nat) returns (k: nat)
    requires Of(rows, j, url)
    ensures k < |Places(rows, url)| && Places(rows, url)[k] == j
  {
    PlacesSpec(rows, url, j);
    k :| k < |Places(rows, url)| && Places(rows, url)[k] == j;
  }

  lemma PlaceIsOf(rows: seq<Row>, url: string, k: nat)
    requires k < |Places(rows, url)|
    ensures Of(rows, Places(rows, url)[k], url)
  {
    PlacesSpec(rows, url, Places(rows, url)[k]);
  }

  function Mine(rows: seq<Row>, url: string): seq<Ranked> {
    RowsOf(ByUrl(), Number(ReadRows(rows)), url)
  }

  // The number of rows before row j that count.
  function UsedBefore(rows: seq<Row>, j: nat): nat
    requires j <= |rows|
  {
    |Number(ReadRows(rows[..j]))|
  }

  predicate Shows(r: Ranked, rows: seq<Row>, j: nat) {
    && j < |rows|
    && r.title == Trim(rows[j].title) && r.content == Trim(rows[j].content)
    && r.names == NonBlank([rows[j].engine] + rows[j].engines)
    && r.rank == UsedBefore(rows, j) + 1
  }

  lemma RowRead(row: Row)
    ensures var url := Trim(row.url);
            ReadRow(row) == if WebUrl(url)
              then Some(Usable(url, Trim(row.title), Trim(row.content), NonBlank([row.engine] + row.engines)))
              else None
  {
  }

  lemma NumberGrows(rows: seq<Row>)
    requires rows != []
    ensures var n := |rows| - 1;
            var before, u := Number(ReadRows(rows[..n])), ReadRow(rows[n]);
            Number(ReadRows(rows)) == before +
              if u.None? then []
              else [Ranked(u.value.url, u.value.title, u.value.content, u.value.names, |before| + 1)]
  {
    var n := |rows| - 1;
    assert ReadRows(rows)[..n] == ReadRows(rows[..n]);
  }

  lemma MineGrows(before: seq<Ranked>, more: seq<Ranked>, url: string)
    requires |more| <= 1
    ensures RowsOf(ByUrl(), before + more, url)
         == RowsOf(ByUrl(), before, url) + if more != [] && more[0].url == url then more else []
  {
    if more == [] {
      assert before + more == before;
    } else {
      assert (before + more)[..|before|] == before;
      assert more == [more[0]];
    }
  }

  predicate Aligned(mine: seq<Ranked>, rows: seq<Row>, ns: seq<nat>) {
    |mine| == |ns| && forall k | 0 <= k < |ns| :: Shows(mine[k], rows, ns[k])
  }

  lemma StaysAligned(mine: seq<Ranked>, rows: seq<Row>, n: nat, ns: seq<nat>)
    requires n <= |rows| && Aligned(mine, rows[..n], ns)
    ensures Aligned(mine, rows, ns)
  {
    forall k | 0 <= k < |ns| ensures Shows(mine[k], rows, ns[k]) {
      assert Shows(mine[k], rows[..n], ns[k]);
      assert rows[..n][..ns[k]] == rows[..ns[k]];
    }
  }

  lemma {:induction false} MineAtPlaces(rows: seq<Row>, url: string)
    ensures Aligned(Mine(rows, url), rows, Places(rows, url))
    decreases |rows|
  {
    if rows != [] {
      var n := |rows| - 1;
      MineAtPlaces(rows[..n], url);
      StaysAligned(Mine(rows[..n], url), rows, n, Places(rows[..n], url));
      NumberGrows(rows);
      RowRead(rows[n]);
      var before, after := Number(ReadRows(rows[..n])), Number(ReadRows(rows));
      MineGrows(before, after[|before|..], url);
      assert after == before + after[|before|..];
    }
  }

  // ---- One hit ---------------------------------------------------------------------------

  function Hits(rows: seq<Row>, limit: nat): seq<SearchHit> {
    Render(Best(ReadRows(rows), limit))
  }

  // A hit takes its title from the first row of its URL.
  ghost predicate TitleIsFirst(rows: seq<Row>, hit: SearchHit) {
    exists j: nat :: FirstOf(rows, j, hit.url) && hit.title == Trim(rows[j].title)
  }

  // Its snippet is the first text that is not blank.
  ghost predicate SnippetIsFirst(rows: seq<Row>, hit: SearchHit) {
    if hit.snippet == "" then forall j: nat | Of(rows, j, hit.url) :: Trim(rows[j].content) == ""
    else exists j: nat :: Of(rows, j, hit.url) && hit.snippet == Trim(rows[j].content)
                          && forall k: nat | k < j && Of(rows, k, hit.url) :: Trim(rows[k].content) == ""
  }

  // Its engines are those its rows name, once each.
  ghost predicate EnginesAreListed(rows: seq<Row>, hit: SearchHit, engines: seq<string>) {
    && hit.engine == Join(engines, '+') && NoRepeats(engines)
    && forall e :: e in engines <==> exists j: nat :: Of(rows, j, hit.url) && Lists(rows[j], e)
  }

  lemma HitIsReduced(rows: seq<Row>, limit: nat, i: nat)
    requires i < |Hits(rows, limit)|
    ensures var hit := Hits(rows, limit)[i];
            var mine := Mine(rows, hit.url);
            && mine != [] && Best(ReadRows(rows), limit)[i].value == Reduce(ByUrl(), mine)
            && hit.title == Reduce(ByUrl(), mine).title && hit.snippet == Reduce(ByUrl(), mine).snippet
            && hit.engine == Join(Reduce(ByUrl(), mine).engines, '+')
  {
    var found := ReadRows(rows);
    BestMembers(found, limit, i);
    var x, m := Best(found, limit)[i], Group(ByUrl(), Number(found));
    var p :| 0 <= p < |m| && m[p] == x;
    EntryValue(ByUrl(), Number(found), p);
  }

  lemma FirstPlace(rows: seq<Row>, url: string)
    requires Places(rows, url) != []
    ensures FirstOf(rows, Places(rows, url)[0], url)
  {
    var ns := Places(rows, url);
    PlacesIncrease(rows, url);
    PlaceIsOf(rows, url, 0);
    forall k: nat | k < ns[0] ensures !Of(rows, k, url) {
      if Of(rows, k, url) {
        var q := PlaceOf(rows, url, k);
      }
    }
  }

  lemma TitleOfHit(rows: seq<Row>, limit: nat, i: nat)
    requires i < |Hits(rows, limit)|
    ensures TitleIsFirst(rows, Hits(rows, limit)[i])
  {
    var hit := Hits(rows, limit)[i];
    HitIsReduced(rows, limit, i);
    MineAtPlaces(rows, hit.url);
    FirstPlace(rows, hit.url);
    ReduceText(Mine(rows, hit.url));
  }

  lemma SnippetOfRows(rows: seq<Row>, hit: SearchHit)
    requires Mine(rows, hit.url) != [] && hit.snippet == Reduce(ByUrl(), Mine(rows, hit.url)).snippet
    ensures SnippetIsFirst(rows, hit)
  {
    var mine := Mine(rows, hit.url);
    MineAtPlaces(rows, hit.url);
    ReduceText(mine);
    if hit.snippet == "" {
      NoSnippet(rows, hit.url, mine);
    } else {
      var i :| 0 <= i < |mine| && hit.snippet == mine[i].content && forall j | 0 <= j < i :: mine[j].content == "";
      FirstSnippet(rows, hit.url, mine, i);
    }
  }

  lemma NoSnippet(rows: seq<Row>, url: string, mine: seq<Ranked>)
    requires Aligned(mine, rows, Places(rows, url)) && forall k | 0 <= k < |mine| :: mine[k].content == ""
    ensures forall j: nat | Of(rows, j, url) :: Trim(rows[j].content) == ""
  {
    forall j: nat | Of(rows, j, url) ensures Trim(rows[j].content) == "" {
      var k := PlaceOf(rows, url, j);
      assert Shows(mine[k], rows, j);
    }
  }

  lemma FirstSnippet(rows: seq<Row>, url: string, mine: seq<Ranked>, i: nat)
    requires Aligned(mine, rows, Places(rows, url)) && i < |mine| && forall k | 0 <= k < i :: mine[k].content == ""
    ensures var j := Places(rows, url)[i];
            && Of(rows, j, url) && mine[i].content == Trim(rows[j].content)
            && forall k: nat | k < j && Of(rows, k, url) :: Trim(rows[k].content) == ""
  {
    PlaceIsOf(rows, url, i);
    assert Shows(mine[i], rows, Places(rows, url)[i]);
    forall k: nat | k < Places(rows, url)[i] && Of(rows, k, url) ensures Trim(rows[k].content) == "" {
      var q := PlaceOf(rows, url, k);
      PlacesIncrease(rows, url);
      EarlierIsBlank(rows, mine, Places(rows, url), i, q);
    }
  }

  lemma EarlierIsBlank(rows: seq<Row>, mine: seq<Ranked>, ns: seq<nat>, i: nat, q: nat)
    requires Aligned(mine, rows, ns) && Increasing(ns) && i < |ns| && forall j | 0 <= j < i :: mine[j].content == ""
    requires q < |ns| && ns[q] < ns[i]
    ensures ns[q] < |rows| && Trim(rows[ns[q]].content) == ""
  {
    assert q < i;
    assert Shows(mine[q], rows, ns[q]);
  }

  lemma NamedIsBackers(rows: seq<Row>, url: string, mine: seq<Ranked>)
    requires Aligned(mine, rows, Places(rows, url))
    ensures Named(mine) == Backers(rows, url)
  {
    forall e | e in Named(mine) ensures e in Backers(rows, url) {
      var r :| r in mine && e in r.names;
      var k :| 0 <= k < |mine| && mine[k] == r;
      PlaceIsOf(rows, url, k);
      assert Shows(r, rows, Places(rows, url)[k]);
    }
    forall e | e in Backers(rows, url) ensures e in Named(mine) {
      var j: nat :| j < |rows| && Of(rows, j, url) && e in NonBlank([rows[j].engine] + rows[j].engines);
      var k := PlaceOf(rows, url, j);
      assert Shows(mine[k], rows, j) && mine[k] in mine;
    }
  }

  lemma EnginesOfRows(rows: seq<Row>, url: string)
    requires Mine(rows, url) != []
    ensures NoRepeats(Reduce(ByUrl(), Mine(rows, url)).engines)
    ensures Members(Reduce(ByUrl(), Mine(rows, url)).engines) == Backers(rows, url)
  {
    MineAtPlaces(rows, url);
    ReduceSpec(Mine(rows, url));
    NamedIsBackers(rows, url, Mine(rows, url));
  }

  // Title, snippet and engines of every hit, from the rows.
  lemma HitOfRows(rows: seq<Row>, limit: nat, i: nat) returns (engines: seq<string>)
    requires i < |Hits(rows, limit)|
    ensures var hit := Hits(rows, limit)[i];
            TitleIsFirst(rows, hit) && SnippetIsFirst(rows, hit) && EnginesAreListed(rows, hit, engines)
    ensures |engines| == |Backers(rows, Hits(rows, limit)[i].url)|
  {
    var hit := Hits(rows, limit)[i];
    TitleOfHit(rows, limit, i);
    HitIsReduced(rows, limit, i);
    SnippetOfRows(rows, hit);
    EnginesOfRows(rows, hit.url);
    engines := Reduce(ByUrl(), Mine(rows, hit.url)).engines;
    CountMembers(engines);
    forall e ensures e in engines <==> exists j: nat :: Of(rows, j, hit.url) && Lists(rows[j], e) {
      assert e in engines <==> e in Members(engines);
      BackersAreListed(rows, hit.url, e);
    }
  }

  // ---- Which rows become hits, and in what order -----------------------------------------

  // More rows count before a later place.
  lemma {:induction false} UsedGrows(rows: seq<Row>, i: nat, j: nat, url: string)
    requires i < j <= |rows| && Of(rows, i, url)
    ensures UsedBefore(rows, i) < UsedBefore(rows, j)
    decreases j
  {
    NumberGrows(rows[..j]);
    assert rows[..j][..j - 1] == rows[..j - 1];
    RowRead(rows[j - 1]);
    if i < j - 1 {
      UsedGrows(rows, i, j - 1, url);
    }
  }

  lemma RankOfUrl(rows: seq<Row>, url: string, j: nat)
    requires FirstOf(rows, j, url)
    ensures FirstRank(Number(ReadRows(rows)), url) == UsedBefore(rows, j) + 1
    ensures EnginesOf(Number(ReadRows(rows)), url) == Backers(rows, url)
  {
    var mine, ns, ranked := Mine(rows, url), Places(rows, url), Number(ReadRows(rows));
    MineAtPlaces(rows, url);
    var _ := PlaceOf(rows, url, j);
    FirstPlace(rows, url);
    assert ns[0] == j;
    assert Shows(mine[0], rows, ns[0]);
    FirstRowOf(ranked, url);
    EnginesOfRows(rows, url);
    ReduceSpec(mine);
    forall r ensures r in mine <==> r in ranked && r.url == url {
      RowsOfMembers(ByUrl(), ranked, url, r);
    }
    assert Named(mine) == EnginesOf(ranked, url);
  }

  // Of two URLs, the one with more engines comes first, and at a tie the one seen first.
  lemma PrecedesInRows(rows: seq<Row>, u: string, i: nat, v: string, j: nat)
    requires FirstOf(rows, i, u) && FirstOf(rows, j, v) && u != v
    ensures Precedes(ReadRows(rows), u, v)
       <==> |Backers(rows, u)| > |Backers(rows, v)| || (|Backers(rows, u)| == |Backers(rows, v)| && i < j)
  {
    RankOfUrl(rows, u, i);
    RankOfUrl(rows, v, j);
    if i < j {
      UsedGrows(rows, i, j, u);
    } else if j < i {
      UsedGrows(rows, j, i, v);
    }
  }

  // So the hits are in this order, numbered from one.
  lemma HitsFollowRows(rows: seq<Row>, limit: nat, x: nat, y: nat, i: nat, j: nat)
    requires x < y < |Hits(rows, limit)|
    requires FirstOf(rows, i, Hits(rows, limit)[x].url) && FirstOf(rows, j, Hits(rows, limit)[y].url)
    ensures var u, v := Hits(rows, limit)[x].url, Hits(rows, limit)[y].url;
            && Hits(rows, limit)[x].rank == x + 1 && u != v
            && (|Backers(rows, u)| > |Backers(rows, v)| || (|Backers(rows, u)| == |Backers(rows, v)| && i < j))
  {
    HitsAreRanked(ReadRows(rows), limit);
    PrecedesInRows(rows, Hits(rows, limit)[x].url, i, Hits(rows, limit)[y].url, j);
  }

  // A row that counts becomes a hit, unless the limit is taken up by URLs that come before its own.
  lemma RowIsHit(rows: seq<Row>, limit: nat, j: nat, url: string)
    requires FirstOf(rows, j, url)
    requires forall x | 0 <= x < |Hits(rows, limit)| :: Hits(rows, limit)[x].url != url
    ensures |Hits(rows, limit)| == limit
    ensures forall x, i: nat | 0 <= x < limit && FirstOf(rows, i, Hits(rows, limit)[x].url) ::
              var u := Hits(rows, limit)[x].url;
              |Backers(rows, u)| > |Backers(rows, url)| || (|Backers(rows, u)| == |Backers(rows, url)| && i < j)
  {
    var found, best := ReadRows(rows), Best(ReadRows(rows), limit);
    RowRead(rows[j]);
    assert found[j] in found;
    var u := found[j];
    forall k | 0 <= k < |best| ensures best[k].key != u.value.url {
      assert Hits(rows, limit)[k].url == best[k].key;
    }
    if best == [] {
      NothingKept(found, limit, u);
    } else {
      DroppedComeAfter(found, limit, 0, u);
    }
    forall x, i: nat | 0 <= x < limit && FirstOf(rows, i, Hits(rows, limit)[x].url)
      ensures var w := Hits(rows, limit)[x].url;
              |Backers(rows, w)| > |Backers(rows, url)| || (|Backers(rows, w)| == |Backers(rows, url)| && i < j)
    {
      DroppedComeAfter(found, limit, x, u);
      PrecedesInRows(rows, Hits(rows, limit)[x].url, i, url, j);
    }
  }

  lemma NothingKept(found: seq<Option<Usable>>, limit: nat, u: Option<Usable>)
    requires u in found && u.Some? && Best(found, limit) == []
    ensures limit == 0
  {
    var m := Group(ByUrl(), Number(found));
    var y := EntryOfRead(found, u);
    BeforeIsOrder();
    GroupHolds(ByUrl(), Number(found), "");
    SortedMap(Before(), m);
  }

  // Every hit has a row.
  lemma HitHasRow(rows: seq<Row>, limit: nat, x: nat)
    requires x < |Hits(rows, limit)|
    ensures exists j: nat :: FirstOf(rows, j, Hits(rows, limit)[x].url)
  {
    TitleOfHit(rows, limit, x);
  }
}
