/** Evidence from search hits to domain groups: what is merged, and that nothing is lost. */
module Evidence {
  import opened Wrappers
  import opened Text
  import opened OrderedMap

  datatype Hit = Hit(url: string, title: string, snippet: string, engine: string)

  datatype Answer = Answer(query: string, hits: seq<Hit>)

  // One hit together with the query that produced it.
  datatype Found = Found(query: string, hit: Hit)

  datatype Accumulated = Accumulated(hit: Hit, queries: set<string>, engines: set<string>)

  // ---- Accumulation per URL --------------------------------------------------------------

  function EnginesIn(hit: Hit): set<string> { set e | e in Split(hit.engine, '+') }

  function FirstSeenHit(f: Found): Accumulated { Accumulated(f.hit, {f.query}, EnginesIn(f.hit)) }

  function MergeFound(a: Accumulated, f: Found): Accumulated {
    Accumulated(
      if a.hit.snippet == "" && f.hit.snippet != "" then a.hit.(snippet := f.hit.snippet) else a.hit,
      a.queries + {f.query}, a.engines + EnginesIn(f.hit))
  }

  function ByUrl(): Scheme<Found, Accumulated> {
    Scheme((f: Found) => f.hit.url, (f: Found) => FirstSeenHit(f), (a: Accumulated, f: Found) => MergeFound(a, f))
  }

  function OfAnswer(query: string, hits: seq<Hit>): (founds: seq<Found>)
    ensures |founds| == |hits| && forall i | 0 <= i < |hits| :: founds[i] == Found(query, hits[i])
  {
    seq(|hits|, i requires 0 <= i < |hits| => Found(query, hits[i]))
  }

  function Flatten(answers: seq<Answer>): seq<Found> {
    if answers == [] then []
    else Flatten(answers[..|answers| - 1]) + OfAnswer(answers[|answers| - 1].query, answers[|answers| - 1].hits)
  }

  function Values<V>(m: seq<Entry<V>>): (vs: seq<V>)
    ensures |vs| == |m| && forall i | 0 <= i < |m| :: vs[i] == m[i].value
  {
    seq(|m|, i requires 0 <= i < |m| => m[i].value)
  }

  lemma GroupSnoc<R, V>(s: Scheme<R, V>, rows: seq<R>, row: R)
    ensures Group(s, rows + [row]) == Absorb(s, Group(s, rows), row)
  {
    assert (rows + [row])[..|rows|] == rows;
  }

  lemma SnocSlice<T>(a: seq<T>, b: seq<T>, i: nat)
    requires i < |b|
    ensures a + b[..i] + [b[i]] == a + b[..i + 1]
  {
  }

  // Answers are taken in order, and their hits in order.
  lemma {:induction false} FlattenInOrder(a: seq<Answer>, b: seq<Answer>)
    ensures Flatten(a + b) == Flatten(a) + Flatten(b)
    decreases |b|
  {
    if b == [] {
      assert a + b == a;
    } else {
      var n := |b| - 1;
      FlattenInOrder(a, b[..n]);
      FlattenNext(a + b[..n], b[n]);
      FlattenNext(b[..n], b[n]);
      assert b[..n] + [b[n]] == b;
      assert a + b == (a + b[..n]) + [b[n]];
    }
  }

  lemma FlattenNext(a: seq<Answer>, x: Answer)
    ensures Flatten(a + [x]) == Flatten(a) + OfAnswer(x.query, x.hits)
  {
    assert (a + [x])[..|a|] == a;
  }

  lemma FlattenOne(x: Answer)
    ensures |Flatten([x])| == |x.hits|
    ensures forall i | 0 <= i < |x.hits| :: Flatten([x])[i].query == x.query && Flatten([x])[i].hit == x.hits[i]
  {
    FlattenNext([], x);
    assert [] + [x] == [x];
    assert Flatten([x]) == OfAnswer(x.query, x.hits);
  }

  // One hit, added to the map.
  method AddHit(byUrl: seq<Entry<Accumulated>>, found: Found, ghost before: seq<Found>)
    returns (more: seq<Entry<Accumulated>>)
    requires byUrl == Group(ByUrl(), before)
    ensures more == Group(ByUrl(), before + [found])
  {
    GroupSnoc(ByUrl(), before, found);
    var p := Position(byUrl, found.hit.url);
    if p < |byUrl| {
      more := byUrl[p := Entry(found.hit.url, MergeFound(byUrl[p].value, found))];
    } else {
      more := byUrl + [Entry(found.hit.url, FirstSeenHit(found))];
    }
  }

  // The hits of one answer, added to the map.
  method AddAnswer(byUrl: seq<Entry<Accumulated>>, answer: Answer, ghost before: seq<Found>)
    returns (more: seq<Entry<Accumulated>>)
    requires byUrl == Group(ByUrl(), before)
    ensures more == Group(ByUrl(), before + OfAnswer(answer.query, answer.hits))
  {
    more := byUrl;
    ghost var founds := OfAnswer(answer.query, answer.hits);
    ghost var sofar := before;
    for i := 0 to |answer.hits|
      invariant sofar == before + founds[..i] && more == Group(ByUrl(), sofar)
    {
      more := AddHit(more, Found(answer.query, answer.hits[i]), sofar);
      SnocSlice(before, founds, i);
      sofar := sofar + [founds[i]];
    }
    assert founds[..|answer.hits|] == founds;
  }

  method Accumulate(answers: seq<Answer>) returns (entries: seq<Accumulated>)
    ensures entries == Values(Group(ByUrl(), Flatten(answers)))
  {
    var byUrl: seq<Entry<Accumulated>> := [];
    for i := 0 to |answers|
      invariant byUrl == Group(ByUrl(), Flatten(answers[..i]))
    {
      assert answers[..i + 1][..i] == answers[..i];
      byUrl := AddAnswer(byUrl, answers[i], Flatten(answers[..i]));
    }
    assert answers[..|answers|] == answers;
    entries := Values(byUrl);
  }

  // The queries and engines behind a URL.
  function QueriesOf(founds: seq<Found>, url: string): set<string> {
    set f | f in founds && f.hit.url == url :: f.query
  }

  function EnginesOf(founds: seq<Found>, url: string): set<string> {
    set f, e | f in founds && f.hit.url == url && e in EnginesIn(f.hit) :: e
  }

  ghost predicate Combines(a: Accumulated, rows: seq<Found>)
    requires rows != []
  {
    && a.queries == (set f | f in rows :: f.query)
    && a.engines == (set f, e | f in rows && e in EnginesIn(f.hit) :: e)
    && a.hit.title == rows[0].hit.title && a.hit.url == rows[0].hit.url && a.hit.engine == rows[0].hit.engine
    && (a.hit.snippet == "" <==> forall f | f in rows :: f.hit.snippet == "")
  }

  lemma {:induction false} ReduceCombines(rows: seq<Found>)
    requires rows != []
    ensures Combines(Reduce(ByUrl(), rows), rows)
    decreases |rows|
  {
    var n := |rows| - 1;
    assert rows[n] in rows;
    if n > 0 {
      ReduceCombines(rows[..n]);
      assert rows == rows[..n] + [rows[n]];
    }
  }

  // A snippet that is not empty is that of the first row that has one.
  lemma {:induction false} SnippetIsFirst(rows: seq<Found>)
    requires rows != []
    ensures var a := Reduce(ByUrl(), rows);
            a.hit.snippet != "" ==>
              exists i :: 0 <= i < |rows| && a.hit.snippet == rows[i].hit.snippet
                          && forall j | 0 <= j < i :: rows[j].hit.snippet == ""
    decreases |rows|
  {
    var n := |rows| - 1;
    if n > 0 {
      SnippetIsFirst(rows[..n]);
      var before := Reduce(ByUrl(), rows[..n]);
      if before.hit.snippet != "" {
        var i :| 0 <= i < n && before.hit.snippet == rows[..n][i].hit.snippet
              && forall j | 0 <= j < i :: rows[..n][j].hit.snippet == "";
        assert forall j | 0 <= j <= i :: rows[..n][j] == rows[j];
      } else {
        ReduceCombines(rows[..n]);
        assert forall j | 0 <= j < n :: rows[j] in rows[..n];
      }
    }
  }

  // One entry per URL, carrying exactly the queries and engines that produced it.
  lemma AccumulateConserves(answers: seq<Answer>, url: string)
    ensures var m, founds := Group(ByUrl(), Flatten(answers)), Flatten(answers);
            && Distinct(m)
            && (Position(m, url) < |m| <==> exists f :: f in founds && f.hit.url == url)
            && (Position(m, url) < |m| ==>
                  var a := m[Position(m, url)].value;
                  a.hit.url == url && a.queries == QueriesOf(founds, url) && a.engines == EnginesOf(founds, url))
  {
    var m, founds := Group(ByUrl(), Flatten(answers)), Flatten(answers);
    var mine := RowsOf(ByUrl(), founds, url);
    GroupHolds(ByUrl(), founds, url);
    forall f ensures f in mine <==> f in founds && f.hit.url == url {
      RowsOfMembers(ByUrl(), founds, url, f);
    }
    if mine != [] {
      assert mine[0] in mine;
      ReduceCombines(mine);
    }
    if f :| f in founds && f.hit.url == url {
      assert f in mine;
    }
  }

  // ---- Grouping per domain ---------------------------------------------------------------

  // URL parsing, taken as a parameter.
  datatype UrlParser = UrlParser(domain: string -> Option<string>, origin: string -> Option<string>)

  datatype DomainGroup = DomainGroup(url: string, hits: seq<Hit>, queries: set<string>, engines: set<string>)

  // An entry whose URL has a domain and an origin.
  datatype Placed = Placed(domain: string, origin: string, entry: Accumulated)

  function Place(p: UrlParser, a: Accumulated): Option<Placed> {
    var domain, origin := p.domain(a.hit.url), p.origin(a.hit.url);
    if domain.None? || domain.value == "" || origin.None? then None else Some(Placed(domain.value, origin.value, a))
  }

  function PlaceAll(p: UrlParser, entries: seq<Accumulated>): seq<Placed> {
    if entries == [] then []
    else
      var n := |entries| - 1;
      PlaceAll(p, entries[..n]) + match Place(p, entries[n]) case None => [] case Some(x) => [x]
  }

  predicate IsHttps(url: string) { "https://" <= url }

  predicate IsPlainHttp(url: string) { "http://" <= url }

  function FirstGroup(x: Placed): DomainGroup {
    DomainGroup(x.origin, [x.entry.hit], x.entry.queries, x.entry.engines)
  }

  function MergePlaced(g: DomainGroup, x: Placed): DomainGroup {
    DomainGroup(
      if IsPlainHttp(g.url) && IsHttps(x.origin) then x.origin else g.url,
      g.hits + [x.entry.hit], g.queries + x.entry.queries, g.engines + x.entry.engines)
  }

  function ByDomain(): Scheme<Placed, DomainGroup> {
    Scheme((x: Placed) => x.domain, (x: Placed) => FirstGroup(x), (g: DomainGroup, x: Placed) => MergePlaced(g, x))
  }

  method GroupByDomain(p: UrlParser, entries: seq<Accumulated>) returns (groups: seq<Entry<DomainGroup>>)
    ensures groups == Group(ByDomain(), PlaceAll(p, entries))
  {
    groups := [];
    for i := 0 to |entries|
      invariant groups == Group(ByDomain(), PlaceAll(p, entries[..i]))
    {
      assert entries[..i + 1][..i] == entries[..i];
      var placed := Place(p, entries[i]);
      assert PlaceAll(p, entries[..i]) + [] == PlaceAll(p, entries[..i]);
      if placed.None? { continue; }
      GroupSnoc(ByDomain(), PlaceAll(p, entries[..i]), placed.value);
      var domain := placed.value.domain;
      var at := Position(groups, domain);
      if at < |groups| {
        groups := groups[at := Entry(domain, MergePlaced(groups[at].value, placed.value))];
      } else {
        groups := groups + [Entry(domain, FirstGroup(placed.value))];
      }
    }
    assert entries[..|entries|] == entries;
  }

  function HitsOf(rows: seq<Placed>): (hits: seq<Hit>)
    ensures |hits| == |rows| && forall i | 0 <= i < |rows| :: hits[i] == rows[i].entry.hit
  {
    seq(|rows|, i requires 0 <= i < |rows| => rows[i].entry.hit)
  }

  // Origins of web pages start with their scheme.
  ghost predicate WebOrigins(rows: seq<Placed>) {
    forall x | x in rows :: IsPlainHttp(x.origin) || IsHttps(x.origin)
  }

  ghost predicate Gathers(g: DomainGroup, rows: seq<Placed>)
    requires rows != []
  {
    && g.hits == HitsOf(rows)
    && g.queries == (set x, q | x in rows && q in x.entry.queries :: q)
    && g.engines == (set x, e | x in rows && e in x.entry.engines :: e)
    && (exists x :: x in rows && g.url == x.origin)
  }

  // The root is https iff some row's origin is.
  ghost predicate SecureRoot(g: DomainGroup, rows: seq<Placed>) {
    WebOrigins(rows) ==> (IsHttps(g.url) <==> exists x :: x in rows && IsHttps(x.origin))
  }

  lemma SchemesAreApart(url: string)
    ensures !(IsPlainHttp(url) && IsHttps(url))
  {
    if |url| > 4 {
      assert IsPlainHttp(url) ==> url[4] == "http://"[4];
      assert IsHttps(url) ==> url[4] == "https://"[4];
    }
  }

  lemma GatherNext(g: DomainGroup, rows: seq<Placed>, x: Placed)
    requires rows != [] && Gathers(g, rows)
    ensures Gathers(MergePlaced(g, x), rows + [x])
  {
    var all := rows + [x];
    assert HitsOf(all) == HitsOf(rows) + [x.entry.hit];
    assert x in all && forall y | y in rows :: y in all;
    var root :| root in rows && g.url == root.origin;
    assert root in all;
    var g' := MergePlaced(g, x);
    assert g'.queries == set y, q | y in all && q in y.entry.queries :: q;
    assert g'.engines == set y, e | y in all && e in y.entry.engines :: e;
  }

  lemma SecureNext(g: DomainGroup, rows: seq<Placed>, x: Placed)
    requires rows != [] && Gathers(g, rows) && SecureRoot(g, rows)
    ensures SecureRoot(MergePlaced(g, x), rows + [x])
  {
    var all := rows + [x];
    SchemesAreApart(g.url);
    assert x in all && forall y | y in rows :: y in all;
    var root :| root in rows && g.url == root.origin;
    assert root in all;
  }

  lemma {:induction false} ReduceGathers(rows: seq<Placed>)
    requires rows != []
    ensures Gathers(Reduce(ByDomain(), rows), rows) && SecureRoot(Reduce(ByDomain(), rows), rows)
    decreases |rows|
  {
    var n := |rows| - 1;
    if n == 0 {
      var x := rows[0];
      assert rows == [x];
      assert HitsOf(rows) == [x.entry.hit];
      assert x in rows;
    } else {
      ReduceGathers(rows[..n]);
      GatherNext(Reduce(ByDomain(), rows[..n]), rows[..n], rows[n]);
      SecureNext(Reduce(ByDomain(), rows[..n]), rows[..n], rows[n]);
      assert rows == rows[..n] + [rows[n]];
    }
  }

  // Row i is the first with a secure origin.
  ghost predicate FirstSecure(rows: seq<Placed>, i: nat) {
    i < |rows| && "https://" <= rows[i].origin && forall j | 0 <= j < i :: !("https://" <= rows[j].origin)
  }

  // The root is the first origin, or the first secure one where the first origin is plain http.
  lemma {:induction false} RootIsExact(rows: seq<Placed>, i: nat)
    requires rows != []
    ensures var root := Reduce(ByDomain(), rows).url;
            && (!("http://" <= rows[0].origin) ==> root == rows[0].origin)
            && (FirstSecure(rows, i) && "http://" <= rows[0].origin ==> root == rows[i].origin)
            && ((forall j | 0 <= j < |rows| :: !("https://" <= rows[j].origin)) ==> root == rows[0].origin)
    decreases |rows|
  {
    var n := |rows| - 1;
    if n > 0 {
      RootIsExact(rows[..n], i);
      if i < |rows| {
        SchemesAreApart(rows[i].origin);
      }
      SchemesAreApart(Reduce(ByDomain(), rows[..n]).url);
    }
  }

  // Every entry with a usable domain is in exactly the group of that domain, whose hits, queries and
  // engines are those of its entries, and whose root is https iff some entry's is.
  lemma GroupingConserves(p: UrlParser, entries: seq<Accumulated>, domain: string)
    ensures var placed := PlaceAll(p, entries); var m := Group(ByDomain(), placed);
            var mine := RowsOf(ByDomain(), placed, domain);
            && Distinct(m)
            && (Position(m, domain) < |m| <==> mine != [])
            && (forall x :: x in mine <==> x in placed && x.domain == domain)
            && (mine != [] ==>
                  var g := m[Position(m, domain)].value; Gathers(g, mine) && SecureRoot(g, mine))
  {
    var placed := PlaceAll(p, entries);
    var mine := RowsOf(ByDomain(), placed, domain);
    GroupHolds(ByDomain(), placed, domain);
    forall x ensures x in mine <==> x in placed && x.domain == domain {
      RowsOfMembers(ByDomain(), placed, domain, x);
    }
    if mine != [] {
      ReduceGathers(mine);
    }
  }

  lemma {:induction false} PlacedEntries(p: UrlParser, entries: seq<Accumulated>, x: Placed)
    ensures x in PlaceAll(p, entries) <==> x.entry in entries && Place(p, x.entry) == Some(x)
    decreases |entries|
  {
    if entries != [] {
      var n := |entries| - 1;
      PlacedEntries(p, entries[..n], x);
      assert entries == entries[..n] + [entries[n]];
    }
  }

  // An entry has a place iff its URL has a domain that is not empty and an origin; the entries keep
  // their order.
  lemma PlacedIff(p: UrlParser, entries: seq<Accumulated>, x: Placed)
    ensures x in PlaceAll(p, entries)
       <==> && x.entry in entries && p.domain(x.entry.hit.url) == Some(x.domain) && x.domain != ""
            && p.origin(x.entry.hit.url) == Some(x.origin)
  {
    PlacedEntries(p, entries, x);
  }

  lemma {:induction false} PlacedInOrder(p: UrlParser, a: seq<Accumulated>, b: seq<Accumulated>)
    ensures PlaceAll(p, a + b) == PlaceAll(p, a) + PlaceAll(p, b)
    decreases |b|
  {
    if b == [] {
      assert a + b == a;
    } else {
      var n := |b| - 1;
      PlacedInOrder(p, a, b[..n]);
      assert (a + b)[..|a + b| - 1] == a + b[..n];
    }
  }

  // URLs of one origin have one domain.
  predicate SameSite(p: UrlParser, u: string, v: string) {
    p.origin(u).Some? && p.origin(u) == p.origin(v) ==> p.domain(u) == p.domain(v)
  }

  // Two groups never share a root, when the origins of the entries determine their domains.
  lemma RootsAreDistinct(p: UrlParser, entries: seq<Accumulated>, i: nat, j: nat)
    requires i < j < |Group(ByDomain(), PlaceAll(p, entries))|
    requires forall a, b | a in entries && b in entries :: SameSite(p, a.hit.url, b.hit.url)
    ensures var m := Group(ByDomain(), PlaceAll(p, entries)); m[i].value.url != m[j].value.url
  {
    var x := RootOf(p, entries, i);
    var y := RootOf(p, entries, j);
    GroupHolds(ByDomain(), PlaceAll(p, entries), "");
  }

  lemma RootOf(p: UrlParser, entries: seq<Accumulated>, i: nat) returns (x: Placed)
    requires i < |Group(ByDomain(), PlaceAll(p, entries))|
    ensures var e := Group(ByDomain(), PlaceAll(p, entries))[i];
            x.domain == e.key && x.origin == e.value.url && Place(p, x.entry) == Some(x) && x.entry in entries
  {
    var placed := PlaceAll(p, entries);
    var e := Group(ByDomain(), placed)[i];
    var mine := RowsOf(ByDomain(), placed, e.key);
    EntryValue(ByDomain(), placed, i);
    ReduceGathers(mine);
    x :| x in mine && e.value.url == x.origin;
    RowsOfMembers(ByDomain(), placed, e.key, x);
    PlacedEntries(p, entries, x);
  }

  // ---- Engine names between the two stages ------------------------------------------------

  // The engines of a search hit survive being joined and split again, if their names hold no plus;
  // a hit without any engine comes back with one nameless engine.
  lemma EnginesSurvive(engines: seq<string>, hit: Hit)
    requires AllFree(engines, '+') && hit.engine == Join(engines, '+')
    ensures EnginesIn(hit) == if engines == [] then {""} else set e | e in engines
  {
    if engines == [] {
      assert Split("", '+') == [""];
    } else {
      SplitJoin(engines, '+');
    }
  }
}
