/** When a crawl that reports no exhausted budget has visited every link it chose to follow. */
module CrawlerBudget {
  import opened Wrappers
  import opened OrderedMap
  import opened StableSort
  import opened LinkExtraction
  import opened Crawler
  import opened CrawlerInvariants
  import opened CrawlerTheorems

  lemma {:induction false} SettleAfter(w: World, o: Options, url: Url, n: nat)
    ensures Settle(w, o, After(w, o, url, n)) == Crawled(w, o, url)
  {
    if n > 0 {
      SettleAfter(w, o, url, n - 1);
    }
  }

  // ---- A site that hides its depth -------------------------------------------------------

  function ChainUrl(i: nat): (u: Url)
    ensures |u| == i + 1 && u[i] != '/' && KeyOf(u) == u
  {
    if i == 0 then "s" else ChainUrl(i - 1) + "x"
  }

  // With pages to spare, the last page above the limit has a second link, which is dead.
  predicate HasDeadLink(o: Options) { o.maxPages > DepthCap(o) + 1 }

  function ChainAnchors(o: Options, n: nat, u: Url): seq<Anchor> {
    if HasDeadLink(o) && n + 1 == DepthCap(o) then [Anchor(u + "x", 1), Anchor(u + "y", 1)] else [Anchor(u + "x", 1)]
  }

  function Chain(o: Options): World {
    World(
      (n: nat) => 0,
      (u: Url) => Some("www." + o.allowedHost),
      (n: nat, u: Url) => MayFetch,
      (n: nat, u: Url) =>
        if n == DepthCap(o) + 1 then Threw("gone") else Fetched(true, 200, "html", ChainAnchors(o, n, u)))
  }

  lemma TopOne(a: Anchor)
    ensures TopLinks([a]) == [a.url]
  {
    GroupSingle(ByUrl(), a);
    SortSingle(Heavier(), Entry(a.url, a.weight));
  }

  lemma TopTwo(a: Anchor, b: Anchor)
    requires a.url != b.url && a.weight == b.weight
    ensures TopLinks([a, b]) == [a.url, b.url]
  {
    GroupPair(ByUrl(), a, b);
    SortPair(Heavier(), Entry(a.url, a.weight), Entry(b.url, b.weight));
  }

  lemma ChainFate(o: Options, n: nat, u: Url)
    ensures FateOf(Chain(o), o, n, u)
         == if n == DepthCap(o) + 1 then Failed(Error("gone"), true) else Read(TopLinks(ChainAnchors(o, n, u)))
  {
    var host := "www." + o.allowedHost;
    assert host[4..] == o.allowedHost;
    assert StripWww(host) == o.allowedHost;
    assert Includes("html", "html");
  }

  function DeadUrl(i: nat): Url {
    if i == 0 then "y" else ChainUrl(i - 1) + "y"
  }

  function ChainQueue(o: Options, i: nat): seq<Item> {
    [Item(ChainUrl(i), i)] + if HasDeadLink(o) && i == DepthCap(o) && i > 0 then [Item(DeadUrl(i), i)] else []
  }

  // Keys no longer than n.
  ghost predicate ShortKeys(log: seq<Visit>, n: nat) {
    forall j | 0 <= j < |log| :: |log[j].key| <= n
  }

  ghost predicate ChainAt(o: Options, st: State, i: nat) {
    && st.step == i && st.budget == None && |PagesOf(st.log)| == i && ShortKeys(st.log, i)
    && st.queue == ChainQueue(o, i)
  }

  // Options under which a run can end without a word although the limit cut it short.
  predicate CanMislead(o: Options) {
    o.maxPages > DepthCap(o) && o.budgetMs > 0 && (o.maxDepth <= 0 ==> o.maxPages < 2)
  }

  lemma ChainLinks(o: Options, i: nat)
    requires CanMislead(o) && i < DepthCap(o)
    ensures TopLinks(ChainAnchors(o, i, ChainUrl(i)))
         == [ChainUrl(i + 1)] + if HasDeadLink(o) && i + 1 == DepthCap(o) then [DeadUrl(i + 1)] else []
  {
    var u := ChainUrl(i);
    TopOne(Anchor(u + "x", 1));
    assert (u + "x")[i + 1] != (u + "y")[i + 1];
    TopTwo(Anchor(u + "x", 1), Anchor(u + "y", 1));
    assert [u + "x", u + "y"] == [u + "x"] + [u + "y"];
  }

  lemma ChainChildren(o: Options, i: nat, seen: set<Key>)
    requires CanMislead(o) && i < DepthCap(o)
    requires ChainUrl(i + 1) !in seen && DeadUrl(i + 1) !in seen
    ensures Children(seen, TopLinks(ChainAnchors(o, i, ChainUrl(i))), i + 1) == ChainQueue(o, i + 1)
  {
    ChainLinks(o, i);
    var x, y := ChainUrl(i + 1), DeadUrl(i + 1);
    assert [x][..0] == [] && ([x] + [y])[..1] == [x];
    assert KeyOf(y) == y;
    assert Children(seen, [x], i + 1) == [Item(x, i + 1)];
  }

  lemma ChainRecord(o: Options, st: State, v: Visit, i: nat)
    requires CanMislead(o) && i < DepthCap(o) && ChainAt(o, st, i)
    requires v.url == v.key == ChainUrl(i) && v.depth == i && v.fate == Read(TopLinks(ChainAnchors(o, i, ChainUrl(i))))
    ensures ChainAt(o, Record(o, st, v), i + 1)
  {
    LogAppend(st.log, v);
    var seen := KeysOf(st.log) + {v.key};
    assert ChainUrl(i + 1) !in seen && DeadUrl(i + 1) !in seen;
    ChainChildren(o, i, seen);
    assert st.queue[1..] == [];
    assert [] + ChainQueue(o, i + 1) == ChainQueue(o, i + 1);
  }

  lemma ChainStep(o: Options, st: State, i: nat)
    requires CanMislead(o) && i < DepthCap(o) && ChainAt(o, st, i)
    ensures Running(Chain(o), o, st) && ChainAt(o, Iterate(Chain(o), o, st), i + 1)
  {
    var w, u := Chain(o), ChainUrl(i);
    ChainFate(o, i, u);
    assert !Visited(st.log, u);
    assert Iterate(w, o, st) == Record(o, st, VisitOf(w, o, st));
    ChainRecord(o, st, VisitOf(w, o, st), i);
  }

  lemma {:induction false} ChainRun(o: Options, i: nat)
    requires CanMislead(o) && i <= DepthCap(o)
    ensures ChainAt(o, After(Chain(o), o, "s", i), i)
  {
    if i > 0 {
      ChainRun(o, i - 1);
      ChainStep(o, After(Chain(o), o, "s", i - 1), i - 1);
    } else {
      assert ChainQueue(o, 0) == [Item("s", 0)];
    }
  }

  // The page at the limit is read, and its link left alone.
  ghost predicate CutAt(o: Options, st: State) {
    var d := DepthCap(o);
    && (exists i :: 0 <= i < |st.log| && st.log[i].fate == Read([ChainUrl(d + 1)]))
    && ShortKeys(st.log, d + 1) && |PagesOf(st.log)| == d + 1 && st.step == d + 1 && st.budget == None
    && st.queue == if HasDeadLink(o) then [Item(DeadUrl(d), d)] else []
  }

  lemma LimitRecord(o: Options, st: State, v: Visit)
    requires CanMislead(o) && ChainAt(o, st, DepthCap(o))
    requires v.url == v.key == ChainUrl(DepthCap(o)) && v.depth == DepthCap(o)
    requires v.fate == Read([ChainUrl(DepthCap(o) + 1)])
    ensures CutAt(o, Record(o, st, v))
  {
    var d := DepthCap(o);
    LimitLog(o, st, v);
    assert st.queue[1..] == if HasDeadLink(o) then [Item(DeadUrl(d), d)] else [];
  }

  lemma LimitLog(o: Options, st: State, v: Visit)
    requires ChainAt(o, st, DepthCap(o)) && v.fate == Read([ChainUrl(DepthCap(o) + 1)]) && |v.key| == DepthCap(o) + 1
    ensures var log := st.log + [v];
            && (exists i :: 0 <= i < |log| && log[i].fate == Read([ChainUrl(DepthCap(o) + 1)]))
            && ShortKeys(log, DepthCap(o) + 1) && |PagesOf(log)| == DepthCap(o) + 1
  {
    LogAppend(st.log, v);
    assert (st.log + [v])[|st.log|] == v;
  }

  lemma DeadIsUnseen(o: Options, log: seq<Visit>, v: Visit)
    requires CanMislead(o) && HasDeadLink(o) && ShortKeys(log, DepthCap(o)) && v.key == ChainUrl(DepthCap(o))
    ensures !Visited(log + [v], DeadUrl(DepthCap(o)))
  {
    var d := DepthCap(o);
    LogAppend(log, v);
    assert ChainUrl(d)[d] == 'x' && DeadUrl(d)[d] == 'y';
  }

  lemma LimitStep(o: Options, st: State)
    requires CanMislead(o) && ChainAt(o, st, DepthCap(o))
    ensures Running(Chain(o), o, st) && CutAt(o, Iterate(Chain(o), o, st))
    ensures HasDeadLink(o) ==> !Visited(Iterate(Chain(o), o, st).log, DeadUrl(DepthCap(o)))
  {
    var d := DepthCap(o);
    ChainFate(o, d, ChainUrl(d));
    TopOne(Anchor(ChainUrl(d) + "x", 1));
    assert !Visited(st.log, ChainUrl(d));
    LimitRecord(o, st, VisitOf(Chain(o), o, st));
    if HasDeadLink(o) {
      DeadIsUnseen(o, st.log, VisitOf(Chain(o), o, st));
    }
  }

  lemma DeadStep(o: Options, st: State)
    requires CanMislead(o) && HasDeadLink(o) && CutAt(o, st) && !Visited(st.log, DeadUrl(DepthCap(o)))
    ensures var st' := Iterate(Chain(o), o, st);
            Running(Chain(o), o, st) && st'.queue == [] && st'.budget == None
            && |st'.log| == |st.log| + 1 && st'.log[..|st.log|] == st.log
            && |st'.log[|st.log|].key| == DepthCap(o) + 1
  {
    var w, d := Chain(o), DepthCap(o);
    ChainFate(o, d + 1, DeadUrl(d));
    assert KeyOf(DeadUrl(d)) == DeadUrl(d);
    assert st.queue[1..] == [];
  }

  lemma CutShows(o: Options, log: seq<Visit>, i: nat)
    requires i < |log| && log[i].fate == Read([ChainUrl(DepthCap(o) + 1)]) && ShortKeys(log, DepthCap(o) + 1)
    ensures !NothingCut(log)
  {
    var k := ChainUrl(DepthCap(o) + 1);
    assert k in [k] && LinksTo([k], k);
    assert !Visited(log, k);
  }

  lemma StaysCut(o: Options, log: seq<Visit>, v: Visit)
    requires exists i :: 0 <= i < |log| && log[i].fate == Read([ChainUrl(DepthCap(o) + 1)])
    requires ShortKeys(log, DepthCap(o) + 1) && |v.key| == DepthCap(o) + 1
    ensures !NothingCut(log + [v])
  {
    var i :| 0 <= i < |log| && log[i].fate == Read([ChainUrl(DepthCap(o) + 1)]);
    CutShows(o, log + [v], i);
  }

  lemma DeadStepStaysCut(o: Options, st: State)
    requires CanMislead(o) && HasDeadLink(o) && CutAt(o, st) && !Visited(st.log, DeadUrl(DepthCap(o)))
    ensures var st' := Iterate(Chain(o), o, st);
            Running(Chain(o), o, st) && st'.queue == [] && st'.budget == None && !NothingCut(st'.log)
  {
    DeadStep(o, st);
    var log := Iterate(Chain(o), o, st).log;
    StaysCut(o, st.log, log[|st.log|]);
    assert log == st.log + [log[|st.log|]];
  }

  lemma CutState(o: Options, st: State)
    requires CutAt(o, st)
    ensures !NothingCut(st.log)
  {
    var i :| 0 <= i < |st.log| && st.log[i].fate == Read([ChainUrl(DepthCap(o) + 1)]);
    CutShows(o, st.log, i);
  }

  lemma ChainMisleads(o: Options)
    requires CanMislead(o)
    ensures Crawled(Chain(o), o, "s").budget == None && !NothingCut(Crawled(Chain(o), o, "s").log)
  {
    var w, d := Chain(o), DepthCap(o);
    ChainRun(o, d);
    LimitStep(o, After(w, o, "s", d));
    var st := After(w, o, "s", d + 1);
    if HasDeadLink(o) {
      DeadStepStaysCut(o, st);
      SettleAfter(w, o, "s", d + 2);
    } else {
      CutState(o, st);
      SettleAfter(w, o, "s", d + 1);
    }
  }

  // A run that reports no exhausted budget has visited every followed link of every page it read, on
  // all sites and whatever happens, iff the page budget is too small to reach the depth limit, or
  // there is no time at all, or no depth at all and pages to spare.
  lemma NullMeansFollowedIff(o: Options)
    ensures NullMeansFollowed(o)
       <==> o.maxPages <= DepthCap(o) || o.budgetMs <= 0 || (o.maxDepth <= 0 && o.maxPages >= 2)
  {
    if CanMislead(o) {
      ChainMisleads(o);
      assert Forward(Chain(o));
    } else if o.budgetMs <= 0 {
      forall w, url | Forward(w) ensures Crawled(w, o, url).budget.Some? {
        NoTimeIsReported(w, o, url);
      }
    } else {
      forall w, url | Forward(w) && Crawled(w, o, url).budget == None ensures NothingCut(Crawled(w, o, url).log) {
        ReportedBudget(w, o, url);
        CrawledInv(w, o, url);
        if o.maxPages <= DepthCap(o) {
          FewPagesAreHonest(w, o, url);
        } else {
          NoDepthIsHonest(w, o, url);
        }
      }
    }
  }
}
