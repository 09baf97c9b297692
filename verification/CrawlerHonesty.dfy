/** When a crawl that reports no exhausted budget has visited every link of the pages it read. */
module CrawlerHonesty {
  import opened Wrappers
  import opened LinkExtraction
  import opened Crawler
  import opened CrawlerInvariants
  import opened CrawlerTheorems
  import opened CrawlerBudget

  // The links of a page, before the choice of twenty.
  function AnchorsAt(w: World, v: Visit): seq<Anchor> {
    match w.fetch(v.step, v.url)
    case Fetched(_, _, _, anchors) => anchors
    case Threw(_) => []
  }

  // Every link of every page read was itself visited.
  ghost predicate NothingMissed(w: World, log: seq<Visit>) {
    forall i, a | 0 <= i < |log| && log[i].fate.Read? && a in AnchorsAt(w, log[i]) :: Visited(log, KeyOf(a.url))
  }

  // With these options, a thin result is never mistaken for a thin site.
  ghost predicate NullIsHonest(o: Options) {
    forall w, url ::
      Forward(w) && Crawled(w, o, url).budget == None ==> NothingMissed(w, Crawled(w, o, url).log)
  }

  // The last step of the shortest way to a visited key.
  lemma CameFrom(w: World, o: Options, url: Url, i: nat) returns (j: nat)
    requires i < |Crawled(w, o, url).log| && Crawled(w, o, url).log[i].key != KeyOf(url)
    ensures var log := Crawled(w, o, url).log;
            && j < |log| && j != i && log[j].fate.Read? && LinksTo(log[j].fate.links, log[i].key)
  {
    CrawledInv(w, o, url);
    ShapeIsGradual(o, KeyOf(url), Crawled(w, o, url));
    j := LastStep(Crawled(w, o, url).log, KeyOf(url), i);
  }

  lemma LastStep(log: seq<Visit>, root: Key, i: nat) returns (j: nat)
    requires i < |log| && Gradual(log, root) && HasWalk(log, root, log[i].key, log[i].depth) && log[i].key != root
    ensures j < |log| && j != i && log[j].fate.Read? && LinksTo(log[j].fate.links, log[i].key)
  {
    var d := log[i].depth;
    var m :| HasWalk(log, root, m, d - 1) && Edge(log, m, log[i].key);
    j :| 0 <= j < |log| && log[j].key == m && log[j].fate.Read? && LinksTo(log[j].fate.links, log[i].key);
    if i == j {
      NoShorterWalk(log, root, i, d - 1);
    }
  }

  lemma LinksOfRead(w: World, o: Options, url: Url, i: nat)
    requires i < |Crawled(w, o, url).log| && Crawled(w, o, url).log[i].fate.Read?
    ensures var v := Crawled(w, o, url).log[i]; v.fate.links == TopLinks(AnchorsAt(w, v)) && v.key == KeyOf(v.url)
  {
    ReadsAreGenuine(w, o, url, i);
    CrawledInv(w, o, url);
  }

  // ---- A site with more links than are followed ------------------------------------------

  function FirstAnchors(n: nat): seq<Anchor> {
    if n == 0 then [] else FirstAnchors(n - 1) + [Anchor(ChainUrl(n), 1)]
  }

  // Its start page has them, and nothing else answers.
  function Star(o: Options, anchors: seq<Anchor>): World {
    World(
      (n: nat) => 0,
      (u: Url) => Some("www." + o.allowedHost),
      (n: nat, u: Url) => MayFetch,
      (n: nat, u: Url) => if KeyOf(u) == "s" then Fetched(true, 200, "html", anchors) else Threw("gone"))
  }

  lemma StarFate(o: Options, anchors: seq<Anchor>, n: nat, u: Url)
    ensures FateOf(Star(o, anchors), o, n, u)
         == if KeyOf(u) == "s" then Read(TopLinks(anchors)) else Failed(Error("gone"), true)
  {
    var host := "www." + o.allowedHost;
    assert host[4..] == o.allowedHost;
    assert StripWww(host) == o.allowedHost;
    assert Includes("html", "html");
  }

  // Only the start page is read, at depth 0.
  lemma StarReads(o: Options, anchors: seq<Anchor>, i: nat)
    requires i < |Crawled(Star(o, anchors), o, "s").log|
    ensures var v := Crawled(Star(o, anchors), o, "s").log[i];
            && (v.fate.Read? <==> v.key == "s") && (v.fate.Read? ==> v.depth == 0)
            && (v.fate.Read? ==> v.fate.links == TopLinks(anchors) && AnchorsAt(Star(o, anchors), v) == anchors)
  {
    var w := Star(o, anchors);
    var st := Crawled(w, o, "s");
    CrawledInv(w, o, "s");
    StarFate(o, anchors, st.log[i].step, st.log[i].url);
    assert KeyOf("s") == "s";
    ShapeIsGradual(o, "s", st);
  }

  lemma {:induction false} OneRead(log: seq<Visit>)
    requires KeysOnce(log) && forall i | 0 <= i < |log| :: log[i].fate.Read? ==> log[i].key == "s"
    ensures |PagesOf(log)| <= 1
    decreases |log|
  {
    if |log| > 0 {
      var n := |log| - 1;
      OneRead(log[..n]);
      if log[n].fate.Read? && |PagesOf(log[..n])| > 0 {
        var p := PageIsRead(log[..n], 0);
      }
    }
  }

  // The keys visited are the start and followed links, so one of the links is missing.
  lemma VisitedOnStar(o: Options, anchors: seq<Anchor>, k: Key)
    requires k != "s" && Visited(Crawled(Star(o, anchors), o, "s").log, k)
    ensures LinksTo(TopLinks(anchors), k)
  {
    var log := Crawled(Star(o, anchors), o, "s").log;
    var i :| 0 <= i < |log| && log[i].key == k;
    var j := CameFrom(Star(o, anchors), o, "s", i);
    StarReads(o, anchors, j);
  }

  function ChainKeys(n: nat): (ks: set<Key>)
    ensures |ks| == n && forall k | k in ks :: |k| <= n + 1
  {
    if n == 0 then {} else ChainKeys(n - 1) + {ChainUrl(n)}
  }

  lemma {:induction false} ChainKeyIsLinked(n: nat, k: Key) returns (a: Anchor)
    requires k in ChainKeys(n)
    ensures k != "s" && a in FirstAnchors(n) && KeyOf(a.url) == k
  {
    if k == ChainUrl(n) {
      a := Anchor(k, 1);
    } else {
      a := ChainKeyIsLinked(n - 1, k);
    }
  }

  function LinkKeys(links: seq<Url>): (ks: set<Key>)
    ensures |ks| <= |links| && forall k :: k in ks <==> LinksTo(links, k)
  {
    if links == [] then {}
    else
      assert links == links[..|links| - 1] + [links[|links| - 1]];
      LinkKeys(links[..|links| - 1]) + {KeyOf(links[|links| - 1])}
  }

  lemma SomeLinkIsMissed(o: Options) returns (a: Anchor)
    ensures a in FirstAnchors(MAX_LINKS + 1)
    ensures !Visited(Crawled(Star(o, FirstAnchors(MAX_LINKS + 1)), o, "s").log, KeyOf(a.url))
  {
    var anchors := FirstAnchors(MAX_LINKS + 1);
    var ks, followed := ChainKeys(MAX_LINKS + 1), LinkKeys(TopLinks(anchors));
    if ks <= followed {
      SubsetSize(ks, followed);
    }
    var k :| k in ks && k !in followed;
    a := ChainKeyIsLinked(MAX_LINKS + 1, k);
    if Visited(Crawled(Star(o, anchors), o, "s").log, k) {
      VisitedOnStar(o, anchors, k);
    }
  }

  lemma StarPages(o: Options, anchors: seq<Anchor>)
    ensures |PagesOf(Crawled(Star(o, anchors), o, "s").log)| <= 1
  {
    var log := Crawled(Star(o, anchors), o, "s").log;
    CrawledInv(Star(o, anchors), o, "s");
    forall i | 0 <= i < |log| ensures log[i].fate.Read? ==> log[i].key == "s" {
      StarReads(o, anchors, i);
    }
    OneRead(log);
  }

  // Time, and pages to read: more than one, or the start page only with no depth to go further.
  predicate CanMiss(o: Options) {
    o.budgetMs > 0 && if o.maxDepth >= 1 then o.maxPages >= 2 else o.maxPages == 1
  }

  lemma StarRunsDry(o: Options, anchors: seq<Anchor>)
    requires CanMiss(o)
    ensures Crawled(Star(o, anchors), o, "s").queue == []
  {
    var w := Star(o, anchors);
    var st := Crawled(w, o, "s");
    CrawledInv(w, o, "s");
    StarPages(o, anchors);
    if o.maxDepth <= 0 && st.queue != [] {
      var m := CrawlEnds(w, o, "s", 0);
      AfterOnlyStart(w, o, "s", m);
    }
  }

  lemma StartIsRead(o: Options, anchors: seq<Anchor>) returns (i: nat)
    requires CanMiss(o)
    ensures var log := Crawled(Star(o, anchors), o, "s").log; i < |log| && log[i].key == "s" && log[i].fate.Read?
  {
    var st := Crawled(Star(o, anchors), o, "s");
    CrawledInv(Star(o, anchors), o, "s");
    StarRunsDry(o, anchors);
    assert Covered(st, "s", 0);
    i :| 0 <= i < |st.log| && st.log[i].key == "s";
    StarReads(o, anchors, i);
  }

  lemma StarEndsAboveLimit(o: Options, anchors: seq<Anchor>)
    requires CanMiss(o)
    ensures !EndedAtLimit(o, Crawled(Star(o, anchors), o, "s"))
  {
    var st := Crawled(Star(o, anchors), o, "s");
    var i := StartIsRead(o, anchors);
    if EndedAtLimit(o, st) {
      StarReads(o, anchors, |st.log| - 1);
    }
  }

  lemma StarMisleads(o: Options)
    requires CanMiss(o)
    ensures var w := Star(o, FirstAnchors(MAX_LINKS + 1));
            && Forward(w) && Crawled(w, o, "s").budget == None
            && !NothingMissed(w, Crawled(w, o, "s").log)
  {
    var anchors := FirstAnchors(MAX_LINKS + 1);
    var w := Star(o, anchors);
    StarRunsDry(o, anchors);
    StarEndsAboveLimit(o, anchors);
    ReportedBudget(w, o, "s");
    var i := StartIsRead(o, anchors);
    StarReads(o, anchors, i);
    var a := SomeLinkIsMissed(o);
  }

  // ---- Options that cannot mislead -------------------------------------------------------

  // With a budget of one page nothing is taken after it.
  ghost predicate OneVisit(st: State) {
    |st.log| <= 1 && (PagesOf(st.log) == [] ==> |st.log| + |st.queue| <= 1)
  }

  lemma IterateOneVisit(w: World, o: Options, st: State)
    requires o.maxPages == 1 && Running(w, o, st) && OneVisit(st)
    ensures OneVisit(Iterate(w, o, st))
  {
    FirstVisit(o, st, VisitOf(w, o, st));
  }

  lemma FirstVisit(o: Options, st: State, v: Visit)
    requires st.log == [] && |st.queue| == 1
    ensures OneVisit(Record(o, st, v))
  {
    LogAppend(st.log, v);
  }

  lemma {:induction false} AfterOneVisit(w: World, o: Options, url: Url, n: nat)
    requires o.maxPages == 1
    ensures OneVisit(After(w, o, url, n))
  {
    if n > 0 {
      AfterOneVisit(w, o, url, n - 1);
      var st := After(w, o, url, n - 1);
      if Running(w, o, st) {
        IterateOneVisit(w, o, st);
      }
    }
  }

  // Twenty different links have more than one key.
  lemma FewLinksOfOneKey(links: seq<Url>, k: Key)
    requires forall i, j | 0 <= i < j < |links| :: links[i] != links[j]
    requires forall i | 0 <= i < |links| :: KeyOf(links[i]) == k
    ensures |links| <= 2
  {
    if |links| > 2 {
      SameKey(links[0], k);
      SameKey(links[1], k);
      SameKey(links[2], k);
    }
  }

  lemma SameKey(u: Url, k: Key)
    requires KeyOf(u) == k
    ensures u == k || u == k + "/"
  {
    if u != k {
      assert u == u[..|u| - 1] + [u[|u| - 1]];
    }
  }

  // The only page taken is the start, and its links all lead back to it, so none was cut.
  lemma OnlyPageLinksToItself(w: World, o: Options, url: Url)
    requires o.maxDepth >= 1 && Crawled(w, o, url).queue == [] && |Crawled(w, o, url).log| == 1
    requires Crawled(w, o, url).log[0].fate.Read?
    ensures var v := Crawled(w, o, url).log[0]; forall l | l in v.fate.links :: KeyOf(l) == v.key
  {
    var st := Crawled(w, o, url);
    CrawledInv(w, o, url);
    if st.log[0].key != KeyOf(url) {
      var j := CameFrom(w, o, url, 0);
    }
    ShapeIsGradual(o, KeyOf(url), st);
    forall l | l in st.log[0].fate.links ensures KeyOf(l) == st.log[0].key {
      assert LinksTo(st.log[0].fate.links, KeyOf(l));
      assert Covered(st, KeyOf(l), 1);
    }
  }

  lemma OnePageFollowsAll(w: World, o: Options, url: Url, a: Anchor)
    requires o.maxDepth >= 1 && Crawled(w, o, url).queue == [] && |Crawled(w, o, url).log| == 1
    requires Crawled(w, o, url).log[0].fate.Read? && a in AnchorsAt(w, Crawled(w, o, url).log[0])
    ensures KeyOf(a.url) == Crawled(w, o, url).log[0].key
  {
    var v := Crawled(w, o, url).log[0];
    LinksOfRead(w, o, url, 0);
    OnlyPageLinksToItself(w, o, url);
    var anchors := AnchorsAt(w, v);
    TopLinksAreDistinct(anchors);
    FewLinksOfOneKey(TopLinks(anchors), v.key);
    FewLinksAreAll(anchors, a);
  }

  lemma OnePageIsHonest(w: World, o: Options, url: Url)
    requires o.maxDepth >= 1 && o.maxPages == 1 && Crawled(w, o, url).queue == []
    ensures NothingMissed(w, Crawled(w, o, url).log)
  {
    var st := Crawled(w, o, url);
    CrawledInv(w, o, url);
    var m := CrawlEnds(w, o, url, 0);
    AfterOneVisit(w, o, url, m);
    forall i, a | 0 <= i < |st.log| && st.log[i].fate.Read? && a in AnchorsAt(w, st.log[i])
      ensures Visited(st.log, KeyOf(a.url))
    {
      OnePageFollowsAll(w, o, url, a);
    }
  }

  lemma NoDepthReadsNothing(w: World, o: Options, url: Url)
    requires o.maxDepth <= 0 && o.maxPages >= 2 && Crawled(w, o, url).queue == []
    requires !EndedAtLimit(o, Crawled(w, o, url))
    ensures NothingMissed(w, Crawled(w, o, url).log)
  {
    var st := Crawled(w, o, url);
    CrawledInv(w, o, url);
    var m := CrawlEnds(w, o, url, 0);
    AfterOnlyStart(w, o, url, m);
    if i: nat :| i < |st.log| && st.log[i].fate.Read? {
      OnlyVisitEnds(o, st, i);
    }
  }

  // A run that reports no exhausted budget has visited every link of every page it read, on all
  // sites and whatever happens, iff the options leave no pages or no time, or a single page and some
  // depth, or no depth and more than one page.
  lemma NullIsHonestIff(o: Options)
    ensures NullIsHonest(o)
       <==> o.maxPages <= 0 || o.budgetMs <= 0 || if o.maxDepth >= 1 then o.maxPages == 1 else o.maxPages >= 2
  {
    if CanMiss(o) {
      StarMisleads(o);
    } else {
      forall w, url | Forward(w) && Crawled(w, o, url).budget == None ensures NothingMissed(w, Crawled(w, o, url).log) {
        ReportedBudget(w, o, url);
        CrawledInv(w, o, url);
        if o.budgetMs <= 0 {
          NoTimeIsReported(w, o, url);
        } else if o.maxPages <= 0 {
          WorkIsBounded(w, o, url);
          NoPagesReadNothing(Crawled(w, o, url).log);
        } else if o.maxDepth >= 1 {
          OnePageIsHonest(w, o, url);
        } else {
          NoDepthReadsNothing(w, o, url);
        }
      }
    }
  }

  lemma NoPagesReadNothing(log: seq<Visit>)
    requires PagesOf(log) == []
    ensures forall i | 0 <= i < |log| :: !log[i].fate.Read?
    decreases |log|
  {
    if log != [] {
      NoPagesReadNothing(log[..|log| - 1]);
    }
  }
}
