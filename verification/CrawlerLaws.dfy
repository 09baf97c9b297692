/** The crawl in terms of URLs, hosts and answers alone: what counts as one page, and what is reported. */
module CrawlerLaws {
  import opened Wrappers
  import opened Text
  import opened LinkExtraction
  import opened Crawler
  import opened CrawlerInvariants
  import opened CrawlerTheorems

  // ---- One page, two URLs ----------------------------------------------------------------

  // u is v with a slash after it, v not ending in one already.
  predicate Slashed(u: Url, v: Url) {
    u == v + "/" && v != "" && (v == "/" || v[|v| - 1] != '/')
  }

  predicate SamePage(u: Url, v: Url) {
    u == v || Slashed(u, v) || Slashed(v, u)
  }

  lemma KeysMeanPages(u: Url, v: Url)
    ensures KeyOf(u) == KeyOf(v) <==> SamePage(u, v)
  {
    KeyShape(u);
    KeyShape(v);
    if KeyOf(u) == KeyOf(v) && u != v {
      assert u == KeyOf(u) + "/" || v == KeyOf(u) + "/";
    }
    if Slashed(u, v) {
      assert u[..|u| - 1] == v;
    }
    if Slashed(v, u) {
      assert v[..|v| - 1] == u;
    }
  }

  lemma KeyShape(u: Url)
    ensures u == KeyOf(u) || (u == KeyOf(u) + "/" && KeyOf(u) != "")
    ensures u == KeyOf(u) && u != "/" && u != "" ==> u[|u| - 1] != '/'
  {
    if |u| > 1 && u[|u| - 1] == '/' {
      assert u == u[..|u| - 1] + "/";
    }
  }

  // A page is never taken twice, be it under one URL or with and without a final slash.
  lemma PagesAreTakenOnce(w: World, o: Options, url: Url, i: nat, j: nat)
    requires i < j < |Crawled(w, o, url).log|
    ensures !SamePage(Crawled(w, o, url).log[i].url, Crawled(w, o, url).log[j].url)
  {
    CrawledInv(w, o, url);
    var log := Crawled(w, o, url).log;
    KeysMeanPages(log[i].url, log[j].url);
    assert log[i].key == KeyOf(log[i].url) && log[j].key == KeyOf(log[j].url);
  }

  // Nor reported twice.
  lemma PagesAreReportedOnce(w: World, o: Options, url: Url, i: nat, j: nat)
    requires i < j < |ReportOf(Crawled(w, o, url)).pages|
    ensures !SamePage(ReportOf(Crawled(w, o, url)).pages[i], ReportOf(Crawled(w, o, url)).pages[j])
  {
    var pages := ReportOf(Crawled(w, o, url)).pages;
    PagesAreDistinct(w, o, url, i, j);
    KeysMeanPages(pages[i], pages[j]);
  }

  // In particular not u and u with a slash.
  lemma SlashIsNoOtherPage(w: World, o: Options, url: Url, u: Url)
    requires u != "" && u[|u| - 1] != '/'
    ensures var log := Crawled(w, o, url).log;
            forall i, j | 0 <= i < |log| && 0 <= j < |log| :: !(log[i].url == u && log[j].url == u + "/")
    ensures !(u in ReportOf(Crawled(w, o, url)).pages && u + "/" in ReportOf(Crawled(w, o, url)).pages)
  {
    var log, pages := Crawled(w, o, url).log, PagesOf(Crawled(w, o, url).log);
    forall i, j | 0 <= i < |log| && 0 <= j < |log| ensures !(log[i].url == u && log[j].url == u + "/") {
      if i < j {
        PagesAreTakenOnce(w, o, url, i, j);
      } else if j < i {
        PagesAreTakenOnce(w, o, url, j, i);
      }
    }
    if u in pages && u + "/" in pages {
      var i :| 0 <= i < |pages| && pages[i] == u;
      var j :| 0 <= j < |pages| && pages[j] == u + "/";
      if i < j {
        PagesAreReportedOnce(w, o, url, i, j);
      } else {
        PagesAreReportedOnce(w, o, url, j, i);
      }
    }
  }

  // An item is dropped exactly when its page was taken before; any other is taken there and then.
  lemma DroppedIffTaken(w: World, o: Options, url: Url, n: nat)
    requires Running(w, o, After(w, o, url, n))
    ensures var st, st' := After(w, o, url, n), After(w, o, url, n + 1);
            var item := st.queue[0];
            if exists i :: 0 <= i < |st.log| && SamePage(st.log[i].url, item.url)
            then st'.log == st.log && st'.queue == st.queue[1..]
            else |st'.log| == |st.log| + 1 && st'.log[..|st.log|] == st.log
                 && var v := st'.log[|st.log|]; v.url == item.url && v.depth == item.depth && v.step == n
  {
    AfterInv(w, o, url, n);
    AfterSteps(w, o, url, n);
    var st := After(w, o, url, n);
    var item := st.queue[0];
    assert After(w, o, url, n + 1) == Iterate(w, o, st);
    forall i | 0 <= i < |st.log| ensures st.log[i].key == KeyOf(item.url) <==> SamePage(st.log[i].url, item.url) {
      KeysMeanPages(st.log[i].url, item.url);
    }
    assert Visited(st.log, KeyOf(item.url)) <==> exists i :: 0 <= i < |st.log| && SamePage(st.log[i].url, item.url);
  }

  lemma StepCounted(w: World, o: Options, st: State)
    requires st.queue != []
    ensures Iterate(w, o, st).step == st.step + 1
  {
  }

  // While the loop runs, the iterations are counted.
  lemma {:induction false} AfterSteps(w: World, o: Options, url: Url, n: nat)
    requires Running(w, o, After(w, o, url, n))
    ensures After(w, o, url, n).step == n
  {
    if n > 0 {
      AfterSteps(w, o, url, n - 1);
      StepCounted(w, o, After(w, o, url, n - 1));
    }
  }

  // ---- Links are queued in order ---------------------------------------------------------

  // Neither v nor a visit of the log took the page of l.
  ghost predicate Unseen(log: seq<Visit>, v: Visit, l: Url) {
    !SamePage(v.url, l) && forall i | 0 <= i < |log| :: !SamePage(log[i].url, l)
  }

  // The places of the members that are wanted, in order.
  function Picks<T>(s: seq<T>, wanted: T -> bool): (from: seq<nat>)
    ensures forall p | 0 <= p < |from| :: from[p] < |s|
  {
    if s == [] then []
    else
      var n := |s| - 1;
      Picks(s[..n], wanted) + if wanted(s[n]) then [n] else []
  }

  predicate Rising(from: seq<nat>) {
    forall p, q | 0 <= p < q < |from| :: from[p] < from[q]
  }

  lemma {:induction false} PicksRise<T>(s: seq<T>, wanted: T -> bool)
    ensures Rising(Picks(s, wanted))
    decreases |s|
  {
    if s != [] {
      PicksRise(s[..|s| - 1], wanted);
    }
  }

  lemma {:induction false} PicksAll<T>(s: seq<T>, wanted: T -> bool, i: nat)
    ensures i in Picks(s, wanted) <==> i < |s| && wanted(s[i])
    decreases |s|
  {
    if s != [] {
      var n := |s| - 1;
      PicksAll(s[..n], wanted, i);
      assert i < n ==> s[..n][i] == s[i];
    }
  }

  function Wanted(seen: set<Key>): Url -> bool { (l: Url) => KeyOf(l) !in seen }

  lemma {:induction false} ChildrenArePicked(seen: set<Key>, links: seq<Url>, depth: nat)
    ensures var cs, from := Children(seen, links, depth), Picks(links, Wanted(seen));
            |cs| == |from| && forall p | 0 <= p < |cs| :: cs[p] == Item(links[from[p]], depth)
    decreases |links|
  {
    if links != [] {
      ChildrenArePicked(seen, links[..|links| - 1], depth);
    }
  }

  // The links of a page above the depth limit whose pages were not taken yet go to the end of the queue,
  // in their order; below it, and after any other visit, nothing does.
  lemma LinksAreQueued(o: Options, st: State, v: Visit)
    requires st.queue != []
    ensures var queue := Record(o, st, v).queue;
            if v.fate.Read? && v.depth < o.maxDepth
            then var links, from := v.fate.links, Picks(v.fate.links, Wanted(KeysOf(st.log) + {v.key}));
              && |queue| == |st.queue| - 1 + |from| && queue[..|st.queue| - 1] == st.queue[1..]
              && (forall p | 0 <= p < |from| :: queue[|st.queue| - 1 + p] == Item(links[from[p]], v.depth + 1))
            else queue == st.queue[1..]
  {
    if v.fate.Read? && v.depth < o.maxDepth {
      ChildrenArePicked(KeysOf(st.log) + {v.key}, v.fate.links, v.depth + 1);
    }
  }

  lemma SeenMeansPage(log: seq<Visit>, v: Visit, l: Url)
    requires v.key == KeyOf(v.url) && forall i | 0 <= i < |log| :: log[i].key == KeyOf(log[i].url)
    ensures Unseen(log, v, l) <==> KeyOf(l) !in KeysOf(log) + {v.key}
  {
    KeysMeanPages(v.url, l);
    forall i | 0 <= i < |log| ensures log[i].key == KeyOf(l) <==> SamePage(log[i].url, l) {
      KeysMeanPages(log[i].url, l);
    }
    assert KeyOf(l) in KeysOf(log) <==> Visited(log, KeyOf(l));
  }

  // ---- Hosts and answers -----------------------------------------------------------------

  // The allowed host, or the same behind one "www.".
  predicate OnHost(host: string, allowed: string) {
    host == "www." + allowed || (host == allowed && !("www." <= allowed))
  }

  lemma HostsCompared(host: string, allowed: string)
    ensures StripWww(host) == allowed <==> OnHost(host, allowed)
  {
    if "www." <= host {
      assert host == "www." + host[4..];
    }
  }

  // part occurs in s.
  ghost predicate Occurs(s: string, part: string) {
    exists before, after :: s == before + part + after
  }

  lemma {:induction false} IncludesIffOccurs(s: string, part: string)
    ensures Includes(s, part) <==> Occurs(s, part)
    decreases |s|
  {
    if part <= s {
      assert s == "" + part + s[|part|..];
    } else if s != "" {
      IncludesIffOccurs(s[1..], part);
      if Occurs(s[1..], part) {
        var before, after :| s[1..] == before + part + after;
        assert s == ([s[0]] + before) + part + after;
      }
      if before, after :| s == before + part + after && before != "" {
        assert s[1..] == before[1..] + part + after;
      }
      assert forall after :: s != "" + part + after;
    }
  }

  // No media type is given, or one that mentions html or xml.
  ghost predicate Markup(kind: string) {
    kind == "" || Occurs(kind, "html") || Occurs(kind, "xml")
  }

  lemma MarkupIs(kind: string)
    ensures IsMarkup(kind) <==> Markup(kind)
  {
    IncludesIffOccurs(kind, "html");
    IncludesIffOccurs(kind, "xml");
  }

  // The host was found and is the allowed one.
  predicate AtHome(w: World, o: Options, url: Url) {
    w.hostOf(url).Some? && OnHost(w.hostOf(url).value, o.allowedHost)
  }

  // Robots, when asked, neither forbade the page nor revealed a private host.
  predicate Admitted(w: World, o: Options, n: nat, url: Url) {
    AtHome(w, o, url) && (o.respectRobots ==> w.robots(n, url).MayFetch? || w.robots(n, url).Unreadable?)
  }

  // What becomes of an item, case by case.
  lemma FateByCases(w: World, o: Options, n: nat, url: Url)
    ensures var f, robots, a := FateOf(w, o, n, url), w.robots(n, url), w.fetch(n, url);
            && (w.hostOf(url).None? ==> f == Failed(UnsafeUrl, false))
            && (f == OffHost <==> w.hostOf(url).Some? && !OnHost(w.hostOf(url).value, o.allowedHost))
            && (f == Disallowed <==> AtHome(w, o, url) && o.respectRobots && robots == MustNotFetch)
            && (AtHome(w, o, url) && o.respectRobots && robots.PrivateHost? ==>
                  f == Failed(PrivateAddress(robots.reason), false))
            && (Admitted(w, o, n, url) && a.Threw? ==> f == Failed(Error(a.reason), true))
            && (Admitted(w, o, n, url) && a.Fetched? && !a.ok ==> f == Failed(HttpStatus(a.status), true))
            && (Admitted(w, o, n, url) && a.Fetched? && a.ok && !Markup(a.contentType) ==>
                  f == Failed(ContentType(BeforeSemicolon(a.contentType)), true))
            && (Admitted(w, o, n, url) && a.Fetched? && a.ok && Markup(a.contentType) ==>
                  f == Read(TopLinks(a.anchors)))
  {
    var a := w.fetch(n, url);
    if w.hostOf(url).Some? {
      HostsCompared(w.hostOf(url).value, o.allowedHost);
    }
    if a.Fetched? {
      MarkupIs(a.contentType);
      FirstPiece(a.contentType, ';');
    }
  }

  // Every visit has the fate that the world's answers at its iteration give it.
  lemma VisitsAreDecided(w: World, o: Options, url: Url, i: nat)
    requires i < |Crawled(w, o, url).log|
    ensures var v := Crawled(w, o, url).log[i]; v.fate == FateOf(w, o, v.step, v.url)
  {
    CrawledInv(w, o, url);
  }

  // ---- The report ------------------------------------------------------------------------

  // The report lists the pages read, those that robots closed and those that failed with their reasons,
  // each in the order of the visits.
  lemma ReportIsSelected(w: World, o: Options, url: Url)
    ensures var log, report := Crawled(w, o, url).log, ReportOf(Crawled(w, o, url));
            && Lists(log, report.pages, Picks(log, (v: Visit) => v.fate.Read?))
            && Lists(log, report.skippedByRobots, Picks(log, (v: Visit) => v.fate.Disallowed?))
            && ListsReasons(log, report.failed, Picks(log, (v: Visit) => v.fate.Failed?))
  {
    var log := Crawled(w, o, url).log;
    PagesPicked(log);
    SkippedPicked(log);
    FailedPicked(log);
  }

  ghost predicate Lists(log: seq<Visit>, urls: seq<Url>, from: seq<nat>) {
    |urls| == |from| && forall p | 0 <= p < |from| :: from[p] < |log| && urls[p] == log[from[p]].url
  }

  ghost predicate ListsReasons(log: seq<Visit>, failed: seq<(Url, Reason)>, from: seq<nat>) {
    && |failed| == |from|
    && forall p | 0 <= p < |from| ::
         from[p] < |log| && log[from[p]].fate.Failed? && failed[p] == (log[from[p]].url, log[from[p]].fate.reason)
  }

  lemma ListsNext(log: seq<Visit>, urls: seq<Url>, from: seq<nat>)
    requires log != [] && Lists(log[..|log| - 1], urls, from)
    ensures Lists(log, urls, from) && Lists(log, urls + [log[|log| - 1].url], from + [|log| - 1])
  {
  }

  lemma ListsReasonsNext(log: seq<Visit>, failed: seq<(Url, Reason)>, from: seq<nat>)
    requires log != [] && ListsReasons(log[..|log| - 1], failed, from)
    ensures ListsReasons(log, failed, from)
    ensures var v := log[|log| - 1];
            v.fate.Failed? ==> ListsReasons(log, failed + [(v.url, v.fate.reason)], from + [|log| - 1])
  {
  }

  lemma {:induction false} PagesPicked(log: seq<Visit>)
    ensures Lists(log, PagesOf(log), Picks(log, (v: Visit) => v.fate.Read?))
    decreases |log|
  {
    if log != [] {
      var before := log[..|log| - 1];
      PagesPicked(before);
      ListsNext(log, PagesOf(before), Picks(before, (v: Visit) => v.fate.Read?));
    }
  }

  lemma {:induction false} SkippedPicked(log: seq<Visit>)
    ensures Lists(log, SkippedOf(log), Picks(log, (v: Visit) => v.fate.Disallowed?))
    decreases |log|
  {
    if log != [] {
      var before := log[..|log| - 1];
      SkippedPicked(before);
      ListsNext(log, SkippedOf(before), Picks(before, (v: Visit) => v.fate.Disallowed?));
    }
  }

  lemma {:induction false} FailedPicked(log: seq<Visit>)
    ensures ListsReasons(log, FailedOf(log), Picks(log, (v: Visit) => v.fate.Failed?))
    decreases |log|
  {
    if log != [] {
      var before := log[..|log| - 1];
      FailedPicked(before);
      ListsReasonsNext(log, FailedOf(before), Picks(before, (v: Visit) => v.fate.Failed?));
    }
  }

  // Pages first, then time: why a crawl with items left stopped. A dry queue reports the depth when
  // the last item taken was a page read at the limit with pages to spare, and otherwise nothing.
  lemma BudgetByCases(w: World, o: Options, url: Url)
    ensures var st, report := Crawled(w, o, url), ReportOf(Crawled(w, o, url));
            && (report.budgetExhausted == Some(Pages) <==> st.queue != [] && |report.pages| >= o.maxPages)
            && (report.budgetExhausted == Some(Time) <==>
                  st.queue != [] && |report.pages| < o.maxPages && w.elapsed(st.step) >= o.budgetMs)
            && (report.budgetExhausted == Some(Depth) <==>
                  && st.queue == [] && |report.pages| < o.maxPages && st.log != []
                  && var last := st.log[|st.log| - 1];
                     last.step == st.step - 1 && last.fate.Read? && last.depth >= o.maxDepth)
  {
    CrawledInv(w, o, url);
    ReportedBudget(w, o, url);
  }
}
