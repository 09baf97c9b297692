/** Theorems about every run of the crawl, whatever the sites and the clock do. */
module CrawlerTheorems {
  import opened Wrappers
  import opened Text
  import opened LinkExtraction
  import opened Crawler
  import opened CrawlerInvariants

  // The state after n iterations; it stays put once the loop has stopped.
  function After(w: World, o: Options, url: Url, n: nat): State {
    if n == 0 then Start(url)
    else
      var st := After(w, o, url, n - 1);
      if Running(w, o, st) then Iterate(w, o, st) else st
  }

  lemma {:induction false} AfterInv(w: World, o: Options, url: Url, n: nat)
    ensures Inv(w, o, KeyOf(url), After(w, o, url, n))
  {
    if n == 0 {
      StartInv(w, o, url);
    } else {
      AfterInv(w, o, url, n - 1);
      NextInv(w, o, KeyOf(url), After(w, o, url, n - 1));
    }
  }

  lemma NextInv(w: World, o: Options, root: Key, st: State)
    requires Inv(w, o, root, st)
    ensures Inv(w, o, root, if Running(w, o, st) then Iterate(w, o, st) else st)
  {
    if Running(w, o, st) {
      IterateInv(w, o, root, st);
    }
  }

  function Stop(w: World, o: Options, st: State): State {
    if st.queue == [] then st else st.(budget := StopReason(w, o, st))
  }

  // The crawl ends in one of those states.
  lemma {:induction false} CrawlEnds(w: World, o: Options, url: Url, n: nat) returns (m: nat)
    ensures !Running(w, o, After(w, o, url, m))
    ensures Settle(w, o, After(w, o, url, n)) == Stop(w, o, After(w, o, url, m))
    decreases PagesLeft(o, After(w, o, url, n)), |After(w, o, url, n).queue|
  {
    var st := After(w, o, url, n);
    if Running(w, o, st) {
      PagesGrow(w, o, st);
      assert After(w, o, url, n + 1) == Iterate(w, o, st);
      m := CrawlEnds(w, o, url, n + 1);
    } else {
      m := n;
    }
  }

  lemma CrawledInv(w: World, o: Options, url: Url)
    ensures Inv(w, o, KeyOf(url), Crawled(w, o, url))
    ensures Crawled(w, o, url).queue == [] || StopReason(w, o, Crawled(w, o, url)).Some?
  {
    var m := CrawlEnds(w, o, url, 0);
    AfterInv(w, o, url, m);
    StopInv(w, o, KeyOf(url), After(w, o, url, m));
  }

  lemma StopInv(w: World, o: Options, root: Key, st: State)
    requires Inv(w, o, root, st)
    ensures Inv(w, o, root, Stop(w, o, st))
  {
    SameButBudget(w, o, root, st, Stop(w, o, st));
  }

  lemma SameFrontier(o: Options, root: Key, st: State, st': State)
    requires Frontier(o, root, st) && st' == st.(budget := st'.budget)
    ensures Frontier(o, root, st')
  {
    assert forall k, d :: Covered(st', k, d) <==> Covered(st, k, d);
  }

  lemma SameButBudget(w: World, o: Options, root: Key, st: State, st': State)
    requires Inv(w, o, root, st) && st' == st.(budget := st'.budget)
    ensures Inv(w, o, root, st')
  {
    SameFrontier(o, root, st, st');
    assert Levels(st') && Capped(o, st');
    assert Walks(root, st');
  }

  // ---- Breadth first ---------------------------------------------------------------------

  // At every moment the queue is ordered by depth and holds at most two adjacent levels.
  lemma QueueIsLevelled(w: World, o: Options, url: Url, n: nat, i: nat, j: nat)
    requires i <= j < |After(w, o, url, n).queue|
    ensures var q := After(w, o, url, n).queue; q[i].depth <= q[j].depth <= q[i].depth + 1
  {
    AfterInv(w, o, url, n);
  }

  // What is both visited and covered was visited no deeper.
  lemma CoveredDepth(st: State, i: nat, d: nat)
    requires Levels(st) && KeysOnce(st.log) && i < |st.log| && Covered(st, st.log[i].key, d)
    ensures st.log[i].depth <= d
  {
    if InLog(st.log, st.log[i].key, d) {
      var j :| 0 <= j < |st.log| && st.log[j].key == st.log[i].key && st.log[j].depth <= d;
      assert i == j;
    }
  }

  // A link of a page that was read leads at most one level down.
  lemma LinkDepth(o: Options, root: Key, st: State, j: nat, i: nat)
    requires Shape(o, root, st) && i < |st.log| && j < |st.log|
    requires st.log[j].fate.Read? && LinksTo(st.log[j].fate.links, st.log[i].key)
    ensures st.log[i].depth <= st.log[j].depth + 1
  {
    if st.log[j].depth < o.maxDepth {
      CoveredDepth(st, i, st.log[j].depth + 1);
    }
  }

  // Depths start at 0 and grow by at most one along a link.
  ghost predicate Gradual(log: seq<Visit>, root: Key) {
    && (forall i | 0 <= i < |log| && log[i].key == root :: log[i].depth == 0)
    && (forall i, j | 0 <= i < |log| && 0 <= j < |log| && log[j].fate.Read? && LinksTo(log[j].fate.links, log[i].key) ::
          log[i].depth <= log[j].depth + 1)
  }

  lemma ShapeIsGradual(o: Options, root: Key, st: State)
    requires Shape(o, root, st)
    ensures Gradual(st.log, root)
  {
    forall i | 0 <= i < |st.log| && st.log[i].key == root ensures st.log[i].depth == 0 {
      CoveredDepth(st, i, 0);
    }
    forall i, j | 0 <= i < |st.log| && 0 <= j < |st.log| && st.log[j].fate.Read?
        && LinksTo(st.log[j].fate.links, st.log[i].key)
      ensures st.log[i].depth <= st.log[j].depth + 1
    {
      LinkDepth(o, root, st, j, i);
    }
  }

  lemma {:induction false} NoShorterWalk(log: seq<Visit>, root: Key, i: nat, n: nat)
    requires Gradual(log, root) && i < |log| && HasWalk(log, root, log[i].key, n)
    ensures log[i].depth <= n
    decreases n
  {
    if n > 0 {
      var m :| HasWalk(log, root, m, n - 1) && Edge(log, m, log[i].key);
      var j :| 0 <= j < |log| && log[j].key == m && log[j].fate.Read? && LinksTo(log[j].fate.links, log[i].key);
      NoShorterWalk(log, root, j, n - 1);
    }
  }

  // Every page is first taken at its least link distance from the start, along pages that were read.
  lemma DepthIsLinkDistance(w: World, o: Options, url: Url, n: nat, i: nat)
    requires i < |After(w, o, url, n).log|
    ensures var log := After(w, o, url, n).log;
            && HasWalk(log, KeyOf(url), log[i].key, log[i].depth)
            && forall d: nat :: HasWalk(log, KeyOf(url), log[i].key, d) ==> log[i].depth <= d
  {
    AfterInv(w, o, url, n);
    var st := After(w, o, url, n);
    ShapeIsGradual(o, KeyOf(url), st);
    forall d: nat | HasWalk(st.log, KeyOf(url), st.log[i].key, d) ensures st.log[i].depth <= d {
      NoShorterWalk(st.log, KeyOf(url), i, d);
    }
  }

  // Within the limit, links lead to visited pages.
  ghost predicate ClosedUpTo(log: seq<Visit>, root: Key, cap: nat) {
    && InLog(log, root, 0)
    && (forall m, k, d: nat | d < cap && InLog(log, m, d) && Edge(log, m, k) :: InLog(log, k, d + 1))
  }

  lemma LinkVisited(o: Options, root: Key, st: State, m: Key, k: Key, d: nat)
    requires KeysOnce(st.log) && Frontier(o, root, st) && st.queue == []
    requires d < DepthCap(o) && InLog(st.log, m, d) && Edge(st.log, m, k)
    ensures InLog(st.log, k, d + 1)
  {
    var j :| 0 <= j < |st.log| && st.log[j].key == m && st.log[j].fate.Read? && LinksTo(st.log[j].fate.links, k);
    var i :| 0 <= i < |st.log| && st.log[i].key == m && st.log[i].depth <= d;
    assert i == j;
    assert Covered(st, k, st.log[j].depth + 1);
  }

  lemma DryQueueIsClosed(o: Options, root: Key, st: State)
    requires KeysOnce(st.log) && Frontier(o, root, st) && st.queue == []
    ensures ClosedUpTo(st.log, root, DepthCap(o))
  {
    assert Covered(st, root, 0);
    forall m, k, d: nat | d < DepthCap(o) && InLog(st.log, m, d) && Edge(st.log, m, k) ensures InLog(st.log, k, d + 1) {
      LinkVisited(o, root, st, m, k, d);
    }
  }

  lemma {:induction false} WithinReachIsVisited(log: seq<Visit>, root: Key, cap: nat, k: Key, n: nat)
    requires ClosedUpTo(log, root, cap) && n <= cap && HasWalk(log, root, k, n)
    ensures InLog(log, k, n)
    decreases n
  {
    if n > 0 {
      var m :| HasWalk(log, root, m, n - 1) && Edge(log, m, k);
      WithinReachIsVisited(log, root, cap, m, n - 1);
    }
  }

  // When the queue runs dry, everything within maxDepth links of the start has been visited.
  lemma ExhaustedIsComplete(w: World, o: Options, url: Url, k: Key, n: nat)
    requires Crawled(w, o, url).queue == [] && n <= DepthCap(o)
    requires HasWalk(Crawled(w, o, url).log, KeyOf(url), k, n)
    ensures InLog(Crawled(w, o, url).log, k, n)
  {
    CrawledInv(w, o, url);
    var st := Crawled(w, o, url);
    DryQueueIsClosed(o, KeyOf(url), st);
    WithinReachIsVisited(st.log, KeyOf(url), DepthCap(o), k, n);
  }

  // ---- Budgets and safety ----------------------------------------------------------------

  function PageCap(o: Options): nat { if o.maxPages > 0 then o.maxPages else 0 }

  // However the sites link, the crawl reads at most maxPages pages and takes at most
  // 1 + 20 * maxPages items off its queue.
  lemma WorkIsBounded(w: World, o: Options, url: Url)
    ensures var st := Crawled(w, o, url);
            |PagesOf(st.log)| <= PageCap(o) && st.step <= 1 + MAX_LINKS * PageCap(o)
  {
    CrawledInv(w, o, url);
  }

  // A request went out for this visit.
  predicate WasFetched(v: Visit) {
    v.fate.Read? || (v.fate.Failed? && v.fate.fetched)
  }

  // No key is taken twice.
  lemma KeysAreTakenOnce(w: World, o: Options, url: Url, i: nat, j: nat)
    requires i < j < |Crawled(w, o, url).log|
    ensures Crawled(w, o, url).log[i].key != Crawled(w, o, url).log[j].key
  {
    CrawledInv(w, o, url);
  }

  lemma FetchedFate(w: World, o: Options, n: nat, url: Url)
    ensures var f := FateOf(w, o, n, url);
            f.Read? || (f.Failed? && f.fetched) ==>
              && w.hostOf(url).Some? && StripWww(w.hostOf(url).value) == o.allowedHost
              && (o.respectRobots ==> w.robots(n, url).MayFetch? || w.robots(n, url).Unreadable?)
  {
  }

  // Whatever was requested is on the allowed host, permitted by robots at that moment, and within
  // the depth limit.
  lemma FetchIsSafe(w: World, o: Options, url: Url, i: nat)
    requires i < |Crawled(w, o, url).log| && WasFetched(Crawled(w, o, url).log[i])
    ensures var v := Crawled(w, o, url).log[i];
            && w.hostOf(v.url).Some? && StripWww(w.hostOf(v.url).value) == o.allowedHost
            && (o.respectRobots ==> w.robots(v.step, v.url).MayFetch? || w.robots(v.step, v.url).Unreadable?)
            && v.depth <= DepthCap(o)
  {
    CrawledInv(w, o, url);
    var v := Crawled(w, o, url).log[i];
    assert v.fate == FateOf(w, o, v.step, v.url);
    FetchedFate(w, o, v.step, v.url);
  }

  // The content types that are read: none given, or one that mentions html or xml.
  predicate IsMarkup(kind: string) {
    kind == "" || Includes(kind, "html") || Includes(kind, "xml")
  }

  // A media type without its parameters.
  function BeforeSemicolon(kind: string): string { kind[..FirstIndex(kind, ';')] }

  lemma ReadFate(w: World, o: Options, n: nat, url: Url)
    ensures var f, a := FateOf(w, o, n, url), w.fetch(n, url);
            && (f.Read? ==> a.Fetched? && a.ok && IsMarkup(a.contentType) && f.links == TopLinks(a.anchors))
            && (f.Failed? && f.fetched ==>
                  if a.Threw? then f.reason == Error(a.reason)
                  else if !a.ok then f.reason == HttpStatus(a.status)
                  else f.reason == ContentType(BeforeSemicolon(a.contentType)) && !IsMarkup(a.contentType))
  {
    var a := w.fetch(n, url);
    if a.Fetched? {
      FirstPiece(a.contentType, ';');
    }
  }

  // A page counts as read iff the world answered with an error-free markup page at that moment, and
  // its links are the heaviest of that page; a failure names what went wrong.
  lemma ReadsAreGenuine(w: World, o: Options, url: Url, i: nat)
    requires i < |Crawled(w, o, url).log| && WasFetched(Crawled(w, o, url).log[i])
    ensures var v := Crawled(w, o, url).log[i]; var a := w.fetch(v.step, v.url);
            && (v.fate.Read? <==> a.Fetched? && a.ok && IsMarkup(a.contentType))
            && (v.fate.Read? ==> v.fate.links == TopLinks(a.anchors))
            && (v.fate.Failed? ==>
                  v.fate.reason == if a.Threw? then Error(a.reason)
                                   else if !a.ok then HttpStatus(a.status)
                                   else ContentType(BeforeSemicolon(a.contentType)))
  {
    CrawledInv(w, o, url);
    var v := Crawled(w, o, url).log[i];
    assert v.fate == FateOf(w, o, v.step, v.url);
    ReadFate(w, o, v.step, v.url);
  }

  function OffHostCount(log: seq<Visit>): nat {
    if log == [] then 0 else OffHostCount(log[..|log| - 1]) + if log[|log| - 1].fate.OffHost? then 1 else 0
  }

  // Every key taken is accounted for exactly once: read, skipped for robots, failed, or off the host.
  lemma {:induction false} VisitsAreAccountedFor(log: seq<Visit>)
    ensures |PagesOf(log)| + |SkippedOf(log)| + |FailedOf(log)| + OffHostCount(log) == |log|
    decreases |log|
  {
    if log != [] {
      VisitsAreAccountedFor(log[..|log| - 1]);
    }
  }

  lemma {:induction false} PageIsRead(log: seq<Visit>, i: nat) returns (p: nat)
    requires i < |PagesOf(log)|
    ensures p < |log| && log[p].fate.Read? && log[p].url == PagesOf(log)[i]
    ensures PagesOf(log[..p]) == PagesOf(log)[..i]
    decreases |log|
  {
    var n := |log| - 1;
    if i < |PagesOf(log[..n])| {
      p := PageIsRead(log[..n], i);
      assert log[..n][..p] == log[..p];
    } else {
      p := n;
    }
  }

  // The reported pages have distinct keys.
  lemma PagesAreDistinct(w: World, o: Options, url: Url, i: nat, j: nat)
    requires i < j < |ReportOf(Crawled(w, o, url)).pages|
    ensures KeyOf(ReportOf(Crawled(w, o, url)).pages[i]) != KeyOf(ReportOf(Crawled(w, o, url)).pages[j])
  {
    CrawledInv(w, o, url);
    ReadKeysDiffer(Crawled(w, o, url).log, i, j);
  }

  lemma ReadKeysDiffer(log: seq<Visit>, i: nat, j: nat)
    requires KeysOnce(log) && forall k | 0 <= k < |log| :: log[k].key == KeyOf(log[k].url)
    requires i < j < |PagesOf(log)|
    ensures KeyOf(PagesOf(log)[i]) != KeyOf(PagesOf(log)[j])
  {
    var p := PageIsRead(log, i);
    var q := PageIsRead(log, j);
    assert |PagesOf(log[..p])| == i && |PagesOf(log[..q])| == j;
  }

  // ---- What the reported budget means ----------------------------------------------------

  // The last item taken was a page read at the depth limit, with page budget to spare.
  predicate EndedAtLimit(o: Options, st: State) {
    && st.log != [] && st.log[|st.log| - 1].step == st.step - 1
    && AtLimit(o, st.log[|st.log| - 1]) && |PagesOf(st.log)| < o.maxPages
  }

  predicate BudgetSoFar(o: Options, st: State) {
    st.budget == if st.queue == [] && EndedAtLimit(o, st) then Some(Depth) else None
  }

  lemma DropBudget(o: Options, st: State)
    requires st.queue != [] && BudgetSoFar(o, st) && VisitsAreEarlier(st)
    ensures BudgetSoFar(o, Drop(st))
  {
  }

  lemma RecordBudget(o: Options, st: State, v: Visit)
    requires st.queue != [] && BudgetSoFar(o, st) && v.step == st.step
    ensures BudgetSoFar(o, Record(o, st, v))
  {
  }

  ghost predicate VisitsAreEarlier(st: State) {
    forall i | 0 <= i < |st.log| :: st.log[i].step < st.step
  }

  lemma IterateBudget(w: World, o: Options, st: State)
    requires st.queue != [] && BudgetSoFar(o, st) && VisitsAreEarlier(st)
    ensures BudgetSoFar(o, Iterate(w, o, st))
  {
    if KeyOf(st.queue[0].url) in KeysOf(st.log) {
      DropBudget(o, st);
    } else {
      RecordBudget(o, st, VisitOf(w, o, st));
    }
  }

  lemma AfterVisits(w: World, o: Options, url: Url, n: nat)
    ensures VisitsAreEarlier(After(w, o, url, n))
  {
    AfterInv(w, o, url, n);
  }

  lemma {:induction false} AfterBudget(w: World, o: Options, url: Url, n: nat)
    ensures BudgetSoFar(o, After(w, o, url, n))
  {
    if n > 0 {
      AfterBudget(w, o, url, n - 1);
      var st := After(w, o, url, n - 1);
      if Running(w, o, st) {
        AfterVisits(w, o, url, n - 1);
        IterateBudget(w, o, st);
      }
    }
  }

  // Exactly when each value is reported.
  lemma ReportedBudget(w: World, o: Options, url: Url)
    ensures var st := Crawled(w, o, url);
            st.budget == if st.queue != [] then StopReason(w, o, st)
                         else if EndedAtLimit(o, st) then Some(Depth) else None
  {
    var m := CrawlEnds(w, o, url, 0);
    AfterBudget(w, o, url, m);
  }

  // Every followed link of every page read, at most twenty of each, was itself visited.
  ghost predicate NothingCut(log: seq<Visit>) {
    forall i, k | 0 <= i < |log| && log[i].fate.Read? && LinksTo(log[i].fate.links, k) :: Visited(log, k)
  }

  // No time has passed before the start.
  ghost predicate Forward(w: World) {
    forall n :: w.elapsed(n) >= 0
  }

  // With these options, reporting no exhausted budget means that no followed link was cut off.
  ghost predicate NullMeansFollowed(o: Options) {
    forall w, url :: Forward(w) && Crawled(w, o, url).budget == None ==> NothingCut(Crawled(w, o, url).log)
  }

  // Without any time the crawl stops at once, and says so.
  lemma NoTimeIsReported(w: World, o: Options, url: Url)
    requires Forward(w) && o.budgetMs <= 0
    ensures Crawled(w, o, url).budget.Some?
  {
    assert w.elapsed(0) >= 0;
  }

  // Going one level deeper takes another page.
  ghost predicate DepthCostsPages(st: State) {
    && (forall i | 0 <= i < |st.queue| :: st.queue[i].depth <= |PagesOf(st.log)|)
    && (forall i | 0 <= i < |st.log| && st.log[i].fate.Read? :: st.log[i].depth < |PagesOf(st.log)|)
  }

  lemma RecordDepthCosts(o: Options, st: State, v: Visit)
    requires Fresh(st, v) && DepthCostsPages(st)
    ensures DepthCostsPages(Record(o, st, v))
  {
    var st' := Record(o, st, v);
    LogAppend(st.log, v);
    forall i | 0 <= i < |st'.queue| ensures st'.queue[i].depth <= |PagesOf(st'.log)| {
      NextQueue(o, st, v, i);
    }
  }

  lemma IterateDepthCosts(w: World, o: Options, st: State)
    requires st.queue != [] && DepthCostsPages(st)
    ensures DepthCostsPages(Iterate(w, o, st))
  {
    if !Visited(st.log, KeyOf(st.queue[0].url)) {
      RecordDepthCosts(o, st, VisitOf(w, o, st));
    }
  }

  lemma {:induction false} AfterDepthCosts(w: World, o: Options, url: Url, n: nat)
    ensures DepthCostsPages(After(w, o, url, n))
  {
    if n > 0 {
      AfterDepthCosts(w, o, url, n - 1);
      var st := After(w, o, url, n - 1);
      if Running(w, o, st) {
        IterateDepthCosts(w, o, st);
      }
    }
  }

  lemma CutNeedsLimit(o: Options, root: Key, st: State) returns (i: nat)
    requires Frontier(o, root, st) && st.queue == [] && !NothingCut(st.log)
    ensures i < |st.log| && AtLimit(o, st.log[i])
  {
    var j, k :| 0 <= j < |st.log| && st.log[j].fate.Read? && LinksTo(st.log[j].fate.links, k) && !Visited(st.log, k);
    i := j;
    assert Covered(st, k, st.log[j].depth + 1) ==> InLog(st.log, k, st.log[j].depth + 1);
  }

  // Too few pages to reach the limit.
  lemma FewPagesAreHonest(w: World, o: Options, url: Url)
    requires o.maxPages <= DepthCap(o) && Crawled(w, o, url).queue == []
    ensures NothingCut(Crawled(w, o, url).log)
  {
    var st := Crawled(w, o, url);
    CrawledInv(w, o, url);
    if !NothingCut(st.log) {
      var i := CutNeedsLimit(o, KeyOf(url), st);
      var m := CrawlEnds(w, o, url, 0);
      AfterDepthCosts(w, o, url, m);
    }
  }

  // With no depth at all only the start page is taken.
  ghost predicate OnlyStart(st: State) {
    |st.log| + |st.queue| <= 1 && |st.log| <= st.step && st.step + |st.queue| == 1
  }

  lemma {:induction false} AfterOnlyStart(w: World, o: Options, url: Url, n: nat)
    requires o.maxDepth <= 0
    ensures OnlyStart(After(w, o, url, n))
  {
    if n > 0 {
      AfterOnlyStart(w, o, url, n - 1);
      if Running(w, o, After(w, o, url, n - 1)) {
        NextOnlyStart(w, o, After(w, o, url, n - 1));
      }
    }
  }

  lemma NextOnlyStart(w: World, o: Options, st: State)
    requires o.maxDepth <= 0 && OnlyStart(st) && st.queue != []
    ensures OnlyStart(Iterate(w, o, st))
  {
  }

  lemma OnlyVisitEnds(o: Options, st: State, i: nat)
    requires |st.log| == 1 && i < |st.log| && AtLimit(o, st.log[i]) && VisitsAreEarlier(st) && st.step == 1
    requires o.maxPages >= 2
    ensures EndedAtLimit(o, st)
  {
    assert st.log[..0] == [];
  }

  lemma NoDepthIsHonest(w: World, o: Options, url: Url)
    requires o.maxDepth <= 0 && o.maxPages >= 2 && Crawled(w, o, url).queue == []
          && !EndedAtLimit(o, Crawled(w, o, url))
    ensures NothingCut(Crawled(w, o, url).log)
  {
    var st := Crawled(w, o, url);
    CrawledInv(w, o, url);
    var m := CrawlEnds(w, o, url, 0);
    AfterOnlyStart(w, o, url, m);
    if !NothingCut(st.log) {
      var i := CutNeedsLimit(o, KeyOf(url), st);
      OnlyVisitEnds(o, st, i);
    }
  }
}
