/** The bounded breadth-first crawl: its work-list loop and the transition system it runs. */
module Crawler {
  import opened Wrappers
  import opened Text
  import opened LinkExtraction

  type Url = string
  type Key = string

  datatype Item = Item(url: Url, depth: nat)

  // ---- The outside world, asked once per iteration ---------------------------------------

  datatype RobotsAnswer = MayFetch | MustNotFetch | PrivateHost(reason: string) | Unreadable

  datatype FetchAnswer =
    | Fetched(ok: bool, status: nat, contentType: string, anchors: seq<Anchor>)
    | Threw(reason: string)

  // n is the iteration; the static check of a URL does not depend on it.
  datatype World = World(
    elapsed: nat -> int,
    hostOf: Url -> Option<string>,
    robots: (nat, Url) -> RobotsAnswer,
    fetch: (nat, Url) -> FetchAnswer)

  datatype Options = Options(maxPages: int, maxDepth: int, budgetMs: int, allowedHost: string, respectRobots: bool)

  // ---- What became of an item ------------------------------------------------------------

  datatype Reason =
    | UnsafeUrl
    | PrivateAddress(why: string)
    | HttpStatus(status: nat)
    | ContentType(kind: string)
    | Error(why: string)

  datatype Fate = OffHost | Disallowed | Failed(reason: Reason, fetched: bool) | Read(links: seq<Url>)

  datatype Visit = Visit(url: Url, key: Key, depth: nat, step: nat, fate: Fate)

  datatype Budget = Pages | Depth | Time

  datatype State = State(queue: seq<Item>, log: seq<Visit>, step: nat, budget: Option<Budget>)

  // Without one trailing slash, unless that leaves nothing.
  function KeyOf(url: Url): Key {
    if |url| > 1 && url[|url| - 1] == '/' then url[..|url| - 1] else url
  }

  function StripWww(host: string): string {
    if "www." <= host then host[4..] else host
  }

  predicate Includes(s: string, part: string) {
    part <= s || (s != "" && Includes(s[1..], part))
  }

  function PageFate(answer: FetchAnswer): Fate {
    match answer
    case Threw(reason) => Failed(Error(reason), true)
    case Fetched(ok, status, kind, anchors) =>
      if !ok then Failed(HttpStatus(status), true)
      else if kind != "" && !Includes(kind, "html") && !Includes(kind, "xml") then
        Failed(ContentType(Split(kind, ';')[0]), true)
      else Read(TopLinks(anchors))
  }

  function FateOf(w: World, o: Options, n: nat, url: Url): Fate {
    var host := w.hostOf(url);
    if host.None? then Failed(UnsafeUrl, false)
    else if StripWww(host.value) != o.allowedHost then OffHost
    else if o.respectRobots && w.robots(n, url).PrivateHost? then Failed(PrivateAddress(w.robots(n, url).reason), false)
    else if o.respectRobots && w.robots(n, url).MustNotFetch? then Disallowed
    else PageFate(w.fetch(n, url))
  }

  // ---- What the log says -----------------------------------------------------------------

  predicate Visited(log: seq<Visit>, k: Key) {
    exists i | 0 <= i < |log| :: log[i].key == k
  }

  function KeysOf(log: seq<Visit>): (ks: set<Key>)
    ensures forall k :: k in ks <==> Visited(log, k)
  {
    set i | 0 <= i < |log| :: log[i].key
  }

  function PagesOf(log: seq<Visit>): seq<Url> {
    if log == [] then []
    else
      var v := log[|log| - 1];
      PagesOf(log[..|log| - 1]) + if v.fate.Read? then [v.url] else []
  }

  function SkippedOf(log: seq<Visit>): seq<Url> {
    if log == [] then []
    else
      var v := log[|log| - 1];
      SkippedOf(log[..|log| - 1]) + if v.fate.Disallowed? then [v.url] else []
  }

  function FailedOf(log: seq<Visit>): seq<(Url, Reason)> {
    if log == [] then []
    else
      var v := log[|log| - 1];
      FailedOf(log[..|log| - 1]) + if v.fate.Failed? then [(v.url, v.fate.reason)] else []
  }

  lemma LogAppend(log: seq<Visit>, v: Visit)
    ensures PagesOf(log + [v]) == PagesOf(log) + if v.fate.Read? then [v.url] else []
    ensures SkippedOf(log + [v]) == SkippedOf(log) + if v.fate.Disallowed? then [v.url] else []
    ensures FailedOf(log + [v]) == FailedOf(log) + if v.fate.Failed? then [(v.url, v.fate.reason)] else []
    ensures KeysOf(log + [v]) == KeysOf(log) + {v.key}
  {
    assert (log + [v])[..|log|] == log;
    forall k ensures Visited(log + [v], k) <==> Visited(log, k) || k == v.key {
      if Visited(log, k) {
        var i :| 0 <= i < |log| && log[i].key == k;
        assert (log + [v])[i].key == k;
      }
      assert (log + [v])[|log|].key == v.key;
    }
  }

  // ---- One iteration, and the whole run --------------------------------------------------

  // The links to follow, one level down.
  function Children(seen: set<Key>, links: seq<Url>, depth: nat): seq<Item> {
    if links == [] then []
    else
      var n := |links| - 1;
      Children(seen, links[..n], depth) + if KeyOf(links[n]) in seen then [] else [Item(links[n], depth)]
  }

  predicate AtLimit(o: Options, v: Visit) {
    v.fate.Read? && v.depth >= o.maxDepth
  }

  function VisitOf(w: World, o: Options, st: State): Visit
    requires st.queue != []
  {
    var item := st.queue[0];
    Visit(item.url, KeyOf(item.url), item.depth, st.step, FateOf(w, o, st.step, item.url))
  }

  function Pushed(o: Options, seen: set<Key>, v: Visit): seq<Item> {
    if v.fate.Read? && v.depth < o.maxDepth then Children(seen + {v.key}, v.fate.links, v.depth + 1) else []
  }

  // An item whose key was visited before is dropped; any other is logged, and its links queued.
  function Drop(st: State): State
    requires st.queue != []
  {
    State(st.queue[1..], st.log, st.step + 1, st.budget)
  }

  function Record(o: Options, st: State, v: Visit): State
    requires st.queue != []
  {
    var queue := st.queue[1..] + Pushed(o, KeysOf(st.log), v);
    var log := st.log + [v];
    State(queue, log, st.step + 1,
          if AtLimit(o, v) && queue == [] && |PagesOf(log)| < o.maxPages then Some(Depth) else st.budget)
  }

  function Iterate(w: World, o: Options, st: State): State
    requires st.queue != []
  {
    if KeyOf(st.queue[0].url) in KeysOf(st.log) then Drop(st) else Record(o, st, VisitOf(w, o, st))
  }

  // Why the loop stops on its own account.
  function StopReason(w: World, o: Options, st: State): Option<Budget> {
    if |PagesOf(st.log)| >= o.maxPages then Some(Pages)
    else if w.elapsed(st.step) >= o.budgetMs then Some(Time)
    else None
  }

  predicate Running(w: World, o: Options, st: State) {
    st.queue != [] && StopReason(w, o, st).None?
  }

  // The queue shrinks by one, or a page is read and at most twenty items are added.
  ghost predicate Progress(st: State, st': State) {
    || (|PagesOf(st'.log)| == |PagesOf(st.log)| + 1 && |st'.queue| <= |st.queue| - 1 + MAX_LINKS)
    || (|PagesOf(st'.log)| == |PagesOf(st.log)| && |st'.queue| == |st.queue| - 1)
  }

  lemma RecordGrows(o: Options, st: State, v: Visit)
    requires st.queue != [] && (v.fate.Read? ==> |v.fate.links| <= MAX_LINKS)
    ensures Progress(st, Record(o, st, v))
  {
    LogAppend(st.log, v);
    if v.fate.Read? {
      FewChildren(KeysOf(st.log) + {v.key}, v.fate.links, v.depth + 1);
    }
  }

  lemma PagesGrow(w: World, o: Options, st: State)
    requires st.queue != []
    ensures Progress(st, Iterate(w, o, st))
  {
    var v := VisitOf(w, o, st);
    AtMostTwenty(w, o, st.step, v.url);
    RecordGrows(o, st, v);
  }

  lemma AtMostTwenty(w: World, o: Options, n: nat, url: Url)
    ensures var f := FateOf(w, o, n, url); f.Read? ==> |f.links| <= MAX_LINKS
  {
  }

  lemma {:induction false} FewChildren(seen: set<Key>, links: seq<Url>, depth: nat)
    ensures |Children(seen, links, depth)| <= |links|
    decreases |links|
  {
    if links != [] {
      FewChildren(seen, links[..|links| - 1], depth);
    }
  }

  function PagesLeft(o: Options, st: State): nat {
    if o.maxPages > |PagesOf(st.log)| then o.maxPages - |PagesOf(st.log)| else 0
  }

  // The crawl from a state on. It ends whatever the clock and the sites do: each iteration reads a
  // page or shortens the queue.
  function Settle(w: World, o: Options, st: State): State
    decreases PagesLeft(o, st), |st.queue|
  {
    if st.queue == [] then st
    else if StopReason(w, o, st).Some? then st.(budget := StopReason(w, o, st))
    else
      PagesGrow(w, o, st);
      Settle(w, o, Iterate(w, o, st))
  }

  function Start(url: Url): State { State([Item(url, 0)], [], 0, None) }

  datatype Report = Report(
    pages: seq<Url>, skippedByRobots: seq<Url>, failed: seq<(Url, Reason)>, budgetExhausted: Option<Budget>)

  function ReportOf(st: State): Report {
    Report(PagesOf(st.log), SkippedOf(st.log), FailedOf(st.log), st.budget)
  }

  function Crawled(w: World, o: Options, startUrl: Url): State { Settle(w, o, Start(startUrl)) }

  // ---- The loop --------------------------------------------------------------------------

  method PushLinks(queue: seq<Item>, visited: set<Key>, links: seq<Url>, depth: nat) returns (longer: seq<Item>)
    ensures longer == queue + Children(visited, links, depth)
  {
    longer := queue;
    for i := 0 to |links|
      invariant longer == queue + Children(visited, links[..i], depth)
    {
      assert links[..i + 1][..i] == links[..i];
      var key := KeyOf(links[i]);
      if key !in visited {
        longer := longer + [Item(links[i], depth)];
      }
    }
    assert links[..|links|] == links;
  }

  method AskWorld(w: World, o: Options, n: nat, url: Url) returns (fate: Fate)
    ensures fate == FateOf(w, o, n, url)
  {
    var host := w.hostOf(url);
    if host.None? { return Failed(UnsafeUrl, false); }
    if StripWww(host.value) != o.allowedHost { return OffHost; }
    if o.respectRobots {
      var answer := w.robots(n, url);
      match answer {
        case PrivateHost(reason) => return Failed(PrivateAddress(reason), false);
        case MustNotFetch => return Disallowed;
        case MayFetch =>
        case Unreadable =>
      }
    }
    var page := w.fetch(n, url);
    match page {
      case Threw(reason) => fate := Failed(Error(reason), true);
      case Fetched(ok, status, kind, anchors) =>
        if !ok { return Failed(HttpStatus(status), true); }
        if kind != "" && !Includes(kind, "html") && !Includes(kind, "xml") {
          return Failed(ContentType(Split(kind, ';')[0]), true);
        }
        var links := ExtractInternalLinks(anchors);
        fate := Read(links);
    }
  }

  // The variables of the loop, standing for a state.
  ghost predicate Stands(st: State, queue: seq<Item>, n: nat, visited: set<Key>, report: Report) {
    && queue == st.queue && n == st.step && visited == KeysOf(st.log) && report == ReportOf(st)
  }

  // The branch taken for an item not seen before.
  method TakeItem(o: Options, item: Item, fate: Fate, n: nat, queue: seq<Item>, visited: set<Key>, report: Report,
                  ghost st: State)
    returns (queue': seq<Item>, visited': set<Key>, report': Report)
    requires st.queue != [] && item == st.queue[0] && Stands(st, [item] + queue, n, visited, report)
    ensures var v := Visit(item.url, KeyOf(item.url), item.depth, n, fate);
            Stands(Record(o, st, v), queue', n + 1, visited', report')
  {
    ghost var v := Visit(item.url, KeyOf(item.url), item.depth, n, fate);
    LogAppend(st.log, v);
    queue', report' := queue, report;
    visited' := visited + {KeyOf(item.url)};
    assert ([item] + queue)[1..] == queue && queue + [] == queue;
    match fate {
      case OffHost =>
      case Disallowed => report' := report.(skippedByRobots := report.skippedByRobots + [item.url]);
      case Failed(reason, _) => report' := report.(failed := report.failed + [(item.url, reason)]);
      case Read(links) =>
        report' := report.(pages := report.pages + [item.url]);
        if item.depth < o.maxDepth {
          queue' := PushLinks(queue, visited', links, item.depth + 1);
        } else if queue == [] && |report'.pages| < o.maxPages {
          report' := report'.(budgetExhausted := Some(Depth));
        }
    }
  }

  method CrawlSite(w: World, o: Options, startUrl: Url) returns (report: Report)
    ensures report == ReportOf(Crawled(w, o, startUrl))
  {
    ghost var st := Start(startUrl);
    var n, visited, queue := 0, {}, [Item(startUrl, 0)];
    report := Report([], [], [], None);
    while queue != []
      invariant Stands(st, queue, n, visited, report)
      invariant Settle(w, o, st) == Crawled(w, o, startUrl)
      decreases if o.maxPages > |report.pages| then o.maxPages - |report.pages| else 0, |queue|
    {
      if |report.pages| >= o.maxPages {
        return report.(budgetExhausted := Some(Pages));
      }
      if w.elapsed(n) >= o.budgetMs {
        return report.(budgetExhausted := Some(Time));
      }
      PagesGrow(w, o, st);
      ghost var next := Iterate(w, o, st);
      var item := queue[0];
      queue := queue[1..];
      if KeyOf(item.url) !in visited {
        assert st.queue == [item] + queue;
        var fate := AskWorld(w, o, n, item.url);
        queue, visited, report := TakeItem(o, item, fate, n, queue, visited, report, st);
      }
      n := n + 1;
      st := next;
    }
  }
}
