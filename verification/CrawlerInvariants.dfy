/** What every iteration of the crawl keeps. */
module CrawlerInvariants {
  import opened Wrappers
  import opened LinkExtraction
  import opened Crawler

  // ---- The graph of the pages read -------------------------------------------------------

  ghost predicate LinksTo(links: seq<Url>, k: Key) {
    exists l :: l in links && KeyOf(l) == k
  }

  // A page with key a was read and carries a link with key b.
  ghost predicate Edge(log: seq<Visit>, a: Key, b: Key) {
    exists i :: 0 <= i < |log| && log[i].key == a && log[i].fate.Read? && LinksTo(log[i].fate.links, b)
  }

  // b is n links away from a, by pages that were read.
  ghost predicate HasWalk(log: seq<Visit>, a: Key, b: Key, n: nat)
    decreases n
  {
    if n == 0 then a == b else exists m :: HasWalk(log, a, m, n - 1) && Edge(log, m, b)
  }

  lemma EdgeGrows(log: seq<Visit>, v: Visit, a: Key, b: Key)
    requires Edge(log, a, b)
    ensures Edge(log + [v], a, b)
  {
    var i :| 0 <= i < |log| && log[i].key == a && log[i].fate.Read? && LinksTo(log[i].fate.links, b);
    assert (log + [v])[i] == log[i];
  }

  lemma {:induction false} WalkGrows(log: seq<Visit>, v: Visit, a: Key, b: Key, n: nat)
    requires HasWalk(log, a, b, n)
    ensures HasWalk(log + [v], a, b, n)
    decreases n
  {
    if n > 0 {
      var m :| HasWalk(log, a, m, n - 1) && Edge(log, m, b);
      WalkGrows(log, v, a, m, n - 1);
      EdgeGrows(log, v, m, b);
    }
  }

  // ---- Invariants ------------------------------------------------------------------------

  // The queue is in order of depth and spans at most one level; logged depths come before it.
  ghost predicate Levels(st: State) {
    && (forall i, j | 0 <= i <= j < |st.queue| :: st.queue[i].depth <= st.queue[j].depth <= st.queue[i].depth + 1)
    && (forall i, j | 0 <= i <= j < |st.log| :: st.log[i].depth <= st.log[j].depth)
    && (forall i, j | 0 <= i < |st.log| && 0 <= j < |st.queue| :: st.log[i].depth <= st.queue[j].depth)
  }

  ghost predicate KeysOnce(log: seq<Visit>) {
    forall i, j | 0 <= i < j < |log| :: log[i].key != log[j].key
  }

  function DepthCap(o: Options): nat { if o.maxDepth > 0 then o.maxDepth else 0 }

  // Each visit was decided by the world, at its own iteration.
  ghost predicate Honest(w: World, o: Options, st: State) {
    && (forall i | 0 <= i < |st.log| ::
          var v := st.log[i]; v.key == KeyOf(v.url) && v.fate == FateOf(w, o, v.step, v.url) && v.step < st.step)
    && (forall i, j | 0 <= i < j < |st.log| :: st.log[i].step < st.log[j].step)
  }

  // No deeper than the limit.
  ghost predicate Capped(o: Options, st: State) {
    && (forall i | 0 <= i < |st.log| :: st.log[i].depth <= DepthCap(o))
    && (forall i | 0 <= i < |st.queue| :: st.queue[i].depth <= DepthCap(o))
  }

  ghost predicate Walks(root: Key, st: State) {
    && (forall i | 0 <= i < |st.log| :: HasWalk(st.log, root, st.log[i].key, st.log[i].depth))
    && (forall i | 0 <= i < |st.queue| :: HasWalk(st.log, root, KeyOf(st.queue[i].url), st.queue[i].depth))
  }

  ghost predicate InLog(log: seq<Visit>, k: Key, d: nat) {
    exists i :: 0 <= i < |log| && log[i].key == k && log[i].depth <= d
  }

  ghost predicate InQueue(queue: seq<Item>, k: Key, d: nat) {
    exists i :: 0 <= i < |queue| && KeyOf(queue[i].url) == k && queue[i].depth <= d
  }

  // k has been visited, or is waiting, at depth d or less.
  ghost predicate Covered(st: State, k: Key, d: nat) {
    InLog(st.log, k, d) || InQueue(st.queue, k, d)
  }

  // The start, and every link of a page read above the depth limit, is covered.
  ghost predicate Frontier(o: Options, root: Key, st: State) {
    && Covered(st, root, 0)
    && (forall i, k | 0 <= i < |st.log| && st.log[i].fate.Read? && st.log[i].depth < o.maxDepth
          && LinksTo(st.log[i].fate.links, k) :: Covered(st, k, st.log[i].depth + 1))
  }

  ghost predicate Counts(o: Options, st: State) {
    && st.step + |st.queue| <= 1 + MAX_LINKS * |PagesOf(st.log)|
    && (|PagesOf(st.log)| > 0 ==> |PagesOf(st.log)| <= o.maxPages)
  }

  // The part of the invariant that does not speak of the world.
  ghost predicate Shape(o: Options, root: Key, st: State) {
    Levels(st) && KeysOnce(st.log) && Capped(o, st) && Walks(root, st) && Frontier(o, root, st) && Counts(o, st)
  }

  ghost predicate Inv(w: World, o: Options, root: Key, st: State) {
    Shape(o, root, st) && Honest(w, o, st)
  }

  // ---- Children --------------------------------------------------------------------------

  lemma {:induction false} ChildrenSpec(seen: set<Key>, links: seq<Url>, depth: nat)
    ensures forall c | c in Children(seen, links, depth) :: c.depth == depth && LinksTo(links, KeyOf(c.url))
    ensures forall l | l in links && KeyOf(l) !in seen :: Item(l, depth) in Children(seen, links, depth)
    decreases |links|
  {
    if links != [] {
      var n := |links| - 1;
      ChildrenSpec(seen, links[..n], depth);
      assert links == links[..n] + [links[n]];
      forall c | c in Children(seen, links, depth) ensures c.depth == depth && LinksTo(links, KeyOf(c.url)) {
        if c in Children(seen, links[..n], depth) {
          var l :| l in links[..n] && KeyOf(l) == KeyOf(c.url);
          assert l in links;
        } else {
          assert c.url in links;
        }
      }
    }
  }

  // ---- Initially -------------------------------------------------------------------------

  lemma StartInv(w: World, o: Options, url: Url)
    ensures Inv(w, o, KeyOf(url), Start(url))
  {
    var st := Start(url);
    assert st.queue[0] == Item(url, 0);
  }

  // ---- Dropping a repeated item ----------------------------------------------------------

  lemma DropCovered(st: State, k: Key, d: nat)
    requires st.queue != [] && Levels(st) && Visited(st.log, KeyOf(st.queue[0].url)) && Covered(st, k, d)
    ensures Covered(Drop(st), k, d)
  {
    if InQueue(st.queue, k, d) {
      var i :| 0 <= i < |st.queue| && KeyOf(st.queue[i].url) == k && st.queue[i].depth <= d;
      if i == 0 {
        var j :| 0 <= j < |st.log| && st.log[j].key == k;
        assert st.log[j].depth <= st.queue[0].depth;
      } else {
        assert Drop(st).queue[i - 1] == st.queue[i];
      }
    }
  }

  lemma DropLevels(st: State)
    requires st.queue != [] && Levels(st)
    ensures Levels(Drop(st))
  {
  }

  lemma DropFrontier(o: Options, root: Key, st: State)
    requires st.queue != [] && Levels(st) && Frontier(o, root, st) && Visited(st.log, KeyOf(st.queue[0].url))
    ensures Frontier(o, root, Drop(st))
  {
    DropCovered(st, root, 0);
    forall i, k | 0 <= i < |st.log| && st.log[i].fate.Read? && st.log[i].depth < o.maxDepth
        && LinksTo(st.log[i].fate.links, k)
      ensures Covered(Drop(st), k, st.log[i].depth + 1)
    {
      DropCovered(st, k, st.log[i].depth + 1);
    }
  }

  lemma DropHonest(w: World, o: Options, st: State)
    requires st.queue != [] && Honest(w, o, st)
    ensures Honest(w, o, Drop(st))
  {
  }

  lemma DropCapped(o: Options, st: State)
    requires st.queue != [] && Capped(o, st)
    ensures Capped(o, Drop(st))
  {
  }

  lemma DropWalks(root: Key, st: State)
    requires st.queue != [] && Walks(root, st)
    ensures Walks(root, Drop(st))
  {
    assert forall i | 0 <= i < |Drop(st).queue| :: Drop(st).queue[i] == st.queue[i + 1];
  }

  // ---- Recording a visit -----------------------------------------------------------------

  // v visits the item at the front of the queue, for the first time.
  ghost predicate Fresh(st: State, v: Visit) {
    && st.queue != [] && v.url == st.queue[0].url && v.depth == st.queue[0].depth && v.step == st.step
    && v.key == KeyOf(v.url) && !Visited(st.log, v.key)
  }

  function Pushes(o: Options, st: State, v: Visit): seq<Item> { Pushed(o, KeysOf(st.log), v) }

  lemma PushedSpec(o: Options, st: State, v: Visit)
    ensures forall c | c in Pushes(o, st, v) ::
              c.depth == v.depth + 1 <= o.maxDepth && v.fate.Read? && LinksTo(v.fate.links, KeyOf(c.url))
    ensures v.fate.Read? && v.depth < o.maxDepth ==>
              forall l | l in v.fate.links && KeyOf(l) !in KeysOf(st.log) + {v.key} ::
                Item(l, v.depth + 1) in Pushes(o, st, v)
  {
    if v.fate.Read? && v.depth < o.maxDepth {
      ChildrenSpec(KeysOf(st.log) + {v.key}, v.fate.links, v.depth + 1);
    }
  }

  // Each queued item after a visit was queued before it, or is a link of the page.
  lemma NextQueue(o: Options, st: State, v: Visit, i: nat)
    requires Fresh(st, v) && i < |Record(o, st, v).queue|
    ensures var q := Record(o, st, v).queue;
            if i < |st.queue| - 1 then q[i] == st.queue[i + 1]
            else q[i].depth == v.depth + 1 <= o.maxDepth && v.fate.Read? && LinksTo(v.fate.links, KeyOf(q[i].url))
  {
    PushedSpec(o, st, v);
    if i >= |st.queue| - 1 {
      assert Record(o, st, v).queue[i] in Pushes(o, st, v);
    }
  }

  lemma RecordQueueLevels(o: Options, st: State, v: Visit)
    requires Fresh(st, v) && Levels(st)
    ensures var q := Record(o, st, v).queue;
            && (forall i, j | 0 <= i <= j < |q| :: q[i].depth <= q[j].depth <= q[i].depth + 1)
            && (forall i | 0 <= i < |q| :: v.depth <= q[i].depth)
  {
    var q := Record(o, st, v).queue;
    forall i | 0 <= i < |q| ensures v.depth <= q[i].depth <= v.depth + 1 {
      NextQueue(o, st, v, i);
    }
    forall i, j | 0 <= i <= j < |q| ensures q[i].depth <= q[j].depth <= q[i].depth + 1 {
      NextQueue(o, st, v, i);
      NextQueue(o, st, v, j);
    }
  }

  lemma RecordLevels(o: Options, st: State, v: Visit)
    requires Fresh(st, v) && Levels(st)
    ensures Levels(Record(o, st, v))
  {
    RecordQueueLevels(o, st, v);
    var st' := Record(o, st, v);
    forall i, j | 0 <= i <= j < |st'.log| ensures st'.log[i].depth <= st'.log[j].depth {
      assert i < |st.log| ==> st.log[i].depth <= st.queue[0].depth;
    }
    forall i, j | 0 <= i < |st'.log| && 0 <= j < |st'.queue| ensures st'.log[i].depth <= st'.queue[j].depth {
      assert i < |st.log| ==> st.log[i].depth <= st.queue[0].depth;
    }
  }

  lemma RecordHonest(w: World, o: Options, st: State, v: Visit)
    requires Fresh(st, v) && v.fate == FateOf(w, o, v.step, v.url) && Honest(w, o, st)
    ensures Honest(w, o, Record(o, st, v))
  {
  }

  lemma RecordCapped(o: Options, st: State, v: Visit)
    requires Fresh(st, v) && Capped(o, st)
    ensures Capped(o, Record(o, st, v))
  {
    var st' := Record(o, st, v);
    forall i | 0 <= i < |st'.queue| ensures st'.queue[i].depth <= DepthCap(o) {
      NextQueue(o, st, v, i);
    }
  }

  lemma RecordLogWalks(st: State, root: Key, v: Visit)
    requires Fresh(st, v) && Walks(root, st)
    ensures var log := st.log + [v]; forall i | 0 <= i < |log| :: HasWalk(log, root, log[i].key, log[i].depth)
  {
    var log := st.log + [v];
    forall i | 0 <= i < |log| ensures HasWalk(log, root, log[i].key, log[i].depth) {
      WalkGrows(st.log, v, root, log[i].key, log[i].depth);
    }
  }

  lemma RecordWalks(o: Options, root: Key, st: State, v: Visit)
    requires Fresh(st, v) && Walks(root, st)
    ensures Walks(root, Record(o, st, v))
  {
    var st' := Record(o, st, v);
    RecordLogWalks(st, root, v);
    forall i | 0 <= i < |st'.queue| ensures HasWalk(st'.log, root, KeyOf(st'.queue[i].url), st'.queue[i].depth) {
      NextQueue(o, st, v, i);
      if i < |st.queue| - 1 {
        WalkGrows(st.log, v, root, KeyOf(st'.queue[i].url), st'.queue[i].depth);
      } else {
        WalkOneFurther(st.log, v, root, KeyOf(st'.queue[i].url));
      }
    }
  }

  // A link of a page just read is one step further than the page.
  lemma WalkOneFurther(log: seq<Visit>, v: Visit, root: Key, k: Key)
    requires HasWalk(log, root, v.key, v.depth) && v.fate.Read? && LinksTo(v.fate.links, k)
    ensures HasWalk(log + [v], root, k, v.depth + 1)
  {
    WalkGrows(log, v, root, v.key, v.depth);
    assert (log + [v])[|log|] == v;
    assert Edge(log + [v], v.key, k);
  }

  lemma RecordCovered(o: Options, st: State, v: Visit, k: Key, d: nat)
    requires Fresh(st, v) && Covered(st, k, d)
    ensures Covered(Record(o, st, v), k, d)
  {
    var st' := Record(o, st, v);
    if InLog(st.log, k, d) {
      var i :| 0 <= i < |st.log| && st.log[i].key == k && st.log[i].depth <= d;
      assert st'.log[i] == st.log[i];
    } else {
      var i :| 0 <= i < |st.queue| && KeyOf(st.queue[i].url) == k && st.queue[i].depth <= d;
      if i == 0 {
        assert st'.log[|st.log|] == v;
      } else {
        assert st'.queue[i - 1] == st.queue[i];
      }
    }
  }

  lemma LinkQueued(o: Options, st: State, v: Visit, l: Url)
    requires Fresh(st, v) && v.fate.Read? && v.depth < o.maxDepth && l in v.fate.links
    requires !Visited(st.log, KeyOf(l)) && KeyOf(l) != v.key
    ensures InQueue(Record(o, st, v).queue, KeyOf(l), v.depth + 1)
  {
    PushedSpec(o, st, v);
    InTail(st.queue[1..], Pushes(o, st, v), Item(l, v.depth + 1));
  }

  lemma InTail(queue: seq<Item>, more: seq<Item>, item: Item)
    requires item in more
    ensures InQueue(queue + more, KeyOf(item.url), item.depth)
  {
    var j :| 0 <= j < |more| && more[j] == item;
    assert (queue + more)[|queue| + j] == item;
  }

  lemma LinkCovered(o: Options, st: State, v: Visit, k: Key)
    requires Fresh(st, v) && Levels(st)
    requires v.fate.Read? && v.depth < o.maxDepth && LinksTo(v.fate.links, k)
    ensures Covered(Record(o, st, v), k, v.depth + 1)
  {
    var st' := Record(o, st, v);
    if k == v.key {
      assert st'.log[|st.log|] == v;
    } else if Visited(st.log, k) {
      var i :| 0 <= i < |st.log| && st.log[i].key == k;
      assert st'.log[i] == st.log[i] && st.log[i].depth <= st.queue[0].depth;
    } else {
      var l :| l in v.fate.links && KeyOf(l) == k;
      LinkQueued(o, st, v, l);
    }
  }

  lemma RecordFrontier(o: Options, root: Key, st: State, v: Visit)
    requires Fresh(st, v) && Levels(st) && Frontier(o, root, st)
    ensures Frontier(o, root, Record(o, st, v))
  {
    var st' := Record(o, st, v);
    RecordCovered(o, st, v, root, 0);
    forall i, k | 0 <= i < |st'.log| && st'.log[i].fate.Read? && st'.log[i].depth < o.maxDepth
        && LinksTo(st'.log[i].fate.links, k)
      ensures Covered(st', k, st'.log[i].depth + 1)
    {
      if i < |st.log| {
        assert st'.log[i] == st.log[i];
        RecordCovered(o, st, v, k, st.log[i].depth + 1);
      } else {
        LinkCovered(o, st, v, k);
      }
    }
  }

  lemma RecordKeysOnce(st: State, v: Visit)
    requires Fresh(st, v) && KeysOnce(st.log)
    ensures KeysOnce(st.log + [v])
  {
  }

  // ---- One iteration ---------------------------------------------------------------------

  lemma IterateCounts(w: World, o: Options, st: State)
    requires Running(w, o, st) && Counts(o, st)
    ensures Counts(o, Iterate(w, o, st))
  {
    PagesGrow(w, o, st);
  }

  lemma DropInv(w: World, o: Options, root: Key, st: State)
    requires Running(w, o, st) && Inv(w, o, root, st) && Visited(st.log, KeyOf(st.queue[0].url))
    ensures Inv(w, o, root, Drop(st))
  {
    DropLevels(st);
    DropFrontier(o, root, st);
    DropHonest(w, o, st);
    DropWalks(root, st);
    DropCapped(o, st);
    IterateCounts(w, o, st);
  }

  lemma RecordInv(w: World, o: Options, root: Key, st: State, v: Visit)
    requires Running(w, o, st) && Inv(w, o, root, st)
    requires Fresh(st, v) && v.fate == FateOf(w, o, v.step, v.url) && Iterate(w, o, st) == Record(o, st, v)
    ensures Inv(w, o, root, Record(o, st, v))
  {
    RecordLevels(o, st, v);
    RecordKeysOnce(st, v);
    RecordHonest(w, o, st, v);
    RecordCapped(o, st, v);
    RecordWalks(o, root, st, v);
    RecordFrontier(o, root, st, v);
    IterateCounts(w, o, st);
  }

  // One iteration keeps everything.
  lemma IterateInv(w: World, o: Options, root: Key, st: State)
    requires Running(w, o, st) && Inv(w, o, root, st)
    ensures Inv(w, o, root, Iterate(w, o, st))
  {
    if Visited(st.log, KeyOf(st.queue[0].url)) {
      DropInv(w, o, root, st);
    } else {
      RecordInv(w, o, root, st, VisitOf(w, o, st));
    }
  }
}
