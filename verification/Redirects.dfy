/** The redirect loop of a fetch: every hop is checked again before it is requested. */
module Redirects {
  import opened Wrappers

  // What a request is answered with: a redirect, the final response, or no response at all.
  datatype Response = Moved(location: Option<string>) | Final(status: nat) | Broken(reason: string)

  // The outside: whether a URL passes the static check, a Location read against the current URL, the
  // answer to the request of a hop, and whether the deadline is over before it.
  datatype Net = Net(
    guard: string -> bool,
    join: (string, string) -> Option<string>,
    answer: (nat, string) -> Response,
    late: nat -> bool)

  datatype Failure = Unsafe | Timeout | BadRedirect | NetworkError(reason: string) | TooManyRedirects

  datatype Outcome = Fetched(finalUrl: string, status: nat, redirects: seq<string>) | Failed(why: Failure)

  // Where a redirect leads, if it may be followed.
  function NextUrl(net: Net, location: Option<string>, current: string): (string, Option<Failure>) {
    if location.None? || location.value == "" then ("", Some(BadRedirect))
    else
      var next := net.join(location.value, current);
      if next.None? then ("", Some(BadRedirect))
      else if !net.guard(next.value) then ("", Some(Unsafe))
      else (next.value, None)
  }

  // The loop; requested lists the URLs asked for, in order.
  method Fetch(net: Net, url: string, maxRedirects: int) returns (outcome: Outcome, requested: seq<string>)
    ensures Runs(net, url, maxRedirects, requested, outcome)
    ensures forall u | u in requested :: net.guard(u)
  {
    requested := [];
    if !net.guard(url) { return Failed(Unsafe), requested; }
    var current := url;
    var redirects: seq<string> := [];
    var hop := 0;
    while hop <= maxRedirects
      invariant 0 <= hop <= Hops(maxRedirects) && |requested| == hop && Chain(net, url, requested + [current])
      invariant redirects == (requested + [current])[1..] && InTime(net, requested)
      invariant Goes(net, url, requested) && net.guard(current)
      invariant forall u | u in requested :: net.guard(u)
    {
      ChainShrinks(net, url, requested, current);
      if net.late(hop) { return Failed(Timeout), requested; }
      ghost var before := requested;
      requested := requested + [current];
      assert requested[..hop] == before && requested[hop] == current;
      match net.answer(hop, current) {
        case Broken(reason) => return Failed(NetworkError(reason)), requested;
        case Final(status) => return Fetched(current, status, redirects), requested;
        case Moved(location) =>
          var (next, failure) := NextUrl(net, location, current);
          if failure.Some? { return Failed(failure.value), requested; }
          assert LeadsTo(net, hop, current, next);
          ChainGrows(net, url, requested, next);
          redirects := redirects + [next];
          current := next;
      }
      hop := hop + 1;
    }
    outcome := Failed(TooManyRedirects);
    ChainShrinks(net, url, requested, current);
  }

  function Hops(maxRedirects: int): nat { if maxRedirects >= 0 then maxRedirects + 1 else 0 }

  // A hop was answered by a redirect to the next URL, which passes the check.
  predicate LeadsTo(net: Net, hop: nat, current: string, next: string) {
    && net.answer(hop, current).Moved?
    && NextUrl(net, net.answer(hop, current).location, current) == (next, None)
  }

  predicate MayFollow(net: Net, hop: nat, current: string) {
    net.answer(hop, current).Moved? && NextUrl(net, net.answer(hop, current).location, current).1 == None
  }

  // The first URL is the one asked for, and each further one is where the one before redirects to; all
  // of them pass the check.
  ghost predicate Chain(net: Net, url: string, urls: seq<string>) {
    && (urls != [] ==> urls[0] == url && net.guard(url))
    && (forall i | 0 <= i < |urls| - 1 :: LeadsTo(net, i, urls[i], urls[i + 1]))
  }

  lemma ChainGrows(net: Net, url: string, urls: seq<string>, next: string)
    requires urls != [] && Chain(net, url, urls) && LeadsTo(net, |urls| - 1, urls[|urls| - 1], next)
    ensures Chain(net, url, urls + [next])
  {
    var longer := urls + [next];
    forall i | 0 <= i < |longer| - 1 ensures LeadsTo(net, i, longer[i], longer[i + 1]) {
      assert i < |urls| - 1 ==> longer[i + 1] == urls[i + 1];
    }
  }

  lemma ChainShrinks(net: Net, url: string, urls: seq<string>, next: string)
    requires Chain(net, url, urls + [next])
    ensures Chain(net, url, urls)
  {
    var longer := urls + [next];
    forall i | 0 <= i < |urls| - 1 ensures LeadsTo(net, i, urls[i], urls[i + 1]) {
      assert LeadsTo(net, i, longer[i], longer[i + 1]);
    }
  }

  // No request was made after the deadline.
  predicate InTime(net: Net, requested: seq<string>) {
    forall i | 0 <= i < |requested| :: !net.late(i)
  }

  // So far there is a next URL to request.
  predicate Goes(net: Net, url: string, requested: seq<string>) {
    var n := |requested|;
    if n == 0 then net.guard(url) else MayFollow(net, n - 1, requested[n - 1])
  }

  // Each outcome says how the chain of requests ended.
  ghost predicate Explains(net: Net, url: string, maxRedirects: int, requested: seq<string>, outcome: Outcome) {
    var n := |requested|;
    match outcome
    case Fetched(finalUrl, status, redirects) =>
      && n > 0 && requested[n - 1] == finalUrl && redirects == requested[1..]
      && net.answer(n - 1, finalUrl) == Final(status)
    case Failed(NetworkError(reason)) => n > 0 && net.answer(n - 1, requested[n - 1]) == Broken(reason)
    case Failed(Timeout) => Goes(net, url, requested) && n < Hops(maxRedirects) && net.late(n)
    case Failed(TooManyRedirects) => Goes(net, url, requested) && n == Hops(maxRedirects)
    case Failed(Unsafe) =>
      if n == 0 then !net.guard(url) else Stops(net, n - 1, requested[n - 1], Unsafe)
    case Failed(BadRedirect) => n > 0 && Stops(net, n - 1, requested[n - 1], BadRedirect)
  }

  // A hop was answered by a redirect that may not be followed.
  predicate Stops(net: Net, hop: nat, current: string, why: Failure) {
    && net.answer(hop, current).Moved?
    && NextUrl(net, net.answer(hop, current).location, current) == ("", Some(why))
  }

  // A redirect is followed when it names a location that can be read against the current URL and passes
  // the check; it is unsafe when only the check fails, and bad when there is nothing to check.
  lemma RedirectByCases(net: Net, hop: nat, current: string, next: string)
    ensures LeadsTo(net, hop, current, next)
       <==> exists loc :: loc != "" && net.answer(hop, current) == Moved(Some(loc))
                          && net.join(loc, current) == Some(next) && net.guard(next)
    ensures Stops(net, hop, current, Unsafe)
       <==> exists loc, v :: loc != "" && net.answer(hop, current) == Moved(Some(loc))
                             && net.join(loc, current) == Some(v) && !net.guard(v)
    ensures Stops(net, hop, current, BadRedirect)
       <==> || net.answer(hop, current) == Moved(None)
            || net.answer(hop, current) == Moved(Some(""))
            || exists loc :: net.answer(hop, current) == Moved(Some(loc)) && net.join(loc, current) == None
  {
    var answer := net.answer(hop, current);
    if answer.Moved? && answer.location.Some? {
      var loc := answer.location.value;
      assert answer == Moved(Some(loc));
      assert net.join(loc, current).Some? ==> net.join(loc, current) == Some(net.join(loc, current).value);
    }
  }

  // What a fetch does: the URLs it requests and how it ends.
  ghost predicate Runs(net: Net, url: string, maxRedirects: int, requested: seq<string>, outcome: Outcome) {
    && Chain(net, url, requested) && InTime(net, requested) && |requested| <= Hops(maxRedirects)
    && Explains(net, url, maxRedirects, requested, outcome)
  }

  lemma {:induction false} ChainsAgree(net: Net, url: string, a: seq<string>, b: seq<string>, i: nat)
    requires Chain(net, url, a) && Chain(net, url, b) && i < |a| && i < |b|
    ensures a[i] == b[i]
  {
    if i > 0 {
      ChainsAgree(net, url, a, b, i - 1);
      assert LeadsTo(net, i - 1, a[i - 1], a[i]) && LeadsTo(net, i - 1, b[i - 1], b[i]);
    }
  }

  lemma ShorterDoesNotEnd(net: Net, url: string, maxRedirects: int, a: seq<string>, b: seq<string>, outcome: Outcome)
    requires Chain(net, url, a) && Chain(net, url, b) && InTime(net, b)
    requires |a| < |b| <= Hops(maxRedirects)
    ensures !Explains(net, url, maxRedirects, a, outcome)
  {
    var n := |a|;
    if n > 0 {
      ChainsAgree(net, url, a, b, n - 1);
      assert LeadsTo(net, n - 1, b[n - 1], b[n]);
    }
  }

  // The contract of Fetch leaves it no choice: the URLs it requests and its outcome are determined.
  lemma RunIsUnique(net: Net, url: string, maxRedirects: int,
                    a: seq<string>, x: Outcome, b: seq<string>, y: Outcome)
    requires Runs(net, url, maxRedirects, a, x) && Runs(net, url, maxRedirects, b, y)
    ensures a == b && x == y
  {
    if |a| < |b| {
      ShorterDoesNotEnd(net, url, maxRedirects, a, b, x);
    } else if |b| < |a| {
      ShorterDoesNotEnd(net, url, maxRedirects, b, a, y);
    } else {
      forall i | 0 <= i < |a| ensures a[i] == b[i] {
        ChainsAgree(net, url, a, b, i);
      }
    }
  }

  // ---- Hosts -----------------------------------------------------------------------------

  // A URL that was resolved, written in full, is read back as itself against any other.
  ghost predicate ReadsInFull(net: Net) {
    forall loc, cur, v, other ::
      net.join(loc, cur) == Some(v) && net.guard(other) ==> v != "" && net.join(v, other) == Some(v)
  }

  // Some URL that can be resolved and passes the check is on another host.
  ghost predicate Elsewhere(net: Net, hostOf: string -> string, host: string) {
    exists loc, cur :: net.join(loc, cur).Some? && net.guard(net.join(loc, cur).value)
                       && hostOf(net.join(loc, cur).value) != host
  }

  // With some answers, and in time, the fetch requests a URL on another host than the one asked for.
  ghost predicate CanLeave(net: Net, hostOf: string -> string, url: string, maxRedirects: int) {
    exists answer: (nat, string) -> Response, late: nat -> bool, requested: seq<string>, outcome: Outcome ::
      && Runs(net.(answer := answer, late := late), url, maxRedirects, requested, outcome)
      && VisitsElsewhere(hostOf, hostOf(url), requested)
  }

  predicate VisitsElsewhere(hostOf: string -> string, host: string, requested: seq<string>) {
    exists i :: 0 <= i < |requested| && hostOf(requested[i]) != host
  }

  // A start page that answers with one redirect, to v, where a page is served.
  function Bounce(net: Net, v: string): Net {
    net.(answer := (hop: nat, url: string) => if hop == 0 then Moved(Some(v)) else Final(200),
         late := (hop: nat) => false)
  }

  lemma BounceLeaves(net: Net, url: string, maxRedirects: int, v: string)
    requires net.guard(url) && net.guard(v) && v != "" && net.join(v, url) == Some(v) && maxRedirects >= 1
    ensures Runs(Bounce(net, v), url, maxRedirects, [url, v], Fetched(v, 200, [v]))
  {
    var n := Bounce(net, v);
    assert LeadsTo(n, 0, url, v);
    assert [url, v][1..] == [v];
  }

  // Whatever checks were made before it, a fetch can be led to another host exactly when its URL passes
  // the static check, one redirect may be followed, and some URL on another host passes that check.
  lemma CanLeaveIff(net: Net, hostOf: string -> string, url: string, maxRedirects: int)
    requires ReadsInFull(net)
    ensures CanLeave(net, hostOf, url, maxRedirects)
       <==> net.guard(url) && maxRedirects >= 1 && Elsewhere(net, hostOf, hostOf(url))
  {
    if answer: (nat, string) -> Response, late: nat -> bool, requested: seq<string>, outcome: Outcome :|
        && Runs(net.(answer := answer, late := late), url, maxRedirects, requested, outcome)
        && VisitsElsewhere(hostOf, hostOf(url), requested) {
      LeftByRedirect(net.(answer := answer, late := late), hostOf, url, requested);
    }
    if net.guard(url) && maxRedirects >= 1 && Elsewhere(net, hostOf, hostOf(url)) {
      var loc, cur :| net.join(loc, cur).Some? && net.guard(net.join(loc, cur).value)
                      && hostOf(net.join(loc, cur).value) != hostOf(url);
      var v := net.join(loc, cur).value;
      BounceLeaves(net, url, maxRedirects, v);
      assert hostOf([url, v][1]) != hostOf(url);
    }
  }

  lemma LeftByRedirect(net: Net, hostOf: string -> string, url: string, requested: seq<string>)
    requires Chain(net, url, requested) && VisitsElsewhere(hostOf, hostOf(url), requested)
    ensures |requested| >= 2 && net.guard(url) && Elsewhere(net, hostOf, hostOf(url))
  {
    var i :| 0 <= i < |requested| && hostOf(requested[i]) != hostOf(url);
    assert LeadsTo(net, i - 1, requested[i - 1], requested[i]);
    var loc := net.answer(i - 1, requested[i - 1]).location.value;
    assert net.join(loc, requested[i - 1]) == Some(requested[i]);
  }
}
