/** The request tracker: a ring of the latest durations, counters, per-route statistics and the snapshot. */
module Telemetry {
  import opened Totals

  const WINDOW: nat := 1000
  const LISTED: nat := 10

  /** Durations in microseconds. */
  datatype Sample = Sample(route: string, status: int, micros: int)

  datatype RouteStat = RouteStat(count: nat, errors: nat, total: int)

  datatype Class = Success | ClientError | ServerError | Other

  function ClassOf(status: int): Class {
    if 200 <= status < 300 then Success
    else if 400 <= status < 500 then ClientError
    else if status >= 500 then ServerError
    else Other
  }

  function RouteName(route: string): string {
    if route == "" then "unknown" else route
  }

  predicate Contains(text: string, part: string) {
    part <= text || (text != "" && Contains(text[1..], part))
  }

  /** isRouteError. */
  predicate IsRouteError(route: string, status: int) {
    if status < 400 then false
    else if status >= 500 then true
    else !(status == 401 || status == 403 || (status == 404 && Contains(route, "thumbnail")))
  }

  // ---------------------------------------------------------------- what the tracker should hold

  /** The last WINDOW values, or all of them. */
  function Latest(all: seq<int>): seq<int> {
    if |all| < WINDOW then all else all[|all| - WINDOW..]
  }

  function Durations(history: seq<Sample>): (r: seq<int>)
    ensures |r| == |history|
  {
    seq(|history|, i requires 0 <= i < |history| => history[i].micros)
  }

  function InClass(history: seq<Sample>, c: Class): nat {
    if history == [] then 0
    else InClass(history[..|history| - 1], c) + if ClassOf(history[|history| - 1].status) == c then 1 else 0
  }

  function Touched(routes: map<string, RouteStat>, s: Sample): map<string, RouteStat> {
    var name := RouteName(s.route);
    var stat := if name in routes then routes[name] else RouteStat(0, 0, 0);
    var errors := stat.errors + (if IsRouteError(name, s.status) then 1 else 0);
    routes[name := RouteStat(stat.count + 1, errors, stat.total + s.micros)]
  }

  function Tally(history: seq<Sample>): map<string, RouteStat> {
    if history == [] then map[] else Touched(Tally(history[..|history| - 1]), history[|history| - 1])
  }

  function Counts(routes: map<string, RouteStat>): map<string, nat> {
    map r | r in routes :: routes[r].count
  }

  lemma TouchedCounts(routes: map<string, RouteStat>, s: Sample)
    ensures Total(Counts(Touched(routes, s))) == Total(Counts(routes)) + 1
  {
    var name := RouteName(s.route);
    var count := ValueOr0(Counts(routes), name) + 1;
    assert Counts(Touched(routes, s)) == Counts(routes)[name := count];
    TotalUpdate(Counts(routes), name, count);
  }

  /** Route counts add up to the number of requests. */
  lemma {:induction false} CountsAddUp(history: seq<Sample>)
    ensures Total(Counts(Tally(history))) == |history|
    decreases |history|
  {
    if history == [] {
      assert Counts(Tally(history)) == map[];
    } else {
      CountsAddUp(history[..|history| - 1]);
      TouchedCounts(Tally(history[..|history| - 1]), history[|history| - 1]);
    }
  }

  /** Every route listed had a request, and no route has more errors than requests. */
  lemma {:induction false} ErrorsWithinCounts(history: seq<Sample>)
    ensures forall r :: r in Tally(history) ==>
      1 <= Tally(history)[r].count && Tally(history)[r].errors <= Tally(history)[r].count
    decreases |history|
  {
    if history != [] {
      ErrorsWithinCounts(history[..|history| - 1]);
    }
  }

  /** Every request is in exactly one class. */
  lemma {:induction false} ClassesAddUp(history: seq<Sample>)
    ensures InClass(history, Success) + InClass(history, ClientError) + InClass(history, ServerError)
      + InClass(history, Other) == |history|
    decreases |history|
  {
    if history != [] {
      ClassesAddUp(history[..|history| - 1]);
    }
  }

  // ---------------------------------------------------------------- the statistics, request by request

  predicate StandsAt(text: string, i: nat, part: string) {
    i + |part| <= |text| && text[i..i + |part|] == part
  }

  predicate HasPart(text: string, part: string) {
    exists i :: 0 <= i <= |text| && StandsAt(text, i, part)
  }

  lemma {:induction false} ContainsIff(text: string, part: string)
    ensures Contains(text, part) <==> HasPart(text, part)
  {
    if part <= text {
      assert StandsAt(text, 0, part);
    } else if text != "" {
      ContainsIff(text[1..], part);
      if HasPart(text[1..], part) {
        var i :| 0 <= i <= |text[1..]| && StandsAt(text[1..], i, part);
        assert StandsAt(text, i + 1, part);
      }
      if HasPart(text, part) {
        var i :| 0 <= i <= |text| && StandsAt(text, i, part);
        assert i > 0 && StandsAt(text[1..], i - 1, part);
      }
    }
  }

  /** The requests of a route; one without a route is of the route "unknown". */
  function OnRoute(history: seq<Sample>, route: string): seq<Sample> {
    if history == [] then []
    else
      var s := history[|history| - 1];
      OnRoute(history[..|history| - 1], route)
      + if s.route == route || (s.route == "" && route == "unknown") then [s] else []
  }

  /** A failed request, other than an expected one: unauthorized, forbidden, or not found on a thumbnail route. */
  predicate Failure(route: string, status: int) {
    status >= 500
    || (400 <= status && status != 401 && status != 403 && !(status == 404 && HasPart(route, "thumbnail")))
  }

  lemma FailureIff(route: string, status: int)
    ensures IsRouteError(route, status) <==> Failure(route, status)
  {
    ContainsIff(route, "thumbnail");
  }

  function Failures(samples: seq<Sample>, route: string): nat {
    if samples == [] then 0
    else Failures(samples[..|samples| - 1], route) + if Failure(route, samples[|samples| - 1].status) then 1 else 0
  }

  function Micros(samples: seq<Sample>): int {
    if samples == [] then 0 else Micros(samples[..|samples| - 1]) + samples[|samples| - 1].micros
  }

  lemma OneMore(samples: seq<Sample>, s: Sample, route: string)
    ensures Failures(samples + [s], route) == Failures(samples, route) + if Failure(route, s.status) then 1 else 0
    ensures Micros(samples + [s]) == Micros(samples) + s.micros
  {
    assert (samples + [s])[..|samples + [s]| - 1] == samples;
  }

  /** The statistics of the request's own route; those of other routes stay. */
  lemma TouchedIs(routes: map<string, RouteStat>, s: Sample, route: string)
    requires route != ""
    ensures var was := if route in routes then routes[route] else RouteStat(0, 0, 0);
            if s.route == route || (s.route == "" && route == "unknown") then
              && route in Touched(routes, s)
              && Touched(routes, s)[route]
                 == RouteStat(was.count + 1, was.errors + (if Failure(route, s.status) then 1 else 0),
                              was.total + s.micros)
            else
              && (route in Touched(routes, s) <==> route in routes)
              && (route in routes ==> Touched(routes, s)[route] == routes[route])
  {
    FailureIff(route, s.status);
  }

  /** A named route is listed when it had a request, with its requests, its failures and their total duration. */
  lemma {:induction false} TallyIs(history: seq<Sample>, route: string)
    requires route != ""
    ensures route in Tally(history) <==> OnRoute(history, route) != []
    ensures route in Tally(history) ==>
              var samples := OnRoute(history, route);
              Tally(history)[route] == RouteStat(|samples|, Failures(samples, route), Micros(samples))
    decreases |history|
  {
    if history != [] {
      var rest, s := history[..|history| - 1], history[|history| - 1];
      TallyIs(rest, route);
      TouchedIs(Tally(rest), s, route);
      OneMore(OnRoute(rest, route), s, route);
      assert OnRoute(rest, route) + [] == OnRoute(rest, route);
    }
  }

  /** No request is filed under an empty name. */
  lemma {:induction false} TallyNamed(history: seq<Sample>)
    ensures "" !in Tally(history)
    decreases |history|
  {
    if history != [] {
      TallyNamed(history[..|history| - 1]);
    }
  }

  /** Requests with a status from `low` up to, but not including, `high`. */
  function Between(history: seq<Sample>, low: int, high: int): nat {
    if history == [] then 0
    else Between(history[..|history| - 1], low, high) + if low <= history[|history| - 1].status < high then 1 else 0
  }

  /** The counters are those of the 200s, of the 400s, and of 500 and above. */
  lemma {:induction false} ClassesAre(history: seq<Sample>, high: int)
    requires forall i :: 0 <= i < |history| ==> history[i].status < high
    ensures InClass(history, Success) == Between(history, 200, 300)
    ensures InClass(history, ClientError) == Between(history, 400, 500)
    ensures InClass(history, ServerError) == Between(history, 500, high)
    decreases |history|
  {
    if history != [] {
      var rest := history[..|history| - 1];
      assert forall i :: 0 <= i < |rest| ==> rest[i] == history[i];
      ClassesAre(rest, high);
    }
  }

  /** The window is the last thousand durations, or all of them. */
  lemma LatestIs(all: seq<int>)
    ensures Latest(all) == all[if |all| < 1000 then 0 else |all| - 1000..]
  {}

  // ---------------------------------------------------------------- sorting

  function Insert(x: int, sorted: seq<int>): seq<int> {
    if sorted == [] || x <= sorted[0] then [x] + sorted else [sorted[0]] + Insert(x, sorted[1..])
  }

  /** sort.Float64s. */
  function Sorted(values: seq<int>): seq<int> {
    if values == [] then [] else Insert(values[0], Sorted(values[1..]))
  }

  predicate Ascending(s: seq<int>) {
    forall i, j :: 0 <= i <= j < |s| ==> s[i] <= s[j]
  }

  lemma {:induction false} InsertSame(x: int, s: seq<int>)
    ensures multiset(Insert(x, s)) == multiset(s) + multiset{x} && |Insert(x, s)| == |s| + 1
    decreases |s|
  {
    if s != [] && x > s[0] {
      InsertSame(x, s[1..]);
      assert s == [s[0]] + s[1..];
    } else {
      assert Insert(x, s) == [x] + s;
    }
  }

  lemma PrependKeeps(x: int, s: seq<int>)
    requires Ascending(s) && forall i :: 0 <= i < |s| ==> x <= s[i]
    ensures Ascending([x] + s)
  {}

  lemma InsertAtLeast(x: int, s: seq<int>, low: int)
    requires low <= x && forall i :: 0 <= i < |s| ==> low <= s[i]
    ensures forall i :: 0 <= i < |Insert(x, s)| ==> low <= Insert(x, s)[i]
  {
    InsertSame(x, s);
    forall i | 0 <= i < |Insert(x, s)| ensures low <= Insert(x, s)[i] {
      assert Insert(x, s)[i] in multiset(Insert(x, s));
      assert Insert(x, s)[i] == x || Insert(x, s)[i] in s;
    }
  }

  lemma {:induction false} InsertKeeps(x: int, s: seq<int>)
    requires Ascending(s)
    ensures Ascending(Insert(x, s))
    decreases |s|
  {
    if s != [] && x > s[0] {
      InsertKeeps(x, s[1..]);
      InsertAtLeast(x, s[1..], s[0]);
      PrependKeeps(s[0], Insert(x, s[1..]));
    } else {
      PrependKeeps(x, s);
    }
  }

  lemma {:induction false} SortedIs(values: seq<int>)
    ensures Ascending(Sorted(values)) && multiset(Sorted(values)) == multiset(values) && |Sorted(values)| == |values|
  {
    if values != [] {
      SortedIs(values[1..]);
      InsertKeeps(values[0], Sorted(values[1..]));
      InsertSame(values[0], Sorted(values[1..]));
      assert values == [values[0]] + values[1..];
    }
  }

  /** How many of the values are at most v. */
  function AtMost(values: seq<int>, v: int): nat {
    if values == [] then 0 else (if values[0] <= v then 1 else 0) + AtMost(values[1..], v)
  }

  lemma {:induction false} AtMostInsert(x: int, s: seq<int>, v: int)
    ensures AtMost(Insert(x, s), v) == AtMost(s, v) + if x <= v then 1 else 0
    decreases |s|
  {
    if s != [] && x > s[0] {
      AtMostInsert(x, s[1..], v);
      assert Insert(x, s)[1..] == Insert(x, s[1..]);
    } else {
      assert Insert(x, s)[1..] == s;
    }
  }

  lemma {:induction false} AtMostSorted(values: seq<int>, v: int)
    ensures AtMost(Sorted(values), v) == AtMost(values, v)
  {
    if values != [] {
      AtMostSorted(values[1..], v);
      AtMostInsert(values[0], Sorted(values[1..]), v);
    }
  }

  lemma {:induction false} AtMostAscending(s: seq<int>, k: nat)
    requires Ascending(s) && k < |s|
    ensures AtMost(s, s[k]) >= k + 1
    decreases k
  {
    if k > 0 {
      AtMostAscending(s[1..], k - 1);
      assert s[1..][k - 1] == s[k];
    }
  }

  /** How many of the values are under v. */
  function Below(values: seq<int>, v: int): nat {
    if values == [] then 0 else (if values[0] < v then 1 else 0) + Below(values[1..], v)
  }

  lemma {:induction false} BelowIs(values: seq<int>, v: int)
    ensures Below(values, v) == AtMost(values, v - 1)
  {
    if values != [] {
      BelowIs(values[1..], v);
    }
  }

  lemma {:induction false} NoneAtMost(s: seq<int>, v: int)
    requires forall i :: 0 <= i < |s| ==> v < s[i]
    ensures AtMost(s, v) == 0
  {
    if s != [] {
      NoneAtMost(s[1..], v);
    }
  }

  lemma {:induction false} BelowAscending(s: seq<int>, k: nat)
    requires Ascending(s) && k < |s|
    ensures Below(s, s[k]) <= k
    decreases k
  {
    if k == 0 {
      BelowIs(s, s[0]);
      NoneAtMost(s, s[0] - 1);
    } else {
      assert s[1..][k - 1] == s[k];
      BelowAscending(s[1..], k - 1);
    }
  }

  // ---------------------------------------------------------------- percentiles

  /** The index read for a percentile. */
  function Rank(n: nat, percent: nat): nat {
    n * percent / 100
  }

  /** A value of the window with more than that share of the window at or below it, and at most that share under it. */
  predicate IsPercentile(values: seq<int>, percent: nat, v: int) {
    v in values && Below(values, v) <= Rank(|values|, percent) < AtMost(values, v)
  }

  lemma TimesGrow(n: nat, low: nat, high: nat)
    requires low <= high
    ensures n * low <= n * high
  {
    assert n * high == n * low + n * (high - low);
  }

  lemma RankInRange(n: nat, percent: nat)
    requires n > 0 && percent < 100
    ensures Rank(n, percent) < n
  {
    TimesGrow(n, percent, 99);
  }

  lemma RankMonotone(n: nat, low: nat, high: nat)
    requires low <= high
    ensures Rank(n, low) <= Rank(n, high)
  {
    TimesGrow(n, low, high);
  }

  lemma PercentileHolds(values: seq<int>, percent: nat)
    requires values != [] && percent < 100
    ensures |Sorted(values)| == |values| && Rank(|values|, percent) < |values|
    ensures IsPercentile(values, percent, Sorted(values)[Rank(|values|, percent)])
  {
    SortedIs(values);
    RankInRange(|values|, percent);
    var k := Rank(|values|, percent);
    var v := Sorted(values)[k];
    AtMostAscending(Sorted(values), k);
    AtMostSorted(values, v);
    BelowAscending(Sorted(values), k);
    BelowIs(values, v);
    BelowIs(Sorted(values), v);
    AtMostSorted(values, v - 1);
    assert Sorted(values)[k] in multiset(Sorted(values));
  }

  lemma {:induction false} BelowMore(values: seq<int>, v: int, w: int)
    requires v < w
    ensures AtMost(values, v) <= Below(values, w)
  {
    if values != [] {
      BelowMore(values[1..], v, w);
    }
  }

  /** A percentile is the value at one place of the sorted window, and no other value is. */
  lemma PercentileIff(values: seq<int>, percent: nat, v: int)
    requires values != [] && percent < 100
    ensures |Sorted(values)| == |values| && 0 <= |values| * percent / 100 < |values|
    ensures IsPercentile(values, percent, v) <==> v == Sorted(values)[|values| * percent / 100]
  {
    PercentileHolds(values, percent);
    var w := Sorted(values)[Rank(|values|, percent)];
    if v < w {
      BelowMore(values, v, w);
    } else if w < v {
      BelowMore(values, w, v);
    }
  }

  // ---------------------------------------------------------------- the routes listed

  datatype Summary = Summary(route: string, count: nat, errors: nat)

  function InsertRoute(x: Summary, s: seq<Summary>): seq<Summary> {
    if s == [] || x.count >= s[0].count then [x] + s else [s[0]] + InsertRoute(x, s[1..])
  }

  /** sort.Slice by falling count. */
  function ByCount(s: seq<Summary>): seq<Summary> {
    if s == [] then [] else InsertRoute(s[0], ByCount(s[1..]))
  }

  predicate Descending(s: seq<Summary>) {
    forall i, j :: 0 <= i <= j < |s| ==> s[i].count >= s[j].count
  }

  lemma {:induction false} InsertRouteSame(x: Summary, s: seq<Summary>)
    ensures multiset(InsertRoute(x, s)) == multiset(s) + multiset{x} && |InsertRoute(x, s)| == |s| + 1
    decreases |s|
  {
    if s != [] && x.count < s[0].count {
      InsertRouteSame(x, s[1..]);
      assert s == [s[0]] + s[1..];
    } else {
      assert InsertRoute(x, s) == [x] + s;
    }
  }

  lemma {:induction false} InsertRouteKeeps(x: Summary, s: seq<Summary>)
    requires Descending(s)
    ensures Descending(InsertRoute(x, s))
    decreases |s|
  {
    if s != [] && x.count < s[0].count {
      InsertRouteKeeps(x, s[1..]);
      var rest := InsertRoute(x, s[1..]);
      InsertRouteSame(x, s[1..]);
      forall i | 0 <= i < |rest| ensures s[0].count >= rest[i].count {
        assert rest[i] in multiset(rest);
        assert rest[i] == x || rest[i] in s[1..];
      }
    }
  }

  lemma {:induction false} ByCountIs(s: seq<Summary>)
    ensures Descending(ByCount(s)) && multiset(ByCount(s)) == multiset(s) && |ByCount(s)| == |s|
  {
    if s != [] {
      ByCountIs(s[1..]);
      InsertRouteKeeps(s[0], ByCount(s[1..]));
      InsertRouteSame(s[0], ByCount(s[1..]));
      assert s == [s[0]] + s[1..];
    }
  }

  predicate ListsRoute(top: seq<Summary>, route: string) {
    exists i :: 0 <= i < |top| && top[i].route == route
  }

  /** `all` has one summary per route. */
  predicate Summarizes(all: seq<Summary>, routes: map<string, RouteStat>) {
    && (forall i :: 0 <= i < |all| ==> all[i].route in routes)
    && (forall i :: 0 <= i < |all| ==>
      all[i] == Summary(all[i].route, routes[all[i].route].count, routes[all[i].route].errors))
    && (forall r :: r in routes ==> ListsRoute(all, r))
    && (forall i, j :: 0 <= i < j < |all| ==> all[i].route != all[j].route)
  }

  /** No route left out has more requests than one that is listed. */
  predicate TopOf(top: seq<Summary>, routes: map<string, RouteStat>) {
    && |top| == (if |routes| < 10 then |routes| else 10)
    && Descending(top)
    && (forall i :: 0 <= i < |top| ==> top[i].route in routes && top[i].count == routes[top[i].route].count)
    && (forall r, i :: r in routes && !ListsRoute(top, r) && 0 <= i < |top| ==> routes[r].count <= top[i].count)
  }

  lemma SummariesAreRoutes(all: seq<Summary>, routes: map<string, RouteStat>)
    requires Summarizes(all, routes)
    ensures |all| == |routes|
  {
    NamesSize(all);
    forall r ensures r in Names(all) <==> r in routes {
      NamesAre(all, r);
    }
    assert Names(all) == routes.Keys;
    assert |routes.Keys| == |routes|;
  }

  function Names(all: seq<Summary>): set<string> {
    if all == [] then {} else Names(all[..|all| - 1]) + {all[|all| - 1].route}
  }

  lemma {:induction false} NamesAre(all: seq<Summary>, r: string)
    ensures r in Names(all) <==> ListsRoute(all, r)
    decreases |all|
  {
    if all != [] {
      NamesAre(all[..|all| - 1], r);
      assert forall i :: 0 <= i < |all| - 1 ==> all[..|all| - 1][i] == all[i];
    }
  }

  lemma {:induction false} NamesSize(all: seq<Summary>)
    requires forall i, j :: 0 <= i < j < |all| ==> all[i].route != all[j].route
    ensures |Names(all)| == |all|
    decreases |all|
  {
    if all != [] {
      NamesSize(all[..|all| - 1]);
      NamesAre(all[..|all| - 1], all[|all| - 1].route);
    }
  }

  /** A reordering of all summaries. */
  predicate Reorders(sorted: seq<Summary>, all: seq<Summary>) {
    |sorted| == |all| && multiset(sorted) == multiset(all)
  }

  lemma SortedAreRoutes(all: seq<Summary>, sorted: seq<Summary>, routes: map<string, RouteStat>, i: nat)
    requires Summarizes(all, routes) && Reorders(sorted, all) && i < |all|
    ensures sorted[i].route in routes && sorted[i].count == routes[sorted[i].route].count
  {
    var x := sorted[i];
    assert x in multiset(sorted);
    assert x in all;
  }

  lemma RouteIsSorted(all: seq<Summary>, sorted: seq<Summary>, routes: map<string, RouteStat>, r: string)
    returns (j: nat)
    requires Summarizes(all, routes) && Reorders(sorted, all) && r in routes
    ensures j < |all| && sorted[j].route == r && sorted[j].count == routes[r].count
  {
    var k :| 0 <= k < |all| && all[k].route == r;
    assert all[k] in multiset(all);
    assert all[k] in sorted;
    j :| 0 <= j < |sorted| && sorted[j] == all[k];
  }

  lemma OmittedIsLess(all: seq<Summary>, sorted: seq<Summary>, routes: map<string, RouteStat>,
                      n: nat, r: string, i: nat)
    requires Summarizes(all, routes) && Reorders(sorted, all) && Descending(sorted)
    requires i < n <= |all| && r in routes && !ListsRoute(sorted[..n], r)
    ensures routes[r].count <= sorted[i].count
  {
    var top := sorted[..n];
    forall j | 0 <= j < n ensures ListsRoute(top, sorted[j].route) {
      assert top[j].route == sorted[j].route;
    }
    var j := RouteIsSorted(all, sorted, routes, r);
  }

  /** Sorting the summaries by count and cutting at ten lists the busiest routes. */
  lemma CutIsTop(all: seq<Summary>, routes: map<string, RouteStat>)
    requires Summarizes(all, routes)
    ensures |ByCount(all)| == |all|
    ensures TopOf(ByCount(all)[..if |all| < LISTED then |all| else LISTED], routes)
  {
    ByCountIs(all);
    SummariesAreRoutes(all, routes);
    CutIsTopAt(all, ByCount(all), routes, if |all| < LISTED then |all| else LISTED);
  }

  lemma CutIsTopAt(all: seq<Summary>, sorted: seq<Summary>, routes: map<string, RouteStat>, n: nat)
    requires Summarizes(all, routes) && Reorders(sorted, all) && Descending(sorted)
    requires n <= |all| && n == if |routes| < LISTED then |routes| else LISTED
    ensures TopOf(sorted[..n], routes)
  {
    forall i | 0 <= i < n ensures sorted[i].route in routes && sorted[i].count == routes[sorted[i].route].count {
      SortedAreRoutes(all, sorted, routes, i);
    }
    forall r, i | r in routes && !ListsRoute(sorted[..n], r) && 0 <= i < n
      ensures routes[r].count <= sorted[i].count
    {
      OmittedIsLess(all, sorted, routes, n, r, i);
    }
  }

  // ---------------------------------------------------------------- the tracker

  lemma LatestNext(all: seq<int>, x: int)
    ensures Latest(all + [x]) == if |all| < WINDOW then all + [x] else Latest(all)[1..] + [x]
  {}

  lemma DurationsNext(history: seq<Sample>, s: Sample)
    ensures Durations(history + [s]) == Durations(history) + [s.micros]
  {}

  lemma TallyNext(history: seq<Sample>, s: Sample)
    ensures Tally(history + [s]) == Touched(Tally(history), s)
  {
    assert (history + [s])[..|history + [s]| - 1] == history;
  }

  datatype Latency = Latency(p50: int, p95: int, p99: int, max: int)

  class TelemetryTracker {
    var totalReqs: nat
    var success2xx: nat
    var clientErr4xx: nat
    var serverErr5xx: nat
    const durations: array<int>
    var held: nat
    var durIndex: nat
    var routes: map<string, RouteStat>
    ghost var history: seq<Sample>

    /** The ring, read from durIndex. */
    ghost function Window(): seq<int>
      requires held <= durations.Length && durIndex <= held
      reads this, durations
    {
      durations[durIndex..held] + durations[..durIndex]
    }

    /** The buffer holds the latest durations of the history, in order. */
    ghost predicate RingOf(all: seq<Sample>)
      reads this, durations
    {
      && durations.Length == WINDOW && held <= WINDOW && durIndex < WINDOW && (held < WINDOW ==> durIndex == 0)
      && held == (if |all| < WINDOW then |all| else WINDOW)
      && Window() == Latest(Durations(all))
    }

    /** The counters are those of the history. */
    ghost predicate CountersOf(all: seq<Sample>)
      reads this
    {
      && totalReqs == |all| && success2xx == InClass(all, Success)
      && clientErr4xx == InClass(all, ClientError) && serverErr5xx == InClass(all, ServerError)
    }

    ghost predicate Valid()
      reads this, durations
    {
      RingOf(history) && CountersOf(history) && routes == Tally(history)
    }

    constructor ()
      ensures Valid() && history == [] && fresh(durations)
    {
      totalReqs, success2xx, clientErr4xx, serverErr5xx := 0, 0, 0, 0;
      durations := new int[WINDOW];
      held, durIndex := 0, 0;
      routes := map[];
      history := [];
    }

    method Push(micros: int)
      requires durations.Length == WINDOW && held <= WINDOW && durIndex < WINDOW && (held < WINDOW ==> durIndex == 0)
      modifies this`held, this`durIndex, durations
      ensures held <= WINDOW && durIndex < WINDOW && (held < WINDOW ==> durIndex == 0)
      ensures held == if old(held) < WINDOW then old(held) + 1 else WINDOW
      ensures Window() == if old(held) < WINDOW then old(Window()) + [micros] else old(Window())[1..] + [micros]
    {
      if held < WINDOW {
        durations[held] := micros;
        held := held + 1;
      } else {
        durations[durIndex] := micros;
        durIndex := (durIndex + 1) % WINDOW;
      }
    }

    method RecordDuration(s: Sample, ghost before: seq<Sample>)
      requires RingOf(before)
      modifies this`held, this`durIndex, durations
      ensures RingOf(before + [s])
    {
      LatestNext(Durations(before), s.micros);
      DurationsNext(before, s);
      Push(s.micros);
    }

    method RecordStatus(s: Sample, ghost before: seq<Sample>)
      requires CountersOf(before)
      modifies this`totalReqs, this`success2xx, this`clientErr4xx, this`serverErr5xx
      ensures CountersOf(before + [s])
    {
      assert (before + [s])[..|before|] == before;
      totalReqs := totalReqs + 1;
      if s.status >= 200 && s.status < 300 {
        success2xx := success2xx + 1;
      } else if s.status >= 400 && s.status < 500 {
        clientErr4xx := clientErr4xx + 1;
      } else if s.status >= 500 {
        serverErr5xx := serverErr5xx + 1;
      }
    }

    method RecordRoute(s: Sample, ghost before: seq<Sample>)
      requires routes == Tally(before)
      modifies this`routes
      ensures routes == Tally(before + [s])
    {
      TallyNext(before, s);
      var name := if s.route == "" then "unknown" else s.route;
      var stat := if name in routes then routes[name] else RouteStat(0, 0, 0);
      var errors := stat.errors;
      if IsRouteError(name, s.status) {
        errors := errors + 1;
      }
      routes := routes[name := RouteStat(stat.count + 1, errors, stat.total + s.micros)];
    }

    method Record(route: string, status: int, micros: int)
      requires Valid()
      modifies this, durations
      ensures Valid() && history == old(history) + [Sample(route, status, micros)]
    {
      var s := Sample(route, status, micros);
      RecordStatus(s, history);
      RecordDuration(s, history);
      RecordRoute(s, history);
      history := history + [s];
    }

    /** One summary per route, in whatever order. */
    method CopyRoutes() returns (all: seq<Summary>)
      ensures Summarizes(all, routes)
    {
      all := [];
      var left := routes.Keys;
      while left != {}
        invariant left <= routes.Keys
        invariant forall i :: 0 <= i < |all| ==> all[i].route in routes && all[i].route !in left
        invariant forall i ::
          0 <= i < |all| ==> all[i] == Summary(all[i].route, routes[all[i].route].count, routes[all[i].route].errors)
        invariant forall r :: r in routes && r !in left ==> ListsRoute(all, r)
        invariant forall i, j :: 0 <= i < j < |all| ==> all[i].route != all[j].route
        decreases |left|
      {
        var r :| r in left;
        ghost var before := all;
        all := all + [Summary(r, routes[r].count, routes[r].errors)];
        left := left - {r};
        forall q | q in routes && q !in left ensures ListsRoute(all, q) {
          if q == r {
            assert all[|before|].route == q;
          } else {
            var i :| 0 <= i < |before| && before[i].route == q;
            assert all[i].route == q;
          }
        }
      }
    }

    /** Percentiles of the window in order, and the busiest routes. */
    method GetSnapshot() returns (total: nat, latency: Latency, top: seq<Summary>)
      requires Valid()
      ensures total == |history| == Total(Counts(routes)) && |Window()| == if total < 1000 then total else 1000
      ensures TopOf(top, routes)
      ensures latency.p50 <= latency.p95 <= latency.p99 <= latency.max
      ensures var window := Window();
              if window == [] then latency == Latency(0, 0, 0, 0)
              else
                && IsPercentile(window, 50, latency.p50) && IsPercentile(window, 95, latency.p95)
                && IsPercentile(window, 99, latency.p99)
                && latency.max in window && AtMost(window, latency.max) == |window|
    {
      CountsAddUp(history);
      total := totalReqs;
      var all := CopyRoutes();
      CutIsTop(all, routes);
      var sorted := ByCount(all);
      top := if |sorted| > LISTED then sorted[..LISTED] else sorted;
      assert top == sorted[..if |all| < LISTED then |all| else LISTED];
      latency := Percentiles();
    }

    method Percentiles() returns (latency: Latency)
      requires Valid()
      ensures latency.p50 <= latency.p95 <= latency.p99 <= latency.max
      ensures var window := Window();
              if window == [] then latency == Latency(0, 0, 0, 0)
              else
                && IsPercentile(window, 50, latency.p50) && IsPercentile(window, 95, latency.p95)
                && IsPercentile(window, 99, latency.p99)
                && latency.max in window && AtMost(window, latency.max) == |window|
    {
      var copy := durations[..held];
      if |copy| == 0 {
        return Latency(0, 0, 0, 0);
      }
      CopyIsWindow();
      SortedIs(copy);
      PercentileHolds(copy, 50);
      PercentileHolds(copy, 95);
      PercentileHolds(copy, 99);
      RankMonotone(|copy|, 50, 95);
      RankMonotone(|copy|, 95, 99);
      var sorted := Sorted(copy);
      var n := |copy|;
      // RankInRange: the source's guard against p99Idx >= n never acts.
      var p99Idx := n * 99 / 100;
      latency := Latency(sorted[n * 50 / 100], sorted[n * 95 / 100], sorted[p99Idx], sorted[n - 1]);
      AllAtMost(sorted, sorted[n - 1]);
      AtMostSorted(copy, sorted[n - 1]);
      assert sorted[n - 1] in multiset(sorted);
    }

    /** The copied buffer has the values of the window, rotated. */
    lemma CopyIsWindow()
      requires Valid()
      ensures |Window()| == held
      ensures forall v :: v in durations[..held] <==> v in Window()
      ensures forall v :: AtMost(durations[..held], v) == AtMost(Window(), v)
      ensures forall v :: Below(durations[..held], v) == Below(Window(), v)
    {
      var a, b := durations[..durIndex], durations[durIndex..held];
      if durIndex <= held {
        assert durations[..held] == a + b;
        forall v
          ensures AtMost(durations[..held], v) == AtMost(Window(), v)
          ensures Below(durations[..held], v) == Below(Window(), v)
        {
          RotatedCounts(a, b, v);
        }
      }
    }
  }

  lemma {:induction false} AtMostConcat(a: seq<int>, b: seq<int>, v: int)
    ensures AtMost(a + b, v) == AtMost(a, v) + AtMost(b, v)
  {
    if a == [] {
      assert a + b == b;
    } else {
      assert (a + b)[1..] == a[1..] + b;
      AtMostConcat(a[1..], b, v);
    }
  }

  lemma RotatedCounts(a: seq<int>, b: seq<int>, v: int)
    ensures AtMost(a + b, v) == AtMost(b + a, v) && Below(a + b, v) == Below(b + a, v)
  {
    AtMostConcat(a, b, v);
    AtMostConcat(b, a, v);
    AtMostConcat(a, b, v - 1);
    AtMostConcat(b, a, v - 1);
    BelowIs(a + b, v);
    BelowIs(b + a, v);
  }

  lemma {:induction false} AllAtMost(s: seq<int>, v: int)
    requires forall x :: x in s ==> x <= v
    ensures AtMost(s, v) == |s|
  {
    if s != [] {
      assert s[0] in s && forall x :: x in s[1..] ==> x in s;
      AllAtMost(s[1..], v);
    }
  }
}
