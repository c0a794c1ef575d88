/**
 Overlapping downloads of one share, statement by statement: check, count, sign the link, burn. Completions of
 the upload also run as a check and a later write.
 */
module BurnProtocol {
  import opened Options
  import opened EphemeralShares

  type Id = nat

  /** A request that passed the checks, has been counted (`last`: the count reached the limit), or has yet to burn. */
  datatype Phase = Checked | Counting(last: bool) | ToBurn

  /** `plain` and `final` count the links signed for requests that were not, and that were, the last download. */
  datatype World = World(row: Share, requests: map<Id, Phase>, completions: set<Id>, plain: nat, final: nat)

  datatype Action =
    | Check(r: Id, now: int)
    | GiveUp(r: Id)
    | Reject(r: Id)
    | Count(r: Id)
    | Sign(r: Id, ok: bool)
    | Burn(r: Id, now: int)
    | CheckUpload(c: Id, now: int)
    | FinishUpload(c: Id)
    | RejectUpload(c: Id)
    | DropUpload(c: Id)
    | BurnByAdmin
    | Mark(now: int)

  predicate At(w: World, r: Id, p: Phase) {
    r in w.requests && w.requests[r] == p
  }

  /**
   An action that is not enabled does nothing. GiveUp: the size is unknown. Reject: the object is too large.
   RejectUpload and DropUpload end a completion whose object is too large, or that the store did not assemble or cannot
   size.
   */
  function Apply(w: World, a: Action): World {
    match a
    case Check(r, now) =>
      if r !in w.requests && MayDownload(w.row, now) then w.(requests := w.requests[r := Checked]) else w
    case GiveUp(r) => if At(w, r, Checked) then w.(requests := w.requests - {r}) else w
    case Reject(r) =>
      if At(w, r, Checked) then w.(row := w.row.(status := Burned), requests := w.requests - {r}) else w
    case Count(r) =>
      if At(w, r, Checked)
      then w.(row := Counted(w.row), requests := w.requests[r := Counting(LastDownload(w.row))])
      else w
    case Sign(r, ok) =>
      if !(r in w.requests && w.requests[r].Counting?) then w
      else if !ok then w.(requests := w.requests - {r})
      else if w.requests[r].last then w.(requests := w.requests[r := ToBurn], final := w.final + 1)
      else w.(requests := w.requests - {r}, plain := w.plain + 1)
    case Burn(r, now) =>
      if At(w, r, ToBurn) then w.(row := BurnedRow(w.row, now), requests := w.requests - {r}) else w
    case CheckUpload(c, now) =>
      if w.row.status == Uploading && !PastDue(w.row, now) then w.(completions := w.completions + {c}) else w
    case FinishUpload(c) =>
      if c in w.completions then w.(row := w.row.(status := Active), completions := w.completions - {c}) else w
    case RejectUpload(c) =>
      if c in w.completions then w.(row := w.row.(status := Burned), completions := w.completions - {c}) else w
    case DropUpload(c) => w.(completions := w.completions - {c})
    case BurnByAdmin => w.(row := w.row.(status := Burned))
    case Mark(now) => w.(row := Marked(w.row, now))
  }

  function Run(w: World, run: seq<Action>): World
    decreases |run|
  {
    if run == [] then w else Run(Apply(w, run[0]), run[1..])
  }

  /** At most k requests are in flight at any time. */
  predicate AtMost(w: World, run: seq<Action>, k: nat)
    decreases |run|
  {
    |w.requests| <= k && (run == [] || AtMost(Apply(w, run[0]), run[1..], k))
  }

  predicate Over(status: Status) {
    status == Burned || status == Expired
  }

  /** The step declares an upload complete after its share has burned or expired, and so reopens it. */
  predicate Reopens(w: World, a: Action) {
    a.FinishUpload? && a.c in w.completions && Over(w.row.status)
  }

  /** How many steps of the run reopen the share. */
  function Late(w: World, run: seq<Action>): nat
    decreases |run|
  {
    if run == [] then 0 else (if Reopens(w, run[0]) then 1 else 0) + Late(Apply(w, run[0]), run[1..])
  }

  function Links(w: World): nat {
    w.plain + w.final
  }

  /** The number of links the settings allow: a limit of zero or less still lets one download through. */
  function Allowed(row: Share): nat {
    if row.max < 1 then 1 else row.max
  }

  predicate Untouched(w: World) {
    w.requests == map[] && w.plain == 0 && w.final == 0 && w.row.count == 0
  }

  // ---------------------------------------------------------------- counting requests by phase

  function In(m: map<Id, Phase>, p: Phase): set<Id> {
    set r | r in m && m[r] == p
  }

  lemma DropMoves(m: map<Id, Phase>, r: Id, p: Phase)
    ensures |In(m - {r}, p)| == |In(m, p)| - (if r in m && m[r] == p then 1 else 0)
  {
    assert In(m - {r}, p) == In(m, p) - {r};
  }

  lemma PutMoves(m: map<Id, Phase>, r: Id, q: Phase, p: Phase)
    ensures |In(m[r := q], p)| == |In(m, p)| + (if p == q then 1 else 0) - (if r in m && m[r] == p then 1 else 0)
  {
    DropMoves(m, r, p);
    DropMoves(m[r := q], r, p);
    assert m[r := q] - {r} == m - {r};
  }

  lemma PhasesAddUp(m: map<Id, Phase>)
    ensures |In(m, Checked)| + |In(m, Counting(true))| + |In(m, Counting(false))| + |In(m, ToBurn)| == |m|
  {
    var a, b, c, d := In(m, Checked), In(m, Counting(true)), In(m, Counting(false)), In(m, ToBurn);
    assert a + b + c + d == m.Keys;
    assert |a + b| == |a| + |b|;
    assert |a + b + c| == |a + b| + |c|;
    assert |a + b + c + d| == |a + b + c| + |d|;
    assert |m.Keys| == |m|;
  }

  // ---------------------------------------------------------------- the invariant

  /** Links that are not the last come from different counts below the limit. */
  predicate PlainWithin(w: World) {
    && w.plain + |In(w.requests, Counting(false))| <= w.row.count
    && w.plain + |In(w.requests, Counting(false))| <= Allowed(w.row) - 1
  }

  /** Until the share is over, every last link beyond `base` still has its request waiting to burn it. */
  predicate FinalPending(w: World, base: nat) {
    !Over(w.row.status) ==> w.final <= base + |In(w.requests, ToBurn)|
  }

  /** Once it is over, only the requests already past the check can add links. */
  predicate FinalWithin(w: World, base: nat, k: nat) {
    Over(w.row.status) ==> w.final + |In(w.requests, Checked)| + |In(w.requests, Counting(true))| <= base + k
  }

  /** `base`: what the openings of the share before the present one may have given out. */
  predicate Good(w: World, base: nat, k: nat) {
    PlainWithin(w) && FinalPending(w, base) && FinalWithin(w, base, k)
  }

  lemma MoveAll(m: map<Id, Phase>, r: Id, q: Phase)
    ensures forall p ::
      |In(m[r := q], p)| == |In(m, p)| + (if p == q then 1 else 0) - (if r in m && m[r] == p then 1 else 0)
    ensures forall p :: |In(m - {r}, p)| == |In(m, p)| - (if r in m && m[r] == p then 1 else 0)
  {
    forall p
      ensures |In(m[r := q], p)| == |In(m, p)| + (if p == q then 1 else 0) - (if r in m && m[r] == p then 1 else 0)
    {
      PutMoves(m, r, q, p);
    }
    forall p ensures |In(m - {r}, p)| == |In(m, p)| - (if r in m && m[r] == p then 1 else 0) {
      DropMoves(m, r, p);
    }
  }

  function Subject(a: Action): Id {
    match a
    case Check(r, _) => r
    case GiveUp(r) => r
    case Reject(r) => r
    case Count(r) => r
    case Sign(r, _) => r
    case Burn(r, _) => r
    case _ => 0
  }

  function NextPhase(w: World, a: Action): Phase {
    match a
    case Check(_, _) => Checked
    case Count(_) => Counting(LastDownload(w.row))
    case _ => ToBurn
  }

  lemma ApplyKeepsGood(w: World, a: Action, base: nat, k: nat)
    requires Good(w, base, k) && |w.requests| <= k
    ensures Good(Apply(w, a), if Reopens(w, a) then base + k else base, k)
  {
    if OnRequest(a) {
      PhasesAddUp(w.requests);
      MoveAll(w.requests, Subject(a), NextPhase(w, a));
    } else {
      OtherKeepsGood(w, a, base, k);
    }
  }

  /** The step belongs to a download request. */
  predicate OnRequest(a: Action) {
    a.Check? || a.GiveUp? || a.Reject? || a.Count? || a.Sign? || a.Burn?
  }

  lemma OtherKeepsGood(w: World, a: Action, base: nat, k: nat)
    requires Good(w, base, k) && |w.requests| <= k && !OnRequest(a)
    ensures Good(Apply(w, a), if Reopens(w, a) then base + k else base, k)
  {
    PhasesAddUp(w.requests);
  }

  lemma ApplyKeepsMax(w: World, a: Action)
    ensures Allowed(Apply(w, a).row) == Allowed(w.row)
  {}

  lemma {:induction false} GoodOverRuns(w: World, run: seq<Action>, base: nat, k: nat)
    requires Good(w, base, k) && AtMost(w, run, k)
    ensures Good(Run(w, run), base + k * Late(w, run), k)
    ensures |Run(w, run).requests| <= k && Allowed(Run(w, run).row) == Allowed(w.row)
    decreases |run|
  {
    if run != [] {
      var a, next := run[0], Apply(w, run[0]);
      var more := if Reopens(w, a) then base + k else base;
      ApplyKeepsGood(w, a, base, k);
      ApplyKeepsMax(w, a);
      GoodOverRuns(next, run[1..], more, k);
      if Reopens(w, a) {
        assert k * (1 + Late(next, run[1..])) == k + k * Late(next, run[1..]);
      }
    }
  }

  /**
   With at most k requests in flight at once, the links ever signed for a share exceed its limit by at most k - 1, and
   by k more for each time a late completion reopens it, whatever else marks or burns it meanwhile.
   */
  lemma LinksBounded(w: World, run: seq<Action>, k: nat)
    requires Untouched(w) && AtMost(w, run, k)
    ensures Links(Run(w, run)) <= Allowed(w.row) - 1 + k * (1 + Late(w, run))
  {
    assert forall p :: In(w.requests, p) == {};
    GoodOverRuns(w, run, 0, k);
    PhasesAddUp(Run(w, run).requests);
    assert k * (1 + Late(w, run)) == k + k * Late(w, run);
  }

  /** Without overlap of downloads, only a late completion can exceed the limit, and by one link each. */
  lemma SequentialLinksBounded(w: World, run: seq<Action>)
    requires Untouched(w) && AtMost(w, run, 1)
    ensures Links(Run(w, run)) <= Allowed(w.row) + Late(w, run)
  {
    LinksBounded(w, run, 1);
  }

  // ---------------------------------------------------------------- the bound is reached

  predicate NoFinish(run: seq<Action>) {
    forall i :: 0 <= i < |run| ==> !run[i].FinishUpload?
  }

  /** A whole download that does not overlap anything. */
  function OneDownload(r: Id, now: int): seq<Action> {
    [Check(r, now), Count(r), Sign(r, true), Burn(r, now)]
  }

  function Downloads(n: nat, now: int): seq<Action> {
    if n == 0 then [] else OneDownload(0, now) + Downloads(n - 1, now)
  }

  /** n requests pass the check before any of them is counted. */
  function Checks(n: nat, now: int): seq<Action> {
    if n == 0 then [] else Checks(n - 1, now) + [Check(n - 1, now)]
  }

  function CountAndSign(r: Id): seq<Action> {
    [Count(r), Sign(r, true)]
  }

  /** Requests 0 to n - 1 are counted and have their links signed. */
  function Signs(n: nat): seq<Action> {
    if n == 0 then [] else Signs(n - 1) + CountAndSign(n - 1)
  }

  function Burns(n: nat, now: int): seq<Action> {
    if n == 0 then [] else [Burn(n - 1, now)] + Burns(n - 1, now)
  }

  /** k requests overlap: all are checked before any is counted. */
  function Surge(k: nat, now: int): seq<Action> {
    Checks(k, now) + Signs(k)
  }

  /** Completions 0 to n - 1 pass their check. */
  function Uploads(n: nat, now: int): seq<Action> {
    if n == 0 then [] else [CheckUpload(n - 1, now)] + Uploads(n - 1, now)
  }

  /** A surge, and after it n times: the surge burns the share, a late completion reopens it, the next surge. */
  function Surges(n: nat, k: nat, now: int): seq<Action> {
    if n == 0 then Surge(k, now) else Surges(n - 1, k, now) + (Burns(k, now) + [FinishUpload(n)] + Surge(k, now))
  }

  function Ready(row: Share): World {
    World(row, map[], {}, 0, 0)
  }

  lemma {:induction false} RunConcat(w: World, a: seq<Action>, b: seq<Action>)
    ensures Run(w, a + b) == Run(Run(w, a), b)
    decreases |a|
  {
    if a == [] {
      assert a + b == b;
    } else {
      assert (a + b)[0] == a[0] && (a + b)[1..] == a[1..] + b;
      RunConcat(Apply(w, a[0]), a[1..], b);
    }
  }

  lemma {:induction false} AtMostConcat(w: World, a: seq<Action>, b: seq<Action>, k: nat)
    ensures AtMost(w, a + b, k) <==> AtMost(w, a, k) && AtMost(Run(w, a), b, k)
    decreases |a|
  {
    if a == [] {
      assert a + b == b;
    } else {
      assert (a + b)[0] == a[0] && (a + b)[1..] == a[1..] + b;
      AtMostConcat(Apply(w, a[0]), a[1..], b, k);
    }
  }

  /** One run after another. */
  lemma Then(w: World, a: seq<Action>, b: seq<Action>, k: nat)
    requires AtMost(w, a, k) && AtMost(Run(w, a), b, k)
    ensures Run(w, a + b) == Run(Run(w, a), b) && AtMost(w, a + b, k)
  {
    RunConcat(w, a, b);
    AtMostConcat(w, a, b, k);
  }

  /** Below the limit a download only counts. */
  lemma OneDownloadCounts(w: World, k: nat, now: int)
    requires w.requests == map[] && MayDownload(w.row, now) && w.row.count + 1 < w.row.max && k >= 1
    ensures Run(w, OneDownload(0, now)) == Downloaded(w, 1)
    ensures AtMost(w, OneDownload(0, now), k)
  {
    var w1 := Apply(w, Check(0, now));
    var w2 := Apply(w1, Count(0));
    var w3 := Apply(w2, Sign(0, true));
    assert w3.requests == map[];
    assert Run(w3, [Burn(0, now)]) == w3;
    assert Run(w2, [Sign(0, true), Burn(0, now)]) == w3;
    assert Run(w1, [Count(0), Sign(0, true), Burn(0, now)]) == w3;
    assert AtMost(w3, [Burn(0, now)], k);
    assert AtMost(w2, [Sign(0, true), Burn(0, now)], k);
    assert AtMost(w1, [Count(0), Sign(0, true), Burn(0, now)], k);
    assert OneDownload(0, now)[1..] == [Count(0), Sign(0, true), Burn(0, now)];
  }

  function Downloaded(w: World, n: nat): World {
    w.(row := w.row.(count := w.row.count + n), plain := w.plain + n)
  }

  lemma {:induction false} DownloadsCount(w: World, n: nat, k: nat, now: int)
    requires w.requests == map[] && MayDownload(w.row, now) && (n > 0 ==> w.row.count + n < w.row.max) && k >= 1
    ensures Run(w, Downloads(n, now)) == Downloaded(w, n) && AtMost(w, Downloads(n, now), k)
    decreases n
  {
    if n > 0 {
      OneDownloadCounts(w, k, now);
      DownloadsCount(Downloaded(w, 1), n - 1, k, now);
      Then(w, OneDownload(0, now), Downloads(n - 1, now), k);
    }
  }

  function AllChecked(n: nat): (m: map<Id, Phase>)
    ensures |m| == n && forall r: Id :: r in m <==> r < n
    ensures forall r :: r in m ==> m[r] == Checked
  {
    if n == 0 then map[] else AllChecked(n - 1)[n - 1 := Checked]
  }

  lemma {:induction false} ChecksPass(w: World, n: nat, k: nat, now: int)
    requires w.requests == map[] && MayDownload(w.row, now) && n <= k
    ensures Run(w, Checks(n, now)) == w.(requests := AllChecked(n))
    ensures AtMost(w, Checks(n, now), k)
  {
    if n > 0 {
      ChecksPass(w, n - 1, k, now);
      var mid := w.(requests := AllChecked(n - 1));
      RunConcat(w, Checks(n - 1, now), [Check(n - 1, now)]);
      AtMostConcat(w, Checks(n - 1, now), [Check(n - 1, now)], k);
      var end := Apply(mid, Check(n - 1, now));
      assert Run(end, []) == end;
    }
  }

  /** After n of m requests have been counted and signed, those n are waiting to burn. */
  function HalfSigned(n: nat, m: nat): (half: map<Id, Phase>)
    requires n <= m
    ensures |half| == m && forall r: Id :: r in half <==> r < m
    ensures forall r :: r in half ==> half[r] == if r < n then ToBurn else Checked
  {
    if n == 0 then AllChecked(m)
    else
      var before := HalfSigned(n - 1, m);
      assert before[n - 1 := ToBurn].Keys == before.Keys;
      before[n - 1 := ToBurn]
  }

  /** The world after n of m checked requests, at the limit, have been counted and signed. */
  function Signed(w: World, n: nat, m: nat): World
    requires n <= m
  {
    w.(row := w.row.(count := w.row.count + n), requests := HalfSigned(n, m), final := w.final + n)
  }

  lemma OneSigned(w: World, r: Id, k: nat)
    requires At(w, r, Checked) && |w.requests| <= k && LastDownload(w.row)
    ensures Run(w, CountAndSign(r))
      == w.(row := Counted(w.row), requests := w.requests[r := ToBurn], final := w.final + 1)
    ensures AtMost(w, CountAndSign(r), k)
  {
    var w1 := Apply(w, Count(r));
    var w2 := Apply(w1, Sign(r, true));
    assert w1.requests.Keys == w.requests.Keys && w2.requests.Keys == w.requests.Keys;
    assert |w1.requests.Keys| == |w1.requests| && |w2.requests.Keys| == |w2.requests|
      && |w.requests.Keys| == |w.requests|;
    assert w2.requests == w.requests[r := ToBurn];
    assert CountAndSign(r)[1..] == [Sign(r, true)];
    assert Run(w2, []) == w2 && Run(w1, [Sign(r, true)]) == w2;
    assert AtMost(w2, [], k) && AtMost(w1, [Sign(r, true)], k);
  }

  lemma SignStep(w: World, n: nat, m: nat, k: nat)
    requires n < m <= k && w.row.count + 1 >= w.row.max
    ensures Run(Signed(w, n, m), CountAndSign(n)) == Signed(w, n + 1, m) && AtMost(Signed(w, n, m), CountAndSign(n), k)
  {
    OneSigned(Signed(w, n, m), n, k);
    assert HalfSigned(n + 1, m) == HalfSigned(n, m)[n := ToBurn];
  }

  lemma {:induction false} SignsIssue(w: World, n: nat, m: nat, k: nat)
    requires w.requests == AllChecked(m) && n <= m <= k && w.row.count + 1 >= w.row.max
    ensures Run(w, Signs(n)) == Signed(w, n, m) && AtMost(w, Signs(n), k)
  {
    if n > 0 {
      SignsIssue(w, n - 1, m, k);
      SignStep(w, n - 1, m, k);
      Then(w, Signs(n - 1), CountAndSign(n - 1), k);
    }
  }

  function AllToBurn(n: nat): (m: map<Id, Phase>)
    ensures |m| == n && forall r: Id :: r in m <==> r < n
    ensures forall r :: r in m ==> m[r] == ToBurn
  {
    HalfSigned(n, n)
  }

  lemma {:induction false} BurnsClear(w: World, n: nat, k: nat, now: int)
    requires w.requests == AllToBurn(n) && 0 < n <= k
    ensures Run(w, Burns(n, now)) == w.(row := BurnedRow(w.row, now), requests := map[])
    ensures AtMost(w, Burns(n, now), k)
    decreases n
  {
    var next := Apply(w, Burn(n - 1, now));
    assert next.requests == AllToBurn(n - 1);
    assert Burns(n, now)[0] == Burn(n - 1, now) && Burns(n, now)[1..] == Burns(n - 1, now);
    if n > 1 {
      BurnsClear(next, n - 1, k, now);
    } else {
      assert AllToBurn(0) == map[] && Run(next, Burns(0, now)) == next && AtMost(next, Burns(0, now), k);
    }
  }

  /** k overlapping requests at the limit all get a link. */
  lemma SurgeSigns(w: World, k: nat, now: int)
    requires w.requests == map[] && MayDownload(w.row, now) && LastDownload(w.row)
    ensures Run(w, Surge(k, now))
      == w.(row := w.row.(count := w.row.count + k), requests := AllToBurn(k), final := w.final + k)
    ensures AtMost(w, Surge(k, now), k)
  {
    ChecksPass(w, k, k, now);
    SignsIssue(w.(requests := AllChecked(k)), k, k, k);
    Then(w, Checks(k, now), Signs(k), k);
  }

  lemma {:induction false} LateConcat(w: World, a: seq<Action>, b: seq<Action>)
    ensures Late(w, a + b) == Late(w, a) + Late(Run(w, a), b)
    decreases |a|
  {
    if a == [] {
      assert a + b == b;
    } else {
      assert (a + b)[0] == a[0] && (a + b)[1..] == a[1..] + b;
      LateConcat(Apply(w, a[0]), a[1..], b);
    }
  }

  lemma {:induction false} NoFinishNoneLate(w: World, run: seq<Action>)
    requires NoFinish(run)
    ensures Late(w, run) == 0
    decreases |run|
  {
    if run != [] {
      assert forall i :: 0 <= i < |run[1..]| ==> run[1..][i] == run[i + 1];
      NoFinishNoneLate(Apply(w, run[0]), run[1..]);
    }
  }

  lemma {:induction false} DownloadsNoFinish(n: nat, now: int)
    ensures NoFinish(Downloads(n, now))
  {
    if n > 0 {
      DownloadsNoFinish(n - 1, now);
    }
  }

  lemma {:induction false} SurgeNoFinish(k: nat, n: nat, now: int)
    ensures NoFinish(Checks(n, now)) && NoFinish(Signs(n)) && NoFinish(Burns(n, now)) && NoFinish(Surge(k, now))
    decreases k + n, k
  {
    if n > 0 {
      SurgeNoFinish(0, n - 1, now);
    }
    if k > 0 {
      SurgeNoFinish(0, k, now);
    }
  }

  lemma {:induction false} UploadsNoFinish(n: nat, now: int)
    ensures NoFinish(Uploads(n, now))
  {
    if n > 0 {
      UploadsNoFinish(n - 1, now);
    }
  }

  /** The row after n surges of k links each, with the last one not yet burned. */
  function Surged(row: Share, n: nat, k: nat, now: int): Share {
    if n == 0 then row.(count := row.count + k)
    else BurnedRow(Surged(row, n - 1, k, now), now).(status := Active, count := Surged(row, n - 1, k, now).count + k)
  }

  lemma {:induction false} SurgedStays(row: Share, n: nat, k: nat, now: int)
    requires MayDownload(row, now) && LastDownload(row)
    ensures MayDownload(Surged(row, n, k, now), now) && LastDownload(Surged(row, n, k, now))
  {
    if n > 0 {
      SurgedStays(row, n - 1, k, now);
    }
  }

  /** Completions n + 1 to m are still pending. */
  predicate Waiting(w: World, n: nat, m: nat) {
    forall c: Id :: n < c <= m ==> c in w.completions
  }

  /** The share is burned, reopened by completion n, and gives out k more links. */
  lemma OneMoreSurge(w: World, n: nat, m: nat, k: nat, now: int)
    requires w.requests == AllToBurn(k) && MayDownload(w.row, now) && LastDownload(w.row)
    requires k >= 1 && 0 < n <= m && Waiting(w, n - 1, m)
    ensures var run := Burns(k, now) + [FinishUpload(n)] + Surge(k, now);
            var end := Run(w, run);
            && end.row == BurnedRow(w.row, now).(status := Active, count := w.row.count + k)
            && end.requests == AllToBurn(k) && end.plain == w.plain && end.final == w.final + k && Waiting(end, n, m)
            && AtMost(w, run, k) && Late(w, run) == 1
  {
    var burns, reopen, surge := Burns(k, now), [FinishUpload(n)], Surge(k, now);
    BurnsClear(w, k, k, now);
    var burned := Run(w, burns);
    var open := Apply(burned, FinishUpload(n));
    OneStep(burned, reopen[0], k);
    SurgeSigns(open, k, now);
    Then(w, burns, reopen, k);
    Then(w, burns + reopen, surge, k);
    LateConcat(w, burns, reopen);
    LateConcat(w, burns + reopen, surge);
    SurgeNoFinish(k, k, now);
    NoFinishNoneLate(w, burns);
    NoFinishNoneLate(open, surge);
  }

  lemma {:induction false} SurgesReach(w: World, n: nat, m: nat, k: nat, now: int)
    requires w.requests == map[] && MayDownload(w.row, now) && LastDownload(w.row)
    requires k >= 1 && n <= m && Waiting(w, 0, m)
    ensures var end := Run(w, Surges(n, k, now));
            && end.row == Surged(w.row, n, k, now) && end.requests == AllToBurn(k) && Waiting(end, n, m)
            && end.plain == w.plain && end.final == w.final + k * (1 + n)
    ensures AtMost(w, Surges(n, k, now), k) && Late(w, Surges(n, k, now)) == n
  {
    if n == 0 {
      SurgeSigns(w, k, now);
      SurgeNoFinish(k, k, now);
      NoFinishNoneLate(w, Surge(k, now));
    } else {
      SurgesReach(w, n - 1, m, k, now);
      SurgedStays(w.row, n - 1, k, now);
      var before := Surges(n - 1, k, now);
      var more := Burns(k, now) + [FinishUpload(n)] + Surge(k, now);
      OneMoreSurge(Run(w, before), n, m, k, now);
      Then(w, before, more, k);
      LateConcat(w, before, more);
      assert k * (1 + n) == k * n + k;
    }
  }

  /** Nothing has happened but completions passing their check. */
  predicate OnlyWaiting(w: World, next: World) {
    && next.row == w.row && next.requests == w.requests && next.plain == w.plain && next.final == w.final
    && w.completions <= next.completions
  }

  lemma {:induction false} UploadsWait(w: World, n: nat, now: int)
    requires w.row.status == Uploading && !PastDue(w.row, now)
    ensures OnlyWaiting(w, Run(w, Uploads(n, now)))
    ensures forall c: Id :: c < n ==> c in Run(w, Uploads(n, now)).completions
    decreases n
  {
    if n > 0 {
      assert Uploads(n, now)[0] == CheckUpload(n - 1, now) && Uploads(n, now)[1..] == Uploads(n - 1, now);
      UploadsWait(Apply(w, CheckUpload(n - 1, now)), n - 1, now);
    }
  }

  lemma {:induction false} UploadsAtMost(w: World, n: nat, k: nat, now: int)
    requires |w.requests| <= k
    ensures AtMost(w, Uploads(n, now), k)
    decreases n
  {
    if n > 0 {
      assert Uploads(n, now)[0] == CheckUpload(n - 1, now) && Uploads(n, now)[1..] == Uploads(n - 1, now);
      UploadsAtMost(Apply(w, CheckUpload(n - 1, now)), n - 1, k, now);
    }
  }

  lemma OneStep(w: World, a: Action, k: nat)
    ensures Run(w, [a]) == Apply(w, a)
    ensures AtMost(w, [a], k) <==> |w.requests| <= k && |Apply(w, a).requests| <= k
    ensures Late(w, [a]) == if Reopens(w, a) then 1 else 0
  {
    var end := Apply(w, a);
    assert [a][1..] == [];
    assert Run(end, []) == end && Late(end, []) == 0 && (AtMost(end, [], k) <==> |end.requests| <= k);
  }

  /** The run that opens the share, with n completions left over. */
  function Opening(row: Share, n: nat, now: int): seq<Action> {
    if row.status == Uploading then Uploads(n + 1, now) + [FinishUpload(0)] else []
  }

  /** The share is open and untouched, with completions 1 to n left over. */
  predicate Opened(w: World, row: Share, n: nat) {
    && w.row == row.(status := Active) && w.requests == map[] && w.plain == 0 && w.final == 0
    && Waiting(w, 0, n)
  }

  lemma FinishOpens(w: World, row: Share, n: nat, k: nat)
    requires OnlyWaiting(Ready(row), w) && (forall c: Id :: c < n + 1 ==> c in w.completions) && row.status == Uploading
    ensures Opened(Run(w, [FinishUpload(0)]), row, n) && AtMost(w, [FinishUpload(0)], k)
      && Late(w, [FinishUpload(0)]) == 0
  {
    OneStep(w, FinishUpload(0), k);
  }

  lemma Joined(w: World, a: seq<Action>, b: seq<Action>, k: nat)
    requires AtMost(w, a, k) && AtMost(Run(w, a), b, k)
    ensures Run(w, a + b) == Run(Run(w, a), b) && AtMost(w, a + b, k)
      && Late(w, a + b) == Late(w, a) + Late(Run(w, a), b)
  {
    Then(w, a, b, k);
    LateConcat(w, a, b);
  }

  lemma UploadsOpen(row: Share, n: nat, k: nat, now: int)
    requires row.status == Uploading && !PastDue(row, now)
    ensures var run := Uploads(n + 1, now) + [FinishUpload(0)];
            Opened(Run(Ready(row), run), row, n) && AtMost(Ready(row), run, k) && Late(Ready(row), run) == 0
  {
    var w, uploads := Ready(row), Uploads(n + 1, now);
    UploadsWait(w, n + 1, now);
    UploadsAtMost(w, n + 1, k, now);
    UploadsNoFinish(n + 1, now);
    NoFinishNoneLate(w, uploads);
    FinishOpens(Run(w, uploads), row, n, k);
    Joined(w, uploads, [FinishUpload(0)], k);
  }

  lemma OpeningOpens(row: Share, n: nat, k: nat, now: int)
    requires !PastDue(row, now) && (row.status == Uploading || (row.status == Active && n == 0))
    ensures Opened(Run(Ready(row), Opening(row, n, now)), row, n)
    ensures AtMost(Ready(row), Opening(row, n, now), k) && Late(Ready(row), Opening(row, n, now)) == 0
  {
    if row.status == Uploading {
      UploadsOpen(row, n, k, now);
    }
  }

  /** From the opening on: downloads up to the limit, then the surges. */
  function AfterOpening(row: Share, k: nat, n: nat, now: int): seq<Action> {
    Downloads(Allowed(row) - 1, now) + Surges(n, k, now)
  }

  lemma AfterOpeningReaches(w: World, row: Share, k: nat, n: nat, now: int)
    requires Opened(w, row, n) && !PastDue(row, now) && row.count == 0 && k >= 1
    ensures var run := AfterOpening(row, k, n, now);
            AtMost(w, run, k) && Late(w, run) == n && Links(Run(w, run)) == Allowed(row) - 1 + k * (1 + n)
  {
    FillReaches(w, row, k, n, now);
    SurgesFrom(Run(w, Downloads(Allowed(row) - 1, now)), Allowed(row) - 1, n, k, now);
    Joined(w, Downloads(Allowed(row) - 1, now), Surges(n, k, now), k);
  }

  /** Nothing is left but the last download. */
  predicate Filled(w: World, links: nat, n: nat, now: int) {
    && w.requests == map[] && MayDownload(w.row, now) && LastDownload(w.row) && w.plain == links && w.final == 0
    && Waiting(w, 0, n)
  }

  lemma SurgesFrom(w: World, links: nat, n: nat, k: nat, now: int)
    requires Filled(w, links, n, now) && k >= 1
    ensures var run := Surges(n, k, now);
            AtMost(w, run, k) && Late(w, run) == n && Links(Run(w, run)) == links + k * (1 + n)
  {
    SurgesReach(w, n, n, k, now);
  }

  lemma FillReaches(w: World, row: Share, k: nat, n: nat, now: int)
    requires Opened(w, row, n) && !PastDue(row, now) && row.count == 0 && k >= 1
    ensures var run := Downloads(Allowed(row) - 1, now);
            Filled(Run(w, run), Allowed(row) - 1, n, now) && AtMost(w, run, k) && Late(w, run) == 0
  {
    DownloadsCount(w, Allowed(row) - 1, k, now);
    DownloadsNoFinish(Allowed(row) - 1, now);
    NoFinishNoneLate(w, Downloads(Allowed(row) - 1, now));
  }

  /**
   The bound of LinksBounded is exact: for every limit, every k and every number n of late completions there is a
   run with at most k requests in flight and n late completions that reaches it. A share created open has no
   completions.
   */
  lemma BoundReached(row: Share, k: nat, n: nat, now: int)
    requires !PastDue(row, now) && row.count == 0 && k >= 1
    requires row.status == Uploading || (row.status == Active && n == 0)
    ensures exists run :: AtMost(Ready(row), run, k) && Late(Ready(row), run) == n
              && Links(Run(Ready(row), run)) == Allowed(row) - 1 + k * (1 + n)
  {
    var w, opening, rest := Ready(row), Opening(row, n, now), AfterOpening(row, k, n, now);
    OpeningOpens(row, n, k, now);
    AfterOpeningReaches(Run(w, opening), row, k, n, now);
    Joined(w, opening, rest, k);
    assert Links(Run(w, opening + rest)) == Allowed(row) - 1 + k * (1 + n);
  }

  /** The runs with at most n late completions all keep to the limit plus k - 1. */
  ghost predicate KeepsLimit(row: Share, k: nat, n: nat) {
    forall run :: AtMost(Ready(row), run, k) && Late(Ready(row), run) <= n
      ==> Links(Run(Ready(row), run)) <= Allowed(row) - 1 + k
  }

  lemma Growing(k: nat, n: nat)
    requires k >= 1 && n >= 1
    ensures k * (1 + n) > k
  {
    assert k * (1 + n) == k + k * n && k * n >= n;
  }

  /** For an upload still running, late completions are exactly what breaks the limit plus k - 1. */
  lemma KeepsLimitIff(row: Share, k: nat, n: nat, now: int)
    requires row.status == Uploading && !PastDue(row, now) && row.count == 0 && k >= 1
    ensures KeepsLimit(row, k, n) <==> n == 0
  {
    if n == 0 {
      forall run | AtMost(Ready(row), run, k) && Late(Ready(row), run) <= 0
        ensures Links(Run(Ready(row), run)) <= Allowed(row) - 1 + k
      {
        LinksBounded(Ready(row), run, k);
      }
    } else {
      BoundReached(row, k, n, now);
      Growing(k, n);
    }
  }

  // ---------------------------------------------------------------- one request by itself

  /** The statements of one RequestDownload that nothing overlaps. */
  function RequestRun(row: Share, r: Id, actual: Option<nat>, signOk: bool, now: int): seq<Action> {
    [Check(r, now)]
    + (if actual.None? then [GiveUp(r)]
       else if Oversize(row, actual.value) then [Reject(r)]
       else [Count(r), Sign(r, signOk), Burn(r, now)])
  }

  lemma Three(w: World, a: Action, b: Action, c: Action, end: World)
    requires end == Apply(Apply(Apply(w, a), b), c)
    ensures Run(w, [a, b, c]) == end
  {
    var w1 := Apply(w, a);
    var w2 := Apply(w1, b);
    assert [a, b, c][1..] == [b, c] && [b, c][1..] == [c] && [c][1..] == [];
    assert Run(end, []) == end && Run(w2, [c]) == end && Run(w1, [b, c]) == end;
  }

  lemma ServedIsRun(w: World, signOk: bool, now: int, end: World)
    requires end == Apply(Apply(Apply(Apply(w, Check(0, now)), Count(0)), Sign(0, signOk)), Burn(0, now))
    ensures Run(w, [Check(0, now), Count(0), Sign(0, signOk), Burn(0, now)]) == end
  {
    var run := [Check(0, now), Count(0), Sign(0, signOk), Burn(0, now)];
    assert run[1..] == [Count(0), Sign(0, signOk), Burn(0, now)];
    Three(Apply(w, Check(0, now)), Count(0), Sign(0, signOk), Burn(0, now), end);
  }

  lemma RefusedIsRun(w: World, now: int, a: Action, end: World)
    requires end == Apply(Apply(w, Check(0, now)), a)
    ensures Run(w, [Check(0, now), a]) == end
  {
    assert [Check(0, now), a][1..] == [a] && [a][1..] == [];
    assert Run(end, []) == end && Run(Apply(w, Check(0, now)), [a]) == end;
  }

  /** The whole operation is its statements run without interruption. */
  lemma DownloadIsRun(t: Table, token: Token, actual: Option<nat>, signOk: bool, now: int)
    requires token in t
    ensures var end := Run(Ready(t[token]), RequestRun(t[token], 0, actual, signOk, now));
            Do(t, Call.Download(token, true, actual, signOk, now))[token] == end.row && end.requests == map[]
  {
    var w := Ready(t[token]);
    var w1 := Apply(w, Check(0, now));
    if actual.None? {
      RefusedIsRun(w, now, GiveUp(0), Apply(w1, GiveUp(0)));
    } else if Oversize(t[token], actual.value) {
      RefusedIsRun(w, now, Reject(0), Apply(w1, Reject(0)));
    } else {
      ServedIsRun(w, signOk, now, Apply(Apply(Apply(w1, Count(0)), Sign(0, signOk)), Burn(0, now)));
    }
  }
}
