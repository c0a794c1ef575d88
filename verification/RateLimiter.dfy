/** The fixed-window limiter for API keys. Times are in nanoseconds. */
module RateLimiter {
  const SECOND: int := 1_000_000_000
  const MINUTE: int := 60_000_000_000
  const DEFAULT_LIMIT := 60

  datatype Entry = Entry(count: int, start: int)

  datatype Answer = Answer(allowed: bool, remaining: int, retryAfter: int)

  type Entries = map<string, Entry>

  datatype Event = Ask(key: string, limit: int, now: int) | Cleanup(now: int)

  function Effective(limit: int): int {
    if limit <= 0 then DEFAULT_LIMIT else limit
  }

  /** The key has no window, or its window has ended. */
  predicate Renewed(s: Entries, key: string, now: int) {
    key !in s || now - s[key].start >= MINUTE
  }

  function WaitOf(entry: Entry, now: int): int {
    var seconds := (MINUTE - (now - entry.start)) / SECOND;
    if seconds < 1 then 1 else seconds
  }

  function Ask1(s: Entries, key: string, limit: int, now: int): Answer {
    if Renewed(s, key, now) then Answer(true, Effective(limit) - 1, 60)
    else if s[key].count >= Effective(limit) then Answer(false, 0, WaitOf(s[key], now))
    else Answer(true, Effective(limit) - (s[key].count + 1), WaitOf(s[key], now))
  }

  function Step(s: Entries, e: Event): Entries {
    match e
    case Ask(key, limit, now) =>
      if Renewed(s, key, now) then s[key := Entry(1, now)]
      else if s[key].count >= Effective(limit) then s
      else s[key := s[key].(count := s[key].count + 1)]
    case Cleanup(now) => map k | k in s && s[k].start >= now - 2 * MINUTE :: s[k]
  }

  class APIKeyRateLimiter {
    var entries: Entries

    constructor ()
      ensures entries == map[]
    {
      entries := map[];
    }

    method Allow(key: string, limit: int, now: int) returns (allowed: bool, remaining: int, retryAfter: int)
      requires key in entries ==> entries[key].start <= now
      modifies this
      ensures entries == Step(old(entries), Ask(key, limit, now))
      ensures Answer(allowed, remaining, retryAfter) == Ask1(old(entries), key, limit, now)
    {
      var perMinute := limit;
      if perMinute <= 0 {
        perMinute := DEFAULT_LIMIT;
      }
      if key !in entries || now - entries[key].start >= MINUTE {
        entries := entries[key := Entry(1, now)];
        return true, perMinute - 1, MINUTE / SECOND;
      }
      retryAfter := (MINUTE - (now - entries[key].start)) / SECOND;
      if retryAfter < 1 {
        retryAfter := 1;
      }
      if entries[key].count >= perMinute {
        return false, 0, retryAfter;
      }
      entries := entries[key := entries[key].(count := entries[key].count + 1)];
      return true, perMinute - entries[key].count, retryAfter;
    }

    method Cleanup(now: int)
      modifies this
      ensures entries == Step(old(entries), Event.Cleanup(now))
    {
      var left := entries.Keys;
      while left != {}
        invariant left <= old(entries).Keys
        invariant entries == map k | k in old(entries) && (k in left || old(entries)[k].start >= now - 2 * MINUTE) ::
          old(entries)[k]
        decreases |left|
      {
        var k :| k in left;
        if entries[k].start < now - 2 * MINUTE {
          entries := entries - {k};
        }
        left := left - {k};
      }
    }
  }

  /**
   One request, in a limit of 60 when none is set: admitted in a window that began a minute ago or more, which it
   replaces, or in one with fewer than the limit; told what is then left, and to wait the whole seconds to the end.
   */
  lemma AskOutcome(s: Entries, key: string, limit: int, now: int)
    requires key in s ==> s[key].start <= now
    ensures var l := if limit <= 0 then 60 else limit;
            var anew := key !in s || s[key].start + 60_000_000_000 <= now;
            var a, next := Ask1(s, key, limit, now), Step(s, Ask(key, limit, now));
            && (a.allowed <==> anew || s[key].count < l)
            && (anew ==> next == s[key := Entry(1, now)] && a.remaining == l - 1 && a.retryAfter == 60)
            && (!anew && a.allowed ==>
                  next == s[key := Entry(s[key].count + 1, s[key].start)] && a.remaining == l - s[key].count - 1)
            && (!a.allowed ==> next == s && a.remaining == 0)
            && (!anew ==>
                  var left := s[key].start + 60_000_000_000 - now;
                  if left < 1_000_000_000 then a.retryAfter == 1
                  else a.retryAfter * 1_000_000_000 <= left < (a.retryAfter + 1) * 1_000_000_000)
  {}

  /** A cleanup drops the windows that began more than two minutes ago. */
  lemma CleanupOutcome(s: Entries, now: int)
    ensures var next := Step(s, Event.Cleanup(now));
            forall k :: && (k in next <==> k in s && s[k].start + 120_000_000_000 >= now)
                        && (k in next ==> next[k] == s[k])
  {}

  // ---------------------------------------------------------------- runs

  /** Time never goes back; the first event is not before `from`. */
  predicate Ordered(run: seq<Event>, from: int) {
    run == [] || (from <= run[0].now && Ordered(run[1..], run[0].now))
  }

  function After(s: Entries, run: seq<Event>): Entries
    decreases |run|
  {
    if run == [] then s else After(Step(s, run[0]), run[1..])
  }

  function Answers(s: Entries, run: seq<Event>): seq<Answer>
    decreases |run|
  {
    if run == [] then []
    else
      var first := if run[0].Ask? then [Ask1(s, run[0].key, run[0].limit, run[0].now)] else [];
      first + Answers(Step(s, run[0]), run[1..])
  }

  function WithoutCleanups(run: seq<Event>): seq<Event> {
    if run == [] then [] else (if run[0].Ask? then [run[0]] else []) + WithoutCleanups(run[1..])
  }

  /** What a cleanup has removed from t to get s would be renewed at `now` anyway. */
  predicate Trimmed(s: Entries, t: Entries, now: int) {
    && (forall k :: k in s ==> k in t && t[k] == s[k])
    && (forall k :: k in t && k !in s ==> now - t[k].start >= MINUTE)
  }

  lemma {:induction false} TrimmedAnswers(s: Entries, t: Entries, run: seq<Event>, from: int)
    requires Trimmed(s, t, from) && Ordered(run, from)
    ensures Answers(s, run) == Answers(t, WithoutCleanups(run))
    decreases |run|
  {
    if run != [] {
      var e := run[0];
      var rest := WithoutCleanups(run[1..]);
      if e.Ask? {
        assert WithoutCleanups(run)[0] == e && WithoutCleanups(run)[1..] == rest;
        assert Renewed(s, e.key, e.now) <==> Renewed(t, e.key, e.now);
        assert Trimmed(Step(s, e), Step(t, e), e.now);
        TrimmedAnswers(Step(s, e), Step(t, e), run[1..], e.now);
      } else {
        assert Trimmed(Step(s, e), t, e.now);
        assert WithoutCleanups(run) == rest && Answers(s, run) == Answers(Step(s, e), run[1..]);
        TrimmedAnswers(Step(s, e), t, run[1..], e.now);
      }
    }
  }

  /** A limiter that cleans up, at whatever times, gives the answers of one that never does. */
  lemma CleanupInvisible(run: seq<Event>, from: int)
    requires Ordered(run, from)
    ensures Answers(map[], run) == Answers(map[], WithoutCleanups(run))
  {
    TrimmedAnswers(map[], map[], run, from);
  }

  // ---------------------------------------------------------------- how many are admitted

  predicate FixedLimit(run: seq<Event>, key: string, limit: int) {
    forall i :: 0 <= i < |run| && run[i].Ask? && run[i].key == key ==> run[i].limit == limit
  }

  /** The event is an admitted request of `key` at a time in [from, until). */
  predicate Admits(s: Entries, e: Event, key: string, from: int, until: int) {
    e.Ask? && e.key == key && from <= e.now < until && Ask1(s, key, e.limit, e.now).allowed
  }

  function Admitted(s: Entries, run: seq<Event>, key: string, from: int, until: int): nat
    decreases |run|
  {
    if run == [] then 0
    else (if Admits(s, run[0], key, from, until) then 1 else 0) + Admitted(Step(s, run[0]), run[1..], key, from, until)
  }

  /** How many windows can start in [from, until) when none starts before `first`, with `first` in the interval. */
  function Starts(first: int, until: int): nat {
    if first >= until then 0 else (until - first + MINUTE - 1) / MINUTE
  }

  /** A bound on the requests admitted in windows that start at `first` or later. */
  function Later(first: int, from: int, minutes: nat, limit: int): int {
    if first < from then minutes * limit + limit - 1 else Starts(first, from + minutes * MINUTE) * limit
  }

  /** The window [start, start + MINUTE) meets [from, until). */
  predicate Meets(start: int, from: int, until: int) {
    start + MINUTE > from && start < until
  }

  /** A bound on the requests of `key` still to be admitted in the interval, from time `now` on. */
  function Budget(s: Entries, key: string, now: int, from: int, minutes: nat, limit: int): int {
    if key !in s then Later(now, from, minutes, limit)
    else
      (if Meets(s[key].start, from, from + minutes * MINUTE) then limit - s[key].count else 0)
      + Later(s[key].start + MINUTE, from, minutes, limit)
  }

  lemma StartsNext(first: int, until: int)
    requires first < until
    ensures Starts(first, until) == Starts(first + MINUTE, until) + 1
  {}

  lemma StartsWithin(first: int, from: int, minutes: nat)
    requires from <= first
    ensures Starts(first, from + minutes * MINUTE) <= minutes
  {}

  lemma Scale(a: int, b: int, limit: int)
    requires a <= b && limit >= 0
    ensures a * limit <= b * limit
  {}

  lemma LaterAntitone(a: int, b: int, from: int, minutes: nat, limit: int)
    requires a <= b && limit >= 1
    ensures 0 <= Later(b, from, minutes, limit) <= Later(a, from, minutes, limit) <= minutes * limit + limit - 1
  {
    var until := from + minutes * MINUTE;
    if a >= from {
      Scale(Starts(b, until), Starts(a, until), limit);
      StartsWithin(a, from, minutes);
      Scale(Starts(a, until), minutes, limit);
      Scale(0, Starts(b, until), limit);
    } else if b >= from {
      StartsWithin(b, from, minutes);
      Scale(Starts(b, until), minutes, limit);
      Scale(0, Starts(b, until), limit);
    } else {
      Scale(0, minutes, limit);
    }
  }

  /** Opening a window at `now` spends no more than the windows from `now` on were given. */
  lemma OpenWithinLater(now: int, from: int, minutes: nat, limit: int)
    requires limit >= 1
    ensures var until := from + minutes * MINUTE;
            (if from <= now < until then 1 else 0) + (if Meets(now, from, until) then limit - 1 else 0)
            + Later(now + MINUTE, from, minutes, limit) <= Later(now, from, minutes, limit)
  {
    var until := from + minutes * MINUTE;
    if from <= now < until {
      StartsNext(now, until);
      assert Starts(now, until) * limit == Starts(now + MINUTE, until) * limit + limit;
    } else if now >= until {
      LaterAntitone(now, now + MINUTE, from, minutes, limit);
    } else if now + MINUTE >= from {
      StartsWithin(now + MINUTE, from, minutes);
      Scale(Starts(now + MINUTE, until), minutes, limit);
    }
  }

  predicate Counted(s: Entries, key: string, limit: int, now: int) {
    key in s ==> 1 <= s[key].count <= limit && s[key].start <= now
  }

  lemma StepWithinBudget(s: Entries, e: Event, key: string, limit: int, now: int, from: int, minutes: nat)
    requires limit >= 1 && Counted(s, key, limit, now) && now <= e.now
    requires e.Ask? && e.key == key ==> Effective(e.limit) == limit
    ensures Counted(Step(s, e), key, limit, e.now)
    ensures (if Admits(s, e, key, from, from + minutes * MINUTE) then 1 else 0)
      + Budget(Step(s, e), key, e.now, from, minutes, limit)
            <= Budget(s, key, now, from, minutes, limit)
  {
    if e.Cleanup? {
      if key in s && key !in Step(s, e) {
        LaterAntitone(s[key].start + MINUTE, e.now, from, minutes, limit);
      } else {
        LaterAntitone(now, e.now, from, minutes, limit);
      }
    } else if e.key != key {
      LaterAntitone(now, e.now, from, minutes, limit);
    } else if Renewed(s, key, e.now) {
      OpenWithinLater(e.now, from, minutes, limit);
      LaterAntitone(if key in s then s[key].start + MINUTE else now, e.now, from, minutes, limit);
    }
  }

  lemma {:induction false} AdmittedWithinBudget(s: Entries, run: seq<Event>, key: string, limit: int, now: int,
                                               from: int, minutes: nat)
    requires Counted(s, key, Effective(limit), now) && Ordered(run, now) && FixedLimit(run, key, limit)
    ensures Admitted(s, run, key, from, from + minutes * MINUTE) <= Budget(s, key, now, from, minutes, Effective(limit))
    decreases |run|
  {
    if run == [] {
      if key in s {
        LaterAntitone(s[key].start + MINUTE, s[key].start + MINUTE, from, minutes, Effective(limit));
      } else {
        LaterAntitone(now, now, from, minutes, Effective(limit));
      }
    } else {
      StepWithinBudget(s, run[0], key, Effective(limit), now, from, minutes);
      assert forall i :: 0 <= i < |run[1..]| ==> run[1..][i] == run[i + 1];
      AdmittedWithinBudget(Step(s, run[0]), run[1..], key, limit, run[0].now, from, minutes);
    }
  }

  /**
   Any half-open interval of m minutes, wherever it begins, admits at most (m + 1) * L - 1 requests of a key whose
   limit is L,
   with cleanups at any times.
   */
  lemma SlidingBound(run: seq<Event>, key: string, limit: int, start: int, from: int, minutes: nat)
    requires Ordered(run, start) && FixedLimit(run, key, limit)
    ensures Admitted(map[], run, key, from, from + minutes * MINUTE) <= (minutes + 1) * Effective(limit) - 1
  {
    AdmittedWithinBudget(map[], run, key, limit, start, from, minutes);
    LaterAntitone(start, start, from, minutes, Effective(limit));
    assert (minutes + 1) * Effective(limit) == minutes * Effective(limit) + Effective(limit);
  }

  // ---------------------------------------------------------------- refusals

  /** What the window of `key` in s contributes to the window that starts at `start`. */
  function Share(s: Entries, key: string, start: int): int {
    if key in s && s[key].start == start then s[key].count else 0
  }

  /** After a run the window of a key is the old one or began later, and its count is what was admitted in it. */
  lemma {:induction false} WindowExact(s: Entries, run: seq<Event>, key: string, limit: int, now: int)
    requires Counted(s, key, Effective(limit), now) && Ordered(run, now) && FixedLimit(run, key, limit)
    ensures var end := After(s, run);
            key in end ==>
              var start := end[key].start;
              && ((key in s && start == s[key].start)
                || (now <= start && (key in s ==> s[key].start + MINUTE <= start)))
              && end[key].count == Admitted(s, run, key, start, start + MINUTE) + Share(s, key, start)
              && 1 <= end[key].count <= Effective(limit)
    decreases |run|
  {
    if run != [] {
      var next := Step(s, run[0]);
      StepWithinBudget(s, run[0], key, Effective(limit), now, 0, 0);
      assert forall i :: 0 <= i < |run[1..]| ==> run[1..][i] == run[i + 1];
      WindowExact(next, run[1..], key, limit, run[0].now);
    }
  }

  /** What an admitted client is told is left is the limit less what the running window has admitted, this one too. */
  lemma RemainingExact(run: seq<Event>, key: string, limit: int, first: int, now: int)
    requires Ordered(run + [Ask(key, limit, now)], first) && FixedLimit(run, key, limit)
    requires Ask1(After(map[], run), key, limit, now).allowed
    ensures var whole := run + [Ask(key, limit, now)];
            && key in After(map[], whole)
            && var start := After(map[], whole)[key].start;
               && now - 60_000_000_000 < start <= now
               && Ask1(After(map[], run), key, limit, now).remaining
                  == Effective(limit) - Admitted(map[], whole, key, start, start + 60_000_000_000)
  {
    var e := Ask(key, limit, now);
    var whole, before := run + [e], After(map[], run);
    AdmittedConcat(map[], run, [e], key, 0, 0);
    assert [e][1..] == [] && After(Step(before, e), []) == Step(before, e);
    OrderedPrefix(run, e, first);
    StartsBy(map[], run, key, first, now);
    assert forall i :: 0 <= i < |whole| && whole[i].Ask? && whole[i].key == key ==> whole[i].limit == limit;
    WindowExact(map[], whole, key, limit, first);
    AskOutcome(before, key, limit, now);
  }

  /** The window that begins at `start` admitted exactly L requests of the run. */
  predicate FullFrom(run: seq<Event>, key: string, limit: int, start: int) {
    Admitted(map[], run, key, start, start + MINUTE) == Effective(limit)
  }

  /** A request is refused only if exactly L were admitted in the current window, which began less than a minute ago. */
  lemma RefusedOnlyWhenFull(run: seq<Event>, key: string, limit: int, first: int, now: int)
    requires Ordered(run + [Ask(key, limit, now)], first) && FixedLimit(run, key, limit)
    requires !Ask1(After(map[], run), key, limit, now).allowed
    ensures exists start :: now - MINUTE < start <= now && FullFrom(run, key, limit, start)
  {
    OrderedPrefix(run, Ask(key, limit, now), first);
    WindowExact(map[], run, key, limit, first);
    var start := After(map[], run)[key].start;
    assert FullFrom(run, key, limit, start);
    StartsBy(map[], run, key, first, now);
  }

  lemma {:induction false} OrderedPrefix(run: seq<Event>, e: Event, first: int)
    requires Ordered(run + [e], first)
    ensures Ordered(run, first) && forall i :: 0 <= i < |run| ==> first <= run[i].now <= e.now
    ensures first <= e.now
    decreases |run|
  {
    if run != [] {
      assert (run + [e])[0] == run[0] && (run + [e])[1..] == run[1..] + [e];
      OrderedPrefix(run[1..], e, run[0].now);
      assert run == [run[0]] + run[1..];
    } else {
      assert (run + [e])[0] == e;
    }
  }

  lemma {:induction false} StartsBy(s: Entries, run: seq<Event>, key: string, first: int, now: int)
    requires forall i :: 0 <= i < |run| ==> run[i].now <= now
    requires key in s ==> s[key].start <= now
    ensures key in After(s, run) ==> After(s, run)[key].start <= now
    decreases |run|
  {
    if run != [] {
      assert forall i :: 0 <= i < |run[1..]| ==> run[1..][i] == run[i + 1];
      StartsBy(Step(s, run[0]), run[1..], key, first, now);
    }
  }

  lemma {:induction false} WiderAdmitsMore(s: Entries, run: seq<Event>, key: string,
                                         from: int, until: int, from2: int, until2: int)
    requires from2 <= from && forall i :: 0 <= i < |run| ==> run[i].now < until2
    ensures Admitted(s, run, key, from, until) <= Admitted(s, run, key, from2, until2)
    decreases |run|
  {
    if run != [] {
      assert forall i :: 0 <= i < |run[1..]| ==> run[1..][i] == run[i + 1];
      WiderAdmitsMore(Step(s, run[0]), run[1..], key, from, until, from2, until2);
    }
  }

  /** So a request is admitted whenever fewer than L were admitted in the minute up to it. */
  lemma AdmittedBelowLimit(run: seq<Event>, key: string, limit: int, first: int, now: int)
    requires Ordered(run + [Ask(key, limit, now)], first) && FixedLimit(run, key, limit)
    requires Admitted(map[], run, key, now - MINUTE + 1, now + 1) < Effective(limit)
    ensures Ask1(After(map[], run), key, limit, now).allowed
  {
    if !Ask1(After(map[], run), key, limit, now).allowed {
      RefusedOnlyWhenFull(run, key, limit, first, now);
      var start :| now - MINUTE < start <= now && FullFrom(run, key, limit, start);
      OrderedPrefix(run, Ask(key, limit, now), first);
      WiderAdmitsMore(map[], run, key, start, start + MINUTE, now - MINUTE + 1, now + 1);
    }
  }

  /**
   A refused client that waits the seconds it is told is admitted exactly when what was left of the window was a whole
   number of seconds or less than one: the wait is rounded down.
   */
  lemma WaitSufficesIff(s: Entries, key: string, limit: int, now: int)
    requires key in s && s[key].start <= now && !Ask1(s, key, limit, now).allowed
    ensures var wait := Ask1(s, key, limit, now).retryAfter;
            var left := MINUTE - (now - s[key].start);
            && 1 <= wait <= 60
            && (Ask1(s, key, limit, now + wait * SECOND).allowed <==> left < SECOND || left % SECOND == 0)
  {}

  // ---------------------------------------------------------------- the bound is reached

  function Burst(n: nat, key: string, limit: int, now: int): seq<Event> {
    if n == 0 then [] else Burst(n - 1, key, limit, now) + [Ask(key, limit, now)]
  }

  /** One request opens a window, all but it come at the end of the window, then m full windows follow at once. */
  function Tight(m: nat, key: string, limit: int): seq<Event>
    requires limit >= 1
  {
    if m == 0 then [Ask(key, limit, 0)] + Burst(limit - 1, key, limit, MINUTE - 1)
    else Tight(m - 1, key, limit) + Burst(limit, key, limit, m * MINUTE)
  }

  lemma {:induction false} BurstAdmitted(s: Entries, n: nat, key: string, limit: int, now: int, from: int, until: int)
    requires limit >= 1 && from <= now < until
    requires if Renewed(s, key, now) then n <= limit else s[key].count + n <= limit
    ensures Admitted(s, Burst(n, key, limit, now), key, from, until) == n
    ensures After(s, Burst(n, key, limit, now))
         == if n == 0 then s
            else if Renewed(s, key, now) then s[key := Entry(n, now)]
            else s[key := s[key].(count := s[key].count + n)]
  {
    if n > 0 {
      BurstAdmitted(s, n - 1, key, limit, now, from, until);
      var before := After(s, Burst(n - 1, key, limit, now));
      AdmittedConcat(s, Burst(n - 1, key, limit, now), [Ask(key, limit, now)], key, from, until);
      var e := Ask(key, limit, now);
      assert After(Step(before, e), []) == Step(before, e) && Admitted(Step(before, e), [], key, from, until) == 0;
      assert [e][1..] == [];
    }
  }

  lemma {:induction false} AdmittedConcat(s: Entries, a: seq<Event>, b: seq<Event>, key: string, from: int, until: int)
    ensures Admitted(s, a + b, key, from, until)
      == Admitted(s, a, key, from, until) + Admitted(After(s, a), b, key, from, until)
    ensures After(s, a + b) == After(After(s, a), b)
    decreases |a|
  {
    if a == [] {
      assert a + b == b;
    } else {
      assert (a + b)[0] == a[0] && (a + b)[1..] == a[1..] + b;
      AdmittedConcat(Step(s, a[0]), a[1..], b, key, from, until);
    }
  }

  predicate Upto(run: seq<Event>, until: int) {
    forall i :: 0 <= i < |run| ==> run[i].now <= until
  }

  lemma {:induction false} OrderedConcat(a: seq<Event>, b: seq<Event>, from: int, mid: int)
    requires Ordered(a, from) && Upto(a, mid) && Ordered(b, mid) && from <= mid
    ensures Ordered(a + b, from)
    decreases |a|
  {
    if a == [] {
      assert a + b == b;
    } else {
      assert (a + b)[0] == a[0] && (a + b)[1..] == a[1..] + b;
      assert Upto(a[1..], mid) by {
        assert forall i :: 0 <= i < |a[1..]| ==> a[1..][i] == a[i + 1];
      }
      OrderedConcat(a[1..], b, a[0].now, mid);
    }
  }

  lemma {:induction false} BurstOrdered(n: nat, key: string, limit: int, now: int)
    ensures var run := Burst(n, key, limit, now); Ordered(run, now) && Upto(run, now) && FixedLimit(run, key, limit)
  {
    if n > 0 {
      BurstOrdered(n - 1, key, limit, now);
      OrderedConcat(Burst(n - 1, key, limit, now), [Ask(key, limit, now)], now, now);
    }
  }

  lemma {:induction false} TightOrdered(m: nat, key: string, limit: int)
    requires limit >= 1
    ensures var run := Tight(m, key, limit);
            Ordered(run, 0) && Upto(run, if m == 0 then MINUTE - 1 else m * MINUTE) && FixedLimit(run, key, limit)
  {
    if m == 0 {
      BurstOrdered(limit - 1, key, limit, MINUTE - 1);
      assert Ordered([Ask(key, limit, 0)], 0);
      var b := Burst(limit - 1, key, limit, MINUTE - 1);
      OrderedConcat([Ask(key, limit, 0)], b, 0, 0) by {
        assert Ordered(b, 0) by {
          assert Ordered(b, MINUTE - 1);
        }
      }
    } else {
      TightOrdered(m - 1, key, limit);
      BurstOrdered(limit, key, limit, m * MINUTE);
      OrderedConcat(Tight(m - 1, key, limit), Burst(limit, key, limit, m * MINUTE), 0, m * MINUTE);
    }
  }

  lemma {:induction false} TightAdmits(m: nat, until: int, key: string, limit: int)
    requires limit >= 1 && MINUTE - 1 + m * MINUTE <= until && MINUTE - 1 < until
    ensures Admitted(map[], Tight(m, key, limit), key, MINUTE - 1, until) == (m + 1) * limit - 1
    ensures After(map[], Tight(m, key, limit)) == map[key := Entry(limit, m * MINUTE)]
  {
    if m == 0 {
      var e := Ask(key, limit, 0);
      var s := map[key := Entry(1, 0)];
      assert Step(map[], e) == s;
      BurstAdmitted(s, limit - 1, key, limit, MINUTE - 1, MINUTE - 1, until);
      assert Tight(0, key, limit)[0] == e && Tight(0, key, limit)[1..] == Burst(limit - 1, key, limit, MINUTE - 1);
    } else {
      TightAdmits(m - 1, until, key, limit);
      var s := After(map[], Tight(m - 1, key, limit));
      AdmittedConcat(map[], Tight(m - 1, key, limit), Burst(limit, key, limit, m * MINUTE), key, MINUTE - 1, until);
      BurstAdmitted(s, limit, key, limit, m * MINUTE, MINUTE - 1, until);
      assert (m + 1) * limit == m * limit + limit;
    }
  }

  /** For every limit and every number of minutes there is a run that reaches the bound. */
  lemma BoundReached(key: string, limit: int, minutes: nat)
    requires limit >= 1 && minutes >= 1
    ensures exists run :: Ordered(run, 0) && FixedLimit(run, key, limit)
              && Admitted(map[], run, key, MINUTE - 1, MINUTE - 1 + minutes * MINUTE) == (minutes + 1) * limit - 1
  {
    TightOrdered(minutes, key, limit);
    TightAdmits(minutes, MINUTE - 1 + minutes * MINUTE, key, limit);
  }
}
