/** When owners are notified: what one scheduler flush sends, and how far apart the notices of one invite come. */
module NoticeTimes {
  import opened Debounce

  // ---------------------------------------------------------------- one scheduler flush

  /** Uploads of the invite are waiting, and its owner was never notified or last notified more than two minutes ago. */
  predicate Waiting(s: State, i: Id, now: int) {
    i in s.pending && s.pending[i] > 0 && (i !in s.lastNotified || s.lastNotified[i] + 120 < now)
  }

  function NoticesOf(sent: seq<Notice>, i: Id): seq<nat> {
    if sent == [] then []
    else
      var last := sent[|sent| - 1];
      NoticesOf(sent[..|sent| - 1], i) + if last.invite == i then [last.count] else []
  }

  lemma FlushOne(s: State, i: Id, now: int, j: Id)
    ensures var next := FlushInvite(s, i, now);
            if i == j && Pending(s, i) > 0 then
              && j in next.pending && next.pending[j] == 0 && j in next.lastNotified && next.lastNotified[j] == now
              && NoticesOf(next.sent, j) == NoticesOf(s.sent, j) + [Pending(s, j)]
            else
              Pending(next, j) == Pending(s, j) && NoticesOf(next.sent, j) == NoticesOf(s.sent, j)
              && (j in next.lastNotified <==> j in s.lastNotified)
              && (j in s.lastNotified ==> next.lastNotified[j] == s.lastNotified[j])
  {
    if Pending(s, i) > 0 {
      assert FlushInvite(s, i, now).sent[..|s.sent|] == s.sent;
    }
  }

  /**
   A scheduler flush sends the whole counter of every listed invite that is waiting, once, and leaves none pending;
   every other invite keeps its counter and its last time, and gets no notice.
   */
  lemma {:induction false} SchedulerSends(s: State, order: seq<Id>, now: int, i: Id)
    ensures var end := Apply(s, SchedulerFlush(order, now));
            if i in order && Waiting(s, i, now) then
              && (i in end.pending ==> end.pending[i] == 0) && i in end.lastNotified && end.lastNotified[i] == now
              && NoticesOf(end.sent, i) == NoticesOf(s.sent, i) + [s.pending[i]]
            else
              && Pending(end, i) == Pending(s, i) && NoticesOf(end.sent, i) == NoticesOf(s.sent, i)
              && (i in end.lastNotified <==> i in s.lastNotified)
              && (i in s.lastNotified ==> end.lastNotified[i] == s.lastNotified[i])
    decreases |order|
  {
    if order != [] {
      var next := if Due(s, order[0], now) then FlushInvite(s, order[0], now) else s;
      assert Apply(s, SchedulerFlush(order, now)) == Apply(next, SchedulerFlush(order[1..], now));
      assert i in order <==> i == order[0] || i in order[1..];
      FlushOne(s, order[0], now, i);
      SchedulerSends(next, order[1..], now, i);
    }
  }

  // ---------------------------------------------------------------- notices along a run

  /** A notice with its time, and whether the scheduler sent it. */
  datatype Dated = Dated(notice: Notice, at: int, scheduled: bool)

  lemma {:induction false} FlushDueGrows(s: State, order: seq<Id>, now: int)
    ensures s.sent <= FlushDue(s, order, now).sent
    decreases |order|
  {
    if order != [] {
      FlushDueGrows(if Due(s, order[0], now) then FlushInvite(s, order[0], now) else s, order[1..], now);
    }
  }

  lemma SentGrows(s: State, a: Action)
    ensures s.sent <= Apply(s, a).sent
    ensures !a.Flush? && !a.SchedulerFlush? ==> Apply(s, a).sent == s.sent
  {
    if a.SchedulerFlush? {
      FlushDueGrows(s, a.order, a.now);
    }
  }

  /** The notices an action sends. */
  function Fresh(s: State, a: Action): seq<Dated> {
    SentGrows(s, a);
    var added := Apply(s, a).sent[|s.sent|..];
    if a.Flush? || a.SchedulerFlush? then
      seq(|added|, k requires 0 <= k < |added| => Dated(added[k], a.now, a.SchedulerFlush?))
    else []
  }

  /** Every notice sent during the run, in order. */
  function History(s: State, run: seq<Action>): seq<Dated>
    decreases |run|
  {
    if run == [] then [] else Fresh(s, run[0]) + History(Apply(s, run[0]), run[1..])
  }

  /** The database's clock, read by both kinds of flush, does not go back. */
  predicate Clocked(run: seq<Action>, from: int) {
    run == []
    || (if run[0].Flush? || run[0].SchedulerFlush? then from <= run[0].now && Clocked(run[1..], run[0].now)
        else Clocked(run[1..], from))
  }

  predicate NotifiedBy(s: State, latest: int) {
    forall i :: i in s.lastNotified ==> s.lastNotified[i] <= latest
  }

  /** The notices a state has gained: of different invites, each positive, waiting if `due`, and each dated `now`. */
  ghost predicate Gained(s: State, next: State, now: int, due: bool) {
    && s.sent <= next.sent
    && (forall k :: |s.sent| <= k < |next.sent| ==>
          var i := next.sent[k].invite;
          && i in next.lastNotified && next.lastNotified[i] == now && Pending(next, i) == 0
          && (due ==> Waiting(s, i, now)))
    && (forall j, k :: |s.sent| <= j < k < |next.sent| ==> next.sent[j].invite != next.sent[k].invite)
    && (forall i :: i in s.lastNotified ==>
          i in next.lastNotified && (next.lastNotified[i] == s.lastNotified[i] || next.lastNotified[i] == now))
    && (forall i :: i in next.lastNotified && i !in s.lastNotified ==> next.lastNotified[i] == now)
    && (forall i: Id :: Pending(s, i) == 0 ==> Pending(next, i) == 0)
  }

  lemma OneGained(s: State, i: Id, now: int, due: bool)
    requires due ==> Due(s, i, now)
    ensures Gained(s, FlushInvite(s, i, now), now, due)
  {}

  /** One flush more. */
  lemma GainedMore(s: State, mid: State, next: State, now: int)
    requires Gained(s, mid, now, true) && Gained(mid, next, now, true)
    ensures Gained(s, next, now, true)
  {
    forall k | |s.sent| <= k < |next.sent|
      ensures var i := next.sent[k].invite;
              i in next.lastNotified && next.lastNotified[i] == now && Pending(next, i) == 0 && Waiting(s, i, now)
    {
      var i := next.sent[k].invite;
      if k < |mid.sent| {
        assert mid.sent[k] == next.sent[k];
      } else {
        assert Waiting(mid, i, now);
        assert Pending(s, i) == 0 ==> Pending(mid, i) == 0;
      }
    }
    forall j, k | |s.sent| <= j < k < |next.sent| ensures next.sent[j].invite != next.sent[k].invite {
      if j < |mid.sent| <= k {
        assert mid.sent[j] == next.sent[j];
        assert Waiting(mid, next.sent[k].invite, now) && Pending(mid, next.sent[j].invite) == 0;
      }
    }
  }

  lemma {:induction false} AllGained(s: State, order: seq<Id>, now: int)
    ensures Gained(s, FlushDue(s, order, now), now, true)
    decreases |order|
  {
    if order != [] {
      var mid := if Due(s, order[0], now) then FlushInvite(s, order[0], now) else s;
      OneGained(s, order[0], now, Due(s, order[0], now));
      AllGained(mid, order[1..], now);
      GainedMore(s, mid, FlushDue(mid, order[1..], now), now);
    }
  }

  lemma SameGained(s: State, mid: State, next: State, now: int)
    requires Gained(s, mid, now, false)
    requires next.sent == mid.sent && next.pending == mid.pending && next.lastNotified == mid.lastNotified
    ensures Gained(s, next, now, false)
  {
    forall k | |s.sent| <= k < |next.sent|
      ensures next.sent[k].invite in next.lastNotified && next.lastNotified[next.sent[k].invite] == now
              && Pending(next, next.sent[k].invite) == 0
    {
      assert mid.sent[k] == next.sent[k];
    }
    forall i: Id | Pending(s, i) == 0 ensures Pending(next, i) == 0 {
      assert Pending(mid, i) == 0;
    }
  }

  lemma CallbackGains(s: State, t: Id, now: int)
    ensures Gained(s, Apply(s, Flush(t, now)), now, false)
  {
    if t in s.timers && s.timers[t].phase == Cleared {
      var i := s.timers[t].invite;
      OneGained(s, i, now, false);
      SameGained(s, FlushInvite(s, i, now), Apply(s, Flush(t, now)), now);
    }
  }

  lemma StepGains(s: State, a: Action)
    requires a.Flush? || a.SchedulerFlush?
    ensures Gained(s, Apply(s, a), a.now, a.SchedulerFlush?)
  {
    match a
    case Flush(t, now) => CallbackGains(s, t, now);
    case SchedulerFlush(order, now) => AllGained(s, order, now);
  }

  lemma SameTimes(s: State, a: Action)
    requires !a.Flush? && !a.SchedulerFlush?
    ensures Apply(s, a).lastNotified == s.lastNotified && Fresh(s, a) == []
  {}

  /** The notices of the first action, and where those of the rest stand. */
  lemma Split(s: State, run: seq<Action>, k: nat)
    requires run != [] && k < |History(s, run)|
    ensures var n := |Fresh(s, run[0])|;
            if k < n then History(s, run)[k] == Fresh(s, run[0])[k]
            else k - n < |History(Apply(s, run[0]), run[1..])|
                 && History(s, run)[k] == History(Apply(s, run[0]), run[1..])[k - n]
  {}

  /** The k-th of the notices just sent. */
  lemma FreshIs(s: State, a: Action, k: nat)
    requires k < |Fresh(s, a)|
    ensures |s.sent| + k < |Apply(s, a).sent|
            && (a.Flush? || a.SchedulerFlush?)
            && Fresh(s, a)[k] == Dated(Apply(s, a).sent[|s.sent| + k], a.now, a.SchedulerFlush?)
  {
    SentGrows(s, a);
  }

  lemma FirstAfterLast(s: State, a: Action, k: nat)
    requires (a.Flush? || a.SchedulerFlush?) && k < |Fresh(s, a)|
    ensures var h := Fresh(s, a)[k];
            h.scheduled && h.notice.invite in s.lastNotified ==> s.lastNotified[h.notice.invite] + 120 < h.at
  {
    StepGains(s, a);
    FreshIs(s, a, k);
  }

  lemma NotifiedNow(s: State, next: State, now: int, due: bool, latest: int)
    requires Gained(s, next, now, due) && NotifiedBy(s, latest) && latest <= now
    ensures NotifiedBy(next, now)
    ensures forall i :: i in s.lastNotified ==> i in next.lastNotified && next.lastNotified[i] >= s.lastNotified[i]
  {}

  /** The k-th notice comes more than two minutes after the last one before the run. */
  lemma {:induction false} AfterLast(s: State, run: seq<Action>, latest: int, k: nat)
    requires Clocked(run, latest) && NotifiedBy(s, latest) && k < |History(s, run)|
    ensures var h := History(s, run)[k];
            h.scheduled && h.notice.invite in s.lastNotified ==> s.lastNotified[h.notice.invite] + 120 < h.at
    decreases |run|
  {
    var a, n := run[0], |Fresh(s, run[0])|;
    Split(s, run, k);
    if a.Flush? || a.SchedulerFlush? {
      if k < n {
        FirstAfterLast(s, a, k);
      } else {
        StepGains(s, a);
        NotifiedNow(s, Apply(s, a), a.now, a.SchedulerFlush?, latest);
        AfterLast(Apply(s, a), run[1..], a.now, k - n);
      }
    } else {
      SameTimes(s, a);
      AfterLast(Apply(s, a), run[1..], latest, k);
    }
  }

  /** Two notices of one flush go to different invites. */
  lemma FreshDiffer(s: State, a: Action, j: nat, k: nat)
    requires (a.Flush? || a.SchedulerFlush?) && j < k < |Fresh(s, a)|
    ensures Fresh(s, a)[j].notice.invite != Fresh(s, a)[k].notice.invite
  {
    StepGains(s, a);
    FreshIs(s, a, j);
    FreshIs(s, a, k);
  }

  /** A notice just sent has the time the table now keeps. */
  lemma FreshKept(s: State, a: Action, j: nat)
    requires (a.Flush? || a.SchedulerFlush?) && j < |Fresh(s, a)|
    ensures var h := Fresh(s, a)[j];
            h.notice.invite in Apply(s, a).lastNotified && Apply(s, a).lastNotified[h.notice.invite] == h.at
  {
    StepGains(s, a);
    FreshIs(s, a, j);
  }

  /** A notice the scheduler sends comes more than two minutes after every earlier notice of its invite. */
  predicate Spaced(all: seq<Dated>) {
    forall j, k :: 0 <= j < k < |all| && all[k].scheduled && all[k].notice.invite == all[j].notice.invite ==>
      all[j].at + 120 < all[k].at
  }

  predicate SpacedAcross(first: seq<Dated>, rest: seq<Dated>) {
    forall j, k :: 0 <= j < |first| && 0 <= k < |rest| && rest[k].scheduled
      && rest[k].notice.invite == first[j].notice.invite
      ==> first[j].at + 120 < rest[k].at
  }

  lemma SpacedConcat(first: seq<Dated>, rest: seq<Dated>)
    requires Spaced(first) && Spaced(rest) && SpacedAcross(first, rest)
    ensures Spaced(first + rest)
  {}

  lemma FreshSpaced(s: State, a: Action)
    requires a.Flush? || a.SchedulerFlush?
    ensures Spaced(Fresh(s, a))
  {
    forall j, k | 0 <= j < k < |Fresh(s, a)|
      ensures Fresh(s, a)[j].notice.invite != Fresh(s, a)[k].notice.invite
    {
      FreshDiffer(s, a, j, k);
    }
  }

  lemma AcrossSpaced(s: State, a: Action, rest: seq<Action>)
    requires (a.Flush? || a.SchedulerFlush?) && Clocked(rest, a.now) && NotifiedBy(Apply(s, a), a.now)
    ensures SpacedAcross(Fresh(s, a), History(Apply(s, a), rest))
  {
    var next := Apply(s, a);
    var later := History(next, rest);
    forall j | 0 <= j < |Fresh(s, a)|
      ensures var h := Fresh(s, a)[j];
              h.notice.invite in next.lastNotified && next.lastNotified[h.notice.invite] == h.at
    {
      FreshKept(s, a, j);
    }
    forall k | 0 <= k < |later|
      ensures var g := later[k];
              g.scheduled && g.notice.invite in next.lastNotified ==> next.lastNotified[g.notice.invite] + 120 < g.at
    {
      AfterLast(next, rest, a.now, k);
    }
  }

  /**
   However completions, timers, callbacks and scheduler flushes interleave: a notice the scheduler sends for an invite
   comes more than two minutes after every earlier notice of that invite.
   */
  lemma {:induction false} NoticesSpaced(s: State, run: seq<Action>, latest: int)
    requires Clocked(run, latest) && NotifiedBy(s, latest)
    ensures Spaced(History(s, run))
    decreases |run|
  {
    if run != [] {
      var a := run[0];
      var next := Apply(s, a);
      if a.Flush? || a.SchedulerFlush? {
        StepGains(s, a);
        NotifiedNow(s, next, a.now, a.SchedulerFlush?, latest);
        FreshSpaced(s, a);
        AcrossSpaced(s, a, run[1..]);
        NoticesSpaced(next, run[1..], a.now);
      } else {
        SameTimes(s, a);
        NoticesSpaced(next, run[1..], latest);
      }
      SpacedConcat(Fresh(s, a), History(next, run[1..]));
    }
  }

  lemma FreshSize(s: State, a: Action)
    ensures |Apply(s, a).sent| == |s.sent| + |Fresh(s, a)|
  {
    SentGrows(s, a);
  }

  /** The k-th notice of the history is the k-th notice the run adds to those sent. */
  lemma {:induction false} SentIsHistory(s: State, run: seq<Action>, k: nat)
    requires k < |History(s, run)|
    ensures |s.sent| + k < |Run(s, run).sent| && History(s, run)[k].notice == Run(s, run).sent[|s.sent| + k]
    decreases |run|
  {
    var n, next := |Fresh(s, run[0])|, Apply(s, run[0]);
    Split(s, run, k);
    FreshSize(s, run[0]);
    RunGrows(next, run[1..]);
    if k < n {
      FreshIs(s, run[0], k);
      assert next.sent[|s.sent| + k] == Run(s, run).sent[|s.sent| + k];
    } else {
      SentIsHistory(next, run[1..], k - n);
    }
  }

  lemma {:induction false} RunGrows(s: State, run: seq<Action>)
    ensures s.sent <= Run(s, run).sent
    decreases |run|
  {
    if run != [] {
      SentGrows(s, run[0]);
      RunGrows(Apply(s, run[0]), run[1..]);
    }
  }

  /** From the start on, with no earlier notices to look back to. */
  lemma SentSpaced(run: seq<Action>, from: int)
    requires Clocked(run, from)
    ensures Spaced(History(START, run)) && |History(START, run)| == |Run(START, run).sent|
    ensures forall k :: 0 <= k < |History(START, run)| ==> History(START, run)[k].notice == Run(START, run).sent[k]
  {
    NoticesSpaced(START, run, from);
    SizeIs(START, run);
    forall k | 0 <= k < |History(START, run)|
      ensures History(START, run)[k].notice == Run(START, run).sent[k]
    {
      SentIsHistory(START, run, k);
    }
  }

  lemma {:induction false} SizeIs(s: State, run: seq<Action>)
    ensures |Run(s, run).sent| == |s.sent| + |History(s, run)|
    decreases |run|
  {
    if run != [] {
      FreshSize(s, run[0]);
      SizeIs(Apply(s, run[0]), run[1..]);
    }
  }

  // ---------------------------------------------------------------- how many uploads there were

  /** Completions of invite i counted during the run. */
  function Uploads(s: State, run: seq<Action>, i: Id): nat
    decreases |run|
  {
    if run == [] then 0
    else
      (if run[0].Increment? && run[0].invite == i && run[0].completion !in s.counted then 1 else 0)
      + Uploads(Apply(s, run[0]), run[1..], i)
  }

  lemma {:induction false} FlushDueCounts(s: State, order: seq<Id>, now: int)
    ensures FlushDue(s, order, now).increments == s.increments
    decreases |order|
  {
    if order != [] {
      FlushDueCounts(if Due(s, order[0], now) then FlushInvite(s, order[0], now) else s, order[1..], now);
    }
  }

  lemma IncrementsStep(s: State, a: Action, i: Id)
    ensures Increments(Apply(s, a), i) == Increments(s, i) + Uploads(s, [a], i)
  {
    assert [a][1..] == [] && Uploads(Apply(s, a), [], i) == 0;
    if a.SchedulerFlush? {
      FlushDueCounts(s, a.order, a.now);
    }
  }

  lemma {:induction false} IncrementsAre(s: State, run: seq<Action>, i: Id)
    ensures Increments(Run(s, run), i) == Increments(s, i) + Uploads(s, run, i)
    decreases |run|
  {
    if run != [] {
      IncrementsStep(s, run[0], i);
      IncrementsAre(Apply(s, run[0]), run[1..], i);
    }
  }

  /** From the start on, the notices sent for an invite and its counter add up to its completed uploads. */
  lemma UploadsReported(run: seq<Action>, i: Id)
    ensures Sent(Run(START, run).sent, i) + Pending(Run(START, run), i) == Uploads(START, run, i)
  {
    ReportedExactlyOnce(run, i);
    IncrementsAre(START, run, i);
  }

  // ---------------------------------------------------------------- a callback that comes late

  /** What a callback does before it flushes: whoever's timer the map names for its invite is forgotten. */
  lemma ClearForgets(s: State, t: Id)
    requires t in s.timers && s.timers[t].phase == Fired
    ensures Apply(s, Clear(t))
         == s.(entries := s.entries - {s.timers[t].invite}, timers := s.timers[t := s.timers[t].(phase := Cleared)])
  {}

  /** A state in which an upload has replaced timer 1, whose callback had started, by timer 2; a third is to trigger. */
  function Overtaken(): State {
    State(map[7 := 3], map[], map[7 := 2], map[1 := Timer(7, 10, Fired), 2 := Timer(7, 20, Armed)], map[3 := 7], [],
          map[7 := 3])
  }

  lemma RunFirst(s: State, a: Action, rest: seq<Action>)
    ensures Run(s, [a] + rest) == Run(Apply(s, a), rest)
  {
    assert ([a] + rest)[0] == a && ([a] + rest)[1..] == rest;
  }

  /** Two uploads and the start of a callback lead there, and a third upload that has been counted. */
  lemma OvertakenReached()
    ensures Run(START, [Increment(1, 7)] + ([Trigger(1, 1, 0)] + ([Increment(2, 7)] + ([Fire(1, 10)]
                        + ([Trigger(2, 2, 10)] + ([Increment(3, 7)] + [])))))) == Overtaken()
  {
    var s1 := State(map[7 := 1], map[], map[], map[], map[1 := 7], [], map[7 := 1]);
    var s2 := State(map[7 := 1], map[], map[7 := 1], map[1 := Timer(7, 10, Armed)], map[], [], map[7 := 1]);
    var s3 := s2.(pending := map[7 := 2], counted := map[2 := 7], increments := map[7 := 2]);
    var s4 := s3.(timers := map[1 := Timer(7, 10, Fired)]);
    var s5 := s4.(entries := map[7 := 2], timers := map[1 := Timer(7, 10, Fired), 2 := Timer(7, 20, Armed)],
                  counted := map[]);
    assert Apply(START, Increment(1, 7)) == s1;
    assert Apply(s1, Trigger(1, 1, 0)) == s2;
    assert Apply(s2, Increment(2, 7)) == s3;
    assert Apply(s3, Fire(1, 10)) == s4;
    assert Apply(s4, Trigger(2, 2, 10)) == s5;
    assert Apply(s5, Increment(3, 7)) == Overtaken();
    RunFirst(s5, Increment(3, 7), []);
    RunFirst(s4, Trigger(2, 2, 10), [Increment(3, 7)] + []);
    RunFirst(s3, Fire(1, 10), [Trigger(2, 2, 10)] + ([Increment(3, 7)] + []));
    RunFirst(s2, Increment(2, 7), [Fire(1, 10)] + ([Trigger(2, 2, 10)] + ([Increment(3, 7)] + [])));
    RunFirst(s1, Trigger(1, 1, 0), [Increment(2, 7)] + ([Fire(1, 10)]
                                                        + ([Trigger(2, 2, 10)] + ([Increment(3, 7)] + []))));
    RunFirst(START, Increment(1, 7), [Trigger(1, 1, 0)] + ([Increment(2, 7)] + ([Fire(1, 10)]
                                                           + ([Trigger(2, 2, 10)] + ([Increment(3, 7)] + [])))));
  }

  /**
   So a callback that clears the map after an upload has put in the next timer leaves that timer running beside the one
   after it: two timers of one invite are live. Only the first of them to flush reports the uploads.
   */
  lemma StaleCallbackLeavesTwo()
    ensures var end := Apply(Apply(Apply(Overtaken(), Clear(1)), Flush(1, 11)), Trigger(3, 4, 12));
            && 2 in end.timers && end.timers[2] == Timer(7, 20, Armed)
            && 4 in end.timers && end.timers[4] == Timer(7, 22, Armed)
            && end.sent == [Notice(7, 3)] && Pending(end, 7) == 0
  {
    ClearForgets(Overtaken(), 1);
  }
}
