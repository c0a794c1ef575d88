/**
 Batched owner notifications of an upload invite: a counter column that completions increment, and that
 both debounce timers and the scheduler read and reset. Database statements and lock sections are atomic steps.
 */
module Debounce {

  type Id = nat

  /** Armed: waiting. Fired: its callback has started. Cleared: the callback has left the lock and is about to flush. */
  datatype Phase = Armed | Stopped | Fired | Cleared | Finished

  datatype Timer = Timer(invite: Id, firesAt: int, phase: Phase)

  datatype Notice = Notice(invite: Id, count: nat)

  /** `entries` is the debounceTimers map; `counted` holds completions between their increment and their trigger. */
  datatype State = State(pending: map<Id, nat>, lastNotified: map<Id, int>, entries: map<Id, Id>,
                         timers: map<Id, Timer>, counted: map<Id, Id>, sent: seq<Notice>, increments: map<Id, nat>)

  const QUIET_PERIOD := 10
  const BATCH_WINDOW := 120

  datatype Action =
    | Increment(completion: Id, invite: Id)
    | Trigger(completion: Id, timer: Id, now: int)
    | Fire(timer: Id, now: int)
    | Clear(timer: Id)
    | Flush(timer: Id, now: int)
    | SchedulerFlush(order: seq<Id>, now: int)

  function Pending(s: State, i: Id): nat {
    if i in s.pending then s.pending[i] else 0
  }

  function Increments(s: State, i: Id): nat {
    if i in s.increments then s.increments[i] else 0
  }

  function Sent(sent: seq<Notice>, i: Id): nat {
    if sent == [] then 0
    else Sent(sent[..|sent| - 1], i) + if sent[|sent| - 1].invite == i then sent[|sent| - 1].count else 0
  }

  /** FlushPendingForInvite followed by the one batched notification, when there is something to report. */
  function FlushInvite(s: State, i: Id, now: int): State {
    if Pending(s, i) == 0 then s
    else
      s.(pending := s.pending[i := 0], lastNotified := s.lastNotified[i := now],
         sent := s.sent + [Notice(i, Pending(s, i))])
  }

  predicate Due(s: State, i: Id, now: int) {
    i !in s.lastNotified || s.lastNotified[i] < now - BATCH_WINDOW
  }

  /** FlushPendingNotifications: every due invite, in the order the database returns them. */
  function FlushDue(s: State, order: seq<Id>, now: int): State
    decreases |order|
  {
    if order == [] then s
    else FlushDue(if Due(s, order[0], now) then FlushInvite(s, order[0], now) else s, order[1..], now)
  }

  function SetPhase(s: State, t: Id, phase: Phase): State {
    if t in s.timers then s.(timers := s.timers[t := s.timers[t].(phase := phase)]) else s
  }

  /** Timer.Stop has no effect on a timer whose callback has started. */
  function Stop(s: State, t: Id): State {
    if t in s.timers && s.timers[t].phase == Armed then SetPhase(s, t, Stopped) else s
  }

  /** The critical section of TriggerDebouncedNotification. */
  function Rearm(s: State, i: Id, t: Id, now: int): State {
    var quiet := if i in s.entries then Stop(s, s.entries[i]) else s;
    quiet.(entries := quiet.entries[i := t], timers := quiet.timers[t := Timer(i, now + QUIET_PERIOD, Armed)])
  }

  function Apply(s: State, a: Action): State {
    match a
    case Increment(c, i) =>
      if c in s.counted then s
      else s.(pending := s.pending[i := Pending(s, i) + 1], increments := s.increments[i := Increments(s, i) + 1],
              counted := s.counted[c := i])
    case Trigger(c, t, now) =>
      if c in s.counted && t !in s.timers then Rearm(s, s.counted[c], t, now).(counted := s.counted - {c}) else s
    case Fire(t, now) =>
      if t in s.timers && s.timers[t].phase == Armed && s.timers[t].firesAt <= now then SetPhase(s, t, Fired) else s
    case Clear(t) =>
      if t in s.timers && s.timers[t].phase == Fired
      then SetPhase(s, t, Cleared).(entries := s.entries - {s.timers[t].invite}) else s
    case Flush(t, now) =>
      if t in s.timers && s.timers[t].phase == Cleared
      then SetPhase(FlushInvite(s, s.timers[t].invite, now), t, Finished) else s
    case SchedulerFlush(order, now) => FlushDue(s, order, now)
  }

  function Run(s: State, run: seq<Action>): State
    decreases |run|
  {
    if run == [] then s else Run(Apply(s, run[0]), run[1..])
  }

  const START := State(map[], map[], map[], map[], map[], [], map[])

  // ---------------------------------------------------------------- nothing lost, nothing counted twice

  ghost predicate Conserved(s: State) {
    forall i: Id :: Sent(s.sent, i) + Pending(s, i) == Increments(s, i)
  }

  lemma FlushConserves(s: State, i: Id, now: int)
    requires Conserved(s)
    ensures Conserved(FlushInvite(s, i, now))
  {
    if Pending(s, i) > 0 {
      var next := FlushInvite(s, i, now);
      assert next.sent[..|next.sent| - 1] == s.sent;
      forall j: Id ensures Sent(next.sent, j) + Pending(next, j) == Increments(next, j) {
        assert Sent(s.sent, j) + Pending(s, j) == Increments(s, j);
      }
    }
  }

  lemma {:induction false} FlushDueConserves(s: State, order: seq<Id>, now: int)
    requires Conserved(s)
    ensures Conserved(FlushDue(s, order, now))
    decreases |order|
  {
    if order != [] {
      FlushConserves(s, order[0], now);
      FlushDueConserves(if Due(s, order[0], now) then FlushInvite(s, order[0], now) else s, order[1..], now);
    }
  }

  lemma SameCounts(s: State, next: State)
    requires Conserved(s) && next.sent == s.sent && next.pending == s.pending && next.increments == s.increments
    ensures Conserved(next)
  {
    forall i: Id ensures Sent(next.sent, i) + Pending(next, i) == Increments(next, i) {
      assert Sent(s.sent, i) + Pending(s, i) == Increments(s, i);
    }
  }

  lemma ConservedKept(s: State, a: Action)
    requires Conserved(s)
    ensures Conserved(Apply(s, a))
  {
    match a
    case Increment(_, i) =>
      forall j: Id ensures Sent(Apply(s, a).sent, j) + Pending(Apply(s, a), j) == Increments(Apply(s, a), j) {
        assert Sent(s.sent, j) + Pending(s, j) == Increments(s, j);
      }
    case Flush(t, now) =>
      if t in s.timers && s.timers[t].phase == Cleared {
        FlushConserves(s, s.timers[t].invite, now);
        SameCounts(FlushInvite(s, s.timers[t].invite, now), Apply(s, a));
      }
    case SchedulerFlush(order, now) => FlushDueConserves(s, order, now);
    case _ => SameCounts(s, Apply(s, a));
  }

  // ---------------------------------------------------------------- a positive counter is never forgotten

  predicate Pushing(timer: Timer, i: Id) {
    timer.invite == i && (timer.phase == Armed || timer.phase == Fired || timer.phase == Cleared)
  }

  /** Somebody is still going to flush invite i: a timer, a callback, or a completion about to trigger. */
  ghost predicate Attended(s: State, i: Id) {
    (exists t :: t in s.timers && Pushing(s.timers[t], i)) || (exists c :: c in s.counted && s.counted[c] == i)
  }

  /** The timers map names timers of its own invite. */
  predicate EntriesOk(s: State) {
    forall i :: i in s.entries ==> s.entries[i] in s.timers && s.timers[s.entries[i]].invite == i
  }

  ghost predicate Watched(s: State) {
    EntriesOk(s) && forall i: Id :: Pending(s, i) > 0 ==> Attended(s, i)
  }

  lemma RearmEntries(s: State, i: Id, t: Id, now: int)
    requires EntriesOk(s)
    ensures EntriesOk(Rearm(s, i, t, now)) || t in s.timers
  {}

  lemma EntriesKept(s: State, a: Action)
    requires EntriesOk(s)
    ensures EntriesOk(Apply(s, a))
  {
    match a
    case Trigger(c, t, now) =>
      if c in s.counted {
        RearmEntries(s, s.counted[c], t, now);
      }
    case SchedulerFlush(order, now) => FlushDueWatched(s, order, now);
    case _ =>
  }

  lemma {:induction false} FlushDueWatched(s: State, order: seq<Id>, now: int)
    ensures var next := FlushDue(s, order, now);
            && next.timers == s.timers && next.counted == s.counted && next.entries == s.entries
            && forall i: Id :: Pending(next, i) > 0 ==> Pending(s, i) > 0
    decreases |order|
  {
    if order != [] {
      FlushDueWatched(if Due(s, order[0], now) then FlushInvite(s, order[0], now) else s, order[1..], now);
    }
  }

  lemma AttendedAfterTrigger(s: State, c: Id, t: Id, now: int, i: Id)
    requires EntriesOk(s) && c in s.counted && t !in s.timers && Attended(s, i)
    ensures Attended(Apply(s, Trigger(c, t, now)), i)
  {
    var next := Apply(s, Trigger(c, t, now));
    if s.counted[c] == i {
      assert t in next.timers && Pushing(next.timers[t], i);
    } else if u :| u in s.timers && Pushing(s.timers[u], i) {
      assert u in next.timers && Pushing(next.timers[u], i);
    } else {
      var d :| d in s.counted && s.counted[d] == i;
      assert d in next.counted && next.counted[d] == i;
    }
  }

  lemma AttendedAfterPhase(s: State, next: State, t: Id, phase: Phase, i: Id)
    requires t in s.timers && next.timers == s.timers[t := s.timers[t].(phase := phase)] && next.counted == s.counted
    requires phase == Fired || phase == Cleared || s.timers[t].invite != i
    requires Attended(s, i)
    ensures Attended(next, i)
  {
    if u :| u in s.timers && Pushing(s.timers[u], i) {
      assert u in next.timers && Pushing(next.timers[u], i);
    } else {
      var d :| d in s.counted && s.counted[d] == i;
      assert d in next.counted && next.counted[d] == i;
    }
  }

  lemma AttendedAfterIncrement(s: State, c: Id, j: Id, i: Id)
    requires c !in s.counted && (i == j || Attended(s, i))
    ensures Attended(Apply(s, Increment(c, j)), i)
  {
    var next := Apply(s, Increment(c, j));
    if i == j {
      assert c in next.counted && next.counted[c] == i;
    } else if u :| u in s.timers && Pushing(s.timers[u], i) {
      assert u in next.timers;
    } else {
      var d :| d in s.counted && s.counted[d] == i;
      assert d in next.counted && next.counted[d] == i;
    }
  }

  lemma WatchedKept(s: State, a: Action)
    requires Watched(s)
    ensures Watched(Apply(s, a))
  {
    EntriesKept(s, a);
    forall i: Id | Pending(Apply(s, a), i) > 0 ensures Attended(Apply(s, a), i) {
      StillAttended(s, a, i);
    }
  }

  lemma CallbackAttended(s: State, a: Action, i: Id)
    requires a.Fire? || a.Clear? || a.Flush?
    requires (Pending(s, i) > 0 ==> Attended(s, i)) && Pending(Apply(s, a), i) > 0
    ensures Attended(Apply(s, a), i)
  {
    if Apply(s, a) != s {
      match a
      case Fire(t, now) => AttendedAfterPhase(s, Apply(s, a), t, Fired, i);
      case Clear(t) => AttendedAfterPhase(s, Apply(s, a), t, Cleared, i);
      case Flush(t, now) => AttendedAfterPhase(s, Apply(s, a), t, Finished, i);
    }
  }

  lemma StillAttended(s: State, a: Action, i: Id)
    requires EntriesOk(s) && (Pending(s, i) > 0 ==> Attended(s, i)) && Pending(Apply(s, a), i) > 0
    ensures Attended(Apply(s, a), i)
  {
    match a
    case Increment(c, j) =>
      if c !in s.counted {
        AttendedAfterIncrement(s, c, j, i);
      }
    case Trigger(c, t, now) =>
      if c in s.counted && t !in s.timers {
        AttendedAfterTrigger(s, c, t, now, i);
      }
    case SchedulerFlush(order, now) => FlushDueWatched(s, order, now);
    case _ => CallbackAttended(s, a, i);
  }

  lemma {:induction false} RunKeeps(s: State, run: seq<Action>)
    requires Conserved(s) && Watched(s)
    ensures Conserved(Run(s, run)) && Watched(Run(s, run))
    decreases |run|
  {
    if run != [] {
      ConservedKept(s, run[0]);
      WatchedKept(s, run[0]);
      RunKeeps(Apply(s, run[0]), run[1..]);
    }
  }

  /**
   Every completed upload is reported exactly once. After any interleaving, the counts already sent plus the
   counter are the increments; a positive counter is attended; and once nobody attends an invite,
   all its uploads have been reported.
   */
  lemma ReportedExactlyOnce(run: seq<Action>, i: Id)
    ensures var s := Run(START, run);
            && Sent(s.sent, i) + Pending(s, i) == Increments(s, i)
            && (Pending(s, i) > 0 ==> Attended(s, i))
            && (!Attended(s, i) ==> Sent(s.sent, i) == Increments(s, i))
  {
    RunKeeps(START, run);
  }

  // ---------------------------------------------------------------- one notification for a burst

  /** The only live timer of invite i is the one the map names, and no callback of i is under way. */
  predicate Tidy(s: State, i: Id) {
    && forall t :: t in s.timers && Pushing(s.timers[t], i) ==>
      s.timers[t].phase == Armed && i in s.entries && s.entries[i] == t
  }

  /** Exactly one timer of i is live: t, named by the map, due at `deadline`. */
  predicate OneTimer(s: State, i: Id, t: Id, deadline: int) {
    && Tidy(s, i) && EntriesOk(s) && i in s.entries && s.entries[i] == t
    && t in s.timers && s.timers[t] == Timer(i, deadline, Armed)
  }

  lemma StopQuiets(s: State, i: Id)
    requires Tidy(s, i) && EntriesOk(s) && i in s.entries
    ensures var quiet := Stop(s, s.entries[i]);
            && quiet.timers.Keys == s.timers.Keys && quiet.entries == s.entries
            && (forall u :: u in s.timers ==>
              quiet.timers[u].invite == s.timers[u].invite && !Pushing(quiet.timers[u], i))
  {
    var quiet := Stop(s, s.entries[i]);
    forall u | u in s.timers ensures quiet.timers[u].invite == s.timers[u].invite && !Pushing(quiet.timers[u], i) {
      assert Pushing(s.timers[u], i) ==> u == s.entries[i];
    }
  }

  lemma RearmLeavesOne(s: State, i: Id, t: Id, now: int)
    requires Tidy(s, i) && EntriesOk(s) && t !in s.timers
    ensures var next := Rearm(s, i, t, now);
            && OneTimer(next, i, t, now + QUIET_PERIOD) && next.timers.Keys == s.timers.Keys + {t}
  {
    if i in s.entries {
      StopQuiets(s, i);
    }
    var quiet := if i in s.entries then Stop(s, s.entries[i]) else s;
    assert forall u :: u in quiet.timers ==> !Pushing(quiet.timers[u], i);
    assert forall j :: j in quiet.entries ==>
      quiet.entries[j] in quiet.timers && quiet.timers[quiet.entries[j]].invite == j;
  }

  /** One timer of i is live, due at `deadline`. */
  predicate Held(s: State, i: Id, deadline: int) {
    i in s.entries && OneTimer(s, i, s.entries[i], deadline)
  }

  /** The action triggers the timer of an upload of invite i. */
  predicate Triggers(s: State, a: Action, i: Id) {
    a.Trigger? && a.completion in s.counted && s.counted[a.completion] == i && a.timer !in s.timers
  }

  predicate Timed(a: Action) {
    !a.Increment? && !a.Clear?
  }

  function NextDeadline(s: State, a: Action, i: Id, deadline: int): int {
    if Triggers(s, a, i) then a.now + 10 else deadline
  }

  /** Ten seconds after the last upload of i in the run. */
  function Deadline(s: State, run: seq<Action>, i: Id, deadline: int): int
    decreases |run|
  {
    if run == [] then deadline else Deadline(Apply(s, run[0]), run[1..], i, NextDeadline(s, run[0], i, deadline))
  }

  /**
   A burst: nothing in the run happens later than ten seconds after the last upload of i before it. Actions of other
   invites, due timers and scheduler flushes come in between as they like.
   */
  predicate InBurst(s: State, run: seq<Action>, i: Id, deadline: int)
    decreases |run|
  {
    run == []
    || ((Timed(run[0]) ==> run[0].now < deadline)
      && InBurst(Apply(s, run[0]), run[1..], i, NextDeadline(s, run[0], i, deadline)))
  }

  /** The first upload of a burst. */
  lemma BurstStarts(s: State, c: Id, t: Id, now: int, i: Id)
    requires Tidy(s, i) && EntriesOk(s) && Triggers(s, Trigger(c, t, now), i)
    ensures Held(Apply(s, Trigger(c, t, now)), i, now + 10)
  {
    RearmLeavesOne(s, i, t, now);
  }

  /** Before the deadline no callback of i can start. */
  lemma NoEarlyCallback(s: State, i: Id, deadline: int, u: Id, now: int)
    requires Held(s, i, deadline) && now < deadline
    requires u in s.timers && s.timers[u].invite == i
    ensures Apply(s, Fire(u, now)) == s
  {
    if s.timers[u].phase == Armed {
      assert Pushing(s.timers[u], i);
    }
  }

  /** A timer of another invite changes its phase. */
  lemma OtherPhaseHeld(s: State, next: State, i: Id, deadline: int, u: Id, phase: Phase)
    requires Held(s, i, deadline) && u in s.timers && s.timers[u].invite != i
    requires next.timers == s.timers[u := s.timers[u].(phase := phase)]
    requires next.entries == s.entries || next.entries == s.entries - {s.timers[u].invite}
    ensures Held(next, i, deadline)
  {
    forall t | t in next.timers && Pushing(next.timers[t], i)
      ensures next.timers[t].phase == Armed && next.entries[i] == t
    {
      assert t != u && Pushing(s.timers[t], i);
    }
  }

  lemma OtherTriggerHeld(s: State, i: Id, deadline: int, j: Id, t: Id, now: int)
    requires Held(s, i, deadline) && i != j && t !in s.timers
    ensures Held(Rearm(s, j, t, now), i, deadline)
  {
    var next := Rearm(s, j, t, now);
    forall u | u in next.timers && Pushing(next.timers[u], i)
      ensures next.timers[u].phase == Armed && next.entries[i] == u
    {
      assert u != t && Pushing(s.timers[u], i);
    }
    forall k | k in next.entries ensures next.entries[k] in next.timers && next.timers[next.entries[k]].invite == k {
      assert k != j ==> s.entries[k] in s.timers && s.timers[s.entries[k]].invite == k;
    }
  }

  lemma SameTimersHeld(s: State, next: State, i: Id, deadline: int)
    requires Held(s, i, deadline) && next.timers == s.timers && next.entries == s.entries
    ensures Held(next, i, deadline)
  {
    forall t | t in next.timers && Pushing(next.timers[t], i)
      ensures next.timers[t].phase == Armed && next.entries[i] == t
    {
      assert Pushing(s.timers[t], i);
    }
  }

  lemma TriggerHeld(s: State, a: Action, i: Id, deadline: int)
    requires Held(s, i, deadline) && a.Trigger?
    ensures Held(Apply(s, a), i, NextDeadline(s, a, i, deadline))
  {
    if a.completion in s.counted && a.timer !in s.timers {
      var j := s.counted[a.completion];
      if j == i {
        BurstStarts(s, a.completion, a.timer, a.now, i);
      } else {
        OtherTriggerHeld(s, i, deadline, j, a.timer, a.now);
        SameTimersHeld(Rearm(s, j, a.timer, a.now), Apply(s, a), i, deadline);
      }
    }
  }

  lemma CallbackHeld(s: State, a: Action, i: Id, deadline: int)
    requires Held(s, i, deadline) && (a.Fire? || a.Clear? || a.Flush?) && (a.Fire? ==> a.now < deadline)
    ensures Held(Apply(s, a), i, deadline)
  {
    var u := a.timer;
    if u in s.timers && s.timers[u].invite == i {
      assert Pushing(s.timers[u], i) ==> s.timers[u].phase == Armed;
      if a.Fire? {
        NoEarlyCallback(s, i, deadline, u, a.now);
      }
    } else if u in s.timers && Apply(s, a) != s {
      OtherPhaseHeld(s, Apply(s, a), i, deadline, u, if a.Fire? then Fired else if a.Clear? then Cleared else Finished);
    }
  }

  /** Within the burst any action leaves one timer of i, due ten seconds after its last upload. */
  lemma StepHeld(s: State, a: Action, i: Id, deadline: int)
    requires Held(s, i, deadline) && (Timed(a) ==> a.now < deadline)
    ensures Held(Apply(s, a), i, NextDeadline(s, a, i, deadline))
  {
    match a
    case Increment(c, j) => SameTimersHeld(s, Apply(s, a), i, deadline);
    case Trigger(_, _, _) => TriggerHeld(s, a, i, deadline);
    case SchedulerFlush(order, now) =>
      FlushDueWatched(s, order, now);
      SameTimersHeld(s, Apply(s, a), i, deadline);
    case _ => CallbackHeld(s, a, i, deadline);
  }

  lemma {:induction false} BurstHeld(s: State, run: seq<Action>, i: Id, deadline: int)
    requires Held(s, i, deadline) && InBurst(s, run, i, deadline)
    ensures Held(Run(s, run), i, Deadline(s, run, i, deadline))
    decreases |run|
  {
    if run != [] {
      StepHeld(s, run[0], i, deadline);
      BurstHeld(Apply(s, run[0]), run[1..], i, NextDeadline(s, run[0], i, deadline));
    }
  }

  /** Nowhere in a burst does a callback of i start, however it is interleaved. */
  lemma {:induction false} NoCallbackInBurst(s: State, run: seq<Action>, i: Id, deadline: int, k: nat)
    requires Held(s, i, deadline) && InBurst(s, run, i, deadline) && k < |run| && run[k].Fire?
    ensures var mid := Run(s, run[..k]);
            run[k].timer in mid.timers && mid.timers[run[k].timer].invite == i ==> Apply(mid, run[k]) == mid
    decreases k
  {
    if k == 0 {
      assert run[..0] == [];
      if run[0].timer in s.timers && s.timers[run[0].timer].invite == i {
        NoEarlyCallback(s, i, deadline, run[0].timer, run[0].now);
      }
    } else {
      assert run[..k][0] == run[0] && run[..k][1..] == run[1..][..k - 1];
      StepHeld(s, run[0], i, deadline);
      NoCallbackInBurst(Apply(s, run[0]), run[1..], i, NextDeadline(s, run[0], i, deadline), k - 1);
    }
  }

  // ---------------------------------------------------------------- what a burst reports

  lemma {:induction false} FlushDueSparesOthers(s: State, order: seq<Id>, now: int, i: Id)
    requires i !in order
    ensures Sent(FlushDue(s, order, now).sent, i) == Sent(s.sent, i)
    decreases |order|
  {
    if order != [] {
      var next := if Due(s, order[0], now) then FlushInvite(s, order[0], now) else s;
      OtherInviteFlushed(s, order[0], now, i);
      FlushDueSparesOthers(next, order[1..], now, i);
    }
  }

  lemma OtherInviteFlushed(s: State, j: Id, now: int, i: Id)
    requires i != j
    ensures Sent(FlushInvite(s, j, now).sent, i) == Sent(s.sent, i)
  {
    var next := FlushInvite(s, j, now);
    if Pending(s, j) > 0 {
      assert next.sent[..|next.sent| - 1] == s.sent;
    }
  }

  /** The scheduler has no flush of i in the run. */
  predicate Unflushed(run: seq<Action>, i: Id) {
    forall k :: 0 <= k < |run| && run[k].SchedulerFlush? ==> i !in run[k].order
  }

  /** Only the scheduler can report uploads of i during a burst. */
  lemma {:induction false} BurstUnreported(s: State, run: seq<Action>, i: Id, deadline: int)
    requires Held(s, i, deadline) && InBurst(s, run, i, deadline) && Unflushed(run, i)
    ensures Sent(Run(s, run).sent, i) == Sent(s.sent, i)
    decreases |run|
  {
    if run != [] {
      var a := run[0];
      StepHeld(s, a, i, deadline);
      if a.SchedulerFlush? {
        FlushDueSparesOthers(s, a.order, a.now, i);
      } else if a.Flush? && a.timer in s.timers && s.timers[a.timer].phase == Cleared {
        OtherInviteFlushed(s, s.timers[a.timer].invite, a.now, i);
      }
      assert forall k :: 0 <= k < |run[1..]| ==> run[1..][k] == run[k + 1];
      BurstUnreported(Apply(s, a), run[1..], i, NextDeadline(s, a, i, deadline));
    }
  }

  lemma RunTwo(s: State, a: Action, b: Action)
    ensures Run(s, [a, b]) == Apply(Apply(s, a), b)
  {
    var end := Apply(Apply(s, a), b);
    assert [a, b][1..] == [b] && [b][1..] == [];
    assert Run(end, []) == end && Run(Apply(s, a), [b]) == end;
  }

  lemma {:induction false} ConservedOverRun(s: State, run: seq<Action>)
    requires Conserved(s)
    ensures Conserved(Run(s, run))
    decreases |run|
  {
    if run != [] {
      ConservedKept(s, run[0]);
      ConservedOverRun(Apply(s, run[0]), run[1..]);
    }
  }

  /** The callback of the one live timer. */
  function LiveCallback(s: State, i: Id, now: int): seq<Action>
    requires i in s.entries
  {
    [Fire(s.entries[i], now), Clear(s.entries[i]), Flush(s.entries[i], now)]
  }

  lemma CallbackNotifies(s: State, i: Id, deadline: int, now: int)
    requires Held(s, i, deadline) && deadline <= now
    ensures var end := Run(s, LiveCallback(s, i, now));
            && end.sent == s.sent + (if Pending(s, i) == 0 then [] else [Notice(i, Pending(s, i))])
            && Pending(end, i) == 0 && Increments(end, i) == Increments(s, i)
            && forall u :: u in end.timers ==> !Pushing(end.timers[u], i)
  {
    var t := s.entries[i];
    var fired := Apply(s, Fire(t, now));
    assert LiveCallback(s, i, now)[1..] == [Clear(t), Flush(t, now)];
    RunTwo(fired, Clear(t), Flush(t, now));
    var cleared := Apply(fired, Clear(t));
    assert cleared.timers == s.timers[t := s.timers[t].(phase := Cleared)];
    assert cleared.pending == s.pending && cleared.sent == s.sent;
    var end := Apply(cleared, Flush(t, now));
    assert end.timers == s.timers[t := s.timers[t].(phase := Finished)];
  }

  /**
   What the debounce is for. A burst of uploads, interleaved with anything else, leaves one live timer, due ten
   seconds after the last upload; its callback then reports everything still pending in one notice. If the scheduler
   did not flush the invite meanwhile, that notice counts the whole burst and all that was pending before it.
   */
  lemma BurstNotifiesOnce(s: State, run: seq<Action>, i: Id, deadline: int, now: int)
    requires Held(s, i, deadline) && InBurst(s, run, i, deadline) && Deadline(s, run, i, deadline) <= now
    requires Conserved(s)
    ensures Held(Run(s, run), i, Deadline(s, run, i, deadline))
    ensures var mid := Run(s, run);
            var end := Run(mid, LiveCallback(mid, i, now));
            && end.sent == mid.sent + (if Pending(mid, i) == 0 then [] else [Notice(i, Pending(mid, i))])
            && Pending(end, i) == 0 && (forall u :: u in end.timers ==> !Pushing(end.timers[u], i))
            && (Unflushed(run, i) ==> Pending(mid, i) == Pending(s, i) + Increments(mid, i) - Increments(s, i))
  {
    BurstHeld(s, run, i, deadline);
    CallbackNotifies(Run(s, run), i, Deadline(s, run, i, deadline), now);
    ConservedOverRun(s, run);
    assert Sent(s.sent, i) + Pending(s, i) == Increments(s, i);
    assert Sent(Run(s, run).sent, i) + Pending(Run(s, run), i) == Increments(Run(s, run), i);
    if Unflushed(run, i) {
      BurstUnreported(s, run, i, deadline);
    }
  }

  // ---------------------------------------------------------------- the service

  class Notifier {
    var pending: map<Id, nat>
    var lastNotified: map<Id, int>
    var debounceTimers: map<Id, Id>
    var timers: map<Id, Timer>
    var counted: map<Id, Id>
    var sent: seq<Notice>
    ghost var increments: map<Id, nat>

    ghost function Now(): State
      reads this
    {
      State(pending, lastNotified, debounceTimers, timers, counted, sent, increments)
    }

    constructor ()
      ensures Now() == START
    {
      pending, lastNotified, debounceTimers, timers := map[], map[], map[], map[];
      counted, sent, increments := map[], [], map[];
    }

    method IncrementPendingNotify(completion: Id, invite: Id)
      requires completion !in counted
      modifies this
      ensures Now() == Apply(old(Now()), Increment(completion, invite))
    {
      var count := if invite in pending then pending[invite] else 0;
      pending := pending[invite := count + 1];
      increments := increments[invite := Increments(Now(), invite) + 1];
      counted := counted[completion := invite];
    }

    method TriggerDebouncedNotification(completion: Id, timer: Id, now: int)
      requires completion in counted && timer !in timers
      modifies this
      ensures Now() == Apply(old(Now()), Trigger(completion, timer, now))
    {
      var invite := counted[completion];
      if invite in debounceTimers {
        var previous := debounceTimers[invite];
        if previous in timers && timers[previous].phase == Armed {
          timers := timers[previous := timers[previous].(phase := Stopped)];
        }
      }
      debounceTimers := debounceTimers[invite := timer];
      timers := timers[timer := Timer(invite, now + QUIET_PERIOD, Armed)];
      counted := counted - {completion};
    }

    /** The callback of a fired timer: drop the invite's map entry, whoever's it is by now, and flush. */
    method Callback(timer: Id, now: int)
      requires timer in timers && timers[timer].phase == Fired
      modifies this
      ensures Now() == Apply(Apply(old(Now()), Clear(timer)), Flush(timer, now))
    {
      var invite := timers[timer].invite;
      debounceTimers := debounceTimers - {invite};
      timers := timers[timer := timers[timer].(phase := Cleared)];
      FlushPendingForInvite(invite, now);
      timers := timers[timer := timers[timer].(phase := Finished)];
    }

    method FlushPendingForInvite(invite: Id, now: int)
      modifies this`pending, this`lastNotified, this`sent
      ensures Now() == FlushInvite(old(Now()), invite, now)
    {
      if invite in pending && pending[invite] > 0 {
        sent := sent + [Notice(invite, pending[invite])];
        pending := pending[invite := 0];
        lastNotified := lastNotified[invite := now];
      }
    }

    method FlushPendingNotifications(order: seq<Id>, now: int)
      modifies this`pending, this`lastNotified, this`sent
      ensures Now() == Apply(old(Now()), SchedulerFlush(order, now))
    {
      ghost var before := Now();
      assert order[0..] == order;
      for k := 0 to |order|
        invariant FlushDue(before, order, now) == FlushDue(Now(), order[k..], now)
        invariant timers == before.timers && counted == before.counted
        invariant debounceTimers == before.entries && increments == before.increments
      {
        assert order[k..][0] == order[k] && order[k..][1..] == order[k + 1..];
        if order[k] !in lastNotified || lastNotified[order[k]] < now - BATCH_WINDOW {
          FlushPendingForInvite(order[k], now);
        }
      }
    }
  }
}
