/** What each operation makes of a share's row, and what a completion or a burn means for every later download. */
module ShareOutcomes {
  import opened Options
  import opened EphemeralShares
  import opened BurnProtocol

  // ---------------------------------------------------------------- one operation, in terms of the row

  /** A share begins open to downloads or uploading, under a token not in use. */
  lemma CreationOutcome(t: Table, token: Token, share: Share)
    ensures Do(t, CreateShare(token, share))
         == if token !in t && (share.status == Active || share.status == Uploading) then t[token := share] else t
  {}

  /** The upload runs in this session, is in time, was assembled, and its size is known. */
  predicate Completes(t: Table, token: Token, uploadId: string, stored: bool, actual: Option<nat>, now: int) {
    && token in t && t[token].status == Uploading && t[token].uploadId == uploadId && uploadId != ""
    && now <= t[token].expiresAt && stored && actual.Some?
  }

  /** The object is no larger than declared, and no larger than two gibibytes. */
  predicate Fits(row: Share, actual: nat) {
    actual <= row.size && actual <= 2147483648
  }

  /**
   An accepted completion makes the share ACTIVE and an oversized one BURNED, and nothing else of it changes; a refusal
   changes nothing.
   */
  lemma CompletionOutcome(t: Table, token: Token, uploadId: string, stored: bool, actual: Option<nat>, now: int)
    ensures Do(t, Call.Complete(token, uploadId, stored, actual, now))
         == if !Completes(t, token, uploadId, stored, actual, now) then t
            else if Fits(t[token], actual.value) then t[token := t[token].(status := Active)]
            else t[token := t[token].(status := Burned)]
  {}

  /** The share is open to downloads, the password matches, and the size is known. */
  predicate Serves(t: Table, token: Token, passwordOk: bool, actual: Option<nat>, now: int) {
    token in t && t[token].status == Active && now <= t[token].expiresAt && passwordOk && actual.Some?
  }

  /** A link is given for a share that serves, an object that fits and a signature that succeeds, and for no other. */
  lemma LinkIff(t: Table, token: Token, passwordOk: bool, actual: Option<nat>, signOk: bool, now: int)
    ensures GetsLink(t, Call.Download(token, passwordOk, actual, signOk, now))
       <==> Serves(t, token, passwordOk, actual, now) && Fits(t[token], actual.value) && signOk
  {}

  /**
   A download counts once before it is signed; a signed one that brings the count to the limit burns the share and says
   when; an object too large burns it uncounted; a refusal changes nothing.
   */
  lemma DownloadOutcome(t: Table, token: Token, passwordOk: bool, actual: Option<nat>, signOk: bool, now: int)
    ensures Do(t, Call.Download(token, passwordOk, actual, signOk, now))
         == if !Serves(t, token, passwordOk, actual, now) then t
            else if !Fits(t[token], actual.value) then t[token := t[token].(status := Burned)]
            else if signOk && t[token].count + 1 >= t[token].max
              then t[token := t[token].(count := t[token].count + 1, status := Burned, burnedAt := Some(now))]
            else t[token := t[token].(count := t[token].count + 1)]
  {}

  lemma AdminBurnOutcome(t: Table, token: Token)
    ensures Do(t, Call.AdminBurn(token)) == if token in t then t[token := t[token].(status := Burned)] else t
  {}

  /** Only an upload in its own session is aborted, and its row is gone. */
  lemma AbortOutcome(t: Table, token: Token, uploadId: string)
    ensures Do(t, Call.Abort(token, uploadId))
         == if token in t && t[token].status == Uploading && t[token].uploadId == uploadId && uploadId != ""
            then t - {token} else t
  {}

  predicate NotOver(status: Status) {
    status == Uploading || status == Ready || status == Active
  }

  /** Exactly the shares that are not over and past their time expire. */
  lemma ExpireOutcome(t: Table, now: int)
    ensures var end := Do(t, Call.ExpireAll(now));
            && end.Keys == t.Keys
            && forall k :: k in t ==>
                 end[k] == if NotOver(t[k].status) && t[k].expiresAt < now then t[k].(status := Expired) else t[k]
  {}

  /** An object that may be deleted: its share expired, or burned more than fifteen minutes ago. */
  predicate Purgeable(row: Share, now: int) {
    && row.key != ""
    && match row.status
       case Expired => true
       case Burned => row.burnedAt.None? || row.burnedAt.value + 900 < now
       case _ => row.expiresAt < now
  }

  lemma EligibleIff(row: Share, now: int)
    ensures Eligible(row, now) <==> Purgeable(row, now)
  {}

  /** One batch marks what is past due and clears what it was handed among the deletable rows: expired unless burned. */
  lemma PurgeOutcome(t: Table, tokens: set<Token>, r: Reading)
    ensures var end := Do(t, Call.Purge(tokens, r));
            && end.Keys == t.Keys
            && forall k :: k in t ==>
                 var marked := if r.marked.Some? && NotOver(t[k].status) && t[k].expiresAt < r.marked.value
                               then t[k].(status := Expired) else t[k];
                 end[k] == if k in tokens && Purgeable(marked, r.listed)
                           then marked.(key := "", status := if marked.status == Burned then Burned else Expired)
                           else marked
  {
    forall k | k in t
      ensures Eligible(MarkStep(t[k], r.marked), r.listed) <==> Purgeable(MarkStep(t[k], r.marked), r.listed)
    {
      EligibleIff(MarkStep(t[k], r.marked), r.listed);
    }
  }

  /** A batch of the purge holds up to a hundred rows. */
  lemma BatchIs()
    ensures BATCH == 100
  {}

  // ---------------------------------------------------------------- a completed share serves

  /** Attempts to download the share in the run. */
  function Attempts(run: seq<Call>, token: Token): nat {
    if run == [] then 0
    else (if run[0].Download? && run[0].token == token then 1 else 0) + Attempts(run[1..], token)
  }

  /** The call neither burns the share by hand or for its size nor runs after its time. */
  predicate Leaves(c: Call, token: Token, row: Share) {
    match c
    case AdminBurn(k) => k != token
    case Download(k, _, actual, _, _) => k == token && actual.Some? ==> Fits(row, actual.value)
    case ExpireAll(now) => now <= row.expiresAt
    case Purge(_, reading) =>
      reading.listed <= row.expiresAt && (reading.marked.Some? ==> reading.marked.value <= row.expiresAt)
    case _ => true
  }

  lemma LeftOpen(t: Table, c: Call, token: Token)
    requires token in t && t[token].status == Active && Leaves(c, token, t[token])
    requires t[token].count + Attempts([c], token) < t[token].max
    ensures token in Do(t, c)
    ensures Do(t, c)[token].(count := t[token].count) == t[token]
    ensures t[token].count <= Do(t, c)[token].count <= t[token].count + Attempts([c], token)
  {
    assert [c][1..] == [];
  }

  /** A share that is open stays open through fewer downloads than it has left, whatever else goes on in time. */
  lemma {:induction false} OpenThrough(t: Table, run: seq<Call>, token: Token)
    requires token in t && t[token].status == Active
    requires forall k :: 0 <= k < |run| ==> Leaves(run[k], token, t[token])
    requires t[token].count + Attempts(run, token) < t[token].max
    ensures token in RunCalls(t, run) && RunCalls(t, run)[token].(count := t[token].count) == t[token]
    ensures RunCalls(t, run)[token].count <= t[token].count + Attempts(run, token)
    decreases |run|
  {
    if run != [] {
      assert [run[0]][1..] == [] && Attempts(run, token) == Attempts([run[0]], token) + Attempts(run[1..], token);
      LeftOpen(t, run[0], token);
      assert forall k :: 0 <= k < |run[1..]| ==> run[1..][k] == run[k + 1];
      OpenThrough(Do(t, run[0]), run[1..], token);
    }
  }

  /**
   What completing is for: after an accepted completion a download in time gets its link, as long as the attempts before
   it are fewer than the limit and nothing burned or expired the share meanwhile.
   */
  lemma CompletedServes(t: Table, token: Token, uploadId: string, actual: nat, now: int, run: seq<Call>,
                        size: nat, later: int)
    requires Completes(t, token, uploadId, true, Some(actual), now) && Fits(t[token], actual)
    requires forall k :: 0 <= k < |run| ==> Leaves(run[k], token, t[token])
    requires t[token].count + Attempts(run, token) < t[token].max
    requires later <= t[token].expiresAt && Fits(t[token], size)
    ensures var end := RunCalls(Do(t, Call.Complete(token, uploadId, true, Some(actual), now)), run);
            GetsLink(end, Call.Download(token, true, Some(size), true, later))
  {
    CompletionOutcome(t, token, uploadId, true, Some(actual), now);
    var mid := Do(t, Call.Complete(token, uploadId, true, Some(actual), now));
    assert forall k :: 0 <= k < |run| ==> Leaves(run[k], token, mid[token]);
    OpenThrough(mid, run, token);
  }

  // ---------------------------------------------------------------- a burned share does not

  /** No download of a burned or expired share gets a link, after any whole operations. */
  lemma OverServesNone(t: Table, run: seq<Call>, token: Token, passwordOk: bool, actual: Option<nat>, signOk: bool,
                       now: int)
    requires token in t && (t[token].status == Burned || t[token].status == Expired)
    ensures !GetsLink(RunCalls(t, run), Call.Download(token, passwordOk, actual, signOk, now))
  {
    LifecycleOverRuns(t, run, token);
  }

  /** Neither after an oversized completion nor after the administrator's burn is any link given again. */
  lemma BurnedServesNone(t: Table, c: Call, token: Token, run: seq<Call>,
                         passwordOk: bool, actual: Option<nat>, signOk: bool, now: int)
    requires token in t
    requires c == AdminBurn(token)
          || (c.Complete? && c.token == token && Completes(t, token, c.uploadId, c.stored, c.actual, c.now)
              && !Fits(t[token], c.actual.value))
          || (c.Download? && c.token == token && Serves(t, token, c.passwordOk, c.actual, c.now)
              && (!Fits(t[token], c.actual.value) || (c.signOk && t[token].count + 1 >= t[token].max)))
    ensures !GetsLink(RunCalls(Do(t, c), run), Call.Download(token, passwordOk, actual, signOk, now))
  {
    OverServesNone(Do(t, c), run, token, passwordOk, actual, signOk, now);
  }

  // ---------------------------------------------------------------- a completion as its statements

  /** The statements of one CompleteMultipartUpload that nothing overlaps; a wrong session ends before the first. */
  function CompletionRun(row: Share, c: Id, uploadId: string, stored: bool, actual: Option<nat>, now: int)
    : seq<Action>
  {
    if row.uploadId == "" || row.uploadId != uploadId then []
    else
      [CheckUpload(c, now)]
      + (if !stored || actual.None? then [DropUpload(c)]
         else if actual.value > row.size || actual.value > 2147483648 then [RejectUpload(c)]
         else [FinishUpload(c)])
  }

  lemma TwoSteps(w: World, a: Action, b: Action)
    ensures Run(w, [a, b]) == Apply(Apply(w, a), b)
  {
    var end := Apply(Apply(w, a), b);
    assert [a, b][1..] == [b] && [b][1..] == [] && Run(end, []) == end && Run(Apply(w, a), [b]) == end;
  }

  /** The whole completion is its check and its write, run without interruption. */
  lemma CompletionIsRun(t: Table, token: Token, uploadId: string, stored: bool, actual: Option<nat>, now: int)
    requires token in t
    ensures var end := Run(BurnProtocol.Ready(t[token]), CompletionRun(t[token], 0, uploadId, stored, actual, now));
            Do(t, Call.Complete(token, uploadId, stored, actual, now)) == t[token := end.row]
            && end.requests == map[] && end.completions == {} && Links(end) == 0
  {
    var w, run := BurnProtocol.Ready(t[token]), CompletionRun(t[token], 0, uploadId, stored, actual, now);
    if run != [] {
      TwoSteps(w, run[0], run[1]);
      assert run == [run[0], run[1]];
    }
  }

  /** An administrator's burn and the hourly expiry are one statement each. */
  lemma SingleStatements(t: Table, token: Token, now: int)
    requires token in t
    ensures Do(t, Call.AdminBurn(token)) == t[token := Apply(BurnProtocol.Ready(t[token]), BurnByAdmin).row]
    ensures token in Do(t, Call.ExpireAll(now))
            && Do(t, Call.ExpireAll(now))[token] == Apply(BurnProtocol.Ready(t[token]), Mark(now)).row
  {}

  /** Requests that have no link yet. */
  function Unsigned(w: World): nat {
    |In(w.requests, Checked)| + |In(w.requests, Counting(true))| + |In(w.requests, Counting(false))|
  }

  lemma StepShut(w: World, a: Action)
    requires Over(w.row.status) && !Reopens(w, a)
    ensures Over(Apply(w, a).row.status)
    ensures Links(Apply(w, a)) + Unsigned(Apply(w, a)) <= Links(w) + Unsigned(w)
  {
    MoveAll(w.requests, Subject(a), NextPhase(w, a));
  }

  /** Once a share is over, only requests past the check get links, one each, until a late completion reopens it. */
  lemma {:induction false} ShutUntilReopened(w: World, run: seq<Action>)
    requires Over(w.row.status) && Late(w, run) == 0
    ensures Over(Run(w, run).row.status) && Links(Run(w, run)) <= Links(w) + Unsigned(w)
    decreases |run|
  {
    if run != [] {
      StepShut(w, run[0]);
      ShutUntilReopened(Apply(w, run[0]), run[1..]);
    }
  }

  /**
   After an oversized completion no link is signed in any interleaving of requests and completions, until another
   completion reopens the share.
   */
  lemma OversizedSignsNone(t: Table, token: Token, uploadId: string, actual: nat, now: int, run: seq<Action>)
    requires Completes(t, token, uploadId, true, Some(actual), now) && !Fits(t[token], actual)
    requires var row := Do(t, Call.Complete(token, uploadId, true, Some(actual), now))[token];
             Late(BurnProtocol.Ready(row), run) == 0
    ensures var row := Do(t, Call.Complete(token, uploadId, true, Some(actual), now))[token];
            Links(Run(BurnProtocol.Ready(row), run)) == 0
  {
    var w := BurnProtocol.Ready(Do(t, Call.Complete(token, uploadId, true, Some(actual), now))[token]);
    ShutUntilReopened(w, run);
    assert forall p :: In(w.requests, p) == {};
  }
}
