/**
 Rows of ephemeral shares, the statements that change them, and the whole operations as functions of the table.
 A row's token doubles as its id; times are in seconds.
 */
module EphemeralShares {
  import opened Options

  type Token = nat

  datatype Status = Uploading | Ready | Active | Expired | Burned

  /** `max` is the number of downloads after which the share burns; a cleared `key` is the empty string. */
  datatype Share = Share(status: Status, key: string, uploadId: string, size: nat, max: int, count: nat, expiresAt: int,
                         burnedAt: Option<int>)

  type Table = map<Token, Share>

  const SIZE_LIMIT: nat := 2147483648
  const BURN_GRACE := 15 * 60
  const BATCH := 100

  predicate Open(status: Status) {
    status == Active || status == Ready || status == Uploading
  }

  predicate PastDue(row: Share, now: int) {
    now > row.expiresAt
  }

  function WithStatus(t: Table, token: Token, status: Status): Table {
    if token in t then t[token := t[token].(status := status)] else t
  }

  /** MarkBurned. */
  function BurnedRow(row: Share, now: int): Share {
    row.(status := Burned, burnedAt := Some(now))
  }

  predicate Oversize(row: Share, actual: nat) {
    actual > row.size || actual > SIZE_LIMIT
  }

  // ---------------------------------------------------------------- whole operations

  /** The clock at the two statements of a purge; `marked` is None when the marking update fails, which is ignored. */
  datatype Reading = Reading(marked: Option<int>, listed: int)

  datatype Call =
    | CreateShare(token: Token, share: Share)
    | Complete(token: Token, uploadId: string, stored: bool, actual: Option<nat>, now: int)
    | Abort(token: Token, uploadId: string)
    | Download(token: Token, passwordOk: bool, actual: Option<nat>, signOk: bool, now: int)
    | AdminBurn(token: Token)
    | ExpireAll(now: int)
    | Purge(tokens: set<Token>, reading: Reading)

  /** The guard shared by completing and aborting an upload. */
  predicate Session(row: Share, uploadId: string) {
    row.status == Uploading && row.uploadId != "" && row.uploadId == uploadId
  }

  /** The session is open, the store has assembled the parts, and the object's size is known. */
  predicate Assembled(row: Share, uploadId: string, stored: bool, actual: Option<nat>, now: int) {
    Session(row, uploadId) && !PastDue(row, now) && stored && actual.Some?
  }

  function DoComplete(t: Table, c: Call): Table
    requires c.Complete?
  {
    if c.token !in t || !Assembled(t[c.token], c.uploadId, c.stored, c.actual, c.now) then t
    else WithStatus(t, c.token, if Oversize(t[c.token], c.actual.value) then Burned else Active)
  }

  predicate MayDownload(row: Share, now: int) {
    row.status == Active && !PastDue(row, now)
  }

  function Counted(row: Share): Share {
    row.(count := row.count + 1)
  }

  /** One more download reaches the limit. */
  predicate LastDownload(row: Share) {
    row.count + 1 >= row.max
  }

  function DoDownload(t: Table, c: Call): Table
    requires c.Download?
  {
    if c.token !in t || !MayDownload(t[c.token], c.now) || !c.passwordOk || c.actual.None? then t
    else if Oversize(t[c.token], c.actual.value) then WithStatus(t, c.token, Burned)
    else
      var row := Counted(t[c.token]);
      t[c.token := if c.signOk && LastDownload(t[c.token]) then BurnedRow(row, c.now) else row]
  }

  /** The download ends in a signed link. */
  predicate GetsLink(t: Table, c: Call)
    requires c.Download?
  {
    && c.token in t && MayDownload(t[c.token], c.now) && c.passwordOk && c.actual.Some?
    && !Oversize(t[c.token], c.actual.value) && c.signOk
  }

  function Marked(row: Share, now: int): Share {
    if Open(row.status) && PastDue(row, now) then row.(status := Expired) else row
  }

  function MarkAll(t: Table, now: int): Table {
    map k | k in t :: Marked(t[k], now)
  }

  /** The row is ready to have its object deleted. */
  predicate Eligible(row: Share, now: int) {
    row.key != ""
    && (row.status == Expired || (Open(row.status) && PastDue(row, now))
        || (row.status == Burned && (row.burnedAt.None? || row.burnedAt.value < now - BURN_GRACE)))
  }

  function Cleared(row: Share): Share {
    row.(key := "", status := if row.status == Burned then Burned else Expired)
  }

  function ClearAll(t: Table, tokens: set<Token>): Table {
    map k | k in t :: if k in tokens then Cleared(t[k]) else t[k]
  }

  function EligibleSet(t: Table, now: int): set<Token> {
    set k | k in t && Eligible(t[k], now)
  }

  function MarkStep(row: Share, marked: Option<int>): Share {
    if marked.Some? then Marked(row, marked.value) else row
  }

  function MarkTable(t: Table, marked: Option<int>): Table {
    map k | k in t :: MarkStep(t[k], marked)
  }

  /** One batch: mark what is past due, then clear the keys of the rows the query returned. */
  function DoPurge(t: Table, tokens: set<Token>, r: Reading): Table {
    var marked := MarkTable(t, r.marked);
    ClearAll(marked, tokens * EligibleSet(marked, r.listed))
  }

  function Do(t: Table, c: Call): Table {
    match c
    case CreateShare(token, share) =>
      if token in t || !(share.status == Active || share.status == Uploading) then t else t[token := share]
    case Complete(_, _, _, _, _) => DoComplete(t, c)
    case Abort(token, uploadId) => if token in t && Session(t[token], uploadId) then t - {token} else t
    case Download(_, _, _, _, _) => DoDownload(t, c)
    case AdminBurn(token) => WithStatus(t, token, Burned)
    case ExpireAll(now) => MarkAll(t, now)
    case Purge(tokens, reading) => DoPurge(t, tokens, reading)
  }

  function RunCalls(t: Table, run: seq<Call>): Table
    decreases |run|
  {
    if run == [] then t else RunCalls(Do(t, run[0]), run[1..])
  }

  // ---------------------------------------------------------------- the lifecycle

  /** Burned rows stay burned, expired ones can only burn, and a cleared key stays cleared. */
  predicate Follows(row: Share, next: Share) {
    && (row.status == Burned ==> next.status == Burned)
    && (row.status == Expired ==> next.status == Expired || next.status == Burned)
    && (row.status == Active ==> next.status != Uploading && next.status != Ready)
    && (row.key == "" ==> next.key == "")
    && row.count <= next.count && next.max == row.max && next.expiresAt == row.expiresAt
  }

  lemma CallFollows(t: Table, c: Call, token: Token)
    requires token in t
    ensures token in Do(t, c) ==> Follows(t[token], Do(t, c)[token])
    ensures token !in Do(t, c) ==> t[token].status == Uploading
  {
    match c
    case Purge(tokens, reading) =>
      var marked := MarkTable(t, reading.marked);
      assert Follows(t[token], marked[token]);
    case _ =>
  }

  /** Over any run of whole operations: BURNED is absorbing and EXPIRED can only become BURNED. */
  lemma {:induction false} LifecycleOverRuns(t: Table, run: seq<Call>, token: Token)
    requires token in t && t[token].status != Uploading
    ensures token in RunCalls(t, run) && Follows(t[token], RunCalls(t, run)[token])
    decreases |run|
  {
    if run != [] {
      CallFollows(t, run[0], token);
      LifecycleOverRuns(Do(t, run[0]), run[1..], token);
    }
  }

  // ---------------------------------------------------------------- draining

  /** What draining makes of one row: nothing, or past due marked, or cleared. */
  function Drained(row: Share, now: int): Share {
    if Eligible(Marked(row, now), now) then Cleared(Marked(row, now)) else Marked(row, now)
  }

  function DrainedTable(t: Table, now: int): Table {
    map k | k in t :: Drained(t[k], now)
  }

  lemma ClearNone(t: Table)
    ensures ClearAll(t, {}) == t
  {}

  lemma DrainSpares(t: Table, now: int)
    ensures forall k :: k in t && t[k].status != Burned && t[k].status != Expired && !PastDue(t[k], now)
              ==> DrainedTable(t, now)[k] == t[k]
    ensures EligibleSet(DrainedTable(t, now), now) == {}
  {}
}

/** The share service and the purge of the scheduler on tables updated in place. */
module EphemeralService {
  import opened Options
  import opened Sets
  import opened EphemeralShares

  datatype Target = Target(token: Token, key: string, uploadId: string, status: Status)

  function TokensOf(targets: seq<Target>): set<Token> {
    if targets == [] then {} else TokensOf(targets[..|targets| - 1]) + {targets[|targets| - 1].token}
  }

  lemma {:induction false} TokenIn(targets: seq<Target>, token: Token)
    ensures token in TokensOf(targets) <==> exists i :: 0 <= i < |targets| && targets[i].token == token
    decreases |targets|
  {
    if targets != [] {
      var n := |targets| - 1;
      TokenIn(targets[..n], token);
      assert forall i :: 0 <= i < n ==> targets[..n][i] == targets[i];
      assert token in TokensOf(targets[..n]) ==> exists i :: 0 <= i < n && targets[i].token == token;
    }
  }

  lemma TokensIn(targets: seq<Target>)
    ensures forall i :: 0 <= i < |targets| ==> targets[i].token in TokensOf(targets)
  {
    forall i | 0 <= i < |targets| ensures targets[i].token in TokensOf(targets) {
      TokenIn(targets, targets[i].token);
    }
  }

  predicate DistinctTokens(targets: seq<Target>) {
    forall i, j :: 0 <= i < j < |targets| ==> targets[i].token != targets[j].token
  }

  predicate CopiesOf(targets: seq<Target>, t: Table) {
    forall i :: 0 <= i < |targets| ==>
      targets[i].token in t
      && var row := t[targets[i].token];
         targets[i] == Target(targets[i].token, row.key, row.uploadId, row.status)
  }

  lemma TargetAdded(targets: seq<Target>, t: Table, k: Token)
    requires CopiesOf(targets, t) && DistinctTokens(targets) && k in t && k !in TokensOf(targets)
    ensures var more := targets + [Target(k, t[k].key, t[k].uploadId, t[k].status)];
            CopiesOf(more, t) && DistinctTokens(more) && TokensOf(more) == TokensOf(targets) + {k}
  {
    TokensIn(targets);
    var more := targets + [Target(k, t[k].key, t[k].uploadId, t[k].status)];
    assert more[..|more| - 1] == targets;
  }

  class EphemeralShareRepository {
    var shares: Table

    constructor ()
      ensures shares == map[]
    {
      shares := map[];
    }

    method IncrementDownloadAndCheckBurn(token: Token) returns (shouldBurn: bool)
      requires token in shares
      modifies this
      ensures shares == old(shares)[token := Counted(old(shares)[token])]
      ensures shouldBurn == LastDownload(old(shares)[token])
    {
      shares := shares[token := shares[token].(count := shares[token].count + 1)];
      shouldBurn := shares[token].count >= shares[token].max;
    }

    method MarkBurned(token: Token, now: int)
      requires token in shares
      modifies this
      ensures shares == old(shares)[token := BurnedRow(old(shares)[token], now)]
    {
      shares := shares[token := shares[token].(status := Burned, burnedAt := Some(now))];
    }

    method UpdateStatus(token: Token, status: Status)
      modifies this
      ensures shares == EphemeralShares.WithStatus(old(shares), token, status)
    {
      if token in shares {
        shares := shares[token := shares[token].(status := status)];
      }
    }

    /** Up to a batch of eligible rows, whichever the database returns. */
    method SelectTargets(now: int) returns (targets: seq<Target>)
      ensures CopiesOf(targets, shares) && DistinctTokens(targets) && |targets| <= BATCH
      ensures TokensOf(targets) <= EligibleSet(shares, now)
      ensures |targets| < BATCH ==> TokensOf(targets) == EligibleSet(shares, now)
    {
      targets := [];
      var left := EligibleSet(shares, now);
      while |targets| < BATCH && left != {}
        invariant CopiesOf(targets, shares) && DistinctTokens(targets) && |targets| <= BATCH
        invariant left <= EligibleSet(shares, now) && TokensOf(targets) == EligibleSet(shares, now) - left
        decreases |left|
      {
        var k :| k in left;
        TargetAdded(targets, shares, k);
        targets := targets + [Target(k, shares[k].key, shares[k].uploadId, shares[k].status)];
        left := left - {k};
      }
    }

    method ClearKeys(targets: seq<Target>)
      requires DistinctTokens(targets) && TokensOf(targets) <= shares.Keys
      modifies this
      ensures shares == ClearAll(old(shares), TokensOf(targets))
    {
      ClearNone(shares);
      var i := 0;
      while i < |targets|
        invariant 0 <= i <= |targets|
        invariant shares == ClearAll(old(shares), TokensOf(targets[..i]))
      {
        var token := targets[i].token;
        TokensIn(targets);
        TokenIn(targets[..i], token);
        assert targets[..i + 1][..i] == targets[..i];
        var status := if shares[token].status == Burned then Burned else Expired;
        shares := shares[token := shares[token].(key := "", status := status)];
        i := i + 1;
      }
      assert targets[..i] == targets;
    }

    method PurgeExpiredAndBurned(r: Reading) returns (targets: seq<Target>)
      modifies this
      ensures var marked := MarkTable(old(shares), r.marked);
              && CopiesOf(targets, marked) && DistinctTokens(targets) && |targets| <= BATCH
              && TokensOf(targets) <= EligibleSet(marked, r.listed)
              && (|targets| < BATCH ==> TokensOf(targets) == EligibleSet(marked, r.listed))
      ensures shares == Do(old(shares), Call.Purge(TokensOf(targets), r))
    {
      shares := MarkTable(shares, r.marked);
      targets := SelectTargets(r.listed);
      assert TokensOf(targets) * EligibleSet(shares, r.listed) == TokensOf(targets);
      ClearKeys(targets);
    }
  }

  class EphemeralService {
    const repo: EphemeralShareRepository
    var progress: map<Token, nat>

    constructor (repo: EphemeralShareRepository)
      ensures this.repo == repo && progress == map[]
    {
      this.repo := repo;
      progress := map[];
    }

    /** `stored` and `actual`: whether the object store assembled the parts, and the size it reports. */
    method CompleteMultipartUpload(token: Token, uploadId: string, stored: bool, actual: Option<nat>, now: int)
      returns (ok: bool)
      modifies this, repo
      ensures repo.shares == Do(old(repo.shares), Call.Complete(token, uploadId, stored, actual, now))
      ensures ok <==> token in old(repo.shares) && Assembled(old(repo.shares)[token], uploadId, stored, actual, now)
                      && !Oversize(old(repo.shares)[token], actual.value)
      ensures ok ==> repo.shares == old(repo.shares)[token := old(repo.shares)[token].(status := Active)]
      ensures !ok && repo.shares != old(repo.shares) ==>
        && token in old(repo.shares)
        && repo.shares == old(repo.shares)[token := old(repo.shares)[token].(status := Burned)]
      ensures progress == if token in old(repo.shares)
        && Assembled(old(repo.shares)[token], uploadId, stored, actual, now)
                          then old(progress) - {token} else old(progress)
    {
      if token !in repo.shares {
        return false;
      }
      var share := repo.shares[token];
      if share.status != Uploading || now > share.expiresAt || share.uploadId == "" || share.uploadId != uploadId {
        return false;
      }
      if !stored || actual.None? {
        return false;
      }
      if actual.value > share.size || actual.value > SIZE_LIMIT {
        repo.UpdateStatus(token, Burned);
        progress := progress - {token};
        return false;
      }
      progress := progress - {token};
      repo.UpdateStatus(token, Active);
      return true;
    }

    method AbortMultipartUpload(token: Token, uploadId: string) returns (ok: bool)
      modifies this, repo
      ensures repo.shares == Do(old(repo.shares), Call.Abort(token, uploadId))
      ensures ok <==> token in old(repo.shares) && Session(old(repo.shares)[token], uploadId)
      ensures progress == if ok then old(progress) - {token} else old(progress)
    {
      ok := token in repo.shares && repo.shares[token].status == Uploading && repo.shares[token].uploadId != ""
            && repo.shares[token].uploadId == uploadId;
      if ok {
        progress := progress - {token};
        repo.shares := repo.shares - {token};
      }
    }

    method RequestDownload(token: Token, passwordOk: bool, actual: Option<nat>, signOk: bool, now: int)
      returns (link: bool)
      modifies repo
      ensures repo.shares == Do(old(repo.shares), Call.Download(token, passwordOk, actual, signOk, now))
      ensures link <==> GetsLink(old(repo.shares), Call.Download(token, passwordOk, actual, signOk, now))
    {
      if token !in repo.shares {
        return false;
      }
      var share := repo.shares[token];
      if share.status != Active || now > share.expiresAt || !passwordOk || actual.None? {
        return false;
      }
      if actual.value > share.size || actual.value > SIZE_LIMIT {
        repo.UpdateStatus(token, Burned);
        return false;
      }
      var shouldBurn := repo.IncrementDownloadAndCheckBurn(token);
      if !signOk {
        return false;
      }
      if shouldBurn {
        repo.MarkBurned(token, now);
      }
      return true;
    }

    method AdminBurnShare(token: Token)
      modifies this, repo
      ensures repo.shares == Do(old(repo.shares), Call.AdminBurn(token))
      ensures progress == if token in old(repo.shares) then old(progress) - {token} else old(progress)
    {
      if token in repo.shares {
        progress := progress - {token};
        repo.UpdateStatus(token, Burned);
      }
    }
  }

  function KeysOf(targets: seq<Target>): seq<string> {
    if targets == [] then [] else KeysOf(targets[..|targets| - 1]) + [targets[|targets| - 1].key]
  }

  // ---------------------------------------------------------------- the drain

  /** The scheduler aborts an upload instead of deleting an object. */
  predicate Aborts(target: Target) {
    target.status == Uploading && target.uploadId != ""
  }

  function DeletedKeys(targets: seq<Target>): seq<string> {
    if targets == [] then []
    else
      var last := targets[|targets| - 1];
      DeletedKeys(targets[..|targets| - 1]) + if Aborts(last) then [] else [last.key]
  }

  function AbortedKeys(targets: seq<Target>): seq<string> {
    if targets == [] then []
    else
      var last := targets[|targets| - 1];
      AbortedKeys(targets[..|targets| - 1]) + if Aborts(last) then [last.key] else []
  }

  lemma {:induction false} KeysConcat(a: seq<Target>, b: seq<Target>)
    ensures DeletedKeys(a + b) == DeletedKeys(a) + DeletedKeys(b)
    ensures AbortedKeys(a + b) == AbortedKeys(a) + AbortedKeys(b)
    decreases |b|
  {
    if b == [] {
      assert a + b == a;
    } else {
      var rest := b[..|b| - 1];
      assert (a + b)[..|a + b| - 1] == a + rest;
      KeysConcat(a, rest);
    }
  }

  lemma {:induction false} NoneAborted(targets: seq<Target>)
    requires forall i :: 0 <= i < |targets| ==> targets[i].status != Uploading
    ensures DeletedKeys(targets) == KeysOf(targets) && AbortedKeys(targets) == []
    decreases |targets|
  {
    if targets != [] {
      assert forall i :: 0 <= i < |targets| - 1 ==> targets[..|targets| - 1][i] == targets[i];
      NoneAborted(targets[..|targets| - 1]);
    }
  }

  /** The scheduler's deletions of one batch. */
  method DeleteTargets(targets: seq<Target>) returns (deleted: seq<string>, aborted: seq<string>)
    ensures deleted == DeletedKeys(targets) && aborted == AbortedKeys(targets)
  {
    deleted, aborted := [], [];
    var i := 0;
    while i < |targets|
      invariant 0 <= i <= |targets|
      invariant deleted == DeletedKeys(targets[..i]) && aborted == AbortedKeys(targets[..i])
    {
      assert targets[..i + 1][..i] == targets[..i];
      if targets[i].status == Uploading && targets[i].uploadId != "" {
        aborted := aborted + [targets[i].key];
      } else {
        deleted := deleted + [targets[i].key];
      }
      i := i + 1;
    }
    assert targets[..i] == targets;
  }

  /** A row nobody has cleared, after batches with these readings. */
  function MarkedThrough(row: Share, rs: seq<Reading>): Share {
    if rs == [] then row else MarkStep(MarkedThrough(row, rs[..|rs| - 1]), rs[|rs| - 1].marked)
  }

  /** Every row is cleared when it has been handed out, and otherwise as the batches' marking leaves it. */
  ghost predicate Drains(first: Table, t: Table, handed: seq<Target>, rs: seq<Reading>) {
    && t.Keys == first.Keys && DistinctTokens(handed) && TokensOf(handed) <= first.Keys
    && forall k :: k in first ==>
         t[k] == if k in TokensOf(handed) then Cleared(first[k]) else MarkedThrough(first[k], rs)
  }

  /** Batch j listed the target: it was eligible then, and is a copy of its row at that time. */
  predicate ListedBy(first: Table, target: Target, rs: seq<Reading>, j: nat) {
    && j < |rs| && target.token in first
    && var row := MarkedThrough(first[target.token], rs[..j + 1]);
       Eligible(row, rs[j].listed) && target == Target(target.token, row.key, row.uploadId, row.status)
  }

  ghost predicate WasListed(first: Table, target: Target, rs: seq<Reading>) {
    exists j: nat :: ListedBy(first, target, rs, j)
  }

  ghost predicate AllListed(first: Table, handed: seq<Target>, rs: seq<Reading>) {
    forall i :: 0 <= i < |handed| ==> WasListed(first, handed[i], rs)
  }

  /** No marking update ran after the row expired. */
  predicate Unmarked(row: Share, rs: seq<Reading>) {
    forall i :: 0 <= i < |rs| && rs[i].marked.Some? ==> rs[i].marked.value <= row.expiresAt
  }

  lemma {:induction false} MarkedThroughIs(row: Share, rs: seq<Reading>)
    ensures var after := MarkedThrough(row, rs); after == row || (Open(row.status) && after == row.(status := Expired))
    ensures MarkedThrough(row, rs).status == Uploading <==> row.status == Uploading && Unmarked(row, rs)
    decreases |rs|
  {
    if rs != [] {
      var n := |rs| - 1;
      MarkedThroughIs(row, rs[..n]);
      assert forall i :: 0 <= i < n ==> rs[..n][i] == rs[i];
      assert Unmarked(row, rs)
        <==> Unmarked(row, rs[..n]) && (rs[n].marked.Some? ==> rs[n].marked.value <= row.expiresAt);
    }
  }

  /**
   Exactly when a listed target's multipart upload is aborted: its share was uploading when the drain began, no marking
   up to its batch came after it expired, and the listing did.
   */
  lemma AbortedIff(first: Table, target: Target, rs: seq<Reading>, j: nat)
    requires ListedBy(first, target, rs, j)
    ensures var row := first[target.token];
            Aborts(target)
            <==> && row.status == Uploading && row.uploadId != ""
                 && Unmarked(row, rs[..j + 1]) && row.expiresAt < rs[j].listed
  {
    MarkedThroughIs(first[target.token], rs[..j + 1]);
  }

  /** A share that expires between the two statements of a batch has its upload aborted. */
  lemma ExpiresBetween()
    ensures var first := map[1 := Share(Uploading, "key", "upload", 5, 1, 0, 10, None)];
            var target := Target(1, "key", "upload", Uploading);
            ListedBy(first, target, [Reading(Some(10), 11)], 0) && Aborts(target)
  {
    var rs := [Reading(Some(10), 11)];
    assert rs[..1] == rs && rs[..0] == [];
  }

  lemma MarkedOnce(row: Share, rs: seq<Reading>, r: Reading)
    ensures MarkedThrough(row, rs + [r]) == MarkStep(MarkedThrough(row, rs), r.marked)
  {
    assert (rs + [r])[..|rs + [r]| - 1] == rs;
  }

  /** The rows a batch sees. */
  lemma BatchTable(first: Table, t: Table, handed: seq<Target>, rs: seq<Reading>, r: Reading)
    requires Drains(first, t, handed, rs)
    ensures var marked := MarkTable(t, r.marked);
            && marked.Keys == first.Keys
            && forall k :: k in first ==>
                 marked[k] == if k in TokensOf(handed) then Cleared(first[k]) else MarkedThrough(first[k], rs + [r])
  {
    forall k | k in first && k !in TokensOf(handed)
      ensures MarkStep(t[k], r.marked) == MarkedThrough(first[k], rs + [r])
    {
      MarkedOnce(first[k], rs, r);
    }
  }

  /** A further batch has rows not handed out before. */
  lemma BatchFresh(first: Table, t: Table, handed: seq<Target>, rs: seq<Reading>, r: Reading, targets: seq<Target>)
    requires Drains(first, t, handed, rs) && DistinctTokens(targets)
    requires TokensOf(targets) <= EligibleSet(MarkTable(t, r.marked), r.listed)
    ensures TokensOf(targets) !! TokensOf(handed) && DistinctTokens(handed + targets)
    ensures TokensOf(handed + targets) == TokensOf(handed) + TokensOf(targets)
  {
    BatchTable(first, t, handed, rs, r);
    TokensOfConcat(handed, targets);
    TokensIn(targets);
    TokensIn(handed);
    forall k | k in TokensOf(targets) ensures k !in TokensOf(handed) {
      assert Eligible(MarkTable(t, r.marked)[k], r.listed);
    }
  }

  lemma BatchDrains(first: Table, t: Table, handed: seq<Target>, rs: seq<Reading>, r: Reading, targets: seq<Target>)
    requires Drains(first, t, handed, rs) && DistinctTokens(targets)
    requires TokensOf(targets) <= EligibleSet(MarkTable(t, r.marked), r.listed)
    ensures Drains(first, DoPurge(t, TokensOf(targets), r), handed + targets, rs + [r])
  {
    BatchTable(first, t, handed, rs, r);
    BatchFresh(first, t, handed, rs, r, targets);
    forall k | k in first && k in TokensOf(targets) ensures Cleared(MarkTable(t, r.marked)[k]) == Cleared(first[k]) {
      MarkedThroughIs(first[k], rs + [r]);
    }
  }

  lemma ListedLater(first: Table, target: Target, rs: seq<Reading>, r: Reading)
    requires WasListed(first, target, rs)
    ensures WasListed(first, target, rs + [r])
  {
    var j: nat :| ListedBy(first, target, rs, j);
    assert (rs + [r])[..j + 1] == rs[..j + 1];
    assert ListedBy(first, target, rs + [r], j);
  }

  lemma ListedNow(first: Table, target: Target, rs: seq<Reading>, r: Reading)
    requires target.token in first
    requires var row := MarkedThrough(first[target.token], rs + [r]);
             Eligible(row, r.listed) && target == Target(target.token, row.key, row.uploadId, row.status)
    ensures WasListed(first, target, rs + [r])
  {
    assert (rs + [r])[..|rs| + 1] == rs + [r];
    assert ListedBy(first, target, rs + [r], |rs|);
  }

  lemma BatchListed(first: Table, t: Table, handed: seq<Target>, rs: seq<Reading>, r: Reading, targets: seq<Target>)
    requires Drains(first, t, handed, rs) && DistinctTokens(targets) && AllListed(first, handed, rs)
    requires TokensOf(targets) <= EligibleSet(MarkTable(t, r.marked), r.listed)
    requires CopiesOf(targets, MarkTable(t, r.marked))
    ensures AllListed(first, handed + targets, rs + [r])
  {
    BatchTable(first, t, handed, rs, r);
    BatchFresh(first, t, handed, rs, r, targets);
    TokensIn(targets);
    forall i | 0 <= i < |handed + targets| ensures WasListed(first, (handed + targets)[i], rs + [r]) {
      if i < |handed| {
        assert WasListed(first, handed[i], rs);
        ListedLater(first, handed[i], rs, r);
      } else {
        var target := targets[i - |handed|];
        assert target.token in TokensOf(targets);
        ListedNow(first, target, rs, r);
      }
    }
  }

  /** The rows whose object is not purged yet. */
  function Keyed(t: Table): set<Token> {
    set k | k in t && t[k].key != ""
  }

  lemma BatchShrinks(t: Table, r: Reading, targets: seq<Target>)
    requires TokensOf(targets) <= EligibleSet(MarkTable(t, r.marked), r.listed) && |targets| > 0
    ensures |Keyed(DoPurge(t, TokensOf(targets), r))| < |Keyed(t)|
  {
    TokensIn(targets);
    var k := targets[0].token;
    assert k in Keyed(t) && k !in Keyed(DoPurge(t, TokensOf(targets), r));
    assert Keyed(DoPurge(t, TokensOf(targets), r)) <= Keyed(t) - {k};
    SubsetSize(Keyed(DoPurge(t, TokensOf(targets), r)), Keyed(t) - {k});
  }

  /** One batch of the drain loop; `full`: there may be more. */
  method PurgeBatch(repo: EphemeralShareRepository, r: Reading, ghost first: Table, ghost before: seq<Target>,
                    ghost rs: seq<Reading>)
    returns (ghost handed: seq<Target>, deleted: seq<string>, aborted: seq<string>, full: bool)
    requires Drains(first, repo.shares, before, rs) && AllListed(first, before, rs)
    modifies repo
    ensures Drains(first, repo.shares, handed, rs + [r]) && AllListed(first, handed, rs + [r])
    ensures DeletedKeys(handed) == DeletedKeys(before) + deleted && AbortedKeys(handed) == AbortedKeys(before) + aborted
    ensures full ==> |Keyed(repo.shares)| < |Keyed(old(repo.shares))|
    ensures !full ==> EligibleSet(repo.shares, r.listed) == {}
  {
    ghost var was := repo.shares;
    var targets := repo.PurgeExpiredAndBurned(r);
    BatchDrains(first, was, before, rs, r, targets);
    BatchListed(first, was, before, rs, r, targets);
    KeysConcat(before, targets);
    if |targets| == BATCH {
      BatchShrinks(was, r, targets);
    }
    deleted, aborted := DeleteTargets(targets);
    handed := before + targets;
    full := |targets| == BATCH;
  }

  /** Every marking succeeds, and the clock stands still. */
  ghost predicate Steady(rs: seq<Reading>, now: int) {
    forall i :: 0 <= i < |rs| ==> rs[i] == Reading(Some(now), now)
  }

  function Remaining(t: Table, now: int): set<Token> {
    EligibleSet(MarkAll(t, now), now)
  }

  lemma {:induction false} SteadyMarked(row: Share, rs: seq<Reading>, now: int)
    requires Steady(rs, now) && rs != []
    ensures MarkedThrough(row, rs) == Marked(row, now)
    decreases |rs|
  {
    var n := |rs| - 1;
    assert rs[n] == Reading(Some(now), now);
    if n > 0 {
      assert forall i :: 0 <= i < n ==> rs[..n][i] == rs[i];
      SteadyMarked(row, rs[..n], now);
    }
  }

  lemma SteadyListed(first: Table, target: Target, rs: seq<Reading>, now: int)
    requires Steady(rs, now) && WasListed(first, target, rs)
    ensures target.token in Remaining(first, now) && target.status != Uploading
    ensures var row := Marked(first[target.token], now);
            target == Target(target.token, row.key, row.uploadId, row.status)
  {
    var j: nat :| ListedBy(first, target, rs, j);
    assert forall i :: 0 <= i < j + 1 ==> rs[..j + 1][i] == rs[i];
    SteadyMarked(first[target.token], rs[..j + 1], now);
    assert rs[j] == Reading(Some(now), now);
  }

  /** At a fixed time the drain ends in the drained table, has handed out what was left, and has aborted nothing. */
  lemma SteadyDrains(first: Table, t: Table, handed: seq<Target>, rs: seq<Reading>, now: int)
    requires Drains(first, t, handed, rs) && AllListed(first, handed, rs) && rs != [] && Steady(rs, now)
    requires EligibleSet(t, now) == {}
    ensures t == DrainedTable(first, now) && TokensOf(handed) == Remaining(first, now)
    ensures CopiesOf(handed, MarkAll(first, now)) && DeletedKeys(handed) == KeysOf(handed) && AbortedKeys(handed) == []
  {
    forall i | 0 <= i < |handed|
      ensures handed[i].token in Remaining(first, now) && handed[i].status != Uploading
      ensures var row := Marked(first[handed[i].token], now);
              handed[i] == Target(handed[i].token, row.key, row.uploadId, row.status)
    {
      assert WasListed(first, handed[i], rs);
      SteadyListed(first, handed[i], rs, now);
    }
    NoneAborted(handed);
    SteadyTokens(first, t, handed, rs, now);
    forall k | k in first ensures t[k] == Drained(first[k], now) {
      SteadyMarked(first[k], rs, now);
    }
  }

  /** The same, for whatever time the clock may have stood at. */
  lemma SteadyEnds(first: Table, t: Table, handed: seq<Target>, rs: seq<Reading>)
    requires Drains(first, t, handed, rs) && AllListed(first, handed, rs) && rs != []
    requires EligibleSet(t, rs[|rs| - 1].listed) == {}
    ensures forall now :: Steady(rs, now) ==>
      && t == DrainedTable(first, now) && TokensOf(handed) == Remaining(first, now)
      && CopiesOf(handed, MarkAll(first, now)) && DeletedKeys(handed) == KeysOf(handed) && AbortedKeys(handed) == []
  {
    forall now | Steady(rs, now)
      ensures t == DrainedTable(first, now) && TokensOf(handed) == Remaining(first, now)
      ensures CopiesOf(handed, MarkAll(first, now))
      ensures DeletedKeys(handed) == KeysOf(handed) && AbortedKeys(handed) == []
    {
      assert rs[|rs| - 1] == Reading(Some(now), now);
      SteadyDrains(first, t, handed, rs, now);
    }
  }

  lemma SteadyTokens(first: Table, t: Table, handed: seq<Target>, rs: seq<Reading>, now: int)
    requires Drains(first, t, handed, rs) && rs != [] && Steady(rs, now) && EligibleSet(t, now) == {}
    requires forall i :: 0 <= i < |handed| ==> handed[i].token in Remaining(first, now)
    ensures TokensOf(handed) == Remaining(first, now)
  {
    forall k | k in TokensOf(handed) ensures k in Remaining(first, now) {
      TokenIn(handed, k);
    }
    forall k | k in Remaining(first, now) ensures k in TokensOf(handed) {
      SteadyMarked(first[k], rs, now);
      assert k !in TokensOf(handed) ==> k in EligibleSet(t, now);
    }
  }

  /** The readings of the first n batches. */
  function Readings(clock: nat -> Reading, n: nat): seq<Reading> {
    seq(n, i requires 0 <= i < n => clock(i))
  }

  /**
   The drain loop, with any clock and with marking updates that may fail; `batches` counts its rounds. It ends; each row
   is handed out at most once, by a batch that found it eligible, and cleared; every other row is as the marking leaves
   it; nothing eligible at the last listing is left; each handed row's object is deleted, or its upload aborted. At a
   fixed time and with successful marking this is the drained table, and no upload is aborted.
   */
  method CleanupEphemeral(repo: EphemeralShareRepository, clock: nat -> Reading)
    returns (ghost handed: seq<Target>, deleted: seq<string>, aborted: seq<string>, batches: nat)
    modifies repo
    ensures batches > 0 && Drains(old(repo.shares), repo.shares, handed, Readings(clock, batches))
    ensures AllListed(old(repo.shares), handed, Readings(clock, batches))
    ensures EligibleSet(repo.shares, clock(batches - 1).listed) == {}
    ensures deleted == DeletedKeys(handed) && aborted == AbortedKeys(handed)
    ensures forall now :: Steady(Readings(clock, batches), now) ==>
      && repo.shares == DrainedTable(old(repo.shares), now) && TokensOf(handed) == Remaining(old(repo.shares), now)
      && CopiesOf(handed, MarkAll(old(repo.shares), now)) && deleted == KeysOf(handed) && aborted == []
  {
    handed, deleted, aborted, batches := [], [], [], 0;
    ghost var first := repo.shares;
    assert TokensOf([]) == {};
    var more := true;
    while more
      invariant Drains(first, repo.shares, handed, Readings(clock, batches))
      invariant AllListed(first, handed, Readings(clock, batches))
      invariant deleted == DeletedKeys(handed) && aborted == AbortedKeys(handed)
      invariant !more ==> batches > 0 && EligibleSet(repo.shares, clock(batches - 1).listed) == {}
      decreases more, |Keyed(repo.shares)|
    {
      var gone, stopped;
      assert Readings(clock, batches + 1) == Readings(clock, batches) + [clock(batches)];
      handed, gone, stopped, more := PurgeBatch(repo, clock(batches), first, handed, Readings(clock, batches));
      deleted, aborted := deleted + gone, aborted + stopped;
      batches := batches + 1;
    }
    assert Readings(clock, batches)[batches - 1] == clock(batches - 1);
    SteadyEnds(first, repo.shares, handed, Readings(clock, batches));
  }

  lemma {:induction false} TokensOfConcat(a: seq<Target>, b: seq<Target>)
    ensures TokensOf(a + b) == TokensOf(a) + TokensOf(b)
    decreases |b|
  {
    if b == [] {
      assert a + b == a;
    } else {
      var rest := b[..|b| - 1];
      assert (a + b)[..|a + b| - 1] == a + rest;
      TokensOfConcat(a, rest);
    }
  }
}
