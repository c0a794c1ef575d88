/** The guest-upload operations as the service runs them, each proved to be a run of the protocol. */
module InviteService {
  import opened Totals
  import opened InviteProtocol

  datatype Outcome = Accepted(file: Id) | Refused

  /** One guest create, nothing interleaved. */
  function CreateRun(invite: Id, size: nat, sessionOk: bool, linkOk: bool, newId: Id, now: int): seq<Action> {
    [BeginCreate(0, invite, size, now), Proceed(0, true, newId, now), Proceed(0, sessionOk, newId, now),
     Proceed(0, linkOk, newId, now), Proceed(0, true, newId, now), Proceed(0, true, newId, now)]
  }

  /** One guest completion, nothing interleaved. */
  function CompleteRun(invite: Id, file: Id, valid: bool, now: int): seq<Action> {
    [BeginComplete(0, invite, file, valid, now), Proceed(0, true, 0, now), Proceed(0, true, 0, now)]
  }

  function Held(s: Store, invite: Id, size: nat): Store
    requires invite in s.invites
  {
    s.(invites := s.invites[invite := Reserved(s.invites[invite], size)])
  }

  /** What one create leaves behind, case by case. */
  function CreateEnd(s: Store, invite: Id, size: nat, sessionOk: bool, linkOk: bool, newId: Id, now: int): Store {
    if invite !in s.invites || s.invites[invite].status != ActiveInvite then s
    else if now > s.invites[invite].expiresAt then SetInviteStatus(s, invite, ExpiredInvite)
    else if !CanReserve(s.invites[invite], size, now) then s
    else if !sessionOk then Release(Held(s, invite, size), invite, size)
    else
      var stored := Held(s, invite, size).(files := s.files[newId := File(size, Uploading)]);
      if linkOk then stored.(links := s.links[newId := Link(invite, now)])
      else SetStatus(Release(stored, invite, size), newId, Failed)
  }

  lemma QuietAdvance(db: Db, a: Action)
    requires Quiet(db) && a.Proceed?
    ensures Apply(db, a) == db
  {
    if a.t in db.threads {
      assert db.threads[a.t] == Done && db.threads[a.t := Done] == db.threads;
    }
  }

  lemma {:induction false} QuietRun(db: Db, run: seq<Action>)
    requires Quiet(db) && forall k :: 0 <= k < |run| ==> run[k].Proceed?
    ensures Run(db, run) == db
  {
    if run != [] {
      QuietAdvance(db, run[0]);
      QuietRun(db, run[1..]);
    }
  }

  lemma CreateRunEnds(s: Store, invite: Id, size: nat, sessionOk: bool, linkOk: bool, newId: Id, now: int)
    requires newId !in s.files && newId !in s.links
    ensures var end := Run(Db(s, map[]), CreateRun(invite, size, sessionOk, linkOk, newId, now));
            Quiet(end) && end.s == CreateEnd(s, invite, size, sessionOk, linkOk, newId, now)
  {
    var run := CreateRun(invite, size, sessionOk, linkOk, newId, now);
    if invite in s.invites && s.invites[invite].status == ActiveInvite && now <= s.invites[invite].expiresAt {
      CreateRunStarted(s, invite, size, sessionOk, linkOk, newId, now);
    } else {
      QuietRun(Apply(Db(s, map[]), run[0]), run[1..]);
    }
  }

  lemma CreateRunStarted(s: Store, invite: Id, size: nat, sessionOk: bool, linkOk: bool, newId: Id, now: int)
    requires newId !in s.files && newId !in s.links
    requires invite in s.invites && s.invites[invite].status == ActiveInvite && now <= s.invites[invite].expiresAt
    ensures var end := Run(Db(s, map[]), CreateRun(invite, size, sessionOk, linkOk, newId, now));
            Quiet(end) && end.s == CreateEnd(s, invite, size, sessionOk, linkOk, newId, now)
  {
    var run := CreateRun(invite, size, sessionOk, linkOk, newId, now);
    var last := Proceed(0, true, newId, now);
    var d1 := Db(s, map[0 := Reserving(invite, size)]);
    assert Apply(Db(s, map[]), run[0]) == d1;
    assert run[1..][0] == last && run[1..][1..] == run[2..];
    if CanReserve(s.invites[invite], size, now) {
      assert Apply(d1, last) == Db(Held(s, invite, size), map[0 := Opening(invite, size)]);
      assert run[2..] == [Proceed(0, sessionOk, newId, now), Proceed(0, linkOk, newId, now), last, last];
      CreateRunReserved(Held(s, invite, size), invite, size, sessionOk, linkOk, newId, now);
    } else {
      assert Apply(d1, last) == Db(s, map[0 := Done]);
      QuietRun(Db(s, map[0 := Done]), run[2..]);
    }
  }

  lemma RunStep(db: Db, a: Action, rest: seq<Action>)
    ensures Run(db, [a] + rest) == Run(Apply(db, a), rest)
  {
    assert ([a] + rest)[1..] == rest;
  }

  lemma CreateRunReserved(held: Store, invite: Id, size: nat, sessionOk: bool, linkOk: bool, newId: Id, now: int)
    requires newId !in held.files && newId !in held.links && invite in held.invites
    ensures var last := Proceed(0, true, newId, now);
            var run := [Proceed(0, sessionOk, newId, now), Proceed(0, linkOk, newId, now), last, last];
            var end := Run(Db(held, map[0 := Opening(invite, size)]), run);
            var stored := held.(files := held.files[newId := File(size, Uploading)]);
            Quiet(end) && end.s == if !sessionOk then Release(held, invite, size)
                                   else if linkOk then stored.(links := held.links[newId := Link(invite, now)])
                                   else SetStatus(Release(stored, invite, size), newId, Failed)
  {
    var last := Proceed(0, true, newId, now);
    var open, link := Proceed(0, sessionOk, newId, now), Proceed(0, linkOk, newId, now);
    var d0 := Db(held, map[0 := Opening(invite, size)]);
    assert [open, link, last, last] == [open] + ([link] + [last, last]);
    RunStep(d0, open, [link] + [last, last]);
    RunStep(Apply(d0, open), link, [last, last]);
    if sessionOk && !linkOk {
      var stored := held.(files := held.files[newId := File(size, Uploading)]);
      CreateRunLinkFails(held, invite, size, newId, now);
      CreateRunUnwinds(stored, invite, size, newId, last);
    } else {
      CreateRunDone(held, invite, size, sessionOk, linkOk, newId, now);
      QuietRun(Apply(Apply(d0, open), link), [last, last]);
    }
  }

  lemma CreateRunDone(held: Store, invite: Id, size: nat, sessionOk: bool, linkOk: bool, newId: Id, now: int)
    requires newId !in held.files && newId !in held.links && invite in held.invites && (sessionOk ==> linkOk)
    ensures var d0 := Db(held, map[0 := Opening(invite, size)]);
            Apply(Apply(d0, Proceed(0, sessionOk, newId, now)), Proceed(0, linkOk, newId, now))
            == Db(if sessionOk
                  then held.(files := held.files[newId := File(size, Uploading)],
                             links := held.links[newId := Link(invite, now)])
                  else Release(held, invite, size), map[0 := Done])
  {}

  lemma CreateRunLinkFails(held: Store, invite: Id, size: nat, newId: Id, now: int)
    requires newId !in held.files && newId !in held.links && invite in held.invites
    ensures var d0 := Db(held, map[0 := Opening(invite, size)]);
            Apply(Apply(d0, Proceed(0, true, newId, now)), Proceed(0, false, newId, now))
            == Db(held.(files := held.files[newId := File(size, Uploading)]), map[0 := Unwinding(invite, newId, size)])
  {}

  lemma CreateRunUnwinds(stored: Store, invite: Id, size: nat, newId: Id, last: Action)
    requires last.Proceed? && last.t == 0
    ensures Run(Db(stored, map[0 := Unwinding(invite, newId, size)]), [last, last])
         == Db(SetStatus(Release(stored, invite, size), newId, Failed), map[0 := Done])
  {
    var d2 := Db(stored, map[0 := Unwinding(invite, newId, size)]);
    var d3 := Db(Release(stored, invite, size), map[0 := Discarding(newId)]);
    RunStep(d2, last, [last]);
    assert Apply(d2, last) == d3;
    RunStep(d3, last, []);
  }

  /** One create keeps every invariant of the protocol. */
  lemma CreateSound(s: Store, invite: Id, size: nat, sessionOk: bool, linkOk: bool, newId: Id, now: int)
    requires Sound(Db(s, map[])) && newId !in s.files && newId !in s.links
    ensures Sound(Db(CreateEnd(s, invite, size, sessionOk, linkOk, newId, now), map[]))
  {
    var run := CreateRun(invite, size, sessionOk, linkOk, newId, now);
    RunSoundFrom(Db(s, map[]), run, -1);
    CreateRunEnds(s, invite, size, sessionOk, linkOk, newId, now);
    QuietSound(Run(Db(s, map[]), run));
  }

  /** What one completion leaves behind, case by case. */
  function CompleteEnd(s: Store, invite: Id, file: Id, valid: bool, now: int): Store {
    if !(invite in s.invites && file in s.links && file in s.files
         && s.links[file].invite == invite && s.files[file].status == Uploading) then s
    else if s.invites[invite].status != RevokedInvite
            && (s.invites[invite].status != ActiveInvite || now > s.invites[invite].expiresAt) then s
    else if s.invites[invite].status == ActiveInvite && valid then SetStatus(s, file, PendingScan)
    else CountRelease(Release(SetStatus(s, file, Failed), invite, s.files[file].size), file)
  }

  lemma CompleteRunEnds(s: Store, invite: Id, file: Id, valid: bool, now: int)
    ensures var end := Run(Db(s, map[]), CompleteRun(invite, file, valid, now));
            Quiet(end) && end.s == CompleteEnd(s, invite, file, valid, now)
  {
    var run := CompleteRun(invite, file, valid, now);
    var d1 := Apply(Db(s, map[]), run[0]);
    assert run[1..][1..] == [run[2]] && [run[2]][1..] == [];
    if 0 in d1.threads && d1.threads[0].Rejecting? {
      assert Run(Apply(d1, run[1]), [run[2]]) == Apply(Apply(d1, run[1]), run[2]);
    } else if 0 in d1.threads {
      QuietRun(Apply(d1, run[1]), [run[2]]);
    } else {
      QuietRun(d1, run[1..]);
    }
  }

  /** One completion keeps every invariant of the protocol. */
  lemma CompleteSound(s: Store, invite: Id, file: Id, valid: bool, now: int)
    requires Sound(Db(s, map[]))
    ensures Sound(Db(CompleteEnd(s, invite, file, valid, now), map[]))
  {
    var run := CompleteRun(invite, file, valid, now);
    RunSoundFrom(Db(s, map[]), run, -1);
    CompleteRunEnds(s, invite, file, valid, now);
    QuietSound(Run(Db(s, map[]), run));
  }

  predicate SweepsOn(db: Db, t: Id) {
    t in db.threads && (db.threads[t].Sweeping? || db.threads[t].Reclaiming?)
  }

  function RowsLeft(th: Thread): nat {
    match th
    case Sweeping(rows) => 2 * |rows| + 1
    case Reclaiming(_, rest) => 2 * |rest| + 2
    case _ => 0
  }

  /** A sweep run to its end, nothing interleaved. */
  function SweepOut(db: Db, t: Id): Db
    decreases if t in db.threads then RowsLeft(db.threads[t]) else 0
  {
    if SweepsOn(db, t) then SweepOut(Advance(db, t, true, 0, 0), t) else db
  }

  function SweepRun(s: Store, order: seq<Id>, now: int): Db {
    SweepOut(Apply(Db(s, map[]), BeginSweep(0, order, now)), 0)
  }

  /** One turn of the sweep's loop: claim by compare-and-set, then release what was claimed. */
  function Turn(s: Store, row: StaleRow): Store {
    if Claimable(s, row.file)
    then CountRelease(Release(SetStatus(s, row.file, Failed), row.invite, row.size), row.file)
    else s
  }

  function Sweep(s: Store, rows: seq<StaleRow>): Store
    decreases |rows|
  {
    if rows == [] then s else Sweep(Turn(s, rows[0]), rows[1..])
  }

  lemma {:induction false} SweepIsRun(s: Store, rows: seq<StaleRow>)
    ensures SweepOut(Db(s, map[0 := Sweeping(rows)]), 0) == Db(Sweep(s, rows), map[0 := Done])
    decreases |rows|
  {
    if rows != [] {
      TurnIsRun(s, rows[0], rows[1..]);
      assert rows == [rows[0]] + rows[1..];
      SweepIsRun(Turn(s, rows[0]), rows[1..]);
    } else {
      assert Advance(Db(s, map[0 := Sweeping([])]), 0, true, 0, 0) == Db(s, map[0 := Done]);
    }
  }

  lemma SweepRunIs(s: Store, order: seq<Id>, now: int)
    ensures SweepRun(s, order, now).s == Sweep(s, StaleRows(s, order, now))
  {
    var rows := StaleRows(s, order, now);
    assert Apply(Db(s, map[]), BeginSweep(0, order, now)) == Db(s, map[0 := Sweeping(rows)]);
    SweepIsRun(s, rows);
  }

  lemma TurnIsRun(s: Store, row: StaleRow, rest: seq<StaleRow>)
    ensures SweepOut(Db(s, map[0 := Sweeping([row] + rest)]), 0)
      == SweepOut(Db(Turn(s, row), map[0 := Sweeping(rest)]), 0)
  {
    var at := Db(s, map[0 := Sweeping([row] + rest)]);
    assert ([row] + rest)[1..] == rest;
    if Claimable(s, row.file) {
      var mid := Db(SetStatus(s, row.file, Failed), map[0 := Reclaiming(row, rest)]);
      assert Advance(at, 0, true, 0, 0) == mid;
      ReclaimIsRun(mid.s, row, rest);
    } else {
      assert Advance(at, 0, true, 0, 0) == Db(s, map[0 := Sweeping(rest)]);
    }
  }

  lemma ReclaimIsRun(s: Store, row: StaleRow, rest: seq<StaleRow>)
    ensures SweepOut(Db(s, map[0 := Reclaiming(row, rest)]), 0)
         == SweepOut(Db(CountRelease(Release(s, row.invite, row.size), row.file), map[0 := Sweeping(rest)]), 0)
  {
    assert Advance(Db(s, map[0 := Reclaiming(row, rest)]), 0, true, 0, 0)
        == Db(CountRelease(Release(s, row.invite, row.size), row.file), map[0 := Sweeping(rest)]);
  }

  predicate Quiet(db: Db) {
    forall t :: t in db.threads ==> db.threads[t] == Done
  }

  lemma QuietSound(db: Db)
    requires Sound(db) && Quiet(db)
    ensures Sound(Db(db.s, map[]))
  {
    var next := Db(db.s, map[]);
    forall i, q | i in next.s.invites ensures AccountsFor(next, q, i) {
      QuiescentUsage(db, i, q);
      assert ThreadHolds(next, q, i) == map[];
    }
    forall f: Id ensures ReleaseDue(next, f) {
      assert ReleaseDue(db, f);
      TotalZero(Claims(db, f));
      assert Claims(next, f) == map[];
    }
  }

  /** What a sweep from row k on does to the files. */
  ghost predicate Swept(s: Store, th: Thread, end: Store) {
    && end.files.Keys == s.files.Keys && end.links == s.links
    && forall f :: f in s.files ==>
         end.files[f]
         == if Listed(th, f) && s.files[f].status == Uploading then s.files[f].(status := Failed) else s.files[f]
  }

  lemma {:induction false} SweepOutSound(db: Db, t: Id)
    requires Sound(db) && (forall u :: u in db.threads && u != t ==> db.threads[u] == Done)
    requires t in db.threads && (SweepsOn(db, t) || db.threads[t] == Done)
    ensures Sound(SweepOut(db, t)) && Quiet(SweepOut(db, t))
    decreases RowsLeft(db.threads[t])
  {
    if SweepsOn(db, t) {
      var a := Proceed(t, true, 0, 0);
      SoundKept(db, a);
      SweepOutSound(Apply(db, a), t);
    }
  }

  lemma {:induction false} SweepOutSwept(db: Db, t: Id)
    requires t in db.threads && (SweepsOn(db, t) || db.threads[t] == Done)
    ensures Swept(db.s, db.threads[t], SweepOut(db, t).s)
    decreases RowsLeft(db.threads[t])
  {
    if SweepsOn(db, t) {
      var next := Advance(db, t, true, 0, 0);
      SweepOutSwept(next, t);
      forall f | f in db.s.files
        ensures SweepOut(db, t).s.files[f] == if Listed(db.threads[t], f) && db.s.files[f].status == Uploading
                                              then db.s.files[f].(status := Failed) else db.s.files[f]
      {
        if db.threads[t].Sweeping? && db.threads[t].rows != [] {
          ListedStep(db.threads[t], f);
        }
      }
    }
  }

  predicate Listed(th: Thread, f: Id) {
    match th
    case Sweeping(rows) => exists row :: row in rows && row.file == f
    case Reclaiming(_, rest) => exists row :: row in rest && row.file == f
    case _ => false
  }

  lemma ListedStep(th: Thread, f: Id)
    requires th.Sweeping? && th.rows != []
    ensures Listed(th, f) <==> th.rows[0].file == f || Listed(Sweeping(th.rows[1..]), f)
  {
    assert th.rows == [th.rows[0]] + th.rows[1..];
    if th.rows[0].file == f {
      assert th.rows[0] in th.rows;
    }
  }

  class UploadInviteService {
    var invites: map<Id, Invite>
    var files: map<Id, File>
    var links: map<Id, Link>
    ghost var released: map<Id, nat>

    ghost function State(): Store
      reads this
    {
      Store(invites, files, links, released)
    }

    constructor (invites: map<Id, Invite>)
      ensures State() == Store(invites, map[], map[], map[])
    {
      this.invites := invites;
      files, links, released := map[], map[], map[];
    }

    method ReserveUsage(invite: Id, size: nat, now: int) returns (reserved: bool)
      modifies this`invites
      ensures reserved <==> invite in old(invites) && CanReserve(old(invites)[invite], size, now)
      ensures invites == if reserved then old(invites)[invite := Reserved(old(invites)[invite], size)] else old(invites)
    {
      reserved := invite in invites && CanReserve(invites[invite], size, now);
      if reserved {
        invites := invites[invite := Reserved(invites[invite], size)];
      }
    }

    method ReleaseUsage(invite: Id, size: nat)
      modifies this`invites
      ensures State() == Release(old(State()), invite, size)
    {
      if invite in invites {
        invites := invites[invite := Credited(invites[invite], size)];
      }
    }

    method ClaimStaleUpload(file: Id) returns (claimed: bool)
      modifies this`files
      ensures claimed <==> Claimable(old(State()), file)
      ensures State() == if claimed then SetStatus(old(State()), file, Failed) else old(State())
    {
      claimed := file in files && files[file].status == Uploading;
      if claimed {
        files := files[file := files[file].(status := Failed)];
      }
    }

    method UpdateStatus(file: Id, status: FileStatus)
      modifies this`files
      ensures State() == SetStatus(old(State()), file, status)
    {
      if file in files {
        files := files[file := files[file].(status := status)];
      }
    }

    /** `sessionOk` and `linkOk` are the outcomes of opening the upload session and of RecordFile. */
    method GuestCreateUploadSession(invite: Id, size: nat, sessionOk: bool, linkOk: bool, newId: Id, now: int)
      returns (out: Outcome)
      requires newId !in files && newId !in links
      modifies this
      ensures State() == Run(Db(old(State()), map[]), CreateRun(invite, size, sessionOk, linkOk, newId, now)).s
      ensures out.Accepted?
        <==> sessionOk && linkOk && invite in old(invites) && CanReserve(old(invites)[invite], size, now)
      ensures out.Accepted? ==> out.file == newId && links == old(links)[newId := Link(invite, now)]
    {
      ghost var before := State();
      CreateRunEnds(before, invite, size, sessionOk, linkOk, newId, now);
      if invite !in invites || invites[invite].status != ActiveInvite {
        return Refused;
      }
      if now > invites[invite].expiresAt {
        invites := invites[invite := invites[invite].(status := ExpiredInvite)];
        return Refused;
      }
      var reserved := ReserveUsage(invite, size, now);
      if !reserved {
        return Refused;
      }
      if !sessionOk {
        ReleaseUsage(invite, size);
        return Refused;
      }
      files := files[newId := File(size, Uploading)];
      if !linkOk {
        ReleaseUsage(invite, size);
        UpdateStatus(newId, Failed);
        return Refused;
      }
      links := links[newId := Link(invite, now)];
      return Accepted(newId);
    }

    /** A completion that fails its file gives the capacity back. */
    method RejectUpload(invite: Id, file: Id, size: nat)
      modifies this
      ensures State() == CountRelease(Release(SetStatus(old(State()), file, Failed), invite, size), file)
    {
      UpdateStatus(file, Failed);
      ReleaseUsage(invite, size);
      released := released[file := ValueOr0(released, file) + 1];
    }

    /** `valid` is the outcome of the content validation inside CompleteUpload. */
    method GuestCompleteUpload(invite: Id, file: Id, valid: bool, now: int) returns (out: Outcome)
      modifies this
      ensures State() == Run(Db(old(State()), map[]), CompleteRun(invite, file, valid, now)).s
      ensures out.Accepted? <==> valid && file in old(links) && old(links)[file].invite == invite
                                 && file in old(files) && old(files)[file].status == Uploading
                                 && invite in old(invites) && old(invites)[invite].status == ActiveInvite
                                 && now <= old(invites)[invite].expiresAt
      ensures out.Accepted?
        ==> out.file == file && file in files && files[file].status == PendingScan && invites == old(invites)
    {
      ghost var before := State();
      CompleteRunEnds(before, invite, file, valid, now);
      if invite !in invites || file !in links || links[file].invite != invite
         || file !in files || files[file].status != Uploading {
        return Refused;
      }
      var size := files[file].size;
      if invites[invite].status == RevokedInvite {
        RejectUpload(invite, file, size);
        return Refused;
      }
      if invites[invite].status != ActiveInvite || now > invites[invite].expiresAt {
        return Refused;
      }
      if !valid {
        RejectUpload(invite, file, size);
        return Refused;
      }
      UpdateStatus(file, PendingScan);
      return Accepted(file);
    }

    method RevokeInvite(invite: Id, owner: Id) returns (revoked: bool)
      modifies this`invites
      ensures State() == Apply(Db(old(State()), map[]), Revoke(invite, owner)).s
      ensures revoked <==> invite in old(invites) && MayRevoke(old(invites)[invite], owner)
    {
      if invite !in invites || invites[invite].owner != owner {
        return false;
      }
      if invites[invite].status != ActiveInvite {
        return false;
      }
      invites := invites[invite := invites[invite].(status := RevokedInvite)];
      return true;
    }

    method ExpireStaleInvites(now: int)
      modifies this`invites
      ensures State() == Apply(Db(old(State()), map[]), Expire(now)).s
    {
      invites := map i | i in invites ::
        if invites[i].status == ActiveInvite && invites[i].expiresAt <= now
        then invites[i].(status := ExpiredInvite)
        else invites[i];
    }

    /** The body of the sweep's loop. */
    method FailStaleUpload(row: StaleRow)
      modifies this
      ensures State() == Turn(old(State()), row)
    {
      var claimed := ClaimStaleUpload(row.file);
      if claimed {
        ReleaseUsage(row.invite, row.size);
        released := released[row.file := ValueOr0(released, row.file) + 1];
      }
    }

    method SweepRows(rows: seq<StaleRow>)
      modifies this
      ensures State() == Sweep(old(State()), rows)
    {
      ghost var before := State();
      assert rows[0..] == rows;
      for k := 0 to |rows|
        invariant Sweep(before, rows) == Sweep(State(), rows[k..])
      {
        assert rows[k..][0] == rows[k] && rows[k..][1..] == rows[k + 1..];
        FailStaleUpload(rows[k]);
      }
    }

    /** `order` is the order in which the database returns the stale rows. */
    method CleanupAbandonedUploads(order: seq<Id>, now: int)
      modifies this
      ensures State() == SweepRun(old(State()), order, now).s
    {
      SweepRunIs(State(), order, now);
      var rows := ListStaleUploads(order, now);
      SweepRows(rows);
    }

    method ListStaleUploads(order: seq<Id>, now: int) returns (rows: seq<StaleRow>)
      ensures rows == StaleRows(State(), order, now)
    {
      rows := [];
      var k := |order|;
      while k > 0
        invariant 0 <= k <= |order|
        invariant rows == StaleRows(State(), order[k..], now)
      {
        k := k - 1;
        assert order[k..][0] == order[k] && order[k..][1..] == order[k + 1..];
        var f := order[k];
        if f in links && f in files && files[f].status == Uploading && links[f].createdAt < now - TWO_HOURS {
          rows := [StaleRow(links[f].invite, f, files[f].size)] + rows;
        }
      }
    }
  }

  /** The hourly sweep on a sound state: sound again, every stale upload FAILED, every other file untouched. */
  lemma SweepSettles(s: Store, order: seq<Id>, now: int)
    requires Sound(Db(s, map[]))
    ensures var end := SweepRun(s, order, now).s;
            && Sound(Db(end, map[])) && end.files.Keys == s.files.Keys
            && forall f :: f in s.files ==>
                 end.files[f] == if f in order && IsStale(s, f, now) then s.files[f].(status := Failed) else s.files[f]
  {
    var begin := BeginSweep(0, order, now);
    var started := Apply(Db(s, map[]), begin);
    SoundKept(Db(s, map[]), begin);
    SweepOutSound(started, 0);
    SweepOutSwept(started, 0);
    QuietSound(SweepOut(started, 0));
    StaleRowsComplete(s, order, now);
    StaleRowsExact(s, order, now);
  }

  lemma {:induction false} StaleRowsExact(s: Store, order: seq<Id>, now: int)
    ensures forall row | row in StaleRows(s, order, now) :: row.file in order && IsStale(s, row.file, now)
  {
    if order != [] {
      StaleRowsExact(s, order[1..], now);
    }
  }

  lemma {:induction false} StaleRowsComplete(s: Store, order: seq<Id>, now: int)
    ensures forall f :: f in order && IsStale(s, f, now) ==>
      exists row :: row in StaleRows(s, order, now) && row.file == f
  {
    if order != [] {
      StaleRowsComplete(s, order[1..], now);
      var here :=
        if IsStale(s, order[0], now)
        then [StaleRow(s.links[order[0]].invite, order[0], s.files[order[0]].size)]
        else [];
      assert StaleRows(s, order, now) == here + StaleRows(s, order[1..], now);
      forall f | f in order && IsStale(s, f, now)
        ensures exists row :: row in StaleRows(s, order, now) && row.file == f
      {
        if f == order[0] {
          assert here[0] in StaleRows(s, order, now);
        } else {
          var row :| row in StaleRows(s, order[1..], now) && row.file == f;
          assert row in StaleRows(s, order, now);
        }
      }
    }
  }
}
