/** What a guest upload, its completion and the hourly sweep come to, in terms of the tables alone. */
module InviteOutcomes {
  import opened Totals
  import opened InviteProtocol
  import opened InviteService

  // ---------------------------------------------------------------- create

  /** The invite is open at this time and has room for one more file of this size. */
  predicate HasRoom(row: Invite, size: nat, now: int) {
    row.status == ActiveInvite && now < row.expiresAt
    && row.maxBytes - row.usedBytes >= size && row.maxFiles > row.usedFiles
  }

  /**
   One create. It is linked exactly when the invite has room and both storage steps succeed; usage then grows by
   the file and its bytes. Otherwise no usage is kept and no link made, and only an invite past its time changes.
   */
  lemma CreateOutcome(s: Store, invite: Id, size: nat, sessionOk: bool, linkOk: bool, newId: Id, now: int)
    requires newId !in s.files && newId !in s.links && invite in s.invites
    requires 0 <= s.invites[invite].usedBytes && 0 <= s.invites[invite].usedFiles
    ensures var end := Run(Db(s, map[]), CreateRun(invite, size, sessionOk, linkOk, newId, now)).s;
            var row := s.invites[invite];
            && (newId in end.links <==> HasRoom(row, size, now) && sessionOk && linkOk)
            && (newId in end.links ==>
                  && end.links == s.links[newId := Link(invite, now)]
                  && end.files == s.files[newId := File(size, Uploading)]
                  && end.invites == s.invites[invite := row.(usedBytes := row.usedBytes + size,
                                                             usedFiles := row.usedFiles + 1)])
            && (newId !in end.links ==>
                  && end.links == s.links
                  && end.invites == (if row.status == ActiveInvite && row.expiresAt < now
                                     then s.invites[invite := row.(status := ExpiredInvite)] else s.invites)
                  && (end.files == s.files || end.files == s.files[newId := File(size, Failed)]))
            && end.released == s.released
  {
    CreateRunEnds(s, invite, size, sessionOk, linkOk, newId, now);
    var row := s.invites[invite];
    if CanReserve(row, size, now) {
      CreateRoom(s, invite, size, sessionOk, linkOk, newId, now);
    }
  }

  lemma CreateRoom(s: Store, invite: Id, size: nat, sessionOk: bool, linkOk: bool, newId: Id, now: int)
    requires newId !in s.files && newId !in s.links && invite in s.invites && HasRoom(s.invites[invite], size, now)
    requires 0 <= s.invites[invite].usedBytes && 0 <= s.invites[invite].usedFiles
    ensures var end := CreateEnd(s, invite, size, sessionOk, linkOk, newId, now);
            var row := s.invites[invite];
            && end.released == s.released && (newId in end.links <==> sessionOk && linkOk)
            && (newId in end.links ==>
                  && end.links == s.links[newId := Link(invite, now)]
                  && end.files == s.files[newId := File(size, Uploading)]
                  && end.invites == s.invites[invite := row.(usedBytes := row.usedBytes + size,
                                                             usedFiles := row.usedFiles + 1)])
            && (newId !in end.links ==>
                  && end.links == s.links && end.invites == s.invites
                  && (end.files == s.files || end.files == s.files[newId := File(size, Failed)]))
  {
    var row := s.invites[invite];
    assert Credited(Reserved(row, size), size) == row;
    assert s.invites[invite := Reserved(row, size)][invite := row] == s.invites;
  }

  // ---------------------------------------------------------------- complete

  /** The file is a running upload of the invite. */
  predicate Running(s: Store, invite: Id, file: Id) {
    && invite in s.invites && file in s.files && file in s.links
    && s.links[file].invite == invite && s.files[file].status == Uploading
  }

  /**
   One completion of a running upload: to the scan when the invite is open and the content valid, FAILED with its
   capacity given back when the invite is revoked or the content invalid, and untouched past its time.
   */
  lemma CompleteOutcome(s: Store, invite: Id, file: Id, valid: bool, now: int)
    ensures var end := Run(Db(s, map[]), CompleteRun(invite, file, valid, now)).s;
            if !Running(s, invite, file) then end == s
            else
              var row, size := s.invites[invite], s.files[file].size;
              var open := row.status == ActiveInvite && now <= row.expiresAt;
              if open && valid then end == s.(files := s.files[file := File(size, PendingScan)])
              else if open || row.status == RevokedInvite then
                && end.files == s.files[file := File(size, Failed)] && end.links == s.links
                && end.invites == s.invites[invite := row.(usedBytes := Greatest(row.usedBytes - size, 0),
                                                           usedFiles := Greatest(row.usedFiles - 1, 0))]
              else end == s
  {
    CompleteRunEnds(s, invite, file, valid, now);
  }

  lemma GreatestIs(x: int, y: int)
    ensures Greatest(x, y) >= x && Greatest(x, y) >= y && (Greatest(x, y) == x || Greatest(x, y) == y)
  {}

  // ---------------------------------------------------------------- the sweep

  /** The file is a running upload that was linked more than two hours ago. */
  predicate Abandoned(s: Store, file: Id, now: int) {
    file in s.files && file in s.links && s.files[file].status == Uploading && s.links[file].createdAt + 7200 < now
  }

  /** A sweep over the files that the database lists fails exactly the abandoned uploads among them. */
  lemma SweepFails(s: Store, order: seq<Id>, now: int)
    ensures var end := SweepRun(s, order, now).s;
            && end.links == s.links && end.files.Keys == s.files.Keys
            && forall f :: f in s.files ==>
                 var status := if f in order && Abandoned(s, f, now) then Failed else s.files[f].status;
                 end.files[f] == File(s.files[f].size, status)
  {
    SweepOutSwept(Apply(Db(s, map[]), BeginSweep(0, order, now)), 0);
    StaleRowsComplete(s, order, now);
    StaleRowsExact(s, order, now);
  }

  /** What the sweep gives back to the invite for each of its links. */
  ghost function Reclaimed(s: Store, order: seq<Id>, now: int, q: Quantity, i: Id): map<Id, nat> {
    map f | f in s.links ::
      if s.links[f].invite == i && f in order && Abandoned(s, f, now) then Amount(q, s.files[f].size) else 0
  }

  lemma {:induction false} TotalSplits<K>(m: map<K, nat>, a: map<K, nat>, b: map<K, nat>)
    requires m.Keys == a.Keys == b.Keys && forall k :: k in m ==> m[k] == a[k] + b[k]
    ensures Total(m) == Total(a) + Total(b)
    decreases |m|
  {
    if m != map[] {
      var k := Pick(m);
      TotalRemove(a, k);
      TotalRemove(b, k);
      TotalSplits(m - {k}, a - {k}, b - {k});
    } else {
      assert a == map[] && b == map[];
    }
  }

  /** From a sound state the sweep lowers an invite's usage by exactly its abandoned uploads, in bytes and in files. */
  lemma SweepReleases(s: Store, order: seq<Id>, now: int, i: Id, q: Quantity)
    requires Sound(Db(s, map[])) && i in s.invites
    ensures var end := SweepRun(s, order, now).s;
            i in end.invites && Used(end.invites[i], q) == Used(s.invites[i], q) - Total(Reclaimed(s, order, now, q, i))
  {
    var end := SweepRun(s, order, now).s;
    SweepSettles(s, order, now);
    SweepFails(s, order, now);
    SweepKeepsInvites(s, order, now, i);
    QuiescentUsage(Db(s, map[]), i, q);
    QuiescentUsage(Db(end, map[]), i, q);
    HoldsSplit(s, end, order, now, i, q);
    TotalSplits(LinkHolds(s, q, i), LinkHolds(end, q, i), Reclaimed(s, order, now, q, i));
  }

  lemma HoldsSplit(s: Store, end: Store, order: seq<Id>, now: int, i: Id, q: Quantity)
    requires end.links == s.links && forall f :: f in s.links ==> f in s.files && f in end.files
    requires forall f :: f in s.files ==>
               var status := if f in order && Abandoned(s, f, now) then Failed else s.files[f].status;
               f in end.files && end.files[f] == File(s.files[f].size, status)
    ensures forall f :: f in s.links ==>
              LinkHolds(s, q, i)[f] == LinkHolds(end, q, i)[f] + Reclaimed(s, order, now, q, i)[f]
  {}

  /** The sweep changes nothing of an invite but its usage. */
  lemma SweepKeepsInvites(s: Store, order: seq<Id>, now: int, i: Id)
    requires i in s.invites
    ensures var end := SweepRun(s, order, now).s;
            i in end.invites && end.invites[i] == s.invites[i].(usedBytes := end.invites[i].usedBytes,
                                                                usedFiles := end.invites[i].usedFiles)
  {
    SweepRunIs(s, order, now);
    SweepKeepsRow(s, StaleRows(s, order, now), i);
  }

  lemma {:induction false} SweepKeepsRow(s: Store, rows: seq<StaleRow>, i: Id)
    requires i in s.invites
    ensures var end := Sweep(s, rows);
            i in end.invites && end.invites[i] == s.invites[i].(usedBytes := end.invites[i].usedBytes,
                                                                usedFiles := end.invites[i].usedFiles)
    decreases |rows|
  {
    if rows != [] {
      SweepKeepsRow(Turn(s, rows[0]), rows[1..], i);
    }
  }

  /** An invite none of whose listed uploads is abandoned is left as it was. */
  lemma SweepSpares(s: Store, order: seq<Id>, now: int, i: Id)
    requires Sound(Db(s, map[])) && i in s.invites
    requires forall f :: f in s.links && s.links[f].invite == i && f in order ==>
               f !in s.files || s.files[f].status != Uploading || s.links[f].createdAt >= now - 7200
    ensures i in SweepRun(s, order, now).s.invites && SweepRun(s, order, now).s.invites[i] == s.invites[i]
  {
    SweepKeepsInvites(s, order, now, i);
    forall q: Quantity ensures Used(SweepRun(s, order, now).s.invites[i], q) == Used(s.invites[i], q) {
      SweepReleases(s, order, now, i, q);
      TotalZero(Reclaimed(s, order, now, q, i));
    }
    assert Used(s.invites[i], Bytes) == s.invites[i].usedBytes && Used(s.invites[i], Files) == s.invites[i].usedFiles;
    assert Used(SweepRun(s, order, now).s.invites[i], Bytes) == SweepRun(s, order, now).s.invites[i].usedBytes;
    assert Used(SweepRun(s, order, now).s.invites[i], Files) == SweepRun(s, order, now).s.invites[i].usedFiles;
  }

  // ---------------------------------------------------------------- the grace, over every interleaving

  function RowsOf(th: Thread): seq<StaleRow> {
    match th
    case Sweeping(rows) => rows
    case Reclaiming(_, rest) => rest
    case _ => []
  }

  /** Every upload a sweep has listed was linked more than two hours before `latest`. */
  ghost predicate Graced(db: Db, latest: int) {
    forall t, k :: t in db.threads && 0 <= k < |RowsOf(db.threads[t])| ==>
      var f := RowsOf(db.threads[t])[k].file; f in db.s.links && db.s.links[f].createdAt + 7200 < latest
  }

  /** No sweep begins after `latest`. */
  predicate SweepsBy(run: seq<Action>, latest: int) {
    forall k :: 0 <= k < |run| && run[k].BeginSweep? ==> run[k].now <= latest
  }

  /** A link row is never changed. */
  lemma LinksStay(db: Db, a: Action, f: Id)
    requires Shaped(db) && f in db.s.links
    ensures f in Apply(db, a).s.links && Apply(db, a).s.links[f] == db.s.links[f]
  {
    if a.Proceed? && a.t in db.threads {
      assert ThreadOk(db.s, db.threads[a.t]);
    }
  }

  lemma RowsListed(s: Store, order: seq<Id>, now: int, k: nat)
    requires k < |StaleRows(s, order, now)|
    ensures var f := StaleRows(s, order, now)[k].file; f in s.links && s.links[f].createdAt + 7200 < now
  {
    StaleRowsExact(s, order, now);
    assert StaleRows(s, order, now)[k] in StaleRows(s, order, now);
  }

  lemma GracedKept(db: Db, a: Action, latest: int)
    requires Shaped(db) && Graced(db, latest) && (a.BeginSweep? ==> a.now <= latest)
    ensures Graced(Apply(db, a), latest)
  {
    var next := Apply(db, a);
    forall t, k | t in next.threads && 0 <= k < |RowsOf(next.threads[t])|
      ensures var f := RowsOf(next.threads[t])[k].file; f in next.s.links && next.s.links[f].createdAt + 7200 < latest
    {
      if t in db.threads && RowsOf(next.threads[t]) == RowsOf(db.threads[t]) {
        LinksStay(db, a, RowsOf(db.threads[t])[k].file);
      } else if a.BeginSweep? {
        RowsListed(db.s, a.order, a.now, k);
      } else {
        var rows := RowsOf(db.threads[t]);
        assert RowsOf(next.threads[t]) == rows[1..] && rows[1..][k] == rows[k + 1];
        LinksStay(db, a, rows[k + 1].file);
      }
    }
  }

  /**
   Over every interleaving of creates, completions and sweeps that begin no later than `latest`: a sweep's statement
   never fails a file linked within two hours of `latest`.
   */
  lemma {:induction false} GraceOverRuns(db: Db, run: seq<Action>, latest: int, t: Id, f: Id, ok: bool, now: int)
    requires Shaped(db) && Graced(db, latest) && SweepsBy(run, latest)
    ensures var mid := Run(db, run);
            t in mid.threads && mid.threads[t].Sweeping? && f in mid.s.files && f in mid.s.links
            && mid.s.links[f].createdAt >= latest - 7200 ==>
              f in Advance(mid, t, ok, 0, now).s.files && Advance(mid, t, ok, 0, now).s.files[f] == mid.s.files[f]
    decreases |run|
  {
    if run != [] {
      assert forall k :: 0 <= k < |run[1..]| ==> run[1..][k] == run[k + 1];
      ShapeKept(db, run[0]);
      GracedKept(db, run[0], latest);
      GraceOverRuns(Apply(db, run[0]), run[1..], latest, t, f, ok, now);
    } else if t in db.threads && db.threads[t].Sweeping? && db.threads[t].rows != [] {
      assert RowsOf(db.threads[t])[0] == db.threads[t].rows[0];
    }
  }

  // ---------------------------------------------------------------- invites

  /** Only the owner's active invite is revoked; nothing else changes. */
  lemma RevokeOutcome(s: Store, invite: Id, user: Id)
    ensures var end := Apply(Db(s, map[]), Revoke(invite, user));
            if invite in s.invites && s.invites[invite].owner == user && s.invites[invite].status == ActiveInvite
            then end == Db(s.(invites := s.invites[invite := s.invites[invite].(status := RevokedInvite)]), map[])
            else end == Db(s, map[])
  {}

  /** Exactly the active invites whose time has come expire; nothing else changes. */
  lemma ExpireOutcome(s: Store, now: int)
    ensures var end := Apply(Db(s, map[]), Expire(now)).s;
            && end == s.(invites := end.invites) && end.invites.Keys == s.invites.Keys
            && forall i :: i in s.invites ==>
                 var over := s.invites[i].status == ActiveInvite && now >= s.invites[i].expiresAt;
                 end.invites[i] == if over then s.invites[i].(status := ExpiredInvite) else s.invites[i]
  {}
}
