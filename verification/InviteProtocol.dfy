/**
 The guest-upload protocol of an upload invite, one database statement at a time.

 The tables are maps, every SQL statement is one atomic action, and each request or background
 sweep is a thread that stands between two statements. Any number of threads interleave freely.
 */
module InviteProtocol {
  import opened Totals

  type Id = nat

  datatype InviteStatus = ActiveInvite | RevokedInvite | ExpiredInvite

  datatype Invite = Invite(owner: Id, status: InviteStatus, expiresAt: int, maxBytes: nat, maxFiles: nat,
                           usedBytes: int, usedFiles: int)

  /** Scanned stands for every outcome of the malware scan: READY, BLOCKED or FLAGGED. */
  datatype FileStatus = Uploading | PendingScan | Scanned | Failed

  datatype File = File(size: nat, status: FileStatus)

  /** A row of upload_invite_files. */
  datatype Link = Link(invite: Id, createdAt: int)

  datatype StaleRow = StaleRow(invite: Id, file: Id, size: nat)

  /** Where a thread stands: the name says which statement it executes next. */
  datatype Thread =
    | Done
    | Reserving(invite: Id, size: nat)
    | Opening(invite: Id, size: nat)
    | Refunding(invite: Id, size: nat)
    | Linking(invite: Id, file: Id, size: nat)
    | Unwinding(invite: Id, file: Id, size: nat)
    | Discarding(file: Id)
    | Sweeping(rows: seq<StaleRow>)
    | Reclaiming(row: StaleRow, rest: seq<StaleRow>)
    | Rejecting(invite: Id, file: Id, size: nat)
    | Crediting(invite: Id, file: Id, size: nat)
    | Accepting(invite: Id, file: Id, size: nat)

  /** `released` counts, for each linked file, how often its capacity was given back. */
  datatype Store = Store(invites: map<Id, Invite>, files: map<Id, File>, links: map<Id, Link>, released: map<Id, nat>)

  datatype Db = Db(s: Store, threads: map<Id, Thread>)

  const TWO_HOURS := 7200

  // ---------------------------------------------------------------- single SQL statements

  predicate CanReserve(row: Invite, size: nat, now: int) {
    && row.status == ActiveInvite
    && row.expiresAt > now
    && row.usedBytes + size <= row.maxBytes
    && row.usedFiles + 1 <= row.maxFiles
  }

  predicate MayRevoke(row: Invite, user: Id) {
    row.owner == user && row.status == ActiveInvite
  }

  function Reserved(row: Invite, size: nat): Invite {
    row.(usedBytes := row.usedBytes + size, usedFiles := row.usedFiles + 1)
  }

  function Greatest(x: int, y: int): int {
    if x < y then y else x
  }

  /** ReleaseUsage, with its GREATEST(..., 0) clamp. */
  function Credited(row: Invite, size: nat): Invite {
    row.(usedBytes := Greatest(row.usedBytes - size, 0), usedFiles := Greatest(row.usedFiles - 1, 0))
  }

  function Release(s: Store, invite: Id, size: nat): (r: Store)
    ensures r.invites.Keys == s.invites.Keys
  {
    if invite in s.invites then s.(invites := s.invites[invite := Credited(s.invites[invite], size)]) else s
  }

  function SetStatus(s: Store, file: Id, status: FileStatus): (r: Store)
    ensures r.invites.Keys == s.invites.Keys
  {
    if file in s.files then s.(files := s.files[file := s.files[file].(status := status)]) else s
  }

  function SetInviteStatus(s: Store, invite: Id, status: InviteStatus): (r: Store)
    requires invite in s.invites
    ensures r.invites.Keys == s.invites.Keys && r.files == s.files && r.links == s.links
  {
    s.(invites := s.invites[invite := s.invites[invite].(status := status)])
  }

  function CountRelease(s: Store, file: Id): Store {
    s.(released := s.released[file := ValueOr0(s.released, file) + 1])
  }

  function Park(db: Db, t: Id, thread: Thread): Db {
    db.(threads := db.threads[t := thread])
  }

  predicate IsStale(s: Store, file: Id, now: int) {
    && file in s.links && file in s.files
    && s.files[file].status == Uploading
    && s.links[file].createdAt < now - TWO_HOURS
  }

  /** ListStaleUploads, in whatever order the database returns the rows. */
  function StaleRows(s: Store, order: seq<Id>, now: int): seq<StaleRow> {
    if order == [] then []
    else (if IsStale(s, order[0], now)
          then [StaleRow(s.links[order[0]].invite, order[0], s.files[order[0]].size)] else [])
         + StaleRows(s, order[1..], now)
  }

  // ---------------------------------------------------------------- threads

  datatype Action =
    | BeginCreate(t: Id, invite: Id, size: nat, now: int)
    | BeginSweep(t: Id, order: seq<Id>, now: int)
    | BeginComplete(t: Id, invite: Id, file: Id, valid: bool, now: int)
    | Proceed(t: Id, ok: bool, newId: Id, now: int)
    | Revoke(invite: Id, user: Id)
    | Expire(now: int)
    | Verdict(file: Id)

  predicate Idle(db: Db, t: Id) {
    t !in db.threads || db.threads[t] == Done
  }

  /** The checks of GuestCreateUploadSession before it reserves; an overdue invite is marked expired. */
  function StartCreate(db: Db, t: Id, invite: Id, size: nat, now: int): Db {
    if !(Idle(db, t) && invite in db.s.invites && db.s.invites[invite].status == ActiveInvite) then db
    else if now > db.s.invites[invite].expiresAt
    then db.(s := SetInviteStatus(db.s, invite, ExpiredInvite))
    else Park(db, t, Reserving(invite, size))
  }

  /** GuestCompleteUpload up to its first write. `valid` is the outcome of the file validation. */
  function StartComplete(db: Db, t: Id, invite: Id, file: Id, valid: bool, now: int): Db {
    if !(Idle(db, t) && invite in db.s.invites && file in db.s.links && file in db.s.files
         && db.s.links[file].invite == invite && db.s.files[file].status == Uploading) then db
    else if db.s.invites[invite].status == RevokedInvite then
      Park(db, t, Rejecting(invite, file, db.s.files[file].size))
    else if db.s.invites[invite].status != ActiveInvite || now > db.s.invites[invite].expiresAt then db
    else if valid then Park(db, t, Accepting(invite, file, db.s.files[file].size))
    else Park(db, t, Rejecting(invite, file, db.s.files[file].size))
  }

  /** What the next statement of a thread writes to the tables. */
  function Effect(s: Store, th: Thread, ok: bool, newId: Id, now: int): (r: Store)
    ensures r.invites.Keys == s.invites.Keys
  {
    match th
    case Reserving(i, size) =>
      if i in s.invites && CanReserve(s.invites[i], size, now)
      then s.(invites := s.invites[i := Reserved(s.invites[i], size)]) else s
    case Opening(i, size) =>
      if ok && newId !in s.files && newId !in s.links
      then s.(files := s.files[newId := File(size, Uploading)]) else s
    case Refunding(i, size) => Release(s, i, size)
    case Linking(i, f, size) => if ok then s.(links := s.links[f := Link(i, now)]) else s
    case Unwinding(i, f, size) => Release(s, i, size)
    case Discarding(f) => SetStatus(s, f, Failed)
    case Sweeping(rows) =>
      if rows != [] && Claimable(s, rows[0].file) then SetStatus(s, rows[0].file, Failed) else s
    case Reclaiming(row, rest) => CountRelease(Release(s, row.invite, row.size), row.file)
    case Rejecting(i, f, size) => SetStatus(s, f, Failed)
    case Crediting(i, f, size) => CountRelease(Release(s, i, size), f)
    case Accepting(i, f, size) => SetStatus(s, f, PendingScan)
    case Done => s
  }

  /** Where the thread stands afterwards. */
  function Following(s: Store, th: Thread, ok: bool, newId: Id, now: int): Thread {
    match th
    case Reserving(i, size) =>
      if i in s.invites && CanReserve(s.invites[i], size, now) then Opening(i, size) else Done
    case Opening(i, size) =>
      if ok && newId !in s.files && newId !in s.links then Linking(i, newId, size) else Refunding(i, size)
    case Linking(i, f, size) => if ok then Done else Unwinding(i, f, size)
    case Unwinding(i, f, size) => Discarding(f)
    case Sweeping(rows) =>
      if rows == [] then Done
      else if Claimable(s, rows[0].file) then Reclaiming(rows[0], rows[1..]) else Sweeping(rows[1..])
    case Reclaiming(row, rest) => Sweeping(rest)
    case Rejecting(i, f, size) => Crediting(i, f, size)
    case _ => Done
  }

  /** The compare-and-set of ClaimStaleUpload succeeds. */
  predicate Claimable(s: Store, file: Id) {
    file in s.files && s.files[file].status == Uploading
  }

  /** Thread t executes its next statement. */
  function Advance(db: Db, t: Id, ok: bool, newId: Id, now: int): Db {
    if t !in db.threads then db
    else Db(Effect(db.s, db.threads[t], ok, newId, now),
            db.threads[t := Following(db.s, db.threads[t], ok, newId, now)])
  }

  function ExpireAll(s: Store, now: int): Store {
    s.(invites := map i | i in s.invites ::
          if s.invites[i].status == ActiveInvite && s.invites[i].expiresAt <= now
          then s.invites[i].(status := ExpiredInvite) else s.invites[i])
  }

  function Apply(db: Db, a: Action): Db {
    match a
    case BeginCreate(t, i, size, now) => StartCreate(db, t, i, size, now)
    case BeginSweep(t, order, now) =>
      if Idle(db, t) then Park(db, t, Sweeping(StaleRows(db.s, order, now))) else db
    case BeginComplete(t, i, f, valid, now) => StartComplete(db, t, i, f, valid, now)
    case Proceed(t, ok, newId, now) => Advance(db, t, ok, newId, now)
    case Revoke(i, user) =>
      if i in db.s.invites && MayRevoke(db.s.invites[i], user)
      then db.(s := SetInviteStatus(db.s, i, RevokedInvite)) else db
    case Expire(now) => db.(s := ExpireAll(db.s, now))
    case Verdict(f) =>
      if f in db.s.files && db.s.files[f].status == PendingScan then db.(s := SetStatus(db.s, f, Scanned)) else db
  }

  function Run(db: Db, run: seq<Action>): Db
    decreases |run|
  {
    if run == [] then db else Run(Apply(db, run[0]), run[1..])
  }

  // ---------------------------------------------------------------- accounting

  datatype Quantity = Bytes | Files

  function Amount(q: Quantity, size: nat): nat {
    if q.Bytes? then size else 1
  }

  function Used(row: Invite, q: Quantity): int {
    if q.Bytes? then row.usedBytes else row.usedFiles
  }

  function Limit(row: Invite, q: Quantity): nat {
    if q.Bytes? then row.maxBytes else row.maxFiles
  }

  /** What a thread keeps reserved on invite i without a live link row to show for it. */
  function Hold(th: Thread, q: Quantity, i: Id): nat {
    match th
    case Opening(j, size) => if i == j then Amount(q, size) else 0
    case Refunding(j, size) => if i == j then Amount(q, size) else 0
    case Linking(j, _, size) => if i == j then Amount(q, size) else 0
    case Unwinding(j, _, size) => if i == j then Amount(q, size) else 0
    case Reclaiming(row, _) => if i == row.invite then Amount(q, row.size) else 0
    case Crediting(j, _, size) => if i == j then Amount(q, size) else 0
    case _ => 0
  }

  function LinkHold(s: Store, q: Quantity, i: Id, f: Id): nat {
    if f in s.links && f in s.files && s.links[f].invite == i && s.files[f].status != Failed
    then Amount(q, s.files[f].size) else 0
  }

  ghost function ThreadHolds(db: Db, q: Quantity, i: Id): map<Id, nat> {
    map t | t in db.threads :: Hold(db.threads[t], q, i)
  }

  ghost function LinkHolds(s: Store, q: Quantity, i: Id): map<Id, nat> {
    map f | f in s.links :: LinkHold(s, q, i, f)
  }

  ghost function InFlight(db: Db, q: Quantity, i: Id): nat {
    Total(ThreadHolds(db, q, i))
  }

  /** Total size, or number, of the invite's linked files that are not FAILED. */
  ghost function Linked(s: Store, q: Quantity, i: Id): nat {
    Total(LinkHolds(s, q, i))
  }

  ghost predicate AccountsFor(db: Db, q: Quantity, i: Id)
    requires i in db.s.invites
  {
    Used(db.s.invites[i], q) == InFlight(db, q, i) + Linked(db.s, q, i)
  }

  ghost predicate Accounted(db: Db) {
    forall i, q :: i in db.s.invites ==> AccountsFor(db, q, i)
  }

  predicate Capped(s: Store) {
    forall i :: i in s.invites ==>
      && 0 <= s.invites[i].usedBytes <= s.invites[i].maxBytes
      && 0 <= s.invites[i].usedFiles <= s.invites[i].maxFiles
  }

  // ---------------------------------------------------------------- shape of reachable states

  /** The file row a creating thread has made and not linked. */
  const NO_FILE := -1

  function Owned(th: Thread): int {
    match th
    case Linking(_, f, _) => f
    case Unwinding(_, f, _) => f
    case Discarding(f) => f
    case _ => NO_FILE
  }

  predicate Apart(f: int, g: int) {
    f == NO_FILE || f != g
  }

  predicate RowOk(s: Store, row: StaleRow) {
    && row.file in s.links && row.file in s.files
    && s.links[row.file].invite == row.invite
    && s.files[row.file].size == row.size
  }

  predicate ThreadOk(s: Store, th: Thread) {
    match th
    case Done => true
    case Reserving(i, _) => i in s.invites
    case Opening(i, _) => i in s.invites
    case Refunding(i, _) => i in s.invites
    case Linking(i, f, size) => i in s.invites && f in s.files && f !in s.links && s.files[f] == File(size, Uploading)
    case Unwinding(i, f, size) => i in s.invites && f in s.files && f !in s.links
    case Discarding(f) => f in s.files && f !in s.links
    case Sweeping(rows) => forall row | row in rows :: RowOk(s, row)
    case Reclaiming(row, rest) => RowOk(s, row) && forall r | r in rest :: RowOk(s, r)
    case Rejecting(i, f, size) => RowOk(s, StaleRow(i, f, size))
    case Crediting(i, f, size) => RowOk(s, StaleRow(i, f, size))
    case Accepting(i, f, size) => RowOk(s, StaleRow(i, f, size))
  }

  ghost predicate Shaped(db: Db) {
    && (forall f :: f in db.s.links ==> f in db.s.files && db.s.links[f].invite in db.s.invites)
    && (forall t :: t in db.threads ==> ThreadOk(db.s, db.threads[t]))
    && (forall t, u :: t in db.threads && u in db.threads && t != u
          ==> Apart(Owned(db.threads[t]), Owned(db.threads[u])))
  }

  lemma {:induction false} StaleRowsAreOk(s: Store, order: seq<Id>, now: int)
    ensures forall row | row in StaleRows(s, order, now) :: RowOk(s, row) && s.files[row.file].status == Uploading
  {
    if order != [] {
      StaleRowsAreOk(s, order[1..], now);
    }
  }

  /** The thread an action moves, if it moves one. */
  predicate Moves(a: Action, t: Id) {
    match a
    case BeginCreate(u, _, _, _) => t == u
    case BeginSweep(u, _, _) => t == u
    case BeginComplete(u, _, _, _, _) => t == u
    case Proceed(u, _, _, _) => t == u
    case _ => false
  }

  lemma RowsKept(db: Db, a: Action)
    requires Shaped(db)
    ensures forall row :: RowOk(db.s, row) ==> RowOk(Apply(db, a).s, row)
  {
    if a.Proceed? && a.t in db.threads {
      assert ThreadOk(db.s, db.threads[a.t]);
    }
  }

  lemma WaitingThreadOk(db: Db, a: Action, u: Id)
    requires Shaped(db) && u in db.threads && !Moves(a, u)
    ensures u in Apply(db, a).threads && Apply(db, a).threads[u] == db.threads[u]
    ensures ThreadOk(Apply(db, a).s, db.threads[u])
  {
    RowsKept(db, a);
    assert ThreadOk(db.s, db.threads[u]);
    if a.Proceed? && a.t in db.threads {
      var th := db.threads[a.t];
      assert ThreadOk(db.s, th);
      assert Apart(Owned(db.threads[u]), Owned(th));
      if th.Sweeping? && th.rows != [] {
        assert th.rows[0] in th.rows;
      }
    }
  }

  lemma MovingThreadOk(db: Db, a: Action, t: Id)
    requires Shaped(db) && Moves(a, t)
    ensures t in Apply(db, a).threads ==> ThreadOk(Apply(db, a).s, Apply(db, a).threads[t])
  {
    RowsKept(db, a);
    if a.BeginSweep? {
      StaleRowsAreOk(db.s, a.order, a.now);
    }
    if t in db.threads {
      assert ThreadOk(db.s, db.threads[t]);
    }
  }

  /** A thread comes to own a file row only by creating it. */
  lemma OwnedFile(db: Db, a: Action, t: Id)
    requires Shaped(db) && Moves(a, t) && t in Apply(db, a).threads
    ensures var f := Owned(Apply(db, a).threads[t]);
            f == NO_FILE || f !in db.s.files || (t in db.threads && f == Owned(db.threads[t]))
  {
    if t in db.threads {
      assert ThreadOk(db.s, db.threads[t]);
    }
  }

  lemma OwnedApart(db: Db, a: Action, t: Id, u: Id)
    requires Shaped(db) && t in Apply(db, a).threads && u in db.threads && t != u && !Moves(a, u)
    ensures Apart(Owned(Apply(db, a).threads[t]), Owned(db.threads[u]))
  {
    assert ThreadOk(db.s, db.threads[u]);
    if Moves(a, t) {
      OwnedFile(db, a, t);
    }
  }

  lemma LinksKept(db: Db, a: Action)
    requires Shaped(db)
    ensures forall f :: f in Apply(db, a).s.links ==>
      f in Apply(db, a).s.files && Apply(db, a).s.links[f].invite in Apply(db, a).s.invites
  {
    if a.Proceed? && a.t in db.threads {
      assert ThreadOk(db.s, db.threads[a.t]);
    }
  }

  lemma WaitingThreadStays(db: Db, a: Action, u: Id)
    requires !Moves(a, u)
    ensures u in Apply(db, a).threads <==> u in db.threads
    ensures u in db.threads ==> Apply(db, a).threads[u] == db.threads[u]
  {}

  /** Every action, racy or not, keeps rows and threads consistent with each other. */
  lemma ShapeKept(db: Db, a: Action)
    requires Shaped(db)
    ensures Shaped(Apply(db, a))
  {
    var next := Apply(db, a);
    LinksKept(db, a);
    forall t | t in next.threads ensures ThreadOk(next.s, next.threads[t]) {
      if Moves(a, t) { MovingThreadOk(db, a, t); } else { WaitingThreadStays(db, a, t); WaitingThreadOk(db, a, t); }
    }
    forall t, u | t in next.threads && u in next.threads && t != u
      ensures Apart(Owned(next.threads[t]), Owned(next.threads[u]))
    {
      if Moves(a, u) {
        assert !Moves(a, t);
        WaitingThreadStays(db, a, t);
        OwnedApart(db, a, u, t);
      } else {
        WaitingThreadStays(db, a, u);
        OwnedApart(db, a, t, u);
      }
    }
  }

  // ---------------------------------------------------------------- the sums move as the statements do

  lemma MoveHolds(db: Db, next: Db, t: Id, th: Thread, q: Quantity, i: Id)
    requires next.threads == db.threads[t := th]
    ensures InFlight(next, q, i)
         == InFlight(db, q, i) - (if t in db.threads then Hold(db.threads[t], q, i) else 0) + Hold(th, q, i)
  {
    assert ThreadHolds(next, q, i) == ThreadHolds(db, q, i)[t := Hold(th, q, i)];
    TotalUpdate(ThreadHolds(db, q, i), t, Hold(th, q, i));
  }

  lemma HoldFits(db: Db, t: Id, q: Quantity, i: Id)
    requires t in db.threads
    ensures Hold(db.threads[t], q, i) <= InFlight(db, q, i)
  {
    TotalAtLeast(ThreadHolds(db, q, i), t);
  }

  lemma StatusHolds(s: Store, f: Id, status: FileStatus, q: Quantity, i: Id)
    requires f in s.links && f in s.files
    ensures Linked(SetStatus(s, f, status), q, i)
         == Linked(s, q, i) - LinkHold(s, q, i, f) + LinkHold(SetStatus(s, f, status), q, i, f)
  {
    var next := SetStatus(s, f, status);
    assert LinkHolds(next, q, i) == LinkHolds(s, q, i)[f := LinkHold(next, q, i, f)];
    TotalUpdate(LinkHolds(s, q, i), f, LinkHold(next, q, i, f));
  }

  lemma UnlinkedFileHolds(s: Store, files: map<Id, File>, q: Quantity, i: Id)
    requires forall f :: f in s.links ==> (f in files <==> f in s.files) && (f in files ==> files[f] == s.files[f])
    ensures Linked(s.(files := files), q, i) == Linked(s, q, i)
  {
    assert LinkHolds(s.(files := files), q, i) == LinkHolds(s, q, i);
  }

  lemma NewLinkHolds(s: Store, f: Id, link: Link, q: Quantity, i: Id)
    requires f !in s.links && f in s.files && s.files[f].status != Failed
    ensures Linked(s.(links := s.links[f := link]), q, i)
         == Linked(s, q, i) + if link.invite == i then Amount(q, s.files[f].size) else 0
  {
    var next := s.(links := s.links[f := link]);
    assert LinkHolds(next, q, i) == LinkHolds(s, q, i)[f := LinkHold(next, q, i, f)];
    TotalUpdate(LinkHolds(s, q, i), f, LinkHold(next, q, i, f));
  }

  lemma SameFilesSameHolds(s: Store, next: Store, q: Quantity, i: Id)
    requires next.files == s.files && next.links == s.links
    ensures Linked(next, q, i) == Linked(s, q, i)
  {
    assert LinkHolds(next, q, i) == LinkHolds(s, q, i);
  }

  /** The status write of a completion finds a file that was marked FAILED since it was checked. */
  predicate Racy(db: Db, a: Action) {
    && a.Proceed? && a.t in db.threads
    && var th := db.threads[a.t];
       && (th.Rejecting? || th.Accepting?)
       && th.file in db.s.files && db.s.files[th.file].status == Failed
  }

  /** How far the stored usage exceeds what threads and links account for. */
  ghost function Surplus(db: Db, q: Quantity, i: Id): int
    requires i in db.s.invites
  {
    Used(db.s.invites[i], q) - InFlight(db, q, i) - Linked(db.s, q, i)
  }

  function Leak(db: Db, a: Action, q: Quantity, i: Id): nat {
    if Racy(db, a) && db.threads[a.t].invite == i then Amount(q, db.threads[a.t].size) else 0
  }

  /** In an accounted state the GREATEST(..., 0) clamp of a release never changes a value. */
  lemma ClampIdle(db: Db, t: Id, i: Id, size: nat)
    requires Accounted(db) && t in db.threads && i in db.s.invites
    requires forall q :: Hold(db.threads[t], q, i) == Amount(q, size)
    ensures size <= db.s.invites[i].usedBytes && 1 <= db.s.invites[i].usedFiles
  {
    forall q ensures Amount(q, size) <= Used(db.s.invites[i], q) {
      assert AccountsFor(db, q, i);
      HoldFits(db, t, q, i);
    }
    assert Amount(Bytes, size) == size && Amount(Files, size) == 1;
    assert size <= Used(db.s.invites[i], Bytes) && 1 <= Used(db.s.invites[i], Files);
  }

  /** One statement moves usage, its thread's hold and the linked files in step, up to the leak. */
  ghost predicate InStep(db: Db, a: Action, q: Quantity, i: Id, leak: nat)
    requires a.Proceed? && a.t in db.threads && i in db.s.invites
  {
    var th := db.threads[a.t];
    var next := Effect(db.s, th, a.ok, a.newId, a.now);
    && i in next.invites
    && Used(next.invites[i], q) - Hold(Following(db.s, th, a.ok, a.newId, a.now), q, i) - Linked(next, q, i)
       == Used(db.s.invites[i], q) - Hold(th, q, i) - Linked(db.s, q, i) - leak
  }

  lemma ReserveInStep(db: Db, a: Action, q: Quantity, i: Id)
    requires a.Proceed? && a.t in db.threads && i in db.s.invites
    requires db.threads[a.t].Reserving? || db.threads[a.t].Done?
    ensures InStep(db, a, q, i, 0)
  {
    SameFilesSameHolds(db.s, Effect(db.s, db.threads[a.t], a.ok, a.newId, a.now), q, i);
  }

  lemma OpenInStep(db: Db, a: Action, q: Quantity, i: Id)
    requires Shaped(db) && a.Proceed? && a.t in db.threads && i in db.s.invites && db.threads[a.t].Opening?
    ensures InStep(db, a, q, i, 0)
  {
    UnlinkedFileHolds(db.s, Effect(db.s, db.threads[a.t], a.ok, a.newId, a.now).files, q, i);
  }

  lemma LinkInStep(db: Db, a: Action, q: Quantity, i: Id)
    requires Shaped(db) && a.Proceed? && a.t in db.threads && i in db.s.invites && db.threads[a.t].Linking?
    ensures InStep(db, a, q, i, 0)
  {
    var th := db.threads[a.t];
    assert ThreadOk(db.s, th);
    if a.ok {
      NewLinkHolds(db.s, th.file, Link(th.invite, a.now), q, i);
    }
  }

  lemma ReleaseInStep(db: Db, a: Action, q: Quantity, i: Id)
    requires Shaped(db) && Accounted(db) && a.Proceed? && a.t in db.threads && i in db.s.invites
    requires var th := db.threads[a.t]; th.Refunding? || th.Unwinding? || th.Reclaiming? || th.Crediting?
    ensures InStep(db, a, q, i, 0)
  {
    var th := db.threads[a.t];
    assert ThreadOk(db.s, th);
    if th.Reclaiming? {
      ClampIdle(db, a.t, th.row.invite, th.row.size);
    } else {
      ClampIdle(db, a.t, th.invite, th.size);
    }
    SameFilesSameHolds(db.s, Effect(db.s, th, a.ok, a.newId, a.now), q, i);
  }

  lemma DiscardInStep(db: Db, a: Action, q: Quantity, i: Id)
    requires Shaped(db) && a.Proceed? && a.t in db.threads && i in db.s.invites && db.threads[a.t].Discarding?
    ensures InStep(db, a, q, i, 0)
  {
    assert ThreadOk(db.s, db.threads[a.t]);
    UnlinkedFileHolds(db.s, Effect(db.s, db.threads[a.t], a.ok, a.newId, a.now).files, q, i);
  }

  lemma ClaimInStep(db: Db, a: Action, q: Quantity, i: Id)
    requires Shaped(db) && a.Proceed? && a.t in db.threads && i in db.s.invites && db.threads[a.t].Sweeping?
    ensures InStep(db, a, q, i, 0)
  {
    var rows := db.threads[a.t].rows;
    assert ThreadOk(db.s, db.threads[a.t]);
    if rows != [] {
      assert rows[0] in rows;
      StatusHolds(db.s, rows[0].file, Failed, q, i);
    }
  }

  lemma FinishInStep(db: Db, a: Action, q: Quantity, i: Id)
    requires Shaped(db) && a.Proceed? && a.t in db.threads && i in db.s.invites
    requires db.threads[a.t].Rejecting? || db.threads[a.t].Accepting?
    ensures InStep(db, a, q, i, Leak(db, a, q, i))
  {
    var th := db.threads[a.t];
    assert ThreadOk(db.s, th);
    StatusHolds(db.s, th.file, if th.Rejecting? then Failed else PendingScan, q, i);
  }

  lemma AdvanceInStep(db: Db, a: Action, q: Quantity, i: Id)
    requires Shaped(db) && Accounted(db) && a.Proceed? && a.t in db.threads && i in db.s.invites
    ensures InStep(db, a, q, i, Leak(db, a, q, i))
  {
    match db.threads[a.t]
    case Opening(_, _) => OpenInStep(db, a, q, i);
    case Linking(_, _, _) => LinkInStep(db, a, q, i);
    case Discarding(_) => DiscardInStep(db, a, q, i);
    case Sweeping(_) => ClaimInStep(db, a, q, i);
    case Rejecting(_, _, _) => FinishInStep(db, a, q, i);
    case Accepting(_, _, _) => FinishInStep(db, a, q, i);
    case Reserving(_, _) => ReserveInStep(db, a, q, i);
    case Done => ReserveInStep(db, a, q, i);
    case _ => ReleaseInStep(db, a, q, i);
  }

  lemma AdvanceSurplus(db: Db, a: Action, q: Quantity, i: Id)
    requires Shaped(db) && Accounted(db) && a.Proceed? && i in db.s.invites
    ensures i in Apply(db, a).s.invites && Surplus(Apply(db, a), q, i) == 0 - Leak(db, a, q, i)
  {
    assert AccountsFor(db, q, i);
    if a.t in db.threads {
      AdvanceInStep(db, a, q, i);
      MoveHolds(db, Apply(db, a), a.t, Apply(db, a).threads[a.t], q, i);
    }
  }

  lemma ParkSurplus(db: Db, t: Id, th: Thread, q: Quantity, i: Id)
    requires i in db.s.invites && Idle(db, t) && Hold(th, q, i) == 0
    ensures Surplus(Park(db, t, th), q, i) == Surplus(db, q, i)
  {
    MoveHolds(db, Park(db, t, th), t, th, q, i);
  }

  lemma SameThreadsSurplus(db: Db, next: Db, q: Quantity, i: Id)
    requires i in db.s.invites && i in next.s.invites && Used(next.s.invites[i], q) == Used(db.s.invites[i], q)
    requires next.threads == db.threads && Linked(next.s, q, i) == Linked(db.s, q, i)
    ensures Surplus(next, q, i) == Surplus(db, q, i)
  {
    assert ThreadHolds(next, q, i) == ThreadHolds(db, q, i);
  }

  predicate Begins(a: Action) {
    a.BeginCreate? || a.BeginSweep? || a.BeginComplete?
  }

  /** A request or sweep that starts writes no table: it only parks an idle thread. */
  lemma BeginParks(db: Db, a: Action) returns (th: Thread)
    requires Begins(a) && Apply(db, a).threads != db.threads
    ensures Idle(db, a.t) && Apply(db, a) == Park(db, a.t, th)
    ensures forall q, i :: Hold(th, q, i) == 0
    ensures forall f :: Claim(th, f) == 0
  {
    th := Apply(db, a).threads[a.t];
  }

  lemma OtherSurplus(db: Db, a: Action, q: Quantity, i: Id)
    requires Shaped(db) && !a.Proceed? && i in db.s.invites
    ensures i in Apply(db, a).s.invites && Surplus(Apply(db, a), q, i) == Surplus(db, q, i)
  {
    var next := Apply(db, a);
    if next == db {
    } else if Begins(a) && next.threads != db.threads {
      var th := BeginParks(db, a);
      ParkSurplus(db, a.t, th, q, i);
    } else if a.Verdict? {
      if a.file in db.s.links {
        StatusHolds(db.s, a.file, Scanned, q, i);
      } else {
        UnlinkedFileHolds(db.s, next.s.files, q, i);
      }
      SameThreadsSurplus(db, next, q, i);
    } else {
      SameFilesSameHolds(db.s, next.s, q, i);
      SameThreadsSurplus(db, next, q, i);
    }
  }

  lemma SurplusAfter(db: Db, a: Action, q: Quantity, i: Id)
    requires Shaped(db) && Accounted(db) && i in db.s.invites
    ensures i in Apply(db, a).s.invites && Surplus(Apply(db, a), q, i) == 0 - Leak(db, a, q, i)
  {
    assert AccountsFor(db, q, i);
    if a.Proceed? { AdvanceSurplus(db, a, q, i); } else { OtherSurplus(db, a, q, i); }
  }

  lemma SameInvites(db: Db, a: Action)
    ensures Apply(db, a).s.invites.Keys == db.s.invites.Keys
  {
    match a
    case Expire(now) => assert ExpireAll(db.s, now).invites.Keys == db.s.invites.Keys;
    case _ =>
  }

  /**
   The exact condition for one action to keep the accounts: it keeps them unless it is the status
   write of a completion that lost the race for its file.
   */
  lemma AccountsKeptIffNotRacy(db: Db, a: Action)
    requires Shaped(db) && Accounted(db)
    ensures Accounted(Apply(db, a)) <==> !Racy(db, a)
  {
    SameInvites(db, a);
    if Racy(db, a) {
      var i := db.threads[a.t].invite;
      assert ThreadOk(db.s, db.threads[a.t]);
      SurplusAfter(db, a, Files, i);
      assert !AccountsFor(Apply(db, a), Files, i);
    } else {
      forall i, q | i in Apply(db, a).s.invites ensures AccountsFor(Apply(db, a), q, i) {
        SurplusAfter(db, a, q, i);
      }
    }
  }

  // ---------------------------------------------------------------- limits

  /** Usage stays between zero and the invite's limits whatever the threads do. */
  lemma LimitsKept(db: Db, a: Action)
    requires Capped(db.s)
    ensures Capped(Apply(db, a).s)
  {
    SameInvites(db, a);
    if a.Proceed? && a.t in db.threads {
      EffectCapped(db.s, db.threads[a.t], a.ok, a.newId, a.now);
    }
  }

  lemma EffectCapped(s: Store, th: Thread, ok: bool, newId: Id, now: int)
    requires Capped(s)
    ensures Capped(Effect(s, th, ok, newId, now))
  {}

  // ---------------------------------------------------------------- each file is released at most once

  /** The thread has marked file f FAILED and still has to give its capacity back. */
  function Claim(th: Thread, f: Id): nat {
    match th
    case Reclaiming(row, _) => if row.file == f then 1 else 0
    case Crediting(_, g, _) => if g == f then 1 else 0
    case _ => 0
  }

  ghost function Claims(db: Db, f: Id): map<Id, nat> {
    map t | t in db.threads :: Claim(db.threads[t], f)
  }

  function FailedLink(s: Store, f: Id): nat {
    if f in s.links && f in s.files && s.files[f].status == Failed then 1 else 0
  }

  /** Releases done plus releases due: one for a linked FAILED file, none for any other. */
  ghost predicate ReleasedOnce(db: Db) {
    forall f: Id :: ReleaseDue(db, f)
  }

  ghost predicate ReleaseDue(db: Db, f: Id) {
    ValueOr0(db.s.released, f) + Total(Claims(db, f)) == FailedLink(db.s, f)
  }

  lemma MoveClaims(db: Db, next: Db, t: Id, th: Thread, f: Id)
    requires next.threads == db.threads[t := th]
    ensures Total(Claims(next, f))
         == Total(Claims(db, f)) - (if t in db.threads then Claim(db.threads[t], f) else 0) + Claim(th, f)
  {
    assert Claims(next, f) == Claims(db, f)[t := Claim(th, f)];
    TotalUpdate(Claims(db, f), t, Claim(th, f));
  }

  lemma AdvanceClaims(db: Db, a: Action, f: Id)
    requires Shaped(db) && a.Proceed? && a.t in db.threads && !Racy(db, a)
    ensures var th := db.threads[a.t];
            var next := Effect(db.s, th, a.ok, a.newId, a.now);
            ValueOr0(next.released, f) + Claim(Following(db.s, th, a.ok, a.newId, a.now), f) - FailedLink(next, f)
            == ValueOr0(db.s.released, f) + Claim(th, f) - FailedLink(db.s, f)
  {
    var th := db.threads[a.t];
    assert ThreadOk(db.s, th);
    if th.Sweeping? && th.rows != [] {
      assert th.rows[0] in th.rows;
    }
  }

  /** The exact condition for one action to keep the balance of releases is the one for the accounts. */
  lemma ReleasedOnceKeptIff(db: Db, a: Action)
    requires Shaped(db) && ReleasedOnce(db)
    ensures ReleasedOnce(Apply(db, a)) <==> !Racy(db, a)
  {
    if Racy(db, a) {
      assert ReleaseDue(db, db.threads[a.t].file);
      RacyBreaksBalance(db, a);
      assert !ReleaseDue(Apply(db, a), db.threads[a.t].file);
    } else {
      forall f: Id ensures ReleaseDue(Apply(db, a), f) {
        assert ReleaseDue(db, f);
        ReleaseDueKept(db, a, f);
      }
    }
  }

  /** A late rejection makes a second release due; a late acceptance makes the one done or due wrong. */
  lemma RacyBreaksBalance(db: Db, a: Action)
    requires Shaped(db) && Racy(db, a) && ReleaseDue(db, db.threads[a.t].file)
    ensures !ReleaseDue(Apply(db, a), db.threads[a.t].file)
  {
    var th, next := db.threads[a.t], Apply(db, a);
    assert ThreadOk(db.s, th);
    MoveClaims(db, next, a.t, next.threads[a.t], th.file);
  }

  lemma ReleaseDueKept(db: Db, a: Action, f: Id)
    requires Shaped(db) && ReleaseDue(db, f) && !Racy(db, a)
    ensures ReleaseDue(Apply(db, a), f)
  {
    var next := Apply(db, a);
    if next == db {
    } else if Begins(a) && next.threads != db.threads {
      var th := BeginParks(db, a);
      MoveClaims(db, next, a.t, th, f);
    } else if a.Proceed? {
      AdvanceClaims(db, a, f);
      MoveClaims(db, next, a.t, next.threads[a.t], f);
    } else {
      assert Claims(next, f) == Claims(db, f);
    }
  }

  /** No file is released twice, and an unlinked or unfailed file is never released. */
  lemma AtMostOneRelease(db: Db, f: Id)
    requires ReleasedOnce(db)
    ensures ValueOr0(db.s.released, f) <= 1
    ensures ValueOr0(db.s.released, f) == 1 ==> f in db.s.links && f in db.s.files && db.s.files[f].status == Failed
    ensures forall t, u ::
      t in db.threads && u in db.threads && Claim(db.threads[t], f) == 1 && Claim(db.threads[u], f) == 1 ==>
        t == u && ValueOr0(db.s.released, f) == 0
  {
    assert ReleaseDue(db, f);
    forall t, u | t in db.threads && u in db.threads && Claim(db.threads[t], f) == 1 && Claim(db.threads[u], f) == 1
      ensures t == u && ValueOr0(db.s.released, f) == 0
    {
      TotalAtLeast(Claims(db, f), t);
      if t != u {
        TotalAtLeastTwo(Claims(db, f), t, u);
      }
    }
  }

  // ---------------------------------------------------------------- whole runs

  ghost predicate Sound(db: Db) {
    Shaped(db) && Accounted(db) && Capped(db.s) && ReleasedOnce(db)
  }

  lemma SoundKept(db: Db, a: Action)
    requires Sound(db) && !Racy(db, a)
    ensures Sound(Apply(db, a))
  {
    ShapeKept(db, a);
    AccountsKeptIffNotRacy(db, a);
    LimitsKept(db, a);
    ReleasedOnceKeptIff(db, a);
  }

  /** Invites without uploads, and no thread running. */
  predicate Initial(db: Db) {
    && db.s.files == map[] && db.s.links == map[] && db.threads == map[] && db.s.released == map[]
    && forall i :: i in db.s.invites ==> db.s.invites[i].usedBytes == 0 && db.s.invites[i].usedFiles == 0
  }

  lemma InitialSound(db: Db)
    requires Initial(db)
    ensures Sound(db)
  {
    forall i, q | i in db.s.invites ensures AccountsFor(db, q, i) {
      assert ThreadHolds(db, q, i) == map[] && LinkHolds(db.s, q, i) == map[];
    }
    forall f: Id ensures ReleaseDue(db, f) {
      assert Claims(db, f) == map[];
    }
  }

  /**
   Completions are uninterrupted: the status write of a completion directly follows its checks.
   Creations and sweeps, and the release a completion ends with, interleave without restriction.
   */
  predicate Uninterrupted(run: seq<Action>) {
    forall k :: 0 <= k < |run| - 1 && run[k].BeginComplete? ==> run[k + 1].Proceed? && run[k + 1].t == run[k].t
  }

  /** No thread stands before a completion's status write, except thread `last` with its check still true. */
  predicate Calm(db: Db, last: int) {
    forall t :: t in db.threads && (db.threads[t].Rejecting? || db.threads[t].Accepting?)
      ==> t == last && Claimable(db.s, db.threads[t].file)
  }

  lemma CalmKept(db: Db, a: Action, last: int)
    requires Calm(db, last) && (last == -1 || (a.Proceed? && a.t == last))
    ensures !Racy(db, a)
    ensures Calm(Apply(db, a), if a.BeginComplete? then a.t else -1)
  {
  }

  /** Every state of every run with uninterrupted completions is sound. */
  lemma {:induction false} RunSoundFrom(db: Db, run: seq<Action>, last: int)
    requires Sound(db) && Calm(db, last) && Uninterrupted(run)
    requires last == -1 || run == [] || (run[0].Proceed? && run[0].t == last)
    ensures Sound(Run(db, run))
    decreases |run|
  {
    if run != [] {
      CalmKept(db, run[0], last);
      SoundKept(db, run[0]);
      var rest := run[1..];
      assert forall k :: 0 <= k < |rest| ==> rest[k] == run[k + 1];
      RunSoundFrom(Apply(db, run[0]), rest, if run[0].BeginComplete? then run[0].t else -1);
    }
  }

  /**
   Conservation over whole runs. For any interleaving with uninterrupted completions, an invite's usage
   is what its threads hold plus its linked files that are not FAILED, stays between zero and the
   limit, and no file's capacity is released twice.
   */
  lemma CapacityConserved(db: Db, run: seq<Action>, i: Id, q: Quantity, f: Id)
    requires Initial(db) && Uninterrupted(run) && i in db.s.invites
    ensures var end := Run(db, run);
            && i in end.s.invites
            && Used(end.s.invites[i], q) == InFlight(end, q, i) + Linked(end.s, q, i)
            && 0 <= Used(end.s.invites[i], q) <= Limit(end.s.invites[i], q)
            && ValueOr0(end.s.released, f) <= 1
  {
    InitialSound(db);
    RunSoundFrom(db, run, -1);
    RunKeepsInvites(db, run);
    assert AccountsFor(Run(db, run), q, i);
    AtMostOneRelease(Run(db, run), f);
  }

  lemma {:induction false} RunKeepsInvites(db: Db, run: seq<Action>)
    ensures Run(db, run).s.invites.Keys == db.s.invites.Keys
    decreases |run|
  {
    if run != [] {
      SameInvites(db, run[0]);
      RunKeepsInvites(Apply(db, run[0]), run[1..]);
    }
  }

  /** When nothing is in flight, stored usage is exactly the linked files that are not FAILED. */
  lemma QuiescentUsage(db: Db, i: Id, q: Quantity)
    requires Accounted(db) && i in db.s.invites
    requires forall t :: t in db.threads ==> db.threads[t] == Done
    ensures Used(db.s.invites[i], q) == Linked(db.s, q, i)
  {
    assert AccountsFor(db, q, i);
    TotalZero(ThreadHolds(db, q, i));
  }

  const ROW := Invite(3, ActiveInvite, 100000, 100, 5, 0, 0)
  const EMPTY := Db(Store(map[1 := ROW], map[], map[], map[]), map[])
  const STORED := Store(map[1 := Reserved(ROW, 10)], map[7 := File(10, Uploading)], map[7 := Link(1, 0)], map[])
  const ONE_UPLOAD := Db(STORED, map[0 := Done])

  function UploadOne(): seq<Action> {
    [BeginCreate(0, 1, 10, 0), Proceed(0, true, 7, 0), Proceed(0, true, 7, 0), Proceed(0, true, 7, 0)]
  }

  const STALE := StaleRow(1, 7, 10)
  const CLAIMED := Db(SetStatus(STORED, 7, Failed),
    map[0 := Done, 1 := Rejecting(1, 7, 10), 2 := Reclaiming(STALE, [])])

  function ClaimDuringCompletion(): seq<Action> {
    [BeginComplete(1, 1, 7, false, 9000), BeginSweep(2, [7], 9000), Proceed(2, true, 7, 9000)]
  }

  function BothRelease(): seq<Action> {
    [Proceed(1, true, 7, 9000), Proceed(2, true, 7, 9000), Proceed(1, true, 7, 9000)]
  }

  lemma UploadOneRun()
    ensures Run(EMPTY, UploadOne()) == ONE_UPLOAD
  {
    var s := UploadOne();
    var d1 := Apply(EMPTY, s[0]);
    var d2 := Apply(d1, s[1]);
    var d3 := Apply(d2, s[2]);
    assert Apply(d3, s[3]) == ONE_UPLOAD;
    assert s[3..][1..] == [] && Run(d3, s[3..]) == ONE_UPLOAD;
    assert s[2..][1..] == s[3..] && Run(d2, s[2..]) == ONE_UPLOAD;
    assert s[1..][1..] == s[2..] && Run(d1, s[1..]) == ONE_UPLOAD;
  }

  lemma ClaimDuringCompletionRun()
    ensures Run(ONE_UPLOAD, ClaimDuringCompletion()) == CLAIMED
  {
    var s := ClaimDuringCompletion();
    var e1 := Park(ONE_UPLOAD, 1, Rejecting(1, 7, 10));
    var e2 := Park(e1, 2, Sweeping([STALE]));
    assert Apply(ONE_UPLOAD, s[0]) == e1;
    assert IsStale(STORED, 7, 9000) && [7][1..] == [];
    assert StaleRows(STORED, [7], 9000) == [STALE];
    assert Apply(e1, s[1]) == e2;
    assert Apply(e2, s[2]) == CLAIMED;
    assert s[2..][1..] == [] && Run(e2, s[2..]) == CLAIMED;
    assert s[1..][1..] == s[2..] && Run(e1, s[1..]) == CLAIMED;
  }

  const REJECTED := Db(SetStatus(CLAIMED.s, 7, Failed), CLAIMED.threads[1 := Crediting(1, 7, 10)])
  const SWEPT := Db(CountRelease(Release(REJECTED.s, 1, 10), 7), REJECTED.threads[2 := Sweeping([])])

  lemma RejectsLate()
    ensures Apply(CLAIMED, Proceed(1, true, 7, 9000)) == REJECTED
  {}

  lemma SweepReleases()
    ensures Apply(REJECTED, Proceed(2, true, 7, 9000)) == SWEPT
  {}

  lemma CompletionReleases()
    ensures ValueOr0(Apply(SWEPT, Proceed(1, true, 7, 9000)).s.released, 7) == 2
  {}

  lemma RunThree(db: Db, a: Action, b: Action, c: Action)
    ensures Run(db, [a, b, c]) == Apply(Apply(Apply(db, a), b), c)
  {
    var end := Apply(Apply(Apply(db, a), b), c);
    assert [a, b, c][1..] == [b, c] && [b, c][1..] == [c] && [c][1..] == [];
    assert Run(end, []) == end && Run(Apply(Apply(db, a), b), [c]) == end;
  }

  lemma BothReleaseRun()
    ensures ValueOr0(Run(CLAIMED, BothRelease()).s.released, 7) == 2
  {
    RejectsLate();
    SweepReleases();
    CompletionReleases();
    RunThree(CLAIMED, Proceed(1, true, 7, 9000), Proceed(2, true, 7, 9000), Proceed(1, true, 7, 9000));
  }

  lemma RaceInterrupts()
    ensures !Uninterrupted(UploadOne() + ClaimDuringCompletion() + BothRelease())
  {
    var run := UploadOne() + ClaimDuringCompletion() + BothRelease();
    assert run[4].BeginComplete? && run[5].t != run[4].t;
  }

  lemma OneAfterAnother(db: Db, a: seq<Action>, b: seq<Action>, c: seq<Action>)
    ensures Run(db, a + b + c) == Run(Run(Run(db, a), b), c)
  {
    RunConcat(db, a, b);
    RunConcat(db, a + b, c);
  }

  /**
   Why completions must be uninterrupted: here a sweep claims the file between a failing completion's check
   and its status write, and the one file's capacity is given back twice.
   */
  lemma RaceReleasesTwice()
    ensures var run := UploadOne() + ClaimDuringCompletion() + BothRelease();
            Initial(EMPTY) && !Uninterrupted(run) && ValueOr0(Run(EMPTY, run).s.released, 7) == 2
  {
    UploadOneRun();
    ClaimDuringCompletionRun();
    BothReleaseRun();
    OneAfterAnother(EMPTY, UploadOne(), ClaimDuringCompletion(), BothRelease());
    RaceInterrupts();
  }

  lemma {:induction false} RunConcat(db: Db, a: seq<Action>, b: seq<Action>)
    ensures Run(db, a + b) == Run(Run(db, a), b)
    decreases |a|
  {
    if a == [] {
      assert a + b == b;
    } else {
      assert (a + b)[0] == a[0] && (a + b)[1..] == a[1..] + b;
      RunConcat(Apply(db, a[0]), a[1..], b);
    }
  }
}
