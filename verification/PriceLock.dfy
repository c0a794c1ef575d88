/** Scheduled downgrades, the upgrade lock, and what an upgrade protects. */
module PriceLock {
  import opened Options
  import opened Billing
  import opened BillingPasses
  import opened Webhooks
  import opened WebhookRuns

  /** A pending package is strictly cheaper than the current one, and never next to an upgrade lock. */
  predicate CheaperRow(row: Sub, cat: Catalog) {
    row.pending.Some? ==>
      && row.upgradedFrom.None?
      && row.pkg in cat.packages && row.pending.value in cat.packages
      && cat.packages[row.pending.value].price < cat.packages[row.pkg].price
  }

  predicate Cheaper(db: Db, cat: Catalog) {
    forall id :: id in db.subs ==> CheaperRow(db.subs[id], cat)
  }

  /** A call of the service, or as many writes of a webhook as its attempt got through. */
  datatype Step = Serve(call: Call) | Hook(event: Event, now: int, writes: nat)

  ghost function Take(b: Books, cat: Catalog, step: Step): Books {
    match step
    case Serve(c) => b.(db := Do(b.db, cat, c))
    case Hook(e, now, n) => Partial(b, cat, e, now, n)
  }

  ghost function TakeAll(b: Books, cat: Catalog, steps: seq<Step>): Books
    decreases |steps|
  {
    if steps == [] then b else TakeAll(Take(b, cat, steps[0]), cat, steps[1..])
  }

  // ---------------------------------------------------------------- the pending package is cheaper, always

  lemma {:induction false} WritesKeepCheaper(b: Books, cat: Catalog, ws: seq<Write>)
    requires Cheaper(b.db, cat)
    ensures Cheaper(Perform(b, ws).books.db, cat)
    decreases |ws|
  {
    if ws != [] && Accepts(b, ws[0]) {
      WritesKeepCheaper(Exec(b, ws[0]), cat, ws[1..]);
    }
  }

  lemma {:induction false} DowngradesKeepCheaper(db: Db, cat: Catalog, ids: seq<Id>)
    requires Cheaper(db, cat)
    ensures Cheaper(DowngradeAll(db, cat, ids), cat)
    decreases |ids|
  {
    if ids != [] {
      DowngradesKeepCheaper(DowngradeTurn(db, cat, ids[0]), cat, ids[1..]);
    }
  }

  lemma {:induction false} ExpiriesKeepCheaper(db: Db, cat: Catalog, ids: seq<Id>)
    requires Cheaper(db, cat)
    ensures Cheaper(ExpireAll(db, cat, ids), cat)
    decreases |ids|
  {
    if ids != [] {
      ExpiriesKeepCheaper(ExpiryTurn(db, cat, ids[0]), cat, ids[1..]);
    }
  }

  lemma PassKeepsCheaper(db: Db, cat: Catalog, now: int, order: seq<Id>)
    requires Cheaper(db, cat)
    ensures Cheaper(Do(db, cat, Pass(now, order)), cat)
  {
    DowngradesKeepCheaper(db, cat, DueDowngrades(db, order, now));
    var mid := DowngradeAll(db, cat, DueDowngrades(db, order, now));
    ExpiriesKeepCheaper(mid, cat, DueExpiries(mid, order, now));
  }

  /** Only Downgrade sets a pending package, and only Upgrade can lock, with nothing pending. */
  lemma CallWritesCheaper(db: Db, cat: Catalog, c: Call, id: Id)
    requires Cheaper(db, cat) && !c.Pass? && id in Do(db, cat, c).subs
    ensures CheaperRow(Do(db, cat, c).subs[id], cat)
  {}

  lemma CallKeepsCheaper(db: Db, cat: Catalog, c: Call)
    requires Cheaper(db, cat)
    ensures Cheaper(Do(db, cat, c), cat)
  {
    if c.Pass? {
      PassKeepsCheaper(db, cat, c.now, c.order);
    } else {
      forall id | id in Do(db, cat, c).subs ensures CheaperRow(Do(db, cat, c).subs[id], cat) {
        CallWritesCheaper(db, cat, c, id);
      }
    }
  }

  /** In every reachable state, webhooks cut short included, pending packages are strictly cheaper and never locked. */
  lemma {:induction false} CheaperOverRuns(b: Books, cat: Catalog, steps: seq<Step>)
    requires Cheaper(b.db, cat)
    ensures Cheaper(TakeAll(b, cat, steps).db, cat)
    decreases |steps|
  {
    if steps != [] {
      match steps[0] {
        case Serve(c) => CallKeepsCheaper(b.db, cat, c);
        case Hook(e, now, n) => WritesKeepCheaper(b, cat, Upto(Writes(b, cat, e, now), n));
      }
      CheaperOverRuns(Take(b, cat, steps[0]), cat, steps[1..]);
    }
  }

  // ---------------------------------------------------------------- what a lock protects

  /** The row is locked, and its package costs at least `floor`. */
  predicate LockedAt(db: Db, cat: Catalog, id: Id, floor: int) {
    && id in db.subs && db.subs[id].upgradedFrom.Some?
    && db.subs[id].pkg in cat.packages && cat.packages[db.subs[id].pkg].price >= floor
  }

  lemma {:induction false} DowngradesSkipLocked(db: Db, cat: Catalog, ids: seq<Id>, id: Id)
    requires id in db.subs && db.subs[id].pending.None?
    ensures id in DowngradeAll(db, cat, ids).subs && DowngradeAll(db, cat, ids).subs[id] == db.subs[id]
    decreases |ids|
  {
    if ids != [] {
      DowngradesSkipLocked(DowngradeTurn(db, cat, ids[0]), cat, ids[1..], id);
    }
  }

  lemma {:induction false} ExpiriesKeepPackage(db: Db, cat: Catalog, ids: seq<Id>, id: Id)
    requires id in db.subs
    ensures var end := ExpireAll(db, cat, ids);
            id in end.subs && end.subs[id].(status := db.subs[id].status) == db.subs[id]
    decreases |ids|
  {
    if ids != [] {
      ExpiriesKeepPackage(ExpiryTurn(db, cat, ids[0]), cat, ids[1..], id);
    }
  }

  lemma PassKeepsLock(db: Db, cat: Catalog, now: int, order: seq<Id>, id: Id, floor: int)
    requires Cheaper(db, cat) && LockedAt(db, cat, id, floor)
    ensures LockedAt(DoPass(db, cat, order, now), cat, id, floor)
  {
    var due := DueDowngrades(db, order, now);
    var mid := DowngradeAll(db, cat, due);
    DowngradesSkipLocked(db, cat, due, id);
    ExpiriesKeepPackage(mid, cat, DueExpiries(mid, order, now), id);
  }

  lemma ChangeKeepsLock(db: Db, cat: Catalog, c: Call, id: Id, floor: int)
    requires c.Upgrade? || c.Downgrade? || c.Cancel? || c.CancelPendingDowngrade?
    requires Cheaper(db, cat) && LockedAt(db, cat, id, floor)
    ensures LockedAt(Do(db, cat, c), cat, id, floor)
  {}

  lemma CallKeepsLock(db: Db, cat: Catalog, c: Call, id: Id, floor: int)
    requires Cheaper(db, cat) && LockedAt(db, cat, id, floor)
    ensures LockedAt(Do(db, cat, c), cat, id, floor)
  {
    match c
    case Pass(now, order) => PassKeepsLock(db, cat, now, order, id, floor);
    case Upgrade(_, _, _) => ChangeKeepsLock(db, cat, c, id, floor);
    case Downgrade(_, _, _) => ChangeKeepsLock(db, cat, c, id, floor);
    case Cancel(_) => ChangeKeepsLock(db, cat, c, id, floor);
    case CancelPendingDowngrade(_) => ChangeKeepsLock(db, cat, c, id, floor);
    case _ =>
  }

  lemma {:induction false} WritesKeepLock(b: Books, cat: Catalog, ws: seq<Write>, id: Id, floor: int)
    requires LockedAt(b.db, cat, id, floor)
    requires forall w | w in ws :: !w.op.OpUnlock? && !w.op.OpPackage?
    ensures LockedAt(Perform(b, ws).books.db, cat, id, floor)
    decreases |ws|
  {
    if ws != [] && Accepts(b, ws[0]) {
      assert ws[0] in ws;
      WritesKeepLock(Exec(b, ws[0]), cat, ws[1..], id, floor);
    }
  }

  /** Only subscription.charged lifts a lock, and only subscription.updated sets a package. */
  lemma OtherHooksOps(cat: Catalog, id: Id, row: Sub, e: Event, now: int)
    requires !e.kind.SubCharged? && !e.kind.SubUpdated?
    ensures forall op | op in Ops(cat, id, row, e, now) :: !op.OpUnlock? && !op.OpPackage?
  {}

  lemma HookKeepsLock(b: Books, cat: Catalog, e: Event, now: int, n: nat, id: Id, floor: int)
    requires LockedAt(b.db, cat, id, floor) && !e.kind.SubCharged? && !e.kind.SubUpdated?
    ensures LockedAt(Partial(b, cat, e, now, n).db, cat, id, floor)
  {
    var ws := Writes(b, cat, e, now);
    if e.gateway != "" && GatewayRow(b.db, e.gateway).Some? {
      var r := GatewayRow(b.db, e.gateway).value;
      OtherHooksOps(cat, r, b.db.subs[r], e, now);
      var ops := Ops(cat, r, b.db.subs[r], e, now);
      forall w | w in Upto(ws, n) ensures !w.op.OpUnlock? && !w.op.OpPackage? {
        var k :| 0 <= k < |ws| && ws[k] == w;
        assert ops[k] in ops;
      }
    }
    WritesKeepLock(b, cat, Upto(ws, n), id, floor);
  }

  /**
   Once a row is locked, no run of user, admin and scheduler calls and of webhooks other than subscription.charged and
   subscription.updated lowers the price of its package.
   */
  lemma {:induction false} LockProtectsPrice(b: Books, cat: Catalog, steps: seq<Step>, id: Id, floor: int)
    requires Cheaper(b.db, cat) && LockedAt(b.db, cat, id, floor)
    requires forall k :: 0 <= k < |steps| && steps[k].Hook? ==>
      !steps[k].event.kind.SubCharged? && !steps[k].event.kind.SubUpdated?
    ensures LockedAt(TakeAll(b, cat, steps).db, cat, id, floor)
    decreases |steps|
  {
    if steps != [] {
      match steps[0] {
        case Serve(c) =>
          CallKeepsCheaper(b.db, cat, c);
          CallKeepsLock(b.db, cat, c, id, floor);
        case Hook(e, now, n) =>
          WritesKeepCheaper(b, cat, Upto(Writes(b, cat, e, now), n));
          HookKeepsLock(b, cat, e, now, n, id, floor);
      }
      LockProtectsPrice(Take(b, cat, steps[0]), cat, steps[1..], id, floor);
    }
  }

  // ---------------------------------------------------------------- when an upgrade leaves a lock

  /** The call upgrades the row: all guards hold. */
  ghost predicate Upgrades(db: Db, cat: Catalog, c: Call, id: Id) {
    c.Upgrade? && HasActive(db, c.user) && LiveRow(db, c.user) == Some(id)
      && MayUpgrade(db.subs[id], cat, c.target, c.gatewayOk)
  }

  /**
   The lock column references subscriptions, but the upgrade writes the old package's id into it: the
   row ends up locked exactly when it was before or when that package id happens to be a subscription id.
   */
  lemma UpgradeLocksIff(db: Db, cat: Catalog, c: Call, id: Id)
    requires Upgrades(db, cat, c, id)
    ensures Do(db, cat, c).subs[id].upgradedFrom.Some? <==> db.subs[id].upgradedFrom.Some? || db.subs[id].pkg in db.subs
  {}

  predicate UserOrPass(c: Call) {
    !c.AdminCancel? && !c.AdminAssign? && !c.Activated?
  }

  ghost function Calls(db: Db, cat: Catalog, run: seq<Call>): Db
    decreases |run|
  {
    if run == [] then db else Calls(Do(db, cat, run[0]), cat, run[1..])
  }

  /** Every pass lists all rows of its moment, each once. */
  ghost predicate Performable(db: Db, cat: Catalog, run: seq<Call>)
    decreases |run|
  {
    run == []
    || ((run[0].Pass? ==> Covers(run[0].order, db) && Distinct(run[0].order))
      && Performable(Do(db, cat, run[0]), cat, run[1..]))
  }

  /** A run that the users and the scheduler can perform leaves the row on a cheaper package. */
  ghost predicate Lowers(db: Db, cat: Catalog, run: seq<Call>, id: Id)
    requires id in db.subs && db.subs[id].pkg in cat.packages
  {
    && (forall k :: 0 <= k < |run| ==> UserOrPass(run[k])) && Performable(db, cat, run)
    && var end := Calls(db, cat, run);
       && id in end.subs && end.subs[id].pkg in cat.packages
       && cat.packages[end.subs[id].pkg].price < cat.packages[db.subs[id].pkg].price
  }

  /** A package that Downgrade accepts as a target under a price of `limit`. */
  predicate TargetBelow(cat: Catalog, q: Id, limit: int) {
    q in cat.packages && cat.packages[q].price < limit && (cat.packages[q].price == 0 || cat.packages[q].plan.Some?)
  }

  /** With no target below `floor`, neither the package nor a pending one gets below it. */
  predicate HighRow(row: Sub, cat: Catalog, floor: int) {
    && row.pkg in cat.packages && cat.packages[row.pkg].price >= floor
    && (row.pending.Some? && row.pending.value in cat.packages ==> cat.packages[row.pending.value].price >= floor)
  }

  lemma {:induction false} DowngradesKeepHigh(db: Db, cat: Catalog, ids: seq<Id>, id: Id, floor: int)
    requires id in db.subs && HighRow(db.subs[id], cat, floor)
    ensures id in DowngradeAll(db, cat, ids).subs && HighRow(DowngradeAll(db, cat, ids).subs[id], cat, floor)
    decreases |ids|
  {
    if ids != [] {
      DowngradesKeepHigh(DowngradeTurn(db, cat, ids[0]), cat, ids[1..], id, floor);
    }
  }

  lemma CallKeepsHigh(db: Db, cat: Catalog, c: Call, id: Id, floor: int)
    requires id in db.subs && HighRow(db.subs[id], cat, floor) && forall q :: !TargetBelow(cat, q, floor)
    ensures id in Do(db, cat, c).subs && HighRow(Do(db, cat, c).subs[id], cat, floor)
  {
    match c
    case Pass(now, order) =>
      var due := DueDowngrades(db, order, now);
      var mid := DowngradeAll(db, cat, due);
      DowngradesKeepHigh(db, cat, due, id, floor);
      ExpiriesKeepPackage(mid, cat, DueExpiries(mid, order, now), id);
    case Downgrade(_, target, _) => assert !TargetBelow(cat, target, floor);
    case _ =>
  }

  /** An active row without a period end is never overdue, so nothing scheduled on it is ever applied. */
  predicate EndlessRow(row: Sub, cat: Catalog, floor: int) {
    row.status == Active && row.end.None? && row.pkg in cat.packages && cat.packages[row.pkg].price >= floor
  }

  lemma {:induction false} DowngradesSkipUnlisted(db: Db, cat: Catalog, ids: seq<Id>, id: Id)
    requires id in db.subs && id !in ids
    ensures id in DowngradeAll(db, cat, ids).subs && DowngradeAll(db, cat, ids).subs[id] == db.subs[id]
    decreases |ids|
  {
    if ids != [] {
      assert ids[0] in ids;
      DowngradesSkipUnlisted(DowngradeTurn(db, cat, ids[0]), cat, ids[1..], id);
    }
  }

  lemma {:induction false} ExpiriesSkipUnlisted(db: Db, cat: Catalog, ids: seq<Id>, id: Id)
    requires id in db.subs && id !in ids
    ensures id in ExpireAll(db, cat, ids).subs && ExpireAll(db, cat, ids).subs[id] == db.subs[id]
    decreases |ids|
  {
    if ids != [] {
      assert ids[0] in ids;
      ExpiriesSkipUnlisted(ExpiryTurn(db, cat, ids[0]), cat, ids[1..], id);
    }
  }

  lemma {:induction false} DueExpiriesAreDue(db: Db, order: seq<Id>, now: int)
    ensures forall id :: id in DueExpiries(db, order, now) ==> ExpiryDue(db, id, now)
  {
    if order != [] {
      DueExpiriesAreDue(db, order[1..], now);
    }
  }

  lemma CallKeepsEndless(db: Db, cat: Catalog, c: Call, id: Id, floor: int)
    requires UserOrPass(c) && id in db.subs && EndlessRow(db.subs[id], cat, floor)
    ensures id in Do(db, cat, c).subs && EndlessRow(Do(db, cat, c).subs[id], cat, floor)
  {
    match c
    case Pass(now, order) =>
      var due := DueDowngrades(db, order, now);
      var mid := DowngradeAll(db, cat, due);
      DueDowngradesExact(db, order, now);
      DowngradesSkipUnlisted(db, cat, due, id);
      DueExpiriesAreDue(mid, order, now);
      ExpiriesSkipUnlisted(mid, cat, DueExpiries(mid, order, now), id);
    case _ =>
  }

  lemma {:induction false} RunKeepsHigh(db: Db, cat: Catalog, run: seq<Call>, id: Id, floor: int)
    requires id in db.subs && HighRow(db.subs[id], cat, floor) && forall q :: !TargetBelow(cat, q, floor)
    ensures id in Calls(db, cat, run).subs && HighRow(Calls(db, cat, run).subs[id], cat, floor)
    decreases |run|
  {
    if run != [] {
      CallKeepsHigh(db, cat, run[0], id, floor);
      RunKeepsHigh(Do(db, cat, run[0]), cat, run[1..], id, floor);
    }
  }

  lemma {:induction false} RunKeepsEndless(db: Db, cat: Catalog, run: seq<Call>, id: Id, floor: int)
    requires id in db.subs && EndlessRow(db.subs[id], cat, floor) && forall k :: 0 <= k < |run| ==> UserOrPass(run[k])
    ensures id in Calls(db, cat, run).subs && EndlessRow(Calls(db, cat, run).subs[id], cat, floor)
    decreases |run|
  {
    if run != [] {
      CallKeepsEndless(db, cat, run[0], id, floor);
      RunKeepsEndless(Do(db, cat, run[0]), cat, run[1..], id, floor);
    }
  }

  lemma {:induction false} RunKeepsLock(db: Db, cat: Catalog, run: seq<Call>, id: Id, floor: int)
    requires Cheaper(db, cat) && LockedAt(db, cat, id, floor)
    ensures LockedAt(Calls(db, cat, run), cat, id, floor)
    decreases |run|
  {
    if run != [] {
      CallKeepsCheaper(db, cat, run[0]);
      CallKeepsLock(db, cat, run[0], id, floor);
      RunKeepsLock(Do(db, cat, run[0]), cat, run[1..], id, floor);
    }
  }

  /** Some listing has every row once. */
  lemma {:induction false} Listing(ids: set<Id>) returns (order: seq<Id>)
    ensures Distinct(order) && forall id :: id in order <==> id in ids
    decreases |ids|
  {
    if ids == {} {
      order := [];
    } else {
      var id :| id in ids;
      var rest := Listing(ids - {id});
      order := [id] + rest;
    }
  }

  /** Downgrade, then wait for the end of the period. */
  function DowngradeAndWait(user: Id, q: Id, end: int, order: seq<Id>): seq<Call> {
    [Downgrade(user, q, true), Pass(end, order)]
  }

  /** The row as DowngradeAndWaitLowers takes it. */
  ghost predicate Downgradable(db: Db, cat: Catalog, user: Id, id: Id) {
    && OneLive(db) && LiveFor(db, id, user) && db.subs[id].status == Active && db.subs[id].end.Some?
    && db.subs[id].pending.None? && !db.subs[id].cancelAtCycleEnd && db.subs[id].upgradedFrom.None?
    && db.subs[id].pkg in cat.packages
  }

  lemma DowngradeSchedules(db: Db, cat: Catalog, user: Id, id: Id, q: Id)
    requires Downgradable(db, cat, user, id) && TargetBelow(cat, q, cat.packages[db.subs[id].pkg].price)
    ensures var mid := DoDowngrade(db, cat, Downgrade(user, q, true));
            && mid.subs.Keys == db.subs.Keys
            && mid.subs[id].pending == Some(q) && mid.subs[id].end == db.subs[id].end && mid.subs[id].status == Active
  {
    assert LiveRow(db, user) == Some(id);
  }

  lemma PassApplies(db: Db, cat: Catalog, id: Id, q: Id, order: seq<Id>)
    requires id in db.subs && db.subs[id].pending == Some(q) && q in cat.packages && db.subs[id].end.Some?
    requires Covers(order, db) && Distinct(order)
    ensures var last := DoPass(db, cat, order, db.subs[id].end.value); id in last.subs && last.subs[id].pkg == q
  {
    PassRows(db, cat, order, db.subs[id].end.value);
  }

  lemma CallThenPass(db: Db, cat: Catalog, a: Call, b: Call)
    requires !a.Pass? && b.Pass? && Covers(b.order, Do(db, cat, a)) && Distinct(b.order)
    ensures Calls(db, cat, [a, b]) == Do(Do(db, cat, a), cat, b) && Performable(db, cat, [a, b])
  {
    var mid := Do(db, cat, a);
    var end := Do(mid, cat, b);
    assert [a, b][1..] == [b] && [b][1..] == [];
    assert Calls(end, cat, []) == end && Calls(mid, cat, [b]) == end;
    assert Performable(end, cat, []) && Performable(mid, cat, [b]);
  }

  lemma DowngradeAndWaitLowers(db: Db, cat: Catalog, user: Id, id: Id, q: Id)
    requires Downgradable(db, cat, user, id) && TargetBelow(cat, q, cat.packages[db.subs[id].pkg].price)
    ensures exists run :: Lowers(db, cat, run, id)
  {
    var order := Listing(db.subs.Keys);
    var run := DowngradeAndWait(user, q, db.subs[id].end.value, order);
    DowngradeSchedules(db, cat, user, id, q);
    PassApplies(Do(db, cat, run[0]), cat, id, q, order);
    CallThenPass(db, cat, run[0], run[1]);
    assert Lowers(db, cat, run, id);
  }

  /**
   When an upgrade can be undone before the next charge. After a successful upgrade, some run of user actions and
   scheduler passes lowers the row's package price exactly when the lock was not written, the
   row has a period end, and the catalog has a cheaper package that Downgrade accepts.
   */
  lemma UpgradeUndoneIff(db: Db, cat: Catalog, c: Call, id: Id)
    requires OneLive(db) && Cheaper(db, cat) && Upgrades(db, cat, c, id)
    ensures var after := Do(db, cat, c);
            && id in after.subs && after.subs[id].pkg == c.target
            && ((exists run :: Lowers(after, cat, run, id)) <==>
                  && db.subs[id].upgradedFrom.None? && db.subs[id].pkg !in db.subs
                  && db.subs[id].end.Some?
                  && exists q :: TargetBelow(cat, q, cat.packages[c.target].price))
  {
    var after := Do(db, cat, c);
    var floor := cat.packages[c.target].price;
    var row := after.subs[id];
    CallKeepsCheaper(db, cat, c);
    if row.upgradedFrom.Some? {
      forall run ensures !Lowers(after, cat, run, id) { RunKeepsLock(after, cat, run, id, floor); }
    } else if row.end.None? {
      forall run ensures !Lowers(after, cat, run, id) {
        if forall k :: 0 <= k < |run| ==> UserOrPass(run[k]) { RunKeepsEndless(after, cat, run, id, floor); }
      }
    } else if q :| TargetBelow(cat, q, floor) {
      AfterUpgradeOneLive(db, cat, c, id);
      DowngradeAndWaitLowers(after, cat, c.user, id, q);
    } else {
      forall run ensures !Lowers(after, cat, run, id) { RunKeepsHigh(after, cat, run, id, floor); }
    }
  }

  lemma AfterUpgradeOneLive(db: Db, cat: Catalog, c: Call, id: Id)
    requires OneLive(db) && Upgrades(db, cat, c, id)
    ensures OneLive(Do(db, cat, c)) && LiveFor(Do(db, cat, c), id, c.user)
  {
    var after := Do(db, cat, c);
    forall a: Id, b: Id, u: Id | LiveFor(after, a, u) && LiveFor(after, b, u) ensures a == b {
      assert LiveFor(db, a, u) && LiveFor(db, b, u);
    }
  }
}
