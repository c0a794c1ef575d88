/** Over every run, each user has at most one live row and is granted what an active row's package allows. */
module BillingAgreement {
  import opened Options
  import opened Billing
  import opened BillingPasses

  lemma DropUnpaidKeeps(db: Db, cat: Catalog, user: Id, now: int)
    requires Agreed(db, cat)
    requires LiveRow(db, user).None? || db.subs[LiveRow(db, user).value].status == Created
    ensures Agreed(DropUnpaid(db, user, now), cat)
    ensures forall o :: !LiveFor(DropUnpaid(db, user, now), o, user)
    ensures DropUnpaid(db, user, now).subs.Keys == db.subs.Keys
  {
    var live := LiveRow(db, user);
    if live.Some? {
      LiveMeansNoOther(db, cat, live.value, DEFAULT_FREE);
      PutKeeps(db, cat, live.value, CancelledRow(db.subs[live.value], now));
      assert db.subs.Keys + {live.value} == db.subs.Keys;
      forall o ensures !LiveFor(DropUnpaid(db, user, now), o, user) {
        assert o != live.value ==> !LiveFor(db, o, user);
      }
    }
  }

  lemma SubscribeKeeps(db: Db, cat: Catalog, c: Call)
    requires c.Subscribe? && Agreed(db, cat)
    ensures Agreed(DoSubscribe(db, cat, c), cat)
  {
    var live := LiveRow(db, c.user);
    if live.None? || db.subs[live.value].status == Created {
      DropUnpaidKeeps(db, cat, c.user, c.now);
      var open := DropUnpaid(db, c.user, c.now);
      if DoSubscribe(db, cat, c) != open {
        PutKeeps(open, cat, c.newId, NewRow(c.user, c.pkg, c.issued, Created, None, None));
      }
    }
  }

  lemma UpgradeKeeps(db: Db, cat: Catalog, c: Call)
    requires c.Upgrade? && Agreed(db, cat)
    ensures Agreed(DoUpgrade(db, cat, c), cat)
  {
    if HasActive(db, c.user) {
      var id := LiveRow(db, c.user).value;
      var row := db.subs[id];
      if MayUpgrade(row, cat, c.target, c.gatewayOk) {
        LiveMeansNoOther(db, cat, id, cat.packages[c.target].limits);
        PutGrantKeeps(db, cat, id, WithLock(db, WithPackage(row, c.target), row.pkg), cat.packages[c.target].limits);
      }
    }
  }

  /** Downgrade, Cancel and CancelPendingDowngrade only change flags of the active row. */
  lemma FlagsKeep(db: Db, cat: Catalog, user: Id, pending: Option<Id>, atEnd: bool, at: Option<int>)
    requires Agreed(db, cat) && HasActive(db, user) && (pending.Some? ==> pending.value in cat.packages)
    ensures var id := LiveRow(db, user).value;
            Agreed(Put(db, id, db.subs[id].(pending := pending, cancelAtCycleEnd := atEnd, cancelledAt := at)), cat)
  {
    var id := LiveRow(db, user).value;
    LiveMeansNoOther(db, cat, id, DEFAULT_FREE);
    assert Granted(db, cat, id);
    PutKeeps(db, cat, id, db.subs[id].(pending := pending, cancelAtCycleEnd := atEnd, cancelledAt := at));
  }

  lemma FlagCallsKeep(db: Db, cat: Catalog, c: Call)
    requires c.Downgrade? || c.Cancel? || c.CancelPendingDowngrade?
    requires Agreed(db, cat)
    ensures Agreed(Do(db, cat, c), cat)
  {
    if HasActive(db, c.user) && Do(db, cat, c) != db {
      var id := LiveRow(db, c.user).value;
      var after := Do(db, cat, c).subs[id];
      var row := db.subs[id];
      assert after == row.(pending := after.pending, cancelAtCycleEnd := after.cancelAtCycleEnd,
                           cancelledAt := after.cancelledAt);
      FlagsKeep(db, cat, c.user, after.pending, after.cancelAtCycleEnd, after.cancelledAt);
    }
  }

  lemma ActivatedKeeps(db: Db, cat: Catalog, c: Call)
    requires c.Activated? && Agreed(db, cat)
    ensures Agreed(DoActivated(db, cat, c), cat)
  {
    var found := GatewayRow(db, c.gateway);
    if found.Some? && StatusAccepted(db, found.value, Active) {
      var id := found.value;
      var row := db.subs[id];
      forall o | o != id ensures !LiveFor(db, o, row.user) {}
      assert NoOther(db, cat, id, row.user, cat.packages[row.pkg].limits) by {
        forall o | o in db.subs && o != id && db.subs[o].user == row.user && db.subs[o].status == Active ensures false {
          assert LiveFor(db, o, row.user);
        }
      }
      PutGrantKeeps(db, cat, id, WithStatus(row, Active, c.start, c.end, c.paid), cat.packages[row.pkg].limits);
    }
  }

  // ---------------------------------------------------------------- calls that keep agreement only sometimes

  /** Verify writes a row, and the limits it grants are not those of another, active row of the user. */
  ghost predicate VerifyHarmless(db: Db, cat: Catalog, c: Call)
    requires c.Verify?
  {
    var found := GatewayRow(db, c.gateway);
    found.Some? ==>
      var row := db.subs[found.value];
      (row.user == c.user && row.status != Active && StatusAccepted(db, found.value, Fetched(c).0)
        && row.pkg in cat.packages)
      ==> NoOther(db, cat, found.value, row.user, cat.packages[row.pkg].limits)
  }

  lemma VerifyKeepsIff(db: Db, cat: Catalog, c: Call)
    requires c.Verify? && Agreed(db, cat)
    ensures Agreed(DoVerify(db, cat, c), cat) <==> VerifyHarmless(db, cat, c)
  {
    var found := GatewayRow(db, c.gateway);
    if found.Some? {
      var id := found.value;
      var row := db.subs[id];
      var (status, start, end) := Fetched(c);
      if row.user == c.user && row.status != Active && StatusAccepted(db, id, status) {
        var limits := cat.packages[row.pkg].limits;
        var next := DoVerify(db, cat, c);
        if NoOther(db, cat, id, row.user, limits) {
          PutGrantKeeps(db, cat, id, WithStatus(row, status, Some(start), Some(end), Some(c.payment)), limits);
        } else {
          var o :| o in db.subs && o != id && db.subs[o].user == row.user && db.subs[o].status == Active
                   && !(db.subs[o].pkg in cat.packages && cat.packages[db.subs[o].pkg].limits == limits);
          assert Granted(db, cat, o);
          assert !Granted(next, cat, o);
        }
      }
    }
  }

  /** In particular Verify on the user's live row always keeps agreement. */
  lemma VerifyLiveRowHarmless(db: Db, cat: Catalog, c: Call)
    requires c.Verify? && Agreed(db, cat) && GatewayRow(db, c.gateway).Some?
    requires IsLive(db.subs[GatewayRow(db, c.gateway).value].status)
    ensures VerifyHarmless(db, cat, c)
  {
    var id := GatewayRow(db, c.gateway).value;
    LiveMeansNoOther(db, cat, id, cat.packages[db.subs[id].pkg].limits);
  }

  /** The row has nothing pending, and the free limits do not take anything from another active row of the user. */
  predicate AdminCancelHarmless(db: Db, cat: Catalog, id: Id) {
    id in db.subs ==> db.subs[id].pending.None? && NoOther(db, cat, id, db.subs[id].user, FreeLimits(cat))
  }

  lemma AdminCancelKeepsIff(db: Db, cat: Catalog, id: Id, now: int)
    requires Agreed(db, cat)
    ensures Agreed(DoAdminCancel(db, cat, id, now), cat) <==> AdminCancelHarmless(db, cat, id)
  {
    if id in db.subs {
      var row := db.subs[id];
      var next := DoAdminCancel(db, cat, id, now);
      if AdminCancelHarmless(db, cat, id) {
        PutGrantKeeps(db, cat, id, CancelledRow(row, now), FreeLimits(cat));
      } else if row.pending.Some? {
        assert next.subs[id].pending.Some? && next.subs[id].status == Cancelled;
      } else {
        var o :| o in db.subs && o != id && db.subs[o].user == row.user && db.subs[o].status == Active
                 && !(db.subs[o].pkg in cat.packages && cat.packages[db.subs[o].pkg].limits == FreeLimits(cat));
        assert Granted(db, cat, o);
        assert !Granted(next, cat, o);
      }
    }
  }

  ghost predicate AdminAssignHarmless(db: Db, c: Call)
    requires c.AdminAssign?
  {
    LiveRow(db, c.user).Some? ==> db.subs[LiveRow(db, c.user).value].pending.None?
  }

  lemma AdminAssignKeepsIff(db: Db, cat: Catalog, c: Call)
    requires c.AdminAssign? && Agreed(db, cat)
    ensures Agreed(DoAdminAssign(db, cat, c), cat) <==> AdminAssignHarmless(db, c)
  {
    var live := LiveRow(db, c.user);
    var open := if live.Some? then DoAdminCancel(db, cat, live.value, c.now) else db;
    var next := DoAdminAssign(db, cat, c);
    if live.Some? {
      LiveMeansNoOther(db, cat, live.value, FreeLimits(cat));
      AdminCancelKeepsIff(db, cat, live.value, c.now);
      if db.subs[live.value].pending.Some? {
        assert next.subs[live.value].pending.Some? && next.subs[live.value].status == Cancelled;
      }
    }
    if AdminAssignHarmless(db, c) && next != open {
      forall o ensures !LiveFor(open, o, c.user) {
        assert LiveFor(open, o, c.user) ==> LiveFor(db, o, c.user);
      }
      assert NoOther(open, cat, c.newId, c.user, cat.packages[c.pkg].limits) by {
        forall o | o in open.subs && open.subs[o].user == c.user && open.subs[o].status == Active ensures false {
          assert LiveFor(open, o, c.user);
        }
      }
      PutGrantKeeps(open, cat, c.newId, NewRow(c.user, c.pkg, None, Active, Some(c.now), Some(c.until)),
        cat.packages[c.pkg].limits);
    }
  }

  // ---------------------------------------------------------------- the passes keep agreement

  lemma DowngradeTurnKeeps(db: Db, cat: Catalog, id: Id)
    requires Agreed(db, cat)
    ensures Agreed(DowngradeTurn(db, cat, id), cat)
  {
    if id in db.subs && db.subs[id].pending.Some? {
      var row := db.subs[id];
      LiveMeansNoOther(db, cat, id, cat.packages[row.pending.value].limits);
      PutGrantKeeps(db, cat, id, WithPackage(row, row.pending.value), cat.packages[row.pending.value].limits);
    }
  }

  lemma {:induction false} DowngradeAllKeeps(db: Db, cat: Catalog, ids: seq<Id>)
    requires Agreed(db, cat)
    ensures Agreed(DowngradeAll(db, cat, ids), cat)
    decreases |ids|
  {
    if ids != [] {
      DowngradeTurnKeeps(db, cat, ids[0]);
      DowngradeAllKeeps(DowngradeTurn(db, cat, ids[0]), cat, ids[1..]);
    }
  }

  /** Rows still to be expired are active, with nothing pending. */
  predicate Expirable(db: Db, ids: seq<Id>) {
    && (forall k :: 0 <= k < |ids| ==>
      ids[k] in db.subs && db.subs[ids[k]].status == Active && db.subs[ids[k]].pending.None?)
    && (forall j, k :: 0 <= j < k < |ids| ==> ids[j] != ids[k])
  }

  lemma {:induction false} ExpireAllKeeps(db: Db, cat: Catalog, ids: seq<Id>)
    requires Agreed(db, cat) && Expirable(db, ids)
    ensures Agreed(ExpireAll(db, cat, ids), cat)
    decreases |ids|
  {
    if ids != [] {
      var row := db.subs[ids[0]];
      LiveMeansNoOther(db, cat, ids[0], FreeLimits(cat));
      PutGrantKeeps(db, cat, ids[0], row.(status := Expired), FreeLimits(cat));
      ExpireAllKeeps(ExpiryTurn(db, cat, ids[0]), cat, ids[1..]);
    }
  }

  /** The scheduler keeps agreement, listing each row once. */
  lemma PassKeeps(db: Db, cat: Catalog, order: seq<Id>, now: int)
    requires Agreed(db, cat) && Distinct(order)
    ensures Agreed(DoPass(db, cat, order, now), cat)
  {
    var due := DueDowngrades(db, order, now);
    var mid := DowngradeAll(db, cat, due);
    DowngradeAllKeeps(db, cat, due);
    DowngradeAllRows(db, cat, due);
    DueDowngradesExact(db, order, now);
    var expiring := DueExpiries(mid, order, now);
    DueExpiriesExact(mid, order, now);
    forall k | 0 <= k < |expiring|
      ensures expiring[k] in mid.subs && mid.subs[expiring[k]].status == Active && mid.subs[expiring[k]].pending.None?
    {
      var id := expiring[k];
      assert id in expiring;
      assert id !in due ==> !DowngradeDue(db, id, now);
    }
    ExpireAllKeeps(mid, cat, expiring);
  }

  // ---------------------------------------------------------------- whole runs

  /** The calls of a run, under the conditions a caller can check before each one. */
  ghost predicate Harmless(db: Db, cat: Catalog, c: Call) {
    match c
    case Verify(_, _, _, _, _, _) => VerifyHarmless(db, cat, c)
    case AdminCancel(id, _) => AdminCancelHarmless(db, cat, id)
    case AdminAssign(_, _, _, _, _) => AdminAssignHarmless(db, c)
    case Pass(_, order) => Distinct(order)
    case _ => true
  }

  lemma CallKeeps(db: Db, cat: Catalog, c: Call)
    requires Agreed(db, cat) && Harmless(db, cat, c)
    ensures Agreed(Do(db, cat, c), cat)
  {
    match c
    case Subscribe(_, _, _, _, _) => SubscribeKeeps(db, cat, c);
    case Verify(_, _, _, _, _, _) => VerifyKeepsIff(db, cat, c);
    case Upgrade(_, _, _) => UpgradeKeeps(db, cat, c);
    case AdminCancel(id, now) => AdminCancelKeepsIff(db, cat, id, now);
    case AdminAssign(_, _, _, _, _) => AdminAssignKeepsIff(db, cat, c);
    case Activated(_, _, _, _) => ActivatedKeeps(db, cat, c);
    case Pass(now, order) => PassKeeps(db, cat, order, now);
    case _ => FlagCallsKeep(db, cat, c);
  }

  ghost function RunCalls(db: Db, cat: Catalog, run: seq<Call>): Db
    decreases |run|
  {
    if run == [] then db else RunCalls(Do(db, cat, run[0]), cat, run[1..])
  }

  ghost predicate HarmlessRun(db: Db, cat: Catalog, run: seq<Call>)
    decreases |run|
  {
    run == [] || (Harmless(db, cat, run[0]) && HarmlessRun(Do(db, cat, run[0]), cat, run[1..]))
  }

  /**
   Over every run from an agreed table, such as one without rows: at most one live row a user, a pending package
   only on an active row,
   and every active row's package limits are the limits stored for its user.
   */
  lemma {:induction false} AgreementOverRuns(db: Db, cat: Catalog, run: seq<Call>)
    requires Agreed(db, cat) && HarmlessRun(db, cat, run)
    ensures Agreed(RunCalls(db, cat, run), cat)
    decreases |run|
  {
    if run != [] {
      CallKeeps(db, cat, run[0]);
      AgreementOverRuns(Do(db, cat, run[0]), cat, run[1..]);
    }
  }

  lemma EmptyAgrees(cat: Catalog, limits: map<Id, Limits>)
    ensures Agreed(Db(map[], limits), cat)
  {}
}
