/**
 The subscription repository, the subscription service and the webhook handler, statement by statement on tables
 updated in place. Each method is proved equal to the operation of the model it implements.
 */
module BillingService {
  import opened Options
  import opened Billing
  import opened BillingPasses
  import opened Webhooks
  import opened WebhookRuns
  import WebhookEffects

  /** No two packages share a Razorpay plan. */
  predicate PlansDistinct(cat: Catalog) {
    forall p, q :: p in cat.packages && q in cat.packages && cat.packages[p].plan.Some?
      && cat.packages[p].plan == cat.packages[q].plan
      ==> p == q
  }

  /** What the two unique indexes of the table guarantee. */
  ghost predicate Indexed(db: Db) {
    OneLive(db) && UniqueGateways(db)
  }

  lemma PutIndexed(db: Db, id: Id, row: Sub)
    requires Indexed(db)
    requires id in db.subs ==> db.subs[id].user == row.user && db.subs[id].gateway == row.gateway
    requires id !in db.subs && row.gateway.Some? ==> GatewayRow(db, row.gateway.value).None?
    requires !Clashes(db, id, row.user, row.status)
    ensures Indexed(Put(db, id, row))
  {
    var next := Put(db, id, row);
    forall a: Id, b: Id, u: Id | LiveFor(next, a, u) && LiveFor(next, b, u) ensures a == b {
      if a != id && b != id {
        assert LiveFor(db, a, u) && LiveFor(db, b, u);
      } else if a != b {
        assert LiveFor(db, if a == id then b else a, u);
      }
    }
  }

  lemma GrantIndexed(db: Db, user: Id, granted: Limits)
    requires Indexed(db)
    ensures Indexed(Grant(db, user, granted))
  {
    assert forall a: Id, u: Id :: LiveFor(Grant(db, user, granted), a, u) ==> LiveFor(db, a, u);
  }

  /** The index probe, over the rows of the table only. */
  lemma ProbeFindsClash(db: Db, id: Id, user: Id, status: Status)
    ensures Clashes(db, id, user, status) <==>
      && IsLive(status)
      && exists other ::
           other in db.subs && other != id && db.subs[other].user == user && IsLive(db.subs[other].status)
  {
    if other :| other in db.subs && other != id && db.subs[other].user == user && IsLive(db.subs[other].status) {
      assert LiveFor(db, other, user);
    }
  }

  class Database {
    const cat: Catalog
    var subs: map<Id, Sub>
    var limits: map<Id, Limits>
    var ledger: map<string, Charge>
    var seen: set<string>

    ghost function Rows(): Db
      reads this
    {
      Db(subs, limits)
    }

    ghost function Kept(): Books
      reads this
    {
      Books(Rows(), ledger)
    }

    ghost predicate Valid()
      reads this
    {
      Indexed(Rows()) && PlansDistinct(cat)
    }

    constructor (cat: Catalog, limits: map<Id, Limits>)
      requires PlansDistinct(cat)
      ensures Valid() && this.cat == cat && Kept() == Books(Db(map[], limits), map[]) && seen == {}
    {
      this.cat := cat;
      this.limits := limits;
      subs, ledger, seen := map[], map[], {};
    }

    method FindByUserID(user: Id) returns (found: Option<Id>)
      requires Valid()
      ensures found == LiveRow(Rows(), user)
    {
      if id :| id in subs && subs[id].user == user && IsLive(subs[id].status) {
        assert LiveFor(Rows(), id, user);
        found := Some(id);
      } else {
        found := None;
        assert LiveRow(Rows(), user).Some? ==> LiveFor(Rows(), LiveRow(Rows(), user).value, user);
      }
    }

    method FindByRazorpayID(gateway: string) returns (found: Option<Id>)
      requires Valid()
      ensures found == GatewayRow(Rows(), gateway)
    {
      if id :| id in subs && subs[id].gateway == Some(gateway) {
        found := Some(id);
      } else {
        found := None;
      }
    }

    method FindByRazorpayPlanID(plan: string) returns (found: Option<Id>)
      requires Valid()
      ensures found == PlanPackage(cat, Some(plan))
    {
      if p :| p in cat.packages && cat.packages[p].plan == Some(plan) {
        assert HasPlan(cat, p, plan);
        found := Some(p);
      } else {
        found := None;
        assert PlanPackage(cat, Some(plan)).Some? ==> HasPlan(cat, PlanPackage(cat, Some(plan)).value, plan);
      }
    }

    method Create(id: Id, row: Sub) returns (ok: bool)
      requires Valid() && id !in subs
      modifies this`subs
      ensures Valid()
      ensures ok <==> !Clashes(old(Rows()), id, row.user, row.status)
                      && (row.gateway.Some? ==> GatewayRow(old(Rows()), row.gateway.value).None?)
      ensures Rows() == if ok then Put(old(Rows()), id, row) else old(Rows())
    {
      var taken := IsLive(row.status)
        && exists other :: other in subs && other != id && subs[other].user == row.user && IsLive(subs[other].status);
      var used := row.gateway.Some? && exists other :: other in subs && subs[other].gateway == row.gateway;
      ok := !taken && !used;
      ProbeFindsClash(Rows(), id, row.user, row.status);
      if ok {
        PutIndexed(Rows(), id, row);
        subs := subs[id := row];
      }
    }

    method UpdateStatus(id: Id, status: Status, start: Option<int>, end: Option<int>, payment: Option<string>)
      returns (ok: bool)
      requires Valid()
      modifies this`subs
      ensures Valid()
      ensures ok <==> StatusAccepted(old(Rows()), id, status)
      ensures Rows()
        == if ok then Put(old(Rows()), id, WithStatus(old(subs)[id], status, start, end, payment)) else old(Rows())
    {
      if id !in subs {
        return false;
      }
      var user := subs[id].user;
      var clash := IsLive(status)
        && exists other :: other in subs && other != id && subs[other].user == user && IsLive(subs[other].status);
      ProbeFindsClash(Rows(), id, user, status);
      if clash {
        return false;
      }
      var row := WithStatus(subs[id], status, start, end, payment);
      PutIndexed(Rows(), id, row);
      subs := subs[id := row];
      return true;
    }

    /** Writes to columns that no index covers. */
    method Write(id: Id, row: Sub)
      requires Valid() && id in subs
      requires row.user == subs[id].user && row.gateway == subs[id].gateway && row.status == subs[id].status
      modifies this`subs
      ensures Valid() && Rows() == Put(old(Rows()), id, row)
    {
      assert IsLive(row.status) ==> LiveFor(Rows(), id, row.user);
      PutIndexed(Rows(), id, row);
      subs := subs[id := row];
    }

    method SetCancellation(id: Id, atCycleEnd: bool, at: Option<int>)
      requires Valid() && id in subs
      modifies this`subs
      ensures Valid()
      ensures Rows() == Put(old(Rows()), id, old(subs)[id].(cancelAtCycleEnd := atCycleEnd, cancelledAt := at))
    {
      Write(id, subs[id].(cancelAtCycleEnd := atCycleEnd, cancelledAt := at));
    }

    method SetPendingDowngrade(id: Id, pending: Option<Id>)
      requires Valid() && id in subs
      modifies this`subs
      ensures Valid() && Rows() == Put(old(Rows()), id, old(subs)[id].(pending := pending))
    {
      Write(id, subs[id].(pending := pending));
    }

    method UpdatePackageID(id: Id, pkg: Id)
      requires Valid() && id in subs
      modifies this`subs
      ensures Valid() && Rows() == Put(old(Rows()), id, WithPackage(old(subs)[id], pkg))
    {
      Write(id, WithPackage(subs[id], pkg));
    }

    /** The foreign key refuses an id that is not a subscription's. */
    method SetUpgradedFrom(id: Id, from: Option<Id>) returns (ok: bool)
      requires Valid() && id in subs
      modifies this`subs
      ensures Valid()
      ensures ok <==> from.None? || from.value in old(subs)
      ensures Rows() == if ok then Put(old(Rows()), id, old(subs)[id].(upgradedFrom := from)) else old(Rows())
    {
      ok := from.None? || from.value in subs;
      if ok {
        Write(id, subs[id].(upgradedFrom := from));
      }
    }

    method UpdateReminders(id: Id, left: set<nat>)
      requires Valid() && id in subs
      modifies this`subs
      ensures Valid() && Rows() == Put(old(Rows()), id, old(subs)[id].(reminders := left))
    {
      Write(id, subs[id].(reminders := left));
    }

    method UpdateStorageLimits(user: Id, granted: Limits)
      requires Valid()
      modifies this`limits
      ensures Valid() && Rows() == Grant(old(Rows()), user, granted)
    {
      GrantIndexed(Rows(), user, granted);
      limits := limits[user := granted];
    }

    /** `order`: the order in which the database returns the rows. */
    method ListPendingDowngrades(order: seq<Id>, now: int) returns (due: seq<Id>)
      ensures due == DueDowngrades(Rows(), order, now)
    {
      due := [];
      var i := |order|;
      while i > 0
        invariant 0 <= i <= |order|
        invariant due == DueDowngrades(Rows(), order[i..], now)
      {
        i := i - 1;
        assert order[i..][1..] == order[i + 1..];
        if order[i] in subs && subs[order[i]].pending.Some? && Overdue(subs[order[i]], now) {
          due := [order[i]] + due;
        }
      }
      assert order[0..] == order;
    }

    method ListExpiringOrExpired(order: seq<Id>, now: int) returns (due: seq<Id>)
      ensures due == DueExpiries(Rows(), order, now)
    {
      due := [];
      var i := |order|;
      while i > 0
        invariant 0 <= i <= |order|
        invariant due == DueExpiries(Rows(), order[i..], now)
      {
        i := i - 1;
        assert order[i..][1..] == order[i + 1..];
        if order[i] in subs && subs[order[i]].status == Active && Overdue(subs[order[i]], now) {
          due := [order[i]] + due;
        }
      }
      assert order[0..] == order;
    }

    /** Nothing is written for a payment already in the ledger. */
    method RecordCharge(id: Id, row: Sub, payment: string, total: int)
      modifies this`ledger
      ensures Kept()
        == Exec(old(Kept()), Webhooks.Write(id, row.user, OpCharge(payment, ChargeFor(cat, id, row, total))))
      ensures payment in old(ledger) ==> ledger == old(ledger)
      ensures payment !in old(ledger) ==>
        && payment in ledger && ledger == old(ledger)[payment := ledger[payment]]
        && WebhookEffects.EntryFor(ledger[payment], id, row, total)
    {
      if payment !in ledger {
        ledger := ledger[payment := ChargeFor(cat, id, row, total)];
      }
    }
  }

  class SubscriptionService {
    const db: Database

    constructor (db: Database)
      ensures this.db == db
    {
      this.db := db;
    }

    /** `issued`: the id of the Razorpay subscription; None when Razorpay is not configured or refuses. */
    method Subscribe(user: Id, pkg: Id, issued: Option<string>, newId: Id, now: int) returns (ok: bool)
      requires db.Valid() && newId !in db.subs
      modifies db
      ensures db.Valid()
      ensures db.Kept()
        == old(db.Kept()).(db := Do(old(db.Rows()), db.cat, Call.Subscribe(user, pkg, issued, newId, now)))
      ensures ok <==> newId in db.subs
    {
      var live := db.FindByUserID(user);
      if live.Some? {
        if db.subs[live.value].status != Created {
          return false;
        }
        var _ := db.UpdateStatus(live.value, Cancelled, None, None, None);
        db.SetCancellation(live.value, false, Some(now));
      }
      assert db.Rows() == DropUnpaid(old(db.Rows()), user, now);
      if pkg !in db.cat.packages || db.cat.packages[pkg].price == 0 || db.cat.packages[pkg].plan.None? || issued.None? {
        return false;
      }
      assert forall other :: !LiveFor(db.Rows(), other, user) by {
        NoneLiveAfterDrop(old(db.Rows()), user, now);
      }
      ok := db.Create(newId, NewRow(user, pkg, issued, Created, None, None));
      SameGatewayAfterDrop(old(db.Rows()), user, now, issued.value);
    }

    lemma NoneLiveAfterDrop(before: Db, user: Id, now: int)
      requires OneLive(before)
        && (LiveRow(before, user).Some? ==> before.subs[LiveRow(before, user).value].status == Created)
      ensures forall other :: !LiveFor(DropUnpaid(before, user, now), other, user)
    {
      forall other: Id ensures !LiveFor(DropUnpaid(before, user, now), other, user) {
        assert LiveFor(before, other, user) ==> LiveRow(before, user) == Some(other);
      }
    }

    lemma SameGatewayAfterDrop(before: Db, user: Id, now: int, gateway: string)
      requires UniqueGateways(before)
      ensures GatewayRow(DropUnpaid(before, user, now), gateway) == GatewayRow(before, gateway)
    {
      assert SameOwners(before, DropUnpaid(before, user, now));
      SameRowFound(before, DropUnpaid(before, user, now), gateway);
    }

    /** After the signature has been checked. */
    method Verify(user: Id, gateway: string, payment: string, remote: Option<Remote>, now: int, monthLater: int)
      returns (ok: bool)
      requires db.Valid()
      modifies db
      ensures db.Valid()
      ensures db.Kept()
        == old(db.Kept()).(
             db := Do(old(db.Rows()), db.cat, Call.Verify(user, gateway, payment, remote, now, monthLater)))
      ensures ok <==> (var found := GatewayRow(old(db.Rows()), gateway);
                       found.Some? && old(db.subs)[found.value].user == user
                       && (old(db.subs)[found.value].status == Active
                           || StatusAccepted(old(db.Rows()), found.value,
                             Fetched(Call.Verify(user, gateway, payment, remote, now, monthLater)).0)))
    {
      var found := db.FindByRazorpayID(gateway);
      if found.None? || db.subs[found.value].user != user {
        return false;
      }
      var id := found.value;
      if db.subs[id].status == Active {
        return true;
      }
      var start := if remote.Some? && remote.value.start.Some? then remote.value.start else Some(now);
      var end := if remote.Some? && remote.value.end.Some? then remote.value.end else Some(monthLater);
      var status := Active;
      if remote.Some? && remote.value.status.Some? && remote.value.status.value != Created {
        status := remote.value.status.value;
      }
      ok := db.UpdateStatus(id, status, start, end, Some(payment));
      if ok && db.subs[id].pkg in db.cat.packages {
        db.UpdateStorageLimits(user, db.cat.packages[db.subs[id].pkg].limits);
      }
    }

    /** The guard has excluded the pending package and the cancellation that the source goes on to clear. */
    method Upgrade(user: Id, target: Id, gatewayOk: bool) returns (ok: bool)
      requires db.Valid()
      modifies db
      ensures db.Valid()
      ensures db.Kept() == old(db.Kept()).(db := Do(old(db.Rows()), db.cat, Call.Upgrade(user, target, gatewayOk)))
      ensures ok <==> HasActive(old(db.Rows()), user)
                      && MayUpgrade(old(db.Rows()).subs[LiveRow(old(db.Rows()), user).value], db.cat, target, gatewayOk)
    {
      var live := db.FindByUserID(user);
      if live.None? || db.subs[live.value].status != Active {
        return false;
      }
      var id := live.value;
      var row := db.subs[id];
      if row.pkg !in db.cat.packages || target !in db.cat.packages || row.pending.Some? || row.cancelAtCycleEnd
        || target == row.pkg {
        return false;
      }
      var from, to := db.cat.packages[row.pkg], db.cat.packages[target];
      if to.price <= from.price || to.plan.None? || (row.gateway.Some? && !gatewayOk) {
        return false;
      }
      db.UpdatePackageID(id, target);
      var _ := db.SetUpgradedFrom(id, Some(row.pkg));
      db.UpdateStorageLimits(user, to.limits);
      return true;
    }

    method Downgrade(user: Id, target: Id, gatewayOk: bool) returns (ok: bool)
      requires db.Valid()
      modifies db
      ensures db.Valid()
      ensures db.Kept() == old(db.Kept()).(db := Do(old(db.Rows()), db.cat, Call.Downgrade(user, target, gatewayOk)))
      ensures ok <==> HasActive(old(db.Rows()), user)
                      && MayDowngrade(old(db.Rows()).subs[LiveRow(old(db.Rows()), user).value], db.cat,
                                      target, gatewayOk)
    {
      var live := db.FindByUserID(user);
      if live.None? || db.subs[live.value].status != Active {
        return false;
      }
      var id := live.value;
      var row := db.subs[id];
      if row.pkg !in db.cat.packages || target !in db.cat.packages || row.pending.Some? || row.cancelAtCycleEnd
         || row.upgradedFrom.Some? || target == row.pkg {
        return false;
      }
      var from, to := db.cat.packages[row.pkg], db.cat.packages[target];
      if to.price >= from.price {
        return false;
      }
      if to.price == 0 {
        db.SetCancellation(id, true, None);
        db.SetPendingDowngrade(id, Some(target));
        return true;
      }
      if to.plan.None? || (row.gateway.Some? && !gatewayOk) {
        return false;
      }
      db.SetPendingDowngrade(id, Some(target));
      return true;
    }

    method Cancel(user: Id) returns (ok: bool)
      requires db.Valid()
      modifies db
      ensures db.Valid()
      ensures db.Kept() == old(db.Kept()).(db := Do(old(db.Rows()), db.cat, Call.Cancel(user)))
      ensures ok <==> HasActive(old(db.Rows()), user)
      ensures db.limits == old(db.limits) && (!ok ==> db.subs == old(db.subs))
      ensures ok ==>
        var id := LiveRow(old(db.Rows()), user).value;
        && old(db.subs)[id].user == user && old(db.subs)[id].status == Active
        && db.subs == old(db.subs)[id := old(db.subs)[id].(cancelAtCycleEnd := true, cancelledAt := None)]
    {
      var live := db.FindByUserID(user);
      ok := live.Some? && db.subs[live.value].status == Active;
      if ok {
        db.SetCancellation(live.value, true, None);
      }
    }

    method CancelPendingDowngrade(user: Id) returns (ok: bool)
      requires db.Valid()
      modifies db
      ensures db.Valid()
      ensures db.Kept() == old(db.Kept()).(db := Do(old(db.Rows()), db.cat, Call.CancelPendingDowngrade(user)))
      ensures ok <==> HasActive(old(db.Rows()), user)
                      && old(db.Rows()).subs[LiveRow(old(db.Rows()), user).value].pending.Some?
    {
      var live := db.FindByUserID(user);
      if live.None? || db.subs[live.value].status != Active || db.subs[live.value].pending.None? {
        return false;
      }
      db.SetPendingDowngrade(live.value, None);
      if db.subs[live.value].cancelAtCycleEnd {
        db.SetCancellation(live.value, false, None);
      }
      return true;
    }

    method AdminCancel(id: Id, now: int) returns (ok: bool)
      requires db.Valid()
      modifies db
      ensures db.Valid()
      ensures db.Kept() == old(db.Kept()).(db := Do(old(db.Rows()), db.cat, Call.AdminCancel(id, now)))
      ensures ok <==> id in old(db.subs)
    {
      if id !in db.subs {
        return false;
      }
      var _ := db.UpdateStatus(id, Cancelled, None, None, None);
      db.SetCancellation(id, false, Some(now));
      db.UpdateStorageLimits(db.subs[id].user, FreeLimits(db.cat));
      return true;
    }

    method AdminAssign(user: Id, pkg: Id, newId: Id, now: int, until: int) returns (ok: bool)
      requires db.Valid() && newId !in db.subs
      modifies db
      ensures db.Valid()
      ensures db.Kept()
        == old(db.Kept()).(db := Do(old(db.Rows()), db.cat, Call.AdminAssign(user, pkg, newId, now, until)))
      ensures ok <==> pkg in db.cat.packages
    {
      var live := db.FindByUserID(user);
      if live.Some? {
        var _ := AdminCancel(live.value, now);
      }
      if pkg !in db.cat.packages {
        return false;
      }
      assert forall other :: !LiveFor(db.Rows(), other, user) by {
        forall other: Id ensures !LiveFor(db.Rows(), other, user) {
          assert LiveFor(old(db.Rows()), other, user) ==> live == Some(other);
        }
      }
      ok := db.Create(newId, NewRow(user, pkg, None, Active, Some(now), Some(until)));
      db.UpdateStorageLimits(user, db.cat.packages[pkg].limits);
    }

    /** The body of the downgrade loop, for a listed copy that is still the row. */
    method ApplyDowngrade(id: Id, row: Sub)
      requires db.Valid() && id in db.subs && db.subs[id] == row && row.pending.Some?
      modifies db`subs, db`limits
      ensures db.Valid() && db.Rows() == DowngradeTurn(old(db.Rows()), db.cat, id)
      ensures db.subs.Keys == old(db.subs).Keys && forall o :: o in db.subs && o != id ==> db.subs[o] == old(db.subs)[o]
    {
      if row.pending.value !in db.cat.packages {
        db.SetPendingDowngrade(id, None);
      } else {
        db.UpdatePackageID(id, row.pending.value);
        db.UpdateStorageLimits(row.user, db.cat.packages[row.pending.value].limits);
      }
    }

    /** The listed rows are copies taken before the loop. */
    method ApplyDowngrades(due: seq<Id>, listed: map<Id, Sub>)
      requires db.Valid() && Distinct(due)
      requires forall id :: id in due ==>
        id in db.subs && id in listed && listed[id] == db.subs[id] && listed[id].pending.Some?
      modifies db`subs, db`limits
      ensures db.Valid() && db.Rows() == DowngradeAll(old(db.Rows()), db.cat, due)
    {
      var i := 0;
      while i < |due|
        invariant 0 <= i <= |due| && db.Valid()
        invariant forall k :: i <= k < |due| ==> due[k] in db.subs && listed[due[k]] == db.subs[due[k]]
        invariant DowngradeAll(db.Rows(), db.cat, due[i..]) == DowngradeAll(old(db.Rows()), db.cat, due)
      {
        var id, row := due[i], listed[due[i]];
        assert due[i..][0] == id && due[i..][1..] == due[i + 1..];
        ApplyDowngrade(id, row);
        i := i + 1;
      }
    }

    method ExpireRows(due: seq<Id>)
      requires db.Valid() && forall id :: id in due ==> id in db.subs
      modifies db`subs, db`limits
      ensures db.Valid() && db.Rows() == ExpireAll(old(db.Rows()), db.cat, due)
    {
      var granted := FreeLimits(db.cat);
      var i := 0;
      while i < |due|
        invariant 0 <= i <= |due| && db.Valid()
        invariant forall id :: id in due ==> id in db.subs
        invariant ExpireAll(db.Rows(), db.cat, due[i..]) == ExpireAll(old(db.Rows()), db.cat, due)
      {
        var id := due[i];
        assert due[i..][0] == id && due[i..][1..] == due[i + 1..] && id in due;
        ghost var before := db.Rows();
        var _ := db.UpdateStatus(id, Expired, None, None, None);
        db.UpdateStorageLimits(db.subs[id].user, granted);
        assert db.Rows() == ExpiryTurn(before, db.cat, id);
        i := i + 1;
      }
    }

    /** Part 1: lists the due downgrades and applies them. */
    method ApplyPending(order: seq<Id>, now: int)
      requires db.Valid() && Distinct(order)
      modifies db`subs, db`limits
      ensures db.Valid()
      ensures db.Rows() == DowngradeAll(old(db.Rows()), db.cat, DueDowngrades(old(db.Rows()), order, now))
    {
      var due := db.ListPendingDowngrades(order, now);
      DueDowngradesExact(db.Rows(), order, now);
      DueDistinct(db.Rows(), order, now);
      ApplyDowngrades(due, db.subs);
    }

    /** Part 2: lists the overdue rows and expires them. */
    method ExpireOverdue(order: seq<Id>, now: int)
      requires db.Valid() && Distinct(order)
      modifies db`subs, db`limits
      ensures db.Valid() && db.Rows() == ExpireAll(old(db.Rows()), db.cat, DueExpiries(old(db.Rows()), order, now))
    {
      var expiring := db.ListExpiringOrExpired(order, now);
      DueExpiriesExact(db.Rows(), order, now);
      ExpireRows(expiring);
    }

    /** Parts 1 and 2. */
    method ProcessScheduledDowngrades(order: seq<Id>, now: int)
      requires db.Valid() && Distinct(order)
      modifies db
      ensures db.Valid()
      ensures db.Kept() == old(db.Kept()).(db := Do(old(db.Rows()), db.cat, Call.Pass(now, order)))
    {
      ApplyPending(order, now);
      ExpireOverdue(order, now);
    }

    lemma {:induction false} DueDistinct(before: Db, order: seq<Id>, now: int)
      requires Distinct(order)
      ensures Distinct(DueDowngrades(before, order, now))
    {
      if order != [] {
        assert Distinct(order[1..]);
        DueDistinct(before, order[1..], now);
        DueDowngradesExact(before, order[1..], now);
        assert order == [order[0]] + order[1..];
      }
    }
  }

  class WebhookHandler {
    const db: Database

    constructor (db: Database)
      ensures this.db == db
    {
      this.db := db;
    }

    /** One more write of the list: accepted and done, or refused, which ends the attempt. */
    lemma OneMore(b: Books, ws: seq<Webhooks.Write>, k: nat)
      requires k < |ws| && Perform(b, ws[..k]).ok
      ensures var mid := Perform(b, ws[..k]).books;
              && (Accepts(mid, ws[k]) ==> Perform(b, ws[..k + 1]) == Outcome(Exec(mid, ws[k]), true))
              && (!Accepts(mid, ws[k]) ==> Perform(b, ws) == Outcome(mid, false))
              && (k + 1 == |ws| ==> ws[..k + 1] == ws)
    {
      var mid := Perform(b, ws[..k]).books;
      assert ws[..k + 1] == ws[..k] + [ws[k]] && ws == ws[..k] + ws[k..];
      PerformConcat(b, ws[..k], [ws[k]]);
      PerformConcat(b, ws[..k], ws[k..]);
      assert Perform(Exec(mid, ws[k]), []) == Outcome(Exec(mid, ws[k]), true);
    }

    method ApplyPlan(id: Id, row: Sub, p: Id, ghost ws: seq<Webhooks.Write>)
      requires db.Valid() && id in db.subs && db.subs[id] == row && p in db.cat.packages && |ws| >= 3
      requires ws[0] == Webhooks.Write(id, row.user, OpPackage(p))
        && ws[1] == Webhooks.Write(id, row.user, OpClearPending)
      requires ws[2] == Webhooks.Write(id, row.user, OpLimits(db.cat.packages[p].limits))
      modifies db`subs, db`limits
      ensures db.Valid() && Perform(old(db.Kept()), ws[..3]) == Outcome(db.Kept(), true)
      ensures id in db.subs && db.subs[id].user == row.user
    {
      ghost var b := db.Kept();
      OneMore(b, ws, 0);
      db.UpdatePackageID(id, p);
      OneMore(b, ws, 1);
      if row.pending.Some? {
        db.SetPendingDowngrade(id, None);
      }
      assert db.Kept() == Perform(b, ws[..2]).books;
      OneMore(b, ws, 2);
      db.UpdateStorageLimits(row.user, db.cat.packages[p].limits);
    }

    method ProcessUpdated(id: Id, e: Event, now: int) returns (ok: bool)
      requires db.Valid() && id in db.subs && e.kind.SubUpdated?
      modifies db`subs, db`limits
      ensures db.Valid()
      ensures Outcome(db.Kept(), ok)
           == Perform(old(db.Kept()), OnRow(id, old(db.subs)[id].user, Ops(db.cat, id, old(db.subs)[id], e, now)))
    {
      var row := db.subs[id];
      ghost var b := db.Kept();
      ghost var ws := OnRow(id, row.user, Ops(db.cat, id, row, e, now));
      ghost var k := 0;
      var p: Option<Id> := None;
      if e.plan.Some? {
        p := db.FindByRazorpayPlanID(e.plan.value);
      }
      if p.Some? {
        ApplyPlan(id, row, p.value, ws);
        k := 3;
      }
      assert Perform(b, ws[..k]) == Outcome(db.Kept(), true) && k + 1 == |ws|;
      OneMore(b, ws, k);
      ok := db.UpdateStatus(id, if e.status.Some? then e.status.value else Active, e.start, e.end, e.payment);
    }

    method ProcessCharged(id: Id, e: Event, now: int) returns (ok: bool)
      requires db.Valid() && id in db.subs && e.kind.SubCharged?
      modifies db`subs, db`ledger
      ensures db.Valid()
      ensures Outcome(db.Kept(), ok)
           == Perform(old(db.Kept()), OnRow(id, old(db.subs)[id].user, Ops(db.cat, id, old(db.subs)[id], e, now)))
    {
      var row := db.subs[id];
      ghost var b := db.Kept();
      ghost var ws := OnRow(id, row.user, Ops(db.cat, id, row, e, now));
      OneMore(b, ws, 0);
      ok := db.UpdateStatus(id, Active, e.start, e.end, e.payment);
      if !ok {
        return;
      }
      OneMore(b, ws, 1);
      var _ := db.SetUpgradedFrom(id, None);
      OneMore(b, ws, 2);
      db.UpdateReminders(id, row.reminders - REMINDER_DAYS);
      assert db.Kept() == Perform(b, ws[..3]).books;
      if e.payment.Some? {
        OneMore(b, ws, 3);
        db.RecordCharge(id, row, e.payment.value, e.amount);
      }
    }

    method ProcessCancelled(id: Id, e: Event, now: int) returns (ok: bool)
      requires db.Valid() && id in db.subs && e.kind.SubCancelled?
      modifies db`subs, db`limits
      ensures db.Valid()
      ensures Outcome(db.Kept(), ok)
           == Perform(old(db.Kept()), OnRow(id, old(db.subs)[id].user, Ops(db.cat, id, old(db.subs)[id], e, now)))
    {
      var row := db.subs[id];
      ghost var b := db.Kept();
      ghost var ws := OnRow(id, row.user, Ops(db.cat, id, row, e, now));
      OneMore(b, ws, 0);
      ok := db.UpdateStatus(id, Cancelled, e.start, e.end, e.payment);
      if !ok {
        return;
      }
      OneMore(b, ws, 1);
      db.SetCancellation(id, false, Some(now));
      assert db.Kept() == Perform(b, ws[..2]).books;
      if e.end.None? || e.end.value <= now {
        OneMore(b, ws, 2);
        db.UpdateStorageLimits(row.user, FreeLimits(db.cat));
      }
    }

    /** The kinds that write the status and, some of them, the user's limits. */
    method ProcessStatus(id: Id, e: Event, now: int) returns (ok: bool)
      requires db.Valid() && id in db.subs
      requires !e.kind.SubUpdated? && !e.kind.SubCharged? && !e.kind.SubCancelled? && !e.kind.Unhandled?
      modifies db`subs, db`limits
      ensures db.Valid()
      ensures Outcome(db.Kept(), ok)
           == Perform(old(db.Kept()), OnRow(id, old(db.subs)[id].user, Ops(db.cat, id, old(db.subs)[id], e, now)))
    {
      var row := db.subs[id];
      ghost var b := db.Kept();
      ghost var ws := OnRow(id, row.user, Ops(db.cat, id, row, e, now));
      OneMore(b, ws, 0);
      ok := db.UpdateStatus(id, StatusOf(e), e.start, e.end, e.payment);
      if !ok {
        return;
      }
      assert db.Kept() == Perform(b, ws[..1]).books;
      if e.kind.SubActivated? {
        if row.pkg in db.cat.packages {
          OneMore(b, ws, 1);
          db.UpdateStorageLimits(row.user, db.cat.packages[row.pkg].limits);
        }
      } else if e.kind.SubCompleted? || e.kind.SubExpired? {
        OneMore(b, ws, 1);
        db.UpdateStorageLimits(row.user, FreeLimits(db.cat));
      }
    }

    method ProcessEvent(e: Event, now: int) returns (ok: bool)
      requires db.Valid()
      modifies db
      ensures db.Valid() && db.seen == old(db.seen)
      ensures Outcome(db.Kept(), ok) == Whole(old(db.Kept()), db.cat, e, now)
    {
      if e.gateway == "" {
        return true;
      }
      var found := db.FindByRazorpayID(e.gateway);
      if found.None? || e.kind.Unhandled? {
        return true;
      }
      if e.kind.SubUpdated? {
        ok := ProcessUpdated(found.value, e, now);
      } else if e.kind.SubCharged? {
        ok := ProcessCharged(found.value, e, now);
      } else if e.kind.SubCancelled? {
        ok := ProcessCancelled(found.value, e, now);
      } else {
        ok := ProcessStatus(found.value, e, now);
      }
    }

    /** HandleRazorpayWebhook for a delivery that runs to its end. */
    method HandleRazorpayWebhook(e: Event, now: int) returns (done: bool)
      requires db.Valid()
      modifies db
      ensures db.Valid()
      ensures Server(db.Kept(), db.seen) == Handle(Server(old(db.Kept()), old(db.seen)), db.cat, now, Delivery(e, None))
      ensures done <==> e.key in db.seen
    {
      if e.key in db.seen {
        return true;
      }
      done := ProcessEvent(e, now);
      if done {
        db.seen := db.seen + {e.key};
      }
    }
  }
}
