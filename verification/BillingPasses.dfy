/** What one run of the scheduler's downgrade and expiry passes leaves behind. */
module BillingPasses {
  import opened Options
  import opened Billing

  predicate Distinct(order: seq<Id>) {
    forall j, k :: 0 <= j < k < |order| ==> order[j] != order[k]
  }

  /** The listing returns every row. */
  predicate Covers(order: seq<Id>, db: Db) {
    forall id :: id in db.subs ==> id in order
  }

  lemma {:induction false} DueDowngradesExact(db: Db, order: seq<Id>, now: int)
    ensures forall id :: id in DueDowngrades(db, order, now) <==> id in order && DowngradeDue(db, id, now)
  {
    if order != [] {
      DueDowngradesExact(db, order[1..], now);
      assert order == [order[0]] + order[1..];
    }
  }

  lemma {:induction false} DueExpiriesExact(db: Db, order: seq<Id>, now: int)
    requires Distinct(order)
    ensures forall id :: id in DueExpiries(db, order, now) <==> id in order && ExpiryDue(db, id, now)
    ensures Distinct(DueExpiries(db, order, now))
  {
    if order != [] {
      assert Distinct(order[1..]);
      DueExpiriesExact(db, order[1..], now);
      assert order == [order[0]] + order[1..];
    }
  }

  function Downgraded(row: Sub, cat: Catalog): Sub {
    if row.pending.None? then row
    else if row.pending.value in cat.packages then WithPackage(row, row.pending.value)
    else row.(pending := None)
  }

  lemma {:induction false} DowngradeAllRows(db: Db, cat: Catalog, ids: seq<Id>)
    ensures var end := DowngradeAll(db, cat, ids);
            && end.subs.Keys == db.subs.Keys
            && forall id :: id in db.subs ==>
                 end.subs[id] == if id in ids then Downgraded(db.subs[id], cat) else db.subs[id]
    decreases |ids|
  {
    if ids != [] {
      var next := DowngradeTurn(db, cat, ids[0]);
      assert next.subs.Keys == db.subs.Keys;
      DowngradeAllRows(next, cat, ids[1..]);
      assert ids == [ids[0]] + ids[1..];
    }
  }

  /** A user none of whose rows is listed keeps his limits. */
  lemma {:induction false} DowngradeAllLimits(db: Db, cat: Catalog, ids: seq<Id>, user: Id)
    requires forall id :: id in ids && id in db.subs ==> db.subs[id].user != user
    ensures var end := DowngradeAll(db, cat, ids);
            (user in end.limits <==> user in db.limits) && (user in db.limits ==> end.limits[user] == db.limits[user])
    decreases |ids|
  {
    if ids != [] {
      var next := DowngradeTurn(db, cat, ids[0]);
      assert ids == [ids[0]] + ids[1..];
      assert forall id :: id in next.subs ==> id in db.subs && next.subs[id].user == db.subs[id].user;
      DowngradeAllLimits(next, cat, ids[1..], user);
    }
  }

  lemma {:induction false} ExpireAllRows(db: Db, cat: Catalog, ids: seq<Id>)
    ensures var end := ExpireAll(db, cat, ids);
            && end.subs.Keys == db.subs.Keys
            && forall id :: id in db.subs ==>
                 end.subs[id] == if id in ids then db.subs[id].(status := Expired) else db.subs[id]
    decreases |ids|
  {
    if ids != [] {
      var next := ExpiryTurn(db, cat, ids[0]);
      assert next.subs.Keys == db.subs.Keys;
      ExpireAllRows(next, cat, ids[1..]);
      assert ids == [ids[0]] + ids[1..];
    }
  }

  lemma {:induction false} ExpireAllLimits(db: Db, cat: Catalog, ids: seq<Id>, user: Id)
    ensures var end := ExpireAll(db, cat, ids);
            if exists id :: id in ids && id in db.subs && db.subs[id].user == user
            then user in end.limits && end.limits[user] == FreeLimits(cat)
            else
              && (user in end.limits <==> user in db.limits)
              && (user in db.limits ==> end.limits[user] == db.limits[user])
    decreases |ids|
  {
    if ids != [] {
      var next := ExpiryTurn(db, cat, ids[0]);
      assert ids == [ids[0]] + ids[1..];
      assert forall id :: id in db.subs <==> id in next.subs;
      assert forall id :: id in db.subs ==> next.subs[id].user == db.subs[id].user;
      ExpireAllLimits(next, cat, ids[1..], user);
      if id :| id in ids[1..] && id in db.subs && db.subs[id].user == user {
        assert id in ids;
      } else if ids[0] in db.subs && db.subs[ids[0]].user == user {
        assert ids[0] in ids;
      }
    }
  }

  /** What the two passes make of one row. */
  function Settled(row: Sub, cat: Catalog, now: int): Sub {
    if !Overdue(row, now) then row
    else
      var after := Downgraded(row, cat);
      if after.status == Active then after.(status := Expired) else after
  }

  lemma DowngradePassRows(db: Db, cat: Catalog, order: seq<Id>, now: int)
    requires Covers(order, db)
    ensures var mid := DowngradeAll(db, cat, DueDowngrades(db, order, now));
            && mid.subs.Keys == db.subs.Keys
            && forall id :: id in db.subs ==>
                 mid.subs[id] == if Overdue(db.subs[id], now) then Downgraded(db.subs[id], cat) else db.subs[id]
  {
    DueDowngradesExact(db, order, now);
    DowngradeAllRows(db, cat, DueDowngrades(db, order, now));
  }

  lemma ExpiryPassRows(db: Db, cat: Catalog, order: seq<Id>, now: int)
    requires Covers(order, db) && Distinct(order)
    ensures var end := ExpireAll(db, cat, DueExpiries(db, order, now));
            && end.subs.Keys == db.subs.Keys
            && forall id :: id in db.subs ==>
                 end.subs[id] == if ExpiryDue(db, id, now) then db.subs[id].(status := Expired) else db.subs[id]
  {
    DueExpiriesExact(db, order, now);
    ExpireAllRows(db, cat, DueExpiries(db, order, now));
  }

  lemma PassRows(db: Db, cat: Catalog, order: seq<Id>, now: int)
    requires Covers(order, db) && Distinct(order)
    ensures var end := DoPass(db, cat, order, now);
            && end.subs.Keys == db.subs.Keys
            && forall id :: id in db.subs ==> end.subs[id] == Settled(db.subs[id], cat, now)
  {
    DowngradePassRows(db, cat, order, now);
    ExpiryPassRows(DowngradeAll(db, cat, DueDowngrades(db, order, now)), cat, order, now);
  }

  lemma {:induction false} NothingDue(db: Db, order: seq<Id>, now: int)
    requires forall id :: id in db.subs ==> !DowngradeDue(db, id, now) && !ExpiryDue(db, id, now)
    ensures DueDowngrades(db, order, now) == [] && DueExpiries(db, order, now) == []
  {
    if order != [] {
      NothingDue(db, order[1..], now);
    }
  }

  /**
   After the passes at `now` no active row is overdue and no overdue row keeps a pending package; rows that are not
   overdue are untouched; the users of rows just expired have the free limits; a second pass changes nothing.
   */
  lemma PassSettles(db: Db, cat: Catalog, order: seq<Id>, now: int, again: seq<Id>)
    requires Covers(order, db) && Distinct(order)
    ensures var end := DoPass(db, cat, order, now);
            && end.subs.Keys == db.subs.Keys
            && (forall id :: id in end.subs && Overdue(end.subs[id], now) ==>
                  end.subs[id].status != Active && end.subs[id].pending.None?)
            && (forall id :: id in db.subs && !Overdue(db.subs[id], now) ==> end.subs[id] == db.subs[id])
            && (forall id :: id in db.subs && db.subs[id].status == Active && Overdue(db.subs[id], now)
                  ==> end.subs[id].status == Expired && db.subs[id].user in end.limits
                      && end.limits[db.subs[id].user] == FreeLimits(cat))
            && DoPass(end, cat, again, now) == end
  {
    var end := DoPass(db, cat, order, now);
    PassRows(db, cat, order, now);
    RowsSettled(db, end, cat, now);
    ExpiredUsersFree(db, cat, order, now);
    NothingDue(end, again, now);
    IdlePass(end, cat, again, now);
  }

  /** The two passes, seen row by row. */
  predicate SettledInto(db: Db, end: Db, cat: Catalog, now: int) {
    end.subs.Keys == db.subs.Keys && forall id :: id in db.subs ==> end.subs[id] == Settled(db.subs[id], cat, now)
  }

  lemma RowsSettled(db: Db, end: Db, cat: Catalog, now: int)
    requires SettledInto(db, end, cat, now)
    ensures forall id :: id in end.subs && Overdue(end.subs[id], now) ==>
              end.subs[id].status != Active && end.subs[id].pending.None?
    ensures forall id :: id in db.subs && !Overdue(db.subs[id], now) ==> end.subs[id] == db.subs[id]
    ensures forall id :: id in db.subs && db.subs[id].status == Active && Overdue(db.subs[id], now) ==>
              end.subs[id].status == Expired
    ensures forall id :: id in end.subs ==> !DowngradeDue(end, id, now) && !ExpiryDue(end, id, now)
  {}

  lemma ExpiredUsersFree(db: Db, cat: Catalog, order: seq<Id>, now: int)
    requires Covers(order, db) && Distinct(order)
    ensures var end := DoPass(db, cat, order, now);
            forall id :: id in db.subs && db.subs[id].status == Active && Overdue(db.subs[id], now) ==>
              db.subs[id].user in end.limits && end.limits[db.subs[id].user] == FreeLimits(cat)
  {
    forall id | id in db.subs && ExpiryDue(db, id, now)
      ensures db.subs[id].user in DoPass(db, cat, order, now).limits
      ensures DoPass(db, cat, order, now).limits[db.subs[id].user] == FreeLimits(cat)
    {
      ExpiredUserFree(db, cat, order, now, id);
    }
  }

  /** A pass with nothing due changes nothing. */
  lemma IdlePass(db: Db, cat: Catalog, order: seq<Id>, now: int)
    requires DueDowngrades(db, order, now) == [] && DueExpiries(db, order, now) == []
    ensures DoPass(db, cat, order, now) == db
  {}

  lemma ExpiredUserFree(db: Db, cat: Catalog, order: seq<Id>, now: int, id: Id)
    requires Covers(order, db) && Distinct(order) && ExpiryDue(db, id, now)
    ensures var end := DoPass(db, cat, order, now);
            db.subs[id].user in end.limits && end.limits[db.subs[id].user] == FreeLimits(cat)
  {
    var due := DueDowngrades(db, order, now);
    var mid := DowngradeAll(db, cat, due);
    DowngradeAllRows(db, cat, due);
    DueExpiriesExact(mid, order, now);
    assert id in DueExpiries(mid, order, now) && mid.subs[id].user == db.subs[id].user;
    ExpireAllLimits(mid, cat, DueExpiries(mid, order, now), db.subs[id].user);
  }

  /** A user without an overdue row that is active or has a package pending keeps his limits through the passes. */
  lemma PassSparesOthers(db: Db, cat: Catalog, order: seq<Id>, now: int, user: Id)
    requires Covers(order, db) && Distinct(order) && user in db.limits
    requires forall id :: id in db.subs && db.subs[id].user == user && Overdue(db.subs[id], now)
               ==> db.subs[id].status != Active && db.subs[id].pending.None?
    ensures var end := DoPass(db, cat, order, now); user in end.limits && end.limits[user] == db.limits[user]
  {
    var due := DueDowngrades(db, order, now);
    var mid := DowngradeAll(db, cat, due);
    DueDowngradesExact(db, order, now);
    DowngradeAllLimits(db, cat, due, user);
    DowngradeAllRows(db, cat, due);
    DueExpiriesExact(mid, order, now);
    ExpireAllLimits(mid, cat, DueExpiries(mid, order, now), user);
  }

  /**
   A downgrade the first pass applies to an active row never takes effect by itself: the second pass expires the
   row in the same run, and its user ends on the free limits, not on those of the target package.
   */
  lemma AppliedDowngradeExpires(db: Db, cat: Catalog, order: seq<Id>, now: int, id: Id)
    requires Covers(order, db) && Distinct(order)
    requires DowngradeDue(db, id, now) && db.subs[id].status == Active && db.subs[id].pending.value in cat.packages
    ensures var end := DoPass(db, cat, order, now);
            && id in end.subs && end.subs[id] == WithPackage(db.subs[id], db.subs[id].pending.value).(status := Expired)
            && db.subs[id].user in end.limits && end.limits[db.subs[id].user] == FreeLimits(cat)
  {
    PassRows(db, cat, order, now);
    PassSettles(db, cat, order, now, []);
  }
}
