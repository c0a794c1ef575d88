/**
 Subscription rows, user limits and the operations on them. Identifiers of rows and of packages are drawn
 from one type, as both are UUID columns; the catalog of packages does not change.
 */
module Billing {
  import opened Options

  type Id = nat

  datatype Status =
    | Created | Authenticated | Active | PendingPayment | Halted | Cancelled | Completed | Paused | Expired
    | Other(name: string)

  datatype Limits = Limits(storage: int, maxFile: int)

  /** `plan` is None when the package has no Razorpay plan, or an empty one. */
  datatype Package = Package(price: int, limits: Limits, plan: Option<string>, gstRate: real)

  /** `free` is the row named "free", when there is one. */
  datatype Catalog = Catalog(packages: map<Id, Package>, free: Option<Id>)

  datatype Sub = Sub(user: Id, pkg: Id, gateway: Option<string>, status: Status, start: Option<int>, end: Option<int>,
                     payment: Option<string>, cancelAtCycleEnd: bool, cancelledAt: Option<int>,
                     pending: Option<Id>, upgradedFrom: Option<Id>, reminders: set<nat>)

  datatype Db = Db(subs: map<Id, Sub>, limits: map<Id, Limits>)

  const DEFAULT_FREE := Limits(5368709120, 2147483648)

  function FreeLimits(cat: Catalog): Limits {
    if cat.free.Some? && cat.free.value in cat.packages then cat.packages[cat.free.value].limits else DEFAULT_FREE
  }

  predicate IsLive(status: Status) {
    status == Active || status == Authenticated || status == PendingPayment || status == Created
  }

  predicate LiveFor(db: Db, id: Id, user: Id) {
    id in db.subs && db.subs[id].user == user && IsLive(db.subs[id].status)
  }

  // ---------------------------------------------------------------- statements

  /** The unique index on live rows refuses a second live row of the same user. */
  ghost predicate Clashes(db: Db, id: Id, user: Id, status: Status) {
    IsLive(status) && exists other :: other != id && LiveFor(db, other, user)
  }

  ghost predicate StatusAccepted(db: Db, id: Id, status: Status) {
    id in db.subs && !Clashes(db, id, db.subs[id].user, status)
  }

  function WithStatus(row: Sub, status: Status, start: Option<int>, end: Option<int>, payment: Option<string>): Sub {
    row.(status := status, start := Coalesce(start, row.start), end := Coalesce(end, row.end),
         payment := Coalesce(payment, row.payment))
  }

  function Put(db: Db, id: Id, row: Sub): Db {
    db.(subs := db.subs[id := row])
  }

  function Grant(db: Db, user: Id, limits: Limits): Db {
    db.(limits := db.limits[user := limits])
  }

  /** UpdatePackageID also clears the pending package. */
  function WithPackage(row: Sub, pkg: Id): Sub {
    row.(pkg := pkg, pending := None)
  }

  /** The column references subscription rows; writing any other id is refused, and the error is ignored. */
  function WithLock(db: Db, row: Sub, from: Id): Sub {
    if from in db.subs then row.(upgradedFrom := Some(from)) else row
  }

  // ---------------------------------------------------------------- operations

  /** Razorpay's answer to FetchSubscription. */
  datatype Remote = Remote(status: Option<Status>, start: Option<int>, end: Option<int>)

  datatype Call =
    | Subscribe(user: Id, pkg: Id, issued: Option<string>, newId: Id, now: int)
    | Verify(user: Id, gateway: string, payment: string, remote: Option<Remote>, now: int, monthLater: int)
    | Upgrade(user: Id, target: Id, gatewayOk: bool)
    | Downgrade(user: Id, target: Id, gatewayOk: bool)
    | Cancel(user: Id)
    | CancelPendingDowngrade(user: Id)
    | AdminCancel(id: Id, now: int)
    | AdminAssign(user: Id, pkg: Id, newId: Id, now: int, until: int)
    | Activated(gateway: string, start: Option<int>, end: Option<int>, paid: Option<string>)
    | Pass(now: int, order: seq<Id>)

  /** FindByUserID. The unique index makes the row unique. */
  ghost function LiveRow(db: Db, user: Id): (r: Option<Id>)
    ensures r.Some? ==> LiveFor(db, r.value, user)
    ensures r.None? ==> forall id :: !LiveFor(db, id, user)
  {
    if id :| LiveFor(db, id, user) then Some(id) else None
  }

  /** FindByRazorpayID. */
  ghost function GatewayRow(db: Db, gateway: string): (r: Option<Id>)
    ensures r.Some? ==> r.value in db.subs && db.subs[r.value].gateway == Some(gateway)
    ensures r.None? ==> forall id :: id in db.subs ==> db.subs[id].gateway != Some(gateway)
  {
    if id :| id in db.subs && db.subs[id].gateway == Some(gateway) then Some(id) else None
  }

  ghost predicate HasActive(db: Db, user: Id) {
    LiveRow(db, user).Some? && db.subs[LiveRow(db, user).value].status == Active
  }

  function CancelledRow(row: Sub, now: int): Sub {
    row.(status := Cancelled, cancelAtCycleEnd := false, cancelledAt := Some(now))
  }

  function NewRow(user: Id, pkg: Id, gateway: Option<string>, status: Status,
                  start: Option<int>, end: Option<int>): Sub
  {
    Sub(user, pkg, gateway, status, start, end, None, false, None, None, None, {})
  }

  /** An unpaid checkout is replaced; any other live row blocks the new subscription. */
  ghost function DropUnpaid(db: Db, user: Id, now: int): Db {
    var live := LiveRow(db, user);
    if live.Some? && db.subs[live.value].status == Created
    then Put(db, live.value, CancelledRow(db.subs[live.value], now)) else db
  }

  ghost function DoSubscribe(db: Db, cat: Catalog, c: Call): Db
    requires c.Subscribe?
  {
    var live := LiveRow(db, c.user);
    if live.Some? && db.subs[live.value].status != Created then db
    else
      var open := DropUnpaid(db, c.user, c.now);
      if c.pkg !in cat.packages || cat.packages[c.pkg].price == 0 || cat.packages[c.pkg].plan.None? || c.issued.None?
         || c.newId in db.subs || GatewayRow(db, c.issued.value).Some? then open
      else Put(open, c.newId, NewRow(c.user, c.pkg, c.issued, Created, None, None))
  }

  /** The status, period start and period end that Verify writes. */
  function Fetched(c: Call): (Status, int, int)
    requires c.Verify?
  {
    match c.remote
    case None => (Active, c.now, c.monthLater)
    case Some(r) =>
      (if r.status.Some? && r.status.value != Created then r.status.value else Active,
       if r.start.Some? then r.start.value else c.now,
       if r.end.Some? then r.end.value else c.monthLater)
  }

  ghost function DoVerify(db: Db, cat: Catalog, c: Call): Db
    requires c.Verify?
  {
    var found := GatewayRow(db, c.gateway);
    if found.None? then db
    else
      var id := found.value;
      var row := db.subs[id];
      var (status, start, end) := Fetched(c);
      if row.user != c.user || row.status == Active || !StatusAccepted(db, id, status) then db
      else
        var next := Put(db, id, WithStatus(row, status, Some(start), Some(end), Some(c.payment)));
        if row.pkg in cat.packages then Grant(next, row.user, cat.packages[row.pkg].limits) else next
  }

  /** The guards of Upgrade and of Downgrade up to the call of the payment gateway. */
  predicate MayUpgrade(row: Sub, cat: Catalog, target: Id, gatewayOk: bool) {
    && row.pkg in cat.packages && target in cat.packages
    && row.pending.None? && !row.cancelAtCycleEnd
    && target != row.pkg && cat.packages[target].price > cat.packages[row.pkg].price
    && cat.packages[target].plan.Some?
    && (row.gateway.Some? ==> gatewayOk)
  }

  predicate MayDowngrade(row: Sub, cat: Catalog, target: Id, gatewayOk: bool) {
    && row.pkg in cat.packages && target in cat.packages
    && row.pending.None? && !row.cancelAtCycleEnd && row.upgradedFrom.None?
    && target != row.pkg && cat.packages[target].price < cat.packages[row.pkg].price
    && (cat.packages[target].price == 0 || (cat.packages[target].plan.Some? && (row.gateway.Some? ==> gatewayOk)))
  }

  ghost function DoUpgrade(db: Db, cat: Catalog, c: Call): Db
    requires c.Upgrade?
  {
    if !HasActive(db, c.user) then db
    else
      var id := LiveRow(db, c.user).value;
      var row := db.subs[id];
      if !MayUpgrade(row, cat, c.target, c.gatewayOk) then db
      else Grant(Put(db, id, WithLock(db, WithPackage(row, c.target), row.pkg)), c.user, cat.packages[c.target].limits)
  }

  ghost function DoDowngrade(db: Db, cat: Catalog, c: Call): Db
    requires c.Downgrade?
  {
    if !HasActive(db, c.user) then db
    else
      var id := LiveRow(db, c.user).value;
      var row := db.subs[id];
      if !MayDowngrade(row, cat, c.target, c.gatewayOk) then db
      else if cat.packages[c.target].price == 0
      then Put(db, id, row.(pending := Some(c.target), cancelAtCycleEnd := true, cancelledAt := None))
      else Put(db, id, row.(pending := Some(c.target)))
  }

  ghost function DoCancel(db: Db, user: Id): Db {
    if !HasActive(db, user) then db
    else
      var id := LiveRow(db, user).value;
      Put(db, id, db.subs[id].(cancelAtCycleEnd := true, cancelledAt := None))
  }

  ghost function DoCancelPending(db: Db, user: Id): Db {
    if !HasActive(db, user) then db
    else
      var id := LiveRow(db, user).value;
      var row := db.subs[id];
      if row.pending.None? then db
      else if row.cancelAtCycleEnd then
        Put(db, id, row.(pending := None, cancelAtCycleEnd := false, cancelledAt := None))
      else Put(db, id, row.(pending := None))
  }

  function DoAdminCancel(db: Db, cat: Catalog, id: Id, now: int): Db {
    if id !in db.subs then db
    else Grant(Put(db, id, CancelledRow(db.subs[id], now)), db.subs[id].user, FreeLimits(cat))
  }

  ghost function DoAdminAssign(db: Db, cat: Catalog, c: Call): Db
    requires c.AdminAssign?
  {
    var live := LiveRow(db, c.user);
    var open := if live.Some? then DoAdminCancel(db, cat, live.value, c.now) else db;
    if c.pkg !in cat.packages || c.newId in db.subs then open
    else
      Grant(Put(open, c.newId, NewRow(c.user, c.pkg, None, Active, Some(c.now), Some(c.until))),
            c.user, cat.packages[c.pkg].limits)
  }

  /** The subscription.activated webhook. */
  ghost function DoActivated(db: Db, cat: Catalog, c: Call): Db
    requires c.Activated?
  {
    var found := GatewayRow(db, c.gateway);
    if found.None? || !StatusAccepted(db, found.value, Active) then db
    else
      var row := db.subs[found.value];
      var next := Put(db, found.value, WithStatus(row, Active, c.start, c.end, c.paid));
      if row.pkg in cat.packages then Grant(next, row.user, cat.packages[row.pkg].limits) else next
  }

  // ---------------------------------------------------------------- the scheduler's two passes

  predicate Overdue(row: Sub, now: int) {
    row.end.Some? && row.end.value <= now
  }

  predicate DowngradeDue(db: Db, id: Id, now: int) {
    id in db.subs && db.subs[id].pending.Some? && Overdue(db.subs[id], now)
  }

  predicate ExpiryDue(db: Db, id: Id, now: int) {
    id in db.subs && db.subs[id].status == Active && Overdue(db.subs[id], now)
  }

  /** ListPendingDowngrades, in the order the database returns the rows. */
  function DueDowngrades(db: Db, order: seq<Id>, now: int): seq<Id> {
    if order == [] then []
    else (if DowngradeDue(db, order[0], now) then [order[0]] else []) + DueDowngrades(db, order[1..], now)
  }

  /** ListExpiringOrExpired. */
  function DueExpiries(db: Db, order: seq<Id>, now: int): seq<Id> {
    if order == [] then []
    else (if ExpiryDue(db, order[0], now) then [order[0]] else []) + DueExpiries(db, order[1..], now)
  }

  /** One turn of the downgrade loop; a target that has disappeared only clears the request. */
  function DowngradeTurn(db: Db, cat: Catalog, id: Id): Db {
    if id !in db.subs || db.subs[id].pending.None? then db
    else
      var row := db.subs[id];
      if row.pending.value !in cat.packages then Put(db, id, row.(pending := None))
      else Grant(Put(db, id, WithPackage(row, row.pending.value)), row.user, cat.packages[row.pending.value].limits)
  }

  function ExpiryTurn(db: Db, cat: Catalog, id: Id): Db {
    if id !in db.subs then db
    else Grant(Put(db, id, db.subs[id].(status := Expired)), db.subs[id].user, FreeLimits(cat))
  }

  function DowngradeAll(db: Db, cat: Catalog, ids: seq<Id>): Db
    decreases |ids|
  {
    if ids == [] then db else DowngradeAll(DowngradeTurn(db, cat, ids[0]), cat, ids[1..])
  }

  function ExpireAll(db: Db, cat: Catalog, ids: seq<Id>): Db
    decreases |ids|
  {
    if ids == [] then db else ExpireAll(ExpiryTurn(db, cat, ids[0]), cat, ids[1..])
  }

  /** ProcessScheduledDowngrades, parts 1 and 2. */
  function DoPass(db: Db, cat: Catalog, order: seq<Id>, now: int): Db {
    var mid := DowngradeAll(db, cat, DueDowngrades(db, order, now));
    ExpireAll(mid, cat, DueExpiries(mid, order, now))
  }

  ghost function Do(db: Db, cat: Catalog, c: Call): Db {
    match c
    case Subscribe(_, _, _, _, _) => DoSubscribe(db, cat, c)
    case Verify(_, _, _, _, _, _) => DoVerify(db, cat, c)
    case Upgrade(_, _, _) => DoUpgrade(db, cat, c)
    case Downgrade(_, _, _) => DoDowngrade(db, cat, c)
    case Cancel(user) => DoCancel(db, user)
    case CancelPendingDowngrade(user) => DoCancelPending(db, user)
    case AdminCancel(id, now) => DoAdminCancel(db, cat, id, now)
    case AdminAssign(_, _, _, _, _) => DoAdminAssign(db, cat, c)
    case Activated(_, _, _, _) => DoActivated(db, cat, c)
    case Pass(now, order) => DoPass(db, cat, order, now)
  }

  // ---------------------------------------------------------------- agreement of rows and limits

  ghost predicate OneLive(db: Db) {
    forall a, b, u :: LiveFor(db, a, u) && LiveFor(db, b, u) ==> a == b
  }

  predicate PendingOnlyActive(db: Db) {
    forall id :: id in db.subs && db.subs[id].pending.Some? ==> db.subs[id].status == Active
  }

  /** The row's user is granted exactly what the row's package allows. */
  predicate Granted(db: Db, cat: Catalog, id: Id)
    requires id in db.subs
  {
    && db.subs[id].pkg in cat.packages && db.subs[id].user in db.limits
    && db.limits[db.subs[id].user] == cat.packages[db.subs[id].pkg].limits
  }

  predicate LimitsAgree(db: Db, cat: Catalog) {
    forall id :: id in db.subs && db.subs[id].status == Active ==> Granted(db, cat, id)
  }

  predicate KnownPackages(db: Db, cat: Catalog) {
    forall id :: id in db.subs ==>
      db.subs[id].pkg in cat.packages && (db.subs[id].pending.Some? ==> db.subs[id].pending.value in cat.packages)
  }

  ghost predicate Agreed(db: Db, cat: Catalog) {
    OneLive(db) && PendingOnlyActive(db) && LimitsAgree(db, cat) && KnownPackages(db, cat)
  }

  /** No other row of the user is active with limits other than `limits`. */
  predicate NoOther(db: Db, cat: Catalog, id: Id, user: Id, limits: Limits) {
    forall o :: o in db.subs && o != id && db.subs[o].user == user && db.subs[o].status == Active
      ==> db.subs[o].pkg in cat.packages && cat.packages[db.subs[o].pkg].limits == limits
  }

  /** A row write that keeps user, liveness and limits as they are. */
  lemma PutKeeps(db: Db, cat: Catalog, id: Id, row: Sub)
    requires Agreed(db, cat)
    requires id in db.subs ==> db.subs[id].user == row.user
    requires !IsLive(row.status) || (forall o :: o != id ==> !LiveFor(db, o, row.user))
    requires row.pending.Some? ==> row.status == Active
    requires row.pkg in cat.packages && (row.pending.Some? ==> row.pending.value in cat.packages)
    requires row.status == Active ==> row.user in db.limits && db.limits[row.user] == cat.packages[row.pkg].limits
    ensures Agreed(Put(db, id, row), cat)
  {
    var next := Put(db, id, row);
    forall a: Id, b: Id, u: Id | LiveFor(next, a, u) && LiveFor(next, b, u) ensures a == b {
      if a != id && b != id {
        assert LiveFor(db, a, u) && LiveFor(db, b, u);
      } else if a != b {
        assert LiveFor(db, if a == id then b else a, u);
      }
    }
    assert forall o :: o in db.subs && o != id && db.subs[o].status == Active ==>
      Granted(db, cat, o) && Granted(next, cat, o);
  }

  /** A row write together with the grant that goes with it. */
  lemma PutGrantKeeps(db: Db, cat: Catalog, id: Id, row: Sub, limits: Limits)
    requires Agreed(db, cat)
    requires id in db.subs ==> db.subs[id].user == row.user
    requires !IsLive(row.status) || (forall o :: o != id ==> !LiveFor(db, o, row.user))
    requires row.pending.Some? ==> row.status == Active
    requires row.pkg in cat.packages && (row.pending.Some? ==> row.pending.value in cat.packages)
    requires row.status == Active ==> limits == cat.packages[row.pkg].limits
    requires NoOther(db, cat, id, row.user, limits)
    ensures Agreed(Grant(Put(db, id, row), row.user, limits), cat)
  {
    var next := Grant(Put(db, id, row), row.user, limits);
    forall a: Id, b: Id, u: Id | LiveFor(next, a, u) && LiveFor(next, b, u) ensures a == b {
      if a != id && b != id {
        assert LiveFor(db, a, u) && LiveFor(db, b, u);
      } else if a != b {
        assert LiveFor(db, if a == id then b else a, u);
      }
    }
    forall o | o in next.subs && next.subs[o].status == Active ensures Granted(next, cat, o) {
      if o != id {
        assert Granted(db, cat, o);
      }
    }
  }

  lemma LiveMeansNoOther(db: Db, cat: Catalog, id: Id, limits: Limits)
    requires OneLive(db) && id in db.subs && IsLive(db.subs[id].status)
    ensures NoOther(db, cat, id, db.subs[id].user, limits)
    ensures forall o :: o != id ==> !LiveFor(db, o, db.subs[id].user)
  {
    assert LiveFor(db, id, db.subs[id].user);
    forall o | o != id ensures !LiveFor(db, o, db.subs[id].user) {}
    forall o | o in db.subs && o != id && db.subs[o].user == db.subs[id].user && db.subs[o].status == Active
      ensures false
    {
      assert LiveFor(db, o, db.subs[id].user);
    }
  }
}
