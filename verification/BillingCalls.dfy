/** What each call of the subscription service makes of the tables, and what the calls come to together. */
module BillingCalls {
  import opened Options
  import opened Billing
  import opened BillingPasses
  import opened Webhooks
  import opened WebhookRuns
  import opened PriceLock

  /** The row is the user's current one, as the unique index counts it. */
  predicate Current(db: Db, id: Id, user: Id) {
    && id in db.subs && db.subs[id].user == user
    && (db.subs[id].status == Created || db.subs[id].status == Authenticated || db.subs[id].status == PendingPayment
        || db.subs[id].status == Active)
  }

  ghost predicate OneCurrent(db: Db) {
    forall a, b, u :: Current(db, a, u) && Current(db, b, u) ==> a == b
  }

  ghost predicate NoCurrent(db: Db, user: Id) {
    forall id :: !Current(db, id, user)
  }

  lemma CurrentFound(db: Db, user: Id, id: Id)
    requires OneCurrent(db) && Current(db, id, user)
    ensures LiveRow(db, user) == Some(id) && OneLive(db)
  {
    assert forall o, u :: LiveFor(db, o, u) <==> Current(db, o, u);
  }

  lemma NoneFound(db: Db, user: Id)
    requires NoCurrent(db, user)
    ensures LiveRow(db, user) == None
  {
    if LiveRow(db, user).Some? {
      assert Current(db, LiveRow(db, user).value, user);
    }
  }

  /** The row alone changes. */
  function RowSet(db: Db, id: Id, row: Sub): Db {
    Db(db.subs[id := row], db.limits)
  }

  function RowAndLimits(db: Db, id: Id, row: Sub, limits: Limits): Db {
    Db(db.subs[id := row], db.limits[row.user := limits])
  }

  // ---------------------------------------------------------------- user calls on the current row

  lemma WithoutCurrent(db: Db, cat: Catalog, user: Id, target: Id, ok: bool)
    requires NoCurrent(db, user)
    ensures Do(db, cat, Upgrade(user, target, ok)) == Do(db, cat, Downgrade(user, target, ok)) == db
    ensures Do(db, cat, Cancel(user)) == Do(db, cat, CancelPendingDowngrade(user)) == db
  {
    NoneFound(db, user);
  }

  /** Cancel on an active row schedules the cancellation and changes nothing else; on any other it does nothing. */
  lemma CancelOutcome(db: Db, cat: Catalog, user: Id, id: Id)
    requires OneCurrent(db) && Current(db, id, user)
    ensures Do(db, cat, Cancel(user))
         == if db.subs[id].status == Active
            then RowSet(db, id, db.subs[id].(cancelAtCycleEnd := true, cancelledAt := None)) else db
  {
    CurrentFound(db, user, id);
  }

  /** An active row with no change of plan or cancellation scheduled, and two known packages. */
  predicate Changeable(row: Sub, cat: Catalog, target: Id) {
    && row.status == Active && row.pending == None && !row.cancelAtCycleEnd
    && row.pkg in cat.packages && target in cat.packages
  }

  predicate UpgradeAllowed(row: Sub, cat: Catalog, target: Id, gatewayOk: bool) {
    && Changeable(row, cat, target) && cat.packages[row.pkg].price < cat.packages[target].price
    && cat.packages[target].plan != None && (row.gateway == None || gatewayOk)
  }

  predicate DowngradeAllowed(row: Sub, cat: Catalog, target: Id, gatewayOk: bool) {
    && Changeable(row, cat, target) && row.upgradedFrom == None
    && cat.packages[target].price < cat.packages[row.pkg].price
    && (cat.packages[target].price == 0 || (cat.packages[target].plan != None && (row.gateway == None || gatewayOk)))
  }

  /** An upgrade moves the row and the limits to the dearer package at once. */
  lemma UpgradeOutcome(db: Db, cat: Catalog, user: Id, target: Id, gatewayOk: bool, id: Id)
    requires OneCurrent(db) && Current(db, id, user)
    ensures Do(db, cat, Upgrade(user, target, gatewayOk))
         == if !UpgradeAllowed(db.subs[id], cat, target, gatewayOk) then db
            else
              var lock := if db.subs[id].pkg in db.subs then Some(db.subs[id].pkg) else db.subs[id].upgradedFrom;
              RowAndLimits(db, id, db.subs[id].(pkg := target, upgradedFrom := lock), cat.packages[target].limits)
  {
    CurrentFound(db, user, id);
    assert Changeable(db.subs[id], cat, target) ==> db.subs[id].(pending := None) == db.subs[id];
  }

  /** A downgrade only notes the cheaper package, and for the free one schedules the end of the subscription. */
  lemma DowngradeOutcome(db: Db, cat: Catalog, user: Id, target: Id, gatewayOk: bool, id: Id)
    requires OneCurrent(db) && Current(db, id, user)
    ensures Do(db, cat, Downgrade(user, target, gatewayOk))
         == if !DowngradeAllowed(db.subs[id], cat, target, gatewayOk) then db
            else if cat.packages[target].price == 0
            then RowSet(db, id, db.subs[id].(pending := Some(target), cancelAtCycleEnd := true, cancelledAt := None))
            else RowSet(db, id, db.subs[id].(pending := Some(target)))
  {
    CurrentFound(db, user, id);
  }

  /** Taking a downgrade back clears it, and with it a scheduled cancellation. */
  lemma CancelPendingOutcome(db: Db, cat: Catalog, user: Id, id: Id)
    requires OneCurrent(db) && Current(db, id, user)
    ensures Do(db, cat, CancelPendingDowngrade(user))
         == if db.subs[id].status != Active || db.subs[id].pending == None then db
            else if db.subs[id].cancelAtCycleEnd
            then RowSet(db, id, db.subs[id].(pending := None, cancelAtCycleEnd := false, cancelledAt := None))
            else RowSet(db, id, db.subs[id].(pending := None))
  {
    CurrentFound(db, user, id);
  }

  /** A downgrade taken back leaves no trace, unless it went to the free package over an old cancellation time. */
  lemma DowngradeUndoneIff(db: Db, cat: Catalog, user: Id, target: Id, gatewayOk: bool, id: Id)
    requires OneCurrent(db) && Current(db, id, user) && DowngradeAllowed(db.subs[id], cat, target, gatewayOk)
    ensures Do(Do(db, cat, Downgrade(user, target, gatewayOk)), cat, CancelPendingDowngrade(user)) == db
       <==> cat.packages[target].price != 0 || db.subs[id].cancelledAt == None
  {
    var mid := Do(db, cat, Downgrade(user, target, gatewayOk));
    DowngradeOutcome(db, cat, user, target, gatewayOk, id);
    assert forall o, u :: Current(mid, o, u) <==> Current(db, o, u);
    CancelPendingOutcome(mid, cat, user, id);
    var end := Do(mid, cat, CancelPendingDowngrade(user));
    assert end.subs[id] == db.subs[id] ==> end.subs == db.subs;
  }

  // ---------------------------------------------------------------- a new subscription

  /** The checkout can be opened: a paid package with a plan, and a fresh gateway subscription. */
  ghost predicate Opens(db: Db, cat: Catalog, pkg: Id, issued: Option<string>, newId: Id) {
    && pkg in cat.packages && cat.packages[pkg].price != 0 && cat.packages[pkg].plan != None
    && issued != None && newId !in db.subs && forall id :: id in db.subs ==> db.subs[id].gateway != issued
  }

  function Unpaid(row: Sub, now: int): Sub {
    row.(status := Cancelled, cancelAtCycleEnd := false, cancelledAt := Some(now))
  }

  lemma SameGateways(db: Db, id: Id, row: Sub, gateway: string)
    requires id in db.subs && row.gateway == db.subs[id].gateway
    ensures GatewayRow(RowSet(db, id, row), gateway).Some? <==> GatewayRow(db, gateway).Some?
  {
    var next := RowSet(db, id, row);
    if GatewayRow(db, gateway).Some? {
      assert GatewayRow(db, gateway).value in next.subs;
    }
  }

  lemma OpensIff(db: Db, cat: Catalog, pkg: Id, issued: Option<string>, newId: Id)
    ensures Opens(db, cat, pkg, issued, newId)
       <==> pkg in cat.packages && cat.packages[pkg].price != 0 && cat.packages[pkg].plan.Some? && issued.Some?
            && newId !in db.subs && GatewayRow(db, issued.value).None?
  {
    if issued.Some? {
      var found := GatewayRow(db, issued.value);
      assert found.Some? ==> db.subs[found.value].gateway == issued;
    }
  }

  /** The unpaid row of a checkout. */
  function Checkout(user: Id, pkg: Id, issued: Option<string>): Sub {
    Sub(user, pkg, issued, Created, None, None, None, false, None, None, None, {})
  }

  lemma SubscribeAnew(db: Db, cat: Catalog, user: Id, pkg: Id, issued: Option<string>, newId: Id, now: int)
    requires NoCurrent(db, user)
    ensures Do(db, cat, Subscribe(user, pkg, issued, newId, now))
         == if Opens(db, cat, pkg, issued, newId) then RowSet(db, newId, Checkout(user, pkg, issued)) else db
  {
    NoneFound(db, user);
    OpensIff(db, cat, pkg, issued, newId);
  }

  /** A user who pays already is refused; an unpaid checkout is cancelled and the new one takes its place. */
  lemma SubscribeAgain(db: Db, cat: Catalog, user: Id, pkg: Id, issued: Option<string>, newId: Id, now: int, id: Id)
    requires OneCurrent(db) && Current(db, id, user)
    ensures Do(db, cat, Subscribe(user, pkg, issued, newId, now))
         == if db.subs[id].status != Created then db
            else
              var open := RowSet(db, id, Unpaid(db.subs[id], now));
              if Opens(db, cat, pkg, issued, newId) then RowSet(open, newId, Checkout(user, pkg, issued)) else open
  {
    CurrentFound(db, user, id);
    OpensIff(db, cat, pkg, issued, newId);
    if issued.Some? {
      SameGateways(db, id, Unpaid(db.subs[id], now), issued.value);
    }
  }

  // ---------------------------------------------------------------- payment

  /** Another current row of the same user stands in the way of making this one current. */
  ghost predicate Blocked(db: Db, id: Id, status: Status)
    requires id in db.subs
  {
    && (status == Created || status == Authenticated || status == PendingPayment || status == Active)
    && exists other :: other != id && Current(db, other, db.subs[id].user)
  }

  lemma BlockedIff(db: Db, id: Id, status: Status)
    requires id in db.subs
    ensures Blocked(db, id, status) <==> !StatusAccepted(db, id, status)
  {
    assert forall o, u :: LiveFor(db, o, u) <==> Current(db, o, u);
    if exists other :: other != id && LiveFor(db, other, db.subs[id].user) {
      var other :| other != id && LiveFor(db, other, db.subs[id].user);
      assert Current(db, other, db.subs[id].user);
    }
    if exists other :: other != id && Current(db, other, db.subs[id].user) {
      var other :| other != id && Current(db, other, db.subs[id].user);
      assert LiveFor(db, other, db.subs[id].user);
    }
  }

  function Or<T>(first: Option<T>, second: T): T {
    match first
    case Some(x) => x
    case None => second
  }

  /** An answer of the gateway that never came says nothing. */
  function Told(remote: Option<Remote>): Remote {
    match remote
    case Some(r) => r
    case None => Remote(None, None, None)
  }

  /** The row becomes the status given, with its period and its user's limits when its package is known. */
  function Paid(db: Db, cat: Catalog, id: Id, row: Sub): Db {
    if row.pkg in cat.packages then RowAndLimits(db, id, row, cat.packages[row.pkg].limits) else RowSet(db, id, row)
  }

  lemma GatewayFound(db: Db, gateway: string, id: Id)
    requires UniqueGateways(db) && id in db.subs && db.subs[id].gateway == Some(gateway)
    ensures GatewayRow(db, gateway) == Some(id)
  {}

  /** What the gateway reports counts, a status of "created" as active; the clock fills the gaps in the period. */
  lemma VerifyOutcome(db: Db, cat: Catalog, c: Call, id: Id)
    requires c.Verify? && UniqueGateways(db) && id in db.subs && db.subs[id].gateway == Some(c.gateway)
    ensures var row, told := db.subs[id], Told(c.remote);
            var status := if told.status == Some(Created) then Active else Or(told.status, Active);
            var paid := row.(status := status, payment := Some(c.payment),
                             start := Some(Or(told.start, c.now)), end := Some(Or(told.end, c.monthLater)));
            Do(db, cat, c) == (if row.user != c.user || row.status == Active || Blocked(db, id, status) then db
                               else Paid(db, cat, id, paid))
  {
    GatewayFound(db, c.gateway, id);
    BlockedIff(db, id, Fetched(c).0);
  }

  /** The webhook's times and payment replace the row's when it brings them. */
  lemma ActivatedOutcome(db: Db, cat: Catalog, c: Call, id: Id)
    requires c.Activated? && UniqueGateways(db) && id in db.subs && db.subs[id].gateway == Some(c.gateway)
    ensures var row := db.subs[id];
            var paid := row.(status := Active, start := if c.start == None then row.start else c.start,
                             end := if c.end == None then row.end else c.end,
                             payment := if c.paid == None then row.payment else c.paid);
            Do(db, cat, c) == (if Blocked(db, id, Active) then db else Paid(db, cat, id, paid))
  {
    GatewayFound(db, c.gateway, id);
    BlockedIff(db, id, Active);
  }

  /** A checkout that is paid for becomes the user's active subscription, with a month's period and its limits. */
  lemma SubscribeThenVerify(db: Db, cat: Catalog, user: Id, pkg: Id, issued: string, newId: Id, now: int,
                            payment: string, paidAt: int, until: int)
    requires OneCurrent(db) && UniqueGateways(db) && Opens(db, cat, pkg, Some(issued), newId)
    requires forall id :: Current(db, id, user) ==> db.subs[id].status == Created
    ensures var open := Do(db, cat, Subscribe(user, pkg, Some(issued), newId, now));
            var end := Do(open, cat, Verify(user, issued, payment, None, paidAt, until));
            && newId in end.subs && end.subs[newId].user == user && end.subs[newId].pkg == pkg
            && end.subs[newId].status == Active && end.subs[newId].payment == Some(payment)
            && end.subs[newId].start == Some(paidAt) && end.subs[newId].end == Some(until)
            && user in end.limits && end.limits[user] == cat.packages[pkg].limits
            && (forall id :: Current(end, id, user) ==> id == newId)
            && (forall id :: id in db.subs && db.subs[id].user != user ==>
                  id in end.subs && end.subs[id] == db.subs[id])
  {
    var open := Do(db, cat, Subscribe(user, pkg, Some(issued), newId, now));
    SubscribeOpens(db, cat, user, pkg, issued, newId, now);
    CheckoutStands(db, open, user, pkg, issued, newId, now);
    PaidCheckout(open, cat, user, pkg, issued, newId, payment, paidAt, until);
  }

  lemma SubscribeOpens(db: Db, cat: Catalog, user: Id, pkg: Id, issued: string, newId: Id, now: int)
    requires OneCurrent(db) && Opens(db, cat, pkg, Some(issued), newId)
    requires forall id :: Current(db, id, user) ==> db.subs[id].status == Created
    ensures var open := Do(db, cat, Subscribe(user, pkg, Some(issued), newId, now));
            && open.subs.Keys == db.subs.Keys + {newId} && open.subs[newId] == Checkout(user, pkg, Some(issued))
            && forall id :: id in db.subs ==>
                 open.subs[id] == if Current(db, id, user) then Unpaid(db.subs[id], now) else db.subs[id]
  {
    if id :| Current(db, id, user) {
      SubscribeAgain(db, cat, user, pkg, Some(issued), newId, now, id);
    } else {
      SubscribeAnew(db, cat, user, pkg, Some(issued), newId, now);
    }
  }

  lemma PaidCheckout(open: Db, cat: Catalog, user: Id, pkg: Id, issued: string, newId: Id,
                     payment: string, paidAt: int, until: int)
    requires UniqueGateways(open) && newId in open.subs && open.subs[newId] == Checkout(user, pkg, Some(issued))
    requires !Blocked(open, newId, Active) && pkg in cat.packages
    ensures Do(open, cat, Verify(user, issued, payment, None, paidAt, until))
         == RowAndLimits(open, newId, Sub(user, pkg, Some(issued), Active, Some(paidAt), Some(until), Some(payment),
                                          false, None, None, None, {}), cat.packages[pkg].limits)
  {
    VerifyOutcome(open, cat, Verify(user, issued, payment, None, paidAt, until), newId);
  }

  lemma CheckoutStands(db: Db, open: Db, user: Id, pkg: Id, issued: string, newId: Id, now: int)
    requires OneCurrent(db) && UniqueGateways(db) && newId !in db.subs
    requires forall id :: id in db.subs ==> db.subs[id].gateway != Some(issued)
    requires open.subs.Keys == db.subs.Keys + {newId} && open.subs[newId] == Checkout(user, pkg, Some(issued))
    requires forall id :: id in db.subs ==>
               open.subs[id] == if Current(db, id, user) then Unpaid(db.subs[id], now) else db.subs[id]
    ensures UniqueGateways(open) && !Blocked(open, newId, Active)
    ensures forall id :: Current(open, id, user) ==> id == newId
  {}

  // ---------------------------------------------------------------- the administrator

  /** The free package's limits, or five gibibytes in files of up to two. */
  function FreeOf(cat: Catalog): Limits {
    match cat.free
    case Some(id) => if id in cat.packages then cat.packages[id].limits else Limits(5368709120, 2147483648)
    case None => Limits(5368709120, 2147483648)
  }

  /** The row ends at once, and its user has the free limits. */
  lemma AdminCancelOutcome(db: Db, cat: Catalog, id: Id, now: int)
    ensures Do(db, cat, AdminCancel(id, now))
         == if id in db.subs then RowAndLimits(db, id, Unpaid(db.subs[id], now), FreeOf(cat)) else db
  {}

  /** The user's one current row is the new one with the package, period and limits given; the one before has ended. */
  lemma AdminAssignOutcome(db: Db, cat: Catalog, user: Id, pkg: Id, newId: Id, now: int, until: int)
    requires OneCurrent(db) && pkg in cat.packages && newId !in db.subs
    ensures var end := Do(db, cat, AdminAssign(user, pkg, newId, now, until));
            && end.subs.Keys == db.subs.Keys + {newId}
            && end.subs[newId]
               == Sub(user, pkg, None, Active, Some(now), Some(until), None, false, None, None, None, {})
            && (forall id :: id in db.subs ==>
                  end.subs[id] == if Current(db, id, user) then Unpaid(db.subs[id], now) else db.subs[id])
            && end.limits == db.limits[user := cat.packages[pkg].limits]
            && (forall id :: Current(end, id, user) <==> id == newId)
  {
    if id :| Current(db, id, user) {
      CurrentFound(db, user, id);
    } else {
      NoneFound(db, user);
    }
    AssignLimits(db.limits, user, FreeOf(cat), cat.packages[pkg].limits);
  }

  lemma AssignLimits(limits: map<Id, Limits>, user: Id, first: Limits, second: Limits)
    ensures limits[user := first][user := second] == limits[user := second]
  {}

  /** An unknown package assigns nothing; the current row has been ended all the same. */
  lemma AdminAssignUnknown(db: Db, cat: Catalog, user: Id, pkg: Id, newId: Id, now: int, until: int)
    requires OneCurrent(db) && pkg !in cat.packages
    ensures NoCurrent(db, user) ==> Do(db, cat, AdminAssign(user, pkg, newId, now, until)) == db
    ensures forall id :: Current(db, id, user) ==>
              Do(db, cat, AdminAssign(user, pkg, newId, now, until))
              == RowAndLimits(db, id, Unpaid(db.subs[id], now), FreeOf(cat))
  {
    if id :| Current(db, id, user) {
      CurrentFound(db, user, id);
    } else {
      NoneFound(db, user);
    }
  }

  // ---------------------------------------------------------------- the scheduler's passes

  /**
   What one run of the passes makes of a row whose period has ended: a pending package that still exists takes effect,
   any pending request is cleared, and a row that is active expires.
   */
  lemma PassOutcome(db: Db, cat: Catalog, order: seq<Id>, now: int, id: Id)
    requires Covers(order, db) && Distinct(order) && id in db.subs
    ensures var end := Do(db, cat, Pass(now, order));
            var row := db.subs[id];
            && id in end.subs
            && end.subs[id]
            == if row.end == None || row.end.value > now then row
               else row.(pkg := if row.pending != None && row.pending.value in cat.packages then row.pending.value
                                else row.pkg,
                         pending := None, status := if row.status == Active then Expired else row.status)
  {
    PassRows(db, cat, order, now);
  }

  // ---------------------------------------------------------------- a scheduled cancellation holds

  /** Every active row of the user is going to end with its period. */
  predicate Ending(db: Db, user: Id) {
    forall id :: id in db.subs && db.subs[id].user == user && db.subs[id].status == Active ==>
      db.subs[id].cancelAtCycleEnd
  }

  /** A row of the user that would be active without a scheduled cancellation, were its status to become active. */
  predicate Unflagged(db: Db, gateway: string, user: Id) {
    exists id :: id in db.subs && db.subs[id].gateway == Some(gateway) && db.subs[id].user == user
                 && !db.subs[id].cancelAtCycleEnd
  }

  /**
   What can end a scheduled cancellation: the user takes a downgrade back, the administrator assigns the user a package,
   or a payment or webhook concerns a row of the user on which no cancellation is scheduled.
   */
  predicate Lifts(db: Db, step: Step, user: Id) {
    match step
    case Serve(CancelPendingDowngrade(u)) => u == user
    case Serve(AdminAssign(u, _, _, _, _)) => u == user
    case Serve(Verify(u, gateway, _, _, _, _)) => u == user && Unflagged(db, gateway, user)
    case Serve(Activated(gateway, _, _, _)) => Unflagged(db, gateway, user)
    case Serve(_) => false
    case Hook(e, _, _) => Unflagged(db, e.gateway, user)
  }

  lemma {:induction false} DowngradesKeepEnding(db: Db, cat: Catalog, ids: seq<Id>, user: Id)
    requires Ending(db, user)
    ensures Ending(DowngradeAll(db, cat, ids), user)
    decreases |ids|
  {
    if ids != [] {
      DowngradesKeepEnding(DowngradeTurn(db, cat, ids[0]), cat, ids[1..], user);
    }
  }

  lemma {:induction false} ExpiriesKeepEnding(db: Db, cat: Catalog, ids: seq<Id>, user: Id)
    requires Ending(db, user)
    ensures Ending(ExpireAll(db, cat, ids), user)
    decreases |ids|
  {
    if ids != [] {
      ExpiriesKeepEnding(ExpiryTurn(db, cat, ids[0]), cat, ids[1..], user);
    }
  }

  lemma CallKeepsEndingRow(db: Db, cat: Catalog, c: Call, user: Id, id: Id)
    requires Ending(db, user) && !Lifts(db, Serve(c), user) && !c.Pass? && id in Do(db, cat, c).subs
    ensures var row := Do(db, cat, c).subs[id]; row.user == user && row.status == Active ==> row.cancelAtCycleEnd
  {}

  lemma CallKeepsEnding(db: Db, cat: Catalog, c: Call, user: Id)
    requires Ending(db, user) && !Lifts(db, Serve(c), user)
    ensures Ending(Do(db, cat, c), user)
  {
    if c.Pass? {
      DowngradesKeepEnding(db, cat, DueDowngrades(db, c.order, c.now), user);
      var mid := DowngradeAll(db, cat, DueDowngrades(db, c.order, c.now));
      ExpiriesKeepEnding(mid, cat, DueExpiries(mid, c.order, c.now), user);
    } else {
      forall id | id in Do(db, cat, c).subs
        ensures var row := Do(db, cat, c).subs[id]; row.user == user && row.status == Active ==> row.cancelAtCycleEnd
      {
        CallKeepsEndingRow(db, cat, c, user, id);
      }
    }
  }

  lemma {:induction false} WritesKeepEnding(b: Books, ws: seq<Write>, id: Id, user: Id)
    requires Ending(b.db, user) && id in b.db.subs && forall w | w in ws :: w.id == id && !w.op.OpCancelledAt?
    requires b.db.subs[id].user == user ==> b.db.subs[id].cancelAtCycleEnd
    ensures Ending(Perform(b, ws).books.db, user)
    decreases |ws|
  {
    if ws != [] && Accepts(b, ws[0]) {
      assert ws[0] in ws;
      WritesKeepEnding(Exec(b, ws[0]), ws[1..], id, user);
    }
  }

  /** subscription.cancelled ends the row before it clears the flag. */
  lemma CancelledKeepsEnding(b: Books, ws: seq<Write>, id: Id, user: Id)
    requires Ending(b.db, user) && id in b.db.subs && |ws| <= 3
    requires forall k :: 0 <= k < |ws| ==> ws[k].id == id
    requires |ws| > 0 ==> ws[0].op.OpStatus? && ws[0].op.status == Cancelled
    requires |ws| > 1 ==> ws[1].op.OpCancelledAt?
    requires |ws| > 2 ==> ws[2].op.OpLimits?
    ensures Ending(Perform(b, ws).books.db, user)
  {
    if ws != [] && Accepts(b, ws[0]) {
      var b1 := Exec(b, ws[0]);
      if |ws| > 1 {
        var b2 := Exec(b1, ws[1]);
        assert Perform(b, ws) == Perform(b1, ws[1..]) == Perform(b2, ws[1..][1..]);
        assert Ending(b2.db, user);
        if |ws| > 2 {
          var b3 := Exec(b2, ws[2]);
          assert ws[1..][1..] == [ws[2]] && [ws[2]][1..] == [];
          assert Perform(b2, [ws[2]]) == Perform(b3, []);
          assert b3.db.subs == b2.db.subs;
        }
      }
    }
  }

  lemma HookKeepsEnding(b: Books, cat: Catalog, e: Event, now: int, n: nat, user: Id)
    requires Ending(b.db, user) && !Unflagged(b.db, e.gateway, user)
    ensures Ending(Partial(b, cat, e, now, n).db, user)
  {
    var ws := Upto(Writes(b, cat, e, now), n);
    if e.gateway != "" && GatewayRow(b.db, e.gateway).Some? {
      var id := GatewayRow(b.db, e.gateway).value;
      if e.kind.SubCancelled? {
        CancelledKeepsEnding(b, ws, id, user);
      } else {
        WritesKeepEnding(b, ws, id, user);
      }
    }
  }

  /** None of the steps, when its turn comes, ends a cancellation of the user's subscription. */
  ghost predicate NoneLifts(b: Books, cat: Catalog, steps: seq<Step>, user: Id)
    decreases |steps|
  {
    steps == [] || (!Lifts(b.db, steps[0], user) && NoneLifts(Take(b, cat, steps[0]), cat, steps[1..], user))
  }

  lemma {:induction false} EndingOverRuns(b: Books, cat: Catalog, steps: seq<Step>, user: Id)
    requires Ending(b.db, user) && NoneLifts(b, cat, steps, user)
    ensures Ending(TakeAll(b, cat, steps).db, user)
    decreases |steps|
  {
    if steps != [] {
      match steps[0] {
        case Serve(c) => CallKeepsEnding(b.db, cat, c, user);
        case Hook(e, now, n) => HookKeepsEnding(b, cat, e, now, n, user);
      }
      EndingOverRuns(Take(b, cat, steps[0]), cat, steps[1..], user);
    }
  }

  /** A call of Upgrade or Downgrade that is refused, and so changes nothing. */
  ghost predicate Refused(db: Db, cat: Catalog, c: Call)
    requires c.Upgrade? || c.Downgrade?
  {
    && Do(db, cat, c) == db
    && (HasActive(db, c.user) ==>
          var row := db.subs[LiveRow(db, c.user).value];
          if c.Upgrade? then !MayUpgrade(row, cat, c.target, c.gatewayOk)
          else !MayDowngrade(row, cat, c.target, c.gatewayOk))
  }

  /**
   A cancellation holds. After an accepted Cancel, through any run of calls and webhooks, cut short or not, none of
   which lifts it when its turn comes, every upgrade and every downgrade of the user is refused.
   */
  lemma CancelHolds(b: Books, cat: Catalog, user: Id, id: Id, steps: seq<Step>, c: Call)
    requires OneCurrent(b.db) && Current(b.db, id, user) && b.db.subs[id].status == Active
    requires NoneLifts(Take(b, cat, Serve(Cancel(user))), cat, steps, user)
    requires (c.Upgrade? || c.Downgrade?) && c.user == user
    ensures Refused(TakeAll(Take(b, cat, Serve(Cancel(user))), cat, steps).db, cat, c)
  {
    var mid := Take(b, cat, Serve(Cancel(user)));
    CancelOutcome(b.db, cat, user, id);
    forall o | o in mid.db.subs && mid.db.subs[o].user == user && mid.db.subs[o].status == Active
      ensures mid.db.subs[o].cancelAtCycleEnd
    {
      assert Current(b.db, o, user);
    }
    EndingOverRuns(mid, cat, steps, user);
  }
}
