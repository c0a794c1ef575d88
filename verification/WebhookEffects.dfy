/** What an accepted webhook makes of the row, the user's limits and the ledger, and what the ledger then says. */
module WebhookEffects {
  import opened Options
  import opened Billing
  import opened BillingCalls
  import opened Webhooks
  import opened WebhookRuns
  import opened PriceLock
  import Pricing

  /** The event names the row by its gateway id. */
  predicate Names(b: Books, e: Event, id: Id) {
    e.gateway != "" && id in b.db.subs && b.db.subs[id].gateway == Some(e.gateway)
  }

  /** The status each kind of event writes. */
  function StatusWritten(e: Event): Status {
    match e.kind
    case SubAuthenticated => Authenticated
    case SubPending => PendingPayment
    case SubHalted => Halted
    case SubPaused => Paused
    case SubCancelled => Cancelled
    case SubCompleted => Completed
    case SubExpired => Expired
    case SubUpdated => Or(e.status, Active)
    case _ => Active
  }

  /** The package an event moves the row to: the one with the event's plan, for subscription.updated alone. */
  ghost predicate Moves(cat: Catalog, e: Event, pkg: Id) {
    e.kind == SubUpdated && e.plan != None && pkg in cat.packages && cat.packages[pkg].plan == e.plan
  }

  ghost predicate Stays(cat: Catalog, e: Event) {
    forall pkg :: !Moves(cat, e, pkg)
  }

  lemma MovesTo(cat: Catalog, e: Event, pkg: Id)
    requires Moves(cat, e, pkg) && forall p, q :: Moves(cat, e, p) && Moves(cat, e, q) ==> p == q
    ensures PlanPackage(cat, e.plan) == Some(pkg)
  {
    assert HasPlan(cat, pkg, e.plan.value);
    assert Moves(cat, e, PlanPackage(cat, e.plan).value);
  }

  lemma StaysPut(cat: Catalog, e: Event)
    requires e.kind == SubUpdated && Stays(cat, e)
    ensures PlanPackage(cat, e.plan) == None
  {
    if PlanPackage(cat, e.plan).Some? {
      assert Moves(cat, e, PlanPackage(cat, e.plan).value);
    }
  }

  /** Times and payment replace the row's when the event brings them. */
  function Dated(row: Sub, e: Event, status: Status): Sub {
    row.(status := status, start := if e.start == None then row.start else e.start,
         end := if e.end == None then row.end else e.end,
         payment := if e.payment == None then row.payment else e.payment)
  }

  lemma Performed(b: Books, ws: seq<Write>, id: Id, user: Id, ops: seq<Op>)
    requires ws == OnRow(id, user, ops) && id in b.db.subs && b.db.subs[id].user == user
    requires forall k :: 0 < k < |ops| ==> !ops[k].OpStatus?
    requires ops != [] && ops[0].OpStatus? && !Blocked(b.db, id, ops[0].status)
    ensures Perform(b, ws) == Outcome(ExecAll(Exec(b, ws[0]), ws[1..]), true)
  {
    BlockedIff(b.db, id, ops[0].status);
    NoneRefused(Exec(b, ws[0]), ws[1..]);
  }

  function ExecAll(b: Books, ws: seq<Write>): Books
    decreases |ws|
  {
    if ws == [] then b else ExecAll(Exec(b, ws[0]), ws[1..])
  }

  lemma {:induction false} NoneRefused(b: Books, ws: seq<Write>)
    requires forall k :: 0 <= k < |ws| ==> !ws[k].op.OpStatus?
    ensures Perform(b, ws) == Outcome(ExecAll(b, ws), true)
    decreases |ws|
  {
    if ws != [] {
      NoneRefused(Exec(b, ws[0]), ws[1..]);
    }
  }

  lemma ExecTwo(b: Books, v: Write, w: Write)
    ensures ExecAll(b, [v, w]) == Exec(Exec(b, v), w)
  {
    assert [v, w][1..] == [w] && [w][1..] == [] && ExecAll(Exec(Exec(b, v), w), []) == Exec(Exec(b, v), w);
    assert ExecAll(Exec(b, v), [w]) == Exec(Exec(b, v), w);
  }

  lemma ExecOne(b: Books, w: Write)
    ensures ExecAll(b, [w]) == Exec(b, w) && ExecAll(b, []) == b
  {
    assert [w][1..] == [] && ExecAll(Exec(b, w), []) == Exec(b, w);
  }

  /** The event finds its row and is not refused by the unique index. */
  ghost predicate Lands(b: Books, e: Event, id: Id) {
    UniqueGateways(b.db) && Names(b, e, id) && !Blocked(b.db, id, StatusWritten(e))
  }

  // ---------------------------------------------------------------- the kinds that only write a status

  /** subscription.authenticated, pending, halted, paused and resumed. */
  lemma StatusEvents(b: Books, cat: Catalog, e: Event, now: int, id: Id)
    requires Lands(b, e, id)
    requires e.kind == SubAuthenticated || e.kind == SubPending || e.kind == SubHalted || e.kind == SubPaused
          || e.kind == SubResumed
    ensures Whole(b, cat, e, now)
         == Outcome(b.(db := RowSet(b.db, id, Dated(b.db.subs[id], e, StatusWritten(e)))), true)
  {
    GatewayFound(b.db, e.gateway, id);
    var ws := Writes(b, cat, e, now);
    Performed(b, ws, id, b.db.subs[id].user, Ops(cat, id, b.db.subs[id], e, now));
    ExecOne(Exec(b, ws[0]), ws[0]);
    assert ws[1..] == [];
  }

  /** An activation grants the limits of a known package; the end of a term, those of the free one. */
  lemma TermEvents(b: Books, cat: Catalog, e: Event, now: int, id: Id)
    requires Lands(b, e, id) && (e.kind == SubActivated || e.kind == SubCompleted || e.kind == SubExpired)
    ensures var row := Dated(b.db.subs[id], e, StatusWritten(e));
            var free := RowAndLimits(b.db, id, row, FreeOf(cat));
            var end := if e.kind != SubActivated then free else Paid(b.db, cat, id, row);
            Whole(b, cat, e, now) == Outcome(b.(db := end), true)
  {
    GatewayFound(b.db, e.gateway, id);
    var ws := Writes(b, cat, e, now);
    Performed(b, ws, id, b.db.subs[id].user, Ops(cat, id, b.db.subs[id], e, now));
    ExecOne(Exec(b, ws[0]), ws[|ws| - 1]);
    assert ws[1..] == if |ws| == 2 then [ws[1]] else [];
  }

  /**
   A cancellation carried out by the gateway ends the row and dates it. The limits fall back at once exactly when the
   period the event names is over or it names none; otherwise the scheduler will see to it.
   */
  lemma CancelledEvent(b: Books, cat: Catalog, e: Event, now: int, id: Id)
    requires Lands(b, e, id) && e.kind == SubCancelled
    ensures var row := Dated(b.db.subs[id], e, Cancelled).(cancelAtCycleEnd := false, cancelledAt := Some(now));
            var over := e.end == None || e.end.value <= now;
            var end := if over then RowAndLimits(b.db, id, row, FreeOf(cat)) else RowSet(b.db, id, row);
            Whole(b, cat, e, now) == Outcome(b.(db := end), true)
  {
    GatewayFound(b.db, e.gateway, id);
    var ws := Writes(b, cat, e, now);
    Performed(b, ws, id, b.db.subs[id].user, Ops(cat, id, b.db.subs[id], e, now));
    Ended(b, id, e, ws, now);
    OneOrTwo(Exec(b, ws[0]), ws[1..]);
  }

  /** The two writes to the row. */
  lemma Ended(b: Books, id: Id, e: Event, ws: seq<Write>, now: int)
    requires |ws| >= 2 && id in b.db.subs && ws[0].id == ws[1].id == id
    requires ws[0].op == OpStatus(Cancelled, e.start, e.end, e.payment) && ws[1].op == OpCancelledAt(now)
    ensures var row := Dated(b.db.subs[id], e, Cancelled).(cancelAtCycleEnd := false, cancelledAt := Some(now));
            Exec(Exec(b, ws[0]), ws[1]) == b.(db := RowSet(b.db, id, row))
  {}

  lemma OneOrTwo(b: Books, ws: seq<Write>)
    requires 1 <= |ws| <= 2
    ensures ExecAll(b, ws) == if |ws| == 1 then Exec(b, ws[0]) else Exec(Exec(b, ws[0]), ws[1])
  {
    ExecOne(b, ws[0]);
    if |ws| == 2 {
      ExecTwo(b, ws[0], ws[1]);
      assert ws == [ws[0], ws[1]];
    } else {
      assert ws == [ws[0]];
    }
  }

  // ---------------------------------------------------------------- a change of plan

  /** A plan that a package has moves the row and the limits to that package and clears any pending one. */
  lemma UpdatedMoves(b: Books, cat: Catalog, e: Event, now: int, id: Id, pkg: Id)
    requires Lands(b, e, id) && Moves(cat, e, pkg)
    requires forall p, q :: Moves(cat, e, p) && Moves(cat, e, q) ==> p == q
    ensures var row := Dated(b.db.subs[id], e, Or(e.status, Active)).(pkg := pkg, pending := None);
            Whole(b, cat, e, now) == Outcome(b.(db := RowAndLimits(b.db, id, row, cat.packages[pkg].limits)), true)
  {
    GatewayFound(b.db, e.gateway, id);
    MovesTo(cat, e, pkg);
    var ws := Writes(b, cat, e, now);
    assert |ws| == 4;
    BlockedIff(b.db, id, StatusWritten(e));
    FourInOrder(b, ws);
    var moved := ExecAll(b, ws[..3]);
    MovedRow(b, ws, id, pkg, cat.packages[pkg].limits);
    AcceptsAfter(b, moved, ws[3]);
    StatusLast(b, id, pkg, cat.packages[pkg].limits, e, ws[3]);
  }

  lemma StatusLast(b: Books, id: Id, pkg: Id, limits: Limits, e: Event, w: Write)
    requires id in b.db.subs && w.id == id && w.op == OpStatus(Or(e.status, Active), e.start, e.end, e.payment)
    ensures var row := b.db.subs[id].(pkg := pkg, pending := None);
            var next := Dated(b.db.subs[id], e, Or(e.status, Active)).(pkg := pkg, pending := None);
            Exec(b.(db := RowAndLimits(b.db, id, row, limits)), w) == b.(db := RowAndLimits(b.db, id, next, limits))
  {}

  lemma FourInOrder(b: Books, ws: seq<Write>)
    requires |ws| == 4 && forall k :: 0 <= k < 3 ==> !ws[k].op.OpStatus?
    ensures var mid := ExecAll(b, ws[..3]);
            Perform(b, ws) == if Accepts(mid, ws[3]) then Outcome(Exec(mid, ws[3]), true) else Outcome(mid, false)
  {
    NoneRefused(b, ws[..3]);
    assert ws == ws[..3] + [ws[3]] && [ws[3]][1..] == [];
    PerformConcat(b, ws[..3], [ws[3]]);
    var mid := ExecAll(b, ws[..3]);
    assert Perform(Exec(mid, ws[3]), []) == Outcome(Exec(mid, ws[3]), true);
  }

  lemma MovedRow(b: Books, ws: seq<Write>, id: Id, pkg: Id, limits: Limits)
    requires |ws| == 4 && id in b.db.subs
    requires ws[0] == Write(id, b.db.subs[id].user, OpPackage(pkg))
    requires ws[1] == Write(id, b.db.subs[id].user, OpClearPending)
    requires ws[2] == Write(id, b.db.subs[id].user, OpLimits(limits))
    ensures ExecAll(b, ws[..3])
         == b.(db := RowAndLimits(b.db, id, b.db.subs[id].(pkg := pkg, pending := None), limits))
  {
    var b1 := Exec(b, ws[0]);
    ExecTwo(b1, ws[1], ws[2]);
    assert ws[..3][1..] == [ws[1], ws[2]] && ws[..3][0] == ws[0];
    var row := b.db.subs[id].(pkg := pkg, pending := None);
    assert b.db.subs[id := row][id := row] == b.db.subs[id := row];
  }

  /** Changing columns that no index covers does not change what the index refuses. */
  lemma AcceptsAfter(b: Books, next: Books, w: Write)
    requires w.id in b.db.subs && next.db.subs.Keys == b.db.subs.Keys
    requires forall o :: o in b.db.subs ==>
               next.db.subs[o].user == b.db.subs[o].user && next.db.subs[o].status == b.db.subs[o].status
    ensures Accepts(next, w) <==> Accepts(b, w)
  {
    assert forall o, u :: LiveFor(next.db, o, u) <==> LiveFor(b.db, o, u);
  }

  /** An unknown plan, or none, changes the status and period only. */
  lemma UpdatedStays(b: Books, cat: Catalog, e: Event, now: int, id: Id)
    requires Lands(b, e, id) && e.kind == SubUpdated && Stays(cat, e)
    ensures Whole(b, cat, e, now)
         == Outcome(b.(db := RowSet(b.db, id, Dated(b.db.subs[id], e, Or(e.status, Active)))), true)
  {
    GatewayFound(b.db, e.gateway, id);
    StaysPut(cat, e);
    var ws := Writes(b, cat, e, now);
    Performed(b, ws, id, b.db.subs[id].user, Ops(cat, id, b.db.subs[id], e, now));
    ExecOne(Exec(b, ws[0]), ws[0]);
    assert ws[1..] == [];
  }

  // ---------------------------------------------------------------- a charge

  /** The rate the package of a row is charged at; 18 percent when the package is gone. */
  function RateOf(cat: Catalog, row: Sub): real {
    if row.pkg in cat.packages then cat.packages[row.pkg].gstRate else 18.0
  }

  /** The entry is one for this row, and its base and tax add up to the amount charged. */
  predicate EntryFor(entry: Charge, id: Id, row: Sub, amount: int) {
    && entry.user == row.user && entry.sub == id && entry.pkg == row.pkg
    && entry.total == amount && entry.base + entry.tax == amount
  }

  /** The three writes to the row. */
  lemma Renewed(b: Books, id: Id, e: Event, ws: seq<Write>)
    requires |ws| >= 3 && id in b.db.subs && forall k :: 0 <= k < 3 ==> ws[k].id == id
    requires ws[0].op == OpStatus(Active, e.start, e.end, e.payment) && ws[1].op == OpUnlock
    requires ws[2].op == OpReminders(b.db.subs[id].reminders - REMINDER_DAYS)
    ensures var row := Dated(b.db.subs[id], e, Active).(upgradedFrom := None,
                                                        reminders := b.db.subs[id].reminders - {7, 5, 3, 2, 1});
            Exec(Exec(Exec(b, ws[0]), ws[1]), ws[2]) == b.(db := RowSet(b.db, id, row))
  {}

  lemma ChargedRow(b: Books, cat: Catalog, e: Event, now: int, id: Id)
    requires Lands(b, e, id) && e.kind == SubCharged
    ensures var row := Dated(b.db.subs[id], e, Active).(upgradedFrom := None,
                                                        reminders := b.db.subs[id].reminders - {7, 5, 3, 2, 1});
            var ledger := if e.payment == None || e.payment.value in b.ledger then b.ledger
                          else b.ledger[e.payment.value := ChargeFor(cat, id, b.db.subs[id], e.amount)];
            Whole(b, cat, e, now) == Outcome(Books(RowSet(b.db, id, row), ledger), true)
  {
    GatewayFound(b.db, e.gateway, id);
    var row := b.db.subs[id];
    var ws := Writes(b, cat, e, now);
    Performed(b, ws, id, row.user, Ops(cat, id, row, e, now));
    Renewed(b, id, e, ws);
    LastOfFour(Exec(b, ws[0]), ws[1..]);
  }

  lemma LastOfFour(b: Books, ws: seq<Write>)
    requires 2 <= |ws| <= 3
    ensures var mid := Exec(Exec(b, ws[0]), ws[1]);
            ExecAll(b, ws) == if |ws| == 2 then mid else Exec(mid, ws[2])
  {
    ExecTwo(b, ws[0], ws[1]);
    var mid := Exec(Exec(b, ws[0]), ws[1]);
    if |ws| == 3 {
      assert ws == [ws[0], ws[1]] + [ws[2]];
      ExecConcat(b, [ws[0], ws[1]], [ws[2]]);
      ExecOne(mid, ws[2]);
    } else {
      assert ws == [ws[0], ws[1]];
    }
  }

  lemma {:induction false} ExecConcat(b: Books, ws: seq<Write>, vs: seq<Write>)
    ensures ExecAll(b, ws + vs) == ExecAll(ExecAll(b, ws), vs)
    decreases |ws|
  {
    if ws == [] {
      assert ws + vs == vs;
    } else {
      assert (ws + vs)[0] == ws[0] && (ws + vs)[1..] == ws[1..] + vs;
      ExecConcat(Exec(b, ws[0]), ws[1..], vs);
    }
  }

  /**
   A charge renews the row: active, unlocked, its reminders due again. A payment seen for the first time is booked for
   the row's user, subscription and package, base and tax adding up to it; one already in the ledger changes no entry.
   */
  lemma ChargedEvent(b: Books, cat: Catalog, e: Event, now: int, id: Id)
    requires Lands(b, e, id) && e.kind == SubCharged
    ensures var row := b.db.subs[id];
            var end := Whole(b, cat, e, now).books;
            && end.db == RowSet(b.db, id, Dated(row, e, Active).(upgradedFrom := None,
                                                                 reminders := row.reminders - {7, 5, 3, 2, 1}))
            && (e.payment == None || e.payment.value in b.ledger ==> end.ledger == b.ledger)
            && (e.payment != None && e.payment.value !in b.ledger ==>
                  && e.payment.value in end.ledger
                  && end.ledger == b.ledger[e.payment.value := end.ledger[e.payment.value]]
                  && EntryFor(end.ledger[e.payment.value], id, row, e.amount))
  {
    ChargedRow(b, cat, e, now, id);
  }

  /** The tax is the whole number nearest to the price at the rate. */
  predicate TaxOn(price: int, rate: real, tax: int) {
    tax as real - 0.5 <= price as real * rate / 100.0 < tax as real + 0.5
  }

  /** A new payment of price and tax books that price as the base and that tax, whatever the package's positive rate. */
  lemma ChargeBooksPrice(b: Books, cat: Catalog, e: Event, now: int, id: Id, price: nat, tax: int)
    requires Lands(b, e, id) && e.kind == SubCharged && e.payment != None && e.payment.value !in b.ledger
    requires RateOf(cat, b.db.subs[id]) > 0.0 && TaxOn(price, RateOf(cat, b.db.subs[id]), tax)
    requires e.amount == price + tax
    ensures var end := Whole(b, cat, e, now).books;
            && e.payment.value in end.ledger
            && end.ledger[e.payment.value] == Charge(b.db.subs[id].user, id, b.db.subs[id].pkg, price, tax, price + tax)
  {
    ChargedRow(b, cat, e, now, id);
    var rate := RateOf(cat, b.db.subs[id]);
    TaxIsRounded(price, rate, tax);
    Pricing.SplitInvertsPricing(price, rate);
  }

  lemma TaxIsRounded(price: nat, rate: real, tax: int)
    requires rate > 0.0 && TaxOn(price, rate, tax)
    ensures price + tax == Pricing.WithGst(price, rate)
  {
    var exact := price as real * (rate / 100.0);
    assert exact == price as real * rate / 100.0;
    if price > 0 {
      assert exact > 0.0;
      Pricing.RoundIs(exact, tax);
    } else {
      assert exact == 0.0;
    }
  }

  // ---------------------------------------------------------------- the ledger over every run

  /** Every entry adds up, and no part of a charge that is not negative is. */
  predicate Adds(ledger: map<string, Charge>) {
    forall p :: p in ledger ==>
      ledger[p].base + ledger[p].tax == ledger[p].total
      && (ledger[p].total >= 0 ==> ledger[p].base >= 0 && ledger[p].tax >= 0)
  }

  /** Entries are only added. */
  predicate Extends(ledger: map<string, Charge>, next: map<string, Charge>) {
    forall p :: p in ledger ==> p in next && next[p] == ledger[p]
  }

  predicate ChargesAdd(ws: seq<Write>) {
    forall k :: 0 <= k < |ws| && ws[k].op.OpCharge? ==> Adds(map["" := ws[k].op.charge])
  }

  lemma {:induction false} WritesKeepLedger(b: Books, ws: seq<Write>)
    requires Adds(b.ledger) && ChargesAdd(ws)
    ensures Adds(Perform(b, ws).books.ledger) && Extends(b.ledger, Perform(b, ws).books.ledger)
    decreases |ws|
  {
    if ws != [] && Accepts(b, ws[0]) {
      var next := Exec(b, ws[0]);
      if ws[0].op.OpCharge? {
        assert Adds(map["" := ws[0].op.charge]) && "" in map["" := ws[0].op.charge];
      }
      assert Adds(next.ledger) && Extends(b.ledger, next.ledger);
      assert ChargesAdd(ws[1..]) by {
        assert forall k :: 0 <= k < |ws[1..]| ==> ws[1..][k] == ws[k + 1];
      }
      WritesKeepLedger(next, ws[1..]);
    }
  }

  lemma EventCharges(b: Books, cat: Catalog, e: Event, now: int)
    ensures ChargesAdd(Writes(b, cat, e, now))
  {
    if e.gateway != "" && GatewayRow(b.db, e.gateway).Some? && e.amount >= 0 {
      var row := b.db.subs[GatewayRow(b.db, e.gateway).value];
      Pricing.SplitAddsUp(e.amount, RateOf(cat, row));
    }
  }

  /** Over every run of calls and webhooks, cut short or not, entries add up and are never changed or taken out. */
  lemma {:induction false} LedgerOverRuns(b: Books, cat: Catalog, steps: seq<Step>)
    requires Adds(b.ledger)
    ensures Adds(TakeAll(b, cat, steps).ledger) && Extends(b.ledger, TakeAll(b, cat, steps).ledger)
    decreases |steps|
  {
    if steps != [] {
      var next := Take(b, cat, steps[0]);
      match steps[0] {
        case Serve(c) =>
        case Hook(e, now, n) =>
          EventCharges(b, cat, e, now);
          WritesKeepLedger(b, Upto(Writes(b, cat, e, now), n));
      }
      LedgerOverRuns(next, cat, steps[1..]);
    }
  }

  // ---------------------------------------------------------------- deliveries

  /**
   A delivery that runs to its end is recorded exactly when the event was before or its writes are accepted; from then
   on every delivery of that event, cut short or not, leaves the server as it is.
   */
  lemma AcceptedOnce(s: Server, cat: Catalog, now: int, e: Event, again: Delivery, later: int)
    requires again.event.key == e.key
    ensures var end := Handle(s, cat, now, Delivery(e, None));
            && (e.key in end.seen <==> e.key in s.seen || Whole(s.books, cat, e, now).ok)
            && (e.key in end.seen ==> Handle(end, cat, later, again) == end)
            && (e.key !in s.seen ==> end.books == Whole(s.books, cat, e, now).books)
            && forall key :: key != e.key ==> (key in end.seen <==> key in s.seen)
  {}

  /** A delivery that dies after its last write, before it can be recorded, has written everything all the same. */
  lemma UnrecordedWhole(s: Server, cat: Catalog, now: int, e: Event, n: nat)
    requires e.key !in s.seen && n >= |Writes(s.books, cat, e, now)|
    ensures Handle(s, cat, now, Delivery(e, Some(n))) == Server(Whole(s.books, cat, e, now).books, s.seen)
  {
    var ws := Writes(s.books, cat, e, now);
    assert Upto(ws, n) == ws;
  }

  // ---------------------------------------------------------------- refusals

  /** An event without a known row, or of another kind, is answered and changes nothing. */
  lemma UnknownEvent(b: Books, cat: Catalog, e: Event, now: int)
    requires e.kind == Unhandled || e.gateway == ""
             || forall id :: id in b.db.subs ==> b.db.subs[id].gateway != Some(e.gateway)
    ensures Whole(b, cat, e, now) == Outcome(b, true)
  {}

  /** An event the index refuses is answered with an error; only a change of plan has left its package by then. */
  lemma RefusedEvent(b: Books, cat: Catalog, e: Event, now: int, id: Id)
    requires UniqueGateways(b.db) && Names(b, e, id) && e.kind != Unhandled && Blocked(b.db, id, StatusWritten(e))
    requires e.kind == SubUpdated ==> Stays(cat, e)
    ensures Whole(b, cat, e, now) == Outcome(b, false)
  {
    GatewayFound(b.db, e.gateway, id);
    BlockedIff(b.db, id, StatusWritten(e));
    if e.kind == SubUpdated {
      StaysPut(cat, e);
    }
  }

  lemma RefusedMove(b: Books, cat: Catalog, e: Event, now: int, id: Id, pkg: Id)
    requires UniqueGateways(b.db) && Names(b, e, id) && Blocked(b.db, id, StatusWritten(e)) && Moves(cat, e, pkg)
    requires forall p, q :: Moves(cat, e, p) && Moves(cat, e, q) ==> p == q
    ensures var row := b.db.subs[id].(pkg := pkg, pending := None);
            Whole(b, cat, e, now) == Outcome(b.(db := RowAndLimits(b.db, id, row, cat.packages[pkg].limits)), false)
  {
    GatewayFound(b.db, e.gateway, id);
    MovesTo(cat, e, pkg);
    var ws := Writes(b, cat, e, now);
    BlockedIff(b.db, id, StatusWritten(e));
    FourInOrder(b, ws);
    MovedRow(b, ws, id, pkg, cat.packages[pkg].limits);
    AcceptsAfter(b, ExecAll(b, ws[..3]), ws[3]);
  }
}
