/**
 Razorpay webhooks as lists of database writes, the handler that deduplicates them, and the proof that
 retries and duplicates converge.
 */
module Webhooks {
  import opened Options
  import opened Billing
  import Pricing

  datatype Kind =
    | SubAuthenticated | SubActivated | SubCharged | SubCompleted | SubExpired | SubCancelled
    | SubHalted | SubPending | SubPaused | SubResumed | SubUpdated | Unhandled

  datatype Event = Event(key: string, kind: Kind, gateway: string, plan: Option<string>, status: Option<Status>,
                         start: Option<int>, end: Option<int>, payment: Option<string>, amount: int)

  datatype Charge = Charge(user: Id, sub: Id, pkg: Id, base: int, tax: int, total: int)

  /** Subscription rows and limits, and the ledger keyed by payment id. */
  datatype Books = Books(db: Db, ledger: map<string, Charge>)

  datatype Op =
    | OpStatus(status: Status, start: Option<int>, end: Option<int>, payment: Option<string>)
    | OpCancelledAt(now: int)
    | OpUnlock
    | OpReminders(left: set<nat>)
    | OpPackage(pkg: Id)
    | OpClearPending
    | OpLimits(limits: Limits)
    | OpCharge(paymentId: string, charge: Charge)

  /** A write on row `id` of user `user`, on that user's limits, or to the ledger on behalf of that row. */
  datatype Write = Write(id: Id, user: Id, op: Op)

  const REMINDER_DAYS: set<nat> := {7, 5, 3, 2, 1}

  // ---------------------------------------------------------------- one write

  ghost predicate Accepts(b: Books, w: Write) {
    w.op.OpStatus? ==> !Clashes(b.db, w.id, w.user, w.op.status)
  }

  function Changed(row: Sub, op: Op): Sub {
    match op
    case OpStatus(status, start, end, payment) => WithStatus(row, status, start, end, payment)
    case OpCancelledAt(now) => row.(cancelAtCycleEnd := false, cancelledAt := Some(now))
    case OpUnlock => row.(upgradedFrom := None)
    case OpReminders(left) => row.(reminders := left)
    case OpPackage(pkg) => WithPackage(row, pkg)
    case OpClearPending => row.(pending := None)
    case OpLimits(_) => row
    case OpCharge(_, _) => row
  }

  function Exec(b: Books, w: Write): Books {
    match w.op
    case OpLimits(limits) => b.(db := Grant(b.db, w.user, limits))
    case OpCharge(payment, charge) => if payment in b.ledger then b else b.(ledger := b.ledger[payment := charge])
    case _ => if w.id in b.db.subs then b.(db := Put(b.db, w.id, Changed(b.db.subs[w.id], w.op))) else b
  }

  datatype Outcome = Outcome(books: Books, ok: bool)

  /** The writes of one attempt, in order; a refused write ends the attempt. */
  ghost function Perform(b: Books, ws: seq<Write>): Outcome
    decreases |ws|
  {
    if ws == [] then Outcome(b, true)
    else if !Accepts(b, ws[0]) then Outcome(b, false)
    else Perform(Exec(b, ws[0]), ws[1..])
  }

  // ---------------------------------------------------------------- the writes of an event

  ghost predicate HasPlan(cat: Catalog, p: Id, plan: string) {
    p in cat.packages && cat.packages[p].plan == Some(plan)
  }

  /** FindByRazorpayPlanID. */
  ghost function PlanPackage(cat: Catalog, plan: Option<string>): (r: Option<Id>)
    ensures r.Some? ==> plan.Some? && HasPlan(cat, r.value, plan.value)
  {
    if plan.None? then None
    else if p :| HasPlan(cat, p, plan.value) then Some(p) else None
  }

  /** RecordCharge's row: the total split at the package's rate. */
  function ChargeFor(cat: Catalog, id: Id, row: Sub, total: int): Charge {
    var rate := if row.pkg in cat.packages then cat.packages[row.pkg].gstRate else Pricing.DEFAULT_RATE;
    Charge(row.user, id, row.pkg, Pricing.BaseOf(total, rate), Pricing.TaxOf(total, rate), total)
  }

  function StatusOf(e: Event): Status {
    match e.kind
    case SubAuthenticated => Authenticated
    case SubActivated => Active
    case SubCharged => Active
    case SubCompleted => Completed
    case SubExpired => Expired
    case SubCancelled => Cancelled
    case SubHalted => Halted
    case SubPending => PendingPayment
    case SubPaused => Paused
    case SubResumed => Active
    case SubUpdated => if e.status.Some? then e.status.value else Active
    case Unhandled => Active
  }

  /**
   The operations of processEvent on the row it found. For subscription.updated the source clears the pending
   package only when the row had one; OpPackage has cleared the column by then, so the guard makes no difference.
   */
  ghost function Ops(cat: Catalog, id: Id, row: Sub, e: Event, now: int): seq<Op> {
    var status := OpStatus(StatusOf(e), e.start, e.end, e.payment);
    match e.kind
    case SubActivated => if row.pkg in cat.packages then [status, OpLimits(cat.packages[row.pkg].limits)] else [status]
    case SubCharged =>
      [status, OpUnlock, OpReminders(row.reminders - REMINDER_DAYS)]
      + if e.payment.Some? then [OpCharge(e.payment.value, ChargeFor(cat, id, row, e.amount))] else []
    case SubCompleted => [status, OpLimits(FreeLimits(cat))]
    case SubExpired => [status, OpLimits(FreeLimits(cat))]
    case SubCancelled =>
      [status, OpCancelledAt(now)] + if e.end.None? || e.end.value <= now then [OpLimits(FreeLimits(cat))] else []
    case SubUpdated =>
      (var p := PlanPackage(cat, e.plan);
       if p.Some? then [OpPackage(p.value), OpClearPending, OpLimits(cat.packages[p.value].limits)] else []) + [status]
    case Unhandled => []
    case _ => [status]
  }

  function OnRow(id: Id, user: Id, ops: seq<Op>): (r: seq<Write>)
    ensures |r| == |ops| && forall k :: 0 <= k < |ops| ==> r[k] == Write(id, user, ops[k])
  {
    seq(|ops|, k requires 0 <= k < |ops| => Write(id, user, ops[k]))
  }

  /** The writes of processEvent in a given state; none for an event without a known subscription. */
  ghost function Writes(b: Books, cat: Catalog, e: Event, now: int): seq<Write> {
    if e.gateway == "" || GatewayRow(b.db, e.gateway).None? then []
    else
      var id := GatewayRow(b.db, e.gateway).value;
      OnRow(id, b.db.subs[id].user, Ops(cat, id, b.db.subs[id], e, now))
  }

  // ---------------------------------------------------------------- writes repeated are writes done

  /** The write would change nothing. */
  ghost predicate DoneAlready(b: Books, w: Write) {
    Exec(b, w) == b
  }

  predicate SameOp(a: Op, c: Op) {
    match a
    case OpStatus(_, _, _, _) => c.OpStatus?
    case OpCancelledAt(_) => c.OpCancelledAt?
    case OpUnlock => c.OpUnlock?
    case OpReminders(_) => c.OpReminders?
    case OpPackage(_) => c.OpPackage?
    case OpClearPending => c.OpClearPending?
    case OpLimits(_) => c.OpLimits?
    case OpCharge(_, _) => c.OpCharge?
  }

  /** No two writes of one event do the same kind of thing, and all concern one row. */
  predicate OneEach(ws: seq<Write>) {
    forall j, k :: 0 <= j < k < |ws| ==> !SameOp(ws[j].op, ws[k].op) && ws[j].id == ws[k].id && ws[j].user == ws[k].user
  }

  lemma ChangeTwice(row: Sub, op: Op)
    ensures Changed(Changed(row, op), op) == Changed(row, op)
  {}

  lemma ChangesMeet(row: Sub, op: Op, other: Op)
    requires Changed(row, op) == row && !SameOp(op, other)
    ensures Changed(Changed(row, other), op) == Changed(row, other)
  {}

  lemma ExecDone(b: Books, w: Write)
    ensures DoneAlready(Exec(b, w), w)
  {
    if w.id in b.db.subs {
      ChangeTwice(b.db.subs[w.id], w.op);
      var row := Changed(b.db.subs[w.id], w.op);
      assert b.db.subs[w.id := row][w.id := row] == b.db.subs[w.id := row];
    }
    if w.op.OpLimits? {
      assert b.db.limits[w.user := w.op.limits][w.user := w.op.limits] == b.db.limits[w.user := w.op.limits];
    }
  }

  lemma RowDone(b: Books, w: Write)
    requires !w.op.OpLimits? && !w.op.OpCharge? && w.id in b.db.subs
    ensures DoneAlready(b, w) <==> Changed(b.db.subs[w.id], w.op) == b.db.subs[w.id]
  {
    var row := Changed(b.db.subs[w.id], w.op);
    assert b.db.subs[w.id := row][w.id] == row;
    assert row == b.db.subs[w.id] ==> b.db.subs[w.id := row] == b.db.subs;
  }

  lemma DoneStays(b: Books, w: Write, v: Write)
    requires DoneAlready(b, w) && !SameOp(w.op, v.op)
    ensures DoneAlready(Exec(b, v), w)
  {
    var next := Exec(b, v);
    if w.op.OpLimits? {
      assert b.db.limits[w.user := w.op.limits] == b.db.limits;
      assert next.db.limits == b.db.limits;
    } else if !w.op.OpCharge? && w.id in b.db.subs {
      RowDone(b, w);
      RowDone(next, w);
      if w.id == v.id {
        ChangesMeet(b.db.subs[w.id], w.op, v.op);
      }
    }
  }

  lemma AcceptStays(b: Books, w: Write, v: Write)
    requires w.id == v.id || !v.op.OpStatus?
    ensures Accepts(Exec(b, v), w) <==> Accepts(b, w)
  {
    var next := Exec(b, v);
    assert forall o, u :: o != w.id ==> (LiveFor(next.db, o, u) <==> LiveFor(b.db, o, u)) by {
      forall o: Id, u: Id | o != w.id ensures LiveFor(next.db, o, u) <==> LiveFor(b.db, o, u) {}
    }
  }

  /** The same row, to the same user, and either nothing to do or something else to do. */
  predicate Beside(w: Write, v: Write) {
    w.id == v.id && w.user == v.user && !SameOp(w.op, v.op)
  }

  lemma {:induction false} StaysThrough(b: Books, w: Write, ws: seq<Write>)
    requires DoneAlready(b, w) && forall v | v in ws :: Beside(w, v)
    ensures DoneAlready(Perform(b, ws).books, w)
    ensures Accepts(Perform(b, ws).books, w) <==> Accepts(b, w)
    decreases |ws|
  {
    if ws != [] && Accepts(b, ws[0]) {
      assert ws[0] in ws;
      DoneStays(b, w, ws[0]);
      AcceptStays(b, w, ws[0]);
      StaysThrough(Exec(b, ws[0]), w, ws[1..]);
    }
  }

  /** After an attempt that got through ws, each of them would be accepted again and change nothing. */
  lemma {:induction false} PerformedAreDone(b: Books, ws: seq<Write>)
    requires OneEach(ws) && Perform(b, ws).ok
    ensures forall w | w in ws :: DoneAlready(Perform(b, ws).books, w) && Accepts(Perform(b, ws).books, w)
    decreases |ws|
  {
    if ws != [] {
      var next := Exec(b, ws[0]);
      PerformedAreDone(next, ws[1..]);
      ExecDone(b, ws[0]);
      AcceptStays(b, ws[0], ws[0]);
      forall v | v in ws[1..] ensures Beside(ws[0], v) {
        var k :| 0 <= k < |ws[1..]| && ws[1..][k] == v;
        assert ws[k + 1] == v;
      }
      StaysThrough(next, ws[0], ws[1..]);
      assert ws == [ws[0]] + ws[1..];
    }
  }

  lemma {:induction false} ReplayIsIdle(b: Books, done: seq<Write>, rest: seq<Write>)
    requires forall w | w in done :: DoneAlready(b, w) && Accepts(b, w)
    ensures Perform(b, done + rest) == Perform(b, rest)
    decreases |done|
  {
    if done == [] {
      assert done + rest == rest;
    } else {
      assert (done + rest)[0] == done[0] && (done + rest)[1..] == done[1..] + rest;
      ReplayIsIdle(b, done[1..], rest);
    }
  }

  lemma {:induction false} PerformConcat(b: Books, ws: seq<Write>, vs: seq<Write>)
    ensures Perform(b, ws + vs) == if Perform(b, ws).ok then Perform(Perform(b, ws).books, vs) else Perform(b, ws)
    decreases |ws|
  {
    if ws == [] {
      assert ws + vs == vs;
    } else {
      assert (ws + vs)[0] == ws[0] && (ws + vs)[1..] == ws[1..] + vs;
      if Accepts(b, ws[0]) {
        PerformConcat(Exec(b, ws[0]), ws[1..], vs);
      }
    }
  }

  /** An attempt that ends early, at a refused write, ends there again when repeated. */
  lemma {:induction false} RefusalRepeats(b: Books, ws: seq<Write>, more: seq<Write>)
    requires OneEach(ws + more) && !Perform(b, ws).ok
    ensures Perform(Perform(b, ws).books, ws + more) == Perform(b, ws) == Perform(b, ws + more)
  {
    PerformConcat(b, ws, more);
    var n := RefusedAt(b, ws);
    var pre, stop := ws[..n], ws[n];
    var mid := Perform(b, pre).books;
    assert OneEach(pre) by {
      assert forall k :: 0 <= k < n ==> pre[k] == (ws + more)[k];
    }
    PerformedAreDone(b, pre);
    assert ws == pre + ws[n..] && ws + more == pre + (ws[n..] + more);
    PerformConcat(b, pre, ws[n..]);
    ReplayIsIdle(mid, pre, ws[n..] + more);
  }

  lemma {:induction false} RefusedAt(b: Books, ws: seq<Write>) returns (n: nat)
    requires !Perform(b, ws).ok
    ensures n < |ws| && Perform(b, ws[..n]).ok && !Accepts(Perform(b, ws[..n]).books, ws[n])
    decreases |ws|
  {
    if !Accepts(b, ws[0]) {
      n := 0;
    } else {
      var m := RefusedAt(Exec(b, ws[0]), ws[1..]);
      n := m + 1;
      assert ws[..n][0] == ws[0] && ws[..n][1..] == ws[1..][..m];
    }
  }

  /** After any prefix of an attempt, the whole attempt ends as it would have from the start. */
  lemma RetryConverges(b: Books, ws: seq<Write>, cut: nat)
    requires OneEach(ws) && cut <= |ws|
    ensures Perform(Perform(b, ws[..cut]).books, ws) == Perform(b, ws)
  {
    var pre, rest := ws[..cut], ws[cut..];
    assert ws == pre + rest;
    if Perform(b, pre).ok {
      assert OneEach(pre);
      PerformedAreDone(b, pre);
      PerformConcat(b, pre, rest);
      ReplayIsIdle(Perform(b, pre).books, pre, rest);
    } else {
      RefusalRepeats(b, pre, rest);
    }
  }

  /** A second attempt cut at `again` leaves what one attempt cut at the later of the two points leaves. */
  lemma CutsMerge(b: Books, ws: seq<Write>, cut: nat, again: nat)
    requires OneEach(ws) && cut <= |ws| && again <= |ws|
    ensures Perform(Perform(b, ws[..cut]).books, ws[..again]).books
      == Perform(b, ws[..if cut < again then again else cut]).books
  {
    if cut <= again {
      assert ws[..again][..cut] == ws[..cut];
      RetryConverges(b, ws[..again], cut);
    } else {
      var pre := ws[..again];
      assert ws[..cut] == pre + ws[again..cut];
      if Perform(b, ws[..cut]).ok {
        PerformedAreDone(b, ws[..cut]);
        assert forall w | w in pre :: w in ws[..cut];
        ReplayIsIdle(Perform(b, ws[..cut]).books, pre, []);
        assert pre + [] == pre;
      } else {
        MidReplay(b, ws[..cut], again);
      }
    }
  }

  lemma MidReplay(b: Books, ws: seq<Write>, again: nat)
    requires OneEach(ws) && again <= |ws| && !Perform(b, ws).ok
    ensures Perform(Perform(b, ws).books, ws[..again]).books == Perform(b, ws).books
  {
    var n := RefusedAt(b, ws);
    assert ws == ws[..n] + ws[n..];
    PerformConcat(b, ws[..n], ws[n..]);
    var end := Perform(b, ws).books;
    assert end == Perform(b, ws[..n]).books;
    PerformedAreDone(b, ws[..n]);
    if again <= n {
      assert forall w | w in ws[..again] :: w in ws[..n];
      ReplayIsIdle(end, ws[..again], []);
      assert ws[..again] + [] == ws[..again];
    } else {
      assert ws[..again] == ws[..n] + ws[n..again] && ws[n..again][0] == ws[n];
      ReplayIsIdle(end, ws[..n], ws[n..again]);
    }
  }
}
