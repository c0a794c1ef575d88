/** Webhook deliveries: an attempt that dies, its retry, and the events recorded along the way. */
module WebhookRuns {
  import opened Options
  import opened Billing
  import opened Webhooks

  /** The gateway's subscription id is unique. */
  predicate UniqueGateways(db: Db) {
    forall a, c :: a in db.subs && c in db.subs ==>
      db.subs[a].gateway.Some? && db.subs[a].gateway == db.subs[c].gateway ==> a == c
  }

  /** Rows keep their user and gateway id for good. */
  predicate SameOwners(db: Db, next: Db) {
    && next.subs.Keys == db.subs.Keys
    && forall id :: id in db.subs ==>
      next.subs[id].user == db.subs[id].user && next.subs[id].gateway == db.subs[id].gateway
  }

  lemma ExecOwners(b: Books, w: Write)
    ensures SameOwners(b.db, Exec(b, w).db)
  {
    if w.id in b.db.subs {
      assert b.db.subs.Keys + {w.id} == b.db.subs.Keys;
    }
  }

  lemma {:induction false} PerformOwners(b: Books, ws: seq<Write>)
    ensures SameOwners(b.db, Perform(b, ws).books.db)
    decreases |ws|
  {
    if ws != [] && Accepts(b, ws[0]) {
      ExecOwners(b, ws[0]);
      PerformOwners(Exec(b, ws[0]), ws[1..]);
    }
  }

  lemma SameRowFound(db: Db, next: Db, gateway: string)
    requires UniqueGateways(db) && SameOwners(db, next)
    ensures GatewayRow(next, gateway) == GatewayRow(db, gateway) && UniqueGateways(next)
  {
    var r, n := GatewayRow(db, gateway), GatewayRow(next, gateway);
    if r.Some? {
      assert r.value in next.subs && next.subs[r.value].gateway == Some(gateway);
    }
    if n.Some? {
      assert n.value in db.subs && db.subs[n.value].gateway == Some(gateway);
    }
  }

  // ---------------------------------------------------------------- a retry computes the same writes

  /** The columns an event's writes are computed from. */
  predicate SameInputs(row: Sub, next: Sub, e: Event) {
    && next.user == row.user && next.reminders - REMINDER_DAYS == row.reminders - REMINDER_DAYS
    && (e.kind.SubUpdated? || next.pkg == row.pkg)
  }

  lemma SameInputsSameOps(cat: Catalog, id: Id, row: Sub, next: Sub, e: Event, now: int)
    requires SameInputs(row, next, e)
    ensures Ops(cat, id, next, e, now) == Ops(cat, id, row, e, now)
  {}

  predicate KeepsInputs(row: Sub, op: Op, e: Event) {
    && (op.OpPackage? ==> e.kind.SubUpdated?)
    && (op.OpReminders? ==> op.left == row.reminders - REMINDER_DAYS)
  }

  lemma OpsKeepInputs(cat: Catalog, id: Id, row: Sub, e: Event, now: int)
    ensures forall op | op in Ops(cat, id, row, e, now) :: KeepsInputs(row, op, e)
  {}

  lemma {:induction false} PerformKeepsInputs(b: Books, ws: seq<Write>, id: Id, row: Sub, e: Event)
    requires id in b.db.subs && SameInputs(row, b.db.subs[id], e)
    requires forall w | w in ws :: w.id == id && KeepsInputs(row, w.op, e)
    ensures id in Perform(b, ws).books.db.subs && SameInputs(row, Perform(b, ws).books.db.subs[id], e)
    decreases |ws|
  {
    if ws != [] && Accepts(b, ws[0]) {
      assert ws[0] in ws;
      PerformKeepsInputs(Exec(b, ws[0]), ws[1..], id, row, e);
    }
  }

  lemma WritesStable(b: Books, cat: Catalog, e: Event, now: int, cut: nat)
    requires UniqueGateways(b.db) && cut <= |Writes(b, cat, e, now)|
    ensures Writes(Perform(b, Writes(b, cat, e, now)[..cut]).books, cat, e, now) == Writes(b, cat, e, now)
  {
    var ws := Writes(b, cat, e, now);
    var mid := Perform(b, ws[..cut]).books;
    PerformOwners(b, ws[..cut]);
    SameRowFound(b.db, mid.db, e.gateway);
    if e.gateway != "" && GatewayRow(b.db, e.gateway).Some? {
      var id := GatewayRow(b.db, e.gateway).value;
      var row := b.db.subs[id];
      OpsKeepInputs(cat, id, row, e, now);
      var ops := Ops(cat, id, row, e, now);
      forall w | w in ws[..cut] ensures w.id == id && KeepsInputs(row, w.op, e) {
        var k :| 0 <= k < cut && ws[k] == w;
        assert ops[k] in ops;
      }
      PerformKeepsInputs(b, ws[..cut], id, row, e);
      SameInputsSameOps(cat, id, row, mid.db.subs[id], e, now);
    }
  }

  lemma WritesOneEach(b: Books, cat: Catalog, e: Event, now: int)
    ensures OneEach(Writes(b, cat, e, now))
  {}

  // ---------------------------------------------------------------- attempts

  function Upto(ws: seq<Write>, cut: nat): seq<Write> {
    ws[..if cut <= |ws| then cut else |ws|]
  }

  /** An attempt that dies after `cut` writes. */
  ghost function Partial(b: Books, cat: Catalog, e: Event, now: int, cut: nat): Books {
    Perform(b, Upto(Writes(b, cat, e, now), cut)).books
  }

  lemma UptoOneEach(b: Books, cat: Catalog, e: Event, now: int, cut: nat)
    ensures OneEach(Upto(Writes(b, cat, e, now), cut))
  {
    WritesOneEach(b, cat, e, now);
  }

  ghost function Whole(b: Books, cat: Catalog, e: Event, now: int): Outcome {
    Perform(b, Writes(b, cat, e, now))
  }

  /**
   For every event kind and every point at which an attempt can die, the retry ends with the same rows, limits and
   ledger, and with the same answer, as one clean attempt.
   */
  lemma RetryEqualsCleanRun(b: Books, cat: Catalog, e: Event, now: int, cut: nat)
    requires UniqueGateways(b.db)
    ensures Whole(Partial(b, cat, e, now, cut), cat, e, now) == Whole(b, cat, e, now)
  {
    var ws := Writes(b, cat, e, now);
    var k := if cut <= |ws| then cut else |ws|;
    WritesOneEach(b, cat, e, now);
    WritesStable(b, cat, e, now, k);
    RetryConverges(b, ws, k);
  }

  // ---------------------------------------------------------------- the handler

  /** `cut`: the attempt dies after that many writes, before it can record the event. */
  datatype Delivery = Delivery(event: Event, cut: Option<nat>)

  datatype Server = Server(books: Books, seen: set<string>)

  /** HandleRazorpayWebhook: skip recorded events, process, and record what was processed without an error. */
  ghost function Handle(s: Server, cat: Catalog, now: int, d: Delivery): Server {
    if d.event.key in s.seen then s
    else if d.cut.Some? then s.(books := Partial(s.books, cat, d.event, now, d.cut.value))
    else
      var done := Whole(s.books, cat, d.event, now);
      Server(done.books, if done.ok then s.seen + {d.event.key} else s.seen)
  }

  ghost function Deliver(s: Server, cat: Catalog, now: int, ds: seq<Delivery>): Server
    decreases |ds|
  {
    if ds == [] then s else Deliver(Handle(s, cat, now, ds[0]), cat, now, ds[1..])
  }

  /** The deliveries that run to the end, in order. */
  function Finished(ds: seq<Delivery>): seq<Delivery> {
    if ds == [] then [] else (if ds[0].cut.None? then [ds[0]] else []) + Finished(ds[1..])
  }

  /** The keys recorded along a run of completed deliveries, in order. */
  ghost function Recorded(s: Server, cat: Catalog, now: int, ds: seq<Delivery>): seq<string>
    decreases |ds|
  {
    if ds == [] then []
    else
      (if ds[0].event.key !in s.seen && ds[0].event.key in Handle(s, cat, now, ds[0]).seen
       then [ds[0].event.key]
       else [])
         + Recorded(Handle(s, cat, now, ds[0]), cat, now, ds[1..])
  }

  /** No event is carried out to the end twice: its key is recorded at most once, and then always skipped. */
  lemma {:induction false} RecordedOnce(s: Server, cat: Catalog, now: int, ds: seq<Delivery>)
    ensures var keys := Recorded(s, cat, now, ds);
            && (forall j, k :: 0 <= j < k < |keys| ==> keys[j] != keys[k])
            && (forall key | key in keys :: key !in s.seen && key in Deliver(s, cat, now, ds).seen)
            && s.seen <= Deliver(s, cat, now, ds).seen
    decreases |ds|
  {
    if ds != [] {
      var next := Handle(s, cat, now, ds[0]);
      RecordedOnce(next, cat, now, ds[1..]);
      var tail := Recorded(next, cat, now, ds[1..]);
      forall k | 0 <= k < |tail| ensures tail[k] !in next.seen {
        assert tail[k] in tail;
      }
    }
  }

  /** Deliveries of already recorded events can be dropped anywhere without a trace. */
  lemma {:induction false} DuplicatesVanish(s: Server, cat: Catalog, now: int, ds: seq<Delivery>, k: nat)
    requires k < |ds| && ds[k].event.key in Deliver(s, cat, now, ds[..k]).seen
    ensures Deliver(s, cat, now, ds) == Deliver(s, cat, now, ds[..k] + ds[k + 1..])
    decreases k
  {
    if k > 0 {
      assert ds[..k][0] == ds[0] && ds[..k][1..] == ds[1..][..k - 1];
      DuplicatesVanish(Handle(s, cat, now, ds[0]), cat, now, ds[1..], k - 1);
      assert (ds[..k] + ds[k + 1..])[1..] == ds[1..][..k - 1] + ds[1..][k..];
    } else {
      assert ds[..0] + ds[1..] == ds[1..];
    }
  }
}
