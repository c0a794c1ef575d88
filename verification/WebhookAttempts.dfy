/** What an attempt at an event does to its row, its user's limits and the ledger, and when the answer is an error. */
module WebhookAttempts {
  import opened Options
  import opened Billing
  import opened Webhooks
  import opened WebhookRuns

  // ---------------------------------------------------------------- the writes that get through

  /** The row after these writes. */
  function Fold(row: Sub, ws: seq<Write>): Sub
    decreases |ws|
  {
    if ws == [] then row else Fold(Changed(row, ws[0].op), ws[1..])
  }

  /** How many writes an attempt gets through. No write of an event changes what the index says to the others. */
  ghost function Through(b: Books, ws: seq<Write>): (n: nat)
    ensures n <= |ws|
  {
    if ws == [] || !Accepts(b, ws[0]) then 0 else 1 + Through(b, ws[1..])
  }

  predicate OnOne(ws: seq<Write>, id: Id, user: Id) {
    forall k :: 0 <= k < |ws| ==> ws[k].id == id && ws[k].user == user
  }

  /** The limits the writes grant. */
  function LimitsIn(ws: seq<Write>): Option<Limits> {
    if ws == [] then None
    else if LimitsIn(ws[1..]).Some? then LimitsIn(ws[1..])
    else if ws[0].op.OpLimits? then Some(ws[0].op.limits)
    else None
  }

  datatype Payment = Payment(id: string, charge: Charge)

  /** The charge the writes record. */
  function ChargeIn(ws: seq<Write>): Option<Payment> {
    if ws == [] then None
    else if ws[0].op.OpCharge? then Some(Payment(ws[0].op.paymentId, ws[0].op.charge))
    else ChargeIn(ws[1..])
  }

  function LimitsAfter(limits: map<Id, Limits>, user: Id, given: Option<Limits>): map<Id, Limits> {
    if given.Some? then limits[user := given.value] else limits
  }

  function LedgerAfter(ledger: map<string, Charge>, paid: Option<Payment>): map<string, Charge> {
    if paid.Some? && paid.value.id !in ledger then ledger[paid.value.id := paid.value.charge] else ledger
  }

  /** The books once all these writes on one row have been made. */
  function After(b: Books, ws: seq<Write>, id: Id, user: Id): Books
    requires id in b.db.subs
  {
    Books(Db(b.db.subs[id := Fold(b.db.subs[id], ws)], LimitsAfter(b.db.limits, user, LimitsIn(ws))),
          LedgerAfter(b.ledger, ChargeIn(ws)))
  }

  lemma AfterNothing(b: Books, id: Id, user: Id)
    requires id in b.db.subs
    ensures After(b, [], id, user) == b
  {
    assert b.db.subs[id := b.db.subs[id]] == b.db.subs;
  }

  lemma {:induction false} ChargeIs(ws: seq<Write>) returns (k: nat)
    requires ChargeIn(ws).Some?
    ensures k < |ws| && ws[k].op == OpCharge(ChargeIn(ws).value.id, ChargeIn(ws).value.charge)
    decreases |ws|
  {
    if ws[0].op.OpCharge? {
      k := 0;
    } else {
      k := ChargeIs(ws[1..]);
      k := k + 1;
    }
  }

  lemma {:induction false} LimitsAre(ws: seq<Write>) returns (k: nat)
    requires LimitsIn(ws).Some?
    ensures k < |ws| && ws[k].op == OpLimits(LimitsIn(ws).value)
    decreases |ws|
  {
    if LimitsIn(ws[1..]).Some? {
      k := LimitsAre(ws[1..]);
      k := k + 1;
    } else {
      k := 0;
    }
  }

  lemma {:induction false} ChargeFound(ws: seq<Write>, k: nat)
    requires OneEach(ws) && k < |ws| && ws[k].op.OpCharge?
    ensures ChargeIn(ws) == Some(Payment(ws[k].op.paymentId, ws[k].op.charge))
    decreases k
  {
    if k > 0 {
      assert !SameOp(ws[0].op, ws[k].op);
      TailOneEach(ws);
      ChargeFound(ws[1..], k - 1);
    }
  }

  lemma {:induction false} LimitsFound(ws: seq<Write>, k: nat)
    requires k < |ws| && ws[k].op.OpLimits?
    ensures LimitsIn(ws).Some?
    decreases k
  {
    if k > 0 {
      LimitsFound(ws[1..], k - 1);
    }
  }

  lemma {:induction false} NoCharge(ws: seq<Write>)
    requires forall k :: 0 <= k < |ws| ==> !ws[k].op.OpCharge?
    ensures ChargeIn(ws).None?
    decreases |ws|
  {
    if ws != [] {
      assert !ws[0].op.OpCharge?;
      forall k | 0 <= k < |ws[1..]| ensures !ws[1..][k].op.OpCharge? {
        assert ws[1..][k] == ws[k + 1];
      }
      NoCharge(ws[1..]);
    }
  }

  lemma TailOneEach(ws: seq<Write>)
    requires OneEach(ws) && ws != []
    ensures OneEach(ws[1..])
  {
    forall j, k | 0 <= j < k < |ws[1..]|
      ensures !SameOp(ws[1..][j].op, ws[1..][k].op) && ws[1..][j].id == ws[1..][k].id
              && ws[1..][j].user == ws[1..][k].user
    {
      assert ws[1..][j] == ws[j + 1] && ws[1..][k] == ws[k + 1];
    }
  }

  lemma {:induction false} ThroughStays(b: Books, v: Write, ws: seq<Write>)
    requires OnOne(ws, v.id, v.user)
    ensures Through(Exec(b, v), ws) == Through(b, ws)
    decreases |ws|
  {
    if ws != [] {
      AcceptStays(b, ws[0], v);
      ThroughStays(b, v, ws[1..]);
    }
  }

  /** A first write followed by others on its row. */
  lemma AfterFirst(b: Books, v: Write, ws: seq<Write>)
    requires v.id in b.db.subs && OneEach([v] + ws)
    ensures v.id in Exec(b, v).db.subs && After(Exec(b, v), ws, v.id, v.user) == After(b, [v] + ws, v.id, v.user)
  {
    var all := [v] + ws;
    assert all[1..] == ws;
    if v.op.OpCharge? {
      forall k | 0 <= k < |ws| ensures !ws[k].op.OpCharge? {
        assert all[k + 1] == ws[k] && !SameOp(all[0].op, all[k + 1].op);
      }
      NoCharge(ws);
    }
    AfterFirstRow(b, v, ws);
    AfterFirstLimits(b, v, ws);
  }

  lemma AfterFirstRow(b: Books, v: Write, ws: seq<Write>)
    requires v.id in b.db.subs
    ensures v.id in Exec(b, v).db.subs
    ensures var next := Exec(b, v);
            next.db.subs[v.id := Fold(next.db.subs[v.id], ws)] == b.db.subs[v.id := Fold(b.db.subs[v.id], [v] + ws)]
  {
    assert ([v] + ws)[1..] == ws;
  }

  lemma AfterFirstLimits(b: Books, v: Write, ws: seq<Write>)
    ensures LimitsAfter(Exec(b, v).db.limits, v.user, LimitsIn(ws))
         == LimitsAfter(b.db.limits, v.user, LimitsIn([v] + ws))
  {
    assert ([v] + ws)[1..] == ws;
  }

  /** An attempt makes its writes up to the first one the index refuses, and answers without error if there is none. */
  lemma {:induction false} AttemptIs(b: Books, ws: seq<Write>, id: Id, user: Id)
    requires OneEach(ws) && OnOne(ws, id, user) && id in b.db.subs
    ensures Perform(b, ws) == Outcome(After(b, ws[..Through(b, ws)], id, user), Through(b, ws) == |ws|)
    decreases |ws|
  {
    if ws == [] || !Accepts(b, ws[0]) {
      AfterNothing(b, id, user);
    } else {
      var next, rest := Exec(b, ws[0]), ws[1..];
      TailOneEach(ws);
      ExecOwners(b, ws[0]);
      AttemptIs(next, rest, id, user);
      ThroughStays(b, ws[0], rest);
      var n := Through(b, rest);
      assert ws[..n + 1] == [ws[0]] + rest[..n];
      AfterFirst(b, ws[0], rest[..n]);
    }
  }

  lemma {:induction false} ThroughUpto(b: Books, ws: seq<Write>, n: nat)
    requires n <= |ws|
    ensures Through(b, ws[..n]) == if n < Through(b, ws) then n else Through(b, ws)
    decreases n
  {
    if n > 0 {
      assert ws[..n][1..] == ws[1..][..n - 1];
      ThroughUpto(b, ws[1..], n - 1);
    }
  }

  /** Two books that accept the same writes let the same writes through. */
  lemma {:induction false} ThroughSame(b: Books, next: Books, ws: seq<Write>)
    requires forall k :: 0 <= k < |ws| ==> (Accepts(b, ws[k]) <==> Accepts(next, ws[k]))
    ensures Through(b, ws) == Through(next, ws)
    decreases |ws|
  {
    if ws != [] {
      assert Accepts(b, ws[0]) <==> Accepts(next, ws[0]);
      forall k | 0 <= k < |ws[1..]| ensures Accepts(b, ws[1..][k]) <==> Accepts(next, ws[1..][k]) {
        assert ws[1..][k] == ws[k + 1];
      }
      ThroughSame(b, next, ws[1..]);
    }
  }

  lemma {:induction false} ThroughAtLeast(b: Books, ws: seq<Write>, n: nat)
    requires n <= |ws| && forall k :: 0 <= k < n ==> Accepts(b, ws[k])
    ensures Through(b, ws) >= n
    decreases n
  {
    if n > 0 {
      forall k | 0 <= k < n - 1 ensures Accepts(b, ws[1..][k]) {
        assert ws[1..][k] == ws[k + 1];
      }
      ThroughAtLeast(b, ws[1..], n - 1);
    }
  }

  lemma {:induction false} ThroughStops(b: Books, ws: seq<Write>, k: nat)
    requires k < |ws| && !Accepts(b, ws[k])
    ensures Through(b, ws) <= k
    decreases k
  {
    if k > 0 {
      ThroughStops(b, ws[1..], k - 1);
    }
  }

  // ---------------------------------------------------------------- a row written twice

  /** Books holding one row only, where the index refuses nothing. */
  function Alone(id: Id, row: Sub): Books {
    Books(Db(map[id := row], map[]), map[])
  }

  lemma AloneAccepts(b: Books, w: Write)
    requires b.db.subs.Keys == {w.id}
    ensures Accepts(b, w)
  {}

  lemma {:induction false} AloneFolds(b: Books, ws: seq<Write>, id: Id, user: Id)
    requires OnOne(ws, id, user) && b.db.subs.Keys == {id}
    ensures var next := Perform(b, ws).books;
            next.db.subs.Keys == {id} && next.db.subs[id] == Fold(b.db.subs[id], ws)
    decreases |ws|
  {
    if ws != [] {
      AloneAccepts(b, ws[0]);
      ExecOwners(b, ws[0]);
      AloneFolds(Exec(b, ws[0]), ws[1..], id, user);
    }
  }

  /** The later of two cuts decides: what an earlier attempt wrote to the row is written again or stays. */
  lemma FoldTwice(row: Sub, ws: seq<Write>, n: nat, m: nat, id: Id, user: Id)
    requires OneEach(ws) && OnOne(ws, id, user)
    ensures Fold(Fold(row, Upto(ws, n)), Upto(ws, m)) == Fold(row, Upto(ws, if n < m then m else n))
  {
    var b := Alone(id, row);
    var x, y := |Upto(ws, n)|, |Upto(ws, m)|;
    CutsMerge(b, ws, x, y);
    AloneFolds(b, ws[..x], id, user);
    AloneFolds(Perform(b, ws[..x]).books, ws[..y], id, user);
    AloneFolds(b, ws[..if x < y then y else x], id, user);
  }

  /** An attempt that gets at least as far writes over all an earlier one has done. */
  lemma FoldAgain(row: Sub, ws: seq<Write>, n: nat, m: nat, id: Id, user: Id)
    requires OneEach(ws) && OnOne(ws, id, user) && |Upto(ws, n)| <= |Upto(ws, m)|
    ensures Fold(Fold(row, Upto(ws, n)), Upto(ws, m)) == Fold(row, Upto(ws, m))
  {
    FoldTwice(row, ws, n, m, id, user);
  }

  /** A status among the writes is the row's status afterwards. */
  lemma {:induction false} FoldStatus(row: Sub, ws: seq<Write>, k: nat)
    requires OneEach(ws) && k < |ws| && ws[k].op.OpStatus?
    ensures Fold(row, ws).status == ws[k].op.status
    decreases |ws|
  {
    TailOneEach(ws);
    if k > 0 {
      FoldStatus(Changed(row, ws[0].op), ws[1..], k - 1);
    } else {
      forall j | 0 <= j < |ws[1..]| ensures !ws[1..][j].op.OpStatus? {
        assert ws[1..][j] == ws[j + 1] && !SameOp(ws[0].op, ws[j + 1].op);
      }
      FoldKeepsStatus(Changed(row, ws[0].op), ws[1..]);
    }
  }

  lemma {:induction false} FoldKeepsStatus(row: Sub, ws: seq<Write>)
    requires forall j :: 0 <= j < |ws| ==> !ws[j].op.OpStatus?
    ensures Fold(row, ws).status == row.status
    decreases |ws|
  {
    if ws != [] {
      assert !ws[0].op.OpStatus?;
      forall j | 0 <= j < |ws[1..]| ensures !ws[1..][j].op.OpStatus? {
        assert ws[1..][j] == ws[j + 1];
      }
      FoldKeepsStatus(Changed(row, ws[0].op), ws[1..]);
    }
  }

  lemma {:induction false} FoldKeepsOwner(row: Sub, ws: seq<Write>)
    ensures Fold(row, ws).user == row.user && Fold(row, ws).gateway == row.gateway
    decreases |ws|
  {
    if ws != [] {
      FoldKeepsOwner(Changed(row, ws[0].op), ws[1..]);
    }
  }

  lemma {:induction false} FoldKeepsInputs(first: Sub, row: Sub, ws: seq<Write>, e: Event)
    requires SameInputs(first, row, e) && forall k :: 0 <= k < |ws| ==> KeepsInputs(first, ws[k].op, e)
    ensures SameInputs(first, Fold(row, ws), e)
    decreases |ws|
  {
    if ws != [] {
      assert KeepsInputs(first, ws[0].op, e);
      forall k | 0 <= k < |ws[1..]| ensures KeepsInputs(first, ws[1..][k].op, e) {
        assert ws[1..][k] == ws[k + 1];
      }
      FoldKeepsInputs(first, Changed(row, ws[0].op), ws[1..], e);
    }
  }

  // ---------------------------------------------------------------- the writes of an event

  /** The row an event finds. */
  ghost function RowOf(db: Db, e: Event): (r: Option<Id>)
    ensures r.Some? ==> r.value in db.subs && GatewayRow(db, e.gateway) == r
  {
    if e.gateway == "" then None else GatewayRow(db, e.gateway)
  }

  /** The event sets a live status. */
  predicate GoesLive(e: Event) {
    !e.kind.Unhandled? && IsLive(StatusOf(e))
  }

  lemma OpsAre(cat: Catalog, id: Id, row: Sub, e: Event, now: int)
    ensures forall op | op in Ops(cat, id, row, e, now) ::
              && (op.OpStatus? ==> !e.kind.Unhandled? && op.status == StatusOf(e))
              && (op.OpCharge? ==> e.kind.SubCharged? && e.payment == Some(op.paymentId) && op.charge.sub == id)
  {}

  lemma WritesAre(b: Books, cat: Catalog, e: Event, now: int)
    requires RowOf(b.db, e).Some?
    ensures var q, ws := RowOf(b.db, e).value, Writes(b, cat, e, now);
            && OneEach(ws) && OnOne(ws, q, b.db.subs[q].user)
            && (forall k :: 0 <= k < |ws| && ws[k].op.OpStatus? ==>
                  !e.kind.Unhandled? && ws[k].op.status == StatusOf(e))
            && (forall k :: 0 <= k < |ws| && ws[k].op.OpCharge? ==>
                  e.kind.SubCharged? && e.payment == Some(ws[k].op.paymentId) && ws[k].op.charge.sub == q)
  {
    var q, ws := RowOf(b.db, e).value, Writes(b, cat, e, now);
    var ops := Ops(cat, q, b.db.subs[q], e, now);
    OpsAre(cat, q, b.db.subs[q], e, now);
    WritesOneEach(b, cat, e, now);
    forall k | 0 <= k < |ws| ensures ws[k].op in ops {
      assert ws[k].op == ops[k];
    }
  }

  lemma NoRowNoWrites(b: Books, cat: Catalog, e: Event, now: int)
    requires RowOf(b.db, e).None?
    ensures Writes(b, cat, e, now) == []
  {}

  /** The write sets a live status. */
  predicate SetsLive(w: Write) {
    w.op.OpStatus? && IsLive(w.op.status)
  }

  /** An event that goes live writes its status. */
  lemma StatusWritten(b: Books, cat: Catalog, now: int, f: Event) returns (k: nat)
    requires GoesLive(f) && RowOf(b.db, f).Some?
    ensures k < |Writes(b, cat, f, now)| && SetsLive(Writes(b, cat, f, now)[k])
    ensures f.kind.SubCharged? ==> k == 0
  {
    var id := RowOf(b.db, f).value;
    var ops := Ops(cat, id, b.db.subs[id], f, now);
    var status := OpStatus(StatusOf(f), f.start, f.end, f.payment);
    assert ops[0] == status || ops[|ops| - 1] == status;
    k := if ops[0] == status then 0 else |ops| - 1;
  }

  /** A charged event with a payment records it. */
  lemma ChargeWritten(b: Books, cat: Catalog, now: int, f: Event)
    requires f.kind.SubCharged? && f.payment.Some? && RowOf(b.db, f).Some?
    ensures var paid := ChargeIn(Writes(b, cat, f, now));
            paid.Some? && paid.value.id == f.payment.value && paid.value.charge.sub == RowOf(b.db, f).value
  {
    var q, ws := RowOf(b.db, f).value, Writes(b, cat, f, now);
    var ops := Ops(cat, q, b.db.subs[q], f, now);
    WritesAre(b, cat, f, now);
    assert ws[3].op == ops[3] && ops[3].OpCharge?;
    ChargeFound(ws, 3);
  }

  // ---------------------------------------------------------------- the answer to an event

  /** The user has a live row other than q. */
  ghost predicate OtherLive(db: Db, q: Id, user: Id) {
    exists o :: o != q && LiveFor(db, o, user)
  }

  /** An event on a row is answered with an error exactly when it goes live beside another live row of the user. */
  lemma AnswerIs(b: Books, cat: Catalog, f: Event, now: int)
    requires RowOf(b.db, f).Some?
    ensures var q, ws := RowOf(b.db, f).value, Writes(b, cat, f, now);
            && (Whole(b, cat, f, now).ok <==> Through(b, ws) == |ws|)
            && (Whole(b, cat, f, now).ok <==> !(GoesLive(f) && OtherLive(b.db, q, b.db.subs[q].user)))
  {
    var q, ws := RowOf(b.db, f).value, Writes(b, cat, f, now);
    WritesAre(b, cat, f, now);
    AttemptIs(b, ws, q, b.db.subs[q].user);
    if GoesLive(f) && OtherLive(b.db, q, b.db.subs[q].user) {
      var k := StatusWritten(b, cat, now, f);
      ThroughStops(b, ws, k);
    } else {
      ThroughAtLeast(b, ws, |ws|);
    }
  }

  /** Two books that agree on whether the user has another live row let the same writes of the event through. */
  lemma SameThrough(b: Books, next: Books, cat: Catalog, f: Event, now: int)
    requires RowOf(b.db, f).Some?
    requires var q := RowOf(b.db, f).value; var user := b.db.subs[q].user;
             GoesLive(f) ==> (OtherLive(b.db, q, user) <==> OtherLive(next.db, q, user))
    ensures Through(b, Writes(b, cat, f, now)) == Through(next, Writes(b, cat, f, now))
  {
    var q, ws := RowOf(b.db, f).value, Writes(b, cat, f, now);
    WritesAre(b, cat, f, now);
    forall k | 0 <= k < |ws| ensures Accepts(b, ws[k]) <==> Accepts(next, ws[k]) {}
    ThroughSame(b, next, ws);
  }

  // ---------------------------------------------------------------- the live-row index

  lemma ExecOneLive(b: Books, w: Write)
    requires OneLive(b.db) && Accepts(b, w) && (w.id in b.db.subs ==> b.db.subs[w.id].user == w.user)
    ensures OneLive(Exec(b, w).db)
  {
    var next := Exec(b, w);
    forall x: Id, y: Id, u: Id | LiveFor(next.db, x, u) && LiveFor(next.db, y, u) ensures x == y {
      if x != w.id && y != w.id {
        assert LiveFor(b.db, x, u) && LiveFor(b.db, y, u);
      } else if x != y {
        var o, m := if x == w.id then y else x, w.id;
        assert LiveFor(b.db, o, u) && u == w.user;
        assert !w.op.OpStatus? ==> LiveFor(b.db, m, u);
      }
    }
  }

  lemma {:induction false} PerformOneLive(b: Books, ws: seq<Write>, id: Id, user: Id)
    requires OneLive(b.db) && OnOne(ws, id, user) && id in b.db.subs && b.db.subs[id].user == user
    ensures OneLive(Perform(b, ws).books.db)
    decreases |ws|
  {
    if ws != [] && Accepts(b, ws[0]) {
      ExecOneLive(b, ws[0]);
      ExecOwners(b, ws[0]);
      PerformOneLive(Exec(b, ws[0]), ws[1..], id, user);
    }
  }

  // ---------------------------------------------------------------- other rows

  lemma RowsFoundAlike(b: Books, next: Books, f: Event)
    requires UniqueGateways(b.db) && SameOwners(b.db, next.db)
    ensures RowOf(next.db, f) == RowOf(b.db, f)
  {
    SameRowFound(b.db, next.db, f.gateway);
  }

  /** An event on another row keeps its row and its writes. */
  lemma OthersKept(b: Books, next: Books, cat: Catalog, now: int, e: Event, q: Id)
    requires UniqueGateways(b.db) && SameOwners(b.db, next.db) && RowOf(b.db, e) != Some(q)
    requires forall id | id in b.db.subs && id != q :: next.db.subs[id] == b.db.subs[id]
    ensures RowOf(next.db, e) == RowOf(b.db, e) && Writes(next, cat, e, now) == Writes(b, cat, e, now)
  {
    RowsFoundAlike(b, next, e);
  }

  /** An attempt changes its own row only, keeps every row's user, and keeps the index. */
  lemma AttemptRows(b: Books, cat: Catalog, now: int, e: Event, cut: nat)
    requires OneLive(b.db) && RowOf(b.db, e).Some?
    ensures var next := Partial(b, cat, e, now, cut);
            && SameOwners(b.db, next.db) && OneLive(next.db)
            && forall o | o in b.db.subs && o != RowOf(b.db, e).value :: next.db.subs[o] == b.db.subs[o]
  {
    var q, ws := RowOf(b.db, e).value, Upto(Writes(b, cat, e, now), cut);
    WritesAre(b, cat, e, now);
    UptoOneEach(b, cat, e, now, cut);
    AttemptIs(b, ws, q, b.db.subs[q].user);
    PerformOwners(b, ws);
    PerformOneLive(b, ws, q, b.db.subs[q].user);
  }
}
