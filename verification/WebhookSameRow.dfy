/** An event on the same row between a failed attempt and its retry: exactly when the ledgers tell the difference. */
module WebhookSameRow {
  import opened Options
  import opened Billing
  import opened Webhooks
  import opened WebhookRuns
  import opened WebhookAttempts
  import opened WebhookMeetings
  import Pricing

  // ---------------------------------------------------------------- what an answered event has written

  /** The writes an event has made when it is answered: all, or those before the status. */
  function Made(ws: seq<Write>, f: Event, ok: bool): seq<Write> {
    if ok then ws else if f.kind.SubUpdated? && ws != [] then ws[..|ws| - 1] else []
  }

  lemma StatusPlace(b: Books, cat: Catalog, now: int, f: Event)
    requires RowOf(b.db, f).Some? && !f.kind.Unhandled?
    ensures var ws := Writes(b, cat, f, now);
            ws != [] && ws[if f.kind.SubUpdated? then |ws| - 1 else 0].op
              == OpStatus(StatusOf(f), f.start, f.end, f.payment)
  {
    var q, ws := RowOf(b.db, f).value, Writes(b, cat, f, now);
    var ops := Ops(cat, q, b.db.subs[q], f, now);
    assert ws[if f.kind.SubUpdated? then |ws| - 1 else 0].op == ops[if f.kind.SubUpdated? then |ops| - 1 else 0];
  }

  lemma MadeIs(b: Books, cat: Catalog, now: int, f: Event)
    requires RowOf(b.db, f).Some?
    ensures var ws := Writes(b, cat, f, now); Made(ws, f, Whole(b, cat, f, now).ok) == ws[..Through(b, ws)]
  {
    var ws := Writes(b, cat, f, now);
    WritesAre(b, cat, f, now);
    AnswerIs(b, cat, f, now);
    assert ws[..|ws|] == ws;
    if !Whole(b, cat, f, now).ok {
      StatusPlace(b, cat, now, f);
      var k := if f.kind.SubUpdated? then |ws| - 1 else 0;
      assert !Accepts(b, ws[k]);
      ThroughStops(b, ws, k);
      OnlyOneStatus(ws, k);
      ThroughAtLeast(b, ws, k);
    }
  }

  lemma AnswerMade(b: Books, cat: Catalog, now: int, f: Event)
    requires RowOf(b.db, f).Some?
    ensures var q, done := RowOf(b.db, f).value, Whole(b, cat, f, now);
            done.books == After(b, Made(Writes(b, cat, f, now), f, done.ok), q, b.db.subs[q].user)
  {
    var q := RowOf(b.db, f).value;
    WritesAre(b, cat, f, now);
    AttemptIs(b, Writes(b, cat, f, now), q, b.db.subs[q].user);
    MadeIs(b, cat, now, f);
  }

  lemma OnlyOneStatus(ws: seq<Write>, k: nat)
    requires OneEach(ws) && k < |ws| && ws[k].op.OpStatus?
    ensures forall j :: 0 <= j < k ==> !ws[j].op.OpStatus?
  {
    forall j | 0 <= j < k ensures !ws[j].op.OpStatus? {
      assert !SameOp(ws[j].op, ws[k].op);
    }
  }

  // ---------------------------------------------------------------- rows

  predicate OnSubs(w: Write) {
    !w.op.OpLimits? && !w.op.OpCharge?
  }

  /** The writes that change the row. */
  function RowWrites(ws: seq<Write>): seq<Write>
    decreases |ws|
  {
    if ws == [] then []
    else (if OnSubs(ws[0]) then [ws[0]] else []) + RowWrites(ws[1..])
  }

  lemma {:induction false} FoldRowWrites(row: Sub, ws: seq<Write>)
    ensures Fold(row, RowWrites(ws)) == Fold(row, ws)
    decreases |ws|
  {
    if ws != [] {
      FoldRowWrites(Changed(row, ws[0].op), ws[1..]);
      if OnSubs(ws[0]) {
        assert RowWrites(ws)[1..] == RowWrites(ws[1..]);
      } else {
        assert RowWrites(ws) == RowWrites(ws[1..]);
      }
    }
  }

  lemma {:induction false} FoldConcat(row: Sub, ws: seq<Write>, vs: seq<Write>)
    ensures Fold(row, ws + vs) == Fold(Fold(row, ws), vs)
    decreases |ws|
  {
    if ws == [] {
      assert ws + vs == vs;
    } else {
      assert (ws + vs)[1..] == ws[1..] + vs;
      FoldConcat(Changed(row, ws[0].op), ws[1..], vs);
    }
  }

  /** Rows that differ in what the operation writes only. */
  predicate Near(x: Sub, y: Sub, op: Op) {
    Changed(x, op) == Changed(y, op)
  }

  lemma NearStays(x: Sub, y: Sub, op: Op, other: Op)
    requires Near(x, y, op)
    ensures Near(Changed(x, other), Changed(y, other), op)
  {}

  lemma {:induction false} NearMerges(x: Sub, y: Sub, op: Op, ws: seq<Write>, k: nat)
    requires Near(x, y, op) && k < |ws| && ws[k].op == op
    ensures Fold(x, ws) == Fold(y, ws)
    decreases |ws|
  {
    if k > 0 {
      NearStays(x, y, op, ws[0].op);
      NearMerges(Changed(x, ws[0].op), Changed(y, ws[0].op), op, ws[1..], k - 1);
    }
  }

  /** Writes that come again later need not have been made before. */
  lemma {:induction false} Absorbed(row: Sub, pre: seq<Write>, ws: seq<Write>)
    requires forall j :: 0 <= j < |pre| && OnSubs(pre[j]) ==> exists k :: 0 <= k < |ws| && ws[k].op == pre[j].op
    ensures Fold(Fold(row, pre), ws) == Fold(row, ws)
    decreases |pre|
  {
    if pre != [] {
      forall j | 0 <= j < |pre[1..]| && OnSubs(pre[1..][j])
        ensures exists k :: 0 <= k < |ws| && ws[k].op == pre[1..][j].op
      {
        assert pre[1..][j] == pre[j + 1];
      }
      Absorbed(Changed(row, pre[0].op), pre[1..], ws);
      if OnSubs(pre[0]) {
        var k :| 0 <= k < |ws| && ws[k].op == pre[0].op;
        ChangeTwice(row, pre[0].op);
        NearMerges(Changed(row, pre[0].op), row, pre[0].op, ws, k);
      }
    }
  }

  lemma {:induction false} RowWritesHas(ws: seq<Write>, j: nat) returns (k: nat)
    requires j < |ws| && OnSubs(ws[j])
    ensures k < |RowWrites(ws)| && RowWrites(ws)[k] == ws[j]
    decreases |ws|
  {
    if j == 0 {
      k := 0;
    } else {
      k := RowWritesHas(ws[1..], j - 1);
      k := if OnSubs(ws[0]) then k + 1 else k;
    }
  }

  lemma {:induction false} NoRowWrites(ws: seq<Write>)
    requires forall k :: 0 <= k < |ws| ==> !OnSubs(ws[k])
    ensures RowWrites(ws) == []
    decreases |ws|
  {
    if ws != [] {
      assert !OnSubs(ws[0]);
      forall k | 0 <= k < |ws[1..]| ensures !OnSubs(ws[1..][k]) {
        assert ws[1..][k] == ws[k + 1];
      }
      NoRowWrites(ws[1..]);
    }
  }

  lemma {:induction false} RowWritesHead(ws: seq<Write>, vs: seq<Write>, n: nat)
    requires n <= |ws| && n <= |vs| && ws[..n] == vs[..n]
    requires forall k :: n <= k < |ws| ==> !OnSubs(ws[k])
    requires forall k :: n <= k < |vs| ==> !OnSubs(vs[k])
    ensures RowWrites(ws) == RowWrites(vs)
    decreases n
  {
    if n == 0 {
      NoRowWrites(ws);
      NoRowWrites(vs);
    } else {
      assert ws[0] == ws[..n][0] && vs[0] == vs[..n][0];
      assert ws[1..][..n - 1] == ws[..n][1..] && vs[1..][..n - 1] == vs[..n][1..];
      forall k | n - 1 <= k < |ws[1..]| ensures !OnSubs(ws[1..][k]) {
        assert ws[1..][k] == ws[k + 1];
      }
      forall k | n - 1 <= k < |vs[1..]| ensures !OnSubs(vs[1..][k]) {
        assert vs[1..][k] == vs[k + 1];
      }
      RowWritesHead(ws[1..], vs[1..], n - 1);
    }
  }

  predicate SameReminders(x: Sub, y: Sub) {
    x.reminders - REMINDER_DAYS == y.reminders - REMINDER_DAYS
  }

  /** Two books with the event's row, to the same user and with the same reminders left. */
  ghost predicate RowsLike(b: Books, next: Books, e: Event) {
    && RowOf(b.db, e).Some? && RowOf(next.db, e) == RowOf(b.db, e)
    && next.db.subs[RowOf(b.db, e).value].user == b.db.subs[RowOf(b.db, e).value].user
    && SameReminders(b.db.subs[RowOf(b.db, e).value], next.db.subs[RowOf(b.db, e).value])
  }

  /** What the event writes to the row does not depend on the row's package. */
  lemma RowWritesSame(b: Books, next: Books, cat: Catalog, now: int, e: Event, ok: bool)
    requires RowsLike(b, next, e)
    ensures RowWrites(Made(Writes(b, cat, e, now), e, ok)) == RowWrites(Made(Writes(next, cat, e, now), e, ok))
  {
    var ws, vs := Writes(b, cat, e, now), Writes(next, cat, e, now);
    if ok && e.kind.SubActivated? {
      assert ws[..1] == vs[..1];
      RowWritesHead(ws, vs, 1);
    } else if ok && e.kind.SubCharged? {
      assert ws[..3] == vs[..3];
      RowWritesHead(ws, vs, 3);
    } else if !e.kind.SubActivated? && !e.kind.SubCharged? {
      var q := RowOf(b.db, e).value;
      assert Ops(cat, q, b.db.subs[q], e, now) == Ops(cat, q, next.db.subs[q], e, now);
    }
  }

  /** The same package as well, and all the writes are the same. */
  lemma WritesSame(b: Books, next: Books, cat: Catalog, now: int, e: Event)
    requires RowsLike(b, next, e)
    requires e.kind.SubUpdated? || next.db.subs[RowOf(b.db, e).value].pkg == b.db.subs[RowOf(b.db, e).value].pkg
    ensures Writes(next, cat, e, now) == Writes(b, cat, e, now)
  {
    var q := RowOf(b.db, e).value;
    SameInputsSameOps(cat, q, b.db.subs[q], next.db.subs[q], e, now);
  }

  lemma {:induction false} FoldReminders(first: Sub, row: Sub, ws: seq<Write>)
    requires SameReminders(first, row)
    requires forall k :: 0 <= k < |ws| && ws[k].op.OpReminders? ==> ws[k].op.left == first.reminders - REMINDER_DAYS
    ensures SameReminders(first, Fold(row, ws))
    decreases |ws|
  {
    if ws != [] {
      assert ws[0].op.OpReminders? ==> ws[0].op.left == first.reminders - REMINDER_DAYS;
      forall k | 0 <= k < |ws[1..]| && ws[1..][k].op.OpReminders?
        ensures ws[1..][k].op.left == first.reminders - REMINDER_DAYS
      {
        assert ws[1..][k] == ws[k + 1];
      }
      FoldReminders(first, Changed(row, ws[0].op), ws[1..]);
    }
  }

  lemma {:induction false} FoldSamePackage(x: Sub, y: Sub, ws: seq<Write>)
    requires x.pkg == y.pkg
    ensures Fold(x, ws).pkg == Fold(y, ws).pkg
    decreases |ws|
  {
    if ws != [] {
      FoldSamePackage(Changed(x, ws[0].op), Changed(y, ws[0].op), ws[1..]);
    }
  }

  /** The package afterwards is the row's own or one that the writes set. */
  lemma {:induction false} FoldPackage(row: Sub, ws: seq<Write>) returns (k: nat)
    ensures Fold(row, ws).pkg == row.pkg || (k < |ws| && ws[k].op == OpPackage(Fold(row, ws).pkg))
    decreases |ws|
  {
    k := 0;
    if ws != [] {
      var next := Changed(row, ws[0].op);
      var j := FoldPackage(next, ws[1..]);
      if Fold(row, ws).pkg != row.pkg && j < |ws[1..]| && ws[1..][j].op == OpPackage(Fold(row, ws).pkg) {
        assert ws[j + 1] == ws[1..][j];
        k := j + 1;
      }
    }
  }

  // ---------------------------------------------------------------- attempts on one row

  /** `next` is what the writes `zs`, the first of those of f, make of b. */
  ghost predicate MadeOn(b: Books, next: Books, cat: Catalog, now: int, f: Event, zs: seq<Write>) {
    && UniqueGateways(b.db) && RowOf(b.db, f).Some?
    && |zs| <= |Writes(b, cat, f, now)| && zs == Writes(b, cat, f, now)[..|zs|]
    && next == After(b, zs, RowOf(b.db, f).value, b.db.subs[RowOf(b.db, f).value].user)
  }

  lemma CutMade(b: Books, cat: Catalog, now: int, e: Event, cut: nat) returns (zs: seq<Write>)
    requires UniqueGateways(b.db) && RowOf(b.db, e).Some?
    ensures MadeOn(b, Partial(b, cat, e, now, cut), cat, now, e, zs)
    ensures |zs| <= |Made(Writes(b, cat, e, now), e, Whole(b, cat, e, now).ok)|
  {
    var q, ws := RowOf(b.db, e).value, Writes(b, cat, e, now);
    var all := Upto(ws, cut);
    WritesAre(b, cat, e, now);
    UptoOneEach(b, cat, e, now, cut);
    AttemptIs(b, all, q, b.db.subs[q].user);
    ThroughUpto(b, ws, |all|);
    MadeIs(b, cat, now, e);
    zs := all[..Through(b, all)];
  }

  lemma DoneMade(b: Books, cat: Catalog, now: int, f: Event)
    requires UniqueGateways(b.db) && RowOf(b.db, f).Some?
    ensures var done := Whole(b, cat, f, now);
            MadeOn(b, done.books, cat, now, f, Made(Writes(b, cat, f, now), f, done.ok))
  {
    AnswerMade(b, cat, now, f);
    MadeIs(b, cat, now, f);
  }

  /** The row is found as before, with the same reminders left, and the user's other rows are as live as they were. */
  lemma MadeLike(b: Books, next: Books, cat: Catalog, now: int, f: Event, zs: seq<Write>, g: Event)
    requires MadeOn(b, next, cat, now, f, zs) && RowOf(b.db, g) == RowOf(b.db, f)
    ensures UniqueGateways(next.db) && RowsLike(b, next, g)
    ensures var q := RowOf(b.db, f).value; var user := b.db.subs[q].user;
            OtherLive(next.db, q, user) <==> OtherLive(b.db, q, user)
  {
    var q, ws := RowOf(b.db, f).value, Writes(b, cat, f, now);
    var row := b.db.subs[q];
    MadeOwners(b, next, cat, now, f, zs);
    SameRowFound(b.db, next.db, g.gateway);
    RowsFoundAlike(b, next, g);
    var ops := Ops(cat, q, row, f, now);
    OpsKeepInputs(cat, q, row, f, now);
    forall k | 0 <= k < |zs| && zs[k].op.OpReminders? ensures zs[k].op.left == row.reminders - REMINDER_DAYS {
      assert zs[k].op == ops[k] && ops[k] in ops;
    }
    FoldReminders(row, row, zs);
    forall o: Id, user: Id | o != q ensures LiveFor(next.db, o, user) <==> LiveFor(b.db, o, user) {}
  }

  lemma MadeOwners(b: Books, next: Books, cat: Catalog, now: int, f: Event, zs: seq<Write>)
    requires MadeOn(b, next, cat, now, f, zs)
    ensures SameOwners(b.db, next.db)
  {
    var q := RowOf(b.db, f).value;
    FoldKeepsOwner(b.db.subs[q], zs);
    assert b.db.subs.Keys + {q} == b.db.subs.Keys;
  }

  /** Only subscription.updated with a known plan changes the package, to the plan's. */
  lemma MadePackage(b: Books, next: Books, cat: Catalog, now: int, f: Event, zs: seq<Write>)
    requires MadeOn(b, next, cat, now, f, zs)
    ensures var q := RowOf(b.db, f).value;
            next.db.subs[q].pkg == b.db.subs[q].pkg
            || (f.kind.SubUpdated? && PlanPackage(cat, f.plan) == Some(next.db.subs[q].pkg))
  {
    var q, ws := RowOf(b.db, f).value, Writes(b, cat, f, now);
    var ops := Ops(cat, q, b.db.subs[q], f, now);
    var k := FoldPackage(b.db.subs[q], zs);
    if next.db.subs[q].pkg != b.db.subs[q].pkg {
      assert zs[k].op == ops[k] && ops[k].OpPackage?;
    }
  }

  /** An event on the row is answered alike before and after writes on that row. */
  lemma AnswerAlike(b: Books, next: Books, cat: Catalog, now: int, f: Event, zs: seq<Write>, g: Event)
    requires MadeOn(b, next, cat, now, f, zs) && RowOf(b.db, g) == RowOf(b.db, f)
    ensures Whole(next, cat, g, now).ok == Whole(b, cat, g, now).ok
  {
    MadeLike(b, next, cat, now, f, zs, g);
    AnswerIs(b, cat, g, now);
    AnswerIs(next, cat, g, now);
  }

  // ---------------------------------------------------------------- the end, column by column

  /** The charge an answered event records, if any. */
  ghost function Paid(b: Books, cat: Catalog, e: Event, ok: bool): Option<Payment>
    requires RowOf(b.db, e).Some?
  {
    var q := RowOf(b.db, e).value;
    if ok && e.kind.SubCharged? && e.payment.Some?
    then Some(Payment(e.payment.value, ChargeFor(cat, q, b.db.subs[q], e.amount)))
    else None
  }

  lemma PaidIs(b: Books, cat: Catalog, now: int, e: Event, ok: bool)
    requires RowOf(b.db, e).Some?
    ensures ChargeIn(Made(Writes(b, cat, e, now), e, ok)) == Paid(b, cat, e, ok)
  {
    var q, ws := RowOf(b.db, e).value, Writes(b, cat, e, now);
    var ops := Ops(cat, q, b.db.subs[q], e, now);
    WritesAre(b, cat, e, now);
    if ok && e.kind.SubCharged? && e.payment.Some? {
      assert ws[3].op == ops[3];
      ChargeFound(ws, 3);
    } else {
      var made := Made(ws, e, ok);
      forall k | 0 <= k < |made| ensures !made[k].op.OpCharge? {
        assert made[k] == ws[k] && ws[k].op == ops[k];
      }
      NoCharge(made);
    }
  }

  /** Some first writes charge nothing, or what the whole attempt charges. */
  lemma PaidPart(b: Books, next: Books, cat: Catalog, now: int, e: Event, zs: seq<Write>)
    requires MadeOn(b, next, cat, now, e, zs)
    requires |zs| <= |Made(Writes(b, cat, e, now), e, Whole(b, cat, e, now).ok)|
    ensures ChargeIn(zs).None? || ChargeIn(zs) == Paid(b, cat, e, Whole(b, cat, e, now).ok)
  {
    var ok := Whole(b, cat, e, now).ok;
    var made := Made(Writes(b, cat, e, now), e, ok);
    MadeIs(b, cat, now, e);
    WritesAre(b, cat, e, now);
    PaidIs(b, cat, now, e, ok);
    if ChargeIn(zs).Some? {
      var k := ChargeIs(zs);
      assert zs[k] == Writes(b, cat, e, now)[k] == made[k];
      ChargeFound(made, k);
    }
  }

  /** The row at the end does not tell whether an attempt came before. */
  lemma RowEnds(row: Sub, pre: seq<Write>, mf: seq<Write>, me: seq<Write>, mf2: seq<Write>, me2: seq<Write>)
    requires RowWrites(mf2) == RowWrites(mf) && RowWrites(me2) == RowWrites(me)
    requires forall j :: 0 <= j < |pre| && OnSubs(pre[j]) ==>
      exists k :: 0 <= k < |RowWrites(me)| && RowWrites(me)[k] == pre[j]
    ensures Fold(Fold(Fold(row, pre), mf2), me2) == Fold(Fold(row, mf), me)
  {
    var wf, we := RowWrites(mf), RowWrites(me);
    var y := Fold(row, pre);
    FoldRowWrites(row, mf);
    FoldRowWrites(Fold(row, mf), me);
    FoldRowWrites(y, mf2);
    FoldRowWrites(Fold(y, mf2), me2);
    FoldConcat(row, wf, we);
    FoldConcat(y, wf, we);
    forall j | 0 <= j < |pre| && OnSubs(pre[j]) ensures exists k :: 0 <= k < |wf + we| && (wf + we)[k].op == pre[j].op {
      var k :| 0 <= k < |we| && we[k] == pre[j];
      assert (wf + we)[|wf| + k] == we[k];
    }
    Absorbed(row, pre, wf + we);
  }

  /** What an attempt has written to the row is among what the event writes when it is answered, in any like books. */
  lemma PartAmongMade(b: Books, mid: Books, next: Books, cat: Catalog, now: int, e: Event, zs: seq<Write>, ok: bool)
    requires MadeOn(b, mid, cat, now, e, zs) && RowsLike(b, next, e) && ok == Whole(b, cat, e, now).ok
    requires |zs| <= |Made(Writes(b, cat, e, now), e, ok)|
    ensures var me := RowWrites(Made(Writes(next, cat, e, now), e, ok));
            forall j :: 0 <= j < |zs| && OnSubs(zs[j]) ==> exists k :: 0 <= k < |me| && me[k] == zs[j]
  {
    var ws := Writes(b, cat, e, now);
    var made, me := Made(ws, e, ok), RowWrites(Made(Writes(next, cat, e, now), e, ok));
    MadeIs(b, cat, now, e);
    RowWritesSame(b, next, cat, now, e, ok);
    forall j | 0 <= j < |zs| && OnSubs(zs[j]) ensures exists k :: 0 <= k < |me| && me[k] == zs[j] {
      assert zs[j] == ws[j] == made[j];
      var k := RowWritesHas(made, j);
    }
  }

  /** An event that grants limits still does, with its package replaced by a known one. */
  lemma GrantsStill(b: Books, next: Books, cat: Catalog, now: int, e: Event, ok: bool)
    requires RowsLike(b, next, e) && LimitsIn(Made(Writes(b, cat, e, now), e, ok)).Some?
    requires var q := RowOf(b.db, e).value;
             next.db.subs[q].pkg == b.db.subs[q].pkg || next.db.subs[q].pkg in cat.packages
    ensures LimitsIn(Made(Writes(next, cat, e, now), e, ok)).Some?
  {
    var q, made, vs := RowOf(b.db, e).value, Made(Writes(b, cat, e, now), e, ok), Writes(next, cat, e, now);
    var ops := Ops(cat, q, b.db.subs[q], e, now);
    var k := LimitsAre(made);
    assert made[k] == Writes(b, cat, e, now)[k] && made[k].op == ops[k];
    if e.kind.SubUpdated? || next.db.subs[q].pkg == b.db.subs[q].pkg {
      WritesSame(b, next, cat, now, e);
    } else if e.kind.SubActivated? {
      LimitsFound(vs, 1);
    } else {
      assert !e.kind.SubCharged?;
      assert Ops(cat, q, b.db.subs[q], e, now) == Ops(cat, q, next.db.subs[q], e, now);
    }
  }

  lemma LimitsPart(b: Books, mid: Books, cat: Catalog, now: int, e: Event, zs: seq<Write>, ok: bool)
    requires MadeOn(b, mid, cat, now, e, zs) && ok == Whole(b, cat, e, now).ok
    requires |zs| <= |Made(Writes(b, cat, e, now), e, ok)| && LimitsIn(zs).Some?
    ensures LimitsIn(Made(Writes(b, cat, e, now), e, ok)).Some?
  {
    MadeIs(b, cat, now, e);
    var k := LimitsAre(zs);
    LimitsFound(Made(Writes(b, cat, e, now), e, ok), k);
  }

  /** An attempt that has changed the package is of an event that grants the limits of its plan, refused or not. */
  lemma PackageGrants(b: Books, cat: Catalog, now: int, e: Event, ok: bool)
    requires RowOf(b.db, e).Some? && e.kind.SubUpdated? && PlanPackage(cat, e.plan).Some?
    ensures LimitsIn(Made(Writes(b, cat, e, now), e, ok)).Some?
  {
    var q, ws := RowOf(b.db, e).value, Writes(b, cat, e, now);
    var ops := Ops(cat, q, b.db.subs[q], e, now);
    assert ws[2].op == ops[2] && Made(ws, e, ok)[2] == ws[2];
    LimitsFound(Made(ws, e, ok), 2);
  }

  /** The books along both orders, with q the row: t after the failed attempt, c after f alone, r after both. */
  ghost predicate Crossing(b: Books, t: Books, c: Books, r: Books, cat: Catalog, now: int, e: Event, f: Event,
                           pre: seq<Write>)
  {
    && UniqueGateways(b.db) && RowOf(b.db, e).Some? && RowOf(b.db, f) == RowOf(b.db, e)
    && MadeOn(b, t, cat, now, e, pre) && |pre| <= |Made(Writes(b, cat, e, now), e, Whole(b, cat, e, now).ok)|
    && c == Whole(b, cat, f, now).books && r == Whole(t, cat, f, now).books
  }

  /** Both orders find the row everywhere and answer alike. */
  lemma CrossingAlike(b: Books, t: Books, c: Books, r: Books, cat: Catalog, now: int, e: Event, f: Event,
                      pre: seq<Write>)
    requires Crossing(b, t, c, r, cat, now, e, f, pre)
    ensures RowsLike(b, t, f) && RowsLike(b, c, e) && RowsLike(b, r, e) && RowsLike(c, r, e)
    ensures UniqueGateways(t.db) && UniqueGateways(c.db) && UniqueGateways(r.db)
    ensures Whole(t, cat, f, now).ok == Whole(b, cat, f, now).ok
    ensures Whole(c, cat, e, now).ok == Whole(b, cat, e, now).ok == Whole(r, cat, e, now).ok
  {
    MadeLike(b, t, cat, now, e, pre, e);
    MadeLike(b, t, cat, now, e, pre, f);
    AnswerAlike(b, t, cat, now, e, pre, f);
    AnswerAlike(b, t, cat, now, e, pre, e);
    DoneMade(b, cat, now, f);
    DoneMade(t, cat, now, f);
    var mf, mf2 := Made(Writes(b, cat, f, now), f, Whole(b, cat, f, now).ok),
                   Made(Writes(t, cat, f, now), f, Whole(t, cat, f, now).ok);
    MadeLike(b, c, cat, now, f, mf, e);
    AnswerAlike(b, c, cat, now, f, mf, e);
    MadeLike(t, r, cat, now, f, mf2, e);
    AnswerAlike(t, r, cat, now, f, mf2, e);
  }

  /** The end of both orders, as writes on the rows they start from. */
  lemma CrossingEnds(b: Books, t: Books, c: Books, r: Books, cat: Catalog, now: int, e: Event, f: Event,
                      pre: seq<Write>)
    requires Crossing(b, t, c, r, cat, now, e, f, pre)
    ensures RowsLike(b, t, f) && RowsLike(c, r, e) && RowsLike(b, c, e)
    ensures var q, okf, oke := RowOf(b.db, e).value, Whole(b, cat, f, now).ok, Whole(b, cat, e, now).ok;
            var user := b.db.subs[q].user;
            && c == After(b, Made(Writes(b, cat, f, now), f, okf), q, user)
            && r == After(t, Made(Writes(t, cat, f, now), f, okf), q, user)
            && Whole(c, cat, e, now).books == After(c, Made(Writes(c, cat, e, now), e, oke), q, user)
            && Whole(r, cat, e, now).books == After(r, Made(Writes(r, cat, e, now), e, oke), q, user)
  {
    CrossingAlike(b, t, c, r, cat, now, e, f, pre);
    AnswerMade(b, cat, now, f);
    AnswerMade(t, cat, now, f);
    AnswerMade(c, cat, now, e);
    AnswerMade(r, cat, now, e);
  }

  lemma CrossingFold(b: Books, t: Books, c: Books, r: Books, cat: Catalog, now: int, e: Event, f: Event,
                     pre: seq<Write>, okf: bool, oke: bool)
    requires RowsLike(b, t, f) && RowsLike(b, c, e) && RowsLike(c, r, e) && oke == Whole(b, cat, e, now).ok
    requires MadeOn(b, t, cat, now, e, pre) && |pre| <= |Made(Writes(b, cat, e, now), e, oke)|
    ensures var row := b.db.subs[RowOf(b.db, e).value];
            var mf, me := Made(Writes(b, cat, f, now), f, okf), Made(Writes(c, cat, e, now), e, oke);
            var mf2, me2 := Made(Writes(t, cat, f, now), f, okf), Made(Writes(r, cat, e, now), e, oke);
            Fold(Fold(Fold(row, pre), mf2), me2) == Fold(Fold(row, mf), me)
  {
    RowWritesSame(b, t, cat, now, f, okf);
    RowWritesSame(c, r, cat, now, e, oke);
    PartAmongMade(b, t, c, cat, now, e, pre, oke);
    RowEnds(b.db.subs[RowOf(b.db, e).value], pre,
            Made(Writes(b, cat, f, now), f, okf), Made(Writes(c, cat, e, now), e, oke),
            Made(Writes(t, cat, f, now), f, okf), Made(Writes(r, cat, e, now), e, oke));
  }

  lemma SubsMeet(subs: map<Id, Sub>, q: Id, x: Sub, y: Sub, z: Sub, end: Sub)
    ensures subs[q := x][q := y][q := end] == subs[q := z][q := end]
  {}

  lemma CrossingRow(b: Books, t: Books, c: Books, r: Books, cat: Catalog, now: int, e: Event, f: Event, pre: seq<Write>)
    requires Crossing(b, t, c, r, cat, now, e, f, pre)
    ensures Whole(r, cat, e, now).books.db.subs == Whole(c, cat, e, now).books.db.subs
  {
    var q := RowOf(b.db, e).value;
    CrossingEnds(b, t, c, r, cat, now, e, f, pre);
    CrossingFold(b, t, c, r, cat, now, e, f, pre, Whole(b, cat, f, now).ok, Whole(b, cat, e, now).ok);
    SubsMeet(b.db.subs, q, t.db.subs[q], r.db.subs[q], c.db.subs[q], Whole(c, cat, e, now).books.db.subs[q]);
  }

  /** Unless the attempt has changed the package, f and then e write the same on either order. */
  lemma CrossingPackages(b: Books, t: Books, c: Books, r: Books, cat: Catalog, now: int, e: Event, f: Event,
                      pre: seq<Write>)
    requires RowsLike(b, t, f) && RowsLike(b, c, e) && RowsLike(c, r, e)
    requires Crossing(b, t, c, r, cat, now, e, f, pre)
    ensures var q := RowOf(b.db, e).value;
            && Writes(r, cat, e, now) == Writes(c, cat, e, now)
            && if t.db.subs[q].pkg == b.db.subs[q].pkg
               then Writes(t, cat, f, now) == Writes(b, cat, f, now) && r.db.subs[q].pkg == c.db.subs[q].pkg
               else e.kind.SubUpdated? && PlanPackage(cat, e.plan).Some?
    ensures var q := RowOf(b.db, e).value;
            c.db.subs[q].pkg == b.db.subs[q].pkg || (f.kind.SubUpdated? && c.db.subs[q].pkg in cat.packages)
  {
    var q := RowOf(b.db, e).value;
    CrossingEnds(b, t, c, r, cat, now, e, f, pre);
    MadePackage(b, t, cat, now, e, pre);
    DoneMade(b, cat, now, f);
    MadePackage(b, c, cat, now, f, Made(Writes(b, cat, f, now), f, Whole(b, cat, f, now).ok));
    if t.db.subs[q].pkg == b.db.subs[q].pkg {
      WritesSame(b, t, cat, now, f);
      FoldSamePackage(b.db.subs[q], t.db.subs[q], Made(Writes(b, cat, f, now), f, Whole(b, cat, f, now).ok));
    }
    WritesSame(c, r, cat, now, e);
  }

  lemma LimitsMeet(limits: map<Id, Limits>, user: Id, lp: Option<Limits>, lf: Option<Limits>, lf2: Option<Limits>,
                   le: Option<Limits>)
    requires le.None? ==> lp.None? && lf2 == lf
    ensures LimitsAfter(LimitsAfter(LimitsAfter(limits, user, lp), user, lf2), user, le)
         == LimitsAfter(LimitsAfter(limits, user, lf), user, le)
  {}

  lemma CrossingLimits(b: Books, t: Books, c: Books, r: Books, cat: Catalog, now: int, e: Event, f: Event,
                      pre: seq<Write>)
    requires Crossing(b, t, c, r, cat, now, e, f, pre)
    ensures Whole(r, cat, e, now).books.db.limits == Whole(c, cat, e, now).books.db.limits
  {
    CrossingEnds(b, t, c, r, cat, now, e, f, pre);
    CrossingPackages(b, t, c, r, cat, now, e, f, pre);
    var okf, oke := Whole(b, cat, f, now).ok, Whole(b, cat, e, now).ok;
    var q := RowOf(b.db, e).value;
    var mf, mf2, me := Made(Writes(b, cat, f, now), f, okf), Made(Writes(t, cat, f, now), f, okf),
                       Made(Writes(c, cat, e, now), e, oke);
    if LimitsIn(pre).Some? {
      LimitsPart(b, t, cat, now, e, pre, oke);
      GrantsStill(b, c, cat, now, e, oke);
    }
    if t.db.subs[q].pkg != b.db.subs[q].pkg {
      PackageGrants(c, cat, now, e, oke);
    }
    LimitsMeet(b.db.limits, b.db.subs[q].user, LimitsIn(pre), LimitsIn(mf), LimitsIn(mf2), LimitsIn(me));
  }

  // ---------------------------------------------------------------- the ledger

  /** New charges pp of an attempt, pf or pf2 of f without or with the attempt before it, and pe of e after f. */
  predicate ChargesAgree(ledger: map<string, Charge>, pp: Option<Payment>, pf: Option<Payment>, pf2: Option<Payment>,
                         pe: Option<Payment>)
    requires (pf.Some? ==> pf2.Some?) && (pp.Some? ==> pe.Some?)
  {
    && (pf.Some? && pf.value.id !in ledger ==>
          var first := if pp.Some? && pp.value.id == pf.value.id then pp else pf2;
          first.value.charge == pf.value.charge)
    && (pp.Some? && pp.value.id !in ledger && !(pf.Some? && pf.value.id == pp.value.id) ==>
          pe.value.charge == pp.value.charge)
  }

  /** The ledger with charges of an attempt, of f and of e, in this order, against that of f and e alone. */
  lemma LedgersMeetIff(ledger: map<string, Charge>, pp: Option<Payment>, pf: Option<Payment>, pf2: Option<Payment>,
                       pe: Option<Payment>, pe2: Option<Payment>)
    requires (pf.Some? <==> pf2.Some?) && (pf.Some? ==> pf2.value.id == pf.value.id)
    requires (pe.Some? <==> pe2.Some?) && (pe.Some? ==> pe2.value.id == pe.value.id)
    requires pp.Some? ==> pe.Some? && pe.value.id == pp.value.id
    requires pp.None? ==> pe2 == pe
    ensures LedgerAfter(LedgerAfter(LedgerAfter(ledger, pp), pf2), pe2) == LedgerAfter(LedgerAfter(ledger, pf), pe)
            <==> ChargesAgree(ledger, pp, pf, pf2, pe)
  {
    var crossed := LedgerAfter(LedgerAfter(LedgerAfter(ledger, pp), pf2), pe2);
    var clean := LedgerAfter(LedgerAfter(ledger, pf), pe);
    assert crossed.Keys == clean.Keys;
    if pf.Some? && pf.value.id !in ledger {
      assert clean[pf.value.id] == pf.value.charge;
    }
    if pp.Some? && pp.value.id !in ledger && !(pf.Some? && pf.value.id == pp.value.id) {
      assert clean[pp.value.id] == pe.value.charge && crossed[pp.value.id] == pp.value.charge;
    }
  }

  /**
   A payment ends up with different charges: f records one where the attempt has changed the package, or has recorded
   the same payment with another amount; or the attempt has recorded its own, and f changes the package.
   */
  ghost predicate ChargedApart(b: Books, t: Books, c: Books, cat: Catalog, now: int, e: Event, f: Event) {
    var r := RowOf(b.db, f);
    r.Some? && r.value in t.db.subs && r.value in c.db.subs
    && ((f.kind.SubCharged? && f.payment.Some? && f.payment.value !in b.ledger && Whole(b, cat, f, now).ok
         && (t.db.subs[r.value].pkg != b.db.subs[r.value].pkg
             || (f.payment.value in t.ledger && e.amount != f.amount)))
        || (e.kind.SubCharged? && e.payment.Some? && e.payment.value in t.ledger && e.payment.value !in b.ledger
            && c.db.subs[r.value].pkg != b.db.subs[r.value].pkg))
  }

  lemma CrossingLedgerIff(b: Books, t: Books, c: Books, r: Books, cat: Catalog, now: int, e: Event, f: Event,
                      pre: seq<Write>)
    requires Crossing(b, t, c, r, cat, now, e, f, pre)
    ensures Whole(r, cat, e, now).books.ledger == Whole(c, cat, e, now).books.ledger
            <==> !ChargedApart(b, t, c, cat, now, e, f)
  {
    CrossingEnds(b, t, c, r, cat, now, e, f, pre);
    CrossingPackages(b, t, c, r, cat, now, e, f, pre);
    var okf, oke := Whole(b, cat, f, now).ok, Whole(b, cat, e, now).ok;
    PaidIs(b, cat, now, f, okf);
    PaidIs(t, cat, now, f, okf);
    PaidIs(c, cat, now, e, oke);
    PaidIs(r, cat, now, e, oke);
    PaidPart(b, t, cat, now, e, pre);
    LedgersMeetIff(b.ledger, ChargeIn(pre), Paid(b, cat, f, okf), Paid(t, cat, f, okf),
                   Paid(c, cat, e, oke), Paid(r, cat, e, oke));
    PaidTranslates(b, t, c, cat, now, e, f, ChargeIn(pre));
  }

  lemma PaidTranslates(b: Books, t: Books, c: Books, cat: Catalog, now: int, e: Event, f: Event, pp: Option<Payment>)
    requires RowsLike(b, t, f) && RowsLike(b, c, e) && RowOf(b.db, e) == RowOf(b.db, f)
    requires pp.None? || pp == Paid(b, cat, e, Whole(b, cat, e, now).ok)
    requires t.ledger == LedgerAfter(b.ledger, pp)
    requires var q := RowOf(b.db, e).value;
             && (t.db.subs[q].pkg == b.db.subs[q].pkg || e.kind.SubUpdated?)
             && (c.db.subs[q].pkg == b.db.subs[q].pkg || f.kind.SubUpdated?)
    ensures var okf, oke := Whole(b, cat, f, now).ok, Whole(b, cat, e, now).ok;
            var pf, pf2, pe := Paid(b, cat, f, okf), Paid(t, cat, f, okf), Paid(c, cat, e, oke);
            ChargedApart(b, t, c, cat, now, e, f)
            <==> !ChargesAgree(b.ledger, pp, pf, pf2, pe)
  {}

  // ---------------------------------------------------------------- the three deliveries

  /**
   Exactly when an event f on the same row, between a failed attempt at e and its retry, makes the server end
   differently from the completed deliveries alone: when a payment ends up with another charge.
   */
  lemma SameRowConvergesIff(s: Server, cat: Catalog, now: int, e: Event, f: Event, cut: nat)
    requires UniqueGateways(s.books.db) && RowOf(s.books.db, e).Some? && RowOf(s.books.db, f) == RowOf(s.books.db, e)
    requires e.key != f.key && e.key !in s.seen && f.key !in s.seen
    ensures Deliver(s, cat, now, Between(e, cut, f)) == Deliver(s, cat, now, [Delivery(f, None), Delivery(e, None)])
            <==> !ChargedApart(s.books, Partial(s.books, cat, e, now, cut), Whole(s.books, cat, f, now).books,
                               cat, now, e, f)
  {
    var b, t := s.books, Partial(s.books, cat, e, now, cut);
    var c, r := Whole(b, cat, f, now).books, Whole(t, cat, f, now).books;
    var pre := CutMade(b, cat, now, e, cut);
    CrossingAlike(b, t, c, r, cat, now, e, f, pre);
    CrossingRow(b, t, c, r, cat, now, e, f, pre);
    CrossingLimits(b, t, c, r, cat, now, e, f, pre);
    CrossingLedgerIff(b, t, c, r, cat, now, e, f, pre);
    DeliverThree(s, cat, now, Between(e, cut, f));
    DeliverTwo(s, cat, now, [Delivery(f, None), Delivery(e, None)]);
  }

  const PLANS := Catalog(map[0 := Package(100, Limits(1, 1), None, 18.0),
                             1 := Package(200, Limits(2, 2), Some("plan"), 18.0)], None)
  const ONE_ROW := Books(Db(map[1 := Row("sub_1", Active)], map[]), map[])
  const UPDATED := Event("u", SubUpdated, "sub_1", Some("plan"), None, None, None, None, 0)
  const CHARGED := Event("p", SubCharged, "sub_1", None, None, None, None, Some("pay"), 118)

  /**
   An update of the package dies after its first write, a payment arrives, and the update is retried: the payment is
   booked on the new package, while the completed deliveries alone, in the same order, book it on the old one.
   */
  lemma PackageChargeDiverges(now: int)
    ensures var s := Server(ONE_ROW, {});
            Deliver(s, PLANS, now, Between(UPDATED, 1, CHARGED))
            != Deliver(s, PLANS, now, [Delivery(CHARGED, None), Delivery(UPDATED, None)])
  {
    OneRowFound();
    assert UPDATED.key != CHARGED.key by {
      assert "u"[0] != "p"[0];
    }
    PackageMoved(now);
    SameRowConvergesIff(Server(ONE_ROW, {}), PLANS, now, UPDATED, CHARGED, 1);
  }

  lemma OneRowFound()
    ensures UniqueGateways(ONE_ROW.db) && RowOf(ONE_ROW.db, UPDATED) == Some(1) == RowOf(ONE_ROW.db, CHARGED)
  {
    assert ONE_ROW.db.subs[1].gateway == Some("sub_1");
  }

  lemma PackageMoved(now: int)
    ensures ChargedApart(ONE_ROW, Partial(ONE_ROW, PLANS, UPDATED, now, 1), Whole(ONE_ROW, PLANS, CHARGED, now).books,
                         PLANS, now, UPDATED, CHARGED)
  {
    OneRowFound();
    UpdateCut(now);
    AnswerIs(ONE_ROW, PLANS, CHARGED, now);
    DoneMade(ONE_ROW, PLANS, now, CHARGED);
  }

  lemma UpdateCut(now: int)
    requires RowOf(ONE_ROW.db, UPDATED) == Some(1)
    ensures var t := Partial(ONE_ROW, PLANS, UPDATED, now, 1); 1 in t.db.subs && t.db.subs[1].pkg == 1
  {
    assert HasPlan(PLANS, 1, "plan");
    assert PlanPackage(PLANS, Some("plan")) == Some(1);
    var ws := Writes(ONE_ROW, PLANS, UPDATED, now);
    var w := Write(1, 5, OpPackage(1));
    assert ws[0] == w && Upto(ws, 1) == [w];
    assert [w][1..] == [] && Perform(Exec(ONE_ROW, w), []) == Outcome(Exec(ONE_ROW, w), true);
  }
}
