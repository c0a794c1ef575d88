/** One event between a failed attempt and its retry: exactly when the deliveries end as the two completed ones. */
module WebhookMeetings {
  import opened Options
  import opened Billing
  import opened Webhooks
  import opened WebhookRuns
  import opened WebhookAttempts
  import opened WebhookConvergence

  // ---------------------------------------------------------------- events that cannot disturb each other

  /** The event makes the row live, or no longer live. */
  predicate TurnsRow(row: Sub, e: Event) {
    !e.kind.Unhandled? && IsLive(StatusOf(e)) != IsLive(row.status)
  }

  predicate SamePayment(e: Event, f: Event) {
    e.kind.SubCharged? && f.kind.SubCharged? && e.payment.Some? && e.payment == f.payment
  }

  /** The two events charge one payment, or are of one user, and f goes live while e turns its row. */
  ghost predicate Meets(db: Db, e: Event, f: Event) {
    var r, q := RowOf(db, e), RowOf(db, f);
    r.Some? && q.Some?
    && (SamePayment(e, f)
        || (db.subs[r.value].user == db.subs[q.value].user && GoesLive(f) && TurnsRow(db.subs[r.value], e)))
  }

  lemma PartStatus(c: Books, cat: Catalog, now: int, e: Event, n: nat)
    requires RowOf(c.db, e).Some?
    ensures var row := c.db.subs[RowOf(c.db, e).value];
            var after := Fold(row, Part(c, cat, now, e, n)).status;
            after == row.status || (!e.kind.Unhandled? && after == StatusOf(e))
  {
    var row, part := c.db.subs[RowOf(c.db, e).value], Part(c, cat, now, e, n);
    WritesAre(c, cat, e, now);
    UptoOneEach(c, cat, e, now, n);
    assert forall k :: 0 <= k < |part| ==> part[k] == Writes(c, cat, e, now)[k];
    if k :| 0 <= k < |part| && part[k].op.OpStatus? {
      FoldStatus(row, part, k);
    } else {
      FoldKeepsStatus(row, part);
    }
  }

  /** Unfinished events that do not meet f leave the user's other rows as live as they were. */
  lemma LiveAlike(c: Books, t: Books, cat: Catalog, now: int, done: map<Event, nat>, f: Event, o: Id)
    requires Pending(c, t, cat, now, done) && RowOf(c.db, f).Some? && o != RowOf(c.db, f).value && GoesLive(f)
    requires forall e | e in done && e != f :: !Meets(c.db, e, f)
    ensures var user := c.db.subs[RowOf(c.db, f).value].user; LiveFor(t.db, o, user) <==> LiveFor(c.db, o, user)
  {
    if o in c.db.subs && OnOpenRow(c.db, done.Keys, o) {
      var e :| e in done && RowOf(c.db, e) == Some(o);
      PartStatus(c, cat, now, e, done[e]);
      assert !Meets(c.db, e, f);
    }
  }

  /** An event that meets nothing unfinished is not disturbed. */
  lemma UnmetUndisturbed(c: Books, t: Books, cat: Catalog, now: int, done: map<Event, nat>, f: Event)
    requires Pending(c, t, cat, now, done) && InLine(c.db, done.Keys, f)
    requires forall e | e in done && e != f :: !Meets(c.db, e, f)
    ensures !Disturbed(c, t, f)
  {
    if RowOf(c.db, f).Some? {
      var q := RowOf(c.db, f).value;
      if GoesLive(f) {
        forall o: Id | o != q ensures LiveFor(t.db, o, c.db.subs[q].user) <==> LiveFor(c.db, o, c.db.subs[q].user) {
          LiveAlike(c, t, cat, now, done, f, o);
        }
      }
      UnmetPayment(c, t, cat, now, done, f);
    }
  }

  lemma UnmetCharge(c: Books, cat: Catalog, now: int, e: Event, n: nat, f: Event, p: string, charge: Charge)
    requires Charges(c, cat, now, e, n, p, charge) && f.kind.SubCharged? && f.payment == Some(p) && RowOf(c.db, f).Some?
    requires e == f || !Meets(c.db, e, f)
    ensures charge.sub == RowOf(c.db, f).value
  {
    ChargeOwner(c, cat, now, e, n, p, charge);
  }

  lemma UnmetPayment(c: Books, t: Books, cat: Catalog, now: int, done: map<Event, nat>, f: Event)
    requires Pending(c, t, cat, now, done) && InLine(c.db, done.Keys, f)
    requires forall e | e in done && e != f :: !Meets(c.db, e, f)
    ensures !PaidElsewhere(c, t, f)
  {
    if f.kind.SubCharged? && f.payment.Some? && RowOf(c.db, f).Some? && f.payment.value in t.ledger {
      var p := f.payment.value;
      if p !in c.ledger {
        var e :| e in done && Charges(c, cat, now, e, done[e], p, t.ledger[p]);
        UnmetCharge(c, cat, now, e, done[e], f, p, t.ledger[p]);
      }
    }
  }

  /** A charge among an event's writes is of its payment and its row. */
  lemma ChargeOwner(c: Books, cat: Catalog, now: int, e: Event, n: nat, p: string, charge: Charge)
    requires Charges(c, cat, now, e, n, p, charge)
    ensures e.kind.SubCharged? && e.payment == Some(p) && RowOf(c.db, e) == Some(charge.sub)
  {
    var part := Part(c, cat, now, e, n);
    var k := ChargeIs(part);
    WritesAre(c, cat, e, now);
    assert part[k] == Writes(c, cat, e, now)[k];
  }

  /** Along the completed deliveries alone: none of them meets an event then unfinished. */
  ghost predicate Unmet(s: Server, cat: Catalog, now: int, open: set<Event>, ds: seq<Delivery>)
    decreases |ds|
  {
    if ds == [] then true
    else if ds[0].event.key in s.seen then Unmet(s, cat, now, open, ds[1..])
    else if ds[0].cut.Some? then Unmet(s, cat, now, open + {ds[0].event}, ds[1..])
    else
      && (forall e | e in open && e != ds[0].event :: !Meets(s.books.db, e, ds[0].event))
      && Unmet(Handle(s, cat, now, ds[0]), cat, now, open - {ds[0].event}, ds[1..])
  }

  lemma {:induction false} UnmetRun(s: Server, t: Server, cat: Catalog, now: int, done: map<Event, nat>,
                                    ds: seq<Delivery>)
    requires Behind(s, t, cat, now, done) && Orderly(s, cat, now, done.Keys, ds) && Unmet(s, cat, now, done.Keys, ds)
    ensures Undisturbed(s, t, cat, now, ds)
    decreases |ds|
  {
    if ds != [] {
      var d := ds[0];
      if d.event.key in s.seen {
        UnmetRun(s, t, cat, now, done, ds[1..]);
      } else {
        if d.cut.None? {
          UnmetUndisturbed(s.books, t.books, cat, now, done, d.event);
        }
        var next := HandleBehind(s, t, cat, now, done, d);
        UnmetRun(Clean(s, cat, now, d), Handle(t, cat, now, d), cat, now, next, ds[1..]);
      }
    }
  }

  /** Deliveries whose completed events meet no unfinished one converge, whatever limits they grant. */
  lemma UnmetDeliveriesConverge(s: Server, cat: Catalog, now: int, ds: seq<Delivery>)
    requires UniqueGateways(s.books.db) && OneLive(s.books.db)
    requires Orderly(s, cat, now, {}, ds) && Unmet(s, cat, now, {}, ds)
    ensures Deliver(s, cat, now, ds) == Deliver(s, cat, now, Finished(ds))
  {
    var none: map<Event, nat> := map[];
    NothingPending(s.books, cat, now);
    assert none.Keys == {};
    UnmetRun(s, s, cat, now, none, ds);
    DeliveriesConverge(s, cat, now, ds);
  }

  // ---------------------------------------------------------------- one event between an attempt and its retry

  /** The unfinished attempt of e has made its row live, or no longer live. */
  ghost predicate Turned(b: Books, cat: Catalog, now: int, e: Event, cut: nat)
    requires RowOf(b.db, e).Some?
  {
    var id, next := RowOf(b.db, e).value, Partial(b, cat, e, now, cut);
    id in next.db.subs && IsLive(next.db.subs[id].status) != IsLive(b.db.subs[id].status)
  }

  /** An attempt changes whether the user has a live row other than q exactly when it turned its own row. */
  lemma OthersLive(b: Books, cat: Catalog, now: int, e: Event, cut: nat, q: Id)
    requires OneLive(b.db) && RowOf(b.db, e).Some? && RowOf(b.db, e).value != q
    ensures var user := b.db.subs[RowOf(b.db, e).value].user;
            OtherLive(Partial(b, cat, e, now, cut).db, q, user) != OtherLive(b.db, q, user)
            <==> Turned(b, cat, now, e, cut)
  {
    var r, next := RowOf(b.db, e).value, Partial(b, cat, e, now, cut);
    var user := b.db.subs[r].user;
    AttemptRows(b, cat, now, e, cut);
    forall o: Id | o != r ensures LiveFor(next.db, o, user) <==> LiveFor(b.db, o, user) {}
    if Turned(b, cat, now, e, cut) {
      assert LiveFor(b.db, r, user) || LiveFor(next.db, r, user);
    } else {
      assert LiveFor(b.db, r, user) <==> LiveFor(next.db, r, user);
    }
  }

  /** Rows of f and of the same user, in the books before and after an attempt at e. */
  lemma OtherFound(b: Books, cat: Catalog, now: int, e: Event, f: Event, cut: nat)
    requires UniqueGateways(b.db) && OneLive(b.db) && Unrelated(b.db, e, f) && RowOf(b.db, e).Some?
    ensures var next := Partial(b, cat, e, now, cut);
            RowOf(next.db, f) == RowOf(b.db, f) && Writes(next, cat, f, now) == Writes(b, cat, f, now)
  {
    AttemptRows(b, cat, now, e, cut);
    OthersKept(b, Partial(b, cat, e, now, cut), cat, now, f, RowOf(b.db, e).value);
  }

  /** The two events are on different rows of one user. */
  ghost predicate OneUser(db: Db, e: Event, f: Event) {
    && RowOf(db, e).Some? && RowOf(db, f).Some?
    && db.subs[RowOf(db, e).value].user == db.subs[RowOf(db, f).value].user
  }

  lemma CrossedIff(b: Books, cat: Catalog, now: int, e: Event, f: Event, cut: nat)
    requires OneLive(b.db) && Unrelated(b.db, e, f) && OneUser(b.db, e, f)
    ensures Crossed(b, Partial(b, cat, e, now, cut), f) <==> GoesLive(f) && Turned(b, cat, now, e, cut)
  {
    OthersLive(b, cat, now, e, cut, RowOf(b.db, f).value);
  }

  /**
   Exactly when an unfinished event e changes the answer to an event f on another row of its user: when the attempt has
   turned its row and f goes live. Then f is accepted where it would be refused, or refused where it would be accepted.
   */
  lemma AnswerMovesIff(b: Books, cat: Catalog, now: int, e: Event, f: Event, cut: nat)
    requires UniqueGateways(b.db) && OneLive(b.db) && Unrelated(b.db, e, f) && OneUser(b.db, e, f)
    ensures Whole(Partial(b, cat, e, now, cut), cat, f, now).ok != Whole(b, cat, f, now).ok
            <==> GoesLive(f) && Turned(b, cat, now, e, cut)
  {
    CrossedIff(b, cat, now, e, f, cut);
    OtherFound(b, cat, now, e, f, cut);
    AttemptRows(b, cat, now, e, cut);
    AnswerIs(b, cat, f, now);
    AnswerIs(Partial(b, cat, e, now, cut), cat, f, now);
  }

  function Between(e: Event, cut: nat, f: Event): seq<Delivery> {
    [Delivery(e, Some(cut)), Delivery(f, None), Delivery(e, None)]
  }

  lemma BetweenFinished(e: Event, cut: nat, f: Event)
    ensures Finished(Between(e, cut, f)) == [Delivery(f, None), Delivery(e, None)]
  {
    var ds := Between(e, cut, f);
    assert ds[1..] == [ds[1], ds[2]] && ds[1..][1..] == [ds[2]] && [ds[2]][1..] == [];
    assert Finished([ds[2]]) == [ds[2]] && Finished([ds[1], ds[2]]) == [ds[1]] + [ds[2]];
  }

  lemma BetweenOrderly(s: Server, cat: Catalog, now: int, e: Event, f: Event, cut: nat)
    requires Unrelated(s.books.db, e, f) && e.key !in s.seen && f.key !in s.seen
    ensures Orderly(s, cat, now, {}, Between(e, cut, f)) && NoRepeats(Between(e, cut, f))
  {
    var ds := Between(e, cut, f);
    var next := Handle(s, cat, now, ds[1]);
    assert ds[1..] == [ds[1], ds[2]] && ds[1..][1..] == [ds[2]] && [ds[2]][1..] == [];
    assert {e} - {e} == {} && {e} - {f} == {e} && {} + {e} == {e};
    assert Orderly(next, cat, now, {e}, [ds[2]]);
    assert Orderly(s, cat, now, {e}, ds[1..]);
  }

  /** The retry of the only unfinished event is not disturbed. */
  lemma LoneRetry(c: Books, t: Books, cat: Catalog, now: int, done: map<Event, nat>, e: Event)
    requires Pending(c, t, cat, now, done) && done.Keys == {e}
    ensures !Disturbed(c, t, e)
  {
    assert forall x | x in done :: x == e;
    UnmetUndisturbed(c, t, cat, now, done, e);
  }

  lemma BetweenUndisturbedIff(s: Server, cat: Catalog, now: int, e: Event, f: Event, cut: nat)
    requires UniqueGateways(s.books.db) && OneLive(s.books.db) && Unrelated(s.books.db, e, f)
    requires e.key !in s.seen && f.key !in s.seen
    ensures Undisturbed(s, s, cat, now, Between(e, cut, f))
            <==> !Disturbed(s.books, Partial(s.books, cat, e, now, cut), f)
  {
    var ds := Between(e, cut, f);
    assert ds[1..] == [ds[1], ds[2]] && ds[1..][1..] == [ds[2]] && [ds[2]][1..] == [];
    var t1 := Handle(s, cat, now, ds[0]);
    var s2, t2 := Handle(s, cat, now, ds[1]), Handle(t1, cat, now, ds[1]);
    if !Disturbed(s.books, t1.books, f) {
      RetryUndisturbed(s, cat, now, e, f, cut);
      assert Undisturbed(s2, t2, cat, now, [ds[2]]);
      assert Undisturbed(s, t1, cat, now, ds[1..]);
    } else {
      assert !Undisturbed(s, t1, cat, now, ds[1..]);
    }
  }

  lemma RetryUndisturbed(s: Server, cat: Catalog, now: int, e: Event, f: Event, cut: nat)
    requires UniqueGateways(s.books.db) && OneLive(s.books.db) && Unrelated(s.books.db, e, f)
    requires e.key !in s.seen && f.key !in s.seen
    requires !Disturbed(s.books, Partial(s.books, cat, e, now, cut), f)
    ensures var t1 := Handle(s, cat, now, Delivery(e, Some(cut)));
            var s2, t2 := Handle(s, cat, now, Delivery(f, None)), Handle(t1, cat, now, Delivery(f, None));
            !Disturbed(s2.books, t2.books, e)
  {
    var t1 := Handle(s, cat, now, Delivery(e, Some(cut)));
    var one := FirstAttempt(s, cat, now, e, cut);
    var two := HandleBehind(s, t1, cat, now, one, Delivery(f, None));
    assert {e} - {f} == {e};
    var s2, t2 := Handle(s, cat, now, Delivery(f, None)), Handle(t1, cat, now, Delivery(f, None));
    LoneRetry(s2.books, t2.books, cat, now, two, e);
  }

  lemma FirstAttempt(s: Server, cat: Catalog, now: int, e: Event, cut: nat) returns (one: map<Event, nat>)
    requires UniqueGateways(s.books.db) && OneLive(s.books.db) && e.key !in s.seen
    ensures Behind(s, Handle(s, cat, now, Delivery(e, Some(cut))), cat, now, one) && one.Keys == {e}
  {
    var none: map<Event, nat> := map[];
    assert none.Keys == {};
    NothingPending(s.books, cat, now);
    one := HandleBehind(s, s, cat, now, none, Delivery(e, Some(cut)));
  }

  /** An attempt, an event elsewhere and the retry end as the two completed deliveries unless the event is disturbed. */
  lemma BetweenConvergesIff(s: Server, cat: Catalog, now: int, e: Event, f: Event, cut: nat)
    requires UniqueGateways(s.books.db) && OneLive(s.books.db) && Unrelated(s.books.db, e, f)
    requires e.key !in s.seen && f.key !in s.seen
    ensures Deliver(s, cat, now, Between(e, cut, f)) == Deliver(s, cat, now, [Delivery(f, None), Delivery(e, None)])
            <==> !Disturbed(s.books, Partial(s.books, cat, e, now, cut), f)
  {
    BetweenOrderly(s, cat, now, e, f, cut);
    BetweenFinished(e, cut, f);
    DeliveriesConvergeIff(s, cat, now, Between(e, cut, f));
    BetweenUndisturbedIff(s, cat, now, e, f, cut);
  }

  /** An attempt that has charged its payment has made its row live. */
  lemma ChargedTurnsLive(b: Books, cat: Catalog, now: int, e: Event, cut: nat, p: string)
    requires OneLive(b.db) && RowOf(b.db, e).Some?
    requires p in Partial(b, cat, e, now, cut).ledger && p !in b.ledger
    ensures e.kind.SubCharged? && e.payment == Some(p)
    ensures var r := RowOf(b.db, e).value; LiveFor(Partial(b, cat, e, now, cut).db, r, b.db.subs[r].user)
  {
    var q, all := RowOf(b.db, e).value, Upto(Writes(b, cat, e, now), cut);
    WritesAre(b, cat, e, now);
    UptoOneEach(b, cat, e, now, cut);
    AttemptIs(b, all, q, b.db.subs[q].user);
    var part := all[..Through(b, all)];
    assert part == Part(b, cat, now, e, |part|);
    ChargeOwner(b, cat, now, e, |part|, p, Partial(b, cat, e, now, cut).ledger[p]);
    ChargedStatus(b, cat, now, e, |part|);
    FoldKeepsOwner(b.db.subs[q], part);
  }

  lemma ChargedStatus(b: Books, cat: Catalog, now: int, e: Event, n: nat)
    requires RowOf(b.db, e).Some? && e.kind.SubCharged? && n > 0
    ensures Fold(b.db.subs[RowOf(b.db, e).value], Part(b, cat, now, e, n)).status == Active
  {
    var q, part := RowOf(b.db, e).value, Part(b, cat, now, e, n);
    WritesAre(b, cat, e, now);
    UptoOneEach(b, cat, e, now, n);
    assert Writes(b, cat, e, now)[0].op.OpStatus? && part[0] == Writes(b, cat, e, now)[0];
    FoldStatus(b.db.subs[q], part, 0);
  }

  /** For events of one user the payment makes no difference: the index lets only one of them charge it. */
  lemma OneUserPaysOnce(b: Books, cat: Catalog, now: int, e: Event, f: Event, cut: nat)
    requires OneLive(b.db) && Unrelated(b.db, e, f) && OneUser(b.db, e, f)
    ensures !PaidElsewhere(b, Partial(b, cat, e, now, cut), f)
  {
    if PaidElsewhere(b, Partial(b, cat, e, now, cut), f) {
      ChargedTurnsLive(b, cat, now, e, cut, f.payment.value);
      assert OtherLive(Partial(b, cat, e, now, cut).db, RowOf(b.db, f).value, b.db.subs[RowOf(b.db, f).value].user);
    }
  }

  /**
   Exactly when an event f on another row of the user, between a failed attempt at e and its retry, makes the server end
   differently from the completed deliveries alone: when f goes live and the attempt has turned the row of e.
   */
  lemma OneUserConvergesIff(s: Server, cat: Catalog, now: int, e: Event, f: Event, cut: nat)
    requires UniqueGateways(s.books.db) && OneLive(s.books.db) && Unrelated(s.books.db, e, f)
    requires e.key !in s.seen && f.key !in s.seen && OneUser(s.books.db, e, f)
    ensures Deliver(s, cat, now, Between(e, cut, f)) == Deliver(s, cat, now, [Delivery(f, None), Delivery(e, None)])
            <==> !(GoesLive(f) && Turned(s.books, cat, now, e, cut))
  {
    BetweenConvergesIff(s, cat, now, e, f, cut);
    CrossedIff(s.books, cat, now, e, f, cut);
    OneUserPaysOnce(s.books, cat, now, e, f, cut);
  }

  lemma TwoUsersUncrossed(b: Books, cat: Catalog, now: int, e: Event, f: Event, cut: nat)
    requires OneLive(b.db) && RowOf(b.db, e).Some? && RowOf(b.db, f).Some? && !OneUser(b.db, e, f)
    ensures var t, q := Partial(b, cat, e, now, cut), RowOf(b.db, f).value;
            OtherLive(t.db, q, b.db.subs[q].user) <==> OtherLive(b.db, q, b.db.subs[q].user)
  {
    var t, user := Partial(b, cat, e, now, cut), b.db.subs[RowOf(b.db, f).value].user;
    AttemptRows(b, cat, now, e, cut);
    forall o: Id ensures LiveFor(t.db, o, user) <==> LiveFor(b.db, o, user) {}
  }

  lemma TwoUsersPaidIff(b: Books, cat: Catalog, now: int, e: Event, f: Event, cut: nat)
    requires OneLive(b.db) && Unrelated(b.db, e, f) && RowOf(b.db, e).Some? && RowOf(b.db, f).Some?
    requires !OneUser(b.db, e, f)
    ensures var t := Partial(b, cat, e, now, cut);
            PaidElsewhere(b, t, f)
            <==> && SamePayment(e, f) && Whole(b, cat, f, now).ok
                 && e.payment.value !in b.ledger && e.payment.value in t.ledger
  {
    TwoUsersUncrossed(b, cat, now, e, f, cut);
    AnswerIs(b, cat, f, now);
    if f.payment.Some? && f.payment.value in Partial(b, cat, e, now, cut).ledger && f.payment.value !in b.ledger {
      ChargedTurnsLive(b, cat, now, e, cut, f.payment.value);
      AttemptCharge(b, cat, now, e, cut, f.payment.value);
    }
  }

  /** Events of different users meet in the ledger only: when f is accepted and both charge the same payment. */
  lemma TwoUsersConvergeIff(s: Server, cat: Catalog, now: int, e: Event, f: Event, cut: nat)
    requires UniqueGateways(s.books.db) && OneLive(s.books.db) && Unrelated(s.books.db, e, f)
    requires e.key !in s.seen && f.key !in s.seen && RowOf(s.books.db, e).Some? && RowOf(s.books.db, f).Some?
    requires !OneUser(s.books.db, e, f)
    ensures Deliver(s, cat, now, Between(e, cut, f)) == Deliver(s, cat, now, [Delivery(f, None), Delivery(e, None)])
            <==> !(SamePayment(e, f) && Whole(s.books, cat, f, now).ok && e.payment.value !in s.books.ledger
                   && e.payment.value in Partial(s.books, cat, e, now, cut).ledger)
  {
    BetweenConvergesIff(s, cat, now, e, f, cut);
    TwoUsersUncrossed(s.books, cat, now, e, f, cut);
    TwoUsersPaidIff(s.books, cat, now, e, f, cut);
  }

  lemma AttemptCharge(b: Books, cat: Catalog, now: int, e: Event, cut: nat, p: string)
    requires RowOf(b.db, e).Some? && p in Partial(b, cat, e, now, cut).ledger && p !in b.ledger
    ensures Partial(b, cat, e, now, cut).ledger[p].sub == RowOf(b.db, e).value
  {
    var q, all := RowOf(b.db, e).value, Upto(Writes(b, cat, e, now), cut);
    WritesAre(b, cat, e, now);
    UptoOneEach(b, cat, e, now, cut);
    AttemptIs(b, all, q, b.db.subs[q].user);
    var part := all[..Through(b, all)];
    assert part == Part(b, cat, now, e, |part|);
    ChargeOwner(b, cat, now, e, |part|, p, Partial(b, cat, e, now, cut).ledger[p]);
  }

  // ---------------------------------------------------------------- deliveries that do not converge

  function Row(gateway: string, status: Status): Sub {
    Sub(5, 0, Some(gateway), status, None, None, None, false, None, None, None, {})
  }

  const TWO_ROWS := Books(Db(map[1 := Row("sub_1", Active), 2 := Row("sub_2", Halted)], map[]), map[])
  const CANCELLED := Event("c", SubCancelled, "sub_1", None, None, None, None, None, 0)
  const RESUMED := Event("r", SubResumed, "sub_2", None, None, None, None, None, 0)
  const CROSSED := [Delivery(CANCELLED, Some(1)), Delivery(RESUMED, None), Delivery(CANCELLED, None)]

  lemma TwoRowsFound()
    ensures UniqueGateways(TWO_ROWS.db) && OneLive(TWO_ROWS.db)
    ensures GatewayRow(TWO_ROWS.db, "sub_1") == Some(1) && GatewayRow(TWO_ROWS.db, "sub_2") == Some(2)
  {
    assert TWO_ROWS.db.subs[1].gateway == Some("sub_1") && TWO_ROWS.db.subs[2].gateway == Some("sub_2");
    assert "sub_1"[4] != "sub_2"[4];
  }

  lemma RowsStayFound(next: Books)
    requires SameOwners(TWO_ROWS.db, next.db)
    ensures RowOf(next.db, CANCELLED) == Some(1) && RowOf(next.db, RESUMED) == Some(2)
  {
    TwoRowsFound();
    SameRowFound(TWO_ROWS.db, next.db, "sub_1");
    SameRowFound(TWO_ROWS.db, next.db, "sub_2");
  }

  /** Row 2 is resumed unless row 1 is live. */
  lemma ResumedIs(b: Books, cat: Catalog, now: int)
    requires SameOwners(TWO_ROWS.db, b.db) && b.db.subs[2] == Row("sub_2", Halted)
    ensures var done := Whole(b, cat, RESUMED, now);
            && (done.ok <==> !LiveFor(b.db, 1, 5))
            && done.books == if done.ok then b.(db := Put(b.db, 2, Row("sub_2", Active))) else b
  {
    RowsStayFound(b);
    var w := Write(2, 5, OpStatus(Active, None, None, None));
    assert Writes(b, cat, RESUMED, now) == [w];
    assert [w][1..] == [] && Perform(Exec(b, w), []) == Outcome(Exec(b, w), true);
    assert forall o :: o != 2 && LiveFor(b.db, o, 5) ==> o == 1;
  }

  function CancelledAt(now: int): Sub {
    Row("sub_1", Cancelled).(cancelledAt := Some(now))
  }

  lemma CancelWrites(b: Books, cat: Catalog, now: int)
    requires SameOwners(TWO_ROWS.db, b.db)
    ensures Writes(b, cat, CANCELLED, now) == [Write(1, 5, OpStatus(Cancelled, None, None, None)),
                                               Write(1, 5, OpCancelledAt(now)), Write(1, 5, OpLimits(FreeLimits(cat)))]
  {
    RowsStayFound(b);
  }

  lemma FoldThree(row: Sub, ws: seq<Write>)
    requires |ws| == 3
    ensures Fold(row, ws) == Changed(Changed(Changed(row, ws[0].op), ws[1].op), ws[2].op)
  {
    assert ws[1..][1..] == [ws[2]] && [ws[2]][1..] == [];
    var last := Changed(Changed(row, ws[0].op), ws[1].op);
    assert Fold(last, [ws[2]]) == Fold(Changed(last, ws[2].op), []);
  }

  lemma CancelledIs(b: Books, cat: Catalog, now: int)
    requires SameOwners(TWO_ROWS.db, b.db) && b.db.subs[1].(status := Active) == Row("sub_1", Active)
    ensures Whole(b, cat, CANCELLED, now)
         == Outcome(Books(Db(b.db.subs[1 := CancelledAt(now)], b.db.limits[5 := FreeLimits(cat)]), b.ledger), true)
  {
    RowsStayFound(b);
    CancelWrites(b, cat, now);
    var ws := Writes(b, cat, CANCELLED, now);
    WritesAre(b, cat, CANCELLED, now);
    AnswerIs(b, cat, CANCELLED, now);
    AttemptIs(b, ws, 1, 5);
    assert ws[..|ws|] == ws;
    LimitsFound(ws, 2);
    var k := LimitsAre(ws);
    NoCharge(ws);
    FoldThree(b.db.subs[1], ws);
  }

  /** The first attempt writes the status only. */
  lemma CutCancelled(cat: Catalog, now: int)
    ensures Partial(TWO_ROWS, cat, CANCELLED, now, 1) == TWO_ROWS.(db := Put(TWO_ROWS.db, 1, Row("sub_1", Cancelled)))
  {
    CancelWrites(TWO_ROWS, cat, now);
    var ws := Writes(TWO_ROWS, cat, CANCELLED, now);
    assert Upto(ws, 1) == [ws[0]];
    assert [ws[0]][1..] == [] && Perform(Exec(TWO_ROWS, ws[0]), []) == Outcome(Exec(TWO_ROWS, ws[0]), true);
  }

  /** Row 1 cancelled with its limits gone, row 2 with the given status. */
  ghost function Ending(cat: Catalog, now: int, second: Status, seen: set<string>): Server {
    Server(Books(Db(map[1 := CancelledAt(now), 2 := Row("sub_2", second)], map[5 := FreeLimits(cat)]), map[]), seen)
  }

  lemma KeysDiffer()
    ensures CANCELLED.key != RESUMED.key
  {
    assert "c"[0] != "r"[0];
  }

  /** The cancellation has written its status only, and row 2 is resumed. */
  ghost function Halfway(): Server {
    Server(Books(Db(map[1 := Row("sub_1", Cancelled), 2 := Row("sub_2", Active)], map[]), map[]), {"r"})
  }

  lemma CrossedHalfway(cat: Catalog, now: int)
    ensures Handle(Handle(Server(TWO_ROWS, {}), cat, now, CROSSED[0]), cat, now, CROSSED[1]) == Halfway()
  {
    CutCancelled(cat, now);
    var t := Handle(Server(TWO_ROWS, {}), cat, now, CROSSED[0]);
    ResumedIs(t.books, cat, now);
    assert Handle(t, cat, now, CROSSED[1]).books.db.subs == Halfway().books.db.subs;
  }

  lemma HalfwayCancelled(cat: Catalog, now: int)
    ensures Handle(Halfway(), cat, now, Delivery(CANCELLED, None)) == Ending(cat, now, Active, {"r", "c"})
  {
    KeysDiffer();
    CancelledIs(Halfway().books, cat, now);
    assert Halfway().books.db.subs[1 := CancelledAt(now)] == Ending(cat, now, Active, {}).books.db.subs;
  }

  lemma CrossedEnds(cat: Catalog, now: int)
    ensures Deliver(Server(TWO_ROWS, {}), cat, now, CROSSED) == Ending(cat, now, Active, {"r", "c"})
  {
    DeliverThree(Server(TWO_ROWS, {}), cat, now, CROSSED);
    CrossedHalfway(cat, now);
    HalfwayCancelled(cat, now);
  }

  lemma CleanEnds(cat: Catalog, now: int)
    ensures Deliver(Server(TWO_ROWS, {}), cat, now, [Delivery(RESUMED, None), Delivery(CANCELLED, None)])
         == Ending(cat, now, Halted, {"c"})
  {
    var s := Server(TWO_ROWS, {});
    KeysDiffer();
    assert LiveFor(TWO_ROWS.db, 1, 5);
    ResumedIs(TWO_ROWS, cat, now);
    CancelledIs(TWO_ROWS, cat, now);
    DeliverTwo(s, cat, now, [Delivery(RESUMED, None), Delivery(CANCELLED, None)]);
    assert TWO_ROWS.db.subs[1 := CancelledAt(now)] == Ending(cat, now, Halted, {}).books.db.subs;
  }

  /**
   The cancellation of row 1 dies after its first write, row 2 of the same user is resumed, and the cancellation is
   retried. Row 2 ends active, while the completed deliveries alone, in the same order, leave it halted.
   */
  lemma CrossedDeliveriesDiverge(cat: Catalog, now: int)
    ensures var s := Server(TWO_ROWS, {});
            var crossed, clean := Deliver(s, cat, now, CROSSED), Deliver(s, cat, now, Finished(CROSSED));
            && 2 in crossed.books.db.subs && crossed.books.db.subs[2].status == Active
            && 2 in clean.books.db.subs && clean.books.db.subs[2].status == Halted
  {
    CrossedEnds(cat, now);
    BetweenFinished(CANCELLED, 1, RESUMED);
    CleanEnds(cat, now);
  }

  /**
   Why each event may be delivered to its end only once for the disturbance to show: row 2 is resumed again at the end,
   which the real server skips as recorded and the clean one carries out, and the two agree.
   */
  lemma RepeatMends(cat: Catalog, now: int)
    ensures var s, ds := Server(TWO_ROWS, {}), CROSSED + [Delivery(RESUMED, None)];
            Deliver(s, cat, now, ds) == Deliver(s, cat, now, Finished(ds)) && !Undisturbed(s, s, cat, now, ds)
  {
    var s, last := Server(TWO_ROWS, {}), [Delivery(RESUMED, None)];
    CrossedEnds(cat, now);
    CleanEnds(cat, now);
    BetweenFinished(CANCELLED, 1, RESUMED);
    FinishedConcat(CROSSED, last);
    assert Finished(last) == last;
    DeliverConcat(s, cat, now, CROSSED, last);
    DeliverConcat(s, cat, now, Finished(CROSSED), last);
    ResumedAgain(cat, now);
    RepeatDisturbed(s, cat, now, last);
  }

  lemma ResumedAgain(cat: Catalog, now: int)
    ensures Deliver(Ending(cat, now, Halted, {"c"}), cat, now, [Delivery(RESUMED, None)])
         == Deliver(Ending(cat, now, Active, {"r", "c"}), cat, now, [Delivery(RESUMED, None)])
  {
    var s, t := Ending(cat, now, Halted, {"c"}), Ending(cat, now, Active, {"r", "c"});
    var d := Delivery(RESUMED, None);
    KeysDiffer();
    ResumedIs(s.books, cat, now);
    assert [d][1..] == [] && Deliver(Handle(s, cat, now, d), cat, now, []) == Handle(s, cat, now, d);
    assert Deliver(Handle(t, cat, now, d), cat, now, []) == Handle(t, cat, now, d);
    assert Handle(s, cat, now, d).books.db.subs == t.books.db.subs;
  }

  lemma ResumedCrossed(cat: Catalog, now: int)
    ensures Crossed(TWO_ROWS, Partial(TWO_ROWS, cat, CANCELLED, now, 1), RESUMED)
  {
    RowsStayFound(TWO_ROWS);
    KeysDiffer();
    CutCancelled(cat, now);
    CrossedIff(TWO_ROWS, cat, now, CANCELLED, RESUMED, 1);
  }

  lemma RepeatDisturbed(s: Server, cat: Catalog, now: int, last: seq<Delivery>)
    requires s == Server(TWO_ROWS, {})
    ensures !Undisturbed(s, s, cat, now, CROSSED + last)
  {
    var ds := CROSSED + last;
    ResumedCrossed(cat, now);
    assert ds[0] == CROSSED[0] && ds[1..][0] == CROSSED[1];
    assert !Undisturbed(s, Handle(s, cat, now, CROSSED[0]), cat, now, ds[1..]);
  }

  lemma {:induction false} DeliverConcat(s: Server, cat: Catalog, now: int, ds: seq<Delivery>, more: seq<Delivery>)
    ensures Deliver(s, cat, now, ds + more) == Deliver(Deliver(s, cat, now, ds), cat, now, more)
    decreases |ds|
  {
    if ds == [] {
      assert ds + more == more;
    } else {
      assert (ds + more)[1..] == ds[1..] + more;
      DeliverConcat(Handle(s, cat, now, ds[0]), cat, now, ds[1..], more);
    }
  }

  lemma {:induction false} FinishedConcat(ds: seq<Delivery>, more: seq<Delivery>)
    ensures Finished(ds + more) == Finished(ds) + Finished(more)
    decreases |ds|
  {
    if ds == [] {
      assert ds + more == more;
    } else {
      assert (ds + more)[1..] == ds[1..] + more;
      FinishedConcat(ds[1..], more);
    }
  }

  lemma DeliverTwo(s: Server, cat: Catalog, now: int, ds: seq<Delivery>)
    requires |ds| == 2
    ensures Deliver(s, cat, now, ds) == Handle(Handle(s, cat, now, ds[0]), cat, now, ds[1])
  {
    var end := Handle(Handle(s, cat, now, ds[0]), cat, now, ds[1]);
    assert ds[1..] == [ds[1]] && [ds[1]][1..] == [];
    assert Deliver(end, cat, now, []) == end;
  }

  lemma DeliverThree(s: Server, cat: Catalog, now: int, ds: seq<Delivery>)
    requires |ds| == 3
    ensures Deliver(s, cat, now, ds) == Handle(Handle(Handle(s, cat, now, ds[0]), cat, now, ds[1]), cat, now, ds[2])
  {
    DeliverTwo(Handle(s, cat, now, ds[0]), cat, now, ds[1..]);
    assert ds[1..][0] == ds[1] && ds[1..][1] == ds[2];
  }
}
