/**
 Deliveries that fail, are retried and repeated, in any order that keeps each row's events in line: exactly when the
 server ends as if only the completed deliveries had come.
 */
module WebhookConvergence {
  import opened Options
  import opened Billing
  import opened Webhooks
  import opened WebhookRuns
  import opened WebhookAttempts

  // ---------------------------------------------------------------- unfinished events

  /** The first n writes of an event. */
  ghost function Part(b: Books, cat: Catalog, now: int, e: Event, n: nat): seq<Write> {
    Upto(Writes(b, cat, e, now), n)
  }

  function DoneOf(done: map<Event, nat>, e: Event): nat {
    if e in done then done[e] else 0
  }

  /** The two events have different keys and concern different rows. */
  ghost predicate Unrelated(db: Db, e: Event, f: Event) {
    e.key != f.key && (RowOf(db, e).Some? ==> RowOf(db, e) != RowOf(db, f))
  }

  /** The event is unfinished itself, or unrelated to everything unfinished. */
  ghost predicate InLine(db: Db, open: set<Event>, f: Event) {
    forall e | e in open && e != f :: Unrelated(db, e, f)
  }

  ghost predicate AllInLine(db: Db, open: set<Event>) {
    forall f | f in open :: InLine(db, open, f)
  }

  ghost predicate OnOpenRow(db: Db, open: set<Event>, id: Id) {
    exists e :: e in open && RowOf(db, e) == Some(id)
  }

  /** Rows of unfinished events are ahead by the writes done; all others are the same. */
  ghost predicate RowsPending(c: Books, t: Books, cat: Catalog, now: int, done: map<Event, nat>)
    requires SameOwners(c.db, t.db)
  {
    && (forall id | id in c.db.subs && !OnOpenRow(c.db, done.Keys, id) :: t.db.subs[id] == c.db.subs[id])
    && (forall e | e in done && RowOf(c.db, e).Some? ::
          t.db.subs[RowOf(c.db, e).value] == Fold(c.db.subs[RowOf(c.db, e).value], Part(c, cat, now, e, done[e])))
  }

  predicate SameLimits(c: Books, t: Books, user: Id) {
    && (user in c.db.limits <==> user in t.db.limits)
    && (user in c.db.limits ==> c.db.limits[user] == t.db.limits[user])
  }

  /** The first n writes of the event grant limits to the user. */
  ghost predicate Grants(c: Books, cat: Catalog, now: int, e: Event, n: nat, user: Id) {
    var r := RowOf(c.db, e);
    r.Some? && c.db.subs[r.value].user == user && LimitsIn(Part(c, cat, now, e, n)).Some?
  }

  ghost predicate GrantedOpen(c: Books, cat: Catalog, now: int, done: map<Event, nat>, user: Id) {
    exists e :: e in done && Grants(c, cat, now, e, done[e], user)
  }

  /** Limits differ only for users to whom an unfinished event has granted some. */
  ghost predicate LimitsPending(c: Books, t: Books, cat: Catalog, now: int, done: map<Event, nat>) {
    forall user: Id :: SameLimits(c, t, user) || GrantedOpen(c, cat, now, done, user)
  }

  /** The first n writes of the event record the charge. */
  ghost predicate Charges(c: Books, cat: Catalog, now: int, e: Event, n: nat, p: string, charge: Charge) {
    RowOf(c.db, e).Some? && ChargeIn(Part(c, cat, now, e, n)) == Some(Payment(p, charge))
  }

  ghost predicate ChargedOpen(c: Books, cat: Catalog, now: int, done: map<Event, nat>, p: string, charge: Charge) {
    exists e :: e in done && Charges(c, cat, now, e, done[e], p, charge)
  }

  /** The ledger is ahead by charges of unfinished events only. */
  ghost predicate LedgerPending(c: Books, t: Books, cat: Catalog, now: int, done: map<Event, nat>) {
    && (forall p | p in c.ledger :: p in t.ledger && t.ledger[p] == c.ledger[p])
    && (forall p | p in t.ledger && p !in c.ledger :: ChargedOpen(c, cat, now, done, p, t.ledger[p]))
  }

  ghost predicate Matching(c: Books, t: Books, open: set<Event>) {
    && SameOwners(c.db, t.db) && UniqueGateways(c.db) && OneLive(c.db) && OneLive(t.db) && AllInLine(c.db, open)
  }

  /**
   The real books t against c, those of the completed deliveries alone; `done` counts the writes of each unfinished
   event.
   */
  ghost predicate Pending(c: Books, t: Books, cat: Catalog, now: int, done: map<Event, nat>) {
    && Matching(c, t, done.Keys) && RowsPending(c, t, cat, now, done)
    && LimitsPending(c, t, cat, now, done) && LedgerPending(c, t, cat, now, done)
  }

  lemma NothingPending(c: Books, cat: Catalog, now: int)
    requires UniqueGateways(c.db) && OneLive(c.db)
    ensures Pending(c, c, cat, now, map[])
  {}

  lemma NoneLeft(c: Books, t: Books, cat: Catalog, now: int)
    requires Pending(c, t, cat, now, map[])
    ensures c == t
  {
    assert forall id | id in c.db.subs :: !OnOpenRow(c.db, {}, id);
    assert c.db.subs == t.db.subs;
    assert forall user: Id :: SameLimits(c, t, user);
    assert c.db.limits == t.db.limits by {
      forall user | user in c.db.limits ensures user in t.db.limits && t.db.limits[user] == c.db.limits[user] {
        assert SameLimits(c, t, user);
      }
      forall user | user in t.db.limits ensures user in c.db.limits {
        assert SameLimits(c, t, user);
      }
    }
    assert c.ledger == t.ledger;
  }

  // ---------------------------------------------------------------- an event in line, in both books

  /** The event's row is ahead by what its own attempt has done. */
  lemma OwnRow(c: Books, t: Books, cat: Catalog, now: int, done: map<Event, nat>, f: Event)
    requires Pending(c, t, cat, now, done) && InLine(c.db, done.Keys, f) && RowOf(c.db, f).Some?
    ensures var q := RowOf(c.db, f).value;
            t.db.subs[q] == Fold(c.db.subs[q], Part(c, cat, now, f, DoneOf(done, f)))
  {
    var q := RowOf(c.db, f).value;
    if f !in done {
      forall e | e in done ensures RowOf(c.db, e) != Some(q) {
        assert Unrelated(c.db, e, f);
      }
      assert !OnOpenRow(c.db, done.Keys, q);
      assert Part(c, cat, now, f, 0) == [];
    }
  }

  lemma OpsKept(cat: Catalog, id: Id, row: Sub, e: Event, now: int, n: nat, ws: seq<Write>)
    requires ws == Upto(OnRow(id, row.user, Ops(cat, id, row, e, now)), n)
    ensures Ops(cat, id, Fold(row, ws), e, now) == Ops(cat, id, row, e, now) && Fold(row, ws).user == row.user
  {
    var ops := Ops(cat, id, row, e, now);
    OpsKeepInputs(cat, id, row, e, now);
    forall k | 0 <= k < |ws| ensures KeepsInputs(row, ws[k].op, e) {
      assert ws[k].op == ops[k] && ops[k] in ops;
    }
    FoldKeepsInputs(row, row, ws, e);
    SameInputsSameOps(cat, id, row, Fold(row, ws), e, now);
  }

  /** Both books give the event the same row and the same writes. */
  lemma SameWrites(c: Books, t: Books, cat: Catalog, now: int, done: map<Event, nat>, f: Event)
    requires Pending(c, t, cat, now, done) && InLine(c.db, done.Keys, f)
    ensures RowOf(t.db, f) == RowOf(c.db, f) && Writes(t, cat, f, now) == Writes(c, cat, f, now)
  {
    RowsFoundAlike(c, t, f);
    if RowOf(c.db, f).Some? {
      var q := RowOf(c.db, f).value;
      OwnRow(c, t, cat, now, done, f);
      OpsKept(cat, q, c.db.subs[q], f, now, DoneOf(done, f), Part(c, cat, now, f, DoneOf(done, f)));
    }
  }

  /** What the attempt has done would be accepted again: while the row is live, no other row of the user can be. */
  lemma DoneAccepted(c: Books, t: Books, cat: Catalog, now: int, done: map<Event, nat>, f: Event)
    requires Pending(c, t, cat, now, done) && InLine(c.db, done.Keys, f) && RowOf(c.db, f).Some?
    ensures |Part(c, cat, now, f, DoneOf(done, f))| <= Through(t, Writes(c, cat, f, now))
  {
    var q, ws := RowOf(c.db, f).value, Writes(c, cat, f, now);
    var part := Part(c, cat, now, f, DoneOf(done, f));
    WritesAre(c, cat, f, now);
    OwnRow(c, t, cat, now, done, f);
    forall k | 0 <= k < |part| ensures Accepts(t, ws[k]) {
      if SetsLive(ws[k]) {
        assert part[k] == ws[k];
        FoldStatus(c.db.subs[q], part, k);
        FoldKeepsOwner(c.db.subs[q], part);
        assert LiveFor(t.db, q, ws[k].user);
      }
    }
    ThroughAtLeast(t, ws, |part|);
  }

  // ---------------------------------------------------------------- an attempt dies

  /** Some writes of the event, made on the real books only. */
  ghost predicate Attempted(c: Books, t: Books, next: Books, cat: Catalog, now: int, done: map<Event, nat>,
                            f: Event, m: nat)
  {
    && Pending(c, t, cat, now, done) && InLine(c.db, done.Keys, f) && RowOf(c.db, f).Some?
    && RowOf(c.db, f).value in t.db.subs
    && next == After(t, Part(c, cat, now, f, m), RowOf(c.db, f).value, c.db.subs[RowOf(c.db, f).value].user)
    && OneLive(next.db)
  }

  function Raised(done: map<Event, nat>, f: Event, m: nat): map<Event, nat> {
    done[f := if DoneOf(done, f) < m then m else DoneOf(done, f)]
  }

  lemma PartGrows(c: Books, cat: Catalog, now: int, e: Event, n: nat, m: nat)
    requires |Part(c, cat, now, e, n)| <= |Part(c, cat, now, e, m)| && RowOf(c.db, e).Some?
    ensures LimitsIn(Part(c, cat, now, e, n)).Some? ==> LimitsIn(Part(c, cat, now, e, m)).Some?
    ensures ChargeIn(Part(c, cat, now, e, n)).Some?
      ==> ChargeIn(Part(c, cat, now, e, m)) == ChargeIn(Part(c, cat, now, e, n))
  {
    var small, large := Part(c, cat, now, e, n), Part(c, cat, now, e, m);
    UptoOneEach(c, cat, e, now, m);
    assert forall k :: 0 <= k < |small| ==> small[k] == large[k];
    if LimitsIn(small).Some? {
      var k := LimitsAre(small);
      LimitsFound(large, k);
    }
    if ChargeIn(small).Some? {
      var k := ChargeIs(small);
      ChargeFound(large, k);
    }
  }

  lemma InLineAdded(db: Db, open: set<Event>, f: Event)
    requires AllInLine(db, open) && InLine(db, open, f)
    ensures AllInLine(db, open + {f}) && AllInLine(db, open - {f})
  {
    forall e, g | e in open + {f} && g in open + {f} && e != g ensures Unrelated(db, e, g) {
      if g == f {
        assert Unrelated(db, e, f);
      } else if e == f {
        assert Unrelated(db, g, f);
      } else {
        assert InLine(db, open, g);
      }
    }
  }

  lemma OneRowOwners(b: Books, next: Books, q: Id, ws: seq<Write>)
    requires q in b.db.subs && next.db.subs == b.db.subs[q := Fold(b.db.subs[q], ws)]
    ensures SameOwners(b.db, next.db)
  {
    FoldKeepsOwner(b.db.subs[q], ws);
    assert b.db.subs.Keys + {q} == b.db.subs.Keys;
  }

  lemma AttemptedOwners(c: Books, t: Books, next: Books, cat: Catalog, now: int, done: map<Event, nat>,
                        f: Event, m: nat)
    requires Attempted(c, t, next, cat, now, done, f, m)
    ensures SameOwners(c.db, next.db) && AllInLine(c.db, Raised(done, f, m).Keys)
  {
    OneRowOwners(t, next, RowOf(c.db, f).value, Part(c, cat, now, f, m));
    InLineAdded(c.db, done.Keys, f);
    assert Raised(done, f, m).Keys == done.Keys + {f};
  }

  lemma AttemptedRows(c: Books, t: Books, next: Books, cat: Catalog, now: int, done: map<Event, nat>, f: Event, m: nat)
    requires Attempted(c, t, next, cat, now, done, f, m) && SameOwners(c.db, next.db)
    ensures RowsPending(c, next, cat, now, Raised(done, f, m))
  {
    var q, ws := RowOf(c.db, f).value, Writes(c, cat, f, now);
    var more := Raised(done, f, m);
    WritesAre(c, cat, f, now);
    OwnRow(c, t, cat, now, done, f);
    FoldTwice(c.db.subs[q], ws, DoneOf(done, f), m, q, c.db.subs[q].user);
    assert next.db.subs[q] == Fold(c.db.subs[q], Part(c, cat, now, f, more[f]));
    assert OnOpenRow(c.db, more.Keys, q);
    forall id | id in c.db.subs && !OnOpenRow(c.db, more.Keys, id) ensures next.db.subs[id] == c.db.subs[id] {
      assert id != q;
      forall e | e in done ensures RowOf(c.db, e) != Some(id) {
        assert e in more.Keys;
      }
      assert !OnOpenRow(c.db, done.Keys, id);
    }
    forall e | e in more && RowOf(c.db, e).Some?
      ensures next.db.subs[RowOf(c.db, e).value]
           == Fold(c.db.subs[RowOf(c.db, e).value], Part(c, cat, now, e, more[e]))
    {
      if e != f {
        assert Unrelated(c.db, e, f);
      }
    }
  }

  lemma AttemptedLimits(c: Books, t: Books, next: Books, cat: Catalog, now: int, done: map<Event, nat>,
                        f: Event, m: nat)
    requires Attempted(c, t, next, cat, now, done, f, m)
    ensures LimitsPending(c, next, cat, now, Raised(done, f, m))
  {
    var q, more := RowOf(c.db, f).value, Raised(done, f, m);
    PartGrows(c, cat, now, f, m, more[f]);
    forall user: Id ensures SameLimits(c, next, user) || GrantedOpen(c, cat, now, more, user) {
      if LimitsIn(Part(c, cat, now, f, m)).Some? && user == c.db.subs[q].user {
        assert Grants(c, cat, now, f, more[f], user);
      } else if SameLimits(c, t, user) {
        assert SameLimits(c, next, user);
      } else {
        GrantedRaised(c, cat, now, done, f, m, user);
      }
    }
  }

  lemma GrantedRaised(c: Books, cat: Catalog, now: int, done: map<Event, nat>, f: Event, m: nat, user: Id)
    requires GrantedOpen(c, cat, now, done, user)
    ensures GrantedOpen(c, cat, now, Raised(done, f, m), user)
  {
    var more := Raised(done, f, m);
    var e :| e in done && Grants(c, cat, now, e, done[e], user);
    PartGrows(c, cat, now, e, done[e], more[e]);
    assert Grants(c, cat, now, e, more[e], user);
  }

  lemma ChargedRaised(c: Books, cat: Catalog, now: int, done: map<Event, nat>, f: Event, m: nat,
                      p: string, charge: Charge)
    requires ChargedOpen(c, cat, now, done, p, charge)
    ensures ChargedOpen(c, cat, now, Raised(done, f, m), p, charge)
  {
    var more := Raised(done, f, m);
    var e :| e in done && Charges(c, cat, now, e, done[e], p, charge);
    PartGrows(c, cat, now, e, done[e], more[e]);
    assert Charges(c, cat, now, e, more[e], p, charge);
  }

  lemma AttemptedLedger(c: Books, t: Books, next: Books, cat: Catalog, now: int, done: map<Event, nat>,
                        f: Event, m: nat)
    requires Attempted(c, t, next, cat, now, done, f, m)
    ensures LedgerPending(c, next, cat, now, Raised(done, f, m))
  {
    var more := Raised(done, f, m);
    PartGrows(c, cat, now, f, m, more[f]);
    forall p | p in next.ledger && p !in c.ledger ensures ChargedOpen(c, cat, now, more, p, next.ledger[p]) {
      if p in t.ledger {
        ChargedRaised(c, cat, now, done, f, m, p, t.ledger[p]);
      } else {
        assert Charges(c, cat, now, f, more[f], p, next.ledger[p]);
      }
    }
  }

  lemma AttemptedPends(c: Books, t: Books, next: Books, cat: Catalog, now: int, done: map<Event, nat>, f: Event, m: nat)
    requires Attempted(c, t, next, cat, now, done, f, m)
    ensures Pending(c, next, cat, now, Raised(done, f, m))
  {
    AttemptedOwners(c, t, next, cat, now, done, f, m);
    AttemptedRows(c, t, next, cat, now, done, f, m);
    AttemptedLimits(c, t, next, cat, now, done, f, m);
    AttemptedLedger(c, t, next, cat, now, done, f, m);
  }

  /** A cut attempt makes some first writes of the event. */
  lemma CutAttempts(c: Books, t: Books, cat: Catalog, now: int, done: map<Event, nat>, f: Event, cut: nat)
    returns (m: nat)
    requires Pending(c, t, cat, now, done) && InLine(c.db, done.Keys, f) && RowOf(c.db, f).Some?
    ensures Attempted(c, t, Partial(t, cat, f, now, cut), cat, now, done, f, m)
  {
    SameWrites(c, t, cat, now, done, f);
    var q, ws := RowOf(c.db, f).value, Writes(c, cat, f, now);
    WritesAre(c, cat, f, now);
    UptoOneEach(c, cat, f, now, cut);
    var all := Upto(ws, cut);
    AttemptIs(t, all, q, c.db.subs[q].user);
    m := Through(t, all);
    assert all[..m] == Upto(ws, m);
    PerformOneLive(t, all, q, c.db.subs[q].user);
  }

  /** An attempt that dies leaves its event unfinished, with the longer of its attempts done. */
  lemma CutStep(c: Books, t: Books, cat: Catalog, now: int, done: map<Event, nat>, f: Event, cut: nat)
    returns (more: map<Event, nat>)
    requires Pending(c, t, cat, now, done) && InLine(c.db, done.Keys, f)
    ensures Pending(c, Partial(t, cat, f, now, cut), cat, now, more) && more.Keys == done.Keys + {f}
  {
    if RowOf(c.db, f).None? {
      NoRowAttempt(c, t, cat, now, done, f);
      more := done[f := 0];
      NoRowPending(c, t, cat, now, done, f, more);
    } else {
      var m := CutAttempts(c, t, cat, now, done, f, cut);
      AttemptedPends(c, t, Partial(t, cat, f, now, cut), cat, now, done, f, m);
      more := Raised(done, f, m);
    }
  }

  // ---------------------------------------------------------------- events without a row

  lemma NoRowAttempt(c: Books, t: Books, cat: Catalog, now: int, done: map<Event, nat>, f: Event)
    requires Pending(c, t, cat, now, done) && InLine(c.db, done.Keys, f) && RowOf(c.db, f).None?
    ensures forall n: nat :: Partial(t, cat, f, now, n) == t
    ensures Whole(c, cat, f, now) == Outcome(c, true) && Whole(t, cat, f, now) == Outcome(t, true)
  {
    SameWrites(c, t, cat, now, done, f);
    NoRowNoWrites(c, cat, f, now);
  }

  /** An event without a row can come and go among the unfinished ones. */
  lemma NoRowPending(c: Books, t: Books, cat: Catalog, now: int, done: map<Event, nat>, f: Event, next: map<Event, nat>)
    requires Pending(c, t, cat, now, done) && InLine(c.db, done.Keys, f) && RowOf(c.db, f).None?
    requires next == done[f := 0] || next == done - {f}
    ensures Pending(c, t, cat, now, next)
  {
    InLineAdded(c.db, done.Keys, f);
    assert next.Keys == done.Keys + {f} || next.Keys == done.Keys - {f};
    NoRowRows(c, t, cat, now, done, f, next);
    NoRowLimits(c, t, cat, now, done, f, next);
    NoRowLedger(c, t, cat, now, done, f, next);
  }

  lemma NoRowLimits(c: Books, t: Books, cat: Catalog, now: int, done: map<Event, nat>, f: Event, next: map<Event, nat>)
    requires LimitsPending(c, t, cat, now, done) && RowOf(c.db, f).None?
    requires next == done[f := 0] || next == done - {f}
    ensures LimitsPending(c, t, cat, now, next)
  {
    forall user: Id ensures SameLimits(c, t, user) || GrantedOpen(c, cat, now, next, user) {
      if !SameLimits(c, t, user) {
        var e :| e in done && Grants(c, cat, now, e, done[e], user);
        assert e in next && next[e] == done[e];
      }
    }
  }

  lemma NoRowLedger(c: Books, t: Books, cat: Catalog, now: int, done: map<Event, nat>, f: Event, next: map<Event, nat>)
    requires LedgerPending(c, t, cat, now, done) && RowOf(c.db, f).None?
    requires next == done[f := 0] || next == done - {f}
    ensures LedgerPending(c, t, cat, now, next)
  {
    forall p | p in t.ledger && p !in c.ledger ensures ChargedOpen(c, cat, now, next, p, t.ledger[p]) {
      var e :| e in done && Charges(c, cat, now, e, done[e], p, t.ledger[p]);
      assert e in next && next[e] == done[e];
    }
  }

  lemma NoRowRows(c: Books, t: Books, cat: Catalog, now: int, done: map<Event, nat>, f: Event, next: map<Event, nat>)
    requires SameOwners(c.db, t.db) && RowsPending(c, t, cat, now, done) && RowOf(c.db, f).None?
    requires next == done[f := 0] || next == done - {f}
    ensures RowsPending(c, t, cat, now, next)
  {
    forall id | id in c.db.subs && OnOpenRow(c.db, done.Keys, id) ensures OnOpenRow(c.db, next.Keys, id) {
      var e :| e in done && RowOf(c.db, e) == Some(id);
      assert e in next.Keys;
    }
  }

  // ---------------------------------------------------------------- an event is carried out

  /**
   The event goes live, and the unfinished attempts have changed whether the user has another live row: the index gives
   the real server the other answer.
   */
  ghost predicate Crossed(c: Books, t: Books, f: Event) {
    var r := RowOf(c.db, f);
    GoesLive(f) && r.Some?
    && OtherLive(t.db, r.value, c.db.subs[r.value].user) != OtherLive(c.db, r.value, c.db.subs[r.value].user)
  }

  /** The event is accepted and records a payment that an unfinished event of another row has already charged. */
  ghost predicate PaidElsewhere(c: Books, t: Books, f: Event) {
    var r := RowOf(c.db, f);
    && f.kind.SubCharged? && f.payment.Some? && r.Some? && !OtherLive(t.db, r.value, c.db.subs[r.value].user)
    && f.payment.value in t.ledger && f.payment.value !in c.ledger && t.ledger[f.payment.value].sub != r.value
  }

  ghost predicate Disturbed(c: Books, t: Books, f: Event) {
    Crossed(c, t, f) || PaidElsewhere(c, t, f)
  }

  /** Some first writes of the event, all that its attempts have done among them, made on both books. */
  ghost predicate Settled(c: Books, t: Books, cn: Books, tn: Books, cat: Catalog, now: int, done: map<Event, nat>,
                          f: Event, m: nat)
  {
    && Pending(c, t, cat, now, done) && InLine(c.db, done.Keys, f) && RowOf(c.db, f).Some?
    && RowOf(c.db, f).value in t.db.subs
    && |Part(c, cat, now, f, DoneOf(done, f))| <= |Part(c, cat, now, f, m)|
    && cn == After(c, Part(c, cat, now, f, m), RowOf(c.db, f).value, c.db.subs[RowOf(c.db, f).value].user)
    && tn == After(t, Part(c, cat, now, f, m), RowOf(c.db, f).value, c.db.subs[RowOf(c.db, f).value].user)
    && OneLive(cn.db) && OneLive(tn.db)
  }

  /** A charge among the writes is in neither ledger yet, in both, or on the real one as this very charge. */
  ghost predicate OwnCharge(c: Books, t: Books, paid: Option<Payment>) {
    paid.Some? && paid.value.id in t.ledger && paid.value.id !in c.ledger ==>
      t.ledger[paid.value.id] == paid.value.charge
  }

  lemma SettledOwners(c: Books, t: Books, cn: Books, tn: Books, cat: Catalog, now: int, done: map<Event, nat>,
                      f: Event, m: nat)
    requires Settled(c, t, cn, tn, cat, now, done, f, m)
    ensures Matching(cn, tn, done.Keys - {f}) && SameOwners(c.db, cn.db)
    ensures OthersHold(c, cn, cat, now, done, f)
  {
    var q, ws := RowOf(c.db, f).value, Part(c, cat, now, f, m);
    OneRowOwners(c, cn, q, ws);
    OneRowOwners(t, tn, q, ws);
    SameRowFound(c.db, cn.db, f.gateway);
    InLineAdded(c.db, done.Keys, f);
    forall e | e in done && e != f
      ensures RowOf(c.db, e) != Some(q) && RowOf(cn.db, e) == RowOf(c.db, e)
      ensures Writes(cn, cat, e, now) == Writes(c, cat, e, now)
    {
      assert Unrelated(c.db, e, f);
      OthersKept(c, cn, cat, now, e, q);
    }
    InLineKept(c.db, cn.db, done.Keys - {f});
  }

  lemma InLineKept(db: Db, next: Db, open: set<Event>)
    requires UniqueGateways(db) && SameOwners(db, next) && AllInLine(db, open)
    ensures AllInLine(next, open)
  {
    forall e, g | e in open && g in open && e != g ensures Unrelated(next, e, g) {
      assert InLine(db, open, g);
      assert Unrelated(db, e, g);
      SameRowFound(db, next, e.gateway);
      SameRowFound(db, next, g.gateway);
      assert RowOf(next, e) == RowOf(db, e) && RowOf(next, g) == RowOf(db, g);
    }
  }

  /** The other unfinished events find the same rows in the new books, and the same writes. */
  ghost predicate OthersHold(c: Books, cn: Books, cat: Catalog, now: int, done: map<Event, nat>, f: Event) {
    forall e | e in done && e != f ::
      && RowOf(c.db, e) != RowOf(c.db, f) && RowOf(cn.db, e) == RowOf(c.db, e)
      && Writes(cn, cat, e, now) == Writes(c, cat, e, now)
  }

  lemma OthersHoldParts(c: Books, cn: Books, cat: Catalog, now: int, done: map<Event, nat>, f: Event)
    requires OthersHold(c, cn, cat, now, done, f) && SameOwners(c.db, cn.db)
    ensures forall e, user | e in done && e != f && Grants(c, cat, now, e, done[e], user) ::
              Grants(cn, cat, now, e, done[e], user)
    ensures forall e, p, charge | e in done && e != f && Charges(c, cat, now, e, done[e], p, charge) ::
              Charges(cn, cat, now, e, done[e], p, charge)
  {}

  lemma SettledRows(c: Books, t: Books, cn: Books, tn: Books, cat: Catalog, now: int, done: map<Event, nat>,
                    f: Event, q: Id, row: Sub)
    requires SameOwners(c.db, t.db) && SameOwners(cn.db, tn.db) && RowsPending(c, t, cat, now, done)
    requires RowOf(c.db, f) == Some(q) && OthersHold(c, cn, cat, now, done, f)
    requires cn.db.subs == c.db.subs[q := row] && tn.db.subs == t.db.subs[q := row]
    ensures RowsPending(cn, tn, cat, now, done - {f})
  {
    var next := done - {f};
    forall id | id in cn.db.subs && !OnOpenRow(cn.db, next.Keys, id) ensures tn.db.subs[id] == cn.db.subs[id] {
      if id != q {
        forall e | e in done ensures RowOf(c.db, e) != Some(id) {
          assert e == f || e in next.Keys;
        }
        assert !OnOpenRow(c.db, done.Keys, id);
      }
    }
  }

  lemma SettledLimits(c: Books, t: Books, cn: Books, tn: Books, cat: Catalog, now: int, done: map<Event, nat>,
                      f: Event, who: Id, given: Option<Limits>)
    requires LimitsPending(c, t, cat, now, done)
    requires cn.db.limits == LimitsAfter(c.db.limits, who, given)
    requires tn.db.limits == LimitsAfter(t.db.limits, who, given)
    requires forall user | f in done && Grants(c, cat, now, f, done[f], user) :: user == who && given.Some?
    requires forall e, user | e in done && e != f && Grants(c, cat, now, e, done[e], user) ::
               Grants(cn, cat, now, e, done[e], user)
    ensures LimitsPending(cn, tn, cat, now, done - {f})
  {
    var next := done - {f};
    forall user: Id ensures SameLimits(cn, tn, user) || GrantedOpen(cn, cat, now, next, user) {
      if !(given.Some? && user == who) && !SameLimits(c, t, user) {
        var e :| e in done && Grants(c, cat, now, e, done[e], user);
        assert e in next && Grants(cn, cat, now, e, next[e], user);
      }
    }
  }

  lemma SettledLedger(c: Books, t: Books, cn: Books, tn: Books, cat: Catalog, now: int, done: map<Event, nat>,
                      f: Event, paid: Option<Payment>)
    requires LedgerPending(c, t, cat, now, done) && OwnCharge(c, t, paid)
    requires cn.ledger == LedgerAfter(c.ledger, paid) && tn.ledger == LedgerAfter(t.ledger, paid)
    requires forall p, charge | f in done && Charges(c, cat, now, f, done[f], p, charge) ::
      paid == Some(Payment(p, charge))
    requires forall e, p, charge | e in done && e != f && Charges(c, cat, now, e, done[e], p, charge) ::
               Charges(cn, cat, now, e, done[e], p, charge)
    ensures LedgerPending(cn, tn, cat, now, done - {f})
  {
    var next := done - {f};
    forall p | p in tn.ledger && p !in cn.ledger ensures ChargedOpen(cn, cat, now, next, p, tn.ledger[p]) {
      assert p in t.ledger && p !in c.ledger && tn.ledger[p] == t.ledger[p];
      var e :| e in done && Charges(c, cat, now, e, done[e], p, t.ledger[p]);
      assert e in next && Charges(cn, cat, now, e, next[e], p, tn.ledger[p]);
    }
  }

  lemma SettledPends(c: Books, t: Books, cn: Books, tn: Books, cat: Catalog, now: int, done: map<Event, nat>,
                     f: Event, m: nat)
    requires Settled(c, t, cn, tn, cat, now, done, f, m) && OwnCharge(c, t, ChargeIn(Part(c, cat, now, f, m)))
    ensures Pending(cn, tn, cat, now, done - {f})
  {
    var q, ws := RowOf(c.db, f).value, Part(c, cat, now, f, m);
    SettledOwners(c, t, cn, tn, cat, now, done, f, m);
    OthersHoldParts(c, cn, cat, now, done, f);
    PartGrows(c, cat, now, f, DoneOf(done, f), m);
    SettledRow(c, t, cn, tn, cat, now, done, f, m);
    SettledRows(c, t, cn, tn, cat, now, done, f, q, cn.db.subs[q]);
    SettledLimits(c, t, cn, tn, cat, now, done, f, c.db.subs[q].user, LimitsIn(ws));
    SettledLedger(c, t, cn, tn, cat, now, done, f, ChargeIn(ws));
    assert (done - {f}).Keys == done.Keys - {f};
  }

  /** The event's own row is the same in both books at last. */
  lemma SettledRow(c: Books, t: Books, cn: Books, tn: Books, cat: Catalog, now: int, done: map<Event, nat>,
                   f: Event, m: nat)
    requires Settled(c, t, cn, tn, cat, now, done, f, m)
    ensures var q := RowOf(c.db, f).value; q in cn.db.subs && q in tn.db.subs && tn.db.subs[q] == cn.db.subs[q]
  {
    var q := RowOf(c.db, f).value;
    OwnRow(c, t, cat, now, done, f);
    EventFoldAgain(c, cat, now, f, DoneOf(done, f), m);
  }

  lemma EventFoldAgain(c: Books, cat: Catalog, now: int, f: Event, n: nat, m: nat)
    requires RowOf(c.db, f).Some? && |Part(c, cat, now, f, n)| <= |Part(c, cat, now, f, m)|
    ensures var row := c.db.subs[RowOf(c.db, f).value];
            Fold(Fold(row, Part(c, cat, now, f, n)), Part(c, cat, now, f, m)) == Fold(row, Part(c, cat, now, f, m))
  {
    var q := RowOf(c.db, f).value;
    WritesAre(c, cat, f, now);
    FoldAgain(c.db.subs[q], Writes(c, cat, f, now), n, m, q, c.db.subs[q].user);
  }

  /** An event that is not crossed gets equally far on both books, and at least as far as its own attempts had got. */
  lemma DoneSettles(c: Books, t: Books, cat: Catalog, now: int, done: map<Event, nat>, f: Event) returns (m: nat)
    requires Pending(c, t, cat, now, done) && InLine(c.db, done.Keys, f) && RowOf(c.db, f).Some? && !Crossed(c, t, f)
    ensures Settled(c, t, Whole(c, cat, f, now).books, Whole(t, cat, f, now).books, cat, now, done, f, m)
    ensures Whole(c, cat, f, now).ok == Whole(t, cat, f, now).ok
    ensures m <= |Writes(c, cat, f, now)| && m == Through(t, Writes(c, cat, f, now))
  {
    SameWrites(c, t, cat, now, done, f);
    SameThrough(c, t, cat, f, now);
    DoneAccepted(c, t, cat, now, done, f);
    var q, ws := RowOf(c.db, f).value, Writes(c, cat, f, now);
    var user := c.db.subs[q].user;
    WritesAre(c, cat, f, now);
    m := Through(c, ws);
    AttemptIs(c, ws, q, user);
    AttemptIs(t, ws, q, user);
    PerformOneLive(c, ws, q, user);
    PerformOneLive(t, ws, q, user);
  }

  /** A charge by an unfinished attempt that names row q is of the event on row q. */
  lemma OpenChargeIsOwn(c: Books, cat: Catalog, now: int, done: map<Event, nat>, f: Event, p: string, charge: Charge)
    requires InLine(c.db, done.Keys, f) && RowOf(c.db, f) == Some(charge.sub)
    requires ChargedOpen(c, cat, now, done, p, charge)
    ensures f in done && Charges(c, cat, now, f, done[f], p, charge)
  {
    var e :| e in done && Charges(c, cat, now, e, done[e], p, charge);
    var part := Part(c, cat, now, e, done[e]);
    var k := ChargeIs(part);
    WritesAre(c, cat, e, now);
    assert part[k] == Writes(c, cat, e, now)[k];
    assert e != f ==> Unrelated(c.db, e, f);
  }

  lemma OwnChargeHolds(c: Books, t: Books, cat: Catalog, now: int, done: map<Event, nat>, f: Event, m: nat)
    requires Pending(c, t, cat, now, done) && InLine(c.db, done.Keys, f) && RowOf(c.db, f).Some?
    requires !PaidElsewhere(c, t, f) && m == Through(t, Writes(c, cat, f, now))
    requires |Part(c, cat, now, f, DoneOf(done, f))| <= |Part(c, cat, now, f, m)|
    ensures OwnCharge(c, t, ChargeIn(Part(c, cat, now, f, m)))
  {
    var q, ws, part := RowOf(c.db, f).value, Writes(c, cat, f, now), Part(c, cat, now, f, m);
    var paid := ChargeIn(part);
    if paid.Some? && paid.value.id in t.ledger && paid.value.id !in c.ledger {
      var k := ChargeIs(part);
      WritesAre(c, cat, f, now);
      assert part[k] == ws[k];
      ChargedUnopposed(c, t, cat, now, f);
      OpenChargeIsOwn(c, cat, now, done, f, paid.value.id, t.ledger[paid.value.id]);
      PartGrows(c, cat, now, f, done[f], m);
    }
  }

  /** A charged event that got through any write was accepted. */
  lemma ChargedUnopposed(c: Books, t: Books, cat: Catalog, now: int, f: Event)
    requires RowOf(c.db, f).Some? && f.kind.SubCharged? && Through(t, Writes(c, cat, f, now)) > 0
    ensures var q := RowOf(c.db, f).value; !OtherLive(t.db, q, c.db.subs[q].user)
  {
    var k := StatusWritten(c, cat, now, f);
    WritesAre(c, cat, f, now);
    assert Accepts(t, Writes(c, cat, f, now)[0]);
  }

  /** An undisturbed event is answered alike, and is no longer unfinished. */
  lemma DoneStep(c: Books, t: Books, cat: Catalog, now: int, done: map<Event, nat>, f: Event)
    requires Pending(c, t, cat, now, done) && InLine(c.db, done.Keys, f) && !Disturbed(c, t, f)
    ensures Whole(c, cat, f, now).ok == Whole(t, cat, f, now).ok
    ensures Pending(Whole(c, cat, f, now).books, Whole(t, cat, f, now).books, cat, now, done - {f})
  {
    if RowOf(c.db, f).None? {
      NoRowAttempt(c, t, cat, now, done, f);
      NoRowPending(c, t, cat, now, done, f, done - {f});
    } else {
      var m := DoneSettles(c, t, cat, now, done, f);
      OwnChargeHolds(c, t, cat, now, done, f, m);
      SettledPends(c, t, Whole(c, cat, f, now).books, Whole(t, cat, f, now).books, cat, now, done, f, m);
    }
  }

  /** A crossed event is answered differently. */
  lemma CrossedAnswer(c: Books, t: Books, cat: Catalog, now: int, done: map<Event, nat>, f: Event)
    requires Pending(c, t, cat, now, done) && InLine(c.db, done.Keys, f) && RowOf(c.db, f).Some?
    ensures Crossed(c, t, f) <==> Whole(c, cat, f, now).ok != Whole(t, cat, f, now).ok
  {
    SameWrites(c, t, cat, now, done, f);
    AnswerIs(c, cat, f, now);
    AnswerIs(t, cat, f, now);
  }

  /** An event that nothing opposes on the real books gets through all its writes there. */
  lemma UnopposedThrough(c: Books, t: Books, cat: Catalog, now: int, done: map<Event, nat>, f: Event)
    requires Pending(c, t, cat, now, done) && InLine(c.db, done.Keys, f) && RowOf(c.db, f).Some?
    requires !OtherLive(t.db, RowOf(c.db, f).value, c.db.subs[RowOf(c.db, f).value].user)
    ensures Through(t, Writes(c, cat, f, now)) == |Writes(c, cat, f, now)|
  {
    SameWrites(c, t, cat, now, done, f);
    AnswerIs(t, cat, f, now);
  }

  lemma PaidLedgers(c: Books, t: Books, cn: Books, tn: Books, cat: Catalog, now: int, done: map<Event, nat>,
                    f: Event, m: nat)
    requires Settled(c, t, cn, tn, cat, now, done, f, m) && PaidElsewhere(c, t, f)
    requires Part(c, cat, now, f, m) == Writes(c, cat, f, now)
    ensures var p := f.payment.value; p in cn.ledger && p in tn.ledger && cn.ledger[p] != tn.ledger[p]
  {
    ChargeWritten(c, cat, now, f);
  }

  /** A payment charged elsewhere stays so on the real books, while the clean ones charge it to the event's own row. */
  lemma PaidApart(c: Books, t: Books, cat: Catalog, now: int, done: map<Event, nat>, f: Event)
    requires Pending(c, t, cat, now, done) && InLine(c.db, done.Keys, f) && !Crossed(c, t, f) && PaidElsewhere(c, t, f)
    ensures var p, cn, tn := f.payment.value, Whole(c, cat, f, now).books, Whole(t, cat, f, now).books;
            p in cn.ledger && p in tn.ledger && cn.ledger[p] != tn.ledger[p]
  {
    var m := DoneSettles(c, t, cat, now, done, f);
    UnopposedThrough(c, t, cat, now, done, f);
    PaidLedgers(c, t, Whole(c, cat, f, now).books, Whole(t, cat, f, now).books, cat, now, done, f, m);
  }

  // ---------------------------------------------------------------- deliveries

  /**
   Deliveries come in an order in which every failed attempt is retried, and the events processed between a failed
   attempt and its retry concern other rows. Any number of events may be waiting for their retries at once.
   */
  ghost predicate Orderly(s: Server, cat: Catalog, now: int, open: set<Event>, ds: seq<Delivery>)
    decreases |ds|
  {
    if ds == [] then open == {}
    else if ds[0].event.key in s.seen then Orderly(s, cat, now, open, ds[1..])
    else
      && InLine(s.books.db, open, ds[0].event)
      && if ds[0].cut.Some? then Orderly(s, cat, now, open + {ds[0].event}, ds[1..])
         else Orderly(Handle(s, cat, now, ds[0]), cat, now, open - {ds[0].event}, ds[1..])
  }

  /** What a server that only gets the completed deliveries holds after this one. */
  ghost function Clean(s: Server, cat: Catalog, now: int, d: Delivery): Server {
    if d.cut.None? then Handle(s, cat, now, d) else s
  }

  /** Of the clean server s and the real one t: no completed delivery is disturbed by what is unfinished. */
  ghost predicate Undisturbed(s: Server, t: Server, cat: Catalog, now: int, ds: seq<Delivery>)
    decreases |ds|
  {
    ds == []
    || ((ds[0].cut.None? && ds[0].event.key !in s.seen ==> !Disturbed(s.books, t.books, ds[0].event))
        && Undisturbed(Clean(s, cat, now, ds[0]), Handle(t, cat, now, ds[0]), cat, now, ds[1..]))
  }

  /** No event is delivered to its end twice. */
  predicate NoRepeats(ds: seq<Delivery>) {
    forall j, k :: 0 <= j < k < |ds| && ds[j].cut.None? && ds[k].cut.None? ==> ds[j].event.key != ds[k].event.key
  }

  /** The real server t against the clean one, s, with unfinished events. */
  ghost predicate Behind(s: Server, t: Server, cat: Catalog, now: int, done: map<Event, nat>) {
    && t.seen == s.seen && Pending(s.books, t.books, cat, now, done)
  }

  /** One delivery takes the two servers to corresponding states. */
  lemma HandleBehind(s: Server, t: Server, cat: Catalog, now: int, done: map<Event, nat>, d: Delivery)
    returns (next: map<Event, nat>)
    requires Behind(s, t, cat, now, done) && d.event.key !in s.seen && InLine(s.books.db, done.Keys, d.event)
    requires d.cut.None? ==> !Disturbed(s.books, t.books, d.event)
    ensures Behind(Clean(s, cat, now, d), Handle(t, cat, now, d), cat, now, next)
    ensures next.Keys == if d.cut.Some? then done.Keys + {d.event} else done.Keys - {d.event}
  {
    if d.cut.Some? {
      next := CutStep(s.books, t.books, cat, now, done, d.event, d.cut.value);
    } else {
      DoneStep(s.books, t.books, cat, now, done, d.event);
      next := done - {d.event};
    }
  }

  lemma FinishedFirst(s: Server, cat: Catalog, now: int, ds: seq<Delivery>)
    requires ds != []
    ensures Deliver(s, cat, now, Finished(ds)) == Deliver(Clean(s, cat, now, ds[0]), cat, now, Finished(ds[1..]))
  {
    if ds[0].cut.None? {
      assert Finished(ds) == [ds[0]] + Finished(ds[1..]);
      assert Finished(ds)[1..] == Finished(ds[1..]);
    } else {
      assert Finished(ds) == Finished(ds[1..]);
    }
  }

  lemma {:induction false} UndisturbedConverge(s: Server, t: Server, cat: Catalog, now: int, done: map<Event, nat>,
                                               ds: seq<Delivery>)
    requires Behind(s, t, cat, now, done) && Orderly(s, cat, now, done.Keys, ds) && Undisturbed(s, t, cat, now, ds)
    ensures Deliver(t, cat, now, ds) == Deliver(s, cat, now, Finished(ds))
    decreases |ds|
  {
    if ds == [] {
      assert done == map[];
      NoneLeft(s.books, t.books, cat, now);
    } else {
      FinishedFirst(s, cat, now, ds);
      if ds[0].event.key in s.seen {
        UndisturbedConverge(s, t, cat, now, done, ds[1..]);
      } else {
        var next := HandleBehind(s, t, cat, now, done, ds[0]);
        UndisturbedConverge(Clean(s, cat, now, ds[0]), Handle(t, cat, now, ds[0]), cat, now, next, ds[1..]);
      }
    }
  }

  /**
   Convergence. However attempts fail, retry and repeat, the server ends with the rows, limits, ledger and recorded
   events of the completed deliveries alone, if no completed delivery is disturbed by an unfinished event.
   */
  lemma DeliveriesConverge(s: Server, cat: Catalog, now: int, ds: seq<Delivery>)
    requires UniqueGateways(s.books.db) && OneLive(s.books.db) && Orderly(s, cat, now, {}, ds)
    requires Undisturbed(s, s, cat, now, ds)
    ensures Deliver(s, cat, now, ds) == Deliver(s, cat, now, Finished(ds))
  {
    var none: map<Event, nat> := map[];
    NothingPending(s.books, cat, now);
    assert none.Keys == {};
    UndisturbedConverge(s, s, cat, now, none, ds);
  }

  // ---------------------------------------------------------------- a disturbed delivery shows at the end

  lemma {:induction false} LedgerStays(b: Books, ws: seq<Write>, p: string)
    requires p in b.ledger
    ensures p in Perform(b, ws).books.ledger && Perform(b, ws).books.ledger[p] == b.ledger[p]
    decreases |ws|
  {
    if ws != [] && Accepts(b, ws[0]) {
      LedgerStays(Exec(b, ws[0]), ws[1..], p);
    }
  }

  lemma {:induction false} ChargeLasts(s: Server, cat: Catalog, now: int, ds: seq<Delivery>, p: string)
    requires p in s.books.ledger
    ensures p in Deliver(s, cat, now, ds).books.ledger
    ensures Deliver(s, cat, now, ds).books.ledger[p] == s.books.ledger[p]
    decreases |ds|
  {
    if ds != [] {
      var ws := Writes(s.books, cat, ds[0].event, now);
      LedgerStays(s.books, ws, p);
      LedgerStays(s.books, Upto(ws, if ds[0].cut.Some? then ds[0].cut.value else 0), p);
      ChargeLasts(Handle(s, cat, now, ds[0]), cat, now, ds[1..], p);
    }
  }

  predicate NotCompleted(ds: seq<Delivery>, key: string) {
    forall k :: 0 <= k < |ds| && ds[k].cut.None? ==> ds[k].event.key != key
  }

  /** Without a completed delivery of the key, its being recorded does not change. */
  lemma {:induction false} SeenLasts(s: Server, cat: Catalog, now: int, ds: seq<Delivery>, key: string)
    requires NotCompleted(ds, key)
    ensures key in Deliver(s, cat, now, ds).seen <==> key in s.seen
    decreases |ds|
  {
    if ds != [] {
      assert ds[0].cut.None? ==> ds[0].event.key != key;
      forall k | 0 <= k < |ds[1..]| && ds[1..][k].cut.None? ensures ds[1..][k].event.key != key {
        assert ds[1..][k] == ds[k + 1];
      }
      SeenLasts(Handle(s, cat, now, ds[0]), cat, now, ds[1..], key);
    }
  }

  lemma {:induction false} FinishedNotCompleted(ds: seq<Delivery>, key: string)
    requires NotCompleted(ds, key)
    ensures NotCompleted(Finished(ds), key)
    decreases |ds|
  {
    if ds != [] {
      forall k | 0 <= k < |ds[1..]| && ds[1..][k].cut.None? ensures ds[1..][k].event.key != key {
        assert ds[1..][k] == ds[k + 1];
      }
      FinishedNotCompleted(ds[1..], key);
      var rest := Finished(ds[1..]);
      forall k | 0 <= k < |Finished(ds)| ensures Finished(ds)[k].event.key != key || Finished(ds)[k].cut.Some? {
        if ds[0].cut.None? {
          assert Finished(ds) == [ds[0]] + rest;
          assert k > 0 ==> Finished(ds)[k] == rest[k - 1];
          assert ds[0].event.key != key;
        } else {
          assert Finished(ds) == rest;
        }
      }
    }
  }

  /** The first delivery is disturbed: either the answers differ for good, or the ledgers do. */
  lemma DisturbedDiverges(s: Server, t: Server, cat: Catalog, now: int, done: map<Event, nat>, ds: seq<Delivery>)
    requires Behind(s, t, cat, now, done) && ds != [] && ds[0].cut.None? && ds[0].event.key !in s.seen
    requires InLine(s.books.db, done.Keys, ds[0].event) && NoRepeats(ds)
    requires Disturbed(s.books, t.books, ds[0].event)
    ensures Deliver(t, cat, now, ds) != Deliver(s, cat, now, Finished(ds))
  {
    var d, rest := ds[0], ds[1..];
    var sn, tn := Handle(s, cat, now, d), Handle(t, cat, now, d);
    FinishedFirst(s, cat, now, ds);
    if Crossed(s.books, t.books, d.event) {
      CrossedAnswer(s.books, t.books, cat, now, done, d.event);
      forall k | 0 <= k < |rest| && rest[k].cut.None? ensures rest[k].event.key != d.event.key {
        assert rest[k] == ds[k + 1];
      }
      SeenLasts(tn, cat, now, rest, d.event.key);
      FinishedNotCompleted(rest, d.event.key);
      SeenLasts(sn, cat, now, Finished(rest), d.event.key);
    } else {
      PaidApart(s.books, t.books, cat, now, done, d.event);
      ChargeLasts(tn, cat, now, rest, d.event.payment.value);
      ChargeLasts(sn, cat, now, Finished(rest), d.event.payment.value);
    }
  }

  lemma NoRepeatsLater(ds: seq<Delivery>)
    requires ds != [] && NoRepeats(ds)
    ensures NoRepeats(ds[1..])
  {
    forall j, k | 0 <= j < k < |ds[1..]| && ds[1..][j].cut.None? && ds[1..][k].cut.None?
      ensures ds[1..][j].event.key != ds[1..][k].event.key
    {
      assert ds[1..][j] == ds[j + 1] && ds[1..][k] == ds[k + 1];
    }
  }

  lemma {:induction false} ConvergeFromIff(s: Server, t: Server, cat: Catalog, now: int, done: map<Event, nat>,
                                           ds: seq<Delivery>)
    requires Behind(s, t, cat, now, done) && Orderly(s, cat, now, done.Keys, ds) && NoRepeats(ds)
    ensures Deliver(t, cat, now, ds) == Deliver(s, cat, now, Finished(ds)) <==> Undisturbed(s, t, cat, now, ds)
    decreases |ds|
  {
    if ds == [] {
      UndisturbedConverge(s, t, cat, now, done, ds);
    } else if ds[0].cut.None? && ds[0].event.key !in s.seen && Disturbed(s.books, t.books, ds[0].event) {
      DisturbedDiverges(s, t, cat, now, done, ds);
    } else {
      FinishedFirst(s, cat, now, ds);
      NoRepeatsLater(ds);
      if ds[0].event.key in s.seen {
        ConvergeFromIff(s, t, cat, now, done, ds[1..]);
      } else {
        var next := HandleBehind(s, t, cat, now, done, ds[0]);
        ConvergeFromIff(Clean(s, cat, now, ds[0]), Handle(t, cat, now, ds[0]), cat, now, next, ds[1..]);
      }
    }
  }

  /**
   Exactly when the deliveries end as the completed ones alone, over every run in which each event is delivered to its
   end once at most: when no completed delivery is disturbed by an unfinished event.
   */
  lemma DeliveriesConvergeIff(s: Server, cat: Catalog, now: int, ds: seq<Delivery>)
    requires UniqueGateways(s.books.db) && OneLive(s.books.db) && Orderly(s, cat, now, {}, ds) && NoRepeats(ds)
    ensures Deliver(s, cat, now, ds) == Deliver(s, cat, now, Finished(ds)) <==> Undisturbed(s, s, cat, now, ds)
  {
    var none: map<Event, nat> := map[];
    NothingPending(s.books, cat, now);
    assert none.Keys == {};
    ConvergeFromIff(s, s, cat, now, none, ds);
  }
}
