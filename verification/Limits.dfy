/** Where the code does less than one might expect: the exact conditions, and inputs that show them. */
module Limits {
  import opened Domain
  import opened Keys
  import opened Ledger
  import opened LedgerInvariant
  import opened Protocol
  import opened ProtocolInvariant
  import opened Guarantees

  // ---- long references ----

  /** An unreversed payment has no refund row, and its refund key is not logged. */
  lemma UnreversedIsUnrefunded(db: Tables, orig: TxId)
    requires Structure(db) && orig in db.ledger && db.ledger[orig].IsRefundable()
    ensures RefundKey(db.ledger[orig].merchant, db.ledger[orig].ref) !in db.log && !RefundExists(db, orig)
  {
    var k := RefundKey(db.ledger[orig].merchant, db.ledger[orig].ref);
    if k in db.log {
      assert EntryOk(db, k);
      RefundKeyMeansReversed(db, orig, db.log[k].txId);
    }
    forall x ensures !RefundedBy(db, orig, x) {
      if RefundedBy(db, orig, x) { RefundReverses(db, orig, x); }
    }
    assert RefundExists(db, orig) ==> exists x :: RefundedBy(db, orig, x);
  }

  /** "REFUND-" and the reference must fit VARCHAR(100): in good tables an eligible refund, full or partial, of an
      unrefunded payment goes through exactly when the reference has at most 93 characters. */
  lemma RefundNeedsShortRef(db: Tables, r: Request, ch: Choice)
    requires LedgerInv(db) && r.Refund? && ch.id !in db.ledger
    requires RefMatches(db, ch.orig, r.merchant, r.ref) && db.ledger[ch.orig].IsRefundable()
    requires r.amountOpt.Some? ==> 0 < r.amountOpt.value <= db.ledger[ch.orig].amount
    requires ch.wallet == db.ledger[ch.orig].wallet
    ensures Execute(db, r, ch).Committed? <==> |r.ref| <= 93
    ensures |r.ref| > 93 ==> Execute(db, r, ch) == Rejected(Internal)
  {
    assert RowOk(db, ch.orig);
    UnreversedIsUnrefunded(db, ch.orig);
  }

  lemma RefundKeyMeansReversed(db: Tables, orig: TxId, x: TxId)
    requires RowsOk(db) && orig in db.ledger && x in db.ledger && db.ledger[x].kind != TOPUP && db.ledger[orig].kind == PAYMENT
    requires RowKey(db, db.ledger[x]) == RefundKey(db.ledger[orig].merchant, db.ledger[orig].ref)
    ensures db.ledger[orig].status == REVERSED
  {
    assert RowOk(db, x) && RowOk(db, orig);
    var t, o := db.ledger[x], db.ledger[orig];
    if t.kind == PAYMENT {
      KeyCollision(t.merchant, t.ref, o.merchant, o.ref);
    } else {
      var y := t.original.value;
      RefundKeyInjective(t.merchant, db.ledger[y].ref, o.merchant, o.ref);
      SameKeySameRow(db, y, orig);
    }
  }

  /** So over every run a payment with a longer reference is never reversed. */
  lemma LongRefNeverReversed(tr: seq<State>, acts: seq<Action>, n: nat, id: TxId)
    requires Run(tr, acts) && n < |tr| && id in tr[n].db.ledger && |tr[n].db.ledger[id].ref| > 93
    ensures tr[n].db.ledger[id].status == SUCCESS
  {
    RunInv(tr, acts, n);
    var db := tr[n].db;
    assert RowOk(db, id);
    forall r ensures !RefundedBy(db, id, r) {
      if RefundedBy(db, id, r) { RefundReverses(db, id, r); }
    }
    assert db.ledger[id].status == REVERSED ==> exists r :: RefundedBy(db, id, r);
  }

  // ---- references that are not unique ----

  /** The reference of a payment may also be that of a refund or a top-up, and the query for the original
      returns any match. A refund of an unreversed payment is never turned away as "not refundable"
      exactly when no other row of the merchant has the reference. */
  lemma RefundFindsItsPayment(db: Tables, r: Request, pay: TxId)
    requires Structure(db) && r.Refund? && RefMatches(db, pay, r.merchant, r.ref) && db.ledger[pay].IsRefundable()
    ensures (forall ch: Choice :: RefMatches(db, ch.orig, r.merchant, r.ref) ==> Execute(db, r, ch) != Rejected(InvalidRefund)) <==>
            (forall id :: RefMatches(db, id, r.merchant, r.ref) ==> id == pay)
  {
    UnreversedIsUnrefunded(db, pay);
    if id :| RefMatches(db, id, r.merchant, r.ref) && id != pay {
      OtherIsNoPayment(db, id, pay);
      var ch := Choice(0, 0, 0, "", id, 0);
      assert Execute(db, r, ch) == Rejected(InvalidRefund);
    }
  }

  lemma OtherIsNoPayment(db: Tables, id: TxId, pay: TxId)
    requires RowsOk(db) && id in db.ledger && pay in db.ledger && id != pay && db.ledger[pay].kind == PAYMENT
    requires db.ledger[id].merchant == db.ledger[pay].merchant && db.ledger[id].ref == db.ledger[pay].ref
    ensures db.ledger[id].kind != PAYMENT
  {
    if db.ledger[id].kind == PAYMENT { SameKeySameRow(db, id, pay); }
  }

  /** A payment of 1. */
  function PayOne(m: Uuid, ref: string, w: WalletId, id: TxId): Event {
    Commitment(Pay(m, ref, 1, VND, "", "", None), Choice(w, id, 0, "", 0, 0))
  }

  lemma PayOneCommits(db: Tables, m: Uuid, ref: string, w: WalletId, id: TxId)
    requires id !in db.ledger && SafeId(ref) && |ref| <= 100 && PaymentKey(m, ref) !in db.log
    requires WalletMatches(db, w, m, VND) && db.wallets[w].balance >= 1
    ensures var paid := Apply(db, PayOne(m, ref, w, id));
            && paid.Some? && RefMatches(paid.value, id, m, ref) && paid.value.ledger[id].IsRefundable()
            && paid.value.ledger[id].wallet == w
            && paid.value.ledger.Keys == db.ledger.Keys + {id}
            && PaymentKey(m, ref) in paid.value.log && paid.value.log[PaymentKey(m, ref)].response.amount == 1
            && paid.value.log[PaymentKey(m, ref)].response.ref == ref
            && forall x :: x in db.ledger ==> paid.value.ledger[x] == db.ledger[x]
  {
    var e := PayOne(m, ref, w, id);
    assert Execute(db, e.req, e.ch) == Post(db, e.req, e.ch, 1);
  }

  /** And a clash can always be made: after any refund a merchant with a balance can pay under the refund row's own
      reference, if that is unused, and a refund of that payment may then be turned away although it was never refunded. */
  lemma {:induction false} NameClash(db: Tables, x: TxId, id: TxId)
    requires LedgerInv(db) && x in db.ledger && db.ledger[x].kind == REFUND && id !in db.ledger
    requires db.ledger[x].wallet in db.wallets && db.wallets[db.ledger[x].wallet].balance >= 1
    requires PaymentKey(db.ledger[x].merchant, db.ledger[x].ref) !in db.log
    ensures var t := db.ledger[x]; var paid := Apply(db, PayOne(t.merchant, t.ref, t.wallet, id));
            && paid.Some? && id in paid.value.ledger && paid.value.ledger[id].IsRefundable() && !RefundExists(paid.value, id)
            && exists ch: Choice :: RefMatches(paid.value, ch.orig, t.merchant, t.ref) &&
                 Execute(paid.value, Refund(t.merchant, t.ref, None, "", "", ""), ch) == Rejected(InvalidRefund)
  {
    var t := db.ledger[x];
    RefundRefIsValid(db, x);
    PayOneCommits(db, t.merchant, t.ref, t.wallet, id);
    ApplyInv(db, PayOne(t.merchant, t.ref, t.wallet, id));
    ClashTurnsAway(Apply(db, PayOne(t.merchant, t.ref, t.wallet, id)).value, x, id);
  }

  lemma ClashTurnsAway(db: Tables, x: TxId, pay: TxId)
    requires Structure(db) && x in db.ledger && x != pay
    requires RefMatches(db, pay, db.ledger[x].merchant, db.ledger[x].ref) && db.ledger[pay].IsRefundable()
    ensures !RefundExists(db, pay)
    ensures var t := db.ledger[x];
            exists ch: Choice :: RefMatches(db, ch.orig, t.merchant, t.ref) &&
              Execute(db, Refund(t.merchant, t.ref, None, "", "", ""), ch) == Rejected(InvalidRefund)
  {
    var t := db.ledger[x];
    UnreversedIsUnrefunded(db, pay);
    RefundFindsItsPayment(db, Refund(t.merchant, t.ref, None, "", "", ""), pay);
    assert RefMatches(db, x, t.merchant, t.ref);
  }

  /** The reference of a refund row passes the validators as the name of a payment. */
  lemma RefundRefIsValid(db: Tables, x: TxId)
    requires Structure(db) && x in db.ledger && db.ledger[x].kind == REFUND
    ensures SafeId(db.ledger[x].ref) && |db.ledger[x].ref| <= 100
    ensures WalletMatches(db, db.ledger[x].wallet, db.ledger[x].merchant, VND)
  {
    assert RowOk(db, x);
    assert RowOk(db, db.ledger[x].original.value);
    var o := db.ledger[db.ledger[x].original.value];
    SafeAppend(REFUND_PREFIX, o.ref);
  }

  // ---- top-ups that overflow ----

  const BIG := AMOUNT_LIMIT - 1

  function TopUpEvent(n: nat): Event {
    Commitment(TopUp(NIL_UUID, BIG, VND), Choice(0, n, 0, "", 0, 0))
  }

  /** One merchant who only tops up. */
  function TopUpHistory(n: nat): seq<Event> {
    if n == 0 then [Registration(0, NIL_UUID)] else TopUpHistory(n - 1) + [TopUpEvent(n)]
  }

  /** The tables after `n` of them, as far as the next request looks. */
  ghost predicate ToppedUp(db: Option<Tables>, n: nat) {
    db.Some? && WalletMatches(db.value, 0, NIL_UUID, VND) && db.value.wallets[0].balance == Wrap64(n * BIG) &&
    db.value.log == map[] && forall id :: id in db.value.ledger ==> id <= n
  }

  lemma TopUpOnce(db: Tables, n: nat)
    requires n > 0 && ToppedUp(Some(db), n - 1)
    ensures ToppedUp(Apply(db, TopUpEvent(n)), n)
  {
    var r, ch := TopUpEvent(n).req, TopUpEvent(n).ch;
    assert |TopUpRef(NIL_UUID, 0)| == 16;
    assert Execute(db, r, ch) == Post(db, r, ch, BIG);
    Wrap64Add((n - 1) * BIG, BIG);
    assert (n - 1) * BIG + BIG == n * BIG;
  }

  lemma TopUpStart()
    ensures Replay(TopUpHistory(0)) == Some(Registered(EMPTY, 0, NIL_UUID)) && ToppedUp(Replay(TopUpHistory(0)), 0)
  {
    ReplayExtend([], Registration(0, NIL_UUID));
    assert [] + [Registration(0, NIL_UUID)] == TopUpHistory(0);
  }

  lemma {:induction false} TopUpBalance(n: nat)
    ensures ToppedUp(Replay(TopUpHistory(n)), n)
  {
    if n == 0 {
      TopUpStart();
    } else {
      TopUpBalance(n - 1);
      TopUpOnce(Replay(TopUpHistory(n - 1)).value, n);
      ReplayExtend(TopUpHistory(n - 1), TopUpEvent(n));
    }
  }

  /** The top-up addition has no range check: ten top-ups that each fit the amount column leave a negative balance. */
  lemma TopUpsCanWrap()
    ensures ToppedUp(Replay(TopUpHistory(10)), 10) && Replay(TopUpHistory(10)).value.wallets[0].balance < 0
  {
    TopUpBalance(10);
    assert Wrap64(10 * BIG) < 0;
  }

  // ---- a payment that cannot be refunded ----

  /** Register, top up, pay under `ref`. */
  function PaidHistory(ref: string): seq<Event> {
    TopUpHistory(1) + [PayOne(NIL_UUID, ref, 0, 2)]
  }

  lemma PaidUnder(ref: string)
    requires SafeId(ref) && |ref| <= 100
    ensures var paid := Replay(PaidHistory(ref));
            && paid.Some? && RefMatches(paid.value, 2, NIL_UUID, ref) && paid.value.ledger[2].IsRefundable()
            && paid.value.ledger[2].wallet == 0 && 3 !in paid.value.ledger && PaidOne(paid.value, ref)
  {
    TopUpBalance(1);
    assert Wrap64(1 * BIG) >= 1;
    ReplayExtend(TopUpHistory(1), PayOne(NIL_UUID, ref, 0, 2));
    PayOneCommits(Replay(TopUpHistory(1)).value, NIL_UUID, ref, 0, 2);
  }

  /** The payment of 1 under `ref` is logged. */
  ghost predicate PaidOne(db: Tables, ref: string) {
    var k := PaymentKey(NIL_UUID, ref);
    k in db.log && db.log[k].response.amount == 1 && db.log[k].response.ref == ref
  }

  /** Every valid reference of 94 to 100 characters can be paid under, by this history, and its refund,
      though eligible, is refused with an internal error. */
  lemma LongRefCannotBeRefunded(ref: string)
    requires SafeId(ref) && 93 < |ref| <= 100
    ensures var paid := Replay(PaidHistory(ref));
            && paid.Some? && RefMatches(paid.value, 2, NIL_UUID, ref) && paid.value.ledger[2].IsRefundable()
            && Execute(paid.value, Refund(NIL_UUID, ref, None, "", "", ""), Choice(0, 3, 0, "", 2, 0)) == Rejected(Internal)
  {
    PaidUnder(ref);
    ReplayInv(PaidHistory(ref));
    RefundNeedsShortRef(Replay(PaidHistory(ref)).value, Refund(NIL_UUID, ref, None, "", "", ""), Choice(0, 3, 0, "", 2, 0));
  }

  // ---- a retry with another amount ----

  /** A retry is never compared with the first request: after a payment of 1, a request of any amount under the same
      reference is answered with that payment, so with the amount asked for exactly if that is 1. */
  lemma RetryIgnoresAmount(ref: string, amount: int, ch: Choice)
    requires SafeId(ref) && |ref| <= 100 && amount > 0
    ensures var paid := Replay(PaidHistory(ref));
            paid.Some? &&
            var o := Execute(paid.value, Pay(NIL_UUID, ref, amount, VND, "", "", None), ch);
            o.Replayed? && o.response.ref == ref && (o.response.amount == amount <==> amount == 1)
  {
    PaidUnder(ref);
  }
}
