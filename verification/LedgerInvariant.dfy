/** What every sequential history keeps true of the tables. */
module LedgerInvariant {
  import opened Domain
  import opened Keys
  import opened Ledger
  import opened Sums

  // ---- structure: references between rows, and the idempotency log ----

  /** A refund row points to a reversed payment of the same merchant and wallet that covers its amount. */
  ghost predicate RefundLinked(db: Tables, t: Transaction) {
    t.original.Some? && t.original.value in db.ledger &&
    var o := db.ledger[t.original.value];
    o.kind == PAYMENT && o.status == REVERSED && o.merchant == t.merchant && o.wallet == t.wallet &&
    t.amount <= o.amount && t.ref == REFUND_PREFIX + o.ref
  }

  /** The idempotency key under which a payment or refund row was logged. */
  ghost function RowKey(db: Tables, t: Transaction): string {
    if t.kind == REFUND && t.original.Some? && t.original.value in db.ledger
    then RefundKey(t.merchant, db.ledger[t.original.value].ref)
    else PaymentKey(t.merchant, t.ref)
  }

  ghost predicate Logged(db: Tables, t: Transaction) {
    var k := RowKey(db, t);
    k in db.log && db.log[k] == LogEntry(t.id, Marshal(AsCreated(t)))
  }

  ghost predicate RowOk(db: Tables, id: TxId)
    requires id in db.ledger
  {
    var t := db.ledger[id];
    && t.id == id && 0 < t.amount && Storable(t)
    && t.wallet in db.wallets && db.wallets[t.wallet].merchant == t.merchant
    && (t.status == SUCCESS || (t.status == REVERSED && t.kind == PAYMENT))
    && (t.kind == PAYMENT ==> SafeId(t.ref))
    && (t.kind == REFUND ==> RefundLinked(db, t))
    && (t.kind != REFUND ==> t.original == None)
    && (t.kind != TOPUP ==> Logged(db, t))
  }

  ghost predicate RowsOk(db: Tables) {
    forall id :: id in db.ledger ==> RowOk(db, id)
  }

  ghost predicate EntryOk(db: Tables, k: string)
    requires k in db.log
  {
    var id := db.log[k].txId;
    id in db.ledger && db.ledger[id].kind != TOPUP && RowKey(db, db.ledger[id]) == k
  }

  ghost predicate LogOk(db: Tables) {
    forall k :: k in db.log ==> EntryOk(db, k)
  }

  ghost predicate RefundedBy(db: Tables, id: TxId, r: TxId) {
    r in db.ledger && db.ledger[r].kind == REFUND && db.ledger[r].original == Some(id)
  }

  ghost predicate ReversalsOk(db: Tables) {
    forall id :: id in db.ledger && db.ledger[id].status == REVERSED ==> exists r :: RefundedBy(db, id, r)
  }

  ghost predicate WalletsOk(db: Tables) {
    && (forall w :: w in db.wallets ==> db.wallets[w].currency == VND && InInt64(db.wallets[w].balance))
    && (forall v, w :: v in db.wallets && w in db.wallets && db.wallets[v].merchant == db.wallets[w].merchant ==> v == w)
  }

  ghost predicate Structure(db: Tables) {
    RowsOk(db) && LogOk(db) && ReversalsOk(db) && WalletsOk(db)
  }

  // ---- money: sums of the rows of one wallet ----

  function TopUps(w: WalletId): Transaction -> int {
    (t: Transaction) => if t.wallet == w && t.kind == TOPUP then t.amount else 0
  }

  function Payments(w: WalletId): Transaction -> int {
    (t: Transaction) => if t.wallet == w && t.kind == PAYMENT then t.amount else 0
  }

  function Refunds(w: WalletId): Transaction -> int {
    (t: Transaction) => if t.wallet == w && t.kind == REFUND then t.amount else 0
  }

  function ReversedPayments(w: WalletId): Transaction -> int {
    (t: Transaction) => if t.wallet == w && t.kind == PAYMENT && t.status == REVERSED then t.amount else 0
  }

  function RefundCount(w: WalletId): Transaction -> int {
    (t: Transaction) => if t.wallet == w && t.kind == REFUND then 1 else 0
  }

  function ReversedCount(w: WalletId): Transaction -> int {
    (t: Transaction) => if t.wallet == w && t.status == REVERSED then 1 else 0
  }

  /** Top-ups minus all payments, refunded or not, plus refunds. */
  ghost function Net(db: Tables, w: WalletId): int {
    Sum(db.ledger, TopUps(w)) - Sum(db.ledger, Payments(w)) + Sum(db.ledger, Refunds(w))
  }

  /** What reversed payments took and their refunds did not give back. */
  ghost function Kept(db: Tables, w: WalletId): int {
    Sum(db.ledger, ReversedPayments(w)) - Sum(db.ledger, Refunds(w))
  }

  ghost predicate FullRefund(db: Tables, id: TxId)
    requires id in db.ledger
  {
    var t := db.ledger[id];
    t.original.Some? && t.original.value in db.ledger && db.ledger[t.original.value].amount == t.amount
  }

  ghost predicate AllRefundsFull(db: Tables, w: WalletId) {
    forall id :: id in db.ledger && db.ledger[id].kind == REFUND && db.ledger[id].wallet == w ==> FullRefund(db, id)
  }

  ghost predicate MoneyOk(db: Tables, w: WalletId)
    requires w in db.wallets
  {
    && db.wallets[w].balance == Wrap64(Net(db, w))
    && (Sum(db.ledger, TopUps(w)) <= MAX_INT64 ==> 0 <= Net(db, w))
    && 0 <= Sum(db.ledger, TopUps(w))
    && Net(db, w) <= Sum(db.ledger, TopUps(w))
    && 0 <= Kept(db, w)
    && (Kept(db, w) == 0 <==> AllRefundsFull(db, w))
    && Sum(db.ledger, RefundCount(w)) == Sum(db.ledger, ReversedCount(w))
  }

  ghost predicate Money(db: Tables) {
    forall w :: w in db.wallets ==> MoneyOk(db, w)
  }

  ghost predicate LedgerInv(db: Tables) {
    Structure(db) && Money(db)
  }

  // ---- one committed request ----

  /** What a request has passed when its writes are applied. */
  ghost predicate Admitted(db: Tables, r: Request, ch: Choice, amount: int) {
    && ValidRequest(r) && ch.id !in db.ledger && 0 < amount
    && ch.wallet in db.wallets && db.wallets[ch.wallet].merchant == r.merchant
    && (!r.TopUp? ==> KeyOf(r) !in db.log)
    && (r.Pay? ==> amount <= db.wallets[ch.wallet].balance)
    && (r.Refund? ==>
          && RefMatches(db, ch.orig, r.merchant, r.ref)
          && db.ledger[ch.orig].IsRefundable() && db.ledger[ch.orig].wallet == ch.wallet
          && amount <= db.ledger[ch.orig].amount)
    && Storable(NewRow(r, ch, amount))
  }

  lemma ExecuteAdmits(db: Tables, r: Request, ch: Choice) returns (amount: int)
    requires Structure(db) && ValidRequest(r) && ch.id !in db.ledger
    requires Execute(db, r, ch).Committed?
    ensures Admitted(db, r, ch, amount)
    ensures Execute(db, r, ch) == Post(db, r, ch, amount)
  {
    amount := if r.Refund? then RefundAmount(r, db.ledger[ch.orig]) else r.amount;
    if r.Refund? {
      assert RowOk(db, ch.orig);
    }
  }

  lemma PostNewRow(db: Tables, r: Request, ch: Choice, amount: int, db': Tables)
    requires Admitted(db, r, ch, amount) && (r.Refund? ==> RowOk(db, ch.orig))
    requires db' == Post(db, r, ch, amount).db
    ensures RowOk(db', ch.id)
  {
    assert db'.ledger[ch.id] == NewRow(r, ch, amount);
  }

  lemma PostOldRow(db: Tables, r: Request, ch: Choice, amount: int, db': Tables, id: TxId)
    requires Admitted(db, r, ch, amount) && id in db.ledger && RowOk(db, id)
    requires db' == Post(db, r, ch, amount).db
    ensures RowOk(db', id)
  {
    var t := db.ledger[id];
    if t.kind == REFUND {
      assert t.original.value != ch.orig || !r.Refund?;
      assert db'.ledger[t.original.value] == db.ledger[t.original.value];
    }
    assert RowKey(db', db'.ledger[id]) == RowKey(db, t);
  }

  lemma PostRows(db: Tables, r: Request, ch: Choice, amount: int, db': Tables)
    requires RowsOk(db) && Admitted(db, r, ch, amount)
    requires db' == Post(db, r, ch, amount).db
    ensures RowsOk(db')
  {
    if r.Refund? { assert RowOk(db, ch.orig); }
    PostNewRow(db, r, ch, amount, db');
    forall id | id in db'.ledger && id != ch.id ensures RowOk(db', id) {
      assert RowOk(db, id);
      PostOldRow(db, r, ch, amount, db', id);
    }
  }

  lemma PostOldEntry(db: Tables, r: Request, ch: Choice, amount: int, db': Tables, k: string)
    requires Admitted(db, r, ch, amount) && k in db.log && EntryOk(db, k) && RowOk(db, db.log[k].txId)
    requires db' == Post(db, r, ch, amount).db
    ensures k in db'.log && EntryOk(db', k)
  {
    var t := db.ledger[db.log[k].txId];
    assert RowKey(db', db'.ledger[t.id]) == k;
  }

  lemma PostLog(db: Tables, r: Request, ch: Choice, amount: int, db': Tables)
    requires Structure(db) && Admitted(db, r, ch, amount)
    requires db' == Post(db, r, ch, amount).db
    ensures LogOk(db')
  {
    assert db'.ledger[ch.id] == NewRow(r, ch, amount);
    forall k | k in db'.log ensures EntryOk(db', k) {
      if k in db.log {
        assert EntryOk(db, k) && RowOk(db, db.log[k].txId);
        PostOldEntry(db, r, ch, amount, db', k);
      }
    }
  }

  /** A row keeps its kind and what it points to. */
  lemma PostKeepsLinks(db: Tables, r: Request, ch: Choice, amount: int, db': Tables, id: TxId)
    requires Admitted(db, r, ch, amount) && id in db.ledger
    requires db' == Post(db, r, ch, amount).db
    ensures id in db'.ledger && db'.ledger[id].kind == db.ledger[id].kind && db'.ledger[id].original == db.ledger[id].original
    ensures db'.ledger[id].status == REVERSED <==> db.ledger[id].status == REVERSED || (r.Refund? && id == ch.orig)
  {
  }

  lemma PostReversals(db: Tables, r: Request, ch: Choice, amount: int, db': Tables)
    requires ReversalsOk(db) && Admitted(db, r, ch, amount)
    requires db' == Post(db, r, ch, amount).db
    ensures ReversalsOk(db')
  {
    forall id | id in db'.ledger && db'.ledger[id].status == REVERSED
      ensures exists x :: RefundedBy(db', id, x)
    {
      if r.Refund? && id == ch.orig {
        assert RefundedBy(db', id, ch.id);
      } else {
        PostKeepsLinks(db, r, ch, amount, db', id);
        var x :| RefundedBy(db, id, x);
        PostKeepsLinks(db, r, ch, amount, db', x);
        assert RefundedBy(db', id, x);
      }
    }
  }

  lemma PostWallets(db: Tables, r: Request, ch: Choice, amount: int, db': Tables)
    requires WalletsOk(db) && Admitted(db, r, ch, amount)
    requires db' == Post(db, r, ch, amount).db
    ensures WalletsOk(db')
  {
  }

  /** How a committed request changes a sum: the new row counts, and a refunded payment counts as reversed. */
  lemma PostSum(db: Tables, r: Request, ch: Choice, amount: int, db': Tables, f: Transaction -> int)
    requires Admitted(db, r, ch, amount)
    requires db' == Post(db, r, ch, amount).db
    ensures Sum(db'.ledger, f) == Sum(db.ledger, f) + f(NewRow(r, ch, amount)) +
            if r.Refund? then f(MarkReversed(db.ledger[ch.orig], ch.reversedAt)) - f(db.ledger[ch.orig]) else 0
  {
    var txn := NewRow(r, ch, amount);
    SumInsert(db.ledger, ch.id, txn, f);
    if r.Refund? {
      SumUpdate(db.ledger[ch.id := txn], ch.orig, MarkReversed(db.ledger[ch.orig], ch.reversedAt), f);
    }
  }

  /** Refund rows point into the table. */
  ghost predicate Linked(ledger: Rows) {
    forall id :: id in ledger && ledger[id].kind == REFUND ==> ledger[id].original.Some? && ledger[id].original.value in ledger
  }

  lemma RowsLinked(db: Tables)
    requires RowsOk(db)
    ensures Linked(db.ledger)
  {
    forall id | id in db.ledger && db.ledger[id].kind == REFUND ensures RowOk(db, id) { assert RowOk(db, id); }
  }

  lemma InsertFull(db: Tables, db': Tables, id: TxId, t: Transaction, w: WalletId)
    requires Linked(db.ledger) && id !in db.ledger && db'.ledger == db.ledger[id := t]
    ensures AllRefundsFull(db', w) <==> AllRefundsFull(db, w) && (t.kind == REFUND && t.wallet == w ==> FullRefund(db', id))
  {
    forall x | x in db.ledger && db.ledger[x].kind == REFUND
      ensures FullRefund(db', x) <==> FullRefund(db, x)
    {
      assert db.ledger[x].original.value != id;
    }
    if AllRefundsFull(db', w) {
      forall x | x in db.ledger && db.ledger[x].kind == REFUND && db.ledger[x].wallet == w ensures FullRefund(db, x) {
        assert db'.ledger[x] == db.ledger[x];
        assert FullRefund(db', x);
      }
    }
  }

  lemma ReverseFull(db: Tables, db': Tables, orig: TxId, at: int, w: WalletId)
    requires orig in db.ledger && db.ledger[orig].kind == PAYMENT
    requires db'.ledger == db.ledger[orig := MarkReversed(db.ledger[orig], at)]
    ensures AllRefundsFull(db', w) <==> AllRefundsFull(db, w)
  {
    forall x | x in db.ledger ensures FullRefund(db', x) <==> FullRefund(db, x) {
      var o := db.ledger[x].original;
      assert o.Some? && o.value in db.ledger ==> db'.ledger[o.value].amount == db.ledger[o.value].amount;
    }
    if AllRefundsFull(db', w) {
      forall x | x in db.ledger && db.ledger[x].kind == REFUND && db.ledger[x].wallet == w ensures FullRefund(db, x) {
        assert db'.ledger[x] == db.ledger[x];
      }
    }
  }

  lemma PostFull(db: Tables, r: Request, ch: Choice, amount: int, db': Tables, w: WalletId)
    requires Linked(db.ledger) && Admitted(db, r, ch, amount)
    requires db' == Post(db, r, ch, amount).db
    ensures AllRefundsFull(db', w) <==>
            AllRefundsFull(db, w) && (r.Refund? && ch.wallet == w ==> amount == db.ledger[ch.orig].amount)
  {
    var txn := NewRow(r, ch, amount);
    var mid := db.(ledger := db.ledger[ch.id := txn]);
    InsertFull(db, mid, ch.id, txn, w);
    if r.Refund? {
      ReverseFull(mid, db', ch.orig, ch.reversedAt, w);
    }
  }

  /** The effect on the sums of wallet `w`. */
  lemma PostSums(db: Tables, r: Request, ch: Choice, amount: int, db': Tables, w: WalletId)
    requires Admitted(db, r, ch, amount)
    requires db' == Post(db, r, ch, amount).db
    ensures var on := ch.wallet == w;
            && Sum(db'.ledger, TopUps(w)) == Sum(db.ledger, TopUps(w)) + (if on && r.TopUp? then amount else 0)
            && Sum(db'.ledger, Payments(w)) == Sum(db.ledger, Payments(w)) + (if on && r.Pay? then amount else 0)
            && Sum(db'.ledger, Refunds(w)) == Sum(db.ledger, Refunds(w)) + (if on && r.Refund? then amount else 0)
  {
    PostSum(db, r, ch, amount, db', TopUps(w));
    PostSum(db, r, ch, amount, db', Payments(w));
    PostSum(db, r, ch, amount, db', Refunds(w));
  }

  lemma PostReversed(db: Tables, r: Request, ch: Choice, amount: int, db': Tables, w: WalletId)
    requires Admitted(db, r, ch, amount)
    requires db' == Post(db, r, ch, amount).db
    ensures Sum(db'.ledger, ReversedPayments(w)) == Sum(db.ledger, ReversedPayments(w)) +
            (if ch.wallet == w && r.Refund? then db.ledger[ch.orig].amount else 0)
  {
    PostSum(db, r, ch, amount, db', ReversedPayments(w));
  }

  lemma PostCounts(db: Tables, r: Request, ch: Choice, amount: int, db': Tables, w: WalletId)
    requires Admitted(db, r, ch, amount)
    requires db' == Post(db, r, ch, amount).db
    ensures Sum(db'.ledger, RefundCount(w)) - Sum(db.ledger, RefundCount(w)) ==
            Sum(db'.ledger, ReversedCount(w)) - Sum(db.ledger, ReversedCount(w))
  {
    PostSum(db, r, ch, amount, db', RefundCount(w));
    PostSum(db, r, ch, amount, db', ReversedCount(w));
  }

  lemma PostBalance(db: Tables, r: Request, ch: Choice, amount: int, db': Tables, w: WalletId)
    requires Admitted(db, r, ch, amount)
    requires db' == Post(db, r, ch, amount).db
    requires w in db.wallets && db.wallets[w].balance == Wrap64(Net(db, w))
    requires Net(db', w) == Net(db, w) + if ch.wallet != w then 0 else if r.Pay? then -amount else amount
    ensures w in db'.wallets && db'.wallets[w].balance == Wrap64(Net(db', w))
  {
    if ch.wallet == w {
      NewBalanceTracks(r, Net(db, w), amount);
    }
  }

  /** Wrapped arithmetic follows the mathematical value. */
  lemma NewBalanceTracks(r: Request, net: int, amount: int)
    ensures NewBalance(r, Wrap64(net), amount) == Wrap64(net + if r.Pay? then -amount else amount)
  {
    Wrap64Add(net, if r.Pay? then -amount else amount);
  }

  lemma PostNet(db: Tables, r: Request, ch: Choice, amount: int, db': Tables, w: WalletId)
    requires Admitted(db, r, ch, amount) && RowsOk(db')
    requires db' == Post(db, r, ch, amount).db
    requires w in db.wallets && MoneyOk(db, w)
    ensures Net(db', w) == Net(db, w) + if ch.wallet != w then 0 else if r.Pay? then -amount else amount
    ensures Sum(db'.ledger, TopUps(w)) <= MAX_INT64 ==> 0 <= Net(db', w)
    ensures 0 <= Sum(db'.ledger, TopUps(w))
  {
    PostSums(db, r, ch, amount, db', w);
    CoverFunds(db, w, r, amount, ch);
  }

  /** What a refund keeps back grows by what it leaves of its original. */
  lemma PostKept(db: Tables, r: Request, ch: Choice, amount: int, db': Tables, w: WalletId)
    requires RowsOk(db) && Admitted(db, r, ch, amount)
    requires db' == Post(db, r, ch, amount).db
    requires w in db.wallets && MoneyOk(db, w)
    ensures 0 <= Kept(db', w) && (Kept(db', w) == 0 <==> AllRefundsFull(db', w))
  {
    PostSums(db, r, ch, amount, db', w);
    PostReversed(db, r, ch, amount, db', w);
    RowsLinked(db);
    PostFull(db, r, ch, amount, db', w);
  }

  lemma PostMoney(db: Tables, r: Request, ch: Choice, amount: int, db': Tables, w: WalletId)
    requires RowsOk(db) && Admitted(db, r, ch, amount)
    requires db' == Post(db, r, ch, amount).db && RowsOk(db')
    requires w in db.wallets && MoneyOk(db, w)
    ensures w in db'.wallets && MoneyOk(db', w)
  {
    PostNet(db, r, ch, amount, db', w);
    PostKept(db, r, ch, amount, db', w);
    PostCounts(db, r, ch, amount, db', w);
    PaymentsSplit(db', w);
    PostBalance(db, r, ch, amount, db', w);
  }

  /** Under the top-up bound the stored balance is the net, so a payment it covers leaves a net of at least zero. */
  lemma CoverFunds(db: Tables, w: WalletId, r: Request, amount: int, ch: Choice)
    requires w in db.wallets && MoneyOk(db, w)
    requires r.Pay? && ch.wallet == w ==> amount <= db.wallets[w].balance
    ensures Sum(db.ledger, TopUps(w)) <= MAX_INT64 && r.Pay? && ch.wallet == w ==> amount <= Net(db, w)
  {
  }

  /** Payments cover the reversed ones, so a net below the top-ups is kept by what refunds may give back. */
  lemma PaymentsSplit(db: Tables, w: WalletId)
    requires RowsOk(db)
    ensures Sum(db.ledger, ReversedPayments(w)) <= Sum(db.ledger, Payments(w))
  {
    var live := (t: Transaction) => Payments(w)(t) - ReversedPayments(w)(t);
    SumSplit(db.ledger, Payments(w), ReversedPayments(w), live);
    forall id | id in db.ledger ensures live(db.ledger[id]) >= 0 { assert RowOk(db, id); }
    SumNonNegative(db.ledger, live);
  }

  lemma RegisteredStructure(db: Tables, w: WalletId, m: Uuid)
    requires Structure(db) && CanRegister(db, w, m)
    ensures Structure(Registered(db, w, m))
  {
    var db' := Registered(db, w, m);
    forall id | id in db'.ledger ensures RowOk(db', id) {
      assert RowOk(db, id);
      assert RowKey(db', db'.ledger[id]) == RowKey(db, db.ledger[id]);
    }
    forall k | k in db'.log ensures EntryOk(db', k) { assert EntryOk(db, k); }
    forall id | id in db'.ledger && db'.ledger[id].status == REVERSED ensures exists x :: RefundedBy(db', id, x) {
      var x :| RefundedBy(db, id, x);
      assert RefundedBy(db', id, x);
    }
  }

  /** The money of a wallet depends on the ledger and on its own row only. */
  lemma SameMoney(db: Tables, db': Tables, v: WalletId)
    requires v in db.wallets && v in db'.wallets && db'.wallets[v] == db.wallets[v] && db'.ledger == db.ledger
    requires MoneyOk(db, v)
    ensures MoneyOk(db', v)
  {
    assert forall id :: id in db.ledger ==> (FullRefund(db', id) <==> FullRefund(db, id));
  }

  lemma NewWalletMoney(db: Tables, w: WalletId)
    requires w in db.wallets && db.wallets[w].balance == 0
    requires forall id :: id in db.ledger ==> db.ledger[id].wallet != w
    ensures MoneyOk(db, w)
  {
    NoRows(db, w);
  }

  lemma RegisteredMoney(db: Tables, w: WalletId, m: Uuid)
    requires LedgerInv(db) && CanRegister(db, w, m)
    ensures Money(Registered(db, w, m))
  {
    var db' := Registered(db, w, m);
    forall v | v in db'.wallets ensures MoneyOk(db', v) {
      if v == w {
        forall id | id in db.ledger ensures db.ledger[id].wallet != w { assert RowOk(db, id); }
        NewWalletMoney(db', w);
      } else {
        assert MoneyOk(db, v);
        SameMoney(db, db', v);
      }
    }
  }

  /** All sums of a wallet without rows are zero. */
  lemma NoRows(db: Tables, w: WalletId)
    requires forall id :: id in db.ledger ==> db.ledger[id].wallet != w
    ensures Sum(db.ledger, TopUps(w)) == Sum(db.ledger, Payments(w)) == Sum(db.ledger, Refunds(w)) ==
            Sum(db.ledger, ReversedPayments(w)) == Sum(db.ledger, RefundCount(w)) == Sum(db.ledger, ReversedCount(w)) == 0
    ensures AllRefundsFull(db, w)
  {
    var zero := (t: Transaction) => 0;
    SumSplit(db.ledger, zero, zero, zero);
    SumSame(db.ledger, TopUps(w), zero);
    SumSame(db.ledger, Payments(w), zero);
    SumSame(db.ledger, Refunds(w), zero);
    SumSame(db.ledger, ReversedPayments(w), zero);
    SumSame(db.ledger, RefundCount(w), zero);
    SumSame(db.ledger, ReversedCount(w), zero);
  }

  lemma {:induction false} ApplyInv(db: Tables, e: Event)
    requires LedgerInv(db) && Apply(db, e).Some?
    ensures LedgerInv(Apply(db, e).value)
  {
    match e
    case Registration(w, m) =>
      RegisteredStructure(db, w, m);
      RegisteredMoney(db, w, m);
    case Commitment(r, ch) =>
      var amount := ExecuteAdmits(db, r, ch);
      var db' := Apply(db, e).value;
      PostRows(db, r, ch, amount, db');
      PostLog(db, r, ch, amount, db');
      PostReversals(db, r, ch, amount, db');
      PostWallets(db, r, ch, amount, db');
      forall w | w in db'.wallets ensures MoneyOk(db', w) {
        assert MoneyOk(db, w);
        PostMoney(db, r, ch, amount, db', w);
      }
  }

  /** Every history that the sequential specification accepts ends in good tables. */
  lemma {:induction false} ReplayInv(h: seq<Event>)
    requires Replay(h).Some?
    ensures LedgerInv(Replay(h).value)
  {
    if h == [] {
    } else {
      ReplayInv(h[..|h| - 1]);
      ApplyInv(Replay(h[..|h| - 1]).value, h[|h| - 1]);
    }
  }
}
