/** One amount, topped up once and paid and refunded over and over: the refunded total outgrows int64. */
module Cycles {
  import opened Domain
  import opened Keys
  import opened Sums
  import opened Ledger
  import opened LedgerInvariant
  import opened Limits
  import opened Reporting
  import Decimal

  function PayBig(ref: string, id: TxId): Event {
    Commitment(Pay(NIL_UUID, ref, BIG, VND, "", "", None), Choice(0, id, 0, "", 0, 0))
  }

  function RefundBig(ref: string, orig: TxId): Event {
    Commitment(Refund(NIL_UUID, ref, None, "", "", ""), Choice(0, orig + 1, 0, "", orig, 0))
  }

  function Paying(n: nat): Event {
    PayBig(Decimal.Digits(n), 2 * n + 2)
  }

  function Refunding(n: nat): Event {
    RefundBig(Decimal.Digits(n), 2 * n + 2)
  }

  function CycleHistory(n: nat): seq<Event> {
    if n == 0 then TopUpHistory(1) else CycleHistory(n - 1) + [Paying(n - 1)] + [Refunding(n - 1)]
  }

  function PayKey(i: nat): string {
    PaymentKey(NIL_UUID, Decimal.Digits(i))
  }

  function BackKey(i: nat): string {
    RefundKey(NIL_UUID, Decimal.Digits(i))
  }

  /** The keys of later cycles are free. */
  ghost predicate Unused(db: Tables, n: nat) {
    forall i: nat :: i >= n ==> PayKey(i) !in db.log && BackKey(i) !in db.log
  }

  ghost predicate Totals(db: Tables, refunded: int) {
    Sum(db.ledger, TopUps(0)) == BIG && Sum(db.ledger, Refunds(0)) == refunded
  }

  ghost predicate Holding(db: Tables, balance: int, last: int) {
    WalletMatches(db, 0, NIL_UUID, VND) && db.wallets[0].balance == balance && forall id :: id in db.ledger ==> id <= last
  }

  /** The payment `id` of the whole amount, not refunded. */
  ghost predicate PaidBig(db: Tables, ref: string, id: TxId) {
    RefMatches(db, id, NIL_UUID, ref) && db.ledger[id].IsRefundable() && db.ledger[id].wallet == 0 && db.ledger[id].amount == BIG
  }

  /** Between two cycles. */
  ghost predicate Cycled(db: Tables, n: nat) {
    Holding(db, BIG, 2 * n + 1) && Totals(db, n * BIG) && Unused(db, n)
  }

  /** Inside a cycle: paid, and not yet refunded. */
  ghost predicate Halfway(db: Tables, n: nat) {
    Holding(db, 0, 2 * n + 2) && Totals(db, n * BIG) && Unused(db, n + 1) && PaidBig(db, Decimal.Digits(n), 2 * n + 2)
  }

  lemma ShortDigits(n: nat)
    requires n < 10
    ensures |Decimal.Digits(n)| == 1 && SafeId(Decimal.Digits(n))
  {
  }

  /** The keys of different cycles differ. */
  lemma KeysApart(i: nat, j: nat)
    requires i != j
    ensures PayKey(i) != PayKey(j) && BackKey(i) != BackKey(j) && PayKey(i) != BackKey(j)
  {
    var a, b := Decimal.Digits(i), Decimal.Digits(j);
    Decimal.DigitsRoundTrip(i);
    Decimal.DigitsRoundTrip(j);
    PaymentKeyInjective(NIL_UUID, a, NIL_UUID, b);
    RefundKeyInjective(NIL_UUID, a, NIL_UUID, b);
    KeyCollision(NIL_UUID, a, NIL_UUID, b);
    assert Decimal.IsDigit(a[0]);
  }

  lemma StillUnused(log: map<string, LogEntry>, log': map<string, LogEntry>, n: nat, i: nat)
    requires i > n && PayKey(i) !in log && BackKey(i) !in log
    requires log'.Keys == log.Keys + {PayKey(n)} || log'.Keys == log.Keys + {BackKey(n)}
    ensures PayKey(i) !in log' && BackKey(i) !in log'
  {
    KeysApart(i, n);
    KeysApart(n, i);
  }

  lemma PayTables(db: Tables, ref: string, id: TxId)
    requires Holding(db, BIG, id - 1) && SafeId(ref) && |ref| <= 100 && PaymentKey(NIL_UUID, ref) !in db.log
    ensures var db' := Apply(db, PayBig(ref, id));
            && db'.Some? && Holding(db'.value, 0, id) && PaidBig(db'.value, ref, id)
            && db'.value.log.Keys == db.log.Keys + {PaymentKey(NIL_UUID, ref)}
  {
    var e := PayBig(ref, id);
    assert Execute(db, e.req, e.ch) == Post(db, e.req, e.ch, BIG);
  }

  lemma EventTotals(db: Tables, e: Event, refunded: int)
    requires Structure(db) && e.Commitment? && !e.req.TopUp? && e.ch.wallet == 0 && Apply(db, e).Some? && Totals(db, refunded)
    requires e.req.Refund? ==> e.ch.orig in db.ledger && e.req.amountOpt == None
    ensures Totals(Apply(db, e).value, refunded + if e.req.Refund? then db.ledger[e.ch.orig].amount else 0)
  {
    var amount := ExecuteAdmits(db, e.req, e.ch);
    var db' := Apply(db, e).value;
    PostSums(db, e.req, e.ch, amount, db', 0);
    assert db'.ledger[e.ch.id].amount == amount;
  }

  lemma PayHalf(db: Tables, n: nat)
    requires LedgerInv(db) && n < 10 && Cycled(db, n)
    ensures Apply(db, Paying(n)).Some? && Halfway(Apply(db, Paying(n)).value, n)
  {
    ShortDigits(n);
    assert PayKey(n) !in db.log;
    PayTables(db, Decimal.Digits(n), 2 * n + 2);
    EventTotals(db, Paying(n), n * BIG);
    var db' := Apply(db, Paying(n)).value;
    forall i: nat | i >= n + 1 ensures PayKey(i) !in db'.log && BackKey(i) !in db'.log {
      StillUnused(db.log, db'.log, n, i);
    }
  }

  lemma RefundTables(db: Tables, ref: string, orig: TxId)
    requires LedgerInv(db) && Holding(db, 0, orig) && SafeId(ref) && |ref| <= 93 && PaidBig(db, ref, orig)
    ensures var db' := Apply(db, RefundBig(ref, orig));
            && db'.Some? && Holding(db'.value, BIG, orig + 1)
            && db'.value.log.Keys == db.log.Keys + {RefundKey(NIL_UUID, ref)}
  {
    var e := RefundBig(ref, orig);
    RefundNeedsShortRef(db, e.req, e.ch);
    RefundPosts(db, ref, orig);
  }

  lemma RefundPosts(db: Tables, ref: string, orig: TxId)
    requires Holding(db, 0, orig) && SafeId(ref) && |ref| <= 93 && PaidBig(db, ref, orig)
    requires Execute(db, RefundBig(ref, orig).req, RefundBig(ref, orig).ch).Committed?
    ensures var db' := Apply(db, RefundBig(ref, orig));
            && db'.Some? && Holding(db'.value, BIG, orig + 1)
            && db'.value.log.Keys == db.log.Keys + {RefundKey(NIL_UUID, ref)}
  {
    var e := RefundBig(ref, orig);
    assert Execute(db, e.req, e.ch) == Post(db, e.req, e.ch, BIG);
  }

  lemma RefundHalf(db: Tables, n: nat)
    requires LedgerInv(db) && n < 10 && Halfway(db, n)
    ensures Apply(db, Refunding(n)).Some? && Cycled(Apply(db, Refunding(n)).value, n + 1)
  {
    ShortDigits(n);
    RefundTables(db, Decimal.Digits(n), 2 * n + 2);
    RefundTotals(db, n);
    var db' := Apply(db, Refunding(n)).value;
    forall i: nat | i >= n + 1 ensures PayKey(i) !in db'.log && BackKey(i) !in db'.log {
      StillUnused(db.log, db'.log, n, i);
    }
  }

  lemma RefundTotals(db: Tables, n: nat)
    requires Structure(db) && Halfway(db, n) && Apply(db, Refunding(n)).Some?
    ensures Totals(Apply(db, Refunding(n)).value, (n + 1) * BIG)
  {
    EventTotals(db, Refunding(n), n * BIG);
    assert n * BIG + BIG == (n + 1) * BIG;
  }

  lemma CycleStart()
    ensures Replay(CycleHistory(0)).Some? && Cycled(Replay(CycleHistory(0)).value, 0)
  {
    var db := Registered(EMPTY, 0, NIL_UUID);
    TopUpStart();
    ReplayInv(TopUpHistory(0));
    TopUpBalance(1);
    assert TopUpHistory(1) == TopUpHistory(0) + [TopUpEvent(1)];
    ReplayExtend(TopUpHistory(0), TopUpEvent(1));
    FirstTopUp(db);
  }

  lemma FirstTopUp(db: Tables)
    requires LedgerInv(db) && ToppedUp(Some(db), 0) && db.ledger == map[] && Apply(db, TopUpEvent(1)).Some?
    requires ToppedUp(Apply(db, TopUpEvent(1)), 1)
    ensures Cycled(Apply(db, TopUpEvent(1)).value, 0)
  {
    var e := TopUpEvent(1);
    NoRows(db, 0);
    var amount := ExecuteAdmits(db, e.req, e.ch);
    PostSums(db, e.req, e.ch, amount, Apply(db, e).value, 0);
  }

  lemma {:induction false} CycledAfter(n: nat)
    requires n <= 10
    ensures Replay(CycleHistory(n)).Some? && Cycled(Replay(CycleHistory(n)).value, n)
  {
    if n == 0 {
      CycleStart();
    } else {
      CycledAfter(n - 1);
      var h := CycleHistory(n - 1);
      ReplayInv(h);
      PayHalf(Replay(h).value, n - 1);
      ReplayExtend(h, Paying(n - 1));
      ReplayInv(h + [Paying(n - 1)]);
      RefundHalf(Replay(h + [Paying(n - 1)]).value, n - 1);
      ReplayExtend(h + [Paying(n - 1)], Refunding(n - 1));
    }
  }

  /** After ten cycles the top-ups still fit in int64, and the statistics can no longer be read. */
  lemma StatsCanFail()
    ensures var db := Replay(CycleHistory(10));
            && db.Some? && WalletMatches(db.value, 0, NIL_UUID, VND)
            && var s := GetStats(db.value, NIL_UUID, None);
            && s.topup <= MAX_INT64 && s.refunded > MAX_INT64 && !Scans(s)
  {
    CycledAfter(10);
    ReplayInv(CycleHistory(10));
    StatsOfWallet(Replay(CycleHistory(10)).value, NIL_UUID, 0);
  }
}
