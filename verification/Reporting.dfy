/** Dashboard statistics as a view of the ledger, reconciled with the money in the wallet. */
module Reporting {
  import opened Domain
  import opened Sums
  import opened Ledger
  import opened LedgerInvariant
  import opened Protocol
  import opened ProtocolInvariant

  datatype Stats = Stats(total: int, successful: int, failed: int, reversed: int,
                         revenue: int, refunded: int, topup: int)

  /** The WHERE clause: one merchant, optionally from a moment (in seconds) on. */
  predicate Scope(m: Uuid, from: Option<int>, t: Transaction) {
    t.merchant == m && (from.Some? ==> t.createdAt >= 1000 * from.value)
  }

  function All(m: Uuid, from: Option<int>): Transaction -> int {
    (t: Transaction) => if Scope(m, from, t) then 1 else 0
  }

  function WithStatus(m: Uuid, from: Option<int>, st: Status): Transaction -> int {
    (t: Transaction) => if Scope(m, from, t) && t.status == st then 1 else 0
  }

  function Amounts(m: Uuid, from: Option<int>, kind: Kind): Transaction -> int {
    (t: Transaction) => if Scope(m, from, t) && t.kind == kind && t.status == SUCCESS then t.amount else 0
  }

  /** The aggregate query over the committed rows. */
  ghost function GetStats(db: Tables, m: Uuid, from: Option<int>): Stats {
    Stats(Sum(db.ledger, All(m, from)),
          Sum(db.ledger, WithStatus(m, from, SUCCESS)),
          Sum(db.ledger, WithStatus(m, from, FAILED)),
          Sum(db.ledger, WithStatus(m, from, REVERSED)),
          Sum(db.ledger, Amounts(m, from, PAYMENT)),
          Sum(db.ledger, Amounts(m, from, REFUND)),
          Sum(db.ledger, Amounts(m, from, TOPUP)))
  }

  /** With one wallet per merchant, the rows of a merchant are the rows of that wallet. */
  lemma MerchantIsWallet(db: Tables, m: Uuid, w: WalletId, id: TxId)
    requires RowsOk(db) && WalletsOk(db) && w in db.wallets && db.wallets[w].merchant == m && id in db.ledger
    ensures db.ledger[id].merchant == m <==> db.ledger[id].wallet == w
  {
    assert RowOk(db, id);
  }

  /** Every row counted in a period is a success, a failure or a reversal, and none fails. */
  lemma CountsAddUp(db: Tables, m: Uuid, from: Option<int>)
    requires RowsOk(db)
    ensures var s := GetStats(db, m, from); s.total == s.successful + s.failed + s.reversed && s.failed == 0
  {
    var ended := (t: Transaction) => if Scope(m, from, t) && t.status != SUCCESS then 1 else 0;
    forall id | id in db.ledger ensures db.ledger[id].status in {SUCCESS, REVERSED} { assert RowOk(db, id); }
    SumSplit(db.ledger, All(m, from), WithStatus(m, from, SUCCESS), ended);
    SumSplit(db.ledger, ended, WithStatus(m, from, FAILED), WithStatus(m, from, REVERSED));
    var zero := (t: Transaction) => 0;
    SumSplit(db.ledger, zero, zero, zero);
    SumSame(db.ledger, WithStatus(m, from, FAILED), zero);
  }

  /** The all-time figures of a merchant in terms of the sums of its wallet. */
  lemma StatsOfWallet(db: Tables, m: Uuid, w: WalletId)
    requires RowsOk(db) && WalletsOk(db) && w in db.wallets && db.wallets[w].merchant == m
    ensures var s := GetStats(db, m, None);
            && s.topup == Sum(db.ledger, TopUps(w)) && s.refunded == Sum(db.ledger, Refunds(w))
            && s.revenue == Sum(db.ledger, Payments(w)) - Sum(db.ledger, ReversedPayments(w))
            && s.reversed == Sum(db.ledger, ReversedCount(w))
  {
    forall id | id in db.ledger
      ensures db.ledger[id].merchant == m <==> db.ledger[id].wallet == w
      ensures db.ledger[id].status == SUCCESS || (db.ledger[id].status == REVERSED && db.ledger[id].kind == PAYMENT)
    {
      MerchantIsWallet(db, m, w, id);
      assert RowOk(db, id);
    }
    SumSame(db.ledger, Amounts(m, None, TOPUP), TopUps(w));
    SumSame(db.ledger, Amounts(m, None, REFUND), Refunds(w));
    SumSplit(db.ledger, Payments(w), Amounts(m, None, PAYMENT), ReversedPayments(w));
    SumSame(db.ledger, WithStatus(m, None, REVERSED), ReversedCount(w));
  }

  /** In every reachable state, while the top-ups fit in int64: the stored balance is the dashboard's top-ups
      minus revenue minus what partial refunds kept. So it is at most top-ups minus revenue, with equality
      exactly when every refund was full. REVERSED counts the refunds, and the counts add up in every period. */
  lemma Reconciliation(tr: seq<State>, acts: seq<Action>, n: nat, m: Uuid, w: WalletId)
    requires Run(tr, acts) && n < |tr| && w in tr[n].db.wallets && tr[n].db.wallets[w].merchant == m
    requires GetStats(tr[n].db, m, None).topup <= MAX_INT64
    ensures var db := tr[n].db; var s := GetStats(db, m, None); var balance := db.wallets[w].balance;
            && balance == s.topup - s.revenue - Kept(db, w) && 0 <= Kept(db, w)
            && (balance == s.topup - s.revenue <==> AllRefundsFull(db, w))
            && s.reversed == Sum(db.ledger, RefundCount(w))
            && forall from :: var p := GetStats(db, m, from); p.total == p.successful + p.failed + p.reversed
  {
    RunInv(tr, acts, n);
    ReconcileTables(tr[n].db, m, w);
  }

  lemma ReconcileTables(db: Tables, m: Uuid, w: WalletId)
    requires LedgerInv(db) && w in db.wallets && db.wallets[w].merchant == m
    requires GetStats(db, m, None).topup <= MAX_INT64
    ensures var s := GetStats(db, m, None); var balance := db.wallets[w].balance;
            && balance == s.topup - s.revenue - Kept(db, w) && 0 <= Kept(db, w)
            && (balance == s.topup - s.revenue <==> AllRefundsFull(db, w))
            && s.reversed == Sum(db.ledger, RefundCount(w))
            && forall from :: var p := GetStats(db, m, from); p.total == p.successful + p.failed + p.reversed
  {
    assert MoneyOk(db, w);
    StatsOfWallet(db, m, w);
    forall from ensures var p := GetStats(db, m, from); p.total == p.successful + p.failed + p.reversed {
      CountsAddUp(db, m, from);
    }
  }

  // ---- figures as int64 ----

  /** The repository scans every figure into an int64; one that does not fit makes the call fail. */
  predicate Scans(s: Stats) {
    InInt64(s.total) && InInt64(s.successful) && InInt64(s.failed) && InInt64(s.reversed) &&
    InInt64(s.revenue) && InInt64(s.refunded) && InInt64(s.topup)
  }

  lemma FiguresNonNegative(db: Tables, m: Uuid, from: Option<int>)
    requires RowsOk(db)
    ensures var s := GetStats(db, m, from);
            0 <= s.successful && 0 <= s.reversed && 0 <= s.revenue && 0 <= s.refunded && 0 <= s.topup
  {
    forall id | id in db.ledger ensures 0 < db.ledger[id].amount { assert RowOk(db, id); }
    SumNonNegative(db.ledger, WithStatus(m, from, SUCCESS));
    SumNonNegative(db.ledger, WithStatus(m, from, REVERSED));
    SumNonNegative(db.ledger, Amounts(m, from, PAYMENT));
    SumNonNegative(db.ledger, Amounts(m, from, REFUND));
    SumNonNegative(db.ledger, Amounts(m, from, TOPUP));
  }

  lemma TablesAnswer(db: Tables, m: Uuid, w: WalletId)
    requires LedgerInv(db) && w in db.wallets && db.wallets[w].merchant == m
    requires GetStats(db, m, None).topup <= MAX_INT64
    ensures var s := GetStats(db, m, None);
            0 <= s.revenue <= s.topup && (Scans(s) <==> s.total <= MAX_INT64 && s.refunded <= MAX_INT64)
  {
    CountsAddUp(db, m, None);
    FiguresNonNegative(db, m, None);
    RevenueFits(db, m, w);
    ScansIff(GetStats(db, m, None));
  }

  lemma RevenueFits(db: Tables, m: Uuid, w: WalletId)
    requires LedgerInv(db) && w in db.wallets && db.wallets[w].merchant == m
    requires GetStats(db, m, None).topup <= MAX_INT64
    ensures GetStats(db, m, None).revenue <= GetStats(db, m, None).topup
  {
    StatsOfWallet(db, m, w);
    assert MoneyOk(db, w);
  }

  lemma ScansIff(s: Stats)
    requires 0 <= s.successful && 0 <= s.reversed && 0 <= s.revenue <= s.topup <= MAX_INT64 && 0 <= s.refunded
    requires s.total == s.successful + s.failed + s.reversed && s.failed == 0
    ensures Scans(s) <==> s.total <= MAX_INT64 && s.refunded <= MAX_INT64
  {
  }

  /** In every reachable state, while the top-ups fit in int64, the revenue fits too, and the all-time statistics are
      answered exactly if the refunded total and the number of rows fit. */
  lemma StatsAnswered(tr: seq<State>, acts: seq<Action>, n: nat, m: Uuid, w: WalletId)
    requires Run(tr, acts) && n < |tr| && w in tr[n].db.wallets && tr[n].db.wallets[w].merchant == m
    requires GetStats(tr[n].db, m, None).topup <= MAX_INT64
    ensures var s := GetStats(tr[n].db, m, None);
            0 <= s.revenue <= s.topup && (Scans(s) <==> s.total <= MAX_INT64 && s.refunded <= MAX_INT64)
  {
    RunInv(tr, acts, n);
    TablesAnswer(tr[n].db, m, w);
  }
}
