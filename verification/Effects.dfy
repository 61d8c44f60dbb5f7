/** What a committed request does and when it commits, spelled out on the fields of the tables:
    an account of the operations that is independent of how the specification computes them. */
module Effects {
  import opened Domain
  import opened Sums
  import opened Ledger
  import opened LedgerInvariant
  import opened Limits
  import Decimal

  /** The inserted row says what was asked: field by field. A refund pays the amount given, or else that of its original. */
  ghost predicate RowSays(rows: Rows, r: Request, ch: Choice, t: Transaction) {
    && t.id == ch.id && t.merchant == r.merchant && t.wallet == ch.wallet && t.amountEncrypted == ch.amountEncrypted
    && t.status == SUCCESS && t.createdAt == ch.now && t.processedAt == Some(ch.now)
    && match r
       case Pay(_, ref, amount, _, signature, clientIP, extraData) =>
         && t.kind == PAYMENT && t.ref == ref && t.amount == amount && t.original == None
         && t.signature == signature && t.clientIP == clientIP && t.extraData == extraData
       case Refund(_, ref, amountOpt, signature, clientIP, reason) =>
         && t.kind == REFUND && t.ref == "REFUND-" + ref && t.original == Some(ch.orig) && ch.orig in rows
         && (amountOpt.Some? ==> t.amount == amountOpt.value)
         && (amountOpt.None? ==> t.amount == rows[ch.orig].amount)
         && t.signature == signature && t.clientIP == clientIP && t.extraData == Some(reason)
       case TopUp(merchant, amount, _) =>
         && t.kind == TOPUP && t.ref == "TOPUP-" + merchant[..8] + "-" + Decimal.FormatInt(ch.now) && t.original == None
         && t.amount == amount && t.signature == "SYSTEM_TOPUP" && t.clientIP == "" && t.extraData == None
  }

  /** The JSON form shows every field of the row but the ciphertext and the signature. */
  lemma ResponseShows(t: Transaction)
    ensures var j := Marshal(t);
            && j.id == t.id && j.ref == t.ref && j.merchant == t.merchant && j.wallet == t.wallet && j.amount == t.amount
            && j.kind == t.kind && j.status == t.status && j.clientIP == t.clientIP && j.extraData == t.extraData
            && j.original == t.original && j.createdAt == t.createdAt && j.processedAt == t.processedAt
    ensures Unmarshal(Marshal(t)) == t.(amountEncrypted := "", signature := "")
  {
  }

  /** The wallet of the request, and no other, moves by the amount of the row, in int64. */
  ghost predicate WalletMoves(db: Tables, r: Request, w: WalletId, amount: int, db': Tables) {
    && w in db.wallets && db'.wallets.Keys == db.wallets.Keys
    && (forall v :: v in db.wallets && v != w ==> db'.wallets[v] == db.wallets[v])
    && db'.wallets[w].merchant == db.wallets[w].merchant && db'.wallets[w].currency == db.wallets[w].currency
    && InInt64(db'.wallets[w].balance)
    && Congruent(db'.wallets[w].balance, if r.Pay? then db.wallets[w].balance - amount else db.wallets[w].balance + amount)
  }

  /** One row is new. Of the others a refund changes its original, to REVERSED and processed, and nothing else does. */
  ghost predicate RowsChange(db: Tables, r: Request, ch: Choice, db': Tables) {
    && ch.id !in db.ledger && (forall id :: id in db'.ledger <==> id in db.ledger || id == ch.id)
    && (forall id :: id in db.ledger && (r.Refund? ==> id != ch.orig) ==> db'.ledger[id] == db.ledger[id])
    && (r.Refund? ==>
          ch.orig in db.ledger &&
          db'.ledger[ch.orig] == db.ledger[ch.orig].(status := REVERSED, processedAt := Some(ch.reversedAt)))
  }

  /** The key under which a payment or refund is logged. */
  function LoggedAs(r: Request): string
    requires !r.TopUp?
  {
    if r.Pay? then r.merchant + ":" + r.ref else r.merchant + ":refund:" + r.ref
  }

  ghost predicate LogChanges(db: Tables, r: Request, t: Transaction, db': Tables) {
    if r.TopUp? then db'.log == db.log
    else LoggedAs(r) !in db.log && db'.log == db.log[LoggedAs(r) := LogEntry(t.id, Marshal(t))]
  }

  lemma CommitRow(db: Tables, r: Request, ch: Choice)
    requires Execute(db, r, ch).Committed? && ch.id !in db.ledger
    ensures var o := Execute(db, r, ch);
            ch.id in o.db.ledger && o.db.ledger[ch.id] == o.txn && RowSays(o.db.ledger, r, ch, o.txn)
  {
  }

  lemma CommitWallet(db: Tables, r: Request, ch: Choice)
    requires Execute(db, r, ch).Committed? && ch.id !in db.ledger
    ensures var o := Execute(db, r, ch); WalletMoves(db, r, ch.wallet, o.txn.amount, o.db)
  {
    var b, amount := db.wallets[ch.wallet].balance, Execute(db, r, ch).txn.amount;
    WrapCongruent(b - amount);
    WrapCongruent(b + amount);
  }

  lemma CommitLedger(db: Tables, r: Request, ch: Choice)
    requires Execute(db, r, ch).Committed? && ch.id !in db.ledger
    ensures RowsChange(db, r, ch, Execute(db, r, ch).db)
  {
  }

  lemma CommitLogs(db: Tables, r: Request, ch: Choice)
    requires Execute(db, r, ch).Committed? && ch.id !in db.ledger
    ensures var o := Execute(db, r, ch); LogChanges(db, r, o.txn, o.db)
  {
  }

  /** The whole effect of a committed request. */
  lemma CommitEffect(db: Tables, r: Request, ch: Choice)
    requires Execute(db, r, ch).Committed? && ch.id !in db.ledger
    ensures var o := Execute(db, r, ch);
            && ch.id in o.db.ledger && o.db.ledger[ch.id] == o.txn && RowSays(o.db.ledger, r, ch, o.txn)
            && WalletMoves(db, r, ch.wallet, o.txn.amount, o.db)
            && RowsChange(db, r, ch, o.db)
            && LogChanges(db, r, o.txn, o.db)
  {
    CommitRow(db, r, ch);
    CommitWallet(db, r, ch);
    CommitLedger(db, r, ch);
    CommitLogs(db, r, ch);
  }

  /** A registration adds one VND wallet at balance zero, to a merchant that had none, and touches nothing else. */
  lemma RegistrationEffect(db: Tables, w: WalletId, m: Uuid)
    requires Apply(db, Registration(w, m)).Some?
    ensures var db' := Apply(db, Registration(w, m)).value;
            && w !in db.wallets && (forall v :: v in db.wallets ==> db.wallets[v].merchant != m)
            && db'.wallets == db.wallets[w := Wallet(m, "VND", 0)] && db'.ledger == db.ledger && db'.log == db.log
  {
  }

  // ---- when a request commits ----

  ghost predicate HasWallet(db: Tables, w: WalletId, merchant: Uuid, currency: string) {
    w in db.wallets && db.wallets[w].merchant == merchant && db.wallets[w].currency == currency
  }

  /** The payment a refund is for: of the merchant and reference, and SUCCESS. */
  ghost predicate IsOriginal(db: Tables, id: TxId, merchant: Uuid, ref: string) {
    id in db.ledger && db.ledger[id].merchant == merchant && db.ledger[id].ref == ref &&
    db.ledger[id].kind == PAYMENT && db.ledger[id].status == SUCCESS
  }

  /** A payment needs a positive amount below 10^18, a free key and a wallet that covers it; a top-up the amount and a wallet;
      a refund a free key, its original in that wallet, a reference of at most 93 characters and an amount within
      the original's, if one is given. */
  ghost predicate MayCommit(db: Tables, r: Request, ch: Choice) {
    match r
    case Pay(m, ref, amount, currency, _, _, _) =>
      && 0 < amount < 1_000_000_000_000_000_000 && LoggedAs(r) !in db.log
      && HasWallet(db, ch.wallet, m, currency) && amount <= db.wallets[ch.wallet].balance
    case Refund(m, ref, amountOpt, _, _, _) =>
      && LoggedAs(r) !in db.log && |ref| <= 93
      && IsOriginal(db, ch.orig, m, ref) && ch.wallet == db.ledger[ch.orig].wallet
      && (amountOpt.Some? ==> 0 < amountOpt.value <= db.ledger[ch.orig].amount)
    case TopUp(m, amount, currency) =>
      0 < amount < 1_000_000_000_000_000_000 && HasWallet(db, ch.wallet, m, currency)
  }

  /** The reference of a top-up fits its column at every clock reading. */
  lemma TopUpRefFits(m: Uuid, now: int)
    requires InInt64(now)
    ensures |TopUpRef(m, now)| <= 35
  {
    Decimal.Int64Length(now);
  }

  lemma PayCommits(db: Tables, r: Request, ch: Choice)
    requires ValidRequest(r) && r.Pay?
    ensures Execute(db, r, ch).Committed? <==> MayCommit(db, r, ch)
  {
  }

  lemma TopUpCommits(db: Tables, r: Request, ch: Choice)
    requires r.TopUp? && InInt64(ch.now)
    ensures Execute(db, r, ch).Committed? <==> MayCommit(db, r, ch)
  {
    TopUpRefFits(r.merchant, ch.now);
  }

  lemma RefundCommits(db: Tables, r: Request, ch: Choice)
    requires Structure(db) && r.Refund?
    ensures Execute(db, r, ch).Committed? <==> MayCommit(db, r, ch)
  {
    if RefMatches(db, ch.orig, r.merchant, r.ref) {
      assert RowOk(db, ch.orig);
      if db.ledger[ch.orig].IsRefundable() { UnreversedIsUnrefunded(db, ch.orig); }
    }
  }

  /** On consistent tables a request commits, for the rows and clock it meets, exactly under these conditions. */
  lemma CommitsExactly(db: Tables, r: Request, ch: Choice)
    requires Structure(db) && ValidRequest(r) && InInt64(ch.now)
    ensures Execute(db, r, ch).Committed? <==> MayCommit(db, r, ch)
  {
    match r
    case Pay(_, _, _, _, _, _, _) => PayCommits(db, r, ch);
    case Refund(_, _, _, _, _, _) => RefundCommits(db, r, ch);
    case TopUp(_, _, _) => TopUpCommits(db, r, ch);
  }

  /** A refund of a payment exists exactly if the payment is reversed. */
  lemma RefundExistsExactly(db: Tables, id: TxId)
    requires Structure(db) && id in db.ledger && db.ledger[id].kind == PAYMENT
    ensures RefundExists(db, id) <==> db.ledger[id].status == REVERSED
  {
    assert RowOk(db, id);
    if db.ledger[id].status == SUCCESS {
      UnreversedIsUnrefunded(db, id);
    } else {
      var x :| RefundedBy(db, id, x);
      assert RowOk(db, x);
    }
  }
}
