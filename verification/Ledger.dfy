/** The committed tables, and the money operations as atomic steps on them:
    the sequential specification that the concurrent protocol is held to. */
module Ledger {
  import opened Domain
  import opened Keys
  import Decimal

  datatype Wallet = Wallet(merchant: Uuid, currency: string, balance: int)

  datatype LogEntry = LogEntry(txId: TxId, response: Response)

  datatype Tables = Tables(
    wallets: map<WalletId, Wallet>,
    ledger: map<TxId, Transaction>,
    log: map<string, LogEntry>)

  const EMPTY := Tables(map[], map[], map[])

  datatype Request =
    | Pay(merchant: Uuid, ref: string, amount: int, currency: string,
          signature: string, clientIP: string, extraData: Option<string>)
    | Refund(merchant: Uuid, ref: string, amountOpt: Option<int>,
             signature: string, clientIP: string, reason: string)
    | TopUp(merchant: Uuid, amount: int, currency: string)

  datatype Error =
    | InvalidAmount | WalletNotFound | InsufficientFunds
    | OriginalNotFound | InvalidRefund | DuplicateRefund | RefundExceedsOriginal
    | Internal

  /** What is not determined by the request and the tables: the row a query returns when several match,
      the new id, clock readings and the ciphertext of the amount. */
  datatype Choice = Choice(wallet: WalletId, id: TxId, now: int, amountEncrypted: string,
                           orig: TxId, reversedAt: int)

  datatype Outcome =
    | Committed(db: Tables, txn: Transaction)
    | Replayed(response: Response)
    | Rejected(error: Error)

  /** What the HTTP layer lets through to the service. */
  predicate ValidRequest(r: Request) {
    match r
    case Pay(_, ref, amount, _, _, _, _) => SafeId(ref) && |ref| <= 100 && InInt64(amount)
    case Refund(_, ref, amount, _, _, _) => SafeId(ref) && |ref| <= 100 && (amount.Some? ==> InInt64(amount.value))
    case TopUp(_, amount, _) => InInt64(amount)
  }

  function KeyOf(r: Request): string
    requires !r.TopUp?
  {
    if r.Pay? then PaymentKey(r.merchant, r.ref) else RefundKey(r.merchant, r.ref)
  }

  /** transactions.reference_id is VARCHAR(100) and transactions.amount DECIMAL(20, 2). */
  const MAX_REF := 100
  const AMOUNT_LIMIT := 1_000_000_000_000_000_000

  predicate Storable(t: Transaction) {
    |t.ref| <= MAX_REF && t.amount < AMOUNT_LIMIT
  }

  const REFUND_PREFIX := "REFUND-"

  function TopUpRef(merchant: Uuid, now: int): string {
    "TOPUP-" + merchant[..8] + "-" + Decimal.FormatInt(now)
  }

  /** The ledger row a request inserts. */
  function NewRow(r: Request, ch: Choice, amount: int): Transaction {
    match r
    case Pay(m, ref, _, _, sig, ip, extra) =>
      Transaction(ch.id, ref, m, ch.wallet, amount, ch.amountEncrypted, PAYMENT, SUCCESS,
                  sig, ip, extra, None, ch.now, Some(ch.now))
    case Refund(m, ref, _, sig, ip, reason) =>
      Transaction(ch.id, REFUND_PREFIX + ref, m, ch.wallet, amount, ch.amountEncrypted, REFUND, SUCCESS,
                  sig, ip, Some(reason), Some(ch.orig), ch.now, Some(ch.now))
    case TopUp(m, _, _) =>
      Transaction(ch.id, TopUpRef(m, ch.now), m, ch.wallet, amount, ch.amountEncrypted, TOPUP, SUCCESS,
                  "SYSTEM_TOPUP", "", None, None, ch.now, Some(ch.now))
  }

  /** The row as inserted, whatever happened to it since. */
  function AsCreated(t: Transaction): Transaction {
    t.(status := SUCCESS, processedAt := Some(t.createdAt))
  }

  function MarkReversed(t: Transaction, at: int): Transaction {
    t.(status := REVERSED, processedAt := Some(at))
  }

  /** Go's balance arithmetic: a payment subtracts, the others add, in int64. */
  function NewBalance(r: Request, balance: int, amount: int): (b: int)
    ensures InInt64(b)
  {
    if r.Pay? then Wrap64(balance - amount) else Wrap64(balance + amount)
  }

  predicate WalletMatches(db: Tables, w: WalletId, merchant: Uuid, currency: string) {
    w in db.wallets && db.wallets[w].merchant == merchant && db.wallets[w].currency == currency
  }

  predicate RefMatches(db: Tables, id: TxId, merchant: Uuid, ref: string) {
    id in db.ledger && db.ledger[id].merchant == merchant && db.ledger[id].ref == ref
  }

  predicate RefundExists(db: Tables, orig: TxId) {
    exists id :: id in db.ledger && db.ledger[id].original == Some(orig) &&
                 db.ledger[id].kind == REFUND && db.ledger[id].status != FAILED
  }

  function RefundAmount(r: Request, orig: Transaction): int
    requires r.Refund?
  {
    if r.amountOpt.Some? then r.amountOpt.value else orig.amount
  }

  /** All writes of one request, at once. */
  function Post(db: Tables, r: Request, ch: Choice, amount: int): Outcome
    requires ch.wallet in db.wallets
    requires r.Refund? ==> ch.orig in db.ledger
  {
    var txn := NewRow(r, ch, amount);
    if !Storable(txn) then Rejected(Internal)
    else
      var w := db.wallets[ch.wallet];
      var wallets := db.wallets[ch.wallet := w.(balance := NewBalance(r, w.balance, amount))];
      var ledger := db.ledger[ch.id := txn];
      var ledger' := if r.Refund? then ledger[ch.orig := MarkReversed(db.ledger[ch.orig], ch.reversedAt)] else ledger;
      var log := if r.TopUp? then db.log else db.log[KeyOf(r) := LogEntry(ch.id, Marshal(txn))];
      Committed(Tables(wallets, ledger', log), txn)
  }

  /** One request executed alone, from start to end. */
  function Execute(db: Tables, r: Request, ch: Choice): Outcome {
    match r
    case Pay(m, ref, amount, currency, _, _, _) =>
      if amount <= 0 then Rejected(InvalidAmount)
      else if KeyOf(r) in db.log then Replayed(db.log[KeyOf(r)].response)
      else if !WalletMatches(db, ch.wallet, m, currency) then Rejected(WalletNotFound)
      else if db.wallets[ch.wallet].balance < amount then Rejected(InsufficientFunds)
      else Post(db, r, ch, amount)
    case Refund(m, ref, amountOpt, _, _, _) =>
      if KeyOf(r) in db.log then Replayed(db.log[KeyOf(r)].response)
      else if !RefMatches(db, ch.orig, m, ref) then Rejected(OriginalNotFound)
      else
        var orig := db.ledger[ch.orig];
        if !orig.IsRefundable() then Rejected(InvalidRefund)
        else if RefundExists(db, ch.orig) then Rejected(DuplicateRefund)
        else if amountOpt.Some? && amountOpt.value <= 0 then Rejected(InvalidAmount)
        else if amountOpt.Some? && amountOpt.value > orig.amount then Rejected(RefundExceedsOriginal)
        else if ch.wallet != orig.wallet || orig.wallet !in db.wallets then Rejected(WalletNotFound)
        else Post(db, r, ch, RefundAmount(r, orig))
    case TopUp(m, amount, currency) =>
      if amount <= 0 then Rejected(InvalidAmount)
      else if !WalletMatches(db, ch.wallet, m, currency) then Rejected(WalletNotFound)
      else Post(db, r, ch, amount)
  }

  /** The queries of a request return a matching row if there is one, and the clock an int64. */
  ghost predicate Answered(db: Tables, r: Request, ch: Choice) {
    InInt64(ch.now) &&
    if r.Refund? then
      && ((exists id :: RefMatches(db, id, r.merchant, r.ref)) ==> RefMatches(db, ch.orig, r.merchant, r.ref))
      && (RefMatches(db, ch.orig, r.merchant, r.ref) ==> ch.wallet == db.ledger[ch.orig].wallet)
    else (exists w :: WalletMatches(db, w, r.merchant, r.currency)) ==> WalletMatches(db, ch.wallet, r.merchant, r.currency)
  }

  const VND := "VND"

  /** Registration gives a new merchant one VND wallet at balance zero. */
  predicate CanRegister(db: Tables, w: WalletId, m: Uuid) {
    w !in db.wallets && forall v :: v in db.wallets ==> db.wallets[v].merchant != m
  }

  function Registered(db: Tables, w: WalletId, m: Uuid): Tables {
    db.(wallets := db.wallets[w := Wallet(m, VND, 0)])
  }

  // ---- sequential histories ----

  datatype Event = Registration(wallet: WalletId, merchant: Uuid) | Commitment(req: Request, ch: Choice)

  /** The next tables, or none if the event could not have committed on these. */
  function Apply(db: Tables, e: Event): Option<Tables> {
    match e
    case Registration(w, m) => if CanRegister(db, w, m) then Some(Registered(db, w, m)) else None
    case Commitment(r, ch) =>
      if !ValidRequest(r) || ch.id in db.ledger then None
      else
        match Execute(db, r, ch)
        case Committed(db', _) => Some(db')
        case _ => None
  }

  /** Executing a history event by event, from empty tables. */
  function Replay(h: seq<Event>): Option<Tables> {
    if h == [] then Some(EMPTY)
    else
      match Replay(h[..|h| - 1])
      case None => None
      case Some(db) => Apply(db, h[|h| - 1])
  }

  lemma ReplayExtend(h: seq<Event>, e: Event)
    ensures Replay(h + [e]) == if Replay(h).Some? then Apply(Replay(h).value, e) else None
  {
    assert (h + [e])[..|h|] == h;
  }
}
