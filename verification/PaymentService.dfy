/** The payment service as it runs: wallets hold ciphertext, writes go through a transaction, calls may fail.
    Each operation is held to the sequential specification on the decrypted tables. */
module PaymentService {
  import opened Domain
  import opened Ledger
  import opened LedgerInvariant
  import opened Encryption
  import Protocol

  datatype StoredWallet = StoredWallet(merchant: Uuid, currency: string, encryptedBalance: string)

  /** The calls that can fail, and the acknowledgement of the commit that can be lost. */
  datatype Call = CacheGet | LogGet | FindOriginal | CheckRefund | Begin | Lock | Decrypt | Encrypt
                | PutBalance | PutRow | PutReversal | PutLog | Commit | Acknowledge | CacheSet

  type Reply = Protocol.Reply

  /** Failures that never make an operation refuse: the cache is best-effort, and an acknowledgement is lost
      only after the effect. */
  const HARMLESS := {CacheGet, CacheSet, Acknowledge}

  /** How an operation may end, given what it would do alone and without failures. It does exactly that when no
      call fails but harmless ones; when others fail it may refuse with no effect. Only a lost acknowledgement
      makes it report an error after its effect. */
  ghost predicate Refines(db: Tables, r: Request, ch: Choice, faults: set<Call>, db': Tables, reply: Reply) {
    Ends(Execute(db, r, ch), faults, db, db', reply)
  }

  ghost predicate Ends(o: Outcome, faults: set<Call>, db: Tables, db': Tables, reply: Reply) {
    || (db' == db && reply.Err? && (faults <= HARMLESS ==> o == Rejected(reply.error)))
    || (db' == db && o.Replayed? && reply == Protocol.Ok(Unmarshal(o.response)))
    || (o.Committed? && db' == o.db && reply == Protocol.Ok(o.txn))
    || (o.Committed? && db' == o.db && Acknowledge in faults && reply == Protocol.Err(Internal))
  }

  ghost predicate Readable(c: Cipher, wallets: map<WalletId, StoredWallet>) {
    forall w :: w in wallets ==> ReadBalance(c, wallets[w].encryptedBalance).Some?
  }

  /** The wallets table with the balances decrypted. */
  ghost function Decrypted(c: Cipher, wallets: map<WalletId, StoredWallet>): map<WalletId, Wallet>
    requires Readable(c, wallets)
  {
    map w | w in wallets :: Wallet(wallets[w].merchant, wallets[w].currency, ReadBalance(c, wallets[w].encryptedBalance).value)
  }

  lemma DecryptedUpdate(c: Cipher, wallets: map<WalletId, StoredWallet>, w: WalletId, row: StoredWallet)
    requires Readable(c, wallets) && ReadBalance(c, row.encryptedBalance).Some?
    ensures Readable(c, wallets[w := row])
    ensures Decrypted(c, wallets[w := row]) ==
            Decrypted(c, wallets)[w := Wallet(row.merchant, row.currency, ReadBalance(c, row.encryptedBalance).value)]
  {
  }

  function LedgerAfter(ledger: map<TxId, Transaction>, r: Request, ch: Choice, txn: Transaction): map<TxId, Transaction>
    requires r.Refund? ==> ch.orig in ledger
  {
    if r.Refund? then ledger[ch.id := txn][ch.orig := MarkReversed(ledger[ch.orig], ch.reversedAt)] else ledger[ch.id := txn]
  }

  function LogAfter(log: map<string, LogEntry>, r: Request, txn: Transaction): map<string, LogEntry> {
    if r.TopUp? then log else log[KeyOf(r) := LogEntry(txn.id, Marshal(txn))]
  }

  /** The written tables, decrypted, are those of posting the request to the decrypted tables. */
  lemma WrittenIsPosted(c: Cipher, db: Tables, wallets: map<WalletId, StoredWallet>, row: StoredWallet,
                        r: Request, ch: Choice, amount: int)
    requires Readable(c, wallets) && db.wallets == Decrypted(c, wallets) && ch.wallet in wallets
    requires r.Refund? ==> ch.orig in db.ledger && ch.orig != ch.id
    requires row.merchant == wallets[ch.wallet].merchant && row.currency == wallets[ch.wallet].currency
    requires ReadBalance(c, row.encryptedBalance) == Some(NewBalance(r, db.wallets[ch.wallet].balance, amount))
    requires Storable(NewRow(r, ch, amount))
    ensures Readable(c, wallets[ch.wallet := row])
    ensures var txn := NewRow(r, ch, amount);
            Post(db, r, ch, amount) ==
            Committed(Tables(Decrypted(c, wallets[ch.wallet := row]), LedgerAfter(db.ledger, r, ch, txn), LogAfter(db.log, r, txn)), txn)
  {
    DecryptedUpdate(c, wallets, ch.wallet, row);
  }

  class Service {
    const cipher: Cipher
    var wallets: map<WalletId, StoredWallet>
    var ledger: map<TxId, Transaction>
    var log: map<string, LogEntry>
    var cache: map<string, Response>

    ghost predicate Valid()
      reads this
    {
      && Sound(cipher)
      && Readable(cipher, wallets)
      && (forall k :: k in cache ==> k in log && log[k].response == cache[k])
    }

    /** The tables that the service stands for. */
    ghost function Db(): Tables
      requires Valid()
      reads this
    {
      Tables(Decrypted(cipher, wallets), ledger, log)
    }

    constructor (cipher: Cipher)
      requires Sound(cipher)
      ensures Valid() && Db() == EMPTY && cache == map[] && this.cipher == cipher
    {
      this.cipher := cipher;
      wallets, ledger, log, cache := map[], map[], map[], map[];
    }

    /** The wallet part of registration: one VND wallet holding an encrypted zero. */
    method Register(w: WalletId, m: Uuid, nonce: Bytes)
      requires Valid() && |nonce| == NONCE_SIZE && CanRegister(Db(), w, m)
      modifies this`wallets
      ensures Valid() && Db() == Registered(old(Db()), w, m)
    {
      BalanceRoundTrip(cipher, nonce, 0);
      var row := StoredWallet(m, VND, StoreBalance(cipher, nonce, 0));
      DecryptedUpdate(cipher, wallets, w, row);
      wallets := wallets[w := row];
    }

    /** The two idempotency layers; a failing cache is passed over. */
    method Lookup(key: string, faults: set<Call>) returns (hit: Option<Transaction>, failed: bool)
      requires Valid()
      ensures failed ==> LogGet in faults && hit == None
      ensures hit.Some? ==> key in log && hit.value == Unmarshal(log[key].response)
      ensures !failed && hit.None? ==> key !in log
    {
      failed := false;
      if CacheGet !in faults && key in cache { return Some(Unmarshal(cache[key])), false; }
      if LogGet in faults { return None, true; }
      if key in log { return Some(Unmarshal(log[key].response)), false; }
      hit := None;
    }

    /** From the wallet row on: read and check the balance, then all writes in one transaction. */
    method PostInTransaction(r: Request, ch: Choice, amount: int, nonce: Bytes, faults: set<Call>) returns (reply: Reply)
      requires Valid() && |nonce| == NONCE_SIZE && ch.wallet in wallets && ch.id !in ledger
      requires r.Refund? ==> ch.orig in ledger
      requires !r.TopUp? ==> KeyOf(r) !in log
      modifies this
      ensures Valid()
      ensures var db := old(Db());
              var o := if r.Pay? && db.wallets[ch.wallet].balance < amount then Rejected(InsufficientFunds) else Post(db, r, ch, amount);
              Ends(o, faults, db, Db(), reply)
    {
      var row, e := Recompute(r, ch.wallet, amount, nonce, faults);
      if row.None? { return Protocol.Err(e); }
      reply := WriteAndCommit(r, ch, amount, row.value, faults);
    }

    /** The writes, the commit, its acknowledgement and the cache. */
    method WriteAndCommit(r: Request, ch: Choice, amount: int, row: StoredWallet, faults: set<Call>) returns (reply: Reply)
      requires Valid() && ch.wallet in wallets && ch.id !in ledger && (r.Refund? ==> ch.orig in ledger)
      requires !r.TopUp? ==> KeyOf(r) !in log
      requires row.merchant == wallets[ch.wallet].merchant && row.currency == wallets[ch.wallet].currency
      requires ReadBalance(cipher, row.encryptedBalance) == Some(NewBalance(r, Db().wallets[ch.wallet].balance, amount))
      modifies this
      ensures Valid() && Ends(Post(old(Db()), r, ch, amount), faults, old(Db()), Db(), reply)
    {
      var txn := NewRow(r, ch, amount);
      var committed := CommitWrites(r, ch, amount, row, faults);
      if !committed || Acknowledge in faults { return Protocol.Err(Internal); }
      CacheSet(r, txn, faults);
      reply := Protocol.Ok(txn);
    }

    /** The transaction proper. A failed call returns before the fields are assigned, which is the rollback. */
    method CommitWrites(r: Request, ch: Choice, amount: int, row: StoredWallet, faults: set<Call>) returns (committed: bool)
      requires Valid() && ch.wallet in wallets && ch.id !in ledger && (r.Refund? ==> ch.orig in ledger)
      requires !r.TopUp? ==> KeyOf(r) !in log
      requires row.merchant == wallets[ch.wallet].merchant && row.currency == wallets[ch.wallet].currency
      requires ReadBalance(cipher, row.encryptedBalance) == Some(NewBalance(r, Db().wallets[ch.wallet].balance, amount))
      modifies this`wallets, this`ledger, this`log
      ensures Valid()
      ensures committed ==> Post(old(Db()), r, ch, amount) == Committed(Db(), NewRow(r, ch, amount))
      ensures committed && !r.TopUp? ==> KeyOf(r) in log && log[KeyOf(r)].response == Marshal(NewRow(r, ch, amount))
      ensures !committed ==> Db() == old(Db()) && (faults <= HARMLESS ==> !Storable(NewRow(r, ch, amount)))
    {
      var written, wallets', ledger', log' := Write(r, ch, NewRow(r, ch, amount), row, faults);
      if !written || Commit in faults { return false; }
      WrittenIsPosted(cipher, Db(), wallets, row, r, ch, amount);
      Install(wallets', ledger', log');
      committed := true;
    }

    /** The commit makes the session's tables the committed ones. */
    method Install(wallets': map<WalletId, StoredWallet>, ledger': map<TxId, Transaction>, log': map<string, LogEntry>)
      requires Valid() && Readable(cipher, wallets') && forall k :: k in log ==> k in log' && log'[k] == log[k]
      modifies this`wallets, this`ledger, this`log
      ensures Valid() && wallets == wallets' && ledger == ledger' && log == log'
      ensures Db() == Tables(Decrypted(cipher, wallets'), ledger', log')
    {
      wallets, ledger, log := wallets', ledger', log';
    }

    /** The best-effort cache write after the commit. */
    method CacheSet(r: Request, txn: Transaction, faults: set<Call>)
      requires Valid() && (!r.TopUp? ==> KeyOf(r) in log && log[KeyOf(r)].response == Marshal(txn))
      modifies this`cache
      ensures Valid() && Db() == old(Db())
    {
      if !r.TopUp? && Call.CacheSet !in faults {
        cache := cache[KeyOf(r) := Marshal(txn)];
      }
    }

    /** Decrypt, check, calculate, encrypt: the wallet row to write. */
    method Recompute(r: Request, w: WalletId, amount: int, nonce: Bytes, faults: set<Call>)
      returns (row: Option<StoredWallet>, e: Error)
      requires Valid() && |nonce| == NONCE_SIZE && w in wallets
      ensures var balance := ReadBalance(cipher, wallets[w].encryptedBalance).value;
              if row.Some? then
                && !(r.Pay? && balance < amount)
                && row.value.merchant == wallets[w].merchant && row.value.currency == wallets[w].currency
                && ReadBalance(cipher, row.value.encryptedBalance) == Some(NewBalance(r, balance, amount))
              else (faults <= HARMLESS ==> r.Pay? && balance < amount && e == InsufficientFunds)
    {
      row := None;
      var balance;
      balance, e := CheckFunds(r, w, amount, faults);
      if balance.None? { return; }
      var newBalance := NewBalance(r, balance.value, amount);
      if Encrypt in faults { return; }
      var text := EncryptBalance(nonce, newBalance);
      row := Some(wallets[w].(encryptedBalance := text));
    }

    method CheckFunds(r: Request, w: WalletId, amount: int, faults: set<Call>) returns (balance: Option<int>, e: Error)
      requires Valid() && w in wallets
      ensures var now := ReadBalance(cipher, wallets[w].encryptedBalance);
              if balance.Some? then balance == now && !(r.Pay? && now.value < amount)
              else (faults <= HARMLESS ==> r.Pay? && now.value < amount && e == InsufficientFunds)
    {
      balance, e := None, Internal;
      if Lock in faults || Decrypt in faults { return; }
      var now := ReadBalance(cipher, wallets[w].encryptedBalance);
      if r.Pay? && now.value < amount { return None, InsufficientFunds; }
      balance := now;
    }

    method EncryptBalance(nonce: Bytes, balance: int) returns (text: string)
      requires Sound(cipher) && |nonce| == NONCE_SIZE && InInt64(balance)
      ensures ReadBalance(cipher, text) == Some(balance)
    {
      BalanceRoundTrip(cipher, nonce, balance);
      text := StoreBalance(cipher, nonce, balance);
    }

    /** The statements of the transaction, one by one, on the session's own view of the tables. */
    method Write(r: Request, ch: Choice, txn: Transaction, row: StoredWallet, faults: set<Call>)
      returns (ok: bool, wallets': map<WalletId, StoredWallet>, ledger': map<TxId, Transaction>, log': map<string, LogEntry>)
      requires ch.id !in ledger && (r.Refund? ==> ch.orig in ledger)
      ensures !ok ==> !(faults <= HARMLESS) || !Storable(txn)
      ensures ok ==> Storable(txn) && wallets' == wallets[ch.wallet := row]
      ensures ok ==> ledger' == LedgerAfter(ledger, r, ch, txn) && log' == LogAfter(log, r, txn)
    {
      ok, wallets', ledger', log' := false, wallets, ledger, log;
      if PutBalance in faults { return; }
      wallets' := wallets'[ch.wallet := row];
      if PutRow in faults || !Storable(txn) { return; }
      ledger' := ledger'[ch.id := txn];
      if r.Refund? {
        if PutReversal in faults { return; }
        ledger' := ledger'[ch.orig := MarkReversed(ledger'[ch.orig], ch.reversedAt)];
      }
      if !r.TopUp? {
        if PutLog in faults { return; }
        log' := log'[KeyOf(r) := LogEntry(txn.id, Marshal(txn))];
      }
      ok := true;
    }

    method ProcessPayment(r: Request, ch: Choice, nonce: Bytes, faults: set<Call>) returns (reply: Reply)
      requires Valid() && |nonce| == NONCE_SIZE && r.Pay? && ch.id !in ledger
      modifies this
      ensures Valid() && Refines(old(Db()), r, ch, faults, Db(), reply)
    {
      if r.amount <= 0 { return Protocol.Err(InvalidAmount); }
      var hit, failed := Lookup(KeyOf(r), faults);
      if failed { return Protocol.Err(Internal); }
      if hit.Some? { return Protocol.Ok(hit.value); }
      if Begin in faults { return Protocol.Err(Internal); }
      if !(ch.wallet in wallets && wallets[ch.wallet].merchant == r.merchant && wallets[ch.wallet].currency == r.currency) {
        return Protocol.Err(WalletNotFound);
      }
      reply := PostInTransaction(r, ch, r.amount, nonce, faults);
    }

    method ProcessRefund(r: Request, ch: Choice, nonce: Bytes, faults: set<Call>) returns (reply: Reply)
      requires Valid() && |nonce| == NONCE_SIZE && r.Refund? && ch.id !in ledger
      modifies this
      ensures Valid() && Refines(old(Db()), r, ch, faults, Db(), reply)
    {
      var hit, failed := Lookup(KeyOf(r), faults);
      if failed { return Protocol.Err(Internal); }
      if hit.Some? { return Protocol.Ok(hit.value); }
      if FindOriginal in faults { return Protocol.Err(Internal); }
      if !(ch.orig in ledger && ledger[ch.orig].merchant == r.merchant && ledger[ch.orig].ref == r.ref) {
        return Protocol.Err(OriginalNotFound);
      }
      var orig := ledger[ch.orig];
      if !orig.IsRefundable() { return Protocol.Err(InvalidRefund); }
      if CheckRefund in faults { return Protocol.Err(Internal); }
      var refunded := exists id :: id in ledger && ledger[id].original == Some(ch.orig) &&
                                   ledger[id].kind == REFUND && ledger[id].status != FAILED;
      assert refunded <==> RefundExists(Db(), ch.orig);
      if refunded { return Protocol.Err(DuplicateRefund); }
      var amount := orig.amount;
      if r.amountOpt.Some? {
        if r.amountOpt.value <= 0 { return Protocol.Err(InvalidAmount); }
        if r.amountOpt.value > orig.amount { return Protocol.Err(RefundExceedsOriginal); }
        amount := r.amountOpt.value;
      }
      if Begin in faults { return Protocol.Err(Internal); }
      if orig.wallet !in wallets || ch.wallet != orig.wallet { return Protocol.Err(WalletNotFound); }
      reply := PostInTransaction(r, ch, amount, nonce, faults);
    }

    method ProcessTopup(r: Request, ch: Choice, nonce: Bytes, faults: set<Call>) returns (reply: Reply)
      requires Valid() && |nonce| == NONCE_SIZE && r.TopUp? && ch.id !in ledger
      modifies this
      ensures Valid() && Refines(old(Db()), r, ch, faults, Db(), reply)
    {
      if r.amount <= 0 { return Protocol.Err(InvalidAmount); }
      if Begin in faults { return Protocol.Err(Internal); }
      if !(ch.wallet in wallets && wallets[ch.wallet].merchant == r.merchant && wallets[ch.wallet].currency == r.currency) {
        return Protocol.Err(WalletNotFound);
      }
      reply := PostInTransaction(r, ch, r.amount, nonce, faults);
    }

    /** The reporting service's balance: the value the payment service works with. */
    method GetWalletBalance(m: Uuid, w: WalletId) returns (balance: Option<int>)
      requires Valid()
      ensures balance == if WalletMatches(Db(), w, m, VND) then Some(Db().wallets[w].balance) else None
    {
      if !(w in wallets && wallets[w].merchant == m && wallets[w].currency == VND) { return None; }
      ReadersAgree(cipher, wallets[w].encryptedBalance);
      balance := ReportBalance(cipher, wallets[w].encryptedBalance);
    }
  }

  /** Unless a call fails, "not found" means that there is nothing to find: no row with the reference, or no wallet
      of that currency. A refund always finds its wallet. */
  lemma NotFoundMeansNone(db: Tables, r: Request, ch: Choice, faults: set<Call>, db': Tables, reply: Reply)
    requires RowsOk(db) && Answered(db, r, ch) && faults <= HARMLESS && Refines(db, r, ch, faults, db', reply)
    ensures reply == Protocol.Err(OriginalNotFound) ==> r.Refund? && forall id :: !RefMatches(db, id, r.merchant, r.ref)
    ensures reply == Protocol.Err(WalletNotFound) ==> !r.Refund? && forall w :: !WalletMatches(db, w, r.merchant, r.currency)
  {
    if r.Refund? && RefMatches(db, ch.orig, r.merchant, r.ref) { assert RowOk(db, ch.orig); }
    NotFoundReason(db, r, ch);
  }

  lemma NotFoundReason(db: Tables, r: Request, ch: Choice)
    ensures Execute(db, r, ch) == Rejected(OriginalNotFound) ==> r.Refund? && !RefMatches(db, ch.orig, r.merchant, r.ref)
    ensures Execute(db, r, ch) == Rejected(WalletNotFound) ==>
              if r.Refund? then
                && RefMatches(db, ch.orig, r.merchant, r.ref)
                && (ch.wallet != db.ledger[ch.orig].wallet || ch.wallet !in db.wallets)
              else !WalletMatches(db, ch.wallet, r.merchant, r.currency)
  {
  }

  /** However an operation ended, the tables it leaves are as good as those it found. */
  lemma {:induction false} RefinesKeepsLedger(db: Tables, r: Request, ch: Choice, faults: set<Call>, db': Tables, reply: Reply)
    requires LedgerInv(db) && ValidRequest(r) && ch.id !in db.ledger && Refines(db, r, ch, faults, db', reply)
    ensures LedgerInv(db')
  {
    if db' != db { ApplyInv(db, Commitment(r, ch)); }
  }

  /** Trying again with the same request after an effect, however the first answer got lost and whatever fails now,
      changes nothing; and it answers with the same transaction, always if only harmless calls fail. */
  lemma RetryIsSafe(db: Tables, r: Request, ch: Choice, faults: set<Call>, db': Tables, reply: Reply,
                    ch': Choice, faults': set<Call>, db'': Tables, reply': Reply)
    requires !r.TopUp? && Refines(db, r, ch, faults, db', reply) && db' != db
    requires Refines(db', r, ch', faults', db'', reply')
    ensures db'' == db'
    ensures reply'.Ok? ==> Marshal(reply'.txn) == Marshal(Execute(db, r, ch).txn)
    ensures faults' <= HARMLESS ==> reply'.Ok?
  {
    assert KeyOf(r) in db'.log;
  }
}
