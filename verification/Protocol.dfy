/** The payment, refund and top-up requests as concurrent processes, one step per call that
    the service makes, over committed tables, row locks, claimed keys and the cache. */
module Protocol {
  import opened Domain
  import opened Ledger

  type ProcId = int

  /** Where a request stands: the call it makes next. */
  datatype PC =
    | CheckAmount | CacheGet | LogGet | FindOriginal | CheckRefund | Begin | LockWallet
    | PutBalance | PutRow | PutReversal | PutLog | Committing | CacheSet | Done | Crashed

  function Rank(pc: PC): nat {
    match pc
    case CheckAmount => 0
    case CacheGet => 1
    case LogGet => 2
    case FindOriginal => 3
    case CheckRefund => 4
    case Begin => 5
    case LockWallet => 6
    case PutBalance => 7
    case PutRow => 8
    case PutReversal => 9
    case PutLog => 10
    case Committing => 11
    case CacheSet => 12
    case Done => 13
    case Crashed => 14
  }

  /** The uncommitted writes of a session, visible to no other. */
  datatype Writes = Writes(
    balance: Option<(WalletId, int)>,
    row: Option<Transaction>,
    reversal: Option<(TxId, int)>,
    entry: Option<(string, LogEntry)>)

  const NO_WRITES := Writes(None, None, None, None)

  datatype Reply = Ok(txn: Transaction) | Err(error: Error)

  datatype Proc = Proc(
    req: Request,
    pc: PC,
    ch: Choice,
    orig: Option<Transaction>,   // what GetByReference returned, possibly long ago
    amount: int,
    newBalance: int,
    txn: Option<Transaction>,
    pending: Writes,
    reply: Option<Reply>)

  datatype State = State(
    db: Tables,
    locks: map<WalletId, ProcId>,
    claims: map<string, ProcId>,
    cache: map<string, Response>,
    used: set<TxId>,
    procs: map<ProcId, Proc>,
    history: seq<Event>)

  const INIT := State(EMPTY, map[], map[], map[], {}, map[], [])

  datatype Action =
    | Register(wallet: WalletId, merchant: Uuid)
    | Evict(key: string)
    | Arrive(p: ProcId, req: Request)
    | DoCheckAmount(p: ProcId)
    | DoCacheGet(p: ProcId, answered: bool)
    | DoLogGet(p: ProcId)
    | DoFind(p: ProcId, found: Option<TxId>)
    | DoCheckRefund(p: ProcId)
    | DoBegin(p: ProcId)
    | DoLock(p: ProcId, found: Option<WalletId>, id: TxId, now: int, amountEncrypted: string)
    | DoPutBalance(p: ProcId)
    | DoPutRow(p: ProcId)
    | DoPutReversal(p: ProcId, at: int)
    | DoPutLog(p: ProcId)
    | DoCommit(p: ProcId, reported: bool)
    | DoCacheSet(p: ProcId, stored: bool)
    | Fail(p: ProcId)
    | Crash(p: ProcId)

  // ---- helpers ----

  function NewProc(r: Request): Proc {
    var start := if r.Refund? then CacheGet else CheckAmount;
    var amount := if r.Refund? then 0 else r.amount;
    Proc(r, start, Choice(0, 0, 0, "", 0, 0), None, amount, 0, None, NO_WRITES, None)
  }

  predicate At(s: State, p: ProcId, pc: PC) {
    p in s.procs && s.procs[p].pc == pc
  }

  function Put(s: State, p: ProcId, q: Proc): State {
    s.(procs := s.procs[p := q])
  }

  function Without<K>(m: map<K, ProcId>, p: ProcId): map<K, ProcId> {
    map k | k in m && m[k] != p :: m[k]
  }

  /** Ending the session: its locks and claimed keys are free again. */
  function Release(s: State, p: ProcId): State {
    s.(locks := Without(s.locks, p), claims := Without(s.claims, p))
  }

  function Reject(q: Proc, e: Error): Proc {
    q.(pc := Done, reply := Some(Err(e)))
  }

  function Serve(q: Proc, t: Transaction): Proc {
    q.(pc := Done, reply := Some(Ok(t)))
  }

  /** Rollback by the deferred call, after which the request has failed. */
  function Abort(s: State, p: ProcId, e: Error): State
    requires p in s.procs
  {
    Put(Release(s, p), p, Reject(s.procs[p], e))
  }

  function Commit(db: Tables, w: Writes): Tables {
    var wallets :=
      if w.balance.Some? && w.balance.value.0 in db.wallets
      then db.wallets[w.balance.value.0 := db.wallets[w.balance.value.0].(balance := w.balance.value.1)]
      else db.wallets;
    var inserted := if w.row.Some? then db.ledger[w.row.value.id := w.row.value] else db.ledger;
    var ledger :=
      if w.reversal.Some? && w.reversal.value.0 in inserted
      then inserted[w.reversal.value.0 := MarkReversed(inserted[w.reversal.value.0], w.reversal.value.1)]
      else inserted;
    var log := if w.entry.Some? then db.log[w.entry.value.0 := w.entry.value.1] else db.log;
    Tables(wallets, ledger, log)
  }

  /** The wallet row that the locking query of this process selects. */
  predicate Selects(db: Tables, q: Proc, w: WalletId) {
    if q.req.Refund? then q.orig.Some? && w == q.orig.value.wallet && w in db.wallets
    else WalletMatches(db, w, q.req.merchant, q.req.currency)
  }

  // ---- steps that touch only the process ----

  function AfterCacheGet(s: State, q: Proc, answered: bool): Proc
    requires !q.req.TopUp?
  {
    if answered && KeyOf(q.req) in s.cache then Serve(q, Unmarshal(s.cache[KeyOf(q.req)]))
    else q.(pc := LogGet)
  }

  function AfterLogGet(s: State, q: Proc): Proc
    requires !q.req.TopUp?
  {
    if KeyOf(q.req) in s.db.log then Serve(q, Unmarshal(s.db.log[KeyOf(q.req)].response))
    else q.(pc := if q.req.Pay? then Begin else FindOriginal)
  }

  function AfterFind(s: State, q: Proc, found: Option<TxId>): Proc
    requires q.req.Refund? && (found.Some? ==> found.value in s.db.ledger)
  {
    if found.None? then Reject(q, OriginalNotFound)
    else if !s.db.ledger[found.value].IsRefundable() then Reject(q, InvalidRefund)
    else q.(pc := CheckRefund, orig := Some(s.db.ledger[found.value]), ch := q.ch.(orig := found.value))
  }

  function AfterCheckRefund(s: State, q: Proc): Proc
    requires q.req.Refund? && q.orig.Some?
  {
    if RefundExists(s.db, q.ch.orig) then Reject(q, DuplicateRefund)
    else if q.req.amountOpt.Some? && q.req.amountOpt.value <= 0 then Reject(q, InvalidAmount)
    else if q.req.amountOpt.Some? && q.req.amountOpt.value > q.orig.value.amount then Reject(q, RefundExceedsOriginal)
    else q.(pc := Begin, amount := RefundAmount(q.req, q.orig.value))
  }

  /** The process after its query has the wallet row locked: balance read, checked and recomputed, row built. */
  function AfterLock(s: State, q: Proc, w: WalletId, id: TxId, now: int, enc: string): Proc
    requires w in s.db.wallets
  {
    var ch := q.ch.(wallet := w, id := id, now := now, amountEncrypted := enc);
    q.(pc := PutBalance, ch := ch,
       newBalance := NewBalance(q.req, s.db.wallets[w].balance, q.amount),
       txn := Some(NewRow(q.req, ch, q.amount)))
  }

  // ---- the transition relation ----

  ghost predicate Local(s: State, a: Action, s': State) {
    match a
    case DoCheckAmount(p) =>
      At(s, p, CheckAmount) && !s.procs[p].req.Refund? &&
      var q := s.procs[p];
      s' == Put(s, p, if q.req.amount <= 0 then Reject(q, InvalidAmount)
                      else q.(pc := if q.req.Pay? then CacheGet else Begin))
    case DoCacheGet(p, answered) =>
      At(s, p, CacheGet) && !s.procs[p].req.TopUp? && s' == Put(s, p, AfterCacheGet(s, s.procs[p], answered))
    case DoLogGet(p) =>
      At(s, p, LogGet) && !s.procs[p].req.TopUp? && s' == Put(s, p, AfterLogGet(s, s.procs[p]))
    case DoFind(p, found) =>
      At(s, p, FindOriginal) && s.procs[p].req.Refund? &&
      var q := s.procs[p];
      (match found
       case Some(id) => RefMatches(s.db, id, q.req.merchant, q.req.ref)
       case None => forall id :: id in s.db.ledger ==> !RefMatches(s.db, id, q.req.merchant, q.req.ref)) &&
      s' == Put(s, p, AfterFind(s, q, found))
    case DoCheckRefund(p) =>
      At(s, p, CheckRefund) && s.procs[p].req.Refund? && s.procs[p].orig.Some? &&
      s' == Put(s, p, AfterCheckRefund(s, s.procs[p]))
    case DoBegin(p) =>
      At(s, p, Begin) && s' == Put(s, p, s.procs[p].(pc := LockWallet))
    case _ => false
  }

  /** SELECT ... FOR UPDATE waits while another session holds the row. */
  ghost predicate Lock(s: State, a: Action, s': State)
    requires a.DoLock?
  {
    At(s, a.p, LockWallet) &&
    var q := s.procs[a.p];
    match a.found
    case None =>
      (forall w :: w in s.db.wallets ==> !Selects(s.db, q, w)) && s' == Abort(s, a.p, WalletNotFound)
    case Some(w) =>
      Selects(s.db, q, w) && w !in s.locks &&
      if q.req.Pay? && s.db.wallets[w].balance < q.amount then s' == Abort(s, a.p, InsufficientFunds)
      else
        a.id !in s.used && InInt64(a.now) &&
        s' == Put(s, a.p, AfterLock(s, q, w, a.id, a.now, a.amountEncrypted))
              .(locks := s.locks[w := a.p], used := s.used + {a.id})
  }

  /** Writes inside the transaction; the unique index makes the log insert wait for, or fail on, the same key. */
  ghost predicate Write(s: State, a: Action, s': State) {
    match a
    case DoPutBalance(p) =>
      At(s, p, PutBalance) &&
      var q := s.procs[p];
      s' == Put(s, p, q.(pc := PutRow, pending := q.pending.(balance := Some((q.ch.wallet, q.newBalance)))))
    case DoPutRow(p) =>
      At(s, p, PutRow) && s.procs[p].txn.Some? &&
      var q := s.procs[p];
      if !Storable(q.txn.value) then s' == Abort(s, p, Internal)
      else
        var next := if q.req.Pay? then PutLog else if q.req.Refund? then PutReversal else Committing;
        s' == Put(s, p, q.(pc := next, pending := q.pending.(row := q.txn)))
    case DoPutReversal(p, at) =>
      At(s, p, PutReversal) &&
      var q := s.procs[p];
      if q.ch.orig !in s.db.ledger then s' == Abort(s, p, Internal)
      else
        s' == Put(s, p, q.(pc := PutLog, ch := q.ch.(reversedAt := at),
                           pending := q.pending.(reversal := Some((q.ch.orig, at)))))
    case DoPutLog(p) =>
      At(s, p, PutLog) && !s.procs[p].req.TopUp? && s.procs[p].txn.Some? &&
      var q := s.procs[p];
      var k := KeyOf(q.req);
      if k in s.db.log then s' == Abort(s, p, Internal)
      else
        k !in s.claims &&
        s' == Put(s, p, q.(pc := Committing,
                           pending := q.pending.(entry := Some((k, LogEntry(q.ch.id, Marshal(q.txn.value)))))))
              .(claims := s.claims[k := p])
    case _ => false
  }

  /** The commit takes effect; its acknowledgement may still be lost. */
  ghost predicate CommitStep(s: State, a: Action, s': State)
    requires a.DoCommit?
  {
    At(s, a.p, Committing) && s.procs[a.p].txn.Some? &&
    var q := s.procs[a.p];
    var q' := if !a.reported then Reject(q, Internal)
              else if q.req.TopUp? then Serve(q, q.txn.value)
              else q.(pc := CacheSet);
    s' == Put(Release(s, a.p), a.p, q')
          .(db := Commit(s.db, q.pending), history := s.history + [Commitment(q.req, q.ch)])
  }

  ghost predicate CacheStep(s: State, a: Action, s': State)
    requires a.DoCacheSet?
  {
    At(s, a.p, CacheSet) && !s.procs[a.p].req.TopUp? && s.procs[a.p].txn.Some? &&
    var q := s.procs[a.p];
    var t := q.txn.value;
    s' == Put(s, a.p, Serve(q, t)).(cache := if a.stored then s.cache[KeyOf(q.req) := Marshal(t)] else s.cache)
  }

  predicate InFlight(s: State, p: ProcId) {
    p in s.procs && s.procs[p].pc != Done && s.procs[p].pc != Crashed
  }

  /** Calls that can return an error before the commit has taken effect. */
  predicate CanFail(pc: PC) {
    2 <= Rank(pc) <= 11
  }

  ghost predicate Step(s: State, a: Action, s': State) {
    match a
    case Register(w, m) =>
      CanRegister(s.db, w, m) &&
      s' == s.(db := Registered(s.db, w, m), history := s.history + [Registration(w, m)])
    case Evict(k) => s' == s.(cache := s.cache - {k})
    case Arrive(p, r) => p !in s.procs && ValidRequest(r) && s' == Put(s, p, NewProc(r))
    case DoLock(_, _, _, _, _) => Lock(s, a, s')
    case DoPutBalance(_) => Write(s, a, s')
    case DoPutRow(_) => Write(s, a, s')
    case DoPutReversal(_, _) => Write(s, a, s')
    case DoPutLog(_) => Write(s, a, s')
    case DoCommit(_, _) => CommitStep(s, a, s')
    case DoCacheSet(_, _) => CacheStep(s, a, s')
    case Fail(p) => p in s.procs && CanFail(s.procs[p].pc) && s' == Abort(s, p, Internal)
    case Crash(p) => InFlight(s, p) && s' == Put(Release(s, p), p, s.procs[p].(pc := Crashed))
    case _ => Local(s, a, s')
  }

  /** A run: states joined by steps, from the empty system. */
  ghost predicate Run(tr: seq<State>, acts: seq<Action>) {
    |tr| == |acts| + 1 && tr[0] == INIT &&
    forall i :: 0 <= i < |acts| ==> Step(tr[i], acts[i], tr[i + 1])
  }
}
