/** The inductive invariant of the protocol, and its preservation step by step. */
module ProtocolInvariant {
  import opened Domain
  import opened Keys
  import opened Ledger
  import opened LedgerInvariant
  import opened Protocol

  predicate Holding(pc: PC) {
    7 <= Rank(pc) <= 11
  }

  /** The refunded row as it was read agrees with the committed one on all that a refund relies on;
      only its status may have moved since. */
  ghost predicate OrigOk(db: Tables, q: Proc) {
    && q.req.Refund? && q.orig.Some? && RefMatches(db, q.ch.orig, q.req.merchant, q.req.ref)
    && var o := db.ledger[q.ch.orig];
       o.kind == PAYMENT && o.amount == q.orig.value.amount && o.wallet == q.orig.value.wallet
  }

  /** The amount has been checked for this request. */
  ghost predicate AmountOk(db: Tables, q: Proc) {
    if q.req.Refund? then
      && OrigOk(db, q) && q.amount == RefundAmount(q.req, db.ledger[q.ch.orig])
      && 0 < q.amount <= db.ledger[q.ch.orig].amount
    else q.amount == q.req.amount && 0 < q.amount
  }

  /** The writes issued so far, by position. */
  ghost function Issued(q: Proc, t: Transaction): Writes {
    var n := Rank(q.pc);
    Writes(if n > 7 then Some((q.ch.wallet, q.newBalance)) else None,
           if n > 8 then Some(t) else None,
           if n > 9 && q.req.Refund? then Some((q.ch.orig, q.ch.reversedAt)) else None,
           if n > 10 && !q.req.TopUp? then Some((KeyOf(q.req), LogEntry(q.ch.id, Marshal(t)))) else None)
  }

  /** A process inside its transaction holds its wallet and has read the committed balance. */
  ghost predicate HoldOk(db: Tables, locks: map<WalletId, ProcId>, p: ProcId, q: Proc) {
    var w := q.ch.wallet;
    && Selects(db, q, w) && w in locks && locks[w] == p && q.ch.id !in db.ledger
    && q.newBalance == NewBalance(q.req, db.wallets[w].balance, q.amount)
    && (q.req.Pay? ==> q.amount <= db.wallets[w].balance)
    && q.txn == Some(NewRow(q.req, q.ch, q.amount))
    && q.pending == Issued(q, q.txn.value)
    && (Rank(q.pc) > 8 ==> Storable(q.txn.value))
    && InInt64(q.ch.now)
  }

  /** A key at the commit is claimed, and nobody has logged it. */
  ghost predicate ClaimOk(db: Tables, claims: map<string, ProcId>, p: ProcId, q: Proc) {
    !q.req.TopUp? ==> var k := KeyOf(q.req); k in claims && claims[k] == p && k !in db.log
  }

  /** A transaction the tables answer this request with. */
  ghost predicate Answers(db: Tables, r: Request, t: Transaction) {
    if r.TopUp? then t.id in db.ledger && db.ledger[t.id] == t && t.kind == TOPUP && t.merchant == r.merchant && t.amount == r.amount
    else KeyOf(r) in db.log && db.log[KeyOf(r)].response == Marshal(t)
  }

  ghost predicate PathOk(q: Proc) {
    match q.pc
    case CheckAmount => !q.req.Refund?
    case CacheGet => !q.req.TopUp?
    case LogGet => !q.req.TopUp?
    case FindOriginal => q.req.Refund?
    case CheckRefund => q.req.Refund?
    case PutReversal => q.req.Refund?
    case PutLog => !q.req.TopUp?
    case CacheSet => !q.req.TopUp?
    case _ => true
  }

  ghost predicate ProcOk(db: Tables, locks: map<WalletId, ProcId>, claims: map<string, ProcId>, p: ProcId, q: Proc) {
    var n := Rank(q.pc);
    && ValidRequest(q.req) && PathOk(q)
    && (n < 7 ==> q.pending == NO_WRITES)
    && (!q.req.Refund? && n < 7 ==> q.amount == q.req.amount)
    && (!q.req.Refund? && 1 <= n < 7 ==> 0 < q.amount)
    && (q.pc == CheckRefund ==> OrigOk(db, q))
    && (5 <= n <= 11 ==> AmountOk(db, q))
    && (Holding(q.pc) ==> HoldOk(db, locks, p, q))
    && (q.pc == Committing ==> ClaimOk(db, claims, p, q))
    && (q.pc == CacheSet ==> q.txn.Some? && Answers(db, q.req, q.txn.value))
    && (q.pc == Done && q.reply.Some? && q.reply.value.Ok? ==> Answers(db, q.req, q.reply.value.txn))
  }

  ghost predicate ProcsOk(s: State) {
    forall p :: p in s.procs ==> ProcOk(s.db, s.locks, s.claims, p, s.procs[p])
  }

  ghost predicate LocksOk(s: State) {
    forall w :: w in s.locks ==>
      s.locks[w] in s.procs && Holding(s.procs[s.locks[w]].pc) && s.procs[s.locks[w]].ch.wallet == w
  }

  ghost predicate Claimer(s: State, k: string, p: ProcId) {
    p in s.procs && s.procs[p].pc == Committing && !s.procs[p].req.TopUp? && KeyOf(s.procs[p].req) == k
  }

  ghost predicate ClaimsOk(s: State) {
    forall k :: k in s.claims ==> Claimer(s, k, s.claims[k])
  }

  ghost predicate IdsOk(s: State) {
    && (forall id :: id in s.db.ledger ==> id in s.used)
    && (forall p :: p in s.procs && Holding(s.procs[p].pc) ==> s.procs[p].ch.id in s.used)
    && (forall p, o :: p in s.procs && o in s.procs && p != o && Holding(s.procs[p].pc) && Holding(s.procs[o].pc) ==>
          s.procs[p].ch.id != s.procs[o].ch.id)
  }

  /** Every cached response is the logged one. */
  ghost predicate CacheOk(s: State) {
    forall k :: k in s.cache ==> k in s.db.log && s.db.log[k].response == s.cache[k]
  }

  /** The part of the invariant about running requests. */
  ghost predicate Sessions(s: State) {
    ProcsOk(s) && LocksOk(s) && ClaimsOk(s) && IdsOk(s) && CacheOk(s)
  }

  ghost predicate Inv(s: State) {
    Replay(s.history) == Some(s.db) && LedgerInv(s.db) && Sessions(s)
  }

  // ---- steps that change only one process ----

  /** A process depends on the locks and claims only through the entries it owns. */
  lemma MapsMatter(db: Tables, locks: map<WalletId, ProcId>, claims: map<string, ProcId>,
                   locks': map<WalletId, ProcId>, claims': map<string, ProcId>, o: ProcId, q: Proc)
    requires ProcOk(db, locks, claims, o, q)
    requires forall w :: w in locks && locks[w] == o ==> w in locks' && locks'[w] == o
    requires forall k :: k in claims && claims[k] == o ==> k in claims' && claims'[k] == o
    ensures ProcOk(db, locks', claims', o, q)
  {
  }

  /** `s'` differs from `s`, for processes other than `p`, at most in locks and claims that they do not own. */
  ghost predicate SameForOthers(s: State, p: ProcId, s': State) {
    && s'.db == s.db && p in s'.procs && s'.procs == s.procs[p := s'.procs[p]]
    && (forall w :: w in s.locks && s.locks[w] != p ==> w in s'.locks && s'.locks[w] == s.locks[w])
    && (forall k :: k in s.claims && s.claims[k] != p ==> k in s'.claims && s'.claims[k] == s.claims[k])
  }

  lemma OthersStay(s: State, p: ProcId, s': State)
    requires ProcsOk(s) && SameForOthers(s, p, s')
    ensures forall o :: o in s'.procs && o != p ==> ProcOk(s'.db, s'.locks, s'.claims, o, s'.procs[o])
  {
    forall o | o in s'.procs && o != p ensures ProcOk(s'.db, s'.locks, s'.claims, o, s'.procs[o]) {
      assert ProcOk(s.db, s.locks, s.claims, o, s.procs[o]);
      MapsMatter(s.db, s.locks, s.claims, s'.locks, s'.claims, o, s.procs[o]);
    }
  }

  /** The process stays, or is not, inside its transaction, with the same wallet and id. */
  ghost predicate SameHold(s: State, p: ProcId, q: Proc) {
    if p in s.procs && Holding(s.procs[p].pc)
    then Holding(q.pc) && q.ch.wallet == s.procs[p].ch.wallet && q.ch.id == s.procs[p].ch.id && s.procs[p].pc != Committing
    else !Holding(q.pc)
  }

  lemma PutMaps(s: State, p: ProcId, q: Proc)
    requires LocksOk(s) && ClaimsOk(s) && IdsOk(s) && SameHold(s, p, q)
    ensures LocksOk(Put(s, p, q)) && ClaimsOk(Put(s, p, q)) && IdsOk(Put(s, p, q))
  {
    var s' := Put(s, p, q);
    forall k | k in s'.claims ensures Claimer(s', k, s'.claims[k]) { assert Claimer(s, k, s.claims[k]); }
  }

  /** A new process state that satisfies its own invariant, and keeps its lock or has none, keeps everything. */
  lemma PutKeeps(s: State, p: ProcId, q: Proc)
    requires Sessions(s) && SameHold(s, p, q)
    requires ProcOk(s.db, s.locks, s.claims, p, q)
    ensures Sessions(Put(s, p, q))
  {
    PutMaps(s, p, q);
  }

  /** The lookups of a payment or refund keep its invariant. */
  lemma LookupProc(s: State, a: Action, s': State)
    requires Local(s, a, s') && CacheOk(s) && (a.DoCacheGet? || a.DoLogGet?)
    requires ProcOk(s.db, s.locks, s.claims, a.p, s.procs[a.p])
    ensures ProcOk(s'.db, s'.locks, s'.claims, a.p, s'.procs[a.p])
  {
  }

  lemma StartProc(s: State, a: Action, s': State)
    requires Local(s, a, s') && (a.DoCheckAmount? || a.DoBegin?)
    requires ProcOk(s.db, s.locks, s.claims, a.p, s.procs[a.p])
    ensures ProcOk(s'.db, s'.locks, s'.claims, a.p, s'.procs[a.p])
  {
  }

  lemma FindProc(s: State, a: Action, s': State)
    requires Local(s, a, s') && a.DoFind?
    requires ProcOk(s.db, s.locks, s.claims, a.p, s.procs[a.p])
    ensures ProcOk(s'.db, s'.locks, s'.claims, a.p, s'.procs[a.p])
  {
  }

  lemma EligibilityProc(s: State, a: Action, s': State)
    requires Local(s, a, s') && a.DoCheckRefund?
    requires ProcOk(s.db, s.locks, s.claims, a.p, s.procs[a.p])
    requires 0 < s.db.ledger[s.procs[a.p].ch.orig].amount
    ensures ProcOk(s'.db, s'.locks, s'.claims, a.p, s'.procs[a.p])
  {
  }

  lemma LocalKeeps(s: State, a: Action, s': State)
    requires Local(s, a, s') && Sessions(s) && RowsOk(s.db)
    ensures Sessions(s')
  {
    var q := s.procs[a.p];
    assert ProcOk(s.db, s.locks, s.claims, a.p, q);
    if a.DoFind? {
      FindProc(s, a, s');
    } else if a.DoCheckRefund? {
      assert RowOk(s.db, q.ch.orig);
      EligibilityProc(s, a, s');
    } else if a.DoCacheGet? || a.DoLogGet? {
      LookupProc(s, a, s');
    } else {
      StartProc(s, a, s');
    }
    PutKeeps(s, a.p, s'.procs[a.p]);
  }

  // ---- ending a session ----

  ghost predicate Ended(q: Proc, q': Proc) {
    q'.req == q.req && (q'.pc == Crashed || (q'.pc == Done && q'.reply.Some? && q'.reply.value.Err?))
  }

  lemma EndedOk(s: State, p: ProcId, q: Proc)
    requires p in s.procs && ProcOk(s.db, s.locks, s.claims, p, s.procs[p]) && Ended(s.procs[p], q)
    ensures ProcOk(s.db, Without(s.locks, p), Without(s.claims, p), p, q)
  {
  }

  lemma ReleaseProcs(s: State, p: ProcId, q: Proc)
    requires ProcsOk(s) && p in s.procs && Ended(s.procs[p], q)
    ensures ProcsOk(Put(Release(s, p), p, q))
  {
    var s' := Put(Release(s, p), p, q);
    assert ProcOk(s.db, s.locks, s.claims, p, s.procs[p]);
    EndedOk(s, p, q);
    OthersStay(s, p, s');
  }

  lemma ReleaseMaps(s: State, p: ProcId, q: Proc)
    requires LocksOk(s) && ClaimsOk(s) && IdsOk(s) && p in s.procs && !Holding(q.pc)
    ensures var s' := Put(Release(s, p), p, q); LocksOk(s') && ClaimsOk(s') && IdsOk(s')
  {
    var s' := Put(Release(s, p), p, q);
    forall k | k in s'.claims ensures Claimer(s', k, s'.claims[k]) { assert Claimer(s, k, s.claims[k]); }
  }

  lemma ReleaseKeeps(s: State, p: ProcId, q: Proc)
    requires Sessions(s) && p in s.procs && Ended(s.procs[p], q)
    ensures Sessions(Put(Release(s, p), p, q))
  {
    ReleaseProcs(s, p, q);
    ReleaseMaps(s, p, q);
  }

  // ---- taking the lock, and writing ----

  lemma LockerOk(s: State, a: Action, s': State)
    requires a.DoLock? && Lock(s, a, s') && s'.procs[a.p].pc != Done
    requires ProcOk(s.db, s.locks, s.claims, a.p, s.procs[a.p]) && forall id :: id in s.db.ledger ==> id in s.used
    ensures ProcOk(s'.db, s'.locks, s'.claims, a.p, s'.procs[a.p])
  {
  }

  lemma LockedProcs(s: State, a: Action, s': State)
    requires ProcsOk(s) && IdsOk(s) && a.DoLock? && Lock(s, a, s') && s'.procs[a.p].pc != Done
    ensures ProcsOk(s')
  {
    assert ProcOk(s.db, s.locks, s.claims, a.p, s.procs[a.p]);
    LockerOk(s, a, s');
    OthersStay(s, a.p, s');
  }

  lemma LockedMaps(s: State, a: Action, s': State)
    requires LocksOk(s) && ClaimsOk(s) && IdsOk(s) && a.DoLock? && Lock(s, a, s') && s'.procs[a.p].pc != Done
    ensures LocksOk(s') && ClaimsOk(s') && IdsOk(s')
  {
    forall k | k in s'.claims ensures Claimer(s', k, s'.claims[k]) { assert Claimer(s, k, s.claims[k]); }
  }

  lemma LockKeeps(s: State, a: Action, s': State)
    requires Sessions(s) && a.DoLock? && Lock(s, a, s')
    ensures Sessions(s')
  {
    if s'.procs[a.p].pc == Done {
      ReleaseKeeps(s, a.p, s'.procs[a.p]);
    } else {
      LockedProcs(s, a, s');
      LockedMaps(s, a, s');
    }
  }

  lemma WriterOk(s: State, a: Action, s': State)
    requires (a.DoPutBalance? || a.DoPutRow? || a.DoPutReversal?) && Write(s, a, s') && s'.procs[a.p].pc != Done
    requires ProcOk(s.db, s.locks, s.claims, a.p, s.procs[a.p])
    ensures ProcOk(s'.db, s'.locks, s'.claims, a.p, s'.procs[a.p])
  {
  }

  lemma ClaimerOk(s: State, a: Action, s': State)
    requires a.DoPutLog? && Write(s, a, s') && s'.procs[a.p].pc != Done
    requires ProcOk(s.db, s.locks, s.claims, a.p, s.procs[a.p])
    ensures ProcOk(s'.db, s'.locks, s'.claims, a.p, s'.procs[a.p])
  {
  }

  lemma ClaimProcs(s: State, a: Action, s': State)
    requires ProcsOk(s) && ClaimsOk(s) && a.DoPutLog? && Write(s, a, s') && s'.procs[a.p].pc != Done
    ensures ProcsOk(s')
  {
    assert ProcOk(s.db, s.locks, s.claims, a.p, s.procs[a.p]);
    ClaimerOk(s, a, s');
    OthersStay(s, a.p, s');
  }

  lemma ClaimMaps(s: State, a: Action, s': State)
    requires LocksOk(s) && ClaimsOk(s) && IdsOk(s) && a.DoPutLog? && Write(s, a, s') && s'.procs[a.p].pc != Done
    ensures LocksOk(s') && ClaimsOk(s') && IdsOk(s')
  {
    forall k | k in s'.claims ensures Claimer(s', k, s'.claims[k]) {
      if k in s.claims { assert Claimer(s, k, s.claims[k]); }
    }
  }

  lemma ClaimKeeps(s: State, a: Action, s': State)
    requires Sessions(s) && a.DoPutLog? && Write(s, a, s') && s'.procs[a.p].pc != Done
    ensures Sessions(s')
  {
    ClaimProcs(s, a, s');
    ClaimMaps(s, a, s');
  }

  /** A write fails and ends the session, or is the log insert, or moves the process on inside its transaction. */
  lemma WriteEffect(s: State, a: Action, s': State)
    requires Write(s, a, s')
    ensures a.p in s.procs && a.p in s'.procs
    ensures s'.procs[a.p].pc == Done ==> Ended(s.procs[a.p], s'.procs[a.p]) && s' == Put(Release(s, a.p), a.p, s'.procs[a.p])
    ensures s'.procs[a.p].pc != Done && !a.DoPutLog? ==>
              (a.DoPutBalance? || a.DoPutRow? || a.DoPutReversal?) && SameHold(s, a.p, s'.procs[a.p]) && s' == Put(s, a.p, s'.procs[a.p])
  {
  }

  lemma WriteKeeps(s: State, a: Action, s': State)
    requires Sessions(s) && Write(s, a, s')
    ensures Sessions(s')
  {
    WriteEffect(s, a, s');
    if s'.procs[a.p].pc == Done {
      ReleaseKeeps(s, a.p, s'.procs[a.p]);
    } else if a.DoPutLog? {
      ClaimKeeps(s, a, s');
    } else {
      assert ProcOk(s.db, s.locks, s.claims, a.p, s.procs[a.p]);
      WriterOk(s, a, s');
      PutKeeps(s, a.p, s'.procs[a.p]);
    }
  }

  // ---- the commit ----

  lemma RefundLogged(db: Tables, orig: TxId, x: TxId)
    requires RowsOk(db) && RefundedBy(db, orig, x)
    ensures orig in db.ledger && RefundKey(db.ledger[orig].merchant, db.ledger[orig].ref) in db.log
  {
    assert RowOk(db, x);
  }

  /** The pivotal step. A refund read its original as SUCCESS long before; when it commits that is still so:
      had another refund reversed it, that one would have logged the very key this one has claimed. */
  lemma OriginalStillSuccess(db: Tables, q: Proc)
    requires Structure(db) && OrigOk(db, q) && KeyOf(q.req) !in db.log
    ensures db.ledger[q.ch.orig].IsRefundable() && !RefundExists(db, q.ch.orig)
  {
    var orig := q.ch.orig;
    assert RowOk(db, orig);
    forall x ensures !RefundedBy(db, orig, x) {
      if RefundedBy(db, orig, x) { RefundLogged(db, orig, x); }
    }
    assert RefundExists(db, orig) ==> exists x :: RefundedBy(db, orig, x);
  }

  /** What commits is what the request would have done alone, at this instant. */
  lemma CommitIsAtomic(db: Tables, locks: map<WalletId, ProcId>, claims: map<string, ProcId>, p: ProcId, q: Proc)
    requires ProcOk(db, locks, claims, p, q) && q.pc == Committing
    requires q.req.Refund? ==> db.ledger[q.ch.orig].IsRefundable() && !RefundExists(db, q.ch.orig)
    ensures Execute(db, q.req, q.ch) == Committed(Commit(db, q.pending), q.txn.value)
  {
    assert Execute(db, q.req, q.ch) == Post(db, q.req, q.ch, q.amount);
  }

  /** What one committed request leaves alone for everybody else. */
  ghost predicate Frame(db: Tables, db': Tables, w: WalletId, id: TxId, key: Option<string>) {
    && db.wallets.Keys == db'.wallets.Keys
    && (forall v :: v in db.wallets ==> db'.wallets[v].merchant == db.wallets[v].merchant && db'.wallets[v].currency == db.wallets[v].currency)
    && (forall v :: v in db.wallets && v != w ==> db'.wallets[v] == db.wallets[v])
    && (forall i :: i in db'.ledger <==> i in db.ledger || i == id)
    && (forall i :: i in db.ledger ==> AsCreated(db'.ledger[i]) == AsCreated(db.ledger[i]))
    && (forall i :: i in db.ledger && db.ledger[i].kind != PAYMENT ==> db'.ledger[i] == db.ledger[i])
    && (forall k :: k in db.log ==> k in db'.log && db'.log[k] == db.log[k])
    && (forall k :: k in db'.log && k !in db.log ==> key == Some(k))
  }

  ghost function LogKey(r: Request): Option<string> {
    if r.TopUp? then None else Some(KeyOf(r))
  }

  lemma CommitFrames(db: Tables, locks: map<WalletId, ProcId>, claims: map<string, ProcId>, p: ProcId, q: Proc)
    requires ProcOk(db, locks, claims, p, q) && q.pc == Committing
    ensures Frame(db, Commit(db, q.pending), q.ch.wallet, q.ch.id, LogKey(q.req))
  {
  }

  /** Any other process is where it was: its wallet, its id, its key and its reads are untouched. */
  lemma OthersKeep(db: Tables, db': Tables, w: WalletId, id: TxId, key: Option<string>,
                   locks: map<WalletId, ProcId>, claims: map<string, ProcId>, p: ProcId, o: ProcId, q: Proc)
    requires Frame(db, db', w, id, key) && ProcOk(db, locks, claims, o, q) && o != p
    requires Holding(q.pc) ==> q.ch.id != id
    requires w in locks ==> locks[w] == p
    requires key.Some? && key.value in claims ==> claims[key.value] == p
    ensures ProcOk(db', Without(locks, p), Without(claims, p), o, q)
  {
    if OrigOk(db, q) {
      assert AsCreated(db'.ledger[q.ch.orig]) == AsCreated(db.ledger[q.ch.orig]);
      assert OrigOk(db', q);
    }
  }

  /** The process that commits is answered, or told of an error. */
  lemma CommitterOk(s: State, a: Action, s': State)
    requires a.DoCommit? && CommitStep(s, a, s')
    requires ProcOk(s.db, s.locks, s.claims, a.p, s.procs[a.p])
    ensures ProcOk(s'.db, s'.locks, s'.claims, a.p, s'.procs[a.p])
  {
    CommitAnswers(s.db, s.locks, s.claims, a.p, s.procs[a.p]);
    AnsweredOk(s'.db, s'.locks, s'.claims, a.p, s'.procs[a.p]);
  }

  /** Once committed or answered, a process asks nothing of locks and claims. */
  lemma AnsweredOk(db: Tables, locks: map<WalletId, ProcId>, claims: map<string, ProcId>, p: ProcId, q: Proc)
    requires ValidRequest(q.req) && (q.pc == Done || (q.pc == CacheSet && !q.req.TopUp? && q.txn.Some?))
    requires q.pc == CacheSet ==> Answers(db, q.req, q.txn.value)
    requires q.pc == Done && q.reply.Some? && q.reply.value.Ok? ==> Answers(db, q.req, q.reply.value.txn)
    ensures ProcOk(db, locks, claims, p, q)
  {
  }

  lemma CommitAnswers(db: Tables, locks: map<WalletId, ProcId>, claims: map<string, ProcId>, p: ProcId, q: Proc)
    requires ProcOk(db, locks, claims, p, q) && q.pc == Committing
    ensures q.txn.Some? && Answers(Commit(db, q.pending), q.req, q.txn.value)
  {
  }

  lemma CommitOther(s: State, a: Action, s': State, o: ProcId)
    requires a.DoCommit? && CommitStep(s, a, s') && LocksOk(s) && ClaimsOk(s) && IdsOk(s)
    requires ProcOk(s.db, s.locks, s.claims, a.p, s.procs[a.p])
    requires o in s.procs && o != a.p && ProcOk(s.db, s.locks, s.claims, o, s.procs[o])
    ensures ProcOk(s'.db, s'.locks, s'.claims, o, s'.procs[o])
  {
    var q := s.procs[a.p];
    CommitFrames(s.db, s.locks, s.claims, a.p, q);
    OthersKeep(s.db, s'.db, q.ch.wallet, q.ch.id, LogKey(q.req), s.locks, s.claims, a.p, o, s.procs[o]);
  }

  lemma CommitProcs(s: State, a: Action, s': State)
    requires Sessions(s) && a.DoCommit? && CommitStep(s, a, s')
    ensures ProcsOk(s')
  {
    assert ProcOk(s.db, s.locks, s.claims, a.p, s.procs[a.p]);
    CommitterOk(s, a, s');
    forall o | o in s'.procs && o != a.p ensures ProcOk(s'.db, s'.locks, s'.claims, o, s'.procs[o]) {
      assert ProcOk(s.db, s.locks, s.claims, o, s.procs[o]);
      CommitOther(s, a, s', o);
    }
  }

  lemma CommitTables(s: State, a: Action, s': State)
    requires a.DoCommit? && CommitStep(s, a, s') && CacheOk(s) && IdsOk(s)
    requires ProcOk(s.db, s.locks, s.claims, a.p, s.procs[a.p])
    ensures CacheOk(s') && forall id :: id in s'.db.ledger ==> id in s'.used
  {
    CommitFrames(s.db, s.locks, s.claims, a.p, s.procs[a.p]);
  }

  lemma CommitMaps(s: State, a: Action, s': State)
    requires LocksOk(s) && ClaimsOk(s) && IdsOk(s) && a.DoCommit? && CommitStep(s, a, s')
    requires forall id :: id in s'.db.ledger ==> id in s'.used
    ensures LocksOk(s') && ClaimsOk(s') && IdsOk(s')
  {
    forall k | k in s'.claims ensures Claimer(s', k, s'.claims[k]) { assert Claimer(s, k, s.claims[k]); }
  }

  lemma CommitKeeps(s: State, a: Action, s': State)
    requires Sessions(s) && a.DoCommit? && CommitStep(s, a, s')
    ensures Sessions(s')
  {
    assert ProcOk(s.db, s.locks, s.claims, a.p, s.procs[a.p]);
    CommitProcs(s, a, s');
    CommitTables(s, a, s');
    CommitMaps(s, a, s');
  }

  lemma CommitReplays(s: State, a: Action, s': State)
    requires Inv(s) && a.DoCommit? && CommitStep(s, a, s')
    ensures Replay(s'.history) == Some(s'.db) && LedgerInv(s'.db)
  {
    var q := s.procs[a.p];
    assert ProcOk(s.db, s.locks, s.claims, a.p, q);
    if q.req.Refund? { OriginalStillSuccess(s.db, q); }
    CommitIsAtomic(s.db, s.locks, s.claims, a.p, q);
    ReplayExtend(s.history, Commitment(q.req, q.ch));
    ReplayInv(s'.history);
  }

  // ---- the remaining steps ----

  lemma RegisterKeeps(s: State, w: WalletId, m: Uuid, s': State)
    requires Sessions(s) && Step(s, Register(w, m), s')
    ensures Sessions(s')
  {
    forall o | o in s'.procs ensures ProcOk(s'.db, s'.locks, s'.claims, o, s'.procs[o]) {
      assert ProcOk(s.db, s.locks, s.claims, o, s.procs[o]);
    }
    forall k | k in s'.claims ensures Claimer(s', k, s'.claims[k]) { assert Claimer(s, k, s.claims[k]); }
  }

  lemma CacheKeeps(s: State, a: Action, s': State)
    requires Sessions(s) && a.DoCacheSet? && CacheStep(s, a, s')
    ensures Sessions(s')
  {
    assert ProcOk(s.db, s.locks, s.claims, a.p, s.procs[a.p]);
    CacheEffect(s, a, s');
    PutKeeps(s, a.p, s'.procs[a.p]);
    CacheSetKeeps(Put(s, a.p, s'.procs[a.p]), s');
  }

  lemma CacheEffect(s: State, a: Action, s': State)
    requires a.DoCacheSet? && CacheStep(s, a, s') && CacheOk(s)
    requires ProcOk(s.db, s.locks, s.claims, a.p, s.procs[a.p])
    ensures SameHold(s, a.p, s'.procs[a.p]) && ProcOk(s.db, s.locks, s.claims, a.p, s'.procs[a.p])
    ensures s' == Put(s, a.p, s'.procs[a.p]).(cache := s'.cache) && CacheOk(s')
  {
    AnsweredOk(s.db, s.locks, s.claims, a.p, s'.procs[a.p]);
  }

  lemma CacheSetKeeps(s: State, s': State)
    requires Sessions(s) && s' == s.(cache := s'.cache) && CacheOk(s')
    ensures Sessions(s')
  {
    forall o | o in s'.procs ensures ProcOk(s'.db, s'.locks, s'.claims, o, s'.procs[o]) {
      assert ProcOk(s.db, s.locks, s.claims, o, s.procs[o]);
    }
    forall k | k in s'.claims ensures Claimer(s', k, s'.claims[k]) { assert Claimer(s, k, s.claims[k]); }
  }

  /** A failed call or a crash ends the session. */
  lemma EndKeeps(s: State, a: Action, s': State)
    requires Sessions(s) && (a.Fail? || a.Crash?) && Step(s, a, s')
    ensures Sessions(s')
  {
    ReleaseKeeps(s, a.p, s'.procs[a.p]);
  }

  lemma TransactionKeeps(s: State, a: Action, s': State)
    requires Sessions(s) && Step(s, a, s')
    requires a.DoLock? || a.DoPutBalance? || a.DoPutRow? || a.DoPutReversal? || a.DoPutLog? || a.DoCommit?
    ensures Sessions(s')
  {
    if a.DoLock? {
      LockKeeps(s, a, s');
    } else if a.DoCommit? {
      CommitKeeps(s, a, s');
    } else {
      WriteKeeps(s, a, s');
    }
  }

  lemma OutsideKeeps(s: State, a: Action, s': State)
    requires Sessions(s) && Step(s, a, s') && (a.Register? || a.Evict? || a.Arrive?)
    ensures Sessions(s')
  {
    match a
    case Register(w, m) => RegisterKeeps(s, w, m, s');
    case Evict(_) => CacheSetKeeps(s, s');
    case Arrive(p, r) => PutKeeps(s, p, NewProc(r));
  }

  lemma StepSessions(s: State, a: Action, s': State)
    requires Sessions(s) && RowsOk(s.db) && Step(s, a, s')
    ensures Sessions(s')
  {
    if a.DoLock? || a.DoPutBalance? || a.DoPutRow? || a.DoPutReversal? || a.DoPutLog? || a.DoCommit? {
      TransactionKeeps(s, a, s');
    } else if a.Register? || a.Evict? || a.Arrive? {
      OutsideKeeps(s, a, s');
    } else if a.DoCacheSet? {
      CacheKeeps(s, a, s');
    } else if a.Fail? || a.Crash? {
      EndKeeps(s, a, s');
    } else {
      LocalKeeps(s, a, s');
    }
  }

  /** Only a registration or a commit touches the tables. */
  lemma StepTables(s: State, a: Action, s': State)
    requires Step(s, a, s') && !a.Register? && !a.DoCommit?
    ensures s'.db == s.db && s'.history == s.history
  {
  }

  /** Every step keeps the invariant. */
  lemma StepKeeps(s: State, a: Action, s': State)
    requires Inv(s) && Step(s, a, s')
    ensures Inv(s')
  {
    StepSessions(s, a, s');
    if a.DoCommit? {
      CommitReplays(s, a, s');
    } else if a.Register? {
      ReplayExtend(s.history, Registration(a.wallet, a.merchant));
      ReplayInv(s'.history);
    } else {
      StepTables(s, a, s');
    }
  }

  lemma InitInv()
    ensures Inv(INIT)
  {
  }

  /** A run as the invariant sees it. */
  ghost predicate Preserves(tr: seq<State>) {
    tr != [] && Inv(tr[0]) && forall i :: 0 <= i < |tr| - 1 && Inv(tr[i]) ==> Inv(tr[i + 1])
  }

  lemma RunPreserves(tr: seq<State>, acts: seq<Action>)
    requires Run(tr, acts)
    ensures Preserves(tr)
  {
    InitInv();
    forall i | 0 <= i < |tr| - 1 && Inv(tr[i]) ensures Inv(tr[i + 1]) {
      StepKeeps(tr[i], acts[i], tr[i + 1]);
    }
  }

  lemma {:induction false} PreservedAt(tr: seq<State>, i: nat)
    requires Preserves(tr) && i < |tr|
    ensures Inv(tr[i])
  {
    if i > 0 { PreservedAt(tr, i - 1); }
  }

  /** Every state of every run satisfies the invariant. */
  lemma {:induction false} RunInv(tr: seq<State>, acts: seq<Action>, i: nat)
    requires Run(tr, acts) && i < |tr|
    ensures Inv(tr[i])
  {
    RunPreserves(tr, acts);
    PreservedAt(tr, i);
  }
}
