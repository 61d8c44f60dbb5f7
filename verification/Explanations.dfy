/** Which refusals some moment of the request's life explains: linearizability of refusals, exactly. */
module Explanations {
  import opened Domain
  import opened Keys
  import opened Ledger
  import opened LedgerInvariant
  import opened Protocol
  import opened ProtocolInvariant
  import opened Progress
  import opened Answers
  import opened Limits
  import opened Effects

  // ---- one moment ----

  /** Executed alone on these tables the request can be refused with `e`. */
  ghost predicate Explains(db: Tables, r: Request, e: Error) {
    exists ch: Choice :: Answered(db, r, ch) && Execute(db, r, ch) == Rejected(e)
  }

  ghost predicate Covered(db: Tables, w: WalletId, r: Request)
    requires !r.Refund?
  {
    WalletMatches(db, w, r.merchant, r.currency) && r.amount <= db.wallets[w].balance
  }

  ghost predicate Short(db: Tables, w: WalletId, r: Request)
    requires !r.Refund?
  {
    WalletMatches(db, w, r.merchant, r.currency) && db.wallets[w].balance < r.amount
  }

  /** The payment that a refund asks for, still to be refunded. */
  ghost predicate Open(db: Tables, id: TxId, r: Request)
    requires r.Refund?
  {
    RefMatches(db, id, r.merchant, r.ref) && db.ledger[id].IsRefundable()
  }

  /** A row of that reference that is no payment. */
  ghost predicate Clash(db: Tables, id: TxId, r: Request)
    requires r.Refund?
  {
    RefMatches(db, id, r.merchant, r.ref) && db.ledger[id].kind != PAYMENT
  }

  /** The grounds on which a payment is refused. */
  ghost predicate PayGround(db: Tables, r: Request, e: Error)
    requires r.Pay?
  {
    if r.amount <= 0 then e == InvalidAmount
    else
      KeyOf(r) !in db.log &&
      match e
      case WalletNotFound => forall w :: !WalletMatches(db, w, r.merchant, r.currency)
      case InsufficientFunds => exists w :: Short(db, w, r)
      case Internal => r.amount >= 1_000_000_000_000_000_000 && exists w :: Covered(db, w, r)
      case _ => false
  }

  /** The grounds on which a refund is refused. A duplicate is none: it would be answered. */
  ghost predicate RefundGround(db: Tables, r: Request, e: Error)
    requires r.Refund?
  {
    KeyOf(r) !in db.log &&
    match e
    case OriginalNotFound => forall id :: !RefMatches(db, id, r.merchant, r.ref)
    case InvalidRefund => exists id :: Clash(db, id, r)
    case InvalidAmount => r.amountOpt.Some? && r.amountOpt.value <= 0 && exists id :: Open(db, id, r)
    case RefundExceedsOriginal => r.amountOpt.Some? && exists id :: Open(db, id, r) && r.amountOpt.value > db.ledger[id].amount
    case Internal =>
      |r.ref| > 93 &&
      exists id :: Open(db, id, r) && (r.amountOpt.Some? ==> 0 < r.amountOpt.value <= db.ledger[id].amount)
    case _ => false
  }

  /** The grounds on which a top-up is refused. */
  ghost predicate TopUpGround(db: Tables, r: Request, e: Error)
    requires r.TopUp?
  {
    if r.amount <= 0 then e == InvalidAmount
    else
      match e
      case WalletNotFound => forall w :: !HasWallet(db, w, r.merchant, r.currency)
      case Internal => r.amount >= 1_000_000_000_000_000_000 && exists w :: HasWallet(db, w, r.merchant, r.currency)
      case _ => false
  }

  ghost predicate Ground(db: Tables, r: Request, e: Error) {
    match r
    case Pay(_, _, _, _, _, _, _) => PayGround(db, r, e)
    case Refund(_, _, _, _, _, _) => RefundGround(db, r, e)
    case TopUp(_, _, _) => TopUpGround(db, r, e)
  }

  lemma PayChoice(db: Tables, r: Request, ch: Choice, e: Error)
    requires ValidRequest(r) && r.Pay? && Answered(db, r, ch) && Execute(db, r, ch) == Rejected(e)
    ensures PayGround(db, r, e)
  {
    if r.amount > 0 && WalletMatches(db, ch.wallet, r.merchant, r.currency) {
      assert Short(db, ch.wallet, r) || Covered(db, ch.wallet, r);
    }
  }

  lemma PayWitness(db: Tables, r: Request, e: Error) returns (ch: Choice)
    requires ValidRequest(r) && r.Pay? && PayGround(db, r, e)
    ensures Answered(db, r, ch) && Execute(db, r, ch) == Rejected(e)
  {
    ch := Choice(0, 0, 0, "", 0, 0);
    if e == InsufficientFunds {
      var w :| Short(db, w, r);
      ch := ch.(wallet := w);
    } else if e == Internal {
      var w :| Covered(db, w, r);
      ch := ch.(wallet := w);
    } else if w :| WalletMatches(db, w, r.merchant, r.currency) {
      ch := ch.(wallet := w);
    }
  }

  lemma TopUpChoice(db: Tables, r: Request, ch: Choice, e: Error)
    requires r.TopUp? && Answered(db, r, ch) && Execute(db, r, ch) == Rejected(e)
    ensures TopUpGround(db, r, e)
  {
    TopUpRefFits(r.merchant, ch.now);
    assert HasWallet(db, ch.wallet, r.merchant, r.currency) <==> WalletMatches(db, ch.wallet, r.merchant, r.currency);
    forall w | HasWallet(db, w, r.merchant, r.currency) ensures WalletMatches(db, w, r.merchant, r.currency) {}
  }

  lemma TopUpWitness(db: Tables, r: Request, e: Error) returns (ch: Choice)
    requires r.TopUp? && TopUpGround(db, r, e)
    ensures Answered(db, r, ch) && Execute(db, r, ch) == Rejected(e)
  {
    ch := Choice(0, 0, 0, "", 0, 0);
    if w :| WalletMatches(db, w, r.merchant, r.currency) {
      assert HasWallet(db, w, r.merchant, r.currency);
      ch := ch.(wallet := w);
    } else {
      forall w | HasWallet(db, w, r.merchant, r.currency) ensures false { assert WalletMatches(db, w, r.merchant, r.currency); }
    }
  }

  lemma RefundChoice(db: Tables, r: Request, ch: Choice, e: Error)
    requires Structure(db) && ValidRequest(r) && r.Refund? && Answered(db, r, ch) && Execute(db, r, ch) == Rejected(e)
    ensures RefundGround(db, r, e)
  {
    if RefMatches(db, ch.orig, r.merchant, r.ref) {
      assert RowOk(db, ch.orig);
      if db.ledger[ch.orig].IsRefundable() {
        UnreversedIsUnrefunded(db, ch.orig);
        assert Open(db, ch.orig, r);
      } else if db.ledger[ch.orig].kind == PAYMENT {
        ReversedIsLogged(db, ch.orig);
      } else {
        assert Clash(db, ch.orig, r);
      }
    }
  }

  /** A payment that is not refundable has been refunded, and its refund is logged. */
  lemma ReversedIsLogged(db: Tables, id: TxId)
    requires Structure(db) && id in db.ledger && db.ledger[id].kind == PAYMENT && !db.ledger[id].IsRefundable()
    ensures RefundKey(db.ledger[id].merchant, db.ledger[id].ref) in db.log
  {
    assert RowOk(db, id);
    var x :| RefundedBy(db, id, x);
    RefundLogged(db, id, x);
  }

  lemma RefundWitness(db: Tables, r: Request, e: Error) returns (ch: Choice)
    requires Structure(db) && ValidRequest(r) && r.Refund? && RefundGround(db, r, e)
    ensures Answered(db, r, ch) && Execute(db, r, ch) == Rejected(e)
  {
    ch := Choice(0, 0, 0, "", 0, 0);
    if e == OriginalNotFound { return; }
    var id;
    if e == InvalidRefund {
      id :| Clash(db, id, r);
    } else if e == InvalidAmount {
      id :| Open(db, id, r);
    } else if e == RefundExceedsOriginal {
      id :| Open(db, id, r) && r.amountOpt.value > db.ledger[id].amount;
    } else {
      id :| Open(db, id, r) && (r.amountOpt.Some? ==> 0 < r.amountOpt.value <= db.ledger[id].amount);
    }
    assert RowOk(db, id);
    if Open(db, id, r) { UnreversedIsUnrefunded(db, id); }
    ch := ch.(orig := id, wallet := db.ledger[id].wallet);
  }

  /** The grounds are exact. */
  lemma GroundIsExact(db: Tables, r: Request, e: Error)
    requires Structure(db) && ValidRequest(r)
    ensures Explains(db, r, e) <==> Ground(db, r, e)
  {
    if Explains(db, r, e) {
      var ch: Choice :| Answered(db, r, ch) && Execute(db, r, ch) == Rejected(e);
      match r
      case Pay(_, _, _, _, _, _, _) => PayChoice(db, r, ch, e);
      case Refund(_, _, _, _, _, _) => RefundChoice(db, r, ch, e);
      case TopUp(_, _, _) => TopUpChoice(db, r, ch, e);
    }
    if Ground(db, r, e) {
      var ch;
      match r {
        case Pay(_, _, _, _, _, _, _) => ch := PayWitness(db, r, e);
        case Refund(_, _, _, _, _, _) => ch := RefundWitness(db, r, e);
        case TopUp(_, _, _) => ch := TopUpWitness(db, r, e);
      }
      assert Answered(db, r, ch) && Execute(db, r, ch) == Rejected(e);
    }
  }

  // ---- the life of a request ----

  /** The original as the refund has read it, open and of the amount it remembers. */
  ghost predicate Found(db: Tables, q: Proc) {
    q.req.Refund? && q.orig.Some? && Open(db, q.ch.orig, q.req) && db.ledger[q.ch.orig].amount == q.orig.value.amount
  }

  /** How a step takes a process past its lookup and past its reading of the original. */
  ghost predicate PastStep(s: State, s': State, p: ProcId) {
    p in s.procs ==>
      && p in s'.procs
      && var q, q' := s.procs[p], s'.procs[p];
      && q'.req == q.req
      && (!q.req.TopUp? && 3 <= Rank(q'.pc) <= 11 ==> 3 <= Rank(q.pc) <= 11 || KeyOf(q.req) !in s.db.log)
      && (q.req.Refund? && 4 <= Rank(q'.pc) <= 11 ==>
            || (4 <= Rank(q.pc) <= 11 && q'.orig == q.orig && q'.ch.orig == q.ch.orig)
            || Found(s.db, q'))
  }

  lemma LocalPast(s: State, a: Action, s': State)
    requires Local(s, a, s')
    ensures PastStep(s, s', a.p)
  {
  }

  lemma LockPast(s: State, a: Action, s': State)
    requires a.DoLock? && Lock(s, a, s')
    ensures PastStep(s, s', a.p)
  {
  }

  lemma WritePast(s: State, a: Action, s': State)
    requires Write(s, a, s')
    ensures PastStep(s, s', a.p)
  {
  }

  lemma CommitPast(s: State, a: Action, s': State)
    requires a.DoCommit? && CommitStep(s, a, s')
    ensures PastStep(s, s', a.p)
  {
  }

  lemma EndPast(s: State, a: Action, s': State)
    requires Step(s, a, s') && (a.DoCacheSet? || a.Fail? || a.Crash?)
    ensures PastStep(s, s', a.p)
  {
  }

  lemma StepPast(s: State, a: Action, s': State, p: ProcId)
    requires Step(s, a, s')
    ensures PastStep(s, s', p)
  {
    StepsForward(s, a, s');
    if Actor(a) == Some(p) {
      if a.DoLock? {
        LockPast(s, a, s');
      } else if a.DoPutBalance? || a.DoPutRow? || a.DoPutReversal? || a.DoPutLog? {
        WritePast(s, a, s');
      } else if a.DoCommit? {
        CommitPast(s, a, s');
      } else if a.DoCacheSet? || a.Fail? || a.Crash? {
        EndPast(s, a, s');
      } else {
        LocalPast(s, a, s');
      }
    }
  }

  ghost predicate Unlogged(tr: seq<State>, k: nat, n: nat, r: Request)
    requires n < |tr| && !r.TopUp?
  {
    exists j :: k <= j <= n && KeyOf(r) !in tr[j].db.log
  }

  ghost predicate WasFound(tr: seq<State>, k: nat, n: nat, q: Proc)
    requires n < |tr|
  {
    exists j :: k <= j <= n && Found(tr[j].db, q)
  }

  /** Since its arrival after state `k` the request has seen its key unlogged, once past the lookup,
      and a refund has seen its original open, once past reading it. */
  ghost predicate Past(tr: seq<State>, k: nat, n: nat, p: ProcId, r: Request)
    requires n < |tr|
  {
    && p in tr[n].procs && tr[n].procs[p].req == r
    && var q := tr[n].procs[p];
    && (!r.TopUp? && 3 <= Rank(q.pc) <= 11 ==> Unlogged(tr, k, n, r))
    && (r.Refund? && 4 <= Rank(q.pc) <= 11 ==> WasFound(tr, k, n, q))
  }

  lemma PastGoesOn(tr: seq<State>, k: nat, n: nat, p: ProcId, r: Request)
    requires k <= n && n + 1 < |tr| && Past(tr, k, n, p, r) && PastStep(tr[n], tr[n + 1], p)
    ensures Past(tr, k, n + 1, p, r)
  {
    var q, q' := tr[n].procs[p], tr[n + 1].procs[p];
    if !r.TopUp? && 3 <= Rank(q'.pc) <= 11 {
      if 3 <= Rank(q.pc) <= 11 {
        var j :| k <= j <= n && KeyOf(r) !in tr[j].db.log;
        assert k <= j <= n + 1;
      }
    }
    if r.Refund? && 4 <= Rank(q'.pc) <= 11 {
      if Found(tr[n].db, q') {
        assert k <= n <= n + 1;
      } else {
        var j :| k <= j <= n && Found(tr[j].db, q);
        assert Found(tr[j].db, q');
      }
    }
  }

  ghost predicate PastRun(tr: seq<State>, p: ProcId) {
    forall i :: 0 <= i < |tr| - 1 ==> PastStep(tr[i], tr[i + 1], p)
  }

  lemma RunIsPast(tr: seq<State>, acts: seq<Action>, p: ProcId)
    requires Run(tr, acts)
    ensures PastRun(tr, p)
  {
    forall i | 0 <= i < |tr| - 1 ensures PastStep(tr[i], tr[i + 1], p) { StepPast(tr[i], acts[i], tr[i + 1], p); }
  }

  lemma {:induction false} PastAt(tr: seq<State>, k: nat, n: nat, p: ProcId, r: Request)
    requires k < n < |tr| && PastRun(tr, p) && p in tr[k + 1].procs && tr[k + 1].procs[p] == NewProc(r)
    ensures Past(tr, k, n, p, r)
  {
    if n > k + 1 {
      PastAt(tr, k, n - 1, p, r);
      PastGoesOn(tr, k, n - 1, p, r);
    }
  }

  // ---- wallets stay ----

  ghost predicate WalletKept(s: State, s': State, w: WalletId) {
    w in s.db.wallets ==>
      w in s'.db.wallets && s'.db.wallets[w].merchant == s.db.wallets[w].merchant &&
      s'.db.wallets[w].currency == s.db.wallets[w].currency
  }

  lemma StepKeepsWallet(s: State, a: Action, s': State, w: WalletId)
    requires ProcsOk(s) && Step(s, a, s')
    ensures WalletKept(s, s', w)
  {
    if a.DoCommit? {
      assert ProcOk(s.db, s.locks, s.claims, a.p, s.procs[a.p]);
      CommitFrames(s.db, s.locks, s.claims, a.p, s.procs[a.p]);
    } else if !a.Register? {
      StepTables(s, a, s');
    }
  }

  ghost predicate WalletRun(tr: seq<State>, w: WalletId) {
    forall i :: 0 <= i < |tr| - 1 ==> WalletKept(tr[i], tr[i + 1], w)
  }

  lemma RunKeepsWallet(tr: seq<State>, acts: seq<Action>, w: WalletId)
    requires Run(tr, acts)
    ensures WalletRun(tr, w)
  {
    forall i | 0 <= i < |tr| - 1 ensures WalletKept(tr[i], tr[i + 1], w) {
      RunInv(tr, acts, i);
      StepKeepsWallet(tr[i], acts[i], tr[i + 1], w);
    }
  }

  lemma {:induction false} WalletStays(tr: seq<State>, i: nat, j: nat, w: WalletId)
    requires WalletRun(tr, w) && i <= j < |tr|
    ensures WalletKept(tr[i], tr[j], w)
  {
    if i < j { WalletStays(tr, i, j - 1, w); }
  }

  // ---- which refusals are explained ----

  /** Some moment from the arrival after state `k` to the refusal in state `n` explains it. */
  ghost predicate Explained(tr: seq<State>, k: nat, n: nat, r: Request, e: Error)
    requires n < |tr|
  {
    exists i :: k <= i <= n && Explains(tr[i].db, r, e)
  }

  ghost predicate Grounded(tr: seq<State>, k: nat, n: nat, r: Request, e: Error)
    requires n < |tr| && !r.TopUp?
  {
    exists i :: k <= i <= n && Ground(tr[i].db, r, e)
  }

  /** The refusals of payments and refunds that need a reason of their own: short funds, a row that is no payment, and an
      amount that the column cannot hold. */
  predicate NeedsReason(r: Request, e: Error) {
    e == InsufficientFunds || e == InvalidRefund || (e == Internal && r.Pay?)
  }

  /** The refusal can be accounted for: never for a refund called duplicate or for the loser at the log insert; for those
      that need a reason, if it held while the key was not logged; always else. */
  ghost predicate Accounted(tr: seq<State>, k: nat, n: nat, a: Action, r: Request, e: Error)
    requires n < |tr|
  {
    r.TopUp? || (!a.DoPutLog? && e != DuplicateRefund && (NeedsReason(r, e) ==> Grounded(tr, k, n, r, e)))
  }

  lemma ExplainedIffGrounded(tr: seq<State>, acts: seq<Action>, k: nat, n: nat, r: Request, e: Error)
    requires Run(tr, acts) && n < |tr| && ValidRequest(r) && !r.TopUp?
    ensures Explained(tr, k, n, r, e) <==> Grounded(tr, k, n, r, e)
  {
    forall i | k <= i <= n ensures Explains(tr[i].db, r, e) <==> Ground(tr[i].db, r, e) {
      RunInv(tr, acts, i);
      GroundIsExact(tr[i].db, r, e);
    }
  }

  /** The original that was found open is a ground for every refusal on account of the amount or the reference. */
  lemma FoundIsGround(db: Tables, q: Proc, e: Error)
    requires Structure(db) && Found(db, q)
    requires
      || (e == InvalidAmount && q.req.amountOpt.Some? && q.req.amountOpt.value <= 0)
      || (e == RefundExceedsOriginal && q.req.amountOpt.Some? && q.req.amountOpt.value > q.orig.value.amount)
      || (e == Internal && |q.req.ref| > 93 && (q.req.amountOpt.Some? ==> 0 < q.req.amountOpt.value <= q.orig.value.amount))
    ensures Ground(db, q.req, e)
  {
    UnreversedIsUnrefunded(db, q.ch.orig);
    assert Open(db, q.ch.orig, q.req);
  }

  lemma FoundGrounds(tr: seq<State>, acts: seq<Action>, k: nat, n: nat, q: Proc, e: Error)
    requires Run(tr, acts) && n < |tr| && WasFound(tr, k, n, q) && q.req.Refund?
    requires
      || (e == InvalidAmount && q.req.amountOpt.Some? && q.req.amountOpt.value <= 0)
      || (e == RefundExceedsOriginal && q.req.amountOpt.Some? && q.req.amountOpt.value > q.orig.value.amount)
      || (e == Internal && |q.req.ref| > 93 && (q.req.amountOpt.Some? ==> 0 < q.req.amountOpt.value <= q.orig.value.amount))
    ensures Grounded(tr, k, n, q.req, e)
  {
    var j :| k <= j <= n && Found(tr[j].db, q);
    RunInv(tr, acts, j);
    FoundIsGround(tr[j].db, q, e);
  }

  /** A wallet that is missing at the end was missing all along. */
  lemma MissingGrounds(tr: seq<State>, acts: seq<Action>, k: nat, n: nat, r: Request)
    requires Run(tr, acts) && n < |tr| && r.Pay? && r.amount > 0 && Unlogged(tr, k, n, r)
    requires forall w :: !WalletMatches(tr[n].db, w, r.merchant, r.currency)
    ensures Grounded(tr, k, n, r, WalletNotFound)
  {
    var j :| k <= j <= n && KeyOf(r) !in tr[j].db.log;
    forall w ensures !WalletMatches(tr[j].db, w, r.merchant, r.currency) {
      RunKeepsWallet(tr, acts, w);
      WalletStays(tr, j, n, w);
      assert !WalletMatches(tr[n].db, w, r.merchant, r.currency);
    }
    assert Ground(tr[j].db, r, WalletNotFound);
  }

  // ---- what each refusing action knows ----

  lemma AmountFacts(s: State, a: Action, s': State, e: Error)
    requires a.DoCheckAmount? && Local(s, a, s') && Refuses(a, s', e)
    ensures !s.procs[a.p].req.Refund? && s.procs[a.p].req.amount <= 0 && e == InvalidAmount
  {
  }

  lemma FindFacts(s: State, a: Action, s': State, e: Error)
    requires Structure(s.db) && a.DoFind? && Local(s, a, s') && Refuses(a, s', e)
    ensures var q := s.procs[a.p];
            q.req.Refund? && (e == InvalidRefund || (e == OriginalNotFound && Ground(s.db, q.req, e)))
  {
    var q := s.procs[a.p];
    if a.found.None? {
      forall id ensures !RefMatches(s.db, id, q.req.merchant, q.req.ref) {
        assert id in s.db.ledger ==> !RefMatches(s.db, id, q.req.merchant, q.req.ref);
      }
      if KeyOf(q.req) in s.db.log { var _ := LoggedRefundHasOriginal(s.db, q.req.merchant, q.req.ref); }
    }
  }

  lemma CheckFacts(s: State, a: Action, s': State, e: Error)
    requires a.DoCheckRefund? && Local(s, a, s') && Refuses(a, s', e)
    ensures var q := s.procs[a.p];
            && q.req.Refund? && q.orig.Some?
            && (|| e == DuplicateRefund
                || (e == InvalidAmount && q.req.amountOpt.Some? && q.req.amountOpt.value <= 0)
                || (e == RefundExceedsOriginal && q.req.amountOpt.Some? && q.req.amountOpt.value > q.orig.value.amount))
  {
  }

  lemma LockFacts(s: State, a: Action, s': State, e: Error)
    requires Structure(s.db) && a.DoLock? && Lock(s, a, s') && Refuses(a, s', e)
    requires ProcOk(s.db, s.locks, s.claims, a.p, s.procs[a.p])
    ensures var q := s.procs[a.p];
            && !q.req.Refund? && q.req.amount > 0
            && ((e == WalletNotFound && forall w :: !WalletMatches(s.db, w, q.req.merchant, q.req.currency)) ||
                (e == InsufficientFunds && q.req.Pay?))
  {
    LockDecides(s, a, s', e);
    var q := s.procs[a.p];
    if a.found.None? {
      forall w ensures !WalletMatches(s.db, w, q.req.merchant, q.req.currency) {
        assert w in s.db.wallets ==> !Selects(s.db, q, w);
      }
    }
  }

  lemma RowFacts(s: State, a: Action, s': State, e: Error)
    requires a.DoPutRow? && Write(s, a, s') && Refuses(a, s', e) && RowsOk(s.db)
    requires ProcOk(s.db, s.locks, s.claims, a.p, s.procs[a.p])
    ensures var q := s.procs[a.p];
            && e == Internal
            && (q.req.Refund? ==> q.orig.Some? && |q.req.ref| > 93 &&
                                  (q.req.amountOpt.Some? ==> 0 < q.req.amountOpt.value <= q.orig.value.amount))
            && (!q.req.Refund? ==> q.req.amount >= 1_000_000_000_000_000_000)
            && (q.req.TopUp? ==> Explains(s.db, q.req, e))
  {
    var q := s.procs[a.p];
    if q.req.Refund? { assert RowOk(s.db, q.ch.orig); }
    if q.req.TopUp? { TopUpRefFits(q.req.merchant, q.ch.now); }
    if q.req.TopUp? { assert Answered(s.db, q.req, q.ch) && Execute(s.db, q.req, q.ch) == Rejected(Internal); }
  }

  lemma LogFacts(s: State, a: Action, s': State, e: Error)
    requires (a.DoPutLog? || a.DoPutReversal?) && Write(s, a, s') && Refuses(a, s', e)
    requires ProcOk(s.db, s.locks, s.claims, a.p, s.procs[a.p])
    ensures var q := s.procs[a.p];
            && a.DoPutLog? && e == Internal && !q.req.TopUp?
            && (if q.req.Pay? then 0 < q.req.amount < AMOUNT_LIMIT else |q.req.ref| <= 93)
  {
  }

  /** What is known at a refusal, action by action. */
  ghost predicate Known(db: Tables, a: Action, q: Proc, e: Error) {
    match a
    case DoCheckAmount(_) => !q.req.Refund? && q.req.amount <= 0 && e == InvalidAmount
    case DoFind(_, _) => q.req.Refund? && (e == InvalidRefund || (e == OriginalNotFound && Ground(db, q.req, e)))
    case DoCheckRefund(_) =>
      && q.req.Refund? && q.orig.Some? && q.pc == CheckRefund
      && (|| e == DuplicateRefund
          || (e == InvalidAmount && q.req.amountOpt.Some? && q.req.amountOpt.value <= 0)
          || (e == RefundExceedsOriginal && q.req.amountOpt.Some? && q.req.amountOpt.value > q.orig.value.amount))
    case DoLock(_, _, _, _, _) =>
      && !q.req.Refund? && q.req.amount > 0 && q.pc == LockWallet
      && ((e == WalletNotFound && forall w :: !WalletMatches(db, w, q.req.merchant, q.req.currency)) ||
          (e == InsufficientFunds && q.req.Pay?))
    case DoPutRow(_) =>
      && e == Internal && q.pc == PutRow
      && (q.req.Refund? ==> q.orig.Some? && |q.req.ref| > 93 &&
                            (q.req.amountOpt.Some? ==> 0 < q.req.amountOpt.value <= q.orig.value.amount))
      && (!q.req.Refund? ==> q.req.amount >= 1_000_000_000_000_000_000)
      && (q.req.TopUp? ==> Explains(db, q.req, e))
    case DoPutLog(_) =>
      && e == Internal && !q.req.TopUp?
      && (if q.req.Pay? then 0 < q.req.amount < AMOUNT_LIMIT else |q.req.ref| <= 93)
    case _ => false
  }

  lemma StepKnows(s: State, a: Action, s': State, e: Error)
    requires Structure(s.db) && ProcsOk(s) && Step(s, a, s') && Refuses(a, s', e)
    ensures a.p in s.procs && Known(s.db, a, s.procs[a.p], e)
  {
    assert ProcOk(s.db, s.locks, s.claims, a.p, s.procs[a.p]);
    if a.DoCheckAmount? {
      AmountFacts(s, a, s', e);
    } else if a.DoFind? {
      FindFacts(s, a, s', e);
    } else if a.DoCheckRefund? {
      CheckFacts(s, a, s', e);
    } else if a.DoLock? {
      LockFacts(s, a, s', e);
    } else if a.DoPutRow? {
      RowFacts(s, a, s', e);
    } else {
      LogFacts(s, a, s', e);
    }
  }

  // ---- the theorem ----

  lemma TopUpExplained(db: Tables, a: Action, q: Proc, e: Error)
    requires Known(db, a, q, e) && q.req.TopUp?
    ensures Explains(db, q.req, e)
  {
    var ch := Choice(0, 0, 0, "", 0, 0);
    if w :| WalletMatches(db, w, q.req.merchant, q.req.currency) { ch := ch.(wallet := w); }
    if e == InvalidAmount || e == WalletNotFound {
      assert Answered(db, q.req, ch) && Execute(db, q.req, ch) == Rejected(e);
    }
  }

  lemma NeverGrounded(db: Tables, i: Tables, a: Action, q: Proc, e: Error)
    requires Known(db, a, q, e) && !q.req.TopUp? && (a.DoPutLog? || e == DuplicateRefund)
    ensures !Ground(i, q.req, e)
  {
  }

  lemma OthersGrounded(tr: seq<State>, acts: seq<Action>, k: nat, n: nat, p: ProcId, a: Action, e: Error)
    requires Run(tr, acts) && k <= n < |tr| && p in tr[n].procs && Past(tr, k, n, p, tr[n].procs[p].req)
    requires var q := tr[n].procs[p];
             Known(tr[n].db, a, q, e) && !q.req.TopUp? && !a.DoPutLog? && e != DuplicateRefund && !NeedsReason(q.req, e)
    ensures Grounded(tr, k, n, tr[n].procs[p].req, e)
  {
    var q := tr[n].procs[p];
    if a.DoCheckRefund? || a.DoPutRow? {
      FoundGrounds(tr, acts, k, n, q, e);
    } else if a.DoLock? {
      MissingGrounds(tr, acts, k, n, q.req);
    } else {
      assert Ground(tr[n].db, q.req, e);
    }
  }

  lemma AccountedIff(tr: seq<State>, acts: seq<Action>, k: nat, n: nat, p: ProcId, a: Action, e: Error)
    requires Run(tr, acts) && k <= n < |tr| && p in tr[n].procs && Past(tr, k, n, p, tr[n].procs[p].req)
    requires ValidRequest(tr[n].procs[p].req) && Known(tr[n].db, a, tr[n].procs[p], e)
    ensures Explained(tr, k, n, tr[n].procs[p].req, e) <==> Accounted(tr, k, n, a, tr[n].procs[p].req, e)
  {
    var q := tr[n].procs[p];
    if q.req.TopUp? {
      TopUpExplained(tr[n].db, a, q, e);
    } else {
      ExplainedIffGrounded(tr, acts, k, n, q.req, e);
      if a.DoPutLog? || e == DuplicateRefund {
        forall i | k <= i <= n ensures !Ground(tr[i].db, q.req, e) { NeverGrounded(tr[n].db, tr[i].db, a, q, e); }
      } else if !NeedsReason(q.req, e) {
        OthersGrounded(tr, acts, k, n, p, a, e);
      }
    }
  }

  lemma RefusalKnown(tr: seq<State>, acts: seq<Action>, n: nat, e: Error)
    requires Run(tr, acts) && n < |acts| && Refuses(acts[n], tr[n + 1], e)
    ensures acts[n].p in tr[n].procs && Known(tr[n].db, acts[n], tr[n].procs[acts[n].p], e)
    ensures ValidRequest(tr[n].procs[acts[n].p].req)
  {
    RunInv(tr, acts, n);
    StepKnows(tr[n], acts[n], tr[n + 1], e);
    assert ProcOk(tr[n].db, tr[n].locks, tr[n].claims, acts[n].p, tr[n].procs[acts[n].p]);
  }

  lemma ArrivalIsPast(tr: seq<State>, acts: seq<Action>, k: nat, n: nat, p: ProcId, r: Request)
    requires Run(tr, acts) && k < n < |tr| && acts[k] == Arrive(p, r)
    ensures Past(tr, k, n, p, r)
  {
    RunIsPast(tr, acts, p);
    assert Step(tr[k], acts[k], tr[k + 1]);
    PastAt(tr, k, n, p, r);
  }

  /** Every refusal of every run: some moment between the arrival of the request and the refusal explains it, if and only
      if it can be accounted for. So a missing wallet or original, a bad amount and a refund that does not fit its
      column are always explained, a duplicate and the loser at the log insert never, and short funds, a row
      that is no payment and an oversized payment exactly if that was so while the key was not logged. */
  lemma RefusalExplained(tr: seq<State>, acts: seq<Action>, k: nat, n: nat, p: ProcId, r: Request, e: Error)
    requires Run(tr, acts) && k < n < |acts| && acts[k] == Arrive(p, r)
    requires Refuses(acts[n], tr[n + 1], e) && acts[n].p == p
    ensures Explained(tr, k, n, r, e) <==> Accounted(tr, k, n, acts[n], r, e)
  {
    RefusalKnown(tr, acts, n, e);
    ArrivalIsPast(tr, acts, k, n, p, r);
    AccountedIff(tr, acts, k, n, p, acts[n], e);
  }

  /** The row of a payment or top-up is refused only for an amount of 10^18 or more, that of a refund only for a reference of
      more than 93 characters. */
  lemma RowRefusedForSize(tr: seq<State>, acts: seq<Action>, n: nat, e: Error)
    requires Run(tr, acts) && n < |acts| && acts[n].DoPutRow? && Refuses(acts[n], tr[n + 1], e)
    ensures acts[n].p in tr[n].procs && e == Internal
    ensures var r := tr[n].procs[acts[n].p].req;
            if r.Refund? then |r.ref| > 93 else r.amount >= 1_000_000_000_000_000_000
  {
    RefusalKnown(tr, acts, n, e);
  }
}
