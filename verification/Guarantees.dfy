/** What every run of the protocol guarantees: any number of requests, any interleaving,
    failed calls, lost acknowledgements, crashes and vanishing cache entries included. */
module Guarantees {
  import opened Domain
  import opened Keys
  import opened Sums
  import opened Ledger
  import opened LedgerInvariant
  import opened Protocol
  import opened ProtocolInvariant

  // ---- serializability ----

  /** What a step commits, if anything. */
  ghost function EventsOf(s: State, a: Action): seq<Event> {
    match a
    case DoCommit(p, _) => if p in s.procs then [Commitment(s.procs[p].req, s.procs[p].ch)] else []
    case Register(w, m) => [Registration(w, m)]
    case _ => []
  }

  /** The requests that committed in the first `n` steps, in commit order. */
  ghost function Commits(tr: seq<State>, acts: seq<Action>, n: nat): seq<Event>
    requires n <= |acts| < |tr|
  {
    if n == 0 then [] else Commits(tr, acts, n - 1) + EventsOf(tr[n - 1], acts[n - 1])
  }

  /** The committed tables are those of executing the committed requests one at a time, in commit order. */
  lemma {:induction false} Serializability(tr: seq<State>, acts: seq<Action>, n: nat)
    requires Run(tr, acts) && n <= |acts|
    ensures Replay(Commits(tr, acts, n)) == Some(tr[n].db)
  {
    RunInv(tr, acts, n);
    RunTracks(tr, acts);
    CommitsAreHistory(tr, acts, n);
  }

  /** The recorded history is extended by just what each step commits. */
  ghost predicate Tracks(tr: seq<State>, acts: seq<Action>)
    requires |acts| < |tr|
  {
    tr[0].history == [] &&
    forall i :: 0 <= i < |acts| ==> tr[i + 1].history == tr[i].history + EventsOf(tr[i], acts[i])
  }

  lemma RunTracks(tr: seq<State>, acts: seq<Action>)
    requires Run(tr, acts)
    ensures Tracks(tr, acts)
  {
    forall i | 0 <= i < |acts| ensures tr[i + 1].history == tr[i].history + EventsOf(tr[i], acts[i]) {
      StepHistory(tr[i], acts[i], tr[i + 1]);
    }
  }

  lemma {:induction false} CommitsAreHistory(tr: seq<State>, acts: seq<Action>, n: nat)
    requires n <= |acts| < |tr| && Tracks(tr, acts)
    ensures Commits(tr, acts, n) == tr[n].history
  {
    if n > 0 { CommitsAreHistory(tr, acts, n - 1); }
  }

  lemma StepHistory(s: State, a: Action, s': State)
    requires Step(s, a, s')
    ensures s'.history == s.history + EventsOf(s, a)
  {
    if !a.DoCommit? && !a.Register? { StepTables(s, a, s'); }
  }

  // ---- refunds ----

  /** A refund row reverses the payment it points to, within its amount; both references fit the column. */
  lemma RefundReverses(db: Tables, id: TxId, r: TxId)
    requires RowsOk(db) && RefundedBy(db, id, r)
    ensures id in db.ledger && db.ledger[id].status == REVERSED && |db.ledger[id].ref| <= 93
    ensures db.ledger[r].merchant == db.ledger[id].merchant && db.ledger[r].wallet == db.ledger[id].wallet
    ensures 0 < db.ledger[r].amount <= db.ledger[id].amount
  {
    assert RowOk(db, r);
  }

  lemma {:induction false} RefundCommitStep(s: State, a: Action, s': State)
    requires Structure(s.db) && ProcsOk(s) && a.DoCommit? && CommitStep(s, a, s') && s.procs[a.p].req.Refund?
    ensures var q := s.procs[a.p];
            && q.ch.orig in s.db.ledger && s.db.ledger[q.ch.orig].IsRefundable()
            && s'.db.ledger[q.ch.orig].status == REVERSED && RefundedBy(s'.db, q.ch.orig, q.ch.id)
  {
    var q := s.procs[a.p];
    assert ProcOk(s.db, s.locks, s.claims, a.p, q);
    OriginalStillSuccess(s.db, q);
  }

  /** A refund that commits finds its original still SUCCESS and unrefunded, and leaves it REVERSED by itself. */
  lemma RefundCommit(tr: seq<State>, acts: seq<Action>, n: nat)
    requires Run(tr, acts) && n < |acts| && acts[n].DoCommit?
    requires acts[n].p in tr[n].procs && tr[n].procs[acts[n].p].req.Refund?
    ensures var q := tr[n].procs[acts[n].p];
            && q.ch.orig in tr[n].db.ledger && tr[n].db.ledger[q.ch.orig].IsRefundable()
            && (forall r :: !RefundedBy(tr[n].db, q.ch.orig, r))
            && tr[n + 1].db.ledger[q.ch.orig].status == REVERSED
            && RefundedBy(tr[n + 1].db, q.ch.orig, q.ch.id)
  {
    RunInv(tr, acts, n);
    assert Step(tr[n], acts[n], tr[n + 1]);
    RefundCommitStep(tr[n], acts[n], tr[n + 1]);
    var db, orig := tr[n].db, tr[n].procs[acts[n].p].ch.orig;
    forall r ensures !RefundedBy(db, orig, r) {
      if RefundedBy(db, orig, r) { RefundReverses(db, orig, r); }
    }
  }

  /** In every reachable state a payment is REVERSED exactly when one refund row, and only one, points to it;
      that row is of the same merchant and wallet, for an amount within the original. */
  lemma AtMostOneRefund(tr: seq<State>, acts: seq<Action>, n: nat, id: TxId)
    requires Run(tr, acts) && n < |tr| && id in tr[n].db.ledger && tr[n].db.ledger[id].kind == PAYMENT
    ensures var db := tr[n].db;
            && (db.ledger[id].status == REVERSED <==> exists r :: RefundedBy(db, id, r))
            && (forall r, r' :: RefundedBy(db, id, r) && RefundedBy(db, id, r') ==> r == r')
            && (forall r :: RefundedBy(db, id, r) ==>
                  && db.ledger[r].merchant == db.ledger[id].merchant && db.ledger[r].wallet == db.ledger[id].wallet
                  && 0 < db.ledger[r].amount <= db.ledger[id].amount)
  {
    RunInv(tr, acts, n);
    var db := tr[n].db;
    forall r | RefundedBy(db, id, r)
      ensures db.ledger[id].status == REVERSED && db.ledger[r].merchant == db.ledger[id].merchant
      ensures db.ledger[r].wallet == db.ledger[id].wallet && 0 < db.ledger[r].amount <= db.ledger[id].amount
    {
      RefundReverses(db, id, r);
    }
    forall r, r' | RefundedBy(db, id, r) && RefundedBy(db, id, r') ensures r == r' {
      SameKeySameRow(db, r, r');
    }
  }

  /** Two logged rows with one key are one row. */
  lemma SameKeySameRow(db: Tables, r: TxId, r': TxId)
    requires RowsOk(db) && r in db.ledger && r' in db.ledger
    requires db.ledger[r].kind != TOPUP && db.ledger[r'].kind != TOPUP
    requires RowKey(db, db.ledger[r]) == RowKey(db, db.ledger[r'])
    ensures r == r'
  {
    assert RowOk(db, r) && RowOk(db, r');
  }

  // ---- charging ----

  /** A (merchant, reference) never has two PAYMENT rows. */
  lemma AtMostOneCharge(tr: seq<State>, acts: seq<Action>, n: nat, id: TxId, id': TxId)
    requires Run(tr, acts) && n < |tr| && id in tr[n].db.ledger && id' in tr[n].db.ledger
    requires tr[n].db.ledger[id].kind == tr[n].db.ledger[id'].kind == PAYMENT
    requires tr[n].db.ledger[id].merchant == tr[n].db.ledger[id'].merchant && tr[n].db.ledger[id].ref == tr[n].db.ledger[id'].ref
    ensures id == id'
  {
    RunInv(tr, acts, n);
    SameKeySameRow(tr[n].db, id, id');
  }

  /** Nor are two payments of one (merchant, reference) ever committed, so the wallet is debited at most once. */
  lemma AtMostOneDebit(tr: seq<State>, acts: seq<Action>, n: nat, i: nat, j: nat)
    requires Run(tr, acts) && n <= |acts| && i < j < |Commits(tr, acts, n)|
    requires Commits(tr, acts, n)[i].Commitment? && Commits(tr, acts, n)[j].Commitment?
    requires Commits(tr, acts, n)[i].req.Pay? && Commits(tr, acts, n)[j].req.Pay?
    ensures var a, b := Commits(tr, acts, n)[i].req, Commits(tr, acts, n)[j].req;
            a.merchant != b.merchant || a.ref != b.ref
  {
    Serializability(tr, acts, n);
    CommittedOnce(Commits(tr, acts, n), i, j);
  }

  /** No sequential history commits one key twice. */
  lemma {:induction false} CommittedOnce(h: seq<Event>, i: nat, j: nat)
    requires Replay(h).Some? && i < j < |h| && h[i].Commitment? && h[j].Commitment?
    requires !h[i].req.TopUp? && !h[j].req.TopUp?
    ensures KeyOf(h[i].req) != KeyOf(h[j].req)
  {
    ReplayAt(h, j);
    ReplayLogs(h[..j], i);
    NewKeyOnly(Replay(h[..j]).value, h[j]);
  }

  /** Every event of a history was accepted by the tables before it. */
  lemma {:induction false} ReplayAt(h: seq<Event>, j: nat)
    requires Replay(h).Some? && j < |h|
    ensures Replay(h[..j]).Some? && Apply(Replay(h[..j]).value, h[j]).Some?
  {
    if j < |h| - 1 {
      var g := h[..|h| - 1];
      ReplayAt(g, j);
      assert g[..j] == h[..j];
    }
  }

  lemma NewKeyOnly(db: Tables, e: Event)
    requires Apply(db, e).Some? && e.Commitment? && !e.req.TopUp?
    ensures KeyOf(e.req) !in db.log
  {
  }

  /** The key of every committed payment or refund stays logged. */
  lemma {:induction false} ReplayLogs(h: seq<Event>, i: nat)
    requires Replay(h).Some? && i < |h| && h[i].Commitment? && !h[i].req.TopUp?
    ensures KeyOf(h[i].req) in Replay(h).value.log
  {
    if i < |h| - 1 { ReplayLogs(h[..|h| - 1], i); }
  }

  /** Every row was inserted by a committed request, and is as inserted but for a reversal. */
  ghost predicate Origin(h: seq<Event>, i: nat, t: Transaction) {
    i < |h| && h[i].Commitment? && AsCreated(t) == NewRow(h[i].req, h[i].ch, t.amount) &&
    (!h[i].req.Refund? ==> t.amount == h[i].req.amount)
  }

  lemma ApplyRows(db: Tables, r: Request, ch: Choice, id: TxId)
    requires Apply(db, Commitment(r, ch)).Some? && id in Apply(db, Commitment(r, ch)).value.ledger
    ensures var t := Apply(db, Commitment(r, ch)).value.ledger[id];
            if id in db.ledger then AsCreated(t) == AsCreated(db.ledger[id])
            else AsCreated(t) == NewRow(r, ch, t.amount) && (!r.Refund? ==> t.amount == r.amount)
  {
  }

  lemma {:induction false} RowHasOrigin(h: seq<Event>, id: TxId) returns (i: nat)
    requires Replay(h).Some? && id in Replay(h).value.ledger
    ensures Origin(h, i, Replay(h).value.ledger[id])
  {
    var n := |h| - 1;
    assert h != [];
    var db, e := Replay(h[..n]).value, h[n];
    assert Replay(h) == Apply(db, e);
    if e.Commitment? { ApplyRows(db, e.req, e.ch, id); }
    if id in db.ledger {
      i := RowHasOrigin(h[..n], id);
    } else {
      i := n;
    }
  }

  /** A successful payment means exactly one committed debit for that merchant and reference: the one of the
      row in the answer, for the amount in the answer. */
  lemma SuccessMeansOneDebit(tr: seq<State>, acts: seq<Action>, n: nat, p: ProcId) returns (i: nat)
    requires Run(tr, acts) && n <= |acts| && At(tr[n], p, Done) && tr[n].procs[p].req.Pay?
    requires tr[n].procs[p].reply.Some? && tr[n].procs[p].reply.value.Ok?
    ensures var h, r, t := Commits(tr, acts, n), tr[n].procs[p].req, tr[n].procs[p].reply.value.txn;
            && i < |h| && Debits(h[i], r.merchant, r.ref) && h[i].ch.id == t.id && h[i].req.amount == t.amount
            && forall j :: 0 <= j < |h| && Debits(h[j], r.merchant, r.ref) ==> j == i
  {
    SuccessMeansOneRow(tr, acts, n, p);
    Serializability(tr, acts, n);
    var h, r, t := Commits(tr, acts, n), tr[n].procs[p].req, tr[n].procs[p].reply.value.txn;
    i := RowHasOrigin(h, t.id);
    OriginDebits(h, i, tr[n].db.ledger[t.id], r);
    forall j | 0 <= j < |h| && Debits(h[j], r.merchant, r.ref) ensures j == i {
      if j < i { CommittedOnce(h, j, i); } else if i < j { CommittedOnce(h, i, j); }
    }
  }

  /** The amount in the answer is the one asked for exactly if the request that committed asked for it too. */
  lemma AnswerAmount(tr: seq<State>, acts: seq<Action>, n: nat, p: ProcId, i: nat)
    requires Run(tr, acts) && n <= |acts| && At(tr[n], p, Done) && tr[n].procs[p].req.Pay?
    requires tr[n].procs[p].reply.Some? && tr[n].procs[p].reply.value.Ok?
    requires i < |Commits(tr, acts, n)| && Debits(Commits(tr, acts, n)[i], tr[n].procs[p].req.merchant, tr[n].procs[p].req.ref)
    ensures tr[n].procs[p].reply.value.txn.amount == tr[n].procs[p].req.amount <==>
            Commits(tr, acts, n)[i].req.amount == tr[n].procs[p].req.amount
  {
    var j := SuccessMeansOneDebit(tr, acts, n, p);
    assert i == j;
  }

  ghost predicate Debits(e: Event, merchant: Uuid, ref: string) {
    e.Commitment? && e.req.Pay? && e.req.merchant == merchant && e.req.ref == ref
  }

  lemma OriginDebits(h: seq<Event>, i: nat, t: Transaction, r: Request)
    requires Origin(h, i, t) && r.Pay? && t.kind == PAYMENT && t.merchant == r.merchant && t.ref == r.ref
    ensures Debits(h[i], r.merchant, r.ref) && h[i].ch.id == t.id && h[i].req.amount == t.amount
  {
  }

  /** A successful payment means exactly one PAYMENT row of that merchant and reference, and it is the answer;
      a successful refund means one REFUND row, of the payment with that reference. */
  lemma SuccessMeansOneRow(tr: seq<State>, acts: seq<Action>, n: nat, p: ProcId)
    requires Run(tr, acts) && n < |tr| && At(tr[n], p, Done)
    requires tr[n].procs[p].reply.Some? && tr[n].procs[p].reply.value.Ok? && !tr[n].procs[p].req.TopUp?
    ensures var db, r, t := tr[n].db, tr[n].procs[p].req, tr[n].procs[p].reply.value.txn;
            && t.id in db.ledger && Marshal(t) == Marshal(AsCreated(db.ledger[t.id]))
            && t.kind == (if r.Pay? then PAYMENT else REFUND) && t.merchant == r.merchant
            && t.ref == (if r.Pay? then r.ref else REFUND_PREFIX + r.ref)
            && (forall id :: id in db.ledger && db.ledger[id].kind == t.kind && RowKey(db, db.ledger[id]) == KeyOf(r) ==> id == t.id)
  {
    RunInv(tr, acts, n);
    var s := tr[n];
    var db, q := s.db, s.procs[p];
    assert ProcOk(db, s.locks, s.claims, p, q);
    var k := KeyOf(q.req);
    assert EntryOk(db, k);
    var id := db.log[k].txId;
    AnswerRow(db, q.req, id);
    forall id' | id' in db.ledger && db.ledger[id'].kind == db.ledger[id].kind && RowKey(db, db.ledger[id']) == k
      ensures id' == id
    {
      SameKeySameRow(db, id, id');
    }
  }

  /** A successful top-up means its row: of the merchant and amount asked for, as answered. */
  lemma TopUpSuccess(tr: seq<State>, acts: seq<Action>, n: nat, p: ProcId)
    requires Run(tr, acts) && n < |tr| && At(tr[n], p, Done) && tr[n].procs[p].req.TopUp?
    requires tr[n].procs[p].reply.Some? && tr[n].procs[p].reply.value.Ok?
    ensures var db, r, t := tr[n].db, tr[n].procs[p].req, tr[n].procs[p].reply.value.txn;
            t.id in db.ledger && db.ledger[t.id] == t && t.kind == TOPUP && t.merchant == r.merchant && t.amount == r.amount
  {
    RunInv(tr, acts, n);
    assert ProcOk(tr[n].db, tr[n].locks, tr[n].claims, p, tr[n].procs[p]);
  }

  lemma AnswerRow(db: Tables, r: Request, id: TxId)
    requires RowsOk(db) && ValidRequest(r) && !r.TopUp? && id in db.ledger && db.ledger[id].kind != TOPUP
    requires RowKey(db, db.ledger[id]) == KeyOf(r)
    ensures var t := db.ledger[id];
            && t.kind == (if r.Pay? then PAYMENT else REFUND) && t.merchant == r.merchant
            && t.ref == (if r.Pay? then r.ref else REFUND_PREFIX + r.ref)
            && t.id == id && db.log[KeyOf(r)].response == Marshal(AsCreated(t))
  {
    assert RowOk(db, id);
    var t := db.ledger[id];
    var ref := if t.kind == REFUND then db.ledger[t.original.value].ref else t.ref;
    if t.kind == REFUND { assert RowOk(db, t.original.value); }
    PaymentKeyInjective(t.merchant, ref, r.merchant, r.ref);
    RefundKeyInjective(t.merchant, ref, r.merchant, r.ref);
    KeyCollision(t.merchant, ref, r.merchant, r.ref);
    KeyCollision(r.merchant, r.ref, t.merchant, ref);
  }

  // ---- money ----

  /** No update is lost: the stored balance is always the int64 value of top-ups minus payments plus refunds. */
  lemma Conservation(tr: seq<State>, acts: seq<Action>, n: nat, w: WalletId)
    requires Run(tr, acts) && n < |tr| && w in tr[n].db.wallets
    ensures tr[n].db.wallets[w].balance == Wrap64(Net(tr[n].db, w))
  {
    RunInv(tr, acts, n);
    assert MoneyOk(tr[n].db, w);
  }

  /** While a wallet's top-ups fit in int64, its balance is exactly that net, and lies between zero and the top-ups. */
  lemma BalanceBound(tr: seq<State>, acts: seq<Action>, n: nat, w: WalletId)
    requires Run(tr, acts) && n < |tr| && w in tr[n].db.wallets
    requires Sum(tr[n].db.ledger, TopUps(w)) <= MAX_INT64
    ensures tr[n].db.wallets[w].balance == Net(tr[n].db, w)
    ensures 0 <= tr[n].db.wallets[w].balance <= Sum(tr[n].db.ledger, TopUps(w))
  {
    RunInv(tr, acts, n);
    BoundedMoney(tr[n].db, w);
  }

  /** A commit moves the net of its own wallet by its amount, and of no other. */
  lemma {:induction false} CommitNet(s: State, a: Action, s': State, w: WalletId)
    requires Structure(s.db) && ProcsOk(s) && a.DoCommit? && CommitStep(s, a, s')
    ensures var q := s.procs[a.p];
            && Net(s'.db, w) == Net(s.db, w) + (if q.ch.wallet != w then 0 else if q.req.Pay? then -q.amount else q.amount)
            && Sum(s.db.ledger, TopUps(w)) <= Sum(s'.db.ledger, TopUps(w))
  {
    var q := s.procs[a.p];
    assert ProcOk(s.db, s.locks, s.claims, a.p, q);
    if q.req.Refund? { OriginalStillSuccess(s.db, q); }
    CommitIsAtomic(s.db, s.locks, s.claims, a.p, q);
    var amount := ExecuteAdmits(s.db, q.req, q.ch);
    assert amount == q.txn.value.amount;
    PostSums(s.db, q.req, q.ch, amount, s'.db, w);
  }

  lemma CommitterHolds(s: State, a: Action, s': State)
    requires ProcsOk(s) && a.DoCommit? && CommitStep(s, a, s')
    ensures var q := s.procs[a.p]; var w := q.ch.wallet;
            && w in s.db.wallets && w in s'.db.wallets && 0 < q.amount < AMOUNT_LIMIT
            && (q.req.Pay? ==> q.amount <= s.db.wallets[w].balance)
            && s'.db.wallets[w].balance == NewBalance(q.req, s.db.wallets[w].balance, q.amount)
  {
    assert ProcOk(s.db, s.locks, s.claims, a.p, s.procs[a.p]);
  }

  lemma BoundedMoney(db: Tables, w: WalletId)
    requires Money(db) && w in db.wallets && Sum(db.ledger, TopUps(w)) <= MAX_INT64
    ensures db.wallets[w].balance == Net(db, w) && 0 <= Net(db, w) <= Sum(db.ledger, TopUps(w))
  {
    assert MoneyOk(db, w);
  }

  /** The committed balance moved by the amount of `p`, in mathematical integers. */
  ghost predicate ExactUpdate(s: State, p: ProcId, s': State)
    requires p in s.procs
  {
    var q := s.procs[p];
    var w := q.ch.wallet;
    && w in s.db.wallets && w in s'.db.wallets
    && s'.db.wallets[w].balance == s.db.wallets[w].balance + if q.req.Pay? then -q.amount else q.amount
  }

  lemma CommitExact(s: State, a: Action, s': State)
    requires Inv(s) && a.DoCommit? && Step(s, a, s')
    requires Sum(s'.db.ledger, TopUps(s.procs[a.p].ch.wallet)) <= MAX_INT64
    ensures ExactUpdate(s, a.p, s')
  {
    CommitterHolds(s, a, s');
    CommitNet(s, a, s', s.procs[a.p].ch.wallet);
    CommitReplays(s, a, s');
    BoundedMoney(s.db, s.procs[a.p].ch.wallet);
    BoundedMoney(s'.db, s.procs[a.p].ch.wallet);
  }

  /** And no committed addition or subtraction wraps. */
  lemma NoWrap(tr: seq<State>, acts: seq<Action>, n: nat)
    requires Run(tr, acts) && n < |acts| && acts[n].DoCommit? && acts[n].p in tr[n].procs
    requires Sum(tr[n + 1].db.ledger, TopUps(tr[n].procs[acts[n].p].ch.wallet)) <= MAX_INT64
    ensures ExactUpdate(tr[n], acts[n].p, tr[n + 1])
  {
    RunInv(tr, acts, n);
    CommitExact(tr[n], acts[n], tr[n + 1]);
  }

  // ---- the cache ----

  lemma StepLog(s: State, a: Action, s': State, k: string)
    requires ProcsOk(s) && Step(s, a, s') && k in s.db.log
    ensures k in s'.db.log && s'.db.log[k] == s.db.log[k]
  {
    if a.DoCommit? {
      assert ProcOk(s.db, s.locks, s.claims, a.p, s.procs[a.p]);
      CommitFrames(s.db, s.locks, s.claims, a.p, s.procs[a.p]);
    } else if !a.Register? {
      StepTables(s, a, s');
    }
  }

  /** The entry of a key, once there, stays from state to state. */
  ghost predicate KeepsEntry(tr: seq<State>, k: string) {
    forall i :: 0 <= i < |tr| - 1 && k in tr[i].db.log ==> k in tr[i + 1].db.log && tr[i + 1].db.log[k] == tr[i].db.log[k]
  }

  lemma RunKeepsEntry(tr: seq<State>, acts: seq<Action>, k: string)
    requires Run(tr, acts)
    ensures KeepsEntry(tr, k)
  {
    forall i | 0 <= i < |tr| - 1 && k in tr[i].db.log
      ensures k in tr[i + 1].db.log && tr[i + 1].db.log[k] == tr[i].db.log[k]
    {
      RunInv(tr, acts, i);
      StepLog(tr[i], acts[i], tr[i + 1], k);
    }
  }

  lemma {:induction false} EntryStays(tr: seq<State>, i: nat, j: nat, k: string)
    requires KeepsEntry(tr, k) && i <= j < |tr| && k in tr[i].db.log
    ensures k in tr[j].db.log && tr[j].db.log[k] == tr[i].db.log[k]
  {
    if i < j { EntryStays(tr, i, j - 1, k); }
  }

  /** Logged entries are never changed or removed. */
  lemma LogGrows(tr: seq<State>, acts: seq<Action>, i: nat, j: nat, k: string)
    requires Run(tr, acts) && i <= j < |tr| && k in tr[i].db.log
    ensures k in tr[j].db.log && tr[j].db.log[k] == tr[i].db.log[k]
  {
    RunKeepsEntry(tr, acts, k);
    EntryStays(tr, i, j, k);
  }

  /** An entry that is ever in the cache is, from then on, the logged response of its key. */
  lemma CacheIsLog(tr: seq<State>, acts: seq<Action>, i: nat, j: nat, k: string)
    requires Run(tr, acts) && i <= j < |tr| && k in tr[i].cache
    ensures k in tr[j].db.log && tr[j].db.log[k].response == tr[i].cache[k]
  {
    RunInv(tr, acts, i);
    LogGrows(tr, acts, i, j, k);
  }

  /** A cache hit leaves the request exactly where the log lookup alone would have. */
  lemma CacheRefinesLog(tr: seq<State>, acts: seq<Action>, n: nat, p: ProcId)
    requires Run(tr, acts) && n < |tr| && At(tr[n], p, CacheGet) && !tr[n].procs[p].req.TopUp?
    requires KeyOf(tr[n].procs[p].req) in tr[n].cache
    ensures AfterCacheGet(tr[n], tr[n].procs[p], true) == AfterLogGet(tr[n], tr[n].procs[p].(pc := LogGet))
  {
    CacheIsLog(tr, acts, n, n, KeyOf(tr[n].procs[p].req));
  }

  /** All successes of one key, at any two moments of a run, show the same transaction. */
  lemma SuccessesAgree(tr: seq<State>, acts: seq<Action>, i: nat, j: nat, p: ProcId, o: ProcId)
    requires Run(tr, acts) && i <= j < |tr| && At(tr[i], p, Done) && At(tr[j], o, Done)
    requires tr[i].procs[p].reply.Some? && tr[i].procs[p].reply.value.Ok? && tr[j].procs[o].reply.Some? && tr[j].procs[o].reply.value.Ok?
    requires !tr[i].procs[p].req.TopUp? && !tr[j].procs[o].req.TopUp?
    requires KeyOf(tr[i].procs[p].req) == KeyOf(tr[j].procs[o].req)
    ensures Marshal(tr[i].procs[p].reply.value.txn) == Marshal(tr[j].procs[o].reply.value.txn)
  {
    RunInv(tr, acts, i);
    RunInv(tr, acts, j);
    assert ProcOk(tr[i].db, tr[i].locks, tr[i].claims, p, tr[i].procs[p]);
    assert ProcOk(tr[j].db, tr[j].locks, tr[j].claims, o, tr[j].procs[o]);
    LogGrows(tr, acts, i, j, KeyOf(tr[i].procs[p].req));
  }

  // ---- atomicity ----

  /** Nothing commits between two moments. */
  ghost predicate NoCommit(acts: seq<Action>, i: nat, j: nat)
    requires i <= j <= |acts|
  {
    forall n :: i <= n < j ==> !acts[n].DoCommit? && !acts[n].Register?
  }

  /** However far requests got, failed or crashed, without a commit no table has changed. */
  lemma {:induction false} Atomicity(tr: seq<State>, acts: seq<Action>, i: nat, j: nat)
    requires Run(tr, acts) && i <= j <= |acts| && NoCommit(acts, i, j)
    ensures tr[j].db == tr[i].db
  {
    if i < j {
      Atomicity(tr, acts, i, j - 1);
      assert Step(tr[j - 1], acts[j - 1], tr[j]);
      StepTables(tr[j - 1], acts[j - 1], tr[j]);
    }
  }

  /** The log rows and the PAYMENT and REFUND rows are in bijection: key, merchant and id match both ways. */
  lemma LogBijection(tr: seq<State>, acts: seq<Action>, n: nat)
    requires Run(tr, acts) && n < |tr|
    ensures var db := tr[n].db;
            && (forall k :: k in db.log ==>
                  var id := db.log[k].txId;
                  id in db.ledger && db.ledger[id].kind != TOPUP && RowKey(db, db.ledger[id]) == k &&
                  db.log[k].response.merchant == db.ledger[id].merchant)
            && (forall id :: id in db.ledger && db.ledger[id].kind != TOPUP ==>
                  var k := RowKey(db, db.ledger[id]); k in db.log && db.log[k].txId == id)
            && (forall k, k' :: k in db.log && k' in db.log && db.log[k].txId == db.log[k'].txId ==> k == k')
  {
    RunInv(tr, acts, n);
    var db := tr[n].db;
    forall id | id in db.ledger && db.ledger[id].kind != TOPUP
      ensures var k := RowKey(db, db.ledger[id]); k in db.log && db.log[k] == LogEntry(id, Marshal(AsCreated(db.ledger[id])))
    {
      assert RowOk(db, id);
    }
    forall k | k in db.log ensures EntryOk(db, k) { assert EntryOk(db, k); }
  }

  /** Sessions inside a transaction at the same time write to different wallets, insert different rows and
      reverse different payments; so no row of the ledger is ever contended. */
  lemma NoWriteConflict(tr: seq<State>, acts: seq<Action>, n: nat, p: ProcId, o: ProcId)
    requires Run(tr, acts) && n < |tr| && p in tr[n].procs && o in tr[n].procs && p != o
    requires Holding(tr[n].procs[p].pc) && Holding(tr[n].procs[o].pc)
    ensures var x, y := tr[n].procs[p], tr[n].procs[o];
            && x.ch.wallet != y.ch.wallet && x.ch.id != y.ch.id
            && (x.req.Refund? && y.req.Refund? ==> x.ch.orig != y.ch.orig)
  {
    RunInv(tr, acts, n);
    var s := tr[n];
    assert ProcOk(s.db, s.locks, s.claims, p, s.procs[p]);
    assert ProcOk(s.db, s.locks, s.claims, o, s.procs[o]);
  }
}
