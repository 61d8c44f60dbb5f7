/** The effects of committed requests over whole histories and runs: what every row and every answer says. */
module Histories {
  import opened Domain
  import opened Sums
  import opened Ledger
  import opened LedgerInvariant
  import opened Protocol
  import opened ProtocolInvariant
  import opened Guarantees
  import opened Requests
  import opened Answers
  import opened Effects

  lemma SaidStays(rows: Rows, rows': Rows, r: Request, ch: Choice, t: Transaction)
    requires RowSays(rows, r, ch, t)
    requires forall id :: id in rows ==> id in rows' && AsCreated(rows'[id]) == AsCreated(rows[id])
    ensures RowSays(rows', r, ch, t)
  {
    if r.Refund? { assert rows'[ch.orig].amount == AsCreated(rows'[ch.orig]).amount; }
  }

  lemma ApplyKeeps(db: Tables, e: Event)
    requires Apply(db, e).Some?
    ensures forall id :: id in db.ledger ==>
              id in Apply(db, e).value.ledger && AsCreated(Apply(db, e).value.ledger[id]) == AsCreated(db.ledger[id])
  {
    if e.Commitment? { CommitLedger(db, e.req, e.ch); }
  }

  lemma ApplyNew(db: Tables, e: Event, id: TxId)
    requires Apply(db, e).Some? && id in Apply(db, e).value.ledger && id !in db.ledger
    ensures e.Commitment? && id == e.ch.id
    ensures RowSays(Apply(db, e).value.ledger, e.req, e.ch, AsCreated(Apply(db, e).value.ledger[id]))
  {
    if e.Commitment? {
      CommitLedger(db, e.req, e.ch);
      CommitRow(db, e.req, e.ch);
    }
  }

  /** Every row of every history, but for a reversal, says what a committed request asked. */
  lemma {:induction false} RowSaid(h: seq<Event>, id: TxId) returns (i: nat)
    requires Replay(h).Some? && id in Replay(h).value.ledger
    ensures i < |h| && h[i].Commitment? && h[i].ch.id == id
    ensures var rows := Replay(h).value.ledger; RowSays(rows, h[i].req, h[i].ch, AsCreated(rows[id]))
  {
    assert h != [];
    var n := |h| - 1;
    var db, e := Replay(h[..n]).value, h[n];
    assert Replay(h) == Apply(db, e);
    if id in db.ledger {
      i := RowSaid(h[..n], id);
      ApplyKeeps(db, e);
      SaidStays(db.ledger, Replay(h).value.ledger, h[i].req, h[i].ch, AsCreated(db.ledger[id]));
    } else {
      ApplyNew(db, e, id);
      i := n;
    }
  }

  /** Every row in every state of every run says what some request, one that has committed, asked. */
  lemma RowOfRequest(tr: seq<State>, acts: seq<Action>, n: nat, id: TxId) returns (o: ProcId)
    requires Run(tr, acts) && n <= |acts| && id in tr[n].db.ledger
    ensures o in tr[n].procs && CommittedBy(acts, n, o) && tr[n].procs[o].ch.id == id
    ensures RowSays(tr[n].db.ledger, tr[n].procs[o].req, tr[n].procs[o].ch, AsCreated(tr[n].db.ledger[id]))
  {
    Serializability(tr, acts, n);
    var i := RowSaid(Commits(tr, acts, n), id);
    o := EventHasOwner(tr, acts, n, i);
  }

  /** Every commit of every run has exactly the effect of its request on the committed tables. */
  lemma CommitDoes(tr: seq<State>, acts: seq<Action>, n: nat)
    requires Run(tr, acts) && n < |acts| && acts[n].DoCommit? && acts[n].p in tr[n].procs
    ensures var q, db, db' := tr[n].procs[acts[n].p], tr[n].db, tr[n + 1].db;
            && q.txn.Some? && q.ch.id in db'.ledger && db'.ledger[q.ch.id] == q.txn.value
            && RowSays(db'.ledger, q.req, q.ch, q.txn.value)
            && WalletMoves(db, q.req, q.ch.wallet, q.txn.value.amount, db')
            && RowsChange(db, q.req, q.ch, db')
            && LogChanges(db, q.req, q.txn.value, db')
  {
    CommitIsDecided(tr, acts, n);
    CommitterIsNew(tr, acts, n);
    CommitEffect(tr[n].db, tr[n].procs[acts[n].p].req, tr[n].procs[acts[n].p].ch);
  }

  lemma CommitterIsNew(tr: seq<State>, acts: seq<Action>, n: nat)
    requires Run(tr, acts) && n < |acts| && acts[n].DoCommit? && acts[n].p in tr[n].procs
    ensures tr[n].procs[acts[n].p].ch.id !in tr[n].db.ledger
  {
    RunInv(tr, acts, n);
    StepIsNew(tr[n], acts[n], tr[n + 1]);
  }

  lemma StepIsNew(s: State, a: Action, s': State)
    requires ProcsOk(s) && Step(s, a, s') && a.DoCommit?
    ensures s.procs[a.p].ch.id !in s.db.ledger
  {
    assert ProcOk(s.db, s.locks, s.claims, a.p, s.procs[a.p]);
  }

  // ---- refund answers ----

  /** The amount a refund request asks for, of this original. */
  predicate AsksFor(r: Request, original: int, amount: int)
    requires r.Refund?
  {
    match r.amountOpt
    case Some(a) => amount == a
    case None => amount == original
  }

  ghost predicate IsRefundOf(e: Event, merchant: Uuid, ref: string) {
    e.Commitment? && e.req.Refund? && e.req.merchant == merchant && e.req.ref == ref
  }

  /** A successful refund answer means exactly one committed refund for the merchant and reference. It shows the amount which
      that request asked for; so it shows the amount this one asked for exactly if both asked for the same. */
  lemma SuccessMeansOneRefund(tr: seq<State>, acts: seq<Action>, n: nat, p: ProcId) returns (i: nat)
    requires Run(tr, acts) && n <= |acts| && At(tr[n], p, Done) && tr[n].procs[p].req.Refund?
    requires tr[n].procs[p].reply.Some? && tr[n].procs[p].reply.value.Ok?
    ensures var h, r, t := Commits(tr, acts, n), tr[n].procs[p].req, tr[n].procs[p].reply.value.txn;
            && i < |h| && IsRefundOf(h[i], r.merchant, r.ref) && h[i].ch.id == t.id
            && (forall j :: 0 <= j < |h| && IsRefundOf(h[j], r.merchant, r.ref) ==> j == i)
            && h[i].ch.orig in tr[n].db.ledger && t.original == Some(h[i].ch.orig)
            && var original := tr[n].db.ledger[h[i].ch.orig].amount;
            && AsksFor(h[i].req, original, t.amount)
            && (AsksFor(r, original, t.amount) <==> forall a :: AsksFor(r, original, a) <==> AsksFor(h[i].req, original, a))
  {
    SuccessMeansOneRow(tr, acts, n, p);
    Serializability(tr, acts, n);
    var h, r, t := Commits(tr, acts, n), tr[n].procs[p].req, tr[n].procs[p].reply.value.txn;
    i := RowSaid(h, t.id);
    ResponseShows(t);
    ResponseShows(AsCreated(tr[n].db.ledger[t.id]));
    SaidByRefund(tr[n].db.ledger, h[i], AsCreated(tr[n].db.ledger[t.id]), r.merchant, r.ref);
    forall j | 0 <= j < |h| && IsRefundOf(h[j], r.merchant, r.ref) ensures j == i {
      if j < i { CommittedOnce(h, j, i); } else if i < j { CommittedOnce(h, i, j); }
    }
    var original := tr[n].db.ledger[h[i].ch.orig].amount;
    OneAmount(r, h[i].req, original, t.amount);
  }

  lemma OneAmount(r: Request, r': Request, original: int, amount: int)
    requires r.Refund? && r'.Refund? && AsksFor(r', original, amount)
    ensures AsksFor(r, original, amount) <==> forall a :: AsksFor(r, original, a) <==> AsksFor(r', original, a)
  {
  }

  lemma SaidByRefund(rows: Rows, e: Event, t: Transaction, merchant: Uuid, ref: string)
    requires e.Commitment? && RowSays(rows, e.req, e.ch, t) && t.kind == REFUND && t.merchant == merchant
    requires t.ref == REFUND_PREFIX + ref
    ensures IsRefundOf(e, merchant, ref) && e.ch.orig in rows && AsksFor(e.req, rows[e.ch.orig].amount, t.amount)
    ensures t.original == Some(e.ch.orig)
  {
    assert (REFUND_PREFIX + ref)[7..] == ref && ("REFUND-" + e.req.ref)[7..] == e.req.ref;
  }
}
