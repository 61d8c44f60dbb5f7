/** Answers against the sequential specification: what a request is told, held to what it would be told
    if it were executed alone at the instant of the decision. */
module Answers {
  import opened Domain
  import opened Keys
  import opened Ledger
  import opened LedgerInvariant
  import opened Protocol
  import opened ProtocolInvariant

  /** What the request has seen of the tables when the action decides: the rows its queries returned. */
  function Seen(q: Proc, a: Action): Choice {
    match a
    case DoFind(_, Some(id)) => q.ch.(orig := id)
    case DoLock(_, Some(w), _, _, _) => q.ch.(wallet := w)
    case _ => q.ch
  }

  /** The action is a decision of the service to refuse, not a failed call, crash or lost acknowledgement. */
  ghost predicate Refuses(a: Action, s': State, e: Error) {
    && (a.DoCheckAmount? || a.DoFind? || a.DoCheckRefund? || a.DoLock? || a.DoPutRow? || a.DoPutReversal? || a.DoPutLog?)
    && At(s', a.p, Done) && s'.procs[a.p].reply == Some(Err(e))
  }

  /** Another request of the same key has committed by now; the amount check alone comes before any lookup. */
  ghost predicate Overtaken(s: State, a: Action, q: Proc) {
    !a.DoCheckAmount? && !q.req.TopUp? && KeyOf(q.req) in s.db.log
  }

  /** The refusal is what the request would be told alone, exactly if it was not overtaken;
      if it was, it would be answered with the transaction of the other request. */
  ghost predicate Decided(s: State, a: Action, e: Error)
    requires a.DoCheckAmount? || a.DoFind? || a.DoCheckRefund? || a.DoLock? || a.DoPutRow? || a.DoPutReversal? || a.DoPutLog?
    requires a.p in s.procs
  {
    var q := s.procs[a.p];
    var o := Execute(s.db, q.req, Seen(q, a));
    && (o == Rejected(e) <==> !Overtaken(s, a, q))
    && (Overtaken(s, a, q) ==> o == Replayed(s.db.log[KeyOf(q.req)].response))
  }

  /** A logged refund key means a payment of that reference. */
  lemma LoggedRefundHasOriginal(db: Tables, m: Uuid, ref: string) returns (id: TxId)
    requires Structure(db) && RefundKey(m, ref) in db.log
    ensures RefMatches(db, id, m, ref)
  {
    var k := RefundKey(m, ref);
    assert EntryOk(db, k);
    var x := db.log[k].txId;
    assert RowOk(db, x);
    var t := db.ledger[x];
    if t.kind == PAYMENT { KeyCollision(t.merchant, t.ref, m, ref); }
    id := t.original.value;
    RefundKeyInjective(t.merchant, db.ledger[id].ref, m, ref);
  }

  lemma FindDecides(s: State, a: Action, s': State, e: Error)
    requires Structure(s.db) && a.DoFind? && Local(s, a, s') && Refuses(a, s', e)
    ensures Decided(s, a, e)
  {
    var q := s.procs[a.p];
    if a.found.None? && KeyOf(q.req) in s.db.log {
      var _ := LoggedRefundHasOriginal(s.db, q.req.merchant, q.req.ref);
    }
  }

  lemma EligibilityDecides(s: State, a: Action, s': State, e: Error)
    requires Structure(s.db) && a.DoCheckRefund? && Local(s, a, s') && Refuses(a, s', e)
    requires OrigOk(s.db, s.procs[a.p])
    ensures Decided(s, a, e)
    ensures e == DuplicateRefund ==> Overtaken(s, a, s.procs[a.p])
  {
    EligibilityAlone(s.db, s.procs[a.p]);
  }

  /** What the eligibility check of a refund comes to when the refund is executed alone. */
  lemma EligibilityAlone(db: Tables, q: Proc)
    requires Structure(db) && OrigOk(db, q)
    ensures var o := Execute(db, q.req, q.ch); var amount := q.req.amountOpt;
            if KeyOf(q.req) in db.log then o == Replayed(db.log[KeyOf(q.req)].response)
            else
              && !RefundExists(db, q.ch.orig)
              && (amount.Some? && amount.value <= 0 ==> o == Rejected(InvalidAmount))
              && (amount.Some? && amount.value > q.orig.value.amount && amount.value > 0 ==> o == Rejected(RefundExceedsOriginal))
  {
    if KeyOf(q.req) !in db.log { OriginalStillSuccess(db, q); }
  }

  lemma LockDecides(s: State, a: Action, s': State, e: Error)
    requires Structure(s.db) && a.DoLock? && Lock(s, a, s') && Refuses(a, s', e)
    requires ProcOk(s.db, s.locks, s.claims, a.p, s.procs[a.p])
    ensures Decided(s, a, e)
    ensures !s.procs[a.p].req.Refund?
  {
    var q := s.procs[a.p];
    if q.req.Refund? {
      assert RowOk(s.db, q.ch.orig);
      assert Selects(s.db, q, q.orig.value.wallet);
    }
  }

  lemma RowDecides(s: State, a: Action, s': State, e: Error)
    requires Structure(s.db) && a.DoPutRow? && Write(s, a, s') && Refuses(a, s', e)
    requires ProcOk(s.db, s.locks, s.claims, a.p, s.procs[a.p])
    ensures Decided(s, a, e)
  {
    var q := s.procs[a.p];
    if q.req.Refund? && KeyOf(q.req) !in s.db.log { OriginalStillSuccess(s.db, q); }
    UnstorableIsRejected(s.db, s.locks, a.p, q);
  }

  lemma UnstorableIsRejected(db: Tables, locks: map<WalletId, ProcId>, p: ProcId, q: Proc)
    requires HoldOk(db, locks, p, q) && AmountOk(db, q) && !Storable(q.txn.value)
    requires q.req.Refund? && KeyOf(q.req) !in db.log ==> db.ledger[q.ch.orig].IsRefundable() && !RefundExists(db, q.ch.orig)
    ensures Execute(db, q.req, q.ch) ==
            if !q.req.TopUp? && KeyOf(q.req) in db.log then Replayed(db.log[KeyOf(q.req)].response) else Rejected(Internal)
  {
  }

  lemma LastWritesDecide(s: State, a: Action, s': State, e: Error)
    requires (a.DoPutReversal? || a.DoPutLog?) && Write(s, a, s') && Refuses(a, s', e)
    requires ProcOk(s.db, s.locks, s.claims, a.p, s.procs[a.p])
    ensures Decided(s, a, e)
  {
  }

  lemma AmountDecides(s: State, a: Action, s': State, e: Error)
    requires a.DoCheckAmount? && Local(s, a, s') && Refuses(a, s', e)
    ensures Decided(s, a, e)
  {
  }

  lemma StepDecides(s: State, a: Action, s': State, e: Error)
    requires Structure(s.db) && ProcsOk(s) && Step(s, a, s') && Refuses(a, s', e)
    ensures a.p in s.procs && Decided(s, a, e)
  {
    assert ProcOk(s.db, s.locks, s.claims, a.p, s.procs[a.p]);
    if a.DoCheckAmount? {
      AmountDecides(s, a, s', e);
    } else if a.DoFind? {
      FindDecides(s, a, s', e);
    } else if a.DoCheckRefund? {
      EligibilityDecides(s, a, s', e);
    } else if a.DoLock? {
      LockDecides(s, a, s', e);
    } else if a.DoPutRow? {
      RowDecides(s, a, s', e);
    } else {
      LastWritesDecide(s, a, s', e);
    }
  }

  /** Every refusal in every run: it is what the request would be told if executed alone at this instant, exactly if
      no request of the same key has committed meanwhile; otherwise it would be answered with that one's transaction. */
  lemma RefusalIsDecided(tr: seq<State>, acts: seq<Action>, n: nat, e: Error)
    requires Run(tr, acts) && n < |acts| && Refuses(acts[n], tr[n + 1], e)
    ensures acts[n].p in tr[n].procs && Decided(tr[n], acts[n], e)
  {
    RunInv(tr, acts, n);
    StepDecides(tr[n], acts[n], tr[n + 1], e);
  }

  /** "Duplicate" is only ever said when the refund is logged, so a retry is answered with it. */
  lemma DuplicateMeansLogged(tr: seq<State>, acts: seq<Action>, n: nat)
    requires Run(tr, acts) && n < |acts| && Refuses(acts[n], tr[n + 1], DuplicateRefund)
    ensures acts[n].p in tr[n].procs && Overtaken(tr[n], acts[n], tr[n].procs[acts[n].p])
  {
    RunInv(tr, acts, n);
    DuplicateStep(tr[n], acts[n], tr[n + 1]);
  }

  lemma DuplicateStep(s: State, a: Action, s': State)
    requires Structure(s.db) && ProcsOk(s) && Step(s, a, s') && Refuses(a, s', DuplicateRefund)
    ensures a.p in s.procs && Overtaken(s, a, s.procs[a.p])
  {
    assert ProcOk(s.db, s.locks, s.claims, a.p, s.procs[a.p]);
    OnlyEligibilitySaysDuplicate(s, a, s');
    EligibilityDecides(s, a, s', DuplicateRefund);
  }

  lemma OnlyEligibilitySaysDuplicate(s: State, a: Action, s': State)
    requires Step(s, a, s') && Refuses(a, s', DuplicateRefund)
    ensures a.DoCheckRefund?
  {
  }

  /** A success by lookup is what the request would be told alone at this instant. */
  lemma LookupIsDecided(tr: seq<State>, acts: seq<Action>, n: nat)
    requires Run(tr, acts) && n < |acts| && (acts[n].DoCacheGet? || acts[n].DoLogGet?) && At(tr[n + 1], acts[n].p, Done)
    ensures acts[n].p in tr[n].procs
    ensures var q, q' := tr[n].procs[acts[n].p], tr[n + 1].procs[acts[n].p];
            && q'.reply.Some? && q'.reply.value.Ok?
            && Execute(tr[n].db, q.req, q.ch) == Replayed(Marshal(q'.reply.value.txn))
  {
    RunInv(tr, acts, n);
    LookupStep(tr[n], acts[n], tr[n + 1]);
  }

  lemma LookupStep(s: State, a: Action, s': State)
    requires ProcsOk(s) && CacheOk(s) && Step(s, a, s') && (a.DoCacheGet? || a.DoLogGet?) && At(s', a.p, Done)
    ensures a.p in s.procs
    ensures var q, q' := s.procs[a.p], s'.procs[a.p];
            && q'.reply.Some? && q'.reply.value.Ok?
            && Execute(s.db, q.req, q.ch) == Replayed(Marshal(q'.reply.value.txn))
  {
    assert ProcOk(s.db, s.locks, s.claims, a.p, s.procs[a.p]);
  }

  /** And a success by commit is the sequential outcome at the commit. */
  lemma CommitIsDecided(tr: seq<State>, acts: seq<Action>, n: nat)
    requires Run(tr, acts) && n < |acts| && acts[n].DoCommit? && acts[n].p in tr[n].procs
    ensures var q := tr[n].procs[acts[n].p];
            q.txn.Some? && Execute(tr[n].db, q.req, q.ch) == Committed(tr[n + 1].db, q.txn.value)
  {
    RunInv(tr, acts, n);
    CommitStepDecided(tr[n], acts[n], tr[n + 1]);
  }

  lemma CommitStepDecided(s: State, a: Action, s': State)
    requires Structure(s.db) && ProcsOk(s) && Step(s, a, s') && a.DoCommit?
    ensures var q := s.procs[a.p]; q.txn.Some? && Execute(s.db, q.req, q.ch) == Committed(s'.db, q.txn.value)
  {
    var q := s.procs[a.p];
    assert ProcOk(s.db, s.locks, s.claims, a.p, q);
    if q.req.Refund? { OriginalStillSuccess(s.db, q); }
    CommitIsAtomic(s.db, s.locks, s.claims, a.p, q);
  }
}
