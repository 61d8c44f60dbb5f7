/** No deadlock, and every request ends after boundedly many of its own steps. */
module Progress {
  import opened Domain
  import opened Ledger
  import opened Protocol
  import opened ProtocolInvariant

  /** `p` is blocked by `o`: at the row lock of the wallet it selects, or at the unique index of its key. */
  ghost predicate WaitsFor(s: State, p: ProcId, o: ProcId) {
    || (At(s, p, LockWallet) && exists w :: Selects(s.db, s.procs[p], w) && w in s.locks && s.locks[w] == o)
    || (At(s, p, PutLog) && !s.procs[p].req.TopUp? && KeyOf(s.procs[p].req) !in s.db.log &&
        KeyOf(s.procs[p].req) in s.claims && s.claims[KeyOf(s.procs[p].req)] == o)
  }

  /** The process whose own doing an action is. */
  function Actor(a: Action): Option<ProcId> {
    match a
    case Register(_, _) => None
    case Evict(_) => None
    case Arrive(_, _) => None
    case _ => Some(a.p)
  }

  /** Something goes wrong: a failed call, a crash, a lost acknowledgement, or a cache that does not answer or store. */
  predicate Fault(a: Action) {
    || a.Fail? || a.Crash?
    || (a.DoCommit? && !a.reported) || (a.DoCacheGet? && !a.answered) || (a.DoCacheSet? && !a.stored)
  }

  ghost predicate CanStep(s: State, p: ProcId) {
    exists a, s' :: Step(s, a, s') && Actor(a) == Some(p) && !Fault(a)
  }

  // ---- waiting ----

  /** Whoever is waited for is further on: the wallet is taken first and the key last. */
  lemma WaitsForLater(s: State, p: ProcId, o: ProcId)
    requires LocksOk(s) && ClaimsOk(s) && WaitsFor(s, p, o)
    ensures o in s.procs && Rank(s.procs[p].pc) < Rank(s.procs[o].pc) && InFlight(s, o)
  {
    if At(s, p, PutLog) {
      assert Claimer(s, KeyOf(s.procs[p].req), o);
    }
  }

  ghost predicate WaitChain(s: State, c: seq<ProcId>) {
    forall i :: 0 <= i < |c| - 1 ==> WaitsFor(s, c[i], c[i + 1])
  }

  lemma {:induction false} ChainClimbs(s: State, c: seq<ProcId>)
    requires LocksOk(s) && ClaimsOk(s) && WaitChain(s, c) && |c| > 1
    ensures c[0] in s.procs && c[|c| - 1] in s.procs
    ensures Rank(s.procs[c[0]].pc) < Rank(s.procs[c[|c| - 1]].pc)
  {
    WaitsForLater(s, c[|c| - 2], c[|c| - 1]);
    if |c| > 2 {
      ChainClimbs(s, c[..|c| - 1]);
    }
  }

  /** In every reachable state no chain of waits leads back to its start. */
  lemma WaitsAcyclic(tr: seq<State>, acts: seq<Action>, n: nat, c: seq<ProcId>)
    requires Run(tr, acts) && n < |tr| && |c| > 1 && WaitChain(tr[n], c)
    ensures c[0] != c[|c| - 1]
  {
    RunInv(tr, acts, n);
    ChainClimbs(tr[n], c);
  }

  // ---- stepping ----

  lemma {:induction false} FreshId(used: set<TxId>) returns (id: TxId)
    ensures forall x :: x in used ==> x < id
  {
    if x :| x in used {
      var rest := FreshId(used - {x});
      id := if rest <= x then x + 1 else rest;
      assert forall y :: y in used ==> y == x || y in used - {x};
    } else {
      id := 0;
    }
  }

  lemma StepWitness(s: State, a: Action, s': State, p: ProcId)
    requires Step(s, a, s') && Actor(a) == Some(p) && !Fault(a)
    ensures CanStep(s, p)
  {
  }

  lemma LookupSteps(s: State, p: ProcId)
    requires InFlight(s, p) && PathOk(s.procs[p]) && s.procs[p].pc in {CheckAmount, CacheGet, LogGet, Begin}
    ensures CanStep(s, p)
  {
    var q := s.procs[p];
    if q.pc == CheckAmount {
      var s' := Put(s, p, if q.req.amount <= 0 then Reject(q, InvalidAmount)
                          else q.(pc := if q.req.Pay? then CacheGet else Begin));
      StepWitness(s, DoCheckAmount(p), s', p);
    } else if q.pc == CacheGet {
      StepWitness(s, DoCacheGet(p, true), Put(s, p, AfterCacheGet(s, q, true)), p);
    } else if q.pc == LogGet {
      StepWitness(s, DoLogGet(p), Put(s, p, AfterLogGet(s, q)), p);
    } else {
      StepWitness(s, DoBegin(p), Put(s, p, q.(pc := LockWallet)), p);
    }
  }

  lemma EligibilitySteps(s: State, p: ProcId)
    requires InFlight(s, p) && PathOk(s.procs[p])
    requires At(s, p, FindOriginal) || (At(s, p, CheckRefund) && s.procs[p].orig.Some?)
    ensures CanStep(s, p)
  {
    var q := s.procs[p];
    if q.pc == CheckRefund {
      StepWitness(s, DoCheckRefund(p), Put(s, p, AfterCheckRefund(s, q)), p);
    } else if id :| id in s.db.ledger && RefMatches(s.db, id, q.req.merchant, q.req.ref) {
      StepWitness(s, DoFind(p, Some(id)), Put(s, p, AfterFind(s, q, Some(id))), p);
    } else {
      StepWitness(s, DoFind(p, None), Put(s, p, AfterFind(s, q, None)), p);
    }
  }

  lemma LockSteps(s: State, p: ProcId)
    requires At(s, p, LockWallet) && forall w :: Selects(s.db, s.procs[p], w) ==> w !in s.locks
    ensures CanStep(s, p)
  {
    var q := s.procs[p];
    var id := FreshId(s.used);
    if w :| Selects(s.db, q, w) {
      var a := DoLock(p, Some(w), id, 0, "");
      if q.req.Pay? && s.db.wallets[w].balance < q.amount {
        StepWitness(s, a, Abort(s, p, InsufficientFunds), p);
      } else {
        var s' := Put(s, p, AfterLock(s, q, w, id, 0, "")).(locks := s.locks[w := p], used := s.used + {id});
        StepWitness(s, a, s', p);
      }
    } else {
      StepWitness(s, DoLock(p, None, id, 0, ""), Abort(s, p, WalletNotFound), p);
    }
  }

  lemma BalanceSteps(s: State, p: ProcId)
    requires At(s, p, PutBalance)
    ensures CanStep(s, p)
  {
    var q := s.procs[p];
    var s' := Put(s, p, q.(pc := PutRow, pending := q.pending.(balance := Some((q.ch.wallet, q.newBalance)))));
    StepWitness(s, DoPutBalance(p), s', p);
  }

  lemma RowSteps(s: State, p: ProcId)
    requires At(s, p, PutRow) && s.procs[p].txn.Some?
    ensures CanStep(s, p)
  {
    var q := s.procs[p];
    var next := if q.req.Pay? then PutLog else if q.req.Refund? then PutReversal else Committing;
    var s' := if !Storable(q.txn.value) then Abort(s, p, Internal)
              else Put(s, p, q.(pc := next, pending := q.pending.(row := q.txn)));
    StepWitness(s, DoPutRow(p), s', p);
  }

  lemma ReversalSteps(s: State, p: ProcId)
    requires At(s, p, PutReversal) && s.procs[p].ch.orig in s.db.ledger
    ensures CanStep(s, p)
  {
    var q := s.procs[p];
    var s' := Put(s, p, q.(pc := PutLog, ch := q.ch.(reversedAt := 0),
                           pending := q.pending.(reversal := Some((q.ch.orig, 0)))));
    StepWitness(s, DoPutReversal(p, 0), s', p);
  }

  lemma LogSteps(s: State, p: ProcId)
    requires At(s, p, PutLog) && !s.procs[p].req.TopUp? && s.procs[p].txn.Some?
    requires KeyOf(s.procs[p].req) in s.db.log || KeyOf(s.procs[p].req) !in s.claims
    ensures CanStep(s, p)
  {
    var q := s.procs[p];
    var k := KeyOf(q.req);
    if k in s.db.log {
      StepWitness(s, DoPutLog(p), Abort(s, p, Internal), p);
    } else {
      var s' := Put(s, p, q.(pc := Committing,
                             pending := q.pending.(entry := Some((k, LogEntry(q.ch.id, Marshal(q.txn.value)))))))
                .(claims := s.claims[k := p]);
      StepWitness(s, DoPutLog(p), s', p);
    }
  }

  lemma LastSteps(s: State, p: ProcId)
    requires (At(s, p, Committing) || (At(s, p, CacheSet) && !s.procs[p].req.TopUp?)) && s.procs[p].txn.Some?
    ensures CanStep(s, p)
  {
    var q := s.procs[p];
    if q.pc == Committing {
      var q' := if q.req.TopUp? then Serve(q, q.txn.value) else q.(pc := CacheSet);
      var s' := Put(Release(s, p), p, q')
                .(db := Commit(s.db, q.pending), history := s.history + [Commitment(q.req, q.ch)]);
      StepWitness(s, DoCommit(p, true), s', p);
    } else {
      var t := q.txn.value;
      StepWitness(s, DoCacheSet(p, true), Put(s, p, Serve(q, t)).(cache := s.cache[KeyOf(q.req) := Marshal(t)]), p);
    }
  }

  /** A request that waits for nobody can take its next step, without any fault. */
  lemma UnblockedSteps(s: State, p: ProcId)
    requires ProcsOk(s) && InFlight(s, p) && forall o :: !WaitsFor(s, p, o)
    ensures CanStep(s, p)
  {
    var q := s.procs[p];
    assert ProcOk(s.db, s.locks, s.claims, p, q);
    match q.pc
    case FindOriginal => EligibilitySteps(s, p);
    case CheckRefund => EligibilitySteps(s, p);
    case LockWallet =>
      forall w | Selects(s.db, q, w) ensures w !in s.locks {
        var holder := if w in s.locks then s.locks[w] else p;
        assert !WaitsFor(s, p, holder);
      }
      LockSteps(s, p);
    case PutBalance => BalanceSteps(s, p);
    case PutRow => RowSteps(s, p);
    case PutReversal => ReversalSteps(s, p);
    case PutLog =>
      var k := KeyOf(q.req);
      var claimer := if k in s.claims then s.claims[k] else p;
      assert !WaitsFor(s, p, claimer);
      LogSteps(s, p);
    case Committing => LastSteps(s, p);
    case CacheSet => LastSteps(s, p);
    case _ => LookupSteps(s, p);
  }

  /** From a waiting request, whoever it waits for leads to one that can step. */
  lemma {:induction false} WaiterLeadsOn(s: State, p: ProcId) returns (o: ProcId)
    requires ProcsOk(s) && LocksOk(s) && ClaimsOk(s) && InFlight(s, p)
    ensures InFlight(s, o) && CanStep(s, o)
    decreases 14 - Rank(s.procs[p].pc)
  {
    if x :| WaitsFor(s, p, x) {
      WaitsForLater(s, p, x);
      o := WaiterLeadsOn(s, x);
    } else {
      o := p;
      UnblockedSteps(s, p);
    }
  }

  /** In every reachable state with a request in flight, some request in flight can step. */
  lemma DeadlockFree(tr: seq<State>, acts: seq<Action>, n: nat, p: ProcId)
    requires Run(tr, acts) && n < |tr| && InFlight(tr[n], p)
    ensures exists o :: InFlight(tr[n], o) && CanStep(tr[n], o)
  {
    RunInv(tr, acts, n);
    var o := WaiterLeadsOn(tr[n], p);
  }

  // ---- termination ----

  /** The process of an action has moved forward, and no other process has moved. */
  ghost predicate Forward(s: State, a: Action, s': State) {
    match Actor(a)
    case None => true
    case Some(p) =>
      && p in s.procs && p in s'.procs && Rank(s'.procs[p].pc) > Rank(s.procs[p].pc)
      && s'.procs == s.procs[p := s'.procs[p]]
  }

  lemma WritesForward(s: State, a: Action, s': State)
    requires Write(s, a, s') && (a.DoPutBalance? || a.DoPutRow?)
    ensures Forward(s, a, s')
  {
  }

  lemma LastWritesForward(s: State, a: Action, s': State)
    requires Write(s, a, s') && (a.DoPutReversal? || a.DoPutLog?)
    ensures Forward(s, a, s')
  {
  }

  lemma LocalForward(s: State, a: Action, s': State)
    requires Local(s, a, s')
    ensures Forward(s, a, s')
  {
  }

  lemma LockForward(s: State, a: Action, s': State)
    requires a.DoLock? && Lock(s, a, s')
    ensures Forward(s, a, s')
  {
  }

  lemma CommitForward(s: State, a: Action, s': State)
    requires a.DoCommit? && CommitStep(s, a, s')
    ensures Forward(s, a, s')
  {
  }

  lemma EndForward(s: State, a: Action, s': State)
    requires Step(s, a, s') && (a.DoCacheSet? || a.Fail? || a.Crash?)
    ensures Forward(s, a, s')
  {
  }

  lemma StepsForward(s: State, a: Action, s': State)
    requires Step(s, a, s')
    ensures Forward(s, a, s')
    ensures Actor(a) == None ==> forall p :: p in s.procs ==> p in s'.procs && s'.procs[p] == s.procs[p]
  {
    if a.DoPutBalance? || a.DoPutRow? {
      WritesForward(s, a, s');
    } else if a.DoPutReversal? || a.DoPutLog? {
      LastWritesForward(s, a, s');
    } else if a.DoLock? {
      LockForward(s, a, s');
    } else if a.DoCommit? {
      CommitForward(s, a, s');
    } else if a.DoCacheSet? || a.Fail? || a.Crash? {
      EndForward(s, a, s');
    } else if Actor(a) != None {
      LocalForward(s, a, s');
    }
  }

  /** How many of the first `n` actions `p` made. */
  ghost function Moves(acts: seq<Action>, p: ProcId, n: nat): nat
    requires n <= |acts|
  {
    if n == 0 then 0 else Moves(acts, p, n - 1) + if Actor(acts[n - 1]) == Some(p) then 1 else 0
  }

  ghost function RankOf(s: State, p: ProcId): nat {
    if p in s.procs then Rank(s.procs[p].pc) else 0
  }

  lemma RankGrows(s: State, a: Action, s': State, p: ProcId)
    requires Step(s, a, s')
    ensures RankOf(s', p) >= RankOf(s, p) + if Actor(a) == Some(p) then 1 else 0
  {
    StepsForward(s, a, s');
  }

  /** A run as seen from one process: each of its actions raises its rank, and nothing lowers it. */
  ghost predicate Climbs(tr: seq<State>, acts: seq<Action>, p: ProcId)
    requires |acts| < |tr|
  {
    forall i :: 0 <= i < |acts| ==>
      RankOf(tr[i + 1], p) >= RankOf(tr[i], p) + if Actor(acts[i]) == Some(p) then 1 else 0
  }

  lemma RunClimbs(tr: seq<State>, acts: seq<Action>, p: ProcId)
    requires Run(tr, acts)
    ensures Climbs(tr, acts, p)
  {
    forall i | 0 <= i < |acts|
      ensures RankOf(tr[i + 1], p) >= RankOf(tr[i], p) + if Actor(acts[i]) == Some(p) then 1 else 0
    {
      RankGrows(tr[i], acts[i], tr[i + 1], p);
    }
  }

  lemma {:induction false} MovesBound(tr: seq<State>, acts: seq<Action>, n: nat, p: ProcId)
    requires n <= |acts| < |tr| && Climbs(tr, acts, p)
    ensures Moves(acts, p, n) <= RankOf(tr[n], p)
  {
    if n > 0 { MovesBound(tr, acts, n - 1, p); }
  }

  lemma {:induction false} RankKept(tr: seq<State>, acts: seq<Action>, i: nat, j: nat, p: ProcId)
    requires i <= j <= |acts| < |tr| && Climbs(tr, acts, p)
    ensures RankOf(tr[j], p) >= RankOf(tr[i], p)
  {
    if i < j { RankKept(tr, acts, i, j - 1, p); }
  }

  lemma CommitRank(s: State, a: Action, s': State)
    requires Step(s, a, s') && a.DoCommit?
    ensures RankOf(s, a.p) == 11 && RankOf(s', a.p) > 11
  {
  }

  /** A request, whatever its kind, commits at most once in a run. */
  lemma OneCommitEach(tr: seq<State>, acts: seq<Action>, i: nat, j: nat)
    requires Run(tr, acts) && i < j < |acts| && acts[i].DoCommit? && acts[j].DoCommit?
    ensures acts[i].p != acts[j].p
  {
    CommitRank(tr[i], acts[i], tr[i + 1]);
    CommitRank(tr[j], acts[j], tr[j + 1]);
    RunClimbs(tr, acts, acts[i].p);
    RankKept(tr, acts, i + 1, j, acts[i].p);
  }

  /** Over a whole run, however long and however it interleaves, a request takes at most 13 steps of its own,
      or 14 if the last one is a crash. */
  lemma Termination(tr: seq<State>, acts: seq<Action>, p: ProcId)
    requires Run(tr, acts)
    ensures Moves(acts, p, |acts|) <= 14
    ensures p in tr[|acts|].procs && tr[|acts|].procs[p].pc != Crashed ==> Moves(acts, p, |acts|) <= 13
  {
    RunClimbs(tr, acts, p);
    ClimbEnds(tr, acts, p);
  }

  lemma ClimbEnds(tr: seq<State>, acts: seq<Action>, p: ProcId)
    requires |acts| < |tr| && Climbs(tr, acts, p)
    ensures Moves(acts, p, |acts|) <= 14
    ensures p in tr[|acts|].procs && tr[|acts|].procs[p].pc != Crashed ==> Moves(acts, p, |acts|) <= 13
  {
    MovesBound(tr, acts, |acts|, p);
  }
}
