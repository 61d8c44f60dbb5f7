/** Atomicity request by request: a request leaves its row exactly if its own commit took effect,
    whatever the others do meanwhile. */
module Requests {
  import opened Domain
  import opened Ledger
  import opened LedgerInvariant
  import opened Protocol
  import opened ProtocolInvariant
  import opened Guarantees
  import opened Progress

  /** `p` has drawn the id of its row, which happens when it has locked its wallet. */
  ghost predicate HasId(s: State, p: ProcId) {
    p in s.procs && s.procs[p].txn.Some?
  }

  /** Ids are drawn once, at the lock, and never by two requests, finished ones included. */
  ghost predicate DrawnOk(s: State) {
    && (forall p :: HasId(s, p) ==> s.procs[p].txn.value.id == s.procs[p].ch.id && s.procs[p].ch.id in s.used)
    && (forall p :: HasId(s, p) ==> Rank(s.procs[p].pc) >= 7)
    && (forall p, o :: HasId(s, p) && HasId(s, o) && p != o ==> s.procs[p].ch.id != s.procs[o].ch.id)
  }

  /** A step in which `p` keeps its id, or has none before and after. */
  ghost predicate KeepsId(s: State, p: ProcId, s': State) {
    && (HasId(s', p) <==> HasId(s, p))
    && (HasId(s, p) ==> s'.procs[p].txn == s.procs[p].txn && s'.procs[p].ch.id == s.procs[p].ch.id)
  }

  /** A step in which `p` draws a fresh id. */
  ghost predicate DrawsId(s: State, p: ProcId, s': State) {
    && p in s.procs && s.procs[p].pc == LockWallet && HasId(s', p)
    && s'.procs[p].txn.value.id == s'.procs[p].ch.id && s'.procs[p].ch.id !in s.used && s'.procs[p].ch.id in s'.used
  }

  lemma LocalId(s: State, a: Action, s': State)
    requires Local(s, a, s')
    ensures KeepsId(s, a.p, s') && s'.used == s.used
  {
  }

  lemma LockId(s: State, a: Action, s': State)
    requires a.DoLock? && Lock(s, a, s')
    ensures KeepsId(s, a.p, s') || DrawsId(s, a.p, s')
    ensures s.used <= s'.used
  {
  }

  lemma WriteId(s: State, a: Action, s': State)
    requires Write(s, a, s')
    ensures KeepsId(s, a.p, s') && s'.used == s.used
  {
  }

  lemma EndId(s: State, a: Action, s': State)
    requires Step(s, a, s') && (a.DoCommit? || a.DoCacheSet? || a.Fail? || a.Crash?)
    ensures KeepsId(s, a.p, s') && s'.used == s.used
  {
  }

  /** In any step a process keeps its id or draws one at its lock. */
  lemma StepId(s: State, a: Action, s': State, p: ProcId)
    requires Step(s, a, s')
    ensures KeepsId(s, p, s') || (DrawsId(s, p, s') && Actor(a) == Some(p) && a.DoLock?)
    ensures s.used <= s'.used
  {
    StepsForward(s, a, s');
    if a.DoLock? {
      LockId(s, a, s');
    } else if a.DoPutBalance? || a.DoPutRow? || a.DoPutReversal? || a.DoPutLog? {
      WriteId(s, a, s');
    } else if a.DoCommit? || a.DoCacheSet? || a.Fail? || a.Crash? {
      EndId(s, a, s');
    } else if Actor(a) != None {
      LocalId(s, a, s');
    }
  }

  /** All processes but one keep their ids, that one keeps it or draws a fresh one. */
  ghost predicate OneDraws(s: State, s': State, q: ProcId) {
    && s.used <= s'.used
    && (forall p :: p != q ==> KeepsId(s, p, s'))
    && (KeepsId(s, q, s') || DrawsId(s, q, s'))
    && (forall p :: p in s.procs ==> p in s'.procs && Rank(s'.procs[p].pc) >= Rank(s.procs[p].pc))
    && (HasId(s', q) ==> Rank(s'.procs[q].pc) >= 7)
  }

  lemma DrawnStays(s: State, s': State, q: ProcId)
    requires DrawnOk(s) && OneDraws(s, s', q)
    ensures DrawnOk(s')
  {
    assert forall p :: p != q ==> KeepsId(s, p, s');
    forall p | HasId(s', p) ensures KeepsId(s, p, s') || (p == q && DrawsId(s, p, s')) {
      assert p != q ==> KeepsId(s, p, s');
    }
  }

  lemma StepDrawn(s: State, a: Action, s': State)
    requires DrawnOk(s) && Step(s, a, s')
    ensures DrawnOk(s')
  {
    var q := if Actor(a).Some? then Actor(a).value else 0;
    forall p ensures p != q ==> KeepsId(s, p, s') { StepId(s, a, s', p); }
    StepId(s, a, s', q);
    StepsForward(s, a, s');
    DrawnStays(s, s', q);
  }

  // ---- the row of a request ----

  /** `p` has committed in the first `n` actions. */
  ghost predicate CommittedBy(acts: seq<Action>, n: nat, p: ProcId)
    requires n <= |acts|
  {
    n > 0 && (CommittedBy(acts, n - 1, p) || IsCommitBy(acts[n - 1], p))
  }

  predicate IsCommitBy(a: Action, p: ProcId) {
    a.DoCommit? && a.p == p
  }

  /** The row of `p` is in the ledger, as `p` built it up to a later reversal, exactly if `p` has committed. */
  ghost predicate Tied(s: State, p: ProcId, committed: bool) {
    && (committed ==> HasId(s, p))
    && (HasId(s, p) ==> (s.procs[p].ch.id in s.db.ledger <==> committed))
    && (committed ==> AsCreated(s.db.ledger[s.procs[p].ch.id]) == s.procs[p].txn.value)
  }

  /** What a step does to the rows: nothing, or it inserts the row of the process that commits. */
  ghost predicate RowsStep(s: State, a: Action, s': State) {
    && (forall id :: id in s.db.ledger ==> id in s'.db.ledger && AsCreated(s'.db.ledger[id]) == AsCreated(s.db.ledger[id]))
    && (forall id :: id in s'.db.ledger && id !in s.db.ledger ==> a.DoCommit? && HasId(s, a.p) && id == s.procs[a.p].ch.id)
    && (a.DoCommit? ==>
          && HasId(s, a.p) && s.procs[a.p].ch.id in s'.db.ledger
          && AsCreated(s'.db.ledger[s.procs[a.p].ch.id]) == s.procs[a.p].txn.value)
  }

  lemma CommitRows(s: State, a: Action, s': State)
    requires ProcsOk(s) && a.DoCommit? && CommitStep(s, a, s')
    ensures RowsStep(s, a, s')
  {
    assert ProcOk(s.db, s.locks, s.claims, a.p, s.procs[a.p]);
    CommitFrames(s.db, s.locks, s.claims, a.p, s.procs[a.p]);
  }

  lemma StepRows(s: State, a: Action, s': State)
    requires ProcsOk(s) && Step(s, a, s')
    ensures RowsStep(s, a, s')
  {
    if a.DoCommit? {
      CommitRows(s, a, s');
    } else if !a.Register? {
      StepTables(s, a, s');
    }
  }

  lemma TiedStays(s: State, a: Action, s': State, p: ProcId, committed: bool)
    requires DrawnOk(s) && (forall id :: id in s.db.ledger ==> id in s.used) && RowsStep(s, a, s')
    requires KeepsId(s, p, s') || (DrawsId(s, p, s') && a.DoLock?)
    requires Tied(s, p, committed)
    ensures Tied(s', p, committed || IsCommitBy(a, p))
  {
  }

  lemma StepTied(s: State, a: Action, s': State, p: ProcId, committed: bool)
    requires ProcsOk(s) && IdsOk(s) && DrawnOk(s) && Step(s, a, s') && Tied(s, p, committed)
    ensures Tied(s', p, committed || IsCommitBy(a, p))
  {
    StepRows(s, a, s');
    StepId(s, a, s', p);
    TiedStays(s, a, s', p, committed);
  }

  lemma NextTied(tr: seq<State>, acts: seq<Action>, n: nat, p: ProcId)
    requires Run(tr, acts) && n < |acts| && DrawnOk(tr[n]) && Tied(tr[n], p, CommittedBy(acts, n, p))
    ensures DrawnOk(tr[n + 1]) && Tied(tr[n + 1], p, CommittedBy(acts, n, p) || IsCommitBy(acts[n], p))
  {
    RunInv(tr, acts, n);
    StepDrawn(tr[n], acts[n], tr[n + 1]);
    StepTied(tr[n], acts[n], tr[n + 1], p, CommittedBy(acts, n, p));
  }

  lemma {:induction false} RunTied(tr: seq<State>, acts: seq<Action>, n: nat, p: ProcId)
    requires Run(tr, acts) && n <= |acts|
    ensures DrawnOk(tr[n]) && Tied(tr[n], p, CommittedBy(acts, n, p))
  {
    if n > 0 {
      RunTied(tr, acts, n - 1, p);
      NextTied(tr, acts, n - 1, p);
    }
  }

  /** The id of every committed event is in the ledger it leads to. */
  lemma {:induction false} EventHasRow(h: seq<Event>, i: nat)
    requires Replay(h).Some? && i < |h| && h[i].Commitment?
    ensures h[i].ch.id in Replay(h).value.ledger
  {
    var n := |h| - 1;
    ApplyKeepsRows(Replay(h[..n]).value, h[n]);
    if i < n { EventHasRow(h[..n], i); }
  }

  lemma ApplyKeepsRows(db: Tables, e: Event)
    requires Apply(db, e).Some?
    ensures db.ledger.Keys <= Apply(db, e).value.ledger.Keys
    ensures e.Commitment? ==> e.ch.id in Apply(db, e).value.ledger
  {
  }

  /** In every state of every run, among any commits of others: the row of a request is in the ledger exactly if the
      request has committed, and then it is the row it built, up to a reversal. A request that has not committed,
      be it running, refused, failed or crashed, has left no row, no log entry and no event. */
  lemma RequestAtomicity(tr: seq<State>, acts: seq<Action>, n: nat, p: ProcId)
    requires Run(tr, acts) && n <= |acts| && p in tr[n].procs
    ensures var db, q := tr[n].db, tr[n].procs[p];
            && (CommittedBy(acts, n, p) ==>
                  q.txn.Some? && q.ch.id in db.ledger && AsCreated(db.ledger[q.ch.id]) == q.txn.value)
            && (!CommittedBy(acts, n, p) && q.txn.Some? ==>
                  && q.ch.id !in db.ledger
                  && (forall k :: k in db.log ==> db.log[k].txId != q.ch.id)
                  && (forall j :: 0 <= j < |Commits(tr, acts, n)| && Commits(tr, acts, n)[j].Commitment? ==>
                        Commits(tr, acts, n)[j].ch.id != q.ch.id))
  {
    RunTied(tr, acts, n, p);
    var q := tr[n].procs[p];
    if !CommittedBy(acts, n, p) && q.txn.Some? { NoTrace(tr, acts, n, q.ch.id); }
  }

  lemma NoTrace(tr: seq<State>, acts: seq<Action>, n: nat, id: TxId)
    requires Run(tr, acts) && n <= |acts| && id !in tr[n].db.ledger
    ensures forall k :: k in tr[n].db.log ==> tr[n].db.log[k].txId != id
    ensures forall j :: 0 <= j < |Commits(tr, acts, n)| && Commits(tr, acts, n)[j].Commitment? ==> Commits(tr, acts, n)[j].ch.id != id
  {
    RunInv(tr, acts, n);
    Serializability(tr, acts, n);
    var db, h := tr[n].db, Commits(tr, acts, n);
    forall k | k in db.log ensures db.log[k].txId != id { assert EntryOk(db, k); }
    forall j | 0 <= j < |h| && h[j].Commitment? ensures h[j].ch.id != id { EventHasRow(h, j); }
  }

  // ---- the owner of an event ----

  /** Event `e` is the commit of request `o`. */
  ghost predicate OwnedBy(s: State, e: Event, o: ProcId) {
    o in s.procs && Rank(s.procs[o].pc) >= 12 && e == Commitment(s.procs[o].req, s.procs[o].ch)
  }

  /** A step as owners see it: finished ones keep what they did, and who commits is one. */
  ghost predicate OwnStep(s: State, a: Action, s': State) {
    && (forall o, e :: OwnedBy(s, e, o) ==> OwnedBy(s', e, o))
    && (a.DoCommit? ==> a.p in s.procs && OwnedBy(s', Commitment(s.procs[a.p].req, s.procs[a.p].ch), a.p))
  }

  lemma LateStep(s: State, a: Action, s': State, o: ProcId)
    requires Step(s, a, s') && o in s.procs && Rank(s.procs[o].pc) >= 12
    ensures o in s'.procs && Rank(s'.procs[o].pc) >= 12
    ensures s'.procs[o].req == s.procs[o].req && s'.procs[o].ch == s.procs[o].ch
  {
    StepsForward(s, a, s');
    if Actor(a) == Some(o) { LateActor(s, a, s'); }
  }

  lemma LateActor(s: State, a: Action, s': State)
    requires Step(s, a, s') && Actor(a).Some? && a.p in s.procs && Rank(s.procs[a.p].pc) >= 12
    ensures a.p in s'.procs && s'.procs[a.p].req == s.procs[a.p].req && s'.procs[a.p].ch == s.procs[a.p].ch
  {
    LateAction(s, a, s');
  }

  lemma LateAction(s: State, a: Action, s': State)
    requires Step(s, a, s') && Actor(a).Some? && a.p in s.procs && Rank(s.procs[a.p].pc) >= 12
    ensures a.DoCacheSet? || a.Crash?
  {
  }

  lemma StepOwns(s: State, a: Action, s': State)
    requires Step(s, a, s')
    ensures OwnStep(s, a, s')
  {
    forall o, e | OwnedBy(s, e, o) ensures OwnedBy(s', e, o) { LateStep(s, a, s', o); }
  }

  ghost predicate OwnRun(tr: seq<State>, acts: seq<Action>)
    requires |acts| < |tr|
  {
    forall i :: 0 <= i < |acts| ==> OwnStep(tr[i], acts[i], tr[i + 1])
  }

  lemma RunOwns(tr: seq<State>, acts: seq<Action>)
    requires Run(tr, acts)
    ensures OwnRun(tr, acts)
  {
    forall i | 0 <= i < |acts| ensures OwnStep(tr[i], acts[i], tr[i + 1]) { StepOwns(tr[i], acts[i], tr[i + 1]); }
  }

  lemma {:induction false} OwnerOf(tr: seq<State>, acts: seq<Action>, n: nat, j: nat) returns (o: ProcId)
    requires n <= |acts| < |tr| && OwnRun(tr, acts)
    requires j < |Commits(tr, acts, n)| && Commits(tr, acts, n)[j].Commitment?
    ensures OwnedBy(tr[n], Commits(tr, acts, n)[j], o) && CommittedBy(acts, n, o)
  {
    var h := Commits(tr, acts, n - 1);
    assert OwnStep(tr[n - 1], acts[n - 1], tr[n]);
    if j < |h| {
      o := OwnerOf(tr, acts, n - 1, j);
      assert OwnedBy(tr[n - 1], h[j], o);
    } else {
      o := acts[n - 1].p;
    }
  }

  /** Every event of every run is the commit of some request that has committed, with its request and choices as they
      still stand; so none is of a request that has not, whether it ever came to draw an id or not. */
  lemma EventHasOwner(tr: seq<State>, acts: seq<Action>, n: nat, j: nat) returns (o: ProcId)
    requires Run(tr, acts) && n <= |acts| && j < |Commits(tr, acts, n)| && Commits(tr, acts, n)[j].Commitment?
    ensures o in tr[n].procs && CommittedBy(acts, n, o)
    ensures Commits(tr, acts, n)[j] == Commitment(tr[n].procs[o].req, tr[n].procs[o].ch)
  {
    RunOwns(tr, acts);
    o := OwnerOf(tr, acts, n, j);
  }
}
