/** A refusal that no sequential execution explains: of two concurrent payments of one key, the loser is told that
    funds are short although the payment it asks for was made. */
module Races {
  import opened Domain
  import opened Ledger
  import opened Protocol

  // ---- building a run ----

  /** An execution from the empty system, last step outermost. */
  datatype Trail = Start | Then(prev: Trail, act: Action, state: State)

  function End(t: Trail): State {
    if t.Start? then INIT else t.state
  }

  ghost predicate Valid(t: Trail) {
    t.Then? ==> Valid(t.prev) && Step(End(t.prev), t.act, t.state)
  }

  /** `t'` continues `t`, and leaves the tables alone. */
  ghost predicate Continues(t: Trail, t': Trail) {
    t' == t || (t'.Then? && Continues(t, t'.prev) && t'.state.db == End(t).db)
  }

  lemma PutTwice(s: State, p: ProcId, x: Proc, y: Proc)
    ensures Put(Put(s, p, x), p, y) == Put(s, p, y)
  {
    assert s.procs[p := x][p := y] == s.procs[p := y];
  }

  // ---- a payment or top-up, up to its lock ----

  /** A payment or top-up in VND that the amount column can hold. */
  predicate Storing(r: Request) {
    ValidRequest(r) && !r.Refund? && r.currency == VND && 0 < r.amount < AMOUNT_LIMIT
  }

  function Waiting(r: Request): Proc {
    NewProc(r).(pc := LockWallet)
  }

  lemma Arrives(t: Trail, p: ProcId, r: Request) returns (t': Trail)
    requires Valid(t) && p !in End(t).procs && Storing(r)
    ensures Valid(t') && Continues(t, t')
    ensures End(t') == Put(End(t), p, NewProc(r).(pc := if r.Pay? then CacheGet else Begin))
  {
    var s, q := End(t), NewProc(r);
    var q' := q.(pc := if r.Pay? then CacheGet else Begin);
    PutTwice(s, p, q, q');
    t' := Then(Then(t, Arrive(p, r), Put(s, p, q)), DoCheckAmount(p), Put(s, p, q'));
  }

  lemma Misses(t: Trail, t0: Trail, p: ProcId, r: Request) returns (t': Trail)
    requires Valid(t) && Continues(t0, t) && r.Pay? && End(t) == Put(End(t0), p, NewProc(r).(pc := CacheGet))
    requires KeyOf(r) !in End(t0).db.log && KeyOf(r) !in End(t0).cache
    ensures Valid(t') && Continues(t0, t') && End(t') == Put(End(t0), p, NewProc(r).(pc := Begin))
  {
    var s, q := End(t0), NewProc(r);
    PutTwice(s, p, q.(pc := CacheGet), q.(pc := LogGet));
    PutTwice(s, p, q.(pc := LogGet), q.(pc := Begin));
    t' := Then(Then(t, DoCacheGet(p, true), Put(s, p, q.(pc := LogGet))), DoLogGet(p), Put(s, p, q.(pc := Begin)));
  }

  lemma Begins(t: Trail, t0: Trail, p: ProcId, r: Request) returns (t': Trail)
    requires Valid(t) && Continues(t0, t) && End(t) == Put(End(t0), p, NewProc(r).(pc := Begin))
    ensures Valid(t') && Continues(t0, t') && End(t') == Put(End(t0), p, Waiting(r))
  {
    PutTwice(End(t0), p, NewProc(r).(pc := Begin), Waiting(r));
    t' := Then(t, DoBegin(p), Put(End(t0), p, Waiting(r)));
  }

  lemma Enters(t: Trail, p: ProcId, r: Request) returns (t': Trail)
    requires Valid(t) && p !in End(t).procs && Storing(r)
    requires r.Pay? ==> KeyOf(r) !in End(t).db.log && KeyOf(r) !in End(t).cache
    ensures Valid(t') && Continues(t, t') && End(t') == Put(End(t), p, Waiting(r))
  {
    t' := Arrives(t, p, r);
    if r.Pay? { t' := Misses(t', t, p, r); }
    t' := Begins(t', t, p, r);
  }

  // ---- its transaction ----

  /** One merchant with one wallet, nothing logged, nobody in a transaction. */
  ghost predicate Quiet(s: State, m: Uuid, balance: int) {
    s.db.wallets == map[0 := Wallet(m, VND, balance)] && s.db.log == map[] && s.cache == map[] &&
    s.locks == map[] && s.claims == map[]
  }

  /** The process with its wallet locked. */
  function Locked(r: Request, id: TxId, balance: int): Proc
    requires !r.Refund?
  {
    var ch := Choice(0, id, 0, "", 0, 0);
    Waiting(r).(pc := PutBalance, ch := ch, newBalance := NewBalance(r, balance, r.amount), txn := Some(NewRow(r, ch, r.amount)))
  }

  lemma Locks(t: Trail, p: ProcId, r: Request, id: TxId, balance: int) returns (t': Trail)
    requires Valid(t) && Storing(r) && Quiet(End(t), r.merchant, balance) && (r.Pay? ==> r.amount <= balance)
    requires p in End(t).procs && End(t).procs[p] == Waiting(r) && id !in End(t).used
    ensures Valid(t') && Continues(t, t')
    ensures End(t') == Put(End(t), p, Locked(r, id, balance)).(locks := map[0 := p], used := End(t).used + {id})
  {
    var s := End(t);
    t' := Then(t, DoLock(p, Some(0), id, 0, ""), Put(s, p, Locked(r, id, balance)).(locks := map[0 := p], used := s.used + {id}));
  }

  /** The process with its row and balance written. */
  function Written(r: Request, id: TxId, balance: int): Proc
    requires !r.Refund?
  {
    var q := Locked(r, id, balance);
    q.(pc := if r.Pay? then PutLog else Committing,
       pending := Writes(Some((0, q.newBalance)), q.txn, None, None))
  }

  lemma RowFits(r: Request, id: TxId)
    requires Storing(r)
    ensures Storable(NewRow(r, Choice(0, id, 0, "", 0, 0), r.amount))
  {
    if r.TopUp? { assert |TopUpRef(r.merchant, 0)| == 16; }
  }

  lemma WritesRow(t: Trail, p: ProcId, r: Request, id: TxId, balance: int) returns (t': Trail)
    requires Valid(t) && Storing(r) && p in End(t).procs && End(t).procs[p] == Locked(r, id, balance)
    ensures Valid(t') && Continues(t, t') && End(t') == Put(End(t), p, Written(r, id, balance))
  {
    var s, q := End(t), Locked(r, id, balance);
    var q' := q.(pc := PutRow, pending := Writes(Some((0, q.newBalance)), None, None, None));
    RowFits(r, id);
    PutTwice(s, p, q', Written(r, id, balance));
    t' := Then(Then(t, DoPutBalance(p), Put(s, p, q')), DoPutRow(p), Put(s, p, Written(r, id, balance)));
  }

  /** The process at its commit. */
  function Ready(r: Request, id: TxId, balance: int): Proc
    requires !r.Refund?
  {
    var q := Written(r, id, balance);
    if r.Pay? then
      q.(pc := Committing, pending := q.pending.(entry := Some((KeyOf(r), LogEntry(id, Marshal(q.txn.value))))))
    else q
  }

  lemma WritesLog(t: Trail, p: ProcId, r: Request, id: TxId, balance: int) returns (t': Trail)
    requires Valid(t) && r.Pay? && p in End(t).procs && End(t).procs[p] == Written(r, id, balance)
    requires End(t).claims == map[] && End(t).db.log == map[]
    ensures Valid(t') && Continues(t, t')
    ensures End(t') == Put(End(t), p, Ready(r, id, balance)).(claims := map[KeyOf(r) := p])
  {
    t' := Then(t, DoPutLog(p), Put(End(t), p, Ready(r, id, balance)).(claims := map[KeyOf(r) := p]));
  }

  /** A quiet system again, after `p`; a payment is now logged. */
  ghost predicate Settled(s: State, s': State, p: ProcId, r: Request, balance: int)
    requires !r.Refund?
  {
    && s'.db.wallets == map[0 := Wallet(r.merchant, VND, NewBalance(r, balance, r.amount))]
    && s'.db.log.Keys == (if r.Pay? then {KeyOf(r)} else {})
    && s'.locks == map[] && s'.claims == map[] && s'.cache == s.cache && s'.used == s.used
    && s'.procs.Keys == s.procs.Keys && forall o :: o in s.procs && o != p ==> s'.procs[o] == s.procs[o]
  }

  lemma Commits(t: Trail, p: ProcId, r: Request, id: TxId, balance: int) returns (t': Trail)
    requires Valid(t) && !r.Refund? && p in End(t).procs && End(t).procs[p] == Ready(r, id, balance)
    requires End(t).db.wallets == map[0 := Wallet(r.merchant, VND, balance)] && End(t).db.log == map[]
    requires End(t).locks == map[0 := p] && End(t).claims == if r.Pay? then map[KeyOf(r) := p] else map[]
    ensures t'.Then? && t'.prev == t && Valid(t') && Settled(End(t), t'.state, p, r, balance)
  {
    var s' := CommitsTo(End(t), p, r, id, balance);
    t' := Then(t, DoCommit(p, true), s');
  }

  lemma CommitsTo(s: State, p: ProcId, r: Request, id: TxId, balance: int) returns (s': State)
    requires !r.Refund? && p in s.procs && s.procs[p] == Ready(r, id, balance)
    requires s.db.wallets == map[0 := Wallet(r.merchant, VND, balance)] && s.db.log == map[]
    requires s.locks == map[0 := p] && s.claims == if r.Pay? then map[KeyOf(r) := p] else map[]
    ensures Step(s, DoCommit(p, true), s') && Settled(s, s', p, r, balance)
  {
    var q := Ready(r, id, balance);
    var q' := if r.TopUp? then Serve(q, q.txn.value) else q.(pc := CacheSet);
    s' := Put(Release(s, p), p, q').(db := Commit(s.db, q.pending), history := s.history + [Commitment(q.req, q.ch)]);
    assert Without(s.locks, p) == map[] && Without(s.claims, p) == map[];
  }

  /** The transaction of `p`: nothing happens to the tables before the last step. */
  lemma Transacts(t: Trail, p: ProcId, r: Request, id: TxId, balance: int) returns (t': Trail)
    requires Valid(t) && Storing(r) && Quiet(End(t), r.merchant, balance) && (r.Pay? ==> r.amount <= balance)
    requires p in End(t).procs && End(t).procs[p] == Waiting(r) && id !in End(t).used
    ensures Valid(t') && t'.Then? && Continues(t, t'.prev)
    ensures Settled(End(t).(used := End(t).used + {id}), End(t'), p, r, balance)
  {
    var t1 := Locks(t, p, r, id, balance);
    var t2 := WritesRow(t1, p, r, id, balance);
    var t3 := t2;
    if r.Pay? { t3 := WritesLog(t2, p, r, id, balance); }
    t' := Commits(t3, p, r, id, balance);
    Joins(t, t1, t2);
    Joins(t, t2, t3);
  }

  lemma {:induction false} Joins(t: Trail, t1: Trail, t2: Trail)
    requires Continues(t, t1) && Continues(t1, t2)
    ensures Continues(t, t2) && End(t2).db == End(t).db
  {
    if t2 == t1 {
      SameTables(t, t1);
    } else {
      SameTables(t, t1);
      Joins(t, t1, t2.prev);
    }
  }

  lemma SameTables(t: Trail, t': Trail)
    requires Continues(t, t')
    ensures End(t').db == End(t).db
  {
  }

  // ---- a wallet with just enough money ----

  lemma Registers(m: Uuid) returns (t: Trail)
    ensures Valid(t) && Quiet(End(t), m, 0) && End(t).procs == map[] && End(t).used == {}
  {
    var s := INIT.(db := Registered(EMPTY, 0, m), history := [] + [Registration(0, m)]);
    t := Then(Start, Register(0, m), s);
  }

  lemma Funds(m: Uuid, amount: int) returns (t: Trail)
    requires 0 < amount < AMOUNT_LIMIT
    ensures Valid(t) && Quiet(End(t), m, amount) && End(t).procs.Keys == {0} && End(t).used == {1}
  {
    var r := TopUp(m, amount, VND);
    t := Registers(m);
    t := Enters(t, 0, r);
    t := Transacts(t, 0, r, 1, 0);
  }

  // ---- the race ----

  /** Executed alone on these tables, the request would not be told that funds are short, whichever rows its queries return. */
  ghost predicate Enough(db: Tables, r: Request) {
    forall ch: Choice :: Execute(db, r, ch) != Rejected(InsufficientFunds)
  }

  /** So it has been ever since `t0`. */
  ghost predicate EnoughSince(t0: Trail, t: Trail, r: Request) {
    Enough(End(t).db, r) && (t == t0 || (t.Then? && EnoughSince(t0, t.prev, r)))
  }

  lemma {:induction false} StillEnough(t0: Trail, t: Trail, t': Trail, r: Request)
    requires EnoughSince(t0, t, r) && Continues(t, t')
    ensures EnoughSince(t0, t', r)
  {
    SameTables(t, t');
    if t' != t { StillEnough(t0, t, t'.prev, r); }
  }

  /** The last step of the loser: it locks the wallet that the winner has emptied. */
  lemma Loses(t: Trail, p: ProcId, r: Request) returns (t': Trail)
    requires Valid(t) && Storing(r) && r.Pay? && p in End(t).procs && End(t).procs[p] == Waiting(r)
    requires End(t).db.wallets == map[0 := Wallet(r.merchant, VND, 0)] && End(t).locks == map[]
    ensures Valid(t') && Continues(t, t')
    ensures End(t') == Abort(End(t), p, InsufficientFunds)
  {
    t' := Then(t, DoLock(p, Some(0), 0, 0, ""), Abort(End(t), p, InsufficientFunds));
  }

  /** Two requests for the same payment, 1 and 2, in a system that holds just enough money: both look for an earlier one
      and find none, 1 wins the lock and commits, 2 gets the lock. */
  lemma Race(r: Request) returns (t0: Trail, t: Trail)
    requires Storing(r) && r.Pay?
    ensures Valid(t0) && Valid(t) && 2 !in End(t0).procs && EnoughSince(t0, t, r)
    ensures 2 in End(t).procs && End(t).procs[2] == Reject(Waiting(r), InsufficientFunds)
    ensures KeyOf(r) in End(t).db.log
  {
    t0 := Funds(r.merchant, r.amount);
    assert Enough(End(t0).db, r);
    var t1 := Enters(t0, 1, r);
    var t2 := Enters(t1, 2, r);
    Joins(t0, t1, t2);
    StillEnough(t0, t0, t2, r);
    var t3 := Wins(t0, t2, r);
    t := Loses(t3, 2, r);
    StillEnough(t0, t3, t, r);
    SameTables(t3, t);
  }

  lemma Wins(t0: Trail, t2: Trail, r: Request) returns (t3: Trail)
    requires Valid(t2) && Storing(r) && r.Pay? && EnoughSince(t0, t2, r)
    requires Quiet(End(t2), r.merchant, r.amount) && 2 !in End(t2).used
    requires 1 in End(t2).procs && End(t2).procs[1] == Waiting(r) && 2 in End(t2).procs && End(t2).procs[2] == Waiting(r)
    ensures Valid(t3) && EnoughSince(t0, t3, r) && KeyOf(r) in End(t3).db.log
    ensures End(t3).db.wallets == map[0 := Wallet(r.merchant, VND, 0)] && End(t3).locks == map[]
    ensures 2 in End(t3).procs && End(t3).procs[2] == Waiting(r)
  {
    t3 := Transacts(t2, 1, r, 2, r.amount);
    StillEnough(t0, t2, t3.prev, r);
    assert KeyOf(r) in End(t3).db.log;
    assert Enough(End(t3).db, r);
  }

  // ---- as a run ----

  function Trace(t: Trail): (tr: seq<State>)
    ensures tr != [] && tr[|tr| - 1] == End(t)
  {
    if t.Start? then [INIT] else Trace(t.prev) + [t.state]
  }

  function Acts(t: Trail): (acts: seq<Action>)
    ensures |acts| + 1 == |Trace(t)|
  {
    if t.Start? then [] else Acts(t.prev) + [t.act]
  }

  lemma {:induction false} TrailIsRun(t: Trail)
    requires Valid(t)
    ensures Run(Trace(t), Acts(t))
  {
    if t.Then? {
      TrailIsRun(t.prev);
      ExtendRun(Trace(t.prev), Acts(t.prev), t.act, t.state);
    }
  }

  lemma ExtendRun(tr: seq<State>, acts: seq<Action>, a: Action, s: State)
    requires Run(tr, acts) && Step(tr[|acts|], a, s)
    ensures Run(tr + [s], acts + [a])
  {
    forall i | 0 <= i < |acts| + 1 ensures Step((tr + [s])[i], (acts + [a])[i], (tr + [s])[i + 1]) {
      if i < |acts| { assert Step(tr[i], acts[i], tr[i + 1]); }
    }
  }

  lemma {:induction false} EnoughFrom(t0: Trail, t: Trail, r: Request, i: nat)
    requires EnoughSince(t0, t, r) && |Acts(t0)| <= i <= |Acts(t)|
    ensures Enough(Trace(t)[i].db, r)
  {
    if i < |Acts(t)| {
      if t != t0 {
        EnoughFrom(t0, t.prev, r, i);
      }
    }
  }

  /** `t` goes on from `t0`, whatever it does. */
  ghost predicate Later(t0: Trail, t: Trail) {
    t == t0 || (t.Then? && Later(t0, t.prev))
  }

  lemma {:induction false} EnoughIsLater(t0: Trail, t: Trail, r: Request)
    requires EnoughSince(t0, t, r)
    ensures Later(t0, t)
  {
    if t != t0 { EnoughIsLater(t0, t.prev, r); }
  }

  lemma {:induction false} GoesOn(t0: Trail, t: Trail, t': Trail)
    requires Later(t0, t) && Continues(t, t')
    ensures Later(t0, t')
  {
    if t' != t { GoesOn(t0, t, t'.prev); }
  }

  lemma {:induction false} StartsWith(t0: Trail, t: Trail)
    requires Later(t0, t)
    ensures |Trace(t0)| <= |Trace(t)| && Trace(t)[..|Trace(t0)|] == Trace(t0)
  {
    if t != t0 {
      StartsWith(t0, t.prev);
    } else {
      assert Trace(t)[..|Trace(t)|] == Trace(t);
    }
  }

  /** Answers are not linearizable, and overtaking is why: for every payment there is a run in which a request for it is
      told that funds are short, although from before it arrived until after its answer there is no moment at
      which it would be told so alone, and although the payment is made. */
  lemma LoserIsTurnedAway(r: Request) returns (tr: seq<State>, acts: seq<Action>, k: nat, p: ProcId)
    requires Storing(r) && r.Pay?
    ensures Run(tr, acts) && k < |acts| && p !in tr[k].procs
    ensures At(tr[|acts|], p, Done) && tr[|acts|].procs[p].req == r
    ensures tr[|acts|].procs[p].reply == Some(Err(InsufficientFunds)) && KeyOf(r) in tr[|acts|].db.log
    ensures forall i, ch :: k <= i <= |acts| ==> Execute(tr[i].db, r, ch) != Rejected(InsufficientFunds)
  {
    var t0, t := Race(r);
    tr, acts, k, p := Trace(t), Acts(t), |Acts(t0)|, 2;
    TrailIsRun(t);
    EnoughIsLater(t0, t, r);
    StartsWith(t0, t);
    assert tr[k] == Trace(t)[..|Trace(t0)|][k] == End(t0);
    forall i, ch | k <= i <= |acts| ensures Execute(tr[i].db, r, ch) != Rejected(InsufficientFunds) {
      EnoughFrom(t0, t, r, i);
    }
  }

  /** Request 2 arrives at an empty wallet; then money comes in, and request 1 makes the payment. */
  lemma SlowRace(r: Request) returns (t0: Trail, t: Trail)
    requires Storing(r) && r.Pay?
    ensures Valid(t) && Later(t0, t) && End(t0).procs.Keys == {2} && End(t0).db.wallets == map[0 := Wallet(r.merchant, VND, 0)]
    ensures End(t0).db.log == map[]
    ensures 2 in End(t).procs && End(t).procs[2] == Reject(Waiting(r), InsufficientFunds) && KeyOf(r) in End(t).db.log
  {
    var topUp := TopUp(r.merchant, r.amount, VND);
    t0 := Registers(r.merchant);
    t0 := Enters(t0, 2, r);
    var t1 := Enters(t0, 0, topUp);
    var t2 := Transacts(t1, 0, topUp, 1, 0);
    var t3 := Enters(t2, 1, r);
    var t4 := Transacts(t3, 1, r, 2, r.amount);
    t := Loses(t4, 2, r);
    SameTables(t4, t);
    GoesOn(t0, t0, t1);
    GoesOn(t0, t1, t2.prev);
    GoesOn(t0, t2, t3);
    GoesOn(t0, t3, t4.prev);
    GoesOn(t0, t4, t);
  }

  /** Being overtaken alone does not make a refusal inexplicable: for every payment there is also a run in which a request
      for it is overtaken and told that funds are short, and would have been told so alone after it arrived. */
  lemma OvertakenYetExplained(r: Request) returns (tr: seq<State>, acts: seq<Action>, i: nat, p: ProcId)
    requires Storing(r) && r.Pay?
    ensures Run(tr, acts) && i < |acts| && p in tr[i].procs
    ensures At(tr[|acts|], p, Done) && tr[|acts|].procs[p].req == r
    ensures tr[|acts|].procs[p].reply == Some(Err(InsufficientFunds)) && KeyOf(r) in tr[|acts|].db.log
    ensures Execute(tr[i].db, r, Choice(0, 0, 0, "", 0, 0)) == Rejected(InsufficientFunds)
  {
    var t0, t := SlowRace(r);
    tr, acts, i, p := Trace(t), Acts(t), |Acts(t0)|, 2;
    TrailIsRun(t);
    StartsWith(t0, t);
    assert tr[i] == Trace(t)[..|Trace(t0)|][i] == End(t0);
  }
}
