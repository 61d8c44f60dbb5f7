/** When exactly the balance arithmetic is exact, commit by commit and over whole runs. */
module Overflow {
  import opened Domain
  import opened Ledger
  import opened LedgerInvariant
  import opened Protocol
  import opened ProtocolInvariant
  import opened Guarantees

  /** The guard a caller could check: a payment, or an addition that stays in range. */
  predicate InRange(r: Request, balance: int, amount: int) {
    r.Pay? || balance + amount <= MAX_INT64
  }

  function Moved(r: Request, balance: int, amount: int): int {
    if r.Pay? then balance - amount else balance + amount
  }

  /** The new balance is the mathematical one exactly within that guard, and negative beyond it. */
  lemma BalanceExact(r: Request, balance: int, amount: int)
    requires InInt64(balance) && 0 < amount <= MAX_INT64 && (r.Pay? ==> amount <= balance)
    ensures NewBalance(r, balance, amount) == Moved(r, balance, amount) <==> InRange(r, balance, amount)
    ensures !InRange(r, balance, amount) ==> NewBalance(r, balance, amount) < 0
  {
    WrapFixes(Moved(r, balance, amount));
    if !InRange(r, balance, amount) {
      Wrap64Shift(balance + amount, -1);
      WrapFixes(balance + amount - TWO_64);
    }
  }

  /** Every commit of every run: the balance moves by exactly the amount if and only if the request is a payment
      or the sum is in range. So payments never wrap, whatever happened before. */
  lemma ExactCommit(tr: seq<State>, acts: seq<Action>, n: nat)
    requires Run(tr, acts) && n < |acts| && acts[n].DoCommit? && acts[n].p in tr[n].procs
    ensures var q := tr[n].procs[acts[n].p]; var w := q.ch.wallet;
            && w in tr[n].db.wallets
            && (ExactUpdate(tr[n], acts[n].p, tr[n + 1]) <==> InRange(q.req, tr[n].db.wallets[w].balance, q.amount))
  {
    RunInv(tr, acts, n);
    CommitExactly(tr[n], acts[n], tr[n + 1]);
  }

  lemma CommitExactly(s: State, a: Action, s': State)
    requires WalletsOk(s.db) && ProcsOk(s) && a.DoCommit? && Step(s, a, s')
    ensures var q := s.procs[a.p]; var w := q.ch.wallet;
            && w in s.db.wallets
            && (ExactUpdate(s, a.p, s') <==> InRange(q.req, s.db.wallets[w].balance, q.amount))
  {
    CommitterHolds(s, a, s');
    var q := s.procs[a.p];
    BalanceExact(q.req, s.db.wallets[q.ch.wallet].balance, q.amount);
  }

  // ---- over runs ----

  ghost predicate CommitsOn(s: State, a: Action, w: WalletId) {
    a.DoCommit? && a.p in s.procs && s.procs[a.p].ch.wallet == w
  }

  /** What commits on `w` in this step, if anything does, is in range. */
  ghost predicate Fits(s: State, a: Action, w: WalletId) {
    CommitsOn(s, a, w) && w in s.db.wallets ==>
      InRange(s.procs[a.p].req, s.db.wallets[w].balance, s.procs[a.p].amount)
  }

  /** What a step does to the balance of `w` and to its net. */
  ghost predicate WalletStep(s: State, a: Action, s': State, w: WalletId) {
    if CommitsOn(s, a, w) then
      && w in s.db.wallets && w in s'.db.wallets
      && var q, b := s.procs[a.p], s.db.wallets[w].balance;
      && InInt64(b) && 0 < q.amount <= MAX_INT64 && (q.req.Pay? ==> q.amount <= b)
      && s'.db.wallets[w].balance == NewBalance(q.req, b, q.amount)
      && Net(s'.db, w) == Moved(q.req, Net(s.db, w), q.amount)
    else if w in s.db.wallets then
      w in s'.db.wallets && s'.db.wallets[w].balance == s.db.wallets[w].balance && Net(s'.db, w) == Net(s.db, w)
    else
      w in s'.db.wallets ==> s'.db.wallets[w].balance == 0 == Net(s'.db, w)
  }

  lemma CommitWallet(s: State, a: Action, s': State, w: WalletId)
    requires Structure(s.db) && ProcsOk(s) && a.DoCommit? && CommitStep(s, a, s')
    ensures WalletStep(s, a, s', w)
  {
    CommitterHolds(s, a, s');
    CommitNet(s, a, s', w);
    CommitElsewhere(s, a, s', w);
  }

  lemma CommitElsewhere(s: State, a: Action, s': State, w: WalletId)
    requires ProcsOk(s) && a.DoCommit? && CommitStep(s, a, s')
    ensures w in s'.db.wallets <==> w in s.db.wallets
    ensures w in s.db.wallets && s.procs[a.p].ch.wallet != w ==> s'.db.wallets[w] == s.db.wallets[w]
  {
    assert ProcOk(s.db, s.locks, s.claims, a.p, s.procs[a.p]);
    CommitFrames(s.db, s.locks, s.claims, a.p, s.procs[a.p]);
  }

  lemma RegisterWallet(db: Tables, v: WalletId, m: Uuid, w: WalletId)
    requires RowsOk(db) && CanRegister(db, v, m)
    ensures var db' := Registered(db, v, m);
            && Net(db', w) == Net(db, w)
            && (w in db.wallets ==> w in db'.wallets && db'.wallets[w] == db.wallets[w])
            && (w !in db.wallets && w in db'.wallets ==> db'.wallets[w].balance == 0 == Net(db', w))
  {
    if w !in db.wallets {
      forall id | id in db.ledger ensures db.ledger[id].wallet != w { assert RowOk(db, id); }
      NoRows(db, w);
    }
  }

  lemma StepWallet(s: State, a: Action, s': State, w: WalletId)
    requires Structure(s.db) && ProcsOk(s) && Step(s, a, s')
    ensures WalletStep(s, a, s', w)
  {
    if a.DoCommit? {
      CommitWallet(s, a, s', w);
    } else if a.Register? {
      RegisterWallet(s.db, a.wallet, a.merchant, w);
    } else {
      StepTables(s, a, s');
    }
  }

  /** A run as seen from one wallet. */
  ghost predicate WalletRun(tr: seq<State>, acts: seq<Action>, w: WalletId)
    requires |acts| < |tr|
  {
    w !in tr[0].db.wallets && forall i :: 0 <= i < |acts| ==> WalletStep(tr[i], acts[i], tr[i + 1], w)
  }

  lemma RunOfWallet(tr: seq<State>, acts: seq<Action>, w: WalletId)
    requires Run(tr, acts)
    ensures WalletRun(tr, acts, w)
  {
    forall i | 0 <= i < |acts| ensures WalletStep(tr[i], acts[i], tr[i + 1], w) {
      RunInv(tr, acts, i);
      StepWallet(tr[i], acts[i], tr[i + 1], w);
    }
  }

  ghost predicate AllFit(tr: seq<State>, acts: seq<Action>, n: nat, w: WalletId)
    requires n <= |acts| < |tr|
  {
    forall i :: 0 <= i < n ==> Fits(tr[i], acts[i], w)
  }

  ghost predicate NonNegative(s: State, w: WalletId) {
    w in s.db.wallets ==> 0 <= s.db.wallets[w].balance
  }

  ghost predicate IsNet(s: State, w: WalletId) {
    w in s.db.wallets ==> s.db.wallets[w].balance == Net(s.db, w)
  }

  ghost predicate NeverNegative(tr: seq<State>, n: nat, w: WalletId)
    requires n < |tr|
  {
    forall i :: 0 <= i <= n ==> NonNegative(tr[i], w)
  }

  ghost predicate AlwaysNet(tr: seq<State>, n: nat, w: WalletId)
    requires n < |tr|
  {
    forall i :: 0 <= i <= n ==> IsNet(tr[i], w)
  }

  /** One step: good before and fitting means good after, and not fitting means bad after. */
  lemma StepFits(s: State, a: Action, s': State, w: WalletId)
    requires WalletStep(s, a, s', w)
    ensures Fits(s, a, w) && NonNegative(s, w) ==> NonNegative(s', w)
    ensures Fits(s, a, w) && IsNet(s, w) ==> IsNet(s', w)
    ensures !Fits(s, a, w) ==> !NonNegative(s', w)
    ensures !Fits(s, a, w) && IsNet(s, w) ==> !IsNet(s', w)
  {
    if CommitsOn(s, a, w) {
      BalanceExact(s.procs[a.p].req, s.db.wallets[w].balance, s.procs[a.p].amount);
    }
  }

  lemma {:induction false} FittingStaysGood(tr: seq<State>, acts: seq<Action>, n: nat, w: WalletId, i: nat)
    requires n <= |acts| < |tr| && WalletRun(tr, acts, w) && AllFit(tr, acts, n, w) && i <= n
    ensures NonNegative(tr[i], w) && IsNet(tr[i], w)
  {
    if i > 0 {
      FittingStaysGood(tr, acts, n, w, i - 1);
      StepFits(tr[i - 1], acts[i - 1], tr[i], w);
      assert Fits(tr[i - 1], acts[i - 1], w);
    }
  }

  /** Over every run and for every wallet, with no bound on top-ups: the balance has never been negative up to a moment
      if and only if every addition committed on the wallet was in range, if and only if the balance has
      always been the mathematical net of top-ups, payments and refunds. */
  lemma FitsIffGood(tr: seq<State>, acts: seq<Action>, n: nat, w: WalletId)
    requires Run(tr, acts) && n <= |acts|
    ensures AllFit(tr, acts, n, w) <==> NeverNegative(tr, n, w)
    ensures AllFit(tr, acts, n, w) <==> AlwaysNet(tr, n, w)
  {
    RunOfWallet(tr, acts, w);
    if AllFit(tr, acts, n, w) {
      forall i | 0 <= i <= n ensures NonNegative(tr[i], w) && IsNet(tr[i], w) {
        FittingStaysGood(tr, acts, n, w, i);
      }
    } else {
      var i :| 0 <= i < n && !Fits(tr[i], acts[i], w);
      Misfit(tr, acts, n, w, i);
    }
  }

  lemma Misfit(tr: seq<State>, acts: seq<Action>, n: nat, w: WalletId, i: nat)
    requires n <= |acts| < |tr| && WalletRun(tr, acts, w) && i < n && !Fits(tr[i], acts[i], w)
    ensures !NeverNegative(tr, n, w) && !AlwaysNet(tr, n, w)
  {
    assert WalletStep(tr[i], acts[i], tr[i + 1], w);
    StepFits(tr[i], acts[i], tr[i + 1], w);
    assert !NonNegative(tr[i + 1], w);
    assert !IsNet(tr[i], w) || !IsNet(tr[i + 1], w);
  }
}
