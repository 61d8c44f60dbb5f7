/** The dashboard figures of a period, on the creation times of the rows, and how each committed request changes them. */
module Figures {
  import opened Domain
  import opened Sums
  import opened Ledger
  import opened LedgerInvariant
  import opened Protocol
  import opened ProtocolInvariant
  import opened Answers
  import opened Effects
  import opened Histories
  import opened Reporting

  // ---- a period is a restriction of the table ----

  function Restricted(rows: Rows, keep: Transaction -> bool): Rows {
    map id | id in rows && keep(rows[id]) :: rows[id]
  }

  lemma {:induction false} SumRestricted(rows: Rows, keep: Transaction -> bool, f: Transaction -> int, g: Transaction -> int)
    requires forall k :: k in rows ==> f(rows[k]) == if keep(rows[k]) then g(rows[k]) else 0
    ensures Sum(rows, f) == Sum(Restricted(rows, keep), g)
    decreases |rows|
  {
    if k :| k in rows {
      SumRemove(rows, k, f);
      SumRestricted(rows - {k}, keep, f, g);
      assert Restricted(rows - {k}, keep) == Restricted(rows, keep) - {k};
      if keep(rows[k]) {
        SumRemove(Restricted(rows, keep), k, g);
      } else {
        assert Restricted(rows, keep) - {k} == Restricted(rows, keep);
      }
    }
  }

  /** The rows created at or after a moment given in seconds; rows keep their times in milliseconds. */
  function Since(from: int): Transaction -> bool {
    (t: Transaction) => t.createdAt >= 1000 * from
  }

  /** The figures of a period are the all-time figures of the rows created in it. */
  lemma PeriodIsRestriction(db: Tables, m: Uuid, from: int)
    ensures GetStats(db, m, Some(from)) == GetStats(db.(ledger := Restricted(db.ledger, Since(from))), m, None)
  {
    var f, rows, keep := Some(from), db.ledger, Since(from);
    SumRestricted(rows, keep, All(m, f), All(m, None));
    SumRestricted(rows, keep, WithStatus(m, f, SUCCESS), WithStatus(m, None, SUCCESS));
    SumRestricted(rows, keep, WithStatus(m, f, FAILED), WithStatus(m, None, FAILED));
    SumRestricted(rows, keep, WithStatus(m, f, REVERSED), WithStatus(m, None, REVERSED));
    SumRestricted(rows, keep, Amounts(m, f, PAYMENT), Amounts(m, None, PAYMENT));
    SumRestricted(rows, keep, Amounts(m, f, REFUND), Amounts(m, None, REFUND));
    SumRestricted(rows, keep, Amounts(m, f, TOPUP), Amounts(m, None, TOPUP));
  }

  // ---- what a committed request changes ----

  /** 1 for a row of the merchant created in the period. */
  function Counts(t: Transaction, m: Uuid, from: Option<int>): int {
    if t.merchant == m && (from.None? || t.createdAt >= 1000 * from.value) then 1 else 0
  }

  lemma SameMap<T>(rows: map<TxId, T>, rows': map<TxId, T>)
    requires forall x :: x in rows <==> x in rows'
    requires forall x :: x in rows ==> rows[x] == rows'[x]
    ensures rows == rows'
  {
    forall x: TxId ensures x in rows <==> x in rows' {}
    forall x: TxId | x in rows ensures rows[x] == rows'[x] {}
    assert rows.Keys == rows'.Keys;
  }

  lemma InsertedRow<T>(rows: map<TxId, T>, rows': map<TxId, T>, id: TxId)
    requires id !in rows && (forall x :: x in rows' <==> x in rows || x == id)
    requires forall x :: x in rows ==> rows'[x] == rows[x]
    ensures rows' == rows[id := rows'[id]]
  {
    SameMap(rows', rows[id := rows'[id]]);
  }

  lemma InsertedAndUpdated<T>(rows: map<TxId, T>, rows': map<TxId, T>, id: TxId, orig: TxId)
    requires id !in rows && orig in rows && (forall x :: x in rows' <==> x in rows || x == id)
    requires forall x :: x in rows && x != orig ==> rows'[x] == rows[x]
    ensures rows' == rows[id := rows'[id]][orig := rows'[orig]]
  {
    SameMap(rows', rows[id := rows'[id]][orig := rows'[orig]]);
  }

  lemma SumChange(db: Tables, r: Request, ch: Choice, db': Tables, f: Transaction -> int)
    requires RowsChange(db, r, ch, db')
    ensures Sum(db'.ledger, f) == Sum(db.ledger, f) + f(db'.ledger[ch.id]) +
            if r.Refund? then f(db'.ledger[ch.orig]) - f(db.ledger[ch.orig]) else 0
  {
    SumInsert(db.ledger, ch.id, db'.ledger[ch.id], f);
    if r.Refund? {
      InsertedAndUpdated(db.ledger, db'.ledger, ch.id, ch.orig);
      SumUpdate(db.ledger[ch.id := db'.ledger[ch.id]], ch.orig, db'.ledger[ch.orig], f);
    } else {
      InsertedRow(db.ledger, db'.ledger, ch.id);
    }
  }

  /** The figures after a commit: `n` is 1 if the new row counts, `o` if the original of a refund counts. */
  ghost predicate FiguresMove(s: Stats, s': Stats, r: Request, amount: int, original: int, n: int, o: int) {
    && s'.total == s.total + n && s'.failed == s.failed
    && s'.successful == s.successful + n - o && s'.reversed == s.reversed + o
    && s'.revenue == s.revenue + (if r.Pay? then n * amount else 0) - o * original
    && s'.refunded == s.refunded + (if r.Refund? then n * amount else 0)
    && s'.topup == s.topup + (if r.TopUp? then n * amount else 0)
  }

  /** A new row with status SUCCESS, and for a refund a payment that was SUCCESS. */
  ghost predicate Moves(db: Tables, r: Request, ch: Choice, db': Tables) {
    && RowsChange(db, r, ch, db') && db'.ledger[ch.id].status == SUCCESS
    && (r.Refund? ==> db.ledger[ch.orig].kind == PAYMENT && db.ledger[ch.orig].status == SUCCESS)
  }

  /** Whether the original of a refund counts. */
  function OriginalCounts(db: Tables, r: Request, ch: Choice, m: Uuid, from: Option<int>): int
    requires r.Refund? ==> ch.orig in db.ledger
  {
    if r.Refund? then Counts(db.ledger[ch.orig], m, from) else 0
  }

  lemma MoveTotal(db: Tables, r: Request, ch: Choice, db': Tables, m: Uuid, from: Option<int>)
    requires Moves(db, r, ch, db')
    ensures Sum(db'.ledger, All(m, from)) == Sum(db.ledger, All(m, from)) + Counts(db'.ledger[ch.id], m, from)
  {
    SumChange(db, r, ch, db', All(m, from));
  }

  lemma MoveStatus(db: Tables, r: Request, ch: Choice, db': Tables, m: Uuid, from: Option<int>, st: Status)
    requires Moves(db, r, ch, db')
    ensures var n, o := Counts(db'.ledger[ch.id], m, from), OriginalCounts(db, r, ch, m, from);
            Sum(db'.ledger, WithStatus(m, from, st)) == Sum(db.ledger, WithStatus(m, from, st)) +
            if st == SUCCESS then n - o else if st == REVERSED then o else 0
  {
    SumChange(db, r, ch, db', WithStatus(m, from, st));
  }

  lemma MoveAmount(db: Tables, r: Request, ch: Choice, db': Tables, m: Uuid, from: Option<int>, kind: Kind)
    requires Moves(db, r, ch, db')
    ensures var t := db'.ledger[ch.id];
            Sum(db'.ledger, Amounts(m, from, kind)) == Sum(db.ledger, Amounts(m, from, kind)) +
            (if t.kind == kind && Counts(t, m, from) == 1 then t.amount else 0) -
            (if r.Refund? && kind == PAYMENT && OriginalCounts(db, r, ch, m, from) == 1 then db.ledger[ch.orig].amount else 0)
  {
    SumChange(db, r, ch, db', Amounts(m, from, kind));
  }

  lemma MoveFigures(db: Tables, r: Request, ch: Choice, db': Tables, m: Uuid, from: Option<int>)
    requires Moves(db, r, ch, db')
    requires db'.ledger[ch.id].kind == if r.Pay? then PAYMENT else if r.Refund? then REFUND else TOPUP
    ensures var t := db'.ledger[ch.id];
            FiguresMove(GetStats(db, m, from), GetStats(db', m, from), r, t.amount,
                        if r.Refund? then db.ledger[ch.orig].amount else 0,
                        Counts(t, m, from), OriginalCounts(db, r, ch, m, from))
  {
    MoveTotal(db, r, ch, db', m, from);
    MoveStatus(db, r, ch, db', m, from, SUCCESS);
    MoveStatus(db, r, ch, db', m, from, FAILED);
    MoveStatus(db, r, ch, db', m, from, REVERSED);
    MoveAmount(db, r, ch, db', m, from, PAYMENT);
    MoveAmount(db, r, ch, db', m, from, REFUND);
    MoveAmount(db, r, ch, db', m, from, TOPUP);
  }

  /** Every commit of every run changes the figures of every merchant and period by exactly this: a payment, refund or top-up
      made at `now` counts, with its amount, if and only if it is of the merchant and `now` is in the period; and a refund
      turns its original from a success with revenue into a reversal, if that was created in the period. */
  lemma CommitFigures(tr: seq<State>, acts: seq<Action>, n: nat, m: Uuid, from: Option<int>)
    requires Run(tr, acts) && n < |acts| && acts[n].DoCommit? && acts[n].p in tr[n].procs
    ensures var q, db := tr[n].procs[acts[n].p], tr[n].db;
            && q.txn.Some? && (q.req.Refund? ==> q.ch.orig in db.ledger)
            && var mine := q.req.merchant == m && (from.None? || q.ch.now >= 1000 * from.value);
            FiguresMove(GetStats(db, m, from), GetStats(tr[n + 1].db, m, from), q.req, q.txn.value.amount,
                        if q.req.Refund? then db.ledger[q.ch.orig].amount else 0,
                        if mine then 1 else 0, OriginalCounts(db, q.req, q.ch, m, from))
  {
    CommitDoes(tr, acts, n);
    CommittedOriginal(tr, acts, n);
    var q := tr[n].procs[acts[n].p];
    MoveFigures(tr[n].db, q.req, q.ch, tr[n + 1].db, m, from);
  }

  lemma CommittedOriginal(tr: seq<State>, acts: seq<Action>, n: nat)
    requires Run(tr, acts) && n < |acts| && acts[n].DoCommit? && acts[n].p in tr[n].procs
    ensures var q := tr[n].procs[acts[n].p];
            q.req.Refund? ==> IsOriginal(tr[n].db, q.ch.orig, q.req.merchant, q.req.ref)
  {
    CommitIsDecided(tr, acts, n);
    var q := tr[n].procs[acts[n].p];
    if q.req.Refund? { OriginalOf(tr[n].db, q.req, q.ch); }
  }

  lemma OriginalOf(db: Tables, r: Request, ch: Choice)
    requires Execute(db, r, ch).Committed? && r.Refund?
    ensures IsOriginal(db, ch.orig, r.merchant, r.ref)
  {
  }

  /** And nothing else changes them: before any commit all figures are zero, and a registration leaves them as they are. */
  lemma FiguresStart(m: Uuid, from: Option<int>)
    ensures GetStats(EMPTY, m, from) == Stats(0, 0, 0, 0, 0, 0, 0)
  {
  }

  lemma FiguresStay(tr: seq<State>, acts: seq<Action>, n: nat, m: Uuid, from: Option<int>)
    requires Run(tr, acts) && n < |acts| && !acts[n].DoCommit?
    ensures GetStats(tr[n + 1].db, m, from) == GetStats(tr[n].db, m, from)
  {
    StepFigures(tr[n], acts[n], tr[n + 1], m, from);
  }

  lemma StepFigures(s: State, a: Action, s': State, m: Uuid, from: Option<int>)
    requires Step(s, a, s') && !a.DoCommit?
    ensures GetStats(s'.db, m, from) == GetStats(s.db, m, from)
  {
    if !a.Register? { StepTables(s, a, s'); }
  }
}
