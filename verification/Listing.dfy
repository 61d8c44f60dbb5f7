/** The filtered, paginated transaction list: query text, placeholders, pages. */
module Listing {
  import opened Domain
  import Decimal

  // ---- filters ----

  /** What the handler passes down. Status and type are free text: an unknown one matches nothing. */
  datatype Params = Params(merchant: Uuid, status: Option<string>, kind: Option<string>,
                           from: Option<int>, to: Option<int>, page: int, pageSize: int)

  function StatusText(s: Status): string {
    match s
    case PENDING => "PENDING"
    case SUCCESS => "SUCCESS"
    case FAILED => "FAILED"
    case REVERSED => "REVERSED"
  }

  function KindText(k: Kind): string {
    match k
    case PAYMENT => "PAYMENT"
    case REFUND => "REFUND"
    case TOPUP => "TOPUP"
  }

  /** The rows a caller asks for. */
  predicate Wanted(p: Params, t: Transaction) {
    && t.merchant == p.merchant
    && (p.status.Some? ==> StatusText(t.status) == p.status.value)
    && (p.kind.Some? ==> KindText(t.kind) == p.kind.value)
    && (p.from.Some? ==> t.createdAt >= 1000 * p.from.value)
    && (p.to.Some? ==> t.createdAt <= 1000 * p.to.value)
  }

  // ---- query text ----

  datatype Column = Merchant | StatusCol | TypeCol | NotBefore | NotAfter

  datatype Arg = Text(s: string) | Int(n: int)

  function Before(c: Column): string {
    match c
    case Merchant => "merchant_id = $"
    case StatusCol => "status = $"
    case TypeCol => "transaction_type = $"
    case NotBefore => "created_at >= to_timestamp($"
    case NotAfter => "created_at <= to_timestamp($"
  }

  function After(c: Column): string {
    if c == NotBefore || c == NotAfter then ")" else ""
  }

  /** A condition as Sprintf writes it. */
  function Condition(c: Column, i: nat): string {
    Before(c) + Decimal.Digits(i) + After(c)
  }

  /** The comparison that a condition on column `c` makes with its bound argument. */
  predicate Compare(c: Column, a: Arg, t: Transaction) {
    match c
    case Merchant => a == Text(t.merchant)
    case StatusCol => a == Text(StatusText(t.status))
    case TypeCol => a == Text(KindText(t.kind))
    case NotBefore => a.Int? && t.createdAt >= 1000 * a.n
    case NotAfter => a.Int? && t.createdAt <= 1000 * a.n
  }

  /** A comparison as SQL reads it: a column, an operator, and placeholder number `index`, taken as a moment if stamped. */
  datatype Term = Term(column: string, op: string, stamp: bool, index: nat)

  function Comparison(column: string, op: string): string {
    column + " " + op + " "
  }

  function TermText(t: Term): string {
    Comparison(t.column, t.op) +
    if t.stamp then "to_timestamp($" + Decimal.Digits(t.index) + ")" else "$" + Decimal.Digits(t.index)
  }

  /** What a comparison says of a row: by the names of the columns, in the schema's terms. */
  predicate SqlTrue(term: Term, a: Arg, t: Transaction) {
    if term.column == "merchant_id" && term.op == "=" && !term.stamp then a == Text(t.merchant)
    else if term.column == "status" && term.op == "=" && !term.stamp then a == Text(StatusText(t.status))
    else if term.column == "transaction_type" && term.op == "=" && !term.stamp then a == Text(KindText(t.kind))
    else if term.column == "created_at" && term.op == ">=" && term.stamp then a.Int? && t.createdAt >= 1000 * a.n
    else if term.column == "created_at" && term.op == "<=" && term.stamp then a.Int? && t.createdAt <= 1000 * a.n
    else false
  }

  /** A condition text holds of a row when it reads as a comparison that is true with the argument it names. */
  ghost predicate Holds(cond: string, args: seq<Arg>, t: Transaction) {
    exists term: Term :: cond == TermText(term) && 1 <= term.index <= |args| && SqlTrue(term, args[term.index - 1], t)
  }

  function TermOf(c: Column, i: nat): Term {
    match c
    case Merchant => Term("merchant_id", "=", false, i)
    case StatusCol => Term("status", "=", false, i)
    case TypeCol => Term("transaction_type", "=", false, i)
    case NotBefore => Term("created_at", ">=", true, i)
    case NotAfter => Term("created_at", "<=", true, i)
  }

  lemma MerchantText()
    ensures Before(Merchant) == Comparison("merchant_id", "=") + "$"
  {
  }

  lemma StatusColText()
    ensures Before(StatusCol) == Comparison("status", "=") + "$"
  {
  }

  lemma TypeColText()
    ensures Before(TypeCol) == Comparison("transaction_type", "=") + "$"
  {
  }

  lemma NotBeforeText()
    ensures Before(NotBefore) == Comparison("created_at", ">=") + "to_timestamp($"
  {
  }

  lemma NotAfterText()
    ensures Before(NotAfter) == Comparison("created_at", "<=") + "to_timestamp($"
  {
  }

  lemma Joins(before: string, comparison: string, mark: string, d: string, after: string)
    requires before == comparison + mark
    ensures before + d + after == comparison + (mark + d + after)
  {
  }

  lemma PlainText(c: Column, i: nat)
    requires c == Merchant || c == StatusCol || c == TypeCol
    ensures Condition(c, i) == TermText(TermOf(c, i))
  {
    MerchantText();
    StatusColText();
    TypeColText();
    Joins(Before(c), Comparison(TermOf(c, i).column, "="), "$", Decimal.Digits(i), "");
  }

  lemma StampText(c: Column, i: nat)
    requires c == NotBefore || c == NotAfter
    ensures Condition(c, i) == TermText(TermOf(c, i))
  {
    NotBeforeText();
    NotAfterText();
    Joins(Before(c), Comparison("created_at", TermOf(c, i).op), "to_timestamp($", Decimal.Digits(i), ")");
  }

  /** The text that Sprintf writes is that comparison. */
  lemma ConditionText(c: Column, i: nat)
    ensures Condition(c, i) == TermText(TermOf(c, i))
  {
    if c == NotBefore || c == NotAfter { StampText(c, i); } else { PlainText(c, i); }
  }

  lemma TermCompares(c: Column, i: nat, a: Arg, t: Transaction)
    ensures SqlTrue(TermOf(c, i), a, t) <==> Compare(c, a, t)
  {
  }

  /** Only the five comparisons are ever true. */
  lemma TermIsColumn(term: Term, a: Arg, t: Transaction) returns (c: Column)
    requires SqlTrue(term, a, t)
    ensures term == TermOf(c, term.index) && Compare(c, a, t)
  {
    c := if term.column == "merchant_id" then Merchant
         else if term.column == "status" then StatusCol
         else if term.column == "transaction_type" then TypeCol
         else if term.op == ">=" then NotBefore
         else NotAfter;
  }

  lemma HeldTerm(cond: string, args: seq<Arg>, t: Transaction) returns (c: Column, i: nat)
    requires Holds(cond, args, t)
    ensures cond == Condition(c, i) && 1 <= i <= |args| && Compare(c, args[i - 1], t)
  {
    var term: Term :| cond == TermText(term) && 1 <= term.index <= |args| && SqlTrue(term, args[term.index - 1], t);
    c := TermIsColumn(term, args[term.index - 1], t);
    i := term.index;
    ConditionText(c, i);
  }

  ghost predicate AllHold(conds: seq<string>, args: seq<Arg>, t: Transaction) {
    forall j :: 0 <= j < |conds| ==> Holds(conds[j], args, t)
  }

  lemma DigitsInjective(i: nat, j: nat)
    requires Decimal.Digits(i) == Decimal.Digits(j)
    ensures i == j
  {
    Decimal.DigitsRoundTrip(i);
    Decimal.DigitsRoundTrip(j);
  }

  /** The column names differ within their common length. */
  lemma ColumnsDiffer(c: Column, d: Column, x: string, y: string)
    requires Before(c) + x == Before(d) + y
    ensures c == d
  {
    var s := Before(c) + x;
    assert s[0] == Before(c)[0] == Before(d)[0];
    if c == NotBefore || c == NotAfter {
      assert s[11] == Before(c)[11] == Before(d)[11];
    }
  }

  /** A condition text reads in one way only. */
  lemma ConditionReadsOnce(c: Column, i: nat, d: Column, j: nat)
    requires Condition(c, i) == Condition(d, j)
    ensures c == d && i == j
  {
    var s := Condition(c, i);
    assert s == Before(c) + (Decimal.Digits(i) + After(c)) && s == Before(d) + (Decimal.Digits(j) + After(d));
    ColumnsDiffer(c, d, Decimal.Digits(i) + After(c), Decimal.Digits(j) + After(d));
    var b, a := |Before(c)|, |After(c)|;
    assert s[b..|s| - a] == Decimal.Digits(i);
    assert s[b..|s| - a] == Decimal.Digits(j);
    DigitsInjective(i, j);
  }

  lemma HeldOnce(cond: string, c: Column, i: nat, args: seq<Arg>, t: Transaction)
    requires cond == Condition(c, i) && Holds(cond, args, t)
    ensures 1 <= i <= |args| && Compare(c, args[i - 1], t)
  {
    var d, j := HeldTerm(cond, args, t);
    ConditionReadsOnce(c, i, d, j);
  }

  lemma HeldBy(c: Column, i: nat, args: seq<Arg>, t: Transaction)
    requires 1 <= i <= |args| && Compare(c, args[i - 1], t)
    ensures Holds(Condition(c, i), args, t)
  {
    ConditionText(c, i);
    TermCompares(c, i, args[i - 1], t);
    assert TermOf(c, i).index == i;
  }

  /** A condition numbered by the argument just appended compares exactly that argument, now and after more are appended. */
  lemma BindsItsArgument(c: Column, i: nat, args: seq<Arg>, t: Transaction)
    requires 1 <= i <= |args|
    ensures Holds(Condition(c, i), args, t) <==> Compare(c, args[i - 1], t)
  {
    if Holds(Condition(c, i), args, t) {
      HeldOnce(Condition(c, i), c, i, args, t);
    }
    if Compare(c, args[i - 1], t) {
      HeldBy(c, i, args, t);
    }
  }

  // ---- the joined text ----

  ghost predicate IsCondition(s: string) {
    exists c: Column, i: nat :: s == Condition(c, i)
  }

  ghost predicate AreConditions(conds: seq<string>) {
    forall j :: 0 <= j < |conds| ==> IsCondition(conds[j])
  }

  /** strings.Join(conds, " AND "). */
  function Joined(conds: seq<string>): string
    requires conds != []
  {
    if |conds| == 1 then conds[0] else conds[0] + " AND " + Joined(conds[1..])
  }

  function Where(conds: seq<string>): string
    requires conds != []
  {
    "WHERE " + Joined(conds)
  }

  /** A WHERE text selects a row when it reads as conditions that all hold. */
  ghost predicate Selects(where: string, args: seq<Arg>, t: Transaction) {
    exists conds: seq<string> :: conds != [] && where == Where(conds) && AllHold(conds, args, t)
  }

  predicate NoA(s: string) {
    forall i :: 0 <= i < |s| ==> s[i] != 'A'
  }

  lemma ConditionPlain(s: string)
    requires IsCondition(s)
    ensures NoA(s)
  {
    var c: Column, i: nat :| s == Condition(c, i);
    NoAJoins(Before(c), Decimal.Digits(i));
    NoAJoins(Before(c) + Decimal.Digits(i), After(c));
    ColumnPlain(c);
    DigitsPlain(i);
  }

  lemma NoAJoins(a: string, b: string)
    ensures NoA(a) && NoA(b) ==> NoA(a + b)
  {
  }

  lemma ColumnPlain(c: Column)
    ensures NoA(Before(c)) && NoA(After(c))
  {
    TextColumnPlain();
    TimeColumnPlain();
  }

  lemma TextColumnPlain()
    ensures NoA(Before(Merchant)) && NoA(Before(StatusCol)) && NoA(Before(TypeCol))
  {
  }

  lemma TimeColumnPlain()
    ensures NoA(Before(NotBefore)) && NoA(Before(NotAfter))
  {
  }

  lemma DigitsPlain(i: nat)
    ensures NoA(Decimal.Digits(i))
  {
    assert forall k :: 0 <= k < |Decimal.Digits(i)| ==> Decimal.IsDigit(Decimal.Digits(i)[k]);
  }

  function Rest(conds: seq<string>): string
    requires conds != []
  {
    if |conds| == 1 then "" else " AND " + Joined(conds[1..])
  }

  lemma JoinedSplits(conds: seq<string>)
    requires conds != []
    ensures Joined(conds) == conds[0] + Rest(conds)
  {
    if |conds| > 1 {
      assert conds[0] + " AND " + Joined(conds[1..]) == conds[0] + (" AND " + Joined(conds[1..]));
    }
  }

  predicate Continues(x: string) {
    x == "" || (|x| > 1 && x[0] == ' ' && x[1] == 'A')
  }

  /** A text without an 'A' ends where the first " AND " begins. */
  lemma FirstEnds(a: string, x: string, b: string, y: string)
    requires a + x == b + y && NoA(a) && NoA(b) && Continues(x) && Continues(y) && |a| <= |b|
    ensures a == b && x == y
  {
    var s := a + x;
    assert forall i :: 0 <= i < |b| ==> s[i] == b[i];
    assert forall i :: |b| <= i < |s| ==> s[i] == y[i - |b|];
    assert x != "" ==> |a| + 1 < |s| && s[|a|] == ' ' && s[|a| + 1] == 'A';
    assert |a| == |b|;
    assert a == s[..|a|] && b == s[..|b|] && x == s[|a|..] && y == s[|b|..];
  }

  /** Joined conditions are told apart again. */
  lemma {:induction false} JoinedReadsOnce(cs: seq<string>, ds: seq<string>)
    requires cs != [] && ds != [] && AreConditions(cs) && AreConditions(ds) && Joined(cs) == Joined(ds)
    ensures cs == ds
  {
    JoinedSplits(cs);
    JoinedSplits(ds);
    ConditionPlain(cs[0]);
    ConditionPlain(ds[0]);
    if |cs[0]| <= |ds[0]| {
      FirstEnds(cs[0], Rest(cs), ds[0], Rest(ds));
    } else {
      FirstEnds(ds[0], Rest(ds), cs[0], Rest(cs));
    }
    if |cs| > 1 && |ds| > 1 {
      assert Joined(cs[1..]) == Rest(cs)[5..] && Joined(ds[1..]) == Rest(ds)[5..];
      JoinedReadsOnce(cs[1..], ds[1..]);
      assert cs == [cs[0]] + cs[1..] && ds == [ds[0]] + ds[1..];
    }
  }

  lemma WhereSelects(conds: seq<string>, args: seq<Arg>, t: Transaction)
    requires conds != [] && AreConditions(conds)
    ensures Selects(Where(conds), args, t) <==> AllHold(conds, args, t)
  {
    if Selects(Where(conds), args, t) {
      var ds: seq<string> :| ds != [] && Where(conds) == Where(ds) && AllHold(ds, args, t);
      assert Joined(conds) == Where(conds)[6..] && Joined(ds) == Where(ds)[6..];
      forall j | 0 <= j < |ds| ensures IsCondition(ds[j]) {
        assert Holds(ds[j], args, t);
        var c, i := HeldTerm(ds[j], args, t);
      }
      JoinedReadsOnce(conds, ds);
    }
  }

  // ---- building the clauses ----

  /** What the clauses added so far mean together, whatever arguments follow. */
  ghost predicate Means(conds: seq<string>, args: seq<Arg>, p: Params) {
    conds != [] && AreConditions(conds) && HoldMeans(conds, args, p)
  }

  ghost predicate HoldMeans(conds: seq<string>, args: seq<Arg>, p: Params) {
    forall more: seq<Arg>, t: Transaction :: AllHold(conds, args + more, t) <==> Wanted(p, t)
  }

  /** The same for the finished text. */
  ghost predicate WhereMeans(where: string, args: seq<Arg>, p: Params) {
    forall more: seq<Arg>, t: Transaction :: Selects(where, args + more, t) <==> Wanted(p, t)
  }

  lemma JoinMeans(conds: seq<string>, args: seq<Arg>, p: Params)
    requires Means(conds, args, p)
    ensures WhereMeans(Where(conds), args, p)
  {
    forall more: seq<Arg>, t: Transaction ensures Selects(Where(conds), args + more, t) <==> Wanted(p, t) {
      WhereSelects(conds, args + more, t);
    }
  }

  lemma AddClause(conds: seq<string>, args: seq<Arg>, p: Params, p': Params, c: Column, a: Arg)
    requires Means(conds, args, p)
    requires forall t :: Wanted(p', t) <==> Wanted(p, t) && Compare(c, a, t)
    ensures Means(conds + [Condition(c, |args| + 1)], args + [a], p')
  {
    assert IsCondition(Condition(c, |args| + 1));
    forall more: seq<Arg>, t: Transaction
      ensures AllHold(conds + [Condition(c, |args| + 1)], args + [a] + more, t) <==> Wanted(p', t)
    {
      AddHolds(conds, args, p, c, a, more, t);
    }
  }

  lemma AddHolds(conds: seq<string>, args: seq<Arg>, p: Params, c: Column, a: Arg, more: seq<Arg>, t: Transaction)
    requires HoldMeans(conds, args, p)
    ensures AllHold(conds + [Condition(c, |args| + 1)], args + [a] + more, t) <==> Wanted(p, t) && Compare(c, a, t)
  {
    var conds', i := conds + [Condition(c, |args| + 1)], |args| + 1;
    var all := args + [a] + more;
    assert all == args + ([a] + more);
    assert all[i - 1] == a;
    BindsItsArgument(c, i, all, t);
    assert AllHold(conds, all, t) <==> Wanted(p, t);
    assert forall j :: 0 <= j < |conds| ==> conds'[j] == conds[j];
    assert conds'[|conds|] == Condition(c, i);
  }

  lemma FirstClause(p: Params)
    requires p.status.None? && p.kind.None? && p.from.None? && p.to.None?
    ensures Means([Condition(Merchant, 1)], [Text(p.merchant)], p)
  {
    var conds, args := [Condition(Merchant, 1)], [Text(p.merchant)];
    assert IsCondition(Condition(Merchant, 1));
    forall more: seq<Arg>, t: Transaction ensures AllHold(conds, args + more, t) <==> Wanted(p, t) {
      BindsItsArgument(Merchant, 1, args + more, t);
      assert AllHold(conds, args + more, t) <==> Holds(conds[0], args + more, t);
    }
  }

  /** One optional filter: the value is given, and the column compares it as the filter means it. */
  method AddFilter(conds: seq<string>, args: seq<Arg>, argIdx: nat, c: Column, a: Arg, ghost p: Params, ghost p': Params)
    returns (conds': seq<string>, args': seq<Arg>, argIdx': nat)
    requires argIdx == |args| + 1 && Means(conds, args, p)
    requires forall t :: Wanted(p', t) <==> Wanted(p, t) && Compare(c, a, t)
    ensures argIdx' == |args'| + 1 && Means(conds', args', p')
  {
    AddClause(conds, args, p, p', c, a);
    conds' := conds + [Condition(c, argIdx)];
    args' := args + [a];
    argIdx' := argIdx + 1;
  }

  /** List's clause builder: conditions and arguments grow together, and argIdx is always the next placeholder.
      Whatever arguments follow, the finished text selects exactly the rows wanted. */
  method BuildClauses(p: Params) returns (where: string, args: seq<Arg>, argIdx: nat)
    ensures argIdx == |args| + 1
    ensures WhereMeans(where, args, p)
  {
    var conds;
    argIdx := 1;
    conds := [Condition(Merchant, argIdx)];
    args := [Text(p.merchant)];
    argIdx := argIdx + 1;
    ghost var q := Params(p.merchant, None, None, None, None, p.page, p.pageSize);
    FirstClause(q);
    conds, args, argIdx := AddStatusAndType(p, conds, args, argIdx, q);
    ghost var q' := q.(status := p.status, kind := p.kind);
    if p.from.Some? {
      conds, args, argIdx := AddFilter(conds, args, argIdx, NotBefore, Int(p.from.value), q', q'.(from := p.from));
    }
    if p.to.Some? {
      conds, args, argIdx := AddFilter(conds, args, argIdx, NotAfter, Int(p.to.value), q'.(from := p.from), p);
    }
    assert p == q'.(from := p.from, to := p.to);
    where := Where(conds);
    JoinMeans(conds, args, p);
  }

  method AddStatusAndType(p: Params, conds0: seq<string>, args0: seq<Arg>, argIdx0: nat, ghost q: Params)
    returns (conds: seq<string>, args: seq<Arg>, argIdx: nat)
    requires argIdx0 == |args0| + 1 && Means(conds0, args0, q)
    requires q.status.None? && q.kind.None? && q.from.None? && q.to.None?
    ensures argIdx == |args| + 1 && Means(conds, args, q.(status := p.status, kind := p.kind))
  {
    conds, args, argIdx := conds0, args0, argIdx0;
    if p.status.Some? {
      conds, args, argIdx := AddFilter(conds, args, argIdx, StatusCol, Text(p.status.value), q, q.(status := p.status));
    }
    if p.kind.Some? {
      conds, args, argIdx := AddFilter(conds, args, argIdx, TypeCol, Text(p.kind.value), q.(status := p.status),
                                       q.(status := p.status, kind := p.kind));
    }
  }
}
