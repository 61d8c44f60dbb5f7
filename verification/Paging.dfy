/** Pages of the transaction list: the repository's List and the handler on top of it. */
module Paging {
  import opened Domain
  import opened Sums
  import opened Arith
  import opened Listing
  import Decimal

  // ---- the database's side ----

  /** The rows selected by a WHERE clause, in the order of the table scan. */
  ghost function Select(view: seq<Transaction>, where: string, args: seq<Arg>): seq<Transaction> {
    if view == [] then []
    else
      var rest := Select(view[1..], where, args);
      if Selects(where, args, view[0]) then [view[0]] + rest else rest
  }

  /** LIMIT and OFFSET. */
  function Window(rows: seq<Transaction>, offset: nat, limit: nat): seq<Transaction> {
    var lo := if offset <= |rows| then offset else |rows|;
    var hi := if lo + limit <= |rows| then lo + limit else |rows|;
    rows[lo..hi]
  }

  /** The table scanned newest first, ties in some fixed order. */
  ghost predicate Arranges(view: seq<Transaction>, ledger: Rows) {
    && (forall i :: 0 <= i < |view| ==> view[i].id in ledger && ledger[view[i].id] == view[i])
    && Ordered(view)
    && (forall id :: id in ledger ==> exists i :: 0 <= i < |view| && view[i].id == id)
  }

  // ---- what a caller asks for ----

  ghost function Filtered(view: seq<Transaction>, p: Params): (rows: seq<Transaction>)
    ensures forall t :: t in rows <==> t in view && Wanted(p, t)
    ensures |rows| <= |view|
  {
    if view == [] then []
    else
      var rest := Filtered(view[1..], p);
      if Wanted(p, view[0]) then [view[0]] + rest else rest
  }

  lemma {:induction false} SelectFilters(view: seq<Transaction>, where: string, args: seq<Arg>, more: seq<Arg>, p: Params)
    requires WhereMeans(where, args, p)
    ensures Select(view, where, args + more) == Filtered(view, p)
  {
    if view != [] {
      SelectFilters(view[1..], where, args, more, p);
      assert Selects(where, args + more, view[0]) <==> Wanted(p, view[0]);
    }
  }

  /** Go's offset, computed in 64-bit integers. */
  function Offset(page: int, pageSize: int): int {
    Wrap64(Wrap64(page - 1) * pageSize)
  }

  /** A database that evaluates query text with bound arguments: one query counts, the other fetches. The table may
      change between the two, from `counted` to `listed`. */
  datatype Db = Db(count: (string, seq<Arg>) -> nat, fetch: (string, seq<Arg>) -> seq<Transaction>)

  ghost predicate Evaluates(db: Db, counted: seq<Transaction>, listed: seq<Transaction>) {
    && (forall where, args :: db.count(where, args) == |Select(counted, where, args)|)
    && (forall where, args :: db.fetch(where, args) == Select(listed, where, args))
  }

  /** The repository's List. The database refuses a negative LIMIT or OFFSET. The rows and the total are those of
      the filters asked for, each at the moment of its query. */
  method List(ghost counted: seq<Transaction>, ghost listed: seq<Transaction>, db: Db, p: Params)
    returns (r: Option<(seq<Transaction>, int)>)
    requires Evaluates(db, counted, listed)
    ensures var offset := Offset(p.page, p.pageSize);
            if offset < 0 || p.pageSize < 0 then r == None
            else r == Some((Window(Filtered(listed, p), offset, p.pageSize), |Filtered(counted, p)|))
  {
    var where, args, argIdx := BuildClauses(p);
    SelectFilters(counted, where, args, [], p);
    assert args + [] == args;
    var total := db.count(where, args);

    var offset := Offset(p.page, p.pageSize);
    SelectFilters(listed, where, args, [Int(p.pageSize), Int(offset)], p);
    args := args + [Int(p.pageSize), Int(offset)];
    var limitArg, offsetArg := args[argIdx - 1], args[argIdx];
    if limitArg.n < 0 || offsetArg.n < 0 { return None; }
    var found := Window(db.fetch(where, args), offsetArg.n, limitArg.n);

    var txns := ScanRows(found);
    return Some((txns, total));
  }

  /** Reading the result set row by row. */
  method ScanRows(found: seq<Transaction>) returns (txns: seq<Transaction>)
    ensures txns == found
  {
    txns := [];
    for i := 0 to |found|
      invariant txns == found[..i]
    {
      txns := txns + [found[i]];
    }
  }

  // ---- the handler ----

  /** strconv.Atoi with its error ignored: 0 for text that is no number, the nearest bound for one out of range. */
  function Atoi(s: string): int {
    var body := if s != [] && Decimal.IsSign(s[0]) then s[1..] else s;
    if !Decimal.AllDigits(body) then 0
    else if Decimal.ParseInt(s).Some? then Decimal.ParseInt(s).value
    else if s[0] == '-' then MIN_INT64 else MAX_INT64
  }

  function ClampPage(page: int): int {
    if page < 1 then 1 else page
  }

  function ClampSize(size: int): int {
    if size < 1 || size > 100 then 20 else size
  }

  function CeilDiv(total: nat, size: nat): nat
    requires size > 0
  {
    (total + size - 1) / size
  }

  const TWO_53 := 0x20_0000_0000_0000

  /** float64 division: exact on exact quotients, else within half a unit in the last place. */
  ghost predicate Rounded(total: nat, size: nat, f: real)
    requires size > 0
  {
    var q := total as real / size as real;
    && (q.Floor as real == q ==> f == q)
    && q - q / 9007199254740992.0 <= f <= q + q / 9007199254740992.0
  }

  function Ceil(f: real): int {
    if f.Floor as real == f then f.Floor else f.Floor + 1
  }

  /** Rounding never moves the page count while the total is below 2^53. */
  lemma FloatPages(total: nat, size: nat, f: real)
    requires 0 < size && total < TWO_53 && Rounded(total, size, f)
    ensures Ceil(f) == CeilDiv(total, size)
  {
    var k, r := total / size, total % size;
    if r == 0 {
      WholePages(total, size, k, f);
    } else {
      PartPage(total, size, k, r, f);
    }
  }

  lemma WholePages(total: nat, size: nat, k: nat, f: real)
    requires 0 < size && total == k * size && Rounded(total, size, f)
    ensures Ceil(f) == CeilDiv(total, size)
  {
    Quotient(total, size, k, 0);
    CeilExact(total, size, k);
  }

  lemma PartPage(total: nat, size: nat, k: nat, r: nat, f: real)
    requires 0 < r < size && total < TWO_53 && total == k * size + r && Rounded(total, size, f)
    ensures Ceil(f) == CeilDiv(total, size)
  {
    var q := total as real / size as real;
    Quotient(total, size, k, r);
    Small(total, size);
    Fraction(r, size);
    StaysBetween(k, 1.0 / size as real, r as real / size as real, q / 9007199254740992.0, q, f);
    CeilUp(total, size, k, r);
  }

  /** A value off its integer by more than the rounding error stays between the same integers. */
  lemma StaysBetween(k: nat, unit: real, part: real, e: real, q: real, f: real)
    requires q == k as real + part && unit <= part <= 1.0 - unit && e < unit && q - e <= f <= q + e
    ensures Ceil(f) == k + 1
  {
    assert k as real < f < k as real + 1.0;
    assert f.Floor == k;
  }

  lemma Quotient(total: nat, size: nat, k: nat, r: nat)
    requires 0 < size && total == k * size + r
    ensures total as real / size as real == k as real + r as real / size as real
  {
    assert total as real == k as real * size as real + r as real;
  }

  lemma Small(total: nat, size: nat)
    requires 0 < size && total < TWO_53
    ensures (total as real / size as real) / 9007199254740992.0 < 1.0 / size as real
  {
    var d, t := size as real, total as real;
    assert (t / d) / 9007199254740992.0 == (t / 9007199254740992.0) / d;
    assert t / 9007199254740992.0 < 1.0;
    DivLess(t / 9007199254740992.0, 1.0, d);
  }

  lemma DivLess(a: real, b: real, d: real)
    requires a < b && d > 0.0
    ensures a / d < b / d
  {
  }

  lemma Fraction(r: nat, size: nat)
    requires 0 < r < size
    ensures 1.0 / size as real <= r as real / size as real <= 1.0 - 1.0 / size as real
  {
    var d := size as real;
    assert (r as real - 1.0) / d >= 0.0;
    assert r as real / d == (r as real - 1.0) / d + 1.0 / d;
    assert (d - 1.0 - r as real) / d >= 0.0;
    assert 1.0 - 1.0 / d - r as real / d == (d - 1.0 - r as real) / d;
  }

  lemma CeilExact(total: nat, size: nat, k: nat)
    requires 0 < size && total == k * size
    ensures CeilDiv(total, size) == k
  {
    DivUnique(total + size - 1, size, k, size - 1);
  }

  lemma CeilUp(total: nat, size: nat, k: nat, r: nat)
    requires 0 < r < size && total == k * size + r
    ensures CeilDiv(total, size) == k + 1
  {
    assert (k + 1) * size == k * size + size;
    DivUnique(total + size - 1, size, k + 1, r - 1);
  }

  datatype Query = Query(merchant: Uuid, page: string, pageSize: string, status: string, kind: string, from: string, to: string)

  datatype ListResponse = ListResponse(items: seq<TxId>, total: int, page: int, pageSize: int, totalPages: int)

  /** The parameters the handler builds from the query string. Empty text is an absent filter,
      and a bound that does not parse is ignored. */
  function ParamsOf(q: Query): Params {
    Params(q.merchant,
           if q.status != "" then Some(q.status) else None,
           if q.kind != "" then Some(q.kind) else None,
           if q.from != "" then Decimal.ParseInt(q.from) else None,
           if q.to != "" then Decimal.ParseInt(q.to) else None,
           ClampPage(Atoi(q.page)), ClampSize(Atoi(q.pageSize)))
  }

  function Ids(rows: seq<Transaction>): (ids: seq<TxId>)
    ensures |ids| == |rows| && forall i :: 0 <= i < |rows| ==> ids[i] == rows[i].id
  {
    seq(|rows|, i requires 0 <= i < |rows| => rows[i].id)
  }

  /** The page of `rows` that page number `page` stands for. */
  function PageOf(rows: seq<Transaction>, page: nat, size: nat): seq<Transaction>
    requires page >= 1
  {
    Window(rows, (page - 1) * size, size)
  }

  method BuildParams(q: Query) returns (params: Params)
    ensures params == ParamsOf(q)
  {
    var page, pageSize := Atoi(q.page), Atoi(q.pageSize);
    if page < 1 { page := 1; }
    if pageSize < 1 || pageSize > 100 { pageSize := 20; }
    params := Params(q.merchant, None, None, None, None, page, pageSize);
    if q.status != "" { params := params.(status := Some(q.status)); }
    if q.kind != "" { params := params.(kind := Some(q.kind)); }
    if q.from != "" && Decimal.ParseInt(q.from).Some? { params := params.(from := Decimal.ParseInt(q.from)); }
    if q.to != "" && Decimal.ParseInt(q.to).Some? { params := params.(to := Decimal.ParseInt(q.to)); }
  }

  method Items(txns: seq<Transaction>) returns (items: seq<TxId>)
    ensures items == Ids(txns)
  {
    items := [];
    for i := 0 to |txns|
      invariant items == Ids(txns)[..i]
    {
      items := items + [txns[i].id];
    }
  }

  /** The handler. The response is the window of the filtered table at the computed offset, and an error if that is
      negative; while the offset fits in 64 bits, this is the asked page. */
  method ListTransactions(ghost counted: seq<Transaction>, ghost listed: seq<Transaction>, db: Db,
                          divide: (nat, nat) -> real, q: Query)
    returns (r: Option<ListResponse>)
    requires Evaluates(db, counted, listed)
    requires forall total: nat, size: nat :: total < TWO_53 && 0 < size <= 100 ==> Rounded(total, size, divide(total, size))
    ensures var p := ParamsOf(q); var total := |Filtered(counted, p)|; var offset := Offset(p.page, p.pageSize);
            && (r.None? <==> offset < 0)
            && (r.Some? ==>
                  && r.value.page == p.page && r.value.pageSize == p.pageSize && r.value.total == total
                  && r.value.items == Ids(Window(Filtered(listed, p), offset, p.pageSize))
                  && (total < TWO_53 ==> r.value.totalPages == CeilDiv(total, p.pageSize)))
    ensures var p := ParamsOf(q);
            (p.page - 1) * p.pageSize <= MAX_INT64 ==>
              r.Some? && r.value.items == Ids(PageOf(Filtered(listed, p), p.page, p.pageSize))
  {
    var params := BuildParams(q);
    AtoiRange(q.page);
    OffsetExact(params.page, params.pageSize);
    var found := List(counted, listed, db, params);
    if found.None? { return None; }
    var items := Items(found.value.0);
    var total := found.value.1;
    var f := divide(total, params.pageSize);
    if total < TWO_53 { FloatPages(total, params.pageSize, f); }
    r := Some(ListResponse(items, total, params.page, params.pageSize, Ceil(f)));
  }

  lemma AtoiRange(s: string)
    ensures InInt64(Atoi(s))
  {
  }

  // ---- what the query string means ----

  /** Numbers are read as printed; one that does not fit in 64 bits as the nearest that does. */
  lemma NumberRead(k: int)
    ensures Atoi(Decimal.FormatInt(k)) == if k > MAX_INT64 then MAX_INT64 else if k < MIN_INT64 then MIN_INT64 else k
  {
    var s := Decimal.FormatInt(k);
    Decimal.FormatParse(k);
    if k < 0 {
      assert s[1..] == Decimal.Digits(-k);
    } else {
      assert Decimal.IsDigit(s[0]);
    }
  }

  /** Not a number: nothing but a sign, or a character that is no digit behind an optional sign. */
  predicate NoNumber(s: string) {
    var body := if s != [] && (s[0] == '+' || s[0] == '-') then s[1..] else s;
    body == [] || exists i :: 0 <= i < |body| && !('0' <= body[i] <= '9')
  }

  lemma NoNumberRead(s: string)
    requires NoNumber(s)
    ensures Atoi(s) == 0
  {
  }

  /** A printed page number of at least 1 is that page, a printed size of 1 to 100 that size; anything else, be it a number
      out of these ranges or no number at all, is page 1 and size 20. */
  lemma PageRead(q: Query, k: int)
    ensures q.page == Decimal.FormatInt(k) ==>
              ParamsOf(q).page == if k < 1 then 1 else if k > MAX_INT64 then MAX_INT64 else k
    ensures q.pageSize == Decimal.FormatInt(k) ==> ParamsOf(q).pageSize == if 1 <= k <= 100 then k else 20
    ensures NoNumber(q.page) ==> ParamsOf(q).page == 1
    ensures NoNumber(q.pageSize) ==> ParamsOf(q).pageSize == 20
  {
    NumberRead(k);
    if NoNumber(q.page) { NoNumberRead(q.page); }
    if NoNumber(q.pageSize) { NoNumberRead(q.pageSize); }
  }

  predicate StatusIs(t: Transaction, text: string) {
    match t.status
    case PENDING => text == "PENDING"
    case SUCCESS => text == "SUCCESS"
    case FAILED => text == "FAILED"
    case REVERSED => text == "REVERSED"
  }

  predicate KindIs(t: Transaction, text: string) {
    match t.kind
    case PAYMENT => text == "PAYMENT"
    case REFUND => text == "REFUND"
    case TOPUP => text == "TOPUP"
  }

  /** The rows a query string asks for: of the merchant; of the status and type named, if any is; and created between the
      bounds given in seconds, if any are. */
  lemma FiltersRead(q: Query, t: Transaction, from: int, to: int)
    requires q.from != "" ==> q.from == Decimal.FormatInt(from) && InInt64(from)
    requires q.to != "" ==> q.to == Decimal.FormatInt(to) && InInt64(to)
    ensures Wanted(ParamsOf(q), t) <==>
              && t.merchant == q.merchant
              && (q.status != "" ==> StatusIs(t, q.status)) && (q.kind != "" ==> KindIs(t, q.kind))
              && (q.from != "" ==> 1000 * from <= t.createdAt) && (q.to != "" ==> t.createdAt <= 1000 * to)
  {
    Decimal.FormatParse(from);
    Decimal.FormatParse(to);
  }

  /** A bound that is no int64 is as good as none. */
  lemma BadBoundsIgnored(q: Query, from: int, to: int)
    ensures NoNumber(q.from) || (q.from == Decimal.FormatInt(from) && !InInt64(from)) ==> ParamsOf(q) == ParamsOf(q.(from := ""))
    ensures NoNumber(q.to) || (q.to == Decimal.FormatInt(to) && !InInt64(to)) ==> ParamsOf(q) == ParamsOf(q.(to := ""))
  {
    NoBound(q.from, from);
    NoBound(q.to, to);
  }

  lemma NoBound(s: string, k: int)
    ensures NoNumber(s) || (s == Decimal.FormatInt(k) && !InInt64(k)) ==> Decimal.ParseInt(s) == None
  {
    Decimal.FormatParse(k);
  }

  // ---- pages partition the rows ----

  ghost function FirstPages(rows: seq<Transaction>, n: nat, size: nat): seq<Transaction> {
    if n == 0 then [] else FirstPages(rows, n - 1, size) + PageOf(rows, n, size)
  }

  lemma {:induction false} FirstPagesArePrefix(rows: seq<Transaction>, n: nat, size: nat)
    ensures FirstPages(rows, n, size) == rows[..if n * size <= |rows| then n * size else |rows|]
  {
    if n > 0 {
      FirstPagesArePrefix(rows, n - 1, size);
      assert n * size == (n - 1) * size + size;
    }
  }

  /** Pages 1 to TotalPages, one after the other, are exactly the rows; every later page is empty. */
  lemma {:induction false} PagesPartition(rows: seq<Transaction>, size: nat, later: nat)
    requires size > 0 && later > CeilDiv(|rows|, size)
    ensures FirstPages(rows, CeilDiv(|rows|, size), size) == rows
    ensures PageOf(rows, later, size) == []
  {
    var n := CeilDiv(|rows|, size);
    CeilCovers(|rows|, size);
    FirstPagesArePrefix(rows, n, size);
    MulMonotone(n, later - 1, size);
  }

  lemma CeilCovers(total: nat, size: nat)
    requires size > 0
    ensures CeilDiv(total, size) * size >= total
  {
    DivBounds(total + size - 1, size);
  }

  /** So over all pages every ledger row that the filters want appears exactly once, and nothing else does. */
  lemma {:induction false} PagesListTheLedger(ledger: Rows, view: seq<Transaction>, p: Params, id: TxId)
    requires Arranges(view, ledger) && p.pageSize > 0
    ensures var rows := Filtered(view, p); var all := FirstPages(rows, CeilDiv(|rows|, p.pageSize), p.pageSize);
            && (id in ledger && Wanted(p, ledger[id]) <==> exists i :: 0 <= i < |all| && all[i].id == id)
            && Ordered(all)
  {
    var rows := Filtered(view, p);
    PagesPartition(rows, p.pageSize, CeilDiv(|rows|, p.pageSize) + 1);
    FilteredOrdered(view, p);
    FilteredFromLedger(ledger, view, p, id);
  }

  lemma FilteredFromLedger(ledger: Rows, view: seq<Transaction>, p: Params, id: TxId)
    requires Arranges(view, ledger)
    ensures var rows := Filtered(view, p);
            id in ledger && Wanted(p, ledger[id]) <==> exists i :: 0 <= i < |rows| && rows[i].id == id
  {
    var rows := Filtered(view, p);
    if id in ledger && Wanted(p, ledger[id]) {
      var v :| 0 <= v < |view| && view[v].id == id;
      assert view[v] in rows;
      var i :| 0 <= i < |rows| && rows[i] == view[v];
      assert 0 <= i < |rows| && rows[i].id == id;
    }
    if i :| 0 <= i < |rows| && rows[i].id == id {
      ListedIsWanted(ledger, view, p, i);
    }
  }

  lemma ListedIsWanted(ledger: Rows, view: seq<Transaction>, p: Params, i: nat)
    requires Arranges(view, ledger) && i < |Filtered(view, p)|
    ensures var t := Filtered(view, p)[i]; t.id in ledger && ledger[t.id] == t && Wanted(p, t)
  {
    var t := Filtered(view, p)[i];
    assert t in Filtered(view, p);
    var v :| 0 <= v < |view| && view[v] == t;
    assert view[v].id in ledger && ledger[view[v].id] == view[v];
  }

  ghost predicate Ordered(rows: seq<Transaction>) {
    forall i, j :: 0 <= i < j < |rows| ==> rows[i].id != rows[j].id && rows[i].createdAt >= rows[j].createdAt
  }

  lemma {:induction false} FilteredOrdered(view: seq<Transaction>, p: Params)
    requires Ordered(view)
    ensures Ordered(Filtered(view, p))
  {
    if view != [] {
      var tail := view[1..];
      FilteredOrdered(tail, p);
      var rest := Filtered(tail, p);
      forall j | 0 <= j < |rest| ensures view[0].id != rest[j].id && view[0].createdAt >= rest[j].createdAt {
        assert rest[j] in rest && rest[j] in tail;
        var i :| 0 <= i < |tail| && tail[i] == rest[j];
        assert view[0].id != view[i + 1].id;
      }
    }
  }

  /** The offset product has no range check: a page number of 2^62 + 1 with four rows a page wraps around
      to offset 0 and returns the first page, where there should be none. */
  lemma OffsetWraps(t: Transaction)
    ensures Offset(0x4000_0000_0000_0001, 4) == 0
    ensures Window([t], Offset(0x4000_0000_0000_0001, 4), 4) == [t]
    ensures PageOf([t], 0x4000_0000_0000_0001, 4) == []
  {
    assert Wrap64(0x1_0000_0000_0000_0000) == 0;
  }

  /** The computed offset is the intended one exactly when the product fits in 64 bits. */
  lemma OffsetExact(page: int, size: int)
    requires 1 <= page <= MAX_INT64 && 1 <= size <= 100
    ensures Offset(page, size) == (page - 1) * size <==> (page - 1) * size <= MAX_INT64
    ensures (page - 1) * size >= 0
  {
    WrapFixes((page - 1) * size);
    WrapFixes(page - 1);
    MulMonotone(0, page - 1, size);
  }
}
