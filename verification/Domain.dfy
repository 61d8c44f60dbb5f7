/** The entities of the payment gateway: transactions as stored in the ledger,
    the JSON form that is logged and cached, and 64-bit arithmetic. */
module Domain {

  datatype Option<+T> = None | Some(value: T)

  /** A UUID is identified with its canonical text, section 4 of RFC 9562:
      36 characters, hyphens at 8, 13, 18 and 23, lower-case hex elsewhere. */
  predicate IsUuidText(s: string) {
    |s| == 36 &&
    forall i :: 0 <= i < 36 ==>
      if i == 8 || i == 13 || i == 18 || i == 23 then s[i] == '-'
      else '0' <= s[i] <= '9' || 'a' <= s[i] <= 'f'
  }

  const NIL_UUID: string := "00000000-0000-0000-0000-000000000000"

  type Uuid = s: string | IsUuidText(s) witness NIL_UUID

  /** Unicode white space, as unicode.IsSpace has it. */
  predicate IsSpace(c: char) {
    c == '\t' || c == '\n' || c == '\U{0b}' || c == '\U{0c}' || c == '\r' || c == ' ' ||
    c == '\U{85}' || c == '\U{a0}' || c == '\U{1680}' || '\U{2000}' <= c <= '\U{200a}' ||
    c == '\U{2028}' || c == '\U{2029}' || c == '\U{202f}' || c == '\U{205f}' || c == '\U{3000}'
  }

  type TxId = int
  type WalletId = int

  datatype Kind = PAYMENT | REFUND | TOPUP

  datatype Status = PENDING | SUCCESS | FAILED | REVERSED

  /** A ledger row. Times are in milliseconds. */
  datatype Transaction = Transaction(
    id: TxId,
    ref: string,
    merchant: Uuid,
    wallet: WalletId,
    amount: int,
    amountEncrypted: string,
    kind: Kind,
    status: Status,
    signature: string,
    clientIP: string,
    extraData: Option<string>,
    original: Option<TxId>,
    createdAt: int,
    processedAt: Option<int>)
  {
    predicate IsRefundable() {
      kind == PAYMENT && status == SUCCESS
    }
  }

  /** What json.Marshal keeps of a transaction: `AmountEncrypted` and `Signature` are hidden. */
  datatype Response = Response(
    id: TxId,
    ref: string,
    merchant: Uuid,
    wallet: WalletId,
    amount: int,
    kind: Kind,
    status: Status,
    clientIP: string,
    extraData: Option<string>,
    original: Option<TxId>,
    createdAt: int,
    processedAt: Option<int>)

  function Marshal(t: Transaction): Response {
    Response(t.id, t.ref, t.merchant, t.wallet, t.amount, t.kind, t.status,
             t.clientIP, t.extraData, t.original, t.createdAt, t.processedAt)
  }

  /** The transaction rebuilt from a logged or cached response. */
  function Unmarshal(r: Response): (t: Transaction)
    ensures Marshal(t) == r
    ensures t.amountEncrypted == "" && t.signature == ""
  {
    Transaction(r.id, r.ref, r.merchant, r.wallet, r.amount, "", r.kind, r.status,
                "", r.clientIP, r.extraData, r.original, r.createdAt, r.processedAt)
  }

  const MAX_INT64 := 0x7FFF_FFFF_FFFF_FFFF
  const MIN_INT64 := -0x8000_0000_0000_0000
  const TWO_64 := 0x1_0000_0000_0000_0000

  predicate InInt64(x: int) {
    MIN_INT64 <= x <= MAX_INT64
  }

  /** Go's int64 result of a mathematical value: two's complement wrap-around. */
  function Wrap64(x: int): (r: int)
    ensures InInt64(r)
    ensures InInt64(x) ==> r == x
  {
    (x - MIN_INT64) % TWO_64 + MIN_INT64
  }

  lemma WrapFixes(x: int)
    ensures Wrap64(x) == x <==> InInt64(x)
  {
  }

  /** A wrapped value is congruent to the mathematical one. */
  ghost predicate Congruent(x: int, y: int) {
    exists k :: x == y + k * TWO_64
  }

  lemma WrapCongruent(x: int)
    ensures Congruent(Wrap64(x), x)
  {
    var k := (x - MIN_INT64) / TWO_64;
    assert Wrap64(x) == x + (-k) * TWO_64;
  }

  /** Wrapping an operand first does not change a wrapped sum. */
  lemma Wrap64Add(x: int, y: int)
    ensures Wrap64(Wrap64(x) + y) == Wrap64(x + y)
  {
    var k := (x - MIN_INT64) / TWO_64;
    assert x == Wrap64(x) + k * TWO_64;
    Wrap64Shift(Wrap64(x) + y, k);
  }

  lemma Wrap64Shift(x: int, k: int)
    ensures Wrap64(x + k * TWO_64) == Wrap64(x)
  {
    var a := x - MIN_INT64;
    var q, q' := a / TWO_64, (a + k * TWO_64) / TWO_64;
    assert a == q * TWO_64 + a % TWO_64;
    assert a + k * TWO_64 == q' * TWO_64 + (a + k * TWO_64) % TWO_64;
    assert (q' - q - k) * TWO_64 == a % TWO_64 - (a + k * TWO_64) % TWO_64;
    assert q' - q - k == 0;
  }
}
