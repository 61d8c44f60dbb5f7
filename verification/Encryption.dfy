/** Encrypted values at rest: hex, the nonce-framed ciphertext, and the stored wallet balance. */
module Encryption {
  import opened Domain
  import Decimal

  type Byte = b: nat | b < 256

  type Bytes = seq<Byte>

  // ---- hex, section 8 of RFC 4648, lower case when printed ----

  function HexDigit(n: nat): char
    requires n < 16
  {
    if n < 10 then '0' + n as char else 'a' + (n - 10) as char
  }

  function HexValue(c: char): (r: Option<nat>)
    ensures r.Some? ==> r.value < 16
  {
    if '0' <= c <= '9' then Some((c - '0') as nat)
    else if 'a' <= c <= 'f' then Some((c - 'a') as nat + 10)
    else if 'A' <= c <= 'F' then Some((c - 'A') as nat + 10)
    else None
  }

  function HexEncode(bs: Bytes): string {
    if bs == [] then [] else [HexDigit(bs[0] / 16), HexDigit(bs[0] % 16)] + HexEncode(bs[1..])
  }

  /** hex.DecodeString: either case, an even number of digits. */
  function HexDecode(s: string): Option<Bytes> {
    if s == [] then Some([])
    else if |s| == 1 then None
    else
      match (HexValue(s[0]), HexValue(s[1]), HexDecode(s[2..]))
      case (Some(hi), Some(lo), Some(rest)) => Some([hi * 16 + lo] + rest)
      case _ => None
  }

  function Lower(s: string): string {
    seq(|s|, i requires 0 <= i < |s| => if 'A' <= s[i] <= 'F' then s[i] - 'A' + 'a' else s[i])
  }

  /** Byte `i` is printed as two characters of the alphabet, its high half first. */
  lemma {:induction false} HexLayout(bs: Bytes, i: nat)
    requires i < |bs|
    ensures |HexEncode(bs)| == 2 * |bs|
    ensures HexEncode(bs)[2 * i] == "0123456789abcdef"[bs[i] / 16] && HexEncode(bs)[2 * i + 1] == "0123456789abcdef"[bs[i] % 16]
  {
    HexLength(bs);
    HexAlphabet(bs[0] / 16);
    HexAlphabet(bs[0] % 16);
    if i > 0 {
      HexLayout(bs[1..], i - 1);
      assert HexEncode(bs)[2..] == HexEncode(bs[1..]);
      assert HexEncode(bs)[2 * i] == HexEncode(bs)[2..][2 * (i - 1)];
      assert HexEncode(bs)[2 * i + 1] == HexEncode(bs)[2..][2 * (i - 1) + 1];
    }
  }

  lemma {:induction false} HexLength(bs: Bytes)
    ensures |HexEncode(bs)| == 2 * |bs|
  {
    if bs != [] { HexLength(bs[1..]); }
  }

  lemma HexAlphabet(n: nat)
    requires n < 16
    ensures HexDigit(n) == "0123456789abcdef"[n]
  {
  }

  lemma {:induction false} HexRoundTrip(bs: Bytes)
    ensures HexDecode(HexEncode(bs)) == Some(bs)
  {
    if bs != [] {
      HexRoundTrip(bs[1..]);
      var s := HexEncode(bs);
      assert s[2..] == HexEncode(bs[1..]);
      assert bs[0] / 16 * 16 + bs[0] % 16 == bs[0];
      assert [bs[0]] + bs[1..] == bs;
    }
  }

  /** What decodes is the printed form of the result, up to letter case, and nothing else does. */
  lemma {:induction false} HexDecodesOnlyPrinted(s: string)
    ensures HexDecode(s).Some? ==> HexEncode(HexDecode(s).value) == Lower(s)
  {
    if HexDecode(s).Some? && s != [] {
      var rest := s[2..];
      HexDecodesOnlyPrinted(rest);
      var bs := HexDecode(s).value;
      assert bs[1..] == HexDecode(rest).value;
      var hi, lo := HexValue(s[0]).value, HexValue(s[1]).value;
      assert bs[0] / 16 == hi && bs[0] % 16 == lo;
      assert HexEncode(bs) == [HexDigit(hi), HexDigit(lo)] + Lower(rest);
    }
  }

  // ---- AES-256-GCM as an authenticated cipher with an explicit nonce ----

  const NONCE_SIZE := 12

  datatype Cipher = Cipher(seal: (Bytes, Bytes) -> Bytes, open: (Bytes, Bytes) -> Option<Bytes>)

  /** All that is asked of the cipher: what was sealed under a nonce opens under it. */
  ghost predicate Sound(c: Cipher) {
    forall nonce: Bytes, plain: Bytes :: |nonce| == NONCE_SIZE ==> c.open(nonce, c.seal(nonce, plain)) == Some(plain)
  }

  function Framed(c: Cipher, nonce: Bytes, plain: Bytes): string {
    HexEncode(nonce + c.seal(nonce, plain))
  }

  /** Encrypt: fill a nonce buffer from the random source, seal behind it, print in hex. */
  method Encrypt(c: Cipher, random: Bytes, plain: Bytes) returns (text: Option<string>)
    ensures |random| < NONCE_SIZE ==> text == None
    ensures |random| >= NONCE_SIZE ==> text == Some(Framed(c, random[..NONCE_SIZE], plain))
    ensures |random| >= NONCE_SIZE ==> text == Some(HexEncode(random[..12] + c.seal(random[..12], plain)))
  {
    if |random| < NONCE_SIZE { return None; }
    var nonce := new Byte[NONCE_SIZE];
    for i := 0 to NONCE_SIZE
      invariant nonce[..i] == random[..i]
    {
      nonce[i] := random[i];
    }
    assert nonce[..] == nonce[..NONCE_SIZE];
    text := Some(HexEncode(nonce[..] + c.seal(nonce[..], plain)));
  }

  function Decrypt(c: Cipher, text: string): Option<Bytes> {
    match HexDecode(text)
    case None => None
    case Some(bs) =>
      if |bs| < NONCE_SIZE then None else c.open(bs[..NONCE_SIZE], bs[NONCE_SIZE..])
  }

  /** Whatever nonce was drawn, decryption gives the plaintext back. */
  lemma DecryptFramed(c: Cipher, nonce: Bytes, plain: Bytes)
    requires Sound(c) && |nonce| == NONCE_SIZE
    ensures Decrypt(c, Framed(c, nonce, plain)) == Some(plain)
  {
    var bs := nonce + c.seal(nonce, plain);
    HexRoundTrip(bs);
    assert bs[..NONCE_SIZE] == nonce && bs[NONCE_SIZE..] == c.seal(nonce, plain);
  }

  // ---- the stored balance ----

  predicate Ascii(s: string) {
    forall i :: 0 <= i < |s| ==> s[i] < '\U{80}'
  }

  function ToBytes(s: string): Bytes
    requires Ascii(s)
  {
    seq(|s|, i requires 0 <= i < |s| => s[i] as nat)
  }

  /** Text of decrypted bytes; other than ASCII never parses as a number. */
  function ToText(bs: Bytes): string {
    seq(|bs|, i requires 0 <= i < |bs| => bs[i] as char)
  }

  lemma FormatIsAscii(v: int)
    ensures Ascii(Decimal.FormatInt(v))
  {
    var n: nat := if v < 0 then -v else v;
    assert forall i :: 0 <= i < |Decimal.Digits(n)| ==> Decimal.IsDigit(Decimal.Digits(n)[i]);
  }

  function Plain(v: int): Bytes {
    FormatIsAscii(v); ToBytes(Decimal.FormatInt(v))
  }

  /** How a balance is written. */
  function StoreBalance(c: Cipher, nonce: Bytes, v: int): string {
    Framed(c, nonce, Plain(v))
  }

  /** How the payment service reads one. */
  function ReadBalance(c: Cipher, text: string): Option<int> {
    match Decrypt(c, text)
    case None => None
    case Some(bs) => Decimal.ParseInt(ToText(bs))
  }

  /** How the reporting service reads one. */
  function ReportBalance(c: Cipher, text: string): Option<int> {
    match Decrypt(c, text)
    case None => None
    case Some(bs) =>
      match Decimal.ScanInt(ToText(bs))
      case None => None
      case Some((v, _)) => Some(v)
  }

  /** Every int64 written is read back, under any nonce; a value outside int64 is not. */
  lemma BalanceRoundTrip(c: Cipher, nonce: Bytes, v: int)
    requires Sound(c) && |nonce| == NONCE_SIZE
    ensures ReadBalance(c, StoreBalance(c, nonce, v)) == if InInt64(v) then Some(v) else None
  {
    DecryptFramed(c, nonce, Plain(v));
    assert ToText(Plain(v)) == Decimal.FormatInt(v);
    Decimal.FormatParse(v);
  }

  /** The two readers agree on every text the payment service accepts, written by the service or not. */
  lemma ReadersAgree(c: Cipher, text: string)
    requires ReadBalance(c, text).Some?
    ensures ReportBalance(c, text) == ReadBalance(c, text)
  {
    Decimal.ScanAgreesWithParse(ToText(Decrypt(c, text).value));
  }
}
