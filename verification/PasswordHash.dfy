/** Argon2id password hashes: the printed form and its parser. */
module PasswordHash {
  import opened Domain
  import opened Encryption
  import Decimal
  import Keys

  // ---- base64 without padding, sections 3.2 and 4 of RFC 4648 ----

  function Value64(c: char): (r: Option<nat>)
    ensures r.Some? ==> r.value < 64
    ensures c == '$' || c == '\r' || c == '\n' ==> r.None?
  {
    if 'A' <= c <= 'Z' then Some((c - 'A') as nat)
    else if 'a' <= c <= 'z' then Some((c - 'a') as nat + 26)
    else if '0' <= c <= '9' then Some((c - '0') as nat + 52)
    else if c == '+' then Some(62)
    else if c == '/' then Some(63)
    else None
  }

  function Char64(n: nat): (c: char)
    requires n < 64
    ensures Value64(c) == Some(n)
  {
    if n < 26 then 'A' + n as char
    else if n < 52 then 'a' + (n - 26) as char
    else if n < 62 then '0' + (n - 52) as char
    else if n == 62 then '+' else '/'
  }

  type Sextet = n: nat | n < 64

  /** Eight-bit groups as six-bit groups, the last one filled up with zero bits. */
  function ToSextets(bs: Bytes): seq<Sextet> {
    if bs == [] then []
    else if |bs| == 1 then [bs[0] / 4, bs[0] % 4 * 16]
    else if |bs| == 2 then [bs[0] / 4, bs[0] % 4 * 16 + bs[1] / 16, bs[1] % 16 * 4]
    else [bs[0] / 4, bs[0] % 4 * 16 + bs[1] / 16, bs[1] % 16 * 4 + bs[2] / 64, bs[2] % 64] + ToSextets(bs[3..])
  }

  /** And back; the filling bits are not looked at, and one group alone is no byte. */
  function FromSextets(ns: seq<Sextet>): Option<Bytes> {
    if ns == [] then Some([])
    else if |ns| == 1 then None
    else
      var a: nat, b: nat := ns[0], ns[1];
      if |ns| == 2 then Some([a * 4 + b / 16])
      else
        var c: nat := ns[2];
        if |ns| == 3 then Some([a * 4 + b / 16, b % 16 * 16 + c / 4])
        else
          var d: nat := ns[3];
          match FromSextets(ns[4..])
          case None => None
          case Some(rest) => Some([a * 4 + b / 16, b % 16 * 16 + c / 4, c % 4 * 64 + d] + rest)
  }

  lemma {:induction false} SextetsRoundTrip(bs: Bytes)
    ensures FromSextets(ToSextets(bs)) == Some(bs)
  {
    if |bs| == 1 {
      Regroup(bs[0], 0, 0);
      assert [bs[0]] == bs;
    } else if |bs| == 2 {
      Regroup(bs[0], bs[1], 0);
      assert [bs[0], bs[1]] == bs;
    } else if bs != [] {
      SextetsRoundTrip(bs[3..]);
      assert ToSextets(bs)[4..] == ToSextets(bs[3..]);
      Regroup(bs[0], bs[1], bs[2]);
      assert [bs[0], bs[1], bs[2]] + bs[3..] == bs;
    }
  }

  lemma Regroup(x: Byte, y: Byte, z: Byte)
    ensures var a, b, c, d := x / 4, x % 4 * 16 + y / 16, y % 16 * 4 + z / 64, z % 64;
            a * 4 + b / 16 == x && b % 16 * 16 + c / 4 == y && c % 4 * 64 + d == z
  {
  }

  /** The alphabet: upper case, lower case, digits, plus and slash. */
  lemma Alphabet64(n: nat)
    requires n < 64
    ensures Char64(n) == if n < 26 then Keys.UPPER[n] else if n < 52 then Keys.LOWER[n - 26]
                         else if n < 62 then Keys.DIGITS[n - 52] else if n == 62 then '+' else '/'
  {
    if n < 26 {
      Keys.UpperAt(n);
    } else if n < 52 {
      Keys.LowerAt(n - 26);
    } else if n < 62 {
      Keys.DigitAt(n - 52);
    }
  }

  /** Numbers of two to four digits, in base `b`. */
  function Num(b: int, x: int, y: int): int {
    x * b + y
  }

  /** Each three bytes are printed as four groups of the same 24-bit number, the most significant first. */
  lemma {:induction false} GroupLayout(bs: Bytes, k: nat)
    requires 3 * k + 3 <= |bs|
    ensures var ns := ToSextets(bs);
            && 4 * k + 4 <= |ns|
            && Num(64, Num(64, Num(64, ns[4 * k], ns[4 * k + 1]), ns[4 * k + 2]), ns[4 * k + 3]) ==
               Num(256, Num(256, bs[3 * k], bs[3 * k + 1]), bs[3 * k + 2])
  {
    if k > 0 {
      var ns, rest := ToSextets(bs), bs[3..];
      GroupLayout(rest, k - 1);
      assert ns[4..] == ToSextets(rest);
      assert forall j :: 4 <= j < |ns| ==> ns[j] == ns[4..][j - 4];
      assert forall j :: 3 <= j < |bs| ==> bs[j] == rest[j - 3];
    }
  }

  /** One byte or two that are left over are filled up with zero bits, to two groups or three. */
  lemma {:induction false} TailLayout(bs: Bytes)
    ensures var ns, k := ToSextets(bs), |bs| / 3;
            && (|bs| % 3 == 0 ==> |ns| == 4 * k)
            && (|bs| % 3 == 1 ==> |ns| == 4 * k + 2 && Num(64, ns[4 * k], ns[4 * k + 1]) == Num(16, bs[3 * k], 0))
            && (|bs| % 3 == 2 ==>
                  && |ns| == 4 * k + 3
                  && Num(64, Num(64, ns[4 * k], ns[4 * k + 1]), ns[4 * k + 2]) == Num(4, Num(256, bs[3 * k], bs[3 * k + 1]), 0))
  {
    if |bs| >= 3 {
      var ns, rest := ToSextets(bs), bs[3..];
      TailLayout(rest);
      assert ns[4..] == ToSextets(rest);
      assert forall j :: 4 <= j < |ns| ==> ns[j] == ns[4..][j - 4];
      assert forall j :: 3 <= j < |bs| ==> bs[j] == rest[j - 3];
    }
  }

  predicate Is64(s: string) {
    forall i :: 0 <= i < |s| ==> Value64(s[i]).Some?
  }

  /** base64.RawStdEncoding.EncodeToString. */
  function Encode64(bs: Bytes): (s: string)
    ensures Is64(s)
  {
    var ns := ToSextets(bs);
    seq(|ns|, i requires 0 <= i < |ns| => Char64(ns[i]))
  }

  predicate LineBreak(c: char) {
    c == '\r' || c == '\n'
  }

  function DropLineBreaks(s: string): string {
    if s == [] then [] else (if LineBreak(s[0]) then [] else [s[0]]) + DropLineBreaks(s[1..])
  }

  /** base64.RawStdEncoding.DecodeString: line breaks are skipped, any other character must be of the alphabet. */
  function Decode64(s: string): Option<Bytes> {
    var t := DropLineBreaks(s);
    if !Is64(t) then None
    else FromSextets(seq(|t|, i requires 0 <= i < |t| => Value64(t[i]).value))
  }

  lemma Base64RoundTrip(bs: Bytes)
    ensures Decode64(Encode64(bs)) == Some(bs)
  {
    var s, ns := Encode64(bs), ToSextets(bs);
    NoLineBreaks(s);
    assert seq(|s|, i requires 0 <= i < |s| => Value64(s[i]).value) == ns;
    SextetsRoundTrip(bs);
  }

  lemma {:induction false} NoLineBreaks(s: string)
    requires Is64(s)
    ensures DropLineBreaks(s) == s
  {
    if s != [] {
      assert Value64(s[0]).Some?;
      assert Is64(s[1..]) by { assert forall i :: 0 <= i < |s| - 1 ==> s[1..][i] == s[i + 1]; }
      NoLineBreaks(s[1..]);
    }
  }

  // ---- fields ----

  /** strings.Split(s, "$"). */
  function Split(s: string): (parts: seq<string>)
    ensures parts != []
  {
    if s == [] then [[]]
    else
      var rest := Split(s[1..]);
      if s[0] == '$' then [[]] + rest else [[s[0]] + rest[0]] + rest[1..]
  }

  predicate NoDollar(s: string) {
    forall i :: 0 <= i < |s| ==> s[i] != '$'
  }

  lemma {:induction false} SplitField(a: string, rest: string)
    requires NoDollar(a)
    ensures Split(a + "$" + rest) == [a] + Split(rest)
  {
    var s := a + "$" + rest;
    if a == [] {
      assert s[1..] == rest;
    } else {
      SplitField(a[1..], rest);
      assert s[1..] == a[1..] + "$" + rest;
      assert [a[0]] + a[1..] == a;
    }
  }

  lemma {:induction false} SplitLast(a: string)
    requires NoDollar(a)
    ensures Split(a) == [a]
  {
    if a != [] {
      SplitLast(a[1..]);
      assert [a[0]] + a[1..] == a;
    }
  }

  function Join(parts: seq<string>): string
    requires parts != []
  {
    if |parts| == 1 then parts[0] else parts[0] + "$" + Join(parts[1..])
  }

  /** Fields without the separator are told apart again. */
  lemma {:induction false} SplitJoin(parts: seq<string>)
    requires parts != [] && forall i :: 0 <= i < |parts| ==> NoDollar(parts[i])
    ensures Split(Join(parts)) == parts
  {
    if |parts| == 1 {
      SplitLast(parts[0]);
    } else {
      SplitJoin(parts[1..]);
      SplitField(parts[0], Join(parts[1..]));
    }
  }

  // ---- numbers after literal text ----

  /** Sscanf on literal text. */
  function Literal(s: string, lit: string): Option<string> {
    if |lit| <= |s| && s[..|lit|] == lit then Some(s[|lit|..]) else None
  }

  /** %d into an unsigned integer below `bound`. */
  function ScanUint(s: string, bound: nat): Option<(nat, string)> {
    if s != [] && Decimal.IsBlank(s[0]) then ScanUint(s[1..], bound)
    else
      var n := Decimal.DigitPrefix(s);
      if n == 0 || Decimal.DigitsValue(s[..n]) >= bound then None else Some((Decimal.DigitsValue(s[..n]), s[n..]))
  }

  lemma LiteralRead(lit: string, rest: string)
    ensures Literal(lit + rest, lit) == Some(rest)
  {
    assert (lit + rest)[..|lit|] == lit && (lit + rest)[|lit|..] == rest;
  }

  lemma UintRead(n: nat, bound: nat, rest: string)
    requires n < bound && (rest != [] ==> !Decimal.IsDigit(rest[0]))
    ensures ScanUint(Decimal.Digits(n) + rest, bound) == Some((n, rest))
  {
    var d := Decimal.Digits(n);
    var s := d + rest;
    Decimal.DigitPrefixStops(d, rest);
    Decimal.DigitsRoundTrip(n);
    assert s[0] == d[0] && Decimal.IsDigit(d[0]);
    assert s[..|d|] == d && s[|d|..] == rest;
  }

  const TWO_32 := 0x1_0000_0000

  datatype Params = Params(memory: nat, time: nat, threads: nat, keyLen: nat)

  /** Sscanf(field, "m=%d,t=%d,p=%d", ...) into uint32, uint32 and uint8. */
  function ScanParams(field: string): Option<(nat, nat, nat)> {
    match Literal(field, "m=")
    case None => None
    case Some(s1) =>
    match ScanUint(s1, TWO_32)
    case None => None
    case Some((m, s2)) =>
    match Literal(s2, ",t=")
    case None => None
    case Some(s3) =>
    match ScanUint(s3, TWO_32)
    case None => None
    case Some((t, s4)) =>
    match Literal(s4, ",p=")
    case None => None
    case Some(s5) =>
    match ScanUint(s5, 256)
    case None => None
    case Some((p, _)) => Some((m, t, p))
  }

  function ScanVersion(field: string): Option<int> {
    match Literal(field, "v=")
    case None => None
    case Some(s) =>
      match Decimal.ScanInt(s)
      case None => None
      case Some((v, _)) => Some(v)
  }

  function ParamsField(m: nat, t: nat, p: nat): string {
    "m=" + (Decimal.Digits(m) + (",t=" + (Decimal.Digits(t) + (",p=" + (Decimal.Digits(p) + "")))))
  }

  lemma ParamsRead(m: nat, t: nat, p: nat)
    requires m < TWO_32 && t < TWO_32 && p < 256
    ensures ScanParams(ParamsField(m, t, p)) == Some((m, t, p))
  {
    var tail := ",p=" + (Decimal.Digits(p) + "");
    var mid := ",t=" + (Decimal.Digits(t) + tail);
    LiteralRead("m=", Decimal.Digits(m) + mid);
    UintRead(m, TWO_32, mid);
    LiteralRead(",t=", Decimal.Digits(t) + tail);
    UintRead(t, TWO_32, tail);
    LiteralRead(",p=", Decimal.Digits(p) + "");
    UintRead(p, 256, "");
  }

  // ---- the printed hash ----

  const VERSION := 19
  const MEMORY := 65536
  const TIME := 1
  const THREADS := 4
  const KEY_LEN := 32
  const SALT_LEN := 16

  function VersionField(): string {
    "v=" + Decimal.Digits(VERSION)
  }

  /** The six fields between the `$` signs, the first one empty. */
  function Fields(m: nat, t: nat, p: nat, salt: Bytes, hash: Bytes): seq<string> {
    ["", "argon2id", VersionField(), ParamsField(m, t, p), Encode64(salt), Encode64(hash)]
  }

  function Print(m: nat, t: nat, p: nat, salt: Bytes, hash: Bytes): string {
    Join(Fields(m, t, p, salt, hash))
  }

  datatype Decoded = Decoded(salt: Bytes, hash: Bytes, params: Params)

  /** decodeArgon2Hash. The key length wraps into uint32. */
  function Decode(text: string): Option<Decoded> {
    DecodeFields(Split(text))
  }

  function DecodeFields(parts: seq<string>): Option<Decoded> {
    if |parts| != 6 || parts[1] != "argon2id" || ScanVersion(parts[2]).None? then None
    else
      match (ScanParams(parts[3]), Decode64(parts[4]), Decode64(parts[5]))
      case (Some((m, t, p)), Some(salt), Some(hash)) => Some(Decoded(salt, hash, Params(m, t, p, |hash| % TWO_32)))
      case _ => None
  }

  lemma FieldsPlain(m: nat, t: nat, p: nat, salt: Bytes, hash: Bytes)
    ensures NoDollar(VersionField()) && NoDollar(ParamsField(m, t, p)) && NoDollar(Encode64(salt)) && NoDollar(Encode64(hash))
  {
    DigitsPlain(VERSION);
    DigitsPlain(m);
    DigitsPlain(t);
    DigitsPlain(p);
    Plain64(salt);
    Plain64(hash);
  }

  lemma Plain64(bs: Bytes)
    ensures NoDollar(Encode64(bs))
  {
    var s := Encode64(bs);
    forall i | 0 <= i < |s| ensures s[i] != '$' { assert Value64(s[i]).Some?; }
  }

  lemma DigitsPlain(n: nat)
    ensures NoDollar(Decimal.Digits(n))
  {
    assert forall i :: 0 <= i < |Decimal.Digits(n)| ==> Decimal.IsDigit(Decimal.Digits(n)[i]);
  }

  lemma VersionRead()
    ensures ScanVersion(VersionField()) == Some(VERSION)
  {
    LiteralRead("v=", Decimal.Digits(VERSION));
    assert Decimal.Digits(VERSION) + "" == Decimal.Digits(VERSION);
    Decimal.ScanPrinted(VERSION, "");
  }

  /** Four readable fields behind the algorithm name are read as a whole. */
  lemma FieldsDecode(v: string, f: string, a: string, b: string, p: (nat, nat, nat), salt: Bytes, hash: Bytes)
    requires NoDollar(v) && NoDollar(f) && NoDollar(a) && NoDollar(b)
    requires ScanVersion(v).Some? && ScanParams(f) == Some(p)
    requires Decode64(a) == Some(salt) && Decode64(b) == Some(hash) && |hash| < TWO_32
    ensures Decode(Join(["", "argon2id", v, f, a, b])) == Some(Decoded(salt, hash, Params(p.0, p.1, p.2, |hash|)))
  {
    SplitJoin(["", "argon2id", v, f, a, b]);
  }

  /** Every salt, hash and parameters that fit their fields are decoded from the printed form,
      which has exactly six fields. */
  lemma HashRoundTrip(m: nat, t: nat, p: nat, salt: Bytes, hash: Bytes)
    requires m < TWO_32 && t < TWO_32 && p < 256 && |hash| < TWO_32
    ensures Decode(Print(m, t, p, salt, hash)) == Some(Decoded(salt, hash, Params(m, t, p, |hash|)))
    ensures |Split(Print(m, t, p, salt, hash))| == 6
  {
    VersionRead();
    ParamsRead(m, t, p);
    Base64RoundTrip(salt);
    Base64RoundTrip(hash);
    FieldsPlain(m, t, p, salt, hash);
    FieldsDecode(VersionField(), ParamsField(m, t, p), Encode64(salt), Encode64(hash), (m, t, p), salt, hash);
  }

  // ---- hashing and verifying ----

  /** argon2.IDKey: password, salt, time, memory, threads, key length. */
  type Argon2 = (string, Bytes, nat, nat, nat, nat) -> Bytes

  ghost predicate KeysHaveLength(idKey: Argon2) {
    forall pw, salt, t, m, p, n :: |idKey(pw, salt, t, m, p, n)| == n
  }

  function Hash(idKey: Argon2, password: string, salt: Bytes): string {
    Print(MEMORY, TIME, THREADS, salt, idKey(password, salt, TIME, MEMORY, THREADS, KEY_LEN))
  }

  /** Hashing with a salt buffer filled from the random source. */
  method HashPassword(idKey: Argon2, password: string, random: Bytes) returns (text: Option<string>)
    requires KeysHaveLength(idKey)
    ensures text.None? <==> |random| < SALT_LEN
    ensures text.Some? ==> text.value == Hash(idKey, password, random[..SALT_LEN])
    ensures text.Some? ==> Verify(idKey, password, text.value) == Some(true)
  {
    if |random| < SALT_LEN { return None; }
    var salt := new Byte[SALT_LEN];
    for i := 0 to SALT_LEN
      invariant salt[..i] == random[..i]
    {
      salt[i] := random[i];
    }
    assert salt[..] == salt[..SALT_LEN];
    VerifyHashed(idKey, password, password, salt[..]);
    text := Some(Hash(idKey, password, salt[..]));
  }

  /** The verdict, or none if the stored text does not decode. */
  function Verify(idKey: Argon2, password: string, text: string): Option<bool> {
    match Decode(text)
    case None => None
    case Some(d) =>
      Some(d.hash == idKey(password, d.salt, d.params.time, d.params.memory, d.params.threads, d.params.keyLen))
  }

  /** The stored text, character by character up to the salt. */
  lemma PrintedForm(idKey: Argon2, password: string, salt: Bytes)
    ensures Hash(idKey, password, salt) ==
            "$argon2id$v=19$m=65536,t=1,p=4$" + Encode64(salt) + "$" + Encode64(idKey(password, salt, 1, 65536, 4, 32))
  {
    FixedFields();
    var a, b := Encode64(salt), Encode64(idKey(password, salt, 1, 65536, 4, 32));
    JoinSix("", "argon2id", VersionField(), ParamsField(65536, 1, 4), a, b);
    assert "" + "$" + "argon2id" + "$" + "v=19" + "$" + "m=65536,t=1,p=4" + "$" == "$argon2id$v=19$m=65536,t=1,p=4$";
  }

  lemma JoinSix(a: string, b: string, c: string, d: string, e: string, f: string)
    ensures Join([a, b, c, d, e, f]) == a + "$" + b + "$" + c + "$" + d + "$" + e + "$" + f
  {
    assert [a, b, c, d, e, f] == [a] + [b, c, d, e, f];
    assert [b, c, d, e, f] == [b] + [c, d, e, f];
    assert [c, d, e, f] == [c] + [d, e, f];
    assert [d, e, f] == [d] + [e, f];
    assert [e, f] == [e] + [f];
    JoinCons(a, [b, c, d, e, f]);
    JoinCons(b, [c, d, e, f]);
    JoinCons(c, [d, e, f]);
    JoinCons(d, [e, f]);
    JoinCons(e, [f]);
    assert a + "$" + b + "$" + c + "$" + d + "$" + e + "$" + f ==
           a + "$" + (b + "$" + (c + "$" + (d + "$" + (e + "$" + f))));
  }

  lemma JoinCons(a: string, rest: seq<string>)
    requires rest != []
    ensures Join([a] + rest) == a + "$" + Join(rest)
  {
    assert ([a] + rest)[1..] == rest;
  }

  lemma FixedFields()
    ensures VersionField() == "v=19" && ParamsField(65536, 1, 4) == "m=65536,t=1,p=4"
  {
    assert Decimal.Digits(19) == "19";
    assert Decimal.Digits(65536) == "65536" by {
      assert Decimal.Digits(65) == "65";
      assert Decimal.Digits(655) == "655";
      assert Decimal.Digits(6553) == "6553";
    }
    assert Decimal.Digits(1) == "1" && Decimal.Digits(4) == "4";
  }

  /** What decodes has exactly six fields, the second one naming the algorithm. */
  lemma DecodedFields(text: string)
    requires Decode(text).Some?
    ensures |Split(text)| == 6 && Split(text)[1] == "argon2id" && Join(Split(text)) == text
  {
    JoinSplit(text);
  }

  lemma {:induction false} JoinSplit(s: string)
    ensures Join(Split(s)) == s
  {
    if s != [] {
      JoinSplit(s[1..]);
      var rest := Split(s[1..]);
      if s[0] == '$' {
        assert ([[]] + rest)[1..] == rest;
      } else {
        assert ([[s[0]] + rest[0]] + rest[1..])[1..] == rest[1..];
      }
      assert s == [s[0]] + s[1..];
    }
  }

  /** A stored hash accepts exactly the passwords with the same key: the one just hashed, always. */
  lemma VerifyHashed(idKey: Argon2, password: string, other: string, salt: Bytes)
    requires KeysHaveLength(idKey)
    ensures Verify(idKey, password, Hash(idKey, password, salt)) == Some(true)
    ensures Verify(idKey, other, Hash(idKey, password, salt)) ==
            Some(idKey(other, salt, TIME, MEMORY, THREADS, KEY_LEN) == idKey(password, salt, TIME, MEMORY, THREADS, KEY_LEN))
  {
    var hash := idKey(password, salt, TIME, MEMORY, THREADS, KEY_LEN);
    HashRoundTrip(MEMORY, TIME, THREADS, salt, hash);
  }
}
