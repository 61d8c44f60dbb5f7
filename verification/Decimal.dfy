/** Decimal text of integers: strconv.FormatInt, strconv.ParseInt and fmt's %d scanning. */
module Decimal {
  import opened Domain

  predicate IsDigit(c: char) {
    '0' <= c <= '9'
  }

  function Digit(d: nat): char
    requires d < 10
  {
    '0' + d as char
  }

  /** Canonical digits of a natural number. */
  function Digits(n: nat): (s: string)
    ensures s != [] && forall i :: 0 <= i < |s| ==> IsDigit(s[i])
  {
    if n < 10 then [Digit(n)] else Digits(n / 10) + [Digit(n % 10)]
  }

  function FormatInt(x: int): string {
    if x < 0 then "-" + Digits(-x) else Digits(x)
  }

  /** The value of a text made of digits only, however long. */
  function DigitsValue(s: string): nat
    requires forall i :: 0 <= i < |s| ==> IsDigit(s[i])
  {
    if s == [] then 0 else assert IsDigit(s[|s| - 1]); 10 * DigitsValue(s[..|s| - 1]) + (s[|s| - 1] - '0') as nat
  }

  predicate AllDigits(s: string) {
    s != [] && forall i :: 0 <= i < |s| ==> IsDigit(s[i])
  }

  predicate IsSign(c: char) {
    c == '+' || c == '-'
  }

  /** strconv.ParseInt(s, 10, 64): an optional sign, then digits to the end, in range. */
  function ParseInt(s: string): (r: Option<int>)
    ensures r.Some? ==> InInt64(r.value)
  {
    var body := if s != [] && IsSign(s[0]) then s[1..] else s;
    if !AllDigits(body) then None
    else
      var v: int := if s[0] == '-' then -(DigitsValue(body) as int) else DigitsValue(body);
      if InInt64(v) then Some(v) else None
  }

  predicate IsBlank(c: char) {
    IsSpace(c) && c != '\n'
  }

  function DigitPrefix(s: string): (n: nat)
    ensures n <= |s|
    ensures forall i :: 0 <= i < n ==> IsDigit(s[i])
    ensures n < |s| ==> !IsDigit(s[n])
  {
    if s != [] && IsDigit(s[0]) then 1 + DigitPrefix(s[1..]) else 0
  }

  /** fmt.Sscanf(s, "%d", &v): blanks are skipped, the longest digit run is taken, the rest is ignored.
      Returns the value and the unread rest. */
  function ScanInt(s: string): Option<(int, string)>
  {
    if s != [] && IsBlank(s[0]) then ScanInt(s[1..])
    else
      var signed := s != [] && IsSign(s[0]);
      var body := if signed then s[1..] else s;
      var n := DigitPrefix(body);
      var token := if signed then [s[0]] + body[..n] else body[..n];
      match ParseInt(token)
      case None => None
      case Some(v) => Some((v, body[n..]))
  }

  lemma {:induction false} DigitsRoundTrip(n: nat)
    ensures DigitsValue(Digits(n)) == n
  {
    if n >= 10 {
      DigitsRoundTrip(n / 10);
      var s := Digits(n);
      assert s[..|s| - 1] == Digits(n / 10);
    } else {
      assert Digits(n)[..0] == [];
    }
  }

  function Pow10(k: nat): nat {
    if k == 0 then 1 else 10 * Pow10(k - 1)
  }

  lemma {:induction false} DigitsLength(n: nat, k: nat)
    requires k > 0 && n < Pow10(k)
    ensures |Digits(n)| <= k
  {
    if n >= 10 {
      assert Pow10(1) == 10;
      DigitsLength(n / 10, k - 1);
    }
  }

  /** An int64 prints in at most twenty characters. */
  lemma Int64Length(x: int)
    requires InInt64(x)
    ensures |FormatInt(x)| <= 20
  {
    assert Pow10(5) == 100_000;
    assert Pow10(10) == 10_000_000_000;
    assert Pow10(15) == 1_000_000_000_000_000;
    assert Pow10(19) == 10_000_000_000_000_000_000;
    DigitsLength(if x < 0 then -x else x, 19);
  }

  /** Decimal text is positional, the most significant digit first. */
  lemma {:induction false} Positional(a: string, b: string)
    requires (forall i :: 0 <= i < |a| ==> IsDigit(a[i])) && (forall i :: 0 <= i < |b| ==> IsDigit(b[i]))
    ensures forall i :: 0 <= i < |a + b| ==> IsDigit((a + b)[i])
    ensures DigitsValue(a + b) == DigitsValue(a) * Pow10(|b|) + DigitsValue(b)
  {
    if b == [] {
      assert a + b == a;
    } else {
      var b' := b[..|b| - 1];
      Positional(a, b');
      assert (a + b)[..|a + b| - 1] == a + b';
      assert (a + b)[|a + b| - 1] == b[|b| - 1];
      assert Pow10(|b|) == 10 * Pow10(|b'|);
      assert DigitsValue(a) * Pow10(|b|) == 10 * (DigitsValue(a) * Pow10(|b'|));
    }
  }

  /** One digit is worth its place in the alphabet. */
  lemma DigitAlphabet(d: nat)
    requires d < 10
    ensures Digits(d) == ["0123456789"[d]] && DigitsValue(["0123456789"[d]]) == d
  {
    assert IsDigit("0123456789"[d]);
  }

  /** Printing and parsing is the identity exactly on the int64 values. */
  lemma FormatParse(x: int)
    ensures ParseInt(FormatInt(x)) == if InInt64(x) then Some(x) else None
  {
    var s := FormatInt(x);
    var n: nat := if x < 0 then -x else x;
    DigitsRoundTrip(n);
    if x < 0 {
      assert s[1..] == Digits(n);
    } else {
      assert IsDigit(s[0]);
    }
  }

  lemma {:induction false} DigitPrefixAll(s: string)
    requires forall i :: 0 <= i < |s| ==> IsDigit(s[i])
    ensures DigitPrefix(s) == |s|
  {
    if s != [] {
      forall i | 0 <= i < |s[1..]| ensures IsDigit(s[1..][i]) { assert s[1..][i] == s[i + 1]; }
      DigitPrefixAll(s[1..]);
    }
  }

  lemma {:induction false} DigitPrefixStops(s: string, rest: string)
    requires forall i :: 0 <= i < |s| ==> IsDigit(s[i])
    requires rest != [] ==> !IsDigit(rest[0])
    ensures DigitPrefix(s + rest) == |s|
  {
    if s == [] {
      assert s + rest == rest;
    } else {
      assert (s + rest)[1..] == s[1..] + rest;
      forall i | 0 <= i < |s[1..]| ensures IsDigit(s[1..][i]) { assert s[1..][i] == s[i + 1]; }
      DigitPrefixStops(s[1..], rest);
    }
  }

  /** Every text that ParseInt accepts is scanned to the same value, with nothing left over. */
  lemma ScanAgreesWithParse(s: string)
    requires ParseInt(s).Some?
    ensures ScanInt(s) == Some((ParseInt(s).value, []))
  {
    var signed := IsSign(s[0]);
    var body := if signed then s[1..] else s;
    DigitPrefixAll(body);
    assert body[..|body|] == body && body[|body|..] == [];
    if signed { assert [s[0]] + body == s; }
  }

  /** A printed non-negative int64 in front of other text is scanned back, and the text is left. */
  lemma ScanPrinted(x: nat, rest: string)
    requires InInt64(x)
    requires rest != [] ==> !IsDigit(rest[0])
    ensures ScanInt(Digits(x) + rest) == Some((x, rest))
  {
    var d := Digits(x);
    var s := d + rest;
    DigitPrefixStops(d, rest);
    assert s[0] == d[0] && IsDigit(d[0]);
    assert s[..|d|] == d && s[|d|..] == rest;
    FormatParse(x);
  }
}
